/** Parsing the printed header gives back the NPU registers. */
module HeaderRoundTrip {
  import opened Json
  import opened Text
  import opened Hex
  import opened Header

  // ---------- how much of a text the search skips ----------

  predicate NoHash(s: string) {
    forall c :: c in s ==> c != '#'
  }

  lemma NoHashAppend(a: string, b: string)
    ensures NoHash(a + b) <==> NoHash(a) && NoHash(b)
  {
    assert forall c :: c in a + b <==> c in a || c in b;
  }

  lemma NotAtKeyword(s: string)
    requires s == "" || s[0] != '#'
    ensures MatchHere(s) == None
  {
    assert KEYWORD[0] == '#';
  }

  lemma {:induction false} SkipClean(a: string, rest: string)
    requires NoHash(a)
    ensures FindAll(a + rest) == FindAll(rest)
  {
    if a == "" {
      assert a + rest == rest;
    } else {
      assert a[0] in a;
      NotAtKeyword(a + rest);
      assert (a + rest)[1..] == a[1..] + rest;
      assert forall c :: c in a[1..] ==> c in a;
      SkipClean(a[1..], rest);
    }
  }

  /** A line that begins with '#' but does not match is skipped whole. */
  lemma SkipUnmatched(tail: string, rest: string)
    requires NoHash(tail) && MatchHere("#" + tail + rest) == None
    ensures FindAll("#" + tail + rest) == FindAll(rest)
  {
    var s := "#" + tail + rest;
    assert s[1..] == tail + rest;
    SkipClean(tail, rest);
  }

  // ---------- what a block of lines contributes ----------

  /** Whatever follows the block, the search finds these entries in it and then goes on behind it. */
  ghost predicate Yields(lines: seq<string>, entries: seq<Entry>) {
    forall rest :: FindAll(Unlines(lines) + rest) == entries + FindAll(rest)
  }

  ghost predicate LineYields(line: string, entries: seq<Entry>) {
    forall rest :: FindAll(line + ("\n" + rest)) == entries + FindAll(rest)
  }

  lemma UnlinesOne(line: string)
    ensures Unlines([line]) == line + "\n"
  {
    assert [line][1..] == [];
  }

  lemma Regroup(a: string, b: string, c: string)
    ensures a + b + c == a + (b + c)
  {
  }

  lemma OneLine(line: string, entries: seq<Entry>)
    requires LineYields(line, entries)
    ensures Yields([line], entries)
  {
    UnlinesOne(line);
    forall rest
      ensures FindAll(Unlines([line]) + rest) == entries + FindAll(rest)
    {
      Regroup(line, "\n", rest);
    }
  }

  lemma {:induction false} UnlinesAppend(a: seq<string>, b: seq<string>)
    ensures Unlines(a + b) == Unlines(a) + Unlines(b)
  {
    if a == [] {
      assert a + b == b;
    } else {
      UnlinesAppend(a[1..], b);
      assert (a + b)[1..] == a[1..] + b;
    }
  }

  lemma YieldsAppend(a: seq<string>, x: seq<Entry>, b: seq<string>, y: seq<Entry>)
    requires Yields(a, x) && Yields(b, y)
    ensures Yields(a + b, x + y)
  {
    hide FindAll, Unlines;
    UnlinesAppend(a, b);
    forall rest
      ensures FindAll(Unlines(a + b) + rest) == (x + y) + FindAll(rest)
    {
      assert Unlines(a + b) + rest == Unlines(a) + (Unlines(b) + rest);
      assert FindAll(Unlines(b) + rest) == y + FindAll(rest);
      assert x + (y + FindAll(rest)) == (x + y) + FindAll(rest);
    }
  }

  lemma NothingYields()
    ensures Yields([], [])
  {
    forall rest
      ensures FindAll(Unlines([]) + rest) == [] + FindAll(rest)
    {
      assert Unlines([]) + rest == rest;
    }
  }

  /** A block of lines none of which contributes. */
  lemma {:induction false} QuietBlock(lines: seq<string>)
    requires forall l :: l in lines ==> LineYields(l, [])
    ensures Yields(lines, [])
  {
    if lines == [] {
      NothingYields();
    } else {
      OneLine(lines[0], []);
      QuietBlock(lines[1..]);
      YieldsAppend([lines[0]], [], lines[1..], []);
      assert [lines[0]] + lines[1..] == lines;
      var none: seq<Entry> := [];
      assert none + none == none;
    }
  }

  // ---------- the kinds of lines ----------

  lemma CleanLine(line: string)
    requires NoHash(line)
    ensures LineYields(line, [])
  {
    forall rest
      ensures FindAll(line + ("\n" + rest)) == [] + FindAll(rest)
    {
      SkipClean(line, "\n" + rest);
      SkipClean("\n", rest);
    }
  }

  /** A directive other than `#define`. */
  lemma OtherDirective(tail: string)
    requires NoHash(tail) && tail != "" && tail[0] != 'd'
    ensures LineYields("#" + tail, [])
  {
    forall rest
      ensures FindAll("#" + tail + ("\n" + rest)) == [] + FindAll(rest)
    {
      var s := "#" + tail + ("\n" + rest);
      assert s[1] == tail[0] && KEYWORD[1] == 'd';
      assert MatchHere(s) == None;
      SkipUnmatched(tail, "\n" + rest);
      SkipClean("\n", rest);
    }
  }

  lemma AfterKeyword(body: string)
    requires body != "" && !IsSpace(body[0])
    ensures MatchHere("#define " + body) == MatchName(body)
  {
    assert "#define " + body == KEYWORD + (" " + body);
    DropOf(KEYWORD, " " + body);
    SpanOf(" ", body, IsSpace);
  }

  /** A definition whose name does not match the pattern. */
  lemma QuietDefine(body: string)
    requires NoHash(body) && body != "" && !IsSpace(body[0])
    requires forall rest :: MatchName(body + ("\n" + rest)) == None
    ensures LineYields("#define " + body, [])
  {
    forall rest
      ensures FindAll("#define " + body + ("\n" + rest)) == [] + FindAll(rest)
    {
      var tail := "define " + body;
      assert "#define " + body + ("\n" + rest) == "#define " + (body + ("\n" + rest));
      assert "#define " + body + ("\n" + rest) == "#" + tail + ("\n" + rest);
      AfterKeyword(body + ("\n" + rest));
      assert NoHash(tail) by {
        assert forall c :: c in tail ==> c in "define " || c in body;
      }
      SkipUnmatched(tail, "\n" + rest);
      SkipClean("\n", rest);
    }
  }

  /** A definition of some other E1 name. */
  lemma OtherDefine(tail: string)
    requires NoHash(tail) && tail != "" && tail[0] != 'N'
    ensures LineYields("#define " + ("E1_" + tail), [])
  {
    var body := "E1_" + tail;
    assert NoHash(body) by {
      assert forall c :: c in body ==> c in "E1_" || c in tail;
    }
    forall rest
      ensures MatchName(body + ("\n" + rest)) == None
    {
      assert (body + ("\n" + rest))[3] == tail[0] && NPU_PREFIX[3] == 'N';
    }
    QuietDefine(body);
  }

  // ---------- register lines ----------

  /** What a register contributes to the parsed header. */
  function Expected(r: Register): seq<Entry> {
    if r.name != "" && r.offset >= 0 then [Entry(r.name, Pad(Digits(r.offset), 2))] else []
  }

  function ExpectedAll(registers: seq<Register>): seq<Entry> {
    if registers == [] then [] else Expected(registers[0]) + ExpectedAll(registers[1..])
  }

  lemma FmtHexClean(v: int, width: nat)
    ensures NoHash(FmtHex(v, width)) && FmtHex(v, width) != ""
  {
    hide Pad, Digits;
    if v >= 0 {
      PaddedClean(v, width);
      NoHashAppend("0x", Pad(Digits(v), width));
    } else {
      var body := Pad(Digits(-v), width - 1);
      PaddedClean(-v, width - 1);
      NoHashAppend("-", body);
      NoHashAppend("0x", "-" + body);
    }
  }

  lemma PaddedClean(v: nat, width: int)
    ensures NoHash(Pad(Digits(v), width))
  {
    PaddedValue(v, width);
  }

  lemma NameClean(s: string)
    requires AllName(s)
    ensures NoHash(s)
  {
  }

  /** The text after `E1_NPU_` on a register line. */
  function RegisterTail(r: Register): string {
    r.name + SUFFIX + (" " + (FmtHex(r.offset, 2) + "u"))
  }

  lemma RegisterMatch(r: Register, rest: string)
    requires AllName(r.name)
    ensures var m := MatchRun(RegisterTail(r) + ("\n" + rest));
            m == if Expected(r) == [] then None else Some((Expected(r)[0], "\n" + rest))
  {
    var value := FmtHex(r.offset, 2) + "u" + ("\n" + rest);
    var after := " " + value;
    assert RegisterTail(r) + ("\n" + rest) == r.name + SUFFIX + after;
    if r.name == "" {
      assert "" + SUFFIX == SUFFIX;
      assert forall i :: 0 <= i < |SUFFIX| ==> IsNameChar(SUFFIX[i]);
      SpanOf(SUFFIX, after, IsNameChar);
    } else {
      RunComplete(r.name, after);
      assert value[0] == '0';
      GapComplete(" ", value, r.name);
      ValueMatch(r.offset, r.name, rest);
    }
  }

  lemma ValueMatch(v: int, name: string, rest: string)
    ensures MatchDigits(FmtHex(v, 2) + "u" + ("\n" + rest), name) ==
            if v >= 0 then Some((Entry(name, Pad(Digits(v), 2)), "\n" + rest)) else None
  {
    if v >= 0 {
      var digits := Pad(Digits(v), 2);
      PaddedValue(v, 2);
      Regroup("0x", digits, "u");
      Regroup("0x", digits + "u", "\n" + rest);
      Regroup(digits, "u", "\n" + rest);
      DigitsComplete(name, digits, "\n" + rest);
    } else {
      var digits := "-" + Pad(Digits(-v), 1);
      Regroup("0x", digits, "u");
      Regroup("0x", digits + "u", "\n" + rest);
      NoDigits(digits + "u" + ("\n" + rest), name);
    }
  }

  lemma NoDigits(s: string, name: string)
    requires s != "" && !IsHexDigit(s[0])
    ensures MatchDigits("0x" + s, name) == None
  {
    DropOf("0x", s);
  }

  lemma RegisterLineText(r: Register)
    ensures OffsetLine(NPU_PREFIX, r) == "#define " + (NPU_PREFIX + RegisterTail(r))
  {
    var value := FmtHex(r.offset, 2);
    assert OffsetLine(NPU_PREFIX, r) == "#define " + (NPU_PREFIX + r.name + "_OFFSET") + " " + value + "u";
    assert SUFFIX == "_OFFSET";
    Regroup(NPU_PREFIX, r.name, SUFFIX);
    assert "#define " + (NPU_PREFIX + (r.name + SUFFIX)) + " " + value + "u" ==
           "#define " + (NPU_PREFIX + (r.name + SUFFIX + (" " + (value + "u"))));
  }

  lemma RegisterTailClean(r: Register)
    requires AllName(r.name)
    ensures NoHash(NPU_PREFIX + RegisterTail(r))
  {
    FmtHexClean(r.offset, 2);
    var value := FmtHex(r.offset, 2);
    assert forall c :: c in NPU_PREFIX + RegisterTail(r) ==>
                         c in NPU_PREFIX || c in r.name || c in SUFFIX || c == ' ' || c in value || c == 'u';
    assert NoHash(NPU_PREFIX) && NoHash(SUFFIX);
  }

  /** A register line of the NPU yields its entry, and nothing if the name is empty or the offset negative. */
  lemma RegisterLine(r: Register)
    requires AllName(r.name)
    ensures LineYields(OffsetLine(NPU_PREFIX, r), Expected(r))
  {
    RegisterLineText(r);
    RegisterTailClean(r);
    var tail := RegisterTail(r);
    hide RegisterTail, OffsetLine, Expected, MatchName, FindAll;
    if Expected(r) == [] {
      forall rest
        ensures MatchName((NPU_PREFIX + tail) + ("\n" + rest)) == None
      {
        NameAfterPrefix(r, rest);
      }
      QuietDefine(NPU_PREFIX + tail);
    } else {
      forall rest
        ensures FindAll(OffsetLine(NPU_PREFIX, r) + ("\n" + rest)) == Expected(r) + FindAll(rest)
      {
        FoundInLine(r, rest);
      }
    }
  }

  lemma NameAfterPrefix(r: Register, rest: string)
    requires AllName(r.name)
    ensures MatchName((NPU_PREFIX + RegisterTail(r)) + ("\n" + rest)) ==
            if Expected(r) == [] then None else Some((Expected(r)[0], "\n" + rest))
  {
    hide RegisterTail, Expected, MatchRun;
    var tail := RegisterTail(r);
    Regroup(NPU_PREFIX, tail, "\n" + rest);
    DropOf(NPU_PREFIX, tail + ("\n" + rest));
    RegisterMatch(r, rest);
  }

  lemma FoundInLine(r: Register, rest: string)
    requires AllName(r.name) && Expected(r) != []
    ensures FindAll(OffsetLine(NPU_PREFIX, r) + ("\n" + rest)) == Expected(r) + FindAll(rest)
  {
    RegisterLineText(r);
    var body, e := NPU_PREFIX + RegisterTail(r), Expected(r)[0];
    assert Expected(r) == [e];
    VisibleStart(RegisterTail(r), "\n" + rest);
    hide *;
    Regroup("#define ", body, "\n" + rest);
    NameAfterPrefix(r, rest);
    AfterKeyword(body + ("\n" + rest));
    FindMatched("#define " + (body + ("\n" + rest)), e, "\n" + rest);
    SkipBreak(rest);
  }

  lemma VisibleStart(tail: string, rest: string)
    ensures NPU_PREFIX + tail + rest != "" && !IsSpace((NPU_PREFIX + tail + rest)[0])
  {
    assert NPU_PREFIX[0] == 'E';
  }

  lemma SkipBreak(rest: string)
    ensures FindAll("\n" + rest) == FindAll(rest)
  {
    SkipClean("\n", rest);
  }

  lemma FindMatched(s: string, e: Entry, rest: string)
    requires MatchHere(s) == Some((e, rest))
    ensures FindAll(s) == [e] + FindAll(rest)
  {
    MatchSound(s);
  }

  lemma {:induction false} NpuBlock(registers: seq<Register>)
    requires forall r :: r in registers ==> AllName(r.name)
    ensures Yields(OffsetLines(NPU_PREFIX, registers), ExpectedAll(registers))
  {
    if registers == [] {
      NothingYields();
      assert OffsetLines(NPU_PREFIX, registers) == [];
    } else {
      RegisterLine(registers[0]);
      OneLine(OffsetLine(NPU_PREFIX, registers[0]), Expected(registers[0]));
      NpuBlock(registers[1..]);
      YieldsAppend([OffsetLine(NPU_PREFIX, registers[0])], Expected(registers[0]),
                   OffsetLines(NPU_PREFIX, registers[1..]), ExpectedAll(registers[1..]));
      assert OffsetLines(NPU_PREFIX, registers) ==
             [OffsetLine(NPU_PREFIX, registers[0])] + OffsetLines(NPU_PREFIX, registers[1..]);
    }
  }

  // ---------- the lines of the other regions and the fixed lines ----------

  lemma DefineText(tail: string, value: string)
    ensures Define("E1_" + tail, value) == "#define " + ("E1_" + (tail + " " + value + "u"))
  {
  }

  lemma OtherValue(tail: string, value: string)
    requires NoHash(tail) && tail != "" && tail[0] != 'N' && NoHash(value)
    ensures LineYields(Define("E1_" + tail, value), [])
  {
    DefineText(tail, value);
    NoHashAppend(tail, " ");
    NoHashAppend(tail + " ", value);
    NoHashAppend(tail + " " + value, "u");
    OtherDefine(tail + " " + value + "u");
  }

  lemma DecimalClean(v: int)
    ensures NoHash(Decimal(v))
  {
    if v < 0 {
      assert forall c :: c in Decimal(v) ==> c == '-' || c in DecimalDigits(-v);
    }
  }

  lemma OtherHex(tail: string, v: int)
    requires AllName(tail) && tail != "" && tail[0] != 'N'
    ensures LineYields(Define("E1_" + tail, FmtHex(v, 8)), [])
  {
    NameClean(tail);
    FmtHexClean(v, 8);
    OtherValue(tail, FmtHex(v, 8));
  }

  lemma OtherDecimal(tail: string, v: int)
    requires AllName(tail) && tail != "" && tail[0] != 'N'
    ensures LineYields(Define("E1_" + tail, Decimal(v)), [])
  {
    NameClean(tail);
    DecimalClean(v);
    OtherValue(tail, Decimal(v));
  }

  /** The base address of the NPU: its name lacks the suffix. */
  lemma NpuBaseLine(v: int)
    ensures LineYields(Define(NPU_PREFIX + "BASE", FmtHex(v, 8)), [])
  {
    var value := FmtHex(v, 8);
    var after := "BASE" + (" " + value + "u");
    FmtHexClean(v, 8);
    NoHashAppend(" ", value);
    NoHashAppend(" " + value, "u");
    NoHashAppend("BASE", " " + value + "u");
    NoHashAppend(NPU_PREFIX, after);
    BaseText(value);
    forall rest
      ensures MatchName((NPU_PREFIX + after) + ("\n" + rest)) == None
    {
      BaseIsNoRegister(" " + value + "u", rest);
    }
    hide FmtHex, NoHash;
    QuietDefine(NPU_PREFIX + after);
  }

  lemma BaseText(value: string)
    ensures Define(NPU_PREFIX + "BASE", value) == "#define " + (NPU_PREFIX + ("BASE" + (" " + value + "u")))
  {
  }

  lemma BaseIsNoRegister(after: string, rest: string)
    requires after != "" && after[0] == ' '
    ensures MatchName((NPU_PREFIX + ("BASE" + after)) + ("\n" + rest)) == None
  {
    Regroup(NPU_PREFIX, "BASE" + after, "\n" + rest);
    Regroup("BASE", after, "\n" + rest);
    DropOf(NPU_PREFIX, "BASE" + (after + ("\n" + rest)));
    SpanOf("BASE", after + ("\n" + rest), IsNameChar);
  }

  lemma OtherRegisterLine(tail: string, r: Register)
    requires AllName(tail) && tail != "" && tail[0] != 'N' && AllName(r.name)
    ensures LineYields(OffsetLine("E1_" + tail, r), [])
  {
    var name, value := tail + r.name + "_OFFSET", FmtHex(r.offset, 2);
    NameClean(tail);
    NameClean(r.name);
    NoHashAppend(tail, r.name);
    NoHashAppend(tail + r.name, "_OFFSET");
    FmtHexClean(r.offset, 2);
    assert "E1_" + tail + r.name + "_OFFSET" == "E1_" + name;
    hide NoHash, FmtHex, LineYields, Define;
    OtherValue(name, value);
  }

  lemma {:induction false} OtherRegion(tail: string, registers: seq<Register>)
    requires AllName(tail) && tail != "" && tail[0] != 'N'
    requires forall r :: r in registers ==> AllName(r.name)
    ensures Yields(RegionLines("E1_" + tail, registers), [])
  {
    hide OffsetLine, LineYields, Yields, AllName;
    var lines := RegionLines("E1_" + tail, registers);
    forall l | l in lines
      ensures LineYields(l, [])
    {
      if i :| 0 <= i < |registers| && l == OffsetLine("E1_" + tail, registers[i]) {
        assert registers[i] in registers;
        OtherRegisterLine(tail, registers[i]);
      } else {
        assert l == "";
        CleanLine("");
      }
    }
    QuietBlock(lines);
  }

  lemma NotesClean()
    ensures NoHash(GENERATED_NOTE) && NoHash(IMPORTED_NOTE)
  {
    assert NoHash("sw/platform/") && NoHash("e1_platform_contract.json");
    assert NoHash(CONTRACT_FILE) by {
      assert forall c :: c in CONTRACT_FILE ==> c in "sw/platform/" || c in "e1_platform_contract.json";
    }
    var made, copied, end := "/* Generated from ", "/* Generated import copy from ", ". */";
    assert NoHash(made) && NoHash(copied) && NoHash(end);
    assert forall c :: c in GENERATED_NOTE ==> c in made || c in CONTRACT_FILE || c in end;
    assert forall c :: c in IMPORTED_NOTE ==> c in copied || c in CONTRACT_FILE || c in end;
  }

  lemma FixedQuiet(c: Contract)
    ensures Yields(FixedLines(c), [])
  {
    NotesClean();
    CleanLine(GENERATED_NOTE);
    OneLine(GENERATED_NOTE, []);
    PreambleQuiet();
    VersionQuiet(c);
    BootQuiet(c);
    BaseQuiet(c);
    YieldsAppend([GENERATED_NOTE], [], Preamble(), []);
    YieldsAppend([GENERATED_NOTE] + Preamble(), [], VersionLines(c), []);
    YieldsAppend([GENERATED_NOTE] + Preamble() + VersionLines(c), [], BootLines(c), []);
    YieldsAppend([GENERATED_NOTE] + Preamble() + VersionLines(c) + BootLines(c), [], BaseLines(c), []);
    var none: seq<Entry> := [];
    assert none + none == none;
  }

  lemma PreambleText()
    ensures Preamble() == ["#" + "ifndef E1_PLATFORM_CONTRACT_H", "#define " + ("E1_" + "PLATFORM_CONTRACT_H"), ""]
    ensures NoHash("ifndef E1_PLATFORM_CONTRACT_H") && NoHash("PLATFORM_CONTRACT_H")
  {
    assert "#ifndef E1_PLATFORM_CONTRACT_H" == "#" + "ifndef E1_PLATFORM_CONTRACT_H";
    assert "#define E1_" + "PLATFORM_CONTRACT_H" == "#define " + ("E1_" + "PLATFORM_CONTRACT_H");
  }

  lemma PreambleQuiet()
    ensures Yields(Preamble(), [])
  {
    PreambleText();
    hide NoHash, LineYields, Yields, Preamble;
    OtherDirective("ifndef E1_PLATFORM_CONTRACT_H");
    OtherDefine("PLATFORM_CONTRACT_H");
    QuietEmptyLine();
    QuietBlock(Preamble());
  }

  lemma QuietEmptyLine()
    ensures LineYields("", [])
  {
    CleanLine("");
  }

  lemma VersionQuiet(c: Contract)
    ensures Yields(VersionLines(c), [])
  {
    hide LineYields, Yields, FmtHex, Define, Decimal;
    OtherDecimal("CONTRACT_VERSION", c.version);
    OtherHex("UNMAPPED_READ_VALUE", c.unmappedRead);
    OtherDecimal("IMPLEMENTED_WINDOW_BYTES", c.windowBytes);
    CleanLine("");
    QuietBlock(VersionLines(c));
  }

  lemma BootQuiet(c: Contract)
    ensures Yields(BootLines(c), [])
  {
    hide LineYields, Yields, FmtHex, Define;
    OtherHex("BOOT_ROM_BASE", c.bootBase);
    OtherHex("BOOT_ROM_SIZE", c.bootSize);
    OtherHex("BOOT_MAGIC0", c.magic0);
    OtherHex("BOOT_MAGIC1", c.magic1);
    OtherHex("BOOT_VECTOR_PLACEHOLDER", c.bootVector);
    CleanLine("");
    QuietBlock(BootLines(c));
  }

  lemma BaseQuiet(c: Contract)
    ensures Yields(BaseLines(c), [])
  {
    hide LineYields, Yields, FmtHex, Define;
    OtherHex("PERIPHERAL_CONTROL_BASE", c.peripheralBase);
    OtherHex("DMA_BASE", c.dmaBase);
    NpuBaseLine(c.npuBase);
    OtherHex("DISPLAY_BASE", c.displayBase);
    OtherHex("DRAM_BASE", c.dramBase);
    CleanLine("");
    QuietBlock(BaseLines(c));
  }

  /** All but the final empty line, which has no newline after it. */
  function TailBlock(c: Contract): seq<string> {
    TailLines(c)[..4]
  }

  lemma TailQuiet(c: Contract)
    ensures Yields(TailBlock(c), [])
  {
    var load, uart := Define("E1_" + "QEMU_VIRT_LOAD_ADDRESS", FmtHex(c.qemuLoad, 8)), Define("E1_" + "QEMU_VIRT_UART_BASE", FmtHex(c.qemuUart, 8));
    OtherHex("QEMU_VIRT_LOAD_ADDRESS", c.qemuLoad);
    OtherHex("QEMU_VIRT_UART_BASE", c.qemuUart);
    CleanLine("");
    EndifQuiet();
    FourQuiet(load, uart, "", "#endif");
    assert TailBlock(c) == [load, uart, "", "#endif"];
  }

  lemma EndifQuiet()
    ensures LineYields("#endif", [])
  {
    assert "#endif" == "#" + "endif";
    OtherDirective("endif");
  }

  lemma FourQuiet(a: string, b: string, c: string, d: string)
    requires LineYields(a, []) && LineYields(b, []) && LineYields(c, []) && LineYields(d, [])
    ensures Yields([a, b, c, d], [])
  {
    QuietBlock([a, b, c, d]);
  }

  // ---------- the round trip ----------

  /** Register names are made of upper-case letters, digits and underscores. */
  ghost predicate Nameable(c: Contract) {
    && (forall r :: r in c.peripheral ==> AllName(r.name))
    && (forall r :: r in c.dma ==> AllName(r.name))
    && (forall r :: r in c.npu ==> AllName(r.name))
    && (forall r :: r in c.display ==> AllName(r.name))
  }

  lemma NpuRegion(registers: seq<Register>)
    requires forall r :: r in registers ==> AllName(r.name)
    ensures Yields(RegionLines(NPU_PREFIX, registers), ExpectedAll(registers))
  {
    NpuBlock(registers);
    CleanLine("");
    OneLine("", []);
    YieldsAppend(OffsetLines(NPU_PREFIX, registers), ExpectedAll(registers), [""], []);
    assert ExpectedAll(registers) + [] == ExpectedAll(registers);
  }

  lemma RegionsYield(c: Contract)
    requires Nameable(c)
    ensures Yields(AllRegionLines(Regions(c)), ExpectedAll(c.npu))
  {
    var r := Regions(c);
    var found := ExpectedAll(c.npu);
    OtherRegion("PERIPH_", c.peripheral);
    OtherRegion("DMA_", c.dma);
    NpuRegion(c.npu);
    OtherRegion("DISPLAY_", c.display);
    FourYield(r, found);
  }

  lemma FourYield(r: seq<(string, seq<Register>)>, found: seq<Entry>)
    requires |r| == 4
    requires Yields(RegionLines(r[0].0, r[0].1), []) && Yields(RegionLines(r[1].0, r[1].1), [])
    requires Yields(RegionLines(r[2].0, r[2].1), found) && Yields(RegionLines(r[3].0, r[3].1), [])
    ensures Yields(AllRegionLines(r), found)
  {
    NothingYields();
    assert r[..0] == [];
    RegionStep(r, 0, [], []);
    RegionStep(r, 1, [], []);
    RegionStep(r, 2, [], found);
    RegionStep(r, 3, found, []);
    assert r[..4] == r;
  }

  lemma RegionStep(r: seq<(string, seq<Register>)>, i: nat, x: seq<Entry>, y: seq<Entry>)
    requires i < |r| && Yields(AllRegionLines(r[..i]), x) && Yields(RegionLines(r[i].0, r[i].1), y)
    requires x == [] || y == []
    ensures Yields(AllRegionLines(r[..i + 1]), if x == [] then y else x)
  {
    YieldsAppend(AllRegionLines(r[..i]), x, RegionLines(r[i].0, r[i].1), y);
    assert r[..i + 1][..i] == r[..i];
    assert x + y == if x == [] then y else x;
  }

  lemma {:induction false} JoinIsUnlines(lines: seq<string>)
    ensures JoinLines(lines + [""]) == Unlines(lines)
  {
    if lines == [] {
      assert lines + [""] == [""];
    } else {
      JoinIsUnlines(lines[1..]);
      assert (lines + [""])[1..] == lines[1..] + [""];
    }
  }

  /** Every line but the last. */
  function Body(c: Contract): seq<string> {
    FixedLines(c) + AllRegionLines(Regions(c)) + TailBlock(c)
  }

  lemma HeaderText(c: Contract)
    ensures GenerateHeader(c) == Unlines(Body(c))
  {
    assert TailLines(c) == TailBlock(c) + [""];
    assert HeaderLines(c) == Body(c) + [""];
    JoinIsUnlines(Body(c));
  }

  /** The search finds the NPU registers in order, and nothing from any other line. */
  lemma HeaderEntries(c: Contract)
    requires Nameable(c)
    ensures FindAll(GenerateHeader(c)) == ExpectedAll(c.npu)
  {
    HeaderText(c);
    FixedQuiet(c);
    RegionsYield(c);
    TailQuiet(c);
    YieldsAppend(FixedLines(c), [], AllRegionLines(Regions(c)), ExpectedAll(c.npu));
    assert [] + ExpectedAll(c.npu) == ExpectedAll(c.npu);
    YieldsAppend(FixedLines(c) + AllRegionLines(Regions(c)), ExpectedAll(c.npu), TailBlock(c), []);
    assert ExpectedAll(c.npu) + [] == ExpectedAll(c.npu);
    assert Unlines(Body(c)) + "" == Unlines(Body(c));
    assert FindAll("") == [];
    assert ExpectedAll(c.npu) + FindAll("") == ExpectedAll(c.npu);
  }

  /** The dictionary built from the matches: a later entry replaces an earlier one. */
  function Offsets(entries: seq<Entry>): map<string, int>
    requires forall e :: e in entries ==> AllHex(e.digits)
  {
    if entries == [] then map[]
    else
      var last := entries[|entries| - 1];
      Offsets(entries[..|entries| - 1])[last.name := HexValue(last.digits)]
  }

  lemma {:induction false} ExpectedHex(registers: seq<Register>)
    ensures forall e :: e in ExpectedAll(registers) ==> AllHex(e.digits)
  {
    if registers != [] {
      ExpectedHex(registers[1..]);
      if Expected(registers[0]) != [] {
        PaddedValue(registers[0].offset, 2);
      }
    }
  }

  lemma {:induction false} ExpectedSnoc(registers: seq<Register>, r: Register)
    ensures ExpectedAll(registers + [r]) == ExpectedAll(registers) + Expected(r)
  {
    hide Expected;
    if registers == [] {
      assert [r][1..] == [] && [] + [r] == [r];
    } else {
      ExpectedSnoc(registers[1..], r);
      assert (registers + [r])[1..] == registers[1..] + [r];
    }
  }

  lemma OffsetsSnoc(entries: seq<Entry>, e: Entry)
    requires (forall x :: x in entries ==> AllHex(x.digits)) && AllHex(e.digits)
    ensures forall x :: x in entries + [e] ==> AllHex(x.digits)
    ensures Offsets(entries + [e]) == Offsets(entries)[e.name := HexValue(e.digits)]
  {
    assert (entries + [e])[..|entries|] == entries;
  }

  ghost predicate DistinctNames(registers: seq<Register>) {
    forall i, j :: 0 <= i < j < |registers| ==> registers[i].name != registers[j].name
  }

  ghost predicate Printable(r: Register) {
    r.name != "" && r.offset >= 0
  }

  /** Exactly the printable registers, each with its offset. */
  ghost predicate Holds(m: map<string, int>, registers: seq<Register>) {
    && (forall r :: r in registers && Printable(r) ==> r.name in m && m[r.name] == r.offset)
    && forall n :: n in m ==> exists r :: r in registers && Printable(r) && r.name == n
  }

  lemma HoldsGrow(m: map<string, int>, init: seq<Register>, last: Register)
    requires Holds(m, init) && forall r :: r in init ==> r.name != last.name
    ensures Holds(if Printable(last) then m[last.name := last.offset] else m, init + [last])
  {
    hide Printable;
    var all := init + [last];
    assert forall r :: r in all <==> r in init || r == last;
    assert last in all;
  }

  /** The dictionary holds exactly the printable registers, each with its offset. */
  lemma {:induction false} OffsetsOf(registers: seq<Register>)
    requires DistinctNames(registers)
    ensures forall e :: e in ExpectedAll(registers) ==> AllHex(e.digits)
    ensures Holds(Offsets(ExpectedAll(registers)), registers)
  {
    ExpectedHex(registers);
    if registers != [] {
      hide ExpectedAll, Expected, Offsets, Printable, Holds, AllHex;
      var n := |registers| - 1;
      var init, last := registers[..n], registers[n];
      OffsetsOf(init);
      assert registers == init + [last];
      ExpectedSnoc(init, last);
      assert forall r :: r in init ==> r.name != last.name;
      OffsetsGrow(ExpectedAll(init), last);
      HoldsGrow(Offsets(ExpectedAll(init)), init, last);
    }
  }

  lemma OffsetsGrow(entries: seq<Entry>, r: Register)
    requires forall x :: x in entries ==> AllHex(x.digits)
    ensures forall x :: x in entries + Expected(r) ==> AllHex(x.digits)
    ensures Offsets(entries + Expected(r)) == if Printable(r) then Offsets(entries)[r.name := r.offset] else Offsets(entries)
  {
    hide Offsets;
    if Printable(r) {
      PaddedValue(r.offset, 2);
      OffsetsSnoc(entries, Expected(r)[0]);
      assert Expected(r) == [Expected(r)[0]];
    } else {
      assert entries + [] == entries;
    }
  }

  function ParseHeader(text: string): map<string, int>
    requires forall e :: e in FindAll(text) ==> AllHex(e.digits)
  {
    Offsets(FindAll(text))
  }

  lemma {:induction false} FoundDigits(text: string)
    ensures forall e :: e in FindAll(text) ==> AllHex(e.digits)
    decreases |text|
  {
    if text != "" {
      match MatchHere(text) {
        case None => FoundDigits(text[1..]);
        case Some((e, rest)) =>
          MatchSound(text);
          FoundDigits(rest);
      }
    }
  }

  /** `s.replace(pattern, text, 1)` */
  function ReplaceFirst(s: string, pattern: string, text: string): string {
    if pattern <= s then text + s[|pattern|..]
    else if s == "" then s
    else [s[0]] + ReplaceFirst(s[1..], pattern, text)
  }

  /** The first occurrence is replaced, and a text without one is kept. */
  lemma {:induction false} ReplacesFirst(s: string, pattern: string, text: string, k: nat)
    requires pattern != "" && forall j :: 0 <= j < k ==> !OccursAt(s, pattern, j)
    ensures OccursAt(s, pattern, k) ==> ReplaceFirst(s, pattern, text) == s[..k] + text + s[k + |pattern|..]
    ensures k == |s| ==> ReplaceFirst(s, pattern, text) == s
  {
    if k == 0 {
      assert OccursAt(s, pattern, 0) <==> pattern <= s;
    } else if s != "" {
      assert !OccursAt(s, pattern, 0);
      var rest := s[1..];
      forall j
        ensures 0 <= j ==> (OccursAt(rest, pattern, j) <==> OccursAt(s, pattern, j + 1))
      {
        if 0 <= j <= |rest| - |pattern| {
          assert rest[j..j + |pattern|] == s[j + 1..j + 1 + |pattern|];
        }
      }
      ReplacesFirst(rest, pattern, text, k - 1);
      assert s == [s[0]] + rest;
      if OccursAt(s, pattern, k) {
        assert s[..k] == [s[0]] + rest[..k - 1] && s[k + |pattern|..] == rest[k - 1 + |pattern|..];
      }
    }
  }

  function DriverHeader(c: Contract): string {
    ReplaceFirst(GenerateHeader(c), GENERATED_NOTE, IMPORTED_NOTE)
  }

  /** The copy for the Linux driver has another first line and the same entries. */
  lemma DriverEntries(c: Contract)
    requires Nameable(c)
    ensures FindAll(DriverHeader(c)) == ExpectedAll(c.npu)
  {
    HeaderEntries(c);
    NotesClean();
    var rest := HeaderRest(c);
    Replaced(GENERATED_NOTE, rest, IMPORTED_NOTE);
    SkipClean(GENERATED_NOTE, rest);
    SkipClean(IMPORTED_NOTE, rest);
  }

  lemma HeaderRest(c: Contract) returns (rest: string)
    ensures GenerateHeader(c) == GENERATED_NOTE + rest
  {
    HeaderText(c);
    var body := Body(c);
    rest := "\n" + Unlines(body[1..]);
    assert body[0] == GENERATED_NOTE;
    Regroup(GENERATED_NOTE, "\n", Unlines(body[1..]));
  }

  lemma Replaced(pattern: string, rest: string, text: string)
    ensures ReplaceFirst(pattern + rest, pattern, text) == text + rest
  {
  }

  ghost predicate Recovers(m: map<string, int>, registers: seq<Register>) {
    && (forall r :: r in registers ==> r.name in m && m[r.name] == r.offset)
    && forall n :: n in m ==> exists r :: r in registers && r.name == n
  }

  lemma RecoversIff(registers: seq<Register>)
    requires DistinctNames(registers)
    ensures forall e :: e in ExpectedAll(registers) ==> AllHex(e.digits)
    ensures Recovers(Offsets(ExpectedAll(registers)), registers) <==> forall r :: r in registers ==> Printable(r)
  {
    OffsetsOf(registers);
    hide Offsets, ExpectedAll, AllHex;
    RecoversWhatItHolds(Offsets(ExpectedAll(registers)), registers);
  }

  lemma RecoversWhatItHolds(m: map<string, int>, registers: seq<Register>)
    requires DistinctNames(registers) && Holds(m, registers)
    ensures Recovers(m, registers) <==> forall r :: r in registers ==> Printable(r)
  {
    hide Printable;
    if Recovers(m, registers) {
      forall r | r in registers
        ensures Printable(r)
      {
        assert r.name in m;
        var q :| q in registers && Printable(q) && q.name == r.name;
        var i :| 0 <= i < |registers| && registers[i] == r;
        var j :| 0 <= j < |registers| && registers[j] == q;
        assert i == j;
      }
    }
  }

  /**
   Printing and parsing: for all contracts with distinct NPU register names over [A-Z0-9_], both the
   generated header and the driver copy give back exactly the map from NPU registers to offsets, if
   and only if every such register has a non-empty name and an offset that is not negative.
   */
  lemma HeaderRoundTrip(c: Contract)
    requires Nameable(c) && DistinctNames(c.npu)
    ensures forall e :: e in FindAll(GenerateHeader(c)) ==> AllHex(e.digits)
    ensures Recovers(ParseHeader(GenerateHeader(c)), c.npu) <==> forall r :: r in c.npu ==> Printable(r)
    ensures FindAll(DriverHeader(c)) == FindAll(GenerateHeader(c))
  {
    HeaderEntries(c);
    DriverEntries(c);
    FoundDigits(GenerateHeader(c));
    RecoversIff(c.npu);
  }
}
