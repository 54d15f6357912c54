/**
 The C header printed from the platform contract (`generate_header`) and the register offsets that
 the runtime contract check reads back from it with a regular expression.
 */
module Header {
  import opened Json
  import opened Text
  import opened Hex

  // ---------- printing ----------

  datatype Register = Register(name: string, offset: int)

  /** The contract values that the header prints; addresses are already numbers. */
  datatype Contract = Contract(
    version: int, unmappedRead: int, windowBytes: int,
    bootBase: int, bootSize: int, magic0: int, magic1: int, bootVector: int,
    peripheralBase: int, dmaBase: int, npuBase: int, displayBase: int, dramBase: int,
    peripheral: seq<Register>, dma: seq<Register>, npu: seq<Register>, display: seq<Register>,
    qemuLoad: int, qemuUart: int)

  function DecimalDigits(n: nat): (s: string)
    ensures s != "" && forall c :: c in s ==> '0' <= c <= '9'
  {
    if n < 10 then ['0' + n as char] else DecimalDigits(n / 10) + ['0' + (n % 10) as char]
  }

  function Decimal(v: int): string {
    if v >= 0 then DecimalDigits(v) else "-" + DecimalDigits(-v)
  }

  function Define(key: string, value: string): string {
    "#define " + key + " " + value + "u"
  }

  function OffsetLine(prefix: string, r: Register): string {
    Define(prefix + r.name + "_OFFSET", FmtHex(r.offset, 2))
  }

  function OffsetLines(prefix: string, registers: seq<Register>): seq<string> {
    seq(|registers|, i requires 0 <= i < |registers| => OffsetLine(prefix, registers[i]))
  }

  const CONTRACT_FILE := "sw/platform/" + "e1_platform_contract.json"
  const GENERATED_NOTE := "/* Generated from " + CONTRACT_FILE + ". */"
  const IMPORTED_NOTE := "/* Generated import copy from " + CONTRACT_FILE + ". */"

  function Preamble(): seq<string> {
    ["#ifndef E1_PLATFORM_CONTRACT_H", "#define E1_" + "PLATFORM_CONTRACT_H", ""]
  }

  function VersionLines(c: Contract): seq<string> {
    [Define("E1_" + "CONTRACT_VERSION", Decimal(c.version)),
     Define("E1_" + "UNMAPPED_READ_VALUE", FmtHex(c.unmappedRead, 8)),
     Define("E1_" + "IMPLEMENTED_WINDOW_BYTES", Decimal(c.windowBytes)),
     ""]
  }

  function BootLines(c: Contract): seq<string> {
    [Define("E1_" + "BOOT_ROM_BASE", FmtHex(c.bootBase, 8)),
     Define("E1_" + "BOOT_ROM_SIZE", FmtHex(c.bootSize, 8)),
     Define("E1_" + "BOOT_MAGIC0", FmtHex(c.magic0, 8)),
     Define("E1_" + "BOOT_MAGIC1", FmtHex(c.magic1, 8)),
     Define("E1_" + "BOOT_VECTOR_PLACEHOLDER", FmtHex(c.bootVector, 8)),
     ""]
  }

  function BaseLines(c: Contract): seq<string> {
    [Define("E1_" + "PERIPHERAL_CONTROL_BASE", FmtHex(c.peripheralBase, 8)),
     Define("E1_" + "DMA_BASE", FmtHex(c.dmaBase, 8)),
     Define(NPU_PREFIX + "BASE", FmtHex(c.npuBase, 8)),
     Define("E1_" + "DISPLAY_BASE", FmtHex(c.displayBase, 8)),
     Define("E1_" + "DRAM_BASE", FmtHex(c.dramBase, 8)),
     ""]
  }

  function TailLines(c: Contract): seq<string> {
    [Define("E1_" + "QEMU_VIRT_LOAD_ADDRESS", FmtHex(c.qemuLoad, 8)),
     Define("E1_" + "QEMU_VIRT_UART_BASE", FmtHex(c.qemuUart, 8)),
     "", "#endif", ""]
  }

  function FixedLines(c: Contract): seq<string> {
    [GENERATED_NOTE] + Preamble() + VersionLines(c) + BootLines(c) + BaseLines(c)
  }

  function Regions(c: Contract): seq<(string, seq<Register>)> {
    [("E1_" + "PERIPH_", c.peripheral), ("E1_" + "DMA_", c.dma), (NPU_PREFIX, c.npu), ("E1_" + "DISPLAY_", c.display)]
  }

  function RegionLines(prefix: string, registers: seq<Register>): seq<string> {
    OffsetLines(prefix, registers) + [""]
  }

  function AllRegionLines(regions: seq<(string, seq<Register>)>): seq<string> {
    if regions == [] then []
    else
      var last := regions[|regions| - 1];
      AllRegionLines(regions[..|regions| - 1]) + RegionLines(last.0, last.1)
  }

  function HeaderLines(c: Contract): seq<string> {
    FixedLines(c) + AllRegionLines(Regions(c)) + TailLines(c)
  }

  /** `"\n".join(lines)` */
  function JoinLines(lines: seq<string>): string {
    if lines == [] then ""
    else if |lines| == 1 then lines[0]
    else lines[0] + "\n" + JoinLines(lines[1..])
  }

  function GenerateHeader(c: Contract): string {
    JoinLines(HeaderLines(c))
  }

  /** The inner loop of `generate_header`: one region, closed by an empty line. */
  method PrintRegion(prefix: string, registers: seq<Register>) returns (lines: seq<string>)
    ensures lines == RegionLines(prefix, registers)
  {
    lines := [];
    for j := 0 to |registers|
      invariant lines == OffsetLines(prefix, registers[..j])
    {
      lines := lines + [OffsetLine(prefix, registers[j])];
      assert registers[..j + 1] == registers[..j] + [registers[j]];
    }
    assert registers[..|registers|] == registers;
    lines := lines + [""];
  }

  /** The outer loop over the four regions. */
  method PrintRegions(regions: seq<(string, seq<Register>)>) returns (lines: seq<string>)
    ensures lines == AllRegionLines(regions)
  {
    lines := [];
    for i := 0 to |regions|
      invariant lines == AllRegionLines(regions[..i])
    {
      var region := PrintRegion(regions[i].0, regions[i].1);
      lines := lines + region;
      assert regions[..i + 1][..i] == regions[..i];
    }
    assert regions[..|regions|] == regions;
  }

  method PrintHeader(c: Contract) returns (text: string)
    ensures text == GenerateHeader(c)
  {
    var lines := PrintRegions(Regions(c));
    lines := FixedLines(c) + lines + TailLines(c);
    text := JoinLines(lines);
  }

  // ---------- the pattern ----------

  const NPU_PREFIX := "E1_NPU_"
  const KEYWORD := "#define"
  const SUFFIX := "_OFFSET"

  predicate IsNameChar(c: char) {
    'A' <= c <= 'Z' || '0' <= c <= '9' || c == '_'
  }

  predicate AllName(s: string) {
    forall c :: c in s ==> IsNameChar(c)
  }

  predicate AllSpace(s: string) {
    forall c :: c in s ==> IsSpace(c)
  }

  datatype Entry = Entry(name: string, digits: string)

  /** A text that begins with a match of `#define\s+E1_NPU_([A-Z0-9_]+)_OFFSET\s+0x([0-9A-Fa-f]+)u`. */
  ghost predicate Matches(s: string, e: Entry, rest: string) {
    && e.name != "" && AllName(e.name)
    && e.digits != "" && AllHex(e.digits)
    && exists gap1, gap2 :: MatchesWith(s, e, rest, gap1, gap2)
  }

  ghost predicate MatchesWith(s: string, e: Entry, rest: string, gap1: string, gap2: string) {
    && gap1 != "" && AllSpace(gap1) && gap2 != "" && AllSpace(gap2)
    && s == KEYWORD + (gap1 + (NPU_PREFIX + (e.name + SUFFIX + (gap2 + ("0x" + (e.digits + ("u" + rest)))))))
  }

  /** Length of the longest prefix within a character class. */
  function Span(s: string, f: char -> bool): (n: nat)
    ensures n <= |s|
    ensures forall i :: 0 <= i < n ==> f(s[i])
    ensures n < |s| ==> !f(s[n])
  {
    if s != "" && f(s[0]) then 1 + Span(s[1..], f) else 0
  }

  lemma {:induction false} SpanOf(a: string, b: string, f: char -> bool)
    requires forall i :: 0 <= i < |a| ==> f(a[i])
    requires b != "" ==> !f(b[0])
    ensures Span(a + b, f) == |a| && (a + b)[..|a|] == a && (a + b)[|a|..] == b
  {
    if a == "" {
      assert a + b == b;
    } else {
      SpanOf(a[1..], b, f);
      assert (a + b)[1..] == a[1..] + b;
    }
  }

  function Drop(s: string, prefix: string): Option<string> {
    if prefix <= s then Some(s[|prefix|..]) else None
  }

  function MatchDigits(s: string, name: string): Option<(Entry, string)> {
    match Drop(s, "0x")
    case None => None
    case Some(t) =>
      var n := Span(t, IsHexDigit);
      if n == 0 || n == |t| || t[n] != 'u' then None else Some((Entry(name, t[..n]), t[n + 1..]))
  }

  /** Register name with its suffix cut off; the run of name characters ends where the pattern wants space. */
  function SplitName(run: string): Option<string> {
    if EndsWith(run, SUFFIX) && |run| > |SUFFIX| then Some(run[..|run| - |SUFFIX|]) else None
  }

  function MatchGap(s: string, name: string): Option<(Entry, string)> {
    var gap := Span(s, IsSpace);
    if gap == 0 then None else MatchDigits(s[gap..], name)
  }

  function MatchRun(s: string): Option<(Entry, string)> {
    var n := Span(s, IsNameChar);
    match SplitName(s[..n])
    case None => None
    case Some(name) => MatchGap(s[n..], name)
  }

  function MatchName(s: string): Option<(Entry, string)> {
    match Drop(s, NPU_PREFIX)
    case None => None
    case Some(t) => MatchRun(t)
  }

  function MatchSpaced(s: string): Option<(Entry, string)> {
    var gap := Span(s, IsSpace);
    if gap == 0 then None else MatchName(s[gap..])
  }

  /** The match at the start of a text, found without backtracking. */
  function MatchHere(s: string): Option<(Entry, string)> {
    match Drop(s, KEYWORD)
    case None => None
    case Some(t) => MatchSpaced(t)
  }

  lemma DropOf(prefix: string, rest: string)
    ensures Drop(prefix + rest, prefix) == Some(rest)
  {
  }

  lemma DigitsComplete(name: string, digits: string, rest: string)
    requires digits != "" && AllHex(digits)
    ensures MatchDigits("0x" + (digits + ("u" + rest)), name) == Some((Entry(name, digits), rest))
  {
    var t := digits + ("u" + rest);
    DropOf("0x", t);
    assert forall i :: 0 <= i < |digits| ==> digits[i] in digits;
    SpanOf(digits, "u" + rest, IsHexDigit);
    assert t[|digits|] == 'u' && t[|digits| + 1..] == rest;
  }

  lemma GapComplete(gap: string, rest: string, name: string)
    requires gap != "" && AllSpace(gap)
    requires rest != "" ==> !IsSpace(rest[0])
    ensures MatchGap(gap + rest, name) == MatchDigits(rest, name)
  {
    assert forall i :: 0 <= i < |gap| ==> gap[i] in gap;
    SpanOf(gap, rest, IsSpace);
  }

  lemma SplitNameOf(name: string)
    requires name != ""
    ensures SplitName(name + SUFFIX) == Some(name)
  {
  }

  lemma RunComplete(name: string, rest: string)
    requires name != "" && AllName(name)
    requires rest != "" ==> !IsNameChar(rest[0])
    ensures MatchRun(name + SUFFIX + rest) == MatchGap(rest, name)
  {
    assert forall i :: 0 <= i < |name| ==> name[i] in name;
    assert forall i :: 0 <= i < |SUFFIX| ==> IsNameChar(SUFFIX[i]);
    SpanOf(name + SUFFIX, rest, IsNameChar);
    SplitNameOf(name);
  }

  /** The matcher finds every match of the pattern: the decomposition is unique. */
  lemma MatchComplete(s: string, e: Entry, rest: string)
    requires Matches(s, e, rest)
    ensures MatchHere(s) == Some((e, rest))
  {
    var gap1, gap2 :| MatchesWith(s, e, rest, gap1, gap2);
    var digits := "0x" + (e.digits + ("u" + rest));
    var run := e.name + SUFFIX + (gap2 + digits);
    DropOf(KEYWORD, gap1 + (NPU_PREFIX + run));
    assert forall i :: 0 <= i < |gap1| ==> gap1[i] in gap1;
    SpanOf(gap1, NPU_PREFIX + run, IsSpace);
    DropOf(NPU_PREFIX, run);
    assert gap2[0] in gap2;
    RunComplete(e.name, gap2 + digits);
    GapComplete(gap2, digits, e.name);
    DigitsComplete(e.name, e.digits, rest);
  }

  lemma SplitAt(s: string, n: nat)
    requires n <= |s|
    ensures s == s[..n] + s[n..]
  {
  }

  lemma DropSound(s: string, prefix: string)
    requires Drop(s, prefix).Some?
    ensures s == prefix + Drop(s, prefix).value
  {
  }

  lemma DigitsSound(s: string, name: string)
    requires MatchDigits(s, name).Some?
    ensures var (e, rest) := MatchDigits(s, name).value;
            e.name == name && e.digits != "" && AllHex(e.digits) && s == "0x" + (e.digits + ("u" + rest))
  {
    DropSound(s, "0x");
    var t := Drop(s, "0x").value;
    var n := Span(t, IsHexDigit);
    assert t == t[..n] + ("u" + t[n + 1..]);
  }

  lemma GapSound(s: string, name: string) returns (gap: string)
    requires MatchGap(s, name).Some?
    ensures var (e, rest) := MatchGap(s, name).value;
            && e.name == name && e.digits != "" && AllHex(e.digits) && gap != "" && AllSpace(gap)
            && s == gap + ("0x" + (e.digits + ("u" + rest)))
  {
    var n := Span(s, IsSpace);
    gap := s[..n];
    DigitsSound(s[n..], name);
    assert s == gap + s[n..];
  }

  ghost predicate IsEntry(e: Entry) {
    e.name != "" && AllName(e.name) && e.digits != "" && AllHex(e.digits)
  }

  lemma NameRun(s: string)
    ensures AllName(s[..Span(s, IsNameChar)])
  {
  }

  lemma SplitNameSound(run: string)
    requires AllName(run) && SplitName(run).Some?
    ensures var name := SplitName(run).value; run == name + SUFFIX && name != "" && AllName(name)
  {
  }

  lemma RunSound(s: string) returns (gap: string)
    requires MatchRun(s).Some?
    ensures var (e, rest) := MatchRun(s).value;
            && IsEntry(e) && gap != "" && AllSpace(gap)
            && s == e.name + SUFFIX + (gap + ("0x" + (e.digits + ("u" + rest))))
  {
    hide MatchGap, SplitName, AllSpace, AllName, AllHex, IsNameChar;
    var n := Span(s, IsNameChar);
    var run := s[..n];
    NameRun(s);
    SplitNameSound(run);
    gap := GapSound(s[n..], SplitName(run).value);
    SplitAt(s, n);
  }

  lemma NameSound(s: string) returns (gap: string)
    requires MatchName(s).Some?
    ensures var (e, rest) := MatchName(s).value;
            && IsEntry(e) && gap != "" && AllSpace(gap)
            && s == NPU_PREFIX + (e.name + SUFFIX + (gap + ("0x" + (e.digits + ("u" + rest)))))
  {
    DropSound(s, NPU_PREFIX);
    gap := RunSound(Drop(s, NPU_PREFIX).value);
  }

  lemma SpacedSound(s: string) returns (gap1: string, gap2: string)
    requires MatchSpaced(s).Some?
    ensures var (e, rest) := MatchSpaced(s).value;
            && IsEntry(e) && gap1 != "" && AllSpace(gap1) && gap2 != "" && AllSpace(gap2)
            && s == gap1 + (NPU_PREFIX + (e.name + SUFFIX + (gap2 + ("0x" + (e.digits + ("u" + rest))))))
  {
    var n := Span(s, IsSpace);
    gap1 := s[..n];
    SplitAt(s, n);
    gap2 := NameSound(s[n..]);
  }

  /** What the matcher finds is a match of the pattern. */
  lemma MatchSound(s: string)
    requires MatchHere(s).Some?
    ensures Matches(s, MatchHere(s).value.0, MatchHere(s).value.1)
    ensures |MatchHere(s).value.1| < |s|
  {
    var t := Drop(s, KEYWORD).value;
    DropSound(s, KEYWORD);
    var gap1, gap2 := SpacedSound(t);
    assert MatchesWith(s, MatchHere(s).value.0, MatchHere(s).value.1, gap1, gap2);
  }

  /** `re.findall`: matches from left to right, each search resuming after the match before. */
  function FindAll(s: string): seq<Entry>
    decreases |s|
  {
    if s == "" then []
    else
      match MatchHere(s)
      case None => FindAll(s[1..])
      case Some((e, rest)) =>
        MatchSound(s);
        [e] + FindAll(rest)
  }

  /** The characters of the pattern's class. */
  lemma NameCharsAre(c: char)
    ensures IsNameChar(c) <==> c in "ABCDEFGHIJKLMNOPQRSTUVWXYZ0123456789_"
  {
  }
}
