/** The whole header read back: a reader of `#define` lines recovers every value of the contract. */
module HeaderReadBack {
  import opened Json
  import opened Text
  import opened Hex
  import opened Header
  import R = HeaderRoundTrip

  // ---------- the reader ----------

  function IndexOf(s: string, c: char): (n: nat)
    ensures n <= |s| && (forall i :: 0 <= i < n ==> s[i] != c) && (n < |s| ==> s[n] == c)
  {
    if s == "" || s[0] == c then 0 else 1 + IndexOf(s[1..], c)
  }

  /** Key and value of a line `#define KEY VALUEu`. */
  function ReadDefine(line: string): Option<(string, string)> {
    if !StartsWith(line, "#define ") || !EndsWith(line, "u") then None
    else
      var rest := line[|"#define "|..];
      var n := IndexOf(rest, ' ');
      if n + 1 < |rest| then Some((rest[..n], rest[n + 1..|rest| - 1])) else None
  }

  /** The values under their keys; a later line replaces an earlier one. */
  function Dictionary(lines: seq<string>): map<string, string> {
    if lines == [] then map[]
    else
      var d := Dictionary(lines[..|lines| - 1]);
      match ReadDefine(lines[|lines| - 1])
      case None => d
      case Some((key, value)) => d[key := value]
  }

  ghost predicate Reads(lines: seq<string>, key: string, value: string) {
    exists i :: 0 <= i < |lines| && ReadDefine(lines[i]) == Some((key, value))
  }

  /** Lines that never give a key two values are read entry by entry. */
  lemma {:induction false} DictionaryIs(lines: seq<string>)
    requires forall key, v, w :: Reads(lines, key, v) && Reads(lines, key, w) ==> v == w
    ensures forall key, value :: (key in Dictionary(lines) && Dictionary(lines)[key] == value) <==> Reads(lines, key, value)
  {
    if lines != [] {
      var n := |lines| - 1;
      var init := lines[..n];
      forall key, value
        ensures Reads(lines, key, value) <==> Reads(init, key, value) || ReadDefine(lines[n]) == Some((key, value))
      {
        if i :| 0 <= i < |init| && ReadDefine(init[i]) == Some((key, value)) {
          assert lines[i] == init[i];
        }
        if i :| 0 <= i < |lines| && ReadDefine(lines[i]) == Some((key, value)) {
          assert i < n ==> init[i] == lines[i];
        }
      }
      DictionaryIs(init);
      hide Reads, ReadDefine;
    }
  }

  // ---------- what the header holds ----------

  datatype Fixed =
    | Version | UnmappedRead | WindowBytes
    | BootBase | BootSize | Magic0 | Magic1 | BootVector
    | PeripheralBase | DmaBase | NpuBase | DisplayBase | DramBase
    | QemuLoad | QemuUart

  function KeyOf(f: Fixed): string {
    match f
    case Version => "E1_CONTRACT_VERSION"
    case UnmappedRead => "E1_UNMAPPED_READ_VALUE"
    case WindowBytes => "E1_IMPLEMENTED_WINDOW_BYTES"
    case BootBase => "E1_BOOT_ROM_BASE"
    case BootSize => "E1_BOOT_ROM_SIZE"
    case Magic0 => "E1_BOOT_MAGIC0"
    case Magic1 => "E1_BOOT_MAGIC1"
    case BootVector => "E1_BOOT_VECTOR_PLACEHOLDER"
    case PeripheralBase => "E1_PERIPHERAL_CONTROL_BASE"
    case DmaBase => "E1_DMA_BASE"
    case NpuBase => "E1_NPU_BASE"
    case DisplayBase => "E1_DISPLAY_BASE"
    case DramBase => "E1_DRAM_BASE"
    case QemuLoad => "E1_QEMU_VIRT_LOAD_ADDRESS"
    case QemuUart => "E1_QEMU_VIRT_UART_BASE"
  }

  function ValueOf(c: Contract, f: Fixed): int {
    match f
    case Version => c.version
    case UnmappedRead => c.unmappedRead
    case WindowBytes => c.windowBytes
    case BootBase => c.bootBase
    case BootSize => c.bootSize
    case Magic0 => c.magic0
    case Magic1 => c.magic1
    case BootVector => c.bootVector
    case PeripheralBase => c.peripheralBase
    case DmaBase => c.dmaBase
    case NpuBase => c.npuBase
    case DisplayBase => c.displayBase
    case DramBase => c.dramBase
    case QemuLoad => c.qemuLoad
    case QemuUart => c.qemuUart
  }

  predicate IsDecimal(f: Fixed) {
    f.Version? || f.WindowBytes?
  }

  datatype Region = PeripheralRegion | DmaRegion | NpuRegion | DisplayRegion

  function PrefixOf(region: Region): string {
    match region
    case PeripheralRegion => "E1_PERIPH_"
    case DmaRegion => "E1_DMA_"
    case NpuRegion => "E1_NPU_"
    case DisplayRegion => "E1_DISPLAY_"
  }

  function RegistersOf(c: Contract, region: Region): seq<Register> {
    match region
    case PeripheralRegion => c.peripheral
    case DmaRegion => c.dma
    case NpuRegion => c.npu
    case DisplayRegion => c.display
  }

  function RegisterKey(region: Region, name: string): string {
    PrefixOf(region) + name + "_OFFSET"
  }

  // ---------- decimals ----------

  predicate AllDigits(s: string) {
    forall i :: 0 <= i < |s| ==> '0' <= s[i] <= '9'
  }

  function ReadDigits(s: string): nat
    requires AllDigits(s)
  {
    if s == "" then 0 else 10 * ReadDigits(s[..|s| - 1]) + (s[|s| - 1] - '0') as nat
  }

  /** `int(s)` of an optional minus sign and digits. */
  function ReadDecimal(s: string): Option<int> {
    var digits := if s != "" && s[0] == '-' then s[1..] else s;
    if digits != "" && AllDigits(digits) then
      var n: int := ReadDigits(digits);
      Some(if s[0] == '-' then -n else n)
    else None
  }

  lemma {:induction false} DigitsRead(n: nat)
    ensures AllDigits(DecimalDigits(n)) && ReadDigits(DecimalDigits(n)) == n
  {
    assert forall i :: 0 <= i < |DecimalDigits(n)| ==> DecimalDigits(n)[i] in DecimalDigits(n);
    if n < 10 {
      assert DecimalDigits(n)[..0] == "";
    } else {
      DigitsRead(n / 10);
      assert DecimalDigits(n)[..|DecimalDigits(n)| - 1] == DecimalDigits(n / 10);
    }
  }

  lemma DecimalRead(v: int)
    ensures ReadDecimal(Decimal(v)) == Some(v) && (v >= 0 ==> AllDigits(Decimal(v)))
  {
    if v >= 0 {
      DigitsRead(v);
      assert DecimalDigits(v)[0] in DecimalDigits(v);
    } else {
      DigitsRead(-v);
      assert Decimal(v)[1..] == DecimalDigits(-v);
    }
  }

  // ---------- keys ----------

  /** Enough of a key to tell it from the others. */
  function Code(s: string): (nat, char, char, char)
    requires |s| >= 6
  {
    (|s|, s[3], s[|s| - 2], s[|s| - 1])
  }

  lemma Codes(f: Fixed)
    ensures |KeyOf(f)| >= 6 && Code(KeyOf(f)) == match f
                                                 case Version => (19, 'C', 'O', 'N')
                                                 case UnmappedRead => (22, 'U', 'U', 'E')
                                                 case WindowBytes => (27, 'I', 'E', 'S')
                                                 case BootBase => (16, 'B', 'S', 'E')
                                                 case BootSize => (16, 'B', 'Z', 'E')
                                                 case Magic0 => (14, 'B', 'C', '0')
                                                 case Magic1 => (14, 'B', 'C', '1')
                                                 case BootVector => (26, 'B', 'E', 'R')
                                                 case PeripheralBase => (26, 'P', 'S', 'E')
                                                 case DmaBase => (11, 'D', 'S', 'E')
                                                 case NpuBase => (11, 'N', 'S', 'E')
                                                 case DisplayBase => (15, 'D', 'S', 'E')
                                                 case DramBase => (12, 'D', 'S', 'E')
                                                 case QemuLoad => (25, 'Q', 'S', 'S')
                                                 case QemuUart => (22, 'Q', 'S', 'E')
  {
    match f {
      case Version => case UnmappedRead => case WindowBytes => case BootBase => case BootSize => case Magic0 => case Magic1 =>
      case BootVector => case PeripheralBase => case DmaBase => case NpuBase => case DisplayBase => case DramBase =>
      case QemuLoad => case QemuUart =>
    }
  }

  lemma KeyIsName(f: Fixed)
    ensures AllName(KeyOf(f))
  {
    if f.Version? || f.UnmappedRead? || f.WindowBytes? || f.BootBase? || f.BootSize? || f.Magic0? || f.Magic1? {
      EarlyKeyIsName(f);
    } else {
      LateKeyIsName(f);
    }
  }

  lemma EarlyKeyIsName(f: Fixed)
    requires f.Version? || f.UnmappedRead? || f.WindowBytes? || f.BootBase? || f.BootSize? || f.Magic0? || f.Magic1?
    ensures AllName(KeyOf(f))
  {
    match f {
      case Version => case UnmappedRead => case WindowBytes => case BootBase => case BootSize => case Magic0 => case Magic1 =>
    }
  }

  lemma LateKeyIsName(f: Fixed)
    requires f.BootVector? || f.PeripheralBase? || f.DmaBase? || f.NpuBase? || f.DisplayBase? || f.DramBase? || f.QemuLoad? || f.QemuUart?
    ensures AllName(KeyOf(f))
  {
    match f {
      case BootVector => case PeripheralBase => case DmaBase => case NpuBase => case DisplayBase => case DramBase =>
      case QemuLoad => case QemuUart =>
    }
  }

  lemma KeysDiffer(f: Fixed, g: Fixed)
    requires KeyOf(f) == KeyOf(g)
    ensures f == g
  {
    Codes(f);
    Codes(g);
    assert Code(KeyOf(f)) == Code(KeyOf(g));
    hide KeyOf;
  }

  lemma PrefixCode(region: Region)
    ensures |PrefixOf(region)| >= 6 && AllName(PrefixOf(region))
    ensures PrefixOf(region)[3] == match region case PeripheralRegion => 'P' case DmaRegion => 'D' case NpuRegion => 'N' case DisplayRegion => 'D'
    ensures region.DmaRegion? ==> PrefixOf(region)[4] == 'M'
    ensures region.DisplayRegion? ==> PrefixOf(region)[4] == 'I'
  {
  }

  lemma RegisterShape(region: Region, name: string)
    ensures var key := RegisterKey(region, name);
            && |key| >= |PrefixOf(region)| >= 6 && Code(key).2 == 'E' && Code(key).3 == 'T'
            && key[..|PrefixOf(region)|] == PrefixOf(region)
            && key[3] == PrefixOf(region)[3] && key[4] == PrefixOf(region)[4]
    ensures AllName(name) ==> AllName(RegisterKey(region, name))
  {
    PrefixCode(region);
    hide PrefixOf;
    var key := RegisterKey(region, name);
    assert key == PrefixOf(region) + (name + "_OFFSET");
    assert forall c :: c in "_OFFSET" ==> IsNameChar(c);
  }

  /** No register key is a fixed one, and equal register keys are keys of the same register name of the same region. */
  lemma RegisterKeysDiffer(region: Region, name: string, other: Region, another: string)
    ensures forall f :: RegisterKey(region, name) != KeyOf(f)
    ensures RegisterKey(region, name) == RegisterKey(other, another) ==> region == other && name == another
  {
    RegisterShape(region, name);
    RegisterShape(other, another);
    PrefixCode(region);
    PrefixCode(other);
    forall f
      ensures RegisterKey(region, name) != KeyOf(f)
    {
      Codes(f);
    }
    if RegisterKey(region, name) == RegisterKey(other, another) {
      assert region == other;
      SamePrefix(PrefixOf(region), name, another);
    }
  }

  lemma SamePrefix(p: string, a: string, b: string)
    requires p + a + "_OFFSET" == p + b + "_OFFSET"
    ensures a == b
  {
    var k := p + a + "_OFFSET";
    assert |a| == |b|;
    assert k[|p|..|p| + |a|] == a && k[|p|..|p| + |a|] == b;
  }

  // ---------- the printed lines ----------

  datatype Slot = FixedSlot(f: Fixed) | RegisterSlot(region: Region, r: Register)

  ghost predicate IsSlot(c: Contract, s: Slot) {
    s.RegisterSlot? ==> s.r in RegistersOf(c, s.region)
  }

  function SlotKey(s: Slot): string {
    match s
    case FixedSlot(f) => KeyOf(f)
    case RegisterSlot(region, r) => RegisterKey(region, r.name)
  }

  function SlotText(c: Contract, s: Slot): string {
    match s
    case FixedSlot(f) => if IsDecimal(f) then Decimal(ValueOf(c, f)) else FmtHex(ValueOf(c, f), 8)
    case RegisterSlot(_, r) => FmtHex(r.offset, 2)
  }

  function SlotLine(c: Contract, s: Slot): string {
    Define(SlotKey(s), SlotText(c, s))
  }

  /** A line without an entry. */
  predicate IsQuiet(line: string) {
    NoBreaks(line) && ReadDefine(line) == None
  }

  /** Every line is that of a slot or quiet. */
  ghost predicate Laid(c: Contract, lines: seq<string>) {
    forall i :: 0 <= i < |lines| ==> IsQuiet(lines[i]) || exists s :: IsSlot(c, s) && lines[i] == SlotLine(c, s)
  }

  lemma IndexAt(k: string, rest: string)
    requires forall i :: 0 <= i < |k| ==> k[i] != ' '
    ensures IndexOf(k + " " + rest, ' ') == |k|
  {
    var s := k + " " + rest;
    assert s[|k|] == ' ';
    assert forall i :: 0 <= i < |k| ==> s[i] == k[i];
    var n := IndexOf(s, ' ');
  }

  lemma DefineReads(key: string, value: string)
    requires AllName(key)
    ensures ReadDefine(Define(key, value)) == Some((key, value))
  {
    var line := Define(key, value);
    assert forall i :: 0 <= i < |key| ==> key[i] in key;
    assert line == "#define " + (key + " " + (value + "u"));
    IndexAt(key, value + "u");
    var rest := key + " " + (value + "u");
    assert line[|"#define "|..] == rest;
    assert line[|line| - 1] == 'u' && line[|line| - 1..] == "u";
    assert rest[..|key|] == key && rest[|key| + 1..|rest| - 1] == value;
  }

  predicate Ascii(s: string) {
    forall i :: 0 <= i < |s| ==> ' ' <= s[i] <= '~'
  }

  lemma AsciiValues(v: int, width: nat)
    ensures Ascii(FmtHex(v, width)) && Ascii(Decimal(v))
  {
    if v >= 0 {
      PaddedValue(v, width);
    } else {
      PaddedValue(-v, width - 1);
    }
    HexAscii(if v >= 0 then Pad(Digits(v), width) else Pad(Digits(-v), width - 1));
    DecimalAscii(if v >= 0 then v else -v);
  }

  lemma HexAscii(s: string)
    requires AllHex(s)
    ensures Ascii(s)
  {
    assert forall i :: 0 <= i < |s| ==> s[i] in s;
  }

  lemma DecimalAscii(n: nat)
    ensures Ascii(DecimalDigits(n))
  {
    assert forall i :: 0 <= i < |DecimalDigits(n)| ==> DecimalDigits(n)[i] in DecimalDigits(n);
  }

  lemma DefineAscii(key: string, value: string)
    requires AllName(key) && Ascii(value)
    ensures NoBreaks(Define(key, value))
  {
    var head := "#define ";
    assert forall i :: 0 <= i < |key| ==> key[i] in key;
    assert Ascii(head) && Ascii(key) && Ascii(Define(key, value));
  }

  lemma SlotReads(c: Contract, s: Slot)
    requires s.RegisterSlot? ==> AllName(s.r.name)
    ensures ReadDefine(SlotLine(c, s)) == Some((SlotKey(s), SlotText(c, s)))
    ensures NoBreaks(SlotLine(c, s))
  {
    match s {
      case FixedSlot(f) =>
        KeyIsName(f);
        AsciiValues(ValueOf(c, f), 8);
      case RegisterSlot(region, r) =>
        RegisterShape(region, r.name);
        AsciiValues(r.offset, 2);
    }
    hide KeyOf, RegisterKey, Define, FmtHex, Decimal;
    DefineReads(SlotKey(s), SlotText(c, s));
    DefineAscii(SlotKey(s), SlotText(c, s));
  }

  lemma LaidAppend(c: Contract, a: seq<string>, b: seq<string>)
    requires Laid(c, a) && Laid(c, b)
    ensures Laid(c, a + b)
  {
    hide IsQuiet, SlotLine;
    forall i | 0 <= i < |a + b|
      ensures IsQuiet((a + b)[i]) || exists s :: IsSlot(c, s) && (a + b)[i] == SlotLine(c, s)
    {
      if i < |a| {
        assert (a + b)[i] == a[i];
      } else {
        assert (a + b)[i] == b[i - |a|];
      }
    }
  }

  /** A line of visible characters that does not end like a definition. */
  lemma QuietEnd(line: string)
    requires Ascii(line) && (line != "" ==> line[|line| - 1] != 'u')
    ensures IsQuiet(line)
  {
    assert line != "" ==> line[|line| - 1..] == [line[|line| - 1]];
  }

  lemma QuietGuards()
    ensures IsQuiet("#ifndef E1_PLATFORM_CONTRACT_H") && IsQuiet("#define E1_" + "PLATFORM_CONTRACT_H")
  {
    QuietEnd("#ifndef E1_PLATFORM_CONTRACT_H");
    QuietEnd("#define E1_" + "PLATFORM_CONTRACT_H");
  }

  lemma QuietLiterals()
    ensures IsQuiet("") && IsQuiet("#endif")
  {
    QuietEnd("");
    QuietEnd("#endif");
  }

  lemma QuietNote()
    ensures IsQuiet(GENERATED_NOTE)
  {
    NoteAscii();
    QuietEnd(GENERATED_NOTE);
  }

  lemma NoteAscii()
    ensures Ascii(GENERATED_NOTE)
  {
    assert Ascii("/* Generated from ") && Ascii("sw/platform/") && Ascii("e1_platform_contract.json") && Ascii(". */");
  }

  /** The slots of a block of lines, in order, and its last line, which is quiet. */
  lemma BlockLaid(c: Contract, fs: seq<Fixed>, lines: seq<string>)
    requires |lines| == |fs| + 1 && lines[|fs|] == ""
    requires forall i :: 0 <= i < |fs| ==> lines[i] == SlotLine(c, FixedSlot(fs[i]))
    ensures Laid(c, lines)
    ensures forall i :: 0 <= i < |fs| ==> SlotLine(c, FixedSlot(fs[i])) in lines
  {
    QuietLiterals();
    hide SlotLine, IsQuiet;
    forall i | 0 <= i < |fs|
      ensures IsSlot(c, FixedSlot(fs[i]))
    {
    }
  }

  lemma VersionKeys()
    ensures "E1_" + "CONTRACT_VERSION" == KeyOf(Version) && "E1_" + "UNMAPPED_READ_VALUE" == KeyOf(UnmappedRead)
    ensures "E1_" + "IMPLEMENTED_WINDOW_BYTES" == KeyOf(WindowBytes)
  {
  }

  lemma BootKeys()
    ensures "E1_" + "BOOT_ROM_BASE" == KeyOf(BootBase) && "E1_" + "BOOT_ROM_SIZE" == KeyOf(BootSize)
    ensures "E1_" + "BOOT_MAGIC0" == KeyOf(Magic0) && "E1_" + "BOOT_MAGIC1" == KeyOf(Magic1)
    ensures "E1_" + "BOOT_VECTOR_PLACEHOLDER" == KeyOf(BootVector)
  {
  }

  lemma BaseKeys()
    ensures "E1_" + "PERIPHERAL_CONTROL_BASE" == KeyOf(PeripheralBase) && "E1_" + "DMA_BASE" == KeyOf(DmaBase)
    ensures NPU_PREFIX + "BASE" == KeyOf(NpuBase) && "E1_" + "DISPLAY_BASE" == KeyOf(DisplayBase)
    ensures "E1_" + "DRAM_BASE" == KeyOf(DramBase)
  {
  }

  lemma QemuKeys()
    ensures "E1_" + "QEMU_VIRT_LOAD_ADDRESS" == KeyOf(QemuLoad) && "E1_" + "QEMU_VIRT_UART_BASE" == KeyOf(QemuUart)
  {
  }

  lemma VersionLaid(c: Contract)
    ensures Laid(c, VersionLines(c))
    ensures forall f :: f in [Version, UnmappedRead, WindowBytes] ==> SlotLine(c, FixedSlot(f)) in VersionLines(c)
  {
    VersionKeys();
    hide KeyOf, Define, Laid;
    BlockLaid(c, [Version, UnmappedRead, WindowBytes], VersionLines(c));
  }

  lemma BootLaid(c: Contract)
    ensures Laid(c, BootLines(c))
    ensures forall f :: f in [BootBase, BootSize, Magic0, Magic1, BootVector] ==> SlotLine(c, FixedSlot(f)) in BootLines(c)
  {
    BootKeys();
    hide KeyOf, Define, Laid, FmtHex;
    BlockLaid(c, [BootBase, BootSize, Magic0, Magic1, BootVector], BootLines(c));
  }

  lemma BaseLaid(c: Contract)
    ensures Laid(c, BaseLines(c))
    ensures forall f :: f in [PeripheralBase, DmaBase, NpuBase, DisplayBase, DramBase] ==> SlotLine(c, FixedSlot(f)) in BaseLines(c)
  {
    BaseKeys();
    hide KeyOf, Define, Laid, FmtHex;
    BlockLaid(c, [PeripheralBase, DmaBase, NpuBase, DisplayBase, DramBase], BaseLines(c));
  }

  lemma TailLaid(c: Contract)
    ensures Laid(c, R.TailBlock(c))
    ensures forall f :: f in [QemuLoad, QemuUart] ==> SlotLine(c, FixedSlot(f)) in R.TailBlock(c)
  {
    QemuKeys();
    QuietLiterals();
    hide KeyOf, Define, IsQuiet;
    var lines := R.TailBlock(c);
    assert lines[..3] == [SlotLine(c, FixedSlot(QemuLoad)), SlotLine(c, FixedSlot(QemuUart)), ""];
    BlockLaid(c, [QemuLoad, QemuUart], lines[..3]);
    assert lines == lines[..3] + ["#endif"];
    LaidAppend(c, lines[..3], ["#endif"]);
  }

  lemma PreambleLaid(c: Contract)
    ensures Laid(c, [GENERATED_NOTE] + Preamble())
  {
    QuietNote();
    QuietLiterals();
    QuietGuards();
    hide IsQuiet;
  }

  lemma FixedLaid(c: Contract)
    ensures Laid(c, FixedLines(c))
    ensures forall f: Fixed :: !f.QemuLoad? && !f.QemuUart? ==> SlotLine(c, FixedSlot(f)) in FixedLines(c)
  {
    PreambleLaid(c);
    VersionLaid(c);
    BootLaid(c);
    BaseLaid(c);
    var head := [GENERATED_NOTE] + Preamble();
    hide SlotLine, Laid, VersionLines, BootLines, BaseLines;
    LaidAppend(c, head, VersionLines(c));
    LaidAppend(c, head + VersionLines(c), BootLines(c));
    LaidAppend(c, head + VersionLines(c) + BootLines(c), BaseLines(c));
    forall f: Fixed | !f.QemuLoad? && !f.QemuUart?
      ensures SlotLine(c, FixedSlot(f)) in FixedLines(c)
    {
      assert f in [Version, UnmappedRead, WindowBytes] || f in [BootBase, BootSize, Magic0, Magic1, BootVector]
             || f in [PeripheralBase, DmaBase, NpuBase, DisplayBase, DramBase];
    }
  }

  lemma RegionLaid(c: Contract, region: Region)
    ensures var lines := RegionLines(PrefixOf(region), RegistersOf(c, region));
            && Laid(c, lines)
            && forall r :: r in RegistersOf(c, region) ==> SlotLine(c, RegisterSlot(region, r)) in lines
  {
    QuietLiterals();
    var registers := RegistersOf(c, region);
    var lines := RegionLines(PrefixOf(region), registers);
    hide RegistersOf, PrefixOf, IsQuiet;
    forall i | 0 <= i < |registers|
      ensures lines[i] == SlotLine(c, RegisterSlot(region, registers[i]))
      ensures IsSlot(c, RegisterSlot(region, registers[i]))
    {
      assert OffsetLine(PrefixOf(region), registers[i]) == Define(PrefixOf(region) + registers[i].name + "_OFFSET", FmtHex(registers[i].offset, 2));
      assert SUFFIX == "_OFFSET";
    }
    hide SlotLine;
    forall r | r in registers
      ensures SlotLine(c, RegisterSlot(region, r)) in lines
    {
      var i :| 0 <= i < |registers| && registers[i] == r;
      assert lines[i] in lines;
    }
  }

  lemma FourRegions(r: seq<(string, seq<Register>)>)
    requires |r| == 4
    ensures AllRegionLines(r) ==
            RegionLines(r[0].0, r[0].1) + RegionLines(r[1].0, r[1].1) + RegionLines(r[2].0, r[2].1) + RegionLines(r[3].0, r[3].1)
  {
    hide RegionLines;
    assert r[..3][..2] == r[..2] && r[..2][..1] == r[..1] && r[..1][..0] == [];
    assert r[..3][2] == r[2] && r[..2][1] == r[1] && r[..1][0] == r[0];
    assert AllRegionLines(r[..1]) == RegionLines(r[0].0, r[0].1);
    assert AllRegionLines(r[..2]) == AllRegionLines(r[..1]) + RegionLines(r[1].0, r[1].1);
    assert AllRegionLines(r[..3]) == AllRegionLines(r[..2]) + RegionLines(r[2].0, r[2].1);
  }

  lemma RegionPrefixes()
    ensures "E1_" + "PERIPH_" == PrefixOf(PeripheralRegion) && "E1_" + "DMA_" == PrefixOf(DmaRegion)
    ensures NPU_PREFIX == PrefixOf(NpuRegion) && "E1_" + "DISPLAY_" == PrefixOf(DisplayRegion)
  {
  }

  lemma RegionsLaid(c: Contract)
    ensures Laid(c, AllRegionLines(Regions(c)))
    ensures forall region, r :: r in RegistersOf(c, region) ==> SlotLine(c, RegisterSlot(region, r)) in AllRegionLines(Regions(c))
  {
    RegionPrefixes();
    FourRegions(Regions(c));
    RegionLaid(c, PeripheralRegion);
    RegionLaid(c, DmaRegion);
    RegionLaid(c, NpuRegion);
    RegionLaid(c, DisplayRegion);
    var p := RegionLines(PrefixOf(PeripheralRegion), RegistersOf(c, PeripheralRegion));
    var d := RegionLines(PrefixOf(DmaRegion), RegistersOf(c, DmaRegion));
    var n := RegionLines(PrefixOf(NpuRegion), RegistersOf(c, NpuRegion));
    var y := RegionLines(PrefixOf(DisplayRegion), RegistersOf(c, DisplayRegion));
    assert AllRegionLines(Regions(c)) == p + d + n + y;
    hide SlotLine, Laid, RegionLines, PrefixOf, RegistersOf, Regions, AllRegionLines;
    LaidAppend(c, p, d);
    LaidAppend(c, p + d, n);
    LaidAppend(c, p + d + n, y);
    forall region, r | r in RegistersOf(c, region)
      ensures SlotLine(c, RegisterSlot(region, r)) in AllRegionLines(Regions(c))
    {
      match region {
        case PeripheralRegion => case DmaRegion => case NpuRegion => case DisplayRegion =>
      }
    }
  }

  lemma BodyLaid(c: Contract)
    ensures Laid(c, R.Body(c))
    ensures forall s :: IsSlot(c, s) ==> SlotLine(c, s) in R.Body(c)
  {
    FixedLaid(c);
    RegionsLaid(c);
    TailLaid(c);
    hide SlotLine, Laid, FixedLines, AllRegionLines, Regions, R.TailBlock, RegistersOf;
    LaidAppend(c, FixedLines(c), AllRegionLines(Regions(c)));
    LaidAppend(c, FixedLines(c) + AllRegionLines(Regions(c)), R.TailBlock(c));
    forall s | IsSlot(c, s)
      ensures SlotLine(c, s) in R.Body(c)
    {
      match s {
        case FixedSlot(f) => assert f in [QemuLoad, QemuUart] || (!f.QemuLoad? && !f.QemuUart?);
        case RegisterSlot(region, r) =>
      }
    }
  }

  // ---------- the header read back ----------

  /** Register names are over [A-Z0-9_] and do not repeat within a region. */
  ghost predicate WellNamed(c: Contract) {
    forall region ::
      && (forall r :: r in RegistersOf(c, region) ==> AllName(r.name))
      && R.DistinctNames(RegistersOf(c, region))
  }

  /** The text of a value gives the value back. */
  predicate Gives(f: Fixed, text: string, v: int) {
    if IsDecimal(f) then ReadDecimal(text) == Some(v) && (v >= 0 ==> AllDigits(text))
    else if v >= 0 then H(text) == Some(v)
    else H(text) == None
  }

  /** Some slot of the contract has this key and this text. */
  ghost predicate SlotHas(c: Contract, key: string, value: string) {
    exists s :: IsSlot(c, s) && key == SlotKey(s) && value == SlotText(c, s)
  }

  lemma LinesAre(c: Contract)
    requires WellNamed(c)
    ensures SplitLines(GenerateHeader(c)) == R.Body(c)
    ensures forall key, value :: Reads(R.Body(c), key, value) <==> SlotHas(c, key, value)
  {
    BodyLaid(c);
    R.HeaderText(c);
    hide *;
    NamesOfSlots(c);
    LaidLines(c, R.Body(c));
    LaidReads(c, R.Body(c));
    SplitUnlines(R.Body(c));
  }

  /** What is printed for a slot is read back. */
  ghost predicate SlotsRead(c: Contract) {
    forall s :: IsSlot(c, s) ==>
      ReadDefine(SlotLine(c, s)) == Some((SlotKey(s), SlotText(c, s))) && NoBreaks(SlotLine(c, s))
  }

  lemma NamesOfSlots(c: Contract)
    requires WellNamed(c)
    ensures SlotsRead(c)
  {
    hide SlotLine, SlotKey, SlotText, ReadDefine, NoBreaks;
    forall s | IsSlot(c, s)
      ensures ReadDefine(SlotLine(c, s)) == Some((SlotKey(s), SlotText(c, s))) && NoBreaks(SlotLine(c, s))
    {
      SlotReads(c, s);
    }
  }

  lemma LaidLines(c: Contract, lines: seq<string>)
    requires Laid(c, lines) && SlotsRead(c)
    ensures AreLines(lines)
  {
    hide SlotLine, SlotKey, SlotText, IsSlot, ReadDefine, NoBreaks;
    forall i | 0 <= i < |lines|
      ensures NoBreaks(lines[i])
    {
      if !IsQuiet(lines[i]) {
        var s :| IsSlot(c, s) && lines[i] == SlotLine(c, s);
      }
    }
  }

  lemma LaidReads(c: Contract, lines: seq<string>)
    requires Laid(c, lines) && SlotsRead(c) && forall s :: IsSlot(c, s) ==> SlotLine(c, s) in lines
    ensures forall key, value :: Reads(lines, key, value) <==> SlotHas(c, key, value)
  {
    hide SlotLine, SlotKey, SlotText, IsSlot, ReadDefine, NoBreaks;
    forall key, value
      ensures Reads(lines, key, value) <==> SlotHas(c, key, value)
    {
      if SlotHas(c, key, value) {
        var s :| IsSlot(c, s) && key == SlotKey(s) && value == SlotText(c, s);
        var i :| 0 <= i < |lines| && lines[i] == SlotLine(c, s);
        assert ReadDefine(lines[i]) == Some((key, value));
      }
      if Reads(lines, key, value) {
        var i :| 0 <= i < |lines| && ReadDefine(lines[i]) == Some((key, value));
        var s :| IsSlot(c, s) && lines[i] == SlotLine(c, s);
      }
    }
  }

  lemma SameKeySameSlot(c: Contract, s: Slot, t: Slot)
    requires WellNamed(c) && IsSlot(c, s) && IsSlot(c, t) && SlotKey(s) == SlotKey(t)
    ensures s == t
  {
    match s {
      case FixedSlot(f) =>
        match t {
          case FixedSlot(g) => KeysDiffer(f, g);
          case RegisterSlot(region, r) => RegisterKeysDiffer(region, r.name, region, r.name);
        }
      case RegisterSlot(region, r) =>
        match t {
          case FixedSlot(f) => RegisterKeysDiffer(region, r.name, region, r.name);
          case RegisterSlot(other, q) =>
            RegisterKeysDiffer(region, r.name, other, q.name);
            SameNameSameRegister(RegistersOf(c, region), r, q);
        }
    }
  }

  lemma SameNameSameRegister(registers: seq<Register>, r: Register, q: Register)
    requires R.DistinctNames(registers) && r in registers && q in registers && r.name == q.name
    ensures r == q
  {
    var i :| 0 <= i < |registers| && registers[i] == r;
    var j :| 0 <= j < |registers| && registers[j] == q;
    assert i == j;
  }

  lemma SlotGives(c: Contract, s: Slot)
    ensures s.FixedSlot? ==> Gives(s.f, SlotText(c, s), ValueOf(c, s.f))
    ensures s.RegisterSlot? ==> (H(SlotText(c, s)) == Some(s.r.offset) <==> s.r.offset >= 0)
  {
    match s {
      case FixedSlot(f) =>
        DecimalRead(ValueOf(c, f));
        HexRoundTrip(ValueOf(c, f), 8);
      case RegisterSlot(_, r) => HexRoundTrip(r.offset, 2);
    }
  }

  /** The entry of the dictionary under a key. */
  predicate Entry(d: map<string, string>, key: string, value: string) {
    key in d && d[key] == value
  }

  lemma OneText(c: Contract, key: string, v: string, w: string)
    requires WellNamed(c) && SlotHas(c, key, v) && SlotHas(c, key, w)
    ensures v == w
  {
    var s :| IsSlot(c, s) && key == SlotKey(s) && v == SlotText(c, s);
    var t :| IsSlot(c, t) && key == SlotKey(t) && w == SlotText(c, t);
    SameKeySameSlot(c, s, t);
  }

  lemma HeaderDictionary(c: Contract)
    requires WellNamed(c)
    ensures var d := Dictionary(SplitLines(GenerateHeader(c)));
            forall key, value :: Entry(d, key, value) <==> SlotHas(c, key, value)
  {
    LinesAre(c);
    var body := R.Body(c);
    hide *;
    forall key, v, w | Reads(body, key, v) && Reads(body, key, w)
      ensures v == w
    {
      OneText(c, key, v, w);
    }
    DictionaryIs(body);
    EntriesAre(Dictionary(body), body);
  }

  lemma EntriesAre(d: map<string, string>, lines: seq<string>)
    requires forall key, value :: (key in d && d[key] == value) <==> Reads(lines, key, value)
    ensures forall key, value :: Entry(d, key, value) <==> Reads(lines, key, value)
  {
    hide Reads;
  }

  /**
   The whole header read back: under every fixed key the reader finds the contract's own value, under
   every register key the offset of that register, and no other key. Negative addresses and offsets
   are the only values that do not come back.
   */
  lemma HeaderReadsBack(c: Contract)
    requires WellNamed(c)
    ensures var d := Dictionary(SplitLines(GenerateHeader(c)));
            && (forall f :: KeyOf(f) in d && Gives(f, d[KeyOf(f)], ValueOf(c, f)))
            && (forall region, r :: r in RegistersOf(c, region) ==>
                  RegisterKey(region, r.name) in d && (H(d[RegisterKey(region, r.name)]) == Some(r.offset) <==> r.offset >= 0))
            && forall key :: key in d ==>
                 || (exists f :: key == KeyOf(f))
                 || exists region, r :: r in RegistersOf(c, region) && key == RegisterKey(region, r.name)
  {
    HeaderDictionary(c);
    var d := Dictionary(SplitLines(GenerateHeader(c)));
    hide *;
    forall f
      ensures KeyOf(f) in d && Gives(f, d[KeyOf(f)], ValueOf(c, f))
    {
      FixedEntry(c, d, f);
    }
    forall region, r | r in RegistersOf(c, region)
      ensures RegisterKey(region, r.name) in d && (H(d[RegisterKey(region, r.name)]) == Some(r.offset) <==> r.offset >= 0)
    {
      RegisterEntry(c, d, region, r);
    }
    forall key | key in d
      ensures (exists f :: key == KeyOf(f)) || exists region, r :: r in RegistersOf(c, region) && key == RegisterKey(region, r.name)
    {
      KeyEntry(c, d, key);
    }
  }

  lemma FixedEntry(c: Contract, d: map<string, string>, f: Fixed)
    requires forall key, value :: Entry(d, key, value) <==> SlotHas(c, key, value)
    ensures KeyOf(f) in d && Gives(f, d[KeyOf(f)], ValueOf(c, f))
  {
    hide KeyOf, SlotText, Gives, ValueOf;
    var s := FixedSlot(f);
    assert IsSlot(c, s) && SlotKey(s) == KeyOf(f);
    SlotGives(c, s);
    assert SlotHas(c, KeyOf(f), SlotText(c, s));
    assert Entry(d, KeyOf(f), SlotText(c, s));
  }

  lemma RegisterEntry(c: Contract, d: map<string, string>, region: Region, r: Register)
    requires forall key, value :: Entry(d, key, value) <==> SlotHas(c, key, value)
    requires r in RegistersOf(c, region)
    ensures RegisterKey(region, r.name) in d && (H(d[RegisterKey(region, r.name)]) == Some(r.offset) <==> r.offset >= 0)
  {
    hide RegisterKey, SlotText, H, RegistersOf;
    var s := RegisterSlot(region, r);
    assert IsSlot(c, s) && SlotKey(s) == RegisterKey(region, r.name);
    SlotGives(c, s);
    assert SlotHas(c, RegisterKey(region, r.name), SlotText(c, s));
    assert Entry(d, RegisterKey(region, r.name), SlotText(c, s));
  }

  lemma KeyEntry(c: Contract, d: map<string, string>, key: string)
    requires forall key, value :: Entry(d, key, value) <==> SlotHas(c, key, value)
    requires key in d
    ensures (exists f :: key == KeyOf(f)) || exists region, r :: r in RegistersOf(c, region) && key == RegisterKey(region, r.name)
  {
    hide KeyOf, RegisterKey, SlotText, RegistersOf;
    assert Entry(d, key, d[key]);
    var s :| IsSlot(c, s) && key == SlotKey(s) && d[key] == SlotText(c, s);
    if s.FixedSlot? {
      assert key == KeyOf(s.f);
    } else {
      assert s.r in RegistersOf(c, s.region) && key == RegisterKey(s.region, s.r.name);
    }
  }

  // ---------- the copy for the driver and the guard ----------

  lemma {:induction false} SameReads(a: seq<string>, b: seq<string>)
    requires |a| == |b| && forall i :: 0 <= i < |a| ==> ReadDefine(a[i]) == ReadDefine(b[i])
    ensures Dictionary(a) == Dictionary(b)
  {
    hide ReadDefine;
    if a != [] {
      SameReads(a[..|a| - 1], b[..|b| - 1]);
    }
  }

  lemma ImportedNote()
    ensures IsQuiet(IMPORTED_NOTE)
  {
    assert Ascii("/* Generated import copy from ") && Ascii("sw/platform/") && Ascii("e1_platform_contract.json") && Ascii(". */");
    QuietEnd(IMPORTED_NOTE);
  }

  /** The lines of the driver copy are those of the header but for the first, and define the same. */
  lemma DriverReadsBack(c: Contract)
    requires WellNamed(c)
    ensures SplitLines(R.DriverHeader(c)) == [IMPORTED_NOTE] + SplitLines(GenerateHeader(c))[1..]
    ensures Dictionary(SplitLines(R.DriverHeader(c))) == Dictionary(SplitLines(GenerateHeader(c)))
  {
    LinesAre(c);
    var body := R.Body(c);
    var copy := [IMPORTED_NOTE] + body[1..];
    BodyLaid(c);
    NamesOfSlots(c);
    LaidLines(c, body);
    QuietNote();
    ImportedNote();
    R.HeaderText(c);
    BodyStart(c);
    hide *;
    CopyText(c, body, copy);
    CopyLines(body, copy);
    SplitUnlines(copy);
    SameReads(copy, body);
  }

  lemma FixedStart(c: Contract)
    ensures |FixedLines(c)| > 3 && FixedLines(c)[0] == GENERATED_NOTE
    ensures FixedLines(c)[1] == "#ifndef E1_PLATFORM_CONTRACT_H" && FixedLines(c)[2] == "#define E1_" + "PLATFORM_CONTRACT_H"
  {
    hide VersionLines, BootLines, BaseLines;
    var head := [GENERATED_NOTE] + Preamble();
    assert FixedLines(c) == head + (VersionLines(c) + BootLines(c) + BaseLines(c));
    assert |head| == 4 && head[1] == Preamble()[0] && head[2] == Preamble()[1];
  }

  lemma TailEnd(c: Contract)
    ensures |R.TailBlock(c)| == 4 && R.TailBlock(c)[3] == "#endif"
  {
    hide Define;
  }

  lemma BodyStart(c: Contract)
    ensures |R.Body(c)| > 3 && R.Body(c)[0] == GENERATED_NOTE
    ensures R.Body(c)[1] == "#ifndef E1_PLATFORM_CONTRACT_H" && R.Body(c)[2] == "#define E1_" + "PLATFORM_CONTRACT_H"
    ensures R.Body(c)[|R.Body(c)| - 1] == "#endif"
  {
    FixedStart(c);
    TailEnd(c);
    hide AllRegionLines, Regions, FixedLines, R.TailBlock;
  }

  lemma CopyText(c: Contract, body: seq<string>, copy: seq<string>)
    requires body != [] && body[0] == GENERATED_NOTE && copy == [IMPORTED_NOTE] + body[1..]
    requires GenerateHeader(c) == Unlines(body)
    ensures R.DriverHeader(c) == Unlines(copy)
  {
    hide GenerateHeader;
    var rest := "\n" + Unlines(body[1..]);
    R.Regroup(GENERATED_NOTE, "\n", Unlines(body[1..]));
    R.Regroup(IMPORTED_NOTE, "\n", Unlines(body[1..]));
    assert copy[1..] == body[1..];
    assert Unlines(body) == GENERATED_NOTE + rest && Unlines(copy) == IMPORTED_NOTE + rest;
    R.Replaced(GENERATED_NOTE, rest, IMPORTED_NOTE);
  }

  lemma CopyLines(body: seq<string>, copy: seq<string>)
    requires body != [] && copy == [IMPORTED_NOTE] + body[1..] && IsQuiet(IMPORTED_NOTE) && IsQuiet(body[0]) && AreLines(body)
    ensures AreLines(copy) && |copy| == |body|
    ensures forall i :: 0 <= i < |copy| ==> ReadDefine(copy[i]) == ReadDefine(body[i])
  {
    hide NoBreaks, ReadDefine;
    forall i | 0 <= i < |copy|
      ensures NoBreaks(copy[i]) && ReadDefine(copy[i]) == ReadDefine(body[i])
    {
      assert i > 0 ==> copy[i] == body[i];
    }
  }

  /** The header is guarded against being included twice. */
  lemma HeaderGuarded(c: Contract)
    requires WellNamed(c)
    ensures var lines := SplitLines(GenerateHeader(c));
            && |lines| > 3 && lines[1] == "#ifndef E1_PLATFORM_CONTRACT_H" && lines[2] == "#define E1_" + "PLATFORM_CONTRACT_H"
            && lines[|lines| - 1] == "#endif"
  {
    LinesAre(c);
    BodyStart(c);
  }
}
