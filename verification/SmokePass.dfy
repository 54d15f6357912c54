/** What the log parser and the smoke gate say of the lines of a log themselves. */
module SmokePass {
  import opened Json
  import opened Text
  import opened SmokeLog
  import opened SmokeGate
  import W = TextLaws

  // ---------- what outlives the wrapper ----------

  predicate Ends(line: string) {
    StartsWith(line, "openagent-evidence: raw_transcript_end")
  }

  /** Lines that may follow the end of the transcript: whitespace and evidence. */
  predicate MayFollow(line: string) {
    Blank(line) || StartsWith(line, "openagent-evidence:")
  }

  /** Line `j` is output of the simulator behind an end line. */
  ghost predicate Late(lines: seq<string>, j: int) {
    0 <= j < |lines| && !MayFollow(lines[j]) && exists i :: 0 <= i < j && Ends(lines[i])
  }

  lemma NoiseIs(line: string)
    ensures Noise(line) <==> !MayFollow(line)
  {
    StripEmptyIffBlank(line);
  }

  lemma EndedIs(lines: seq<string>)
    ensures Ended(lines) <==> exists i :: 0 <= i < |lines| && Ends(lines[i])
  {
    if i :| 0 <= i < |lines| && Ends(lines[i]) {
      assert lines[i] in lines && EndLine(lines[i]);
    }
    if l :| l in lines && EndLine(l) {
      var i :| 0 <= i < |lines| && lines[i] == l;
      assert Ends(lines[i]);
    }
  }

  /** The positions of late lines. */
  ghost function LateLines(lines: seq<string>): (late: set<int>)
    ensures forall j :: j in late <==> Late(lines, j)
  {
    set j | 0 <= j < |lines| && Late(lines, j)
  }

  lemma LateSnoc(lines: seq<string>, line: string)
    ensures var more := if Ended(lines) && !MayFollow(line) then {|lines|} else {};
            LateLines(lines + [line]) == LateLines(lines) + more
  {
    var all := lines + [line];
    EndedIs(lines);
    forall j
      ensures Late(all, j) <==> Late(lines, j) || (j == |lines| && Ended(lines) && !MayFollow(line))
    {
      if Late(lines, j) {
        var i :| 0 <= i < j && Ends(lines[i]);
        assert Ends(all[i]) && all[j] == lines[j];
      }
      if Late(all, j) {
        var i :| 0 <= i < j && Ends(all[i]);
        assert all[i] == lines[i];
      }
      if j == |lines| && Ended(lines) && !MayFollow(line) {
        var i :| 0 <= i < |lines| && Ends(lines[i]);
        assert Ends(all[i]);
      }
    }
  }

  /** The parser's counter: the number of lines behind some end line that are neither whitespace nor evidence. */
  lemma {:induction false} TrailingIs(lines: seq<string>)
    ensures TrailingCount(lines) == |LateLines(lines)|
  {
    if lines == [] {
      assert LateLines(lines) == {};
    } else {
      var init, last := lines[..|lines| - 1], lines[|lines| - 1];
      assert lines == init + [last];
      TrailingIs(init);
      TrailingSnoc(init, last);
      NoiseIs(last);
      LateSnoc(init, last);
      assert !Late(init, |init|);
    }
  }

  ghost predicate NothingLate(lines: seq<string>) {
    forall i, j :: 0 <= i < j < |lines| && Ends(lines[i]) ==> MayFollow(lines[j])
  }

  lemma NothingTrails(lines: seq<string>)
    ensures TrailingCount(lines) == 0 <==> NothingLate(lines)
  {
    TrailingIs(lines);
    var late := LateLines(lines);
    if NothingLate(lines) {
      assert late == {};
    } else {
      var i, j :| 0 <= i < j < |lines| && Ends(lines[i]) && !MayFollow(lines[j]);
      assert Late(lines, j) && j in late;
    }
  }

  lemma AnyLate(lines: seq<string>)
    ensures |LateLines(lines)| > 0 <==> exists j :: Late(lines, j)
  {
    if j :| Late(lines, j) {
      assert j in LateLines(lines);
    } else {
      assert LateLines(lines) == {};
    }
  }

  lemma OutlivedBlocks(environment: seq<string>, text: string, trace: TraceState)
    ensures forall n :: Blocks(environment, Some(text), trace, Outlived(n)) <==>
                        n == TrailingCount(SplitLines(text)) && n > 0
  {
    hide SplitLines, TrailingCount;
  }

  /** The blocker counts the late lines; a single one earns it and stops the gate, and without one it cannot occur. */
  lemma OutlivedIff(environment: seq<string>, text: string, trace: TraceState)
    ensures forall n :: Blocks(environment, Some(text), trace, Outlived(n)) <==> n == |LateLines(SplitLines(text))| && n > 0
    ensures (exists j :: Late(SplitLines(text), j)) ==> !Passes(environment, Some(text), trace)
  {
    TrailingIs(SplitLines(text));
    OutlivedBlocks(environment, text, trace);
    hide SplitLines, TrailingCount, LateLines, Late;
    if exists j :: Late(SplitLines(text), j) {
      AnyLate(SplitLines(text));
      assert Blocks(environment, Some(text), trace, Outlived(|LateLines(SplitLines(text))|));
    }
  }

  // ---------- values of keys ----------

  /** What a line for each key begins with, behind the tag. */
  function KeyPart(k: Key): string {
    match k
    case Attempt => "attempt="
    case CleanGenerated => "clean_generated="
    case ExitCode => "exit_code="
    case Payload => "payload="
    case BinaryArg => "binary_arg="
    case Command => "command="
    case TimeoutAfter => "timeout_after_seconds="
    case TimeoutCycles => "timeout_cycles="
    case CoreTimeout => "core_timeout_cycles="
    case TilelinkTimeout => "tilelink_timeout_cycles="
    case RunTarget => "run_target="
  }

  function Prefix(k: Key): string {
    "openagent-evidence: " + KeyPart(k)
  }

  lemma StartIs(k: Key)
    ensures KeyPart(k) == KeyText(k) + "="
  {
    match k {
      case Attempt => case CleanGenerated => case ExitCode => case Payload => case BinaryArg => case Command =>
      case TimeoutAfter => case TimeoutCycles => case CoreTimeout => case TilelinkTimeout => case RunTarget =>
    }
  }

  lemma PrefixIs(k: Key)
    ensures Prefix(k) == EVIDENCE + KeyText(k) + "="
  {
    StartIs(k);
    hide KeyPart, KeyText;
    assert EVIDENCE + KeyText(k) + "=" == EVIDENCE + (KeyText(k) + "=");
  }

  /** Line `i` is the last one that begins with a prefix. */
  ghost predicate LastWith(lines: seq<string>, prefix: string, i: int) {
    0 <= i < |lines| && StartsWith(lines[i], prefix) && forall j :: i < j < |lines| ==> !StartsWith(lines[j], prefix)
  }

  /** The value is what follows the prefix on the last line that begins with it, stripped. */
  ghost predicate ValueAt(lines: seq<string>, prefix: string, value: Option<string>) {
    && (value.Some? <==> exists i :: 0 <= i < |lines| && StartsWith(lines[i], prefix))
    && forall i :: LastWith(lines, prefix, i) ==> value == Some(Strip(lines[i][|prefix|..]))
  }

  lemma ValueSnoc(lines: seq<string>, line: string, prefix: string, value: Option<string>)
    requires ValueAt(lines, prefix, value)
    ensures ValueAt(lines + [line], prefix, if StartsWith(line, prefix) then Some(Strip(line[|prefix|..])) else value)
  {
    var all := lines + [line];
    assert all[|lines|] == line;
    if i :| 0 <= i < |lines| && StartsWith(lines[i], prefix) {
      assert StartsWith(all[i], prefix);
    }
    if StartsWith(line, prefix) {
      forall i | LastWith(all, prefix, i)
        ensures i == |lines|
      {
      }
    } else {
      forall i | LastWith(all, prefix, i)
        ensures LastWith(lines, prefix, i)
      {
        assert forall j :: i < j < |lines| ==> all[j] == lines[j];
      }
    }
  }

  lemma {:induction false} LastValueIs(lines: seq<string>, k: Key)
    ensures ValueAt(lines, Prefix(k), LastValue(lines, k))
  {
    PrefixIs(k);
    if lines != [] {
      var init, last := lines[..|lines| - 1], lines[|lines| - 1];
      assert lines == init + [last];
      LastValueIs(init, k);
      hide Prefix, KeyText;
      ValueSnoc(init, last, Prefix(k), LastValue(init, k));
    }
  }

  lemma {:induction false} LastEntryIs(lines: seq<string>)
    ensures ValueAt(lines, "SimDRAM loaded ELF entry=", LastEntry(lines))
  {
    assert ENTRY_MARKER == "SimDRAM loaded ELF entry=";
    if lines != [] {
      var init, last := lines[..|lines| - 1], lines[|lines| - 1];
      assert lines == init + [last];
      LastEntryIs(init);
      ValueSnoc(init, last, "SimDRAM loaded ELF entry=", LastEntry(init));
    }
  }

  // ---------- the last line of a kind ----------

  /** Line `i` is of a kind, and no later line is. */
  ghost predicate LastOf(lines: seq<string>, kind: string -> bool, i: int) {
    0 <= i < |lines| && kind(lines[i]) && forall j :: i < j < |lines| ==> !kind(lines[j])
  }

  lemma LastOfSnoc(lines: seq<string>, line: string, kind: string -> bool)
    ensures kind(line) ==> forall i :: LastOf(lines + [line], kind, i) <==> i == |lines|
    ensures !kind(line) ==> forall i :: LastOf(lines + [line], kind, i) <==> LastOf(lines, kind, i)
  {
    var all := lines + [line];
    assert all[|lines|] == line && forall j :: 0 <= j < |lines| ==> all[j] == lines[j];
    if !kind(line) {
      forall i
        ensures LastOf(all, kind, i) <==> LastOf(lines, kind, i)
      {
      }
    }
  }

  /** A loading line that says where in memory the payload goes. */
  predicate SaysRange(line: string) {
    StartsWith(line, "SimDRAM loading ELF ") && Contains(line, " into mem=")
  }

  /** What follows the last marker of a line. */
  ghost predicate Behind(line: string, marker: string, rest: string) {
    exists k :: OccursAt(line, marker, k) && (forall i :: OccursAt(line, marker, i) ==> i <= k) && rest == line[k + |marker|..]
  }

  ghost predicate RangeAt(lines: seq<string>, range: Option<string>) {
    && (range.Some? <==> exists i :: 0 <= i < |lines| && SaysRange(lines[i]))
    && forall i :: LastOf(lines, SaysRange, i) ==> exists rest :: Behind(lines[i], " into mem=", rest) && range == Some(Strip(rest))
  }

  lemma RangeLine(line: string)
    ensures SaysRange(line) <==> LoadingLine(line) && Contains(line, RANGE_MARKER)
    ensures SaysRange(line) ==> Behind(line, " into mem=", AfterLast(line, RANGE_MARKER))
  {
    RangeMarker();
    hide Contains, Behind, AfterLast;
    if SaysRange(line) {
      BehindLast(line, RANGE_MARKER);
    }
  }

  lemma RangeMarker()
    ensures RANGE_MARKER == " into mem=" && "SimDRAM load" + "ing ELF " == "SimDRAM loading ELF "
  {
  }

  lemma BehindLast(line: string, marker: string)
    requires marker != "" && Contains(line, marker)
    ensures Behind(line, marker, AfterLast(line, marker))
  {
    hide OccursAt, AfterLast;
    var k := W.AfterLastIs(line, marker);
  }

  lemma {:induction false} LastRangeIs(lines: seq<string>)
    ensures RangeAt(lines, LastRange(lines))
  {
    if lines != [] {
      var init, last := lines[..|lines| - 1], lines[|lines| - 1];
      assert lines == init + [last];
      LastRangeIs(init);
      RangeLine(last);
      LastOfSnoc(init, last, SaysRange);
      assert forall i :: 0 <= i < |init| ==> lines[i] == init[i];
      hide SaysRange, Behind, LastOf, LoadingLine, Contains, Strip;
    }
  }

  /** The texts that show progress anywhere in a line. */
  predicate ShowsProgress(line: string) {
    || Contains(line, "SimDRAM loaded ELF entry=") || Contains(line, "SimDRAM loading ELF ")
    || Contains(line, "[UART] UART0 is here") || Contains(line, "openagent-evidence: command=")
    || Contains(line, "openagent-evidence: timeout_after_seconds=") || Contains(line, "openagent-evidence: exit_code=")
  }

  /** Progress: the command and timeout lines, and otherwise what shows progress and is not taken for a key or the end. */
  ghost predicate Advances(line: string) {
    || StartsWith(line, Prefix(Command)) || StartsWith(line, Prefix(TimeoutAfter))
    || (ShowsProgress(line) && !Ends(line) && forall k :: !StartsWith(line, Prefix(k)))
  }

  lemma StartOccurs(line: string, marker: string)
    requires StartsWith(line, marker)
    ensures Contains(line, marker)
  {
    assert OccursAt(line, marker, 0);
  }

  lemma AdvancesIs(line: string)
    ensures IsProgress(line) <==> Advances(line)
  {
    hide Prefix, KeyLine, EndLine, LoadingLine, LoadedLine, ShowsProgress, MentionsProgress, BranchOf, StartsWith;
    BranchMeans(line);
    KeysAre(line);
    MentionIs(line);
    LoadingShows(line);
    BranchCases(line);
  }

  lemma KeysAre(line: string)
    ensures forall k :: KeyLine(line, k) <==> StartsWith(line, Prefix(k))
    ensures EndLine(line) <==> Ends(line)
  {
    forall k
      ensures KeyLine(line, k) <==> StartsWith(line, Prefix(k))
    {
      PrefixIs(k);
    }
  }

  lemma LoadingShows(line: string)
    ensures LoadingLine(line) || LoadedLine(line) ==> MentionsProgress(line)
  {
    hide Contains;
    if LoadingLine(line) {
      StartOccurs(line, "SimDRAM load" + "ing ELF ");
    }
    if LoadedLine(line) {
      StartOccurs(line, ENTRY_MARKER);
    }
  }

  lemma MentionIs(line: string)
    ensures MentionsProgress(line) <==> ShowsProgress(line)
  {
    assert ENTRY_MARKER == "SimDRAM loaded ELF entry=" && "SimDRAM load" + "ing ELF " == "SimDRAM loading ELF ";
    MarkerIs();
    hide Contains;
  }

  lemma MarkerIs()
    ensures EVIDENCE + "command=" == "openagent-evidence: command="
    ensures EVIDENCE + "timeout_after_seconds=" == "openagent-evidence: timeout_after_seconds="
    ensures EVIDENCE + "exit_code=" == "openagent-evidence: exit_code="
  {
  }

  /** The chain looks for markers last. */
  lemma BranchCases(line: string)
    ensures BranchOf(line).OnMarker? <==>
            MentionsProgress(line) && !EndLine(line) && !LoadingLine(line) && !LoadedLine(line) && forall k :: !KeyLine(line, k)
    ensures BranchOf(line).OnKey? ==> KeyLine(line, BranchOf(line).key)
  {
    BranchMeans(line);
    FirstKeySound(line, KEYS);
  }

  ghost predicate ProgressAt(lines: seq<string>, progress: string) {
    && (progress == "" <==> forall i :: 0 <= i < |lines| ==> !Advances(lines[i]))
    && forall i :: LastOf(lines, Advances, i) ==> progress == lines[i]
  }

  lemma {:induction false} LastProgressIs(lines: seq<string>)
    ensures ProgressAt(lines, LastProgress(lines))
  {
    if lines != [] {
      var init, last := lines[..|lines| - 1], lines[|lines| - 1];
      assert lines == init + [last];
      LastProgressIs(init);
      AdvancesIs(last);
      LastOfSnoc(init, last, Advances);
      assert forall i :: 0 <= i < |init| ==> lines[i] == init[i];
      if IsProgress(last) {
        ProgressIsVisible(last);
        assert Advances(lines[|init|]);
      }
      hide Advances, IsProgress, LastOf;
    }
  }

  // ---------- alarms ----------

  predicate IsAlarm(line: string, a: Alarm) {
    match a
    case Fatal => Contains(line, "fatal error:")
    case Exception =>
      || Contains(line, "Exception in thread") || StartsWith(Strip(line), "Caused by:")
      || Contains(line, "NoSuchFileException")
    case SimFailure => Contains(line, "*** FAILED ***")
  }

  /** The alarms are the lines of the kind, stripped, each in its place. */
  predicate AlarmsOf(lines: seq<string>, a: Alarm, alarms: seq<string>) {
    if lines == [] then alarms == []
    else if !IsAlarm(lines[0], a) then AlarmsOf(lines[1..], a, alarms)
    else alarms != [] && alarms[0] == Strip(lines[0]) && AlarmsOf(lines[1..], a, alarms[1..])
  }

  lemma AlarmsFront(lines: seq<string>, a: Alarm)
    requires lines != []
    ensures Alarms(lines, a) == (if IsAlarm(lines[0], a) then [Strip(lines[0])] else []) + Alarms(lines[1..], a)
  {
    assert lines == [lines[0]] + lines[1..];
    AlarmsAppend([lines[0]], lines[1..], a);
    assert [lines[0]][..0] == [];
    assert Raises(lines[0], a) <==> IsAlarm(lines[0], a);
    hide Raises, IsAlarm, Strip;
  }

  lemma {:induction false} AlarmsAre(lines: seq<string>, a: Alarm)
    ensures AlarmsOf(lines, a, Alarms(lines, a))
    ensures Alarms(lines, a) == [] <==> forall i :: 0 <= i < |lines| ==> !IsAlarm(lines[i], a)
  {
    hide IsAlarm, Strip;
    if lines != [] {
      AlarmsFront(lines, a);
      AlarmsAre(lines[1..], a);
      var rest := Alarms(lines[1..], a);
      assert Alarms(lines, a) == if IsAlarm(lines[0], a) then [Strip(lines[0])] + rest else rest;
      assert forall i :: 1 <= i < |lines| ==> lines[i] == lines[1..][i - 1];
    }
  }

  // ---------- the metadata ----------

  /** Every field of the parsed metadata, in terms of the lines. */
  lemma ParsedValues(m: LogMetadata, lines: seq<string>)
    requires m.Describes(lines)
    ensures forall k :: ValueAt(lines, Prefix(k), if k in m.values then Some(m.values[k]) else None)
    ensures ValueAt(lines, "SimDRAM loaded ELF entry=", m.entry)
    ensures RangeAt(lines, m.loadRange) && ProgressAt(lines, m.lastProgress)
    ensures m.closed <==> exists i :: 0 <= i < |lines| && Ends(lines[i])
    ensures m.trailing == |LateLines(lines)|
    ensures AlarmsOf(lines, Fatal, m.fatalErrors) && AlarmsOf(lines, Exception, m.exceptions) && AlarmsOf(lines, SimFailure, m.simFailures)
  {
    hide ValueAt, RangeAt, ProgressAt, AlarmsOf, LastValue, LastEntry, LastRange, LastProgress, Alarms, TrailingCount, Ends, Prefix;
    forall k
      ensures ValueAt(lines, Prefix(k), if k in m.values then Some(m.values[k]) else None)
    {
      LastValueIs(lines, k);
    }
    LastEntryIs(lines);
    LastRangeIs(lines);
    LastProgressIs(lines);
    EndedIs(lines);
    TrailingIs(lines);
    AlarmsAre(lines, Fatal);
    AlarmsAre(lines, Exception);
    AlarmsAre(lines, SimFailure);
  }

  // ---------- a passing gate ----------

  /** Nothing is recorded of the exit, or nothing but an empty text or zero. */
  ghost predicate ExitFine(lines: seq<string>) {
    forall i :: LastWith(lines, "openagent-evidence: exit_code=", i) ==>
                  var code := Strip(lines[i][|"openagent-evidence: exit_code="|..]);
                  code == "" || code == "0"
  }

  /** A log that the gate lets through, in terms of its text and its lines. */
  ghost predicate Clean(text: string, trace: TraceState) {
    var lines := SplitLines(text);
    && Contains(text, "OpenSBI")
    && (Contains(text, "SBI specification") || Contains(text, "Domain0 Next Address") || Contains(text, "Boot HART ID"))
    && Contains(text, "Linux version")
    && (Contains(text, "Kernel command line:") || Contains(text, "Freeing unused kernel")
        || Contains(text, "Run /init as init process") || Contains(text, "initramfs"))
    && (Contains(text, "openagent-evidence: raw_transcript_begin") ==> exists i :: 0 <= i < |lines| && Ends(lines[i]))
    && NothingLate(lines)
    && (forall i, a :: 0 <= i < |lines| ==> !IsAlarm(lines[i], a))
    && ExitFine(lines)
    && (trace.found ==> trace.current)
  }

  lemma AcceptedIs(text: string)
    ensures AcceptedOpenSbi(text) <==>
            && Contains(text, "OpenSBI")
            && (Contains(text, "SBI specification") || Contains(text, "Domain0 Next Address") || Contains(text, "Boot HART ID"))
    ensures AcceptedLinux(text) <==>
            && Contains(text, "Linux version")
            && (Contains(text, "Kernel command line:") || Contains(text, "Freeing unused kernel")
                || Contains(text, "Run /init as init process") || Contains(text, "initramfs"))
  {
    hide Contains;
    assert OPENSBI_ACCEPTANCE[0] in OPENSBI_ACCEPTANCE && OPENSBI_ACCEPTANCE[1] in OPENSBI_ACCEPTANCE && OPENSBI_ACCEPTANCE[2] in OPENSBI_ACCEPTANCE;
    assert LINUX_ACCEPTANCE[0] in LINUX_ACCEPTANCE && LINUX_ACCEPTANCE[1] in LINUX_ACCEPTANCE;
    assert LINUX_ACCEPTANCE[2] in LINUX_ACCEPTANCE && LINUX_ACCEPTANCE[3] in LINUX_ACCEPTANCE;
  }

  lemma ExitIs(lines: seq<string>)
    ensures !Failed(LastValue(lines, ExitCode)) <==> ExitFine(lines)
  {
    LastValueIs(lines, ExitCode);
    ExitPrefix();
    ExitOf(lines, "openagent-evidence: exit_code=", LastValue(lines, ExitCode));
    hide Prefix, LastValue, Strip, ValueAt, Failed, StartsWith, LastWith;
  }

  lemma ExitPrefix()
    ensures Prefix(ExitCode) == "openagent-evidence: exit_code="
  {
  }

  lemma ExitOf(lines: seq<string>, prefix: string, value: Option<string>)
    requires ValueAt(lines, prefix, value)
    ensures !Failed(value) <==>
            forall i :: LastWith(lines, prefix, i) ==>
                          (Strip(lines[i][|prefix|..]) == "" || Strip(lines[i][|prefix|..]) == "0")
  {
    hide Strip;
    if value.Some? {
      var i :| 0 <= i < |lines| && StartsWith(lines[i], prefix);
      var k := SomeLast(lines, prefix, i);
    }
  }

  lemma SomeLast(lines: seq<string>, prefix: string, i: nat) returns (k: nat)
    requires i < |lines| && StartsWith(lines[i], prefix)
    ensures LastWith(lines, prefix, k)
    decreases |lines| - i
  {
    if j :| i < j < |lines| && StartsWith(lines[j], prefix) {
      k := SomeLast(lines, prefix, j);
    } else {
      k := i;
    }
  }

  /**
   When the gate passes, in terms of the log itself: a clean environment, and a log with the accepted
   markers that was closed if it was opened, in which nothing but whitespace and evidence follows an
   end line, no line raises an alarm, and the last recorded exit code is zero or empty.
   */
  lemma PassIff(environment: seq<string>, log: Option<string>, trace: TraceState)
    ensures Passes(environment, log, trace) <==> environment == [] && log.Some? && Clean(log.value, trace)
  {
    PassMeans(environment, log, trace);
    if log.Some? {
      CleanIff(log.value, trace);
    }
  }

  lemma CleanIff(text: string, trace: TraceState)
    ensures CleanLog(text, trace) <==> Clean(text, trace)
  {
    hide Contains, Ends, NothingLate, IsAlarm, Alarms, ExitFine, AcceptedOpenSbi, AcceptedLinux, TrailingCount, Ended, SplitLines,
      LastValue, Failed;
    var lines := SplitLines(text);
    AcceptedIs(text);
    EndedIs(lines);
    NothingTrails(lines);
    NoAlarms(lines);
    ExitIs(lines);
    BeginIs();
  }

  lemma NoAlarms(lines: seq<string>)
    ensures Alarms(lines, Fatal) == [] && Alarms(lines, Exception) == [] && Alarms(lines, SimFailure) == [] <==>
            forall i, a :: 0 <= i < |lines| ==> !IsAlarm(lines[i], a)
  {
    hide Alarms, IsAlarm;
    AlarmsAre(lines, Fatal);
    AlarmsAre(lines, Exception);
    AlarmsAre(lines, SimFailure);
    if forall i :: 0 <= i < |lines| ==> !IsAlarm(lines[i], Fatal) && !IsAlarm(lines[i], Exception) && !IsAlarm(lines[i], SimFailure) {
      forall i, a | 0 <= i < |lines|
        ensures !IsAlarm(lines[i], a)
      {
        match a { case Fatal => case Exception => case SimFailure => }
      }
    }
  }

  lemma BeginIs()
    ensures BEGIN_MARKER == "openagent-evidence: raw_transcript_begin"
  {
  }

  // ---------- the trace ----------

  /** The retired instructions are the matched lines marked valid, each in its place. */
  predicate RetiredOf(lines: seq<Option<TraceEntry>>, retired: seq<TraceEntry>) {
    if lines == [] then retired == []
    else if lines[0].None? || !lines[0].value.valid then RetiredOf(lines[1..], retired)
    else retired != [] && retired[0] == lines[0].value && RetiredOf(lines[1..], retired[1..])
  }

  function One(line: Option<TraceEntry>): seq<TraceEntry> {
    if line.Some? && line.value.valid then [line.value] else []
  }

  lemma RetiredSnoc(init: seq<Option<TraceEntry>>, last: Option<TraceEntry>)
    ensures Retired(init + [last]) == Retired(init) + One(last)
  {
    assert (init + [last])[..|init|] == init;
  }

  lemma {:induction false} RetiredFront(first: Option<TraceEntry>, rest: seq<Option<TraceEntry>>)
    ensures Retired([first] + rest) == One(first) + Retired(rest)
  {
    hide Retired, One;
    if rest == [] {
      NoneRetired();
      RetiredSnoc([], first);
      assert [first] + rest == [] + [first];
    } else {
      var init, last := rest[..|rest| - 1], rest[|rest| - 1];
      assert rest == init + [last] && [first] + rest == ([first] + init) + [last];
      RetiredFront(first, init);
      RetiredSnoc(init, last);
      RetiredSnoc([first] + init, last);
    }
  }

  lemma NoneRetired()
    ensures Retired([]) == []
  {
  }

  lemma {:induction false} RetiredAre(lines: seq<Option<TraceEntry>>, retired: seq<TraceEntry>)
    ensures retired == Retired(lines) <==> RetiredOf(lines, retired)
  {
    if lines != [] {
      assert lines == [lines[0]] + lines[1..];
      RetiredFront(lines[0], lines[1..]);
      if lines[0].None? || !lines[0].value.valid {
        assert Retired(lines) == Retired(lines[1..]);
        RetiredAre(lines[1..], retired);
      } else if retired != [] {
        assert retired == [retired[0]] + retired[1..];
        RetiredAre(lines[1..], retired[1..]);
      }
    }
  }
}
