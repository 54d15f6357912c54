/** Progress stages of the boot smoke and the blocker logic of `main`. */
module SmokeGate {
  import opened Json
  import opened Text
  import opened SmokeLog

  // ---------- marker groups ----------

  const OPENSBI_ACCEPTANCE: seq<string> := ["SBI specification", "Domain0 Next Address", "Boot HART ID"]
  const LINUX_ACCEPTANCE: seq<string> :=
    ["Kernel command line:", "Freeing unused kernel", "Run /init as init process", "initramfs"]

  /** `has_marker_group` with one required marker */
  predicate HasMarkerGroup(text: string, required: string, anyOf: seq<string>) {
    Contains(text, required) && exists m :: m in anyOf && Contains(text, m)
  }

  predicate AcceptedOpenSbi(text: string) {
    HasMarkerGroup(text, "OpenSBI", OPENSBI_ACCEPTANCE)
  }

  predicate AcceptedLinux(text: string) {
    HasMarkerGroup(text, "Linux version", LINUX_ACCEPTANCE)
  }

  // ---------- the ladder ----------

  datatype Stage =
    | NoRun | IncompleteAttempt | SimulatorAttemptComplete | PayloadLoaded | CpuProgress
    | OpenSbiBanner | OpenSbiBoot | LinuxBanner | LinuxBoot

  function Rank(s: Stage): nat {
    match s
    case NoRun => 0
    case IncompleteAttempt => 1
    case SimulatorAttemptComplete => 2
    case PayloadLoaded => 3
    case CpuProgress => 4
    case OpenSbiBanner => 5
    case OpenSbiBoot => 6
    case LinuxBanner => 7
    case LinuxBoot => 8
  }

  /** `classify_smoke_progress` */
  function Classify(text: string, handoff: bool, entry: Option<string>, closed: bool, logExists: bool): Stage {
    if text == "" then NoRun
    else if AcceptedLinux(text) then LinuxBoot
    else if Contains(text, "Linux version") then LinuxBanner
    else if AcceptedOpenSbi(text) then OpenSbiBoot
    else if Contains(text, "OpenSBI") then OpenSbiBanner
    else if handoff then CpuProgress
    else if (entry.Some? && entry.value != "") || Contains(text, ENTRY_MARKER) then PayloadLoaded
    else if closed then SimulatorAttemptComplete
    else if logExists then IncompleteAttempt
    else NoRun
  }

  /** The stage reported for a log that exists, from its text alone. */
  function StageOf(text: string, handoff: bool): Stage {
    var lines := SplitLines(text);
    Classify(text, handoff, LastEntry(lines), Ended(lines), true)
  }

  // ---------- lines of a growing text ----------

  lemma LineLengthGrows(t: string, u: string)
    ensures LineLength(t) < |t| ==> LineLength(t + u) == LineLength(t)
    ensures LineLength(t) == |t| ==> LineLength(t + u) >= |t|
  {
    var n := LineLength(t + u);
    assert forall i :: 0 <= i < |t| ==> (t + u)[i] == t[i];
    if n < |t| {
      assert IsBreak(t[n]);
    }
  }

  predicate SomeLine(t: string, p: string) {
    exists l :: l in SplitLines(t) && StartsWith(l, p)
  }

  /** The text behind the first line and its break. */
  function RestOf(t: string): string
    requires LineLength(t) < |t|
  {
    t[LineLength(t) + BreakLength(t, LineLength(t))..]
  }

  lemma SomeLineUnfold(t: string, p: string)
    requires t != ""
    ensures LineLength(t) == |t| ==> (SomeLine(t, p) <==> StartsWith(t, p))
    ensures LineLength(t) < |t| ==> (SomeLine(t, p) <==> StartsWith(t[..LineLength(t)], p) || SomeLine(RestOf(t), p))
  {
    var n := LineLength(t);
    if n < |t| {
      assert SplitLines(t) == [t[..n]] + SplitLines(RestOf(t));
      assert SplitLines(t)[0] == t[..n] && t[..n] in SplitLines(t);
      assert forall l :: l in SplitLines(t) <==> l == t[..n] || l in SplitLines(RestOf(t));
    } else {
      assert SplitLines(t) == [t] && SplitLines(t)[0] == t;
    }
  }

  lemma RestGrows(t: string, u: string)
    requires LineLength(t) < |t| && RestOf(t) != ""
    ensures LineLength(t + u) == LineLength(t) && RestOf(t + u) == RestOf(t) + u
  {
    LineLengthGrows(t, u);
    var n := LineLength(t);
    assert BreakLength(t + u, n) == BreakLength(t, n);
  }

  /** Text added at the end can only lengthen the last line: a line with some prefix leaves one with that prefix. */
  lemma {:induction false} LinePrefixSurvives(t: string, u: string, p: string)
    requires SomeLine(t, p)
    ensures SomeLine(t + u, p)
    decreases |t|
  {
    var n, s := LineLength(t), t + u;
    LineLengthGrows(t, u);
    assert t != "";
    SomeLineUnfold(t, p);
    SomeLineUnfold(s, p);
    if n == |t| {
      assert s[..LineLength(s)][..|t|] == t;
      assert LineLength(s) == |s| ==> s[..LineLength(s)] == s;
    } else {
      assert s[..n] == t[..n];
      if !StartsWith(t[..n], p) {
        assert RestOf(t) != "";
        RestGrows(t, u);
        LinePrefixSurvives(RestOf(t), u, p);
      }
    }
  }

  /** Every line is part of the text. */
  lemma {:induction false} LinesAreParts(t: string, l: string)
    requires l in SplitLines(t)
    ensures Contains(t, l)
    decreases |t|
  {
    hide *;
    var k := LineUnfold(t, l);
    if l in SplitLines(t[k..]) && 0 < k {
      LinesAreParts(t[k..], l);
      SuffixPart(t, k, l);
    } else {
      StartIsPart(t, LineLength(t));
    }
  }

  /** A line is the first one, or a line of what follows the first break. */
  lemma LineUnfold(t: string, l: string) returns (k: nat)
    requires l in SplitLines(t)
    ensures k <= |t| && (l == t[..LineLength(t)] || (0 < k && l in SplitLines(t[k..])))
  {
    assert t[..|t|] == t;
    k := if LineLength(t) < |t| then LineLength(t) + BreakLength(t, LineLength(t)) else 0;
  }

  lemma StartIsPart(t: string, n: nat)
    requires n <= |t|
    ensures Contains(t, t[..n])
  {
    assert OccursAt(t, t[..n], 0);
  }

  lemma SuffixPart(t: string, k: nat, l: string)
    requires k <= |t| && Contains(t[k..], l)
    ensures Contains(t, l)
  {
    var i :| 0 <= i <= |t[k..]| && OccursAt(t[k..], l, i);
    assert t[k + i..k + i + |l|] == t[k..][i..i + |l|];
    assert OccursAt(t, l, k + i);
  }

  lemma EntryIsInText(text: string)
    requires LastEntry(SplitLines(text)).Some?
    ensures Contains(text, ENTRY_MARKER)
  {
    var l := LoadedLineOf(SplitLines(text));
    LinesAreParts(text, l);
    var i :| 0 <= i <= |text| && OccursAt(text, l, i);
    assert text[i..i + |l|] == l && l[..|ENTRY_MARKER|] == ENTRY_MARKER;
    assert text[i..i + |ENTRY_MARKER|] == l[..|ENTRY_MARKER|];
    assert OccursAt(text, ENTRY_MARKER, i);
  }

  lemma {:induction false} LoadedLineOf(lines: seq<string>) returns (l: string)
    requires LastEntry(lines).Some?
    ensures l in lines && LoadedLine(l)
  {
    l := lines[|lines| - 1];
    if !LoadedLine(l) {
      l := LoadedLineOf(lines[..|lines| - 1]);
    }
  }

  lemma EndedGrows(t: string, u: string)
    requires Ended(SplitLines(t))
    ensures Ended(SplitLines(t + u))
  {
    var p := EVIDENCE + "raw_transcript_end";
    assert SomeLine(t, p) by {
      var l :| l in SplitLines(t) && EndLine(l);
      assert StartsWith(l, p);
    }
    LinePrefixSurvives(t, u, p);
    var l :| l in SplitLines(t + u) && StartsWith(l, p);
    assert EndLine(l);
  }

  lemma Appended(t: string, u: string, m: string)
    ensures Contains(t, m) ==> Contains(t + u, m)
  {
    if Contains(t, m) {
      ContainsGrows(t, "", u, m);
      assert "" + t + u == t + u;
    }
  }

  lemma MarkerGroupGrows(t: string, u: string, required: string, anyOf: seq<string>)
    requires HasMarkerGroup(t, required, anyOf)
    ensures HasMarkerGroup(t + u, required, anyOf)
  {
    Appended(t, u, required);
    var m :| m in anyOf && Contains(t, m);
    Appended(t, u, m);
  }

  /** The ladder as a list of tests, highest stage first: the stage is the rank of the first that holds. */
  lemma StageByRank(text: string, handoff: bool)
    ensures var r := Rank(StageOf(text, handoff));
            && (r >= 8 <==> AcceptedLinux(text))
            && (r >= 7 <==> Contains(text, "Linux version"))
            && (r >= 6 <==> r >= 7 || AcceptedOpenSbi(text))
            && (r >= 5 <==> r >= 6 || Contains(text, "OpenSBI"))
            && (r >= 4 <==> r >= 5 || (handoff && text != ""))
            && (r >= 3 <==> r >= 4 || Contains(text, ENTRY_MARKER))
            && (r >= 2 <==> r >= 3 || Ended(SplitLines(text)))
            && (r >= 1 <==> text != "")
  {
    if LastEntry(SplitLines(text)).Some? {
      EntryIsInText(text);
    }
    if text == "" {
      EmptyContainsNothing("Linux version");
      EmptyContainsNothing("OpenSBI");
      EmptyContainsNothing(ENTRY_MARKER);
    }
  }

  lemma EmptyContainsNothing(m: string)
    requires m != ""
    ensures !Contains("", m)
  {
  }

  /** Appending any text to a log, in the middle of a line or not, never lowers the stage. */
  lemma ProgressIsMonotone(t: string, u: string, handoff: bool)
    ensures Rank(StageOf(t, handoff)) <= Rank(StageOf(t + u, handoff))
  {
    StageByRank(t, handoff);
    StageByRank(t + u, handoff);
    Appended(t, u, "Linux version");
    Appended(t, u, "OpenSBI");
    Appended(t, u, ENTRY_MARKER);
    if AcceptedLinux(t) {
      MarkerGroupGrows(t, u, "Linux version", LINUX_ACCEPTANCE);
    }
    if AcceptedOpenSbi(t) {
      MarkerGroupGrows(t, u, "OpenSBI", OPENSBI_ACCEPTANCE);
    }
    if Ended(SplitLines(t)) {
      EndedGrows(t, u);
    }
  }

  // ---------- the blocker logic of main ----------

  datatype TraceState = TraceState(found: bool, current: bool, handoff: bool)

  datatype Blocker =
    | Environment(message: string)
    | MissingLog
    | Interrupted
    | Outlived(count: nat)
    | FatalError(line: string)
    | GeneratorException(line: string)
    | SimulatorFailure(line: string, hinted: bool)
    | WrapperExit(code: string)
    | StalledAt(line: string)
    | StaleTrace
    | TraceWithoutBoot
    | LacksMarker(marker: string)
    | UnacceptedOpenSbi
    | UnacceptedLinux

  const BEGIN_MARKER := EVIDENCE + "raw_transcript_begin"

  predicate Booted(text: string) {
    Contains(text, "OpenSBI") || Contains(text, "Linux version")
  }

  predicate Failed(exit: Option<string>) {
    exit.Some? && exit.value != "" && exit.value != "0"
  }

  /** What blocks the gate, given the environment's own blockers and the log if there is one. */
  predicate Blocks(environment: seq<string>, log: Option<string>, trace: TraceState, b: Blocker) {
    match b
    case Environment(m) => m in environment
    case MissingLog => log.None?
    case _ => log.Some? && LogBlocks(log.value, trace, b)
  }

  predicate LogBlocks(text: string, trace: TraceState, b: Blocker) {
    var lines := SplitLines(text);
    match b
    case Interrupted => Contains(text, BEGIN_MARKER) && !Ended(lines)
    case Outlived(n) => n == TrailingCount(lines) && n > 0
    case FatalError(l) => l in Alarms(lines, Fatal)
    case GeneratorException(l) => l in Alarms(lines, Exception)
    case SimulatorFailure(l, hinted) =>
      l in Alarms(lines, SimFailure) && hinted == (Contains(l, "timeout") && !Contains(text, "max_core_cycles"))
    case WrapperExit(code) => LastValue(lines, ExitCode) == Some(code) && Failed(Some(code))
    case StalledAt(l) => l == LastProgress(lines) && l != "" && !Booted(text)
    case StaleTrace => trace.found && !trace.current
    case TraceWithoutBoot => trace.current && trace.handoff && !Booted(text)
    case LacksMarker(m) => (m == "OpenSBI" || m == "Linux version") && !Contains(text, m)
    case UnacceptedOpenSbi => Contains(text, "OpenSBI") && !AcceptedOpenSbi(text)
    case UnacceptedLinux => Contains(text, "Linux version") && !AcceptedLinux(text)
    case _ => false
  }

  method WrapAlarms(text: string, ghost trace: TraceState, m: LogMetadata) returns (r: seq<Blocker>)
    requires m.Describes(SplitLines(text))
    ensures forall b :: b in r <==>
                        (b.FatalError? || b.GeneratorException? || b.SimulatorFailure?) && LogBlocks(text, trace, b)
  {
    ghost var lines := SplitLines(text);
    var fatal := WrapFatal(m.fatalErrors);
    var exceptions := WrapExceptions(m.exceptions);
    var failures := WrapFailures(m.simFailures, text);
    r := fatal + exceptions + failures;
  }

  method WrapFatal(alarms: seq<string>) returns (r: seq<Blocker>)
    ensures forall b :: b in r <==> b.FatalError? && b.line in alarms
  {
    r := [];
    for i := 0 to |alarms|
      invariant forall b :: b in r <==> b.FatalError? && b.line in alarms[..i]
    {
      assert alarms[..i + 1] == alarms[..i] + [alarms[i]];
      r := r + [FatalError(alarms[i])];
    }
    assert alarms[..|alarms|] == alarms;
  }

  method WrapExceptions(alarms: seq<string>) returns (r: seq<Blocker>)
    ensures forall b :: b in r <==> b.GeneratorException? && b.line in alarms
  {
    r := [];
    for i := 0 to |alarms|
      invariant forall b :: b in r <==> b.GeneratorException? && b.line in alarms[..i]
    {
      assert alarms[..i + 1] == alarms[..i] + [alarms[i]];
      r := r + [GeneratorException(alarms[i])];
    }
    assert alarms[..|alarms|] == alarms;
  }

  method WrapFailures(alarms: seq<string>, text: string) returns (r: seq<Blocker>)
    ensures forall b :: b in r <==>
                        && b.SimulatorFailure? && b.line in alarms
                        && b.hinted == (Contains(b.line, "timeout") && !Contains(text, "max_core_cycles"))
  {
    r := [];
    for i := 0 to |alarms|
      invariant forall b :: b in r <==>
                            && b.SimulatorFailure? && b.line in alarms[..i]
                            && b.hinted == (Contains(b.line, "timeout") && !Contains(text, "max_core_cycles"))
    {
      assert alarms[..i + 1] == alarms[..i] + [alarms[i]];
      r := r + [SimulatorFailure(alarms[i], Contains(alarms[i], "timeout") && !Contains(text, "max_core_cycles"))];
    }
    assert alarms[..|alarms|] == alarms;
  }

  method WrapEnvironment(messages: seq<string>) returns (r: seq<Blocker>)
    ensures forall b :: b in r <==> b.Environment? && b.message in messages
  {
    r := [];
    for i := 0 to |messages|
      invariant forall b :: b in r <==> b.Environment? && b.message in messages[..i]
    {
      assert messages[..i + 1] == messages[..i] + [messages[i]];
      r := r + [Environment(messages[i])];
    }
    assert messages[..|messages|] == messages;
  }

  /** Blockers from the metadata of the wrapper. */
  method WrapperBlockers(text: string, ghost trace: TraceState, m: LogMetadata) returns (r: seq<Blocker>)
    requires m.Describes(SplitLines(text))
    ensures forall b :: b in r <==>
                        && (b.Interrupted? || b.Outlived? || b.WrapperExit?)
                        && LogBlocks(text, trace, b)
  {
    hide Contains, Ended, TrailingCount, LastValue, LastProgress, Alarms, SplitLines, AcceptedOpenSbi, AcceptedLinux;
    r := [];
    if Contains(text, BEGIN_MARKER) && !m.closed {
      r := r + [Interrupted];
    }
    if m.trailing > 0 {
      r := r + [Outlived(m.trailing)];
    }
    assert (if ExitCode in m.values then Some(m.values[ExitCode]) else None) == LastValue(SplitLines(text), ExitCode);
    if ExitCode in m.values && m.values[ExitCode] != "" && m.values[ExitCode] != "0" {
      r := r + [WrapperExit(m.values[ExitCode])];
    }
  }

  /** Blockers from the last progress and from the trace. */
  method ProgressBlockers(text: string, trace: TraceState, lastProgress: string) returns (r: seq<Blocker>)
    requires lastProgress == LastProgress(SplitLines(text))
    ensures forall b :: b in r <==> (b.StalledAt? || b.StaleTrace? || b.TraceWithoutBoot?) && LogBlocks(text, trace, b)
  {
    hide Contains, Ended, TrailingCount, LastValue, LastProgress, Alarms, SplitLines, AcceptedOpenSbi, AcceptedLinux;
    r := [];
    if lastProgress != "" && !Contains(text, "OpenSBI") && !Contains(text, "Linux version") {
      r := r + [StalledAt(lastProgress)];
    }
    if trace.found && !trace.current {
      r := r + [StaleTrace];
    }
    if trace.current && trace.handoff && !Contains(text, "OpenSBI") && !Contains(text, "Linux version") {
      r := r + [TraceWithoutBoot];
    }
  }

  method BootBlockers(text: string, ghost trace: TraceState) returns (r: seq<Blocker>)
    ensures forall b :: b in r <==>
                        && (b.LacksMarker? || b.UnacceptedOpenSbi? || b.UnacceptedLinux?)
                        && LogBlocks(text, trace, b)
  {
    r := [];
    if !Contains(text, "OpenSBI") {
      r := r + [LacksMarker("OpenSBI")];
    }
    if !Contains(text, "Linux version") {
      r := r + [LacksMarker("Linux version")];
    }
    if Contains(text, "OpenSBI") && !AcceptedOpenSbi(text) {
      r := r + [UnacceptedOpenSbi];
    }
    if Contains(text, "Linux version") && !AcceptedLinux(text) {
      r := r + [UnacceptedLinux];
    }
  }

  /** The blockers that an existing log gives rise to. */
  method LogBlockers(text: string, trace: TraceState, m: LogMetadata) returns (r: seq<Blocker>)
    requires m.Describes(SplitLines(text))
    ensures forall b :: b in r <==> LogBlocks(text, trace, b)
  {
    var wrapper := WrapperBlockers(text, trace, m);
    var progress := ProgressBlockers(text, trace, m.lastProgress);
    var alarms := WrapAlarms(text, trace, m);
    var boot := BootBlockers(text, trace);
    r := wrapper + alarms + progress + boot;
  }

  /** `main`: collects the blockers; the gate passes exactly when there are none. */
  method Gate(environment: seq<string>, log: Option<string>, trace: TraceState) returns (blockers: seq<Blocker>, stage: Stage)
    ensures forall b :: b in blockers <==> Blocks(environment, log, trace, b)
    ensures stage == if log.Some? then StageOf(log.value, trace.handoff) else NoRun
  {
    var outside := WrapEnvironment(environment);
    match log {
      case None =>
        blockers := outside + [MissingLog];
        stage := NoRun;
      case Some(text) =>
        var m := ParseLog(SplitLines(text));
        var inside := LogBlockers(text, trace, m);
        blockers := outside + inside;
        stage := Classify(text, trace.handoff, m.entry, m.closed, true);
    }
  }

  ghost predicate Passes(environment: seq<string>, log: Option<string>, trace: TraceState) {
    forall b :: !Blocks(environment, log, trace, b)
  }

  /** A log with nothing to hold against it. */
  ghost predicate CleanLog(text: string, trace: TraceState) {
    var lines := SplitLines(text);
    && AcceptedOpenSbi(text) && AcceptedLinux(text)
    && (Contains(text, BEGIN_MARKER) ==> Ended(lines))
    && TrailingCount(lines) == 0
    && Alarms(lines, Fatal) == [] && Alarms(lines, Exception) == [] && Alarms(lines, SimFailure) == []
    && !Failed(LastValue(lines, ExitCode))
    && (trace.found ==> trace.current)
  }

  /**
   When the gate passes: exactly on a clean environment and a log that boots OpenSBI and Linux with
   accepted markers, was closed if it was opened, raises no alarm, lets nothing outlive the wrapper
   and records no failing exit. A recorded exit code is not required.
   */
  lemma PassMeans(environment: seq<string>, log: Option<string>, trace: TraceState)
    ensures Passes(environment, log, trace) <==> environment == [] && log.Some? && CleanLog(log.value, trace)
  {
    if log.Some? {
      UnblockedLog(log.value, trace);
    }
    if Passes(environment, log, trace) {
      assert environment != [] ==> Blocks(environment, log, trace, Environment(environment[0]));
      assert !Blocks(environment, log, trace, MissingLog);
      assert forall b :: LogBlocks(log.value, trace, b) ==> Blocks(environment, log, trace, b);
    }
  }

  lemma UnblockedLog(text: string, trace: TraceState)
    ensures (forall b :: !LogBlocks(text, trace, b)) <==> CleanLog(text, trace)
  {
    BootUnblocked(text, trace);
    AlarmsUnblocked(text, trace);
    WrapperUnblocked(text, trace);
  }

  predicate AboutBoot(b: Blocker) {
    b.LacksMarker? || b.UnacceptedOpenSbi? || b.UnacceptedLinux? || b.StalledAt? || b.TraceWithoutBoot?
  }

  predicate AboutAlarms(b: Blocker) {
    b.FatalError? || b.GeneratorException? || b.SimulatorFailure?
  }

  lemma BootUnblocked(text: string, trace: TraceState)
    ensures (forall b :: AboutBoot(b) ==> !LogBlocks(text, trace, b)) <==> AcceptedOpenSbi(text) && AcceptedLinux(text)
  {
    hide Contains, Ended, TrailingCount, LastValue, LastProgress, Alarms, SplitLines;
    if forall b :: AboutBoot(b) ==> !LogBlocks(text, trace, b) {
      assert AboutBoot(LacksMarker("OpenSBI")) && AboutBoot(LacksMarker("Linux version"));
      assert AboutBoot(UnacceptedOpenSbi) && AboutBoot(UnacceptedLinux);
      assert !LogBlocks(text, trace, LacksMarker("OpenSBI")) && !LogBlocks(text, trace, LacksMarker("Linux version"));
      assert !LogBlocks(text, trace, UnacceptedOpenSbi) && !LogBlocks(text, trace, UnacceptedLinux);
    }
  }

  lemma AlarmsUnblocked(text: string, trace: TraceState)
    ensures var lines := SplitLines(text);
            (forall b :: AboutAlarms(b) ==> !LogBlocks(text, trace, b)) <==>
            Alarms(lines, Fatal) == [] && Alarms(lines, Exception) == [] && Alarms(lines, SimFailure) == []
  {
    hide Contains, Ended, TrailingCount, LastValue, LastProgress, Alarms, SplitLines, AcceptedOpenSbi, AcceptedLinux;
    var lines := SplitLines(text);
    var fatal, exceptions, failures := Alarms(lines, Fatal), Alarms(lines, Exception), Alarms(lines, SimFailure);
    if fatal != [] {
      assert LogBlocks(text, trace, FatalError(fatal[0])) && AboutAlarms(FatalError(fatal[0]));
    } else if exceptions != [] {
      assert LogBlocks(text, trace, GeneratorException(exceptions[0])) && AboutAlarms(GeneratorException(exceptions[0]));
    } else if failures != [] {
      var b := SimulatorFailure(failures[0], Contains(failures[0], "timeout") && !Contains(text, "max_core_cycles"));
      assert LogBlocks(text, trace, b) && AboutAlarms(b);
    }
  }

  lemma WrapperUnblocked(text: string, trace: TraceState)
    ensures var lines := SplitLines(text);
            (forall b :: !AboutBoot(b) && !AboutAlarms(b) ==> !LogBlocks(text, trace, b)) <==>
            && (Contains(text, BEGIN_MARKER) ==> Ended(lines)) && TrailingCount(lines) == 0
            && !Failed(LastValue(lines, ExitCode)) && (trace.found ==> trace.current)
  {
    hide Contains, Ended, TrailingCount, LastValue, LastProgress, Alarms, SplitLines, AcceptedOpenSbi, AcceptedLinux;
    var lines := SplitLines(text);
    var exit := LastValue(lines, ExitCode);
    if forall b :: !AboutBoot(b) && !AboutAlarms(b) ==> !LogBlocks(text, trace, b) {
      assert !LogBlocks(text, trace, Interrupted) && !LogBlocks(text, trace, StaleTrace);
      assert !LogBlocks(text, trace, Outlived(TrailingCount(lines)));
      assert exit.Some? ==> !LogBlocks(text, trace, WrapperExit(exit.value));
    }
  }

  /** The gate passes only at the top of the ladder. */
  lemma PassOnlyAtLinuxBoot(environment: seq<string>, log: Option<string>, trace: TraceState)
    requires Passes(environment, log, trace)
    ensures log.Some? && StageOf(log.value, trace.handoff) == LinuxBoot
  {
    PassMeans(environment, log, trace);
    StageByRank(log.value, trace.handoff);
  }
}
