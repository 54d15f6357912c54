/** The streaming parser of the boot smoke log, `parse_log_metadata`, and the trace fold beside it. */
module SmokeLog {
  import opened Json
  import opened Text

  // ---------- what one line says ----------

  const EVIDENCE := "openagent-evidence: "
  const EVIDENCE_TAG := "openagent-evidence:"

  datatype Key =
    | Attempt | CleanGenerated | ExitCode | Payload | BinaryArg | Command | TimeoutAfter | TimeoutCycles
    | CoreTimeout | TilelinkTimeout | RunTarget

  function KeyText(k: Key): string {
    match k
    case Attempt => "attempt"
    case CleanGenerated => "clean_generated"
    case ExitCode => "exit_code"
    case Payload => "payload"
    case BinaryArg => "binary_arg"
    case Command => "command"
    case TimeoutAfter => "timeout_after_seconds"
    case TimeoutCycles => "timeout_cycles"
    case CoreTimeout => "core_timeout_cycles"
    case TilelinkTimeout => "tilelink_timeout_cycles"
    case RunTarget => "run_target"
  }

  predicate KeyLine(line: string, k: Key) {
    StartsWith(line, EVIDENCE + KeyText(k) + "=")
  }

  predicate EndLine(line: string) {
    StartsWith(line, EVIDENCE + "raw_transcript_end")
  }

  predicate LoadingLine(line: string) {
    StartsWith(line, "SimDRAM load" + "ing ELF ")
  }

  predicate LoadedLine(line: string) {
    StartsWith(line, ENTRY_MARKER)
  }

  const ENTRY_MARKER := "SimDRAM load" + "ed ELF entry="
  const RANGE_MARKER := " into mem="

  /** `any(marker in line for marker in PROGRESS_MARKERS)` */
  predicate MentionsProgress(line: string) {
    || Contains(line, ENTRY_MARKER)
    || Contains(line, "SimDRAM load" + "ing ELF ")
    || Contains(line, "[UART] UART0 is here")
    || Contains(line, EVIDENCE + "command=")
    || Contains(line, EVIDENCE + "timeout_after_seconds=")
    || Contains(line, EVIDENCE + "exit_code=")
  }

  /** `line.split("=", 1)[1]`: what follows the first equals sign. */
  function AfterEquals(line: string): string {
    if line == "" then "" else if line[0] == '=' then line[1..] else AfterEquals(line[1..])
  }

  /** `line.rsplit(marker, 1)[1]`: what follows the last occurrence of a marker. */
  function AfterLast(line: string, marker: string): string {
    if |line| < |marker| then line
    else if EndsWith(line, marker) then ""
    else if line == "" then ""
    else AfterLast(line[..|line| - 1], marker) + [line[|line| - 1]]
  }

  predicate Noise(line: string) {
    Strip(line) != "" && !StartsWith(line, EVIDENCE_TAG)
  }

  predicate IsFatal(line: string) {
    Contains(line, "fatal error:")
  }

  predicate IsException(line: string) {
    Contains(line, "Exception in thread") || StartsWith(Strip(line), "Caused by:") || Contains(line, "NoSuchFileException")
  }

  predicate IsSimFailure(line: string) {
    Contains(line, "*** FAILED ***")
  }

  /** The branch of the `elif` chain that a line takes. */
  datatype Branch = OnKey(key: Key) | OnEnd | OnLoading | OnLoaded | OnMarker | OnNothing

  /** The keys in the order in which the chain tests them. */
  const KEYS: seq<Key> := [Attempt, CleanGenerated, ExitCode, Payload, BinaryArg, Command, TimeoutAfter, TimeoutCycles,
                           CoreTimeout, TilelinkTimeout, RunTarget]

  function FirstKey(line: string, keys: seq<Key>): Option<Key> {
    if keys == [] then None
    else if KeyLine(line, keys[0]) then Some(keys[0])
    else FirstKey(line, keys[1..])
  }

  function BranchOf(line: string): Branch {
    match FirstKey(line, KEYS)
    case Some(k) => OnKey(k)
    case None =>
      if EndLine(line) then OnEnd
      else if LoadingLine(line) then OnLoading
      else if LoadedLine(line) then OnLoaded
      else if MentionsProgress(line) then OnMarker
      else OnNothing
  }

  // ---------- the chain tests independent conditions ----------

  function KeyCode(k: Key): (nat, char) {
    (|KeyText(k)|, KeyText(k)[0])
  }

  lemma KeyCodes(k: Key)
    ensures KeyCode(k) == match k
                          case Attempt => (7, 'a')
                          case CleanGenerated => (15, 'c')
                          case ExitCode => (9, 'e')
                          case Payload => (7, 'p')
                          case BinaryArg => (10, 'b')
                          case Command => (7, 'c')
                          case TimeoutAfter => (21, 't')
                          case TimeoutCycles => (14, 't')
                          case CoreTimeout => (19, 'c')
                          case TilelinkTimeout => (23, 't')
                          case RunTarget => (10, 'r')
    ensures forall c :: c in KeyText(k) ==> c != '='
    ensures k == RunTarget ==> KeyText(k)[1] == 'u'
  {
    match k {
      case Attempt => case CleanGenerated => case ExitCode => case Payload => case BinaryArg => case Command =>
      case TimeoutAfter => case TimeoutCycles => case CoreTimeout => case TilelinkTimeout => case RunTarget =>
    }
  }

  lemma KeyTextInjective(k: Key, l: Key)
    requires KeyText(k) == KeyText(l)
    ensures k == l
  {
    KeyCodes(k);
    KeyCodes(l);
    assert KeyCode(k) == KeyCode(l);
  }

  function FirstEquals(s: string): nat {
    if s == "" || s[0] == '=' then 0 else 1 + FirstEquals(s[1..])
  }

  lemma {:induction false} FirstEqualsAt(s: string, a: string)
    requires a + "=" <= s && forall c :: c in a ==> c != '='
    ensures FirstEquals(s) == |a| && a == s[..|a|]
  {
    assert s[|a|] == (a + "=")[|a|] == '=';
    if a != "" {
      assert s[0] == (a + "=")[0] == a[0] && a[0] in a;
      assert (a + "=")[1..] == a[1..] + "=";
      assert forall c :: c in a[1..] ==> c in a;
      FirstEqualsAt(s[1..], a[1..]);
      assert a == [a[0]] + a[1..];
    }
  }

  /** Two texts without an equals sign that both precede one in the same place are equal. */
  lemma SameKey(s: string, a: string, b: string)
    requires a + "=" <= s && b + "=" <= s
    requires forall c :: c in a ==> c != '='
    requires forall c :: c in b ==> c != '='
    ensures a == b
  {
    FirstEqualsAt(s, a);
    FirstEqualsAt(s, b);
  }

  lemma AfterPrefix(line: string, p: string, q: string)
    requires StartsWith(line, p + q)
    ensures |p| <= |line| && StartsWith(line[|p|..], q)
  {
    assert (p + q)[|p|..] == q;
  }

  lemma OneKey(line: string, k: Key, l: Key)
    requires KeyLine(line, k) && KeyLine(line, l)
    ensures k == l
  {
    assert EVIDENCE + KeyText(k) + "=" == EVIDENCE + (KeyText(k) + "=");
    assert EVIDENCE + KeyText(l) + "=" == EVIDENCE + (KeyText(l) + "=");
    AfterPrefix(line, EVIDENCE, KeyText(k) + "=");
    AfterPrefix(line, EVIDENCE, KeyText(l) + "=");
    KeyCodes(k);
    KeyCodes(l);
    SameKey(line[|EVIDENCE|..], KeyText(k), KeyText(l));
    KeyTextInjective(k, l);
  }

  lemma EndStart(line: string)
    requires EndLine(line)
    ensures line[0] == 'o' && line[|EVIDENCE|..][0] == 'r' && line[|EVIDENCE|..][1] == 'a'
  {
    AfterPrefix(line, EVIDENCE, "raw_transcript_end");
    assert "raw_transcript_end"[0] == 'r' && "raw_transcript_end"[1] == 'a';
    assert line[0] == EVIDENCE[0];
  }

  lemma KeyStart(line: string, k: Key)
    requires KeyLine(line, k)
    ensures |line| > |EVIDENCE| + 2
    ensures line[0] == 'o' && !(line[|EVIDENCE|..][0] == 'r' && line[|EVIDENCE|..][1] == 'a')
  {
    var text := KeyText(k) + "=";
    assert EVIDENCE + KeyText(k) + "=" == EVIDENCE + text;
    AfterPrefix(line, EVIDENCE, text);
    KeyCodes(k);
    assert line[|EVIDENCE|..][0] == text[0] == KeyText(k)[0];
    assert line[|EVIDENCE|..][1] == text[1] == KeyText(k)[1];
    assert line[0] == EVIDENCE[0];
  }

  lemma KeyIsNotEnd(line: string, k: Key)
    requires KeyLine(line, k)
    ensures !EndLine(line)
  {
    KeyStart(line, k);
    if EndLine(line) {
      EndStart(line);
    }
  }

  lemma EvidenceIsNotSimDram(line: string)
    requires line != "" && line[0] == 'o'
    ensures !LoadingLine(line) && !LoadedLine(line)
  {
  }

  lemma LoadStart(line: string, tail: string)
    requires StartsWith(line, "SimDRAM load" + tail) && tail != ""
    ensures |line| > 12 && line[12] == tail[0]
  {
    assert ("SimDRAM load" + tail)[12] == tail[0];
  }

  lemma LoadingIsNotLoaded(line: string)
    requires LoadingLine(line)
    ensures !LoadedLine(line)
  {
    LoadStart(line, "ing ELF ");
    if LoadedLine(line) {
      LoadStart(line, "ed ELF entry=");
    }
  }

  lemma {:induction false} FirstKeySound(line: string, keys: seq<Key>)
    ensures FirstKey(line, keys).Some? ==> KeyLine(line, FirstKey(line, keys).value)
    ensures forall k :: k in keys && KeyLine(line, k) ==> FirstKey(line, keys).Some?
  {
    if keys != [] && !KeyLine(line, keys[0]) {
      FirstKeySound(line, keys[1..]);
    }
  }

  lemma FirstKeyMeans(line: string, keys: seq<Key>, k: Key)
    requires k in keys
    ensures FirstKey(line, keys) == Some(k) <==> KeyLine(line, k)
  {
    FirstKeySound(line, keys);
    if KeyLine(line, k) {
      OneKey(line, k, FirstKey(line, keys).value);
    }
  }

  lemma EveryKey(k: Key)
    ensures k in KEYS
  {
    match k {
      case Attempt => assert KEYS[0] == k;
      case CleanGenerated => assert KEYS[1] == k;
      case ExitCode => assert KEYS[2] == k;
      case Payload => assert KEYS[3] == k;
      case BinaryArg => assert KEYS[4] == k;
      case Command => assert KEYS[5] == k;
      case TimeoutAfter => assert KEYS[6] == k;
      case TimeoutCycles => assert KEYS[7] == k;
      case CoreTimeout => assert KEYS[8] == k;
      case TilelinkTimeout => assert KEYS[9] == k;
      case RunTarget => assert KEYS[10] == k;
    }
  }

  /** Each branch of the chain is taken exactly by the lines its own test describes: no earlier branch hides them. */
  lemma BranchMeans(line: string)
    ensures forall k :: BranchOf(line) == OnKey(k) <==> KeyLine(line, k)
    ensures BranchOf(line) == OnEnd <==> EndLine(line)
    ensures BranchOf(line) == OnLoading <==> LoadingLine(line)
    ensures BranchOf(line) == OnLoaded <==> LoadedLine(line)
  {
    forall k
      ensures FirstKey(line, KEYS) == Some(k) <==> KeyLine(line, k)
    {
      EveryKey(k);
      FirstKeyMeans(line, KEYS, k);
    }
    if FirstKey(line, KEYS).Some? {
      var k := FirstKey(line, KEYS).value;
      KeyStart(line, k);
      KeyIsNotEnd(line, k);
      EvidenceIsNotSimDram(line);
    } else if EndLine(line) {
      EndStart(line);
      EvidenceIsNotSimDram(line);
    } else if LoadingLine(line) {
      LoadingIsNotLoaded(line);
    }
  }

  lemma {:induction false} AfterEqualsSkips(a: string, rest: string)
    requires forall c :: c in a ==> c != '='
    ensures AfterEquals(a + ("=" + rest)) == rest
  {
    if a == "" {
      assert a + ("=" + rest) == "=" + rest;
      assert ("=" + rest)[1..] == rest;
    } else {
      assert a[0] in a;
      assert forall c :: c in a[1..] ==> c in a;
      assert (a + ("=" + rest))[1..] == a[1..] + ("=" + rest);
      AfterEqualsSkips(a[1..], rest);
    }
  }

  /** The value on a key line is what follows its prefix, later equals signs included. */
  lemma KeyValue(line: string, k: Key)
    requires KeyLine(line, k)
    ensures AfterEquals(line) == line[|EVIDENCE + KeyText(k) + "="|..]
  {
    var name := EVIDENCE + KeyText(k);
    KeyCodes(k);
    EvidenceHasNoEquals();
    assert forall c :: c in name ==> c in EVIDENCE || c in KeyText(k);
    SplitAtEquals(line, name);
  }

  lemma EvidenceHasNoEquals()
    ensures forall c :: c in EVIDENCE ==> c != '='
  {
  }

  lemma SplitAtEquals(line: string, name: string)
    requires StartsWith(line, name + "=") && forall c :: c in name ==> c != '='
    ensures AfterEquals(line) == line[|name + "="|..]
  {
    var rest := line[|name + "="|..];
    assert line == name + ("=" + rest);
    AfterEqualsSkips(name, rest);
  }

  // ---------- what a log says ----------

  function ValueOf(line: string, k: Key): string
    requires KeyLine(line, k)
  {
    Strip(line[|EVIDENCE + KeyText(k) + "="|..])
  }

  /** The value on the last line for a key. */
  function LastValue(lines: seq<string>, k: Key): Option<string> {
    if lines == [] then None
    else
      var last := lines[|lines| - 1];
      if KeyLine(last, k) then Some(ValueOf(last, k)) else LastValue(lines[..|lines| - 1], k)
  }

  function LastEntry(lines: seq<string>): Option<string> {
    if lines == [] then None
    else
      var last := lines[|lines| - 1];
      if LoadedLine(last) then Some(Strip(last[|ENTRY_MARKER|..])) else LastEntry(lines[..|lines| - 1])
  }

  function LastRange(lines: seq<string>): Option<string> {
    if lines == [] then None
    else
      var last := lines[|lines| - 1];
      if LoadingLine(last) && Contains(last, RANGE_MARKER) then Some(Strip(AfterLast(last, RANGE_MARKER)))
      else LastRange(lines[..|lines| - 1])
  }

  /** Lines that count as progress: a mention of progress is overlooked on the evidence lines of other kinds. */
  predicate IsProgress(line: string) {
    var b := BranchOf(line);
    b == OnKey(Command) || b == OnKey(TimeoutAfter) || b.OnLoading? || b.OnLoaded? || b.OnMarker?
  }

  function LastProgress(lines: seq<string>): string {
    if lines == [] then ""
    else
      var last := lines[|lines| - 1];
      if IsProgress(last) then last else LastProgress(lines[..|lines| - 1])
  }

  predicate Ended(lines: seq<string>) {
    exists l :: l in lines && EndLine(l)
  }

  /** Lines that count against the wrapper once the transcript has ended. */
  function NoiseCount(lines: seq<string>): nat {
    if lines == [] then 0 else NoiseCount(lines[..|lines| - 1]) + if Noise(lines[|lines| - 1]) then 1 else 0
  }

  function FirstEnd(lines: seq<string>): (i: nat)
    requires Ended(lines)
    ensures i < |lines| && EndLine(lines[i])
    ensures forall j :: 0 <= j < i ==> !EndLine(lines[j])
  {
    if EndLine(lines[0]) then 0 else 1 + FirstEnd(lines[1..])
  }

  /** The noisy lines after the first end line. */
  function TrailingCount(lines: seq<string>): nat {
    if Ended(lines) then NoiseCount(lines[FirstEnd(lines) + 1..]) else 0
  }

  datatype Alarm = Fatal | Exception | SimFailure

  predicate Raises(line: string, a: Alarm) {
    match a
    case Fatal => IsFatal(line)
    case Exception => IsException(line)
    case SimFailure => IsSimFailure(line)
  }

  /** The alarms of a kind, stripped, in order. */
  function Alarms(lines: seq<string>, a: Alarm): seq<string> {
    if lines == [] then []
    else
      var last := lines[|lines| - 1];
      Alarms(lines[..|lines| - 1], a) + if Raises(last, a) then [Strip(last)] else []
  }

  lemma EndedSnoc(lines: seq<string>, line: string)
    ensures Ended(lines + [line]) <==> Ended(lines) || EndLine(line)
  {
    assert forall l :: l in lines + [line] <==> l in lines || l == line;
    assert line in lines + [line];
  }

  lemma FirstEndUnique(lines: seq<string>, i: nat)
    requires i < |lines| && EndLine(lines[i]) && forall j :: 0 <= j < i ==> !EndLine(lines[j])
    ensures Ended(lines) && FirstEnd(lines) == i
  {
    assert lines[i] in lines;
    var f := FirstEnd(lines);
    assert f >= i && !(i < f);
  }

  lemma TrailingSnoc(lines: seq<string>, line: string)
    ensures TrailingCount(lines + [line]) == TrailingCount(lines) + if Ended(lines) && Noise(line) then 1 else 0
  {
    var all := lines + [line];
    EndedSnoc(lines, line);
    if Ended(lines) {
      var f := FirstEnd(lines);
      FirstEndUnique(all, f);
      assert all[f + 1..] == lines[f + 1..] + [line];
      assert (lines[f + 1..] + [line])[..|lines[f + 1..]|] == lines[f + 1..];
    } else if EndLine(line) {
      forall j | 0 <= j < |lines|
        ensures !EndLine(all[j])
      {
        assert lines[j] in lines;
      }
      FirstEndUnique(all, |lines|);
      assert all[|lines| + 1..] == [];
    }
  }

  /** What one more line changes. */
  lemma Snoc(lines: seq<string>, line: string)
    ensures forall k :: LastValue(lines + [line], k) == if KeyLine(line, k) then Some(ValueOf(line, k)) else LastValue(lines, k)
    ensures LastEntry(lines + [line]) == if LoadedLine(line) then Some(Strip(line[|ENTRY_MARKER|..])) else LastEntry(lines)
    ensures LastRange(lines + [line]) ==
            if LoadingLine(line) && Contains(line, RANGE_MARKER) then Some(Strip(AfterLast(line, RANGE_MARKER))) else LastRange(lines)
    ensures LastProgress(lines + [line]) == if IsProgress(line) then line else LastProgress(lines)
    ensures forall a :: Alarms(lines + [line], a) == Alarms(lines, a) + if Raises(line, a) then [Strip(line)] else []
  {
    hide IsProgress, KeyLine, LoadedLine, LoadingLine, Raises, Contains, ValueOf;
    assert (lines + [line])[..|lines|] == lines;
  }

  // ---------- the streaming parser ----------

  /** The metadata dictionary of `parse_log_metadata`, with the loop's own flags among its fields. */
  class LogMetadata {
    var values: map<Key, string>
    var closed: bool
    var trailing: nat
    var fatalErrors: seq<string>
    var exceptions: seq<string>
    var simFailures: seq<string>
    var entry: Option<string>
    var loadRange: Option<string>
    var lastProgress: string

    /** The fields say of these lines what the declarative functions say. */
    ghost predicate Describes(lines: seq<string>)
      reads this
    {
      && (forall k :: (if k in values then Some(values[k]) else None) == LastValue(lines, k))
      && closed == Ended(lines)
      && trailing == TrailingCount(lines)
      && fatalErrors == Alarms(lines, Fatal)
      && exceptions == Alarms(lines, Exception)
      && simFailures == Alarms(lines, SimFailure)
      && entry == LastEntry(lines)
      && loadRange == LastRange(lines)
      && lastProgress == LastProgress(lines)
    }

    constructor ()
      ensures Describes([])
    {
      values, closed, trailing := map[], false, 0;
      fatalErrors, exceptions, simFailures := [], [], [];
      entry, loadRange, lastProgress := None, None, "";
    }

    /** The part of the loop body that counts lines after the end. */
    method CountTrailing(line: string, ghost lines: seq<string>)
      requires closed == Ended(lines) && trailing == TrailingCount(lines)
      modifies this`trailing
      ensures trailing == TrailingCount(lines + [line])
    {
      TrailingSnoc(lines, line);
      if closed && Noise(line) {
        trailing := trailing + 1;
      }
    }

    /** The `elif` chain. */
    method TakeBranch(line: string)
      modifies this`values, this`closed, this`entry, this`loadRange, this`lastProgress
      ensures var b := BranchOf(line);
              && values == (if b.OnKey? then old(values)[b.key := Strip(AfterEquals(line))] else old(values))
              && closed == (old(closed) || b.OnEnd?)
              && entry == (if b.OnLoaded? then Some(Strip(AfterEquals(line))) else old(entry))
              && loadRange == (if b.OnLoading? && Contains(line, RANGE_MARKER) then Some(Strip(AfterLast(line, RANGE_MARKER)))
                               else old(loadRange))
              && lastProgress == (if IsProgress(line) then line else old(lastProgress))
    {
      match BranchOf(line) {
        case OnKey(k) =>
          values := values[k := Strip(AfterEquals(line))];
          if k == Command || k == TimeoutAfter {
            lastProgress := line;
          }
        case OnEnd =>
          closed := true;
        case OnLoading =>
          if Contains(line, RANGE_MARKER) {
            loadRange := Some(Strip(AfterLast(line, RANGE_MARKER)));
          }
          lastProgress := line;
        case OnLoaded =>
          entry := Some(Strip(AfterEquals(line)));
          lastProgress := line;
        case OnMarker =>
          lastProgress := line;
        case OnNothing =>
      }
    }

    method RaiseAlarms(line: string)
      modifies this`fatalErrors, this`exceptions, this`simFailures
      ensures fatalErrors == old(fatalErrors) + if IsFatal(line) then [Strip(line)] else []
      ensures exceptions == old(exceptions) + if IsException(line) then [Strip(line)] else []
      ensures simFailures == old(simFailures) + if IsSimFailure(line) then [Strip(line)] else []
    {
      if IsFatal(line) {
        fatalErrors := fatalErrors + [Strip(line)];
      }
      if IsException(line) {
        exceptions := exceptions + [Strip(line)];
      }
      if IsSimFailure(line) {
        simFailures := simFailures + [Strip(line)];
      }
    }

    /** One turn of the loop. */
    method Feed(line: string, ghost lines: seq<string>)
      requires Describes(lines)
      modifies this
      ensures Describes(lines + [line])
    {
      hide LastValue, LastEntry, LastRange, LastProgress, Alarms, Ended, TrailingCount, BranchOf, Contains, KeyLine, EndLine,
        LoadingLine, LoadedLine, IsProgress, IsFatal, IsException, IsSimFailure, Strip, AfterEquals, AfterLast, ValueOf;
      CountTrailing(line, lines);
      TakeBranch(line);
      RaiseAlarms(line);
      Snoc(lines, line);
      EndedSnoc(lines, line);
      BranchMeans(line);
      BranchValues(line);
    }
  }

  /** The value that the chain cuts out after the first equals sign is the one after the prefix. */
  lemma BranchValues(line: string)
    ensures forall k :: KeyLine(line, k) ==> Strip(AfterEquals(line)) == ValueOf(line, k)
    ensures LoadedLine(line) ==> AfterEquals(line) == line[|ENTRY_MARKER|..]
  {
    forall k | KeyLine(line, k)
      ensures Strip(AfterEquals(line)) == ValueOf(line, k)
    {
      KeyValue(line, k);
    }
    if LoadedLine(line) {
      var name := "SimDRAM load" + "ed ELF entry";
      assert ENTRY_MARKER == name + "=";
      assert forall c :: c in name ==> c in "SimDRAM load" || c in "ed ELF entry";
      SplitAtEquals(line, name);
    }
  }

  /** `parse_log_metadata` over the lines of an existing log: the streaming parser equals its specification. */
  method ParseLog(lines: seq<string>) returns (m: LogMetadata)
    ensures fresh(m) && m.Describes(lines)
  {
    hide *;
    m := new LogMetadata();
    assert lines[..0] == [];
    for i := 0 to |lines|
      invariant fresh(m) && m.Describes(lines[..i])
    {
      m.Feed(lines[i], lines[..i]);
      assert lines[..i + 1] == lines[..i] + [lines[i]];
    }
    assert lines[..|lines|] == lines;
  }

  // ---------- composition ----------

  /** Over concatenated logs the last value wins. */
  lemma {:induction false} LastValueAppend(a: seq<string>, b: seq<string>, k: Key)
    ensures LastValue(a + b, k) == if LastValue(b, k).Some? then LastValue(b, k) else LastValue(a, k)
  {
    if b == [] {
      assert a + b == a;
    } else {
      assert (a + b)[..|a + b| - 1] == a + b[..|b| - 1];
      LastValueAppend(a, b[..|b| - 1], k);
    }
  }

  lemma {:induction false} LastEntryAppend(a: seq<string>, b: seq<string>)
    ensures LastEntry(a + b) == if LastEntry(b).Some? then LastEntry(b) else LastEntry(a)
  {
    if b == [] {
      assert a + b == a;
    } else {
      assert (a + b)[..|a + b| - 1] == a + b[..|b| - 1];
      LastEntryAppend(a, b[..|b| - 1]);
    }
  }

  lemma {:induction false} LastRangeAppend(a: seq<string>, b: seq<string>)
    ensures LastRange(a + b) == if LastRange(b).Some? then LastRange(b) else LastRange(a)
  {
    if b == [] {
      assert a + b == a;
    } else {
      assert (a + b)[..|a + b| - 1] == a + b[..|b| - 1];
      LastRangeAppend(a, b[..|b| - 1]);
    }
  }

  /** A progress line is never empty, so an empty last progress means that there was none. */
  lemma ProgressIsVisible(line: string)
    requires IsProgress(line)
    ensures line != ""
  {
    BranchMeans(line);
    var b := BranchOf(line);
    if b.OnKey? {
      assert KeyLine(line, b.key);
    } else if b.OnMarker? {
      assert MentionsProgress(line);
    }
  }

  /** Over concatenated logs the later progress wins. */
  lemma {:induction false} LastProgressAppend(a: seq<string>, b: seq<string>)
    ensures LastProgress(a + b) == if LastProgress(b) != "" then LastProgress(b) else LastProgress(a)
  {
    hide IsProgress;
    if b == [] {
      assert a + b == a;
    } else {
      var last := b[|b| - 1];
      assert (a + b)[..|a + b| - 1] == a + b[..|b| - 1];
      LastProgressAppend(a, b[..|b| - 1]);
      if IsProgress(last) {
        ProgressIsVisible(last);
      }
    }
  }

  /** Alarm lists only grow, by a suffix. */
  lemma {:induction false} AlarmsAppend(a: seq<string>, b: seq<string>, kind: Alarm)
    ensures Alarms(a + b, kind) == Alarms(a, kind) + Alarms(b, kind)
  {
    if b == [] {
      assert a + b == a;
    } else {
      assert (a + b)[..|a + b| - 1] == a + b[..|b| - 1];
      AlarmsAppend(a, b[..|b| - 1], kind);
    }
  }

  /** After an end line every further noisy line counts; before one, only those after the next. */
  lemma {:induction false} TrailingAppend(a: seq<string>, b: seq<string>)
    ensures Ended(a + b) <==> Ended(a) || Ended(b)
    ensures TrailingCount(a + b) == if Ended(a) then TrailingCount(a) + NoiseCount(b) else TrailingCount(b)
  {
    if b == [] {
      assert a + b == a;
    } else {
      var init, last := b[..|b| - 1], b[|b| - 1];
      assert a + b == (a + init) + [last] && b == init + [last];
      TrailingAppend(a, init);
      TrailingSnoc(a + init, last);
      TrailingSnoc(init, last);
      EndedSnoc(a + init, last);
      EndedSnoc(init, last);
    }
  }

  /** A wrapper exit line is never itself the last progress, although its prefix is a progress marker. */
  lemma ExitLineIsNotProgress(line: string)
    requires KeyLine(line, ExitCode)
    ensures MentionsProgress(line) && !IsProgress(line)
  {
    BranchMeans(line);
    var marker := EVIDENCE + "exit_code=";
    assert EVIDENCE + KeyText(ExitCode) + "=" == marker;
    assert OccursAt(line, marker, 0);
  }

  // ---------- the instruction trace ----------

  /** A trace line that the pattern matches. */
  datatype TraceEntry = TraceEntry(valid: bool, cycle: nat, pc: nat)

  /** The retired instructions: matched lines marked valid. */
  function Retired(lines: seq<Option<TraceEntry>>): seq<TraceEntry> {
    if lines == [] then []
    else
      var last := lines[|lines| - 1];
      Retired(lines[..|lines| - 1]) + if last.Some? && last.value.valid then [last.value] else []
  }

  predicate InBootrom(e: TraceEntry) {
    0x10000 <= e.pc < 0x20000
  }

  predicate InPayload(e: TraceEntry) {
    e.pc >= 0x80000000
  }

  predicate Handoff(retired: seq<TraceEntry>) {
    (exists e :: e in retired && InBootrom(e)) && exists e :: e in retired && InPayload(e)
  }

  datatype TraceSummary = TraceSummary(firstPc: Option<nat>, lastPc: Option<nat>, lastCycle: Option<nat>, count: nat, handoff: bool)

  /** `parse_instruction_trace`: one pass that never keeps the entries. */
  method ParseTrace(lines: seq<Option<TraceEntry>>) returns (r: TraceSummary)
    ensures var retired := Retired(lines);
            r == if retired == [] then TraceSummary(None, None, None, 0, false)
                 else TraceSummary(Some(retired[0].pc), Some(retired[|retired| - 1].pc), Some(retired[|retired| - 1].cycle),
                                   |retired|, Handoff(retired))
  {
    var firstPc: Option<nat>, lastPc: Option<nat>, lastCycle: Option<nat> := None, None, None;
    var count, bootrom, payload := 0, false, false;
    for i := 0 to |lines|
      invariant var retired := Retired(lines[..i]);
                && count == |retired|
                && firstPc == (if retired == [] then None else Some(retired[0].pc))
                && lastPc == (if retired == [] then None else Some(retired[|retired| - 1].pc))
                && lastCycle == (if retired == [] then None else Some(retired[|retired| - 1].cycle))
                && (bootrom <==> exists e :: e in retired && InBootrom(e))
                && (payload <==> exists e :: e in retired && InPayload(e))
    {
      assert lines[..i + 1][..i] == lines[..i];
      if lines[i].Some? && lines[i].value.valid {
        var e := lines[i].value;
        assert e in Retired(lines[..i + 1]);
        if firstPc.None? {
          firstPc := Some(e.pc);
        }
        lastPc, lastCycle, count := Some(e.pc), Some(e.cycle), count + 1;
        if InBootrom(e) {
          bootrom := true;
        }
        if InPayload(e) {
          payload := true;
        }
      }
    }
    assert lines[..|lines|] == lines;
    r := TraceSummary(firstPc, lastPc, lastCycle, count, bootrom && payload);
  }

  /** What the flag is meant to show: the payload ran after the boot ROM. */
  ghost predicate Ordered(retired: seq<TraceEntry>) {
    exists i, j :: 0 <= i < j < |retired| && InBootrom(retired[i]) && InPayload(retired[j])
  }

  /**
   When the flag can be trusted, judged by the first program counter that the summary reports: the
   flag implies the intended order for every trace with this first entry if and only if that entry
   is in the boot ROM.
   */
  lemma HandoffTrustedIff(first: TraceEntry)
    ensures (forall rest :: Handoff([first] + rest) ==> Ordered([first] + rest)) <==> InBootrom(first)
  {
    if InBootrom(first) {
      forall rest | Handoff([first] + rest)
        ensures Ordered([first] + rest)
      {
        FirstOrders([first] + rest);
      }
    } else {
      var payload, boot := TraceEntry(true, 0, 0x80000000), TraceEntry(true, 1, 0x10000);
      Backwards(first, payload, boot);
    }
  }

  lemma FirstOrders(s: seq<TraceEntry>)
    requires s != [] && InBootrom(s[0]) && Handoff(s)
    ensures Ordered(s)
  {
    var f :| f in s && InPayload(f);
    var j :| 0 <= j < |s| && s[j] == f;
    assert 0 < j && InBootrom(s[0]) && InPayload(s[j]);
  }

  lemma Backwards(first: TraceEntry, payload: TraceEntry, boot: TraceEntry)
    requires !InBootrom(first) && InPayload(payload) && InBootrom(boot)
    ensures var s := [first] + [payload, boot]; Handoff(s) && !Ordered(s)
  {
    var s := [first] + [payload, boot];
    assert s[0] == first && s[1] == payload && s[2] == boot;
    assert payload in s && boot in s;
  }

  /** Conversely an ordered trace always sets the flag. */
  lemma OrderedSetsFlag(retired: seq<TraceEntry>)
    requires Ordered(retired)
    ensures Handoff(retired)
  {
    var i, j :| 0 <= i < j < |retired| && InBootrom(retired[i]) && InPayload(retired[j]);
    assert retired[i] in retired && retired[j] in retired;
  }

  /** The handoff flag does not look at order: a payload that ran before the boot ROM sets it as well. */
  lemma HandoffIgnoresOrder(a: seq<TraceEntry>, b: seq<TraceEntry>)
    ensures Handoff(a + b) <==> Handoff(b + a)
    ensures Handoff([TraceEntry(true, 0, 0x80000000), TraceEntry(true, 1, 0x10000)])
  {
    assert forall e :: e in a + b <==> e in b + a;
    var early, late := TraceEntry(true, 0, 0x80000000), TraceEntry(true, 1, 0x10000);
    assert early in [early, late] && late in [early, late];
    if Handoff(a + b) {
      var e :| e in a + b && InBootrom(e);
      var f :| f in a + b && InPayload(f);
      assert e in b + a && f in b + a;
    }
    if Handoff(b + a) {
      var e :| e in b + a && InBootrom(e);
      var f :| f in b + a && InPayload(f);
      assert e in a + b && f in a + b;
    }
  }
}
