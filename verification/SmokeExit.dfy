/** What a passing smoke gate says about the exit code of the simulator wrapper. */
module SmokeExit {
  import opened Json
  import opened Text
  import opened SmokeLog
  import opened SmokeGate

  /**
   A passing log records a zero exit exactly when it records one at all and its last value is not
   empty: a missing exit line and an empty value both pass.
   */
  lemma PassExit(environment: seq<string>, log: Option<string>, trace: TraceState)
    requires Passes(environment, log, trace)
    ensures log.Some?
    ensures var exit := LastValue(SplitLines(log.value), ExitCode);
            && (exit == Some("0") <==> exit.Some? && exit.value != "")
            && (exit == None || exit == Some("") || exit == Some("0"))
  {
    PassMeans(environment, log, trace);
  }

  // ---------- logs that pass ----------

  /** A line with everything the gate looks for. */
  const BOOTED := "OpenSBI " + "SBI specification " + "Linux version " + "initramfs"
  const EMPTY_EXIT := EVIDENCE + "exit_code" + "="

  predicate Lacks(s: string, c: char) {
    forall x :: x in s ==> x != c
  }

  lemma LacksAppend(a: string, b: string, c: char)
    ensures Lacks(a + b, c) <==> Lacks(a, c) && Lacks(b, c)
  {
    assert forall x :: x in a + b <==> x in a || x in b;
  }

  /** Text without a character contains no marker that has it. */
  lemma NoMarker(s: string, m: string, i: nat)
    requires i < |m| && Lacks(s, m[i])
    ensures !Contains(s, m)
  {
    forall k | 0 <= k <= |s|
      ensures !OccursAt(s, m, k)
    {
      if 0 <= k <= |s| - |m| {
        assert s[k + i] in s;
        assert s[k..k + |m|][i] == s[k + i];
      }
    }
  }

  /** A text with none of these characters has no marker of an alarm or a transcript. */
  predicate Quiet(s: string) {
    Lacks(s, 'E') && Lacks(s, 'C') && Lacks(s, '*') && Lacks(s, 'l') && Lacks(s, 'w')
  }

  lemma QuietAppend(a: string, b: string)
    ensures Quiet(a + b) <==> Quiet(a) && Quiet(b)
  {
    LacksAppend(a, b, 'E');
    LacksAppend(a, b, 'C');
    LacksAppend(a, b, '*');
    LacksAppend(a, b, 'l');
    LacksAppend(a, b, 'w');
  }

  lemma {:induction false} LStripPart(s: string)
    ensures forall c :: c in LStrip(s) ==> c in s
  {
    if s != "" && IsSpace(s[0]) {
      LStripPart(s[1..]);
      assert s == [s[0]] + s[1..];
    }
  }

  lemma FirstOfStrip(s: string)
    ensures Strip(s) != "" ==> Strip(s)[0] in s
  {
    LStripPart(s);
  }

  lemma QuietLine(line: string)
    requires Quiet(line)
    ensures !IsFatal(line) && !IsException(line) && !IsSimFailure(line) && !EndLine(line)
  {
    NoMarker(line, "fatal error:", 4);
    NoMarker(line, "Exception in thread", 0);
    NoMarker(line, "NoSuchFileException", 8);
    NoMarker(line, "*** FAILED ***", 0);
    FirstOfStrip(line);
    if EndLine(line) {
      EndHasRaw(line);
    }
  }

  lemma EndHasRaw(line: string)
    requires EndLine(line)
    ensures !Lacks(line, 'w')
  {
    var p := EVIDENCE + "raw_transcript_end";
    assert p[|EVIDENCE| + 2] == 'w' && line[|EVIDENCE| + 2] == p[|EVIDENCE| + 2];
    assert line[|EVIDENCE| + 2] in line;
  }

  lemma {:induction false} QuietAlarms(lines: seq<string>, a: Alarm)
    requires forall i :: 0 <= i < |lines| ==> Quiet(lines[i])
    ensures Alarms(lines, a) == []
  {
    if lines != [] {
      QuietLine(lines[|lines| - 1]);
      QuietAlarms(lines[..|lines| - 1], a);
    }
  }

  lemma {:induction false} QuietLines(lines: seq<string>)
    requires forall i :: 0 <= i < |lines| ==> Quiet(lines[i])
    ensures Quiet(Unlines(lines))
  {
    if lines != [] {
      QuietLines(lines[1..]);
      QuietAppend(lines[0], "\n");
      QuietAppend(lines[0] + "\n", Unlines(lines[1..]));
    }
  }

  lemma BeginHasRaw()
    ensures |EVIDENCE| + 2 < |BEGIN_MARKER| && BEGIN_MARKER[|EVIDENCE| + 2] == 'w'
  {
  }

  /** A quiet log that boots, whatever else it says, passes if its exit does not fail. */
  lemma QuietLogPasses(lines: seq<string>, trace: TraceState)
    requires AreLines(lines) && forall i :: 0 <= i < |lines| ==> Quiet(lines[i])
    requires AcceptedOpenSbi(Unlines(lines)) && AcceptedLinux(Unlines(lines))
    requires !Failed(LastValue(lines, ExitCode)) && (trace.found ==> trace.current)
    ensures Passes([], Some(Unlines(lines)), trace) && SplitLines(Unlines(lines)) == lines
  {
    hide Unlines, SplitLines, AcceptedOpenSbi, AcceptedLinux, Alarms, LastValue, Contains, NoiseCount, FirstEnd, EndLine, AreLines, Passes;
    SplitUnlines(lines);
    QuietLines(lines);
    BeginHasRaw();
    NoMarker(Unlines(lines), BEGIN_MARKER, |EVIDENCE| + 2);
    QuietAlarms(lines, Fatal);
    QuietAlarms(lines, Exception);
    QuietAlarms(lines, SimFailure);
    forall l | l in lines
      ensures !EndLine(l)
    {
      var i :| 0 <= i < |lines| && lines[i] == l;
      QuietLine(l);
    }
    PassMeans([], Some(Unlines(lines)), trace);
  }

  lemma PartsContained(p: string, q: string, r: string, s: string, tail: string, a: string, b: string, c: string, d: string)
    requires Contains(p, a) && Contains(q, b) && Contains(r, c) && Contains(s, d)
    ensures var text := p + q + r + s + tail; Contains(text, a) && Contains(text, b) && Contains(text, c) && Contains(text, d)
  {
    hide Contains;
    ContainsGrows(p, "", q + r + s + tail, a);
    ContainsGrows(q, p, r + s + tail, b);
    ContainsGrows(r, p + q, s + tail, c);
    ContainsGrows(s, p + q + r, tail, d);
    assert p + q + r + s + tail == "" + p + (q + r + s + tail);
    assert p + q + r + s + tail == p + q + (r + s + tail);
    assert p + q + r + s + tail == p + q + r + (s + tail);
  }

  lemma PiecesContain()
    ensures Contains("OpenSBI ", "OpenSBI") && Contains("SBI specification ", "SBI specification")
    ensures Contains("Linux version ", "Linux version") && Contains("initramfs", "initramfs")
  {
    assert OccursAt("OpenSBI ", "OpenSBI", 0);
    assert OccursAt("SBI specification ", "SBI specification", 0);
    assert OccursAt("Linux version ", "Linux version", 0);
    assert OccursAt("initramfs", "initramfs", 0);
  }

  lemma BootedIsAccepted(tail: string)
    ensures AcceptedOpenSbi(BOOTED + tail) && AcceptedLinux(BOOTED + tail)
  {
    hide Contains;
    PiecesContain();
    PartsContained("OpenSBI ", "SBI specification ", "Linux version ", "initramfs", tail,
                   "OpenSBI", "SBI specification", "Linux version", "initramfs");
    assert OPENSBI_ACCEPTANCE[0] in OPENSBI_ACCEPTANCE && LINUX_ACCEPTANCE[3] in LINUX_ACCEPTANCE;
  }

  /** Quiet and within one line. */
  predicate Plain(s: string) {
    Quiet(s) && NoBreaks(s)
  }

  lemma PlainAppend(a: string, b: string)
    requires Plain(a) && Plain(b)
    ensures Plain(a + b)
  {
    QuietAppend(a, b);
  }

  lemma PlainBanner()
    ensures Plain("OpenSBI ")
  {
  }

  lemma PlainSpecification()
    ensures Plain("SBI specification ")
  {
  }

  lemma PlainKernel()
    ensures Plain("Linux version ")
  {
  }

  lemma PlainRamdisk()
    ensures Plain("initramfs")
  {
  }

  lemma PlainEvidence()
    ensures Plain("openagent-evidence: ")
  {
  }

  lemma PlainExitKey()
    ensures Plain("exit_code") && Plain("=")
  {
  }

  lemma BootedIsPlain()
    ensures Plain(BOOTED)
  {
    hide Plain;
    PlainBanner();
    PlainSpecification();
    PlainKernel();
    PlainRamdisk();
    PlainAppend("OpenSBI ", "SBI specification ");
    PlainAppend("OpenSBI " + "SBI specification ", "Linux version ");
    PlainAppend("OpenSBI " + "SBI specification " + "Linux version ", "initramfs");
  }

  lemma ExitIsPlain()
    ensures Plain(EMPTY_EXIT)
    ensures KeyLine(EMPTY_EXIT, ExitCode) && ValueOf(EMPTY_EXIT, ExitCode) == ""
  {
    hide Plain;
    PlainEvidence();
    PlainExitKey();
    PlainAppend(EVIDENCE, "exit_code");
    PlainAppend(EVIDENCE + "exit_code", "=");
    assert KeyText(ExitCode) == "exit_code";
    assert EMPTY_EXIT[|EMPTY_EXIT|..] == "";
  }

  /** A log without any exit line passes. */
  lemma PassesWithoutExit(trace: TraceState)
    requires trace.found ==> trace.current
    ensures var log := Unlines([BOOTED]);
            Passes([], Some(log), trace) && LastValue(SplitLines(log), ExitCode) == None
  {
    BootedIsPlain();
    assert Unlines([BOOTED]) == BOOTED + "\n" by {
      assert [BOOTED][1..] == [];
    }
    BootedIsAccepted("\n");
    assert BOOTED[0] == 'O' && EVIDENCE[0] == 'o';
    assert [BOOTED][..0] == [];
    QuietLogPasses([BOOTED], trace);
  }

  /** A log whose exit line records nothing passes. */
  lemma PassesWithEmptyExit(trace: TraceState)
    requires trace.found ==> trace.current
    ensures var log := Unlines([BOOTED, EMPTY_EXIT]);
            Passes([], Some(log), trace) && LastValue(SplitLines(log), ExitCode) == Some("")
  {
    BootedIsPlain();
    ExitIsPlain();
    var lines := [BOOTED, EMPTY_EXIT];
    assert lines[1..] == [EMPTY_EXIT];
    var tail := "\n" + Unlines([EMPTY_EXIT]);
    assert Unlines(lines) == BOOTED + tail;
    BootedIsAccepted(tail);
    QuietLogPasses(lines, trace);
  }
}
