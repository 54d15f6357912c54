/** What stripping, line splitting and splitting at the last marker make of a text. */
module TextLaws {
  import opened Json
  import opened Text
  import L = SmokeLog

  // ---------- strip ----------

  /** `t` is `s` without the whitespace around it. */
  ghost predicate Trimmed(s: string, t: string) {
    && (t != "" ==> !IsSpace(t[0]) && !IsSpace(t[|t| - 1]))
    && exists a, b :: Blank(a) && Blank(b) && s == a + t + b
  }

  lemma BlankAppend(a: string, b: string)
    ensures Blank(a + b) <==> Blank(a) && Blank(b)
  {
    assert forall c :: c in a + b <==> c in a || c in b;
  }

  lemma {:induction false} LStripPart(s: string) returns (a: string)
    ensures Blank(a) && s == a + LStrip(s)
  {
    a := "";
    if s != "" && IsSpace(s[0]) {
      var rest := LStripPart(s[1..]);
      a := [s[0]] + rest;
      BlankAppend([s[0]], rest);
    }
  }

  lemma {:induction false} RStripPart(s: string) returns (b: string)
    ensures Blank(b) && s == RStrip(s) + b
  {
    b := "";
    if s != "" && IsSpace(s[|s| - 1]) {
      var rest := RStripPart(s[..|s| - 1]);
      b := rest + [s[|s| - 1]];
      BlankAppend(rest, [s[|s| - 1]]);
    }
  }

  lemma {:induction false} LStripOf(a: string, t: string)
    requires Blank(a) && (t != "" ==> !IsSpace(t[0]))
    ensures LStrip(a + t) == t
  {
    if a == "" {
      assert a + t == t;
    } else {
      assert a[0] in a && a == [a[0]] + a[1..];
      assert (a + t)[1..] == a[1..] + t;
      BlankAppend([a[0]], a[1..]);
      LStripOf(a[1..], t);
    }
  }

  lemma {:induction false} RStripOf(t: string, b: string)
    requires Blank(b) && (t != "" ==> !IsSpace(t[|t| - 1]))
    ensures RStrip(t + b) == t
  {
    if b == "" {
      assert t + b == t;
    } else {
      var n := |b| - 1;
      assert b[n] in b && b == b[..n] + [b[n]];
      assert (t + b)[..|t + b| - 1] == t + b[..n];
      BlankAppend(b[..n], [b[n]]);
      RStripOf(t, b[..n]);
    }
  }

  /** `strip` removes the whitespace around a text, all of it and nothing else. */
  lemma StripIff(s: string, t: string)
    ensures Strip(s) == t <==> Trimmed(s, t)
  {
    var a := LStripPart(s);
    var b := RStripPart(LStrip(s));
    assert s == a + Strip(s) + b;
    assert Strip(s) != "" ==> Strip(s)[0] == LStrip(s)[0];
    if Trimmed(s, t) {
      var c, d :| Blank(c) && Blank(d) && s == c + t + d;
      if t == "" {
        BlankAppend(c, d);
        assert s == c + d;
        StripEmptyIffBlank(s);
      } else {
        assert s == c + (t + d);
        LStripOf(c, t + d);
        RStripOf(t, d);
      }
    }
  }

  // ---------- splitlines ----------

  /** A break ends a line: a newline after a carriage return belongs to it. */
  predicate BreakBefore(b: string, rest: string) {
    || b == "\r\n"
    || (|b| == 1 && IsBreak(b[0]) && !(b == "\r" && rest != "" && rest[0] == '\n'))
  }

  lemma {:induction false} FirstBreak(line: string, after: string)
    requires NoBreaks(line) && (after != "" ==> IsBreak(after[0]))
    ensures LineLength(line + after) == |line|
  {
    if line != "" {
      assert (line + after)[1..] == line[1..] + after;
      FirstBreak(line[1..], after);
    }
  }

  /** `splitlines` takes a text apart at its breaks: these three cases are all there are. */
  lemma SplitLinesLaws(line: string, b: string, rest: string)
    requires NoBreaks(line)
    ensures SplitLines("") == []
    ensures line != "" ==> SplitLines(line) == [line]
    ensures BreakBefore(b, rest) ==> SplitLines(line + b + rest) == [line] + SplitLines(rest)
  {
    assert line + "" == line;
    FirstBreak(line, "");
    if BreakBefore(b, rest) {
      var t := line + b + rest;
      assert t == line + (b + rest);
      FirstBreak(line, b + rest);
      assert t[..|line|] == line && t[|line| + |b|..] == rest;
      assert BreakLength(t, |line|) == |b|;
    }
  }

  /** Every text is one of the three cases. */
  lemma SplitLinesCases(t: string) returns (line: string, b: string, rest: string)
    requires t != ""
    ensures NoBreaks(line) && (t == line || (t == line + b + rest && BreakBefore(b, rest)))
  {
    var n := LineLength(t);
    line, b, rest := t[..n], "", "";
    if n < |t| {
      var m := BreakLength(t, n);
      b, rest := t[n..n + m], t[n + m..];
      if m == 2 {
        assert b == "\r\n";
      }
    }
  }

  // ---------- the last marker ----------

  /** `rsplit`: what follows the last occurrence of a marker. */
  lemma {:induction false} AfterLastIs(line: string, marker: string) returns (k: nat)
    requires marker != "" && Contains(line, marker)
    ensures OccursAt(line, marker, k) && forall i :: OccursAt(line, marker, i) ==> i <= k
    ensures L.AfterLast(line, marker) == line[k + |marker|..]
  {
    var i :| 0 <= i <= |line| && OccursAt(line, marker, i);
    if EndsWith(line, marker) {
      k := |line| - |marker|;
    } else {
      forall j
        ensures OccursAt(line, marker, j) <==> OccursAt(line[..|line| - 1], marker, j)
      {
        OccursInInit(line, marker, j);
      }
      assert OccursAt(line[..|line| - 1], marker, i);
      hide OccursAt, EndsWith;
      k := AfterLastIs(line[..|line| - 1], marker);
      InitTail(line, marker, k);
    }
  }

  lemma OccursInInit(line: string, marker: string, j: int)
    requires marker != "" && line != "" && !EndsWith(line, marker)
    ensures OccursAt(line, marker, j) <==> OccursAt(line[..|line| - 1], marker, j)
  {
    if 0 <= j <= |line| - 1 - |marker| {
      assert line[..|line| - 1][j..j + |marker|] == line[j..j + |marker|];
    }
  }

  lemma InitTail(line: string, marker: string, k: nat)
    requires line != "" && OccursAt(line[..|line| - 1], marker, k)
    ensures k + |marker| <= |line| - 1
    ensures line[..|line| - 1][k + |marker|..] + [line[|line| - 1]] == line[k + |marker|..]
  {
  }
}
