/** Python string operations the scripts rely on. */
module Text {

  predicate StartsWith(s: string, prefix: string) {
    prefix <= s
  }

  predicate EndsWith(s: string, suffix: string) {
    |suffix| <= |s| && s[|s| - |suffix|..] == suffix
  }

  predicate OccursAt(s: string, sub: string, i: int) {
    0 <= i <= |s| - |sub| && s[i..i + |sub|] == sub
  }

  /** `sub in s` */
  predicate Contains(s: string, sub: string) {
    exists i :: 0 <= i <= |s| && OccursAt(s, sub, i)
  }

  /** The characters for which `str.isspace` holds. */
  predicate IsSpace(c: char) {
    || '\t' <= c <= '\r'
    || '\U{1C}' <= c <= ' '
    || c == '\U{85}' || c == '\U{A0}' || c == '\U{1680}'
    || '\U{2000}' <= c <= '\U{200A}'
    || c == '\U{2028}' || c == '\U{2029}' || c == '\U{202F}' || c == '\U{205F}' || c == '\U{3000}'
  }

  function LStrip(s: string): (r: string)
    ensures r != "" ==> !IsSpace(r[0])
  {
    if s != "" && IsSpace(s[0]) then LStrip(s[1..]) else s
  }

  function RStrip(s: string): (r: string)
    ensures r <= s
    ensures r != "" ==> !IsSpace(r[|r| - 1])
  {
    if s != "" && IsSpace(s[|s| - 1]) then RStrip(s[..|s| - 1]) else s
  }

  /** `s.strip()` */
  function Strip(s: string): string {
    RStrip(LStrip(s))
  }

  predicate Blank(s: string) {
    forall c :: c in s ==> IsSpace(c)
  }

  lemma {:induction false} RStripKeepsPrefix(s: string, p: string)
    requires p <= s && p != "" && !IsSpace(p[|p| - 1])
    ensures p <= RStrip(s)
  {
    if IsSpace(s[|s| - 1]) {
      assert |p| < |s|;
      RStripKeepsPrefix(s[..|s| - 1], p);
    }
  }

  /** A prefix that begins and ends with a visible character survives `strip`. */
  lemma StripKeepsPrefix(s: string, p: string)
    requires p <= s && p != "" && !IsSpace(p[0]) && !IsSpace(p[|p| - 1])
    ensures p <= Strip(s)
  {
    assert s[0] == p[0];
    RStripKeepsPrefix(s, p);
  }

  /** `not s.strip()` holds exactly of the strings made of whitespace. */
  lemma StripEmptyIffBlank(s: string)
    ensures Strip(s) == "" <==> Blank(s)
  {
    LStripEmptyIffBlank(s);
    RStripEmptyIffBlank(LStrip(s));
    if LStrip(s) != "" {
      assert LStrip(s)[0] in LStrip(s);
    }
  }

  lemma {:induction false} LStripEmptyIffBlank(s: string)
    ensures LStrip(s) == "" <==> Blank(s)
  {
    if s != "" {
      assert s[0] in s;
      if IsSpace(s[0]) {
        LStripEmptyIffBlank(s[1..]);
        assert s == [s[0]] + s[1..];
      }
    }
  }

  lemma {:induction false} RStripEmptyIffBlank(s: string)
    ensures RStrip(s) == "" <==> Blank(s)
  {
    if s != "" {
      assert s[|s| - 1] in s;
      if IsSpace(s[|s| - 1]) {
        RStripEmptyIffBlank(s[..|s| - 1]);
        assert s == s[..|s| - 1] + [s[|s| - 1]];
      }
    }
  }

  /** Membership survives growth on either side. */
  lemma ContainsGrows(s: string, before: string, after: string, sub: string)
    requires Contains(s, sub)
    ensures Contains(before + s + after, sub)
  {
    var i :| 0 <= i <= |s| && OccursAt(s, sub, i);
    assert OccursAt(before + s + after, sub, |before| + i);
  }

  // ---------- lines ----------

  predicate IsBreak(c: char) {
    || '\n' <= c <= '\r' || '\U{1C}' <= c <= '\U{1E}'
    || c == '\U{85}' || c == '\U{2028}' || c == '\U{2029}'
  }

  /** Length of the first line. */
  function LineLength(t: string): (n: nat)
    ensures n <= |t|
    ensures forall i :: 0 <= i < n ==> !IsBreak(t[i])
    ensures n < |t| ==> IsBreak(t[n])
  {
    if t == "" || IsBreak(t[0]) then 0 else 1 + LineLength(t[1..])
  }

  /** Length of the line break at a position; a carriage return takes a newline with it. */
  function BreakLength(t: string, n: nat): nat
    requires n < |t|
  {
    if t[n] == '\r' && n + 1 < |t| && t[n + 1] == '\n' then 2 else 1
  }

  /** `t.splitlines()` */
  function SplitLines(t: string): seq<string> {
    if t == "" then []
    else
      var n := LineLength(t);
      if n == |t| then [t] else [t[..n]] + SplitLines(t[n + BreakLength(t, n)..])
  }

  function Unlines(lines: seq<string>): string {
    if lines == [] then "" else lines[0] + "\n" + Unlines(lines[1..])
  }

  predicate NoBreaks(s: string) {
    forall i :: 0 <= i < |s| ==> !IsBreak(s[i])
  }

  predicate AreLines(lines: seq<string>) {
    forall i :: 0 <= i < |lines| ==> NoBreaks(lines[i])
  }

  lemma {:induction false} LineLengthOf(line: string, rest: string)
    requires NoBreaks(line)
    ensures LineLength(line + "\n" + rest) == |line|
  {
    if line != "" {
      assert (line + "\n" + rest)[1..] == line[1..] + "\n" + rest;
      LineLengthOf(line[1..], rest);
    }
  }

  /** Lines written out one by one are read back by `splitlines`. */
  lemma {:induction false} SplitUnlines(lines: seq<string>)
    requires AreLines(lines)
    ensures SplitLines(Unlines(lines)) == lines
  {
    if lines != [] {
      var line, rest := lines[0], Unlines(lines[1..]);
      var all := line + "\n" + rest;
      LineLengthOf(line, rest);
      SplitUnlines(lines[1..]);
      assert all[..|line|] == line && all[|line| + 1..] == rest;
      assert BreakLength(all, |line|) == 1;
    }
  }
}
