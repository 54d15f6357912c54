/** Bracket-aware splitting: `_split_top_level`. */
module Brackets {

  function Step(c: char): int {
    if c == '(' || c == '[' || c == '{' then 1
    else if c == ')' || c == ']' || c == '}' then -1
    else 0
  }

  /** Opening minus closing brackets of any kind: the kinds need not match, and the depth can be negative. */
  function Depth(s: string): int {
    if s == "" then 0 else Depth(s[..|s| - 1]) + Step(s[|s| - 1])
  }

  function Join(pieces: seq<string>): string {
    if pieces == [] then "" else if |pieces| == 1 then pieces[0] else pieces[0] + "," + Join(pieces[1..])
  }

  /** Every comma is at a depth other than zero. */
  predicate NoTopComma(piece: string) {
    forall k :: 0 <= k < |piece| && piece[k] == ',' ==> Depth(piece[..k]) != 0
  }

  /** What it means to split at the commas of depth zero. */
  predicate IsSplit(pieces: seq<string>, s: string) {
    && pieces != [] && Join(pieces) == s
    && (forall i :: 0 <= i < |pieces| - 1 ==> Depth(pieces[i]) == 0)
    && (forall i :: 0 <= i < |pieces| ==> NoTopComma(pieces[i]))
  }

  lemma {:induction false} JoinSnoc(pieces: seq<string>, last: string)
    ensures Join(pieces + [last]) == if pieces == [] then last else Join(pieces) + "," + last
  {
    if |pieces| > 1 {
      JoinSnoc(pieces[1..], last);
      assert (pieces + [last])[1..] == pieces[1..] + [last];
      assert Join(pieces + [last]) == pieces[0] + "," + (Join(pieces[1..]) + "," + last);
    }
  }

  lemma NoTopCommaSnoc(piece: string, c: char)
    requires NoTopComma(piece) && (c == ',' ==> Depth(piece) != 0)
    ensures NoTopComma(piece + [c])
  {
    var grown := piece + [c];
    forall k | 0 <= k < |grown| && grown[k] == ','
      ensures Depth(grown[..k]) != 0
    {
      assert grown[..k] == piece[..k];
      assert k == |piece| ==> piece[..k] == piece;
    }
  }

  /** One more character within a piece. */
  lemma Grow(done: seq<string>, piece: string, s: string, c: char)
    requires IsSplit(done + [piece], s) && (c == ',' ==> Depth(piece) != 0)
    ensures IsSplit(done + [piece + [c]], s + [c])
  {
    var was, now := done + [piece], done + [piece + [c]];
    JoinSnoc(done, piece);
    JoinSnoc(done, piece + [c]);
    assert was[|done|] == piece;
    NoTopCommaSnoc(piece, c);
    assert forall i :: 0 <= i < |done| ==> now[i] == was[i];
  }

  /** A comma that closes a piece. */
  lemma Close(done: seq<string>, piece: string, s: string)
    requires IsSplit(done + [piece], s) && Depth(piece) == 0
    ensures IsSplit(done + [piece] + [""], s + ",")
  {
    JoinSnoc(done + [piece], "");
  }

  /** `_split_top_level`: the split of the text, without a last piece that is empty. */
  method SplitTopLevel(s: string) returns (out: seq<string>)
    ensures (out != [] && out[|out| - 1] != "" && IsSplit(out, s)) || IsSplit(out + [""], s)
  {
    out := [];
    var depth := 0;
    var buf := "";
    for i := 0 to |s|
      invariant IsSplit(out + [buf], s[..i]) && depth == Depth(buf)
    {
      var ch := s[i];
      assert s[..i + 1] == s[..i] + [ch];
      assert (buf + [ch])[..|buf|] == buf;
      if ch in "([{" {
        depth := depth + 1;
      } else if ch in ")]}" {
        depth := depth - 1;
      }
      if ch == ',' && depth == 0 {
        Close(out, buf, s[..i]);
        out := out + [buf];
        buf := "";
      } else {
        Grow(out, buf, s[..i], ch);
        buf := buf + [ch];
      }
    }
    assert s[..|s|] == s;
    if buf != "" {
      out := out + [buf];
    }
  }

  lemma FirstPieceIsPrefix(pieces: seq<string>, s: string)
    requires IsSplit(pieces, s)
    ensures pieces[0] <= s
    ensures |pieces| == 1 ==> pieces[0] == s
    ensures |pieces| > 1 ==> |pieces[0]| < |s| && s[|pieces[0]|] == ',' && Depth(pieces[0]) == 0
                             && IsSplit(pieces[1..], s[|pieces[0]| + 1..])
  {
    if |pieces| > 1 {
      assert s == pieces[0] + "," + Join(pieces[1..]);
      assert s[|pieces[0]| + 1..] == Join(pieces[1..]);
    }
  }

  lemma CommaInside(p: string, q: string)
    requires p <= q && |p| < |q| && q[|p|] == ',' && Depth(p) == 0
    ensures !NoTopComma(q)
  {
    assert q[..|p|] == p;
  }

  /** A first piece cannot be shorter than another: the comma that ends it would be at depth zero in the longer one. */
  lemma NotShorter(ps: seq<string>, qs: seq<string>, s: string)
    requires IsSplit(ps, s) && IsSplit(qs, s)
    ensures |ps[0]| >= |qs[0]|
  {
    hide NoTopComma;
    FirstPieceIsPrefix(ps, s);
    FirstPieceIsPrefix(qs, s);
    assert NoTopComma(qs[0]);
    if |ps[0]| < |qs[0]| {
      CommaInside(ps[0], qs[0]);
    }
  }

  /** A text has only one split, so the pieces are exactly those between its commas of depth zero. */
  lemma {:induction false} SplitIsUnique(ps: seq<string>, qs: seq<string>, s: string)
    requires IsSplit(ps, s) && IsSplit(qs, s)
    ensures ps == qs
    decreases |ps|
  {
    NotShorter(ps, qs, s);
    NotShorter(qs, ps, s);
    FirstPieceIsPrefix(ps, s);
    FirstPieceIsPrefix(qs, s);
    assert ps[0] == s[..|ps[0]|] == qs[0];
    if |ps| > 1 && |qs| > 1 {
      SplitIsUnique(ps[1..], qs[1..], s[|ps[0]| + 1..]);
      assert ps == [ps[0]] + ps[1..] && qs == [qs[0]] + qs[1..];
    }
  }

  lemma {:induction false} DepthAppend(a: string, b: string)
    ensures Depth(a + b) == Depth(a) + Depth(b)
  {
    if b == "" {
      assert a + b == a;
    } else {
      assert (a + b)[..|a + b| - 1] == a + b[..|b| - 1];
      DepthAppend(a, b[..|b| - 1]);
    }
  }

  /** The commas of depth zero are the ones that the split removes: one fewer than there are pieces. */
  function TopCommas(s: string): nat {
    if s == "" then 0
    else TopCommas(s[..|s| - 1]) + if s[|s| - 1] == ',' && Depth(s[..|s| - 1]) == 0 then 1 else 0
  }

  lemma {:induction false} NoneWithin(piece: string)
    requires NoTopComma(piece)
    ensures TopCommas(piece) == 0
  {
    if piece != "" {
      var init := piece[..|piece| - 1];
      forall k | 0 <= k < |init| && init[k] == ','
        ensures Depth(init[..k]) != 0
      {
        assert init[..k] == piece[..k];
      }
      NoneWithin(init);
    }
  }

  lemma {:induction false} TopCommasAfter(head: string, tail: string)
    requires Depth(head) == 0
    ensures TopCommas(head + "," + tail) == TopCommas(head) + 1 + TopCommas(tail)
  {
    var all := head + "," + tail;
    if tail == "" {
      assert all[..|all| - 1] == head;
    } else {
      var init := tail[..|tail| - 1];
      assert all[..|all| - 1] == head + "," + init;
      TopCommasAfter(head, init);
      DepthAppend(head + ",", init);
      assert (head + ",")[..|head|] == head;
    }
  }

  lemma {:induction false} PieceCount(pieces: seq<string>, s: string)
    requires IsSplit(pieces, s)
    ensures |pieces| == TopCommas(s) + 1
  {
    FirstPieceIsPrefix(pieces, s);
    assert NoTopComma(pieces[0]);
    NoneWithin(pieces[0]);
    if |pieces| > 1 {
      var rest := s[|pieces[0]| + 1..];
      assert s == pieces[0] + "," + rest;
      TopCommasAfter(pieces[0], rest);
      PieceCount(pieces[1..], rest);
    }
  }
}
