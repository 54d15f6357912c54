/** Subsequences. */
module Sequences {

  ghost predicate Sub<T>(a: seq<T>, b: seq<T>) {
    if a == [] then true
    else if b == [] then false
    else (a[0] == b[0] && Sub(a[1..], b[1..])) || Sub(a, b[1..])
  }

  lemma {:induction false} SubWhole<T>(a: seq<T>)
    ensures Sub(a, a)
  {
    if a != [] {
      SubWhole(a[1..]);
    }
  }

  lemma {:induction false} SubBehind<T>(a: seq<T>, front: seq<T>, b: seq<T>)
    requires Sub(a, b)
    ensures Sub(a, front + b)
  {
    if front == [] {
      assert front + b == b;
    } else {
      SubBehind(a, front[1..], b);
      assert (front + b)[1..] == front[1..] + b;
    }
  }

  lemma {:induction false} SubAppend<T>(a: seq<T>, b: seq<T>, c: seq<T>, d: seq<T>)
    requires Sub(a, b) && Sub(c, d)
    ensures Sub(a + c, b + d)
    decreases |b|
  {
    if a == [] {
      assert a + c == c;
      SubBehind(c, b, d);
    } else {
      assert (b + d)[1..] == b[1..] + d && (a + c)[1..] == a[1..] + c;
      if a[0] == b[0] && Sub(a[1..], b[1..]) {
        SubAppend(a[1..], b[1..], c, d);
      } else {
        SubAppend(a, b[1..], c, d);
      }
    }
  }
}
