/** Hexadecimal printing and reading: `fmt_hex`, `h` and `int(s, 16)`. */
module Hex {
  import opened Json
  import opened Text

  predicate IsHexDigit(c: char) {
    '0' <= c <= '9' || 'A' <= c <= 'F' || 'a' <= c <= 'f'
  }

  predicate AllHex(s: string) {
    forall c :: c in s ==> IsHexDigit(c)
  }

  function DigitChar(d: nat): (c: char)
    requires d < 16
    ensures IsHexDigit(c) && DigitValue(c) == d
  {
    if d < 10 then '0' + d as char else 'A' + (d - 10) as char
  }

  function DigitValue(c: char): nat
    requires IsHexDigit(c)
  {
    if '0' <= c <= '9' then (c - '0') as nat
    else if 'A' <= c <= 'F' then (c - 'A') as nat + 10
    else (c - 'a') as nat + 10
  }

  /** The digits of a number, without leading zeros. */
  function Digits(n: nat): (s: string)
    ensures s != "" && AllHex(s)
  {
    if n < 16 then [DigitChar(n)] else Digits(n / 16) + [DigitChar(n % 16)]
  }

  function Zeros(n: nat): string {
    seq(n, i => '0')
  }

  function Pad(s: string, width: int): string {
    if |s| < width then Zeros(width - |s|) + s else s
  }

  /** `fmt_hex`: zero padding goes between the sign and the digits. */
  function FmtHex(v: int, width: nat): string {
    "0x" + if v >= 0 then Pad(Digits(v), width) else "-" + Pad(Digits(-v), width - 1)
  }

  function HexValue(s: string): nat
    requires AllHex(s)
  {
    if s == "" then 0 else 16 * HexValue(s[..|s| - 1]) + DigitValue(s[|s| - 1])
  }

  /** `int(s, 16)`, or nothing where it raises: optional sign, optional 0x, digits. */
  function IntBase16(s: string): Option<int> {
    ReadInt(Strip(s))
  }

  function ReadInt(t: string): Option<int> {
    var negative := t != "" && t[0] == '-';
    var body := if t != "" && (t[0] == '-' || t[0] == '+') then t[1..] else t;
    var digits := if |body| >= 2 && body[0] == '0' && (body[1] == 'x' || body[1] == 'X') then body[2..] else body;
    if digits != "" && AllHex(digits) then
      var v: int := HexValue(digits);
      Some(if negative then -v else v)
    else None
  }

  function WithoutUnderscores(s: string): string {
    if s == "" then ""
    else (if s[0] == '_' then "" else [s[0]]) + WithoutUnderscores(s[1..])
  }

  /** `h` */
  function H(s: string): Option<int> {
    IntBase16(WithoutUnderscores(s))
  }

  lemma {:induction false} DigitsValue(n: nat)
    ensures HexValue(Digits(n)) == n
  {
    if n < 16 {
      assert [DigitChar(n)][..0] == "";
    } else {
      DigitsValue(n / 16);
      assert (Digits(n / 16) + [DigitChar(n % 16)])[..|Digits(n / 16)|] == Digits(n / 16);
    }
  }

  lemma {:induction false} LeadingZeros(n: nat, s: string)
    requires AllHex(s)
    ensures AllHex(Zeros(n) + s) && HexValue(Zeros(n) + s) == HexValue(s)
    decreases |s|, n
  {
    var t := Zeros(n) + s;
    if s == "" {
      if n > 0 {
        LeadingZeros(n - 1, "");
        assert t[..|t| - 1] == Zeros(n - 1) + "";
      }
    } else {
      LeadingZeros(n, s[..|s| - 1]);
      assert t[..|t| - 1] == Zeros(n) + s[..|s| - 1];
    }
  }

  lemma PaddedValue(v: nat, width: int)
    ensures AllHex(Pad(Digits(v), width)) && HexValue(Pad(Digits(v), width)) == v && Pad(Digits(v), width) != ""
  {
    DigitsValue(v);
    if |Digits(v)| < width {
      LeadingZeros(width - |Digits(v)|, Digits(v));
    }
  }

  lemma {:induction false} NoUnderscores(s: string)
    requires forall c :: c in s ==> c != '_'
    ensures WithoutUnderscores(s) == s
  {
    if s != "" {
      assert s[0] in s;
      assert forall c :: c in s[1..] ==> c in s;
      NoUnderscores(s[1..]);
      assert s == [s[0]] + s[1..];
    }
  }

  lemma StripVisible(s: string)
    requires s != "" && !IsSpace(s[0]) && !IsSpace(s[|s| - 1])
    ensures Strip(s) == s
  {
  }

  lemma ReadBack(body: string)
    requires body != "" && forall c :: c in body ==> c == '-' || IsHexDigit(c)
    ensures H("0x" + body) == if AllHex(body) then Some(HexValue(body)) else None
  {
    var s := "0x" + body;
    assert body[|body| - 1] in body;
    assert s[|s| - 1] == body[|body| - 1];
    NoUnderscores(s);
    StripVisible(s);
    assert s[2..] == body;
  }

  /** The round trip of the two helpers: exactly the non-negative numbers survive it, at every width. */
  lemma HexRoundTrip(v: int, width: nat)
    ensures H(FmtHex(v, width)) == Some(v) <==> v >= 0
    ensures v < 0 ==> H(FmtHex(v, width)) == None
  {
    if v >= 0 {
      PaddedValue(v, width);
      ReadBack(Pad(Digits(v), width));
    } else {
      PaddedValue(-v, width - 1);
      var body := "-" + Pad(Digits(-v), width - 1);
      assert body[0] == '-' && body[0] in body;
      ReadBack(body);
    }
  }

  lemma {:induction false} DigitsShape(n: nat)
    ensures forall i :: 0 <= i < |Digits(n)| ==> Digits(n)[i] in "0123456789ABCDEF"
    ensures |Digits(n)| > 1 ==> Digits(n)[0] != '0'
    ensures n > 0 ==> Digits(n)[0] != '0'
  {
    UpperDigit(n % 16);
    if n < 16 {
      UpperDigit(n);
    } else {
      DigitsShape(n / 16);
    }
  }

  lemma UpperDigit(d: nat)
    requires d < 16
    ensures DigitChar(d) in "0123456789ABCDEF" && (d > 0 ==> DigitChar(d) != '0')
  {
    assert "0123456789ABCDEF"[d] == DigitChar(d);
  }

  /** `fmt_hex` prints upper-case digits, as many as the width asks for, and more only where they are needed. */
  lemma FmtHexShape(v: nat, width: nat)
    ensures var s := FmtHex(v, width);
            && |s| >= 2 + width && |s| > 2 && s[..2] == "0x"
            && (forall i :: 2 <= i < |s| ==> s[i] in "0123456789ABCDEF")
            && (|s| > 2 + width && |s| > 3 ==> s[2] != '0')
  {
    DigitsShape(v);
    var padded := Pad(Digits(v), width);
    assert FmtHex(v, width) == "0x" + padded;
    assert '0' == "0123456789ABCDEF"[0];
    assert forall i :: 0 <= i < |padded| ==> padded[i] in "0123456789ABCDEF";
  }

  /** The digits of both cases. */
  lemma HexDigitsAre(c: char)
    ensures IsHexDigit(c) <==> c in "0123456789ABCDEFabcdef"
  {
  }

  /** Digits behind an optional prefix. */
  predicate Unsigned(t: string, d: string) {
    d != "" && AllHex(d) && (t == d || t == "0x" + d || t == "0X" + d)
  }

  lemma UnsignedRead(t: string, d: string)
    requires Unsigned(t, d)
    ensures ReadInt(t) == Some(HexValue(d))
  {
    hide HexValue;
    assert d[0] in d && (|d| > 1 ==> d[1] in d);
    if t != d {
      assert t[2..] == d;
    }
  }

  /** `int(s, 16)` takes digits with or without a prefix, and a sign before either. */
  lemma ReadIntForms(t: string, d: string)
    requires Unsigned(t, d)
    ensures var v: int := HexValue(d); ReadInt(t) == Some(v) && ReadInt("+" + t) == Some(v) && ReadInt("-" + t) == Some(-v)
  {
    UnsignedRead(t, d);
    SignedRead(t, d);
  }

  /** A sign before what has none is taken off, and a minus negates. */
  lemma SignedRead(t: string, d: string)
    requires Unsigned(t, d)
    ensures ReadInt(t).Some?
    ensures ReadInt("+" + t) == ReadInt(t) && ReadInt("-" + t) == Some(-ReadInt(t).value)
  {
    UnsignedRead(t, d);
    assert d[0] in d && t[0] != '-' && t[0] != '+';
    hide HexValue, AllHex, Unsigned;
    assert ("-" + t)[1..] == t && ("+" + t)[1..] == t;
  }
}
