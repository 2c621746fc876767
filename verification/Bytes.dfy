/** Bytes, the 32-bit network order of integers, and decimal text. */
module Bytes {
  type Byte = b: int | 0 <= b < 256
  type Text = seq<Byte>

  datatype Option<+T> = None | Some(value: T)

  const NEWLINE: Byte := 10

  // ------------------------------------------------------------------ network order

  function Pow256(k: nat): (p: nat)
    ensures p > 0
  {
    if k == 0 then 1 else 256 * Pow256(k - 1)
  }

  /** A `k`-byte integer, most significant byte first. */
  function BigEndian(n: nat, k: nat): (s: Text)
    ensures |s| == k
  {
    if k == 0 then [] else BigEndian(n / 256, k - 1) + [n % 256]
  }

  function FromBigEndian(s: Text): nat {
    if s == [] then 0 else FromBigEndian(s[..|s| - 1]) * 256 + s[|s| - 1]
  }

  lemma {:induction false} BigEndianRoundTrip(n: nat, k: nat)
    requires n < Pow256(k)
    ensures FromBigEndian(BigEndian(n, k)) == n
  {
    if k > 0 {
      BigEndianRoundTrip(n / 256, k - 1);
      assert BigEndian(n, k)[..k - 1] == BigEndian(n / 256, k - 1);
    }
  }

  lemma {:induction false} FromBigEndianRoundTrip(s: Text)
    ensures FromBigEndian(s) < Pow256(|s|) && BigEndian(FromBigEndian(s), |s|) == s
  {
    if s != [] {
      FromBigEndianRoundTrip(s[..|s| - 1]);
    }
  }

  /** Where each byte stands: the most significant one comes first. */
  lemma {:induction false} BigEndianAt(n: nat, k: nat, i: nat)
    requires i < k
    ensures BigEndian(n, k)[i] == n / Pow256(k - 1 - i) % 256
  {
    if i == k - 1 {
      assert Pow256(0) == 1;
    } else {
      BigEndianAt(n / 256, k - 1, i);
      DivideOnce(n, Pow256(k - 2 - i));
    }
  }

  lemma DivideOnce(n: nat, p: nat)
    requires p > 0
    ensures n / 256 / p == n / (256 * p)
  {
    var q := n / 256;
    var s, t, r := q / p, q % p, n % 256;
    assert q == p * s + t;
    assert 256 * (p * s) == (256 * p) * s;
    QuotientIs(n, 256 * p, s, 256 * t + r);
  }

  lemma QuotientIs(n: nat, d: nat, q: nat, r: nat)
    requires n == d * q + r && r < d
    ensures n / d == q
  {
    var e := n / d - q;
    assert d * e == d * (n / d) - d * q;
    if e >= 1 { AtLeastOnce(d, e); }
    if e <= -1 { AtLeastOnce(d, -e); }
  }

  lemma AtLeastOnce(d: int, e: int)
    requires d >= 0 && e >= 1
    ensures d * e >= d && d * -e <= -d
  {
  }

  /** htonl and ntohl move between this order and the machine's own. */
  function Flip(s: Text): (r: Text)
    ensures |r| == |s|
  {
    if s == [] then [] else Flip(s[1..]) + [s[0]]
  }

  lemma {:induction false} FlipAppend(s: Text, b: Byte)
    ensures Flip(s + [b]) == [b] + Flip(s)
  {
    if s == [] {
      assert [b][1..] == [];
    } else {
      assert (s + [b])[1..] == s[1..] + [b];
      FlipAppend(s[1..], b);
    }
  }

  lemma {:induction false} FlipTwice(s: Text)
    ensures Flip(Flip(s)) == s
  {
    if s != [] {
      FlipTwice(s[1..]);
      FlipAppend(Flip(s[1..]), s[0]);
    }
  }

  // ------------------------------------------------------------------ decimal text

  predicate IsDigit(b: Byte) {
    48 <= b <= 57
  }

  predicate IsSpace(b: Byte) {
    b == 32 || 9 <= b <= 13
  }

  /** printf("%ld") of a non-negative number. */
  function Decimal(n: nat): (s: Text)
    ensures s != [] && forall i :: 0 <= i < |s| ==> IsDigit(s[i])
  {
    if n < 10 then [48 + n] else Decimal(n / 10) + [48 + n % 10]
  }

  function Pow10(k: nat): (p: nat)
    ensures p > 0
  {
    if k == 0 then 1 else 10 * Pow10(k - 1)
  }

  /** Where each digit stands: the most significant one comes first, and none is missing. */
  lemma {:induction false} DecimalAt(n: nat, i: nat)
    requires i < |Decimal(n)|
    ensures Decimal(n)[i] == 48 + n / Pow10(|Decimal(n)| - 1 - i) % 10
    ensures n < Pow10(|Decimal(n)|)
  {
    var k := |Decimal(n)|;
    assert Pow10(0) == 1 && Pow10(1) == 10;
    if n >= 10 {
      assert Decimal(n) == Decimal(n / 10) + [48 + n % 10];
      if i < k - 1 {
        DecimalAt(n / 10, i);
        assert Pow10(k - 1 - i) == 10 * Pow10(k - 2 - i);
        DivideByTen(n, Pow10(k - 2 - i));
      } else {
        DecimalAt(n / 10, 0);
      }
    }
  }

  lemma DivideByTen(n: nat, p: nat)
    requires p > 0
    ensures n / 10 / p == n / (10 * p)
  {
    var q := n / 10;
    var s, t, r := q / p, q % p, n % 10;
    assert q == p * s + t;
    assert 10 * (p * s) == (10 * p) * s;
    QuotientIs(n, 10 * p, s, 10 * t + r);
  }

  /** The value of the leading digits, continuing from `acc`, and the text behind them. */
  function ReadDigits(acc: nat, s: Text): (nat, Text)
    decreases |s|
  {
    if s != [] && IsDigit(s[0]) then ReadDigits(acc * 10 + (s[0] - 48), s[1..]) else (acc, s)
  }

  function SkipSpace(s: Text): Text {
    if s != [] && IsSpace(s[0]) then SkipSpace(s[1..]) else s
  }

  /** strtol/strtoul in base 10: the value and the unread rest. Without digits the value is
    zero and nothing is read. */
  function ReadNumber(s: Text): (int, Text) {
    var t := SkipSpace(s);
    var negative := t != [] && t[0] == 45;
    var u := if t != [] && (t[0] == 45 || t[0] == 43) then t[1..] else t;
    if u == [] || !IsDigit(u[0]) then (0, s)
    else
      var (n, rest) := ReadDigits(0, u);
      ((if negative then -1 else 1) * n, rest)
  }

  lemma {:induction false} ReadDigitsAppend(acc: nat, a: Text, b: Text)
    requires forall i :: 0 <= i < |a| ==> IsDigit(a[i])
    requires b == [] || !IsDigit(b[0])
    ensures ReadDigits(acc, a + b) == (ReadDigits(acc, a).0, b)
    decreases |a|
  {
    if a == [] {
      assert a + b == b;
    } else {
      assert (a + b)[1..] == a[1..] + b;
      ReadDigitsAppend(acc * 10 + (a[0] - 48), a[1..], b);
    }
  }

  lemma {:induction false} ReadDigitsSnoc(acc: nat, a: Text, d: Byte)
    requires forall i :: 0 <= i < |a| ==> IsDigit(a[i])
    requires IsDigit(d)
    ensures ReadDigits(acc, a + [d]).0 == ReadDigits(acc, a).0 * 10 + (d - 48)
    decreases |a|
  {
    if a == [] {
      assert a + [d] == [d] && [d][1..] == [];
    } else {
      assert (a + [d])[1..] == a[1..] + [d];
      ReadDigitsSnoc(acc * 10 + (a[0] - 48), a[1..], d);
    }
  }

  lemma {:induction false} DecimalValue(n: nat)
    ensures ReadDigits(0, Decimal(n)).0 == n
  {
    if n < 10 {
      assert [48 + n][1..] == [];
    } else {
      DecimalValue(n / 10);
      ReadDigitsSnoc(0, Decimal(n / 10), 48 + n % 10);
    }
  }

  /** Printed numbers are read back, up to the first byte that is no digit. */
  lemma DecimalRoundTrip(n: nat, rest: Text)
    requires rest == [] || !IsDigit(rest[0])
    ensures ReadNumber(Decimal(n) + rest) == (n, rest)
  {
    var s := Decimal(n) + rest;
    assert IsDigit(s[0]);
    ReadDigitsAppend(0, Decimal(n), rest);
    DecimalValue(n);
  }

  /** Spaces in front are skipped, and one sign is taken. */
  lemma SignedNumber(n: nat, rest: Text)
    requires rest == [] || !IsDigit(rest[0])
    ensures var m: int := n; ReadNumber([45] + Decimal(n) + rest) == (-m, rest)
    ensures ReadNumber([43] + Decimal(n) + rest) == (n, rest)
    ensures ReadNumber([32] + Decimal(n) + rest) == (n, rest)
  {
    hide Decimal;
    var d := Decimal(n);
    ReadDigitsAppend(0, d, rest);
    DecimalValue(n);
    assert ([45] + d + rest)[1..] == ([43] + d + rest)[1..] == ([32] + d + rest)[1..] == d + rest;
    assert SkipSpace(d + rest) == d + rest;
  }
}
