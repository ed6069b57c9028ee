/** Bytes, decimal digit strings and the naturals they denote. */
module Decimals {

  type byte = b: int | 0 <= b < 256

  const ZERO: byte := 0x30  // '0'

  predicate Digit(b: byte) { 0x30 <= b <= 0x39 }

  predicate Digits(s: seq<byte>) {
    forall i :: 0 <= i < |s| ==> Digit(s[i])
  }

  function Pow10(n: nat): nat
    ensures Pow10(n) > 0
  {
    if n == 0 then 1 else 10 * Pow10(n - 1)
  }

  /** The natural number a digit string denotes. */
  function Nat(s: seq<byte>): nat
    requires Digits(s)
  {
    if s == [] then 0 else 10 * Nat(s[..|s| - 1]) + (s[|s| - 1] - ZERO)
  }

  lemma {:induction false} PowSum(a: nat, b: nat)
    ensures Pow10(a + b) == Pow10(a) * Pow10(b)
  {
    if a > 0 { PowSum(a - 1, b); }
  }

  lemma Scale(a: int, b: int, w: nat)
    requires a <= b
    ensures a * w <= b * w
  {
  }

  lemma PowMonotone(a: nat, b: nat)
    requires a <= b
    ensures Pow10(a) <= Pow10(b)
  {
    PowSum(a, b - a);
    Scale(1, Pow10(b - a), Pow10(a));
  }

  lemma {:induction false} NatConcat(a: seq<byte>, b: seq<byte>)
    requires Digits(a) && Digits(b)
    ensures Digits(a + b) && Nat(a + b) == Nat(a) * Pow10(|b|) + Nat(b)
  {
    if b == [] {
      assert a + b == a;
    } else {
      var b' := b[..|b| - 1];
      assert (a + b)[..|a + b| - 1] == a + b';
      NatConcat(a, b');
      assert Pow10(|b|) == 10 * Pow10(|b'|);
      assert Nat(a) * Pow10(|b|) == 10 * (Nat(a) * Pow10(|b'|));
    }
  }

  lemma {:induction false} NatBound(s: seq<byte>)
    requires Digits(s)
    ensures Nat(s) < Pow10(|s|)
  {
    if s != [] { NatBound(s[..|s| - 1]); }
  }

  /** One more digit. */
  lemma NatNext(s: seq<byte>, d: byte)
    requires Digits(s) && Digit(d)
    ensures Digits(s + [d]) && Nat(s + [d]) == 10 * Nat(s) + (d - ZERO)
  {
    assert (s + [d])[..|s + [d]| - 1] == s;
  }

  lemma NatOne(d: byte)
    requires Digit(d)
    ensures Digits([d]) && Nat([d]) == d - ZERO
  {
    NatNext([], d);
    assert [] + [d] == [d] && Nat([]) == 0;
  }

  lemma NatFirst(s: seq<byte>)
    requires Digits(s) && s != []
    ensures Nat(s) == (s[0] - ZERO) * Pow10(|s| - 1) + Nat(s[1..])
  {
    hide Nat, Pow10;
    assert s == [s[0]] + s[1..];
    NatOne(s[0]);
    NatConcat([s[0]], s[1..]);
  }

  /** A digit string whose first digit is not zero has a value of exactly its length. */
  lemma NatLowerBound(s: seq<byte>)
    requires Digits(s) && s != [] && s[0] != ZERO
    ensures Nat(s) >= Pow10(|s| - 1)
  {
    hide Nat, Pow10;
    NatFirst(s);
    Scale(1, s[0] - ZERO, Pow10(|s| - 1));
  }

  /** Leading zeros do not count. */
  lemma {:induction false} NatSkipsZeros(s: seq<byte>, n: nat)
    requires Digits(s) && n <= |s| && forall i :: 0 <= i < n ==> s[i] == ZERO
    ensures Nat(s[n..]) == Nat(s)
  {
    if n > 0 {
      NatSkipsZeros(s, n - 1);
      NatFirst(s[n - 1..]);
      assert s[n - 1..][1..] == s[n..];
    }
  }

  lemma {:induction false} NatZero(s: seq<byte>)
    requires Digits(s)
    ensures Nat(s) == 0 <==> forall i :: 0 <= i < |s| ==> s[i] == ZERO
  {
    if s != [] {
      NatZero(s[..|s| - 1]);
      assert forall i :: 0 <= i < |s| - 1 ==> s[..|s| - 1][i] == s[i];
    }
  }

  lemma Outweighs(d: int, e: int, x: nat, y: nat, w: nat)
    requires d > e && y < w
    ensures d * w + x > e * w + y
  {
    Scale(e + 1, d, w);
    assert (e + 1) * w == e * w + w;
  }

  /** Digit strings of one length compare as their numbers do, decided by the first place they differ. */
  lemma NatCompare(a: seq<byte>, b: seq<byte>, k: nat)
    requires Digits(a) && Digits(b) && |a| == |b| && k < |a| && a[..k] == b[..k] && a[k] > b[k]
    ensures Nat(a) > Nat(b)
  {
    hide Nat, Pow10;
    assert a == a[..k] + a[k..] && b == b[..k] + b[k..];
    NatConcat(a[..k], a[k..]);
    NatConcat(b[..k], b[k..]);
    NatFirst(a[k..]);
    NatFirst(b[k..]);
    NatBound(b[k..][1..]);
    Outweighs(a[k] - ZERO, b[k] - ZERO, Nat(a[k..][1..]), Nat(b[k..][1..]), Pow10(|a| - k - 1));
    assert |a[k..]| == |b[k..]| == |a| - k;
  }

  function Zeros(n: nat): (s: seq<byte>)
    ensures |s| == n && forall i :: 0 <= i < n ==> s[i] == ZERO
  {
    seq(n, _ => ZERO)
  }

  /** Appending zeros multiplies by a power of ten. */
  lemma NatPadded(s: seq<byte>, n: nat)
    requires Digits(s)
    ensures Digits(s + Zeros(n)) && Nat(s + Zeros(n)) == Nat(s) * Pow10(n)
  {
    NatConcat(s, Zeros(n));
    NatZero(Zeros(n));
  }
}
