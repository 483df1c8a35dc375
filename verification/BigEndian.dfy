/**
 Bytes, and byte strings read as big-endian integers. Every definition here is
 linear (multiplication by 256 only), which keeps the proofs about the carry
 loop out of nonlinear arithmetic.
 */
module BigEndian {

  type Byte = x: int | 0 <= x < 0x100

  /** The width in which the carry loop adds: leaving it is an overflow. */
  newtype U16 = x: int | 0 <= x < 0x1_0000

  /** x * 256^n. */
  function Scaled(x: nat, n: nat): (y: nat)
    ensures y >= x
  {
    if n == 0 then x else 0x100 * Scaled(x, n - 1)
  }

  /** The integer a byte string denotes, most significant byte first. */
  function Value(s: seq<Byte>): nat {
    if s == [] then 0 else 0x100 * Value(s[..|s| - 1]) + s[|s| - 1]
  }

  lemma {:induction false} ScaledAdd(x: nat, y: nat, n: nat)
    ensures Scaled(x + y, n) == Scaled(x, n) + Scaled(y, n)
  {
    if n > 0 { ScaledAdd(x, y, n - 1); }
  }

  lemma {:induction false} ScaledShift(x: nat, n: nat)
    ensures Scaled(0x100 * x, n) == Scaled(x, n + 1)
  {
    if n > 0 { ScaledShift(x, n - 1); }
  }

  lemma {:induction false} ScaledIsProduct(x: nat, n: nat)
    ensures Scaled(x, n) == x * Scaled(1, n)
  {
    if n > 0 { ScaledIsProduct(x, n - 1); }
  }

  lemma {:induction false} ValueBound(s: seq<Byte>)
    ensures Value(s) < Scaled(1, |s|)
  {
    if s != [] { ValueBound(s[..|s| - 1]); }
  }

  /** A byte put in front weighs 256 to the number of bytes behind it. */
  lemma {:induction false} ValueCons(b: Byte, s: seq<Byte>)
    ensures Value([b] + s) == Scaled(b, |s|) + Value(s)
  {
    if s == [] {
      assert [b] + s == [b];
    } else {
      var front := s[..|s| - 1];
      assert ([b] + s)[..|s|] == [b] + front;
      ValueCons(b, front);
    }
  }

  /** s is v written in |s| bytes, whatever does not fit being dropped: Value(s) is v modulo 256^|s|. */
  ghost predicate Keeps(s: seq<Byte>, v: nat) {
    exists high: nat :: Value(s) + Scaled(high, |s|) == v
  }

  lemma {:induction false} KeepsUnique(s: seq<Byte>, highS: nat, t: seq<Byte>, highT: nat)
    requires |s| == |t| && Value(s) + Scaled(highS, |s|) == Value(t) + Scaled(highT, |t|)
    ensures s == t
  {
    if s != [] {
      KeepsUnique(s[..|s| - 1], highS, t[..|t| - 1], highT);
      assert s == s[..|s| - 1] + [s[|s| - 1]] && t == t[..|t| - 1] + [t[|t| - 1]];
    }
  }

  lemma {:induction false} KeepsExists(v: nat, n: nat) returns (s: seq<Byte>, high: nat)
    ensures |s| == n && Value(s) + Scaled(high, n) == v
  {
    if n == 0 {
      s, high := [], v;
    } else {
      var front;
      front, high := KeepsExists(v / 0x100, n - 1);
      s := front + [v % 0x100];
      assert s[..n - 1] == front;
    }
  }

  lemma {:induction false} KeepsIsModulo(s: seq<Byte>, v: nat)
    requires Keeps(s, v)
    ensures Value(s) == v % Scaled(1, |s|)
  {
    var high: nat :| Value(s) + Scaled(high, |s|) == v;
    ValueBound(s);
    ScaledIsProduct(high, |s|);
    RemainderUnique(Value(s), high, Scaled(1, |s|), v);
  }

  /** Division with remainder is unique. */
  lemma {:induction false} RemainderUnique(low: nat, quotient: nat, m: nat, total: nat)
    requires low < m && low + quotient * m == total
    ensures total % m == low
  {
    var q, r := total / m, total % m;
    assert total == q * m + r;
    if q > quotient {
      ScaleStrict(quotient, q, m);
    } else if q < quotient {
      ScaleStrict(q, quotient, m);
    }
  }

  lemma {:induction false} ScaleStrict(a: nat, b: nat, m: nat)
    requires a < b
    ensures a * m + m <= b * m
  {
    assert b * m == a * m + m + (b - a - 1) * m;
    assert (b - a - 1) * m >= 0;
  }
}
