/** Bytes as small integers, with the exclusive-or that WebSocket masking needs. */
module Bytes {

  type byte = b: int | 0 <= b < 256

  /** Bitwise exclusive-or of two naturals, lowest bit first. */
  function Xor(a: nat, b: nat): nat {
    if a == 0 && b == 0 then 0
    else 2 * Xor(a / 2, b / 2) + (if a % 2 == b % 2 then 0 else 1)
  }

  lemma {:induction false} XorInvolution(a: nat, b: nat)
    ensures Xor(Xor(a, b), b) == a
  {
    if a != 0 || b != 0 {
      var low := if a % 2 == b % 2 then 0 else 1;
      var high := Xor(a / 2, b / 2);
      XorInvolution(a / 2, b / 2);
      assert Xor(a, b) / 2 == high && Xor(a, b) % 2 == low;
      if Xor(a, b) == 0 {
        assert Xor(high, b / 2) == a / 2;
      }
    }
  }

  function Pow2(n: nat): nat {
    if n == 0 then 1 else 2 * Pow2(n - 1)
  }

  lemma {:induction false} XorBound(a: nat, b: nat, n: nat)
    requires a < Pow2(n) && b < Pow2(n)
    ensures Xor(a, b) < Pow2(n)
  {
    if n > 0 {
      XorBound(a / 2, b / 2, n - 1);
    }
  }

  function XorByte(a: byte, b: byte): byte {
    assert Pow2(8) == 256;
    XorBound(a, b, 8);
    Xor(a, b)
  }

  /** RFC 6455 section 5.3: byte i of the payload is combined with byte i modulo 4 of the key. */
  function Masked(payload: seq<byte>, key: seq<byte>): (r: seq<byte>)
    requires |key| == 4
    ensures |r| == |payload|
  {
    seq(|payload|, i requires 0 <= i < |payload| => XorByte(payload[i], key[i % 4]))
  }

  lemma MaskInvolution(payload: seq<byte>, key: seq<byte>)
    requires |key| == 4
    ensures Masked(Masked(payload, key), key) == payload
  {
    forall i | 0 <= i < |payload|
      ensures Masked(Masked(payload, key), key)[i] == payload[i]
    {
      XorInvolution(payload[i], key[i % 4]);
    }
  }

  // ---------- bits ----------

  lemma Pow2Positive(n: nat)
    ensures Pow2(n) > 0
  {
    if n > 0 {
      Pow2Positive(n - 1);
    }
  }

  /** Bit `n` of `a`, the lowest being bit 0. */
  function Bit(a: nat, n: nat): (bit: nat)
    ensures bit < 2
  {
    Pow2Positive(n);
    a / Pow2(n) % 2
  }

  lemma HalfTwice(a: nat, p: nat)
    requires p > 0
    ensures a / 2 / p == a / (2 * p)
  {
    var q, r := a / (2 * p), a % (2 * p);
    var half := a / 2;
    assert a == 2 * p * q + r;
    assert half == p * q + r / 2;
    assert 0 <= r / 2 < p;
    QuotientIs(half, p, q, r / 2);
  }

  lemma QuotientIs(a: nat, p: nat, q: nat, r: nat)
    requires p > 0 && a == p * q + r && r < p
    ensures a / p == q
  {
    var d := a / p - q;
    assert a == p * (a / p) + a % p;
    assert p * d == r - a % p;
    SmallMultiple(p, d);
  }

  lemma SmallMultiple(p: int, d: int)
    requires -p < p * d < p
    ensures d == 0
  {
  }

  lemma BitOfHalf(a: nat, n: nat)
    requires n > 0
    ensures Bit(a, n) == Bit(a / 2, n - 1)
  {
    Pow2Positive(n - 1);
    HalfTwice(a, Pow2(n - 1));
  }

  lemma XorHalf(a: nat, b: nat)
    ensures Xor(a, b) / 2 == Xor(a / 2, b / 2) && Xor(a, b) % 2 == (if a % 2 == b % 2 then 0 else 1)
  {
  }

  /** Exclusive-or, bit by bit: a bit of the result is set exactly where the bits differ. */
  lemma {:induction false} XorBits(a: nat, b: nat, n: nat)
    ensures Bit(Xor(a, b), n) == 1 <==> Bit(a, n) != Bit(b, n)
  {
    hide Xor;
    XorHalf(a, b);
    if n == 0 {
      assert Bit(a, 0) == a % 2 && Bit(b, 0) == b % 2 && Bit(Xor(a, b), 0) == Xor(a, b) % 2;
    } else {
      BitOfHalf(a, n);
      BitOfHalf(b, n);
      BitOfHalf(Xor(a, b), n);
      XorBits(a / 2, b / 2, n - 1);
    }
  }

  /** Eight bits determine a byte. */
  lemma {:induction false} SameBits(a: nat, b: nat, n: nat)
    requires a < Pow2(n) && b < Pow2(n) && forall k :: 0 <= k < n ==> Bit(a, k) == Bit(b, k)
    ensures a == b
  {
    if n > 0 {
      forall k | 0 <= k < n - 1 ensures Bit(a / 2, k) == Bit(b / 2, k) {
        BitOfHalf(a, k + 1);
        BitOfHalf(b, k + 1);
        assert Bit(a, k + 1) == Bit(b, k + 1);
      }
      SameBits(a / 2, b / 2, n - 1);
      assert Bit(a, 0) == a % 2 && Bit(b, 0) == b % 2;
    }
  }

  /** RFC 6455 section 5.3, bit by bit: bit `n` of byte `i` is flipped exactly where that bit of byte i modulo 4 of the key is set. */
  ghost predicate Combined(payload: seq<byte>, key: seq<byte>, r: seq<byte>)
    requires |key| == 4
  {
    && |r| == |payload|
    && forall i, n :: 0 <= i < |payload| && 0 <= n < 8 ==> (Bit(r[i], n) == 1 <==> Bit(payload[i], n) != Bit(key[i % 4], n))
  }

  lemma MaskedIsCombined(payload: seq<byte>, key: seq<byte>)
    requires |key| == 4
    ensures Combined(payload, key, Masked(payload, key))
  {
    forall i, n | 0 <= i < |payload| && 0 <= n < 8
      ensures Bit(Masked(payload, key)[i], n) == 1 <==> Bit(payload[i], n) != Bit(key[i % 4], n)
    {
      XorBits(payload[i], key[i % 4], n);
    }
  }

  /** The law has one solution. */
  lemma CombinedIsMasked(payload: seq<byte>, key: seq<byte>, r: seq<byte>)
    requires |key| == 4 && Combined(payload, key, r)
    ensures r == Masked(payload, key)
  {
    MaskedIsCombined(payload, key);
    assert Pow2(8) == 256;
    forall i | 0 <= i < |payload| ensures r[i] == Masked(payload, key)[i] {
      SameBits(r[i], Masked(payload, key)[i], 8);
    }
  }

  /** Combining undoes itself. */
  lemma CombinedBack(payload: seq<byte>, key: seq<byte>, r: seq<byte>)
    requires |key| == 4 && Combined(payload, key, r)
    ensures Masked(r, key) == payload
  {
    CombinedIsMasked(payload, key, r);
    MaskInvolution(payload, key);
  }
}
