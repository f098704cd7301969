/**
 The chunk checksum: 64-bit FNV-1a (section 2 of draft-eastlake-fnv).
 */
module Fnv {
  import opened Common
  import opened Utf8

  const OFFSET_BASIS: nat := 0xcbf29ce484222325
  const PRIME: nat := 0x100000001b3
  const MODULUS: nat := 0x1_0000_0000_0000_0000

  /** The multiplicative inverse of the prime modulo 2^64. */
  const PRIME_INVERSE: nat := 0xce965057aff6957b

  /** Exclusive or of the low `width` bits. */
  function Xor(a: nat, b: nat, width: nat): nat {
    if width == 0 then 0 else 2 * Xor(a / 2, b / 2, width - 1) + (if a % 2 == b % 2 then 0 else 1)
  }

  function XorBytes(a: Byte, b: Byte): nat {
    Xor(a, b, 8)
  }

  /** `hash ^ byte`: the exclusive or touches the low eight bits only. */
  function XorLow(hash: nat, b: Byte): nat {
    hash / 256 * 256 + XorBytes(hash % 256, b)
  }

  function Mix(hash: nat, b: Byte): (mixed: nat)
    ensures mixed < MODULUS
  {
    XorLow(hash, b) * PRIME % MODULUS
  }

  function From(hash: nat, data: seq<Byte>): nat {
    if data == [] then hash else Mix(From(hash, data[..|data| - 1]), data[|data| - 1])
  }

  function Checksum(data: seq<Byte>): nat {
    From(OFFSET_BASIS, data)
  }

  method ComputeChecksum(data: seq<Byte>) returns (hash: nat)
    ensures hash == Checksum(data)
  {
    hash := OFFSET_BASIS;
    for i := 0 to |data|
      invariant hash == From(OFFSET_BASIS, data[..i])
    {
      assert data[..i + 1][..i] == data[..i];
      hash := XorLow(hash, data[i]);
      hash := hash * PRIME % MODULUS;
    }
    assert data[..|data|] == data;
  }

  lemma XorParts(a: nat, b: nat, width: nat)
    requires width > 0
    ensures Xor(a, b, width) / 2 == Xor(a / 2, b / 2, width - 1)
    ensures Xor(a, b, width) % 2 == if a % 2 == b % 2 then 0 else 1
  {
  }

  /** Either operand of an exclusive or is recovered with the other. */
  lemma {:induction false} XorCancels(a: nat, b: nat, width: nat)
    requires a < Power2(width) && b < Power2(width)
    ensures Xor(a, b, width) < Power2(width)
    ensures Xor(Xor(a, b, width), b, width) == a
    ensures Xor(a, Xor(a, b, width), width) == b
  {
    if width > 0 {
      var x := Xor(a, b, width);
      XorCancels(a / 2, b / 2, width - 1);
      XorParts(a, b, width);
      XorParts(x, b, width);
      XorParts(a, x, width);
    }
  }

  function Power2(n: nat): nat {
    if n == 0 then 1 else 2 * Power2(n - 1)
  }

  /** Multiplying by the prime loses nothing modulo 2^64. */
  lemma PrimeInvertible(x: nat)
    requires x < MODULUS
    ensures x * PRIME % MODULUS * PRIME_INVERSE % MODULUS == x
  {
    var q, r := x * PRIME / MODULUS, x * PRIME % MODULUS;
    assert PRIME * PRIME_INVERSE % MODULUS == 1;
    var k := PRIME * PRIME_INVERSE / MODULUS;
    assert r * PRIME_INVERSE == x + MODULUS * (x * k - q * PRIME_INVERSE);
  }

  lemma XorBytesCancels(a: Byte, b: Byte)
    ensures var x := XorBytes(a, b); x < 256 && Xor(x, b, 8) == a && Xor(a, x, 8) == b
  {
    assert Power2(8) == 256 by { assert Power2(4) == 16; }
    XorCancels(a, b, 8);
  }

  lemma XorLowCancels(h: nat, b: Byte)
    requires h < MODULUS
    ensures XorLow(h, b) < MODULUS
    ensures XorLow(h, b) / 256 == h / 256 && XorLow(h, b) % 256 == XorBytes(h % 256, b)
  {
    XorBytesCancels(h % 256, b);
  }

  lemma XorLowInjective(h: nat, h': nat, b: Byte, b': Byte)
    requires h < MODULUS && h' < MODULUS
    requires (h == h' && b != b') || (h != h' && b == b')
    ensures XorLow(h, b) != XorLow(h', b')
  {
    XorLowCancels(h, b);
    XorLowCancels(h', b');
    XorBytesCancels(h % 256, b);
    XorBytesCancels(h' % 256, b');
  }

  lemma MixInjective(h: nat, h': nat, b: Byte, b': Byte)
    requires h < MODULUS && h' < MODULUS
    requires (h == h' && b != b') || (h != h' && b == b')
    ensures Mix(h, b) != Mix(h', b')
  {
    XorLowInjective(h, h', b, b');
    XorLowCancels(h, b);
    XorLowCancels(h', b');
    PrimeInvertible(XorLow(h, b));
    PrimeInvertible(XorLow(h', b'));
  }

  lemma {:induction false} SuffixInjective(h: nat, h': nat, data: seq<Byte>)
    requires h < MODULUS && h' < MODULUS && h != h'
    ensures From(h, data) != From(h', data)
    ensures From(h, data) < MODULUS && From(h', data) < MODULUS
  {
    if data != [] {
      var front := data[..|data| - 1];
      SuffixInjective(h, h', front);
      MixInjective(From(h, front), From(h', front), data[|data| - 1], data[|data| - 1]);
    }
  }

  lemma {:induction false} FromAppend(h: nat, a: seq<Byte>, b: seq<Byte>)
    ensures From(h, a + b) == From(From(h, a), b)
  {
    if b == [] {
      assert a + b == a;
    } else {
      assert (a + b)[..|a + b| - 1] == a + b[..|b| - 1];
      FromAppend(h, a, b[..|b| - 1]);
    }
  }

  lemma {:induction false} FromBounded(data: seq<Byte>)
    ensures From(OFFSET_BASIS, data) < MODULUS
  {
  }

  /** Payloads of one length that differ in exactly one byte never share a
      checksum: a corrupted byte is always noticed. */
  lemma OneByteChangesChecksum(data: seq<Byte>, changed: seq<Byte>, at: nat)
    requires |data| == |changed| && at < |data| && data[at] != changed[at]
    requires forall i :: 0 <= i < |data| && i != at ==> data[i] == changed[i]
    ensures Checksum(data) != Checksum(changed)
  {
    var before, after := data[..at], data[at + 1..];
    assert data == before + [data[at]] + after && changed == before + [changed[at]] + after;
    FromAppend(OFFSET_BASIS, before + [data[at]], after);
    FromAppend(OFFSET_BASIS, before + [changed[at]], after);
    assert (before + [data[at]])[..at] == before && (before + [changed[at]])[..at] == before;
    FromBounded(before);
    MixInjective(From(OFFSET_BASIS, before), From(OFFSET_BASIS, before), data[at], changed[at]);
    SuffixInjective(From(OFFSET_BASIS, before + [data[at]]), From(OFFSET_BASIS, before + [changed[at]]), after);
  }

  lemma MixIs(hash: nat, b: Byte, low: nat)
    requires Xor(hash % 256, b, 8) == low
    ensures Mix(hash, b) == (hash / 256 * 256 + low) * PRIME % MODULUS
  {
  }

  lemma FromSnoc(hash: nat, data: seq<Byte>, b: Byte)
    ensures From(hash, data + [b]) == Mix(From(hash, data), b)
  {
    assert (data + [b])[..|data|] == data;
  }

  lemma XorStep(a: nat, b: nat, width: nat, x: nat)
    requires width > 0 && Xor(a / 2, b / 2, width - 1) == x / 2 && (x % 2 == 0 <==> a % 2 == b % 2)
    ensures Xor(a, b, width) == x
  {
  }

  lemma XorVector(a: seq<nat>, b: seq<nat>, x: seq<nat>)
    requires a == [0x25, 0x12, 0x9, 0x4, 0x2, 0x1, 0, 0, 0] && b == [0x61, 0x30, 0x18, 0xc, 0x6, 0x3, 0x1, 0, 0]
    requires x == [0x44, 0x22, 0x11, 0x8, 0x4, 0x2, 0x1, 0, 0]
    ensures Xor(a[0], b[0], 8) == x[0]
  {
    XorFrom(a, b, x, 0);
  }

  /** Each is half of the one before, and the last parts fit. */
  lemma {:induction false} XorFrom(a: seq<nat>, b: seq<nat>, x: seq<nat>, i: nat)
    requires |a| == |b| == |x| && i < |a| && x[|x| - 1] == 0
    requires forall j :: 0 <= j < |a| - 1 ==> a[j] / 2 == a[j + 1] && b[j] / 2 == b[j + 1] && x[j] / 2 == x[j + 1]
    requires forall j :: 0 <= j < |a| - 1 ==> (x[j] % 2 == 0 <==> a[j] % 2 == b[j] % 2)
    ensures Xor(a[i], b[i], |a| - 1 - i) == x[i]
    decreases |a| - i
  {
    if i < |a| - 1 {
      XorFrom(a, b, x, i + 1);
      XorStep(a[i], b[i], |a| - 1 - i, x[i]);
    }
  }

  lemma ProductVector(hash: nat)
    requires hash == 0xcbf29ce484222325
    ensures (hash / 256 * 256 + 0x44) * PRIME % MODULUS == 0xaf63dc4c8601ec8c && hash % 256 == 0x25
  {
  }

  lemma MixVector(hash: nat, b: Byte)
    requires hash == 0xcbf29ce484222325 && b == 0x61
    ensures Mix(hash, b) == 0xaf63dc4c8601ec8c
  {
    XorVector([0x25, 0x12, 0x9, 0x4, 0x2, 0x1, 0, 0, 0], [0x61, 0x30, 0x18, 0xc, 0x6, 0x3, 0x1, 0, 0],
              [0x44, 0x22, 0x11, 0x8, 0x4, 0x2, 0x1, 0, 0]);
    ProductVector(hash);
    MixIs(hash, b, 0x44);
  }

  /** The published values: of nothing, and of "a". */
  lemma TestVectors(data: seq<Byte>)
    ensures data == [] ==> Checksum(data) == 0xcbf29ce484222325
    ensures |data| == 1 && data[0] == 0x61 ==> Checksum(data) == 0xaf63dc4c8601ec8c
  {
    if |data| == 1 && data[0] == 0x61 {
      FromSnoc(OFFSET_BASIS, data[..0], data[0]);
      assert data == data[..0] + [data[0]];
      MixVector(OFFSET_BASIS, data[0]);
    }
  }
}
