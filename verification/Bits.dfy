/**
 Bit strings, most significant bit first: the neutral ground on which the byte view and the
 sextet view of the same data meet.  Section 4 of RFC 4648 describes base64 as regrouping
 such a string, and the specification in Base64Spec says exactly that; nothing here shifts or masks
 a 24-bit group.
 */
module Bits {

  type byte = bv8
  type sextet = bv6

  /** Bit i of a byte, counted from the most significant one. */
  predicate ByteBit(b: byte, i: nat)
    requires i < 8
  {
    if i == 0 then b & 0x80 != 0 else if i == 1 then b & 0x40 != 0
    else if i == 2 then b & 0x20 != 0 else if i == 3 then b & 0x10 != 0
    else if i == 4 then b & 8 != 0 else if i == 5 then b & 4 != 0
    else if i == 6 then b & 2 != 0 else b & 1 != 0
  }

  predicate SextetBit(v: sextet, i: nat)
    requires i < 6
  {
    if i == 0 then v & 0x20 != 0 else if i == 1 then v & 0x10 != 0
    else if i == 2 then v & 8 != 0 else if i == 3 then v & 4 != 0
    else if i == 4 then v & 2 != 0 else v & 1 != 0
  }

  function ByteBits(b: byte): (r: seq<bool>)
    ensures |r| == 8
  {
    seq(8, i requires 0 <= i < 8 => ByteBit(b, i))
  }

  function SextetBits(v: sextet): (r: seq<bool>)
    ensures |r| == 6
  {
    seq(6, i requires 0 <= i < 6 => SextetBit(v, i))
  }

  /** The byte with the given bits. */
  ghost function BitsToByte(r: seq<bool>): (b: byte)
    requires |r| == 8
    ensures ByteBits(b) == r
  {
    ByteWithBits(r);
    var b: byte :| ByteBits(b) == r; b
  }

  ghost function BitsToSextet(r: seq<bool>): (v: sextet)
    requires |r| == 6
    ensures SextetBits(v) == r
  {
    SextetWithBits(r);
    var v: sextet :| SextetBits(v) == r; v
  }

  lemma ByteWithBits(r: seq<bool>)
    requires |r| == 8
    ensures exists b: byte :: ByteBits(b) == r
  {
    var b := ByteOf(r[0], r[1], r[2], r[3], r[4], r[5], r[6], r[7]);
    assert ByteBits(b) == r;
  }

  lemma SextetWithBits(r: seq<bool>)
    requires |r| == 6
    ensures exists v: sextet :: SextetBits(v) == r
  {
    var v := SextetOf(r[0], r[1], r[2], r[3], r[4], r[5]);
    assert SextetBits(v) == r;
  }

  function ByteOf(r0: bool, r1: bool, r2: bool, r3: bool, r4: bool, r5: bool, r6: bool, r7: bool): (b: byte)
    ensures ByteBit(b, 0) == r0 && ByteBit(b, 1) == r1 && ByteBit(b, 2) == r2 && ByteBit(b, 3) == r3
    ensures ByteBit(b, 4) == r4 && ByteBit(b, 5) == r5 && ByteBit(b, 6) == r6 && ByteBit(b, 7) == r7
  {
    (if r0 then 0x80 else 0) | (if r1 then 0x40 else 0) | (if r2 then 0x20 else 0) | (if r3 then 0x10 else 0) |
    (if r4 then 8 else 0) | (if r5 then 4 else 0) | (if r6 then 2 else 0) | (if r7 then 1 else 0)
  }

  function SextetOf(r0: bool, r1: bool, r2: bool, r3: bool, r4: bool, r5: bool): (v: sextet)
    ensures SextetBit(v, 0) == r0 && SextetBit(v, 1) == r1 && SextetBit(v, 2) == r2
    ensures SextetBit(v, 3) == r3 && SextetBit(v, 4) == r4 && SextetBit(v, 5) == r5
  {
    (if r0 then 0x20 else 0) | (if r1 then 0x10 else 0) | (if r2 then 8 else 0) |
    (if r3 then 4 else 0) | (if r4 then 2 else 0) | (if r5 then 1 else 0)
  }

  function Zeros(n: nat): (r: seq<bool>)
    ensures |r| == n
    ensures forall i :: 0 <= i < n ==> !r[i]
  {
    seq(n, _ => false)
  }

  function ZeroOctets(n: nat): (d: seq<byte>)
    ensures |d| == n
  {
    seq(n, _ => 0)
  }

  function ZeroSextets(n: nat): (v: seq<sextet>)
    ensures |v| == n
  {
    seq(n, _ => 0)
  }

  /** All the bits of a byte string. */
  function OfBytes(d: seq<byte>): (r: seq<bool>)
    ensures |r| == 8 * |d|
  {
    if d == [] then [] else ByteBits(d[0]) + OfBytes(d[1..])
  }

  /** All the bits of a string of sextets. */
  function OfSextets(v: seq<sextet>): (r: seq<bool>)
    ensures |r| == 6 * |v|
  {
    if v == [] then [] else SextetBits(v[0]) + OfSextets(v[1..])
  }

  /** The whole bytes of a bit string, from the front; a shorter rest is dropped. */
  ghost function ToBytes(r: seq<bool>): (d: seq<byte>)
    ensures 8 * |d| <= |r| < 8 * |d| + 8
  {
    if |r| < 8 then [] else [BitsToByte(r[..8])] + ToBytes(r[8..])
  }

  /** The whole sextets of a bit string, from the front; a shorter rest is dropped. */
  ghost function ToSextets(r: seq<bool>): (v: seq<sextet>)
    ensures 6 * |v| <= |r| < 6 * |v| + 6
  {
    if |r| < 6 then [] else [BitsToSextet(r[..6])] + ToSextets(r[6..])
  }

  // ---- one symbol ----

  lemma ByteBitsInjective(b: byte, b': byte)
    requires ByteBits(b) == ByteBits(b')
    ensures b == b'
  {
    var r, r' := ByteBits(b), ByteBits(b');
    assert r[0] == r'[0] && r[1] == r'[1] && r[2] == r'[2] && r[3] == r'[3];
    assert r[4] == r'[4] && r[5] == r'[5] && r[6] == r'[6] && r[7] == r'[7];
  }

  lemma SextetBitsInjective(v: sextet, v': sextet)
    requires SextetBits(v) == SextetBits(v')
    ensures v == v'
  {
    var r, r' := SextetBits(v), SextetBits(v');
    assert r[0] == r'[0] && r[1] == r'[1] && r[2] == r'[2];
    assert r[3] == r'[3] && r[4] == r'[4] && r[5] == r'[5];
  }

  // ---- concatenation ----

  lemma {:induction false} OfBytesAppend(a: seq<byte>, b: seq<byte>)
    ensures OfBytes(a + b) == OfBytes(a) + OfBytes(b)
  {
    if a == [] {
      assert a + b == b;
    } else {
      assert (a + b)[1..] == a[1..] + b;
      OfBytesAppend(a[1..], b);
    }
  }

  lemma {:induction false} OfSextetsAppend(a: seq<sextet>, b: seq<sextet>)
    ensures OfSextets(a + b) == OfSextets(a) + OfSextets(b)
  {
    if a == [] {
      assert a + b == b;
    } else {
      assert (a + b)[1..] == a[1..] + b;
      OfSextetsAppend(a[1..], b);
    }
  }

  lemma {:induction false} ToBytesAppend(k: nat, x: seq<bool>, y: seq<bool>)
    requires |x| == 8 * k
    ensures ToBytes(x + y) == ToBytes(x) + ToBytes(y)
  {
    if x == [] {
      assert x + y == y;
    } else {
      assert (x + y)[..8] == x[..8] && (x + y)[8..] == x[8..] + y;
      ToBytesAppend(k - 1, x[8..], y);
    }
  }

  lemma {:induction false} ToSextetsAppend(k: nat, x: seq<bool>, y: seq<bool>)
    requires |x| == 6 * k
    ensures ToSextets(x + y) == ToSextets(x) + ToSextets(y)
  {
    if x == [] {
      assert x + y == y;
    } else {
      assert (x + y)[..6] == x[..6] && (x + y)[6..] == x[6..] + y;
      ToSextetsAppend(k - 1, x[6..], y);
    }
  }

  // ---- regrouping loses nothing ----

  lemma {:induction false} BytesRoundTrip(d: seq<byte>)
    ensures ToBytes(OfBytes(d)) == d
  {
    if d != [] {
      ByteBitsInjective(BitsToByte(ByteBits(d[0])), d[0]);
      assert OfBytes(d)[..8] == ByteBits(d[0]) && OfBytes(d)[8..] == OfBytes(d[1..]);
      BytesRoundTrip(d[1..]);
    }
  }

  lemma {:induction false} SextetsRoundTrip(v: seq<sextet>)
    ensures ToSextets(OfSextets(v)) == v
  {
    if v != [] {
      SextetBitsInjective(BitsToSextet(SextetBits(v[0])), v[0]);
      assert OfSextets(v)[..6] == SextetBits(v[0]) && OfSextets(v)[6..] == OfSextets(v[1..]);
      SextetsRoundTrip(v[1..]);
    }
  }

  lemma {:induction false} BitsThroughBytes(k: nat, r: seq<bool>)
    requires |r| == 8 * k
    ensures OfBytes(ToBytes(r)) == r
  {
    if r != [] {
      BitsThroughBytes(k - 1, r[8..]);
      assert ToBytes(r)[1..] == ToBytes(r[8..]);
      assert r == r[..8] + r[8..];
    }
  }

  lemma {:induction false} BitsThroughSextets(k: nat, r: seq<bool>)
    requires |r| == 6 * k
    ensures OfSextets(ToSextets(r)) == r
  {
    if r != [] {
      BitsThroughSextets(k - 1, r[6..]);
      assert ToSextets(r)[1..] == ToSextets(r[6..]);
      assert r == r[..6] + r[6..];
    }
  }

  // ---- derived facts, stated on plain bit strings so that clients need no sequence algebra ----

  lemma ZerosAppend(x: seq<bool>, m: nat, n: nat)
    ensures (x + Zeros(m)) + Zeros(n) == x + Zeros(m + n)
  {
  }

  lemma NoZeros(x: seq<bool>)
    ensures x + Zeros(0) == x
  {
  }

  /** The sextets of x, which is whole, come out before those of y and t. */
  lemma ToSextetsSplit(k: nat, x: seq<bool>, y: seq<bool>, t: seq<bool>)
    requires |x| == 6 * k
    ensures ToSextets((x + y) + t) == ToSextets(x) + ToSextets(y + t)
  {
    assert (x + y) + t == x + (y + t);
    ToSextetsAppend(k, x, y + t);
  }

  /** The first n bytes depend only on the first 8n bits. */
  lemma ToBytesPrefix(n: nat, m: nat, x: seq<bool>, y: seq<bool>)
    requires m == 8 * n <= |x|
    ensures |ToBytes(x + y)| >= n
    ensures ToBytes(x + y)[..n] == ToBytes(x[..m])
    ensures OfBytes(ToBytes(x + y)[..n]) == x[..m]
  {
    assert x + y == x[..m] + (x[m..] + y);
    ToBytesAppend(n, x[..m], x[m..] + y);
    BitsThroughBytes(n, x[..m]);
  }

  /** Taking n more bytes after k whole ones. */
  lemma ToBytesTake(k: nat, x: seq<bool>, y: seq<bool>, n: nat)
    requires |x| == 8 * k && 8 * n <= |y|
    ensures |ToBytes(x + y)| >= k + n
    ensures ToBytes(x + y)[..k + n] == ToBytes(x) + ToBytes(y)[..n]
  {
    ToBytesAppend(k, x, y);
  }

  /** Refilling the end of a bit string with zeros gives its sextets back iff it ended in zeros. */
  lemma RefillWithZeros(v: seq<sextet>, fill: nat)
    requires fill <= 6 * |v|
    ensures ToSextets(OfSextets(v)[..6 * |v| - fill] + Zeros(fill)) == v
            <==> OfSextets(v)[6 * |v| - fill..] == Zeros(fill)
  {
    var bits, keep := OfSextets(v), 6 * |v| - fill;
    var refilled := bits[..keep] + Zeros(fill);
    assert bits == bits[..keep] + bits[keep..];
    assert refilled[keep..] == Zeros(fill);
    BitsThroughSextets(|v|, refilled);
    SextetsRoundTrip(v);
  }

  lemma {:induction false} LastSextet(v: seq<sextet>, drop: nat)
    requires v != [] && drop <= 6
    ensures OfSextets(v)[6 * |v| - drop..] == SextetBits(v[|v| - 1])[6 - drop..]
  {
    if |v| == 1 {
      assert OfSextets(v) == SextetBits(v[0]);
    } else {
      LastSextet(v[1..], drop);
      DropInto(SextetBits(v[0]), OfSextets(v[1..]), 6 * |v[1..]| - drop);
    }
  }

  /** Whether a string of sextets ends in zero bits is decided by its last sextet. */
  lemma ZeroEndIsLocal(v: seq<sextet>, pad: nat)
    requires v != [] && pad <= 2
    ensures OfSextets(v)[6 * |v| - 2 * pad..] == Zeros(2 * pad)
            <==> SextetBits(v[|v| - 1])[6 - 2 * pad..] == Zeros(2 * pad)
  {
    LastSextet(v, 2 * pad);
  }

  lemma DropInto(x: seq<bool>, y: seq<bool>, n: nat)
    requires n <= |y|
    ensures (x + y)[|x| + n..] == y[n..]
  {
  }

  lemma {:induction false} ZeroOctetsBits(n: nat)
    ensures OfBytes(ZeroOctets(n)) == Zeros(8 * n)
  {
    if n > 0 {
      ZeroOctetsBits(n - 1);
      assert ZeroOctets(n)[1..] == ZeroOctets(n - 1);
    }
  }

  lemma {:induction false} ZeroSextetsBits(n: nat)
    ensures OfSextets(ZeroSextets(n)) == Zeros(6 * n)
  {
    if n > 0 {
      ZeroSextetsBits(n - 1);
      assert ZeroSextets(n)[1..] == ZeroSextets(n - 1);
    }
  }

  lemma FilledBits(d: seq<byte>, p: nat)
    ensures OfBytes(d + ZeroOctets(p)) == (OfBytes(d) + Zeros(2 * p)) + Zeros(6 * p)
  {
    OfBytesAppend(d, ZeroOctets(p));
    ZeroOctetsBits(p);
    ZerosAppend(OfBytes(d), 2 * p, 6 * p);
  }

  lemma MoreZeroSextets(v: seq<sextet>, bits: seq<bool>, p: nat)
    requires OfSextets(v) == bits + Zeros(2 * p)
    ensures OfSextets(v + ZeroSextets(p)) == bits + Zeros(8 * p)
  {
    OfSextetsAppend(v, ZeroSextets(p));
    ZeroSextetsBits(p);
    ZerosAppend(bits, 2 * p, 6 * p);
  }

  lemma BytesThenRest(d: seq<byte>, rest: seq<bool>)
    ensures |ToBytes(OfBytes(d) + rest)| >= |d|
    ensures ToBytes(OfBytes(d) + rest)[..|d|] == d
  {
    ToBytesTake(|d|, OfBytes(d), rest, 0);
    BytesRoundTrip(d);
  }
}
