/**
 base64.c: the encoder and decoder over arrays, with the shifts, masks and guarded writes of
 the source, and the decoding table that the first decode builds.
 */
module Base64 {
  import opened Bits
  import opened Options
  import Spec = Base64Spec

  const TABLE_FRONT: string := "ABCDEFGH" + "IJKLMNOP" + "QRSTUVWX" + "YZabcdef"
  const TABLE_BACK: string := "ghijklmn" + "opqrstuv" + "wxyz0123" + "456789+/"
  const ENCODING_TABLE: string := TABLE_FRONT + TABLE_BACK

  const MOD_TABLE: seq<nat> := [0, 2, 1]

  lemma TableFront(i: nat)
    requires i < 32
    ensures |TABLE_FRONT| == 32 && TABLE_FRONT[i] == Spec.Symbol(i as sextet)
  {
    if i < 8 { assert TABLE_FRONT[i] == "ABCDEFGH"[i]; }
    else if i < 16 { assert TABLE_FRONT[i] == "IJKLMNOP"[i - 8]; }
    else if i < 24 { assert TABLE_FRONT[i] == "QRSTUVWX"[i - 16]; }
    else { assert TABLE_FRONT[i] == "YZabcdef"[i - 24]; }
  }

  lemma TableBack(i: nat)
    requires 32 <= i < 64
    ensures |TABLE_BACK| == 32 && TABLE_BACK[i - 32] == Spec.Symbol(i as sextet)
  {
    if i < 40 { assert TABLE_BACK[i - 32] == "ghijklmn"[i - 32]; }
    else if i < 48 { assert TABLE_BACK[i - 32] == "opqrstuv"[i - 40]; }
    else if i < 56 { assert TABLE_BACK[i - 32] == "wxyz0123"[i - 48]; }
    else { assert TABLE_BACK[i - 32] == "456789+/"[i - 56]; }
  }

  /** The source's table is Table 1 of RFC 4648. */
  lemma TableIsAlphabet(i: nat)
    requires i < 64
    ensures |ENCODING_TABLE| == 64 && ENCODING_TABLE[i] == Spec.Symbol(i as sextet)
  {
    assert |TABLE_FRONT| == |TABLE_BACK| == 32;
    if i < 32 { TableFront(i); } else { TableBack(i); }
  }

  // ---- 24-bit groups ----

  function OctetTriple(a: byte, b: byte, c: byte): bv32 {
    ((a as bv32) << 0x10) + ((b as bv32) << 0x08) + (c as bv32)
  }

  function SextetTriple(a: sextet, b: sextet, c: sextet, d: sextet): bv32 {
    ((a as bv32) << 18) + ((b as bv32) << 12) + ((c as bv32) << 6) + ((d as bv32) << 0)
  }

  function EncodeGroup(a: byte, b: byte, c: byte): (r: seq<sextet>)
    ensures |r| == 4
  {
    var t := OctetTriple(a, b, c);
    [((t >> 18) & 0x3F) as sextet, ((t >> 12) & 0x3F) as sextet,
     ((t >> 6) & 0x3F) as sextet, ((t >> 0) & 0x3F) as sextet]
  }

  function DecodeGroup(a: sextet, b: sextet, c: sextet, d: sextet): (r: seq<byte>)
    ensures |r| == 3
  {
    var t := SextetTriple(a, b, c, d);
    [((t >> 16) & 0xFF) as byte, ((t >> 8) & 0xFF) as byte, ((t >> 0) & 0xFF) as byte]
  }

  lemma TripleSextets(a: byte, b: byte, c: byte)
    ensures var t := OctetTriple(a, b, c);
            && ((t >> 18) & 0x3F) as sextet == (a >> 2) as sextet
            && ((t >> 12) & 0x3F) as sextet == ((a & 3) as sextet << 4) | (b >> 4) as sextet
            && ((t >> 6) & 0x3F) as sextet == ((b & 15) as sextet << 2) | (c >> 6) as sextet
            && ((t >> 0) & 0x3F) as sextet == (c & 0x3F) as sextet
  {
  }

  lemma TripleOctets(a: sextet, b: sextet, c: sextet, d: sextet)
    ensures var t := SextetTriple(a, b, c, d);
            && ((t >> 16) & 0xFF) as byte == ((a as byte) << 2) | (b >> 4) as byte
            && ((t >> 8) & 0xFF) as byte == ((b & 15) as byte << 4) | (c >> 2) as byte
            && ((t >> 0) & 0xFF) as byte == ((c & 3) as byte << 6) | d as byte
  {
  }

  lemma FrontSextet(a: byte)
    ensures SextetBits((a >> 2) as sextet) == ByteBits(a)[..6]
  {
  }

  lemma SecondSextet(a: byte, b: byte)
    ensures SextetBits(((a & 3) as sextet << 4) | (b >> 4) as sextet) == ByteBits(a)[6..] + ByteBits(b)[..4]
  {
    var x, r := ((a & 3) as sextet << 4) | (b >> 4) as sextet, ByteBits(a)[6..] + ByteBits(b)[..4];
    assert r[0] == ByteBit(a, 6) && r[1] == ByteBit(a, 7) && r[2] == ByteBit(b, 0);
    assert r[3] == ByteBit(b, 1) && r[4] == ByteBit(b, 2) && r[5] == ByteBit(b, 3);
    SextetFromBits(x, r);
  }

  lemma ThirdSextet(b: byte, c: byte)
    ensures SextetBits(((b & 15) as sextet << 2) | (c >> 6) as sextet) == ByteBits(b)[4..] + ByteBits(c)[..2]
  {
    var x, r := ((b & 15) as sextet << 2) | (c >> 6) as sextet, ByteBits(b)[4..] + ByteBits(c)[..2];
    assert r[0] == ByteBit(b, 4) && r[1] == ByteBit(b, 5) && r[2] == ByteBit(b, 6);
    assert r[3] == ByteBit(b, 7) && r[4] == ByteBit(c, 0) && r[5] == ByteBit(c, 1);
    SextetFromBits(x, r);
  }

  lemma SextetFromBits(x: sextet, r: seq<bool>)
    requires |r| == 6
    requires r[0] == SextetBit(x, 0) && r[1] == SextetBit(x, 1) && r[2] == SextetBit(x, 2)
    requires r[3] == SextetBit(x, 3) && r[4] == SextetBit(x, 4) && r[5] == SextetBit(x, 5)
    ensures SextetBits(x) == r
  {
  }

  lemma LastSextetOfGroup(c: byte)
    ensures SextetBits((c & 0x3F) as sextet) == ByteBits(c)[2..]
  {
  }

  lemma OctetFromBits(x: byte, r: seq<bool>)
    requires |r| == 8
    requires r[0] == ByteBit(x, 0) && r[1] == ByteBit(x, 1) && r[2] == ByteBit(x, 2) && r[3] == ByteBit(x, 3)
    requires r[4] == ByteBit(x, 4) && r[5] == ByteBit(x, 5) && r[6] == ByteBit(x, 6) && r[7] == ByteBit(x, 7)
    ensures ByteBits(x) == r
  {
  }

  lemma FirstOctet(a: sextet, b: sextet)
    ensures ByteBits(((a as byte) << 2) | (b >> 4) as byte) == SextetBits(a) + SextetBits(b)[..2]
  {
    var r := SextetBits(a) + SextetBits(b)[..2];
    assert r[0] == SextetBit(a, 0) && r[1] == SextetBit(a, 1) && r[2] == SextetBit(a, 2) && r[3] == SextetBit(a, 3);
    assert r[4] == SextetBit(a, 4) && r[5] == SextetBit(a, 5) && r[6] == SextetBit(b, 0) && r[7] == SextetBit(b, 1);
    OctetFromBits(((a as byte) << 2) | (b >> 4) as byte, r);
  }

  lemma SecondOctet(b: sextet, c: sextet)
    ensures ByteBits(((b & 15) as byte << 4) | (c >> 2) as byte) == SextetBits(b)[2..] + SextetBits(c)[..4]
  {
    var r := SextetBits(b)[2..] + SextetBits(c)[..4];
    assert r[0] == SextetBit(b, 2) && r[1] == SextetBit(b, 3) && r[2] == SextetBit(b, 4) && r[3] == SextetBit(b, 5);
    assert r[4] == SextetBit(c, 0) && r[5] == SextetBit(c, 1) && r[6] == SextetBit(c, 2) && r[7] == SextetBit(c, 3);
    OctetFromBits(((b & 15) as byte << 4) | (c >> 2) as byte, r);
  }

  lemma ThirdOctet(c: sextet, d: sextet)
    ensures ByteBits(((c & 3) as byte << 6) | d as byte) == SextetBits(c)[4..] + SextetBits(d)
  {
    var r := SextetBits(c)[4..] + SextetBits(d);
    assert r[0] == SextetBit(c, 4) && r[1] == SextetBit(c, 5) && r[2] == SextetBit(d, 0) && r[3] == SextetBit(d, 1);
    assert r[4] == SextetBit(d, 2) && r[5] == SextetBit(d, 3) && r[6] == SextetBit(d, 4) && r[7] == SextetBit(d, 5);
    OctetFromBits(((c & 3) as byte << 6) | d as byte, r);
  }

  lemma OfThreeBytes(a: byte, b: byte, c: byte)
    ensures OfBytes([a, b, c]) == ByteBits(a) + ByteBits(b) + ByteBits(c)
  {
    assert [a, b, c] == ([a] + [b]) + [c];
    OfBytesAppend([a] + [b], [c]);
    OfBytesAppend([a], [b]);
    OfOneByte(a);
    OfOneByte(b);
    OfOneByte(c);
  }

  lemma OfOneByte(a: byte)
    ensures OfBytes([a]) == ByteBits(a)
  {
    assert [a][1..] == [];
  }

  lemma OfFourSextets(a: sextet, b: sextet, c: sextet, d: sextet)
    ensures OfSextets([a, b, c, d]) == SextetBits(a) + SextetBits(b) + SextetBits(c) + SextetBits(d)
  {
    assert [a, b, c, d] == (([a] + [b]) + [c]) + [d];
    OfSextetsAppend(([a] + [b]) + [c], [d]);
    OfSextetsAppend([a] + [b], [c]);
    OfSextetsAppend([a], [b]);
    OfOneSextet(a);
    OfOneSextet(b);
    OfOneSextet(c);
    OfOneSextet(d);
  }

  lemma OfOneSextet(a: sextet)
    ensures OfSextets([a]) == SextetBits(a)
  {
    assert [a][1..] == [];
  }

  lemma CutInSixes(x: seq<bool>, y: seq<bool>, z: seq<bool>)
    requires |x| == |y| == |z| == 8
    ensures x[..6] + (x[6..] + y[..4]) + (y[4..] + z[..2]) + z[2..] == x + y + z
  {
  }

  lemma CutInEights(w: seq<bool>, x: seq<bool>, y: seq<bool>, z: seq<bool>)
    requires |w| == |x| == |y| == |z| == 6
    ensures (w + x[..2]) + (x[2..] + y[..4]) + (y[4..] + z) == w + x + y + z
  {
  }

  /** The shifts and masks of one group regroup its 24 bits. */
  lemma EncodeGroupRegroups(a: byte, b: byte, c: byte)
    ensures OfSextets(EncodeGroup(a, b, c)) == OfBytes([a, b, c])
  {
    TripleSextets(a, b, c);
    FrontSextet(a);
    SecondSextet(a, b);
    ThirdSextet(b, c);
    LastSextetOfGroup(c);
    CutInSixes(ByteBits(a), ByteBits(b), ByteBits(c));
    OfThreeBytes(a, b, c);
    var g := EncodeGroup(a, b, c);
    OfFourSextets(g[0], g[1], g[2], g[3]);
  }

  lemma DecodeGroupRegroups(a: sextet, b: sextet, c: sextet, d: sextet)
    ensures OfBytes(DecodeGroup(a, b, c, d)) == OfSextets([a, b, c, d])
  {
    TripleOctets(a, b, c, d);
    FirstOctet(a, b);
    SecondOctet(b, c);
    ThirdOctet(c, d);
    CutInEights(SextetBits(a), SextetBits(b), SextetBits(c), SextetBits(d));
    OfFourSextets(a, b, c, d);
    var g := DecodeGroup(a, b, c, d);
    OfThreeBytes(g[0], g[1], g[2]);
  }

  // ---- runs of groups ----

  /** What the encoder's main loop has produced after g groups. */
  function EncodeGroups(d: seq<byte>, g: nat): (v: seq<sextet>)
    requires 3 * g <= |d|
    ensures |v| == 4 * g
  {
    if g == 0 then [] else EncodeGroups(d, g - 1) + EncodeGroup(d[3 * g - 3], d[3 * g - 2], d[3 * g - 1])
  }

  /** What the decoder's loop would produce from g groups without its guards. */
  function DecodeGroups(v: seq<sextet>, g: nat): (d: seq<byte>)
    requires 4 * g <= |v|
    ensures |d| == 3 * g
  {
    if g == 0 then [] else DecodeGroups(v, g - 1) + DecodeGroup(v[4 * g - 4], v[4 * g - 3], v[4 * g - 2], v[4 * g - 1])
  }

  lemma {:induction false} EncodeGroupsBits(d: seq<byte>, g: nat)
    requires 3 * g <= |d|
    ensures OfSextets(EncodeGroups(d, g)) == OfBytes(d[..3 * g])
  {
    if g > 0 {
      EncodeGroupsBits(d, g - 1);
      var a, b, c := d[3 * g - 3], d[3 * g - 2], d[3 * g - 1];
      OfSextetsAppend(EncodeGroups(d, g - 1), EncodeGroup(a, b, c));
      EncodeGroupRegroups(a, b, c);
      assert d[..3 * g] == d[..3 * g - 3] + [a, b, c];
      OfBytesAppend(d[..3 * g - 3], [a, b, c]);
    }
  }

  lemma {:induction false} DecodeGroupsBits(v: seq<sextet>, g: nat)
    requires 4 * g <= |v|
    ensures OfBytes(DecodeGroups(v, g)) == OfSextets(v[..4 * g])
  {
    if g > 0 {
      DecodeGroupsBits(v, g - 1);
      var a, b, c, d := v[4 * g - 4], v[4 * g - 3], v[4 * g - 2], v[4 * g - 1];
      OfBytesAppend(DecodeGroups(v, g - 1), DecodeGroup(a, b, c, d));
      DecodeGroupRegroups(a, b, c, d);
      assert v[..4 * g] == v[..4 * g - 4] + [a, b, c, d];
      OfSextetsAppend(v[..4 * g - 4], [a, b, c, d]);
    }
  }

  /** After the last group the main loop has written the sextets of the zero-filled data. */
  lemma EncodeGroupsAll(d: seq<byte>, g: nat)
    requires |d| == 3 * g
    ensures EncodeGroups(d, g) == ToSextets(OfBytes(d))
  {
    assert d[..3 * g] == d;
    EncodeGroupsBits(d, g);
    SextetsRoundTrip(EncodeGroups(d, g));
  }

  lemma DecodeGroupsAll(v: seq<sextet>, g: nat)
    requires |v| == 4 * g
    ensures DecodeGroups(v, g) == ToBytes(OfSextets(v))
  {
    assert v[..4 * g] == v;
    DecodeGroupsBits(v, g);
    BytesRoundTrip(DecodeGroups(v, g));
  }

  /** encoding_table[x & 0x3F] */
  method Lookup(x: bv32) returns (c: char)
    ensures c == Spec.Symbol((x & 0x3F) as sextet)
  {
    TableIsAlphabet((x & 0x3F) as int);
    c := ENCODING_TABLE[(x & 0x3F) as int];
  }

  /** i < input_length ? data[i++] : 0 */
  method NextOctet(data: array<byte>, inputLength: nat, i: nat) returns (octet: byte, next: nat)
    requires i <= inputLength <= data.Length
    ensures octet == if i < inputLength then data[i] else 0
    ensures next == if i < inputLength then i + 1 else i
  {
    if i < inputLength {
      octet, next := data[i], i + 1;
    } else {
      octet, next := 0, i;
    }
  }

  lemma NextGroupSymbols(z: seq<byte>, g: nat)
    requires 3 * g + 3 <= |z|
    ensures Spec.Symbols(EncodeGroups(z, g + 1))
            == Spec.Symbols(EncodeGroups(z, g)) + Spec.Symbols(EncodeGroup(z[3 * g], z[3 * g + 1], z[3 * g + 2]))
  {
  }

  /** What the main loop leaves behind, with its tail rewritten, is the encoding. */
  lemma MainLoopThenPadding(d: seq<byte>, z: seq<byte>)
    requires z == d + ZeroOctets(Spec.Padding(|d|))
    ensures |z| == 3 * Spec.Groups(|d|) && 4 * Spec.Groups(|d|) >= Spec.Padding(|d|)
    ensures Spec.Overwrite(Spec.Symbols(EncodeGroups(z, Spec.Groups(|d|))), Spec.Padding(|d|)) == Spec.Encode(d)
  {
    EncodeGroupsAll(z, Spec.Groups(|d|));
    Spec.EncodeByOverwriting(d, z);
  }

  /** One 24-bit group, four writes. */
  method PutGroup(encoded: array<char>, start: nat, octetA: byte, octetB: byte, octetC: byte)
    requires start + 4 <= encoded.Length
    modifies encoded
    ensures encoded[..start + 4] == old(encoded[..start]) + Spec.Symbols(EncodeGroup(octetA, octetB, octetC))
  {
    var triple := ((octetA as bv32) << 0x10) + ((octetB as bv32) << 0x08) + (octetC as bv32);
    var c := Lookup(triple >> 18);
    encoded[start] := c;
    c := Lookup(triple >> 12);
    encoded[start + 1] := c;
    c := Lookup(triple >> 6);
    encoded[start + 2] := c;
    c := Lookup(triple >> 0);
    encoded[start + 3] := c;
  }

  /** z is the data with the absent octets of its last group read as zero. */
  ghost predicate ZeroFilled(data: array<byte>, inputLength: nat, z: seq<byte>)
    reads data
  {
    && inputLength <= data.Length
    && |z| == 3 * Spec.Groups(inputLength)
    && forall k :: 0 <= k < |z| ==> z[k] == if k < inputLength then data[k] else 0
  }

  /** The encoder's main loop body. */
  method PutNextOctets(data: array<byte>, inputLength: nat, i: nat, encoded: array<char>, j: nat,
                       ghost z: seq<byte>, ghost g: nat)
    returns (next: nat)
    requires ZeroFilled(data, inputLength, z) && data as object != encoded
    requires i == 3 * g < inputLength && j == 4 * g && j + 4 <= encoded.Length
    requires encoded[..j] == Spec.Symbols(EncodeGroups(z, g))
    modifies encoded
    ensures next == if i + 3 <= inputLength then i + 3 else inputLength
    ensures 3 * g + 3 <= |z| && encoded[..j + 4] == Spec.Symbols(EncodeGroups(z, g + 1))
  {
    var octetA, octetB, octetC;
    octetA, next := NextOctet(data, inputLength, i);
    octetB, next := NextOctet(data, inputLength, next);
    octetC, next := NextOctet(data, inputLength, next);
    assert octetA == z[3 * g] && octetB == z[3 * g + 1] && octetC == z[3 * g + 2];
    NextGroupSymbols(z, g);
    PutGroup(encoded, j, octetA, octetB, octetC);
  }

  /** The encoder's second loop: it rewrites the last cells of an array the first loop has filled. */
  method PutPadding(encoded: array<char>, count: nat)
    requires count <= encoded.Length
    modifies encoded
    ensures encoded[..] == Spec.Overwrite(old(encoded[..]), count)
  {
    var i := 0;
    while i < count
      invariant i <= count
      invariant encoded[..encoded.Length - i] == old(encoded[..])[..encoded.Length - i]
      invariant forall k :: encoded.Length - i <= k < encoded.Length ==> encoded[k] == Spec.PAD
    {
      encoded[encoded.Length - 1 - i] := '=';
      i := i + 1;
    }
  }

  /** The encoder's first loop. */
  method PutGroups(data: array<byte>, inputLength: nat, encoded: array<char>, ghost z: seq<byte>)
    requires ZeroFilled(data, inputLength, z) && data as object != encoded
    requires encoded.Length == 4 * Spec.Groups(inputLength)
    modifies encoded
    ensures encoded[..] == Spec.Symbols(EncodeGroups(z, Spec.Groups(inputLength)))
  {
    ghost var g := 0;
    var i, j := 0, 0;
    while i < inputLength
      invariant j == 4 * g && g <= Spec.Groups(inputLength)
      invariant i == if g < Spec.Groups(inputLength) then 3 * g else inputLength
      invariant encoded[..j] == Spec.Symbols(EncodeGroups(z, g))
    {
      i := PutNextOctets(data, inputLength, i, encoded, j, z, g);
      j := j + 4;
      g := g + 1;
    }
    assert encoded[..] == encoded[..j];
  }

  /** base64_encode.  The output length is the length of the returned array. */
  method Encode(data: array<byte>, inputLength: nat) returns (encoded: array<char>)
    requires inputLength <= data.Length
    requires Spec.EncodedLength(inputLength) <= 0x7FFF_FFFF
    ensures fresh(encoded) && encoded[..] == Spec.Encode(data[..inputLength])
  {
    var outputLength := 4 * ((inputLength + 2) / 3);
    encoded := new char[outputLength];
    ghost var d := data[..inputLength];
    ghost var z := d + ZeroOctets(Spec.Padding(inputLength));
    Spec.SourceLengths(inputLength);
    MainLoopThenPadding(d, z);
    PutGroups(data, inputLength, encoded, z);
    PutPadding(encoded, MOD_TABLE[inputLength % 3]);
  }

  // ---- decoding ----

  /** The table read as a function inverts the alphabet; its other 192 cells are never set. */
  ghost predicate Inverts(table: seq<byte>) {
    InvertsUpTo(table, 64)
  }

  /** encoding_table[i] */
  method TableSymbol(i: nat) returns (c: char)
    requires i < 64
    ensures c == Spec.Symbol(i as sextet) && 0 < c as int < 128
  {
    TableIsAlphabet(i);
    Spec.Alphabet(i as sextet);
    c := ENCODING_TABLE[i];
  }

  /** The first i entries are in place. */
  ghost predicate InvertsUpTo(table: seq<byte>, i: nat) {
    && |table| == 256
    && forall v: sextet :: v as int < i ==> Spec.Symbol(v) as int < 256 && table[Spec.Symbol(v) as int] == v as byte
  }

  lemma InvertsNext(table: seq<byte>, i: nat)
    requires i < 64 && InvertsUpTo(table, i)
    requires Spec.Symbol(i as sextet) as int < 256
    ensures InvertsUpTo(table[Spec.Symbol(i as sextet) as int := i as byte], i + 1)
  {
    forall v: sextet | v as int < i ensures Spec.Symbol(v) != Spec.Symbol(i as sextet) {
      Spec.SymbolInjective(v, i as sextet);
    }
  }

  lemma NextGroupPrefix(v: seq<sextet>, g: nat, j: nat)
    requires 4 * g + 4 <= |v|
    requires 3 * g <= j <= 3 * g + 3
    ensures DecodeGroups(v, g + 1)[..j]
            == DecodeGroups(v, g) + DecodeGroup(v[4 * g], v[4 * g + 1], v[4 * g + 2], v[4 * g + 3])[..j - 3 * g]
  {
  }

  /** v holds the sextets of the first |v| characters, '=' read as zero. */
  ghost predicate ReadsAs(data: array<char>, v: seq<sextet>)
    reads data
  {
    && |v| <= data.Length
    && forall k :: 0 <= k < |v| ==> (data[k] == Spec.PAD || Spec.IsSymbol(data[k])) && v[k] == Spec.ValueOrZero(data[k])
  }

  /** The static decoding_table and the functions that use it. */
  class Decoder {
    var decodingTable: array?<byte>

    ghost predicate Valid()
      reads this, decodingTable
    {
      decodingTable != null ==> Inverts(decodingTable[..])
    }

    constructor ()
      ensures Valid() && decodingTable == null
    {
      decodingTable := null;
    }

    /** build_decoding_table */
    method BuildDecodingTable()
      modifies this
      ensures Valid() && decodingTable != null && fresh(decodingTable)
    {
      var table := new byte[256];
      var i := 0;
      while i < 64
        invariant i <= 64 && InvertsUpTo(table[..], i)
      {
        var c := TableSymbol(i);
        InvertsNext(table[..], i);
        table[c as int] := i as byte;
        i := i + 1;
      }
      decodingTable := table;
    }

    /** data[i] == '=' ? 0 & i++ : decoding_table[(int)data[i++]] */
    method SextetAt(data: array<char>, i: nat) returns (v: sextet)
      requires Valid() && decodingTable != null
      requires i < data.Length && (data[i] == Spec.PAD || Spec.IsSymbol(data[i]))
      ensures v == Spec.ValueOrZero(data[i])
    {
      if data[i] == '=' {
        v := 0;
      } else {
        Spec.SymbolOfValue(data[i]);
        v := decodingTable[data[i] as int] as sextet;
      }
    }

    /** The first half of the decoder's loop body: four characters read, shifted together and
        masked apart into octets. */
    method NextGroup(data: array<char>, i: nat, ghost v: seq<sextet>) returns (x: byte, y: byte, z: byte)
      requires Valid() && decodingTable != null
      requires i + 4 <= |v| && ReadsAs(data, v)
      ensures [x, y, z] == DecodeGroup(v[i], v[i + 1], v[i + 2], v[i + 3])
    {
      var sextetA := SextetAt(data, i);
      var sextetB := SextetAt(data, i + 1);
      var sextetC := SextetAt(data, i + 2);
      var sextetD := SextetAt(data, i + 3);
      var triple := ((sextetA as bv32) << 18) + ((sextetB as bv32) << 12)
                  + ((sextetC as bv32) << 6) + ((sextetD as bv32) << 0);
      x, y, z := ((triple >> 16) & 0xFF) as byte, ((triple >> 8) & 0xFF) as byte, ((triple >> 0) & 0xFF) as byte;
    }

    /** The three guarded writes at the end of the decoder's loop body. */
    static method PutOctets(decoded: array<byte>, start: nat, x: byte, y: byte, z: byte) returns (j: nat)
      requires start <= decoded.Length
      modifies decoded
      ensures j == if start + 3 <= decoded.Length then start + 3 else decoded.Length
      ensures decoded[..j] == old(decoded[..start]) + [x, y, z][..j - start]
    {
      j := PutOctet(decoded, start, x);
      j := PutOctet(decoded, j, y);
      j := PutOctet(decoded, j, z);
    }

    /** if (j < *output_length) decoded_data[j++] = octet */
    static method PutOctet(decoded: array<byte>, j: nat, octet: byte) returns (next: nat)
      requires j <= decoded.Length
      modifies decoded
      ensures next == if j < decoded.Length then j + 1 else j
      ensures decoded[..next] == old(decoded[..j]) + (if j < decoded.Length then [octet] else [])
    {
      next := j;
      if j < decoded.Length {
        decoded[j] := octet;
        next := j + 1;
      }
    }

    /** The decoder's loop body. */
    method PutNextGroup(data: array<char>, i: nat, decoded: array<byte>, start: nat, ghost v: seq<sextet>, ghost g: nat)
      returns (j: nat)
      requires Valid() && decodingTable != null && decoded != decodingTable
      requires i == 4 * g && i + 4 <= |v| && ReadsAs(data, v)
      requires start == 3 * g <= decoded.Length && decoded[..start] == DecodeGroups(v, g)
      modifies decoded
      ensures j == if start + 3 <= decoded.Length then start + 3 else decoded.Length
      ensures decoded[..j] == DecodeGroups(v, g + 1)[..j]
    {
      var x, y, z := NextGroup(data, i, v);
      j := PutGroupOctets(decoded, start, x, y, z, v, g);
    }

    static method PutGroupOctets(decoded: array<byte>, start: nat, x: byte, y: byte, z: byte,
                                 ghost v: seq<sextet>, ghost g: nat)
      returns (j: nat)
      requires 4 * g + 4 <= |v| && [x, y, z] == DecodeGroup(v[4 * g], v[4 * g + 1], v[4 * g + 2], v[4 * g + 3])
      requires start == 3 * g <= decoded.Length && decoded[..start] == DecodeGroups(v, g)
      modifies decoded
      ensures j == if start + 3 <= decoded.Length then start + 3 else decoded.Length
      ensures decoded[..j] == DecodeGroups(v, g + 1)[..j]
    {
      j := PutOctets(decoded, start, x, y, z);
      NextGroupPrefix(v, g, j);
    }

    /** The decoder's loop: it fills every cell of the output and no more. */
    method PutAllOctets(data: array<char>, inputLength: nat, decoded: array<byte>,
                        ghost v: seq<sextet>, ghost groups: nat)
      requires Valid() && decodingTable != null && decoded != decodingTable && data as object != decoded
      requires inputLength == |v| == 4 * groups && ReadsAs(data, v)
      requires 3 * groups - 2 <= decoded.Length <= 3 * groups
      modifies decoded
      ensures decoded[..] == DecodeGroups(v, groups)[..decoded.Length]
    {
      ghost var g := 0;
      var i, j := 0, 0;
      while i < inputLength
        invariant i == 4 * g <= inputLength
        invariant g <= groups && j == if g < groups then 3 * g else decoded.Length
        invariant decoded[..j] == DecodeGroups(v, g)[..j]
      {
        j := PutNextGroup(data, i, decoded, j, v, g);
        i := i + 4;
        g := g + 1;
      }
    }

    /** base64_decode.  NULL for a length that is no multiple of four; otherwise the returned
        array holds exactly the announced number of octets, every one of them written. */
    method Decode(data: array<char>, inputLength: nat) returns (decoded: array?<byte>)
      requires Valid()
      requires 0 < inputLength <= data.Length
      requires inputLength % 4 == 0 ==> inputLength <= 0x7FFF_FFFF && Spec.Decodable(data[..inputLength])
      modifies this
      ensures Valid() && decodingTable != null
      ensures old(decodingTable) != null ==> decodingTable == old(decodingTable)
      ensures inputLength % 4 != 0 ==> decoded == null
      ensures inputLength % 4 == 0 ==>
                decoded != null && fresh(decoded) && decoded[..] == Spec.Decode(data[..inputLength])
    {
      if decodingTable == null {
        BuildDecodingTable();
      }
      if inputLength % 4 != 0 {
        return null;
      }
      var outputLength := OutputLength(data, inputLength);
      decoded := new byte[outputLength];
      ghost var v := Spec.Values(data[..inputLength]);
      PutAllOctets(data, inputLength, decoded, v, Spec.Quads(inputLength));
      DecodeGroupsAll(v, Spec.Quads(inputLength));
    }

    /** The length computation of base64_decode. */
    static method OutputLength(data: array<char>, inputLength: nat) returns (outputLength: nat)
      requires 0 < inputLength <= data.Length && inputLength % 4 == 0
      ensures inputLength == 4 * Spec.Quads(inputLength)
      ensures outputLength == Spec.DecodedLength(data[..inputLength])
    {
      Spec.SourceLengths(inputLength);
      outputLength := inputLength / 4 * 3;
      if data[inputLength - 1] == '=' { outputLength := outputLength - 1; }
      if data[inputLength - 2] == '=' { outputLength := outputLength - 1; }
    }
  }

  /** Encoding a block and decoding the result gives the same octets, and as many. */
  method EncodeThenDecode(decoder: Decoder, data: array<byte>, inputLength: nat) returns (decoded: array?<byte>)
    requires decoder.Valid()
    requires 0 < inputLength <= data.Length && Spec.EncodedLength(inputLength) <= 0x7FFF_FFFF
    modifies decoder
    ensures decoder.Valid()
    ensures decoded != null && fresh(decoded) && decoded[..] == data[..inputLength]
  {
    var encoded := Encode(data, inputLength);
    Spec.DecodeEncode(data[..inputLength]);
    Spec.SourceLengths(encoded.Length);
    assert encoded[..encoded.Length] == encoded[..];
    decoded := decoder.Decode(encoded, encoded.Length);
  }

  // ---- any sequence of calls ----

  datatype Call = EncodeCall(data: seq<byte>) | DecodeCall(text: string)
  datatype Answer = Encoded(text: string) | Decoded(data: Option<seq<byte>>)

  /** Arguments for which the source stays within its counters and its table. */
  ghost predicate InDomain(c: Call) {
    match c
    case EncodeCall(data) => Spec.EncodedLength(|data|) <= 0x7FFF_FFFF
    case DecodeCall(text) => text != [] && (|text| % 4 == 0 ==> |text| <= 0x7FFF_FFFF && Spec.Decodable(text))
  }

  /** What a call answers, whatever was called before. */
  ghost function AnswerTo(c: Call): Answer
    requires InDomain(c)
  {
    match c
    case EncodeCall(data) => Encoded(Spec.Encode(data))
    case DecodeCall(text) => Decoded(if |text| % 4 == 0 then Some(Spec.Decode(text)) else None)
  }

  method Serve(decoder: Decoder, c: Call) returns (answer: Answer)
    requires decoder.Valid() && InDomain(c)
    modifies decoder
    ensures decoder.Valid() && answer == AnswerTo(c)
    ensures old(decoder.decodingTable) != null ==> decoder.decodingTable == old(decoder.decodingTable)
    ensures decoder.decodingTable != null <==> old(decoder.decodingTable) != null || c.DecodeCall?
  {
    match c
    case EncodeCall(data) =>
      var octets := new byte[|data|](i requires 0 <= i < |data| => data[i]);
      assert octets[..|data|] == data;
      var encoded := Encode(octets, |data|);
      answer := Encoded(encoded[..]);
    case DecodeCall(text) =>
      var characters := new char[|text|](i requires 0 <= i < |text| => text[i]);
      assert characters[..|text|] == text;
      var decoded := decoder.Decode(characters, |text|);
      answer := Decoded(if decoded == null then None else Some(decoded[..]));
  }

  /** From the absent table, through any sequence of encodes and decodes: every answer depends on its
      own argument alone, and the table is there exactly from the first decode on. */
  method ServeAll(calls: seq<Call>) returns (decoder: Decoder, answers: seq<Answer>)
    requires forall i :: 0 <= i < |calls| ==> InDomain(calls[i])
    ensures |answers| == |calls| && forall i :: 0 <= i < |calls| ==> answers[i] == AnswerTo(calls[i])
    ensures fresh(decoder) && decoder.Valid()
    ensures decoder.decodingTable != null <==> exists i :: 0 <= i < |calls| && calls[i].DecodeCall?
  {
    decoder := new Decoder();
    answers := [];
    for n := 0 to |calls|
      invariant |answers| == n && forall i :: 0 <= i < n ==> answers[i] == AnswerTo(calls[i])
      invariant fresh(decoder) && decoder.Valid()
      invariant decoder.decodingTable != null <==> exists i :: 0 <= i < n && calls[i].DecodeCall?
    {
      var answer := Serve(decoder, calls[n]);
      answers := answers + [answer];
    }
  }
}
