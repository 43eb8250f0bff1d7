/**
 The base64 of section 4 of RFC 4648, stated on bit strings, and its laws.
 base64.c is proved against these two functions in the module Base64.
 */
module Base64Spec {
  import opened Bits

  const PAD := '='

  /** Table 1 of RFC 4648. */
  function Symbol(v: sextet): char {
    var i := v as int;
    (if i < 26 then 65 + i else if i < 52 then 71 + i else if i < 62 then i - 4 else if i == 62 then 43 else 47) as char
  }

  predicate IsSymbol(c: char) {
    'A' <= c <= 'Z' || 'a' <= c <= 'z' || '0' <= c <= '9' || c == '+' || c == '/'
  }

  /** The sextet a symbol stands for. */
  function SymbolValue(c: char): sextet
    requires IsSymbol(c)
  {
    var i := c as int;
    (if 'A' <= c <= 'Z' then i - 65 else if 'a' <= c <= 'z' then i - 71 else if '0' <= c <= '9' then i + 4
     else if c == '+' then 62 else 63) as sextet
  }

  /** The 64 symbols are distinct 7-bit characters, none of them '=' or NUL. */
  lemma Alphabet(v: sextet)
    ensures IsSymbol(Symbol(v)) && SymbolValue(Symbol(v)) == v
    ensures Symbol(v) != PAD && 0 < Symbol(v) as int < 128
  {
  }

  lemma SymbolOfValue(c: char)
    requires IsSymbol(c)
    ensures Symbol(SymbolValue(c)) == c
  {
  }

  lemma SymbolInjective(u: sextet, v: sextet)
    ensures Symbol(u) == Symbol(v) ==> u == v
  {
    Alphabet(u);
    Alphabet(v);
  }

  function Symbols(v: seq<sextet>): (s: string)
    ensures |s| == |v|
    ensures forall i :: 0 <= i < |v| ==> s[i] == Symbol(v[i])
  {
    seq(|v|, i requires 0 <= i < |v| => Symbol(v[i]))
  }

  function Pads(n: nat): (s: string)
    ensures |s| == n
    ensures forall i :: 0 <= i < n ==> s[i] == PAD
  {
    seq(n, _ => PAD)
  }

  /** The number of 24-bit groups that n bytes take: n/3 rounded up. */
  ghost function Groups(n: nat): (g: nat)
    ensures n <= 3 * g < n + 3
  {
    assert n <= 3 * ((n + 2) / 3) < n + 3;
    var g: nat :| n <= 3 * g < n + 3; g
  }

  /** How many '=' close the encoding of n bytes. */
  ghost function Padding(n: nat): nat {
    3 * Groups(n) - n
  }

  /** Zero bits complete the last sextet (four when one byte is left over, two when two are),
      and '=' completes the last group of four. */
  ghost function Encode(d: seq<byte>): string {
    Symbols(DataSextets(d)) + Pads(Padding(|d|))
  }

  ghost function DataSextets(d: seq<byte>): (v: seq<sextet>)
    ensures |v| == EncodedLength(|d|) - Padding(|d|)
  {
    ToSextets(OfBytes(d) + Zeros(2 * Padding(|d|)))
  }

  ghost function EncodedLength(n: nat): nat {
    4 * Groups(n)
  }

  /** The number of whole groups of four among n characters. */
  ghost function Quads(n: nat): (g: nat)
    ensures 4 * g <= n < 4 * g + 4
  {
    assert 4 * (n / 4) <= n < 4 * (n / 4) + 4;
    var g: nat :| 4 * g <= n < 4 * g + 4; g
  }

  /** The same counts in the source's terms. */
  lemma SourceLengths(n: nat)
    ensures EncodedLength(n) == 4 * ((n + 2) / 3)
    ensures Padding(n) == [0, 2, 1][n % 3]
    ensures Quads(n) == n / 4 && (n == 4 * Quads(n) <==> n % 4 == 0)
  {
  }

  /** What base64_decode is given: whole groups of symbols and '=', with at least one group. */
  ghost predicate Decodable(s: string) {
    && |s| == 4 * Quads(|s|) && s != []
    && forall i :: 0 <= i < |s| ==> s[i] == PAD || IsSymbol(s[i])
  }

  function ValueOrZero(c: char): sextet
    requires c == PAD || IsSymbol(c)
  {
    if c == PAD then 0 else SymbolValue(c)
  }

  function Values(s: string): (v: seq<sextet>)
    requires forall i :: 0 <= i < |s| ==> s[i] == PAD || IsSymbol(s[i])
    ensures |v| == |s|
    ensures forall i :: 0 <= i < |s| ==> v[i] == ValueOrZero(s[i])
  {
    seq(|s|, i requires 0 <= i < |s| => ValueOrZero(s[i]))
  }

  function PadCount(s: string): nat
    requires |s| >= 2
  {
    (if s[|s| - 1] == PAD then 1 else 0) + (if s[|s| - 2] == PAD then 1 else 0)
  }

  ghost function DecodedLength(s: string): nat
    requires |s| == 4 * Quads(|s|) && s != []
  {
    3 * Quads(|s|) - PadCount(s)
  }

  /** Regroups the sextets, '=' read as zero, into bytes and keeps the announced number of them. */
  ghost function Decode(s: string): (d: seq<byte>)
    requires Decodable(s)
    ensures |d| == DecodedLength(s)
  {
    ToBytes(OfSextets(Values(s)))[..DecodedLength(s)]
  }

  // ---- shape of the encoding ----

  /** Rewriting the last cells of a filled array with '='. */
  function Overwrite(cells: string, pad: nat): string
    requires pad <= |cells|
  {
    cells[..|cells| - pad] + Pads(pad)
  }

  /** base64.c's view: encode the data followed by zero octets up to a whole group, then
      overwrite the last cells. */
  lemma EncodeByOverwriting(d: seq<byte>, z: seq<byte>)
    requires z == d + ZeroOctets(Padding(|d|))
    ensures |Symbols(ToSextets(OfBytes(z)))| == EncodedLength(|d|) >= Padding(|d|)
    ensures Encode(d) == Overwrite(Symbols(ToSextets(OfBytes(z))), Padding(|d|))
  {
    FilledSextets(d);
    SymbolsPrefix(DataSextets(d), ToSextets(Zeros(6 * Padding(|d|))));
  }

  /** The padding pass overwrites a cell iff all its six bits come from absent octets. */
  lemma OverwrittenCells(n: nat, k: nat)
    requires k < EncodedLength(n)
    ensures k >= EncodedLength(n) - Padding(n) <==> 6 * k >= 8 * n
  {
  }

  lemma SymbolsPrefix(v: seq<sextet>, w: seq<sextet>)
    ensures Symbols(v + w)[..|v|] == Symbols(v)
  {
  }

  /** The sextets base64.c computes before its padding pass. */
  lemma FilledSextets(d: seq<byte>)
    ensures var pad := Padding(|d|);
            ToSextets(OfBytes(d + ZeroOctets(pad))) == DataSextets(d) + ToSextets(Zeros(6 * pad))
  {
    FilledBits(d, Padding(|d|));
    ToSextetsAppend(|DataSextets(d)|, OfBytes(d) + Zeros(2 * Padding(|d|)), Zeros(6 * Padding(|d|)));
  }

  lemma EncodeShape(d: seq<byte>)
    ensures var data := EncodedLength(|d|) - Padding(|d|);
            && |Encode(d)| == EncodedLength(|d|) && Padding(|d|) <= 2
            && forall i :: 0 <= i < |Encode(d)| ==>
                 if i < data then Encode(d)[i] != PAD && IsSymbol(Encode(d)[i]) else Encode(d)[i] == PAD
  {
    forall v: sextet ensures Symbol(v) != PAD && IsSymbol(Symbol(v)) {
      Alphabet(v);
    }
  }

  lemma ValuesOfSymbols(v: seq<sextet>)
    ensures forall i :: 0 <= i < |v| ==> IsSymbol(Symbols(v)[i])
    ensures Values(Symbols(v)) == v
  {
    forall i | 0 <= i < |v| ensures IsSymbol(Symbols(v)[i]) && ValueOrZero(Symbols(v)[i]) == v[i] {
      Alphabet(v[i]);
    }
  }

  // ---- round trip and injectivity ----

  lemma EncodeIsDecodable(d: seq<byte>)
    requires d != []
    ensures Decodable(Encode(d)) && DecodedLength(Encode(d)) == |d|
  {
    EncodeShape(d);
    QuadsOfGroups(Groups(|d|));
    EncodingPads(d, Encode(d));
  }

  lemma QuadsOfGroups(g: nat)
    ensures Quads(4 * g) == g
  {
  }

  lemma EncodingPads(d: seq<byte>, s: string)
    requires d != [] && |s| == EncodedLength(|d|)
    requires forall i :: 0 <= i < |s| ==> (s[i] == PAD <==> i >= EncodedLength(|d|) - Padding(|d|))
    ensures |s| >= 4 && PadCount(s) == Padding(|d|)
  {
  }

  lemma ValuesOfEncoding(d: seq<byte>)
    requires Decodable(Encode(d))
    ensures Values(Encode(d)) == DataSextets(d) + ZeroSextets(Padding(|d|))
  {
    var v := DataSextets(d);
    ValuesOfSymbols(v);
    forall i | 0 <= i < |v| ensures Values(Encode(d))[i] == v[i] {
      assert Encode(d)[i] == Symbols(v)[i] && Values(Symbols(v))[i] == v[i];
    }
  }

  lemma BitsOfEncoding(d: seq<byte>)
    requires Decodable(Encode(d))
    ensures OfSextets(Values(Encode(d))) == OfBytes(d) + Zeros(8 * Padding(|d|))
  {
    ValuesOfEncoding(d);
    BitsOfValues(Encode(d), d);
  }

  lemma BitsOfValues(s: string, d: seq<byte>)
    requires Decodable(s)
    requires Values(s) == DataSextets(d) + ZeroSextets(Padding(|d|))
    ensures OfSextets(Values(s)) == OfBytes(d) + Zeros(8 * Padding(|d|))
  {
    BitsOfDataSextets(d);
    MoreZeroSextets(DataSextets(d), OfBytes(d), Padding(|d|));
  }

  lemma BitsOfDataSextets(d: seq<byte>)
    ensures OfSextets(DataSextets(d)) == OfBytes(d) + Zeros(2 * Padding(|d|))
  {
    BitsThroughSextets(|DataSextets(d)|, OfBytes(d) + Zeros(2 * Padding(|d|)));
  }

  lemma DecodeEncode(d: seq<byte>)
    requires d != []
    ensures Decodable(Encode(d)) && Decode(Encode(d)) == d
  {
    EncodeIsDecodable(d);
    BitsOfEncoding(d);
    BytesThenRest(d, Zeros(8 * Padding(|d|)));
  }

  /** Different byte strings never share an encoding. */
  lemma EncodeInjective(a: seq<byte>, b: seq<byte>)
    ensures Encode(a) == Encode(b) ==> a == b
  {
    EncodeShape(a);
    EncodeShape(b);
    if a != [] && b != [] {
      DecodeEncode(a);
      DecodeEncode(b);
    }
  }

  // ---- canonical strings ----

  /** Padding only at the end, at most two characters of it. */
  ghost predicate WellFormed(s: string) {
    && Decodable(s)
    && forall i :: 0 <= i < |s| - PadCount(s) ==> s[i] != PAD
  }

  /** The low bits of the last data sextet that the decoder throws away. */
  function DiscardedMask(pad: nat): sextet {
    if pad == 0 then 0 else if pad == 1 then 0x03 else 0x0F
  }

  ghost predicate Canonical(s: string) {
    && WellFormed(s)
    && SymbolValue(s[|s| - PadCount(s) - 1]) & DiscardedMask(PadCount(s)) == 0
  }

  /** Encoding gives a decoded string back exactly when that string is well formed and its
      discarded bits are zero (section 3.5 of RFC 4648), over every input the decoder takes. */
  lemma EncodeDecode(s: string)
    requires Decodable(s)
    ensures Encode(Decode(s)) == s <==> Canonical(s)
  {
    var d := Decode(s);
    EncodeShape(d);
    if WellFormed(s) {
      EncodeDecodeWellFormed(s);
    }
  }

  lemma EncodeDecodeWellFormed(s: string)
    requires WellFormed(s)
    ensures Encode(Decode(s)) == s <==> Canonical(s)
  {
    SameDataSextets(s);
    RefilledDataSextets(s, Decode(s));
    ZeroEndOfData(s);
  }

  lemma ZeroEndOfData(s: string)
    requires WellFormed(s)
    ensures var v := Values(s[..|s| - PadCount(s)]);
            && 2 * PadCount(s) <= 6 * |v|
            && (OfSextets(v)[6 * |v| - 2 * PadCount(s)..] == Zeros(2 * PadCount(s)) <==> Canonical(s))
  {
    ZeroEnd(Values(s[..|s| - PadCount(s)]), PadCount(s));
  }

  lemma RefilledDataSextets(s: string, d: seq<byte>)
    requires WellFormed(s) && d == Decode(s) && Padding(|d|) == PadCount(s)
    ensures var v := Values(s[..|s| - PadCount(s)]);
            && 2 * PadCount(s) <= 6 * |v|
            && (DataSextets(d) == v <==> OfSextets(v)[6 * |v| - 2 * PadCount(s)..] == Zeros(2 * PadCount(s)))
  {
    DecodeDataBits(s);
    RefillWithZeros(Values(s[..|s| - PadCount(s)]), 2 * PadCount(s));
  }

  /** Whether a string of sextets ends in zero bits is decided by its last sextet. */
  lemma ZeroEnd(v: seq<sextet>, pad: nat)
    requires v != [] && pad <= 2
    ensures OfSextets(v)[6 * |v| - 2 * pad..] == Zeros(2 * pad) <==> v[|v| - 1] & DiscardedMask(pad) == 0
  {
    ZeroEndIsLocal(v, pad);
    DiscardedBits(v[|v| - 1], pad);
  }

  /** A well-formed string and its re-encoding can only differ in their data sextets. */
  lemma SameDataSextets(s: string)
    requires WellFormed(s)
    ensures var t := s[..|s| - PadCount(s)];
            && Padding(|Decode(s)|) == PadCount(s) && |DataSextets(Decode(s))| == |t|
            && (Encode(Decode(s)) == s <==> DataSextets(Decode(s)) == Values(t))
  {
    var d, pad := Decode(s), PadCount(s);
    var t := s[..|s| - pad];
    var v, v' := Values(t), DataSextets(d);
    assert |d| == 3 * Quads(|s|) - pad;
    assert s == t + Pads(pad);
    assert Symbols(v) == t by {
      forall i | 0 <= i < |t| ensures Symbol(v[i]) == t[i] { SymbolOfValue(t[i]); }
    }
    ValuesOfSymbols(v');
    if Encode(d) == s {
      assert Symbols(v') == Encode(d)[..|t|] == t;
    }
  }

  /** Decoding keeps the leading whole bytes of the data sextets' bits. */
  lemma DecodeDataBits(s: string)
    requires Decodable(s)
    ensures var t := s[..|s| - PadCount(s)];
            && 8 * DecodedLength(s) + 2 * PadCount(s) == 6 * |t|
            && OfBytes(Decode(s)) == OfSextets(Values(t))[..6 * |t| - 2 * PadCount(s)]
  {
    var n := |s| - PadCount(s);
    DecodedBits(s);
    ValuesSplit(s, n);
    ToBytesPrefix(DecodedLength(s), 6 * n - 2 * PadCount(s), OfSextets(Values(s[..n])), OfSextets(Values(s[n..])));
  }

  lemma DecodedBits(s: string)
    requires |s| == 4 * Quads(|s|) && s != []
    ensures 8 * DecodedLength(s) == 6 * (|s| - PadCount(s)) - 2 * PadCount(s)
  {
  }

  lemma ValuesSplit(s: string, n: nat)
    requires Decodable(s) && n <= |s|
    ensures OfSextets(Values(s)) == OfSextets(Values(s[..n])) + OfSextets(Values(s[n..]))
  {
    assert Values(s) == Values(s[..n]) + Values(s[n..]);
    OfSextetsAppend(Values(s[..n]), Values(s[n..]));
  }

  lemma DiscardedBits(x: sextet, pad: nat)
    requires pad <= 2
    ensures SextetBits(x)[6 - 2 * pad..] == Zeros(2 * pad) <==> x & DiscardedMask(pad) == 0
  {
    var r := SextetBits(x);
    if pad == 1 {
      assert r[4..] == [r[4], r[5]] && Zeros(2) == [false, false];
    } else if pad == 2 {
      assert r[2..] == [r[2], r[3], r[4], r[5]] && Zeros(4) == [false, false, false, false];
    }
  }

  /** Re-encoding a decoded string never changes what it decodes to. */
  lemma DecodeNormalises(s: string)
    requires Decodable(s)
    ensures Decodable(Encode(Decode(s))) && Decode(Encode(Decode(s))) == Decode(s)
    ensures Canonical(Encode(Decode(s)))
  {
    DecodeEncode(Decode(s));
    EncodeDecode(Encode(Decode(s)));
  }

  // ---- homomorphism ----

  /** Encodings concatenate exactly when the first part is a whole number of groups. */
  lemma EncodeAppend(a: seq<byte>, b: seq<byte>)
    ensures Encode(a + b) == Encode(a) + Encode(b) <==> |a| % 3 == 0 || b == []
  {
    if b == [] {
      assert a + b == a && Encode(b) == [];
    } else if |a| % 3 == 0 {
      EncodeWholeGroups(|a| / 3, a, b);
    } else {
      EncodePartialGroup(a, b);
    }
  }

  lemma EncodeWholeGroups(k: nat, a: seq<byte>, b: seq<byte>)
    requires |a| == 3 * k
    ensures Encode(a + b) == Encode(a) + Encode(b)
  {
    DataSextetsAppend(k, a, b);
    assert Pads(Padding(|a|)) == [];
  }

  lemma WholeGroupsPadding(k: nat, n: nat)
    ensures Padding(3 * k) == 0 && Padding(3 * k + n) == Padding(n)
  {
  }

  lemma DataSextetsAppend(k: nat, a: seq<byte>, b: seq<byte>)
    requires |a| == 3 * k
    ensures DataSextets(a + b) == DataSextets(a) + DataSextets(b)
  {
    WholeGroupsPadding(k, |b|);
    OfBytesAppend(a, b);
    NoZeros(OfBytes(a));
    ToSextetsSplit(4 * k, OfBytes(a), OfBytes(b), Zeros(2 * Padding(|b|)));
  }

  /** The '=' that ends Encode(a) would have to sit where Encode(a + b) holds data. */
  lemma EncodePartialGroup(a: seq<byte>, b: seq<byte>)
    requires |a| % 3 != 0 && b != []
    ensures Encode(a + b) != Encode(a) + Encode(b)
  {
    EncodeShape(a);
    EncodeShape(b);
    EncodeShape(a + b);
    if EncodedLength(|a + b|) == EncodedLength(|a|) + EncodedLength(|b|) {
      PadPosition(|a|, |b|);
      DifferAt(Encode(a + b), Encode(a), Encode(b), EncodedLength(|a|) - 1);
    }
  }

  lemma DifferAt(w: string, s: string, t: string, p: nat)
    requires p < |s| && p < |w| && w[p] != s[p]
    ensures w != s + t
  {
    assert (s + t)[p] == s[p];
  }

  lemma PadPosition(m: nat, n: nat)
    requires m % 3 != 0 && n > 0 && EncodedLength(m + n) == EncodedLength(m) + EncodedLength(n)
    ensures Padding(m) > 0 && EncodedLength(m) <= EncodedLength(m + n) - Padding(m + n)
  {
    WhenPadded(m, Groups(m));
    DataBeyond(m, n, Groups(m), Groups(n), Groups(m + n));
  }

  lemma WhenPadded(m: nat, g: nat)
    requires m % 3 != 0 && m <= 3 * g
    ensures 3 * g - m > 0
  {
  }

  lemma DataBeyond(m: nat, n: nat, gm: nat, gn: nat, g: nat)
    requires n > 0 && g == gm + gn && 3 * gm < m + 3 && n <= 3 * gn
    ensures 4 * gm <= 4 * g - (3 * g - (m + n))
  {
  }

  /** Decodings concatenate exactly when the first part carries no padding in its last two places. */
  lemma DecodeAppend(s: string, t: string)
    requires Decodable(s) && Decodable(t)
    ensures Decodable(s + t)
    ensures Decode(s + t) == Decode(s) + Decode(t) <==> PadCount(s) == 0
  {
    DecodeAfter(s, t);
  }

  /** Whatever the first part ends with, all its bytes come out before those of the second. */
  lemma DecodeAfter(s: string, t: string)
    requires Decodable(s) && Decodable(t)
    ensures Decodable(s + t)
    ensures Decode(s + t) == ToBytes(OfSextets(Values(s))) + Decode(t)
  {
    BitsAppend(s, t);
    AppendedLength(s, t);
    ToBytesTake(3 * Quads(|s|), OfSextets(Values(s)), OfSextets(Values(t)), DecodedLength(t));
  }

  lemma AppendedLength(s: string, t: string)
    requires |s| == 4 * Quads(|s|) && s != [] && |t| == 4 * Quads(|t|) && t != []
    ensures |s + t| == 4 * Quads(|s + t|)
    ensures DecodedLength(s + t) == 3 * Quads(|s|) + DecodedLength(t)
  {
  }

  lemma BitsAppend(s: string, t: string)
    requires Decodable(s) && Decodable(t)
    ensures Decodable(s + t)
    ensures OfSextets(Values(s + t)) == OfSextets(Values(s)) + OfSextets(Values(t))
  {
    assert Values(s + t) == Values(s) + Values(t);
    OfSextetsAppend(Values(s), Values(t));
  }
}
