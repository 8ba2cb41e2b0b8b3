/** The 64-bit and array forms of the codec (fields.c:1018-1034, 1096-1117). They copy bytes
    without the swizzle, so their meaning is given in the specification's numbering. */
module MadWide {
  import opened Bits
  import opened MadFields
  import opened MadLaws

  const WIDE_BYTES: nat := 8
  const WIDE_BITS: nat := 8 * WIDE_BYTES

  /** Byte `j` of the big-endian form of a 64-bit value. */
  function BigEndianByte(v: nat, j: nat): Byte
    requires j < 8
  {
    ToByte(Shr(v, 8 * (7 - j)))
  }

  lemma BigEndianBit(v: nat, j: nat, i: nat)
    requires j < 8 && i < 8
    ensures Bit(BigEndianByte(v, j), i) == Bit(v, i + 8 * (7 - j))
  {
    ToByteBit(Shr(v, 8 * (7 - j)), i);
    BitShr(v, 8 * (7 - j), i);
  }

  /** `t` is `s` with the eight bytes from `p` on replaced by the big-endian form of `v`. */
  ghost predicate Stored64(s: seq<Byte>, t: seq<Byte>, p: nat, v: nat) {
    && |t| == |s|
    && p + 8 <= |s|
    && forall j :: 0 <= j < |s| ==> t[j] == if p <= j < p + 8 then BigEndianByte(v, j - p) else s[j]
  }

  /** `_set_field64`: eight bytes, most significant first, and nothing else. */
  method SetField64(buf: array<Byte>, base: nat, f: Field, v: nat)
    requires base + f.bitoffs / 8 + 8 <= buf.Length
    modifies buf
    ensures Stored64(old(buf[..]), buf[..], base + f.bitoffs / 8, v)
  {
    var p := base + f.bitoffs / 8;
    for n := 0 to 8
      invariant forall j :: 0 <= j < buf.Length ==>
        buf[j] == if p <= j < p + n then BigEndianByte(v, j - p) else old(buf[j])
    {
      buf[p + n] := BigEndianByte(v, n);
    }
  }

  lemma SpecBitLow(s: seq<Byte>, q: nat, i: nat)
    requires q < |s| && i < 8
    ensures SpecBit(s, 8 * q + 7 - i) == Bit(s[q], i)
  {
    Split8(q, 7 - i);
  }

  lemma SpecBitOf64(s: seq<Byte>, t: seq<Byte>, p: nat, v: nat, j: nat, b: nat)
    requires Stored64(s, t, p, v) && j < 8 && b < 8
    ensures SpecBit(t, 8 * (p + j) + 7 - b) == Bit(v, b + 8 * (7 - j))
  {
    assert t[p + j] == BigEndianByte(v, j);
    SpecBitLow(t, p + j, b);
    BigEndianBit(v, j, b);
  }

  lemma Value64Bit(s: seq<Byte>, t: seq<Byte>, p: nat, v: nat, w: nat, i: nat)
    requires Stored64(s, t, p, v) && w == WIDE_BITS && i < w
    ensures Bit(SpecValue(t, 8 * p, w), i) == Bit(v, i)
  {
    var j, b := 7 - i / 8, i % 8;
    SpecValueBit(t, 8 * p, w, i);
    SpecBitOf64(s, t, p, v, j, b);
    assert b + 8 * (7 - j) == i && 8 * (p + j) + 7 - b == 8 * p + w - 1 - i;
  }

  /** Reading the 64 bits back, as the specification numbers them, gives the value. */
  lemma Value64(s: seq<Byte>, t: seq<Byte>, p: nat, v: nat)
    requires Stored64(s, t, p, v) && v < Pow2(WIDE_BITS)
    ensures SpecValue(t, 8 * p, WIDE_BITS) == v
  {
    var w := WIDE_BITS;
    forall i | 0 <= i < w
      ensures Bit(SpecValue(t, 8 * p, w), i) == Bit(v, i)
    {
      Value64Bit(s, t, p, v, w, i);
    }
    SpecValueBit(t, 8 * p, w, 0);
    BitsDetermine(SpecValue(t, 8 * p, w), v, w);
  }

  lemma SpecValuePush(s: seq<Byte>, p: nat, j: nat)
    requires p + j < |s|
    ensures SpecValue(s, 8 * p, 8 * (j + 1)) == Or(Shl(SpecValue(s, 8 * p, 8 * j), BYTE_BITS), s[p + j])
  {
    var x, y, b := SpecValue(s, 8 * p, 8 * (j + 1)), SpecValue(s, 8 * p, 8 * j), s[p + j];
    var z := Or(Shl(y, BYTE_BITS), b);
    var n := 8 * (j + 1);
    forall i: nat
      ensures Bit(x, i) == Bit(z, i)
    {
      SpecValueBit(s, 8 * p, n, i);
      BitOr(Shl(y, BYTE_BITS), b, i);
      BitShl(y, BYTE_BITS, i);
      if i >= 8 {
        SpecValueBit(s, 8 * p, 8 * j, i - 8);
        Pow2Byte();
        HighBitsZero(b, BYTE_BITS, i);
      } else {
        SpecBitLow(s, p + j, i);
      }
    }
    SameBits(x, z);
  }

  lemma {:induction false} SameBits(x: nat, y: nat)
    requires forall i: nat :: Bit(x, i) == Bit(y, i)
    ensures x == y
    decreases x + y
  {
    assert Bit(x, 0) == Bit(y, 0);
    if x > 0 || y > 0 {
      forall i: nat
        ensures Bit(x / 2, i) == Bit(y / 2, i)
      {
        assert Bit(x, i + 1) == Bit(y, i + 1);
      }
      SameBits(x / 2, y / 2);
    }
  }

  /** `ntohll` of bytes copied from the buffer: the first is the most significant. */
  method LoadBigEndian(buf: array<Byte>, p: nat, n: nat) returns (r: nat)
    requires p + n <= buf.Length
    ensures r == SpecValue(buf[..], 8 * p, 8 * n)
  {
    r := 0;
    for j := 0 to n
      invariant r == SpecValue(buf[..], 8 * p, 8 * j)
    {
      SpecValuePush(buf[..], p, j);
      r := Or(Shl(r, BYTE_BITS), buf[p + j]);
    }
  }

  /** `_get_field64`. */
  method GetField64(buf: array<Byte>, base: nat, f: Field) returns (r: nat)
    requires base + f.bitoffs / 8 + 8 <= buf.Length
    ensures r == SpecValue(buf[..], 8 * (base + f.bitoffs / 8), WIDE_BITS)
  {
    r := LoadBigEndian(buf, base + f.bitoffs / 8, WIDE_BYTES);
  }

  // ----- arrays

  /** The byte at which an array field starts: offsets of fields shorter than a word were
      normalised in the table and are turned back. */
  function ArrayStart(base: nat, f: Field): nat
    requires f.bitlen < 32 ==> f.bitoffs % 32 + f.bitlen <= 32
  {
    base + (if f.bitlen < 32 then BitsOffs(f.bitoffs, f.bitlen) else f.bitoffs) / 8
  }

  /** `_set_array`. */
  method SetArray(buf: array<Byte>, base: nat, f: Field, val: seq<Byte>)
    requires f.bitlen < 32 ==> f.bitoffs % 32 + f.bitlen <= 32
    requires ArrayStart(base, f) + f.bitlen / 8 <= buf.Length && |val| == f.bitlen / 8
    modifies buf
    ensures var p := ArrayStart(base, f);
            forall j :: 0 <= j < buf.Length ==>
              buf[j] == if p <= j < p + |val| then val[j - p] else old(buf[j])
  {
    CopyBytes(buf, ArrayStart(base, f), val);
  }

  /** `memcpy` into the buffer. */
  method CopyBytes(buf: array<Byte>, p: nat, val: seq<Byte>)
    requires p + |val| <= buf.Length
    modifies buf
    ensures forall j :: 0 <= j < buf.Length ==>
      buf[j] == if p <= j < p + |val| then val[j - p] else old(buf[j])
  {
    for n := 0 to |val|
      invariant forall j :: 0 <= j < buf.Length ==>
        buf[j] == if p <= j < p + n then val[j - p] else old(buf[j])
    {
      buf[p + n] := val[n];
    }
  }

  lemma SpecBitOfSlice(s: seq<Byte>, p: nat, n: nat, o: nat)
    requires p + n <= |s| && o < 8 * n
    ensures SpecBit(s[p..][..n], o) == SpecBit(s, 8 * p + o)
  {
    var q, r := o / 8, o % 8;
    assert o == 8 * q + r;
    Split8(p + q, r);
  }

  lemma {:induction false} SpecValueOfSlice(s: seq<Byte>, p: nat, n: nat, w: nat)
    requires p + n <= |s| && w <= 8 * n
    ensures SpecValue(s[p..][..n], 0, w) == SpecValue(s, 8 * p, w)
    decreases w
  {
    if w > 0 {
      SpecValueOfSlice(s, p, n, w - 1);
      SpecBitOfSlice(s, p, n, w - 1);
    }
  }

  lemma ArrayParts(k: nat, q: nat, r: nat, b: nat)
    requires 0 < b && r + b <= 4
    ensures BitsOffs(32 * q + 8 * r, 8 * b) == 8 * (4 * q + (4 - r - b))
    ensures var p := 4 * k + 4 * q + (4 - r - b);
            8 * p % 32 + 8 * b <= 32 && BitsOffs(8 * p, 8 * b) == 32 * k + 32 * q + 8 * r
  {
    Split32(q, 8 * r);
    Split32(k + q, 8 * (4 - r - b));
  }

  lemma ArrayPosition(base: nat, f: Field)
    requires base % 4 == 0 && 0 < f.bitlen < 32 && f.bitlen % 8 == 0 && f.bitoffs % 8 == 0
    requires f.bitoffs % 32 + f.bitlen <= 32
    ensures var p := ArrayStart(base, f);
            8 * p % 32 + f.bitlen <= 32 && BitsOffs(8 * p, f.bitlen) == FieldAt(base, f)
  {
    var k, m, b := base / 4, f.bitoffs / 8, f.bitlen / 8;
    var q, r := m / 4, m % 4;
    assert base == 4 * k && m == 4 * q + r && f.bitoffs == 8 * m && f.bitlen == 8 * b;
    Split32(q, 8 * r);
    ArrayParts(k, q, r, b);
    Split8(4 * q + (4 - r - b), 0);
  }

  /** The bytes `_get_array` copies out of a byte-aligned field shorter than a word are the
      big-endian form of the number `_get_field` returns for it. */
  lemma ArrayIsBigEndian(s: seq<Byte>, base: nat, f: Field)
    requires WholeWords(s) && base % 4 == 0 && 0 < f.bitlen < 32 && f.bitlen % 8 == 0 && f.bitoffs % 8 == 0
    requires f.bitoffs % 32 + f.bitlen <= 32 && ArrayStart(base, f) + f.bitlen / 8 <= |s|
    ensures FieldAt(base, f) + f.bitlen <= 8 * |s|
    ensures SpecValue(s[ArrayStart(base, f)..][..f.bitlen / 8], 0, f.bitlen) == ReadBits(s, FieldAt(base, f), f.bitlen)
  {
    var p, w := ArrayStart(base, f), f.bitlen;
    ArrayPosition(base, f);
    FieldIsSpecBits(s, 8 * p, w);
    SpecValueOfSlice(s, p, w / 8, w);
  }

  /** A byte-aligned field of whole bytes, shorter than a word, in a buffer of whole words. */
  predicate ByteField(n: nat, base: nat, f: Field) {
    && n % 4 == 0 && base % 4 == 0 && 0 < f.bitlen < 32 && f.bitlen % 8 == 0 && f.bitoffs % 8 == 0
    && FieldAt(base, f) + f.bitlen <= 8 * n
  }

  /** `_get_array`: the bytes of the field in order, which for a field shorter than a word are
      the big-endian form of the number it holds. */
  method GetArray(buf: array<Byte>, base: nat, f: Field) returns (val: seq<Byte>)
    requires f.bitlen < 32 ==> f.bitoffs % 32 + f.bitlen <= 32
    requires ArrayStart(base, f) + f.bitlen / 8 <= buf.Length
    ensures |val| == f.bitlen / 8 && forall i :: 0 <= i < |val| ==> val[i] == buf[ArrayStart(base, f) + i]
    ensures ByteField(buf.Length, base, f) ==> SpecValue(val, 0, f.bitlen) == ReadBits(buf[..], FieldAt(base, f), f.bitlen)
  {
    var p := ArrayStart(base, f);
    val := buf[p..][..f.bitlen / 8];
    if ByteField(buf.Length, base, f) {
      assert val == buf[..][p..][..f.bitlen / 8];
      ArrayIsBigEndian(buf[..], base, f);
    }
  }
}
