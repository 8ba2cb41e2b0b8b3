/** The bit-field codec of libibmad/fields.c.

    A MAD is a buffer of bytes holding 32-bit big-endian words. The codec numbers the
    bits of each word from its least significant end: bit `k` is bit `k % 8` of the byte
    at `3 ^ (k / 8)`. `BufBit` is that numbering; `SpecBit` is the numbering of the
    InfiniBand specification, from the most significant bit of the buffer's first byte.

    What a write does is stated by `Written`, which is defined on bits and knows
    nothing of the split into leading bits, whole bytes and trailing bits. */
module MadFields {
  import opened Bits

  type Byte = x: nat | x < 256

  datatype Field = Field(bitoffs: nat, bitlen: nat)

  /** `3 ^ idx`: the byte order of one 32-bit word reversed. */
  function Swizzle(idx: nat): nat {
    if idx < 4 then 3 - idx else 4 + Swizzle(idx - 4)
  }

  predicate WholeWords(s: seq<Byte>) {
    |s| % 4 == 0
  }

  lemma {:induction false} SwizzleParts(q: nat, r: nat)
    requires r < 4
    ensures Swizzle(4 * q + r) == 4 * q + (3 - r)
    decreases q
  {
    if q > 0 { SwizzleParts(q - 1, r); }
  }

  lemma SwizzleBelow(i: nat, m: nat)
    requires m % 4 == 0
    ensures Swizzle(i) < m <==> i < m
  {
    var q, r, n := i / 4, i % 4, m / 4;
    assert i == 4 * q + r && m == 4 * n;
    SwizzleParts(q, r);
  }

  lemma SwizzleInBounds(idx: nat, n: nat)
    requires n % 4 == 0 && idx < n
    ensures Swizzle(idx) < n
  {
    SwizzleBelow(idx, n);
  }

  /** `p[3 ^ idx]`. */
  function BufByte(s: seq<Byte>, idx: nat): Byte
    requires WholeWords(s) && idx < |s|
  {
    SwizzleInBounds(idx, |s|);
    s[Swizzle(idx)]
  }

  predicate BufBit(s: seq<Byte>, k: nat)
    requires WholeWords(s) && k < 8 * |s|
  {
    Bit(BufByte(s, k / 8), k % 8)
  }

  lemma SwizzleInvolution(i: nat)
    ensures Swizzle(Swizzle(i)) == i
    ensures Swizzle(i) / 4 == i / 4
  {
    var q, r := i / 4, i % 4;
    assert i == 4 * q + r;
    SwizzleParts(q, r);
    SwizzleParts(q, 3 - r);
    Split4(q, 3 - r);
  }

  lemma SwizzleInjective(i: nat, j: nat)
    requires i != j
    ensures Swizzle(i) != Swizzle(j)
  {
    SwizzleInvolution(i);
    SwizzleInvolution(j);
  }

  // ----- numbers and buffers from their bits

  /** The number whose bit `i`, for `i < n`, is `g(at + i)`. */
  function Pack(g: nat -> bool, at: nat, n: nat): nat
    decreases n, at
  {
    if n == 0 then 0 else Cons(g(at), Pack(g, at + 1, n - 1))
  }

  lemma {:induction false} PackBits(g: nat -> bool, at: nat, n: nat, i: nat)
    ensures Bit(Pack(g, at, n), i) == (i < n && g(at + i))
    ensures Pack(g, at, n) < Pow2(n)
    decreases n
  {
    if n == 0 {
      BitZero(i);
    } else if i > 0 {
      PackBits(g, at + 1, n - 1, i - 1);
    } else {
      PackBits(g, at + 1, n - 1, 0);
    }
  }

  function PackByte(g: nat -> bool, at: nat): Byte {
    PackBits(g, at, BYTE_BITS, 0);
    Pow2Byte();
    Pack(g, at, BYTE_BITS)
  }

  /** The buffer of `n` bytes whose bit `k` is `g(k)`. */
  function PackBuffer(g: nat -> bool, n: nat): (s: seq<Byte>)
    ensures |s| == n
  {
    seq(n, j requires 0 <= j < n => PackByte(g, 8 * Swizzle(j)))
  }

  lemma PackBufferByte(g: nat -> bool, n: nat, idx: nat)
    requires n % 4 == 0 && idx < n
    ensures BufByte(PackBuffer(g, n), idx) == PackByte(g, 8 * idx)
  {
    SwizzleInvolution(idx);
    SwizzleInBounds(idx, n);
  }

  lemma PackBufferBits(g: nat -> bool, n: nat, k: nat)
    requires n % 4 == 0 && k < 8 * n
    ensures BufBit(PackBuffer(g, n), k) == g(k)
  {
    PackBufferByte(g, n, k / 8);
    PackBits(g, 8 * (k / 8), BYTE_BITS, k % 8);
  }

  lemma BufBitsDetermine(s: seq<Byte>, t: seq<Byte>)
    requires WholeWords(s) && |s| == |t|
    requires forall k :: 0 <= k < 8 * |s| ==> BufBit(s, k) == BufBit(t, k)
    ensures s == t
  {
    forall j | 0 <= j < |s|
      ensures s[j] == t[j]
    {
      SwizzleInvolution(j);
      forall i | 0 <= i < 8
        ensures Bit(s[j], i) == Bit(t[j], i)
      {
        var k := 8 * Swizzle(j) + i;
        Split8(Swizzle(j), i);
        assert BufBit(s, k) == BufBit(t, k);
      }
      Pow2Byte();
      BitsDetermine(s[j], t[j], BYTE_BITS);
    }
  }

  // ----- the meaning of a field

  /** Bits `at .. at + n` of the buffer as a number, `at` being the lowest. */
  function ReadBits(s: seq<Byte>, at: nat, n: nat): nat
    requires WholeWords(s) && at + n <= 8 * |s|
    decreases s, n
  {
    if n == 0 then 0 else Cons(BufBit(s, at), ReadBits(s, at + 1, n - 1))
  }

  lemma {:induction false} ReadBitsBit(s: seq<Byte>, at: nat, n: nat, i: nat)
    requires WholeWords(s) && at + n <= 8 * |s|
    ensures Bit(ReadBits(s, at, n), i) == (i < n && BufBit(s, at + i))
    ensures ReadBits(s, at, n) < Pow2(n)
    decreases n
  {
    if n == 0 {
      BitZero(i);
    } else if i > 0 {
      ReadBitsBit(s, at + 1, n - 1, i - 1);
    } else {
      ReadBitsBit(s, at + 1, n - 1, 0);
    }
  }

  /** Bit `k` after the `n` bits from `at` are set to those of `val`, and the next `spill`
      bits of `val` are or-ed into the buffer after them. */
  predicate WrittenBit(s: seq<Byte>, at: nat, n: nat, spill: nat, val: nat, k: nat)
    requires WholeWords(s) && k < 8 * |s|
  {
    if at <= k < at + n then Bit(val, k - at)
    else if at + n <= k < at + n + spill then BufBit(s, k) || Bit(val, k - at)
    else BufBit(s, k)
  }

  ghost predicate Written(s: seq<Byte>, t: seq<Byte>, at: nat, n: nat, spill: nat, val: nat)
    requires WholeWords(s)
  {
    && |t| == |s|
    && forall k :: 0 <= k < 8 * |s| ==> BufBit(t, k) == WrittenBit(s, at, n, spill, val, k)
  }

  /** For every buffer there is exactly one written buffer. */
  lemma WrittenUnique(s: seq<Byte>, t: seq<Byte>, t': seq<Byte>, at: nat, n: nat, spill: nat, val: nat)
    requires WholeWords(s) && Written(s, t, at, n, spill, val) && Written(s, t', at, n, spill, val)
    ensures t == t'
  {
    BufBitsDetermine(t, t');
  }

  lemma WrittenExists(s: seq<Byte>, at: nat, n: nat, spill: nat, val: nat) returns (t: seq<Byte>)
    requires WholeWords(s)
    ensures Written(s, t, at, n, spill, val)
  {
    var g := (k: nat) => k < 8 * |s| && WrittenBit(s, at, n, spill, val, k);
    t := PackBuffer(g, |s|);
    forall k | 0 <= k < 8 * |s|
      ensures BufBit(t, k) == WrittenBit(s, at, n, spill, val, k)
    {
      PackBufferBits(g, |s|, k);
    }
  }

  // ----- fields of at most 32 bits

  /** The field lies inside one byte, short of its top bit: the first branch of the code. */
  predicate InByte(at: nat, len: nat) {
    at % 8 + len < 8
  }

  /** `(8 - off) & 7` for an offset inside a byte: the bits from there to the end of the
      byte, or none if it is the start. */
  function PreOf(off: nat): nat
    requires off < 8
  {
    if off == 0 then 0 else 8 - off
  }

  function PreBits(at: nat): nat {
    PreOf(at % 8)
  }

  function PostBits(at: nat, len: nat): nat {
    (at + len) % 8
  }

  /** The number of bits the code's split covers. */
  function Extent(at: nat, len: nat): nat {
    if InByte(at, len) then len else PreBits(at) + 8 * (len / 8) + PostBits(at, len)
  }

  /** How many bits past the field the code or-s in, since it does not mask the value
      that goes into the last, partial byte. */
  function SpillBits(at: nat, len: nat): nat {
    if InByte(at, len) || PostBits(at, len) == 0 then 0 else 8 - PostBits(at, len)
  }

  /** The split covers the field exactly. */
  predicate WellFormed(at: nat, len: nat) {
    InByte(at, len) || PreBits(at) + PostBits(at, len) < 8
  }

  lemma ExtentExact(at: nat, len: nat)
    ensures Extent(at, len) == len <==> WellFormed(at, len)
    ensures !WellFormed(at, len) ==> Extent(at, len) == len + 8
    ensures !InByte(at, len) ==> (at + Extent(at, len) - PostBits(at, len)) % 8 == 0
    ensures !InByte(at, len) ==> (at + Extent(at, len)) % 8 == PostBits(at, len)
  {
    if !InByte(at, len) {
      var pre, post := PreBits(at), PostBits(at, len);
      assert (at + pre) % 8 == 0;
      assert (at + len - post) % 8 == 0;
    }
  }

  /** The field's first bit, counted from the start of the buffer. */
  function FieldAt(base: nat, f: Field): nat {
    8 * base + f.bitoffs
  }

  predicate InBuffer(n: nat, base: nat, f: Field) {
    var at := FieldAt(base, f);
    at < 8 * n && at + Extent(at, f.bitlen) <= 8 * n
  }

  /** Named so that the solver does not unroll the recursion on a literal 8. */
  const BYTE_BITS: nat := 8

  function ToByte(w: nat): Byte {
    TruncBound(w, BYTE_BITS);
    Pow2Byte();
    Trunc(w, BYTE_BITS)
  }

  /** A store of `w` to byte `idx` of the swizzled buffer, as `p[3 ^ idx] = w` on a `char *`. */
  function Store(s: seq<Byte>, idx: nat, w: nat): (t: seq<Byte>)
    requires WholeWords(s) && idx < |s|
    ensures |t| == |s|
  {
    SwizzleInBounds(idx, |s|);
    s[Swizzle(idx) := ToByte(w)]
  }

  lemma StoreByteAt(s: seq<Byte>, idx: nat, w: nat, j: nat)
    requires WholeWords(s) && idx < |s| && j < |s|
    ensures BufByte(Store(s, idx, w), j) == if j == idx then ToByte(w) else BufByte(s, j)
  {
    SwizzleInBounds(idx, |s|);
    SwizzleInBounds(j, |s|);
    if j != idx { SwizzleInjective(j, idx); }
  }

  lemma ToByteBit(w: nat, i: nat)
    requires i < 8
    ensures Bit(ToByte(w), i) == Bit(w, i)
  {
    BitTrunc(w, BYTE_BITS, i);
  }

  lemma StoreBit(s: seq<Byte>, idx: nat, w: nat, k: nat)
    requires WholeWords(s) && idx < |s| && k < 8 * |s|
    ensures BufBit(Store(s, idx, w), k) == if k / 8 == idx then Bit(w, k % 8) else BufBit(s, k)
  {
    StoreByteAt(s, idx, w, k / 8);
    ToByteBit(w, k % 8);
  }

  function InByteStore(p: nat, val: nat, len: nat, off: nat): nat {
    Or(AndNot(p, Shl(Mask(len), off)), Shl(And(val, Mask(len)), off))
  }

  lemma InByteStoreBit(p: nat, v: nat, len: nat, off: nat, i: nat)
    ensures Bit(InByteStore(p, v, len, off), i) == if off <= i < off + len then Bit(v, i - off) else Bit(p, i)
  {
    BitOr(AndNot(p, Shl(Mask(len), off)), Shl(And(v, Mask(len)), off), i);
    BitAndNot(p, Shl(Mask(len), off), i);
    BitShl(Mask(len), off, i);
    BitShl(And(v, Mask(len)), off, i);
    if i >= off {
      BitMask(len, i - off);
      BitAnd(v, Mask(len), i - off);
    }
  }

  lemma InByteStep(s: seq<Byte>, at: nat, len: nat, v: nat, idx: nat, off: nat)
    requires WholeWords(s) && idx < |s| && at == 8 * idx + off && off + len < 8
    ensures Written(s, Store(s, idx, InByteStore(BufByte(s, idx), v, len, off)), at, len, 0, v)
  {
    var w := InByteStore(BufByte(s, idx), v, len, off);
    forall k | 0 <= k < 8 * |s|
      ensures BufBit(Store(s, idx, w), k) == WrittenBit(s, at, len, 0, v, k)
    {
      StoreBit(s, idx, w, k);
      InByteStoreBit(BufByte(s, idx), v, len, off, k % 8);
    }
  }

  function PreStore(p: nat, val: nat, pre: nat): nat
    requires pre <= 8
  {
    Or(And(p, Mask(8 - pre)), Shl(And(val, Mask(pre)), 8 - pre))
  }

  lemma PreStoreBit(p: nat, v: nat, pre: nat, i: nat)
    requires pre <= 8 && i < 8
    ensures Bit(PreStore(p, v, pre), i) == if i >= 8 - pre then Bit(v, i - (8 - pre)) else Bit(p, i)
  {
    var low := 8 - pre;
    BitOr(And(p, Mask(low)), Shl(And(v, Mask(pre)), low), i);
    BitAnd(p, Mask(low), i);
    BitMask(low, i);
    BitShl(And(v, Mask(pre)), low, i);
    if i >= low {
      BitAnd(v, Mask(pre), i - low);
      BitMask(pre, i - low);
    }
  }

  lemma PreStep(s: seq<Byte>, at: nat, v: nat, idx: nat, off: nat)
    requires WholeWords(s) && idx < |s| && at == 8 * idx + off && 0 < off < 8
    ensures Written(s, Store(s, idx, PreStore(BufByte(s, idx), v, 8 - off)), at, 8 - off, 0, v)
  {
    var w := PreStore(BufByte(s, idx), v, 8 - off);
    forall k | 0 <= k < 8 * |s|
      ensures BufBit(Store(s, idx, w), k) == WrittenBit(s, at, 8 - off, 0, v, k)
    {
      StoreBit(s, idx, w, k);
      PreStoreBit(BufByte(s, idx), v, 8 - off, k % 8);
    }
  }

  lemma ByteStep(s: seq<Byte>, t: seq<Byte>, at: nat, n: nat, v: nat, idx: nat)
    requires WholeWords(s) && Written(s, t, at, n, 0, v) && idx < |s| && at + n == 8 * idx
    ensures Written(s, Store(t, idx, And(Shr(v, n), Mask(BYTE_BITS))), at, n + 8, 0, v)
  {
    var w := And(Shr(v, n), Mask(BYTE_BITS));
    forall k | 0 <= k < 8 * |s|
      ensures BufBit(Store(t, idx, w), k) == WrittenBit(s, at, n + 8, 0, v, k)
    {
      StoreBit(t, idx, w, k);
      BitAnd(Shr(v, n), Mask(BYTE_BITS), k % 8);
      BitMask(BYTE_BITS, k % 8);
      BitShr(v, n, k % 8);
      assert BufBit(t, k) == WrittenBit(s, at, n, 0, v, k);
    }
  }

  function PostStore(p: nat, val: nat, post: nat): nat {
    Or(AndNot(p, Mask(post)), val)
  }

  lemma PostStoreBit(p: nat, v: nat, n: nat, post: nat, i: nat)
    ensures Bit(PostStore(p, Shr(v, n), post), i) ==
            if i < post then Bit(v, n + i) else Bit(p, i) || Bit(v, n + i)
  {
    BitOr(AndNot(p, Mask(post)), Shr(v, n), i);
    BitAndNot(p, Mask(post), i);
    BitMask(post, i);
    BitShr(v, n, i);
  }

  lemma PostStep(s: seq<Byte>, t: seq<Byte>, at: nat, n: nat, post: nat, v: nat, idx: nat)
    requires WholeWords(s) && Written(s, t, at, n, 0, v) && idx < |s| && at + n == 8 * idx && 0 < post < 8
    ensures Written(s, Store(t, idx, PostStore(BufByte(t, idx), Shr(v, n), post)), at, n + post, 8 - post, v)
  {
    var w := PostStore(BufByte(t, idx), Shr(v, n), post);
    forall k | 0 <= k < 8 * |s|
      ensures BufBit(Store(t, idx, w), k) == WrittenBit(s, at, n + post, 8 - post, v, k)
    {
      StoreBit(t, idx, w, k);
      PostStoreBit(BufByte(t, idx), v, n, post, k % 8);
      assert BufBit(t, k) == WrittenBit(s, at, n, 0, v, k);
    }
  }

  lemma ModShift(base: nat, x: nat)
    ensures (8 * base + x) % 8 == x % 8 && (8 * base + x) / 8 == base + x / 8
  {}

  /** The numbers the code computes from a base offset and a field. */
  lemma FieldPlan(base: nat, f: Field)
    ensures var at, off, len, post := FieldAt(base, f), f.bitoffs % 8, f.bitlen, (f.bitoffs + f.bitlen) % 8;
            && at == 8 * (base + f.bitoffs / 8) + off
            && (InByte(at, len) <==> len / 8 == 0 && off + len < 8)
            && (InByte(at, len) ==> Extent(at, len) == len && SpillBits(at, len) == 0)
            && post == PostBits(at, len)
            && 8 * (base + (f.bitoffs + len) / 8) == at + len - post
            && (!InByte(at, len) ==> Extent(at, len) == PreOf(off) + 8 * (len / 8) + post)
            && (!InByte(at, len) ==> SpillBits(at, len) == if post == 0 then 0 else 8 - post)
  {
    ModShift(base, f.bitoffs);
    ModShift(base, f.bitoffs + f.bitlen);
    assert FieldAt(base, f) + f.bitlen == 8 * base + (f.bitoffs + f.bitlen);
  }

  method StoreByte(buf: array<Byte>, idx: nat, w: nat)
    requires WholeWords(buf[..]) && idx < buf.Length
    modifies buf
    ensures buf[..] == Store(old(buf[..]), idx, w)
  {
    SwizzleInBounds(idx, buf.Length);
    buf[Swizzle(idx)] := ToByte(w);
  }

  lemma WrittenNothing(s: seq<Byte>, at: nat, v: nat)
    requires WholeWords(s)
    ensures Written(s, s, at, 0, 0, v)
  {}

  /** The whole bytes of a field whose first `n` bits are already written. */
  method SetBytes(buf: array<Byte>, start: nat, bytelen: nat, v: nat,
                  ghost s: seq<Byte>, ghost at: nat, n: nat)
    requires WholeWords(s) && Written(s, buf[..], at, n, 0, v)
    requires at + n == 8 * start && start + bytelen <= buf.Length
    modifies buf
    ensures Written(s, buf[..], at, n + 8 * bytelen, 0, v)
  {
    var idx, val := start, Shr(v, n);
    while idx < start + bytelen
      invariant start <= idx <= start + bytelen
      invariant val == Shr(v, n + 8 * (idx - start))
      invariant Written(s, buf[..], at, n + 8 * (idx - start), 0, v)
    {
      ByteStep(s, buf[..], at, n + 8 * (idx - start), v, idx);
      StoreByte(buf, idx, And(val, Mask(BYTE_BITS)));
      ShrShr(v, n + 8 * (idx - start), BYTE_BITS);
      idx, val := idx + 1, Shr(val, BYTE_BITS);
    }
  }

  /** The part of `_set_field` for a field that reaches the end of its first byte: the
      leading bits, the whole bytes, the trailing bits. */
  method SetSpan(buf: array<Byte>, start: nat, off: nat, bytelen: nat, postbits: nat, v: nat, ghost at: nat)
    requires WholeWords(buf[..]) && at == 8 * start + off && off < 8 && postbits < 8
    requires at < 8 * buf.Length && at + PreOf(off) + 8 * bytelen + postbits <= 8 * buf.Length
    modifies buf
    ensures Written(old(buf[..]), buf[..], at, PreOf(off) + 8 * bytelen + postbits,
                    if postbits == 0 then 0 else 8 - postbits, v)
  {
    ghost var s := buf[..];
    var idx, prebits := start, 0;
    if off != 0 {
      prebits := 8 - off;
      PreStep(s, at, v, idx, off);
      StoreByte(buf, idx, PreStore(BufByte(buf[..], idx), v, prebits));
      idx := idx + 1;
    } else {
      WrittenNothing(s, at, v);
    }
    SetBytes(buf, idx, bytelen, v, s, at, prebits);
    idx := idx + bytelen;
    var n := prebits + 8 * bytelen;
    if postbits != 0 {
      PostStep(s, buf[..], at, n, postbits, v, idx);
      StoreByte(buf, idx, PostStore(BufByte(buf[..], idx), Shr(v, n), postbits));
    }
  }

  /** `_set_field` with its arithmetic done: `len` bits at place `off` of byte `idx`. */
  method SetPlanned(buf: array<Byte>, idx: nat, off: nat, len: nat, bytelen: nat, postbits: nat, v: nat, ghost at: nat)
    requires WholeWords(buf[..]) && at == 8 * idx + off && off < 8 && postbits < 8 && at < 8 * buf.Length
    requires !(bytelen == 0 && off + len < 8) ==> at + PreOf(off) + 8 * bytelen + postbits <= 8 * buf.Length
    modifies buf
    ensures bytelen == 0 && off + len < 8 ==> Written(old(buf[..]), buf[..], at, len, 0, v)
    ensures !(bytelen == 0 && off + len < 8) ==>
              Written(old(buf[..]), buf[..], at, PreOf(off) + 8 * bytelen + postbits, if postbits == 0 then 0 else 8 - postbits, v)
  {
    if bytelen == 0 && off + len < 8 {
      InByteStep(buf[..], at, len, v, idx, off);
      StoreByte(buf, idx, InByteStore(BufByte(buf[..], idx), v, len, off));
    } else {
      SetSpan(buf, idx, off, bytelen, postbits, v, at);
    }
  }

  /** `_set_field`: every bit of the buffer afterwards, for every value. */
  method SetField(buf: array<Byte>, base: nat, f: Field, v: nat)
    requires WholeWords(buf[..]) && f.bitlen <= 32 && v < Pow2(32)
    requires InBuffer(buf.Length, base, f)
    modifies buf
    ensures var at := FieldAt(base, f);
            Written(old(buf[..]), buf[..], at, Extent(at, f.bitlen), SpillBits(at, f.bitlen), v)
  {
    FieldPlan(base, f);
    SetPlanned(buf, base + f.bitoffs / 8, f.bitoffs % 8, f.bitlen, f.bitlen / 8, (f.bitoffs + f.bitlen) % 8, v, FieldAt(base, f));
  }

  // ----- reading

  const WORD_BITS: nat := 32

  /** The bits of a buffer as a function of their position, none beyond its end. */
  function BitsOf(s: seq<Byte>): nat -> bool
    requires WholeWords(s)
  {
    (k: nat) => k < 8 * |s| && BufBit(s, k)
  }

  lemma ByteLoad(s: seq<Byte>, idx: nat, i: nat)
    requires WholeWords(s) && idx < |s|
    ensures Bit(BufByte(s, idx), i) == (i < 8 && BitsOf(s)(8 * idx + i))
  {
    if i < 8 {
      Split8(idx, i);
    } else {
      Pow2Byte();
      HighBitsZero(BufByte(s, idx), BYTE_BITS, i);
    }
  }

  /** `(val << n) | low` in a 32-bit variable. */
  function Push(val: nat, n: nat, low: nat): nat {
    Trunc(Or(Shl(val, n), low), WORD_BITS)
  }

  lemma PushBit(val: nat, n: nat, low: nat, i: nat)
    ensures Bit(Push(val, n, low), i) == (i < WORD_BITS && ((i >= n && Bit(val, i - n)) || Bit(low, i)))
    ensures Push(val, n, low) < Pow2(WORD_BITS)
  {
    TruncBound(Or(Shl(val, n), low), WORD_BITS);
    BitTrunc(Or(Shl(val, n), low), WORD_BITS, i);
    BitOr(Shl(val, n), low, i);
    BitShl(val, n, i);
  }

  // The next lemmas are about any bit string `g`, of which `p` is byte `idx`.

  ghost predicate IsByte(g: nat -> bool, idx: nat, p: nat) {
    forall i: nat :: Bit(p, i) == (i < 8 && g(8 * idx + i))
  }

  /** Bit `i` of `n` whole bytes from byte `first` with `post` bits of byte `postIdx` above them. */
  predicate LoadedBit(g: nat -> bool, first: nat, n: nat, post: nat, postIdx: nat, i: nat) {
    i < WORD_BITS &&
    if i < 8 * n then g(8 * first + i)
    else i < 8 * n + post && g(8 * postIdx + (i - 8 * n))
  }

  ghost predicate Loaded(g: nat -> bool, first: nat, n: nat, post: nat, postIdx: nat, val: nat) {
    forall i: nat :: Bit(val, i) == LoadedBit(g, first, n, post, postIdx, i)
  }

  lemma LoadStart(g: nat -> bool, first: nat, post: nat, postIdx: nat, p: nat)
    requires post < 8 && (post == 0 || IsByte(g, postIdx, p))
    ensures Loaded(g, first, 0, post, postIdx, if post == 0 then 0 else And(p, Mask(post)))
  {
    forall i: nat
      ensures Bit(if post == 0 then 0 else And(p, Mask(post)), i) == LoadedBit(g, first, 0, post, postIdx, i)
    {
      BitZero(i);
      BitAnd(p, Mask(post), i);
      BitMask(post, i);
    }
  }

  lemma LoadStepBit(g: nat -> bool, first: nat, n: nat, post: nat, postIdx: nat, val: nat, p: nat, i: nat)
    requires 0 < first && Bit(p, i) == (i < 8 && g(8 * (first - 1) + i))
    requires i >= 8 ==> Bit(val, i - 8) == LoadedBit(g, first, n, post, postIdx, i - 8)
    ensures Bit(Push(val, BYTE_BITS, p), i) == LoadedBit(g, first - 1, n + 1, post, postIdx, i)
  {
    PushBit(val, BYTE_BITS, p, i);
    if i >= 8 {
      assert 8 * first + (i - 8) == 8 * (first - 1) + i;
      assert i - 8 - 8 * n == i - 8 * (n + 1);
    }
  }

  lemma LoadStep(g: nat -> bool, first: nat, n: nat, post: nat, postIdx: nat, val: nat, p: nat)
    requires 0 < first && Loaded(g, first, n, post, postIdx, val) && IsByte(g, first - 1, p)
    ensures Loaded(g, first - 1, n + 1, post, postIdx, Push(val, BYTE_BITS, p))
  {
    forall i: nat
      ensures Bit(Push(val, BYTE_BITS, p), i) == LoadedBit(g, first - 1, n + 1, post, postIdx, i)
    {
      LoadStepBit(g, first, n, post, postIdx, val, p, i);
    }
  }

  /** Bit `i` of what `_get_field` returns: the trailing bits are taken from the byte in
      which the field ends, wherever the split put them. */
  predicate GotBit(g: nat -> bool, at: nat, len: nat, i: nat) {
    SplitBit(g, at, len, Extent(at, len), PostBits(at, len), i)
  }

  predicate SplitBit(g: nat -> bool, at: nat, len: nat, ext: nat, post: nat, i: nat) {
    && i < ext
    && i < WORD_BITS
    && g(if i + post < ext || at + len + i < ext then at + i else at + len + i - ext)
  }

  ghost predicate GotSplit(g: nat -> bool, at: nat, len: nat, ext: nat, post: nat, val: nat) {
    forall i: nat :: Bit(val, i) == SplitBit(g, at, len, ext, post, i)
  }

  ghost predicate Got(g: nat -> bool, at: nat, len: nat, val: nat) {
    forall i: nat :: Bit(val, i) == GotBit(g, at, len, i)
  }

  lemma InByteLoad(g: nat -> bool, at: nat, len: nat, idx: nat, off: nat, post: nat, p: nat)
    requires at == 8 * idx + off && off + len < 8 && IsByte(g, idx, p)
    ensures GotSplit(g, at, len, len, post, And(Shr(p, off), Mask(len)))
  {
    forall i: nat
      ensures Bit(And(Shr(p, off), Mask(len)), i) == SplitBit(g, at, len, len, post, i)
    {
      BitAnd(Shr(p, off), Mask(len), i);
      BitShr(p, off, i);
      BitMask(len, i);
      assert 8 * idx + (i + off) == at + i;
    }
  }

  lemma InByteSmall(p: Byte, off: nat, len: nat)
    ensures And(Shr(p, off), Mask(len)) < Pow2(WORD_BITS)
  {
    AndBound(Shr(p, off), Mask(len));
    ShrBound(p, off);
    Pow2Byte();
    Pow2Add(8, 24);
  }

  lemma SpanLoadBit(g: nat -> bool, at: nat, len: nat, pre: nat, n: nat, post: nat, first: nat, postIdx: nat,
                    val: nat, v: nat, i: nat)
    requires 8 * first == at + pre && 8 * postIdx == at + len - post
    requires i >= pre ==> Bit(val, i - pre) == LoadedBit(g, first, n, post, postIdx, i - pre)
    requires Bit(v, i) == (i < pre && g(at + i))
    ensures Bit(Push(val, pre, v), i) == SplitBit(g, at, len, pre + 8 * n + post, post, i)
  {
    PushBit(val, pre, v, i);
    if i >= pre {
      assert 8 * first + (i - pre) == at + i;
      if i - pre >= 8 * n { assert 8 * postIdx + (i - pre - 8 * n) == at + len + i - (pre + 8 * n + post); }
    }
  }

  lemma SpanLoad(g: nat -> bool, at: nat, len: nat, pre: nat, n: nat, post: nat, first: nat, postIdx: nat, val: nat, v: nat)
    requires 8 * first == at + pre && 8 * postIdx == at + len - post
    requires Loaded(g, first, n, post, postIdx, val)
    requires forall i: nat :: Bit(v, i) == (i < pre && g(at + i))
    ensures GotSplit(g, at, len, pre + 8 * n + post, post, Push(val, pre, v))
  {
    forall i: nat
      ensures Bit(Push(val, pre, v), i) == SplitBit(g, at, len, pre + 8 * n + post, post, i)
    {
      SpanLoadBit(g, at, len, pre, n, post, first, postIdx, val, v, i);
    }
  }

  lemma PreLoad(g: nat -> bool, at: nat, idx: nat, off: nat, p: nat)
    requires at == 8 * idx + off && 0 < off < 8 && IsByte(g, idx, p)
    ensures forall i: nat :: Bit(Shr(p, off), i) == (i < 8 - off && g(at + i))
  {
    forall i: nat
      ensures Bit(Shr(p, off), i) == (i < 8 - off && g(at + i))
    {
      BitShr(p, off, i);
      assert 8 * idx + (i + off) == at + i;
    }
  }

  /** `p[3 ^ idx]`. */
  method LoadByte(buf: array<Byte>, idx: nat, ghost g: nat -> bool) returns (p: Byte)
    requires WholeWords(buf[..]) && g == BitsOf(buf[..]) && idx < buf.Length
    ensures IsByte(g, idx, p)
  {
    p := BufByte(buf[..], idx);
    forall i: nat ensures Bit(p, i) == (i < 8 && g(8 * idx + i)) { ByteLoad(buf[..], idx, i); }
  }

  /** The trailing bits. */
  method GetLast(buf: array<Byte>, first: nat, postbits: nat, postIdx: nat, ghost g: nat -> bool) returns (val: nat)
    requires WholeWords(buf[..]) && g == BitsOf(buf[..]) && postbits < 8 && (postbits != 0 ==> postIdx < buf.Length)
    ensures Loaded(g, first, 0, postbits, postIdx, val)
  {
    var p := 0;
    if postbits != 0 {
      p := LoadByte(buf, postIdx, g);
    }
    LoadStart(g, first, postbits, postIdx, p);
    val := if postbits == 0 then 0 else And(p, Mask(postbits));
  }

  /** One more byte below those already loaded. */
  method GetByte(buf: array<Byte>, idx: nat, n: nat, postbits: nat, postIdx: nat, val: nat, ghost g: nat -> bool)
    returns (r: nat)
    requires WholeWords(buf[..]) && g == BitsOf(buf[..]) && 0 < idx <= buf.Length && Loaded(g, idx, n, postbits, postIdx, val)
    ensures Loaded(g, idx - 1, n + 1, postbits, postIdx, r)
  {
    var p := LoadByte(buf, idx - 1, g);
    LoadStep(g, idx, n, postbits, postIdx, val, p);
    r := Push(val, BYTE_BITS, p);
  }

  /** The trailing bits and, below them, the whole bytes of a field, from the top down. */
  method GetBytes(buf: array<Byte>, first: nat, bytelen: nat, postbits: nat, postIdx: nat, ghost g: nat -> bool)
    returns (val: nat)
    requires WholeWords(buf[..]) && g == BitsOf(buf[..]) && first + bytelen <= buf.Length && postbits < 8
    requires postbits != 0 ==> postIdx < buf.Length
    ensures Loaded(g, first, bytelen, postbits, postIdx, val)
  {
    val := GetLast(buf, first + bytelen, postbits, postIdx, g);
    var idx, n := first + bytelen, 0;
    while n < bytelen
      invariant n <= bytelen && idx + n == first + bytelen
      invariant Loaded(g, idx, n, postbits, postIdx, val)
    {
      val := GetByte(buf, idx, n, postbits, postIdx, val, g);
      idx, n := idx - 1, n + 1;
    }
  }

  /** The part of `_get_field` for a field that reaches the end of its first byte. */
  method GetSpan(buf: array<Byte>, start: nat, off: nat, len: nat, bytelen: nat, postbits: nat, postIdx: nat,
                 ghost at: nat, ghost g: nat -> bool) returns (r: nat)
    requires WholeWords(buf[..]) && g == BitsOf(buf[..]) && off < 8 && postbits < 8 && at == 8 * start + off
    requires 8 * postIdx == at + len - postbits && at < 8 * buf.Length
    requires at + PreOf(off) + 8 * bytelen + postbits <= 8 * buf.Length && (postbits != 0 ==> postIdx < buf.Length)
    ensures GotSplit(g, at, len, PreOf(off) + 8 * bytelen + postbits, postbits, r) && r < Pow2(WORD_BITS)
  {
    var v, idx := GetFirst(buf, start, off, at, g);
    var val := GetBytes(buf, idx, bytelen, postbits, postIdx, g);
    PushBit(val, PreOf(off), v, 0);
    SpanLoad(g, at, len, PreOf(off), bytelen, postbits, idx, postIdx, val, v);
    r := Push(val, PreOf(off), v);
  }

  /** The leading bits, and the index of the byte after them. */
  method GetFirst(buf: array<Byte>, start: nat, off: nat, ghost at: nat, ghost g: nat -> bool) returns (v: nat, idx: nat)
    requires WholeWords(buf[..]) && g == BitsOf(buf[..]) && off < 8 && at == 8 * start + off && at < 8 * buf.Length
    ensures 8 * idx == at + PreOf(off) && forall i: nat :: Bit(v, i) == (i < PreOf(off) && g(at + i))
  {
    if off != 0 {
      var p := LoadByte(buf, start, g);
      PreLoad(g, at, start, off, p);
      return Shr(p, off), start + 1;
    }
    forall i: nat ensures !Bit(0, i) { BitZero(i); }
    return 0, start;
  }

  /** `_get_field` with its arithmetic done. */
  method GetPlanned(buf: array<Byte>, idx: nat, off: nat, len: nat, bytelen: nat, postbits: nat, postIdx: nat,
                    ghost at: nat, ghost ext: nat, ghost g: nat -> bool) returns (r: nat)
    requires WholeWords(buf[..]) && g == BitsOf(buf[..]) && off < 8 && postbits < 8 && at == 8 * idx + off
    requires 8 * postIdx == at + len - postbits && at < 8 * buf.Length
    requires ext == if bytelen == 0 && off + len < 8 then len else PreOf(off) + 8 * bytelen + postbits
    requires !(bytelen == 0 && off + len < 8) ==>
               at + PreOf(off) + 8 * bytelen + postbits <= 8 * buf.Length && (postbits != 0 ==> postIdx < buf.Length)
    ensures GotSplit(g, at, len, ext, postbits, r) && r < Pow2(WORD_BITS)
  {
    if bytelen == 0 && off + len < 8 {
      var p := LoadByte(buf, idx, g);
      InByteLoad(g, at, len, idx, off, postbits, p);
      InByteSmall(p, off, len);
      r := And(Shr(p, off), Mask(len));
    } else {
      r := GetSpan(buf, idx, off, len, bytelen, postbits, postIdx, at, g);
    }
  }

  /** `_get_field`: every bit of the result. */
  method GetField(buf: array<Byte>, base: nat, f: Field) returns (r: nat)
    requires WholeWords(buf[..]) && f.bitlen <= 32 && InBuffer(buf.Length, base, f)
    ensures Got(BitsOf(buf[..]), FieldAt(base, f), f.bitlen, r) && r < Pow2(WORD_BITS)
  {
    ghost var at, g := FieldAt(base, f), BitsOf(buf[..]);
    FieldPlan(base, f);
    PostInBuffer(buf.Length, base, f);
    var postbits := (f.bitoffs + f.bitlen) % 8;
    ghost var ext := Extent(at, f.bitlen);
    r := GetPlanned(buf, base + f.bitoffs / 8, f.bitoffs % 8, f.bitlen, f.bitlen / 8, postbits,
                    base + (f.bitoffs + f.bitlen) / 8, at, ext, g);
    SplitIsGot(g, at, f.bitlen, ext, postbits, r);
  }

  lemma SplitIsGot(g: nat -> bool, at: nat, len: nat, ext: nat, post: nat, r: nat)
    requires ext == Extent(at, len) && post == PostBits(at, len) && GotSplit(g, at, len, ext, post, r)
    ensures Got(g, at, len, r)
  {}

  /** The byte in which a field ends is in the buffer. */
  lemma PostInBuffer(n: nat, base: nat, f: Field)
    requires InBuffer(n, base, f)
    ensures (f.bitoffs + f.bitlen) % 8 != 0 && !InByte(FieldAt(base, f), f.bitlen) ==> base + (f.bitoffs + f.bitlen) / 8 < n
  {
    FieldPlan(base, f);
    ExtentExact(FieldAt(base, f), f.bitlen);
  }
}
