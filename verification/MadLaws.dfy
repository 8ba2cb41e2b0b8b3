/** What `_set_field` and `_get_field` promise together: the round trip, the frame, when
    writes commute, which fields and values they are exact for, and that a normalised
    offset selects the bits the InfiniBand specification names. */
module MadLaws {
  import opened Bits
  import opened MadFields

  /** The write an ideal field store would do. */
  ghost predicate Exact(s: seq<Byte>, t: seq<Byte>, at: nat, len: nat, v: nat)
    requires WholeWords(s)
  {
    Written(s, t, at, len, 0, v)
  }

  /** What `SetField` does to a buffer. */
  ghost predicate FieldSet(s: seq<Byte>, t: seq<Byte>, at: nat, len: nat, v: nat)
    requires WholeWords(s)
  {
    Written(s, t, at, Extent(at, len), SpillBits(at, len), v)
  }

  /** No bit of `v` past the field would be or-ed into the buffer. */
  ghost predicate NoSpill(at: nat, len: nat, v: nat) {
    forall i :: len <= i < len + SpillBits(at, len) ==> !Bit(v, i)
  }

  lemma SmallNoSpill(at: nat, len: nat, v: nat)
    requires v < Pow2(len)
    ensures NoSpill(at, len, v)
  {
    forall i | len <= i < len + SpillBits(at, len) ensures !Bit(v, i) { HighBitsZero(v, len, i); }
  }

  lemma SetIsExact(s: seq<Byte>, t: seq<Byte>, at: nat, len: nat, v: nat)
    requires WholeWords(s) && WellFormed(at, len) && FieldSet(s, t, at, len, v) && NoSpill(at, len, v)
    ensures Exact(s, t, at, len, v)
  {
    ExtentExact(at, len);
    forall k | 0 <= k < 8 * |s|
      ensures BufBit(t, k) == WrittenBit(s, at, len, 0, v, k)
    {
      assert BufBit(t, k) == WrittenBit(s, at, len, SpillBits(at, len), v, k);
    }
  }

  // ----- exactly which fields and values are exact

  function Ones(n: nat): (s: seq<Byte>)
    ensures |s| == n
  {
    PackBuffer((k: nat) => true, n)
  }

  function Zeros(n: nat): (s: seq<Byte>)
    ensures |s| == n
  {
    PackBuffer((k: nat) => false, n)
  }

  ghost predicate ExactForFitting(n: nat, at: nat, len: nat)
    requires n % 4 == 0
  {
    forall s, t, v: nat :: |s| == n && v < Pow2(len) && FieldSet(s, t, at, len, v) ==> Exact(s, t, at, len, v)
  }

  /** A field is written exactly, for every buffer and every value that fits it, if and
      only if the leading and trailing bits do not add up to a whole byte. */
  lemma SetExactIff(n: nat, at: nat, len: nat)
    requires n % 4 == 0 && at + Extent(at, len) <= 8 * n
    ensures ExactForFitting(n, at, len) <==> WellFormed(at, len)
  {
    if WellFormed(at, len) {
      forall s, t, v: nat | |s| == n && v < Pow2(len) && FieldSet(s, t, at, len, v)
        ensures Exact(s, t, at, len, v)
      {
        SmallNoSpill(at, len, v);
        SetIsExact(s, t, at, len, v);
      }
    } else {
      // Clearing the field in a buffer of ones clears the bit just past it.
      var s := Ones(n);
      ExtentExact(at, len);
      var t := WrittenExists(s, at, Extent(at, len), SpillBits(at, len), 0);
      PackBufferBits((k: nat) => true, n, at + len);
      BitZero(len);
      assert BufBit(t, at + len) == WrittenBit(s, at, Extent(at, len), SpillBits(at, len), 0, at + len);
      assert FieldSet(s, t, at, len, 0) && !Exact(s, t, at, len, 0);
    }
  }

  ghost predicate ExactForAll(n: nat, at: nat, len: nat, v: nat)
    requires n % 4 == 0
  {
    forall s, t :: |s| == n && FieldSet(s, t, at, len, v) ==> Exact(s, t, at, len, v)
  }

  /** In a field whose split is exact, a value is written without touching any other bit of any
      buffer if and only if its bits in the rest of the last byte are zero. */
  lemma SetValueIff(n: nat, at: nat, len: nat, v: nat)
    requires n % 4 == 0 && at + len + SpillBits(at, len) <= 8 * n && WellFormed(at, len)
    ensures ExactForAll(n, at, len, v) <==> NoSpill(at, len, v)
  {
    if NoSpill(at, len, v) {
      forall s, t | |s| == n && FieldSet(s, t, at, len, v)
        ensures Exact(s, t, at, len, v)
      {
        SetIsExact(s, t, at, len, v);
      }
    } else {
      ExtentExact(at, len);
      var s, t := SpillSeen(n, at, len, SpillBits(at, len), v);
      assert FieldSet(s, t, at, len, v) && !Exact(s, t, at, len, v);
    }
  }

  /** A bit that spills shows in a buffer of zeros. */
  lemma SpillSeen(n: nat, at: nat, len: nat, spill: nat, v: nat) returns (s: seq<Byte>, t: seq<Byte>)
    requires n % 4 == 0 && at + len + spill <= 8 * n && exists i :: len <= i < len + spill && Bit(v, i)
    ensures |s| == n && Written(s, t, at, len, spill, v) && !Written(s, t, at, len, 0, v)
  {
    var i :| len <= i < len + spill && Bit(v, i);
    s := Zeros(n);
    t := WrittenExists(s, at, len, spill, v);
    PackBufferBits((k: nat) => false, n, at + i);
    assert BufBit(t, at + i) == WrittenBit(s, at, len, spill, v, at + i);
    assert BufBit(t, at + i) != WrittenBit(s, at, len, 0, v, at + i);
  }

  // ----- reading

  /** A split that covers the field, or runs past it in a field of 32 bits, gives its bits. */
  lemma SplitReadBit(s: seq<Byte>, at: nat, len: nat, ext: nat, post: nat, i: nat)
    requires WholeWords(s) && at + len <= 8 * |s| && post < 8 && i < WORD_BITS
    requires ext == len || (ext == len + 8 && len == WORD_BITS)
    ensures SplitBit(BitsOf(s), at, len, ext, post, i) == Bit(ReadBits(s, at, len), i)
  {
    SplitIsField(BitsOf(s), at, len, ext, post, i);
    ReadBitsBit(s, at, len, i);
  }

  lemma SplitIsField(g: nat -> bool, at: nat, len: nat, ext: nat, post: nat, i: nat)
    requires post < 8 && i < WORD_BITS && (ext == len || (ext == len + 8 && len == WORD_BITS))
    ensures SplitBit(g, at, len, ext, post, i) == (i < len && g(at + i))
  {}

  lemma SplitIsRead(s: seq<Byte>, at: nat, len: nat, ext: nat, post: nat, r: nat)
    requires WholeWords(s) && at + len <= 8 * |s| && len <= WORD_BITS && post < 8
    requires ext == len || (ext == len + 8 && len == WORD_BITS)
    requires GotSplit(BitsOf(s), at, len, ext, post, r) && r < Pow2(WORD_BITS)
    ensures r == ReadBits(s, at, len)
  {
    forall i | 0 <= i < WORD_BITS
      ensures Bit(r, i) == Bit(ReadBits(s, at, len), i)
    {
      SplitReadBit(s, at, len, ext, post, i);
    }
    ReadBitsBit(s, at, len, 0);
    Pow2Monotone(len, WORD_BITS);
    BitsDetermine(r, ReadBits(s, at, len), WORD_BITS);
  }

  lemma GotIsSplit(g: nat -> bool, at: nat, len: nat, ext: nat, post: nat, r: nat)
    requires ext == Extent(at, len) && post == PostBits(at, len) && Got(g, at, len, r)
    ensures GotSplit(g, at, len, ext, post, r)
  {}

  lemma GotIsRead(s: seq<Byte>, at: nat, len: nat, r: nat)
    requires WholeWords(s) && at + len <= 8 * |s| && len <= 32
    requires WellFormed(at, len) && Got(BitsOf(s), at, len, r) && r < Pow2(WORD_BITS)
    ensures r == ReadBits(s, at, len)
  {
    ExtentExact(at, len);
    var ext, post := Extent(at, len), PostBits(at, len);
    GotIsSplit(BitsOf(s), at, len, ext, post, r);
    SplitIsRead(s, at, len, ext, post, r);
  }

  lemma {:induction false} Pow2Monotone(m: nat, n: nat)
    requires m <= n
    ensures Pow2(m) <= Pow2(n)
    decreases n
  {
    if m < n { Pow2Monotone(m, n - 1); }
  }

  lemma ReadBitsSame(s: seq<Byte>, t: seq<Byte>, a: nat, l: nat)
    requires WholeWords(s) && |t| == |s| && a + l <= 8 * |s|
    requires forall k :: a <= k < a + l ==> BufBit(s, k) == BufBit(t, k)
    ensures ReadBits(s, a, l) == ReadBits(t, a, l)
  {
    forall i | 0 <= i < l
      ensures Bit(ReadBits(s, a, l), i) == Bit(ReadBits(t, a, l), i)
    {
      ReadBitsBit(s, a, l, i);
      ReadBitsBit(t, a, l, i);
    }
    ReadBitsBit(s, a, l, 0);
    ReadBitsBit(t, a, l, 0);
    BitsDetermine(ReadBits(s, a, l), ReadBits(t, a, l), l);
  }

  ghost predicate ReadExact(n: nat, at: nat, len: nat)
    requires n % 4 == 0 && at + len <= 8 * n
  {
    forall s, r: nat :: |s| == n && Got(BitsOf(s), at, len, r) && r < Pow2(WORD_BITS) ==> r == ReadBits(s, at, len)
  }

  /** A field is read exactly, whatever the buffer holds, if and only if it is written
      exactly or has 32 bits: an overlong split then falls off the end of the result. */
  lemma GetExactIff(n: nat, at: nat, len: nat)
    requires n % 4 == 0 && at + Extent(at, len) <= 8 * n && len <= WORD_BITS && at + len <= 8 * n
    ensures ReadExact(n, at, len) <==> WellFormed(at, len) || len == WORD_BITS
  {
    if WellFormed(at, len) || len == WORD_BITS {
      forall s, r: nat | |s| == n && Got(BitsOf(s), at, len, r) && r < Pow2(WORD_BITS)
        ensures r == ReadBits(s, at, len)
      {
        if WellFormed(at, len) { GotIsRead(s, at, len, r); } else { GotWholeWord(s, at, len, r); }
      }
    } else {
      var r := GotPastField(n, at, len);
      var s := Ones(n);
      assert |s| == n && Got(BitsOf(s), at, len, r);
      ReadBitsBit(s, at, len, len);
    }
  }

  lemma PackAll(g: nat -> bool, n: nat) returns (r: nat)
    requires forall i: nat :: g(i) ==> i < n
    ensures r < Pow2(n) && forall i: nat :: Bit(r, i) == g(i)
  {
    r := Pack(g, 0, n);
    forall i: nat ensures Bit(r, i) == g(i) { PackBits(g, 0, n, i); }
    PackBits(g, 0, n, 0);
  }

  lemma GotExists(o: nat -> bool, at: nat, len: nat) returns (r: nat)
    ensures Got(o, at, len, r) && r < Pow2(WORD_BITS)
  {
    r := PackAll((i: nat) => GotBit(o, at, len, i), WORD_BITS);
  }

  lemma AllOnesGotBit(o: nat -> bool, n: nat, at: nat, len: nat)
    requires at + Extent(at, len) <= n && len < WORD_BITS && !WellFormed(at, len)
    requires forall k: nat :: k < n ==> o(k)
    ensures GotBit(o, at, len, len)
  {
    ExtentExact(at, len);
  }

  /** In a buffer of ones the bit past a field with an overlong split comes out set. */
  lemma GotPastField(n: nat, at: nat, len: nat) returns (r: nat)
    requires n % 4 == 0 && at + Extent(at, len) <= 8 * n && len < WORD_BITS && !WellFormed(at, len)
    ensures Got(BitsOf(Ones(n)), at, len, r) && r < Pow2(WORD_BITS) && Bit(r, len)
  {
    var o := BitsOf(Ones(n));
    r := GotExists(o, at, len);
    forall k: nat | k < 8 * n ensures o(k) { OnesBit(n, k); }
    AllOnesGotBit(o, 8 * n, at, len);
  }

  lemma OnesBit(n: nat, k: nat)
    requires n % 4 == 0 && k < 8 * n
    ensures BitsOf(Ones(n))(k)
  {
    PackBufferBits((k: nat) => true, n, k);
  }

  lemma GotWholeWord(s: seq<Byte>, at: nat, len: nat, r: nat)
    requires WholeWords(s) && len == WORD_BITS && at + len <= 8 * |s| && !WellFormed(at, len)
    requires Got(BitsOf(s), at, len, r) && r < Pow2(WORD_BITS)
    ensures r == ReadBits(s, at, len)
  {
    ExtentExact(at, len);
    var ext, post := Extent(at, len), PostBits(at, len);
    GotIsSplit(BitsOf(s), at, len, ext, post, r);
    SplitIsRead(s, at, len, ext, post, r);
  }

  /** Reading a field back after any write that ran over it gives the value's low bits. */
  lemma ReadAfterWrite(s: seq<Byte>, t: seq<Byte>, at: nat, n: nat, spill: nat, v: nat)
    requires WholeWords(s) && at + n <= 8 * |s| && Written(s, t, at, n, spill, v)
    ensures ReadBits(t, at, n) == Trunc(v, n)
  {
    forall i | 0 <= i < n
      ensures Bit(ReadBits(t, at, n), i) == Bit(Trunc(v, n), i)
    {
      ReadBitsBit(t, at, n, i);
      BitTrunc(v, n, i);
      assert BufBit(t, at + i) == WrittenBit(s, at, n, spill, v, at + i);
    }
    ReadBitsBit(t, at, n, 0);
    TruncBound(v, n);
    BitsDetermine(ReadBits(t, at, n), Trunc(v, n), n);
  }

  /** A write leaves every field it does not reach as it was. */
  lemma ReadFrame(s: seq<Byte>, t: seq<Byte>, at: nat, n: nat, spill: nat, v: nat, a: nat, l: nat)
    requires WholeWords(s) && Written(s, t, at, n, spill, v) && a + l <= 8 * |s|
    requires a + l <= at || at + n + spill <= a
    ensures ReadBits(t, a, l) == ReadBits(s, a, l)
  {
    forall k | a <= k < a + l
      ensures BufBit(t, k) == BufBit(s, k)
    {
      assert BufBit(t, k) == WrittenBit(s, at, n, spill, v, k);
    }
    ReadBitsSame(t, s, a, l);
  }

  /** `_get_field` after `_set_field` returns the value, and no other bit has changed. */
  lemma RoundTrip(s: seq<Byte>, t: seq<Byte>, at: nat, len: nat, v: nat, r: nat)
    requires WholeWords(s) && at + len <= 8 * |s| && len <= 32
    requires WellFormed(at, len) && v < Pow2(len) && FieldSet(s, t, at, len, v)
    requires Got(BitsOf(t), at, len, r) && r < Pow2(WORD_BITS)
    ensures r == v
    ensures forall k :: 0 <= k < 8 * |s| && !(at <= k < at + len) ==> BufBit(t, k) == BufBit(s, k)
  {
    SmallNoSpill(at, len, v);
    SetIsExact(s, t, at, len, v);
    GotIsRead(t, at, len, r);
    ReadAfterWrite(s, t, at, len, 0, v);
    TruncBound(v, len);
    forall k | 0 <= k < 8 * |s| && !(at <= k < at + len)
      ensures BufBit(t, k) == BufBit(s, k)
    {
      assert BufBit(t, k) == WrittenBit(s, at, len, 0, v, k);
    }
  }

  /** Writes to disjoint fields give the same buffer in either order. */
  lemma DisjointWritesCommute(s: seq<Byte>, s1: seq<Byte>, s12: seq<Byte>, s2: seq<Byte>, s21: seq<Byte>,
                              a: nat, l: nat, v: nat, b: nat, m: nat, w: nat)
    requires WholeWords(s) && (a + l <= b || b + m <= a)
    requires Exact(s, s1, a, l, v) && Exact(s1, s12, b, m, w)
    requires Exact(s, s2, b, m, w) && Exact(s2, s21, a, l, v)
    ensures s12 == s21
  {
    forall k | 0 <= k < 8 * |s|
      ensures BufBit(s12, k) == BufBit(s21, k)
    {
      assert BufBit(s12, k) == WrittenBit(s1, b, m, 0, w, k);
      assert BufBit(s1, k) == WrittenBit(s, a, l, 0, v, k);
      assert BufBit(s21, k) == WrittenBit(s2, a, l, 0, v, k);
      assert BufBit(s2, k) == WrittenBit(s, b, m, 0, w, k);
    }
    BufBitsDetermine(s12, s21);
  }

  // ----- the specification's numbering

  /** `BE_TO_BITSOFFS`, and the offset that `BITSOFFS` puts in the table. */
  function BitsOffs(o: nat, w: nat): nat
    requires o % 32 + w <= 32
  {
    o - o % 32 + (32 - o % 32 - w)
  }

  lemma BitsOffsInvolution(o: nat, w: nat)
    requires 0 < w && o % 32 + w <= 32
    ensures BitsOffs(o, w) % 32 + w <= 32
    ensures BitsOffs(BitsOffs(o, w), w) == o
  {}

  /** Bit `o` of the message, counted from the most significant bit of its first byte. */
  predicate SpecBit(s: seq<Byte>, o: nat)
    requires o < 8 * |s|
  {
    Bit(s[o / 8], 7 - o % 8)
  }

  /** Bits `o .. o + w` of the message as a number, `o` being the highest. */
  function SpecValue(s: seq<Byte>, o: nat, w: nat): nat
    requires o + w <= 8 * |s|
    decreases s, w
  {
    if w == 0 then 0 else Cons(SpecBit(s, o + w - 1), SpecValue(s, o, w - 1))
  }

  lemma {:induction false} SpecValueBit(s: seq<Byte>, o: nat, w: nat, i: nat)
    requires o + w <= 8 * |s|
    ensures Bit(SpecValue(s, o, w), i) == (i < w && SpecBit(s, o + w - 1 - i))
    ensures SpecValue(s, o, w) < Pow2(w)
    decreases w
  {
    if w == 0 {
      BitZero(i);
    } else if i > 0 {
      SpecValueBit(s, o, w - 1, i - 1);
    } else {
      SpecValueBit(s, o, w - 1, 0);
    }
  }

  /** Counting from the other end of a 32-bit word. */
  function Mirror(o: nat): nat {
    o - o % 32 + (31 - o % 32)
  }

  lemma MirrorParts(q: nat, b: nat, i: nat)
    requires b < 4 && i < 8
    ensures Mirror(32 * q + 8 * b + i) == 8 * (4 * q + 3 - b) + (7 - i)
    ensures Swizzle(4 * q + 3 - b) == 4 * q + b
  {
    Split32(q, 8 * b + i);
    SwizzleParts(q, 3 - b);
  }

  lemma MirrorByte(o: nat)
    ensures Swizzle(Mirror(o) / 8) == o / 8
    ensures Mirror(o) % 8 == 7 - o % 8
  {
    var q, b, i := BitParts(o);
    MirrorParts(q, b, i);
    Split8(4 * q + 3 - b, 7 - i);
    Split8(4 * q + b, i);
  }

  lemma SpecBitIsBufBit(s: seq<Byte>, o: nat)
    requires WholeWords(s) && o < 8 * |s|
    ensures Mirror(o) < 8 * |s| && BufBit(s, Mirror(o)) == SpecBit(s, o)
  {
    MirrorByte(o);
  }

  lemma MirrorStep(o: nat, w: nat, i: nat)
    requires o % 32 + w <= 32 && i < w
    ensures Mirror(o + w - 1 - i) == BitsOffs(o, w) + i
  {
    var q, r := o / 32, o % 32;
    assert o == 32 * q + r;
    Split32(q, r + w - 1 - i);
  }

  lemma SpecBitOfField(s: seq<Byte>, o: nat, w: nat, i: nat)
    requires WholeWords(s) && o % 32 + w <= 32 && i < w && o + w <= 8 * |s|
    ensures BitsOffs(o, w) + i < 8 * |s|
    ensures BufBit(s, BitsOffs(o, w) + i) == SpecBit(s, o + w - 1 - i)
  {
    MirrorStep(o, w, i);
    SpecBitIsBufBit(s, o + w - 1 - i);
  }

  lemma SpecFieldBit(s: seq<Byte>, o: nat, w: nat, at: nat, i: nat)
    requires WholeWords(s) && o % 32 + w <= 32 && i < w && o + w <= 8 * |s|
    requires at == BitsOffs(o, w) && at + w <= 8 * |s|
    ensures Bit(ReadBits(s, at, w), i) == Bit(SpecValue(s, o, w), i)
  {
    ReadBitsBit(s, at, w, i);
    SpecValueBit(s, o, w, i);
    SpecBitOfField(s, o, w, i);
  }

  /** The field at a normalised offset is the one the specification names. */
  lemma FieldIsSpecBits(s: seq<Byte>, o: nat, w: nat)
    requires WholeWords(s) && 0 < w && o % 32 + w <= 32 && o + w <= 8 * |s|
    ensures BitsOffs(o, w) + w <= 8 * |s|
    ensures ReadBits(s, BitsOffs(o, w), w) == SpecValue(s, o, w)
  {
    var at := BitsOffs(o, w);
    SpecBitOfField(s, o, w, w - 1);
    forall i | 0 <= i < w
      ensures Bit(ReadBits(s, at, w), i) == Bit(SpecValue(s, o, w), i)
    {
      SpecFieldBit(s, o, w, at, i);
    }
    ReadBitsBit(s, at, w, 0);
    SpecValueBit(s, o, w, 0);
    BitsDetermine(ReadBits(s, at, w), SpecValue(s, o, w), w);
  }

  /** `_get_field` at the offset `BITSOFFS(o, w)` stores returns bits `o` to `o + w - 1` of
      the message, for every field of the specification that lies in one 32-bit word and
      that the codec's split covers. */
  lemma GetIsSpecValue(s: seq<Byte>, o: nat, w: nat, r: nat)
    requires WholeWords(s) && 0 < w && o % 32 + w <= 32 && o + w <= 8 * |s|
    requires WellFormed(BitsOffs(o, w), w) && r < Pow2(WORD_BITS)
    requires Got(BitsOf(s), BitsOffs(o, w), w, r)
    ensures r == SpecValue(s, o, w)
  {
    FieldIsSpecBits(s, o, w);
    GotIsRead(s, BitsOffs(o, w), w, r);
  }
}
