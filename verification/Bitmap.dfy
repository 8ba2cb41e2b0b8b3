/** ccan/bitmap: sets of bits kept in 64-bit words, bit `n` of a map being bit `n % 64` of
    word `n / 64` counted from the word's most significant end.

    The operations work a word at a time with head and tail masks; each is proved to do
    what its name says to the bits one by one, whatever the last word holds past the end. */
module Bitmap {
  import opened Bits

  const W: nat := 64

  type Word = x: nat | x < Pow2(W) witness 0

  /** The element `j` of a word, from the most significant end. */
  predicate At(w: nat, j: nat)
    requires j < W
  {
    Bit(w, W - 1 - j)
  }

  predicate Has(s: seq<Word>, k: nat)
    requires k < W * |s|
  {
    At(s[k / W], k % W)
  }

  function Set(s: seq<Word>, n: nat): set<nat>
    requires n <= W * |s|
  {
    set k: nat | k < n && Has(s, k)
  }

  // ----- masks

  /** `-1ULL >> r`: all but the first `r` elements. */
  function HeadMask(r: nat): nat {
    Shr(Mask(W), r)
  }

  /** `~(-1ULL >> r)`: the first `r` elements. */
  function TailMask(r: nat): nat {
    AndNot(Mask(W), HeadMask(r))
  }

  lemma HeadMaskAt(r: nat, j: nat)
    requires j < W
    ensures At(HeadMask(r), j) == (j >= r)
  {
    BitShr(Mask(W), r, W - 1 - j);
    BitMask(W, W - 1 - j + r);
  }

  lemma TailMaskAt(r: nat, j: nat)
    requires j < W
    ensures At(TailMask(r), j) == (j < r)
  {
    BitAndNot(Mask(W), HeadMask(r), W - 1 - j);
    BitMask(W, W - 1 - j);
    HeadMaskAt(r, j);
  }

  lemma AndAt(x: nat, y: nat, j: nat)
    requires j < W
    ensures At(And(x, y), j) == (At(x, j) && At(y, j))
  {
    BitAnd(x, y, W - 1 - j);
  }

  lemma {:induction false} MaskBound(n: nat)
    ensures Mask(n) < Pow2(n)
  {
    if n > 0 { MaskBound(n - 1); }
  }

  lemma {:induction false} OrBound(x: nat, y: nat, n: nat)
    requires x < Pow2(n) && y < Pow2(n)
    ensures Or(x, y) < Pow2(n)
    decreases n
  {
    if n > 0 && x != 0 { OrBound(x / 2, y / 2, n - 1); }
  }

  lemma {:induction false} AndNotBound(x: nat, y: nat)
    ensures AndNot(x, y) <= x
    decreases x
  {
    if x > 0 { AndNotBound(x / 2, y / 2); }
  }

  lemma MasksFit(r: nat)
    ensures Mask(W) < Pow2(W) && HeadMask(r) < Pow2(W) && TailMask(r) < Pow2(W)
  {
    MaskBound(W);
    ShrBound(Mask(W), r);
    AndNotBound(Mask(W), HeadMask(r));
  }

  /** A word is determined by its elements. */
  lemma WordExt(x: Word, y: Word)
    requires forall j :: 0 <= j < W ==> At(x, j) == At(y, j)
    ensures x == y
  {
    forall i | 0 <= i < W
      ensures Bit(x, i) == Bit(y, i)
    {
      assert At(x, W - 1 - i) == At(y, W - 1 - i);
    }
    BitsDetermine(x, y, W);
  }

  lemma ZeroAt(j: nat)
    requires j < W
    ensures !At(0, j)
  {
    BitZero(W - 1 - j);
  }

  // ----- ranges

  /** `w |= mask` or `w &= ~mask`. */
  function Apply(w: Word, mask: Word, v: bool): Word {
    OrBound(w, mask, W);
    AndNotBound(w, mask);
    if v then Or(w, mask) else AndNot(w, mask)
  }

  lemma ApplyAt(w: Word, mask: Word, v: bool, j: nat)
    requires j < W
    ensures At(Apply(w, mask, v), j) == if At(mask, j) then v else At(w, j)
  {
    BitOr(w, mask, W - 1 - j);
    BitAndNot(w, mask, W - 1 - j);
  }

  /** `t` is `s` with the elements from `n` to `m` made `v`. */
  ghost predicate Ranged(s: seq<Word>, t: seq<Word>, n: nat, m: nat, v: bool) {
    && |t| == |s|
    && forall k :: 0 <= k < W * |s| ==> Has(t, k) == if n <= k < m then v else Has(s, k)
  }

  lemma InOtherWord(k: nat, q: nat)
    requires k / W != q
    ensures k < W * q || W * q + W <= k
  {}

  lemma RangeStepAt(s: seq<Word>, t: seq<Word>, n: nat, m: nat, m': nat, v: bool, q: nat, w: Word, k: nat)
    requires |t| == |s| && q < |s| && n <= m <= m' && W * q <= m && m' <= W * q + W && k < W * |s|
    requires Has(t, k) == if n <= k < m then v else Has(s, k)
    requires forall j :: 0 <= j < W ==> At(w, j) == if m <= W * q + j < m' then v else At(t[q], j)
    ensures Has(t[q := w], k) == if n <= k < m' then v else Has(s, k)
  {
    if k / W == q {
      assert k == W * q + k % W;
      assert At(w, k % W) == if m <= W * q + k % W < m' then v else At(t[q], k % W);
    } else {
      InOtherWord(k, q);
    }
  }

  /** Extend a range by the elements of one word that a mask selects. */
  lemma RangeStep(s: seq<Word>, t: seq<Word>, n: nat, m: nat, m': nat, v: bool, q: nat, w: Word)
    requires Ranged(s, t, n, m, v) && q < |s| && n <= m <= m' && W * q <= m && m' <= W * q + W
    requires forall j :: 0 <= j < W ==> At(w, j) == if m <= W * q + j < m' then v else At(t[q], j)
    ensures Ranged(s, t[q := w], n, m', v)
  {
    var t' := t[q := w];
    assert |t'| == |s|;
    forall k | 0 <= k < W * |s|
      ensures Has(t', k) == if n <= k < m' then v else Has(s, k)
    {
      assert Has(t, k) == if n <= k < m then v else Has(s, k);
      RangeStepAt(s, t, n, m, m', v, q, w, k);
    }
  }

  lemma MaskedStep(s: seq<Word>, t: seq<Word>, n: nat, v: bool, q: nat, a: nat, b: nat, mask: Word)
    requires q < |s| && a <= b <= W && n <= W * q + a && Ranged(s, t, n, W * q + a, v)
    requires forall j :: 0 <= j < W ==> At(mask, j) == (a <= j < b)
    ensures Ranged(s, t[q := Apply(t[q], mask, v)], n, W * q + b, v)
  {
    forall j | 0 <= j < W
      ensures At(Apply(t[q], mask, v), j) == if W * q + a <= W * q + j < W * q + b then v else At(t[q], j)
    {
      ApplyAt(t[q], mask, v, j);
    }
    RangeStep(s, t, n, W * q + a, W * q + b, v, q, Apply(t[q], mask, v));
  }

  function Fill(v: bool): Word {
    MasksFit(0);
    if v then Mask(W) else 0
  }

  lemma FillAt(v: bool, j: nat)
    requires j < W
    ensures At(Fill(v), j) == v
  {
    BitMask(W, W - 1 - j);
    BitZero(W - 1 - j);
  }

  lemma FillStep(s: seq<Word>, t: seq<Word>, n: nat, q: nat, v: bool)
    requires n <= W * q && q < |s| && Ranged(s, t, n, W * q, v)
    ensures Ranged(s, t[q := Fill(v)], n, W * (q + 1), v)
  {
    forall j | 0 <= j < W
      ensures At(Fill(v), j) == v
    {
      FillAt(v, j);
    }
    RangeStep(s, t, n, W * q, W * (q + 1), v, q, Fill(v));
  }

  function AlignDown(n: nat): nat {
    n / W * W
  }

  function AlignUp(n: nat): nat {
    AlignDown(n + W - 1)
  }

  /** The words in which a range starts and ends. */
  lemma Alignment(n: nat, m: nat)
    ensures n == W * (n / W) + n % W && m == W * (m / W) + m % W
    ensures AlignDown(m) == W * (m / W)
    ensures AlignUp(n) == if n % W == 0 then n else W * (n / W) + W
    ensures n <= m ==> (AlignDown(m) < AlignUp(n) <==> n / W == m / W && n % W > 0)
  {
    if n % W > 0 { assert n + W - 1 == W * (n / W + 1) + (n % W - 1); }
  }

  /** The mask of the elements from `a` to `b` of one word. */
  function BothMasks(a: nat, b: nat): Word {
    MasksFit(a);
    AndBound(HeadMask(a), TailMask(b));
    And(HeadMask(a), TailMask(b))
  }

  lemma BothMasksAll(a: nat, b: nat)
    ensures forall j :: 0 <= j < W ==> At(BothMasks(a, b), j) == (a <= j < b)
  {
    forall j | 0 <= j < W
      ensures At(BothMasks(a, b), j) == (a <= j < b)
    {
      AndAt(HeadMask(a), TailMask(b), j);
      HeadMaskAt(a, j);
      TailMaskAt(b, j);
    }
  }

  lemma HeadMaskAll(r: nat)
    ensures HeadMask(r) < Pow2(W) && forall j :: 0 <= j < W ==> At(HeadMask(r), j) == (j >= r)
  {
    MasksFit(r);
    forall j | 0 <= j < W ensures At(HeadMask(r), j) == (j >= r) { HeadMaskAt(r, j); }
  }

  lemma TailMaskAll(r: nat)
    ensures TailMask(r) < Pow2(W) && forall j :: 0 <= j < W ==> At(TailMask(r), j) == (j < r)
  {
    MasksFit(r);
    forall j | 0 <= j < W ensures At(TailMask(r), j) == (j < r) { TailMaskAt(r, j); }
  }

  /** `bitmap_zero_range` (`v` false) and `bitmap_fill_range` (`v` true), whose code differs
      only in the word operation: exactly the elements from `n` to `m` become `v`. */
  method SetRange(bmap: array<Word>, n: nat, m: nat, v: bool)
    requires n <= m <= W * bmap.Length
    modifies bmap
    ensures Ranged(old(bmap[..]), bmap[..], n, m, v)
  {
    var an, am := AlignUp(n), AlignDown(m);
    Alignment(n, m);
    if am < an {
      var q, a, b := n / W, n % W, m % W;
      BothMasksAll(a, b);
      MaskedStep(bmap[..], bmap[..], n, v, q, a, b, BothMasks(a, b));
      bmap[q] := Apply(bmap[q], BothMasks(a, b), v);
    } else {
      SetSpan(bmap, n / W, n % W, m / W, m % W, v);
    }
  }

  /** A range that ends in a later word than it starts in, or starts one. */
  method SetSpan(bmap: array<Word>, q: nat, a: nat, q': nat, b: nat, v: bool)
    requires a < W && b < W && W * q' + b <= W * bmap.Length
    requires q < q' || (q == q' && a == 0)
    modifies bmap
    ensures Ranged(old(bmap[..]), bmap[..], W * q + a, W * q' + b, v)
  {
    ghost var s := bmap[..];
    if a == 0 {
      SetAligned(bmap, q, q', b, v, s, W * q);
    } else {
      HeadMaskAll(a);
      MaskedStep(s, s, W * q + a, v, q, a, W, HeadMask(a));
      bmap[q] := Apply(bmap[q], HeadMask(a), v);
      SetAligned(bmap, q + 1, q', b, v, s, W * q + a);
    }
  }

  /** The rest of a range, from a word boundary on. */
  method SetAligned(bmap: array<Word>, first: nat, q': nat, b: nat, v: bool, ghost s: seq<Word>, ghost n: nat)
    requires first <= q' && b < W && W * q' + b <= W * bmap.Length
    requires n <= W * first && Ranged(s, bmap[..], n, W * first, v)
    modifies bmap
    ensures Ranged(s, bmap[..], n, W * q' + b, v)
  {
    FillWords(bmap, first, q', v, s, n);
    if b > 0 {
      TailMaskAll(b);
      MaskedStep(s, bmap[..], n, v, q', 0, b, TailMask(b));
      bmap[q'] := Apply(bmap[q'], TailMask(b), v);
    }
  }

  /** The `memset` of the whole words of a range. */
  method FillWords(bmap: array<Word>, lo: nat, hi: nat, v: bool, ghost s: seq<Word>, ghost n: nat)
    requires lo <= hi <= bmap.Length && n <= W * lo && Ranged(s, bmap[..], n, W * lo, v)
    modifies bmap
    ensures Ranged(s, bmap[..], n, W * hi, v)
  {
    for q := lo to hi
      invariant Ranged(s, bmap[..], n, W * q, v)
    {
      FillStep(s, bmap[..], n, q, v);
      bmap[q] := Fill(v);
    }
  }

  // ----- the first element

  lemma NonZeroHasBit(w: Word)
    requires w != 0
    ensures exists j :: 0 <= j < W && At(w, j)
  {
    if forall j :: 0 <= j < W ==> !At(w, j) {
      forall j | 0 <= j < W ensures At(w, j) == At(0, j) { ZeroAt(j); }
      WordExt(w, 0);
    }
  }

  lemma BitOfShiftedOne(j: nat, i: nat)
    requires j < W && i < W
    ensures At(Shl(1, W - 1 - j), i) == (i == j)
  {
    BitShl(1, W - 1 - j, W - 1 - i);
    if i < j { HighBitsZero(1, 1, j - i); }
  }

  /** `w & (1 << (63 - j))` is nonzero exactly when element `j` is in the word. */
  lemma SingleBitTest(w: Word, j: nat)
    requires j < W
    ensures And(w, Shl(1, W - 1 - j)) != 0 <==> At(w, j)
  {
    var mask := Shl(1, W - 1 - j);
    AndBound(w, mask);
    if And(w, mask) != 0 {
      NonZeroHasBit(And(w, mask));
      var i :| 0 <= i < W && At(And(w, mask), i);
      AndAt(w, mask, i);
      BitOfShiftedOne(j, i);
    } else {
      ZeroAt(j);
      AndAt(w, mask, j);
      BitOfShiftedOne(j, j);
    }
  }

  /** `bitmap_clz`: the number of leading zeros of a nonzero word. */
  method Clz(w: Word) returns (lz: nat)
    requires w != 0
    ensures lz < W && At(w, lz) && forall j :: 0 <= j < lz ==> !At(w, j)
  {
    NonZeroHasBit(w);
    ghost var some :| 0 <= some < W && At(w, some);
    lz := 0;
    while And(w, Shl(1, W - 1 - lz)) == 0
      invariant lz <= some
      invariant forall j :: 0 <= j < lz ==> !At(w, j)
      decreases some - lz
    {
      SingleBitTest(w, lz);
      lz := lz + 1;
    }
    SingleBitTest(w, lz);
  }

  /** No element from `n` to `r`, and `r` itself is one unless it is `m`. */
  ghost predicate FirstSet(s: seq<Word>, n: nat, m: nat, r: nat) {
    && n <= r <= m <= W * |s|
    && (forall k :: n <= k < r ==> !Has(s, k))
    && (r < m ==> Has(s, r))
  }

  /** `w` is word `q` under a mask of its elements from `a` to `b`. */
  ghost predicate Masked(s: seq<Word>, q: nat, a: nat, b: nat, w: Word)
    requires q < |s|
  {
    forall j :: 0 <= j < W ==> At(w, j) == (a <= j < b && At(s[q], j))
  }

  function AndWord(w: Word, mask: Word): Word {
    AndBound(w, mask);
    And(w, mask)
  }

  lemma MaskedByAnd(s: seq<Word>, q: nat, a: nat, b: nat, mask: Word)
    requires q < |s| && forall j :: 0 <= j < W ==> At(mask, j) == (a <= j < b)
    ensures Masked(s, q, a, b, AndWord(s[q], mask))
  {
    forall j | 0 <= j < W ensures At(AndWord(s[q], mask), j) == (a <= j < b && At(s[q], j)) {
      AndAt(s[q], mask, j);
    }
  }

  /** The first of the elements from `a` to `b` of one word, given the word under their mask. */
  method ScanWord(q: nat, w: Word, ghost s: seq<Word>, ghost a: nat, ghost b: nat) returns (found: bool, r: nat)
    requires q < |s| && a <= b <= W && Masked(s, q, a, b, w)
    ensures FirstSet(s, W * q + a, W * q + b, if found then r else W * q + b)
    ensures found ==> r < W * q + b
  {
    found, r := w != 0, 0;
    if found {
      var lz := Clz(w);
      r := W * q + lz;
      forall k | W * q + a <= k < r
        ensures !Has(s, k)
      {
        InWord(q, k);
        assert !At(w, k - W * q);
      }
      InWord(q, r);
    } else {
      forall k | W * q + a <= k < W * q + b
        ensures !Has(s, k)
      {
        InWord(q, k);
        ZeroAt(k - W * q);
      }
    }
  }

  lemma InWord(q: nat, k: nat)
    requires W * q <= k < W * q + W
    ensures k / W == q && k % W == k - W * q
  {}

  lemma FirstSetJoin(s: seq<Word>, n: nat, mid: nat, m: nat, r: nat)
    requires FirstSet(s, n, mid, mid) && FirstSet(s, mid, m, r)
    ensures FirstSet(s, n, m, r)
  {}

  /** `bitmap_ffs`: the least element from `n` to `m`, or `m`. */
  method Ffs(bmap: array<Word>, n: nat, m: nat) returns (r: nat)
    requires n <= m <= W * bmap.Length
    ensures FirstSet(bmap[..], n, m, r)
  {
    var an, am := AlignUp(n), AlignDown(m);
    var q, a, b := n / W, n % W, m % W;
    Alignment(n, m);
    if am < an {
      BothMasksAll(a, b);
      MaskedByAnd(bmap[..], q, a, b, BothMasks(a, b));
      var found, k := ScanWord(q, AndWord(bmap[q], BothMasks(a, b)), bmap[..], a, b);
      return if found then k else m;
    }
    r := FfsSpan(bmap, q, a, m / W, b);
  }

  lemma FirstSetWiden(s: seq<Word>, n: nat, mid: nat, m: nat, r: nat)
    requires FirstSet(s, n, mid, r) && r < mid <= m <= W * |s|
    ensures FirstSet(s, n, m, r)
  {}

  /** The whole words of a range, one after the other. */
  method ScanWords(bmap: array<Word>, lo: nat, hi: nat) returns (found: bool, r: nat)
    requires lo <= hi <= bmap.Length
    ensures FirstSet(bmap[..], W * lo, W * hi, if found then r else W * hi)
    ensures found ==> r < W * hi
  {
    ghost var s := bmap[..];
    found, r := false, 0;
    var p := lo;
    while p < hi && !found
      invariant lo <= p <= hi
      invariant FirstSet(s, W * lo, W * p, if found then r else W * p)
      invariant found ==> r < W * p
    {
      found, r := ScanWord(p, bmap[p], s, 0, W);
      FirstSetJoin(s, W * lo, W * p, W * p + W, if found then r else W * p + W);
      p := p + 1;
    }
    if found { FirstSetWiden(s, W * lo, W * p, W * hi, r); }
  }

  lemma TailWord(q: nat, b: nat, n: nat)
    requires 0 < b && W * q + b <= W * n
    ensures q < n
  {}

  /** The first elements of a word. */
  method ScanTail(bmap: array<Word>, q: nat, b: nat) returns (found: bool, r: nat)
    requires q < bmap.Length && 0 < b < W
    ensures FirstSet(bmap[..], W * q, W * q + b, if found then r else W * q + b)
    ensures found ==> r < W * q + b
  {
    ghost var s := bmap[..];
    TailMaskAll(b);
    MaskedByAnd(s, q, 0, b, TailMask(b));
    found, r := ScanWord(q, AndWord(bmap[q], TailMask(b)), s, 0, b);
  }

  /** A range that starts at a word boundary. */
  method FfsAligned(bmap: array<Word>, first: nat, q': nat, b: nat) returns (r: nat)
    requires first <= q' && b < W && W * q' + b <= W * bmap.Length
    ensures FirstSet(bmap[..], W * first, W * q' + b, r)
  {
    ghost var s, n := bmap[..], W * first;
    var mid, m := W * q', W * q' + b;
    var found, k := ScanWords(bmap, first, q');
    if found {
      FirstSetWiden(s, n, mid, m, k);
      return k;
    }
    if b > 0 {
      TailWord(q', b, bmap.Length);
      found, k := ScanTail(bmap, q', b);
      FirstSetJoin(s, n, mid, m, if found then k else m);
    }
    return if found then k else m;
  }

  method FfsSpan(bmap: array<Word>, q: nat, a: nat, q': nat, b: nat) returns (r: nat)
    requires a < W && b < W && W * q' + b <= W * bmap.Length
    requires q < q' || (q == q' && a == 0)
    ensures FirstSet(bmap[..], W * q + a, W * q' + b, r)
  {
    ghost var s, n, m := bmap[..], W * q + a, W * q' + b;
    if a == 0 {
      r := FfsAligned(bmap, q, q', b);
      return;
    }
    HeadMaskAll(a);
    MaskedByAnd(s, q, a, W, HeadMask(a));
    var found, k := ScanWord(q, AndWord(bmap[q], HeadMask(a)), s, a, W);
    if found {
      FirstSetWiden(s, n, W * (q + 1), m, k);
      return k;
    }
    r := FfsAligned(bmap, q + 1, q', b);
    FirstSetJoin(s, n, W * (q + 1), m, r);
  }

  // ----- whole maps

  /** What the binary tests look for in a pair of words. */
  datatype Test = Differ | Overlap | Exceed

  /** Element `j` of the pair is one the test looks for. */
  predicate Hit(t: Test, x: bool, y: bool) {
    match t
    case Differ => x != y
    case Overlap => x && y
    case Exceed => x && !y
  }

  /** The word expressions of `bitmap_equal`, `bitmap_intersects` and `bitmap_subset`. */
  predicate WordHit(t: Test, x: Word, y: Word) {
    match t
    case Differ => x != y
    case Overlap => And(x, y) != 0
    case Exceed => AndNot(x, y) != 0
  }

  lemma WordHitIff(t: Test, x: Word, y: Word)
    ensures WordHit(t, x, y) <==> exists j :: 0 <= j < W && Hit(t, At(x, j), At(y, j))
  {
    match t
    case Differ =>
      if x != y && forall j :: 0 <= j < W ==> At(x, j) == At(y, j) { WordExt(x, y); }
    case Overlap =>
      AndBound(x, y);
      NonZeroIff(And(x, y));
      forall j | 0 <= j < W ensures At(And(x, y), j) == (At(x, j) && At(y, j)) { AndAt(x, y, j); }
    case Exceed =>
      AndNotBound(x, y);
      NonZeroIff(AndNot(x, y));
      forall j | 0 <= j < W ensures At(AndNot(x, y), j) == (At(x, j) && !At(y, j)) { BitAndNot(x, y, W - 1 - j); }
  }

  lemma NonZeroIff(w: Word)
    ensures w != 0 <==> exists j :: 0 <= j < W && At(w, j)
  {
    if w != 0 { NonZeroHasBit(w); }
    forall j | 0 <= j < W ensures !At(0, j) { ZeroAt(j); }
  }

  function Tail(w: Word, b: nat): Word {
    AndBound(w, TailMask(b));
    And(w, TailMask(b))
  }

  lemma TailAt(w: Word, b: nat, j: nat)
    requires j < W
    ensures At(Tail(w, b), j) == (j < b && At(w, j))
  {
    AndAt(w, TailMask(b), j);
    TailMaskAt(b, j);
  }

  ghost predicate SomeHit(t: Test, s1: seq<Word>, s2: seq<Word>, n: nat)
    requires n <= W * |s1| && n <= W * |s2|
  {
    exists k :: 0 <= k < n && Hit(t, Has(s1, k), Has(s2, k))
  }

  lemma HitInWord(t: Test, s1: seq<Word>, s2: seq<Word>, q: nat, b: nat, x: Word, y: Word)
    requires q < |s1| && q < |s2| && b <= W
    requires forall j :: 0 <= j < W ==> At(x, j) == (j < b && At(s1[q], j)) && At(y, j) == (j < b && At(s2[q], j))
    ensures SomeHit(t, s1, s2, W * q + b) <==> SomeHit(t, s1, s2, W * q) || WordHit(t, x, y)
  {
    WordHitIff(t, x, y);
    if SomeHit(t, s1, s2, W * q + b) && !SomeHit(t, s1, s2, W * q) {
      var k :| 0 <= k < W * q + b && Hit(t, Has(s1, k), Has(s2, k));
      InWord(q, k);
      assert Hit(t, At(x, k - W * q), At(y, k - W * q));
    }
    if WordHit(t, x, y) {
      var j :| 0 <= j < W && Hit(t, At(x, j), At(y, j));
      InWord(q, W * q + j);
      assert Hit(t, Has(s1, W * q + j), Has(s2, W * q + j));
    }
  }

  /** The loop over the head words and the test of the tail word that the five comparisons
      share: whether some element among the first `nbits` is a hit. The second operand is
      a sequence, for `bitmap_empty` and `bitmap_full` compare with a constant word. */
  method AnyHit(t: Test, src1: array<Word>, src2: seq<Word>, nbits: nat) returns (r: bool)
    requires nbits <= W * src1.Length && nbits <= W * |src2|
    ensures r <==> SomeHit(t, src1[..], src2, nbits)
  {
    var q, b := nbits / W, nbits % W;
    var i := 0;
    while i < q
      invariant i <= q && !SomeHit(t, src1[..], src2, W * i)
    {
      HitInWord(t, src1[..], src2, i, W, src1[i], src2[i]);
      if WordHit(t, src1[i], src2[i]) {
        HitGrows(t, src1[..], src2, W * i + W, nbits);
        return true;
      }
      i := i + 1;
    }
    r := false;
    if b != 0 {
      var x, y := Tail(src1[q], b), Tail(src2[q], b);
      forall j | 0 <= j < W
        ensures At(x, j) == (j < b && At(src1[q], j)) && At(y, j) == (j < b && At(src2[q], j))
      {
        TailAt(src1[q], b, j);
        TailAt(src2[q], b, j);
      }
      HitInWord(t, src1[..], src2, q, b, x, y);
      r := WordHit(t, x, y);
    }
  }

  lemma HitGrows(t: Test, s1: seq<Word>, s2: seq<Word>, n: nat, n': nat)
    requires n <= n' <= W * |s1| && n' <= W * |s2| && SomeHit(t, s1, s2, n)
    ensures SomeHit(t, s1, s2, n')
  {
    var k :| 0 <= k < n && Hit(t, Has(s1, k), Has(s2, k));
    assert Hit(t, Has(s1, k), Has(s2, k));
  }

  lemma HitMeaning(t: Test, s1: seq<Word>, s2: seq<Word>, n: nat)
    requires n <= W * |s1| && n <= W * |s2|
    ensures SomeHit(t, s1, s2, n) <==>
            match t
            case Differ => Set(s1, n) != Set(s2, n)
            case Overlap => Set(s1, n) * Set(s2, n) != {}
            case Exceed => !(Set(s1, n) <= Set(s2, n))
  {
    if SomeHit(t, s1, s2, n) {
      var k :| 0 <= k < n && Hit(t, Has(s1, k), Has(s2, k));
      match t
      case Differ => assert k in Set(s1, n) <==> k !in Set(s2, n);
      case Overlap => assert k in Set(s1, n) * Set(s2, n);
      case Exceed => assert k in Set(s1, n) && k !in Set(s2, n);
    } else {
      forall k | 0 <= k < n ensures !Hit(t, Has(s1, k), Has(s2, k)) {}
    }
  }

  /** `bitmap_equal`. */
  method Equal(src1: array<Word>, src2: array<Word>, nbits: nat) returns (r: bool)
    requires nbits <= W * src1.Length && nbits <= W * src2.Length
    ensures r <==> Set(src1[..], nbits) == Set(src2[..], nbits)
  {
    HitMeaning(Differ, src1[..], src2[..], nbits);
    var hit := AnyHit(Differ, src1, src2[..], nbits);
    r := !hit;
  }

  /** `bitmap_intersects`. */
  method Intersects(src1: array<Word>, src2: array<Word>, nbits: nat) returns (r: bool)
    requires nbits <= W * src1.Length && nbits <= W * src2.Length
    ensures r <==> Set(src1[..], nbits) * Set(src2[..], nbits) != {}
  {
    HitMeaning(Overlap, src1[..], src2[..], nbits);
    r := AnyHit(Overlap, src1, src2[..], nbits);
  }

  /** `bitmap_subset`. */
  method Subset(src1: array<Word>, src2: array<Word>, nbits: nat) returns (r: bool)
    requires nbits <= W * src1.Length && nbits <= W * src2.Length
    ensures r <==> Set(src1[..], nbits) <= Set(src2[..], nbits)
  {
    HitMeaning(Exceed, src1[..], src2[..], nbits);
    var hit := AnyHit(Exceed, src1, src2[..], nbits);
    r := !hit;
  }

  function ConstantMap(v: bool, len: nat): seq<Word> {
    seq(len, _ => Fill(v))
  }

  lemma ConstantMapHas(v: bool, len: nat, k: nat)
    requires k < W * len
    ensures Has(ConstantMap(v, len), k) == v
  {
    FillAt(v, k % W);
  }

  /** `bitmap_empty`: no head word and no tail differs from zero. */
  method Empty(bmap: array<Word>, nbits: nat) returns (r: bool)
    requires nbits <= W * bmap.Length
    ensures r <==> Set(bmap[..], nbits) == {}
  {
    var zeros := ConstantMap(false, bmap.Length);
    forall k | 0 <= k < nbits ensures !Has(zeros, k) { ConstantMapHas(false, bmap.Length, k); }
    HitMeaning(Differ, bmap[..], zeros, nbits);
    var hit := AnyHit(Differ, bmap, zeros, nbits);
    r := !hit;
  }

  /** `bitmap_full`: no head word and no tail differs from all ones. */
  method Full(bmap: array<Word>, nbits: nat) returns (r: bool)
    requires nbits <= W * bmap.Length
    ensures r <==> forall k :: 0 <= k < nbits ==> Has(bmap[..], k)
  {
    var ones := ConstantMap(true, bmap.Length);
    forall k | 0 <= k < nbits ensures Has(ones, k) { ConstantMapHas(true, bmap.Length, k); }
    var hit := AnyHit(Differ, bmap, ones, nbits);
    r := !hit;
    if r {
      forall k | 0 <= k < nbits ensures Has(bmap[..], k) {
        assert !Hit(Differ, Has(bmap[..], k), Has(ones, k));
      }
    }
  }
}
