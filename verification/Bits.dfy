/** Unsigned C integers as naturals, with the C bit operators defined bit by bit.

    `Bit(x, i)` is bit `i` of `x`, counted from the least significant end. Every
    operator is characterised by one lemma saying which bits its result has, and
    `BitsDetermine` says that the bits determine the number; proofs about masks and
    shifts elsewhere are then boolean. */
module Bits {

  function Pow2(n: nat): (p: nat)
    ensures p >= 1
  {
    if n == 0 then 1 else 2 * Pow2(n - 1)
  }

  predicate Bit(x: nat, i: nat)
    decreases i, x
  {
    if i == 0 then x % 2 == 1 else Bit(x / 2, i - 1)
  }

  /** A number from its lowest bit and the rest. */
  function Cons(b: bool, rest: nat): nat {
    2 * rest + (if b then 1 else 0)
  }

  function And(x: nat, y: nat): nat {
    if x == 0 || y == 0 then 0 else Cons(x % 2 == 1 && y % 2 == 1, And(x / 2, y / 2))
  }

  function Or(x: nat, y: nat): nat {
    if x == 0 then y else Cons(x % 2 == 1 || y % 2 == 1, Or(x / 2, y / 2))
  }

  /** `x & ~y` at any width that holds `x`. */
  function AndNot(x: nat, y: nat): nat {
    if x == 0 then 0 else Cons(x % 2 == 1 && y % 2 == 0, AndNot(x / 2, y / 2))
  }

  function Shl(x: nat, n: nat): nat
    decreases n, x
  {
    if n == 0 then x else Cons(false, Shl(x, n - 1))
  }

  function Shr(x: nat, n: nat): nat
    decreases n, x
  {
    if n == 0 then x else Shr(x / 2, n - 1)
  }

  /** `(1 << n) - 1`: the `n` lowest bits. */
  function Mask(n: nat): nat {
    if n == 0 then 0 else Cons(true, Mask(n - 1))
  }

  /** What a store into an object of `n` bits keeps of `x`. */
  function Trunc(x: nat, n: nat): nat
    decreases n, x
  {
    if n == 0 then 0 else Cons(x % 2 == 1, Trunc(x / 2, n - 1))
  }

  // ----- which bits the results have

  lemma {:induction false} BitZero(i: nat)
    ensures !Bit(0, i)
    decreases i
  {
    if i > 0 { BitZero(i - 1); }
  }

  lemma {:induction false} BitAnd(x: nat, y: nat, i: nat)
    ensures Bit(And(x, y), i) == (Bit(x, i) && Bit(y, i))
    decreases i
  {
    if x == 0 || y == 0 {
      BitZero(i);
    } else if i > 0 {
      BitAnd(x / 2, y / 2, i - 1);
    }
  }

  lemma {:induction false} BitOr(x: nat, y: nat, i: nat)
    ensures Bit(Or(x, y), i) == (Bit(x, i) || Bit(y, i))
    decreases i
  {
    if x == 0 {
      BitZero(i);
    } else if i > 0 {
      BitOr(x / 2, y / 2, i - 1);
    }
  }

  lemma {:induction false} BitAndNot(x: nat, y: nat, i: nat)
    ensures Bit(AndNot(x, y), i) == (Bit(x, i) && !Bit(y, i))
    decreases i
  {
    if x == 0 {
      BitZero(i);
    } else if i > 0 {
      BitAndNot(x / 2, y / 2, i - 1);
    }
  }

  lemma {:induction false} BitShl(x: nat, n: nat, i: nat)
    ensures Bit(Shl(x, n), i) == (i >= n && Bit(x, i - n))
    decreases n
  {
    if n > 0 && i > 0 { BitShl(x, n - 1, i - 1); }
  }

  lemma {:induction false} BitShr(x: nat, n: nat, i: nat)
    ensures Bit(Shr(x, n), i) == Bit(x, i + n)
    decreases n
  {
    if n > 0 { BitShr(x / 2, n - 1, i); }
  }

  lemma {:induction false} ShrShr(x: nat, m: nat, n: nat)
    ensures Shr(Shr(x, m), n) == Shr(x, m + n)
    decreases m
  {
    if m > 0 { ShrShr(x / 2, m - 1, n); }
  }

  lemma {:induction false} BitMask(n: nat, i: nat)
    ensures Bit(Mask(n), i) == (i < n)
    decreases n
  {
    if n == 0 {
      BitZero(i);
    } else if i > 0 {
      BitMask(n - 1, i - 1);
    }
  }

  lemma {:induction false} BitTrunc(x: nat, n: nat, i: nat)
    ensures Bit(Trunc(x, n), i) == (i < n && Bit(x, i))
    decreases n
  {
    if n == 0 {
      BitZero(i);
    } else if i > 0 {
      BitTrunc(x / 2, n - 1, i - 1);
    }
  }

  // ----- bits and size

  lemma {:induction false} HighBitsZero(x: nat, n: nat, i: nat)
    requires x < Pow2(n) && i >= n
    ensures !Bit(x, i)
    decreases n
  {
    if n == 0 {
      BitZero(i);
    } else {
      HighBitsZero(x / 2, n - 1, i - 1);
    }
  }

  lemma {:induction false} BitsDetermine(x: nat, y: nat, n: nat)
    requires x < Pow2(n) && y < Pow2(n)
    requires forall i :: 0 <= i < n ==> Bit(x, i) == Bit(y, i)
    ensures x == y
    decreases n
  {
    if n > 0 {
      assert Bit(x, 0) == Bit(y, 0);
      forall i | 0 <= i < n - 1
        ensures Bit(x / 2, i) == Bit(y / 2, i)
      {
        assert Bit(x, i + 1) == Bit(y, i + 1);
      }
      BitsDetermine(x / 2, y / 2, n - 1);
    }
  }

  lemma {:induction false} TruncBound(x: nat, n: nat)
    ensures Trunc(x, n) < Pow2(n)
    ensures x < Pow2(n) ==> Trunc(x, n) == x
    decreases n
  {
    if n > 0 { TruncBound(x / 2, n - 1); }
  }

  lemma {:induction false} AndBound(x: nat, y: nat)
    ensures And(x, y) <= x
    decreases x
  {
    if x > 0 && y > 0 { AndBound(x / 2, y / 2); }
  }

  lemma {:induction false} ShrBound(x: nat, n: nat)
    ensures Shr(x, n) <= x
    decreases n
  {
    if n > 0 { ShrBound(x / 2, n - 1); }
  }

  lemma {:induction false} Pow2Add(m: nat, n: nat)
    ensures Pow2(m + n) == Pow2(m) * Pow2(n)
    decreases m
  {
    if m > 0 {
      Pow2Add(m - 1, n);
      calc {
        Pow2(m) * Pow2(n);
        (2 * Pow2(m - 1)) * Pow2(n);
        2 * (Pow2(m - 1) * Pow2(n));
      }
    }
  }

  // ----- division by the sizes of bytes and words

  lemma Split4(q: nat, r: nat)
    requires r < 4
    ensures (4 * q + r) / 4 == q && (4 * q + r) % 4 == r
  {}

  lemma Split8(q: nat, r: nat)
    requires r < 8
    ensures (8 * q + r) / 8 == q && (8 * q + r) % 8 == r
  {}

  lemma Split32(q: nat, r: nat)
    requires r < 32
    ensures (32 * q + r) / 32 == q && (32 * q + r) % 32 == r
  {}

  /** A bit's word, byte and place. */
  lemma BitParts(o: nat) returns (q: nat, b: nat, i: nat)
    ensures o == 32 * q + 8 * b + i && b < 4 && i < 8
  {
    q := o / 32;
    b := (o - 32 * q) / 8;
    i := o - 32 * q - 8 * b;
  }

  lemma Pow2Byte()
    ensures Pow2(8) == 256
  {
    assert Pow2(3) == 8;
    assert Pow2(6) == 8 * Pow2(3);
  }
}
