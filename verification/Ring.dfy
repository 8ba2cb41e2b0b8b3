/** The intrusive doubly linked list of ccan (ccan/list.c:20-36, ccan/list.h:178-688).

    A list is a ring of nodes that starts at its head. The abstract value of a well-formed
    ring is the sequence of its nodes in `next` order; the operations are specified as
    sequence operations, and the consistency check is shown to accept a node exactly when
    `next` leads back to it and `prev` undoes every step on the way. */
module Ring {
  import opened Options

  class Node {
    var next: Node
    var prev: Node

    /** `list_head_init`, `list_node_init`. */
    constructor ()
      ensures next == this && prev == this
      ensures Ring([this])
    {
      next, prev := this, this;
    }
  }

  /** The index after `i`, around the ring. */
  function After<T>(s: seq<T>, i: nat): nat {
    if i + 1 < |s| then i + 1 else 0
  }

  /** The link out of `s[i]` is in order. */
  ghost predicate Linked(s: seq<Node>, i: nat)
    requires i < |s|
    reads s
  {
    s[i].next == s[After(s, i)] && s[After(s, i)].prev == s[i]
  }

  predicate Distinct(s: seq<Node>) {
    forall i, j :: 0 <= i < j < |s| ==> s[i] != s[j]
  }

  /** The nodes of `s`, in this order, form a ring. */
  ghost predicate Ring(s: seq<Node>)
    reads s
  {
    s != [] && Distinct(s) && forall i :: 0 <= i < |s| ==> Linked(s, i)
  }

  // ----- the consistency check

  ghost predicate Closed(heap: set<Node>)
    reads heap
  {
    forall x :: x in heap ==> x.next in heap
  }

  /** The node `i` steps from `x`. */
  ghost function Walk(x: Node, i: nat, heap: set<Node>): (y: Node)
    requires x in heap && Closed(heap)
    reads heap
    ensures y in heap
  {
    if i == 0 then x else Walk(x, i - 1, heap).next
  }

  ghost predicate Undone(x: Node, i: nat, heap: set<Node>)
    requires x in heap && Closed(heap)
    reads heap
  {
    Walk(x, i + 1, heap).prev == Walk(x, i, heap)
  }

  /** Following `next` from `x` leads back to `x`, and `prev` undoes every step. */
  ghost predicate Sound(x: Node, heap: set<Node>)
    requires x in heap && Closed(heap)
    reads heap
  {
    exists n: nat :: n > 0 && Walk(x, n, heap) == x && forall i: nat :: i < n ==> Undone(x, i, heap)
  }

  /** The first `k` steps away from `x` can be undone and do not come back to `x`. */
  ghost predicate Clean(x: Node, k: nat, heap: set<Node>)
    requires x in heap && Closed(heap)
    reads heap
  {
    forall i: nat :: i < k ==> Undone(x, i, heap) && Walk(x, i + 1, heap) != x
  }

  lemma {:induction false} CleanDistinct(x: Node, i: nat, j: nat, heap: set<Node>)
    requires x in heap && Closed(heap) && i < j && Clean(x, j, heap)
    ensures Walk(x, i, heap) != Walk(x, j, heap)
    decreases i
  {
    assert Undone(x, j - 1, heap) && Walk(x, j - 1 + 1, heap) != x;
    if i > 0 {
      assert Undone(x, i - 1, heap);
      CleanDistinct(x, i - 1, j - 1, heap);
    }
  }

  ghost function Visited(x: Node, k: nat, heap: set<Node>): (s: set<Node>)
    requires x in heap && Closed(heap)
    reads heap
    ensures s <= heap
  {
    if k == 0 then {x} else Visited(x, k - 1, heap) + {Walk(x, k, heap)}
  }

  lemma {:induction false} CleanIsNew(x: Node, k: nat, n: nat, heap: set<Node>)
    requires x in heap && Closed(heap) && k < n && Clean(x, n, heap)
    ensures Walk(x, n, heap) !in Visited(x, k, heap)
    decreases k
  {
    CleanDistinct(x, k, n, heap);
    if k > 0 { CleanIsNew(x, k - 1, n, heap); }
  }

  lemma Broken(x: Node, k: nat, heap: set<Node>)
    requires x in heap && Closed(heap) && Clean(x, k, heap) && !Undone(x, k, heap)
    ensures !Sound(x, heap)
  {
    forall n: nat | 0 < n <= k ensures Walk(x, n, heap) != x {
      assert Undone(x, n - 1, heap);
    }
  }

  /** `list_check_node`, on any finite set of nodes that `next` does not leave, wherever `prev`
      points: the loop ends even when `next` runs into a cycle that does not contain `node`. */
  method CheckNode(node: Node, ghost heap: set<Node>) returns (ok: bool)
    requires node in heap && Closed(heap)
    ensures ok <==> Sound(node, heap)
  {
    var p, n := node, node.next;
    ghost var k: nat := 0;
    assert n == Walk(node, 0, heap).next == Walk(node, 1, heap);
    while n != node
      invariant p == Walk(node, k, heap) && n == Walk(node, k + 1, heap)
      invariant Clean(node, k, heap)
      decreases heap - Visited(node, k, heap)
    {
      if n.prev != p {
        Broken(node, k, heap);
        return false;
      }
      CleanIsNew(node, k, k + 1, heap);
      p, n := n, n.next;
      k := k + 1;
    }
    if node.prev != p {
      Broken(node, k, heap);
      return false;
    }
    assert Walk(node, k + 1, heap) == node && Undone(node, k, heap);
    return true;
  }

  // ----- the operations

  /** `list_add_after`. */
  method AddAfter(p: Node, n: Node, ghost s: seq<Node>, ghost i: nat)
    requires Ring(s) && i < |s| && s[i] == p && n !in s
    modifies n, p`next, p.next`prev
    ensures Ring(s[..i + 1] + [n] + s[i + 1..])
  {
    assert Linked(s, i);
    n.next := p.next;
    n.prev := p;
    p.next.prev := n;
    p.next := n;
    ghost var t := s[..i + 1] + [n] + s[i + 1..];
    forall j | 0 <= j < |t| ensures Linked(t, j) {
      if j != i && j != i + 1 { assert old(Linked(s, if j < i then j else j - 1)); }
    }
  }

  /** `list_add`. */
  method Add(h: Node, n: Node, ghost s: seq<Node>)
    requires Ring([h] + s) && n != h && n !in s
    modifies n, h`next, h.next`prev
    ensures Ring([h] + [n] + s)
  {
    AddAfter(h, n, [h] + s, 0);
    assert ([h] + s)[..1] + [n] + ([h] + s)[1..] == [h] + [n] + s;
  }

  /** `list_add_before`; before the head is at the end. */
  method AddBefore(p: Node, n: Node, ghost s: seq<Node>, ghost i: nat)
    requires Ring(s) && i < |s| && s[i] == p && n !in s
    modifies n, p`prev, p.prev`next
    ensures Ring(if i == 0 then s + [n] else s[..i] + [n] + s[i..])
  {
    ghost var b := if i == 0 then |s| - 1 else i - 1;
    assert Linked(s, b);
    n.next := p;
    n.prev := p.prev;
    p.prev.next := n;
    p.prev := n;
    ghost var t := if i == 0 then s + [n] else s[..i] + [n] + s[i..];
    forall j | 0 <= j < |t| ensures Linked(t, j) {
      if j != b && j != b + 1 { assert old(Linked(s, if j < b then j else j - 1)); }
    }
  }

  /** `list_add_tail`. */
  method AddTail(h: Node, n: Node, ghost s: seq<Node>)
    requires Ring([h] + s) && n != h && n !in s
    modifies n, h`prev, h.prev`next
    ensures Ring([h] + s + [n])
  {
    AddBefore(h, n, [h] + s, 0);
  }

  /** `list_del`; a node that is alone stays a ring. */
  method Del(n: Node, ghost s: seq<Node>, ghost i: nat)
    requires Ring(s) && i < |s| && s[i] == n
    modifies n.next`prev, n.prev`next
    ensures Ring(if |s| == 1 then s else s[..i] + s[i + 1..])
  {
    ghost var b := if i == 0 then |s| - 1 else i - 1;
    assert Linked(s, i) && Linked(s, b);
    n.next.prev := n.prev;
    n.prev.next := n.next;
    ghost var t := if |s| == 1 then s else s[..i] + s[i + 1..];
    forall j | 0 <= j < |t| ensures Linked(t, j) {
      assert old(Linked(s, if j < i then j else After(s, j)));
    }
  }

  /** `list_swap`; a node that is alone is not replaced but joined. */
  method Swap(o: Node, n: Node, ghost s: seq<Node>, ghost i: nat)
    requires Ring(s) && i < |s| && s[i] == o && n !in s
    modifies n, o.next`prev, o.prev`next
    ensures |s| > 1 ==> Ring(s[i := n])
    ensures |s| == 1 ==> Ring([o, n])
  {
    assert Linked(s, i) && Linked(s, if i == 0 then |s| - 1 else i - 1);
    n.next, n.prev := o.next, o.prev;
    n.next.prev := n;
    n.prev.next := n;
    if |s| > 1 {
      ghost var t := s[i := n];
      forall j | 0 <= j < |t| ensures Linked(t, j) {
        assert old(Linked(s, j));
      }
    }
  }

  /** `list_pop`. */
  method Pop(h: Node, ghost s: seq<Node>) returns (first: Option<Node>)
    requires Ring([h] + s)
    modifies h`next, h.next.next`prev
    ensures s == [] ==> first == None && Ring([h])
    ensures s != [] ==> first == Some(s[0]) && Ring([h] + s[1..])
  {
    assert Linked([h] + s, 0);
    if h.next == h {
      return None;
    }
    assert s != [];
    var n := h.next;
    Del(n, [h] + s, 1);
    assert ([h] + s)[..1] + ([h] + s)[2..] == [h] + s[1..];
    return Some(n);
  }

  ghost predicate Apart(s: seq<Node>, t: seq<Node>) {
    forall i, j :: 0 <= i < |s| && 0 <= j < |t| ==> s[i] != t[j]
  }

  /** The four stores of `list_append_list` join two rings. */
  method SewAfter(to: Node, from: Node, ghost t: seq<Node>, ghost f: seq<Node>)
    requires Ring(t) && Ring(f) && Apart(t, f) && t[0] == to && f[0] == from
    modifies to`prev, from`prev, to.prev`next, from.prev`next
    ensures Ring(t + f) && from.prev == old(to.prev) && (from.next == to || from.next == old(from.next))
  {
    assert Linked(t, |t| - 1) && Linked(f, |f| - 1);
    var fromTail, toTail := from.prev, to.prev;
    to.prev := fromTail;
    fromTail.next := to;
    toTail.next := from;
    from.prev := toTail;
    forall j | 0 <= j < |t + f| ensures Linked(t + f, j) {
      if j < |t| - 1 { assert old(Linked(t, j)); }
      if |t| <= j < |t + f| - 1 { assert old(Linked(f, j - |t|)); }
    }
  }

  /** The four stores of `list_prepend_list` put one ring behind the head of the other. */
  method SewBefore(to: Node, from: Node, ghost t: seq<Node>, ghost f: seq<Node>)
    requires Ring(t) && Ring(f) && Apart(t, f) && t[0] == to && f[0] == from
    modifies to`next, from`prev, to.next`prev, from.prev`next
    ensures Ring([to] + f + t[1..]) && from.prev == to && (from.next == old(to.next) || from.next == old(from.next))
  {
    assert Linked(t, 0) && Linked(f, |f| - 1);
    var fromTail, toHead := from.prev, to.next;
    to.next := from;
    from.prev := to;
    toHead.prev := fromTail;
    fromTail.next := toHead;
    ghost var r := [to] + f + t[1..];
    forall j | 0 <= j < |r| ensures Linked(r, j) {
      if 0 < j < |f| { assert old(Linked(f, j - 1)); }
      if |f| < j { assert old(Linked(t, j - |f|)); }
    }
  }

  /** `list_del_init`, which may be repeated: a node that is alone stays so. */
  method DelInit(n: Node, ghost s: seq<Node>, ghost i: nat)
    requires Ring(s) && i < |s| && s[i] == n
    modifies n, n.next`prev, n.prev`next
    ensures Ring([n])
    ensures |s| > 1 ==> Ring(s[..i] + s[i + 1..])
  {
    Del(n, s, i);
    ghost var t := s[..i] + s[i + 1..];
    assert forall j :: 0 <= j < |t| ==> t[j] != n;
    assert forall j :: 0 <= j < |t| ==> Linked(t, j);
    n.next, n.prev := n, n;
    assert forall j :: 0 <= j < |t| ==> Linked(t, j);
  }

  /** `list_append_list`, also when either list is empty: all but the head of `from` moves
      to the end of `to`. */
  method AppendList(to: Node, from: Node, ghost t: seq<Node>, ghost f: seq<Node>)
    requires Ring(t) && Ring(f) && Apart(t, f) && t[0] == to && f[0] == from
    modifies to, from, to.prev`next, from.prev`next, from.next`prev
    ensures Ring(t + f[1..]) && Ring([from])
  {
    SewAfter(to, from, t, f);
    DelInit(from, t + f, |t|);
    assert (t + f)[..|t|] + (t + f)[|t| + 1..] == t + f[1..];
  }

  /** `list_prepend_list`, also when either list is empty: all but the head of `from` moves
      to just behind the head of `to`. */
  method PrependList(to: Node, from: Node, ghost t: seq<Node>, ghost f: seq<Node>)
    requires Ring(t) && Ring(f) && Apart(t, f) && t[0] == to && f[0] == from
    modifies to, from, to.next`prev, from.prev`next, from.next`prev
    ensures Ring([to] + f[1..] + t[1..]) && Ring([from])
  {
    SewBefore(to, from, t, f);
    ghost var r := [to] + f + t[1..];
    DelInit(from, r, 1);
    assert r[..1] + r[2..] == [to] + f[1..] + t[1..];
  }

  // ----- rings and the check

  lemma {:induction false} WalkRing(s: seq<Node>, i: nat, heap: set<Node>)
    requires Ring(s) && Closed(heap) && s[0] in heap && i <= |s|
    ensures Walk(s[0], i, heap) == if i == |s| then s[0] else s[i]
    decreases i
  {
    if i > 0 {
      WalkRing(s, i - 1, heap);
      assert Linked(s, i - 1);
    }
  }

  /** Every ring passes the check. */
  lemma RingSound(s: seq<Node>, heap: set<Node>)
    requires Ring(s) && Closed(heap) && s[0] in heap
    ensures Sound(s[0], heap)
  {
    WalkRing(s, |s|, heap);
    forall i: nat | i < |s| ensures Undone(s[0], i, heap) {
      WalkRing(s, i, heap);
      WalkRing(s, i + 1, heap);
      assert Linked(s, i);
    }
  }

  ghost function Trail(x: Node, n: nat, heap: set<Node>): (s: seq<Node>)
    requires x in heap && Closed(heap)
    reads heap
    ensures |s| == n && forall i: nat :: i < n ==> s[i] == Walk(x, i, heap)
  {
    if n == 0 then [] else Trail(x, n - 1, heap) + [Walk(x, n - 1, heap)]
  }

  /** And what passes the check is a ring. */
  lemma {:induction false} SoundRing(x: Node, n: nat, heap: set<Node>) returns (s: seq<Node>)
    requires x in heap && Closed(heap) && n > 0
    requires Walk(x, n, heap) == x && forall i: nat :: i < n ==> Undone(x, i, heap)
    ensures Ring(s) && s[0] == x
    decreases n
  {
    if m: nat :| 0 < m < n && Walk(x, m, heap) == x {
      s := SoundRing(x, m, heap);
    } else {
      s := Trail(x, n, heap);
      forall i, j | 0 <= i < j < n ensures s[i] != s[j] {
        CleanDistinct(x, i, j, heap);
      }
      forall i | 0 <= i < n ensures Linked(s, i) {
        assert Undone(x, i, heap);
        assert Walk(x, i + 1, heap) == s[After(s, i)];
      }
    }
  }
}
