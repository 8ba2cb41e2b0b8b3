/** The dependency graph of the static libraries and its pruning
    (buildlib/sanitize_static_lib.py:134-141, 197-214).

    A graph maps every library to the libraries that need it directly. `Reduced` is what the
    pruning computes; the lemmas say that it is the transitive reduction, the only graph with
    the same reachability in which no edge follows from others. */
module LibGraph {

  type Graph<T> = map<T, set<T>>

  ghost predicate Closed<T>(g: Graph<T>) {
    forall x :: x in g ==> g[x] <= g.Keys
  }

  /** A walk from `a` to `b` with `n` libraries in between. */
  ghost predicate Walk<T>(g: Graph<T>, a: T, b: T, n: nat) {
    a in g && if n == 0 then b in g[a] else exists z :: z in g[a] && Walk(g, z, b, n - 1)
  }

  ghost predicate Reaches<T>(g: Graph<T>, a: T, b: T) {
    exists n: nat :: Walk(g, a, b, n)
  }

  ghost predicate Acyclic<T>(g: Graph<T>) {
    forall x :: x in g ==> !Reaches(g, x, x)
  }

  ghost function Between<T>(g: Graph<T>, a: T, b: T): set<T> {
    set z | z in g && Reaches(g, a, z) && Reaches(g, z, b)
  }

  /** An edge from `a` to `b` follows from other edges. */
  ghost predicate Implied<T>(g: Graph<T>, a: T, b: T) {
    Between(g, a, b) != {}
  }

  ghost function Reduced<T>(g: Graph<T>): Graph<T> {
    map x | x in g :: set y | y in g[x] && !Implied(g, x, y)
  }

  ghost predicate Subgraph<T>(h: Graph<T>, g: Graph<T>) {
    h.Keys == g.Keys && forall x :: x in h ==> h[x] <= g[x]
  }

  // ----- walks

  lemma {:induction false} WalkConcat<T>(g: Graph<T>, a: T, b: T, c: T, m: nat, n: nat)
    requires Walk(g, a, b, m) && Walk(g, b, c, n)
    ensures Walk(g, a, c, m + n + 1)
    decreases m
  {
    if m == 0 {
      assert b in g[a] && Walk(g, b, c, m + n);
    } else {
      var z :| z in g[a] && Walk(g, z, b, m - 1);
      WalkConcat(g, z, b, c, m - 1, n);
    }
  }

  lemma ReachesTrans<T>(g: Graph<T>, a: T, b: T, c: T)
    requires Reaches(g, a, b) && Reaches(g, b, c)
    ensures Reaches(g, a, c)
  {
    var m: nat :| Walk(g, a, b, m);
    var n: nat :| Walk(g, b, c, n);
    WalkConcat(g, a, b, c, m, n);
  }

  lemma EdgeReaches<T>(g: Graph<T>, a: T, b: T)
    requires a in g && b in g[a]
    ensures Reaches(g, a, b)
  {
    assert Walk(g, a, b, 0);
  }

  /** A walk is an edge or goes on from one. */
  lemma FirstStep<T>(g: Graph<T>, a: T, b: T) returns (z: T)
    requires Reaches(g, a, b)
    ensures a in g && z in g[a] && (z == b || Reaches(g, z, b))
  {
    var n: nat :| Walk(g, a, b, n);
    if n == 0 {
      z := b;
    } else {
      z :| z in g[a] && Walk(g, z, b, n - 1);
    }
  }

  lemma {:induction false} WalkMonotone<T>(h: Graph<T>, g: Graph<T>, a: T, b: T, n: nat)
    requires Subgraph(h, g) && Walk(h, a, b, n)
    ensures Walk(g, a, b, n)
    decreases n
  {
    if n > 0 {
      var z :| z in h[a] && Walk(h, z, b, n - 1);
      WalkMonotone(h, g, z, b, n - 1);
    }
  }

  lemma ReachesMonotone<T>(h: Graph<T>, g: Graph<T>, a: T, b: T)
    requires Subgraph(h, g) && Reaches(h, a, b)
    ensures Reaches(g, a, b)
  {
    var n: nat :| Walk(h, a, b, n);
    WalkMonotone(h, g, a, b, n);
  }

  /** On an acyclic graph what lies between `a` and `b` splits at every library in it. */
  lemma BetweenShrinks<T>(g: Graph<T>, a: T, b: T, z: T)
    requires Acyclic(g) && z in Between(g, a, b)
    ensures Between(g, a, z) < Between(g, a, b)
    ensures Between(g, z, b) < Between(g, a, b)
  {
    forall y | y in Between(g, a, z) ensures y in Between(g, a, b) {
      ReachesTrans(g, y, z, b);
    }
    forall y | y in Between(g, z, b) ensures y in Between(g, a, b) {
      ReachesTrans(g, a, z, y);
    }
    assert z !in Between(g, a, z) && z !in Between(g, z, b);
  }

  // ----- the transitive reduction

  lemma {:induction false} ReducedReaches<T>(g: Graph<T>, a: T, b: T)
    requires Closed(g) && Acyclic(g) && Reaches(g, a, b)
    ensures Reaches(Reduced(g), a, b)
    decreases Between(g, a, b)
  {
    if Implied(g, a, b) {
      var z :| z in Between(g, a, b);
      BetweenShrinks(g, a, b, z);
      ReducedReaches(g, a, z);
      ReducedReaches(g, z, b);
      ReachesTrans(Reduced(g), a, z, b);
    } else {
      var z := FirstStep(g, a, b);
      EdgeReaches(g, a, z);
      assert z !in Between(g, a, b);
      EdgeReaches(Reduced(g), a, b);
    }
  }

  /** Any graph from the reduction up to the whole has the same reachability. */
  lemma SameReachability<T>(g: Graph<T>, h: Graph<T>, a: T, b: T)
    requires Closed(g) && Acyclic(g) && Subgraph(Reduced(g), h) && Subgraph(h, g)
    ensures Reaches(h, a, b) <==> Reaches(g, a, b)
  {
    if Reaches(h, a, b) { ReachesMonotone(h, g, a, b); }
    if Reaches(g, a, b) {
      ReducedReaches(g, a, b);
      ReachesMonotone(Reduced(g), h, a, b);
    }
  }

  /** Pruning loses no dependency: what needed a library through other libraries still does. */
  lemma ReductionKeepsReachability<T>(g: Graph<T>, a: T, b: T)
    requires Closed(g) && Acyclic(g)
    ensures Reaches(Reduced(g), a, b) <==> Reaches(g, a, b)
  {
    SameReachability(g, Reduced(g), a, b);
  }

  lemma ImpliedMonotone<T>(h: Graph<T>, g: Graph<T>, a: T, b: T)
    requires h.Keys == g.Keys && forall x, y :: x in g && y in g && Reaches(h, x, y) ==> Reaches(g, x, y)
    requires a in g && b in g && Implied(h, a, b)
    ensures Implied(g, a, b)
  {
    var z :| z in Between(h, a, b);
    assert z in Between(g, a, b);
  }

  /** No edge that is left follows from the others. */
  lemma ReductionIrredundant<T>(g: Graph<T>, a: T, b: T)
    requires Closed(g) && a in g && b in Reduced(g)[a]
    ensures !Implied(Reduced(g), a, b)
  {
    forall x, y | x in g && y in g && Reaches(Reduced(g), x, y) ensures Reaches(g, x, y) {
      ReachesMonotone(Reduced(g), g, x, y);
    }
    if Implied(Reduced(g), a, b) { ImpliedMonotone(Reduced(g), g, a, b); }
  }

  /** The reduction is the only graph that has both properties. */
  lemma ReductionUnique<T>(g: Graph<T>, h: Graph<T>)
    requires Closed(g) && Acyclic(g) && Closed(h) && h.Keys == g.Keys
    requires forall x, y :: x in g && y in g ==> (Reaches(h, x, y) <==> Reaches(g, x, y))
    requires forall x, y :: x in h && y in h[x] ==> !Implied(h, x, y)
    ensures h == Reduced(g)
  {
    forall a | a in g ensures h[a] == Reduced(g)[a] {
      forall b | b in g ensures b in h[a] <==> b in Reduced(g)[a] {
        SameEdge(g, h, a, b);
      }
    }
  }

  lemma SameEdge<T>(g: Graph<T>, h: Graph<T>, a: T, b: T)
    requires Closed(g) && Acyclic(g) && Closed(h) && h.Keys == g.Keys && a in g && b in g
    requires forall x, y :: x in g && y in g ==> (Reaches(h, x, y) <==> Reaches(g, x, y))
    requires forall x, y :: x in h && y in h[x] ==> !Implied(h, x, y)
    ensures b in h[a] <==> b in Reduced(g)[a]
  {
    if Implied(h, a, b) { ImpliedMonotone(h, g, a, b); }
    if Implied(g, a, b) { ImpliedMonotone(g, h, a, b); }
    if b in h[a] {
      EdgeReaches(h, a, b);
      EdgeUnlessImplied(g, a, b);
    }
    if b in Reduced(g)[a] {
      EdgeReaches(g, a, b);
      EdgeUnlessImplied(h, a, b);
    }
  }

  lemma EdgeUnlessImplied<T>(g: Graph<T>, a: T, b: T)
    requires Closed(g) && Reaches(g, a, b)
    ensures Implied(g, a, b) || b in g[a]
  {
    var z := FirstStep(g, a, b);
    EdgeReaches(g, a, z);
    if z != b { assert z in Between(g, a, b); }
  }

  // ----- the libraries

  type Symbol = string

  class Lib {
    const syms: set<Symbol>
    const neededSyms: set<Symbol>
    var needs: set<Lib>
    var needed: set<Lib>

    constructor (syms: set<Symbol>, neededSyms: set<Symbol>)
      ensures this.syms == syms && this.neededSyms == neededSyms && needs == {} && needed == {}
    {
      this.syms, this.neededSyms := syms, neededSyms;
      needs, needed := {}, {};
    }
  }

  predicate Uses(a: Lib, b: Lib) {
    a != b && a.syms * b.neededSyms != {}
  }

  /** Which libraries need which, by their symbols. */
  function Provides(libs: set<Lib>): Graph<Lib> {
    map a | a in libs :: set b | b in libs && Uses(a, b)
  }

  /** What a library's symbols reach, itself excluded. */
  ghost function Descendants(g: Graph<Lib>, a: Lib): set<Lib> {
    set x | x in g && Reaches(g, a, x)
  }

  /** The libraries of `s` and all that need them. */
  ghost function Cone(g: Graph<Lib>, s: set<Lib>): set<Lib> {
    set x | x in g && (x in s || exists y :: y in s && Reaches(g, y, x))
  }

  lemma ConeOfNeeded(g: Graph<Lib>, a: Lib)
    requires Closed(g) && a in g
    ensures Cone(g, g[a]) == Descendants(g, a)
  {
    forall x | x in g ensures x in Cone(g, g[a]) <==> Reaches(g, a, x) {
      if x in Cone(g, g[a]) {
        if x in g[a] {
          EdgeReaches(g, a, x);
        } else {
          var y :| y in g[a] && Reaches(g, y, x);
          EdgeReaches(g, a, y);
          ReachesTrans(g, a, y, x);
        }
      }
      if Reaches(g, a, x) {
        var z := FirstStep(g, a, x);
      }
    }
  }

  lemma DescendantsShrink(g: Graph<Lib>, a: Lib, b: Lib)
    requires Closed(g) && Acyclic(g) && a in g && b in g[a]
    ensures Descendants(g, b) < Descendants(g, a)
  {
    EdgeReaches(g, a, b);
    forall x | x in Descendants(g, b) ensures x in Descendants(g, a) {
      ReachesTrans(g, a, b, x);
    }
    assert b !in Descendants(g, b);
  }

  /** The state while the edges out of `top` are pruned: `gone` are the libraries that no
      longer count as needing it. */
  ghost predicate Pruned(libs: set<Lib>, g: Graph<Lib>, top: Lib, gone: set<Lib>)
    reads libs
  {
    && g.Keys == libs && top in libs
    && (forall x :: x in libs ==> x.needs <= libs && x.needed == if x == top then g[x] - gone else g[x])
    && (forall x, y :: x in libs && y in libs ==> (x in y.needs <==> y in x.needed))
  }

  lemma ConeGrows(g: Graph<Lib>, s: set<Lib>, i: Lib)
    requires i in g
    ensures Cone(g, s + {i}) == Cone(g, s) + {i} + Descendants(g, i)
  {}

  /** Where the loop of `prune` is: `done` of `s` is pruned, and `out` no longer lists anything
      above it. */
  ghost predicate Underway(g: Graph<Lib>, s: set<Lib>, todo: set<Lib>, done: set<Lib>, gone: set<Lib>, out: set<Lib>) {
    todo + done == s && out == gone + Cone(g, done)
  }

  lemma UnderwayNext(g: Graph<Lib>, s: set<Lib>, todo: set<Lib>, done: set<Lib>, gone: set<Lib>, out: set<Lib>, i: Lib)
    requires Underway(g, s, todo, done, gone, out) && i in todo && i in g
    ensures Underway(g, s, todo - {i}, done + {i}, gone, out + {i} + Descendants(g, i))
  {
    ConeGrows(g, done, i);
  }

  /** The two discards of `prune`. */
  method Drop(libs: set<Lib>, i: Lib, top: Lib, ghost g: Graph<Lib>, ghost gone: set<Lib>)
    requires Pruned(libs, g, top, gone) && i in libs && i != top
    modifies libs
    ensures Pruned(libs, g, top, gone + {i})
  {
    i.needs := i.needs - {top};
    top.needed := top.needed - {i};
  }

  /** `prune`: `cur` reaches everything that the library to prune need not list. */
  method Prune(libs: set<Lib>, cur: Lib, top: Lib, ghost g: Graph<Lib>, ghost gone: set<Lib>)
    requires Closed(g) && Acyclic(g) && Pruned(libs, g, top, gone)
    requires cur in libs && Reaches(g, top, cur)
    modifies libs
    ensures Pruned(libs, g, top, gone + Descendants(g, cur))
    decreases Descendants(g, cur), 1
  {
    assert cur != top;
    var todo := cur.needed;
    ghost var done: set<Lib>, out := {}, gone;
    while todo != {}
      invariant Underway(g, g[cur], todo, done, gone, out)
      invariant Pruned(libs, g, top, out)
      decreases todo
    {
      var i :| i in todo;
      PruneOne(libs, cur, i, top, g, out);
      UnderwayNext(g, g[cur], todo, done, gone, out, i);
      todo, done, out := todo - {i}, done + {i}, out + {i} + Descendants(g, i);
    }
    ConeOfNeeded(g, cur);
    assert done == g[cur];
  }

  /** One turn of the loop of `prune`. */
  method PruneOne(libs: set<Lib>, cur: Lib, i: Lib, top: Lib, ghost g: Graph<Lib>, ghost gone: set<Lib>)
    requires Closed(g) && Acyclic(g) && Pruned(libs, g, top, gone)
    requires cur in libs && Reaches(g, top, cur) && i in g[cur]
    modifies libs
    ensures Pruned(libs, g, top, gone + {i} + Descendants(g, i))
    decreases Descendants(g, cur), 0
  {
    EdgeReaches(g, cur, i);
    ReachesTrans(g, top, cur, i);
    DescendantsShrink(g, cur, i);
    assert i != top;
    Drop(libs, i, top, g, gone);
    Prune(libs, i, top, g, gone + {i});
  }

  /** All that the libraries directly above `a` reach. */
  ghost function Far(g: Graph<Lib>, s: set<Lib>): set<Lib> {
    set x | x in g && exists y :: y in s && Reaches(g, y, x)
  }

  ghost predicate FarUnderway(g: Graph<Lib>, s: set<Lib>, todo: set<Lib>, done: set<Lib>, out: set<Lib>) {
    todo + done == s && out == Far(g, done)
  }

  lemma FarUnderwayNext(g: Graph<Lib>, s: set<Lib>, todo: set<Lib>, done: set<Lib>, out: set<Lib>, i: Lib)
    requires FarUnderway(g, s, todo, done, out) && i in todo
    ensures FarUnderway(g, s, todo - {i}, done + {i}, out + Descendants(g, i))
  {
    assert Far(g, done + {i}) == Far(g, done) + Descendants(g, i);
  }

  lemma FarIsImplied(g: Graph<Lib>, a: Lib, x: Lib)
    requires Closed(g) && a in g && x in g
    ensures x in Far(g, g[a]) <==> Implied(g, a, x)
  {
    if x in Far(g, g[a]) {
      var y :| y in g[a] && Reaches(g, y, x);
      EdgeReaches(g, a, y);
      assert y in Between(g, a, x);
    }
    if Implied(g, a, x) {
      var z :| z in Between(g, a, x);
      var y := FirstStep(g, a, z);
      if y != z { ReachesTrans(g, y, z, x); }
    }
  }

  /** The graph when the libraries of `done` have been pruned. */
  ghost function Partly(g: Graph<Lib>, done: set<Lib>): Graph<Lib> {
    map x | x in g :: if x in done then Reduced(g)[x] else g[x]
  }

  lemma PartlySame(g: Graph<Lib>, done: set<Lib>)
    requires Closed(g) && Acyclic(g)
    ensures Closed(Partly(g, done)) && Acyclic(Partly(g, done))
    ensures forall a, b :: a in g && b in g ==> (Implied(Partly(g, done), a, b) <==> Implied(g, a, b))
  {
    var h := Partly(g, done);
    forall x, y | x in g && y in g ensures Reaches(h, x, y) <==> Reaches(g, x, y) {
      SameReachability(g, h, x, y);
    }
    forall a, b | a in g && b in g ensures Implied(h, a, b) <==> Implied(g, a, b) {
      if Implied(h, a, b) { ImpliedMonotone(h, g, a, b); }
      if Implied(g, a, b) { ImpliedMonotone(g, h, a, b); }
    }
  }

  lemma PartlyNext(g: Graph<Lib>, done: set<Lib>, a: Lib)
    requires Closed(g) && Acyclic(g) && a in g && a !in done
    ensures var h := Partly(g, done);
            Partly(g, done + {a}) == h[a := h[a] - Far(h, h[a])]
  {
    var h := Partly(g, done);
    PartlySame(g, done);
    forall x | x in g[a] ensures x in Far(h, h[a]) <==> Implied(g, a, x) {
      FarIsImplied(h, a, x);
    }
    assert Reduced(g)[a] == h[a] - Far(h, h[a]);
  }

  lemma PartlyEnds(g: Graph<Lib>)
    ensures Partly(g, {}) == g && Partly(g, g.Keys) == Reduced(g)
  {}

  ghost predicate Split(libs: set<Lib>, todo: set<Lib>, done: set<Lib>) {
    todo + done == libs && todo !! done
  }

  lemma SplitNext(libs: set<Lib>, todo: set<Lib>, done: set<Lib>, a: Lib)
    requires Split(libs, todo, done) && a in todo
    ensures Split(libs, todo - {a}, done + {a})
  {}

  /** The libraries list each other as in `g`. */
  ghost predicate Listed(libs: set<Lib>, g: Graph<Lib>)
    reads libs
  {
    && g.Keys == libs
    && (forall x :: x in libs ==> x.needed == g[x] && x.needs <= libs)
    && (forall x, y :: x in libs && y in libs ==> (x in y.needs <==> y in x.needed))
  }

  /** One turn of the last loop of `compute_graph`. */
  method PruneTop(libs: set<Lib>, top: Lib, ghost g: Graph<Lib>)
    requires Closed(g) && Acyclic(g) && Listed(libs, g) && top in libs
    modifies libs
    ensures Listed(libs, g[top := g[top] - Far(g, g[top])])
  {
    var todo := top.needed;
    ghost var done: set<Lib>, out: set<Lib> := {}, {};
    while todo != {}
      invariant FarUnderway(g, g[top], todo, done, out)
      invariant Pruned(libs, g, top, out)
      decreases todo
    {
      var i :| i in todo;
      EdgeReaches(g, top, i);
      Prune(libs, i, top, g, out);
      FarUnderwayNext(g, g[top], todo, done, out, i);
      todo, done, out := todo - {i}, done + {i}, out + Descendants(g, i);
    }
    assert done == g[top];
  }

  /** The second half of `compute_graph`. */
  method PruneAll(libs: set<Lib>, ghost g: Graph<Lib>)
    requires Closed(g) && Acyclic(g) && Listed(libs, g)
    modifies libs
    ensures Listed(libs, Reduced(g))
  {
    var todo := libs;
    ghost var done: set<Lib> := {};
    PartlyEnds(g);
    while todo != {}
      invariant Split(libs, todo, done)
      invariant Listed(libs, Partly(g, done))
      decreases todo
    {
      var a :| a in todo;
      PartlySame(g, done);
      PruneTop(libs, a, Partly(g, done));
      PartlyNext(g, done, a);
      SplitNext(libs, todo, done, a);
      todo, done := todo - {a}, done + {a};
    }
    assert done == g.Keys;
  }

  /** The first half of `compute_graph`. */
  method Link(libs: set<Lib>)
    requires forall x :: x in libs ==> x.needs == {} && x.needed == {}
    modifies libs
    ensures Listed(libs, Provides(libs))
  {
    var todo := set a, b | a in libs && b in libs && a != b :: (a, b);
    while todo != {}
      invariant todo <= set a, b | a in libs && b in libs && a != b :: (a, b)
      invariant forall x :: x in libs ==> x.needs <= libs && x.needed <= libs
      invariant forall a, b :: a in libs && b in libs ==> (b in a.needed <==> Uses(a, b) && (a, b) !in todo)
      invariant forall a, b :: a in libs && b in libs ==> (a in b.needs <==> Uses(a, b) && (a, b) !in todo)
      decreases todo
    {
      var p :| p in todo;
      var (a, b) := p;
      if a.syms * b.neededSyms != {} {
        b.needs := b.needs + {a};
        a.needed := a.needed + {b};
      }
      todo := todo - {p};
    }
  }

  ghost function NeededBy(libs: set<Lib>): Graph<Lib>
    reads libs
  {
    map x | x in libs :: x.needed
  }

  lemma EdgeHasSymbol(libs: set<Lib>, a: Lib, b: Lib) returns (s: Symbol)
    requires a in libs && b in Reduced(Provides(libs))[a]
    ensures b in libs && s in a.syms && s in b.neededSyms
  {
    assert b in Provides(libs)[a] && Uses(a, b);
    s :| s in a.syms * b.neededSyms;
  }

  lemma SymbolReaches(libs: set<Lib>, a: Lib, b: Lib, s: Symbol)
    requires Acyclic(Provides(libs)) && a in libs && b in libs && a != b && s in a.syms && s in b.neededSyms
    ensures Reaches(Reduced(Provides(libs)), a, b)
  {
    var g := Provides(libs);
    assert s in a.syms * b.neededSyms;
    EdgeReaches(g, a, b);
    ReductionKeepsReachability(g, a, b);
  }

  lemma NeededForSymbols(libs: set<Lib>, g: Graph<Lib>)
    requires Listed(libs, g) && g == Reduced(Provides(libs))
    ensures forall a, b :: a in libs && b in a.needed ==> b in libs && a in b.needs && exists s :: s in a.syms && s in b.neededSyms
  {
    forall a, b | a in libs && b in a.needed
      ensures b in libs && a in b.needs && exists s :: s in a.syms && s in b.neededSyms
    {
      var s := EdgeHasSymbol(libs, a, b);
    }
  }

  lemma SymbolsReached(libs: set<Lib>, g: Graph<Lib>)
    requires g == Reduced(Provides(libs)) && Acyclic(Provides(libs))
    ensures forall a, b, s :: a in libs && b in libs && a != b && s in a.syms && s in b.neededSyms ==> Reaches(g, a, b)
  {
    forall a, b, s | a in libs && b in libs && a != b && s in a.syms && s in b.neededSyms
      ensures Reaches(g, a, b)
    {
      SymbolReaches(libs, a, b, s);
    }
  }

  /** `compute_graph`: whatever order the sets are walked in, the libraries end up listing the
      transitive reduction of the graph that their symbols define: one lists another as needing
      it only for a symbol, and whoever needs a symbol is reached from whoever has it. */
  method ComputeGraph(libs: set<Lib>)
    requires forall x :: x in libs ==> x.needs == {} && x.needed == {}
    requires Acyclic(Provides(libs))
    modifies libs
    ensures Listed(libs, Reduced(Provides(libs)))
    ensures forall a, b :: a in libs && b in a.needed ==> b in libs && a in b.needs && exists s :: s in a.syms && s in b.neededSyms
    ensures forall a, b, s :: a in libs && b in libs && a != b && s in a.syms && s in b.neededSyms ==> Reaches(NeededBy(libs), a, b)
  {
    Link(libs);
    PruneAll(libs, Provides(libs));
    ghost var g := NeededBy(libs);
    assert g == Reduced(Provides(libs));
    NeededForSymbols(libs, g);
    SymbolsReached(libs, g);
  }
}
