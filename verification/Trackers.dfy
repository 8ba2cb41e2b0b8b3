/** The list of map request trackers and the timer that counts them down, retransmits and
    reaps (iwpmd/iwarp_pm_helper.c:38-160, iwpmd/iwarp_pm_server.c:116-139). */
module Trackers {
  import opened Addr
  import opened Options

  const TIMEOUT: int := 10

  datatype Kind = Query | Accept | Ack

  /** `iwpm_mapping_request`. `id` is the address of the object, `msg` the message that the
      timer retransmits; what it is made of does not matter here. */
  datatype Tracker<M> = Tracker(id: nat, src: SockAddr, remote: SockAddr, handle: nat, kind: Kind,
                                msg: Option<M>, timeout: int, complete: bool)

  /** `create_iwpm_map_request`: without an association handle the object's address becomes it. */
  function Create<M>(id: nat, src: SockAddr, remote: SockAddr, handle: nat, kind: Kind, msg: Option<M>): Tracker<M> {
    Tracker(id, src, remote, if handle == 0 then id else handle, kind, msg, TIMEOUT, false)
  }

  predicate Hits<M>(t: Tracker<M>, handle: nat, src: SockAddr, kinds: set<Kind>) {
    handle == t.handle && t.kind in kinds && Same(src, t.src)
  }

  /** The first tracker that a message is for, or the length. */
  function Find<M>(s: seq<Tracker<M>>, handle: nat, src: SockAddr, kinds: set<Kind>): (i: nat)
    ensures i <= |s|
    ensures i < |s| ==> Hits(s[i], handle, src, kinds)
    ensures forall j :: 0 <= j < i ==> !Hits(s[j], handle, src, kinds)
  {
    if s == [] then 0
    else if Hits(s[0], handle, src, kinds) then 0
    else 1 + Find(s[1..], handle, src, kinds)
  }

  /** An answered request is complete and may be reaped; an acknowledgement lives on. */
  function Serviced<M>(t: Tracker<M>): Tracker<M> {
    if t.complete then t
    else if t.kind == Ack then t.(timeout := TIMEOUT, complete := false)
    else t.(timeout := 0, complete := true)
  }

  /** `update_iwpm_map_request`: the list afterwards, when tracker `i` was found. */
  function Updated<M>(s: seq<Tracker<M>>, i: nat): seq<Tracker<M>>
    requires i <= |s|
  {
    if i == |s| then s else s[i := Serviced(s[i])]
  }

  // ----- one second of the timer

  /** The timer retransmits a pending message every second after the first. */
  predicate Resent<M>(t: Tracker<M>) {
    0 < t.timeout < TIMEOUT && t.kind != Ack
  }

  function Aged<M>(t: Tracker<M>): seq<Tracker<M>> {
    if t.timeout > 0 then [t.(timeout := t.timeout - 1)] else []
  }

  function Ticked<M>(s: seq<Tracker<M>>): seq<Tracker<M>> {
    if s == [] then [] else Aged(s[0]) + Ticked(s[1..])
  }

  /** The trackers whose message one pass of the timer sends again, in order. */
  function Resends<M>(s: seq<Tracker<M>>): seq<Tracker<M>> {
    if s == [] then [] else (if Resent(s[0]) then [s[0]] else []) + Resends(s[1..])
  }

  lemma {:induction false} TickedSplit<M>(s: seq<Tracker<M>>, t: seq<Tracker<M>>)
    ensures Ticked(s + t) == Ticked(s) + Ticked(t)
    decreases |s|
  {
    if s == [] {
      assert s + t == t;
    } else {
      var tail := s[1..];
      assert (s + t)[0] == s[0] && (s + t)[1..] == tail + t;
      TickedSplit(tail, t);
      assert Aged(s[0]) + (Ticked(tail) + Ticked(t)) == (Aged(s[0]) + Ticked(tail)) + Ticked(t);
    }
  }

  lemma {:induction false} ResendsSplit<M>(s: seq<Tracker<M>>, t: seq<Tracker<M>>)
    ensures Resends(s + t) == Resends(s) + Resends(t)
    decreases |s|
  {
    if s == [] {
      assert s + t == t;
    } else {
      var head, tail := if Resent(s[0]) then [s[0]] else [], s[1..];
      assert (s + t)[0] == s[0] && (s + t)[1..] == tail + t;
      ResendsSplit(tail, t);
      assert head + (Resends(tail) + Resends(t)) == (head + Resends(tail)) + Resends(t);
    }
  }

  // ----- the list as the daemon keeps it

  class TrackerList<M> {
    var reqs: seq<Tracker<M>>

    constructor ()
      ensures reqs == []
    {
      reqs := [];
    }

    /** `add_iwpm_map_request`, under the lock: at the head of the list. */
    method Post(t: Tracker<M>)
      modifies this
      ensures reqs == [t] + old(reqs)
    {
      reqs := [t] + reqs;
    }

    /** `update_iwpm_map_request`: the copy is taken before the tracker is changed. */
    method Update(handle: nat, src: SockAddr, kinds: set<Kind>, update: bool) returns (copy: Option<Tracker<M>>)
      modifies this
      ensures var i := Find(old(reqs), handle, src, kinds);
              && copy == (if i < |old(reqs)| then Some(old(reqs)[i]) else None)
              && reqs == (if update then Updated(old(reqs), i) else old(reqs))
    {
      var i := 0;
      while i < |reqs|
        invariant i <= |reqs| && reqs == old(reqs)
        invariant forall j :: 0 <= j < i ==> !Hits(reqs[j], handle, src, kinds)
      {
        var t := reqs[i];
        if Hits(t, handle, src, kinds) {
          copy := Some(t);
          FindIs(reqs, handle, src, kinds, i);
          if update && !t.complete {
            if t.kind == Ack {
              reqs := reqs[i := t.(timeout := TIMEOUT, complete := false)];
            } else {
              reqs := reqs[i := t.(timeout := 0, complete := true)];
            }
          }
          return;
        }
        i := i + 1;
      }
      FindIs(reqs, handle, src, kinds, i);
      copy := None;
    }

    /** One pass of `iwpm_mapping_reqs_handler` over the list, in place: `resent` are the
        trackers whose message it tried to queue again. */
    method Tick() returns (resent: seq<Tracker<M>>)
      modifies this
      ensures reqs == Ticked(old(reqs)) && resent == Resends(old(reqs))
    {
      ghost var s := reqs;
      ghost var done, left: seq<Tracker<M>> := [], reqs;
      var i := 0;
      resent := [];
      while i < |reqs|
        invariant s == done + left && i == |Ticked(done)|
        invariant reqs == Ticked(done) + left && resent == Resends(done)
        decreases |left|
      {
        var t := reqs[i];
        TickSnoc(done, t);
        Shift(done, left);
        if t.timeout > 0 {
          TickKeeps(done, left);
          if t.timeout < TIMEOUT && t.kind != Ack {
            resent := resent + [t];
          }
          reqs := reqs[i := t.(timeout := t.timeout - 1)];
          i := i + 1;
        } else {
          TickReaps(done, left);
          reqs := reqs[..i] + reqs[i + 1..];
        }
        done, left := done + [t], left[1..];
      }
      assert left == [] && done == s;
    }
  }

  /** One turn of the loop over a list whose beginning it has aged: it ages a tracker. */
  lemma TickKeeps<M>(done: seq<Tracker<M>>, left: seq<Tracker<M>>)
    requires left != [] && left[0].timeout > 0
    ensures var i, t := |Ticked(done)|, left[0];
            (Ticked(done) + left)[i := t.(timeout := t.timeout - 1)] == Ticked(done + [t]) + left[1..]
    ensures |Ticked(done + [left[0]])| == |Ticked(done)| + 1
  {
    var a, y := Ticked(done), left[0].(timeout := left[0].timeout - 1);
    TickSnoc(done, left[0]);
    Splice(a, left, y);
    assert Ticked(done + [left[0]]) == a + [y];
  }

  /** Or it reaps one. */
  lemma TickReaps<M>(done: seq<Tracker<M>>, left: seq<Tracker<M>>)
    requires left != [] && left[0].timeout <= 0
    ensures var i, r := |Ticked(done)|, Ticked(done) + left;
            r[..i] + r[i + 1..] == Ticked(done + [left[0]]) + left[1..]
    ensures |Ticked(done + [left[0]])| == |Ticked(done)|
  {
    var a := Ticked(done);
    TickSnoc(done, left[0]);
    Splice(a, left, left[0]);
    assert Ticked(done + [left[0]]) == a;
  }

  lemma Shift<M>(done: seq<Tracker<M>>, left: seq<Tracker<M>>)
    requires left != []
    ensures done + left == (done + [left[0]]) + left[1..]
  {}

  lemma Splice<M>(a: seq<Tracker<M>>, b: seq<Tracker<M>>, y: Tracker<M>)
    requires b != []
    ensures (a + b)[|a| := y] == (a + [y]) + b[1..]
    ensures (a + b)[..|a|] + (a + b)[|a| + 1..] == a + b[1..]
  {}

  lemma TickSnoc<M>(s: seq<Tracker<M>>, t: Tracker<M>)
    ensures Ticked(s + [t]) == Ticked(s) + Aged(t)
    ensures Resends(s + [t]) == if Resent(t) then Resends(s) + [t] else Resends(s)
  {
    TickedSplit(s, [t]);
    ResendsSplit(s, [t]);
    TickOne(t);
  }

  lemma TickOne<M>(t: Tracker<M>)
    ensures Ticked([t]) == Aged(t) && Resends([t]) == if Resent(t) then [t] else []
  {
    assert [t][1..] == [];
  }

  lemma FindIs<M>(s: seq<Tracker<M>>, handle: nat, src: SockAddr, kinds: set<Kind>, i: nat)
    requires i <= |s| && (i < |s| ==> Hits(s[i], handle, src, kinds))
    requires forall j :: 0 <= j < i ==> !Hits(s[j], handle, src, kinds)
    ensures i == Find(s, handle, src, kinds)
  {}

  // ----- what every tracker keeps

  ghost predicate Timed<M>(t: Tracker<M>) {
    && 0 <= t.timeout <= TIMEOUT
    && (t.complete ==> t.timeout == 0 && t.kind != Ack)
    && (t.msg.None? <==> t.kind == Ack)
  }

  ghost predicate AllTimed<M>(s: seq<Tracker<M>>) {
    forall i :: 0 <= i < |s| ==> Timed(s[i])
  }

  /** What the poster, the message handlers and the timer do to the list. */
  datatype Event<M> =
    | Post(t: Tracker<M>)
    | Answer(handle: nat, src: SockAddr, kinds: set<Kind>)
    | Second

  /** The list, the number of identities given out so far, and how often the message of the
      tracker with each identity was retransmitted. */
  datatype State<M> = State(reqs: seq<Tracker<M>>, next: nat, resent: multiset<nat>)

  function Ids<M>(s: seq<Tracker<M>>): multiset<nat> {
    if s == [] then multiset{} else multiset{s[0].id} + Ids(s[1..])
  }

  /** A posted tracker is fresh from `Create`: a new object with a full timeout. */
  predicate Possible<M>(st: State<M>, e: Event<M>) {
    e.Post? ==>
      && e.t.id == st.next && e.t.timeout == TIMEOUT && !e.t.complete
      && (e.t.msg.None? <==> e.t.kind == Ack)
  }

  function Next<M>(st: State<M>, e: Event<M>): State<M> {
    match e
    case Post(t) => State([t] + st.reqs, st.next + 1, st.resent)
    case Answer(handle, src, kinds) => st.(reqs := Updated(st.reqs, Find(st.reqs, handle, src, kinds)))
    case Second => State(Ticked(st.reqs), st.next, st.resent + Ids(Resends(st.reqs)))
  }

  /** Retransmissions that a tracker can still cause. */
  function Remaining<M>(t: Tracker<M>): nat
    requires Timed(t)
  {
    if t.kind == Ack then 0 else if t.timeout == TIMEOUT then TIMEOUT - 1 else t.timeout
  }

  ghost predicate DistinctIds<M>(s: seq<Tracker<M>>) {
    forall i, j :: 0 <= i < j < |s| ==> s[i].id != s[j].id
  }

  /** No tracker has used, or can still use, more than nine retransmissions. */
  ghost predicate Budget<M>(st: State<M>) {
    && AllTimed(st.reqs)
    && DistinctIds(st.reqs)
    && (forall i :: 0 <= i < |st.reqs| ==> st.reqs[i].id < st.next)
    && (forall i :: 0 <= i < |st.reqs| ==> st.resent[st.reqs[i].id] + Remaining(st.reqs[i]) <= TIMEOUT - 1)
    && (forall id: nat :: id >= st.next ==> st.resent[id] == 0)
    && (forall id: nat :: st.resent[id] <= TIMEOUT - 1)
  }

  /** Every tracker that survives a pass is an older one of the same identity. */
  lemma {:induction false} TickOrigin<M>(s: seq<Tracker<M>>, i: nat) returns (j: nat)
    requires i < |Ticked(s)|
    ensures j < |s| && s[j].timeout > 0 && Ticked(s)[i] == s[j].(timeout := s[j].timeout - 1)
    decreases |s|
  {
    if i < |Aged(s[0])| {
      j := 0;
    } else {
      j := TickOrigin(s[1..], i - |Aged(s[0])|);
      j := j + 1;
    }
  }

  lemma {:induction false} TickedDistinct<M>(s: seq<Tracker<M>>)
    requires DistinctIds(s)
    ensures DistinctIds(Ticked(s))
    decreases |s|
  {
    if s != [] {
      var tail, rest := s[1..], Ticked(s[1..]);
      TickedDistinct(tail);
      if s[0].timeout > 0 {
        forall j | 0 <= j < |rest|
          ensures s[0].id != rest[j].id
        {
          var k := TickOrigin(tail, j);
          assert tail[k] == s[k + 1];
        }
        var head := s[0].(timeout := s[0].timeout - 1);
        assert Ticked(s) == [head] + rest;
        DistinctCons(head, rest);
      } else {
        assert Ticked(s) == rest;
      }
    }
  }

  lemma DistinctCons<M>(t: Tracker<M>, s: seq<Tracker<M>>)
    requires DistinctIds(s) && forall j :: 0 <= j < |s| ==> t.id != s[j].id
    ensures DistinctIds([t] + s)
  {
    forall i, j | 0 <= i < j < |[t] + s|
      ensures ([t] + s)[i].id != ([t] + s)[j].id
    {
      assert ([t] + s)[j] == s[j - 1];
    }
  }

  lemma {:induction false} ResendsUnlisted<M>(s: seq<Tracker<M>>, id: nat)
    requires forall i :: 0 <= i < |s| ==> s[i].id != id
    ensures Ids(Resends(s))[id] == 0
    decreases |s|
  {
    if s != [] {
      ResendsUnlisted(s[1..], id);
      ResendsHead(s);
    }
  }

  lemma {:induction false} ResendsHead<M>(s: seq<Tracker<M>>)
    requires s != []
    ensures Ids(Resends(s)) == (if Resent(s[0]) then multiset{s[0].id} else multiset{}) + Ids(Resends(s[1..]))
  {
    var rest := Resends(s[1..]);
    if Resent(s[0]) {
      assert Resends(s) == [s[0]] + rest && ([s[0]] + rest)[1..] == rest;
    } else {
      assert Resends(s) == rest;
    }
  }

  /** One pass retransmits the message of a listed tracker once or not at all. */
  lemma {:induction false} ResendsListed<M>(s: seq<Tracker<M>>, j: nat)
    requires DistinctIds(s) && j < |s|
    ensures Ids(Resends(s))[s[j].id] == if Resent(s[j]) then 1 else 0
    decreases |s|
  {
    ResendsHead(s);
    if j == 0 {
      ResendsUnlisted(s[1..], s[0].id);
    } else {
      ResendsListed(s[1..], j - 1);
    }
  }

  lemma SecondKeepsBudget<M>(st: State<M>)
    requires Budget(st)
    ensures Budget(Next(st, Second))
  {
    var s, st' := st.reqs, Next(st, Second);
    TickedDistinct(s);
    forall i | 0 <= i < |st'.reqs|
      ensures Timed(st'.reqs[i]) && st'.reqs[i].id < st'.next
      ensures st'.resent[st'.reqs[i].id] + Remaining(st'.reqs[i]) <= TIMEOUT - 1
    {
      var j := TickOrigin(s, i);
      ResendsListed(s, j);
    }
    forall id: nat
      ensures st'.resent[id] <= TIMEOUT - 1 && (id >= st'.next ==> st'.resent[id] == 0)
    {
      if j :| 0 <= j < |s| && s[j].id == id {
        ResendsListed(s, j);
      } else {
        ResendsUnlisted(s, id);
      }
    }
  }

  lemma NextKeepsBudget<M>(st: State<M>, e: Event<M>)
    requires Budget(st) && Possible(st, e)
    ensures Budget(Next(st, e))
  {
    match e
    case Post(t) =>
      var st' := Next(st, e);
      forall i | 0 <= i < |st'.reqs|
        ensures Timed(st'.reqs[i]) && st'.reqs[i].id < st'.next
        ensures st'.resent[st'.reqs[i].id] + Remaining(st'.reqs[i]) <= TIMEOUT - 1
      {
        if i > 0 { assert st'.reqs[i] == st.reqs[i - 1]; }
      }
    case Answer(handle, src, kinds) =>
    case Second => SecondKeepsBudget(st);
  }

  // ----- every run

  ghost predicate IsRun<M>(sts: seq<State<M>>, es: seq<Event<M>>) {
    && |sts| == |es| + 1
    && sts[0] == State([], 0, multiset{})
    && forall i {:trigger es[i]} :: 0 <= i < |es| ==> IsStep(sts[i], es[i], sts[i + 1])
  }

  ghost predicate IsStep<M>(st: State<M>, e: Event<M>, st': State<M>) {
    Possible(st, e) && st' == Next(st, e)
  }

  /** In every run, in every state: the timeouts are in range, a completed tracker is ripe for
      reaping, and no message was retransmitted more than nine times. */
  lemma {:induction false} RunBudget<M>(sts: seq<State<M>>, es: seq<Event<M>>, n: nat)
    requires IsRun(sts, es) && n < |sts|
    ensures Budget(sts[n])
  {
    if n > 0 {
      RunBudget(sts, es, n - 1);
      NextKeepsBudget(sts[n - 1], es[n - 1]);
    }
  }

  /** No message is retransmitted after its tracker is complete. */
  lemma {:induction false} SilentOnceComplete<M>(sts: seq<State<M>>, es: seq<Event<M>>, m: nat, n: nat, i: nat)
    requires IsRun(sts, es) && m <= n < |sts| && i < |sts[m].reqs| && sts[m].reqs[i].complete
    ensures sts[n].resent[sts[m].reqs[i].id] == sts[m].resent[sts[m].reqs[i].id]
    ensures forall j :: 0 <= j < |sts[n].reqs| && sts[n].reqs[j].id == sts[m].reqs[i].id ==> sts[n].reqs[j].complete
    ensures sts[m].next <= sts[n].next
    decreases n
  {
    var id := sts[m].reqs[i].id;
    RunBudget(sts, es, m);
    if m < n {
      SilentOnceComplete(sts, es, m, n - 1, i);
      RunBudget(sts, es, n - 1);
      SilentStep(sts[n - 1], es[n - 1], id);
    } else {
      forall j | 0 <= j < |sts[m].reqs| && sts[m].reqs[j].id == id ensures j == i {}
    }
  }

  lemma SilentStep<M>(st: State<M>, e: Event<M>, id: nat)
    requires Budget(st) && Possible(st, e) && id < st.next
    requires forall j :: 0 <= j < |st.reqs| && st.reqs[j].id == id ==> st.reqs[j].complete
    ensures Next(st, e).resent[id] == st.resent[id] && st.next <= Next(st, e).next
    ensures forall j :: 0 <= j < |Next(st, e).reqs| && Next(st, e).reqs[j].id == id ==> Next(st, e).reqs[j].complete
  {
    var st' := Next(st, e);
    if e == Second {
      if j :| 0 <= j < |st.reqs| && st.reqs[j].id == id {
        ResendsListed(st.reqs, j);
      } else {
        ResendsUnlisted(st.reqs, id);
      }
      forall i | 0 <= i < |st'.reqs| && st'.reqs[i].id == id
        ensures st'.reqs[i].complete
      {
        var j := TickOrigin(st.reqs, i);
      }
    }
  }

  /** What an answer does to the first tracker it is for, and to no other: an open query or
      accept is closed and ripe, an acknowledgement gets its ten seconds anew, and a tracker
      that is closed already stays as it is. */
  lemma AnswerEffect<M>(s: seq<Tracker<M>>, handle: nat, src: SockAddr, kinds: set<Kind>, j: nat)
    requires j < |s| && s[j].handle == handle && s[j].kind in kinds && Same(src, s[j].src)
    requires forall i :: 0 <= i < j ==> !(s[i].handle == handle && s[i].kind in kinds && Same(src, s[i].src))
    ensures var r, t := Updated(s, Find(s, handle, src, kinds)), s[j];
            r == s[j := if t.complete then t else if t.kind == Ack then t.(timeout := 10) else t.(timeout := 0, complete := true)]
  {
    FindIs(s, handle, src, kinds, j);
  }

  // ----- what is sent again

  /** A pass sends again exactly the messages of the queries and accepts that have been listed
      for at least a second and have not timed out. */
  lemma {:induction false} PassSends<M>(s: seq<Tracker<M>>, t: Tracker<M>)
    ensures t in Resends(s) <==> t in s && (t.kind == Query || t.kind == Accept) && 1 <= t.timeout <= 9
    decreases |s|
  {
    if s != [] {
      var rest := s[1..];
      PassSends(rest, t);
      assert t in s <==> t == s[0] || t in rest;
      assert Resends(s) == (if Resent(s[0]) then [s[0]] else []) + Resends(rest);
    }
  }

  /** A pass leaves exactly the trackers that had time left, each with a second less. */
  lemma {:induction false} PassLeaves<M>(s: seq<Tracker<M>>, t: Tracker<M>)
    ensures t in Ticked(s) <==> t.timeout >= 0 && t.(timeout := t.timeout + 1) in s
    decreases |s|
  {
    if s != [] {
      var rest, u := s[1..], t.(timeout := t.timeout + 1);
      PassLeaves(rest, t);
      assert u in s <==> u == s[0] || u in rest;
      assert Ticked(s) == Aged(s[0]) + Ticked(rest);
    }
  }

  /** How many of the events from `m` to `n` are passes of the timer. */
  function Passes<M>(es: seq<Event<M>>, m: nat, n: nat): nat
    requires m <= n <= |es|
  {
    if m == n then 0 else Passes(es, m, n - 1) + if es[n - 1].Second? then 1 else 0
  }

  /** An answer that is meant for `t`. */
  predicate MeantFor<M>(e: Event<M>, t: Tracker<M>) {
    e.Answer? && e.handle == t.handle && t.kind in e.kinds && Same(e.src, t.src)
  }

  /** Where `t` stands when `k` passes were made since it was posted. */
  ghost predicate Stands<M>(st: State<M>, t: Tracker<M>, k: nat) {
    && t.id < st.next
    && (if k <= 10 then t.(timeout := 10 - k) in st.reqs else forall u <- st.reqs :: u.id != t.id)
    && st.resent[t.id] == if k <= 1 then 0 else if k <= 10 then k - 1 else 9
  }

  lemma PassStands<M>(st: State<M>, t: Tracker<M>, k: nat)
    requires Budget(st) && Stands(st, t, k) && (t.kind == Query || t.kind == Accept)
    ensures Stands(Next(st, Second), t, k + 1)
  {
    var s, st' := st.reqs, Next(st, Second);
    if k <= 10 {
      var j :| 0 <= j < |s| && s[j] == t.(timeout := 10 - k);
      ResendsListed(s, j);
      if k < 10 {
        PassLeaves(s, t.(timeout := 9 - k));
      } else {
        forall u <- st'.reqs ensures u.id != t.id {
          var i :| 0 <= i < |st'.reqs| && st'.reqs[i] == u;
          var o := TickOrigin(s, i);
          assert o != j;
        }
      }
    } else {
      ResendsUnlisted(s, t.id);
      forall u <- st'.reqs ensures u.id != t.id {
        var i :| 0 <= i < |st'.reqs| && st'.reqs[i] == u;
        var o := TickOrigin(s, i);
        assert s[o] in s;
      }
    }
  }

  lemma OtherStands<M>(st: State<M>, e: Event<M>, t: Tracker<M>, k: nat)
    requires Budget(st) && Possible(st, e) && Stands(st, t, k) && !e.Second? && !MeantFor(e, t)
    ensures Stands(Next(st, e), t, k)
  {
    var s, st' := st.reqs, Next(st, e);
    if e.Post? {
      forall u <- st'.reqs ensures u == e.t || u in s {}
      if k <= 10 {
        var j :| 0 <= j < |s| && s[j] == t.(timeout := 10 - k);
        assert st'.reqs[j + 1] == s[j];
      }
    } else {
      var i := Find(s, e.handle, e.src, e.kinds);
      if k <= 10 {
        var j :| 0 <= j < |s| && s[j] == t.(timeout := 10 - k);
        assert st'.reqs[j] == s[j];
      } else {
        forall u <- st'.reqs ensures u.id != t.id {
          var j :| 0 <= j < |st'.reqs| && st'.reqs[j] == u;
          assert s[j] in s && s[j].id == u.id;
        }
      }
    }
  }

  /** In every run: a query or accept that no answer comes for is retransmitted at every pass
      but the first, nine times in all, and is gone after the eleventh. */
  lemma {:induction false} Retransmitted<M>(sts: seq<State<M>>, es: seq<Event<M>>, m: nat, n: nat)
    requires IsRun(sts, es) && m < n < |sts| && es[m].Post? && (es[m].t.kind == Query || es[m].t.kind == Accept)
    requires forall i {:trigger es[i]} :: m < i < n ==> !MeantFor(es[i], es[m].t)
    ensures var t, k := es[m].t, Passes(es, m, n);
            && sts[n].resent[t.id] == (if k <= 1 then 0 else if k <= 10 then k - 1 else 9)
            && (k <= 10 ==> t.(timeout := 10 - k) in sts[n].reqs)
            && (k > 10 ==> forall u <- sts[n].reqs :: u.id != t.id)
    decreases n
  {
    Standing(sts, es, m, n);
  }

  lemma StepStands<M>(st: State<M>, e: Event<M>, st': State<M>, t: Tracker<M>, k: nat)
    requires Budget(st) && IsStep(st, e, st') && Stands(st, t, k) && (t.kind == Query || t.kind == Accept) && !MeantFor(e, t)
    ensures Stands(st', t, k + if e.Second? then 1 else 0)
  {
    if e.Second? {
      PassStands(st, t, k);
    } else {
      OtherStands(st, e, t, k);
    }
  }

  lemma RunStep<M>(sts: seq<State<M>>, es: seq<Event<M>>, n: nat)
    requires IsRun(sts, es) && n < |es|
    ensures Budget(sts[n]) && IsStep(sts[n], es[n], sts[n + 1])
  {
    RunBudget(sts, es, n);
  }

  lemma PostStands<M>(st: State<M>, t: Tracker<M>)
    requires Budget(st) && Possible(st, Post(t))
    ensures Stands(Next(st, Post(t)), t, 0)
  {
    assert Next(st, Post(t)).reqs[0] == t && t == t.(timeout := 10);
  }

  lemma {:induction false} Standing<M>(sts: seq<State<M>>, es: seq<Event<M>>, m: nat, n: nat)
    requires IsRun(sts, es) && m < n < |sts| && es[m].Post? && (es[m].t.kind == Query || es[m].t.kind == Accept)
    requires forall i {:trigger es[i]} :: m < i < n ==> !MeantFor(es[i], es[m].t)
    ensures Stands(sts[n], es[m].t, Passes(es, m, n))
    decreases n
  {
    if n == m + 1 {
      RunStep(sts, es, m);
      PostStands(sts[m], es[m].t);
    } else {
      Standing(sts, es, m, n - 1);
      RunStep(sts, es, n - 1);
      StepStands(sts[n - 1], es[n - 1], sts[n], es[m].t, Passes(es, m, n - 1));
    }
  }

  // ----- the list drains

  function Seconds<M>(s: seq<Tracker<M>>, n: nat): seq<Tracker<M>>
    decreases n
  {
    if n == 0 then s else Seconds(Ticked(s), n - 1)
  }

  lemma {:induction false} AllReaped<M>(s: seq<Tracker<M>>)
    requires forall i :: 0 <= i < |s| ==> s[i].timeout == 0
    ensures Ticked(s) == []
    decreases |s|
  {
    if s != [] {
      AllReaped(s[1..]);
      assert s[0].timeout == 0;
    }
  }

  lemma {:induction false} Drains<M>(s: seq<Tracker<M>>, n: nat)
    requires forall i :: 0 <= i < |s| ==> 0 <= s[i].timeout <= n
    ensures Seconds(s, n + 1) == []
    decreases n
  {
    if n == 0 {
      AllReaped(s);
    } else {
      forall i | 0 <= i < |Ticked(s)|
        ensures 0 <= Ticked(s)[i].timeout <= n - 1
      {
        var j := TickOrigin(s, i);
      }
      Drains(Ticked(s), n - 1);
    }
  }

  /** Left alone for eleven seconds, the list of any run is empty. */
  lemma RunDrains<M>(sts: seq<State<M>>, es: seq<Event<M>>, n: nat, k: nat)
    requires IsRun(sts, es) && n < |sts| && k > TIMEOUT
    ensures Seconds(sts[n].reqs, k) == []
  {
    RunBudget(sts, es, n);
    Drains(sts[n].reqs, k - 1);
  }
}
