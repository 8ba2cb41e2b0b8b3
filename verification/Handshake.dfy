/** The order and the number of events in a handshake: a client gets at most one result per
    query, a duplicate accept only causes another acknowledgement, and the accepting side
    considers itself acknowledged only after the connecting client has its answer. */
module Handshake {
  import opened Addr
  import opened Daemon
  import opened Network
  import PT = PortTable
  import TR = Trackers

  // ----- at most one result

  predicate IsResult(e: (Host, Note), a: Host, handle: nat) {
    e.0 == a && e.1.Result? && e.1.handle == handle
  }

  /** How many results the client of `a` got for query `handle`. */
  function Results(log: seq<(Host, Note)>, a: Host, handle: nat): nat {
    if log == [] then 0
    else Results(log[..|log| - 1], a, handle) + if IsResult(log[|log| - 1], a, handle) then 1 else 0
  }

  lemma ResultsSnoc(log: seq<(Host, Note)>, e: (Host, Note), a: Host, handle: nat)
    ensures Results(log + [e], a, handle) == Results(log, a, handle) + if IsResult(e, a, handle) then 1 else 0
  {
    assert (log + [e])[..|log|] == log;
  }

  /** An older tracker with the handle of a query is neither a query nor an acknowledgement:
      the acknowledgement is posted in front of its query. */
  predicate Shadows(t: TR.Tracker<Out>, older: TR.Tracker<Out>) {
    t.kind == TR.Query && older.kind != TR.Accept && t.handle == older.handle
  }

  ghost predicate Once(s: seq<TR.Tracker<Out>>) {
    forall i, j :: 0 <= i < j < |s| ==> !Shadows(s[i], s[j])
  }

  /** A query that is still open has had no result. */
  ghost predicate Quiet(log: seq<(Host, Note)>, h: Host, s: seq<TR.Tracker<Out>>) {
    forall i :: 0 <= i < |s| && s[i].kind == TR.Query && !s[i].complete ==> Results(log, h, s[i].handle) == 0
  }

  ghost predicate Single(w: World) {
    && (forall h :: 0 <= h < |w.nodes| ==> Once(w.nodes[h].reqs) && Quiet(w.log, h, w.nodes[h].reqs))
    && (forall a: Host, handle: nat :: Results(w.log, a, handle) <= 1)
    && (forall a: Host, handle: nat :: (a, handle) !in w.asked ==> Results(w.log, a, handle) == 0)
  }

  lemma OnceCons(t: TR.Tracker<Out>, s: seq<TR.Tracker<Out>>)
    requires Once(s) && forall j :: 0 <= j < |s| ==> !Shadows(t, s[j])
    ensures Once([t] + s)
  {
    forall i, j | 0 <= i < j < |[t] + s|
      ensures !Shadows(([t] + s)[i], ([t] + s)[j])
    {
      assert ([t] + s)[j] == s[j - 1];
    }
  }

  lemma {:induction false} OnceTicked(s: seq<TR.Tracker<Out>>)
    requires Once(s)
    ensures Once(TR.Ticked(s))
    decreases |s|
  {
    if s != [] {
      var tail, rest := s[1..], TR.Ticked(s[1..]);
      OnceTicked(tail);
      if s[0].timeout > 0 {
        var head := s[0].(timeout := s[0].timeout - 1);
        forall j | 0 <= j < |rest|
          ensures !Shadows(head, rest[j])
        {
          var k := TR.TickOrigin(tail, j);
          assert tail[k] == s[k + 1] && !Shadows(s[0], s[k + 1]);
        }
        assert TR.Ticked(s) == [head] + rest;
        OnceCons(head, rest);
      } else {
        assert TR.Ticked(s) == rest;
      }
    }
  }

  lemma QuietTicked(log: seq<(Host, Note)>, h: Host, s: seq<TR.Tracker<Out>>)
    requires Quiet(log, h, s)
    ensures Quiet(log, h, TR.Ticked(s))
  {
    forall i | 0 <= i < |TR.Ticked(s)| && TR.Ticked(s)[i].kind == TR.Query && !TR.Ticked(s)[i].complete
      ensures Results(log, h, TR.Ticked(s)[i].handle) == 0
    {
      var j := TR.TickOrigin(s, i);
    }
  }

  /** What a step does to the trackers of its host, as far as results go: it gives no result,
      or one for a query that was open and no longer is. */
  ghost predicate Settles(w: World, h: Host, eff: Effect) {
    && Once(eff.node.reqs)
    && (forall i :: 0 <= i < |eff.node.reqs| && eff.node.reqs[i].kind == TR.Query && !eff.node.reqs[i].complete ==>
          Results(w.log, h, eff.node.reqs[i].handle) == 0)
    && |eff.notes| <= 1
    && (eff.notes != [] && eff.notes[0].Result? ==>
          var handle := eff.notes[0].handle;
          && (h, handle) in w.asked
          && Results(w.log, h, handle) == 0
          && forall i :: 0 <= i < |eff.node.reqs| && eff.node.reqs[i].kind == TR.Query && eff.node.reqs[i].handle == handle ==>
               eff.node.reqs[i].complete)
  }

  lemma SettlesKeepsSingle(w: World, s: Step)
    requires Single(w) && Possible(w, s) && Settles(w, StepHost(s), StepEffect(w, s))
    ensures Single(Next(w, s))
  {
    var h, w', eff := StepHost(s), Next(w, s), StepEffect(w, s);
    if eff.notes == [] {
      assert w'.log == w.log;
    } else {
      var e := (h, eff.notes[0]);
      assert w'.log == w.log + [e];
      forall a: Host, handle: nat
        ensures Results(w'.log, a, handle) == Results(w.log, a, handle) + if IsResult(e, a, handle) then 1 else 0
      {
        ResultsSnoc(w.log, e, a, handle);
      }
    }
    forall g | 0 <= g < |w'.nodes|
      ensures Once(w'.nodes[g].reqs) && Quiet(w'.log, g, w'.nodes[g].reqs)
    {
      if g != h { assert Quiet(w.log, g, w.nodes[g].reqs); }
    }
  }

  /** A handle has one query tracker. */
  lemma OneQuery(s: seq<TR.Tracker<Out>>, i: nat, k: nat)
    requires Once(s) && i < |s| && k < |s| && s[i].kind == TR.Query && s[k].kind == TR.Query
    requires s[i].handle == s[k].handle
    ensures i == k
  {}

  lemma UpdatedSettles(log: seq<(Host, Note)>, h: Host, s: seq<TR.Tracker<Out>>, k: nat)
    requires Once(s) && Quiet(log, h, s) && k <= |s|
    ensures Once(TR.Updated(s, k)) && Quiet(log, h, TR.Updated(s, k))
    ensures k < |s| && s[k].kind == TR.Query ==>
              forall i :: 0 <= i < |s| && s[i].kind == TR.Query && s[i].handle == s[k].handle ==> TR.Updated(s, k)[i].complete
  {
    if k < |s| && s[k].kind == TR.Query {
      forall i | 0 <= i < |s| && s[i].kind == TR.Query && s[i].handle == s[k].handle
        ensures TR.Updated(s, k)[i].complete
      {
        OneQuery(s, i, k);
      }
    }
  }

  lemma ConcludeSettles(log: seq<(Host, Note)>, h: Host, s: seq<TR.Tracker<Out>>, e: PT.Mapping,
                        m: Msg, from: Host, luck: Luck)
    requires Once(s) && Quiet(log, h, s)
    ensures var r := ConcludeQuery(s, e, m, from, luck);
            && Once(r.reqs) && Quiet(log, h, r.reqs)
            && (r.notes != [] ==>
                  var k := TR.Find(s, m.handle, e.local, {TR.Query, TR.Ack});
                  && k < |s| && s[k].kind == TR.Query && !s[k].complete && r.notes[0].handle == s[k].handle
                  && forall i :: 0 <= i < |r.reqs| && r.reqs[i].kind == TR.Query && r.reqs[i].handle == s[k].handle ==>
                       r.reqs[i].complete)
  {
    UpdatedSettles(log, h, s, TR.Find(s, m.handle, e.local, {TR.Query, TR.Ack}));
  }

  lemma AcceptSettles(w: World, s: Step)
    requires Inv(w) && Single(w) && Possible(w, s) && s.Deliver? && s.p.msg.mt == Acc
    ensures Settles(w, s.p.dst, StepEffect(w, s))
  {
    var h, d, m := s.p.dst, w.nodes[s.p.dst], s.p.msg;
    assert Once(d.reqs) && Quiet(w.log, h, d.reqs);
    var i := PT.Find(d.ports.entries, FromPeer(m.fam, m.cp), true, true);
    if i < |d.ports.entries| {
      ConcludeSettles(w.log, h, d.reqs, d.ports.entries[i], m, s.p.src, s.luck);
      var k := TR.Find(d.reqs, m.handle, d.ports.entries[i].local, {TR.Query, TR.Ack});
      if k < |d.reqs| { assert TrackerOk(w, h, d.reqs[k]); }
    }
  }

  lemma RejectSettles(w: World, s: Step)
    requires Inv(w) && Single(w) && Possible(w, s) && s.Deliver? && s.p.msg.mt == Rej
    ensures Settles(w, s.p.dst, StepEffect(w, s))
  {
    var h, d, m := s.p.dst, w.nodes[s.p.dst], s.p.msg;
    assert Once(d.reqs) && Quiet(w.log, h, d.reqs);
    var i := PT.Find(d.ports.entries, FromPeer(m.fam, m.cp), true, true);
    if i < |d.ports.entries| {
      var k := TR.Find(d.reqs, m.handle, d.ports.entries[i].local, {TR.Query});
      UpdatedSettles(w.log, h, d.reqs, k);
      if k < |d.reqs| { assert TrackerOk(w, h, d.reqs[k]); }
    }
  }

  lemma AskSettles(w: World, s: Step)
    requires Inv(w) && Single(w) && Possible(w, s) && s.Ask?
    ensures Settles(w, s.h, StepEffect(w, s))
  {
    var d, eff := w.nodes[s.h], StepEffect(w, s);
    assert Once(d.reqs) && Quiet(w.log, s.h, d.reqs);
    if |eff.node.reqs| > |d.reqs| {
      forall j | 0 <= j < |d.reqs| ensures !Shadows(eff.node.reqs[0], d.reqs[j]) {
        assert TrackerOk(w, s.h, d.reqs[j]);
      }
      OnceCons(eff.node.reqs[0], d.reqs);
      forall j | 0 < j < |eff.node.reqs| ensures eff.node.reqs[j] == d.reqs[j - 1] {}
    }
  }

  lemma RequestSettles(w: World, s: Step)
    requires Single(w) && Possible(w, s) && s.Deliver? && s.p.msg.mt == Req
    ensures Settles(w, s.p.dst, StepEffect(w, s))
  {
    assert Once(w.nodes[s.p.dst].reqs) && Quiet(w.log, s.p.dst, w.nodes[s.p.dst].reqs);
  }

  lemma FinishSettles(w: World, h: Host)
    requires Inv(w) && Single(w) && Possible(w, Finish(h))
    ensures Settles(w, h, OnFinish(w.nodes[h]))
  {
    var d, r := w.nodes[h], w.nodes[h].rest.value;
    assert Once(d.reqs) && Quiet(w.log, h, d.reqs) && RestOk(w, h, r);
    OnceCons(r.t, d.reqs);
    forall j | 0 < j < |[r.t] + d.reqs| ensures ([r.t] + d.reqs)[j] == d.reqs[j - 1] {}
  }

  lemma InitSingle(w: World)
    requires Init(w)
    ensures Single(w)
  {}

  lemma NextKeepsSingle(w: World, s: Step, w': World)
    requires Inv(w) && Single(w) && IsStep(w, s, w')
    ensures Single(w')
  {
    var h := StepHost(s);
    var d := w.nodes[h];
    assert Once(d.reqs) && Quiet(w.log, h, d.reqs);
    match s {
      case Manage(_, _) =>
      case Ask(_, _, _, _, _, _, _) => AskSettles(w, s);
      case Deliver(p, luck) =>
        match p.msg.mt {
          case Req => RequestSettles(w, s);
          case Acc => AcceptSettles(w, s);
          case Ackn =>
            UpdatedSettles(w.log, h, d.reqs, TR.Find(d.reqs, p.msg.handle, FromPeer(p.msg.fam, p.msg.ap), {TR.Accept}));
          case Rej => RejectSettles(w, s);
        }
      case Finish(_) => FinishSettles(w, h);
      case Second(_) =>
        OnceTicked(d.reqs);
        QuietTicked(w.log, h, d.reqs);
    }
    SettlesKeepsSingle(w, s);
  }

  lemma {:induction false} RunSingle(run: seq<World>, steps: seq<Step>, n: nat)
    requires IsRun(run, steps) && n < |run|
    ensures Single(run[n])
  {
    if n == 0 {
      InitSingle(run[n]);
    } else {
      RunSingle(run, steps, n - 1);
      RunInv(run, steps, n - 1);
      NextKeepsSingle(run[n - 1], steps[n - 1], run[n]);
    }
  }

  /** Whatever the network duplicates or reorders and whenever the timers run, a client gets
      at most one result, success or reject, for each query. */
  lemma AtMostOnce(run: seq<World>, steps: seq<Step>, n: nat, a: Host, handle: nat)
    requires IsRun(run, steps) && n < |run|
    ensures Results(run[n].log, a, handle) <= 1
  {
    RunSingle(run, steps, n);
  }

  /** While the acknowledgement tracker of a query lives, another accept for it does nothing
      but renew that tracker and send the acknowledgement again. */
  lemma DuplicateAccept(run: seq<World>, steps: seq<Step>, n: nat, s: Step, k: nat)
    requires IsRun(run, steps) && n < |run|
    requires Possible(run[n], s) && s.Deliver? && s.p.msg.mt == Acc
    requires var d := run[n].nodes[s.p.dst];
             && k < |d.reqs| && d.reqs[k].kind == TR.Ack && d.reqs[k].handle == s.p.msg.handle && !d.reqs[k].complete
             && Same(FromPeer(s.p.msg.fam, s.p.msg.cp), d.reqs[k].src)
             && (forall j :: 0 <= j < k ==> !(d.reqs[j].kind == TR.Ack && d.reqs[j].handle == s.p.msg.handle))
    ensures var d, m := run[n].nodes[s.p.dst], s.p.msg;
            var listed := PT.Find(d.ports.entries, FromPeer(m.fam, m.cp), true, true) < |d.ports.entries|;
            StepEffect(run[n], s) ==
              if listed then Effect(d.(reqs := d.reqs[k := d.reqs[k].(timeout := TR.TIMEOUT)]),
                                    Queued(s.luck.queue, s.p.src, m.(mt := Ackn)), [])
              else Effect(d, [], [])
  {
    RunSingle(run, steps, n);
    var d, m := run[n].nodes[s.p.dst], s.p.msg;
    assert Once(d.reqs);
    var i := PT.Find(d.ports.entries, FromPeer(m.fam, m.cp), true, true);
    if i < |d.ports.entries| {
      var e := d.ports.entries[i];
      SameEquivalence(e.local, FromPeer(m.fam, m.cp), d.reqs[k].src);
      assert TR.Hits(d.reqs[k], m.handle, e.local, {TR.Query, TR.Ack});
      forall j | 0 <= j < k ensures !TR.Hits(d.reqs[j], m.handle, e.local, {TR.Query, TR.Ack}) {
        assert !Shadows(d.reqs[j], d.reqs[k]);
      }
      TR.FindIs(d.reqs, m.handle, e.local, {TR.Query, TR.Ack}, k);
    }
  }

  // ----- acknowledged only after the client was told

  /** A client has been told of the success of a query with this handle to host `p`. */
  ghost predicate Told(w: World, p: Host, handle: nat) {
    exists a: Host :: Succeeded(w, a, handle) && w.asked[(a, handle)].peer == p
  }

  ghost predicate Ordered(w: World, h: Host, s: seq<TR.Tracker<Out>>) {
    forall i :: 0 <= i < |s| && s[i].kind == TR.Accept && s[i].complete ==> Told(w, h, s[i].handle)
  }

  ghost predicate AllOrdered(w: World) {
    forall h :: 0 <= h < |w.nodes| ==> Ordered(w, h, w.nodes[h].reqs)
  }

  lemma OrderedStable(w: World, w': World, h: Host, s: seq<TR.Tracker<Out>>)
    requires Extends(w, w') && Ordered(w, h, s)
    ensures Ordered(w', h, s)
  {
    forall i | 0 <= i < |s| && s[i].kind == TR.Accept && s[i].complete ensures Told(w', h, s[i].handle) {
      var a: Host :| Succeeded(w, a, s[i].handle) && w.asked[(a, s[i].handle)].peer == h;
      SucceededStable(w, w', a, s[i].handle);
    }
  }

  lemma OrderedTicked(w: World, h: Host, s: seq<TR.Tracker<Out>>)
    requires Ordered(w, h, s)
    ensures Ordered(w, h, TR.Ticked(s))
  {
    forall i | 0 <= i < |TR.Ticked(s)| && TR.Ticked(s)[i].kind == TR.Accept && TR.Ticked(s)[i].complete
      ensures Told(w, h, TR.Ticked(s)[i].handle)
    {
      var j := TR.TickOrigin(s, i);
    }
  }

  /** Completing a tracker that is no accept tracker changes nothing here. */
  lemma OrderedUpdated(w: World, h: Host, s: seq<TR.Tracker<Out>>, k: nat)
    requires Ordered(w, h, s) && k <= |s| && (k < |s| && s[k].kind == TR.Accept ==> Told(w, h, s[k].handle))
    ensures Ordered(w, h, TR.Updated(s, k))
  {}

  /** An acknowledgement comes from a host whose client has its answer. */
  lemma AckOrdered(w: World, p: Packet)
    requires Inv(w) && p in w.net && p.dst < |w.nodes| && p.msg.mt == Ackn && Ordered(w, p.dst, w.nodes[p.dst].reqs)
    ensures Ordered(w, p.dst, OnAck(w.nodes[p.dst], p.msg).node.reqs)
  {
    var s := w.nodes[p.dst].reqs;
    assert PacketOk(w, p) && Told(w, p.dst, p.msg.handle);
    OrderedUpdated(w, p.dst, s, TR.Find(s, p.msg.handle, FromPeer(p.msg.fam, p.msg.ap), {TR.Accept}));
  }

  lemma DeliverOrdered(w: World, s: Step)
    requires Possible(w, s) && s.Deliver? && s.p.msg.mt != Ackn && Ordered(w, s.p.dst, w.nodes[s.p.dst].reqs)
    ensures Ordered(w, s.p.dst, StepEffect(w, s).node.reqs)
  {
    var d, m := w.nodes[s.p.dst], s.p.msg;
    if m.mt != Req {
      var i := PT.Find(d.ports.entries, FromPeer(m.fam, m.cp), true, true);
      if i < |d.ports.entries| {
        var k := TR.Find(d.reqs, m.handle, d.ports.entries[i].local, if m.mt == Acc then {TR.Query, TR.Ack} else {TR.Query});
        OrderedUpdated(w, s.p.dst, d.reqs, k);
      }
    }
  }

  lemma PostedOrdered(w: World, h: Host, t: TR.Tracker<Out>, s: seq<TR.Tracker<Out>>)
    requires Ordered(w, h, s) && !t.complete
    ensures Ordered(w, h, [t] + s)
  {
    forall j | 0 < j < |[t] + s| ensures ([t] + s)[j] == s[j - 1] {}
  }

  lemma StepOrdered(w: World, s: Step)
    requires Inv(w) && Possible(w, s) && Ordered(w, StepHost(s), w.nodes[StepHost(s)].reqs)
    ensures Ordered(w, StepHost(s), StepEffect(w, s).node.reqs)
  {
    var h := StepHost(s);
    var d, eff := w.nodes[h], StepEffect(w, s);
    match s {
      case Manage(_, _) =>
      case Ask(_, _, _, _, _, _, _) =>
        if eff.node.reqs != d.reqs { PostedOrdered(w, h, eff.node.reqs[0], d.reqs); }
      case Deliver(p, luck) =>
        if p.msg.mt == Ackn { AckOrdered(w, p); } else { DeliverOrdered(w, s); }
      case Finish(_) =>
        assert RestOk(w, h, d.rest.value);
        PostedOrdered(w, h, d.rest.value.t, d.reqs);
      case Second(_) => OrderedTicked(w, h, d.reqs);
    }
  }

  lemma NextKeepsOrdered(w: World, s: Step, w': World)
    requires Inv(w) && AllOrdered(w) && IsStep(w, s, w')
    ensures AllOrdered(w')
  {
    NextExtends(w, s);
    StepOrdered(w, s);
    forall g | 0 <= g < |w'.nodes| ensures Ordered(w', g, w'.nodes[g].reqs) {
      OrderedStable(w, w', g, w'.nodes[g].reqs);
    }
  }

  lemma {:induction false} RunOrdered(run: seq<World>, steps: seq<Step>, n: nat)
    requires IsRun(run, steps) && n < |run|
    ensures AllOrdered(run[n])
  {
    if n > 0 {
      RunOrdered(run, steps, n - 1);
      RunInv(run, steps, n - 1);
      NextKeepsOrdered(run[n - 1], steps[n - 1], run[n]);
    }
  }

  /** Whenever the accepting side has a completed tracker, the client of a host that asked it,
      with the association handle of the tracker, has already been told of the success. */
  lemma HandshakeOrder(run: seq<World>, steps: seq<Step>, n: nat, p: Host, i: nat)
    requires IsRun(run, steps) && n < |run| && p < |run[n].nodes| && i < |run[n].nodes[p].reqs|
    requires run[n].nodes[p].reqs[i].kind == TR.Accept && run[n].nodes[p].reqs[i].complete
    ensures var t := run[n].nodes[p].reqs[i];
            exists a: Host :: Succeeded(run[n], a, t.handle) && run[n].asked[(a, t.handle)].peer == p
  {
    RunOrdered(run, steps, n);
    assert Ordered(run[n], p, run[n].nodes[p].reqs);
  }

  /** No two hosts ask host `p` with the same association handle. */
  ghost predicate UniqueHandles(w: World, p: Host) {
    forall a: Host, b: Host, handle: nat ::
      (a, handle) in w.asked && w.asked[(a, handle)].peer == p && (b, handle) in w.asked && w.asked[(b, handle)].peer == p ==> a == b
  }

  /** The completed accept trackers of host `p` are those of peers whose clients were told. */
  ghost predicate PeerOrdered(w: World, p: Host)
    requires p < |w.nodes|
  {
    forall i :: 0 <= i < |w.nodes[p].reqs| && w.nodes[p].reqs[i].kind == TR.Accept && w.nodes[p].reqs[i].complete ==>
      var t := w.nodes[p].reqs[i];
      t.msg.Some? && Succeeded(w, t.msg.value.dst, t.handle)
  }

  /** If no two hosts ask a daemon with the same handle, it is the client of the very peer that
      the tracker's accept goes to. */
  lemma HandshakeOrderPeer(run: seq<World>, steps: seq<Step>, n: nat, p: Host)
    requires IsRun(run, steps) && n < |run| && p < |run[n].nodes| && UniqueHandles(run[n], p)
    ensures PeerOrdered(run[n], p)
  {
    var w := run[n];
    RunInv(run, steps, n);
    forall i | 0 <= i < |w.nodes[p].reqs| && w.nodes[p].reqs[i].kind == TR.Accept && w.nodes[p].reqs[i].complete
      ensures var t := w.nodes[p].reqs[i]; t.msg.Some? && Succeeded(w, t.msg.value.dst, t.handle)
    {
      HandshakeOrder(run, steps, n, p, i);
      OwnPeer(w, p, w.nodes[p].reqs[i]);
    }
  }

  lemma OwnPeer(w: World, p: Host, t: TR.Tracker<Out>)
    requires TrackerOk(w, p, t) && t.kind == TR.Accept && Told(w, p, t.handle) && UniqueHandles(w, p)
    ensures t.msg.Some? && Succeeded(w, t.msg.value.dst, t.handle)
  {
    var a: Host :| Succeeded(w, a, t.handle) && w.asked[(a, t.handle)].peer == p;
    assert (t.msg.value.dst, t.handle) in w.asked;
  }
}
