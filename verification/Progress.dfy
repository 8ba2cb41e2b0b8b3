/** What every message and every pass of the timer gets done: the other half of the
    guarantees, which by themselves a daemon that does nothing would meet.

    Each statement is about any reachable world, or about any state of a daemon, and says by
    what is listed there what the step does. */
module Progress {
  import opened Addr
  import opened Options
  import opened Daemon
  import opened Network
  import opened Handshake
  import PT = PortTable
  import TR = Trackers

  // ----- the timer

  lemma {:induction false} MessageOf(s: seq<TR.Tracker<Out>>, o: Out)
    ensures o in Messages(s) <==> exists t <- s :: t.msg == Some(o)
    decreases |s|
  {
    if s != [] {
      var rest := s[1..];
      MessageOf(rest, o);
      assert forall t :: t in s <==> t == s[0] || t in rest;
      assert Messages(s) == (if s[0].msg.Some? then [s[0].msg.value] else []) + Messages(rest);
    }
  }

  /** A pass of the timer sends exactly the messages of the queries and accepts that have
      waited a second and have time left, and tells no client anything. */
  lemma PassSends(d: Node, o: Out)
    ensures o in OnTick(d).sent <==>
              exists t <- d.reqs :: t.msg == Some(o) && (t.kind == TR.Query || t.kind == TR.Accept) && 1 <= t.timeout <= 9
    ensures OnTick(d).notes == [] && OnTick(d).node.ports == d.ports && OnTick(d).node.rest == d.rest
  {
    MessageOf(TR.Resends(d.reqs), o);
    if o in OnTick(d).sent {
      var t :| t in TR.Resends(d.reqs) && t.msg == Some(o);
      TR.PassSends(d.reqs, t);
    }
    if t :| t in d.reqs && t.msg == Some(o) && (t.kind == TR.Query || t.kind == TR.Accept) && 1 <= t.timeout <= 9 {
      TR.PassSends(d.reqs, t);
    }
  }

  // ----- queries

  /** A query whose address has a mapping, or can get one, is tracked and sent to the peer. */
  lemma QuerySends(run: seq<World>, steps: seq<Step>, n: nat, s: Step)
    requires IsRun(run, steps) && n < |run| && s.Ask? && Possible(run[n], s)
    requires s.remote.family != Unsupported && s.luck.buffer && s.luck.tracker
    requires var t := run[n].nodes[s.h].ports;
             (exists e <- t.entries :: PT.CanServe(e, s.addr)) || (s.made.Some? && !Wildcard(s.addr) && !PT.Taken(t, s.addr))
    ensures var d, w' := run[n].nodes[s.h], Next(run[n], s);
            && (s.h, s.luck.id) in w'.asked
            && w'.asked[(s.h, s.luck.id)].remote == s.remote && w'.asked[(s.h, s.luck.id)].peer == s.peer
            && exists t :: w'.nodes[s.h].reqs == [t] + d.reqs && t.kind == TR.Query && t.handle == s.luck.id && t.remote == s.remote
                 && t.timeout == 10 && !t.complete && t.msg.Some? && t.msg.value.dst == s.peer
                 && GoodReq(w', s.h, s.peer, t.msg.value.msg) && t.msg.value.msg.mt == Req && t.msg.value.msg.handle == s.luck.id
                 && (s.luck.queue ==> Packet(s.h, s.peer, t.msg.value.msg) in w'.net)
  {
    var w, w', d, eff := run[n], Next(run[n], s), run[n].nodes[s.h], StepEffect(run[n], s);
    RunInv(run, steps, n);
    PT.QueryIff(d.ports, s.addr, s.client, s.made, true);
    assert |eff.node.reqs| > |d.reqs|;
    AskOk(w, s);
    var t := eff.node.reqs[0];
    assert eff.node.reqs == [t] + d.reqs && TrackerOk(w', s.h, t);
    assert t.msg.value.msg.mt == Req;
    if s.luck.queue { assert eff.sent[0] == t.msg.value && Packet(s.h, s.peer, t.msg.value.msg) in Packets(s.h, eff.sent); }
  }

  // ----- requests

  lemma FindsMatch(d: Node, a: SockAddr)
    ensures PT.Find(d.ports.entries, a, true, false) < |d.ports.entries| <==> !NoMatch(d, a)
  {
    var i := PT.Find(d.ports.entries, a, true, false);
    if i < |d.ports.entries| { assert d.ports.entries[i] in d.ports.entries && MatchesLocal(d.ports.entries[i].local, a); }
    if e :| e in d.ports.entries && MatchesLocal(e.local, a) {
      var j :| 0 <= j < |d.ports.entries| && d.ports.entries[j] == e;
      assert PT.Found(d.ports.entries[j], a, true, false);
    }
  }

  /** A request about an address that no listed mapping matches is rejected, and that is all. */
  lemma RequestRefused(d: Node, m: Msg, from: Host, luck: Luck)
    requires NoMatch(d, FromPeer(m.fam, m.ap))
    ensures OnRequest(d, m, from, luck) == Effect(d, if luck.queue then [Out(from, m.(mt := Rej))] else [], [])
  {
    FindsMatch(d, FromPeer(m.fam, m.ap));
  }

  /** An accept of this handle and mapped address is being tracked. */
  ghost predicate Accepting(s: seq<TR.Tracker<Out>>, handle: nat, mapped: SockAddr) {
    exists t <- s :: t.kind == TR.Accept && t.handle == handle && Same(mapped, t.src)
  }

  lemma AcceptTracked(s: seq<TR.Tracker<Out>>, handle: nat, mapped: SockAddr)
    ensures TR.Find(s, handle, mapped, {TR.Accept}) < |s| <==> Accepting(s, handle, mapped)
  {
    var i := TR.Find(s, handle, mapped, {TR.Accept});
    if i < |s| { assert s[i] in s; }
    if t :| t in s && t.kind == TR.Accept && t.handle == handle && Same(mapped, t.src) {
      var j :| 0 <= j < |s| && s[j] == t;
      assert TR.Hits(s[j], handle, mapped, {TR.Accept});
    }
  }

  /** Any other request finds a mapping that matches. It does nothing if an accept of it is
      tracked already; else it is accepted: a tracker for ten seconds, the accept with the
      mapping's address to the one who asks, and a notice of both sides to the client. */
  lemma RequestAccepted(d: Node, m: Msg, from: Host, luck: Luck) returns (e: PT.Mapping)
    requires !NoMatch(d, FromPeer(m.fam, m.ap)) && m.fam != Unsupported && m.handle > 0 && d.rest == None
    ensures e in d.ports.entries && MatchesLocal(e.local, FromPeer(m.fam, m.ap))
    ensures var eff, given := OnRequest(d, m, from, luck), GivenAddr(e.local, e.mapped, FromPeer(m.fam, m.ap));
            && eff.sent == [] && eff.notes == [] && eff.node == d.(rest := eff.node.rest)
            && (eff.node.rest.Some? <==> luck.buffer && luck.tracker && !Accepting(d.reqs, m.handle, given))
            && (eff.node.rest.Some? ==>
                  var r, acc := eff.node.rest.value, Msg(Acc, m.fam, m.handle, ToPeer(m.fam, given), m.cp, m.mcp);
                  && r.t == TR.Tracker(luck.id, given, FromPeer(m.fam, m.cp), m.handle, TR.Accept, Some(Out(from, acc)), 10, false)
                  && r.sent == (if luck.queue then [Out(from, acc)] else [])
                  && r.notes == if luck.queue && luck.netlink then [RemoteInfo(e.local, FromPeer(m.fam, m.cp), e.mapped, FromPeer(m.fam, m.mcp))] else [])
  {
    var a := FromPeer(m.fam, m.ap);
    FindsMatch(d, a);
    var i := PT.Find(d.ports.entries, a, true, false);
    e := d.ports.entries[i];
    AcceptTracked(d.reqs, m.handle, GivenAddr(e.local, e.mapped, a));
    assert FromPeer(m.fam, Given(e, m.fam, m.ap)) == GivenAddr(e.local, e.mapped, a);
  }

  // ----- results

  lemma {:induction false} SuccessCounts(log: seq<(Host, Note)>, a: Host, handle: nat, i: nat)
    requires i < |log| && IsSuccess(log[i], a, handle)
    ensures Results(log, a, handle) > 0
  {
    if i < |log| - 1 { SuccessCounts(log[..|log| - 1], a, handle, i); }
  }

  /** The open query of a handle is the first tracker that an accept or reject for it finds:
      no acknowledgement is tracked while the query is open. */
  lemma OpenFirst(w: World, h: Host, k: nat, local: SockAddr, kinds: set<TR.Kind>)
    requires Inv(w) && Single(w) && h < |w.nodes| && k < |w.nodes[h].reqs|
    requires var t := w.nodes[h].reqs[k]; t.kind == TR.Query && !t.complete && Same(local, t.src)
    requires TR.Query in kinds && TR.Accept !in kinds
    ensures TR.Find(w.nodes[h].reqs, w.nodes[h].reqs[k].handle, local, kinds) == k
  {
    var s, handle := w.nodes[h].reqs, w.nodes[h].reqs[k].handle;
    assert Once(s) && Quiet(w.log, h, s);
    forall j | 0 <= j < k ensures !TR.Hits(s[j], handle, local, kinds) {
      if s[j].kind == TR.Query {
        assert !Shadows(s[j], s[k]);
      } else if s[j].kind == TR.Ack && s[j].handle == handle {
        assert TrackerOk(w, h, s[j]);
        var i :| 0 <= i < |w.log| && IsSuccess(w.log[i], h, handle);
        SuccessCounts(w.log, h, handle, i);
      }
    }
    TR.FindIs(s, handle, local, kinds, k);
  }

  /** The query `k` of host `h` was made from an address of the family of the address asked
      about, and the host still lists the mapping that serves it. */
  ghost predicate Answerable(w: World, h: Host, k: nat, e: PT.Mapping)
    requires h < |w.nodes| && k < |w.nodes[h].reqs|
  {
    var t := w.nodes[h].reqs[k];
    && t.kind == TR.Query && !t.complete && (h, t.handle) in w.asked
    && w.asked[(h, t.handle)].from.family == w.asked[(h, t.handle)].remote.family && !Wildcard(w.asked[(h, t.handle)].from)
    && e in w.nodes[h].ports.entries && Same(e.local, t.src)
  }

  /** The handler of an accept or reject for an open query finds its mapping and its tracker. */
  lemma AnswerFinds(w: World, p: Packet, k: nat, e: PT.Mapping, kinds: set<TR.Kind>)
    requires Inv(w) && Single(w) && p in w.net && (p.msg.mt == Acc || p.msg.mt == Rej) && p.dst < |w.nodes| && k < |w.nodes[p.dst].reqs|
    requires Answerable(w, p.dst, k, e) && w.nodes[p.dst].reqs[k].handle == p.msg.handle
    requires TR.Query in kinds && TR.Accept !in kinds
    ensures var d := w.nodes[p.dst];
            var i := PT.Find(d.ports.entries, FromPeer(p.msg.fam, p.msg.cp), true, true);
            && i < |d.ports.entries| && d.ports.entries[i] == e
            && TR.Find(d.reqs, p.msg.handle, e.local, kinds) == k
  {
    var d, t, local := w.nodes[p.dst], w.nodes[p.dst].reqs[k], FromPeer(p.msg.fam, p.msg.cp);
    assert PacketOk(w, p) && TrackerOk(w, p.dst, t);
    var from := w.asked[(p.dst, t.handle)].from;
    PeerRoundTrip(from);
    SameEquivalence(local, from, t.src);
    SameEquivalence(t.src, from, local);
    SameEquivalence(e.local, t.src, local);
    PT.FindsListed(d.ports, local, e, true);
    OpenFirst(w, p.dst, k, e.local, kinds);
  }

  /** In every run: an accept or reject that comes while its query is open, and its mapping
      listed, closes the query and, if the client can be reached, gives it the result: success
      with what the accept says, or a reject. */
  lemma ResultTold(run: seq<World>, steps: seq<Step>, n: nat, s: Step, k: nat, e: PT.Mapping)
    requires IsRun(run, steps) && n < |run| && Possible(run[n], s) && s.Deliver? && (s.p.msg.mt == Acc || s.p.msg.mt == Rej)
    requires k < |run[n].nodes[s.p.dst].reqs| && Answerable(run[n], s.p.dst, k, e)
    requires run[n].nodes[s.p.dst].reqs[k].handle == s.p.msg.handle
    ensures var h, m, t, w' := s.p.dst, s.p.msg, run[n].nodes[s.p.dst].reqs[k], Next(run[n], s);
            && w'.nodes[h].reqs == run[n].nodes[h].reqs[k := t.(timeout := 0, complete := true)]
            && w'.log == run[n].log +
                 if !s.luck.netlink then []
                 else if m.mt == Rej then [(h, Result(t.handle, true, e.local, t.remote, e.mapped, t.remote))]
                 else [(h, Result(t.handle, false, e.local, t.remote, e.mapped, FromPeer(m.fam, m.ap)))]
  {
    var w := run[n];
    RunInv(run, steps, n);
    RunSingle(run, steps, n);
    AnswerFinds(w, s.p, k, e, if s.p.msg.mt == Acc then {TR.Query, TR.Ack} else {TR.Query});
    TagOne(s.p.dst, StepEffect(w, s).notes);
  }

  lemma TagOne(h: Host, notes: seq<Note>)
    requires |notes| <= 1
    ensures Tagged(h, notes) == if notes == [] then [] else [(h, notes[0])]
  {}

  // ----- acknowledgements

  /** An acknowledgement closes the first accept tracker of its handle and mapped address if
      some mapping on that port lists that address, is a wildcard, or the address is one; it
      does nothing else. */
  lemma AckCloses(d: Node, m: Msg, j: nat, e: PT.Mapping)
    requires var a := FromPeer(m.fam, m.ap);
             && e in d.ports.entries && Port(e.mapped) == Port(a) && (Same(a, e.mapped) || Wildcard(e.local) || Wildcard(a))
             && j < |d.reqs| && d.reqs[j].kind == TR.Accept && d.reqs[j].handle == m.handle && Same(a, d.reqs[j].src) && !d.reqs[j].complete
             && forall i :: 0 <= i < j ==> !(d.reqs[i].kind == TR.Accept && d.reqs[i].handle == m.handle && Same(a, d.reqs[i].src))
    ensures OnAck(d, m) == Effect(d.(reqs := d.reqs[j := d.reqs[j].(timeout := 0, complete := true)]), [], [])
  {
    var a := FromPeer(m.fam, m.ap);
    var i :| 0 <= i < |d.ports.entries| && d.ports.entries[i] == e;
    assert PT.Found(d.ports.entries[i], a, false, false);
    TR.FindIs(d.reqs, m.handle, a, {TR.Accept}, j);
  }

  /** Without such a mapping, or without such a tracker, it does nothing. */
  lemma AckIgnored(d: Node, m: Msg)
    requires var a := FromPeer(m.fam, m.ap);
             || (forall e <- d.ports.entries :: !(Port(e.mapped) == Port(a) && (Same(a, e.mapped) || Wildcard(e.local) || Wildcard(a))))
             || !Accepting(d.reqs, m.handle, a)
    ensures OnAck(d, m) == Effect(d, [], [])
  {
    var a := FromPeer(m.fam, m.ap);
    AcceptTracked(d.reqs, m.handle, a);
    var i := PT.Find(d.ports.entries, a, false, false);
    assert i < |d.ports.entries| ==> d.ports.entries[i] in d.ports.entries && PT.Found(d.ports.entries[i], a, false, false);
  }
}
