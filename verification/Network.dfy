/** Any number of port mapper daemons over a network that loses, duplicates and reorders.

    A daemon works on one message or request at a time, but its timer may make a pass
    whenever the handler does not hold the tracker list: `Deliver` takes a handler to the point
    where it has yet to post a tracker, `Finish` takes it to its end, and `Second` may come
    between. A packet, once sent, stays in the network and may be delivered any number of times, or
    never. The world also remembers, for the statements only, which queries were asked, which
    mappings were listed since by whom they ask, and what the clients were told. */
module Network {
  import opened Addr
  import opened Options
  import opened Daemon
  import PT = PortTable
  import TR = Trackers

  datatype Packet = Packet(src: Host, dst: Host, msg: Msg)

  /** A query: the remote address and the daemon that was asked about it, the address it was
      made from, and what its host lists once it is made. */
  datatype Question = Question(remote: SockAddr, peer: Host, from: SockAddr, listed: seq<PT.Mapping>)

  /** `asked` gives every query, by the host that asked it and the association handle it
      used; `since` has, for every query, each mapping that the daemon it asks has listed at
      some time since the query was made. */
  datatype World = World(nodes: seq<Node>, net: set<Packet>, log: seq<(Host, Note)>,
                         asked: map<(Host, nat), Question>, since: set<((Host, nat), SockAddr, SockAddr)>)

  datatype Step =
    | Manage(h: Host, op: PT.Op)
    | Ask(h: Host, addr: SockAddr, client: int, remote: SockAddr, peer: Host, made: Option<SockAddr>, luck: Luck)
    | Deliver(p: Packet, luck: Luck)
    | Finish(h: Host)
    | Second(h: Host)

  function StepHost(s: Step): Host {
    if s.Deliver? then s.p.dst else s.h
  }

  /** A query gets a handle that its host has not used before; zero is not a handle. A mapped
      address is of the family of the address it is for (`PT.MadeFits`). Only the timer runs
      while a handler is under way. */
  predicate Possible(w: World, s: Step) {
    && StepHost(s) < |w.nodes|
    && (s.Manage? || s.Ask? || s.Deliver? ==> w.nodes[StepHost(s)].rest.None?)
    && (s.Finish? ==> w.nodes[StepHost(s)].rest.Some?)
    && (s.Manage? ==> !s.op.Query? && PT.OpFits(s.op))
    && (s.Ask? ==> PT.MadeFor(s.addr, s.made) && s.luck.id > 0 && (s.h, s.luck.id) !in w.asked)
    && (s.Deliver? ==> s.p in w.net)
  }

  function StepEffect(w: World, s: Step): Effect
    requires Possible(w, s)
  {
    var d := w.nodes[StepHost(s)];
    match s
    case Manage(h, op) => Effect(d.(ports := PT.Apply(d.ports, op).0), [], [])
    case Ask(h, addr, client, remote, peer, made, luck) => OnQuery(d, addr, client, remote, peer, made, luck)
    case Deliver(p, luck) => OnMsg(d, p.msg, p.src, luck)
    case Finish(h) => OnFinish(d)
    case Second(h) => OnTick(d)
  }

  function Packets(h: Host, sent: seq<Out>): set<Packet> {
    set o | o in sent :: Packet(h, o.dst, o.msg)
  }

  /** For every query, what the daemon it asks lists. */
  function Listings(nodes: seq<Node>, asked: map<(Host, nat), Question>): set<((Host, nat), SockAddr, SockAddr)> {
    set k, e | k in asked && asked[k].peer < |nodes| && e in nodes[asked[k].peer].ports.entries :: (k, e.local, e.mapped)
  }

  function Tagged(h: Host, notes: seq<Note>): seq<(Host, Note)> {
    seq(|notes|, i requires 0 <= i < |notes| => (h, notes[i]))
  }

  function Next(w: World, s: Step): World
    requires Possible(w, s)
  {
    var h, eff := StepHost(s), StepEffect(w, s);
    var nodes := w.nodes[h := eff.node];
    var asked := if s.Ask? && |eff.node.reqs| > |w.nodes[h].reqs| then w.asked[(h, s.luck.id) := Question(s.remote, s.peer, s.addr, eff.node.ports.entries)] else w.asked;
    World(nodes, w.net + Packets(h, eff.sent), w.log + Tagged(h, eff.notes), asked, w.since + Listings(nodes, asked))
  }

  ghost predicate Init(w: World) {
    && (forall h :: 0 <= h < |w.nodes| ==> w.nodes[h] == Node(PT.EMPTY, [], None))
    && w.net == {} && w.log == [] && w.asked == map[] && w.since == {}
  }

  ghost predicate IsRun(run: seq<World>, steps: seq<Step>) {
    && |run| == |steps| + 1
    && Init(run[0])
    && forall i {:trigger steps[i]} :: 0 <= i < |steps| ==> IsStep(run[i], steps[i], run[i + 1])
  }

  predicate IsStep(w: World, s: Step, w': World) {
    Possible(w, s) && w' == Next(w, s)
  }

  // ----- what the messages, trackers and notices of a world vouch for

  predicate MatchesLocal(local: SockAddr, a: SockAddr) {
    Port(a) == Port(local) && (Same(a, local) || Wildcard(local) || Wildcard(a))
  }

  /** The mapped address that a mapping gives for an address. */
  function GivenAddr(local: SockAddr, mapped: SockAddr, remote: SockAddr): SockAddr {
    var fam := remote.family;
    FromPeer(fam, if Wildcard(local) then Peer(Ip(fam, remote), Port(mapped)) else ToPeer(fam, mapped))
  }

  /** Since query `key` was made, the daemon it asks has listed a mapping that matches `remote`
      and gives `answer` for it. */
  ghost predicate Answered(w: World, key: (Host, nat), remote: SockAddr, answer: SockAddr) {
    exists local, mapped :: (key, local, mapped) in w.since && MatchesLocal(local, remote) && answer == GivenAddr(local, mapped, remote)
  }

  /** A mapping for a query from `from`: no wildcard, and of that address unless that is one. */
  predicate Served(local: SockAddr, from: SockAddr) {
    !Wildcard(local) && Port(local) == Port(from) && (local == from || Same(local, from) || Wildcard(from))
  }

  /** A connecting peer's mapped address as a message of the question's family has it. */
  ghost predicate MappedFrom(q: Question, mcp: Peer) {
    exists e <- q.listed :: Served(e.local, q.from) && mcp == ToPeer(q.remote.family, e.mapped)
  }

  /** A request of host `a` to host `p` asks what `a` wants to know, of the host it wants to
      know it from, and says from which address and mapped address. */
  ghost predicate GoodReq(w: World, a: Host, p: Host, m: Msg) {
    && (a, m.handle) in w.asked
    && m.handle > 0
    && p == w.asked[(a, m.handle)].peer
    && m.fam == w.asked[(a, m.handle)].remote.family != Unsupported
    && m.ap == ToPeer(m.fam, w.asked[(a, m.handle)].remote)
    && m.cp == ToPeer(m.fam, w.asked[(a, m.handle)].from)
    && MappedFrom(w.asked[(a, m.handle)], m.mcp)
  }

  /** An accept of host `p` to host `a` answers a question that `a` asked `p`. */
  ghost predicate GoodAcc(w: World, p: Host, a: Host, m: Msg) {
    && (a, m.handle) in w.asked
    && m.handle > 0
    && p == w.asked[(a, m.handle)].peer
    && m.fam == w.asked[(a, m.handle)].remote.family != Unsupported
    && m.cp == ToPeer(m.fam, w.asked[(a, m.handle)].from)
    && Answered(w, (a, m.handle), w.asked[(a, m.handle)].remote, FromPeer(m.fam, m.ap))
  }

  predicate IsSuccess(e: (Host, Note), a: Host, handle: nat) {
    e.0 == a && e.1.Result? && e.1.handle == handle && !e.1.rejected
  }

  /** Host `a` has told its client that query `handle` succeeded. */
  ghost predicate Succeeded(w: World, a: Host, handle: nat) {
    (a, handle) in w.asked && exists i :: 0 <= i < |w.log| && IsSuccess(w.log[i], a, handle)
  }

  ghost predicate PacketOk(w: World, p: Packet) {
    match p.msg.mt
    case Req => GoodReq(w, p.src, p.dst, p.msg)
    case Acc => GoodAcc(w, p.src, p.dst, p.msg)
    case Ackn => GoodAck(w, p.src, p.dst, p.msg)
    case Rej => GoodReq(w, p.dst, p.src, p.msg)
  }

  /** An acknowledgement goes to the host that was asked, when the client has its answer. */
  ghost predicate GoodAck(w: World, a: Host, p: Host, m: Msg) {
    m.handle > 0 && Succeeded(w, a, m.handle) && p == w.asked[(a, m.handle)].peer
  }

  ghost predicate TrackerOk(w: World, h: Host, t: TR.Tracker<Out>) {
    && t.handle > 0
    && (t.msg.Some? ==> t.msg.value.msg.handle == t.handle && t.msg.value.msg.mt != Rej && PacketOk(w, Packet(h, t.msg.value.dst, t.msg.value.msg)))
    && match t.kind
       case Query => (h, t.handle) in w.asked && w.asked[(h, t.handle)].remote == t.remote && Served(t.src, w.asked[(h, t.handle)].from)
       case Accept => t.msg.Some? && t.msg.value.msg.mt == Acc
       case Ack => (h, t.handle) in w.asked && Succeeded(w, h, t.handle)
  }

  /** The rest of a handler: never a query, and no result for a client. */
  ghost predicate RestOk(w: World, h: Host, r: Rest) {
    && TrackerOk(w, h, r.t) && r.t.kind != TR.Query && !r.t.complete
    && (forall o <- r.sent :: o.msg.mt != Rej && PacketOk(w, Packet(h, o.dst, o.msg)))
    && |r.notes| <= 1 && (forall i :: 0 <= i < |r.notes| ==> !r.notes[i].Result? && NoteOk(w, h, r.notes[i]))
  }

  /** The local address told for a question: that from which it was made, unless that is a
      wildcard and of another family than the address asked about. */
  predicate LocalFor(local: SockAddr, q: Question) {
    && !Wildcard(local) && Port(local) == Port(q.from)
    && (!Wildcard(q.from) || q.from.family == q.remote.family ==> Same(local, q.from))
  }

  /** What the accepting side tells its client goes back to query `key`: who connects, from
      which mapped address, and to which mapping of its own. */
  ghost predicate InfoFor(w: World, h: Host, n: Note, key: (Host, nat)) {
    && key in w.asked && w.asked[key].peer == h && n.RemoteInfo?
    && var q := w.asked[key];
       && q.remote.family != Unsupported
       && n.remote == FromPeer(q.remote.family, ToPeer(q.remote.family, q.from))
       && (exists mcp :: MappedFrom(q, mcp) && n.mappedRemote == FromPeer(q.remote.family, mcp))
       && MatchesLocal(n.local, q.remote) && (key, n.local, n.mappedLocal) in w.since
  }

  ghost predicate NoteOk(w: World, h: Host, n: Note) {
    if n.Result? then
      && (h, n.handle) in w.asked && n.remote == w.asked[(h, n.handle)].remote
      && LocalFor(n.local, w.asked[(h, n.handle)])
      && (if n.rejected then n.mappedRemote == n.remote else Answered(w, (h, n.handle), n.remote, n.mappedRemote))
    else exists key :: InfoFor(w, h, n, key)
  }

  ghost predicate Inv(w: World) {
    && (forall h, i :: 0 <= h < |w.nodes| && 0 <= i < |w.nodes[h].reqs| ==> TrackerOk(w, h, w.nodes[h].reqs[i]))
    && (forall h :: 0 <= h < |w.nodes| && w.nodes[h].rest.Some? ==> RestOk(w, h, w.nodes[h].rest.value))
    && (forall p <- w.net :: PacketOk(w, p))
    && (forall i :: 0 <= i < |w.log| ==> NoteOk(w, w.log[i].0, w.log[i].1))
    && (forall h :: 0 <= h < |w.nodes| ==> PT.OneFamily(w.nodes[h].ports) && PT.ConflictFree(w.nodes[h].ports.entries))
    && Listings(w.nodes, w.asked) <= w.since
  }

  /** The memory of a world only grows. */
  ghost predicate Extends(w: World, w': World) {
    && (forall k <- w.asked :: k in w'.asked && w'.asked[k] == w.asked[k])
    && w.since <= w'.since
    && w.log <= w'.log
  }

  lemma NextExtends(w: World, s: Step)
    requires Possible(w, s)
    ensures Extends(w, Next(w, s))
  {}

  lemma AnsweredStable(w: World, w': World, key: (Host, nat), remote: SockAddr, answer: SockAddr)
    requires Extends(w, w') && Answered(w, key, remote, answer)
    ensures Answered(w', key, remote, answer)
  {
    var local, mapped :| (key, local, mapped) in w.since && MatchesLocal(local, remote) && answer == GivenAddr(local, mapped, remote);
    assert (key, local, mapped) in w'.since;
  }

  lemma SucceededStable(w: World, w': World, a: Host, handle: nat)
    requires Extends(w, w') && Succeeded(w, a, handle)
    ensures Succeeded(w', a, handle)
  {
    var i :| 0 <= i < |w.log| && IsSuccess(w.log[i], a, handle);
    assert w'.log[i] == w.log[i];
  }

  lemma PacketStable(w: World, w': World, p: Packet)
    requires Extends(w, w') && PacketOk(w, p)
    ensures PacketOk(w', p)
  {
    match p.msg.mt
    case Req =>
    case Acc => AnsweredStable(w, w', (p.dst, p.msg.handle), w.asked[(p.dst, p.msg.handle)].remote, FromPeer(p.msg.fam, p.msg.ap));
    case Ackn => SucceededStable(w, w', p.src, p.msg.handle);
    case Rej =>
  }

  lemma TrackerStable(w: World, w': World, h: Host, t: TR.Tracker<Out>)
    requires Extends(w, w') && TrackerOk(w, h, t)
    ensures TrackerOk(w', h, t)
  {
    if t.msg.Some? { PacketStable(w, w', Packet(h, t.msg.value.dst, t.msg.value.msg)); }
    if t.kind == TR.Ack { SucceededStable(w, w', h, t.handle); }
  }

  lemma RestStable(w: World, w': World, h: Host, r: Rest)
    requires Extends(w, w') && RestOk(w, h, r)
    ensures RestOk(w', h, r)
  {
    TrackerStable(w, w', h, r.t);
    forall i | 0 <= i < |r.notes| ensures NoteOk(w', h, r.notes[i]) { NoteStable(w, w', h, r.notes[i]); }
    forall o <- r.sent ensures PacketOk(w', Packet(h, o.dst, o.msg)) { PacketStable(w, w', Packet(h, o.dst, o.msg)); }
  }

  lemma NoteStable(w: World, w': World, h: Host, n: Note)
    requires Extends(w, w') && NoteOk(w, h, n)
    ensures NoteOk(w', h, n)
  {
    if n.Result? && !n.rejected {
      AnsweredStable(w, w', (h, n.handle), n.remote, n.mappedRemote);
    } else if n.RemoteInfo? {
      var key :| InfoFor(w, h, n, key);
      assert InfoFor(w', h, n, key);
    }
  }

  /** Everything a step hands on vouches for itself. */
  ghost predicate EffectOk(w': World, h: Host, eff: Effect) {
    && (forall i :: 0 <= i < |eff.node.reqs| ==> TrackerOk(w', h, eff.node.reqs[i]))
    && (eff.node.rest.Some? ==> RestOk(w', h, eff.node.rest.value))
    && (forall o <- eff.sent :: PacketOk(w', Packet(h, o.dst, o.msg)))
    && (forall i :: 0 <= i < |eff.notes| ==> NoteOk(w', h, eff.notes[i]))
  }

  lemma StepTable(w: World, s: Step)
    requires Possible(w, s) && PT.OneFamily(w.nodes[StepHost(s)].ports) && PT.ConflictFree(w.nodes[StepHost(s)].ports.entries)
    ensures PT.OneFamily(StepEffect(w, s).node.ports) && PT.ConflictFree(StepEffect(w, s).node.ports.entries)
  {
    var t := w.nodes[StepHost(s)].ports;
    if s.Manage? {
      PT.ApplyOneFamily(t, s.op);
      PT.ApplyConflictFree(t, s.op);
    } else if s.Ask? {
      PT.ApplyOneFamily(t, PT.Query(s.addr, s.client, s.made, Sendable(s.remote, s.luck)));
      PT.ApplyConflictFree(t, PT.Query(s.addr, s.client, s.made, Sendable(s.remote, s.luck)));
    }
  }

  /** A step keeps the invariant when all it adds vouches for itself in the new world. */
  lemma StepKeepsInv(w: World, s: Step)
    requires Inv(w) && Possible(w, s)
    requires EffectOk(Next(w, s), StepHost(s), StepEffect(w, s))
    ensures Inv(Next(w, s))
  {
    var h, w', eff := StepHost(s), Next(w, s), StepEffect(w, s);
    NextExtends(w, s);
    StepTable(w, s);
    forall g, i | 0 <= g < |w'.nodes| && 0 <= i < |w'.nodes[g].reqs|
      ensures TrackerOk(w', g, w'.nodes[g].reqs[i])
    {
      if g != h { TrackerStable(w, w', g, w.nodes[g].reqs[i]); }
    }
    forall g | 0 <= g < |w'.nodes| && w'.nodes[g].rest.Some?
      ensures RestOk(w', g, w'.nodes[g].rest.value)
    {
      if g != h { RestStable(w, w', g, w.nodes[g].rest.value); }
    }
    forall p <- w'.net
      ensures PacketOk(w', p)
    {
      if p in w.net { PacketStable(w, w', p); }
    }
    forall i | 0 <= i < |w'.log|
      ensures NoteOk(w', w'.log[i].0, w'.log[i].1)
    {
      if i < |w.log| { NoteStable(w, w', w.log[i].0, w.log[i].1); }
    }
  }

  // ----- what each kind of step adds

  ghost predicate ReqsOk(w: World, h: Host, s: seq<TR.Tracker<Out>>) {
    forall i :: 0 <= i < |s| ==> TrackerOk(w, h, s[i])
  }

  lemma ReqsStable(w: World, w': World, h: Host, s: seq<TR.Tracker<Out>>)
    requires Extends(w, w') && ReqsOk(w, h, s)
    ensures ReqsOk(w', h, s)
  {
    forall i | 0 <= i < |s| ensures TrackerOk(w', h, s[i]) { TrackerStable(w, w', h, s[i]); }
  }

  /** What a tracker vouches for does not depend on its clock. */
  lemma ReqsUpdated(w: World, h: Host, s: seq<TR.Tracker<Out>>, k: nat)
    requires ReqsOk(w, h, s) && k <= |s|
    ensures ReqsOk(w, h, TR.Updated(s, k))
  {}

  lemma ReqsTicked(w: World, h: Host, s: seq<TR.Tracker<Out>>)
    requires ReqsOk(w, h, s)
    ensures ReqsOk(w, h, TR.Ticked(s))
  {
    forall i | 0 <= i < |TR.Ticked(s)|
      ensures TrackerOk(w, h, TR.Ticked(s)[i])
    {
      var j := TR.TickOrigin(s, i);
    }
  }

  lemma {:induction false} ResendOrigin(s: seq<TR.Tracker<Out>>, o: Out) returns (j: nat)
    requires o in Messages(TR.Resends(s))
    ensures j < |s| && s[j].msg == Some(o)
    decreases |s|
  {
    var rest := TR.Resends(s[1..]);
    if TR.Resent(s[0]) {
      assert TR.Resends(s) == [s[0]] + rest && ([s[0]] + rest)[1..] == rest;
      if s[0].msg == Some(o) {
        return 0;
      }
    } else {
      assert TR.Resends(s) == rest;
    }
    j := ResendOrigin(s[1..], o);
    j := j + 1;
  }

  lemma TickOk(w: World, h: Host)
    requires Inv(w) && h < |w.nodes|
    ensures EffectOk(Next(w, Second(h)), h, OnTick(w.nodes[h]))
  {
    var w', s := Next(w, Second(h)), w.nodes[h].reqs;
    NextExtends(w, Second(h));
    assert ReqsOk(w, h, s);
    ReqsStable(w, w', h, s);
    ReqsTicked(w', h, s);
    if w.nodes[h].rest.Some? { RestStable(w, w', h, w.nodes[h].rest.value); }
    forall o <- OnTick(w.nodes[h]).sent
      ensures PacketOk(w', Packet(h, o.dst, o.msg))
    {
      var j := ResendOrigin(s, o);
      assert TrackerOk(w', h, s[j]);
    }
  }

  /** A query is served by a mapping that its host then lists. */
  lemma AskServed(d: Node, s: Step)
    requires s.Ask?
    ensures var eff := OnQuery(d, s.addr, s.client, s.remote, s.peer, s.made, s.luck);
            |eff.node.reqs| > |d.reqs| ==>
              exists e <- eff.node.ports.entries :: Served(e.local, s.addr)
                && eff.node.reqs[0].src == e.local && eff.node.reqs[0].msg.Some?
                && eff.node.reqs[0].msg.value.msg.mcp == ToPeer(s.remote.family, e.mapped)
  {
    var eff := OnQuery(d, s.addr, s.client, s.remote, s.peer, s.made, s.luck);
    if |eff.node.reqs| > |d.reqs| {
      var i := PT.Find(d.ports.entries, s.addr, true, false);
      SameEquivalence(s.addr, if i < |d.ports.entries| then d.ports.entries[i].local else s.addr, s.addr);
      var e := eff.node.ports.entries[if i < |d.ports.entries| then i else 0];
      assert e in eff.node.ports.entries;
    }
  }

  lemma AskOk(w: World, s: Step)
    requires Inv(w) && Possible(w, s) && s.Ask?
    ensures EffectOk(Next(w, s), s.h, StepEffect(w, s))
  {
    var w', d, eff := Next(w, s), w.nodes[s.h], StepEffect(w, s);
    NextExtends(w, s);
    assert ReqsOk(w, s.h, d.reqs);
    ReqsStable(w, w', s.h, d.reqs);
    if |eff.node.reqs| > |d.reqs| {
      assert eff.node.reqs[1..] == d.reqs;
      assert w'.asked[(s.h, s.luck.id)] == Question(s.remote, s.peer, s.addr, eff.node.ports.entries);
      AskServed(d, s);
      forall i | 0 <= i < |eff.node.reqs| ensures TrackerOk(w', s.h, eff.node.reqs[i]) {
        if i > 0 { assert eff.node.reqs[i] == d.reqs[i - 1]; }
      }
    }
  }

  /** The lookup of a request finds a mapping that matches the address asked for, and the
      accept carries what that mapping gives for it. */
  lemma RequestAnswered(w: World, key: (Host, nat), e: PT.Mapping, remote: SockAddr)
    requires remote.family != Unsupported && (key, e.local, e.mapped) in w.since
    requires PT.Matches(e, FromPeer(remote.family, ToPeer(remote.family, remote)), true)
    ensures MatchesLocal(e.local, remote)
    ensures Answered(w, key, remote, FromPeer(remote.family, Given(e, remote.family, ToPeer(remote.family, remote))))
  {
    PeerRoundTrip(remote);
    assert MatchesLocal(e.local, remote);
    assert FromPeer(remote.family, Given(e, remote.family, ToPeer(remote.family, remote))) == GivenAddr(e.local, e.mapped, remote);
  }

  /** What a request leaves to be done, in any later world. */
  lemma AcceptRestOk(w: World, w': World, h: Host, from: Host, e: PT.Mapping, m: Msg, luck: Luck)
    requires Extends(w, w') && h < |w.nodes| && e in w.nodes[h].ports.entries && Listings(w.nodes, w.asked) <= w.since
    requires GoodReq(w, from, h, m) && PT.Matches(e, FromPeer(m.fam, m.ap), true)
    ensures var r := AcceptRequest(w.nodes[h].reqs, e, m, from, luck).rest;
            r.Some? ==> RestOk(w', h, r.value)
  {
    assert ((from, m.handle), e.local, e.mapped) in Listings(w.nodes, w.asked);
    RequestAnswered(w, (from, m.handle), e, w.asked[(from, m.handle)].remote);
    var acc := m.(mt := Acc, ap := Given(e, m.fam, m.ap));
    assert GoodAcc(w, h, from, acc);
    PacketStable(w, w', Packet(h, from, acc));
    var note := RemoteInfo(e.local, FromPeer(m.fam, m.cp), e.mapped, FromPeer(m.fam, m.mcp));
    assert InfoFor(w, h, note, (from, m.handle));
    NoteStable(w, w', h, note);
  }

  lemma RequestOk(w: World, s: Step)
    requires Inv(w) && Possible(w, s) && s.Deliver? && s.p.msg.mt == Req
    ensures EffectOk(Next(w, s), s.p.dst, StepEffect(w, s))
  {
    var w', h, d, m := Next(w, s), s.p.dst, w.nodes[s.p.dst], s.p.msg;
    NextExtends(w, s);
    assert ReqsOk(w, h, d.reqs) && PacketOk(w, s.p);
    ReqsStable(w, w', h, d.reqs);
    PacketStable(w, w', s.p);
    var i := PT.Find(d.ports.entries, FromPeer(m.fam, m.ap), true, false);
    if i < |d.ports.entries| {
      assert d.ports.entries[i] in d.ports.entries;
      AcceptRestOk(w, w', h, s.p.src, d.ports.entries[i], m, s.luck);
    }
  }

  /** What an accept leaves to be done, once its query has succeeded. */
  lemma ConcludeOk(w: World, h: Host, s: seq<TR.Tracker<Out>>, e: PT.Mapping, m: Msg, from: Host, luck: Luck)
    requires ReqsOk(w, h, s) && GoodAcc(w, from, h, m) && Same(FromPeer(m.fam, m.cp), e.local)
    requires var r := ConcludeQuery(s, e, m, from, luck);
             r.notes != [] ==> Succeeded(w, h, m.handle)
    ensures var r := ConcludeQuery(s, e, m, from, luck);
            && ReqsOk(w, h, r.reqs) && (r.rest.Some? ==> RestOk(w, h, r.rest.value))
            && (forall o <- r.sent :: PacketOk(w, Packet(h, o.dst, o.msg)))
            && (forall i :: 0 <= i < |r.notes| ==> NoteOk(w, h, r.notes[i]))
  {
    var k := TR.Find(s, m.handle, e.local, {TR.Query, TR.Ack});
    ReqsUpdated(w, h, s, k);
    if k < |s| { assert TrackerOk(w, h, s[k]); }
  }

  lemma SuccessLogged(w: World, s: Step)
    requires Inv(w) && Possible(w, s) && s.Deliver? && s.p.msg.mt == Acc && StepEffect(w, s).notes != []
    ensures Succeeded(Next(w, s), s.p.dst, s.p.msg.handle)
  {
    var w', h, d, eff, m := Next(w, s), s.p.dst, w.nodes[s.p.dst], StepEffect(w, s), s.p.msg;
    var i := PT.Find(d.ports.entries, FromPeer(m.fam, m.cp), true, true);
    var k := TR.Find(d.reqs, m.handle, d.ports.entries[i].local, {TR.Query, TR.Ack});
    assert TrackerOk(w, h, d.reqs[k]);
    assert Tagged(h, eff.notes)[0] == (h, eff.notes[0]);
    assert IsSuccess(w'.log[|w.log|], h, m.handle);
  }

  lemma AcceptOk(w: World, s: Step)
    requires Inv(w) && Possible(w, s) && s.Deliver? && s.p.msg.mt == Acc
    ensures EffectOk(Next(w, s), s.p.dst, StepEffect(w, s))
  {
    var w', h, d, m := Next(w, s), s.p.dst, w.nodes[s.p.dst], s.p.msg;
    NextExtends(w, s);
    assert ReqsOk(w, h, d.reqs) && PacketOk(w, s.p);
    ReqsStable(w, w', h, d.reqs);
    PacketStable(w, w', s.p);
    var i := PT.Find(d.ports.entries, FromPeer(m.fam, m.cp), true, true);
    if i < |d.ports.entries| {
      if StepEffect(w, s).notes != [] { SuccessLogged(w, s); }
      ConcludeOk(w', h, d.reqs, d.ports.entries[i], m, s.p.src, s.luck);
    }
  }

  lemma FinishEffectOk(w: World, h: Host, d: Node)
    requires d.rest.Some? && ReqsOk(w, h, d.reqs) && RestOk(w, h, d.rest.value)
    ensures EffectOk(w, h, OnFinish(d))
  {
    var s := [d.rest.value.t] + d.reqs;
    forall i | 0 <= i < |s| ensures TrackerOk(w, h, s[i]) {
      if i > 0 { assert s[i] == d.reqs[i - 1]; }
    }
    forall i | 0 <= i < |d.rest.value.notes| ensures NoteOk(w, h, d.rest.value.notes[i]) {}
  }

  lemma FinishOk(w: World, h: Host)
    requires Inv(w) && Possible(w, Finish(h))
    ensures EffectOk(Next(w, Finish(h)), h, OnFinish(w.nodes[h]))
  {
    var w', d := Next(w, Finish(h)), w.nodes[h];
    NextExtends(w, Finish(h));
    assert ReqsOk(w, h, d.reqs);
    ReqsStable(w, w', h, d.reqs);
    RestStable(w, w', h, d.rest.value);
    FinishEffectOk(w', h, d);
  }

  lemma RefuseOk(w: World, h: Host, s: seq<TR.Tracker<Out>>, e: PT.Mapping, m: Msg, from: Host, luck: Luck)
    requires ReqsOk(w, h, s) && GoodReq(w, h, from, m) && Same(FromPeer(m.fam, m.cp), e.local)
    ensures var r := RejectQuery(s, e, m, luck);
            && ReqsOk(w, h, r.reqs) && r.rest == None && r.sent == []
            && (forall i :: 0 <= i < |r.notes| ==> NoteOk(w, h, r.notes[i]))
  {
    var k := TR.Find(s, m.handle, e.local, {TR.Query});
    ReqsUpdated(w, h, s, k);
    if k < |s| { assert TrackerOk(w, h, s[k]); }
  }

  lemma RejectOk(w: World, s: Step)
    requires Inv(w) && Possible(w, s) && s.Deliver? && s.p.msg.mt == Rej
    ensures EffectOk(Next(w, s), s.p.dst, StepEffect(w, s))
  {
    var w', h, d, m := Next(w, s), s.p.dst, w.nodes[s.p.dst], s.p.msg;
    NextExtends(w, s);
    assert ReqsOk(w, h, d.reqs) && PacketOk(w, s.p);
    ReqsStable(w, w', h, d.reqs);
    PacketStable(w, w', s.p);
    var i := PT.Find(d.ports.entries, FromPeer(m.fam, m.cp), true, true);
    if i < |d.ports.entries| { RefuseOk(w', h, d.reqs, d.ports.entries[i], m, s.p.src, s.luck); }
  }

  lemma AckOk(w: World, s: Step)
    requires Inv(w) && Possible(w, s) && s.Deliver? && s.p.msg.mt == Ackn
    ensures EffectOk(Next(w, s), s.p.dst, StepEffect(w, s))
  {
    var w', h, d, m := Next(w, s), s.p.dst, w.nodes[s.p.dst], s.p.msg;
    NextExtends(w, s);
    assert ReqsOk(w, h, d.reqs);
    ReqsStable(w, w', h, d.reqs);
    ReqsUpdated(w', h, d.reqs, TR.Find(d.reqs, m.handle, FromPeer(m.fam, m.ap), {TR.Accept}));
  }

  lemma AllOk(w: World, s: Step)
    requires Inv(w) && Possible(w, s)
    ensures EffectOk(Next(w, s), StepHost(s), StepEffect(w, s))
  {
    match s
    case Manage(h, op) =>
      NextExtends(w, s);
      assert ReqsOk(w, h, w.nodes[h].reqs);
      ReqsStable(w, Next(w, s), h, w.nodes[h].reqs);
    case Ask(_, _, _, _, _, _, _) => AskOk(w, s);
    case Deliver(p, luck) =>
      match p.msg.mt {
        case Req => RequestOk(w, s);
        case Acc => AcceptOk(w, s);
        case Ackn => AckOk(w, s);
        case Rej => RejectOk(w, s);
      }
    case Finish(h) => FinishOk(w, h);
    case Second(h) => TickOk(w, h);
  }

  lemma InitInv(w: World)
    requires Init(w)
    ensures Inv(w)
  {}

  lemma NextKeepsInv(w: World, s: Step, w': World)
    requires Inv(w) && IsStep(w, s, w')
    ensures Inv(w')
  {
    AllOk(w, s);
    StepKeepsInv(w, s);
  }

  lemma {:induction false} RunInv(run: seq<World>, steps: seq<Step>, n: nat)
    requires IsRun(run, steps) && n < |run|
    ensures Inv(run[n])
  {
    if n == 0 {
      InitInv(run[n]);
    } else {
      RunInv(run, steps, n - 1);
      NextKeepsInv(run[n - 1], steps[n - 1], run[n]);
    }
  }

  // ----- results

  lemma {:induction false} RunExtends(run: seq<World>, steps: seq<Step>, k: nat, n: nat)
    requires IsRun(run, steps) && k <= n < |run|
    ensures Extends(run[k], run[n])
    decreases n
  {
    if k < n {
      RunExtends(run, steps, k, n - 1);
      NextExtends(run[n - 1], steps[n - 1]);
    }
  }

  predicate IsResult(e: (Host, Note), rejected: bool) {
    e.1.Result? && e.1.rejected == rejected
  }

  /** Packet `p` brings the result `e`. */
  predicate Brings(p: Packet, e: (Host, Note)) {
    && e.1.Result? && p.dst == e.0 && p.msg.handle == e.1.handle
    && p.msg.mt == (if e.1.rejected then Rej else Acc)
    && (!e.1.rejected ==> e.1.mappedRemote == FromPeer(p.msg.fam, p.msg.ap))
  }

  /** What a handler has left to do brings no result. */
  ghost predicate QuietRest(w: World, h: Host)
    requires h < |w.nodes|
  {
    w.nodes[h].rest.Some? ==> forall n <- w.nodes[h].rest.value.notes :: !n.Result?
  }

  /** The host lists the mapping that a result names as its own side. */
  ghost predicate OwnMapping(d: Node, n: Note) {
    n.Result? && exists e <- d.ports.entries :: e.local == n.local && e.mapped == n.mappedLocal
  }

  lemma NotedResult(w: World, s: Step, i: nat)
    requires Possible(w, s) && QuietRest(w, StepHost(s)) && i < |StepEffect(w, s).notes| && StepEffect(w, s).notes[i].Result?
    ensures s.Deliver? && Brings(s.p, (StepHost(s), StepEffect(w, s).notes[i]))
    ensures OwnMapping(w.nodes[StepHost(s)], StepEffect(w, s).notes[i])
  {
    var d := w.nodes[StepHost(s)];
    if s.Deliver? {
      var j := PT.Find(d.ports.entries, FromPeer(s.p.msg.fam, s.p.msg.cp), true, true);
      assert j < |d.ports.entries| ==> d.ports.entries[j] in d.ports.entries;
    }
  }

  lemma LogSplit(w: World, s: Step, i: nat)
    requires Possible(w, s) && i < |Next(w, s).log|
    ensures if i < |w.log| then Next(w, s).log[i] == w.log[i]
            else var j := i - |w.log|; j < |StepEffect(w, s).notes| && Next(w, s).log[i] == (StepHost(s), StepEffect(w, s).notes[j])
  {}

  /** A result in the log after a step was there before, or the step delivered it. */
  lemma LoggedResult(w: World, s: Step, i: nat)
    requires Possible(w, s) && QuietRest(w, StepHost(s)) && i < |Next(w, s).log| && Next(w, s).log[i].1.Result?
    ensures var e := Next(w, s).log[i];
            if i < |w.log| then e == w.log[i]
            else s.Deliver? && s.p in w.net && Brings(s.p, e) && OwnMapping(w.nodes[e.0], e.1)
  {
    LogSplit(w, s, i);
    if i >= |w.log| { NotedResult(w, s, i - |w.log|); }
  }

  /** Every result was brought by a packet. */
  lemma {:induction false} ResultDelivered(run: seq<World>, steps: seq<Step>, n: nat, i: nat) returns (k: nat, p: Packet)
    requires IsRun(run, steps) && n < |run| && i < |run[n].log| && run[n].log[i].1.Result?
    ensures k < n && p in run[k].net && Brings(p, run[n].log[i]) && |run[k].log| <= i
    ensures p.dst < |run[k].nodes| && OwnMapping(run[k].nodes[p.dst], run[n].log[i].1)
    decreases n
  {
    var w, s := run[n - 1], steps[n - 1];
    assert IsStep(w, s, run[n - 1 + 1]);
    assert QuietRest(w, StepHost(s)) by { RunInv(run, steps, n - 1); }
    LoggedResult(w, s, i);
    if i < |w.log| {
      k, p := ResultDelivered(run, steps, n - 1, i);
    } else {
      k, p := n - 1, s.p;
    }
  }

  // ----- agreement

  lemma {:induction false} ListedSince(run: seq<World>, steps: seq<Step>, n: nat, key: (Host, nat), local: SockAddr, mapped: SockAddr)
    returns (k: nat, e: PT.Mapping)
    requires IsRun(run, steps) && n < |run| && (key, local, mapped) in run[n].since
    ensures k <= n && key in run[k].asked && run[k].asked[key].peer < |run[k].nodes|
    ensures e in run[k].nodes[run[k].asked[key].peer].ports.entries && e.local == local && e.mapped == mapped
    decreases n
  {
    var w, s := run[n - 1], steps[n - 1];
    assert IsStep(w, s, run[n - 1 + 1]);
    if (key, local, mapped) in w.since {
      k, e := ListedSince(run, steps, n - 1, key, local, mapped);
    } else {
      k := n;
      assert (key, local, mapped) in Listings(run[n].nodes, run[n].asked);
      e :| e in run[n].nodes[run[n].asked[key].peer].ports.entries && e.local == local && e.mapped == mapped;
    }
  }

  /** What is reported for a mapping: the asked IP address with the mapped port for a wildcard;
      else the whole mapped address if and only if the question is of the mapping's family,
      which it is unless it asks about a wildcard address. */
  ghost predicate Reports(e: PT.Mapping, remote: SockAddr, answer: SockAddr) {
    && MatchesLocal(e.local, remote)
    && answer == GivenAddr(e.local, e.mapped, remote)
    && (e.Wild() ==> Same(answer, remote.(port := Port(e.mapped))))
    && (!e.Wild() ==> (Same(answer, e.mapped) <==> remote.family == e.local.family))
    && (!e.Wild() && !Wildcard(remote) ==> Same(answer, e.mapped))
  }

  lemma GivenReports(e: PT.Mapping, remote: SockAddr)
    requires remote.family != Unsupported && e.mapped.family == e.local.family && MatchesLocal(e.local, remote)
    ensures Reports(e, remote, GivenAddr(e.local, e.mapped, remote))
  {}

  /** The other case does arise: a question about 0.0.0.0 is answered from an IPv6 mapping on
      the same port, and reports no IPv6 address. */
  lemma ForeignFamily(port: nat, ip: nat, mapped: nat)
    requires ip > 0
    ensures var local, remote := SockAddr(Inet6, port, 0, ip), SockAddr(Inet, port, 0, 0);
            MatchesLocal(local, remote) && GivenAddr(local, local.(port := mapped), remote) == SockAddr(Inet, mapped, 0, 0)
  {}

  /** An accept goes back to a mapping that was listed after the query was made. */
  lemma AcceptGrounded(run: seq<World>, steps: seq<Step>, n: nat, p: Packet) returns (k: nat, e: PT.Mapping)
    requires IsRun(run, steps) && n < |run| && p in run[n].net && p.msg.mt == Acc
    ensures k <= n && (p.dst, p.msg.handle) in run[k].asked && run[k].asked[(p.dst, p.msg.handle)].peer < |run[k].nodes|
    ensures var q := run[k].asked[(p.dst, p.msg.handle)];
            e in run[k].nodes[q.peer].ports.entries && Reports(e, q.remote, FromPeer(p.msg.fam, p.msg.ap))
  {
    var key, answer := (p.dst, p.msg.handle), FromPeer(p.msg.fam, p.msg.ap);
    assert GoodAcc(run[n], p.src, p.dst, p.msg) by { RunInv(run, steps, n); assert PacketOk(run[n], p); }
    var q := run[n].asked[key];
    var local, mapped :| (key, local, mapped) in run[n].since && MatchesLocal(local, q.remote) && answer == GivenAddr(local, mapped, q.remote);
    k, e := ListedSince(run, steps, n, key, local, mapped);
    RunExtends(run, steps, k, n);
    assert PT.OneFamily(run[k].nodes[q.peer].ports) by { RunInv(run, steps, k); }
    GivenReports(e, q.remote);
  }

  /** If a daemon tells its client that a remote address maps to `answer`, then at an earlier
      moment, but after the query was made, the daemon it had asked listed a mapping that
      matches the address and of which `answer` is what is to be reported. */
  lemma Agreement(run: seq<World>, steps: seq<Step>, n: nat, i: nat)
    requires IsRun(run, steps) && n < |run| && i < |run[n].log| && IsResult(run[n].log[i], false)
    ensures var note, key := run[n].log[i].1, (run[n].log[i].0, run[n].log[i].1.handle);
            && key in run[n].asked && note.remote == run[n].asked[key].remote
            && exists k, e :: 0 <= k < n && key in run[k].asked && run[n].asked[key].peer < |run[k].nodes| &&
                 e in run[k].nodes[run[n].asked[key].peer].ports.entries && Reports(e, note.remote, note.mappedRemote)
  {
    var note, key := run[n].log[i].1, (run[n].log[i].0, run[n].log[i].1.handle);
    var j, p := ResultDelivered(run, steps, n, i);
    var k, e := AcceptGrounded(run, steps, j, p);
    assert NoteOk(run[n], run[n].log[i].0, note) by { RunInv(run, steps, n); }
    RunExtends(run, steps, j, n);
    RunExtends(run, steps, k, n);
  }

  // ----- rejects

  ghost predicate NoMatch(d: Node, a: SockAddr) {
    forall e :: e in d.ports.entries ==> !MatchesLocal(e.local, a)
  }

  /** Only the answer to a request is a reject. */
  lemma SendsNoReject(w: World, s: Step, o: Out)
    requires Inv(w) && Possible(w, s) && o in StepEffect(w, s).sent && !(s.Deliver? && s.p.msg.mt == Req)
    ensures o.msg.mt != Rej
  {
    var h := StepHost(s);
    var d := w.nodes[h];
    match s
    case Manage(_, _) =>
    case Ask(_, _, _, _, _, _, _) =>
    case Deliver(_, _) =>
    case Finish(_) => assert RestOk(w, h, d.rest.value);
    case Second(_) =>
      var j := ResendOrigin(d.reqs, o);
      assert TrackerOk(w, h, d.reqs[j]);
  }

  lemma SentReject(w: World, s: Step, p: Packet)
    requires Inv(w) && Possible(w, s) && p.msg.mt == Rej && p in Next(w, s).net && p !in w.net
    ensures p.src == StepHost(s) && (p.dst, p.msg.handle) in w.asked && NoMatch(w.nodes[p.src], FromPeer(p.msg.fam, p.msg.ap))
  {
    var h, eff := StepHost(s), StepEffect(w, s);
    assert p in Packets(h, eff.sent);
    var o :| o in eff.sent && p == Packet(h, o.dst, o.msg);
    if s.Deliver? && s.p.msg.mt == Req {
      assert PacketOk(w, s.p);
      RefusedHere(w.nodes[h], s.p.msg, s.p.src, s.luck, o);
    } else {
      SendsNoReject(w, s, o);
    }
  }

  /** A daemon refuses a request exactly when it lists no mapping that matches. */
  lemma RefusedHere(d: Node, m: Msg, from: Host, luck: Luck, o: Out)
    requires o in OnRequest(d, m, from, luck).sent && o.msg.mt == Rej
    ensures o == Out(from, m.(mt := Rej)) && NoMatch(d, FromPeer(m.fam, m.ap))
  {
    var a := FromPeer(m.fam, m.ap);
    forall e | e in d.ports.entries ensures !MatchesLocal(e.local, a) {
      var j :| 0 <= j < |d.ports.entries| && d.ports.entries[j] == e;
      assert !PT.Found(d.ports.entries[j], a, true, false);
    }
  }

  lemma {:induction false} RejectOrigin(run: seq<World>, steps: seq<Step>, n: nat, p: Packet) returns (k: nat)
    requires IsRun(run, steps) && n < |run| && p.msg.mt == Rej && p in run[n].net
    ensures k < n && (p.dst, p.msg.handle) in run[k].asked && p.src < |run[k].nodes| && NoMatch(run[k].nodes[p.src], FromPeer(p.msg.fam, p.msg.ap))
    decreases n
  {
    var w, s := run[n - 1], steps[n - 1];
    if p in w.net {
      k := RejectOrigin(run, steps, n - 1, p);
    } else {
      RunInv(run, steps, n - 1);
      SentReject(w, s, p);
      k := n - 1;
    }
  }

  lemma NoMatchPeer(d: Node, remote: SockAddr)
    requires remote.family != Unsupported && NoMatch(d, FromPeer(remote.family, ToPeer(remote.family, remote)))
    ensures NoMatch(d, remote)
  {
    var a := FromPeer(remote.family, ToPeer(remote.family, remote));
    PeerRoundTrip(remote);
    forall e | e in d.ports.entries ensures !MatchesLocal(e.local, remote) {
      SameEquivalence(a, remote, e.local);
    }
  }

  /** If a daemon tells its client that a query was rejected, then at an earlier moment,
      but after the query was made, the daemon it had asked listed no mapping that matches the
      address asked about. */
  lemma RejectGrounded(run: seq<World>, steps: seq<Step>, n: nat, i: nat)
    requires IsRun(run, steps) && n < |run| && i < |run[n].log| && IsResult(run[n].log[i], true)
    ensures var key := (run[n].log[i].0, run[n].log[i].1.handle);
            && key in run[n].asked && run[n].log[i].1.remote == run[n].asked[key].remote
            && exists k :: 0 <= k < n && key in run[k].asked && run[n].asked[key].peer < |run[k].nodes|
                 && NoMatch(run[k].nodes[run[n].asked[key].peer], run[n].asked[key].remote)
  {
    var k, p := ResultDelivered(run, steps, n, i);
    RunInv(run, steps, k);
    RunInv(run, steps, n);
    assert PacketOk(run[k], p) && NoteOk(run[n], run[n].log[i].0, run[n].log[i].1);
    RunExtends(run, steps, k, n);
    var j := RejectOrigin(run, steps, k, p);
    NoMatchPeer(run[j].nodes[p.src], run[n].asked[(p.dst, p.msg.handle)].remote);
  }

  // ----- the two sides of a query

  /** What a result, success or reject, says about the client's own side: its local address is
      that from which the query was made if and only if that is no wildcard, and a wildcard gets
      a result only if it is not of the family of the address asked about. When it was told, the
      host listed the mapping of that local address to the mapped address reported. */
  lemma OwnSide(run: seq<World>, steps: seq<Step>, n: nat, i: nat)
    requires IsRun(run, steps) && n < |run| && i < |run[n].log| && run[n].log[i].1.Result?
    ensures var note, key := run[n].log[i].1, (run[n].log[i].0, run[n].log[i].1.handle);
            && key in run[n].asked && !Wildcard(note.local) && Port(note.local) == Port(run[n].asked[key].from)
            && (Same(note.local, run[n].asked[key].from) <==> !Wildcard(run[n].asked[key].from))
            && (Wildcard(run[n].asked[key].from) ==> run[n].asked[key].from.family != run[n].asked[key].remote.family)
            && (note.rejected ==> note.mappedRemote == note.remote)
            && exists k, e :: 0 <= k < n && |run[k].log| <= i && key.0 < |run[k].nodes| &&
                 e in run[k].nodes[key.0].ports.entries && e.local == note.local && e.mapped == note.mappedLocal
  {
    var note := run[n].log[i].1;
    assert NoteOk(run[n], run[n].log[i].0, note) by { RunInv(run, steps, n); }
    var k, p := ResultDelivered(run, steps, n, i);
    var e :| e in run[k].nodes[p.dst].ports.entries && e.local == note.local && e.mapped == note.mappedLocal;
  }

  lemma FamilyRoundTrip(fam: Family, a: SockAddr)
    requires fam != Unsupported
    ensures Same(FromPeer(fam, ToPeer(fam, a)), a) <==> a.family == fam
  {}

  /** What the accepting side tells its client goes back to a query that was asked of it: the
      remote address is that from which the query was made and the mapped one that of a mapping
      its host listed for it, each if and only if it is of the family of the question; and its
      own side is a mapping that it listed since and that matches the address asked about. */
  lemma PeerSide(run: seq<World>, steps: seq<Step>, n: nat, i: nat) returns (key: (Host, nat), k: nat, e: PT.Mapping, f: PT.Mapping)
    requires IsRun(run, steps) && n < |run| && i < |run[n].log| && run[n].log[i].1.RemoteInfo?
    ensures key in run[n].asked && run[n].asked[key].peer == run[n].log[i].0 && k <= n && key in run[k].asked
    ensures run[n].log[i].0 < |run[k].nodes| && e in run[k].nodes[run[n].log[i].0].ports.entries
    ensures f in run[n].asked[key].listed && Served(f.local, run[n].asked[key].from)
    ensures var note, q := run[n].log[i].1, run[n].asked[key];
            && note.local == e.local && note.mappedLocal == e.mapped && MatchesLocal(e.local, q.remote)
            && (Same(note.remote, q.from) <==> q.from.family == q.remote.family)
            && (Same(note.mappedRemote, f.mapped) <==> f.mapped.family == q.remote.family)
  {
    var h, note := run[n].log[i].0, run[n].log[i].1;
    assert NoteOk(run[n], h, note) by { RunInv(run, steps, n); }
    key :| InfoFor(run[n], h, note, key);
    var q := run[n].asked[key];
    var mcp :| MappedFrom(q, mcp) && note.mappedRemote == FromPeer(q.remote.family, mcp);
    f :| f in q.listed && Served(f.local, q.from) && mcp == ToPeer(q.remote.family, f.mapped);
    k, e := ListedSince(run, steps, n, key, note.local, note.mappedLocal);
    RunExtends(run, steps, k, n);
    FamilyRoundTrip(q.remote.family, q.from);
    FamilyRoundTrip(q.remote.family, f.mapped);
  }
}
