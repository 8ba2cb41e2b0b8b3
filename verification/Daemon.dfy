/** One port mapper daemon: the client's query and the four wire messages
    (iwpmd/iwarp_pm_server.c:419-532, 641-883).

    Each handler is given twice: as a function from the state of the daemon to its next state,
    the messages it queues and the notices it sends its clients, and as the method that works
    on the port list and the tracker list in place, proved to have exactly that effect. */
module Daemon {
  import opened Addr
  import opened Options
  import PT = PortTable
  import PL = PortList
  import TR = Trackers

  type Host = nat

  datatype MsgType = Req | Acc | Ackn | Rej

  /** The parameters of a wire message; `ap`, `cp` and `mcp` are the accepting peer, the
      connecting peer and the mapped connecting peer, the last of use in a request only. */
  datatype Msg = Msg(mt: MsgType, fam: Family, handle: nat, ap: Peer, cp: Peer, mcp: Peer)

  /** A message queued for sending. */
  datatype Out = Out(dst: Host, msg: Msg)

  datatype Note =
    | Result(handle: nat, rejected: bool, local: SockAddr, remote: SockAddr, mappedLocal: SockAddr, mappedRemote: SockAddr)
    | RemoteInfo(local: SockAddr, remote: SockAddr, mappedLocal: SockAddr, mappedRemote: SockAddr)

  /** What a handler still has to do when it has let go of the tracker list for the first time:
      post a tracker, then queue messages and tell clients. The timer may run before it does. */
  datatype Rest = Rest(t: TR.Tracker<Out>, sent: seq<Out>, notes: seq<Note>)

  datatype Node = Node(ports: PT.Table, reqs: seq<TR.Tracker<Out>>, rest: Option<Rest>)

  datatype Effect = Effect(node: Node, sent: seq<Out>, notes: seq<Note>)

  /** Which of the services a handler asks for succeed: memory for the reply buffer, for a
      tracker and for queueing a message, and the netlink socket; and the address at which
      a new tracker would be allocated. */
  datatype Luck = Luck(buffer: bool, tracker: bool, queue: bool, netlink: bool, id: nat)

  function Queued(ok: bool, dst: Host, msg: Msg): seq<Out> {
    if ok then [Out(dst, msg)] else []
  }

  /** What a query or a message does once the mapping it concerns is found. */
  datatype Reply = Reply(reqs: seq<TR.Tracker<Out>>, sent: seq<Out>, notes: seq<Note>, rest: Option<Rest>)

  function WithReply(d: Node, r: Reply): Effect {
    Effect(d.(reqs := r.reqs, rest := r.rest), r.sent, r.notes)
  }

  /** The rest of a handler. */
  function OnFinish(d: Node): Effect {
    match d.rest
    case None => Effect(d, [], [])
    case Some(r) => Effect(d.(reqs := [r.t] + d.reqs, rest := None), r.sent, r.notes)
  }

  /** A handler that the timer does not interrupt. */
  function Whole(eff: Effect): Effect {
    var f := OnFinish(eff.node);
    Effect(f.node, eff.sent + f.sent, eff.notes + f.notes)
  }

  // ----- a client's query

  /** The mapping that serves a query: the one found, or a new one. */
  function Serving(t: PT.Table, addr: SockAddr, client: int, made: Option<SockAddr>): Option<PT.Mapping> {
    var i := PT.Find(t.entries, addr, true, false);
    if i < |t.entries| then Some(t.entries[i])
    else if made.Some? then Some(PT.Fresh(t, addr, made.value, client))
    else None
  }

  function QueryMsg(addr: SockAddr, remote: SockAddr, mapped: SockAddr, handle: nat): Msg {
    var fam := remote.family;
    Msg(Req, fam, handle, ToPeer(fam, remote), ToPeer(fam, addr), ToPeer(fam, mapped))
  }

  /** The rest of a query goes through: a known family, and memory for the message and the tracker. */
  predicate Sendable(remote: SockAddr, luck: Luck) {
    remote.family != Unsupported && luck.buffer && luck.tracker
  }

  /** `process_iwpm_query_mapping`. */
  function OnQuery(d: Node, addr: SockAddr, client: int, remote: SockAddr, peer: Host,
                   made: Option<SockAddr>, luck: Luck): Effect {
    var (ports, outcome) := PT.Apply(d.ports, PT.Query(addr, client, made, Sendable(remote, luck)));
    var m := Serving(d.ports, addr, client, made);
    if !outcome.Took? || m.None? then Effect(d.(ports := ports), [], [])
    else WithReply(d.(ports := ports), StartQuery(d.reqs, m.value, addr, remote, peer, luck))
  }

  function StartQuery(s: seq<TR.Tracker<Out>>, e: PT.Mapping, addr: SockAddr, remote: SockAddr, peer: Host, luck: Luck): Reply {
    var msg := QueryMsg(addr, remote, e.mapped, luck.id);
    var t := TR.Create(luck.id, e.local, remote, 0, TR.Query, Some(Out(peer, msg)));
    Reply([t] + s, Queued(luck.queue, peer, msg), [], None)
  }

  function QueryReply(s: seq<TR.Tracker<Out>>, ok: bool, e: Option<PT.Mapping>, addr: SockAddr, remote: SockAddr,
                      peer: Host, luck: Luck): Reply
    requires ok ==> e.Some?
  {
    if ok then StartQuery(s, e.value, addr, remote, peer, luck) else Reply(s, [], [], None)
  }

  /** A query that takes a reference has a mapping to go with it. */
  lemma QueryEffect(d: Node, addr: SockAddr, client: int, remote: SockAddr, peer: Host, made: Option<SockAddr>, luck: Luck)
    requires d.rest == None
    ensures var (ports, outcome) := PT.Apply(d.ports, PT.Query(addr, client, made, Sendable(remote, luck)));
            var e := Serving(d.ports, addr, client, made);
            && (outcome.Took? ==> e.Some?)
            && var r := QueryReply(d.reqs, outcome.Took?, e, addr, remote, peer, luck);
               OnQuery(d, addr, client, remote, peer, made, luck) == Effect(Node(ports, r.reqs, None), r.sent, r.notes)
  {}

  // ----- messages from the peer

  /** The mapped address an accept carries: all of it, or the asked-for IP address with the
      mapped port when the mapping is a wildcard. */
  function Given(e: PT.Mapping, fam: Family, asked: Peer): Peer {
    if e.Wild() then Peer(asked.ip, Port(e.mapped)) else ToPeer(fam, e.mapped)
  }

  /** `process_iwpm_wire_request`. */
  function OnRequest(d: Node, m: Msg, from: Host, luck: Luck): Effect {
    var i := PT.Find(d.ports.entries, FromPeer(m.fam, m.ap), true, false);
    if i == |d.ports.entries| then Effect(d, Queued(luck.queue, from, m.(mt := Rej)), [])
    else WithReply(d, AcceptRequest(d.reqs, d.ports.entries[i], m, from, luck))
  }

  function AcceptRequest(s: seq<TR.Tracker<Out>>, e: PT.Mapping, m: Msg, from: Host, luck: Luck): Reply {
    var acc := m.(mt := Acc, ap := Given(e, m.fam, m.ap));
    var mappedLocal := FromPeer(m.fam, acc.ap);
    if TR.Find(s, m.handle, mappedLocal, {TR.Accept}) < |s| || !luck.buffer || !luck.tracker then Reply(s, [], [], None)
    else
      var t := TR.Create(luck.id, mappedLocal, FromPeer(m.fam, m.cp), m.handle, TR.Accept, Some(Out(from, acc)));
      var note := RemoteInfo(e.local, FromPeer(m.fam, m.cp), e.mapped, FromPeer(m.fam, m.mcp));
      Reply(s, [], [], Some(Rest(t, Queued(luck.queue, from, acc), if luck.queue && luck.netlink then [note] else [])))
  }

  /** `process_iwpm_wire_accept`. */
  function OnAccept(d: Node, m: Msg, from: Host, luck: Luck): Effect {
    var i := PT.Find(d.ports.entries, FromPeer(m.fam, m.cp), true, true);
    if i == |d.ports.entries| then Effect(d, [], [])
    else WithReply(d, ConcludeQuery(d.reqs, d.ports.entries[i], m, from, luck))
  }

  function ConcludeQuery(s: seq<TR.Tracker<Out>>, e: PT.Mapping, m: Msg, from: Host, luck: Luck): Reply {
    var k := TR.Find(s, m.handle, e.local, {TR.Query, TR.Ack});
    if k == |s| || s[k].complete then Reply(s, [], [], None)
    else
      var copy, reqs, ack := s[k], TR.Updated(s, k), Queued(luck.queue, from, m.(mt := Ackn));
      if copy.kind == TR.Ack then Reply(reqs, ack, [], None)
      else if !luck.netlink then Reply(reqs, [], [], None)
      else
        var note := Result(copy.handle, false, e.local, copy.remote, e.mapped, FromPeer(m.fam, m.ap));
        var t := TR.Create(luck.id, copy.src, copy.remote, copy.handle, TR.Ack, None);
        Reply(reqs, [], [note], if luck.tracker then Some(Rest(t, ack, [])) else None)
  }

  /** `process_iwpm_wire_reject`. */
  function OnReject(d: Node, m: Msg, luck: Luck): Effect {
    var i := PT.Find(d.ports.entries, FromPeer(m.fam, m.cp), true, true);
    if i == |d.ports.entries| then Effect(d, [], [])
    else WithReply(d, RejectQuery(d.reqs, d.ports.entries[i], m, luck))
  }

  function RejectQuery(s: seq<TR.Tracker<Out>>, e: PT.Mapping, m: Msg, luck: Luck): Reply {
    var k := TR.Find(s, m.handle, e.local, {TR.Query});
    if k == |s| || s[k].complete then Reply(s, [], [], None)
    else
      var note := Result(s[k].handle, true, e.local, s[k].remote, e.mapped, s[k].remote);
      Reply(TR.Updated(s, k), [], if luck.netlink then [note] else [], None)
  }

  /** `process_iwpm_wire_ack`. */
  function OnAck(d: Node, m: Msg): Effect {
    var local := FromPeer(m.fam, m.ap);
    if PT.Find(d.ports.entries, local, false, false) == |d.ports.entries| then Effect(d, [], [])
    else Effect(d.(reqs := TR.Updated(d.reqs, TR.Find(d.reqs, m.handle, local, {TR.Accept}))), [], [])
  }

  /** `process_iwpm_msg`. */
  function OnMsg(d: Node, m: Msg, from: Host, luck: Luck): Effect {
    match m.mt
    case Req => OnRequest(d, m, from, luck)
    case Acc => OnAccept(d, m, from, luck)
    case Ackn => OnAck(d, m)
    case Rej => OnReject(d, m, luck)
  }

  // ----- handlers that run through

  function Located(t: PT.Table, a: SockAddr, notMapped: bool, exact: bool): Option<PT.Mapping> {
    var i := PT.Find(t.entries, a, notMapped, exact);
    if i < |t.entries| then Some(t.entries[i]) else None
  }

  function AllReqs(r: Reply): seq<TR.Tracker<Out>> {
    if r.rest.Some? then [r.rest.value.t] + r.reqs else r.reqs
  }

  function AllSent(r: Reply): seq<Out> {
    r.sent + if r.rest.Some? then r.rest.value.sent else []
  }

  function AllNotes(r: Reply): seq<Note> {
    r.notes + if r.rest.Some? then r.rest.value.notes else []
  }

  lemma WholeReply(d: Node, r: Reply)
    ensures Whole(WithReply(d, r)) == Effect(Node(d.ports, AllReqs(r), None), AllSent(r), AllNotes(r))
  {}

  /** The reply to a request, given the mapping found. */
  function RequestReply(s: seq<TR.Tracker<Out>>, e: Option<PT.Mapping>, m: Msg, from: Host, luck: Luck): Reply {
    if e.None? then Reply(s, Queued(luck.queue, from, m.(mt := Rej)), [], None) else AcceptRequest(s, e.value, m, from, luck)
  }

  /** The reply to an accept. */
  function AcceptReply(s: seq<TR.Tracker<Out>>, e: Option<PT.Mapping>, m: Msg, from: Host, luck: Luck): Reply {
    if e.None? then Reply(s, [], [], None) else ConcludeQuery(s, e.value, m, from, luck)
  }

  lemma WholeRequest(d: Node, m: Msg, from: Host, luck: Luck, e: Option<PT.Mapping>, r: Reply)
    requires d.rest == None && e == Located(d.ports, FromPeer(m.fam, m.ap), true, false) && r == RequestReply(d.reqs, e, m, from, luck)
    ensures Whole(OnRequest(d, m, from, luck)) == Effect(Node(d.ports, AllReqs(r), None), AllSent(r), AllNotes(r))
  {
    WholeReply(d, r);
  }

  lemma WholeAccept(d: Node, m: Msg, from: Host, luck: Luck)
    requires d.rest == None
    ensures var r := AcceptReply(d.reqs, Located(d.ports, FromPeer(m.fam, m.cp), true, true), m, from, luck);
            Whole(OnAccept(d, m, from, luck)) == Effect(Node(d.ports, AllReqs(r), None), AllSent(r), AllNotes(r))
  {
    WholeReply(d, AcceptReply(d.reqs, Located(d.ports, FromPeer(m.fam, m.cp), true, true), m, from, luck));
  }

  /** One pass of the timer. */
  function OnTick(d: Node): Effect {
    Effect(d.(reqs := TR.Ticked(d.reqs)), Messages(TR.Resends(d.reqs)), [])
  }

  function Messages(s: seq<TR.Tracker<Out>>): seq<Out> {
    if s == [] then []
    else (if s[0].msg.Some? then [s[0].msg.value] else []) + Messages(s[1..])
  }

  // ----- the daemon as it works

  class Process {
    const table: PL.PortList
    const trackers: TR.TrackerList<Out>
    var pending: seq<Out>
    var notes: seq<Note>

    ghost predicate Valid()
      reads this, table, table.ports
    {
      table.Valid()
    }

    function State(): Node
      reads this, table, table.ports, trackers
    {
      Node(table.View(), trackers.reqs, None)
    }

    constructor ()
      ensures Valid() && State() == Node(PT.EMPTY, [], None) && pending == [] && notes == []
    {
      table := new PL.PortList();
      trackers := new TR.TrackerList<Out>();
      pending, notes := [], [];
    }

    /** `find_iwpm_mapping` or `find_iwpm_same_mapping`: what the entry found holds. */
    method Locate(a: SockAddr, notMapped: bool, exact: bool) returns (e: Option<PT.Mapping>)
      requires Valid()
      ensures e == Located(table.View(), a, notMapped, exact)
    {
      var i := table.Search(a, notMapped, exact);
      e := if i < |table.ports| then Some(table.ports[i].Value()) else None;
    }

    /** `add_iwpm_pending_msg`, unless there is no memory for it. */
    method Send(ok: bool, dst: Host, msg: Msg)
      modifies this
      ensures pending == old(pending) + Queued(ok, dst, msg) && notes == old(notes)
    {
      if ok {
        pending := pending + [Out(dst, msg)];
      }
    }

    /** `process_iwpm_query_mapping`. */
    method Query(addr: SockAddr, client: int, remote: SockAddr, peer: Host,
                 noPortMap: bool, sock: Option<nat>, hostOk: bool, luck: Luck) returns (ok: bool)
      requires Valid()
      modifies this, table, table.ports, trackers
      ensures Valid()
      ensures var eff := OnQuery(old(State()), addr, client, remote, peer, PT.CreateMapped(addr, noPortMap, sock, hostOk), luck);
              State() == eff.node && pending == old(pending) + eff.sent && notes == old(notes) + eff.notes
    {
      var made := PT.CreateMapped(addr, noPortMap, sock, hostOk);
      QueryEffect(State(), addr, client, remote, peer, made, luck);
      var e := Serving(table.View(), addr, client, made);
      ok := table.QueryMapping(addr, client, noPortMap, sock, hostOk, Sendable(remote, luck));
      StartIf(ok, e, addr, remote, peer, luck);
    }

    method StartIf(ok: bool, e: Option<PT.Mapping>, addr: SockAddr, remote: SockAddr, peer: Host, luck: Luck)
      requires ok ==> e.Some?
      modifies this, trackers
      ensures var r := QueryReply(old(trackers.reqs), ok, e, addr, remote, peer, luck);
              trackers.reqs == r.reqs && pending == old(pending) + r.sent && notes == old(notes) + r.notes
    {
      if ok {
        Start(e.value, addr, remote, peer, luck);
      }
    }

    method Start(e: PT.Mapping, addr: SockAddr, remote: SockAddr, peer: Host, luck: Luck)
      modifies this, trackers
      ensures var r := StartQuery(old(trackers.reqs), e, addr, remote, peer, luck);
              trackers.reqs == r.reqs && pending == old(pending) + r.sent && notes == old(notes) + r.notes
    {
      var msg := QueryMsg(addr, remote, e.mapped, luck.id);
      trackers.Post(TR.Create(luck.id, e.local, remote, 0, TR.Query, Some(Out(peer, msg))));
      Send(luck.queue, peer, msg);
    }

    /** `process_iwpm_wire_request`. */
    method WireRequest(m: Msg, from: Host, luck: Luck)
      requires Valid()
      modifies this, trackers
      ensures Valid()
      ensures var eff := Whole(OnRequest(old(State()), m, from, luck));
              State() == eff.node && pending == old(pending) + eff.sent && notes == old(notes) + eff.notes
    {
      var e := Locate(FromPeer(m.fam, m.ap), true, false);
      ghost var r := RequestReply(trackers.reqs, e, m, from, luck);
      WholeRequest(State(), m, from, luck, e, r);
      AnswerRequest(e, m, from, luck, r);
    }

    method AnswerRequest(e: Option<PT.Mapping>, m: Msg, from: Host, luck: Luck, ghost r: Reply)
      requires r == RequestReply(trackers.reqs, e, m, from, luck)
      modifies this, trackers
      ensures trackers.reqs == AllReqs(r) && pending == old(pending) + AllSent(r) && notes == old(notes) + AllNotes(r)
    {
      if e.None? {
        Send(luck.queue, from, m.(mt := Rej));
      } else {
        var rest := Accept(e.value, m, from, luck);
        Finish(rest);
      }
    }

    /** The request up to the point where its tracker is made. */
    method Accept(e: PT.Mapping, m: Msg, from: Host, luck: Luck) returns (rest: Option<Rest>)
      modifies trackers
      ensures AcceptRequest(old(trackers.reqs), e, m, from, luck) == Reply(trackers.reqs, [], [], rest)
    {
      var ap := if e.Wild() then Peer(m.ap.ip, Port(e.mapped)) else ToPeer(m.fam, e.mapped);
      var acc, mappedLocal := m.(mt := Acc, ap := ap), FromPeer(m.fam, ap);
      var copy := trackers.Update(m.handle, mappedLocal, {TR.Accept}, false);
      if copy.Some? || !luck.buffer || !luck.tracker {
        return None;
      }
      var remote := FromPeer(m.fam, m.cp);
      var t := TR.Create(luck.id, mappedLocal, remote, m.handle, TR.Accept, Some(Out(from, acc)));
      var note := RemoteInfo(e.local, remote, e.mapped, FromPeer(m.fam, m.mcp));
      return Some(Rest(t, Queued(luck.queue, from, acc), if luck.queue && luck.netlink then [note] else []));
    }

    /** What the request and accept handlers end with: `add_iwpm_map_request`, the message to
        the peer, and the notice to the client. */
    method Finish(rest: Option<Rest>)
      modifies this, trackers
      ensures rest.None? ==> trackers.reqs == old(trackers.reqs) && pending == old(pending) && notes == old(notes)
      ensures rest.Some? ==> trackers.reqs == [rest.value.t] + old(trackers.reqs)
      ensures rest.Some? ==> pending == old(pending) + rest.value.sent && notes == old(notes) + rest.value.notes
    {
      if rest.Some? {
        trackers.Post(rest.value.t);
        pending := pending + rest.value.sent;
        notes := notes + rest.value.notes;
      }
    }

    /** `process_iwpm_wire_accept`. */
    method WireAccept(m: Msg, from: Host, luck: Luck)
      requires Valid()
      modifies this, trackers
      ensures Valid()
      ensures var eff := Whole(OnAccept(old(State()), m, from, luck));
              State() == eff.node && pending == old(pending) + eff.sent && notes == old(notes) + eff.notes
    {
      WholeAccept(State(), m, from, luck);
      var e := Locate(FromPeer(m.fam, m.cp), true, true);
      AnswerAccept(e, m, from, luck);
    }

    method AnswerAccept(e: Option<PT.Mapping>, m: Msg, from: Host, luck: Luck)
      modifies this, trackers
      ensures var r := AcceptReply(old(trackers.reqs), e, m, from, luck);
              trackers.reqs == AllReqs(r) && pending == old(pending) + AllSent(r) && notes == old(notes) + AllNotes(r)
    {
      if e.Some? {
        var rest := Conclude(e.value, m, from, luck);
        Finish(rest);
      }
    }

    /** The accept up to the point where its tracker is made; the client is told by then. */
    method Conclude(e: PT.Mapping, m: Msg, from: Host, luck: Luck) returns (rest: Option<Rest>)
      modifies this, trackers
      ensures var r := ConcludeQuery(old(trackers.reqs), e, m, from, luck);
              && trackers.reqs == r.reqs && rest == r.rest
              && pending == old(pending) + r.sent && notes == old(notes) + r.notes
    {
      var copy := trackers.Update(m.handle, e.local, {TR.Query, TR.Ack}, true);
      rest := None;
      if copy.None? || copy.value.complete {
        return;
      }
      var c := copy.value;
      if c.kind == TR.Ack {
        Send(luck.queue, from, m.(mt := Ackn));
      } else if luck.netlink {
        notes := notes + [Result(c.handle, false, e.local, c.remote, e.mapped, FromPeer(m.fam, m.ap))];
        if luck.tracker {
          var t := TR.Create(luck.id, c.src, c.remote, c.handle, TR.Ack, None);
          rest := Some(Rest(t, Queued(luck.queue, from, m.(mt := Ackn)), []));
        }
      }
    }

    /** `process_iwpm_wire_reject`. */
    method WireReject(m: Msg, luck: Luck)
      requires Valid()
      modifies this, trackers
      ensures Valid()
      ensures var eff := OnReject(old(State()), m, luck);
              State() == eff.node && pending == old(pending) + eff.sent && notes == old(notes) + eff.notes
    {
      var e := Locate(FromPeer(m.fam, m.cp), true, true);
      if e.Some? {
        Refuse(e.value, m, luck);
      }
    }

    method Refuse(e: PT.Mapping, m: Msg, luck: Luck)
      modifies this, trackers
      ensures var r := RejectQuery(old(trackers.reqs), e, m, luck);
              trackers.reqs == r.reqs && pending == old(pending) + r.sent && notes == old(notes) + r.notes
    {
      var copy := trackers.Update(m.handle, e.local, {TR.Query}, true);
      if copy.Some? && !copy.value.complete && luck.netlink {
        var c := copy.value;
        notes := notes + [Result(c.handle, true, e.local, c.remote, e.mapped, c.remote)];
      }
    }

    /** `process_iwpm_wire_ack`. */
    method WireAck(m: Msg)
      requires Valid()
      modifies trackers
      ensures Valid() && State() == OnAck(old(State()), m).node
    {
      var local := FromPeer(m.fam, m.ap);
      var found := Locate(local, false, false);
      if found.Some? {
        var _ := trackers.Update(m.handle, local, {TR.Accept}, true);
      }
    }

    /** One pass of `iwpm_mapping_reqs_handler`, which queues messages again as it goes. */
    method Second()
      requires Valid()
      modifies this, trackers
      ensures Valid()
      ensures var eff := OnTick(old(State()));
              State() == eff.node && pending == old(pending) + eff.sent && notes == old(notes)
    {
      var resent := trackers.Tick();
      pending := pending + Messages(resent);
    }
  }
}
