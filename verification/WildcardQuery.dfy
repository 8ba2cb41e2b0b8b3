/** A query from a wildcard address of the other family than the address asked about: its client
    is told another local address than it asked from. The IPv4 part of that address, which is
    no wildcard, is what the messages carry. */
module WildcardQuery {
  import opened Addr
  import opened Options
  import opened Daemon
  import opened Network
  import PT = PortTable
  import TR = Trackers

  const THERE := SockAddr(Inet, 5, 1, 0)
  const THERE_MAPPED := SockAddr(Inet, 6, 1, 0)
  const LOCAL := SockAddr(Inet, 7, 10, 0)
  const LOCAL_MAPPED := SockAddr(Inet, 8, 10, 0)

  /** The address `::` and port 7, with 10 where an IPv4 address would be. */
  const FROM := SockAddr(Inet6, 7, 10, 0)

  const LUCK := Luck(true, true, true, true, 1)

  const REQUEST := Msg(Req, Inet, 1, Peer(1, 5), Peer(10, 7), Peer(10, 8))
  const ACCEPT := Msg(Acc, Inet, 1, Peer(1, 6), Peer(10, 7), Peer(10, 8))

  const SERVER := PT.Mapping(0, THERE, THERE_MAPPED, 1, 1)

  function Client(refs: int): PT.Mapping { PT.Mapping(1, LOCAL, LOCAL_MAPPED, 1, refs) }

  function Ports(refs: int): PT.Table { PT.Table([Client(refs), SERVER], 2) }

  const QUERY: TR.Tracker<Out> := TR.Tracker(1, LOCAL, THERE, 1, TR.Query, Some(Out(0, REQUEST)), 10, false)
  const WAITING: TR.Tracker<Out> := TR.Tracker(1, THERE_MAPPED, LOCAL, 1, TR.Accept, Some(Out(0, ACCEPT)), 10, false)

  const REST := Rest(WAITING, [Out(0, ACCEPT)], [RemoteInfo(THERE, LOCAL, THERE_MAPPED, LOCAL_MAPPED)])

  const TOLD := Result(1, false, LOCAL, THERE, LOCAL_MAPPED, THERE_MAPPED)

  lemma Adds()
    ensures PT.Apply(PT.EMPTY, PT.Add(THERE, 1, Some(THERE_MAPPED), true)).0 == PT.Table([SERVER], 1)
    ensures PT.Apply(PT.Table([SERVER], 1), PT.Add(LOCAL, 1, Some(LOCAL_MAPPED), true)).0 == Ports(1)
  {
    assert [SERVER][1..] == [];
  }

  lemma Asks(d: Node)
    requires d == Node(Ports(1), [], None)
    ensures OnQuery(d, FROM, 1, THERE, 0, None, LUCK) == Effect(Node(Ports(2), [QUERY], None), [Out(0, REQUEST)], [])
  {
    assert PT.Find(d.ports.entries, FROM, true, false) == 0;
  }

  lemma Requests(d: Node)
    requires d == Node(Ports(2), [QUERY], None)
    ensures OnMsg(d, REQUEST, 0, LUCK) == Effect(d.(rest := Some(REST)), [], [])
  {
    var s := d.ports.entries;
    assert s[1..] == [SERVER] && d.reqs[1..] == [];
    assert FromPeer(Inet, REQUEST.ap) == THERE && PT.Find(s, THERE, true, false) == 1;
  }

  lemma Accepts(d: Node)
    requires d == Node(Ports(2), [WAITING, QUERY], None)
    ensures OnMsg(d, ACCEPT, 0, LUCK).notes == [TOLD]
  {
    assert d.reqs[1..] == [QUERY];
    assert FromPeer(Inet, ACCEPT.cp) == LOCAL && PT.Find(d.ports.entries, LOCAL, true, true) == 0;
    assert TR.Find(d.reqs, 1, LOCAL, {TR.Query, TR.Ack}) == 1;
  }

  lemma Goes(run: seq<World>, steps: seq<Step>, w: World, s: Step, eff: Effect) returns (run': seq<World>, steps': seq<Step>, w': World)
    requires IsRun(run, steps) && run[|steps|] == w && |w.nodes| == 1 && Possible(w, s) && StepEffect(w, s) == eff
    ensures IsRun(run', steps') && run'[|steps'|] == w' && w' == Next(w, s)
    ensures w'.nodes == [eff.node] && w'.log == w.log + Tagged(0, eff.notes)
    ensures w.net <= w'.net && forall o <- eff.sent :: Packet(0, o.dst, o.msg) in w'.net
  {
    w' := Next(w, s);
    run', steps' := run + [w'], steps + [s];
    forall i | 0 <= i < |steps'| ensures IsStep(run'[i], steps'[i], run'[i + 1]) {
      if i < |steps| { assert IsStep(run[i], steps[i], run[i + 1]); }
    }
  }

  /** The two mappings and the query. */
  lemma Asking() returns (run: seq<World>, steps: seq<Step>, w: World)
    ensures IsRun(run, steps) && run[|steps|] == w && w.nodes == [Node(Ports(2), [QUERY], None)] && w.log == []
    ensures Packet(0, 0, REQUEST) in w.net
    ensures (0, 1) in w.asked && w.asked[(0, 1)].from == FROM
  {
    w := World([Node(PT.EMPTY, [], None)], {}, [], map[], {});
    run, steps := [w], [];
    Adds();
    run, steps, w := Goes(run, steps, w, Manage(0, PT.Add(THERE, 1, Some(THERE_MAPPED), true)), Effect(Node(PT.Table([SERVER], 1), [], None), [], []));
    run, steps, w := Goes(run, steps, w, Manage(0, PT.Add(LOCAL, 1, Some(LOCAL_MAPPED), true)), Effect(Node(Ports(1), [], None), [], []));
    assert w.asked == map[];
    Asks(w.nodes[0]);
    run, steps, w := Goes(run, steps, w, Ask(0, FROM, 1, THERE, 0, None, LUCK), Effect(Node(Ports(2), [QUERY], None), [Out(0, REQUEST)], []));
  }

  /** The run: a success is told for a local address that is not the one asked from. */
  lemma OtherLocal() returns (run: seq<World>, steps: seq<Step>, i: nat)
    ensures IsRun(run, steps) && i < |run[|steps|].log|
    ensures var w := run[|steps|];
            var note := w.log[i].1;
            && note.Result? && !note.rejected && (w.log[i].0, note.handle) in w.asked
            && Wildcard(w.asked[(w.log[i].0, note.handle)].from) && !Same(note.local, w.asked[(w.log[i].0, note.handle)].from)
  {
    var w;
    run, steps, w := Asking();
    Requests(w.nodes[0]);
    run, steps, w := Goes(run, steps, w, Deliver(Packet(0, 0, REQUEST), LUCK), Effect(Node(Ports(2), [QUERY], Some(REST)), [], []));
    run, steps, w := Goes(run, steps, w, Finish(0), Effect(Node(Ports(2), [WAITING, QUERY], None), REST.sent, REST.notes));
    assert Out(0, ACCEPT) in REST.sent;
    Accepts(w.nodes[0]);
    i := |w.log|;
    run, steps, w := Goes(run, steps, w, Deliver(Packet(0, 0, ACCEPT), LUCK), OnMsg(w.nodes[0], ACCEPT, 0, LUCK));
  }
}
