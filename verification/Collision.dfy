/** When the order of the handshake holds peer by peer: exactly when no two hosts may ask one
    daemon with the same association handle. If two may, there is a run in which the
    acknowledgement of one completes the accept tracker of the other. */
module Collision {
  import opened Addr
  import opened Options
  import opened Daemon
  import opened Network
  import opened Handshake
  import PT = PortTable
  import TR = Trackers

  /** Hosts `a` and `b` both ask host `p`, which may be one of them, with the same handle. */
  datatype Cast = Cast(a: Host, b: Host, p: Host, handle: nat)

  // ----- what they ask about, and what they say

  const HERE := SockAddr(Inet, 5, 1, 0)
  const HERE_MAPPED := SockAddr(Inet, 6, 1, 0)
  const ASKING_PORT: nat := 7

  function Local(h: Host): SockAddr { SockAddr(Inet, ASKING_PORT, 10 + h, 0) }

  function Mapped(h: Host): SockAddr { SockAddr(Inet, 8, 10 + h, 0) }

  function Lucky(id: nat): Luck { Luck(true, true, true, true, id) }

  function Request(h: Host, handle: nat): Msg {
    Msg(Req, Inet, handle, Peer(1, 5), Peer(10 + h, ASKING_PORT), Peer(10 + h, 8))
  }

  function Accepted(h: Host, handle: nat): Msg { Request(h, handle).(mt := Acc, ap := Peer(1, 6)) }

  function Acknowledged(h: Host, handle: nat): Msg { Accepted(h, handle).(mt := Ackn) }

  function Asks(h: Host, p: Host, handle: nat): Step {
    Ask(h, Local(h), 1, HERE, p, Some(Mapped(h)), Lucky(handle))
  }

  function Query(h: Host, p: Host, handle: nat): TR.Tracker<Out> {
    TR.Tracker(handle, Local(h), HERE, handle, TR.Query, Some(Out(p, Request(h, handle))), 10, false)
  }

  function Waiting(h: Host, handle: nat): TR.Tracker<Out> {
    TR.Tracker(20, HERE_MAPPED, Local(h), handle, TR.Accept, Some(Out(h, Accepted(h, handle))), 10, false)
  }

  function ToAccept(h: Host, handle: nat): Rest {
    Rest(Waiting(h, handle), [Out(h, Accepted(h, handle))], [RemoteInfo(HERE, Local(h), HERE_MAPPED, Mapped(h))])
  }

  // ----- what a node must have for each message to do its part

  /** The table serves the address asked about. */
  predicate Serves(s: seq<PT.Mapping>) {
    var i := PT.Find(s, HERE, true, false);
    && i < |s| && s[i].local == HERE && s[i].mapped == HERE_MAPPED
    && PT.Find(s, HERE_MAPPED, false, false) < |s|
  }

  /** The table has nothing on the port from which hosts ask. */
  ghost predicate Clear(s: seq<PT.Mapping>) {
    forall i :: 0 <= i < |s| ==> Port(s[i].local) != ASKING_PORT
  }

  /** The table has the mapping of a host that asked. */
  predicate Asked(s: seq<PT.Mapping>, h: Host) {
    var i := PT.Find(s, Local(h), true, true);
    i < |s| && s[i].local == Local(h)
  }

  /** The query of host `h` is the first that an accept for it would find. */
  predicate Open(s: seq<TR.Tracker<Out>>, h: Host, handle: nat) {
    var k := TR.Find(s, handle, Local(h), {TR.Query, TR.Ack});
    k < |s| && s[k].kind == TR.Query && !s[k].complete
  }

  ghost predicate NoAccept(s: seq<TR.Tracker<Out>>) {
    forall i :: 0 <= i < |s| ==> s[i].kind != TR.Accept
  }

  /** The only accept tracker is `s[k]`, and it waits for an acknowledgement. */
  ghost predicate OneAccept(s: seq<TR.Tracker<Out>>, k: nat, handle: nat) {
    && k < |s| && s[k].kind == TR.Accept && s[k].handle == handle && s[k].src == HERE_MAPPED && !s[k].complete
    && forall i :: 0 <= i < |s| && i != k ==> s[i].kind != TR.Accept
  }

  lemma ServesCons(e: PT.Mapping, s: seq<PT.Mapping>, h: Host)
    requires Serves(s) && e.local == Local(h) && e.mapped == Mapped(h)
    ensures Serves([e] + s)
  {
    assert ([e] + s)[1..] == s;
  }

  lemma NoAcceptTicked(s: seq<TR.Tracker<Out>>)
    requires forall i :: 0 <= i < |s| && s[i].kind == TR.Accept ==> s[i].timeout == 0
    ensures NoAccept(TR.Ticked(s))
  {
    forall i | 0 <= i < |TR.Ticked(s)| ensures TR.Ticked(s)[i].kind != TR.Accept {
      var j := TR.TickOrigin(s, i);
    }
  }

  // ----- what each message does to such a node

  lemma AskDoes(d: Node, h: Host, p: Host, handle: nat)
    requires d.rest == None && Clear(d.ports.entries) && handle > 0
    ensures var eff := OnQuery(d, Local(h), 1, HERE, p, Some(Mapped(h)), Lucky(handle));
            && eff.sent == [Out(p, Request(h, handle))] && eff.notes == [] && eff.node.rest == None
            && eff.node.reqs == [Query(h, p, handle)] + d.reqs
            && eff.node.ports.entries == [PT.Fresh(d.ports, Local(h), Mapped(h), 1)] + d.ports.entries
  {
    var i := PT.Find(d.ports.entries, Local(h), true, false);
    assert i == |d.ports.entries|;
  }

  /** The host that asks can be answered, and goes on serving if it did. */
  lemma AskLeaves(d: Node, h: Host, p: Host, handle: nat)
    requires d.rest == None && Clear(d.ports.entries) && handle > 0
    ensures var d' := OnQuery(d, Local(h), 1, HERE, p, Some(Mapped(h)), Lucky(handle)).node;
            && Asked(d'.ports.entries, h) && Open(d'.reqs, h, handle)
            && (Serves(d.ports.entries) ==> Serves(d'.ports.entries)) && (NoAccept(d.reqs) ==> NoAccept(d'.reqs))
  {
    AskDoes(d, h, p, handle);
    var s := [Query(h, p, handle)] + d.reqs;
    if Serves(d.ports.entries) { ServesCons(PT.Fresh(d.ports, Local(h), Mapped(h), 1), d.ports.entries, h); }
    forall j | 0 < j < |s| ensures s[j] == d.reqs[j - 1] {}
  }

  lemma RequestDoes(d: Node, h: Host, handle: nat)
    requires Serves(d.ports.entries) && NoAccept(d.reqs) && handle > 0
    ensures OnRequest(d, Request(h, handle), h, Lucky(20)) == Effect(d.(rest := Some(ToAccept(h, handle))), [], [])
  {
    assert FromPeer(Inet, Request(h, handle).ap) == HERE;
  }

  lemma AcceptDoes(d: Node, h: Host, p: Host, handle: nat)
    requires d.rest == None && Asked(d.ports.entries, h) && Open(d.reqs, h, handle)
    ensures var eff := OnAccept(d, Accepted(h, handle), p, Lucky(21));
            var k := TR.Find(d.reqs, handle, Local(h), {TR.Query, TR.Ack});
            && eff.sent == [] && eff.node.ports == d.ports && eff.node.reqs == TR.Updated(d.reqs, k)
            && eff.node.rest.Some? && eff.node.rest.value.t.kind == TR.Ack && eff.node.rest.value.notes == []
            && eff.node.rest.value.sent == [Out(p, Acknowledged(h, handle))]
  {
    assert FromPeer(Inet, Accepted(h, handle).cp) == Local(h);
  }

  lemma AckDoes(d: Node, h: Host, handle: nat, k: nat)
    requires Serves(d.ports.entries) && OneAccept(d.reqs, k, handle)
    ensures OnAck(d, Acknowledged(h, handle)) == Effect(d.(reqs := d.reqs[k := TR.Serviced(d.reqs[k])]), [], [])
  {
    assert FromPeer(Inet, Acknowledged(h, handle).ap) == HERE_MAPPED;
    TR.FindIs(d.reqs, handle, HERE_MAPPED, {TR.Accept}, k);
  }

  // ----- the run

  /** Which hosts may use which handles toward which daemons. */
  type Rule = (Host, nat, Host) -> bool

  ghost predicate Obeys(w: World, allowed: Rule) {
    forall k <- w.asked :: allowed(k.0, k.1, w.asked[k].peer)
  }

  /** Host `b` has given its client no result. */
  ghost predicate Silent(w: World, b: Host) {
    forall i :: 0 <= i < |w.log| && w.log[i].0 == b ==> !w.log[i].1.Result?
  }

  predicate Fits(c: Cast, n: nat, allowed: Rule) {
    && c.a < n && c.b < n && c.p < n && c.a != c.b && c.handle > 0
    && allowed(c.a, c.handle, c.p) && allowed(c.b, c.handle, c.p)
  }

  /** A run with `n` hosts that obeys the rule so far and in which `b` is silent. */
  ghost predicate Reaches(run: seq<World>, steps: seq<Step>, c: Cast, n: nat, allowed: Rule, w: World) {
    && IsRun(run, steps) && run[|steps|] == w && |w.nodes| == n && Fits(c, n, allowed)
    && Obeys(w, allowed) && Silent(w, c.b)
  }

  ghost predicate Harmless(s: Step, c: Cast, eff: Effect) {
    StepHost(s) == c.b ==> forall i :: 0 <= i < |eff.notes| ==> !eff.notes[i].Result?
  }

  /** One more step, and what it leaves of what was known. */
  lemma Advance(run: seq<World>, steps: seq<Step>, c: Cast, n: nat, allowed: Rule, w: World, s: Step)
    returns (run': seq<World>, steps': seq<Step>, w': World)
    requires Reaches(run, steps, c, n, allowed, w) && Possible(w, s) && Harmless(s, c, StepEffect(w, s))
    requires s.Ask? ==> allowed(s.h, s.luck.id, s.peer)
    ensures Reaches(run', steps', c, n, allowed, w') && w' == Next(w, s)
  {
    w' := Next(w, s);
    run', steps' := run + [w'], steps + [s];
    forall i | 0 <= i < |steps'| ensures IsStep(run'[i], steps'[i], run'[i + 1]) {
      if i < |steps| { assert IsStep(run[i], steps[i], run[i + 1]); }
    }
  }

  /** What the next world has, in terms of the effect. */
  lemma NextHas(w: World, s: Step, eff: Effect)
    requires Possible(w, s) && eff == StepEffect(w, s)
    ensures var h, w' := StepHost(s), Next(w, s);
            && w'.nodes == w.nodes[h := eff.node] && w.net <= w'.net
            && (forall o <- eff.sent :: Packet(h, o.dst, o.msg) in w'.net)
            && (forall k <- w'.asked :: k in w.asked || (s.Ask? && k == (s.h, s.luck.id)))
  {
    var h := StepHost(s);
    forall o <- eff.sent ensures Packet(h, o.dst, o.msg) in Packets(h, eff.sent) {}
  }

  lemma OpenCons(t: TR.Tracker<Out>, s: seq<TR.Tracker<Out>>, h: Host, handle: nat)
    requires Open(s, h, handle) && t.kind == TR.Accept
    ensures Open([t] + s, h, handle)
  {
    assert ([t] + s)[1..] == s;
  }

  lemma OneAcceptCons(t: TR.Tracker<Out>, s: seq<TR.Tracker<Out>>, k: nat, handle: nat)
    requires OneAccept(s, k, handle) && t.kind != TR.Accept
    ensures OneAccept([t] + s, k + 1, handle)
  {
    forall j | 0 < j < |[t] + s| ensures ([t] + s)[j] == s[j - 1] {}
  }

  lemma FirstAccept(h: Host, handle: nat, s: seq<TR.Tracker<Out>>)
    requires NoAccept(s)
    ensures OneAccept([Waiting(h, handle)] + s, 0, handle)
  {
    forall j | 0 < j < |[Waiting(h, handle)] + s| ensures ([Waiting(h, handle)] + s)[j] == s[j - 1] {}
  }

  /** No handler is under way, except perhaps at host `h`. */
  ghost predicate IdleBut(w: World, h: Host) {
    forall g :: 0 <= g < |w.nodes| && g != h ==> w.nodes[g].rest == None
  }

  ghost predicate Idle(w: World) {
    forall g :: 0 <= g < |w.nodes| ==> w.nodes[g].rest == None
  }

  /** Host `h` has not asked yet. */
  ghost predicate Unasked(w: World, h: Host, handle: nat)
    requires h < |w.nodes|
  {
    Clear(w.nodes[h].ports.entries) && (h, handle) !in w.asked
  }

  /** Host `p` serves, and `b` has yet to ask. */
  ghost predicate Stage(w: World, c: Cast) {
    && c.a < |w.nodes| && c.b < |w.nodes| && c.p < |w.nodes| && c.a != c.b
    && Serves(w.nodes[c.p].ports.entries) && Unasked(w, c.b, c.handle)
  }

  /** Host `a` has asked and has no answer. */
  ghost predicate Seeks(w: World, c: Cast)
    requires c.a < |w.nodes|
  {
    Asked(w.nodes[c.a].ports.entries, c.a) && Open(w.nodes[c.a].reqs, c.a, c.handle)
  }

  lemma Opening(c: Cast, n: nat, allowed: Rule) returns (run: seq<World>, steps: seq<Step>, w: World)
    requires Fits(c, n, allowed)
    ensures Reaches(run, steps, c, n, allowed, w) && Stage(w, c) && Idle(w)
    ensures Unasked(w, c.a, c.handle) && NoAccept(w.nodes[c.p].reqs)
  {
    var w0 := World(seq(n, i => Node(PT.EMPTY, [], None)), {}, [], map[], {});
    var s := Manage(c.p, PT.Add(HERE, 1, Some(HERE_MAPPED), true));
    run, steps, w := Advance([w0], [], c, n, allowed, w0, s);
    NextHas(w0, s, StepEffect(w0, s));
    ServerMade();
  }

  lemma ServerMade()
    ensures var s := PT.Apply(PT.EMPTY, PT.Add(HERE, 1, Some(HERE_MAPPED), true)).0.entries;
            Serves(s) && Clear(s)
  {}

  /** Host `h` asks; `p` goes on serving. */
  lemma Asking(run: seq<World>, steps: seq<Step>, c: Cast, n: nat, allowed: Rule, w: World, h: Host)
    returns (run': seq<World>, steps': seq<Step>, w': World)
    requires Reaches(run, steps, c, n, allowed, w) && Idle(w) && h < |w.nodes| && Unasked(w, h, c.handle)
    requires allowed(h, c.handle, c.p) && Serves(w.nodes[c.p].ports.entries) && NoAccept(w.nodes[c.p].reqs)
    ensures Reaches(run', steps', c, n, allowed, w') && Idle(w') && Serves(w'.nodes[c.p].ports.entries)
    ensures NoAccept(w'.nodes[c.p].reqs) && Packet(h, c.p, Request(h, c.handle)) in w'.net && w.net <= w'.net
    ensures Asked(w'.nodes[h].ports.entries, h) && Open(w'.nodes[h].reqs, h, c.handle)
    ensures forall g :: 0 <= g < n && g != h && Unasked(w, g, c.handle) ==> Unasked(w', g, c.handle)
  {
    var d, s := w.nodes[h], Asks(h, c.p, c.handle);
    AskDoes(d, h, c.p, c.handle);
    AskLeaves(d, h, c.p, c.handle);
    var eff := StepEffect(w, s);
    assert eff.sent[0] in eff.sent;
    run', steps', w' := Advance(run, steps, c, n, allowed, w, s);
    NextHas(w, s, eff);
  }

  /** The request of host `h` reaches `p`, whose handler gets as far as the tracker. */
  lemma Requesting(run: seq<World>, steps: seq<Step>, c: Cast, n: nat, allowed: Rule, w: World, h: Host)
    returns (run': seq<World>, steps': seq<Step>, w': World)
    requires Reaches(run, steps, c, n, allowed, w) && Idle(w) && Packet(h, c.p, Request(h, c.handle)) in w.net
    requires Serves(w.nodes[c.p].ports.entries) && NoAccept(w.nodes[c.p].reqs)
    ensures Reaches(run', steps', c, n, allowed, w') && IdleBut(w', c.p) && w.net <= w'.net && w'.asked == w.asked
    ensures w'.nodes == w.nodes[c.p := w.nodes[c.p].(rest := Some(ToAccept(h, c.handle)))]
  {
    var s := Deliver(Packet(h, c.p, Request(h, c.handle)), Lucky(20));
    RequestDoes(w.nodes[c.p], h, c.handle);
    run', steps', w' := Advance(run, steps, c, n, allowed, w, s);
    NextHas(w, s, StepEffect(w, s));
  }

  /** Then it posts the tracker and sends the accept. */
  lemma Accepting(run: seq<World>, steps: seq<Step>, c: Cast, n: nat, allowed: Rule, w: World, h: Host)
    returns (run': seq<World>, steps': seq<Step>, w': World)
    requires Reaches(run, steps, c, n, allowed, w) && IdleBut(w, c.p)
    requires w.nodes[c.p].rest == Some(ToAccept(h, c.handle)) && NoAccept(w.nodes[c.p].reqs)
    ensures Reaches(run', steps', c, n, allowed, w') && Idle(w') && w.net <= w'.net && w'.asked == w.asked
    ensures Packet(c.p, h, Accepted(h, c.handle)) in w'.net && OneAccept(w'.nodes[c.p].reqs, 0, c.handle)
    ensures w'.nodes == w.nodes[c.p := Node(w.nodes[c.p].ports, [Waiting(h, c.handle)] + w.nodes[c.p].reqs, None)]
  {
    var s := Finish(c.p);
    var eff := StepEffect(w, s);
    assert eff.sent[0] in eff.sent;
    FirstAccept(h, c.handle, w.nodes[c.p].reqs);
    run', steps', w' := Advance(run, steps, c, n, allowed, w, s);
    NextHas(w, s, eff);
  }

  /** The acknowledgement of host `a` reaches `p` and completes the tracker that waits. */
  lemma Acknowledging(run: seq<World>, steps: seq<Step>, c: Cast, n: nat, allowed: Rule, w: World, k: nat)
    returns (run': seq<World>, steps': seq<Step>, w': World)
    requires Reaches(run, steps, c, n, allowed, w) && Idle(w) && Packet(c.a, c.p, Acknowledged(c.a, c.handle)) in w.net
    requires Serves(w.nodes[c.p].ports.entries) && OneAccept(w.nodes[c.p].reqs, k, c.handle)
    ensures Reaches(run', steps', c, n, allowed, w') && Idle(w') && w.net <= w'.net && w'.asked == w.asked
    ensures var d := w.nodes[c.p];
            w'.nodes == w.nodes[c.p := d.(reqs := d.reqs[k := TR.Serviced(d.reqs[k])])]
  {
    var s := Deliver(Packet(c.a, c.p, Acknowledged(c.a, c.handle)), Lucky(22));
    AckDoes(w.nodes[c.p], c.a, c.handle, k);
    run', steps', w' := Advance(run, steps, c, n, allowed, w, s);
    NextHas(w, s, StepEffect(w, s));
  }

  lemma OneAcceptUpdated(s: seq<TR.Tracker<Out>>, k: nat, handle: nat, j: nat)
    requires OneAccept(s, k, handle) && j <= |s| && (j < |s| ==> s[j].kind != TR.Accept)
    ensures OneAccept(TR.Updated(s, j), k, handle)
  {}

  /** The accept reaches host `a`, which tells its client. */
  lemma Concluding(run: seq<World>, steps: seq<Step>, c: Cast, n: nat, allowed: Rule, w: World)
    returns (run': seq<World>, steps': seq<Step>, w': World)
    requires Reaches(run, steps, c, n, allowed, w) && Idle(w) && Stage(w, c) && Seeks(w, c)
    requires Packet(c.p, c.a, Accepted(c.a, c.handle)) in w.net && OneAccept(w.nodes[c.p].reqs, 0, c.handle)
    ensures Reaches(run', steps', c, n, allowed, w') && IdleBut(w', c.a) && Stage(w', c)
    ensures OneAccept(w'.nodes[c.p].reqs, 0, c.handle)
    ensures var r := w'.nodes[c.a].rest;
            r.Some? && r.value.t.kind == TR.Ack && r.value.notes == [] && r.value.sent == [Out(c.p, Acknowledged(c.a, c.handle))]
  {
    var d, s := w.nodes[c.a], Deliver(Packet(c.p, c.a, Accepted(c.a, c.handle)), Lucky(21));
    AcceptDoes(d, c.a, c.p, c.handle);
    if c.a == c.p { OneAcceptUpdated(d.reqs, 0, c.handle, TR.Find(d.reqs, c.handle, Local(c.a), {TR.Query, TR.Ack})); }
    run', steps', w' := Advance(run, steps, c, n, allowed, w, s);
    NextHas(w, s, StepEffect(w, s));
  }

  /** Then it posts its tracker and acknowledges. */
  lemma Closing(run: seq<World>, steps: seq<Step>, c: Cast, n: nat, allowed: Rule, w: World)
    returns (run': seq<World>, steps': seq<Step>, w': World, k: nat)
    requires Reaches(run, steps, c, n, allowed, w) && IdleBut(w, c.a) && Stage(w, c) && OneAccept(w.nodes[c.p].reqs, 0, c.handle)
    requires var r := w.nodes[c.a].rest;
             r.Some? && r.value.t.kind == TR.Ack && r.value.notes == [] && r.value.sent == [Out(c.p, Acknowledged(c.a, c.handle))]
    ensures Reaches(run', steps', c, n, allowed, w') && Idle(w') && Stage(w', c)
    ensures OneAccept(w'.nodes[c.p].reqs, k, c.handle) && Packet(c.a, c.p, Acknowledged(c.a, c.handle)) in w'.net
  {
    var d, s := w.nodes[c.a], Finish(c.a);
    var eff := StepEffect(w, s);
    assert eff.sent[0] in eff.sent;
    k := if c.a == c.p then 1 else 0;
    if c.a == c.p { OneAcceptCons(d.rest.value.t, d.reqs, 0, c.handle); }
    run', steps', w' := Advance(run, steps, c, n, allowed, w, s);
    NextHas(w, s, eff);
  }

  /** The timer of `p` reaps the completed tracker. */
  lemma Reaping(run: seq<World>, steps: seq<Step>, c: Cast, n: nat, allowed: Rule, w: World)
    returns (run': seq<World>, steps': seq<Step>, w': World)
    requires Reaches(run, steps, c, n, allowed, w) && Idle(w) && Stage(w, c)
    requires forall i :: 0 <= i < |w.nodes[c.p].reqs| && w.nodes[c.p].reqs[i].kind == TR.Accept ==> w.nodes[c.p].reqs[i].timeout == 0
    ensures Reaches(run', steps', c, n, allowed, w') && Idle(w') && Stage(w', c) && w.net <= w'.net
    ensures NoAccept(w'.nodes[c.p].reqs)
  {
    NoAcceptTicked(w.nodes[c.p].reqs);
    run', steps', w' := Advance(run, steps, c, n, allowed, w, Second(c.p));
    NextHas(w, Second(c.p), StepEffect(w, Second(c.p)));
  }

  /** The handshake of host `a`, up to the accept. */
  lemma Approach(c: Cast, n: nat, allowed: Rule) returns (run: seq<World>, steps: seq<Step>, w: World)
    requires Fits(c, n, allowed)
    ensures Reaches(run, steps, c, n, allowed, w) && Idle(w) && Stage(w, c) && Seeks(w, c)
    ensures Packet(c.p, c.a, Accepted(c.a, c.handle)) in w.net && OneAccept(w.nodes[c.p].reqs, 0, c.handle)
  {
    run, steps, w := Opening(c, n, allowed);
    run, steps, w := Asking(run, steps, c, n, allowed, w, c.a);
    run, steps, w := Requesting(run, steps, c, n, allowed, w, c.a);
    if c.a == c.p { OpenCons(Waiting(c.a, c.handle), w.nodes[c.p].reqs, c.a, c.handle); }
    run, steps, w := Accepting(run, steps, c, n, allowed, w, c.a);
  }

  /** The whole handshake of host `a`, after which its acknowledgement is still about. */
  lemma Handshakes(c: Cast, n: nat, allowed: Rule) returns (run: seq<World>, steps: seq<Step>, w: World)
    requires Fits(c, n, allowed)
    ensures Reaches(run, steps, c, n, allowed, w) && Idle(w) && Stage(w, c)
    ensures NoAccept(w.nodes[c.p].reqs) && Packet(c.a, c.p, Acknowledged(c.a, c.handle)) in w.net
  {
    var k;
    run, steps, w := Approach(c, n, allowed);
    run, steps, w := Concluding(run, steps, c, n, allowed, w);
    run, steps, w, k := Closing(run, steps, c, n, allowed, w);
    run, steps, w := Acknowledging(run, steps, c, n, allowed, w, k);
    run, steps, w := Reaping(run, steps, c, n, allowed, w);
  }

  /** Whenever two hosts may ask a daemon with one handle, there is a run at whose end that
      daemon has a completed accept tracker for one of them that has given its client no result. */
  lemma HandlesCollide(c: Cast, n: nat, allowed: Rule) returns (run: seq<World>, steps: seq<Step>)
    requires Fits(c, n, allowed)
    ensures IsRun(run, steps) && |run[|steps|].nodes| == n && Obeys(run[|steps|], allowed)
    ensures !PeerOrdered(run[|steps|], c.p) && Silent(run[|steps|], c.b)
    ensures exists t <- run[|steps|].nodes[c.p].reqs :: t.kind == TR.Accept && t.complete && t.handle == c.handle && t.msg.Some? && t.msg.value.dst == c.b
  {
    var w;
    run, steps, w := Handshakes(c, n, allowed);
    run, steps, w := Asking(run, steps, c, n, allowed, w, c.b);
    run, steps, w := Requesting(run, steps, c, n, allowed, w, c.b);
    run, steps, w := Accepting(run, steps, c, n, allowed, w, c.b);
    run, steps, w := Acknowledging(run, steps, c, n, allowed, w, 0);
    var t := w.nodes[c.p].reqs[0];
    assert t.kind == TR.Accept && t.complete && t.msg.value.dst == c.b;
    assert !Succeeded(w, c.b, t.handle);
  }

  // ----- the exact condition

  ghost predicate AlwaysPeerOrdered(n: nat, allowed: Rule) {
    forall run: seq<World>, steps: seq<Step> :: IsRun(run, steps) && |run[|steps|].nodes| == n && Obeys(run[|steps|], allowed) ==>
      forall p :: 0 <= p < n ==> PeerOrdered(run[|steps|], p)
  }

  /** No two hosts may ask one daemon with the same handle. */
  ghost predicate Distinguishes(n: nat, allowed: Rule) {
    forall c: Cast :: !Fits(c, n, allowed)
  }

  /** Only hosts ask, and never with the handle zero. */
  lemma {:induction false} AskedByHosts(run: seq<World>, steps: seq<Step>, m: nat)
    requires IsRun(run, steps) && m < |run|
    ensures |run[m].nodes| == |run[0].nodes| && forall k <- run[m].asked :: k.0 < |run[m].nodes| && k.1 > 0
  {
    if m > 0 {
      AskedByHosts(run, steps, m - 1);
      assert IsStep(run[m - 1], steps[m - 1], run[m - 1 + 1]);
      NextHas(run[m - 1], steps[m - 1], StepEffect(run[m - 1], steps[m - 1]));
    }
  }

  /** For every number of hosts and every rule about who may use which handle toward which
      daemon: in all runs that obey it the completed accept trackers are those of peers whose
      clients were told, if and only if the rule lets no two hosts ask one daemon with the
      same handle. */
  lemma PeerOrderIff(n: nat, allowed: Rule)
    ensures AlwaysPeerOrdered(n, allowed) <==> Distinguishes(n, allowed)
  {
    if AlwaysPeerOrdered(n, allowed) {
      forall c: Cast ensures !Fits(c, n, allowed) {
        if Fits(c, n, allowed) { var run, steps := HandlesCollide(c, n, allowed); }
      }
    }
    if Distinguishes(n, allowed) {
      forall run: seq<World>, steps: seq<Step> | IsRun(run, steps) && |run[|steps|].nodes| == n && Obeys(run[|steps|], allowed)
        ensures forall p :: 0 <= p < n ==> PeerOrdered(run[|steps|], p)
      {
        forall p | 0 <= p < n ensures PeerOrdered(run[|steps|], p) {
          RuleIsEnough(run, steps, n, allowed, p);
        }
      }
    }
  }

  lemma RuleIsEnough(run: seq<World>, steps: seq<Step>, n: nat, allowed: Rule, p: Host)
    requires Distinguishes(n, allowed) && IsRun(run, steps) && |run[|steps|].nodes| == n && Obeys(run[|steps|], allowed) && p < n
    ensures PeerOrdered(run[|steps|], p)
  {
    var w := run[|steps|];
    AskedByHosts(run, steps, |steps|);
    forall a: Host, b: Host, handle: nat | (a, handle) in w.asked && w.asked[(a, handle)].peer == p
                                           && (b, handle) in w.asked && w.asked[(b, handle)].peer == p
      ensures a == b
    {
      assert !Fits(Cast(a, b, p, handle), n, allowed);
      assert allowed(a, handle, p) && allowed(b, handle, p);
    }
    HandshakeOrderPeer(run, steps, |steps|, p);
  }
}
