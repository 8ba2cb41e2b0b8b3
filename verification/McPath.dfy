/** The multicast path search (infiniband-diags/ibtracert.c:203-210, 409-428, 458-482, 534-678).

    A breadth-first search over records of nodes, deduplicated by GUID in a chained hash table
    and kept in one list per level. The fabric's answers are fixed functions of the path they
    are asked along. */
module McPath {
  import opened Guids
  import opened Options

  const HTSZ: nat := 137
  const MAXHOPS: nat := 63
  const PATH_SIZE: nat := 64

  /** `p[0..cnt]` of a directed route. */
  type Path = seq<nat>

  /** What `get_node` finds out about a node and the port it was reached by. */
  datatype Info = Info(guid: Guid, isSwitch: bool, numports: nat, portnum: nat, portguid: Guid)

  /** A record; `up` is the GUID of the record it was found from. */
  datatype Node = Node(info: Info, path: Path, dist: nat, up: Option<Guid>)

  /** The answers to the three kinds of query: what a path leads to, whether the link at a
      port is up, and which ports a switch forwards the multicast group to. */
  datatype Fabric = Fabric(node: Path -> Option<Info>, link: (Path, nat) -> Option<bool>, mc: Path -> Option<set<nat>>)

  datatype Task = Task(fabric: Fabric, from: Path, root: Info, target: Guid) {
    /** The port at which a channel adapter's search leaves its leaf switch, else 0. */
    function Leaf(): nat {
      if root.isSwitch || from == [] then 0 else from[|from| - 1]
    }
  }

  // ----- the hash table

  /** `HASHGUID(guid) % HTSZ`. */
  function Bucket(g: Guid): (h: nat)
    ensures h < HTSZ
  {
    var hash := ((g & 0xffff_ffff) as bv32 * 101) ^ ((g >> 32) as bv32 * 103);
    (hash as int) % HTSZ
  }

  /** Every record is in the bucket of its GUID. */
  ghost predicate Hashed(table: seq<seq<Node>>) {
    |table| == HTSZ && forall h, n :: 0 <= h < HTSZ && n in table[h] ==> Bucket(n.info.guid) == h
  }

  predicate Stored(table: seq<seq<Node>>, g: Guid)
    requires |table| == HTSZ
  {
    exists n :: n in table[Bucket(g)] && n.info.guid == g
  }

  /** `insert_node`: the table is a set of GUIDs. */
  method InsertNode(table: array<seq<Node>>, n: Node) returns (ok: bool)
    requires Hashed(table[..])
    modifies table
    ensures Hashed(table[..])
    ensures ok <==> !old(Stored(table[..], n.info.guid))
    ensures !ok ==> table[..] == old(table[..])
    ensures forall g :: Stored(table[..], g) <==> old(Stored(table[..], g)) || g == n.info.guid
  {
    var h := Bucket(n.info.guid);
    var list := table[h];
    for k := 0 to |list|
      invariant forall j :: 0 <= j < k ==> list[j].info.guid != n.info.guid
    {
      if list[k].info.guid == n.info.guid {
        assert list[k] in table[..][h];
        return false;
      }
    }
    table[h] := [n] + list;
    ghost var now, was := table[..], old(table[..]);
    assert now == was[h := [n] + list];
    forall g ensures Stored(now, g) <==> Stored(was, g) || g == n.info.guid {
      if Stored(was, g) {
        var m :| m in was[Bucket(g)] && m.info.guid == g;
        assert m in now[Bucket(g)];
      }
      if g == n.info.guid { assert n in now[h]; }
    }
    return true;
  }

  // ----- what one record's exploration asks

  /** The ports that a record forwards the group to. */
  function Ports(t: Task, x: Node, e: nat): set<nat> {
    if x.info.isSwitch then
      match t.fabric.mc(x.path) {
        case None => {}
        case Some(m) => m
      }
    else if e == 0 then {x.info.portnum}
    else {}
  }

  /** The port that leads back. */
  function UpPort(t: Task, x: Node, e: nat): nat {
    if e == 0 || !x.info.isSwitch then 0 else if e == 1 && t.Leaf() != 0 then t.Leaf() else x.info.portnum
  }

  predicate Tried(t: Task, x: Node, e: nat, i: nat) {
    1 <= i <= x.info.numports && i in Ports(t, x, e) && i != UpPort(t, x, e)
  }

  datatype Probe = Abort | Skip | Ask(path: Path)

  function Shorter(p: Path): Path {
    if |p| > 1 then p[..|p| - 1] else p
  }

  function ProbePort(t: Task, x: Node, e: nat, i: nat): Probe {
    if e == 0 && t.Leaf() != 0 then Ask(Shorter(x.path))
    else
      match t.fabric.link(x.path, i) {
        case None => Abort
        case Some(up) => if !up then Skip else if |x.path| + 1 >= PATH_SIZE then Abort else Ask(x.path + [i])
      }
  }

  /** What port `i` of a record at level `e` is found to lead to. */
  function Explored(t: Task, x: Node, e: nat, i: nat): Option<Info> {
    if Tried(t, x, e, i) && ProbePort(t, x, e, i).Ask? then t.fabric.node(ProbePort(t, x, e, i).path) else None
  }

  ghost predicate Leads(t: Task, x: Node, e: nat, info: Info) {
    exists i :: Explored(t, x, e, i) == Some(info)
  }

  /** A port of a record at level `e` is found to lead, along path `p`, to what `info` says. */
  ghost predicate Reached(t: Task, x: Node, e: nat, p: Path, info: Info) {
    exists i :: ProbePort(t, x, e, i) == Ask(p) && Explored(t, x, e, i) == Some(info)
  }

  // ----- the level lists

  type Levels = seq<seq<Node>>

  ghost predicate Sized(l: Levels) {
    |l| == MAXHOPS + 1
  }

  /** The number of path entries of the records at level `e`. */
  function PathLen(t: Task, e: nat): nat {
    if e == 0 || t.Leaf() == 0 then |t.from| + e else |Shorter(t.from)| + e - 1
  }

  /** A record at level `e` was found from one at the level before. */
  ghost predicate NodeOk(t: Task, l: Levels, e: nat, x: Node)
    requires e < |l|
  {
    && x.dist == e && |x.path| == PathLen(t, e)
    && if e == 0 then x == Node(t.root, t.from, 0, None)
       else exists y :: y in l[e - 1] && x.up == Some(y.info.guid) && Reached(t, y, e - 1, x.path, x.info)
  }

  ghost predicate LevelsOk(t: Task, l: Levels) {
    Sized(l) && forall e: nat, x {:trigger NodeOk(t, l, e, x)} :: e < |l| && x in l[e] ==> NodeOk(t, l, e, x)
  }

  predicate OnceIn(s: seq<Node>) {
    forall i, j :: 0 <= i < j < |s| ==> s[i].info.guid != s[j].info.guid
  }

  /** No GUID occurs twice. */
  ghost predicate Unique(l: Levels) {
    && (forall e :: 0 <= e < |l| ==> OnceIn(l[e]))
    && forall e, f, x, y :: 0 <= e < f < |l| && x in l[e] && y in l[f] ==> x.info.guid != y.info.guid
  }

  /** A GUID is recorded at one of the levels up to `e`. */
  ghost predicate Known(l: Levels, e: nat, g: Guid) {
    exists f: nat, x :: f <= e && f < |l| && x in l[f] && x.info.guid == g
  }

  /** Port `i` of `x` does not lead to the target, and where it leads is recorded. */
  ghost predicate PortDone(t: Task, l: Levels, e: nat, x: Node, i: nat) {
    var info := Explored(t, x, e, i);
    info.Some? ==> info.value.portguid != t.target && Known(l, e + 1, info.value.guid)
  }

  ghost predicate Done(t: Task, l: Levels, e: nat, x: Node) {
    forall i :: PortDone(t, l, e, x, i)
  }

  ghost predicate LevelDone(t: Task, l: Levels, e: nat)
    requires e < |l|
  {
    forall x :: x in l[e] ==> Done(t, l, e, x)
  }

  ghost predicate LevelsDone(t: Task, l: Levels, d: nat)
    requires d <= |l|
  {
    forall e :: 0 <= e < d ==> LevelDone(t, l, e)
  }

  ghost predicate Tables(l: Levels, table: seq<seq<Node>>) {
    && Sized(l) && Hashed(table)
    && forall g :: Stored(table, g) <==> Known(l, MAXHOPS, g)
  }

  ghost predicate Inv(t: Task, l: Levels, table: seq<seq<Node>>) {
    LevelsOk(t, l) && Unique(l) && Tables(l, table)
  }

  ghost predicate Grows(l: Levels, l': Levels) {
    |l| == |l'| && forall e, x :: 0 <= e < |l| && x in l[e] ==> x in l'[e]
  }

  lemma KnownGrows(l: Levels, l': Levels, e: nat, g: Guid)
    requires Grows(l, l') && Known(l, e, g)
    ensures Known(l', e, g)
  {
    var f: nat, x :| f <= e && f < |l| && x in l[f] && x.info.guid == g;
    assert x in l'[f];
  }

  lemma DoneGrows(t: Task, l: Levels, l': Levels, e: nat, x: Node)
    requires Grows(l, l') && Done(t, l, e, x)
    ensures Done(t, l', e, x)
  {
    forall i ensures PortDone(t, l', e, x, i) {
      assert PortDone(t, l, e, x, i);
      var info := Explored(t, x, e, i);
      if info.Some? { KnownGrows(l, l', e + 1, info.value.guid); }
    }
  }

  lemma LevelDoneGrows(t: Task, l: Levels, l': Levels, e: nat)
    requires Grows(l, l') && e < |l| && l'[e] == l[e] && LevelDone(t, l, e)
    ensures LevelDone(t, l', e)
  {
    forall x | x in l'[e] ensures Done(t, l', e, x) { DoneGrows(t, l, l', e, x); }
  }

  /** The lists with `n` put in front of level `e`. */
  function Pushed(l: Levels, e: nat, n: Node): Levels
    requires e < |l|
  {
    l[e := [n] + l[e]]
  }

  lemma PushedLevelsOk(t: Task, l: Levels, e: nat, n: Node)
    requires LevelsOk(t, l) && e < |l| && NodeOk(t, l, e, n)
    ensures LevelsOk(t, Pushed(l, e, n)) && Grows(l, Pushed(l, e, n))
  {
    var l' := Pushed(l, e, n);
    assert Grows(l, l');
    forall f: nat, x | f < |l'| && x in l'[f] ensures NodeOk(t, l', f, x) {
      assert NodeOk(t, l, f, x);
    }
  }

  lemma PushedOnce(s: seq<Node>, n: Node)
    requires OnceIn(s) && forall x :: x in s ==> x.info.guid != n.info.guid
    ensures OnceIn([n] + s)
  {
    forall i, j | 0 <= i < j < |[n] + s| ensures ([n] + s)[i].info.guid != ([n] + s)[j].info.guid {
      assert ([n] + s)[j] == s[j - 1] && s[j - 1] in s;
    }
  }

  lemma PushedUnique(l: Levels, e: nat, n: Node)
    requires Sized(l) && Unique(l) && e < |l| && !Known(l, MAXHOPS, n.info.guid)
    ensures Unique(Pushed(l, e, n))
  {
    var l' := Pushed(l, e, n);
    forall f, x | 0 <= f < |l| && x in l[f] ensures x.info.guid != n.info.guid {}
    PushedOnce(l[e], n);
    forall c, f, x: Node, y: Node | 0 <= c < f < |l'| && x in l'[c] && y in l'[f] ensures x.info.guid != y.info.guid {
      assert (x == n || x in l[c]) && (y == n || y in l[f]);
    }
  }

  lemma PushedKnown(l: Levels, e: nat, n: Node, g: Guid)
    requires Sized(l) && e < |l|
    ensures Known(Pushed(l, e, n), MAXHOPS, g) <==> Known(l, MAXHOPS, g) || g == n.info.guid
  {
    var l' := Pushed(l, e, n);
    if Known(l, MAXHOPS, g) { KnownGrows(l, l', MAXHOPS, g); }
    if g == n.info.guid { assert n in l'[e]; }
    if Known(l', MAXHOPS, g) {
      var f: nat, x: Node :| f <= MAXHOPS && f < |l'| && x in l'[f] && x.info.guid == g;
      assert x == n || x in l[f];
    }
  }

  // ----- the search

  /** Nothing is recorded beyond level `e`. */
  ghost predicate Frontier(l: Levels, e: nat) {
    forall f :: e < f < |l| ==> l[f] == []
  }

  lemma KnownBefore(l: Levels, e: nat, g: Guid)
    requires Frontier(l, e) && Known(l, MAXHOPS, g)
    ensures Known(l, e, g)
  {
    var f: nat, x: Node :| f <= MAXHOPS && f < |l| && x in l[f] && x.info.guid == g;
    assert f <= e;
  }

  lemma PushedInv(t: Task, l: Levels, e: nat, n: Node, table: seq<seq<Node>>, table': seq<seq<Node>>)
    requires Inv(t, l, table) && e < |l| && NodeOk(t, l, e, n) && !Stored(table, n.info.guid)
    requires Hashed(table') && forall g :: Stored(table', g) <==> Stored(table, g) || g == n.info.guid
    ensures Inv(t, Pushed(l, e, n), table')
  {
    PushedLevelsOk(t, l, e, n);
    PushedUnique(l, e, n);
    forall g ensures Stored(table', g) <==> Known(Pushed(l, e, n), MAXHOPS, g) { PushedKnown(l, e, n, g); }
  }

  /** What `new_node` does to the tables with a record that is not the target. */
  ghost predicate Recorded(t: Task, l: Levels, l': Levels, table': seq<seq<Node>>, n: Node)
    requires n.dist < |l|
  {
    && Inv(t, l', table') && Grows(l, l') && l' == l[n.dist := l'[n.dist]]
    && Known(l', n.dist, n.info.guid)
  }

  lemma PushedRecorded(t: Task, l: Levels, n: Node, table: seq<seq<Node>>, table': seq<seq<Node>>)
    requires n.dist < |l|
    requires Inv(t, l, table) && NodeOk(t, l, n.dist, n) && !Stored(table, n.info.guid)
    requires Hashed(table') && forall g :: Stored(table', g) <==> Stored(table, g) || g == n.info.guid
    ensures Recorded(t, l, Pushed(l, n.dist, n), table', n)
  {
    PushedLevelsOk(t, l, n.dist, n);
    PushedInv(t, l, n.dist, n, table, table');
    assert n in Pushed(l, n.dist, n)[n.dist];
  }

  lemma KnownRecorded(t: Task, l: Levels, n: Node, table: seq<seq<Node>>)
    requires n.dist < |l| && Frontier(l, n.dist)
    requires Inv(t, l, table) && Stored(table, n.info.guid)
    ensures Recorded(t, l, l, table, n)
  {
    KnownBefore(l, n.dist, n.info.guid);
  }

  /** `new_node` for a record that is not the target: recorded at its level unless its GUID
      already is. */
  method NewNode(t: Task, n: Node, table: array<seq<Node>>, levels: array<seq<Node>>)
    requires table != levels && n.dist < levels.Length
    requires Inv(t, levels[..], table[..]) && NodeOk(t, levels[..], n.dist, n) && Frontier(levels[..], n.dist)
    modifies table, levels
    ensures Recorded(t, old(levels[..]), levels[..], table[..], n)
  {
    ghost var l, tb := levels[..], table[..];
    var ok := InsertNode(table, n);
    assert levels[..] == l;
    if ok {
      PushedRecorded(t, l, n, tb, table[..]);
      levels[n.dist] := [n] + levels[n.dist];
      assert levels[..] == Pushed(l, n.dist, n);
    } else {
      KnownRecorded(t, l, n, tb);
    }
  }

  datatype Step = Next | Found(node: Node) | Aborted

  /** Exploring level `e` adds records to the next level only. */
  ghost predicate Stepped(t: Task, l: Levels, l': Levels, table': seq<seq<Node>>, e: nat) {
    Inv(t, l', table') && Grows(l, l') && e + 1 < |l| && l' == l[e + 1 := l'[e + 1]] && Frontier(l', e + 1)
  }

  /** `n` is the target, found from `x`. */
  ghost predicate Hit(t: Task, x: Node, e: nat, n: Node) {
    n.info.portguid == t.target && n.up == Some(x.info.guid) && Reached(t, x, e, n.path, n.info)
  }

  ghost predicate GivesUp(t: Task, x: Node, e: nat) {
    exists i :: Tried(t, x, e, i) && ProbePort(t, x, e, i).Abort?
  }

  lemma PathStep(t: Task, x: Node, e: nat, i: nat)
    requires |x.path| == PathLen(t, e) && (e == 0 ==> x.path == t.from) && ProbePort(t, x, e, i).Ask?
    ensures |ProbePort(t, x, e, i).path| == PathLen(t, e + 1)
  {}

  lemma FoundOk(t: Task, l: Levels, e: nat, x: Node, i: nat, n: Node)
    requires e + 1 < |l| && x in l[e] && NodeOk(t, l, e, x)
    requires ProbePort(t, x, e, i) == Ask(n.path) && Explored(t, x, e, i) == Some(n.info)
    requires n.dist == e + 1 && n.up == Some(x.info.guid)
    ensures NodeOk(t, l, e + 1, n)
  {
    PathStep(t, x, e, i);
  }

  /** Where the queries of port `i` of `x` go. */
  method AskPort(t: Task, x: Node, e: nat, i: nat) returns (p: Probe)
    ensures p == ProbePort(t, x, e, i)
  {
    var path := x.path;
    if e == 0 && t.Leaf() != 0 {
      if |path| > 1 {
        path := path[..|path| - 1];
      }
    } else {
      var up := t.fabric.link(path, i);
      if up.None? {
        return Abort;
      }
      if !up.value {
        return Skip;
      }
      if |path| + 1 >= PATH_SIZE {
        return Abort;
      }
      path := path + [i];
    }
    return Ask(path);
  }

  lemma RecordedStepped(t: Task, l: Levels, l': Levels, table': seq<seq<Node>>, e: nat, x: Node, i: nat, n: Node)
    requires e + 1 < |l| && Frontier(l, e + 1) && n.dist == e + 1 && Recorded(t, l, l', table', n)
    requires Explored(t, x, e, i) == Some(n.info) && n.info.portguid != t.target
    ensures Stepped(t, l, l', table', e) && PortDone(t, l', e, x, i)
  {}

  lemma Stays(t: Task, l: Levels, table: seq<seq<Node>>, e: nat)
    requires Inv(t, l, table) && e < MAXHOPS && Frontier(l, e + 1)
    ensures Stepped(t, l, l, table, e)
  {}

  /** The loop body for port `i` of `x`. */
  method VisitPort(t: Task, x: Node, e: nat, i: nat, table: array<seq<Node>>, levels: array<seq<Node>>)
    returns (r: Step)
    requires table != levels && Inv(t, levels[..], table[..]) && e < MAXHOPS && Frontier(levels[..], e + 1)
    requires x in levels[..][e] && Tried(t, x, e, i)
    modifies table, levels
    ensures Stepped(t, old(levels[..]), levels[..], table[..], e)
    ensures r.Next? ==> PortDone(t, levels[..], e, x, i)
    ensures r.Found? ==> Hit(t, x, e, r.node)
    ensures r.Aborted? ==> GivesUp(t, x, e)
  {
    Stays(t, levels[..], table[..], e);
    var p := AskPort(t, x, e, i);
    if !p.Ask? {
      return if p.Abort? then Aborted else Next;
    }
    var info := t.fabric.node(p.path);
    assert Explored(t, x, e, i) == info;
    if info.None? {
      return Next;
    }
    var n := Node(info.value, p.path, e + 1, Some(x.info.guid));
    if info.value.portguid == t.target {
      return Found(n);
    }
    Record(t, x, e, i, n, table, levels);
    return Next;
  }

  method Record(t: Task, x: Node, e: nat, i: nat, n: Node, table: array<seq<Node>>, levels: array<seq<Node>>)
    requires table != levels && Inv(t, levels[..], table[..]) && e < MAXHOPS && Frontier(levels[..], e + 1)
    requires x in levels[..][e] && ProbePort(t, x, e, i) == Ask(n.path) && Explored(t, x, e, i) == Some(n.info)
    requires n.dist == e + 1 && n.up == Some(x.info.guid) && n.info.portguid != t.target
    modifies table, levels
    ensures Stepped(t, old(levels[..]), levels[..], table[..], e) && PortDone(t, levels[..], e, x, i)
  {
    ghost var l := levels[..];
    assert NodeOk(t, l, e, x);
    FoundOk(t, l, e, x, i, n);
    NewNode(t, n, table, levels);
    RecordedStepped(t, l, levels[..], table[..], e, x, i, n);
  }

  lemma SteppedTrans(t: Task, l: Levels, l': Levels, l'': Levels, table': seq<seq<Node>>, table'': seq<seq<Node>>, e: nat)
    requires Stepped(t, l, l', table', e) && Stepped(t, l', l'', table'', e)
    ensures Stepped(t, l, l'', table'', e)
  {
    assert l'' == l[e + 1 := l''[e + 1]];
  }

  ghost predicate PortsDone(t: Task, l: Levels, e: nat, x: Node, n: nat) {
    forall i :: 0 <= i < n ==> PortDone(t, l, e, x, i)
  }

  lemma PortsDoneNext(t: Task, l: Levels, l': Levels, e: nat, x: Node, n: nat)
    requires Grows(l, l') && PortsDone(t, l, e, x, n) && PortDone(t, l', e, x, n)
    ensures PortsDone(t, l', e, x, n + 1)
  {
    forall i | 0 <= i < n ensures PortDone(t, l', e, x, i) {
      assert PortDone(t, l, e, x, i);
      var info := Explored(t, x, e, i);
      if info.Some? { KnownGrows(l, l', e + 1, info.value.guid); }
    }
  }

  lemma PortsDoneAll(t: Task, l: Levels, e: nat, x: Node)
    requires PortsDone(t, l, e, x, x.info.numports + 1)
    ensures Done(t, l, e, x)
  {
    forall i: nat ensures PortDone(t, l, e, x, i) {
      if i > x.info.numports { assert !Tried(t, x, e, i); }
    }
  }

  /** The loop over the ports of `x`. */
  method VisitNode(t: Task, x: Node, e: nat, table: array<seq<Node>>, levels: array<seq<Node>>) returns (r: Step)
    requires table != levels && Inv(t, levels[..], table[..]) && e < MAXHOPS && Frontier(levels[..], e + 1)
    requires x in levels[..][e]
    modifies table, levels
    ensures Stepped(t, old(levels[..]), levels[..], table[..], e)
    ensures r.Next? ==> Done(t, levels[..], e, x)
    ensures r.Found? ==> Hit(t, x, e, r.node)
    ensures r.Aborted? ==> GivesUp(t, x, e)
  {
    ghost var l := levels[..];
    Stays(t, l, table[..], e);
    assert !Tried(t, x, e, 0);
    for i := 1 to x.info.numports + 1
      invariant Stepped(t, l, levels[..], table[..], e)
      invariant PortsDone(t, levels[..], e, x, i)
    {
      ghost var k, tb := levels[..], table[..];
      r := VisitNumbered(t, x, e, i, table, levels);
      SteppedTrans(t, l, k, levels[..], tb, table[..], e);
      if !r.Next? {
        return;
      }
      PortsDoneNext(t, k, levels[..], e, x, i);
    }
    PortsDoneAll(t, levels[..], e, x);
    return Next;
  }

  method VisitNumbered(t: Task, x: Node, e: nat, i: nat, table: array<seq<Node>>, levels: array<seq<Node>>)
    returns (r: Step)
    requires table != levels && Inv(t, levels[..], table[..]) && e < MAXHOPS && Frontier(levels[..], e + 1)
    requires x in levels[..][e] && 1 <= i <= x.info.numports
    modifies table, levels
    ensures Stepped(t, old(levels[..]), levels[..], table[..], e)
    ensures r.Next? ==> PortDone(t, levels[..], e, x, i)
    ensures r.Found? ==> Hit(t, x, e, r.node)
    ensures r.Aborted? ==> GivesUp(t, x, e)
  {
    if i !in Ports(t, x, e) || i == UpPort(t, x, e) {
      Stays(t, levels[..], table[..], e);
      return Next;
    }
    r := VisitPort(t, x, e, i, table, levels);
  }

  ghost predicate NodesDone(t: Task, l: Levels, e: nat, s: seq<Node>) {
    forall x :: x in s ==> Done(t, l, e, x)
  }

  lemma NodesDoneNext(t: Task, l: Levels, l': Levels, e: nat, s: seq<Node>, n: nat)
    requires n < |s| && Grows(l, l') && NodesDone(t, l, e, s[..n]) && Done(t, l', e, s[n])
    ensures NodesDone(t, l', e, s[..n + 1])
  {
    forall x | x in s[..n + 1] ensures Done(t, l', e, x) {
      if x != s[n] {
        assert x in s[..n];
        DoneGrows(t, l, l', e, x);
      }
    }
  }

  /** The loop over the records of level `e`. */
  method VisitLevel(t: Task, e: nat, table: array<seq<Node>>, levels: array<seq<Node>>) returns (r: Step, ghost x: Node)
    requires table != levels && Inv(t, levels[..], table[..]) && e < MAXHOPS && Frontier(levels[..], e + 1)
    modifies table, levels
    ensures Stepped(t, old(levels[..]), levels[..], table[..], e)
    ensures r.Next? ==> LevelDone(t, levels[..], e)
    ensures r.Found? ==> x in levels[e] && Hit(t, x, e, r.node)
    ensures r.Aborted? ==> x in levels[e] && GivesUp(t, x, e)
  {
    ghost var l := levels[..];
    var list := levels[e];
    Stays(t, l, table[..], e);
    x := Node(t.root, t.from, 0, None);
    for n := 0 to |list|
      invariant Stepped(t, l, levels[..], table[..], e)
      invariant NodesDone(t, levels[..], e, list[..n])
    {
      ghost var k, tb := levels[..], table[..];
      assert list[n] in levels[..][e];
      x := list[n];
      r := VisitNode(t, list[n], e, table, levels);
      SteppedTrans(t, l, k, levels[..], tb, table[..], e);
      if !r.Next? {
        return;
      }
      NodesDoneNext(t, k, levels[..], e, list, n);
    }
    assert list[..|list|] == levels[e];
    return Next, x;
  }

  /** What a search has established when it stops at level `d`. */
  ghost predicate Outcome(t: Task, l: Levels, d: nat, r: Step) {
    && LevelsOk(t, l) && Unique(l) && Node(t.root, t.from, 0, None) in l[0]
    && d <= MAXHOPS && (r.Next? ==> d == MAXHOPS)
    && LevelsDone(t, l, d)
    && (r.Found? ==> exists x :: x in l[d] && Hit(t, x, d, r.node))
    && (r.Aborted? ==> exists x :: x in l[d] && GivesUp(t, x, d))
  }

  lemma LevelsDoneStep(t: Task, l: Levels, l': Levels, table': seq<seq<Node>>, d: nat)
    requires d <= |l| && Stepped(t, l, l', table', d) && LevelsDone(t, l, d)
    ensures LevelsDone(t, l', d)
  {
    forall e | 0 <= e < d ensures LevelDone(t, l', e) {
      LevelDoneGrows(t, l, l', e);
    }
  }

  /** Where the main loop is before level `d`. */
  ghost predicate Before(t: Task, l: Levels, table: seq<seq<Node>>, d: nat) {
    Inv(t, l, table) && d <= |l| && Frontier(l, d) && LevelsDone(t, l, d) && Node(t.root, t.from, 0, None) in l[0]
  }

  lemma BeforeNext(t: Task, l: Levels, table: seq<seq<Node>>, l': Levels, table': seq<seq<Node>>, d: nat)
    requires Before(t, l, table, d) && d < MAXHOPS && Stepped(t, l, l', table', d) && LevelDone(t, l', d)
    ensures Before(t, l', table', d + 1)
  {
    LevelsDoneStep(t, l, l', table', d);
  }

  lemma BeforeStop(t: Task, l: Levels, table: seq<seq<Node>>, l': Levels, table': seq<seq<Node>>, d: nat, r: Step, x: Node)
    requires Before(t, l, table, d) && d < MAXHOPS && Stepped(t, l, l', table', d) && !r.Next? && x in l'[d]
    requires (r.Found? ==> Hit(t, x, d, r.node)) && (r.Aborted? ==> GivesUp(t, x, d))
    ensures Outcome(t, l', d, r)
  {
    LevelsDoneStep(t, l, l', table', d);
  }

  /** The main loop of `find_mcpath`. */
  method Search(t: Task, table: array<seq<Node>>, levels: array<seq<Node>>) returns (r: Step, ghost d: nat)
    requires table != levels && Before(t, levels[..], table[..], 0)
    modifies table, levels
    ensures Outcome(t, levels[..], d, r) && OnTree(t, levels[..], d, r)
  {
    for dist := 0 to MAXHOPS
      invariant Before(t, levels[..], table[..], dist)
    {
      ghost var l, tb := levels[..], table[..];
      ghost var x;
      r, x := VisitLevel(t, dist, table, levels);
      if !r.Next? {
        BeforeStop(t, l, tb, levels[..], table[..], dist, r, x);
        FollowsTree(t, levels[..], dist, r);
        return r, dist;
      }
      BeforeNext(t, l, tb, levels[..], table[..], dist);
    }
    FollowsTree(t, levels[..], MAXHOPS, Next);
    return Next, MAXHOPS;
  }

  // ----- the search on the fabric's own answers

  /** Hop `j` of a walk may leave `x` by port `i`: a switch forwards the group there and it is
      not the port of arrival, which after a leaf start is the port of the leaf; an adapter is
      left only as the start, by its own port. */
  ghost predicate TreePort(t: Task, j: nat, x: Node, i: nat) {
    && 1 <= i <= x.info.numports
    && if x.info.isSwitch then
         && t.fabric.mc(x.path).Some? && i in t.fabric.mc(x.path).value
         && (j == 2 && FromLeaf(t) ==> i != t.from[|t.from| - 1])
         && (j >= 2 && !(j == 2 && FromLeaf(t)) ==> i != x.info.portnum)
       else j == 1 && i == x.info.portnum
  }

  /** The search starts at an adapter that was reached by a port. */
  predicate FromLeaf(t: Task) {
    !t.root.isSwitch && t.from != [] && t.from[|t.from| - 1] != 0
  }

  /** Hop `j` goes from `x` along `p`, over a link that is up, to the node of `info`; from a leaf
      it goes one step back along the start path. */
  ghost predicate TreeHop(t: Task, j: nat, x: Node, p: Path, info: Info) {
    && t.fabric.node(p) == Some(info)
    && exists i :: TreePort(t, j, x, i) &&
         if j == 1 && FromLeaf(t) then p == if |t.from| > 1 then t.from[..|t.from| - 1] else t.from
         else t.fabric.link(x.path, i) == Some(true) && p == x.path + [i] && |p| < 64
  }

  /** Hop `j` from `x` meets a port whose state cannot be read, or a path that is full. */
  ghost predicate TreeEnds(t: Task, j: nat, x: Node) {
    exists i :: TreePort(t, j, x, i) && !(j == 1 && FromLeaf(t)) &&
      (t.fabric.link(x.path, i) == None || (t.fabric.link(x.path, i) == Some(true) && |x.path| >= 63))
  }

  lemma TriedIsTreePort(t: Task, x: Node, e: nat, i: nat)
    ensures Tried(t, x, e, i) <==> TreePort(t, e + 1, x, i)
  {}

  /** The search goes over exactly the hops of the group's tree. */
  lemma ReachedIsHop(t: Task, x: Node, e: nat, p: Path, info: Info)
    requires e == 0 ==> x.path == t.from
    ensures Reached(t, x, e, p, info) <==> TreeHop(t, e + 1, x, p, info)
  {
    if Reached(t, x, e, p, info) {
      var i :| ProbePort(t, x, e, i) == Ask(p) && Explored(t, x, e, i) == Some(info);
      TriedIsTreePort(t, x, e, i);
    }
    if TreeHop(t, e + 1, x, p, info) {
      var i :| TreePort(t, e + 1, x, i) &&
        if e == 0 && FromLeaf(t) then p == if |t.from| > 1 then t.from[..|t.from| - 1] else t.from
        else t.fabric.link(x.path, i) == Some(true) && p == x.path + [i] && |p| < 64;
      TriedIsTreePort(t, x, e, i);
      assert ProbePort(t, x, e, i) == Ask(p) && Explored(t, x, e, i) == Some(info);
    }
  }

  lemma GivesUpIsEnd(t: Task, x: Node, e: nat)
    ensures GivesUp(t, x, e) <==> TreeEnds(t, e + 1, x)
  {
    if GivesUp(t, x, e) {
      var i :| Tried(t, x, e, i) && ProbePort(t, x, e, i).Abort?;
      TriedIsTreePort(t, x, e, i);
    }
    if TreeEnds(t, e + 1, x) {
      var i :| TreePort(t, e + 1, x, i) && !(e == 0 && FromLeaf(t)) &&
        (t.fabric.link(x.path, i) == None || (t.fabric.link(x.path, i) == Some(true) && |x.path| >= 63));
      TriedIsTreePort(t, x, e, i);
    }
  }

  /** `x` was found by hop `j`, from the record that its `up` names at the level before. */
  ghost predicate HopTo(t: Task, l: Levels, j: nat, x: Node)
    requires 0 < j <= |l|
  {
    exists y :: y in l[j - 1] && x.up == Some(y.info.guid) && TreeHop(t, j, y, x.path, x.info)
  }

  /** Every record beyond the start was found over a hop of the tree. */
  ghost predicate RecordsOnTree(t: Task, l: Levels) {
    forall e: nat, x {:trigger HopTo(t, l, e, x)} :: 0 < e < |l| && x in l[e] ==> HopTo(t, l, e, x)
  }

  /** Every hop `j` of the tree from `x` ends at a node recorded by level `j`, not at the target. */
  ghost predicate HopsFollowed(t: Task, l: Levels, j: nat, x: Node) {
    forall p, info :: TreeHop(t, j, x, p, info) ==> info.portguid != t.target && Known(l, j, info.guid)
  }

  ghost predicate TreeExplored(t: Task, l: Levels, d: nat)
    requires d <= |l|
  {
    forall j: nat, x {:trigger HopsFollowed(t, l, j, x)} :: 0 < j <= d && x in l[j - 1] ==> HopsFollowed(t, l, j, x)
  }

  /** Why the search stopped: it came to the target over a hop of the tree, or it could not go
      on, or there is no level left. */
  ghost predicate Stopped(t: Task, l: Levels, d: nat, r: Step)
    requires d < |l|
  {
    match r
    case Found(n) => n.info.portguid == t.target && HopTo(t, l, d + 1, n)
    case Aborted => exists y :: y in l[d] && TreeEnds(t, d + 1, y)
    case Next => d == 63
  }

  ghost predicate OnTree(t: Task, l: Levels, d: nat, r: Step) {
    d < |l| && RecordsOnTree(t, l) && TreeExplored(t, l, d) && Stopped(t, l, d, r)
  }

  lemma RecordsFollowTree(t: Task, l: Levels)
    requires LevelsOk(t, l)
    ensures RecordsOnTree(t, l)
  {
    forall e: nat, x | 0 < e < |l| && x in l[e]
      ensures HopTo(t, l, e, x)
    {
      assert NodeOk(t, l, e, x);
      var y :| y in l[e - 1] && x.up == Some(y.info.guid) && Reached(t, y, e - 1, x.path, x.info);
      assert NodeOk(t, l, e - 1, y);
      ReachedIsHop(t, y, e - 1, x.path, x.info);
    }
  }

  lemma DoneFollows(t: Task, l: Levels, e: nat, j: nat, x: Node)
    requires Done(t, l, e, x) && (e == 0 ==> x.path == t.from) && j == e + 1
    ensures HopsFollowed(t, l, j, x)
  {
    forall p, info | TreeHop(t, j, x, p, info)
      ensures info.portguid != t.target && Known(l, j, info.guid)
    {
      ReachedIsHop(t, x, e, p, info);
      var i :| ProbePort(t, x, e, i) == Ask(p) && Explored(t, x, e, i) == Some(info);
      assert PortDone(t, l, e, x, i);
    }
  }

  lemma DoneExplores(t: Task, l: Levels, d: nat)
    requires LevelsOk(t, l) && d <= |l| && LevelsDone(t, l, d)
    ensures TreeExplored(t, l, d)
  {
    forall j: nat, x | 0 < j <= d && x in l[j - 1]
      ensures HopsFollowed(t, l, j, x)
    {
      assert NodeOk(t, l, j - 1, x) && LevelDone(t, l, j - 1);
      DoneFollows(t, l, j - 1, j, x);
    }
  }

  lemma StopsOnTree(t: Task, l: Levels, d: nat, r: Step)
    requires Outcome(t, l, d, r)
    ensures Stopped(t, l, d, r)
  {
    if r.Found? {
      var x :| x in l[d] && Hit(t, x, d, r.node);
      assert NodeOk(t, l, d, x);
      ReachedIsHop(t, x, d, r.node.path, r.node.info);
    } else if r.Aborted? {
      var x :| x in l[d] && GivesUp(t, x, d);
      GivesUpIsEnd(t, x, d);
    }
  }

  /** The search follows the multicast forwarding tables and nothing else: its records are
      reached over hops of the group's tree, all hops from the levels before the last are
      followed, and it stops for one of three reasons. */
  lemma FollowsTree(t: Task, l: Levels, d: nat, r: Step)
    requires Outcome(t, l, d, r)
    ensures OnTree(t, l, d, r)
  {
    RecordsFollowTree(t, l);
    DoneExplores(t, l, d);
    StopsOnTree(t, l, d, r);
  }

  /** Root and tables at the start of a search. */
  lemma StartInv(t: Task, l: Levels, table: seq<seq<Node>>)
    requires |l| == MAXHOPS + 1 && |table| == HTSZ
    requires (forall e :: 0 <= e < |l| ==> l[e] == []) && forall h :: 0 <= h < |table| ==> table[h] == []
    ensures Inv(t, l, table) && Frontier(l, 0) && NodeOk(t, l, 0, Node(t.root, t.from, 0, None))
  {}

  lemma RootListed(t: Task, l: Levels)
    requires LevelsOk(t, l) && Known(l, 0, t.root.guid)
    ensures Node(t.root, t.from, 0, None) in l[0]
  {
    var f: nat, x: Node :| f <= 0 && f < |l| && x in l[f] && x.info.guid == t.root.guid;
    assert NodeOk(t, l, 0, x);
  }

  /** `find_mcpath`, from empty tables. */
  method FindMcPath(fabric: Fabric, from: Path, target: Guid, table: array<seq<Node>>, levels: array<seq<Node>>)
    returns (found: Option<Node>, ghost r: Step, ghost d: nat)
    requires table != levels && table.Length == HTSZ && levels.Length == MAXHOPS + 1
    requires (forall e :: 0 <= e < levels.Length ==> levels[e] == []) && forall h :: 0 <= h < table.Length ==> table[h] == []
    modifies table, levels
    ensures fabric.node(from).None? ==> found == None
    ensures fabric.node(from).Some? && fabric.node(from).value.portguid == target ==>
              (found.Some? <==> fabric.node(from).value.isSwitch && fabric.mc(from).Some? && 0 in fabric.mc(from).value)
    ensures fabric.node(from).Some? && fabric.node(from).value.portguid != target ==>
              var t := Task(fabric, from, fabric.node(from).value, target);
              Outcome(t, levels[..], d, r) && OnTree(t, levels[..], d, r)
    ensures fabric.node(from).Some? && fabric.node(from).value.portguid != target ==>
              found == if r.Found? then Some(r.node) else None
  {
    r, d := Next, 0;
    var root := fabric.node(from);
    if root.None? {
      return None, r, d;
    }
    var t := Task(fabric, from, root.value, target);
    var n := Node(t.root, from, 0, None);
    if t.root.portguid == target {
      if !t.root.isSwitch {
        return None, r, d;
      }
      var ports := fabric.mc(from);
      return if ports.Some? && 0 in ports.value then Some(n) else None, r, d;
    }
    StartInv(t, levels[..], table[..]);
    NewNode(t, n, table, levels);
    RootListed(t, levels[..]);
    var s;
    s, d := Search(t, table, levels);
    return if s.Found? then Some(s.node) else None, s, d;
  }

  // ----- what the outcome means

  /** A port of `x` was found to lead to the node of `y`, by whatever port of that. */
  ghost predicate Edge(t: Task, x: Node, y: Node) {
    exists info :: Leads(t, x, x.dist, info) && info.guid == y.info.guid
  }

  /** Records joined by explored edges, from the root. */
  ghost predicate Walk(t: Task, l: Levels, w: seq<Node>) {
    && w != [] && Sized(l) && w[0].dist == 0
    && (forall j :: 0 <= j < |w| ==> w[j].dist < |l| && w[j] in l[w[j].dist])
    && forall j :: 0 < j < |w| ==> Edge(t, w[j - 1], w[j])
  }

  /** What an explored record leads to is recorded by the next level, and is not the target. */
  lemma Followed(t: Task, l: Levels, x: Node, info: Info)
    requires x.dist < |l| && x in l[x.dist] && LevelDone(t, l, x.dist) && Leads(t, x, x.dist, info)
    ensures info.portguid != t.target && Known(l, x.dist + 1, info.guid)
  {
    var i :| Explored(t, x, x.dist, i) == Some(info);
    assert Done(t, l, x.dist, x) && PortDone(t, l, x.dist, x, i);
  }

  lemma EdgeDist(t: Task, l: Levels, x: Node, y: Node)
    requires Unique(l) && x.dist < |l| && x in l[x.dist] && y.dist < |l| && y in l[y.dist]
    requires LevelDone(t, l, x.dist) && Edge(t, x, y)
    ensures y.dist <= x.dist + 1
  {
    var info :| Leads(t, x, x.dist, info) && info.guid == y.info.guid;
    Followed(t, l, x, info);
    KnownLevel(l, x.dist + 1, y.dist, y);
  }

  lemma KnownLevel(l: Levels, e: nat, f: nat, y: Node)
    requires Unique(l) && f < |l| && y in l[f] && Known(l, e, y.info.guid)
    ensures f <= e
  {
    var g: nat, z: Node :| g <= e && g < |l| && z in l[g] && z.info.guid == y.info.guid;
    assert g == f;
  }

  /** A record is no further than any walk to it. */
  lemma {:induction false} WalkDist(t: Task, l: Levels, d: nat, w: seq<Node>, j: nat)
    requires Walk(t, l, w) && Unique(l) && j < |w| && j <= d < |l| && LevelsDone(t, l, d)
    ensures w[j].dist <= j
  {
    if j > 0 {
      WalkDist(t, l, d, w, j - 1);
      WalkEdge(t, l, w, j);
      assert LevelDone(t, l, w[j - 1].dist);
      EdgeDist(t, l, w[j - 1], w[j]);
    }
  }

  lemma WalkEdge(t: Task, l: Levels, w: seq<Node>, j: nat)
    requires Walk(t, l, w) && 0 < j < |w|
    ensures Edge(t, w[j - 1], w[j]) && w[j].dist < |l| && w[j] in l[w[j].dist] && w[j - 1].dist < |l| && w[j - 1] in l[w[j - 1].dist]
  {}

  /** The target is found over as few hops as explored edges allow: no walk of fewer than `d`
      hops ends at a record from which the target is reached. */
  lemma Nearest(t: Task, l: Levels, d: nat, r: Step, w: seq<Node>, info: Info)
    requires Outcome(t, l, d, r) && Walk(t, l, w)
    requires Leads(t, w[|w| - 1], w[|w| - 1].dist, info) && info.portguid == t.target
    ensures |w| - 1 >= d
  {
    var k := |w| - 1;
    if k < d {
      WalkDist(t, l, d, w, k);
      assert LevelDone(t, l, w[k].dist);
      Followed(t, l, w[k], info);
    }
  }

  lemma WalkSnoc(t: Task, l: Levels, v: seq<Node>, x: Node)
    requires Walk(t, l, v) && x.dist < |l| && x in l[x.dist] && Edge(t, v[|v| - 1], x)
    ensures Walk(t, l, v + [x])
  {
    var w := v + [x];
    forall j | 0 <= j < |w| ensures w[j].dist < |l| && w[j] in l[w[j].dist] {
      assert w[j] == if j < |v| then v[j] else x;
    }
    forall j | 0 < j < |w| ensures Edge(t, w[j - 1], w[j]) {
      if j < |v| { WalkEdge(t, l, v, j); }
    }
  }

  lemma Parent(t: Task, l: Levels, d: nat, x: Node) returns (y: Node)
    requires LevelsOk(t, l) && 0 < d < |l| && x in l[d]
    ensures x.dist == d && y in l[d - 1] && y.dist == d - 1 && Edge(t, y, x) && UpHop(t, d, y, x)
  {
    assert NodeOk(t, l, d, x);
    y :| y in l[d - 1] && x.up == Some(y.info.guid) && Reached(t, y, d - 1, x.path, x.info);
    assert NodeOk(t, l, d - 1, y);
    ReachedIsHop(t, y, d - 1, x.path, x.info);
  }

  /** Hop `j` of a walk, back along `up`. */
  ghost predicate UpHop(t: Task, j: nat, y: Node, x: Node) {
    x.up == Some(y.info.guid) && TreeHop(t, j, y, x.path, x.info)
  }

  /** Following `up` from a record at level `d` gives a walk of `d` hops from the root. */
  lemma {:induction false} UpWalk(t: Task, l: Levels, d: nat, x: Node) returns (w: seq<Node>)
    requires LevelsOk(t, l) && d < |l| && x in l[d]
    ensures Walk(t, l, w) && |w| == d + 1 && w[d] == x
    ensures forall j :: 0 < j < |w| ==> UpHop(t, j, w[j - 1], w[j])
  {
    if d == 0 {
      assert NodeOk(t, l, d, x);
      w := [x];
    } else {
      var y := Parent(t, l, d, x);
      var v := UpWalk(t, l, d - 1, y);
      WalkSnoc(t, l, v, x);
      w := v + [x];
    }
  }

  // ----- the number of levels

  /** A level that holds a record comes after one that does. */
  lemma {:induction false} LevelsBefore(t: Task, l: Levels, d: nat, e: nat)
    requires LevelsOk(t, l) && d <= e < |l| && l[e] != []
    ensures l[d] != []
    decreases e
  {
    if d < e {
      assert NodeOk(t, l, e, l[e][0]);
      LevelsBefore(t, l, d, e - 1);
    }
  }

  /** A record beyond the 63 lists that the search has room for is possible only when it
      starts at an adapter one hop away. */
  lemma InBounds(t: Task, l: Levels, d: nat, r: Step)
    requires Outcome(t, l, d, r) && |t.from| >= 1 && t.fabric.node(t.from) == Some(t.root) && l[MAXHOPS] != []
    ensures t.Leaf() != 0 && |t.from| == 2
  {
    LastExtended(t, l);
    LevelsBefore(t, l, 1, MAXHOPS);
    if t.Leaf() != 0 { LeafIsOther(t, l); }
  }

  lemma LastExtended(t: Task, l: Levels)
    requires LevelsOk(t, l) && l[MAXHOPS] != []
    ensures PathLen(t, MAXHOPS - 1) + 1 < PATH_SIZE
  {
    var x := l[MAXHOPS][0];
    assert NodeOk(t, l, MAXHOPS, x);
    var y :| y in l[MAXHOPS - 1] && x.up == Some(y.info.guid) && Reached(t, y, MAXHOPS - 1, x.path, x.info);
    assert NodeOk(t, l, MAXHOPS - 1, y);
  }

  /** An adapter zero hops away would be its own leaf, which is already recorded. */
  lemma LeafIsOther(t: Task, l: Levels)
    requires LevelsOk(t, l) && Unique(l) && Node(t.root, t.from, 0, None) in l[0]
    requires t.fabric.node(t.from) == Some(t.root) && t.Leaf() != 0 && l[1] != []
    ensures |t.from| > 1
  {
    var x := l[1][0];
    assert x.info.guid != t.root.guid;
    assert NodeOk(t, l, 1, x);
    var y :| y in l[0] && x.up == Some(y.info.guid) && Reached(t, y, 0, x.path, x.info);
    assert NodeOk(t, l, 0, y);
  }

  // An adapter one hop away from the first of 63 switches in a row.

  /** One hop out, by a port that is not zero. */
  predicate OneHop(from: Path) {
    |from| == 2 && from[1] != 0
  }

  function RowNode(ids: seq<Guid>, from: Path, p: Path): Option<Info>
    requires |ids| == PATH_SIZE
  {
    if p == from then Some(Info(ids[0], false, 1, 1, 1))
    else if |p| < PATH_SIZE then Some(Info(ids[|p|], true, 2, 1, 1))
    else None
  }

  function Row(ids: seq<Guid>, from: Path): Task
    requires |ids| == PATH_SIZE
  {
    Task(Fabric(p => RowNode(ids, from, p), (p, i) => Some(true), p => Some({1, 2})),
         from, Info(ids[0], false, 1, 1, 1), 0)
  }

  predicate AllDistinct(ids: seq<Guid>) {
    forall i, j :: 0 <= i < j < |ids| ==> ids[i] != ids[j]
  }

  lemma RowLeads(ids: seq<Guid>, from: Path, y: Node, e: nat, info: Info)
    requires |ids| == PATH_SIZE && OneHop(from)
    requires |y.path| == PathLen(Row(ids, from), e) && (e == 0 ==> y.path == from)
    requires Leads(Row(ids, from), y, e, info)
    ensures e + 1 < PATH_SIZE && info == Info(ids[e + 1], true, 2, 1, 1)
  {
    var t := Row(ids, from);
    var i :| Explored(t, y, e, i) == Some(info);
    var p := ProbePort(t, y, e, i).path;
    if e > 0 {
      assert p[e] == i && i != UpPort(t, y, e);
    }
    assert |p| == e + 1 && p != t.from;
  }

  lemma RowGuid(ids: seq<Guid>, from: Path, l: Levels, e: nat, x: Node)
    requires |ids| == PATH_SIZE && OneHop(from) && LevelsOk(Row(ids, from), l) && e < |l| && x in l[e]
    ensures e < PATH_SIZE && x.info == if e == 0 then Row(ids, from).root else Info(ids[e], true, 2, 1, 1)
    ensures |x.path| == PathLen(Row(ids, from), e) && (e == 0 ==> x.path == from)
  {
    var t := Row(ids, from);
    assert NodeOk(t, l, e, x);
    if e > 0 {
      var y :| y in l[e - 1] && x.up == Some(y.info.guid) && Reached(t, y, e - 1, x.path, x.info);
      assert NodeOk(t, l, e - 1, y);
      RowLeads(ids, from, y, e - 1, x.info);
    }
  }

  lemma RowEdge(ids: seq<Guid>, from: Path, x: Node, e: nat)
    requires |ids| == PATH_SIZE && OneHop(from) && e < MAXHOPS
    requires x.info == if e == 0 then Row(ids, from).root else Info(ids[e], true, 2, 1, 1)
    requires |x.path| == PathLen(Row(ids, from), e) && (e == 0 ==> x.path == from)
    ensures Explored(Row(ids, from), x, e, RowPort(from, e)).Some?
    ensures ProbePort(Row(ids, from), x, e, RowPort(from, e)) == Ask(if e == 0 then from[..1] else x.path + [RowPort(from, e)])
  {
    var i := RowPort(from, e);
    assert Tried(Row(ids, from), x, e, i);
    assert ProbePort(Row(ids, from), x, e, i).Ask?;
  }

  lemma RowStep(ids: seq<Guid>, from: Path, l: Levels, e: nat, x: Node)
    requires |ids| == PATH_SIZE && AllDistinct(ids) && OneHop(from) && LevelsOk(Row(ids, from), l)
    requires e + 1 < |l| && x in l[e] && Done(Row(ids, from), l, e, x)
    ensures l[e + 1] != []
  {
    var t := Row(ids, from);
    RowGuid(ids, from, l, e, x);
    var i := RowPort(from, e);
    RowEdge(ids, from, x, e);
    assert PortDone(t, l, e, x, i);
    var info := Explored(t, x, e, i).value;
    RowLeads(ids, from, x, e, info);
    var f: nat, y: Node :| f <= e + 1 && f < |l| && y in l[f] && y.info.guid == info.guid;
    RowGuid(ids, from, l, f, y);
  }

  lemma {:induction false} RowLevels(ids: seq<Guid>, from: Path, l: Levels, e: nat)
    requires |ids| == PATH_SIZE && AllDistinct(ids) && OneHop(from) && e < |l| && l[0] != []
    requires LevelsOk(Row(ids, from), l) && LevelsDone(Row(ids, from), l, e)
    ensures l[e] != []
  {
    if e > 0 {
      RowLevels(ids, from, l, e - 1);
      assert LevelDone(Row(ids, from), l, e - 1);
      RowStep(ids, from, l, e - 1, l[e - 1][0]);
    }
  }

  /** And it does happen then: along a row of switches every search records a node at level 63. */
  lemma OutOfBounds(ids: seq<Guid>, from: Path, l: Levels, d: nat, r: Step)
    requires |ids| == PATH_SIZE && AllDistinct(ids) && OneHop(from) && Outcome(Row(ids, from), l, d, r)
    ensures l[MAXHOPS] != []
  {
    var t := Row(ids, from);
    RowLevels(ids, from, l, d);
    if r.Found? {
      var x :| x in l[d] && Hit(t, x, d, r.node);
      RowGuid(ids, from, l, d, x);
      RowLeads(ids, from, x, d, r.node.info);
    } else if r.Aborted? {
      var x :| x in l[d] && GivesUp(t, x, d);
      RowGuid(ids, from, l, d, x);
    }
  }

  // One outcome of that search, spelled out.

  /** The port by which the row goes on from its `e`-th node. */
  function RowPort(from: Path, e: nat): nat
    requires |from| == 2
  {
    if e == 0 || (e == 1 && from[1] == 2) then 1 else 2
  }

  function RowPath(from: Path, e: nat): (p: Path)
    requires |from| == 2 && e > 0
    ensures |p| == e
  {
    if e == 1 then from[..1] else RowPath(from, e - 1) + [RowPort(from, e - 1)]
  }

  function RowRecord(ids: seq<Guid>, from: Path, e: nat): Node
    requires |ids| == PATH_SIZE && |from| == 2 && e < PATH_SIZE
  {
    if e == 0 then Node(Row(ids, from).root, from, 0, None)
    else Node(Info(ids[e], true, 2, 1, 1), RowPath(from, e), e, Some(ids[e - 1]))
  }

  function RowLists(ids: seq<Guid>, from: Path): (l: Levels)
    requires |ids| == PATH_SIZE && |from| == 2
    ensures |l| == PATH_SIZE && forall e :: 0 <= e < |l| ==> l[e] == [RowRecord(ids, from, e)]
  {
    seq(PATH_SIZE, e requires 0 <= e < PATH_SIZE => [RowRecord(ids, from, e)])
  }

  lemma RowRecordOk(ids: seq<Guid>, from: Path, e: nat)
    requires |ids| == PATH_SIZE && OneHop(from) && e < PATH_SIZE
    ensures NodeOk(Row(ids, from), RowLists(ids, from), e, RowRecord(ids, from, e))
  {
    if e > 0 {
      var t, y := Row(ids, from), RowRecord(ids, from, e - 1);
      var i := RowPort(from, e - 1);
      RowEdge(ids, from, y, e - 1);
      RowLeads(ids, from, y, e - 1, Explored(t, y, e - 1, i).value);
      assert ProbePort(t, y, e - 1, i) == Ask(RowPath(from, e)) && Explored(t, y, e - 1, i) == Some(Info(ids[e], true, 2, 1, 1));
      assert y in RowLists(ids, from)[e - 1] && Reached(t, y, e - 1, RowPath(from, e), Info(ids[e], true, 2, 1, 1));
    }
  }

  lemma RowDone(ids: seq<Guid>, from: Path, e: nat)
    requires |ids| == PATH_SIZE && OneHop(from) && e < MAXHOPS
    ensures LevelDone(Row(ids, from), RowLists(ids, from), e)
  {
    var t, l, x := Row(ids, from), RowLists(ids, from), RowRecord(ids, from, e);
    forall i ensures PortDone(t, l, e, x, i) {
      if Explored(t, x, e, i).Some? {
        RowLeads(ids, from, x, e, Explored(t, x, e, i).value);
        assert RowRecord(ids, from, e + 1) in l[e + 1];
      }
    }
  }

  lemma RowListsOk(ids: seq<Guid>, from: Path)
    requires |ids| == PATH_SIZE && OneHop(from)
    ensures LevelsOk(Row(ids, from), RowLists(ids, from))
  {
    var t, l := Row(ids, from), RowLists(ids, from);
    forall e: nat, x | e < |l| && x in l[e] ensures NodeOk(t, l, e, x) { RowRecordOk(ids, from, e); }
  }

  lemma RowUnique(ids: seq<Guid>, from: Path)
    requires |ids| == PATH_SIZE && |from| == 2 && AllDistinct(ids)
    ensures Unique(RowLists(ids, from))
  {
    var l := RowLists(ids, from);
    forall e, f, x: Node, y: Node | 0 <= e < f < |l| && x in l[e] && y in l[f] ensures x.info.guid != y.info.guid {
      assert x == RowRecord(ids, from, e) && y == RowRecord(ids, from, f);
      assert x.info.guid == ids[e] && y.info.guid == ids[f];
    }
  }

  lemma RowOutcome(ids: seq<Guid>, from: Path)
    requires |ids| == PATH_SIZE && AllDistinct(ids) && OneHop(from)
    ensures Outcome(Row(ids, from), RowLists(ids, from), MAXHOPS, Next)
  {
    RowListsOk(ids, from);
    RowUnique(ids, from);
    forall e | 0 <= e < MAXHOPS ensures LevelDone(Row(ids, from), RowLists(ids, from), e) { RowDone(ids, from, e); }
  }

  lemma SomeGuids() returns (ids: seq<Guid>)
    ensures |ids| == PATH_SIZE && AllDistinct(ids)
  {
    ids := seq(PATH_SIZE, i requires 0 <= i < PATH_SIZE => OneBit(i));
    forall i, j | 0 <= i < j < |ids| ensures ids[i] != ids[j] { OneBitDistinct(i, j); }
  }

  /** A search that starts along `from`, at a node of this kind. */
  ghost predicate StartsAt(t: Task, from: Path, isSwitch: bool) {
    t.from == from && t.root.isSwitch == isSwitch && t.fabric.node(from) == Some(t.root)
  }

  /** For every fabric and target, a search from `from` leaves level 63 empty. */
  ghost predicate AlwaysInBounds(from: Path, isSwitch: bool) {
    forall t: Task, l: Levels, d: nat, r: Step :: StartsAt(t, from, isSwitch) && Outcome(t, l, d, r) ==> l[MAXHOPS] == []
  }

  /** The search keeps to its 63 lists in every fabric if and only if it does not start at an
      adapter one hop away. */
  lemma BoundsIff(from: Path, isSwitch: bool)
    requires from != []
    ensures AlwaysInBounds(from, isSwitch) <==> isSwitch || !OneHop(from)
  {
    if isSwitch || !OneHop(from) {
      forall t: Task, l: Levels, d: nat, r: Step | StartsAt(t, from, isSwitch) && Outcome(t, l, d, r)
        ensures l[MAXHOPS] == []
      {
        if l[MAXHOPS] != [] { InBounds(t, l, d, r); }
      }
    } else {
      var ids := SomeGuids();
      RowOutcome(ids, from);
      assert StartsAt(Row(ids, from), from, isSwitch);
    }
  }
}
