/** The table of mapped ports: lookup, reference counting and the client requests that change
    it (iwpmd/iwarp_pm_helper.c:350-548, iwpmd/iwarp_pm_server.c:315-579, 902-958).

    Every request has a meaning on values (`Apply`), and what every run of requests keeps is
    proved about it. `PortList` has the daemon's own form, a list of heap objects with
    counters that are taken and given back, each of its methods proved to have that meaning. */
module PortTable {
  import opened Addr
  import opened Options

  /** `id` stands for the identity of the heap object. */
  datatype Mapping = Mapping(id: nat, local: SockAddr, mapped: SockAddr, owner: int, refs: int)
  {
    predicate Wild() { Wildcard(local) }

    function Key(notMapped: bool): SockAddr { if notMapped then local else mapped }
  }

  /** `entries` in list order, newest first; ids from `next` on are unused. */
  datatype Table = Table(entries: seq<Mapping>, next: nat)

  // ----- lookup

  /** The condition of `find_iwpm_mapping`. */
  predicate Matches(e: Mapping, a: SockAddr, notMapped: bool) {
    Port(a) == Port(e.Key(notMapped)) && (Same(a, e.Key(notMapped)) || e.Wild() || Wildcard(a))
  }

  /** The condition of `find_iwpm_same_mapping`. */
  predicate SameKey(e: Mapping, a: SockAddr, notMapped: bool) {
    Same(a, e.Key(notMapped))
  }

  predicate Found(e: Mapping, a: SockAddr, notMapped: bool, exact: bool) {
    if exact then SameKey(e, a, notMapped) else Matches(e, a, notMapped)
  }

  /** The index of the first entry found, or the length. */
  function Find(s: seq<Mapping>, a: SockAddr, notMapped: bool, exact: bool): (i: nat)
    ensures i <= |s|
    ensures i < |s| ==> Found(s[i], a, notMapped, exact)
    ensures forall j :: 0 <= j < i ==> !Found(s[j], a, notMapped, exact)
  {
    if s == [] then 0
    else if Found(s[0], a, notMapped, exact) then 0
    else 1 + Find(s[1..], a, notMapped, exact)
  }

  /** Two mappings that must not be listed together: one TCP port, and an address in common. */
  predicate Conflict(e: Mapping, f: Mapping) {
    Port(e.local) == Port(f.local) && (Same(e.local, f.local) || e.Wild() || f.Wild())
  }

  ghost predicate ConflictFree(s: seq<Mapping>) {
    forall i, j :: 0 <= i < j < |s| ==> !Conflict(s[i], s[j])
  }

  /** In a conflict-free table an address that is not a wildcard has at most one match. */
  lemma UniqueMatch(s: seq<Mapping>, a: SockAddr, i: nat, j: nat)
    requires ConflictFree(s) && !Wildcard(a) && i < |s| && j < |s|
    requires Matches(s[i], a, true) && Matches(s[j], a, true)
    ensures i == j
  {}

  function Lookup(s: seq<Mapping>, a: SockAddr): Option<Mapping> {
    var i := Find(s, a, true, false);
    if i < |s| then Some(s[i]) else None
  }

  lemma LookupAnywhere(s: seq<Mapping>, a: SockAddr, i: nat)
    requires ConflictFree(s) && !Wildcard(a) && i < |s| && Matches(s[i], a, true)
    ensures Lookup(s, a) == Some(s[i])
  {
    UniqueMatch(s, a, i, Find(s, a, true, false));
  }

  lemma MemberIndex(s: seq<Mapping>, e: Mapping) returns (i: nat)
    requires e in multiset(s)
    ensures i < |s| && s[i] == e
  {
    assert e in s;
    i :| i < |s| && s[i] == e;
  }

  /** Hence what a lookup finds does not depend on the order of the list. */
  lemma LookupOrder(s: seq<Mapping>, t: seq<Mapping>, a: SockAddr)
    requires ConflictFree(s) && !Wildcard(a)
    requires multiset(s) == multiset(t)
    ensures Lookup(s, a) == Lookup(t, a)
  {
    var i, j := Find(s, a, true, false), Find(t, a, true, false);
    if i < |s| {
      assert s[i] in multiset(s);
      var k := MemberIndex(t, s[i]);
      assert Found(t[k], a, true, false);
    }
    if j < |t| {
      assert t[j] in multiset(t);
      var k := MemberIndex(s, t[j]);
      LookupAnywhere(s, a, k);
    }
  }

  /** At most one entry is on the port of `a`. */
  ghost predicate AloneOnPort(s: seq<Mapping>, a: SockAddr) {
    forall i, j :: 0 <= i < j < |s| ==> !(Port(s[i].local) == Port(a) && Port(s[j].local) == Port(a))
  }

  ghost predicate OrderImmaterial(s: seq<Mapping>, a: SockAddr) {
    forall t :: multiset(t) == multiset(s) ==> Lookup(t, a) == Lookup(s, a)
  }

  /** A wildcard address matches every entry on its port; for it the order of the list is
      immaterial exactly when the port has at most one entry. */
  lemma WildcardOrderIff(s: seq<Mapping>, a: SockAddr)
    requires Wildcard(a) && forall i, j :: 0 <= i < j < |s| ==> s[i] != s[j]
    ensures OrderImmaterial(s, a) <==> AloneOnPort(s, a)
  {
    if AloneOnPort(s, a) {
      forall t | multiset(t) == multiset(s)
        ensures Lookup(t, a) == Lookup(s, a)
      {
        SingleOnPort(s, t, a);
        SingleOnPort(t, s, a);
      }
    } else {
      var i, j :| 0 <= i < j < |s| && Port(s[i].local) == Port(a) && Port(s[j].local) == Port(a);
      var k := if Find(s, a, true, false) == i then j else i;
      var t := MoveToFront(s, a, k);
      assert Lookup(t, a) != Lookup(s, a);
    }
  }

  lemma MoveToFront(s: seq<Mapping>, a: SockAddr, k: nat) returns (t: seq<Mapping>)
    requires Wildcard(a) && k < |s| && Port(s[k].local) == Port(a)
    ensures multiset(t) == multiset(s) && Lookup(t, a) == Some(s[k])
  {
    t := [s[k]] + (s[..k] + s[k + 1..]);
    assert s == s[..k] + [s[k]] + s[k + 1..];
    assert Matches(t[0], a, true);
  }

  lemma SingleOnPort(s: seq<Mapping>, t: seq<Mapping>, a: SockAddr)
    requires Wildcard(a) && multiset(s) == multiset(t) && (AloneOnPort(s, a) || AloneOnPort(t, a))
    ensures Lookup(s, a).Some? ==> Lookup(t, a) == Lookup(s, a)
  {
    var i, j := Find(s, a, true, false), Find(t, a, true, false);
    if i < |s| {
      assert s[i] in multiset(s);
      var k := MemberIndex(t, s[i]);
      assert Matches(t[k], a, true);
      assert t[j] in multiset(t);
      var l := MemberIndex(s, t[j]);
      assert Matches(s[l], a, true);
    }
  }

  // ----- the requests, as steps on values

  /** `create_iwpm_mapped_port` and `reopen_iwpm_mapped_port` succeed or fail with the host;
      `sock` is the TCP port the host grants, if any, and `ok` all else they ask of it. */
  function CreateMapped(local: SockAddr, noPortMap: bool, sock: Option<nat>, ok: bool): Option<SockAddr> {
    if !ok then None
    else if noPortMap then Some(local)
    else if sock.Some? && local.family != Unsupported then Some(local.(port := sock.value))
    else None
  }

  /** A reopened mapping keeps its mapped address, unless that has no port yet. */
  function ReopenMapped(local: SockAddr, mapped: SockAddr, noPortMap: bool, sock: Option<nat>, ok: bool): Option<SockAddr> {
    if !ok || local.family != mapped.family then None
    else if noPortMap then Some(mapped)
    else if sock.Some? && local.family != Unsupported && (mapped.port == 0 || sock.value == mapped.port) then
      Some(mapped.(port := sock.value))
    else None
  }

  /** A client request, with what the host and the sockets made of it: `made` is the mapped
      address a new mapping would get, `sent` whether the rest of the request goes through
      (the reply to an add; the address family, the buffers and the tracker of a query). */
  datatype Op =
    | Add(addr: SockAddr, client: int, made: Option<SockAddr>, sent: bool)
    | Query(addr: SockAddr, client: int, made: Option<SockAddr>, sent: bool)
    | Remove(addr: SockAddr, client: int)
    | MapInfo(addr: SockAddr, mapped: SockAddr, client: int, made: Option<SockAddr>)

  /** A mapped address is of the family of the address it is for. */
  predicate MadeFor(addr: SockAddr, made: Option<SockAddr>) {
    made.Some? ==> made.value.family == addr.family
  }

  predicate OpFits(op: Op) {
    !op.Remove? ==> MadeFor(op.addr, op.made)
  }

  lemma MadeFits(local: SockAddr, mapped: SockAddr, noPortMap: bool, sock: Option<nat>, ok: bool)
    ensures MadeFor(local, CreateMapped(local, noPortMap, sock, ok))
    ensures MadeFor(local, ReopenMapped(local, mapped, noPortMap, sock, ok))
  {}

  /** A created mapping is of the local IP address, at the port that the host grants, or at the
      local port if ports are not to be mapped; a reopened one has its old mapped address, and
      the granted port, which must be the old one if it had one. */
  lemma MadeAddress(local: SockAddr, mapped: SockAddr, noPortMap: bool, sock: Option<nat>, ok: bool)
    requires local.family != Unsupported
    ensures var made := CreateMapped(local, noPortMap, sock, ok);
            && (made.Some? <==> ok && (noPortMap || sock.Some?))
            && (made.Some? ==> Ip(local.family, made.value) == Ip(local.family, local) && Wildcard(made.value) == Wildcard(local)
                               && Port(made.value) == if noPortMap then Port(local) else sock.value)
    ensures var made := ReopenMapped(local, mapped, noPortMap, sock, ok);
            && (made.Some? <==> ok && mapped.family == local.family && (noPortMap || (sock.Some? && (Port(mapped) == 0 || sock.value == Port(mapped)))))
            && (made.Some? ==> Ip(local.family, made.value) == Ip(local.family, mapped)
                               && Port(made.value) == if noPortMap then Port(mapped) else sock.value)
  {}

  ghost predicate OneFamily(t: Table) {
    forall e <- t.entries :: e.mapped.family == e.local.family
  }

  lemma ApplyOneFamily(t: Table, op: Op)
    requires OneFamily(t) && OpFits(op)
    ensures OneFamily(Apply(t, op).0)
  {}

  /** What the request came to: a reference to a mapping taken or dropped, or neither. */
  datatype Outcome = Took(id: nat) | Dropped(id: nat) | Neither

  function Fresh(t: Table, addr: SockAddr, mapped: SockAddr, client: int): Mapping {
    Mapping(t.next, addr, mapped, client, 1)
  }

  /** List a new mapping, at the head. */
  function Listed(t: Table, addr: SockAddr, mapped: SockAddr, client: int): Table {
    Table([Fresh(t, addr, mapped, client)] + t.entries, t.next + 1)
  }

  function WithRefs(t: Table, i: nat, d: int): Table
    requires i < |t.entries|
  {
    t.(entries := t.entries[i := t.entries[i].(refs := t.entries[i].refs + d)])
  }

  function Unlisted(t: Table, i: nat): Table
    requires i < |t.entries|
  {
    t.(entries := t.entries[..i] + t.entries[i + 1..])
  }

  /** A failed request leaves no trace but a used-up identity. */
  function NewMapping(t: Table, addr: SockAddr, client: int, made: Option<SockAddr>, sent: bool): (Table, Outcome) {
    if made.None? then (t, Neither)
    else if sent then (Listed(t, addr, made.value, client), Took(t.next))
    else (t.(next := t.next + 1), Neither)
  }

  function Apply(t: Table, op: Op): (Table, Outcome) {
    match op
    case Add(addr, client, made, sent) =>
      var i := Find(t.entries, addr, true, false);
      if i == |t.entries| then NewMapping(t, addr, client, made, sent)
      else if Same(addr, t.entries[i].local) && t.entries[i].Wild() && sent then (WithRefs(t, i, 1), Took(t.entries[i].id))
      else (t, Neither)
    case Query(addr, client, made, sent) =>
      var i := Find(t.entries, addr, true, false);
      if i == |t.entries| then NewMapping(t, addr, client, made, sent && !Wildcard(addr))
      else if sent && !t.entries[i].Wild() then (WithRefs(t, i, 1), Took(t.entries[i].id))
      else (t, Neither)
    case Remove(addr, client) =>
      var i := Find(t.entries, addr, true, true);
      if i == |t.entries| || t.entries[i].owner != client then (t, Neither)
      else if t.entries[i].refs == 1 then (Unlisted(t, i), Dropped(t.entries[i].id))
      else (WithRefs(t, i, -1), Dropped(t.entries[i].id))
    case MapInfo(addr, mapped, client, made) =>
      var i := Find(t.entries, addr, true, false);
      if i == |t.entries| then NewMapping(t, addr, client, made, true) else (t, Neither)
  }

  /** The mapping that serves `addr` is exactly the one that a restarted client reports. */
  predicate Duplicate(t: Table, addr: SockAddr, mapped: SockAddr) {
    var i := Find(t.entries, addr, true, false);
    i < |t.entries| && Same(t.entries[i].local, addr) && Same(t.entries[i].mapped, mapped)
  }

  /** In a conflict-free table a reported mapping is a duplicate if and only if it is listed. */
  lemma DuplicateIff(t: Table, addr: SockAddr, mapped: SockAddr)
    requires ConflictFree(t.entries)
    ensures Duplicate(t, addr, mapped) <==> exists e <- t.entries :: Same(e.local, addr) && Same(e.mapped, mapped)
  {
    var i := Find(t.entries, addr, true, false);
    if e :| e in t.entries && Same(e.local, addr) && Same(e.mapped, mapped) {
      var j :| 0 <= j < |t.entries| && t.entries[j] == e;
      SameEquivalence(e.local, addr, addr);
      SameEquivalence(t.entries[j].local, addr, t.entries[i].local);
      assert i == j;
    }
  }

  // ----- what each request comes to, by what is listed

  /** A mapping on the port of `a` shares an address with it. */
  ghost predicate Taken(t: Table, a: SockAddr) {
    exists e <- t.entries :: Port(e.local) == Port(a) && (Same(e.local, a) || Wildcard(e.local) || Wildcard(a))
  }

  lemma FindsNone(t: Table, a: SockAddr)
    ensures Find(t.entries, a, true, false) == |t.entries| <==> !Taken(t, a)
  {
    var i := Find(t.entries, a, true, false);
    if i < |t.entries| {
      SameEquivalence(a, t.entries[i].local, a);
      assert t.entries[i] in t.entries;
    } else {
      forall e <- t.entries ensures !(Port(e.local) == Port(a) && (Same(e.local, a) || Wildcard(e.local) || Wildcard(a))) {
        var j :| 0 <= j < |t.entries| && t.entries[j] == e;
        SameEquivalence(e.local, a, a);
        assert !Found(t.entries[j], a, true, false);
      }
    }
  }

  /** The listed mapping of an address is what a lookup of it finds. */
  lemma FindsListed(t: Table, a: SockAddr, e: Mapping, exact: bool)
    requires ConflictFree(t.entries) && e in t.entries && Same(e.local, a)
    ensures var i := Find(t.entries, a, true, exact); i < |t.entries| && t.entries[i] == e
  {
    var j :| 0 <= j < |t.entries| && t.entries[j] == e;
    var i := Find(t.entries, a, true, exact);
    SameEquivalence(e.local, a, a);
    assert Found(t.entries[j], a, true, exact);
    SameEquivalence(e.local, a, t.entries[i].local);
    assert i == j;
  }

  /** Mapping `i` gets `d` more references, and nothing else changes. */
  ghost predicate Recounted(t: Table, t': Table, i: nat, d: int) {
    && i < |t.entries| && t'.next == t.next
    && t'.entries == t.entries[i := t.entries[i].(refs := t.entries[i].refs + d)]
  }

  /** A new mapping at the head, and nothing else changes. */
  ghost predicate Created(t: Table, t': Table, addr: SockAddr, mapped: SockAddr, client: int) {
    t' == Table([Mapping(t.next, addr, mapped, client, 1)] + t.entries, t.next + 1)
  }

  /** An add lists a new mapping if the address is free and the host gives one, takes a
      reference if it repeats a listed wildcard, and else changes no mapping. */
  lemma AddIff(t: Table, addr: SockAddr, client: int, made: Option<SockAddr>, sent: bool)
    requires ConflictFree(t.entries)
    ensures var (t', o) := Apply(t, Add(addr, client, made, sent));
            && (o.Took? <==> sent && ((made.Some? && !Taken(t, addr)) || (Wildcard(addr) && exists e <- t.entries :: Same(e.local, addr))))
            && (o.Took? && !Taken(t, addr) ==> o == Took(t.next) && Created(t, t', addr, made.value, client))
            && (o.Took? && Taken(t, addr) ==>
                  exists i: nat :: Recounted(t, t', i, 1) && Same(t.entries[i].local, addr) && o == Took(t.entries[i].id))
            && (!o.Took? ==> o == Neither && t'.entries == t.entries)
  {
    var (t', o) := Apply(t, Add(addr, client, made, sent));
    FindsNone(t, addr);
    if e :| e in t.entries && Same(e.local, addr) {
      FindsListed(t, addr, e, false);
      SameEquivalence(e.local, addr, addr);
      assert Taken(t, addr);
    }
    if o.Took? && Taken(t, addr) {
      var i := Find(t.entries, addr, true, false);
      SameEquivalence(addr, t.entries[i].local, addr);
      assert t.entries[i] in t.entries && Recounted(t, t', i, 1);
    }
  }

  /** The mappings that can serve a query from `a`. */
  predicate CanServe(e: Mapping, a: SockAddr) {
    !Wildcard(e.local) && Port(e.local) == Port(a) && (Same(e.local, a) || Wildcard(a))
  }

  lemma FindsServing(t: Table, a: SockAddr, e: Mapping)
    requires ConflictFree(t.entries) && e in t.entries && CanServe(e, a)
    ensures var i := Find(t.entries, a, true, false); i < |t.entries| && CanServe(t.entries[i], a)
  {
    if Same(e.local, a) {
      FindsListed(t, a, e, false);
    } else {
      var j :| 0 <= j < |t.entries| && t.entries[j] == e;
      var i := Find(t.entries, a, true, false);
      assert Found(t.entries[j], a, true, false);
      assert i == j || !Conflict(t.entries[if i < j then i else j], t.entries[if i < j then j else i]);
    }
  }

  /** A query takes a reference to a listed mapping that is no wildcard and has its address, or
      any on its port if it has a wildcard address; it lists a new one if its address is free
      and no wildcard; and else changes no mapping. */
  lemma QueryIff(t: Table, addr: SockAddr, client: int, made: Option<SockAddr>, sent: bool)
    requires ConflictFree(t.entries)
    ensures var (t', o) := Apply(t, Query(addr, client, made, sent));
            && (o.Took? <==> sent && ((made.Some? && !Wildcard(addr) && !Taken(t, addr)) || exists e <- t.entries :: CanServe(e, addr)))
            && (o.Took? && !Taken(t, addr) ==> o == Took(t.next) && Created(t, t', addr, made.value, client))
            && (o.Took? && Taken(t, addr) ==>
                  exists i: nat :: Recounted(t, t', i, 1) && CanServe(t.entries[i], addr) && o == Took(t.entries[i].id))
            && (!o.Took? ==> o == Neither && t'.entries == t.entries)
  {
    var (t', o) := Apply(t, Query(addr, client, made, sent));
    FindsNone(t, addr);
    if e :| e in t.entries && CanServe(e, addr) {
      FindsServing(t, addr, e);
      assert Taken(t, addr);
    }
    if o.Took? && Taken(t, addr) {
      var i := Find(t.entries, addr, true, false);
      SameEquivalence(addr, t.entries[i].local, addr);
      assert t.entries[i] in t.entries && CanServe(t.entries[i], addr) && Recounted(t, t', i, 1);
    }
  }

  /** A removal drops a reference if the client owns the listed mapping of that address, which
      is unlisted with its last reference; else it changes nothing. */
  lemma RemoveIff(t: Table, addr: SockAddr, client: int)
    requires ConflictFree(t.entries)
    ensures var (t', o) := Apply(t, Remove(addr, client));
            && (o.Dropped? <==> exists e <- t.entries :: Same(e.local, addr) && e.owner == client)
            && (o.Dropped? ==>
                  exists i: nat :: i < |t.entries| && Same(t.entries[i].local, addr) && t.entries[i].owner == client && o == Dropped(t.entries[i].id) &&
                    if t.entries[i].refs == 1 then t' == t.(entries := t.entries[..i] + t.entries[i + 1..]) else Recounted(t, t', i, -1))
            && (!o.Dropped? ==> o == Neither && t' == t)
  {
    var (t', o) := Apply(t, Remove(addr, client));
    if e :| e in t.entries && Same(e.local, addr) && e.owner == client {
      FindsListed(t, addr, e, true);
    }
    if o.Dropped? {
      var i := Find(t.entries, addr, true, true);
      SameEquivalence(addr, t.entries[i].local, addr);
      assert t.entries[i] in t.entries;
      assert t.entries[i].refs != 1 ==> Recounted(t, t', i, -1);
    }
  }

  /** The mapping information of a client is listed if its address is free and the host gives
      it; else it changes no mapping. */
  lemma MapInfoIff(t: Table, addr: SockAddr, mapped: SockAddr, client: int, made: Option<SockAddr>)
    ensures var (t', o) := Apply(t, MapInfo(addr, mapped, client, made));
            && (o.Took? <==> made.Some? && !Taken(t, addr))
            && (o.Took? ==> o == Took(t.next) && Created(t, t', addr, made.value, client))
            && (!o.Took? ==> o == Neither && t'.entries == t.entries)
  {
    FindsNone(t, addr);
  }

  /** A removal by the owner of `e`. */
  predicate ByOwner(op: Op, e: Mapping) {
    op.Remove? && op.client == e.owner && Same(op.addr, e.local)
  }

  /** The same mapping, with no fewer references. */
  predicate Keeps(e: Mapping, f: Mapping) {
    f == e.(refs := f.refs) && f.refs >= e.refs
  }

  /** Only its owner can take a reference to a mapping, or the mapping itself, away. */
  lemma OwnerOnly(t: Table, op: Op, e: Mapping) returns (f: Mapping)
    requires e in t.entries && !ByOwner(op, e)
    ensures f in Apply(t, op).0.entries && Keeps(e, f)
  {
    var t' := Apply(t, op).0;
    var j :| 0 <= j < |t.entries| && t.entries[j] == e;
    var i := Find(t.entries, op.addr, true, op.Remove?);
    if Apply(t, op).1.Dropped? {
      assert i != j;
      f := e;
      if t.entries[i].refs == 1 {
        if j < i { assert t'.entries[j] == e; } else { assert t'.entries[j - 1] == e; }
      } else {
        assert t'.entries[j] == e;
      }
    } else if |t'.entries| > |t.entries| {
      f := e;
      assert t'.entries[j + 1] == e;
    } else {
      f := t'.entries[j];
    }
  }

  // ----- every run of requests

  const EMPTY := Table([], 0)

  function Run(ops: seq<Op>): Table
    decreases |ops|
  {
    if ops == [] then EMPTY else Apply(Run(ops[..|ops| - 1]), ops[|ops| - 1]).0
  }

  function Outcomes(ops: seq<Op>): seq<Outcome>
    decreases |ops|
  {
    if ops == [] then []
    else Outcomes(ops[..|ops| - 1]) + [Apply(Run(ops[..|ops| - 1]), ops[|ops| - 1]).1]
  }

  /** References to mapping `id` taken minus references dropped. */
  function Balance(log: seq<Outcome>, id: nat): int {
    if log == [] then 0
    else
      Balance(log[..|log| - 1], id) +
      match log[|log| - 1]
      case Took(x) => if x == id then 1 else 0
      case Dropped(x) => if x == id then -1 else 0
      case Neither => 0
  }

  ghost predicate DistinctIds(t: Table) {
    && (forall i :: 0 <= i < |t.entries| ==> t.entries[i].id < t.next)
    && (forall i, j :: 0 <= i < j < |t.entries| ==> t.entries[i].id != t.entries[j].id)
  }

  ghost predicate Counted(t: Table, log: seq<Outcome>) {
    && (forall i :: 0 <= i < |t.entries| ==> t.entries[i].refs == Balance(log, t.entries[i].id) >= 1)
    && (forall id: nat :: (forall i :: 0 <= i < |t.entries| ==> t.entries[i].id != id) ==> Balance(log, id) == 0)
  }

  lemma NewMappingConflictFree(t: Table, addr: SockAddr, mapped: SockAddr, client: int)
    requires ConflictFree(t.entries) && Find(t.entries, addr, true, false) == |t.entries|
    ensures ConflictFree(Listed(t, addr, mapped, client).entries)
  {
    var s := Listed(t, addr, mapped, client).entries;
    forall i, j | 0 <= i < j < |s|
      ensures !Conflict(s[i], s[j])
    {
      if i == 0 {
        assert !Found(t.entries[j - 1], addr, true, false);
      } else {
        assert !Conflict(t.entries[i - 1], t.entries[j - 1]);
      }
    }
  }

  lemma AnyNewConflictFree(t: Table, addr: SockAddr, client: int, made: Option<SockAddr>, sent: bool)
    requires ConflictFree(t.entries) && Find(t.entries, addr, true, false) == |t.entries|
    ensures ConflictFree(NewMapping(t, addr, client, made, sent).0.entries)
  {
    if made.Some? { NewMappingConflictFree(t, addr, made.value, client); }
  }

  lemma WithRefsConflictFree(t: Table, i: nat, d: int)
    requires ConflictFree(t.entries) && i < |t.entries|
    ensures ConflictFree(WithRefs(t, i, d).entries)
  {
    var s := WithRefs(t, i, d).entries;
    forall j, k | 0 <= j < k < |s| ensures !Conflict(s[j], s[k]) {
      assert !Conflict(t.entries[j], t.entries[k]);
    }
  }

  lemma UnlistedConflictFree(t: Table, i: nat)
    requires ConflictFree(t.entries) && i < |t.entries|
    ensures ConflictFree(Unlisted(t, i).entries)
  {
    var s := Unlisted(t, i).entries;
    forall j, k | 0 <= j < k < |s| ensures !Conflict(s[j], s[k]) {
      assert !Conflict(t.entries[if j < i then j else j + 1], t.entries[if k < i then k else k + 1]);
    }
  }

  lemma RemoveConflictFree(t: Table, addr: SockAddr, client: int)
    requires ConflictFree(t.entries)
    ensures ConflictFree(Apply(t, Remove(addr, client)).0.entries)
  {
    var i := Find(t.entries, addr, true, true);
    if i < |t.entries| {
      WithRefsConflictFree(t, i, -1);
      UnlistedConflictFree(t, i);
    }
  }

  /** No two listed mappings with one TCP port share an address or include a wildcard. */
  lemma ApplyConflictFree(t: Table, op: Op)
    requires ConflictFree(t.entries)
    ensures ConflictFree(Apply(t, op).0.entries)
  {
    if op.Remove? {
      RemoveConflictFree(t, op.addr, op.client);
    } else {
      var i := Find(t.entries, op.addr, true, false);
      if i < |t.entries| {
        WithRefsConflictFree(t, i, 1);
      } else {
        AnyNewConflictFree(t, op.addr, op.client, op.made,
                           match op case Add(_, _, _, sent) => sent case Query(_, _, _, sent) => sent && !Wildcard(op.addr) case _ => true);
      }
    }
  }

  lemma BalanceSnoc(log: seq<Outcome>, o: Outcome, id: nat)
    ensures Balance(log + [o], id) == Balance(log, id) + (if o == Took(id) then 1 else if o == Dropped(id) then -1 else 0)
  {
    assert (log + [o])[..|log|] == log;
  }

  ghost predicate Sound(t: Table, log: seq<Outcome>) {
    DistinctIds(t) && Counted(t, log)
  }

  lemma NeitherSound(t: Table, next: nat, log: seq<Outcome>)
    requires Sound(t, log) && t.next <= next
    ensures Sound(t.(next := next), log + [Neither])
  {
    forall id: nat ensures Balance(log + [Neither], id) == Balance(log, id) { BalanceSnoc(log, Neither, id); }
  }

  lemma ListedDistinct(t: Table, addr: SockAddr, mapped: SockAddr, client: int)
    requires DistinctIds(t)
    ensures DistinctIds(Listed(t, addr, mapped, client))
  {
    var s := Listed(t, addr, mapped, client).entries;
    forall i | 0 < i < |s| ensures s[i] == t.entries[i - 1] {}
  }

  lemma ListedSound(t: Table, addr: SockAddr, mapped: SockAddr, client: int, log: seq<Outcome>)
    requires Sound(t, log)
    ensures Sound(Listed(t, addr, mapped, client), log + [Took(t.next)])
  {
    var t' := Listed(t, addr, mapped, client);
    ListedDistinct(t, addr, mapped, client);
    forall i | 0 <= i < |t'.entries|
      ensures t'.entries[i].refs == Balance(log + [Took(t.next)], t'.entries[i].id) >= 1
    {
      BalanceSnoc(log, Took(t.next), t'.entries[i].id);
      if i > 0 { assert t'.entries[i] == t.entries[i - 1]; }
    }
    forall id: nat | forall i :: 0 <= i < |t'.entries| ==> t'.entries[i].id != id
      ensures Balance(log + [Took(t.next)], id) == 0
    {
      BalanceSnoc(log, Took(t.next), id);
      assert t'.entries[0].id != id;
      forall i | 0 <= i < |t.entries| ensures t.entries[i].id != id { assert t'.entries[i + 1] == t.entries[i]; }
    }
  }

  lemma WithRefsSound(t: Table, i: nat, d: int, log: seq<Outcome>)
    requires Sound(t, log) && i < |t.entries| && (d == 1 || (d == -1 && t.entries[i].refs > 1))
    ensures Sound(WithRefs(t, i, d), log + [if d == 1 then Took(t.entries[i].id) else Dropped(t.entries[i].id)])
  {
    var t', o := WithRefs(t, i, d), if d == 1 then Took(t.entries[i].id) else Dropped(t.entries[i].id);
    forall j | 0 <= j < |t'.entries|
      ensures t'.entries[j].refs == Balance(log + [o], t'.entries[j].id) >= 1
    {
      BalanceSnoc(log, o, t'.entries[j].id);
    }
    forall id: nat | forall j :: 0 <= j < |t'.entries| ==> t'.entries[j].id != id
      ensures Balance(log + [o], id) == 0
    {
      BalanceSnoc(log, o, id);
      assert t'.entries[i].id != id;
      forall j | 0 <= j < |t.entries| ensures t.entries[j].id != id { assert t'.entries[j].id == t.entries[j].id; }
    }
  }

  lemma UnlistedAt(t: Table, i: nat, j: nat)
    requires i < |t.entries| && j < |t.entries| - 1
    ensures Unlisted(t, i).entries[j] == t.entries[if j < i then j else j + 1]
  {}

  lemma UnlistedDistinct(t: Table, i: nat)
    requires DistinctIds(t) && i < |t.entries|
    ensures DistinctIds(Unlisted(t, i))
  {
    var t' := Unlisted(t, i);
    forall j | 0 <= j < |t'.entries| ensures t'.entries[j].id < t'.next { UnlistedAt(t, i, j); }
    forall j, k | 0 <= j < k < |t'.entries| ensures t'.entries[j].id != t'.entries[k].id {
      UnlistedAt(t, i, j);
      UnlistedAt(t, i, k);
    }
  }

  lemma UnlistedSound(t: Table, i: nat, log: seq<Outcome>)
    requires Sound(t, log) && i < |t.entries| && t.entries[i].refs == 1
    ensures Sound(Unlisted(t, i), log + [Dropped(t.entries[i].id)])
  {
    var t', o := Unlisted(t, i), Dropped(t.entries[i].id);
    UnlistedDistinct(t, i);
    forall j | 0 <= j < |t'.entries|
      ensures t'.entries[j].refs == Balance(log + [o], t'.entries[j].id) >= 1
    {
      BalanceSnoc(log, o, t'.entries[j].id);
      UnlistedAt(t, i, j);
    }
    forall id: nat | forall j :: 0 <= j < |t'.entries| ==> t'.entries[j].id != id
      ensures Balance(log + [o], id) == 0
    {
      BalanceSnoc(log, o, id);
      if id != t.entries[i].id { StillUnlisted(t, i, id); }
    }
  }

  lemma StillUnlisted(t: Table, i: nat, id: nat)
    requires i < |t.entries| && id != t.entries[i].id
    requires forall j :: 0 <= j < |Unlisted(t, i).entries| ==> Unlisted(t, i).entries[j].id != id
    ensures forall j :: 0 <= j < |t.entries| ==> t.entries[j].id != id
  {
    forall j | 0 <= j < |t.entries| ensures t.entries[j].id != id {
      if j != i {
        var k := if j < i then j else j - 1;
        UnlistedAt(t, i, k);
        assert Unlisted(t, i).entries[k].id != id;
      }
    }
  }

  /** Every listed mapping appears once, with a count of at least one that is exactly the
      references taken less those dropped; whatever is not listed has none outstanding. */
  lemma ApplySound(t: Table, op: Op, log: seq<Outcome>)
    requires Sound(t, log)
    ensures Sound(Apply(t, op).0, log + [Apply(t, op).1])
  {
    var i := Find(t.entries, op.addr, true, op.Remove?);
    if Apply(t, op).1 == Neither {
      NeitherSound(t, Apply(t, op).0.next, log);
    } else if i == |t.entries| {
      ListedSound(t, op.addr, op.made.value, op.client, log);
    } else if op.Remove? {
      if t.entries[i].refs == 1 { UnlistedSound(t, i, log); } else { WithRefsSound(t, i, -1, log); }
    } else {
      WithRefsSound(t, i, 1, log);
    }
  }

  /** After any sequence of requests. */
  lemma {:induction false} RunInvariant(ops: seq<Op>)
    ensures ConflictFree(Run(ops).entries) && Sound(Run(ops), Outcomes(ops))
    decreases |ops|
  {
    if ops == [] {
      assert Run(ops) == EMPTY;
    } else {
      var rest, op := ops[..|ops| - 1], ops[|ops| - 1];
      RunInvariant(rest);
      ApplyConflictFree(Run(rest), op);
      ApplySound(Run(rest), op, Outcomes(rest));
    }
  }

  /** Over any stretch of requests in which its owner does not remove it, a mapping stays
      listed, with its addresses and its owner, and loses no reference. */
  lemma {:induction false} StaysListed(ops: seq<Op>, m: nat, n: nat, e: Mapping) returns (f: Mapping)
    requires m <= n <= |ops| && e in Run(ops[..m]).entries && forall i :: m <= i < n ==> !ByOwner(ops[i], e)
    ensures f in Run(ops[..n]).entries && Keeps(e, f)
    decreases n
  {
    if n == m {
      f := e;
    } else {
      var g := StaysListed(ops, m, n - 1, e);
      assert ops[..n][..n - 1] == ops[..n - 1] && !ByOwner(ops[n - 1], g);
      f := OwnerOnly(Run(ops[..n - 1]), ops[n - 1], g);
    }
  }
}
