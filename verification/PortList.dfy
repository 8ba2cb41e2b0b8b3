/** The table of mapped ports in the daemon's own form: a list of heap objects whose
    reference counts are taken on entry to a request and given back on its error paths.
    Every method is proved to have the effect of one `PortTable.Apply` step. */
module PortList {
  import opened Addr
  import opened Options
  import opened PortTable

  /** `iwpm_mapped_port`; `id` names the object in the specification. */
  class MappedPort {
    const id: nat
    const local: SockAddr
    const mapped: SockAddr
    const owner: int
    const wcard: bool
    var refCnt: int

    /** `get_iwpm_port`. */
    constructor (id: nat, local: SockAddr, mapped: SockAddr, owner: int)
      ensures this.id == id && this.local == local && this.mapped == mapped && this.owner == owner
      ensures wcard == Wildcard(local) && refCnt == 1
    {
      this.id, this.local, this.mapped, this.owner := id, local, mapped, owner;
      this.wcard := Wildcard(local);
      this.refCnt := 1;
    }

    function Value(): Mapping
      reads this
    {
      Mapping(id, local, mapped, owner, refCnt)
    }
  }

  function Values(ports: seq<MappedPort>): (s: seq<Mapping>)
    reads ports
    ensures |s| == |ports| && forall i :: 0 <= i < |s| ==> s[i] == ports[i].Value()
  {
    seq(|ports|, i requires 0 <= i < |ports| reads ports => ports[i].Value())
  }

  class PortList {
    var ports: seq<MappedPort>
    var next: nat
    ghost var freed: set<MappedPort>

    ghost predicate Valid()
      reads this, ports
    {
      && (forall i, j :: 0 <= i < j < |ports| ==> ports[i] != ports[j])
      && (forall i :: 0 <= i < |ports| ==> ports[i].wcard == Wildcard(ports[i].local) && ports[i].refCnt >= 1)
      && (forall p <- ports :: p !in freed)
    }

    function View(): Table
      reads this, ports
    {
      Table(Values(ports), next)
    }

    constructor ()
      ensures Valid() && View() == EMPTY && freed == {}
    {
      ports, next, freed := [], 0, {};
    }

    /** The walk of `find_iwpm_mapping` (`exact` false) and `find_iwpm_same_mapping`. */
    method Search(a: SockAddr, notMapped: bool, exact: bool) returns (i: nat)
      requires Valid()
      ensures i == Find(View().entries, a, notMapped, exact)
    {
      i := 0;
      while i < |ports|
        invariant i <= |ports|
        invariant forall j :: 0 <= j < i ==> !Found(View().entries[j], a, notMapped, exact)
      {
        var p := ports[i];
        var key := if notMapped then p.local else p.mapped;
        if exact && Same(a, key) {
          break;
        }
        if !exact && Port(a) == Port(key) && (Same(a, key) || p.wcard || Wildcard(a)) {
          break;
        }
        i := i + 1;
      }
      FindIs(View().entries, a, notMapped, exact, i);
    }

    /** `atomic_fetch_add` on a listed mapping. */
    method Take(i: nat) returns (p: MappedPort)
      requires Valid() && i < |ports|
      modifies ports[i]
      ensures Valid() && p == ports[i] && p.refCnt > 1 && View() == WithRefs(old(View()), i, 1)
    {
      p := ports[i];
      p.refCnt := p.refCnt + 1;
    }

    /** `atomic_fetch_sub` on a listed mapping, which leaves the list with its last reference. */
    method Drop(i: nat)
      requires Valid() && i < |ports|
      modifies this`ports, this`freed, ports[i]
      ensures Valid()
      ensures View() == if old(ports[i].refCnt) == 1 then Unlisted(old(View()), i) else WithRefs(old(View()), i, -1)
    {
      var p := ports[i];
      p.refCnt := p.refCnt - 1;
      if p.refCnt == 0 {
        ports := ports[..i] + ports[i + 1..];
        freed := freed + {p};
      }
    }

    /** The end that the add and query requests share. On an error the reference is given
        back and the object freed if it was the last; otherwise `add_iwpm_mapped_port` lists
        the object unless its count shows that it already is. */
    method Finish(p: MappedPort, sent: bool, ghost i: nat)
      requires Valid()
      requires if i < |ports| then p == ports[i] && p.refCnt > 1
               else p !in ports && p !in freed && p.refCnt == 1 && p.wcard == Wildcard(p.local)
      modifies this`ports, this`freed, p
      ensures Valid() && next == old(next)
      ensures i < old(|ports|) ==> ports == old(ports) && freed == old(freed)
      ensures i < old(|ports|) ==> View() == if sent then old(View()) else WithRefs(old(View()), i, -1)
      ensures i >= old(|ports|) ==>
              View().entries == if sent then [old(p.Value())] + old(View().entries) else old(View().entries)
      ensures i >= old(|ports|) ==> freed == if sent then old(freed) else old(freed) + {p}
    {
      if !sent {
        p.refCnt := p.refCnt - 1;
        if p.refCnt == 0 {
          freed := freed + {p};
        }
      } else if p.refCnt <= 1 {
        ports := [p] + ports;
      }
    }

    /** A new object, known to no one yet. */
    method Create(addr: SockAddr, mapped: SockAddr, client: int) returns (p: MappedPort)
      requires Valid()
      modifies this`next
      ensures Valid() && fresh(p) && next == old(next) + 1 && View().entries == old(View().entries)
      ensures p.Value() == Fresh(old(View()), addr, mapped, client) && p.wcard == Wildcard(addr)
    {
      p := new MappedPort(next, addr, mapped, client);
      next := next + 1;
    }

    /** A request served by a listed mapping. */
    method UseListed(i: nat, sent: bool)
      requires Valid() && i < |ports|
      modifies this, ports
      ensures Valid() && View() == if sent then WithRefs(old(View()), i, 1) else old(View())
    {
      RefsUndo(View(), i);
      var p := Take(i);
      Finish(p, sent, i);
    }

    /** A request served by a new mapping. */
    method UseNew(addr: SockAddr, mapped: SockAddr, client: int, sent: bool)
      requires Valid()
      modifies this, ports
      ensures Valid() && View() == NewMapping(old(View()), addr, client, Some(mapped), sent).0
    {
      var p := Create(addr, mapped, client);
      Finish(p, sent, |ports|);
    }

    /** `process_iwpm_add_mapping`. */
    method AddMapping(addr: SockAddr, client: int, noPortMap: bool, sock: Option<nat>, hostOk: bool, sent: bool)
      returns (ok: bool)
      requires Valid()
      modifies this, ports
      ensures Valid()
      ensures var r := Apply(old(View()), Add(addr, client, CreateMapped(addr, noPortMap, sock, hostOk), sent));
              View() == r.0 && ok == r.1.Took?
    {
      var i := Search(addr, true, false);
      if i < |ports| {
        if !(Same(addr, ports[i].local) && ports[i].wcard) {
          return false;
        }
        UseListed(i, sent);
      } else {
        var made := CreateMapped(addr, noPortMap, sock, hostOk);
        if made.None? {
          return false;
        }
        UseNew(addr, made.value, client, sent);
      }
      ok := sent;
    }

    /** The part of `process_iwpm_query_mapping` that works on the table. */
    method QueryMapping(addr: SockAddr, client: int, noPortMap: bool, sock: Option<nat>, hostOk: bool, sent: bool)
      returns (ok: bool)
      requires Valid()
      modifies this, ports
      ensures Valid()
      ensures var r := Apply(old(View()), Query(addr, client, CreateMapped(addr, noPortMap, sock, hostOk), sent));
              View() == r.0 && ok == r.1.Took?
    {
      var i := Search(addr, true, false);
      if i < |ports| {
        ok := !ports[i].wcard && sent;
        UseListed(i, ok);
      } else {
        var made := CreateMapped(addr, noPortMap, sock, hostOk);
        if made.None? {
          return false;
        }
        ok := !Wildcard(addr) && sent;
        UseNew(addr, made.value, client, ok);
      }
    }

    /** `process_iwpm_remove_mapping`: an object is freed only after it has left the list. */
    method RemoveMapping(addr: SockAddr, client: int) returns (ok: bool)
      requires Valid()
      modifies this, ports
      ensures Valid()
      ensures var r := Apply(old(View()), Remove(addr, client));
              View() == r.0 && ok == r.1.Dropped?
    {
      var i := Search(addr, true, true);
      if i == |ports| || ports[i].owner != client {
        return false;
      }
      Drop(i);
      ok := true;
    }

    /** `process_iwpm_mapinfo`. */
    method MapInfoRequest(addr: SockAddr, mapped: SockAddr, client: int, noPortMap: bool, sock: Option<nat>, hostOk: bool)
      returns (ok: bool)
      requires Valid()
      modifies this, ports
      ensures Valid()
      ensures var r := Apply(old(View()), MapInfo(addr, mapped, client, ReopenMapped(addr, mapped, noPortMap, sock, hostOk)));
              View() == r.0 && (ok <==> r.1.Took? || Duplicate(old(View()), addr, mapped))
    {
      var i := Search(addr, true, false);
      if i < |ports| {
        var e := ports[i];
        ok := Same(e.local, addr) && Same(e.mapped, mapped);
        return;
      }
      var made := ReopenMapped(addr, mapped, noPortMap, sock, hostOk);
      if made.None? {
        return false;
      }
      UseNew(addr, made.value, client, true);
      ok := true;
    }
  }

  lemma RefsUndo(t: Table, i: nat)
    requires i < |t.entries|
    ensures WithRefs(WithRefs(t, i, 1), i, -1) == t
  {}

  lemma FindIs(s: seq<Mapping>, a: SockAddr, notMapped: bool, exact: bool, i: nat)
    requires i <= |s| && (i < |s| ==> Found(s[i], a, notMapped, exact))
    requires forall j :: 0 <= j < i ==> !Found(s[j], a, notMapped, exact)
    ensures i == Find(s, a, notMapped, exact)
  {}
}
