/** Socket addresses as the port mapper daemon compares them (iwpmd/iwarp_pm_helper.c:435-468,
    iwpmd/iwarp_pm_common.c:496-609).

    A `sockaddr_storage` holds the family, the port and, at different offsets, an IPv4 and an
    IPv6 address; both are kept here, for the daemon copies by the family of the message even
    when the address is of the other family. */
module Addr {

  datatype Family = Inet | Inet6 | Unsupported

  datatype SockAddr = SockAddr(family: Family, port: nat, ip4: nat, ip6: nat)

  /** An IP address and a port in a message, whose family the message gives. */
  datatype Peer = Peer(ip: nat, port: nat)

  /** `get_sockaddr_port`. */
  function Port(a: SockAddr): nat {
    if a.family == Unsupported then 0 else a.port
  }

  function Ip(fam: Family, a: SockAddr): nat {
    match fam
    case Inet => a.ip4
    case Inet6 => a.ip6
    case Unsupported => 0
  }

  /** `check_same_sockaddr`: two addresses of a family the daemon does not know are never the same. */
  predicate Same(a: SockAddr, b: SockAddr) {
    a.family == b.family && a.family != Unsupported && Ip(a.family, a) == Ip(b.family, b) && a.port == b.port
  }

  /** `is_wcard_ipaddr`: 0.0.0.0 or ::. */
  predicate Wildcard(a: SockAddr) {
    a.family != Unsupported && Ip(a.family, a) == 0
  }

  /** `copy_iwpm_sockaddr` from an address into a message. */
  function ToPeer(fam: Family, a: SockAddr): Peer {
    Peer(Ip(fam, a), a.port)
  }

  /** `copy_iwpm_sockaddr` from a message into an address. */
  function FromPeer(fam: Family, p: Peer): SockAddr {
    SockAddr(fam, p.port, if fam == Inet then p.ip else 0, if fam == Inet6 then p.ip else 0)
  }

  /** An address survives the trip through a message of its own family, as far as the
      daemon can tell. */
  lemma PeerRoundTrip(a: SockAddr)
    requires a.family != Unsupported
    ensures Same(FromPeer(a.family, ToPeer(a.family, a)), a)
    ensures Wildcard(FromPeer(a.family, ToPeer(a.family, a))) == Wildcard(a)
  {}

  /** `Same` is an equivalence on the addresses of known families. */
  lemma SameEquivalence(a: SockAddr, b: SockAddr, c: SockAddr)
    ensures a.family != Unsupported ==> Same(a, a)
    ensures Same(a, b) ==> Same(b, a)
    ensures Same(a, b) && Same(b, c) ==> Same(a, c)
    ensures Same(a, b) ==> Port(a) == Port(b) && Wildcard(a) == Wildcard(b)
  {}

  /** Two addresses are the same exactly if both are of one known family and look alike in a
      message of that family. */
  lemma SameOnWire(a: SockAddr, b: SockAddr)
    ensures Same(a, b) <==> a.family == b.family != Unsupported && ToPeer(a.family, a) == ToPeer(b.family, b)
  {}
}
