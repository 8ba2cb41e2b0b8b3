/** The wire form of the port mapper's messages (iwpmd/iwarp_pm_common.c:379-490,
    iwpmd/iwarp_pm.h:58-91, 146-199).

    A message has 64 bytes in memory. A request sends all of them; the other messages send
    the first 48, so the receiver finds whatever its buffer holds in the other 16. */
module WireCodec {
  const MESSAGE_SIZE: nat := 48
  const IPADDR_SIZE: nat := 16

  const VER_SHIFT: nat := 6
  const VER_MASK: bv8 := 0xc0
  const MT_SHIFT: nat := 4
  const MT_MASK: bv8 := 0x30
  const IPVER_MASK: bv8 := 0x0f

  const REQ: bv8 := 0
  const ACC: bv8 := 1
  const ACK: bv8 := 2
  const REJ: bv8 := 3

  /** Ports stay in network order on both sides, so they are two bytes here. */
  type Port = s: seq<bv8> | |s| == 2 witness [0, 0]

  type IpAddr = s: seq<bv8> | |s| == IPADDR_SIZE witness [0, 0, 0, 0, 0, 0, 0, 0, 0, 0, 0, 0, 0, 0, 0, 0]

  type Wire = s: seq<bv8> | |s| == MESSAGE_SIZE + IPADDR_SIZE witness NO_ADDR + NO_ADDR + NO_ADDR + NO_ADDR

  datatype Parms = Parms(ipVer: bv32, apip: IpAddr, apport: Port, cpip: IpAddr, cpport: Port,
                         mcpip: IpAddr, mcpport: Port, ver: bv8, mt: bv8, pmtime: bv8, handle: bv64)

  // ----- the first byte

  function Magic(ipVer: bv32, ver: bv8, mt: bv8): bv8 {
    ((ipVer & 0xff) as bv8 & IPVER_MASK) | ((ver << VER_SHIFT) & VER_MASK) | ((mt << MT_SHIFT) & MT_MASK)
  }

  function IpVer(magic: bv8): bv32 { (magic & IPVER_MASK) as bv32 }

  function Ver(magic: bv8): bv8 { (magic & VER_MASK) >> VER_SHIFT }

  function Mt(magic: bv8): bv8 { (magic & MT_MASK) >> MT_SHIFT }

  lemma MagicParts(ipVer: bv32, ver: bv8, mt: bv8)
    ensures IpVer(Magic(ipVer, ver, mt)) == ipVer & 0x0f
    ensures Ver(Magic(ipVer, ver, mt)) == ver & 0x03
    ensures Mt(Magic(ipVer, ver, mt)) == mt & 0x03
  {}

  lemma MagicWhole(magic: bv8)
    ensures Magic(IpVer(magic), Ver(magic), Mt(magic)) == magic
    ensures Mt(magic) in {REQ, ACC, ACK, REJ}
  {}

  // ----- the handle, most significant byte first

  function HandleBytes(h: bv64): (s: seq<bv8>)
    ensures |s| == 8
  {
    [(h >> 56) as bv8, ((h >> 48) & 0xff) as bv8, ((h >> 40) & 0xff) as bv8, ((h >> 32) & 0xff) as bv8,
     ((h >> 24) & 0xff) as bv8, ((h >> 16) & 0xff) as bv8, ((h >> 8) & 0xff) as bv8, (h & 0xff) as bv8]
  }

  function Handle(s: seq<bv8>): bv64
    requires |s| == 8
  {
    ((s[0] as bv64) << 56) | ((s[1] as bv64) << 48) | ((s[2] as bv64) << 40) | ((s[3] as bv64) << 32)
    | ((s[4] as bv64) << 24) | ((s[5] as bv64) << 16) | ((s[6] as bv64) << 8) | (s[7] as bv64)
  }

  lemma HandleRoundTrip(h: bv64)
    ensures Handle(HandleBytes(h)) == h
  {}

  lemma HandleBytesRoundTrip(s: seq<bv8>)
    requires |s| == 8
    ensures HandleBytes(Handle(s)) == s
  {}

  // ----- messages

  const NO_PORT: Port := [0, 0]
  const NO_ADDR: IpAddr := [0, 0, 0, 0, 0, 0, 0, 0, 0, 0, 0, 0, 0, 0, 0, 0]

  /** `msize`: how much of the message is sent. */
  function Size(mt: bv8): nat {
    if mt == REQ then MESSAGE_SIZE + IPADDR_SIZE else MESSAGE_SIZE
  }

  /** `form_iwpm_msg`. */
  function Form(p: Parms): Wire {
    [Magic(p.ipVer, p.ver, p.mt), p.pmtime] + (if p.mt == REQ then p.mcpport else NO_PORT)
    + p.apport + p.cpport + HandleBytes(p.handle) + p.cpip + p.apip + (if p.mt == REQ then p.mcpip else NO_ADDR)
  }

  /** `parse_iwpm_msg`, which fills in `prior`; a message of no known IP version leaves most of it alone. */
  function Parse(w: Wire, prior: Parms): (bool, Parms) {
    var p := prior.(pmtime := w[1], handle := Handle(w[8..16]), ipVer := IpVer(w[0]));
    if p.ipVer != 4 && p.ipVer != 6 then (false, p)
    else
      var q := p.(ver := Ver(w[0]), mt := Mt(w[0]), apport := w[4..6], cpport := w[6..8], apip := w[32..48], cpip := w[16..32]);
      (true, if q.mt == REQ then q.(mcpport := w[2..4], mcpip := w[48..64]) else q)
  }

  /** The sent part of `w` holds the parameters `p`. */
  predicate Holds(w: Wire, p: Parms) {
    && w[0] == Magic(p.ipVer, p.ver, p.mt) && w[1] == p.pmtime
    && w[2..4] == (if p.mt == REQ then p.mcpport else NO_PORT)
    && w[4..6] == p.apport && w[6..8] == p.cpport && w[8..16] == HandleBytes(p.handle)
    && w[16..32] == p.cpip && w[32..48] == p.apip
    && (p.mt == REQ ==> w[48..64] == p.mcpip)
  }

  lemma FormHolds(p: Parms)
    ensures Holds(Form(p), p)
  {}

  /** The number that bytes stand for, the most significant first. */
  function BigEndian(s: seq<bv8>): bv64 {
    if s == [] then 0 else (BigEndian(s[..|s| - 1]) << 8) | (s[|s| - 1] as bv64)
  }

  lemma BigEndianTake(s: seq<bv8>, n: nat)
    requires 0 < n <= |s|
    ensures BigEndian(s[..n]) == (BigEndian(s[..n - 1]) << 8) | (s[n - 1] as bv64)
  {
    assert s[..n][..n - 1] == s[..n - 1];
  }

  lemma ShiftPair(x: bv64, a: bv64, b: bv64)
    ensures (((x << 8) | a) << 8) | b == (x << 16) | ((a << 8) | b)
  {}

  lemma TakeTwo(s: seq<bv8>, n: nat)
    requires 2 <= n <= |s|
    ensures BigEndian(s[..n]) == (BigEndian(s[..n - 2]) << 16) | (((s[n - 2] as bv64) << 8) | (s[n - 1] as bv64))
  {
    BigEndianTake(s, n - 1);
    BigEndianTake(s, n);
    ShiftPair(BigEndian(s[..n - 2]), s[n - 2] as bv64, s[n - 1] as bv64);
  }

  lemma PairsMakeHandle(a: bv64, b: bv64, c: bv64, d: bv64, e: bv64, f: bv64, g: bv64, h: bv64)
    ensures (((((((a << 8) | b) << 16) | ((c << 8) | d)) << 16) | ((e << 8) | f)) << 16) | ((g << 8) | h)
            == (a << 56) | (b << 48) | (c << 40) | (d << 32) | (e << 24) | (f << 16) | (g << 8) | h
  {}

  lemma HandleBigEndian(s: seq<bv8>)
    requires |s| == 8
    ensures BigEndian(s) == Handle(s)
  {
    assert s[..8] == s && s[..0] == [];
    TakeTwo(s, 2);
    TakeTwo(s, 4);
    TakeTwo(s, 6);
    TakeTwo(s, 8);
    PairsMakeHandle(s[0] as bv64, s[1] as bv64, s[2] as bv64, s[3] as bv64, s[4] as bv64, s[5] as bv64, s[6] as bv64, s[7] as bv64);
  }

  /** The message byte by byte: versions and kind in the first, the handle most significant
      byte first, and the mapped address of the connecting peer in requests only. */
  lemma WireLayout(p: Parms)
    ensures var w := Form(p);
            && (w[0] & 0x0f) as bv32 == p.ipVer & 0x0f && w[0] >> 6 == p.ver & 0x03 && (w[0] >> 4) & 0x03 == p.mt & 0x03
            && w[1] == p.pmtime && w[4..6] == p.apport && w[6..8] == p.cpport
            && BigEndian(w[8..16]) == p.handle && w[16..32] == p.cpip && w[32..48] == p.apip
            && (p.mt == 0 ==> w[2..4] == p.mcpport && w[48..64] == p.mcpip)
            && (p.mt != 0 ==> w[2] == 0 && w[3] == 0)
    ensures Size(p.mt) == if p.mt == 0 then 64 else 48
  {
    FormHolds(p);
    MagicBits(p.ipVer, p.ver, p.mt);
    HandleBigEndian(Form(p)[8..16]);
    HandleRoundTrip(p.handle);
    assert Form(p)[2..4] == [Form(p)[2], Form(p)[3]];
  }

  lemma MagicBits(ipVer: bv32, ver: bv8, mt: bv8)
    ensures var b := Magic(ipVer, ver, mt);
            (b & 0x0f) as bv32 == ipVer & 0x0f && b >> 6 == ver & 0x03 && (b >> 4) & 0x03 == mt & 0x03
  {}

  /** What arrives when `p` is sent and the receiver's buffer ends in `tail`. */
  function Arrives(p: Parms, tail: IpAddr): Wire {
    Form(p)[..Size(p.mt)] + tail[..MESSAGE_SIZE + IPADDR_SIZE - Size(p.mt)]
  }

  lemma ArrivesHolds(p: Parms, tail: IpAddr)
    ensures Holds(Arrives(p, tail), p)
  {
    var f, w := Form(p), Arrives(p, tail);
    FormHolds(p);
    SameHead(f, w);
    assert p.mt == REQ ==> w == f;
  }

  lemma SameHead(f: Wire, w: Wire)
    requires f[..48] == w[..48]
    ensures f[0] == w[0] && f[1] == w[1] && f[2..4] == w[2..4] && f[4..6] == w[4..6] && f[6..8] == w[6..8]
    ensures f[8..16] == w[8..16] && f[16..32] == w[16..32] && f[32..48] == w[32..48]
  {
    forall i | 0 <= i < 48 ensures f[i] == w[i] {
      assert f[..48][i] == w[..48][i];
    }
  }

  /** What the receiver's parameters become, given what they were. */
  function Received(p: Parms, prior: Parms): Parms {
    var q := p.(ipVer := p.ipVer & 0x0f, ver := p.ver & 0x03);
    if p.mt == REQ then q else q.(mcpport := prior.mcpport, mcpip := prior.mcpip)
  }

  predicate IsKind(mt: bv8) {
    mt == REQ || mt == ACC || mt == ACK || mt == REJ
  }

  /** Sending and parsing a message gives back every parameter that its kind carries, the
      versions cut to their fields, and takes nothing from the part of the receiver's buffer
      that was not sent. A message fails to parse exactly when its IP version, so cut, is
      neither 4 nor 6. */
  lemma ParseFormed(p: Parms, tail: IpAddr, prior: Parms)
    requires IsKind(p.mt)
    ensures Parse(Arrives(p, tail), prior).0 <==> p.ipVer & 0x0f == 4 || p.ipVer & 0x0f == 6
    ensures Parse(Arrives(p, tail), prior).0 ==> Parse(Arrives(p, tail), prior).1 == Received(p, prior)
  {
    ArrivesHolds(p, tail);
    ParseHeld(Arrives(p, tail), p, prior);
  }

  lemma ParseHeld(w: Wire, p: Parms, prior: Parms)
    requires IsKind(p.mt) && Holds(w, p)
    ensures Parse(w, prior).0 <==> p.ipVer & 0x0f == 4 || p.ipVer & 0x0f == 6
    ensures Parse(w, prior).0 ==> Parse(w, prior).1 == Received(p, prior)
  {
    MagicParts(p.ipVer, p.ver, p.mt);
    HandleRoundTrip(p.handle);
  }

  /** The round trip is exact if and only if the versions fit their fields. */
  lemma RoundTripIff(p: Parms, tail: IpAddr, prior: Parms)
    requires IsKind(p.mt)
    ensures (var (ok, q) := Parse(Arrives(p, tail), prior);
             ok && q == p.(mcpip := q.mcpip, mcpport := q.mcpport) && (p.mt == REQ ==> q == p))
            <==> (p.ipVer == 4 || p.ipVer == 6) && p.ver < 4
  {
    ParseFormed(p, tail, prior);
    assert p.ver & 0x03 == p.ver <==> p.ver < 4;
    assert p.ipVer & 0x0f == p.ipVer <==> p.ipVer < 16;
  }

  /** A message that parses is formed again byte for byte, as far as its kind is sent, if and
      only if it is a request or leaves the reserved field zero. */
  lemma FormParsed(w: Wire, prior: Parms)
    requires Parse(w, prior).0
    ensures var q := Parse(w, prior).1;
            Form(q)[..Size(q.mt)] == w[..Size(q.mt)] <==> q.mt == REQ || w[2..4] == NO_PORT
  {
    var q := Parse(w, prior).1;
    var f := Form(q);
    FormHolds(q);
    MagicWhole(w[0]);
    HandleBytesRoundTrip(w[8..16]);
    SamePrefix(f, w);
    assert w[..48][2..4] == w[2..4] && f[..48][2..4] == f[2..4];
    if q.mt == REQ {
      assert f[..64] == f[..48] + f[48..64] && w[..64] == w[..48] + w[48..64];
    }
  }

  /** The first 48 bytes, part by part. */
  lemma SamePrefix(f: Wire, w: Wire)
    requires f[0] == w[0] && f[1] == w[1] && f[4..6] == w[4..6] && f[6..8] == w[6..8]
    requires f[8..16] == w[8..16] && f[16..32] == w[16..32] && f[32..48] == w[32..48]
    ensures f[2..4] == w[2..4] ==> f[..48] == w[..48]
  {
    assert f[..48] == [f[0], f[1]] + f[2..4] + f[4..6] + f[6..8] + f[8..16] + f[16..32] + f[32..48];
    assert w[..48] == [w[0], w[1]] + w[2..4] + w[4..6] + w[6..8] + w[8..16] + w[16..32] + w[32..48];
  }
}
