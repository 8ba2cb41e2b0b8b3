/** The aggregation of port counters (infiniband-diags/perfquery.c:116-242) on top of the
    field codec: counters are decoded from each port's reply, added up with saturation in
    32- and 64-bit arithmetic, and encoded into one reply again. */
module PerfCounters {
  import opened Bits
  import opened MadFields
  import opened MadLaws

  // ----- saturating addition

  function Min(x: nat, y: nat): nat {
    if x <= y then x else y
  }

  /** `aggregate_4bit` to `aggregate_64bit`: a sum that wraps at `modulus` and is capped. */
  method Aggregate(modulus: nat, cap: nat, dest: nat, val: nat) returns (r: nat)
    requires dest <= cap < modulus && val < modulus
    ensures r == Min(cap, dest + val)
  {
    // the unsigned sum of two words, which wraps once at most
    var sum := if dest + val < modulus then dest + val else dest + val - modulus;
    if sum < dest || sum > cap {
      r := cap;
    } else {
      r := sum;
    }
  }

  function Sum(s: seq<nat>): nat {
    if s == [] then 0 else Sum(s[..|s| - 1]) + s[|s| - 1]
  }

  /** What a counter holds after the readings `s`, one after the other. */
  function Total(cap: nat, s: seq<nat>): nat {
    if s == [] then 0 else Min(cap, Total(cap, s[..|s| - 1]) + s[|s| - 1])
  }

  /** Capping at every step is capping the exact sum. */
  lemma {:induction false} TotalIsMin(cap: nat, s: seq<nat>)
    ensures Total(cap, s) == Min(cap, Sum(s))
  {
    if s != [] { TotalIsMin(cap, s[..|s| - 1]); }
  }

  lemma {:induction false} SumConcat(s: seq<nat>, t: seq<nat>)
    ensures Sum(s + t) == Sum(s) + Sum(t)
    decreases |t|
  {
    if t == [] {
      assert s + t == s;
    } else {
      assert (s + t)[..|s + t| - 1] == s + t[..|t| - 1];
      SumConcat(s, t[..|t| - 1]);
    }
  }

  lemma PickOut(t: seq<nat>, x: nat) returns (a: seq<nat>, b: seq<nat>)
    requires x in multiset(t)
    ensures t == a + ([x] + b) && multiset(t) == multiset(a + b) + multiset{x}
  {
    assert x in t;
    var i :| 0 <= i < |t| && t[i] == x;
    a, b := t[..i], t[i + 1..];
    assert t == a + ([x] + b);
  }

  lemma WithoutLast(s: seq<nat>)
    requires s != []
    ensures s[|s| - 1] in multiset(s) && multiset(s[..|s| - 1]) == multiset(s) - multiset{s[|s| - 1]}
  {
    assert s == s[..|s| - 1] + [s[|s| - 1]];
  }

  lemma SumInsert(a: seq<nat>, x: nat, b: seq<nat>)
    ensures Sum(a + ([x] + b)) == Sum(a + b) + x
  {
    SumConcat(a, [x] + b);
    SumConcat([x], b);
    SumConcat(a, b);
  }

  lemma {:induction false} SumPermutation(s: seq<nat>, t: seq<nat>)
    requires multiset(s) == multiset(t)
    ensures Sum(s) == Sum(t)
    decreases |s|
  {
    if s == [] {
      assert |t| == |multiset(t)| == 0;
    } else {
      var n, x := |s| - 1, s[|s| - 1];
      WithoutLast(s);
      var a, b := PickOut(t, x);
      SumInsert(a, x, b);
      SumPermutation(s[..n], a + b);
    }
  }

  /** The order in which ports are read does not matter. */
  lemma TotalAnyOrder(cap: nat, s: seq<nat>, t: seq<nat>)
    requires multiset(s) == multiset(t)
    ensures Total(cap, s) == Total(cap, t)
  {
    TotalIsMin(cap, s);
    TotalIsMin(cap, t);
    SumPermutation(s, t);
  }

  // ----- the counters of a port

  /** The counters, and the two selectors in front of them. */
  datatype Counter =
    | SymbolErrors | LinkRecovers | LinkDowned | RcvErrors | RcvRemotePhyErrors | RcvSwRelayErrors
    | XmtDiscards | XmtConstraintErrors | RcvConstraintErrors | LinkIntegrityErrors | ExcBufOverrunErrors
    | Qp1Dropped | Vl15Dropped | XmtData | RcvData | XmtPkts | RcvPkts | XmtWait | PortSelect | CounterSelect

  /** The place of a counter in the order in which the code goes through them. */
  function Place(c: Counter): nat {
    match c
    case SymbolErrors => 0
    case LinkRecovers => 1
    case LinkDowned => 2
    case RcvErrors => 3
    case RcvRemotePhyErrors => 4
    case RcvSwRelayErrors => 5
    case XmtDiscards => 6
    case XmtConstraintErrors => 7
    case RcvConstraintErrors => 8
    case LinkIntegrityErrors => 9
    case ExcBufOverrunErrors => 10
    case Qp1Dropped => 11
    case Vl15Dropped => 12
    case XmtData => 13
    case RcvData => 14
    case XmtPkts => 15
    case RcvPkts => 16
    case XmtWait => 17
    case PortSelect => 18
    case CounterSelect => 19
  }

  const COUNTERS: nat := 18

  function At(k: nat): Counter
    requires k < COUNTERS
  {
    match k
    case 0 => SymbolErrors
    case 1 => LinkRecovers
    case 2 => LinkDowned
    case 3 => RcvErrors
    case 4 => RcvRemotePhyErrors
    case 5 => RcvSwRelayErrors
    case 6 => XmtDiscards
    case 7 => XmtConstraintErrors
    case 8 => RcvConstraintErrors
    case 9 => LinkIntegrityErrors
    case 10 => ExcBufOverrunErrors
    case 11 => Qp1Dropped
    case 12 => Vl15Dropped
    case 13 => XmtData
    case 14 => RcvData
    case 15 => XmtPkts
    case 16 => RcvPkts
    case _ => XmtWait
  }

  lemma PlaceAt(c: Counter)
    requires Place(c) < COUNTERS
    ensures At(Place(c)) == c
  {}

  /** The first bit of a counter in the numbering of the InfiniBand specification. */
  function SpecOffset(c: Counter): nat {
    match c
    case SymbolErrors => 32
    case LinkRecovers => 48
    case LinkDowned => 56
    case RcvErrors => 64
    case RcvRemotePhyErrors => 80
    case RcvSwRelayErrors => 96
    case XmtDiscards => 112
    case XmtConstraintErrors => 128
    case RcvConstraintErrors => 136
    case LinkIntegrityErrors => 152
    case ExcBufOverrunErrors => 156
    case Qp1Dropped => 160
    case Vl15Dropped => 176
    case XmtData => 192
    case RcvData => 224
    case XmtPkts => 256
    case RcvPkts => 288
    case XmtWait => 320
    case PortSelect => 8
    case CounterSelect => 16
  }

  function Width(c: Counter): nat {
    match c
    case SymbolErrors | RcvErrors | RcvRemotePhyErrors | RcvSwRelayErrors | XmtDiscards | Qp1Dropped | Vl15Dropped | CounterSelect => 16
    case LinkRecovers | LinkDowned | XmtConstraintErrors | RcvConstraintErrors | PortSelect => 8
    case LinkIntegrityErrors | ExcBufOverrunErrors => 4
    case XmtData | RcvData | XmtPkts | RcvPkts | XmtWait => 32
  }

  /** The offset in the field table. */
  function Offset(c: Counter): nat {
    match c
    case SymbolErrors => 48
    case LinkRecovers => 40
    case LinkDowned => 32
    case RcvErrors => 80
    case RcvRemotePhyErrors => 64
    case RcvSwRelayErrors => 112
    case XmtDiscards => 96
    case XmtConstraintErrors => 152
    case RcvConstraintErrors => 144
    case LinkIntegrityErrors => 132
    case ExcBufOverrunErrors => 128
    case Qp1Dropped => 160
    case Vl15Dropped => 160
    case XmtData => 192
    case RcvData => 224
    case XmtPkts => 256
    case RcvPkts => 288
    case XmtWait => 320
    case PortSelect => 16
    case CounterSelect => 0
  }

  /** `BITSOFFS` of the specification's offset, except that the entry of QP1Dropped lacks it. */
  lemma OffsetIsBitsOffs(c: Counter)
    ensures SpecOffset(c) % 32 + Width(c) <= 32
    ensures c != Qp1Dropped ==> Offset(c) == BitsOffs(SpecOffset(c), Width(c))
    ensures c == Qp1Dropped ==> Offset(c) == BitsOffs(176, 16)
  {}

  function Entry(c: Counter): Field {
    Field(Offset(c), Width(c))
  }

  function Cap(c: Counter): nat {
    match c
    case SymbolErrors | RcvErrors | RcvRemotePhyErrors | RcvSwRelayErrors | XmtDiscards | Qp1Dropped | Vl15Dropped | CounterSelect => 0xffff
    case LinkRecovers | LinkDowned | XmtConstraintErrors | RcvConstraintErrors | PortSelect => 0xff
    case LinkIntegrityErrors | ExcBufOverrunErrors => 0xf
    case XmtData | RcvData | XmtPkts | RcvPkts | XmtWait => 0xffff_ffff
  }

  const PC_SIZE: nat := 1024

  predicate IsReply(s: seq<Byte>) {
    |s| == PC_SIZE
  }

  /** What decoding a counter gives. */
  function Reading(s: seq<Byte>, c: Counter): nat
    requires IsReply(s)
  {
    ReadBits(s, Entry(c).bitoffs, Entry(c).bitlen)
  }

  lemma EntryShape(c: Counter)
    ensures WellFormed(Offset(c), Width(c)) && (InByte(Offset(c), Width(c)) || PostBits(Offset(c), Width(c)) == 0)
    ensures 0 < Width(c) <= 32 && Offset(c) + Width(c) <= 352
  {}

  lemma EntryFits(c: Counter)
    ensures Whole(Entry(c))
  {
    EntryShape(c);
  }

  lemma EntriesApart(c: Counter, d: Counter)
    requires c != d && !(c == Qp1Dropped && d == Vl15Dropped) && !(c == Vl15Dropped && d == Qp1Dropped)
    ensures Offset(c) + Width(c) <= Offset(d) || Offset(d) + Width(d) <= Offset(c)
  {}

  const WORD: nat := 0x1_0000_0000

  lemma PowersOfTwo()
    ensures Pow2(4) == 0x10 && Pow2(8) == 0x100 && Pow2(16) == 0x1_0000 && Pow2(32) == WORD
  {
    Pow2Byte();
    Pow2Add(8, 8);
    Pow2Add(16, 16);
  }

  lemma CapByWidth(c: Counter)
    ensures Cap(c) == match Width(c) case 4 => 0xf case 8 => 0xff case 16 => 0xffff case _ => 0xffff_ffff
    ensures Width(c) == 4 || Width(c) == 8 || Width(c) == 16 || Width(c) == 32
  {}

  lemma CapIsWidth(c: Counter)
    ensures Cap(c) + 1 == Pow2(Width(c)) && Cap(c) < WORD
  {
    CapByWidth(c);
    PowersOfTwo();
  }

  lemma WordIs()
    ensures Pow2(WORD_BITS) == WORD
  {
    PowersOfTwo();
  }

  /** A field of the table that fits a reply and whose last byte it fills. */
  predicate Whole(f: Field) {
    && 0 < f.bitlen <= 32 && f.bitoffs + f.bitlen <= 8 * PC_SIZE
    && WellFormed(f.bitoffs, f.bitlen) && SpillBits(f.bitoffs, f.bitlen) == 0
  }

  /** `mad_decode_field` on a field of at most 32 bits. */
  method DecodeField(pc: array<Byte>, f: Field) returns (val: nat)
    requires IsReply(pc[..]) && Whole(f)
    ensures val == ReadBits(pc[..], f.bitoffs, f.bitlen) && val < Pow2(WORD_BITS)
  {
    ExtentExact(f.bitoffs, f.bitlen);
    val := GetField(pc, 0, f);
    GotIsRead(pc[..], f.bitoffs, f.bitlen, val);
  }

  /** `mad_encode_field` on a field of at most 32 bits. */
  method EncodeField(pc: array<Byte>, f: Field, v: nat)
    requires IsReply(pc[..]) && Whole(f) && v < Pow2(f.bitlen) && v < Pow2(WORD_BITS)
    modifies pc
    ensures IsReply(pc[..]) && ReadBits(pc[..], f.bitoffs, f.bitlen) == v
    ensures Written(old(pc[..]), pc[..], f.bitoffs, f.bitlen, 0, v)
  {
    ghost var s := pc[..];
    ExtentExact(f.bitoffs, f.bitlen);
    SetField(pc, 0, f, v);
    ReadAfterWrite(s, pc[..], f.bitoffs, f.bitlen, 0, v);
    TruncBound(v, f.bitlen);
  }

  lemma ReadingCapped(s: seq<Byte>, c: Counter)
    requires IsReply(s)
    ensures Reading(s, c) <= Cap(c) < WORD
  {
    var at, len := Offset(c), Width(c);
    ReadBitsBit(s, at, len, 0);
    CapIsWidth(c);
  }

  /** Decodes one counter. */
  method Decode(pc: array<Byte>, c: Counter) returns (val: nat)
    requires IsReply(pc[..])
    ensures val == Reading(pc[..], c) && val < WORD && val <= Cap(c)
  {
    EntryFits(c);
    val := DecodeField(pc, Entry(c));
    ReadingCapped(pc[..], c);
  }

  /** Encodes one counter. */
  method Encode(pc: array<Byte>, c: Counter, v: nat)
    requires IsReply(pc[..]) && v <= Cap(c)
    modifies pc
    ensures Reading(pc[..], c) == v && Frame(old(pc[..]), pc[..], Offset(c), Width(c))
  {
    ghost var s := pc[..];
    EntryFits(c);
    CapIsWidth(c);
    WordIs();
    EncodeField(pc, Entry(c), v);
    FrameOfWrite(s, pc[..], Offset(c), Width(c), v);
  }

  /** Nothing outside the `len` bits from `at` on has changed. */
  ghost predicate Frame(s: seq<Byte>, t: seq<Byte>, at: nat, len: nat) {
    && IsReply(s) && IsReply(t)
    && forall d: Counter :: Offset(d) + Width(d) <= at || at + len <= Offset(d) ==> Reading(t, d) == Reading(s, d)
  }

  lemma FrameOfWrite(s: seq<Byte>, t: seq<Byte>, at: nat, len: nat, v: nat)
    requires IsReply(s) && Written(s, t, at, len, 0, v)
    ensures Frame(s, t, at, len)
  {
    forall d: Counter | Offset(d) + Width(d) <= at || at + len <= Offset(d) ensures Reading(t, d) == Reading(s, d) {
      EntryFits(d);
      ReadFrame(s, t, at, len, 0, v, Offset(d), Width(d));
    }
  }

  /** What a counter becomes with the reply `s`. */
  function Added(c: Counter, was: nat, s: seq<Byte>): nat
    requires IsReply(s)
  {
    Min(Cap(c), was + Reading(s, c))
  }

  ghost predicate Capped(counts: seq<nat>) {
    |counts| == COUNTERS && forall k :: 0 <= k < COUNTERS ==> counts[k] <= Cap(At(k))
  }

  /** The first `n` counters have taken in the reply `s`, the others are as they were. */
  ghost predicate Folded(was: seq<nat>, now: seq<nat>, s: seq<Byte>, n: nat)
    requires IsReply(s) && |was| == COUNTERS
  {
    |now| == |was| && forall k :: 0 <= k < COUNTERS ==> now[k] == if k < n then Added(At(k), was[k], s) else was[k]
  }

  /** The first `n` counters read back from `s`, except for QP1Dropped once VL15Dropped has
      gone into the same bits. */
  ghost predicate Shown(s: seq<Byte>, counts: seq<nat>, n: nat)
    requires IsReply(s) && n <= COUNTERS == |counts|
  {
    forall k :: 0 <= k < n && !(At(k) == Qp1Dropped && n > Place(Vl15Dropped)) ==> Reading(s, At(k)) == counts[k]
  }

  const ALL_PORTS: nat := 0xff

  /** The result is marked as that of all ports. */
  predicate Selected(s: seq<Byte>, counterselect: nat)
    requires IsReply(s)
  {
    Reading(s, PortSelect) == ALL_PORTS && Reading(s, CounterSelect) == counterselect
  }

  lemma SelectedNext(s: seq<Byte>, t: seq<Byte>, counterselect: nat, n: nat)
    requires n < COUNTERS && IsReply(s) && Selected(s, counterselect) && Frame(s, t, Offset(At(n)), Width(At(n)))
    ensures Selected(t, counterselect)
  {
    EntriesApart(PortSelect, At(n));
    EntriesApart(CounterSelect, At(n));
  }

  lemma ShownNext(s: seq<Byte>, t: seq<Byte>, counts: seq<nat>, n: nat)
    requires n < COUNTERS == |counts| && IsReply(s) && Shown(s, counts, n)
    requires Frame(s, t, Offset(At(n)), Width(At(n))) && Reading(t, At(n)) == counts[n]
    ensures Shown(t, counts, n + 1)
  {
    forall k | 0 <= k < n && !(At(k) == Qp1Dropped && n + 1 > Place(Vl15Dropped)) ensures Reading(t, At(k)) == counts[k] {
      assert Reading(s, At(k)) == counts[k];
      AtApart(k, n);
      KeepsReading(s, t, At(k), At(n));
    }
  }

  lemma KeepsReading(s: seq<Byte>, t: seq<Byte>, c: Counter, d: Counter)
    requires Frame(s, t, Offset(d), Width(d)) && c != d
    requires !(c == Qp1Dropped && d == Vl15Dropped) && !(c == Vl15Dropped && d == Qp1Dropped)
    ensures Reading(t, c) == Reading(s, c)
  {
    EntriesApart(c, d);
  }

  /** Counters come in order, QP1Dropped before VL15Dropped. */
  lemma AtApart(k: nat, n: nat)
    requires k < n < COUNTERS
    ensures At(k) != At(n) && !(At(k) == Vl15Dropped && At(n) == Qp1Dropped) && (At(n) == Vl15Dropped ==> n == Place(Vl15Dropped))
  {}

  class PerfCount {
    var portselect: nat
    var counterselect: nat
    var counts: seq<nat>

    constructor ()
      ensures Capped(counts) && forall k :: 0 <= k < COUNTERS ==> counts[k] == 0
    {
      portselect, counterselect := 0, 0;
      counts := seq(COUNTERS, i => 0);
    }

    /** Decodes a counter and adds it up. */
    method Fold(pc: array<Byte>, k: nat)
      requires IsReply(pc[..]) && k < COUNTERS == |counts| && counts[k] <= Cap(At(k))
      modifies this`counts
      ensures counts == old(counts)[k := Added(At(k), old(counts)[k], pc[..])]
    {
      var c := At(k);
      var val := Decode(pc, c);
      CapIsWidth(c);
      var sum := Aggregate(WORD, Cap(c), counts[k], val);
      counts := counts[k := sum];
    }

    /** `aggregate_perfcounters`, which goes through the counters in the order of `At`. */
    method AggregatePerfcounters(pc: array<Byte>)
      requires Capped(counts) && IsReply(pc[..])
      modifies this
      ensures Capped(counts) && Folded(old(counts), counts, pc[..], COUNTERS)
      ensures portselect == Reading(pc[..], PortSelect) && counterselect == Reading(pc[..], CounterSelect)
      ensures counterselect <= Cap(CounterSelect)
    {
      portselect := Decode(pc, PortSelect);
      counterselect := Decode(pc, CounterSelect);
      for k := 0 to COUNTERS
        invariant Capped(counts) && Folded(old(counts), counts, pc[..], k)
        invariant portselect == Reading(pc[..], PortSelect) && counterselect == Reading(pc[..], CounterSelect)
        invariant counterselect <= Cap(CounterSelect)
      {
        Fold(pc, k);
      }
    }

    /** `output_aggregate_perfcounters`: the reply that is then dumped. */
    method OutputAggregatePerfcounters(pc: array<Byte>)
      requires Capped(counts) && counterselect <= Cap(CounterSelect) && IsReply(pc[..])
      modifies pc
      ensures IsReply(pc[..]) && Shown(pc[..], counts, COUNTERS) && Selected(pc[..], counterselect)
      ensures SpecValue(pc[..], 8, 8) == 255 && SpecValue(pc[..], 16, 16) == counterselect
    {
      Encode(pc, PortSelect, ALL_PORTS);
      EntriesApart(PortSelect, CounterSelect);
      Encode(pc, CounterSelect, counterselect);
      for k := 0 to COUNTERS
        invariant IsReply(pc[..]) && Shown(pc[..], counts, k) && Selected(pc[..], counterselect)
      {
        ghost var s := pc[..];
        Encode(pc, At(k), counts[k]);
        ShownNext(s, pc[..], counts, k);
        SelectedNext(s, pc[..], counterselect, k);
      }
      ReadingIsSpec(pc[..], PortSelect);
      ReadingIsSpec(pc[..], CounterSelect);
    }
  }

  // ----- whole runs

  /** What the specification puts where the table entry of `c` points. */
  function SpecReading(s: seq<Byte>, c: Counter): nat
    requires IsReply(s)
  {
    SpecValue(s, SpecOffset(if c == Qp1Dropped then Vl15Dropped else c), Width(c))
  }

  lemma ReadingIsSpec(s: seq<Byte>, c: Counter)
    requires IsReply(s)
    ensures Reading(s, c) == SpecReading(s, c)
  {
    var d := if c == Qp1Dropped then Vl15Dropped else c;
    OffsetIsBitsOffs(d);
    FieldIsSpecBits(s, SpecOffset(d), Width(d));
  }

  predicate AreReplies(replies: seq<seq<Byte>>) {
    forall i :: 0 <= i < |replies| ==> IsReply(replies[i])
  }

  /** The values of a counter in the replies, as the specification lays them out. */
  function Readings(replies: seq<seq<Byte>>, c: Counter): (r: seq<nat>)
    requires AreReplies(replies)
    ensures |r| == |replies|
  {
    seq(|replies|, i requires 0 <= i < |replies| => SpecReading(replies[i], c))
  }

  /** The counters start at zero and take in one reply after the other. */
  ghost predicate IsRun(states: seq<seq<nat>>, replies: seq<seq<Byte>>) {
    && |states| == |replies| + 1 && AreReplies(replies)
    && (forall i :: 0 <= i < |states| ==> |states[i]| == COUNTERS)
    && (forall k :: 0 <= k < COUNTERS ==> states[0][k] == 0)
    && forall i :: 0 <= i < |replies| ==> Folded(states[i], states[i + 1], replies[i], COUNTERS)
  }

  lemma {:induction false} RunTotal(states: seq<seq<nat>>, replies: seq<seq<Byte>>, c: Counter, n: nat)
    requires IsRun(states, replies) && n <= |replies| && Place(c) < COUNTERS
    ensures states[n][Place(c)] == Total(Cap(c), Readings(replies[..n], c))
    decreases n
  {
    PlaceAt(c);
    if n > 0 {
      RunTotal(states, replies, c, n - 1);
      ReadingIsSpec(replies[n - 1], c);
      var r := Readings(replies[..n], c);
      assert r[..n - 1] == Readings(replies[..n - 1], c);
      assert Folded(states[n - 1], states[n - 1 + 1], replies[n - 1], COUNTERS);
    }
  }

  /** Whatever the ports reply and in whatever order, every counter ends at its cap or the
      exact sum, whichever is less, and that is what the encoded result says. */
  lemma Reported(states: seq<seq<nat>>, replies: seq<seq<Byte>>, out: seq<Byte>, c: Counter)
    requires IsRun(states, replies) && IsReply(out) && Shown(out, states[|replies|], COUNTERS) && Place(c) < COUNTERS
    ensures Reading(out, c) == Min(Cap(c), Sum(Readings(replies, c)))
  {
    var n, d := |replies|, if c == Qp1Dropped then Vl15Dropped else c;
    assert replies[..n] == replies;
    RunTotal(states, replies, d, n);
    TotalIsMin(Cap(d), Readings(replies, d));
    PlaceAt(d);
    assert Reading(out, c) == Reading(out, d) && Readings(replies, c) == Readings(replies, d);
  }

  /** QP1Dropped proper is reported if and only if its sum, so capped, is that of VL15Dropped. */
  lemma Qp1ReportedIff(states: seq<seq<nat>>, replies: seq<seq<Byte>>, out: seq<Byte>, own: seq<nat>)
    requires IsRun(states, replies) && IsReply(out) && Shown(out, states[|replies|], COUNTERS)
    requires |own| == |replies| && forall i :: 0 <= i < |own| ==> own[i] == SpecValue(replies[i], SpecOffset(Qp1Dropped), 16)
    ensures Reading(out, Qp1Dropped) == Min(Cap(Qp1Dropped), Sum(own))
            <==> Min(Cap(Qp1Dropped), Sum(own)) == Min(Cap(Vl15Dropped), Sum(Readings(replies, Vl15Dropped)))
  {
    Reported(states, replies, out, Qp1Dropped);
    assert Readings(replies, Qp1Dropped) == Readings(replies, Vl15Dropped);
  }

  /** A reply with an odd QP1Dropped and an even VL15Dropped is misread. */
  lemma Qp1Misread(s: seq<Byte>)
    requires IsReply(s) && s[21] % 2 == 1 && s[23] % 2 == 0
    ensures Reading(s, Qp1Dropped) != SpecValue(s, SpecOffset(Qp1Dropped), 16)
  {
    ReadingIsSpec(s, Qp1Dropped);
    SpecValueBit(s, 160, 16, 0);
    SpecValueBit(s, 176, 16, 0);
    assert SpecBit(s, 175) && !SpecBit(s, 191);
  }
}
