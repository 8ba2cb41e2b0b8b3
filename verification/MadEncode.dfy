/** `mad_encode` (libibmad/mad.c:82-159): a MAD header built by a sequence of field writes
    into one buffer, and the proof that every field it writes for the request's class reads
    back, whatever the buffer held before and although fields share bytes and words. */
module MadEncode {
  import opened Bits
  import opened Options
  import opened MadFields
  import opened MadLaws
  import opened MadWide

  // ----- the entries of the field table that the encoder uses (fields.c:66-116, 357, 786)

  const METHOD := Field(0, 7)
  const RESPONSE := Field(7, 1)
  const CLASS_VERSION := Field(8, 8)
  const MGMT_CLASS := Field(16, 8)
  const BASE_VERSION := Field(24, 8)
  const STATUS := Field(48, 16)
  const DR_HOP_CNT := Field(32, 8)
  const DR_HOP_PTR := Field(40, 8)
  const DR_STATUS := Field(48, 15)
  const DR_DIRECTION := Field(63, 1)
  const TRID := Field(64, 64)
  const ATTR_ID := Field(144, 16)
  const ATTR_MOD := Field(160, 32)
  const MKEY := Field(192, 64)
  const CC_KEY := Field(192, 64)
  const DR_DLID := Field(256, 16)
  const DR_SLID := Field(272, 16)
  const OUI := Field(288, 24)
  const SA_COMP_MASK := Field(384, 64)
  const DR_PATH := Field(1024, 512)
  const DR_RETURN_PATH := Field(1536, 512)

  const MAD_SIZE: nat := 256
  const SA_CLASS: nat := 0x03
  const CC_CLASS: nat := 0x21
  const DR_CLASS: nat := 0x81
  const HOPS_MAX: nat := 64

  datatype DrPath = DrPath(cnt: nat, p: seq<Byte>, drslid: nat, drdlid: nat)

  datatype Rpc = Rpc(mgtclass: nat, mgtmethod: nat, attrId: nat, attrMod: nat, rstatus: nat,
                     dataoffs: nat, mkey: nat, trid: nat, mask: nat, oui: nat, cckey: nat)
  {
    function Class(): nat { ToByte(mgtclass) }

    predicate IsResponse() { Bit(mgtmethod, 7) }

    predicate IsVendor2() { 0x30 <= Class() <= 0x4f }

    /** The C types of the fields. */
    predicate Typed() {
      && mgtmethod < Pow2(WORD_BITS) && attrId < Pow2(WORD_BITS) && attrMod < Pow2(WORD_BITS)
      && rstatus < Pow2(WORD_BITS) && oui < Pow2(WORD_BITS)
      && mkey < Pow2(WIDE_BITS) && trid < Pow2(WIDE_BITS) && mask < Pow2(WIDE_BITS) && cckey < Pow2(WIDE_BITS)
    }

    /** The end, in bytes, of the header that the encoder fills for this class. */
    function HeaderEnd(): nat {
      if Class() == SA_CLASS then 56 else if Class() == DR_CLASS then 36 else if IsVendor2() then 40 else 32
    }

    /** A payload of `n` bytes lies past the class header. */
    predicate DataClear(n: nat) {
      HeaderEnd() <= dataoffs && dataoffs + n <= MAD_SIZE
    }
  }

  predicate IsMad(s: seq<Byte>) {
    |s| == MAD_SIZE
  }

  function Value(s: seq<Byte>, f: Field): nat
    requires IsMad(s) && f.bitoffs + f.bitlen <= 8 * MAD_SIZE
  {
    ReadBits(s, f.bitoffs, f.bitlen)
  }

  function WideValue(s: seq<Byte>, f: Field): nat
    requires IsMad(s) && f.bitoffs / 8 + WIDE_BYTES <= MAD_SIZE
  {
    SpecValue(s, 8 * (f.bitoffs / 8), WIDE_BITS)
  }

  function Bytes(s: seq<Byte>, p: nat, n: nat): seq<Byte>
    requires p + n <= |s|
  {
    s[p..][..n]
  }

  // ----- what a write leaves alone

  /** Only bits from `lo` to `hi` may differ. */
  ghost predicate Within(s: seq<Byte>, t: seq<Byte>, lo: nat, hi: nat)
    requires IsMad(s) && IsMad(t)
  {
    forall k :: 0 <= k < 8 * MAD_SIZE && !(lo <= k < hi) ==> BufBit(s, k) == BufBit(t, k)
  }

  lemma Keep(s: seq<Byte>, t: seq<Byte>, lo: nat, hi: nat, f: Field)
    requires IsMad(s) && IsMad(t) && Within(s, t, lo, hi)
    requires f.bitoffs + f.bitlen <= 8 * MAD_SIZE && (f.bitoffs + f.bitlen <= lo || hi <= f.bitoffs)
    ensures Value(t, f) == Value(s, f)
  {
    ReadBitsSame(s, t, f.bitoffs, f.bitlen);
  }

  lemma KeepByte(s: seq<Byte>, t: seq<Byte>, lo: nat, hi: nat, j: nat)
    requires IsMad(s) && IsMad(t) && Within(s, t, lo, hi) && j < MAD_SIZE
    requires 8 * Swizzle(j) + 8 <= lo || hi <= 8 * Swizzle(j)
    ensures s[j] == t[j]
  {
    var q := Swizzle(j);
    SwizzleInvolution(j);
    SwizzleInBounds(j, MAD_SIZE);
    forall i | 0 <= i < BYTE_BITS
      ensures Bit(s[j], i) == Bit(t[j], i)
    {
      ByteBitAt(s, q, i);
      ByteBitAt(t, q, i);
      assert BufBit(s, 8 * q + i) == BufBit(t, 8 * q + i);
    }
    Pow2Byte();
    BitsDetermine(s[j], t[j], BYTE_BITS);
  }

  lemma ByteBitAt(s: seq<Byte>, q: nat, i: nat)
    requires IsMad(s) && q < MAD_SIZE && i < 8
    ensures BufBit(s, 8 * q + i) == Bit(BufByte(s, q), i)
  {
    Split8(q, i);
  }

  /** Bytes in words below the first bit written keep their values. */
  lemma KeepBytesBelow(s: seq<Byte>, t: seq<Byte>, lo: nat, hi: nat, p: nat, n: nat)
    requires IsMad(s) && IsMad(t) && Within(s, t, lo, hi) && p + n <= MAD_SIZE
    requires p % 4 == 0 && n % 4 == 0 && 8 * (p + n) <= lo
    ensures Bytes(t, p, n) == Bytes(s, p, n)
  {
    var u, v := p / 4, n / 4;
    assert p == 4 * u && n == 4 * v;
    Split4(u + v, 0);
    forall j | p <= j < p + n
      ensures s[j] == t[j]
    {
      SwizzleBelow(j, p + n);
      KeepByte(s, t, lo, hi, j);
    }
  }

  lemma CopyWithin(s: seq<Byte>, t: seq<Byte>, p: nat, n: nat, lo: nat, hi: nat)
    requires IsMad(s) && IsMad(t) && lo % 32 == 0 && hi % 32 == 0 && lo <= 8 * p && 8 * (p + n) <= hi
    requires forall j :: 0 <= j < MAD_SIZE && !(p <= j < p + n) ==> t[j] == s[j]
    ensures Within(s, t, lo, hi)
  {
    var u, v := lo / 32, hi / 32;
    var a, b := 4 * u, 4 * v;
    assert lo == 8 * a && hi == 8 * b;
    Split4(u, 0);
    Split4(v, 0);
    forall k | 0 <= k < 8 * MAD_SIZE && !(lo <= k < hi)
      ensures BufBit(s, k) == BufBit(t, k)
    {
      var j, i := k / 8, k % 8;
      assert k == 8 * j + i && !(a <= j < b);
      SwizzleInBounds(j, MAD_SIZE);
      SwizzleBelow(j, a);
      SwizzleBelow(j, b);
      assert BufByte(s, j) == BufByte(t, j);
    }
  }

  // ----- the header a request should get

  /** The number a field of the header stands for: up to 32 bits, or 64. */
  function FieldValue(s: seq<Byte>, f: Field): nat
    requires IsMad(s) && f.bitoffs + f.bitlen <= 8 * MAD_SIZE
    requires f.bitlen == 64 ==> f.bitoffs % 32 == 0
  {
    if f.bitlen == 64 then WideValue(s, f) else Value(s, f)
  }

  /** Fields and the values they should read as, in the order in which they were listed. */
  datatype Header = NoFields | Entry(before: Header, f: Field, v: nat)

  predicate Readable(f: Field) {
    && f.bitoffs + f.bitlen <= 8 * MAD_SIZE
    && (f.bitlen == 64 ==> f.bitoffs % 32 == 0)
  }

  function End(f: Field): nat {
    f.bitoffs + f.bitlen
  }

  /** Every listed field ends by bit `top` and reads as listed. */
  ghost predicate Holds(s: seq<Byte>, h: Header, top: nat)
    requires IsMad(s)
  {
    match h
    case NoFields => true
    case Entry(before, f, v) =>
      f.bitoffs + f.bitlen <= top && Readable(f) && FieldValue(s, f) == v && Holds(s, before, top)
  }

  ghost predicate Lists(h: Header, f: Field, v: nat) {
    h.Entry? && ((h.f == f && h.v == v) || Lists(h.before, f, v))
  }

  lemma {:induction false} HoldsListed(s: seq<Byte>, h: Header, top: nat, f: Field, v: nat)
    requires IsMad(s) && Holds(s, h, top) && Lists(h, f, v)
    ensures Readable(f) && FieldValue(s, f) == v
  {
    if !(h.f == f && h.v == v) { HoldsListed(s, h.before, top, f, v); }
  }

  /** No byte of the buffer from `p` to `q` holds a bit of the field. */
  ghost predicate Clear(f: Field, p: nat, q: nat) {
    forall j: nat :: f.bitoffs < 8 * j + 8 && 8 * j < End(f) ==> !(p <= Swizzle(j) < q)
  }

  /** Every listed field ends by bit `top` and, unless it has bits in bytes `p` to `q`, reads as listed. */
  ghost predicate HoldsBut(s: seq<Byte>, h: Header, top: nat, p: nat, q: nat)
    requires IsMad(s)
  {
    match h
    case NoFields => true
    case Entry(before, f, v) =>
      && f.bitoffs + f.bitlen <= top && Readable(f) && HoldsBut(s, before, top, p, q)
      && (Clear(f, p, q) ==> FieldValue(s, f) == v)
  }

  lemma {:induction false} HoldsButListed(s: seq<Byte>, h: Header, top: nat, p: nat, q: nat, f: Field, v: nat)
    requires IsMad(s) && HoldsBut(s, h, top, p, q) && Lists(h, f, v)
    ensures Readable(f) && (Clear(f, p, q) ==> FieldValue(s, f) == v)
  {
    if !(h.f == f && h.v == v) { HoldsButListed(s, h.before, top, p, q, f, v); }
  }

  lemma ClearBelow(f: Field, e: nat, p: nat, q: nat)
    requires End(f) <= 8 * e && e % 4 == 0 && e <= p
    ensures Clear(f, p, q)
  {
    forall j: nat | f.bitoffs < 8 * j + 8 && 8 * j < End(f) ensures !(p <= Swizzle(j) < q) { SwizzleBelow(j, e); }
  }

  /** What does not reach down to the words of the header leaves it whole. */
  lemma {:induction false} HoldsAll(s: seq<Byte>, h: Header, top: nat, e: nat, p: nat, q: nat)
    requires IsMad(s) && HoldsBut(s, h, top, p, q) && top <= 8 * e && e % 4 == 0 && e <= p
    ensures Holds(s, h, top)
  {
    if h.Entry? {
      ClearBelow(h.f, e, p, q);
      HoldsAll(s, h.before, top, e, p, q);
    }
  }

  lemma {:induction false} HoldsMonotone(s: seq<Byte>, h: Header, top: nat, top': nat)
    requires IsMad(s) && Holds(s, h, top) && top <= top'
    ensures Holds(s, h, top')
  {
    if h.Entry? { HoldsMonotone(s, h.before, top, top'); }
  }

  function CommonHeader(rpc: Rpc): Header {
    var version := if rpc.Class() == SA_CLASS || rpc.Class() == CC_CLASS then 2 else 1;
    Entry(Entry(Entry(Entry(Entry(NoFields,
      METHOD, Trunc(rpc.mgtmethod, METHOD.bitlen)),
      RESPONSE, if rpc.IsResponse() then 1 else 0),
      CLASS_VERSION, version),
      MGMT_CLASS, rpc.Class()),
      BASE_VERSION, 1)
  }

  function RouteWord(h: Header, rstatus: nat, cnt: nat, isResp: bool): Header {
    Entry(Entry(Entry(Entry(h,
      DR_HOP_CNT, cnt),
      DR_HOP_PTR, if isResp then cnt + 1 else 0),
      DR_STATUS, Trunc(rstatus, DR_STATUS.bitlen)),
      DR_DIRECTION, if isResp then 1 else 0)
  }

  function SecondWord(h: Header, rpc: Rpc, dr: Option<DrPath>): Header {
    if rpc.Class() == DR_CLASS && dr.Some? then RouteWord(h, rpc.rstatus, dr.value.cnt, rpc.IsResponse())
    else Entry(h, STATUS, Trunc(rpc.rstatus, STATUS.bitlen))
  }

  function Attributes(h: Header, rpc: Rpc, trid: nat): Header {
    Entry(Entry(Entry(h, TRID, trid), ATTR_ID, Trunc(rpc.attrId, ATTR_ID.bitlen)), ATTR_MOD, rpc.attrMod)
  }

  /** A lid of zero is encoded as the permissive lid. */
  function Lid(l: nat): nat { if l == 0 then 0xffff else l }

  function Lids(h: Header, path: DrPath): Header {
    Entry(Entry(h, DR_DLID, Lid(path.drdlid)), DR_SLID, Lid(path.drslid))
  }

  /** The key of a congestion-control request takes the place of the management key. */
  function ClassHeader(h: Header, rpc: Rpc, dr: Option<DrPath>): Header {
    if rpc.Class() == CC_CLASS then Entry(h, CC_KEY, rpc.cckey)
    else
      var h := Entry(h, MKEY, rpc.mkey);
      if rpc.Class() == DR_CLASS && dr.Some? then Lids(h, dr.value)
      else if rpc.Class() == SA_CLASS then Entry(h, SA_COMP_MASK, rpc.mask)
      else if rpc.IsVendor2() then Entry(h, OUI, Trunc(rpc.oui, OUI.bitlen))
      else h
  }

  /** The bit at which the last of those fields ends. */
  function HeaderTop(rpc: Rpc): nat {
    if rpc.Class() == DR_CLASS then End(DR_SLID)
    else if rpc.Class() == SA_CLASS then End(SA_COMP_MASK)
    else if rpc.IsVendor2() then End(OUI)
    else End(MKEY)
  }

  /** Every field that `mad_encode` fills for the class of the request, with its value. */
  function FullHeader(rpc: Rpc, dr: Option<DrPath>, trid: nat): Header {
    ClassHeader(Attributes(SecondWord(CommonHeader(rpc), rpc, dr), rpc, trid), rpc, dr)
  }

  // ----- the writes

  lemma KeepField(s: seq<Byte>, t: seq<Byte>, lo: nat, hi: nat, f: Field)
    requires IsMad(s) && IsMad(t) && Within(s, t, lo, hi) && Readable(f) && f.bitoffs + f.bitlen <= lo
    ensures FieldValue(t, f) == FieldValue(s, f)
  {
    if f.bitlen == 64 {
      var p := f.bitoffs / 8;
      KeepBytesBelow(s, t, lo, hi, p, WIDE_BYTES);
      SpecValueOfSlice(s, p, WIDE_BYTES, WIDE_BITS);
      SpecValueOfSlice(t, p, WIDE_BYTES, WIDE_BITS);
    } else {
      Keep(s, t, lo, hi, f);
    }
  }

  lemma {:induction false} KeepHeader(s: seq<Byte>, t: seq<Byte>, lo: nat, hi: nat, h: Header, top: nat)
    requires IsMad(s) && IsMad(t) && Within(s, t, lo, hi) && top <= lo && Holds(s, h, top)
    ensures Holds(t, h, top)
    decreases h
  {
    if h.Entry? {
      KeepField(s, t, lo, hi, h.f);
      KeepHeader(s, t, lo, hi, h.before, top);
    }
  }

  /** Only bytes from `p` to `q` may differ. */
  ghost predicate BytesWithin(s: seq<Byte>, t: seq<Byte>, p: nat, q: nat)
    requires IsMad(s) && IsMad(t)
  {
    forall j :: 0 <= j < MAD_SIZE && !(p <= j < q) ==> t[j] == s[j]
  }

  lemma KeepClearBits(s: seq<Byte>, t: seq<Byte>, p: nat, q: nat, f: Field)
    requires IsMad(s) && IsMad(t) && BytesWithin(s, t, p, q) && Clear(f, p, q) && End(f) <= 8 * MAD_SIZE
    ensures Value(t, f) == Value(s, f)
  {
    forall k | f.bitoffs <= k < End(f)
      ensures BufBit(s, k) == BufBit(t, k)
    {
      var j, i := k / 8, k % 8;
      assert k == 8 * j + i;
      SwizzleInBounds(j, MAD_SIZE);
      assert !(p <= Swizzle(j) < q);
    }
    ReadBitsSame(s, t, f.bitoffs, f.bitlen);
  }

  lemma KeepClearWide(s: seq<Byte>, t: seq<Byte>, p: nat, q: nat, f: Field, a: nat)
    requires IsMad(s) && IsMad(t) && BytesWithin(s, t, p, q) && Clear(f, p, q) && End(f) <= 8 * MAD_SIZE
    requires f.bitlen == 64 && f.bitoffs == 8 * a && a % 4 == 0
    ensures Bytes(t, a, WIDE_BYTES) == Bytes(s, a, WIDE_BYTES)
  {
    forall j | a <= j < a + WIDE_BYTES
      ensures t[j] == s[j]
    {
      SwizzleInvolution(j);
      SwizzleBelow(j, a);
      SwizzleBelow(j, a + WIDE_BYTES);
      assert !(p <= Swizzle(Swizzle(j)) < q);
    }
  }

  /** A field with no bits in the bytes written keeps its value. */
  lemma KeepClear(s: seq<Byte>, t: seq<Byte>, p: nat, q: nat, f: Field)
    requires IsMad(s) && IsMad(t) && BytesWithin(s, t, p, q) && Readable(f) && Clear(f, p, q)
    ensures FieldValue(t, f) == FieldValue(s, f)
  {
    if f.bitlen == 64 {
      var a := f.bitoffs / 8;
      WordAligned(f.bitoffs);
      KeepClearWide(s, t, p, q, f, a);
      SpecValueOfSlice(s, a, WIDE_BYTES, WIDE_BITS);
      SpecValueOfSlice(t, a, WIDE_BYTES, WIDE_BITS);
    } else {
      KeepClearBits(s, t, p, q, f);
    }
  }

  lemma {:induction false} KeepBut(s: seq<Byte>, t: seq<Byte>, p: nat, q: nat, h: Header, top: nat)
    requires IsMad(s) && IsMad(t) && BytesWithin(s, t, p, q) && Holds(s, h, top)
    ensures HoldsBut(t, h, top, p, q)
    decreases h
  {
    if h.Entry? {
      if Clear(h.f, p, q) { KeepClear(s, t, p, q, h.f); }
      KeepBut(s, t, p, q, h.before, top);
    }
  }

  /** A later write above the header. */
  lemma {:induction false} KeepButAbove(s: seq<Byte>, t: seq<Byte>, from: nat, to: nat, h: Header, top: nat, lo: nat, hi: nat)
    requires IsMad(s) && IsMad(t) && Within(s, t, from, to) && top <= from && HoldsBut(s, h, top, lo, hi)
    ensures HoldsBut(t, h, top, lo, hi)
    decreases h
  {
    if h.Entry? {
      KeepField(s, t, from, to, h.f);
      KeepButAbove(s, t, from, to, h.before, top, lo, hi);
    }
  }

  lemma {:induction false} HoldsButMonotone(s: seq<Byte>, h: Header, top: nat, top': nat, lo: nat, hi: nat)
    requires IsMad(s) && HoldsBut(s, h, top, lo, hi) && top <= top'
    ensures HoldsBut(s, h, top', lo, hi)
  {
    if h.Entry? { HoldsButMonotone(s, h.before, top, top', lo, hi); }
  }

  lemma WrittenWithin(s: seq<Byte>, t: seq<Byte>, at: nat, n: nat, spill: nat, v: nat)
    requires IsMad(s) && Written(s, t, at, n, spill, v)
    ensures IsMad(t) && Within(s, t, at, at + n + spill)
  {}

  lemma ExtendHeader(s: seq<Byte>, h: Header, top: nat, f: Field, v: nat)
    requires IsMad(s) && Readable(f) && top <= f.bitoffs && Holds(s, h, top) && FieldValue(s, f) == v
    ensures Holds(s, Entry(h, f, v), End(f))
  {
    HoldsMonotone(s, h, top, End(f));
  }

  lemma WideWithin(s: seq<Byte>, t: seq<Byte>, p: nat, v: nat)
    requires IsMad(s) && IsMad(t) && p % 4 == 0 && Stored64(s, t, p, v)
    ensures Within(s, t, 8 * p, 8 * p + 64)
  {
    CopyWithin(s, t, p, 8, 8 * p, 8 * p + 64);
  }

  lemma WordAligned(at: nat)
    requires at % 32 == 0
    ensures 8 * (at / 8) == at && (at / 8) % 4 == 0
  {
    var u := at / 32;
    Split8(4 * u, 0);
    Split4(u, 0);
  }

  lemma WideRead(s: seq<Byte>, t: seq<Byte>, f: Field, v: nat, p: nat)
    requires IsMad(t) && Readable(f) && f.bitlen == 64 && 8 * p == f.bitoffs && v < Pow2(WIDE_BITS)
    requires Stored64(s, t, p, v)
    ensures FieldValue(t, f) == v
  {
    Split8(p, 0);
    Value64(s, t, p, v);
  }

  /** A header and a wide field written past it make up the longer header. */
  lemma WideStored(s: seq<Byte>, t: seq<Byte>, f: Field, v: nat, p: nat, h: Header, top: nat)
    requires IsMad(s) && IsMad(t) && Readable(f) && f.bitlen == 64 && 8 * p == f.bitoffs && p % 4 == 0 && v < Pow2(WIDE_BITS)
    requires Stored64(s, t, p, v) && top <= f.bitoffs && Holds(s, h, top)
    ensures Holds(t, Entry(h, f, v), End(f)) && Holds(t, h, top)
  {
    WideRead(s, t, f, v, p);
    WideWithin(s, t, p, v);
    KeepHeader(s, t, f.bitoffs, End(f), h, top);
    ExtendHeader(t, h, top, f, v);
  }

  predicate TableField(f: Field) {
    && 0 < f.bitlen <= 32
    && WellFormed(f.bitoffs, f.bitlen)
    && f.bitoffs + f.bitlen + SpillBits(f.bitoffs, f.bitlen) <= 8 * MAD_SIZE
  }

  lemma FirstWordFields()
    ensures TableField(METHOD) && TableField(RESPONSE) && TableField(CLASS_VERSION) && TableField(MGMT_CLASS) && TableField(BASE_VERSION)
  {}

  lemma SecondWordFields()
    ensures TableField(STATUS) && TableField(DR_HOP_CNT) && TableField(DR_HOP_PTR) && TableField(DR_STATUS) && TableField(DR_DIRECTION)
  {}

  lemma LaterFields()
    ensures TableField(ATTR_ID) && TableField(ATTR_MOD) && TableField(DR_DLID) && TableField(DR_SLID) && TableField(OUI)
  {}

  /** `mad_set_field` on a field of the table past those already written. */
  method Put(buf: array<Byte>, f: Field, v: nat, ghost h: Header, ghost top: nat)
    requires IsMad(buf[..]) && TableField(f) && v < Pow2(WORD_BITS)
    requires top <= f.bitoffs && Holds(buf[..], h, top)
    modifies buf
    ensures Holds(buf[..], Entry(h, f, Trunc(v, f.bitlen)), End(f))
  {
    ghost var s := buf[..];
    ghost var spill := SpillBits(f.bitoffs, f.bitlen);
    ExtentExact(f.bitoffs, f.bitlen);
    SetField(buf, 0, f, v);
    WrittenWithin(s, buf[..], f.bitoffs, f.bitlen, spill, v);
    ReadAfterWrite(s, buf[..], f.bitoffs, f.bitlen, spill, v);
    KeepHeader(s, buf[..], f.bitoffs, f.bitoffs + f.bitlen + spill, h, top);
    ExtendHeader(buf[..], h, top, f, Trunc(v, f.bitlen));
  }

  /** `mad_set_field64` past the fields already written. */
  method PutWide(buf: array<Byte>, f: Field, v: nat, ghost h: Header, ghost top: nat)
    requires IsMad(buf[..]) && Readable(f) && f.bitlen == 64
    requires v < Pow2(WIDE_BITS) && top <= f.bitoffs && Holds(buf[..], h, top)
    modifies buf
    ensures Holds(buf[..], Entry(h, f, v), End(f)) && Holds(buf[..], h, top)
  {
    ghost var s := buf[..];
    SetField64(buf, 0, f, v);
    WordAligned(f.bitoffs);
    WideStored(s, buf[..], f, v, f.bitoffs / 8, h, top);
  }

  /** `mad_set_array`, and the `memcpy` of the payload, past the fields already written. */
  method PutBytes(buf: array<Byte>, p: nat, val: seq<Byte>, ghost h: Header, ghost top: nat)
    requires IsMad(buf[..]) && p + |val| <= MAD_SIZE
    requires top % 32 == 0 && top <= 8 * p && Holds(buf[..], h, top)
    modifies buf
    ensures Bytes(buf[..], p, |val|) == val && Holds(buf[..], h, top)
    ensures forall j :: 0 <= j < MAD_SIZE && !(p <= j < p + |val|) ==> buf[j] == old(buf[j])
  {
    ghost var s := buf[..];
    CopyBytes(buf, p, val);
    CopyWithin(s, buf[..], p, |val|, top, 8 * MAD_SIZE);
    KeepHeader(s, buf[..], top, 8 * MAD_SIZE, h, top);
  }

  // ----- the encoder

  lemma SmallValue(v: nat, f: Field)
    requires v < 0x10000 && f.bitlen <= 32
    ensures v < Pow2(WORD_BITS)
    ensures f.bitlen >= 16 || (f.bitlen >= 8 && v < 256) || (f.bitlen >= 1 && v < 2) ==> Trunc(v, f.bitlen) == v
  {
    Pow2Byte();
    Pow2Add(BYTE_BITS, BYTE_BITS);
    Pow2Monotone(2 * BYTE_BITS, WORD_BITS);
    if f.bitlen >= 16 {
      Pow2Monotone(2 * BYTE_BITS, f.bitlen);
    } else if f.bitlen >= 8 {
      Pow2Monotone(BYTE_BITS, f.bitlen);
    } else if f.bitlen >= 1 {
      Pow2Monotone(1, f.bitlen);
    }
    TruncBound(v, f.bitlen);
  }

  method PutCommon(buf: array<Byte>, rpc: Rpc)
    requires IsMad(buf[..]) && rpc.Typed()
    modifies buf
    ensures Holds(buf[..], CommonHeader(rpc), End(BASE_VERSION))
  {
    var resp := if rpc.IsResponse() then 1 else 0;
    var version := if rpc.Class() == SA_CLASS || rpc.Class() == CC_CLASS then 2 else 1;
    SmallValue(resp, RESPONSE);
    SmallValue(version, CLASS_VERSION);
    SmallValue(rpc.Class(), MGMT_CLASS);
    SmallValue(1, BASE_VERSION);
    FirstWordFields();
    ghost var h := NoFields;
    Put(buf, METHOD, rpc.mgtmethod, h, 0);
    h := Entry(h, METHOD, Trunc(rpc.mgtmethod, METHOD.bitlen));
    Put(buf, RESPONSE, resp, h, End(METHOD));
    h := Entry(h, RESPONSE, resp);
    Put(buf, CLASS_VERSION, version, h, End(RESPONSE));
    h := Entry(h, CLASS_VERSION, version);
    Put(buf, MGMT_CLASS, rpc.Class(), h, End(CLASS_VERSION));
    h := Entry(h, MGMT_CLASS, rpc.Class());
    Put(buf, BASE_VERSION, 1, h, End(MGMT_CLASS));
  }

  predicate GoodPath(dr: Option<DrPath>) {
    dr.Some? ==> |dr.value.p| == HOPS_MAX && dr.value.drslid < 0x10000 && dr.value.drdlid < 0x10000
  }

  /** The two checks the encoder makes on a directed-route request. */
  predicate Rejected(rpc: Rpc, dr: Option<DrPath>) {
    rpc.Class() == DR_CLASS && (dr.None? || dr.value.cnt >= HOPS_MAX)
  }

  /** The second word of a directed-route request. The status shares two bytes with the
      direction bit, into which a wide status spills; the direction is written after it. */
  method PutRouteWord(buf: array<Byte>, rstatus: nat, cnt: nat, isResp: bool, ghost h0: Header)
    requires IsMad(buf[..]) && rstatus < Pow2(WORD_BITS) && cnt < HOPS_MAX && Holds(buf[..], h0, End(BASE_VERSION))
    modifies buf
    ensures Holds(buf[..], RouteWord(h0, rstatus, cnt, isResp), End(DR_DIRECTION))
  {
    var resp, ptr := if isResp then 1 else 0, if isResp then cnt + 1 else 0;
    SmallValue(cnt, DR_HOP_CNT);
    SmallValue(ptr, DR_HOP_PTR);
    SmallValue(resp, DR_DIRECTION);
    SecondWordFields();
    ghost var h := h0;
    Put(buf, DR_HOP_CNT, cnt, h, End(BASE_VERSION));
    h := Entry(h, DR_HOP_CNT, cnt);
    Put(buf, DR_HOP_PTR, ptr, h, End(DR_HOP_CNT));
    h := Entry(h, DR_HOP_PTR, ptr);
    Put(buf, DR_STATUS, rstatus, h, End(DR_HOP_PTR));
    h := Entry(h, DR_STATUS, Trunc(rstatus, DR_STATUS.bitlen));
    Put(buf, DR_DIRECTION, resp, h, End(DR_STATUS));
  }

  method PutSecondWord(buf: array<Byte>, rpc: Rpc, dr: Option<DrPath>, ghost h0: Header)
    requires IsMad(buf[..]) && rpc.Typed() && !Rejected(rpc, dr) && Holds(buf[..], h0, End(BASE_VERSION))
    modifies buf
    ensures Holds(buf[..], SecondWord(h0, rpc, dr), End(STATUS))
  {
    if rpc.Class() == DR_CLASS {
      PutRouteWord(buf, rpc.rstatus, dr.value.cnt, rpc.IsResponse(), h0);
    } else {
      SecondWordFields();
      Put(buf, STATUS, rpc.rstatus, h0, End(BASE_VERSION));
    }
  }

  method PutAttributes(buf: array<Byte>, rpc: Rpc, trid: nat, ghost h0: Header)
    requires IsMad(buf[..]) && rpc.Typed() && trid < Pow2(WIDE_BITS) && Holds(buf[..], h0, End(STATUS))
    modifies buf
    ensures Holds(buf[..], Attributes(h0, rpc, trid), End(ATTR_MOD))
  {
    LaterFields();
    ghost var h := h0;
    PutWide(buf, TRID, trid, h, End(STATUS));
    h := Entry(h, TRID, trid);
    Put(buf, ATTR_ID, rpc.attrId, h, End(TRID));
    h := Entry(h, ATTR_ID, Trunc(rpc.attrId, ATTR_ID.bitlen));
    TruncBound(rpc.attrMod, ATTR_MOD.bitlen);
    Put(buf, ATTR_MOD, rpc.attrMod, h, End(ATTR_ID));
  }

  /** The lids and the path of a directed-route request. */
  method PutRoute(buf: array<Byte>, path: DrPath, start: nat, ghost h0: Header)
    requires IsMad(buf[..]) && GoodPath(Some(path)) && Holds(buf[..], h0, End(MKEY))
    requires 36 <= start && start + HOPS_MAX <= MAD_SIZE
    modifies buf
    ensures Holds(buf[..], Lids(h0, path), End(DR_SLID))
    ensures Bytes(buf[..], start, HOPS_MAX) == path.p
  {
    var dlid, slid := Lid(path.drdlid), Lid(path.drslid);
    SmallValue(dlid, DR_DLID);
    SmallValue(slid, DR_SLID);
    LaterFields();
    ghost var h := h0;
    Put(buf, DR_DLID, dlid, h, End(MKEY));
    h := Entry(h, DR_DLID, dlid);
    Put(buf, DR_SLID, slid, h, End(DR_DLID));
    h := Entry(h, DR_SLID, slid);
    PutBytes(buf, start, path.p, h, End(DR_SLID));
  }

  // The header of each class, spelled out.

  lemma RouteHeader(h: Header, rpc: Rpc, path: DrPath)
    requires rpc.Class() == DR_CLASS
    ensures ClassHeader(h, rpc, Some(path)) == Lids(Entry(h, MKEY, rpc.mkey), path) && HeaderTop(rpc) == End(DR_SLID)
  {}

  lemma SaHeader(h: Header, rpc: Rpc, dr: Option<DrPath>)
    requires rpc.Class() == SA_CLASS
    ensures ClassHeader(h, rpc, dr) == Entry(Entry(h, MKEY, rpc.mkey), SA_COMP_MASK, rpc.mask)
    ensures HeaderTop(rpc) == End(SA_COMP_MASK)
  {}

  lemma CcHeader(h: Header, rpc: Rpc, dr: Option<DrPath>)
    requires rpc.Class() == CC_CLASS
    ensures ClassHeader(h, rpc, dr) == Entry(h, CC_KEY, rpc.cckey) && HeaderTop(rpc) == End(CC_KEY)
  {}

  lemma PlainHeader(h: Header, rpc: Rpc, dr: Option<DrPath>)
    requires rpc.Class() != DR_CLASS && rpc.Class() != SA_CLASS && rpc.Class() != CC_CLASS && !rpc.IsVendor2()
    ensures ClassHeader(h, rpc, dr) == Entry(h, MKEY, rpc.mkey) && HeaderTop(rpc) == End(MKEY)
  {}

  lemma VendorHeader(h: Header, rpc: Rpc, dr: Option<DrPath>)
    requires rpc.IsVendor2()
    ensures ClassHeader(h, rpc, dr) == Entry(Entry(h, MKEY, rpc.mkey), OUI, Trunc(rpc.oui, OUI.bitlen)) && HeaderTop(rpc) == End(OUI)
  {}

  /** What is in the header before the payload: all but the identifier of a vendor request. */
  function EarlyHeader(h: Header, rpc: Rpc, dr: Option<DrPath>): Header {
    if rpc.IsVendor2() then Entry(h, MKEY, rpc.mkey) else ClassHeader(h, rpc, dr)
  }

  function EarlyTop(rpc: Rpc): nat {
    if rpc.IsVendor2() then End(MKEY) else HeaderTop(rpc)
  }

  /** The words after the attributes, but for the vendor identifier, which comes last. */
  method PutClass(buf: array<Byte>, rpc: Rpc, dr: Option<DrPath>, ghost h0: Header)
    requires IsMad(buf[..]) && rpc.Typed() && !Rejected(rpc, dr) && GoodPath(dr) && Holds(buf[..], h0, End(ATTR_MOD))
    modifies buf
    ensures Holds(buf[..], EarlyHeader(h0, rpc, dr), EarlyTop(rpc))
    ensures rpc.Class() == DR_CLASS ==> Bytes(buf[..], PathStart(rpc), HOPS_MAX) == dr.value.p
  {
    PutWide(buf, MKEY, rpc.mkey, h0, End(ATTR_MOD));
    ghost var h := Entry(h0, MKEY, rpc.mkey);
    if rpc.Class() == DR_CLASS {
      RouteHeader(h0, rpc, dr.value);
      PutRoute(buf, dr.value, PathStart(rpc), h);
    } else if rpc.Class() == SA_CLASS {
      SaHeader(h0, rpc, dr);
      PutWide(buf, SA_COMP_MASK, rpc.mask, h, End(MKEY));
    } else if rpc.Class() == CC_CLASS {
      CcHeader(h0, rpc, dr);
      PutWide(buf, CC_KEY, rpc.cckey, h0, End(ATTR_MOD));
    } else if !rpc.IsVendor2() {
      PlainHeader(h0, rpc, dr);
    }
  }

  function PathStart(rpc: Rpc): nat {
    if rpc.IsResponse() then DR_RETURN_PATH.bitoffs / 8 else DR_PATH.bitoffs / 8
  }

  // ----- the payload

  /** The bytes that the payload takes: none if there is no payload. */
  function PayloadLo(rpc: Rpc, data: Option<seq<Byte>>): nat {
    if data.Some? then rpc.dataoffs else MAD_SIZE
  }

  function PayloadHi(rpc: Rpc, data: Option<seq<Byte>>): nat {
    if data.Some? then rpc.dataoffs + |data.value| else MAD_SIZE
  }

  predicate InMad(rpc: Rpc, data: Option<seq<Byte>>) {
    data.Some? ==> rpc.dataoffs + |data.value| <= MAD_SIZE
  }

  /** The payload stays off the `n` bytes from `p` on. */
  predicate Beside(rpc: Rpc, data: Option<seq<Byte>>, p: nat, n: nat) {
    data.Some? ==> rpc.dataoffs + |data.value| <= p || p + n <= rpc.dataoffs
  }

  lemma BytesSame(s: seq<Byte>, t: seq<Byte>, p: nat, n: nat)
    requires |s| == |t| && p + n <= |s| && forall j :: p <= j < p + n ==> t[j] == s[j]
    ensures Bytes(t, p, n) == Bytes(s, p, n)
  {}

  /** The `memcpy` of the payload, if there is one. */
  method PutPayload(buf: array<Byte>, rpc: Rpc, data: Option<seq<Byte>>, ghost h: Header, ghost top: nat)
    requires IsMad(buf[..]) && Holds(buf[..], h, top) && InMad(rpc, data)
    modifies buf
    ensures HoldsBut(buf[..], h, top, PayloadLo(rpc, data), PayloadHi(rpc, data))
    ensures data.Some? ==> Bytes(buf[..], rpc.dataoffs, |data.value|) == data.value
    ensures forall j :: 0 <= j < MAD_SIZE && Beside(rpc, data, j, 1) ==> buf[j] == old(buf[j])
  {
    ghost var s := buf[..];
    if data.Some? {
      CopyBytes(buf, rpc.dataoffs, data.value);
    }
    KeepBut(s, buf[..], PayloadLo(rpc, data), PayloadHi(rpc, data), h, top);
  }

  /** The vendor identifier, written last. */
  method PutVendorOui(buf: array<Byte>, rpc: Rpc, ghost h: Header, ghost lo: nat, ghost hi: nat)
    requires IsMad(buf[..]) && rpc.Typed() && HoldsBut(buf[..], h, End(MKEY), lo, hi)
    modifies buf
    ensures HoldsBut(buf[..], Entry(h, OUI, Trunc(rpc.oui, OUI.bitlen)), End(OUI), lo, hi)
    ensures FieldValue(buf[..], OUI) == Trunc(rpc.oui, OUI.bitlen)
    ensures forall j :: 0 <= j < MAD_SIZE && !(37 <= j < 40) ==> buf[j] == old(buf[j])
  {
    ghost var s := buf[..];
    LaterFields();
    SetField(buf, 0, OUI, rpc.oui);
    ReadAfterWrite(s, buf[..], OUI.bitoffs, OUI.bitlen, 0, rpc.oui);
    OuiWithin(s, buf[..], rpc.oui);
    KeepButAbove(s, buf[..], 288, 312, h, End(MKEY), lo, hi);
    HoldsButMonotone(buf[..], h, End(MKEY), End(OUI), lo, hi);
    OuiBytes(s, buf[..]);
  }

  /** The identifier is in the last three bytes of its word. */
  lemma OuiBytes(s: seq<Byte>, t: seq<Byte>)
    requires IsMad(s) && IsMad(t) && Within(s, t, 288, 312)
    ensures forall j :: 0 <= j < MAD_SIZE && !(37 <= j < 40) ==> t[j] == s[j]
  {
    forall j | 0 <= j < MAD_SIZE && !(37 <= j < 40) ensures t[j] == s[j] {
      SwizzleBelow(j, 36);
      SwizzleBelow(j, 40);
      SwizzleParts(9, 0);
      KeepByte(s, t, 288, 312, j);
    }
  }

  lemma OuiWithin(s: seq<Byte>, t: seq<Byte>, oui: nat)
    requires IsMad(s) && IsMad(t) && Written(s, t, OUI.bitoffs, OUI.bitlen, 0, oui)
    ensures Within(s, t, 288, 312)
  {}

  // ----- where the header lies, as the specification numbers bits

  /** Bits `o` to `o + w - 1` of the message hold `v`, unless one of their bytes is among the
      bytes `p` to `q`. */
  predicate Laid(s: seq<Byte>, o: nat, w: nat, v: nat, p: nat, q: nat)
    requires o + w <= 8 * |s|
  {
    (o + w + 7) / 8 <= p || q <= o / 8 ==> SpecValue(s, o, w) == v
  }

  /** Byte `j` of the codec's numbering, if it has bits of the field, is a byte of the message
      that the specification gives to the field. */
  lemma FieldByte(o: nat, w: nat, j: nat)
    requires 0 < w && o % 32 + w <= 32 && BitsOffs(o, w) < 8 * j + 8 && 8 * j < BitsOffs(o, w) + w
    ensures o / 8 <= Swizzle(j) <= (o + w - 1) / 8
  {
    var at := BitsOffs(o, w);
    var i := if at < 8 * j then 8 * j - at else 0;
    MirrorStep(o, w, i);
    MirroredByte(o + w - 1 - i, j, at + i);
  }

  lemma MirroredByte(x: nat, j: nat, k: nat)
    requires Mirror(x) == k && 8 * j <= k < 8 * j + 8
    ensures Swizzle(j) == x / 8
  {
    MirrorByte(x);
    Split8(j, k - 8 * j);
  }

  /** What a field of at most a word holds is what its bits of the message hold. */
  lemma LaidNarrow(s: seq<Byte>, f: Field, o: nat, w: nat, v: nat, p: nat, q: nat)
    requires IsMad(s) && 0 < w <= 32 && o % 32 + w <= 32 && o + w <= 8 * MAD_SIZE && f == Field(BitsOffs(o, w), w)
    requires Readable(f) && (Clear(f, p, q) ==> FieldValue(s, f) == v)
    ensures Laid(s, o, w, v, p, q)
  {
    FieldIsSpecBits(s, o, w);
    if (o + w + 7) / 8 <= p || q <= o / 8 {
      forall j: nat | f.bitoffs < 8 * j + 8 && 8 * j < End(f) ensures !(p <= Swizzle(j) < q) { FieldByte(o, w, j); }
    }
  }

  lemma LaidWide(s: seq<Byte>, f: Field, a: nat, v: nat, p: nat, q: nat)
    requires IsMad(s) && f == Field(32 * a, 64) && 32 * a + 64 <= 8 * MAD_SIZE
    requires Readable(f) && (Clear(f, p, q) ==> FieldValue(s, f) == v)
    ensures Laid(s, 32 * a, 64, v, p, q)
  {
    Split8(4 * a, 0);
    Split8(4 * a + 8, 7);
    if 4 * a + 8 <= p || q <= 4 * a {
      forall j: nat | f.bitoffs < 8 * j + 8 && 8 * j < End(f) ensures !(p <= Swizzle(j) < q) {
        Split4(a, 0);
        Split4(a + 2, 0);
        SwizzleBelow(j, 4 * a);
        SwizzleBelow(j, 4 * a + 8);
      }
    }
  }

  /** Base version, class, class version, response bit and method (section 13.4.2 of the
      InfiniBand specification). */
  predicate FirstWordLaid(s: seq<Byte>, rpc: Rpc, p: nat, q: nat)
    requires IsMad(s)
  {
    var cls := Trunc(rpc.mgtclass, 8);
    && Laid(s, 0, 8, 1, p, q)
    && Laid(s, 8, 8, cls, p, q)
    && Laid(s, 16, 8, if cls == 0x03 || cls == 0x21 then 2 else 1, p, q)
    && Laid(s, 24, 1, if Bit(rpc.mgtmethod, 7) then 1 else 0, p, q)
    && Laid(s, 25, 7, Trunc(rpc.mgtmethod, 7), p, q)
  }

  /** Status, or direction, status, hop pointer and hop count (section 14.2.1.2). */
  predicate SecondWordLaid(s: seq<Byte>, rpc: Rpc, dr: Option<DrPath>, p: nat, q: nat)
    requires IsMad(s)
  {
    if Trunc(rpc.mgtclass, 8) == 0x81 && dr.Some? then
      && Laid(s, 32, 1, if Bit(rpc.mgtmethod, 7) then 1 else 0, p, q)
      && Laid(s, 33, 15, Trunc(rpc.rstatus, 15), p, q)
      && Laid(s, 48, 8, if Bit(rpc.mgtmethod, 7) then dr.value.cnt + 1 else 0, p, q)
      && Laid(s, 56, 8, dr.value.cnt, p, q)
    else Laid(s, 32, 16, Trunc(rpc.rstatus, 16), p, q)
  }

  /** Transaction, attribute and modifier. */
  predicate AttributesLaid(s: seq<Byte>, rpc: Rpc, trid: nat, p: nat, q: nat)
    requires IsMad(s)
  {
    && Laid(s, 64, 64, trid, p, q)
    && Laid(s, 128, 16, Trunc(rpc.attrId, 16), p, q)
    && Laid(s, 160, 32, rpc.attrMod, p, q)
  }

  /** The key; the source and the destination lid of a directed route, the component mask of
      subnet administration, the identifier of a vendor. */
  predicate ClassLaid(s: seq<Byte>, rpc: Rpc, dr: Option<DrPath>, p: nat, q: nat)
    requires IsMad(s)
  {
    var cls := Trunc(rpc.mgtclass, 8);
    && Laid(s, 192, 64, if cls == 0x21 then rpc.cckey else rpc.mkey, p, q)
    && (cls == 0x81 && dr.Some? ==>
          && Laid(s, 256, 16, if dr.value.drslid == 0 then 0xffff else dr.value.drslid, p, q)
          && Laid(s, 272, 16, if dr.value.drdlid == 0 then 0xffff else dr.value.drdlid, p, q))
    && (cls == 0x03 ==> Laid(s, 384, 64, rpc.mask, p, q))
    && (0x30 <= cls <= 0x4f ==> Laid(s, 296, 24, Trunc(rpc.oui, 24), p, q))
  }

  /** The last of the listed fields, and the rest. */
  lemma LaidEntry(s: seq<Byte>, before: Header, f: Field, v: nat, top: nat, p: nat, q: nat, o: nat, w: nat)
    requires IsMad(s) && HoldsBut(s, Entry(before, f, v), top, p, q)
    requires 0 < w <= 32 && o % 32 + w <= 32 && o + w <= 8 * MAD_SIZE && f == Field(BitsOffs(o, w), w)
    ensures Laid(s, o, w, v, p, q) && HoldsBut(s, before, top, p, q)
  {
    LaidNarrow(s, f, o, w, v, p, q);
  }

  lemma LaidWideEntry(s: seq<Byte>, before: Header, f: Field, v: nat, top: nat, p: nat, q: nat, a: nat)
    requires IsMad(s) && HoldsBut(s, Entry(before, f, v), top, p, q) && f == Field(32 * a, 64) && 32 * a + 64 <= 8 * MAD_SIZE
    ensures Laid(s, 32 * a, 64, v, p, q) && HoldsBut(s, before, top, p, q)
  {
    LaidWide(s, f, a, v, p, q);
  }

  lemma FirstLaid(s: seq<Byte>, rpc: Rpc, top: nat, p: nat, q: nat)
    requires IsMad(s) && HoldsBut(s, CommonHeader(rpc), top, p, q)
    ensures FirstWordLaid(s, rpc, p, q)
  {
    var h4 := CommonHeader(rpc);
    var h3 := h4.before;
    var h2 := h3.before;
    var h1 := h2.before;
    var h0 := h1.before;
    LaidEntry(s, h3, BASE_VERSION, h4.v, top, p, q, 0, 8);
    LaidEntry(s, h2, MGMT_CLASS, h3.v, top, p, q, 8, 8);
    LaidEntry(s, h1, CLASS_VERSION, h2.v, top, p, q, 16, 8);
    LaidEntry(s, h0, RESPONSE, h1.v, top, p, q, 24, 1);
    LaidEntry(s, NoFields, METHOD, h0.v, top, p, q, 25, 7);
  }

  lemma RouteLaid(s: seq<Byte>, h: Header, rstatus: nat, cnt: nat, isResp: bool, top: nat, p: nat, q: nat)
    requires IsMad(s) && HoldsBut(s, RouteWord(h, rstatus, cnt, isResp), top, p, q)
    ensures Laid(s, 32, 1, if isResp then 1 else 0, p, q) && Laid(s, 33, 15, Trunc(rstatus, 15), p, q)
    ensures Laid(s, 48, 8, if isResp then cnt + 1 else 0, p, q) && Laid(s, 56, 8, cnt, p, q)
    ensures HoldsBut(s, h, top, p, q)
  {
    var g3 := RouteWord(h, rstatus, cnt, isResp);
    var g2 := g3.before;
    var g1 := g2.before;
    var g0 := g1.before;
    LaidEntry(s, g2, DR_DIRECTION, g3.v, top, p, q, 32, 1);
    LaidEntry(s, g1, DR_STATUS, g2.v, top, p, q, 33, 15);
    LaidEntry(s, g0, DR_HOP_PTR, g1.v, top, p, q, 48, 8);
    LaidEntry(s, h, DR_HOP_CNT, g0.v, top, p, q, 56, 8);
  }

  lemma SecondLaid(s: seq<Byte>, h: Header, rpc: Rpc, dr: Option<DrPath>, top: nat, p: nat, q: nat)
    requires IsMad(s) && HoldsBut(s, SecondWord(h, rpc, dr), top, p, q)
    ensures SecondWordLaid(s, rpc, dr, p, q) && HoldsBut(s, h, top, p, q)
  {
    if rpc.Class() == DR_CLASS && dr.Some? {
      RouteLaid(s, h, rpc.rstatus, dr.value.cnt, rpc.IsResponse(), top, p, q);
    } else {
      LaidEntry(s, h, STATUS, Trunc(rpc.rstatus, 16), top, p, q, 32, 16);
    }
  }

  lemma AttributeLaid(s: seq<Byte>, h: Header, rpc: Rpc, trid: nat, top: nat, p: nat, q: nat)
    requires IsMad(s) && HoldsBut(s, Attributes(h, rpc, trid), top, p, q)
    ensures AttributesLaid(s, rpc, trid, p, q) && HoldsBut(s, h, top, p, q)
  {
    var g2 := Attributes(h, rpc, trid);
    var g1 := g2.before;
    LaidEntry(s, g1, ATTR_MOD, g2.v, top, p, q, 160, 32);
    LaidEntry(s, g1.before, ATTR_ID, g1.v, top, p, q, 128, 16);
    LaidWideEntry(s, h, TRID, trid, top, p, q, 2);
  }

  lemma LidsLaid(s: seq<Byte>, h: Header, path: DrPath, top: nat, p: nat, q: nat)
    requires IsMad(s) && HoldsBut(s, Lids(h, path), top, p, q)
    ensures Laid(s, 256, 16, if path.drslid == 0 then 0xffff else path.drslid, p, q)
    ensures Laid(s, 272, 16, if path.drdlid == 0 then 0xffff else path.drdlid, p, q)
    ensures HoldsBut(s, h, top, p, q)
  {
    var g := Lids(h, path);
    LaidEntry(s, g.before, DR_SLID, g.v, top, p, q, 256, 16);
    LaidEntry(s, h, DR_DLID, g.before.v, top, p, q, 272, 16);
  }

  lemma LastLaid(s: seq<Byte>, h: Header, rpc: Rpc, dr: Option<DrPath>, top: nat, p: nat, q: nat)
    requires IsMad(s) && HoldsBut(s, ClassHeader(h, rpc, dr), top, p, q)
    ensures ClassLaid(s, rpc, dr, p, q) && HoldsBut(s, h, top, p, q)
  {
    var k := Entry(h, MKEY, rpc.mkey);
    if rpc.Class() == CC_CLASS {
      LaidWideEntry(s, h, CC_KEY, rpc.cckey, top, p, q, 6);
    } else {
      if rpc.Class() == DR_CLASS && dr.Some? {
        LidsLaid(s, k, dr.value, top, p, q);
      } else if rpc.Class() == SA_CLASS {
        LaidWideEntry(s, k, SA_COMP_MASK, rpc.mask, top, p, q, 12);
      } else if rpc.IsVendor2() {
        LaidEntry(s, k, OUI, Trunc(rpc.oui, 24), top, p, q, 296, 24);
      }
      LaidWideEntry(s, h, MKEY, rpc.mkey, top, p, q, 6);
    }
  }

  /** The whole header of a request is where the specification has it, but for what lies in
      the bytes `p` to `q`. */
  predicate HeaderLaid(s: seq<Byte>, rpc: Rpc, dr: Option<DrPath>, trid: nat, p: nat, q: nat)
    requires IsMad(s)
  {
    && FirstWordLaid(s, rpc, p, q) && SecondWordLaid(s, rpc, dr, p, q)
    && AttributesLaid(s, rpc, trid, p, q) && ClassLaid(s, rpc, dr, p, q)
  }

  lemma FullHeaderLaid(s: seq<Byte>, rpc: Rpc, dr: Option<DrPath>, trid: nat, top: nat, p: nat, q: nat)
    requires IsMad(s) && HoldsBut(s, FullHeader(rpc, dr, trid), top, p, q)
    ensures HeaderLaid(s, rpc, dr, trid, p, q)
  {
    var h := SecondWord(CommonHeader(rpc), rpc, dr);
    LastLaid(s, Attributes(h, rpc, trid), rpc, dr, top, p, q);
    AttributeLaid(s, h, rpc, trid, top, p, q);
    SecondLaid(s, CommonHeader(rpc), rpc, dr, top, p, q);
    FirstLaid(s, rpc, top, p, q);
  }

  lemma VendorLaid(s: seq<Byte>, v: nat)
    requires IsMad(s) && FieldValue(s, OUI) == v
    ensures SpecValue(s, 296, 24) == v
  {
    LaidNarrow(s, OUI, 296, 24, v, MAD_SIZE, MAD_SIZE);
  }

  /** `mad_encode`. It fails only on a directed-route request without a usable path. Else,
      whatever the buffer held and wherever the payload lies, every header field of the class
      none of whose bytes the payload takes, the route likewise, and the payload read back as
      supplied.
      `newTrid` is what `mad_trid` would return. */
  method Encode(buf: array<Byte>, rpc: Rpc, dr: Option<DrPath>, data: Option<seq<Byte>>, newTrid: nat)
    returns (ok: bool, trid: nat)
    requires IsMad(buf[..]) && rpc.Typed() && GoodPath(dr) && newTrid < Pow2(WIDE_BITS) && InMad(rpc, data)
    modifies buf
    ensures ok <==> !(Trunc(rpc.mgtclass, 8) == 0x81 && (dr.None? || dr.value.cnt >= 64))
    ensures trid == if rpc.trid == 0 && ok then newTrid else rpc.trid
    ensures ok ==> HoldsBut(buf[..], FullHeader(rpc, dr, trid), HeaderTop(rpc), PayloadLo(rpc, data), PayloadHi(rpc, data))
    ensures ok ==> HeaderLaid(buf[..], rpc, dr, trid, PayloadLo(rpc, data), PayloadHi(rpc, data))
    ensures ok && Trunc(rpc.mgtclass, 8) == 0x81 ==>
              var start := if Bit(rpc.mgtmethod, 7) then 192 else 128;
              Beside(rpc, data, start, 64) ==> Bytes(buf[..], start, 64) == dr.value.p
    ensures ok && 0x30 <= Trunc(rpc.mgtclass, 8) <= 0x4f ==> SpecValue(buf[..], 296, 24) == Trunc(rpc.oui, 24)
    ensures ok && data.Some? && (0x30 <= Trunc(rpc.mgtclass, 8) <= 0x4f ==> Beside(rpc, data, 37, 3)) ==>
              Bytes(buf[..], rpc.dataoffs, |data.value|) == data.value
  {
    trid := rpc.trid;
    PutCommon(buf, rpc);
    if rpc.Class() == DR_CLASS && (dr.None? || dr.value.cnt >= HOPS_MAX) {
      return false, trid;
    }
    ok := true;
    ghost var h := CommonHeader(rpc);
    PutSecondWord(buf, rpc, dr, h);
    h := SecondWord(h, rpc, dr);
    if trid == 0 {
      trid := newTrid;
    }
    PutAttributes(buf, rpc, trid, h);
    h := Attributes(h, rpc, trid);
    PutRest(buf, rpc, dr, data, h);
    FullHeaderLaid(buf[..], rpc, dr, trid, HeaderTop(rpc), PayloadLo(rpc, data), PayloadHi(rpc, data));
    if rpc.IsVendor2() { VendorLaid(buf[..], Trunc(rpc.oui, 24)); }
  }

  /** What `mad_encode` writes after the attributes. */
  method PutRest(buf: array<Byte>, rpc: Rpc, dr: Option<DrPath>, data: Option<seq<Byte>>, ghost h: Header)
    requires IsMad(buf[..]) && rpc.Typed() && !Rejected(rpc, dr) && GoodPath(dr) && Holds(buf[..], h, End(ATTR_MOD))
    requires InMad(rpc, data)
    modifies buf
    ensures HoldsBut(buf[..], ClassHeader(h, rpc, dr), HeaderTop(rpc), PayloadLo(rpc, data), PayloadHi(rpc, data))
    ensures rpc.Class() == DR_CLASS && Beside(rpc, data, PathStart(rpc), HOPS_MAX) ==>
              Bytes(buf[..], PathStart(rpc), HOPS_MAX) == dr.value.p
    ensures rpc.IsVendor2() ==> FieldValue(buf[..], OUI) == Trunc(rpc.oui, OUI.bitlen)
    ensures data.Some? && (rpc.IsVendor2() ==> Beside(rpc, data, 37, 3)) ==>
              Bytes(buf[..], rpc.dataoffs, |data.value|) == data.value
  {
    PutClass(buf, rpc, dr, h);
    ghost var s := buf[..];
    PutPayload(buf, rpc, data, EarlyHeader(h, rpc, dr), EarlyTop(rpc));
    if rpc.Class() == DR_CLASS && Beside(rpc, data, PathStart(rpc), HOPS_MAX) {
      BytesSame(s, buf[..], PathStart(rpc), HOPS_MAX);
    }
    if rpc.IsVendor2() {
      ghost var t := buf[..];
      VendorHeader(h, rpc, dr);
      PutVendorOui(buf, rpc, Entry(h, MKEY, rpc.mkey), PayloadLo(rpc, data), PayloadHi(rpc, data));
      if data.Some? && Beside(rpc, data, 37, 3) { BytesSame(t, buf[..], rpc.dataoffs, |data.value|); }
    }
  }

  /** A payload past the header of its class leaves the header whole. */
  lemma WholeHeader(s: seq<Byte>, rpc: Rpc, dr: Option<DrPath>, trid: nat, data: Option<seq<Byte>>)
    requires IsMad(s) && (data.Some? ==> rpc.DataClear(|data.value|))
    requires HoldsBut(s, FullHeader(rpc, dr, trid), HeaderTop(rpc), PayloadLo(rpc, data), PayloadHi(rpc, data))
    ensures Holds(s, FullHeader(rpc, dr, trid), HeaderTop(rpc))
  {
    TopBelow(rpc);
    HoldsAll(s, FullHeader(rpc, dr, trid), HeaderTop(rpc), rpc.HeaderEnd(), PayloadLo(rpc, data), PayloadHi(rpc, data));
  }

  lemma TopBelow(rpc: Rpc)
    ensures HeaderTop(rpc) <= 8 * rpc.HeaderEnd() && rpc.HeaderEnd() % 4 == 0 && rpc.HeaderEnd() <= MAD_SIZE
  {}
}
