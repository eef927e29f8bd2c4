/** The downlink pipeline: IP packets for a UE become GTP-U frames to its DU, or are dropped. */
module DownlinkFrames {
  import opened Bytes
  import opened SlotTable
  import opened Userplane
  import opened Gtpu

  /** Where the inner packet is read to, and so the length of the headers written before it. */
  const DOWNLINK_INNER_PACKET_OFFSET: nat :=
    GTP_EXTENDED_HEADER_LEN + GTP_EXT_HEADER_LEN_NRUP_DL_USER_DATA + PDCP_HEADER_LEN

  const MAX_INNER: nat := BUFFER_LEN - DOWNLINK_INNER_PACKET_OFFSET

  const NR_RAN_CONTAINER: byte := 0x84

  /**
   GTP header with the NR RAN container extension and a PDCP data header with 12-bit sequence
   number (section 5.2.1 of TS 29.281, section 5.5.2.1 of TS 38.425, section 6.2.2.2 of TS 38.323).
   */
  function Header(teid: Quad, n: nat, pdcpSn: nat, nrSn: nat): (h: seq<byte>)
    ensures |h| == DOWNLINK_INNER_PACKET_OFFSET
  {
    var length := n + DOWNLINK_INNER_PACKET_OFFSET - GTP_BASE_HEADER_LEN;
    [0x34, GTP_MESSAGE_TYPE_GPDU, length / 256 % 256, length % 256,
     teid.a, teid.b, teid.c, teid.d,
     0, 0, 0, NR_RAN_CONTAINER,
     2, 0, 0, nrSn / 0x1_0000 % 256, nrSn / 256 % 256, nrSn % 256, 0, 0,
     0x80 + pdcpSn / 256 % 16, pdcpSn % 256]
  }

  function Frame(teid: Quad, inner: seq<byte>, pdcpSn: nat, nrSn: nat): (f: seq<byte>) {
    Header(teid, |inner|, pdcpSn, nrSn) + inner
  }

  // ---- The DU side, as a reference ----

  datatype Received = Received(teid: Quad, nrSn: nat, pdcpSn: nat, inner: seq<byte>)

  /**
   What a DU reads off a frame, by its length field: the TEID and the two sequence numbers. It is a
   strict DU, which also wants unused and spare bits to be zero.
   */
  function Read(f: seq<byte>): (r: Option<Received>) {
    if |f| < 22 || f[0] != 0x34 || f[1] != 255 || f[2] as int * 256 + f[3] != |f| - 8 || f[11] != 0x84
       || f[8] != 0 || f[9] != 0 || f[10] != 0 || f[12] != 2 || f[13] != 0 || f[14] != 0 || f[18] != 0 || f[19] != 0
       || f[20] / 16 != 8
    then None
    else Some(Received(QuadAt(f, 4), f[15] as int * 0x1_0000 + f[16] as int * 256 + f[17],
                       f[20] as int % 16 * 256 + f[21], f[22..]))
  }

  /** The DU reads back the tunnel, the packet, and the low bits of both sequence numbers. */
  lemma FrameRoundTrip(teid: Quad, inner: seq<byte>, pdcpSn: nat, nrSn: nat)
    requires |inner| <= MAX_INNER
    ensures Read(Frame(teid, inner, pdcpSn, nrSn))
         == Some(Received(teid, nrSn % TWO_24, pdcpSn % TWO_12, inner))
  {
    var h, f := Header(teid, |inner|, pdcpSn, nrSn), Frame(teid, inner, pdcpSn, nrSn);
    assert forall i | 0 <= i < |h| :: f[i] == h[i];
    TwoOctets(|inner| + DOWNLINK_INNER_PACKET_OFFSET - GTP_BASE_HEADER_LEN);
    TwelveBits(pdcpSn);
    ThreeOctets(nrSn);
    assert f[22..] == inner;
  }

  /**
   Our own uplink walk, run on a downlink frame, skips exactly the RAN container and stops at the
   PDCP header, with the data bit set, iff the packet has more than the twenty octets a downlink
   packet must have (the uplink test also leaves room for an SDAP header).
   */
  lemma UplinkWalkAgrees(teid: Quad, inner: seq<byte>, pdcpSn: nat, nrSn: nat)
    requires IPV4_HEADER_LEN <= |inner|
    ensures var f := Frame(teid, inner, pdcpSn, nrSn);
      && (WalkFrom(f, |f|, GTP_EXTENDED_HEADER_LEN) == Stop(20) <==> |inner| >= 21)
      && (WalkFrom(f, |f|, GTP_EXTENDED_HEADER_LEN) == TooShort <==> |inner| == 20)
      && f[20] >= 0x80
  {
    var h, f := Header(teid, |inner|, pdcpSn, nrSn), Frame(teid, inner, pdcpSn, nrSn);
    assert f[11] == h[11] && f[12] == h[12] && f[19] == h[19] && f[20] == h[20];
  }

  // ---- Sequence numbers over any run of events on the downlink table ----

  datatype Event = Commit(ip: Quad, tunnel: Tunnel) | Delete(ip: Quad) | Packet(inner: seq<byte>)

  /** Where the handler finds the destination address of a packet. */
  function Destination(inner: seq<byte>): (ip: Quad)
    requires |inner| >= IPV4_HEADER_LEN
  {
    QuadAt(inner, 16)
  }

  predicate EventOk(e: Event) {
    match e
    case Commit(ip, _) => Slot(ip) < MAX_UES
    case Delete(ip) => Slot(ip) < MAX_UES
    case Packet(inner) => |inner| <= MAX_INNER
  }

  ghost predicate EventsOk(es: seq<Event>) {
    forall i | 0 <= i < |es| :: EventOk(es[i])
  }

  datatype Outcome = Short | SlotEmpty | OtherAddress | Panic | Send(frame: seq<byte>, rule: Downlink)

  /** What the pipeline does with an inner packet, apart from the table update. */
  function Handle(inner: seq<byte>, table: Table<Downlink>): (r: Outcome) {
    if |inner| < IPV4_HEADER_LEN then Short
    else match Lookup(table, Destination(inner))
      case OutOfRange => Panic
      case EmptySlot => SlotEmpty
      case OtherKey => OtherAddress
      case Hit(v) => Send(Frame(v.tunnel.teid, inner, v.pdcpSn, v.nrSn), v)
  }

  function TableStep(table: Table<Downlink>, inner: seq<byte>): (t: Table<Downlink>)
    ensures |t| == |table|
  {
    var r := Handle(inner, table);
    if r.Send? then Put(table, Destination(inner), Bump(r.rule)) else table
  }

  function OnEvent(table: Table<Downlink>, e: Event): (t: Table<Downlink>)
    requires |table| == MAX_UES && EventOk(e)
    ensures |t| == MAX_UES
  {
    match e
    case Commit(ip, tunnel) => Put(table, ip, Downlink(tunnel, 0, 0))
    case Delete(ip) => Clear(table, ip)
    case Packet(inner) => TableStep(table, inner)
  }

  ghost function TableAfter(es: seq<Event>): (t: Table<Downlink>)
    requires EventsOk(es)
    ensures |t| == MAX_UES
  {
    if es == [] then Empty() else OnEvent(TableAfter(es[..|es| - 1]), es[|es| - 1])
  }

  /** The destination address field of an IPv4 header, octets 16 to 19 (section 3.1 of RFC 791). */
  ghost predicate AddressedTo(inner: seq<byte>, ip: Quad) {
    |inner| >= 20 && inner[16] == ip.a && inner[17] == ip.b && inner[18] == ip.c && inner[19] == ip.d
  }

  /** Packets for ip that passed the lookup since a rule was last committed to its slot. */
  ghost function Passed(es: seq<Event>, ip: Quad): nat
    requires EventsOk(es)
  {
    if es == [] then 0 else
      var init, e := es[..|es| - 1], es[|es| - 1];
      match e
      case Commit(k, _) => if Slot(k) == Slot(ip) then 0 else Passed(init, ip)
      case Delete(_) => Passed(init, ip)
      case Packet(inner) =>
        Passed(init, ip)
        + if Handle(inner, TableAfter(init)).Send? && AddressedTo(inner, ip) then 1 else 0
  }

  /** A live rule's numbers are the count of packets passed since its commit, modulo their widths. */
  lemma {:induction false} RuleCounts(es: seq<Event>, ip: Quad)
    requires EventsOk(es)
    ensures var r := Lookup(TableAfter(es), ip);
      r.Hit? ==> r.value.pdcpSn == Passed(es, ip) % TWO_16 && r.value.nrSn == Passed(es, ip) % TWO_32
  {
    if es != [] {
      var init := es[..|es| - 1];
      RuleCounts(init, ip);
      WrapStep(Passed(init, ip), TWO_16);
      WrapStep(Passed(init, ip), TWO_32);
      RuleCountsStep(es, ip);
    }
  }

  lemma RuleCountsStep(es: seq<Event>, ip: Quad)
    requires EventsOk(es) && es != []
    requires var init := es[..|es| - 1];
      var r := Lookup(TableAfter(init), ip);
      && (r.Hit? ==> r.value.pdcpSn == Passed(init, ip) % TWO_16 && r.value.nrSn == Passed(init, ip) % TWO_32)
      && (Passed(init, ip) % TWO_16 + 1) % TWO_16 == (Passed(init, ip) + 1) % TWO_16
      && (Passed(init, ip) % TWO_32 + 1) % TWO_32 == (Passed(init, ip) + 1) % TWO_32
    ensures var r := Lookup(TableAfter(es), ip);
      r.Hit? ==> r.value.pdcpSn == Passed(es, ip) % TWO_16 && r.value.nrSn == Passed(es, ip) % TWO_32
  {
    var init, e := es[..|es| - 1], es[|es| - 1];
    var t, t' := TableAfter(init), TableAfter(es);
    assert t' == OnEvent(t, e) && EventOk(e);
    match e
    case Commit(k, tunnel) =>
    case Delete(k) =>
    case Packet(inner) =>
      if Handle(inner, t).Send? {
        var d := Destination(inner);
        assert t' == Put(t, d, Bump(Lookup(t, d).value));
      }
  }

  // ---- The reference: IPv4 packets as a sender writes them ----

  /** The first twelve octets of the header, the two addresses, and options and payload. */
  datatype Ipv4 = Ipv4(head: seq<byte>, src: Quad, dst: Quad, rest: seq<byte>)

  function Octets(p: Ipv4): (s: seq<byte>) {
    p.head + [p.src.a, p.src.b, p.src.c, p.src.d] + [p.dst.a, p.dst.b, p.dst.c, p.dst.d] + p.rest
  }

  lemma OctetsAt(p: Ipv4)
    requires |p.head| == 12
    ensures |Octets(p)| == 20 + |p.rest| && Destination(Octets(p)) == p.dst
    ensures forall ip :: AddressedTo(Octets(p), ip) <==> ip == p.dst
  {
    var s := Octets(p);
    assert s[16] == p.dst.a && s[17] == p.dst.b && s[18] == p.dst.c && s[19] == p.dst.d;
  }

  /** Every packet the handler does not call short is such a packet. */
  lemma PacketOf(inner: seq<byte>) returns (p: Ipv4)
    requires |inner| >= 20
    ensures |p.head| == 12 && Octets(p) == inner
  {
    p := Ipv4(inner[..12], Quad(inner[12], inner[13], inner[14], inner[15]), Quad(inner[16], inner[17], inner[18], inner[19]),
              inner[20..]);
  }

  /**
   A packet is sent iff a rule for its destination is live, and then by that rule; the other
   outcomes are those of a lookup of the destination.
   */
  lemma HandledByDestination(p: Ipv4, table: Table<Downlink>)
    requires SlotTable.Valid(table) && |p.head| == 12
    ensures var r := Handle(Octets(p), table);
      && (r.Send? <==> p.dst in View(table))
      && (r.Send? ==> r.rule == View(table)[p.dst]
                      && r.frame == Frame(r.rule.tunnel.teid, Octets(p), r.rule.pdcpSn, r.rule.nrSn))
      && (r.Panic? <==> p.dst.d >= 254)
      && (r.OtherAddress? <==> p.dst !in View(table) && exists ip :: ip in View(table) && ip.d == p.dst.d)
      && !r.Short?
  {
    OctetsAt(p);
    LookupIsMapLookup(table, p.dst);
  }

  /** It advances the numbers of that rule and changes no other rule. */
  lemma CountedByDestination(p: Ipv4, table: Table<Downlink>)
    requires SlotTable.Valid(table) && |p.head| == 12
    ensures var t, m := TableStep(table, Octets(p)), View(table);
      && SlotTable.Valid(t)
      && (p.dst !in m ==> t == table)
      && (p.dst in m ==>
            View(t) == m[p.dst := Downlink(m[p.dst].tunnel, (m[p.dst].pdcpSn + 1) % 65536, (m[p.dst].nrSn + 1) % 0x1_0000_0000)])
  {
    OctetsAt(p);
    LookupIsMapLookup(table, p.dst);
    ViewAt(table, p.dst);
    if p.dst in View(table) {
      OneKeyPerSlot(table, p.dst);
      OpRefinesMapIffNoClash(table, Add(p.dst, Bump(View(table)[p.dst])));
    }
  }

  /** Who sent the packet makes no difference to where it goes. */
  lemma SourceIrrelevant(p: Ipv4, src: Quad, table: Table<Downlink>)
    requires SlotTable.Valid(table) && |p.head| == 12
    ensures var q := p.(src := src); var r, r' := Handle(Octets(p), table), Handle(Octets(q), table);
      && TableStep(table, Octets(q)) == TableStep(table, Octets(p))
      && (r.Send? <==> r'.Send?) && (r.Send? ==> r'.rule == r.rule) && (!r.Send? ==> r' == r)
  {
    OctetsAt(p);
    OctetsAt(p.(src := src));
  }

  /**
   Continuity across every wrap, whatever other sessions do in between: the packet that is the
   k-th for its UE since the commit (k from zero) reaches the DU with PDCP number k modulo 2^12
   and NR-U number k modulo 2^24, on the tunnel of that rule, unchanged.
   */
  lemma SequenceContinuity(es: seq<Event>, p: Ipv4)
    requires EventsOk(es) && |p.head| == 12 && |Octets(p)| <= MAX_INNER && Handle(Octets(p), TableAfter(es)).Send?
    ensures var inner := Octets(p); var r, k := Handle(inner, TableAfter(es)), Passed(es, p.dst);
      Read(r.frame) == Some(Received(r.rule.tunnel.teid, k % TWO_24, k % TWO_12, inner))
  {
    OctetsAt(p);
    var inner := Octets(p);
    var r, k := Handle(inner, TableAfter(es)), Passed(es, p.dst);
    RuleCounts(es, p.dst);
    FrameRoundTrip(r.rule.tunnel.teid, inner, r.rule.pdcpSn, r.rule.nrSn);
    Low12(k);
    Low24(k);
  }

  // ---- The pipeline, in place ----

  const DL_RX_PKTS: nat := 0
  const DL_RX_BYTES: nat := 1
  const DL_DROP_TOO_SHORT: nat := 2
  const DL_DROP_UNKNOWN_IP_1: nat := 3
  const DL_DROP_UNKNOWN_IP_2: nat := 4
  const DL_NUM_COUNTERS: nat := 5

  function Tally(c: seq<nat>, n: nat, r: Outcome): (c': seq<nat>)
    requires |c| == DL_NUM_COUNTERS
    ensures |c'| == DL_NUM_COUNTERS
    ensures c'[0] == c[0] + 1 && c'[1] == c[1] + n
    ensures c'[2] == c[2] + (if r.Short? then 1 else 0)
    ensures c'[3] == c[3] + (if r.SlotEmpty? then 1 else 0)
    ensures c'[4] == c[4] + (if r.OtherAddress? then 1 else 0)
  {
    var c := c[DL_RX_PKTS := c[0] + 1][DL_RX_BYTES := c[1] + n];
    match r
    case Short => c[DL_DROP_TOO_SHORT := c[2] + 1]
    case SlotEmpty => c[DL_DROP_UNKNOWN_IP_1 := c[3] + 1]
    case OtherAddress => c[DL_DROP_UNKNOWN_IP_2 := c[4] + 1]
    case _ => c
  }

  method WriteHeader(buf: array<byte>, n: nat, v: Downlink)
    requires buf.Length == BUFFER_LEN && n <= MAX_INNER
    modifies buf
    ensures buf[..] == Header(v.tunnel.teid, n, v.pdcpSn, v.nrSn) + old(buf[DOWNLINK_INNER_PACKET_OFFSET..])
  {
    ghost var tail := buf[DOWNLINK_INNER_PACKET_OFFSET..];
    WriteGtpHeader(buf, n + DOWNLINK_INNER_PACKET_OFFSET - GTP_BASE_HEADER_LEN, v.tunnel.teid);
    ghost var gtp := buf[..GTP_EXTENDED_HEADER_LEN];
    assert buf[DOWNLINK_INNER_PACKET_OFFSET..] == tail;
    WriteExtension(buf, v.nrSn, v.pdcpSn);
    ghost var h := Header(v.tunnel.teid, n, v.pdcpSn, v.nrSn);
    assert h == gtp + h[GTP_EXTENDED_HEADER_LEN..];
  }

  /** With the headers in place the packet is a frame. */
  method WriteFrame(buf: array<byte>, n: nat, v: Downlink)
    requires buf.Length == BUFFER_LEN && n <= MAX_INNER
    modifies buf
    ensures buf[..DOWNLINK_INNER_PACKET_OFFSET + n]
         == Frame(v.tunnel.teid, old(buf[DOWNLINK_INNER_PACKET_OFFSET..DOWNLINK_INNER_PACKET_OFFSET + n]), v.pdcpSn, v.nrSn)
  {
    ghost var tail := buf[DOWNLINK_INNER_PACKET_OFFSET..];
    assert tail[..n] == buf[DOWNLINK_INNER_PACKET_OFFSET..DOWNLINK_INNER_PACKET_OFFSET + n];
    WriteHeader(buf, n, v);
    ghost var h := Header(v.tunnel.teid, n, v.pdcpSn, v.nrSn);
    TakeJoined(h, tail, n);
    assert buf[..DOWNLINK_INNER_PACKET_OFFSET + n] == buf[..][..DOWNLINK_INNER_PACKET_OFFSET + n];
  }

  lemma TakeJoined(h: seq<byte>, tail: seq<byte>, n: nat)
    requires n <= |tail|
    ensures (h + tail)[..|h| + n] == h + tail[..n]
  {
  }

  method WriteGtpHeader(buf: array<byte>, length: nat, teid: Quad)
    requires buf.Length == BUFFER_LEN
    modifies buf
    ensures buf[..] == [0x34, GTP_MESSAGE_TYPE_GPDU, length / 256 % 256, length % 256, teid.a, teid.b, teid.c, teid.d,
                        0, 0, 0, NR_RAN_CONTAINER] + old(buf[GTP_EXTENDED_HEADER_LEN..])
  {
    buf[0], buf[1], buf[2], buf[3] := 0x34, GTP_MESSAGE_TYPE_GPDU, length / 256 % 256, length % 256;
    buf[4], buf[5], buf[6], buf[7] := teid.a, teid.b, teid.c, teid.d;
    buf[8], buf[9], buf[10], buf[11] := 0, 0, 0, NR_RAN_CONTAINER;
    assert buf[GTP_EXTENDED_HEADER_LEN..] == old(buf[GTP_EXTENDED_HEADER_LEN..]);
    assert buf[..] == buf[..GTP_EXTENDED_HEADER_LEN] + buf[GTP_EXTENDED_HEADER_LEN..];
  }

  /** NR RAN container with downlink user data, and the PDCP header. */
  method WriteExtension(buf: array<byte>, nrSn: nat, pdcpSn: nat)
    requires buf.Length == BUFFER_LEN
    modifies buf
    ensures buf[..] == old(buf[..GTP_EXTENDED_HEADER_LEN])
                     + [2, 0, 0, nrSn / 0x1_0000 % 256, nrSn / 256 % 256, nrSn % 256, 0, 0, 0x80 + pdcpSn / 256 % 16, pdcpSn % 256]
                     + old(buf[DOWNLINK_INNER_PACKET_OFFSET..])
  {
    buf[12], buf[13], buf[14] := (GTP_EXT_HEADER_LEN_NRUP_DL_USER_DATA / 4) as byte, 0, 0;
    buf[15], buf[16], buf[17] := nrSn / 0x1_0000 % 256, nrSn / 256 % 256, nrSn % 256;
    buf[18], buf[19] := 0, 0;
    buf[20], buf[21] := 0x80 + pdcpSn / 256 % 16, pdcpSn % 256;
    assert buf[..GTP_EXTENDED_HEADER_LEN] == old(buf[..GTP_EXTENDED_HEADER_LEN]);
    assert buf[DOWNLINK_INNER_PACKET_OFFSET..] == old(buf[DOWNLINK_INNER_PACKET_OFFSET..]);
    assert buf[..] == buf[..GTP_EXTENDED_HEADER_LEN] + buf[GTP_EXTENDED_HEADER_LEN..DOWNLINK_INNER_PACKET_OFFSET]
                      + buf[DOWNLINK_INNER_PACKET_OFFSET..];
  }

  class DownlinkPipeline {
    const table: ForwardingTable<Downlink>
    const counters: array<nat>

    ghost predicate Valid()
      reads table.slots, counters
    {
      table.WellFormed() && counters.Length == DL_NUM_COUNTERS
    }

    constructor (table: ForwardingTable<Downlink>)
      requires table.WellFormed()
      ensures Valid() && this.table == table && fresh(counters)
    {
      this.table := table;
      counters := new nat[DL_NUM_COUNTERS](_ => 0);
    }

    /** Lookup and counter update in the critical section. */
    method TakeNumbers(ip: Quad) returns (found: Found<Downlink>)
      requires Valid()
      modifies table.slots
      ensures Valid() && found == Lookup(old(table.slots[..]), ip)
      ensures table.slots[..] == if found.Hit? then Put(old(table.slots[..]), ip, Bump(found.value)) else old(table.slots[..])
    {
      LookupIsMapLookup(table.slots[..], ip);
      found := table.Find(ip);
      if found.Hit? {
        table.AddRule(ip, Bump(found.value));
      }
    }

    /**
     An inner packet of n octets has been read behind the space for the headers. The
     pipeline ends with a tunnel address of neither IP version, after the numbers were taken.
     */
    method HandleNext(buf: array<byte>, n: nat) returns (r: Outcome, goesOn: bool)
      requires Valid() && buf.Length == 2000 && n <= 1978
      modifies buf, table.slots, counters
      ensures Valid()
      ensures var inner := old(buf[DOWNLINK_INNER_PACKET_OFFSET..DOWNLINK_INNER_PACKET_OFFSET + n]);
        && r == Handle(inner, old(table.slots[..]))
        && table.slots[..] == TableStep(old(table.slots[..]), inner)
        && counters[..] == Tally(old(counters[..]), n, r)
        && (r.Send? ==> buf[..DOWNLINK_INNER_PACKET_OFFSET + n] == r.frame)
      ensures goesOn <==> !r.Panic? && (r.Send? ==> |r.rule.tunnel.address| == 4 || |r.rule.tunnel.address| == 16)
    {
      goesOn := true;
      ghost var inner := buf[DOWNLINK_INNER_PACKET_OFFSET..DOWNLINK_INNER_PACKET_OFFSET + n];
      counters[DL_RX_PKTS] := counters[DL_RX_PKTS] + 1;
      counters[DL_RX_BYTES] := counters[DL_RX_BYTES] + n;
      if n < IPV4_HEADER_LEN {
        counters[DL_DROP_TOO_SHORT] := counters[DL_DROP_TOO_SHORT] + 1;
        return Short, true;
      }
      var o := DOWNLINK_INNER_PACKET_OFFSET + 16;
      var ip := Quad(buf[o], buf[o + 1], buf[o + 2], buf[o + 3]);
      assert ip == Destination(inner);
      var found := TakeNumbers(ip);
      match found
      case OutOfRange => r, goesOn := Panic, false;
      case EmptySlot =>
        counters[DL_DROP_UNKNOWN_IP_1] := counters[DL_DROP_UNKNOWN_IP_1] + 1;
        r := SlotEmpty;
      case OtherKey =>
        counters[DL_DROP_UNKNOWN_IP_2] := counters[DL_DROP_UNKNOWN_IP_2] + 1;
        r := OtherAddress;
      case Hit(v) =>
        WriteFrame(buf, n, v);
        r, goesOn := Send(buf[..DOWNLINK_INNER_PACKET_OFFSET + n], v),
          |v.tunnel.address| == 4 || |v.tunnel.address| == 16;
    }
  }
}
