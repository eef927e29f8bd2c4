/** The uplink pipeline: GTP-U datagrams from the DU become inner IP packets, or are dropped. */
module Uplink {
  import opened Bytes
  import opened SlotTable
  import opened Gtpu

  datatype DropReason =
    | ShortPacket | NotGpdu | ShortExtension | PdcpControl | SdapControl | NotIpv4 | TeidSlotEmpty | TeidDiffers

  /** Panic is the index panic of a TEID beyond the table, Hang the endless header walk. */
  datatype Outcome = Drop(reason: DropReason) | Forward(inner: seq<byte>) | Panic | Hang

  /** Where the GTP header of the first n octets of b ends. */
  function HeaderEnd(b: seq<byte>, n: nat): (r: Walk)
    requires GTP_BASE_HEADER_LEN + REST <= n <= |b|
  {
    if b[0] == 0x30 then Stop(GTP_BASE_HEADER_LEN) else WalkFrom(b, n, GTP_EXTENDED_HEADER_LEN)
  }

  /** The decisions after the header walk, on the PDCP header at offset o. */
  function AfterHeader(b: seq<byte>, n: nat, o: nat, table: Table<()>): (r: Outcome)
    requires GTP_BASE_HEADER_LEN <= o && o + 4 <= n <= |b|
  {
    if b[o] < 0x80 then Drop(PdcpControl)
    else if b[o + 2] < 0x80 then Drop(SdapControl)
    else if b[o + 3] / 16 != 4 then Drop(NotIpv4)
    else match Lookup(table, QuadAt(b, 4))
      case OutOfRange => Panic
      case EmptySlot => Drop(TeidSlotEmpty)
      case OtherKey => Drop(TeidDiffers)
      case Hit(_) => Forward(b[o + 3..n])
  }

  function Handle(b: seq<byte>, n: nat, table: Table<()>): (r: Outcome)
    requires n <= |b|
  {
    if n < GTP_BASE_HEADER_LEN + REST then Drop(ShortPacket)
    else if b[1] != GTP_MESSAGE_TYPE_GPDU then Drop(NotGpdu)
    else match HeaderEnd(b, n)
      case TooShort => Drop(ShortExtension)
      case Endless => Hang
      case Stop(o) => AfterHeader(b, n, o, table)
  }

  /** The handler's verdict depends on the received octets alone, not on what the buffer held before. */
  lemma StaleBufferIrrelevant(b1: seq<byte>, b2: seq<byte>, n: nat, table: Table<()>)
    requires n <= |b1| && n <= |b2| && b1[..n] == b2[..n]
    ensures Handle(b1, n, table) == Handle(b2, n, table)
  {
    assert forall i | 0 <= i < n :: b1[i] == b1[..n][i] == b2[i];
    if n >= GTP_BASE_HEADER_LEN + REST {
      WalkReadsReceivedOnly(b1, b2, n, GTP_EXTENDED_HEADER_LEN);
      match HeaderEnd(b1, n)
      case Stop(o) =>
        assert b1[o + 3..n] == b1[..n][o + 3..] == b2[o + 3..n];
      case _ =>
    }
  }

  // ---- The reference: user data frames as a sender writes them ----

  /** Sequence and N-PDU number octets of an extended header, and its extension headers. */
  datatype Options = Options(numbers: seq<byte>, exts: seq<Ext>)

  datatype Frame = Frame(head: seq<byte>, options: Option<Options>, pdcp: seq<byte>, sdap: byte, inner: seq<byte>)

  /** The fields have their sizes and the header form matches; their values are free. */
  ghost predicate WellFormed(f: Frame) {
    && |f.head| == GTP_BASE_HEADER_LEN && f.head[1] == GTP_MESSAGE_TYPE_GPDU
    && (f.head[0] == 0x30 <==> f.options.None?)
    && (f.options.Some? ==> |f.options.value.numbers| == 3 && ValidExts(f.options.value.exts))
    && |f.pdcp| == 2 && |f.inner| >= 1
  }

  /** Data PDUs in PDCP and SDAP, and an IPv4 packet inside. */
  ghost predicate CarriesIpv4(f: Frame)
    requires WellFormed(f)
  {
    f.pdcp[0] >= 0x80 && f.sdap >= 0x80 && f.inner[0] / 16 == 4
  }

  ghost function OptionBytes(f: Frame): seq<byte>
    requires WellFormed(f)
  {
    if f.options.None? then []
    else f.options.value.numbers + [FirstKind(f.options.value.exts)] + Serialize(f.options.value.exts)
  }

  ghost function Encode(f: Frame): seq<byte>
    requires WellFormed(f)
  {
    f.head + OptionBytes(f) + f.pdcp + [f.sdap] + f.inner
  }

  /** The frame is as long as the length tests ask for. */
  ghost predicate LongEnough(f: Frame)
    requires WellFormed(f)
  {
    && |Encode(f)| >= GTP_BASE_HEADER_LEN + REST
    && (f.options.Some? && f.options.value.exts != [] ==> |f.inner| >= IPV4_HEADER_LEN)
  }

  ghost predicate Acceptable(f: Frame, table: Table<()>) {
    SlotTable.Valid(table) && WellFormed(f) && LongEnough(f) && CarriesIpv4(f) && QuadAt(f.head, 4) in View(table)
  }

  lemma FrameParts(f: Frame)
    requires WellFormed(f)
    ensures var d, o := Encode(f), GTP_BASE_HEADER_LEN + |OptionBytes(f)|;
      && |d| == o + 3 + |f.inner|
      && d[..GTP_BASE_HEADER_LEN] == f.head && QuadAt(d, 4) == QuadAt(f.head, 4)
      && d[GTP_BASE_HEADER_LEN..o] == OptionBytes(f)
      && d[o] == f.pdcp[0] && d[o + 2] == f.sdap && d[o + 3..] == f.inner
  {
  }

  lemma FrameHeaderEnd(f: Frame)
    requires WellFormed(f) && LongEnough(f)
    ensures HeaderEnd(Encode(f), |Encode(f)|) == Stop(GTP_BASE_HEADER_LEN + |OptionBytes(f)|)
  {
    FrameParts(f);
    var d := Encode(f);
    assert d[0] == d[..GTP_BASE_HEADER_LEN][0];
    if f.options.Some? {
      var exts := f.options.value.exts;
      var w := d[GTP_BASE_HEADER_LEN..GTP_BASE_HEADER_LEN + |OptionBytes(f)|];
      var s := Serialize(exts);
      assert w[3] == FirstKind(exts) && w[4..] == s;
      assert d[GTP_EXTENDED_HEADER_LEN..GTP_EXTENDED_HEADER_LEN + |s|] == w[4..];
      assert ChainAt(d, GTP_EXTENDED_HEADER_LEN, exts);
      WalkSkipsChain(d, |d|, GTP_EXTENDED_HEADER_LEN, exts);
    }
  }

  /** What should happen to a frame, from its fields and the map of live TEIDs. */
  ghost function Verdict(f: Frame, live: set<Quad>): Outcome
    requires WellFormed(f)
  {
    var teid := QuadAt(f.head, 4);
    if f.pdcp[0] < 0x80 then Drop(PdcpControl)
    else if f.sdap < 0x80 then Drop(SdapControl)
    else if f.inner[0] / 16 != 4 then Drop(NotIpv4)
    else if teid.d >= 254 then Panic
    else if teid in live then Forward(f.inner)
    else if exists k :: k in live && k.d == teid.d then Drop(TeidDiffers)
    else Drop(TeidSlotEmpty)
  }

  /** Any frame a sender can write, with any chain of extension headers, gets just that. */
  lemma FrameVerdict(f: Frame, table: Table<()>)
    requires SlotTable.Valid(table) && WellFormed(f) && LongEnough(f)
    ensures Handle(Encode(f), |Encode(f)|, table) == Verdict(f, View(table).Keys)
  {
    FrameParts(f);
    FrameHeaderEnd(f);
    var d, o := Encode(f), GTP_BASE_HEADER_LEN + |OptionBytes(f)|;
    assert d[1] == d[..GTP_BASE_HEADER_LEN][1];
    assert d[o + 3..|d|] == f.inner && d[o + 3] == f.inner[0];
    LookupIsMapLookup(table, QuadAt(f.head, 4));
  }

  lemma Reassemble(d: seq<byte>, o: nat)
    requires GTP_BASE_HEADER_LEN <= o && o + 3 <= |d|
    ensures d == d[..GTP_BASE_HEADER_LEN] + d[GTP_BASE_HEADER_LEN..o] + d[o..o + 2] + [d[o + 2]] + d[o + 3..]
    ensures QuadAt(d[..GTP_BASE_HEADER_LEN], 4) == QuadAt(d, 4)
    ensures d[o + 3..|d|] == d[o + 3..]
  {
  }

  /** The options of the header that ends at o. */
  lemma OptionsOf(d: seq<byte>) returns (options: Option<Options>)
    requires |d| >= GTP_BASE_HEADER_LEN + REST && HeaderEnd(d, |d|).Stop?
    ensures d[0] == 0x30 <==> options.None?
    ensures options.None? ==> HeaderEnd(d, |d|).offset == GTP_BASE_HEADER_LEN
    ensures options.Some? ==>
      && |options.value.numbers| == 3 && ValidExts(options.value.exts)
      && (options.value.exts != [] ==> HeaderEnd(d, |d|).offset + REST <= |d|)
      && d[GTP_BASE_HEADER_LEN..HeaderEnd(d, |d|).offset]
         == options.value.numbers + [FirstKind(options.value.exts)] + Serialize(options.value.exts)
  {
    if d[0] == 0x30 {
      options := None;
    } else {
      var o := HeaderEnd(d, |d|).offset;
      var exts := WalkedIsChain(d, |d|, GTP_EXTENDED_HEADER_LEN);
      options := Some(Options(d[8..11], exts));
      assert d[GTP_BASE_HEADER_LEN..o] == d[8..11] + [d[11]] + d[GTP_EXTENDED_HEADER_LEN..o];
    }
  }

  /** The frame a forwarded datagram is. */
  lemma ForwardedIsFrame(d: seq<byte>, table: Table<()>) returns (f: Frame)
    requires SlotTable.Valid(table) && Handle(d, |d|, table).Forward?
    ensures Acceptable(f, table) && Encode(f) == d && f.inner == Handle(d, |d|, table).inner
  {
    var o := HeaderEnd(d, |d|).offset;
    var options := OptionsOf(d);
    f := Frame(d[..GTP_BASE_HEADER_LEN], options, d[o..o + 2], d[o + 2], d[o + 3..]);
    assert WellFormed(f);
    assert OptionBytes(f) == d[GTP_BASE_HEADER_LEN..o];
    Reassemble(d, o);
    LookupIsMapLookup(table, QuadAt(d, 4));
  }

  /**
   A datagram is forwarded, with inner packet p, iff it is a user data frame with data PDUs in
   PDCP and SDAP, any chain of extension headers, an IPv4 packet p inside, and a TEID on file.
   */
  lemma ForwardedIffAcceptable(b: seq<byte>, n: nat, table: Table<()>, p: seq<byte>)
    requires SlotTable.Valid(table) && n <= |b|
    ensures Handle(b, n, table) == Forward(p) <==> exists f :: Acceptable(f, table) && Encode(f) == b[..n] && f.inner == p
  {
    StaleBufferIrrelevant(b, b[..n], n, table);
    if Handle(b, n, table) == Forward(p) {
      var f := ForwardedIsFrame(b[..n], table);
    }
    forall f | Acceptable(f, table) && Encode(f) == b[..n] && f.inner == p ensures Handle(b, n, table) == Forward(p) {
      FrameVerdict(f, table);
    }
  }

  /** An extended header without extensions is not checked for room, and lets shorter packets through. */
  ghost predicate Unchecked(b: seq<byte>, n: nat)
    requires GTP_BASE_HEADER_LEN + REST <= n <= |b|
  {
    b[0] != 0x30 && b[11] == 0 && n < GTP_EXTENDED_HEADER_LEN + REST
  }

  /** A forwarded packet holds a whole IPv4 header except in just that case, and then sixteen octets. */
  lemma InnerPacketLength(b: seq<byte>, n: nat, table: Table<()>)
    requires n <= |b| && Handle(b, n, table).Forward?
    ensures |Handle(b, n, table).inner| >= 16
    ensures |Handle(b, n, table).inner| >= IPV4_HEADER_LEN <==> !Unchecked(b, n)
  {
  }

  /** A packet of nineteen octets does get through. */
  lemma ShortInnerPacketForwarded(table: Table<()>)
    requires SlotTable.Valid(table) && Quad(0, 0, 0, 1) in View(table)
    ensures exists b: seq<byte>, p: seq<byte> :: Handle(b, |b|, table) == Forward(p) && |p| == 19
  {
    LookupIsMapLookup(table, Quad(0, 0, 0, 1));
    var p: seq<byte> := [0x45] + seq(18, _ => 0);
    var b: seq<byte> := [0x34, 255, 0, 0, 0, 0, 0, 1, 0, 0, 0, 0, 0x80, 0, 0x80] + p;
    assert QuadAt(b, 4) == Quad(0, 0, 0, 1);
    assert WalkFrom(b, |b|, 12) == Stop(12);
    assert b[15..|b|] == p;
    assert Handle(b, |b|, table) == Forward(p);
  }

  // ---- The drops before and in the header walk ----

  /** Which datagrams are too short, are no user data, or run short in their extension headers. */
  lemma EarlyDropsExact(b: seq<byte>, n: nat, table: Table<()>)
    requires n <= |b|
    ensures Handle(b, n, table) == Drop(ShortPacket) <==> n < 31
    ensures Handle(b, n, table) == Drop(NotGpdu) <==> n >= 31 && b[1] != 255
    ensures Handle(b, n, table) == Drop(ShortExtension)
       <==> && n >= 31 && b[1] == 255 && b[0] != 0x30
            && exists k: nat, o: nat :: Turns(b, n, At(12), k) == At(o) && OverrunAt(b, n, o)
  {
    if n >= 31 {
      TooShortIffOverrun(b, n, 12);
    }
  }

  // ---- Termination ----

  /** The handler does not return exactly on user data frames whose walk visits a zero length octet with room behind it. */
  lemma HangIffZeroLength(b: seq<byte>, n: nat, table: Table<()>)
    requires n <= |b|
    ensures Handle(b, n, table).Hang?
       <==> && GTP_BASE_HEADER_LEN + REST <= n && b[0] != 0x30 && b[1] == GTP_MESSAGE_TYPE_GPDU
            && exists k: nat, o: nat :: Turns(b, n, At(GTP_EXTENDED_HEADER_LEN), k) == At(o) && ZeroLengthAt(b, n, o)
  {
    if GTP_BASE_HEADER_LEN + REST <= n {
      EndlessIffZeroLength(b, n, GTP_EXTENDED_HEADER_LEN);
    }
  }

  /** There are such datagrams: a PDU session container of zero length, whatever TEIDs are live. */
  lemma ZeroLengthHangs(table: Table<()>)
    ensures var d: seq<byte> := [0x34, 255, 0, 0, 0, 0, 0, 1, 0, 0, 0, 0x85] + seq(23, _ => 0);
      Handle(d, |d|, table) == Hang && forall k: nat :: Turns(d, |d|, At(GTP_EXTENDED_HEADER_LEN), k).At?
  {
    var d: seq<byte> := [0x34, 255, 0, 0, 0, 0, 0, 1, 0, 0, 0, 0x85] + seq(23, _ => 0);
    assert d[11] == 0x85 && d[12] == 0;
    forall k: nat ensures Turns(d, |d|, At(GTP_EXTENDED_HEADER_LEN), k).At? {
      EndlessNeverLeaves(d, |d|, GTP_EXTENDED_HEADER_LEN, k);
    }
  }

  // ---- Counters ----

  const UL_RX_PKTS: nat := 0
  const UL_RX_BYTES: nat := 1
  const UL_NUM_COUNTERS: nat := 10

  function CounterOf(r: DropReason): (i: nat)
    ensures 2 <= i < UL_NUM_COUNTERS
  {
    match r
    case ShortPacket => 2
    case NotGpdu => 3
    case ShortExtension => 4
    case PdcpControl => 5
    case SdapControl => 6
    case NotIpv4 => 7
    case TeidSlotEmpty => 8
    case TeidDiffers => 9
  }

  function Tally(c: seq<nat>, n: nat, r: Outcome): (c': seq<nat>)
    requires |c| == UL_NUM_COUNTERS
    ensures |c'| == UL_NUM_COUNTERS
  {
    var c := c[UL_RX_PKTS := c[UL_RX_PKTS] + 1][UL_RX_BYTES := c[UL_RX_BYTES] + n];
    if r.Drop? then c[CounterOf(r.reason) := c[CounterOf(r.reason)] + 1] else c
  }

  /** One received datagram: its length and what became of it. */
  type Handled = (nat, Outcome)

  function TallyAll(hs: seq<Handled>): (c: seq<nat>)
    ensures |c| == UL_NUM_COUNTERS
  {
    if hs == [] then seq(UL_NUM_COUNTERS, _ => 0)
    else Tally(TallyAll(hs[..|hs| - 1]), hs[|hs| - 1].0, hs[|hs| - 1].1)
  }

  ghost function Kept(hs: seq<Handled>): nat {
    if hs == [] then 0 else Kept(hs[..|hs| - 1]) + if hs[|hs| - 1].1.Drop? then 0 else 1
  }

  ghost function DropTotal(c: seq<nat>): nat
    requires |c| == UL_NUM_COUNTERS
  {
    c[2] + c[3] + c[4] + c[5] + c[6] + c[7] + c[8] + c[9]
  }

  /** Every packet is counted once: received equals dropped for some reason plus not dropped. */
  lemma {:induction false} PacketsConserved(hs: seq<Handled>)
    ensures TallyAll(hs)[UL_RX_PKTS] == |hs|
    ensures TallyAll(hs)[UL_RX_PKTS] == DropTotal(TallyAll(hs)) + Kept(hs)
  {
    if hs != [] {
      PacketsConserved(hs[..|hs| - 1]);
    }
  }

  /** And the octets received are the sum of their lengths. */
  lemma {:induction false} OctetsCounted(hs: seq<Handled>)
    ensures TallyAll(hs)[UL_RX_BYTES] == TotalLength(hs)
  {
    if hs != [] {
      OctetsCounted(hs[..|hs| - 1]);
    }
  }

  ghost function TotalLength(hs: seq<Handled>): nat {
    if hs == [] then 0 else TotalLength(hs[..|hs| - 1]) + hs[|hs| - 1].0
  }

  ghost function Dropped(hs: seq<Handled>, r: DropReason): nat {
    if hs == [] then 0 else Dropped(hs[..|hs| - 1], r) + if hs[|hs| - 1].1 == Drop(r) then 1 else 0
  }

  /** And each counter, by its number, is the number of packets dropped for its own reason. */
  lemma {:induction false} CounterIsReason(hs: seq<Handled>, r: DropReason)
    ensures var i := match r
        case ShortPacket => 2 case NotGpdu => 3 case ShortExtension => 4 case PdcpControl => 5
        case SdapControl => 6 case NotIpv4 => 7 case TeidSlotEmpty => 8 case TeidDiffers => 9;
      TallyAll(hs)[i] == Dropped(hs, r)
  {
    if hs != [] {
      CounterIsReason(hs[..|hs| - 1], r);
      var x := hs[|hs| - 1].1;
      if x.Drop? {
        assert CounterOf(x.reason) == CounterOf(r) <==> x.reason == r;
      }
    }
  }

  class UplinkPipeline {
    const table: ForwardingTable<()>
    const counters: array<nat>

    ghost predicate Valid()
      reads table.slots, counters
    {
      table.WellFormed() && counters.Length == UL_NUM_COUNTERS
    }

    constructor (table: ForwardingTable<()>)
      requires table.WellFormed()
      ensures Valid() && this.table == table && fresh(counters) && counters[..] == TallyAll([])
    {
      this.table := table;
      counters := new nat[UL_NUM_COUNTERS](_ => 0);
    }

    /**
     The header walk over the first n octets of the buffer. A turn that leaves the offset where it
     was is repeated for ever; here it ends the method with the answer Endless.
     */
    method SkipHeader(buf: array<byte>, n: nat) returns (r: Walk)
      requires GTP_BASE_HEADER_LEN + REST <= n <= buf.Length
      ensures r == HeaderEnd(buf[..], n)
    {
      if buf[0] == 0x30 {
        return Stop(GTP_BASE_HEADER_LEN);
      }
      var offset := GTP_EXTENDED_HEADER_LEN;
      while buf[offset - 1] != 0
        invariant 1 <= offset < n
        invariant WalkFrom(buf[..], n, offset) == HeaderEnd(buf[..], n)
        decreases n - offset
      {
        var before := offset;
        offset := offset + buf[offset] as int * 4;
        if n < offset + REST {
          return TooShort;
        }
        if offset == before {
          return Endless;
        }
      }
      r := Stop(offset);
    }

    /** One datagram of n octets in the reused buffer. The answer Hang stands for a call that does not return. */
    method HandleNext(buf: array<byte>, n: nat) returns (r: Outcome)
      requires Valid() && buf.Length == 2000 && n <= 2000
      modifies counters
      ensures Valid() && r == Handle(buf[..], n, old(table.slots[..]))
      ensures counters[..] == Tally(old(counters[..]), n, r)
    {
      counters[UL_RX_PKTS] := counters[UL_RX_PKTS] + 1;
      counters[UL_RX_BYTES] := counters[UL_RX_BYTES] + n;
      r := Classify(buf, n);
      if r.Drop? {
        counters[CounterOf(r.reason)] := counters[CounterOf(r.reason)] + 1;
      }
    }

    method Classify(buf: array<byte>, n: nat) returns (r: Outcome)
      requires Valid() && n <= buf.Length
      ensures r == Handle(buf[..], n, table.slots[..])
    {
      if n < GTP_BASE_HEADER_LEN + REST {
        return Drop(ShortPacket);
      }
      if buf[1] != GTP_MESSAGE_TYPE_GPDU {
        return Drop(NotGpdu);
      }
      var end := SkipHeader(buf, n);
      if end.TooShort? {
        return Drop(ShortExtension);
      }
      if end.Endless? {
        return Hang;
      }
      var o := end.offset;
      if buf[o] < 0x80 {
        return Drop(PdcpControl);
      }
      if buf[o + 2] < 0x80 {
        return Drop(SdapControl);
      }
      if buf[o + 3] / 16 != 4 {
        return Drop(NotIpv4);
      }
      var teid := Quad(buf[4], buf[5], buf[6], buf[7]);
      LookupIsMapLookup(table.slots[..], teid);
      var found := table.Find(teid);
      match found
      case OutOfRange => r := Panic;
      case EmptySlot => r := Drop(TeidSlotEmpty);
      case OtherKey => r := Drop(TeidDiffers);
      case Hit(_) =>
        assert buf[o + 3..n] == buf[..][o + 3..n];
        r := Forward(buf[o + 3..n]);
    }
  }
}
