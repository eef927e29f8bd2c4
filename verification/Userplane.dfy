/**
 User plane sessions. A session takes a slot number from the pool, which names the last octet of
 its TEID and of its UE address; its uplink rule is installed when it is reserved, its downlink
 rule when it is committed, and both go when it is deleted. Slot numbers never return to the pool.
 */
module Userplane {
  import opened Bytes
  import opened SlotTable

  datatype Session = Session(teid: Quad, ip: Quad)

  /** The DU end of a bearer: transport address and TEID. */
  datatype Tunnel = Tunnel(address: seq<byte>, teid: Quad)

  /** What a downlink rule carries besides its key, the UE address. */
  datatype Downlink = Downlink(tunnel: Tunnel, pdcpSn: nat, nrSn: nat)

  /** The sequence numbers after one packet: 16 and 32 bits wide, wrapping. */
  function Bump(v: Downlink): (r: Downlink) {
    v.(pdcpSn := (v.pdcpSn + 1) % TWO_16, nrSn := (v.nrSn + 1) % TWO_32)
  }

  /** The address is the one with this host number in the /24 subnet. */
  ghost predicate InSubnet(subnet: Quad, slot: nat, ip: Quad) {
    ip.a == subnet.a && ip.b == subnet.b && ip.c == subnet.c && ip.d == slot
  }

  /** The session of a slot: random upper TEID octets, the slot number in both last octets. */
  function MakeSession(subnet: Quad, slot: nat, top: (byte, byte, byte)): (s: Session)
    requires slot < MAX_UES
    ensures Slot(s.teid) == slot && Slot(s.ip) == slot && InSubnet(subnet, slot, s.ip)
    ensures s.teid.a == top.0 && s.teid.b == top.1 && s.teid.c == top.2 && s.teid.d == slot
  {
    Session(Quad(top.0, top.1, top.2, slot), subnet.(d := slot))
  }

  class PacketProcessor {
    var pool: set<nat>
    const uplink: ForwardingTable<()>
    const downlink: ForwardingTable<Downlink>
    const subnet: Quad
    ghost var issued: map<nat, Session>  // every session ever handed out, by slot

    ghost predicate Valid()
      reads this, uplink.slots, downlink.slots
    {
      && uplink.WellFormed() && downlink.WellFormed()
      && 0 in pool && 0 !in issued && issued.Keys <= pool
      && (forall i | i in issued :: i < MAX_UES && Slot(issued[i].teid) == i && InSubnet(subnet, i, issued[i].ip))
      && (forall i | 0 <= i < MAX_UES && uplink.slots[i].Some? :: i in issued && uplink.slots[i].value.key == issued[i].teid)
      && (forall i | 0 <= i < MAX_UES && downlink.slots[i].Some? :: i in issued && downlink.slots[i].value.key == issued[i].ip)
    }

    ghost predicate Issued(s: Session)
      reads this
    {
      Slot(s.teid) in issued && issued[Slot(s.teid)] == s
    }

    ghost function Uplinks(): set<Quad>
      reads this, uplink.slots, downlink.slots
      requires Valid()
    {
      View(uplink.slots[..]).Keys
    }

    ghost function Downlinks(): map<Quad, Downlink>
      reads this, uplink.slots, downlink.slots
      requires Valid()
    {
      View(downlink.slots[..])
    }

    /** Slot 0 is taken from the start. */
    constructor (subnet: Quad)
      ensures Valid() && fresh(uplink.slots) && fresh(downlink.slots)
      ensures pool == {0} && Uplinks() == {} && Downlinks() == map[]
      ensures this.subnet == subnet && issued == map[]
    {
      pool := {0};
      uplink := new ForwardingTable<()>();
      downlink := new ForwardingTable<Downlink>();
      this.subnet := subnet;
      issued := map[];
    }

    /**
     Reserve with the slot number the pool answers and three random octets. A number beyond the
     table fails, and stays taken.
     */
    method Reserve(id: nat, top: (byte, byte, byte)) returns (r: Option<Session>)
      requires Valid() && id !in pool
      modifies this`pool, this`issued, uplink.slots
      ensures Valid() && pool == old(pool) + {id}
      ensures r.Some? <==> id < MAX_UES
      ensures r.Some? ==> Issued(r.value) && id !in old(issued)
      ensures r.Some? ==> InSubnet(subnet, id, r.value.ip) && r.value.teid.d == id
      ensures r.Some? ==> r.value.teid.a == top.0 && r.value.teid.b == top.1 && r.value.teid.c == top.2
      ensures issued == if r.Some? then old(issued)[id := r.value] else old(issued)
      ensures r.Some? ==> r.value.teid !in old(Uplinks())
      ensures Uplinks() == old(Uplinks()) + (if r.Some? then {r.value.teid} else {})
      ensures Downlinks() == old(Downlinks())
    {
      pool := pool + {id};
      if id >= MAX_UES {
        return None;
      }
      var s := MakeSession(subnet, id, top);
      issued := issued[id := s];
      assert uplink.slots[id].None?;
      assert !Clash(View(uplink.slots[..]), s.teid) && s.teid !in View(uplink.slots[..]) by {
        NoKeyInEmptySlot(uplink.slots[..], id);
      }
      OpRefinesMapIffNoClash(uplink.slots[..], Add(s.teid, ()));
      uplink.AddRule(s.teid, ());
      r := Some(s);
    }

    /** Install the downlink rule, with both sequence numbers at zero. */
    method Commit(s: Session, tunnel: Tunnel)
      requires Valid() && Issued(s)
      modifies downlink.slots
      ensures Valid()
      ensures Downlinks() == old(Downlinks())[s.ip := Downlink(tunnel, 0, 0)]
      ensures Uplinks() == old(Uplinks())
    {
      OneKeyPerSlot(downlink.slots[..], s.ip);
      OpRefinesMapIffNoClash(downlink.slots[..], Add(s.ip, Downlink(tunnel, 0, 0)));
      downlink.AddRule(s.ip, Downlink(tunnel, 0, 0));
    }

    /** Remove the downlink rule, then the uplink rule; every other session keeps its rules. */
    method Delete(s: Session)
      requires Valid() && Issued(s)
      modifies uplink.slots, downlink.slots
      ensures Valid()
      ensures Downlinks() == old(Downlinks()) - {s.ip}
      ensures Uplinks() == old(Uplinks()) - {s.teid}
    {
      OneKeyPerSlot(downlink.slots[..], s.ip);
      OpRefinesMapIffNoClash(downlink.slots[..], Remove(s.ip));
      downlink.RemoveRule(s.ip);
      OneKeyPerSlot(uplink.slots[..], s.teid);
      OpRefinesMapIffNoClash(uplink.slots[..], Remove(s.teid));
      uplink.RemoveRule(s.teid);
    }

    /** The drain of a UE context: every one of its sessions is deleted, and nothing else. */
    method DeleteAll(sessions: seq<Session>)
      requires Valid() && forall i | 0 <= i < |sessions| :: Issued(sessions[i])
      modifies uplink.slots, downlink.slots
      ensures Valid()
      ensures Downlinks() == old(Downlinks()) - Ips(sessions)
      ensures Uplinks() == old(Uplinks()) - Teids(sessions)
    {
      for k := 0 to |sessions|
        invariant Valid()
        invariant Downlinks() == old(Downlinks()) - Ips(sessions[..k])
        invariant Uplinks() == old(Uplinks()) - Teids(sessions[..k])
      {
        KeysTake(sessions, k);
        Delete(sessions[k]);
        MinusSnoc(old(Downlinks()), Ips(sessions[..k]), sessions[k].ip);
      }
      assert sessions[..|sessions|] == sessions;
    }
  }

  ghost function Ips(ss: seq<Session>): set<Quad> {
    set s | s in ss :: s.ip
  }

  ghost function Teids(ss: seq<Session>): set<Quad> {
    set s | s in ss :: s.teid
  }

  lemma KeysSnoc(ss: seq<Session>, s: Session)
    ensures Ips(ss + [s]) == Ips(ss) + {s.ip} && Teids(ss + [s]) == Teids(ss) + {s.teid}
  {
    assert forall x :: x in ss + [s] <==> x in ss || x == s;
  }

  lemma KeysTake(ss: seq<Session>, k: nat)
    requires k < |ss|
    ensures Ips(ss[..k + 1]) == Ips(ss[..k]) + {ss[k].ip} && Teids(ss[..k + 1]) == Teids(ss[..k]) + {ss[k].teid}
  {
    assert ss[..k + 1] == ss[..k] + [ss[k]];
    KeysSnoc(ss[..k], ss[k]);
  }

  lemma MinusSnoc<V>(m: map<Quad, V>, a: set<Quad>, k: Quad)
    ensures m - a - {k} == m - (a + {k})
  {
  }

  lemma NoKeyInEmptySlot<V>(t: Table<V>, i: nat)
    requires SlotTable.Valid(t) && i < MAX_UES && t[i].None?
    ensures forall k | k in View(t) :: Slot(k) != i
  {
    forall k | k in View(t) ensures Slot(k) != i { ViewAt(t, k); }
  }

  lemma OneKeyPerSlot<V>(t: Table<V>, k: Quad)
    requires SlotTable.Valid(t) && Slot(k) < MAX_UES
    requires t[Slot(k)].None? || t[Slot(k)].value.key == k
    ensures !Clash(View(t), k)
  {
    forall k2 | k2 in View(t) && Slot(k2) == Slot(k) ensures k2 == k { ViewAt(t, k2); }
  }
}
