/** What holds of every run of the UE tasks. */
module UeTheorems {
  import opened Bytes
  import opened SlotTable
  import opened Userplane
  import opened UeSystem
  import opened UeInvariant
  import opened UeSteps
  import Plmn
  import DownlinkFrames

  // ---- Only authenticated tasks install rules ----

  ghost predicate InstalledUplink(cfg: Config, states: seq<State>, steps: seq<Step>, m: nat, key: Quad)
    requires m < |steps| && m < |states|
  {
    && steps[m].AddUplinkRule? && steps[m].t in states[m].tasks
    && var k := states[m].tasks[steps[m].t];
    k.pc.NeedUplinkRule? && k.pc.session.teid == key && TaskAuthenticated(cfg, k)
  }

  ghost predicate InstalledDownlink(cfg: Config, states: seq<State>, steps: seq<Step>, m: nat, key: Quad, tunnel: Tunnel)
    requires m < |steps| && m < |states|
  {
    && steps[m].AddDownlinkRule? && steps[m].t in states[m].tasks
    && var k := states[m].tasks[steps[m].t];
    k.pc.NeedDownlinkRule? && k.pc.session.ip == key && k.pc.tunnel == tunnel && TaskAuthenticated(cfg, k)
  }

  /**
   In every state of every run, each uplink rule was installed, earlier in the run, by a task that
   had by then registered a known IMSI of our PLMN and proved it.
   */
  lemma {:induction false} UplinkRulesAreAuthenticated(cfg: Config, states: seq<State>, steps: seq<Step>, n: nat, i: nat)
    requires Run(cfg, states, steps) && n < |states|
    requires i < |states[n].uplink| && states[n].uplink[i].Some?
    ensures exists m :: 0 <= m < n && InstalledUplink(cfg, states, steps, m, states[n].uplink[i].value.key)
  {
    RunKeepsInv(cfg, states, steps, n);
    if n > 0 {
      var s, step := states[n - 1], steps[n - 1];
      RunKeepsInv(cfg, states, steps, n - 1);
      assert Linked(cfg, states, steps, n - 1);
      if s.uplink[i] == states[n].uplink[i] {
        UplinkRulesAreAuthenticated(cfg, states, steps, n - 1, i);
      } else {
        assert step.AddUplinkRule? && TaskOk(cfg, s, step.t);
        assert InstalledUplink(cfg, states, steps, n - 1, states[n].uplink[i].value.key);
      }
    }
  }

  /** The same of downlink rules and their tunnels, whatever packets have advanced their numbers since. */
  lemma {:induction false} DownlinkRulesAreAuthenticated(cfg: Config, states: seq<State>, steps: seq<Step>, n: nat, i: nat)
    requires Run(cfg, states, steps) && n < |states|
    requires i < |states[n].downlink| && states[n].downlink[i].Some?
    ensures var e := states[n].downlink[i].value;
      exists m :: 0 <= m < n && InstalledDownlink(cfg, states, steps, m, e.key, e.value.tunnel)
  {
    if n > 0 {
      assert Linked(cfg, states, steps, n - 1);
      RunKeepsInv(cfg, states, steps, n - 1);
      DownlinkRuleStep(cfg, states[n - 1], steps[n - 1], i);
      var e, was := states[n].downlink[i].value, states[n - 1].downlink[i];
      if was.Some? && was.value.key == e.key && was.value.value.tunnel == e.value.tunnel {
        DownlinkRulesAreAuthenticated(cfg, states, steps, n - 1, i);
      } else {
        assert InstalledDownlink(cfg, states, steps, n - 1, e.key, e.value.tunnel);
      }
    }
  }

  /** A rule after a step was there before it, up to its numbers, or was installed by it. */
  lemma DownlinkRuleStep(cfg: Config, s: State, step: Step, i: nat)
    requires Inv(cfg, s) && Enabled(s, step)
    requires i < |Next(cfg, s, step).downlink| && Next(cfg, s, step).downlink[i].Some?
    ensures i < |s.downlink|
    ensures var e := Next(cfg, s, step).downlink[i].value;
      || (s.downlink[i].Some? && s.downlink[i].value.key == e.key && s.downlink[i].value.value.tunnel == e.value.tunnel)
      || (&& step.AddDownlinkRule? && step.t in s.tasks
          && var k := s.tasks[step.t];
          k.pc.NeedDownlinkRule? && k.pc.session.ip == e.key && k.pc.tunnel == e.value.tunnel && TaskAuthenticated(cfg, k))
  {
    if step.AddDownlinkRule? {
      assert TaskOk(cfg, s, step.t);
    } else if !step.RemoveDownlinkRule? && !step.DownlinkPacket? {
      DownlinkUntouched(cfg, s, step);
    }
  }

  /**
   A registration that carries the identity of a subscriber is accepted for an IMSI iff it names the
   UE's security capability, the IMSI is MCC, MNC and parsed MSIN of that subscriber and has a SIM,
   and the PLMN is ours.
   */
  lemma RegisteredImsiIsTheUes(cfg: Config, pdu: Pdu, imsi: string, nas: seq<byte>, capability: bool, identity: seq<byte>,
                               mcc: string, mnc: string, routing: seq<byte>, msin: string)
    requires DcchOf(cfg, pdu) == Some(SetupComplete(nas)) && cfg.decodeNas(nas) == Some(RegistrationRequest(capability, identity))
    requires Plmn.ValidCodes(mcc, mnc) && |routing| == 4 && Plmn.AllDigits(msin) && |msin| >= 7
    ensures identity == Plmn.SupiIe(Plmn.PlmnBytes(mcc, mnc), routing, Plmn.MsinNibbles(msin)) ==>
      (Registers(cfg, pdu, imsi) <==>
        && capability && cfg.plmn == Plmn.PlmnBytes(mcc, mnc)
        && imsi == mcc + mnc + Plmn.Parsed(msin) && imsi in cfg.sims)
  {
    Plmn.ImsiExactIffEven(mcc, mnc, routing, msin);
    RegistersIff(cfg, pdu, imsi, nas, capability, identity);
  }

  lemma RegistersIff(cfg: Config, pdu: Pdu, imsi: string, nas: seq<byte>, capability: bool, identity: seq<byte>)
    requires DcchOf(cfg, pdu) == Some(SetupComplete(nas)) && cfg.decodeNas(nas) == Some(RegistrationRequest(capability, identity))
    ensures Registers(cfg, pdu, imsi) <==>
      capability && Plmn.Parse(identity) == Some(Plmn.Identity(imsi, cfg.plmn)) && imsi in cfg.sims
  {
  }

  /** Every UE address that is routed lies in the configured subnet, under the number of its slot. */
  lemma RoutedAddressesInSubnet(cfg: Config, states: seq<State>, steps: seq<Step>, n: nat, i: nat)
    requires Run(cfg, states, steps) && n < |states|
    requires i < |states[n].downlink| && states[n].downlink[i].Some?
    ensures var ip := states[n].downlink[i].value.key;
      ip.a == cfg.subnet.a && ip.b == cfg.subnet.b && ip.c == cfg.subnet.c && ip.d == i && 1 <= i <= 253
  {
    RunKeepsInv(cfg, states, steps, n);
    assert SlotOk(cfg, states[n], i);
  }

  // ---- A downlink rule never stands without its uplink rule ----

  lemma DownlinkImpliesUplink(cfg: Config, states: seq<State>, steps: seq<Step>, n: nat, i: nat)
    requires Run(cfg, states, steps) && n < |states|
    requires i < |states[n].downlink| && states[n].downlink[i].Some?
    ensures exists t, x: Session ::
      && t in states[n].tasks && (InFlight(states[n].tasks[t].pc) == Some(x) || Recorded(states[n].tasks[t], x))
      && i < |states[n].uplink| && states[n].uplink[i] == Some(Entry(x.teid, ()))
      && states[n].downlink[i].value.key == x.ip && Slot(x.teid) == Slot(x.ip) == i
  {
    RunKeepsInv(cfg, states, steps, n);
    var s := states[n];
    assert SlotOk(cfg, s, i);
    var g := s.grants[i];
    assert s.uplink[i] == Some(Entry(g.session.teid, ()));
    assert InFlight(s.tasks[g.task].pc) == Some(g.session) || Recorded(s.tasks[g.task], g.session);
  }

  // ---- The tables are maps keyed by the full TEID and the full address ----

  lemma TablesValid(cfg: Config, s: State)
    requires Inv(cfg, s)
    ensures SlotTable.Valid(s.uplink) && SlotTable.Valid(s.downlink)
  {
    forall i | 0 <= i < MAX_UES ensures
      (s.uplink[i].Some? ==> Slot(s.uplink[i].value.key) == i) && (s.downlink[i].Some? ==> Slot(s.downlink[i].value.key) == i)
    {
      assert SlotOk(cfg, s, i);
    }
  }

  lemma PutFresh<V>(t: Table<V>, k: Quad, v: V)
    requires SlotTable.Valid(t) && Slot(k) < MAX_UES && t[Slot(k)].None?
    ensures SlotTable.Valid(Put(t, k, v)) && View(Put(t, k, v)) == View(t)[k := v] && k !in View(t)
  {
    NoKeyInEmptySlot(t, Slot(k));
    OpRefinesMapIffNoClash(t, Add(k, v));
  }

  lemma PutLive<V>(t: Table<V>, k: Quad, v: V)
    requires SlotTable.Valid(t) && Slot(k) < MAX_UES && t[Slot(k)].Some? && t[Slot(k)].value.key == k
    ensures SlotTable.Valid(Put(t, k, v)) && View(Put(t, k, v)) == View(t)[k := v]
  {
    OneKeyPerSlot(t, k);
    OpRefinesMapIffNoClash(t, Add(k, v));
  }

  lemma ClearLive<V>(t: Table<V>, k: Quad)
    requires SlotTable.Valid(t) && Slot(k) < MAX_UES && t[Slot(k)].Some? && t[Slot(k)].value.key == k
    ensures SlotTable.Valid(Clear(t, k)) && View(Clear(t, k)) == View(t) - {k} && k in View(t)
  {
    OneKeyPerSlot(t, k);
    OpRefinesMapIffNoClash(t, Remove(k));
    ViewAt(t, k);
  }

  lemma UplinkUntouched(cfg: Config, s: State, step: Step)
    requires Enabled(s, step) && !step.AddUplinkRule? && !step.RemoveUplinkRule?
    ensures Next(cfg, s, step).uplink == s.uplink
  {
  }

  lemma DownlinkUntouched(cfg: Config, s: State, step: Step)
    requires Enabled(s, step) && !step.AddDownlinkRule? && !step.RemoveDownlinkRule? && !step.DownlinkPacket?
    ensures Next(cfg, s, step).downlink == s.downlink
  {
  }

  /** The uplink map after a step, in terms of the sessions of the UE task that takes it. */
  ghost predicate UplinkMapStep(s: State, step: Step, m: map<Quad, ()>, m': map<Quad, ()>)
    requires Enabled(s, step)
  {
    match step
    case AddUplinkRule(t) => var x := s.tasks[t].pc.session; x.teid !in m && m' == m[x.teid := ()]
    case RemoveUplinkRule(t) => var x := s.tasks[t].sessions[0]; x.teid in m && m' == m - {x.teid}
    case _ => m' == m
  }

  ghost predicate DownlinkMapStep(s: State, step: Step, m: map<Quad, Downlink>, m': map<Quad, Downlink>)
    requires Enabled(s, step)
  {
    match step
    case AddDownlinkRule(t) =>
      var x := s.tasks[t].pc.session; x.ip !in m && m' == m[x.ip := Downlink(s.tasks[t].pc.tunnel, 0, 0)]
    case RemoveDownlinkRule(t) => var x := s.tasks[t].sessions[0]; x.ip in m && m' == m - {x.ip}
    case DownlinkPacket(inner) =>
      m' == if |inner| >= 20 && QuadAt(inner, 16) in m then m[QuadAt(inner, 16) := Bump(m[QuadAt(inner, 16)])] else m
    case _ => m' == m
  }

  lemma UplinkStep(cfg: Config, s: State, step: Step)
    requires Inv(cfg, s) && Enabled(s, step)
    ensures SlotTable.Valid(s.uplink) && SlotTable.Valid(Next(cfg, s, step).uplink)
    ensures UplinkMapStep(s, step, View(s.uplink), View(Next(cfg, s, step).uplink))
  {
    TablesValid(cfg, s);
    if step.AddUplinkRule? {
      var x := s.tasks[step.t].pc.session;
      assert TaskOk(cfg, s, step.t) && SlotOk(cfg, s, Slot(x.teid));
      PutFresh(s.uplink, x.teid, ());
    } else if step.RemoveUplinkRule? {
      var x := s.tasks[step.t].sessions[0];
      assert TaskOk(cfg, s, step.t) && Holds(s, step.t, x) && SlotOk(cfg, s, Slot(x.teid));
      ClearLive(s.uplink, x.teid);
    } else {
      UplinkUntouched(cfg, s, step);
    }
  }

  lemma DownlinkAddedMap(cfg: Config, s: State, t: nat)
    requires Inv(cfg, s) && t in s.tasks && s.tasks[t].pc.NeedDownlinkRule? && SlotTable.Valid(s.downlink)
    ensures var x, t' := s.tasks[t].pc.session, DownlinkAdded(s, t).downlink;
      && SlotTable.Valid(t') && x.ip !in View(s.downlink)
      && View(t') == View(s.downlink)[x.ip := Downlink(s.tasks[t].pc.tunnel, 0, 0)]
  {
    var x := s.tasks[t].pc.session;
    assert TaskOk(cfg, s, t) && SlotOk(cfg, s, Slot(x.teid));
    PutFresh(s.downlink, x.ip, Downlink(s.tasks[t].pc.tunnel, 0, 0));
  }

  lemma DownlinkRemovedMap(cfg: Config, s: State, t: nat)
    requires Inv(cfg, s) && t in s.tasks && s.tasks[t].pc.Destroying? && s.tasks[t].sessions != []
    requires SlotTable.Valid(s.downlink)
    ensures var x, t' := s.tasks[t].sessions[0], DownlinkRemoved(s, t).downlink;
      SlotTable.Valid(t') && x.ip in View(s.downlink) && View(t') == View(s.downlink) - {x.ip}
  {
    var x := s.tasks[t].sessions[0];
    assert TaskOk(cfg, s, t) && Holds(s, t, x) && SlotOk(cfg, s, Slot(x.teid));
    ClearLive(s.downlink, x.ip);
  }

  lemma DownlinkStep(cfg: Config, s: State, step: Step)
    requires Inv(cfg, s) && Enabled(s, step)
    ensures SlotTable.Valid(s.downlink) && SlotTable.Valid(Next(cfg, s, step).downlink)
    ensures DownlinkMapStep(s, step, View(s.downlink), View(Next(cfg, s, step).downlink))
  {
    TablesValid(cfg, s);
    if step.AddDownlinkRule? {
      DownlinkAddedMap(cfg, s, step.t);
    } else if step.RemoveDownlinkRule? {
      DownlinkRemovedMap(cfg, s, step.t);
    } else if step.DownlinkPacket? {
      PacketStep(s.downlink, step.inner);
    } else {
      DownlinkUntouched(cfg, s, step);
    }
  }

  lemma PacketStep(t: Table<Downlink>, inner: seq<byte>)
    requires SlotTable.Valid(t)
    ensures var t' := DownlinkFrames.TableStep(t, inner);
      SlotTable.Valid(t') && View(t') == if |inner| >= 20 && QuadAt(inner, 16) in View(t)
        then View(t)[QuadAt(inner, 16) := Bump(View(t)[QuadAt(inner, 16)])] else View(t)
  {
    if |inner| >= 20 {
      var ip := QuadAt(inner, 16);
      LookupIsMapLookup(t, ip);
      ViewAt(t, ip);
      if ip in View(t) {
        PutLive(t, ip, Bump(View(t)[ip]));
      }
    }
  }

  /**
   Throughout every run both tables are maps, keyed by the full TEID and the full UE address:
   each step does to them what it would do to those maps, an addition always finds its key absent
   and a removal finds it present, so that no session's step concerns another session's rules.
   */
  lemma TablesAreMaps(cfg: Config, states: seq<State>, steps: seq<Step>, n: nat)
    requires Run(cfg, states, steps) && n < |steps|
    ensures Enabled(states[n], steps[n])
    ensures SlotTable.Valid(states[n].uplink) && SlotTable.Valid(states[n + 1].uplink)
    ensures SlotTable.Valid(states[n].downlink) && SlotTable.Valid(states[n + 1].downlink)
    ensures UplinkMapStep(states[n], steps[n], View(states[n].uplink), View(states[n + 1].uplink))
    ensures DownlinkMapStep(states[n], steps[n], View(states[n].downlink), View(states[n + 1].downlink))
  {
    RunKeepsInv(cfg, states, steps, n);
    assert Linked(cfg, states, steps, n);
    UplinkStep(cfg, states[n], steps[n]);
    DownlinkStep(cfg, states[n], steps[n]);
  }

  // ---- Slot numbers over a whole run ----

  /** Slot history only grows: no slot changes hands, and a settled fate stays. */
  ghost predicate Continues(s: State, s': State) {
    && s.pool <= s'.pool
    && (forall i | i in s.grants :: i in s'.grants && SameGrant(s.grants[i], s'.grants[i]))
  }

  ghost predicate SameGrant(g: Grant, g': Grant) {
    g'.task == g.task && g'.session == g.session && (g.fate.Held? || g'.fate == g.fate)
  }

  lemma ContinuesTransitive(a: State, b: State, c: State)
    requires Continues(a, b) && Continues(b, c)
    ensures Continues(a, c)
  {
  }

  lemma StepContinues(cfg: Config, states: seq<State>, steps: seq<Step>, n: nat)
    requires Run(cfg, states, steps) && n < |steps|
    ensures Continues(states[n], states[n + 1])
  {
    RunKeepsInv(cfg, states, steps, n);
    assert Linked(cfg, states, steps, n);
    GrantStep(cfg, states[n], steps[n]);
  }

  lemma {:induction false} GrantsPersist(cfg: Config, states: seq<State>, steps: seq<Step>, m: nat, n: nat)
    requires Run(cfg, states, steps) && m <= n < |states|
    ensures Continues(states[m], states[n])
    decreases n
  {
    if m < n {
      GrantsPersist(cfg, states, steps, m, n - 1);
      StepContinues(cfg, states, steps, n - 1);
      ContinuesTransitive(states[m], states[n - 1], states[n]);
    }
  }

  lemma GrantsUntouched(cfg: Config, s: State, step: Step)
    requires Enabled(s, step) && !step.TakeSlot? && !step.Fail? && !step.RemoveUplinkRule?
    ensures Next(cfg, s, step).grants == s.grants && Next(cfg, s, step).pool == s.pool
  {
  }

  lemma SlotTakenGrants(cfg: Config, s: State, t: nat, id: nat, top: (byte, byte, byte))
    requires Inv(cfg, s) && t in s.tasks && id !in s.pool
    ensures var s' := SlotTaken(cfg, s, t, id, top);
      && Continues(s, s') && id !in s.grants
      && s'.grants.Keys == s.grants.Keys + if id < MAX_UES then {id} else {}
  {
    if id < MAX_UES {
      assert SlotOk(cfg, s, id);
    }
  }

  lemma FailedGrants(cfg: Config, s: State, t: nat)
    requires Inv(cfg, s) && t in s.tasks
    ensures Continues(s, Failed(s, t)) && Failed(s, t).grants.Keys == s.grants.Keys
  {
    assert TaskOk(cfg, s, t);
  }

  lemma RemovedGrants(cfg: Config, s: State, t: nat)
    requires Inv(cfg, s) && t in s.tasks && s.tasks[t].sessions != []
    ensures Continues(s, UplinkRemoved(s, t)) && UplinkRemoved(s, t).grants.Keys == s.grants.Keys
  {
    assert TaskOk(cfg, s, t) && Holds(s, t, s.tasks[t].sessions[0]);
  }

  lemma GrantStep(cfg: Config, s: State, step: Step)
    requires Inv(cfg, s) && Enabled(s, step)
    ensures Continues(s, Next(cfg, s, step))
    ensures Next(cfg, s, step).grants.Keys == s.grants.Keys + if Succeeds(step) then {step.id} else {}
    ensures Succeeds(step) ==> step.id !in s.grants
  {
    if step.TakeSlot? {
      SlotTakenGrants(cfg, s, step.t, step.id, step.top);
    } else if step.Fail? {
      FailedGrants(cfg, s, step.t);
    } else if step.RemoveUplinkRule? {
      RemovedGrants(cfg, s, step.t);
    } else {
      GrantsUntouched(cfg, s, step);
    }
  }

  lemma SlotTakenIsFresh(cfg: Config, states: seq<State>, steps: seq<Step>, m: nat)
    requires Run(cfg, states, steps) && m < |steps| && steps[m].TakeSlot?
    ensures steps[m].id != 0 && steps[m].id !in states[m].pool && steps[m].id in states[m + 1].pool
  {
    assert Linked(cfg, states, steps, m);
    RunKeepsInv(cfg, states, steps, m);
    assert 0 in states[m].pool;
    var step := steps[m];
    assert states[m + 1] == SlotTaken(cfg, states[m], step.t, step.id, step.top);
  }

  /** No slot number is ever given out twice, not even one that failed. */
  lemma SlotsNeverRepeat(cfg: Config, states: seq<State>, steps: seq<Step>, m: nat, n: nat)
    requires Run(cfg, states, steps) && m < n < |steps| && steps[m].TakeSlot? && steps[n].TakeSlot?
    ensures steps[m].id != steps[n].id && steps[m].id != 0 && steps[n].id != 0
  {
    SlotTakenIsFresh(cfg, states, steps, m);
    SlotTakenIsFresh(cfg, states, steps, n);
    GrantsPersist(cfg, states, steps, m + 1, n);
  }

  ghost predicate Succeeds(step: Step) {
    step.TakeSlot? && step.id < MAX_UES
  }

  ghost function Reservations(steps: seq<Step>): nat {
    if steps == [] then 0
    else Reservations(steps[..|steps| - 1]) + if Succeeds(steps[|steps| - 1]) then 1 else 0
  }

  lemma {:induction false} ReservationsAreGrants(cfg: Config, states: seq<State>, steps: seq<Step>, n: nat)
    requires Run(cfg, states, steps) && n < |states|
    ensures Reservations(steps[..n]) == |states[n].grants|
  {
    if n > 0 {
      ReservationsAreGrants(cfg, states, steps, n - 1);
      RunKeepsInv(cfg, states, steps, n - 1);
      assert steps[..n][..n - 1] == steps[..n - 1];
      assert Linked(cfg, states, steps, n - 1);
      GrantCount(cfg, states[n - 1], steps[n - 1]);
    }
  }

  lemma GrantCount(cfg: Config, s: State, step: Step)
    requires Inv(cfg, s) && Enabled(s, step)
    ensures |Next(cfg, s, step).grants| == |s.grants| + if Succeeds(step) then 1 else 0
  {
    GrantStep(cfg, s, step);
    KeysCount(Next(cfg, s, step).grants, s.grants);
  }

  lemma KeysCount(m: map<nat, Grant>, m0: map<nat, Grant>)
    ensures m.Keys == m0.Keys ==> |m| == |m0|
    ensures forall i | i !in m0 && m.Keys == m0.Keys + {i} :: |m| == |m0| + 1
  {
    assert |m| == |m.Keys| && |m0| == |m0.Keys|;
  }

  lemma {:induction false} BoundedSize(a: set<nat>, b: nat)
    requires forall i | i in a :: 1 <= i <= b
    ensures |a| <= b
  {
    if b == 0 {
      assert a == {};
    } else {
      BoundedSize(a - {b}, b - 1);
    }
  }

  /** Over a whole process run at most 253 reservations succeed, however many sessions are deleted. */
  lemma AtMost253Reservations(cfg: Config, states: seq<State>, steps: seq<Step>)
    requires Run(cfg, states, steps)
    ensures Reservations(steps) <= 253
  {
    var n := |steps|;
    RunKeepsInv(cfg, states, steps, n);
    ReservationsAreGrants(cfg, states, steps, n);
    assert steps[..n] == steps;
    forall i | i in states[n].grants.Keys ensures 1 <= i <= 253 { assert SlotOk(cfg, states[n], i); }
    BoundedSize(states[n].grants.Keys, 253);
  }
}
