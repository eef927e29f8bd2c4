/** Each step keeps the invariant, and so does every run. */
module UeSteps {
  import opened Bytes
  import opened SlotTable
  import opened Userplane
  import opened UeSystem
  import opened UeInvariant
  import DownlinkFrames

  lemma SpawnKeeps(cfg: Config, s: State, t: nat, ueId: nat)
    requires Inv(cfg, s) && t !in s.tasks && ueId !in s.senders
    ensures Inv(cfg, Spawned(s, t, ueId))
  {
    var s' := Spawned(s, t, ueId);
    forall u | u in s'.tasks ensures TaskOk(cfg, s', u) {
      if u != t {
        assert TaskOk(cfg, s, u);
        assert forall x :: Holds(s, u, x) <==> Holds(s', u, x);
      }
    }
    forall i | 0 <= i < MAX_UES ensures SlotOk(cfg, s', i) {
      assert SlotOk(cfg, s, i);
    }
  }

  lemma ReceiveKeeps(cfg: Config, s: State, t: nat, rand: seq<byte>)
    requires Inv(cfg, s) && t in s.tasks && Receives(s.tasks[t].pc) && s.tasks[t].queue != []
    ensures Inv(cfg, Received(cfg, s, t, rand))
  {
    var s' := Received(cfg, s, t, rand);
    var k := s.tasks[t];
    assert TaskOk(cfg, s, t);
    if k.sessions != [] {
      HolderAuthenticated(cfg, s, t, k.sessions[0]);
    }
    ReceiveStage(cfg, k, k.queue[0], s'.tasks[t]);
    ControlKeepsInv(cfg, s, s', t);
  }

  lemma HolderAuthenticated(cfg: Config, s: State, t: nat, x: Session)
    requires Inv(cfg, s) && Holds(s, t, x)
    ensures t in s.tasks && TaskAuthenticated(cfg, s.tasks[t])
  {
    assert SlotOk(cfg, s, Slot(x.teid));
  }

  lemma DispatchKeeps(cfg: Config, s: State, u: nat, pdu: Pdu)
    requires Inv(cfg, s)
    ensures Inv(cfg, Dispatched(s, u, pdu))
  {
    var s' := Dispatched(s, u, pdu);
    if s' != s {
      assert TaskOk(cfg, s, s.senders[u]);
      ControlKeepsInv(cfg, s, s', s.senders[u]);
    }
  }

  lemma ClearKeeps(cfg: Config, s: State)
    requires Inv(cfg, s)
    ensures Inv(cfg, s.(senders := map[]))
  {
    var s' := s.(senders := map[]);
    forall t | t in s'.tasks ensures TaskOk(cfg, s', t) {
      assert TaskOk(cfg, s, t);
      assert forall x :: Holds(s, t, x) <==> Holds(s', t, x);
    }
    forall i | 0 <= i < MAX_UES ensures SlotOk(cfg, s', i) { assert SlotOk(cfg, s, i); }
  }

  lemma ReceiveErrorKeeps(cfg: Config, s: State, t: nat)
    requires Inv(cfg, s) && t in s.tasks && Receives(s.tasks[t].pc)
    ensures Inv(cfg, Goto(s, t, OnClosed(s.tasks[t].pc)))
  {
    assert TaskOk(cfg, s, t);
    NoSessionsBeforeContext(cfg, s, t);
    ControlKeepsInv(cfg, s, Goto(s, t, OnClosed(s.tasks[t].pc)), t);
  }

  lemma ContextSetupKeeps(cfg: Config, s: State, t: nat, tunnel: Tunnel)
    requires Inv(cfg, s) && t in s.tasks && s.tasks[t].pc.AwaitContextSetup?
    ensures Inv(cfg, Goto(s, t, NeedDownlinkRule(s.tasks[t].pc.session, tunnel)))
  {
    assert TaskOk(cfg, s, t);
    ControlKeepsInv(cfg, s, Goto(s, t, NeedDownlinkRule(s.tasks[t].pc.session, tunnel)), t);
  }

  lemma ReleaseKeeps(cfg: Config, s: State, t: nat)
    requires Inv(cfg, s) && t in s.tasks && s.tasks[t].pc.AwaitRelease?
    ensures Inv(cfg, Goto(s, t, Destroying))
  {
    assert TaskOk(cfg, s, t);
    ControlKeepsInv(cfg, s, Goto(s, t, Destroying), t);
  }

  lemma DeleteChannelKeeps(cfg: Config, s: State, t: nat, senders: map<nat, nat>)
    requires Inv(cfg, s) && t in s.tasks && s.tasks[t].pc.Destroying? && s.tasks[t].sessions == []
    requires forall u | u in senders :: u in s.senders && senders[u] == s.senders[u]
    ensures Inv(cfg, Goto(s, t, Done).(senders := senders))
  {
    assert TaskOk(cfg, s, t);
    ControlKeepsInv(cfg, s, Goto(s, t, Done).(senders := senders), t);
  }

  lemma NoSessionsBeforeContext(cfg: Config, s: State, t: nat)
    requires Inv(cfg, s) && t in s.tasks
    ensures s.tasks[t].pc.AwaitFirst? ==> s.tasks[t].sessions == []
  {
    assert TaskOk(cfg, s, t);
    if s.tasks[t].sessions != [] {
      HolderAuthenticated(cfg, s, t, s.tasks[t].sessions[0]);
    }
  }

  lemma AbandonKeeps(cfg: Config, s: State, t: nat)
    requires Inv(cfg, s) && t in s.tasks && CanFail(s.tasks[t].pc) && InFlight(s.tasks[t].pc).Some?
    ensures Inv(cfg, Failed(s, t))
  {
    var s', x := Failed(s, t), InFlight(s.tasks[t].pc).value;
    var i := Slot(x.teid);
    assert TaskOk(cfg, s, t) && SlotOk(cfg, s, i);
    SlotsApart(cfg, s, t, x);
    assert s'.grants == s.grants[i := Grant(t, x, Abandoned)];
    assert SlotOk(cfg, s', i);
    forall y | y in s.tasks[t].sessions ensures Holds(s', t, y) {
      assert Holds(s, t, y) && y != x;
    }
    assert TaskOk(cfg, s', t);
    TouchKeepsInv(cfg, s, s', t, i);
  }

  lemma FailKeeps(cfg: Config, s: State, t: nat)
    requires Inv(cfg, s) && t in s.tasks && CanFail(s.tasks[t].pc)
    ensures Inv(cfg, Failed(s, t))
  {
    if InFlight(s.tasks[t].pc).Some? {
      AbandonKeeps(cfg, s, t);
    } else {
      assert TaskOk(cfg, s, t);
      ControlKeepsInv(cfg, s, Failed(s, t), t);
    }
  }

  /** A session held in flight shares its slot with no recorded session. */
  lemma SlotsApart(cfg: Config, s: State, t: nat, x: Session)
    requires Inv(cfg, s) && t in s.tasks && Holds(s, t, x)
    ensures forall y | y in s.tasks[t].sessions && y != x :: Slot(y.teid) != Slot(x.teid)
  {
    assert TaskOk(cfg, s, t);
    assert forall y | y in s.tasks[t].sessions :: Holds(s, t, y);
  }

  lemma GrantedTaskOk(cfg: Config, s: State, t: nat, id: nat, top: (byte, byte, byte))
    requires Inv(cfg, s) && t in s.tasks && s.tasks[t].pc.NeedSlot? && id !in s.pool && id < MAX_UES
    ensures TaskOk(cfg, SlotTaken(cfg, s, t, id, top), t)
    ensures forall y | y in s.tasks[t].sessions :: Slot(y.teid) != id
  {
    var s' := SlotTaken(cfg, s, t, id, top);
    assert TaskOk(cfg, s, t) && SlotOk(cfg, s, id);
    forall y | y in s.tasks[t].sessions ensures Slot(y.teid) != id && Holds(s', t, y) {
      assert Holds(s, t, y);
    }
    assert Holds(s', t, s'.grants[id].session);
  }

  lemma SlotGrantedKeeps(cfg: Config, s: State, t: nat, id: nat, top: (byte, byte, byte))
    requires Inv(cfg, s) && t in s.tasks && s.tasks[t].pc.NeedSlot? && id !in s.pool && id < MAX_UES
    ensures Inv(cfg, SlotTaken(cfg, s, t, id, top))
  {
    var s' := SlotTaken(cfg, s, t, id, top);
    var k := s.tasks[t];
    assert TaskOk(cfg, s, t) && SlotOk(cfg, s, id);
    GrantedTaskOk(cfg, s, t, id, top);
    assert !DownlinkDue(s'.tasks[t], s'.grants[id]) && !UplinkDue(s'.tasks[t], s'.grants[id]);
    assert GrantOk(cfg, s', id);
    assert OthersStand(s, s', t, id);
    TouchKeepsInv(cfg, s, s', t, id);
  }

  lemma TakeSlotKeeps(cfg: Config, s: State, t: nat, id: nat, top: (byte, byte, byte))
    requires Inv(cfg, s) && t in s.tasks && s.tasks[t].pc.NeedSlot? && id !in s.pool
    ensures Inv(cfg, SlotTaken(cfg, s, t, id, top))
  {
    if id >= MAX_UES {
      assert TaskOk(cfg, s, t);
      ControlKeepsInv(cfg, s, SlotTaken(cfg, s, t, id, top), t);
    } else {
      SlotGrantedKeeps(cfg, s, t, id, top);
    }
  }

  lemma UplinkAddedSlot(cfg: Config, s: State, t: nat)
    requires |s.uplink| == |s.downlink| == MAX_UES && t in s.tasks && s.tasks[t].pc.NeedUplinkRule?
    requires var x := s.tasks[t].pc.session; TaskOk(cfg, s, t) && Slot(x.teid) < MAX_UES && Holds(s, t, x) && SlotOk(cfg, s, Slot(x.teid))
    ensures var s' := UplinkAdded(s, t); |s'.uplink| == |s'.downlink| == MAX_UES && SlotOk(cfg, s', Slot(s.tasks[t].pc.session.teid))
  {
  }

  lemma AddUplinkKeeps(cfg: Config, s: State, t: nat)
    requires Inv(cfg, s) && t in s.tasks && s.tasks[t].pc.NeedUplinkRule?
    ensures Inv(cfg, UplinkAdded(s, t))
  {
    var s' := UplinkAdded(s, t);
    assert TaskOk(cfg, s, t);
    var x := s.tasks[t].pc.session;
    var i := Slot(x.teid);
    assert SlotOk(cfg, s, i);
    SlotsApart(cfg, s, t, x);
    UplinkAddedSlot(cfg, s, t);
    TouchKeepsInv(cfg, s, s', t, i);
  }

  lemma DownlinkAddedSlot(cfg: Config, s: State, t: nat)
    requires |s.uplink| == |s.downlink| == MAX_UES && t in s.tasks && s.tasks[t].pc.NeedDownlinkRule?
    requires var x := s.tasks[t].pc.session; TaskOk(cfg, s, t) && Slot(x.teid) < MAX_UES && Holds(s, t, x) && SlotOk(cfg, s, Slot(x.teid))
    ensures var s' := DownlinkAdded(s, t); |s'.uplink| == |s'.downlink| == MAX_UES && SlotOk(cfg, s', Slot(s.tasks[t].pc.session.teid))
  {
  }

  lemma AddDownlinkKeeps(cfg: Config, s: State, t: nat)
    requires Inv(cfg, s) && t in s.tasks && s.tasks[t].pc.NeedDownlinkRule?
    ensures Inv(cfg, DownlinkAdded(s, t))
  {
    var s' := DownlinkAdded(s, t);
    assert TaskOk(cfg, s, t);
    var x := s.tasks[t].pc.session;
    var i := Slot(x.teid);
    assert SlotOk(cfg, s, i);
    SlotsApart(cfg, s, t, x);
    DownlinkAddedSlot(cfg, s, t);
    TouchKeepsInv(cfg, s, s', t, i);
  }

  lemma SessionRecordedSlot(cfg: Config, s: State, t: nat)
    requires |s.uplink| == |s.downlink| == MAX_UES && t in s.tasks && s.tasks[t].pc.NeedRecord?
    requires var x := s.tasks[t].pc.session; TaskOk(cfg, s, t) && Slot(x.teid) < MAX_UES && Holds(s, t, x) && SlotOk(cfg, s, Slot(x.teid))
    ensures var s' := SessionRecorded(s, t); |s'.uplink| == |s'.downlink| == MAX_UES && SlotOk(cfg, s', Slot(s.tasks[t].pc.session.teid))
  {
    var k := s.tasks[t];
    assert k.pc.session in SessionRecorded(s, t).tasks[t].sessions;
  }

  lemma SessionRecordedFrame(cfg: Config, s: State, t: nat)
    requires Inv(cfg, s) && t in s.tasks && s.tasks[t].pc.NeedRecord?
    requires Holds(s, t, s.tasks[t].pc.session) && Slot(s.tasks[t].pc.session.teid) < MAX_UES
    ensures var s', i := SessionRecorded(s, t), Slot(s.tasks[t].pc.session.teid);
      OnlyTouches(s, s', t, i) && OthersStand(s, s', t, i)
  {
    var k, k' := s.tasks[t], SessionRecorded(s, t).tasks[t];
    assert forall y :: y in k'.sessions <==> y in k.sessions || y == k.pc.session;
  }

  lemma RecordedTaskOk(cfg: Config, s: State, t: nat)
    requires Inv(cfg, s) && t in s.tasks && s.tasks[t].pc.NeedRecord?
    ensures TaskOk(cfg, SessionRecorded(s, t), t)
  {
    var s' := SessionRecorded(s, t);
    assert TaskOk(cfg, s, t);
    forall y | y in s'.tasks[t].sessions ensures Holds(s', t, y) {
      assert y in s.tasks[t].sessions || y == s.tasks[t].pc.session;
    }
  }

  lemma RecordKeeps(cfg: Config, s: State, t: nat)
    requires Inv(cfg, s) && t in s.tasks && s.tasks[t].pc.NeedRecord?
    ensures Inv(cfg, SessionRecorded(s, t))
  {
    assert TaskOk(cfg, s, t);
    var i := Slot(s.tasks[t].pc.session.teid);
    assert SlotOk(cfg, s, i);
    SessionRecordedFrame(cfg, s, t);
    SessionRecordedSlot(cfg, s, t);
    RecordedTaskOk(cfg, s, t);
    TouchKeepsInv(cfg, s, SessionRecorded(s, t), t, i);
  }

  lemma DownlinkRemovedSlot(cfg: Config, s: State, t: nat)
    requires |s.uplink| == |s.downlink| == MAX_UES && t in s.tasks && s.tasks[t].pc.Destroying? && s.tasks[t].sessions != []
    requires var x := s.tasks[t].sessions[0]; TaskOk(cfg, s, t) && Slot(x.teid) < MAX_UES && Holds(s, t, x) && SlotOk(cfg, s, Slot(x.teid))
    ensures var s' := DownlinkRemoved(s, t); |s'.uplink| == |s'.downlink| == MAX_UES && SlotOk(cfg, s', Slot(s.tasks[t].sessions[0].teid))
  {
  }

  lemma DownlinkRemovedFrame(cfg: Config, s: State, t: nat)
    requires Inv(cfg, s) && t in s.tasks && s.tasks[t].pc.Destroying? && s.tasks[t].sessions != []
    requires Holds(s, t, s.tasks[t].sessions[0]) && Slot(s.tasks[t].sessions[0].teid) < MAX_UES
    requires Slot(s.tasks[t].sessions[0].ip) == Slot(s.tasks[t].sessions[0].teid)
    ensures var s', i := DownlinkRemoved(s, t), Slot(s.tasks[t].sessions[0].teid);
      OnlyTouches(s, s', t, i) && OthersStand(s, s', t, i)
  {
  }

  lemma RemoveDownlinkKeeps(cfg: Config, s: State, t: nat)
    requires Inv(cfg, s) && t in s.tasks && s.tasks[t].pc.Destroying? && s.tasks[t].sessions != []
    ensures Inv(cfg, DownlinkRemoved(s, t))
  {
    var s' := DownlinkRemoved(s, t);
    assert TaskOk(cfg, s, t);
    var x := s.tasks[t].sessions[0];
    var i := Slot(x.teid);
    assert Holds(s, t, x) && SlotOk(cfg, s, i);
    DownlinkRemovedFrame(cfg, s, t);
    DownlinkRemovedSlot(cfg, s, t);
    TouchKeepsInv(cfg, s, s', t, i);
  }

  lemma TailSessions(cfg: Config, s: State, t: nat)
    requires Inv(cfg, s) && t in s.tasks && s.tasks[t].sessions != []
    ensures var x, xs := s.tasks[t].sessions[0], s.tasks[t].sessions[1..];
      && x !in xs && Distinct(xs)
      && (forall y :: y in xs <==> y in s.tasks[t].sessions && y != x)
      && (forall y | y in xs :: Slot(y.teid) != Slot(x.teid))
  {
    assert TaskOk(cfg, s, t);
    var x, xs := s.tasks[t].sessions[0], s.tasks[t].sessions[1..];
    assert s.tasks[t].sessions == [x] + xs;
    assert Holds(s, t, x);
    SlotsApart(cfg, s, t, x);
  }

  lemma UplinkRemovedSlot(cfg: Config, s: State, t: nat)
    requires |s.uplink| == |s.downlink| == MAX_UES && t in s.tasks && s.tasks[t].pc.DestroyingUplink? && s.tasks[t].sessions != []
    requires var x := s.tasks[t].sessions[0]; TaskOk(cfg, s, t) && Slot(x.teid) < MAX_UES && Holds(s, t, x) && SlotOk(cfg, s, Slot(x.teid))
    ensures var s' := UplinkRemoved(s, t); |s'.uplink| == |s'.downlink| == MAX_UES && SlotOk(cfg, s', Slot(s.tasks[t].sessions[0].teid))
  {
  }

  lemma UplinkRemovedFrame(cfg: Config, s: State, t: nat)
    requires Inv(cfg, s) && t in s.tasks && s.tasks[t].pc.DestroyingUplink? && s.tasks[t].sessions != []
    requires Holds(s, t, s.tasks[t].sessions[0]) && Slot(s.tasks[t].sessions[0].teid) < MAX_UES
    ensures var s', i := UplinkRemoved(s, t), Slot(s.tasks[t].sessions[0].teid);
      OnlyTouches(s, s', t, i) && OthersStand(s, s', t, i)
  {
    TailSessions(cfg, s, t);
  }

  lemma RemoveUplinkKeeps(cfg: Config, s: State, t: nat)
    requires Inv(cfg, s) && t in s.tasks && s.tasks[t].pc.DestroyingUplink? && s.tasks[t].sessions != []
    ensures Inv(cfg, UplinkRemoved(s, t))
  {
    var s' := UplinkRemoved(s, t);
    var x := s.tasks[t].sessions[0];
    var i := Slot(x.teid);
    assert TaskOk(cfg, s, t) && Holds(s, t, x) && SlotOk(cfg, s, i);
    UplinkRemovedFrame(cfg, s, t);
    UplinkRemovedSlot(cfg, s, t);
    TailTaskOk(cfg, s, t);
    TouchKeepsInv(cfg, s, s', t, i);
  }

  lemma TailTaskOk(cfg: Config, s: State, t: nat)
    requires Inv(cfg, s) && t in s.tasks && s.tasks[t].pc.DestroyingUplink? && s.tasks[t].sessions != []
    ensures TaskOk(cfg, UplinkRemoved(s, t), t)
  {
    var s' := UplinkRemoved(s, t);
    assert TaskOk(cfg, s, t);
    TailSessions(cfg, s, t);
    forall y | y in s'.tasks[t].sessions ensures Holds(s', t, y) {
      assert Holds(s, t, y);
    }
  }

  lemma PacketKeeps(cfg: Config, s: State, inner: seq<byte>)
    requires Inv(cfg, s)
    ensures Inv(cfg, s.(downlink := DownlinkFrames.TableStep(s.downlink, inner)))
  {
    var s' := s.(downlink := DownlinkFrames.TableStep(s.downlink, inner));
    forall t | t in s'.tasks ensures TaskOk(cfg, s', t) {
      assert TaskOk(cfg, s, t);
      assert forall x :: Holds(s, t, x) <==> Holds(s', t, x);
    }
    forall i | 0 <= i < MAX_UES ensures SlotOk(cfg, s', i) { assert SlotOk(cfg, s, i); }
  }

  /** Every step of every task, in any interleaving, keeps the invariant. */
  lemma StepKeepsInv(cfg: Config, s: State, step: Step)
    requires Inv(cfg, s) && Enabled(s, step)
    ensures Inv(cfg, Next(cfg, s, step))
  {
    match step
    case Spawn(t, u) => SpawnKeeps(cfg, s, t, u);
    case Receive(t, rand) => ReceiveKeeps(cfg, s, t, rand);
    case Fail(t) => FailKeeps(cfg, s, t);
    case TakeSlot(t, id, top) => TakeSlotKeeps(cfg, s, t, id, top);
    case AddUplinkRule(t) => AddUplinkKeeps(cfg, s, t);
    case AddDownlinkRule(t) => AddDownlinkKeeps(cfg, s, t);
    case Record(t) => RecordKeeps(cfg, s, t);
    case RemoveDownlinkRule(t) => RemoveDownlinkKeeps(cfg, s, t);
    case RemoveUplinkRule(t) => RemoveUplinkKeeps(cfg, s, t);
    case DownlinkPacket(inner) => PacketKeeps(cfg, s, inner);
    case Dispatch(u, pdu) => DispatchKeeps(cfg, s, u, pdu);
    case ClearChannels => ClearKeeps(cfg, s);
    case ReceiveError(t) => ReceiveErrorKeeps(cfg, s, t);
    case ContextSetup(t, tunnel) => ContextSetupKeeps(cfg, s, t, tunnel);
    case ReleaseReply(t) => ReleaseKeeps(cfg, s, t);
    case DeleteChannel(t) => DeleteChannelKeeps(cfg, s, t, s.senders - {s.tasks[t].ueId});
  }

  /** The invariant holds throughout every run. */
  lemma {:induction false} RunKeepsInv(cfg: Config, states: seq<State>, steps: seq<Step>, n: nat)
    requires Run(cfg, states, steps) && n < |states|
    ensures Inv(cfg, states[n])
  {
    if n == 0 {
      InitInv(cfg);
    } else {
      RunKeepsInv(cfg, states, steps, n - 1);
      assert Linked(cfg, states, steps, n - 1);
      StepKeepsInv(cfg, states[n - 1], steps[n - 1]);
    }
  }
}
