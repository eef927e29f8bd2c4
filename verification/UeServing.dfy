/**
 The serving loop of a UE task: where each uplink message takes it, and what a release or a
 deregistration means for the rest of the run.
 */
module UeServing {
  import opened Bytes
  import opened SlotTable
  import opened Userplane
  import opened UeSystem
  import opened UeInvariant
  import opened UeSteps
  import opened UeTheorems
  import opened UeOwnership
  import opened UeDrain

  // ---- Uplink messages by what they carry ----

  /** An RRC transfer of a NAS message that decodes, after the patch of its inner header, to nas. */
  ghost predicate CarriesNas(cfg: Config, pdu: Pdu, nas: Nas) {
    exists bytes ::
      DcchOf(cfg, pdu) == Some(InformationTransfer(Some(bytes))) && cfg.decodeNas(PatchInnerHeader(bytes)) == Some(nas)
  }

  ghost predicate RequestsSession(cfg: Config, pdu: Pdu) {
    exists payload :: CarriesNas(cfg, pdu, UlNasTransport(payload)) && cfg.decodeGsm(payload) == Some(EstablishmentRequest)
  }

  ghost predicate Deregisters(cfg: Config, pdu: Pdu) {
    CarriesNas(cfg, pdu, DeregistrationRequest)
  }

  /** The context is to go, by the wish of the UE or of the DU. */
  ghost predicate Releases(cfg: Config, pdu: Pdu) {
    pdu == ReleaseRequest || Deregisters(cfg, pdu)
  }

  /** Well-formed NAS of another kind, which the procedure only logs. */
  ghost predicate CarriesOther(cfg: Config, pdu: Pdu) {
    || (exists payload :: CarriesNas(cfg, pdu, UlNasTransport(payload)) && cfg.decodeGsm(payload) == Some(OtherGsm))
    || (exists nas :: CarriesNas(cfg, pdu, nas) && !nas.UlNasTransport? && !nas.DeregistrationRequest?)
  }

  /** The four ways on from the serving loop, each exactly on its own messages. */
  lemma IdleExact(cfg: Config, pdu: Pdu)
    ensures OnIdle(cfg, pdu) == NeedSlot <==> RequestsSession(cfg, pdu)
    ensures OnIdle(cfg, pdu) == AwaitRelease <==> Releases(cfg, pdu)
    ensures OnIdle(cfg, pdu) == Idle <==> CarriesOther(cfg, pdu)
    ensures OnIdle(cfg, pdu) == Destroying
       <==> !RequestsSession(cfg, pdu) && !Releases(cfg, pdu) && !CarriesOther(cfg, pdu)
  {
    match DcchOf(cfg, pdu)
    case Some(InformationTransfer(Some(bytes))) =>
      assert forall nas :: CarriesNas(cfg, pdu, nas) <==> cfg.decodeNas(PatchInnerHeader(bytes)) == Some(nas);
    case _ =>
  }

  /** A reconfiguration is over with its completion, and any other message ends the UE task. */
  lemma ReconfigurationExact(cfg: Config, k: Task, pdu: Pdu)
    requires k.pc.AwaitReconfiguration?
    ensures OnMessage(cfg, k, pdu) == (if DcchOf(cfg, pdu) == Some(ReconfigurationComplete) then Idle else Destroying)
  {
  }

  /** The patch: in a protected message the security header type of the inner message is cleared. */
  lemma PatchProtected(mac: seq<byte>, sn: byte, inner: seq<byte>)
    requires |mac| == 4 && |inner| >= 2
    ensures PatchInnerHeader([0x7e, 2] + mac + [sn] + inner) == [0x7e, 2] + mac + [sn] + [inner[0], 0] + inner[2..]
  {
    var nas, r := [0x7e, 2] + mac + [sn] + inner, [0x7e, 2] + mac + [sn] + [inner[0], 0] + inner[2..];
    var p := PatchInnerHeader(nas);
    assert nas[0] == 0x7e && nas[1] == 2 && |nas| == 7 + |inner|;
    assert p == nas[8 := 0];
    assert forall i | 0 <= i < |nas| :: r[i] == if i == 8 then 0 else nas[i];
  }

  /** And nothing else is changed by it. */
  lemma PatchedIff(nas: seq<byte>)
    ensures PatchInnerHeader(nas) != nas <==> |nas| >= 9 && nas[0] == 0x7e && nas[1] == 2 && nas[8] != 0
  {
    if |nas| >= 9 && nas[8] != 0 && nas[0] == 0x7e && nas[1] == 2 {
      assert PatchInnerHeader(nas)[8] == 0;
    }
  }

  // ---- Failures ----

  /** A failure or a closed channel ends the UE task, except while RRC security is activated. */
  lemma FailureEndsTask(cfg: Config, s: State, step: Step)
    requires Enabled(s, step) && (step.Fail? || step.ReceiveError?)
    ensures var pc, pc' := s.tasks[step.t].pc, Next(cfg, s, step).tasks[step.t].pc;
      && (pc.AwaitRrcSecurity? ==> pc'.AwaitRegistrationComplete?)
      && (pc.AwaitFirst? ==> pc'.Done?)
      && (!pc.AwaitRrcSecurity? && !pc.AwaitFirst? ==> pc'.Destroying?)
  {
  }

  /** A pool answer beyond the table ends the UE task too; any other starts a session of that number. */
  lemma PoolAnswer(cfg: Config, s: State, t: nat, id: nat, top: (byte, byte, byte))
    requires Enabled(s, TakeSlot(t, id, top))
    ensures var pc' := Next(cfg, s, TakeSlot(t, id, top)).tasks[t].pc;
      if id >= 254 then pc'.Destroying? else pc' == NeedUplinkRule(MakeSession(cfg.subnet, id, top))
  {
  }

  /** What becomes of the RRC security exchange makes no difference to the UE task. */
  lemma RrcSecurityResultDiscarded(cfg: Config, s: State, step: Step, t: nat)
    requires Enabled(s, step) && Own(step, t) && s.tasks[t].pc.AwaitRrcSecurity?
    ensures t in Next(cfg, s, step).tasks && Next(cfg, s, step).tasks[t].pc == AwaitRegistrationComplete
  {
  }

  // ---- After a release ----

  /** Positions a task does not come back from. */
  ghost predicate Leaving(pc: Pc) {
    pc.AwaitRelease? || pc.Destroying? || pc.DestroyingUplink? || pc.Done?
  }

  /** The steps by which a task takes up work: messages, slots, rules, sessions. */
  ghost predicate TakesUp(step: Step) {
    step.Receive? || step.TakeSlot? || step.AddUplinkRule? || step.AddDownlinkRule? || step.Record?
  }

  lemma LeavingStep(cfg: Config, s: State, step: Step, t: nat)
    requires Enabled(s, step) && t in s.tasks && Leaving(s.tasks[t].pc)
    ensures t in Next(cfg, s, step).tasks && Leaving(Next(cfg, s, step).tasks[t].pc)
    ensures Next(cfg, s, step).tasks[t].received == s.tasks[t].received
    ensures Own(step, t) ==> !TakesUp(step)
  {
    if !Own(step, t) && !step.Dispatch? {
      OthersLeaveIt(cfg, s, step, t);
    }
  }

  lemma {:induction false} LeavingStays(cfg: Config, states: seq<State>, steps: seq<Step>, m: nat, n: nat, t: nat)
    requires Run(cfg, states, steps) && m <= n <= |steps| && t in states[m].tasks && Leaving(states[m].tasks[t].pc)
    ensures t in states[n].tasks && Leaving(states[n].tasks[t].pc)
    ensures states[n].tasks[t].received == states[m].tasks[t].received
    ensures forall j | m <= j < n && Own(steps[j], t) :: !TakesUp(steps[j])
    decreases n
  {
    if m < n {
      LeavingStays(cfg, states, steps, m, n - 1, t);
      assert Linked(cfg, states, steps, n - 1);
      LeavingStep(cfg, states[n - 1], steps[n - 1], t);
    }
  }

  /** The fate of a session once it is recorded: it goes on being recorded there, or is deleted. */
  ghost predicate KeptOrDeleted(s: State, t: nat, x: Session) {
    && t in s.tasks && Slot(x.teid) in s.grants
    && s.grants[Slot(x.teid)].task == t && s.grants[Slot(x.teid)].session == x
    && !s.grants[Slot(x.teid)].fate.Abandoned?
    && (s.grants[Slot(x.teid)].fate.Held? ==> Recorded(s.tasks[t], x))
  }

  /** Only the drain takes a session out of a context, and it takes the first. */
  lemma SessionsStep(cfg: Config, s: State, step: Step, t: nat)
    requires Enabled(s, step) && t in s.tasks
    ensures t in Next(cfg, s, step).tasks
    ensures step == RemoveUplinkRule(t) ==> Next(cfg, s, step).tasks[t].sessions == s.tasks[t].sessions[1..]
    ensures step != RemoveUplinkRule(t) ==> s.tasks[t].sessions <= Next(cfg, s, step).tasks[t].sessions
  {
    if Own(step, t) {
      OwnStepWorks(cfg, s, step, t);
    } else if !step.Dispatch? {
      OthersLeaveIt(cfg, s, step, t);
    }
  }

  /** The session an establishment loses is not one that is recorded. */
  lemma LosesOther(cfg: Config, s: State, step: Step, t: nat, x: Session)
    requires Inv(cfg, s) && Enabled(s, step) && KeptOrDeleted(s, t, x)
    ensures x !in Loses(s, step)
  {
    if step.Fail? {
      assert TaskOk(cfg, s, step.t) && TaskOk(cfg, s, t);
    }
  }

  lemma StillRecorded(cfg: Config, s: State, step: Step, t: nat, x: Session)
    requires Inv(cfg, s) && Enabled(s, step) && KeptOrDeleted(s, t, x)
    requires var s' := Next(cfg, s, step); Slot(x.teid) in s'.grants && s'.grants[Slot(x.teid)].fate.Held?
    requires s.grants[Slot(x.teid)].fate.Held?
    ensures t in Next(cfg, s, step).tasks && Recorded(Next(cfg, s, step).tasks[t], x)
  {
    SessionsStep(cfg, s, step, t);
    if step == RemoveUplinkRule(t) {
      assert x != s.tasks[t].sessions[0];
      assert s.tasks[t].sessions == [s.tasks[t].sessions[0]] + s.tasks[t].sessions[1..];
    }
  }

  lemma KeptOrDeletedStep(cfg: Config, s: State, step: Step, t: nat, x: Session)
    requires Inv(cfg, s) && Enabled(s, step) && KeptOrDeleted(s, t, x)
    ensures KeptOrDeleted(Next(cfg, s, step), t, x)
  {
    var s', i := Next(cfg, s, step), Slot(x.teid);
    GrantStep(cfg, s, step);
    assert SameGrant(s.grants[i], s'.grants[i]);
    SessionsStep(cfg, s, step, t);
    StepKeepsInv(cfg, s, step);
    AbandonStep(cfg, s, step);
    LosesOther(cfg, s, step, t, x);
    AbandonedIffFate(cfg, s, i);
    AbandonedIffFate(cfg, s', i);
    if s'.grants[i].fate.Held? {
      StillRecorded(cfg, s, step, t, x);
    }
  }

  lemma {:induction false} RecordedIsKeptOrDeleted(cfg: Config, states: seq<State>, steps: seq<Step>, m: nat, n: nat, t: nat, x: Session)
    requires Run(cfg, states, steps) && m <= n <= |steps| && t in states[m].tasks && Recorded(states[m].tasks[t], x)
    ensures KeptOrDeleted(states[n], t, x)
    decreases n
  {
    if m == n {
      RunKeepsInv(cfg, states, steps, m);
      assert TaskOk(cfg, states[m], t) && Holds(states[m], t, x);
    } else {
      RecordedIsKeptOrDeleted(cfg, states, steps, m, n - 1, t, x);
      RunKeepsInv(cfg, states, steps, n - 1);
      assert Linked(cfg, states, steps, n - 1);
      KeptOrDeletedStep(cfg, states[n - 1], steps[n - 1], t, x);
    }
  }

  /** A session once recorded in a context leaves no rule behind when its task is done. */
  lemma RecordedLeavesNoRule(cfg: Config, states: seq<State>, steps: seq<Step>, m: nat, n: nat, t: nat, x: Session)
    requires Run(cfg, states, steps) && m <= n <= |steps| && t in states[m].tasks && Recorded(states[m].tasks[t], x)
    requires t in states[n].tasks && states[n].tasks[t].pc.Done?
    ensures |states[n].uplink| == |states[n].downlink| == 254 && x.teid.d == x.ip.d < 254
    ensures states[n].uplink[x.teid.d].None? && states[n].downlink[x.ip.d].None?
  {
    RecordedIsKeptOrDeleted(cfg, states, steps, m, n, t, x);
    RunKeepsInv(cfg, states, steps, n);
    var i := Slot(x.teid);
    assert SlotOk(cfg, states[n], i) && TaskOk(cfg, states[n], t);
  }

  /**
   A task that is told to release its UE, by the UE's deregistration or by the DU, waits for the DU
   to confirm; from then on it receives nothing, takes no slot and installs no rule, and when it is
   done none of the sessions it had has a rule.
   */
  lemma ReleaseIsFinal(cfg: Config, states: seq<State>, steps: seq<Step>, m: nat, n: nat, t: nat)
    requires Run(cfg, states, steps) && m < n <= |steps| && steps[m].Receive? && steps[m].t == t
    requires t in states[m].tasks && states[m].tasks[t].pc.Idle? && states[m].tasks[t].queue != []
    requires Releases(cfg, states[m].tasks[t].queue[0])
    ensures t in states[m + 1].tasks && states[m + 1].tasks[t].pc.AwaitRelease?
    ensures t in states[n].tasks && Leaving(states[n].tasks[t].pc)
    ensures states[n].tasks[t].received == states[m + 1].tasks[t].received
    ensures forall j | m < j < n && Own(steps[j], t) :: !TakesUp(steps[j])
    ensures states[n].tasks[t].pc.Done? ==>
      |states[n].uplink| == |states[n].downlink| == 254 && forall x | x in states[m].tasks[t].sessions ::
        x.teid.d == x.ip.d < 254 && states[n].uplink[x.teid.d].None? && states[n].downlink[x.ip.d].None?
  {
    assert Linked(cfg, states, steps, m);
    IdleExact(cfg, states[m].tasks[t].queue[0]);
    assert states[m + 1] == Received(cfg, states[m], t, steps[m].rand);
    LeavingStays(cfg, states, steps, m + 1, n, t);
    if states[n].tasks[t].pc.Done? {
      RunKeepsInv(cfg, states, steps, n);
      forall x | x in states[m].tasks[t].sessions
        ensures x.teid.d == x.ip.d < 254 && states[n].uplink[x.teid.d].None? && states[n].downlink[x.ip.d].None?
      {
        RecordedLeavesNoRule(cfg, states, steps, m, n, t, x);
      }
    }
  }

  /** What a leaving task does next, the DU's confirmation given. */
  lemma LeavesOn(cfg: Config, s: State, t: nat) returns (step: Step)
    requires Inv(cfg, s) && t in s.tasks && Leaving(s.tasks[t].pc) && !s.tasks[t].pc.Done?
    ensures Enabled(s, step) && Own(step, t) && !step.Fail?
  {
    assert TaskOk(cfg, s, t);
    var k := s.tasks[t];
    step :=
      match k.pc
      case AwaitRelease => ReleaseReply(t)
      case Destroying => if k.sessions == [] then DeleteChannel(t) else RemoveDownlinkRule(t)
      case _ => RemoveUplinkRule(t);
  }

  /** So a released UE's task gets to its end by itself, whatever its channel still holds. */
  lemma {:induction false} LeavingFinishes(cfg: Config, s: State, t: nat) returns (states: seq<State>, steps: seq<Step>)
    requires Inv(cfg, s) && t in s.tasks && Leaving(s.tasks[t].pc)
    ensures RunsAlone(cfg, states, steps, t) && states[0] == s && |steps| <= Work(s.tasks[t])
    ensures t in states[|steps|].tasks && states[|steps|].tasks[t].pc.Done?
    decreases Work(s.tasks[t])
  {
    if s.tasks[t].pc.Done? {
      return [s], [];
    }
    var step := LeavesOn(cfg, s, t);
    OwnStepWorks(cfg, s, step, t);
    LeavingStep(cfg, s, step, t);
    StepKeepsInv(cfg, s, step);
    var rest, more := LeavingFinishes(cfg, Next(cfg, s, step), t);
    StepFirst(cfg, s, step, rest, more, t);
    states, steps := [s] + rest, [step] + more;
  }
}
