/** What every step of every interleaving of UE tasks keeps. */
module UeInvariant {
  import opened Bytes
  import opened SlotTable
  import opened Userplane
  import opened UeSystem
  import Plmn

  // ---- What a task must have received before it may touch the user plane ----

  ghost predicate Registers(cfg: Config, pdu: Pdu, imsi: string) {
    exists nas, identity ::
      && DcchOf(cfg, pdu) == Some(SetupComplete(nas))
      && cfg.decodeNas(nas) == Some(RegistrationRequest(true, identity))
      && Plmn.Parse(identity) == Some(Plmn.Identity(imsi, cfg.plmn))
      && imsi in cfg.sims
  }

  ghost predicate Answers(cfg: Config, pdu: Pdu, imsi: string, challenge: seq<byte>) {
    exists res ::
      && NasOf(cfg, pdu) == Some(AuthenticationResponse(Some(res)))
      && (cfg.skipAuthenticationCheck || (imsi in cfg.sims && res == cfg.xresStar(cfg.sims[imsi], challenge)))
  }

  ghost predicate Began(received: seq<Pdu>) {
    |received| >= 1 && received[0] == InitialUlRrc(true, true)
  }

  ghost predicate Registered(cfg: Config, received: seq<Pdu>, imsi: string) {
    Began(received) && |received| >= 2 && Registers(cfg, received[1], imsi)
  }

  ghost predicate Proved(cfg: Config, received: seq<Pdu>, challenge: seq<byte>) {
    |received| >= 3 && exists imsi :: Registered(cfg, received, imsi) && Answers(cfg, received[2], imsi, challenge)
  }

  ghost predicate SecurityModeDone(cfg: Config, pdu: Pdu) {
    exists container ::
      && NasOf(cfg, pdu) == Some(SecurityModeComplete(container))
      && (container.Some? ==>
            cfg.decodeNas(container.value).Some? && cfg.decodeNas(container.value).value.RegistrationRequest?)
  }

  ghost predicate Secured(cfg: Config, received: seq<Pdu>, challenge: seq<byte>) {
    && Proved(cfg, received, challenge)
    && |received| >= 4
    && SecurityModeDone(cfg, received[3])
  }

  /** Initial access finished well: registration, proof of identity, security mode, completion. */
  ghost predicate Authenticated(cfg: Config, received: seq<Pdu>, challenge: seq<byte>) {
    && Secured(cfg, received, challenge)
    && exists i :: 4 <= i <= 5 && i < |received| && NasOf(cfg, received[i]) == Some(RegistrationComplete)
  }

  ghost predicate TaskAuthenticated(cfg: Config, k: Task) {
    Authenticated(cfg, k.received, k.challenge)
  }

  // ---- The invariant ----

  ghost predicate StageOk(cfg: Config, k: Task) {
    match k.pc
    case AwaitFirst => k.received == []
    case AwaitSetupComplete => |k.received| == 1 && Began(k.received)
    case AwaitAuthentication(imsi) => |k.received| == 2 && Registered(cfg, k.received, imsi)
    case AwaitSecurityMode => |k.received| == 3 && Proved(cfg, k.received, k.challenge)
    case AwaitRrcSecurity => |k.received| == 4 && Secured(cfg, k.received, k.challenge)
    case AwaitRegistrationComplete => 4 <= |k.received| <= 5 && Secured(cfg, k.received, k.challenge)
    case Destroying => true
    case DestroyingUplink => k.sessions != []
    case Done => k.sessions == []
    case _ => TaskAuthenticated(cfg, k)
  }

  ghost predicate Holds(s: State, t: nat, x: Session) {
    Slot(x.teid) in s.grants && s.grants[Slot(x.teid)] == Grant(t, x, Held)
  }

  ghost predicate Distinct(xs: seq<Session>) {
    forall i, j | 0 <= i < j < |xs| :: xs[i] != xs[j]
  }

  ghost predicate TaskOk(cfg: Config, s: State, t: nat)
    requires t in s.tasks
  {
    var k := s.tasks[t];
    && StageOk(cfg, k)
    && (forall x | x in k.sessions :: Holds(s, t, x))
    && Distinct(k.sessions)
    && (InFlight(k.pc).Some? ==> Holds(s, t, InFlight(k.pc).value) && InFlight(k.pc).value !in k.sessions)
  }

  ghost predicate Recorded(k: Task, x: Session) {
    x in k.sessions
  }

  ghost predicate UplinkDue(k: Task, g: Grant) {
    g.fate.Abandoned? || (g.fate.Held? && k.pc != NeedUplinkRule(g.session))
  }

  ghost predicate DownlinkDue(k: Task, g: Grant) {
    && g.fate.Held?
    && (k.pc == NeedRecord(g.session) || (Recorded(k, g.session) && !(k.pc.DestroyingUplink? && k.sessions[0] == g.session)))
  }

  ghost predicate GrantOk(cfg: Config, s: State, i: nat)
    requires i in s.grants && i < MAX_UES
  {
    var g := s.grants[i];
    && 1 <= i && i in s.pool
    && Slot(g.session.teid) == i && InSubnet(cfg.subnet, i, g.session.ip)
    && g.task in s.tasks
    && TaskAuthenticated(cfg, s.tasks[g.task])
    && (g.fate.Held? ==> InFlight(s.tasks[g.task].pc) == Some(g.session) || Recorded(s.tasks[g.task], g.session))
    && (s.tasks[g.task].pc.DestroyingUplink? ==> s.tasks[g.task].sessions != [])
  }

  ghost predicate SlotOk(cfg: Config, s: State, i: nat)
    requires i < MAX_UES && |s.uplink| == |s.downlink| == MAX_UES
  {
    if i !in s.grants then s.uplink[i].None? && s.downlink[i].None?
    else
      var g := s.grants[i];
      && GrantOk(cfg, s, i)
      && s.uplink[i] == (if UplinkDue(s.tasks[g.task], g) then Some(Entry(g.session.teid, ())) else None)
      && (s.downlink[i].Some? <==> DownlinkDue(s.tasks[g.task], g))
      && (s.downlink[i].Some? ==> s.downlink[i].value.key == g.session.ip)
  }

  ghost predicate Inv(cfg: Config, s: State) {
    && |s.uplink| == |s.downlink| == MAX_UES
    && 0 in s.pool
    && (forall i | i in s.grants :: i < MAX_UES)
    && (forall t | t in s.tasks :: TaskOk(cfg, s, t))
    && (forall i | 0 <= i < MAX_UES :: SlotOk(cfg, s, i))
    && (forall u | u in s.senders :: s.senders[u] in s.tasks)
  }

  lemma InitInv(cfg: Config)
    ensures Inv(cfg, Init())
  {
  }

  // ---- Receiving keeps the stage, and never loses an authentication ----

  lemma AppendKeeps(cfg: Config, r: seq<Pdu>, p: Pdu, c: seq<byte>)
    ensures forall imsi :: Registered(cfg, r, imsi) ==> Registered(cfg, r + [p], imsi)
    ensures Proved(cfg, r, c) ==> Proved(cfg, r + [p], c)
    ensures Secured(cfg, r, c) ==> Secured(cfg, r + [p], c)
    ensures Authenticated(cfg, r, c) ==> Authenticated(cfg, r + [p], c)
  {
    var q := r + [p];
    assert forall i | 0 <= i < |r| :: q[i] == r[i];
    if Authenticated(cfg, r, c) {
      var i :| 4 <= i <= 5 && i < |r| && NasOf(cfg, r[i]) == Some(RegistrationComplete);
      assert NasOf(cfg, q[i]) == Some(RegistrationComplete);
    }
  }

  lemma RegistrationStage(cfg: Config, nas: seq<byte>, pdu: Pdu)
    requires DcchOf(cfg, pdu) == Some(SetupComplete(nas))
    ensures var pc := OnRegistration(cfg, cfg.decodeNas(nas));
      pc == Destroying || (pc.AwaitAuthentication? && Registers(cfg, pdu, pc.imsi))
  {
  }

  lemma EarlyStage(cfg: Config, k: Task, pdu: Pdu, k': Task)
    requires StageOk(cfg, k) && Receives(k.pc) && (k.pc.AwaitFirst? || k.pc.AwaitSetupComplete?)
    requires k'.received == k.received + [pdu] && k'.pc == OnMessage(cfg, k, pdu)
    requires k'.challenge == k.challenge || k.pc.AwaitSetupComplete?
    requires k.sessions == [] || !k.pc.AwaitFirst?
    requires k'.sessions == k.sessions
    ensures StageOk(cfg, k')
    ensures TaskAuthenticated(cfg, k) ==> TaskAuthenticated(cfg, k')
    ensures InFlight(k'.pc).None? && !k'.pc.DestroyingUplink? && !k'.pc.NeedRecord?
  {
    AppendKeeps(cfg, k.received, pdu, k.challenge);
    var q := k'.received;
    assert q[|k.received|] == pdu;
    if k.pc.AwaitSetupComplete? {
      match DcchOf(cfg, pdu)
      case Some(SetupComplete(nas)) => RegistrationStage(cfg, nas, pdu);
      case _ =>
    }
  }

  lemma AuthenticationStage(cfg: Config, k: Task, pdu: Pdu, k': Task)
    requires StageOk(cfg, k) && Receives(k.pc) && (k.pc.AwaitAuthentication? || k.pc.AwaitSecurityMode?)
    requires k'.received == k.received + [pdu] && k'.pc == OnMessage(cfg, k, pdu)
    requires k'.challenge == k.challenge && k'.sessions == k.sessions
    ensures StageOk(cfg, k')
    ensures TaskAuthenticated(cfg, k) ==> TaskAuthenticated(cfg, k')
    ensures InFlight(k'.pc).None? && !k'.pc.DestroyingUplink? && !k'.pc.NeedRecord?
  {
    AppendKeeps(cfg, k.received, pdu, k.challenge);
    assert k'.received[|k.received|] == pdu;
  }

  lemma CompletionStage(cfg: Config, k: Task, pdu: Pdu, k': Task)
    requires StageOk(cfg, k) && Receives(k.pc) && (k.pc.AwaitRrcSecurity? || k.pc.AwaitRegistrationComplete?)
    requires k'.received == k.received + [pdu] && k'.pc == OnMessage(cfg, k, pdu)
    requires k'.challenge == k.challenge && k'.sessions == k.sessions
    ensures StageOk(cfg, k')
    ensures TaskAuthenticated(cfg, k) ==> TaskAuthenticated(cfg, k')
    ensures InFlight(k'.pc).None? && !k'.pc.DestroyingUplink? && !k'.pc.NeedRecord?
  {
    AppendKeeps(cfg, k.received, pdu, k.challenge);
    assert k'.received[|k.received|] == pdu;
  }

  lemma ServingStage(cfg: Config, k: Task, pdu: Pdu, k': Task)
    requires StageOk(cfg, k) && Receives(k.pc) && (k.pc.Idle? || k.pc.AwaitReconfiguration?)
    requires k'.received == k.received + [pdu] && k'.pc == OnMessage(cfg, k, pdu)
    requires k'.challenge == k.challenge && k'.sessions == k.sessions
    ensures StageOk(cfg, k')
    ensures TaskAuthenticated(cfg, k) ==> TaskAuthenticated(cfg, k')
    ensures InFlight(k'.pc).None? && !k'.pc.DestroyingUplink? && !k'.pc.NeedRecord?
  {
    AppendKeeps(cfg, k.received, pdu, k.challenge);
    assert k'.received[|k.received|] == pdu;
  }

  lemma ReceiveStage(cfg: Config, k: Task, pdu: Pdu, k': Task)
    requires StageOk(cfg, k) && Receives(k.pc)
    requires k'.received == k.received + [pdu] && k'.pc == OnMessage(cfg, k, pdu)
    requires k'.challenge == k.challenge || k.pc.AwaitSetupComplete?
    requires k.sessions == [] || !k.pc.AwaitFirst?
    requires k'.sessions == k.sessions
    ensures StageOk(cfg, k')
    ensures TaskAuthenticated(cfg, k) ==> TaskAuthenticated(cfg, k')
    ensures InFlight(k'.pc).None? && !k'.pc.DestroyingUplink? && !k'.pc.NeedRecord?
  {
    if k.pc.AwaitFirst? || k.pc.AwaitSetupComplete? {
      EarlyStage(cfg, k, pdu, k');
    } else if k.pc.AwaitAuthentication? || k.pc.AwaitSecurityMode? {
      AuthenticationStage(cfg, k, pdu, k');
    } else if k.pc.AwaitRrcSecurity? || k.pc.AwaitRegistrationComplete? {
      CompletionStage(cfg, k, pdu, k');
    } else {
      ServingStage(cfg, k, pdu, k');
    }
  }

  // ---- Steps that change no rule and no holding ----

  ghost predicate SameShape(k: Task, k': Task) {
    && k'.sessions == k.sessions
    && InFlight(k'.pc) == InFlight(k.pc)
    && (k'.pc.NeedUplinkRule? <==> k.pc.NeedUplinkRule?)
    && (k'.pc.NeedRecord? <==> k.pc.NeedRecord?)
    && (k'.pc.DestroyingUplink? <==> k.pc.DestroyingUplink?)
  }

  ghost predicate SendersOk(s: State) {
    forall u | u in s.senders :: s.senders[u] in s.tasks
  }

  /** One task changes, keeping its shape; rules, holdings and other tasks do not. */
  ghost predicate Control(cfg: Config, s: State, s': State, t: nat) {
    && t in s.tasks && t in s'.tasks
    && SameShape(s.tasks[t], s'.tasks[t]) && StageOk(cfg, s'.tasks[t])
    && (TaskAuthenticated(cfg, s.tasks[t]) ==> TaskAuthenticated(cfg, s'.tasks[t]))
    && s'.tasks == s.tasks[t := s'.tasks[t]] && SendersOk(s')
    && s'.uplink == s.uplink && s'.downlink == s.downlink && s'.grants == s.grants && s.pool <= s'.pool
  }

  lemma ControlKeepsTask(cfg: Config, s: State, s': State, t: nat, u: nat)
    requires Control(cfg, s, s', t) && u in s.tasks && TaskOk(cfg, s, u)
    ensures TaskOk(cfg, s', u)
  {
    assert forall x :: Holds(s, u, x) <==> Holds(s', u, x);
  }

  lemma ControlKeepsSlot(cfg: Config, s: State, s': State, t: nat, i: nat)
    requires i < MAX_UES && |s.uplink| == |s.downlink| == MAX_UES
    requires Control(cfg, s, s', t) && SlotOk(cfg, s, i)
    ensures SlotOk(cfg, s', i)
  {
  }

  lemma ControlKeepsInv(cfg: Config, s: State, s': State, t: nat)
    requires Inv(cfg, s) && Control(cfg, s, s', t)
    ensures Inv(cfg, s')
  {
    forall u | u in s'.tasks ensures TaskOk(cfg, s', u) { ControlKeepsTask(cfg, s, s', t, u); }
    forall i | 0 <= i < MAX_UES ensures SlotOk(cfg, s', i) { ControlKeepsSlot(cfg, s, s', t, i); }
  }

  // ---- Steps that change one slot ----

  /** Slots and tasks away from (t, i) are not concerned by a step of t on slot i. */
  ghost predicate OnlyTouches(s: State, s': State, t: nat, i: nat)
    requires |s.uplink| == |s.downlink| == MAX_UES
  {
    && t in s.tasks && t in s'.tasks && s'.tasks == s.tasks[t := s'.tasks[t]]
    && s.pool <= s'.pool && SendersOk(s')
    && |s'.uplink| == |s'.downlink| == MAX_UES
    && i in s'.grants && (forall j | j in s'.grants :: j == i || (j in s.grants && s'.grants[j] == s.grants[j]))
    && (forall j | j in s.grants :: j in s'.grants)
    && (forall j | 0 <= j < MAX_UES && j != i :: s'.uplink[j] == s.uplink[j] && s'.downlink[j] == s.downlink[j])
    && s'.tasks[t].received == s.tasks[t].received && s'.tasks[t].challenge == s.tasks[t].challenge
  }

  /** Every session but that of slot i stands with the UE task as before. */
  ghost predicate OthersStand(s: State, s': State, t: nat, i: nat)
    requires t in s.tasks && t in s'.tasks
  {
    var k, k' := s.tasks[t], s'.tasks[t];
    forall x: Session | Slot(x.teid) != i ::
      && (x in k.sessions <==> x in k'.sessions)
      && InFlight(k.pc) != Some(x) && InFlight(k'.pc) != Some(x)
      && !(k.pc.DestroyingUplink? && k.sessions != [] && k.sessions[0] == x)
      && !(k'.pc.DestroyingUplink? && k'.sessions != [] && k'.sessions[0] == x)
  }

  lemma TouchKeepsTask(cfg: Config, s: State, s': State, t: nat, i: nat, u: nat)
    requires |s.uplink| == |s.downlink| == MAX_UES && OnlyTouches(s, s', t, i)
    requires u in s.tasks && u != t && TaskOk(cfg, s, u)
    requires i in s.grants ==> s.grants[i].task == t
    ensures TaskOk(cfg, s', u)
  {
    assert forall x :: Holds(s, u, x) ==> Holds(s', u, x);
  }

  lemma TouchKeepsSlot(cfg: Config, s: State, s': State, t: nat, i: nat, j: nat)
    requires |s.uplink| == |s.downlink| == MAX_UES && OnlyTouches(s, s', t, i) && OthersStand(s, s', t, i)
    requires j < MAX_UES && j != i && SlotOk(cfg, s, j)
    requires StageOk(cfg, s'.tasks[t])
    ensures SlotOk(cfg, s', j)
  {
  }

  lemma TouchKeepsInv(cfg: Config, s: State, s': State, t: nat, i: nat)
    requires Inv(cfg, s) && i < MAX_UES && OnlyTouches(s, s', t, i) && OthersStand(s, s', t, i)
    requires i in s.grants ==> s.grants[i].task == t
    requires TaskOk(cfg, s', t) && SlotOk(cfg, s', i)
    ensures Inv(cfg, s')
  {
    forall u | u in s'.tasks ensures TaskOk(cfg, s', u) {
      if u != t {
        TouchKeepsTask(cfg, s, s', t, i, u);
      }
    }
    forall j | 0 <= j < MAX_UES ensures SlotOk(cfg, s', j) {
      if j != i {
        TouchKeepsSlot(cfg, s, s', t, i, j);
      }
    }
  }
}
