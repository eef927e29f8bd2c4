/**
 The UE tasks of QCore as a step system. One task per UE owns its context and receives from one
 channel: initial access, then a loop of procedures, then the drain of its sessions. A step is one
 channel operation, one reply, one failure at a `?`, or one critical section on the slot pool or on
 a forwarding table, so that runs are all interleavings at lock granularity. What the DU, the UE
 and the random source do is chosen freely in the step labels.
 */
module UeSystem {
  import opened Bytes
  import opened SlotTable
  import opened Userplane
  import Plmn
  import Pdcp
  import DownlinkFrames

  // ---- Messages, as far as the procedures look into them ----

  datatype Pdu =
    | InitialUlRrc(duContainer: bool, setupRequest: bool)
    | UlRrc(container: seq<byte>)
    | ReleaseRequest
    | OtherPdu

  datatype Dcch =
    | SetupComplete(nas: seq<byte>)
    | InformationTransfer(dedicatedNas: Option<seq<byte>>)
    | ReconfigurationComplete
    | OtherDcch

  datatype Nas =
    | RegistrationRequest(securityCapability: bool, identity: seq<byte>)
    | AuthenticationResponse(res: Option<seq<byte>>)
    | SecurityModeComplete(container: Option<seq<byte>>)
    | RegistrationComplete
    | UlNasTransport(payload: seq<byte>)
    | DeregistrationRequest
    | OtherNas

  datatype Gsm = EstablishmentRequest | OtherGsm

  datatype Sim = Sim(ki: seq<byte>, opc: seq<byte>)

  /** Configuration, SIM table, and the parsers, codecs and key functions the procedures call. */
  datatype Config = Config(
    plmn: seq<byte>,
    skipAuthenticationCheck: bool,
    subnet: Quad,
    sims: map<string, Sim>,
    xresStar: (Sim, seq<byte>) -> seq<byte>,
    decodeDcch: seq<byte> -> Option<Dcch>,
    decodeNas: seq<byte> -> Option<Nas>,
    decodeGsm: seq<byte> -> Option<Gsm>)

  /** Where a UE task stands. `Need*` is about to enter a critical section, `Await*` is waiting. */
  datatype Pc =
    | AwaitFirst
    | AwaitSetupComplete
    | AwaitAuthentication(imsi: string)
    | AwaitSecurityMode
    | AwaitRrcSecurity
    | AwaitRegistrationComplete
    | Idle
    | NeedSlot
    | NeedUplinkRule(session: Session)
    | AwaitContextSetup(session: Session)
    | NeedDownlinkRule(session: Session, tunnel: Tunnel)
    | NeedRecord(session: Session)
    | AwaitReconfiguration
    | AwaitRelease
    | Destroying
    | DestroyingUplink
    | Done

  /** A UE task: its channel, its context, and the history of what it received. */
  datatype Task = Task(
    ueId: nat,
    queue: seq<Pdu>,
    received: seq<Pdu>,
    challenge: seq<byte>,
    pc: Pc,
    sessions: seq<Session>)

  datatype Fate = Held | Abandoned | Deleted

  /** History of a slot number: which task was given which session, and what became of it. */
  datatype Grant = Grant(task: nat, session: Session, fate: Fate)

  datatype State = State(
    pool: set<nat>,
    uplink: Table<()>,
    downlink: Table<Downlink>,
    tasks: map<nat, Task>,
    senders: map<nat, nat>,
    grants: map<nat, Grant>)

  datatype Step =
    | Spawn(t: nat, ueId: nat)
    | Dispatch(ueId: nat, pdu: Pdu)
    | ClearChannels
    | Receive(t: nat, rand: seq<byte>)
    | ReceiveError(t: nat)
    | Fail(t: nat)
    | TakeSlot(t: nat, id: nat, top: (byte, byte, byte))
    | AddUplinkRule(t: nat)
    | ContextSetup(t: nat, tunnel: Tunnel)
    | AddDownlinkRule(t: nat)
    | Record(t: nat)
    | ReleaseReply(t: nat)
    | RemoveDownlinkRule(t: nat)
    | RemoveUplinkRule(t: nat)
    | DeleteChannel(t: nat)
    | DownlinkPacket(inner: seq<byte>)

  // ---- Decoding what was received ----

  function DcchOf(cfg: Config, pdu: Pdu): (r: Option<Dcch>) {
    if !pdu.UlRrc? then None else
      var inner := Pdcp.ViewInner(pdu.container);
      if inner.None? then None else cfg.decodeDcch(inner.value)
  }

  /** The NAS message that answers a NAS request. */
  function NasOf(cfg: Config, pdu: Pdu): (r: Option<Nas>) {
    match DcchOf(cfg, pdu)
    case Some(InformationTransfer(Some(bytes))) => cfg.decodeNas(bytes)
    case _ => None
  }

  /** Clears the inner security header type of a protected uplink NAS message. */
  function PatchInnerHeader(nas: seq<byte>): (r: seq<byte>)
    ensures |r| == |nas|
  {
    if |nas| >= 9 && nas[0] == 0x7e && nas[1] == 0x02 then nas[8 := 0] else nas
  }

  // ---- Control flow of one task ----

  function OnRegistration(cfg: Config, nas: Option<Nas>): (pc: Pc) {
    match nas
    case Some(RegistrationRequest(capability, identity)) =>
      if !capability then Destroying else (
        match Plmn.Parse(identity)
        case None => Destroying
        case Some(id) =>
          if id.plmn != cfg.plmn || id.imsi !in cfg.sims then Destroying else AwaitAuthentication(id.imsi))
    case _ => Destroying
  }

  function OnAuthentication(cfg: Config, imsi: string, challenge: seq<byte>, nas: Option<Nas>): (pc: Pc) {
    match nas
    case Some(AuthenticationResponse(Some(res))) =>
      if cfg.skipAuthenticationCheck || (imsi in cfg.sims && res == cfg.xresStar(cfg.sims[imsi], challenge))
      then AwaitSecurityMode else Destroying
    case _ => Destroying
  }

  function OnSecurityMode(cfg: Config, nas: Option<Nas>): (pc: Pc) {
    match nas
    case Some(SecurityModeComplete(None)) => AwaitRrcSecurity
    case Some(SecurityModeComplete(Some(bytes))) => (
      match cfg.decodeNas(bytes)
      case Some(RegistrationRequest(_, _)) => AwaitRrcSecurity
      case _ => Destroying)
    case _ => Destroying
  }

  function OnUplinkNas(cfg: Config, bytes: seq<byte>): (pc: Pc) {
    match cfg.decodeNas(PatchInnerHeader(bytes))
    case None => Destroying
    case Some(UlNasTransport(payload)) => (
      match cfg.decodeGsm(payload)
      case None => Destroying
      case Some(EstablishmentRequest) => NeedSlot
      case Some(OtherGsm) => Idle)
    case Some(DeregistrationRequest) => AwaitRelease
    case Some(_) => Idle
  }

  function OnIdle(cfg: Config, pdu: Pdu): (pc: Pc) {
    match pdu
    case UlRrc(_) => (
      match DcchOf(cfg, pdu)
      case Some(InformationTransfer(Some(bytes))) => OnUplinkNas(cfg, bytes)
      case _ => Destroying)
    case ReleaseRequest => AwaitRelease
    case _ => Destroying
  }

  predicate Receives(pc: Pc) {
    || pc.AwaitFirst? || pc.AwaitSetupComplete? || pc.AwaitAuthentication? || pc.AwaitSecurityMode?
    || pc.AwaitRrcSecurity? || pc.AwaitRegistrationComplete? || pc.Idle? || pc.AwaitReconfiguration?
  }

  /** Where the UE task goes on with the message it received. */
  function OnMessage(cfg: Config, k: Task, pdu: Pdu): (pc: Pc)
    requires Receives(k.pc)
  {
    match k.pc
    case AwaitFirst =>
      if !pdu.InitialUlRrc? then Done
      else if pdu.duContainer && pdu.setupRequest then AwaitSetupComplete else Destroying
    case AwaitSetupComplete => (
      match DcchOf(cfg, pdu)
      case Some(SetupComplete(nas)) => OnRegistration(cfg, cfg.decodeNas(nas))
      case _ => Destroying)
    case AwaitAuthentication(imsi) => OnAuthentication(cfg, imsi, k.challenge, NasOf(cfg, pdu))
    case AwaitSecurityMode => OnSecurityMode(cfg, NasOf(cfg, pdu))
    case AwaitRrcSecurity => AwaitRegistrationComplete  // the exchange's result is discarded
    case AwaitRegistrationComplete => if NasOf(cfg, pdu) == Some(RegistrationComplete) then Idle else Destroying
    case Idle => OnIdle(cfg, pdu)
    case AwaitReconfiguration => if DcchOf(cfg, pdu) == Some(ReconfigurationComplete) then Idle else Destroying
  }

  /** Where the UE task goes on when its channel is closed and empty. */
  function OnClosed(pc: Pc): (r: Pc)
    requires Receives(pc)
  {
    match pc
    case AwaitFirst => Done  // no context yet, so nothing to destroy
    case AwaitRrcSecurity => AwaitRegistrationComplete
    case _ => Destroying
  }

  /** The points where building, encoding, sending or an F1AP exchange can fail. */
  predicate CanFail(pc: Pc) {
    || pc.AwaitSetupComplete? || pc.AwaitAuthentication? || pc.AwaitSecurityMode? || pc.AwaitRrcSecurity?
    || pc.AwaitRegistrationComplete? || pc.AwaitContextSetup? || pc.NeedDownlinkRule? || pc.AwaitReconfiguration?
  }

  /** The session a task has reserved and not yet recorded in its context. */
  function InFlight(pc: Pc): (r: Option<Session>) {
    match pc
    case NeedUplinkRule(x) => Some(x)
    case AwaitContextSetup(x) => Some(x)
    case NeedDownlinkRule(x, _) => Some(x)
    case NeedRecord(x) => Some(x)
    case _ => None
  }

  // ---- Steps ----

  function Init(): (s: State) {
    State({0}, Empty(), Empty(), map[], map[], map[])
  }

  /** No sender is left for the channel of t. */
  ghost predicate Closed(s: State, t: nat) {
    forall u | u in s.senders :: s.senders[u] != t
  }

  ghost predicate Enabled(s: State, step: Step) {
    match step
    case Spawn(t, ueId) => t !in s.tasks && ueId !in s.senders
    case Dispatch(_, _) => true
    case ClearChannels => true
    case Receive(t, _) => t in s.tasks && Receives(s.tasks[t].pc) && s.tasks[t].queue != []
    case ReceiveError(t) => t in s.tasks && Receives(s.tasks[t].pc) && s.tasks[t].queue == [] && Closed(s, t)
    case Fail(t) => t in s.tasks && CanFail(s.tasks[t].pc)
    case TakeSlot(t, id, _) => t in s.tasks && s.tasks[t].pc.NeedSlot? && id !in s.pool
    case AddUplinkRule(t) => t in s.tasks && s.tasks[t].pc.NeedUplinkRule?
    case ContextSetup(t, _) => t in s.tasks && s.tasks[t].pc.AwaitContextSetup?
    case AddDownlinkRule(t) => t in s.tasks && s.tasks[t].pc.NeedDownlinkRule?
    case Record(t) => t in s.tasks && s.tasks[t].pc.NeedRecord?
    case ReleaseReply(t) => t in s.tasks && s.tasks[t].pc.AwaitRelease?
    case RemoveDownlinkRule(t) => t in s.tasks && s.tasks[t].pc.Destroying? && s.tasks[t].sessions != []
    case RemoveUplinkRule(t) => t in s.tasks && s.tasks[t].pc.DestroyingUplink? && s.tasks[t].sessions != []
    case DeleteChannel(t) => t in s.tasks && s.tasks[t].pc.Destroying? && s.tasks[t].sessions == []
    case DownlinkPacket(inner) => |inner| <= DownlinkFrames.MAX_INNER
  }

  function WithTask(s: State, t: nat, k: Task): (r: State) {
    s.(tasks := s.tasks[t := k])
  }

  function Goto(s: State, t: nat, pc: Pc): (r: State)
    requires t in s.tasks
  {
    WithTask(s, t, s.tasks[t].(pc := pc))
  }

  function SetFate(s: State, x: Session, fate: Fate): (r: State) {
    var i := Slot(x.teid);
    if i in s.grants then s.(grants := s.grants[i := s.grants[i].(fate := fate)]) else s
  }

  /** A rule operation on a slot beyond the table would panic; no session has such a slot. */
  function PutIn<V>(t: Table<V>, key: Quad, v: V): (r: Table<V>) {
    if Slot(key) < |t| then Put(t, key, v) else t
  }

  function ClearIn<V>(t: Table<V>, key: Quad): (r: Table<V>) {
    if Slot(key) < |t| then Clear(t, key) else t
  }

  function Spawned(s: State, t: nat, ueId: nat): (r: State) {
    WithTask(s, t, Task(ueId, [], [], [], AwaitFirst, [])).(senders := s.senders[ueId := t])
  }

  function Dispatched(s: State, ueId: nat, pdu: Pdu): (r: State) {
    if ueId in s.senders && s.senders[ueId] in s.tasks && !s.tasks[s.senders[ueId]].pc.Done? then
      var t := s.senders[ueId];
      WithTask(s, t, s.tasks[t].(queue := s.tasks[t].queue + [pdu]))
    else s
  }

  function Received(cfg: Config, s: State, t: nat, rand: seq<byte>): (r: State)
    requires t in s.tasks && Receives(s.tasks[t].pc) && s.tasks[t].queue != []
  {
    var k := s.tasks[t];
    var pdu := k.queue[0];
    WithTask(s, t, k.(queue := k.queue[1..], received := k.received + [pdu], pc := OnMessage(cfg, k, pdu),
                      challenge := if k.pc.AwaitSetupComplete? then rand else k.challenge))
  }

  /** A failing establishment forgets its session: the rule it installed is left behind. */
  function Failed(s: State, t: nat): (r: State)
    requires t in s.tasks
  {
    var pc := s.tasks[t].pc;
    if pc.AwaitRrcSecurity? then Goto(s, t, AwaitRegistrationComplete) else
      var r := Goto(s, t, Destroying);
      if InFlight(pc).Some? then SetFate(r, InFlight(pc).value, Abandoned) else r
  }

  function SlotTaken(cfg: Config, s: State, t: nat, id: nat, top: (byte, byte, byte)): (r: State)
    requires t in s.tasks
  {
    var r := s.(pool := s.pool + {id});
    if id >= MAX_UES then Goto(r, t, Destroying) else
      var x := MakeSession(cfg.subnet, id, top);
      Goto(r, t, NeedUplinkRule(x)).(grants := s.grants[id := Grant(t, x, Held)])
  }

  function UplinkAdded(s: State, t: nat): (r: State)
    requires t in s.tasks && s.tasks[t].pc.NeedUplinkRule?
  {
    var x := s.tasks[t].pc.session;
    Goto(s, t, AwaitContextSetup(x)).(uplink := PutIn(s.uplink, x.teid, ()))
  }

  function DownlinkAdded(s: State, t: nat): (r: State)
    requires t in s.tasks && s.tasks[t].pc.NeedDownlinkRule?
  {
    var x, tunnel := s.tasks[t].pc.session, s.tasks[t].pc.tunnel;
    Goto(s, t, NeedRecord(x)).(downlink := PutIn(s.downlink, x.ip, Downlink(tunnel, 0, 0)))
  }

  function SessionRecorded(s: State, t: nat): (r: State)
    requires t in s.tasks && s.tasks[t].pc.NeedRecord?
  {
    var k := s.tasks[t];
    WithTask(s, t, k.(pc := AwaitReconfiguration, sessions := k.sessions + [k.pc.session]))
  }

  function DownlinkRemoved(s: State, t: nat): (r: State)
    requires t in s.tasks && s.tasks[t].sessions != []
  {
    Goto(s, t, DestroyingUplink).(downlink := ClearIn(s.downlink, s.tasks[t].sessions[0].ip))
  }

  function UplinkRemoved(s: State, t: nat): (r: State)
    requires t in s.tasks && s.tasks[t].sessions != []
  {
    var k := s.tasks[t];
    var x := k.sessions[0];
    var r := WithTask(s, t, k.(pc := Destroying, sessions := k.sessions[1..]));
    SetFate(r.(uplink := ClearIn(s.uplink, x.teid)), x, Deleted)
  }

  function Next(cfg: Config, s: State, step: Step): (r: State)
    requires Enabled(s, step)
  {
    match step
    case Spawn(t, ueId) => Spawned(s, t, ueId)
    case Dispatch(ueId, pdu) => Dispatched(s, ueId, pdu)
    case ClearChannels => s.(senders := map[])
    case Receive(t, rand) => Received(cfg, s, t, rand)
    case ReceiveError(t) => Goto(s, t, OnClosed(s.tasks[t].pc))
    case Fail(t) => Failed(s, t)
    case TakeSlot(t, id, top) => SlotTaken(cfg, s, t, id, top)
    case AddUplinkRule(t) => UplinkAdded(s, t)
    case ContextSetup(t, tunnel) => Goto(s, t, NeedDownlinkRule(s.tasks[t].pc.session, tunnel))
    case AddDownlinkRule(t) => DownlinkAdded(s, t)
    case Record(t) => SessionRecorded(s, t)
    case ReleaseReply(t) => Goto(s, t, Destroying)
    case RemoveDownlinkRule(t) => DownlinkRemoved(s, t)
    case RemoveUplinkRule(t) => UplinkRemoved(s, t)
    case DeleteChannel(t) => Goto(s, t, Done).(senders := s.senders - {s.tasks[t].ueId})
    case DownlinkPacket(inner) => s.(downlink := DownlinkFrames.TableStep(s.downlink, inner))
  }

  /** Step i leads from state i to state i + 1. */
  ghost predicate Linked(cfg: Config, states: seq<State>, steps: seq<Step>, i: nat) {
    && i < |steps| && i + 1 < |states|
    && Enabled(states[i], steps[i]) && states[i + 1] == Next(cfg, states[i], steps[i])
  }

  /** A run: its states, and the steps between them. */
  ghost predicate Run(cfg: Config, states: seq<State>, steps: seq<Step>) {
    && |states| == |steps| + 1
    && states[0] == Init()
    && forall i | 0 <= i < |steps| :: Linked(cfg, states, steps, i)
  }
}
