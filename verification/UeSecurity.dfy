/**
 What a UE task sends, and under which protection. The downlink NAS and RRC messages of a task and
 the two activations of security follow from the positions it passes through; NAS messages go
 through its NAS context, and RRC messages on SRB1 through its PDCP transmitter.
 */
module UeSecurity {
  import opened Bytes
  import opened UeSystem
  import opened UeInvariant
  import opened UeSteps
  import opened UeTheorems
  import opened UeChannels
  import opened UeDrain
  import Nia2
  import NasSecurity
  import Pdcp

  datatype Signal =
    | RrcSetup | DlInformationTransfer | RrcSecurityModeCommand | RrcReconfiguration
    | AuthenticationRequest | NasSecurityModeCommand | RegistrationAccept | EstablishmentAccept

  /** One thing a task does with its NAS context or its PDCP transmitter. */
  datatype Act =
    | EnableNas(key: Nia2.Key)
    | EncodeNas(signal: Signal, plain: Option<seq<byte>>)
    | EnableRrc(key: Nia2.Key)
    | SendRrc(srb: nat, signal: Signal, rrc: Option<seq<byte>>)

  /**
   The CMAC, the key hierarchy (annex A of TS 33.501), and the message codecs, which may refuse a
   message. The RRC codec is given the NAS octets that the message carries, if it carries any.
   */
  datatype Codecs = Codecs(
    cmac: Nia2.Cmac,
    kseaf: (Sim, seq<byte>) -> seq<byte>,
    kamf: (seq<byte>, string) -> seq<byte>,
    knasint: seq<byte> -> Nia2.Key,
    kgnb: (seq<byte>, nat) -> seq<byte>,
    krrcint: seq<byte> -> Nia2.Key,
    nas: (Task, Signal) -> Option<seq<byte>>,
    rrc: (Task, Signal, Option<seq<byte>>) -> Option<seq<byte>>)

  // ---- What a task does ----

  /** The NAS context after the first i acts. */
  ghost function NasContext(h: seq<Act>, i: nat): NasSecurity.Ctx
    requires i <= |h|
  {
    if i == 0 then NasSecurity.Plain
    else
      var c := NasContext(h, i - 1);
      match h[i - 1]
      case EnableNas(key) => NasSecurity.OnEvent(c, NasSecurity.Enable(key))
      case EncodeNas(_, plain) => NasSecurity.OnEvent(c, NasSecurity.Message(plain))
      case _ => c
  }

  /** The octets the NAS context makes of the message encoded by act i. */
  ghost function NasOctets(c: Codecs, h: seq<Act>, i: nat): Option<seq<byte>>
    requires i < |h| && h[i].EncodeNas?
  {
    NasSecurity.Output(c.cmac, NasContext(h, i), h[i].plain)
  }

  /** An RRC message that carries what was encoded last. */
  ghost function Carrier(c: Codecs, h: seq<Act>, k: Task, signal: Signal): Act {
    var octets := if h != [] && h[|h| - 1].EncodeNas? then NasOctets(c, h, |h| - 1) else None;
    SendRrc(1, signal, if octets.None? then None else c.rrc(k, signal, octets))
  }

  /** A NAS request: the message is encoded, then carried in an RRC message on SRB1. */
  ghost function NasRequest(c: Codecs, h: seq<Act>, k: Task, signal: Signal): seq<Act> {
    var h' := h + [EncodeNas(signal, c.nas(k, signal))];
    h' + [Carrier(c, h', k, DlInformationTransfer)]
  }

  /** The IMSI in the registration request of a task. */
  function Imsi(cfg: Config, k: Task): (r: Option<string>) {
    if |k.received| < 2 then None else
      match DcchOf(cfg, k.received[1])
      case Some(SetupComplete(nas)) => (
        match OnRegistration(cfg, cfg.decodeNas(nas))
        case AwaitAuthentication(imsi) => Some(imsi)
        case _ => None)
      case _ => None
  }

  /** The key of the registered SIM for the challenge it was sent. */
  function Kamf(cfg: Config, c: Codecs, k: Task): (r: seq<byte>) {
    match Imsi(cfg, k)
    case Some(imsi) => if imsi in cfg.sims then c.kamf(c.kseaf(cfg.sims[imsi], k.challenge), imsi) else []
    case None => []
  }

  /** What a task has done when it has gone from one position to the next. */
  ghost function Extend(cfg: Config, c: Codecs, h: seq<Act>, k: Task, k': Task): seq<Act> {
    match (k.pc, k'.pc)
    case (AwaitFirst, AwaitSetupComplete) => h + [SendRrc(0, RrcSetup, c.rrc(k', RrcSetup, None))]
    case (AwaitSetupComplete, AwaitAuthentication(_)) => NasRequest(c, h, k', AuthenticationRequest)
    case (AwaitAuthentication(_), AwaitSecurityMode) =>
      NasRequest(c, h + [EnableNas(c.knasint(Kamf(cfg, c, k')))], k', NasSecurityModeCommand)
    case (AwaitSecurityMode, AwaitRrcSecurity) =>
      h + [EnableRrc(c.krrcint(c.kgnb(Kamf(cfg, c, k'), 0))),
           SendRrc(1, RrcSecurityModeCommand, c.rrc(k', RrcSecurityModeCommand, None))]
    case (AwaitRrcSecurity, AwaitRegistrationComplete) => NasRequest(c, h, k', RegistrationAccept)
    case (AwaitContextSetup(_), NeedDownlinkRule(_, _)) => h + [EncodeNas(EstablishmentAccept, c.nas(k', EstablishmentAccept))]
    case (NeedRecord(_), AwaitReconfiguration) => h + [Carrier(c, h, k', RrcReconfiguration)]
    case _ => h
  }

  /** All that task t has done in a run up to state n. */
  ghost function History(cfg: Config, c: Codecs, states: seq<State>, n: nat, t: nat): seq<Act>
    requires n < |states|
  {
    if n == 0 then []
    else
      var h := History(cfg, c, states, n - 1, t);
      if t in states[n - 1].tasks && t in states[n].tasks
      then Extend(cfg, c, h, states[n - 1].tasks[t], states[n].tasks[t]) else h
  }

  // ---- The order of what is done ----

  /** An act without its keys and octets. */
  datatype Kind = NasOn | Nas(signal: Signal) | RrcOn | Rrc(srb: nat, signal: Signal)

  function KindOf(a: Act): (k: Kind) {
    match a
    case EnableNas(_) => NasOn
    case EncodeNas(signal, _) => Nas(signal)
    case EnableRrc(_) => RrcOn
    case SendRrc(srb, signal, _) => Rrc(srb, signal)
  }

  /** Registration, act by act. */
  const REGISTRATION: seq<Kind> := [
    Rrc(0, RrcSetup),
    Nas(AuthenticationRequest), Rrc(1, DlInformationTransfer),
    NasOn, Nas(NasSecurityModeCommand), Rrc(1, DlInformationTransfer),
    RrcOn, Rrc(1, RrcSecurityModeCommand),
    Nas(RegistrationAccept), Rrc(1, DlInformationTransfer)]

  /** The kind due at each place: registration, then accept and reconfiguration by turns. */
  function KindAt(i: nat): (k: Kind) {
    if i < |REGISTRATION| then REGISTRATION[i]
    else if i % 2 == 0 then Nas(EstablishmentAccept) else Rrc(1, RrcReconfiguration)
  }

  ghost predicate Lawful(h: seq<Act>) {
    forall i | 0 <= i < |h| :: KindOf(h[i]) == KindAt(i)
  }

  /** How far a task at a position has come. */
  ghost predicate Stage(pc: Pc, n: nat) {
    match pc
    case AwaitFirst => n == 0
    case AwaitSetupComplete => n == 1
    case AwaitAuthentication(_) => n == 3
    case AwaitSecurityMode => n == 6
    case AwaitRrcSecurity => n == 8
    case AwaitRegistrationComplete => n == 10
    case NeedDownlinkRule(_, _) => n >= 11 && n % 2 == 1
    case NeedRecord(_) => n >= 11 && n % 2 == 1
    case Destroying => true
    case DestroyingUplink => true
    case Done => true
    case _ => n >= 10 && n % 2 == 0
  }

  /** What is done next fits what was done so far. */
  lemma ExtendFits(cfg: Config, c: Codecs, h: seq<Act>, k: Task, k': Task)
    requires Lawful(h) && Stage(k.pc, |h|)
    ensures h <= Extend(cfg, c, h, k, k') && |Extend(cfg, c, h, k, k')| == |h| + Distance(k.pc, k'.pc)
    ensures Lawful(Extend(cfg, c, h, k, k'))
  {
    var h' := Extend(cfg, c, h, k, k');
    assert |REGISTRATION| == 10;
    forall i | |h| <= i < |h'| ensures KindOf(h'[i]) == KindAt(i) {
    }
  }

  /** How many acts lie between two positions. */
  function Distance(pc: Pc, pc': Pc): (n: nat) {
    match (pc, pc')
    case (AwaitFirst, AwaitSetupComplete) => 1
    case (AwaitSetupComplete, AwaitAuthentication(_)) => 2
    case (AwaitAuthentication(_), AwaitSecurityMode) => 3
    case (AwaitSecurityMode, AwaitRrcSecurity) => 2
    case (AwaitRrcSecurity, AwaitRegistrationComplete) => 2
    case (AwaitContextSetup(_), NeedDownlinkRule(_, _)) => 1
    case (NeedRecord(_), AwaitReconfiguration) => 1
    case _ => 0
  }

  lemma MessageMoves(cfg: Config, k: Task, pdu: Pdu, h: nat)
    requires Receives(k.pc) && Stage(k.pc, h)
    ensures Stage(OnMessage(cfg, k, pdu), h + Distance(k.pc, OnMessage(cfg, k, pdu)))
  {
    match k.pc
    case AwaitSetupComplete =>
    case AwaitAuthentication(imsi) =>
    case Idle =>
    case _ =>
  }

  lemma FailMoves(s: State, u: nat, t: nat, h: nat)
    requires u in s.tasks && CanFail(s.tasks[u].pc) && t in s.tasks && Stage(s.tasks[t].pc, h)
    ensures t in Failed(s, u).tasks
    ensures var pc, pc' := s.tasks[t].pc, Failed(s, u).tasks[t].pc; Stage(pc', h + Distance(pc, pc'))
  {
  }

  lemma SlotMoves(cfg: Config, s: State, u: nat, id: nat, top: (byte, byte, byte), t: nat, h: nat)
    requires u in s.tasks && s.tasks[u].pc.NeedSlot? && t in s.tasks && Stage(s.tasks[t].pc, h)
    ensures t in SlotTaken(cfg, s, u, id, top).tasks
    ensures var pc, pc' := s.tasks[t].pc, SlotTaken(cfg, s, u, id, top).tasks[t].pc; Stage(pc', h + Distance(pc, pc'))
  {
  }

  lemma ControlMoves(cfg: Config, s: State, step: Step, t: nat, h: nat)
    requires Enabled(s, step) && t in s.tasks && Stage(s.tasks[t].pc, h)
    requires step.ReceiveError? || step.ContextSetup? || step.ReleaseReply? || step.DeleteChannel?
    ensures t in Next(cfg, s, step).tasks
    ensures var pc, pc' := s.tasks[t].pc, Next(cfg, s, step).tasks[t].pc; Stage(pc', h + Distance(pc, pc'))
  {
  }

  lemma RuleMoves(cfg: Config, s: State, step: Step, t: nat, h: nat)
    requires Enabled(s, step) && t in s.tasks && Stage(s.tasks[t].pc, h)
    requires step.AddUplinkRule? || step.AddDownlinkRule? || step.Record? || step.RemoveDownlinkRule? || step.RemoveUplinkRule?
    ensures t in Next(cfg, s, step).tasks
    ensures var pc, pc' := s.tasks[t].pc, Next(cfg, s, step).tasks[t].pc; Stage(pc', h + Distance(pc, pc'))
  {
  }

  /** The position a step leads to is the next one. */
  lemma StageMoves(cfg: Config, s: State, step: Step, t: nat, h: nat)
    requires Enabled(s, step) && t in s.tasks && Stage(s.tasks[t].pc, h)
    ensures t in Next(cfg, s, step).tasks
    ensures var pc, pc' := s.tasks[t].pc, Next(cfg, s, step).tasks[t].pc; Stage(pc', h + Distance(pc, pc'))
  {
    if !Own(step, t) {
      if !step.Dispatch? {
        OthersLeaveIt(cfg, s, step, t);
      }
      return;
    }
    match step
    case Receive(_, _) => MessageMoves(cfg, s.tasks[t], s.tasks[t].queue[0], h);
    case Fail(u) => FailMoves(s, u, t, h);
    case TakeSlot(u, id, top) => SlotMoves(cfg, s, u, id, top, t, h);
    case AddUplinkRule(_) => RuleMoves(cfg, s, step, t, h);
    case AddDownlinkRule(_) => RuleMoves(cfg, s, step, t, h);
    case Record(_) => RuleMoves(cfg, s, step, t, h);
    case RemoveDownlinkRule(_) => RuleMoves(cfg, s, step, t, h);
    case RemoveUplinkRule(_) => RuleMoves(cfg, s, step, t, h);
    case _ => ControlMoves(cfg, s, step, t, h);
  }

  lemma {:induction false} HistoryLawful(cfg: Config, c: Codecs, states: seq<State>, steps: seq<Step>, n: nat, t: nat)
    requires Run(cfg, states, steps) && n < |states|
    ensures Lawful(History(cfg, c, states, n, t))
    ensures if t in states[n].tasks then Stage(states[n].tasks[t].pc, |History(cfg, c, states, n, t)|)
            else History(cfg, c, states, n, t) == []
  {
    if n > 0 {
      HistoryLawful(cfg, c, states, steps, n - 1, t);
      assert Linked(cfg, states, steps, n - 1);
      if t in states[n - 1].tasks {
        LawfulStep(cfg, c, states[n - 1], steps[n - 1], t, History(cfg, c, states, n - 1, t));
      } else if t in states[n].tasks {
        OnlySpawned(cfg, states[n - 1], steps[n - 1], t);
      }
    }
  }

  lemma LawfulStep(cfg: Config, c: Codecs, s: State, step: Step, t: nat, h: seq<Act>)
    requires Enabled(s, step) && t in s.tasks && Lawful(h) && Stage(s.tasks[t].pc, |h|)
    ensures t in Next(cfg, s, step).tasks
    ensures var k' := Next(cfg, s, step).tasks[t]; var h' := Extend(cfg, c, h, s.tasks[t], k');
      Lawful(h') && Stage(k'.pc, |h'|)
  {
    StageMoves(cfg, s, step, t, |h|);
    ExtendFits(cfg, c, h, s.tasks[t], Next(cfg, s, step).tasks[t]);
  }

  // ---- What goes over the air ----

  /** The PDCP transmitter after the first i acts; a message its codec refuses is not sent. */
  ghost function Transmitter(h: seq<Act>, i: nat): Pdcp.Tx
    requires i <= |h|
  {
    if i == 0 then Pdcp.Tx(0, None) else TxAfter(Transmitter(h, i - 1), h[i - 1])
  }

  function TxAfter(tx: Pdcp.Tx, a: Act): (r: Pdcp.Tx) {
    match a
    case EnableRrc(key) => Pdcp.OnEvent(tx, Pdcp.Secure(key))
    case SendRrc(srb, _, Some(rrc)) => Pdcp.OnEvent(tx, Pdcp.Send(srb, rrc))
    case _ => tx
  }

  /** NAS messages encoded since the activation, before act i. */
  ghost function NasCount(h: seq<Act>, i: nat): nat
    requires i <= |h|
  {
    if i <= 4 then 0 else NasCount(h, i - 1) + if h[i - 1].EncodeNas? && h[i - 1].plain.Some? then 1 else 0
  }

  /** Messages sent on SRB1 before act i. */
  ghost function Srb1Count(h: seq<Act>, i: nat): nat
    requires i <= |h|
  {
    if i == 0 then 0 else Srb1Count(h, i - 1) + if OnSrb1(h[i - 1]) then 1 else 0
  }

  predicate OnSrb1(a: Act) {
    a.SendRrc? && a.rrc.Some? && a.srb != 0
  }

  lemma TxStep(tx: Pdcp.Tx, a: Act, n: nat)
    requires tx.next == n % TWO_32
    ensures TxAfter(tx, a) ==
      Pdcp.Tx((if OnSrb1(a) then n + 1 else n) % TWO_32, if a.EnableRrc? then Some(a.key) else tx.key)
  {
    WrapStep(n, TWO_32);
  }

  /** NAS security is activated by the fourth act and RRC security by the seventh, and by no other. */
  ghost predicate ActivatedOnce(h: seq<Act>) {
    forall i | 0 <= i < |h| :: (h[i].EnableNas? <==> i == 3) && (h[i].EnableRrc? <==> i == 6)
  }

  lemma LawfulActivates(h: seq<Act>)
    requires Lawful(h)
    ensures ActivatedOnce(h)
  {
    forall i | 0 <= i < |h| ensures (h[i].EnableNas? <==> i == 3) && (h[i].EnableRrc? <==> i == 6) {
      assert KindOf(h[i]) == KindAt(i);
    }
  }

  lemma {:induction false} NasContextAt(h: seq<Act>, i: nat)
    requires ActivatedOnce(h) && i <= |h|
    ensures if i <= 3 then NasContext(h, i).Plain?
            else h[3].EnableNas? && NasContext(h, i) == NasSecurity.Secured(h[3].key, NasCount(h, i) % TWO_24)
  {
    if i > 0 {
      NasContextAt(h, i - 1);
      WrapStep(NasCount(h, i - 1), TWO_24);
    }
  }

  lemma {:induction false} TransmitterAt(h: seq<Act>, i: nat)
    requires ActivatedOnce(h) && i <= |h|
    ensures i > 6 ==> h[6].EnableRrc?
    ensures Transmitter(h, i) == Pdcp.Tx(Srb1Count(h, i) % TWO_32, if i <= 6 then None else Some(h[6].key))
  {
    if i > 0 {
      TransmitterAt(h, i - 1);
      TxStep(Transmitter(h, i - 1), h[i - 1], Srb1Count(h, i - 1));
    }
  }

  /** The container that act i puts an RRC message in. */
  ghost function RrcOctets(c: Codecs, h: seq<Act>, i: nat): seq<seq<byte>>
    requires i < |h| && h[i].SendRrc? && h[i].rrc.Some?
  {
    Pdcp.Output(c.cmac, Transmitter(h, i), Pdcp.Send(h[i].srb, h[i].rrc.value))
  }

  /** Accepted by a receiver that expects the COUNT, and announcing a new context at COUNT zero only. */
  ghost predicate ProtectedNas(cmac: Nia2.Cmac, key: Nia2.Key, count: nat, plain: seq<byte>, out: seq<byte>) {
    && |out| >= 7 && NasSecurity.Unprotect(cmac, key, count % TWO_24, out) == Some(plain)
    && out[1] == (if count % TWO_24 == 0 then 3 else 2)
  }

  lemma NasOctetsExact(c: Codecs, h: seq<Act>, i: nat)
    requires Lawful(h) && i < |h| && h[i].EncodeNas? && h[i].plain.Some?
    ensures NasOctets(c, h, i).Some?
    ensures i == 1 ==> NasOctets(c, h, i) == h[i].plain
    ensures i != 1 ==>
      && i >= 4 && h[3].EnableNas?
      && ProtectedNas(c.cmac, h[3].key, NasCount(h, i), h[i].plain.value, NasOctets(c, h, i).value)
  {
    LawfulActivates(h);
    NasContextAt(h, i);
    assert KindOf(h[i]) == KindAt(i);
    if i >= 4 {
      NasSecurity.UnprotectProtect(c.cmac, h[3].key, NasCount(h, i) % TWO_24, h[i].plain.value);
    }
  }

  /** The n-th PDU on SRB1, with the MAC of a key or a zero MAC. */
  ghost predicate Srb1Exact(cmac: Nia2.Cmac, key: Option<Nia2.Key>, n: nat, rrc: seq<byte>, pdu: seq<byte>) {
    && |pdu| >= 6 && Pdcp.ViewInner(pdu) == Some(rrc) && Pdcp.SnOf(pdu) == n % TWO_12
    && var mac := Pdcp.MacOf(pdu);
    match key
    case None => mac == Quad(0, 0, 0, 0)
    case Some(k) => mac == cmac(k, Nia2.Spelled(n % TWO_32, 0x04, pdu[..|pdu| - 4]))
  }

  lemma RrcOctetsExact(c: Codecs, h: seq<Act>, i: nat)
    requires Lawful(h) && i < |h| && h[i].SendRrc? && h[i].rrc.Some?
    ensures h[i].srb <= 1 && (h[i].srb == 0 <==> i == 0) && (i == 0 || i == 2 || i == 5 || i >= 7)
    ensures i == 7 <==> h[i].signal == RrcSecurityModeCommand
    ensures |RrcOctets(c, h, i)| == 1
    ensures i == 0 ==> RrcOctets(c, h, i)[0] == h[i].rrc.value
    ensures i > 0 ==>
      && (i >= 7 ==> h[6].EnableRrc?)
      && Srb1Exact(c.cmac, if i < 7 then None else Some(h[6].key), Srb1Count(h, i), h[i].rrc.value, RrcOctets(c, h, i)[0])
  {
    LawfulActivates(h);
    TransmitterAt(h, i);
    assert KindOf(h[i]) == KindAt(i);
    Pdcp.PduExact(c.cmac, Transmitter(h, i).key, Srb1Count(h, i), h[i].rrc.value);
  }

  /**
   In every run, of the NAS messages of a task only the authentication request goes out plain. The
   first protected one is the security mode command, under COUNT zero and the new-context header;
   each later one is accepted under the key activated before that command and the next COUNT.
   */
  lemma NasProtectedInRun(cfg: Config, c: Codecs, states: seq<State>, steps: seq<Step>, n: nat, t: nat, i: nat)
    requires Run(cfg, states, steps) && n < |states|
    requires var h := History(cfg, c, states, n, t); i < |h| && h[i].EncodeNas? && h[i].plain.Some?
    ensures var h := History(cfg, c, states, n, t);
      && (h[i].signal == AuthenticationRequest <==> i == 1) && (h[i].signal == NasSecurityModeCommand <==> i == 4)
      && NasOctets(c, h, i).Some? && (i == 1 ==> NasOctets(c, h, i) == h[i].plain)
      && (i == 4 ==> NasCount(h, i) == 0)
      && (i != 1 ==>
            && i >= 4 && h[3].EnableNas?
            && ProtectedNas(c.cmac, h[3].key, NasCount(h, i), h[i].plain.value, NasOctets(c, h, i).value))
    ensures t in states[n].tasks && Keyed(cfg, c, states[n].tasks[t], History(cfg, c, states, n, t))
  {
    var h := History(cfg, c, states, n, t);
    HistoryLawful(cfg, c, states, steps, n, t);
    KeysInRun(cfg, c, states, steps, n, t);
    assert KindOf(h[i]) == KindAt(i);
    NasOctetsExact(c, h, i);
  }

  /**
   And of its RRC messages the setup goes out without PDCP, the two that carry the authentication
   request and the NAS security mode command go out numbered with a zero MAC, and everything from
   the RRC security mode command on carries the MAC of the RRC key under its own COUNT.
   */
  lemma RrcProtectedInRun(cfg: Config, c: Codecs, states: seq<State>, steps: seq<Step>, n: nat, t: nat, i: nat)
    requires Run(cfg, states, steps) && n < |states|
    requires var h := History(cfg, c, states, n, t); i < |h| && h[i].SendRrc? && h[i].rrc.Some?
    ensures var h := History(cfg, c, states, n, t);
      && h[i].srb <= 1 && (h[i].srb == 0 <==> i == 0) && (i == 0 || i == 2 || i == 5 || i >= 7)
      && (i == 7 <==> h[i].signal == RrcSecurityModeCommand)
      && |RrcOctets(c, h, i)| == 1 && (i == 0 ==> RrcOctets(c, h, i)[0] == h[i].rrc.value)
      && (i > 0 ==>
            && (i >= 7 ==> h[6].EnableRrc?)
            && Srb1Exact(c.cmac, if i < 7 then None else Some(h[6].key), Srb1Count(h, i), h[i].rrc.value, RrcOctets(c, h, i)[0]))
    ensures t in states[n].tasks && Keyed(cfg, c, states[n].tasks[t], History(cfg, c, states, n, t))
  {
    var h := History(cfg, c, states, n, t);
    HistoryLawful(cfg, c, states, steps, n, t);
    KeysInRun(cfg, c, states, steps, n, t);
    RrcOctetsExact(c, h, i);
  }

  // ---- The keys ----

  /** What the SIM of an IMSI and the challenge sent to it are to give as keys. */
  ghost predicate KeyedFor(cfg: Config, c: Codecs, k: Task, imsi: string, h: seq<Act>) {
    && imsi in cfg.sims
    && var kamf := c.kamf(c.kseaf(cfg.sims[imsi], k.challenge), imsi);
    && (|h| > 3 ==> h[3] == EnableNas(c.knasint(kamf)))
    && (|h| > 6 ==> h[6] == EnableRrc(c.krrcint(c.kgnb(kamf, 0))))
  }

  lemma RegistersIsImsi(cfg: Config, k: Task, imsi: string)
    requires Registered(cfg, k.received, imsi)
    ensures Imsi(cfg, k) == Some(imsi) && imsi in cfg.sims
    ensures forall c: Codecs :: Kamf(cfg, c, k) == c.kamf(c.kseaf(cfg.sims[imsi], k.challenge), imsi)
  {
  }

  /** The evidence and the keys of a task that has come past its challenge. */
  ghost predicate Keyed(cfg: Config, c: Codecs, k: Task, h: seq<Act>) {
    |h| > 3 ==> |k.received| >= 3 && exists imsi ::
      Registered(cfg, k.received, imsi) && Answers(cfg, k.received[2], imsi, k.challenge) && KeyedFor(cfg, c, k, imsi, h)
  }

  /** The evidence stands when more is received, and the history goes on without activations. */
  lemma KeyedStays(cfg: Config, c: Codecs, k: Task, k': Task, h: seq<Act>, h': seq<Act>)
    requires Keyed(cfg, c, k, h) && |h| > 3 && h <= h' && (|h| > 6 || |h'| <= 6)
    requires k.received <= k'.received && k'.challenge == k.challenge
    ensures Keyed(cfg, c, k', h')
  {
    var imsi :| Registered(cfg, k.received, imsi) && Answers(cfg, k.received[2], imsi, k.challenge) && KeyedFor(cfg, c, k, imsi, h);
    assert Registered(cfg, k'.received, imsi) && Answers(cfg, k'.received[2], imsi, k'.challenge);
    assert KeyedFor(cfg, c, k', imsi, h');
  }

  lemma NasKeyActivated(cfg: Config, c: Codecs, k: Task, k': Task, h: seq<Act>)
    requires k.pc.AwaitAuthentication? && k'.pc.AwaitSecurityMode? && |h| == 3
    requires Proved(cfg, k'.received, k'.challenge)
    ensures Keyed(cfg, c, k', Extend(cfg, c, h, k, k'))
  {
    var imsi :| Registered(cfg, k'.received, imsi) && Answers(cfg, k'.received[2], imsi, k'.challenge);
    RegistersIsImsi(cfg, k', imsi);
    assert KeyedFor(cfg, c, k', imsi, Extend(cfg, c, h, k, k'));
  }

  lemma RrcKeyActivated(cfg: Config, c: Codecs, k: Task, k': Task, h: seq<Act>)
    requires k.pc.AwaitSecurityMode? && k'.pc.AwaitRrcSecurity? && |h| == 6 && Keyed(cfg, c, k, h)
    requires k.received <= k'.received && k'.challenge == k.challenge
    ensures Keyed(cfg, c, k', Extend(cfg, c, h, k, k'))
  {
    var imsi :| Registered(cfg, k.received, imsi) && Answers(cfg, k.received[2], imsi, k.challenge) && KeyedFor(cfg, c, k, imsi, h);
    assert Registered(cfg, k'.received, imsi) && Answers(cfg, k'.received[2], imsi, k'.challenge);
    RegistersIsImsi(cfg, k', imsi);
    assert KeyedFor(cfg, c, k', imsi, Extend(cfg, c, h, k, k'));
  }

  /** The acts by which security is activated are done at one step each. */
  lemma OnlyCrossing(pc: Pc, pc': Pc, h: nat)
    requires Stage(pc, h)
    ensures h <= 3 < h + Distance(pc, pc') ==> h == 3 && pc.AwaitAuthentication? && pc'.AwaitSecurityMode?
    ensures 3 < h <= 6 < h + Distance(pc, pc') ==> h == 6 && pc.AwaitSecurityMode? && pc'.AwaitRrcSecurity?
  {
  }

  lemma ChallengeStays(cfg: Config, s: State, step: Step, t: nat)
    requires Enabled(s, step) && t in s.tasks && !s.tasks[t].pc.AwaitSetupComplete?
    ensures t in Next(cfg, s, step).tasks && Next(cfg, s, step).tasks[t].challenge == s.tasks[t].challenge
  {
    if !Own(step, t) && !step.Dispatch? {
      OthersLeaveIt(cfg, s, step, t);
    }
  }

  lemma SecurityModeIsProved(cfg: Config, s: State, t: nat)
    requires Inv(cfg, s) && t in s.tasks && s.tasks[t].pc.AwaitSecurityMode?
    ensures Proved(cfg, s.tasks[t].received, s.tasks[t].challenge)
  {
    assert TaskOk(cfg, s, t);
  }

  lemma KeyedStep(cfg: Config, c: Codecs, s: State, step: Step, t: nat, h: seq<Act>)
    requires Inv(cfg, s) && Enabled(s, step) && t in s.tasks && Lawful(h) && Stage(s.tasks[t].pc, |h|)
    requires Keyed(cfg, c, s.tasks[t], h)
    ensures t in Next(cfg, s, step).tasks
    ensures Keyed(cfg, c, Next(cfg, s, step).tasks[t], Extend(cfg, c, h, s.tasks[t], Next(cfg, s, step).tasks[t]))
  {
    TaskStep(cfg, s, step, t);
    var k, k' := s.tasks[t], Next(cfg, s, step).tasks[t];
    ExtendFits(cfg, c, h, k, k');
    OnlyCrossing(k.pc, k'.pc, |h|);
    if |h| > 3 {
      ChallengeStays(cfg, s, step, t);
      if |h| <= 6 < |Extend(cfg, c, h, k, k')| {
        RrcKeyActivated(cfg, c, k, k', h);
      } else {
        KeyedStays(cfg, c, k, k', h, Extend(cfg, c, h, k, k'));
      }
    } else if |Extend(cfg, c, h, k, k')| > 3 {
      StepKeepsInv(cfg, s, step);
      SecurityModeIsProved(cfg, Next(cfg, s, step), t);
      NasKeyActivated(cfg, c, k, k', h);
    }
  }

  /**
   In every run, a task that has activated NAS security has registered an IMSI with a SIM and has
   accepted the answer to its challenge, and both keys it ever activates are those the hierarchy
   derives from that SIM, that challenge and that IMSI, each by its own derivation.
   */
  lemma {:induction false} KeysInRun(cfg: Config, c: Codecs, states: seq<State>, steps: seq<Step>, n: nat, t: nat)
    requires Run(cfg, states, steps) && n < |states| && t in states[n].tasks
    ensures Keyed(cfg, c, states[n].tasks[t], History(cfg, c, states, n, t))
  {
    if n > 0 {
      HistoryLawful(cfg, c, states, steps, n - 1, t);
      if t in states[n - 1].tasks {
        KeysInRun(cfg, c, states, steps, n - 1, t);
        RunKeepsInv(cfg, states, steps, n - 1);
        assert Linked(cfg, states, steps, n - 1);
        KeyedStep(cfg, c, states[n - 1], steps[n - 1], t, History(cfg, c, states, n - 1, t));
      }
    }
  }

  // ---- The contents ----

  /** The content due: each message is that of its signal, and an RRC carrier has the NAS octets encoded just before. */
  ghost predicate Due(c: Codecs, h: seq<Act>, i: nat, k: Task)
    requires i < |h|
  {
    match h[i]
    case EncodeNas(signal, plain) => plain == c.nas(k, signal)
    case SendRrc(_, signal, rrc) =>
      if signal.DlInformationTransfer? || signal.RrcReconfiguration?
      then i > 0 && h[i - 1].EncodeNas? && rrc == (
        match NasOctets(c, h, i - 1)
        case None => None
        case Some(octets) => c.rrc(k, signal, Some(octets)))
      else rrc == c.rrc(k, signal, None)
    case _ => true
  }

  /** The position a task comes to by doing act i. */
  ghost predicate DoneAt(i: nat, pc: Pc) {
    if i == 0 then pc.AwaitSetupComplete?
    else if i <= 2 then pc.AwaitAuthentication?
    else if i <= 5 then pc.AwaitSecurityMode?
    else if i <= 7 then pc.AwaitRrcSecurity?
    else if i <= 9 then pc.AwaitRegistrationComplete?
    else if i % 2 == 0 then pc.NeedDownlinkRule? else pc.AwaitReconfiguration?
  }

  /** A task can fail exactly where it has just built a message, and while it waits for the context setup. */
  lemma FailsWhereItSends(pc: Pc)
    ensures CanFail(pc) <==> pc.AwaitContextSetup? || exists i: nat :: DoneAt(i, pc)
  {
    assert DoneAt(0, AwaitSetupComplete) && DoneAt(3, AwaitSecurityMode) && DoneAt(6, AwaitRrcSecurity);
    assert DoneAt(8, AwaitRegistrationComplete) && DoneAt(11, AwaitReconfiguration);
    assert pc.AwaitAuthentication? ==> DoneAt(1, pc);
    assert pc.NeedDownlinkRule? ==> DoneAt(10, pc);
  }

  lemma {:induction false} ContextOfPrefix(h: seq<Act>, h': seq<Act>, i: nat)
    requires h <= h' && i <= |h|
    ensures NasContext(h', i) == NasContext(h, i)
    decreases i
  {
    if i > 0 {
      ContextOfPrefix(h, h', i - 1);
    }
  }

  lemma DueOfPrefix(c: Codecs, h: seq<Act>, h': seq<Act>, i: nat, k: Task)
    requires h <= h' && i < |h| && Due(c, h, i, k)
    ensures Due(c, h', i, k)
  {
    if i > 0 {
      ContextOfPrefix(h, h', i - 1);
    }
  }

  lemma RequestDue(c: Codecs, h: seq<Act>, k: Task, signal: Signal)
    ensures var h' := NasRequest(c, h, k, signal);
      h <= h' && |h'| == |h| + 2 && Due(c, h', |h|, k) && Due(c, h', |h| + 1, k)
  {
    var h1, h' := h + [EncodeNas(signal, c.nas(k, signal))], NasRequest(c, h, k, signal);
    ContextOfPrefix(h1, h', |h|);
  }

  lemma CarrierDue(c: Codecs, h: seq<Act>, k: Task)
    requires h != [] && h[|h| - 1].EncodeNas?
    ensures Due(c, h + [Carrier(c, h, k, RrcReconfiguration)], |h|, k)
  {
    ContextOfPrefix(h, h + [Carrier(c, h, k, RrcReconfiguration)], |h| - 1);
  }

  lemma ExtendDue(cfg: Config, c: Codecs, h: seq<Act>, k: Task, k': Task, i: nat)
    requires Lawful(h) && Stage(k.pc, |h|) && |h| <= i < |Extend(cfg, c, h, k, k')|
    ensures Due(c, Extend(cfg, c, h, k, k'), i, k') && DoneAt(i, k'.pc)
  {
    ExtendFits(cfg, c, h, k, k');
    match (k.pc, k'.pc)
    case (AwaitSetupComplete, AwaitAuthentication(_)) => RequestDue(c, h, k', AuthenticationRequest);
    case (AwaitAuthentication(_), AwaitSecurityMode) =>
      RequestDue(c, h + [EnableNas(c.knasint(Kamf(cfg, c, k')))], k', NasSecurityModeCommand);
    case (AwaitRrcSecurity, AwaitRegistrationComplete) => RequestDue(c, h, k', RegistrationAccept);
    case (NeedRecord(_), AwaitReconfiguration) =>
      assert KindOf(h[|h| - 1]) == KindAt(|h| - 1);
      CarrierDue(c, h, k');
    case _ =>
  }

  /** The step by which act i was done. */
  lemma {:induction false} StepOfAct(cfg: Config, c: Codecs, states: seq<State>, n: nat, t: nat, i: nat) returns (m: nat)
    requires n < |states| && i < |History(cfg, c, states, n, t)|
    ensures 0 < m <= n && |History(cfg, c, states, m - 1, t)| <= i < |History(cfg, c, states, m, t)|
  {
    m := n;
    if i < |History(cfg, c, states, n - 1, t)| {
      m := StepOfAct(cfg, c, states, n - 1, t, i);
    }
  }

  lemma {:induction false} HistoryPrefix(cfg: Config, c: Codecs, states: seq<State>, steps: seq<Step>, m: nat, n: nat, t: nat)
    requires Run(cfg, states, steps) && m <= n < |states|
    ensures History(cfg, c, states, m, t) <= History(cfg, c, states, n, t)
    decreases n
  {
    if m < n {
      HistoryPrefix(cfg, c, states, steps, m, n - 1, t);
      PrefixStep(cfg, c, states, steps, n, t);
      PrefixTransitive(History(cfg, c, states, m, t), History(cfg, c, states, n - 1, t), History(cfg, c, states, n, t));
    }
  }

  lemma PrefixStep(cfg: Config, c: Codecs, states: seq<State>, steps: seq<Step>, n: nat, t: nat)
    requires Run(cfg, states, steps) && 0 < n < |states|
    ensures History(cfg, c, states, n - 1, t) <= History(cfg, c, states, n, t)
  {
    HistoryGrows(cfg, c, states, steps, n, t);
  }

  lemma PrefixTransitive<T>(a: seq<T>, b: seq<T>, c: seq<T>)
    requires a <= b <= c
    ensures a <= c
  {
  }

  /**
   In every run, each act of a task was done by the step that brought it to the position of that
   act, with the content due there: the octets of its own signal, and in an RRC message that carries
   NAS the protected octets of the NAS message encoded just before it.
   */
  lemma ContentsInRun(cfg: Config, c: Codecs, states: seq<State>, steps: seq<Step>, n: nat, t: nat, i: nat)
    returns (m: nat)
    requires Run(cfg, states, steps) && n < |states| && i < |History(cfg, c, states, n, t)|
    ensures 0 < m <= n && t in states[m].tasks && DoneAt(i, states[m].tasks[t].pc)
    ensures |History(cfg, c, states, m - 1, t)| <= i < |History(cfg, c, states, m, t)|
    ensures Due(c, History(cfg, c, states, n, t), i, states[m].tasks[t])
  {
    m := StepOfAct(cfg, c, states, n, t, i);
    HistoryGrows(cfg, c, states, steps, m, t);
    HistoryPrefix(cfg, c, states, steps, m, n, t);
    DueOfPrefix(c, History(cfg, c, states, m, t), History(cfg, c, states, n, t), i, states[m].tasks[t]);
  }

  lemma HistoryGrows(cfg: Config, c: Codecs, states: seq<State>, steps: seq<Step>, n: nat, t: nat)
    requires Run(cfg, states, steps) && 0 < n < |states|
    ensures var h, h' := History(cfg, c, states, n - 1, t), History(cfg, c, states, n, t);
      && h <= h'
      && forall i | |h| <= i < |h'| ::
           t in states[n].tasks && DoneAt(i, states[n].tasks[t].pc) && Due(c, h', i, states[n].tasks[t])
  {
    HistoryLawful(cfg, c, states, steps, n - 1, t);
    var h := History(cfg, c, states, n - 1, t);
    if t in states[n - 1].tasks && t in states[n].tasks {
      var k, k' := states[n - 1].tasks[t], states[n].tasks[t];
      ExtendFits(cfg, c, h, k, k');
      forall i | |h| <= i < |Extend(cfg, c, h, k, k')| ensures DoneAt(i, k'.pc) && Due(c, Extend(cfg, c, h, k, k'), i, k') {
        ExtendDue(cfg, c, h, k, k', i);
      }
    }
  }

  // ---- Security and the user plane ----

  /** A forwarding rule is installed only by a task that had both securities on. */
  lemma RulesFollowSecurity(cfg: Config, c: Codecs, states: seq<State>, steps: seq<Step>, n: nat, i: nat) returns (m: nat)
    requires Run(cfg, states, steps) && n < |states|
    requires i < |states[n].uplink| && states[n].uplink[i].Some?
    ensures m < n && InstalledUplink(cfg, states, steps, m, states[n].uplink[i].value.key)
    ensures var h := History(cfg, c, states, m, steps[m].t);
      |h| >= 10 && h[3].EnableNas? && h[6].EnableRrc? && Keyed(cfg, c, states[m].tasks[steps[m].t], h)
  {
    UplinkRulesAreAuthenticated(cfg, states, steps, n, i);
    m :| 0 <= m < n && InstalledUplink(cfg, states, steps, m, states[n].uplink[i].value.key);
    var t := steps[m].t;
    HistoryLawful(cfg, c, states, steps, m, t);
    LawfulActivates(History(cfg, c, states, m, t));
    KeysInRun(cfg, c, states, steps, m, t);
  }
}
