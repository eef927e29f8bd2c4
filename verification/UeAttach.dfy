/** What the UE tasks do let happen: exactly when initial access succeeds, the attach flow, and a lost rule. */
module UeAttach {
  import opened Bytes
  import opened SlotTable
  import opened Userplane
  import opened UeSystem
  import opened UeInvariant
  import UeServing

  // ---- Initial access, message by message ----

  function Alone(pc: Pc, challenge: seq<byte>): (k: Task) {
    Task(0, [], [], challenge, pc, [])
  }

  /** Where a task gets to with a list of messages, given the challenge it sends. */
  function Access(cfg: Config, pc: Pc, challenge: seq<byte>, pdus: seq<Pdu>): (r: Pc)
    decreases |pdus|
  {
    if pdus == [] || !Receives(pc) then pc
    else Access(cfg, OnMessage(cfg, Alone(pc, challenge), pdus[0]), challenge, pdus[1..])
  }

  ghost predicate AccessGranted(cfg: Config, r: seq<Pdu>, challenge: seq<byte>) {
    |r| == 6 && Secured(cfg, r, challenge) && NasOf(cfg, r[5]) == Some(RegistrationComplete)
  }

  lemma FirstStage(cfg: Config, c: seq<byte>, pdu: Pdu)
    ensures var pc := OnMessage(cfg, Alone(AwaitFirst, c), pdu);
      (pc == AwaitSetupComplete <==> pdu == InitialUlRrc(true, true)) && (pc != AwaitSetupComplete ==> !Receives(pc))
  {
  }

  lemma SecondStage(cfg: Config, c: seq<byte>, pdu: Pdu)
    ensures var pc := OnMessage(cfg, Alone(AwaitSetupComplete, c), pdu);
      && (forall imsi :: pc == AwaitAuthentication(imsi) <==> Registers(cfg, pdu, imsi))
      && (pc.AwaitAuthentication? || !Receives(pc))
  {
    if DcchOf(cfg, pdu).Some? && DcchOf(cfg, pdu).value.SetupComplete? {
      RegistrationStage(cfg, DcchOf(cfg, pdu).value.nas, pdu);
    }
  }

  lemma ThirdStage(cfg: Config, c: seq<byte>, imsi: string, pdu: Pdu)
    ensures var pc := OnMessage(cfg, Alone(AwaitAuthentication(imsi), c), pdu);
      (pc == AwaitSecurityMode <==> Answers(cfg, pdu, imsi, c)) && (pc != AwaitSecurityMode ==> !Receives(pc))
  {
  }

  lemma FourthStage(cfg: Config, c: seq<byte>, pdu: Pdu)
    ensures var pc := OnMessage(cfg, Alone(AwaitSecurityMode, c), pdu);
      (pc == AwaitRrcSecurity <==> SecurityModeDone(cfg, pdu)) && (pc != AwaitRrcSecurity ==> !Receives(pc))
  {
  }

  lemma Stuck(cfg: Config, pc: Pc, c: seq<byte>, pdus: seq<Pdu>)
    requires !Receives(pc)
    ensures Access(cfg, pc, c, pdus) == pc
  {
  }

  lemma LastStages(cfg: Config, c: seq<byte>, r: seq<Pdu>)
    requires |r| == 2
    ensures Access(cfg, AwaitRrcSecurity, c, r) == Idle <==> NasOf(cfg, r[1]) == Some(RegistrationComplete)
  {
    var rest := r[1..];
    assert Access(cfg, AwaitRrcSecurity, c, r) == Access(cfg, AwaitRegistrationComplete, c, rest);
    var pc := OnMessage(cfg, Alone(AwaitRegistrationComplete, c), rest[0]);
    assert rest[1..] == [] && Access(cfg, AwaitRegistrationComplete, c, rest) == Access(cfg, pc, c, []) == pc;
  }

  lemma FromSecurityMode(cfg: Config, c: seq<byte>, r: seq<Pdu>)
    requires |r| == 3
    ensures Access(cfg, AwaitSecurityMode, c, r) == Idle
       <==> SecurityModeDone(cfg, r[0]) && NasOf(cfg, r[2]) == Some(RegistrationComplete)
  {
    FourthStage(cfg, c, r[0]);
    LastStages(cfg, c, r[1..]);
    if !SecurityModeDone(cfg, r[0]) {
      Stuck(cfg, OnMessage(cfg, Alone(AwaitSecurityMode, c), r[0]), c, r[1..]);
    }
  }

  lemma FromAuthentication(cfg: Config, c: seq<byte>, imsi: string, r: seq<Pdu>)
    requires |r| == 4
    ensures Access(cfg, AwaitAuthentication(imsi), c, r) == Idle
       <==> Answers(cfg, r[0], imsi, c) && SecurityModeDone(cfg, r[1]) && NasOf(cfg, r[3]) == Some(RegistrationComplete)
  {
    ThirdStage(cfg, c, imsi, r[0]);
    FromSecurityMode(cfg, c, r[1..]);
    if !Answers(cfg, r[0], imsi, c) {
      Stuck(cfg, OnMessage(cfg, Alone(AwaitAuthentication(imsi), c), r[0]), c, r[1..]);
    }
  }

  lemma FromSetup(cfg: Config, c: seq<byte>, r: seq<Pdu>)
    requires |r| == 5
    ensures Access(cfg, AwaitSetupComplete, c, r) == Idle
       <==> exists imsi :: Registers(cfg, r[0], imsi) && Answers(cfg, r[1], imsi, c) && SecurityModeDone(cfg, r[2])
                           && NasOf(cfg, r[4]) == Some(RegistrationComplete)
  {
    SecondStage(cfg, c, r[0]);
    var pc := OnMessage(cfg, Alone(AwaitSetupComplete, c), r[0]);
    if pc.AwaitAuthentication? {
      FromAuthentication(cfg, c, pc.imsi, r[1..]);
      assert pc == AwaitAuthentication(pc.imsi);
    } else {
      Stuck(cfg, pc, c, r[1..]);
    }
  }

  /**
   Six messages take a UE through initial access iff they are, in order: the initial transfer, a
   registration of a known IMSI of our PLMN, the answer to the challenge, the completion of NAS
   security mode, anything at all (the RRC security mode result is not looked at), and the
   registration completion.
   */
  lemma AccessSucceedsIff(cfg: Config, challenge: seq<byte>, r: seq<Pdu>)
    requires |r| == 6
    ensures Access(cfg, AwaitFirst, challenge, r) == Idle <==> AccessGranted(cfg, r, challenge)
  {
    FirstStage(cfg, challenge, r[0]);
    FromSetup(cfg, challenge, r[1..]);
    var pc := OnMessage(cfg, Alone(AwaitFirst, challenge), r[0]);
    if pc != AwaitSetupComplete {
      Stuck(cfg, pc, challenge, r[1..]);
    }
    SpelledOut(cfg, challenge, r);
  }

  lemma SpelledOut(cfg: Config, c: seq<byte>, r: seq<Pdu>)
    requires |r| == 6
    ensures AccessGranted(cfg, r, c) <==>
      && r[0] == InitialUlRrc(true, true)
      && exists imsi :: Registers(cfg, r[1], imsi) && Answers(cfg, r[2], imsi, c) && SecurityModeDone(cfg, r[3])
                        && NasOf(cfg, r[5]) == Some(RegistrationComplete)
  {
    forall imsi ensures Registered(cfg, r, imsi) <==> r[0] == InitialUlRrc(true, true) && Registers(cfg, r[1], imsi) {
    }
  }

  // ---- Reachable states ----

  ghost predicate Reachable(cfg: Config, s: State) {
    exists states, steps :: Run(cfg, states, steps) && states[|steps|] == s
  }

  lemma InitReachable(cfg: Config)
    ensures Reachable(cfg, Init())
  {
    assert Run(cfg, [Init()], []);
  }

  lemma StepReachable(cfg: Config, s: State, step: Step)
    requires Reachable(cfg, s) && Enabled(s, step)
    ensures Reachable(cfg, Next(cfg, s, step))
  {
    var states, steps :| Run(cfg, states, steps) && states[|steps|] == s;
    var states', steps' := states + [Next(cfg, s, step)], steps + [step];
    forall i | 0 <= i < |steps'| ensures Linked(cfg, states', steps', i) {
      if i < |steps| {
        assert Linked(cfg, states, steps, i);
      }
    }
    assert Run(cfg, states', steps') && states'[|steps'|] == Next(cfg, s, step);
  }

  lemma {:induction false} QueueReachable(cfg: Config, s: State, ueId: nat, pdus: seq<Pdu>)
    requires Reachable(cfg, s) && ueId in s.senders && s.senders[ueId] in s.tasks && !s.tasks[s.senders[ueId]].pc.Done?
    ensures var t := s.senders[ueId]; Reachable(cfg, WithTask(s, t, s.tasks[t].(queue := s.tasks[t].queue + pdus)))
    decreases |pdus|
  {
    var t := s.senders[ueId];
    if pdus == [] {
      assert s.tasks[t].queue + pdus == s.tasks[t].queue;
      assert WithTask(s, t, s.tasks[t]) == s;
    } else {
      var s' := Dispatched(s, ueId, pdus[0]);
      StepReachable(cfg, s, Dispatch(ueId, pdus[0]));
      QueueReachable(cfg, s', ueId, pdus[1..]);
      assert s.tasks[t].queue + [pdus[0]] + pdus[1..] == s.tasks[t].queue + pdus;
      assert WithTask(s', t, s'.tasks[t].(queue := s'.tasks[t].queue + pdus[1..]))
          == WithTask(s, t, s.tasks[t].(queue := s.tasks[t].queue + pdus));
    }
  }

  ghost predicate AllReceived(cfg: Config, pc: Pc, c: seq<byte>, pdus: seq<Pdu>)
    decreases |pdus|
  {
    pdus == [] || (Receives(pc) && AllReceived(cfg, OnMessage(cfg, Alone(pc, c), pdus[0]), c, pdus[1..]))
  }

  lemma OnMessageLooks(cfg: Config, k: Task, c: seq<byte>, pdu: Pdu)
    requires Receives(k.pc) && (k.challenge == c || k.pc.AwaitFirst? || k.pc.AwaitSetupComplete?)
    ensures OnMessage(cfg, k, pdu) == OnMessage(cfg, Alone(k.pc, c), pdu)
  {
  }

  /** A task works off its queue. */
  lemma {:induction false} WorkOff(cfg: Config, s: State, t: nat, c: seq<byte>) returns (k: Task)
    requires Reachable(cfg, s) && t in s.tasks && AllReceived(cfg, s.tasks[t].pc, c, s.tasks[t].queue)
    requires s.tasks[t].queue == [] || s.tasks[t].challenge == c || s.tasks[t].pc.AwaitFirst? || s.tasks[t].pc.AwaitSetupComplete?
    ensures Reachable(cfg, WithTask(s, t, k)) && k.queue == [] && k.sessions == s.tasks[t].sessions
    ensures k.pc == Access(cfg, s.tasks[t].pc, c, s.tasks[t].queue)
    decreases |s.tasks[t].queue|
  {
    k := s.tasks[t];
    if k.queue == [] {
      assert WithTask(s, t, k) == s;
    } else {
      OnMessageLooks(cfg, k, c, k.queue[0]);
      StepReachable(cfg, s, Receive(t, c));
      var s' := Received(cfg, s, t, c);
      NotBack(cfg, k, k.queue[0]);
      var k' := WorkOff(cfg, s', t, c);
      assert WithTask(s', t, k') == WithTask(s, t, k');
      k := k';
    }
  }

  /** Once past the setup, a task does not come back to it. */
  lemma NotBack(cfg: Config, k: Task, pdu: Pdu)
    requires Receives(k.pc)
    ensures var pc := OnMessage(cfg, k, pdu); !pc.AwaitFirst? && (pc.AwaitSetupComplete? ==> k.pc.AwaitFirst?)
  {
  }

  // ---- The attach flow ----

  lemma {:induction false} AccessThenRequest(cfg: Config, pc: Pc, c: seq<byte>, r: seq<Pdu>, request: Pdu)
    requires Access(cfg, pc, c, r) == Idle && AllReceived(cfg, pc, c, r) && OnIdle(cfg, request) == NeedSlot
    ensures AllReceived(cfg, pc, c, r + [request]) && Access(cfg, pc, c, r + [request]) == NeedSlot
    decreases |r|
  {
    var q := r + [request];
    if r == [] {
      assert q[1..] == [];
    } else {
      assert q[0] == r[0] && q[1..] == r[1..] + [request];
      AccessThenRequest(cfg, OnMessage(cfg, Alone(pc, c), r[0]), c, r[1..], request);
    }
  }

  lemma {:induction false} GrantedIsReceived(cfg: Config, pc: Pc, c: seq<byte>, r: seq<Pdu>)
    requires Receives(Access(cfg, pc, c, r))
    ensures AllReceived(cfg, pc, c, r)
    decreases |r|
  {
    if r != [] {
      if Receives(pc) {
        GrantedIsReceived(cfg, OnMessage(cfg, Alone(pc, c), r[0]), c, r[1..]);
      }
    }
  }

  /** A UE that passes initial access and asks for a session brings its task to the slot pool. */
  lemma ReachesPool(cfg: Config, c: seq<byte>, r: seq<Pdu>, request: Pdu) returns (k: Task)
    requires AccessGranted(cfg, r, c) && UeServing.RequestsSession(cfg, request)
    ensures k.pc == NeedSlot && k.queue == [] && k.sessions == []
    ensures Reachable(cfg, WithTask(Spawned(Init(), 0, 0), 0, k))
  {
    AccessAndRequest(cfg, c, r, request);
    var s := Spawned(Init(), 0, 0);
    var queued := WithTask(s, 0, Task(0, r + [request], [], [], AwaitFirst, []));
    QueuedReachable(cfg, r + [request]);
    k := WorkOff(cfg, queued, 0, c);
    assert WithTask(queued, 0, k) == WithTask(s, 0, k);
  }

  lemma AccessAndRequest(cfg: Config, c: seq<byte>, r: seq<Pdu>, request: Pdu)
    requires AccessGranted(cfg, r, c) && UeServing.RequestsSession(cfg, request)
    ensures AllReceived(cfg, AwaitFirst, c, r + [request]) && Access(cfg, AwaitFirst, c, r + [request]) == NeedSlot
  {
    AccessSucceedsIff(cfg, c, r);
    GrantedIsReceived(cfg, AwaitFirst, c, r);
    UeServing.IdleExact(cfg, request);
    AccessThenRequest(cfg, AwaitFirst, c, r, request);
  }

  lemma QueuedReachable(cfg: Config, pdus: seq<Pdu>)
    ensures Reachable(cfg, WithTask(Spawned(Init(), 0, 0), 0, Task(0, pdus, [], [], AwaitFirst, [])))
  {
    InitReachable(cfg);
    StepReachable(cfg, Init(), Spawn(0, 0));
    QueueReachable(cfg, Spawned(Init(), 0, 0), 0, pdus);
    assert [] + pdus == pdus;
  }

  /** And on to waiting for the DU, with the uplink rule in place. */
  lemma ReachesContextSetup(cfg: Config, c: seq<byte>, r: seq<Pdu>, request: Pdu, id: nat, top: (byte, byte, byte))
    returns (s: State)
    requires AccessGranted(cfg, r, c) && UeServing.RequestsSession(cfg, request) && 1 <= id < MAX_UES
    ensures var x := MakeSession(cfg.subnet, id, top);
      && Reachable(cfg, s) && 0 in s.tasks && s.tasks[0].pc == AwaitContextSetup(x) && s.tasks[0].sessions == []
      && s.senders == map[0 := 0] && s.tasks[0].queue == []
      && s.uplink == Put(Empty(), x.teid, ()) && s.downlink == Empty()
  {
    var k := ReachesPool(cfg, c, r, request);
    s := WithTask(Spawned(Init(), 0, 0), 0, k);
    StepReachable(cfg, s, TakeSlot(0, id, top));
    s := SlotTaken(cfg, s, 0, id, top);
    StepReachable(cfg, s, AddUplinkRule(0));
    s := UplinkAdded(s, 0);
  }

  /**
   The attach flow goes through: for every UE that passes initial access and every slot, tunnel and
   random TEID, a state is reached where both its rules stand and its task serves it.
   */
  lemma AttachReachesUserplane(cfg: Config, c: seq<byte>, r: seq<Pdu>, request: Pdu, complete: Pdu,
                               id: nat, top: (byte, byte, byte), tunnel: Tunnel) returns (s: State)
    requires AccessGranted(cfg, r, c) && UeServing.RequestsSession(cfg, request) && 1 <= id < MAX_UES
    requires DcchOf(cfg, complete) == Some(ReconfigurationComplete)
    ensures var x := MakeSession(cfg.subnet, id, top);
      && Reachable(cfg, s) && 0 in s.tasks && s.tasks[0].pc == Idle && s.tasks[0].sessions == [x]
      && s.uplink == Put(Empty(), x.teid, ()) && s.downlink == Put(Empty(), x.ip, Downlink(tunnel, 0, 0))
  {
    s := ReachesContextSetup(cfg, c, r, request, id, top);
    StepReachable(cfg, s, ContextSetup(0, tunnel));
    s := Goto(s, 0, NeedDownlinkRule(s.tasks[0].pc.session, tunnel));
    StepReachable(cfg, s, AddDownlinkRule(0));
    s := DownlinkAdded(s, 0);
    StepReachable(cfg, s, Record(0));
    s := SessionRecorded(s, 0);
    StepReachable(cfg, s, Dispatch(0, complete));
    s := Dispatched(s, 0, complete);
    StepReachable(cfg, s, Receive(0, []));
    s := Received(cfg, s, 0, []);
  }

  /** A failed context setup does lose a rule: the UE task is done, and its uplink rule stands. */
  lemma LostRuleReachable(cfg: Config, c: seq<byte>, r: seq<Pdu>, request: Pdu, id: nat, top: (byte, byte, byte))
    returns (s: State)
    requires AccessGranted(cfg, r, c) && UeServing.RequestsSession(cfg, request) && 1 <= id < MAX_UES
    ensures Reachable(cfg, s) && 0 in s.tasks && s.tasks[0].pc == Done
    ensures s.uplink == Put(Empty(), MakeSession(cfg.subnet, id, top).teid, ())
  {
    s := ReachesContextSetup(cfg, c, r, request, id, top);
    StepReachable(cfg, s, Fail(0));
    s := Failed(s, 0);
    StepReachable(cfg, s, DeleteChannel(0));
    s := Goto(s, 0, Done).(senders := s.senders - {s.tasks[0].ueId});
  }
}
