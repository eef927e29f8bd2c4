/** The channels to the UE tasks: which task a message reaches, and when a channel goes. */
module UeChannels {
  import opened UeSystem
  import opened UeAttach
  import opened UeDrain

  /** The channel map leads from the id of t to t. */
  ghost predicate Listed(s: State, t: nat)
    requires t in s.tasks
  {
    s.tasks[t].ueId in s.senders && s.senders[s.tasks[t].ueId] == t
  }

  /** The UE task got the message that opens a UE context. */
  ghost predicate Opened(k: Task) {
    k.received != [] && k.received[0].InitialUlRrc?
  }

  /** The channel of a task is listed until the UE task has torn its UE context down. */
  ghost predicate ChannelOk(s: State, t: nat)
    requires t in s.tasks
  {
    var k := s.tasks[t];
    && (k.pc.AwaitFirst? ==> k.received == [])
    && (!k.pc.AwaitFirst? && !k.pc.Done? ==> Opened(k))
    && (Listed(s, t) <==> !(k.pc.Done? && Opened(k)))
  }

  ghost predicate ChannelsOk(s: State) {
    && (forall u | u in s.senders :: s.senders[u] in s.tasks && s.tasks[s.senders[u]].ueId == u)
    && (forall t | t in s.tasks :: ChannelOk(s, t))
  }

  /** What a step other than spawning does to a task leaves its id, and adds to what it received. */
  lemma TaskStep(cfg: Config, s: State, step: Step, t: nat)
    requires Enabled(s, step) && t in s.tasks
    ensures t in Next(cfg, s, step).tasks && Next(cfg, s, step).tasks[t].ueId == s.tasks[t].ueId
    ensures s.tasks[t].received <= Next(cfg, s, step).tasks[t].received
    ensures Next(cfg, s, step).tasks[t].received == s.tasks[t].received || (step.Receive? && step.t == t)
  {
    if !Own(step, t) && !step.Dispatch? {
      OthersLeaveIt(cfg, s, step, t);
    }
  }

  /** How a task comes to its end: by taking its channel down, or at its first message. */
  lemma EndStep(cfg: Config, s: State, step: Step, t: nat)
    requires Enabled(s, step) && t in s.tasks && !s.tasks[t].pc.Done?
    ensures t in Next(cfg, s, step).tasks
    ensures Next(cfg, s, step).tasks[t].pc.Done? ==> step == DeleteChannel(t) || s.tasks[t].pc.AwaitFirst?
    ensures Next(cfg, s, step).tasks[t].pc.AwaitFirst? ==> s.tasks[t].pc.AwaitFirst?
  {
    if !Own(step, t) && !step.Dispatch? {
      OthersLeaveIt(cfg, s, step, t);
    } else if step.Receive? {
      MessageEnds(cfg, s.tasks[t], s.tasks[t].queue[0]);
    }
  }

  lemma MessageEnds(cfg: Config, k: Task, pdu: Pdu)
    requires Receives(k.pc)
    ensures OnMessage(cfg, k, pdu).Done? ==> k.pc.AwaitFirst?
    ensures !OnMessage(cfg, k, pdu).AwaitFirst?
  {
  }

  lemma DoneStays(cfg: Config, s: State, step: Step, t: nat)
    requires Enabled(s, step) && t in s.tasks && s.tasks[t].pc.Done?
    ensures t in Next(cfg, s, step).tasks && Next(cfg, s, step).tasks[t] == s.tasks[t]
  {
    if !step.Dispatch? {
      OthersLeaveIt(cfg, s, step, t);
    }
  }

  lemma SendersStep(cfg: Config, s: State, step: Step)
    requires Enabled(s, step) && !step.ClearChannels?
    ensures Next(cfg, s, step).senders ==
      match step
      case Spawn(t, ueId) => s.senders[ueId := t]
      case DeleteChannel(t) => s.senders - {s.tasks[t].ueId}
      case _ => s.senders
  {
  }

  lemma FirstStep(cfg: Config, s: State, step: Step, t: nat)
    requires ChannelsOk(s) && Enabled(s, step) && !step.ClearChannels?
    requires t in s.tasks && s.tasks[t].pc.AwaitFirst?
    ensures t in Next(cfg, s, step).tasks && ChannelOk(Next(cfg, s, step), t)
  {
    assert ChannelOk(s, t);
    SendersStep(cfg, s, step);
    TaskStep(cfg, s, step, t);
    FirstMessage(cfg, s, step, t);
    if step.DeleteChannel? {
      assert ChannelOk(s, step.t);
    }
  }

  /** What a task can do before it has received anything. */
  lemma FirstMessage(cfg: Config, s: State, step: Step, t: nat)
    requires Enabled(s, step) && t in s.tasks && s.tasks[t].pc.AwaitFirst? && s.tasks[t].received == []
    ensures t in Next(cfg, s, step).tasks
    ensures var k' := Next(cfg, s, step).tasks[t];
      && (k'.pc.AwaitFirst? ==> k'.received == [])
      && (!k'.pc.AwaitFirst? && !k'.pc.Done? ==> Opened(k'))
      && (k'.pc.Done? ==> !Opened(k'))
  {
    if !Own(step, t) && !step.Dispatch? {
      OthersLeaveIt(cfg, s, step, t);
    }
  }

  lemma LaterStep(cfg: Config, s: State, step: Step, t: nat)
    requires ChannelsOk(s) && Enabled(s, step) && !step.ClearChannels?
    requires t in s.tasks && !s.tasks[t].pc.AwaitFirst? && !s.tasks[t].pc.Done?
    ensures t in Next(cfg, s, step).tasks && ChannelOk(Next(cfg, s, step), t)
  {
    assert ChannelOk(s, t);
    SendersStep(cfg, s, step);
    TaskStep(cfg, s, step, t);
    EndStep(cfg, s, step, t);
    if step.DeleteChannel? {
      assert ChannelOk(s, step.t);
    }
  }

  lemma EndedStep(cfg: Config, s: State, step: Step, t: nat)
    requires ChannelsOk(s) && Enabled(s, step) && !step.ClearChannels?
    requires t in s.tasks && s.tasks[t].pc.Done?
    ensures t in Next(cfg, s, step).tasks && ChannelOk(Next(cfg, s, step), t)
  {
    assert ChannelOk(s, t);
    SendersStep(cfg, s, step);
    DoneStays(cfg, s, step, t);
    if step.DeleteChannel? {
      assert ChannelOk(s, step.t);
    }
  }

  lemma ChannelsStep(cfg: Config, s: State, step: Step)
    requires ChannelsOk(s) && Enabled(s, step) && !step.ClearChannels?
    ensures ChannelsOk(Next(cfg, s, step))
  {
    var s' := Next(cfg, s, step);
    SendersStep(cfg, s, step);
    forall u | u in s'.senders ensures s'.senders[u] in s'.tasks && s'.tasks[s'.senders[u]].ueId == u {
      if !step.Spawn? || u != step.ueId {
        TaskStep(cfg, s, step, s.senders[u]);
      }
    }
    forall t | t in s'.tasks ensures ChannelOk(s', t) {
      if t in s.tasks {
        if s.tasks[t].pc.AwaitFirst? {
          FirstStep(cfg, s, step, t);
        } else if s.tasks[t].pc.Done? {
          EndedStep(cfg, s, step, t);
        } else {
          LaterStep(cfg, s, step, t);
        }
      } else {
        OnlySpawned(cfg, s, step, t);
      }
    }
  }

  lemma OnlySpawned(cfg: Config, s: State, step: Step, t: nat)
    requires Enabled(s, step) && t !in s.tasks && t in Next(cfg, s, step).tasks
    ensures step.Spawn? && step.t == t && Next(cfg, s, step).tasks[t] == Task(step.ueId, [], [], [], AwaitFirst, [])
  {
  }

  /**
   As long as no F1 removal has cleared the channels: a task is listed under its own id, and its
   channel goes exactly when it has torn its UE context down. A task that ends on its first message
   has none, and its channel stays.
   */
  lemma {:induction false} ChannelsInRun(cfg: Config, states: seq<State>, steps: seq<Step>, n: nat)
    requires Run(cfg, states, steps) && n <= |steps| && forall j | 0 <= j < n :: !steps[j].ClearChannels?
    ensures ChannelsOk(states[n])
  {
    if n > 0 {
      ChannelsInRun(cfg, states, steps, n - 1);
      assert Linked(cfg, states, steps, n - 1);
      ChannelsStep(cfg, states[n - 1], steps[n - 1]);
    }
  }

  /** In such a run, tearing down takes away the UE task's own channel and no other. */
  lemma TeardownRemovesOwn(cfg: Config, states: seq<State>, steps: seq<Step>, n: nat)
    requires Run(cfg, states, steps) && n < |steps| && forall j | 0 <= j < n :: !steps[j].ClearChannels?
    requires steps[n].DeleteChannel?
    ensures forall t | t in states[n].tasks && Listed(states[n], t) && t != steps[n].t ::
      t in states[n + 1].tasks && Listed(states[n + 1], t)
    ensures steps[n].t in states[n].tasks && Listed(states[n], steps[n].t)
    ensures steps[n].t in states[n + 1].tasks && !Listed(states[n + 1], steps[n].t)
  {
    ChannelsInRun(cfg, states, steps, n);
    assert Linked(cfg, states, steps, n);
    SendersStep(cfg, states[n], steps[n]);
    assert ChannelOk(states[n], steps[n].t);
    forall t | t in states[n].tasks && Listed(states[n], t)
      ensures t in states[n + 1].tasks && states[n + 1].tasks[t].ueId == states[n].tasks[t].ueId
    {
      TaskStep(cfg, states[n], steps[n], t);
    }
  }

  /** A message dispatched to an id is queued last at the UE task listed under it, unless that is done, and nowhere else. */
  lemma DispatchExact(cfg: Config, s: State, ueId: nat, pdu: Pdu, t: nat)
    requires t in s.tasks && forall u | u in s.senders :: s.senders[u] in s.tasks && s.tasks[s.senders[u]].ueId == u
    ensures var s' := Next(cfg, s, Dispatch(ueId, pdu));
      && t in s'.tasks && s'.tasks[t].(queue := s.tasks[t].queue) == s.tasks[t]
      && s'.tasks[t].queue == s.tasks[t].queue
           + (if s.tasks[t].ueId == ueId && Listed(s, t) && !s.tasks[t].pc.Done? then [pdu] else [])
  {
  }

  // ---- With a cleared map, ids can be drawn again ----

  function Fresh(u: nat): (k: Task) {
    Task(u, [], [], [], AwaitFirst, [])
  }

  function Only(tasks: map<nat, Task>, senders: map<nat, nat>): (s: State) {
    Init().(tasks := tasks, senders := senders)
  }

  lemma OpenedReachable(cfg: Config, u: nat)
    ensures Reachable(cfg, Only(map[0 := Fresh(u).(received := [InitialUlRrc(true, true)], pc := AwaitSetupComplete)], map[u := 0]))
  {
    var first := InitialUlRrc(true, true);
    InitReachable(cfg);
    StepReachable(cfg, Init(), Spawn(0, u));
    var s1 := Only(map[0 := Fresh(u)], map[u := 0]);
    assert Next(cfg, Init(), Spawn(0, u)) == s1;
    StepReachable(cfg, s1, Dispatch(u, first));
    var s2 := Only(map[0 := Fresh(u).(queue := [first])], map[u := 0]);
    assert Next(cfg, s1, Dispatch(u, first)) == s2 by {
      assert [] + [first] == [first];
      assert s1.tasks[0 := Fresh(u).(queue := [first])] == s2.tasks;
    }
    StepReachable(cfg, s2, Receive(0, []));
    var s3 := Only(map[0 := Fresh(u).(received := [first], pc := AwaitSetupComplete)], map[u := 0]);
    assert Next(cfg, s2, Receive(0, [])) == s3 by {
      assert [] + [first] == [first] && [first][1..] == [];
      assert s2.tasks[0 := s3.tasks[0]] == s3.tasks;
    }
  }

  /**
   Then a task that is still draining takes away the channel of a new task with its old id: a state
   in which the teardown of task 0 would leave task 1 at its first message without a channel.
   */
  lemma ReusedIdLosesChannel(cfg: Config, u: nat) returns (s: State)
    ensures Reachable(cfg, s) && Enabled(s, DeleteChannel(0))
    ensures 1 in s.tasks && Listed(s, 1) && s.tasks[1].pc == AwaitFirst
    ensures var s' := Next(cfg, s, DeleteChannel(0)); 1 in s'.tasks && !Listed(s', 1) && s'.tasks[1].pc == AwaitFirst
  {
    OpenedReachable(cfg, u);
    var k := Fresh(u).(received := [InitialUlRrc(true, true)], pc := AwaitSetupComplete);
    var s3 := Only(map[0 := k], map[u := 0]);
    StepReachable(cfg, s3, ClearChannels);
    var s4 := Only(map[0 := k], map[]);
    assert Next(cfg, s3, ClearChannels) == s4;
    StepReachable(cfg, s4, Spawn(1, u));
    var s5 := Only(map[0 := k, 1 := Fresh(u)], map[u := 1]);
    assert Next(cfg, s4, Spawn(1, u)) == s5;
    StepReachable(cfg, s5, ReceiveError(0));
    s := Only(map[0 := k.(pc := Destroying), 1 := Fresh(u)], map[u := 1]);
    assert Next(cfg, s5, ReceiveError(0)) == s;
  }
}
