/** F1 removal clears every sender; each UE task then runs down to its end. */
module UeDrain {
  import opened Bytes
  import opened Userplane
  import opened UeSystem
  import opened UeInvariant
  import opened UeSteps

  /** A step that task t itself takes. */
  ghost predicate Own(step: Step, t: nat) {
    !step.Spawn? && !step.Dispatch? && !step.ClearChannels? && !step.DownlinkPacket? && step.t == t
  }

  /** A step of task t that needs no reply of the DU and is no failure. */
  ghost predicate Unprompted(step: Step, t: nat) {
    Own(step, t) && !step.Fail? && !step.ContextSetup? && !step.ReleaseReply?
  }

  /** Steps left to a position when nothing more is received. */
  function StepsLeft(pc: Pc): (n: nat) {
    match pc
    case Done => 0
    case DestroyingUplink => 0
    case Destroying => 1
    case AwaitRrcSecurity => 3
    case NeedSlot => 9
    case NeedUplinkRule(_) => 8
    case AwaitContextSetup(_) => 7
    case NeedDownlinkRule(_, _) => 6
    case NeedRecord(_) => 5
    case _ => 2
  }

  /** An upper bound on the steps of a task whose channel is closed. */
  function Work(k: Task): (n: nat) {
    8 * |k.queue| + 2 * |k.sessions| + StepsLeft(k.pc)
  }

  lemma ReceiveWorks(cfg: Config, s: State, t: nat, rand: seq<byte>)
    requires t in s.tasks && Receives(s.tasks[t].pc) && s.tasks[t].queue != []
    ensures var k, k' := s.tasks[t], Received(cfg, s, t, rand).tasks[t];
      Work(k') < Work(k) && |k'.queue| == |k.queue| - 1
  {
    var k := s.tasks[t];
    assert StepsLeft(OnMessage(cfg, k, k.queue[0])) <= 9 && StepsLeft(k.pc) >= 2;
  }

  lemma TakeSlotWorks(cfg: Config, s: State, t: nat, id: nat, top: (byte, byte, byte))
    requires t in s.tasks && s.tasks[t].pc.NeedSlot?
    ensures var k, k' := s.tasks[t], SlotTaken(cfg, s, t, id, top).tasks[t]; Work(k') < Work(k) && k'.queue == k.queue
  {
  }

  lemma FailWorks(s: State, t: nat)
    requires t in s.tasks && CanFail(s.tasks[t].pc)
    ensures var k, k' := s.tasks[t], Failed(s, t).tasks[t]; Work(k') < Work(k) && k'.queue == k.queue
  {
  }

  lemma RuleWorks(cfg: Config, s: State, step: Step, t: nat)
    requires Enabled(s, step) && Own(step, t)
    requires step.AddUplinkRule? || step.AddDownlinkRule? || step.Record? || step.RemoveDownlinkRule? || step.RemoveUplinkRule?
    ensures t in Next(cfg, s, step).tasks
    ensures var k, k' := s.tasks[t], Next(cfg, s, step).tasks[t]; Work(k') < Work(k) && k'.queue == k.queue
  {
  }

  lemma OwnStepWorks(cfg: Config, s: State, step: Step, t: nat)
    requires Enabled(s, step) && Own(step, t)
    ensures t in s.tasks && t in Next(cfg, s, step).tasks
    ensures Work(Next(cfg, s, step).tasks[t]) < Work(s.tasks[t])
    ensures |Next(cfg, s, step).tasks[t].queue| == |s.tasks[t].queue| - if step.Receive? then 1 else 0
  {
    match step
    case Receive(_, rand) => ReceiveWorks(cfg, s, t, rand);
    case TakeSlot(_, id, top) => TakeSlotWorks(cfg, s, t, id, top);
    case Fail(_) => FailWorks(s, t);
    case ReceiveError(_) =>
    case ContextSetup(_, _) =>
    case ReleaseReply(_) =>
    case DeleteChannel(_) =>
    case _ => RuleWorks(cfg, s, step, t);
  }

  lemma SendersShrink(cfg: Config, s: State, step: Step)
    requires Enabled(s, step) && !step.Spawn?
    ensures forall u | u in Next(cfg, s, step).senders :: u in s.senders && Next(cfg, s, step).senders[u] == s.senders[u]
  {
  }

  lemma OthersLeaveIt(cfg: Config, s: State, step: Step, t: nat)
    requires Enabled(s, step) && t in s.tasks && !Own(step, t) && !step.Dispatch?
    ensures t in Next(cfg, s, step).tasks && Next(cfg, s, step).tasks[t] == s.tasks[t]
  {
  }

  /** A closed channel stays closed, and only its own task's steps touch a task behind it. */
  lemma ClosedStays(cfg: Config, s: State, step: Step, t: nat)
    requires Enabled(s, step) && t in s.tasks && Closed(s, t)
    ensures t in Next(cfg, s, step).tasks && Closed(Next(cfg, s, step), t)
    ensures !Own(step, t) ==> Next(cfg, s, step).tasks[t] == s.tasks[t]
  {
    if !step.Spawn? {
      SendersShrink(cfg, s, step);
    }
    if Own(step, t) {
      OwnStepWorks(cfg, s, step, t);
    } else if !step.Dispatch? {
      OthersLeaveIt(cfg, s, step, t);
    }
  }

  ghost function OwnSteps(steps: seq<Step>, t: nat): nat {
    if steps == [] then 0 else OwnSteps(steps[..|steps| - 1], t) + if Own(steps[|steps| - 1], t) then 1 else 0
  }

  ghost function ReceivesBy(steps: seq<Step>, t: nat): nat {
    if steps == [] then 0
    else ReceivesBy(steps[..|steps| - 1], t) + if Own(steps[|steps| - 1], t) && steps[|steps| - 1].Receive? then 1 else 0
  }

  lemma {:induction false} ClosedTaskRunsDown(cfg: Config, states: seq<State>, steps: seq<Step>, m: nat, n: nat, t: nat)
    requires Run(cfg, states, steps) && m <= n <= |steps| && t in states[m].tasks && Closed(states[m], t)
    ensures t in states[n].tasks && Closed(states[n], t)
    ensures OwnSteps(steps[m..n], t) + Work(states[n].tasks[t]) <= Work(states[m].tasks[t])
    ensures ReceivesBy(steps[m..n], t) + |states[n].tasks[t].queue| == |states[m].tasks[t].queue|
    decreases n
  {
    if m < n {
      ClosedTaskRunsDown(cfg, states, steps, m, n - 1, t);
      var s, step := states[n - 1], steps[n - 1];
      assert steps[m..n][..n - 1 - m] == steps[m..n - 1] && steps[m..n][n - 1 - m] == step;
      assert Linked(cfg, states, steps, n - 1);
      ClosedStays(cfg, s, step, t);
      if Own(step, t) {
        OwnStepWorks(cfg, s, step, t);
      }
    }
  }

  /** The only waits a closed channel does not end are those for an F1AP reply. */
  ghost predicate AwaitsReply(pc: Pc) {
    pc.AwaitContextSetup? || pc.AwaitRelease?
  }

  lemma FreshId(pool: set<nat>) returns (id: nat)
    ensures id !in pool
  {
    if pool == {} {
      id := 0;
    } else {
      var top := Largest(pool);
      id := top + 1;
    }
  }

  lemma {:induction false} Largest(pool: set<nat>) returns (top: nat)
    requires pool != {}
    ensures top in pool && forall x | x in pool :: x <= top
    decreases |pool|
  {
    var x :| x in pool;
    top := x;
    if pool != {x} {
      var rest := Largest(pool - {x});
      top := if rest > x then rest else x;
      assert pool == (pool - {x}) + {x};
    }
  }

  /**
   Behind a closed channel a task moves on without reply and without failure, unless it is done or
   waits for an F1AP reply; in those two cases it does not.
   */
  lemma ClosedTaskNotStuck(cfg: Config, s: State, t: nat)
    requires Inv(cfg, s) && t in s.tasks && Closed(s, t)
    ensures (exists step :: Unprompted(step, t) && Enabled(s, step)) <==> !s.tasks[t].pc.Done? && !AwaitsReply(s.tasks[t].pc)
  {
    if !s.tasks[t].pc.Done? && !AwaitsReply(s.tasks[t].pc) {
      var step := Onward(cfg, s, t);
      assert Unprompted(step, t) && Enabled(s, step);
    }
  }

  /** What the UE task does next, given the reply it may be waiting for. */
  lemma Onward(cfg: Config, s: State, t: nat) returns (step: Step)
    requires Inv(cfg, s) && t in s.tasks && Closed(s, t) && !s.tasks[t].pc.Done?
    ensures Enabled(s, step) && Own(step, t) && !step.Fail?
    ensures Unprompted(step, t) <==> !AwaitsReply(s.tasks[t].pc)
  {
    var k := s.tasks[t];
    assert TaskOk(cfg, s, t);
    if Receives(k.pc) {
      step := if k.queue == [] then ReceiveError(t) else Receive(t, []);
    } else {
      var id := FreshId(s.pool);
      step :=
        match k.pc
        case NeedSlot => TakeSlot(t, id, (0, 0, 0))
        case NeedUplinkRule(_) => AddUplinkRule(t)
        case AwaitContextSetup(_) => ContextSetup(t, Tunnel([], Quad(0, 0, 0, 0)))
        case NeedDownlinkRule(_, _) => AddDownlinkRule(t)
        case NeedRecord(_) => Record(t)
        case AwaitRelease => ReleaseReply(t)
        case Destroying => if k.sessions == [] then DeleteChannel(t) else RemoveDownlinkRule(t)
        case _ => RemoveUplinkRule(t);
    }
  }

  /** Steps of task t alone, none of them a failure, from one state on. */
  ghost predicate RunsAlone(cfg: Config, states: seq<State>, steps: seq<Step>, t: nat) {
    && |states| == |steps| + 1
    && forall i | 0 <= i < |steps| :: Linked(cfg, states, steps, i) && Own(steps[i], t) && !steps[i].Fail?
  }

  /** From wherever it stands, its replies given, a task gets to its end by itself, in at most Work steps. */
  lemma {:induction false} FinishesAlone(cfg: Config, s: State, t: nat) returns (states: seq<State>, steps: seq<Step>)
    requires Inv(cfg, s) && t in s.tasks && Closed(s, t)
    ensures RunsAlone(cfg, states, steps, t) && states[0] == s && |steps| <= Work(s.tasks[t])
    ensures t in states[|steps|].tasks && states[|steps|].tasks[t].pc.Done?
    decreases Work(s.tasks[t])
  {
    if s.tasks[t].pc.Done? {
      return [s], [];
    }
    var step := Onward(cfg, s, t);
    var s' := Next(cfg, s, step);
    OwnStepWorks(cfg, s, step, t);
    ClosedStays(cfg, s, step, t);
    StepKeepsInv(cfg, s, step);
    var rest, more := FinishesAlone(cfg, s', t);
    StepFirst(cfg, s, step, rest, more, t);
    states, steps := [s] + rest, [step] + more;
  }

  lemma StepFirst(cfg: Config, s: State, step: Step, rest: seq<State>, more: seq<Step>, t: nat)
    requires Enabled(s, step) && Own(step, t) && !step.Fail?
    requires RunsAlone(cfg, rest, more, t) && rest[0] == Next(cfg, s, step)
    ensures RunsAlone(cfg, [s] + rest, [step] + more, t)
  {
    var states, steps := [s] + rest, [step] + more;
    forall i | 0 <= i < |steps| ensures Linked(cfg, states, steps, i) && Own(steps[i], t) && !steps[i].Fail? {
      if i > 0 {
        assert Linked(cfg, rest, more, i - 1);
      }
    }
  }

  /**
   After an F1 removal at step m, a task makes at most as many successful receives as messages
   were queued for it and at most Work steps in all. Until it is done, unless it waits for an
   F1AP reply, it can move on without a reply and without a failure; and its replies given, it
   gets to its end by itself in the steps that are left.
   */
  lemma RemovalDrains(cfg: Config, states: seq<State>, steps: seq<Step>, m: nat, n: nat, t: nat)
    returns (finish: seq<State>, own: seq<Step>)
    requires Run(cfg, states, steps) && m < n <= |steps| && steps[m].ClearChannels? && t in states[m].tasks
    ensures t in states[n].tasks
    ensures ReceivesBy(steps[m + 1..n], t) <= |states[m].tasks[t].queue|
    ensures OwnSteps(steps[m + 1..n], t) <= Work(states[m].tasks[t])
    ensures OwnSteps(steps[m + 1..n], t) == Work(states[m].tasks[t]) ==> states[n].tasks[t].pc.Done?
    ensures states[n].tasks[t].pc.Done? || AwaitsReply(states[n].tasks[t].pc)
      || exists step :: Unprompted(step, t) && Enabled(states[n], step)
    ensures RunsAlone(cfg, finish, own, t) && finish[0] == states[n]
    ensures OwnSteps(steps[m + 1..n], t) + |own| <= Work(states[m].tasks[t])
    ensures t in finish[|own|].tasks && finish[|own|].tasks[t].pc.Done?
  {
    assert Linked(cfg, states, steps, m);
    assert Closed(states[m + 1], t) && states[m + 1].tasks[t] == states[m].tasks[t];
    ClosedTaskRunsDown(cfg, states, steps, m + 1, n, t);
    RunKeepsInv(cfg, states, steps, n);
    ClosedTaskNotStuck(cfg, states[n], t);
    assert TaskOk(cfg, states[n], t);
    finish, own := FinishesAlone(cfg, states[n], t);
  }
}
