/**
 The transaction layer under F1AP. Requests wait in a shared vector, each with a test on the first
 two octets of a message. The receive loop finds the first match under one lock and removes it
 under a second lock, by moving the last entry into its place, while other tasks push. One
 association, and so one receive loop, is modelled.
 */
module Transactions {
  import opened Bytes

  type Message = seq<byte>

  /** A waiting request: its identity (its response channel) and its procedure code. */
  datatype Pending = Pending(id: nat, code: byte)

  /** An outcome, successful or not, going by its first octet. */
  predicate IsOutcome(m: Message) {
    |m| >= 2 && m[0] != 0
  }

  predicate Matches(code: byte, m: Message) {
    IsOutcome(m) && m[1] == code
  }

  /** The test looks at the first octet, and at the second unless the first is zero. */
  predicate TestPanics(m: Message) {
    m == [] || (|m| == 1 && m[0] != 0)
  }

  datatype Scan = Found(index: nat) | Missing | Panicked

  // ---- The vector ----

  function FirstMatch(p: seq<Pending>, m: Message): (r: Option<nat>)
    ensures r.Some? ==> r.value < |p| && Matches(p[r.value].code, m) && forall j | 0 <= j < r.value :: !Matches(p[j].code, m)
    ensures r.None? ==> forall j | 0 <= j < |p| :: !Matches(p[j].code, m)
  {
    if p == [] then None
    else if Matches(p[0].code, m) then Some(0)
    else
      var r := FirstMatch(p[1..], m);
      assert forall j | 1 <= j < |p| :: p[j] == p[1..][j - 1];
      if r.None? then None else Some(r.value + 1)
  }

  function SwapRemove(p: seq<Pending>, i: nat): (r: seq<Pending>)
    requires i < |p|
    ensures |r| == |p| - 1
    ensures forall j | 0 <= j < |r| :: r[j] == if j == i then p[|p| - 1] else p[j]
  {
    if i == |p| - 1 then p[..i] else p[..|p| - 1][i := p[|p| - 1]]
  }

  /** It removes that one entry and no other. */
  lemma SwapRemoveContents(p: seq<Pending>, i: nat)
    requires i < |p|
    ensures multiset(SwapRemove(p, i)) + multiset{p[i]} == multiset(p)
  {
    var last := |p| - 1;
    assert p == p[..last] + [p[last]];
    if i < last {
      assert p[..last] == p[..i] + [p[i]] + p[i + 1..last];
      assert SwapRemove(p, i) == p[..i] + [p[last]] + p[i + 1..last];
    }
  }

  /** The first match stays the first match when entries are appended. */
  lemma PushKeepsMatch(p: seq<Pending>, e: Pending, m: Message)
    requires FirstMatch(p, m).Some?
    ensures FirstMatch(p + [e], m) == FirstMatch(p, m)
  {
    var i, r := FirstMatch(p, m).value, FirstMatch(p + [e], m);
    assert (p + [e])[i] == p[i];
    assert r.Some?;
    assert forall j | 0 <= j < i :: (p + [e])[j] == p[j];
  }

  /** The shared vector as the code updates it; each method is one critical section. */
  class PendingRequests {
    var entries: seq<Pending>

    constructor ()
      ensures entries == []
    {
      entries := [];
    }

    method Push(e: Pending)
      modifies this
      ensures entries == old(entries) + [e]
    {
      entries := entries + [e];
    }

    /** The scan with its octet accesses; a message too short for the test breaks the receive loop. */
    method Position(m: Message) returns (r: Scan)
      ensures r.Panicked? <==> entries != [] && TestPanics(m)
      ensures r.Found? ==> FirstMatch(entries, m) == Some(r.index)
      ensures r.Missing? ==> FirstMatch(entries, m) == None
    {
      for i := 0 to |entries|
        invariant forall j | 0 <= j < i :: !Matches(entries[j].code, m)
        invariant i > 0 ==> !TestPanics(m)
      {
        if |m| == 0 {
          return Panicked;
        }
        if m[0] != 0 {
          if |m| == 1 {
            return Panicked;
          }
          if m[1] == entries[i].code {
            return Found(i);
          }
        }
      }
      r := Missing;
    }

    method TakeAt(i: nat) returns (e: Pending)
      requires i < |entries|
      modifies this
      ensures e == old(entries)[i] && entries == SwapRemove(old(entries), i)
      ensures multiset(entries) + multiset{e} == multiset(old(entries))
    {
      SwapRemoveContents(entries, i);
      e := entries[i];
      entries := SwapRemove(entries, i);
    }

    /** Termination of the association drops every waiting request. */
    method Drain() returns (dropped: seq<Pending>)
      modifies this
      ensures dropped == old(entries) && entries == []
    {
      dropped := [];
      while entries != []
        invariant dropped + entries == old(entries)
        decreases |entries|
      {
        dropped := dropped + [entries[0]];
        entries := entries[1..];
      }
    }
  }

  // ---- Two locks, with other tasks in between ----

  /** The receive loop: between messages, between its two locks, or ended by a panic of the test. */
  datatype Receiver = Ready | Holding(index: nat, m: Message, cause: nat) | Broken(m: Message)

  /** A response handed over: to which request, and which request had provoked it. */
  datatype Delivery = Delivery(entry: Pending, m: Message, cause: nat)

  datatype State = State(
    pending: seq<Pending>,
    receiver: Receiver,
    pushed: seq<Pending>,
    delivered: seq<Delivery>,
    spawned: seq<Message>,
    dropped: seq<Pending>,
    dead: set<nat>)

  datatype Step =
    | Push(e: Pending)
    | SendFailed(id: nat)
    | Find(m: Message, cause: nat)
    | Remove
    | Terminate

  function Init(): (s: State) {
    State([], Ready, [], [], [], [], {})
  }

  /**
   Each request has its own channel, and the receive loop finishes one message before the next. A
   request whose send fails returns at once and leaves its entry behind, its channel dead.
   */
  ghost predicate Enabled(s: State, step: Step) {
    match step
    case Push(e) => forall x | x in s.pushed :: x.id != e.id
    case SendFailed(id) => exists x :: x in s.pushed && x.id == id
    case Find(_, _) => s.receiver.Ready?
    case Remove => s.receiver.Holding? && s.receiver.index < |s.pending|
    case Terminate => s.receiver.Ready?
  }

  function Next(s: State, step: Step): (r: State)
    requires Enabled(s, step)
  {
    match step
    case Push(e) => s.(pending := s.pending + [e], pushed := s.pushed + [e])
    case SendFailed(id) => s.(dead := s.dead + {id})
    case Find(m, cause) => if s.pending != [] && TestPanics(m) then s.(receiver := Broken(m)) else (
      match FirstMatch(s.pending, m)
      case Some(i) => s.(receiver := Holding(i, m, cause))
      case None => s.(spawned := s.spawned + [m]))
    case Remove =>
      var Holding(i, m, cause) := s.receiver;
      s.(pending := SwapRemove(s.pending, i), receiver := Ready, delivered := s.delivered + [Delivery(s.pending[i], m, cause)])
    case Terminate => s.(pending := [], dropped := s.dropped + s.pending)
  }

  ghost predicate Legal(steps: seq<Step>)
    decreases |steps|, 0
  {
    steps == [] || (Legal(steps[..|steps| - 1]) && Enabled(After(steps[..|steps| - 1]), steps[|steps| - 1]))
  }

  ghost function After(steps: seq<Step>): State
    requires Legal(steps)
    decreases |steps|, 1
  {
    if steps == [] then Init() else Next(After(steps[..|steps| - 1]), steps[|steps| - 1])
  }

  // ---- The reference: find and remove in one critical section ----

  datatype AtomicState = AtomicState(
    pending: seq<Pending>, delivered: seq<Delivery>, spawned: seq<Message>, dropped: seq<Pending>, broken: bool)

  datatype AtomicStep = AtomicPush(e: Pending) | AtomicHandle(m: Message, cause: nat) | AtomicTerminate

  function AtomicNext(s: AtomicState, step: AtomicStep): (r: AtomicState) {
    match step
    case AtomicPush(e) => s.(pending := s.pending + [e])
    case AtomicHandle(m, cause) => if s.pending != [] && TestPanics(m) then s.(broken := true) else (
      match FirstMatch(s.pending, m)
      case Some(i) =>
        s.(pending := SwapRemove(s.pending, i), delivered := s.delivered + [Delivery(s.pending[i], m, cause)])
      case None => s.(spawned := s.spawned + [m]))
    case AtomicTerminate => s.(pending := [], dropped := s.dropped + s.pending)
  }

  function AtomicAfter(steps: seq<AtomicStep>): (s: AtomicState) {
    if steps == [] then AtomicState([], [], [], [], false) else AtomicNext(AtomicAfter(steps[..|steps| - 1]), steps[|steps| - 1])
  }

  /** The step of the reference that a step stands for: the handling of a message takes effect at its second lock. */
  ghost function Meaning(s: State, step: Step): (r: seq<AtomicStep>)
    requires Enabled(s, step)
    ensures |r| <= 1
  {
    match step
    case Push(e) => [AtomicPush(e)]
    case SendFailed(_) => []
    case Find(m, cause) => if FirstMatch(s.pending, m).Some? then [] else [AtomicHandle(m, cause)]
    case Remove => [AtomicHandle(s.receiver.m, s.receiver.cause)]
    case Terminate => [AtomicTerminate]
  }

  ghost function Meanings(steps: seq<Step>): seq<AtomicStep>
    requires Legal(steps)
  {
    if steps == [] then []
    else Meanings(steps[..|steps| - 1]) + Meaning(After(steps[..|steps| - 1]), steps[|steps| - 1])
  }

  ghost function Observed(s: State): AtomicState {
    AtomicState(s.pending, s.delivered, s.spawned, s.dropped, s.receiver.Broken?)
  }

  /** Between the two locks the index goes on naming the first match. */
  ghost predicate IndexGood(s: State) {
    s.receiver.Holding? ==> FirstMatch(s.pending, s.receiver.m) == Some(s.receiver.index)
  }

  lemma {:induction false} IndexStaysGood(steps: seq<Step>)
    requires Legal(steps)
    ensures IndexGood(After(steps))
  {
    if steps != [] {
      var init, step := steps[..|steps| - 1], steps[|steps| - 1];
      IndexStaysGood(init);
      var s := After(init);
      if step.Push? && s.receiver.Holding? {
        PushKeepsMatch(s.pending, step.e, s.receiver.m);
      }
    }
  }

  lemma StepRefines(s: State, step: Step)
    requires Enabled(s, step) && IndexGood(s)
    ensures var ms := Meaning(s, step);
      Observed(Next(s, step)) == if ms == [] then Observed(s) else AtomicNext(Observed(s), ms[0])
  {
  }

  /**
   Find-then-remove under two locks, interleaved in any way with pushes, is find-and-remove in one
   step: vector, deliveries, new procedures, dropped requests and panics are those of the reference.
   */
  lemma {:induction false} TwoLocksRefineOne(steps: seq<Step>)
    requires Legal(steps)
    ensures Observed(After(steps)) == AtomicAfter(Meanings(steps))
  {
    if steps != [] {
      var init, step := steps[..|steps| - 1], steps[|steps| - 1];
      TwoLocksRefineOne(init);
      IndexStaysGood(init);
      var ms := Meaning(After(init), step);
      StepRefines(After(init), step);
      if ms == [] {
        assert Meanings(steps) == Meanings(init);
      } else {
        assert Meanings(steps)[..|Meanings(steps)| - 1] == Meanings(init);
      }
    }
  }

  /** A receiver that holds an index can always finish: no removal ever falls outside the vector. */
  lemma RemoveNeverPanics(steps: seq<Step>)
    requires Legal(steps) && After(steps).receiver.Holding?
    ensures Enabled(After(steps), Remove)
  {
    IndexStaysGood(steps);
  }

  // ---- Conservation ----

  ghost function Entries(ds: seq<Delivery>): seq<Pending> {
    seq(|ds|, i requires 0 <= i < |ds| => ds[i].entry)
  }

  lemma EntriesSnoc(ds: seq<Delivery>, d: Delivery)
    ensures Entries(ds + [d]) == Entries(ds) + [d.entry]
  {
  }

  /** Every request pushed is, as one and the same, still waiting, delivered to, or dropped. */
  lemma {:induction false} RequestsConserved(steps: seq<Step>)
    requires Legal(steps)
    ensures var s := After(steps);
      multiset(s.pushed) == multiset(s.pending) + multiset(Entries(s.delivered)) + multiset(s.dropped)
  {
    if steps != [] {
      var init, step := steps[..|steps| - 1], steps[|steps| - 1];
      RequestsConserved(init);
      ConservedStep(After(init), step);
    }
  }

  lemma ConservedStep(s: State, step: Step)
    requires Enabled(s, step)
    requires multiset(s.pushed) == multiset(s.pending) + multiset(Entries(s.delivered)) + multiset(s.dropped)
    ensures var s' := Next(s, step);
      multiset(s'.pushed) == multiset(s'.pending) + multiset(Entries(s'.delivered)) + multiset(s'.dropped)
  {
    if step.Remove? {
      var i := s.receiver.index;
      SwapRemoveContents(s.pending, i);
      EntriesSnoc(s.delivered, Delivery(s.pending[i], s.receiver.m, s.receiver.cause));
    }
  }

  /** The messages the receive loop took up. */
  ghost function Taken(steps: seq<Step>): multiset<Message> {
    if steps == [] then multiset{}
    else Taken(steps[..|steps| - 1]) + if steps[|steps| - 1].Find? then multiset{steps[|steps| - 1].m} else multiset{}
  }

  ghost function Messages(ds: seq<Delivery>): seq<Message> {
    seq(|ds|, i requires 0 <= i < |ds| => ds[i].m)
  }

  /** The message between the locks, or the one that ended the loop. */
  ghost function InHands(r: Receiver): seq<Message> {
    if r.Ready? then [] else [r.m]
  }

  lemma FindTakes(s: State, m: Message, cause: nat)
    requires s.receiver.Ready?
    ensures var s' := Next(s, Find(m, cause));
      && s'.delivered == s.delivered
      && multiset(s'.spawned) + multiset(InHands(s'.receiver)) == multiset(s.spawned) + multiset{m}
  {
  }

  lemma RemoveDelivers(s: State)
    requires Enabled(s, Remove)
    ensures var s' := Next(s, Remove);
      && s'.spawned == s.spawned && s'.receiver.Ready?
      && multiset(Messages(s'.delivered)) == multiset(Messages(s.delivered)) + multiset{s.receiver.m}
  {
    var d := Delivery(s.pending[s.receiver.index], s.receiver.m, s.receiver.cause);
    assert Messages(s.delivered + [d]) == Messages(s.delivered) + [d.m];
  }

  lemma MessagesStep(s: State, step: Step, taken: multiset<Message>)
    requires Enabled(s, step)
    requires taken == multiset(Messages(s.delivered)) + multiset(s.spawned) + multiset(InHands(s.receiver))
    ensures var s' := Next(s, step);
      taken + (if step.Find? then multiset{step.m} else multiset{})
      == multiset(Messages(s'.delivered)) + multiset(s'.spawned) + multiset(InHands(s'.receiver))
  {
    var s' := Next(s, step);
    var d, sp, ih := multiset(Messages(s.delivered)), multiset(s.spawned), multiset(InHands(s.receiver));
    var d', sp', ih' := multiset(Messages(s'.delivered)), multiset(s'.spawned), multiset(InHands(s'.receiver));
    if step.Remove? {
      RemoveDelivers(s);
      Regroup(sp, ih', d, d', s.receiver.m);
    } else if step.Find? {
      FindTakes(s, step.m, step.cause);
      Regroup(d, ih, sp, sp' + ih', step.m);
    }
  }

  lemma Regroup<T>(a: multiset<T>, none: multiset<T>, b: multiset<T>, b': multiset<T>, m: T)
    requires none == multiset{} && b' == b + multiset{m}
    ensures a + b + none + multiset{m} == a + b' && b + a + multiset{m} + none == b' + a + none
  {
  }

  /** Every message taken up is, once, delivered, taken for a request of the peer, in hand, or the one that broke the loop. */
  lemma {:induction false} MessagesConserved(steps: seq<Step>)
    requires Legal(steps)
    ensures var s := After(steps);
      Taken(steps) == multiset(Messages(s.delivered)) + multiset(s.spawned) + multiset(InHands(s.receiver))
    ensures After(steps).receiver.Broken? ==> TestPanics(After(steps).receiver.m)
  {
    if steps != [] {
      MessagesConserved(steps[..|steps| - 1]);
      MessagesStep(After(steps[..|steps| - 1]), steps[|steps| - 1], Taken(steps[..|steps| - 1]));
    }
  }

  ghost predicate DistinctIds(p: seq<Pending>) {
    forall i, j | 0 <= i < j < |p| :: p[i].id != p[j].id
  }

  lemma {:induction false} PushedDistinct(steps: seq<Step>)
    requires Legal(steps)
    ensures DistinctIds(After(steps).pushed)
  {
    if steps != [] {
      PushedDistinct(steps[..|steps| - 1]);
    }
  }

  lemma {:induction false} DistinctCount(p: seq<Pending>, e: Pending)
    requires DistinctIds(p)
    ensures multiset(p)[e] <= 1
  {
    if p != [] {
      var init := p[..|p| - 1];
      assert p == init + [p[|p| - 1]];
      DistinctCount(init, e);
      if e == p[|p| - 1] {
        assert e !in init;
      }
    }
  }

  /** A request is delivered to at most once, never after it was dropped or while it still waits. */
  lemma DeliveredAtMostOnce(steps: seq<Step>, e: Pending)
    requires Legal(steps)
    ensures var s := After(steps);
      multiset(s.pending)[e] + multiset(Entries(s.delivered))[e] + multiset(s.dropped)[e] <= 1
  {
    RequestsConserved(steps);
    PushedDistinct(steps);
    DistinctCount(After(steps).pushed, e);
  }

  /** Every delivery is a response of the request's own procedure. */
  lemma {:induction false} DeliveredWithOwnCode(steps: seq<Step>, k: nat)
    requires Legal(steps) && k < |After(steps).delivered|
    ensures var d := After(steps).delivered[k]; Matches(d.entry.code, d.m)
  {
    if steps != [] {
      var init := steps[..|steps| - 1];
      IndexStaysGood(init);
      if k < |After(init).delivered| {
        DeliveredWithOwnCode(init, k);
      }
    }
  }
}
