/**
 Which request a response reaches. The test on a response sees its procedure code only, so two
 requests of one procedure are told apart by their place in the vector alone.
 */
module Routing {
  import opened Bytes
  import opened Transactions

  ghost predicate DistinctCodes(p: seq<Pending>) {
    forall i, j | 0 <= i < j < |p| :: p[i].code != p[j].code
  }

  function ResponseTo(code: byte): (m: Message) {
    [0x40, code]
  }

  /** Every waiting request would get its own response iff no two of them share a procedure code. */
  lemma OwnResponseIffDistinctCodes(p: seq<Pending>)
    ensures (forall i | 0 <= i < |p| :: FirstMatch(p, ResponseTo(p[i].code)) == Some(i)) <==> DistinctCodes(p)
  {
    if DistinctCodes(p) {
      forall i | 0 <= i < |p| ensures FirstMatch(p, ResponseTo(p[i].code)) == Some(i) {
        assert Matches(p[i].code, ResponseTo(p[i].code));
      }
    } else {
      var i, j :| 0 <= i < j < |p| && p[i].code == p[j].code;
      assert Matches(p[i].code, ResponseTo(p[j].code));
      assert FirstMatch(p, ResponseTo(p[j].code)) != Some(j);
    }
  }

  // ---- What the peer and the callers do, in terms of events ----

  /** The requests that outcomes received so far were answers to. */
  ghost function Answered(steps: seq<Step>): set<nat> {
    if steps == [] then {} else Answered(steps[..|steps| - 1]) + NewAnswer(steps[|steps| - 1])
  }

  ghost function NewAnswer(step: Step): set<nat> {
    if step.Find? && IsOutcome(step.m) then {step.cause} else {}
  }

  /** The peer sends an outcome only in answer to a request sent to it and not dropped, and one for each. */
  ghost predicate AnswerOk(s: State, answered: set<nat>, step: Step) {
    step.Find? && IsOutcome(step.m) ==>
      && Pending(step.cause, step.m[1]) in s.pushed && Pending(step.cause, step.m[1]) !in s.dropped
      && step.cause !in s.dead && step.cause !in answered
  }

  ghost predicate Honest(steps: seq<Step>)
    requires Legal(steps)
    decreases |steps|
  {
    steps == [] || (
      var init, step := steps[..|steps| - 1], steps[|steps| - 1];
      Honest(init) && AnswerOk(After(init), Answered(init), step))
  }

  /** A request is outstanding until it is answered or dropped; one whose send failed is never answered. */
  ghost predicate Outstanding(s: State, answered: set<nat>, x: Pending) {
    x in s.pushed && x !in s.dropped && x.id !in answered
  }

  /** No request is made while another of its procedure is outstanding. */
  ghost predicate PushOk(s: State, answered: set<nat>, step: Step) {
    step.Push? ==> forall x | Outstanding(s, answered, x) :: x.code != step.e.code
  }

  ghost predicate OneAtATime(steps: seq<Step>)
    requires Legal(steps)
    decreases |steps|
  {
    steps == [] || (
      var init, step := steps[..|steps| - 1], steps[|steps| - 1];
      OneAtATime(init) && PushOk(After(init), Answered(init), step))
  }

  // ---- Bookkeeping ----

  lemma Extend(steps: seq<Step>, step: Step)
    requires Legal(steps) && Enabled(After(steps), step)
    ensures var r := steps + [step];
      && Legal(r) && After(r) == Next(After(steps), step) && r[..|r| - 1] == steps && r[|r| - 1] == step
      && (Honest(r) <==> Honest(steps) && AnswerOk(After(steps), Answered(steps), step))
      && Answered(r) == Answered(steps) + NewAnswer(step)
  {
    assert (steps + [step])[..|steps|] == steps;
  }

  /** Every request is in one place: waiting at one index, delivered to, or dropped. */
  ghost predicate Placed(s: State) {
    && DistinctIds(s.pushed) && DistinctIds(s.pending)
    && (forall x | x in s.pending :: x in s.pushed && x !in s.dropped)
    && (forall x | x in s.dropped :: x in s.pushed)
    && (forall x | x in s.pushed :: x in s.pending || x in s.dropped || x in Entries(s.delivered))
  }

  lemma AllPlaced(steps: seq<Step>)
    requires Legal(steps)
    ensures Placed(After(steps))
  {
    var s := After(steps);
    RequestsConserved(steps);
    PushedDistinct(steps);
    forall x | x in s.pending ensures x in s.pushed && x !in s.dropped {
      DeliveredAtMostOnce(steps, x);
      assert x in multiset(s.pending) && x in multiset(s.pushed);
    }
    forall x | x in s.dropped ensures x in s.pushed {
      assert x in multiset(s.dropped) && x in multiset(s.pushed);
    }
    forall x | x in s.pushed ensures x in s.pending || x in s.dropped || x in Entries(s.delivered) {
      assert x in multiset(s.pushed);
    }
    forall i, j | 0 <= i < j < |s.pending| ensures s.pending[i].id != s.pending[j].id {
      if s.pending[i].id == s.pending[j].id {
        SameId(s.pushed, s.pending[i], s.pending[j]);
        DeliveredAtMostOnce(steps, s.pending[i]);
        TwiceIn(s.pending, i, j);
      }
    }
  }

  lemma SameId(p: seq<Pending>, x: Pending, y: Pending)
    requires DistinctIds(p) && x in p && y in p && x.id == y.id
    ensures x == y
  {
  }

  lemma TwiceIn(p: seq<Pending>, i: nat, j: nat)
    requires i < j < |p| && p[i] == p[j]
    ensures multiset(p)[p[i]] >= 2
  {
    assert p == p[..j] + [p[j]] + p[j + 1..];
    assert p[i] in p[..j];
  }

  // ---- Every answer reaches the request it answers ----

  /** No delivery so far went to another request than the one that provoked it. */
  ghost predicate NoneMixed(s: State) {
    forall d | d in s.delivered :: d.entry.id == d.cause
  }

  ghost predicate HasId(p: seq<Pending>, id: nat) {
    exists x :: x in p && x.id == id
  }

  /** A request that was answered waits no longer, unless its answer is between the two locks. */
  ghost predicate Settled(s: State, answered: set<nat>) {
    && (forall x | x in s.pending && x.id in answered :: s.receiver.Holding? && s.receiver.cause == x.id)
    && (forall d | d in s.delivered :: d.cause in answered)
    && (s.receiver.Holding? ==> s.receiver.cause in answered && IsOutcome(s.receiver.m))
    && (forall x | x in s.dropped :: x.id !in answered)
    && (forall a | a in answered :: HasId(s.pushed, a))
  }

  lemma SettledStep(s: State, answered: set<nat>, step: Step)
    requires Enabled(s, step) && Placed(s) && Settled(s, answered) && AnswerOk(s, answered, step)
    requires NoneMixed(Next(s, step))
    ensures Settled(Next(s, step), answered + NewAnswer(step))
  {
    var s', answered' := Next(s, step), answered + NewAnswer(step);
    match step
    case Push(e) =>
      assert HasId(s'.pushed, e.id);
      forall a | a in answered ensures HasId(s'.pushed, a) && a != e.id {
        var x :| x in s.pushed && x.id == a;
        assert x in s'.pushed;
      }
    case Find(m, cause) => FindSettles(s, answered, m, cause);
    case Remove => RemoveSettles(s, answered);
    case _ =>
  }

  lemma FindSettles(s: State, answered: set<nat>, m: Message, cause: nat)
    requires s.receiver.Ready? && Placed(s) && Settled(s, answered) && AnswerOk(s, answered, Find(m, cause))
    ensures Settled(Next(s, Find(m, cause)), answered + NewAnswer(Find(m, cause)))
  {
    if IsOutcome(m) {
      var y := Pending(cause, m[1]);
      assert HasId(s.pushed, cause);
      forall x | x in s.pending && x.id == cause ensures FirstMatch(s.pending, m).Some? {
        SameId(s.pushed, x, y);
        assert Matches(x.code, m);
      }
      forall x | x in s.dropped ensures x.id != cause {
        if x.id == cause {
          SameId(s.pushed, x, y);
        }
      }
    }
  }

  lemma RemoveSettles(s: State, answered: set<nat>)
    requires Enabled(s, Remove) && Placed(s) && Settled(s, answered) && NoneMixed(Next(s, Remove))
    ensures Settled(Next(s, Remove), answered)
  {
    var s', i := Next(s, Remove), s.receiver.index;
    assert s'.delivered[|s.delivered|] in s'.delivered;
    assert s.pending[i].id == s.receiver.cause;
    forall x | x in s'.pending ensures x in s.pending && x.id != s.receiver.cause {
      LeftIsOther(s.pending, i, x);
    }
  }

  lemma LeftIsOther(p: seq<Pending>, i: nat, x: Pending)
    requires i < |p| && DistinctIds(p) && x in SwapRemove(p, i)
    ensures x in p && x.id != p[i].id
  {
    var k :| 0 <= k < |SwapRemove(p, i)| && SwapRemove(p, i)[k] == x;
    var k' := if k == i then |p| - 1 else k;
    assert p[k'] == x;
  }

  lemma {:induction false} AnsweredIsGone(steps: seq<Step>)
    requires Legal(steps) && Honest(steps) && NoneMixed(After(steps))
    ensures Settled(After(steps), Answered(steps))
  {
    if steps != [] {
      var init, step := steps[..|steps| - 1], steps[|steps| - 1];
      var s, s' := After(init), After(steps);
      assert NoneMixed(s) by {
        assert forall d | d in s.delivered :: d in s'.delivered;
      }
      AnsweredIsGone(init);
      AllPlaced(init);
      SettledStep(s, Answered(init), step);
    }
  }

  /** The held entry is the request answered; all others that wait differ in their codes. */
  ghost predicate Routed(s: State) {
    && (s.receiver.Holding? ==>
          s.receiver.index < |s.pending| && s.pending[s.receiver.index].id == s.receiver.cause)
    && (forall i, j | 0 <= i < j < |s.pending| && s.pending[i].code == s.pending[j].code ::
          s.receiver.Holding? && s.receiver.index == i)
    && (forall m | m in s.spawned :: !IsOutcome(m))
  }

  lemma RoutedStep(s: State, answered: set<nat>, step: Step)
    requires Enabled(s, step) && Placed(s) && Settled(s, answered) && NoneMixed(s) && Routed(s)
    requires AnswerOk(s, answered, step) && PushOk(s, answered, step)
    ensures Routed(Next(s, step)) && NoneMixed(Next(s, step))
  {
    match step
    case Push(e) =>
      forall i | 0 <= i < |s.pending| && s.pending[i].code == e.code
        ensures s.receiver.Holding? && s.receiver.index == i
      {
        var x := s.pending[i];
        assert x in s.pending && !Outstanding(s, answered, x);
        assert x.id in answered;
      }
    case Find(m, cause) =>
      if IsOutcome(m) {
        FindsItsRequest(s, answered, m, cause);
      }
    case Remove => SwapRemoveHeld(s.pending, s.receiver.index);
    case _ =>
  }

  lemma FindsItsRequest(s: State, answered: set<nat>, m: Message, cause: nat)
    requires s.receiver.Ready? && Placed(s) && Settled(s, answered) && NoneMixed(s) && Routed(s)
    requires IsOutcome(m) && AnswerOk(s, answered, Find(m, cause))
    ensures FirstMatch(s.pending, m).Some? && s.pending[FirstMatch(s.pending, m).value] == Pending(cause, m[1])
  {
    var y := Pending(cause, m[1]);
    forall k | 0 <= k < |s.delivered| ensures s.delivered[k].entry != y {
      assert s.delivered[k] in s.delivered;
    }
    var j :| 0 <= j < |s.pending| && s.pending[j] == y;
    assert Matches(s.pending[j].code, m);
    var i := FirstMatch(s.pending, m).value;
    assert s.pending[i].code == s.pending[j].code;
  }

  lemma SwapRemoveHeld(p: seq<Pending>, h: nat)
    requires h < |p| && forall i, j | 0 <= i < j < |p| && p[i].code == p[j].code :: i == h
    ensures DistinctCodes(SwapRemove(p, h))
  {
  }

  lemma {:induction false} OnePerCodeDistinct(steps: seq<Step>)
    requires Legal(steps) && Honest(steps) && OneAtATime(steps)
    ensures Routed(After(steps)) && NoneMixed(After(steps))
  {
    if steps != [] {
      var init, step := steps[..|steps| - 1], steps[|steps| - 1];
      OnePerCodeDistinct(init);
      AnsweredIsGone(init);
      AllPlaced(init);
      RoutedStep(After(init), Answered(init), step);
    }
  }

  /** An answer that was handed to a request. */
  ghost predicate DeliveredTo(s: State, id: nat) {
    exists d :: d in s.delivered && d.cause == id && d.entry.id == id
  }

  /** An answer between the two locks, with the index of its request. */
  ghost predicate InHand(s: State, id: nat) {
    && s.receiver.Holding? && s.receiver.cause == id
    && s.receiver.index < |s.pending| && s.pending[s.receiver.index].id == id
  }

  /**
   If no request is made while another of its procedure is outstanding, and the peer answers each
   request at most once, then over the whole run every response reaches the request it answers,
   every answer is handed over or about to be, and none is taken for a request of the peer.
   */
  lemma ResponsesReachTheirRequests(steps: seq<Step>)
    requires Legal(steps) && Honest(steps) && OneAtATime(steps)
    ensures forall d | d in After(steps).delivered :: d.entry.id == d.cause
    ensures forall id :: id in Answered(steps) <==> DeliveredTo(After(steps), id) || InHand(After(steps), id)
    ensures forall m | m in After(steps).spawned :: !IsOutcome(m)
  {
    OnePerCodeDistinct(steps);
    AnsweredIsGone(steps);
    AllPlaced(steps);
    var s := After(steps);
    forall id | id in Answered(steps) ensures DeliveredTo(s, id) || InHand(s, id) {
      assert HasId(s.pushed, id);
      var x :| x in s.pushed && x.id == id;
      if x in Entries(s.delivered) {
        var k :| 0 <= k < |s.delivered| && s.delivered[k].entry == x;
        assert s.delivered[k] in s.delivered;
      } else {
        assert x in s.pending;
      }
    }
  }

  // ---- The condition is exact ----

  /** The run goes on with the answer to a request, and its delivery. */
  function WithAnswer(steps: seq<Step>, x: Pending): (r: seq<Step>) {
    steps + [Find(ResponseTo(x.code), x.id)] + [Remove]
  }

  /** It can, and the answer goes to the first request of that code; the others go on waiting. */
  lemma AnswerGoesToFirst(steps: seq<Step>, j: nat)
    requires Legal(steps) && After(steps).receiver.Ready? && j < |After(steps).pending|
    ensures var s := After(steps); var x, r := s.pending[j], WithAnswer(steps, s.pending[j]);
      var i := FirstMatch(s.pending, ResponseTo(x.code));
      && i.Some? && i.value <= j && s.pending[i.value].code == x.code && Legal(r)
      && After(r).delivered == s.delivered + [Delivery(s.pending[i.value], ResponseTo(x.code), x.id)]
      && After(r).pending == SwapRemove(s.pending, i.value)
      && After(r).receiver.Ready? && After(r).dead == s.dead && Answered(r) == Answered(steps) + {x.id}
      && (Honest(steps) && x.id !in s.dead && x.id !in Answered(steps) ==> Honest(r))
  {
    var s := After(steps);
    var x := s.pending[j];
    var find := Find(ResponseTo(x.code), x.id);
    assert Matches(x.code, ResponseTo(x.code));
    AllPlaced(steps);
    assert x in s.pending;
    Extend(steps, find);
    assert After(steps + [find]).receiver.Holding?;
    Extend(steps + [find], Remove);
  }

  /** The run can go on with the answer to x, and that answer reaches x. */
  ghost predicate OwnAnswer(steps: seq<Step>, x: Pending) {
    Legal(WithAnswer(steps, x)) && NoneMixed(After(WithAnswer(steps, x)))
  }

  lemma OwnAnswerIffFirst(steps: seq<Step>, j: nat)
    requires Legal(steps) && Honest(steps) && NoneMixed(After(steps)) && After(steps).receiver.Ready?
    requires j < |After(steps).pending|
    ensures var s := After(steps); var x := s.pending[j]; var r := WithAnswer(steps, x);
      && Legal(r) && (x.id !in s.dead ==> Honest(r))
      && (OwnAnswer(steps, x) <==> FirstMatch(s.pending, ResponseTo(x.code)) == Some(j))
  {
    var s := After(steps);
    var x := s.pending[j];
    assert x in s.pending;
    AnsweredIsGone(steps);
    AllPlaced(steps);
    AnswerGoesToFirst(steps, j);
    MixedBySnoc(s, After(WithAnswer(steps, x)));
  }

  /**
   As long as nothing was mixed up: any waiting request can be answered next, and each of these
   answers would reach its own request iff no two waiting requests share a code.
   */
  lemma OwnAnswersIffDistinctCodes(steps: seq<Step>)
    requires Legal(steps) && Honest(steps) && NoneMixed(After(steps)) && After(steps).receiver.Ready?
    ensures forall x | x in After(steps).pending ::
      Legal(WithAnswer(steps, x)) && (x.id !in After(steps).dead ==> Honest(WithAnswer(steps, x)))
    ensures (forall x | x in After(steps).pending :: OwnAnswer(steps, x)) <==> DistinctCodes(After(steps).pending)
  {
    var p := After(steps).pending;
    OwnResponseIffDistinctCodes(p);
    forall j | 0 <= j < |p|
      ensures Legal(WithAnswer(steps, p[j])) && (p[j].id !in After(steps).dead ==> Honest(WithAnswer(steps, p[j])))
      ensures p[j] in p && (OwnAnswer(steps, p[j]) <==> FirstMatch(p, ResponseTo(p[j].code)) == Some(j))
    {
      OwnAnswerIffFirst(steps, j);
    }
  }

  lemma MixedBySnoc(s: State, s': State)
    requires NoneMixed(s) && |s'.delivered| == |s.delivered| + 1 && s'.delivered[..|s.delivered|] == s.delivered
    ensures NoneMixed(s') <==> s'.delivered[|s.delivered|].entry.id == s'.delivered[|s.delivered|].cause
  {
    var n := |s.delivered|;
    assert s'.delivered == s.delivered + [s'.delivered[n]];
    assert s'.delivered[n] in s'.delivered;
  }

  /**
   With two requests of one code waiting, in whatever run, the answer to the later one in the
   vector goes to another request, and it goes on waiting.
   */
  lemma SharedCodeMixesResponses(steps: seq<Step>, i: nat, j: nat)
    requires Legal(steps) && After(steps).receiver.Ready? && i < j < |After(steps).pending|
    requires After(steps).pending[i].code == After(steps).pending[j].code
    ensures var s := After(steps); var x, r := s.pending[j], WithAnswer(steps, s.pending[j]);
      && Legal(r) && |After(r).delivered| == |s.delivered| + 1
      && After(r).delivered[|s.delivered|].cause == x.id && After(r).delivered[|s.delivered|].entry.id != x.id
      && x in After(r).pending && !NoneMixed(After(r))
      && (Honest(steps) && x.id !in s.dead && x.id !in Answered(steps) ==> Honest(r))
  {
    var s := After(steps);
    AnswerGoesToFirst(steps, j);
    AllPlaced(steps);
    FirstIsBefore(s.pending, i, j);
    var r := WithAnswer(steps, s.pending[j]);
    assert After(r).delivered[|s.delivered|] in After(r).delivered;
  }

  /** The first match of a code is not the second of two, and taking it out leaves the second. */
  lemma FirstIsBefore(p: seq<Pending>, i: nat, j: nat)
    requires i < j < |p| && p[i].code == p[j].code
    ensures var f := FirstMatch(p, ResponseTo(p[j].code));
      f.Some? && f.value <= i && p[j] in SwapRemove(p, f.value)
  {
    var m := ResponseTo(p[j].code);
    assert Matches(p[i].code, m);
    var f := FirstMatch(p, m).value;
    assert SwapRemove(p, f)[if j == |p| - 1 then f else j] == p[j];
  }

  /** A channel is dead iff its request's send failed. */
  lemma {:induction false} DeadIffFailed(steps: seq<Step>, id: nat)
    requires Legal(steps)
    ensures id in After(steps).dead <==> SendFailed(id) in steps
  {
    if steps != [] {
      var init := steps[..|steps| - 1];
      DeadIffFailed(init, id);
      assert steps == init + [steps[|steps| - 1]];
    }
  }

  /** The entry of a request whose send failed takes the next outcome of its code from any live request behind it. */
  lemma DeadEntrySwallows(steps: seq<Step>, i: nat, j: nat)
    requires Legal(steps) && After(steps).receiver.Ready? && i < j < |After(steps).pending|
    requires SendFailed(After(steps).pending[i].id) in steps
    requires FirstMatch(After(steps).pending, ResponseTo(After(steps).pending[j].code)) == Some(i)
    ensures var s := After(steps); var x, r := s.pending[j], WithAnswer(steps, s.pending[j]);
      && Legal(r) && |After(r).delivered| == |s.delivered| + 1
      && After(r).delivered[|s.delivered|] == Delivery(s.pending[i], ResponseTo(x.code), x.id)
      && After(r).delivered[|s.delivered|].entry.id in After(r).dead && x in After(r).pending
  {
    AnswerGoesToFirst(steps, j);
    SharedCodeMixesResponses(steps, i, j);
    DeadIffFailed(steps, After(steps).pending[i].id);
  }

  lemma ThreePushed(a: Pending, b: Pending, c: Pending)
    requires a.id != b.id && a.id != c.id && b.id != c.id
    ensures var steps := [Push(a), Push(b), Push(c)];
      && Legal(steps) && Honest(steps) && Answered(steps) == {}
      && After(steps) == State([a, b, c], Ready, [a, b, c], [], [], [], {})
  {
    var one, two := [Push(a)], [Push(a), Push(b)];
    assert [] + [Push(a)] == one && one + [Push(b)] == two && two + [Push(c)] == [Push(a), Push(b), Push(c)];
    Extend([], Push(a));
    assert After(one) == State([a], Ready, [a], [], [], [], {});
    Extend(one, Push(b));
    assert After(two) == State([a, b], Ready, [a, b], [], [], [], {});
    Extend(two, Push(c));
  }

  /**
   A whole run of that kind: of two requests of one procedure, the answer to the older goes to the
   younger, which an earlier removal had moved ahead of it.
   */
  lemma YoungerServedFirst(a: Pending, b: Pending, c: Pending)
    requires a.id != b.id && a.id != c.id && b.id != c.id && a.code != b.code && b.code == c.code
    ensures var steps := WithAnswer(WithAnswer([Push(a), Push(b), Push(c)], a), b);
      Legal(steps) && Honest(steps) && Delivery(c, ResponseTo(b.code), b.id) in After(steps).delivered
  {
    var three := [Push(a), Push(b), Push(c)];
    ThreePushed(a, b, c);
    var p := [a, b, c];
    assert Matches(p[0].code, ResponseTo(a.code));
    AnswerGoesToFirst(three, 0);
    var first := WithAnswer(three, a);
    assert SwapRemove(p, 0) == [c, b];
    var q := [c, b];
    assert Matches(q[0].code, ResponseTo(b.code));
    AnswerGoesToFirst(first, 1);
    var steps := WithAnswer(first, b);
    assert After(steps).delivered[1] == Delivery(c, ResponseTo(b.code), b.id);
  }
}
