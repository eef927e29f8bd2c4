/** Who owns which rule: the accounting of user plane sessions over a whole run. */
module UeOwnership {
  import opened Bytes
  import opened SlotTable
  import opened Userplane
  import opened UeSystem
  import opened UeInvariant
  import opened UeSteps
  import opened UeTheorems

  /** Reserved, with its uplink rule in place, by an establishment still under way. */
  ghost function Reserving(s: State): set<Session> {
    set t | t in s.tasks && InFlight(s.tasks[t].pc).Some? && !s.tasks[t].pc.NeedUplinkRule? :: InFlight(s.tasks[t].pc).value
  }

  /** Recorded in a UE context and not yet drained from it. */
  ghost function RecordedIn(s: State): set<Session> {
    set t, x | t in s.tasks && x in s.tasks[t].sessions :: x
  }

  /** The session an establishment loses when it fails at this step. */
  ghost function Loses(s: State, step: Step): set<Session> {
    if step.Fail? && step.t in s.tasks && InFlight(s.tasks[step.t].pc).Some? then {InFlight(s.tasks[step.t].pc).value} else {}
  }

  /** All sessions lost to a failed establishment in the first n steps. */
  ghost function Lost(cfg: Config, states: seq<State>, steps: seq<Step>, n: nat): set<Session>
    requires Run(cfg, states, steps) && n <= |steps|
  {
    if n == 0 then {} else Lost(cfg, states, steps, n - 1) + Loses(states[n - 1], steps[n - 1])
  }

  ghost function AbandonedIn(s: State): set<Session> {
    set i | i in s.grants && s.grants[i].fate.Abandoned? :: s.grants[i].session
  }

  lemma {:induction false} LostIsAbandoned(cfg: Config, states: seq<State>, steps: seq<Step>, n: nat)
    requires Run(cfg, states, steps) && n <= |steps|
    ensures Lost(cfg, states, steps, n) == AbandonedIn(states[n])
  {
    if n > 0 {
      LostIsAbandoned(cfg, states, steps, n - 1);
      RunKeepsInv(cfg, states, steps, n - 1);
      assert Linked(cfg, states, steps, n - 1);
      AbandonStep(cfg, states[n - 1], steps[n - 1]);
    }
  }

  lemma AbandonStep(cfg: Config, s: State, step: Step)
    requires Inv(cfg, s) && Enabled(s, step)
    ensures AbandonedIn(Next(cfg, s, step)) == AbandonedIn(s) + Loses(s, step)
  {
    if step.Fail? {
      FailAbandons(cfg, s, step.t);
    } else if step.TakeSlot? {
      GrantAbandonsNone(cfg, s, step.t, step.id, step.top);
    } else if step.RemoveUplinkRule? {
      RemovalAbandonsNone(cfg, s, step.t);
    } else {
      GrantsUntouched(cfg, s, step);
    }
  }

  lemma GrantAbandonsNone(cfg: Config, s: State, t: nat, id: nat, top: (byte, byte, byte))
    requires Inv(cfg, s) && t in s.tasks && id !in s.pool
    ensures AbandonedIn(SlotTaken(cfg, s, t, id, top)) == AbandonedIn(s)
  {
    SlotTakenGrants(cfg, s, t, id, top);
    SameAbandoned(s, SlotTaken(cfg, s, t, id, top));
  }

  lemma RemovalAbandonsNone(cfg: Config, s: State, t: nat)
    requires Inv(cfg, s) && t in s.tasks && s.tasks[t].sessions != []
    ensures AbandonedIn(UplinkRemoved(s, t)) == AbandonedIn(s)
  {
    RemovedGrants(cfg, s, t);
    assert TaskOk(cfg, s, t) && Holds(s, t, s.tasks[t].sessions[0]);
    SameAbandoned(s, UplinkRemoved(s, t));
  }

  lemma SameAbandoned(s: State, s': State)
    requires Continues(s, s')
    requires forall i | i in s'.grants && s'.grants[i].fate.Abandoned? :: i in s.grants && s.grants[i].fate.Abandoned?
    ensures AbandonedIn(s') == AbandonedIn(s)
  {
    forall x ensures x in AbandonedIn(s') <==> x in AbandonedIn(s) {
      if x in AbandonedIn(s) {
        var i :| i in s.grants && s.grants[i].fate.Abandoned? && s.grants[i].session == x;
        assert s'.grants[i].session == x;
      }
    }
  }

  lemma FailAbandons(cfg: Config, s: State, t: nat)
    requires Inv(cfg, s) && Enabled(s, Fail(t))
    ensures AbandonedIn(Failed(s, t)) == AbandonedIn(s) + Loses(s, Fail(t))
  {
    var s' := Failed(s, t);
    assert TaskOk(cfg, s, t);
    var held := InFlight(s.tasks[t].pc);
    if held.None? {
      assert s'.grants == s.grants;
    } else {
      var i := Slot(held.value.teid);
      assert s'.grants == s.grants[i := Grant(t, held.value, Abandoned)] && s.grants[i].fate.Held?;
      forall x ensures x in AbandonedIn(s') <==> x in AbandonedIn(s) || x == held.value {
        if x in AbandonedIn(s) {
          var j :| j in s.grants && s.grants[j].fate.Abandoned? && s.grants[j].session == x;
          assert j != i && s'.grants[j].session == x;
        }
        if x == held.value {
          assert s'.grants[i].session == x;
        }
      }
    }
  }

  ghost function TeidsOf(xs: set<Session>): set<Quad> {
    set x | x in xs :: x.teid
  }

  /**
   In every state of every run the uplink rules are exactly those of the sessions being
   established, of the sessions recorded in a context, and of the sessions lost to a failed
   establishment; the three are disjoint, and no two of their sessions share a slot.
   */
  lemma UplinkAccounting(cfg: Config, states: seq<State>, steps: seq<Step>, n: nat)
    requires Run(cfg, states, steps) && n <= |steps|
    ensures var s, lost := states[n], Lost(cfg, states, steps, n);
      && SlotTable.Valid(s.uplink)
      && View(s.uplink).Keys == TeidsOf(Reserving(s) + RecordedIn(s) + lost)
      && Reserving(s) !! RecordedIn(s) && Reserving(s) !! lost && RecordedIn(s) !! lost
      && forall x, y | x in Reserving(s) + RecordedIn(s) + lost && y in Reserving(s) + RecordedIn(s) + lost
           && Slot(x.teid) == Slot(y.teid) :: x == y
  {
    RunKeepsInv(cfg, states, steps, n);
    LostIsAbandoned(cfg, states, steps, n);
    TablesValid(cfg, states[n]);
    Accounting(cfg, states[n]);
  }

  lemma OwnedIsGranted(cfg: Config, s: State, x: Session)
    requires Inv(cfg, s)
    ensures x in Reserving(s) ==> Slot(x.teid) in s.grants && s.grants[Slot(x.teid)].session == x && s.grants[Slot(x.teid)].fate.Held?
                                  && x !in RecordedIn(s)
    ensures x in RecordedIn(s) ==> Slot(x.teid) in s.grants && s.grants[Slot(x.teid)].session == x && s.grants[Slot(x.teid)].fate.Held?
    ensures x in AbandonedIn(s) ==> Slot(x.teid) in s.grants && s.grants[Slot(x.teid)].session == x && s.grants[Slot(x.teid)].fate.Abandoned?
  {
    if x in Reserving(s) {
      var t :| t in s.tasks && InFlight(s.tasks[t].pc) == Some(x);
      assert TaskOk(cfg, s, t);
      forall u | u in s.tasks ensures x !in s.tasks[u].sessions {
        assert TaskOk(cfg, s, u);
        assert x in s.tasks[u].sessions ==> Holds(s, u, x);
      }
    }
    if x in RecordedIn(s) {
      var t :| t in s.tasks && x in s.tasks[t].sessions;
      assert TaskOk(cfg, s, t) && Holds(s, t, x);
    }
    if x in AbandonedIn(s) {
      var i :| i in s.grants && s.grants[i].fate.Abandoned? && s.grants[i].session == x;
      assert SlotOk(cfg, s, i);
    }
  }

  lemma RuleIsOwned(cfg: Config, s: State, key: Quad)
    requires Inv(cfg, s) && SlotTable.Valid(s.uplink) && key in View(s.uplink)
    ensures key in TeidsOf(Reserving(s) + RecordedIn(s) + AbandonedIn(s))
  {
    ViewAt(s.uplink, key);
    var i := Slot(key);
    assert SlotOk(cfg, s, i);
    var g := s.grants[i];
    var x, k := g.session, s.tasks[g.task];
    assert x.teid == key;
    if g.fate.Abandoned? {
      assert x in AbandonedIn(s);
    } else if Recorded(k, x) {
      assert x in RecordedIn(s);
    } else {
      assert InFlight(k.pc) == Some(x) && !k.pc.NeedUplinkRule?;
      assert x in Reserving(s);
    }
  }

  lemma OwnedHasRule(cfg: Config, s: State, x: Session)
    requires Inv(cfg, s) && SlotTable.Valid(s.uplink) && x in Reserving(s) + RecordedIn(s) + AbandonedIn(s)
    ensures x.teid in View(s.uplink)
  {
    OwnedIsGranted(cfg, s, x);
    var i := Slot(x.teid);
    assert SlotOk(cfg, s, i);
    var k := s.tasks[s.grants[i].task];
    if x in Reserving(s) {
      var t :| t in s.tasks && InFlight(s.tasks[t].pc) == Some(x) && !s.tasks[t].pc.NeedUplinkRule?;
      assert TaskOk(cfg, s, t) && Holds(s, t, x);
    } else if x in RecordedIn(s) {
      var t :| t in s.tasks && x in s.tasks[t].sessions;
      assert TaskOk(cfg, s, t) && Holds(s, t, x);
      assert k.pc != NeedUplinkRule(x);
    }
    ViewAt(s.uplink, x.teid);
  }

  lemma Accounting(cfg: Config, s: State)
    requires Inv(cfg, s) && SlotTable.Valid(s.uplink)
    ensures var a, b, c := Reserving(s), RecordedIn(s), AbandonedIn(s);
      && View(s.uplink).Keys == TeidsOf(a + b + c)
      && a !! b && a !! c && b !! c
      && forall x, y | x in a + b + c && y in a + b + c && Slot(x.teid) == Slot(y.teid) :: x == y
  {
    var all := Reserving(s) + RecordedIn(s) + AbandonedIn(s);
    forall x | x in all ensures Slot(x.teid) in s.grants && s.grants[Slot(x.teid)].session == x {
      OwnedIsGranted(cfg, s, x);
    }
    forall x ensures !(x in Reserving(s) && x in RecordedIn(s)) && !(x in Reserving(s) + RecordedIn(s) && x in AbandonedIn(s)) {
      OwnedIsGranted(cfg, s, x);
    }
    forall key ensures key in View(s.uplink) <==> key in TeidsOf(all) {
      if key in View(s.uplink) {
        RuleIsOwned(cfg, s, key);
      }
      if key in TeidsOf(all) {
        var x :| x in all && x.teid == key;
        OwnedHasRule(cfg, s, x);
      }
    }
  }

  // ---- After a task is done ----

  lemma DoneSlot(cfg: Config, s: State, i: nat)
    requires Inv(cfg, s) && i in s.grants && i < MAX_UES
    requires s.grants[i].task in s.tasks && s.tasks[s.grants[i].task].pc.Done?
    ensures s.downlink[i].None? && !s.grants[i].fate.Held?
    ensures s.uplink[i].Some? <==> s.grants[i].session in AbandonedIn(s)
  {
    assert SlotOk(cfg, s, i) && TaskOk(cfg, s, s.grants[i].task);
    assert !s.grants[i].fate.Held?;
    AbandonedIffFate(cfg, s, i);
  }

  lemma AbandonedIffFate(cfg: Config, s: State, i: nat)
    requires Inv(cfg, s) && i in s.grants && i < MAX_UES
    ensures s.grants[i].session in AbandonedIn(s) <==> s.grants[i].fate.Abandoned?
  {
    assert SlotOk(cfg, s, i);
    OwnedIsGranted(cfg, s, s.grants[i].session);
  }

  /** A session in flight in state m is still on record, with the same task, in state n. */
  lemma StillGranted(cfg: Config, states: seq<State>, steps: seq<Step>, m: nat, n: nat, t: nat)
    requires Run(cfg, states, steps) && m <= n <= |steps|
    requires t in states[m].tasks && InFlight(states[m].tasks[t].pc).Some?
    ensures var x := InFlight(states[m].tasks[t].pc).value; var i := Slot(x.teid);
      && i < MAX_UES && Slot(x.ip) == i && i in states[n].grants
      && states[n].grants[i].task == t && states[n].grants[i].session == x
  {
    RunKeepsInv(cfg, states, steps, m);
    GrantsPersist(cfg, states, steps, m, n);
    var x := InFlight(states[m].tasks[t].pc).value;
    assert TaskOk(cfg, states[m], t) && Holds(states[m], t, x);
    assert SlotOk(cfg, states[m], Slot(x.teid));
  }

  /** Once a task has drained its context, none of the downlink rules it ever installed stands. */
  lemma DoneOwnsNoDownlink(cfg: Config, states: seq<State>, steps: seq<Step>, m: nat, n: nat, x: Session)
    requires Run(cfg, states, steps) && m < n <= |steps| && steps[m].AddDownlinkRule?
    requires steps[m].t in states[m].tasks && InFlight(states[m].tasks[steps[m].t].pc) == Some(x)
    requires steps[m].t in states[n].tasks && states[n].tasks[steps[m].t].pc.Done?
    ensures Slot(x.ip) < |states[n].downlink| && states[n].downlink[Slot(x.ip)].None?
  {
    StillGranted(cfg, states, steps, m, n, steps[m].t);
    RunKeepsInv(cfg, states, steps, n);
    DoneSlot(cfg, states[n], Slot(x.teid));
  }

  /** Of its uplink rules exactly the lost ones are left. */
  lemma DoneLeavesLostUplinks(cfg: Config, states: seq<State>, steps: seq<Step>, m: nat, n: nat, x: Session)
    requires Run(cfg, states, steps) && m < n <= |steps| && steps[m].AddUplinkRule?
    requires steps[m].t in states[m].tasks && InFlight(states[m].tasks[steps[m].t].pc) == Some(x)
    requires steps[m].t in states[n].tasks && states[n].tasks[steps[m].t].pc.Done?
    ensures Slot(x.teid) < |states[n].uplink|
    ensures states[n].uplink[Slot(x.teid)].Some? <==> x in Lost(cfg, states, steps, n)
  {
    StillGranted(cfg, states, steps, m, n, steps[m].t);
    RunKeepsInv(cfg, states, steps, n);
    LostIsAbandoned(cfg, states, steps, n);
    DoneSlot(cfg, states[n], Slot(x.teid));
  }

  lemma {:induction false} LostGrows(cfg: Config, states: seq<State>, steps: seq<Step>, m: nat, n: nat)
    requires Run(cfg, states, steps) && m <= n <= |steps|
    ensures Lost(cfg, states, steps, m) <= Lost(cfg, states, steps, n)
    decreases n
  {
    if m < n {
      LostGrows(cfg, states, steps, m, n - 1);
    }
  }

  /** A rule lost to a failed establishment is never removed again. */
  lemma LostRuleStays(cfg: Config, states: seq<State>, steps: seq<Step>, m: nat, n: nat, x: Session)
    requires Run(cfg, states, steps) && m <= n <= |steps| && x in Lost(cfg, states, steps, m)
    ensures SlotTable.Valid(states[n].uplink) && x.teid in View(states[n].uplink)
  {
    LostGrows(cfg, states, steps, m, n);
    UplinkAccounting(cfg, states, steps, n);
  }
}
