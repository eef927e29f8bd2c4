/** The UE tasks and the two packet pipelines together. */
module EndToEnd {
  import opened Bytes
  import opened SlotTable
  import opened Userplane
  import opened UeSystem
  import opened UeInvariant
  import opened UeSteps
  import opened UeTheorems
  import Uplink
  import DownlinkFrames

  /**
   In any state of any run, whatever is in the receive buffer: an uplink datagram is forwarded to
   the data network only if its TEID was given to a task whose UE had authenticated.
   */
  lemma ForwardedOnlyIfAuthenticated(cfg: Config, states: seq<State>, steps: seq<Step>, n: nat, b: seq<byte>, len: nat)
    requires Run(cfg, states, steps) && n < |states| && len <= |b|
    requires Uplink.Handle(b, len, states[n].uplink).Forward?
    ensures len >= 31 && exists m :: 0 <= m < n && InstalledUplink(cfg, states, steps, m, QuadAt(b, 4))
  {
    var teid := QuadAt(b, 4);
    RunKeepsInv(cfg, states, steps, n);
    TablesValid(cfg, states[n]);
    var i := Slot(teid);
    assert Lookup(states[n].uplink, teid).Hit?;
    assert states[n].uplink[i].Some? && states[n].uplink[i].value.key == teid;
    UplinkRulesAreAuthenticated(cfg, states, steps, n, i);
  }

  /** The event of a step on the downlink table, if it is one. */
  ghost function EventsOf(s: State, step: Step): seq<DownlinkFrames.Event> {
    match step
    case AddDownlinkRule(t) =>
      if t in s.tasks && s.tasks[t].pc.NeedDownlinkRule?
      then [DownlinkFrames.Commit(s.tasks[t].pc.session.ip, s.tasks[t].pc.tunnel)] else []
    case RemoveDownlinkRule(t) =>
      if t in s.tasks && s.tasks[t].sessions != [] then [DownlinkFrames.Delete(s.tasks[t].sessions[0].ip)] else []
    case DownlinkPacket(inner) => [DownlinkFrames.Packet(inner)]
    case _ => []
  }

  /** The events on the downlink table in the first n steps of a run. */
  ghost function DownlinkEvents(cfg: Config, states: seq<State>, steps: seq<Step>, n: nat): seq<DownlinkFrames.Event>
    requires Run(cfg, states, steps) && n <= |steps|
  {
    if n == 0 then [] else DownlinkEvents(cfg, states, steps, n - 1) + EventsOf(states[n - 1], steps[n - 1])
  }

  lemma SessionSlot(cfg: Config, s: State, t: nat, x: Session)
    requires Inv(cfg, s) && Holds(s, t, x)
    ensures Slot(x.ip) < MAX_UES && Slot(x.teid) == Slot(x.ip)
  {
    assert SlotOk(cfg, s, Slot(x.teid));
  }

  lemma SnocEvent(es: seq<DownlinkFrames.Event>, e: DownlinkFrames.Event)
    requires DownlinkFrames.EventsOk(es) && DownlinkFrames.EventOk(e)
    ensures DownlinkFrames.EventsOk(es + [e])
    ensures DownlinkFrames.TableAfter(es + [e]) == DownlinkFrames.OnEvent(DownlinkFrames.TableAfter(es), e)
  {
    assert (es + [e])[..|es + [e]| - 1] == es;
  }

  lemma AddIsEvent(cfg: Config, s: State, t: nat, es: seq<DownlinkFrames.Event>)
    requires Inv(cfg, s) && t in s.tasks && s.tasks[t].pc.NeedDownlinkRule?
    requires DownlinkFrames.EventsOk(es) && s.downlink == DownlinkFrames.TableAfter(es)
    ensures var e := DownlinkFrames.Commit(s.tasks[t].pc.session.ip, s.tasks[t].pc.tunnel);
      DownlinkFrames.EventsOk(es + [e]) && DownlinkAdded(s, t).downlink == DownlinkFrames.TableAfter(es + [e])
  {
    assert TaskOk(cfg, s, t);
    SessionSlot(cfg, s, t, s.tasks[t].pc.session);
    SnocEvent(es, DownlinkFrames.Commit(s.tasks[t].pc.session.ip, s.tasks[t].pc.tunnel));
  }

  lemma RemoveIsEvent(cfg: Config, s: State, t: nat, es: seq<DownlinkFrames.Event>)
    requires Inv(cfg, s) && t in s.tasks && s.tasks[t].sessions != []
    requires DownlinkFrames.EventsOk(es) && s.downlink == DownlinkFrames.TableAfter(es)
    ensures var e := DownlinkFrames.Delete(s.tasks[t].sessions[0].ip);
      DownlinkFrames.EventsOk(es + [e]) && DownlinkRemoved(s, t).downlink == DownlinkFrames.TableAfter(es + [e])
  {
    assert TaskOk(cfg, s, t);
    SessionSlot(cfg, s, t, s.tasks[t].sessions[0]);
    SnocEvent(es, DownlinkFrames.Delete(s.tasks[t].sessions[0].ip));
  }

  /** What a step does to the downlink table is what its event does. */
  lemma StepIsEvent(cfg: Config, s: State, step: Step, es: seq<DownlinkFrames.Event>)
    requires Inv(cfg, s) && Enabled(s, step)
    requires DownlinkFrames.EventsOk(es) && s.downlink == DownlinkFrames.TableAfter(es)
    ensures DownlinkFrames.EventsOk(es + EventsOf(s, step))
    ensures Next(cfg, s, step).downlink == DownlinkFrames.TableAfter(es + EventsOf(s, step))
  {
    if step.AddDownlinkRule? {
      AddIsEvent(cfg, s, step.t, es);
    } else if step.RemoveDownlinkRule? {
      RemoveIsEvent(cfg, s, step.t, es);
    } else if step.DownlinkPacket? {
      SnocEvent(es, DownlinkFrames.Packet(step.inner));
    } else {
      DownlinkUntouched(cfg, s, step);
      assert es + EventsOf(s, step) == es;
    }
  }

  /** The downlink table of a run is the table of those events alone. */
  lemma {:induction false} DownlinkTableOfRun(cfg: Config, states: seq<State>, steps: seq<Step>, n: nat)
    requires Run(cfg, states, steps) && n <= |steps|
    ensures DownlinkFrames.EventsOk(DownlinkEvents(cfg, states, steps, n))
    ensures states[n].downlink == DownlinkFrames.TableAfter(DownlinkEvents(cfg, states, steps, n))
  {
    if n > 0 {
      DownlinkTableOfRun(cfg, states, steps, n - 1);
      StepInRunIsEvent(cfg, states, steps, n - 1, DownlinkEvents(cfg, states, steps, n - 1));
    }
  }

  lemma StepInRunIsEvent(cfg: Config, states: seq<State>, steps: seq<Step>, n: nat, es: seq<DownlinkFrames.Event>)
    requires Run(cfg, states, steps) && n < |steps|
    requires DownlinkFrames.EventsOk(es) && states[n].downlink == DownlinkFrames.TableAfter(es)
    ensures DownlinkFrames.EventsOk(es + EventsOf(states[n], steps[n]))
    ensures states[n + 1].downlink == DownlinkFrames.TableAfter(es + EventsOf(states[n], steps[n]))
  {
    RunKeepsInv(cfg, states, steps, n);
    assert Linked(cfg, states, steps, n);
    StepIsEvent(cfg, states[n], steps[n], es);
  }

  /**
   In any state of any run, an IPv4 packet is sent towards a DU iff its destination address is
   routed. It then goes through the tunnel that an authenticated UE's task installed for that
   address, arrives there unchanged, and carries the number of packets sent to this UE since then
   in both its sequence numbers.
   */
  lemma DeliveredInOrderToAuthenticated(cfg: Config, states: seq<State>, steps: seq<Step>, n: nat, p: DownlinkFrames.Ipv4)
    requires Run(cfg, states, steps) && n <= |steps|
    requires |p.head| == 12 && |DownlinkFrames.Octets(p)| <= 1978
    ensures DownlinkFrames.EventsOk(DownlinkEvents(cfg, states, steps, n)) && SlotTable.Valid(states[n].downlink)
    ensures var r := DownlinkFrames.Handle(DownlinkFrames.Octets(p), states[n].downlink);
      var k := DownlinkFrames.Passed(DownlinkEvents(cfg, states, steps, n), p.dst);
      && (r.Send? <==> p.dst in View(states[n].downlink))
      && (r.Send? ==>
            && (exists m :: 0 <= m < n && InstalledDownlink(cfg, states, steps, m, p.dst, r.rule.tunnel))
            && DownlinkFrames.Read(r.frame)
                 == Some(DownlinkFrames.Received(r.rule.tunnel.teid, k % TWO_24, k % TWO_12, DownlinkFrames.Octets(p))))
  {
    DownlinkTableOfRun(cfg, states, steps, n);
    RunKeepsInv(cfg, states, steps, n);
    TablesValid(cfg, states[n]);
    DownlinkFrames.HandledByDestination(p, states[n].downlink);
    if p.dst in View(states[n].downlink) {
      DownlinkFrames.SequenceContinuity(DownlinkEvents(cfg, states, steps, n), p);
      ViewAt(states[n].downlink, p.dst);
      DownlinkRulesAreAuthenticated(cfg, states, steps, n, Slot(p.dst));
    }
  }
}
