/** `requestArchitecturalApproval` on top of the delayed actions: attempts for one action, with time passing,
    crashes, reloads, cancellations and the timers of other actions in between. */
module ArchitecturalGate {
  import opened Wrappers
  import Delay
  import Restore

  const ONE_DAY_MS := 86_400_000

  datatype Params = Params(id: Delay.Id, context: Restore.Context, platform: string)

  /** An event of the gate and when it happened. */
  datatype Timed = Timed(event: Restore.Event, at: int)

  /** An attempt under way: it awaits the backup check, the delay, CONFIRM or the `gate.allowed` record after
      0, 1, 2 or 3 events. `promise` is the delay's. */
  datatype Flow = Flow(events: seq<Timed>, promise: nat)

  /** `checks` are the times of the backup checks passed so far, `approvals` the events of each approval given. */
  datatype State = State(flow: Option<Flow>, d: Delay.State, checks: seq<int>, approvals: seq<seq<Timed>>)

  datatype Step =
    | Attempt
    | Advance(event: Restore.Event)      // what the attempt awaits settles
    | Crash
    | Background(step: Delay.Step)

  function At(c: Restore.Context, now: int): Restore.Context { c.(now := now) }

  /** What an attempt with these events can see next. */
  predicate Awaits(p: Params, s: State, f: Flow, e: Restore.Event) {
    match |f.events|
    case 0 => (e.effect.BackupCheck? || e.effect.Bypass?) && (e.ok ==> Restore.Cleared(At(p.context, s.d.now), p.platform, e))
    case 1 => e.effect == Restore.Effect.Delay && f.promise in s.d.settled && (e.ok <==> s.d.settled[f.promise].Resolved?)
    case 2 => e.effect == Restore.Confirm
    case 3 => e.effect == Restore.Allowed
    case _ => false
  }

  predicate Enabled(p: Params, s: State, step: Step) {
    match step
    case Attempt => s.flow.None?
    case Advance(e) => s.flow.Some? && Awaits(p, s, s.flow.value, e)
    case Crash => true
    case Background(b) => Delay.Enabled(s.d, b) && b != Delay.Crash && !(b.Schedule? && b.id == p.id)
  }

  function Next(p: Params, s: State, step: Step): State
    requires Enabled(p, s, step)
  {
    match step
    case Attempt => s.(flow := Some(Flow([], 0)))
    case Advance(e) =>
      var events := s.flow.value.events + [Timed(e, s.d.now)];
      if !e.ok then s.(flow := None)
      else if |events| == 1 then
        State(Some(Flow(events, s.d.next)), Delay.DoSchedule(s.d, p.id, ONE_DAY_MS), s.checks + [s.d.now], s.approvals)
      else if |events| < 4 then s.(flow := Some(s.flow.value.(events := events)))
      else s.(flow := None, approvals := s.approvals + [events])
    case Crash => s.(flow := None, d := Delay.Next(s.d, Delay.Crash))
    case Background(b) => s.(d := Delay.Next(s.d, b))
  }

  predicate Valid(p: Params, s: State, steps: seq<Step>)
    decreases |steps|
  {
    steps == [] || (Enabled(p, s, steps[0]) && Valid(p, Next(p, s, steps[0]), steps[1..]))
  }

  function Run(p: Params, s: State, steps: seq<Step>): State
    requires Valid(p, s, steps)
    decreases |steps|
  {
    if steps == [] then s else Run(p, Next(p, s, steps[0]), steps[1..])
  }

  /** A new action id, in any state of the delayed actions of others. */
  ghost predicate Initial(p: Params, s: State) {
    s.flow.None? && s.checks == [] && s.approvals == [] && Delay.Held(s.d) && Delay.Untouched(s.d, p.id)
  }

  // ----- the shape of an approval -----------------------------------------

  /** These are the first events of an approval; the delay ended a day or more after the first passed check of all
      attempts, and if no other attempt's check has passed, that one is this attempt's own. */
  predicate Leading(p: Params, checks: seq<int>, es: seq<Timed>) {
    && |es| <= 4
    && (|es| > 0 ==> checks != [] && checks[0] <= es[0].at && (|checks| == 1 ==> es[0].at == checks[0])
                     && Restore.Cleared(At(p.context, es[0].at), p.platform, es[0].event))
    && (|es| > 1 ==> es[1].event == Restore.Event(Restore.Effect.Delay, true) && es[1].at >= es[0].at && es[1].at >= checks[0] + ONE_DAY_MS)
    && (|es| > 2 ==> es[2].event == Restore.Event(Restore.Confirm, true) && es[2].at >= es[1].at)
    && (|es| > 3 ==> es[3].event == Restore.Event(Restore.Allowed, true) && es[3].at >= es[2].at)
  }

  function Untimed(es: seq<Timed>): (r: seq<Restore.Event>)
    ensures |r| == |es| && forall i :: 0 <= i < |es| ==> r[i] == es[i].event
  {
    if es == [] then [] else Untimed(es[..|es| - 1]) + [es[|es| - 1].event]
  }

  // ----- what every run keeps ---------------------------------------------

  /** Nothing under this id happens within a day of the first passed check. */
  ghost predicate DelayOk(p: Params, s: State) {
    && Delay.Held(s.d)
    && (if s.checks == [] then Delay.Untouched(s.d, p.id)
        else Delay.NotBefore(s.d, p.id, s.checks[0] + ONE_DAY_MS) && s.checks[0] <= s.d.now)
  }

  ghost predicate FlowOk(p: Params, s: State) {
    s.flow.Some? ==>
      var f := s.flow.value;
      && Leading(p, s.checks, f.events) && |f.events| < 4
      && (f.events != [] ==> f.events[|f.events| - 1].at <= s.d.now)
      && (|f.events| == 1 ==> f.promise in s.d.owner && s.d.owner[f.promise] == p.id)
  }

  /** Checks passed later change nothing about an approval given. */
  ghost predicate Given(p: Params, checks: seq<int>, es: seq<Timed>) {
    |es| == 4 && exists n :: 0 < n <= |checks| && Leading(p, checks[..n], es)
  }

  ghost predicate ApprovalsOk(p: Params, s: State) {
    forall i :: 0 <= i < |s.approvals| ==> Given(p, s.checks, s.approvals[i])
  }

  lemma {:induction false} BackgroundKeeps(p: Params, s: State, b: Delay.Step)
    requires DelayOk(p, s) && FlowOk(p, s) && Delay.Enabled(s.d, b) && !(b.Schedule? && b.id == p.id)
    ensures var t := s.(d := Delay.Next(s.d, b)); DelayOk(p, t) && t.d.now >= s.d.now
    ensures forall q :: q in s.d.owner ==> q in Delay.Next(s.d, b).owner && Delay.Next(s.d, b).owner[q] == s.d.owner[q]
  {
    Delay.StepKeepsHeld(s.d, b);
    Delay.PromiseEffect(s.d, b);
    Delay.MoveKeepsHeld(s.d, b, Delay.Next(s.d, b));
    if s.checks == [] {
      Delay.StepKeepsUntouched(s.d, b, p.id);
    } else {
      Delay.StepKeepsNotBefore(s.d, b, p.id, s.checks[0] + ONE_DAY_MS);
    }
  }

  lemma {:induction false} ScheduleKeepsDelayOk(p: Params, s: State, t: State)
    requires DelayOk(p, s) && t.d == Delay.DoSchedule(s.d, p.id, ONE_DAY_MS) && t.checks == s.checks + [s.d.now]
    ensures DelayOk(p, t) && s.d.next in t.d.owner && t.d.owner[s.d.next] == p.id && t.d.now == s.d.now
  {
    var first := t.checks[0];
    if s.checks == [] { Delay.UntouchedIsNotBefore(s.d, p.id, first + ONE_DAY_MS); }
    Delay.ScheduleKeepsNotBefore(s.d, p.id, ONE_DAY_MS, first + ONE_DAY_MS);
  }

  lemma {:induction false} GivenStays(p: Params, checks: seq<int>, now: int, es: seq<Timed>)
    requires Given(p, checks, es)
    ensures Given(p, checks + [now], es)
  {
    var n :| 0 < n <= |checks| && Leading(p, checks[..n], es);
    assert (checks + [now])[..n] == checks[..n];
  }

  lemma {:induction false} AdvanceKeeps(p: Params, s: State, e: Restore.Event)
    requires DelayOk(p, s) && FlowOk(p, s) && ApprovalsOk(p, s) && Enabled(p, s, Advance(e))
    ensures var t := Next(p, s, Advance(e)); DelayOk(p, t) && FlowOk(p, t) && ApprovalsOk(p, t)
  {
    var t := Next(p, s, Advance(e));
    var events := s.flow.value.events + [Timed(e, s.d.now)];
    if e.ok && |events| == 1 {
      ScheduleKeepsDelayOk(p, s, t);
      forall i | 0 <= i < |t.approvals| ensures Given(p, t.checks, t.approvals[i]) {
        GivenStays(p, s.checks, s.d.now, s.approvals[i]);
      }
    } else if e.ok && |events| == 4 {
      assert s.checks[..|s.checks|] == s.checks;
      assert Given(p, s.checks, events);
    }
  }

  lemma {:induction false} StepKeeps(p: Params, s: State, step: Step)
    requires DelayOk(p, s) && FlowOk(p, s) && ApprovalsOk(p, s) && Enabled(p, s, step)
    ensures var t := Next(p, s, step); DelayOk(p, t) && FlowOk(p, t) && ApprovalsOk(p, t)
  {
    match step {
      case Attempt =>
      case Advance(e) => AdvanceKeeps(p, s, e);
      case Crash => BackgroundKeeps(p, s, Delay.Crash);
      case Background(b) => BackgroundKeeps(p, s, b);
    }
  }

  lemma {:induction false} RunKeeps(p: Params, s: State, steps: seq<Step>)
    requires DelayOk(p, s) && FlowOk(p, s) && ApprovalsOk(p, s) && Valid(p, s, steps)
    ensures ApprovalsOk(p, Run(p, s, steps))
    decreases |steps|
  {
    if steps != [] {
      StepKeeps(p, s, steps[0]);
      RunKeeps(p, Next(p, s, steps[0]), steps[1..]);
    }
  }

  /** In every run of attempts, crashes, reloads, cancellations and other actions: the events of an approval are
      those of an architectural approval, in order, the backup check having passed at its own time; and CONFIRM
      was typed at least 24 hours after the first backup check that passed for this action. That is the attempt's
      own check unless an earlier attempt had passed its check. */
  lemma {:induction false} ADayPasses(p: Params, s: State, steps: seq<Step>, i: nat)
    requires Initial(p, s) && Valid(p, s, steps) && i < |Run(p, s, steps).approvals|
    ensures var t := Run(p, s, steps);
            var es := t.approvals[i];
            && |es| == 4 && t.checks != []
            && Restore.Approval(Restore.Architectural, At(p.context, es[0].at), p.platform, Untimed(es))
            && es[0].at <= es[2].at && t.checks[0] + ONE_DAY_MS <= es[2].at
            && (|t.checks| == 1 ==> es[0].at + ONE_DAY_MS <= es[2].at)
  {
    RunKeeps(p, s, steps);
    var t := Run(p, s, steps);
    assert Given(p, t.checks, t.approvals[i]);
    ApprovalOf(p, t.checks, t.approvals[i]);
  }

  lemma {:induction false} ApprovalOf(p: Params, checks: seq<int>, es: seq<Timed>)
    requires Given(p, checks, es)
    ensures checks != [] && checks[0] + ONE_DAY_MS <= es[2].at
    ensures Restore.Approval(Restore.Architectural, At(p.context, es[0].at), p.platform, Untimed(es))
    ensures |checks| == 1 ==> es[0].at == checks[0]
  {
    var n :| 0 < n <= |checks| && Leading(p, checks[..n], es);
    var u := Untimed(es);
    assert u[1..] == [u[1], u[2], u[3]];
  }

  // ----- the attempt's own check ------------------------------------------

  function Backgrounds(steps: seq<Delay.Step>): (r: seq<Step>)
    ensures |r| == |steps| && forall i :: 0 <= i < |r| ==> r[i] == Background(steps[i])
  {
    if steps == [] then [] else [Background(steps[0])] + Backgrounds(steps[1..])
  }

  /** While an attempt waits, the gate's runs are the runs of the delayed actions. */
  lemma {:induction false} WaitingRuns(p: Params, s: State, steps: seq<Delay.Step>)
    ensures Valid(p, s, Backgrounds(steps)) <==> Delay.Valid(s.d, steps) && Delay.Undisturbed(steps, p.id)
    ensures Valid(p, s, Backgrounds(steps)) ==>
              Run(p, s, Backgrounds(steps)) == s.(d := Delay.Run(s.d, steps))
    decreases |steps|
  {
    if steps != [] {
      var b := steps[0];
      assert Backgrounds(steps)[1..] == Backgrounds(steps[1..]);
      UndisturbedCons(steps, p.id);
      if Enabled(p, s, Background(b)) { WaitingRuns(p, Next(p, s, Background(b)), steps[1..]); }
    }
  }

  lemma {:induction false} UndisturbedCons(steps: seq<Delay.Step>, id: Delay.Id)
    requires steps != []
    ensures Delay.Undisturbed(steps, id) <==>
              steps[0] != Delay.Crash && !(steps[0].Schedule? && steps[0].id == id) && Delay.Undisturbed(steps[1..], id)
  {
    assert steps == [steps[0]] + steps[1..];
  }

  /** If these steps can follow and then the delay has resolved, so that CONFIRM is asked for, it is `from` or later. */
  ghost predicate ConfirmsFrom(p: Params, t: State, steps: seq<Delay.Step>, from: int) {
    Valid(p, t, Backgrounds(steps)) ==>
      var u := Run(p, t, Backgrounds(steps));
      Enabled(p, u, Advance(Restore.Event(Restore.Effect.Delay, true))) ==> u.d.now >= from
  }

  /** However time passes for an attempt whose check passes now, by `e`: CONFIRM is not asked for within 24 hours. */
  ghost predicate OwnDay(p: Params, s: State, e: Restore.Event)
    requires Enabled(p, s, Advance(e))
  {
    var t, from := Next(p, s, Advance(e)), s.d.now + ONE_DAY_MS;
    forall steps: seq<Delay.Step> :: ConfirmsFrom(p, t, steps, from)
  }

  lemma {:induction false} ConfirmsInTime(p: Params, t: State, steps: seq<Delay.Step>, from: int)
    requires t.flow.Some? && |t.flow.value.events| == 1
    ensures ConfirmsFrom(p, t, steps, from) <==>
            (Delay.Valid(t.d, steps) && Delay.Undisturbed(steps, p.id) ==>
               Delay.InTime(Delay.Run(t.d, steps), t.flow.value.promise, from))
  {
    WaitingRuns(p, t, steps);
  }

  /** An attempt, also a repeated one, gets the 24 hours after its own check exactly when, as the check passes, no
      timer of an earlier attempt is due within them. */
  lemma {:induction false} OwnDayIff(p: Params, s: State, e: Restore.Event)
    requires Enabled(p, s, Advance(e)) && e.ok && s.flow.value.events == []
    requires Delay.Held(s.d) && Delay.LiveOk(s.d) && Delay.Loaded(s.d, p.id)
    ensures OwnDay(p, s, e) <==> Delay.NoTimerBefore(s.d, p.id, s.d.now + ONE_DAY_MS)
  {
    var t := Next(p, s, Advance(e));
    var from := s.d.now + ONE_DAY_MS;
    forall steps: seq<Delay.Step>
      ensures ConfirmsFrom(p, t, steps, from) <==>
              (Delay.Valid(t.d, steps) && Delay.Undisturbed(steps, p.id) ==> Delay.InTime(Delay.Run(t.d, steps), s.d.next, from))
    {
      ConfirmsInTime(p, t, steps, from);
    }
    assert OwnDay(p, s, e) <==> Delay.Honoured(s.d, p.id, ONE_DAY_MS);
    Delay.HonouredIff(s.d, p.id, ONE_DAY_MS);
  }
}
