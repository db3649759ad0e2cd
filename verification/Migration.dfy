/** `MigrationOrchestrator`: five phases, persisted after every transition, on top of the delayed actions. */
module Migration {
  import opened Wrappers
  import Delay

  datatype PhaseStatus = Waiting | InProgress | Complete | Failed

  datatype Overall = InFlight | Finished | Aborted

  /** The state that is saved: `current_phase_index`, `overall_status` and the phases' statuses. The phases
      are, in order, identify-resources, plan-target, dry-run, approval-delay and execute. */
  datatype Mig = Mig(index: nat, overall: Overall, phases: seq<PhaseStatus>)

  const FRESH := Mig(0, InFlight, [Waiting, Waiting, Waiting, Waiting, Waiting])

  /** What the live run awaits: the first save, the save on entering a phase, the phase's handler (or the
      backup verification), the delay's promise, the typed CONFIRM, the save on leaving the phase, the save of
      a failure, and the save after running off the end of the phases. */
  datatype Pc = Creating | Entering | Working | Delaying | Confirming | Leaving | Failing | Ending

  datatype Live = Live(mem: Mig, pc: Pc)

  datatype Core = Core(disk: Option<Mig>, run: Option<Live>)

  /** The head of the loop in `run`, up to the first await of `runPhase`. */
  function Loop(m: Mig): Option<Live> {
    if m.overall != InFlight then None
    else if m.index >= |m.phases| then Some(Live(m.(overall := Finished), Ending))
    else Some(Live(m.(phases := m.phases[m.index := InProgress]), Entering))
  }

  /** The catch clause of `run`; `k` is the phase that was being run. */
  function Fail(m: Mig, k: nat): Option<Live> {
    Some(Live(m.(overall := Aborted, phases := if k < |m.phases| then m.phases[k := Failed] else m.phases), Failing))
  }

  /** `runPhase` after the switch. */
  function Leave(m: Mig): Option<Live> {
    Some(Live(Mig(m.index + 1, if m.index == 4 then Finished else m.overall,
                  if m.index < |m.phases| then m.phases[m.index := Complete] else m.phases), Leaving))
  }

  /** The awaited operation succeeds or throws. */
  function CoreNext(c: Core, ok: bool): Core
    requires c.run.Some?
  {
    var m := c.run.value.mem;
    match c.run.value.pc
    case Creating => if ok then Core(Some(m), Loop(m)) else Core(c.disk, None)
    case Entering => if ok then Core(Some(m), Some(Live(m, Working))) else Core(c.disk, Fail(m, m.index))
    case Working =>
      if !ok then Core(c.disk, Fail(m, m.index))
      else if m.index == 3 then Core(c.disk, Some(Live(m, Delaying)))
      else Core(c.disk, Leave(m))
    case Delaying => if ok then Core(c.disk, Some(Live(m, Confirming))) else Core(c.disk, Fail(m, m.index))
    case Confirming => if ok then Core(c.disk, Leave(m)) else Core(c.disk, Fail(m, m.index))
    case Leaving => if ok then Core(Some(m), Loop(m)) else Core(c.disk, Fail(m, if m.index == 0 then 0 else m.index - 1))
    case Failing => Core(if ok then Some(m) else c.disk, None)
    case Ending => Core(if ok then Some(m) else c.disk, None)
  }

  // ----- one live run -----------------------------------------------------

  predicate PhasesDone(m: Mig) { |m.phases| == 5 && forall i :: 0 <= i < m.index && i < 5 ==> m.phases[i].Complete? }

  /** A saved state: while in flight its index names a phase and all earlier ones are complete; when finished all are. */
  predicate DiskOk(m: Mig) {
    && |m.phases| == 5
    && (m.overall == InFlight ==> m.index < 5 && PhasesDone(m))
    && (m.overall == Finished ==> m.index == 5 && PhasesDone(m))
  }

  predicate LiveOk(l: Live) {
    && |l.mem.phases| == 5
    && (match l.pc
        case Creating => l.mem == FRESH
        case Entering => InPhase(l.mem)
        case Working => InPhase(l.mem)
        case Delaying => InPhase(l.mem) && l.mem.index == 3
        case Confirming => InPhase(l.mem) && l.mem.index == 3
        case Leaving => 1 <= l.mem.index && DiskOk(l.mem) && l.mem.overall != Aborted
        case Failing => l.mem.overall == Aborted
        case Ending => false)
  }

  predicate InPhase(m: Mig) { m.overall == InFlight && m.index < 5 && PhasesDone(m) && m.phases[m.index].InProgress? }

  predicate CoreOk(c: Core) {
    && (c.disk.Some? ==> DiskOk(c.disk.value))
    && (c.run.Some? ==> LiveOk(c.run.value))
    && (c.run.Some? && c.disk.Some? ==> c.run.value.mem.index >= c.disk.value.index)
    && (c.run.Some? && c.disk.None? ==> c.run.value.pc.Creating?)
  }

  lemma {:induction false} LoopOk(m: Mig)
    requires DiskOk(m)
    ensures Loop(m).Some? ==> LiveOk(Loop(m).value) && Loop(m).value.mem.index == m.index && Loop(m).value.pc.Entering?
    ensures Loop(m).Some? <==> m.overall == InFlight
  {
  }

  lemma {:induction false} StepKeepsCoreOk(c: Core, ok: bool)
    requires CoreOk(c) && c.run.Some?
    ensures CoreOk(CoreNext(c, ok))
    ensures c.disk.Some? ==> CoreNext(c, ok).disk.Some? && CoreNext(c, ok).disk.value.index >= c.disk.value.index
  {
    var l := c.run.value;
    if (l.pc.Creating? || l.pc.Leaving?) && ok { LoopOk(l.mem); }
  }

  function PcRank(pc: Pc): nat {
    match pc
    case Creating => 9
    case Entering => 6
    case Working => 5
    case Delaying => 4
    case Confirming => 3
    case Leaving => 8
    case Failing => 0
    case Ending => 1
  }

  /** Bounds the awaits a live run still has: phases remaining first, then the place within the phase. */
  function Rank(run: Option<Live>): nat {
    if run.None? then 0
    else if run.value.pc.Failing? || run.value.pc.Ending? then 1 + PcRank(run.value.pc)
    else 3 + (if run.value.mem.index <= 5 then 10 * (5 - run.value.mem.index) else 0) + PcRank(run.value.pc)
  }

  /** Every completed await brings a live run nearer its end. */
  lemma {:induction false} StepDecreases(c: Core, ok: bool)
    requires CoreOk(c) && c.run.Some?
    ensures Rank(CoreNext(c, ok).run) < Rank(c.run)
  {
    var l := c.run.value;
    if (l.pc.Creating? || l.pc.Leaving?) && ok { LoopOk(l.mem); }
  }

  predicate Runs(c: Core, oks: seq<bool>)
    decreases |oks|
  {
    oks == [] || (c.run.Some? && Runs(CoreNext(c, oks[0]), oks[1..]))
  }

  function CoreRun(c: Core, oks: seq<bool>): Core
    requires Runs(c, oks)
    decreases |oks|
  {
    if oks == [] then c else CoreRun(CoreNext(c, oks[0]), oks[1..])
  }

  /** A run that is not interrupted ends within 63 awaits, however they go; its index never passes the saved
      one backwards; and if every await succeeds the migration is saved as finished with all phases complete. */
  lemma {:induction false} RunTerminates(c: Core, oks: seq<bool>)
    requires CoreOk(c) && Runs(c, oks)
    ensures |oks| <= Rank(c.run) <= 62
    ensures CoreOk(CoreRun(c, oks))
    ensures (forall i :: 0 <= i < |oks| ==> oks[i]) && c.run.Some? && !c.run.value.pc.Failing? && CoreRun(c, oks).run.None? ==>
              CoreRun(c, oks).disk.Some? && CoreRun(c, oks).disk.value.overall == Finished
    decreases |oks|
  {
    if oks != [] {
      StepDecreases(c, oks[0]);
      StepKeepsCoreOk(c, oks[0]);
      RunTerminates(CoreNext(c, oks[0]), oks[1..]);
    }
  }

  // ----- the orchestrator among crashes and delayed actions ---------------

  datatype Params = Params(id: Delay.Id, delay: int)

  datatype Event =
    | Entered(phase: nat, at: int)
    | BackupVerified(at: int)
    | DelayElapsed(at: int)
    | Confirmed(at: int)
    | Executed(at: int)        // `handlers.execute` is called
    | Saved(phase: nat)        // the phase's completion is on disk

  /** `promise` is the one the live run awaits in the approval-delay phase; `entered` is when that phase was
      first entered; `log` is what has happened, over all processes. */
  datatype State = State(core: Core, d: Delay.State, promise: nat, entered: Option<int>, log: seq<Event>)

  datatype Step =
    | Start
    | Resume
    | Advance(ok: bool)                 // what the live run awaits settles
    | Crash
    | Background(step: Delay.Step)      // time, timers, other actions, cancellation of this action, reload

  predicate Enabled(p: Params, s: State, step: Step) {
    match step
    case Start => s.core == Core(None, None)
    case Resume => s.core.run.None? && s.core.disk.Some?
    case Advance(ok) =>
      && s.core.run.Some?
      && (s.core.run.value.pc.Delaying? ==> s.promise in s.d.settled && (ok <==> s.d.settled[s.promise].Resolved?))
    case Crash => true
    case Background(b) => Delay.Enabled(s.d, b) && b != Delay.Crash && !(b.Schedule? && b.id == p.id)
  }

  /** What an await's success shows, and what it lets the run do next. */
  function EventOf(before: Live, ok: bool, at: int): seq<Event> {
    if !ok then []
    else match before.pc
      case Working => if before.mem.index == 3 then [BackupVerified(at)] else []
      case Delaying => [DelayElapsed(at)]
      case Confirming => [Confirmed(at)]
      case Entering => if before.mem.index == 4 then [Executed(at)] else []
      case Leaving => if before.mem.index >= 1 then [Saved(before.mem.index - 1)] else []
      case _ => []
  }

  function EntryOf(after: Option<Live>, at: int): seq<Event> {
    if after.Some? && after.value.pc.Entering? then [Entered(after.value.mem.index, at)] else []
  }

  function FirstEntry(s: State, after: Option<Live>): Option<int> {
    if s.entered.None? && after.Some? && after.value.pc.Entering? && after.value.mem.index == 3 then Some(s.d.now) else s.entered
  }

  function Next(p: Params, s: State, step: Step): State
    requires Enabled(p, s, step)
  {
    match step
    case Start => s.(core := Core(None, Some(Live(FRESH, Creating))))
    case Resume =>
      var run := Loop(s.core.disk.value);
      s.(core := Core(s.core.disk, run), entered := FirstEntry(s, run), log := s.log + EntryOf(run, s.d.now))
    case Advance(ok) =>
      var c := CoreNext(s.core, ok);
      var schedules := c.run.Some? && c.run.value.pc.Delaying?;
      State(c,
            if schedules then Delay.Next(s.d, Delay.Schedule(p.id, p.delay)) else s.d,
            if schedules then s.d.next else s.promise,
            FirstEntry(s, c.run),
            s.log + EventOf(s.core.run.value, ok, s.d.now) + EntryOf(c.run, s.d.now))
    case Crash => s.(core := Core(s.core.disk, None), d := Delay.Next(s.d, Delay.Crash))
    case Background(b) => s.(d := Delay.Next(s.d, b))
  }

  predicate Valid(p: Params, s: State, steps: seq<Step>)
    decreases |steps|
  {
    steps == [] || (Enabled(p, s, steps[0]) && Valid(p, Next(p, s, steps[0]), steps[1..]))
  }

  function Run(p: Params, s: State, steps: seq<Step>): State
    requires Valid(p, s, steps)
    decreases |steps|
  {
    if steps == [] then s else Run(p, Next(p, s, steps[0]), steps[1..])
  }

  /** A new migration id, in any state of the delayed actions of others. */
  ghost predicate Initial(p: Params, s: State) {
    s.core == Core(None, None) && s.entered.None? && s.log == [] && Delay.Held(s.d) && Delay.Untouched(s.d, p.id)
  }

  // ----- progress on disk -------------------------------------------------

  /** A saved completion is behind the saved index, and no phase is entered after its completion was saved. */
  ghost predicate Progress(s: State) {
    && CoreOk(s.core)
    && (forall i :: 0 <= i < |s.log| && s.log[i].Saved? ==> s.core.disk.Some? && s.core.disk.value.index > s.log[i].phase)
    && (forall i, j :: 0 <= i < j < |s.log| && s.log[i].Saved? && s.log[j].Entered? ==> s.log[i].phase < s.log[j].phase)
  }

  /** Appending one step's events. */
  lemma {:induction false} AppendKeepsOrder(log: seq<Event>, events: seq<Event>, low: nat)
    requires forall i, j :: 0 <= i < j < |log| && log[i].Saved? && log[j].Entered? ==> log[i].phase < log[j].phase
    requires forall i, j :: 0 <= i < j < |events| && events[i].Saved? && events[j].Entered? ==> events[i].phase < events[j].phase
    requires forall i :: 0 <= i < |log| && log[i].Saved? ==> log[i].phase < low
    requires forall j :: 0 <= j < |events| && events[j].Entered? ==> events[j].phase >= low
    ensures var all := log + events;
            forall i, j :: 0 <= i < j < |all| && all[i].Saved? && all[j].Entered? ==> all[i].phase < all[j].phase
  {
  }

  lemma {:induction false} ResumeKeepsProgress(p: Params, s: State)
    requires Progress(s) && Enabled(p, s, Resume)
    ensures Progress(Next(p, s, Resume))
  {
    var m := s.core.disk.value;
    LoopOk(m);
    AppendKeepsOrder(s.log, EntryOf(Loop(m), s.d.now), m.index);
  }

  lemma {:induction false} AdvanceKeepsProgress(p: Params, s: State, ok: bool)
    requires Progress(s) && Enabled(p, s, Advance(ok))
    ensures Progress(Next(p, s, Advance(ok)))
  {
    StepKeepsCoreOk(s.core, ok);
    var c := CoreNext(s.core, ok);
    var events := EventsOf(s, ok);
    EventsAreOrdered(s, ok);
    assert s.log + EventOf(s.core.run.value, ok, s.d.now) + EntryOf(c.run, s.d.now) == s.log + events;
    AppendKeepsOrder(s.log, events, IndexOnDisk(s.core));
  }

  function IndexOnDisk(c: Core): nat { if c.disk.Some? then c.disk.value.index else 0 }

  lemma {:induction false} EventsAreOrdered(s: State, ok: bool)
    requires CoreOk(s.core) && s.core.run.Some?
    ensures var c, es := s.core, EventsOf(s, ok);
            && (forall i, j :: 0 <= i < j < |es| && es[i].Saved? && es[j].Entered? ==> es[i].phase < es[j].phase)
            && (forall j :: 0 <= j < |es| && es[j].Entered? ==> es[j].phase >= IndexOnDisk(c))
            && (forall j :: 0 <= j < |es| && es[j].Saved? ==> CoreNext(c, ok).disk.Some? && es[j].phase < IndexOnDisk(CoreNext(c, ok)))
  {
    var l := s.core.run.value;
    if (l.pc.Creating? || l.pc.Leaving?) && ok { LoopOk(l.mem); }
  }

  lemma {:induction false} StepKeepsProgress(p: Params, s: State, step: Step)
    requires Progress(s) && Enabled(p, s, step)
    ensures Progress(Next(p, s, step))
  {
    match step {
      case Resume => ResumeKeepsProgress(p, s);
      case Advance(ok) => AdvanceKeepsProgress(p, s, ok);
      case _ =>
    }
  }

  lemma {:induction false} RunKeepsProgress(p: Params, s: State, steps: seq<Step>)
    requires Progress(s) && Valid(p, s, steps)
    ensures Progress(Run(p, s, steps))
    decreases |steps|
  {
    if steps != [] {
      StepKeepsProgress(p, s, steps[0]);
      RunKeepsProgress(p, Next(p, s, steps[0]), steps[1..]);
    }
  }

  /** In every run of starts, crashes at any step and resumes: an in-flight state on disk with index k has
      phases 0..k-1 complete, a finished one has all five, a phase is entered again only if its completion was
      never saved, and the loop never runs off the end of the phases. */
  lemma {:induction false} SavedProgressIsKept(p: Params, s: State, steps: seq<Step>)
    requires Initial(p, s) && Valid(p, s, steps)
    ensures var t := Run(p, s, steps);
            && (t.core.disk.Some? && t.core.disk.value.overall == InFlight ==>
                 t.core.disk.value.index < 5 && PhasesDone(t.core.disk.value))
            && (t.core.disk.Some? && t.core.disk.value.overall == Finished ==>
                 t.core.disk.value.index == 5 && PhasesDone(t.core.disk.value))
            && (forall i, j :: 0 <= i < j < |t.log| && t.log[i].Saved? && t.log[j].Entered? ==> t.log[i].phase < t.log[j].phase)
            && (t.core.run.Some? ==> !t.core.run.value.pc.Ending?)
  {
    RunKeepsProgress(p, s, steps);
  }

  // ----- what must precede `execute` --------------------------------------

  predicate FirstEntryAt(log: seq<Event>, a: nat, t0: int) {
    a < |log| && log[a] == Entered(3, t0) && forall i :: 0 <= i < a ==> !(log[i].Entered? && log[i].phase == 3)
  }

  /** The backup was verified after the approval-delay phase was first entered, at `t0`. */
  ghost predicate BackedUp(log: seq<Event>, t0: int) {
    exists a, b :: 0 <= a < b < |log| && FirstEntryAt(log, a, t0) && log[b].BackupVerified?
  }

  /** Then the delay's promise resolved, at least `delay` after that first entry. */
  ghost predicate Waited(log: seq<Event>, t0: int, delay: int) {
    exists a, b, w :: 0 <= a < b < w < |log| && FirstEntryAt(log, a, t0) && log[b].BackupVerified?
                        && log[w].DelayElapsed? && log[w].at >= t0 + delay
  }

  /** Then the operator typed CONFIRM. */
  ghost predicate Approved(log: seq<Event>, t0: int, delay: int) {
    exists a, b, w, c :: 0 <= a < b < w < c < |log| && FirstEntryAt(log, a, t0) && log[b].BackupVerified?
                           && log[w].DelayElapsed? && log[w].at >= t0 + delay && log[c].Confirmed?
  }

  lemma {:induction false} FirstStays(log: seq<Event>, e: seq<Event>, a: nat, t0: int)
    requires FirstEntryAt(log, a, t0)
    ensures FirstEntryAt(log + e, a, t0)
  {
  }

  lemma {:induction false} BackedUpStays(log: seq<Event>, e: seq<Event>, t0: int)
    requires BackedUp(log, t0)
    ensures BackedUp(log + e, t0)
  {
    var a, b :| 0 <= a < b < |log| && FirstEntryAt(log, a, t0) && log[b].BackupVerified?;
    FirstStays(log, e, a, t0);
    assert (log + e)[b] == log[b];
  }

  lemma {:induction false} WaitedStays(log: seq<Event>, e: seq<Event>, t0: int, delay: int)
    requires Waited(log, t0, delay)
    ensures Waited(log + e, t0, delay)
  {
    var a, b, w :| 0 <= a < b < w < |log| && FirstEntryAt(log, a, t0) && log[b].BackupVerified?
      && log[w].DelayElapsed? && log[w].at >= t0 + delay;
    FirstStays(log, e, a, t0);
    assert (log + e)[b] == log[b] && (log + e)[w] == log[w];
  }

  lemma {:induction false} ApprovedStays(log: seq<Event>, e: seq<Event>, t0: int, delay: int)
    requires Approved(log, t0, delay)
    ensures Approved(log + e, t0, delay)
  {
    var a, b, w, c :| 0 <= a < b < w < c < |log| && FirstEntryAt(log, a, t0) && log[b].BackupVerified?
      && log[w].DelayElapsed? && log[w].at >= t0 + delay && log[c].Confirmed?;
    FirstStays(log, e, a, t0);
    assert (log + e)[b] == log[b] && (log + e)[w] == log[w] && (log + e)[c] == log[c];
  }

  /** One more event completes the next stage. */
  lemma {:induction false} BackupThenWait(log: seq<Event>, t0: int, delay: int, at: int)
    requires BackedUp(log, t0) && at >= t0 + delay
    ensures Waited(log + [DelayElapsed(at)], t0, delay)
  {
    var a, b :| 0 <= a < b < |log| && FirstEntryAt(log, a, t0) && log[b].BackupVerified?;
    var all := log + [DelayElapsed(at)];
    FirstStays(log, [DelayElapsed(at)], a, t0);
    assert all[b] == log[b] && all[|log|] == DelayElapsed(at);
  }

  lemma {:induction false} WaitThenConfirm(log: seq<Event>, t0: int, delay: int, at: int)
    requires Waited(log, t0, delay)
    ensures Approved(log + [Confirmed(at)], t0, delay)
  {
    var a, b, w :| 0 <= a < b < w < |log| && FirstEntryAt(log, a, t0) && log[b].BackupVerified?
      && log[w].DelayElapsed? && log[w].at >= t0 + delay;
    var all := log + [Confirmed(at)];
    FirstStays(log, [Confirmed(at)], a, t0);
    assert all[b] == log[b] && all[w] == log[w] && all[|log|] == Confirmed(at);
  }

  lemma {:induction false} EntryThenBackup(log: seq<Event>, a: nat, t0: int, at: int)
    requires FirstEntryAt(log, a, t0)
    ensures BackedUp(log + [BackupVerified(at)], t0)
  {
    FirstStays(log, [BackupVerified(at)], a, t0);
    assert (log + [BackupVerified(at)])[|log|] == BackupVerified(at);
  }

  /** The delay module's side: nothing under this id before `entered + delay`, and the awaited promise is this id's. */
  ghost predicate DelayOk(p: Params, s: State) {
    && Delay.Held(s.d)
    && (if s.entered.None? then Delay.Untouched(s.d, p.id)
        else Delay.NotBefore(s.d, p.id, s.entered.value + p.delay) && s.entered.value <= s.d.now)
    && (AtDelay(s) ==> s.entered.Some? && s.promise in s.d.owner && s.d.owner[s.promise] == p.id)
    && (s.core.run.Some? && s.core.run.value.mem.overall == InFlight && s.core.run.value.mem.index == 3 && !s.core.run.value.pc.Leaving? ==>
          s.entered.Some?)
  }

  predicate AtDelay(s: State) { s.core.run.Some? && s.core.run.value.pc.Delaying? }

  lemma {:induction false} BackgroundKeepsDelayOk(p: Params, s: State, b: Delay.Step)
    requires DelayOk(p, s) && Enabled(p, s, Background(b))
    ensures DelayOk(p, Next(p, s, Background(b)))
  {
    Delay.StepKeepsHeld(s.d, b);
    if s.entered.None? {
      Delay.StepKeepsUntouched(s.d, b, p.id);
    } else {
      Delay.StepKeepsNotBefore(s.d, b, p.id, s.entered.value + p.delay);
    }
  }

  lemma {:induction false} CrashKeepsDelayOk(p: Params, s: State)
    requires DelayOk(p, s)
    ensures DelayOk(p, Next(p, s, Crash))
  {
    Delay.StepKeepsHeld(s.d, Delay.Crash);
    if s.entered.None? {
      Delay.StepKeepsUntouched(s.d, Delay.Crash, p.id);
    } else {
      Delay.StepKeepsNotBefore(s.d, Delay.Crash, p.id, s.entered.value + p.delay);
    }
  }

  /** Entering the phase for the first time fixes the moment; before that the id is untouched. */
  lemma {:induction false} EntryKeepsDelayOk(p: Params, s: State, t: State)
    requires DelayOk(p, s) && t.d == s.d && t.entered == FirstEntry(s, t.core.run)
    requires t.core.run.Some? ==> !t.core.run.value.pc.Delaying?
    requires t.core.run.Some? && t.core.run.value.mem.overall == InFlight && t.core.run.value.mem.index == 3 && !t.core.run.value.pc.Leaving? ==>
               t.core.run.value.pc.Entering? || s.entered.Some?
    ensures DelayOk(p, t)
  {
    if s.entered.None? { Delay.UntouchedIsNotBefore(s.d, p.id, s.d.now + p.delay); }
  }

  lemma {:induction false} ScheduleKeepsDelayOk(p: Params, s: State, ok: bool)
    requires p.delay <= Delay.MAX_TIMER && DelayOk(p, s) && CoreOk(s.core) && Enabled(p, s, Advance(ok))
    requires CoreNext(s.core, ok).run.Some? && CoreNext(s.core, ok).run.value.pc.Delaying?
    ensures DelayOk(p, Next(p, s, Advance(ok)))
  {
    var step := Delay.Schedule(p.id, p.delay);
    Delay.StepKeepsHeld(s.d, step);
    Delay.StepKeepsNotBefore(s.d, step, p.id, s.entered.value + p.delay);
  }

  lemma {:induction false} AdvanceKeepsDelayOk(p: Params, s: State, ok: bool)
    requires p.delay <= Delay.MAX_TIMER && DelayOk(p, s) && CoreOk(s.core) && Enabled(p, s, Advance(ok))
    ensures DelayOk(p, Next(p, s, Advance(ok)))
  {
    var c := CoreNext(s.core, ok);
    if c.run.Some? && c.run.value.pc.Delaying? {
      ScheduleKeepsDelayOk(p, s, ok);
    } else {
      var l := s.core.run.value;
      if (l.pc.Creating? || l.pc.Leaving?) && ok { LoopOk(l.mem); }
      EntryKeepsDelayOk(p, s, Next(p, s, Advance(ok)));
    }
  }

  lemma {:induction false} StepKeepsDelayOk(p: Params, s: State, step: Step)
    requires p.delay <= Delay.MAX_TIMER && DelayOk(p, s) && CoreOk(s.core) && Enabled(p, s, step)
    ensures DelayOk(p, Next(p, s, step))
  {
    match step {
      case Start => EntryKeepsDelayOk(p, s, Next(p, s, step));
      case Resume =>
        LoopOk(s.core.disk.value);
        EntryKeepsDelayOk(p, s, Next(p, s, step));
      case Advance(ok) => AdvanceKeepsDelayOk(p, s, ok);
      case Crash => CrashKeepsDelayOk(p, s);
      case Background(b) => BackgroundKeepsDelayOk(p, s, b);
    }
  }

  /** How far the approval has come, by where the live run and the disk are. */
  ghost predicate Stage(p: Params, core: Core, log: seq<Event>, t0: int) {
    && (exists a :: FirstEntryAt(log, a, t0))
    && (core.disk.Some? && core.disk.value.index >= 4 ==> Approved(log, t0, p.delay))
    && (core.run.Some? && core.run.value.pc.Delaying? ==> BackedUp(log, t0))
    && (core.run.Some? && core.run.value.pc.Confirming? ==> Waited(log, t0, p.delay))
    && (core.run.Some? && core.run.value.mem.index >= 4 ==> Approved(log, t0, p.delay))
  }

  /** Before the approval-delay phase is first entered. */
  ghost predicate Early(core: Core, log: seq<Event>) {
    && (forall i :: 0 <= i < |log| ==> !(log[i].Entered? && log[i].phase == 3))
    && (core.disk.Some? ==> core.disk.value.index <= 3)
    && (core.run.Some? ==> core.run.value.mem.index <= 3)
    && (core.run.Some? && core.run.value.mem.index == 3 ==> core.run.value.pc.Leaving? || core.run.value.pc.Failing?)
  }

  ghost predicate LogOk(p: Params, s: State) {
    if s.entered.None? then Early(s.core, s.log) else Stage(p, s.core, s.log, s.entered.value)
  }

  /** Every call of `execute` so far came after the approval. */
  ghost predicate Guarded(p: Params, log: seq<Event>) {
    forall e :: 0 <= e < |log| && log[e].Executed? ==> ApprovedBefore(p, log, e)
  }

  ghost predicate ApprovedBefore(p: Params, log: seq<Event>, e: nat) {
    e < |log| && exists t0 :: Approved(log[..e], t0, p.delay)
  }

  lemma {:induction false} AppendGuarded(p: Params, log: seq<Event>, e: seq<Event>)
    requires Guarded(p, log) && forall i :: 0 <= i < |e| ==> !e[i].Executed?
    ensures Guarded(p, log + e)
  {
    var all := log + e;
    forall k | 0 <= k < |all| && all[k].Executed? ensures ApprovedBefore(p, all, k) {
      assert k < |log| && all[..k] == log[..k] && ApprovedBefore(p, log, k);
    }
  }

  lemma {:induction false} ExecutedGuarded(p: Params, log: seq<Event>, at: int, t0: int)
    requires Guarded(p, log) && Approved(log, t0, p.delay)
    ensures Guarded(p, log + [Executed(at)])
  {
    var all := log + [Executed(at)];
    forall k | 0 <= k < |all| && all[k].Executed? ensures ApprovedBefore(p, all, k) {
      if k < |log| {
        assert all[..k] == log[..k] && ApprovedBefore(p, log, k);
      } else {
        assert all[..k] == log;
      }
    }
  }

  /** The stages already reached survive more events, when neither the disk nor the run moves past phase 3. */
  lemma {:induction false} StageStays(p: Params, core: Core, log: seq<Event>, next: Core, e: seq<Event>, t0: int)
    requires Stage(p, core, log, t0)
    requires next.disk.Some? && next.disk.value.index >= 4 ==> Approved(log, t0, p.delay)
    requires next.run.Some? && next.run.value.mem.index >= 4 ==> Approved(log + e, t0, p.delay)
    requires next.run.Some? && next.run.value.pc.Delaying? ==> BackedUp(log + e, t0)
    requires next.run.Some? && next.run.value.pc.Confirming? ==> Waited(log + e, t0, p.delay)
    ensures Stage(p, next, log + e, t0)
  {
    var a :| FirstEntryAt(log, a, t0);
    FirstStays(log, e, a, t0);
    if Approved(log, t0, p.delay) { ApprovedStays(log, e, t0, p.delay); }
  }

  lemma {:induction false} AdvanceKeepsStage(p: Params, s: State, ok: bool, e: seq<Event>)
    requires CoreOk(s.core) && DelayOk(p, s) && Enabled(p, s, Advance(ok)) && s.entered.Some?
    requires Stage(p, s.core, s.log, s.entered.value)
    requires e == EventOf(s.core.run.value, ok, s.d.now) + EntryOf(CoreNext(s.core, ok).run, s.d.now)
    ensures Stage(p, CoreNext(s.core, ok), s.log + e, s.entered.value)
  {
    var l, c, t0 := s.core.run.value, CoreNext(s.core, ok), s.entered.value;
    var now := s.d.now;
    if l.pc.Working? && l.mem.index == 3 && ok {
      var a :| FirstEntryAt(s.log, a, t0);
      EntryThenBackup(s.log, a, t0, now);
      assert e == [BackupVerified(now)];
    } else if l.pc.Delaying? && ok {
      BackupThenWait(s.log, t0, p.delay, now);
      assert e == [DelayElapsed(now)];
    } else if l.pc.Confirming? && ok {
      WaitThenConfirm(s.log, t0, p.delay, now);
      assert e == [Confirmed(now)];
    } else {
      if Approved(s.log, t0, p.delay) { ApprovedStays(s.log, e, t0, p.delay); }
      if (l.pc.Creating? || l.pc.Leaving?) && ok { LoopOk(l.mem); }
    }
    StageStays(p, s.core, s.log, c, e, t0);
  }

  lemma {:induction false} EarlyAdvance(p: Params, s: State, ok: bool, e: seq<Event>)
    requires CoreOk(s.core) && DelayOk(p, s) && Enabled(p, s, Advance(ok)) && s.entered.None? && Early(s.core, s.log)
    requires e == EventOf(s.core.run.value, ok, s.d.now) + EntryOf(CoreNext(s.core, ok).run, s.d.now)
    ensures var first := FirstEntry(s, CoreNext(s.core, ok).run);
            if first.None? then Early(CoreNext(s.core, ok), s.log + e) else Stage(p, CoreNext(s.core, ok), s.log + e, first.value)
  {
    var l, c := s.core.run.value, CoreNext(s.core, ok);
    if (l.pc.Creating? || l.pc.Leaving?) && ok { LoopOk(l.mem); }
    if FirstEntry(s, c.run).Some? {
      assert e[|e| - 1] == Entered(3, s.d.now);
      assert FirstEntryAt(s.log + e, |s.log| + |e| - 1, s.d.now);
    }
  }

  function EventsOf(s: State, ok: bool): seq<Event>
    requires s.core.run.Some?
  {
    EventOf(s.core.run.value, ok, s.d.now) + EntryOf(CoreNext(s.core, ok).run, s.d.now)
  }

  lemma {:induction false} AdvanceLog(p: Params, s: State, ok: bool)
    requires Enabled(p, s, Advance(ok))
    ensures var t := Next(p, s, Advance(ok));
            t.core == CoreNext(s.core, ok) && t.log == s.log + EventsOf(s, ok) && t.entered == FirstEntry(s, t.core.run)
  {
    var e1, e2 := EventOf(s.core.run.value, ok, s.d.now), EntryOf(CoreNext(s.core, ok).run, s.d.now);
    assert s.log + e1 + e2 == s.log + (e1 + e2);
  }

  lemma {:induction false} AdvanceIsGuarded(p: Params, s: State, ok: bool)
    requires CoreOk(s.core) && DelayOk(p, s) && LogOk(p, s) && Guarded(p, s.log) && Enabled(p, s, Advance(ok))
    ensures Guarded(p, s.log + EventsOf(s, ok))
  {
    var l := s.core.run.value;
    if l.pc.Entering? && l.mem.index == 4 && ok {
      ExecutedGuarded(p, s.log, s.d.now, s.entered.value);
      assert EventsOf(s, ok) == [Executed(s.d.now)];
    } else {
      AppendGuarded(p, s.log, EventsOf(s, ok));
    }
  }

  lemma {:induction false} AdvanceKeepsLog(p: Params, s: State, ok: bool)
    requires CoreOk(s.core) && DelayOk(p, s) && LogOk(p, s) && Guarded(p, s.log) && Enabled(p, s, Advance(ok))
    ensures LogOk(p, Next(p, s, Advance(ok))) && Guarded(p, Next(p, s, Advance(ok)).log)
  {
    AdvanceLog(p, s, ok);
    AdvanceIsGuarded(p, s, ok);
    if s.entered.Some? { AdvanceKeepsStage(p, s, ok, EventsOf(s, ok)); } else { EarlyAdvance(p, s, ok, EventsOf(s, ok)); }
  }

  lemma {:induction false} ResumeKeepsLog(p: Params, s: State)
    requires CoreOk(s.core) && LogOk(p, s) && Guarded(p, s.log) && Enabled(p, s, Resume)
    ensures LogOk(p, Next(p, s, Resume)) && Guarded(p, Next(p, s, Resume).log)
  {
    var m := s.core.disk.value;
    LoopOk(m);
    var t := Next(p, s, Resume);
    var e := EntryOf(Loop(m), s.d.now);
    AppendGuarded(p, s.log, e);
    if s.entered.Some? {
      if Approved(s.log, s.entered.value, p.delay) { ApprovedStays(s.log, e, s.entered.value, p.delay); }
      StageStays(p, s.core, s.log, t.core, e, s.entered.value);
    } else if t.entered.Some? {
      assert FirstEntryAt(t.log, |s.log|, s.d.now);
    }
  }

  lemma {:induction false} StepKeepsLog(p: Params, s: State, step: Step)
    requires CoreOk(s.core) && DelayOk(p, s) && LogOk(p, s) && Guarded(p, s.log) && Enabled(p, s, step)
    ensures LogOk(p, Next(p, s, step)) && Guarded(p, Next(p, s, step).log)
  {
    match step {
      case Resume => ResumeKeepsLog(p, s);
      case Advance(ok) => AdvanceKeepsLog(p, s, ok);
      case _ =>
    }
  }

  lemma {:induction false} RunIsGuarded(p: Params, s: State, steps: seq<Step>)
    requires p.delay <= Delay.MAX_TIMER && Valid(p, s, steps)
    requires Progress(s) && DelayOk(p, s) && LogOk(p, s) && Guarded(p, s.log)
    ensures Guarded(p, Run(p, s, steps).log)
    decreases |steps|
  {
    if steps != [] {
      StepKeepsProgress(p, s, steps[0]);
      StepKeepsDelayOk(p, s, steps[0]);
      StepKeepsLog(p, s, steps[0]);
      RunIsGuarded(p, Next(p, s, steps[0]), steps[1..]);
    }
  }

  /** In every run of starts, crashes at any step, resumes, reloads and cancellations of the action, with an
      approval delay that fits a timer: each call of `execute` comes after the approval-delay phase was first
      entered, then a backup verification, then the end of the delay, at least the approval delay after that
      first entry, and then a typed CONFIRM. */
  lemma {:induction false} ExecuteIsGuarded(p: Params, s: State, steps: seq<Step>, e: nat)
    requires p.delay <= Delay.MAX_TIMER && Initial(p, s) && Valid(p, s, steps)
    requires e < |Run(p, s, steps).log| && Run(p, s, steps).log[e].Executed?
    ensures exists t0 :: Approved(Run(p, s, steps).log[..e], t0, p.delay)
  {
    RunIsGuarded(p, s, steps);
    assert ApprovedBefore(p, Run(p, s, steps).log, e);
  }

  // ----- the limit of the delay -------------------------------------------

  lemma {:induction false} RunAppend(p: Params, s: State, steps: seq<Step>, step: Step)
    requires Valid(p, s, steps) && Enabled(p, Run(p, s, steps), step)
    ensures Valid(p, s, steps + [step]) && Run(p, s, steps + [step]) == Next(p, Run(p, s, steps), step)
    decreases |steps|
  {
    if steps == [] {
      assert ([step])[1..] == [];
    } else {
      RunAppend(p, Next(p, s, steps[0]), steps[1..], step);
      assert (steps + [step])[1..] == steps[1..] + [step];
    }
  }

  ghost predicate Reaches(p: Params, s: State, t: State) { exists steps :: Valid(p, s, steps) && Run(p, s, steps) == t }

  lemma {:induction false} ReachStep(p: Params, s: State, t: State, step: Step)
    requires Reaches(p, s, t) && Enabled(p, t, step)
    ensures Reaches(p, s, Next(p, t, step))
  {
    var steps :| Valid(p, s, steps) && Run(p, s, steps) == t;
    RunAppend(p, s, steps, step);
  }

  const ZERO := State(Core(None, None), Delay.EMPTY, 0, None, [])

  /** The first phases, up to the backup verification. */
  lemma {:induction false} ReachesVerification(p: Params) returns (t: State)
    ensures Reaches(p, ZERO, t)
    ensures t.core == Core(Some(Mig(3, InFlight, [Complete, Complete, Complete, InProgress, Waiting])),
                           Some(Live(Mig(3, InFlight, [Complete, Complete, Complete, InProgress, Waiting]), Working)))
    ensures t.d == Delay.EMPTY && t.entered == Some(0)
  {
    assert Valid(p, ZERO, []) && Run(p, ZERO, []) == ZERO;
    ReachStep(p, ZERO, ZERO, Start);
    t := Next(p, ZERO, Start);
    t := OneMore(p, t);
    var m := Mig(0, InFlight, [InProgress, Waiting, Waiting, Waiting, Waiting]);
    assert FRESH.phases[0 := InProgress] == m.phases && t.core.run == Some(Live(m, Entering));
    t := OnePhase(p, t);
    m := Mig(1, InFlight, [Complete, InProgress, Waiting, Waiting, Waiting]);
    assert Loop(Mig(1, InFlight, [Complete, Waiting, Waiting, Waiting, Waiting])).value.mem.phases == m.phases;
    assert t.core.run.value.mem.phases == m.phases && t.core.run == Some(Live(m, Entering));
    t := OnePhase(p, t);
    m := Mig(2, InFlight, [Complete, Complete, InProgress, Waiting, Waiting]);
    assert t.core.run.value.mem.phases == m.phases && t.core.run == Some(Live(m, Entering));
    t := OnePhase(p, t);
    m := Mig(3, InFlight, [Complete, Complete, Complete, InProgress, Waiting]);
    assert t.core.run.value.mem.phases == m.phases && t.core.run == Some(Live(m, Entering));
    t := OneMore(p, t);
  }

  lemma {:induction false} OneMore(p: Params, s: State) returns (t: State)
    requires Reaches(p, ZERO, s) && s.core.run.Some? && !s.core.run.value.pc.Delaying?
    ensures Reaches(p, ZERO, t) && t == Next(p, s, Advance(true))
  {
    ReachStep(p, ZERO, s, Advance(true));
    t := Next(p, s, Advance(true));
  }

  lemma {:induction false} OnePhase(p: Params, s: State) returns (t: State)
    requires Reaches(p, ZERO, s) && s.core.run.Some? && s.core.run.value.pc.Entering?
    requires s.core.run.value.mem.index < 3 && s.core.run.value.mem.overall == InFlight && |s.core.run.value.mem.phases| == 5
    ensures Reaches(p, ZERO, t) && t.d == s.d
    ensures var m := s.core.run.value.mem;
            && t.core == Core(Some(Mig(m.index + 1, InFlight, m.phases[m.index := Complete])),
                              Loop(Mig(m.index + 1, InFlight, m.phases[m.index := Complete])))
            && t.entered == FirstEntry(s, t.core.run)
  {
    var a := OneMore(p, s);
    var b := OneMore(p, a);
    t := OneMore(p, b);
  }

  /** An approval delay of 2^31 milliseconds or more is not honoured: the migration can be executed one
      millisecond after the approval-delay phase was first entered. */
  lemma {:induction false} LongDelayIsNotHonoured(p: Params) returns (t: State)
    requires p.delay > Delay.MAX_TIMER
    ensures Initial(p, ZERO) && Reaches(p, ZERO, t)
    ensures t.entered == Some(0) && Executed(1) in t.log
  {
    var a := ReachesVerification(p);
    var b := OneMore(p, a);
    assert b.d == Delay.Next(Delay.EMPTY, Delay.Schedule(p.id, p.delay)) && b.promise == 0;
    t := DelayPasses(p, b);
    ReachStep(p, ZERO, t, Advance(true));
    t := Next(p, t, Advance(true));
    assert t.core.run.value.pc == Confirming;
    t := OneMore(p, t);
    t := OneMore(p, t);
    assert t.core.run.value.pc == Entering && t.core.run.value.mem.index == 4;
    t := OneMore(p, t);
    assert t.log[|t.log| - 1] == Executed(1);
  }

  lemma {:induction false} DelayPasses(p: Params, b: State) returns (t: State)
    requires p.delay > Delay.MAX_TIMER && Reaches(p, ZERO, b)
    requires b.d == Delay.Next(Delay.EMPTY, Delay.Schedule(p.id, p.delay)) && b.promise == 0
    ensures Reaches(p, ZERO, t) && t.core == b.core && t.entered == b.entered && t.promise == 0
    ensures t.d.now == 1 && t.d.settled == map[0 := Delay.Resolved]
  {
    var c := InBackground(p, b, Delay.Write(0));
    var d := InBackground(p, c, Delay.Arm(0));
    assert d.d.timers == map[1 := Delay.Timer(p.id, 1)] && d.d.waiting == map[p.id := 0];
    var e := InBackground(p, d, Delay.Tick(1));
    t := InBackground(p, e, Delay.Fire(1));
  }

  lemma {:induction false} InBackground(p: Params, s: State, step: Delay.Step) returns (t: State)
    requires Reaches(p, ZERO, s) && Enabled(p, s, Background(step))
    ensures Reaches(p, ZERO, t) && t == Next(p, s, Background(step))
  {
    ReachStep(p, ZERO, s, Background(step));
    t := Next(p, s, Background(step));
  }

  // ----- the class --------------------------------------------------------

  lemma {:induction false} RunSnoc(c: Core, oks: seq<bool>, ok: bool)
    requires Runs(c, oks) && CoreRun(c, oks).run.Some?
    ensures Runs(c, oks + [ok]) && CoreRun(c, oks + [ok]) == CoreNext(CoreRun(c, oks), ok)
    decreases |oks|
  {
    if oks == [] {
      assert ([ok])[1..] == [];
    } else {
      RunSnoc(CoreNext(c, oks[0]), oks[1..], ok);
      assert (oks + [ok])[1..] == oks[1..] + [ok];
    }
  }

  /** One live run. `outcome(i)` says whether the `i`-th awaited operation succeeds. */
  class Orchestrator {
    const outcome: nat -> bool
    var disk: Option<Mig>
    var awaited: nat
    ghost var start: Core
    ghost var oks: seq<bool>
    ghost var core: Core

    constructor (disk: Option<Mig>, outcome: nat -> bool)
      ensures this.disk == disk && this.outcome == outcome && awaited == 0
    {
      this.disk, this.outcome, awaited := disk, outcome, 0;
      start, oks, core := Core(disk, None), [], Core(disk, None);
    }

    /** The machine has followed the code so far. */
    ghost predicate Follows()
      reads this
    {
      Runs(start, oks) && CoreRun(start, oks) == core && core.disk == disk && CoreOk(core)
    }

    /** An awaited operation that writes nothing. */
    method Await() returns (ok: bool)
      requires Follows() && core.run.Some?
      requires forall b :: CoreNext(core, b).disk == disk
      modifies this`awaited, this`oks, this`core
      ensures Follows() && core == CoreNext(old(core), ok) && start == old(start)
    {
      ok := outcome(awaited);
      awaited := awaited + 1;
      RunSnoc(start, oks, ok);
      StepKeepsCoreOk(core, ok);
      oks, core := oks + [ok], CoreNext(core, ok);
    }

    /** `saveMigrationState` */
    method Save(m: Mig) returns (ok: bool)
      requires Follows() && core.run.Some?
      requires CoreNext(core, true).disk == Some(m) && CoreNext(core, false).disk == disk
      modifies this`awaited, this`disk, this`oks, this`core
      ensures Follows() && core == CoreNext(old(core), ok) && start == old(start)
    {
      ok := outcome(awaited);
      awaited := awaited + 1;
      if ok { disk := Some(m); }
      RunSnoc(start, oks, ok);
      StepKeepsCoreOk(core, ok);
      oks, core := oks + [ok], CoreNext(core, ok);
    }

    /** `runPhase`: on success the phase has been left and saved; otherwise the machine is in the catch clause. */
    method RunPhase(m: Mig) returns (next: Mig, threw: bool)
      requires Follows() && m.overall == InFlight && m.index < 5 && |m.phases| == 5
      requires core.run == Loop(m)
      modifies this`awaited, this`disk, this`oks, this`core
      ensures Follows() && start == old(start)
      ensures !threw ==> core.run == Loop(next) && next.index == m.index + 1 && DiskOk(next) && next.overall != Aborted && disk == Some(next)
      ensures threw ==> core.run.Some? && core.run.value == Live(next, Failing) && next.overall == Aborted
    {
      next := m.(phases := m.phases[m.index := InProgress]);
      var ok := Save(next);
      if ok { ok := Await(); }
      if ok && m.index == 3 {
        ok := Await();
        if ok { ok := Await(); }
      }
      if !ok { return Fail(next, m.index).value.mem, true; }
      next, threw := LeavePhase(next);
    }

    /** The end of `runPhase`: the completion is saved. */
    method LeavePhase(m: Mig) returns (next: Mig, threw: bool)
      requires Follows() && m.index < 5 && |m.phases| == 5
      requires core.run == Some(Live(Mig(m.index + 1, if m.index == 4 then Finished else m.overall, m.phases[m.index := Complete]), Leaving))
      modifies this`awaited, this`disk, this`oks, this`core
      ensures Follows() && start == old(start)
      ensures !threw ==> core.run == Loop(next) && next.index == m.index + 1 && DiskOk(next) && next.overall != Aborted && disk == Some(next)
      ensures threw ==> core.run.Some? && core.run.value == Live(next, Failing) && next.overall == Aborted
    {
      next := Mig(m.index + 1, if m.index == 4 then Finished else m.overall, m.phases[m.index := Complete]);
      var ok := Save(next);
      if !ok { return Fail(next, m.index).value.mem, true; }
      return next, false;
    }

    /** `run`: ends for every way the awaits go, having followed the machine to its end. */
    method Run(m: Mig) returns (final: Mig, threw: bool)
      requires Follows() && DiskOk(m) && core.run == Loop(m)
      modifies this`awaited, this`disk, this`oks, this`core
      ensures Follows() && start == old(start) && core.run.None?
      ensures final.overall != InFlight && (threw <==> final.overall == Aborted && m.overall == InFlight)
      ensures !threw && m.overall == InFlight ==> disk == Some(final) && DiskOk(final)
    {
      final, threw := m, false;
      while final.overall == InFlight
        invariant Follows() && start == old(start) && DiskOk(final) && core.run == Loop(final) && !threw
        invariant final == m || (m.overall == InFlight && final.overall != Aborted && disk == Some(final))
        decreases 5 - final.index, final.overall == InFlight
      {
        var next, failed := RunPhase(final);
        if failed {
          var ok := Save(next);
          return next, true;
        }
        final := next;
      }
    }

    /** `start`: nothing exists on disk before the first save. */
    method Start() returns (final: Mig, threw: bool)
      requires disk.None?
      modifies this
      ensures Follows() && start == Core(None, Some(Live(FRESH, Creating))) && core.run.None?
      ensures !threw ==> final.overall == Finished && disk == Some(final) && final.index == 5 && PhasesDone(final)
    {
      start, oks := Core(None, Some(Live(FRESH, Creating))), [];
      core := start;
      var ok := Save(FRESH);
      if !ok { return FRESH, true; }
      final, threw := Run(FRESH);
    }

    /** `resume`: a terminal state returns at once. */
    method Resume(m: Mig) returns (final: Mig, threw: bool)
      requires disk == Some(m) && DiskOk(m)
      modifies this
      ensures Follows() && start == Core(Some(m), Loop(m)) && core.run.None?
      ensures m.overall != InFlight ==> final == m && !threw && disk == old(disk)
    {
      LoopOk(m);
      start, oks := Core(disk, Loop(m)), [];
      core := start;
      if m.overall != InFlight { return m, false; }
      final, threw := Run(m);
    }
  }
}
