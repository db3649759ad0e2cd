/** Delayed actions (`safety/delay.ts`): persisted records, in-process timers, crash and reload. */
module Delay {

  type Id = string

  datatype Status = Pending | Cancelled | Fired

  datatype Record = Record(fireAt: int, status: Status)

  datatype Timer = Timer(id: Id, due: int)

  /** A `scheduleDelayedAction` call between its start and the creation of its timer. */
  datatype Call = Call(id: Id, fireAt: int, delay: int, written: bool)

  datatype Settled = Resolved | Rejected

  /** `disk`, `now`, `settled` and `owner` (the id each call was made for) survive a crash; the rest is the
      process: the runtime's timers, `liveTimers`, the resolver and rejecter maps (always changed together),
      the calls under way, the files still to load, and the records returned as past due. Calls and timers
      take their numbers from `next`; a call's number is also its promise's. */
  datatype State = State(
    now: int, disk: map<Id, Record>, settled: map<nat, Settled>, owner: map<nat, Id>, next: nat,
    timers: map<nat, Timer>, live: map<Id, nat>, waiting: map<Id, nat>, calls: map<nat, Call>,
    listed: bool, toLoad: set<Id>, pastDue: set<Id>)

  const EMPTY := State(0, map[], map[], map[], 0, map[], map[], map[], map[], false, {}, {})

  datatype Step =
    | Tick(ms: nat)
    | Schedule(id: Id, delay: int)
    | Write(c: nat)                // the call's record reaches the disk
    | WriteFails(c: nat)
    | Arm(c: nat)                  // the call's promise and timer are created
    | Fire(k: nat)                 // `fireAction`: read, check and persist
    | Cancel(id: Id)               // `cancelDelayedAction`: read, check and persist
    | Crash
    | List                         // `loadPendingActions` reads the directory
    | Load(id: Id)                 // and then one file

  const MAX_TIMER := 0x7fff_ffff

  /** The runtime's timers hold 31 bits; a delay outside 1..2^31-1 becomes one millisecond. */
  function TimerDelay(d: int): int { if 1 <= d <= MAX_TIMER then d else 1 }

  predicate Enabled(s: State, step: Step) {
    match step
    case Write(c) => c in s.calls && !s.calls[c].written
    case WriteFails(c) => c in s.calls && !s.calls[c].written
    case Arm(c) => c in s.calls && s.calls[c].written
    case Fire(k) => k in s.timers && s.timers[k].due <= s.now
    case List => !s.listed
    case Load(id) => id in s.toLoad
    case _ => true
  }

  predicate IsPending(disk: map<Id, Record>, id: Id) { id in disk && disk[id].status.Pending? }

  /** The resolver or rejecter of `id`, if any, is called. */
  function Settle(s: State, id: Id, how: Settled): map<nat, Settled> {
    if id in s.waiting then s.settled[s.waiting[id] := how] else s.settled
  }

  function DoFire(s: State, k: nat): State
    requires k in s.timers
  {
    var id := s.timers[k].id;
    if !IsPending(s.disk, id) then s.(timers := s.timers - {k})
    else s.(timers := s.timers - {k}, live := s.live - {id},
            disk := s.disk[id := Record(s.disk[id].fireAt, Fired)],
            settled := Settle(s, id, Resolved), waiting := s.waiting - {id})
  }

  function DoCancel(s: State, id: Id): State {
    if !IsPending(s.disk, id) then s
    else s.(timers := if id in s.live then s.timers - {s.live[id]} else s.timers, live := s.live - {id},
            disk := s.disk[id := Record(s.disk[id].fireAt, Cancelled)],
            settled := Settle(s, id, Rejected), waiting := s.waiting - {id})
  }

  function DoLoad(s: State, id: Id): State {
    var late := IsPending(s.disk, id) && s.disk[id].fireAt <= s.now;
    var arm := IsPending(s.disk, id) && !late;
    s.(toLoad := s.toLoad - {id},
       pastDue := if late then s.pastDue + {id} else s.pastDue,
       timers := if arm then s.timers[s.next := Timer(id, s.now + TimerDelay(s.disk[id].fireAt - s.now))] else s.timers,
       live := if arm then s.live[id := s.next] else s.live,
       next := if arm then s.next + 1 else s.next)
  }

  function DoArm(s: State, c: nat): State
    requires c in s.calls
  {
    var id := s.calls[c].id;
    s.(calls := s.calls - {c}, waiting := s.waiting[id := c], live := s.live[id := s.next], next := s.next + 1,
       timers := s.timers[s.next := Timer(id, s.now + TimerDelay(s.calls[c].delay))])
  }

  function DoWrite(s: State, c: nat): State
    requires c in s.calls
  {
    s.(disk := s.disk[s.calls[c].id := Record(s.calls[c].fireAt, Pending)], calls := s.calls[c := s.calls[c].(written := true)])
  }

  function DoSchedule(s: State, id: Id, delay: int): State {
    s.(calls := s.calls[s.next := Call(id, s.now + delay, delay, false)], owner := s.owner[s.next := id], next := s.next + 1)
  }

  function Next(s: State, step: Step): State
    requires Enabled(s, step)
  {
    match step
    case Tick(ms) => s.(now := s.now + ms)
    case Schedule(id, delay) => DoSchedule(s, id, delay)
    case Write(c) => DoWrite(s, c)
    case WriteFails(c) => s.(calls := s.calls - {c}, settled := s.settled[c := Rejected])
    case Arm(c) => DoArm(s, c)
    case Fire(k) => DoFire(s, k)
    case Cancel(id) => DoCancel(s, id)
    case Crash => s.(timers := map[], live := map[], waiting := map[], calls := map[], listed := false, toLoad := {}, pastDue := {})
    case List => s.(listed := true, toLoad := s.disk.Keys)
    case Load(id) => DoLoad(s, id)
  }

  predicate Valid(s: State, steps: seq<Step>)
    decreases |steps|
  {
    steps == [] || (Enabled(s, steps[0]) && Valid(Next(s, steps[0]), steps[1..]))
  }

  function Run(s: State, steps: seq<Step>): State
    requires Valid(s, steps)
    decreases |steps|
  {
    if steps == [] then s else Run(Next(s, steps[0]), steps[1..])
  }

  // ----- promises ---------------------------------------------------------

  /** A promise that some map still holds, or whose call is under way, has not settled; no promise is held
      twice; and it is held under the id it was made for. */
  ghost predicate HeldBy(owner: map<nat, Id>, next: nat, settled: map<nat, Settled>, calls: map<nat, Call>, waiting: map<Id, nat>) {
    && (forall p :: p in owner ==> p < next)
    && (forall p :: p in settled ==> p in owner)
    && (forall c :: c in calls ==> c in owner && owner[c] == calls[c].id && c !in settled)
    && (forall id :: id in waiting ==>
          waiting[id] in owner && owner[waiting[id]] == id && waiting[id] !in settled && waiting[id] !in calls)
  }

  ghost predicate Held(s: State) { HeldBy(s.owner, s.next, s.settled, s.calls, s.waiting) }

  /** What a step does to the fields about promises. */
  ghost predicate PromisesMove(s: State, step: Step, t: State)
    requires Enabled(s, step)
  {
    match step
    case Schedule(id, delay) =>
      && t.owner == s.owner[s.next := id] && t.next == s.next + 1 && t.settled == s.settled && t.waiting == s.waiting
      && t.calls == s.calls[s.next := Call(id, s.now + delay, delay, false)]
    case Write(c) =>
      && t.owner == s.owner && t.next == s.next && t.settled == s.settled && t.waiting == s.waiting
      && t.calls == s.calls[c := s.calls[c].(written := true)]
    case WriteFails(c) =>
      && t.owner == s.owner && t.next == s.next && t.settled == s.settled[c := Rejected] && t.waiting == s.waiting
      && t.calls == s.calls - {c}
    case Arm(c) =>
      && t.owner == s.owner && t.next == s.next + 1 && t.settled == s.settled && t.waiting == s.waiting[s.calls[c].id := c]
      && t.calls == s.calls - {c}
    case Fire(k) => Settles(s, t, s.timers[k].id, Resolved, s.timers[k].due)
    case Cancel(id) => Settles(s, t, id, Rejected, s.now)
    case Crash => t.owner == s.owner && t.next == s.next && t.settled == s.settled && t.waiting == map[] && t.calls == map[]
    case _ => t.owner == s.owner && t.next >= s.next && t.settled == s.settled && t.waiting == s.waiting && t.calls == s.calls
  }

  /** At most the promise waiting for `id` settles, and that not before `from`. */
  ghost predicate Settles(s: State, t: State, id: Id, how: Settled, from: int) {
    && t.owner == s.owner && t.next == s.next && t.calls == s.calls && from <= s.now
    && ((t.settled == s.settled && t.waiting == s.waiting)
        || (t.waiting == s.waiting - {id} && (id in s.waiting ==> t.settled == s.settled[s.waiting[id] := how])
            && (id !in s.waiting ==> t.settled == s.settled)))
  }

  lemma {:induction false} FireEffect(s: State, k: nat)
    requires Enabled(s, Fire(k))
    ensures var t := DoFire(s, k);
            Settles(s, t, s.timers[k].id, Resolved, s.timers[k].due) && t.now == s.now
  {
  }

  lemma {:induction false} CancelEffect(s: State, id: Id)
    ensures var t := DoCancel(s, id);
            Settles(s, t, id, Rejected, s.now) && t.now == s.now
  {
  }

  lemma {:induction false} PromiseEffect(s: State, step: Step)
    requires Enabled(s, step)
    ensures PromisesMove(s, step, Next(s, step)) && Next(s, step).now >= s.now
  {
    match step {
      case Fire(k) => FireEffect(s, k);
      case Cancel(id) => CancelEffect(s, id);
      case _ =>
    }
  }

  lemma {:induction false} MoveKeepsHeld(s: State, step: Step, t: State)
    requires Held(s) && Enabled(s, step) && PromisesMove(s, step, t)
    ensures Held(t)
    ensures forall p :: p in s.settled ==> p in t.settled && t.settled[p] == s.settled[p]
    ensures forall p :: p in s.owner ==> p in t.owner && t.owner[p] == s.owner[p]
    ensures !step.Schedule? ==> t.owner == s.owner
  {
    match step {
      case Fire(k) => SettlingKeepsHeld(s, t, s.timers[k].id, Resolved, s.timers[k].due);
      case Cancel(id) => SettlingKeepsHeld(s, t, id, Rejected, s.now);
      case _ =>
    }
  }

  lemma {:induction false} SettlingKeepsHeld(s: State, t: State, id: Id, how: Settled, from: int)
    requires Held(s) && Settles(s, t, id, how, from)
    ensures Held(t) && t.owner == s.owner
    ensures forall p :: p in s.settled ==> p in t.settled && t.settled[p] == s.settled[p]
  {
  }

  lemma {:induction false} StepKeepsHeld(s: State, step: Step)
    requires Held(s) && Enabled(s, step)
    ensures Held(Next(s, step)) && Next(s, step).now >= s.now
    ensures forall p :: p in s.settled ==> p in Next(s, step).settled && Next(s, step).settled[p] == s.settled[p]
    ensures forall p :: p in s.owner ==> p in Next(s, step).owner && Next(s, step).owner[p] == s.owner[p]
    ensures !step.Schedule? ==> Next(s, step).owner == s.owner
  {
    PromiseEffect(s, step);
    MoveKeepsHeld(s, step, Next(s, step));
  }

  /** In every run, with crashes and with ids scheduled again, a promise settles at most once: what it has
      settled to never changes. */
  lemma {:induction false} SettlesAtMostOnce(s: State, steps: seq<Step>, p: nat)
    requires Held(s) && Valid(s, steps) && p in s.settled
    ensures p in Run(s, steps).settled && Run(s, steps).settled[p] == s.settled[p]
    decreases |steps|
  {
    if steps != [] {
      StepKeepsHeld(s, steps[0]);
      SettlesAtMostOnce(Next(s, steps[0]), steps[1..], p);
    }
  }

  // ----- each id scheduled once -------------------------------------------

  ghost predicate Scheduled(s: State, id: Id) { exists p :: p in s.owner && s.owner[p] == id }

  /** No id is scheduled twice, and every delay fits a timer. */
  ghost predicate OnceRun(s: State, steps: seq<Step>)
    requires Valid(s, steps)
    decreases |steps|
  {
    steps == []
    || ((steps[0].Schedule? ==> !Scheduled(s, steps[0].id) && steps[0].delay <= MAX_TIMER) && OnceRun(Next(s, steps[0]), steps[1..]))
  }

  /** At most one call ever for an id; an unwritten call has no record yet. */
  ghost predicate Unique(s: State) {
    && (forall p, q :: p in s.owner && q in s.owner && s.owner[p] == s.owner[q] ==> p == q)
    && (forall id :: id in s.disk ==> Scheduled(s, id))
    && (forall c :: c in s.calls && !s.calls[c].written ==> s.calls[c].id !in s.disk)
  }

  /** A timer whose record is pending is due no earlier than the record says, and every pending moment is
      within reach of a timer. */
  ghost predicate OnTime(s: State) {
    && (forall k :: k in s.timers && IsPending(s.disk, s.timers[k].id) ==> s.timers[k].due >= s.disk[s.timers[k].id].fireAt)
    && (forall id :: id in s.disk ==> s.disk[id].fireAt <= s.now + MAX_TIMER)
    && (forall c :: c in s.calls ==> s.calls[c].delay <= MAX_TIMER && s.calls[c].fireAt <= s.now + s.calls[c].delay)
    && (forall c :: c in s.calls && s.calls[c].written ==> s.calls[c].id in s.disk && s.disk[s.calls[c].id].fireAt == s.calls[c].fireAt)
    && (forall k :: k in s.timers ==> Scheduled(s, s.timers[k].id) && s.timers[k].id in s.disk)
    && (forall k :: k in s.timers ==> k < s.next)
  }

  ghost predicate OnceInv(s: State) { Held(s) && Unique(s) && OnTime(s) }

  lemma {:induction false} KeepsScheduled(s: State, t: State)
    requires forall p :: p in s.owner ==> p in t.owner && t.owner[p] == s.owner[p]
    ensures forall id :: Scheduled(s, id) ==> Scheduled(t, id)
  {
    forall id | Scheduled(s, id) ensures Scheduled(t, id) {
      var p :| p in s.owner && s.owner[p] == id;
      assert t.owner[p] == id;
    }
  }

  /** What a step does to the records. */
  ghost predicate DiskMoves(s: State, step: Step, t: State)
    requires Enabled(s, step)
  {
    match step
    case Write(c) => t.disk == s.disk[s.calls[c].id := Record(s.calls[c].fireAt, Pending)]
    case Fire(k) => Ends(s, t, s.timers[k].id, Fired)
    case Cancel(id) => Ends(s, t, id, Cancelled)
    case _ => t.disk == s.disk
  }

  ghost predicate Ends(s: State, t: State, id: Id, status: Status) {
    if IsPending(s.disk, id) then t.disk == s.disk[id := Record(s.disk[id].fireAt, status)] else t.disk == s.disk
  }

  lemma {:induction false} DiskEffect(s: State, step: Step)
    requires Enabled(s, step)
    ensures DiskMoves(s, step, Next(s, step))
  {
  }

  lemma {:induction false} MoveKeepsUnique(s: State, step: Step, t: State)
    requires Held(s) && Unique(s) && Enabled(s, step) && (step.Schedule? ==> !Scheduled(s, step.id))
    requires PromisesMove(s, step, t) && DiskMoves(s, step, t)
    ensures Unique(t)
  {
    MoveKeepsHeld(s, step, t);
    KeepsScheduled(s, t);
    if step.Write? { assert s.owner[step.c] == s.calls[step.c].id; }
  }

  lemma {:induction false} StepKeepsUnique(s: State, step: Step)
    requires Held(s) && Unique(s) && Enabled(s, step) && (step.Schedule? ==> !Scheduled(s, step.id))
    ensures Unique(Next(s, step))
  {
    PromiseEffect(s, step);
    DiskEffect(s, step);
    MoveKeepsUnique(s, step, Next(s, step));
  }

  /** Only a timer is added, for a record it is not early for. */
  lemma {:induction false} TimerKeepsOnTime(s: State, t: State, k: nat, id: Id, delay: int)
    requires OnTime(s) && Scheduled(s, id) && id in s.disk
    requires IsPending(s.disk, id) ==> s.now + TimerDelay(delay) >= s.disk[id].fireAt
    requires t.now == s.now && t.owner == s.owner && t.disk == s.disk && t.next == s.next + 1
    requires t.timers == s.timers[s.next := Timer(id, s.now + TimerDelay(delay))]
    requires forall c :: c in t.calls ==> c in s.calls && t.calls[c] == s.calls[c]
    ensures OnTime(t)
  {
    KeepsScheduled(s, t);
  }

  /** Same calls, clock and promise owners, a disk with the same moments and no new pending record, fewer timers. */
  ghost predicate Quieter(s: State, t: State) {
    && t.now >= s.now && t.owner == s.owner && t.next >= s.next
    && t.disk.Keys == s.disk.Keys
    && (forall id :: id in s.disk ==> t.disk[id].fireAt == s.disk[id].fireAt && (IsPending(t.disk, id) ==> IsPending(s.disk, id)))
    && (forall k :: k in t.timers ==> k in s.timers && t.timers[k] == s.timers[k])
    && (forall c :: c in t.calls ==> c in s.calls && t.calls[c] == s.calls[c])
  }

  lemma {:induction false} QuieterKeepsOnTime(s: State, t: State)
    requires OnTime(s) && Quieter(s, t)
    ensures OnTime(t)
  {
    forall i | Scheduled(s, i) ensures Scheduled(t, i) {
      var p :| p in s.owner && s.owner[p] == i;
      assert t.owner[p] == i;
    }
  }

  lemma {:induction false} ScheduleKeepsOnTime(s: State, id: Id, delay: int)
    requires OnTime(s) && Held(s) && delay <= MAX_TIMER
    ensures OnTime(DoSchedule(s, id, delay))
  {
    forall i | Scheduled(s, i) ensures Scheduled(DoSchedule(s, id, delay), i) {
      var p :| p in s.owner && s.owner[p] == i;
      assert DoSchedule(s, id, delay).owner[p] == i;
    }
  }

  lemma {:induction false} WriteKeepsOnTime(s: State, c: nat)
    requires OnceInv(s) && Enabled(s, Write(c))
    ensures OnTime(DoWrite(s, c))
  {
    var t := DoWrite(s, c);
    forall i | Scheduled(s, i) ensures Scheduled(t, i) {
      var p :| p in s.owner && s.owner[p] == i;
      assert t.owner[p] == i;
    }
    forall b | b in s.calls && b != c ensures s.calls[b].id != s.calls[c].id {
      assert s.owner[b] == s.calls[b].id && s.owner[c] == s.calls[c].id;
    }
  }

  lemma {:induction false} FireIsQuieter(s: State, k: nat)
    requires k in s.timers
    ensures Quieter(s, DoFire(s, k))
  {
    var t := DoFire(s, k);
    var id := s.timers[k].id;
    assert t.timers == s.timers - {k};
    FinishedRecord(s.disk, t.disk, id, Fired);
  }

  lemma {:induction false} FinishedRecord(before: map<Id, Record>, after: map<Id, Record>, id: Id, status: Status)
    requires status != Pending
    requires after == if IsPending(before, id) then before[id := Record(before[id].fireAt, status)] else before
    ensures after.Keys == before.Keys
    ensures forall i :: i in before ==> after[i].fireAt == before[i].fireAt && (IsPending(after, i) ==> IsPending(before, i))
  {
  }

  lemma {:induction false} CancelIsQuieter(s: State, id: Id)
    ensures Quieter(s, DoCancel(s, id))
  {
  }

  lemma {:induction false} ArmKeepsOnTime(s: State, c: nat)
    requires OnceInv(s) && Enabled(s, Arm(c))
    ensures OnTime(DoArm(s, c))
  {
    assert s.owner[c] == s.calls[c].id;
    TimerKeepsOnTime(s, DoArm(s, c), s.next, s.calls[c].id, s.calls[c].delay);
  }

  lemma {:induction false} LoadKeepsOnTime(s: State, id: Id)
    requires OnceInv(s)
    ensures OnTime(DoLoad(s, id))
  {
    if IsPending(s.disk, id) && s.disk[id].fireAt > s.now {
      TimerKeepsOnTime(s, DoLoad(s, id), s.next, id, s.disk[id].fireAt - s.now);
    } else {
      QuieterKeepsOnTime(s, DoLoad(s, id));
    }
  }

  lemma {:induction false} StepKeepsOnTime(s: State, step: Step)
    requires OnceInv(s) && Enabled(s, step) && (step.Schedule? ==> step.delay <= MAX_TIMER)
    ensures OnTime(Next(s, step))
  {
    match step {
      case Schedule(id, delay) => ScheduleKeepsOnTime(s, id, delay);
      case Write(c) => WriteKeepsOnTime(s, c);
      case Arm(c) => ArmKeepsOnTime(s, c);
      case Load(id) => LoadKeepsOnTime(s, id);
      case Fire(k) =>
        FireIsQuieter(s, k);
        QuieterKeepsOnTime(s, DoFire(s, k));
      case Cancel(id) =>
        CancelIsQuieter(s, id);
        QuieterKeepsOnTime(s, DoCancel(s, id));
      case Tick(_) => QuieterKeepsOnTime(s, Next(s, step));
      case WriteFails(_) => QuieterKeepsOnTime(s, Next(s, step));
      case Crash => QuieterKeepsOnTime(s, Next(s, step));
      case List => QuieterKeepsOnTime(s, Next(s, step));
    }
  }

  lemma {:induction false} StepKeepsOnceInv(s: State, step: Step)
    requires OnceInv(s) && Enabled(s, step)
    requires step.Schedule? ==> !Scheduled(s, step.id) && step.delay <= MAX_TIMER
    ensures OnceInv(Next(s, step))
  {
    StepKeepsHeld(s, step);
    StepKeepsUnique(s, step);
    StepKeepsOnTime(s, step);
  }

  /** What a step may do to a record: nothing, or end its pending state; and it fires no record early. */
  predicate Obeys(s: State, t: State, id: Id)
    requires id in s.disk
  {
    && id in t.disk && t.disk[id].fireAt == s.disk[id].fireAt
    && (t.disk[id].status == s.disk[id].status
        || (s.disk[id].status.Pending? && t.disk[id].status.Cancelled?)
        || (s.disk[id].status.Pending? && t.disk[id].status.Fired? && s.disk[id].fireAt <= s.now))
  }

  lemma {:induction false} StepObeys(s: State, step: Step, id: Id)
    requires OnceInv(s) && Enabled(s, step) && id in s.disk
    ensures Obeys(s, Next(s, step), id)
  {
    DiskEffect(s, step);
    DiskMoveObeys(s, step, Next(s, step), id);
  }

  lemma {:induction false} DiskMoveObeys(s: State, step: Step, t: State, id: Id)
    requires OnceInv(s) && Enabled(s, step) && id in s.disk && DiskMoves(s, step, t)
    ensures Obeys(s, t, id)
  {
  }

  /** In every run that schedules each id once: `cancelled` and `fired` are final on disk, the persisted
      moment never changes, and no record becomes `fired` before its moment. */
  lemma {:induction false} TerminalStatesAbsorb(s: State, steps: seq<Step>, id: Id)
    requires OnceInv(s) && Valid(s, steps) && OnceRun(s, steps) && id in s.disk
    ensures var t := Run(s, steps);
            && id in t.disk && t.disk[id].fireAt == s.disk[id].fireAt
            && (!s.disk[id].status.Pending? ==> t.disk[id].status == s.disk[id].status)
            && (s.disk[id].status.Pending? && t.disk[id].status.Fired? ==> t.disk[id].fireAt <= t.now)
    decreases |steps|
  {
    if steps != [] {
      var u := Next(s, steps[0]);
      StepObeys(s, steps[0], id);
      StepKeepsOnceInv(s, steps[0]);
      TerminalStatesAbsorb(u, steps[1..], id);
      ClockAdvances(u, steps[1..]);
      PromiseEffect(s, steps[0]);
    }
  }

  lemma {:induction false} ClockAdvances(s: State, steps: seq<Step>)
    requires Valid(s, steps)
    ensures Run(s, steps).now >= s.now
    decreases |steps|
  {
    if steps != [] {
      PromiseEffect(s, steps[0]);
      ClockAdvances(Next(s, steps[0]), steps[1..]);
    }
  }

  // ----- nothing is forgotten ---------------------------------------------

  /** `liveTimers` and the runtime agree on whose timer is whose. */
  ghost predicate LiveOk(s: State) {
    && (forall k :: k in s.timers ==> k < s.next)
    && (forall id :: id in s.live ==> s.live[id] < s.next)
    && (forall id :: id in s.live && s.live[id] in s.timers ==> s.timers[s.live[id]].id == id)
  }

  lemma {:induction false} StepKeepsLiveOk(s: State, step: Step)
    requires LiveOk(s) && Enabled(s, step)
    ensures LiveOk(Next(s, step))
  {
    match step {
      case Cancel(id) => CancelKeepsLiveOk(s, id);
      case Fire(k) => FireKeepsLiveOk(s, k);
      case Arm(c) => ArmKeepsLiveOk(s, c);
      case Load(id) => LoadKeepsLiveOk(s, id);
      case _ =>
    }
  }

  lemma {:induction false} CancelKeepsLiveOk(s: State, id: Id)
    requires LiveOk(s)
    ensures LiveOk(DoCancel(s, id))
  {
  }

  lemma {:induction false} FireKeepsLiveOk(s: State, k: nat)
    requires LiveOk(s) && k in s.timers
    ensures LiveOk(DoFire(s, k))
  {
  }

  lemma {:induction false} ArmKeepsLiveOk(s: State, c: nat)
    requires LiveOk(s) && c in s.calls
    ensures LiveOk(DoArm(s, c))
  {
  }

  lemma {:induction false} LoadKeepsLiveOk(s: State, id: Id)
    requires LiveOk(s)
    ensures LiveOk(DoLoad(s, id))
  {
  }

  ghost predicate HasTimer(s: State, id: Id, moment: int, exact: bool) {
    exists k :: k in s.timers && s.timers[k].id == id && s.timers[k].due >= moment && (exact ==> s.timers[k].due == moment)
  }

  ghost predicate BeingArmed(s: State, id: Id) { exists c :: c in s.calls && s.calls[c].id == id && s.calls[c].written }

  /** Someone will see to a pending record: it is still to be loaded, it has been returned as past due (and it
      is), its schedule call is about to set its timer, or it has a timer for its moment. */
  ghost predicate Watched(s: State, id: Id, exact: bool) {
    IsPending(s.disk, id) ==>
      || id in s.toLoad
      || (id in s.pastDue && s.disk[id].fireAt <= s.now)
      || (!exact && BeingArmed(s, id))
      || HasTimer(s, id, s.disk[id].fireAt, exact)
  }

  /** Nothing about `id` is taken away. */
  lemma {:induction false} MoreKeepsWatched(s: State, t: State, id: Id, exact: bool)
    requires Watched(s, id, exact) && t.now >= s.now
    requires IsPending(t.disk, id) ==> IsPending(s.disk, id) && t.disk[id] == s.disk[id]
    requires IsPending(t.disk, id) && id in s.toLoad ==> id in t.toLoad
    requires id in s.pastDue ==> id in t.pastDue
    requires IsPending(t.disk, id) ==> forall k :: k in s.timers && s.timers[k].id == id ==> k in t.timers && t.timers[k] == s.timers[k]
    requires forall c :: c in s.calls && s.calls[c].id == id && s.calls[c].written ==> c in t.calls && t.calls[c] == s.calls[c]
    ensures Watched(t, id, exact)
  {
    if IsPending(t.disk, id) && BeingArmed(s, id) {
      var c :| c in s.calls && s.calls[c].id == id && s.calls[c].written;
      assert c in t.calls && t.calls[c] == s.calls[c];
    }
    if IsPending(t.disk, id) && HasTimer(s, id, s.disk[id].fireAt, exact) {
      var k :| k in s.timers && s.timers[k].id == id && s.timers[k].due >= s.disk[id].fireAt && (exact ==> s.timers[k].due == s.disk[id].fireAt);
      assert k in t.timers && t.timers[k] == s.timers[k];
    }
  }

  lemma {:induction false} FireKeepsWatched(s: State, k: nat, id: Id, exact: bool)
    requires Enabled(s, Fire(k)) && Watched(s, id, exact)
    ensures Watched(DoFire(s, k), id, exact)
  {
    MoreKeepsWatched(s, DoFire(s, k), id, exact);
  }

  lemma {:induction false} CancelKeepsWatched(s: State, other: Id, id: Id, exact: bool)
    requires LiveOk(s) && Watched(s, id, exact)
    ensures Watched(DoCancel(s, other), id, exact)
  {
    MoreKeepsWatched(s, DoCancel(s, other), id, exact);
  }

  lemma {:induction false} ArmKeepsWatched(s: State, c: nat, id: Id, exact: bool)
    requires OnceInv(s) && Enabled(s, Arm(c)) && LiveOk(s) && Watched(s, id, exact)
    ensures Watched(DoArm(s, c), id, exact)
  {
    var t := DoArm(s, c);
    if s.calls[c].id == id {
      assert t.timers[s.next].id == id && t.timers[s.next].due >= s.disk[id].fireAt;
      if !(!exact && BeingArmed(s, id)) && HasTimer(s, id, s.disk[id].fireAt, exact) {
        var k :| k in s.timers && s.timers[k].id == id && s.timers[k].due >= s.disk[id].fireAt && (exact ==> s.timers[k].due == s.disk[id].fireAt);
        assert t.timers[k] == s.timers[k];
      }
    } else {
      MoreKeepsWatched(s, t, id, exact);
    }
  }

  lemma {:induction false} LoadKeepsWatched(s: State, other: Id, id: Id, exact: bool)
    requires OnTime(s) && LiveOk(s) && Watched(s, id, exact)
    ensures Watched(DoLoad(s, other), id, exact)
  {
    if other == id && IsPending(s.disk, id) {
      LoadWatches(s, id, exact);
    } else {
      MoreKeepsWatched(s, DoLoad(s, other), id, exact);
    }
  }

  lemma {:induction false} LoadWatches(s: State, id: Id, exact: bool)
    requires OnTime(s) && LiveOk(s) && IsPending(s.disk, id)
    ensures Watched(DoLoad(s, id), id, exact)
  {
    if s.disk[id].fireAt > s.now { assert DoLoad(s, id).timers[s.next] == Timer(id, s.disk[id].fireAt); }
  }

  lemma {:induction false} WriteKeepsWatched(s: State, c: nat, id: Id, exact: bool)
    requires OnceInv(s) && Enabled(s, Write(c)) && id in s.disk && Watched(s, id, exact)
    ensures Watched(DoWrite(s, c), id, exact)
  {
    MoreKeepsWatched(s, DoWrite(s, c), id, exact);
  }

  /** A record that is on disk stays watched until the process crashes. */
  lemma {:induction false} StepKeepsWatched(s: State, step: Step, id: Id, exact: bool)
    requires OnceInv(s) && LiveOk(s) && Enabled(s, step) && step != Crash && id in s.disk && Watched(s, id, exact)
    ensures Watched(Next(s, step), id, exact)
  {
    match step {
      case Fire(k) => FireKeepsWatched(s, k, id, exact);
      case Cancel(other) => CancelKeepsWatched(s, other, id, exact);
      case Arm(c) => ArmKeepsWatched(s, c, id, exact);
      case Load(other) => LoadKeepsWatched(s, other, id, exact);
      case Write(c) => WriteKeepsWatched(s, c, id, exact);
      case _ => QuietStepKeepsWatched(s, step, id, exact);
    }
  }

  lemma {:induction false} QuietStepKeepsWatched(s: State, step: Step, id: Id, exact: bool)
    requires Enabled(s, step) && id in s.disk && Watched(s, id, exact)
    requires step.Tick? || step.Schedule? || step.WriteFails? || step.List?
    requires step.Schedule? ==> s.next !in s.calls
    ensures Watched(Next(s, step), id, exact)
  {
    MoreKeepsWatched(s, Next(s, step), id, exact);
  }

  predicate NoCrash(steps: seq<Step>) { Crash !in steps }

  lemma {:induction false} StaysWatched(s: State, steps: seq<Step>, id: Id, exact: bool)
    requires OnceInv(s) && LiveOk(s) && Valid(s, steps) && OnceRun(s, steps) && NoCrash(steps)
    requires id in s.disk && Watched(s, id, exact)
    ensures Watched(Run(s, steps), id, exact)
    decreases |steps|
  {
    if steps != [] {
      StepKeepsWatched(s, steps[0], id, exact);
      StepObeys(s, steps[0], id);
      StepKeepsOnceInv(s, steps[0]);
      StepKeepsLiveOk(s, steps[0]);
      StaysWatched(Next(s, steps[0]), steps[1..], id, exact);
    }
  }

  /** After a reload: once a record's file has been loaded it is, as long as it is pending, among those
      returned as past due or on a timer for exactly its original moment. */
  lemma {:induction false} ReloadRestoresAll(s: State, steps: seq<Step>, id: Id)
    requires OnceInv(s) && LiveOk(s) && !s.listed && id in s.disk && NoCrash(steps)
    requires Valid(Next(s, List), steps) && OnceRun(Next(s, List), steps)
    ensures var t := Run(Next(s, List), steps);
            IsPending(t.disk, id) && id !in t.toLoad ==>
              (id in t.pastDue && t.disk[id].fireAt <= t.now) || HasTimer(t, id, t.disk[id].fireAt, true)
  {
    StepKeepsOnceInv(s, List);
    StepKeepsLiveOk(s, List);
    StaysWatched(Next(s, List), steps, id, true);
  }

  /** Without a crash: from the moment its record is written a pending action has its schedule call still
      under way or a timer for its moment or later. */
  lemma {:induction false} WrittenIsWatched(s: State, c: nat, steps: seq<Step>)
    requires OnceInv(s) && LiveOk(s) && Enabled(s, Write(c)) && NoCrash(steps)
    requires Valid(Next(s, Write(c)), steps) && OnceRun(Next(s, Write(c)), steps)
    ensures Watched(Run(Next(s, Write(c)), steps), s.calls[c].id, false)
  {
    StepKeepsOnceInv(s, Write(c));
    StepKeepsLiveOk(s, Write(c));
    var t := Next(s, Write(c));
    assert t.calls[c].written;
    StaysWatched(t, steps, s.calls[c].id, false);
  }

  // ----- one id, scheduled any number of times ----------------------------

  /** Nothing was ever scheduled under `id`. */
  ghost predicate Untouched(s: State, id: Id) {
    && id !in s.disk
    && (forall k :: k in s.timers ==> s.timers[k].id != id)
    && (forall c :: c in s.calls ==> s.calls[c].id != id)
    && (forall p :: p in s.owner ==> s.owner[p] != id)
  }

  /** Whatever was scheduled under `id` happens at `from` or later, and a promise made for `id` that has
      resolved has done so then. */
  ghost predicate NotBefore(s: State, id: Id, from: int) {
    && (IsPending(s.disk, id) ==> from <= s.disk[id].fireAt <= s.now + MAX_TIMER)
    && (forall k :: k in s.timers && s.timers[k].id == id ==> s.timers[k].due >= from)
    && (forall c :: c in s.calls && s.calls[c].id == id ==>
          from <= s.calls[c].fireAt <= s.now + s.calls[c].delay && s.calls[c].delay <= MAX_TIMER)
    && (forall p :: p in s.settled && p in s.owner && s.owner[p] == id && s.settled[p].Resolved? ==> s.now >= from)
  }

  /** The timers of `id` after a step: old ones, or one that is due at `from` or later. */
  ghost predicate TimersFrom(s: State, t: State, id: Id, from: int) {
    forall k :: k in t.timers && t.timers[k].id == id ==> (k in s.timers && t.timers[k] == s.timers[k]) || t.timers[k].due >= from
  }

  lemma {:induction false} StepTimers(s: State, step: Step, id: Id, from: int)
    requires Held(s) && Enabled(s, step) && NotBefore(s, id, from)
    ensures TimersFrom(s, Next(s, step), id, from)
  {
    match step {
      case Arm(c) => ArmTimers(s, c, id, from);
      case Load(other) => LoadTimers(s, other, id, from);
      case Fire(k) => FireTimers(s, k, id, from);
      case Cancel(other) => CancelTimers(s, other, id, from);
      case _ =>
    }
  }

  lemma {:induction false} ArmTimers(s: State, c: nat, id: Id, from: int)
    requires c in s.calls && NotBefore(s, id, from)
    ensures TimersFrom(s, DoArm(s, c), id, from)
  {
  }

  lemma {:induction false} LoadTimers(s: State, other: Id, id: Id, from: int)
    requires NotBefore(s, id, from)
    ensures TimersFrom(s, DoLoad(s, other), id, from)
  {
  }

  lemma {:induction false} FireTimers(s: State, k: nat, id: Id, from: int)
    requires k in s.timers
    ensures TimersFrom(s, DoFire(s, k), id, from)
  {
  }

  lemma {:induction false} CancelTimers(s: State, other: Id, id: Id, from: int)
    ensures TimersFrom(s, DoCancel(s, other), id, from)
  {
  }

  lemma {:induction false} MoveKeepsNotBefore(s: State, step: Step, t: State, id: Id, from: int)
    requires Held(s) && Enabled(s, step) && NotBefore(s, id, from)
    requires step.Schedule? && step.id == id ==> s.now + step.delay >= from && step.delay <= MAX_TIMER
    requires PromisesMove(s, step, t) && DiskMoves(s, step, t) && TimersFrom(s, t, id, from) && t.now >= s.now
    ensures NotBefore(t, id, from)
  {
  }

  /** Scheduling `id` again, crashing and reloading never bring its moment forward. */
  lemma {:induction false} StepKeepsNotBefore(s: State, step: Step, id: Id, from: int)
    requires Held(s) && Enabled(s, step) && NotBefore(s, id, from)
    requires step.Schedule? && step.id == id ==> s.now + step.delay >= from && step.delay <= MAX_TIMER
    ensures NotBefore(Next(s, step), id, from)
  {
    StepTimers(s, step, id, from);
    PromiseEffect(s, step);
    DiskEffect(s, step);
    MoveKeepsNotBefore(s, step, Next(s, step), id, from);
  }

  lemma {:induction false} ScheduleKeepsNotBefore(s: State, id: Id, delay: int, from: int)
    requires Held(s) && NotBefore(s, id, from) && s.now + delay >= from && delay <= MAX_TIMER
    ensures Held(DoSchedule(s, id, delay)) && NotBefore(DoSchedule(s, id, delay), id, from)
  {
    StepKeepsHeld(s, Schedule(id, delay));
    StepKeepsNotBefore(s, Schedule(id, delay), id, from);
  }

  lemma {:induction false} UntouchedIsNotBefore(s: State, id: Id, from: int)
    requires Held(s) && Untouched(s, id)
    ensures NotBefore(s, id, from)
  {
  }

  lemma {:induction false} StepKeepsUntouched(s: State, step: Step, id: Id)
    requires Held(s) && Enabled(s, step) && Untouched(s, id) && !(step.Schedule? && step.id == id)
    ensures Untouched(Next(s, step), id)
  {
    PromiseEffect(s, step);
    DiskEffect(s, step);
    TimerIds(s, step, id);
  }

  lemma {:induction false} TimerIds(s: State, step: Step, id: Id)
    requires Enabled(s, step) && Untouched(s, id)
    ensures forall k :: k in Next(s, step).timers ==> Next(s, step).timers[k].id != id
  {
    match step {
      case Load(other) => assert IsPending(s.disk, other) ==> other != id;
      case _ =>
    }
  }

  /** A delay of 2^31 milliseconds or more is not honoured: the record can be fired one millisecond later. */
  lemma LongDelayFiresEarly(id: Id, delay: int)
    requires delay > MAX_TIMER
    ensures var steps := [Schedule(id, delay), Write(0), Arm(0), Tick(1), Fire(1)];
            && Valid(EMPTY, steps)
            && var t := Run(EMPTY, steps);
               IsFired(t.disk, id) && t.now == 1 && t.disk[id].fireAt == delay && t.settled == map[0 := Resolved]
  {
    var a := Next(EMPTY, Schedule(id, delay));
    var b := Next(a, Write(0));
    var c := Next(b, Arm(0));
    var d := Next(c, Tick(1));
    assert d.timers == map[1 := Timer(id, 1)] && d.waiting == map[id := 0];
    var e := Next(d, Fire(1));
    assert e.settled == map[0 := Resolved];
    assert Run(d, [Fire(1)]) == e;
    assert Run(c, [Tick(1), Fire(1)]) == e;
    assert Run(b, [Arm(0), Tick(1), Fire(1)]) == e;
    assert Run(a, [Write(0), Arm(0), Tick(1), Fire(1)]) == e;
    var rest := [Write(0), Arm(0), Tick(1), Fire(1)];
    assert ([Schedule(id, delay)] + rest)[1..] == rest;
  }

  predicate IsFired(disk: map<Id, Record>, id: Id) { id in disk && disk[id].status.Fired? }

  // ----- when a timer is due ----------------------------------------------

  /** The moment is fixed when the call is made, and written with the record. */
  lemma ScheduledMoment(s: State, id: Id, delay: int)
    ensures var t := Next(s, Schedule(id, delay));
            && s.next in t.calls && t.calls[s.next].id == id && t.disk == s.disk && t.timers == s.timers
            && Next(t, Write(s.next)).disk == s.disk[id := Record(s.now + delay, Pending)]
  {
  }

  /** The timer is made when the record is written, and runs for exactly the delay from then; one that does not fit
      31 bits runs for a millisecond. Nothing else in the timers changes. */
  lemma ArmedTimer(s: State, c: nat)
    requires Enabled(s, Arm(c))
    ensures var t, delay := Next(s, Arm(c)), s.calls[c].delay;
            && t.timers == s.timers[s.next := Timer(s.calls[c].id, s.now + (if 1 <= delay <= 0x7fff_ffff then delay else 1))]
            && t.live == s.live[s.calls[c].id := s.next] && t.disk == s.disk && t.now == s.now
  {
  }

  /** Cancelling a pending action removes its live timer and no other, marks the record, and leaves its moment. */
  lemma CancelledTimer(s: State, id: Id)
    requires id in s.disk
    ensures var t := Next(s, Cancel(id));
            if s.disk[id].status.Pending? then
              && t.disk == s.disk[id := Record(s.disk[id].fireAt, Cancelled)] && id !in t.live
              && t.timers == (if id in s.live then s.timers - {s.live[id]} else s.timers)
            else t == s
  {
  }

  // ----- when a delay is honoured ------------------------------------------

  /** The process lives on and nothing is scheduled under `id`. */
  predicate Undisturbed(steps: seq<Step>, id: Id) {
    forall i :: 0 <= i < |steps| ==> steps[i] != Crash && !(steps[i].Schedule? && steps[i].id == id)
  }

  predicate InTime(s: State, c: nat, from: int) { c in s.settled && s.settled[c].Resolved? ==> s.now >= from }

  /** However the process goes on from a call made now, its promise does not resolve before the delay is over. */
  ghost predicate Honoured(s: State, id: Id, delay: int) {
    var t := DoSchedule(s, id, delay);
    forall steps: seq<Step> :: Valid(t, steps) && Undisturbed(steps, id) ==> InTime(Run(t, steps), s.next, s.now + delay)
  }

  /** Loading at start-up is over, and no other call for `id` is under way. */
  predicate Loaded(s: State, id: Id) {
    s.listed && s.toLoad == {} && forall c :: c in s.calls ==> s.calls[c].id != id
  }

  predicate NoTimerBefore(s: State, id: Id, from: int) {
    forall k :: k in s.timers && s.timers[k].id == id ==> s.timers[k].due >= from
  }

  /** Call `c` is the only one for `id`, and no timer of `id` is due before `from`. */
  ghost predicate Alone(s: State, id: Id, c: nat, delay: int, from: int) {
    && Held(s) && s.listed && s.toLoad == {} && from <= s.now + delay
    && (forall b :: b in s.calls && s.calls[b].id == id ==> s.calls[b].delay == delay)
    && NoTimerBefore(s, id, from)
    && c in s.owner && s.owner[c] == id && InTime(s, c, from)
  }

  lemma {:induction false} FireKeepsAlone(s: State, k: nat, id: Id, c: nat, delay: int, from: int)
    requires Alone(s, id, c, delay, from) && Enabled(s, Fire(k))
    ensures InTime(DoFire(s, k), c, from) && NoTimerBefore(DoFire(s, k), id, from)
  {
  }

  lemma {:induction false} ArmKeepsAlone(s: State, b: nat, id: Id, c: nat, delay: int, from: int)
    requires 1 <= delay <= MAX_TIMER && Alone(s, id, c, delay, from) && Enabled(s, Arm(b))
    ensures NoTimerBefore(DoArm(s, b), id, from)
  {
  }

  lemma {:induction false} StepKeepsAlone(s: State, step: Step, id: Id, c: nat, delay: int, from: int)
    requires 1 <= delay <= MAX_TIMER && Alone(s, id, c, delay, from)
    requires Enabled(s, step) && step != Crash && !(step.Schedule? && step.id == id)
    ensures Alone(Next(s, step), id, c, delay, from)
  {
    PromiseEffect(s, step);
    MoveKeepsHeld(s, step, Next(s, step));
    match step {
      case Fire(k) => FireKeepsAlone(s, k, id, c, delay, from);
      case Arm(b) => ArmKeepsAlone(s, b, id, c, delay, from);
      case _ =>
    }
  }

  lemma {:induction false} RunKeepsAlone(s: State, steps: seq<Step>, id: Id, c: nat, delay: int, from: int)
    requires 1 <= delay <= MAX_TIMER && Alone(s, id, c, delay, from) && Valid(s, steps) && Undisturbed(steps, id)
    ensures InTime(Run(s, steps), c, from)
    decreases |steps|
  {
    if steps != [] {
      StepKeepsAlone(s, steps[0], id, c, delay, from);
      RunKeepsAlone(Next(s, steps[0]), steps[1..], id, c, delay, from);
    }
  }

  /** The call's record is written and its timer set, then time passes and timer `k` goes off. */
  lemma {:induction false} FiresAt(s: State, id: Id, delay: int, k: nat, ms: nat) returns (steps: seq<Step>)
    requires k == s.next + 1 || (k < s.next && k in s.timers && s.timers[k].id == id)
    requires (if k == s.next + 1 then s.now + TimerDelay(delay) else s.timers[k].due) <= s.now + ms
    ensures Valid(DoSchedule(s, id, delay), steps) && Undisturbed(steps, id)
    ensures var t := Run(DoSchedule(s, id, delay), steps);
            t.now == s.now + ms && s.next in t.settled && t.settled[s.next].Resolved?
  {
    var c := s.next;
    var t0 := DoSchedule(s, id, delay);
    var t1 := Next(t0, Write(c));
    var t2 := Next(t1, Arm(c));
    var t3 := Next(t2, Tick(ms));
    assert k in t3.timers && t3.timers[k].id == id && t3.waiting[id] == c && IsPending(t3.disk, id);
    var t4 := Next(t3, Fire(k));
    steps := [Write(c), Arm(c), Tick(ms), Fire(k)];
    RunFour(t0, Write(c), Arm(c), Tick(ms), Fire(k));
  }

  lemma {:induction false} RunFour(s: State, a: Step, b: Step, c: Step, d: Step)
    requires Enabled(s, a) && Enabled(Next(s, a), b) && Enabled(Next(Next(s, a), b), c)
    requires Enabled(Next(Next(Next(s, a), b), c), d)
    ensures Valid(s, [a, b, c, d]) && Run(s, [a, b, c, d]) == Next(Next(Next(Next(s, a), b), c), d)
  {
    var s1 := Next(s, a);
    var s2 := Next(s1, b);
    RunCons(Next(s2, c), d, []);
    RunCons(s2, c, [d] + []);
    RunCons(s1, b, [c] + ([d] + []));
    RunCons(s, a, [b] + ([c] + ([d] + [])));
    assert [a, b, c, d] == [a] + ([b] + ([c] + ([d] + [])));
  }

  lemma RunCons(s: State, step: Step, rest: seq<Step>)
    requires Enabled(s, step) && Valid(Next(s, step), rest)
    ensures Valid(s, [step] + rest) && Run(s, [step] + rest) == Run(Next(s, step), rest)
  {
    assert ([step] + rest)[1..] == rest;
  }

  /** A delay is honoured exactly when it fits a timer and no earlier timer for the same id is still running;
      a delay that is not positive always is. */
  lemma {:induction false} HonouredIff(s: State, id: Id, delay: int)
    requires Held(s) && LiveOk(s) && Loaded(s, id)
    ensures Honoured(s, id, delay) <==> delay <= 0 || (delay <= MAX_TIMER && NoTimerBefore(s, id, s.now + delay))
  {
    if delay <= 0 || (delay <= MAX_TIMER && NoTimerBefore(s, id, s.now + delay)) {
      AloneIsHonoured(s, id, delay);
    } else {
      EarlyTimerIsNot(s, id, delay);
    }
  }

  lemma {:induction false} AloneIsHonoured(s: State, id: Id, delay: int)
    requires Held(s) && Loaded(s, id) && (delay <= 0 || (delay <= MAX_TIMER && NoTimerBefore(s, id, s.now + delay)))
    ensures Honoured(s, id, delay)
  {
    var t := DoSchedule(s, id, delay);
    StepKeepsHeld(s, Schedule(id, delay));
    forall steps: seq<Step> | Valid(t, steps) && Undisturbed(steps, id) ensures InTime(Run(t, steps), s.next, s.now + delay) {
      if delay <= 0 { ClockAdvances(t, steps); } else { RunKeepsAlone(t, steps, id, s.next, delay, s.now + delay); }
    }
  }

  lemma {:induction false} EarlyTimerIsNot(s: State, id: Id, delay: int)
    requires LiveOk(s) && delay > 0 && (delay > MAX_TIMER || !NoTimerBefore(s, id, s.now + delay))
    ensures !Honoured(s, id, delay)
  {
    var steps: seq<Step>;
    if delay > MAX_TIMER {
      steps := FiresAt(s, id, delay, s.next + 1, 1);
    } else {
      var k :| k in s.timers && s.timers[k].id == id && s.timers[k].due < s.now + delay;
      steps := FiresAt(s, id, delay, k, if s.timers[k].due > s.now then s.timers[k].due - s.now else 0);
    }
    assert !InTime(Run(DoSchedule(s, id, delay), steps), s.next, s.now + delay);
  }

  // ----- when a cancellation reaches the caller ----------------------------

  /** No promise has settled whose record is pending. */
  ghost predicate PendingUnsettled(s: State) {
    forall p :: p in s.settled && p in s.owner ==> !IsPending(s.disk, s.owner[p])
  }

  lemma {:induction false} MoveKeepsPendingUnsettled(s: State, step: Step, t: State)
    requires OnceInv(s) && PendingUnsettled(s) && Enabled(s, step) && (step.Schedule? ==> !Scheduled(s, step.id))
    requires PromisesMove(s, step, t) && DiskMoves(s, step, t) && SettlesWithRecord(s, step, t)
    ensures PendingUnsettled(t)
  {
    if step.Schedule? { assert s.next !in s.settled; }
    if step.Write? { WritesUnsettled(s, step.c); }
  }

  /** The promise of a call under way has not settled, and its id has no other. */
  lemma {:induction false} WritesUnsettled(s: State, c: nat)
    requires OnceInv(s) && c in s.calls
    ensures forall p :: p in s.settled && p in s.owner ==> s.owner[p] != s.calls[c].id
  {
    assert s.owner[c] == s.calls[c].id;
  }

  /** A timer or a cancellation settles a promise only together with the record. */
  ghost predicate SettlesWithRecord(s: State, step: Step, t: State)
    requires Enabled(s, step)
  {
    match step
    case Fire(k) => t.settled != s.settled ==> IsPending(s.disk, s.timers[k].id) && !IsPending(t.disk, s.timers[k].id)
    case Cancel(id) => t.settled != s.settled ==> IsPending(s.disk, id) && !IsPending(t.disk, id)
    case _ => true
  }

  lemma {:induction false} SettlingEffect(s: State, step: Step)
    requires Enabled(s, step)
    ensures SettlesWithRecord(s, step, Next(s, step))
  {
  }

  lemma {:induction false} StepKeepsPendingUnsettled(s: State, step: Step)
    requires OnceInv(s) && PendingUnsettled(s) && Enabled(s, step) && (step.Schedule? ==> !Scheduled(s, step.id))
    ensures PendingUnsettled(Next(s, step))
  {
    PromiseEffect(s, step);
    DiskEffect(s, step);
    SettlingEffect(s, step);
    MoveKeepsPendingUnsettled(s, step, Next(s, step));
  }

  lemma {:induction false} RunKeepsPendingUnsettled(s: State, steps: seq<Step>)
    requires OnceInv(s) && PendingUnsettled(s) && Valid(s, steps) && OnceRun(s, steps)
    ensures OnceInv(Run(s, steps)) && PendingUnsettled(Run(s, steps))
    decreases |steps|
  {
    if steps != [] {
      StepKeepsPendingUnsettled(s, steps[0]);
      StepKeepsOnceInv(s, steps[0]);
      RunKeepsPendingUnsettled(Next(s, steps[0]), steps[1..]);
    }
  }

  /** Cancelling a pending action settles its caller's promise exactly when the caller's resolver is
      registered: in every state that scheduling each id once can reach. */
  lemma {:induction false} CancelSettlesIff(steps: seq<Step>, id: Id, p: nat)
    requires Valid(EMPTY, steps) && OnceRun(EMPTY, steps)
    requires var s := Run(EMPTY, steps); IsPending(s.disk, id) && p in s.owner && s.owner[p] == id
    ensures var s := Run(EMPTY, steps);
            p in Next(s, Cancel(id)).settled <==> id in s.waiting
  {
    RunKeepsPendingUnsettled(EMPTY, steps);
    CancelSettlesWaiting(Run(EMPTY, steps), id, p);
  }

  lemma {:induction false} CancelSettlesWaiting(s: State, id: Id, p: nat)
    requires OnceInv(s) && PendingUnsettled(s) && IsPending(s.disk, id) && p in s.owner && s.owner[p] == id
    ensures p in Next(s, Cancel(id)).settled <==> id in s.waiting
    ensures id in s.waiting ==> Next(s, Cancel(id)).settled[p] == Rejected
  {
    if id in s.waiting { assert s.waiting[id] == p; }
  }

  /** The promise of an action that is no longer pending, when the promise has not settled: its call is not
      about to fail. */
  ghost predicate Hung(s: State, id: Id, p: nat) {
    && id in s.disk && !IsPending(s.disk, id) && p in s.owner && s.owner[p] == id && p !in s.settled
    && (p in s.calls ==> s.calls[p].written)
  }

  lemma {:induction false} MoveKeepsHung(s: State, step: Step, t: State, id: Id, p: nat)
    requires OnceInv(s) && Enabled(s, step) && Hung(s, id, p)
    requires PromisesMove(s, step, t) && DiskMoves(s, step, t) && SettlesWithRecord(s, step, t)
    ensures Hung(t, id, p)
  {
    MoveKeepsHeld(s, step, t);
  }

  lemma {:induction false} StaysHung(s: State, steps: seq<Step>, id: Id, p: nat)
    requires OnceInv(s) && Valid(s, steps) && OnceRun(s, steps) && Hung(s, id, p)
    ensures p !in Run(s, steps).settled
    decreases |steps|
  {
    if steps != [] {
      var step := steps[0];
      PromiseEffect(s, step);
      DiskEffect(s, step);
      SettlingEffect(s, step);
      MoveKeepsHung(s, step, Next(s, step), id, p);
      StepKeepsOnceInv(s, step);
      StaysHung(Next(s, step), steps[1..], id, p);
    }
  }

  /** A cancellation that finds the record written and the resolver not yet registered: whatever follows, with
      crashes, reloads and timers, the caller's promise never settles. */
  lemma {:induction false} CancelBeforeArmNeverSettles(s: State, c: nat, steps: seq<Step>)
    requires OnceInv(s) && PendingUnsettled(s) && c in s.calls && s.calls[c].written && IsPending(s.disk, s.calls[c].id)
    requires Valid(Next(s, Cancel(s.calls[c].id)), steps) && OnceRun(Next(s, Cancel(s.calls[c].id)), steps)
    ensures c !in Run(Next(s, Cancel(s.calls[c].id)), steps).settled
  {
    var id := s.calls[c].id;
    assert s.owner[c] == id;
    StepKeepsOnceInv(s, Cancel(id));
    assert Hung(Next(s, Cancel(id)), id, c);
    StaysHung(Next(s, Cancel(id)), steps, id, c);
  }

  /** A cancel that arrives after the record is written and before the timer exists rejects nobody; the timer
      then finds a cancelled record, and the caller's promise never settles. */
  lemma CancelBeforeArmHangs(id: Id)
    ensures var steps := [Schedule(id, 1), Write(0), Cancel(id), Arm(0), Tick(1), Fire(1)];
            && Valid(EMPTY, steps)
            && var t := Run(EMPTY, steps);
               t.timers == map[] && t.settled == map[] && t.waiting == map[id := 0] && t.disk == map[id := Record(1, Cancelled)]
  {
    var a := Next(EMPTY, Schedule(id, 1));
    var b := Next(a, Write(0));
    var c := Next(b, Cancel(id));
    assert c == b.(disk := map[id := Record(1, Cancelled)]);
    var d := Next(c, Arm(0));
    var e := Next(d, Tick(1));
    assert e.timers == map[1 := Timer(id, 1)];
    var f := Next(e, Fire(1));
    assert f.timers == map[];
    assert Run(e, [Fire(1)]) == f;
    assert Run(d, [Tick(1), Fire(1)]) == f;
    assert Run(c, [Arm(0), Tick(1), Fire(1)]) == f;
    assert Run(b, [Cancel(id), Arm(0), Tick(1), Fire(1)]) == f;
    assert Run(a, [Write(0), Cancel(id), Arm(0), Tick(1), Fire(1)]) == f;
    var rest := [Write(0), Cancel(id), Arm(0), Tick(1), Fire(1)];
    assert ([Schedule(id, 1)] + rest)[1..] == rest;
  }

  // ----- the module's functions -------------------------------------------

  /** Loading the listed files one after the other. */
  function LoadAll(s: State, ids: seq<Id>): State {
    if ids == [] then s else DoLoad(LoadAll(s, ids[..|ids| - 1]), ids[|ids| - 1])
  }

  /** The pending ones, in order. */
  function PendingOf(disk: map<Id, Record>, ids: seq<Id>): seq<Id> {
    if ids == [] then []
    else PendingOf(disk, ids[..|ids| - 1]) + (if IsPending(disk, ids[|ids| - 1]) then [ids[|ids| - 1]] else [])
  }

  lemma {:induction false} LoadKeepsDisk(s: State, id: Id)
    ensures DoLoad(s, id).disk == s.disk && DoLoad(s, id).now == s.now
  {
  }

  lemma {:induction false} LoadAllKeepsDisk(s: State, ids: seq<Id>)
    ensures LoadAll(s, ids).disk == s.disk && LoadAll(s, ids).now == s.now
  {
    if ids != [] {
      LoadAllKeepsDisk(s, ids[..|ids| - 1]);
      LoadKeepsDisk(LoadAll(s, ids[..|ids| - 1]), ids[|ids| - 1]);
    }
  }

  // ----- what a live process keeps ----------------------------------------

  /** Promises, moments and timers agree; a crash keeps this. */
  ghost predicate Restartable(s: State) { OnceInv(s) && PendingUnsettled(s) && LiveOk(s) }

  /** And every pending record is being seen to. */
  ghost predicate Safe(s: State) { Restartable(s) && forall id :: id in s.disk ==> Watched(s, id, false) }

  /** A step of a live process that schedules no id twice and no delay beyond a timer. */
  predicate Regular(step: Step) { step != Crash && (step.Schedule? ==> step.delay <= MAX_TIMER) }

  lemma {:induction false} WriteWatchesAll(s: State, c: nat)
    requires Safe(s) && Enabled(s, Write(c))
    ensures forall id :: id in DoWrite(s, c).disk ==> Watched(DoWrite(s, c), id, false)
  {
    var t := DoWrite(s, c);
    forall id | id in t.disk ensures Watched(t, id, false) {
      if id == s.calls[c].id { assert t.calls[c].written; } else { WriteKeepsWatched(s, c, id, false); }
    }
  }

  lemma {:induction false} StepWatchesAll(s: State, step: Step)
    requires Safe(s) && Enabled(s, step) && Regular(step) && !step.Write?
    ensures forall id :: id in Next(s, step).disk ==> Watched(Next(s, step), id, false)
  {
    DiskEffect(s, step);
    forall id | id in Next(s, step).disk ensures Watched(Next(s, step), id, false) {
      StepKeepsWatched(s, step, id, false);
    }
  }

  lemma {:induction false} StepKeepsSafe(s: State, step: Step)
    requires Safe(s) && Enabled(s, step) && Regular(step) && (step.Schedule? ==> !Scheduled(s, step.id))
    ensures Safe(Next(s, step))
  {
    StepKeepsOnceInv(s, step);
    StepKeepsPendingUnsettled(s, step);
    StepKeepsLiveOk(s, step);
    if step.Write? { WriteWatchesAll(s, step.c); } else { StepWatchesAll(s, step); }
  }

  /** The states a live process may be in. */
  ghost function SafeStates(): iset<State> { iset s | Safe(s) }

  lemma {:induction false} ScheduleIfSafe(s: State, id: Id, delay: int)
    ensures s in SafeStates() && !Scheduled(s, id) && delay <= MAX_TIMER ==> DoSchedule(s, id, delay) in SafeStates()
  {
    if Safe(s) && !Scheduled(s, id) && delay <= MAX_TIMER { StepKeepsSafe(s, Schedule(id, delay)); }
  }

  lemma {:induction false} WriteIfSafe(s: State, c: nat)
    requires c in s.calls && !s.calls[c].written
    ensures s in SafeStates() ==> DoWrite(s, c) in SafeStates()
  {
    if Safe(s) { StepKeepsSafe(s, Write(c)); }
  }

  lemma {:induction false} ArmIfSafe(s: State, c: nat)
    requires c in s.calls && s.calls[c].written
    ensures s in SafeStates() ==> DoArm(s, c) in SafeStates()
  {
    if Safe(s) { StepKeepsSafe(s, Arm(c)); }
  }

  lemma {:induction false} FireIfSafe(s: State, k: nat)
    requires k in s.timers && s.timers[k].due <= s.now
    ensures s in SafeStates() ==> DoFire(s, k) in SafeStates()
  {
    if Safe(s) { StepKeepsSafe(s, Fire(k)); }
  }

  lemma {:induction false} CancelIfSafe(s: State, id: Id)
    ensures s in SafeStates() ==> DoCancel(s, id) in SafeStates()
  {
    if Safe(s) { StepKeepsSafe(s, Cancel(id)); }
  }

  lemma {:induction false} LoadIfSafe(s: State, ids: seq<Id>)
    requires !s.listed
    ensures Restartable(s) ==> LoadAll(Next(s, List), ids) in SafeStates()
    ensures s.disk.Keys <= (set id | id in ids) ==> LoadAll(Next(s, List), ids).toLoad == {}
  {
    if Restartable(s) {
      ListIsSafe(s);
      LoadAllKeepsSafe(Next(s, List), ids);
    }
    LoadAllEmpties(Next(s, List), ids);
  }

  lemma {:induction false} LoadKeepsOnceInv(s: State, id: Id)
    requires OnceInv(s) && PendingUnsettled(s) && LiveOk(s)
    ensures OnceInv(DoLoad(s, id)) && PendingUnsettled(DoLoad(s, id)) && LiveOk(DoLoad(s, id))
  {
    LoadKeepsOnTime(s, id);
    LoadKeepsLiveOk(s, id);
    LoadKeepsPromises(s, id);
    KeepsScheduled(s, DoLoad(s, id));
  }

  lemma {:induction false} LoadKeepsPromises(s: State, id: Id)
    ensures var t := DoLoad(s, id);
            && t.owner == s.owner && t.settled == s.settled && t.calls == s.calls && t.waiting == s.waiting && t.disk == s.disk
            && t.next >= s.next && t.toLoad == s.toLoad - {id}
  {
  }

  /** Listing the directory is enough for nothing to be forgotten; loading keeps it so. */
  lemma {:induction false} LoadAllKeepsSafe(s: State, ids: seq<Id>)
    requires Safe(s)
    ensures Safe(LoadAll(s, ids)) && LoadAll(s, ids).disk == s.disk
  {
    if ids != [] {
      LoadAllKeepsSafe(s, ids[..|ids| - 1]);
      LoadKeepsSafe(LoadAll(s, ids[..|ids| - 1]), ids[|ids| - 1]);
    }
  }

  lemma {:induction false} LoadKeepsSafe(s: State, id: Id)
    requires Safe(s)
    ensures Safe(DoLoad(s, id)) && DoLoad(s, id).disk == s.disk
  {
    LoadKeepsOnceInv(s, id);
    LoadKeepsPromises(s, id);
    forall other | other in s.disk ensures Watched(DoLoad(s, id), other, false) { LoadKeepsWatched(s, id, other, false); }
  }

  lemma {:induction false} LoadAllEmpties(s: State, ids: seq<Id>)
    ensures LoadAll(s, ids).toLoad == s.toLoad - (set id | id in ids)
  {
    if ids != [] {
      var n := |ids| - 1;
      LoadAllEmpties(s, ids[..n]);
      LoadKeepsPromises(LoadAll(s, ids[..n]), ids[n]);
      assert ids == ids[..n] + [ids[n]];
    }
  }

  lemma {:induction false} ListIsSafe(s: State)
    requires OnceInv(s) && PendingUnsettled(s) && LiveOk(s) && !s.listed
    ensures Safe(Next(s, List))
  {
    StepKeepsOnceInv(s, List);
    StepKeepsPendingUnsettled(s, List);
    StepKeepsLiveOk(s, List);
  }

  class Daemon {
    var now: int
    var disk: map<Id, Record>
    var timers: map<nat, Timer>
    var liveTimers: map<Id, nat>
    var pending: map<Id, nat>
    var calls: map<nat, Call>
    var next: nat
    ghost var settled: map<nat, Settled>
    ghost var owner: map<nat, Id>
    ghost var listed: bool
    ghost var toLoad: set<Id>
    ghost var pastDue: set<Id>

    ghost function Snapshot(): State
      reads this
    {
      State(now, disk, settled, owner, next, timers, liveTimers, pending, calls, listed, toLoad, pastDue)
    }

    /** Every pending record on disk is seen to: with its timer, its call under way, returned as past due, or
        still to be loaded. */
    ghost predicate Valid()
      reads this
    {
      Snapshot() in SafeStates()
    }

    /** What a crash leaves true. */
    ghost predicate Sound()
      reads this
    {
      Restartable(Snapshot())
    }

    constructor ()
      ensures Snapshot() == EMPTY && Valid()
    {
      now, disk, timers, liveTimers, pending, calls, next := 0, map[], map[], map[], map[], map[], 0;
      settled, owner, listed, toLoad, pastDue := map[], map[], false, {}, {};
    }

    /** `scheduleDelayedAction` up to its persist. */
    method Begin(id: Id, delayMs: int) returns (c: nat)
      modifies this
      ensures Snapshot() == DoSchedule(old(Snapshot()), id, delayMs) && c == old(next)
      ensures old(Valid() && !Scheduled(Snapshot(), id)) && delayMs <= MAX_TIMER ==> Valid()
    {
      ScheduleIfSafe(Snapshot(), id, delayMs);
      c := next;
      calls := calls[c := Call(id, now + delayMs, delayMs, false)];
      owner := owner[c := id];
      next := next + 1;
    }

    method Persist(c: nat)
      requires c in calls && !calls[c].written
      modifies this
      ensures Snapshot() == DoWrite(old(Snapshot()), c)
      ensures old(Valid()) ==> Valid()
    {
      WriteIfSafe(Snapshot(), c);
      disk := disk[calls[c].id := Record(calls[c].fireAt, Pending)];
      calls := calls[c := calls[c].(written := true)];
    }

    method SetTimeout(c: nat)
      requires c in calls && calls[c].written
      modifies this
      ensures Snapshot() == DoArm(old(Snapshot()), c)
      ensures old(Valid()) ==> Valid()
    {
      ArmIfSafe(Snapshot(), c);
      Register(c);
    }

    /** The promise executor: resolver, rejecter and timer. */
    method Register(c: nat)
      requires c in calls && calls[c].written
      modifies this
      ensures Snapshot() == DoArm(old(Snapshot()), c)
    {
      var call := calls[c];
      pending := pending[call.id := c];
      var due := now + (if 1 <= call.delay <= MAX_TIMER then call.delay else 1);
      timers := timers[next := Timer(call.id, due)];
      liveTimers := liveTimers[call.id := next];
      calls := calls - {c};
      next := next + 1;
    }

    method FireAction(k: nat)
      requires k in timers && timers[k].due <= now
      modifies this
      ensures Snapshot() == DoFire(old(Snapshot()), k)
      ensures old(Valid()) ==> Valid()
    {
      FireIfSafe(Snapshot(), k);
      Expire(k);
    }

    /** The timer's callback. */
    method Expire(k: nat)
      requires k in timers
      modifies this
      ensures Snapshot() == DoFire(old(Snapshot()), k)
    {
      var id := timers[k].id;
      timers := timers - {k};
      if id !in disk || disk[id].status != Pending { return; }
      disk := disk[id := Record(disk[id].fireAt, Fired)];
      liveTimers := liveTimers - {id};
      SettleCaller(id, Resolved);
    }

    /** The resolver or rejecter of `id`, if any, is called and forgotten. */
    method SettleCaller(id: Id, how: Settled)
      modifies this`settled, this`pending
      ensures settled == Settle(old(Snapshot()), id, how) && pending == old(pending) - {id}
    {
      if id in pending { settled := settled[pending[id] := how]; }
      pending := pending - {id};
    }

    method CancelAction(id: Id)
      modifies this
      ensures Snapshot() == DoCancel(old(Snapshot()), id)
      ensures old(Valid()) ==> Valid()
    {
      CancelIfSafe(Snapshot(), id);
      Withdraw(id);
    }

    /** The record first, then timer and promise. */
    method Withdraw(id: Id)
      modifies this
      ensures Snapshot() == DoCancel(old(Snapshot()), id)
    {
      if id !in disk || disk[id].status != Pending { return; }
      disk := disk[id := Record(disk[id].fireAt, Cancelled)];
      if id in liveTimers { timers := timers - {liveTimers[id]}; }
      liveTimers := liveTimers - {id};
      SettleCaller(id, Rejected);
    }

    /** One file of `loadPendingActions`. */
    method LoadOne(id: Id) returns (restored: bool)
      modifies this
      ensures Snapshot() == DoLoad(old(Snapshot()), id) && (restored <==> IsPending(old(disk), id))
    {
      toLoad := toLoad - {id};
      restored := id in disk && disk[id].status == Pending;
      if restored {
        var remaining := disk[id].fireAt - now;
        if remaining <= 0 {
          pastDue := pastDue + {id};
        } else {
          timers := timers[next := Timer(id, now + TimerDelay(remaining))];
          liveTimers := liveTimers[id := next];
          next := next + 1;
        }
      }
    }

    /** `loadPendingActions` over the sorted file list: every pending record is returned, past due or on a timer
        again, and once every file has been loaded no record is left without. */
    method LoadPendingActions(files: seq<Id>) returns (restored: seq<Id>)
      requires !listed
      modifies this
      ensures Snapshot() == LoadAll(Next(old(Snapshot()), List), files)
      ensures restored == PendingOf(old(disk), files)
      ensures old(Sound()) ==> Valid()
      ensures old(disk).Keys <= (set id | id in files) ==> toLoad == {}
    {
      ghost var s, t := Snapshot(), Next(Snapshot(), List);
      LoadIfSafe(s, files);
      listed, toLoad := true, disk.Keys;
      restored := LoadFiles(files);
      assert Snapshot() == LoadAll(t, files);
    }

    method LoadFiles(files: seq<Id>) returns (restored: seq<Id>)
      modifies this
      ensures Snapshot() == LoadAll(old(Snapshot()), files)
      ensures restored == PendingOf(old(disk), files)
    {
      ghost var s0 := Snapshot();
      restored := [];
      var i := 0;
      while i < |files|
        invariant 0 <= i <= |files|
        invariant Snapshot() == LoadAll(s0, files[..i])
        invariant restored == PendingOf(s0.disk, files[..i])
      {
        assert files[..i + 1][..i] == files[..i];
        LoadAllKeepsDisk(s0, files[..i]);
        var r := LoadOne(files[i]);
        if r { restored := restored + [files[i]]; }
        i := i + 1;
      }
      assert files[..|files|] == files;
    }
  }
}
