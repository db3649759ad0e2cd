/** The prober's `Semaphore`, and `scan`, which issues every acquire before any release. */
module Semaphore {

  /** A job waits in the queue, has been woken but not yet continued, probes, or is done. */
  datatype Status = Queued | Woken | Running | Done

  /** Jobs are numbered in arrival order; `granted` lists the jobs that got a permit. */
  datatype State = State(max: int, inFlight: int, waiters: seq<nat>, jobs: seq<Status>, granted: seq<nat>)

  /** The synchronous stretches: a call of `acquire`, a woken call continuing, a call of the release function. */
  datatype Step = Arrive | Resume(j: nat) | Finish(j: nat)

  predicate Enabled(s: State, step: Step) {
    match step
    case Arrive => true
    case Resume(j) => j < |s.jobs| && s.jobs[j].Woken?
    case Finish(j) => j < |s.jobs| && s.jobs[j].Running?
  }

  predicate ValidWaiters(s: State) { forall k :: 0 <= k < |s.waiters| ==> s.waiters[k] < |s.jobs| }

  function Next(s: State, step: Step): State
    requires Enabled(s, step) && ValidWaiters(s)
  {
    match step
    case Arrive =>
      if s.inFlight < s.max then
        s.(inFlight := s.inFlight + 1, jobs := s.jobs + [Running], granted := s.granted + [|s.jobs|])
      else s.(waiters := s.waiters + [|s.jobs|], jobs := s.jobs + [Queued])
    case Resume(j) => s.(inFlight := s.inFlight + 1, jobs := s.jobs[j := Running], granted := s.granted + [j])
    case Finish(j) =>
      var t := s.(inFlight := s.inFlight - 1, jobs := s.jobs[j := Done]);
      if t.waiters == [] then t
      else t.(waiters := t.waiters[1..], jobs := t.jobs[t.waiters[0] := Woken])
  }

  function Count(jobs: seq<Status>, x: Status): nat {
    if jobs == [] then 0 else Count(jobs[1..], x) + (if jobs[0] == x then 1 else 0)
  }

  lemma {:induction false} CountUpdate(jobs: seq<Status>, j: nat, to: Status, x: Status)
    requires j < |jobs|
    ensures Count(jobs[j := to], x) == Count(jobs, x) - (if jobs[j] == x then 1 else 0) + (if to == x then 1 else 0)
  {
    if j > 0 {
      CountUpdate(jobs[1..], j - 1, to, x);
      assert jobs[j := to][1..] == jobs[1..][j - 1 := to];
    } else {
      assert jobs[j := to][1..] == jobs[1..];
    }
  }

  lemma {:induction false} CountAppend(jobs: seq<Status>, y: Status, x: Status)
    ensures Count(jobs + [y], x) == Count(jobs, x) + (if y == x then 1 else 0)
  {
    if jobs == [] {
      assert (jobs + [y])[1..] == [];
    } else {
      CountAppend(jobs[1..], y, x);
      assert (jobs + [y])[1..] == jobs[1..] + [y];
    }
  }

  lemma {:induction false} CountWitness(jobs: seq<Status>, x: Status) returns (j: nat)
    requires Count(jobs, x) > 0
    ensures j < |jobs| && jobs[j] == x
  {
    if jobs[0] == x { j := 0; } else { j := CountWitness(jobs[1..], x); j := j + 1; }
  }

  // ----- bookkeeping that every run keeps ----------------------------------

  predicate Distinct(xs: seq<nat>) { forall i, j :: 0 <= i < j < |xs| ==> xs[i] != xs[j] }

  predicate Got(s: State, j: nat)
    requires j < |s.jobs|
  {
    s.jobs[j].Running? || s.jobs[j].Done?
  }

  /** `inFlight` counts the running jobs, the queue holds exactly the queued jobs, and `granted` lists,
      once each, exactly the jobs that have their permit. */
  ghost predicate Inv(s: State) {
    && s.inFlight == Count(s.jobs, Running)
    && ValidWaiters(s) && Distinct(s.waiters) && Distinct(s.granted)
    && (forall j :: 0 <= j < |s.jobs| ==> (s.jobs[j].Queued? <==> j in s.waiters))
    && (forall j :: j in s.granted ==> j < |s.jobs|)
    && (forall j :: 0 <= j < |s.jobs| ==> (Got(s, j) <==> j in s.granted))
  }

  lemma {:induction false} ArriveKeepsInv(s: State)
    requires Inv(s)
    ensures Inv(Next(s, Arrive))
  {
    CountAppend(s.jobs, if s.inFlight < s.max then Running else Queued, Running);
    forall i | 0 <= i < |s.granted| ensures s.granted[i] < |s.jobs| {
      assert s.granted[i] in s.granted;
    }
  }

  lemma {:induction false} ResumeKeepsInv(s: State, j: nat)
    requires Inv(s) && Enabled(s, Resume(j))
    ensures Inv(Next(s, Resume(j)))
  {
    CountUpdate(s.jobs, j, Running, Running);
    assert !Got(s, j);
  }

  /** Finishing with nobody in the queue. */
  lemma {:induction false} FinishAloneKeepsInv(s: State, j: nat)
    requires Inv(s) && Enabled(s, Finish(j)) && s.waiters == []
    ensures Inv(Next(s, Finish(j)))
  {
    CountUpdate(s.jobs, j, Done, Running);
  }

  lemma {:induction false} FinishKeepsInv(s: State, j: nat)
    requires Inv(s) && Enabled(s, Finish(j))
    ensures Inv(Next(s, Finish(j)))
  {
    if s.waiters == [] {
      FinishAloneKeepsInv(s, j);
    } else {
      FinishWakesOne(s, j, s.waiters[0]);
    }
  }

  lemma {:induction false} FinishWakesOne(s: State, j: nat, w: nat)
    requires Inv(s) && Enabled(s, Finish(j)) && s.waiters != [] && s.waiters[0] == w
    ensures Inv(Next(s, Finish(j)))
  {
    var t := Next(s, Finish(j));
    WakingCounts(s, j, w);
    TailOf(s.waiters, w);
    assert t.jobs == s.jobs[j := Done][w := Woken];
    forall k | 0 <= k < |t.jobs| ensures Got(t, k) <==> Got(s, k) {
    }
  }

  lemma {:induction false} WakingCounts(s: State, j: nat, w: nat)
    requires Inv(s) && Enabled(s, Finish(j)) && w in s.waiters
    ensures w < |s.jobs| && s.jobs[w].Queued? && Count(s.jobs[j := Done][w := Woken], Running) == Count(s.jobs, Running) - 1
  {
    CountUpdate(s.jobs, j, Done, Running);
    CountUpdate(s.jobs[j := Done], w, Woken, Running);
  }

  lemma {:induction false} TailOf(xs: seq<nat>, w: nat)
    requires Distinct(xs) && xs != [] && xs[0] == w
    ensures Distinct(xs[1..]) && forall k :: k in xs[1..] <==> k in xs && k != w
  {
    assert xs == [w] + xs[1..];
  }

  lemma {:induction false} StepKeepsInv(s: State, step: Step)
    requires Inv(s) && Enabled(s, step)
    ensures Inv(Next(s, step))
  {
    match step {
      case Arrive => ArriveKeepsInv(s);
      case Resume(j) => ResumeKeepsInv(s, j);
      case Finish(j) => FinishKeepsInv(s, j);
    }
  }

  // ----- the bound --------------------------------------------------------

  /** Probes in flight and woken waiters that will be. */
  function Load(s: State): int { s.inFlight + Count(s.jobs, Woken) }

  /** Nobody waits while a permit is free. */
  predicate Bounded(s: State) { Load(s) <= s.max && (s.waiters != [] ==> Load(s) == s.max) }

  lemma {:induction false} LoadOfStep(s: State, step: Step)
    requires Inv(s) && Enabled(s, step)
    ensures var t := Next(s, step);
            match step
            case Arrive => Load(t) == Load(s) + (if s.inFlight < s.max then 1 else 0)
            case Resume(_) => Load(t) == Load(s)
            case Finish(_) => Load(t) == Load(s) - (if s.waiters == [] then 1 else 0)
  {
    match step {
      case Arrive => CountAppend(s.jobs, if s.inFlight < s.max then Running else Queued, Woken);
      case Resume(j) => CountUpdate(s.jobs, j, Running, Woken);
      case Finish(j) =>
        CountUpdate(s.jobs, j, Done, Woken);
        if s.waiters != [] {
          assert s.waiters[0] in s.waiters;
          CountUpdate(s.jobs[j := Done], s.waiters[0], Woken, Woken);
        }
    }
  }

  /** Continuing and releasing keep the bound; a new arrival keeps it exactly when it does not
      overtake a woken waiter that holds the last permit. */
  lemma {:induction false} StepKeepsBoundIff(s: State, step: Step)
    requires Inv(s) && Enabled(s, step) && Load(s) <= s.max
    ensures Load(Next(s, step)) <= s.max <==> !(step.Arrive? && s.inFlight < s.max && Load(s) == s.max)
  {
    LoadOfStep(s, step);
  }

  /** A newcomer that arrives after a release can overtake the woken waiter: two probes under a limit of one. */
  lemma NewcomerBreaksBound()
    ensures var s := State(1, 0, [], [], []);
            var a := Next(s, Arrive);
            var b := Next(a, Arrive);
            var c := Next(b, Finish(0));
            var d := Next(c, Arrive);
            Enabled(d, Resume(1)) && Next(d, Resume(1)).inFlight == 2
  {
    var a := Next(State(1, 0, [], [], []), Arrive);
    var b := Next(a, Arrive);
    assert b.jobs == [Running, Queued] && b.waiters == [1];
    var c := Next(b, Finish(0));
    assert c.jobs == [Done, Woken] && c.waiters == [];
    assert Next(c, Arrive).jobs == [Done, Woken, Running];
  }

  // ----- scan -------------------------------------------------------------

  /** `jobs.map(...)` runs every `acquire` up to its first await. */
  function Arrivals(max: int, n: nat): (s: State)
    ensures ValidWaiters(s) && |s.jobs| == n && s.max == max
  {
    if n == 0 then State(max, 0, [], [], []) else Next(Arrivals(max, n - 1), Arrive)
  }

  lemma {:induction false} ArrivalsAreBounded(max: int, n: nat)
    requires max >= 0
    ensures Inv(Arrivals(max, n)) && Bounded(Arrivals(max, n)) && Count(Arrivals(max, n).jobs, Woken) == 0
  {
    if n > 0 {
      var s := Arrivals(max, n - 1);
      ArrivalsAreBounded(max, n - 1);
      ArriveKeepsInv(s);
      LoadOfStep(s, Arrive);
      CountAppend(s.jobs, if s.inFlight < s.max then Running else Queued, Woken);
    }
  }

  /** After the arrivals, any order of continuations and releases. */
  predicate Follows(s: State, steps: seq<Step>)
    requires ValidWaiters(s)
    decreases |steps|
  {
    steps == [] ||
    (!steps[0].Arrive? && Enabled(s, steps[0]) && ValidWaiters(Next(s, steps[0])) && Follows(Next(s, steps[0]), steps[1..]))
  }

  function After(s: State, steps: seq<Step>): State
    requires ValidWaiters(s) && Follows(s, steps)
    decreases |steps|
  {
    if steps == [] then s else After(Next(s, steps[0]), steps[1..])
  }

  lemma {:induction false} RunKeepsBound(s: State, steps: seq<Step>)
    requires Inv(s) && Bounded(s) && Follows(s, steps)
    ensures var t := After(s, steps); Inv(t) && Bounded(t) && |t.jobs| == |s.jobs| && t.max == s.max
    decreases |steps|
  {
    if steps != [] {
      StepKeepsInv(s, steps[0]);
      LoadOfStep(s, steps[0]);
      RunKeepsBound(Next(s, steps[0]), steps[1..]);
    }
  }

  function Rank(x: Status): nat {
    match x
    case Queued => 3
    case Woken => 2
    case Running => 1
    case Done => 0
  }

  function Remaining(jobs: seq<Status>): nat {
    if jobs == [] then 0 else Rank(jobs[0]) + Remaining(jobs[1..])
  }

  lemma {:induction false} RemainingUpdate(jobs: seq<Status>, j: nat, to: Status)
    requires j < |jobs|
    ensures Remaining(jobs[j := to]) == Remaining(jobs) - Rank(jobs[j]) + Rank(to)
  {
    if j > 0 {
      RemainingUpdate(jobs[1..], j - 1, to);
      assert jobs[j := to][1..] == jobs[1..][j - 1 := to];
    } else {
      assert jobs[j := to][1..] == jobs[1..];
    }
  }

  /** Every step brings the scan closer to its end. */
  lemma {:induction false} StepDecreases(s: State, step: Step)
    requires Inv(s) && Enabled(s, step) && !step.Arrive?
    ensures Remaining(Next(s, step).jobs) < Remaining(s.jobs)
  {
    match step {
      case Resume(j) => RemainingUpdate(s.jobs, j, Running);
      case Finish(j) =>
        RemainingUpdate(s.jobs, j, Done);
        if s.waiters != [] {
          assert s.waiters[0] in s.waiters;
          RemainingUpdate(s.jobs[j := Done], s.waiters[0], Woken);
        }
    }
  }

  predicate AllDone(s: State) { forall j :: 0 <= j < |s.jobs| ==> s.jobs[j].Done? }

  /** With at least one permit, an unfinished scan always has a next step. */
  lemma {:induction false} NeverStuck(s: State) returns (step: Step)
    requires Inv(s) && Bounded(s) && s.max >= 1 && !AllDone(s)
    ensures Enabled(s, step) && !step.Arrive?
  {
    var j :| 0 <= j < |s.jobs| && !s.jobs[j].Done?;
    if s.jobs[j].Running? {
      step := Finish(j);
    } else if s.jobs[j].Woken? {
      step := Resume(j);
    } else if s.inFlight > 0 {
      var k := CountWitness(s.jobs, Running);
      step := Finish(k);
    } else {
      var k := CountWitness(s.jobs, Woken);
      step := Resume(k);
    }
  }

  /** In every wake-up order of a scan the bound holds throughout, no order runs longer than the total
      rank, an order that cannot be extended has finished every job, and then nothing is in flight, nobody
      waits, and every job has had exactly one permit. */
  lemma {:induction false} ScanIsBoundedAndComplete(max: int, n: nat, steps: seq<Step>)
    requires max >= 1 && Follows(Arrivals(max, n), steps)
    ensures var t := After(Arrivals(max, n), steps);
            && Load(t) <= max && Distinct(t.granted)
            && (AllDone(t) <==> forall step :: Enabled(t, step) ==> step.Arrive?)
            && (AllDone(t) ==> t.inFlight == 0 && t.waiters == [] && forall j :: 0 <= j < n ==> j in t.granted)
    ensures |steps| <= Remaining(Arrivals(max, n).jobs)
  {
    ArrivalsAreBounded(max, n);
    RunKeepsBound(Arrivals(max, n), steps);
    StepsAreFew(Arrivals(max, n), steps);
    var t := After(Arrivals(max, n), steps);
    if AllDone(t) {
      if t.inFlight > 0 {
        var k := CountWitness(t.jobs, Running);
        assert false;
      }
      if t.waiters != [] {
        HeadIsQueued(t);
        assert false;
      }
      forall j | 0 <= j < n ensures j in t.granted {
        assert Got(t, j);
      }
    } else {
      var step := NeverStuck(t);
    }
  }

  lemma {:induction false} HeadIsQueued(s: State)
    requires Inv(s) && s.waiters != []
    ensures s.jobs[s.waiters[0]].Queued?
  {
    assert s.waiters[0] in s.waiters;
  }

  lemma {:induction false} StepsAreFew(s: State, steps: seq<Step>)
    requires Inv(s) && Follows(s, steps)
    ensures |steps| <= Remaining(s.jobs)
    decreases |steps|
  {
    if steps != [] {
      StepDecreases(s, steps[0]);
      StepKeepsInv(s, steps[0]);
      StepsAreFew(Next(s, steps[0]), steps[1..]);
    }
  }

  /** With a limit of zero or less no job of a scan ever starts. */
  lemma {:induction false} NoPermitNoProgress(max: int, n: nat, step: Step)
    requires max <= 0
    ensures forall j :: 0 <= j < n ==> Arrivals(max, n).jobs[j].Queued?
    ensures Arrivals(max, n).inFlight == 0
    ensures Enabled(Arrivals(max, n), step) ==> step.Arrive?
  {
    if n > 0 { NoPermitNoProgress(max, n - 1, step); }
  }

  // ----- the order of waking ----------------------------------------------

  /** Who came first stands first. */
  predicate Ascending(waiters: seq<nat>) { forall i, j :: 0 <= i < j < |waiters| ==> waiters[i] < waiters[j] }

  lemma {:induction false} StepKeepsAscending(s: State, step: Step)
    requires Inv(s) && Ascending(s.waiters) && Enabled(s, step)
    ensures Ascending(Next(s, step).waiters)
  {
  }

  /** A release wakes, of the jobs that wait, the one that arrived first, and changes no other job but its own; with
      nobody waiting it wakes nobody. */
  lemma {:induction false} WakesFirstArrival(s: State, j: nat)
    requires Inv(s) && Ascending(s.waiters) && Enabled(s, Finish(j))
    ensures var t := Next(s, Finish(j));
            && |t.jobs| == |s.jobs| && t.jobs[j].Done? && t.inFlight == s.inFlight - 1
            && forall i :: 0 <= i < |s.jobs| && i != j ==>
                 if s.jobs[i].Queued? && (forall k :: 0 <= k < i ==> !s.jobs[k].Queued?) then t.jobs[i].Woken?
                 else t.jobs[i] == s.jobs[i]
  {
    if s.waiters != [] {
      var w := s.waiters[0];
      assert w in s.waiters;
      forall k | 0 <= k < w ensures !s.jobs[k].Queued? { assert k !in s.waiters; }
    }
  }

  // ----- the class --------------------------------------------------------

  class Sem {
    const max: int
    var inFlight: int
    var waiters: seq<nat>
    ghost var jobs: seq<Status>
    ghost var granted: seq<nat>

    ghost function Snapshot(): State
      reads this
    {
      State(max, inFlight, waiters, jobs, granted)
    }

    constructor (max: int)
      ensures Snapshot() == State(max, 0, [], [], []) && Inv(Snapshot())
    {
      this.max := max;
      inFlight, waiters, jobs, granted := 0, [], [], [];
    }

    /** `acquire` up to its await; `me` is the caller's number. */
    method Acquire(me: nat) returns (immediate: bool)
      requires Inv(Snapshot()) && me == |jobs|
      modifies this
      ensures Snapshot() == Next(old(Snapshot()), Arrive) && Inv(Snapshot())
      ensures immediate <==> old(inFlight) < max
    {
      ArriveKeepsInv(Snapshot());
      if inFlight < max {
        inFlight := inFlight + 1;
        jobs, granted := jobs + [Running], granted + [me];
        return true;
      }
      waiters := waiters + [me];
      jobs := jobs + [Queued];
      return false;
    }

    /** The rest of `acquire` once its waiter has been resolved. */
    method Continue(me: nat)
      requires Inv(Snapshot()) && Enabled(Snapshot(), Resume(me))
      modifies this
      ensures Snapshot() == Next(old(Snapshot()), Resume(me)) && Inv(Snapshot())
    {
      ResumeKeepsInv(Snapshot(), me);
      inFlight := inFlight + 1;
      jobs, granted := jobs[me := Running], granted + [me];
    }

    method Release(me: nat)
      requires Inv(Snapshot()) && Enabled(Snapshot(), Finish(me))
      modifies this
      ensures Snapshot() == Next(old(Snapshot()), Finish(me)) && Inv(Snapshot())
    {
      FinishKeepsInv(Snapshot(), me);
      inFlight := inFlight - 1;
      jobs := jobs[me := Done];
      if waiters != [] {
        var next := waiters[0];
        waiters := waiters[1..];
        jobs := jobs[next := Woken];
      }
    }
  }
}
