/** Read-modify-write under the file mutex, split at every await: any number of callers, failures,
    crashes and lock-free readers. */
module LockedStore {
  import FM = FileMutex

  /** What an operation decides once it has read the document. */
  datatype Outcome<+D> = Put(doc: D) | Keep | Throw

  datatype Ending = Wrote | Kept | Threw | IoFailed

  /** Progress of one call; its ticket in the mutex has the same index. */
  datatype Pc<+D> = Waiting | Holding | Loaded(doc: D) | Finished(ending: Ending)

  datatype Task<+D, +Op> = Task(op: Op, pc: Pc<D>)

  /** `file` and `durable` survive a crash; `durable` lists the writes of earlier processes. */
  datatype State<D, Op> = State(file: D, durable: seq<Op>, tasks: seq<Task<D, Op>>, chain: FM.Chain)

  datatype Step<+Op> =
    | Call(op: Op)
    | Settle(i: nat)
    | Grant(i: nat)
    | Load(i: nat)
    | Finish(i: nat)
    | Fail(i: nat)
    | Release(i: nat)
    | Crash

  function SetPc<D, Op>(s: State<D, Op>, i: nat, pc: Pc<D>): State<D, Op>
    requires i < |s.tasks|
  {
    s.(tasks := s.tasks[i := s.tasks[i].(pc := pc)])
  }

  function Next<D, Op>(apply: (Op, D) -> Outcome<D>, s: State<D, Op>, step: Step<Op>): State<D, Op> {
    match step
    case Call(op) => s.(tasks := s.tasks + [Task(op, Waiting)], chain := FM.Next(s.chain, FM.Acquire))
    case Settle(i) =>
      if FM.Enabled(s.chain, FM.Settle(i)) then s.(chain := FM.Next(s.chain, FM.Settle(i))) else s
    case Grant(i) =>
      if FM.Enabled(s.chain, FM.Grant(i)) && i < |s.tasks| then
        SetPc(s, i, Holding).(chain := FM.Next(s.chain, FM.Grant(i)))
      else s
    case Load(i) =>
      if i < |s.tasks| && s.tasks[i].pc.Holding? then SetPc(s, i, Loaded(s.file)) else s
    case Finish(i) =>
      if i < |s.tasks| && s.tasks[i].pc.Loaded? then
        match apply(s.tasks[i].op, s.tasks[i].pc.doc) {
          case Put(doc) => SetPc(s, i, Finished(Wrote)).(file := doc)
          case Keep => SetPc(s, i, Finished(Kept))
          case Throw => SetPc(s, i, Finished(Threw))
        }
      else s
    case Fail(i) =>
      if i < |s.tasks| && (s.tasks[i].pc.Holding? || s.tasks[i].pc.Loaded?) then SetPc(s, i, Finished(IoFailed)) else s
    case Release(i) =>
      if FM.Enabled(s.chain, FM.Release(i)) && i < |s.tasks| && s.tasks[i].pc.Finished? then
        s.(chain := FM.Next(s.chain, FM.Release(i)))
      else s
    case Crash => State(s.file, s.durable + Writes(s.tasks), [], [])
  }

  function Run<D, Op>(apply: (Op, D) -> Outcome<D>, s: State<D, Op>, steps: seq<Step<Op>>): State<D, Op>
    decreases |steps|
  {
    if steps == [] then s else Run(apply, Next(apply, s, steps[0]), steps[1..])
  }

  /** The operations that wrote, in grant order, which is call order. */
  function Writes<D, Op>(tasks: seq<Task<D, Op>>): seq<Op> {
    if tasks == [] then []
    else
      var last := tasks[|tasks| - 1];
      Writes(tasks[..|tasks| - 1]) + (if last.pc == Finished(Wrote) then [last.op] else [])
  }

  /** One operation on its own: a throwing or no-op operation changes nothing. */
  function Apply<D, Op>(apply: (Op, D) -> Outcome<D>, op: Op, doc: D): D {
    match apply(op, doc)
    case Put(next) => next
    case Keep => doc
    case Throw => doc
  }

  /** The operations one at a time. */
  function Fold<D, Op>(apply: (Op, D) -> Outcome<D>, doc: D, ops: seq<Op>): D
    decreases |ops|
  {
    if ops == [] then doc else Apply(apply, ops[|ops| - 1], Fold(apply, doc, ops[..|ops| - 1]))
  }

  function EndingOf<D>(o: Outcome<D>): Ending {
    match o
    case Put(_) => Wrote
    case Keep => Kept
    case Throw => Threw
  }

  // ----- the invariant ----------------------------------------------------

  predicate Active<D>(pc: Pc<D>) { pc.Holding? || pc.Loaded? }

  /** Everything all calls before number `n` wrote, in this process and before it. */
  function WritesBefore<D, Op>(s: State<D, Op>, n: nat): seq<Op>
    requires n <= |s.tasks|
  {
    s.durable + Writes(s.tasks[..n])
  }

  /** A finished call ended as its operation decides on the document its predecessors left. */
  ghost predicate Serial<D, Op>(apply: (Op, D) -> Outcome<D>, init: D, s: State<D, Op>, i: nat)
    requires i < |s.tasks|
  {
    s.tasks[i].pc.Finished? && s.tasks[i].pc.ending != IoFailed ==>
      s.tasks[i].pc.ending == EndingOf(apply(s.tasks[i].op, Fold(apply, init, WritesBefore(s, i))))
  }

  ghost predicate PcFitsTicket<D>(pc: Pc<D>, t: FM.Ticket) {
    && (pc.Waiting? <==> !t.granted)
    && (t.released ==> pc.Finished?)
  }

  ghost predicate Inv<D, Op>(apply: (Op, D) -> Outcome<D>, init: D, s: State<D, Op>) {
    && |s.tasks| == |s.chain| && FM.Valid(s.chain)
    && (forall i :: 0 <= i < |s.tasks| ==> PcFitsTicket(s.tasks[i].pc, s.chain[i]))
    && s.file == Fold(apply, init, s.durable + Writes(s.tasks))
    && (forall i :: 0 <= i < |s.tasks| && s.tasks[i].pc.Loaded? ==> s.tasks[i].pc.doc == s.file)
    && (forall i :: 0 <= i < |s.tasks| ==> Serial(apply, init, s, i))
  }

  /** While one call is between its grant and its release, all earlier calls are finished and all later ones wait. */
  lemma {:induction false} HolderIsAlone<D, Op>(s: State<D, Op>, i: nat, j: nat)
    requires |s.tasks| == |s.chain| && FM.Valid(s.chain)
    requires forall k :: 0 <= k < |s.tasks| ==> PcFitsTicket(s.tasks[k].pc, s.chain[k])
    requires i < |s.tasks| && j < |s.tasks| && i != j && FM.Holds(s.chain, i)
    ensures if j < i then s.tasks[j].pc.Finished? else s.tasks[j].pc.Waiting?
  {
    if j < i {
      FM.GrantedInOrder(s.chain, j, i);
    } else if s.chain[j].granted {
      FM.GrantedInOrder(s.chain, i, j);
    }
  }

  lemma {:induction false} WritesIgnoreWaiting<D, Op>(tasks: seq<Task<D, Op>>, n: nat)
    requires n <= |tasks| && forall j :: n <= j < |tasks| ==> tasks[j].pc != Finished(Wrote)
    ensures Writes(tasks) == Writes(tasks[..n])
    decreases |tasks|
  {
    if n < |tasks| {
      WritesIgnoreWaiting(tasks[..|tasks| - 1], n);
      assert tasks[..|tasks| - 1][..n] == tasks[..n];
    } else {
      assert tasks[..n] == tasks;
    }
  }

  /** What the holder's write does to the list of writes. */
  lemma {:induction false} WritesAfterFinish<D, Op>(tasks: seq<Task<D, Op>>, i: nat, ending: Ending)
    requires i < |tasks| && tasks[i].pc != Finished(Wrote)
    requires forall j :: i < j < |tasks| ==> tasks[j].pc != Finished(Wrote)
    ensures var t := tasks[i := tasks[i].(pc := Finished(ending))];
            Writes(t) == Writes(tasks) + (if ending == Wrote then [tasks[i].op] else [])
  {
    var t := tasks[i := tasks[i].(pc := Finished(ending))];
    WritesIgnoreWaiting(tasks, i);
    WritesIgnoreWaiting(t, i + 1);
    assert t[..i + 1][..i] == tasks[..i];
    assert t[..i + 1][i] == t[i];
  }

  lemma {:induction false} SamePrefixWrites<D, Op>(a: seq<Task<D, Op>>, b: seq<Task<D, Op>>)
    requires |a| == |b|
    requires forall k :: 0 <= k < |a| ==> a[k].op == b[k].op && (a[k].pc == Finished(Wrote) <==> b[k].pc == Finished(Wrote))
    ensures Writes(a) == Writes(b)
    decreases |a|
  {
    if a != [] {
      SamePrefixWrites(a[..|a| - 1], b[..|b| - 1]);
    }
  }

  /** Moving a call that has not finished to another unfinished state keeps every list of writes. */
  lemma {:induction false} QuietMove<D, Op>(s: State<D, Op>, i: nat, pc: Pc<D>, n: nat)
    requires i < |s.tasks| && n <= |s.tasks|
    requires s.tasks[i].pc != Finished(Wrote) && pc != Finished(Wrote)
    ensures Writes(SetPc(s, i, pc).tasks[..n]) == Writes(s.tasks[..n])
  {
    SamePrefixWrites(SetPc(s, i, pc).tasks[..n], s.tasks[..n]);
  }

  lemma {:induction false} QuietMoveAll<D, Op>(s: State<D, Op>, i: nat, pc: Pc<D>)
    requires i < |s.tasks| && s.tasks[i].pc != Finished(Wrote) && pc != Finished(Wrote)
    ensures Writes(SetPc(s, i, pc).tasks) == Writes(s.tasks)
  {
    QuietMove(s, i, pc, |s.tasks|);
    assert s.tasks[..|s.tasks|] == s.tasks && SetPc(s, i, pc).tasks[..|s.tasks|] == SetPc(s, i, pc).tasks;
  }

  lemma {:induction false} CallKeepsInv<D, Op>(apply: (Op, D) -> Outcome<D>, init: D, s: State<D, Op>, op: Op)
    requires Inv(apply, init, s)
    ensures Inv(apply, init, Next(apply, s, Call(op)))
  {
    var t := Next(apply, s, Call(op));
    FM.StepKeepsValid(s.chain, FM.Acquire);
    assert t.tasks[..|t.tasks| - 1] == s.tasks;
    assert Writes(t.tasks) == Writes(s.tasks);
    forall i | 0 <= i < |t.tasks| ensures Serial(apply, init, t, i) {
      if i < |s.tasks| {
        assert Serial(apply, init, s, i);
        assert t.tasks[..i] == s.tasks[..i];
      }
    }
  }

  /** A step that moves call `i` between unfinished states, or to an I/O failure. */
  lemma {:induction false} QuietMoveKeepsInv<D, Op>(apply: (Op, D) -> Outcome<D>, init: D, s: State<D, Op>, i: nat, pc: Pc<D>, chain: FM.Chain)
    requires Inv(apply, init, s) && i < |s.tasks| && !s.tasks[i].pc.Finished?
    requires pc == Holding || pc == Loaded(s.file) || pc == Finished(IoFailed)
    requires |chain| == |s.chain| && FM.Valid(chain) && chain[i].granted && !chain[i].released
    requires forall j :: 0 <= j < |chain| && j != i ==> chain[j] == s.chain[j]
    ensures Inv(apply, init, SetPc(s, i, pc).(chain := chain))
  {
    var t := SetPc(s, i, pc).(chain := chain);
    QuietMoveAll(s, i, pc);
    forall j | 0 <= j < |t.tasks| ensures Serial(apply, init, t, j) {
      assert Serial(apply, init, s, j);
      QuietMove(s, i, pc, j);
    }
  }

  lemma {:induction false} GrantKeepsInv<D, Op>(apply: (Op, D) -> Outcome<D>, init: D, s: State<D, Op>, i: nat)
    requires Inv(apply, init, s) && FM.Enabled(s.chain, FM.Grant(i))
    ensures Inv(apply, init, Next(apply, s, Grant(i)))
  {
    FM.StepKeepsValid(s.chain, FM.Grant(i));
    assert PcFitsTicket(s.tasks[i].pc, s.chain[i]);
    QuietMoveKeepsInv(apply, init, s, i, Holding, FM.Next(s.chain, FM.Grant(i)));
  }

  /** A chain step that only releases or settles tickets of finished calls. */
  lemma {:induction false} ChainStepKeepsInv<D, Op>(apply: (Op, D) -> Outcome<D>, init: D, s: State<D, Op>, step: FM.Step, i: nat)
    requires Inv(apply, init, s) && FM.Enabled(s.chain, step) && i < |s.tasks|
    requires step == FM.Settle(i) || (step == FM.Release(i) && s.tasks[i].pc.Finished?)
    ensures Inv(apply, init, s.(chain := FM.Next(s.chain, step)))
  {
    FM.StepKeepsValid(s.chain, step);
    var t := s.(chain := FM.Next(s.chain, step));
    assert PcFitsTicket(s.tasks[i].pc, s.chain[i]);
    forall j | 0 <= j < |t.tasks| ensures Serial(apply, init, t, j) {
      assert Serial(apply, init, s, j);
      assert WritesBefore(t, j) == WritesBefore(s, j);
    }
  }

  lemma {:induction false} LoadedIsAlone<D, Op>(apply: (Op, D) -> Outcome<D>, init: D, s: State<D, Op>, i: nat)
    requires Inv(apply, init, s) && i < |s.tasks| && Active(s.tasks[i].pc)
    ensures s.chain[i].granted && !s.chain[i].released
    ensures forall j :: i < j < |s.tasks| ==> s.tasks[j].pc.Waiting?
    ensures forall j :: 0 <= j < i ==> s.tasks[j].pc.Finished?
    ensures Writes(s.tasks) == Writes(s.tasks[..i])
  {
    assert PcFitsTicket(s.tasks[i].pc, s.chain[i]);
    forall j | 0 <= j < |s.tasks| && j != i
      ensures if j < i then s.tasks[j].pc.Finished? else s.tasks[j].pc.Waiting?
    {
      HolderIsAlone(s, i, j);
    }
    WritesIgnoreWaiting(s.tasks, i);
  }

  lemma {:induction false} FoldSnoc<D, Op>(apply: (Op, D) -> Outcome<D>, init: D, ops: seq<Op>, op: Op)
    ensures Fold(apply, init, ops + [op]) == Apply(apply, op, Fold(apply, init, ops))
  {
    assert (ops + [op])[..|ops|] == ops;
  }

  lemma {:induction false} FinishKeepsFile<D, Op>(apply: (Op, D) -> Outcome<D>, init: D, s: State<D, Op>, i: nat)
    requires Inv(apply, init, s) && i < |s.tasks| && s.tasks[i].pc.Loaded?
    ensures var t := Next(apply, s, Finish(i));
            t.file == Fold(apply, init, t.durable + Writes(t.tasks)) && t.durable == s.durable
    ensures apply(s.tasks[i].op, s.tasks[i].pc.doc) == apply(s.tasks[i].op, Fold(apply, init, WritesBefore(s, i)))
  {
    var op, ending := s.tasks[i].op, EndingOf(apply(s.tasks[i].op, s.file));
    LoadedIsAlone(apply, init, s, i);
    WritesAfterFinish(s.tasks, i, ending);
    if ending == Wrote {
      var done := s.durable + Writes(s.tasks);
      FoldSnoc(apply, init, done, op);
      assert s.durable + (Writes(s.tasks) + [op]) == done + [op];
    } else {
      assert Writes(s.tasks) + [] == Writes(s.tasks);
    }
  }

  lemma {:induction false} FinishKeepsInv<D, Op>(apply: (Op, D) -> Outcome<D>, init: D, s: State<D, Op>, i: nat)
    requires Inv(apply, init, s) && i < |s.tasks| && s.tasks[i].pc.Loaded?
    ensures Inv(apply, init, Next(apply, s, Finish(i)))
  {
    var t := Next(apply, s, Finish(i));
    LoadedIsAlone(apply, init, s, i);
    FinishKeepsFile(apply, init, s, i);
    FinishKeepsSerial(apply, init, s, i);
  }

  lemma {:induction false} FinishKeepsSerial<D, Op>(apply: (Op, D) -> Outcome<D>, init: D, s: State<D, Op>, i: nat)
    requires Inv(apply, init, s) && i < |s.tasks| && s.tasks[i].pc.Loaded?
    ensures forall j :: 0 <= j < |s.tasks| ==> Serial(apply, init, Next(apply, s, Finish(i)), j)
  {
    var t := Next(apply, s, Finish(i));
    LoadedIsAlone(apply, init, s, i);
    FinishKeepsFile(apply, init, s, i);
    forall j | 0 <= j < |s.tasks| ensures Serial(apply, init, t, j) {
      assert Serial(apply, init, s, j);
      if j <= i { assert t.tasks[..j] == s.tasks[..j]; }
    }
  }

  lemma {:induction false} CrashKeepsInv<D, Op>(apply: (Op, D) -> Outcome<D>, init: D, s: State<D, Op>)
    requires Inv(apply, init, s)
    ensures Inv(apply, init, Next(apply, s, Step<Op>.Crash))
  {
    var t := Next(apply, s, Step<Op>.Crash);
    assert t.durable + [] == t.durable;
  }

  lemma {:induction false} StepKeepsInv<D, Op>(apply: (Op, D) -> Outcome<D>, init: D, s: State<D, Op>, step: Step<Op>)
    requires Inv(apply, init, s)
    ensures Inv(apply, init, Next(apply, s, step))
  {
    match step {
      case Call(op) => CallKeepsInv(apply, init, s, op);
      case Settle(i) =>
        if FM.Enabled(s.chain, FM.Settle(i)) { ChainStepKeepsInv(apply, init, s, FM.Settle(i), i); }
      case Grant(i) =>
        if FM.Enabled(s.chain, FM.Grant(i)) { GrantKeepsInv(apply, init, s, i); }
      case Load(i) =>
        if i < |s.tasks| && s.tasks[i].pc.Holding? {
          LoadedIsAlone(apply, init, s, i);
          QuietMoveKeepsInv(apply, init, s, i, Loaded(s.file), s.chain);
        }
      case Finish(i) =>
        if i < |s.tasks| && s.tasks[i].pc.Loaded? { FinishKeepsInv(apply, init, s, i); }
      case Fail(i) =>
        if i < |s.tasks| && Active(s.tasks[i].pc) {
          LoadedIsAlone(apply, init, s, i);
          QuietMoveKeepsInv(apply, init, s, i, Finished(IoFailed), s.chain);
        }
      case Release(i) =>
        if FM.Enabled(s.chain, FM.Release(i)) && i < |s.tasks| && s.tasks[i].pc.Finished? {
          ChainStepKeepsInv(apply, init, s, FM.Release(i), i);
        }
      case Crash => CrashKeepsInv(apply, init, s);
    }
  }

  // ----- every schedule ---------------------------------------------------

  function Fresh<D, Op>(init: D): State<D, Op> { State(init, [], [], []) }

  /** Everything written so far. */
  function AllWrites<D, Op>(s: State<D, Op>): seq<Op> { s.durable + Writes(s.tasks) }

  lemma {:induction false} RunKeepsInv<D, Op>(apply: (Op, D) -> Outcome<D>, init: D, s: State<D, Op>, steps: seq<Step<Op>>)
    requires Inv(apply, init, s)
    ensures Inv(apply, init, Run(apply, s, steps))
    decreases |steps|
  {
    if steps != [] {
      StepKeepsInv(apply, init, s, steps[0]);
      RunKeepsInv(apply, init, Next(apply, s, steps[0]), steps[1..]);
    }
  }

  /** In every schedule the file is what the successful operations give one at a time in grant order,
      and every completed call ended as its operation decides at its place in that order. */
  lemma {:induction false} EveryScheduleIsSerial<D, Op>(apply: (Op, D) -> Outcome<D>, init: D, steps: seq<Step<Op>>)
    ensures var s := Run(apply, Fresh(init), steps);
            && s.file == Fold(apply, init, AllWrites(s))
            && forall i :: 0 <= i < |s.tasks| ==> Serial(apply, init, s, i)
  {
    assert Inv(apply, init, Fresh<D, Op>(init));
    RunKeepsInv(apply, init, Fresh(init), steps);
  }

  lemma {:induction false} QuietStep<D, Op>(apply: (Op, D) -> Outcome<D>, init: D, s: State<D, Op>, step: Step<Op>)
    requires Inv(apply, init, s) && !step.Finish? && !step.Crash?
    ensures AllWrites(Next(apply, s, step)) == AllWrites(s)
  {
    match step {
      case Call(op) =>
        var t := s.tasks + [Task(op, Waiting)];
        assert t[..|t| - 1] == s.tasks;
        assert Writes(t) == Writes(s.tasks);
      case Grant(i) =>
        if FM.Enabled(s.chain, FM.Grant(i)) {
          assert PcFitsTicket(s.tasks[i].pc, s.chain[i]);
          QuietMoveAll(s, i, Holding);
        }
      case Load(i) =>
        if i < |s.tasks| && s.tasks[i].pc.Holding? { QuietMoveAll(s, i, Loaded(s.file)); }
      case Fail(i) =>
        if i < |s.tasks| && Active(s.tasks[i].pc) { QuietMoveAll(s, i, Finished(IoFailed)); }
      case _ =>
    }
  }

  lemma {:induction false} StepExtendsWrites<D, Op>(apply: (Op, D) -> Outcome<D>, init: D, s: State<D, Op>, step: Step<Op>)
    requires Inv(apply, init, s)
    ensures AllWrites(s) <= AllWrites(Next(apply, s, step))
  {
    if step.Finish? {
      FinishExtendsWrites(apply, init, s, step.i);
    } else if step.Crash? {
      assert AllWrites(s) + [] == AllWrites(s);
    } else {
      QuietStep(apply, init, s, step);
    }
  }

  lemma {:induction false} FinishExtendsWrites<D, Op>(apply: (Op, D) -> Outcome<D>, init: D, s: State<D, Op>, i: nat)
    requires Inv(apply, init, s)
    ensures AllWrites(s) <= AllWrites(Next(apply, s, Finish(i)))
  {
    if i < |s.tasks| && s.tasks[i].pc.Loaded? {
      var ending := EndingOf(apply(s.tasks[i].op, s.file));
      LoadedIsAlone(apply, init, s, i);
      WritesAfterFinish(s.tasks, i, ending);
      FinishSetsPc(apply, s, i, ending);
    }
  }

  lemma {:induction false} FinishSetsPc<D, Op>(apply: (Op, D) -> Outcome<D>, s: State<D, Op>, i: nat, ending: Ending)
    requires i < |s.tasks| && s.tasks[i].pc.Loaded? && ending == EndingOf(apply(s.tasks[i].op, s.tasks[i].pc.doc))
    ensures var t := Next(apply, s, Finish(i));
            t.tasks == s.tasks[i := s.tasks[i].(pc := Finished(ending))] && t.durable == s.durable
  {
  }

  /** A lock-free read returns the document after some prefix of the final order: what is written
      later only extends the order the reader saw, so no write is ever lost. */
  lemma {:induction false} ReadsArePrefixes<D, Op>(apply: (Op, D) -> Outcome<D>, init: D, s: State<D, Op>, steps: seq<Step<Op>>)
    requires Inv(apply, init, s)
    ensures AllWrites(s) <= AllWrites(Run(apply, s, steps))
    ensures s.file == Fold(apply, init, AllWrites(Run(apply, s, steps))[..|AllWrites(s)|])
    decreases |steps|
  {
    if steps == [] {
      assert AllWrites(s)[..|AllWrites(s)|] == AllWrites(s);
    } else {
      var t := Next(apply, s, steps[0]);
      StepKeepsInv(apply, init, s, steps[0]);
      StepExtendsWrites(apply, init, s, steps[0]);
      ReadsArePrefixes(apply, init, t, steps[1..]);
      assert AllWrites(Run(apply, s, steps))[..|AllWrites(s)|] == AllWrites(s);
    }
  }

  /** A property that the initial document has and every operation keeps holds in every reachable state. */
  lemma {:induction false} PropertyHoldsInEverySchedule<D, Op(!new)>(
    apply: (Op, D) -> Outcome<D>, init: D, steps: seq<Step<Op>>, good: D -> bool)
    requires good(init)
    requires forall op: Op, d: D | good(d) && apply(op, d).Put? :: good(apply(op, d).doc)
    ensures good(Run(apply, Fresh(init), steps).file)
  {
    EveryScheduleIsSerial(apply, init, steps);
    FoldKeeps(apply, init, AllWrites(Run(apply, Fresh(init), steps)), good);
  }

  lemma {:induction false} FoldKeeps<D, Op(!new)>(apply: (Op, D) -> Outcome<D>, init: D, ops: seq<Op>, good: D -> bool)
    requires good(init)
    requires forall op: Op, d: D | good(d) && apply(op, d).Put? :: good(apply(op, d).doc)
    ensures good(Fold(apply, init, ops))
    decreases |ops|
  {
    if ops != [] {
      FoldKeeps(apply, init, ops[..|ops| - 1], good);
    }
  }
}
