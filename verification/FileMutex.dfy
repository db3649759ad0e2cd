/** The per-path promise-chain mutex, and the ticket queue it refines. */
module FileMutex {

  type Path = string

  /** One `acquire` call. `granted`: its `await previous` has continued and the caller has the release
      function. `released`: `own` is resolved. `settled`: `previous.then(() => own)` is resolved. */
  datatype Ticket = Ticket(granted: bool, released: bool, settled: bool)

  /** The calls made on one path, in call order. */
  type Chain = seq<Ticket>

  type Chains = map<Path, Chain>

  datatype Step = Acquire | Grant(i: nat) | Release(i: nat) | Settle(i: nat)

  function ChainOf(cs: Chains, p: Path): Chain {
    if p in cs then cs[p] else []
  }

  /** Is the promise that call `i` awaits resolved? The first call awaits `Promise.resolve()`. */
  predicate PreviousSettled(c: Chain, i: nat)
    requires i <= |c|
  {
    i == 0 || c[i - 1].settled
  }

  predicate Enabled(c: Chain, step: Step) {
    match step
    case Acquire => true
    case Grant(i) => i < |c| && !c[i].granted && PreviousSettled(c, i)
    case Release(i) => i < |c| && c[i].granted
    case Settle(i) => i < |c| && c[i].released && PreviousSettled(c, i)
  }

  function Next(c: Chain, step: Step): Chain
    requires Enabled(c, step)
  {
    match step
    case Acquire => c + [Ticket(false, false, false)]
    case Grant(i) => c[i := c[i].(granted := true)]
    case Release(i) => c[i := c[i].(released := true)]
    case Settle(i) => c[i := c[i].(settled := true)]
  }

  /** Some task takes a step on path `p`; steps that are not enabled do nothing. */
  function NextAll(cs: Chains, p: Path, step: Step): Chains {
    if Enabled(ChainOf(cs, p), step) then cs[p := Next(ChainOf(cs, p), step)] else cs
  }

  function Run(cs: Chains, steps: seq<(Path, Step)>): Chains
    decreases |steps|
  {
    if steps == [] then cs else Run(NextAll(cs, steps[0].0, steps[0].1), steps[1..])
  }

  // ----- the invariant ----------------------------------------------------

  predicate Valid(c: Chain) {
    forall i :: 0 <= i < |c| ==>
      && (c[i].granted ==> PreviousSettled(c, i))
      && (c[i].released ==> c[i].granted)
      && (c[i].settled ==> c[i].released && PreviousSettled(c, i))
  }

  ghost predicate ValidAll(cs: Chains) { forall p :: p in cs ==> Valid(cs[p]) }

  predicate Holds(c: Chain, i: nat) { i < |c| && c[i].granted && !c[i].released }

  lemma StepKeepsValid(c: Chain, step: Step)
    requires Valid(c) && Enabled(c, step)
    ensures Valid(Next(c, step))
  {
  }

  lemma {:induction false} RunKeepsValid(cs: Chains, steps: seq<(Path, Step)>)
    requires ValidAll(cs)
    ensures ValidAll(Run(cs, steps))
    decreases |steps|
  {
    if steps != [] {
      var (p, step) := steps[0];
      if Enabled(ChainOf(cs, p), step) { StepKeepsValid(ChainOf(cs, p), step); }
      RunKeepsValid(NextAll(cs, p, step), steps[1..]);
    }
  }

  lemma {:induction false} SettledBelow(c: Chain, i: nat, j: nat)
    requires Valid(c) && i <= j < |c| && c[j].settled
    ensures c[i].settled && c[i].released && c[i].granted
    decreases j
  {
    if i < j { SettledBelow(c, i, j - 1); }
  }

  /** Whoever was called before a granted call has been granted and has released. */
  lemma GrantedInOrder(c: Chain, i: nat, j: nat)
    requires Valid(c) && i < j < |c| && c[j].granted
    ensures c[i].granted && c[i].released
  {
    SettledBelow(c, i, j - 1);
  }

  /** In every schedule at most one call per path holds the lock, and grants follow call order. */
  lemma MutualExclusion(cs: Chains, steps: seq<(Path, Step)>, p: Path, i: nat, j: nat)
    requires ValidAll(cs)
    requires i < j < |ChainOf(Run(cs, steps), p)|
    ensures var c := ChainOf(Run(cs, steps), p);
            !(Holds(c, i) && Holds(c, j)) && (c[j].granted ==> c[i].granted && c[i].released)
  {
    RunKeepsValid(cs, steps);
    var c := ChainOf(Run(cs, steps), p);
    if c[j].granted { GrantedInOrder(c, i, j); }
  }

  predicate OnlyOther(steps: seq<(Path, Step)>, p: Path) {
    forall k :: 0 <= k < |steps| ==> steps[k].0 != p
  }

  /** Steps on other paths leave a path alone. */
  lemma {:induction false} PathsAreIndependent(cs: Chains, steps: seq<(Path, Step)>, p: Path)
    requires OnlyOther(steps, p)
    ensures ChainOf(Run(cs, steps), p) == ChainOf(cs, p)
    decreases |steps|
  {
    if steps != [] {
      PathsAreIndependent(NextAll(cs, steps[0].0, steps[0].1), steps[1..], p);
    }
  }

  // ----- the ticket queue -------------------------------------------------

  /** `total` calls were made, the first `served` were granted, and `held` says the last of those still holds. */
  datatype Queue = Queue(total: nat, served: nat, held: bool)

  datatype QueueStep = Enqueue | Serve | Free | Stutter

  predicate QueueNext(q: Queue, step: QueueStep, r: Queue) {
    match step
    case Enqueue => r == q.(total := q.total + 1)
    case Serve => !q.held && q.served < q.total && r == q.(served := q.served + 1, held := true)
    case Free => q.held && r == q.(held := false)
    case Stutter => r == q
  }

  function Served(c: Chain): nat {
    if c == [] then 0 else Served(c[..|c| - 1]) + (if c[|c| - 1].granted then 1 else 0)
  }

  function View(c: Chain): Queue {
    Queue(|c|, Served(c), exists i :: 0 <= i < |c| && Holds(c, i))
  }

  lemma {:induction false} ServedIsPrefix(c: Chain)
    requires forall i, j :: 0 <= i < j < |c| && c[j].granted ==> c[i].granted
    ensures Served(c) <= |c|
    ensures forall i :: 0 <= i < |c| ==> (c[i].granted <==> i < Served(c))
  {
    if c != [] {
      var d := c[..|c| - 1];
      ServedIsPrefix(d);
      if c[|c| - 1].granted {
        forall i | 0 <= i < |d| ensures d[i].granted { }
        if d != [] { assert d[|d| - 1].granted; }
      }
    }
  }

  lemma ViewOfValid(c: Chain)
    requires Valid(c)
    ensures View(c).served <= |c|
    ensures forall i :: 0 <= i < |c| ==> (c[i].granted <==> i < View(c).served)
    ensures View(c).held <==> View(c).served > 0 && !c[View(c).served - 1].released
  {
    forall i, j | 0 <= i < j < |c| && c[j].granted ensures c[i].granted && c[i].released {
      GrantedInOrder(c, i, j);
    }
    ServedIsPrefix(c);
    var n := Served(c);
    if n > 0 && !c[n - 1].released { assert Holds(c, n - 1); }
  }

  function Abstract(c: Chain, step: Step): QueueStep
    requires Enabled(c, step)
  {
    match step
    case Acquire => Enqueue
    case Grant(i) => Serve
    case Release(i) => if c[i].released then Stutter else Free
    case Settle(i) => Stutter
  }

  /** Only the first call not yet granted can be granted, and only while nobody holds the lock. */
  lemma GrantIsHead(c: Chain, i: nat)
    requires Valid(c) && Enabled(c, Grant(i))
    ensures i == View(c).served && !View(c).held
  {
    ViewOfValid(c);
    if i > 0 {
      SettledBelow(c, i - 1, i - 1);
    }
  }

  /** Every step of the promise chain is a step of the ticket queue. */
  lemma RefinesTicketQueue(c: Chain, step: Step)
    requires Valid(c) && Enabled(c, step)
    ensures QueueNext(View(c), Abstract(c, step), View(Next(c, step)))
  {
    var d := Next(c, step);
    StepKeepsValid(c, step);
    ViewOfValid(c);
    ViewOfValid(d);
    var n, m := View(c).served, View(d).served;
    match step {
      case Acquire => SameServed(c, d, n, m);
      case Grant(i) =>
        GrantIsHead(c, i);
        assert d[i].granted && (i + 1 < |d| ==> !d[i + 1].granted);
      case Release(i) =>
        SameServed(c, d, n, m);
        if i < n - 1 { GrantedInOrder(c, i, n - 1); }
      case Settle(i) => SameServed(c, d, n, m);
    }
  }

  /** With a request for each call, those not yet granted form a first-in-first-out queue: a call joins at the
      end, and a grant takes the head while nobody holds the lock. */
  lemma QueueIsFifo<R>(c: Chain, reqs: seq<R>, step: Step, r: R)
    requires Valid(c) && Enabled(c, step) && |reqs| == |c|
    ensures View(c).served <= |c|
    ensures var queue, served := reqs[View(c).served..], View(Next(c, step)).served;
            match step
            case Acquire => served <= |c| + 1 && (reqs + [r])[served..] == queue + [r]
            case Grant(i) =>
              && queue != [] && reqs[i] == queue[0] && served <= |c| && reqs[served..] == queue[1..]
              && !View(c).held && View(Next(c, step)).held
            case _ => served <= |c| && reqs[served..] == queue
  {
    ViewOfValid(c);
    RefinesTicketQueue(c, step);
    if step.Grant? { GrantIsHead(c, step.i); }
  }

  lemma SameServed(c: Chain, d: Chain, n: nat, m: nat)
    requires |c| <= |d| && n <= |c| && m <= |d|
    requires forall i :: 0 <= i < |c| ==> (c[i].granted <==> i < n) && (d[i].granted <==> i < m) && c[i].granted == d[i].granted
    requires forall i :: |c| <= i < |d| ==> !d[i].granted && (d[i].granted <==> i < m)
    ensures n == m
  {
    if n < |c| { assert c[n].granted == d[n].granted; }
    if m < |c| { assert c[m].granted == d[m].granted; }
    if |c| < |d| { assert !d[|c|].granted; }
  }

  // ----- progress ---------------------------------------------------------

  /** Settles calls `0 .. n - 1`. */
  function SettleAll(c: Chain, n: nat): Chain
    requires n <= |c|
    ensures |SettleAll(c, n)| == |c|
  {
    if n == 0 then c else var d := SettleAll(c, n - 1); d[n - 1 := d[n - 1].(settled := true)]
  }

  lemma {:induction false} SettleAllIsRun(cs: Chains, p: Path, n: nat) returns (steps: seq<(Path, Step)>)
    requires n <= |ChainOf(cs, p)|
    requires forall i :: 0 <= i < n ==> ChainOf(cs, p)[i].released
    ensures |steps| == n && forall k :: 0 <= k < n ==> steps[k] == (p, Settle(k))
    ensures ChainOf(Run(cs, steps), p) == SettleAll(ChainOf(cs, p), n)
    ensures n > 0 ==> ChainOf(Run(cs, steps), p)[n - 1].settled
    ensures forall i :: 0 <= i < |ChainOf(cs, p)| ==> ChainOf(Run(cs, steps), p)[i].released == ChainOf(cs, p)[i].released
    ensures forall i :: 0 <= i < |ChainOf(cs, p)| ==> ChainOf(Run(cs, steps), p)[i].granted == ChainOf(cs, p)[i].granted
  {
    if n == 0 {
      steps := [];
    } else {
      var before := SettleAllIsRun(cs, p, n - 1);
      var mid := Run(cs, before);
      steps := before + [(p, Settle(n - 1))];
      RunConcat(cs, before, [(p, Settle(n - 1))]);
      assert Run(mid, [(p, Settle(n - 1))]) == NextAll(mid, p, Settle(n - 1)) by {
        assert [(p, Settle(n - 1))][1..] == [];
      }
    }
  }

  lemma {:induction false} RunConcat(cs: Chains, a: seq<(Path, Step)>, b: seq<(Path, Step)>)
    ensures Run(cs, a + b) == Run(Run(cs, a), b)
    decreases |a|
  {
    if a == [] {
      assert a + b == b;
    } else {
      assert (a + b)[1..] == a[1..] + b;
      RunConcat(NextAll(cs, a[0].0, a[0].1), a[1..], b);
    }
  }

  /** Whenever nobody holds a path that has waiters, finitely many promise reactions, and no step of
      any other caller, enable its head waiter. */
  lemma HeadWaiterCanProceed(cs: Chains, p: Path) returns (steps: seq<(Path, Step)>)
    requires Valid(ChainOf(cs, p)) && !View(ChainOf(cs, p)).held && View(ChainOf(cs, p)).served < |ChainOf(cs, p)|
    ensures |steps| == View(ChainOf(cs, p)).served
    ensures forall k :: 0 <= k < |steps| ==> steps[k] == (p, Settle(k))
    ensures Enabled(ChainOf(Run(cs, steps), p), Grant(View(ChainOf(cs, p)).served))
  {
    var c := ChainOf(cs, p);
    var n := View(c).served;
    ViewOfValid(c);
    forall i | 0 <= i < n ensures c[i].released {
      if i < n - 1 { GrantedInOrder(c, i, n - 1); }
    }
    steps := SettleAllIsRun(cs, p, n);
  }

  // ----- the class --------------------------------------------------------

  class Mutex {
    var chains: Chains

    ghost predicate Valid()
      reads this
    {
      ValidAll(chains)
    }

    constructor ()
      ensures Valid() && chains == map[]
    {
      chains := map[];
    }

    /** The synchronous part of `acquire`. */
    method Enter(path: Path) returns (i: nat)
      requires Valid()
      modifies this
      ensures Valid() && chains == NextAll(old(chains), path, Acquire)
      ensures i == |ChainOf(old(chains), path)|
    {
      var previous := ChainOf(chains, path);
      i := |previous|;
      chains := chains[path := previous + [Ticket(false, false, false)]];
      StepKeepsValid(previous, Acquire);
    }

    /** `await previous` continues; the caller now holds the lock, alone. */
    method Continue(path: Path, i: nat)
      requires Valid() && Enabled(ChainOf(chains, path), Grant(i))
      modifies this
      ensures Valid() && chains == NextAll(old(chains), path, Grant(i))
      ensures forall j :: 0 <= j < |ChainOf(chains, path)| ==> (Holds(ChainOf(chains, path), j) <==> j == i)
    {
      var c := ChainOf(chains, path);
      StepKeepsValid(c, Grant(i));
      GrantIsHead(c, i);
      ViewOfValid(c);
      chains := chains[path := c[i := c[i].(granted := true)]];
      var d := ChainOf(chains, path);
      assert Holds(d, i) by {
        assert !c[i].granted;
      }
      forall j | 0 <= j < |d| && j != i ensures !Holds(d, j) {
        assert d[j] == c[j];
        assert !Holds(c, j);
      }
    }

    /** The release function handed to call `i`. */
    method Release(path: Path, i: nat)
      requires Valid() && Enabled(ChainOf(chains, path), Step.Release(i))
      modifies this
      ensures Valid() && chains == NextAll(old(chains), path, Step.Release(i))
      ensures !Holds(ChainOf(chains, path), i)
    {
      var c := ChainOf(chains, path);
      StepKeepsValid(c, Step.Release(i));
      chains := chains[path := c[i := c[i].(released := true)]];
    }
  }
}
