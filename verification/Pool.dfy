/** `ConnectionPool` under every schedule of its synchronous stretches. */
module Pool {
  import opened Wrappers

  type Id = string

  datatype Entry = Entry(id: Id, conn: nat, lastUsedAt: int)

  /** Where a `getConnection` call waits. A call that settles leaves the table. */
  datatype Task =
    | Evicting(id: Id)               // its stale entry is deleted, the disconnect is awaited
    | MakingRoom(id: Id)             // past the capacity check, the LRU victim's disconnect is awaited
    | Connecting(id: Id, conn: nat)  // `connect` is awaited
    | Recording(id: Id, conn: nat)   // the entry is set, the audit append is awaited
    | Failing(id: Id)                // `connect` has thrown
    | Joined(creator: nat)           // awaits the promise of another call

  datatype Outcome = Got(conn: nat) | Threw

  datatype Config = Config(maxConnections: int, idleTimeout: int)

  /** `entries` is in the map's insertion order. `past` holds the creations between the capacity check and
      `entries.set`; `born` (every connection whose `connect` succeeded), `disconnected` and `lost` record every connection's fate. */
  datatype State = State(
    entries: seq<Entry>, inflight: map<Id, nat>, tasks: map<nat, Task>, results: map<nat, Outcome>, now: int,
    past: set<nat>, born: set<nat>, disconnected: set<nat>, lost: set<nat>, nextConn: nat)

  datatype Step =
    | Tick(ms: nat)
    | Start(t: nat, id: Id)            // a call of `getConnection`
    | Resume(t: nat)                   // a disconnect has finished
    | Connected(t: nat)
    | Refused(t: nat)
    | Settle(t: nat, recorded: bool)   // the creation's promise settles and `inflight` is cleared
    | Wake(t: nat)                     // a joined call continues
    | Touch(id: Id)                    // `release`
    | Reap(id: Id)                     // one turn of `reapIdle`
    | Close(id: Id)                    // one turn of `closeAll`

  const EMPTY := State([], map[], map[], map[], 0, {}, {}, {}, {}, 0)

  // ----- the entry map ----------------------------------------------------

  predicate UniqueIds(es: seq<Entry>) { forall i, j :: 0 <= i < j < |es| ==> es[i].id != es[j].id }

  /** Where `id` is, or -1. */
  function Pos(es: seq<Entry>, id: Id): (k: int)
    ensures -1 <= k < |es|
    ensures k >= 0 ==> es[k].id == id
    ensures k == -1 ==> forall i :: 0 <= i < |es| ==> es[i].id != id
  {
    if es == [] then -1
    else if es[|es| - 1].id == id then |es| - 1
    else Pos(es[..|es| - 1], id)
  }

  predicate Has(es: seq<Entry>, id: Id) { exists i :: 0 <= i < |es| && es[i].id == id }

  function Without(es: seq<Entry>, k: nat): seq<Entry>
    requires k < |es|
  {
    es[..k] + es[k + 1..]
  }

  /** `Map.set`: an existing key keeps its place. */
  function Put(es: seq<Entry>, e: Entry): seq<Entry> {
    var k := Pos(es, e.id);
    if k >= 0 then es[k := e] else es + [e]
  }

  /** The scan of `evictLRU`. */
  function Oldest(es: seq<Entry>): (k: nat)
    requires es != []
    ensures k < |es|
    ensures forall i :: 0 <= i < |es| ==> es[k].lastUsedAt <= es[i].lastUsedAt
    ensures forall i :: 0 <= i < k ==> es[k].lastUsedAt < es[i].lastUsedAt
  {
    var n := |es| - 1;
    if n == 0 then 0
    else
      var k := Oldest(es[..n]);
      if es[n].lastUsedAt < es[k].lastUsedAt then n else k
  }

  predicate Stale(c: Config, now: int, e: Entry) { now - e.lastUsedAt > c.idleTimeout }

  // ----- the steps --------------------------------------------------------

  /** Delete entry `k` and call its `disconnect`. */
  function Drop(s: State, k: nat): State
    requires k < |s.entries|
  {
    s.(entries := Without(s.entries, k), disconnected := s.disconnected + {s.entries[k].conn})
  }

  /** `factory(id)` and the call of `connect`. */
  function Dial(s: State, t: nat, id: Id): State {
    s.(tasks := s.tasks[t := Connecting(id, s.nextConn)], nextConn := s.nextConn + 1)
  }

  /** `getConnection` from its look at `inflight` on. */
  function Create(c: Config, s: State, t: nat, id: Id): State {
    if id in s.inflight then s.(tasks := s.tasks[t := Joined(s.inflight[id])])
    else
      var s1 := s.(inflight := s.inflight[id := t], past := s.past + {t});
      if |s.entries| < c.maxConnections then Dial(s1, t, id)
      else
        var s2 := s1.(tasks := s1.tasks[t := MakingRoom(id)]);
        if s.entries == [] then s2 else Drop(s2, Oldest(s.entries))
  }

  /** `getConnection` when its id has the entry `k`: hand out a fresh one, evict a stale one. */
  function Found(c: Config, s: State, t: nat, id: Id, k: nat): State
    requires k < |s.entries|
  {
    if !Stale(c, s.now, s.entries[k]) then
      s.(entries := s.entries[k := s.entries[k].(lastUsedAt := s.now)], results := s.results[t := Got(s.entries[k].conn)])
    else Drop(s.(tasks := s.tasks[t := Evicting(id)]), k)
  }

  function Begin(c: Config, s: State, t: nat, id: Id): State {
    var k := Pos(s.entries, id);
    if k < 0 then Create(c, s, t, id) else Found(c, s, t, id, k)
  }

  predicate Enabled(s: State, step: Step) {
    match step
    case Start(t, _) => t !in s.tasks && t !in s.results
    case Resume(t) => t in s.tasks && (s.tasks[t].Evicting? || s.tasks[t].MakingRoom?)
    case Connected(t) => t in s.tasks && s.tasks[t].Connecting?
    case Refused(t) => t in s.tasks && s.tasks[t].Connecting?
    case Settle(t, _) => t in s.tasks && (s.tasks[t].Recording? || s.tasks[t].Failing?)
    case Wake(t) => t in s.tasks && s.tasks[t].Joined? && s.tasks[t].creator in s.results
    case _ => true
  }

  function Finish(s: State, t: nat, o: Outcome): State {
    s.(tasks := s.tasks - {t}, results := s.results[t := o])
  }

  /** `entries.set` after a successful `connect`. */
  function Install(s: State, t: nat, id: Id, conn: nat): State {
    var k := Pos(s.entries, id);
    s.(entries := Put(s.entries, Entry(id, conn, s.now)),
       tasks := s.tasks[t := Recording(id, conn)],
       past := s.past - {t},
       born := s.born + {conn},
       lost := if k >= 0 then s.lost + {s.entries[k].conn} else s.lost)
  }

  function Next(c: Config, s: State, step: Step): State
    requires Enabled(s, step)
  {
    match step
    case Tick(ms) => s.(now := s.now + ms)
    case Start(t, id) => Begin(c, s, t, id)
    case Resume(t) => if s.tasks[t].Evicting? then Create(c, s, t, s.tasks[t].id) else Dial(s, t, s.tasks[t].id)
    case Connected(t) => Install(s, t, s.tasks[t].id, s.tasks[t].conn)
    case Refused(t) => s.(tasks := s.tasks[t := Failing(s.tasks[t].id)], past := s.past - {t})
    case Settle(t, recorded) =>
      Finish(s.(inflight := s.inflight - {s.tasks[t].id}), t,
             if s.tasks[t].Recording? && recorded then Got(s.tasks[t].conn) else Threw)
    case Wake(t) => Finish(s, t, s.results[s.tasks[t].creator])
    case Touch(id) =>
      var k := Pos(s.entries, id);
      if k < 0 then s else s.(entries := s.entries[k := s.entries[k].(lastUsedAt := s.now)])
    case Reap(id) =>
      var k := Pos(s.entries, id);
      if k < 0 || !Stale(c, s.now, s.entries[k]) then s else Drop(s, k)
    case Close(id) =>
      var k := Pos(s.entries, id);
      if k < 0 then s else Drop(s, k)
  }

  // ----- one creation per id ----------------------------------------------

  predicate Creates(task: Task) { !task.Evicting? && !task.Joined? }

  predicate PastCheck(task: Task) { task.MakingRoom? || task.Connecting? }

  /** `inflight` maps an id to the one task creating it, and a joined call waits for a creation. */
  ghost predicate Registered(inflight: map<Id, nat>, tasks: map<nat, Task>, results: map<nat, Outcome>) {
    && (forall id :: id in inflight ==> inflight[id] in tasks && CreatesFor(tasks[inflight[id]], id))
    && (forall t :: t in tasks && Creates(tasks[t]) ==> tasks[t].id in inflight && inflight[tasks[t].id] == t)
    && (forall t :: t in tasks && tasks[t].Joined? ==> Answered(tasks, results, tasks[t].creator))
    && (forall t :: t in tasks ==> t !in results)
  }

  predicate CreatesFor(task: Task, id: Id) { Creates(task) && task.id == id }

  predicate Answered(tasks: map<nat, Task>, results: map<nat, Outcome>, creator: nat) {
    creator in results || (creator in tasks && Creates(tasks[creator]))
  }

  ghost predicate Counted(past: set<nat>, tasks: map<nat, Task>) {
    forall t :: t in past <==> t in tasks && PastCheck(tasks[t])
  }

  /** A task that is no creation starts or goes on to wait. */
  lemma {:induction false} WaitKeeps(inflight: map<Id, nat>, tasks: map<nat, Task>, results: map<nat, Outcome>,
                                     past: set<nat>, t: nat, task: Task)
    requires Registered(inflight, tasks, results) && Counted(past, tasks)
    requires t !in results && (t in tasks ==> tasks[t].Evicting?)
    requires task.Evicting? || (task.Joined? && Answered(tasks, results, task.creator))
    ensures Registered(inflight, tasks[t := task], results) && Counted(past, tasks[t := task])
  {
  }

  lemma {:induction false} CreationKeeps(inflight: map<Id, nat>, tasks: map<nat, Task>, results: map<nat, Outcome>,
                                         past: set<nat>, t: nat, task: Task)
    requires Registered(inflight, tasks, results) && Counted(past, tasks)
    requires t !in results && (t in tasks ==> tasks[t].Evicting?)
    requires PastCheck(task) && task.id !in inflight
    ensures Registered(inflight[task.id := t], tasks[t := task], results) && Counted(past + {t}, tasks[t := task])
  {
  }

  lemma {:induction false} AdvanceKeeps(inflight: map<Id, nat>, tasks: map<nat, Task>, results: map<nat, Outcome>,
                                        past: set<nat>, t: nat, task: Task)
    requires Registered(inflight, tasks, results) && Counted(past, tasks)
    requires t in tasks && PastCheck(tasks[t]) && Creates(task) && task.id == tasks[t].id
    ensures Registered(inflight, tasks[t := task], results)
    ensures Counted(if PastCheck(task) then past else past - {t}, tasks[t := task])
  {
  }

  lemma {:induction false} SettleKeeps(inflight: map<Id, nat>, tasks: map<nat, Task>, results: map<nat, Outcome>,
                                       past: set<nat>, t: nat, o: Outcome)
    requires Registered(inflight, tasks, results) && Counted(past, tasks)
    requires t in tasks && (tasks[t].Recording? || tasks[t].Failing?)
    ensures Registered(inflight - {tasks[t].id}, tasks - {t}, results[t := o]) && Counted(past, tasks - {t})
  {
  }

  lemma {:induction false} WakeKeeps(inflight: map<Id, nat>, tasks: map<nat, Task>, results: map<nat, Outcome>,
                                     past: set<nat>, t: nat, o: Outcome)
    requires Registered(inflight, tasks, results) && Counted(past, tasks)
    requires t in tasks && tasks[t].Joined?
    ensures Registered(inflight, tasks - {t}, results[t := o]) && Counted(past, tasks - {t})
  {
  }

  lemma {:induction false} HitKeeps(inflight: map<Id, nat>, tasks: map<nat, Task>, results: map<nat, Outcome>,
                                    t: nat, o: Outcome)
    requires Registered(inflight, tasks, results) && t !in tasks
    ensures Registered(inflight, tasks, results[t := o])
  {
  }

  ghost predicate Booked(s: State) { Registered(s.inflight, s.tasks, s.results) && Counted(s.past, s.tasks) }

  lemma {:induction false} CreateKeepsBooked(c: Config, s: State, t: nat, id: Id)
    requires Booked(s) && t !in s.results && (t in s.tasks ==> s.tasks[t].Evicting?)
    ensures Booked(Create(c, s, t, id))
  {
    if id in s.inflight {
      WaitKeeps(s.inflight, s.tasks, s.results, s.past, t, Joined(s.inflight[id]));
    } else {
      CreationKeeps(s.inflight, s.tasks, s.results, s.past, t, Connecting(id, s.nextConn));
      CreationKeeps(s.inflight, s.tasks, s.results, s.past, t, MakingRoom(id));
    }
  }

  lemma {:induction false} FoundKeepsBooked(c: Config, s: State, t: nat, id: Id, k: nat)
    requires Booked(s) && Enabled(s, Start(t, id)) && k < |s.entries|
    ensures Booked(Found(c, s, t, id, k))
  {
    HitKeeps(s.inflight, s.tasks, s.results, t, Got(s.entries[k].conn));
    WaitKeeps(s.inflight, s.tasks, s.results, s.past, t, Evicting(id));
  }

  lemma {:induction false} TaskKeepsBooked(c: Config, s: State, t: nat, step: Step)
    requires Booked(s) && Enabled(s, step) && (step == Resume(t) || step == Connected(t) || step == Refused(t))
    ensures Booked(Next(c, s, step))
  {
    if s.tasks[t].Evicting? {
      CreateKeepsBooked(c, s, t, s.tasks[t].id);
    } else {
      AdvanceKeeps(s.inflight, s.tasks, s.results, s.past, t, Next(c, s, step).tasks[t]);
    }
  }

  lemma {:induction false} StepKeepsBooked(c: Config, s: State, step: Step)
    requires Booked(s) && Enabled(s, step)
    ensures Booked(Next(c, s, step))
  {
    match step {
      case Start(t, id) =>
        if Pos(s.entries, id) < 0 { CreateKeepsBooked(c, s, t, id); } else { FoundKeepsBooked(c, s, t, id, Pos(s.entries, id)); }
      case Resume(t) => TaskKeepsBooked(c, s, t, step);
      case Connected(t) => TaskKeepsBooked(c, s, t, step);
      case Refused(t) => TaskKeepsBooked(c, s, t, step);
      case Settle(t, _) => SettleKeeps(s.inflight, s.tasks, s.results, s.past, t, Next(c, s, step).results[t]);
      case Wake(t) => WakeKeeps(s.inflight, s.tasks, s.results, s.past, t, Next(c, s, step).results[t]);
      case _ =>
    }
  }

  // ----- every connection's fate ------------------------------------------

  ghost predicate InPool(es: seq<Entry>, conn: nat) { exists i :: 0 <= i < |es| && es[i].conn == conn }

  ghost predicate DistinctConns(es: seq<Entry>) { forall i, j :: 0 <= i < j < |es| ==> es[i].conn != es[j].conn }

  /** The opened connections are exactly those in the pool, those disconnected and those lost, with no overlap. */
  ghost predicate Conserved(s: State) {
    && DistinctConns(s.entries)
    && s.disconnected <= s.born && s.lost <= s.born && s.disconnected !! s.lost
    && (forall i :: 0 <= i < |s.entries| ==>
          s.entries[i].conn in s.born && s.entries[i].conn !in s.disconnected && s.entries[i].conn !in s.lost)
    && (forall conn :: conn in s.born ==> conn in s.disconnected || conn in s.lost || InPool(s.entries, conn))
  }

  /** Connections being dialled are new; results name opened connections. */
  ghost predicate FreshDials(s: State) {
    Dials(s.tasks, s.born, s.nextConn) && Opened(s.tasks, s.results, s.born)
  }

  ghost predicate Dials(tasks: map<nat, Task>, born: set<nat>, nextConn: nat) {
    && (forall conn :: conn in born ==> conn < nextConn)
    && (forall t :: t in tasks && tasks[t].Connecting? ==> tasks[t].conn < nextConn && tasks[t].conn !in born)
    && (forall t, u :: t in tasks && u in tasks && t != u && tasks[t].Connecting? && tasks[u].Connecting? ==>
          tasks[t].conn != tasks[u].conn)
  }

  ghost predicate Opened(tasks: map<nat, Task>, results: map<nat, Outcome>, born: set<nat>) {
    && (forall t :: t in tasks && tasks[t].Recording? ==> tasks[t].conn in born)
    && (forall t :: t in results && results[t].Got? ==> results[t].conn in born)
  }

  lemma {:induction false} DropKeeps(s: State, k: nat)
    requires UniqueIds(s.entries) && Conserved(s) && k < |s.entries|
    ensures UniqueIds(Drop(s, k).entries) && Conserved(Drop(s, k))
    ensures !Has(Drop(s, k).entries, s.entries[k].id)
    ensures forall id :: Has(Drop(s, k).entries, id) ==> Has(s.entries, id)
  {
    WithoutKeeps(s.entries, k);
    DroppedIsConserved(s, Without(s.entries, k), k);
  }

  lemma {:induction false} WithoutKeeps(es: seq<Entry>, k: nat)
    requires UniqueIds(es) && DistinctConns(es) && k < |es|
    ensures var fs := Without(es, k);
            && UniqueIds(fs) && DistinctConns(fs) && !Has(fs, es[k].id)
            && (forall id :: Has(fs, id) ==> Has(es, id))
            && (forall conn :: InPool(fs, conn) <==> InPool(es, conn) && conn != es[k].conn)
  {
    var fs := Without(es, k);
    forall i | 0 <= i < |fs| ensures fs[i] == es[if i < k then i else i + 1] { }
    forall conn | InPool(es, conn) && conn != es[k].conn ensures InPool(fs, conn) {
      var i :| 0 <= i < |es| && es[i].conn == conn;
      assert fs[if i < k then i else i - 1] == es[i];
    }
  }

  lemma {:induction false} DroppedIsConserved(s: State, fs: seq<Entry>, k: nat)
    requires Conserved(s) && k < |s.entries| && fs == Without(s.entries, k) && DistinctConns(fs)
    requires forall conn :: InPool(fs, conn) <==> InPool(s.entries, conn) && conn != s.entries[k].conn
    ensures Conserved(Drop(s, k))
  {
    forall i | 0 <= i < |fs| ensures InPool(fs, fs[i].conn) { }
  }

  lemma {:induction false} TouchKeeps(s: State, t: State, k: nat)
    requires UniqueIds(s.entries) && Conserved(s) && k < |s.entries|
    requires t.entries == s.entries[k := s.entries[k].(lastUsedAt := s.now)]
    requires t.born == s.born && t.disconnected == s.disconnected && t.lost == s.lost
    ensures UniqueIds(t.entries) && Conserved(t)
    ensures forall id :: Has(t.entries, id) <==> Has(s.entries, id)
  {
    forall conn | InPool(s.entries, conn) ensures InPool(t.entries, conn) {
      var i :| 0 <= i < |s.entries| && s.entries[i].conn == conn;
      assert t.entries[i].conn == conn;
    }
    forall id | Has(s.entries, id) ensures Has(t.entries, id) {
      var i :| 0 <= i < |s.entries| && s.entries[i].id == id;
      assert t.entries[i].id == id;
    }
  }

  lemma {:induction false} InstallKeeps(s: State, t: nat, id: Id, conn: nat)
    requires UniqueIds(s.entries) && Conserved(s) && conn !in s.born
    ensures UniqueIds(Install(s, t, id, conn).entries) && Conserved(Install(s, t, id, conn))
    ensures forall other :: Has(Install(s, t, id, conn).entries, other) ==> other == id || Has(s.entries, other)
  {
    var es, u := s.entries, Install(s, t, id, conn);
    var k := Pos(es, id);
    var at := if k >= 0 then k else |es|;
    assert u.entries[at].conn == conn;
    forall other | InPool(es, other) && !(k >= 0 && other == es[k].conn) ensures InPool(u.entries, other) {
      var i :| 0 <= i < |es| && es[i].conn == other;
      assert u.entries[i].conn == other;
    }
  }

  lemma {:induction false} CreateKeepsConserved(c: Config, s: State, t: nat, id: Id)
    requires UniqueIds(s.entries) && Conserved(s)
    ensures UniqueIds(Create(c, s, t, id).entries) && Conserved(Create(c, s, t, id))
  {
    if s.entries != [] { DropKeeps(s, Oldest(s.entries)); }
  }

  lemma {:induction false} CreateKeepsDials(c: Config, s: State, t: nat, id: Id)
    requires FreshDials(s)
    ensures FreshDials(Create(c, s, t, id))
  {
  }

  lemma {:induction false} FoundKeepsConserved(c: Config, s: State, t: nat, id: Id, k: nat)
    requires UniqueIds(s.entries) && Conserved(s) && FreshDials(s) && k < |s.entries|
    ensures var u := Found(c, s, t, id, k); UniqueIds(u.entries) && Conserved(u) && FreshDials(u)
  {
    if Stale(c, s.now, s.entries[k]) { DropKeeps(s, k); } else { TouchKeeps(s, Found(c, s, t, id, k), k); }
  }

  lemma {:induction false} TaskKeepsConserved(c: Config, s: State, t: nat, step: Step)
    requires UniqueIds(s.entries) && Conserved(s) && FreshDials(s) && Enabled(s, step)
    requires step == Resume(t) || step == Connected(t) || step == Refused(t)
    ensures UniqueIds(Next(c, s, step).entries) && Conserved(Next(c, s, step)) && FreshDials(Next(c, s, step))
  {
    match step {
      case Resume(_) =>
        CreateKeepsConserved(c, s, t, s.tasks[t].id);
        CreateKeepsDials(c, s, t, s.tasks[t].id);
      case Connected(_) => InstallKeeps(s, t, s.tasks[t].id, s.tasks[t].conn);
      case Refused(_) =>
    }
  }

  lemma {:induction false} EntryKeepsConserved(c: Config, s: State, id: Id, step: Step)
    requires UniqueIds(s.entries) && Conserved(s) && FreshDials(s)
    requires step == Touch(id) || step == Reap(id) || step == Close(id)
    ensures UniqueIds(Next(c, s, step).entries) && Conserved(Next(c, s, step)) && FreshDials(Next(c, s, step))
  {
    var k := Pos(s.entries, id);
    if k >= 0 {
      DropKeeps(s, k);
      if step.Touch? { TouchKeeps(s, Next(c, s, step), k); }
    }
  }

  lemma {:induction false} StepKeepsConserved(c: Config, s: State, step: Step)
    requires UniqueIds(s.entries) && Conserved(s) && FreshDials(s) && Enabled(s, step)
    ensures UniqueIds(Next(c, s, step).entries) && Conserved(Next(c, s, step)) && FreshDials(Next(c, s, step))
  {
    match step {
      case Start(t, id) =>
        if Pos(s.entries, id) < 0 {
          CreateKeepsConserved(c, s, t, id);
          CreateKeepsDials(c, s, t, id);
        } else {
          FoundKeepsConserved(c, s, t, id, Pos(s.entries, id));
        }
      case Resume(t) => TaskKeepsConserved(c, s, t, step);
      case Connected(t) => TaskKeepsConserved(c, s, t, step);
      case Refused(t) => TaskKeepsConserved(c, s, t, step);
      case Touch(id) => EntryKeepsConserved(c, s, id, step);
      case Reap(id) => EntryKeepsConserved(c, s, id, step);
      case Close(id) => EntryKeepsConserved(c, s, id, step);
      case _ =>
    }
  }

  // ----- whole runs -------------------------------------------------------

  ghost predicate Inv(s: State) {
    UniqueIds(s.entries) && Conserved(s) && FreshDials(s) && Booked(s)
  }

  predicate Valid(c: Config, s: State, steps: seq<Step>)
    decreases |steps|
  {
    steps == [] || (Enabled(s, steps[0]) && Valid(c, Next(c, s, steps[0]), steps[1..]))
  }

  function Run(c: Config, s: State, steps: seq<Step>): State
    requires Valid(c, s, steps)
    decreases |steps|
  {
    if steps == [] then s else Run(c, Next(c, s, steps[0]), steps[1..])
  }

  lemma {:induction false} StepKeepsInv(c: Config, s: State, step: Step)
    requires Inv(s) && Enabled(s, step)
    ensures Inv(Next(c, s, step))
  {
    StepKeepsBooked(c, s, step);
    StepKeepsConserved(c, s, step);
  }

  lemma {:induction false} RunKeepsInv(c: Config, s: State, steps: seq<Step>)
    requires Inv(s) && Valid(c, s, steps)
    ensures Inv(Run(c, s, steps))
    decreases |steps|
  {
    if steps != [] {
      StepKeepsInv(c, s, steps[0]);
      RunKeepsInv(c, Next(c, s, steps[0]), steps[1..]);
    }
  }

  /** In every schedule an id has at most one creation at a time, every connection ever opened is in the
      pool, disconnected or lost, exactly one of the three, and every connection handed out was opened. */
  lemma {:induction false} EverySchedule(c: Config, steps: seq<Step>)
    requires Valid(c, EMPTY, steps)
    ensures var s := Run(c, EMPTY, steps);
            && (forall t, u, id :: t in s.tasks && u in s.tasks && CreatesFor(s.tasks[t], id) && CreatesFor(s.tasks[u], id) ==> t == u)
            && (forall conn :: conn in s.born <==> InPool(s.entries, conn) || conn in s.disconnected || conn in s.lost)
            && (forall conn :: conn in s.disconnected || conn in s.lost ==> !InPool(s.entries, conn))
            && s.disconnected !! s.lost
            && (forall t :: t in s.results && s.results[t].Got? ==> s.results[t].conn in s.born)
  {
    RunKeepsInv(c, EMPTY, steps);
  }

  // ----- the capacity -----------------------------------------------------

  function Load(s: State): nat { |s.entries| + |s.past| }

  /** The call a step belongs to, if it passes or leaves the check. */
  function Mover(step: Step): nat {
    match step
    case Start(t, _) => t
    case Resume(t) => t
    case Connected(t) => t
    case Refused(t) => t
    case _ => 0
  }

  /** What a step does to the pool's size and to the creations past the check: nothing or fewer entries; one
      creation more, below the cap or with an entry evicted for it; or one fewer, which may set an entry. */
  predicate Moves(c: Config, s: State, u: State, t: nat) {
    || (u.past == s.past && |u.entries| <= |s.entries|)
    || (t !in s.past && u.past == s.past + {t}
        && (|u.entries| < |s.entries| || (|u.entries| == |s.entries| && |s.entries| < c.maxConnections)))
    || (t in s.past && u.past == s.past - {t} && |u.entries| <= |s.entries| + 1)
  }

  lemma {:induction false} CreateMoves(c: Config, s: State, t: nat, id: Id)
    requires c.maxConnections >= 1 && t !in s.past
    ensures Moves(c, s, Create(c, s, t, id), t)
  {
  }

  lemma {:induction false} FoundMoves(c: Config, s: State, t: nat, id: Id, k: nat)
    requires k < |s.entries|
    ensures Moves(c, s, Found(c, s, t, id, k), t)
  {
  }

  lemma {:induction false} StepMoves(c: Config, s: State, step: Step)
    requires c.maxConnections >= 1 && Counted(s.past, s.tasks) && Enabled(s, step)
    ensures Moves(c, s, Next(c, s, step), Mover(step))
  {
    match step {
      case Start(t, id) =>
        BeginIs(c, s, t, id);
        if Pos(s.entries, id) < 0 { CreateMoves(c, s, t, id); } else { FoundMoves(c, s, t, id, Pos(s.entries, id)); }
      case Resume(t) => if s.tasks[t].Evicting? { CreateMoves(c, s, t, s.tasks[t].id); }
      case _ => OtherMoves(c, s, step);
    }
  }

  lemma {:induction false} OtherMoves(c: Config, s: State, step: Step)
    requires c.maxConnections >= 1 && Counted(s.past, s.tasks) && Enabled(s, step) && !step.Start? && !step.Resume?
    ensures Moves(c, s, Next(c, s, step), Mover(step))
  {
    match step {
      case Connected(t) => InstallMoves(c, s, t, s.tasks[t].id, s.tasks[t].conn);
      case Refused(t) => assert t in s.past && Next(c, s, step).past == s.past - {t};
      case _ =>
    }
  }

  lemma {:induction false} InstallMoves(c: Config, s: State, t: nat, id: Id, conn: nat)
    requires t in s.past
    ensures Moves(c, s, Install(s, t, id, conn), t)
  {
  }

  /** So the load rises only when a creation is admitted below the cap. */
  lemma {:induction false} LoadMoves(c: Config, s: State, u: State, t: nat)
    requires Moves(c, s, u, t)
    ensures Load(u) <= Load(s) || (Load(u) == Load(s) + 1 && |s.entries| < c.maxConnections && |u.past| == |s.past| + 1)
  {
    if t in s.past { assert |s.past - {t}| == |s.past| - 1; } else { assert |s.past + {t}| == |s.past| + 1; }
  }

  /** Never more than `m` creations are past the capacity check at once. */
  predicate Crowd(c: Config, s: State, steps: seq<Step>, m: nat)
    requires Valid(c, s, steps)
    decreases |steps|
  {
    |s.past| <= m && (steps == [] || Crowd(c, Next(c, s, steps[0]), steps[1..], m))
  }

  lemma {:induction false} LoadIsBounded(c: Config, s: State, steps: seq<Step>, m: nat)
    requires c.maxConnections >= 1 && Inv(s) && Valid(c, s, steps) && Crowd(c, s, steps, m)
    requires Load(s) <= c.maxConnections - 1 + m
    ensures Load(Run(c, s, steps)) <= c.maxConnections - 1 + m
    decreases |steps|
  {
    if steps != [] {
      var u := Next(c, s, steps[0]);
      StepMoves(c, s, steps[0]);
      LoadMoves(c, s, u, Mover(steps[0]));
      StepKeepsInv(c, s, steps[0]);
      assert |u.past| <= m;
      LoadIsBounded(c, u, steps[1..], m);
    }
  }

  /** In every schedule with at most `m` concurrent creations the pool's size plus its creations past the
      check stays within `maxConnections - 1 + m`; one at a time keeps the cap exactly. */
  lemma {:induction false} CapacityBound(c: Config, steps: seq<Step>, m: nat)
    requires c.maxConnections >= 1 && Valid(c, EMPTY, steps) && Crowd(c, EMPTY, steps, m)
    ensures Load(Run(c, EMPTY, steps)) <= c.maxConnections - 1 + m
    ensures m <= 1 ==> |Run(c, EMPTY, steps).entries| <= c.maxConnections
  {
    LoadIsBounded(c, EMPTY, steps, m);
  }

  function Name(i: nat): (id: Id)
    ensures |id| == i
  {
    if i == 0 then "" else Name(i - 1) + "n"
  }

  predicate Named(es: seq<Entry>) { forall i :: 0 <= i < |es| ==> es[i].id == Name(i) }

  /** The tasks from `e` up to `n` are dialling the ids of their numbers. */
  ghost predicate Dialling(tasks: map<nat, Task>, e: nat, n: nat) {
    && (forall t :: t in tasks ==> t < n)
    && (forall t :: e <= t < n ==> t in tasks && tasks[t].Connecting? && tasks[t].id == Name(t))
  }

  /** Exactly the numbers from `e` up to `n`. */
  ghost predicate Numbers(past: set<nat>, e: nat, n: nat) {
    e <= n && |past| == n - e && forall t :: t in past <==> e <= t < n
  }

  /** Tasks 0..n-1 create ids 0..n-1; the first `e` have set their entries. */
  ghost predicate Shape(s: State, e: nat, n: nat) {
    && |s.entries| == e <= n && s.results == map[]
    && Named(s.entries) && Dialling(s.tasks, e, n) && Numbers(s.past, e, n)
    && (forall id :: id in s.inflight ==> |id| < n)
  }

  lemma {:induction false} ShapeGrows(c: Config, s: State, e: nat, n: nat)
    requires Shape(s, e, n) && e < c.maxConnections
    ensures Enabled(s, Start(n, Name(n))) && Shape(Next(c, s, Start(n, Name(n))), e, n + 1)
  {
    assert |Name(n)| == n && n !in s.past && n !in s.tasks && Name(n) !in s.inflight;
    forall i | 0 <= i < e ensures s.entries[i].id != Name(n) { assert |Name(i)| == i; }
    assert Pos(s.entries, Name(n)) == -1;
    var u := Next(c, s, Start(n, Name(n)));
    assert u == Dial(s.(inflight := s.inflight[Name(n) := n], past := s.past + {n}), n, Name(n));
    DialKeepsShape(s, u, e, n);
  }

  lemma {:induction false} DialKeepsShape(s: State, u: State, e: nat, n: nat)
    requires Shape(s, e, n) && n !in s.past && |Name(n)| == n
    requires u == Dial(s.(inflight := s.inflight[Name(n) := n], past := s.past + {n}), n, Name(n))
    ensures Shape(u, e, n + 1)
  {
    assert |u.past| == |s.past| + 1;
  }

  lemma {:induction false} ShapeFills(c: Config, s: State, e: nat, n: nat)
    requires Shape(s, e, n) && e < n
    ensures Enabled(s, Connected(e)) && Shape(Next(c, s, Connected(e)), e + 1, n)
  {
    forall i | 0 <= i < e ensures s.entries[i].id != Name(e) { assert |Name(i)| == i && |Name(e)| == e; }
    assert Pos(s.entries, Name(e)) == -1;
    InstallKeepsShape(s, Next(c, s, Connected(e)), e, n);
  }

  lemma {:induction false} InstallKeepsShape(s: State, u: State, e: nat, n: nat)
    requires Shape(s, e, n) && e < n && Pos(s.entries, Name(e)) == -1
    requires u == Install(s, e, Name(e), s.tasks[e].conn)
    ensures Shape(u, e + 1, n)
  {
    assert u.entries == s.entries + [Entry(Name(e), s.tasks[e].conn, s.now)];
    NumbersDrop(s.past, e, n);
  }

  lemma {:induction false} NumbersDrop(past: set<nat>, e: nat, n: nat)
    requires Numbers(past, e, n) && e < n
    ensures Numbers(past - {e}, e + 1, n)
  {
    assert e in past && |past - {e}| == |past| - 1;
  }

  lemma {:induction false} Overfill(c: Config, s: State, e: nat, n: nat, m: nat) returns (steps: seq<Step>)
    requires c.maxConnections >= 1 && m >= 1 && Shape(s, e, n) && n <= c.maxConnections - 1 + m
    requires e < c.maxConnections - 1 ==> n <= e + 1
    requires e >= c.maxConnections ==> n == c.maxConnections - 1 + m
    ensures Valid(c, s, steps) && Crowd(c, s, steps, m)
    ensures |Run(c, s, steps).entries| == c.maxConnections - 1 + m
    decreases 2 * (c.maxConnections + m) - e - n
  {
    if e == n == c.maxConnections - 1 + m {
      steps := [];
    } else if e == n || (e == c.maxConnections - 1 && n < c.maxConnections - 1 + m) {
      ShapeGrows(c, s, e, n);
      var rest := Overfill(c, Next(c, s, Start(n, Name(n))), e, n + 1, m);
      steps := [Start(n, Name(n))] + rest;
    } else {
      ShapeFills(c, s, e, n);
      var rest := Overfill(c, Next(c, s, Connected(e)), e + 1, n, m);
      steps := [Connected(e)] + rest;
    }
  }

  /** The bound is exact: for every cap and every `m` some schedule with at most `m` concurrent creations
      really leaves `maxConnections - 1 + m` connections in the pool. */
  lemma {:induction false} CapacityBoundIsTight(c: Config, m: nat) returns (steps: seq<Step>)
    requires c.maxConnections >= 1 && m >= 1
    ensures Valid(c, EMPTY, steps) && Crowd(c, EMPTY, steps, m)
    ensures |Run(c, EMPTY, steps).entries| == c.maxConnections - 1 + m
  {
    steps := Overfill(c, EMPTY, 0, 0, m);
  }

  // ----- what callers get -------------------------------------------------

  /** A call is answered from the cache exactly when its id has an entry no older than the idle timeout, and
      then with that entry's connection, for which no disconnect has been called. */
  lemma {:induction false} CachedHandOut(c: Config, s: State, t: nat, id: Id)
    requires Inv(s) && Enabled(s, Start(t, id))
    ensures var u := Next(c, s, Start(t, id));
            && (t in u.results <==>
                 exists i :: 0 <= i < |s.entries| && s.entries[i].id == id && s.now - s.entries[i].lastUsedAt <= c.idleTimeout)
            && (t in u.results ==>
                 u.results[t].Got? && InPool(u.entries, u.results[t].conn) && u.results[t].conn !in u.disconnected)
            && (forall i :: 0 <= i < |s.entries| && s.entries[i].id == id && t in u.results ==>
                 u.results[t].conn == s.entries[i].conn && |u.entries| == |s.entries| && u.entries[i] == Entry(id, s.entries[i].conn, s.now))
  {
    var k := Pos(s.entries, id);
    if k >= 0 {
      StepKeepsInv(c, s, Start(t, id));
      var u := Next(c, s, Start(t, id));
      if !Stale(c, s.now, s.entries[k]) { assert u.entries[k].conn == s.entries[k].conn; }
    }
  }

  // ----- whom the pool evicts ----------------------------------------------

  /** Entry `k` is gone after the step and its connection is being disconnected. */
  ghost predicate Evicts(s: State, u: State, k: nat) {
    k < |s.entries| && !Has(u.entries, s.entries[k].id) && s.entries[k].conn in u.disconnected
  }

  /** No entry was used longer ago, and none before it equally long ago. */
  predicate LeastRecent(es: seq<Entry>, k: nat) {
    && k < |es|
    && (forall j :: 0 <= j < |es| ==> es[k].lastUsedAt <= es[j].lastUsedAt)
    && (forall j :: 0 <= j < k ==> es[k].lastUsedAt < es[j].lastUsedAt)
  }

  /** The call has to open a connection and finds the pool full. */
  predicate NeedsRoom(c: Config, s: State, id: Id) {
    id !in s.inflight && s.entries != [] && |s.entries| >= c.maxConnections
  }

  /** Making room takes exactly the least recently used entry. */
  lemma {:induction false} CreateEvicts(c: Config, s: State, t: nat, id: Id)
    requires UniqueIds(s.entries)
    ensures var u := Create(c, s, t, id);
            && (forall k :: 0 <= k < |s.entries| && !Has(u.entries, s.entries[k].id) ==> Evicts(s, u, k) && LeastRecent(s.entries, k))
            && (NeedsRoom(c, s, id) ==> exists k: nat :: Evicts(s, u, k))
            && (!NeedsRoom(c, s, id) ==> u.entries == s.entries)
            && (forall k :: 0 <= k < |s.entries| && Has(u.entries, s.entries[k].id) ==> s.entries[k] in u.entries)
  {
    if NeedsRoom(c, s, id) {
      var v, u := Oldest(s.entries), Create(c, s, t, id);
      OnlyOneGone(s.entries, v);
      assert u.entries == Without(s.entries, v);
      assert Evicts(s, u, v);
    } else {
      forall k | 0 <= k < |s.entries| ensures Has(s.entries, s.entries[k].id) && s.entries[k] in s.entries { }
    }
  }

  lemma {:induction false} OnlyOneGone(es: seq<Entry>, v: nat)
    requires UniqueIds(es) && v < |es|
    ensures forall k :: 0 <= k < |es| ==> (Has(Without(es, v), es[k].id) <==> k != v)
    ensures forall k :: 0 <= k < |es| && k != v ==> es[k] in Without(es, v)
  {
    var fs := Without(es, v);
    forall i | 0 <= i < |fs| ensures fs[i] == es[if i < v then i else i + 1] { }
    forall k | 0 <= k < |es| && k != v ensures es[k] in fs && Has(fs, es[k].id) {
      assert fs[if k < v then k else k - 1] == es[k];
    }
  }

  /** A call that starts takes an entry of another id away exactly when its own id has no entry, nothing is in
      flight for it and the pool is full; it is then the least recently used entry, and its connection is
      disconnected. */
  lemma {:induction false} StartEvictsLeastRecent(c: Config, s: State, t: nat, id: Id)
    requires UniqueIds(s.entries) && Enabled(s, Start(t, id))
    ensures var u := Next(c, s, Start(t, id));
            && (forall k :: 0 <= k < |s.entries| && s.entries[k].id != id && !Has(u.entries, s.entries[k].id) ==>
                 Evicts(s, u, k) && LeastRecent(s.entries, k))
            && ((exists k: nat :: Evicts(s, u, k) && s.entries[k].id != id) <==> !Has(s.entries, id) && NeedsRoom(c, s, id))
            && (forall k: nat :: k < |s.entries| && s.entries[k].id == id ==>
                 (Evicts(s, u, k) <==> s.now - s.entries[k].lastUsedAt > c.idleTimeout))
  {
    BeginIs(c, s, t, id);
    var p := Pos(s.entries, id);
    if p < 0 {
      CreateEvicts(c, s, t, id);
      var u := Create(c, s, t, id);
      if !NeedsRoom(c, s, id) {
        forall k: nat | k < |s.entries| ensures !Evicts(s, u, k) { assert u.entries[k] == s.entries[k]; }
      } else {
        var k: nat :| Evicts(s, u, k);
        assert s.entries[k].id != id;
      }
    } else {
      FoundEvictsOwn(c, s, t, id, p);
    }
  }

  lemma {:induction false} FoundEvictsOwn(c: Config, s: State, t: nat, id: Id, p: nat)
    requires UniqueIds(s.entries) && p < |s.entries| && s.entries[p].id == id
    ensures forall k :: 0 <= k < |s.entries| && s.entries[k].id != id ==> Has(Found(c, s, t, id, p).entries, s.entries[k].id)
    ensures Evicts(s, Found(c, s, t, id, p), p) <==> s.now - s.entries[p].lastUsedAt > c.idleTimeout
  {
    OnlyOneGone(s.entries, p);
    var u := Found(c, s, t, id, p);
    if !Stale(c, s.now, s.entries[p]) { assert u.entries[p].id == id; }
    forall k | 0 <= k < |s.entries| && s.entries[k].id != id ensures Has(u.entries, s.entries[k].id) {
      if !Stale(c, s.now, s.entries[p]) { assert u.entries[k] == s.entries[k]; }
    }
  }

  /** The same when a call goes on after its stale entry has been disconnected; it does not look at the entries of
      its id again. A call that has made room takes nothing. */
  lemma {:induction false} ResumeEvictsLeastRecent(c: Config, s: State, t: nat)
    requires UniqueIds(s.entries) && Enabled(s, Resume(t))
    ensures var u := Next(c, s, Resume(t));
            && (forall k :: 0 <= k < |s.entries| && !Has(u.entries, s.entries[k].id) ==> Evicts(s, u, k) && LeastRecent(s.entries, k))
            && ((exists k: nat :: Evicts(s, u, k)) <==> s.tasks[t].Evicting? && NeedsRoom(c, s, s.tasks[t].id))
  {
    var u := Next(c, s, Resume(t));
    if s.tasks[t].Evicting? {
      CreateEvicts(c, s, t, s.tasks[t].id);
    }
    if !(s.tasks[t].Evicting? && NeedsRoom(c, s, s.tasks[t].id)) {
      forall k | 0 <= k < |s.entries| ensures Has(u.entries, s.entries[k].id) { assert u.entries[k] == s.entries[k]; }
    }
  }

  /** Other steps take an entry away only when it has been idle too long, or the pool is being closed; what they
      leave or set carries the time of its last use: a new entry, a released one and one that is handed out carry
      the present. */
  lemma {:induction false} EntriesAreStamped(c: Config, s: State, step: Step, i: nat)
    requires UniqueIds(s.entries) && Enabled(s, step) && i < |Next(c, s, step).entries|
    ensures var e := Next(c, s, step).entries[i];
            if (step.Start? && e.id == step.id) || (step.Touch? && e.id == step.id)
               || (step.Connected? && e.id == s.tasks[step.t].id)
            then e.lastUsedAt == s.now
            else e in s.entries
  {
    match step {
      case Start(t, id) =>
        BeginIs(c, s, t, id);
        if Pos(s.entries, id) >= 0 { FoundStamps(c, s, t, id, Pos(s.entries, id)); } else { CreateStamps(c, s, t, id); }
      case Resume(t) => if s.tasks[t].Evicting? { CreateStamps(c, s, t, s.tasks[t].id); }
      case Connected(t) => PutStamps(s.entries, Entry(s.tasks[t].id, s.tasks[t].conn, s.now));
      case Reap(id) => if Pos(s.entries, id) >= 0 { WithoutIsPart(s.entries, Pos(s.entries, id)); }
      case Close(id) => if Pos(s.entries, id) >= 0 { WithoutIsPart(s.entries, Pos(s.entries, id)); }
      case _ =>
    }
  }

  lemma {:induction false} CreateStamps(c: Config, s: State, t: nat, id: Id)
    ensures forall e :: e in Create(c, s, t, id).entries ==> e in s.entries
  {
    if s.entries != [] { WithoutIsPart(s.entries, Oldest(s.entries)); }
  }

  lemma {:induction false} FoundStamps(c: Config, s: State, t: nat, id: Id, p: nat)
    requires UniqueIds(s.entries) && p < |s.entries| && s.entries[p].id == id
    ensures forall e :: e in Found(c, s, t, id, p).entries ==> if e.id == id then e.lastUsedAt == s.now else e in s.entries
  {
    WithoutIsPart(s.entries, p);
  }

  lemma {:induction false} PutStamps(es: seq<Entry>, e: Entry)
    requires UniqueIds(es)
    ensures forall x :: x in Put(es, e) ==> if x.id == e.id then x == e else x in es
  {
  }

  lemma {:induction false} WithoutIsPart(es: seq<Entry>, k: nat)
    requires k < |es|
    ensures forall e :: e in Without(es, k) ==> e in es && (UniqueIds(es) ==> e.id != es[k].id)
  {
    var fs := Without(es, k);
    forall i | 0 <= i < |fs| ensures fs[i] == es[if i < k then i else i + 1] { }
  }

  /** The reaper takes an entry exactly when it has been idle for longer than the timeout. */
  lemma {:induction false} ReapEvictsIff(c: Config, s: State, k: nat)
    requires UniqueIds(s.entries) && k < |s.entries|
    ensures var u := Next(c, s, Reap(s.entries[k].id));
            if s.now - s.entries[k].lastUsedAt > c.idleTimeout then u.entries == s.entries[..k] + s.entries[k + 1..] && Evicts(s, u, k)
            else u == s
  {
    OnlyOneGone(s.entries, k);
  }

  /** Closing takes each entry away and disconnects it. */
  lemma {:induction false} CloseEvicts(c: Config, s: State, k: nat)
    requires UniqueIds(s.entries) && k < |s.entries|
    ensures var u := Next(c, s, Close(s.entries[k].id)); u.entries == s.entries[..k] + s.entries[k + 1..] && Evicts(s, u, k)
  {
    OnlyOneGone(s.entries, k);
  }

  // ----- whom a connection is for ------------------------------------------

  /** `dialled` says for which id each connection was made, `asked` which id each call asked for: entries and calls
      hold connections of their own id, and a joined call joins a creation for its own id. */
  ghost predicate Matches(s: State, dialled: map<nat, Id>, asked: map<nat, Id>) {
    && (forall conn :: conn in dialled ==> conn < s.nextConn)
    && (forall i :: 0 <= i < |s.entries| ==> s.entries[i].conn in dialled && dialled[s.entries[i].conn] == s.entries[i].id)
    && (forall t :: t in s.tasks ==> t in asked && TaskMatches(s.tasks[t], asked[t], dialled, asked))
    && (forall id :: id in s.inflight ==> s.inflight[id] in asked && asked[s.inflight[id]] == id)
    && (forall t :: t in s.results ==> t in asked && OutcomeMatches(s.results[t], asked[t], dialled))
  }

  predicate TaskMatches(task: Task, id: Id, dialled: map<nat, Id>, asked: map<nat, Id>) {
    match task
    case Connecting(i, conn) => i == id && conn in dialled && dialled[conn] == id
    case Recording(i, conn) => i == id && conn in dialled && dialled[conn] == id
    case Joined(creator) => creator in asked && asked[creator] == id
    case _ => task.id == id
  }

  predicate OutcomeMatches(o: Outcome, id: Id, dialled: map<nat, Id>) { o.Got? ==> o.conn in dialled && dialled[o.conn] == id }

  /** What a step adds: a call that starts, a connection that is dialled. */
  function AskedAfter(s: State, step: Step, asked: map<nat, Id>): map<nat, Id> {
    if step.Start? then asked[step.t := step.id] else asked
  }

  function DialledAfter(c: Config, s: State, step: Step, dialled: map<nat, Id>): map<nat, Id>
    requires Enabled(s, step)
  {
    if Next(c, s, step).nextConn == s.nextConn || !(step.Start? || step.Resume?) then dialled
    else dialled[s.nextConn := if step.Start? then step.id else s.tasks[step.t].id]
  }

  lemma {:induction false} CreateMatches(c: Config, s: State, t: nat, id: Id, dialled: map<nat, Id>, asked: map<nat, Id>)
    requires Matches(s, dialled, asked) && t in asked && asked[t] == id
    ensures var u := Create(c, s, t, id);
            Matches(u, if u.nextConn == s.nextConn then dialled else dialled[s.nextConn := id], asked)
  {
    if id !in s.inflight {
      var claimed := s.(inflight := s.inflight[id := t], past := s.past + {t});
      ClaimMatches(s, claimed, t, id, dialled, asked);
      if |s.entries| < c.maxConnections {
        DialMatches(claimed, t, id, dialled, asked);
      } else {
        RoomMatches(claimed, t, id, dialled, asked);
      }
    }
  }

  lemma {:induction false} ClaimMatches(s: State, u: State, t: nat, id: Id, dialled: map<nat, Id>, asked: map<nat, Id>)
    requires Matches(s, dialled, asked) && t in asked && asked[t] == id
    requires u == s.(inflight := s.inflight[id := t], past := s.past + {t})
    ensures Matches(u, dialled, asked)
  {
  }

  lemma {:induction false} RoomMatches(s: State, t: nat, id: Id, dialled: map<nat, Id>, asked: map<nat, Id>)
    requires Matches(s, dialled, asked) && t in asked && asked[t] == id
    ensures var u := s.(tasks := s.tasks[t := MakingRoom(id)]);
            Matches(u, dialled, asked) && (s.entries != [] ==> Matches(Drop(u, Oldest(s.entries)), dialled, asked))
  {
    if s.entries != [] { DropMatches(s.(tasks := s.tasks[t := MakingRoom(id)]), Oldest(s.entries), dialled, asked); }
  }

  lemma {:induction false} DialMatches(s: State, t: nat, id: Id, dialled: map<nat, Id>, asked: map<nat, Id>)
    requires Matches(s, dialled, asked) && t in asked && asked[t] == id
    ensures Matches(Dial(s, t, id), dialled[s.nextConn := id], asked)
  {
  }

  lemma {:induction false} FoundMatches(c: Config, s: State, t: nat, id: Id, k: nat, dialled: map<nat, Id>, asked: map<nat, Id>)
    requires Matches(s, dialled, asked) && t in asked && asked[t] == id && k < |s.entries| && s.entries[k].id == id
    ensures Matches(Found(c, s, t, id, k), dialled, asked)
  {
    WithoutIsPart(s.entries, k);
  }

  lemma {:induction false} InstallMatches(s: State, t: nat, id: Id, conn: nat, dialled: map<nat, Id>, asked: map<nat, Id>)
    requires Matches(s, dialled, asked) && t in s.tasks && s.tasks[t] == Connecting(id, conn)
    ensures Matches(Install(s, t, id, conn), dialled, asked)
  {
  }

  lemma {:induction false} FinishMatches(s: State, t: nat, o: Outcome, dialled: map<nat, Id>, asked: map<nat, Id>)
    requires Matches(s, dialled, asked) && t in asked && OutcomeMatches(o, asked[t], dialled)
    ensures Matches(Finish(s, t, o), dialled, asked)
  {
  }

  lemma {:induction false} DropMatches(s: State, k: nat, dialled: map<nat, Id>, asked: map<nat, Id>)
    requires Matches(s, dialled, asked) && k < |s.entries|
    ensures Matches(Drop(s, k), dialled, asked)
  {
    WithoutIsPart(s.entries, k);
  }

  lemma {:induction false} AskMatches(s: State, t: nat, id: Id, dialled: map<nat, Id>, asked: map<nat, Id>)
    requires Matches(s, dialled, asked) && t !in asked
    ensures Matches(s, dialled, asked[t := id])
  {
  }

  lemma {:induction false} StepMatches(c: Config, s: State, step: Step, dialled: map<nat, Id>, asked: map<nat, Id>)
    requires Matches(s, dialled, asked) && Enabled(s, step) && (step.Start? ==> step.t !in asked)
    ensures Matches(Next(c, s, step), DialledAfter(c, s, step, dialled), AskedAfter(s, step, asked))
  {
    match step {
      case Start(t, id) =>
        AskMatches(s, t, id, dialled, asked);
        BeginIs(c, s, t, id);
        if Pos(s.entries, id) < 0 {
          CreateMatches(c, s, t, id, dialled, asked[t := id]);
        } else {
          FoundMatches(c, s, t, id, Pos(s.entries, id), dialled, asked[t := id]);
        }
      case Resume(t) =>
        if s.tasks[t].Evicting? { CreateMatches(c, s, t, s.tasks[t].id, dialled, asked); } else { DialMatches(s, t, s.tasks[t].id, dialled, asked); }
      case Connected(t) => InstallMatches(s, t, s.tasks[t].id, s.tasks[t].conn, dialled, asked);
      case Settle(t, recorded) =>
        FinishMatches(s.(inflight := s.inflight - {s.tasks[t].id}), t, if s.tasks[t].Recording? && recorded then Got(s.tasks[t].conn) else Threw, dialled, asked);
      case Wake(t) => FinishMatches(s, t, s.results[s.tasks[t].creator], dialled, asked);
      case Reap(id) => if Pos(s.entries, id) >= 0 { DropMatches(s, Pos(s.entries, id), dialled, asked); }
      case Close(id) => if Pos(s.entries, id) >= 0 { DropMatches(s, Pos(s.entries, id), dialled, asked); }
      case _ =>
    }
  }

  /** Every call has a number of its own. */
  predicate NewCalls(c: Config, s: State, steps: seq<Step>, asked: map<nat, Id>)
    requires Valid(c, s, steps)
    decreases |steps|
  {
    steps == [] || ((steps[0].Start? ==> steps[0].t !in asked) && NewCalls(c, Next(c, s, steps[0]), steps[1..], AskedAfter(s, steps[0], asked)))
  }

  /** In every schedule each connection has an id it was made for, and calls and entries hold connections of their
      own ids. */
  lemma {:induction false} RunMatches(c: Config, s: State, steps: seq<Step>, dialled: map<nat, Id>, asked: map<nat, Id>)
    returns (dialled': map<nat, Id>, asked': map<nat, Id>)
    requires Matches(s, dialled, asked) && Valid(c, s, steps) && NewCalls(c, s, steps, asked)
    ensures Matches(Run(c, s, steps), dialled', asked')
    ensures forall conn :: conn in dialled ==> conn in dialled' && dialled'[conn] == dialled[conn]
    ensures forall t :: t in asked ==> t in asked' && asked'[t] == asked[t]
    ensures forall i :: 0 <= i < |steps| && steps[i].Start? ==> steps[i].t in asked' && asked'[steps[i].t] == steps[i].id
    decreases |steps|
  {
    dialled', asked' := dialled, asked;
    if steps != [] {
      StepMatches(c, s, steps[0], dialled, asked);
      dialled', asked' := RunMatches(c, Next(c, s, steps[0]), steps[1..], DialledAfter(c, s, steps[0], dialled), AskedAfter(s, steps[0], asked));
    }
  }

  /** So two calls that end with one connection have asked for one id, and an entry with it is that id's: whether a
      call was answered from the pool, made the connection or joined another call. */
  lemma {:induction false} OneIdPerConnection(c: Config, steps: seq<Step>, i: nat, j: nat)
    requires Valid(c, EMPTY, steps) && NewCalls(c, EMPTY, steps, map[])
    requires i < |steps| && steps[i].Start? && j < |steps| && steps[j].Start?
    ensures var s := Run(c, EMPTY, steps);
            steps[i].t in s.results && s.results[steps[i].t].Got? ==>
              var conn := s.results[steps[i].t].conn;
              && (steps[j].t in s.results && s.results[steps[j].t] == Got(conn) ==> steps[i].id == steps[j].id)
              && (forall k :: 0 <= k < |s.entries| && s.entries[k].conn == conn ==> s.entries[k].id == steps[i].id)
  {
    var dialled, asked := RunMatches(c, EMPTY, steps, map[], map[]);
  }

  lemma {:induction false} ResultsStay(c: Config, s: State, steps: seq<Step>, t: nat)
    requires Inv(s) && Valid(c, s, steps) && t in s.results
    ensures t in Run(c, s, steps).results && Run(c, s, steps).results[t] == s.results[t]
    decreases |steps|
  {
    if steps != [] {
      StepKeepsInv(c, s, steps[0]);
      StepKeepsResult(c, s, steps[0], t);
      ResultsStay(c, Next(c, s, steps[0]), steps[1..], t);
    }
  }

  lemma {:induction false} StepKeepsResult(c: Config, s: State, step: Step, t: nat)
    requires Inv(s) && Enabled(s, step) && t in s.results
    ensures t in Next(c, s, step).results && Next(c, s, step).results[t] == s.results[t]
  {
  }

  lemma {:induction false} StepKeepsJoined(c: Config, s: State, step: Step, t: nat)
    requires Enabled(s, step) && t in s.tasks && s.tasks[t].Joined? && step != Wake(t)
    ensures t in Next(c, s, step).tasks && Next(c, s, step).tasks[t] == s.tasks[t]
  {
    match step {
      case Start(u, id) =>
        BeginIs(c, s, u, id);
        CreateKeepsTask(c, s, u, id, t);
        if Pos(s.entries, id) >= 0 { FoundKeepsTask(c, s, u, id, Pos(s.entries, id), t); }
      case Resume(u) => CreateKeepsTask(c, s, u, s.tasks[u].id, t);
      case _ =>
    }
  }

  lemma {:induction false} CreateKeepsTask(c: Config, s: State, u: nat, id: Id, t: nat)
    requires t in s.tasks && t != u
    ensures t in Create(c, s, u, id).tasks && Create(c, s, u, id).tasks[t] == s.tasks[t]
  {
  }

  lemma {:induction false} FoundKeepsTask(c: Config, s: State, u: nat, id: Id, k: nat, t: nat)
    requires t in s.tasks && t != u && k < |s.entries|
    ensures t in Found(c, s, u, id, k).tasks && Found(c, s, u, id, k).tasks[t] == s.tasks[t]
  {
  }

  /** In every schedule a call that joined another's creation ends as that creation ends: with the same
      connection, or with its exception. */
  lemma {:induction false} JoinersShareTheOutcome(c: Config, s: State, steps: seq<Step>, t: nat)
    requires Inv(s) && Valid(c, s, steps) && t in s.tasks && s.tasks[t].Joined?
    ensures var u := Run(c, s, steps);
            t in u.results ==> s.tasks[t].creator in u.results && u.results[t] == u.results[s.tasks[t].creator]
    decreases |steps|
  {
    if steps != [] {
      var u := Next(c, s, steps[0]);
      StepKeepsInv(c, s, steps[0]);
      if steps[0] == Wake(t) {
        ResultsStay(c, u, steps[1..], t);
        ResultsStay(c, u, steps[1..], s.tasks[t].creator);
      } else {
        StepKeepsJoined(c, s, steps[0], t);
        JoinersShareTheOutcome(c, u, steps[1..], t);
      }
    }
  }

  // ----- lost connections -------------------------------------------------

  /** In every state and for every step: a connection is lost exactly when a creation sets its entry over one
      that the id has got meanwhile, and then it is that entry's connection. */
  lemma {:induction false} StepLosesIff(c: Config, s: State, step: Step)
    requires Inv(s) && Enabled(s, step)
    ensures var u := Next(c, s, step);
            if step.Connected? && Has(s.entries, s.tasks[step.t].id)
            then u.lost == s.lost + {s.entries[Pos(s.entries, s.tasks[step.t].id)].conn} && u.lost != s.lost
            else u.lost == s.lost
  {
    match step {
      case Start(t, id) => BeginLosesNothing(c, s, t, id);
      case Resume(t) => if s.tasks[t].Evicting? { CreateLosesNothing(c, s, t, s.tasks[t].id); }
      case Connected(t) =>
        var k := Pos(s.entries, s.tasks[t].id);
        if k >= 0 { assert s.entries[k].conn !in s.lost; }
      case _ =>
    }
  }

  lemma {:induction false} CreateLosesNothing(c: Config, s: State, t: nat, id: Id)
    ensures Create(c, s, t, id).lost == s.lost
  {
  }

  lemma {:induction false} BeginLosesNothing(c: Config, s: State, t: nat, id: Id)
    ensures Begin(c, s, t, id).lost == s.lost
  {
    BeginIs(c, s, t, id);
    CreateLosesNothing(c, s, t, id);
  }

  /** A call that resumes after evicting its stale entry does not look at the entries again. Going on to
      connect below the cap, it loses a connection exactly when another call has set the id meanwhile. */
  lemma {:induction false} ResumeLosesIff(c: Config, s: State, t: nat)
    requires Inv(s) && t in s.tasks && s.tasks[t].Evicting?
    requires s.tasks[t].id !in s.inflight && |s.entries| < c.maxConnections
    ensures Enabled(Next(c, s, Resume(t)), Connected(t))
    ensures Next(c, Next(c, s, Resume(t)), Connected(t)).lost == s.lost <==> !Has(s.entries, s.tasks[t].id)
  {
    var k := Pos(s.entries, s.tasks[t].id);
    if k >= 0 { assert s.entries[k].conn !in s.lost; }
  }

  /** The step happens after a stale eviction, with nothing in flight for the id, and its entry is back. */
  predicate Overlooks(s: State, step: Step)
    requires Enabled(s, step)
  {
    && step.Resume? && s.tasks[step.t].Evicting?
    && s.tasks[step.t].id !in s.inflight && Has(s.entries, s.tasks[step.t].id)
  }

  predicate Careful(c: Config, s: State, steps: seq<Step>)
    requires Valid(c, s, steps)
    decreases |steps|
  {
    steps == [] || (!Overlooks(s, steps[0]) && Careful(c, Next(c, s, steps[0]), steps[1..]))
  }

  /** No id past the capacity check has an entry. */
  ghost predicate Absent(s: State) {
    forall t :: t in s.tasks && PastCheck(s.tasks[t]) ==> !Has(s.entries, s.tasks[t].id)
  }

  lemma {:induction false} CreateKeepsAbsent(c: Config, s: State, t: nat, id: Id)
    requires Inv(s) && Absent(s) && (id !in s.inflight ==> !Has(s.entries, id))
    ensures Absent(Create(c, s, t, id)) && Create(c, s, t, id).lost == s.lost
  {
    if s.entries != [] { DropKeeps(s, Oldest(s.entries)); }
    if id in s.inflight {
      NoNewIds(s, Create(c, s, t, id));
    } else {
      OneMorePast(s, Create(c, s, t, id), t, id);
    }
  }

  lemma {:induction false} OneMorePast(s: State, u: State, t: nat, id: Id)
    requires Absent(s) && !Has(s.entries, id) && forall other :: Has(u.entries, other) ==> Has(s.entries, other)
    requires t in u.tasks && PastCheck(u.tasks[t]) && u.tasks[t].id == id
    requires forall x :: x in u.tasks && x != t ==> x in s.tasks && u.tasks[x] == s.tasks[x]
    ensures Absent(u)
  {
  }

  lemma {:induction false} NoNewIds(s: State, u: State)
    requires Absent(s) && forall id :: Has(u.entries, id) ==> Has(s.entries, id)
    requires forall t :: t in u.tasks && PastCheck(u.tasks[t]) ==> t in s.tasks && u.tasks[t] == s.tasks[t]
    ensures Absent(u)
  {
  }

  lemma {:induction false} FoundKeepsAbsent(c: Config, s: State, t: nat, id: Id, k: nat)
    requires Inv(s) && Absent(s) && Enabled(s, Start(t, id)) && k < |s.entries|
    ensures Absent(Found(c, s, t, id, k)) && Found(c, s, t, id, k).lost == s.lost
  {
    if Stale(c, s.now, s.entries[k]) {
      DropKeeps(s.(tasks := s.tasks[t := Evicting(id)]), k);
    } else {
      TouchKeeps(s, Found(c, s, t, id, k), k);
    }
    NoNewIds(s, Found(c, s, t, id, k));
  }

  lemma BeginIs(c: Config, s: State, t: nat, id: Id)
    ensures Pos(s.entries, id) < 0 ==> !Has(s.entries, id) && Begin(c, s, t, id) == Create(c, s, t, id)
    ensures Pos(s.entries, id) >= 0 ==> Begin(c, s, t, id) == Found(c, s, t, id, Pos(s.entries, id))
  {
  }

  lemma {:induction false} ConnectedKeepsAbsent(c: Config, s: State, t: nat)
    requires Inv(s) && Absent(s) && Enabled(s, Connected(t))
    ensures Absent(Next(c, s, Connected(t))) && Next(c, s, Connected(t)).lost == s.lost
  {
    InstallKeeps(s, t, s.tasks[t].id, s.tasks[t].conn);
    assert Creates(s.tasks[t]);
  }

  lemma {:induction false} EntryKeepsAbsent(c: Config, s: State, id: Id, step: Step)
    requires Inv(s) && Absent(s) && (step == Touch(id) || step == Reap(id) || step == Close(id))
    ensures Absent(Next(c, s, step))
  {
    var k := Pos(s.entries, id);
    if k >= 0 {
      DropKeeps(s, k);
      if step.Touch? { TouchKeeps(s, Next(c, s, step), k); }
    }
  }

  lemma {:induction false} StepKeepsAbsent(c: Config, s: State, step: Step)
    requires Inv(s) && Absent(s) && Enabled(s, step) && !Overlooks(s, step)
    ensures Absent(Next(c, s, step)) && Next(c, s, step).lost == s.lost
  {
    match step {
      case Start(t, id) =>
        BeginIs(c, s, t, id);
        if Pos(s.entries, id) < 0 { CreateKeepsAbsent(c, s, t, id); } else { FoundKeepsAbsent(c, s, t, id, Pos(s.entries, id)); }
      case Resume(t) => if s.tasks[t].Evicting? { CreateKeepsAbsent(c, s, t, s.tasks[t].id); }
      case Connected(t) => ConnectedKeepsAbsent(c, s, t);
      case Touch(id) => EntryKeepsAbsent(c, s, id, step);
      case Reap(id) => EntryKeepsAbsent(c, s, id, step);
      case Close(id) => EntryKeepsAbsent(c, s, id, step);
      case _ =>
    }
  }

  /** Only that oversight loses connections: without it every opened connection is in the pool or disconnected. */
  lemma {:induction false} CarefulRunsLoseNothing(c: Config, s: State, steps: seq<Step>)
    requires Inv(s) && Absent(s) && Valid(c, s, steps) && Careful(c, s, steps)
    ensures Run(c, s, steps).lost == s.lost
    decreases |steps|
  {
    if steps != [] {
      StepKeepsAbsent(c, s, steps[0]);
      StepKeepsInv(c, s, steps[0]);
      CarefulRunsLoseNothing(c, Next(c, s, steps[0]), steps[1..]);
    }
  }

  /** Each `getConnection` call is over before the next one starts; `release`, reaping and closing may come in between. */
  predicate Serial(c: Config, s: State, steps: seq<Step>)
    requires Valid(c, s, steps)
    decreases |steps|
  {
    steps == [] || ((steps[0].Start? ==> s.tasks == map[]) && Serial(c, Next(c, s, steps[0]), steps[1..]))
  }

  /** At most one call is under way, and until it sets its entry its id has none. */
  ghost predicate Alone(s: State) {
    && (forall t, u :: t in s.tasks && u in s.tasks ==> t == u)
    && (forall t :: t in s.tasks && s.tasks[t].Evicting? ==> !Has(s.entries, s.tasks[t].id))
    && |s.past| <= 1
  }

  lemma {:induction false} StartAlone(c: Config, s: State, t: nat, id: Id)
    requires Inv(s) && s.tasks == map[] && Enabled(s, Start(t, id))
    ensures Alone(Next(c, s, Start(t, id)))
  {
    assert s.past == {};
    var k := Pos(s.entries, id);
    if k >= 0 {
      if Stale(c, s.now, s.entries[k]) { DropKeeps(s, k); }
    } else {
      CreateAlone(c, s, t, id);
    }
  }

  lemma {:induction false} CreateAlone(c: Config, s: State, t: nat, id: Id)
    requires s.tasks == map[] && s.past == {}
    ensures Alone(Create(c, s, t, id))
  {
    assert |{t}| == 1;
  }

  lemma {:induction false} EntryKeepsAlone(c: Config, s: State, id: Id, step: Step)
    requires Inv(s) && Alone(s) && (step == Touch(id) || step == Reap(id) || step == Close(id))
    ensures Alone(Next(c, s, step))
  {
    var k := Pos(s.entries, id);
    if k >= 0 {
      DropKeeps(s, k);
      if step.Touch? { TouchKeeps(s, Next(c, s, step), k); }
    }
  }

  lemma {:induction false} TaskKeepsAlone(c: Config, s: State, t: nat, step: Step)
    requires Inv(s) && Alone(s) && Enabled(s, step)
    requires step == Resume(t) || step == Connected(t) || step == Refused(t)
    ensures Alone(Next(c, s, step))
  {
    var u := Next(c, s, step);
    assert u.past <= {t} by { assert forall p :: p in s.past ==> p == t; }
    assert |{t}| == 1;
    if |u.past| > 1 { PastIsSmall(u.past, t); }
  }

  lemma {:induction false} PastIsSmall(past: set<nat>, t: nat)
    requires past <= {t}
    ensures |past| <= 1
  {
    if past != {} { assert past == {t}; }
  }

  lemma {:induction false} StepKeepsAlone(c: Config, s: State, step: Step)
    requires Inv(s) && Alone(s) && Enabled(s, step) && (step.Start? ==> s.tasks == map[])
    ensures Alone(Next(c, s, step)) && !Overlooks(s, step)
  {
    match step {
      case Start(t, id) => StartAlone(c, s, t, id);
      case Resume(t) => TaskKeepsAlone(c, s, t, step);
      case Connected(t) => TaskKeepsAlone(c, s, t, step);
      case Refused(t) => TaskKeepsAlone(c, s, t, step);
      case Touch(id) => EntryKeepsAlone(c, s, id, step);
      case Reap(id) => EntryKeepsAlone(c, s, id, step);
      case Close(id) => EntryKeepsAlone(c, s, id, step);
      case _ =>
    }
  }

  lemma {:induction false} SerialIsCareful(c: Config, s: State, steps: seq<Step>)
    requires Inv(s) && Alone(s) && Valid(c, s, steps) && Serial(c, s, steps)
    ensures Careful(c, s, steps) && Crowd(c, s, steps, 1)
    decreases |steps|
  {
    if steps != [] {
      StepKeepsAlone(c, s, steps[0]);
      StepKeepsInv(c, s, steps[0]);
      SerialIsCareful(c, Next(c, s, steps[0]), steps[1..]);
    }
  }

  /** Serial use keeps the cap and loses nothing: every opened connection is in the pool or has been disconnected. */
  lemma {:induction false} SerialUse(c: Config, steps: seq<Step>)
    requires c.maxConnections >= 1 && Valid(c, EMPTY, steps) && Serial(c, EMPTY, steps)
    ensures var s := Run(c, EMPTY, steps);
            |s.entries| <= c.maxConnections && forall conn :: conn in s.born <==> InPool(s.entries, conn) || conn in s.disconnected
  {
    SerialIsCareful(c, EMPTY, steps);
    CarefulRunsLoseNothing(c, EMPTY, steps);
    CapacityBound(c, steps, 1);
    EverySchedule(c, steps);
  }

  lemma RunCons(c: Config, s: State, step: Step, rest: seq<Step>)
    requires Enabled(s, step) && Valid(c, Next(c, s, step), rest)
    ensures Valid(c, s, [step] + rest) && Run(c, s, [step] + rest) == Run(c, Next(c, s, step), rest)
  {
    assert ([step] + rest)[1..] == rest;
  }

  lemma FirstConnection(id: Id)
    ensures var c := Config(2, 0);
            var steps := [Start(0, id), Connected(0), Settle(0, true), Tick(1), Start(1, id)];
            && Valid(c, EMPTY, steps)
            && Run(c, EMPTY, steps) == State([], map[], map[1 := Evicting(id)], map[0 := Got(0)], 1, {}, {0}, {0}, {}, 1)
  {
    var c := Config(2, 0);
    var s1 := Next(c, EMPTY, Start(0, id));
    assert s1 == State([], map[id := 0], map[0 := Connecting(id, 0)], map[], 0, {0}, {}, {}, {}, 1);
    var s2 := Next(c, s1, Connected(0));
    var s3 := Next(c, s2, Settle(0, true));
    var s4 := Next(c, s3, Tick(1));
    assert s4 == State([Entry(id, 0, 0)], map[], map[], map[0 := Got(0)], 1, {}, {0}, {}, {}, 1);
    RunCons(c, s4, Start(1, id), []);
    RunCons(c, s3, Tick(1), [Start(1, id)]);
    RunCons(c, s2, Settle(0, true), [Tick(1)] + [Start(1, id)]);
    RunCons(c, s1, Connected(0), [Settle(0, true)] + ([Tick(1)] + [Start(1, id)]));
    RunCons(c, EMPTY, Start(0, id), [Connected(0)] + ([Settle(0, true)] + ([Tick(1)] + [Start(1, id)])));
    assert [Start(0, id), Connected(0), Settle(0, true), Tick(1), Start(1, id)]
        == [Start(0, id)] + ([Connected(0)] + ([Settle(0, true)] + ([Tick(1)] + [Start(1, id)])));
  }

  lemma SecondConnection(id: Id)
    ensures var c := Config(2, 0);
            var s := State([], map[], map[1 := Evicting(id)], map[0 := Got(0)], 1, {}, {0}, {0}, {}, 1);
            var steps := [Start(2, id), Connected(2), Settle(2, true)];
            && Valid(c, s, steps)
            && Run(c, s, steps) == State([Entry(id, 1, 1)], map[], map[1 := Evicting(id)], map[0 := Got(0), 2 := Got(1)], 1, {}, {0, 1}, {0}, {}, 2)
  {
    var c := Config(2, 0);
    var s := State([], map[], map[1 := Evicting(id)], map[0 := Got(0)], 1, {}, {0}, {0}, {}, 1);
    var s1 := Next(c, s, Start(2, id));
    assert s1 == s.(inflight := map[id := 2], past := {2}, tasks := s.tasks[2 := Connecting(id, 1)], nextConn := 2);
    var s2 := Next(c, s1, Connected(2));
    RunCons(c, s2, Settle(2, true), []);
    RunCons(c, s1, Connected(2), [Settle(2, true)]);
    RunCons(c, s, Start(2, id), [Connected(2)] + [Settle(2, true)]);
    assert [Start(2, id), Connected(2), Settle(2, true)] == [Start(2, id)] + ([Connected(2)] + [Settle(2, true)]);
  }

  /** Two callers of one stale id are enough to lose a connection: the first resumes after the second has set its own. */
  lemma TwoCallersLoseOne(id: Id)
    ensures var c := Config(2, 0);
            var first := [Start(0, id), Connected(0), Settle(0, true), Tick(1), Start(1, id)];
            var second := [Start(2, id), Connected(2), Settle(2, true)];
            var third := [Resume(1), Connected(1)];
            && Valid(c, EMPTY, first)
            && Valid(c, Run(c, EMPTY, first), second)
            && Valid(c, Run(c, Run(c, EMPTY, first), second), third)
            && Run(c, Run(c, Run(c, EMPTY, first), second), third).lost == {1}
  {
    FirstConnection(id);
    SecondConnection(id);
    var c := Config(2, 0);
    var s := State([Entry(id, 1, 1)], map[], map[1 := Evicting(id)], map[0 := Got(0), 2 := Got(1)], 1, {}, {0, 1}, {0}, {}, 2);
    var s1 := Next(c, s, Resume(1));
    assert s1 == s.(inflight := map[id := 1], past := {1}, tasks := map[1 := Connecting(id, 2)], nextConn := 3);
    RunCons(c, s1, Connected(1), []);
    RunCons(c, s, Resume(1), [Connected(1)]);
    assert [Resume(1), Connected(1)] == [Resume(1)] + [Connected(1)];
  }

  // ----- the class --------------------------------------------------------

  /** The entries `reapIdle` leaves when nothing runs beside it. */
  function Kept(c: Config, now: int, es: seq<Entry>): seq<Entry> {
    if es == [] then []
    else Kept(c, now, es[..|es| - 1]) + (if Stale(c, now, es[|es| - 1]) then [] else [es[|es| - 1]])
  }

  lemma {:induction false} KeptIsTheFreshOnes(c: Config, now: int, es: seq<Entry>)
    ensures forall e :: e in Kept(c, now, es) <==> e in es && !Stale(c, now, e)
    ensures UniqueIds(es) ==> UniqueIds(Kept(c, now, es))
  {
    if es != [] {
      var n := |es| - 1;
      KeptIsTheFreshOnes(c, now, es[..n]);
      assert es == es[..n] + [es[n]];
      if UniqueIds(es) {
        var kept := Kept(c, now, es[..n]);
        forall i | 0 <= i < |kept| ensures kept[i].id != es[n].id {
          assert kept[i] in es[..n];
        }
      }
    }
  }

  lemma {:induction false} PosInParts(es: seq<Entry>, fs: seq<Entry>, e: Entry, gs: seq<Entry>)
    requires UniqueIds(es) && es == fs + [e] + gs
    ensures Pos(es, e.id) == |fs|
  {
    assert es[|fs|] == e;
  }

  class ConnectionPool {
    const config: Config
    var entries: seq<Entry>
    var inflight: map<Id, nat>
    var now: int
    var nextConn: nat
    ghost var tasks: map<nat, Task>
    ghost var results: map<nat, Outcome>
    ghost var past: set<nat>
    ghost var born: set<nat>
    ghost var disconnected: set<nat>
    ghost var lost: set<nat>

    ghost function Snapshot(): State
      reads this
    {
      State(entries, inflight, tasks, results, now, past, born, disconnected, lost, nextConn)
    }

    constructor (config: Config)
      ensures Snapshot() == EMPTY && Inv(Snapshot()) && this.config == config
    {
      this.config := config;
      entries, inflight, now, nextConn := [], map[], 0, 0;
      tasks, results, past, born, disconnected, lost := map[], map[], {}, {}, {}, {};
    }

    /** `Map.get`, as the entry's place. */
    method Find(id: Id) returns (k: int)
      ensures k == Pos(entries, id)
    {
      k := |entries| - 1;
      assert entries[..|entries|] == entries;
      while k >= 0 && entries[k].id != id
        invariant -1 <= k < |entries|
        invariant Pos(entries, id) == Pos(entries[..k + 1], id)
      {
        assert entries[..k + 1][..k] == entries[..k];
        k := k - 1;
      }
    }

    /** The scan of `evictLRU`: the first entry in map order with the least `lastUsedAt`. */
    method FindOldest() returns (k: Option<nat>)
      ensures k.None? <==> entries == []
      ensures k.Some? ==> k.value < |entries|
      ensures k.Some? ==> forall i :: 0 <= i < |entries| ==> entries[k.value].lastUsedAt <= entries[i].lastUsedAt
      ensures k.Some? ==> forall i :: 0 <= i < k.value ==> entries[k.value].lastUsedAt < entries[i].lastUsedAt
    {
      k := None;
      var i := 0;
      while i < |entries|
        invariant 0 <= i <= |entries|
        invariant k.None? <==> i == 0
        invariant k.Some? ==> k.value < i
        invariant k.Some? ==> forall j :: 0 <= j < i ==> entries[k.value].lastUsedAt <= entries[j].lastUsedAt
        invariant k.Some? ==> forall j :: 0 <= j < k.value ==> entries[k.value].lastUsedAt < entries[j].lastUsedAt
      {
        if k.None? || entries[i].lastUsedAt < entries[k.value].lastUsedAt { k := Some(i); }
        i := i + 1;
      }
    }

    /** `evict` up to its await. */
    method Evict(k: nat)
      requires k < |entries|
      modifies this`entries, this`disconnected
      ensures Snapshot() == Drop(old(Snapshot()), k)
      ensures old(entries)[k].conn in disconnected
      ensures old(UniqueIds(entries) && Conserved(Snapshot())) ==>
                UniqueIds(entries) && Conserved(Snapshot()) && !Has(entries, old(entries)[k].id)
    {
      if UniqueIds(entries) && Conserved(Snapshot()) { DropKeeps(Snapshot(), k); }
      disconnected := disconnected + {entries[k].conn};
      entries := entries[..k] + entries[k + 1..];
    }

    /** `getConnection` from its look at `inflight` up to its next await. */
    method CreateOrJoin(t: nat, id: Id)
      modifies this`entries, this`disconnected, this`inflight, this`tasks, this`past, this`nextConn
      ensures Snapshot() == Create(config, old(Snapshot()), t, id)
    {
      if id in inflight {
        tasks := tasks[t := Joined(inflight[id])];
        return;
      }
      inflight, past := inflight[id := t], past + {t};
      if |entries| < config.maxConnections {
        tasks := tasks[t := Connecting(id, nextConn)];
        nextConn := nextConn + 1;
      } else {
        tasks := tasks[t := MakingRoom(id)];
        var k := FindOldest();
        if k.Some? { Evict(k.value); }
      }
    }

    /** `getConnection` up to its first await; a cached connection is returned at once. */
    method GetConnection(t: nat, id: Id) returns (conn: Option<nat>)
      requires Inv(Snapshot()) && Enabled(Snapshot(), Start(t, id))
      modifies this
      ensures Snapshot() == Next(config, old(Snapshot()), Start(t, id)) && Inv(Snapshot())
      ensures conn.Some? <==> t in results
      ensures conn.Some? ==> InPool(entries, conn.value) && conn.value !in disconnected && results[t] == Got(conn.value)
    {
      StepKeepsInv(config, Snapshot(), Start(t, id));
      CachedHandOut(config, Snapshot(), t, id);
      conn := None;
      var k := Find(id);
      if k < 0 {
        CreateOrJoin(t, id);
      } else if now - entries[k].lastUsedAt <= config.idleTimeout {
        conn := Some(entries[k].conn);
        results := results[t := Got(entries[k].conn)];
        entries := entries[k := entries[k].(lastUsedAt := now)];
      } else {
        tasks := tasks[t := Evicting(id)];
        Evict(k);
      }
    }

    /** `getConnection` once its stale entry has been disconnected. */
    method AfterEvict(t: nat, id: Id)
      requires Inv(Snapshot()) && t in tasks && tasks[t] == Evicting(id)
      modifies this
      ensures Snapshot() == Next(config, old(Snapshot()), Resume(t)) && Inv(Snapshot())
    {
      StepKeepsInv(config, Snapshot(), Resume(t));
      CreateOrJoin(t, id);
    }

    /** `createAndConnect` once the LRU victim has been disconnected. */
    method AfterMakingRoom(t: nat, id: Id)
      requires Inv(Snapshot()) && t in tasks && tasks[t] == MakingRoom(id)
      modifies this
      ensures Snapshot() == Next(config, old(Snapshot()), Resume(t)) && Inv(Snapshot())
    {
      StepKeepsInv(config, Snapshot(), Resume(t));
      tasks := tasks[t := Connecting(id, nextConn)];
      nextConn := nextConn + 1;
    }

    /** `createAndConnect` once `connect` has succeeded. */
    method AfterConnect(t: nat, id: Id, conn: nat)
      requires Inv(Snapshot()) && t in tasks && tasks[t] == Connecting(id, conn)
      modifies this
      ensures Snapshot() == Next(config, old(Snapshot()), Connected(t)) && Inv(Snapshot())
    {
      StepKeepsInv(config, Snapshot(), Connected(t));
      SetEntry(t, id, conn);
    }

    /** `this.pool.set` */
    method SetEntry(t: nat, id: Id, conn: nat)
      requires t in tasks && tasks[t] == Connecting(id, conn)
      modifies this
      ensures Snapshot() == Next(config, old(Snapshot()), Connected(t))
    {
      var k := Find(id);
      if k >= 0 {
        lost := lost + {entries[k].conn};
        entries := entries[k := Entry(id, conn, now)];
      } else {
        entries := entries + [Entry(id, conn, now)];
      }
      tasks, past, born := tasks[t := Recording(id, conn)], past - {t}, born + {conn};
    }

    /** The creator's `finally`, once its promise has settled. */
    method AfterSettle(t: nat, id: Id, recorded: bool)
      requires Inv(Snapshot()) && Enabled(Snapshot(), Settle(t, recorded)) && tasks[t].id == id
      modifies this
      ensures Snapshot() == Next(config, old(Snapshot()), Settle(t, recorded)) && Inv(Snapshot())
    {
      StepKeepsInv(config, Snapshot(), Settle(t, recorded));
      inflight := inflight - {id};
      results := results[t := if tasks[t].Recording? && recorded then Got(tasks[t].conn) else Threw];
      tasks := tasks - {t};
    }

    method Release(id: Id)
      requires Inv(Snapshot())
      modifies this
      ensures Snapshot() == Next(config, old(Snapshot()), Touch(id)) && Inv(Snapshot())
    {
      StepKeepsInv(config, Snapshot(), Touch(id));
      var k := Find(id);
      if k >= 0 { entries := entries[k := entries[k].(lastUsedAt := now)]; }
    }

    /** One turn of the loop of `reapIdle`, up to its await. */
    method ReapOne(id: Id)
      requires Inv(Snapshot())
      modifies this`entries, this`disconnected
      ensures Snapshot() == Next(config, old(Snapshot()), Reap(id)) && Inv(Snapshot())
    {
      StepKeepsInv(config, Snapshot(), Reap(id));
      var k := Find(id);
      if k >= 0 && now - entries[k].lastUsedAt > config.idleTimeout { Evict(k); }
    }

    /** `reapIdle` with nothing interleaved; `ReapedAll` says what it leaves. */
    method ReapIdle()
      requires Inv(Snapshot())
      modifies this`entries, this`disconnected
      ensures Snapshot() == ReapAll(config, old(Snapshot()), old(entries)) && Inv(Snapshot())
    {
      var es := entries;
      var i := 0;
      ghost var s0 := Snapshot();
      while i < |es|
        invariant 0 <= i <= |es|
        invariant Inv(Snapshot())
        invariant Snapshot() == ReapAll(config, s0, es[..i])
      {
        ReapAllSnoc(config, s0, es, i);
        ReapOne(es[i].id);
        i := i + 1;
      }
      assert es[..|es|] == es;
    }
  }

  function ReapAll(c: Config, s: State, es: seq<Entry>): State {
    if es == [] then s else Next(c, ReapAll(c, s, es[..|es| - 1]), Reap(es[|es| - 1].id))
  }

  lemma {:induction false} ReapAllSnoc(c: Config, s: State, es: seq<Entry>, i: nat)
    requires i < |es|
    ensures ReapAll(c, s, es[..i + 1]) == Next(c, ReapAll(c, s, es[..i]), Reap(es[i].id))
  {
    assert es[..i + 1][..i] == es[..i];
  }

  ghost predicate StaleConnsIn(c: Config, now: int, es: seq<Entry>, conns: set<nat>) {
    forall e :: e in es && Stale(c, now, e) ==> e.conn in conns
  }

  lemma {:induction false} ReapTurn(c: Config, s: State, kept: seq<Entry>, e: Entry, rest: seq<Entry>)
    requires UniqueIds(s.entries) && s.entries == kept + [e] + rest
    ensures var u := Next(c, s, Reap(e.id));
            && u.entries == kept + (if Stale(c, s.now, e) then [] else [e]) + rest
            && u.disconnected == s.disconnected + (if Stale(c, s.now, e) then {e.conn} else {})
            && u.now == s.now
  {
    PosInParts(s.entries, kept, e, rest);
    assert Without(s.entries, |kept|) == kept + rest;
  }

  lemma {:induction false} KeptPrefix(c: Config, now: int, es: seq<Entry>, rest: seq<Entry>)
    requires UniqueIds(es + rest)
    ensures UniqueIds(Kept(c, now, es) + rest)
  {
    KeptIsTheFreshOnes(c, now, es);
    assert UniqueIds(es) by { forall i | 0 <= i < |es| ensures (es + rest)[i] == es[i] { } }
    var kept := Kept(c, now, es);
    forall i, j | 0 <= i < |kept| && 0 <= j < |rest| ensures kept[i].id != rest[j].id {
      assert kept[i] in es;
      var k :| 0 <= k < |es| && es[k] == kept[i];
      assert (es + rest)[k].id != (es + rest)[|es| + j].id;
    }
    forall i, j | 0 <= i < j < |rest| ensures rest[i].id != rest[j].id {
      assert (es + rest)[|es| + i].id != (es + rest)[|es| + j].id;
    }
  }

  lemma {:induction false} ReapedStep(c: Config, s: State, first: seq<Entry>, e: Entry, rest: seq<Entry>)
    requires UniqueIds(s.entries)
    requires s.entries == Kept(c, s.now, first) + ([e] + rest)
    requires StaleConnsIn(c, s.now, first, s.disconnected)
    ensures var u := Next(c, s, Reap(e.id));
            u.entries == Kept(c, s.now, first + [e]) + rest && u.now == s.now && StaleConnsIn(c, s.now, first + [e], u.disconnected)
  {
    var kept: seq<Entry> := Kept(c, s.now, first);
    assert kept + ([e] + rest) == kept + [e] + rest;
    assert (first + [e])[..|first|] == first;
    ReapTurn(c, s, kept, e, rest);
  }

  lemma {:induction false} ReapedPrefix(c: Config, s: State, es: seq<Entry>, rest: seq<Entry>)
    requires UniqueIds(s.entries) && s.entries == es + rest
    ensures ReapAll(c, s, es).entries == Kept(c, s.now, es) + rest
    ensures ReapAll(c, s, es).now == s.now
    ensures StaleConnsIn(c, s.now, es, ReapAll(c, s, es).disconnected)
    decreases |es|
  {
    if es != [] {
      var first: seq<Entry>, e := es[..|es| - 1], es[|es| - 1];
      assert es == first + [e];
      assert s.entries == first + ([e] + rest);
      ReapedPrefix(c, s, first, [e] + rest);
      KeptPrefix(c, s.now, first, [e] + rest);
      var u := ReapAll(c, s, first);
      ReapedStep(c, u, first, e, rest);
      assert ReapAll(c, s, es) == Next(c, u, Reap(e.id));
    }
  }

  /** After a reap that nothing interrupts, exactly the entries within the idle timeout remain, in order,
      and every other one has been disconnected. */
  lemma {:induction false} ReapedAll(c: Config, s: State)
    requires Inv(s)
    ensures var u := ReapAll(c, s, s.entries);
            && u.entries == Kept(c, s.now, s.entries)
            && (forall e :: e in u.entries <==> e in s.entries && s.now - e.lastUsedAt <= c.idleTimeout)
            && (forall e :: e in s.entries && s.now - e.lastUsedAt > c.idleTimeout ==> e.conn in u.disconnected)
  {
    ReapedPrefix(c, s, s.entries, []);
    KeptIsTheFreshOnes(c, s.now, s.entries);
  }
}
