/** `RefreshEngine.sweep`: enumeration, staleness reconciliation and the drift diff. */
module Refresh {
  import opened Wrappers
  import opened Stores

  datatype Thresholds = Thresholds(stale: int, gone: int)

  /** One upsert of the enumeration; one that fails is noted and skipped. */
  datatype Upsert<T> = Upsert(item: T, stored: bool)

  /** One platform's part of the deep enumeration: whether it succeeded, and the upserts it led to. */
  datatype Report = Report(platformId: string, ok: bool, entities: seq<Upsert<Entity>>, edges: seq<Upsert<Edge>>)

  datatype Drift =
    | EntityAdded(entity: Entity)
    | EntityGone(entity: Entity)
    | ReplicaMismatch(entity: Entity, running: real, desired: real)
    | ImageChanged(entity: Entity, previous: string, current: string)

  // ----- enumeration ------------------------------------------------------

  /** The items of the upserts that succeeded. */
  function Stored<T>(us: seq<Upsert<T>>): seq<T> {
    if us == [] then [] else Stored(us[..|us| - 1]) + (if us[|us| - 1].stored then [us[|us| - 1].item] else [])
  }

  /** A failed platform upserts nothing. */
  function EntitiesOf(reports: seq<Report>): seq<Entity> {
    if reports == [] then []
    else EntitiesOf(reports[..|reports| - 1]) + (if reports[|reports| - 1].ok then Stored(reports[|reports| - 1].entities) else [])
  }

  function EdgesOf(reports: seq<Report>): seq<Edge> {
    if reports == [] then []
    else EdgesOf(reports[..|reports| - 1]) + (if reports[|reports| - 1].ok then Stored(reports[|reports| - 1].edges) else [])
  }

  function Succeeded(reports: seq<Report>): set<string> {
    set i | 0 <= i < |reports| && reports[i].ok :: reports[i].platformId
  }

  function UpsertAll(es: seq<Entity>, us: seq<Entity>): seq<Entity> {
    if us == [] then es else UpsertEntity(UpsertAll(es, us[..|us| - 1]), us[|us| - 1])
  }

  function UpsertAllEdges(es: seq<Edge>, us: seq<Edge>): seq<Edge> {
    if us == [] then es else UpsertEdge(UpsertAllEdges(es, us[..|us| - 1]), us[|us| - 1])
  }

  predicate Mentioned(us: seq<Entity>, id: string) { exists i :: 0 <= i < |us| && us[i].id == id }

  /** An upserted id shows the last of its upserts; if that one has no platform, the platform stays the one before. */
  lemma {:induction false} UpsertAllLast(es: seq<Entity>, us: seq<Entity>, k: nat)
    requires UniqueEntities(es) && k < |us| && forall j :: k < j < |us| ==> us[j].id != us[k].id
    ensures var now, before := FindEntity(UpsertAll(es, us), us[k].id), FindEntity(UpsertAll(es, us[..k]), us[k].id);
            && now.Some? && now.value.(platformId := us[k].platformId) == us[k]
            && now.value.platformId == (if us[k].platformId.None? && before.Some? then before.value.platformId else us[k].platformId)
    decreases |us|
  {
    var init: seq<Entity>, last := us[..|us| - 1], us[|us| - 1];
    UpsertAllFinds(es, init, last.id);
    UpsertIsMapUpdate(UpsertAll(es, init), last, us[k].id);
    if k < |us| - 1 {
      assert init[..k] == us[..k];
      UpsertAllLast(es, init, k);
    }
  }

  /** An id that is not upserted keeps its entity; an upserted one shows some upsert of it, up to the platform id. */
  lemma {:induction false} UpsertAllFinds(es: seq<Entity>, us: seq<Entity>, id: string)
    requires UniqueEntities(es)
    ensures UniqueEntities(UpsertAll(es, us))
    ensures !Mentioned(us, id) ==> FindEntity(UpsertAll(es, us), id) == FindEntity(es, id)
    ensures Mentioned(us, id) ==>
              FindEntity(UpsertAll(es, us), id).Some? &&
              ShowsUpsert(us, FindEntity(UpsertAll(es, us), id).value)
    ensures FindEntity(es, id).Some? ==> FindEntity(UpsertAll(es, us), id).Some?
  {
    if us != [] {
      var init, last := us[..|us| - 1], us[|us| - 1];
      UpsertAllFinds(es, init, id);
      UpsertIsMapUpdate(UpsertAll(es, init), last, id);
      if Mentioned(init, id) {
        var i :| 0 <= i < |init| && init[i].id == id;
        assert us[i].id == id;
      }
      if Mentioned(us, id) && last.id != id {
        var i :| 0 <= i < |us| && us[i].id == id;
        assert init[i].id == id;
      }
      var now := FindEntity(UpsertAll(es, us), id);
      if last.id == id {
        assert us[|us| - 1].id == id;
        assert now.value == us[|us| - 1].(platformId := now.value.platformId);
      } else if Mentioned(us, id) {
        var k :| 0 <= k < |init| && now.value == init[k].(platformId := now.value.platformId);
        assert us[k] == init[k];
      }
    }
  }

  ghost predicate ShowsUpsert(us: seq<Entity>, e: Entity) {
    exists k :: 0 <= k < |us| && e == us[k].(platformId := e.platformId)
  }

  // ----- reconciliation ---------------------------------------------------

  function Severity(s: Status): nat {
    match s
    case Active => 0
    case Stale => 1
    case Gone => 2
  }

  function Worse(a: Status, b: Status): Status { if Severity(a) >= Severity(b) then a else b }

  /** What an age alone calls for. */
  function Verdict(t: Thresholds, age: int): Status {
    if age >= t.gone then Gone else if age >= t.stale then Stale else Active
  }

  predicate Covered(platformId: Option<string>, ok: set<string>) { platformId.Some? && platformId.value in ok }

  /** The branch structure of the loop body. */
  function Judge(t: Thresholds, at: int, ok: set<string>, platformId: Option<string>, status: Status, lastSeen: int): Status {
    if !Covered(platformId, ok) then status
    else if status == Gone then status
    else if at - lastSeen >= t.gone then Gone
    else if at - lastSeen >= t.stale && status == Active then Stale
    else status
  }

  /** On a succeeded platform the status becomes the worse of what it was and what the age calls for, so it
      never improves; elsewhere it stays. */
  lemma JudgeIsWorse(t: Thresholds, at: int, ok: set<string>, platformId: Option<string>, status: Status, lastSeen: int)
    ensures Judge(t, at, ok, platformId, status, lastSeen) ==
            if Covered(platformId, ok) then Worse(status, Verdict(t, at - lastSeen)) else status
  {
  }

  function JudgeEntity(t: Thresholds, at: int, ok: set<string>, e: Entity): Entity {
    e.(status := Judge(t, at, ok, e.platformId, e.status, e.lastSeen))
  }

  /** The reconciled entity, by the numbers: on a platform that has not succeeded it stays; else it is gone exactly when
      it was or its age reaches the threshold for gone, stale when it is not gone and was stale or its age reaches
      the threshold for stale; nothing but the status changes. */
  lemma ReconciledEntity(t: Thresholds, at: int, ok: set<string>, e: Entity)
    ensures var r, age := JudgeEntity(t, at, ok, e), at - e.lastSeen;
            && r == e.(status := r.status)
            && if e.platformId.None? || e.platformId.value !in ok then r == e
               else && (r.status == Gone <==> e.status == Gone || age >= t.gone)
                    && (r.status == Stale <==> e.status != Gone && age < t.gone && (e.status == Stale || age >= t.stale))
  {
  }

  /** The same for an edge: its platform is that of its source, or of its target when the source is unknown or has none. */
  lemma ReconciledEdge(t: Thresholds, at: int, ok: set<string>, es: seq<Entity>, e: Edge)
    ensures var r, age := JudgeEdge(t, at, ok, es, e), at - e.lastSeen;
            var a, b := FindEntity(es, e.source), FindEntity(es, e.target);
            var platform := if a.Some? && a.value.platformId.Some? then a.value.platformId
                            else if b.Some? then b.value.platformId else None;
            && r == e.(status := r.status)
            && if platform.None? || platform.value !in ok then r == e
               else && (r.status == Gone <==> e.status == Gone || age >= t.gone)
                    && (r.status == Stale <==> e.status != Gone && age < t.gone && (e.status == Stale || age >= t.stale))
  {
  }

  function JudgeAll(t: Thresholds, at: int, ok: set<string>, es: seq<Entity>): (r: seq<Entity>)
    ensures |r| == |es|
    ensures forall i :: 0 <= i < |es| ==> r[i] == JudgeEntity(t, at, ok, es[i])
  {
    if es == [] then [] else JudgeAll(t, at, ok, es[..|es| - 1]) + [JudgeEntity(t, at, ok, es[|es| - 1])]
  }

  /** The platform of the edge's first endpoint that has one. */
  function EdgePlatform(es: seq<Entity>, e: Edge): Option<string> {
    var a, b := FindEntity(es, e.source), FindEntity(es, e.target);
    if a.Some? && a.value.platformId.Some? then a.value.platformId
    else if b.Some? then b.value.platformId else None
  }

  function JudgeEdge(t: Thresholds, at: int, ok: set<string>, es: seq<Entity>, e: Edge): Edge {
    e.(status := Judge(t, at, ok, EdgePlatform(es, e), e.status, e.lastSeen))
  }

  function JudgeEdges(t: Thresholds, at: int, ok: set<string>, es: seq<Entity>, edges: seq<Edge>): (r: seq<Edge>)
    ensures |r| == |edges|
    ensures forall i :: 0 <= i < |edges| ==> r[i] == JudgeEdge(t, at, ok, es, edges[i])
  {
    if edges == [] then [] else JudgeEdges(t, at, ok, es, edges[..|edges| - 1]) + [JudgeEdge(t, at, ok, es, edges[|edges| - 1])]
  }

  /** How many entities have `status` afterwards and had another one before. */
  function Transitions(before: seq<Entity>, after: seq<Entity>, status: Status): nat
    requires |before| == |after|
  {
    if before == [] then 0
    else
      var n := |before| - 1;
      Transitions(before[..n], after[..n], status) + (if after[n].status == status && before[n].status != status then 1 else 0)
  }

  // ----- one sweep --------------------------------------------------------

  datatype Sweep = SweepOf(at: int, reports: seq<Report>)

  function Enumerated(g: Graph, s: Sweep): Graph {
    Graph(UpsertAll(g.entities, EntitiesOf(s.reports)), UpsertAllEdges(g.edges, EdgesOf(s.reports)))
  }

  function Reconciled(t: Thresholds, s: Sweep, g: Graph): Graph {
    var ok := Succeeded(s.reports);
    Graph(JudgeAll(t, s.at, ok, g.entities), JudgeEdges(t, s.at, ok, g.entities, g.edges))
  }

  function Swept(t: Thresholds, g: Graph, s: Sweep): Graph { Reconciled(t, s, Enumerated(g, s)) }

  function SweptAll(t: Thresholds, g: Graph, sweeps: seq<Sweep>): Graph {
    if sweeps == [] then g else Swept(t, SweptAll(t, g, sweeps[..|sweeps| - 1]), sweeps[|sweeps| - 1])
  }

  /** Judging does not move entities: an id is found where it was, judged. */
  lemma {:induction false} JudgeAllFinds(t: Thresholds, at: int, ok: set<string>, es: seq<Entity>, id: string)
    requires UniqueEntities(es)
    ensures UniqueEntities(JudgeAll(t, at, ok, es))
    ensures FindEntity(JudgeAll(t, at, ok, es), id) ==
            if FindEntity(es, id).Some? then Some(JudgeEntity(t, at, ok, FindEntity(es, id).value)) else None
  {
    var r := JudgeAll(t, at, ok, es);
    var i, j := EntityIndex(es, id), EntityIndex(r, id);
    if i >= 0 { assert r[i].id == id; }
    if j >= 0 { assert es[j].id == id; }
  }

  /** Reconciliation leaves every entity that is on no succeeded platform as it is, and changes nothing but
      the status of the others. */
  lemma {:induction false} ReconciliationIsLocal(t: Thresholds, s: Sweep, g: Graph, i: nat)
    requires i < |g.entities|
    ensures var r := Reconciled(t, s, g).entities;
            && |r| == |g.entities| && r[i] == g.entities[i].(status := r[i].status)
            && (!Covered(g.entities[i].platformId, Succeeded(s.reports)) ==> r[i] == g.entities[i])
            && Severity(r[i].status) >= Severity(g.entities[i].status)
  {
  }

  lemma {:induction false} SweptFinds(t: Thresholds, g: Graph, s: Sweep, id: string)
    requires UniqueEntities(g.entities)
    ensures UniqueEntities(Swept(t, g, s).entities)
    ensures FindEntity(g.entities, id).Some? ==> FindEntity(Swept(t, g, s).entities, id).Some?
    ensures !Mentioned(EntitiesOf(s.reports), id) ==>
              FindEntity(Swept(t, g, s).entities, id) ==
              if FindEntity(g.entities, id).Some?
              then Some(JudgeEntity(t, s.at, Succeeded(s.reports), FindEntity(g.entities, id).value)) else None
  {
    UpsertAllFinds(g.entities, EntitiesOf(s.reports), id);
    JudgeAllFinds(t, s.at, Succeeded(s.reports), Enumerated(g, s).entities, id);
  }

  // ----- edges are kept too -----------------------------------------------

  predicate HasEdge(es: seq<Edge>, id: string) { exists i :: 0 <= i < |es| && es[i].id == id }

  lemma {:induction false} UpsertEdgeKeeps(es: seq<Edge>, e: Edge, id: string)
    requires UniqueEdges(es)
    ensures UniqueEdges(UpsertEdge(es, e)) && (HasEdge(es, id) ==> HasEdge(UpsertEdge(es, e), id))
  {
    UpsertEdgeKeepsUnique(es, e);
    if HasEdge(es, id) {
      var i :| 0 <= i < |es| && es[i].id == id;
      assert UpsertEdge(es, e)[i].id == id;
    }
  }

  lemma {:induction false} UpsertAllEdgesKeeps(es: seq<Edge>, us: seq<Edge>, id: string)
    requires UniqueEdges(es)
    ensures UniqueEdges(UpsertAllEdges(es, us)) && (HasEdge(es, id) ==> HasEdge(UpsertAllEdges(es, us), id))
  {
    if us != [] {
      UpsertAllEdgesKeeps(es, us[..|us| - 1], id);
      UpsertEdgeKeeps(UpsertAllEdges(es, us[..|us| - 1]), us[|us| - 1], id);
    }
  }

  lemma {:induction false} SweptKeepsEdge(t: Thresholds, g: Graph, s: Sweep, id: string)
    requires UniqueEdges(g.edges)
    ensures UniqueEdges(Swept(t, g, s).edges) && (HasEdge(g.edges, id) ==> HasEdge(Swept(t, g, s).edges, id))
  {
    UpsertAllEdgesKeeps(g.edges, EdgesOf(s.reports), id);
    if HasEdge(g.edges, id) {
      var es := Enumerated(g, s).edges;
      var i :| 0 <= i < |es| && es[i].id == id;
      assert Swept(t, g, s).edges[i].id == id;
    }
  }

  // ----- whole runs -------------------------------------------------------

  /** No sweep ever deletes an entity or an edge, and ids stay unique. */
  lemma {:induction false} NothingIsDeleted(t: Thresholds, g: Graph, sweeps: seq<Sweep>, id: string)
    requires UniqueIds(g)
    ensures UniqueIds(SweptAll(t, g, sweeps))
    ensures FindEntity(g.entities, id).Some? ==> FindEntity(SweptAll(t, g, sweeps).entities, id).Some?
    ensures HasEdge(g.edges, id) ==> HasEdge(SweptAll(t, g, sweeps).edges, id)
    decreases |sweeps|
  {
    if sweeps != [] {
      NothingIsDeleted(t, g, sweeps[..|sweeps| - 1], id);
      var mid := SweptAll(t, g, sweeps[..|sweeps| - 1]);
      SweptFinds(t, mid, sweeps[|sweeps| - 1], id);
      SweptKeepsEdge(t, mid, sweeps[|sweeps| - 1], id);
    }
  }

  predicate Unseen(sweeps: seq<Sweep>, id: string) {
    forall k :: 0 <= k < |sweeps| ==> !Mentioned(EntitiesOf(sweeps[k].reports), id)
  }

  predicate ClockAdvances(sweeps: seq<Sweep>) { forall i, j :: 0 <= i < j < |sweeps| ==> sweeps[i].at <= sweeps[j].at }

  /** The time of the last sweep that enumerated the platform. */
  function LastCovering(sweeps: seq<Sweep>, platformId: Option<string>): Option<int> {
    if sweeps == [] then None
    else if Covered(platformId, Succeeded(sweeps[|sweeps| - 1].reports)) then Some(sweeps[|sweeps| - 1].at)
    else LastCovering(sweeps[..|sweeps| - 1], platformId)
  }

  lemma {:induction false} LastCoveringIsPast(sweeps: seq<Sweep>, platformId: Option<string>, now: int)
    requires LastCovering(sweeps, platformId).Some? && forall i :: 0 <= i < |sweeps| ==> sweeps[i].at <= now
    ensures LastCovering(sweeps, platformId).value <= now
    decreases |sweeps|
  {
    if !Covered(platformId, Succeeded(sweeps[|sweeps| - 1].reports)) {
      LastCoveringIsPast(sweeps[..|sweeps| - 1], platformId, now);
    }
  }

  lemma WorseAges(t: Thresholds, status: Status, age1: int, age2: int)
    requires age1 <= age2
    ensures Worse(Worse(status, Verdict(t, age1)), Verdict(t, age2)) == Worse(status, Verdict(t, age2))
  {
  }

  /** The status an entity has after sweeps that never see it again. */
  function Aged(t: Thresholds, e: Entity, sweeps: seq<Sweep>): Status {
    var last := LastCovering(sweeps, e.platformId);
    if last.None? then e.status else Worse(e.status, Verdict(t, last.value - e.lastSeen))
  }

  lemma {:induction false} AgedStep(t: Thresholds, e: Entity, sweeps: seq<Sweep>)
    requires sweeps != [] && ClockAdvances(sweeps)
    ensures var n := |sweeps| - 1;
            Judge(t, sweeps[n].at, Succeeded(sweeps[n].reports), e.platformId, Aged(t, e, sweeps[..n]), e.lastSeen) == Aged(t, e, sweeps)
  {
    var n := |sweeps| - 1;
    JudgeIsWorse(t, sweeps[n].at, Succeeded(sweeps[n].reports), e.platformId, Aged(t, e, sweeps[..n]), e.lastSeen);
    if LastCovering(sweeps[..n], e.platformId).Some? {
      LastCoveringIsPast(sweeps[..n], e.platformId, sweeps[n].at);
      WorseAges(t, e.status, LastCovering(sweeps[..n], e.platformId).value - e.lastSeen, sweeps[n].at - e.lastSeen);
    }
  }

  /** Under a clock that does not go back, an entity that is never seen again keeps all its fields but the
      status, and its status is exactly the worse of its old one and what its age at the last sweep of its
      platform calls for: it moves only from active to stale to gone, and sweeps that miss its platform count
      for nothing. */
  lemma {:induction false} UnseenEntityAges(t: Thresholds, g: Graph, sweeps: seq<Sweep>, id: string)
    requires UniqueEntities(g.entities) && FindEntity(g.entities, id).Some? && Unseen(sweeps, id) && ClockAdvances(sweeps)
    ensures UniqueEntities(SweptAll(t, g, sweeps).entities)
    ensures var e := FindEntity(g.entities, id).value;
            FindEntity(SweptAll(t, g, sweeps).entities, id) == Some(e.(status := Aged(t, e, sweeps)))
    decreases |sweeps|
  {
    if sweeps != [] {
      var n := |sweeps| - 1;
      UnseenEntityAges(t, g, sweeps[..n], id);
      SweptFinds(t, SweptAll(t, g, sweeps[..n]), sweeps[n], id);
      AgedStep(t, FindEntity(g.entities, id).value, sweeps);
    }
  }

  // ----- which edges are reconciled ----------------------------------------

  function PlatformOf(es: seq<Entity>, id: string): Option<string> {
    match FindEntity(es, id)
    case None => None
    case Some(e) => e.platformId
  }

  /** The rule of the source's comment: both endpoints belong to succeeded platforms. */
  predicate BothCovered(es: seq<Entity>, ok: set<string>, e: Edge) {
    Covered(PlatformOf(es, e.source), ok) && Covered(PlatformOf(es, e.target), ok)
  }

  /** The code reconciles every edge that the comment's rule admits. The two rules agree on an edge exactly when
      a source on a succeeded platform has its target on one too, and a source without a platform has its target
      on none that succeeded. */
  lemma EdgeRulesAgreeIff(es: seq<Entity>, ok: set<string>, e: Edge)
    ensures BothCovered(es, ok, e) ==> Covered(EdgePlatform(es, e), ok)
    ensures var a, b := PlatformOf(es, e.source), PlatformOf(es, e.target);
            (Covered(EdgePlatform(es, e), ok) <==> BothCovered(es, ok, e)) <==>
            (Covered(a, ok) ==> Covered(b, ok)) && (a.None? ==> !Covered(b, ok))
  {
  }

  /** So a sweep leaves the edge as the comment's rule would exactly when the two agree on it, or its age calls for
      nothing worse than its status. */
  lemma {:induction false} EdgeIsLeftAsCommentedIff(t: Thresholds, at: int, ok: set<string>, es: seq<Entity>, e: Edge)
    ensures JudgeEdge(t, at, ok, es, e) == (if BothCovered(es, ok, e) then JudgeEdge(t, at, ok, es, e) else e) <==>
            || ((Covered(PlatformOf(es, e.source), ok) ==> Covered(PlatformOf(es, e.target), ok))
                && (PlatformOf(es, e.source).None? ==> !Covered(PlatformOf(es, e.target), ok)))
            || Severity(Verdict(t, at - e.lastSeen)) <= Severity(e.status)
  {
    EdgeRulesAgreeIff(es, ok, e);
    JudgeIsWorse(t, at, ok, EdgePlatform(es, e), e.status, e.lastSeen);
  }

  // ----- edges that are never seen again ----------------------------------

  function FindEdge(es: seq<Edge>, id: string): Option<Edge> {
    var i := EdgeIndex(es, id);
    if i >= 0 then Some(es[i]) else None
  }

  predicate MentionedEdge(us: seq<Edge>, id: string) { exists i :: 0 <= i < |us| && us[i].id == id }

  lemma {:induction false} UpsertEdgeLeaves(es: seq<Edge>, e: Edge, id: string)
    requires UniqueEdges(es) && e.id != id
    ensures UniqueEdges(UpsertEdge(es, e)) && FindEdge(UpsertEdge(es, e), id) == FindEdge(es, id)
  {
    UpsertEdgeKeepsUnique(es, e);
    var r := UpsertEdge(es, e);
    var i, j := EdgeIndex(es, id), EdgeIndex(r, id);
    if i >= 0 { assert r[i] == es[i]; }
    if 0 <= j < |es| { assert es[j].id == id; }
  }

  lemma UnmentionedInit(first: seq<Edge>, last: Edge, id: string)
    requires !MentionedEdge(first + [last], id)
    ensures last.id != id && !MentionedEdge(first, id)
  {
    assert (first + [last])[|first|].id != id;
    forall i | 0 <= i < |first| ensures first[i].id != id { assert (first + [last])[i].id != id; }
  }

  lemma {:induction false} UpsertAllEdgesLeaves(es: seq<Edge>, us: seq<Edge>, id: string)
    requires UniqueEdges(es) && !MentionedEdge(us, id)
    ensures UniqueEdges(UpsertAllEdges(es, us)) && FindEdge(UpsertAllEdges(es, us), id) == FindEdge(es, id)
  {
    if us != [] {
      var first: seq<Edge>, last := us[..|us| - 1], us[|us| - 1];
      assert us == first + [last];
      UnmentionedInit(first, last, id);
      UpsertAllEdgesLeaves(es, first, id);
      UpsertEdgeLeaves(UpsertAllEdges(es, first), last, id);
    }
  }

  lemma {:induction false} JudgeEdgesFinds(t: Thresholds, at: int, ok: set<string>, es: seq<Entity>, edges: seq<Edge>, id: string)
    requires UniqueEdges(edges)
    ensures UniqueEdges(JudgeEdges(t, at, ok, es, edges))
    ensures FindEdge(JudgeEdges(t, at, ok, es, edges), id) ==
            if FindEdge(edges, id).Some? then Some(JudgeEdge(t, at, ok, es, FindEdge(edges, id).value)) else None
  {
    var r := JudgeEdges(t, at, ok, es, edges);
    var i, j := EdgeIndex(edges, id), EdgeIndex(r, id);
    if i >= 0 { assert r[i].id == id; }
    if j >= 0 { assert edges[j].id == id; }
  }

  lemma {:induction false} SweptLeavesEdge(t: Thresholds, g: Graph, s: Sweep, id: string)
    requires UniqueEdges(g.edges) && !MentionedEdge(EdgesOf(s.reports), id)
    ensures UniqueEdges(Swept(t, g, s).edges)
    ensures FindEdge(Swept(t, g, s).edges, id) ==
            if FindEdge(g.edges, id).Some?
            then Some(JudgeEdge(t, s.at, Succeeded(s.reports), Enumerated(g, s).entities, FindEdge(g.edges, id).value)) else None
  {
    UpsertAllEdgesLeaves(g.edges, EdgesOf(s.reports), id);
    JudgeEdgesFinds(t, s.at, Succeeded(s.reports), Enumerated(g, s).entities, Enumerated(g, s).edges, id);
  }

  /** Does the sweep, made on graph `g`, enumerate the platform that the edge is judged by? */
  predicate CoversEdge(g: Graph, s: Sweep, e: Edge) {
    Covered(EdgePlatform(Enumerated(g, s).entities, e), Succeeded(s.reports))
  }

  /** The time of the last sweep that did. */
  function LastCoveringEdge(t: Thresholds, g: Graph, sweeps: seq<Sweep>, e: Edge): Option<int> {
    if sweeps == [] then None
    else
      var n := |sweeps| - 1;
      if CoversEdge(SweptAll(t, g, sweeps[..n]), sweeps[n], e) then Some(sweeps[n].at) else LastCoveringEdge(t, g, sweeps[..n], e)
  }

  lemma {:induction false} LastCoveringEdgeIsPast(t: Thresholds, g: Graph, sweeps: seq<Sweep>, e: Edge, now: int)
    requires LastCoveringEdge(t, g, sweeps, e).Some? && forall i :: 0 <= i < |sweeps| ==> sweeps[i].at <= now
    ensures LastCoveringEdge(t, g, sweeps, e).value <= now
    decreases |sweeps|
  {
    var n := |sweeps| - 1;
    if !CoversEdge(SweptAll(t, g, sweeps[..n]), sweeps[n], e) { LastCoveringEdgeIsPast(t, g, sweeps[..n], e, now); }
  }

  /** The status an edge has after sweeps that never see it again. */
  function AgedEdge(t: Thresholds, g: Graph, e: Edge, sweeps: seq<Sweep>): Status {
    AgedTo(t, e.status, e.lastSeen, LastCoveringEdge(t, g, sweeps, e))
  }

  lemma {:induction false} AgedEdgeStep(t: Thresholds, g: Graph, e: Edge, sweeps: seq<Sweep>)
    requires sweeps != [] && ClockAdvances(sweeps)
    ensures var n := |sweeps| - 1;
            var now := e.(status := AgedEdge(t, g, e, sweeps[..n]));
            JudgeEdge(t, sweeps[n].at, Succeeded(sweeps[n].reports), Enumerated(SweptAll(t, g, sweeps[..n]), sweeps[n]).entities, now)
            == e.(status := AgedEdge(t, g, e, sweeps))
  {
    var n := |sweeps| - 1;
    var last := LastCoveringEdge(t, g, sweeps[..n], e);
    if last.Some? { LastCoveringEdgeIsPast(t, g, sweeps[..n], e, sweeps[n].at); }
    AgeOnce(t, e.status, e.lastSeen, last, sweeps[n].at, Succeeded(sweeps[n].reports),
            EdgePlatform(Enumerated(SweptAll(t, g, sweeps[..n]), sweeps[n]).entities, e));
    SamePlatform(Enumerated(SweptAll(t, g, sweeps[..n]), sweeps[n]).entities, e, AgedEdge(t, g, e, sweeps[..n]));
  }

  lemma SamePlatform(es: seq<Entity>, e: Edge, status: Status)
    ensures EdgePlatform(es, e.(status := status)) == EdgePlatform(es, e)
  {
  }

  /** What an age since the last covering sweep calls for, one sweep later. */
  function AgedTo(t: Thresholds, status: Status, lastSeen: int, last: Option<int>): Status {
    if last.None? then status else Worse(status, Verdict(t, last.value - lastSeen))
  }

  lemma AgeOnce(t: Thresholds, status: Status, lastSeen: int, last: Option<int>, at: int, ok: set<string>, platformId: Option<string>)
    requires last.Some? ==> last.value <= at
    ensures Judge(t, at, ok, platformId, AgedTo(t, status, lastSeen, last), lastSeen) ==
            AgedTo(t, status, lastSeen, if Covered(platformId, ok) then Some(at) else last)
  {
    JudgeIsWorse(t, at, ok, platformId, AgedTo(t, status, lastSeen, last), lastSeen);
    if last.Some? { WorseAges(t, status, last.value - lastSeen, at - lastSeen); }
  }

  predicate UnseenEdge(sweeps: seq<Sweep>, id: string) {
    forall k :: 0 <= k < |sweeps| ==> !MentionedEdge(EdgesOf(sweeps[k].reports), id)
  }

  /** The same for an edge that is never seen again; the platform that counts is looked up at each sweep through
      the edge's endpoints, as they are then. */
  lemma {:induction false} UnseenEdgeAges(t: Thresholds, g: Graph, sweeps: seq<Sweep>, id: string)
    requires UniqueEdges(g.edges) && FindEdge(g.edges, id).Some? && UnseenEdge(sweeps, id) && ClockAdvances(sweeps)
    ensures UniqueEdges(SweptAll(t, g, sweeps).edges)
    ensures var e := FindEdge(g.edges, id).value;
            FindEdge(SweptAll(t, g, sweeps).edges, id) == Some(e.(status := AgedEdge(t, g, e, sweeps)))
    decreases |sweeps|
  {
    if sweeps != [] {
      var n := |sweeps| - 1;
      UnseenEdgeAges(t, g, sweeps[..n], id);
      SweptLeavesEdge(t, SweptAll(t, g, sweeps[..n]), sweeps[n], id);
      AgedEdgeStep(t, g, FindEdge(g.edges, id).value, sweeps);
    }
  }

  // ----- the diff ---------------------------------------------------------

  /** The events for one entity of the final graph. */
  function DriftOf(prior: Option<Entity>, e: Entity): seq<Drift> {
    if prior.None? then [EntityAdded(e)]
    else
      (if e.status == Gone && prior.value.status != Gone then [EntityGone(e)] else [])
      + (if Short(e) then [ReplicaMismatch(e, e.attributes["replicas_running"].n, e.attributes["replicas_desired"].n)] else [])
      + (if NewImage(prior.value, e) then [ImageChanged(e, prior.value.attributes["image"].s, e.attributes["image"].s)] else [])
  }

  predicate Short(e: Entity) {
    && "replicas_running" in e.attributes && e.attributes["replicas_running"].Num?
    && "replicas_desired" in e.attributes && e.attributes["replicas_desired"].Num?
    && e.attributes["replicas_running"].n < e.attributes["replicas_desired"].n
  }

  predicate NewImage(prior: Entity, e: Entity) {
    && "image" in e.attributes && e.attributes["image"].Str?
    && "image" in prior.attributes && prior.attributes["image"].Str?
    && e.attributes["image"].s != prior.attributes["image"].s
  }

  /** `computeDiff`, in the order of the final graph. */
  function Diff(prior: seq<Entity>, post: seq<Entity>, ok: set<string>): seq<Drift> {
    if post == [] then []
    else
      var e := post[|post| - 1];
      Diff(prior, post[..|post| - 1], ok) + (if Covered(e.platformId, ok) then DriftOf(FindEntity(prior, e.id), e) else [])
  }

  /** `entity_gone` is reported exactly for the entities of succeeded platforms that were known and not gone
      before and are gone now; the other events, too, exactly when their entity shows them. */
  lemma {:induction false} DiffExactly(prior: seq<Entity>, post: seq<Entity>, ok: set<string>, d: Drift)
    ensures d in Diff(prior, post, ok) <==>
            && d.entity in post && Covered(d.entity.platformId, ok)
            && Shows(FindEntity(prior, d.entity.id), d)
  {
    if post != [] {
      var first: seq<Entity>, e := post[..|post| - 1], post[|post| - 1];
      assert post == first + [e];
      DiffExactly(prior, first, ok, d);
      ShownExactly(FindEntity(prior, e.id), e, d);
    }
  }

  /** What an event says about its entity and the entity's state before. */
  predicate Shows(before: Option<Entity>, d: Drift) {
    match d
    case EntityAdded(_) => before.None?
    case EntityGone(e) => before.Some? && before.value.status != Gone && e.status == Gone
    case ReplicaMismatch(e, r, n) =>
      && before.Some? && "replicas_running" in e.attributes && "replicas_desired" in e.attributes
      && e.attributes["replicas_running"] == Num(r) && e.attributes["replicas_desired"] == Num(n) && r < n
    case ImageChanged(e, a, b) =>
      && before.Some? && "image" in before.value.attributes && "image" in e.attributes
      && before.value.attributes["image"] == Str(a) && e.attributes["image"] == Str(b) && a != b
  }

  /** No event is reported twice. */
  lemma {:induction false} EventsAreDistinct(prior: seq<Entity>, post: seq<Entity>, ok: set<string>)
    requires UniqueEntities(post)
    ensures var d := Diff(prior, post, ok); forall i, j :: 0 <= i < j < |d| ==> d[i] != d[j]
  {
    if post != [] {
      var first: seq<Entity>, e := post[..|post| - 1], post[|post| - 1];
      EventsAreDistinct(prior, first, ok);
      var d := Diff(prior, first, ok);
      forall i | 0 <= i < |d| ensures d[i].entity.id != e.id {
        DiffExactly(prior, first, ok, d[i]);
        assert d[i].entity in first;
      }
      DriftIsDistinct(FindEntity(prior, e.id), e);
    }
  }

  lemma DriftIsDistinct(before: Option<Entity>, e: Entity)
    ensures var d := DriftOf(before, e);
            (forall i, j :: 0 <= i < j < |d| ==> d[i] != d[j]) && forall i :: 0 <= i < |d| ==> d[i].entity == e
  {
  }

  lemma ShownExactly(before: Option<Entity>, e: Entity, d: Drift)
    ensures d in DriftOf(before, e) <==> d.entity == e && Shows(before, d)
  {
  }

  function CountGone(events: seq<Drift>): nat {
    if events == [] then 0 else CountGone(events[..|events| - 1]) + (if events[|events| - 1].EntityGone? then 1 else 0)
  }

  lemma {:induction false} CountGoneOfOne(events: seq<Drift>, prior: Option<Entity>, e: Entity)
    ensures CountGone(events + DriftOf(prior, e)) ==
            CountGone(events) + (if prior.Some? && e.status == Gone && prior.value.status != Gone then 1 else 0)
  {
    if prior.None? {
      CountGoneSnoc(events, EntityAdded(e));
    } else {
      var g := if e.status == Gone && prior.value.status != Gone then [EntityGone(e)] else [];
      var r := if Short(e) then [ReplicaMismatch(e, e.attributes["replicas_running"].n, e.attributes["replicas_desired"].n)] else [];
      var m := if NewImage(prior.value, e) then [ImageChanged(e, prior.value.attributes["image"].s, e.attributes["image"].s)] else [];
      assert events + DriftOf(prior, e) == events + g + r + m;
      if g != [] { CountGoneSnoc(events, g[0]); } else { assert events + g == events; }
      if r != [] { CountGoneSnoc(events + g, r[0]); } else { assert events + g + r == events + g; }
      if m != [] { CountGoneSnoc(events + g + r, m[0]); } else { assert events + g + r + m == events + g + r; }
    }
  }

  lemma {:induction false} CountGoneSnoc(events: seq<Drift>, d: Drift)
    ensures CountGone(events + [d]) == CountGone(events) + (if d.EntityGone? then 1 else 0)
  {
    assert (events + [d])[..|events|] == events;
  }

  // ----- markings against events ------------------------------------------

  /** Counted in `markedGone`: the reconciliation makes the enumerated entity gone. */
  predicate Marked(t: Thresholds, s: Sweep, e: Entity) {
    e.status != Gone && JudgeEntity(t, s.at, Succeeded(s.reports), e).status == Gone
  }

  /** Reported as `entity_gone`: known and not gone before the sweep, gone after it. */
  predicate Reported(t: Thresholds, g: Graph, s: Sweep, e: Entity) {
    var prior, after := FindEntity(g.entities, e.id), JudgeEntity(t, s.at, Succeeded(s.reports), e);
    Covered(e.platformId, Succeeded(s.reports)) && prior.Some? && prior.value.status != Gone && after.status == Gone
  }

  /** Enumerated as not gone, old enough to be gone, and new to the graph or already gone in it. */
  predicate OldAndUnknown(t: Thresholds, g: Graph, s: Sweep, e: Entity) {
    var prior := FindEntity(g.entities, e.id);
    && Covered(e.platformId, Succeeded(s.reports)) && e.status != Gone && s.at - e.lastSeen >= t.gone
    && (prior.None? || prior.value.status == Gone)
  }

  /** Known and not gone before, brought in as gone by the enumeration itself. */
  predicate BroughtInGone(g: Graph, s: Sweep, e: Entity) {
    var prior := FindEntity(g.entities, e.id);
    Covered(e.platformId, Succeeded(s.reports)) && e.status == Gone && prior.Some? && prior.value.status != Gone
  }

  /** For every entity of the enumerated graph: it is counted without an event exactly when it is old and was
      unknown or gone, and it is reported without being counted exactly when the enumeration brought it in gone. */
  lemma {:induction false} MarkedReportedIff(t: Thresholds, g: Graph, s: Sweep, e: Entity)
    ensures Marked(t, s, e) && !Reported(t, g, s, e) <==> OldAndUnknown(t, g, s, e)
    ensures Reported(t, g, s, e) && !Marked(t, s, e) <==> BroughtInGone(g, s, e)
  {
    JudgeIsWorse(t, s.at, Succeeded(s.reports), e.platformId, e.status, e.lastSeen);
  }

  /** An entity brought in gone shows an upsert that says so. */
  lemma {:induction false} BroughtInGoneWasUpserted(g: Graph, s: Sweep, e: Entity)
    requires UniqueEntities(g.entities) && FindEntity(Enumerated(g, s).entities, e.id) == Some(e) && BroughtInGone(g, s, e)
    ensures exists k :: 0 <= k < |EntitiesOf(s.reports)| && EntitiesOf(s.reports)[k].id == e.id && EntitiesOf(s.reports)[k].status == Gone
  {
    UpsertAllFinds(g.entities, EntitiesOf(s.reports), e.id);
    var k :| 0 <= k < |EntitiesOf(s.reports)| && e == EntitiesOf(s.reports)[k].(platformId := e.platformId);
    assert EntitiesOf(s.reports)[k].id == e.id && EntitiesOf(s.reports)[k].status == Gone;
  }

  function CountOf(es: seq<Entity>, p: Entity -> bool): nat {
    if es == [] then 0 else CountOf(es[..|es| - 1], p) + (if p(es[|es| - 1]) then 1 else 0)
  }

  lemma {:induction false} CountOfNone(es: seq<Entity>, p: Entity -> bool)
    requires forall e :: e in es ==> !p(e)
    ensures CountOf(es, p) == 0
  {
    if es != [] {
      assert es[|es| - 1] in es;
      CountOfNone(es[..|es| - 1], p);
    }
  }

  /** Counted and reported, entity by entity. */
  lemma {:induction false} CountsBalance(t: Thresholds, g: Graph, s: Sweep, es: seq<Entity>)
    ensures CountOf(es, e => Marked(t, s, e)) + CountOf(es, e => BroughtInGone(g, s, e))
         == CountOf(es, e => Reported(t, g, s, e)) + CountOf(es, e => OldAndUnknown(t, g, s, e))
  {
    if es != [] {
      CountsBalance(t, g, s, es[..|es| - 1]);
      MarkedReportedIff(t, g, s, es[|es| - 1]);
    }
  }

  lemma {:induction false} TransitionsCount(t: Thresholds, s: Sweep, es: seq<Entity>)
    ensures Transitions(es, JudgeAll(t, s.at, Succeeded(s.reports), es), Gone) == CountOf(es, e => Marked(t, s, e))
  {
    if es != [] {
      var n := |es| - 1;
      TransitionsCount(t, s, es[..n]);
      assert JudgeAll(t, s.at, Succeeded(s.reports), es)[..n] == JudgeAll(t, s.at, Succeeded(s.reports), es[..n]);
    }
  }

  lemma {:induction false} EventsCount(t: Thresholds, g: Graph, s: Sweep, es: seq<Entity>)
    ensures var ok := Succeeded(s.reports);
            CountGone(Diff(g.entities, JudgeAll(t, s.at, ok, es), ok)) == CountOf(es, e => Reported(t, g, s, e))
  {
    if es != [] {
      var n := |es| - 1;
      var ok := Succeeded(s.reports);
      var after := JudgeAll(t, s.at, ok, es);
      EventsCount(t, g, s, es[..n]);
      assert after[..n] == JudgeAll(t, s.at, ok, es[..n]);
      var prior := FindEntity(g.entities, after[n].id);
      CountGoneOfOne(Diff(g.entities, after[..n], ok), prior, after[n]);
      if !Covered(es[n].platformId, ok) { assert Diff(g.entities, after, ok) == Diff(g.entities, after[..n], ok); }
    }
  }

  /** `markedGone` exceeds the number of `entity_gone` events by exactly the old and unknown entities less those
      brought in gone; so the two agree exactly when those are equally many. */
  lemma {:induction false} MarkedGoneAgainstEvents(t: Thresholds, g: Graph, s: Sweep)
    ensures var es := Enumerated(g, s).entities;
            var marked := Transitions(es, Swept(t, g, s).entities, Gone);
            var events := CountGone(Diff(g.entities, Swept(t, g, s).entities, Succeeded(s.reports)));
            var unreported := CountOf(es, e => OldAndUnknown(t, g, s, e));
            var unmarked := CountOf(es, e => BroughtInGone(g, s, e));
            marked + unmarked == events + unreported && (marked == events <==> unreported == unmarked)
  {
    var es := Enumerated(g, s).entities;
    TransitionsCount(t, s, es);
    EventsCount(t, g, s, es);
    CountsBalance(t, g, s, es);
  }

  /** What was just enumerated is active and seen no earlier than the sweep's start. */
  predicate Stamped(s: Sweep) {
    forall i :: 0 <= i < |EntitiesOf(s.reports)| ==>
      EntitiesOf(s.reports)[i].status == Active && EntitiesOf(s.reports)[i].lastSeen >= s.at
  }

  lemma {:induction false} StampedIsNeither(t: Thresholds, g: Graph, s: Sweep, e: Entity)
    requires UniqueEntities(g.entities) && Stamped(s) && t.gone > 0 && e in Enumerated(g, s).entities
    ensures !OldAndUnknown(t, g, s, e) && !BroughtInGone(g, s, e)
  {
    var us, es := EntitiesOf(s.reports), Enumerated(g, s).entities;
    UpsertAllFinds(g.entities, us, e.id);
    var i :| 0 <= i < |es| && es[i] == e;
    FindAt(es, i);
    if Mentioned(us, e.id) {
      var k :| 0 <= k < |us| && e == us[k].(platformId := e.platformId);
      assert us[k].status == Active && us[k].lastSeen >= s.at;
    }
  }

  /** When enumeration stamps what it sees as active and no older than the sweep, and the threshold is positive,
      `markedGone` is the number of `entity_gone` events. */
  lemma {:induction false} MarkedGoneIsReported(t: Thresholds, g: Graph, s: Sweep)
    requires UniqueEntities(g.entities) && Stamped(s) && t.gone > 0
    ensures Transitions(Enumerated(g, s).entities, Swept(t, g, s).entities, Gone) ==
            CountGone(Diff(g.entities, Swept(t, g, s).entities, Succeeded(s.reports)))
  {
    var es := Enumerated(g, s).entities;
    MarkedGoneAgainstEvents(t, g, s);
    forall e | e in es ensures !OldAndUnknown(t, g, s, e) && !BroughtInGone(g, s, e) { StampedIsNeither(t, g, s, e); }
    CountOfNone(es, e => OldAndUnknown(t, g, s, e));
    CountOfNone(es, e => BroughtInGone(g, s, e));
  }

  /** An entity found for the first time, already as old as the threshold (a threshold of zero is enough): it
      is counted, and there is no event for it. */
  lemma {:induction false} NewAndOldGoesUnreported(t: Thresholds, at: int, platform: string, e: Entity)
    requires e.platformId == Some(platform) && e.status != Gone && at - e.lastSeen >= t.gone
    ensures var s := SweepOf(at, [Report(platform, true, [Upsert(e, true)], [])]);
            var g := Graph([], []);
            && Transitions(Enumerated(g, s).entities, Swept(t, g, s).entities, Gone) == 1
            && CountGone(Diff(g.entities, Swept(t, g, s).entities, Succeeded(s.reports))) == 0
  {
    var s := SweepOf(at, [Report(platform, true, [Upsert(e, true)], [])]);
    var g := Graph([], []);
    assert Stored([Upsert(e, true)]) == [e] by { assert [Upsert(e, true)][..0] == []; }
    assert EntitiesOf(s.reports) == [e] by { assert s.reports[..0] == []; assert EntitiesOf([]) + [e] == [e]; }
    assert s.reports[0].ok && platform in Succeeded(s.reports);
    assert UpsertAll([], [e]) == UpsertEntity([], e) by { assert [e][..0] == []; }
    assert Enumerated(g, s).entities == [e];
    assert [e][..0] == [];
    MarkedGoneAgainstEvents(t, g, s);
    assert FindEntity([], e.id) == None;
    assert OldAndUnknown(t, g, s, e) && !BroughtInGone(g, s, e) && Marked(t, s, e);
    TransitionsCount(t, s, [e]);
  }

  // ----- the class --------------------------------------------------------

  datatype SweepResult = SweepResult(markedStale: nat, markedGone: nat, driftEvents: seq<Drift>)

  class RefreshEngine {
    const store: GraphStore
    const thresholds: Thresholds

    constructor (store: GraphStore, thresholds: Thresholds)
      ensures this.store == store && this.thresholds == thresholds
    {
      this.store, this.thresholds := store, thresholds;
    }

    /** The upserts of the deep enumeration. */
    method Enumerate(reports: seq<Report>)
      modifies store
      ensures store.doc == Graph(UpsertAll(old(store.doc).entities, EntitiesOf(reports)), UpsertAllEdges(old(store.doc).edges, EdgesOf(reports)))
    {
      var g := store.doc;
      var i := 0;
      while i < |reports|
        invariant 0 <= i <= |reports|
        invariant store.doc == Graph(UpsertAll(g.entities, EntitiesOf(reports[..i])), UpsertAllEdges(g.edges, EdgesOf(reports[..i])))
      {
        assert reports[..i + 1][..i] == reports[..i];
        if reports[i].ok {
          EnumerateOne(g, EntitiesOf(reports[..i]), EdgesOf(reports[..i]), reports[i]);
        } else {
          assert EntitiesOf(reports[..i + 1]) == EntitiesOf(reports[..i]) && EdgesOf(reports[..i + 1]) == EdgesOf(reports[..i]);
        }
        i := i + 1;
      }
      assert reports[..|reports|] == reports;
    }

    method EnumerateOne(ghost g: Graph, ghost us: seq<Entity>, ghost ws: seq<Edge>, report: Report)
      requires store.doc == Graph(UpsertAll(g.entities, us), UpsertAllEdges(g.edges, ws))
      modifies store
      ensures store.doc == Graph(UpsertAll(g.entities, us + Stored(report.entities)), UpsertAllEdges(g.edges, ws + Stored(report.edges)))
    {
      UpsertEntities(g.entities, us, report.entities);
      UpsertEdges(g.edges, ws, report.edges);
    }

    /** The loop over a platform's entities; a failed upsert is skipped. */
    method UpsertEntities(ghost es: seq<Entity>, ghost us: seq<Entity>, entities: seq<Upsert<Entity>>)
      requires store.doc.entities == UpsertAll(es, us)
      modifies store
      ensures store.doc == old(store.doc).(entities := UpsertAll(es, us + Stored(entities)))
    {
      var i := 0;
      assert us + Stored(entities[..0]) == us;
      while i < |entities|
        invariant 0 <= i <= |entities|
        invariant store.doc == old(store.doc).(entities := UpsertAll(es, us + Stored(entities[..i])))
      {
        StoredSnoc(us, entities, i);
        var ok := store.Upsert(entities[i].item, entities[i].stored);
        i := i + 1;
      }
      assert entities[..i] == entities;
    }

    method UpsertEdges(ghost es: seq<Edge>, ghost us: seq<Edge>, edges: seq<Upsert<Edge>>)
      requires store.doc.edges == UpsertAllEdges(es, us)
      modifies store
      ensures store.doc == old(store.doc).(edges := UpsertAllEdges(es, us + Stored(edges)))
    {
      var i := 0;
      assert us + Stored(edges[..0]) == us;
      while i < |edges|
        invariant 0 <= i <= |edges|
        invariant store.doc == old(store.doc).(edges := UpsertAllEdges(es, us + Stored(edges[..i])))
      {
        StoredSnoc(us, edges, i);
        var ok := store.UpsertLink(edges[i].item, edges[i].stored);
        i := i + 1;
      }
      assert edges[..i] == edges;
    }

    /** The loop body for one entity of the snapshot: at most one upsert, which throws if it is not stored. */
    method ReconcileEntity(k: nat, entity: Entity, at: int, ok: set<string>, stored: bool) returns (stale: bool, gone: bool, threw: bool)
      requires UniqueEntities(store.doc.entities) && k < |store.doc.entities| && store.doc.entities[k] == entity
      modifies store
      ensures threw <==> JudgeEntity(thresholds, at, ok, entity) != entity && !stored
      ensures threw ==> store.doc == old(store.doc)
      ensures !threw ==> store.doc == old(store.doc).(entities := old(store.doc).entities[k := JudgeEntity(thresholds, at, ok, entity)])
      ensures UniqueEntities(store.doc.entities)
      ensures !threw ==> (stale <==> JudgeEntity(thresholds, at, ok, entity).status == Stale && entity.status != Stale)
      ensures !threw ==> (gone <==> JudgeEntity(thresholds, at, ok, entity).status == Gone && entity.status != Gone)
    {
      stale, gone, threw := false, false, false;
      var age := at - entity.lastSeen;
      if !Covered(entity.platformId, ok) || entity.status == Gone {
        assert JudgeEntity(thresholds, at, ok, entity) == entity;
      } else if age >= thresholds.gone {
        PutInPlace(store.doc.entities, k, entity.(status := Gone));
        var written := store.Upsert(entity.(status := Gone), stored);
        gone, threw := true, !written;
      } else if age >= thresholds.stale && entity.status == Active {
        PutInPlace(store.doc.entities, k, entity.(status := Stale));
        var written := store.Upsert(entity.(status := Stale), stored);
        stale, threw := true, !written;
      } else {
        assert JudgeEntity(thresholds, at, ok, entity) == entity;
      }
    }

    method ReconcileEdge(k: nat, edge: Edge, at: int, ok: set<string>, entities: seq<Entity>, stored: bool) returns (threw: bool)
      requires UniqueEdges(store.doc.edges) && k < |store.doc.edges| && store.doc.edges[k] == edge
      modifies store
      ensures threw <==> JudgeEdge(thresholds, at, ok, entities, edge) != edge && !stored
      ensures threw ==> store.doc == old(store.doc)
      ensures !threw ==> store.doc == old(store.doc).(edges := old(store.doc).edges[k := JudgeEdge(thresholds, at, ok, entities, edge)])
      ensures UniqueEdges(store.doc.edges)
    {
      threw := false;
      var platformId := EdgePlatform(entities, edge);
      var age := at - edge.lastSeen;
      if edge.status == Gone || !Covered(platformId, ok) {
        assert JudgeEdge(thresholds, at, ok, entities, edge) == edge;
      } else if age >= thresholds.gone {
        PutEdgeInPlace(store.doc.edges, k, edge.(status := Gone));
        var written := store.UpsertLink(edge.(status := Gone), stored);
        threw := !written;
      } else if age >= thresholds.stale && edge.status == Active {
        PutEdgeInPlace(store.doc.edges, k, edge.(status := Stale));
        var written := store.UpsertLink(edge.(status := Stale), stored);
        threw := !written;
      } else {
        assert JudgeEdge(thresholds, at, ok, entities, edge) == edge;
      }
    }

    /** The reconciliation of entities: each transition is one upsert and is counted. If the upsert of entity
        `failAt` fails, the entities before it stay judged and the sweep throws. */
    method ReconcileEntities(at: int, ok: set<string>, failAt: nat) returns (markedStale: nat, markedGone: nat, threw: bool)
      requires UniqueEntities(store.doc.entities)
      modifies store
      ensures UniqueEntities(store.doc.entities)
      ensures var es, after := old(store.doc).entities, JudgeAll(thresholds, at, ok, old(store.doc).entities);
              && (threw <==> failAt < |es| && after[failAt] != es[failAt])
              && store.doc == old(store.doc).(entities := if threw then after[..failAt] + es[failAt..] else after)
              && (!threw ==> markedStale == Transitions(es, after, Stale) && markedGone == Transitions(es, after, Gone))
    {
      var current := store.doc.entities;
      ghost var after := JudgeAll(thresholds, at, ok, current);
      var done;
      markedStale, markedGone, done := ReconcileTo(at, ok, current, after, failAt);
      threw := done < |current|;
      TallyIsTransitions(current, after, |current|, Stale);
      TallyIsTransitions(current, after, |current|, Gone);
      assert current[..|current|] == current && after[..|current|] == after;
    }

    predicate JudgedAt(i: nat, current: seq<Entity>, after: seq<Entity>, at: int, ok: set<string>) {
      i < |current| && i < |after| && after[i] == JudgeEntity(thresholds, at, ok, current[i])
    }

    /** The first `i` entities have been judged, and the counts are theirs. */
    ghost predicate JudgedTo(i: nat, current: seq<Entity>, after: seq<Entity>, edges: seq<Edge>, stale: nat, gone: nat)
      reads this, store
    {
      && i <= |current| && |current| == |after|
      && store.doc == Graph(after[..i] + current[i..], edges) && UniqueEntities(store.doc.entities)
      && (forall x: Status :: x != Active ==> Tally(current, after, i, x) == if x == Stale then stale else gone)
    }

    /** If the failing upsert lies before `i`, it was not made. */
    predicate Passed<T(==)>(failAt: nat, i: nat, current: seq<T>, after: seq<T>) {
      failAt < i && failAt < |current| && failAt < |after| ==> after[failAt] == current[failAt]
    }

    /** The loop ended at `done`: at the failing upsert, or at the end. */
    predicate Stopped<T(==)>(failAt: nat, done: nat, current: seq<T>, after: seq<T>) {
      if done < |current| then done == failAt && failAt < |after| && after[failAt] != current[failAt]
      else Passed(failAt, done, current, after)
    }

    method ReconcileNext(i: nat, current: seq<Entity>, ghost after: seq<Entity>, ghost edges: seq<Edge>, at: int, ok: set<string>, stale: nat, gone: nat, failAt: nat)
      returns (stale1: nat, gone1: nat, done: nat, threw: bool)
      requires JudgedTo(i, current, after, edges, stale, gone) && JudgedAt(i, current, after, at, ok) && Passed(failAt, i, current, after)
      modifies store
      ensures JudgedTo(done, current, after, edges, stale1, gone1)
      ensures if threw then done == i && Stopped(failAt, done, current, after) else done == i + 1 && Passed(failAt, done, current, after)
    {
      Splice(current, after, i);
      TallyStep(current, after, i, Stale);
      TallyStep(current, after, i, Gone);
      var isStale, isGone;
      isStale, isGone, threw := ReconcileEntity(i, current[i], at, ok, i != failAt);
      stale1 := if isStale && !threw then stale + 1 else stale;
      gone1 := if isGone && !threw then gone + 1 else gone;
      done := if threw then i else i + 1;
    }

    method ReconcileTo(at: int, ok: set<string>, current: seq<Entity>, ghost after: seq<Entity>, failAt: nat)
      returns (markedStale: nat, markedGone: nat, done: nat)
      requires UniqueEntities(store.doc.entities) && store.doc.entities == current && |after| == |current|
      requires forall i :: 0 <= i < |current| ==> JudgedAt(i, current, after, at, ok)
      modifies store
      ensures JudgedTo(done, current, after, old(store.doc).edges, markedStale, markedGone)
      ensures Stopped(failAt, done, current, after)
    {
      markedStale, markedGone, done := 0, 0, 0;
      assert current[0..] == current && forall x :: Tally(current, after, 0, x) == 0;
      ghost var edges := store.doc.edges;
      var threw := false;
      while !threw && done < |current|
        decreases |current| - done + if threw then 0 else 1
        invariant JudgedTo(done, current, after, edges, markedStale, markedGone)
        invariant if threw then Stopped(failAt, done, current, after) else Passed(failAt, done, current, after)
      {
        markedStale, markedGone, done, threw := ReconcileNext(done, current, after, edges, at, ok, markedStale, markedGone, failAt);
      }
    }

    predicate EdgeJudgedAt(i: nat, current: seq<Edge>, after: seq<Edge>, at: int, ok: set<string>, entities: seq<Entity>) {
      i < |current| && i < |after| && after[i] == JudgeEdge(thresholds, at, ok, entities, current[i])
    }

    ghost predicate EdgesJudgedTo(i: nat, current: seq<Edge>, after: seq<Edge>, entities: seq<Entity>)
      reads this, store
    {
      && i <= |current| && |current| == |after|
      && store.doc == Graph(entities, after[..i] + current[i..]) && UniqueEdges(store.doc.edges)
    }

    method ReconcileNextEdge(i: nat, current: seq<Edge>, ghost after: seq<Edge>, ghost stored: seq<Entity>, at: int, ok: set<string>, entities: seq<Entity>, failAt: nat)
      returns (done: nat, threw: bool)
      requires EdgesJudgedTo(i, current, after, stored) && EdgeJudgedAt(i, current, after, at, ok, entities) && Passed(failAt, i, current, after)
      modifies store
      ensures EdgesJudgedTo(done, current, after, stored)
      ensures if threw then done == i && Stopped(failAt, done, current, after) else done == i + 1 && Passed(failAt, done, current, after)
    {
      Splice(current, after, i);
      threw := ReconcileEdge(i, current[i], at, ok, entities, i != failAt);
      done := if threw then i else i + 1;
    }

    method ReconcileEdgesTo(at: int, ok: set<string>, entities: seq<Entity>, current: seq<Edge>, ghost after: seq<Edge>, failAt: nat)
      returns (done: nat)
      requires UniqueEdges(store.doc.edges) && store.doc.edges == current && |after| == |current|
      requires forall i :: 0 <= i < |current| ==> EdgeJudgedAt(i, current, after, at, ok, entities)
      modifies store
      ensures EdgesJudgedTo(done, current, after, old(store.doc).entities)
      ensures Stopped(failAt, done, current, after)
    {
      done := 0;
      ghost var stored := store.doc.entities;
      var threw := false;
      assert current[0..] == current;
      while !threw && done < |current|
        decreases |current| - done + if threw then 0 else 1
        invariant EdgesJudgedTo(done, current, after, stored)
        invariant if threw then Stopped(failAt, done, current, after) else Passed(failAt, done, current, after)
      {
        done, threw := ReconcileNextEdge(done, current, after, stored, at, ok, entities, failAt);
      }
    }

    method ReconcileEdges(at: int, ok: set<string>, entities: seq<Entity>, failAt: nat) returns (threw: bool)
      requires UniqueEdges(store.doc.edges)
      modifies store
      ensures UniqueEdges(store.doc.edges)
      ensures var es, after := old(store.doc).edges, JudgeEdges(thresholds, at, ok, entities, old(store.doc).edges);
              && (threw <==> failAt < |es| && after[failAt] != es[failAt])
              && store.doc == old(store.doc).(edges := if threw then after[..failAt] + es[failAt..] else after)
    {
      var current := store.doc.edges;
      ghost var after := JudgeEdges(thresholds, at, ok, entities, current);
      var done := ReconcileEdgesTo(at, ok, entities, current, after, failAt);
      threw := done < |current|;
      assert current[|current|..] == [] && after[..|current|] == after;
    }

    method ComputeDiff(prior: seq<Entity>, post: seq<Entity>, ok: set<string>) returns (events: seq<Drift>)
      ensures events == Diff(prior, post, ok)
    {
      events := [];
      var i := 0;
      while i < |post|
        invariant 0 <= i <= |post|
        invariant events == Diff(prior, post[..i], ok)
      {
        var entity := post[i];
        assert post[..i + 1][..i] == post[..i];
        if Covered(entity.platformId, ok) {
          var before := FindEntity(prior, entity.id);
          events := events + Events(before, entity);
        }
        i := i + 1;
      }
      assert post[..i] == post;
    }

    function Events(before: Option<Entity>, entity: Entity): seq<Drift> { DriftOf(before, entity) }

    /** One sweep, with nothing else writing the graph. `failEntity` and `failEdge` say whose reconciling upsert
        fails, if it is made at all; then the sweep throws, with the reconciliation done in part. */
    method Sweep(at: int, reports: seq<Report>, failEntity: nat, failEdge: nat) returns (result: Option<SweepResult>)
      requires UniqueIds(store.doc)
      modifies store
      ensures UniqueIds(store.doc)
      ensures PartlyReconciled(thresholds, SweepOf(at, reports), Enumerated(old(store.doc), SweepOf(at, reports)), store.doc)
      ensures var s := SweepOf(at, reports);
              var middle := Enumerated(old(store.doc), s);
              var whole := Swept(thresholds, old(store.doc), s);
              && (result.None? <==> (failEntity < |middle.entities| && whole.entities[failEntity] != middle.entities[failEntity])
                                    || (failEdge < |middle.edges| && whole.edges[failEdge] != middle.edges[failEdge]))
              && (result.Some? ==>
                   && store.doc == whole
                   && result.value.markedStale == Transitions(middle.entities, whole.entities, Stale)
                   && result.value.markedGone == Transitions(middle.entities, whole.entities, Gone)
                   && result.value.driftEvents == Diff(old(store.doc).entities, whole.entities, Succeeded(reports)))
    {
      var prior := store.doc;
      Enumerate(reports);
      UpsertAllFinds(prior.entities, EntitiesOf(reports), "");
      UpsertAllEdgesKeeps(prior.edges, EdgesOf(reports), "");
      var ok := Succeeded(reports);
      var counts := Reconcile(at, reports, failEntity, failEdge);
      if counts.None? { return None; }
      var events := ComputeDiff(prior.entities, store.doc.entities, ok);
      result := Some(SweepResult(counts.value.0, counts.value.1, events));
    }

    /** The reconciliation of the snapshot, entities first. */
    method Reconcile(at: int, reports: seq<Report>, failEntity: nat, failEdge: nat) returns (counts: Option<(nat, nat)>)
      requires UniqueIds(store.doc)
      modifies store
      ensures UniqueIds(store.doc)
      ensures PartlyReconciled(thresholds, SweepOf(at, reports), old(store.doc), store.doc)
      ensures var middle, whole := old(store.doc), Reconciled(thresholds, SweepOf(at, reports), old(store.doc));
              && (counts.None? <==> (failEntity < |middle.entities| && whole.entities[failEntity] != middle.entities[failEntity])
                                    || (failEdge < |middle.edges| && whole.edges[failEdge] != middle.edges[failEdge]))
              && (counts.Some? ==>
                   && store.doc == whole
                   && counts.value.0 == Transitions(middle.entities, whole.entities, Stale)
                   && counts.value.1 == Transitions(middle.entities, whole.entities, Gone))
    {
      var ok := Succeeded(reports);
      var current := store.doc;
      var stale, gone, threw := ReconcileEntities(at, ok, failEntity);
      if threw { return None; }
      threw := ReconcileEdges(at, ok, current.entities, failEdge);
      if threw { return None; }
      return Some((stale, gone));
    }
  }

  /** Each entity and edge is as the enumeration left it or as the reconciliation makes it. */
  ghost predicate PartlyReconciled(t: Thresholds, s: Sweep, middle: Graph, g: Graph) {
    var whole := Reconciled(t, s, middle);
    && |g.entities| == |middle.entities| && |g.edges| == |middle.edges|
    && (forall i :: 0 <= i < |g.entities| ==> g.entities[i] == middle.entities[i] || g.entities[i] == whole.entities[i])
    && (forall i :: 0 <= i < |g.edges| ==> g.edges[i] == middle.edges[i] || g.edges[i] == whole.edges[i])
  }

  /** Also a sweep that throws half-way deletes nothing, touches only statuses, only on succeeded platforms, and
      never improves one. */
  lemma {:induction false} PartialSweepIsLocal(t: Thresholds, s: Sweep, middle: Graph, g: Graph, i: nat)
    requires PartlyReconciled(t, s, middle, g) && i < |middle.entities|
    ensures |g.entities| == |middle.entities| && g.entities[i] == middle.entities[i].(status := g.entities[i].status)
    ensures !Covered(middle.entities[i].platformId, Succeeded(s.reports)) ==> g.entities[i] == middle.entities[i]
    ensures Severity(g.entities[i].status) >= Severity(middle.entities[i].status)
  {
    ReconciliationIsLocal(t, s, middle, i);
  }

  lemma {:induction false} StoredSnoc<T>(us: seq<T>, ws: seq<Upsert<T>>, i: nat)
    requires i < |ws|
    ensures var before := us + Stored(ws[..i]);
            us + Stored(ws[..i + 1]) == (if ws[i].stored then before + [ws[i].item] else before)
    ensures ws[i].stored ==> (us + Stored(ws[..i + 1]))[..|us + Stored(ws[..i])|] == us + Stored(ws[..i])
  {
    assert ws[..i + 1][..i] == ws[..i];
  }

  /** A transition count is the number of places that have changed to the status. */
  lemma {:induction false} TransitionsAreCounted(before: seq<Entity>, after: seq<Entity>, x: Status)
    requires |before| == |after|
    ensures Transitions(before, after, x) == |set i | 0 <= i < |before| && after[i].status == x && before[i].status != x|
  {
    TransitionsTo(before, after, x, |before|);
    assert before[..|before|] == before && after[..|after|] == after;
    assert ChangedTo(before, after, x, |before|) == set i | 0 <= i < |before| && after[i].status == x && before[i].status != x;
  }

  function ChangedTo(before: seq<Entity>, after: seq<Entity>, x: Status, n: nat): set<int>
    requires |before| == |after| && n <= |before|
  {
    set i | 0 <= i < n && after[i].status == x && before[i].status != x
  }

  lemma {:induction false} TransitionsTo(before: seq<Entity>, after: seq<Entity>, x: Status, n: nat)
    requires |before| == |after| && n <= |before|
    ensures Transitions(before[..n], after[..n], x) == |ChangedTo(before, after, x, n)|
  {
    if n == 0 {
      assert ChangedTo(before, after, x, 0) == {};
    } else {
      TransitionsTo(before, after, x, n - 1);
      assert before[..n][..n - 1] == before[..n - 1] && after[..n][..n - 1] == after[..n - 1];
      OneMoreChanged(before, after, x, n - 1);
    }
  }

  lemma {:induction false} OneMoreChanged(before: seq<Entity>, after: seq<Entity>, x: Status, n: nat)
    requires |before| == |after| && n < |before|
    ensures |ChangedTo(before, after, x, n + 1)| ==
            |ChangedTo(before, after, x, n)| + (if after[n].status == x && before[n].status != x then 1 else 0)
  {
    var fewer, all := ChangedTo(before, after, x, n), ChangedTo(before, after, x, n + 1);
    assert all == if after[n].status == x && before[n].status != x then fewer + {n} else fewer;
  }

  /** The transitions among the first `n` entities. */
  function Tally(before: seq<Entity>, after: seq<Entity>, n: nat, x: Status): nat
    requires n <= |before| && |before| == |after|
    decreases n
  {
    if n == 0 then 0 else Tally(before, after, n - 1, x) + (if after[n - 1].status == x && before[n - 1].status != x then 1 else 0)
  }

  lemma TallyStep(before: seq<Entity>, after: seq<Entity>, n: nat, x: Status)
    requires n < |before| == |after|
    ensures Tally(before, after, n + 1, x) ==
            Tally(before, after, n, x) + (if after[n].status == x && before[n].status != x then 1 else 0)
  {
  }

  lemma {:induction false} TallyIsTransitions(before: seq<Entity>, after: seq<Entity>, n: nat, x: Status)
    requires n <= |before| == |after|
    ensures Tally(before, after, n, x) == Transitions(before[..n], after[..n], x)
  {
    if n > 0 {
      TallyIsTransitions(before, after, n - 1, x);
      assert before[..n][..n - 1] == before[..n - 1] && after[..n][..n - 1] == after[..n - 1];
    }
  }
}
