/** The documents kept under the file mutex: inventory graph, platform inventory, consents, backup manifest. */
module Stores {
  import opened Wrappers
  import opened LockedStore
  import Cidr

  // ----- the inventory graph ----------------------------------------------

  datatype Status = Active | Stale | Gone

  datatype Attr = Num(n: real) | Str(s: string) | Other

  datatype Entity = Entity(
    id: string, kind: string, name: string, attributes: map<string, Attr>, platformId: Option<string>,
    discoveredAt: int, lastSeen: int, status: Status)

  datatype Edge = Edge(
    id: string, source: string, target: string, edgeType: string, attributes: Option<map<string, Attr>>,
    discoveredAt: int, lastSeen: int, status: Status)

  datatype Graph = Graph(entities: seq<Entity>, edges: seq<Edge>)

  /** The new properties over the old ones: only an absent `platformId` leaves the old one in place. */
  function MergeEntity(prior: Entity, e: Entity): Entity {
    if e.platformId.None? then e.(platformId := prior.platformId) else e
  }

  function MergeEdge(prior: Edge, e: Edge): Edge {
    if e.attributes.None? then e.(attributes := prior.attributes) else e
  }

  /** `findIndex` on the id. */
  function EntityIndex(es: seq<Entity>, id: string): (i: int)
    ensures -1 <= i < |es|
    ensures i >= 0 ==> es[i].id == id
    ensures forall j :: 0 <= j < (if i < 0 then |es| else i) ==> es[j].id != id
  {
    if es == [] then -1
    else if es[0].id == id then 0
    else
      var i := EntityIndex(es[1..], id);
      if i < 0 then -1 else i + 1
  }

  function EdgeIndex(es: seq<Edge>, id: string): (i: int)
    ensures -1 <= i < |es|
    ensures i >= 0 ==> es[i].id == id
    ensures forall j :: 0 <= j < (if i < 0 then |es| else i) ==> es[j].id != id
  {
    if es == [] then -1
    else if es[0].id == id then 0
    else
      var i := EdgeIndex(es[1..], id);
      if i < 0 then -1 else i + 1
  }

  function UpsertEntity(es: seq<Entity>, e: Entity): seq<Entity> {
    var i := EntityIndex(es, e.id);
    if i >= 0 then es[i := MergeEntity(es[i], e)] else es + [e]
  }

  function UpsertEdge(es: seq<Edge>, e: Edge): seq<Edge> {
    var i := EdgeIndex(es, e.id);
    if i >= 0 then es[i := MergeEdge(es[i], e)] else es + [e]
  }

  datatype GraphOp = PutEntity(entity: Entity) | PutEdge(edge: Edge)

  function ApplyGraph(op: GraphOp, g: Graph): Outcome<Graph> {
    match op
    case PutEntity(e) => Put(g.(entities := UpsertEntity(g.entities, e)))
    case PutEdge(e) => Put(g.(edges := UpsertEdge(g.edges, e)))
  }

  predicate UniqueEntities(es: seq<Entity>) {
    forall i, j :: 0 <= i < j < |es| ==> es[i].id != es[j].id
  }

  predicate UniqueEdges(es: seq<Edge>) {
    forall i, j :: 0 <= i < j < |es| ==> es[i].id != es[j].id
  }

  predicate UniqueIds(g: Graph) { UniqueEntities(g.entities) && UniqueEdges(g.edges) }

  /** `getEntity`. */
  function FindEntity(es: seq<Entity>, id: string): Option<Entity> {
    var i := EntityIndex(es, id);
    if i >= 0 then Some(es[i]) else None
  }

  lemma FindAt(es: seq<Entity>, i: nat)
    requires UniqueEntities(es) && i < |es|
    ensures EntityIndex(es, es[i].id) == i && FindEntity(es, es[i].id) == Some(es[i])
  {
  }

  /** After an upsert the id maps to the merged entity, every other id to what it was, and nothing is deleted. */
  lemma UpsertIsMapUpdate(es: seq<Entity>, e: Entity, id: string)
    requires UniqueEntities(es)
    ensures UniqueEntities(UpsertEntity(es, e))
    ensures FindEntity(UpsertEntity(es, e), id) ==
            if id != e.id then FindEntity(es, id)
            else if FindEntity(es, id).Some? then Some(MergeEntity(FindEntity(es, id).value, e))
            else Some(e)
  {
    var r := UpsertEntity(es, e);
    var i, k := EntityIndex(es, id), EntityIndex(es, e.id);
    var j := EntityIndex(r, id);
    if k >= 0 {
      assert r[k].id == e.id;
      if i >= 0 { assert r[i].id == id; }
      if j >= 0 { assert es[j].id == id; }
    } else {
      if i >= 0 { assert r[i].id == id; }
      if id == e.id { assert r[|es|].id == id; }
      if 0 <= j < |es| { assert es[j].id == id; }
    }
  }

  /** The stored entity has all properties of the new one; without a platform of its own it keeps the old one. It
      stands where the old one stood, or at the end. */
  lemma UpsertedEntity(es: seq<Entity>, e: Entity)
    requires UniqueEntities(es)
    ensures var r, was, now := UpsertEntity(es, e), FindEntity(es, e.id), FindEntity(UpsertEntity(es, e), e.id);
            && now.Some? && now.value.(platformId := e.platformId) == e
            && now.value.platformId == (if e.platformId.None? && was.Some? then was.value.platformId else e.platformId)
            && (if was.Some? then |r| == |es| && forall i :: 0 <= i < |es| ==> r[i].id == es[i].id && (es[i].id != e.id ==> r[i] == es[i])
                else |r| == |es| + 1 && r[..|es|] == es)
  {
    UpsertIsMapUpdate(es, e, e.id);
  }

  /** The same for an edge and its attributes. */
  lemma UpsertedEdge(es: seq<Edge>, e: Edge, i: nat)
    requires UniqueEdges(es) && i < |UpsertEdge(es, e)|
    ensures var r := UpsertEdge(es, e);
            if i == |es| then r[i] == e && forall j :: 0 <= j < |es| ==> es[j].id != e.id
            else if es[i].id != e.id then r[i] == es[i]
            else r[i].(attributes := e.attributes) == e
                 && r[i].attributes == (if e.attributes.None? then es[i].attributes else e.attributes)
  {
  }

  lemma UpsertEdgeKeepsUnique(es: seq<Edge>, e: Edge)
    requires UniqueEdges(es)
    ensures UniqueEdges(UpsertEdge(es, e))
  {
  }

  /** Upserting an entity where it already stands, with the same platform or a new one, replaces it there. */
  lemma {:induction false} PutInPlace(es: seq<Entity>, k: nat, e: Entity)
    requires UniqueEntities(es) && k < |es| && e.id == es[k].id && (e.platformId.None? ==> es[k].platformId.None?)
    ensures UpsertEntity(es, e) == es[k := e] && UniqueEntities(es[k := e])
  {
    FindAt(es, k);
  }

  lemma {:induction false} PutEdgeInPlace(es: seq<Edge>, k: nat, e: Edge)
    requires UniqueEdges(es) && k < |es| && e.id == es[k].id && (e.attributes.None? ==> es[k].attributes.None?)
    ensures UpsertEdge(es, e) == es[k := e] && UniqueEdges(es[k := e])
  {
  }

  /** One more element of `after` in place of one of `before`. */
  lemma {:induction false} Splice<T>(before: seq<T>, after: seq<T>, i: nat)
    requires |before| == |after| && i < |before|
    ensures (after[..i] + before[i..])[i] == before[i]
    ensures (after[..i] + before[i..])[i := after[i]] == after[..i + 1] + before[i + 1..]
  {
  }

  /** Ids stay unique in every schedule of concurrent upserts, failures and crashes. */
  lemma {:induction false} GraphIdsStayUnique(steps: seq<Step<GraphOp>>)
    ensures UniqueIds(Run(ApplyGraph, Fresh(Graph([], [])), steps).file)
  {
    forall op: GraphOp, g: Graph | UniqueIds(g) && ApplyGraph(op, g).Put? ensures UniqueIds(ApplyGraph(op, g).doc) {
      match op {
        case PutEntity(e) => UpsertIsMapUpdate(g.entities, e, e.id);
        case PutEdge(e) => UpsertEdgeKeepsUnique(g.edges, e);
      }
    }
    PropertyHoldsInEverySchedule(ApplyGraph, Graph([], []), steps, UniqueIds);
  }

  /** `GraphStore` as one caller sees it while it holds the lock. */
  class GraphStore {
    var doc: Graph

    constructor ()
      ensures doc == Graph([], [])
    {
      doc := Graph([], []);
    }

    method Upsert(entity: Entity, writeOk: bool) returns (ok: bool)
      modifies this
      ensures ok == writeOk
      ensures doc == if ok then Apply(ApplyGraph, PutEntity(entity), old(doc)) else old(doc)
    {
      var entities := doc.entities;
      var idx := EntityIndex(entities, entity.id);
      if idx >= 0 {
        entities := entities[idx := MergeEntity(entities[idx], entity)];
      } else {
        entities := entities + [entity];
      }
      if !writeOk { return false; }
      doc := doc.(entities := entities);
      return true;
    }

    method UpsertLink(edge: Edge, writeOk: bool) returns (ok: bool)
      modifies this
      ensures ok == writeOk
      ensures doc == if ok then Apply(ApplyGraph, PutEdge(edge), old(doc)) else old(doc)
    {
      var edges := doc.edges;
      var idx := EdgeIndex(edges, edge.id);
      if idx >= 0 {
        edges := edges[idx := MergeEdge(edges[idx], edge)];
      } else {
        edges := edges + [edge];
      }
      if !writeOk { return false; }
      doc := doc.(edges := edges);
      return true;
    }
  }

  // ----- the platform inventory -------------------------------------------

  datatype Platform = Platform(id: string, body: string, discoveredAt: int, lastSeen: int)

  /** `body` stands for the remaining properties; `None` leaves a property alone. */
  datatype Patch = Patch(body: Option<string>, lastSeen: Option<int>)

  /** `now` is the clock reading inside the call. */
  datatype InventoryOp = Add(platform: Platform) | Update(id: string, patch: Patch, now: int) | Remove(id: string)

  function PlatformIndex(ps: seq<Platform>, id: string): (i: int)
    ensures -1 <= i < |ps|
    ensures i >= 0 ==> ps[i].id == id
    ensures forall j :: 0 <= j < (if i < 0 then |ps| else i) ==> ps[j].id != id
  {
    if ps == [] then -1
    else if ps[0].id == id then 0
    else
      var i := PlatformIndex(ps[1..], id);
      if i < 0 then -1 else i + 1
  }

  function Patched(p: Platform, patch: Patch, now: int): Platform {
    Platform(p.id, if patch.body.Some? then patch.body.value else p.body, p.discoveredAt,
             if patch.lastSeen.Some? then patch.lastSeen.value else now)
  }

  /** A duplicate id and an unknown id throw; removing an absent platform does not rewrite the file. */
  function ApplyInventory(op: InventoryOp, ps: seq<Platform>): Outcome<seq<Platform>> {
    match op
    case Add(p) => if PlatformIndex(ps, p.id) >= 0 then Throw else Put(ps + [p])
    case Update(id, patch, now) =>
      var i := PlatformIndex(ps, id);
      if i < 0 then Throw else Put(ps[i := Patched(ps[i], patch, now)])
    case Remove(id) =>
      var i := PlatformIndex(ps, id);
      if i < 0 then Keep else Put(ps[..i] + ps[i + 1..])
  }

  predicate UniquePlatforms(ps: seq<Platform>) {
    forall i, j :: 0 <= i < j < |ps| ==> ps[i].id != ps[j].id
  }

  function FindPlatform(ps: seq<Platform>, id: string): Option<Platform> {
    var i := PlatformIndex(ps, id);
    if i >= 0 then Some(ps[i]) else None
  }

  lemma FindPlatformAt(ps: seq<Platform>, i: nat)
    requires UniquePlatforms(ps) && i < |ps|
    ensures FindPlatform(ps, ps[i].id) == Some(ps[i])
  {
  }

  /** `qs` maps `k` to `now` and every other id to what `ps` does, on unique ids. */
  ghost predicate MapsOnly(ps: seq<Platform>, qs: seq<Platform>, k: string, now: Option<Platform>) {
    UniquePlatforms(qs) && forall id :: FindPlatform(qs, id) == if id == k then now else FindPlatform(ps, id)
  }

  lemma {:induction false} FoundAt(ps: seq<Platform>, qs: seq<Platform>, k: string, now: Option<Platform>, id: string)
    requires UniquePlatforms(ps) && UniquePlatforms(qs)
    requires forall p :: p in qs <==> (p in ps && p.id != k) || now == Some(p)
    requires now.Some? ==> now.value.id == k
    ensures FindPlatform(qs, id) == if id == k then now else FindPlatform(ps, id)
  {
    var i, j := PlatformIndex(ps, id), PlatformIndex(qs, id);
    if i >= 0 && id != k { assert ps[i] in qs; }
    if j >= 0 { assert qs[j] in qs; }
    if now.Some? && id == k { assert now.value in qs; }
    if i >= 0 && j >= 0 && id != k {
      assert qs[j] in ps;
    }
  }

  /** Adding inserts a new id; a known one throws. */
  lemma {:induction false} AddInserts(ps: seq<Platform>, p: Platform)
    requires UniquePlatforms(ps)
    ensures var r := ApplyInventory(Add(p), ps);
            if FindPlatform(ps, p.id).Some? then r == Throw else r.Put? && MapsOnly(ps, r.doc, p.id, Some(p))
  {
    if PlatformIndex(ps, p.id) < 0 {
      forall id ensures FindPlatform(ps + [p], id) == if id == p.id then Some(p) else FindPlatform(ps, id) {
        FoundAt(ps, ps + [p], p.id, Some(p), id);
      }
    }
  }

  /** Updating patches a known id in place; an unknown one throws. */
  lemma {:induction false} UpdateReplaces(ps: seq<Platform>, k: string, patch: Patch, t: int)
    requires UniquePlatforms(ps)
    ensures var r, was := ApplyInventory(Update(k, patch, t), ps), FindPlatform(ps, k);
            if was.None? then r == Throw else r.Put? && MapsOnly(ps, r.doc, k, Some(Patched(was.value, patch, t)))
  {
    var i := PlatformIndex(ps, k);
    if i >= 0 {
      var now := Patched(ps[i], patch, t);
      Replaced(ps, i, now);
      forall id ensures FindPlatform(ps[i := now], id) == if id == k then Some(now) else FindPlatform(ps, id) {
        FoundAt(ps, ps[i := now], k, Some(now), id);
      }
    }
  }

  /** An update keeps id and discovery time, takes what the patch gives, and without a time of its own the present. */
  lemma {:induction false} UpdatedPlatform(ps: seq<Platform>, k: string, patch: Patch, t: int)
    requires UniquePlatforms(ps) && FindPlatform(ps, k).Some?
    ensures var r, was := ApplyInventory(Update(k, patch, t), ps), FindPlatform(ps, k).value;
            && r.Put? && FindPlatform(r.doc, k).Some?
            && var now := FindPlatform(r.doc, k).value;
               && now.id == k && now.discoveredAt == was.discoveredAt
               && now.body == (if patch.body.Some? then patch.body.value else was.body)
               && now.lastSeen == (if patch.lastSeen.Some? then patch.lastSeen.value else t)
  {
    UpdateReplaces(ps, k, patch, t);
  }

  lemma {:induction false} Replaced(ps: seq<Platform>, i: nat, now: Platform)
    requires UniquePlatforms(ps) && i < |ps| && now.id == ps[i].id
    ensures UniquePlatforms(ps[i := now])
    ensures forall p :: p in ps[i := now] <==> (p in ps && p.id != now.id) || p == now
  {
    var qs := ps[i := now];
    forall p | (p in ps && p.id != now.id) || p == now ensures p in qs {
      if p == now { assert qs[i] == now; } else {
        var j :| 0 <= j < |ps| && ps[j] == p;
        assert qs[j] == p;
      }
    }
    forall p | p in qs ensures (p in ps && p.id != now.id) || p == now {
      var j :| 0 <= j < |qs| && qs[j] == p;
    }
  }

  /** Removing deletes a known id; for an unknown one the file is not rewritten. */
  lemma {:induction false} RemoveDeletes(ps: seq<Platform>, k: string)
    requires UniquePlatforms(ps)
    ensures var r := ApplyInventory(Remove(k), ps);
            if FindPlatform(ps, k).None? then r == Keep else r.Put? && MapsOnly(ps, r.doc, k, None)
  {
    var i := PlatformIndex(ps, k);
    if i >= 0 {
      Removed(ps, i);
      forall id ensures FindPlatform(ps[..i] + ps[i + 1..], id) == if id == k then None else FindPlatform(ps, id) {
        FoundAt(ps, ps[..i] + ps[i + 1..], k, None, id);
      }
    }
  }

  lemma {:induction false} Removed(ps: seq<Platform>, i: nat)
    requires UniquePlatforms(ps) && i < |ps|
    ensures var qs := ps[..i] + ps[i + 1..];
            UniquePlatforms(qs) && forall p :: p in qs <==> p in ps && p.id != ps[i].id
  {
    var qs := ps[..i] + ps[i + 1..];
    forall x | 0 <= x < |qs| ensures qs[x] == if x < i then ps[x] else ps[x + 1] { }
    forall p | p in ps && p.id != ps[i].id ensures p in qs {
      var j :| 0 <= j < |ps| && ps[j] == p;
      assert qs[if j < i then j else j - 1] == p;
    }
  }

  /** Platform ids stay unique in every schedule. */
  lemma {:induction false} InventoryIdsStayUnique(steps: seq<Step<InventoryOp>>)
    ensures UniquePlatforms(Run(ApplyInventory, Fresh([]), steps).file)
  {
    forall op: InventoryOp, ps: seq<Platform> | UniquePlatforms(ps) && ApplyInventory(op, ps).Put?
      ensures UniquePlatforms(ApplyInventory(op, ps).doc)
    {
      match op {
        case Add(p) => AddInserts(ps, p);
        case Update(k, patch, t) => UpdateReplaces(ps, k, patch, t);
        case Remove(k) => RemoveDeletes(ps, k);
      }
    }
    PropertyHoldsInEverySchedule(ApplyInventory, [], steps, UniquePlatforms);
  }

  class InventoryManager {
    var platforms: seq<Platform>

    constructor ()
      ensures platforms == []
    {
      platforms := [];
    }

    method AddPlatform(p: Platform, writeOk: bool) returns (ending: Ending)
      modifies this
      ensures ending == if EndingOf(ApplyInventory(Add(p), old(platforms))) == Wrote && !writeOk then IoFailed
                        else EndingOf(ApplyInventory(Add(p), old(platforms)))
      ensures platforms == if ending == Wrote then Apply(ApplyInventory, Add(p), old(platforms)) else old(platforms)
    {
      if PlatformIndex(platforms, p.id) >= 0 { return Threw; }
      if !writeOk { return IoFailed; }
      platforms := platforms + [p];
      return Wrote;
    }

    method UpdatePlatform(id: string, patch: Patch, now: int, writeOk: bool) returns (ending: Ending)
      modifies this
      ensures ending == if EndingOf(ApplyInventory(Update(id, patch, now), old(platforms))) == Wrote && !writeOk then IoFailed
                        else EndingOf(ApplyInventory(Update(id, patch, now), old(platforms)))
      ensures platforms == if ending == Wrote then Apply(ApplyInventory, Update(id, patch, now), old(platforms)) else old(platforms)
    {
      var idx := PlatformIndex(platforms, id);
      if idx < 0 { return Threw; }
      if !writeOk { return IoFailed; }
      platforms := platforms[idx := Patched(platforms[idx], patch, now)];
      return Wrote;
    }

    method RemovePlatform(id: string, writeOk: bool) returns (ending: Ending)
      modifies this
      ensures ending == if EndingOf(ApplyInventory(Remove(id), old(platforms))) == Wrote && !writeOk then IoFailed
                        else EndingOf(ApplyInventory(Remove(id), old(platforms)))
      ensures platforms == if ending == Wrote then Apply(ApplyInventory, Remove(id), old(platforms)) else old(platforms)
    {
      var idx := PlatformIndex(platforms, id);
      if idx < 0 { return Kept; }
      if !writeOk { return IoFailed; }
      platforms := platforms[..idx] + platforms[idx + 1..];
      return Wrote;
    }
  }

  // ----- consents and the backup manifest ---------------------------------

  datatype ConsentOp = GrantConsent(consent: Cidr.Consent) | RevokeConsent(cidr: string)

  function Without(cs: seq<Cidr.Consent>, cidr: string): seq<Cidr.Consent> {
    if cs == [] then []
    else (if cs[0].cidr == cidr then [] else [cs[0]]) + Without(cs[1..], cidr)
  }

  predicate Mentions(cs: seq<Cidr.Consent>, cidr: string) {
    exists i :: 0 <= i < |cs| && cs[i].cidr == cidr
  }

  /** Revoking an unknown CIDR does not rewrite the file. */
  function ApplyConsent(op: ConsentOp, cs: seq<Cidr.Consent>): Outcome<seq<Cidr.Consent>> {
    match op
    case GrantConsent(c) => Put(cs + [c])
    case RevokeConsent(cidr) => if Mentions(cs, cidr) then Put(Without(cs, cidr)) else Keep
  }

  /** A grant goes to the end of the file and leaves the others, in order; a revocation of an unknown CIDR changes nothing. */
  lemma GrantGoesLast(cs: seq<Cidr.Consent>, c: Cidr.Consent, cidr: string)
    ensures var r := ApplyConsent(GrantConsent(c), cs);
            r.Put? && |r.doc| == |cs| + 1 && r.doc[|cs|] == c && r.doc[..|cs|] == cs
    ensures (forall i :: 0 <= i < |cs| ==> cs[i].cidr != cidr) ==> ApplyConsent(RevokeConsent(cidr), cs) == Keep
  {
  }

  lemma {:induction false} WithoutRemovesExactly(cs: seq<Cidr.Consent>, cidr: string, c: Cidr.Consent)
    ensures !Mentions(Without(cs, cidr), cidr)
    ensures multiset(Without(cs, cidr))[c] == if c.cidr == cidr then 0 else multiset(cs)[c]
  {
    if cs != [] {
      WithoutRemovesExactly(cs[1..], cidr, c);
      assert cs == [cs[0]] + cs[1..];
      var rest := Without(cs[1..], cidr);
      if cs[0].cidr != cidr {
        assert Without(cs, cidr) == [cs[0]] + rest;
        forall i | 0 <= i < |Without(cs, cidr)| ensures Without(cs, cidr)[i].cidr != cidr {
          if i > 0 { assert Without(cs, cidr)[i] == rest[i - 1]; }
        }
      } else {
        assert Without(cs, cidr) == rest;
      }
    }
  }

  lemma {:induction false} ConsentsAfter(ops: seq<ConsentOp>, k: nat, cidr: string)
    requires k < |ops| && ops[k] == RevokeConsent(cidr)
    requires forall j :: k < j < |ops| ==> ops[j].RevokeConsent? || ops[j].consent.cidr != cidr
    ensures !Mentions(Fold(ApplyConsent, [], ops), cidr)
    decreases |ops|
  {
    var init, last := ops[..|ops| - 1], ops[|ops| - 1];
    var before := Fold(ApplyConsent, [], init);
    if k == |ops| - 1 {
      if Mentions(before, cidr) { WithoutRemovesExactly(before, cidr, before[0]); }
    } else {
      ConsentsAfter(init, k, cidr);
      if last.RevokeConsent? && Mentions(before, last.cidr) {
        WithoutKeepsOut(before, last.cidr, cidr);
      }
    }
  }

  lemma {:induction false} WithoutKeepsOut(cs: seq<Cidr.Consent>, drop: string, cidr: string)
    requires !Mentions(cs, cidr)
    ensures !Mentions(Without(cs, drop), cidr)
  {
    if cs != [] {
      assert cs[0].cidr != cidr;
      WithoutKeepsOut(cs[1..], drop, cidr);
      var rest := Without(cs[1..], drop);
      forall i | 0 <= i < |Without(cs, drop)| ensures Without(cs, drop)[i].cidr != cidr {
        if cs[0].cidr != drop {
          if i > 0 { assert Without(cs, drop)[i] == rest[i - 1]; }
        } else {
          assert Without(cs, drop)[i] == rest[i];
        }
      }
    }
  }

  /** Once a revocation has completed, the CIDR stays without consent in every later state of every
      schedule until it is granted again. */
  lemma {:induction false} RevokedStaysRevoked(s: State<seq<Cidr.Consent>, ConsentOp>, steps: seq<Step<ConsentOp>>, k: nat, cidr: string)
    requires Inv(ApplyConsent, [], s)
    requires var ops := AllWrites(Run(ApplyConsent, s, steps));
             k < |ops| && ops[k] == RevokeConsent(cidr) &&
             forall j :: k < j < |ops| ==> ops[j].RevokeConsent? || ops[j].consent.cidr != cidr
    ensures !Mentions(Run(ApplyConsent, s, steps).file, cidr)
  {
    RunKeepsInv(ApplyConsent, [], s, steps);
    ConsentsAfter(AllWrites(Run(ApplyConsent, s, steps)), k, cidr);
  }

  /** `appendManifestEntry`: the manifest is a list of entries. */
  function ApplyManifest<E>(entry: E, entries: seq<E>): Outcome<seq<E>> { Put(entries + [entry]) }

  lemma {:induction false} ManifestFold<E>(entries: seq<E>)
    ensures Fold(ApplyManifest<E>, [], entries) == entries
    decreases |entries|
  {
    if entries != [] {
      var first: seq<E>, last := entries[..|entries| - 1], entries[|entries| - 1];
      assert entries == first + [last];
      ManifestFold(first);
      ManifestStep(first, last);
    }
  }

  lemma {:induction false} ManifestStep<E>(entries: seq<E>, entry: E)
    requires Fold(ApplyManifest<E>, [], entries) == entries
    ensures Fold(ApplyManifest<E>, [], entries + [entry]) == entries + [entry]
  {
    assert (entries + [entry])[..|entries|] == entries;
  }

  /** No backup entry is lost: the manifest lists exactly the successful appends, in grant order. */
  lemma {:induction false} ManifestListsEveryAppend<E>(steps: seq<Step<E>>)
    ensures var s := Run(ApplyManifest<E>, Fresh([]), steps); s.file == AllWrites(s)
  {
    EveryScheduleIsSerial(ApplyManifest<E>, [], steps);
    ManifestFold(AllWrites(Run(ApplyManifest<E>, Fresh([]), steps)));
  }
}
