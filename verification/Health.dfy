/** `computeHealthScore` over real numbers, and the scoring of all entities of the graph. */
module Health {
  import opened Wrappers
  import opened Stores
  import Cidr

  datatype Severity = P0 | P1 | P2

  /** `uid` tells objects with the same contents apart; a date that does not parse is `None`. */
  datatype Observation = Observation(uid: nat, resource: string, severity: Severity, discoveredAt: Option<int>)

  datatype Options = Options(now: int, windowMs: int, cap: real, weightP0: real, weightP1: real, weightP2: real, replicaWeight: real)

  datatype Grade = Unhealthy | Degraded | Healthy

  datatype Reason = StatusReason | ReplicaReason | ObservationReason

  datatype HealthScore = HealthScore(score: real, grade: Grade, reasons: seq<Reason>)

  /** Powers of one half, as far as the proofs need them: positive and falling. */
  ghost predicate HalfLife(half: real -> real) {
    && half(0.0) == 1.0 && half(1.0) == 0.5
    && (forall x :: half(x) > 0.0)
    && (forall x, y :: x <= y ==> half(y) <= half(x))
  }

  /** Non-negative weights; the window may be any number. */
  predicate Sound(o: Options) {
    o.weightP0 >= 0.0 && o.weightP1 >= 0.0 && o.weightP2 >= 0.0 && o.replicaWeight >= 0.0
  }

  function Weight(o: Options, s: Severity): real {
    match s
    case P0 => o.weightP0
    case P1 => o.weightP1
    case P2 => o.weightP2
  }

  function Max(a: real, b: real): real { if a >= b then a else b }

  function Min(a: real, b: real): real { if a <= b then a else b }

  // ----- the specification ------------------------------------------------

  function StatusPenalty(s: Status): real {
    match s
    case Active => 0.0
    case Stale => 20.0
    case Gone => 60.0
  }

  /** The missing share of the desired replicas, between 0 and 1. */
  function Shortfall(running: real, desired: real): real
    requires desired > 0.0
  {
    Min(1.0, Max(0.0, desired - running) / desired)
  }

  function ReplicaRatio(e: Entity): real {
    if "replicas_desired" in e.attributes && e.attributes["replicas_desired"].Num? && e.attributes["replicas_desired"].n > 0.0
       && "replicas_running" in e.attributes && e.attributes["replicas_running"].Num?
    then Shortfall(e.attributes["replicas_running"].n, e.attributes["replicas_desired"].n)
    else 0.0
  }

  function Age(now: int, discovered: int): nat { if now > discovered then now - discovered else 0 }

  /** The decay as JavaScript computes it. With a window of zero the exponent is 0 / 0 for a fresh observation,
      which makes the decay `NaN` (`None`), and infinite for an older one, which makes it zero. */
  function Decay(half: real -> real, age: nat, windowMs: int): (r: Option<real>)
    ensures r.None? <==> windowMs == 0 && age == 0
  {
    if windowMs != 0 then Some(half(age as real / windowMs as real))
    else if age == 0 then None
    else Some(0.0)
  }

  /** JavaScript's sum: `NaN` absorbs. */
  function Plus(a: Option<real>, b: Option<real>): Option<real> {
    if a.Some? && b.Some? then Some(a.value + b.value) else None
  }

  /** One observation's decayed weight; one without a date adds nothing. */
  function Penalty(half: real -> real, o: Options, x: Observation): (r: Option<real>)
    ensures o.windowMs != 0 ==> r.Some?
    ensures o.windowMs == 0 && r.Some? ==> r.value == 0.0
  {
    if x.discoveredAt.None? then Some(0.0)
    else
      Weigh(Weight(o, x.severity), Decay(half, Age(o.now, x.discoveredAt.value), o.windowMs))
  }

  function Weigh(weight: real, decay: Option<real>): Option<real> {
    if decay.None? then None else Some(weight * decay.value)
  }

  /** With a window of zero the total is zero or `NaN`, else it is a number. */
  function Total(half: real -> real, o: Options, xs: seq<Observation>): (r: Option<real>)
    ensures o.windowMs != 0 ==> r.Some?
    ensures o.windowMs == 0 && r.Some? ==> r.value == 0.0
  {
    if xs == [] then Some(0.0) else Plus(Total(half, o, xs[..|xs| - 1]), Penalty(half, o, xs[|xs| - 1]))
  }

  function ReplicaPenalty(e: Entity, weight: real): real { ReplicaRatio(e) * weight }

  /** A penalty counts when the capped total is positive, which `NaN` is not. */
  function Capped(total: Option<real>, cap: real): real {
    if total.Some? && Min(total.value, cap) > 0.0 then Min(total.value, cap) else 0.0
  }

  /** The score as a function of the three penalties. */
  function ScoreOf(status: real, replicas: real, observations: real): real {
    Max(0.0, Min(100.0, 100.0 - status - replicas - observations))
  }

  function Score(half: real -> real, e: Entity, xs: seq<Observation>, o: Options): real {
    ScoreOf(StatusPenalty(e.status), ReplicaPenalty(e, o.replicaWeight), Capped(Total(half, o, xs), o.cap))
  }

  function GradeOf(score: real): Grade {
    if score >= 80.0 then Healthy else if score >= 50.0 then Degraded else Unhealthy
  }

  // ----- its properties ---------------------------------------------------

  lemma {:induction false} PenaltyIsNonNegative(half: real -> real, o: Options, x: Observation)
    requires HalfLife(half) && Sound(o)
    ensures Penalty(half, o, x).Some? ==> Penalty(half, o, x).value >= 0.0
  {
    if x.discoveredAt.Some? {
      var decay := Decay(half, Age(o.now, x.discoveredAt.value), o.windowMs);
      if decay.Some? { Product(Weight(o, x.severity), decay.value); }
    }
  }

  lemma Product(a: real, b: real)
    requires a >= 0.0 && b >= 0.0
    ensures a * b >= 0.0
  {
  }

  lemma ProductMono(w: real, a: real, b: real)
    requires w >= 0.0 && a <= b
    ensures w * a <= w * b
  {
    Product(w, b - a);
    assert w * (b - a) == w * b - w * a;
  }

  lemma {:induction false} TotalConcat(half: real -> real, o: Options, xs: seq<Observation>, ys: seq<Observation>)
    ensures Total(half, o, xs + ys) == Plus(Total(half, o, xs), Total(half, o, ys))
  {
    if ys == [] {
      assert xs + ys == xs;
    } else {
      var n := |ys| - 1;
      assert (xs + ys)[..|xs + ys| - 1] == xs + ys[..n];
      TotalConcat(half, o, xs, ys[..n]);
    }
  }

  /** The score falls with every penalty. */
  lemma ScoreOfMono(s1: real, r1: real, t1: real, s2: real, r2: real, t2: real)
    requires s1 <= s2 && r1 <= r2 && t1 <= t2
    ensures ScoreOf(s2, r2, t2) <= ScoreOf(s1, r1, t1)
  {
  }

  /** With a window of zero no total counts; else the smaller one counts less. */
  predicate NoMore(t1: Option<real>, t2: Option<real>) {
    || (t1.Some? && t2.Some? && t1.value <= t2.value)
    || ((t1.Some? ==> t1.value == 0.0) && (t2.Some? ==> t2.value == 0.0))
  }

  lemma CappedMono(t1: Option<real>, t2: Option<real>, cap: real)
    requires NoMore(t1, t2)
    ensures 0.0 <= Capped(t1, cap) <= Capped(t2, cap)
  {
  }

  lemma ScoreFallsWithTotal(status: real, replicas: real, t1: Option<real>, t2: Option<real>, cap: real)
    requires NoMore(t1, t2)
    ensures ScoreOf(status, replicas, Capped(t2, cap)) <= ScoreOf(status, replicas, Capped(t1, cap))
  {
    CappedMono(t1, t2, cap);
    ScoreOfMono(status, replicas, Capped(t1, cap), status, replicas, Capped(t2, cap));
  }

  lemma {:induction false} ScoreIsBounded(half: real -> real, e: Entity, xs: seq<Observation>, o: Options)
    ensures 0.0 <= Score(half, e, xs, o) <= 100.0
  {
  }

  /** With a window of zero, fresh observations or not, the observations take nothing off. */
  lemma {:induction false} ZeroWindowIgnoresObservations(half: real -> real, e: Entity, xs: seq<Observation>, o: Options)
    requires o.windowMs == 0
    ensures Score(half, e, xs, o) == ScoreOf(StatusPenalty(e.status), ReplicaPenalty(e, o.replicaWeight), 0.0)
  {
  }

  /** One more observation, wherever it stands in the list, never raises the score. */
  lemma {:induction false} ObservationNeverHelps(half: real -> real, e: Entity, before: seq<Observation>, x: Observation, after: seq<Observation>, o: Options)
    requires HalfLife(half) && Sound(o)
    ensures Score(half, e, before + [x] + after, o) <= Score(half, e, before + after, o)
  {
    TotalConcat(half, o, before + [x], after);
    TotalConcat(half, o, before, [x]);
    TotalConcat(half, o, before, after);
    PenaltyIsNonNegative(half, o, x);
    assert [x][..0] == [];
    assert Total(half, o, [x]) == Plus(Some(0.0), Penalty(half, o, x));
    SmallerTotal(half, e, before + after, o, before + [x] + after, o);
  }

  lemma DivideMono(a: real, b: real, d: real)
    requires a <= b && d > 0.0
    ensures a / d <= b / d
  {
  }

  /** Losing a replica, with the same number desired, never raises the score. */
  lemma {:induction false} ReplicaLossNeverHelps(half: real -> real, e: Entity, fewer: real, xs: seq<Observation>, o: Options)
    requires Sound(o)
    requires "replicas_running" in e.attributes && e.attributes["replicas_running"].Num? && fewer <= e.attributes["replicas_running"].n
    ensures var lost := e.(attributes := e.attributes["replicas_running" := Num(fewer)]);
            Score(half, lost, xs, o) <= Score(half, e, xs, o)
  {
    var lost := e.(attributes := e.attributes["replicas_running" := Num(fewer)]);
    if "replicas_desired" in e.attributes && e.attributes["replicas_desired"].Num? && e.attributes["replicas_desired"].n > 0.0 {
      var desired, running := e.attributes["replicas_desired"].n, e.attributes["replicas_running"].n;
      DivideMono(Max(0.0, desired - running), Max(0.0, desired - fewer), desired);
    }
    var c := Capped(Total(half, o, xs), o.cap);
    RatioMono(ReplicaRatio(e), ReplicaRatio(lost), o.replicaWeight);
    ScoreOfMono(StatusPenalty(e.status), ReplicaPenalty(e, o.replicaWeight), c, StatusPenalty(e.status), ReplicaPenalty(lost, o.replicaWeight), c);
  }

  lemma RatioMono(a: real, b: real, w: real)
    requires a <= b && w >= 0.0
    ensures a * w <= b * w
  {
    ProductMono(w, a, b);
  }

  /** A positive window lets a penalty fall as time passes, a negative one lets it rise. */
  lemma {:induction false} PenaltyDecays(half: real -> real, o: Options, later: int, x: Observation)
    requires HalfLife(half) && Sound(o) && o.now <= later && o.windowMs != 0
    ensures o.windowMs > 0 ==> Penalty(half, o.(now := later), x).value <= Penalty(half, o, x).value
    ensures o.windowMs < 0 ==> Penalty(half, o, x).value <= Penalty(half, o.(now := later), x).value
  {
    if x.discoveredAt.Some? {
      var age1, age2 := Age(o.now, x.discoveredAt.value), Age(later, x.discoveredAt.value);
      DecayMoves(half, age1, age2, o.windowMs);
      WeighMono(Weight(o, x.severity), Decay(half, age1, o.windowMs), Decay(half, age2, o.windowMs));
    }
  }

  lemma WeighMono(w: real, a: Option<real>, b: Option<real>)
    requires w >= 0.0 && a.Some? && b.Some?
    ensures a.value <= b.value ==> Weigh(w, a).value <= Weigh(w, b).value
    ensures b.value <= a.value ==> Weigh(w, b).value <= Weigh(w, a).value
  {
    if a.value <= b.value { ProductMono(w, a.value, b.value); }
    if b.value <= a.value { ProductMono(w, b.value, a.value); }
  }

  lemma {:induction false} DecayMoves(half: real -> real, age1: nat, age2: nat, windowMs: int)
    requires HalfLife(half) && age1 <= age2 && windowMs != 0
    ensures windowMs > 0 ==> Decay(half, age2, windowMs).value <= Decay(half, age1, windowMs).value
    ensures windowMs < 0 ==> Decay(half, age1, windowMs).value <= Decay(half, age2, windowMs).value
  {
    ExponentMoves(age1, age2, windowMs);
  }

  lemma ExponentMoves(age1: nat, age2: nat, windowMs: int)
    requires age1 <= age2 && windowMs != 0
    ensures windowMs > 0 ==> age1 as real / windowMs as real <= age2 as real / windowMs as real
    ensures windowMs < 0 ==> age2 as real / windowMs as real <= age1 as real / windowMs as real
  {
    var d := windowMs as real;
    if windowMs > 0 { DivideMono(age1 as real, age2 as real, d); } else { DivideByNegative(age1 as real, age2 as real, d); }
  }

  lemma DivideByNegative(a: real, b: real, d: real)
    requires a <= b && d < 0.0
    ensures b / d <= a / d
  {
  }

  lemma {:induction false} TotalDecays(half: real -> real, o: Options, later: int, xs: seq<Observation>)
    requires HalfLife(half) && Sound(o) && o.now <= later && o.windowMs != 0
    ensures o.windowMs > 0 ==> Total(half, o.(now := later), xs).value <= Total(half, o, xs).value
    ensures o.windowMs < 0 ==> Total(half, o, xs).value <= Total(half, o.(now := later), xs).value
  {
    if xs != [] {
      TotalDecays(half, o, later, xs[..|xs| - 1]);
      PenaltyDecays(half, o, later, xs[|xs| - 1]);
    }
  }

  /** With the same observations the score never falls as time passes, unless the window is negative: then it
      never rises. With a window of zero it stays. */
  lemma {:induction false} AgeingNeverHurts(half: real -> real, e: Entity, xs: seq<Observation>, o: Options, later: int)
    requires HalfLife(half) && Sound(o) && o.now <= later
    ensures o.windowMs >= 0 ==> Score(half, e, xs, o) <= Score(half, e, xs, o.(now := later))
    ensures o.windowMs <= 0 ==> Score(half, e, xs, o.(now := later)) <= Score(half, e, xs, o)
  {
    var p := o.(now := later);
    if o.windowMs != 0 { TotalDecays(half, o, later, xs); }
    if o.windowMs >= 0 { SmallerTotal(half, e, xs, p, xs, o); }
    if o.windowMs <= 0 { SmallerTotal(half, e, xs, o, xs, p); }
  }

  /** Of two scorings of one entity under the same weights, the one with the smaller total scores at least as high. */
  lemma {:induction false} SmallerTotal(half: real -> real, e: Entity, xs: seq<Observation>, o: Options, ys: seq<Observation>, p: Options)
    requires o.replicaWeight == p.replicaWeight && o.cap == p.cap
    requires NoMore(Total(half, o, xs), Total(half, p, ys))
    ensures Score(half, e, ys, p) <= Score(half, e, xs, o)
  {
    ByTotals(half, e, xs, o, ys, p, Total(half, o, xs), Total(half, p, ys));
  }

  lemma {:induction false} ByTotals(half: real -> real, e: Entity, xs: seq<Observation>, o: Options, ys: seq<Observation>, p: Options,
                                    t1: Option<real>, t2: Option<real>)
    requires o.replicaWeight == p.replicaWeight && o.cap == p.cap
    requires t1 == Total(half, o, xs) && t2 == Total(half, p, ys) && NoMore(t1, t2)
    ensures Score(half, e, ys, p) <= Score(half, e, xs, o)
  {
    var replicas := ReplicaPenalty(e, o.replicaWeight);
    ScoreFallsWithTotal(StatusPenalty(e.status), replicas, t1, t2, o.cap);
    assert Score(half, e, xs, o) == ScoreOf(StatusPenalty(e.status), replicas, Capped(t1, o.cap));
    assert Score(half, e, ys, p) == ScoreOf(StatusPenalty(e.status), replicas, Capped(t2, o.cap));
  }

  function GradeRank(g: Grade): nat {
    match g
    case Unhealthy => 0
    case Degraded => 1
    case Healthy => 2
  }

  /** Gone is worse than stale, and stale worse than active. */
  predicate WorseOrSame(worse: Status, status: Status) { worse == status || worse == Gone || status == Active }

  /** A worse status never gives a better score or grade. */
  lemma {:induction false} WorseStatusWorseGrade(half: real -> real, e: Entity, worse: Status, xs: seq<Observation>, o: Options)
    requires WorseOrSame(worse, e.status)
    ensures Score(half, e.(status := worse), xs, o) <= Score(half, e, xs, o)
    ensures GradeRank(GradeOf(Score(half, e.(status := worse), xs, o))) <= GradeRank(GradeOf(Score(half, e, xs, o)))
  {
    var c := Capped(Total(half, o, xs), o.cap);
    var replicas := ReplicaPenalty(e, o.replicaWeight);
    StatusLeavesReplicas(e, worse, o.replicaWeight);
    ScoreOfMono(StatusPenalty(e.status), replicas, c, StatusPenalty(worse), replicas, c);
    GradeIsMonotone(Score(half, e.(status := worse), xs, o), Score(half, e, xs, o));
  }

  // ----- what the score is ------------------------------------------------

  predicate NoReplicas(e: Entity) { "replicas_desired" !in e.attributes }

  /** With nothing else taken off, an active entity scores 100, a stale one 80 and a gone one 40. */
  lemma {:induction false} StatusScores(half: real -> real, e: Entity, o: Options)
    requires NoReplicas(e)
    ensures Score(half, e, [], o) == match e.status case Active => 100.0 case Stale => 80.0 case Gone => 40.0
  {
  }

  /** The penalty an observation starts with. */
  function StartingWeight(o: Options, x: Observation): real {
    match x.severity
    case P0 => o.weightP0
    case P1 => o.weightP1
    case P2 => o.weightP2
  }

  /** A fresh observation takes off the weight of its severity, and half of it when it is one window old, up to the
      cap and down to zero. */
  lemma {:induction false} ObservationScores(half: real -> real, e: Entity, x: Observation, o: Options)
    requires HalfLife(half) && Sound(o) && o.cap >= 0.0 && o.windowMs > 0 && NoReplicas(e) && e.status == Active
    requires x.discoveredAt.Some?
    ensures var age, w, score := o.now - x.discoveredAt.value, StartingWeight(o, x), Score(half, e, [x], o);
            && (age <= 0 ==> score == Max(0.0, 100.0 - Min(w, o.cap)))
            && (age == o.windowMs ==> score == Max(0.0, 100.0 - Min(w / 2.0, o.cap)))
  {
    OneObservation(half, o, x);
    OnlyObservations(half, e, [x], o);
    var w := StartingWeight(o, x);
    CappedScore(w, o.cap);
    CappedScore(w / 2.0, o.cap);
  }

  lemma {:induction false} OneObservation(half: real -> real, o: Options, x: Observation)
    requires HalfLife(half) && o.windowMs > 0 && x.discoveredAt.Some?
    ensures o.now - x.discoveredAt.value <= 0 ==> Total(half, o, [x]) == Some(StartingWeight(o, x))
    ensures o.now - x.discoveredAt.value == o.windowMs ==> Total(half, o, [x]) == Some(StartingWeight(o, x) / 2.0)
  {
    var age, w := Age(o.now, x.discoveredAt.value), StartingWeight(o, x);
    assert [x][..0] == [];
    assert Total(half, o, [x]) == Plus(Some(0.0), Weigh(w, Decay(half, age, o.windowMs)));
    DecayAt(half, age, o.windowMs);
    Halved(w);
  }

  lemma {:induction false} DecayAt(half: real -> real, age: nat, windowMs: int)
    requires HalfLife(half) && windowMs > 0
    ensures age == 0 ==> Decay(half, age, windowMs) == Some(1.0)
    ensures age == windowMs ==> Decay(half, age, windowMs) == Some(0.5)
  {
    assert age == 0 ==> age as real / windowMs as real == 0.0;
    assert age == windowMs ==> age as real / windowMs as real == 1.0;
  }

  lemma Halved(w: real)
    ensures Weigh(w, Some(1.0)) == Some(w) && Weigh(w, Some(0.5)) == Some(w / 2.0)
  {
  }

  lemma CappedScore(v: real, cap: real)
    ensures v >= 0.0 && cap >= 0.0 ==> ScoreOf(0.0, 0.0, Capped(Some(v), cap)) == Max(0.0, 100.0 - Min(v, cap))
  {
  }

  lemma {:induction false} OnlyObservations(half: real -> real, e: Entity, xs: seq<Observation>, o: Options)
    requires NoReplicas(e) && e.status == Active
    ensures Score(half, e, xs, o) == ScoreOf(0.0, 0.0, Capped(Total(half, o, xs), o.cap))
  {
    assert ReplicaRatio(e) == 0.0;
  }

  /** An observation without a date takes nothing off. */
  lemma {:induction false} UndatedScores(half: real -> real, e: Entity, before: seq<Observation>, x: Observation, o: Options)
    requires x.discoveredAt.None?
    ensures Score(half, e, before + [x], o) == Score(half, e, before, o)
  {
    assert (before + [x])[..|before|] == before;
    assert Penalty(half, o, x) == Some(0.0);
  }

  /** A missing share of the replicas takes off that share of the replica weight. */
  lemma {:induction false} ReplicaScores(half: real -> real, e: Entity, desired: real, running: real, o: Options)
    requires e.status == Active && desired > 0.0 && o.replicaWeight >= 0.0
    requires "replicas_desired" in e.attributes && e.attributes["replicas_desired"] == Num(desired)
    requires "replicas_running" in e.attributes && e.attributes["replicas_running"] == Num(running)
    ensures running >= desired ==> Score(half, e, [], o) == 100.0
    ensures 0.0 <= running <= desired ==> Score(half, e, [], o) == Max(0.0, 100.0 - (desired - running) / desired * o.replicaWeight)
    ensures running < 0.0 ==> Score(half, e, [], o) == Max(0.0, 100.0 - o.replicaWeight)
  {
    ShareOf(desired, running);
    var q := Shortfall(running, desired);
    assert ReplicaRatio(e) == q;
    PenaltyIsPositive(q, o.replicaWeight);
    OnlyReplicas(half, e, o, q * o.replicaWeight);
  }

  lemma {:induction false} OnlyReplicas(half: real -> real, e: Entity, o: Options, penalty: real)
    requires e.status == Active && ReplicaPenalty(e, o.replicaWeight) == penalty >= 0.0
    ensures Score(half, e, [], o) == Max(0.0, 100.0 - penalty)
  {
  }

  lemma ShareOf(desired: real, running: real)
    requires desired > 0.0
    ensures running >= desired ==> Shortfall(running, desired) == 0.0
    ensures 0.0 <= running <= desired ==> Shortfall(running, desired) == (desired - running) / desired >= 0.0
    ensures running < 0.0 ==> Shortfall(running, desired) == 1.0
  {
    DivideMono(0.0, Max(0.0, desired - running), desired);
    if running >= 0.0 { DivideMono(Max(0.0, desired - running), desired, desired); } else { DivideMono(desired, desired - running, desired); }
  }

  /** The three penalties add up, each as it would be taken alone. */
  lemma {:induction false} PenaltiesAdd(half: real -> real, e: Entity, xs: seq<Observation>, o: Options)
    requires o.replicaWeight >= 0.0
    ensures var bare := e.(attributes := map[], status := Active);
            var status := 100.0 - Score(half, bare.(status := e.status), [], o);
            var replicas := 100.0 - Score(half, e.(status := Active), [], o);
            var observations := 100.0 - Score(half, bare, xs, o);
            Score(half, e, xs, o) == Max(0.0, 100.0 - status - replicas - observations)
  {
    var bare := e.(attributes := map[], status := Active);
    StatusScores(half, bare.(status := e.status), o);
    OnlyObservations(half, bare, xs, o);
    StatusLeavesReplicas(e, Active, o.replicaWeight);
    RatioIsNonNegative(e);
    PenaltyIsPositive(ReplicaRatio(e), o.replicaWeight);
    Clamped(StatusPenalty(e.status), ReplicaPenalty(e, o.replicaWeight), Capped(Total(half, o, xs), o.cap));
  }

  lemma Clamped(s: real, r: real, t: real)
    requires 0.0 <= s <= 100.0 && r >= 0.0 && t >= 0.0
    ensures ScoreOf(s, r, t) == Max(0.0, 100.0 - s - (100.0 - ScoreOf(0.0, r, 0.0)) - (100.0 - ScoreOf(0.0, 0.0, t)))
  {
  }

  /** What the observations of two lists take off adds up, as long as it stays within the cap and above zero. */
  lemma {:induction false} ObservationsAdd(half: real -> real, e: Entity, xs: seq<Observation>, ys: seq<Observation>, o: Options)
    requires HalfLife(half) && Sound(o) && o.windowMs > 0 && NoReplicas(e) && e.status == Active
    requires Total(half, o, xs + ys).value <= o.cap && Total(half, o, xs + ys).value <= 100.0
    ensures 100.0 - Score(half, e, xs + ys, o) == (100.0 - Score(half, e, xs, o)) + (100.0 - Score(half, e, ys, o))
  {
    TotalConcat(half, o, xs, ys);
    TotalIsNonNegative(half, o, xs);
    TotalIsNonNegative(half, o, ys);
    OnlyObservations(half, e, xs + ys, o);
    OnlyObservations(half, e, xs, o);
    OnlyObservations(half, e, ys, o);
  }

  lemma {:induction false} TotalIsNonNegative(half: real -> real, o: Options, xs: seq<Observation>)
    requires HalfLife(half) && Sound(o)
    ensures Total(half, o, xs).Some? ==> Total(half, o, xs).value >= 0.0
  {
    if xs != [] {
      TotalIsNonNegative(half, o, xs[..|xs| - 1]);
      PenaltyIsNonNegative(half, o, xs[|xs| - 1]);
    }
  }

  /** Healthy from 80, degraded from 50, unhealthy below. */
  lemma GradeIs(score: real)
    ensures GradeOf(score) == Healthy <==> score >= 80.0
    ensures GradeOf(score) == Degraded <==> 50.0 <= score < 80.0
    ensures GradeOf(score) == Unhealthy <==> score < 50.0
  {
  }

  lemma StatusLeavesReplicas(e: Entity, status: Status, weight: real)
    ensures ReplicaPenalty(e.(status := status), weight) == ReplicaPenalty(e, weight)
  {
    assert ReplicaRatio(e.(status := status)) == ReplicaRatio(e);
  }

  lemma GradeIsMonotone(a: real, b: real)
    requires a <= b
    ensures GradeRank(GradeOf(a)) <= GradeRank(GradeOf(b))
  {
  }

  /** The assumptions about the decay can be met. */
  lemma HalfLifeExists()
    ensures HalfLife(x => if x < 0.0 then 1.0 - x else 1.0 / (1.0 + x))
  {
    var half := (x: real) => if x < 0.0 then 1.0 - x else 1.0 / (1.0 + x);
    forall x ensures half(x) > 0.0 {
      if x >= 0.0 { ReciprocalMono(1.0, 1.0 + x); }
    }
    forall x, y | x <= y ensures half(y) <= half(x) {
      if x >= 0.0 { ReciprocalMono(1.0 + x, 1.0 + y); } else if y >= 0.0 { ReciprocalMono(1.0, 1.0 + y); }
    }
  }

  lemma ReciprocalMono(a: real, b: real)
    requires 0.0 < a <= b
    ensures 0.0 < 1.0 / b <= 1.0 / a
  {
    assert (1.0 / a) * a == 1.0 && (1.0 / b) * b == 1.0;
    DivideMono(a, b, a * b);
    assert a / (a * b) == 1.0 / b && b / (a * b) == 1.0 / a by {
      assert (1.0 / b) * (a * b) == a && (1.0 / a) * (a * b) == b;
    }
  }

  // ----- the scoring method -----------------------------------------------

  /** `computeHealthScore`. The reasons are empty exactly for a full score, provided the replica weight is positive. */
  method ComputeHealthScore(half: real -> real, e: Entity, xs: seq<Observation>, o: Options) returns (r: HealthScore)
    requires o.replicaWeight >= 0.0
    ensures r.score == Score(half, e, xs, o) && r.grade == GradeOf(r.score)
    ensures o.replicaWeight > 0.0 ==> (r.reasons == [] <==> r.score == 100.0)
    ensures r.reasons == (if e.status != Active then [StatusReason] else [])
                         + (if ReplicaRatio(e) > 0.0 then [ReplicaReason] else [])
                         + (if Capped(Total(half, o, xs), o.cap) > 0.0 then [ObservationReason] else [])
  {
    var total := SumPenalties(half, o, xs);
    var ratio := ReplicaRatio(e);
    RatioIsNonNegative(e);
    PenaltyIsPositive(ratio, o.replicaWeight);
    r := Combine(e.status, ratio > 0.0, ReplicaPenalty(e, o.replicaWeight), total, o.cap);
  }

  /** The running score and its reasons, from the figures. */
  method Combine(status: Status, short: bool, penalty: real, total: Option<real>, cap: real) returns (r: HealthScore)
    requires penalty >= 0.0 && (!short ==> penalty == 0.0)
    ensures r.score == ScoreOf(StatusPenalty(status), penalty, Capped(total, cap)) && r.grade == GradeOf(r.score)
    ensures (short ==> penalty > 0.0) ==> (r.reasons == [] <==> r.score == 100.0)
    ensures r.reasons == (if status != Active then [StatusReason] else []) + (if short then [ReplicaReason] else [])
                         + (if Capped(total, cap) > 0.0 then [ObservationReason] else [])
  {
    var score := 100.0;
    var reasons: seq<Reason> := [];
    if status == Stale {
      score := score - 20.0;
      reasons := reasons + [StatusReason];
    } else if status == Gone {
      score := score - 60.0;
      reasons := reasons + [StatusReason];
    }
    if short {
      score := score - penalty;
      reasons := reasons + [ReplicaReason];
    }
    if total.Some? && Min(total.value, cap) > 0.0 {
      score := score - Min(total.value, cap);
      reasons := reasons + [ObservationReason];
    }
    FullScoreIff(StatusPenalty(status), penalty, Capped(total, cap));
    score := Max(0.0, Min(100.0, score));
    return HealthScore(score, GradeOf(score), reasons);
  }

  lemma FullScoreIff(s: real, r: real, t: real)
    requires s >= 0.0 && r >= 0.0 && t >= 0.0
    ensures ScoreOf(s, r, t) == 100.0 <==> s == 0.0 && r == 0.0 && t == 0.0
  {
  }

  lemma RatioIsNonNegative(e: Entity)
    ensures ReplicaRatio(e) >= 0.0
  {
    if "replicas_desired" in e.attributes && e.attributes["replicas_desired"].Num? && e.attributes["replicas_desired"].n > 0.0
       && "replicas_running" in e.attributes && e.attributes["replicas_running"].Num? {
      DivideMono(0.0, Max(0.0, e.attributes["replicas_desired"].n - e.attributes["replicas_running"].n), e.attributes["replicas_desired"].n);
    }
  }

  lemma PenaltyIsPositive(ratio: real, weight: real)
    requires weight >= 0.0
    ensures ratio >= 0.0 ==> ratio * weight >= 0.0
    ensures ratio > 0.0 && weight > 0.0 ==> ratio * weight > 0.0
    ensures ratio == 0.0 ==> ratio * weight == 0.0
  {
  }

  /** The loop over the observations. */
  method SumPenalties(half: real -> real, o: Options, xs: seq<Observation>) returns (total: Option<real>)
    ensures total == Total(half, o, xs)
  {
    total := Some(0.0);
    var i := 0;
    while i < |xs|
      invariant 0 <= i <= |xs| && total == Total(half, o, xs[..i])
    {
      assert xs[..i + 1][..i] == xs[..i];
      total := Plus(total, Penalty(half, o, xs[i]));
      i := i + 1;
    }
    assert xs[..i] == xs;
  }

  // ----- the index --------------------------------------------------------

  function OfResource(xs: seq<Observation>, resource: string): seq<Observation> {
    if xs == [] then []
    else OfResource(xs[..|xs| - 1], resource) + (if xs[|xs| - 1].resource == resource then [xs[|xs| - 1]] else [])
  }

  function KindName(e: Entity): string { e.kind + "/" + e.name }

  predicate Concerns(e: Entity, x: Observation) { x.resource == e.id || x.resource == KindName(e) }

  /** The plain filter over all observations. */
  function Matching(xs: seq<Observation>, e: Entity): seq<Observation> {
    if xs == [] then []
    else Matching(xs[..|xs| - 1], e) + (if Concerns(e, xs[|xs| - 1]) then [xs[|xs| - 1]] else [])
  }

  /** Every observation is an object of its own. */
  predicate Distinct(xs: seq<Observation>) { forall i, j :: 0 <= i < j < |xs| ==> xs[i].uid != xs[j].uid }

  /** Each resource that occurs maps to its observations, in order. */
  ghost predicate Indexes(byResource: map<string, seq<Observation>>, all: seq<Observation>) {
    && (forall r :: r in byResource <==> OfResource(all, r) != [])
    && (forall r :: r in byResource ==> byResource[r] == OfResource(all, r))
  }

  /** The resource index. */
  method BuildIndex(all: seq<Observation>) returns (byResource: map<string, seq<Observation>>)
    ensures Indexes(byResource, all)
  {
    byResource := map[];
    var i := 0;
    while i < |all|
      invariant 0 <= i <= |all|
      invariant Indexes(byResource, all[..i])
    {
      var x := all[i];
      assert all[..i + 1][..i] == all[..i];
      byResource := if x.resource in byResource then byResource[x.resource := byResource[x.resource] + [x]] else byResource[x.resource := [x]];
      i := i + 1;
    }
    assert all[..i] == all;
  }

  lemma {:induction false} OfResourceAre(xs: seq<Observation>, resource: string)
    ensures forall x :: x in OfResource(xs, resource) <==> x in xs && x.resource == resource
    ensures Distinct(xs) ==> Distinct(OfResource(xs, resource))
  {
    if xs != [] {
      var n := |xs| - 1;
      OfResourceAre(xs[..n], resource);
      assert xs == xs[..n] + [xs[n]];
      if Distinct(xs) {
        var part := OfResource(xs[..n], resource);
        forall i | 0 <= i < |part| ensures part[i].uid != xs[n].uid { assert part[i] in xs[..n]; }
      }
    }
  }

  /** The list of one entity: direct matches, then kind/name matches that are not yet in it. */
  method CollectFor(e: Entity, byResource: map<string, seq<Observation>>, ghost all: seq<Observation>) returns (xs: seq<Observation>)
    requires Distinct(all)
    requires Indexes(byResource, all)
    ensures xs == OfResource(all, e.id) + (if KindName(e) != e.id then OfResource(all, KindName(e)) else [])
  {
    xs := if e.id in byResource then byResource[e.id] else [];
    if KindName(e) != e.id && KindName(e) in byResource {
      OfResourceAre(all, e.id);
      OfResourceAre(all, KindName(e));
      xs := AddMissing(xs, byResource[KindName(e)]);
    }
  }

  method AddMissing(direct: seq<Observation>, more: seq<Observation>) returns (xs: seq<Observation>)
    requires Distinct(more) && forall x :: x in more ==> x !in direct
    ensures xs == direct + more
  {
    xs := direct;
    var i := 0;
    while i < |more|
      invariant 0 <= i <= |more| && xs == direct + more[..i]
    {
      assert more[i] in more && more[i] !in direct;
      forall j | 0 <= j < i ensures more[..i][j] != more[i] { assert more[j].uid != more[i].uid; }
      if more[i] !in xs { xs := xs + [more[i]]; }
      i := i + 1;
    }
    assert more[..i] == more;
  }

  /** What an entity's list amounts to. */
  function Listed(all: seq<Observation>, e: Entity): seq<Observation> {
    OfResource(all, e.id) + (if KindName(e) != e.id then OfResource(all, KindName(e)) else [])
  }

  /** The indexed list holds exactly the observations that the plain filter over all of them keeps, each as
      often, and so scores the same. */
  lemma {:induction false} IndexIsFilter(half: real -> real, o: Options, all: seq<Observation>, e: Entity)
    ensures multiset(Listed(all, e)) == multiset(Matching(all, e))
    ensures Score(half, e, Listed(all, e), o) == Score(half, e, Matching(all, e), o)
  {
    IndexPermutes(all, e);
    IndexTotals(half, o, all, e);
  }

  lemma {:induction false} IndexPermutes(all: seq<Observation>, e: Entity)
    ensures multiset(Listed(all, e)) == multiset(Matching(all, e))
  {
    if all != [] {
      var first: seq<Observation>, x := all[..|all| - 1], all[|all| - 1];
      assert all == first + [x];
      IndexPermutes(first, e);
      IndexStep(first, x, e);
    }
  }

  lemma {:induction false} IndexStep(first: seq<Observation>, x: Observation, e: Entity)
    requires multiset(Listed(first, e)) == multiset(Matching(first, e))
    ensures multiset(Listed(first + [x], e)) == multiset(Matching(first + [x], e))
  {
    assert (first + [x])[..|first|] == first;
    OfResourceSnoc(first, x, e.id);
    OfResourceSnoc(first, x, KindName(e));
  }

  lemma {:induction false} OfResourceSnoc(first: seq<Observation>, x: Observation, resource: string)
    ensures OfResource(first + [x], resource) == OfResource(first, resource) + Only(x.resource == resource, x)
  {
    assert (first + [x])[..|first|] == first;
  }

  function Only(keep: bool, x: Observation): seq<Observation> { if keep then [x] else [] }

  /** The total of the direct matches and, under another name, of the kind/name matches. */
  function Apart(half: real -> real, o: Options, all: seq<Observation>, e: Entity): Option<real> {
    Plus(Total(half, o, OfResource(all, e.id)),
         if KindName(e) != e.id then Total(half, o, OfResource(all, KindName(e))) else Some(0.0))
  }

  lemma {:induction false} ApartStep(half: real -> real, o: Options, all: seq<Observation>, e: Entity, x: Observation)
    ensures Apart(half, o, all + [x], e) == Plus(Apart(half, o, all, e), Total(half, o, Only(Concerns(e, x), x)))
  {
    var a, b := Only(x.resource == e.id, x), Only(x.resource == KindName(e), x);
    OfResourceSnoc(all, x, e.id);
    OfResourceSnoc(all, x, KindName(e));
    TotalConcat(half, o, OfResource(all, e.id), a);
    TotalConcat(half, o, OfResource(all, KindName(e)), b);
    PlusSwaps(Total(half, o, OfResource(all, e.id)), Total(half, o, a), Total(half, o, OfResource(all, KindName(e))), Total(half, o, b));
  }

  lemma PlusSwaps(a: Option<real>, b: Option<real>, c: Option<real>, d: Option<real>)
    ensures Plus(Plus(a, b), Plus(c, d)) == Plus(Plus(a, c), Plus(b, d))
    ensures Plus(a, Some(0.0)) == a
    ensures Plus(Plus(a, b), Some(0.0)) == Plus(Plus(a, Some(0.0)), b)
  {
  }

  lemma {:induction false} MatchingApart(half: real -> real, o: Options, all: seq<Observation>, e: Entity)
    ensures Apart(half, o, all, e) == Total(half, o, Matching(all, e))
  {
    if all != [] {
      var n := |all| - 1;
      MatchingApart(half, o, all[..n], e);
      assert all == all[..n] + [all[n]];
      ApartStep(half, o, all[..n], e, all[n]);
      TotalConcat(half, o, Matching(all[..n], e), Only(Concerns(e, all[n]), all[n]));
    }
  }

  lemma {:induction false} IndexTotals(half: real -> real, o: Options, all: seq<Observation>, e: Entity)
    ensures Total(half, o, Listed(all, e)) == Total(half, o, Matching(all, e))
  {
    MatchingApart(half, o, all, e);
    TotalConcat(half, o, OfResource(all, e.id), if KindName(e) != e.id then OfResource(all, KindName(e)) else []);
  }

  // ----- scoring the graph ------------------------------------------------

  /** `parseWindowMs`: digits and a unit. */
  function ParseWindow(s: string): Option<nat> {
    if |s| >= 2 && Cidr.AllDigits(s[..|s| - 1]) && s[|s| - 1] in "mhd"
    then Some(Cidr.Value(s[..|s| - 1]) * (if s[|s| - 1] == 'm' then 60_000 else if s[|s| - 1] == 'h' then 3_600_000 else 86_400_000))
    else None
  }

  /** An entity's own window if its specification has one that parses, else the scorer's. */
  function WindowFor(specs: map<string, string>, windowMs: int, id: string): int {
    if id in specs && ParseWindow(specs[id]).Some? then ParseWindow(specs[id]).value else windowMs
  }

  function Defaults(now: int, windowMs: int): Options { Options(now, windowMs, 70.0, 40.0, 20.0, 10.0, 40.0) }

  function GradeName(g: Grade): string {
    match g
    case Healthy => "healthy"
    case Degraded => "degraded"
    case Unhealthy => "unhealthy"
  }

  function WithScore(e: Entity, score: real): Entity {
    e.(attributes := e.attributes["health_score" := Num(score)]["health_grade" := Str(GradeName(GradeOf(score)))])
  }

  /** An entity scored from the plain filter over all observations. */
  function Scored(half: real -> real, all: seq<Observation>, now: int, window: int, e: Entity): Entity {
    WithScore(e, Score(half, e, Matching(all, e), Defaults(now, window)))
  }

  /** A window is a number of minutes, hours or days. */
  lemma WindowIs(digits: string)
    requires digits != "" && Cidr.AllDigits(digits)
    ensures ParseWindow(digits + "m") == Some(Cidr.Value(digits) * 60_000)
    ensures ParseWindow(digits + "h") == Some(Cidr.Value(digits) * 3_600_000)
    ensures ParseWindow(digits + "d") == Some(Cidr.Value(digits) * 86_400_000)
  {
    assert (digits + "m")[..|digits|] == digits && (digits + "h")[..|digits|] == digits && (digits + "d")[..|digits|] == digits;
  }

  /** Scoring sets two attributes, with the default weights 40, 20 and 10, the replica weight 40 and the cap 70, and
      leaves everything else. */
  lemma {:induction false} ScoredSetsTwo(half: real -> real, all: seq<Observation>, now: int, window: int, e: Entity)
    ensures var r := Scored(half, all, now, window, e);
            var score := Score(half, e, Matching(all, e), Options(now, window, 70.0, 40.0, 20.0, 10.0, 40.0));
            && r == e.(attributes := r.attributes)
            && r.attributes.Keys == e.attributes.Keys + {"health_score", "health_grade"}
            && r.attributes["health_score"] == Num(score)
            && r.attributes["health_grade"] == Str(if score >= 80.0 then "healthy" else if score >= 50.0 then "degraded" else "unhealthy")
            && forall k :: k in e.attributes && k != "health_score" && k != "health_grade" ==> r.attributes[k] == e.attributes[k]
  {
  }

  class HealthScorer {
    const store: GraphStore
    const half: real -> real
    const windowMs: int
    const specs: map<string, string>

    constructor (store: GraphStore, half: real -> real, windowMs: int, specs: map<string, string>)
      ensures this.store == store && this.half == half && this.windowMs == windowMs && this.specs == specs
    {
      this.store, this.half, this.windowMs, this.specs := store, half, windowMs, specs;
    }

    /** The entity after scoring, if its write succeeds. */
    function After(all: seq<Observation>, now: int, e: Entity, written: bool): Entity {
      if written then Scored(half, all, now, WindowFor(specs, windowMs, e.id), e) else e
    }

    /** One turn of the loop of `scoreAll`; a failed write is skipped. */
    method ScoreOne(k: nat, e: Entity, all: seq<Observation>, byResource: map<string, seq<Observation>>, now: int, written: bool)
      requires UniqueEntities(store.doc.entities) && k < |store.doc.entities| && store.doc.entities[k] == e
      requires Distinct(all)
      requires Indexes(byResource, all)
      modifies store
      ensures store.doc == old(store.doc).(entities := old(store.doc).entities[k := After(all, now, e, written)])
      ensures UniqueEntities(store.doc.entities)
    {
      var xs := CollectFor(e, byResource, all);
      var score := ScoreFor(e, xs, all, now);
      var entity := WithScore(e, score);
      PutInPlace(store.doc.entities, k, entity);
      assert store.doc.entities[k := e] == store.doc.entities;
      var ok := store.Upsert(entity, written);
    }

    method ScoreFor(e: Entity, xs: seq<Observation>, ghost all: seq<Observation>, now: int) returns (score: real)
      requires xs == Listed(all, e)
      ensures score == Score(half, e, Matching(all, e), Defaults(now, WindowFor(specs, windowMs, e.id)))
    {
      var o := Defaults(now, WindowFor(specs, windowMs, e.id));
      var result := ComputeHealthScore(half, e, xs, o);
      IndexIsFilter(half, o, all, e);
      score := result.score;
    }

    /** The first `i` entities have been scored, and the successful writes counted. */
    ghost predicate ScoredTo(i: nat, es: seq<Entity>, after: seq<Entity>, edges: seq<Edge>, writes: nat -> bool, scored: nat)
      reads this, store
    {
      && i <= |es| == |after| && UniqueEntities(store.doc.entities)
      && store.doc == Graph(after[..i] + es[i..], edges)
      && scored == Successes(writes, i)
    }

    predicate AfterAt(i: nat, es: seq<Entity>, after: seq<Entity>, all: seq<Observation>, now: int, writes: nat -> bool) {
      i < |es| == |after| && after[i] == After(all, now, es[i], writes(i))
    }

    function Afters(all: seq<Observation>, now: int, es: seq<Entity>, writes: nat -> bool): (r: seq<Entity>)
      ensures |r| == |es| && forall i :: 0 <= i < |es| ==> AfterAt(i, es, r, all, now, writes)
    {
      if es == [] then []
      else
        var n := |es| - 1;
        var init := Afters(all, now, es[..n], writes);
        var r := init + [After(all, now, es[n], writes(n))];
        assert forall i :: 0 <= i < |es| ==> AfterAt(i, es, r, all, now, writes) by {
          forall i | 0 <= i < |es| ensures AfterAt(i, es, r, all, now, writes) {
            assert i < n ==> AfterAt(i, es[..n], init, all, now, writes);
          }
        }
        r
    }

    /** `scoreAll`: every entity whose write succeeds carries the score and grade that the plain filter over all
        observations gives it, every other one is as before, and the successes are counted. */
    method ScoreAll(all: seq<Observation>, now: int, writes: nat -> bool) returns (scored: nat)
      requires UniqueEntities(store.doc.entities) && Distinct(all)
      modifies store
      ensures store.doc == old(store.doc).(entities := Afters(all, now, old(store.doc).entities, writes))
      ensures scored == Successes(writes, |old(store.doc).entities|)
    {
      var es := store.doc.entities;
      var byResource := BuildIndex(all);
      ghost var after := Afters(all, now, es, writes);
      scored := ScoreTo(es, after, all, byResource, now, writes);
      assert after[..|es|] + es[|es|..] == after;
    }

    method ScoreTo(es: seq<Entity>, ghost after: seq<Entity>, all: seq<Observation>, byResource: map<string, seq<Observation>>,
                   now: int, writes: nat -> bool) returns (scored: nat)
      requires UniqueEntities(store.doc.entities) && store.doc.entities == es && |after| == |es|
      requires Distinct(all) && Indexes(byResource, all)
      requires forall i :: 0 <= i < |es| ==> AfterAt(i, es, after, all, now, writes)
      modifies store
      ensures ScoredTo(|es|, es, after, old(store.doc).edges, writes, scored)
    {
      ghost var edges := store.doc.edges;
      scored := 0;
      for i := 0 to |es|
        invariant ScoredTo(i, es, after, edges, writes, scored)
      {
        scored := ScoreNext(i, es, after, edges, all, byResource, now, writes, scored);
      }
    }

    method ScoreNext(i: nat, es: seq<Entity>, ghost after: seq<Entity>, ghost edges: seq<Edge>, all: seq<Observation>,
                     byResource: map<string, seq<Observation>>, now: int, writes: nat -> bool, scored: nat) returns (next: nat)
      requires ScoredTo(i, es, after, edges, writes, scored) && AfterAt(i, es, after, all, now, writes)
      requires Distinct(all) && Indexes(byResource, all)
      modifies store
      ensures ScoredTo(i + 1, es, after, edges, writes, next)
    {
      Splice(es, after, i);
      ScoreOne(i, es[i], all, byResource, now, writes(i));
      next := if writes(i) then scored + 1 else scored;
    }
  }

  function Successes(writes: nat -> bool, n: nat): nat {
    if n == 0 then 0 else Successes(writes, n - 1) + (if writes(n - 1) then 1 else 0)
  }
}
