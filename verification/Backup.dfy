/** `verifyBackup`: signature check of the manifest, freshest entry of the platform, age limit. */
module Backup {
  import opened Wrappers

  /** `takenAt` in milliseconds; `signed` says whether a non-empty `hmac` verifies. */
  datatype Entry = Entry(
    platform: string, targetId: string, location: string, checksum: string,
    takenAt: int, maxAge: Option<int>, hmac: string, signed: bool)

  datatype Error = BackupRequired | Stale | Tampered

  /** Limits in seconds: the caller's overrides and the defaults per platform. */
  datatype Limits = Limits(overrides: map<string, int>, defaults: map<string, int>)

  const FALLBACK_MAX_AGE_SECONDS := 86_400

  /** The caller's override for the platform comes first, then the entry's own limit, then the platform's default. */
  function MaxAge(limits: Limits, e: Entry): int {
    if e.platform in limits.overrides then limits.overrides[e.platform]
    else if e.maxAge.Some? then e.maxAge.value
    else if e.platform in limits.defaults then limits.defaults[e.platform]
    else FALLBACK_MAX_AGE_SECONDS
  }

  predicate Authentic(e: Entry) { e.hmac == "" || e.signed }

  predicate TooOld(limits: Limits, now: int, e: Entry) { ((now - e.takenAt) as real) / 1000.0 > MaxAge(limits, e) as real }

  function Candidates(entries: seq<Entry>, platform: string): seq<Entry> {
    if entries == [] then []
    else
      var n := |entries| - 1;
      Candidates(entries[..n], platform) + (if entries[n].platform == platform then [entries[n]] else [])
  }

  // ----- the sort ---------------------------------------------------------

  /** Where `Array.prototype.sort`, which is stable, puts one more entry: after those at least as fresh. */
  function Insert(sorted: seq<Entry>, e: Entry): (r: seq<Entry>)
    ensures |r| == |sorted| + 1
  {
    if sorted == [] then [e]
    else if sorted[|sorted| - 1].takenAt >= e.takenAt then sorted + [e]
    else Insert(sorted[..|sorted| - 1], e) + [sorted[|sorted| - 1]]
  }

  /** The stable sort by `taken_at`, newest first. */
  function Sorted(es: seq<Entry>): (r: seq<Entry>)
    ensures |r| == |es|
  {
    if es == [] then [] else Insert(Sorted(es[..|es| - 1]), es[|es| - 1])
  }

  predicate NewestFirst(es: seq<Entry>) { forall i, j :: 0 <= i < j < |es| ==> es[i].takenAt >= es[j].takenAt }

  lemma {:induction false} InsertPermutes(sorted: seq<Entry>, e: Entry)
    ensures multiset(Insert(sorted, e)) == multiset(sorted) + multiset{e}
  {
    if sorted != [] {
      var n := |sorted| - 1;
      assert sorted == sorted[..n] + [sorted[n]];
      if sorted[n].takenAt < e.takenAt { InsertPermutes(sorted[..n], e); }
    }
  }

  lemma {:induction false} InsertSorts(sorted: seq<Entry>, e: Entry)
    requires NewestFirst(sorted)
    ensures NewestFirst(Insert(sorted, e))
    ensures forall i :: 0 <= i < |Insert(sorted, e)| ==>
              Insert(sorted, e)[i].takenAt >= e.takenAt || Insert(sorted, e)[i].takenAt >= sorted[|sorted| - 1].takenAt
    ensures sorted != [] ==> Insert(sorted, e)[0] == if sorted[0].takenAt >= e.takenAt then sorted[0] else e
  {
    if sorted != [] {
      var n := |sorted| - 1;
      if sorted[n].takenAt < e.takenAt { InsertSorts(sorted[..n], e); }
    }
  }

  /** The first of the freshest entries. */
  function FreshestAt(es: seq<Entry>): (k: nat)
    requires es != []
    ensures k < |es|
    ensures forall i :: 0 <= i < |es| ==> es[i].takenAt <= es[k].takenAt
    ensures forall i :: 0 <= i < k ==> es[i].takenAt < es[k].takenAt
  {
    var n := |es| - 1;
    if n == 0 then 0
    else
      var k := FreshestAt(es[..n]);
      if es[n].takenAt > es[k].takenAt then n else k
  }

  lemma {:induction false} SortedPermutes(es: seq<Entry>)
    ensures multiset(Sorted(es)) == multiset(es)
  {
    if es != [] {
      var first: seq<Entry>, e := es[..|es| - 1], es[|es| - 1];
      assert es == first + [e];
      SortedPermutes(first);
      InsertPermutes(Sorted(first), e);
    }
  }

  /** The sort orders, and its head is the first of the freshest entries. */
  lemma {:induction false} SortedHead(es: seq<Entry>)
    ensures NewestFirst(Sorted(es))
    ensures es != [] ==> Sorted(es)[0] == es[FreshestAt(es)]
  {
    if es != [] {
      var n := |es| - 1;
      SortedHead(es[..n]);
      HeadStep(Sorted(es[..n]), es[n]);
      InsertSorts(Sorted(es[..n]), es[n]);
      if n > 0 { assert es[..n][FreshestAt(es[..n])] == es[FreshestAt(es[..n])]; }
    }
  }

  lemma {:induction false} HeadStep(sorted: seq<Entry>, e: Entry)
    requires NewestFirst(sorted)
    ensures sorted != [] ==> Insert(sorted, e)[0] == if sorted[0].takenAt >= e.takenAt then sorted[0] else e
    ensures sorted == [] ==> Insert(sorted, e)[0] == e
  {
    if sorted != [] { InsertSorts(sorted, e); }
  }

  // ----- the verification -------------------------------------------------

  lemma {:induction false} CandidatesAre(entries: seq<Entry>, platform: string, e: Entry)
    ensures e in Candidates(entries, platform) <==> e in entries && e.platform == platform
  {
    if entries != [] {
      var n := |entries| - 1;
      CandidatesAre(entries[..n], platform, e);
      assert entries == entries[..n] + [entries[n]];
    }
  }

  /** The entry the gate may rely on: every entry of the manifest is authentic, this one is of the platform, as
      fresh as any of it, and within its age limit. */
  predicate Accepts(entries: seq<Entry>, platform: string, limits: Limits, now: int, e: Entry) {
    && (forall x :: x in entries ==> Authentic(x))
    && e in entries && e.platform == platform
    && (forall x :: x in entries && x.platform == platform ==> x.takenAt <= e.takenAt)
    && !TooOld(limits, now, e)
  }

  function Freshest(entries: seq<Entry>, platform: string): Entry
    requires Candidates(entries, platform) != []
  {
    Candidates(entries, platform)[FreshestAt(Candidates(entries, platform))]
  }

  predicate AllAuthentic(entries: seq<Entry>) { forall x :: x in entries ==> Authentic(x) }

  /** What the check comes to, without sorting and without a loop. */
  function Verified(entries: seq<Entry>, platform: string, limits: Limits, now: int): Result<Entry, Error> {
    if !AllAuthentic(entries) then Failure(Tampered)
    else if Candidates(entries, platform) == [] then Failure(BackupRequired)
    else if TooOld(limits, now, Freshest(entries, platform)) then Failure(Stale)
    else Success(Freshest(entries, platform))
  }

  /** `verifyBackup` on a parsed manifest. */
  method VerifyBackup(entries: seq<Entry>, platform: string, limits: Limits, now: int) returns (r: Result<Entry, Error>)
    ensures r == Verified(entries, platform, limits, now)
    ensures r.Success? ==> Candidates(entries, platform) != [] && r.value == Freshest(entries, platform)
    ensures r.Success? ==> Accepts(entries, platform, limits, now, r.value)
    ensures r == Failure(Tampered) <==> exists x :: x in entries && !Authentic(x)
    ensures r == Failure(BackupRequired) <==> (forall x :: x in entries ==> Authentic(x) && x.platform != platform)
  {
    CandidatesOf(entries, platform);
    if entries == [] { return Failure(BackupRequired); }
    var candidates := Collect(entries, platform);
    if candidates.None? { return Failure(Tampered); }
    if candidates.value == [] { return Failure(BackupRequired); }
    SortedHead(candidates.value);
    var freshest := Sorted(candidates.value)[0];
    assert freshest == Freshest(entries, platform) && freshest in candidates.value;
    if TooOld(limits, now, freshest) { return Failure(Stale); }
    return Success(freshest);
  }

  /** The loop: `None` when an entry does not verify. */
  method Collect(entries: seq<Entry>, platform: string) returns (candidates: Option<seq<Entry>>)
    ensures candidates.None? <==> exists x :: x in entries && !Authentic(x)
    ensures candidates.Some? ==> candidates.value == Candidates(entries, platform)
  {
    var found: seq<Entry> := [];
    var i := 0;
    while i < |entries|
      invariant 0 <= i <= |entries|
      invariant found == Candidates(entries[..i], platform)
      invariant forall j :: 0 <= j < i ==> Authentic(entries[j])
    {
      var e := entries[i];
      assert entries[..i + 1][..i] == entries[..i];
      if e.hmac != "" && !e.signed {
        assert e in entries && !Authentic(e);
        return None;
      }
      if e.platform == platform { found := found + [e]; }
      i := i + 1;
    }
    assert entries[..i] == entries;
    return Some(found);
  }

  lemma {:induction false} CandidatesOf(entries: seq<Entry>, platform: string)
    ensures forall e :: e in Candidates(entries, platform) <==> e in entries && e.platform == platform
    ensures Candidates(entries, platform) == [] <==> forall e :: e in entries ==> e.platform != platform
  {
    forall e ensures e in Candidates(entries, platform) <==> e in entries && e.platform == platform {
      CandidatesAre(entries, platform, e);
    }
    if Candidates(entries, platform) != [] { assert Candidates(entries, platform)[0] in Candidates(entries, platform); }
  }

  /** When every entry verifies and the platform has one, the check passes exactly for an age of at most the
      caller's limit for the platform, or else the freshest entry's own, or else the platform's default, or else a day. */
  lemma VerifiedWithinLimit(entries: seq<Entry>, platform: string, limits: Limits, now: int)
    requires AllAuthentic(entries) && Candidates(entries, platform) != []
    ensures var e := Freshest(entries, platform);
            var seconds := if platform in limits.overrides then limits.overrides[platform]
                           else if e.maxAge.Some? then e.maxAge.value
                           else if platform in limits.defaults then limits.defaults[platform]
                           else 86_400;
            && (Verified(entries, platform, limits, now) == Success(e) <==> now - e.takenAt <= seconds * 1000)
            && (Verified(entries, platform, limits, now) == Failure(Stale) <==> now - e.takenAt > seconds * 1000)
  {
    CandidatesOf(entries, platform);
    var e := Freshest(entries, platform);
    assert e in Candidates(entries, platform) && e.platform == platform;
    var age, limit := (now - e.takenAt) as real, MaxAge(limits, e) as real;
    assert age / 1000.0 > limit <==> age > limit * 1000.0;
    assert (MaxAge(limits, e) * 1000) as real == limit * 1000.0;
  }

  // ----- unsigned entries -------------------------------------------------

  /** The manifest without the entries that were never signed. */
  function Signed(entries: seq<Entry>): (r: seq<Entry>)
    ensures forall e :: e in r ==> e in entries && e.hmac != ""
  {
    if entries == [] then []
    else
      var n := |entries| - 1;
      Signed(entries[..n]) + (if entries[n].hmac != "" then [entries[n]] else [])
  }

  /** The check succeeds with an entry whose signature has been verified exactly when it succeeds and the freshest
      entry of the platform carries a signature. */
  lemma VerifiedSignatureIff(entries: seq<Entry>, platform: string, limits: Limits, now: int)
    requires Verified(entries, platform, limits, now).Success?
    ensures var e := Verified(entries, platform, limits, now).value;
            && (e.hmac != "" && e.signed <==> Freshest(entries, platform).hmac != "")
            && (e.hmac == "" <==> Freshest(entries, platform).hmac == "")
  {
    CandidatesOf(entries, platform);
    assert Freshest(entries, platform) in Candidates(entries, platform);
  }

  lemma {:induction false} SignedCandidates(entries: seq<Entry>, platform: string)
    ensures Candidates(Signed(entries), platform) == Signed(Candidates(entries, platform))
  {
    if entries != [] {
      var es: seq<Entry>, e := entries[..|entries| - 1], entries[|entries| - 1];
      assert entries == es + [e];
      SignedCandidates(es, platform);
      SignedStep(es, e, platform);
    }
  }

  lemma {:induction false} SignedStep(es: seq<Entry>, e: Entry, platform: string)
    requires Candidates(Signed(es), platform) == Signed(Candidates(es, platform))
    ensures Candidates(Signed(es + [e]), platform) == Signed(Candidates(es + [e], platform))
  {
    SignedSnoc(es, e);
    CandidatesSnoc(es, e, platform);
    if e.hmac != "" { CandidatesSnoc(Signed(es), e, platform); }
    if e.platform == platform { SignedSnoc(Candidates(es, platform), e); }
  }

  lemma {:induction false} CandidatesSnoc(es: seq<Entry>, e: Entry, platform: string)
    ensures Candidates(es + [e], platform) == if e.platform == platform then Candidates(es, platform) + [e] else Candidates(es, platform)
  {
    assert (es + [e])[..|es|] == es;
  }

  lemma {:induction false} SignedSnoc(es: seq<Entry>, e: Entry)
    ensures Signed(es + [e]) == if e.hmac != "" then Signed(es) + [e] else Signed(es)
  {
    assert (es + [e])[..|es|] == es;
  }

  /** Dropping the unsigned entries leaves the freshest one alone when that one is signed. */
  lemma {:induction false} FreshestSigned(es: seq<Entry>)
    requires es != [] && es[FreshestAt(es)].hmac != ""
    ensures Signed(es) != [] && Signed(es)[FreshestAt(Signed(es))] == es[FreshestAt(es)]
  {
    var n := |es| - 1;
    var before: seq<Entry>, e := es[..n], es[n];
    assert es == before + [e];
    SignedSnoc(before, e);
    if FreshestAt(es) == n {
      NewestLast(Signed(before), e);
    } else {
      FreshestSigned(before);
      OlderLast(Signed(before), e);
    }
  }

  lemma {:induction false} NewestLast(es: seq<Entry>, e: Entry)
    requires forall x :: x in es ==> x.takenAt < e.takenAt
    ensures FreshestAt(es + [e]) == |es|
  {
    assert (es + [e])[..|es|] == es;
    if es != [] { assert es[FreshestAt(es)] in es; }
  }

  lemma {:induction false} OlderLast(es: seq<Entry>, e: Entry)
    requires es != [] && e.takenAt <= es[FreshestAt(es)].takenAt
    ensures FreshestAt(es + [e]) == FreshestAt(es)
  {
    assert (es + [e])[..|es|] == es;
  }

  /** The unsigned entries are skipped, in that the check answers as if they were not in the manifest, exactly
      when an entry does not verify, the platform has no entry, its freshest one is signed, or that one and the
      freshest signed one are both too old. */
  lemma {:induction false} UnsignedAreSkippedIff(entries: seq<Entry>, platform: string, limits: Limits, now: int)
    ensures Verified(entries, platform, limits, now) == Verified(Signed(entries), platform, limits, now) <==>
            || !AllAuthentic(entries)
            || Candidates(entries, platform) == []
            || Freshest(entries, platform).hmac != ""
            || (&& TooOld(limits, now, Freshest(entries, platform))
                && Candidates(Signed(entries), platform) != []
                && TooOld(limits, now, Freshest(Signed(entries), platform)))
  {
    SignedAuthentic(entries);
    SignedCandidates(entries, platform);
    var cs := Candidates(entries, platform);
    if cs != [] && Freshest(entries, platform).hmac != "" { FreshestSigned(cs); }
    if Signed(cs) != [] { assert Signed(cs)[FreshestAt(Signed(cs))] in Signed(cs); }
  }

  lemma {:induction false} SignedAuthentic(entries: seq<Entry>)
    ensures AllAuthentic(Signed(entries)) <==> AllAuthentic(entries)
  {
    forall x | x in entries && !Authentic(x) ensures x in Signed(entries) { SignedKeeps(entries, x); }
  }

  lemma {:induction false} SignedKeeps(entries: seq<Entry>, x: Entry)
    requires x in entries && x.hmac != ""
    ensures x in Signed(entries)
  {
    var n := |entries| - 1;
    if x != entries[n] {
      assert x in entries[..n];
      SignedKeeps(entries[..n], x);
    }
  }

  /** So in any manifest whose entries verify, one more unsigned entry that is the platform's newest is returned
      as the backup to rely on, although skipping it would return another entry or none. */
  lemma {:induction false} UnsignedEntryIsReturned(entries: seq<Entry>, e: Entry, limits: Limits, now: int)
    requires AllAuthentic(entries) && e.hmac == "" && !TooOld(limits, now, e)
    requires forall x :: x in entries && x.platform == e.platform ==> x.takenAt < e.takenAt
    ensures Verified(entries + [e], e.platform, limits, now) == Success(e)
    ensures Verified(Signed(entries + [e]), e.platform, limits, now) != Success(e)
  {
    var all := entries + [e];
    CandidatesSnoc(entries, e, e.platform);
    CandidatesOf(entries, e.platform);
    NewestLast(Candidates(entries, e.platform), e);
    UnsignedAreSkippedIff(all, e.platform, limits, now);
  }
}
