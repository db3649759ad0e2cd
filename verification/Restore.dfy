/** `gateApproval` and `runRestore` as sequences of effects, any of which may fail. */
module Restore {
  import opened Wrappers
  import Backup

  datatype Kind = ReadOnly | Reversible | PersistentModifying | DataAffecting | Architectural

  /** What is done to the outside world. */
  datatype Effect =
    | ProbeArtifact                      // `stat`, or `curl` for an OpenSearch snapshot
    | ProbeTarget                        // `echo ok`
    | Checksum                           // `sha256sum` and the comparison
    | BackupCheck(entry: Backup.Entry)   // `verifyBackup` has returned this entry
    | Bypass                             // audit event `gate.bypass`
    | Delay                              // `scheduleDelayedAction` with 24 hours
    | Confirm                            // the typed-CONFIRM prompt
    | Allowed                            // audit event `gate.allowed`
    | DeniedEvent                        // audit event `gate.denied`
    | Command(n: nat)                    // the platform's `n`-th restore command

  /** An effect and whether it succeeded: the command's exit code and output are as required, the operator
      typed CONFIRM, the audit append or the delay did not throw. */
  datatype Event = Event(effect: Effect, ok: bool)

  datatype Context = Context(
    admin: bool, skipBackupCheck: bool, manifest: seq<Backup.Entry>, limits: Backup.Limits, now: int)

  datatype GateError = Denied | BackupMissing | NoReport | EffectFailed

  /** How a typed-CONFIRM flow gets past the backup check. */
  predicate Cleared(c: Context, platform: string, e: Event) {
    e.ok && match e.effect
            case BackupCheck(b) => !c.skipBackupCheck && Backup.Verified(c.manifest, platform, c.limits, c.now) == Success(b)
            case Bypass => c.skipBackupCheck && c.admin
            case _ => false
  }

  /** The events of an approval, by kind of action. */
  predicate Approval(kind: Kind, c: Context, platform: string, events: seq<Event>) {
    match kind
    case ReadOnly => events == [Event(Allowed, true)]
    case Reversible => events == [Event(Confirm, true), Event(Allowed, true)]
    case PersistentModifying => events == [Event(Confirm, true), Event(Allowed, true)]
    case DataAffecting =>
      |events| == 3 && Cleared(c, platform, events[0]) && events[1..] == [Event(Confirm, true), Event(Allowed, true)]
    case Architectural =>
      |events| == 4 && Cleared(c, platform, events[0])
      && events[1..] == [Event(Delay, true), Event(Confirm, true), Event(Allowed, true)]
  }

  /** What an approval of each kind says, by position: it ends with `gate.allowed`, recorded once; all but reading
      have CONFIRM just before; data-affecting and architectural actions start with the check of the platform's
      freshest backup, or with an administrator's recorded bypass; architectural ones then wait. */
  lemma ApprovalMeans(kind: Kind, c: Context, platform: string, events: seq<Event>)
    requires Approval(kind, c, platform, events)
    ensures var n := |events|;
            && n == (match kind case ReadOnly => 1 case Reversible => 2 case PersistentModifying => 2 case DataAffecting => 3 case Architectural => 4)
            && events[n - 1] == Event(Allowed, true) && (forall i :: 0 <= i < n - 1 ==> events[i].effect != Allowed)
            && (!kind.ReadOnly? ==> events[n - 2] == Event(Confirm, true))
            && (kind.Architectural? ==> events[1] == Event(Effect.Delay, true))
            && (kind.DataAffecting? || kind.Architectural? ==>
                 if c.skipBackupCheck then c.admin && events[0] == Event(Bypass, true)
                 else Backup.AllAuthentic(c.manifest) && Backup.Candidates(c.manifest, platform) != []
                      && events[0] == Event(BackupCheck(Backup.Freshest(c.manifest, platform)), true))
  {
    if kind.DataAffecting? { assert events[1] == events[1..][0] && events[2] == events[1..][1]; }
    if kind.Architectural? { assert events[1] == events[1..][0] && events[2] == events[1..][1] && events[3] == events[1..][2]; }
  }

  predicate NoneAllowed(events: seq<Event>) {
    forall i :: 0 <= i < |events| ==> events[i] != Event(Allowed, true) && !events[i].effect.Command?
  }

  /** The dry run of an entry passed. */
  predicate DryRunPassed(e: Backup.Entry, events: seq<Event>) {
    Backup.Authentic(e) &&
    events == [Event(ProbeArtifact, true), Event(ProbeTarget, true)] + (if NeedsChecksum(e) then [Event(Checksum, true)] else [])
  }

  /** A passed dry run has probed the artifact and then the target, and has then compared the checksum exactly when
      the entry has one and lies on no OpenSearch cluster; and the entry's signature, if it has one, verifies. */
  lemma DryRunMeans(e: Backup.Entry, events: seq<Event>)
    requires DryRunPassed(e, events)
    ensures (e.hmac == "" || e.signed) && 2 <= |events| <= 3
    ensures events[0] == Event(ProbeArtifact, true) && events[1] == Event(ProbeTarget, true)
    ensures |events| == 3 ==> events[2] == Event(Checksum, true)
    ensures |events| == 3 <==> e.checksum != "" && !("opensearch://" <= e.location)
  {
  }

  const REMOTE_SCHEME := "opensearch://"

  predicate NeedsChecksum(e: Backup.Entry) { e.checksum != "" && !(REMOTE_SCHEME <= e.location) }

  /** How many commands the platform's restore has; OpenSearch has none and always throws. */
  function CommandCount(platform: string): nat {
    if platform == "redis" then 3 else if platform == "opensearch" then 0 else 1
  }

  function Commands(n: nat): (r: seq<Event>)
    ensures |r| == n && forall i :: 0 <= i < n ==> r[i] == Event(Command(i), true)
  {
    if n == 0 then [] else Commands(n - 1) + [Event(Command(n - 1), true)]
  }

  /** A restore command at `x` was preceded, in this order, by a passing dry run, a clearance, CONFIRM and the
      `gate.allowed` event, and by the commands before it. */
  predicate Gated(c: Context, e: Backup.Entry, trace: seq<Event>, x: nat) {
    exists d: nat :: d + 3 <= x < |trace| && GatedFrom(c, e, trace, d, x)
  }

  predicate GatedFrom(c: Context, e: Backup.Entry, trace: seq<Event>, d: nat, x: nat)
    requires d + 3 <= x < |trace|
  {
    && DryRunPassed(e, trace[..d])
    && Cleared(c, e.platform, trace[d])
    && trace[d + 1] == Event(Confirm, true)
    && trace[d + 2] == Event(Allowed, true)
    && trace[d + 3..x] == Commands(x - d - 3)
    && trace[x].effect == Command(x - d - 3)
  }

  /** And the entry that was checked is the one being restored. */
  predicate RestoresChecked(c: Context, e: Backup.Entry, trace: seq<Event>, x: nat) {
    exists d: nat :: d + 3 <= x < |trace| && GatedFrom(c, e, trace, d, x) && trace[d].effect == BackupCheck(e)
  }

  /** The gate checks the platform's freshest backup, whatever entry is restored: without the bypass, a restore
      command acts on the backup that was checked exactly when the entry is the freshest of the manifest. */
  lemma {:induction false} RestoresCheckedIff(c: Context, e: Backup.Entry, trace: seq<Event>, x: nat)
    requires Gated(c, e, trace, x) && !c.skipBackupCheck
    ensures Backup.Candidates(c.manifest, e.platform) != []
    ensures RestoresChecked(c, e, trace, x) <==> e == Backup.Freshest(c.manifest, e.platform)
  {
    var d: nat :| d + 3 <= x < |trace| && GatedFrom(c, e, trace, d, x);
    assert Cleared(c, e.platform, trace[d]);
    if e == Backup.Freshest(c.manifest, e.platform) { assert trace[d].effect == BackupCheck(e); }
  }

  class Session {
    const context: Context
    /** Whether the `n`-th effect of the session succeeds. */
    const world: nat -> bool
    var trace: seq<Event>

    constructor (context: Context, world: nat -> bool)
      ensures this.context == context && this.world == world && trace == []
    {
      this.context, this.world, trace := context, world, [];
    }

    method Do(effect: Effect) returns (ok: bool)
      modifies this
      ensures trace == old(trace) + [Event(effect, ok)]
    {
      ok := world(|trace|);
      trace := trace + [Event(effect, ok)];
    }

    // ----- the gate -------------------------------------------------------

    /** `runBackupCheck` */
    method RunBackupCheck(platform: string) returns (r: Result<(), GateError>)
      modifies this
      ensures r.Success? ==> |trace| == |old(trace)| + 1 && trace[..|old(trace)|] == old(trace) && Cleared(context, platform, trace[|old(trace)|])
      ensures r.Failure? ==> old(trace) <= trace && NoneAllowed(trace[|old(trace)|..])
      ensures context.skipBackupCheck && !context.admin ==> r == Failure(Denied) && trace == old(trace)
      ensures !context.skipBackupCheck && (forall b :: !Backup.Accepts(context.manifest, platform, context.limits, context.now, b)) ==>
                r == Failure(BackupMissing) && trace == old(trace)
      ensures !context.skipBackupCheck ==> (r.Success? <==> Backup.Verified(context.manifest, platform, context.limits, context.now).Success?)
    {
      if context.skipBackupCheck {
        if !context.admin { return Failure(Denied); }
        var ok := Do(Bypass);
        if !ok { return Failure(EffectFailed); }
        return Success(());
      }
      var found := Backup.VerifyBackup(context.manifest, platform, context.limits, context.now);
      if found.Failure? { return Failure(BackupMissing); }
      trace := trace + [Event(BackupCheck(found.value), true)];
      return Success(());
    }

    /** The end of each CONFIRM flow: the prompt, then `gate.allowed` or `gate.denied`. */
    method ConfirmAndRecord() returns (r: Result<(), GateError>)
      modifies this
      ensures r.Success? ==> trace == old(trace) + [Event(Confirm, true), Event(Allowed, true)]
      ensures r.Failure? ==> old(trace) <= trace && NoneAllowed(trace[|old(trace)|..])
    {
      var confirmed := Do(Confirm);
      if !confirmed {
        var recorded := Do(DeniedEvent);
        return Failure(if recorded then Denied else EffectFailed);
      }
      var ok := Do(Allowed);
      if !ok { return Failure(EffectFailed); }
      return Success(());
    }

    /** `gateApproval`. It approves exactly with the events of an approval of the action's kind, in order, and
        without approving never records `gate.allowed`. */
    method GateApproval(kind: Kind, platform: string, report: string) returns (r: Result<(), GateError>)
      modifies this
      ensures old(trace) <= trace
      ensures r.Success? ==> Approval(kind, context, platform, trace[|old(trace)|..])
      ensures r.Failure? ==> NoneAllowed(trace[|old(trace)|..])
      ensures kind == Architectural && report == "" ==> r == Failure(NoReport) && trace == old(trace)
      ensures (kind == DataAffecting || kind == Architectural) && context.skipBackupCheck && !context.admin ==> r.Failure?
    {
      match kind {
        case ReadOnly =>
          var ok := Do(Allowed);
          return if ok then Success(()) else Failure(EffectFailed);
        case Reversible => r := ConfirmAndRecord();
        case PersistentModifying => r := ConfirmAndRecord();
        case DataAffecting => r := DataAffectingApproval(platform);
        case Architectural => r := ArchitecturalApproval(platform, report);
      }
    }

    method DataAffectingApproval(platform: string) returns (r: Result<(), GateError>)
      modifies this
      ensures old(trace) <= trace
      ensures r.Success? ==> Approval(DataAffecting, context, platform, trace[|old(trace)|..])
      ensures r.Failure? ==> NoneAllowed(trace[|old(trace)|..])
      ensures context.skipBackupCheck && !context.admin ==> r == Failure(Denied) && trace == old(trace)
    {
      r := RunBackupCheck(platform);
      if r.Success? {
        ghost var mid := trace;
        r := ConfirmAndRecord();
        Suffixes(old(trace), mid, trace);
      }
    }

    method ArchitecturalApproval(platform: string, report: string) returns (r: Result<(), GateError>)
      modifies this
      ensures old(trace) <= trace
      ensures r.Success? ==> Approval(Architectural, context, platform, trace[|old(trace)|..])
      ensures r.Failure? ==> NoneAllowed(trace[|old(trace)|..])
      ensures report == "" ==> r == Failure(NoReport) && trace == old(trace)
      ensures report != "" && context.skipBackupCheck && !context.admin ==> r == Failure(Denied) && trace == old(trace)
    {
      if report == "" { return Failure(NoReport); }
      r := RunBackupCheck(platform);
      if r.Success? {
        ghost var check := trace[|old(trace)|];
        var ok := Do(Delay);
        ghost var mid := trace;
        assert mid == old(trace) + [check, Event(Effect.Delay, ok)];
        if !ok { return Failure(EffectFailed); }
        r := ConfirmAndRecord();
        DelayedEvents(context, platform, old(trace), check, mid, trace);
      }
    }

    // ----- the restore ----------------------------------------------------

    /** `dryRunRestore`: three checks, none of which stops the next; it passes exactly when all do. */
    method DryRun(entry: Backup.Entry) returns (passed: bool)
      modifies this
      ensures old(trace) <= trace && NoneAllowed(trace[|old(trace)|..])
      ensures passed <==> DryRunPassed(entry, trace[|old(trace)|..])
    {
      var errors := 0;
      var artifactReadable := Do(ProbeArtifact);
      if !artifactReadable { errors := errors + 1; }
      var targetReachable := Do(ProbeTarget);
      if !targetReachable { errors := errors + 1; }
      // reVerifyEntry
      var verified := entry.hmac == "" || entry.signed;
      if verified && entry.checksum != "" && !(REMOTE_SCHEME <= entry.location) {
        verified := Do(Checksum);
      }
      if !verified {
        errors := errors + 1;
        artifactReadable := false;
      }
      passed := artifactReadable && targetReachable && errors == 0;
      ghost var tail := trace[|old(trace)|..];
      assert |tail| >= 2 && tail[0].effect == ProbeArtifact && tail[1].effect == ProbeTarget;
      assert |tail| == 3 ==> tail == [tail[0], tail[1], tail[2]];
      assert |tail| == 2 ==> tail == [tail[0], tail[1]];
    }

    /** `execRestore`: the platform's commands in order, stopping at the first failure. */
    method ExecRestore(platform: string) returns (ok: bool)
      modifies this
      ensures old(trace) <= trace
      ensures ok ==> trace == old(trace) + Commands(CommandCount(platform)) && CommandCount(platform) > 0
      ensures !ok ==> trace == old(trace)
                      || exists n :: 0 <= n < CommandCount(platform) && trace == old(trace) + Commands(n) + [Event(Command(n), false)]
    {
      var count := CommandCount(platform);
      if count == 0 { return false; }
      var n := 0;
      while n < count
        invariant 0 <= n <= count && trace == old(trace) + Commands(n)
      {
        var done := Do(Command(n));
        if !done { return false; }
        n := n + 1;
      }
      return true;
    }

    /** `runRestore`. Whatever fails, each restore command that is run is gated; with `dryRun` none is run; and
        the restore reports success exactly after all of the platform's commands. */
    method RunRestore(entry: Backup.Entry, dryRun: bool) returns (r: Result<bool, GateError>)
      requires trace == []
      modifies this
      ensures forall x :: 0 <= x < |trace| && trace[x].effect.Command? ==> Gated(context, entry, trace, x)
      ensures dryRun || (context.skipBackupCheck && !context.admin) ==> forall x :: 0 <= x < |trace| ==> !trace[x].effect.Command?
      ensures r == Success(false) <==> dryRun && DryRunPassed(entry, trace)
      ensures r == Success(true) ==>
                exists d :: 0 <= d <= |trace| && trace == trace[..d] + Commands(CommandCount(entry.platform)) && !dryRun && CommandCount(entry.platform) > 0
    {
      var passed := DryRun(entry);
      assert trace[0..] == trace;
      ghost var first := trace;
      if !passed { return Failure(EffectFailed); }
      if dryRun { return Success(false); }
      var approved := GateApproval(DataAffecting, entry.platform, "");
      ghost var middle := trace;
      Suffixes([], first, middle);
      if approved.Failure? {
        NoCommands(first, middle);
        return Failure(approved.error);
      }
      var ok := ExecRestore(entry.platform);
      if ok {
        CommandsAreGated(context, entry, first, middle, CommandCount(entry.platform), trace);
        assert trace == trace[..|middle|] + Commands(CommandCount(entry.platform));
        return Success(true);
      }
      if trace == middle {
        CommandsAreGated(context, entry, first, middle, 0, trace);
      } else {
        var n :| 0 <= n < CommandCount(entry.platform) && trace == middle + Commands(n) + [Event(Command(n), false)];
        CommandsAreGated(context, entry, first, middle, n, trace);
      }
      return Failure(EffectFailed);
    }
  }

  /** What follows a check and a delay completes an approval, or allows nothing. */
  lemma {:induction false} DelayedEvents(c: Context, platform: string, before: seq<Event>, check: Event, mid: seq<Event>, after: seq<Event>)
    requires Cleared(c, platform, check) && mid == before + [check, Event(Effect.Delay, true)] && mid <= after
    ensures before <= after
    ensures after == mid + [Event(Confirm, true), Event(Allowed, true)] ==> Approval(Architectural, c, platform, after[|before|..])
    ensures NoneAllowed(after[|mid|..]) ==> NoneAllowed(after[|before|..])
  {
    var tail := after[|mid|..];
    assert after[|before|..] == [check, Event(Effect.Delay, true)] + tail;
    if tail == [Event(Confirm, true), Event(Allowed, true)] {
      assert ([check, Event(Effect.Delay, true)] + tail)[1..] == [Event(Effect.Delay, true), Event(Confirm, true), Event(Allowed, true)];
    }
  }

  lemma {:induction false} Suffixes(a: seq<Event>, b: seq<Event>, c: seq<Event>)
    requires a <= b <= c
    ensures c[|a|..] == b[|a|..] + c[|b|..]
  {
  }

  lemma {:induction false} NoCommands(first: seq<Event>, all: seq<Event>)
    requires first <= all && NoneAllowed(first) && NoneAllowed(all[|first|..])
    ensures NoneAllowed(all)
  {
    forall i | 0 <= i < |all| ensures all[i] != Event(Allowed, true) && !all[i].effect.Command? {
      if i >= |first| { assert all[i] == all[|first|..][i - |first|]; }
    }
  }

  /** Commands that follow an approval that follows a passing dry run are gated. */
  lemma {:induction false} CommandsAreGated(c: Context, e: Backup.Entry, first: seq<Event>, middle: seq<Event>, n: nat, trace: seq<Event>)
    requires DryRunPassed(e, first) && NoneAllowed(first) && first <= middle
    requires Approval(DataAffecting, c, e.platform, middle[|first|..])
    requires trace == middle + Commands(n) || trace == middle + Commands(n) + [Event(Command(n), false)]
    ensures forall x :: 0 <= x < |trace| && trace[x].effect.Command? ==> Gated(c, e, trace, x)
  {
    var d := |first|;
    var gate := middle[d..];
    assert middle == first + gate && |gate| == 3;
    assert gate[1] == Event(Confirm, true) && gate[2] == Event(Allowed, true) by {
      assert gate[1] == gate[1..][0] && gate[2] == gate[1..][1];
    }
    forall x | 0 <= x < d + 3 ensures !trace[x].effect.Command? {
      assert trace[x] == if x < d then first[x] else gate[x - d];
    }
    var run := if trace == middle + Commands(n) then Commands(n) else Commands(n) + [Event(Command(n), false)];
    assert trace == first + gate + run;
    forall x | 0 <= x < |trace| && trace[x].effect.Command? ensures Gated(c, e, trace, x) {
      CommandsPrefix(n, x - d - 3);
      CommandIsGated(c, e, first, gate, run, trace, x);
    }
  }

  lemma {:induction false} CommandIsGated(c: Context, e: Backup.Entry, first: seq<Event>, gate: seq<Event>, run: seq<Event>, trace: seq<Event>, x: nat)
    requires DryRunPassed(e, first) && |gate| == 3 && Cleared(c, e.platform, gate[0])
    requires gate[1] == Event(Confirm, true) && gate[2] == Event(Allowed, true) && trace == first + gate + run
    requires |first| + 3 <= x < |trace|
    requires var k := x - |first| - 3; run[..k] == Commands(k) && run[k].effect == Command(k)
    ensures Gated(c, e, trace, x)
  {
    var d := |first|;
    Sections(first, gate, run, x - d - 3);
    assert trace[..d] == first;
    assert GatedFrom(c, e, trace, d, x);
  }

  lemma {:induction false} Sections(first: seq<Event>, gate: seq<Event>, run: seq<Event>, k: nat)
    requires |gate| == 3 && k <= |run|
    ensures var trace, d := first + gate + run, |first|;
            && trace[..d] == first && trace[d] == gate[0] && trace[d + 1] == gate[1] && trace[d + 2] == gate[2]
            && trace[d + 3..d + 3 + k] == run[..k] && (k < |run| ==> trace[d + 3 + k] == run[k])
  {
  }

  lemma {:induction false} CommandsPrefix(n: nat, k: nat)
    requires k <= n
    ensures Commands(n)[..k] == Commands(k)
  {
  }
}
