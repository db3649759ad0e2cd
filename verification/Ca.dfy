/** `SSHCertificateManager`: key rotation, revocation and serials, with a failure or crash after any effect. */
module Ca {
  import opened Wrappers

  type Id = string

  /** A key pair is known by its fingerprint; a certificate by the fingerprint of the key it certifies. */
  type Print = nat

  /** The canonical files of a platform. */
  datatype Files = Files(key: Option<Print>, pub: Option<Print>, cert: Option<Print>)

  const NO_FILES := Files(None, None, None)

  datatype Revocation = Revocation(id: Id, fp: Print)

  /** What the rotation does next. */
  datatype Stage = Keygen | Serial | Sign | RenameKey | RenamePub | RenameCert | Append

  /** A rotation under way, with the files it started from. */
  datatype Rotation = Rotation(id: Id, oldPrint: Print, newPrint: Print, stage: Stage, before: map<Id, Files>)

  /** `counter` is `None` when the counter file is missing or holds no positive number. `served` are the
      serials handed out, `manual` the fingerprints revoked by hand, `next` the next new key. */
  datatype State = State(
    files: map<Id, Files>, revoked: seq<Revocation>, counter: Option<nat>, rotation: Option<Rotation>,
    served: seq<nat>, manual: set<Print>, next: Print)

  const EMPTY := State(map[], [], None, None, [], {}, 0)

  /** Outside a rotation the effects of `signPlatformCert` and `revokeKeys` come one at a time. */
  datatype Step =
    | MakeKey(id: Id)          // `signPlatformCert` makes the platform's first key
    | TakeSerial               // `nextSerial`: read, then write the successor, then hand out
    | LoseSerial               // the write is done, and then the process crashes or `chmod` fails
    | IssueCert(id: Id)        // the signed certificate takes its place
    | Revoke(id: Id)
    | StartRotation(id: Id)
    | Proceed                  // the rotation's next effect succeeds
    | Abandon                  // it fails, or the process crashes

  function FilesOf(s: State, id: Id): Files { if id in s.files then s.files[id] else NO_FILES }

  /** The next serial: a positive counter, or else 1. */
  function Current(s: State): nat { if s.counter.Some? && s.counter.value > 0 then s.counter.value else 1 }

  predicate Enabled(s: State, step: Step) {
    match step
    case MakeKey(id) => s.rotation.None? && FilesOf(s, id).key.None?
    case TakeSerial => s.rotation.None?
    case LoseSerial => s.rotation.None? || s.rotation.value.stage.Serial?
    case IssueCert(id) => s.rotation.None? && FilesOf(s, id).pub.Some?
    case Revoke(id) => s.rotation.None? && FilesOf(s, id).cert.Some?
    case StartRotation(id) => s.rotation.None? && FilesOf(s, id).cert.Some?
    case Proceed => s.rotation.Some?
    case Abandon => true
  }

  function Advance(s: State, r: Rotation): State {
    var f := FilesOf(s, r.id);
    match r.stage
    case Keygen => s.(next := s.next + 1, rotation := Some(r.(newPrint := s.next, stage := Serial)))
    case Serial => s.(counter := Some(Current(s) + 1), served := s.served + [Current(s)], rotation := Some(r.(stage := Sign)))
    case Sign => s.(rotation := Some(r.(stage := RenameKey)))
    case RenameKey => s.(files := s.files[r.id := f.(key := Some(r.newPrint))], rotation := Some(r.(stage := RenamePub)))
    case RenamePub => s.(files := s.files[r.id := f.(pub := Some(r.newPrint))], rotation := Some(r.(stage := RenameCert)))
    case RenameCert => s.(files := s.files[r.id := f.(cert := Some(r.newPrint))], rotation := Some(r.(stage := Append)))
    case Append => s.(revoked := s.revoked + [Revocation(r.id, r.oldPrint)], rotation := None)
  }

  function Next(s: State, step: Step): State
    requires Enabled(s, step)
  {
    match step
    case MakeKey(id) => s.(files := s.files[id := FilesOf(s, id).(key := Some(s.next), pub := Some(s.next))], next := s.next + 1)
    case TakeSerial => s.(counter := Some(Current(s) + 1), served := s.served + [Current(s)])
    case LoseSerial => s.(counter := Some(Current(s) + 1))
    case IssueCert(id) => s.(files := s.files[id := FilesOf(s, id).(cert := FilesOf(s, id).pub)])
    case Revoke(id) =>
      s.(revoked := s.revoked + [Revocation(id, FilesOf(s, id).cert.value)], manual := s.manual + {FilesOf(s, id).cert.value})
    case StartRotation(id) => s.(rotation := Some(Rotation(id, FilesOf(s, id).cert.value, 0, Keygen, s.files)))
    case Proceed => Advance(s, s.rotation.value)
    case Abandon => s.(rotation := None)
  }

  predicate Valid(s: State, steps: seq<Step>)
    decreases |steps|
  {
    steps == [] || (Enabled(s, steps[0]) && Valid(Next(s, steps[0]), steps[1..]))
  }

  function Run(s: State, steps: seq<Step>): State
    requires Valid(s, steps)
    decreases |steps|
  {
    if steps == [] then s else Run(Next(s, steps[0]), steps[1..])
  }

  predicate Listed(revoked: seq<Revocation>, fp: Print) { exists i :: 0 <= i < |revoked| && revoked[i].fp == fp }

  // ----- where fingerprints are -------------------------------------------

  /** A platform's public key or certificate is of this fingerprint. */
  predicate Shows(f: Files, fp: Print) { f.pub == Some(fp) || f.cert == Some(fp) }

  /** Fingerprints belong to one platform; one that is listed without having been revoked by hand is on none. */
  ghost predicate FilesOk(files: map<Id, Files>, revoked: seq<Revocation>, manual: set<Print>, next: Print) {
    && (forall id: Id, fp: Print :: id in files && Shows(files[id], fp) ==> fp < next)
    && (forall id: Id, other: Id, fp: Print :: id in files && other in files && Shows(files[id], fp) && Shows(files[other], fp) ==> id == other)
    && (forall id: Id, fp: Print :: id in files && Shows(files[id], fp) && Listed(revoked, fp) ==> fp in manual)
    && (forall fp: Print :: Listed(revoked, fp) ==> fp < next)
  }

  predicate Phase2(stage: Stage) { stage.Keygen? || stage.Serial? || stage.Sign? }

  ghost predicate RotationOk(s: State, r: Rotation) {
    && r.id in s.files && r.oldPrint < s.next
    && (Phase2(r.stage) ==> s.files == r.before)
    && (Phase2(r.stage) || r.stage.RenameKey? || r.stage.RenamePub? || r.stage.RenameCert? ==> s.files[r.id].cert == Some(r.oldPrint))
    && (!r.stage.Keygen? ==> r.newPrint < s.next && r.newPrint != r.oldPrint && !Listed(s.revoked, r.newPrint))
    && (!r.stage.Keygen? ==> forall id :: id in s.files && Shows(s.files[id], r.newPrint) ==> id == r.id)
    && (!r.stage.Keygen? ==> forall id :: id in s.files && Shows(s.files[id], r.oldPrint) ==> id == r.id)
    && (r.stage.RenameCert? || r.stage.Append? ==> s.files[r.id].pub == Some(r.newPrint))
    && (r.stage.Append? ==> s.files[r.id].cert == Some(r.newPrint))
  }

  ghost predicate Inv(s: State) {
    FilesOk(s.files, s.revoked, s.manual, s.next) && (s.rotation.Some? ==> RotationOk(s, s.rotation.value))
  }

  lemma {:induction false} ListedSnoc(revoked: seq<Revocation>, r: Revocation, fp: Print)
    ensures Listed(revoked + [r], fp) <==> Listed(revoked, fp) || r.fp == fp
  {
    if Listed(revoked, fp) {
      var i :| 0 <= i < |revoked| && revoked[i].fp == fp;
      assert (revoked + [r])[i].fp == fp;
    }
    assert (revoked + [r])[|revoked|] == r;
  }

  /** One platform's files change, showing nothing but what they showed and, possibly, one unlisted new fingerprint. */
  lemma {:induction false} PutKeepsFilesOk(files: map<Id, Files>, revoked: seq<Revocation>, manual: set<Print>, next: Print,
                                           id: Id, f: Files, added: Print, next1: Print)
    requires FilesOk(files, revoked, manual, next) && next <= next1 && added < next1 && !Listed(revoked, added)
    requires forall other: Id :: other in files && Shows(files[other], added) ==> other == id
    requires forall fp: Print :: Shows(f, fp) ==> fp == added || (id in files && Shows(files[id], fp))
    ensures FilesOk(files[id := f], revoked, manual, next1)
  {
    var t := files[id := f];
    forall i: Id, fp: Print | i in t && Shows(t[i], fp) ensures fp < next1 && (Listed(revoked, fp) ==> fp in manual) {
      if i != id { assert Shows(files[i], fp); }
    }
    forall i: Id, j: Id, fp: Print | i in t && j in t && Shows(t[i], fp) && Shows(t[j], fp) ensures i == j {
      if i != id { assert Shows(files[i], fp); }
      if j != id { assert Shows(files[j], fp); }
    }
  }

  lemma {:induction false} MakeKeyKeepsInv(s: State, id: Id)
    requires Inv(s) && Enabled(s, MakeKey(id))
    ensures Inv(Next(s, MakeKey(id)))
  {
    PutKeepsFilesOk(s.files, s.revoked, s.manual, s.next, id,
                    FilesOf(s, id).(key := Some(s.next), pub := Some(s.next)), s.next, s.next + 1);
  }

  lemma {:induction false} IssueKeepsInv(s: State, id: Id)
    requires Inv(s) && Enabled(s, IssueCert(id))
    ensures Inv(Next(s, IssueCert(id)))
  {
    var f := FilesOf(s, id).(cert := FilesOf(s, id).pub);
    var t := s.files[id := f];
    assert forall fp: Print :: Shows(f, fp) ==> Shows(s.files[id], fp);
    forall i: Id, fp: Print | i in t && Shows(t[i], fp) ensures Shows(s.files[i], fp) { }
  }

  lemma {:induction false} SimpleKeepsInv(s: State, step: Step)
    requires Inv(s) && Enabled(s, step) && (step.TakeSerial? || step.LoseSerial? || step.StartRotation? || step.Abandon?)
    ensures Inv(Next(s, step))
  {
    if step.StartRotation? { assert Shows(s.files[step.id], FilesOf(s, step.id).cert.value); }
  }

  lemma {:induction false} RevokeKeepsInv(s: State, id: Id)
    requires Inv(s) && Enabled(s, Revoke(id))
    ensures Inv(Next(s, Revoke(id)))
  {
    var r := Revocation(id, FilesOf(s, id).cert.value);
    assert Shows(s.files[id], r.fp);
    forall fp: Print | Listed(s.revoked + [r], fp) ensures Listed(s.revoked, fp) || fp == r.fp {
      ListedSnoc(s.revoked, r, fp);
    }
  }

  lemma {:induction false} PhaseTwoKeepsInv(s: State)
    requires Inv(s) && s.rotation.Some? && Phase2(s.rotation.value.stage)
    ensures Inv(Next(s, Proceed))
  {
    var r := s.rotation.value;
    assert Shows(s.files[r.id], r.oldPrint);
  }

  lemma {:induction false} RenameKeepsInv(s: State)
    requires Inv(s) && s.rotation.Some? && !Phase2(s.rotation.value.stage) && !s.rotation.value.stage.Append?
    ensures Inv(Next(s, Proceed))
  {
    var r := s.rotation.value;
    var t := Next(s, Proceed);
    PutKeepsFilesOk(s.files, s.revoked, s.manual, s.next, r.id, t.files[r.id], r.newPrint, s.next);
    forall i: Id, fp: Print | i in t.files && i != r.id && Shows(t.files[i], fp) ensures Shows(s.files[i], fp) { }
  }

  lemma {:induction false} AppendKeepsInv(s: State)
    requires Inv(s) && s.rotation.Some? && s.rotation.value.stage.Append?
    ensures Inv(Next(s, Proceed))
  {
    var r := s.rotation.value;
    var entry := Revocation(r.id, r.oldPrint);
    forall fp: Print | Listed(s.revoked + [entry], fp) ensures Listed(s.revoked, fp) || fp == r.oldPrint {
      ListedSnoc(s.revoked, entry, fp);
    }
  }

  lemma {:induction false} StepKeepsInv(s: State, step: Step)
    requires Inv(s) && Enabled(s, step)
    ensures Inv(Next(s, step))
  {
    match step {
      case MakeKey(id) => MakeKeyKeepsInv(s, id);
      case IssueCert(id) => IssueKeepsInv(s, id);
      case Revoke(id) => RevokeKeepsInv(s, id);
      case Proceed =>
        if Phase2(s.rotation.value.stage) { PhaseTwoKeepsInv(s); }
        else if s.rotation.value.stage.Append? { AppendKeepsInv(s); }
        else { RenameKeepsInv(s); }
      case _ => SimpleKeepsInv(s, step);
    }
  }

  lemma {:induction false} RunKeepsInv(s: State, steps: seq<Step>)
    requires Inv(s) && Valid(s, steps)
    ensures Inv(Run(s, steps)) && s.revoked <= Run(s, steps).revoked && s.manual <= Run(s, steps).manual
    decreases |steps|
  {
    if steps != [] {
      StepKeepsInv(s, steps[0]);
      RunKeepsInv(Next(s, steps[0]), steps[1..]);
    }
  }

  /** At every failure and crash point of every run: the certificate in a platform's canonical place is not in
      the revocation list unless its fingerprint was revoked by hand. */
  lemma {:induction false} CanonicalIsNotRevoked(steps: seq<Step>, id: Id)
    requires Valid(EMPTY, steps)
    ensures var s := Run(EMPTY, steps);
            FilesOf(s, id).cert.Some? && Listed(s.revoked, FilesOf(s, id).cert.value) ==> FilesOf(s, id).cert.value in s.manual
  {
    RunKeepsInv(EMPTY, steps);
    var s := Run(EMPTY, steps);
    if FilesOf(s, id).cert.Some? { assert Shows(s.files[id], FilesOf(s, id).cert.value); }
  }

  /** The revocation list only grows. */
  lemma {:induction false} RevocationsOnlyGrow(first: seq<Step>, more: seq<Step>)
    requires Valid(EMPTY, first) && Valid(Run(EMPTY, first), more)
    ensures Run(EMPTY, first).revoked <= Run(Run(EMPTY, first), more).revoked
  {
    RunKeepsInv(EMPTY, first);
    RunKeepsInv(Run(EMPTY, first), more);
  }

  /** As long as phase 2 is not over, the canonical files of every platform are what they were when the rotation started. */
  lemma {:induction false} PhaseTwoTouchesNothing(steps: seq<Step>)
    requires Valid(EMPTY, steps)
    ensures var s := Run(EMPTY, steps);
            s.rotation.Some? && Phase2(s.rotation.value.stage) ==> Next(s, Abandon).files == s.rotation.value.before
  {
    RunKeepsInv(EMPTY, steps);
  }

  /** What a rotation leaves behind when it stops after `n` effects: a new fingerprint is canonical after all
      seven, and the old one listed; and it leaves an old certificate that is neither canonical nor listed
      exactly when it stops between the last rename and the append. */
  lemma {:induction false} InterruptedRotation(s: State, id: Id, n: nat)
    requires Inv(s) && Enabled(s, StartRotation(id)) && n <= 7
    requires !Listed(s.revoked, FilesOf(s, id).cert.value)
    ensures var oldFp := FilesOf(s, id).cert.value;
            var t := Rotated(s, id, n);
            && (n == 7 ==> FilesOf(t, id) == Files(Some(s.next), Some(s.next), Some(s.next)) && Listed(t.revoked, oldFp)
                             && !Listed(t.revoked, s.next) && t.rotation.None?)
            && (n <= 3 ==> t.files == s.files && t.revoked == s.revoked)
            && (FilesOf(t, id).cert != Some(oldFp) && !Listed(t.revoked, oldFp) <==> n == 6)
  {
    var s0 := Next(s, StartRotation(id));
    StepKeepsInv(s, StartRotation(id));
    var s1 := Next(s0, Proceed);
    var s2 := Next(s1, Proceed);
    var s3 := Next(s2, Proceed);
    assert s3.files == s.files && s3.revoked == s.revoked && s3.rotation.value.stage == RenameKey;
    assert s3.rotation.value.newPrint == s.next && s3.rotation.value.oldPrint == FilesOf(s, id).cert.value;
    assert Shows(s.files[id], FilesOf(s, id).cert.value);
    assert Rotated(s, id, 0) == s0;
    assert Rotated(s, id, 1) == s1;
    assert Rotated(s, id, 2) == s2;
    assert Rotated(s, id, 3) == s3;
    Renames(s3, s, id, n);
  }

  /** The state after the first `n` effects of a rotation. */
  function Rotated(s: State, id: Id, n: nat): (t: State)
    requires Enabled(s, StartRotation(id))
    ensures n == 0 ==> t.rotation.Some?
  {
    if n == 0 then Next(s, StartRotation(id))
    else
      var t := Rotated(s, id, n - 1);
      if t.rotation.Some? then Next(t, Proceed) else t
  }

  lemma {:induction false} Renames(s3: State, s: State, id: Id, n: nat)
    requires Enabled(s, StartRotation(id)) && s3 == Rotated(s, id, 3) && s3.files == s.files && s3.revoked == s.revoked
    requires s3.rotation.Some? && s3.rotation.value.id == id && s3.rotation.value.stage == RenameKey
    requires s3.rotation.value.newPrint == s.next && s3.rotation.value.oldPrint == FilesOf(s, id).cert.value < s.next
    requires forall fp: Print :: Listed(s.revoked, fp) ==> fp < s.next
    requires !Listed(s.revoked, FilesOf(s, id).cert.value) && n <= 7
    ensures var f, k, t := FilesOf(s, id), Some(s.next), Rotated(s, id, n);
            && (n == 4 ==> FilesOf(t, id).cert == f.cert && t.revoked == s.revoked)
            && (n == 5 ==> FilesOf(t, id).cert == f.cert && t.revoked == s.revoked)
            && (n == 6 ==> FilesOf(t, id).cert == k && t.revoked == s.revoked)
            && (n == 7 ==> FilesOf(t, id) == Files(k, k, k) && t.rotation.None? && Listed(t.revoked, f.cert.value) && !Listed(t.revoked, s.next))
  {
    var s4 := Next(s3, Proceed);
    var s5 := Next(s4, Proceed);
    var s6 := Next(s5, Proceed);
    var s7 := Next(s6, Proceed);
    assert s4 == Rotated(s, id, 4);
    assert s5 == Rotated(s, id, 5);
    assert s6 == Rotated(s, id, 6);
    assert s7 == Rotated(s, id, 7);
    ListedSnoc(s.revoked, Revocation(id, FilesOf(s, id).cert.value), FilesOf(s, id).cert.value);
    ListedSnoc(s.revoked, Revocation(id, FilesOf(s, id).cert.value), s.next);
  }

  // ----- serials ----------------------------------------------------------

  ghost predicate SerialsOk(s: State) {
    && (forall i, j :: 0 <= i < j < |s.served| ==> s.served[i] < s.served[j])
    && (forall i :: 0 <= i < |s.served| ==> s.served[i] < Current(s))
    && Current(s) >= 1
  }

  lemma {:induction false} RunKeepsSerials(s: State, steps: seq<Step>)
    requires SerialsOk(s) && Valid(s, steps)
    ensures SerialsOk(Run(s, steps))
    decreases |steps|
  {
    if steps != [] {
      StepKeepsSerials(s, steps[0]);
      RunKeepsSerials(Next(s, steps[0]), steps[1..]);
    }
  }

  lemma {:induction false} StepKeepsSerials(s: State, step: Step)
    requires SerialsOk(s) && Enabled(s, step)
    ensures SerialsOk(Next(s, step))
  {
    var t := Next(s, step);
    assert t.served == s.served || t.served == s.served + [Current(s)];
  }

  /** Serials handed out over any run, with crashes and failures, strictly increase. */
  lemma {:induction false} SerialsIncrease(steps: seq<Step>)
    requires Valid(EMPTY, steps)
    ensures var served := Run(EMPTY, steps).served;
            forall i, j :: 0 <= i < j < |served| ==> served[i] < served[j]
  {
    RunKeepsSerials(EMPTY, steps);
  }

  // ----- the class --------------------------------------------------------

  /** `NotListed`: `chmod` or the append to the revocation list failed. `ListedThenFailed`: the line is written, and then
      `chmod`, reading the fingerprint or an audit append failed. */
  datatype CaError = NoCert | NoCa | PhaseTwoFailed | RotationPartial | NotListed | ListedThenFailed

  lemma {:induction false} RunAppend(s: State, steps: seq<Step>, step: Step)
    requires Valid(s, steps) && Enabled(Run(s, steps), step)
    ensures Valid(s, steps + [step]) && Run(s, steps + [step]) == Next(Run(s, steps), step)
    decreases |steps|
  {
    if steps == [] {
      assert ([step])[1..] == [];
    } else {
      RunAppend(Next(s, steps[0]), steps[1..], step);
      assert (steps + [step])[1..] == steps[1..] + [step];
    }
  }

  /** The state in which a rotation ends whose effect `failAt` fails; effect 7 and none come after the last change. */
  function Stopped(s: State, id: Id, failAt: nat, lost: bool): State
    requires Enabled(s, StartRotation(id))
  {
    if failAt == 1 && lost then
      assert Rotated(s, id, 1) == Next(Rotated(s, id, 0), Proceed);
      Next(Rotated(s, id, 1), LoseSerial).(rotation := None)
    else Rotated(s, id, if failAt <= 7 then failAt else 7).(rotation := None)
  }

  function Outcome(failAt: nat, oldPrint: Print, newPrint: Print): Result<(Print, Print), CaError> {
    if failAt <= 2 then Failure(PhaseTwoFailed)
    else if failAt <= 5 then Failure(RotationPartial)
    else if failAt == 6 then Failure(NotListed)
    else if failAt == 7 then Failure(ListedThenFailed)
    else Success((oldPrint, newPrint))
  }

  class CertificateManager {
    var files: map<Id, Files>
    var revoked: seq<Revocation>
    var counter: Option<nat>
    var next: Print
    const hasCa: bool
    ghost var rotation: Option<Rotation>
    ghost var served: seq<nat>
    ghost var manual: set<Print>

    ghost function Snapshot(): State
      reads this
    {
      State(files, revoked, counter, rotation, served, manual, next)
    }

    constructor (hasCa: bool)
      ensures Snapshot() == EMPTY && Inv(Snapshot()) && this.hasCa == hasCa
    {
      this.hasCa := hasCa;
      files, revoked, counter, next := map[], [], None, 0;
      rotation, served, manual := None, [], {};
    }

    /** `nextSerial`, outside a rotation; `None` when it throws because the counter could not be written or its
        mode could not be set. A serial it hands out is greater than every one before. */
    method NextSerial(written: bool, modeSet: bool) returns (serial: Option<nat>)
      requires rotation.None?
      modifies this
      ensures serial == if !written || !modeSet then None
                        else if old(counter).Some? && old(counter).value > 0 then old(counter) else Some(1)
      ensures written ==> counter == Some((if old(counter).Some? && old(counter).value > 0 then old(counter).value else 1) + 1)
      ensures Snapshot() == if serial.Some? then Next(old(Snapshot()), TakeSerial)
                            else if written then Next(old(Snapshot()), LoseSerial) else old(Snapshot())
      ensures old(SerialsOk(Snapshot())) ==>
                SerialsOk(Snapshot()) && (serial.Some? ==> forall i :: 0 <= i < |old(served)| ==> old(served)[i] < serial.value)
    {
      var current := 1;
      if counter.Some? && counter.value > 0 { current := counter.value; }
      if !written { return None; }
      counter := Some(current + 1);
      if !modeSet { return None; }
      served := served + [current];
      return Some(current);
    }

    /** `revokeKeys`; `listed` says whether the line is written, `finished` whether the rest succeeds too. The
        fingerprint is listed also when the call then throws. */
    method RevokeKeys(id: Id, listed: bool, finished: bool) returns (r: Result<Print, CaError>)
      requires Inv(Snapshot()) && rotation.None?
      modifies this
      ensures Inv(Snapshot())
      ensures r == if FilesOf(old(Snapshot()), id).cert.None? then Failure(NoCert)
                   else if !listed then Failure(NotListed)
                   else if !finished then Failure(ListedThenFailed) else Success(FilesOf(old(Snapshot()), id).cert.value)
      ensures r.Success? ==> revoked == old(revoked) + [Revocation(id, r.value)] && files == old(files) && counter == old(counter)
      ensures Snapshot() == if r.Success? || r == Failure(ListedThenFailed) then Next(old(Snapshot()), Revoke(id)) else old(Snapshot())
    {
      if id !in files || files[id].cert.None? { return Failure(NoCert); }
      if !listed { return Failure(NotListed); }
      StepKeepsInv(Snapshot(), Revoke(id));
      var fp := files[id].cert.value;
      revoked := revoked + [Revocation(id, fp)];
      manual := manual + {fp};
      if !finished { return Failure(ListedThenFailed); }
      return Success(fp);
    }

    /** `rotateKey` when its effect number `failAt` (counting from 0) fails, or none does: the new key, the serial, the
        certificate, three renames, the line of the revocation list, and what follows it. `lost` says whether a
        failing serial has already moved the counter. */
    method RotateKey(id: Id, failAt: nat, lost: bool) returns (r: Result<(Print, Print), CaError>)
      requires Inv(Snapshot()) && rotation.None?
      modifies this
      ensures Inv(Snapshot()) && rotation.None?
      ensures old(SerialsOk(Snapshot())) ==> SerialsOk(Snapshot())
      ensures FilesOf(old(Snapshot()), id).cert.None? ==> r == Failure(NoCert) && Snapshot() == old(Snapshot())
      ensures FilesOf(old(Snapshot()), id).cert.Some? && !hasCa ==> r == Failure(NoCa) && Snapshot() == old(Snapshot())
      ensures FilesOf(old(Snapshot()), id).cert.Some? && hasCa ==>
                && Snapshot() == Stopped(old(Snapshot()), id, failAt, lost)
                && r == Outcome(failAt, FilesOf(old(Snapshot()), id).cert.value, old(next))
    {
      if id !in files || files[id].cert.None? { return Failure(NoCert); }
      if !hasCa { return Failure(NoCa); }
      StoppedKeepsInv(Snapshot(), id, failAt, lost);
      StoppedKeepsSerials(Snapshot(), id, failAt, lost);
      r := Rotate(id, failAt, lost);
    }

    method Rotate(id: Id, failAt: nat, lost: bool) returns (r: Result<(Print, Print), CaError>)
      requires rotation.None? && id in files && files[id].cert.Some?
      modifies this
      ensures Snapshot() == Stopped(old(Snapshot()), id, failAt, lost)
      ensures r == Outcome(failAt, old(files)[id].cert.value, old(next))
    {
      ghost var s0 := Snapshot();
      var oldPrint := files[id].cert.value;
      assert FilesOf(s0, id) == files[id];
      rotation := Some(Rotation(id, oldPrint, 0, Keygen, files));
      var newPrint := MakePending(s0, id, failAt, lost);
      if failAt <= 2 { return Failure(PhaseTwoFailed); }
      Install(s0, id, oldPrint, newPrint, failAt);
      if failAt <= 5 { return Failure(RotationPartial); }
      if failAt == 6 { return Failure(NotListed); }
      if failAt == 7 { return Failure(ListedThenFailed); }
      return Success((oldPrint, newPrint));
    }

    /** Phases 1 and 2: a pending key, a serial, a pending certificate. */
    method MakePending(ghost s0: State, id: Id, failAt: nat, lost: bool) returns (newPrint: Print)
      requires Enabled(s0, StartRotation(id)) && Snapshot() == Next(s0, StartRotation(id))
      modifies this
      ensures newPrint == s0.next
      ensures failAt <= 2 ==> Snapshot() == Stopped(s0, id, failAt, lost)
      ensures failAt > 2 ==>
                Snapshot() == Rotated(s0, id, 3) && id in files && rotation == Some(Rotation(id, FilesOf(s0, id).cert.value, s0.next, RenameKey, s0.files))
    {
      newPrint := next;
      if failAt == 0 { rotation := None; return; }
      next := next + 1;
      rotation := Some(rotation.value.(newPrint := newPrint, stage := Serial));
      assert Snapshot() == Rotated(s0, id, 1);
      var serial := if counter.Some? && counter.value > 0 then counter.value else 1;
      if failAt == 1 {
        if lost { counter := Some(serial + 1); }
        rotation := None;
        return;
      }
      counter, served := Some(serial + 1), served + [serial];
      rotation := Some(rotation.value.(stage := Sign));
      assert Snapshot() == Rotated(s0, id, 2);
      if failAt == 2 { rotation := None; return; }
      rotation := Some(rotation.value.(stage := RenameKey));
    }

    /** Phases 3 and 4: three renames, then the append. */
    method Install(ghost s0: State, id: Id, oldPrint: Print, newPrint: Print, failAt: nat)
      requires Enabled(s0, StartRotation(id)) && Snapshot() == Rotated(s0, id, 3) && failAt >= 3
      requires rotation == Some(Rotation(id, oldPrint, newPrint, RenameKey, s0.files)) && id in files
      modifies this
      ensures Snapshot() == Stopped(s0, id, failAt, false)
    {
      Rename(s0, id, oldPrint, newPrint, failAt);
      if failAt <= 5 { return; }
      if failAt == 6 { rotation := None; return; }
      revoked := revoked + [Revocation(id, oldPrint)];
      rotation := None;
      assert Snapshot() == Rotated(s0, id, 7);
    }

    method Rename(ghost s0: State, id: Id, oldPrint: Print, newPrint: Print, failAt: nat)
      requires Enabled(s0, StartRotation(id)) && Snapshot() == Rotated(s0, id, 3) && failAt >= 3
      requires rotation == Some(Rotation(id, oldPrint, newPrint, RenameKey, s0.files)) && id in files
      modifies this
      ensures failAt <= 5 ==> Snapshot() == Rotated(s0, id, failAt).(rotation := None)
      ensures failAt > 5 ==> Snapshot() == Rotated(s0, id, 6) && rotation == Some(Rotation(id, oldPrint, newPrint, Append, s0.files))
    {
      if failAt == 3 { rotation := None; return; }
      files := files[id := files[id].(key := Some(newPrint))];
      rotation := Some(rotation.value.(stage := RenamePub));
      assert Snapshot() == Rotated(s0, id, 4);
      if failAt == 4 { rotation := None; return; }
      files := files[id := files[id].(pub := Some(newPrint))];
      rotation := Some(rotation.value.(stage := RenameCert));
      assert Snapshot() == Rotated(s0, id, 5);
      if failAt == 5 { rotation := None; return; }
      files := files[id := files[id].(cert := Some(newPrint))];
      rotation := Some(rotation.value.(stage := Append));
    }
  }

  lemma {:induction false} StoppedKeepsInv(s: State, id: Id, failAt: nat, lost: bool)
    requires Inv(s) && Enabled(s, StartRotation(id))
    ensures Inv(Stopped(s, id, failAt, lost))
  {
    var t := Rotated(s, id, if failAt <= 7 then failAt else 7);
    RotatedInv(s, id, if failAt <= 7 then failAt else 7);
    if failAt == 1 && lost {
      assert t == Rotated(s, id, 1) == Next(Rotated(s, id, 0), Proceed);
      StepKeepsInv(t, LoseSerial);
      StepKeepsInv(Next(t, LoseSerial), Abandon);
    } else {
      StepKeepsInv(t, Abandon);
    }
  }

  lemma {:induction false} StoppedKeepsSerials(s: State, id: Id, failAt: nat, lost: bool)
    requires Enabled(s, StartRotation(id))
    ensures SerialsOk(s) ==> SerialsOk(Stopped(s, id, failAt, lost))
  {
    RotatedKeepsSerials(s, id, if failAt <= 7 then failAt else 7);
    if failAt == 1 && lost && SerialsOk(s) {
      assert SerialsOk(Rotated(s, id, 1));
      StepKeepsSerials(Rotated(s, id, 1), LoseSerial);
    }
  }

  lemma {:induction false} RotatedKeepsSerials(s: State, id: Id, n: nat)
    requires Enabled(s, StartRotation(id))
    ensures SerialsOk(s) ==> SerialsOk(Rotated(s, id, n).(rotation := None))
  {
    if n > 0 {
      RotatedKeepsSerials(s, id, n - 1);
      var t := Rotated(s, id, n - 1);
      if t.rotation.Some? && SerialsOk(s) {
        assert SerialsOk(t);
        StepKeepsSerials(t, Proceed);
      }
    }
  }

  lemma {:induction false} RotatedInv(s: State, id: Id, n: nat)
    requires Inv(s) && Enabled(s, StartRotation(id))
    ensures Inv(Rotated(s, id, n))
  {
    if n == 0 {
      StepKeepsInv(s, StartRotation(id));
    } else {
      RotatedInv(s, id, n - 1);
      if Rotated(s, id, n - 1).rotation.Some? { StepKeepsInv(Rotated(s, id, n - 1), Proceed); }
    }
  }
}
