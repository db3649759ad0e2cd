/** `AuditWriter`: appends under the promise mutex, failures, crashes and restarts. */
module AuditWriter {
  import opened Wrappers
  import opened Texts
  import opened Json
  import opened CanonicalJson
  import opened AuditChain
  import opened AuditRecovery
  import Utf8

  /** What one `append` call is given. */
  datatype Request = Request(actor: Text, event: Text, payload: Value, platform: Value)

  /** The payload is a JavaScript object, though perhaps not a serializable one. */
  predicate ValidRequest(r: Request) {
    WellFormed(r.payload) && r.payload.Obj? && (r.platform.Null? || r.platform.Str?)
  }

  /** Where the call that holds the mutex stands between two awaits. */
  datatype Phase = Idle | Held(req: Request) | Ready(req: Request) | Keyed(e: Entry)

  /** Disk (`file`), memory (`cache`, `queue`, `phase`), and the entries ever appended (`log`). */
  datatype State = State(
    file: Option<seq<Utf8.Byte>>, cache: Option<Cache>, queue: seq<Request>, phase: Phase, log: seq<Entry>)

  datatype Step =
    | Call(req: Request)
    | Grant
    | RecoverState
    | KeyFails
    | Compute(timestamp: Text)
    | Write(ok: bool)
    | Crash

  /** The entry that follows state `c`. */
  function EntryFor(mac: Text -> Text, c: Cache, r: Request, timestamp: Text): Entry {
    var e := Entry(r.actor, r.event, r.payload, r.platform, c.seqNo + 1, timestamp, []);
    e.(hmac := mac(c.hmac + Canonical(Signed(e))))
  }

  /** The entry records what the call was given. */
  predicate Carries(e: Entry, r: Request) {
    e.actor == r.actor && e.event == r.event && e.payload == r.payload && e.platform == r.platform
  }

  lemma EntryCarries(mac: Text -> Text, c: Cache, r: Request, timestamp: Text)
    ensures var e := EntryFor(mac, c, r, timestamp);
            Carries(e, r) && e.timestamp == timestamp && e.seqNo == c.seqNo + 1 && e.hmac == mac(c.hmac + Canonical(Signed(e)))
  {
  }

  function Appended(file: Option<seq<Utf8.Byte>>, e: Entry): Option<seq<Utf8.Byte>> {
    Some((if file.None? then [] else file.value) + (LineBytes(e) + [NEWLINE]))
  }

  /** The last line is on disk before the cache moves; a failure releases the mutex and changes nothing else. */
  function Next(mac: Text -> Text, parse: Text -> Option<Value>, s: State, step: Step): State {
    match step
    case Call(req) => s.(queue := s.queue + [req])
    case Grant =>
      if s.phase.Idle? && s.queue != [] then s.(queue := s.queue[1..], phase := Held(s.queue[0])) else s
    case RecoverState =>
      if !s.phase.Held? then s
      else if s.cache.Some? then s.(phase := Ready(s.phase.req))
      else
        var c := Recover(parse, s.file);
        if c.Failure? then s.(phase := Idle) else s.(cache := Some(c.value), phase := Ready(s.phase.req))
    case KeyFails => if s.phase.Ready? then s.(phase := Idle) else s
    case Compute(timestamp) =>
      if !s.phase.Ready? || s.cache.None? then s
      else if !Serializable(s.phase.req.payload) then s.(phase := Idle)
      else s.(phase := Keyed(EntryFor(mac, s.cache.value, s.phase.req, timestamp)))
    case Write(ok) =>
      if !s.phase.Keyed? then s
      else if !ok then s.(phase := Idle)
      else
        var e := s.phase.e;
        s.(file := Appended(s.file, e), cache := Some(Cache(e.hmac, e.seqNo)), phase := Idle, log := s.log + [e])
    case Crash => s.(cache := None, queue := [], phase := Idle)
  }

  function Run(mac: Text -> Text, parse: Text -> Option<Value>, s: State, steps: seq<Step>): State
    decreases |steps|
  {
    if steps == [] then s else Run(mac, parse, Next(mac, parse, s, steps[0]), steps[1..])
  }

  // ----- the invariant ----------------------------------------------------

  ghost predicate FileHolds(file: Option<seq<Utf8.Byte>>, log: seq<Entry>) {
    if file.None? then log == [] else file.value == FileBytes(log)
  }

  ghost predicate ValidPhase(mac: Text -> Text, s: State) {
    match s.phase
    case Idle => true
    case Held(req) => ValidRequest(req)
    case Ready(req) => ValidRequest(req) && s.cache.Some?
    case Keyed(e) =>
      && s.cache == Some(FoldState(s.log)) && ValidEntry(e) && e.seqNo == |s.log| + 1
      && e.hmac == mac(FoldState(s.log).hmac + Canonical(Signed(e)))
  }

  /** The file is a verified chain, and the cache, when present, is the state the chain ends in. */
  ghost predicate Inv(mac: Text -> Text, s: State) {
    && WriterChain(mac, s.log, GENESIS, 0)
    && FileHolds(s.file, s.log)
    && (s.cache.None? || s.cache == Some(FoldState(s.log)))
    && (forall i :: 0 <= i < |s.queue| ==> ValidRequest(s.queue[i]))
    && ValidPhase(mac, s)
  }

  predicate ValidStep(step: Step) { step.Call? ==> ValidRequest(step.req) }

  lemma {:induction false} ChainAppend(mac: Text -> Text, log: seq<Entry>, prev: Text, base: nat, e: Entry)
    requires WriterChain(mac, log, prev, base) && ValidEntry(e) && e.seqNo == base + |log| + 1
    requires e.hmac == mac((if log == [] then prev else log[|log| - 1].hmac) + Canonical(Signed(e)))
    ensures WriterChain(mac, log + [e], prev, base)
    decreases |log|
  {
    if log == [] {
      assert (log + [e])[1..] == [];
    } else {
      ChainAppend(mac, log[1..], log[0].hmac, base + 1, e);
      assert (log + [e])[1..] == log[1..] + [e];
    }
  }

  lemma {:induction false} EntryForIsValid(mac: Text -> Text, c: Cache, r: Request, timestamp: Text)
    requires ValidRequest(r) && Serializable(r.payload)
    ensures var e := EntryFor(mac, c, r, timestamp);
            ValidEntry(e) && e.seqNo == c.seqNo + 1 && e.hmac == mac(c.hmac + Canonical(Signed(e)))
  {
    var e := EntryFor(mac, c, r, timestamp);
    assert Signed(e) == Signed(e.(hmac := []));
  }

  lemma {:induction false} WriteKeepsFile(file: Option<seq<Utf8.Byte>>, log: seq<Entry>, e: Entry)
    requires FileHolds(file, log) && ValidEntry(e) && forall i :: 0 <= i < |log| ==> ValidEntry(log[i])
    ensures FileHolds(Appended(file, e), log + [e])
  {
    AppendBytes(log, e);
    if file.None? {
      assert FileText(log) == [];
    }
  }

  lemma {:induction false} WriteKeepsChain(mac: Text -> Text, log: seq<Entry>, e: Entry)
    requires WriterChain(mac, log, GENESIS, 0) && ValidEntry(e) && e.seqNo == |log| + 1
    requires e.hmac == mac(FoldState(log).hmac + Canonical(Signed(e)))
    ensures WriterChain(mac, log + [e], GENESIS, 0)
    ensures FoldState(log + [e]) == Cache(e.hmac, e.seqNo)
    ensures forall i :: 0 <= i < |log| ==> ValidEntry(log[i])
  {
    WriterChainIsValid(mac, log, GENESIS, 0);
    ChainAppend(mac, log, GENESIS, 0, e);
  }

  lemma {:induction false} WriteKeepsInv(mac: Text -> Text, parse: Text -> Option<Value>, s: State)
    requires Inv(mac, s) && s.phase.Keyed?
    ensures Inv(mac, Next(mac, parse, s, Write(true)))
  {
    WrittenKeepsInv(mac, s, s.phase.e);
  }

  lemma {:induction false} WrittenKeepsInv(mac: Text -> Text, s: State, e: Entry)
    requires Inv(mac, s) && s.phase == Keyed(e)
    ensures Inv(mac, s.(file := Appended(s.file, e), cache := Some(Cache(e.hmac, e.seqNo)), phase := Idle, log := s.log + [e]))
  {
    WriteKeepsChain(mac, s.log, e);
    WriteKeepsFile(s.file, s.log, e);
  }

  lemma {:induction false} RecoverKeepsInv(js: Value -> bool, mac: Text -> Text, parse: Text -> Option<Value>, s: State)
    requires FaithfulParser(js, parse) && Inv(mac, s) && Recorded(js, s.log)
    ensures Inv(mac, Next(mac, parse, s, RecoverState))
  {
    if s.phase.Held? && s.cache.None? && s.file.Some? {
      RecoverIffLastLineFits(js, mac, parse, s.log);
    }
  }

  lemma {:induction false} StepKeepsInv(js: Value -> bool, mac: Text -> Text, parse: Text -> Option<Value>, s: State, step: Step)
    requires FaithfulParser(js, parse) && Inv(mac, s) && Recorded(js, s.log) && ValidStep(step)
    ensures Inv(mac, Next(mac, parse, s, step))
    ensures s.log <= Next(mac, parse, s, step).log
  {
    match step {
      case RecoverState => RecoverKeepsInv(js, mac, parse, s);
      case Compute(timestamp) => ComputeKeepsInv(mac, parse, s, timestamp);
      case _ => OtherStepKeepsInv(mac, parse, s, step);
    }
  }

  lemma {:induction false} OtherStepKeepsInv(mac: Text -> Text, parse: Text -> Option<Value>, s: State, step: Step)
    requires Inv(mac, s) && ValidStep(step) && !step.RecoverState? && !step.Compute?
    ensures Inv(mac, Next(mac, parse, s, step))
  {
    if step == Write(true) && s.phase.Keyed? { WriteKeepsInv(mac, parse, s); }
  }

  lemma {:induction false} ComputeKeepsInv(mac: Text -> Text, parse: Text -> Option<Value>, s: State, timestamp: Text)
    requires Inv(mac, s)
    ensures Inv(mac, Next(mac, parse, s, Compute(timestamp)))
  {
    if s.phase.Ready? && Serializable(s.phase.req.payload) {
      EntryForIsValid(mac, s.cache.value, s.phase.req, timestamp);
    }
  }

  /** Everything recorded or about to be is a value as JavaScript holds it. */
  ghost predicate JsState(js: Value -> bool, s: State) {
    && Recorded(js, s.log)
    && (forall i :: 0 <= i < |s.queue| ==> js(s.queue[i].payload))
    && (match s.phase
        case Idle => true
        case Held(req) => js(req.payload)
        case Ready(req) => js(req.payload)
        case Keyed(e) => js(Persisted(e)))
  }

  predicate JsStep(js: Value -> bool, step: Step) { step.Call? ==> js(step.req.payload) }

  lemma {:induction false} StepKeepsJs(js: Value -> bool, limit: nat, mac: Text -> Text, parse: Text -> Option<Value>, s: State, step: Step)
    requires Closed(js, limit) && |s.log| < limit && Inv(mac, s) && JsState(js, s) && JsStep(js, step)
    ensures JsState(js, Next(mac, parse, s, step)) && |Next(mac, parse, s, step).log| <= |s.log| + 1
  {
    match step {
      case Compute(timestamp) => ComputeKeepsJs(js, limit, mac, parse, s, timestamp);
      case Write(ok) => WriteKeepsJs(js, mac, parse, s, ok);
      case _ => OtherStepKeepsJs(js, mac, parse, s, step);
    }
  }

  lemma {:induction false} WriteKeepsJs(js: Value -> bool, mac: Text -> Text, parse: Text -> Option<Value>, s: State, ok: bool)
    requires JsState(js, s)
    ensures JsState(js, Next(mac, parse, s, Write(ok))) && |Next(mac, parse, s, Write(ok)).log| <= |s.log| + 1
  {
  }

  lemma {:induction false} OtherStepKeepsJs(js: Value -> bool, mac: Text -> Text, parse: Text -> Option<Value>, s: State, step: Step)
    requires JsState(js, s) && JsStep(js, step) && !step.Compute? && !step.Write?
    ensures JsState(js, Next(mac, parse, s, step)) && Next(mac, parse, s, step).log == s.log
  {
  }

  lemma {:induction false} ComputeKeepsJs(js: Value -> bool, limit: nat, mac: Text -> Text, parse: Text -> Option<Value>, s: State, timestamp: Text)
    requires Closed(js, limit) && |s.log| < limit && Inv(mac, s) && JsState(js, s)
    ensures JsState(js, Next(mac, parse, s, Compute(timestamp)))
  {
    if s.phase.Ready? && Serializable(s.phase.req.payload) {
      EntryForIsValid(mac, s.cache.value, s.phase.req, timestamp);
    }
  }

  // ----- every schedule ---------------------------------------------------

  /** `audit verify` on the log file; a missing file verifies as empty. */
  function VerifyFile(mac: Text -> Text, parse: Text -> Option<Value>, file: Option<seq<Utf8.Byte>>): Verdict {
    if file.None? then Intact(0) else Verify(mac, parse, Utf8.Decode(file.value))
  }

  lemma {:induction false} InvIsVerified(js: Value -> bool, mac: Text -> Text, parse: Text -> Option<Value>, s: State)
    requires FaithfulParser(js, parse) && Inv(mac, s) && Recorded(js, s.log)
    ensures VerifyFile(mac, parse, s.file) == Intact(|s.log|)
    ensures forall i :: 0 <= i < |s.log| ==> s.log[i].seqNo == i + 1
  {
    WriterChainIsValid(mac, s.log, GENESIS, 0);
    if s.file.Some? {
      FileTextIsPaired(s.log);
      Utf8.Utf8RoundTrip(FileText(s.log));
      VerifyAcceptsFile(js, mac, parse, s.log);
    }
  }

  /** In every schedule of calls, grants, failures, crashes and restarts, the log only grows, its
      numbers are 1..n, and `audit verify` accepts the file with n equal to the number of successful
      appends. No bound on the length of a line is needed. */
  lemma {:induction false} EveryScheduleVerifies(
    js: Value -> bool, limit: nat, mac: Text -> Text, parse: Text -> Option<Value>, s: State, steps: seq<Step>)
    requires FaithfulParser(js, parse) && Closed(js, limit) && |s.log| + |steps| <= limit
    requires Inv(mac, s) && JsState(js, s)
    requires forall i :: 0 <= i < |steps| ==> ValidStep(steps[i]) && JsStep(js, steps[i])
    ensures var t := Run(mac, parse, s, steps);
            && Inv(mac, t) && s.log <= t.log
            && VerifyFile(mac, parse, t.file) == Intact(|t.log|)
            && forall i :: 0 <= i < |t.log| ==> t.log[i].seqNo == i + 1
    decreases |steps|
  {
    if steps == [] {
      InvIsVerified(js, mac, parse, s);
    } else {
      StepKeepsInv(js, mac, parse, s, steps[0]);
      StepKeepsJs(js, limit, mac, parse, s, steps[0]);
      EveryScheduleVerifies(js, limit, mac, parse, Next(mac, parse, s, steps[0]), steps[1..]);
    }
  }

  /** A fresh installation satisfies the invariant. */
  lemma FreshInv(mac: Text -> Text)
    ensures Inv(mac, State(None, None, [], Idle, []))
  {
  }

  // ----- after a restart --------------------------------------------------

  predicate Resumable(s: State) {
    s.cache.Some? || s.log == [] || Fits(s.log[|s.log| - 1])
  }

  function OneAppend(r: Request, timestamp: Text): seq<Step> {
    [Call(r), Grant, RecoverState, Compute(timestamp), Write(true)]
  }

  lemma {:induction false} RunFive(mac: Text -> Text, parse: Text -> Option<Value>, s: State, a: Step, b: Step, c: Step, d: Step, e: Step)
    ensures Run(mac, parse, s, [a, b, c, d, e]) ==
            Next(mac, parse, Next(mac, parse, Next(mac, parse, Next(mac, parse, Next(mac, parse, s, a), b), c), d), e)
  {
    assert [a, b, c, d, e][1..] == [b, c, d, e];
    assert [b, c, d, e][1..] == [c, d, e];
    assert [c, d, e][1..] == [d, e];
    assert [d, e][1..] == [e];
    assert [e][1..] == [];
    var s1 := Next(mac, parse, s, a);
    var s2 := Next(mac, parse, s1, b);
    var s3 := Next(mac, parse, s2, c);
    var s4 := Next(mac, parse, s3, d);
    assert Run(mac, parse, s4, [e]) == Next(mac, parse, s4, e);
    assert Run(mac, parse, s3, [d, e]) == Run(mac, parse, s4, [e]);
    assert Run(mac, parse, s2, [c, d, e]) == Run(mac, parse, s3, [d, e]);
    assert Run(mac, parse, s1, [b, c, d, e]) == Run(mac, parse, s2, [c, d, e]);
  }

  /** An undisturbed append succeeds exactly when the payload is serializable and the state is in
      memory or the last line of the file fits in the tail. */
  lemma {:induction false} AppendSucceedsIff(js: Value -> bool, mac: Text -> Text, parse: Text -> Option<Value>, s: State, r: Request, timestamp: Text)
    requires FaithfulParser(js, parse) && Inv(mac, s) && Recorded(js, s.log) && s.phase.Idle? && s.queue == [] && ValidRequest(r)
    ensures var t := Run(mac, parse, s, OneAppend(r, timestamp));
            if Resumable(s) && Serializable(r.payload) then
              && t.log == s.log + [EntryFor(mac, FoldState(s.log), r, timestamp)]
              && Records(mac, t.log[|s.log|], r, timestamp, |s.log| + 1, if s.log == [] then GENESIS else s.log[|s.log| - 1].hmac)
            else t.log == s.log
  {
    RecoverIffResumable(js, mac, parse, s);
    OneAppendIs(mac, parse, s, r, timestamp);
    WriterChainIsValid(mac, s.log, GENESIS, 0);
    EntryCarries(mac, FoldState(s.log), r, timestamp);
  }

  /** Entry number `n` records the call, and its hmac is the hash of the previous one and its own properties. */
  predicate Records(mac: Text -> Text, e: Entry, r: Request, timestamp: Text, n: nat, prev: Text) {
    Carries(e, r) && e.timestamp == timestamp && e.seqNo == n && e.hmac == mac(prev + Canonical(Signed(e)))
  }

  // ----- the log follows the calls ----------------------------------------

  /** The requests of the calls among the steps, in call order. */
  function CallsOf(steps: seq<Step>): seq<Request> {
    if steps == [] then [] else CallsOf(steps[..|steps| - 1]) + (if steps[|steps| - 1].Call? then [steps[|steps| - 1].req] else [])
  }

  /** Entry `i` carries call number `at[i]`, and these numbers increase. */
  predicate InCallOrder(entries: seq<Entry>, calls: seq<Request>, at: seq<nat>) {
    && |at| == |entries|
    && (forall i :: 0 <= i < |at| ==> at[i] < |calls| && Carries(entries[i], calls[at[i]]))
    && (forall i, j :: 0 <= i < j < |at| ==> at[i] < at[j])
  }

  /** The queue holds the calls from number `next` on, or, after a crash, the last of them; the call under way is
      an earlier one, and none of the recorded calls is later than it. */
  ghost predicate Follows(s: State, before: seq<Entry>, calls: seq<Request>, at: seq<nat>, next: nat) {
    && next <= |calls| && s.queue == calls[next..]
    && before <= s.log && InCallOrder(s.log[|before|..], calls, at)
    && (forall i :: 0 <= i < |at| ==> at[i] < (if s.phase.Idle? then next else next - 1))
    && (match s.phase
        case Idle => true
        case Held(req) => next > 0 && req == calls[next - 1]
        case Ready(req) => next > 0 && req == calls[next - 1]
        case Keyed(e) => next > 0 && Carries(e, calls[next - 1]))
  }

  lemma {:induction false} CallFollows(mac: Text -> Text, parse: Text -> Option<Value>, s: State, before: seq<Entry>, calls: seq<Request>,
                                       at: seq<nat>, next: nat, req: Request)
    requires Follows(s, before, calls, at, next)
    ensures Follows(Next(mac, parse, s, Call(req)), before, calls + [req], at, next)
  {
    assert (calls + [req])[next..] == calls[next..] + [req];
  }

  lemma {:induction false} WriteFollows(mac: Text -> Text, parse: Text -> Option<Value>, s: State, before: seq<Entry>, calls: seq<Request>,
                                        at: seq<nat>, next: nat)
    requires Follows(s, before, calls, at, next) && s.phase.Keyed?
    ensures Follows(Next(mac, parse, s, Write(true)), before, calls, at + [next - 1], next)
  {
    var t := Next(mac, parse, s, Write(true));
    assert t.log[|before|..] == s.log[|before|..] + [s.phase.e];
  }

  lemma {:induction false} GrantFollows(mac: Text -> Text, parse: Text -> Option<Value>, s: State, before: seq<Entry>, calls: seq<Request>,
                                        at: seq<nat>, next: nat)
    requires Follows(s, before, calls, at, next) && s.phase.Idle? && s.queue != []
    ensures Follows(Next(mac, parse, s, Grant), before, calls, at, next + 1)
  {
    assert calls[next..][1..] == calls[next + 1..];
  }

  lemma {:induction false} CrashFollows(mac: Text -> Text, parse: Text -> Option<Value>, s: State, before: seq<Entry>, calls: seq<Request>,
                                        at: seq<nat>, next: nat)
    requires Follows(s, before, calls, at, next)
    ensures Follows(Next(mac, parse, s, Crash), before, calls, at, |calls|)
  {
  }

  lemma {:induction false} QuietFollows(mac: Text -> Text, parse: Text -> Option<Value>, s: State, before: seq<Entry>, calls: seq<Request>,
                                        at: seq<nat>, next: nat, step: Step)
    requires Follows(s, before, calls, at, next) && !step.Call? && !step.Crash?
    requires step.Write? ==> !(step.ok && s.phase.Keyed?)
    requires step.Grant? ==> !s.phase.Idle? || s.queue == []
    ensures Follows(Next(mac, parse, s, step), before, calls, at, next)
  {
    if step.Compute? && s.phase.Ready? && s.cache.Some? { EntryCarries(mac, s.cache.value, s.phase.req, step.timestamp); }
  }

  lemma {:induction false} StepFollows(mac: Text -> Text, parse: Text -> Option<Value>, s: State, before: seq<Entry>, calls: seq<Request>,
                                       at: seq<nat>, next: nat, step: Step) returns (at': seq<nat>, next': nat)
    requires Follows(s, before, calls, at, next)
    ensures Follows(Next(mac, parse, s, step), before, calls + (if step.Call? then [step.req] else []), at', next')
  {
    at', next' := at, next;
    assert calls + [] == calls;
    if step.Call? {
      CallFollows(mac, parse, s, before, calls, at, next, step.req);
    } else if step.Crash? {
      next' := |calls|;
      CrashFollows(mac, parse, s, before, calls, at, next);
    } else if step == Write(true) && s.phase.Keyed? {
      at' := at + [next - 1];
      WriteFollows(mac, parse, s, before, calls, at, next);
    } else if step.Grant? && s.phase.Idle? && s.queue != [] {
      next' := next + 1;
      GrantFollows(mac, parse, s, before, calls, at, next);
    } else {
      QuietFollows(mac, parse, s, before, calls, at, next, step);
    }
  }

  lemma {:induction false} RunSnoc(mac: Text -> Text, parse: Text -> Option<Value>, s: State, steps: seq<Step>, step: Step)
    ensures Run(mac, parse, s, steps + [step]) == Next(mac, parse, Run(mac, parse, s, steps), step)
    decreases |steps|
  {
    if steps == [] {
      assert [step][1..] == [];
    } else {
      assert (steps + [step])[1..] == steps[1..] + [step];
      RunSnoc(mac, parse, Next(mac, parse, s, steps[0]), steps[1..], step);
    }
  }

  lemma {:induction false} RunFollows(mac: Text -> Text, parse: Text -> Option<Value>, s: State, steps: seq<Step>) returns (at: seq<nat>, next: nat)
    requires s.phase.Idle? && s.queue == []
    ensures Follows(Run(mac, parse, s, steps), s.log, CallsOf(steps), at, next)
    decreases |steps|
  {
    if steps == [] {
      at, next := [], 0;
    } else {
      var init, last := steps[..|steps| - 1], steps[|steps| - 1];
      assert steps == init + [last];
      at, next := RunFollows(mac, parse, s, init);
      RunSnoc(mac, parse, s, init, last);
      at, next := StepFollows(mac, parse, Run(mac, parse, s, init), s.log, CallsOf(init), at, next, last);
    }
  }

  /** In every schedule from a state with no call under way, each new entry of the log carries exactly what one
      call was given, no call is recorded twice, and the entries stand in the order of the calls. */
  lemma {:induction false} LogFollowsCalls(mac: Text -> Text, parse: Text -> Option<Value>, s: State, steps: seq<Step>)
    requires s.phase.Idle? && s.queue == []
    ensures var t := Run(mac, parse, s, steps);
            s.log <= t.log && exists at: seq<nat> :: InCallOrder(t.log[|s.log|..], CallsOf(steps), at)
  {
    var at, next := RunFollows(mac, parse, s, steps);
  }

  /** Without a cached state, recovery gives the state of the whole log exactly when the append can resume. */
  lemma {:induction false} RecoverIffResumable(js: Value -> bool, mac: Text -> Text, parse: Text -> Option<Value>, s: State)
    requires FaithfulParser(js, parse) && Inv(mac, s) && Recorded(js, s.log)
    ensures s.cache.None? ==>
              if Resumable(s) then Recover(parse, s.file) == Success(FoldState(s.log)) else Recover(parse, s.file).Failure?
  {
    if s.file.Some? { RecoverIffLastLineFits(js, mac, parse, s.log); }
  }

  /** The five steps of an append that nothing disturbs. */
  lemma {:induction false} OneAppendIs(mac: Text -> Text, parse: Text -> Option<Value>, s: State, r: Request, timestamp: Text)
    requires s.phase.Idle? && s.queue == []
    requires s.cache.Some? ==> s.cache == Some(FoldState(s.log))
    requires s.cache.None? ==>
               if Resumable(s) then Recover(parse, s.file) == Success(FoldState(s.log)) else Recover(parse, s.file).Failure?
    ensures var t := Run(mac, parse, s, OneAppend(r, timestamp));
            if Resumable(s) && Serializable(r.payload) then
              t.log == s.log + [EntryFor(mac, FoldState(s.log), r, timestamp)]
            else t.log == s.log
  {
    RunFive(mac, parse, s, Call(r), Grant, RecoverState, Compute(timestamp), Write(true));
    var s2 := s.(queue := [], phase := Held(r));
    assert Next(mac, parse, Next(mac, parse, s, Call(r)), Grant) == s2;
    var s3 := Next(mac, parse, s2, RecoverState);
    assert s3 == if Resumable(s) then s.(queue := [], cache := Some(FoldState(s.log)), phase := Ready(r))
                 else s.(queue := [], phase := Idle);
  }

  /** A restart behind a line that does not fit is final: no later append succeeds. */
  ghost predicate Wedged(s: State) {
    s.cache.None? && (s.phase.Idle? || s.phase.Held?) && s.log != [] && !Fits(s.log[|s.log| - 1])
  }

  lemma {:induction false} WedgedForever(js: Value -> bool, mac: Text -> Text, parse: Text -> Option<Value>, s: State, steps: seq<Step>)
    requires FaithfulParser(js, parse) && Inv(mac, s) && Recorded(js, s.log) && Wedged(s)
    requires forall i :: 0 <= i < |steps| ==> ValidStep(steps[i])
    ensures Run(mac, parse, s, steps).log == s.log && Run(mac, parse, s, steps).file == s.file
    decreases |steps|
  {
    if steps != [] {
      var t := Next(mac, parse, s, steps[0]);
      StepKeepsInv(js, mac, parse, s, steps[0]);
      WedgedFails(js, mac, parse, s);
      WedgedNext(mac, parse, s, steps[0]);
      WedgedForever(js, mac, parse, t, steps[1..]);
    }
  }

  lemma {:induction false} WedgedFails(js: Value -> bool, mac: Text -> Text, parse: Text -> Option<Value>, s: State)
    requires FaithfulParser(js, parse) && Inv(mac, s) && Recorded(js, s.log) && Wedged(s)
    ensures Recover(parse, s.file).Failure?
  {
    RecoverIffResumable(js, mac, parse, s);
  }

  lemma {:induction false} WedgedNext(mac: Text -> Text, parse: Text -> Option<Value>, s: State, step: Step)
    requires Wedged(s) && Recover(parse, s.file).Failure?
    ensures var t := Next(mac, parse, s, step); Wedged(t) && t.log == s.log && t.file == s.file
  {
  }

  // ----- the class --------------------------------------------------------

  datatype AppendError = RecoverFailed | KeyFailed | TypeErrorThrown | WriteFailed

  /** One writer and its log file, seen by a call that has reached the head of the queue. */
  class Writer {
    const mac: Text -> Text
    const parse: Text -> Option<Value>
    var file: Option<seq<Utf8.Byte>>
    var cachedPrevHmac: Option<Text>
    var cachedPrevSeq: Option<nat>
    ghost var log: seq<Entry>

    ghost function Snapshot(): State
      reads this
    {
      State(file, CacheOf(cachedPrevHmac, cachedPrevSeq), [], Idle, log)
    }

    static function CacheOf(hmac: Option<Text>, seqNo: Option<nat>): Option<Cache> {
      if hmac.None? || seqNo.None? then None else Some(Cache(hmac.value, seqNo.value))
    }

    constructor (mac: Text -> Text, parse: Text -> Option<Value>)
      ensures Snapshot() == State(None, None, [], Idle, []) && this.mac == mac && this.parse == parse
    {
      this.mac, this.parse := mac, parse;
      file, cachedPrevHmac, cachedPrevSeq, log := None, None, None, [];
    }

    method RecoverState() returns (ok: bool)
      modifies this`cachedPrevHmac, this`cachedPrevSeq
      ensures ok <==> Recover(parse, file).Success?
      ensures ok ==> CacheOf(cachedPrevHmac, cachedPrevSeq) == Some(Recover(parse, file).value)
      ensures !ok ==> cachedPrevHmac == old(cachedPrevHmac) && cachedPrevSeq == old(cachedPrevSeq)
    {
      if file.None? || file.value == [] {
        cachedPrevHmac, cachedPrevSeq := Some(GENESIS), Some(0);
        return true;
      }
      var text := Utf8.Decode(Tail(file.value));
      if text == [] || text[|text| - 1] != NEWLINE { return false; }
      var lastLine := AfterLastNewline(text[..|text| - 1]);
      var found := FromLastLine(parse(lastLine));
      if found.Failure? { return false; }
      cachedPrevHmac, cachedPrevSeq := Some(found.value.hmac), Some(found.value.seqNo);
      return true;
    }

    /** The critical section of `append`; `keyOk` and `writeOk` say whether the key file and the log can be used. */
    method Append(r: Request, timestamp: Text, keyOk: bool, writeOk: bool) returns (result: Result<Entry, AppendError>)
      modifies this
      ensures Snapshot() == Run(mac, parse, old(Snapshot()),
                                [Call(r), Grant, Step.RecoverState, if keyOk then Compute(timestamp) else KeyFails, Write(writeOk)])
      ensures result.Success? ==> log == old(log) + [result.value]
      ensures result.Success? ==>
                && result.value.actor == r.actor && result.value.event == r.event && result.value.payload == r.payload
                && result.value.platform == r.platform && result.value.timestamp == timestamp
                && cachedPrevSeq == Some(result.value.seqNo) && cachedPrevHmac == Some(result.value.hmac)
      ensures result.Success? && old(cachedPrevHmac).Some? && old(cachedPrevSeq).Some? ==>
                && result.value.seqNo == old(cachedPrevSeq).value + 1
                && result.value.hmac == mac(old(cachedPrevHmac).value + Canonical(Signed(result.value)))
      ensures result.Failure? ==> log == old(log) && file == old(file)
    {
      ghost var key := if keyOk then Compute(timestamp) else KeyFails;
      ghost var s := Snapshot();
      RunFive(mac, parse, s, Call(r), Grant, Step.RecoverState, key, Write(writeOk));
      assert Next(mac, parse, Next(mac, parse, s, Call(r)), Grant) == s.(phase := Held(r));
      if cachedPrevHmac.None? || cachedPrevSeq.None? {
        var ok := RecoverState();
        if !ok { return Failure(RecoverFailed); }
      }
      var c := Cache(cachedPrevHmac.value, cachedPrevSeq.value);
      if !keyOk { return Failure(KeyFailed); }
      if !Serializable(r.payload) { return Failure(TypeErrorThrown); }
      var e := EntryFor(mac, c, r, timestamp);
      if !writeOk { return Failure(WriteFailed); }
      file := Appended(file, e);
      cachedPrevHmac, cachedPrevSeq := Some(e.hmac), Some(e.seqNo);
      log := log + [e];
      return Success(e);
    }
  }
}
