/** The audit log as a hash chain, and `audit verify` as a fold over its lines. */
module AuditChain {
  import opened Wrappers
  import opened Texts
  import opened Json
  import opened CanonicalJson
  import JsonScan

  // ----- the tools both sides share ----------------------------------------

  /** Parsed values have distinct property names and printable number tokens; overflow to infinity is possible. */
  ghost predicate WellFormedParser(parse: Text -> Option<Value>) {
    forall t | parse(t).Some? :: WellFormed(parse(t).value)
  }

  /** What the proofs need from `JSON.parse`. `js` picks out the values as JavaScript holds them: each number
      with its shortest token, each object with its own properties in their order. */
  ghost predicate FaithfulParser(js: Value -> bool, parse: Text -> Option<Value>) {
    && (forall v | Plain(v) && js(v) :: parse(Print(v)) == Some(v))
    && WellFormedParser(parse)
    && (forall v, k | Plain(v) && js(v) && v.Obj? && 0 < k < |Print(v)| && parse(Print(v)[k..]).Some? ::
          !parse(Print(v)[k..]).value.Obj?)
    && (forall t | t != [] && t[0] == REPLACEMENT :: parse(t).None?)
  }

  /** The explicit decoder meets those needs, whatever the values are. */
  lemma {:induction false} DecodeIsFaithful(js: Value -> bool)
    ensures FaithfulParser(js, Decode)
  {
    forall v | Plain(v) ensures Decode(Print(v)) == Some(v) {
      RoundTrip(v);
    }
    forall t | Decode(t).Some? ensures WellFormed(Decode(t).value) {
      JsonScan.DecodedIsPlain(t);
    }
    forall v, k | Plain(v) && v.Obj? && 0 < k < |Print(v)| && Decode(Print(v)[k..]).Some?
      ensures !Decode(Print(v)[k..]).value.Obj?
    {
      JsonScan.ObjectSuffixIsNotObject(v, k);
    }
  }

  // ----- a parser that reads numbers as JavaScript does -------------------

  /** `number` gives what a numeral is read as: a number with its shortest token, or an infinity. */
  ghost predicate ReadsNumerals(number: Text -> Value) {
    forall t | IsNumberToken(t) :: number(t).NonFinite? || (number(t).Number? && IsNumberToken(number(t).token))
  }

  /** Every number of `v` is read back as it is. */
  predicate Shortest(number: Text -> Value, v: Value) {
    match v
    case Number(t) => number(t) == v
    case Arr(items) => forall i :: 0 <= i < |items| ==> Shortest(number, items[i])
    case Obj(fields) => forall i :: 0 <= i < |fields| ==> Shortest(number, fields[i].value)
    case _ => true
  }

  function ReadAll(number: Text -> Value, v: Value): Value
    decreases v, 0
  {
    match v
    case Number(t) => number(t)
    case Arr(items) => Arr(ReadItems(number, items))
    case Obj(fields) => Obj(ReadFields(number, fields))
    case _ => v
  }

  function ReadItems(number: Text -> Value, items: seq<Value>): (r: seq<Value>)
    ensures |r| == |items|
    decreases items, 1
  {
    if items == [] then [] else [ReadAll(number, items[0])] + ReadItems(number, items[1..])
  }

  function ReadFields(number: Text -> Value, fields: seq<Field>): (r: seq<Field>)
    ensures |r| == |fields|
    decreases fields, 1
  {
    if fields == [] then []
    else [Field(fields[0].key, ReadAll(number, fields[0].value))] + ReadFields(number, fields[1..])
  }

  /** Decoding, then reading the numerals: "1.0" becomes 1 and "1e999" infinity. */
  function ReadJson(number: Text -> Value, t: Text): Option<Value> {
    match Decode(t)
    case None => None
    case Some(v) => Some(ReadAll(number, v))
  }

  lemma {:induction false} ReadItemsAt(number: Text -> Value, items: seq<Value>, i: nat)
    requires i < |items|
    ensures ReadItems(number, items)[i] == ReadAll(number, items[i])
  {
    if i > 0 { ReadItemsAt(number, items[1..], i - 1); }
  }

  lemma {:induction false} ReadFieldsAt(number: Text -> Value, fields: seq<Field>, i: nat)
    requires i < |fields|
    ensures ReadFields(number, fields)[i] == Field(fields[i].key, ReadAll(number, fields[i].value))
  {
    if i > 0 { ReadFieldsAt(number, fields[1..], i - 1); }
  }

  lemma {:induction false} ReadAllKeepsShortest(number: Text -> Value, v: Value)
    requires Shortest(number, v)
    ensures ReadAll(number, v) == v
  {
    match v {
      case Arr(items) =>
        forall i | 0 <= i < |items| ensures ReadItems(number, items)[i] == items[i] {
          ReadItemsAt(number, items, i);
          ReadAllKeepsShortest(number, items[i]);
        }
        assert ReadItems(number, items) == items;
      case Obj(fields) =>
        forall i | 0 <= i < |fields| ensures ReadFields(number, fields)[i] == fields[i] {
          ReadFieldsAt(number, fields, i);
          ReadAllKeepsShortest(number, fields[i].value);
        }
        assert ReadFields(number, fields) == fields;
      case _ =>
    }
  }

  lemma {:induction false} ReadAllIsWellFormed(number: Text -> Value, v: Value)
    requires ReadsNumerals(number) && WellFormed(v)
    ensures WellFormed(ReadAll(number, v)) && (ReadAll(number, v).Obj? <==> v.Obj?)
  {
    match v {
      case Arr(items) =>
        forall i | 0 <= i < |items| ensures WellFormed(ReadItems(number, items)[i]) {
          ReadItemsAt(number, items, i);
          ReadAllIsWellFormed(number, items[i]);
        }
      case Obj(fields) =>
        forall i | 0 <= i < |fields| ensures ReadFields(number, fields)[i].key == fields[i].key && WellFormed(ReadFields(number, fields)[i].value) {
          ReadFieldsAt(number, fields, i);
          ReadAllIsWellFormed(number, fields[i].value);
        }
      case _ =>
    }
  }

  /** A parser that normalizes numerals, whatever it reads them as, meets the needs on the values whose
      numbers are in their shortest form. */
  lemma {:induction false} ReadJsonIsFaithful(number: Text -> Value)
    requires ReadsNumerals(number)
    ensures FaithfulParser(v => Shortest(number, v), t => ReadJson(number, t))
  {
    var parse := t => ReadJson(number, t);
    forall v | Plain(v) && Shortest(number, v) ensures parse(Print(v)) == Some(v) {
      RoundTrip(v);
      ReadAllKeepsShortest(number, v);
    }
    forall t | parse(t).Some? ensures WellFormed(parse(t).value) {
      JsonScan.DecodedIsPlain(t);
      ReadAllIsWellFormed(number, Decode(t).value);
    }
    forall v, k | Plain(v) && v.Obj? && 0 < k < |Print(v)| && parse(Print(v)[k..]).Some?
      ensures !parse(Print(v)[k..]).value.Obj?
    {
      JsonScan.ObjectSuffixIsNotObject(v, k);
      JsonScan.DecodedIsPlain(Print(v)[k..]);
      ReadAllIsWellFormed(number, Decode(Print(v)[k..]).value);
    }
    DecodeIsFaithful(v => true);
    forall t | t != [] && t[0] == REPLACEMENT ensures parse(t).None? {
      assert Decode(t).None?;
    }
  }

  const MAC_LENGTH := 64

  const EIGHT_ZEROS: Text := [0x30, 0x30, 0x30, 0x30, 0x30, 0x30, 0x30, 0x30]

  /** The hmac that precedes the first entry: 64 zeros. */
  const GENESIS: Text :=
    (EIGHT_ZEROS + EIGHT_ZEROS + EIGHT_ZEROS + EIGHT_ZEROS) + (EIGHT_ZEROS + EIGHT_ZEROS + EIGHT_ZEROS + EIGHT_ZEROS)

  /** A keyed hash printed as 64 hex digits. */
  ghost predicate FixedLength(mac: Text -> Text) {
    forall t :: |mac(t)| == MAC_LENGTH
  }

  // ----- entries ----------------------------------------------------------

  const ACTOR: Text := [0x61, 0x63, 0x74, 0x6F, 0x72]
  const EVENT: Text := [0x65, 0x76, 0x65, 0x6E, 0x74]
  const PAYLOAD: Text := [0x70, 0x61, 0x79, 0x6C, 0x6F, 0x61, 0x64]
  const PLATFORM: Text := [0x70, 0x6C, 0x61, 0x74, 0x66, 0x6F, 0x72, 0x6D]
  const SEQ: Text := [0x73, 0x65, 0x71]
  const TIMESTAMP: Text := [0x74, 0x69, 0x6D, 0x65, 0x73, 0x74, 0x61, 0x6D, 0x70]
  const HMAC: Text := [0x68, 0x6D, 0x61, 0x63]

  datatype Entry = Entry(
    actor: Text, event: Text, payload: Value, platform: Value, seqNo: nat, timestamp: Text, hmac: Text)

  /** The payload is a plain object and the platform a string or null. */
  predicate ValidEntry(e: Entry) {
    Plain(e.payload) && e.payload.Obj? && (e.platform.Null? || e.platform.Str?)
  }

  /** The decimal token of a number. */
  function NatToken(n: nat): (t: Text)
    ensures IsNumberToken(t)
  {
    if n < 10 then [0x30 + n] else NatToken(n / 10) + [0x30 + n % 10]
  }

  lemma {:induction false} NatTokenIsInjective(m: nat, n: nat)
    requires NatToken(m) == NatToken(n)
    ensures m == n
    decreases m
  {
    var t := NatToken(m);
    if m >= 10 && n >= 10 {
      assert t[..|t| - 1] == NatToken(m / 10) == NatToken(n / 10);
      assert t[|t| - 1] == 0x30 + m % 10 == 0x30 + n % 10;
      NatTokenIsInjective(m / 10, n / 10);
    }
  }

  function SignedFields(e: Entry): seq<Field> {
    [Field(ACTOR, Str(e.actor)), Field(EVENT, Str(e.event)), Field(PAYLOAD, e.payload),
     Field(PLATFORM, e.platform), Field(SEQ, Number(NatToken(e.seqNo))), Field(TIMESTAMP, Str(e.timestamp))]
  }

  /** `minus`: the entry without its `hmac`. */
  function Signed(e: Entry): Value { Obj(SignedFields(e)) }

  /** The entry with its `hmac` as the last property. */
  function Persisted(e: Entry): Value { Obj(SignedFields(e) + [Field(HMAC, Str(e.hmac))]) }

  lemma {:induction false} SignedKeysAreUnique(a: Value, b: Value, c: Value, d: Value, e: Value, f: Value, g: Value)
    ensures UniqueKeys([Field(ACTOR, a), Field(EVENT, b), Field(PAYLOAD, c), Field(PLATFORM, d), Field(SEQ, e),
                        Field(TIMESTAMP, f), Field(HMAC, g)])
    ensures UniqueKeys([Field(ACTOR, a), Field(EVENT, b), Field(PAYLOAD, c), Field(PLATFORM, d), Field(SEQ, e),
                        Field(TIMESTAMP, f)])
  {
    assert ACTOR[0] == 0x61 && EVENT[0] == 0x65 && PAYLOAD[1] == 0x61 && PLATFORM[1] == 0x6C;
    assert PAYLOAD[0] == PLATFORM[0] == 0x70 && SEQ[0] == 0x73 && TIMESTAMP[0] == 0x74 && HMAC[0] == 0x68;
  }

  /** The persisted form of every entry is a value as JavaScript holds it. */
  ghost predicate Recorded(js: Value -> bool, log: seq<Entry>) {
    forall i :: 0 <= i < |log| ==> js(Persisted(log[i]))
  }

  /** Such values are closed under making a payload an entry, for numbers up to `limit` (2^53 - 1 for doubles). */
  ghost predicate Closed(js: Value -> bool, limit: nat) {
    forall e | ValidEntry(e) && js(e.payload) && e.seqNo <= limit :: js(Persisted(e))
  }

  /** With numerals read as `number` does, they are closed up to any limit below which numbers are exact. */
  lemma {:induction false} ShortestIsClosed(number: Text -> Value, limit: nat)
    requires forall n :: 0 <= n <= limit ==> number(NatToken(n)) == Number(NatToken(n))
    ensures Closed(v => Shortest(number, v), limit)
  {
    forall e | ValidEntry(e) && Shortest(number, e.payload) && e.seqNo <= limit ensures Shortest(number, Persisted(e)) {
      assert Shortest(number, Number(NatToken(e.seqNo)));
    }
  }

  lemma {:induction false} EntryIsPlain(e: Entry)
    requires ValidEntry(e)
    ensures Plain(Signed(e)) && Plain(Persisted(e))
  {
    SignedKeysAreUnique(Str(e.actor), Str(e.event), e.payload, e.platform, Number(NatToken(e.seqNo)),
                        Str(e.timestamp), Str(e.hmac));
    SignedIsPlain(e);
    OneMoreField(SignedFields(e), Field(HMAC, Str(e.hmac)));
  }

  lemma {:induction false} SignedIsPlain(e: Entry)
    requires ValidEntry(e)
    ensures Plain(Signed(e))
  {
    SignedKeysAreUnique(Str(e.actor), Str(e.event), e.payload, e.platform, Number(NatToken(e.seqNo)),
                        Str(e.timestamp), Str(e.hmac));
  }

  lemma OneMoreField(fields: seq<Field>, f: Field)
    requires Plain(Obj(fields)) && Plain(f.value) && UniqueKeys(fields + [f])
    ensures Plain(Obj(fields + [f]))
  {
  }

  /** One line of the log, without its newline. */
  function Line(e: Entry): Text { Print(Persisted(e)) }

  function FileText(log: seq<Entry>): Text {
    if log == [] then [] else Line(log[0]) + ([NEWLINE] + FileText(log[1..]))
  }

  lemma {:induction false} FileTextAppend(log: seq<Entry>, e: Entry)
    ensures FileText(log + [e]) == FileText(log) + (Line(e) + [NEWLINE])
  {
    if log == [] {
      assert (log + [e])[1..] == [];
    } else {
      assert (log + [e])[1..] == log[1..] + [e];
      FileTextAppend(log[1..], e);
    }
  }

  // ----- audit verify -----------------------------------------------------

  datatype Reason = HmacMismatch | SeqGap | ParseError

  /** The result document, or the exception `canonicalJson` or a null line raises. */
  datatype Verdict = Intact(entriesVerified: nat) | Broken(entriesVerified: nat, failedAtSeq: Value, reason: Reason) | Threw

  datatype LineCheck = Accept(hmac: Text) | Reject(failedAtSeq: Value, reason: Reason) | Raise

  /** `v[key]`, `undefined` when there is no such property. */
  function GetField(v: Value, key: Text): Value {
    if v.Obj? then Lookup(v.fields, key) else Unsupported
  }

  function Lookup(fields: seq<Field>, key: Text): Value {
    if fields == [] then Unsupported
    else if fields[0].key == key then fields[0].value
    else Lookup(fields[1..], key)
  }

  /** The six signed properties of a parsed line. */
  function View(v: Value): Value {
    Obj([Field(ACTOR, GetField(v, ACTOR)), Field(EVENT, GetField(v, EVENT)), Field(PAYLOAD, GetField(v, PAYLOAD)),
         Field(PLATFORM, GetField(v, PLATFORM)), Field(SEQ, GetField(v, SEQ)), Field(TIMESTAMP, GetField(v, TIMESTAMP))])
  }

  function CheckLine(mac: Text -> Text, parsed: Option<Value>, prevHmac: Text, prevSeq: nat): LineCheck {
    match parsed
    case None => Reject(Number(NatToken(prevSeq + 1)), ParseError)
    case Some(v) =>
      if v.Null? then Raise
      else if !IsNumber(GetField(v, SEQ)) || !GetField(v, HMAC).Str? then Reject(Number(NatToken(prevSeq + 1)), ParseError)
      else if GetField(v, SEQ) != Number(NatToken(prevSeq + 1)) then Reject(GetField(v, SEQ), SeqGap)
      else if CanonicalSpec(View(v)).Failure? then Raise
      else if mac(prevHmac + Canonical(View(v))) != GetField(v, HMAC).s then Reject(GetField(v, SEQ), HmacMismatch)
      else Accept(GetField(v, HMAC).s)
  }

  /** `typeof v === 'number'`; an infinity is one. */
  predicate IsNumber(v: Value) { v.Number? || v.NonFinite? }

  function VerifyLines(mac: Text -> Text, parse: Text -> Option<Value>, lines: seq<Text>, prevHmac: Text, prevSeq: nat): Verdict {
    if lines == [] then Intact(prevSeq)
    else if lines[0] == [] then VerifyLines(mac, parse, lines[1..], prevHmac, prevSeq)
    else
      match CheckLine(mac, parse(lines[0]), prevHmac, prevSeq)
      case Raise => Threw
      case Reject(at, reason) => Broken(prevSeq, at, reason)
      case Accept(hmac) => VerifyLines(mac, parse, lines[1..], hmac, prevSeq + 1)
  }

  /** `text.split('\n')`. */
  function TrimNewline(raw: Text): Text {
    if raw != [] && raw[|raw| - 1] == NEWLINE then raw[..|raw| - 1] else raw
  }

  /** The verdict on a whole file. */
  function Verify(mac: Text -> Text, parse: Text -> Option<Value>, raw: Text): Verdict {
    var text := TrimNewline(raw);
    if text == [] then Intact(0) else VerifyLines(mac, parse, Split(text, NEWLINE), GENESIS, 0)
  }

  method RunAuditVerify(mac: Text -> Text, parse: Text -> Option<Value>, raw: Option<Text>) returns (r: Verdict)
    ensures r == if raw.None? then Intact(0) else Verify(mac, parse, raw.value)
  {
    if raw.None? { return Intact(0); }
    var text := TrimNewline(raw.value);
    if text == [] { return Intact(0); }
    var lines := Split(text, NEWLINE);
    var prevHmac, prevSeq, entriesVerified := GENESIS, 0, 0;
    for i := 0 to |lines|
      invariant entriesVerified == prevSeq
      invariant VerifyLines(mac, parse, lines, GENESIS, 0) == VerifyLines(mac, parse, lines[i..], prevHmac, prevSeq)
    {
      var line := lines[i];
      assert lines[i..][0] == line && lines[i..][1..] == lines[i + 1..];
      if line == [] { continue; }
      var parsed := parse(line);
      if parsed.None? { return Broken(entriesVerified, Number(NatToken(prevSeq + 1)), ParseError); }
      var v := parsed.value;
      if v.Null? { return Threw; }
      var seqNo, hmac := GetField(v, SEQ), GetField(v, HMAC);
      if !IsNumber(seqNo) || !hmac.Str? { return Broken(entriesVerified, Number(NatToken(prevSeq + 1)), ParseError); }
      if seqNo != Number(NatToken(prevSeq + 1)) { return Broken(entriesVerified, seqNo, SeqGap); }
      var canonical := CanonicalJson.CanonicalJson(View(v));
      if canonical.Failure? { return Threw; }
      if mac(prevHmac + canonical.value) != hmac.s { return Broken(entriesVerified, seqNo, HmacMismatch); }
      prevHmac, prevSeq, entriesVerified := hmac.s, prevSeq + 1, entriesVerified + 1;
    }
    return Intact(entriesVerified);
  }

  // ----- what acceptance means ---------------------------------------------

  function HmacOf(v: Value): Text {
    if GetField(v, HMAC).Str? then GetField(v, HMAC).s else []
  }

  /** `v` is entry number `n` and its hmac covers `prev` and its six signed properties. */
  predicate Linked(mac: Text -> Text, prev: Text, n: nat, v: Value) {
    && GetField(v, SEQ) == Number(NatToken(n))
    && GetField(v, HMAC).Str?
    && Serializable(View(v))
    && HmacOf(v) == mac(prev + Canonical(View(v)))
  }

  /** Entries `base + 1 ..` chained from `prev`. */
  predicate Chained(mac: Text -> Text, vs: seq<Value>, prev: Text, base: nat)
    decreases |vs|
  {
    vs == [] || (Linked(mac, prev, base + 1, vs[0]) && Chained(mac, vs[1..], HmacOf(vs[0]), base + 1))
  }

  function PrevHmac(vs: seq<Value>, prev: Text, i: nat): Text
    requires i <= |vs|
  {
    if i == 0 then prev else HmacOf(vs[i - 1])
  }

  lemma {:induction false} ChainedAt(mac: Text -> Text, vs: seq<Value>, prev: Text, base: nat, i: nat)
    requires Chained(mac, vs, prev, base) && i < |vs|
    ensures Linked(mac, PrevHmac(vs, prev, i), base + i + 1, vs[i])
    decreases |vs|
  {
    if i > 0 {
      ChainedAt(mac, vs[1..], HmacOf(vs[0]), base + 1, i - 1);
      PrevHmacTail(vs, prev, i);
    }
  }

  lemma PrevHmacTail(vs: seq<Value>, prev: Text, i: nat)
    requires 0 < i < |vs|
    ensures PrevHmac(vs[1..], HmacOf(vs[0]), i - 1) == PrevHmac(vs, prev, i) && vs[1..][i - 1] == vs[i]
  {
  }

  /** The parsed non-empty lines, if every one of them parses. */
  function Entries(parse: Text -> Option<Value>, lines: seq<Text>): Option<seq<Value>> {
    if lines == [] then Some([])
    else if lines[0] == [] then Entries(parse, lines[1..])
    else
      match (parse(lines[0]), Entries(parse, lines[1..]))
      case (Some(v), Some(vs)) => Some([v] + vs)
      case _ => None
  }

  /** `audit verify` accepts exactly the chains that start at the genesis value and number from 1. */
  lemma {:induction false} AcceptsExactlyChains(
    mac: Text -> Text, parse: Text -> Option<Value>, lines: seq<Text>, prev: Text, base: nat, n: nat)
    ensures VerifyLines(mac, parse, lines, prev, base) == Intact(n) <==>
            var es := Entries(parse, lines); es.Some? && Chained(mac, es.value, prev, base) && n == base + |es.value|
  {
    if lines != [] {
      var rest := lines[1..];
      if lines[0] == [] {
        AcceptsExactlyChains(mac, parse, rest, prev, base, n);
      } else {
        var check := CheckLine(mac, parse(lines[0]), prev, base);
        if check.Accept? {
          AcceptsExactlyChains(mac, parse, rest, check.hmac, base + 1, n);
        }
        var es := Entries(parse, lines);
        if es.Some? {
          assert es.value[1..] == Entries(parse, rest).value;
        }
      }
    }
  }

  /** The token of a number is its decimal digits, without a leading zero. */
  lemma NatTokenIsDecimal(n: nat, d: nat)
    requires d < 10
    ensures NatToken(d) == [0x30 + d]
    ensures n > 0 ==> NatToken(10 * n + d) == NatToken(n) + [0x30 + d]
  {
    assert (10 * n + d) / 10 == n && (10 * n + d) % 10 == d;
  }

  // ----- what a broken verdict means ---------------------------------------

  /** How a line fails that should be entry number `n`: it does not parse, or is no entry; or its number is
      another one, which is then reported; or its hmac is not the hash of `prev` and its signed properties. */
  predicate FailsAs(mac: Text -> Text, parsed: Option<Value>, prev: Text, n: nat, at: Value, reason: Reason) {
    match reason
    case ParseError =>
      && at == Number(NatToken(n))
      && (parsed.None? || (!parsed.value.Null? && !(IsNumber(GetField(parsed.value, SEQ)) && GetField(parsed.value, HMAC).Str?)))
    case SeqGap =>
      && parsed.Some? && !parsed.value.Null? && GetField(parsed.value, HMAC).Str?
      && at == GetField(parsed.value, SEQ) && IsNumber(at) && at != Number(NatToken(n))
    case HmacMismatch =>
      && parsed.Some? && GetField(parsed.value, SEQ) == at == Number(NatToken(n)) && GetField(parsed.value, HMAC).Str?
      && Serializable(View(parsed.value))
      && mac(prev + Canonical(View(parsed.value))) != HmacOf(parsed.value)
  }

  /** The lines before line `k` are the entries `base + 1 .. n` of a chain from `prev`, and line `k` fails. */
  ghost predicate BreaksAt(mac: Text -> Text, parse: Text -> Option<Value>, lines: seq<Text>, prev: Text, base: nat, n: nat,
                           at: Value, reason: Reason, k: nat)
  {
    && k < |lines| && lines[k] != []
    && var es := Entries(parse, lines[..k]);
       && es.Some? && Chained(mac, es.value, prev, base) && n == base + |es.value|
       && FailsAs(mac, parse(lines[k]), PrevHmac(es.value, prev, |es.value|), n + 1, at, reason)
  }

  ghost predicate SomeLineBreaks(mac: Text -> Text, parse: Text -> Option<Value>, lines: seq<Text>, prev: Text, base: nat,
                                 n: nat, at: Value, reason: Reason)
  {
    exists k: nat :: BreaksAt(mac, parse, lines, prev, base, n, at, reason, k)
  }

  lemma {:induction false} RejectIff(mac: Text -> Text, parsed: Option<Value>, prev: Text, base: nat, at: Value, reason: Reason)
    ensures CheckLine(mac, parsed, prev, base) == Reject(at, reason) <==> FailsAs(mac, parsed, prev, base + 1, at, reason)
  {
  }

  lemma {:induction false} AcceptIff(mac: Text -> Text, parsed: Option<Value>, prev: Text, base: nat, hmac: Text)
    ensures CheckLine(mac, parsed, prev, base) == Accept(hmac) <==>
            parsed.Some? && Linked(mac, prev, base + 1, parsed.value) && hmac == HmacOf(parsed.value)
  {
  }

  lemma {:induction false} BreaksFirst(mac: Text -> Text, parse: Text -> Option<Value>, lines: seq<Text>, prev: Text, base: nat,
                                       n: nat, at: Value, reason: Reason)
    requires lines != []
    ensures BreaksAt(mac, parse, lines, prev, base, n, at, reason, 0) <==>
            lines[0] != [] && n == base && FailsAs(mac, parse(lines[0]), prev, base + 1, at, reason)
  {
    assert lines[..0] == [];
  }

  /** A later position, seen from the rest of the lines. */
  lemma {:induction false} BreaksLater(mac: Text -> Text, parse: Text -> Option<Value>, lines: seq<Text>, prev: Text, base: nat,
                                       n: nat, at: Value, reason: Reason, k: nat)
    requires 0 < k < |lines|
    ensures BreaksAt(mac, parse, lines, prev, base, n, at, reason, k) <==>
            if lines[0] == [] then BreaksAt(mac, parse, lines[1..], prev, base, n, at, reason, k - 1)
            else parse(lines[0]).Some? && Linked(mac, prev, base + 1, parse(lines[0]).value)
                 && BreaksAt(mac, parse, lines[1..], HmacOf(parse(lines[0]).value), base + 1, n, at, reason, k - 1)
  {
    var first, rest := lines[..k], lines[1..][..k - 1];
    assert first[0] == lines[0] && first[1..] == rest && lines[1..][k - 1] == lines[k];
    if lines[0] != [] && parse(lines[0]).Some? && Entries(parse, rest).Some? {
      ConsChain(mac, parse(lines[0]).value, Entries(parse, rest).value, prev, base);
    }
  }

  lemma ConsChain(mac: Text -> Text, v: Value, vs: seq<Value>, prev: Text, base: nat)
    ensures Chained(mac, [v] + vs, prev, base) <==> Linked(mac, prev, base + 1, v) && Chained(mac, vs, HmacOf(v), base + 1)
    ensures PrevHmac([v] + vs, prev, |vs| + 1) == PrevHmac(vs, HmacOf(v), |vs|)
  {
    assert ([v] + vs)[1..] == vs;
  }

  lemma {:induction false} SomeLineBreaksStep(mac: Text -> Text, parse: Text -> Option<Value>, lines: seq<Text>, prev: Text, base: nat,
                                              n: nat, at: Value, reason: Reason)
    requires lines != []
    ensures SomeLineBreaks(mac, parse, lines, prev, base, n, at, reason) <==>
            if lines[0] == [] then SomeLineBreaks(mac, parse, lines[1..], prev, base, n, at, reason)
            else || (n == base && FailsAs(mac, parse(lines[0]), prev, base + 1, at, reason))
                 || (parse(lines[0]).Some? && Linked(mac, prev, base + 1, parse(lines[0]).value)
                     && SomeLineBreaks(mac, parse, lines[1..], HmacOf(parse(lines[0]).value), base + 1, n, at, reason))
  {
    BreaksFirst(mac, parse, lines, prev, base, n, at, reason);
    if SomeLineBreaks(mac, parse, lines, prev, base, n, at, reason) {
      var k: nat :| BreaksAt(mac, parse, lines, prev, base, n, at, reason, k);
      if k > 0 { BreaksLater(mac, parse, lines, prev, base, n, at, reason, k); }
    }
    if lines[0] == [] {
      RestBreaks(mac, parse, lines, prev, base, prev, base, n, at, reason);
    } else if parse(lines[0]).Some? && Linked(mac, prev, base + 1, parse(lines[0]).value) {
      RestBreaks(mac, parse, lines, prev, base, HmacOf(parse(lines[0]).value), base + 1, n, at, reason);
    }
  }

  /** What breaks behind the first line breaks the whole. */
  lemma {:induction false} RestBreaks(mac: Text -> Text, parse: Text -> Option<Value>, lines: seq<Text>, prev: Text, base: nat,
                                      hmac: Text, next: nat, n: nat, at: Value, reason: Reason)
    requires lines != []
    requires if lines[0] == [] then hmac == prev && next == base
             else parse(lines[0]).Some? && Linked(mac, prev, base + 1, parse(lines[0]).value)
                  && hmac == HmacOf(parse(lines[0]).value) && next == base + 1
    ensures SomeLineBreaks(mac, parse, lines[1..], hmac, next, n, at, reason) ==> SomeLineBreaks(mac, parse, lines, prev, base, n, at, reason)
  {
    var rest := lines[1..];
    if k: nat :| BreaksAt(mac, parse, rest, hmac, next, n, at, reason, k) {
      BreaksLater(mac, parse, lines, prev, base, n, at, reason, k + 1);
    }
  }

  /** `audit verify` reports a broken chain exactly when some line fails behind lines that form a chain: it gives the
      number of those, the reason, and the number at which it failed. */
  lemma {:induction false} VerifyBreaksIff(mac: Text -> Text, parse: Text -> Option<Value>, lines: seq<Text>, prev: Text, base: nat,
                                           n: nat, at: Value, reason: Reason)
    ensures VerifyLines(mac, parse, lines, prev, base) == Broken(n, at, reason) <==>
            exists k: nat :: BreaksAt(mac, parse, lines, prev, base, n, at, reason, k)
    decreases |lines|, 1
  {
    if lines != [] {
      SomeLineBreaksStep(mac, parse, lines, prev, base, n, at, reason);
      if lines[0] == [] {
        VerifyBreaksIff(mac, parse, lines[1..], prev, base, n, at, reason);
      } else {
        BreaksOrGoesOn(mac, parse, lines, prev, base, n, at, reason);
      }
    }
  }

  lemma {:induction false} BreaksOrGoesOn(mac: Text -> Text, parse: Text -> Option<Value>, lines: seq<Text>, prev: Text, base: nat,
                                          n: nat, at: Value, reason: Reason)
    requires lines != [] && lines[0] != []
    ensures VerifyLines(mac, parse, lines, prev, base) == Broken(n, at, reason) <==>
            || (n == base && FailsAs(mac, parse(lines[0]), prev, base + 1, at, reason))
            || (parse(lines[0]).Some? && Linked(mac, prev, base + 1, parse(lines[0]).value)
                && SomeLineBreaks(mac, parse, lines[1..], HmacOf(parse(lines[0]).value), base + 1, n, at, reason))
    decreases |lines|, 0
  {
    RejectIff(mac, parse(lines[0]), prev, base, at, reason);
    var check := CheckLine(mac, parse(lines[0]), prev, base);
    VerifyTail(mac, parse, lines, prev, base);
    if check.Accept? {
      AcceptIff(mac, parse(lines[0]), prev, base, check.hmac);
      VerifyBreaksIff(mac, parse, lines[1..], check.hmac, base + 1, n, at, reason);
    } else if parse(lines[0]).Some? {
      AcceptIff(mac, parse(lines[0]), prev, base, HmacOf(parse(lines[0]).value));
    }
  }

  // ----- when verify throws -----------------------------------------------

  /** A line that is `null`, or that has the expected number and a string hmac but a signed property missing
      or not representable in JSON. */
  predicate Raises(parsed: Option<Value>, prevSeq: nat) {
    parsed.Some? &&
    (|| parsed.value.Null?
     || (&& GetField(parsed.value, SEQ) == Number(NatToken(prevSeq + 1))
         && GetField(parsed.value, HMAC).Str?
         && !Serializable(View(parsed.value))))
  }

  /** Line `k` is the first that is not accepted, and it raises. */
  predicate RaisesAt(mac: Text -> Text, parse: Text -> Option<Value>, lines: seq<Text>, prevHmac: Text, prevSeq: nat, k: nat) {
    k < |lines| && lines[k] != []
    && VerifyLines(mac, parse, lines[..k], prevHmac, prevSeq).Intact?
    && Raises(parse(lines[k]), VerifyLines(mac, parse, lines[..k], prevHmac, prevSeq).entriesVerified)
  }

  lemma {:induction false} RaiseIff(mac: Text -> Text, parsed: Option<Value>, prevHmac: Text, prevSeq: nat)
    ensures CheckLine(mac, parsed, prevHmac, prevSeq) == Raise <==> Raises(parsed, prevSeq)
  {
  }

  /** Accepting the first line leaves the verdict to the rest. */
  lemma {:induction false} VerifyTail(mac: Text -> Text, parse: Text -> Option<Value>, lines: seq<Text>, prevHmac: Text, prevSeq: nat)
    requires lines != []
    ensures var check := CheckLine(mac, parse(lines[0]), prevHmac, prevSeq);
            VerifyLines(mac, parse, lines, prevHmac, prevSeq) ==
            if lines[0] == [] then VerifyLines(mac, parse, lines[1..], prevHmac, prevSeq)
            else if check.Raise? then Threw
            else if check.Reject? then Broken(prevSeq, check.failedAtSeq, check.reason)
            else VerifyLines(mac, parse, lines[1..], check.hmac, prevSeq + 1)
  {
  }

  /** How a position of the rest is a position of the whole, one line later. */
  lemma {:induction false} RaisesLater(mac: Text -> Text, parse: Text -> Option<Value>, lines: seq<Text>, prevHmac: Text, prevSeq: nat, k: nat)
    requires 0 < k < |lines|
    ensures var check := CheckLine(mac, parse(lines[0]), prevHmac, prevSeq);
            RaisesAt(mac, parse, lines, prevHmac, prevSeq, k) <==>
            if lines[0] == [] then RaisesAt(mac, parse, lines[1..], prevHmac, prevSeq, k - 1)
            else check.Accept? && RaisesAt(mac, parse, lines[1..], check.hmac, prevSeq + 1, k - 1)
  {
    assert lines[..k][0] == lines[0] && lines[..k][1..] == lines[1..][..k - 1] && lines[1..][k - 1] == lines[k];
    VerifyTail(mac, parse, lines[..k], prevHmac, prevSeq);
  }

  lemma {:induction false} RaisesFirst(mac: Text -> Text, parse: Text -> Option<Value>, lines: seq<Text>, prevHmac: Text, prevSeq: nat)
    requires lines != []
    ensures RaisesAt(mac, parse, lines, prevHmac, prevSeq, 0) <==> lines[0] != [] && Raises(parse(lines[0]), prevSeq)
  {
    assert lines[..0] == [];
  }

  ghost predicate SomeLineRaises(mac: Text -> Text, parse: Text -> Option<Value>, lines: seq<Text>, prevHmac: Text, prevSeq: nat) {
    exists k: nat :: RaisesAt(mac, parse, lines, prevHmac, prevSeq, k)
  }

  lemma {:induction false} SomeLineRaisesStep(mac: Text -> Text, parse: Text -> Option<Value>, lines: seq<Text>, prevHmac: Text, prevSeq: nat)
    requires lines != []
    ensures var check := CheckLine(mac, parse(lines[0]), prevHmac, prevSeq);
            SomeLineRaises(mac, parse, lines, prevHmac, prevSeq) <==>
            if lines[0] == [] then SomeLineRaises(mac, parse, lines[1..], prevHmac, prevSeq)
            else check.Raise? || (check.Accept? && SomeLineRaises(mac, parse, lines[1..], check.hmac, prevSeq + 1))
  {
    var check := CheckLine(mac, parse(lines[0]), prevHmac, prevSeq);
    RaisesFirst(mac, parse, lines, prevHmac, prevSeq);
    RaiseIff(mac, parse(lines[0]), prevHmac, prevSeq);
    if SomeLineRaises(mac, parse, lines, prevHmac, prevSeq) {
      var k: nat :| RaisesAt(mac, parse, lines, prevHmac, prevSeq, k);
      if k > 0 { RaisesLater(mac, parse, lines, prevHmac, prevSeq, k); }
    }
    if lines[0] == [] && SomeLineRaises(mac, parse, lines[1..], prevHmac, prevSeq) {
      var k: nat :| RaisesAt(mac, parse, lines[1..], prevHmac, prevSeq, k);
      RaisesLater(mac, parse, lines, prevHmac, prevSeq, k + 1);
    }
    if lines[0] != [] && check.Accept? && SomeLineRaises(mac, parse, lines[1..], check.hmac, prevSeq + 1) {
      var k: nat :| RaisesAt(mac, parse, lines[1..], check.hmac, prevSeq + 1, k);
      RaisesLater(mac, parse, lines, prevHmac, prevSeq, k + 1);
    }
  }

  /** `audit verify` throws exactly when the first line it does not accept is `null`, or is numbered right, has
      a string hmac, and lacks a signed property or has one that `canonicalJson` rejects. */
  lemma {:induction false} VerifyThrowsIff(mac: Text -> Text, parse: Text -> Option<Value>, lines: seq<Text>, prevHmac: Text, prevSeq: nat)
    ensures VerifyLines(mac, parse, lines, prevHmac, prevSeq) == Threw <==>
            exists k: nat :: RaisesAt(mac, parse, lines, prevHmac, prevSeq, k)
  {
    if lines != [] {
      var check := CheckLine(mac, parse(lines[0]), prevHmac, prevSeq);
      VerifyTail(mac, parse, lines, prevHmac, prevSeq);
      SomeLineRaisesStep(mac, parse, lines, prevHmac, prevSeq);
      if lines[0] == [] {
        VerifyThrowsIff(mac, parse, lines[1..], prevHmac, prevSeq);
      } else if check.Accept? {
        VerifyThrowsIff(mac, parse, lines[1..], check.hmac, prevSeq + 1);
      }
    }
  }

  /** After any accepted lines, a line that raises ends verification with an exception. */
  lemma {:induction false} RaisingLineThrows(mac: Text -> Text, parse: Text -> Option<Value>, lines: seq<Text>, line: Text)
    requires VerifyLines(mac, parse, lines, GENESIS, 0).Intact? && line != []
    requires Raises(parse(line), VerifyLines(mac, parse, lines, GENESIS, 0).entriesVerified)
    ensures VerifyLines(mac, parse, lines + [line], GENESIS, 0) == Threw
  {
    var all := lines + [line];
    assert all[..|lines|] == lines;
    assert RaisesAt(mac, parse, all, GENESIS, 0, |lines|);
    VerifyThrowsIff(mac, parse, all, GENESIS, 0);
  }

  /** A `null` line, whatever has been accepted before it. */
  lemma {:induction false} NullLineThrows(mac: Text -> Text, parse: Text -> Option<Value>, lines: seq<Text>)
    requires VerifyLines(mac, parse, lines, GENESIS, 0).Intact? && parse(NULL_TEXT) == Some(Null)
    ensures VerifyLines(mac, parse, lines + [NULL_TEXT], GENESIS, 0) == Threw
  {
    RaisingLineThrows(mac, parse, lines, NULL_TEXT);
  }

  /** The `n`-th line with only a number and an hmac. */
  function BareEntry(n: nat): Value { Obj([Field(SEQ, Number(NatToken(n))), Field(HMAC, Str([]))]) }

  lemma {:induction false} BareEntryIsPlain(n: nat)
    ensures Plain(BareEntry(n)) && Print(BareEntry(n)) != []
    ensures GetField(BareEntry(n), SEQ) == Number(NatToken(n)) && GetField(BareEntry(n), HMAC) == Str([])
    ensures GetField(BareEntry(n), ACTOR) == Unsupported
  {
    assert SEQ[0] == 0x73 && HMAC[0] == 0x68 && ACTOR[0] == 0x61;
    var a, b := Field(SEQ, Number(NatToken(n))), Field(HMAC, Str([]));
    assert BareEntry(n).fields == [a, b] && [a, b][1..] == [b] && [b][1..] == [];
    assert Lookup([b], HMAC) == Str([]) && Lookup([b], ACTOR) == Lookup([], ACTOR) == Unsupported;
    PrintStart(BareEntry(n));
  }

  /** A line without an `actor`, whatever has been accepted before it. */
  lemma {:induction false} MissingActorThrows(js: Value -> bool, mac: Text -> Text, parse: Text -> Option<Value>, lines: seq<Text>)
    requires FaithfulParser(js, parse) && VerifyLines(mac, parse, lines, GENESIS, 0).Intact?
    requires js(BareEntry(VerifyLines(mac, parse, lines, GENESIS, 0).entriesVerified + 1))
    ensures var n := VerifyLines(mac, parse, lines, GENESIS, 0).entriesVerified;
            VerifyLines(mac, parse, lines + [Print(BareEntry(n + 1))], GENESIS, 0) == Threw
  {
    var n := VerifyLines(mac, parse, lines, GENESIS, 0).entriesVerified;
    BareEntryRaises(js, parse, n);
    RaisingLineThrows(mac, parse, lines, Print(BareEntry(n + 1)));
  }

  lemma {:induction false} BareEntryRaises(js: Value -> bool, parse: Text -> Option<Value>, n: nat)
    requires FaithfulParser(js, parse) && js(BareEntry(n + 1))
    ensures Print(BareEntry(n + 1)) != [] && Raises(parse(Print(BareEntry(n + 1))), n)
  {
    BareEntryIsPlain(n + 1);
    ActorIsSigned(BareEntry(n + 1));
  }

  lemma ActorIsSigned(v: Value)
    requires GetField(v, ACTOR) == Unsupported
    ensures !Serializable(View(v))
  {
    assert View(v).fields[0].value == Unsupported;
  }

  /** A complete line whose payload holds a numeral that overflows, whatever has been accepted before it. */
  lemma {:induction false} OverflowThrows(mac: Text -> Text, parse: Text -> Option<Value>, lines: seq<Text>, line: Text, key: Text)
    requires VerifyLines(mac, parse, lines, GENESIS, 0).Intact? && line != [] && parse(line).Some?
    requires var v := parse(line).value;
             && GetField(v, SEQ) == Number(NatToken(VerifyLines(mac, parse, lines, GENESIS, 0).entriesVerified + 1))
             && GetField(v, HMAC).Str? && GetField(GetField(v, PAYLOAD), key) == NonFinite
    ensures VerifyLines(mac, parse, lines + [line], GENESIS, 0) == Threw
  {
    OverflowIsSigned(parse(line).value, key);
    RaisingLineThrows(mac, parse, lines, line);
  }

  lemma {:induction false} OverflowIsSigned(v: Value, key: Text)
    requires GetField(GetField(v, PAYLOAD), key) == NonFinite
    ensures !Serializable(View(v))
  {
    var payload := GetField(v, PAYLOAD);
    NonFiniteField(payload.fields, key);
    assert !Serializable(payload);
    assert View(v).fields[2].value == payload;
  }

  lemma {:induction false} NonFiniteField(fields: seq<Field>, key: Text)
    requires Lookup(fields, key) == NonFinite
    ensures exists i :: 0 <= i < |fields| && fields[i].value == NonFinite
  {
    if fields[0].key == key {
      assert fields[0].value == NonFinite;
    } else {
      NonFiniteField(fields[1..], key);
      var i :| 0 <= i < |fields[1..]| && fields[1..][i].value == NonFinite;
      assert fields[i + 1].value == NonFinite;
    }
  }

  // ----- tamper evidence --------------------------------------------------

  /** What a chain link depends on: the canonical text of an entry and its hmac. */
  datatype Link = Link(content: Text, hash: Text)

  function HashBefore(ls: seq<Link>, i: nat): Text
    requires i <= |ls|
  {
    if i == 0 then GENESIS else ls[i - 1].hash
  }

  /** What was hashed for link `i`. */
  function MacInput(ls: seq<Link>, i: nat): Text
    requires i < |ls|
  {
    HashBefore(ls, i) + ls[i].content
  }

  ghost predicate HashChain(mac: Text -> Text, ls: seq<Link>) {
    forall i :: 0 <= i < |ls| ==> ls[i].hash == mac(MacInput(ls, i))
  }

  /** Link `i` of one chain and link `j` of another: different inputs, one hash. */
  ghost predicate Collision(mac: Text -> Text, ls: seq<Link>, ks: seq<Link>, i: nat, j: nat) {
    i < |ls| && j < |ks| && MacInput(ls, i) != MacInput(ks, j) && mac(MacInput(ls, i)) == mac(MacInput(ks, j))
  }

  ghost predicate Collides(mac: Text -> Text, ls: seq<Link>, ks: seq<Link>) {
    exists i, j :: Collision(mac, ls, ks, i, j)
  }

  /** Equal contents stand at equal positions, because the position is part of the content. */
  ghost predicate Numbered(ls: seq<Link>, ks: seq<Link>) {
    forall i, j :: 0 <= i < |ls| && 0 <= j < |ks| && ls[i].content == ks[j].content ==> i == j
  }

  lemma {:induction false} SameParts(p: Text, x: Text, q: Text, y: Text)
    requires |p| == |q| && p + x == q + y
    ensures p == q && x == y
  {
    assert (p + x)[..|p|] == p && (q + y)[..|q|] == q;
    assert (p + x)[|p|..] == x && (q + y)[|q|..] == y;
  }

  lemma {:induction false} HashLength(mac: Text -> Text, ls: seq<Link>, i: nat)
    requires FixedLength(mac) && HashChain(mac, ls) && i <= |ls|
    ensures |HashBefore(ls, i)| == MAC_LENGTH
  {
    if i > 0 {
      assert ls[i - 1].hash == mac(MacInput(ls, i - 1));
    }
  }

  lemma {:induction false} SameHashSameLink(mac: Text -> Text, ls: seq<Link>, ks: seq<Link>, i: nat, j: nat)
    requires FixedLength(mac) && HashChain(mac, ls) && HashChain(mac, ks)
    requires i < |ls| && j < |ks| && ls[i].hash == ks[j].hash && !Collision(mac, ls, ks, i, j)
    ensures HashBefore(ls, i) == HashBefore(ks, j) && ls[i] == ks[j]
  {
    HashLength(mac, ls, i);
    HashLength(mac, ks, j);
    assert mac(MacInput(ls, i)) == mac(MacInput(ks, j));
    SameParts(HashBefore(ls, i), ls[i].content, HashBefore(ks, j), ks[j].content);
  }

  lemma {:induction false} SamePosition(ls: seq<Link>, ks: seq<Link>, i: nat, j: nat)
    requires Numbered(ls, ks) && i < |ls| && j < |ks| && ls[i] == ks[j]
    ensures i == j
  {
  }

  lemma {:induction false} NoCollision(mac: Text -> Text, ls: seq<Link>, ks: seq<Link>, i: nat, j: nat)
    requires !Collides(mac, ls, ks)
    ensures !Collision(mac, ls, ks, i, j)
  {
  }

  ghost predicate SameUpTo(ls: seq<Link>, ks: seq<Link>, n: nat) {
    n < |ls| && n < |ks| && forall k :: 0 <= k <= n ==> ls[k] == ks[k]
  }

  /** Without a collision, equal hashes force equal positions and equal histories. */
  lemma {:induction false} SameHashSameHistory(mac: Text -> Text, ls: seq<Link>, ks: seq<Link>, i: nat, j: nat)
    requires FixedLength(mac) && HashChain(mac, ls) && HashChain(mac, ks) && Numbered(ls, ks)
    requires i < |ls| && j < |ks| && ls[i].hash == ks[j].hash && !Collides(mac, ls, ks)
    ensures i == j && SameUpTo(ls, ks, i)
    decreases i
  {
    NoCollision(mac, ls, ks, i, j);
    SameHashSameLink(mac, ls, ks, i, j);
    SamePosition(ls, ks, i, j);
    if i > 0 {
      SameHashSameHistory(mac, ls, ks, i - 1, j - 1);
    }
  }

  function LinkOf(v: Value): Link { Link(Canonical(View(v)), HmacOf(v)) }

  function Links(vs: seq<Value>): (ls: seq<Link>)
    ensures |ls| == |vs| && forall i :: 0 <= i < |vs| ==> ls[i] == LinkOf(vs[i])
  {
    if vs == [] then [] else [LinkOf(vs[0])] + Links(vs[1..])
  }

  /** The same signed content up to property order, and the same hmac. */
  predicate SameEntry(v: Value, w: Value) {
    MeaningOf(View(v)) == MeaningOf(View(w)) && HmacOf(v) == HmacOf(w)
  }

  ghost predicate SameLog(vs: seq<Value>, ws: seq<Value>) {
    |vs| == |ws| && forall i :: 0 <= i < |vs| ==> SameEntry(vs[i], ws[i])
  }

  lemma {:induction false} LookupAt(fields: seq<Field>, i: nat)
    requires UniqueKeys(fields) && i < |fields|
    ensures Lookup(fields, fields[i].key) == fields[i].value
    ensures fields[i].key in FieldsMeaning(fields)
    ensures FieldsMeaning(fields)[fields[i].key] == MeaningOf(fields[i].value)
  {
    if i > 0 {
      LookupAt(fields[1..], i - 1);
    }
  }

  lemma {:induction false} LookupIsWellFormed(fields: seq<Field>, key: Text)
    requires forall i :: 0 <= i < |fields| ==> WellFormed(fields[i].value)
    ensures WellFormed(Lookup(fields, key))
  {
    if fields != [] { LookupIsWellFormed(fields[1..], key); }
  }

  lemma {:induction false} FieldIsWellFormed(v: Value, key: Text)
    requires WellFormed(v)
    ensures WellFormed(GetField(v, key))
  {
    if v.Obj? { LookupIsWellFormed(v.fields, key); }
  }

  lemma {:induction false} ViewKeysAreUnique(v: Value)
    ensures UniqueKeys(View(v).fields)
  {
    SignedKeysAreUnique(GetField(v, ACTOR), GetField(v, EVENT), GetField(v, PAYLOAD), GetField(v, PLATFORM),
                        GetField(v, SEQ), GetField(v, TIMESTAMP), Null);
  }

  lemma {:induction false} ViewIsPlain(v: Value)
    requires WellFormed(v) && Serializable(View(v))
    ensures Plain(View(v))
  {
    FieldIsWellFormed(v, ACTOR);
    FieldIsWellFormed(v, EVENT);
    FieldIsWellFormed(v, PAYLOAD);
    FieldIsWellFormed(v, PLATFORM);
    FieldIsWellFormed(v, SEQ);
    FieldIsWellFormed(v, TIMESTAMP);
    ViewKeysAreUnique(v);
  }

  /** The number of an entry is part of its signed content. */
  lemma {:induction false} SameContentSameNumber(v: Value, w: Value, m: nat, n: nat)
    requires MeaningOf(View(v)) == MeaningOf(View(w))
    requires GetField(v, SEQ) == Number(NatToken(m)) && GetField(w, SEQ) == Number(NatToken(n))
    ensures m == n
  {
    ViewKeysAreUnique(v);
    ViewKeysAreUnique(w);
    LookupAt(View(v).fields, 4);
    LookupAt(View(w).fields, 4);
    NatTokenIsInjective(m, n);
  }

  ghost predicate AllPlain(vs: seq<Value>) {
    forall i :: 0 <= i < |vs| ==> WellFormed(vs[i])
  }

  lemma {:induction false} SameContent(v: Value, w: Value, mac: Text -> Text, p: Text, q: Text, m: nat, n: nat)
    requires WellFormed(v) && WellFormed(w) && Linked(mac, p, m, v) && Linked(mac, q, n, w)
    requires Canonical(View(v)) == Canonical(View(w))
    ensures MeaningOf(View(v)) == MeaningOf(View(w)) && m == n
  {
    ViewIsPlain(v);
    ViewIsPlain(w);
    CanonicalIffSameMeaning(View(v), View(w));
    SameContentSameNumber(v, w, m, n);
  }

  ghost predicate AllLinked(mac: Text -> Text, vs: seq<Value>) {
    forall i :: 0 <= i < |vs| ==> Linked(mac, PrevHmac(vs, GENESIS, i), i + 1, vs[i])
  }

  lemma {:induction false} ChainedIsLinked(mac: Text -> Text, vs: seq<Value>)
    requires Chained(mac, vs, GENESIS, 0)
    ensures AllLinked(mac, vs)
  {
    forall i | 0 <= i < |vs| ensures Linked(mac, PrevHmac(vs, GENESIS, i), i + 1, vs[i]) {
      ChainedFromStart(mac, vs, GENESIS, i);
    }
  }

  lemma {:induction false} ChainedFromStart(mac: Text -> Text, vs: seq<Value>, prev: Text, i: nat)
    requires Chained(mac, vs, prev, 0) && i < |vs|
    ensures Linked(mac, PrevHmac(vs, prev, i), i + 1, vs[i])
  {
    ChainedAt(mac, vs, prev, 0, i);
  }

  lemma {:induction false} LinkedIsHashChain(mac: Text -> Text, vs: seq<Value>)
    requires AllLinked(mac, vs)
    ensures HashChain(mac, Links(vs))
  {
  }

  lemma {:induction false} LinkedAt(mac: Text -> Text, vs: seq<Value>, i: nat)
    requires AllPlain(vs) && AllLinked(mac, vs) && i < |vs|
    ensures WellFormed(vs[i]) && Linked(mac, PrevHmac(vs, GENESIS, i), i + 1, vs[i])
  {
  }

  /** `v` is a well-formed entry number `n` of some chain. */
  ghost predicate Positioned(mac: Text -> Text, v: Value, n: nat) {
    WellFormed(v) && exists p :: Linked(mac, p, n, v)
  }

  lemma {:induction false} PositionedAt(mac: Text -> Text, vs: seq<Value>, i: nat)
    requires AllPlain(vs) && AllLinked(mac, vs) && i < |vs|
    ensures Positioned(mac, vs[i], i + 1)
  {
    LinkedAt(mac, vs, i);
  }

  lemma {:induction false} SameContentSamePosition(mac: Text -> Text, v: Value, w: Value, m: nat, n: nat)
    requires Positioned(mac, v, m) && Positioned(mac, w, n) && LinkOf(v).content == LinkOf(w).content
    ensures m == n
  {
    var p :| Linked(mac, p, m, v);
    var q :| Linked(mac, q, n, w);
    SameContent(v, w, mac, p, q, m, n);
  }

  ghost predicate AllPositioned(mac: Text -> Text, vs: seq<Value>) {
    forall i :: 0 <= i < |vs| ==> Positioned(mac, vs[i], i + 1)
  }

  lemma {:induction false} LinkedIsPositioned(mac: Text -> Text, vs: seq<Value>)
    requires AllPlain(vs) && AllLinked(mac, vs)
    ensures AllPositioned(mac, vs)
  {
    forall i | 0 <= i < |vs| ensures Positioned(mac, vs[i], i + 1) { PositionedAt(mac, vs, i); }
  }

  lemma {:induction false} PositionedPair(mac: Text -> Text, vs: seq<Value>, ws: seq<Value>, i: nat, j: nat)
    requires AllPositioned(mac, vs) && AllPositioned(mac, ws)
    requires i < |vs| && j < |ws| && LinkOf(vs[i]).content == LinkOf(ws[j]).content
    ensures i == j
  {
    SameContentSamePosition(mac, vs[i], ws[j], i + 1, j + 1);
  }

  lemma {:induction false} PositionedIsNumbered(mac: Text -> Text, vs: seq<Value>, ws: seq<Value>)
    requires AllPositioned(mac, vs) && AllPositioned(mac, ws)
    ensures Numbered(Links(vs), Links(ws))
  {
    forall i, j | 0 <= i < |vs| && 0 <= j < |ws| && Links(vs)[i].content == Links(ws)[j].content ensures i == j {
      PositionedPair(mac, vs, ws, i, j);
    }
  }

  lemma {:induction false} ChainedIsNumbered(mac: Text -> Text, vs: seq<Value>, ws: seq<Value>)
    requires AllPlain(vs) && AllPlain(ws) && AllLinked(mac, vs) && AllLinked(mac, ws)
    ensures Numbered(Links(vs), Links(ws))
  {
    LinkedIsPositioned(mac, vs);
    LinkedIsPositioned(mac, ws);
    PositionedIsNumbered(mac, vs, ws);
  }

  lemma {:induction false} SameLinkSameEntry(mac: Text -> Text, v: Value, w: Value, p: Text, q: Text, m: nat, n: nat)
    requires WellFormed(v) && WellFormed(w) && Linked(mac, p, m, v) && Linked(mac, q, n, w)
    requires LinkOf(v) == LinkOf(w)
    ensures SameEntry(v, w)
  {
    SameContent(v, w, mac, p, q, m, n);
  }

  /** Two chains that end in the same hmac are the same log, or exhibit a hash collision. */
  lemma {:induction false} SameHeadSameLog(mac: Text -> Text, vs: seq<Value>, ws: seq<Value>)
    requires FixedLength(mac) && AllPlain(vs) && AllPlain(ws) && AllLinked(mac, vs) && AllLinked(mac, ws)
    requires vs != [] && ws != [] && HmacOf(vs[|vs| - 1]) == HmacOf(ws[|ws| - 1])
    ensures SameLog(vs, ws) || Collides(mac, Links(vs), Links(ws))
  {
    var ls, ks := Links(vs), Links(ws);
    LinkedIsHashChain(mac, vs);
    LinkedIsHashChain(mac, ws);
    ChainedIsNumbered(mac, vs, ws);
    if !Collides(mac, ls, ks) {
      SameHashSameHistory(mac, ls, ks, |vs| - 1, |ws| - 1);
      forall i | 0 <= i < |vs| ensures SameEntry(vs[i], ws[i]) {
        assert ls[i] == ks[i];
        SameLinkSameEntry(mac, vs[i], ws[i], PrevHmac(vs, GENESIS, i), PrevHmac(ws, GENESIS, i), i + 1, i + 1);
      }
    }
  }

  /** Two accepted non-empty logs that end in the same hmac are the same log, or exhibit a hash collision. */
  lemma {:induction false} TamperEvidence(mac: Text -> Text, parse: Text -> Option<Value>, a: seq<Text>, b: seq<Text>, m: nat, n: nat)
    requires WellFormedParser(parse) && FixedLength(mac)
    requires VerifyLines(mac, parse, a, GENESIS, 0) == Intact(m) && VerifyLines(mac, parse, b, GENESIS, 0) == Intact(n)
    requires m > 0 && n > 0
    ensures Entries(parse, a).Some? && |Entries(parse, a).value| == m
    ensures Entries(parse, b).Some? && |Entries(parse, b).value| == n
    ensures var vs, ws := Entries(parse, a).value, Entries(parse, b).value;
            HmacOf(vs[m - 1]) == HmacOf(ws[n - 1]) ==> SameLog(vs, ws) || Collides(mac, Links(vs), Links(ws))
  {
    var vs := AcceptedIsLinked(mac, parse, a, m);
    var ws := AcceptedIsLinked(mac, parse, b, n);
    if HmacOf(vs[m - 1]) == HmacOf(ws[n - 1]) { SameHeadSameLog(mac, vs, ws); }
  }

  lemma {:induction false} AcceptedIsLinked(mac: Text -> Text, parse: Text -> Option<Value>, lines: seq<Text>, n: nat) returns (vs: seq<Value>)
    requires WellFormedParser(parse) && VerifyLines(mac, parse, lines, GENESIS, 0) == Intact(n)
    ensures Entries(parse, lines) == Some(vs) && |vs| == n && AllPlain(vs) && AllLinked(mac, vs)
  {
    AcceptsExactlyChains(mac, parse, lines, GENESIS, 0, n);
    EntriesArePlain(parse, lines);
    vs := Entries(parse, lines).value;
    ChainedIsLinked(mac, vs);
  }

  lemma {:induction false} EntriesArePlain(parse: Text -> Option<Value>, lines: seq<Text>)
    requires WellFormedParser(parse) && Entries(parse, lines).Some?
    ensures AllPlain(Entries(parse, lines).value)
  {
    if lines != [] {
      EntriesArePlain(parse, lines[1..]);
    }
  }

  /** What the chain alone cannot show: every prefix of an accepted log is accepted. */
  lemma {:induction false} ChainedPrefix(mac: Text -> Text, vs: seq<Value>, prev: Text, base: nat, k: nat)
    requires Chained(mac, vs, prev, base) && k <= |vs|
    ensures Chained(mac, vs[..k], prev, base)
    decreases |vs|
  {
    if k > 0 {
      ChainedPrefix(mac, vs[1..], HmacOf(vs[0]), base + 1, k - 1);
      assert vs[..k][1..] == vs[1..][..k - 1];
    }
  }

  // ----- the writer's files ------------------------------------------------

  /** `log` is what the writer leaves behind: numbered from `base + 1`, each hmac over the one before. */
  predicate WriterChain(mac: Text -> Text, log: seq<Entry>, prev: Text, base: nat)
    decreases |log|
  {
    log == [] ||
    (&& ValidEntry(log[0]) && log[0].seqNo == base + 1
     && log[0].hmac == mac(prev + Canonical(Signed(log[0])))
     && WriterChain(mac, log[1..], log[0].hmac, base + 1))
  }

  /** What each property of a line of the log holds, and the order in which they are printed. */
  lemma {:induction false} EntryProperties(e: Entry)
    requires ValidEntry(e)
    ensures var v := Persisted(e);
            && GetField(v, ACTOR) == Str(e.actor) && GetField(v, EVENT) == Str(e.event)
            && GetField(v, PAYLOAD) == e.payload && GetField(v, PLATFORM) == e.platform
            && GetField(v, SEQ) == Number(NatToken(e.seqNo)) && GetField(v, TIMESTAMP) == Str(e.timestamp)
            && GetField(v, HMAC) == Str(e.hmac)
            && KeysOf(v.fields) == [ACTOR, EVENT, PAYLOAD, PLATFORM, SEQ, TIMESTAMP, HMAC]
  {
    var fs := Persisted(e).fields;
    EntryIsPlain(e);
    LookupAt(fs, 0);
    LookupAt(fs, 1);
    LookupAt(fs, 2);
    LookupAt(fs, 3);
    LookupAt(fs, 4);
    LookupAt(fs, 5);
    LookupAt(fs, 6);
  }

  function KeysOf(fields: seq<Field>): (r: seq<Text>)
    ensures |r| == |fields| && forall i :: 0 <= i < |r| ==> r[i] == fields[i].key
  {
    if fields == [] then [] else [fields[0].key] + KeysOf(fields[1..])
  }

  /** What is signed are these six properties of the line and nothing else. */
  lemma {:induction false} SignedProperties(v: Value)
    ensures forall k :: k in [ACTOR, EVENT, PAYLOAD, PLATFORM, SEQ, TIMESTAMP] ==> GetField(View(v), k) == GetField(v, k)
    ensures KeysOf(View(v).fields) == [ACTOR, EVENT, PAYLOAD, PLATFORM, SEQ, TIMESTAMP]
  {
    var fs := View(v).fields;
    SignedKeysAreUnique(GetField(v, ACTOR), GetField(v, EVENT), GetField(v, PAYLOAD), GetField(v, PLATFORM), GetField(v, SEQ),
                        GetField(v, TIMESTAMP), Null);
    LookupAt(fs, 0);
    LookupAt(fs, 1);
    LookupAt(fs, 2);
    LookupAt(fs, 3);
    LookupAt(fs, 4);
    LookupAt(fs, 5);
  }

  lemma {:induction false} PersistedFields(e: Entry)
    requires ValidEntry(e)
    ensures GetField(Persisted(e), HMAC) == Str(e.hmac)
    ensures GetField(Persisted(e), SEQ) == Number(NatToken(e.seqNo))
    ensures View(Persisted(e)) == Signed(e)
  {
    var fs := Persisted(e).fields;
    EntryIsPlain(e);
    LookupAt(fs, 0);
    LookupAt(fs, 1);
    LookupAt(fs, 2);
    LookupAt(fs, 3);
    LookupAt(fs, 4);
    LookupAt(fs, 5);
    LookupAt(fs, 6);
  }

  function Lines(log: seq<Entry>): seq<Text> {
    if log == [] then [] else [Line(log[0])] + Lines(log[1..])
  }

  predicate NoNewline(t: Text) { forall i :: 0 <= i < |t| ==> t[i] != NEWLINE }

  lemma {:induction false} SplitLine(l: Text, t: Text)
    requires NoNewline(l)
    ensures Split(l + ([NEWLINE] + t), NEWLINE) == [l] + Split(t, NEWLINE)
    ensures Split(l, NEWLINE) == [l]
  {
    if l == [] {
      assert l + ([NEWLINE] + t) == [NEWLINE] + t && ([NEWLINE] + t)[1..] == t;
    } else {
      SplitLine(l[1..], t);
      assert (l + ([NEWLINE] + t))[1..] == l[1..] + ([NEWLINE] + t);
      assert l == [l[0]] + l[1..];
    }
  }

  lemma {:induction false} LineIsOneLine(e: Entry)
    requires ValidEntry(e)
    ensures Line(e) != [] && Line(e)[0] == LBRACE && NoNewline(Line(e)) && Paired(Line(e))
  {
    EntryIsPlain(e);
    PrintIsClean(Persisted(e));
  }

  /** Splitting the file, final newline trimmed, gives back its lines. */
  lemma {:induction false} SplitFile(log: seq<Entry>)
    requires log != [] && forall i :: 0 <= i < |log| ==> ValidEntry(log[i])
    ensures FileText(log) != [] && FileText(log)[|FileText(log)| - 1] == NEWLINE
    ensures Split(FileText(log)[..|FileText(log)| - 1], NEWLINE) == Lines(log)
  {
    LineIsOneLine(log[0]);
    FileTextCons(log);
    if |log| == 1 {
      TrimNothing(Line(log[0]));
      SplitLine(Line(log[0]), []);
    } else {
      SplitFile(log[1..]);
      SplitMore(Line(log[0]), FileText(log[1..]), FileText(log), Lines(log[1..]));
    }
  }

  lemma {:induction false} SplitMore(l: Text, rest: Text, t: Text, lines: seq<Text>)
    requires NoNewline(l) && rest != [] && rest[|rest| - 1] == NEWLINE && Split(rest[..|rest| - 1], NEWLINE) == lines
    requires t == l + [NEWLINE] + rest
    ensures t != [] && t[|t| - 1] == NEWLINE && Split(t[..|t| - 1], NEWLINE) == [l] + lines
  {
    TrimLast(l, rest);
    SplitLine(l, rest[..|rest| - 1]);
  }

  lemma FileTextCons(log: seq<Entry>)
    requires log != []
    ensures FileText(log) == Line(log[0]) + [NEWLINE] + FileText(log[1..])
    ensures |log| == 1 ==> FileText(log[1..]) == [] && Lines(log) == [Line(log[0])]
  {
    if |log| == 1 { assert log[1..] == []; }
    ThreeParts(Line(log[0]), FileText(log[1..]));
  }

  lemma ThreeParts(a: Text, b: Text)
    ensures a + ([NEWLINE] + b) == a + [NEWLINE] + b
  {
  }

  lemma TrimNothing(l: Text)
    ensures var t := l + [NEWLINE] + [];
            t[..|t| - 1] == l && t[|t| - 1] == NEWLINE
  {
  }

  lemma TrimLast(l: Text, rest: Text)
    requires rest != []
    ensures var t := l + [NEWLINE] + rest;
            t[..|t| - 1] == l + ([NEWLINE] + rest[..|rest| - 1]) && t[|t| - 1] == rest[|rest| - 1]
  {
  }

  lemma {:induction false} WriterChainIsValid(mac: Text -> Text, log: seq<Entry>, prev: Text, base: nat)
    requires WriterChain(mac, log, prev, base)
    ensures forall i :: 0 <= i < |log| ==> ValidEntry(log[i]) && log[i].seqNo == base + i + 1
    decreases |log|
  {
    if log != [] {
      WriterChainIsValid(mac, log[1..], log[0].hmac, base + 1);
    }
  }

  lemma {:induction false} LineIsAccepted(
    js: Value -> bool, mac: Text -> Text, parse: Text -> Option<Value>, e: Entry, prev: Text, base: nat)
    requires FaithfulParser(js, parse) && ValidEntry(e) && js(Persisted(e))
    requires e.seqNo == base + 1 && e.hmac == mac(prev + Canonical(Signed(e)))
    ensures AcceptedAfter(mac, parse, e, prev)
  {
    EntryIsPlain(e);
    PersistedFields(e);
    LineIsOneLine(e);
  }

  /** The line of `e` is accepted behind the hmac `prev`. */
  predicate AcceptedAfter(mac: Text -> Text, parse: Text -> Option<Value>, e: Entry, prev: Text) {
    e.seqNo >= 1 && Line(e) != [] && CheckLine(mac, parse(Line(e)), prev, e.seqNo - 1) == Accept(e.hmac)
  }

  predicate AllAccepted(mac: Text -> Text, parse: Text -> Option<Value>, log: seq<Entry>, prev: Text, base: nat)
    decreases |log|
  {
    log == [] || (log[0].seqNo == base + 1 && AcceptedAfter(mac, parse, log[0], prev)
                  && AllAccepted(mac, parse, log[1..], log[0].hmac, base + 1))
  }

  lemma {:induction false} WriterChainIsAccepted(
    js: Value -> bool, mac: Text -> Text, parse: Text -> Option<Value>, log: seq<Entry>, prev: Text, base: nat)
    requires FaithfulParser(js, parse) && WriterChain(mac, log, prev, base) && Recorded(js, log)
    ensures AllAccepted(mac, parse, log, prev, base)
    decreases |log|
  {
    if log != [] {
      LineIsAccepted(js, mac, parse, log[0], prev, base);
      WriterChainIsAccepted(js, mac, parse, log[1..], log[0].hmac, base + 1);
    }
  }

  lemma {:induction false} AcceptedLines(mac: Text -> Text, parse: Text -> Option<Value>, log: seq<Entry>, prev: Text, base: nat)
    requires AllAccepted(mac, parse, log, prev, base)
    ensures VerifyLines(mac, parse, Lines(log), prev, base) == Intact(base + |log|)
    decreases |log|
  {
    if log != [] {
      VerifyTail(mac, parse, Lines(log), prev, base);
      AcceptedLines(mac, parse, log[1..], log[0].hmac, base + 1);
    }
  }

  /** `audit verify` accepts every file the writer's chain produces, counting all its entries. */
  lemma {:induction false} VerifyAcceptsFile(js: Value -> bool, mac: Text -> Text, parse: Text -> Option<Value>, log: seq<Entry>)
    requires FaithfulParser(js, parse) && WriterChain(mac, log, GENESIS, 0) && Recorded(js, log)
    ensures Verify(mac, parse, FileText(log)) == Intact(|log|)
  {
    WriterChainIsAccepted(js, mac, parse, log, GENESIS, 0);
    if log != [] { SplitWritten(mac, log); }
    VerifyAccepted(mac, parse, log);
  }

  lemma {:induction false} VerifyAccepted(mac: Text -> Text, parse: Text -> Option<Value>, log: seq<Entry>)
    requires AllAccepted(mac, parse, log, GENESIS, 0)
    requires log != [] ==> FileText(log) != [] && FileText(log)[|FileText(log)| - 1] == NEWLINE
    requires log != [] ==> Split(FileText(log)[..|FileText(log)| - 1], NEWLINE) == Lines(log)
    ensures Verify(mac, parse, FileText(log)) == Intact(|log|)
  {
    AcceptedLines(mac, parse, log, GENESIS, 0);
    if log != [] { VerifyTrimmed(mac, parse, FileText(log), Lines(log)); }
  }

  lemma {:induction false} SplitWritten(mac: Text -> Text, log: seq<Entry>)
    requires log != [] && WriterChain(mac, log, GENESIS, 0)
    ensures FileText(log) != [] && FileText(log)[|FileText(log)| - 1] == NEWLINE
    ensures Split(FileText(log)[..|FileText(log)| - 1], NEWLINE) == Lines(log)
  {
    WriterChainIsValid(mac, log, GENESIS, 0);
    SplitFile(log);
  }

  lemma {:induction false} VerifyTrimmed(mac: Text -> Text, parse: Text -> Option<Value>, t: Text, lines: seq<Text>)
    requires t != [] && t[|t| - 1] == NEWLINE && Split(t[..|t| - 1], NEWLINE) == lines
    ensures Verify(mac, parse, t) == VerifyLines(mac, parse, lines, GENESIS, 0)
  {
  }
}
