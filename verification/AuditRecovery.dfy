/** Recovering the chain state from the last 4 KiB of the log. */
module AuditRecovery {
  import opened Wrappers
  import opened Texts
  import opened Json
  import opened CanonicalJson
  import opened AuditChain
  import Utf8

  const TAIL_CHUNK_BYTES := 4096

  /** `cachedPrevHmac` and `cachedPrevSeq`. */
  datatype Cache = Cache(hmac: Text, seqNo: nat)

  datatype RecoverError = NoTrailingNewline | BadLastLine

  /** The natural number a token denotes. */
  function ParseNat(t: Text): Option<nat> {
    if t == [] || !IsDigit(t[|t| - 1]) then None
    else if |t| == 1 then Some(t[0] - 0x30)
    else
      match ParseNat(t[..|t| - 1])
      case None => None
      case Some(n) => Some(n * 10 + (t[|t| - 1] - 0x30))
  }

  lemma {:induction false} ParseNatInverts(n: nat)
    ensures ParseNat(NatToken(n)) == Some(n)
  {
    if n >= 10 {
      ParseNatInverts(n / 10);
      var t := NatToken(n);
      assert t[..|t| - 1] == NatToken(n / 10);
    }
  }

  /** The text after the last newline. */
  function AfterLastNewline(t: Text): Text {
    if t == [] then []
    else if t[|t| - 1] == NEWLINE then []
    else AfterLastNewline(t[..|t| - 1]) + [t[|t| - 1]]
  }

  lemma {:induction false} AfterLastNewlineOf(t: Text, l: Text)
    requires NoNewline(l)
    ensures AfterLastNewline(l) == l
    ensures AfterLastNewline(t + ([NEWLINE] + l)) == l
  {
    if l == [] {
      assert t + ([NEWLINE] + l) == t + [NEWLINE];
    } else {
      var m := l[..|l| - 1];
      AfterLastNewlineOf(t, m);
      assert l == m + [l[|l| - 1]];
      assert (t + ([NEWLINE] + l))[..|t + ([NEWLINE] + l)| - 1] == t + ([NEWLINE] + m);
    }
  }

  /** `hmac` and `seq` of a parsed last line. */
  function FromLastLine(parsed: Option<Value>): Result<Cache, RecoverError> {
    match parsed
    case None => Failure(BadLastLine)
    case Some(v) =>
      if !GetField(v, HMAC).Str? || !GetField(v, SEQ).Number? then Failure(BadLastLine)
      else
        match ParseNat(GetField(v, SEQ).token)
        case None => Failure(BadLastLine)
        case Some(n) => Success(Cache(GetField(v, HMAC).s, n))
  }

  /** The last `min(4096, size)` bytes. */
  function Tail(all: seq<Utf8.Byte>): seq<Utf8.Byte> {
    if |all| < TAIL_CHUNK_BYTES then all else all[|all| - TAIL_CHUNK_BYTES..]
  }

  /** `recoverState`; `None` is a missing file. */
  function Recover(parse: Text -> Option<Value>, file: Option<seq<Utf8.Byte>>): Result<Cache, RecoverError> {
    if file.None? || file.value == [] then Success(Cache(GENESIS, 0))
    else
      RecoverFromChunk(parse, Utf8.Decode(Tail(file.value)))
  }

  function RecoverFromChunk(parse: Text -> Option<Value>, text: Text): Result<Cache, RecoverError> {
    if text == [] || text[|text| - 1] != NEWLINE then Failure(NoTrailingNewline)
    else FromLastLine(parse(AfterLastNewline(text[..|text| - 1])))
  }

  // ----- the file of a chain ----------------------------------------------

  function FileBytes(log: seq<Entry>): seq<Utf8.Byte> { Utf8.Encode(FileText(log)) }

  function LineBytes(e: Entry): seq<Utf8.Byte> { Utf8.Encode(Line(e)) }

  /** The state the whole-file fold ends in. */
  function FoldState(log: seq<Entry>): Cache {
    if log == [] then Cache(GENESIS, 0) else Cache(log[|log| - 1].hmac, |log|)
  }

  predicate Fits(e: Entry) { |LineBytes(e)| + 1 <= TAIL_CHUNK_BYTES }

  lemma {:induction false} FileTextIsPaired(log: seq<Entry>)
    requires forall i :: 0 <= i < |log| ==> ValidEntry(log[i])
    ensures Paired(FileText(log))
  {
    if log != [] {
      LineIsOneLine(log[0]);
      FileTextIsPaired(log[1..]);
      PairedConcat([NEWLINE], FileText(log[1..]));
      PairedConcat(Line(log[0]), [NEWLINE] + FileText(log[1..]));
    }
  }

  lemma NewlineByte()
    ensures Utf8.Encode([NEWLINE]) == [NEWLINE]
  {
    assert Utf8.EncodePoint(NEWLINE) == [NEWLINE];
    assert [NEWLINE][1..] == [];
  }

  /** Appending one line appends its bytes. */
  lemma {:induction false} AppendBytes(log: seq<Entry>, e: Entry)
    requires forall i :: 0 <= i < |log| ==> ValidEntry(log[i])
    requires ValidEntry(e)
    ensures FileBytes(log + [e]) == FileBytes(log) + (LineBytes(e) + [NEWLINE])
  {
    FileTextAppend(log, e);
    FileTextIsPaired(log);
    LineIsOneLine(e);
    Utf8.EncodeConcat(FileText(log), Line(e) + [NEWLINE]);
    Utf8.EncodeConcat(Line(e), [NEWLINE]);
    NewlineByte();
  }

  lemma EndsInNewline(log: seq<Entry>)
    requires log != [] && forall i :: 0 <= i < |log| ==> ValidEntry(log[i])
    ensures FileBytes(log) != [] && FileBytes(log)[|FileBytes(log)| - 1] == NEWLINE
  {
    AppendBytes(log[..|log| - 1], log[|log| - 1]);
    assert log == log[..|log| - 1] + [log[|log| - 1]];
  }

  lemma LineBytesHaveNoNewline(e: Entry)
    requires ValidEntry(e)
    ensures LineBytes(e) != [] && forall i :: 0 <= i < |LineBytes(e)| ==> LineBytes(e)[i] != NEWLINE
  {
    LineIsOneLine(e);
    Utf8.EncodeHasNoNewline(Line(e));
  }

  // ----- the last line fits -----------------------------------------------

  lemma {:induction false} FromPersisted(js: Value -> bool, parse: Text -> Option<Value>, e: Entry)
    requires FaithfulParser(js, parse) && ValidEntry(e) && js(Persisted(e))
    ensures FromLastLine(parse(Line(e))) == Success(Cache(e.hmac, e.seqNo))
  {
    EntryIsPlain(e);
    PersistedFields(e);
    ParseNatInverts(e.seqNo);
  }

  lemma {:induction false} TextWithWholeLine(parse: Text -> Option<Value>, t: Text, l: Text)
    requires NoNewline(l)
    ensures RecoverFromChunk(parse, l + [NEWLINE]) == FromLastLine(parse(l))
    ensures RecoverFromChunk(parse, t + ([NEWLINE] + (l + [NEWLINE]))) == FromLastLine(parse(l))
  {
    var a, b := l + [NEWLINE], t + ([NEWLINE] + (l + [NEWLINE]));
    assert a[..|a| - 1] == l;
    assert b[..|b| - 1] == t + ([NEWLINE] + l);
    AfterLastNewlineOf(t, l);
  }

  /** Bytes that end in whole lines, then one line: the last line is what gets parsed. */
  lemma {:induction false} ChunkWithWholeLine(js: Value -> bool, parse: Text -> Option<Value>, before: seq<Utf8.Byte>, e: Entry)
    requires FaithfulParser(js, parse) && ValidEntry(e) && js(Persisted(e))
    requires WholeLines(before)
    ensures RecoverFromChunk(parse, Utf8.Decode(before + (LineBytes(e) + [NEWLINE]))) == Success(Cache(e.hmac, e.seqNo))
  {
    LineIsOneLine(e);
    DecodeLine(e);
    FromPersisted(js, parse, e);
    var line: seq<Utf8.Byte> := LineBytes(e) + [NEWLINE];
    if before == [] {
      assert before + line == line;
      TextWithWholeLine(parse, [], Line(e));
    } else {
      var whole: seq<Utf8.Byte> := before[..|before| - 1];
      assert before == whole + [NEWLINE];
      LineAfterLines(parse, whole, line, Line(e));
    }
  }

  lemma {:induction false} LineAfterLines(parse: Text -> Option<Value>, whole: seq<Utf8.Byte>, line: seq<Utf8.Byte>, l: Text)
    requires Utf8.Decode(line) == l + [NEWLINE] && NoNewline(l)
    ensures RecoverFromChunk(parse, Utf8.Decode(whole + [NEWLINE] + line)) == FromLastLine(parse(l))
  {
    Utf8.RegroupBytes(whole, [NEWLINE], line);
    Utf8.DecodeSplitsAtNewline(whole, line);
    TextWithWholeLine(parse, Utf8.Decode(whole), l);
  }

  lemma DecodeLine(e: Entry)
    requires ValidEntry(e)
    ensures Utf8.Decode(LineBytes(e) + [NEWLINE]) == Line(e) + [NEWLINE]
  {
    LineIsOneLine(e);
    Utf8.DecodeInvertsEncode(Line(e), [NEWLINE]);
    NewlineByte();
    Utf8.Utf8RoundTrip([NEWLINE]);
  }

  // ----- the last line does not fit ----------------------------------------

  /** A proper suffix of a line, or text that starts with U+FFFD, gives no state. */
  lemma {:induction false} FromCutLine(js: Value -> bool, parse: Text -> Option<Value>, e: Entry, b: seq<Utf8.Byte>)
    requires FaithfulParser(js, parse) && ValidEntry(e) && js(Persisted(e))
    requires Utf8.Cut(Line(e), b) && Utf8.Decode(b) != []
    ensures FromLastLine(parse(Utf8.Decode(b))).Failure?
  {
    var t := Utf8.Decode(b);
    EntryIsPlain(e);
    if t[0] != REPLACEMENT {
      var j: nat :| 0 < j <= |Line(e)| && t == Line(e)[j..];
      assert j < |Print(Persisted(e))|;
      var parsed := parse(t);
      assert parsed.Some? ==> !parsed.value.Obj?;
      assert parsed.Some? ==> GetField(parsed.value, HMAC) == Unsupported;
    }
  }

  lemma {:induction false} ChunkInsideLine(js: Value -> bool, parse: Text -> Option<Value>, e: Entry, k: nat)
    requires FaithfulParser(js, parse) && ValidEntry(e) && js(Persisted(e)) && 0 < k < |LineBytes(e)|
    ensures RecoverFromChunk(parse, Utf8.Decode(LineBytes(e)[k..] + [NEWLINE])).Failure?
  {
    var b: seq<Utf8.Byte> := LineBytes(e)[k..];
    CutOfLine(e, k);
    DecodeOneLine(b);
    TextWithWholeLine(parse, [], Utf8.Decode(b));
    FromCutLine(js, parse, e, b);
  }

  lemma CutOfLine(e: Entry, k: nat)
    requires ValidEntry(e) && 0 < k < |LineBytes(e)|
    ensures Utf8.Cut(Line(e), LineBytes(e)[k..])
    ensures forall i :: 0 <= i < |LineBytes(e)[k..]| ==> LineBytes(e)[k..][i] != NEWLINE
  {
    LineIsOneLine(e);
    LineBytesHaveNoNewline(e);
    Utf8.DecodeFromMiddle(Line(e), k);
  }

  lemma DecodeOneLine(b: seq<Utf8.Byte>)
    requires b != [] && forall i :: 0 <= i < |b| ==> b[i] != NEWLINE
    ensures Utf8.Decode(b) != [] && NoNewline(Utf8.Decode(b))
    ensures Utf8.Decode(b + [NEWLINE]) == Utf8.Decode(b) + [NEWLINE]
  {
    var none: seq<Utf8.Byte> := [];
    Utf8.DecodeHasNoNewline(b);
    Utf8.DecodeSplitsAtNewline(b, none);
    assert [NEWLINE] + none == [NEWLINE];
    assert Utf8.Decode(none) == [];
    assert [NEWLINE] + Utf8.Decode(none) == [NEWLINE];
  }

  // ----- recovery is exact ------------------------------------------------

  predicate WholeLines(b: seq<Utf8.Byte>) { b == [] || b[|b| - 1] == NEWLINE }

  lemma {:induction false} TailKeepsLine(before: seq<Utf8.Byte>, line: seq<Utf8.Byte>) returns (kept: seq<Utf8.Byte>)
    requires WholeLines(before) && |line| + 1 <= TAIL_CHUNK_BYTES
    ensures WholeLines(kept) && Tail(before + (line + [NEWLINE])) == kept + (line + [NEWLINE])
  {
    var all := before + (line + [NEWLINE]);
    var end := line + [NEWLINE];
    if |all| < TAIL_CHUNK_BYTES {
      kept := before;
    } else {
      var cut := |all| - TAIL_CHUNK_BYTES;
      kept := before[cut..];
      assert all[cut..] == kept + end;
    }
  }

  lemma {:induction false} TailCutsLine(before: seq<Utf8.Byte>, line: seq<Utf8.Byte>) returns (k: nat)
    requires |line| + 1 > TAIL_CHUNK_BYTES
    ensures 0 < k < |line| && Tail(before + (line + [NEWLINE])) == line[k..] + [NEWLINE]
  {
    k := |line| + 1 - TAIL_CHUNK_BYTES;
  }

  /** The file without its last line is empty or ends in a newline. */
  lemma {:induction false} LastLineOf(log: seq<Entry>) returns (before: seq<Utf8.Byte>, e: Entry)
    requires log != [] && forall i :: 0 <= i < |log| ==> ValidEntry(log[i])
    ensures e == log[|log| - 1] && WholeLines(before)
    ensures FileBytes(log) == before + (LineBytes(e) + [NEWLINE])
  {
    var init := log[..|log| - 1];
    e := log[|log| - 1];
    before := FileBytes(init);
    assert log == init + [e];
    AppendBytes(init, e);
    if init == [] {
      assert FileText(init) == [];
    } else {
      EndsInNewline(init);
    }
  }

  lemma {:induction false} RecoverLast(js: Value -> bool, parse: Text -> Option<Value>, before: seq<Utf8.Byte>, e: Entry)
    requires FaithfulParser(js, parse) && ValidEntry(e) && js(Persisted(e)) && WholeLines(before)
    ensures var r := RecoverFromChunk(parse, Utf8.Decode(Tail(before + (LineBytes(e) + [NEWLINE]))));
            if Fits(e) then r == Success(Cache(e.hmac, e.seqNo)) else r.Failure?
  {
    if Fits(e) {
      var kept := TailKeepsLine(before, LineBytes(e));
      ChunkWithWholeLine(js, parse, kept, e);
    } else {
      var k := TailCutsLine(before, LineBytes(e));
      ChunkInsideLine(js, parse, e, k);
    }
  }

  /** Reading the tail yields the state of the whole-file fold exactly when the last line
      and its newline fit in 4096 bytes; otherwise recovery fails. */
  lemma {:induction false} RecoverIffLastLineFits(js: Value -> bool, mac: Text -> Text, parse: Text -> Option<Value>, log: seq<Entry>)
    requires FaithfulParser(js, parse) && WriterChain(mac, log, GENESIS, 0) && Recorded(js, log)
    ensures var r := Recover(parse, Some(FileBytes(log)));
            if log == [] || Fits(log[|log| - 1]) then r == Success(FoldState(log)) else r.Failure?
  {
    if log != [] {
      WriterChainIsValid(mac, log, GENESIS, 0);
      RecoverLog(js, parse, log);
    }
  }

  lemma {:induction false} RecoverLog(js: Value -> bool, parse: Text -> Option<Value>, log: seq<Entry>)
    requires FaithfulParser(js, parse) && Recorded(js, log) && log != [] && log[|log| - 1].seqNo == |log|
    requires forall i :: 0 <= i < |log| ==> ValidEntry(log[i])
    ensures var r := Recover(parse, Some(FileBytes(log)));
            if Fits(log[|log| - 1]) then r == Success(FoldState(log)) else r.Failure?
  {
    var before, e := LastLineOf(log);
    RecoverLast(js, parse, before, e);
    assert FileBytes(log) != [];
  }
}
