/** `JSON.stringify` without whitespace, and a decoder that inverts it. */
module Json {
  import opened Wrappers
  import opened Texts

  /** A JavaScript value as `encode` sees it. A finite number is its shortest
      decimal token; an object lists its own enumerable properties in order. */
  datatype Value =
    | Null
    | Bool(b: bool)
    | Number(token: Text)
    | NonFinite
    | Str(s: Text)
    | Unsupported // undefined, function, symbol, bigint
    | Arr(items: seq<Value>)
    | Obj(fields: seq<Field>)

  datatype Field = Field(key: Text, value: Value)

  const NULL_TEXT: Text := [0x6E, 0x75, 0x6C, 0x6C]
  const TRUE_TEXT: Text := [0x74, 0x72, 0x75, 0x65]
  const FALSE_TEXT: Text := [0x66, 0x61, 0x6C, 0x73, 0x65]

  predicate UniqueKeys(fields: seq<Field>) {
    forall i, j :: 0 <= i < j < |fields| ==> fields[i].key != fields[j].key
  }

  predicate IsDigit(u: CodeUnit) { 0x30 <= u <= 0x39 }

  /** A unit that can occur in a number token: digits, `+`, `-`, `.` and `e`. */
  predicate IsNumberUnit(u: CodeUnit) {
    IsDigit(u) || u == 0x2B || u == 0x2D || u == 0x2E || u == 0x65
  }

  predicate IsNumberToken(t: Text) {
    t != [] && (IsDigit(t[0]) || t[0] == 0x2D) && forall i :: 0 <= i < |t| ==> IsNumberUnit(t[i])
  }

  /** Number tokens and property names are those of a JavaScript value. */
  predicate WellFormed(v: Value) {
    match v
    case Number(t) => IsNumberToken(t)
    case Arr(items) => forall i :: 0 <= i < |items| ==> WellFormed(items[i])
    case Obj(fields) => UniqueKeys(fields) && forall i :: 0 <= i < |fields| ==> WellFormed(fields[i].value)
    case _ => true
  }

  /** Nothing at any depth that `encode` rejects. */
  predicate Serializable(v: Value) {
    match v
    case NonFinite => false
    case Unsupported => false
    case Arr(items) => forall i :: 0 <= i < |items| ==> Serializable(items[i])
    case Obj(fields) => forall i :: 0 <= i < |fields| ==> Serializable(fields[i].value)
    case _ => true
  }

  predicate Plain(v: Value) { WellFormed(v) && Serializable(v) }

  // ----- printing ---------------------------------------------------------

  function HexDigit(n: int): CodeUnit
    requires 0 <= n < 16
  {
    if n < 10 then 0x30 + n else 0x61 + (n - 10)
  }

  function Hex4(u: CodeUnit): (r: Text)
    ensures |r| == 4
  {
    [HexDigit(u / 0x1000), HexDigit(u / 0x100 % 0x10), HexDigit(u / 0x10 % 0x10), HexDigit(u % 0x10)]
  }

  /** The escape for one unit, or the unit itself. */
  function QuoteUnit(u: CodeUnit): (r: Text)
    ensures r != []
  {
    if u == QUOTE then [BACKSLASH, QUOTE]
    else if u == BACKSLASH then [BACKSLASH, BACKSLASH]
    else if u == 0x08 then [BACKSLASH, 0x62]
    else if u == 0x09 then [BACKSLASH, 0x74]
    else if u == 0x0A then [BACKSLASH, 0x6E]
    else if u == 0x0C then [BACKSLASH, 0x66]
    else if u == 0x0D then [BACKSLASH, 0x72]
    else if u < 0x20 || IsHigh(u) || IsLow(u) then
      [BACKSLASH, 0x75] + Hex4(u)
    else [u]
  }

  /** Surrogate pairs are copied, lone surrogates escaped. */
  function QuoteUnits(s: Text): Text {
    if s == [] then []
    else if StartsWithPair(s) then s[..2] + QuoteUnits(s[2..])
    else QuoteUnit(s[0]) + QuoteUnits(s[1..])
  }

  function Quote(s: Text): Text { [QUOTE] + QuoteUnits(s) + [QUOTE] }

  function Print(v: Value): Text {
    match v
    case Null => NULL_TEXT
    case Bool(b) => if b then TRUE_TEXT else FALSE_TEXT
    case Number(t) => t
    case Str(s) => Quote(s)
    case Arr(items) => [LBRACKET] + PrintItems(items) + [RBRACKET]
    case Obj(fields) => [LBRACE] + PrintFields(fields) + [RBRACE]
    case NonFinite => NULL_TEXT
    case Unsupported => NULL_TEXT
  }

  function PrintItems(items: seq<Value>): Text {
    if items == [] then []
    else Print(items[0]) + (if |items| == 1 then [] else [COMMA] + PrintItems(items[1..]))
  }

  function PrintField(f: Field): Text { Quote(f.key) + [COLON] + Print(f.value) }

  function PrintFields(fields: seq<Field>): Text {
    if fields == [] then []
    else PrintField(fields[0]) + (if |fields| == 1 then [] else [COMMA] + PrintFields(fields[1..]))
  }

  // ----- decoding ---------------------------------------------------------

  function FromHex(u: CodeUnit): (r: Option<int>)
    ensures r.Some? ==> 0 <= r.value < 16
  {
    if IsDigit(u) then Some(u - 0x30)
    else if 0x61 <= u <= 0x66 then Some(u - 0x61 + 10)
    else if 0x41 <= u <= 0x46 then Some(u - 0x41 + 10)
    else None
  }

  function FromHex4(a: CodeUnit, b: CodeUnit, c: CodeUnit, d: CodeUnit): Option<CodeUnit> {
    match (FromHex(a), FromHex(b), FromHex(c), FromHex(d))
    case (Some(w), Some(x), Some(y), Some(z)) => Some(w * 0x1000 + x * 0x100 + y * 0x10 + z)
    case _ => None
  }

  /** The unit that `\` followed by `t` stands for, and how much of `t` it uses. */
  function Unescape(t: Text): (r: Option<(CodeUnit, nat)>)
    ensures r.Some? ==> 1 <= r.value.1 <= |t|
  {
    if t == [] then None
    else if t[0] == QUOTE || t[0] == BACKSLASH || t[0] == 0x2F then Some((t[0], 1))
    else if t[0] == 0x62 then Some((0x08, 1))
    else if t[0] == 0x74 then Some((0x09, 1))
    else if t[0] == 0x6E then Some((0x0A, 1))
    else if t[0] == 0x66 then Some((0x0C, 1))
    else if t[0] == 0x72 then Some((0x0D, 1))
    else if t[0] == 0x75 && |t| >= 5 then
      match FromHex4(t[1], t[2], t[3], t[4])
      case Some(u) => Some((u, 5))
      case None => None
    else None
  }

  /** Reads up to and including the closing quote. */
  function DecodeUnits(t: Text): (r: Option<(Text, Text)>)
    ensures r.Some? ==> |r.value.1| < |t|
  {
    if t == [] || t[0] < 0x20 then None
    else if t[0] == QUOTE then Some(([], t[1..]))
    else if t[0] == BACKSLASH then
      match Unescape(t[1..])
      case None => None
      case Some((u, used)) =>
        match DecodeUnits(t[1 + used..])
        case None => None
        case Some((s, rest)) => Some(([u] + s, rest))
    else
      match DecodeUnits(t[1..])
      case None => None
      case Some((s, rest)) => Some(([t[0]] + s, rest))
  }

  function NumberLength(t: Text): (n: nat)
    ensures n <= |t|
  {
    if t == [] || !IsNumberUnit(t[0]) then 0 else 1 + NumberLength(t[1..])
  }

  /** One value from the front of `t`, and the text after it. */
  function DecodeValue(t: Text): (r: Option<(Value, Text)>)
    ensures r.Some? ==> |r.value.1| < |t|
    decreases |t|, 1
  {
    if t == [] then None
    else if t[0] == QUOTE then
      match DecodeUnits(t[1..])
      case None => None
      case Some((s, rest)) => Some((Str(s), rest))
    else if t[0] == LBRACKET then
      if |t| > 1 && t[1] == RBRACKET then Some((Arr([]), t[2..]))
      else
        match DecodeItems(t[1..])
        case None => None
        case Some((items, rest)) => Some((Arr(items), rest))
    else if t[0] == LBRACE then
      if |t| > 1 && t[1] == RBRACE then Some((Obj([]), t[2..]))
      else
        match DecodeFields(t[1..])
        case None => None
        case Some((fields, rest)) => if UniqueKeys(fields) then Some((Obj(fields), rest)) else None
    else if IsDigit(t[0]) || t[0] == 0x2D then
      Some((Number(t[..NumberLength(t)]), t[NumberLength(t)..]))
    else if NULL_TEXT <= t then Some((Null, t[4..]))
    else if TRUE_TEXT <= t then Some((Bool(true), t[4..]))
    else if FALSE_TEXT <= t then Some((Bool(false), t[5..]))
    else None
  }

  /** At least one item, then `]`. */
  function DecodeItems(t: Text): (r: Option<(seq<Value>, Text)>)
    ensures r.Some? ==> |r.value.1| < |t|
    decreases |t|, 2
  {
    match DecodeValue(t)
    case None => None
    case Some((v, rest)) =>
      if rest != [] && rest[0] == RBRACKET then Some(([v], rest[1..]))
      else if rest != [] && rest[0] == COMMA then
        match DecodeItems(rest[1..])
        case None => None
        case Some((vs, rest')) => Some(([v] + vs, rest'))
      else None
  }

  function DecodeField(t: Text): (r: Option<(Field, Text)>)
    ensures r.Some? ==> |r.value.1| < |t|
    decreases |t|, 2
  {
    if t == [] || t[0] != QUOTE then None
    else
      match DecodeUnits(t[1..])
      case None => None
      case Some((key, rest)) =>
        if rest == [] || rest[0] != COLON then None
        else
          match DecodeValue(rest[1..])
          case None => None
          case Some((v, rest')) => Some((Field(key, v), rest'))
  }

  /** At least one `"key":value`, then `}`. */
  function DecodeFields(t: Text): (r: Option<(seq<Field>, Text)>)
    ensures r.Some? ==> |r.value.1| < |t|
    decreases |t|, 3
  {
    match DecodeField(t)
    case None => None
    case Some((f, rest)) =>
      if rest != [] && rest[0] == RBRACE then Some(([f], rest[1..]))
      else if rest != [] && rest[0] == COMMA then
        match DecodeFields(rest[1..])
        case None => None
        case Some((fs, rest')) => Some(([f] + fs, rest'))
      else None
  }

  /** The whole of `t` as one value. */
  function Decode(t: Text): Option<Value> {
    match DecodeValue(t)
    case Some((v, rest)) => if rest == [] then Some(v) else None
    case None => None
  }

  // ----- the decoder inverts the printer ----------------------------------

  lemma FromHex4InvertsHex4(u: CodeUnit)
    ensures var h := Hex4(u); FromHex4(h[0], h[1], h[2], h[3]) == Some(u)
  {
    var a, b, c, d := u / 0x1000, u / 0x100 % 0x10, u / 0x10 % 0x10, u % 0x10;
    HexDigits(u);
    FromHexInverts(a);
    FromHexInverts(b);
    FromHexInverts(c);
    FromHexInverts(d);
  }

  lemma HexDigits(u: CodeUnit)
    ensures u / 0x1000 < 0x10
    ensures u / 0x1000 * 0x1000 + u / 0x100 % 0x10 * 0x100 + u / 0x10 % 0x10 * 0x10 + u % 0x10 == u
  {
  }

  lemma FromHexInverts(d: int)
    requires 0 <= d < 0x10
    ensures FromHex(HexDigit(d)) == Some(d)
  {
  }

  lemma UnescapeInvertsQuoteUnit(u: CodeUnit, t: Text)
    requires QuoteUnit(u)[0] == BACKSLASH
    ensures |QuoteUnit(u)| >= 2
    ensures Unescape(QuoteUnit(u)[1..] + t) == Some((u, |QuoteUnit(u)| - 1))
  {
    var q := QuoteUnit(u);
    var r := q[1..] + t;
    assert r[0] == q[1];
    if q == [BACKSLASH, 0x75] + Hex4(u) {
      var h := Hex4(u);
      FromHex4InvertsHex4(u);
      assert r[1] == h[0] && r[2] == h[1] && r[3] == h[2] && r[4] == h[3];
    }
  }

  lemma DecodeEscaped(u: CodeUnit, tail: Text)
    requires QuoteUnit(u)[0] == BACKSLASH && DecodeUnits(tail).Some?
    ensures DecodeUnits(QuoteUnit(u) + tail) == Some(([u] + DecodeUnits(tail).value.0, DecodeUnits(tail).value.1))
  {
    var q := QuoteUnit(u);
    var t := q + tail;
    UnescapeInvertsQuoteUnit(u, tail);
    assert t[1..] == q[1..] + tail;
    assert t[1 + (|q| - 1)..] == tail;
  }

  lemma DecodeRaw(u: CodeUnit, tail: Text)
    requires u >= 0x20 && u != QUOTE && u != BACKSLASH && DecodeUnits(tail).Some?
    ensures DecodeUnits([u] + tail) == Some(([u] + DecodeUnits(tail).value.0, DecodeUnits(tail).value.1))
  {
    assert ([u] + tail)[1..] == tail;
  }

  lemma DecodeRawPair(a: CodeUnit, b: CodeUnit, tail: Text)
    requires IsHigh(a) && IsLow(b) && DecodeUnits(tail).Some?
    ensures DecodeUnits([a, b] + tail) == Some(([a, b] + DecodeUnits(tail).value.0, DecodeUnits(tail).value.1))
  {
    var read: Text := DecodeUnits(tail).value.0;
    DecodeRaw(b, tail);
    DecodeRaw(a, [b] + tail);
    ConsTwo(a, b, tail);
    ConsTwo(a, b, read);
  }

  lemma ConsTwo(a: CodeUnit, b: CodeUnit, t: Text)
    ensures [a, b] + t == [a] + ([b] + t)
  {
  }

  lemma DecodeQuoted(u: CodeUnit, tail: Text)
    requires DecodeUnits(tail).Some?
    ensures DecodeUnits(QuoteUnit(u) + tail) == Some(([u] + DecodeUnits(tail).value.0, DecodeUnits(tail).value.1))
  {
    if QuoteUnit(u)[0] == BACKSLASH {
      DecodeEscaped(u, tail);
    } else {
      DecodeRaw(u, tail);
    }
  }

  lemma {:induction false} DecodeInvertsQuote(s: Text, rest: Text)
    ensures DecodeUnits(QuoteUnits(s) + ([QUOTE] + rest)) == Some((s, rest))
  {
    var end := [QUOTE] + rest;
    if s == [] {
      assert QuoteUnits(s) + end == end && end[1..] == rest;
    } else if StartsWithPair(s) {
      DecodeInvertsQuote(s[2..], rest);
      PairStep(s, end);
    } else {
      DecodeInvertsQuote(s[1..], rest);
      UnitStep(s, end);
    }
  }

  lemma PairStep(s: Text, end: Text)
    requires StartsWithPair(s)
    requires var r := DecodeUnits(QuoteUnits(s[2..]) + end); r.Some? && r.value.0 == s[2..]
    ensures DecodeUnits(QuoteUnits(s) + end) == Some((s, DecodeUnits(QuoteUnits(s[2..]) + end).value.1))
  {
    var tail := QuoteUnits(s[2..]) + end;
    assert QuoteUnits(s) + end == [s[0], s[1]] + tail;
    assert s == [s[0], s[1]] + s[2..];
    DecodeRawPair(s[0], s[1], tail);
  }

  lemma Reassociate(a: Text, b: Text, c: Text)
    ensures (a + b) + c == a + (b + c)
  {
  }

  lemma UnitStep(s: Text, end: Text)
    requires s != [] && !StartsWithPair(s)
    requires var r := DecodeUnits(QuoteUnits(s[1..]) + end); r.Some? && r.value.0 == s[1..]
    ensures DecodeUnits(QuoteUnits(s) + end) == Some((s, DecodeUnits(QuoteUnits(s[1..]) + end).value.1))
  {
    var q, rest := QuoteUnit(s[0]), QuoteUnits(s[1..]);
    Reassociate(q, rest, end);
    assert QuoteUnits(s) == q + rest;
    assert s == [s[0]] + s[1..];
    DecodeQuoted(s[0], rest + end);
  }

  /** No printed value starts like the end of an array or object. */
  lemma PrintStart(v: Value)
    requires Plain(v)
    ensures Print(v) != []
    ensures Print(v)[0] != RBRACKET && Print(v)[0] != RBRACE
  {
  }

  lemma {:induction false} NumberLengthOf(token: Text, rest: Text)
    requires forall i :: 0 <= i < |token| ==> IsNumberUnit(token[i])
    requires rest == [] || !IsNumberUnit(rest[0])
    ensures NumberLength(token + rest) == |token|
  {
    if token == [] {
      assert token + rest == rest;
    } else {
      assert (token + rest)[1..] == token[1..] + rest;
      NumberLengthOf(token[1..], rest);
    }
  }

  /** Only a number needs a delimiter after it. */
  predicate Delimited(v: Value, rest: Text) {
    v.Number? ==> rest == [] || !IsNumberUnit(rest[0])
  }

  lemma DecodeLiteral(v: Value, rest: Text)
    requires v.Null? || v.Bool?
    ensures DecodeValue(Print(v) + rest) == Some((v, rest))
  {
    var t := Print(v) + rest;
    assert t[|Print(v)|..] == rest;
  }

  lemma DecodeNumber(token: Text, rest: Text)
    requires IsNumberToken(token) && Delimited(Number(token), rest)
    ensures DecodeValue(token + rest) == Some((Number(token), rest))
  {
    var t := token + rest;
    NumberLengthOf(token, rest);
    assert t[..|token|] == token && t[|token|..] == rest;
  }

  lemma DecodeStr(s: Text, rest: Text)
    ensures DecodeValue(Quote(s) + rest) == Some((Str(s), rest))
  {
    DecodeInvertsQuote(s, rest);
    var t := Quote(s) + rest;
    assert t[1..] == QuoteUnits(s) + ([QUOTE] + rest);
  }

  lemma {:induction false} DecodeInvertsPrint(v: Value, rest: Text)
    requires Plain(v) && Delimited(v, rest)
    ensures DecodeValue(Print(v) + rest) == Some((v, rest))
    decreases v
  {
    match v {
      case Null => DecodeLiteral(v, rest);
      case Bool(b) => DecodeLiteral(v, rest);
      case Number(token) => DecodeNumber(token, rest);
      case Str(s) => DecodeStr(s, rest);
      case Arr(items) => DecodeArr(items, rest);
      case Obj(fields) => DecodeObj(fields, rest);
    }
  }

  lemma {:induction false} DecodeArr(items: seq<Value>, rest: Text)
    requires Plain(Arr(items))
    ensures DecodeValue(Print(Arr(items)) + rest) == Some((Arr(items), rest))
    decreases items, 1
  {
    var t := Print(Arr(items)) + rest;
    assert t[1..] == PrintItems(items) + ([RBRACKET] + rest);
    if items == [] {
      assert t[2..] == rest;
    } else {
      PrintStart(items[0]);
      DecodeInvertsItems(items, rest);
    }
  }

  lemma {:induction false} DecodeObj(fields: seq<Field>, rest: Text)
    requires Plain(Obj(fields))
    ensures DecodeValue(Print(Obj(fields)) + rest) == Some((Obj(fields), rest))
    decreases fields, 1
  {
    var t := Print(Obj(fields)) + rest;
    assert t[1..] == PrintFields(fields) + ([RBRACE] + rest);
    if fields == [] {
      assert t[2..] == rest;
    } else {
      DecodeInvertsFields(fields, rest);
    }
  }

  lemma {:induction false} DecodeInvertsItems(items: seq<Value>, rest: Text)
    requires items != [] && forall i :: 0 <= i < |items| ==> Plain(items[i])
    ensures DecodeItems(PrintItems(items) + ([RBRACKET] + rest)) == Some((items, rest))
    decreases items, 0
  {
    var end: Text := [RBRACKET] + rest;
    if |items| == 1 {
      DecodeInvertsPrint(items[0], end);
      assert PrintItems(items) == Print(items[0]) && end[1..] == rest;
      assert items == [items[0]];
    } else {
      var tail: Text := PrintItems(items[1..]) + end;
      DecodeInvertsPrint(items[0], [COMMA] + tail);
      DecodeInvertsItems(items[1..], rest);
      PrintItemsCons(items, end);
      ItemStep(items, PrintItems(items) + end, tail, rest);
    }
  }

  lemma PrintItemsCons(items: seq<Value>, end: Text)
    requires |items| > 1
    ensures PrintItems(items) + end == Print(items[0]) + ([COMMA] + (PrintItems(items[1..]) + end))
  {
    Reassociate(Print(items[0]), [COMMA] + PrintItems(items[1..]), end);
    Reassociate([COMMA], PrintItems(items[1..]), end);
  }

  lemma {:induction false} ItemStep(items: seq<Value>, t: Text, tail: Text, rest: Text)
    requires |items| > 1 && DecodeValue(t) == Some((items[0], [COMMA] + tail)) && DecodeItems(tail) == Some((items[1..], rest))
    ensures DecodeItems(t) == Some((items, rest))
  {
    assert ([COMMA] + tail)[1..] == tail;
    assert items == [items[0]] + items[1..];
  }

  lemma {:induction false} DecodeInvertsField(f: Field, rest: Text)
    requires Plain(f.value) && Delimited(f.value, rest)
    ensures DecodeField(PrintField(f) + rest) == Some((f, rest))
    decreases f
  {
    var value := Print(f.value) + rest;
    DecodeInvertsQuote(f.key, [COLON] + value);
    DecodeInvertsPrint(f.value, rest);
    FieldText(f, rest);
    FieldStep(f, PrintField(f) + rest, value, rest);
  }

  lemma FieldText(f: Field, rest: Text)
    ensures PrintField(f) + rest == [QUOTE] + (QuoteUnits(f.key) + ([QUOTE] + ([COLON] + (Print(f.value) + rest))))
  {
  }

  lemma {:induction false} FieldStep(f: Field, t: Text, value: Text, rest: Text)
    requires t == [QUOTE] + (QuoteUnits(f.key) + ([QUOTE] + ([COLON] + value)))
    requires DecodeUnits(QuoteUnits(f.key) + ([QUOTE] + ([COLON] + value))) == Some((f.key, [COLON] + value))
    requires DecodeValue(value) == Some((f.value, rest))
    ensures DecodeField(t) == Some((f, rest))
  {
    assert t[1..] == QuoteUnits(f.key) + ([QUOTE] + ([COLON] + value));
    assert ([COLON] + value)[1..] == value;
  }

  lemma {:induction false} DecodeInvertsFields(fields: seq<Field>, rest: Text)
    requires fields != [] && forall i :: 0 <= i < |fields| ==> Plain(fields[i].value)
    ensures DecodeFields(PrintFields(fields) + ([RBRACE] + rest)) == Some((fields, rest))
    decreases fields, 0
  {
    var end: Text := [RBRACE] + rest;
    if |fields| == 1 {
      DecodeInvertsField(fields[0], end);
      assert PrintFields(fields) == PrintField(fields[0]) && end[1..] == rest;
      assert fields == [fields[0]];
    } else {
      var tail: Text := PrintFields(fields[1..]) + end;
      DecodeInvertsField(fields[0], [COMMA] + tail);
      DecodeInvertsFields(fields[1..], rest);
      PrintFieldsCons(fields, end);
      FieldsStep(fields, PrintFields(fields) + end, tail, rest);
    }
  }

  lemma PrintFieldsCons(fields: seq<Field>, end: Text)
    requires |fields| > 1
    ensures PrintFields(fields) + end == PrintField(fields[0]) + ([COMMA] + (PrintFields(fields[1..]) + end))
  {
    Reassociate(PrintField(fields[0]), [COMMA] + PrintFields(fields[1..]), end);
    Reassociate([COMMA], PrintFields(fields[1..]), end);
  }

  lemma {:induction false} FieldsStep(fields: seq<Field>, t: Text, tail: Text, rest: Text)
    requires |fields| > 1 && DecodeField(t) == Some((fields[0], [COMMA] + tail)) && DecodeFields(tail) == Some((fields[1..], rest))
    ensures DecodeFields(t) == Some((fields, rest))
  {
    assert ([COMMA] + tail)[1..] == tail;
    assert fields == [fields[0]] + fields[1..];
  }

  /** `Decode` is a left inverse of `Print`. */
  lemma RoundTrip(v: Value)
    requires Plain(v)
    ensures Decode(Print(v)) == Some(v)
  {
    DecodeInvertsPrint(v, []);
    assert Print(v) + [] == Print(v);
  }

  /** No printed value other than a number is a proper prefix of a printed value. */
  lemma PrefixFree(v: Value, w: Value)
    requires Plain(v) && Plain(w) && !v.Number? && Print(v) <= Print(w)
    ensures v == w
  {
    var rest := Print(w)[|Print(v)|..];
    assert Print(w) == Print(v) + rest;
    DecodeInvertsPrint(v, rest);
    RoundTrip(w);
  }

  // ----- what printed text looks like -------------------------------------

  /** No control units, so no raw newline, and no lone surrogates. */
  predicate Clean(t: Text) {
    Paired(t) && forall i :: 0 <= i < |t| ==> t[i] >= 0x20
  }

  lemma CleanConcat(a: Text, b: Text)
    requires Clean(a) && Clean(b)
    ensures Clean(a + b)
  {
    PairedConcat(a, b);
  }

  lemma {:induction false} AsciiIsClean(t: Text)
    requires forall i :: 0 <= i < |t| ==> 0x20 <= t[i] < 0x80
    ensures Clean(t)
  {
    if t != [] {
      AsciiIsClean(t[1..]);
    }
  }

  lemma {:induction false} QuoteIsClean(s: Text)
    ensures Clean(QuoteUnits(s)) && Clean(Quote(s))
  {
    if s != [] {
      if StartsWithPair(s) {
        assert s[..2][2..] == [];
        QuoteIsClean(s[2..]);
        CleanConcat(s[..2], QuoteUnits(s[2..]));
      } else {
        if QuoteUnit(s[0])[0] == BACKSLASH {
          AsciiIsClean(QuoteUnit(s[0]));
        } else {
          assert QuoteUnit(s[0])[1..] == [];
        }
        QuoteIsClean(s[1..]);
        CleanConcat(QuoteUnit(s[0]), QuoteUnits(s[1..]));
      }
    }
    AsciiIsClean([QUOTE]);
    CleanConcat([QUOTE], QuoteUnits(s));
    CleanConcat([QUOTE] + QuoteUnits(s), [QUOTE]);
  }

  /** Printed text never contains a raw newline or a lone surrogate. */
  lemma {:induction false} PrintIsClean(v: Value)
    requires WellFormed(v)
    ensures Clean(Print(v))
    decreases v
  {
    match v {
      case Str(s) => QuoteIsClean(s);
      case Arr(items) =>
        ItemsAreClean(items);
        AsciiIsClean([LBRACKET]);
        AsciiIsClean([RBRACKET]);
        CleanConcat([LBRACKET], PrintItems(items));
        CleanConcat([LBRACKET] + PrintItems(items), [RBRACKET]);
      case Obj(fields) =>
        FieldsAreClean(fields);
        AsciiIsClean([LBRACE]);
        AsciiIsClean([RBRACE]);
        CleanConcat([LBRACE], PrintFields(fields));
        CleanConcat([LBRACE] + PrintFields(fields), [RBRACE]);
      case _ => AsciiIsClean(Print(v));
    }
  }

  lemma {:induction false} ItemsAreClean(items: seq<Value>)
    requires forall i :: 0 <= i < |items| ==> WellFormed(items[i])
    ensures Clean(PrintItems(items))
    decreases items
  {
    if items != [] {
      PrintIsClean(items[0]);
      if |items| == 1 {
        assert PrintItems(items) == Print(items[0]);
      } else {
        ItemsAreClean(items[1..]);
        AsciiIsClean([COMMA]);
        CleanConcat([COMMA], PrintItems(items[1..]));
        CleanConcat(Print(items[0]), [COMMA] + PrintItems(items[1..]));
      }
    }
  }

  lemma {:induction false} FieldsAreClean(fields: seq<Field>)
    requires forall i :: 0 <= i < |fields| ==> WellFormed(fields[i].value)
    ensures Clean(PrintFields(fields))
    decreases fields
  {
    if fields != [] {
      var f := fields[0];
      QuoteIsClean(f.key);
      AsciiIsClean([COLON]);
      PrintIsClean(f.value);
      CleanConcat(Quote(f.key), [COLON]);
      CleanConcat(Quote(f.key) + [COLON], Print(f.value));
      if |fields| == 1 {
        assert PrintFields(fields) == PrintField(f);
      } else {
        FieldsAreClean(fields[1..]);
        AsciiIsClean([COMMA]);
        CleanConcat([COMMA], PrintFields(fields[1..]));
        CleanConcat(PrintField(f), [COMMA] + PrintFields(fields[1..]));
      }
    }
  }
}
