/** Which text is printed: unit by unit, part by part, and that no text with the same meaning is shorter. */
module JsonText {
  import opened Wrappers
  import opened Texts
  import opened Json
  import opened CanonicalJson
  import JsonScan

  // ----- one unit of a string ---------------------------------------------

  /** A lower-case hexadecimal digit. */
  predicate LowerHex(u: CodeUnit) { 0x30 <= u <= 0x39 || 0x61 <= u <= 0x66 }

  /** The letter of the two-character escape of a unit that has one, besides the quote and the backslash. */
  function ShortEscape(u: CodeUnit): Option<CodeUnit> {
    match u
    case 0x08 => Some(0x62)
    case 0x09 => Some(0x74)
    case 0x0A => Some(0x6E)
    case 0x0C => Some(0x66)
    case 0x0D => Some(0x72)
    case _ => None
  }

  function HexValue(u: CodeUnit): int
    requires LowerHex(u)
  {
    if u <= 0x39 then u - 0x30 else u - 0x61 + 10
  }

  /** The canonical text of a string of one unit: the quote and the backslash behind a backslash; five control
      characters by letter; every other control character, and a surrogate on its own, as `\u` with four
      lower-case hexadecimal digits; everything else, the solidus and DEL included, as it is. */
  lemma UnitText(u: CodeUnit)
    ensures var t := Canonical(Str([u]));
            if u == QUOTE || u == BACKSLASH then t == [QUOTE, BACKSLASH, u, QUOTE]
            else if ShortEscape(u).Some? then t == [QUOTE, BACKSLASH, ShortEscape(u).value, QUOTE]
            else if u < 0x20 || 0xD800 <= u <= 0xDFFF then
              && |t| == 8 && t[0] == QUOTE && t[1] == BACKSLASH && t[2] == 0x75 && t[7] == QUOTE
              && LowerHex(t[3]) && LowerHex(t[4]) && LowerHex(t[5]) && LowerHex(t[6])
              && HexValue(t[3]) * 0x1000 + HexValue(t[4]) * 0x100 + HexValue(t[5]) * 0x10 + HexValue(t[6]) == u
            else t == [QUOTE, u, QUOTE]
  {
    assert QuoteUnits([u]) == QuoteUnit(u) + QuoteUnits([]);
    HexDigits(u);
  }

  /** A surrogate pair stands as it is. */
  lemma PairText(high: CodeUnit, low: CodeUnit)
    requires 0xD800 <= high < 0xDC00 && 0xDC00 <= low < 0xE000
    ensures Canonical(Str([high, low])) == [QUOTE, high, low, QUOTE]
  {
    assert QuoteUnits([high, low]) == [high, low] + QuoteUnits([]);
  }

  /** A cut between `a` and `b` that does not part a surrogate pair. */
  predicate Parts(a: Text, b: Text) {
    !(a != [] && b != [] && 0xD800 <= a[|a| - 1] < 0xDC00 && 0xDC00 <= b[0] < 0xE000)
  }

  /** Longer strings are the texts of their parts, between one pair of quotes. */
  lemma ConcatText(a: Text, b: Text)
    requires Parts(a, b)
    ensures var s, t := Canonical(Str(a)), Canonical(Str(b));
            |s| >= 2 && |t| >= 2 && Canonical(Str(a + b)) == s[..|s| - 1] + t[1..]
  {
    QuoteUnitsConcat(a, b);
    JoinQuoted(QuoteUnits(a), QuoteUnits(b));
  }

  lemma JoinQuoted(x: Text, y: Text)
    ensures var s, t := [QUOTE] + x + [QUOTE], [QUOTE] + y + [QUOTE];
            [QUOTE] + (x + y) + [QUOTE] == s[..|s| - 1] + t[1..]
  {
    var s: Text, t: Text := [QUOTE] + x + [QUOTE], [QUOTE] + y + [QUOTE];
    assert s[..|s| - 1] == [QUOTE] + x && t[1..] == y + [QUOTE];
  }

  lemma {:induction false} QuoteUnitsConcat(a: Text, b: Text)
    requires Parts(a, b)
    ensures QuoteUnits(a + b) == QuoteUnits(a) + QuoteUnits(b)
  {
    if a == [] {
      assert a + b == b;
    } else if StartsWithPair(a) {
      assert (a + b)[2..] == a[2..] + b && (a + b)[..2] == a[..2];
      QuoteUnitsConcat(a[2..], b);
      Reassociate(a[..2], QuoteUnits(a[2..]), QuoteUnits(b));
    } else {
      assert (a + b)[1..] == a[1..] + b;
      QuoteUnitsConcat(a[1..], b);
      Reassociate(QuoteUnit(a[0]), QuoteUnits(a[1..]), QuoteUnits(b));
    }
  }

  // ----- the other values -------------------------------------------------

  lemma AtomText(token: Text)
    ensures Canonical(Null) == [0x6E, 0x75, 0x6C, 0x6C]
    ensures Canonical(Bool(true)) == [0x74, 0x72, 0x75, 0x65]
    ensures Canonical(Bool(false)) == [0x66, 0x61, 0x6C, 0x73, 0x65]
    ensures Canonical(Number(token)) == token && Canonical(Str([])) == [QUOTE, QUOTE]
  {
  }

  /** The items in their order, between brackets, with commas and nothing else. */
  lemma ArrayText(items: seq<Value>)
    ensures items == [] ==> Canonical(Arr(items)) == [LBRACKET, RBRACKET]
    ensures |items| == 1 ==> Canonical(Arr(items)) == [LBRACKET] + Canonical(items[0]) + [RBRACKET]
    ensures |items| > 1 ==>
              && Canonical(Arr(items[1..])) != []
              && Canonical(Arr(items)) == [LBRACKET] + Canonical(items[0]) + ([COMMA] + Canonical(Arr(items[1..]))[1..])
  {
    var sorted: seq<Value> := SortItems(items);
    assert SortDeep(Arr(items)) == Arr(sorted);
    if items == [] {
      assert Print(Arr(sorted)) == [LBRACKET] + PrintItems(sorted) + [RBRACKET];
    } else {
      assert sorted == [SortDeep(items[0])] + SortItems(items[1..]);
      assert SortDeep(Arr(items[1..])) == Arr(SortItems(items[1..]));
      PrintedArray(SortDeep(items[0]), SortItems(items[1..]));
    }
  }

  lemma PrintedArray(first: Value, rest: seq<Value>)
    ensures rest == [] ==> Print(Arr([first] + rest)) == [LBRACKET] + Print(first) + [RBRACKET]
    ensures rest != [] ==>
              Print(Arr([first] + rest)) == [LBRACKET] + Print(first) + ([COMMA] + Print(Arr(rest))[1..])
  {
    assert ([first] + rest)[1..] == rest;
    assert PrintItems([first] + rest) == Print(first) + (if rest == [] then [] else [COMMA] + PrintItems(rest));
    Bracketed(LBRACKET, Print(first), PrintItems(rest), RBRACKET);
  }

  lemma Bracketed(open: CodeUnit, first: Text, rest: Text, close: CodeUnit)
    ensures [open] + (first + []) + [close] == [open] + first + [close]
    ensures [open] + (first + ([COMMA] + rest)) + [close] == [open] + first + ([COMMA] + ([open] + rest + [close])[1..])
  {
    var whole: Text := [open] + rest + [close];
    assert whole[1..] == rest + [close];
  }

  /** The properties in the order of their keys, each as key, colon and value, between braces, with commas and
      nothing else. Properties in another order give the same text, by `CanonicalIffSameMeaning`. */
  lemma ObjectText(fields: seq<Field>)
    requires StrictlySorted(fields)
    ensures fields == [] ==> Canonical(Obj(fields)) == [LBRACE, RBRACE]
    ensures |fields| == 1 ==> Canonical(Obj(fields)) == [LBRACE] + FieldText(fields[0]) + [RBRACE]
    ensures |fields| > 1 ==>
              && Canonical(Obj(fields[1..])) != []
              && Canonical(Obj(fields)) == [LBRACE] + FieldText(fields[0]) + ([COMMA] + Canonical(Obj(fields[1..]))[1..])
  {
    SortedObjectText(fields);
    if fields != [] {
      SortedObjectText(fields[1..]);
      assert Canonical(Obj(fields)) == Print(Obj([Field(fields[0].key, SortDeep(fields[0].value))] + SortValues(fields[1..])));
      PrintedObject(Field(fields[0].key, SortDeep(fields[0].value)), SortValues(fields[1..]));
    }
  }

  lemma SortedObjectText(fields: seq<Field>)
    requires StrictlySorted(fields)
    ensures Canonical(Obj(fields)) == Print(Obj(SortValues(fields)))
  {
    SortedStays(SortValues(fields));
  }

  lemma PrintedObject(first: Field, rest: seq<Field>)
    ensures rest == [] ==> Print(Obj([first] + rest)) == [LBRACE] + PrintField(first) + [RBRACE]
    ensures rest != [] ==>
              Print(Obj([first] + rest)) == [LBRACE] + PrintField(first) + ([COMMA] + Print(Obj(rest))[1..])
  {
    assert ([first] + rest)[1..] == rest;
    assert PrintFields([first] + rest) == PrintField(first) + (if rest == [] then [] else [COMMA] + PrintFields(rest));
    Bracketed(LBRACE, PrintField(first), PrintFields(rest), RBRACE);
  }

  function FieldText(f: Field): Text { Canonical(Str(f.key)) + [COLON] + Canonical(f.value) }

  lemma {:induction false} SortedStays(fields: seq<Field>)
    requires StrictlySorted(fields)
    ensures SortFields(fields) == fields
  {
    if fields != [] {
      SortedStays(fields[1..]);
      if |fields| > 1 { assert Less(fields[0].key, fields[1].key); }
    }
  }

  // ----- no shorter text --------------------------------------------------

  lemma QuoteUnitLength(u: CodeUnit)
    ensures 1 <= |QuoteUnit(u)| <= 6
    ensures u >= 0x20 && u != QUOTE && u != BACKSLASH && !IsHigh(u) && !IsLow(u) ==> |QuoteUnit(u)| == 1
  {
  }

  /** Text that starts with a unit that is no surrogate is well paired from the next unit on. */
  lemma {:induction false} PairedAfter(t: Text, n: nat)
    requires Paired(t) && n <= |t| && forall i :: 0 <= i < n ==> !IsHigh(t[i]) && !IsLow(t[i])
    ensures Paired(t[n..])
  {
    if n == 0 {
      assert t[0..] == t;
    } else {
      PairedAfter(t[1..], n - 1);
      assert t[1..][n - 1..] == t[n..];
    }
  }

  /** An escape is no shorter than the printer's form of its unit, and what follows it is still well paired. */
  lemma {:induction false} EscapeLength(t: Text)
    requires t != [] && t[0] == BACKSLASH && Unescape(t[1..]).Some? && Paired(t)
    ensures |QuoteUnit(Unescape(t[1..]).value.0)| <= 1 + Unescape(t[1..]).value.1
    ensures Paired(t[1 + Unescape(t[1..]).value.1..])
  {
    var used := Unescape(t[1..]).value.1;
    var e: Text := t[1..];
    assert t[1] == e[0];
    if used == 5 {
      assert FromHex4(e[1], e[2], e[3], e[4]).Some?;
      assert t[2] == e[1] && t[3] == e[2] && t[4] == e[3] && t[5] == e[4];
    }
    PairedAfter(t, 1 + used);
  }

  /** A unit in front adds at most its own form. */
  lemma UnitInFront(u: CodeUnit, n: nat, s: Text)
    requires |QuoteUnit(u)| <= n
    ensures |QuoteUnits([u] + s)| <= n + |QuoteUnits(s)|
  {
    assert ([u] + s)[1..] == s;
    if StartsWithPair([u] + s) { assert ([u] + s)[2..] == s[1..] && !StartsWithPair(s); }
  }

  /** What the decoder reads as a string is no shorter than what the printer writes for it. */
  lemma {:induction false} UnitsAreShortest(t: Text)
    requires DecodeUnits(t).Some? && Paired(t)
    ensures var (s, rest) := DecodeUnits(t).value; |QuoteUnits(s)| + 1 + |rest| <= |t| && Paired(rest)
    decreases |t|
  {
    if t[0] == QUOTE {
      assert !StartsWithPair(t);
    } else if t[0] == BACKSLASH {
      var (u, used) := Unescape(t[1..]).value;
      EscapeLength(t);
      UnitsAreShortest(t[1 + used..]);
      UnitInFront(u, 1 + used, DecodeUnits(t[1 + used..]).value.0);
    } else if StartsWithPair(t) {
      UnitsAreShortest(t[2..]);
      RawPair(t);
    } else {
      UnitsAreShortest(t[1..]);
      QuoteUnitLength(t[0]);
      UnitInFront(t[0], 1, DecodeUnits(t[1..]).value.0);
    }
  }

  lemma RawPair(t: Text)
    requires DecodeUnits(t).Some? && StartsWithPair(t)
    ensures DecodeUnits(t[2..]).Some?
    ensures var s := DecodeUnits(t[2..]).value.0;
            DecodeUnits(t).value == ([t[0], t[1]] + s, DecodeUnits(t[2..]).value.1) && |QuoteUnits([t[0], t[1]] + s)| == 2 + |QuoteUnits(s)|
  {
    assert t[1..][0] == t[1] && t[1..][1..] == t[2..];
    var s: Text := DecodeUnits(t[2..]).value.0;
    assert [t[0]] + ([t[1]] + s) == [t[0], t[1]] + s;
    assert ([t[0], t[1]] + s)[2..] == s;
  }

  lemma {:induction false} ValueIsShortest(t: Text)
    requires DecodeValue(t).Some? && Paired(t)
    ensures var (v, rest) := DecodeValue(t).value; |Print(v)| + |rest| <= |t| && Paired(rest)
    decreases |t|, 1
  {
    if t[0] == QUOTE {
      PairedAfter(t, 1);
      UnitsAreShortest(t[1..]);
    } else if t[0] == LBRACKET {
      if |t| > 1 && t[1] == RBRACKET {
        PairedAfter(t, 2);
      } else {
        PairedAfter(t, 1);
        ItemsAreShortest(t[1..]);
      }
    } else if t[0] == LBRACE {
      if |t| > 1 && t[1] == RBRACE {
        PairedAfter(t, 2);
      } else {
        PairedAfter(t, 1);
        FieldsAreShortest(t[1..]);
      }
    } else if IsDigit(t[0]) || t[0] == 0x2D {
      NumberUnits(t);
      PairedAfter(t, NumberLength(t));
    } else {
      LiteralRest(t);
    }
  }

  lemma LiteralRest(t: Text)
    requires Paired(t) && (NULL_TEXT <= t || TRUE_TEXT <= t || FALSE_TEXT <= t)
    ensures NULL_TEXT <= t || TRUE_TEXT <= t ==> Paired(t[4..])
    ensures FALSE_TEXT <= t ==> Paired(t[5..])
  {
    if NULL_TEXT <= t || TRUE_TEXT <= t { PairedAfter(t, 4); }
    if FALSE_TEXT <= t { PairedAfter(t, 5); }
  }

  lemma {:induction false} NumberUnits(t: Text)
    ensures forall i :: 0 <= i < NumberLength(t) ==> IsNumberUnit(t[i])
  {
    if t != [] && IsNumberUnit(t[0]) {
      NumberUnits(t[1..]);
      forall i | 0 < i < NumberLength(t) ensures IsNumberUnit(t[i]) { assert t[i] == t[1..][i - 1]; }
    }
  }

  lemma {:induction false} ItemsAreShortest(t: Text)
    requires DecodeItems(t).Some? && Paired(t)
    ensures var (items, rest) := DecodeItems(t).value; |PrintItems(items)| + 1 + |rest| <= |t| && Paired(rest)
    decreases |t|, 2
  {
    ValueIsShortest(t);
    var (v, rest) := DecodeValue(t).value;
    PairedAfter(rest, 1);
    if rest[0] == COMMA {
      ItemsAreShortest(rest[1..]);
      ItemsInFront(v, DecodeItems(rest[1..]).value.0);
    }
  }

  lemma ItemsInFront(v: Value, vs: seq<Value>)
    ensures |PrintItems([v] + vs)| <= |Print(v)| + 1 + |PrintItems(vs)|
  {
    assert ([v] + vs)[1..] == vs;
  }

  lemma {:induction false} FieldIsShortest(t: Text)
    requires DecodeField(t).Some? && Paired(t)
    ensures var (f, rest) := DecodeField(t).value; |PrintField(f)| + |rest| <= |t| && Paired(rest)
    decreases |t|, 2
  {
    PairedAfter(t, 1);
    UnitsAreShortest(t[1..]);
    var rest := DecodeUnits(t[1..]).value.1;
    PairedAfter(rest, 1);
    ValueIsShortest(rest[1..]);
  }

  lemma {:induction false} FieldsAreShortest(t: Text)
    requires DecodeFields(t).Some? && Paired(t)
    ensures var (fields, rest) := DecodeFields(t).value; |PrintFields(fields)| + 1 + |rest| <= |t| && Paired(rest)
    decreases |t|, 3
  {
    FieldIsShortest(t);
    var (f, rest) := DecodeField(t).value;
    PairedAfter(rest, 1);
    if rest[0] == COMMA {
      FieldsAreShortest(rest[1..]);
      FieldsInFront(f, DecodeFields(rest[1..]).value.0);
    }
  }

  lemma FieldsInFront(f: Field, fs: seq<Field>)
    ensures |PrintFields([f] + fs)| <= |PrintField(f)| + 1 + |PrintFields(fs)|
  {
    assert ([f] + fs)[1..] == fs;
  }

  // ----- sorting keeps the length -----------------------------------------

  lemma {:induction false} SortKeepsLength(v: Value)
    ensures |Print(SortDeep(v))| == |Print(v)|
    decreases v
  {
    match v {
      case Arr(items) => SortItemsKeepsLength(items);
      case Obj(fields) =>
        SortValuesKeepsLength(fields);
        SortFieldsKeepsLength(SortValues(fields));
      case _ =>
    }
  }

  lemma {:induction false} SortItemsKeepsLength(items: seq<Value>)
    ensures |PrintItems(SortItems(items))| == |PrintItems(items)|
    decreases items
  {
    if items != [] {
      SortKeepsLength(items[0]);
      SortItemsKeepsLength(items[1..]);
      assert SortItems(items)[1..] == SortItems(items[1..]);
    }
  }

  lemma {:induction false} SortValuesKeepsLength(fields: seq<Field>)
    ensures |PrintFields(SortValues(fields))| == |PrintFields(fields)|
    decreases fields
  {
    if fields != [] {
      SortKeepsLength(fields[0].value);
      SortValuesKeepsLength(fields[1..]);
      assert SortValues(fields)[1..] == SortValues(fields[1..]);
    }
  }

  lemma {:induction false} SortFieldsKeepsLength(fields: seq<Field>)
    ensures |PrintFields(SortFields(fields))| == |PrintFields(fields)|
  {
    if fields != [] {
      SortFieldsKeepsLength(fields[1..]);
      InsertLength(fields[0], SortFields(fields[1..]));
    }
  }

  lemma {:induction false} InsertLength(f: Field, fields: seq<Field>)
    ensures |PrintFields(Insert(f, fields))| == |PrintField(f)| + (if fields == [] then 0 else 1 + |PrintFields(fields)|)
  {
    if fields != [] && !Less(f.key, fields[0].key) {
      InsertLength(f, fields[1..]);
      assert Insert(f, fields)[1..] == Insert(f, fields[1..]);
    } else {
      assert ([f] + fields)[1..] == fields;
    }
  }

  /** No well-paired text that the decoder reads as the same value, up to property order, is shorter than the
      canonical one. */
  lemma CanonicalIsShortest(v: Value, t: Text)
    requires Plain(v) && Paired(t) && Decode(t).Some? && MeaningOf(Decode(t).value) == MeaningOf(v)
    ensures |Canonical(v)| <= |t|
  {
    var w := Decode(t).value;
    ValueIsShortest(t);
    JsonScan.DecodedIsPlain(t);
    CanonicalIffSameMeaning(v, w);
    SortKeepsLength(w);
  }
}
