/** A printed object cut in the middle is not an object: brackets and quotes cannot balance from there. */
module JsonScan {
  import opened Wrappers
  import opened Texts
  import opened Json

  /** Where a left-to-right reader of JSON text stands. */
  datatype Place = Place(inString: bool, escaped: bool, depth: int)

  function Out(depth: int): Place { Place(false, false, depth) }

  function In(depth: int): Place { Place(true, false, depth) }

  function Advance(p: Place, u: CodeUnit): Place {
    if p.inString then
      if p.escaped then p.(escaped := false)
      else if u == BACKSLASH then p.(escaped := true)
      else if u == QUOTE then p.(inString := false)
      else p
    else if u == QUOTE then p.(inString := true)
    else if u == LBRACE || u == LBRACKET then p.(depth := p.depth + 1)
    else if u == RBRACE || u == RBRACKET then p.(depth := p.depth - 1)
    else p
  }

  function Scan(p: Place, t: Text): Place
    decreases |t|
  {
    if t == [] then p else Scan(Advance(p, t[0]), t[1..])
  }

  /** `\` only inside strings, never `\{`, and depth never under `floor`. */
  predicate Lawful(p: Place, t: Text, floor: int)
    decreases |t|
  {
    p.depth >= floor &&
    (t == [] ||
     (&& (t[0] == BACKSLASH ==> p.inString)
      && (p.escaped ==> t[0] != LBRACE)
      && Lawful(Advance(p, t[0]), t[1..], floor)))
  }

  /** `t` leads lawfully from `p` to `q`. */
  predicate Leads(p: Place, t: Text, q: Place, floor: int) {
    Scan(p, t) == q && Lawful(p, t, floor)
  }

  lemma {:induction false} LeadsConcat(p: Place, a: Text, q: Place, b: Text, r: Place, floor: int)
    requires Leads(p, a, q, floor) && Leads(q, b, r, floor)
    ensures Leads(p, a + b, r, floor)
    decreases |a|
  {
    if a == [] {
      assert a + b == b;
    } else {
      LeadsConcat(Advance(p, a[0]), a[1..], q, b, r, floor);
      assert (a + b)[1..] == a[1..] + b;
    }
  }

  lemma {:induction false} LeadsSplit(p: Place, a: Text, b: Text, floor: int)
    requires Lawful(p, a + b, floor)
    ensures Scan(p, a + b) == Scan(Scan(p, a), b)
    ensures Lawful(Scan(p, a), b, floor)
    decreases |a|
  {
    if a == [] {
      assert a + b == b;
    } else {
      assert (a + b)[1..] == a[1..] + b;
      LeadsSplit(Advance(p, a[0]), a[1..], b, floor);
    }
  }

  lemma {:induction false} LeadsLower(p: Place, t: Text, q: Place, floor: int, lower: int)
    requires Leads(p, t, q, floor) && lower <= floor
    ensures Leads(p, t, q, lower)
    decreases |t|
  {
    if t != [] {
      LeadsLower(Advance(p, t[0]), t[1..], q, floor, lower);
    }
  }

  lemma LeadsOne(p: Place, u: CodeUnit, floor: int)
    requires p.depth >= floor && Advance(p, u).depth >= floor
    requires (u == BACKSLASH ==> p.inString) && (p.escaped ==> u != LBRACE)
    ensures Leads(p, [u], Advance(p, u), floor)
  {
    assert Lawful(Advance(p, u), [u][1..], floor);
    assert Scan(Advance(p, u), [u][1..]) == Advance(p, u);
  }

  lemma LeadsCons(p: Place, u: CodeUnit, t: Text, q: Place, floor: int)
    requires p.depth >= floor && Leads(Advance(p, u), t, q, floor)
    requires (u == BACKSLASH ==> p.inString) && (p.escaped ==> u != LBRACE)
    ensures Leads(p, [u] + t, q, floor)
  {
    assert ([u] + t)[1..] == t;
  }

  predicate IsOrdinary(u: CodeUnit) { u != QUOTE && u != BACKSLASH }

  predicate IsStructural(u: CodeUnit) {
    u == QUOTE || u == BACKSLASH || u == LBRACE || u == LBRACKET || u == RBRACE || u == RBRACKET
  }

  lemma {:induction false} LeadsPlainText(p: Place, t: Text)
    requires !p.inString && !p.escaped && forall i :: 0 <= i < |t| ==> !IsStructural(t[i])
    ensures Leads(p, t, p, p.depth)
  {
    if t != [] {
      LeadsPlainText(p, t[1..]);
    }
  }

  lemma {:induction false} LeadsInside(p: Place, t: Text)
    requires p.inString && !p.escaped && forall i :: 0 <= i < |t| ==> IsOrdinary(t[i])
    ensures Leads(p, t, p, p.depth)
  {
    if t != [] {
      LeadsInside(p, t[1..]);
    }
  }

  // ----- printed text -----------------------------------------------------

  lemma QuotedUnitLeads(u: CodeUnit, d: int)
    ensures Leads(In(d), QuoteUnit(u), In(d), d)
  {
    var q := QuoteUnit(u);
    if q[0] == BACKSLASH {
      var tail := q[2..];
      LeadsInside(In(d), tail);
      LeadsCons(Place(true, true, d), q[1], tail, In(d), d);
      LeadsCons(In(d), q[0], [q[1]] + tail, In(d), d);
      assert q == [q[0]] + ([q[1]] + tail);
    } else {
      LeadsInside(In(d), q);
    }
  }

  lemma {:induction false} QuotedUnitsLead(s: Text, d: int)
    ensures Leads(In(d), QuoteUnits(s), In(d), d)
  {
    if s != [] {
      if StartsWithPair(s) {
        QuotedUnitsLead(s[2..], d);
        LeadsInside(In(d), s[..2]);
        LeadsConcat(In(d), s[..2], In(d), QuoteUnits(s[2..]), In(d), d);
      } else {
        QuotedUnitsLead(s[1..], d);
        QuotedUnitLeads(s[0], d);
        LeadsConcat(In(d), QuoteUnit(s[0]), In(d), QuoteUnits(s[1..]), In(d), d);
      }
    }
  }

  /** `t` between quotes, when `t` stays inside the string. */
  lemma QuotedLeads(t: Text, d: int)
    requires Leads(In(d), t, In(d), d)
    ensures Leads(Out(d), [QUOTE] + t + [QUOTE], Out(d), d)
  {
    LeadsOne(In(d), QUOTE, d);
    LeadsConcat(In(d), t, In(d), [QUOTE], Out(d), d);
    LeadsCons(Out(d), QUOTE, t + [QUOTE], Out(d), d);
    assert [QUOTE] + t + [QUOTE] == [QUOTE] + (t + [QUOTE]);
  }

  lemma BracketedLeads(open: CodeUnit, t: Text, close: CodeUnit, d: int)
    requires open == LBRACE || open == LBRACKET
    requires close == RBRACE || close == RBRACKET
    requires Leads(Out(d + 1), t, Out(d + 1), d + 1)
    ensures Leads(Out(d), [open] + t + [close], Out(d), d)
  {
    LeadsLower(Out(d + 1), t, Out(d + 1), d + 1, d);
    LeadsOne(Out(d + 1), close, d);
    LeadsConcat(Out(d + 1), t, Out(d + 1), [close], Out(d), d);
    LeadsCons(Out(d), open, t + [close], Out(d), d);
    assert [open] + t + [close] == [open] + (t + [close]);
  }

  lemma {:induction false} PrintLeads(v: Value, d: int)
    requires WellFormed(v)
    ensures Leads(Out(d), Print(v), Out(d), d)
    decreases v
  {
    match v {
      case Str(s) =>
        QuotedUnitsLead(s, d);
        QuotedLeads(QuoteUnits(s), d);
      case Arr(items) =>
        PrintItemsLead(items, d + 1);
        BracketedLeads(LBRACKET, PrintItems(items), RBRACKET, d);
      case Obj(fields) =>
        PrintFieldsLead(fields, d + 1);
        BracketedLeads(LBRACE, PrintFields(fields), RBRACE, d);
      case _ => LeadsPlainText(Out(d), Print(v));
    }
  }

  /** `t` followed by a comma and `more`. */
  lemma SeparatedLeads(t: Text, more: Text, d: int)
    requires Leads(Out(d), t, Out(d), d) && Leads(Out(d), more, Out(d), d)
    ensures Leads(Out(d), t + ([COMMA] + more), Out(d), d)
  {
    LeadsCons(Out(d), COMMA, more, Out(d), d);
    LeadsConcat(Out(d), t, Out(d), [COMMA] + more, Out(d), d);
  }

  lemma {:induction false} PrintItemsLead(items: seq<Value>, d: int)
    requires forall i :: 0 <= i < |items| ==> WellFormed(items[i])
    ensures Leads(Out(d), PrintItems(items), Out(d), d)
    decreases items
  {
    if items != [] {
      PrintLeads(items[0], d);
      if |items| == 1 {
        assert PrintItems(items) == Print(items[0]);
      } else {
        PrintItemsLead(items[1..], d);
        SeparatedLeads(Print(items[0]), PrintItems(items[1..]), d);
      }
    }
  }

  lemma KeyValueLeads(key: Text, value: Text, d: int)
    requires Leads(In(d), key, In(d), d) && Leads(Out(d), value, Out(d), d)
    ensures Leads(Out(d), [QUOTE] + key + [QUOTE] + [COLON] + value, Out(d), d)
  {
    QuotedLeads(key, d);
    LeadsCons(Out(d), COLON, value, Out(d), d);
    LeadsConcat(Out(d), [QUOTE] + key + [QUOTE], Out(d), [COLON] + value, Out(d), d);
    assert [QUOTE] + key + [QUOTE] + [COLON] + value == [QUOTE] + key + [QUOTE] + ([COLON] + value);
  }

  lemma {:induction false} PrintFieldsLead(fields: seq<Field>, d: int)
    requires forall i :: 0 <= i < |fields| ==> WellFormed(fields[i].value)
    ensures Leads(Out(d), PrintFields(fields), Out(d), d)
    decreases fields
  {
    if fields != [] {
      QuotedUnitsLead(fields[0].key, d);
      PrintLeads(fields[0].value, d);
      KeyValueLeads(QuoteUnits(fields[0].key), Print(fields[0].value), d);
      if |fields| == 1 {
        assert PrintFields(fields) == PrintField(fields[0]);
      } else {
        PrintFieldsLead(fields[1..], d);
        SeparatedLeads(PrintField(fields[0]), PrintFields(fields[1..]), d);
      }
    }
  }

  // ----- decoded text -----------------------------------------------------

  /** `rest` is what is left of `t` after reading `used`. */
  predicate Splits(t: Text, used: Text, rest: Text) { t == used + rest }

  lemma SplitsClose(t: Text, first: Text, rest: Text)
    requires Splits(t, first, rest) && rest != []
    ensures Splits(t, first + [rest[0]], rest[1..])
  {
  }

  lemma SplitsMore(t: Text, first: Text, rest: Text, more: Text, after: Text)
    requires Splits(t, first, rest) && rest != [] && Splits(rest[1..], more, after)
    ensures Splits(t, first + ([rest[0]] + more), after)
  {
    assert rest == [rest[0]] + rest[1..];
  }

  lemma SplitsEscape(t: Text, n: nat, more: Text, rest: Text)
    requires 1 <= n < |t| && t[0] == BACKSLASH && Splits(t[1 + n..], more, rest)
    ensures Splits(t, [BACKSLASH] + ([t[1]] + (t[2..1 + n] + more)), rest)
  {
    assert t == [BACKSLASH] + [t[1]] + t[2..1 + n] + t[1 + n..];
  }

  lemma {:induction false} DecodedUnitsLead(t: Text, d: int) returns (used: Text)
    requires DecodeUnits(t).Some?
    ensures Splits(t, used, DecodeUnits(t).value.1)
    ensures Leads(In(d), used, Out(d), d)
  {
    if t[0] == QUOTE {
      used := [QUOTE];
      LeadsOne(In(d), QUOTE, d);
    } else if t[0] == BACKSLASH {
      var n := Unescape(t[1..]).value.1;
      var more := DecodedUnitsLead(t[1 + n..], d);
      var tail := t[2..1 + n];
      LeadsInside(In(d), tail);
      LeadsConcat(In(d), tail, In(d), more, Out(d), d);
      LeadsCons(Place(true, true, d), t[1], tail + more, Out(d), d);
      LeadsCons(In(d), BACKSLASH, [t[1]] + (tail + more), Out(d), d);
      SplitsEscape(t, n, more, DecodeUnits(t[1 + n..]).value.1);
      used := [BACKSLASH] + ([t[1]] + (tail + more));
    } else {
      var more := DecodedUnitsLead(t[1..], d);
      LeadsCons(In(d), t[0], more, Out(d), d);
      used := [t[0]] + more;
    }
  }

  lemma DecodedStringLeads(t: Text, d: int) returns (used: Text)
    requires t != [] && t[0] == QUOTE && DecodeUnits(t[1..]).Some?
    ensures Splits(t, used, DecodeUnits(t[1..]).value.1)
    ensures Leads(Out(d), used, Out(d), d)
  {
    var more := DecodedUnitsLead(t[1..], d);
    LeadsCons(Out(d), QUOTE, more, Out(d), d);
    used := [QUOTE] + more;
  }

  /** A value with its brackets. */
  lemma CloseLeads(open: CodeUnit, t: Text, d: int)
    requires open == LBRACE || open == LBRACKET
    requires Leads(Out(d + 1), t, Out(d), d)
    ensures Leads(Out(d), [open] + t, Out(d), d)
  {
    LeadsCons(Out(d), open, t, Out(d), d);
  }

  lemma {:induction false} NumberRun(t: Text)
    ensures forall i :: 0 <= i < NumberLength(t) ==> IsNumberUnit(t[i])
  {
    if t != [] && IsNumberUnit(t[0]) {
      NumberRun(t[1..]);
    }
  }

  lemma {:induction false} DecodedValueLeads(t: Text, d: int) returns (used: Text)
    requires DecodeValue(t).Some?
    ensures Splits(t, used, DecodeValue(t).value.1)
    ensures Leads(Out(d), used, Out(d), d)
    decreases |t|, 1
  {
    if t[0] == QUOTE {
      used := DecodedStringLeads(t, d);
    } else if t[0] == LBRACKET {
      used := DecodedArrayLeads(t, d);
    } else if t[0] == LBRACE {
      used := DecodedObjectLeads(t, d);
    } else {
      NumberRun(t);
      used := t[..|t| - |DecodeValue(t).value.1|];
      LeadsPlainText(Out(d), used);
    }
  }

  lemma {:induction false} DecodedArrayLeads(t: Text, d: int) returns (used: Text)
    requires DecodeValue(t).Some? && t[0] == LBRACKET
    ensures Splits(t, used, DecodeValue(t).value.1)
    ensures Leads(Out(d), used, Out(d), d)
    decreases |t|, 0
  {
    if |t| > 1 && t[1] == RBRACKET {
      LeadsOne(Out(d + 1), RBRACKET, d);
      CloseLeads(LBRACKET, [RBRACKET], d);
      used := [LBRACKET] + [RBRACKET];
    } else {
      var more := DecodedItemsLead(t[1..], d + 1);
      CloseLeads(LBRACKET, more, d);
      used := [LBRACKET] + more;
    }
  }

  lemma {:induction false} DecodedObjectLeads(t: Text, d: int) returns (used: Text)
    requires DecodeValue(t).Some? && t[0] == LBRACE
    ensures Splits(t, used, DecodeValue(t).value.1)
    ensures Leads(Out(d), used, Out(d), d)
    decreases |t|, 0
  {
    if |t| > 1 && t[1] == RBRACE {
      LeadsOne(Out(d + 1), RBRACE, d);
      CloseLeads(LBRACE, [RBRACE], d);
      used := [LBRACE] + [RBRACE];
    } else {
      var more := DecodedFieldsLead(t[1..], d + 1);
      CloseLeads(LBRACE, more, d);
      used := [LBRACE] + more;
    }
  }

  /** One element, then the closing bracket or a comma and `more`. */
  lemma ThenClose(first: Text, close: CodeUnit, d: int)
    requires close == RBRACE || close == RBRACKET
    requires Leads(Out(d), first, Out(d), d)
    ensures Leads(Out(d), first + [close], Out(d - 1), d - 1)
  {
    LeadsLower(Out(d), first, Out(d), d, d - 1);
    LeadsOne(Out(d), close, d - 1);
    LeadsConcat(Out(d), first, Out(d), [close], Out(d - 1), d - 1);
  }

  lemma ThenMore(first: Text, more: Text, d: int)
    requires Leads(Out(d), first, Out(d), d) && Leads(Out(d), more, Out(d - 1), d - 1)
    ensures Leads(Out(d), first + ([COMMA] + more), Out(d - 1), d - 1)
  {
    LeadsLower(Out(d), first, Out(d), d, d - 1);
    LeadsCons(Out(d), COMMA, more, Out(d - 1), d - 1);
    LeadsConcat(Out(d), first, Out(d), [COMMA] + more, Out(d - 1), d - 1);
  }

  lemma {:induction false} DecodedItemsLead(t: Text, d: int) returns (used: Text)
    requires DecodeItems(t).Some?
    ensures Splits(t, used, DecodeItems(t).value.1)
    ensures Leads(Out(d), used, Out(d - 1), d - 1)
    decreases |t|, 2
  {
    var first := DecodedValueLeads(t, d);
    var rest := DecodeValue(t).value.1;
    if rest[0] == RBRACKET {
      ThenClose(first, RBRACKET, d);
      SplitsClose(t, first, rest);
      used := first + [RBRACKET];
    } else {
      var more := DecodedItemsLead(rest[1..], d);
      ThenMore(first, more, d);
      SplitsMore(t, first, rest, more, DecodeItems(rest[1..]).value.1);
      used := first + ([COMMA] + more);
    }
  }

  lemma {:induction false} DecodedFieldLeads(t: Text, d: int) returns (used: Text)
    requires DecodeField(t).Some?
    ensures Splits(t, used, DecodeField(t).value.1)
    ensures Leads(Out(d), used, Out(d), d)
    decreases |t|, 2
  {
    var key := DecodedStringLeads(t, d);
    var rest := DecodeUnits(t[1..]).value.1;
    var value := DecodedValueLeads(rest[1..], d);
    LeadsCons(Out(d), COLON, value, Out(d), d);
    LeadsConcat(Out(d), key, Out(d), [COLON] + value, Out(d), d);
    used := key + ([COLON] + value);
  }

  lemma {:induction false} DecodedFieldsLead(t: Text, d: int) returns (used: Text)
    requires DecodeFields(t).Some?
    ensures Splits(t, used, DecodeFields(t).value.1)
    ensures Leads(Out(d), used, Out(d - 1), d - 1)
    decreases |t|, 3
  {
    var first := DecodedFieldLeads(t, d);
    var rest := DecodeField(t).value.1;
    if rest[0] == RBRACE {
      ThenClose(first, RBRACE, d);
      SplitsClose(t, first, rest);
      used := first + [RBRACE];
    } else {
      var more := DecodedFieldsLead(rest[1..], d);
      ThenMore(first, more, d);
      SplitsMore(t, first, rest, more, DecodeFields(rest[1..]).value.1);
      used := first + ([COMMA] + more);
    }
  }

  // ----- the two readings disagree ----------------------------------------

  /** Two readers, one inside a string and one outside, stay on opposite sides:
      neither can meet a `\`, because the other one is outside at that point. */
  lemma {:induction false} OppositeReaders(p: Place, q: Place, t: Text, pf: int, qf: int)
    requires p.inString && !q.inString && !p.escaped && !q.escaped
    requires Lawful(p, t, pf) && Lawful(q, t, qf)
    ensures Scan(p, t).inString != Scan(q, t).inString
    decreases |t|
  {
    if t != [] {
      if t[0] == QUOTE {
        OppositeReaders(Advance(q, QUOTE), Advance(p, QUOTE), t[1..], qf, pf);
      } else {
        OppositeReaders(Advance(p, t[0]), Advance(q, t[0]), t[1..], pf, qf);
      }
    }
  }

  /** Strictly inside an object the depth is at least one. */
  lemma {:induction false} LawfulPrefix(p: Place, a: Text, b: Text, floor: int)
    requires Lawful(p, a + b, floor)
    ensures Scan(p, a).depth >= floor
  {
    LeadsSplit(p, a, b, floor);
  }

  lemma InsideObject(fields: seq<Field>, k: nat)
    requires WellFormed(Obj(fields)) && 0 < k < |Print(Obj(fields))|
    ensures Scan(Out(0), Print(Obj(fields))[..k]).depth >= 1
  {
    PrintFieldsLead(fields, 1);
    InsideBody(PrintFields(fields), k);
  }

  lemma InsideBody(body: Text, k: nat)
    requires Leads(Out(1), body, Out(1), 1) && 0 < k <= |body| + 1
    ensures Scan(Out(0), ([LBRACE] + body + [RBRACE])[..k]).depth >= 1
  {
    var a: Text, b: Text := body[..k - 1], body[k - 1..];
    assert body == a + b;
    LawfulPrefix(Out(1), a, b, 1);
    AfterBrace(body, k);
  }

  lemma AfterBrace(body: Text, k: nat)
    requires 0 < k <= |body| + 1
    ensures Scan(Out(0), ([LBRACE] + body + [RBRACE])[..k]) == Scan(Out(1), body[..k - 1])
  {
    var a: Text := body[..k - 1];
    assert ([LBRACE] + body + [RBRACE])[..k] == [LBRACE] + a;
    assert ([LBRACE] + a)[1..] == a;
  }

  lemma OutsideSuffix(t: Text, k: nat, used: Text)
    requires k <= |t| && t[k..] == used
    requires Leads(Out(0), t, Out(0), 0)
    requires !Scan(Out(0), t[..k]).inString && !Scan(Out(0), t[..k]).escaped
    requires forall d :: Scan(Out(d), used) == Out(d)
    ensures Scan(Out(0), t[..k]).depth == 0
  {
    assert t == t[..k] + used;
    LeadsSplit(Out(0), t[..k], used, 0);
    var p := Scan(Out(0), t[..k]);
    assert p == Out(p.depth);
  }

  lemma {:induction false} EscapedMeansInside(p: Place, t: Text)
    requires p.escaped ==> p.inString
    ensures Scan(p, t).escaped ==> Scan(p, t).inString
    decreases |t|
  {
    if t != [] {
      EscapedMeansInside(Advance(p, t[0]), t[1..]);
    }
  }

  /** No proper suffix of a printed object decodes as an object. */
  lemma ObjectSuffixIsNotObject(v: Value, k: nat)
    requires Plain(v) && v.Obj? && 0 < k < |Print(v)|
    ensures Decode(Print(v)[k..]).Some? ==> !Decode(Print(v)[k..]).value.Obj?
  {
    var t := Print(v);
    var suffix := t[k..];
    if Decode(suffix).Some? && Decode(suffix).value.Obj? {
      PrintLeads(v, 0);
      InsideObject(v.fields, k);
      var p := Scan(Out(0), t[..k]);
      assert t == t[..k] + suffix;
      LeadsSplit(Out(0), t[..k], suffix, 0);
      EscapedMeansInside(Out(0), t[..k]);
      assert suffix[0] == LBRACE;
      if p.inString {
        var used := DecodedValueLeads(suffix, 0);
        assert used == suffix;
        OppositeReaders(p, Out(0), suffix, 0, 0);
      } else {
        forall d ensures Scan(Out(d), suffix) == Out(d) {
          var used := DecodedValueLeads(suffix, d);
          assert used == suffix;
        }
        OutsideSuffix(t, k, suffix);
      }
      assert false;
    }
  }

  // ----- decoded values are plain -----------------------------------------

  lemma {:induction false} DecodedIsPlain(t: Text)
    requires DecodeValue(t).Some?
    ensures Plain(DecodeValue(t).value.0)
    decreases |t|, 1
  {
    if t[0] == LBRACKET {
      if !(|t| > 1 && t[1] == RBRACKET) { DecodedItemsArePlain(t[1..]); }
    } else if t[0] == LBRACE {
      if !(|t| > 1 && t[1] == RBRACE) { DecodedFieldsArePlain(t[1..]); }
    } else {
      NumberRun(t);
    }
  }

  lemma {:induction false} DecodedItemsArePlain(t: Text)
    requires DecodeItems(t).Some?
    ensures forall i :: 0 <= i < |DecodeItems(t).value.0| ==> Plain(DecodeItems(t).value.0[i])
    decreases |t|, 2
  {
    DecodedIsPlain(t);
    var rest := DecodeValue(t).value.1;
    if rest[0] == COMMA { DecodedItemsArePlain(rest[1..]); }
  }

  lemma {:induction false} DecodedFieldsArePlain(t: Text)
    requires DecodeFields(t).Some?
    ensures forall i :: 0 <= i < |DecodeFields(t).value.0| ==> Plain(DecodeFields(t).value.0[i].value)
    decreases |t|, 2
  {
    DecodedIsPlain(DecodeUnits(t[1..]).value.1[1..]);
    var rest := DecodeField(t).value.1;
    if rest[0] == COMMA { DecodedFieldsArePlain(rest[1..]); }
  }
}
