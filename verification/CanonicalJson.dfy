/** `canonicalJson`: the sorted-key printer that every signature is taken over. */
module CanonicalJson {
  import opened Wrappers
  import opened Texts
  import opened Json

  datatype TypeError = NotSerializable

  /** What a value means: objects are finite maps, so property order is forgotten at every depth. */
  datatype Meaning =
    | MNull
    | MBool(b: bool)
    | MNumber(token: Text)
    | MStr(s: Text)
    | MArr(items: seq<Meaning>)
    | MObj(fields: map<Text, Meaning>)
    | MOther

  function MeaningOf(v: Value): Meaning {
    match v
    case Null => MNull
    case Bool(b) => MBool(b)
    case Number(t) => MNumber(t)
    case Str(s) => MStr(s)
    case Arr(items) => MArr(ItemsMeaning(items))
    case Obj(fields) => MObj(FieldsMeaning(fields))
    case NonFinite => MOther
    case Unsupported => MOther
  }

  function ItemsMeaning(items: seq<Value>): (r: seq<Meaning>)
    ensures |r| == |items|
  {
    if items == [] then [] else [MeaningOf(items[0])] + ItemsMeaning(items[1..])
  }

  function FieldsMeaning(fields: seq<Field>): map<Text, Meaning> {
    if fields == [] then map[]
    else FieldsMeaning(fields[1..])[fields[0].key := MeaningOf(fields[0].value)]
  }

  // ----- sorting ----------------------------------------------------------

  /** `keys.sort()` on the fields of one object, by insertion. */
  function SortFields(fields: seq<Field>): (r: seq<Field>)
    ensures |r| == |fields|
  {
    if fields == [] then [] else Insert(fields[0], SortFields(fields[1..]))
  }

  function Insert(f: Field, fields: seq<Field>): (r: seq<Field>)
    ensures |r| == |fields| + 1
  {
    if fields == [] || Less(f.key, fields[0].key) then [f] + fields
    else [fields[0]] + Insert(f, fields[1..])
  }

  lemma {:induction false} InsertAdds(f: Field, fields: seq<Field>)
    ensures multiset(Insert(f, fields)) == multiset{f} + multiset(fields)
  {
    if fields != [] {
      assert fields == [fields[0]] + fields[1..];
      InsertAdds(f, fields[1..]);
    }
  }

  /** Sorting permutes the fields. */
  lemma {:induction false} SortPermutes(fields: seq<Field>)
    ensures multiset(SortFields(fields)) == multiset(fields)
  {
    if fields != [] {
      assert fields == [fields[0]] + fields[1..];
      SortPermutes(fields[1..]);
      InsertAdds(fields[0], SortFields(fields[1..]));
    }
  }

  lemma InsertedField(f: Field, fields: seq<Field>, i: nat)
    requires i <= |fields|
    ensures Insert(f, fields)[i] == f || Insert(f, fields)[i] in fields
  {
    InsertAdds(f, fields);
    assert Insert(f, fields)[i] in multiset(Insert(f, fields));
  }

  lemma SortedField(fields: seq<Field>, i: nat)
    requires i < |fields|
    ensures SortFields(fields)[i] in fields
  {
    SortPermutes(fields);
    assert SortFields(fields)[i] in multiset(SortFields(fields));
  }

  /** The value with the properties of every object, at every depth, in sorted order. */
  function SortDeep(v: Value): Value {
    match v
    case Arr(items) => Arr(SortItems(items))
    case Obj(fields) => Obj(SortFields(SortValues(fields)))
    case _ => v
  }

  function SortItems(items: seq<Value>): (r: seq<Value>)
    ensures |r| == |items|
  {
    if items == [] then [] else [SortDeep(items[0])] + SortItems(items[1..])
  }

  function SortValues(fields: seq<Field>): (r: seq<Field>)
    ensures |r| == |fields|
    ensures forall i :: 0 <= i < |r| ==> r[i].key == fields[i].key
  {
    if fields == [] then [] else [Field(fields[0].key, SortDeep(fields[0].value))] + SortValues(fields[1..])
  }

  predicate StrictlySorted(fields: seq<Field>) {
    forall i, j :: 0 <= i < j < |fields| ==> Less(fields[i].key, fields[j].key)
  }

  /** Every object at every depth lists its properties in strictly increasing order. */
  predicate Sorted(v: Value) {
    match v
    case Arr(items) => forall i :: 0 <= i < |items| ==> Sorted(items[i])
    case Obj(fields) => StrictlySorted(fields) && forall i :: 0 <= i < |fields| ==> Sorted(fields[i].value)
    case _ => true
  }

  predicate Fresh(k: Text, fields: seq<Field>) {
    forall i :: 0 <= i < |fields| ==> fields[i].key != k
  }

  lemma {:induction false} MeaningKeys(fields: seq<Field>, k: Text)
    ensures k in FieldsMeaning(fields) <==> !Fresh(k, fields)
  {
    if fields != [] {
      MeaningKeys(fields[1..], k);
      assert Fresh(k, fields) <==> fields[0].key != k && Fresh(k, fields[1..]);
    }
  }

  lemma {:induction false} InsertKeepsOrder(f: Field, fields: seq<Field>)
    requires StrictlySorted(fields) && Fresh(f.key, fields)
    ensures StrictlySorted(Insert(f, fields))
  {
    if fields == [] {
    } else if Less(f.key, fields[0].key) {
      forall j | 0 <= j < |fields| ensures Less(f.key, fields[j].key) {
        if j > 0 { LessIsTransitive(f.key, fields[0].key, fields[j].key); }
      }
    } else {
      LessIsTotal(f.key, fields[0].key);
      InsertKeepsOrder(f, fields[1..]);
      forall j | 0 <= j < |fields| ensures Less(fields[0].key, Insert(f, fields[1..])[j].key) {
        InsertedField(f, fields[1..], j);
      }
    }
  }

  lemma {:induction false} InsertMeaning(f: Field, fields: seq<Field>)
    requires Fresh(f.key, fields)
    ensures FieldsMeaning(Insert(f, fields)) == FieldsMeaning(fields)[f.key := MeaningOf(f.value)]
  {
    if fields == [] || Less(f.key, fields[0].key) {
      assert ([f] + fields)[1..] == fields;
    } else {
      InsertMeaning(f, fields[1..]);
      assert Insert(f, fields)[1..] == Insert(f, fields[1..]);
    }
  }

  lemma SortedFieldsAreFresh(k: Text, fields: seq<Field>)
    requires Fresh(k, fields)
    ensures Fresh(k, SortFields(fields))
  {
    forall i | 0 <= i < |fields| ensures SortFields(fields)[i].key != k {
      SortedField(fields, i);
    }
  }

  lemma {:induction false} SortFieldsSorts(fields: seq<Field>)
    requires UniqueKeys(fields)
    ensures StrictlySorted(SortFields(fields))
    ensures FieldsMeaning(SortFields(fields)) == FieldsMeaning(fields)
  {
    if fields != [] {
      SortFieldsSorts(fields[1..]);
      SortedFieldsAreFresh(fields[0].key, fields[1..]);
      InsertKeepsOrder(fields[0], SortFields(fields[1..]));
      InsertMeaning(fields[0], SortFields(fields[1..]));
    }
  }

  lemma SortedObj(fields: seq<Field>)
    requires UniqueKeys(fields)
    requires forall i :: 0 <= i < |fields| ==> Plain(fields[i].value) && Sorted(fields[i].value)
    ensures Plain(Obj(SortFields(fields))) && Sorted(Obj(SortFields(fields)))
  {
    var r := SortFields(fields);
    SortFieldsSorts(fields);
    forall i | 0 <= i < |r| ensures Plain(r[i].value) && Sorted(r[i].value) {
      SortedField(fields, i);
    }
    forall i, j | 0 <= i < j < |r| ensures r[i].key != r[j].key {
      LessIsIrreflexive(r[i].key);
    }
  }

  /** Sorting keeps the meaning and yields a plain value in sorted form. */
  lemma {:induction false} SortDeepSorts(v: Value)
    requires Plain(v)
    ensures Plain(SortDeep(v)) && Sorted(SortDeep(v)) && MeaningOf(SortDeep(v)) == MeaningOf(v)
    decreases v
  {
    match v {
      case Arr(items) => SortItemsSorts(items);
      case Obj(fields) =>
        SortValuesSorts(fields);
        SortFieldsSorts(SortValues(fields));
        SortedObj(SortValues(fields));
      case _ =>
    }
  }

  lemma {:induction false} SortItemsSorts(items: seq<Value>)
    requires forall i :: 0 <= i < |items| ==> Plain(items[i])
    ensures forall i :: 0 <= i < |items| ==> Plain(SortItems(items)[i]) && Sorted(SortItems(items)[i])
    ensures ItemsMeaning(SortItems(items)) == ItemsMeaning(items)
    decreases items
  {
    if items != [] {
      SortDeepSorts(items[0]);
      SortItemsSorts(items[1..]);
      assert SortItems(items)[1..] == SortItems(items[1..]);
    }
  }

  lemma {:induction false} SortValuesSorts(fields: seq<Field>)
    requires forall i :: 0 <= i < |fields| ==> Plain(fields[i].value)
    ensures forall i :: 0 <= i < |fields| ==> Plain(SortValues(fields)[i].value) && Sorted(SortValues(fields)[i].value)
    ensures FieldsMeaning(SortValues(fields)) == FieldsMeaning(fields)
    decreases fields
  {
    if fields != [] {
      SortDeepSorts(fields[0].value);
      SortValuesSorts(fields[1..]);
      assert SortValues(fields)[1..] == SortValues(fields[1..]);
    }
  }

  // ----- sorted values are determined by their meaning ---------------------

  lemma {:induction false} SortedIsUnique(v: Value, w: Value)
    requires Serializable(v) && Serializable(w) && Sorted(v) && Sorted(w)
    requires MeaningOf(v) == MeaningOf(w)
    ensures v == w
    decreases v
  {
    match v {
      case Arr(items) => SortedItemsAreUnique(items, w.items);
      case Obj(fields) => SortedFieldsAreUnique(fields, w.fields);
      case _ =>
    }
  }

  lemma {:induction false} SortedItemsAreUnique(a: seq<Value>, b: seq<Value>)
    requires forall i :: 0 <= i < |a| ==> Serializable(a[i]) && Sorted(a[i])
    requires forall i :: 0 <= i < |b| ==> Serializable(b[i]) && Sorted(b[i])
    requires ItemsMeaning(a) == ItemsMeaning(b)
    ensures a == b
    decreases a
  {
    assert |a| == |ItemsMeaning(a)| == |b|;
    if a != [] {
      assert ItemsMeaning(a)[0] == ItemsMeaning(b)[0];
      assert ItemsMeaning(a)[1..] == ItemsMeaning(a[1..]) && ItemsMeaning(b)[1..] == ItemsMeaning(b[1..]);
      SortedIsUnique(a[0], b[0]);
      SortedItemsAreUnique(a[1..], b[1..]);
      assert a == [a[0]] + a[1..] && b == [b[0]] + b[1..];
    }
  }

  lemma FirstKeyIsLeast(a: seq<Field>, b: seq<Field>)
    requires a != [] && b != [] && StrictlySorted(a) && StrictlySorted(b)
    requires FieldsMeaning(a).Keys == FieldsMeaning(b).Keys
    ensures a[0].key == b[0].key
  {
    MeaningKeys(a, a[0].key);
    MeaningKeys(b, a[0].key);
    MeaningKeys(b, b[0].key);
    MeaningKeys(a, b[0].key);
    var i :| 0 <= i < |b| && b[i].key == a[0].key;
    var j :| 0 <= j < |a| && a[j].key == b[0].key;
    if i != 0 && j != 0 {
      LessIsTransitive(a[0].key, b[0].key, a[0].key);
      LessIsIrreflexive(a[0].key);
    }
  }

  lemma TailMeaning(fields: seq<Field>)
    requires fields != [] && StrictlySorted(fields)
    ensures fields[0].key in FieldsMeaning(fields)
    ensures FieldsMeaning(fields)[fields[0].key] == MeaningOf(fields[0].value)
    ensures FieldsMeaning(fields[1..]) == FieldsMeaning(fields) - {fields[0].key}
  {
    LessIsIrreflexive(fields[0].key);
    assert Fresh(fields[0].key, fields[1..]);
    MeaningKeys(fields[1..], fields[0].key);
  }

  lemma {:induction false} SortedFieldsAreUnique(a: seq<Field>, b: seq<Field>)
    requires StrictlySorted(a) && forall i :: 0 <= i < |a| ==> Serializable(a[i].value) && Sorted(a[i].value)
    requires StrictlySorted(b) && forall i :: 0 <= i < |b| ==> Serializable(b[i].value) && Sorted(b[i].value)
    requires FieldsMeaning(a) == FieldsMeaning(b)
    ensures a == b
    decreases a
  {
    if a != [] { TailMeaning(a); }
    if b != [] { TailMeaning(b); }
    if a != [] && b != [] {
      FirstKeyIsLeast(a, b);
      SortedIsUnique(a[0].value, b[0].value);
      SortedFieldsAreUnique(a[1..], b[1..]);
      assert a == [a[0]] + a[1..] && b == [b[0]] + b[1..];
    }
  }

  // ----- the canonical text -----------------------------------------------

  /** The canonical text of a value. */
  function Canonical(v: Value): Text { Print(SortDeep(v)) }

  /** Canonical texts are equal exactly when the values are equal up to property order at every depth. */
  lemma CanonicalIffSameMeaning(v: Value, w: Value)
    requires Plain(v) && Plain(w)
    ensures Canonical(v) == Canonical(w) <==> MeaningOf(v) == MeaningOf(w)
  {
    SortDeepSorts(v);
    SortDeepSorts(w);
    RoundTrip(SortDeep(v));
    RoundTrip(SortDeep(w));
    if MeaningOf(v) == MeaningOf(w) {
      SortedIsUnique(SortDeep(v), SortDeep(w));
    }
  }

  /** The decoder inverts the canonical printer up to property order. */
  lemma CanonicalRoundTrip(v: Value)
    requires Plain(v)
    ensures Decode(Canonical(v)).Some? && MeaningOf(Decode(Canonical(v)).value) == MeaningOf(v)
    ensures Clean(Canonical(v))
  {
    SortDeepSorts(v);
    RoundTrip(SortDeep(v));
    PrintIsClean(SortDeep(v));
  }

  /** No canonical text other than a number's is a proper prefix of a canonical text. */
  lemma CanonicalPrefixFree(v: Value, w: Value)
    requires Plain(v) && Plain(w) && !v.Number? && Canonical(v) <= Canonical(w)
    ensures MeaningOf(v) == MeaningOf(w)
  {
    SortDeepSorts(v);
    SortDeepSorts(w);
    PrefixFree(SortDeep(v), SortDeep(w));
  }

  // ----- the encoder ------------------------------------------------------

  function CanonicalSpec(v: Value): Result<Text, TypeError> {
    if Serializable(v) then Success(Canonical(v)) else Failure(NotSerializable)
  }

  lemma {:induction false} InsertCommutes(f: Field, fields: seq<Field>)
    ensures SortValues(Insert(f, fields)) == Insert(Field(f.key, SortDeep(f.value)), SortValues(fields))
  {
    if fields == [] {
      assert ([f] + fields)[1..] == [];
    } else if Less(f.key, fields[0].key) {
      assert ([f] + fields)[1..] == fields;
    } else {
      InsertCommutes(f, fields[1..]);
      assert Insert(f, fields)[1..] == Insert(f, fields[1..]);
      assert SortValues(fields)[1..] == SortValues(fields[1..]);
    }
  }

  /** Sorting the keys first and encoding the values after gives the same fields. */
  lemma {:induction false} SortCommutes(fields: seq<Field>)
    ensures SortValues(SortFields(fields)) == SortFields(SortValues(fields))
  {
    if fields != [] {
      SortCommutes(fields[1..]);
      InsertCommutes(fields[0], SortFields(fields[1..]));
      assert SortValues(fields)[1..] == SortValues(fields[1..]);
    }
  }

  /** `parts.join(',')`. */
  lemma {:induction false} JoinItems(items: seq<Value>, parts: seq<Text>)
    requires |parts| == |items| && forall i :: 0 <= i < |items| ==> parts[i] == Print(items[i])
    ensures Join(parts, COMMA) == PrintItems(items)
  {
    if items != [] {
      JoinItems(items[1..], parts[1..]);
    }
  }

  lemma {:induction false} JoinFields(fields: seq<Field>, parts: seq<Text>)
    requires |parts| == |fields| && forall i :: 0 <= i < |fields| ==> parts[i] == PrintField(fields[i])
    ensures Join(parts, COMMA) == PrintFields(fields)
  {
    if fields != [] {
      JoinFields(fields[1..], parts[1..]);
    }
  }

  lemma {:induction false} SortItemsAt(items: seq<Value>, i: nat)
    requires i < |items|
    ensures SortItems(items)[i] == SortDeep(items[i])
  {
    if i > 0 { SortItemsAt(items[1..], i - 1); }
  }

  lemma {:induction false} SortValuesAt(fields: seq<Field>, i: nat)
    requires i < |fields|
    ensures SortValues(fields)[i] == Field(fields[i].key, SortDeep(fields[i].value))
  {
    if i > 0 { SortValuesAt(fields[1..], i - 1); }
  }

  lemma SortedSerializable(fields: seq<Field>)
    ensures Serializable(Obj(SortFields(fields))) <==> Serializable(Obj(fields))
  {
    var r := SortFields(fields);
    SortPermutes(fields);
    if Serializable(Obj(r)) {
      forall i | 0 <= i < |fields| ensures Serializable(fields[i].value) {
        assert fields[i] in multiset(r);
      }
    }
    if Serializable(Obj(fields)) {
      forall i | 0 <= i < |r| ensures Serializable(r[i].value) {
        SortedField(fields, i);
      }
    }
  }

  /** The first `n` parts encode the first `n` sorted properties. */
  ghost predicate EncodedFields(keys: seq<Field>, parts: seq<Text>, n: nat) {
    |parts| == n <= |keys| &&
    forall i :: 0 <= i < n ==> Serializable(keys[i].value) && parts[i] == PrintField(SortValues(keys)[i])
  }

  lemma ExtendFields(keys: seq<Field>, parts: seq<Text>, n: nat, part: Text)
    requires EncodedFields(keys, parts, n) && n < |keys|
    requires Serializable(keys[n].value) && part == Canonical(keys[n].value)
    ensures EncodedFields(keys, parts + [Quote(keys[n].key) + [COLON] + part], n + 1)
  {
    SortValuesAt(keys, n);
  }

  lemma NotSerializableField(fields: seq<Field>, i: nat)
    requires i < |fields| && !Serializable(SortFields(fields)[i].value)
    ensures !Serializable(Obj(fields))
  {
    SortedField(fields, i);
  }

  lemma FinishObject(fields: seq<Field>, parts: seq<Text>)
    requires EncodedFields(SortFields(fields), parts, |fields|)
    ensures Serializable(Obj(fields))
    ensures [LBRACE] + Join(parts, COMMA) + [RBRACE] == Canonical(Obj(fields))
  {
    SortedSerializable(fields);
    SortCommutes(fields);
    JoinFields(SortValues(SortFields(fields)), parts);
  }

  method CanonicalJson(v: Value) returns (r: Result<Text, TypeError>)
    ensures r == CanonicalSpec(v)
    decreases v, 1
  {
    match v {
      case NonFinite => return Failure(NotSerializable);
      case Unsupported => return Failure(NotSerializable);
      case Arr(items) => r := CanonicalArray(items);
      case Obj(fields) => r := CanonicalObject(fields);
      case _ => return Success(Print(v));
    }
  }

  method CanonicalArray(items: seq<Value>) returns (r: Result<Text, TypeError>)
    ensures r == CanonicalSpec(Arr(items))
    decreases items, 2
  {
    var parts: seq<Text> := [];
    for i := 0 to |items|
      invariant |parts| == i
      invariant forall j :: 0 <= j < i ==> Serializable(items[j]) && parts[j] == Print(SortItems(items)[j])
    {
      var part := CanonicalJson(items[i]);
      if part.Failure? { return part; }
      SortItemsAt(items, i);
      parts := parts + [part.value];
    }
    JoinItems(SortItems(items), parts);
    return Success([LBRACKET] + Join(parts, COMMA) + [RBRACKET]);
  }

  method CanonicalObject(fields: seq<Field>) returns (r: Result<Text, TypeError>)
    ensures r == CanonicalSpec(Obj(fields))
    decreases fields, 2
  {
    var keys := SortFields(fields);
    var parts: seq<Text> := [];
    for i := 0 to |keys|
      invariant EncodedFields(keys, parts, i)
    {
      SortedField(fields, i);
      var part := CanonicalJson(keys[i].value);
      if part.Failure? {
        NotSerializableField(fields, i);
        return part;
      }
      ExtendFields(keys, parts, i, part.value);
      parts := parts + [Quote(keys[i].key) + [COLON] + part.value];
    }
    FinishObject(fields, parts);
    return Success([LBRACE] + Join(parts, COMMA) + [RBRACE]);
  }
}
