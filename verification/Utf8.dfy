/** The UTF-8 form of JavaScript strings, and decoding with U+FFFD for malformed bytes. */
module Utf8 {
  import opened Texts

  type Byte = b: int | 0 <= b < 0x100

  /** Code point of a surrogate pair. */
  function PairPoint(high: CodeUnit, low: CodeUnit): (p: int)
    requires IsHigh(high) && IsLow(low)
    ensures 0x1_0000 <= p < 0x11_0000
  {
    0x1_0000 + (high - 0xD800) * 0x400 + (low - 0xDC00)
  }

  function EncodePoint(p: int): (r: seq<Byte>)
    requires 0 <= p < 0x11_0000
    ensures r != []
  {
    if p < 0x80 then [p]
    else if p < 0x800 then [0xC0 + p / 0x40, 0x80 + p % 0x40]
    else if p < 0x1_0000 then [0xE0 + p / 0x1000, 0x80 + p / 0x40 % 0x40, 0x80 + p % 0x40]
    else [0xF0 + p / 0x4_0000, 0x80 + p / 0x1000 % 0x40, 0x80 + p / 0x40 % 0x40, 0x80 + p % 0x40]
  }

  /** Number of code units in the first character of `t`. */
  function Width(t: Text): nat
    requires t != []
  {
    if StartsWithPair(t) then 2 else 1
  }

  /** Code point of the first character; a lone surrogate is written as U+FFFD. */
  function FirstPoint(t: Text): (p: int)
    requires t != []
    ensures 0 <= p < 0x11_0000
  {
    if StartsWithPair(t) then PairPoint(t[0], t[1])
    else if IsHigh(t[0]) || IsLow(t[0]) then REPLACEMENT
    else t[0]
  }

  function Encode(t: Text): seq<Byte> {
    if t == [] then [] else EncodePoint(FirstPoint(t)) + Encode(t[Width(t)..])
  }

  predicate IsCont(b: Byte) { 0x80 <= b < 0xC0 }

  function Units(p: int): Text
    requires 0 <= p < 0x11_0000
  {
    if p < 0x1_0000 then [p] else [0xD800 + (p - 0x1_0000) / 0x400, 0xDC00 + (p - 0x1_0000) % 0x400]
  }

  /** The payload of a byte marked with `mark`, at place value `place`. */
  function Bits(b: int, mark: int, place: int): int { (b - mark) * place }

  /** The first character of `b` and the number of bytes it uses; `-1` for a malformed byte. */
  function DecodePoint(b: seq<Byte>): (r: (int, nat))
    requires b != []
    ensures -1 <= r.0 < 0x11_0000 && 1 <= r.1 <= |b|
  {
    if b[0] < 0x80 then (b[0], 1)
    else if 0xC2 <= b[0] < 0xE0 && |b| >= 2 && IsCont(b[1]) then
      (Bits(b[0], 0xC0, 0x40) + Bits(b[1], 0x80, 1), 2)
    else if 0xE0 <= b[0] < 0xF0 && |b| >= 3 && IsCont(b[1]) && IsCont(b[2]) then
      var p := Bits(b[0], 0xE0, 0x1000) + Bits(b[1], 0x80, 0x40) + Bits(b[2], 0x80, 1);
      if p < 0x800 || 0xD800 <= p < 0xE000 then (-1, 1) else (p, 3)
    else if 0xF0 <= b[0] < 0xF5 && |b| >= 4 && IsCont(b[1]) && IsCont(b[2]) && IsCont(b[3]) then
      var p := Bits(b[0], 0xF0, 0x4_0000) + Bits(b[1], 0x80, 0x1000) + Bits(b[2], 0x80, 0x40) + Bits(b[3], 0x80, 1);
      if p < 0x1_0000 || p >= 0x11_0000 then (-1, 1) else (p, 4)
    else (-1, 1)
  }

  /** The units the first bytes of `b` decode to. */
  function FirstUnits(b: seq<Byte>): Text
    requires b != []
  {
    var p := DecodePoint(b).0;
    if p < 0 then [REPLACEMENT] else Units(p)
  }

  function Decode(b: seq<Byte>): Text {
    if b == [] then [] else FirstUnits(b) + Decode(b[DecodePoint(b).1..])
  }

  // ----- decoding inverts encoding ----------------------------------------

  predicate IsScalar(p: int) { 0 <= p < 0x11_0000 && !(0xD800 <= p < 0xE000) }

  lemma DecodeTwo(p: int, b: seq<Byte>)
    requires 0x80 <= p < 0x800 && EncodePoint(p) <= b
    ensures DecodePoint(b) == (p, 2)
  {
    assert b[0] == EncodePoint(p)[0] && b[1] == EncodePoint(p)[1];
  }

  lemma DecodeThree(p: int, b: seq<Byte>)
    requires 0x800 <= p < 0x1_0000 && IsScalar(p) && EncodePoint(p) <= b
    ensures DecodePoint(b) == (p, 3)
  {
    assert b[0] == EncodePoint(p)[0] && b[1] == EncodePoint(p)[1] && b[2] == EncodePoint(p)[2];
    assert p == p / 0x1000 * 0x1000 + p / 0x40 % 0x40 * 0x40 + p % 0x40;
  }

  lemma DecodeFour(p: int, b: seq<Byte>)
    requires 0x1_0000 <= p < 0x11_0000 && EncodePoint(p) <= b
    ensures DecodePoint(b) == (p, 4)
  {
    var e: seq<Byte> := EncodePoint(p);
    assert b[0] == e[0] && b[1] == e[1] && b[2] == e[2] && b[3] == e[3];
    FourDigits(p);
    FromFourBytes(p, b, p / 0x4_0000, p / 0x1000 % 0x40, p / 0x40 % 0x40, p % 0x40);
  }

  lemma FourDigits(p: int)
    requires 0x1_0000 <= p < 0x11_0000
    ensures p == p / 0x4_0000 * 0x4_0000 + p / 0x1000 % 0x40 * 0x1000 + p / 0x40 % 0x40 * 0x40 + p % 0x40
    ensures 0 <= p / 0x4_0000 < 5
  {
    assert p == p / 0x40 * 0x40 + p % 0x40;
    assert p / 0x40 == p / 0x1000 * 0x40 + p / 0x40 % 0x40;
    assert p / 0x1000 == p / 0x4_0000 * 0x40 + p / 0x1000 % 0x40;
  }

  lemma FromFourBytes(p: int, b: seq<Byte>, h: int, i: int, j: int, k: int)
    requires 0x1_0000 <= p < 0x11_0000 && p == h * 0x4_0000 + i * 0x1000 + j * 0x40 + k
    requires 0 <= h < 5 && 0 <= i < 0x40 && 0 <= j < 0x40 && 0 <= k < 0x40
    requires |b| >= 4 && b[0] == 0xF0 + h && b[1] == 0x80 + i && b[2] == 0x80 + j && b[3] == 0x80 + k
    ensures DecodePoint(b) == (p, 4)
  {
  }

  lemma DecodePointInverts(p: int, rest: seq<Byte>)
    requires IsScalar(p)
    ensures DecodePoint(EncodePoint(p) + rest) == (p, |EncodePoint(p)|)
  {
    var b := EncodePoint(p) + rest;
    if p < 0x80 {
      assert b[0] == p;
    } else if p < 0x800 {
      DecodeTwo(p, b);
    } else if p < 0x1_0000 {
      DecodeThree(p, b);
    } else {
      DecodeFour(p, b);
    }
  }

  lemma UnitsOfPair(high: CodeUnit, low: CodeUnit)
    requires IsHigh(high) && IsLow(low)
    ensures Units(PairPoint(high, low)) == [high, low]
  {
  }

  lemma FirstCharacter(t: Text)
    requires t != [] && Paired(t)
    ensures IsScalar(FirstPoint(t)) && Units(FirstPoint(t)) == t[..Width(t)]
    ensures Paired(t[Width(t)..])
  {
    if StartsWithPair(t) {
      UnitsOfPair(t[0], t[1]);
    }
  }

  lemma DecodeOne(p: int, rest: seq<Byte>)
    requires IsScalar(p)
    ensures Decode(EncodePoint(p) + rest) == Units(p) + Decode(rest)
  {
    DecodePointInverts(p, rest);
    assert (EncodePoint(p) + rest)[|EncodePoint(p)|..] == rest;
  }

  lemma DecodeFirst(t: Text, more: seq<Byte>)
    requires t != [] && Paired(t)
    ensures Decode(EncodePoint(FirstPoint(t)) + more) == t[..Width(t)] + Decode(more)
  {
    FirstCharacter(t);
    DecodeOne(FirstPoint(t), more);
  }

  lemma {:induction false} DecodeInvertsEncode(t: Text, rest: seq<Byte>)
    requires Paired(t)
    ensures Decode(Encode(t) + rest) == t + Decode(rest)
  {
    if t == [] {
      assert Encode(t) + rest == rest;
    } else {
      PairedTail(t);
      DecodeInvertsEncode(t[Width(t)..], rest);
      DecodeStep(t, rest);
      Regroup(t, Width(t), Decode(Encode(t) + rest), Decode(Encode(t[Width(t)..]) + rest), Decode(rest));
    }
  }

  lemma PairedTail(t: Text)
    requires t != [] && Paired(t)
    ensures Paired(t[Width(t)..])
  {
  }

  lemma DecodeStep(t: Text, rest: seq<Byte>)
    requires t != [] && Paired(t)
    ensures Decode(Encode(t) + rest) == t[..Width(t)] + Decode(Encode(t[Width(t)..]) + rest)
  {
    SplitEncoded(t, rest);
    DecodeFirst(t, Encode(t[Width(t)..]) + rest);
  }

  lemma Regroup(t: Text, w: nat, whole: Text, tail: Text, rest: Text)
    requires w <= |t| && whole == t[..w] + tail && tail == t[w..] + rest
    ensures whole == t + rest
  {
  }

  lemma SplitEncoded(t: Text, rest: seq<Byte>)
    requires t != []
    ensures Encode(t) + rest == EncodePoint(FirstPoint(t)) + (Encode(t[Width(t)..]) + rest)
  {
  }

  /** Every well-formed string survives the trip through UTF-8. */
  lemma Utf8RoundTrip(t: Text)
    requires Paired(t)
    ensures Decode(Encode(t)) == t
  {
    DecodeInvertsEncode(t, []);
    assert Encode(t) + [] == Encode(t);
  }

  // ----- which bytes ------------------------------------------------------

  /** The six payload bits of a continuation byte. */
  predicate Continues(b: Byte) { 0x80 <= b < 0xC0 }

  /** The bytes of one code unit, as in section 3 of RFC 3629: one up to U+007F, two up to U+07FF, else three; the
      payload bits, highest first, are the code point. */
  lemma UnitBytes(u: CodeUnit)
    requires !(0xD800 <= u <= 0xDFFF)
    ensures var b := Encode([u]);
            if u < 0x80 then b == [u]
            else if u < 0x800 then |b| == 2 && 0xC0 <= b[0] < 0xE0 && Continues(b[1]) && (b[0] as int - 0xC0) * 0x40 + (b[1] as int - 0x80) == u
            else |b| == 3 && 0xE0 <= b[0] < 0xF0 && Continues(b[1]) && Continues(b[2])
                 && (b[0] as int - 0xE0) * 0x1000 + (b[1] as int - 0x80) * 0x40 + (b[2] as int - 0x80) == u
  {
    var t: Text := [u];
    assert t[1..] == [] && Encode(t) == EncodePoint(u) + [];
    ThreeDigits(u);
  }

  lemma ThreeDigits(u: CodeUnit)
    ensures u == u / 0x40 * 0x40 + u % 0x40 && u / 0x40 == u / 0x1000 * 0x40 + u / 0x40 % 0x40
  {
  }

  /** The bytes of a surrogate pair: four, with the 21 bits of the code point the pair stands for. */
  lemma PairBytes(high: CodeUnit, low: CodeUnit)
    requires 0xD800 <= high < 0xDC00 && 0xDC00 <= low < 0xE000
    ensures var b := Encode([high, low]);
            && |b| == 4 && 0xF0 <= b[0] < 0xF8 && Continues(b[1]) && Continues(b[2]) && Continues(b[3])
            && (b[0] as int - 0xF0) * 0x4_0000 + (b[1] as int - 0x80) * 0x1000 + (b[2] as int - 0x80) * 0x40 + (b[3] as int - 0x80)
               == 0x1_0000 + (high - 0xD800) * 0x400 + (low - 0xDC00)
  {
    var t: Text := [high, low];
    assert t[2..] == [] && Encode(t) == EncodePoint(FirstPoint(t)) + [];
    FourDigits(FirstPoint(t));
  }

  // ----- newlines ---------------------------------------------------------

  lemma {:induction false} EncodeHasNoNewline(t: Text)
    requires forall i :: 0 <= i < |t| ==> t[i] != NEWLINE
    ensures forall i :: 0 <= i < |Encode(t)| ==> Encode(t)[i] != NEWLINE
  {
    if t != [] {
      EncodeHasNoNewline(t[Width(t)..]);
    }
  }

  lemma EncodeStep(a: Text, b: Text)
    requires a != [] && Paired(a)
    ensures Encode(a + b) == EncodePoint(FirstPoint(a)) + Encode(a[Width(a)..] + b)
  {
    var w := Width(a);
    assert Width(a + b) == w && FirstPoint(a + b) == FirstPoint(a);
    assert (a + b)[w..] == a[w..] + b;
  }

  lemma {:induction false} EncodeConcat(a: Text, b: Text)
    requires Paired(a)
    ensures Encode(a + b) == Encode(a) + Encode(b)
  {
    if a == [] {
      assert a + b == b;
    } else {
      PairedTail(a);
      var tail: Text := a[Width(a)..];
      EncodeConcat(tail, b);
      EncodeStep(a, b);
      RegroupBytes(EncodePoint(FirstPoint(a)), Encode(tail), Encode(b));
    }
  }

  lemma RegroupBytes(x: seq<Byte>, y: seq<Byte>, z: seq<Byte>)
    ensures x + (y + z) == (x + y) + z
  {
  }

  lemma {:induction false} DecodeHasNoNewline(b: seq<Byte>)
    requires forall i :: 0 <= i < |b| ==> b[i] != NEWLINE
    ensures forall i :: 0 <= i < |Decode(b)| ==> Decode(b)[i] != NEWLINE
    ensures b != [] ==> Decode(b) != []
    decreases |b|
  {
    if b != [] {
      FirstUnitsHaveNoNewline(b);
      DecodeHasNoNewline(b[DecodePoint(b).1..]);
    }
  }

  lemma FirstUnitsHaveNoNewline(b: seq<Byte>)
    requires b != [] && b[0] != NEWLINE
    ensures FirstUnits(b) != [] && forall i :: 0 <= i < |FirstUnits(b)| ==> FirstUnits(b)[i] != NEWLINE
  {
  }

  lemma DecodePointStopsAtNewline(a: seq<Byte>, b: seq<Byte>)
    requires a != []
    ensures DecodePoint(a + ([NEWLINE] + b)) == DecodePoint(a)
  {
    var c := a + ([NEWLINE] + b);
    assert c[0] == a[0];
    if |a| < 2 { assert c[1] == NEWLINE; } else { assert c[1] == a[1]; }
    if |a| == 2 { assert c[2] == NEWLINE; } else if |a| > 2 { assert c[2] == a[2]; }
    if |a| == 3 { assert c[3] == NEWLINE; } else if |a| > 3 { assert c[3] == a[3]; }
  }

  /** Decoding and cutting at a newline byte commute, even after malformed bytes. */
  lemma {:induction false} DecodeSplitsAtNewline(a: seq<Byte>, b: seq<Byte>)
    ensures Decode(a + ([NEWLINE] + b)) == Decode(a) + ([NEWLINE] + Decode(b))
    decreases |a|
  {
    var end: seq<Byte> := [NEWLINE] + b;
    if a == [] {
      assert a + end == end && end[1..] == b;
    } else {
      var n := DecodePoint(a).1;
      DecodePointStopsAtNewline(a, b);
      DecodeSplitsAtNewline(a[n..], b);
      DropFrom(a, end, n);
      DecodeSameFirst(a, a + end, n, [NEWLINE] + Decode(b));
    }
  }

  /** The first character in front of what the rest decodes to. */
  lemma {:induction false} DecodeSameFirst(a: seq<Byte>, c: seq<Byte>, n: nat, tail: Text)
    requires a != [] && c != [] && DecodePoint(c) == DecodePoint(a) && n == DecodePoint(a).1 <= |a| && n <= |c|
    requires Decode(c[n..]) == Decode(a[n..]) + tail
    ensures Decode(c) == Decode(a) + tail
  {
    var first := FirstUnits(a);
    assert FirstUnits(c) == first;
    assert first + (Decode(a[n..]) + tail) == (first + Decode(a[n..])) + tail;
  }

  // ----- decoding from the middle -----------------------------------------

  lemma InsideCharacter(p: int, k: nat, rest: seq<Byte>)
    requires IsScalar(p) && 0 < k < |EncodePoint(p)|
    ensures Decode(EncodePoint(p)[k..] + rest) != [] && Decode(EncodePoint(p)[k..] + rest)[0] == REPLACEMENT
  {
    var b := EncodePoint(p)[k..] + rest;
    assert b[0] == EncodePoint(p)[k];
    assert IsCont(b[0]);
    assert DecodePoint(b).0 == -1;
  }

  /** `b` is a proper suffix of `t` decoded, or starts with U+FFFD. */
  ghost predicate Cut(t: Text, b: seq<Byte>) {
    (exists j: nat :: 0 < j <= |t| && Decode(b) == t[j..]) || (Decode(b) != [] && Decode(b)[0] == REPLACEMENT)
  }

  lemma CutLater(t: Text, w: nat, b: seq<Byte>)
    requires w <= |t| && Cut(t[w..], b)
    ensures Cut(t, b)
  {
    if !(Decode(b) != [] && Decode(b)[0] == REPLACEMENT) {
      var j: nat :| 0 < j <= |t[w..]| && Decode(b) == t[w..][j..];
      assert t[w..][j..] == t[w + j..];
    }
  }

  lemma CutAtCharacter(t: Text, w: nat)
    requires 0 < w <= |t| && Paired(t[w..])
    ensures Cut(t, Encode(t[w..]))
  {
    Utf8RoundTrip(t[w..]);
  }

  /** Reading encoded text from byte `k > 0` yields a proper suffix of it, or starts with U+FFFD. */
  lemma {:induction false} DecodeFromMiddle(t: Text, k: nat)
    requires Paired(t) && 0 < k <= |Encode(t)|
    ensures Cut(t, Encode(t)[k..])
    decreases |t|
  {
    var n := |EncodePoint(FirstPoint(t))|;
    FirstCharacter(t);
    if k > n { DecodeFromMiddle(t[Width(t)..], k - n); }
    CutStep(t, EncodePoint(FirstPoint(t)), t[Width(t)..], Encode(t[Width(t)..]), k);
  }

  /** The cut lies inside the first character, after it, or further on. */
  lemma {:induction false} CutStep(t: Text, e: seq<Byte>, tail: Text, more: seq<Byte>, k: nat)
    requires t != [] && Paired(t) && e == EncodePoint(FirstPoint(t)) && tail == t[Width(t)..] && more == Encode(tail)
    requires 0 < k <= |e + more| && (k > |e| ==> Cut(tail, more[k - |e|..]))
    ensures Cut(t, (e + more)[k..])
  {
    FirstCharacter(t);
    DropFrom(e, more, k);
    if k < |e| {
      InsideCharacter(FirstPoint(t), k, more);
    } else if k == |e| {
      CutAtCharacter(t, Width(t));
    } else {
      CutLater(t, Width(t), more[k - |e|..]);
    }
  }

  lemma DropFrom(a: seq<Byte>, b: seq<Byte>, k: nat)
    requires k <= |a + b|
    ensures (a + b)[k..] == if k <= |a| then a[k..] + b else b[k - |a|..]
    ensures k == |a| ==> (a + b)[k..] == b
  {
  }
}
