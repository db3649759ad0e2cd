/** Dotted quads and CIDR blocks, as read and printed by `discovery/cidr.ts`, `consent/manager.ts` and
    `cli/commands/discover.ts`. */
module Cidr {
  import opened Wrappers
  import opened Texts
  import opened Words

  // ----- decimal numbers --------------------------------------------------

  predicate Digit(c: char) { '0' <= c <= '9' }

  predicate AllDigits(s: string) { forall i :: 0 <= i < |s| ==> Digit(s[i]) }

  /** `\d{lo,hi}` */
  predicate Digits(s: string, lo: nat, hi: nat) { lo <= |s| <= hi && AllDigits(s) }

  /** `Number(s)` of a digit string; leading zeros are allowed. */
  function Value(s: string): nat
    requires AllDigits(s)
  {
    if s == "" then 0 else 10 * Value(s[..|s| - 1]) + (s[|s| - 1] - '0') as nat
  }

  function Dec(n: nat): (s: string)
    ensures |s| >= 1 && AllDigits(s)
  {
    if n < 10 then [n as char + '0'] else Dec(n / 10) + [(n % 10) as char + '0']
  }

  predicate Canonical(s: string) { |s| >= 1 && AllDigits(s) && (|s| > 1 ==> s[0] != '0') }

  lemma {:induction false} DecInverse(n: nat)
    ensures Value(Dec(n)) == n && Canonical(Dec(n)) && (n >= 1 ==> Dec(n)[0] != '0')
    ensures n < 1000 ==> |Dec(n)| <= 3
  {
    if n >= 10 {
      DecInverse(n / 10);
      var s := Dec(n);
      assert s[..|s| - 1] == Dec(n / 10);
      if n < 1000 && n / 10 >= 10 { assert n / 100 < 10; assert Dec(n / 10 / 10) == [(n / 100) as char + '0']; }
    }
  }

  lemma DecStep(v: nat, d: nat)
    requires v >= 1 && d < 10
    ensures Dec(10 * v + d) == Dec(v) + [d as char + '0']
  {
    assert (10 * v + d) / 10 == v && (10 * v + d) % 10 == d;
  }

  lemma {:induction false} ValueInverse(s: string)
    requires Canonical(s)
    ensures Dec(Value(s)) == s && (s[0] != '0' ==> Value(s) >= 1)
  {
    var t := s[..|s| - 1];
    var d := (s[|s| - 1] - '0') as nat;
    assert d as char + '0' == s[|s| - 1];
    if |s| > 1 {
      ValueInverse(t);
      DecStep(Value(t), d);
      assert s == t + [s[|s| - 1]];
    } else {
      assert t == "" && s == [s[0]];
    }
  }

  // ----- splitting --------------------------------------------------------

  lemma {:induction false} SplitPlain(s: string, sep: char)
    requires sep !in s
    ensures Split(s, sep) == [s]
  {
    if s != "" {
      SplitPlain(s[1..], sep);
      assert [s[0]] + s[1..] == s;
    }
  }

  lemma {:induction false} SplitFirst(a: string, sep: char, rest: string)
    requires sep !in a
    ensures Split(a + ([sep] + rest), sep) == [a] + Split(rest, sep)
  {
    var s := a + ([sep] + rest);
    if a == "" {
      assert s[0] == sep && s[1..] == rest;
      assert [""] + Split(rest, sep) == [a] + Split(rest, sep);
    } else {
      SplitFirst(a[1..], sep, rest);
      assert s[0] == a[0] && s[1..] == a[1..] + ([sep] + rest);
      assert [a[0]] + a[1..] == a;
      assert ([a[1..]] + Split(rest, sep))[1..] == Split(rest, sep);
    }
  }

  lemma {:induction false} JoinSplit(s: string, sep: char)
    ensures Join(Split(s, sep), sep) == s
  {
    if s != "" {
      JoinSplit(s[1..], sep);
      assert s == [s[0]] + s[1..];
      JoinLonger(Split(s[1..], sep), s[0], sep);
    }
  }

  lemma JoinLonger(r: seq<string>, c: char, sep: char)
    requires r != []
    ensures Join([""] + r, sep) == [sep] + Join(r, sep)
    ensures Join([[c] + r[0]] + r[1..], sep) == [c] + Join(r, sep)
  {
    assert ([""] + r)[1..] == r;
    assert ([[c] + r[0]] + r[1..])[1..] == r[1..];
    if |r| > 1 { assert [c] + (r[0] + ([sep] + Join(r[1..], sep))) == ([c] + r[0]) + ([sep] + Join(r[1..], sep)); }
  }

  // ----- dotted quads -----------------------------------------------------

  /** The four captured octets, before any range check. */
  function Octets(s: string): (r: Option<seq<nat>>)
    ensures r.Some? ==> |r.value| == 4
  {
    var p := Split(s, '.');
    if |p| == 4 && Digits(p[0], 1, 3) && Digits(p[1], 1, 3) && Digits(p[2], 1, 3) && Digits(p[3], 1, 3)
    then Some([Value(p[0]), Value(p[1]), Value(p[2]), Value(p[3])])
    else None
  }

  predicate InRange(o: seq<nat>) { forall i :: 0 <= i < |o| ==> o[i] <= 255 }

  /** The four octets, shifted into place and joined by a bitwise or. */
  function Assemble(o: seq<nat>): nat
    requires |o| == 4
  {
    Or(Or(Or(Shl(o[0], 24), Shl(o[1], 16)), Shl(o[2], 8)), o[3])
  }

  function Sum(o: seq<nat>): nat
    requires |o| == 4
  {
    o[0] * 0x100_0000 + o[1] * 0x1_0000 + o[2] * 0x100 + o[3]
  }

  lemma {:induction false} AssembleSums(o: seq<nat>)
    requires |o| == 4 && InRange(o)
    ensures Assemble(o) == Sum(o) < SIZE
  {
    assert o[0] <= 255 && o[1] <= 255 && o[2] <= 255 && o[3] <= 255;
    AssembleFour(o[0], o[1], o[2], o[3]);
  }

  lemma {:induction false} AssembleFour(a: nat, b: nat, c: nat, d: nat)
    requires a <= 255 && b <= 255 && c <= 255 && d <= 255
    ensures Or(Or(Or(Shl(a, 24), Shl(b, 16)), Shl(c, 8)), d) == a * 0x100_0000 + b * 0x1_0000 + c * 0x100 + d
  {
    ShlFour(a, b, c);
    OrFour(a, b, c, d);
  }

  lemma {:induction false} ShlFour(a: nat, b: nat, c: nat)
    requires a <= 255 && b <= 255 && c <= 255
    ensures Shl(a, 24) == a * 0x100_0000 && Shl(b, 16) == b * 0x1_0000 && Shl(c, 8) == c * 0x100
  {
    Pow2Values();
    ShlMultiplies(a, 24, 0x100_0000);
    ShlMultiplies(b, 16, 0x1_0000);
    ShlMultiplies(c, 8, 0x100);
  }

  lemma {:induction false} OrFour(a: nat, b: nat, c: nat, d: nat)
    requires b <= 255 && c <= 255 && d <= 255
    ensures Or(Or(Or(a * 0x100_0000, b * 0x1_0000), c * 0x100), d) == a * 0x100_0000 + b * 0x1_0000 + c * 0x100 + d
  {
    OrHigh(a, b);
    OrMid(a * 256 + b, c);
    OrLow((a * 256 + b) * 256 + c, d);
  }

  lemma {:induction false} OrHigh(v: nat, y: nat)
    requires y <= 255
    ensures Or(v * 0x100_0000, y * 0x1_0000) == v * 0x100_0000 + y * 0x1_0000
  {
    Pow2Values();
    OrShifted(v, y, 16, 0x1_0000);
  }

  lemma {:induction false} OrMid(v: nat, y: nat)
    requires y <= 255
    ensures Or(v * 0x1_0000, y * 0x100) == v * 0x1_0000 + y * 0x100
  {
    Pow2Values();
    OrShifted(v, y, 8, 0x100);
  }

  lemma {:induction false} OrLow(v: nat, y: nat)
    requires y <= 255
    ensures Or(v * 0x100, y) == v * 0x100 + y
  {
    OrShifted(v, y, 0, 1);
  }

  /** Joining `256 * v * m` and `y * m` for a byte `y`. */
  lemma {:induction false} OrShifted(v: nat, y: nat, k: nat, m: nat)
    requires y <= 255 && m == Pow2(k)
    ensures Or(256 * v * m, y * m) == (256 * v + y) * m
  {
    Pow2Values();
    Pow2Add(k, 8);
    ShiftedParts(v, y, m);
    OrAdds(256 * v * m, y * m, k + 8, 256 * m);
  }

  lemma {:induction false} ShiftedParts(v: nat, y: nat, m: nat)
    requires y <= 255 && m >= 1
    ensures 256 * v * m % (256 * m) == 0 && y * m < 256 * m
    ensures 256 * v * m + y * m == (256 * v + y) * m
  {
    assert 256 * v * m == v * (256 * m);
    ModUnique(256 * v * m, 256 * m, v, 0);
    MulMono(y + 1, 256, m);
    assert (y + 1) * m == y * m + m;
  }

  /** `parseIp` */
  function ParseIp(s: string): Option<nat> {
    var o := Octets(s);
    if o.Some? && InRange(o.value) then Some(Assemble(o.value)) else None
  }

  function Byte(n: nat, shift: nat): nat { And(Shr(n, shift), 0xff) }

  /** `intToIp` */
  function IntToIp(n: nat): string {
    Join([Dec(Byte(n, 24)), Dec(Byte(n, 16)), Dec(Byte(n, 8)), Dec(And(n, 0xff))], '.')
  }

  lemma {:induction false} BytesOf(n: nat)
    requires n < SIZE
    ensures Byte(n, 24) == n / 0x100_0000 <= 255 && Byte(n, 16) == n / 0x1_0000 % 256
    ensures Byte(n, 8) == n / 0x100 % 256 && And(n, 0xff) == n % 256
  {
    TopByte(n);
    MiddleBytes(n);
    LowByte(n);
  }

  lemma {:induction false} TopByte(n: nat)
    requires n < SIZE
    ensures Byte(n, 24) == n / 0x100_0000 <= 255
  {
    Pow2Values();
    ByteIs(n, 24, 0x100_0000);
  }

  lemma {:induction false} MiddleBytes(n: nat)
    ensures Byte(n, 16) == n / 0x1_0000 % 256 && Byte(n, 8) == n / 0x100 % 256
  {
    Pow2Values();
    ByteIs(n, 16, 0x1_0000);
    ByteIs(n, 8, 0x100);
  }

  lemma {:induction false} LowByte(n: nat)
    ensures And(n, 0xff) == n % 256
  {
    Pow2Values();
    AndLow(n, 8);
  }

  lemma {:induction false} ByteIs(n: nat, shift: nat, m: nat)
    requires m == Pow2(shift)
    ensures Byte(n, shift) == n / m % 256
  {
    ShrDivides(n, shift, m);
    LowByte(n / m);
  }

  lemma {:induction false} DecHasNo(n: nat, c: char)
    requires !Digit(c)
    ensures c !in Dec(n)
  {
  }

  lemma {:induction false} SplitQuad(a: string, b: string, c: string, d: string)
    requires '.' !in a && '.' !in b && '.' !in c && '.' !in d
    ensures Split(Join([a, b, c, d], '.'), '.') == [a, b, c, d]
  {
    assert Join([d], '.') == d;
    assert [c, d][1..] == [d] && [b, c, d][1..] == [c, d] && [a, b, c, d][1..] == [b, c, d];
    SplitPlain(d, '.');
    SplitFirst(c, '.', Join([d], '.'));
    SplitFirst(b, '.', Join([c, d], '.'));
    SplitFirst(a, '.', Join([b, c, d], '.'));
  }

  /** Splitting a printed quad gives its four printed octets. */
  lemma {:induction false} OctetsOfPrinted(a: nat, b: nat, c: nat, d: nat)
    requires a <= 255 && b <= 255 && c <= 255 && d <= 255
    ensures var s := Join([Dec(a), Dec(b), Dec(c), Dec(d)], '.');
            Split(s, '.') == [Dec(a), Dec(b), Dec(c), Dec(d)] && Octets(s) == Some([a, b, c, d])
  {
    DecHasNo(a, '.');
    DecHasNo(b, '.');
    DecHasNo(c, '.');
    DecHasNo(d, '.');
    SplitQuad(Dec(a), Dec(b), Dec(c), Dec(d));
    DecInverse(a);
    DecInverse(b);
    DecInverse(c);
    DecInverse(d);
  }

  function Bytes(n: nat): (o: seq<nat>)
    ensures |o| == 4
  {
    [Byte(n, 24), Byte(n, 16), Byte(n, 8), And(n, 0xff)]
  }

  lemma {:induction false} SumOfBytes(n: nat)
    requires n < SIZE
    ensures InRange(Bytes(n)) && Sum(Bytes(n)) == n
  {
    BytesOf(n);
    QuadDigits(n);
  }

  lemma {:induction false} OctetsOfIp(n: nat)
    requires n < SIZE
    ensures Octets(IntToIp(n)) == Some(Bytes(n))
  {
    SumOfBytes(n);
    var o := Bytes(n);
    assert o[0] <= 255 && o[1] <= 255 && o[2] <= 255 && o[3] <= 255;
    OctetsOfPrinted(o[0], o[1], o[2], o[3]);
  }

  /** Every 32-bit address survives printing and parsing. */
  lemma {:induction false} ParsePrintedIp(n: nat)
    requires n < SIZE
    ensures ParseIp(IntToIp(n)) == Some(n)
  {
    OctetsOfIp(n);
    SumOfBytes(n);
    AssembleSums(Bytes(n));
  }

  lemma QuadDigits(n: nat)
    requires n < SIZE
    ensures n == n / 0x100_0000 * 0x100_0000 + n / 0x1_0000 % 256 * 0x1_0000 + n / 0x100 % 256 * 0x100 + n % 256
  {
    assert n == n / 0x100 * 0x100 + n % 256;
    assert n / 0x100 == n / 0x1_0000 * 0x100 + n / 0x100 % 256;
    assert n / 0x1_0000 == n / 0x100_0000 * 0x100 + n / 0x1_0000 % 256;
  }

  /** No octet is written with a leading zero. */
  predicate CanonicalQuad(s: string) {
    forall i :: 0 <= i < |Split(s, '.')| ==> Canonical(Split(s, '.')[i])
  }

  lemma {:induction false} BytesOfSum(o: seq<nat>)
    requires |o| == 4 && InRange(o)
    ensures var n := Sum(o);
            n < SIZE && Byte(n, 24) == o[0] && Byte(n, 16) == o[1] && Byte(n, 8) == o[2] && And(n, 0xff) == o[3]
  {
    assert o[0] <= 255 && o[1] <= 255 && o[2] <= 255 && o[3] <= 255;
    BytesOfFour(o[0], o[1], o[2], o[3]);
  }

  lemma {:induction false} BytesOfFour(a: nat, b: nat, c: nat, d: nat)
    requires a <= 255 && b <= 255 && c <= 255 && d <= 255
    ensures var n := a * 0x100_0000 + b * 0x1_0000 + c * 0x100 + d;
            n < SIZE && Byte(n, 24) == a && Byte(n, 16) == b && Byte(n, 8) == c && And(n, 0xff) == d
  {
    SumDigits(a, b, c, d);
    BytesOf(a * 0x100_0000 + b * 0x1_0000 + c * 0x100 + d);
  }

  lemma SumDigits(a: nat, b: nat, c: nat, d: nat)
    requires a <= 255 && b <= 255 && c <= 255 && d <= 255
    ensures var n := a * 0x100_0000 + b * 0x1_0000 + c * 0x100 + d;
            n / 0x100_0000 == a && n / 0x1_0000 % 256 == b && n / 0x100 % 256 == c && n % 256 == d
  {
    var n := a * 0x100_0000 + b * 0x1_0000 + c * 0x100 + d;
    assert n / 0x1_0000 == a * 256 + b;
    assert n / 0x100 == (a * 256 + b) * 256 + c;
  }

  /** Printing what was parsed gives the text back exactly when no octet had a leading zero. */
  lemma {:induction false} PrintParsedIp(s: string)
    requires ParseIp(s).Some?
    ensures ParseIp(s).value < SIZE
    ensures IntToIp(ParseIp(s).value) == s <==> CanonicalQuad(s)
  {
    var p, o := Split(s, '.'), Octets(s).value;
    AssembleSums(o);
    BytesOfSum(o);
    OctetsOfPrinted(o[0], o[1], o[2], o[3]);
    JoinSplit(s, '.');
    assert p == [p[0], p[1], p[2], p[3]];
    if CanonicalQuad(s) {
      ValueInverse(p[0]);
      ValueInverse(p[1]);
      ValueInverse(p[2]);
      ValueInverse(p[3]);
    } else {
      PrintedIsCanonical(o);
    }
  }

  lemma {:induction false} PrintedIsCanonical(o: seq<nat>)
    requires |o| == 4
    ensures forall i :: 0 <= i < 4 ==> Canonical([Dec(o[0]), Dec(o[1]), Dec(o[2]), Dec(o[3])][i])
  {
    DecInverse(o[0]);
    DecInverse(o[1]);
    DecInverse(o[2]);
    DecInverse(o[3]);
  }

  // ----- CIDR texts -------------------------------------------------------

  /** A prefix length from 0 to 32 without a leading zero. */
  predicate StrictPrefix(s: string) {
    || (|s| == 1 && Digit(s[0]))
    || (|s| == 2 && Digit(s[1]) && (s[0] == '1' || s[0] == '2'))
    || (|s| == 2 && s[0] == '3' && '0' <= s[1] <= '2')
  }

  datatype Target = Target(octets: seq<nat>, prefix: nat)

  predicate Shaped(t: Target) { |t.octets| == 4 && t.prefix <= 32 }

  /** The match of `cidr.ts` and `discover.ts`, octets unchecked. */
  function MatchStrict(s: string): (r: Option<Target>)
    ensures r.Some? ==> Shaped(r.value)
  {
    var p := Split(s, '/');
    if |p| == 2 && Octets(p[0]).Some? && StrictPrefix(p[1]) then
      PrefixValue(p[1]);
      Some(Target(Octets(p[0]).value, Value(p[1])))
    else None
  }

  lemma PrefixValue(s: string)
    requires StrictPrefix(s)
    ensures Digits(s, 1, 2) && Value(s) <= 32
  {
    assert s[..|s| - 1] == if |s| == 1 then "" else [s[0]];
    if |s| == 2 { assert Value([s[0]]) == (s[0] - '0') as nat by { assert [s[0]][..0] == ""; } }
  }

  /** `parseCidr` of the consent manager: `\d{1,2}` and a range check; the network and its prefix. */
  function ParseCidr(s: string): (r: Option<(nat, nat)>)
    ensures r.Some? ==> r.value.1 <= 32
  {
    var p := Split(s, '/');
    if |p| == 2 && Octets(p[0]).Some? && Digits(p[1], 1, 2) && InRange(Octets(p[0]).value) && Value(p[1]) <= 32
    then Some((And(Assemble(Octets(p[0]).value), Mask(Value(p[1]))), Value(p[1])))
    else None
  }

  /** The prefix length is written with a leading zero. */
  predicate PaddedPrefix(s: string) {
    |Split(s, '/')| == 2 && |Split(s, '/')[1]| == 2 && Split(s, '/')[1][0] == '0'
  }

  /** The scanner accepts exactly the texts that the consent manager accepts and whose prefix length has no
      leading zero, and then both read the same network and prefix. */
  lemma {:induction false} ParsersAgree(s: string)
    ensures Accepted(s).Some? <==> ParseCidr(s).Some? && !PaddedPrefix(s)
    ensures Accepted(s).Some? ==> ParseCidr(s) == Accepted(s)
  {
    var p := Split(s, '/');
    if |p| == 2 && StrictPrefix(p[1]) {
      PrefixValue(p[1]);
    }
    if |p| == 2 && Digits(p[1], 1, 2) && Value(p[1]) <= 32 && !PaddedPrefix(s) { StrictFromValue(p[1]); }
  }

  lemma StrictFromValue(s: string)
    requires Digits(s, 1, 2) && Value(s) <= 32 && !(|s| == 2 && s[0] == '0')
    ensures StrictPrefix(s)
  {
    if |s| == 2 {
      assert s[..1] == [s[0]] && [s[0]][..0] == "";
      assert Value([s[0]]) == (s[0] - '0') as nat;
    }
  }

  /** `ipInCidr` */
  predicate IpInCidr(ip: string, cidr: string) {
    var n, c := ParseIp(ip), ParseCidr(cidr);
    n.Some? && c.Some? && And(n.value, Mask(c.value.1)) == c.value.0
  }

  /** Decimal digits, most significant first. */
  lemma DecIs(v: nat, d: nat)
    requires d < 10
    ensures Dec(d) == [d as char + '0']
    ensures v > 0 ==> Dec(10 * v + d) == Dec(v) + [d as char + '0']
  {
    if v > 0 { DecStep(v, d); }
  }

  /** A dotted quad stands for its four bytes, the first one highest, and is what that number is printed as. */
  lemma {:induction false} QuadIs(a: nat, b: nat, c: nat, d: nat)
    requires a <= 255 && b <= 255 && c <= 255 && d <= 255
    ensures var quad := Dec(a) + "." + Dec(b) + "." + Dec(c) + "." + Dec(d);
            var n := a * 0x100_0000 + b * 0x1_0000 + c * 0x100 + d;
            ParseIp(quad) == Some(n) && IntToIp(n) == quad
  {
    var n := a * 0x100_0000 + b * 0x1_0000 + c * 0x100 + d;
    PrintedQuad(a, b, c, d);
    ParseText(n, Dec(a) + "." + Dec(b) + "." + Dec(c) + "." + Dec(d));
  }

  lemma {:induction false} ParseText(n: nat, text: string)
    requires n < SIZE && IntToIp(n) == text
    ensures ParseIp(text) == Some(n)
  {
    ParsePrintedIp(n);
  }

  lemma {:induction false} PrintedQuad(a: nat, b: nat, c: nat, d: nat)
    requires a <= 255 && b <= 255 && c <= 255 && d <= 255
    ensures var n := a * 0x100_0000 + b * 0x1_0000 + c * 0x100 + d;
            n < SIZE && IntToIp(n) == Dec(a) + "." + Dec(b) + "." + Dec(c) + "." + Dec(d)
  {
    BytesOfFour(a, b, c, d);
    QuadText(Dec(a), Dec(b), Dec(c), Dec(d));
  }

  lemma QuadText(a: string, b: string, c: string, d: string)
    ensures Join([a, b, c, d], '.') == a + "." + b + "." + c + "." + d
  {
    assert [a, b, c, d][1..] == [b, c, d] && [b, c, d][1..] == [c, d] && [c, d][1..] == [d];
    assert Join([d], '.') == d;
    assert Join([c, d], '.') == c + ("." + d);
    assert Join([b, c, d], '.') == b + ("." + (c + ("." + d)));
    assert Join([a, b, c, d], '.') == a + ("." + (b + ("." + (c + ("." + d)))));
  }

  /** An address, a slash and a prefix length stand for the block of that size in which the address lies. */
  lemma {:induction false} CidrIs(ip: string, n: nat, prefix: nat)
    requires ParseIp(ip) == Some(n) && prefix <= 32
    ensures ParseCidr(ip + ("/" + Dec(prefix))) == Some((n - n % Block(prefix), prefix))
  {
    var o := Octets(ip).value;
    AssembleSums(o);
    MaskRoundsDown(n, prefix);
    OctetsHaveNoSlash(ip);
    PrefixText(ip, o, n - n % Block(prefix), prefix);
  }

  lemma {:induction false} OctetsHaveNoSlash(ip: string)
    requires Octets(ip).Some?
    ensures '/' !in ip
  {
    var p := Split(ip, '.');
    JoinSplit(ip, '.');
    assert p == [p[0], p[1], p[2], p[3]];
    QuadText(p[0], p[1], p[2], p[3]);
  }

  lemma {:induction false} PrefixText(ip: string, o: seq<nat>, net: nat, prefix: nat)
    requires '/' !in ip && Octets(ip) == Some(o) && InRange(o) && prefix <= 32 && |o| == 4 && And(Assemble(o), Mask(prefix)) == net
    ensures ParseCidr(ip + ("/" + Dec(prefix))) == Some((net, prefix))
  {
    DecHasNo(prefix, '/');
    DecInverse(prefix);
    ShortPrefix(prefix);
    SlashedText(ip, Dec(prefix), o, net, prefix);
  }

  lemma {:induction false} SlashedText(ip: string, digits: string, o: seq<nat>, net: nat, prefix: nat)
    requires '/' !in ip && '/' !in digits && Octets(ip) == Some(o) && InRange(o) && prefix <= 32 && |o| == 4
    requires Digits(digits, 1, 2) && Value(digits) == prefix && And(Assemble(o), Mask(prefix)) == net
    ensures ParseCidr(ip + ("/" + digits)) == Some((net, prefix))
  {
    SplitFirst(ip, '/', digits);
    SplitPlain(digits, '/');
    FromParts(ip + ("/" + digits), ip, digits, o, net, prefix);
  }

  lemma {:induction false} NetworkOf(n: nat, prefix: nat, o: seq<nat>)
    requires n < SIZE && prefix <= 32 && o == Bytes(n)
    ensures |o| == 4 && InRange(o) && And(Assemble(o), Mask(prefix)) == n - n % Block(prefix)
  {
    SumOfBytes(n);
    AssembleSums(o);
    MaskRoundsDown(n, prefix);
  }

  lemma {:induction false} FromParts(text: string, ip: string, digits: string, o: seq<nat>, net: nat, prefix: nat)
    requires Split(text, '/') == [ip, digits] && Octets(ip) == Some(o) && InRange(o)
    requires Digits(digits, 1, 2) && Value(digits) == prefix <= 32 && And(Assemble(o), Mask(prefix)) == net
    ensures ParseCidr(text) == Some((net, prefix))
  {
  }

  lemma ShortPrefix(prefix: nat)
    requires prefix <= 32
    ensures 1 <= |Dec(prefix)| <= 2
  {
    if prefix >= 10 { assert |Dec(prefix / 10)| == 1; }
  }

  /** A block has one address for prefix 32, and twice as many for each bit less. */
  lemma BlockSize(prefix: nat)
    requires prefix <= 32
    ensures Block(32) == 1
    ensures prefix < 32 ==> Block(prefix) == 2 * Block(prefix + 1)
  {
  }

  // ----- blocks -----------------------------------------------------------

  /** `net` is the network address of a block. */
  predicate IsBlock(net: nat, prefix: nat) {
    prefix <= 32 && net % Block(prefix) == 0 && net + Block(prefix) <= SIZE
  }

  predicate InBlock(n: nat, net: nat, prefix: nat)
    requires prefix <= 32
  {
    net <= n < net + Block(prefix)
  }

  lemma {:induction false} NetworkIsBlock(ip: nat, prefix: nat)
    requires ip < SIZE && prefix <= 32
    ensures IsBlock(And(ip, Mask(prefix)), prefix)
  {
    MaskRoundsDown(ip, prefix);
    RoundedIsMultiple(ip, Block(prefix));
    BlockFits(ip - ip % Block(prefix), prefix);
  }

  /** Masking an address gives the network exactly for the addresses of the block. */
  lemma {:induction false} MaskedIff(n: nat, net: nat, prefix: nat)
    requires n < SIZE && IsBlock(net, prefix)
    ensures And(n, Mask(prefix)) == net <==> InBlock(n, net, prefix)
  {
    MaskRoundsDown(n, prefix);
    InBlockIff(n, net, Block(prefix));
  }

  lemma {:induction false} CidrIsBlock(cidr: string)
    requires ParseCidr(cidr).Some?
    ensures IsBlock(ParseCidr(cidr).value.0, ParseCidr(cidr).value.1)
  {
    var p := Split(cidr, '/');
    AssembleSums(Octets(p[0]).value);
    NetworkIsBlock(Assemble(Octets(p[0]).value), Value(p[1]));
  }

  /** A printed address passes `ipInCidr` exactly when it is in the block the text denotes. */
  lemma {:induction false} InCidrIff(n: nat, cidr: string, net: nat, prefix: nat)
    requires n < SIZE && ParseCidr(cidr) == Some((net, prefix))
    ensures IpInCidr(IntToIp(n), cidr) <==> InBlock(n, net, prefix)
  {
    CidrIsBlock(cidr);
    ParsePrintedIp(n);
    MaskedIff(n, net, prefix);
  }

  // ----- enumeration ------------------------------------------------------

  /** The addresses from `lo` up to but excluding `hi`, printed. */
  function Listing(show: nat -> string, lo: nat, hi: nat): seq<string>
    decreases hi
  {
    if hi <= lo then [] else Listing(show, lo, hi - 1) + [show(hi - 1)]
  }

  lemma {:induction false} ListingAt(show: nat -> string, lo: nat, hi: nat)
    requires lo <= hi
    ensures |Listing(show, lo, hi)| == hi - lo
    ensures forall i :: 0 <= i < hi - lo ==> Listing(show, lo, hi)[i] == show(lo + i)
  {
    if lo < hi { ListingAt(show, lo, hi - 1); }
  }

  lemma {:induction false} ListingExactly(show: nat -> string, read: string -> Option<nat>, lo: nat, hi: nat)
    requires lo <= hi <= SIZE && forall n :: 0 <= n < SIZE ==> read(show(n)) == Some(n)
    ensures |Listing(show, lo, hi)| == hi - lo
    ensures forall i :: 0 <= i < hi - lo ==> read(Listing(show, lo, hi)[i]) == Some(lo + i)
    ensures forall n :: 0 <= n < SIZE ==> (show(n) in Listing(show, lo, hi) <==> lo <= n < hi)
  {
    ListingAt(show, lo, hi);
    var h := Listing(show, lo, hi);
    forall n | 0 <= n < SIZE ensures show(n) in h <==> lo <= n < hi {
      if lo <= n < hi { assert h[n - lo] == show(n); }
    }
  }

  /** All listed addresses pass a test exactly when every address of the range does. */
  lemma {:induction false} ListingPasses(show: nat -> string, test: string -> bool, lo: nat, hi: nat)
    requires lo <= hi
    ensures (forall h :: h in Listing(show, lo, hi) ==> test(h)) <==> (forall n :: lo <= n < hi ==> test(show(n)))
  {
    ListingAt(show, lo, hi);
    var h := Listing(show, lo, hi);
    if forall x :: x in h ==> test(x) {
      forall n | lo <= n < hi ensures test(show(n)) { assert h[n - lo] in h; }
    }
  }

  /** The first usable host of a block. */
  function FirstUsable(net: nat, prefix: nat): nat { if prefix >= 31 then net else net + 1 }

  /** How many hosts a block has. */
  function HostCount(prefix: nat): nat
    requires prefix <= 32
  {
    if prefix == 32 then 1 else if prefix == 31 then 2 else if prefix < 31 && Pow2(32 - prefix) >= 2 then Pow2(32 - prefix) - 2 else 0
  }

  /** The hosts of a block, printed by `show`. */
  function HostsBy(show: nat -> string, net: nat, prefix: nat): seq<string>
    requires prefix <= 32
  {
    Listing(show, FirstUsable(net, prefix), FirstUsable(net, prefix) + HostCount(prefix))
  }

  /** What `enumerateHosts` yields for a block. */
  function Hosts(net: nat, prefix: nat): seq<string>
    requires prefix <= 32
  {
    HostsBy(IntToIp, net, prefix)
  }

  /** The usable hosts as a range of the block. */
  lemma {:induction false} UsableRange(net: nat, prefix: nat)
    requires IsBlock(net, prefix)
    ensures FirstUsable(net, prefix) + HostCount(prefix) == net + Block(prefix) - (if prefix <= 30 then 1 else 0) <= SIZE
    ensures HostCount(prefix) == (if prefix == 32 then 1 else if prefix == 31 then 2 else Pow2(32 - prefix) - 2)
    ensures HostCount(prefix) >= 1 && (prefix < 32 ==> HostCount(prefix) >= 2)
  {
    MaskValue(prefix);
    Pow2Values();
  }

  /** In the block and, up to /30, neither the network nor the broadcast address. */
  predicate Usable(n: nat, net: nat, prefix: nat)
    requires prefix <= 32
  {
    And(n, Mask(prefix)) == net && (prefix <= 30 ==> n != net && n != Or(net, Not(Mask(prefix))))
  }

  lemma {:induction false} UsableIff(n: nat, net: nat, prefix: nat)
    requires n < SIZE && IsBlock(net, prefix)
    ensures Usable(n, net, prefix) <==> FirstUsable(net, prefix) <= n < FirstUsable(net, prefix) + HostCount(prefix)
  {
    UsableRange(net, prefix);
    BroadcastAddress(net, prefix);
    MaskedIff(n, net, prefix);
  }

  lemma ReadsBack()
    ensures forall n :: 0 <= n < SIZE ==> ParseIp(IntToIp(n)) == Some(n)
  {
    forall n | 0 <= n < SIZE ensures ParseIp(IntToIp(n)) == Some(n) { ParsePrintedIp(n); }
  }

  /** The `i`-th host is the address `i` above the first, so the enumeration strictly increases; there are
      2^(32-p) - 2 hosts up to /30, two in a /31 and one in a /32; and exactly the usable addresses are listed. */
  lemma {:induction false} HostsExactly(net: nat, prefix: nat)
    requires IsBlock(net, prefix)
    ensures var h := Hosts(net, prefix);
            && |h| == (if prefix == 32 then 1 else if prefix == 31 then 2 else Pow2(32 - prefix) - 2)
            && (forall i :: 0 <= i < |h| ==> ParseIp(h[i]) == Some(FirstUsable(net, prefix) + i))
            && (forall n :: 0 <= n < SIZE ==> (IntToIp(n) in h <==> Usable(n, net, prefix)))
  {
    ReadsBack();
    HostsByExactly(IntToIp, ParseIp, net, prefix);
  }

  lemma {:induction false} HostsByExactly(show: nat -> string, read: string -> Option<nat>, net: nat, prefix: nat)
    requires IsBlock(net, prefix) && forall n :: 0 <= n < SIZE ==> read(show(n)) == Some(n)
    ensures var h := HostsBy(show, net, prefix);
            && |h| == (if prefix == 32 then 1 else if prefix == 31 then 2 else Pow2(32 - prefix) - 2)
            && (forall i :: 0 <= i < |h| ==> read(h[i]) == Some(FirstUsable(net, prefix) + i))
            && (forall n :: 0 <= n < SIZE ==> (show(n) in h <==> Usable(n, net, prefix)))
  {
    UsableRange(net, prefix);
    var lo := FirstUsable(net, prefix);
    ListingExactly(show, read, lo, lo + HostCount(prefix));
    UsableAll(net, prefix);
  }

  lemma {:induction false} UsableAll(net: nat, prefix: nat)
    requires IsBlock(net, prefix)
    ensures forall n :: 0 <= n < SIZE ==>
              (Usable(n, net, prefix) <==> FirstUsable(net, prefix) <= n < FirstUsable(net, prefix) + HostCount(prefix))
  {
    forall n | 0 <= n < SIZE
      ensures Usable(n, net, prefix) <==> FirstUsable(net, prefix) <= n < FirstUsable(net, prefix) + HostCount(prefix)
    {
      UsableIff(n, net, prefix);
    }
  }

  /** `network | ~mask` is the block's last address. */
  lemma {:induction false} BroadcastAddress(net: nat, prefix: nat)
    requires IsBlock(net, prefix)
    ensures Or(net, Not(Mask(prefix))) == net + Block(prefix) - 1
  {
    MaskValue(prefix);
    OrDisjoint(net, Block(prefix) - 1, 32 - prefix);
  }

  /** A target the scanner accepts: its network and prefix. */
  function Accepted(cidr: string): (r: Option<(nat, nat)>)
    ensures r.Some? ==> r.value.1 <= 32
  {
    var m := MatchStrict(cidr);
    if m.Some? && InRange(m.value.octets)
    then Some((And(Assemble(m.value.octets), Mask(m.value.prefix)), m.value.prefix))
    else None
  }

  /** What the scanner accepts the consent manager reads as the same block. */
  lemma {:induction false} AcceptedIsBlock(cidr: string)
    requires Accepted(cidr).Some?
    ensures ParseCidr(cidr) == Accepted(cidr) && IsBlock(Accepted(cidr).value.0, Accepted(cidr).value.1)
  {
    ParsersAgree(cidr);
    CidrIsBlock(cidr);
  }

  /** `enumerateHosts`, drained. */
  method EnumerateHosts(cidr: string) returns (r: Result<seq<string>, string>)
    ensures r.Success? <==> Accepted(cidr).Some?
    ensures r.Success? ==> r.value == Hosts(Accepted(cidr).value.0, Accepted(cidr).value.1)
  {
    var m := MatchStrict(cidr);
    if m.None? || !InRange(m.value.octets) { return Failure("invalid CIDR: " + cidr); }
    var prefix := m.value.prefix;
    var network := And(Assemble(m.value.octets), Mask(prefix));
    var broadcast := Or(network, Not(Mask(prefix)));
    AcceptedIsBlock(cidr);
    var hosts := YieldHosts(IntToIp, network, broadcast, prefix);
    return Success(hosts);
  }

  /** The generator's yields once the block is known, for any way of printing an address. */
  method YieldHosts(show: nat -> string, network: nat, broadcast: nat, prefix: nat) returns (out: seq<string>)
    requires IsBlock(network, prefix) && broadcast == Or(network, Not(Mask(prefix)))
    ensures out == HostsBy(show, network, prefix)
  {
    UsableRange(network, prefix);
    BroadcastAddress(network, prefix);
    if prefix == 32 {
      ListingAt(show, network, network + 1);
      return [show(network)];
    }
    if prefix == 31 {
      ListingAt(show, network, network + 2);
      return [show(network), show(network + 1)];
    }
    out := CountUp(show, network + 1, broadcast);
  }

  /** The counting loop. */
  method CountUp(show: nat -> string, lo: nat, hi: nat) returns (out: seq<string>)
    ensures out == Listing(show, lo, hi)
  {
    out := [];
    var n := lo;
    while n < hi
      invariant lo <= n && (n <= hi || n == lo)
      invariant out == Listing(show, lo, n)
    {
      out := out + [show(n)];
      n := n + 1;
    }
  }

  // ----- consent for a target ---------------------------------------------

  /** The host part that `firstHostInCidr` sets. */
  function Bump(network: nat, prefix: nat): nat {
    if prefix == 32 then network else (network + 1) % 0x1_0000_0000
  }

  /** `firstHostInCidr` of the discover command, before printing. It does not check the octets' range. */
  function FirstAddress(cidr: string): Option<nat> {
    var m := MatchStrict(cidr);
    if m.None? then None else Some(Bump(And(Assemble(m.value.octets), Mask(m.value.prefix)), m.value.prefix))
  }

  function FirstHost(cidr: string): Result<string, string> {
    var n := FirstAddress(cidr);
    if n.None? then Failure("invalid CIDR: " + cidr) else Success(IntToIp(n.value))
  }

  /** The address that is looked up for a block. */
  function Probe(net: nat, prefix: nat): nat { if prefix == 32 then net else net + 1 }

  /** For a target the scanner accepts, the looked-up address is the second one of the target's block (the
      only one of a /32), it is one of the hosts the scan will probe, and a consent for the target itself
      contains it. */
  lemma {:induction false} FirstHostIs(cidr: string)
    requires Accepted(cidr).Some?
    ensures var (net, prefix) := Accepted(cidr).value;
            && FirstHost(cidr) == Success(IntToIp(Probe(net, prefix)))
            && Probe(net, prefix) < SIZE && InBlock(Probe(net, prefix), net, prefix)
            && FirstHost(cidr).value in Hosts(net, prefix)
            && IpInCidr(FirstHost(cidr).value, cidr)
  {
    AcceptedIsBlock(cidr);
    var (net, prefix) := Accepted(cidr).value;
    ProbeIsUsable(net, prefix);
    FirstHostText(cidr, net, prefix);
    BumpIs(net, prefix);
    InCidrIff(Probe(net, prefix), cidr, net, prefix);
    ProbeIsListed(net, prefix);
  }

  lemma BumpIs(net: nat, prefix: nat)
    requires Probe(net, prefix) < SIZE
    ensures Bump(net, prefix) == Probe(net, prefix)
  {
  }

  lemma FirstHostText(cidr: string, net: nat, prefix: nat)
    requires Accepted(cidr) == Some((net, prefix))
    ensures FirstAddress(cidr) == Some(Bump(net, prefix))
  {
  }

  lemma {:induction false} ProbeIsListed(net: nat, prefix: nat)
    requires IsBlock(net, prefix) && Probe(net, prefix) < SIZE && Usable(Probe(net, prefix), net, prefix)
    ensures IntToIp(Probe(net, prefix)) in Hosts(net, prefix)
  {
    HostsExactly(net, prefix);
  }

  lemma {:induction false} ProbeIsUsable(net: nat, prefix: nat)
    requires IsBlock(net, prefix)
    ensures Probe(net, prefix) < SIZE && InBlock(Probe(net, prefix), net, prefix) && Usable(Probe(net, prefix), net, prefix)
  {
    UsableRange(net, prefix);
    UsableIff(Probe(net, prefix), net, prefix);
  }

  predicate Covers(consent: string, hosts: seq<string>) {
    forall host :: host in hosts ==> IpInCidr(host, consent)
  }

  lemma {:induction false} CoversIff(net: nat, prefix: nat, consent: string, cnet: nat, q: nat)
    requires IsBlock(net, prefix) && ParseCidr(consent) == Some((cnet, q))
    ensures var lo := FirstUsable(net, prefix);
            Covers(consent, Hosts(net, prefix)) <==> forall n :: lo <= n < lo + HostCount(prefix) ==> InBlock(n, cnet, q)
  {
    var test := host => IpInCidr(host, consent);
    forall n | 0 <= n < SIZE ensures test(IntToIp(n)) <==> InBlock(n, cnet, q) {
      InCidrIff(n, consent, cnet, q);
    }
    HostsByPass(IntToIp, test, net, prefix, cnet, q);
  }

  lemma {:induction false} HostsByPass(show: nat -> string, test: string -> bool, net: nat, prefix: nat, cnet: nat, q: nat)
    requires IsBlock(net, prefix) && q <= 32
    requires forall n :: 0 <= n < SIZE ==> (test(show(n)) <==> InBlock(n, cnet, q))
    ensures var lo := FirstUsable(net, prefix);
            (forall h :: h in HostsBy(show, net, prefix) ==> test(h))
            <==> forall n :: lo <= n < lo + HostCount(prefix) ==> InBlock(n, cnet, q)
  {
    UsableRange(net, prefix);
    RangePasses(show, test, FirstUsable(net, prefix), FirstUsable(net, prefix) + HostCount(prefix), cnet, q);
  }

  lemma {:induction false} RangePasses(show: nat -> string, test: string -> bool, lo: nat, hi: nat, cnet: nat, q: nat)
    requires lo <= hi <= SIZE && q <= 32
    requires forall n :: 0 <= n < SIZE ==> (test(show(n)) <==> InBlock(n, cnet, q))
    ensures (forall h :: h in Listing(show, lo, hi) ==> test(h)) <==> forall n :: lo <= n < hi ==> InBlock(n, cnet, q)
  {
    ListingPasses(show, test, lo, hi);
  }

  /** Every enumerated host passes the consent manager's test against the target itself. */
  lemma {:induction false} HostsAreInTheTarget(cidr: string)
    requires Accepted(cidr).Some?
    ensures Covers(cidr, Hosts(Accepted(cidr).value.0, Accepted(cidr).value.1))
  {
    AcceptedIsBlock(cidr);
    var (net, prefix) := Accepted(cidr).value;
    UsableRange(net, prefix);
    CoversIff(net, prefix, cidr, net, prefix);
  }

  /** Two blocks that share an address: the block with the shorter prefix contains the other. */
  lemma {:induction false} SharedAddressNests(x: nat, wide: nat, p: nat, narrow: nat, q: nat)
    requires p <= q && IsBlock(wide, p) && IsBlock(narrow, q) && InBlock(x, wide, p) && InBlock(x, narrow, q)
    ensures wide <= narrow && narrow + Block(q) <= wide + Block(p)
  {
    InBlockIff(x, wide, Block(p));
    InBlockIff(x, narrow, Block(q));
    BlocksNest(x, 32 - q, 32 - p);
  }

  /** The consent that discovery selects contains the target's first host. It covers every host the scan
      will probe exactly when its prefix is no longer than the target's. */
  lemma {:induction false} ConsentCoversScanIff(cidr: string, consent: string)
    requires Accepted(cidr).Some? && IpInCidr(FirstHost(cidr).value, consent)
    ensures var (net, prefix) := Accepted(cidr).value;
            Covers(consent, Hosts(net, prefix)) <==> ParseCidr(consent).value.1 <= prefix
  {
    FirstHostIs(cidr);
    AcceptedIsBlock(cidr);
    CidrIsBlock(consent);
    var (net, prefix) := Accepted(cidr).value;
    var (cnet, q) := ParseCidr(consent).value;
    InCidrIff(Probe(net, prefix), consent, cnet, q);
    BlockCoversIff(net, prefix, cnet, q);
    CoversIff(net, prefix, consent, cnet, q);
  }

  lemma {:induction false} BlockCoversIff(net: nat, prefix: nat, cnet: nat, q: nat)
    requires IsBlock(net, prefix) && IsBlock(cnet, q)
    requires InBlock(Probe(net, prefix), net, prefix) && InBlock(Probe(net, prefix), cnet, q)
    ensures var lo := FirstUsable(net, prefix);
            (forall n :: lo <= n < lo + HostCount(prefix) ==> InBlock(n, cnet, q)) <==> q <= prefix
  {
    UsableRange(net, prefix);
    if q <= prefix {
      SharedAddressNests(Probe(net, prefix), cnet, q, net, prefix);
    } else {
      SharedAddressNests(Probe(net, prefix), net, prefix, cnet, q);
      MissedHost(net, prefix, cnet, q);
    }
  }

  lemma EvenMultiple(x: nat, b: nat)
    requires b >= 2 && b % 2 == 0 && x % b == 0
    ensures x % 2 == 0
  {
    assert x == 2 * ((b / 2) * (x / b)) by { assert x == b * (x / b); }
  }

  /** A consent with a longer prefix leaves out the last host or, in a /31, the first. */
  lemma {:induction false} MissedHost(net: nat, prefix: nat, cnet: nat, q: nat)
    requires prefix < q && IsBlock(net, prefix) && IsBlock(cnet, q) && InBlock(net + 1, cnet, q)
    ensures !InBlock(if prefix == 31 then net else net + Block(prefix) - 2, cnet, q)
  {
    MaskValue(prefix);
    MaskValue(q);
    Pow2Mono(32 - q, 32 - prefix);
    EvenMultiple(net, Block(prefix));
    if q < 32 { EvenMultiple(cnet, Block(q)); } else { assert Block(q) == 1; }
  }

  /** A consent entry; an expiry that does not parse as a date is `None`, a missing fingerprint means any network. */
  datatype Consent = Consent(cidr: string, expiresAt: Option<int>, fingerprint: Option<string>)

  predicate GrantsBy(test: (string, string) -> bool, c: Consent, ip: string, now: int, current: string) {
    && test(ip, c.cidr)
    && c.expiresAt.Some? && now < c.expiresAt.value
    && (c.fingerprint.Some? ==> c.fingerprint.value == current)
  }

  predicate Grants(c: Consent, ip: string, now: int, current: string) { GrantsBy(IpInCidr, c, ip, now, current) }

  /** The loop of `checkConsent` on a loaded file, for any containment test: the first entry, in file order,
      that grants the address. */
  method FirstGrant(test: (string, string) -> bool, consents: seq<Consent>, ip: string, now: int, current: string)
    returns (r: Option<Consent>)
    ensures r.None? <==> forall c :: c in consents ==> !GrantsBy(test, c, ip, now, current)
    ensures r.Some? ==> exists k :: 0 <= k < |consents| && consents[k] == r.value && GrantsBy(test, r.value, ip, now, current)
                          && forall j :: 0 <= j < k ==> !GrantsBy(test, consents[j], ip, now, current)
    ensures r.Some? ==> r.value.expiresAt.Some? && now < r.value.expiresAt.value && (r.value.fingerprint.Some? ==> r.value.fingerprint.value == current)
  {
    for k := 0 to |consents|
      invariant forall j :: 0 <= j < k ==> !GrantsBy(test, consents[j], ip, now, current)
    {
      var entry := consents[k];
      if !test(ip, entry.cidr) { continue; }
      if entry.expiresAt.None? || now >= entry.expiresAt.value { continue; }
      if entry.fingerprint.Some? && entry.fingerprint.value != current { continue; }
      assert entry in consents;
      return Some(entry);
    }
    return None;
  }

  /** How discovery chooses the consent for a scan of `cidr`: by the target's first host. The chosen consent
      allows each host that the scan will probe exactly when its prefix is no longer than the target's; a
      consent for the target itself always does. */
  method SelectConsent(consents: seq<Consent>, cidr: string, now: int, current: string)
    returns (r: Result<Option<Consent>, string>)
    ensures r.Failure? <==> MatchStrict(cidr).None?
    ensures r.Success? && r.value.Some? ==>
              && r.value.value in consents
              && r.value.value.expiresAt.Some? && now < r.value.value.expiresAt.value
              && (r.value.value.fingerprint.Some? ==> r.value.value.fingerprint.value == current)
    ensures r.Success? && r.value.Some? && Accepted(cidr).Some? ==>
              ((forall host :: host in Hosts(Accepted(cidr).value.0, Accepted(cidr).value.1) ==>
                  Grants(r.value.value, host, now, current))
               <==> ParseCidr(r.value.value.cidr).Some? && ParseCidr(r.value.value.cidr).value.1 <= Accepted(cidr).value.1)
    ensures r.Success? && r.value.None? && Accepted(cidr).Some? ==>
              forall c :: c in consents && c.cidr == cidr ==>
                !(c.expiresAt.Some? && now < c.expiresAt.value && (c.fingerprint.Some? ==> c.fingerprint.value == current))
  {
    var host := FirstHost(cidr);
    if host.Failure? { return Failure(host.error); }
    var found := FirstGrant(IpInCidr, consents, host.value, now, current);
    if Accepted(cidr).Some? {
      FirstHostIs(cidr);
      if found.Some? { ChosenCovers(cidr, found.value, now, current); }
    }
    return Success(found);
  }

  lemma {:induction false} ChosenCovers(cidr: string, c: Consent, now: int, current: string)
    requires Accepted(cidr).Some? && Grants(c, FirstHost(cidr).value, now, current)
    ensures (forall host :: host in Hosts(Accepted(cidr).value.0, Accepted(cidr).value.1) ==> Grants(c, host, now, current))
            <==> ParseCidr(c.cidr).Some? && ParseCidr(c.cidr).value.1 <= Accepted(cidr).value.1
  {
    ConsentCoversScanIff(cidr, c.cidr);
  }
}
