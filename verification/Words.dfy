/** JavaScript's 32-bit operators on unsigned words. A signed intermediate result is identified with its bit
    pattern, which is all that the final `>>> 0` keeps. */
module Words {

  function Pow2(k: nat): (r: nat)
    ensures r >= 1
  {
    if k == 0 then 1 else 2 * Pow2(k - 1)
  }

  const SIZE: nat := 0x1_0000_0000

  type Word = x: int | 0 <= x < 0x1_0000_0000

  function And(a: nat, b: nat): nat {
    if a == 0 || b == 0 then 0 else 2 * And(a / 2, b / 2) + (a % 2) * (b % 2)
  }

  function Or(a: nat, b: nat): nat
    decreases a + b
  {
    if a == 0 then b else if b == 0 then a
    else 2 * Or(a / 2, b / 2) + (if a % 2 == 1 || b % 2 == 1 then 1 else 0)
  }

  /** The bitwise complement as an unsigned word. */
  function Not(a: Word): Word { 0xffff_ffff - a }

  /** The left shift as an unsigned word, for a count below 32. */
  function Shl(a: nat, k: nat): Word { (a * Pow2(k)) % 0x1_0000_0000 }

  /** The unsigned right shift, for a count below 32. */
  function Shr(a: nat, k: nat): nat { if k == 0 then a else Shr(a / 2, k - 1) }

  lemma {:induction false} Pow2Add(a: nat, b: nat)
    ensures Pow2(a + b) == Pow2(a) * Pow2(b)
  {
    if a > 0 { Pow2Add(a - 1, b); }
  }

  lemma {:induction false} Pow2Mono(a: nat, b: nat)
    requires a < b
    ensures 2 * Pow2(a) <= Pow2(b)
  {
    if a + 1 < b { Pow2Mono(a, b - 1); }
  }

  lemma Pow2Values()
    ensures Pow2(1) == 2 && Pow2(8) == 256 && Pow2(16) == 0x1_0000 && Pow2(24) == 0x100_0000 && Pow2(32) == 0x1_0000_0000
  {
    assert Pow2(4) == 16;
    Pow2Add(4, 4);
    Pow2Add(8, 8);
    Pow2Add(16, 8);
    Pow2Add(16, 16);
  }

  lemma {:induction false} AndEven(x: nat, m: nat)
    ensures And(x, 2 * m) == 2 * And(x / 2, m)
    ensures And(x, 2 * m + 1) == 2 * And(x / 2, m) + x % 2
  {
  }

  /** Clearing the low bits rounds down. */
  lemma {:induction false} AndHigh(x: nat, n: nat, k: nat)
    requires x < Pow2(n) && k <= n
    ensures Pow2(k) <= Pow2(n) && And(x, Pow2(n) - Pow2(k)) == x - x % Pow2(k)
  {
    var a, c := Pow2(n), Pow2(k);
    if k == n {
      SmallMod(x, c);
      assert And(x, 0) == 0;
    } else if k == 0 {
      AndAll(x, n);
      assert c == 1 && x % 1 == 0;
    } else {
      assert x / 2 < Pow2(n - 1);
      AndHigh(x / 2, n - 1, k - 1);
      AndHighStep(x, Pow2(n - 1), Pow2(k - 1));
    }
  }

  lemma SmallMod(x: nat, m: nat)
    requires x < m
    ensures x % m == x
  {
  }

  lemma {:induction false} AndHighStep(x: nat, a: nat, c: nat)
    requires 1 <= c <= a && And(x / 2, a - c) == x / 2 - (x / 2) % c
    ensures And(x, 2 * a - 2 * c) == x - x % (2 * c)
  {
    AndEven(x, a - c);
    assert 2 * (a - c) == 2 * a - 2 * c;
    HalveMod(x, c);
  }

  lemma {:induction false} AndAll(x: nat, n: nat)
    requires x < Pow2(n)
    ensures And(x, Pow2(n) - 1) == x
  {
    if n > 0 {
      AndAll(x / 2, n - 1);
      AndEven(x, Pow2(n - 1) - 1);
    }
  }

  lemma {:induction false} HalveMod(x: nat, m: nat)
    requires m >= 1
    ensures x % (2 * m) == 2 * ((x / 2) % m) + x % 2
  {
    var q, r := (x / 2) / m, (x / 2) % m;
    assert x == 2 * (q * m + r) + x % 2;
    assert x == q * (2 * m) + (2 * r + x % 2) by { assert 2 * (q * m) == q * (2 * m); }
    ModUnique(x, 2 * m, q, 2 * r + x % 2);
  }

  lemma ModUnique(x: int, m: nat, q: int, r: int)
    requires m > 0 && 0 <= r < m && x == q * m + r
    ensures x % m == r && x / m == q
  {
    var d := x / m - q;
    assert x == (x / m) * m + x % m;
    assert d * m == r - x % m by { assert (x / m - q) * m == (x / m) * m - q * m; }
    if d != 0 {
      BigMultiple(d, m);
      assert false;
    }
  }

  lemma BigMultiple(d: int, m: int)
    requires d != 0 && m >= 0
    ensures d * m >= m || d * m <= -m
  {
    if d >= 1 { assert (d - 1) * m >= 0; } else { assert (-d - 1) * m >= 0; }
  }

  /** Keeping the low bits is the remainder. */
  lemma {:induction false} AndLow(x: nat, k: nat)
    ensures And(x, Pow2(k) - 1) == x % Pow2(k)
  {
    if k > 0 {
      AndLow(x / 2, k - 1);
      AndLowStep(x, Pow2(k - 1));
    }
  }

  lemma {:induction false} AndLowStep(x: nat, m: nat)
    requires m >= 1 && And(x / 2, m - 1) == (x / 2) % m
    ensures And(x, 2 * m - 1) == x % (2 * m)
  {
    AndEven(x, m - 1);
    assert 2 * (m - 1) + 1 == 2 * m - 1;
    HalveMod(x, m);
  }

  lemma {:induction false} HalveDiv(x: nat, m: nat)
    requires m >= 1
    ensures x / (2 * m) == x / 2 / m
  {
    var q, r := (x / 2) / m, (x / 2) % m;
    assert x == 2 * (q * m + r) + x % 2;
    assert x == q * (2 * m) + (2 * r + x % 2) by { assert 2 * (q * m) == q * (2 * m); }
    ModUnique(x, 2 * m, q, 2 * r + x % 2);
  }

  /** Words without a common bit add up. */
  lemma {:induction false} OrDisjoint(a: nat, b: nat, k: nat)
    requires a % Pow2(k) == 0 && b < Pow2(k)
    ensures Or(a, b) == a + b
    decreases k
  {
    if a > 0 && b > 0 {
      HalveMod(a, Pow2(k - 1));
      OrDisjoint(a / 2, b / 2, k - 1);
    }
  }

  function Mask(prefix: nat): Word
    requires prefix <= 32
  {
    if prefix == 0 then 0 else Shl(0xffff_ffff, 32 - prefix)
  }

  /** Addresses per block. */
  function Block(prefix: nat): (r: nat)
    requires prefix <= 32
    ensures r >= 1
  {
    Pow2(32 - prefix)
  }

  lemma {:induction false} MaskValue(prefix: nat)
    requires prefix <= 32
    ensures Block(prefix) <= SIZE && Mask(prefix) == SIZE - Block(prefix)
    ensures prefix < 32 ==> Block(prefix) >= 2 && Block(prefix) % 2 == 0
    ensures prefix < 31 ==> Block(prefix) >= 4
  {
    Pow2Values();
    if prefix > 0 {
      Pow2Mono(32 - prefix, 32);
      MaskOfBlock(Block(prefix));
    }
    BlockIsEven(prefix);
  }

  lemma {:induction false} BlockIsEven(prefix: nat)
    requires prefix <= 32
    ensures prefix < 32 ==> Block(prefix) >= 2 && Block(prefix) % 2 == 0
    ensures prefix < 31 ==> Block(prefix) >= 4
  {
    if prefix < 32 { assert Block(prefix) == 2 * Pow2(31 - prefix); }
    if prefix < 31 { assert Pow2(31 - prefix) == 2 * Pow2(30 - prefix); }
  }

  /** The low 32 bits of 2^32 - 1 shifted up to a block. */
  lemma MaskOfBlock(b: nat)
    requires 1 <= b <= SIZE
    ensures 0xffff_ffff * b % SIZE == SIZE - b
  {
    assert 0xffff_ffff * b == (b - 1) * SIZE + (SIZE - b);
    ModUnique(0xffff_ffff * b, SIZE, b - 1, SIZE - b);
  }

  /** Masking rounds the address down to its block. */
  lemma {:induction false} MaskRoundsDown(ip: Word, prefix: nat)
    requires prefix <= 32
    ensures And(ip, Mask(prefix)) == ip - ip % Block(prefix)
  {
    Pow2Values();
    MaskValue(prefix);
    AndHigh(ip, 32, 32 - prefix);
  }

  lemma {:induction false} RoundedIsMultiple(x: nat, b: nat)
    requires b >= 1
    ensures 0 <= x - x % b <= x && (x - x % b) % b == 0
  {
    assert x == (x / b) * b + x % b;
    ModUnique(x - x % b, b, x / b, 0);
  }

  lemma MulMono(a: nat, b: nat, c: nat)
    requires a <= b
    ensures a * c <= b * c
  {
    assert (b - a) * c >= 0;
  }

  /** A multiple of a factor of `b * p` below it leaves room for one more factor. */
  lemma {:induction false} RoomForOneMore(x: nat, b: nat, p: nat)
    requires b >= 1 && x % b == 0 && x < b * p
    ensures x + b <= b * p
  {
    var q := x / b;
    assert x == q * b;
    if q < p {
      MulMono(q + 1, p, b);
      assert (q + 1) * b == q * b + b;
    } else {
      MulMono(p, q, b);
      assert false;
    }
  }

  /** A block is aligned, so its last address still fits. */
  lemma {:induction false} BlockFits(net: nat, prefix: nat)
    requires prefix <= 32 && net < SIZE && net % Block(prefix) == 0
    ensures net + Block(prefix) <= SIZE
  {
    Pow2Values();
    Pow2Add(32 - prefix, prefix);
    RoomForOneMore(net, Block(prefix), Pow2(prefix));
  }

  /** Rounding down to blocks of the size `b` gives `net` exactly for the addresses in `[net, net + b)`. */
  lemma {:induction false} InBlockIff(x: nat, net: nat, b: nat)
    requires b >= 1 && net % b == 0
    ensures x - x % b == net <==> net <= x < net + b
  {
    var q := net / b;
    assert net == q * b;
    if net <= x < net + b { ModUnique(x, b, q, x - net); }
  }

  /** Smaller blocks nest in larger ones. */
  lemma {:induction false} BlocksNest(x: nat, k: nat, m: nat)
    requires k <= m
    ensures var small := x - x % Pow2(k);
            var large := x - x % Pow2(m);
            large <= small && small + Pow2(k) <= large + Pow2(m)
  {
    Pow2Add(m - k, k);
    Nest(x, Pow2(k), Pow2(m - k));
  }

  lemma {:induction false} Nest(x: nat, c: nat, b: nat)
    requires c >= 1 && b >= 1 && b * c >= 1
    ensures x - x % (b * c) <= x - x % c && x - x % c + c <= x - x % (b * c) + b * c
  {
    var y := x / c;
    var q, r := y / b, y % b;
    assert x == y * c + x % c;
    assert y == q * b + r;
    assert y * c == q * (b * c) + r * c by { assert (q * b + r) * c == q * b * c + r * c; }
    MulMono(r + 1, b, c);
    assert (r + 1) * c == r * c + c;
    assert r * c >= 0;
    ModUnique(x, b * c, q, r * c + x % c);
  }

  // ----- the operators at a known power -----------------------------------

  lemma {:induction false} ShrDivides(a: nat, k: nat, m: nat)
    requires m == Pow2(k)
    ensures Shr(a, k) == a / m
  {
    if k > 0 {
      ShrDivides(a / 2, k - 1, Pow2(k - 1));
      HalveDiv(a, Pow2(k - 1));
    }
  }

  lemma ShlMultiplies(a: nat, k: nat, m: nat)
    requires m == Pow2(k) && a * m < SIZE
    ensures Shl(a, k) == a * m
  {
    SmallMod(a * m, SIZE);
  }

  lemma OrAdds(a: nat, b: nat, k: nat, m: nat)
    requires m == Pow2(k) && a % m == 0 && b < m
    ensures Or(a, b) == a + b
  {
    OrDisjoint(a, b, k);
  }
}
