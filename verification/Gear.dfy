/**
 The 64-bit Gear rolling hash: `h = (h << 1) + GEAR[b]`, wrapping. Words are naturals below 2^64.
 Everything holds for any table; the program's own is built from splitmix64.
 */
module Gear {
  import opened Wrappers

  const M: nat := 0x1_0000_0000_0000_0000
  const WINDOW: nat := 64

  type Word = x: int | 0 <= x < 0x1_0000_0000_0000_0000

  // `M` as a literal, so that the arithmetic stays linear.
  function Wrap(x: int): Word { x % 0x1_0000_0000_0000_0000 }

  function Carry(x: int): int { x / 0x1_0000_0000_0000_0000 }

  function Times(k: int): int { k * 0x1_0000_0000_0000_0000 }

  type Table = t: seq<Word> | |t| == 256 witness seq(256, _ => 0)

  function Splitmix(seed: bv64): bv64 {
    var z1 := seed + 0x9E37_79B9_7F4A_7C15;
    var z2 := (z1 ^ (z1 >> 30)) * 0xBF58_476D_1CE4_E5B9;
    var z3 := (z2 ^ (z2 >> 27)) * 0x94D0_49BB_1331_11EB;
    z3 ^ (z3 >> 31)
  }

  function SplitmixWord(seed: Word): Word { Wrap(Splitmix(seed as bv64) as nat) }

  const GEAR: Table := seq(256, (i: nat) requires i < 256 => SplitmixWord(i))

  function Step(t: Table, h: Word, b: Byte): Word { Wrap(2 * h + t[b]) }

  // The hash after `s`, from the state `h`.
  function Roll(t: Table, h: Word, s: Bytes): Word
    decreases |s|
  {
    if |s| == 0 then h else Roll(t, Step(t, h, s[0]), s[1..])
  }

  // The hash after each byte of `s`.
  function Hashes(t: Table, h: Word, s: Bytes): (r: seq<Word>)
    ensures |r| == |s|
    decreases |s|
  {
    if |s| == 0 then [] else var h' := Step(t, h, s[0]); [h'] + Hashes(t, h', s[1..])
  }

  lemma {:induction false} HashesAt(t: Table, h: Word, s: Bytes, i: nat)
    requires i < |s|
    ensures Hashes(t, h, s)[i] == Roll(t, h, s[..i + 1])
    decreases |s|
  {
    var h' := Step(t, h, s[0]);
    assert s[..i + 1][0] == s[0] && s[..i + 1][1..] == s[1..][..i];
    if i > 0 {
      HashesAt(t, h', s[1..], i - 1);
    }
  }

  lemma {:induction false} RollSplit(t: Table, h: Word, s: Bytes, u: Bytes)
    ensures Roll(t, h, s + u) == Roll(t, Roll(t, h, s), u)
    ensures Hashes(t, h, s + u) == Hashes(t, h, s) + Hashes(t, Roll(t, h, s), u)
    decreases |s|
  {
    if |s| == 0 {
      assert s + u == u;
    } else {
      assert (s + u)[0] == s[0] && (s + u)[1..] == s[1..] + u;
      RollSplit(t, Step(t, h, s[0]), s[1..], u);
    }
  }

  // ---- the window ----

  function Pow2(n: nat): (p: nat)
    ensures p > 0
  {
    if n == 0 then 1 else 2 * Pow2(n - 1)
  }

  // The same recurrence without wrap-around.
  ghost function Exact(t: Table, h: nat, s: Bytes): nat
    decreases |s|
  {
    if |s| == 0 then h else Exact(t, 2 * h + t[s[0]], s[1..])
  }

  lemma DoubleAndAdd(h: nat, g: nat, p: nat)
    ensures (2 * h + g) * p == h * (2 * p) + g * p
  {
  }

  lemma {:induction false} ExactIsLinear(t: Table, h: nat, s: Bytes)
    ensures Exact(t, h, s) == Exact(t, 0, s) + h * Pow2(|s|)
    decreases |s|
  {
    if |s| > 0 {
      ExactIsLinear(t, 2 * h + t[s[0]], s[1..]);
      ExactIsLinear(t, t[s[0]], s[1..]);
      DoubleAndAdd(h, t[s[0]], Pow2(|s| - 1));
    }
  }

  lemma WrapDropsMultiples(a: int, k: int)
    ensures Wrap(a + Times(k)) == Wrap(a)
  {
  }

  lemma WrapOfSum(total: int, a: int, b: int)
    requires total == a + b
    ensures Wrap(total) == Wrap(Wrap(a) + b)
  {
    WrapDropsMultiples(Wrap(a) + b, Carry(a));
  }

  lemma WrapOfProduct(a: int, b: int)
    ensures a * b == Wrap(a) * b + Times(Carry(a) * b)
  {
    var q, r := Carry(a), Wrap(a);
    assert a == Times(q) + r;
    assert (Times(q) + r) * b == Times(q) * b + r * b;
  }

  // Dropping multiples of 2^64 from the state drops multiples of 2^64 from the hash.
  lemma ExactMod(t: Table, h: nat, s: Bytes)
    ensures Wrap(Exact(t, h, s)) == Wrap(Exact(t, Wrap(h), s))
  {
    ExactIsLinear(t, h, s);
    ExactIsLinear(t, Wrap(h), s);
    WrapOfProduct(h, Pow2(|s|));
    WrapDropsMultiples(Exact(t, Wrap(h), s), Carry(h) * Pow2(|s|));
  }

  lemma {:induction false} RollIsExactMod(t: Table, h: Word, s: Bytes)
    ensures Roll(t, h, s) == Wrap(Exact(t, h, s))
    decreases |s|
  {
    if |s| > 0 {
      RollIsExactMod(t, Step(t, h, s[0]), s[1..]);
      ExactMod(t, 2 * h + t[s[0]], s[1..]);
    }
  }

  lemma RollIsLinear(t: Table, h: Word, u: Bytes)
    ensures Roll(t, h, u) == Wrap(Roll(t, 0, u) + h * Pow2(|u|))
  {
    RollIsExactMod(t, h, u);
    RollIsExactMod(t, 0, u);
    ExactIsLinear(t, h, u);
    WrapOfSum(Exact(t, h, u), Exact(t, 0, u), h * Pow2(|u|));
  }

  // The hash of a concatenation: the suffix's hash plus the prefix's, shifted past the suffix.
  lemma HashOfConcat(t: Table, s: Bytes, u: Bytes)
    ensures Roll(t, 0, s + u) == Wrap(Roll(t, 0, u) + Roll(t, 0, s) * Pow2(|u|))
  {
    RollSplit(t, 0, s, u);
    RollIsLinear(t, Roll(t, 0, s), u);
  }

  lemma {:induction false} Pow2Adds(m: nat, n: nat)
    ensures Pow2(m + n) == Pow2(m) * Pow2(n)
    decreases m
  {
    if m > 0 { Pow2Adds(m - 1, n); }
  }

  lemma Pow2Sixty4()
    ensures Pow2(WINDOW) == M == Times(1)
  {
    assert Pow2(8) == 0x100;
    Pow2Adds(8, 8);
    Pow2Adds(16, 16);
    Pow2Adds(32, 32);
  }

  lemma ProductIsMultiple(h: int, p: int, rest: int)
    requires p == Times(1) * rest
    ensures h * p == Times(h * rest)
  {
    assert p == Times(rest);
    assert h * Times(rest) == Times(h * rest);
  }

  // Sixty-four bytes erase whatever came before them.
  lemma WindowErasesState(t: Table, h: Word, u: Bytes)
    requires |u| >= WINDOW
    ensures Roll(t, h, u) == Roll(t, 0, u)
  {
    RollIsLinear(t, h, u);
    Pow2Adds(WINDOW, |u| - WINDOW);
    Pow2Sixty4();
    ProductIsMultiple(h, Pow2(|u|), Pow2(|u| - WINDOW));
    WrapDropsMultiples(Roll(t, 0, u), h * Pow2(|u| - WINDOW));
  }

  // From the 64th byte on, the hashes do not depend on the state before.
  lemma LateHashesAgree(t: Table, h: Word, u: Bytes)
    requires |u| >= WINDOW
    ensures Hashes(t, h, u)[WINDOW - 1..] == Hashes(t, 0, u)[WINDOW - 1..]
  {
    forall i | WINDOW - 1 <= i < |u| ensures Hashes(t, h, u)[i] == Hashes(t, 0, u)[i] {
      HashesAt(t, h, u, i);
      HashesAt(t, 0, u, i);
      WindowErasesState(t, h, u[..i + 1]);
    }
  }

  // ---- odd multipliers permute the words ----

  lemma OddFactor(d: int, odd: int, m: int)
    requires odd % 2 == 1 && d * odd == 2 * m
    ensures d % 2 == 0
  {
    var a, b := d / 2, odd / 2;
    assert d == 2 * a + d % 2 && odd == 2 * b + 1;
    assert (2 * a + d % 2) * (2 * b + 1) == 2 * (a * (2 * b + 1) + d % 2 * b) + d % 2;
  }

  // 2^n divides `d` if it divides an odd multiple of `d`.
  lemma {:induction false} OddCancels(d: int, odd: int, n: nat, k: int) returns (q: int)
    requires odd % 2 == 1 && d * odd == k * Pow2(n)
    ensures d == q * Pow2(n)
    decreases n
  {
    q := d;
    if n > 0 {
      var p, e := Pow2(n - 1), d / 2;
      assert k * (2 * p) == 2 * (k * p);
      OddFactor(d, odd, k * p);
      assert (2 * e) * odd == 2 * (e * odd);
      q := OddCancels(e, odd, n - 1, k);
      assert q * (2 * p) == 2 * (q * p);
    }
  }

  // `h.wrapping_mul(odd)` maps distinct words to distinct words.
  lemma OddMultiplierIsInjective(odd: Word, g: Word, h: Word)
    requires odd % 2 == 1 && Wrap(g * odd) == Wrap(h * odd)
    ensures g == h
  {
    var k := Carry(g * odd) - Carry(h * odd);
    assert (g - h) * odd == g * odd - h * odd;
    Pow2Sixty4();
    var q := OddCancels(g - h, odd, WINDOW, k);
  }

  lemma HalveFactor(k: int, p: int)
    requires k % 2 == 0
    ensures k * p == k / 2 * (2 * p)
  {
    var e := k / 2;
    assert k == 2 * e;
  }

  lemma ShiftInverse(odd: int, x: int, k: int, p: int)
    requires odd * x == 1 + k * p
    ensures odd * (x + p) == 1 + (k + odd) * p
  {
    assert odd * (x + p) == odd * x + odd * p;
    assert (k + odd) * p == k * p + odd * p;
  }

  // An odd number has an inverse modulo every power of two.
  lemma {:induction false} OddInverse(odd: int, n: nat) returns (x: int, k: int)
    requires odd % 2 == 1
    ensures odd * x == 1 + k * Pow2(n)
    decreases n
  {
    if n == 0 {
      x, k := 0, -1;
    } else {
      var p := Pow2(n - 1);
      x, k := OddInverse(odd, n - 1);
      if k % 2 == 1 {
        ShiftInverse(odd, x, k, p);
        x, k := x + p, k + odd;
      }
      HalveFactor(k, p);
      k := k / 2;
    }
  }

  lemma ScaledInverse(v: int, x: int, odd: int, k: int)
    requires odd * x == 1 + Times(k)
    ensures (v * x) * odd == v + Times(v * k)
  {
    assert (v * x) * odd == v * (odd * x);
    assert v * (1 + Times(k)) == v + v * Times(k);
    assert v * Times(k) == Times(v * k);
  }

  lemma WordInverse(odd: Word) returns (x: int, k: int)
    requires odd % 2 == 1
    ensures odd * x == 1 + Times(k)
  {
    Pow2Sixty4();
    x, k := OddInverse(odd, WINDOW);
  }

  lemma WrapInside(a: int, b: int)
    ensures Wrap(Wrap(a) * b) == Wrap(a * b)
  {
    WrapOfProduct(a, b);
    WrapDropsMultiples(Wrap(a) * b, Carry(a) * b);
  }

  // And reaches every word.
  lemma OddMultiplierIsSurjective(odd: Word, v: Word) returns (h: Word)
    requires odd % 2 == 1
    ensures Wrap(h * odd) == v
  {
    var x, k := WordInverse(odd);
    h := Wrap(v * x);
    WrapInside(v * x, odd);
    ScaledInverse(v, x, odd, k);
    WrapDropsMultiples(v, v * k);
  }

  // So the multiplication permutes the words: every word is the image of exactly one.
  lemma OddMultiplierIsPermutation(odd: Word, v: Word)
    requires odd % 2 == 1
    ensures exists h: Word :: Wrap(h * odd) == v && forall g: Word :: Wrap(g * odd) == v ==> g == h
  {
    var h := OddMultiplierIsSurjective(odd, v);
    forall g: Word | Wrap(g * odd) == v ensures g == h { OddMultiplierIsInjective(odd, g, h); }
  }
}
