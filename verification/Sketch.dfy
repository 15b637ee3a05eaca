/**
 Super-feature sketches: features drawn from the Gear hashes of a body, grouped and digested into
 super-features. Finesse takes one maximum per fixed subchunk; Broder takes, per feature, the
 maximum of its own permutation over content-defined samples.
 */
module Sketch {
  import opened Wrappers
  import opened Gear

  const MAX_FEATURES: nat := 32
  const SAMPLE_MASK: nat := 0x1f
  const MIN_SAMPLES: nat := 16

  datatype Kind = Finesse | Broder

  datatype Params = Params(kind: Kind, features: nat, group: nat, sfBytes: nat)

  // What `SketchParams::new` lets through.
  predicate Valid(p: Params) {
    0 < p.features <= MAX_FEATURES && p.group > 0 && p.features % p.group == 0 && 1 <= p.sfBytes <= 8
  }

  function SfCount(p: Params): nat
    requires Valid(p)
  {
    p.features / p.group
  }

  type OddWord = w: Word | w % 2 == 1 witness 1
  type Perms = p: seq<OddWord> | |p| == MAX_FEATURES witness seq(MAX_FEATURES, _ => 1)

  // Setting the low bit.
  function Odd(w: Word): OddWord { if w % 2 == 1 then w else w + 1 }

  function Multiplier(i: nat): OddWord
    requires i < MAX_FEATURES
  {
    Odd(SplitmixWord(0x1000 + i))
  }

  const PERMS: Perms := seq(MAX_FEATURES, (i: nat) requires i < MAX_FEATURES => Multiplier(i))

  // The hash table, the multipliers, and the leading little-endian word of the digest of some bytes.
  // The program's are `GEAR`, `PERMS` and BLAKE3.
  datatype Tables = Tables(gear: Table, perms: Perms, digest: Bytes -> Word)

  // ---- what the loops compute ----

  function Max(a: nat, b: nat): nat { if a >= b then a else b }

  function MaxOf(hs: seq<Word>): Word { if |hs| == 0 then 0 else Max(hs[0], MaxOf(hs[1..])) }

  // `h & SAMPLE_MASK == SAMPLE_MASK`: the low five bits are ones.
  predicate Sampled(h: Word) { h % 32 == SAMPLE_MASK }

  function Samples(hs: seq<Word>): seq<Word> {
    if |hs| == 0 then [] else (if Sampled(hs[0]) then [hs[0]] else []) + Samples(hs[1..])
  }

  function Permute(perm: Word, h: Word): Word { Wrap(h * perm) }

  function Permuted(perm: Word, hs: seq<Word>): seq<Word> {
    seq(|hs|, i requires 0 <= i < |hs| => Permute(perm, hs[i]))
  }

  function Feature(t: Tables, j: nat, hs: seq<Word>): Word
    requires j < MAX_FEATURES
  {
    MaxOf(Permuted(t.perms[j], Samples(hs)))
  }

  function Min(a: nat, b: nat): nat { if a <= b then a else b }

  function SubLen(p: Params, n: nat): nat
    requires p.features > 0
  {
    Max(1, (n + p.features - 1) / p.features)
  }

  // Where the `i`-th chunk or group of `sub` starts: `i * sub`.
  function Start(sub: nat, i: nat): nat { if i == 0 then 0 else Start(sub, i - 1) + sub }

  lemma {:induction false} StartAt(sub: nat, i: nat)
    ensures Start(sub, i) == i * sub
    decreases i
  {
    if i > 0 { StartAt(sub, i - 1); }
  }

  function Chunk(data: Bytes, sub: nat, i: nat): Bytes {
    var lo := Min(Start(sub, i), |data|);
    data[lo..Min(lo + sub, |data|)]
  }

  function Features(t: Tables, p: Params, data: Bytes): seq<Word>
    requires Valid(p)
  {
    if p.kind == Finesse then
      seq(p.features, (j: nat) => MaxOf(Hashes(t.gear, 0, Chunk(data, SubLen(p, |data|), j))))
    else
      seq(p.features, (j: nat) requires j < p.features => Feature(t, j, Hashes(t.gear, 0, data)))
  }

  function Le(n: nat, k: nat): (r: Bytes)
    ensures |r| == k
  {
    if k == 0 then [] else [n % 256] + Le(n / 256, k - 1)
  }

  function LeWords(fs: seq<Word>): (r: Bytes)
    ensures |r| == 8 * |fs|
  {
    if |fs| == 0 then [] else LeWords(fs[..|fs| - 1]) + Le(fs[|fs| - 1], 8)
  }

  lemma {:induction false} StartsAscend(sub: nat, i: nat, j: nat)
    requires i <= j
    ensures Start(sub, i) <= Start(sub, j)
    decreases j
  {
    if i < j { StartsAscend(sub, i, j - 1); }
  }

  lemma {:induction false} StartAtLeast(sub: nat, i: nat)
    requires sub > 0
    ensures i <= Start(sub, i)
    decreases i
  {
    if i > 0 { StartAtLeast(sub, i - 1); }
  }

  lemma DivMod(x: nat, m: nat)
    requires m > 0
    ensures x == m * (x / m) + x % m && x % m < m
  {
  }

  lemma GroupFits(p: Params, j: nat)
    requires Valid(p) && j < SfCount(p)
    ensures Start(p.group, j) == j * p.group && Start(p.group, j) + p.group <= p.features && SfCount(p) <= MAX_FEATURES
  {
    StartAt(p.group, j);
    StartsAscend(p.group, j + 1, SfCount(p));
    StartAtLeast(p.group, SfCount(p));
    StartAt(p.group, SfCount(p));
    DivMod(p.features, p.group);
  }

  // The features of one group.
  function Group(p: Params, fs: seq<Word>, j: nat): seq<Word>
    requires Valid(p) && |fs| == p.features && j < SfCount(p)
  {
    GroupFits(p, j);
    fs[Start(p.group, j)..Start(p.group, j) + p.group]
  }

  function SuperFeature(t: Tables, p: Params, fs: seq<Word>, j: nat): nat
    requires Valid(p) && |fs| == p.features && j < SfCount(p)
  {
    t.digest(LeWords(Group(p, fs, j))) % Pow2(8 * p.sfBytes)
  }

  function SuperFeatures(t: Tables, p: Params, fs: seq<Word>): seq<nat>
    requires Valid(p) && |fs| == p.features
  {
    seq(SfCount(p), (j: nat) requires j < SfCount(p) => SuperFeature(t, p, fs, j))
  }

  // None when a Broder sketch would rest on too few samples.
  function SketchOf(t: Tables, p: Params, data: Bytes): Option<seq<nat>>
    requires Valid(p)
  {
    if p.kind == Broder && |Samples(Hashes(t.gear, 0, data))| < MIN_SAMPLES then None
    else Some(SuperFeatures(t, p, Features(t, p, data)))
  }

  // ---- lists of hashes ----

  lemma {:induction false} MaxSplit(a: seq<Word>, b: seq<Word>)
    ensures MaxOf(a + b) == Max(MaxOf(a), MaxOf(b))
    decreases |a|
  {
    if |a| == 0 {
      assert a + b == b;
    } else {
      assert (a + b)[1..] == a[1..] + b;
      MaxSplit(a[1..], b);
    }
  }

  lemma {:induction false} SamplesSplit(a: seq<Word>, b: seq<Word>)
    ensures Samples(a + b) == Samples(a) + Samples(b)
    decreases |a|
  {
    if |a| == 0 {
      assert a + b == b;
    } else {
      var first := if Sampled(a[0]) then [a[0]] else [];
      SamplesSplit(a[1..], b);
      assert (a + b)[0] == a[0] && (a + b)[1..] == a[1..] + b;
      assert first + (Samples(a[1..]) + Samples(b)) == (first + Samples(a[1..])) + Samples(b);
    }
  }

  lemma FeatureSplit(t: Tables, j: nat, a: seq<Word>, b: seq<Word>)
    requires j < MAX_FEATURES
    ensures Feature(t, j, a + b) == Max(Feature(t, j, a), Feature(t, j, b))
  {
    SamplesSplit(a, b);
    var perm := t.perms[j];
    assert Permuted(perm, Samples(a) + Samples(b)) == Permuted(perm, Samples(a)) + Permuted(perm, Samples(b));
    MaxSplit(Permuted(perm, Samples(a)), Permuted(perm, Samples(b)));
  }

  // A feature is the greatest permuted sample, or 0 if there is none.
  lemma {:induction false} MaxOfIsMaximum(hs: seq<Word>)
    ensures forall h :: h in hs ==> h <= MaxOf(hs)
    ensures if |hs| == 0 then MaxOf(hs) == 0 else MaxOf(hs) in hs
  {
    if |hs| > 0 {
      MaxOfIsMaximum(hs[1..]);
      assert forall h :: h in hs ==> h == hs[0] || h in hs[1..];
    }
  }

  // The program's own multipliers permute the words, so a feature loses no sample to a collision.
  lemma ProgramMultipliersPermute(j: nat, v: Word)
    requires j < MAX_FEATURES
    ensures exists h: Word :: Permute(PERMS[j], h) == v && forall g: Word :: Permute(PERMS[j], g) == v ==> g == h
  {
    var perm: Word := PERMS[j];
    var h := OddMultiplierIsSurjective(perm, v);
    assert Permute(perm, h) == v;
    forall g: Word | Permute(perm, g) == v ensures g == h { OddMultiplierIsInjective(perm, g, h); }
  }

  // ---- similarity survives a shift ----

  // The hashes of `base` that no preceding bytes can change.
  function LateHashes(t: Tables, base: Bytes): seq<Word>
    requires |base| >= WINDOW
  {
    Hashes(t.gear, 0, base)[WINDOW - 1..]
  }

  lemma HashesOfExtended(t: Tables, prefix: Bytes, base: Bytes)
    requires |base| >= WINDOW
    ensures Hashes(t.gear, 0, prefix + base)
         == Hashes(t.gear, 0, prefix + base[..WINDOW - 1]) + LateHashes(t, base)
  {
    var h, head, tail := Roll(t.gear, 0, prefix), base[..WINDOW - 1], base[WINDOW - 1..];
    assert Hashes(t.gear, 0, prefix + base) == Hashes(t.gear, 0, prefix) + Hashes(t.gear, h, base) by {
      RollSplit(t.gear, 0, prefix, base);
    }
    assert Hashes(t.gear, h, base)[..WINDOW - 1] == Hashes(t.gear, h, head) by {
      assert base == head + tail;
      RollSplit(t.gear, h, head, tail);
    }
    assert Hashes(t.gear, 0, prefix + head) == Hashes(t.gear, 0, prefix) + Hashes(t.gear, h, head) by {
      RollSplit(t.gear, 0, prefix, head);
    }
    LateHashesAgree(t.gear, h, base);
  }

  /**
   Whatever precedes `base`, each Broder feature is the larger of what the prefix and the first 63
   bytes give and what the rest of `base` gives alone.
   */
  lemma FeatureOfExtended(t: Tables, j: nat, prefix: Bytes, base: Bytes)
    requires j < MAX_FEATURES && |base| >= WINDOW
    ensures Feature(t, j, Hashes(t.gear, 0, prefix + base))
         == Max(Feature(t, j, Hashes(t.gear, 0, prefix + base[..WINDOW - 1])), Feature(t, j, LateHashes(t, base)))
    ensures |Samples(Hashes(t.gear, 0, prefix + base))|
         == |Samples(Hashes(t.gear, 0, prefix + base[..WINDOW - 1]))| + |Samples(LateHashes(t, base))|
  {
    HashesOfExtended(t, prefix, base);
    FeatureSplit(t, j, Hashes(t.gear, 0, prefix + base[..WINDOW - 1]), LateHashes(t, base));
    SamplesSplit(Hashes(t.gear, 0, prefix + base[..WINDOW - 1]), LateHashes(t, base));
  }

  // The feature's maximum over `base` is taken late, and nothing the prefix brings beats it.
  ghost predicate LateWins(t: Tables, j: nat, prefix: Bytes, base: Bytes)
    requires j < MAX_FEATURES && |base| >= WINDOW
  {
    Feature(t, j, Hashes(t.gear, 0, prefix + base[..WINDOW - 1])) <= Feature(t, j, LateHashes(t, base))
  }

  lemma FeatureSurvivesShift(t: Tables, j: nat, prefix: Bytes, base: Bytes)
    requires j < MAX_FEATURES && |base| >= WINDOW && LateWins(t, j, prefix, base) && LateWins(t, j, [], base)
    ensures Feature(t, j, Hashes(t.gear, 0, prefix + base)) == Feature(t, j, Hashes(t.gear, 0, base))
  {
    FeatureOfExtended(t, j, prefix, base);
    FeatureOfExtended(t, j, [], base);
    assert [] + base == base;
  }

  lemma SamplesSurviveShift(t: Tables, prefix: Bytes, base: Bytes)
    requires |base| >= WINDOW
    ensures |Samples(Hashes(t.gear, 0, prefix + base))| >= |Samples(LateHashes(t, base))|
    ensures |Samples(Hashes(t.gear, 0, base))| >= |Samples(LateHashes(t, base))|
  {
    FeatureOfExtended(t, 0, prefix, base);
    FeatureOfExtended(t, 0, [], base);
    assert [] + base == base;
  }

  // A super-feature all of whose features are won late is the same whatever precedes the base.
  lemma SuperFeatureSurvivesShift(t: Tables, p: Params, j: nat, prefix: Bytes, base: Bytes)
    requires Valid(p) && p.kind == Broder && j < SfCount(p) && |base| >= WINDOW
    requires forall k :: 0 <= k < p.features && Start(p.group, j) <= k < Start(p.group, j) + p.group ==>
                           LateWins(t, k, prefix, base) && LateWins(t, k, [], base)
    ensures SuperFeature(t, p, Features(t, p, prefix + base), j) == SuperFeature(t, p, Features(t, p, base), j)
    ensures |Samples(LateHashes(t, base))| >= MIN_SAMPLES ==>
              && SketchOf(t, p, prefix + base).Some? && SketchOf(t, p, base).Some?
              && SketchOf(t, p, prefix + base).value[j] == SketchOf(t, p, base).value[j]
  {
    GroupFits(p, j);
    var lo, hi := Start(p.group, j), Start(p.group, j) + p.group;
    var fs, gs := Features(t, p, prefix + base), Features(t, p, base);
    forall k | lo <= k < hi ensures fs[k] == gs[k] {
      assert LateWins(t, k, prefix, base) && LateWins(t, k, [], base);
      FeatureSurvivesShift(t, k, prefix, base);
    }
    assert Group(p, fs, j) == Group(p, gs, j);
    SamplesSurviveShift(t, prefix, base);
  }

  // ---- geometry ----

  lemma DivMonotone(a: nat, b: nat, m: nat)
    requires a <= b && m > 0
    ensures a / m <= b / m
  {
    SmallQuotient(m, b / m - a / m, b - a + a % m - b % m);
  }

  // A multiple of `m` above `-m` has a natural factor.
  lemma SmallQuotient(m: nat, d: int, x: int)
    requires m > 0 && m * d == x && x + m > 0
    ensures d >= 0
  {
  }

  // More Broder features only append super-features, and never change whether there is a sketch.
  lemma WiderSketchExtends(t: Tables, p: Params, q: Params, data: Bytes)
    requires Valid(p) && Valid(q) && p.kind == Broder
    requires q == p.(features := q.features) && p.features <= q.features
    ensures SketchOf(t, p, data).None? <==> SketchOf(t, q, data).None?
    ensures SketchOf(t, p, data).Some? ==> SketchOf(t, p, data).value <= SketchOf(t, q, data).value
  {
    var fs, gs := Features(t, p, data), Features(t, q, data);
    DivMonotone(p.features, q.features, p.group);
    assert fs == gs[..p.features];
    forall j: nat | j < SfCount(p) ensures SuperFeature(t, p, fs, j) == SuperFeature(t, q, gs, j) {
      SameGroup(p, q, fs, gs, j);
    }
  }

  lemma SameGroup(p: Params, q: Params, fs: seq<Word>, gs: seq<Word>, j: nat)
    requires Valid(p) && Valid(q) && q.group == p.group && p.features <= q.features && SfCount(p) <= SfCount(q)
    requires |fs| == p.features && |gs| == q.features && fs == gs[..p.features] && j < SfCount(p)
    ensures Group(p, fs, j) == Group(q, gs, j)
  {
    GroupFits(p, j);
  }

  lemma Reassociate(a: nat, b: nat, c: nat)
    ensures (a * b) * c == a * (b * c)
  {
  }

  lemma Distribute(a: nat, b: nat, c: nat)
    ensures a * (b + c) == a * b + a * c
  {
  }

  lemma ModOfMod(x: nat, small: nat, k: nat)
    requires small > 0 && k > 0
    ensures small * k > 0 && x % (small * k) % small == x % small
  {
    Positive(small, k);
    var wide := small * k;
    var q, r := x / wide, x % wide;
    DivMod(x, wide);
    DivMod(r, small);
    Reassociate(small, k, q);
    Distribute(small, k * q, r / small);
    ModUnique(x, small, k * q + r / small, r % small);
  }

  lemma Positive(a: nat, b: nat)
    requires a > 0 && b > 0
    ensures a * b > 0
  {
  }

  lemma ModUnique(x: nat, m: nat, q: nat, r: nat)
    requires m > 0 && x == m * q + r && r < m
    ensures x % m == r
  {
    var d := x / m - q;
    assert m * d == r - x % m;
    SmallQuotient(m, d, r - x % m);
    SmallQuotient(m, -d, x % m - r);
  }

  lemma MaskOfMask(x: nat, small: nat, wide: nat)
    requires small <= wide
    ensures x % Pow2(wide) % Pow2(small) == x % Pow2(small)
  {
    Pow2Adds(small, wide - small);
    ModOfMod(x, Pow2(small), Pow2(wide - small));
  }

  // Storing fewer bytes per super-feature keeps its low bytes, for either kind of sketch.
  lemma NarrowSketchIsMasked(t: Tables, p: Params, q: Params, data: Bytes)
    requires Valid(p) && Valid(q) && q == p.(sfBytes := q.sfBytes) && q.sfBytes <= p.sfBytes
    ensures SketchOf(t, p, data).None? <==> SketchOf(t, q, data).None?
    ensures SketchOf(t, p, data).Some? ==>
              && |SketchOf(t, q, data).value| == |SketchOf(t, p, data).value|
              && forall j :: 0 <= j < SfCount(p) ==>
                   SketchOf(t, q, data).value[j] == SketchOf(t, p, data).value[j] % Pow2(8 * q.sfBytes)
  {
    var fs := Features(t, p, data);
    assert fs == Features(t, q, data);
    forall j: nat | j < SfCount(p)
      ensures SuperFeature(t, q, fs, j) == SuperFeature(t, p, fs, j) % Pow2(8 * q.sfBytes)
    {
      assert Group(p, fs, j) == Group(q, fs, j);
      MaskOfMask(t.digest(LeWords(Group(p, fs, j))), 8 * q.sfBytes, 8 * p.sfBytes);
    }
  }

  // ---- Finesse drops nothing ----

  lemma RoundedUp(n: nat, f: nat)
    requires f > 0
    ensures n <= f * ((n + f - 1) / f)
  {
    var m := n + f - 1;
    assert m == f * (m / f) + m % f;
  }

  lemma QuotientBelow(i: nat, sub: nat, f: nat)
    requires sub > 0 && i < f * sub
    ensures i / sub < f
  {
    SmallQuotient(sub, f - i / sub, f * sub - i + i % sub);
    assert i == sub * (i / sub) + i % sub;
  }

  // Every byte lies in the chunk its position names, and that chunk is one of the features'.
  lemma FinesseSeesEveryByte(p: Params, data: Bytes, i: nat)
    requires Valid(p) && i < |data|
    ensures var sub := SubLen(p, |data|); var c := Chunk(data, sub, i / sub);
            i / sub < p.features && i % sub < |c| && c[i % sub] == data[i]
  {
    var sub := SubLen(p, |data|);
    SubLenCovers(p, |data|);
    QuotientBelow(i, sub, p.features);
    PositionSplits(sub, i);
    ChunkHolds(data, sub, i / sub, i % sub);
  }

  lemma SubLenCovers(p: Params, n: nat)
    requires Valid(p) && n > 0
    ensures n <= p.features * SubLen(p, n)
  {
    RoundedUp(n, p.features);
    SmallQuotient(p.features, (n + p.features - 1) / p.features, p.features * ((n + p.features - 1) / p.features));
  }

  lemma PositionSplits(sub: nat, i: nat)
    requires sub > 0
    ensures i == Start(sub, i / sub) + i % sub
  {
    StartAt(sub, i / sub);
  }

  lemma ChunkHolds(data: Bytes, sub: nat, k: nat, r: nat)
    requires r < sub && Start(sub, k) + r < |data|
    ensures r < |Chunk(data, sub, k)| && Chunk(data, sub, k)[r] == data[Start(sub, k) + r]
  {
  }

  // ---- the program's loops ----

  lemma OneMore(t: Tables, s: Bytes, b: Byte)
    ensures Roll(t.gear, 0, s + [b]) == Step(t.gear, Roll(t.gear, 0, s), b)
    ensures Hashes(t.gear, 0, s + [b]) == Hashes(t.gear, 0, s) + [Roll(t.gear, 0, s + [b])]
  {
    RollSplit(t.gear, 0, s, [b]);
  }

  // `*f = max(*f, h.wrapping_mul(perm))` over the first `n` features.
  method RaiseFeatures(t: Tables, n: nat, h: Word, features: array<Word>)
    requires n <= MAX_FEATURES == features.Length
    modifies features
    ensures forall j :: 0 <= j < n ==> features[j] == Max(old(features[j]), Permute(t.perms[j], h))
    ensures forall j :: n <= j < features.Length ==> features[j] == old(features[j])
  {
    for i := 0 to n
      invariant forall j :: 0 <= j < i ==> features[j] == Max(old(features[j]), Permute(t.perms[j], h))
      invariant forall j :: i <= j < features.Length ==> features[j] == old(features[j])
    {
      var v := Permute(t.perms[i], h);
      if v > features[i] {
        features[i] := v;
      }
    }
  }

  lemma FeatureStep(t: Tables, j: nat, hs: seq<Word>, h: Word)
    requires j < MAX_FEATURES
    ensures Feature(t, j, hs + [h]) ==
            if Sampled(h) then Max(Feature(t, j, hs), Permute(t.perms[j], h)) else Feature(t, j, hs)
    ensures Samples(hs + [h]) == Samples(hs) + if Sampled(h) then [h] else []
  {
    FeatureSplit(t, j, hs, [h]);
    SamplesSplit(hs, [h]);
    assert [h][1..] == [];
    assert Samples([h]) == if Sampled(h) then [h] else [];
    assert Permuted(t.perms[j], [h]) == [Permute(t.perms[j], h)] && Permuted(t.perms[j], []) == [];
    MaxOfOne(Permute(t.perms[j], h));
  }

  lemma MaxOfOne(h: Word)
    ensures MaxOf([h]) == h
  {
    assert [h][1..] == [];
  }

  method BroderFeatures(t: Tables, n: nat, data: Bytes, features: array<Word>) returns (samples: nat)
    requires 0 < n <= MAX_FEATURES == features.Length && forall j :: 0 <= j < MAX_FEATURES ==> features[j] == 0
    modifies features
    ensures samples == |Samples(Hashes(t.gear, 0, data))|
    ensures forall j :: 0 <= j < n ==> features[j] == Feature(t, j, Hashes(t.gear, 0, data))
  {
    samples := 0;
    var h: Word := 0;
    for i := 0 to |data|
      invariant h == Roll(t.gear, 0, data[..i])
      invariant samples == |Samples(Hashes(t.gear, 0, data[..i]))|
      invariant forall j :: 0 <= j < n ==> features[j] == Feature(t, j, Hashes(t.gear, 0, data[..i]))
    {
      ghost var hs := Hashes(t.gear, 0, data[..i]);
      h := Step(t.gear, h, data[i]);
      assert data[..i + 1] == data[..i] + [data[i]];
      OneMore(t, data[..i], data[i]);
      forall j: nat | j < n
        ensures Feature(t, j, hs + [h]) ==
                if Sampled(h) then Max(Feature(t, j, hs), Permute(t.perms[j], h)) else Feature(t, j, hs)
      {
        FeatureStep(t, j, hs, h);
      }
      FeatureStep(t, 0, hs, h);
      if Sampled(h) {
        samples := samples + 1;
        RaiseFeatures(t, n, h, features);
      }
    }
    assert data[..|data|] == data;
  }

  method PeakHash(t: Tables, chunk: Bytes) returns (m: Word)
    ensures m == MaxOf(Hashes(t.gear, 0, chunk))
  {
    var h: Word := 0;
    m := 0;
    for i := 0 to |chunk|
      invariant h == Roll(t.gear, 0, chunk[..i]) && m == MaxOf(Hashes(t.gear, 0, chunk[..i]))
    {
      h := Step(t.gear, h, chunk[i]);
      assert chunk[..i + 1] == chunk[..i] + [chunk[i]];
      OneMore(t, chunk[..i], chunk[i]);
      MaxSplit(Hashes(t.gear, 0, chunk[..i]), [h]);
      if h > m {
        m := h;
      }
    }
    assert chunk[..|chunk|] == chunk;
  }

  method FinesseFeatures(t: Tables, p: Params, data: Bytes, features: array<Word>)
    requires Valid(p) && features.Length == MAX_FEATURES && forall j :: 0 <= j < MAX_FEATURES ==> features[j] == 0
    modifies features
    ensures forall j: nat :: j < p.features ==>
              features[j] == MaxOf(Hashes(t.gear, 0, Chunk(data, SubLen(p, |data|), j)))
  {
    var sub := SubLen(p, |data|);
    var i, pos := 0, 0;
    while pos < |data| && i < p.features
      invariant 0 <= i <= p.features && pos == Min(Start(sub, i), |data|)
      invariant forall j: nat :: j < i ==> features[j] == MaxOf(Hashes(t.gear, 0, Chunk(data, sub, j)))
      invariant forall j :: i <= j < MAX_FEATURES ==> features[j] == 0
      decreases p.features - i
    {
      var end := Min(pos + sub, |data|);
      features[i] := PeakHash(t, data[pos..end]);
      i, pos := i + 1, end;
    }
    forall j: nat | i <= j < p.features ensures Chunk(data, sub, j) == [] {
      StartsAscend(sub, i, j);
    }
  }

  // The little-endian words of one group, into the front of the reused buffer.
  method FillGroup(group: seq<Word>, bytes: array<Byte>)
    requires 8 * |group| <= bytes.Length
    modifies bytes
    ensures bytes[..8 * |group|] == LeWords(group)
  {
    for k := 0 to |group|
      invariant bytes[..8 * k] == LeWords(group[..k])
    {
      var word := Le(group[k], 8);
      forall i | 0 <= i < 8 { bytes[8 * k + i] := word[i]; }
      assert bytes[8 * k..8 * k + 8] == word;
      assert bytes[..8 * (k + 1)] == bytes[..8 * k] + word;
      assert group[..k + 1][..k] == group[..k];
    }
    assert group[..|group|] == group;
  }

  method SfsFromFeatures(t: Tables, p: Params, fs: seq<Word>) returns (sfs: seq<nat>)
    requires Valid(p) && |fs| == p.features
    ensures sfs == SuperFeatures(t, p, fs)
  {
    var out := new nat[MAX_FEATURES](_ => 0);
    var bytes := new Byte[MAX_FEATURES * 8](_ => 0);
    if SfCount(p) > 0 { GroupFits(p, 0); }
    for j := 0 to SfCount(p)
      invariant forall i :: 0 <= i < j ==> out[i] == SuperFeature(t, p, fs, i)
    {
      GroupFits(p, j);
      FillGroup(fs[j * p.group..j * p.group + p.group], bytes);
      out[j] := t.digest(bytes[..8 * p.group]) % Pow2(8 * p.sfBytes);
    }
    sfs := out[..SfCount(p)];
  }

  method Sketch(t: Tables, p: Params, data: Bytes) returns (r: Option<seq<nat>>)
    requires Valid(p)
    ensures r == SketchOf(t, p, data)
  {
    var features := new Word[MAX_FEATURES](_ => 0);
    match p.kind {
      case Finesse =>
        FinesseFeatures(t, p, data, features);
      case Broder =>
        var samples := BroderFeatures(t, p.features, data, features);
        if samples < MIN_SAMPLES {
          return None;
        }
    }
    assert features[..p.features] == Features(t, p, data);
    var sfs := SfsFromFeatures(t, p, features[..p.features]);
    return Some(sfs);
  }
}
