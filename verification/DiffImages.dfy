/**
 The chunked comparison of two image states: a double loop over 4 MiB reads and 4 KiB blocks that
 coalesces changed blocks into runs.
 */
module DiffImages {
  import opened Wrappers
  import opened Spans

  const LBA_SIZE: nat := 4096
  const DIFF_CHUNK: nat := 0x40_0000

  // Where block `k` starts, and the block of byte `b`; spelt with the literal `LBA_SIZE` stands for.
  function At(k: nat): nat { k * 4096 }

  function BlockOf(b: nat): nat { b / 4096 }

  predicate EndsBefore(runs: seq<Span>, at: nat) { |runs| > 0 ==> runs[|runs| - 1].End() < at }

  // Non-empty runs, ascending, with unchanged bytes between any two.
  predicate Maximal(runs: seq<Span>)
    decreases |runs|
  {
    |runs| > 0 ==>
      var init, last := runs[..|runs| - 1], runs[|runs| - 1];
      Maximal(init) && EndsBefore(init, last.start) && last.len > 0
  }

  lemma {:induction false} Apart(runs: seq<Span>, i: nat, j: nat)
    requires Maximal(runs) && i <= j < |runs|
    ensures runs[i].len > 0 && (i < j ==> runs[i].End() < runs[j].start)
    decreases |runs|
  {
    var init := runs[..|runs| - 1];
    if j < |init| {
      Apart(init, i, j);
    } else if i < |init| {
      Apart(init, i, |init| - 1);
    }
  }

  lemma MaximalAscends(runs: seq<Span>)
    requires Maximal(runs)
    ensures Ascending(runs)
  {
    forall i: nat, j: nat | i < j < |runs| ensures runs[i].End() <= runs[j].start { Apart(runs, i, j); }
  }

  lemma {:induction false} MaximalTail(runs: seq<Span>)
    requires Maximal(runs) && |runs| > 0
    ensures Maximal(runs[1..])
    decreases |runs|
  {
    var init := runs[..|runs| - 1];
    if |init| > 0 {
      MaximalTail(init);
      assert runs[1..][..|runs[1..]| - 1] == init[1..];
    }
  }

  function Min(a: nat, b: nat): nat { if a <= b then a else b }

  function Slice(image: Bytes, lo: nat, hi: nat): Bytes
    requires lo <= hi
  {
    image[Min(lo, |image|)..Min(hi, |image|)]
  }

  // Block `k` differs; the last block may be short.
  predicate Changed(before: Bytes, after: Bytes, size: nat, k: nat) {
    var lo := At(k);
    var hi := Min(lo + LBA_SIZE, size);
    lo < size && Slice(before, lo, hi) != Slice(after, lo, hi)
  }

  // Which blocks differ. The scans below are about any such choice of blocks.
  function Differs(before: Bytes, after: Bytes, size: nat): nat -> bool { (k: nat) => Changed(before, after, size, k) }

  // The bytes of changed blocks.
  ghost function ChangedBytes(before: Bytes, after: Bytes, size: nat): iset<nat> {
    iset b: nat | b < size && Changed(before, after, size, BlockOf(b))
  }

  // ---- maximal runs are determined by the bytes they hold ----

  lemma FirstOrRest(runs: seq<Span>, b: nat)
    requires |runs| > 0
    ensures Covers(runs, b) <==> runs[0].Has(b) || Covers(runs[1..], b)
  {
    assert runs == [runs[0]] + runs[1..];
    forall s ensures s in runs <==> s == runs[0] || s in runs[1..] {}
  }

  lemma RestIsLater(runs: seq<Span>, b: nat)
    requires Maximal(runs) && |runs| > 0 && Covers(runs[1..], b)
    ensures runs[0].End() < b
  {
    var s :| s in runs[1..] && s.Has(b);
    var i :| 0 <= i < |runs[1..]| && runs[1..][i] == s;
    Apart(runs, 0, i + 1);
  }

  lemma FirstRun(runs: seq<Span>)
    requires Maximal(runs) && |runs| > 0
    ensures Of(runs[0]) <= Held(runs) && runs[0].start in Held(runs) && runs[0].End() !in Held(runs)
    ensures forall b :: b in Held(runs) ==> runs[0].start <= b
    ensures Maximal(runs[1..]) && runs[0].len > 0 && Held(runs[1..]) == Held(runs) - Of(runs[0])
  {
    forall b: nat ensures Covers(runs, b) <==> runs[0].Has(b) || Covers(runs[1..], b) { FirstOrRest(runs, b); }
    forall b: nat | Covers(runs[1..], b) ensures runs[0].End() < b { RestIsLater(runs, b); }
    Apart(runs, 0, 0);
    MaximalTail(runs);
  }

  /** Two lists of maximal runs over the same bytes are the same list. */
  lemma {:induction false} MaximalRunsAreUnique(a: seq<Span>, b: seq<Span>)
    requires Maximal(a) && Maximal(b) && Held(a) == Held(b)
    ensures a == b
    decreases |a|
  {
    if |a| > 0 { FirstRun(a); }
    if |b| > 0 { FirstRun(b); }
    if |a| > 0 && |b| > 0 {
      SameFirst(a[0], b[0], Held(a));
      MaximalRunsAreUnique(a[1..], b[1..]);
      assert a == [a[0]] + a[1..] && b == [b[0]] + b[1..];
    }
  }

  lemma SameFirst(s: Span, t: Span, held: iset<nat>)
    requires s.len > 0 && t.len > 0 && Of(s) <= held && Of(t) <= held && s.End() !in held && t.End() !in held
    requires s.start in held && t.start in held && (forall b :: b in held ==> s.start <= b && t.start <= b)
    ensures s == t
  {
    assert s.End() !in Of(t) && t.End() !in Of(s);
  }

  // ---- the flat scan ----

  // There are at least `k` blocks.
  predicate HasBlocks(size: nat, k: nat) { k == 0 || At(k - 1) < size }

  function Blocks(size: nat): nat { BlockOf(size + LBA_SIZE - 1) }

  // Where the first `k` blocks end.
  function Upto(size: nat, k: nat): nat { Min(At(k), size) }

  function Block(size: nat, k: nat): Span
    requires At(k) < size
  {
    Span(At(k), Min(LBA_SIZE, size - At(k)))
  }

  // Extend the last run if the block continues it, else start a new one.
  function AddBlock(runs: seq<Span>, block: Span): seq<Span> {
    if |runs| > 0 && runs[|runs| - 1].End() == block.start then
      runs[..|runs| - 1] + [Span(runs[|runs| - 1].start, runs[|runs| - 1].len + block.len)]
    else runs + [block]
  }

  // One pass over the first `k` blocks, with no chunks and no open run.
  function FlatScan(changed: nat -> bool, size: nat, k: nat): seq<Span>
    requires HasBlocks(size, k)
    decreases k
  {
    if k == 0 then []
    else
      var runs := FlatScan(changed, size, k - 1);
      if changed(k - 1) then AddBlock(runs, Block(size, k - 1)) else runs
  }

  lemma AddBlockMaximal(runs: seq<Span>, block: Span)
    requires Maximal(runs) && block.len > 0 && EndsBefore(runs, block.start + 1)
    ensures Maximal(AddBlock(runs, block)) && EndsBefore(AddBlock(runs, block), block.End() + 1)
  {
    var out := AddBlock(runs, block);
    assert out[..|out| - 1] == if |runs| > 0 && runs[|runs| - 1].End() == block.start then runs[..|runs| - 1] else runs;
  }

  lemma {:induction false} FlatScanIsMaximal(changed: nat -> bool, size: nat, k: nat)
    requires HasBlocks(size, k)
    ensures Maximal(FlatScan(changed, size, k)) && EndsBefore(FlatScan(changed, size, k), Upto(size, k) + 1)
    decreases k
  {
    if k > 0 {
      FlatScanIsMaximal(changed, size, k - 1);
      AddBlockMaximal(FlatScan(changed, size, k - 1), Block(size, k - 1));
    }
  }

  lemma AddBlockCovers(runs: seq<Span>, block: Span, b: nat)
    ensures Covers(AddBlock(runs, block), b) <==> Covers(runs, b) || block.Has(b)
  {
    if |runs| > 0 && runs[|runs| - 1].End() == block.start {
      var init, last := runs[..|runs| - 1], runs[|runs| - 1];
      assert runs == init + [last];
      Push(init, last);
      Push(init, Span(last.start, last.len + block.len));
    } else {
      Push(runs, block);
    }
  }

  // A byte is in a run exactly if its block, `j`, was marked and has been passed.
  lemma {:induction false} FlatScanCovers(changed: nat -> bool, size: nat, k: nat, b: nat, j: nat)
    requires HasBlocks(size, k) && At(j) <= b < At(j + 1)
    ensures Covers(FlatScan(changed, size, k), b) <==> b < size && j < k && changed(j)
    decreases k
  {
    if k > 0 {
      FlatScanCovers(changed, size, k - 1, b, j);
      AddBlockCovers(FlatScan(changed, size, k - 1), Block(size, k - 1), b);
      assert Block(size, k - 1).Has(b) <==> b < size && j == k - 1;
    }
  }

  lemma BlockCount(size: nat)
    ensures HasBlocks(size, Blocks(size)) && Upto(size, Blocks(size)) == size
    ensures forall k :: HasBlocks(size, k) && Upto(size, k) == size ==> k == Blocks(size)
    ensures forall b: nat :: b < size ==> BlockOf(b) < Blocks(size)
  {
  }

  // The flat scan of a whole image returns the maximal runs of its changed bytes.
  lemma FlatScanIsExact(before: Bytes, after: Bytes, size: nat)
    ensures HasBlocks(size, Blocks(size))
    ensures var runs := FlatScan(Differs(before, after, size), size, Blocks(size));
            Maximal(runs) && Held(runs) == ChangedBytes(before, after, size)
  {
    BlockCount(size);
    var changed, n := Differs(before, after, size), Blocks(size);
    FlatScanIsMaximal(changed, size, n);
    forall b: nat ensures b in Held(FlatScan(changed, size, n)) <==> b in ChangedBytes(before, after, size) {
      FlatScanCovers(changed, size, n, b, BlockOf(b));
    }
  }

  // ---- the double loop ----

  function WithCur(runs: seq<Span>, cur: Option<Span>): seq<Span> { if cur.Some? then runs + [cur.value] else runs }

  // The closed runs and the open one are the flat scan's, and a run is open exactly if it reaches `at`.
  ghost predicate Tracks(runs: seq<Span>, cur: Option<Span>, at: nat, flat: seq<Span>) {
    && WithCur(runs, cur) == flat && EndsBefore(flat, at + 1)
    && if cur.Some? then cur.value.End() == at else EndsBefore(flat, at)
  }

  // One block. The source also tests that an open run is adjacent, which it always is.
  method Feed(runs: seq<Span>, cur: Option<Span>, block: Span, changed: bool, ghost flat: seq<Span>)
      returns (runs': seq<Span>, cur': Option<Span>)
    requires block.len > 0 && Tracks(runs, cur, block.start, flat)
    ensures Tracks(runs', cur', block.End(), if changed then AddBlock(flat, block) else flat)
  {
    if changed {
      if cur.Some? && cur.value.End() == block.start {
        assert flat[..|flat| - 1] == runs;
        return runs, Some(Span(cur.value.start, cur.value.len + block.len));
      }
      return WithCur(runs, cur), Some(block);
    }
    return WithCur(runs, cur), None;
  }

  // Block `k` moves the scan one block on.
  method FeedBlock(runs: seq<Span>, cur: Option<Span>, block: Span, changed: bool,
                   ghost differs: nat -> bool, ghost size: nat, ghost k: nat)
      returns (runs': seq<Span>, cur': Option<Span>)
    requires At(k) < size && HasBlocks(size, k) && block == Block(size, k) && changed == differs(k)
    requires Tracks(runs, cur, block.start, FlatScan(differs, size, k))
    ensures Tracks(runs', cur', block.End(), FlatScan(differs, size, k + 1))
  {
    runs', cur' := Feed(runs, cur, block, changed, FlatScan(differs, size, k));
  }

  lemma SliceOfSlice(image: Bytes, lo: nat, len: nat, pos: nat, n: nat)
    requires lo + len <= |image| && pos + n <= len
    ensures image[lo..lo + len][pos..pos + n] == image[lo + pos..lo + pos + n]
  {
    var a, b := image[lo..lo + len][pos..pos + n], image[lo + pos..lo + pos + n];
    forall i | 0 <= i < n ensures a[i] == b[i] {}
  }

  // `pos` bytes into the chunk at `offset` are the first `k` blocks of the image.
  ghost predicate Aligned(size: nat, offset: nat, pos: nat, want: nat, k: nat) {
    && pos <= want && HasBlocks(size, k) && offset + pos == Upto(size, k)
    && (pos < want ==> offset + pos == At(k) < size)
  }

  // Chunks are whole blocks, so a chunk's block at `pos` is the image's block `k`.
  lemma ChunkBlock(size: nat, offset: nat, pos: nat, want: nat, n: nat, k0: nat, k: nat)
    requires offset < size && offset == At(k0) && want == Min(DIFF_CHUNK, size - offset)
    requires Aligned(size, offset, pos, want, k) && pos < want && n == Min(LBA_SIZE, want - pos)
    ensures Block(size, k) == Span(offset + pos, n) && Aligned(size, offset, pos + n, want, k + 1)
  {
  }

  method BlockDiffers(bufA: Bytes, bufB: Bytes, offset: nat, pos: nat, n: nat,
                      ghost before: Bytes, ghost after: Bytes, ghost size: nat, ghost k: nat)
      returns (changed: bool)
    requires |bufA| == |bufB| && offset + |bufA| <= |before| && offset + |bufB| <= |after|
    requires bufA == before[offset..offset + |bufA|] && bufB == after[offset..offset + |bufB|]
    requires At(k) < size && Block(size, k) == Span(offset + pos, n) && pos + n <= |bufA|
    ensures changed == Differs(before, after, size)(k)
  {
    SliceOfSlice(before, offset, |bufA|, pos, n);
    SliceOfSlice(after, offset, |bufB|, pos, n);
    return bufA[pos..pos + n] != bufB[pos..pos + n];
  }

  // The two chunks are what the images hold at `offset`.
  ghost predicate ReadAt(bufA: Bytes, bufB: Bytes, offset: nat, before: Bytes, after: Bytes) {
    && |bufA| == |bufB| && offset + |bufA| <= |before| && offset + |bufB| <= |after|
    && bufA == before[offset..offset + |bufA|] && bufB == after[offset..offset + |bufB|]
  }

  // `flat(k)` is the flat scan of the first `k` blocks.
  ghost predicate ScansTo(flat: nat -> seq<Span>, changed: nat -> bool, size: nat) {
    forall k: nat {:trigger FlatScan(changed, size, k)} :: HasBlocks(size, k) ==> flat(k) == FlatScan(changed, size, k)
  }

  ghost function Scanner(changed: nat -> bool, size: nat): nat -> seq<Span> {
    (k: nat) => if HasBlocks(size, k) then FlatScan(changed, size, k) else []
  }

  // One block of the chunk.
  method ChunkStep(bufA: Bytes, bufB: Bytes, offset: nat, pos: nat, runs0: seq<Span>, cur0: Option<Span>,
                   ghost before: Bytes, ghost after: Bytes, ghost size: nat,
                   ghost flat: nat -> seq<Span>, ghost k0: nat, ghost k: nat)
      returns (n: nat, runs: seq<Span>, cur: Option<Span>)
    requires ReadAt(bufA, bufB, offset, before, after) && offset < size && offset == At(k0)
    requires |bufA| == Min(DIFF_CHUNK, size - offset) && pos < |bufA| && Aligned(size, offset, pos, |bufA|, k)
    requires ScansTo(flat, Differs(before, after, size), size)
    requires Tracks(runs0, cur0, offset + pos, flat(k))
    ensures n > 0 && Aligned(size, offset, pos + n, |bufA|, k + 1)
    ensures Tracks(runs, cur, offset + pos + n, flat(k + 1))
  {
    n := Min(LBA_SIZE, |bufA| - pos);
    ChunkBlock(size, offset, pos, |bufA|, n, k0, k);
    var changed := BlockDiffers(bufA, bufB, offset, pos, n, before, after, size, k);
    assert flat(k) == FlatScan(Differs(before, after, size), size, k);
    runs, cur := FeedBlock(runs0, cur0, Span(offset + pos, n), changed, Differs(before, after, size), size, k);
  }

  // The chunk read at `offset`, whose blocks are the image's from `k0` on.
  method DiffChunk(bufA: Bytes, bufB: Bytes, offset: nat, runs0: seq<Span>, cur0: Option<Span>,
                   ghost before: Bytes, ghost after: Bytes, ghost size: nat,
                   ghost flat: nat -> seq<Span>, ghost k0: nat)
      returns (runs: seq<Span>, cur: Option<Span>, ghost k: nat)
    requires ReadAt(bufA, bufB, offset, before, after) && offset < size && offset == At(k0)
    requires |bufA| == Min(DIFF_CHUNK, size - offset) && Aligned(size, offset, 0, |bufA|, k0)
    requires ScansTo(flat, Differs(before, after, size), size)
    requires Tracks(runs0, cur0, offset, flat(k0))
    ensures Aligned(size, offset, |bufA|, |bufA|, k)
    ensures Tracks(runs, cur, offset + |bufA|, flat(k))
  {
    runs, cur, k := runs0, cur0, k0;
    var pos: nat := 0;
    while pos < |bufA|
      invariant Aligned(size, offset, pos, |bufA|, k)
      invariant Tracks(runs, cur, offset + pos, flat(k))
    {
      var n;
      n, runs, cur := ChunkStep(bufA, bufB, offset, pos, runs, cur, before, after, size, flat, k0, k);
      pos, k := pos + n, k + 1;
    }
  }

  /**
   Exactly the maximal runs of bytes in changed blocks, as the flat scan returns them; an error
   exactly when an image is shorter than `size`.
   */
  method Diff(before: Bytes, after: Bytes, size: nat) returns (r: Option<seq<Span>>)
    ensures r.None? <==> |before| < size || |after| < size
    ensures r.Some? ==> Maximal(r.value) && Held(r.value) == ChangedBytes(before, after, size)
    ensures r.Some? ==> HasBlocks(size, Blocks(size))
                        && r.value == FlatScan(Differs(before, after, size), size, Blocks(size))
  {
    var runs: seq<Span>, cur: Option<Span> := [], None;
    var offset: nat := 0;
    ghost var k: nat := 0;
    ghost var flat := Scanner(Differs(before, after, size), size);
    while offset < size
      invariant offset <= size && offset <= |before| && offset <= |after|
      invariant HasBlocks(size, k) && offset == Upto(size, k) && (offset < size ==> offset == At(k))
      invariant Tracks(runs, cur, offset, flat(k))
    {
      var want := Min(DIFF_CHUNK, size - offset);
      if |before| - offset < want || |after| - offset < want {
        return None;
      }
      runs, cur, k := DiffChunk(before[offset..offset + want], after[offset..offset + want], offset, runs, cur,
                                before, after, size, flat, k);
      offset := offset + want;
    }
    BlockCount(size);
    FlatScanIsExact(before, after, size);
    return Some(WithCur(runs, cur));
  }
}
