/**
 The byte accounting of a delta measurement: changed runs are classified into journal, metadata
 and targets, targets into Tier-1 hits and misses, and misses into five outcomes.
 */
module DeltaSim {
  import opened Wrappers
  import opened Spans
  import DiffImages

  // ---- classification ----

  lemma BetweenAppend(a: seq<Span>, b: seq<Span>, mid: nat, hi: nat)
    requires Between(a, 0, mid) && Between(b, mid, hi) && mid <= hi
    ensures Between(a + b, 0, hi)
  {
  }

  lemma BetweenUpTo(a: seq<Span>, mid: nat, hi: nat)
    requires Between(a, 0, mid) && mid <= hi
    ensures Between(a, 0, hi)
  {
  }

  lemma Extend(a: seq<Span>, b: seq<Span>, at: nat, piece: Span)
    requires Between(a, 0, at) && at <= piece.start && Between(b, piece.start, piece.End())
    ensures Between(a + b, 0, piece.End())
  {
    BetweenUpTo(a, at, piece.start);
    BetweenAppend(a, b, piece.start, piece.End());
  }

  lemma MorePieces(base: iset<nat>, done: iset<nat>, piece: iset<nat>, cover: iset<nat>)
    ensures base + (done + piece) * cover == (base + done * cover) + piece * cover
    ensures base + (done + piece - cover) == (base + (done - cover)) + (piece - cover)
  {
  }

  // One piece outside the journal, against the file cover.
  method SplitPiece(piece: Span, cover: seq<Span>, metaBytes0: nat, targets0: seq<Span>, ghost meta0: seq<Span>,
                    ghost at: nat)
      returns (metaBytes: nat, targets: seq<Span>, ghost meta: seq<Span>)
    requires SortedByStart(cover) && at <= piece.start
    requires Between(targets0, 0, at) && Between(meta0, 0, at) && metaBytes0 == Total(meta0)
    ensures Between(targets, 0, piece.End()) && Between(meta, 0, piece.End()) && metaBytes == Total(meta)
    ensures Held(targets) == Held(targets0) + Of(piece) * Held(cover)
    ensures Held(meta) == Held(meta0) + (Of(piece) - Held(cover))
    ensures metaBytes + Total(targets) == metaBytes0 + Total(targets0) + piece.len
  {
    var inFile, outFile := PartitionSpan(piece, cover);
    HeldAppend(targets0, inFile);
    HeldAppend(meta0, outFile);
    TotalAppend(targets0, inFile);
    TotalAppend(meta0, outFile);
    Extend(targets0, inFile, at, piece);
    Extend(meta0, outFile, at, piece);
    metaBytes := metaBytes0 + Total(outFile);
    targets, meta := targets0 + inFile, meta0 + outFile;
  }

  // The pieces of one run outside the journal.
  method SplitPieces(rest: seq<Span>, cover: seq<Span>, lo: nat, hi: nat, metaBytes0: nat, targets0: seq<Span>,
                     ghost meta0: seq<Span>)
      returns (metaBytes: nat, targets: seq<Span>, ghost meta: seq<Span>)
    requires SortedByStart(cover) && Between(rest, lo, hi) && lo <= hi
    requires Between(targets0, 0, lo) && Between(meta0, 0, lo) && metaBytes0 == Total(meta0)
    ensures Between(targets, 0, hi) && Between(meta, 0, hi) && metaBytes == Total(meta)
    ensures Held(targets) == Held(targets0) + Held(rest) * Held(cover)
    ensures Held(meta) == Held(meta0) + (Held(rest) - Held(cover))
    ensures metaBytes + Total(targets) == metaBytes0 + Total(targets0) + Total(rest)
  {
    metaBytes, targets, meta := metaBytes0, targets0, meta0;
    ghost var at: nat := lo;
    assert Held(rest[..0]) == iset{};
    for i := 0 to |rest|
      invariant lo <= at <= hi && forall k :: i <= k < |rest| ==> at <= rest[k].start
      invariant Between(targets, 0, at) && Between(meta, 0, at) && metaBytes == Total(meta)
      invariant Held(targets) == Held(targets0) + Held(rest[..i]) * Held(cover)
      invariant Held(meta) == Held(meta0) + (Held(rest[..i]) - Held(cover))
      invariant metaBytes + Total(targets) == metaBytes0 + Total(targets0) + Total(rest[..i])
    {
      metaBytes, targets, meta := SplitPiece(rest[i], cover, metaBytes, targets, meta, at);
      assert rest[..i + 1] == rest[..i] + [rest[i]];
      HeldPush(rest[..i], rest[i]);
      Push(rest[..i], rest[i]);
      MorePieces(Held(targets0), Held(rest[..i]), Of(rest[i]), Held(cover));
      MorePieces(Held(meta0), Held(rest[..i]), Of(rest[i]), Held(cover));
      at := rest[i].End();
    }
    assert rest[..|rest|] == rest;
    BetweenUpTo(targets, at, hi);
    BetweenUpTo(meta, at, hi);
  }

  lemma MoreRuns(done: iset<nat>, run: iset<nat>, journal: iset<nat>, cover: iset<nat>)
    ensures (done + run) * journal == done * journal + run * journal
    ensures (done + run) - journal - cover == (done - journal - cover) + (run - journal - cover)
    ensures ((done + run) - journal) * cover == (done - journal) * cover + (run - journal) * cover
  {
  }

  // Journal, metadata and target pieces collected so far, all below `at`.
  datatype Pieces = Pieces(journal: seq<Span>, meta: seq<Span>, targets: seq<Span>)

  ghost predicate UpTo(p: Pieces, at: nat) {
    Between(p.journal, 0, at) && Between(p.meta, 0, at) && Between(p.targets, 0, at)
  }

  // The pieces hold exactly `changed`, sorted by kind.
  ghost predicate Sorted(p: Pieces, changed: iset<nat>, journal: iset<nat>, cover: iset<nat>) {
    && Held(p.journal) == changed * journal
    && Held(p.meta) == changed - journal - cover
    && Held(p.targets) == (changed - journal) * cover
  }

  function Sum(p: Pieces): nat { Total(p.journal) + Total(p.meta) + Total(p.targets) }

  method ClassifyRun(run: Span, journalSpans: seq<Span>, cover: seq<Span>, journalBytes0: nat, metaBytes0: nat,
                     targets0: seq<Span>, ghost p0: Pieces, ghost at: nat, ghost changed: iset<nat>)
      returns (journalBytes: nat, metaBytes: nat, targets: seq<Span>, ghost p: Pieces)
    requires SortedByStart(journalSpans) && SortedByStart(cover)
    requires UpTo(p0, at) && at <= run.start && Sorted(p0, changed, Held(journalSpans), Held(cover))
    requires journalBytes0 == Total(p0.journal) && metaBytes0 == Total(p0.meta) && targets0 == p0.targets
    ensures UpTo(p, run.End()) && Sorted(p, changed + Of(run), Held(journalSpans), Held(cover))
    ensures journalBytes == Total(p.journal) && metaBytes == Total(p.meta) && targets == p.targets
    ensures Sum(p) == Sum(p0) + run.len
  {
    var inJournal, rest := PartitionSpan(run, journalSpans);
    journalBytes := journalBytes0 + Total(inJournal);
    TotalAppend(p0.journal, inJournal);
    Extend(p0.journal, inJournal, at, run);
    BetweenUpTo(targets0, at, run.start);
    BetweenUpTo(p0.meta, at, run.start);
    ghost var meta;
    metaBytes, targets, meta := SplitPieces(rest, cover, run.start, run.End(), metaBytes0, targets0, p0.meta);
    p := Pieces(p0.journal + inJournal, meta, targets);
    HeldAppend(p0.journal, inJournal);
    MoreRuns(changed, Of(run), Held(journalSpans), Held(cover));
  }

  /**
   Classifies the changed runs. The two sums are taken over the journal and metadata pieces of
   `p`; with the targets those share the changed bytes exactly, none twice and none dropped.
   */
  method Classify(runs: seq<Span>, journalSpans: seq<Span>, cover: seq<Span>)
      returns (journalBytes: nat, metaBytes: nat, targets: seq<Span>, ghost p: Pieces)
    requires Ascending(runs) && SortedByStart(journalSpans) && SortedByStart(cover)
    ensures Sorted(p, Held(runs), Held(journalSpans), Held(cover))
    ensures Ascending(p.journal) && Ascending(p.meta) && Ascending(p.targets)
    ensures journalBytes == Total(p.journal) && metaBytes == Total(p.meta) && targets == p.targets
    ensures journalBytes + metaBytes + Total(targets) == Total(runs)
  {
    journalBytes, metaBytes, targets, p := 0, 0, [], Pieces([], [], []);
    ghost var at: nat := 0;
    for i := 0 to |runs|
      invariant forall k :: i <= k < |runs| ==> at <= runs[k].start
      invariant UpTo(p, at) && Sorted(p, Held(runs[..i]), Held(journalSpans), Held(cover))
      invariant journalBytes == Total(p.journal) && metaBytes == Total(p.meta) && targets == p.targets
      invariant Sum(p) == Total(runs[..i])
    {
      journalBytes, metaBytes, targets, p :=
        ClassifyRun(runs[i], journalSpans, cover, journalBytes, metaBytes, targets, p, at, Held(runs[..i]));
      assert runs[..i + 1] == runs[..i] + [runs[i]];
      HeldPush(runs[..i], runs[i]);
      Push(runs[..i], runs[i]);
      at := runs[i].End();
    }
    assert runs[..|runs|] == runs;
  }

  // ---- outcomes ----

  // What compressing one target measures: the LZ4-stored size, the delta against the same-LBA prior
  // fragment, plain zstd, the delta against the same path, and the deltas of its ranked candidates.
  datatype Sizes = Sizes(lz4: nat, tier1: Option<nat>, nodict: nat, oracle: Option<nat>, cands: seq<nat>)

  datatype Bucket = Bucket(bytes: nat, runs: nat, lz4: nat, delta: nat) {
    function Add(raw: nat, l: nat, d: nat): Bucket { Bucket(bytes + raw, runs + 1, lz4 + l, delta + d) }
  }

  const EMPTY := Bucket(0, 0, 0, 0)

  datatype Fate = Subthreshold | NoCandidate | Recovered | CodecOnly | NoBenefit

  function Bar(s: Sizes): nat { if s.lz4 <= s.nodict then s.lz4 else s.nodict }

  function Least(ds: seq<nat>): Option<nat> {
    if |ds| == 0 then None
    else
      var d, rest := ds[|ds| - 1], Least(ds[..|ds| - 1]);
      if rest.None? || d < rest.value then Some(d) else rest
  }

  predicate SimOk(s: Sizes) { Least(s.cands).Some? && Least(s.cands).value < Bar(s) }

  predicate OracleOk(s: Sizes) { s.oracle.Some? && s.oracle.value < Bar(s) }

  function FateOf(threshold: nat, target: Span, s: Sizes): Fate {
    if target.len < threshold then Subthreshold
    else if s.cands == [] then NoCandidate
    else if SimOk(s) then Recovered
    else if Least(s.cands).Some? && Least(s.cands).value < s.lz4 then CodecOnly
    else NoBenefit
  }

  lemma {:induction false} LeastIsMinimum(ds: seq<nat>)
    ensures Least(ds).None? <==> ds == []
    ensures Least(ds).Some? ==> Least(ds).value in ds && forall d :: d in ds ==> Least(ds).value <= d
    decreases |ds|
  {
    if |ds| > 0 {
      var init := ds[..|ds| - 1];
      LeastIsMinimum(init);
      assert forall d :: d in ds ==> d in init || d == ds[|ds| - 1];
    }
  }

  // What the outcomes mean: recovered beats both the stored body and plain zstd with some candidate;
  // codec-only beats the stored body and, with no candidate, plain zstd.
  lemma FateMeaning(threshold: nat, target: Span, s: Sizes)
    requires target.len >= threshold
    ensures FateOf(threshold, target, s) == Recovered <==> exists d :: d in s.cands && d < s.lz4 && d < s.nodict
    ensures FateOf(threshold, target, s) == CodecOnly <==>
              (exists d :: d in s.cands && d < s.lz4) && forall d :: d in s.cands ==> s.nodict <= d
    ensures FateOf(threshold, target, s) == NoBenefit <==> s.cands != [] && forall d :: d in s.cands ==> s.lz4 <= d
  {
    LeastIsMinimum(s.cands);
  }

  // The delta a bucket records for a target of that fate.
  function Delta(f: Fate, s: Sizes): nat {
    if f in {Recovered, CodecOnly} && Least(s.cands).Some? then Least(s.cands).value else 0
  }

  // The bucket of one fate over a list of misses.
  function BucketOf(f: Fate, threshold: nat, measure: Span -> Sizes, misses: seq<Span>): Bucket {
    if |misses| == 0 then EMPTY
    else
      var rest, target := BucketOf(f, threshold, measure, misses[..|misses| - 1]), misses[|misses| - 1];
      var s := measure(target);
      if FateOf(threshold, target, s) == f then rest.Add(target.len, s.lz4, Delta(f, s)) else rest
  }

  // Recovered targets again, against plain zstd instead of LZ4.
  function DictSaving(threshold: nat, measure: Span -> Sizes, misses: seq<Span>): Bucket {
    if |misses| == 0 then EMPTY
    else
      var rest, target := DictSaving(threshold, measure, misses[..|misses| - 1]), misses[|misses| - 1];
      var s := measure(target);
      if FateOf(threshold, target, s) == Recovered then rest.Add(target.len, s.nodict, Delta(Recovered, s)) else rest
  }

  // Bytes at or above the threshold, by (similarity recovers, same path recovers).
  function Cell(sim: bool, oracle: bool, threshold: nat, measure: Span -> Sizes, misses: seq<Span>): nat {
    if |misses| == 0 then 0
    else
      var rest, target := Cell(sim, oracle, threshold, measure, misses[..|misses| - 1]), misses[|misses| - 1];
      var s := measure(target);
      if target.len >= threshold && SimOk(s) == sim && OracleOk(s) == oracle then rest + target.len else rest
  }

  /**
   The five outcomes share the missed targets: bytes and runs add up. The matrix holds exactly the
   bytes at or above the threshold, and its recovered row is the recovered bucket.
   */
  lemma {:induction false} OutcomesShareTheMisses(threshold: nat, measure: Span -> Sizes, misses: seq<Span>)
    ensures var b := f => BucketOf(f, threshold, measure, misses);
            && b(Subthreshold).bytes + b(NoCandidate).bytes + b(Recovered).bytes + b(CodecOnly).bytes
                 + b(NoBenefit).bytes
               == Total(misses)
            && b(Subthreshold).runs + b(NoCandidate).runs + b(Recovered).runs + b(CodecOnly).runs + b(NoBenefit).runs
               == |misses|
    ensures var c := (sim, oracle) => Cell(sim, oracle, threshold, measure, misses);
            && c(false, false) + c(false, true) + c(true, false) + c(true, true)
               == Total(misses) - BucketOf(Subthreshold, threshold, measure, misses).bytes
            && c(true, false) + c(true, true) == BucketOf(Recovered, threshold, measure, misses).bytes
    decreases |misses|
  {
    if |misses| > 0 {
      OutcomesShareTheMisses(threshold, measure, misses[..|misses| - 1]);
    }
  }

  // Every recovered run saves at least a byte against LZ4 and at least a byte against plain zstd.
  lemma {:induction false} RecoveredSaves(threshold: nat, measure: Span -> Sizes, misses: seq<Span>)
    ensures var r, v := BucketOf(Recovered, threshold, measure, misses), DictSaving(threshold, measure, misses);
            && v.bytes == r.bytes && v.runs == r.runs && v.delta == r.delta
            && r.delta + r.runs <= r.lz4 && v.delta + v.runs <= v.lz4
    decreases |misses|
  {
    if |misses| > 0 {
      RecoveredSaves(threshold, measure, misses[..|misses| - 1]);
    }
  }

  // ---- the loops ----

  method BestOf(cands: seq<nat>) returns (best: Option<nat>)
    ensures best == Least(cands)
  {
    best := None;
    for i := 0 to |cands|
      invariant best == Least(cands[..i])
    {
      var d := cands[i];
      assert cands[..i + 1][..i] == cands[..i];
      if best.None? || d < best.value {
        best := Some(d);
      }
    }
    assert cands[..|cands|] == cands;
  }

  // ---- Tier-1 ----

  // The rule the replay applies, and the one its header states, which also asks to beat plain zstd.
  datatype Rule = Replay | Header

  predicate Hit(rule: Rule, s: Sizes) {
    s.tier1.Some? && s.tier1.value < s.lz4 && (rule == Header ==> s.tier1.value < s.nodict)
  }

  // Kept by the replay although plain zstd does as well or better.
  predicate Disputed(s: Sizes) { s.tier1.Some? && s.nodict <= s.tier1.value < s.lz4 }

  // The targets a rule misses, in order.
  function Misses(rule: Rule, measure: Span -> Sizes, targets: seq<Span>): seq<Span> {
    if |targets| == 0 then []
    else
      var rest := Misses(rule, measure, targets[..|targets| - 1]);
      if Hit(rule, measure(targets[|targets| - 1])) then rest else rest + [targets[|targets| - 1]]
  }

  function HitBucket(rule: Rule, measure: Span -> Sizes, targets: seq<Span>): Bucket {
    if |targets| == 0 then EMPTY
    else
      var rest, target := HitBucket(rule, measure, targets[..|targets| - 1]), targets[|targets| - 1];
      var s := measure(target);
      if Hit(rule, s) then rest.Add(target.len, s.lz4, s.tier1.value) else rest
  }

  // The header's rule misses no less, and misses the same number exactly if no target is disputed.
  lemma {:induction false} RulesByCount(measure: Span -> Sizes, targets: seq<Span>)
    ensures |Misses(Replay, measure, targets)| <= |Misses(Header, measure, targets)|
    ensures HitBucket(Header, measure, targets).runs <= HitBucket(Replay, measure, targets).runs
    ensures |Misses(Replay, measure, targets)| == |Misses(Header, measure, targets)| <==>
              forall t :: t in targets ==> !Disputed(measure(t))
    ensures HitBucket(Header, measure, targets).runs == HitBucket(Replay, measure, targets).runs <==>
              forall t :: t in targets ==> !Disputed(measure(t))
    decreases |targets|
  {
    if |targets| > 0 {
      var init, last := targets[..|targets| - 1], targets[|targets| - 1];
      RulesByCount(measure, init);
      assert targets == init + [last];
      assert (forall t :: t in targets ==> !Disputed(measure(t))) <==>
        (forall t :: t in init ==> !Disputed(measure(t))) && !Disputed(measure(last));
    }
  }

  lemma {:induction false} UndisputedRulesAgree(measure: Span -> Sizes, targets: seq<Span>)
    requires forall t :: t in targets ==> !Disputed(measure(t))
    ensures Misses(Replay, measure, targets) == Misses(Header, measure, targets)
    ensures HitBucket(Replay, measure, targets) == HitBucket(Header, measure, targets)
    decreases |targets|
  {
    if |targets| > 0 { UndisputedRulesAgree(measure, targets[..|targets| - 1]); }
  }

  /**
   The replay meets its header, in the targets it misses and in the bucket it reports,
   exactly if no target has a delta below LZ4 that plain zstd matches.
   */
  lemma ReplayMeetsHeaderIff(measure: Span -> Sizes, targets: seq<Span>)
    ensures Misses(Replay, measure, targets) == Misses(Header, measure, targets) <==>
              forall t :: t in targets ==> !Disputed(measure(t))
    ensures HitBucket(Replay, measure, targets) == HitBucket(Header, measure, targets) <==>
              forall t :: t in targets ==> !Disputed(measure(t))
  {
    RulesByCount(measure, targets);
    if forall t :: t in targets ==> !Disputed(measure(t)) { UndisputedRulesAgree(measure, targets); }
  }

  // An input on which it does not: a delta of 9 against 10 stored and 8 by plain zstd.
  lemma ReplayKeepsALosingDelta(target: Span)
    ensures var measure := (t: Span) => Sizes(10, Some(9), 8, None, []);
            Misses(Replay, measure, [target]) == [] && Misses(Header, measure, [target]) == [target]
  {
    assert [target][..0] == [];
  }

  method ReplayTier1(measure: Span -> Sizes, targets: seq<Span>) returns (hit: Bucket, misses: seq<Span>)
    ensures misses == Misses(Replay, measure, targets) && hit == HitBucket(Replay, measure, targets)
    ensures hit.bytes + Total(misses) == Total(targets) && hit.runs + |misses| == |targets|
    ensures hit.delta + hit.runs <= hit.lz4
  {
    hit, misses := EMPTY, [];
    for i := 0 to |targets|
      invariant misses == Misses(Replay, measure, targets[..i]) && hit == HitBucket(Replay, measure, targets[..i])
      invariant hit.bytes + Total(misses) == Total(targets[..i]) && hit.runs + |misses| == i
      invariant hit.delta + hit.runs <= hit.lz4
    {
      var target, s := targets[i], measure(targets[i]);
      assert targets[..i + 1][..i] == targets[..i];
      if s.tier1.Some? && s.tier1.value < s.lz4 {
        hit := hit.Add(target.len, s.lz4, s.tier1.value);
      } else {
        Push(misses, target);
        misses := misses + [target];
      }
    }
    assert targets[..|targets|] == targets;
  }

  datatype Report = Report(
    subthreshold: Bucket, nocandidate: Bucket, recovered: Bucket, codecOnly: Bucket, nobenefit: Bucket,
    dictSaving: Bucket, simBoth: nat, simOnly: nat, oracleOnly: nat, neither: nat)

  ghost predicate Reports(r: Report, threshold: nat, measure: Span -> Sizes, misses: seq<Span>) {
    && r.subthreshold == BucketOf(Subthreshold, threshold, measure, misses)
    && r.nocandidate == BucketOf(NoCandidate, threshold, measure, misses)
    && r.recovered == BucketOf(Recovered, threshold, measure, misses)
    && r.codecOnly == BucketOf(CodecOnly, threshold, measure, misses)
    && r.nobenefit == BucketOf(NoBenefit, threshold, measure, misses)
    && r.dictSaving == DictSaving(threshold, measure, misses)
    && r.simBoth == Cell(true, true, threshold, measure, misses)
    && r.simOnly == Cell(true, false, threshold, measure, misses)
    && r.oracleOnly == Cell(false, true, threshold, measure, misses)
    && r.neither == Cell(false, false, threshold, measure, misses)
  }

  // One pass of the matching loop.
  method MatchOne(r: Report, threshold: nat, target: Span, s: Sizes, ghost measure: Span -> Sizes,
                  ghost before: seq<Span>)
      returns (r': Report)
    requires Reports(r, threshold, measure, before) && s == measure(target)
    ensures Reports(r', threshold, measure, before + [target])
  {
    assert (before + [target])[..|before|] == before;
    if target.len < threshold {
      return r.(subthreshold := r.subthreshold.Add(target.len, s.lz4, 0));
    }
    var bar := if s.lz4 <= s.nodict then s.lz4 else s.nodict;
    var oracleOk := s.oracle.Some? && s.oracle.value < bar;
    var best := BestOf(s.cands);
    LeastIsMinimum(s.cands);
    var simOk := best.Some? && best.value < bar;
    r' := if simOk && oracleOk then r.(simBoth := r.simBoth + target.len)
          else if simOk then r.(simOnly := r.simOnly + target.len)
          else if oracleOk then r.(oracleOnly := r.oracleOnly + target.len)
          else r.(neither := r.neither + target.len);
    if s.cands == [] {
      r' := r'.(nocandidate := r.nocandidate.Add(target.len, s.lz4, 0));
    } else if best.value < bar {
      r' := r'.(recovered := r.recovered.Add(target.len, s.lz4, best.value),
                dictSaving := r.dictSaving.Add(target.len, s.nodict, best.value));
    } else if best.value < s.lz4 {
      r' := r'.(codecOnly := r.codecOnly.Add(target.len, s.lz4, best.value));
    } else {
      r' := r'.(nobenefit := r.nobenefit.Add(target.len, s.lz4, 0));
    }
  }

  method MatchMisses(threshold: nat, measure: Span -> Sizes, misses: seq<Span>) returns (r: Report)
    ensures Reports(r, threshold, measure, misses)
  {
    r := Report(EMPTY, EMPTY, EMPTY, EMPTY, EMPTY, EMPTY, 0, 0, 0, 0);
    for i := 0 to |misses|
      invariant Reports(r, threshold, measure, misses[..i])
    {
      assert misses[..i + 1] == misses[..i] + [misses[i]];
      r := MatchOne(r, threshold, misses[i], measure(misses[i]), measure, misses[..i]);
    }
    assert misses[..|misses|] == misses;
  }

  // ---- every byte has one class ----

  datatype Class = Journal | Metadata | TierOne | Missed(fate: Fate)

  function TargetClass(threshold: nat, measure: Span -> Sizes, target: Span): Class {
    if Hit(Replay, measure(target)) then TierOne else Missed(FateOf(threshold, target, measure(target)))
  }

  function IsClass(threshold: nat, measure: Span -> Sizes, c: Class): Span -> bool {
    target => TargetClass(threshold, measure, target) == c
  }

  // The spans of one class.
  function ClassSpans(p: Pieces, threshold: nat, measure: Span -> Sizes, c: Class): seq<Span> {
    match c
    case Journal => p.journal
    case Metadata => p.meta
    case _ => Where(p.targets, IsClass(threshold, measure, c))
  }

  // A target byte is in exactly the class of the target that holds it.
  lemma TargetByteClass(p: Pieces, threshold: nat, measure: Span -> Sizes, c: Class, b: nat)
    requires c != Journal && c != Metadata
    ensures b in Held(ClassSpans(p, threshold, measure, c)) <==>
              exists s :: s in p.targets && s.Has(b) && TargetClass(threshold, measure, s) == c
  {
    forall s
      ensures s in ClassSpans(p, threshold, measure, c) <==> s in p.targets && TargetClass(threshold, measure, s) == c
    {
      WhereMembers(p.targets, IsClass(threshold, measure, c), s);
    }
  }

  // `c` is the only class of `b`.
  ghost predicate OnlyClass(p: Pieces, threshold: nat, measure: Span -> Sizes, b: nat, c: Class) {
    && b in Held(ClassSpans(p, threshold, measure, c))
    && forall d :: b in Held(ClassSpans(p, threshold, measure, d)) ==> d == c
  }

  /** The classes share the changed bytes: each is in exactly one of them, and they hold no other. */
  lemma EveryByteHasOneClass(p: Pieces, changed: iset<nat>, journal: iset<nat>, cover: iset<nat>,
                             threshold: nat, measure: Span -> Sizes, b: nat)
    requires Sorted(p, changed, journal, cover) && Ascending(p.targets)
    ensures b in changed <==> exists c :: OnlyClass(p, threshold, measure, b, c)
    ensures b in changed <==> exists c :: b in Held(ClassSpans(p, threshold, measure, c))
  {
    forall c | c != Journal && c != Metadata
      ensures b in Held(ClassSpans(p, threshold, measure, c)) <==>
                exists s :: s in p.targets && s.Has(b) && TargetClass(threshold, measure, s) == c
    {
      TargetByteClass(p, threshold, measure, c, b);
    }
    if b in Held(p.targets) {
      var s :| s in p.targets && s.Has(b);
      var c := TargetClass(threshold, measure, s);
      forall d | b in Held(ClassSpans(p, threshold, measure, d)) ensures d == c {
        if d != Journal && d != Metadata {
          var u :| u in p.targets && u.Has(b) && TargetClass(threshold, measure, u) == d;
          OneSpanHolds(p.targets, s, u, b);
        }
      }
      assert OnlyClass(p, threshold, measure, b, c);
    } else if b in Held(p.journal) {
      assert OnlyClass(p, threshold, measure, b, Journal);
    } else if b in Held(p.meta) {
      assert OnlyClass(p, threshold, measure, b, Metadata);
    }
  }

  // The buckets count the bytes of their classes.
  lemma {:induction false} HitsCountTheirClass(threshold: nat, measure: Span -> Sizes, targets: seq<Span>)
    ensures HitBucket(Replay, measure, targets).bytes == Total(Where(targets, IsClass(threshold, measure, TierOne)))
    decreases |targets|
  {
    if |targets| > 0 {
      var init, last := targets[..|targets| - 1], targets[|targets| - 1];
      HitsCountTheirClass(threshold, measure, init);
      Push(Where(init, IsClass(threshold, measure, TierOne)), last);
    }
  }

  lemma {:induction false} OutcomesCountTheirClass(threshold: nat, measure: Span -> Sizes, targets: seq<Span>, f: Fate)
    ensures BucketOf(f, threshold, measure, Misses(Replay, measure, targets)).bytes ==
            Total(Where(targets, IsClass(threshold, measure, Missed(f))))
    decreases |targets|
  {
    if |targets| > 0 {
      var init, last := targets[..|targets| - 1], targets[|targets| - 1];
      OutcomesCountTheirClass(threshold, measure, init, f);
      var misses := Misses(Replay, measure, init);
      assert (misses + [last])[..|misses|] == misses;
      Push(Where(init, IsClass(threshold, measure, Missed(f))), last);
    }
  }

  function BytesOf(r: Report, f: Fate): nat {
    match f
    case Subthreshold => r.subthreshold.bytes
    case NoCandidate => r.nocandidate.bytes
    case Recovered => r.recovered.bytes
    case CodecOnly => r.codecOnly.bytes
    case NoBenefit => r.nobenefit.bytes
  }

  // The report's numbers are the sizes of the classes.
  ghost predicate CountsClasses(p: Pieces, threshold: nat, measure: Span -> Sizes,
                                journalBytes: nat, metaBytes: nat, hit: Bucket, r: Report) {
    && journalBytes == Total(ClassSpans(p, threshold, measure, Journal))
    && metaBytes == Total(ClassSpans(p, threshold, measure, Metadata))
    && hit.bytes == Total(ClassSpans(p, threshold, measure, TierOne))
    && forall f :: BytesOf(r, f) == Total(ClassSpans(p, threshold, measure, Missed(f)))
  }

  /**
   The measurement of two image states. Every byte of a changed block is journal, metadata, a
   Tier-1 hit, or in exactly one outcome of the misses; the reported numbers are the sizes of those
   classes; and the Tier-1 bucket is the header's exactly if no target is disputed.
   */
  method Run(before: Bytes, after: Bytes, journalSpans: seq<Span>, cover: seq<Span>, threshold: nat,
             measure: Span -> Sizes)
      returns (ok: bool, journalBytes: nat, metaBytes: nat, hit: Bucket, r: Report,
               ghost runs: seq<Span>, ghost p: Pieces)
    requires SortedByStart(journalSpans) && SortedByStart(cover)
    ensures ok <==> |before| == |after|
    ensures ok ==> DiffImages.Maximal(runs) && Held(runs) == DiffImages.ChangedBytes(before, after, |before|)
    ensures ok ==> Sorted(p, Held(runs), Held(journalSpans), Held(cover))
    ensures ok ==> forall b: nat :: b in Held(runs) <==> exists c :: OnlyClass(p, threshold, measure, b, c)
    ensures ok ==> CountsClasses(p, threshold, measure, journalBytes, metaBytes, hit, r)
    ensures ok ==> Total(runs) == journalBytes + metaBytes + hit.bytes
                                  + r.subthreshold.bytes + r.nocandidate.bytes + r.recovered.bytes
                                  + r.codecOnly.bytes + r.nobenefit.bytes
    ensures ok ==> Total(runs) - journalBytes - metaBytes - hit.bytes - r.subthreshold.bytes
                   == r.simBoth + r.simOnly + r.oracleOnly + r.neither
    ensures ok ==> r.simBoth + r.simOnly == r.recovered.bytes == r.dictSaving.bytes
    ensures ok ==>
              (hit == HitBucket(Header, measure, p.targets) <==> forall t :: t in p.targets ==> !Disputed(measure(t)))
  {
    journalBytes, metaBytes, hit, runs, p := 0, 0, EMPTY, [], Pieces([], [], []);
    r := Report(EMPTY, EMPTY, EMPTY, EMPTY, EMPTY, EMPTY, 0, 0, 0, 0);
    if |before| != |after| {
      ok := false;
      return;
    }
    var diff := DiffImages.Diff(before, after, |before|);
    ok, runs := true, diff.value;
    DiffImages.MaximalAscends(runs);
    var targets;
    journalBytes, metaBytes, targets, p := Classify(diff.value, journalSpans, cover);
    hit, r := MeasureTargets(threshold, measure, targets);
    forall b: nat ensures b in Held(runs) <==> exists c :: OnlyClass(p, threshold, measure, b, c) {
      EveryByteHasOneClass(p, Held(runs), Held(journalSpans), Held(cover), threshold, measure, b);
    }
  }

  // Tier-1, then similarity over what it missed.
  method MeasureTargets(threshold: nat, measure: Span -> Sizes, targets: seq<Span>) returns (hit: Bucket, r: Report)
    ensures hit.bytes + r.subthreshold.bytes + r.nocandidate.bytes + r.recovered.bytes + r.codecOnly.bytes
              + r.nobenefit.bytes
            == Total(targets)
    ensures r.simBoth + r.simOnly + r.oracleOnly + r.neither == Total(targets) - hit.bytes - r.subthreshold.bytes
    ensures r.simBoth + r.simOnly == r.recovered.bytes == r.dictSaving.bytes
    ensures hit.bytes == Total(Where(targets, IsClass(threshold, measure, TierOne)))
    ensures forall f :: BytesOf(r, f) == Total(Where(targets, IsClass(threshold, measure, Missed(f))))
    ensures hit == HitBucket(Header, measure, targets) <==> forall t :: t in targets ==> !Disputed(measure(t))
  {
    var misses;
    hit, misses := ReplayTier1(measure, targets);
    r := MatchMisses(threshold, measure, misses);
    OutcomesShareTheMisses(threshold, measure, misses);
    RecoveredSaves(threshold, measure, misses);
    ReplayMeetsHeaderIff(measure, targets);
    forall f ensures BytesOf(r, f) == Total(Where(targets, IsClass(threshold, measure, Missed(f)))) {
      OutcomesCountTheirClass(threshold, measure, targets, f);
    }
    HitsCountTheirClass(threshold, measure, targets);
  }
}
