/**
 Byte spans, their partition against cuts, and the classification of changed bytes into journal,
 metadata and file data.
 */
module Spans {
  datatype Span = Span(start: nat, len: nat) {
    function End(): nat { start + len }

    predicate Has(b: nat) { start <= b < End() }
  }

  ghost predicate Covers(ss: seq<Span>, b: nat) { exists s :: s in ss && s.Has(b) }

  // Ascending and disjoint; empty pieces may sit between.
  ghost predicate Ascending(ss: seq<Span>) { forall i, j :: 0 <= i < j < |ss| ==> ss[i].End() <= ss[j].start }

  ghost predicate SortedByStart(ss: seq<Span>) { forall i, j :: 0 <= i < j < |ss| ==> ss[i].start <= ss[j].start }

  function Total(ss: seq<Span>): nat { if |ss| == 0 then 0 else Total(ss[..|ss| - 1]) + ss[|ss| - 1].len }

  // The bytes the spans hold.
  ghost function Held(ss: seq<Span>): iset<nat> { iset b: nat | Covers(ss, b) }

  ghost function Of(s: Span): iset<nat> { iset b: nat | s.Has(b) }

  ghost function Range(lo: nat, hi: nat): iset<nat>
    requires lo <= hi
  {
    Of(Span(lo, hi - lo))
  }

  lemma Push(ss: seq<Span>, s: Span)
    ensures Total(ss + [s]) == Total(ss) + s.len
    ensures forall b: nat :: Covers(ss + [s], b) <==> Covers(ss, b) || s.Has(b)
  {
    assert (ss + [s])[..|ss|] == ss;
    forall b: nat ensures Covers(ss + [s], b) <==> Covers(ss, b) || s.Has(b) {
      assert s in ss + [s];
      if Covers(ss, b) {
        var t :| t in ss && t.Has(b);
        assert t in ss + [s];
      }
    }
  }

  lemma {:induction false} TotalAppend(a: seq<Span>, b: seq<Span>)
    ensures Total(a + b) == Total(a) + Total(b)
    decreases |b|
  {
    if |b| == 0 {
      assert a + b == a;
    } else {
      assert (a + b)[..|a + b| - 1] == a + b[..|b| - 1];
      TotalAppend(a, b[..|b| - 1]);
    }
  }

  lemma HeldAppend(a: seq<Span>, b: seq<Span>)
    ensures Held(a + b) == Held(a) + Held(b)
  {
    forall s ensures s in a + b <==> s in a || s in b {}
  }

  lemma HeldPush(ss: seq<Span>, s: Span)
    ensures Held(ss + [s]) == Held(ss) + Of(s)
  {
    Push(ss, s);
  }

  // The spans that satisfy `keep`, in order.
  function Where(ss: seq<Span>, keep: Span -> bool): seq<Span> {
    if |ss| == 0 then []
    else
      var rest := Where(ss[..|ss| - 1], keep);
      if keep(ss[|ss| - 1]) then rest + [ss[|ss| - 1]] else rest
  }

  lemma {:induction false} WhereMembers(ss: seq<Span>, keep: Span -> bool, s: Span)
    ensures s in Where(ss, keep) <==> s in ss && keep(s)
    decreases |ss|
  {
    if |ss| > 0 {
      WhereMembers(ss[..|ss| - 1], keep, s);
      assert ss == ss[..|ss| - 1] + [ss[|ss| - 1]];
    }
  }

  // The span of an ascending list that holds a byte is the only one to.
  lemma OneSpanHolds(ss: seq<Span>, s: Span, t: Span, b: nat)
    requires Ascending(ss) && s in ss && t in ss && s.Has(b) && t.Has(b)
    ensures s == t
  {
    var i :| 0 <= i < |ss| && ss[i] == s;
    var k :| 0 <= k < |ss| && ss[k] == t;
  }

  // Ascending pieces of the bytes from `lo` up to `hi`.
  ghost predicate Between(ss: seq<Span>, lo: nat, hi: nat) {
    Ascending(ss) && forall i :: 0 <= i < |ss| ==> lo <= ss[i].start && ss[i].End() <= hi
  }

  lemma BetweenPush(ss: seq<Span>, lo: nat, pos: nat, upto: nat)
    requires Between(ss, lo, pos) && lo <= pos <= upto
    ensures Between(ss + [Span(pos, upto - pos)], lo, upto) && Between(ss, lo, upto)
  {
  }

  // The bytes of `span` below `pos` that some cut holds are in `inside`, the others in `outside`.
  ghost predicate CoversBelow(span: Span, cuts: seq<Span>, pos: nat, inside: seq<Span>, outside: seq<Span>)
    requires span.start <= pos
  {
    && Held(inside) == Range(span.start, pos) * Held(cuts)
    && Held(outside) == Range(span.start, pos) - Held(cuts)
  }

  // Everything of `span` below `pos` is split exactly.
  ghost predicate SplitBelow(span: Span, cuts: seq<Span>, pos: nat, inside: seq<Span>, outside: seq<Span>) {
    && span.start <= pos && CoversBelow(span, cuts, pos, inside, outside)
    && Between(inside, span.start, pos) && Between(outside, span.start, pos) && (forall s :: s in outside ==> s.len > 0)
    && Total(inside) + Total(outside) == pos - span.start
  }

  // Between what earlier cuts reach and where the next one starts, nothing is covered.
  lemma Gap(cuts: seq<Span>, i: nat, pos: nat, b: nat)
    requires SortedByStart(cuts) && i <= |cuts| && forall k :: 0 <= k < i ==> cuts[k].End() <= pos
    requires pos <= b && (i < |cuts| ==> b < cuts[i].start)
    ensures !Covers(cuts, b)
  {
  }

  lemma CoverOutside(span: Span, cuts: seq<Span>, i: nat, pos: nat, upto: nat, inside: seq<Span>, outside: seq<Span>)
    requires span.start <= pos < upto && CoversBelow(span, cuts, pos, inside, outside)
    requires SortedByStart(cuts) && i <= |cuts| && (forall k :: 0 <= k < i ==> cuts[k].End() <= pos)
    requires i < |cuts| ==> upto <= cuts[i].start
    ensures CoversBelow(span, cuts, upto, inside, outside + [Span(pos, upto - pos)])
  {
    HeldPush(outside, Span(pos, upto - pos));
    forall b: nat | pos <= b < upto ensures b !in Held(cuts) { Gap(cuts, i, pos, b); }
  }

  lemma PushOutside(span: Span, cuts: seq<Span>, i: nat, pos: nat, upto: nat, inside: seq<Span>, outside: seq<Span>)
    requires SplitBelow(span, cuts, pos, inside, outside) && pos < upto
    requires SortedByStart(cuts) && i <= |cuts| && (forall k :: 0 <= k < i ==> cuts[k].End() <= pos)
    requires i < |cuts| ==> upto <= cuts[i].start
    ensures SplitBelow(span, cuts, upto, inside, outside + [Span(pos, upto - pos)])
  {
    CoverOutside(span, cuts, i, pos, upto, inside, outside);
    Push(outside, Span(pos, upto - pos));
    BetweenPush(inside, span.start, pos, upto);
    BetweenPush(outside, span.start, pos, upto);
  }

  lemma CoverInside(span: Span, cuts: seq<Span>, i: nat, pos: nat, upto: nat, inside: seq<Span>, outside: seq<Span>)
    requires span.start <= pos <= upto && CoversBelow(span, cuts, pos, inside, outside)
    requires i < |cuts| && cuts[i].start <= pos && upto <= cuts[i].End()
    ensures CoversBelow(span, cuts, upto, inside + [Span(pos, upto - pos)], outside)
  {
    HeldPush(inside, Span(pos, upto - pos));
    forall b: nat | pos <= b < upto ensures b in Held(cuts) { assert cuts[i] in cuts && cuts[i].Has(b); }
  }

  lemma PushInside(span: Span, cuts: seq<Span>, i: nat, pos: nat, upto: nat, inside: seq<Span>, outside: seq<Span>)
    requires SplitBelow(span, cuts, pos, inside, outside) && pos <= upto
    requires i < |cuts| && cuts[i].start <= pos && upto <= cuts[i].End()
    ensures SplitBelow(span, cuts, upto, inside + [Span(pos, upto - pos)], outside)
  {
    CoverInside(span, cuts, i, pos, upto, inside, outside);
    Push(inside, Span(pos, upto - pos));
    BetweenPush(inside, span.start, pos, upto);
    BetweenPush(outside, span.start, pos, upto);
  }

  lemma SplitWhole(span: Span, cuts: seq<Span>, inside: seq<Span>, outside: seq<Span>)
    requires SplitBelow(span, cuts, span.End(), inside, outside)
    ensures Held(inside) == Of(span) * Held(cuts) && Held(outside) == Of(span) - Held(cuts)
  {
  }

  // One cut that reaches past `pos` and starts before the span's end.
  method TakeCut(span: Span, cuts: seq<Span>, i: nat, pos0: nat, inside0: seq<Span>, outside0: seq<Span>)
      returns (pos: nat, inside: seq<Span>, outside: seq<Span>)
    requires SortedByStart(cuts) && i < |cuts| && forall k :: 0 <= k < i ==> cuts[k].End() <= pos0
    requires SplitBelow(span, cuts, pos0, inside0, outside0) && pos0 <= span.End()
    requires cuts[i].End() > pos0 && cuts[i].start < span.End()
    ensures SplitBelow(span, cuts, pos, inside, outside)
    ensures pos == if cuts[i].End() < span.End() then cuts[i].End() else span.End()
  {
    var c := cuts[i];
    pos, inside, outside := pos0, inside0, outside0;
    if c.start > pos {
      PushOutside(span, cuts, i, pos, c.start, inside, outside);
      outside := outside + [Span(pos, c.start - pos)];
      pos := c.start;
    }
    var overlapEnd := if c.End() < span.End() then c.End() else span.End();
    PushInside(span, cuts, i, pos, overlapEnd, inside, outside);
    inside := inside + [Span(pos, overlapEnd - pos)];
    pos := overlapEnd;
  }

  lemma NothingSplit(span: Span, cuts: seq<Span>)
    ensures SplitBelow(span, cuts, span.start, [], [])
  {
    assert Held([]) == iset{} == Range(span.start, span.start);
  }

  // The loop over the cuts. It stops at the span's end, or where no cut is left below it.
  method SplitAtCuts(span: Span, cuts: seq<Span>) returns (pos: nat, i: nat, inside: seq<Span>, outside: seq<Span>)
    requires SortedByStart(cuts)
    ensures SplitBelow(span, cuts, pos, inside, outside) && pos <= span.End()
    ensures pos < span.End() ==>
              && i <= |cuts| && (forall k :: 0 <= k < i ==> cuts[k].End() <= pos)
              && (i < |cuts| ==> span.End() <= cuts[i].start)
  {
    NothingSplit(span, cuts);
    pos, i, inside, outside := span.start, 0, [], [];
    while i < |cuts|
      invariant i <= |cuts| && pos <= span.End()
      invariant forall k :: 0 <= k < i ==> cuts[k].End() <= pos
      invariant SplitBelow(span, cuts, pos, inside, outside)
    {
      if cuts[i].End() <= pos {
        i := i + 1;
        continue;
      }
      if cuts[i].start >= span.End() {
        break;
      }
      pos, inside, outside := TakeCut(span, cuts, i, pos, inside, outside);
      if pos >= span.End() {
        break;
      }
      i := i + 1;
    }
  }

  /**
   Splits `span` exactly into the bytes some cut holds and the bytes none does, each ascending,
   given only that the cuts are sorted by start: they may overlap or be empty.
   */
  method PartitionSpan(span: Span, cuts: seq<Span>) returns (inside: seq<Span>, outside: seq<Span>)
    requires SortedByStart(cuts)
    ensures Held(inside) == Of(span) * Held(cuts)
    ensures Held(outside) == Of(span) - Held(cuts)
    ensures Between(inside, span.start, span.End()) && Between(outside, span.start, span.End())
    ensures forall s :: s in outside ==> s.len > 0
    ensures Total(inside) + Total(outside) == span.len
  {
    var pos, i;
    pos, i, inside, outside := SplitAtCuts(span, cuts);
    if pos < span.End() {
      PushOutside(span, cuts, i, pos, span.End(), inside, outside);
      outside := outside + [Span(pos, span.End() - pos)];
    }
    SplitWhole(span, cuts, inside, outside);
  }
}
