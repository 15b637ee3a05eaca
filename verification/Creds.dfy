/**
 The lazily credentialed fetcher: any number of `get_range` callers and an idle
 timer share one cached fetcher behind a lock. Each critical section is one step,
 because the rebuild runs while the write lock is held.
 */
module Creds {
  import opened Wrappers

  // Fetchers are told apart by identity (`Arc::ptr_eq`): the n-th one installed is n.
  type Fetcher = nat

  // The issuer was asked because `failed` had been denied: did it deliver, and was the slot empty then?
  datatype Ask = Ask(failed: Fetcher, issued: bool, onEmpty: bool)

  /**
   The locked slot with its history: how many fetchers were installed, which the idle
   timer dropped, which were replaced after a denial, and every ask after a denial.
   */
  datatype Slot = Slot(cached: Option<Fetcher>, installed: nat, dropped: seq<Fetcher>, replaced: seq<Fetcher>,
                       asks: seq<Ask>)

  const Empty := Slot(None, 0, [], [], [])

  function Install(s: Slot): Slot { s.(cached := Some(s.installed), installed := s.installed + 1) }

  // Under the write lock: reuse what is cached, or build one. `issued`: did reissue and build succeed?
  function Fill(s: Slot, issued: bool): Slot { if s.cached.None? && issued then Install(s) else s }

  // Is the issuer asked when `failed` was denied?
  predicate MustReissue(s: Slot, failed: Fetcher) { s.cached.None? || s.cached == Some(failed) }

  function Replace(s: Slot, failed: Fetcher, issued: bool): Slot {
    if !MustReissue(s, failed) then s
    else
      var asked := s.(asks := s.asks + [Ask(failed, issued, s.cached.None?)]);
      if !issued then asked
      else if s.cached.None? then Install(asked)
      else Install(asked).(replaced := s.replaced + [failed])
  }

  function IdleDrop(s: Slot): Slot {
    if s.cached.Some? then s.(cached := None, dropped := s.dropped + [s.cached.value]) else s
  }

  // ---- the object ----

  class LazyCredsFetcher {
    var inner: Option<Fetcher>
    var installed: nat
    var dropped: seq<Fetcher>
    var replaced: seq<Fetcher>
    var asks: seq<Ask>

    ghost function State(): Slot
      reads this
    {
      Slot(inner, installed, dropped, replaced, asks)
    }

    constructor ()
      ensures State() == Empty
    {
      inner, installed, dropped, replaced, asks := None, 0, [], [], [];
    }

    // Reissue credentials and build a fetcher; the caller stores it.
    method BuildFresh(issued: bool) returns (r: Option<Fetcher>)
      modifies this
      ensures r == (if issued then Some(old(installed)) else None)
      ensures installed == old(installed) + (if issued then 1 else 0)
      ensures inner == old(inner) && dropped == old(dropped) && replaced == old(replaced) && asks == old(asks)
    {
      if !issued {
        return None;
      }
      r := Some(installed);
      installed := installed + 1;
    }

    method Acquire(issued: bool) returns (r: Option<Fetcher>, calls: nat)
      modifies this
      ensures State() == Fill(old(State()), issued)
      ensures r == State().cached
      ensures calls == if old(inner).None? then 1 else 0
    {
      if inner.Some? {
        return inner, 0;
      }
      r := BuildFresh(issued);
      calls := 1;
      if r.Some? {
        inner := r;
      }
    }

    method ReissueAfterDenial(failed: Fetcher, issued: bool) returns (r: Option<Fetcher>, calls: nat)
      modifies this
      ensures State() == Replace(old(State()), failed, issued)
      ensures calls == if MustReissue(old(State()), failed) then 1 else 0
      ensures r == if calls == 1 && !issued then None else State().cached
    {
      if inner.Some? && inner != Some(failed) {
        return inner, 0;
      }
      var had := inner.Some?;
      asks := asks + [Ask(failed, issued, !had)];
      r := BuildFresh(issued);
      calls := 1;
      if r.Some? {
        inner := r;
        if had {
          replaced := replaced + [failed];
        }
      }
    }

    method IdleTick()
      modifies this
      ensures State() == IdleDrop(old(State()))
    {
      if inner.Some? {
        inner, dropped := None, dropped + [inner.value];
      }
    }

    /**
     One call with nobody else about. `backend` says how each fetcher answers: Some(true)
     data, Some(false) denied, None any other error; `first` and `second` whether the two
     possible issues succeed.
     */
    method GetRange(backend: map<Fetcher, Option<bool>>, first: bool, second: bool)
        returns (ok: bool, fetches: nat, calls: nat)
      modifies this
      ensures fetches <= 2 && calls <= 2
      ensures var s := Fill(old(State()), first);
              State() == if s.cached.Some? && Answer(backend, s.cached.value) == Some(false)
                         then Replace(s, s.cached.value, second) else s
      ensures ok ==> inner.Some? && Answer(backend, inner.value) == Some(true)
      ensures fetches == 0 <==> old(inner).None? && !first
      ensures old(inner).Some? && Answer(backend, old(inner).value) == Some(true) ==>
                ok && fetches == 1 && calls == 0
    {
      var f, n := Acquire(first);
      if f.None? {
        return false, 0, n;
      }
      if Answer(backend, f.value) != Some(false) {
        return Answer(backend, f.value) == Some(true), 1, n;
      }
      var g, m := ReissueAfterDenial(f.value, second);
      if g.None? {
        return false, 1, n + m;
      }
      return Answer(backend, g.value) == Some(true), 2, n + m;
    }
  }

  function Answer(backend: map<Fetcher, Option<bool>>, f: Fetcher): Option<bool> {
    if f in backend then backend[f] else None
  }

  // ---- every interleaving of callers and ticks ----

  datatype Pc = Begin | WantWrite | Have(f: Fetcher) | Denied(f: Fetcher) | Retry(f: Fetcher) | Returned

  // `fetches` and `calls` count this call's backend fetches and issuer calls.
  datatype Caller = Caller(pc: Pc, fetches: nat, calls: nat)

  datatype World = World(slot: Slot, callers: map<nat, Caller>)

  datatype Action =
    | Enter(c: nat)
    | ReadLock(c: nat)
    | WriteLock(c: nat, issued: bool)
    | Backend(c: nat, denied: bool)
    | Reissue(c: nat, issued: bool)
    | BackendAgain(c: nat)
    | Tick

  const Idle := World(Empty, map[])

  predicate At(w: World, c: nat, pc: Pc) { c in w.callers && w.callers[c].pc == pc }

  function Move(w: World, c: nat, caller: Caller): World { w.(callers := w.callers[c := caller]) }

  function Next(cached: Option<Fetcher>, caller: Caller): Caller {
    caller.(pc := match cached case Some(f) => Have(f) case None => Returned)
  }

  function StepWriteLock(w: World, c: nat, issued: bool): World {
    if At(w, c, WantWrite) then
      var slot := Fill(w.slot, issued);
      var caller := w.callers[c].(calls := w.callers[c].calls + if w.slot.cached.None? then 1 else 0);
      World(slot, w.callers[c := Next(slot.cached, caller)])
    else w
  }

  function StepReissue(w: World, c: nat, issued: bool): World {
    if c in w.callers && w.callers[c].pc.Denied? then
      var failed := w.callers[c].pc.f;
      var slot := Replace(w.slot, failed, issued);
      if !MustReissue(w.slot, failed) then Move(w, c, w.callers[c].(pc := Retry(w.slot.cached.value)))
      else
        var caller := w.callers[c].(calls := w.callers[c].calls + 1);
        World(slot, w.callers[c := caller.(pc := if issued then Retry(w.slot.installed) else Returned)])
    else w
  }

  function Step(w: World, a: Action): World {
    match a
    case Enter(c) => if c in w.callers then w else Move(w, c, Caller(Begin, 0, 0))
    case ReadLock(c) =>
      if !At(w, c, Begin) then w
      else Move(w, c, w.callers[c].(pc := match w.slot.cached case Some(f) => Have(f) case None => WantWrite))
    case WriteLock(c, issued) => StepWriteLock(w, c, issued)
    case Backend(c, denied) =>
      if c in w.callers && w.callers[c].pc.Have? then
        Move(w, c, Caller(if denied then Denied(w.callers[c].pc.f) else Returned,
                          w.callers[c].fetches + 1, w.callers[c].calls))
      else w
    case Reissue(c, issued) => StepReissue(w, c, issued)
    case BackendAgain(c) =>
      if c in w.callers && w.callers[c].pc.Retry? then
        Move(w, c, Caller(Returned, w.callers[c].fetches + 1, w.callers[c].calls))
      else w
    case Tick => w.(slot := IdleDrop(w.slot))
  }

  function Run(w: World, acts: seq<Action>): World
    decreases |acts|
  {
    if |acts| == 0 then w else Run(Step(w, acts[0]), acts[1..])
  }

  ghost predicate Reachable(w: World) { exists acts :: w == Run(Idle, acts) }

  // ---- the invariant ----

  // No ask on behalf of `f` was answered.
  ghost predicate Unanswered(s: Slot, f: Fetcher) {
    forall i :: 0 <= i < |s.asks| && s.asks[i].failed == f ==> !s.asks[i].issued
  }

  // A cached fetcher is always the newest one, so a replaced fetcher never comes back.
  ghost predicate CountsOk(s: Slot) {
    && s.installed == (if s.cached.Some? then 1 else 0) + |s.dropped| + |s.replaced|
    && (s.cached.Some? ==> s.cached.value + 1 == s.installed)
    && (forall i, k :: 0 <= i < k < |s.replaced| ==> s.replaced[i] < s.replaced[k])
    && (forall i :: 0 <= i < |s.replaced| ==> s.replaced[i] + 1 < s.installed)
  }

  // The slot read off the history: `f` is cached while it is neither dropped nor answered for, and
  // the slot is empty while the newest fetcher is dropped.
  ghost predicate HistoryOk(s: Slot) {
    && (forall f :: f in s.dropped ==> f < s.installed)
    && (forall i :: 0 <= i < |s.asks| ==> s.asks[i].failed < s.installed)
    && (forall f: Fetcher :: f < s.installed && f !in s.dropped && Unanswered(s, f) ==> s.cached == Some(f))
    && (s.cached.Some? ==> s.cached.value !in s.dropped && Unanswered(s, s.cached.value))
    && (s.cached.None? && s.installed > 0 ==> s.installed - 1 in s.dropped)
    && (forall i :: 0 <= i < |s.asks| && s.asks[i].onEmpty ==> s.dropped != [])
    && (forall i, k :: 0 <= i < k < |s.asks| && s.asks[i].failed == s.asks[k].failed ==>
          !s.asks[i].issued || s.asks[k].onEmpty)
  }

  ghost predicate SlotOk(s: Slot) { CountsOk(s) && HistoryOk(s) }

  ghost predicate CallerOk(s: Slot, caller: Caller) {
    match caller.pc
    case Begin => caller.fetches == 0 && caller.calls == 0
    case WantWrite => caller.fetches == 0 && caller.calls == 0
    case Have(f) => f < s.installed && caller.fetches == 0 && caller.calls <= 1
    case Denied(f) => f < s.installed && caller.fetches == 1 && caller.calls <= 1
    case Retry(f) => f < s.installed && caller.fetches == 1 && caller.calls <= 2
    case Returned => caller.fetches <= 2 && caller.calls <= 2
  }

  ghost predicate Inv(w: World) {
    SlotOk(w.slot) && forall c :: c in w.callers ==> CallerOk(w.slot, w.callers[c])
  }

  // ---- steps of the slot ----

  lemma InstallKeeps(s: Slot)
    requires SlotOk(s) && s.cached.None?
    ensures SlotOk(Install(s))
  {
    var s' := Install(s);
    assert Unanswered(s', s.installed);
    forall f: Fetcher ensures Unanswered(s', f) ==> Unanswered(s, f) {}
  }

  // An ask that is not answered changes nothing but the log.
  lemma AskKeeps(s: Slot, failed: Fetcher)
    requires SlotOk(s) && failed < s.installed && MustReissue(s, failed)
    ensures SlotOk(s.(asks := s.asks + [Ask(failed, false, s.cached.None?)]))
  {
    var s' := s.(asks := s.asks + [Ask(failed, false, s.cached.None?)]);
    forall f: Fetcher ensures Unanswered(s', f) <==> Unanswered(s, f) {
      assert forall i :: 0 <= i < |s.asks| ==> s'.asks[i] == s.asks[i];
    }
  }

  lemma AnsweredKeepsHistory(s: Slot, failed: Fetcher)
    requires SlotOk(s) && failed < s.installed && MustReissue(s, failed)
    ensures HistoryOk(Replace(s, failed, true))
  {
    var s' := Replace(s, failed, true);
    assert forall i :: 0 <= i < |s.asks| ==> s'.asks[i] == s.asks[i];
    assert s'.asks[|s.asks|] == Ask(failed, true, s.cached.None?);
    assert Unanswered(s', s.installed);
    forall f: Fetcher ensures Unanswered(s', f) ==> Unanswered(s, f) && f != failed {}
  }

  lemma ReplaceKeeps(s: Slot, failed: Fetcher, issued: bool)
    requires SlotOk(s) && failed < s.installed
    ensures SlotOk(Replace(s, failed, issued))
  {
    if MustReissue(s, failed) {
      if issued { AnsweredKeepsHistory(s, failed); } else { AskKeeps(s, failed); }
    }
  }

  lemma DropKeeps(s: Slot)
    requires SlotOk(s)
    ensures SlotOk(IdleDrop(s))
  {
    var s' := IdleDrop(s);
    forall f: Fetcher ensures Unanswered(s', f) <==> Unanswered(s, f) {}
    if s.cached.Some? {
      assert s'.dropped[|s.dropped|] == s.cached.value;
      forall f | f in s'.dropped ensures f < s'.installed { assert f in s.dropped || f == s.cached.value; }
    }
  }

  // ---- steps of the callers ----

  // Only caller `c` moved, and the slot installed no less than before.
  lemma CallerMoves(w: World, w': World, c: nat)
    requires Inv(w) && SlotOk(w'.slot) && w.slot.installed <= w'.slot.installed
    requires c in w'.callers && w'.callers == w.callers[c := w'.callers[c]] && CallerOk(w'.slot, w'.callers[c])
    ensures Inv(w')
  {
    forall d | d in w'.callers ensures CallerOk(w'.slot, w'.callers[d]) {
      assert d != c ==> CallerOk(w.slot, w.callers[d]);
    }
  }

  lemma EnterKeeps(w: World, c: nat)
    requires Inv(w)
    ensures Inv(Step(w, Enter(c)))
  {
    if c !in w.callers { CallerMoves(w, Step(w, Enter(c)), c); }
  }

  lemma ReadLockKeeps(w: World, c: nat)
    requires Inv(w)
    ensures Inv(Step(w, ReadLock(c)))
  {
    if At(w, c, Begin) {
      assert CallerOk(w.slot, w.callers[c]);
      CallerMoves(w, Step(w, ReadLock(c)), c);
    }
  }

  lemma WriteLockKeeps(w: World, c: nat, issued: bool)
    requires Inv(w)
    ensures Inv(StepWriteLock(w, c, issued))
  {
    if At(w, c, WantWrite) {
      assert CallerOk(w.slot, w.callers[c]);
      if w.slot.cached.None? && issued { InstallKeeps(w.slot); }
      CallerMoves(w, StepWriteLock(w, c, issued), c);
    }
  }

  lemma BackendKeeps(w: World, c: nat, denied: bool)
    requires Inv(w)
    ensures Inv(Step(w, Backend(c, denied))) && Inv(Step(w, BackendAgain(c)))
  {
    if c in w.callers {
      assert CallerOk(w.slot, w.callers[c]);
      if w.callers[c].pc.Have? { CallerMoves(w, Step(w, Backend(c, denied)), c); }
      if w.callers[c].pc.Retry? { CallerMoves(w, Step(w, BackendAgain(c)), c); }
    }
  }

  lemma ReissueKeeps(w: World, c: nat, issued: bool)
    requires Inv(w)
    ensures Inv(StepReissue(w, c, issued))
  {
    if c in w.callers && w.callers[c].pc.Denied? {
      assert CallerOk(w.slot, w.callers[c]);
      ReplaceKeeps(w.slot, w.callers[c].pc.f, issued);
      CallerMoves(w, StepReissue(w, c, issued), c);
    }
  }

  lemma TickKeeps(w: World)
    requires Inv(w)
    ensures Inv(Step(w, Tick))
  {
    DropKeeps(w.slot);
    forall c | c in w.callers ensures CallerOk(IdleDrop(w.slot), w.callers[c]) {
      assert CallerOk(w.slot, w.callers[c]);
    }
  }

  lemma StepKeeps(w: World, a: Action)
    requires Inv(w)
    ensures Inv(Step(w, a))
  {
    match a
    case Enter(c) => EnterKeeps(w, c);
    case ReadLock(c) => ReadLockKeeps(w, c);
    case WriteLock(c, issued) => WriteLockKeeps(w, c, issued);
    case Backend(c, denied) => BackendKeeps(w, c, denied);
    case Reissue(c, issued) => ReissueKeeps(w, c, issued);
    case BackendAgain(c) => BackendKeeps(w, c, false);
    case Tick => TickKeeps(w);
  }

  lemma {:induction false} RunKeeps(w: World, acts: seq<Action>)
    requires Inv(w)
    ensures Inv(Run(w, acts))
    decreases |acts|
  {
    if |acts| > 0 {
      StepKeeps(w, acts[0]);
      RunKeeps(Step(w, acts[0]), acts[1..]);
    }
  }

  lemma ReachableOk(w: World)
    requires Reachable(w)
    ensures Inv(w)
  {
    var acts :| w == Run(Idle, acts);
    RunKeeps(Idle, acts);
  }

  // ---- what holds over every run ----

  /**
   Conservation, in every interleaving: each installed fetcher is the cached one, was
   dropped idle, or was replaced after a denial; no fetcher is replaced twice; and no
   call reads the backend or asks the issuer more than twice.
   */
  lemma EveryFetcherIsAccountedFor(w: World)
    requires Reachable(w)
    ensures w.slot.installed == (if w.slot.cached.Some? then 1 else 0) + |w.slot.dropped| + |w.slot.replaced|
    ensures forall i, k :: 0 <= i < k < |w.slot.replaced| ==> w.slot.replaced[i] != w.slot.replaced[k]
    ensures forall c :: c in w.callers ==> w.callers[c].fetches <= 2 && w.callers[c].calls <= 2
  {
    ReachableOk(w);
    forall c | c in w.callers ensures w.callers[c].fetches <= 2 && w.callers[c].calls <= 2 {
      assert CallerOk(w.slot, w.callers[c]);
    }
  }

  // A fetcher that was replaced is never cached again, whatever happens next.
  lemma ReplacedStaysReplaced(w: World, acts: seq<Action>, f: Fetcher)
    requires Reachable(w) && f in w.slot.replaced
    ensures Run(w, acts).slot.cached != Some(f)
  {
    ReachableOk(w);
    NewerOnly(w, acts, f);
  }

  lemma {:induction false} NewerOnly(w: World, acts: seq<Action>, f: Fetcher)
    requires Inv(w) && f + 1 < w.slot.installed
    ensures Run(w, acts).slot.cached != Some(f)
    decreases |acts|
  {
    if |acts| > 0 {
      StepKeeps(w, acts[0]);
      NewerOnly(Step(w, acts[0]), acts[1..], f);
    }
  }

  // ---- single flight ----

  /**
   Which denials reach the issuer, in every interleaving: a caller denied on `f` asks
   exactly if `f` was never dropped and every ask on its behalf so far went unanswered,
   or the newest fetcher installed has been dropped and not refilled.
   */
  lemma DenialAsksIff(w: World, c: nat, issued: bool)
    requires Reachable(w) && c in w.callers && w.callers[c].pc.Denied?
    ensures var f, w' := w.callers[c].pc.f, Step(w, Reissue(c, issued));
            && f < w.slot.installed
            && (w'.callers[c].calls == w.callers[c].calls + 1 <==>
                  (f !in w.slot.dropped && Unanswered(w.slot, f)) || w.slot.installed - 1 in w.slot.dropped)
            && (w'.callers[c].calls == w.callers[c].calls + 1 <==>
                  w'.slot.asks == w.slot.asks + [Ask(f, issued, w.slot.cached.None?)])
  {
    ReachableOk(w);
    assert CallerOk(w.slot, w.callers[c]);
  }

  /**
   A second ask on behalf of one fetcher has one of two causes: the earlier ask went
   unanswered and left the denied fetcher in the slot, or the slot was empty at the later.
   */
  lemma SecondAskHasACause(w: World, i: nat, k: nat)
    requires Reachable(w) && i < k < |w.slot.asks| && w.slot.asks[i].failed == w.slot.asks[k].failed
    ensures !w.slot.asks[i].issued || w.slot.asks[k].onEmpty
  {
    ReachableOk(w);
  }

  // So the promise of one ask per denied fetcher holds in every run without a drop or an unanswered ask.
  lemma SingleFlight(w: World, i: nat, k: nat)
    requires Reachable(w) && i < |w.slot.asks| && k < |w.slot.asks| && w.slot.asks[i].failed == w.slot.asks[k].failed
    requires w.slot.dropped == [] && forall m :: 0 <= m < |w.slot.asks| ==> w.slot.asks[m].issued
    ensures i == k
  {
    ReachableOk(w);
  }

  /**
   Once a denied fetcher is superseded, the only way back to the issuer on its behalf is
   an empty slot: in every continuation without a further drop no denial of it asks.
   */
  lemma SupersededUntilADrop(w: World, acts: seq<Action>, failed: Fetcher)
    requires Reachable(w) && failed < w.slot.installed && !MustReissue(w.slot, failed)
    ensures |w.slot.dropped| <= |Run(w, acts).slot.dropped|
    ensures |Run(w, acts).slot.dropped| == |w.slot.dropped| ==> !MustReissue(Run(w, acts).slot, failed)
  {
    ReachableOk(w);
    SupersededStays(w, acts, failed);
  }

  lemma {:induction false} SupersededStays(w: World, acts: seq<Action>, failed: Fetcher)
    requires Inv(w) && failed < w.slot.installed && !MustReissue(w.slot, failed)
    ensures |w.slot.dropped| <= |Run(w, acts).slot.dropped|
    ensures |Run(w, acts).slot.dropped| == |w.slot.dropped| ==> !MustReissue(Run(w, acts).slot, failed)
    decreases |acts|
  {
    if |acts| > 0 {
      var w1 := Step(w, acts[0]);
      StepKeeps(w, acts[0]);
      DropsGrow(w1, acts[1..]);
      if |w1.slot.dropped| == |w.slot.dropped| {
        SupersededStays(w1, acts[1..], failed);
      }
    }
  }

  lemma {:induction false} DropsGrow(w: World, acts: seq<Action>)
    ensures |w.slot.dropped| <= |Run(w, acts).slot.dropped|
    decreases |acts|
  {
    if |acts| > 0 { DropsGrow(Step(w, acts[0]), acts[1..]); }
  }

  // ---- the two ways it fails ----

  // Two callers hold the first fetcher.
  const Shared := [Enter(0), ReadLock(0), WriteLock(0, true), Enter(1), ReadLock(1)]

  const SharedWorld := World(Slot(Some(0), 1, [], [], []), map[0 := Caller(Have(0), 0, 1), 1 := Caller(Have(0), 0, 0)])

  lemma SharedRun()
    ensures Run(Idle, Shared) == SharedWorld
  {
    var w1 := Step(Step(Step(Idle, Enter(0)), ReadLock(0)), WriteLock(0, true));
    assert w1 == World(Slot(Some(0), 1, [], [], []), map[0 := Caller(Have(0), 0, 1)]);
    assert Step(Step(w1, Enter(1)), ReadLock(1)) == SharedWorld;
  }

  const BothDenied := World(SharedWorld.slot, map[0 := Caller(Denied(0), 1, 1), 1 := Caller(Denied(0), 1, 0)])

  lemma BothDeniedRun()
    ensures Run(SharedWorld, [Backend(0, true), Backend(1, true)]) == BothDenied
  {
    assert Step(Step(SharedWorld, Backend(0, true)), Backend(1, true)) == BothDenied;
  }

  // Across an idle drop both denials of one fetcher reach the issuer.
  lemma IdleDropBreaksSingleFlight()
    ensures Run(Idle, Shared) == SharedWorld && Run(SharedWorld, [Backend(0, true), Backend(1, true)]) == BothDenied
    ensures Run(BothDenied, [Reissue(0, true), Tick, Reissue(1, true)]).slot.asks ==
              [Ask(0, true, false), Ask(0, true, true)]
  {
    SharedRun();
    BothDeniedRun();
    var w := Step(Step(BothDenied, Reissue(0, true)), Tick);
    assert w.slot == Slot(None, 2, [1], [0], [Ask(0, true, false)]);
    assert Run(BothDenied, [Reissue(0, true), Tick, Reissue(1, true)]) == Step(w, Reissue(1, true));
  }

  // Without any drop they also do when the first reissue fails, since the denied fetcher stays cached.
  lemma FailedReissueBreaksSingleFlight()
    ensures Run(Idle, Shared) == SharedWorld && Run(SharedWorld, [Backend(0, true), Backend(1, true)]) == BothDenied
    ensures Run(BothDenied, [Reissue(0, false), Reissue(1, true)]).slot.asks ==
              [Ask(0, false, false), Ask(0, true, false)]
    ensures Run(BothDenied, [Reissue(0, false), Reissue(1, true)]).slot.dropped == []
  {
    SharedRun();
    BothDeniedRun();
    var w := Step(BothDenied, Reissue(0, false));
    assert w.slot == Slot(Some(0), 1, [], [], [Ask(0, false, false)]);
    assert Run(BothDenied, [Reissue(0, false), Reissue(1, true)]) == Step(w, Reissue(1, true));
  }
}
