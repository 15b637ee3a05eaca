/**
 Stages 3 to 5 of one claim job: the chain pull, the walk back through empty
 intermediate forks, and the guard that tears down what a failing job pulled.

 Signatures are abstracted to the keys they verify under; `Net` is what a peer or
 the object store serves when a skeleton is pulled.
 */
module SkipWalk {
  import opened Volumes
  import opened Wrappers

  // A fork directory's signed lineage. A parent whose ULIDs do not parse is kept as None.
  datatype Lineage = Unverifiable | Root | Child(vol: Option<Ulid>, snap: Option<Ulid>)

  datatype Skeleton = Skeleton(key: Option<VerifyingKey>, lineage: Lineage)

  // `Failed(true)`: the pull stopped after creating the directory.
  datatype Pull = Fetched(skel: Skeleton) | Failed(leavesDir: bool)

  datatype Manifest = Manifest(signer: VerifyingKey, segs: seq<Ulid>)

  datatype Net = Net(pulls: map<Ulid, Pull>, manifests: map<(Ulid, Ulid), Manifest>)

  datatype Error = NotFound | Store | Internal | Conflict

  datatype Event = PullingAncestor(vol: Ulid)

  type Dirs = map<Ulid, Skeleton>

  // ---- the walk on values ----

  // Fetch and verify a manifest; one that is not strictly ascending is rejected as tampered.
  function FetchManifest(net: Net, vol: Ulid, snap: Ulid, key: VerifyingKey): Result<seq<Ulid>, Error> {
    if (vol, snap) !in net.manifests then Err(Store)
    else if net.manifests[(vol, snap)].signer != key then Err(Internal)
    else if !Ascending(net.manifests[(vol, snap)].segs) then Err(Internal)
    else Ok(net.manifests[(vol, snap)].segs)
  }

  // A pull that returns a reply: the provenance verifies and its parent parses.
  predicate Pullable(p: Pull) {
    p.Fetched? && p.skel.lineage != Unverifiable && (p.skel.lineage.Child? ==> p.skel.lineage.vol.Some?)
  }

  // A pull leaves its directory unless it stopped before creating it or the provenance did not verify.
  predicate LeavesDir(p: Pull) { p == Failed(true) || (p.Fetched? && p.skel.lineage != Unverifiable) }

  // Every skeleton the walk can end up reading: local directories first, then what a pull writes.
  function View(dirs: Dirs, net: Net): Dirs {
    (map u | u in net.pulls && Pullable(net.pulls[u]) :: net.pulls[u].skel) + dirs
  }

  // Parent links are well-founded: the walk itself has no cycle check.
  ghost predicate Ranked(view: Dirs, rank: map<Ulid, nat>) {
    forall v ::
      v in view && view[v].lineage.Child? && view[v].lineage.vol.Some? && view[v].lineage.vol.value in view ==>
        v in rank && view[v].lineage.vol.value in rank && rank[view[v].lineage.vol.value] < rank[v]
  }

  function RankOf(rank: map<Ulid, nat>, v: Ulid): nat { if v in rank then rank[v] else 0 }

  // What one iteration finds at (v, s): stop here, fail, or move on to the parent pin.
  datatype Visit = Halt(error: Error) | Settle | Hop(vol: Ulid, snap: Ulid)

  function VisitAt(view: Dirs, net: Net, v: Ulid, s: Ulid): Visit {
    if v !in view || view[v].lineage == Unverifiable || view[v].key.None? then Halt(Internal)
    else match FetchManifest(net, v, s, view[v].key.value)
      case Err(e) => Halt(e)
      case Ok(segs) =>
        match view[v].lineage
        case Root => Settle
        case Child(None, _) => Halt(Internal)
        case Child(_, None) => Halt(Internal)
        case Child(Some(p), Some(ps)) => if IsEmpty(segs, ps) then Hop(p, ps) else Settle
        case Unverifiable => Halt(Internal)
  }

  /**
   The walk is a run of visits: `path` starts at the released handoff, every pin but
   the last is an empty fork followed by its parent pin, and the walk settles on the last.
   */
  ghost predicate Skips(view: Dirs, net: Net, path: seq<(Ulid, Ulid)>)
    decreases |path|
  {
    && |path| > 0
    && if |path| == 1 then VisitAt(view, net, path[0].0, path[0].1) == Settle
       else VisitAt(view, net, path[0].0, path[0].1) == Hop(path[1].0, path[1].1) && Skips(view, net, path[1..])
  }

  ghost function Walk(view: Dirs, net: Net, rank: map<Ulid, nat>, v: Ulid, s: Ulid): Option<(Ulid, Ulid)>
    requires Ranked(view, rank)
    decreases RankOf(rank, v)
  {
    match VisitAt(view, net, v, s)
    case Halt(_) => None
    case Settle => Some((v, s))
    case Hop(p, ps) => if p in view then Walk(view, net, rank, p, ps) else None
  }

  // ---- what the walk means ----

  function Segs(net: Net, v: Ulid, s: Ulid): set<Ulid> {
    if (v, s) in net.manifests then set x | x in net.manifests[(v, s)].segs else {}
  }

  // Everything a volume pinned at (v, s) can read: its manifest, and what its parent pin exposes.
  ghost function Contents(view: Dirs, net: Net, rank: map<Ulid, nat>, v: Ulid, s: Ulid): set<Ulid>
    requires Ranked(view, rank)
    decreases RankOf(rank, v)
  {
    if v in view && view[v].lineage.Child? && view[v].lineage.vol.Some? && view[v].lineage.snap.Some?
       && view[v].lineage.vol.value in view
    then Segs(net, v, s) + Contents(view, net, rank, view[v].lineage.vol.value, view[v].lineage.snap.value)
    else Segs(net, v, s)
  }

  // Every segment a fork lists is inherited through its parent pin or was minted above that snapshot.
  ghost predicate MintedAbove(view: Dirs, net: Net, rank: map<Ulid, nat>)
    requires Ranked(view, rank)
  {
    forall v: Ulid, s: Ulid, p: Ulid, ps: Ulid, x: Ulid ::
      v in view && view[v].lineage == Child(Some(p), Some(ps)) && p in view && x in Segs(net, v, s) ==>
        x in Contents(view, net, rank, p, ps) || x > ps
  }

  // Nothing a parent pin exposes is newer than its snapshot, which is tagged with the last segment.
  ghost predicate CutsAt(view: Dirs, net: Net, rank: map<Ulid, nat>)
    requires Ranked(view, rank)
  {
    forall v: Ulid, p: Ulid, ps: Ulid, x: Ulid ::
      v in view && view[v].lineage == Child(Some(p), Some(ps)) && p in view && x in Contents(view, net, rank, p, ps) ==>
        x <= ps
  }

  // A fork with a parent pin.
  ghost predicate Forked(view: Dirs, v: Ulid) {
    v in view && view[v].lineage.Child? && view[v].lineage.vol.Some? && view[v].lineage.snap.Some?
  }

  // A snapshot of a fork is no older than the fork's own pin.
  ghost predicate TagsAbovePin(view: Dirs, v: Ulid, s: Ulid) { Forked(view, v) ==> view[v].lineage.snap.value <= s }

  // What each volume sees to by itself: a tag is no older than the segments under it and than the pin.
  ghost predicate Tagged(view: Dirs, net: Net) {
    && (forall v: Ulid, s: Ulid, x: Ulid :: x in Segs(net, v, s) ==> x <= s)
    && (forall v :: Forked(view, v) ==> TagsAbovePin(view, view[v].lineage.vol.value, view[v].lineage.snap.value))
  }

  lemma {:induction false} ContentsUpTo(view: Dirs, net: Net, rank: map<Ulid, nat>, v: Ulid, s: Ulid, x: Ulid)
    requires Ranked(view, rank) && Tagged(view, net) && TagsAbovePin(view, v, s)
    requires x in Contents(view, net, rank, v, s)
    ensures x <= s
    decreases RankOf(rank, v)
  {
    if x !in Segs(net, v, s) {
      ContentsUpTo(view, net, rank, view[v].lineage.vol.value, view[v].lineage.snap.value, x);
    }
  }

  // So the cut holds of every chain whose volumes tag that way.
  lemma TagsCut(view: Dirs, net: Net, rank: map<Ulid, nat>)
    requires Ranked(view, rank) && Tagged(view, net)
    ensures CutsAt(view, net, rank)
  {
    forall v: Ulid, p: Ulid, ps: Ulid, x: Ulid
      | v in view && view[v].lineage == Child(Some(p), Some(ps)) && p in view && x in Contents(view, net, rank, p, ps)
      ensures x <= ps
    {
      assert Forked(view, v);
      ContentsUpTo(view, net, rank, p, ps, x);
    }
  }

  lemma HopKeepsContents(view: Dirs, net: Net, rank: map<Ulid, nat>, v: Ulid, s: Ulid, p: Ulid, ps: Ulid)
    requires Ranked(view, rank) && MintedAbove(view, net, rank)
    requires VisitAt(view, net, v, s) == Hop(p, ps) && p in view
    ensures Contents(view, net, rank, v, s) == Contents(view, net, rank, p, ps)
  {
    var segs := net.manifests[(v, s)].segs;
    assert view[v].lineage == Child(Some(p), Some(ps));
    forall x | x in Segs(net, v, s) ensures x in Contents(view, net, rank, p, ps) {
      assert x <= segs[|segs| - 1];
    }
  }

  // The walk's answer exposes exactly what the released handoff exposes.
  lemma {:induction false} WalkKeepsContents(view: Dirs, net: Net, rank: map<Ulid, nat>, v: Ulid, s: Ulid)
    requires Ranked(view, rank) && MintedAbove(view, net, rank)
    requires Walk(view, net, rank, v, s).Some?
    ensures var (v', s') := Walk(view, net, rank, v, s).value;
            Contents(view, net, rank, v', s') == Contents(view, net, rank, v, s)
    decreases RankOf(rank, v)
  {
    match VisitAt(view, net, v, s)
    case Hop(p, ps) =>
      HopKeepsContents(view, net, rank, v, s, p, ps);
      WalkKeepsContents(view, net, rank, p, ps);
    case Settle =>
  }

  // The walk answers `r` exactly when `r` ends the run of empty forks that starts at (v, s):
  // every fork before it is empty, and it is itself a root or not empty.
  lemma WalkIsTheSkipPath(view: Dirs, net: Net, rank: map<Ulid, nat>, v: Ulid, s: Ulid, r: (Ulid, Ulid))
    requires Ranked(view, rank)
    ensures Walk(view, net, rank, v, s) == Some(r) <==>
            exists path: seq<(Ulid, Ulid)> :: Skips(view, net, path) && path[0] == (v, s) && path[|path| - 1] == r
  {
    if Walk(view, net, rank, v, s) == Some(r) {
      var path := WalkPath(view, net, rank, v, s);
    }
    if path: seq<(Ulid, Ulid)> :| Skips(view, net, path) && path[0] == (v, s) && path[|path| - 1] == r {
      PathWalk(view, net, rank, path);
    }
  }

  lemma {:induction false} WalkPath(view: Dirs, net: Net, rank: map<Ulid, nat>, v: Ulid, s: Ulid)
      returns (path: seq<(Ulid, Ulid)>)
    requires Ranked(view, rank) && Walk(view, net, rank, v, s).Some?
    ensures Skips(view, net, path) && path[0] == (v, s)
    ensures path[|path| - 1] == Walk(view, net, rank, v, s).value
    decreases RankOf(rank, v)
  {
    path := [(v, s)];
    if VisitAt(view, net, v, s).Hop? {
      var tail := WalkPath(view, net, rank, VisitAt(view, net, v, s).vol, VisitAt(view, net, v, s).snap);
      path := path + tail;
      assert path[1..] == tail;
    }
  }

  lemma {:induction false} PathWalk(view: Dirs, net: Net, rank: map<Ulid, nat>, path: seq<(Ulid, Ulid)>)
    requires Ranked(view, rank) && Skips(view, net, path)
    ensures Walk(view, net, rank, path[0].0, path[0].1) == Some(path[|path| - 1])
    decreases |path|
  {
    if |path| > 1 {
      PathWalk(view, net, rank, path[1..]);
    }
  }

  // Whether a fork lists a segment its parent pin does not expose.
  ghost predicate HasItsOwn(view: Dirs, net: Net, rank: map<Ulid, nat>, v: Ulid, s: Ulid)
    requires Ranked(view, rank)
  {
    && Forked(view, v)
    && exists x :: x in Segs(net, v, s) && x >= view[v].lineage.snap.value
                   && (view[v].lineage.vol.value in view ==>
                         x !in Contents(view, net, rank, view[v].lineage.vol.value, view[v].lineage.snap.value))
  }

  // The last segment a fork lists is the one its parent snapshot is tagged with.
  ghost predicate EndsAtItsPin(view: Dirs, net: Net, v: Ulid, s: Ulid) {
    && Forked(view, v) && view[v].lineage.vol.value in view
    && (v, s) in net.manifests
    && var segs := net.manifests[(v, s)].segs;
       |segs| > 0 && segs[|segs| - 1] == view[v].lineage.snap.value
  }

  /**
   The walk is to stop only at a root or at a fork with segments of its own. It tests the last
   segment against the parent snapshot, and stops at equality too. So a fork it settles on has a
   segment of its own exactly if its list does not end at its pin.
   */
  lemma SettledHasItsOwnSegments(view: Dirs, net: Net, rank: map<Ulid, nat>, v: Ulid, s: Ulid)
    requires Ranked(view, rank) && MintedAbove(view, net, rank) && CutsAt(view, net, rank)
    requires VisitAt(view, net, v, s) == Settle
    ensures v in view && (view[v].lineage.Root? || Forked(view, v))
    ensures Forked(view, v) ==> (HasItsOwn(view, net, rank, v, s) <==> !EndsAtItsPin(view, net, v, s))
  {
    if Forked(view, v) {
      var segs := net.manifests[(v, s)].segs;
      var p, ps, last := view[v].lineage.vol.value, view[v].lineage.snap.value, segs[|segs| - 1];
      assert last in Segs(net, v, s) && last >= ps;
      if EndsAtItsPin(view, net, v, s) {
        assert view[v].lineage == Child(Some(p), Some(ps));
        forall x | x in Segs(net, v, s) ensures x in Contents(view, net, rank, p, ps) { assert x <= last; }
      } else if p in view {
        assert view[v].lineage == Child(Some(p), Some(ps));
        assert last !in Contents(view, net, rank, p, ps);
      }
    }
  }

  // Among forks that list nothing of their own, the walk skips exactly those whose list does not end at the pin.
  lemma NoOpForkIsSkippedIff(view: Dirs, net: Net, rank: map<Ulid, nat>, v: Ulid, s: Ulid)
    requires Ranked(view, rank) && MintedAbove(view, net, rank) && CutsAt(view, net, rank)
    requires !VisitAt(view, net, v, s).Halt? && Forked(view, v) && !HasItsOwn(view, net, rank, v, s)
    ensures VisitAt(view, net, v, s).Hop? <==> !EndsAtItsPin(view, net, v, s)
  {
    if VisitAt(view, net, v, s) == Settle { SettledHasItsOwnSegments(view, net, rank, v, s); }
  }

  // Root 1 lists 3 and 5 and is tagged 5; fork 2 inherits both verbatim.
  function VerbatimView(a: VerifyingKey, b: VerifyingKey): Dirs {
    map[1 := Skeleton(Some(a), Root), 2 := Skeleton(Some(b), Child(Some(1), Some(5)))]
  }

  function VerbatimNet(a: VerifyingKey, b: VerifyingKey): Net {
    Net(map[], map[(1, 5) := Manifest(a, [3, 5]), (2, 9) := Manifest(b, [3, 5])])
  }

  lemma VerbatimTags(a: VerifyingKey, b: VerifyingKey)
    ensures var view, net, rank := VerbatimView(a, b), VerbatimNet(a, b), map[1 := 0, 2 := 1];
            && Ranked(view, rank) && Tagged(view, net) && Segs(net, 1, 5) == Segs(net, 2, 9) == {3, 5}
            && forall v: Ulid, s: Ulid :: Segs(net, v, s) <= {3, 5}
  {
    var net := VerbatimNet(a, b);
    forall v: Ulid, s: Ulid ensures Segs(net, v, s) == if (v, s) in net.manifests then {3, 5} else {} {}
  }

  // A no-op fork the walk stops at, though it exposes only what its parent does.
  lemma VerbatimForkIsKept(a: VerifyingKey, b: VerifyingKey)
    ensures var view, net, rank := VerbatimView(a, b), VerbatimNet(a, b), map[1 := 0, 2 := 1];
            && Ranked(view, rank) && MintedAbove(view, net, rank) && CutsAt(view, net, rank)
            && Walk(view, net, rank, 2, 9) == Some((2, 9)) && EndsAtItsPin(view, net, 2, 9)
            && !HasItsOwn(view, net, rank, 2, 9)
            && Contents(view, net, rank, 2, 9) == Contents(view, net, rank, 1, 5) == {3, 5}
  {
    var view, net, rank := VerbatimView(a, b), VerbatimNet(a, b), map[1 := 0, 2 := 1];
    VerbatimTags(a, b);
    TagsCut(view, net, rank);
    assert Contents(view, net, rank, 1, 5) == {3, 5};
    assert MintedAbove(view, net, rank);
    assert VisitAt(view, net, 2, 9) == Settle;
    SettledHasItsOwnSegments(view, net, rank, 2, 9);
  }

  // `r` stands for the handoff: it exposes the same, it ends the run of empty forks that starts there, and
  // it is a root or a fork that has a segment of its own unless its list ends at its pin.
  ghost predicate StandsFor(view: Dirs, net: Net, rank: map<Ulid, nat>, v: Ulid, s: Ulid, r: (Ulid, Ulid))
    requires Ranked(view, rank)
  {
    && Contents(view, net, rank, r.0, r.1) == Contents(view, net, rank, v, s)
    && (exists path: seq<(Ulid, Ulid)> :: Skips(view, net, path) && path[0] == (v, s) && path[|path| - 1] == r)
    && r.0 in view && (view[r.0].lineage.Root? || Forked(view, r.0))
    && (Forked(view, r.0) ==> (HasItsOwn(view, net, rank, r.0, r.1) <==> !EndsAtItsPin(view, net, r.0, r.1)))
  }

  // The walk's answer stands for the released handoff.
  lemma WalkStandsFor(view: Dirs, net: Net, rank: map<Ulid, nat>, v: Ulid, s: Ulid)
    requires Ranked(view, rank) && MintedAbove(view, net, rank) && CutsAt(view, net, rank)
    requires Walk(view, net, rank, v, s).Some?
    ensures StandsFor(view, net, rank, v, s, Walk(view, net, rank, v, s).value)
  {
    var r := Walk(view, net, rank, v, s).value;
    WalkKeepsContents(view, net, rank, v, s);
    WalkIsTheSkipPath(view, net, rank, v, s, r);
    WalkSettles(view, net, rank, v, s);
    SettledHasItsOwnSegments(view, net, rank, r.0, r.1);
  }

  lemma {:induction false} WalkSettles(view: Dirs, net: Net, rank: map<Ulid, nat>, v: Ulid, s: Ulid)
    requires Ranked(view, rank) && Walk(view, net, rank, v, s).Some?
    ensures var (v', s') := Walk(view, net, rank, v, s).value; VisitAt(view, net, v', s') == Settle
    decreases RankOf(rank, v)
  {
    var visit := VisitAt(view, net, v, s);
    if visit.Hop? { WalkSettles(view, net, rank, visit.vol, visit.snap); }
  }

  // ---- the stages on a host ----

  class Host {
    var dirs: Dirs

    constructor (d: Dirs)
      ensures dirs == d
    {
      dirs := d;
    }

    // `pull_readonly_op`: refuse a present directory, fetch, verify, and report the parent.
    method PullReadonly(net: Net, u: Ulid) returns (r: Result<Option<Ulid>, Error>)
      modifies this
      ensures r.Ok? <==> u !in old(dirs) && u in net.pulls && Pullable(net.pulls[u])
      ensures r.Ok? ==> dirs == old(dirs)[u := net.pulls[u].skel] && r.value == ParentOf(net.pulls[u].skel)
      ensures u in dirs <==> u in old(dirs) || (u in net.pulls && LeavesDir(net.pulls[u]))
      ensures u !in dirs || u in old(dirs) ==> dirs == old(dirs)
      ensures dirs.Keys <= old(dirs).Keys + {u} && forall w :: w in old(dirs) ==> w in dirs && dirs[w] == old(dirs)[w]
    {
      if u in dirs {
        return Err(Conflict);
      }
      if u !in net.pulls {
        return Err(Store);
      }
      match net.pulls[u]
      case Failed(leavesDir) =>
        if leavesDir { dirs := dirs[u := Skeleton(None, Unverifiable)]; }
        return Err(Store);
      case Fetched(skel) =>
        dirs := dirs[u := skel];
        match skel.lineage
        case Unverifiable =>
          dirs := dirs - {u};
          return Err(Internal);
        case Root =>
          return Ok(None);
        case Child(vol, _) =>
          if vol.None? { return Err(Internal); }
          return Ok(vol);
    }
  }

  function ParentOf(skel: Skeleton): Option<Ulid> {
    if skel.lineage.Child? then skel.lineage.vol else None
  }

  class ClaimJob {
    var events: seq<Event>

    constructor ()
      ensures events == []
    {
      events := [];
    }

    method Append(e: Event)
      modifies this
      ensures events == old(events) + [e]
    {
      events := events + [e];
    }
  }

  class PulledAncestorsGuard {
    var pulled: seq<Ulid>
    var committed: bool

    constructor ()
      ensures pulled == [] && !committed
    {
      pulled, committed := [], false;
    }

    method Record(u: Ulid)
      modifies this
      ensures pulled == old(pulled) + [u] && committed == old(committed)
    {
      pulled := pulled + [u];
    }

    method Commit()
      modifies this
      ensures committed && pulled == old(pulled)
    {
      committed := true;
    }

    // Removal of the directories in `stuck` fails; that is logged and skipped.
    method Drop(host: Host, stuck: set<Ulid>)
      modifies host
      ensures host.dirs == if committed then old(host.dirs) else old(host.dirs) - ((set u | u in pulled) - stuck)
    {
      if committed || |pulled| == 0 {
        return;
      }
      var i := 0;
      while i < |pulled|
        invariant 0 <= i <= |pulled|
        invariant host.dirs == old(host.dirs) - ((set u | u in pulled[..i]) - stuck)
      {
        if pulled[i] !in stuck {
          host.dirs := host.dirs - {pulled[i]};
        }
        assert pulled[..i + 1] == pulled[..i] + [pulled[i]];
        i := i + 1;
      }
      assert pulled[..i] == pulled;
    }
  }

  // Since `start`, only directories recorded with the guard appeared, and none of those existed before.
  ghost predicate Tracks(start: Dirs, now: Dirs, pulled: seq<Ulid>) {
    && (forall u :: u in start ==> u in now && now[u] == start[u])
    && (forall u :: u in now ==> u in start || u in pulled)
    && (forall u :: u in pulled ==> u !in start)
  }

  function Pulling(us: seq<Ulid>): (es: seq<Event>)
    ensures |es| == |us| && forall i :: 0 <= i < |us| ==> es[i] == PullingAncestor(us[i])
  {
    seq(|us|, i requires 0 <= i < |us| => PullingAncestor(us[i]))
  }

  // Every one of `us` is local, and so is its parent unless that is still to be pulled.
  ghost predicate Closed(dirs: Dirs, us: seq<Ulid>, next: Option<Ulid>) {
    forall u :: u in us ==>
      && u in dirs
      && (ParentOf(dirs[u]).Some? ==> ParentOf(dirs[u]).value in dirs || ParentOf(dirs[u]) == next)
  }

  // A pull moves a skeleton from the network to the disk without changing what a walk reads.
  lemma PullKeepsView(dirs: Dirs, net: Net, u: Ulid)
    requires u !in dirs && u in net.pulls && Pullable(net.pulls[u])
    ensures View(dirs[u := net.pulls[u].skel], net) == View(dirs, net)
    ensures net.pulls.Keys - dirs[u := net.pulls[u].skel].Keys < net.pulls.Keys - dirs.Keys
  {
    assert u in net.pulls.Keys - dirs.Keys;
  }

  lemma PullKeepsTracks(start: Dirs, now: Dirs, pulled: seq<Ulid>, u: Ulid, now': Dirs)
    requires Tracks(start, now, pulled) && u !in now
    requires now'.Keys <= now.Keys + {u} && forall w :: w in now ==> w in now' && now'[w] == now[w]
    ensures Tracks(start, now', pulled + [u])
  {
  }

  // Pull `u`, announcing it and recording it with the guard first.
  method PullOne(job: ClaimJob, host: Host, guard: PulledAncestorsGuard, net: Net, u: Ulid)
      returns (r: Result<Option<Ulid>, Error>)
    requires u !in host.dirs
    modifies job, host, guard
    ensures r.Ok? <==> u in View(old(host.dirs), net)
    ensures r.Ok? ==> u in host.dirs && r.value == ParentOf(host.dirs[u])
    ensures r.Ok? ==> View(host.dirs, net) == View(old(host.dirs), net)
    ensures r.Ok? ==> net.pulls.Keys - host.dirs.Keys < net.pulls.Keys - old(host.dirs).Keys
    ensures forall w :: w in old(host.dirs) ==> w in host.dirs && host.dirs[w] == old(host.dirs)[w]
    ensures host.dirs.Keys <= old(host.dirs).Keys + {u}
    ensures guard.committed == old(guard.committed) && guard.pulled == old(guard.pulled) + [u]
    ensures job.events == old(job.events) + [PullingAncestor(u)]
  {
    job.Append(PullingAncestor(u));
    guard.Record(u);
    r := host.PullReadonly(net, u);
    if r.Ok? {
      PullKeepsView(old(host.dirs), net, u);
    }
  }

  // Stage 3: pull the released chain until a directory is already there or a root is reached.
  method PullChain(job: ClaimJob, host: Host, guard: PulledAncestorsGuard, net: Net, released: Ulid)
      returns (r: Result<(), Error>)
    requires guard.pulled == [] && !guard.committed
    modifies job, host, guard
    ensures Tracks(old(host.dirs), host.dirs, guard.pulled) && !guard.committed
    ensures job.events == old(job.events) + Pulling(guard.pulled)
    ensures r.Ok? ==>
              released in host.dirs && Closed(host.dirs, guard.pulled, None) && AllLocal(host.dirs, guard.pulled)
    ensures r.Ok? ==> View(host.dirs, net) == View(old(host.dirs), net)
  {
    var next := Some(released);
    while next.Some?
      invariant Tracks(old(host.dirs), host.dirs, guard.pulled) && !guard.committed
      invariant job.events == old(job.events) + Pulling(guard.pulled)
      invariant View(host.dirs, net) == View(old(host.dirs), net)
      invariant Closed(host.dirs, guard.pulled, next)
      invariant released in host.dirs || next == Some(released)
      decreases net.pulls.Keys - host.dirs.Keys
    {
      var u := next.value;
      if u in host.dirs {
        next := None;
        break;
      }
      ghost var dirs, pulled := host.dirs, guard.pulled;
      var reply := PullOne(job, host, guard, net, u);
      PullKeepsTracks(old(host.dirs), dirs, pulled, u, host.dirs);
      if reply.Err? {
        return Err(reply.error);
      }
      next := reply.value;
    }
    if released !in host.dirs {
      return Err(NotFound);
    }
    return Ok(());
  }

  // What the walk did to the host since it started: `fresh` was pulled, in order, one event each.
  ghost predicate Pulled(start: Dirs, now: Dirs, before: seq<Ulid>, pulled: seq<Ulid>, log: seq<Event>,
                         events: seq<Event>)
  {
    && before <= pulled
    && Tracks(start, now, pulled[|before|..])
    && events == log + Pulling(pulled[|before|..])
  }

  ghost predicate AllLocal(dirs: Dirs, us: seq<Ulid>) { forall u :: u in us ==> u in dirs }

  lemma PulledStep(start: Dirs, now: Dirs, before: seq<Ulid>, pulled: seq<Ulid>, log: seq<Event>, events: seq<Event>,
                   u: Ulid, now': Dirs)
    requires Pulled(start, now, before, pulled, log, events) && u !in now
    requires now'.Keys <= now.Keys + {u} && forall w :: w in now ==> w in now' && now'[w] == now[w]
    ensures Pulled(start, now', before, pulled + [u], log, events + [PullingAncestor(u)])
    ensures AllLocal(now, pulled[|before|..]) && u in now' ==> AllLocal(now', (pulled + [u])[|before|..])
  {
    PullKeepsTracks(start, now, pulled[|before|..], u, now');
    assert (pulled + [u])[|before|..] == pulled[|before|..] + [u];
  }

  /**
   Stage 4: walk back through empty forks, pulling parents the chain pull did not
   reach. The answer is `Walk`'s, provided the released fork itself is local.
   */
  method SkipEmptyIntermediates(job: ClaimJob, host: Host, guard: PulledAncestorsGuard, net: Net,
                                ghost rank: map<Ulid, nat>, released: Ulid, handoff: Ulid)
      returns (r: Result<(Ulid, Ulid), Error>)
    requires Ranked(View(host.dirs, net), rank)
    modifies job, host, guard
    ensures released !in old(host.dirs) ==> r.Err?
    ensures released in old(host.dirs) ==>
              Walk(View(old(host.dirs), net), net, rank, released, handoff) == if r.Ok? then Some(r.value) else None
    ensures r.Ok? ==> View(host.dirs, net) == View(old(host.dirs), net) && r.value.0 in host.dirs
    ensures guard.committed == old(guard.committed)
    ensures Pulled(old(host.dirs), host.dirs, old(guard.pulled), guard.pulled, old(job.events), job.events)
    ensures r.Ok? ==> AllLocal(host.dirs, guard.pulled[|old(guard.pulled)|..])
  {
    var vol, snap := released, handoff;
    ghost var view := View(host.dirs, net);
    if vol !in host.dirs {
      return Err(Internal);
    }
    while true
      invariant View(host.dirs, net) == view && vol in host.dirs
      invariant Walk(view, net, rank, vol, snap) == Walk(view, net, rank, released, handoff)
      invariant guard.committed == old(guard.committed)
      invariant Pulled(old(host.dirs), host.dirs, old(guard.pulled), guard.pulled, old(job.events), job.events)
      invariant AllLocal(host.dirs, guard.pulled[|old(guard.pulled)|..])
      decreases RankOf(rank, vol)
    {
      assert view[vol] == host.dirs[vol];
      var skel := host.dirs[vol];
      if skel.lineage == Unverifiable || skel.key.None? {
        return Err(Internal);
      }
      var manifest := FetchManifest(net, vol, snap, skel.key.value);
      if manifest.Err? {
        return Err(manifest.error);
      }
      if skel.lineage.Root? {
        return Ok((vol, snap));
      }
      if skel.lineage.vol.None? || skel.lineage.snap.None? {
        return Err(Internal);
      }
      if !IsEmpty(manifest.value, skel.lineage.snap.value) {
        return Ok((vol, snap));
      }
      var parent := skel.lineage.vol.value;
      ghost var dirs, pulled, events := host.dirs, guard.pulled, job.events;
      if parent !in host.dirs {
        var reply := PullOne(job, host, guard, net, parent);
        PulledStep(old(host.dirs), dirs, old(guard.pulled), pulled, old(job.events), events, parent, host.dirs);
        if reply.Err? {
          return Err(reply.error);
        }
      }
      vol, snap := parent, skel.lineage.snap.value;
    }
  }

  // The guard goes out of scope uncommitted.
  method TearDown(host: Host, guard: PulledAncestorsGuard, ghost start: Dirs, stuck: set<Ulid>)
    requires Tracks(start, host.dirs, guard.pulled) && !guard.committed
    modifies host
    ensures forall u :: u in start ==> u in host.dirs && host.dirs[u] == start[u]
    ensures host.dirs.Keys <= start.Keys + stuck && (stuck == {} ==> host.dirs == start)
  {
    Restores(start, host.dirs, guard.pulled, stuck);
    guard.Drop(host, stuck);
  }

  // Stages 3 and 4 under one guard.
  method PullThenSkip(job: ClaimJob, host: Host, guard: PulledAncestorsGuard, net: Net, ghost rank: map<Ulid, nat>,
                      released: Ulid, handoff: Ulid)
      returns (r: Result<(Ulid, Ulid), Error>)
    requires Ranked(View(host.dirs, net), rank) && guard.pulled == [] && !guard.committed
    modifies job, host, guard
    ensures Tracks(old(host.dirs), host.dirs, guard.pulled) && !guard.committed
    ensures job.events == old(job.events) + Pulling(guard.pulled)
    ensures r.Ok? ==> host.dirs.Keys == old(host.dirs).Keys + set u | u in guard.pulled
    ensures r.Ok? ==> Walk(View(old(host.dirs), net), net, rank, released, handoff) == Some(r.value)
  {
    var chain := PullChain(job, host, guard, net, released);
    if chain.Err? {
      return Err(chain.error);
    }
    ghost var mid, events, first := host.dirs, job.events, guard.pulled;
    r := SkipEmptyIntermediates(job, host, guard, net, rank, released, handoff);
    TracksTwice(old(host.dirs), mid, host.dirs, first, guard.pulled, old(job.events), events, job.events);
  }

  /**
   One job from the chain pull to the commit point. A job that fails leaves exactly
   the directories that existed at its start, plus any whose removal failed; a job
   that commits keeps those and everything it pulled, and its answer stands for the
   released handoff.
   */
  method PullAndSkip(job: ClaimJob, host: Host, net: Net, ghost rank: map<Ulid, nat>,
                     released: Ulid, handoff: Ulid, stuck: set<Ulid>)
      returns (r: Result<(Ulid, Ulid), Error>, ghost pulled: seq<Ulid>)
    requires Ranked(View(host.dirs, net), rank)
    modifies job, host
    ensures forall u :: u in old(host.dirs) ==> u in host.dirs && host.dirs[u] == old(host.dirs)[u]
    ensures job.events == old(job.events) + Pulling(pulled)
    ensures r.Err? ==> host.dirs.Keys <= old(host.dirs).Keys + stuck
    ensures r.Err? && stuck == {} ==> host.dirs == old(host.dirs)
    ensures r.Ok? ==> host.dirs.Keys == old(host.dirs).Keys + set u | u in pulled
    ensures r.Ok? ==> Walk(View(old(host.dirs), net), net, rank, released, handoff) == Some(r.value)
    ensures var view := View(old(host.dirs), net);
            r.Ok? && MintedAbove(view, net, rank) && CutsAt(view, net, rank) ==>
              StandsFor(view, net, rank, released, handoff, r.value)
  {
    var guard := new PulledAncestorsGuard();
    r := PullThenSkip(job, host, guard, net, rank, released, handoff);
    pulled := guard.pulled;
    if r.Err? {
      TearDown(host, guard, old(host.dirs), stuck);
    } else {
      guard.Commit();
      guard.Drop(host, stuck);
      AnswerStandsFor(View(old(host.dirs), net), net, rank, released, handoff, r.value);
    }
  }

  lemma AnswerStandsFor(view: Dirs, net: Net, rank: map<Ulid, nat>, v: Ulid, s: Ulid, r: (Ulid, Ulid))
    requires Ranked(view, rank) && Walk(view, net, rank, v, s) == Some(r)
    ensures MintedAbove(view, net, rank) && CutsAt(view, net, rank) ==> StandsFor(view, net, rank, v, s, r)
  {
    if MintedAbove(view, net, rank) && CutsAt(view, net, rank) { WalkStandsFor(view, net, rank, v, s); }
  }

  // What is left after the guard's removals.
  lemma Restores(start: Dirs, now: Dirs, pulled: seq<Ulid>, stuck: set<Ulid>)
    requires Tracks(start, now, pulled)
    ensures var left := now - ((set u | u in pulled) - stuck);
            && (forall u :: u in start ==> u in left && left[u] == start[u])
            && left.Keys <= start.Keys + stuck
            && (stuck == {} ==> left == start)
  {
  }

  lemma TracksTwice(start: Dirs, mid: Dirs, now: Dirs, first: seq<Ulid>, pulled: seq<Ulid>,
                    log: seq<Event>, events: seq<Event>, events': seq<Event>)
    requires Tracks(start, mid, first) && events == log + Pulling(first)
    requires Pulled(mid, now, first, pulled, events, events')
    ensures Tracks(start, now, pulled) && events' == log + Pulling(pulled)
    ensures AllLocal(mid, first) && AllLocal(now, pulled[|first|..]) ==> now.Keys == start.Keys + set u | u in pulled
  {
    assert pulled == first + pulled[|first|..];
  }
}
