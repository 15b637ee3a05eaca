/**
 The attestation authority's signed-lineage walk: from an owned volume along the
 fork parents its provenance commits to, collecting every volume a reader operating
 as the owned volume may visit.
 */
module Lineage {
  import opened Volumes
  import opened Wrappers

  // The parent a provenance commits to; a field that does not parse is None.
  datatype ParentRef = ParentRef(vol: Option<Ulid>, key: Option<VerifyingKey>)

  // `extents` are the sources of the `extent_index` entries, None for a malformed one.
  datatype Provenance = Provenance(extents: seq<Option<Ulid>>, recovery: seq<Ulid>, parent: Option<ParentRef>)

  // A published object verifies under one key; anything unreadable is simply not here.
  datatype Signed = Signed(signer: VerifyingKey, prov: Provenance)

  type Store = map<Ulid, Signed>

  datatype Error = Unloadable | BadExtent | BadParent | Cycle

  // Fetch `meta/<u>.provenance` and verify it under `key`.
  function Load(store: Store, u: Ulid, key: VerifyingKey): Option<Provenance> {
    if u in store && store[u].signer == key then Some(store[u].prov) else None
  }

  function ExtentSet(p: Provenance): set<Ulid> { set e | e in p.extents && e.Some? :: e.value }

  function RecoverySet(p: Provenance): set<Ulid> { set u | u in p.recovery }

  // ---- what the walk means ----

  datatype Link = Link(vol: Ulid, key: VerifyingKey, prov: Provenance)

  // A link is sound when its provenance loads under the key its child committed and all its entries parse.
  ghost predicate LinkOk(store: Store, l: Link) {
    && Load(store, l.vol, l.key) == Some(l.prov)
    && (forall i :: 0 <= i < |l.prov.extents| ==> l.prov.extents[i].Some?)
    && (l.prov.parent.Some? ==> l.prov.parent.value.vol.Some? && l.prov.parent.value.key.Some?)
  }

  // Sound links, each the parent its predecessor commits to.
  ghost predicate Chain(store: Store, owned: Ulid, key: VerifyingKey, links: seq<Link>)
    decreases |links|
  {
    && |links| > 0
    && var init, last := links[..|links| - 1], links[|links| - 1];
    && LinkOk(store, last)
    && if |init| == 0 then last.vol == owned && last.key == key
       else Chain(store, owned, key, init) && Commits(init[|init| - 1], last.vol, last.key)
  }

  ghost predicate Commits(l: Link, vol: Ulid, key: VerifyingKey) {
    l.prov.parent == Some(ParentRef(Some(vol), Some(key)))
  }

  // The chain reaches a root.
  ghost predicate Complete(store: Store, owned: Ulid, key: VerifyingKey, links: seq<Link>) {
    Chain(store, owned, key, links) && links[|links| - 1].prov.parent.None?
  }

  // Every volume visible along a chain, with the owned volume's own recovery sources.
  ghost function ReadSet(links: seq<Link>): set<Ulid> {
    if |links| == 0 then {}
    else ReadSet(links[..|links| - 1]) + {links[|links| - 1].vol} + ExtentSet(links[|links| - 1].prov)
         + if |links| == 1 then RecoverySet(links[0].prov) else {}
  }

  // No fork parent is already visible from below it: the walk's cycle test.
  ghost predicate Fresh(links: seq<Link>)
    decreases |links|
  {
    |links| > 1 ==>
      Fresh(links[..|links| - 1]) && links[|links| - 1].vol !in ReadSet(links[..|links| - 1])
  }

  // A volume is in the read set exactly if it is on the chain, an extent source named along it,
  // or one of the owned volume's recovery sources.
  lemma {:induction false} ReadSetMembers(links: seq<Link>, u: Ulid)
    ensures u in ReadSet(links) <==>
              || (exists i :: 0 <= i < |links| && (links[i].vol == u || u in ExtentSet(links[i].prov)))
              || (|links| > 0 && u in RecoverySet(links[0].prov))
    decreases |links|
  {
    if |links| > 0 {
      var init := links[..|links| - 1];
      ReadSetMembers(init, u);
      assert forall i :: 0 <= i < |init| ==> init[i] == links[i];
    }
  }

  // A chain's prefixes are chains, and the walk through one continues along it.
  lemma {:induction false} ChainPrefix(store: Store, owned: Ulid, key: VerifyingKey, links: seq<Link>, i: nat)
    requires Chain(store, owned, key, links) && 0 < i <= |links|
    ensures Chain(store, owned, key, links[..i])
    ensures i < |links| ==> LinkOk(store, links[i]) && Commits(links[i - 1], links[i].vol, links[i].key)
    decreases |links|
  {
    var init := links[..|links| - 1];
    if i == |links| {
      assert links[..i] == links;
    } else {
      ChainPrefix(store, owned, key, init, i);
      assert init[..i] == links[..i];
    }
  }

  lemma {:induction false} FreshPrefix(links: seq<Link>, i: nat)
    requires Fresh(links) && 0 < i < |links|
    ensures links[i].vol !in ReadSet(links[..i])
    decreases |links|
  {
    var init := links[..|links| - 1];
    if i < |init| {
      FreshPrefix(init, i);
      assert init[..i] == links[..i];
    }
  }

  // Chains are determined by where they start.
  lemma {:induction false} ChainsAgree(store: Store, owned: Ulid, key: VerifyingKey, a: seq<Link>, b: seq<Link>)
    requires Chain(store, owned, key, a) && Chain(store, owned, key, b) && |a| == |b|
    ensures a == b
    decreases |a|
  {
    var n := |a| - 1;
    if n > 0 {
      ChainsAgree(store, owned, key, a[..n], b[..n]);
    }
    assert a[n] == b[n];
    assert a == a[..n] + [a[n]] && b == b[..n] + [b[n]];
  }

  // A chain that commits to a further parent goes on with that parent in every complete chain.
  lemma Continues(store: Store, owned: Ulid, ownedKey: VerifyingKey, links: seq<Link>, vol: Ulid, key: VerifyingKey,
                  full: seq<Link>)
    requires Chain(store, owned, ownedKey, links) && Commits(links[|links| - 1], vol, key)
    requires Complete(store, owned, ownedKey, full)
    ensures |links| < |full| && full[..|links|] == links
    ensures full[|links|].vol == vol && full[|links|].key == key && LinkOk(store, full[|links|])
  {
    if |full| <= |links| {
      ChainPrefix(store, owned, ownedKey, links, |full|);
      ChainsAgree(store, owned, ownedKey, links[..|full|], full);
      assert false;
    }
    ChainPrefix(store, owned, ownedKey, full, |links|);
    ChainsAgree(store, owned, ownedKey, full[..|links|], links);
  }

  lemma OneCompleteChain(store: Store, owned: Ulid, key: VerifyingKey, a: seq<Link>, b: seq<Link>)
    requires Complete(store, owned, key, a) && Complete(store, owned, key, b)
    ensures a == b
  {
    if |a| < |b| {
      ChainPrefix(store, owned, key, b, |a|);
      ChainsAgree(store, owned, key, b[..|a|], a);
      assert false;
    } else if |b| < |a| {
      ChainPrefix(store, owned, key, a, |b|);
      ChainsAgree(store, owned, key, a[..|b|], b);
      assert false;
    }
    ChainsAgree(store, owned, key, a, b);
  }

  // The walk has followed `links` and is about to load `vol` under `key`.
  ghost predicate At(store: Store, owned: Ulid, ownedKey: VerifyingKey, links: seq<Link>, vol: Ulid, key: VerifyingKey)
  {
    if |links| == 0 then vol == owned && key == ownedKey
    else
      && Chain(store, owned, ownedKey, links) && Fresh(links) && vol !in ReadSet(links)
      && Commits(links[|links| - 1], vol, key)
  }

  // If what is loaded next is unsound, there is no complete chain.
  lemma Unsound(store: Store, owned: Ulid, ownedKey: VerifyingKey, links: seq<Link>, vol: Ulid, key: VerifyingKey)
    requires At(store, owned, ownedKey, links, vol, key)
    requires Load(store, vol, key).Some? ==> !LinkOk(store, Link(vol, key, Load(store, vol, key).value))
    ensures forall full: seq<Link> :: !Complete(store, owned, ownedKey, full)
  {
    forall full: seq<Link> ensures !Complete(store, owned, ownedKey, full) {
      if Complete(store, owned, ownedKey, full) {
        if |links| == 0 {
          ChainPrefix(store, owned, ownedKey, full, 1);
        } else {
          Continues(store, owned, ownedKey, links, vol, key, full);
        }
        assert false;
      }
    }
  }

  // One more sound link.
  lemma Follow(store: Store, owned: Ulid, ownedKey: VerifyingKey, links: seq<Link>, vol: Ulid, key: VerifyingKey,
               prov: Provenance)
    requires At(store, owned, ownedKey, links, vol, key) && LinkOk(store, Link(vol, key, prov))
    ensures var links' := links + [Link(vol, key, prov)];
            && Chain(store, owned, ownedKey, links') && Fresh(links')
            && ReadSet(links') == ReadSet(links) + {vol} + ExtentSet(prov)
                                  + if |links| == 0 then RecoverySet(prov) else {}
  {
    var links' := links + [Link(vol, key, prov)];
    assert links'[..|links'| - 1] == links;
  }

  // A parent already in the set leaves no fresh complete chain.
  lemma Stale(store: Store, owned: Ulid, ownedKey: VerifyingKey, links: seq<Link>, vol: Ulid, key: VerifyingKey)
    requires Chain(store, owned, ownedKey, links) && vol in ReadSet(links) && Commits(links[|links| - 1], vol, key)
    ensures forall full: seq<Link> :: Complete(store, owned, ownedKey, full) ==> !Fresh(full)
  {
    forall full: seq<Link> | Complete(store, owned, ownedKey, full) ensures !Fresh(full) {
      Continues(store, owned, ownedKey, links, vol, key, full);
      if Fresh(full) {
        FreshPrefix(full, |links|);
        assert false;
      }
    }
  }

  lemma OwnedIsVisible(store: Store, owned: Ulid, ownedKey: VerifyingKey, links: seq<Link>)
    requires Chain(store, owned, ownedKey, links)
    ensures owned in ReadSet(links)
  {
    ChainPrefix(store, owned, ownedKey, links, 1);
    ReadSetMembers(links, owned);
  }

  lemma Visited(links: seq<Link>, vol: Ulid)
    requires vol !in ReadSet(links)
    ensures vol !in set l | l in links :: l.vol
  {
    ReadSetMembers(links, vol);
  }

  // ---- what the cycle test rejects ----

  // A chain that reaches a root never repeats a volume: a repeat would repeat for ever.
  lemma {:induction false} RootedChainsHaveNoCycle(store: Store, owned: Ulid, ownedKey: VerifyingKey, full: seq<Link>,
                                                   i: nat, j: nat)
    requires Complete(store, owned, ownedKey, full) && i < j < |full|
    ensures full[i].vol != full[j].vol
    decreases |full| - j
  {
    if full[i].vol == full[j].vol {
      ChainPrefix(store, owned, ownedKey, full, i + 1);
      ChainPrefix(store, owned, ownedKey, full, j + 1);
      ChainPrefix(store, owned, ownedKey, full, j);
      assert full[i].prov == full[j].prov;
      if j + 1 < |full| {
        RootedChainsHaveNoCycle(store, owned, ownedKey, full, i + 1, j + 1);
      }
      assert false;
    }
  }

  // The fork parent at `j` is named below it as an extent or recovery source.
  ghost predicate NamedBelow(full: seq<Link>, j: nat)
    requires j < |full|
  {
    || (exists i :: 0 <= i < j && full[j].vol in ExtentSet(full[i].prov))
    || full[j].vol in RecoverySet(full[0].prov)
  }

  lemma {:induction false} FreshEverywhere(links: seq<Link>)
    requires forall j :: 0 < j < |links| ==> links[j].vol !in ReadSet(links[..j])
    ensures Fresh(links)
    decreases |links|
  {
    if |links| > 1 {
      var init := links[..|links| - 1];
      forall j | 0 < j < |init| ensures init[j].vol !in ReadSet(init[..j]) {
        assert init[..j] == links[..j] && links[j].vol !in ReadSet(links[..j]);
      }
      FreshEverywhere(init);
    }
  }

  /**
   On a chain that reaches a root, the cycle test fails exactly when a fork parent doubles as
   an extent or recovery source named below it. That is no cycle: such a chain never has one.
   */
  lemma CycleTestFindsNamedSources(store: Store, owned: Ulid, ownedKey: VerifyingKey, full: seq<Link>)
    requires Complete(store, owned, ownedKey, full)
    ensures Fresh(full) <==> forall j :: 0 < j < |full| ==> !NamedBelow(full, j)
  {
    forall j | 0 < j < |full| ensures full[j].vol in ReadSet(full[..j]) <==> NamedBelow(full, j) {
      ReadSetMembers(full[..j], full[j].vol);
      forall i | 0 <= i < j ensures full[i].vol != full[j].vol {
        RootedChainsHaveNoCycle(store, owned, ownedKey, full, i, j);
      }
      assert forall i :: 0 <= i < j ==> full[..j][i] == full[i];
    }
    if Fresh(full) {
      forall j | 0 < j < |full| ensures !NamedBelow(full, j) { FreshPrefix(full, j); }
    } else if forall j :: 0 < j < |full| ==> !NamedBelow(full, j) {
      FreshEverywhere(full);
      assert false;
    }
  }

  // A fork of 2 that also lists 2 as an extent source: rooted, no cycle, and rejected.
  lemma ParentAlsoAnExtentSource(key: VerifyingKey)
    ensures var fork := Provenance([Some(2)], [], Some(ParentRef(Some(2), Some(key))));
            var root := Provenance([], [], None);
            var store := map[1 := Signed(key, fork), 2 := Signed(key, root)];
            Complete(store, 1, key, [Link(1, key, fork), Link(2, key, root)])
            && forall full: seq<Link> :: Complete(store, 1, key, full) ==> !Fresh(full)
  {
    var fork := Provenance([Some(2)], [], Some(ParentRef(Some(2), Some(key))));
    var store := map[1 := Signed(key, fork), 2 := Signed(key, Provenance([], [], None))];
    var links := [Link(1, key, fork)];
    var rooted := [Link(1, key, fork), Link(2, key, Provenance([], [], None))];
    assert rooted[..1] == links;
    assert Some(2) in fork.extents;
    assert 2 in ExtentSet(fork);
    ReadSetMembers(links, 2);
    Stale(store, 1, key, links, 2, key);
  }

  // The last link's parent is already in the read set.
  ghost predicate CommitsToVisible(links: seq<Link>)
    requires |links| > 0
  {
    var parent := links[|links| - 1].prov.parent;
    parent.Some? && parent.value.vol.Some? && parent.value.vol.value in ReadSet(links)
  }

  // ---- the walk ----

  // The first `i` extent sources.
  function SourcesUpTo(p: Provenance, i: nat): set<Ulid>
    requires i <= |p.extents|
  {
    set e | e in p.extents[..i] && e.Some? :: e.value
  }

  // The inner loop over one provenance's `extent_index`.
  method AddExtents(visible: set<Ulid>, p: Provenance) returns (r: Option<set<Ulid>>)
    ensures r.Some? <==> forall i :: 0 <= i < |p.extents| ==> p.extents[i].Some?
    ensures r.Some? ==> r.value == visible + ExtentSet(p)
  {
    var s := visible;
    var i := 0;
    while i < |p.extents|
      invariant 0 <= i <= |p.extents|
      invariant forall k :: 0 <= k < i ==> p.extents[k].Some?
      invariant s == visible + SourcesUpTo(p, i)
    {
      if p.extents[i].None? {
        return None;
      }
      assert p.extents[..i + 1] == p.extents[..i] + [p.extents[i]];
      s := s + {p.extents[i].value};
      i := i + 1;
    }
    assert p.extents[..i] == p.extents;
    return Some(s);
  }

  // One volume's provenance: load it, add what it makes visible, and check its parent parses.
  method ReadLink(store: Store, vol: Ulid, key: VerifyingKey, visible: set<Ulid>, first: bool)
      returns (r: Result<(Provenance, set<Ulid>), Error>)
    ensures r.Ok? ==> LinkOk(store, Link(vol, key, r.value.0))
                      && r.value.1 == visible + ExtentSet(r.value.0) + if first then RecoverySet(r.value.0) else {}
    ensures r.Err? ==> r.error != Cycle
                       && (Load(store, vol, key).Some? ==> !LinkOk(store, Link(vol, key, Load(store, vol, key).value)))
  {
    var loaded := Load(store, vol, key);
    if loaded.None? {
      return Err(Unloadable);
    }
    var prov := loaded.value;
    var extended := AddExtents(visible, prov);
    if extended.None? {
      return Err(BadExtent);
    }
    if prov.parent.Some? && (prov.parent.value.vol.None? || prov.parent.value.key.None?) {
      return Err(BadParent);
    }
    return Ok((prov, extended.value + if first then RecoverySet(prov) else {}));
  }

  // The owned volume is visited once, at the start.
  lemma FirstOnly(store: Store, owned: Ulid, ownedKey: VerifyingKey, links: seq<Link>, vol: Ulid, key: VerifyingKey)
    requires At(store, owned, ownedKey, links, vol, key)
    ensures vol == owned <==> |links| == 0
    ensures vol !in set l | l in links :: l.vol
  {
    if |links| > 0 {
      OwnedIsVisible(store, owned, ownedKey, links);
      Visited(links, vol);
    }
  }

  /**
   Terminates on every finite store, cyclic or not. Ok exactly when a complete chain of
   sound links exists whose parents are all fresh, and then with its read set.
   */
  method WalkLineageSet(store: Store, owned: Ulid, ownedKey: VerifyingKey)
      returns (r: Result<set<Ulid>, Error>, ghost links: seq<Link>)
    ensures r.Ok? ==> Complete(store, owned, ownedKey, links) && Fresh(links) && r.value == ReadSet(links)
    ensures r.Err? ==> forall full: seq<Link> :: Complete(store, owned, ownedKey, full) ==> !Fresh(full)
    ensures r == Err(Cycle) ==>
              Chain(store, owned, ownedKey, links) && CommitsToVisible(links)
  {
    var visible := {owned};
    var vol, key := owned, ownedKey;
    links := [];
    while true
      invariant At(store, owned, ownedKey, links, vol, key)
      invariant visible == ReadSet(links) + {vol}
      decreases store.Keys - set l | l in links :: l.vol
    {
      FirstOnly(store, owned, ownedKey, links, vol, key);
      var read := ReadLink(store, vol, key, visible, vol == owned);
      if read.Err? {
        Unsound(store, owned, ownedKey, links, vol, key);
        return Err(read.error), links;
      }
      var prov := read.value.0;
      visible := read.value.1;
      ghost var before := set l | l in links :: l.vol;
      Follow(store, owned, ownedKey, links, vol, key, prov);
      links := links + [Link(vol, key, prov)];
      if prov.parent.None? {
        return Ok(visible), links;
      }
      var parent := prov.parent.value.vol.value;
      if parent in visible {
        Stale(store, owned, ownedKey, links, parent, prov.parent.value.key.value);
        return Err(Cycle), links;
      }
      assert (set l | l in links :: l.vol) == before + {vol};
      visible := visible + {parent};
      vol, key := parent, prov.parent.value.key.value;
    }
  }
}
