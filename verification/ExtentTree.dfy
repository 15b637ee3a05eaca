/**
 The two recursive walkers over ext4 extent trees. `fuel` is the stack depth a walk may use: the
 source bounds recursion by nothing else, so every statement holds for trees with cycles too.
 */
module ExtentTree {
  import opened Wrappers

  const EXTENT_MAGIC: nat := 0xf30a
  const EXTENT_ENTRY_SIZE: nat := 12

  // Why a walk stopped: it finished, a child block could not be read, or the stack ran out.
  datatype Status = Done | IoError | TooDeep

  datatype Leaf = Leaf(logical: nat, start: nat, len: nat)

  datatype Disk = Disk(bytes: Bytes, blockSize: nat)

  function U16le(data: Bytes, off: nat): nat
    requires off + 2 <= |data|
  {
    var w: seq<int> := data;
    w[off] + 0x100 * w[off + 1]
  }

  function U32le(data: Bytes, off: nat): nat
    requires off + 4 <= |data|
  {
    U16le(data, off) + 0x1_0000 * U16le(data, off + 2)
  }

  function HiLo64(hi: nat, lo: nat): nat { hi * 0x1_0000_0000 + lo }

  // ---- the tree as written on disk ----

  predicate IsNode(data: Bytes) { |data| >= EXTENT_ENTRY_SIZE && U16le(data, 0) == EXTENT_MAGIC }

  function DepthOf(data: Bytes): nat { if IsNode(data) then U16le(data, 6) else 0 }

  // Entries the header announces and the data holds.
  predicate HasEntry(data: Bytes, i: nat) { IsNode(data) && i < U16le(data, 2) && 12 * (i + 2) <= |data| }

  function Entry(data: Bytes, i: nat): Bytes
    requires HasEntry(data, i)
  {
    data[12 * (i + 1)..12 * (i + 2)]
  }

  function LeafOf(entry: Bytes): Leaf
    requires |entry| == 12
  {
    Leaf(U32le(entry, 0), HiLo64(U16le(entry, 6), U32le(entry, 8)), U16le(entry, 4) % 0x8000)
  }

  // The child block an index entry names, if the image holds all of it.
  function ChildOf(disk: Disk, entry: Bytes): Option<Bytes>
    requires |entry| == 12
  {
    var at := HiLo64(U16le(entry, 8), U32le(entry, 4)) * disk.blockSize;
    if at + disk.blockSize <= |disk.bytes| then Some(disk.bytes[at..at + disk.blockSize]) else None
  }

  // ---- leaves in walk order ----

  // All leaves below `data`, up to where the walk stops.
  function Walk(disk: Disk, data: Bytes, fuel: nat): (seq<Leaf>, Status)
    decreases fuel, 1, 0
  {
    if !IsNode(data) then ([], Done) else WalkEntries(disk, data, fuel, U16le(data, 2))
  }

  // The first `i` entries of a node.
  function WalkEntries(disk: Disk, data: Bytes, fuel: nat, i: nat): (seq<Leaf>, Status)
    requires IsNode(data)
    decreases fuel, 0, i
  {
    if i == 0 then ([], Done)
    else
      var before := WalkEntries(disk, data, fuel, i - 1);
      if before.1 != Done || !HasEntry(data, i - 1) then before
      else
        var entry := Entry(data, i - 1);
        if DepthOf(data) == 0 then (before.0 + [LeafOf(entry)], Done)
        else
          var child := ChildOf(disk, entry);
          if child.None? then (before.0, IoError)
          else if fuel == 0 then (before.0, TooDeep)
          else
            var below := Walk(disk, child.value, fuel - 1);
            (before.0 + below.0, below.1)
  }

  // ---- trees whose depth decreases ----

  // Every readable child of an index node is shallower, all the way down.
  ghost predicate Descends(disk: Disk, data: Bytes)
    decreases DepthOf(data)
  {
    DepthOf(data) > 0 ==>
      forall i: nat :: HasEntry(data, i) && ChildOf(disk, Entry(data, i)).Some? ==>
                         var child := ChildOf(disk, Entry(data, i)).value;
                         DepthOf(child) < DepthOf(data) && Descends(disk, child)
  }

  // Such a walk needs no more stack than the root's depth, whatever else the image holds.
  lemma {:induction false} DescendingWalkEnds(disk: Disk, data: Bytes, fuel: nat)
    requires Descends(disk, data) && fuel >= DepthOf(data)
    ensures Walk(disk, data, fuel).1 != TooDeep
    decreases DepthOf(data), 1, 0
  {
    if IsNode(data) { DescendingEntriesEnd(disk, data, fuel, U16le(data, 2)); }
  }

  lemma {:induction false} DescendingEntriesEnd(disk: Disk, data: Bytes, fuel: nat, i: nat)
    requires IsNode(data) && Descends(disk, data) && fuel >= DepthOf(data)
    ensures WalkEntries(disk, data, fuel, i).1 != TooDeep
    decreases DepthOf(data), 0, i
  {
    if i > 0 {
      DescendingEntriesEnd(disk, data, fuel, i - 1);
      if DepthOf(data) > 0 && HasEntry(data, i - 1) {
        var child := ChildOf(disk, Entry(data, i - 1));
        if child.Some? { DescendingWalkEnds(disk, child.value, fuel - 1); }
      }
    }
  }

  // More stack changes nothing once a walk did not run out of it.
  lemma {:induction false} MoreStackSameWalk(disk: Disk, data: Bytes, fuel: nat, more: nat)
    requires fuel <= more && Walk(disk, data, fuel).1 != TooDeep
    ensures Walk(disk, data, more) == Walk(disk, data, fuel)
    decreases fuel, 1, 0
  {
    if IsNode(data) { MoreStackSameEntries(disk, data, fuel, more, U16le(data, 2)); }
  }

  lemma {:induction false} MoreStackSameEntries(disk: Disk, data: Bytes, fuel: nat, more: nat, i: nat)
    requires IsNode(data) && fuel <= more && WalkEntries(disk, data, fuel, i).1 != TooDeep
    ensures WalkEntries(disk, data, more, i) == WalkEntries(disk, data, fuel, i)
    decreases fuel, 0, i
  {
    if i > 0 {
      var before := WalkEntries(disk, data, fuel, i - 1);
      MoreStackSameEntries(disk, data, fuel, more, i - 1);
      if before.1 == Done && HasEntry(data, i - 1) && DepthOf(data) > 0 && fuel > 0 {
        var child := ChildOf(disk, Entry(data, i - 1));
        if child.Some? { MoreStackSameWalk(disk, child.value, fuel - 1, more - 1); }
      }
    }
  }

  // ---- the walkers ----

  function Physical(leaves: seq<Leaf>): seq<(nat, nat)> {
    seq(|leaves|, i requires 0 <= i < |leaves| => (leaves[i].start, leaves[i].len))
  }

  lemma PhysicalAppend(a: seq<Leaf>, b: seq<Leaf>)
    ensures Physical(a + b) == Physical(a) + Physical(b)
  {
  }

  // The entries past the last whole one add nothing.
  lemma {:induction false} EntriesStop(disk: Disk, data: Bytes, fuel: nat, i: nat, n: nat)
    requires IsNode(data) && i <= n && 12 * (i + 2) > |data|
    ensures WalkEntries(disk, data, fuel, n) == WalkEntries(disk, data, fuel, i)
    decreases n
  {
    if i < n { EntriesStop(disk, data, fuel, i, n - 1); }
  }

  // A stopped walk stays stopped.
  lemma {:induction false} EntriesStopped(disk: Disk, data: Bytes, fuel: nat, i: nat, n: nat)
    requires IsNode(data) && i <= n && WalkEntries(disk, data, fuel, i).1 != Done
    ensures WalkEntries(disk, data, fuel, n) == WalkEntries(disk, data, fuel, i)
    decreases n
  {
    if i < n { EntriesStopped(disk, data, fuel, i, n - 1); }
  }

  // Entry `i`, with logical block numbers.
  method LogicalEntry(disk: Disk, data: Bytes, fuel: nat, i: nat, out0: seq<Leaf>)
      returns (out: seq<Leaf>, status: Status)
    requires HasEntry(data, i) && WalkEntries(disk, data, fuel, i).1 == Done
    ensures WalkEntries(disk, data, fuel, i + 1).1 == status
    ensures forall base :: out0 == base + WalkEntries(disk, data, fuel, i).0 ==>
              out == base + WalkEntries(disk, data, fuel, i + 1).0
    decreases fuel, 0
  {
    var entry := data[12 * (i + 1)..12 * (i + 2)];
    if U16le(data, 6) == 0 {
      var len := U16le(entry, 4) % 0x8000;
      var phys := HiLo64(U16le(entry, 6), U32le(entry, 8));
      return out0 + [Leaf(U32le(entry, 0), phys, len)], Done;
    }
    var child := ChildOf(disk, entry);
    if child.None? {
      return out0, IoError;
    }
    if fuel == 0 {
      return out0, TooDeep;
    }
    out, status := CollectExtentsWithLogical(disk, child.value, fuel - 1, out0);
  }

  // With logical block numbers: every leaf of the walk, in order, whatever the status.
  method CollectExtentsWithLogical(disk: Disk, data: Bytes, fuel: nat, out0: seq<Leaf>)
      returns (out: seq<Leaf>, status: Status)
    ensures out == out0 + Walk(disk, data, fuel).0 && status == Walk(disk, data, fuel).1
    decreases fuel, 1
  {
    out, status := out0, Done;
    if |data| < EXTENT_ENTRY_SIZE || U16le(data, 0) != EXTENT_MAGIC {
      return;
    }
    var n := U16le(data, 2);
    for i := 0 to n
      invariant out == out0 + WalkEntries(disk, data, fuel, i).0 && status == WalkEntries(disk, data, fuel, i).1 == Done
    {
      if 12 * (i + 1) + EXTENT_ENTRY_SIZE > |data| {
        EntriesStop(disk, data, fuel, i, n);
        return;
      }
      out, status := LogicalEntry(disk, data, fuel, i, out);
      if status != Done {
        EntriesStopped(disk, data, fuel, i + 1, n);
        return;
      }
    }
  }

  // Entry `i`, without them.
  method PhysicalEntry(disk: Disk, data: Bytes, fuel: nat, i: nat, out0: seq<(nat, nat)>)
      returns (out: seq<(nat, nat)>, status: Status)
    requires HasEntry(data, i) && WalkEntries(disk, data, fuel, i).1 == Done
    ensures WalkEntries(disk, data, fuel, i + 1).1 == status
    ensures forall base :: out0 == base + Physical(WalkEntries(disk, data, fuel, i).0) ==>
                             out == base + Physical(WalkEntries(disk, data, fuel, i + 1).0)
    decreases fuel, 0
  {
    ghost var before := WalkEntries(disk, data, fuel, i).0;
    var entry := data[12 * (i + 1)..12 * (i + 2)];
    if U16le(data, 6) == 0 {
      var len := U16le(entry, 4) % 0x8000;
      var start := HiLo64(U16le(entry, 6), U32le(entry, 8));
      PhysicalAppend(before, [LeafOf(entry)]);
      return out0 + [(start, len)], Done;
    }
    var child := ChildOf(disk, entry);
    if child.None? {
      return out0, IoError;
    }
    if fuel == 0 {
      return out0, TooDeep;
    }
    PhysicalAppend(before, Walk(disk, child.value, fuel - 1).0);
    out, status := CollectExtents(disk, child.value, fuel - 1, out0);
  }

  /**
   Without them: entry by entry the same walk as its twin, with the logical numbers dropped, and
   the same status.
   */
  method CollectExtents(disk: Disk, data: Bytes, fuel: nat, out0: seq<(nat, nat)>)
      returns (out: seq<(nat, nat)>, status: Status)
    ensures out == out0 + Physical(Walk(disk, data, fuel).0) && status == Walk(disk, data, fuel).1
    decreases fuel, 1
  {
    out, status := out0, Done;
    if |data| < EXTENT_ENTRY_SIZE || U16le(data, 0) != EXTENT_MAGIC {
      return;
    }
    var n := U16le(data, 2);
    for i := 0 to n
      invariant out == out0 + Physical(WalkEntries(disk, data, fuel, i).0)
                && status == WalkEntries(disk, data, fuel, i).1 == Done
    {
      if 12 * (i + 1) + EXTENT_ENTRY_SIZE > |data| {
        EntriesStop(disk, data, fuel, i, n);
        return;
      }
      out, status := PhysicalEntry(disk, data, fuel, i, out);
      if status != Done {
        EntriesStopped(disk, data, fuel, i + 1, n);
        return;
      }
    }
  }
}
