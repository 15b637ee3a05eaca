/** What every component says of volumes: identifiers, keys, and a snapshot manifest's segment list. */
module Volumes {

  // ULIDs are 128-bit numbers; only their order and equality matter here.
  type Ulid = nat

  type VerifyingKey = nat

  // A manifest lists its segments in strictly ascending order.
  predicate Ascending(segs: seq<Ulid>) { forall i, k :: 0 <= i < k < |segs| ==> segs[i] < segs[k] }

  // The skip walk's emptiness test: nothing was minted since the fork's parent snapshot.
  predicate IsEmpty(segs: seq<Ulid>, parentSnap: Ulid) {
    |segs| == 0 || segs[|segs| - 1] < parentSnap
  }
}
