/**
 The discharge authority: one request is decoded, its CID opened, its freshness and single use
 checked, and then possession, liveness and the mode decide whether a discharge is minted.
 Requests run concurrently but touch shared state in one place, the seen-cache under its lock,
 so a run is the sequence of attempts in the order they take that lock. The clock value of an
 attempt is read before the lock, so values along a run need not ascend.
 */
module Discharge {
  import opened HexText
  import opened Volumes
  import opened Wrappers
  import Cid
  import Lineage

  type U64 = x: int | 0 <= x <= U64_MAX

  const U64_MAX: int := 0xFFFF_FFFF_FFFF_FFFF
  const VOLUME_RW_DISCHARGE_TTL_SECS: nat := 300
  const VOLUME_RO_DISCHARGE_TTL_SECS: nat := 3600
  const PROOF_LEN: nat := 64

  // "volume-rw" and "volume-ro".
  const MODE_VOLUME_RW: Bytes := [118, 111, 108, 117, 109, 101, 45, 114, 119]
  const MODE_VOLUME_RO: Bytes := [118, 111, 108, 117, 109, 101, 45, 114, 111]

  datatype Request = Request(cid: string, name: string, owned: string, target: string, ts: U64, nonce: string,
                             proof: string)

  datatype NameState = Live | Stopped | Released | Readonly | Importing
  datatype NameRecord = NameRecord(vol: Ulid, state: NameState)

  // One stored object: parsed, present but unusable, or unreachable. An absent one is not in its map.
  datatype Object<T> = Readable(value: T) | Garbled | Faulty

  // What the read-only store shows one request.
  datatype Control = Control(
    pubs: map<Ulid, Object<VerifyingKey>>, names: map<string, Object<NameRecord>>, provs: Lineage.Store)

  // The primitives the authority is built over, and its window.
  datatype Authority = Authority(
    hex: string -> Option<Bytes>,
    ulid: string -> Option<Ulid>,
    possession: (VerifyingKey, Ulid, Ulid, Bytes, U64, Bytes, Bytes) -> bool,
    ticket: Bytes -> Bytes,
    cipher: Cid.Cipher,
    skew: U64)

  datatype Error = Malformed | Denied | Backend

  // A macaroon rooted at `r`, answering the caveat `ticket`, attesting `volume` until `exp`.
  datatype Grant = Grant(r: Bytes, ticket: Bytes, volume: Ulid, exp: nat)

  datatype Attempt = Attempt(req: Request, now: U64, control: Control)

  // ---- the seen-cache ----

  // Request texts `(owned, nonce)` to the clock value they were recorded at.
  type Seen = map<(string, string), U64>

  function Key(req: Request): (string, string) { (req.owned, req.nonce) }

  function AbsDiff(a: U64, b: U64): U64 { if a >= b then a - b else b - a }

  function SaturatingSub(a: U64, b: U64): U64 { if a >= b then a - b else 0 }

  function Bound(skew: U64): U64 { if 2 * skew <= U64_MAX then 2 * skew else U64_MAX }

  function Retain(seen: Seen, now: U64, bound: U64): Seen {
    map k | k in seen && SaturatingSub(now, seen[k]) <= bound :: seen[k]
  }

  function Record(seen: Seen, key: (string, string), now: U64, bound: U64): Seen {
    var kept := Retain(seen, now, bound);
    if key in kept then kept else kept[key := now]
  }

  // ---- which attempts reach it ----

  predicate Decodes(auth: Authority, req: Request) {
    && auth.hex(req.cid).Some? && auth.hex(req.nonce).Some?
    && auth.hex(req.proof).Some? && |auth.hex(req.proof).value| == PROOF_LEN
    && auth.ulid(req.owned).Some? && auth.ulid(req.target).Some?
  }

  ghost predicate Recovers(auth: Authority, cid: Bytes, x: Cid.AttestedCid) {
    && Cid.SoundAttested(x) && |cid| >= Cid.AEAD_NONCE_LEN
    && auth.cipher.open(cid[..Cid.AEAD_NONCE_LEN], cid[Cid.AEAD_NONCE_LEN..]) == Some(Cid.AttestedLayout(x))
  }

  ghost predicate Reaches(auth: Authority, a: Attempt) {
    && Decodes(auth, a.req)
    && (exists x :: Recovers(auth, auth.hex(a.req.cid).value, x))
    && AbsDiff(a.now, a.req.ts) <= auth.skew
  }

  ghost function After(auth: Authority, seen: Seen, a: Attempt): Seen {
    if Reaches(auth, a) then Record(seen, Key(a.req), a.now, Bound(auth.skew)) else seen
  }

  // The cache after the first `n` attempts of a run.
  ghost function Cache(auth: Authority, run: seq<Attempt>, n: nat): Seen
    requires n <= |run|
  {
    if n == 0 then map[] else After(auth, Cache(auth, run, n - 1), run[n - 1])
  }

  // Attempt `i` passes freshness and the anti-replay check.
  ghost predicate Admitted(auth: Authority, run: seq<Attempt>, i: nat)
    requires i < |run|
  {
    && Reaches(auth, run[i])
    && Key(run[i].req) !in Retain(Cache(auth, run, i), run[i].now, Bound(auth.skew))
  }

  // Attempt `k` prunes what attempt `i` recorded.
  ghost predicate Evicts(auth: Authority, run: seq<Attempt>, i: nat, k: nat)
    requires i < |run| && k < |run|
  {
    Reaches(auth, run[k]) && run[k].now > run[i].now + Bound(auth.skew)
  }

  // ---- single use ----

  // An admitted key stays, with the clock value it was admitted at, until an attempt prunes it.
  lemma {:induction false} Stays(auth: Authority, run: seq<Attempt>, i: nat, n: nat)
    requires i < n <= |run| && Admitted(auth, run, i)
    requires forall k :: i < k < n ==> !Evicts(auth, run, i, k)
    ensures Key(run[i].req) in Cache(auth, run, n) && Cache(auth, run, n)[Key(run[i].req)] == run[i].now
    decreases n
  {
    if n > i + 1 {
      Stays(auth, run, i, n - 1);
      assert !Evicts(auth, run, i, n - 1);
    }
  }

  // No attempt after `i` and before `n` prunes what attempt `i` recorded.
  ghost predicate Unpruned(auth: Authority, run: seq<Attempt>, i: nat, n: nat)
    requires i < n <= |run|
  {
    forall k :: i < k < n ==> !Evicts(auth, run, i, k)
  }

  lemma UnprunedNext(auth: Authority, run: seq<Attempt>, i: nat, n: nat)
    requires i < n < |run|
    ensures Unpruned(auth, run, i, n + 1) <==> Unpruned(auth, run, i, n) && !Evicts(auth, run, i, n)
  {
  }

  // One attempt that does not admit the key leaves its entry, or prunes it.
  lemma EntryStep(auth: Authority, run: seq<Attempt>, i: nat, n: nat)
    requires i < n < |run| && (Key(run[n].req) == Key(run[i].req) ==> !Admitted(auth, run, n))
    requires Key(run[i].req) in Cache(auth, run, n) ==> Cache(auth, run, n)[Key(run[i].req)] == run[i].now
    ensures var key := Key(run[i].req);
            && (key in Cache(auth, run, n + 1) <==> key in Cache(auth, run, n) && !Evicts(auth, run, i, n))
            && (key in Cache(auth, run, n + 1) ==> Cache(auth, run, n + 1)[key] == run[i].now)
  {
  }

  ghost predicate NotReadmitted(auth: Authority, run: seq<Attempt>, i: nat, n: nat)
    requires i < n <= |run|
  {
    forall k :: i < k < n && Key(run[k].req) == Key(run[i].req) ==> !Admitted(auth, run, k)
  }

  // The key's entry is that of attempt `i` exactly while nothing pruned it.
  ghost predicate EntryIs(auth: Authority, run: seq<Attempt>, i: nat, n: nat)
    requires i < n <= |run|
  {
    && (Key(run[i].req) in Cache(auth, run, n) <==> Unpruned(auth, run, i, n))
    && (Key(run[i].req) in Cache(auth, run, n) ==> Cache(auth, run, n)[Key(run[i].req)] == run[i].now)
  }

  lemma EntryNext(auth: Authority, run: seq<Attempt>, i: nat, n: nat)
    requires i < n < |run| && NotReadmitted(auth, run, i, n + 1) && EntryIs(auth, run, i, n)
    ensures EntryIs(auth, run, i, n + 1)
  {
    EntryStep(auth, run, i, n);
    UnprunedNext(auth, run, i, n);
  }

  lemma FirstEntry(auth: Authority, run: seq<Attempt>, i: nat)
    requires i < |run| && Admitted(auth, run, i)
    ensures EntryIs(auth, run, i, i + 1)
  {
  }

  lemma {:induction false} EntryUntilReadmitted(auth: Authority, run: seq<Attempt>, i: nat, n: nat)
    requires i < n <= |run| && Admitted(auth, run, i) && NotReadmitted(auth, run, i, n)
    ensures EntryIs(auth, run, i, n)
    decreases n
  {
    if n == i + 1 {
      FirstEntry(auth, run, i);
    } else {
      EntryUntilReadmitted(auth, run, i, n - 1);
      EntryNext(auth, run, i, n - 1);
    }
  }

  /**
   A repeat of an admitted request text is admitted again exactly if some attempt in between, or
   the repeat itself, carried a clock value more than twice the skew ahead of the first.
   */
  lemma RepeatAdmittedIff(auth: Authority, run: seq<Attempt>, i: nat, j: nat)
    requires i < j < |run| && Admitted(auth, run, i) && Reaches(auth, run[j]) && Key(run[j].req) == Key(run[i].req)
    requires forall k :: i < k < j && Key(run[k].req) == Key(run[i].req) ==> !Admitted(auth, run, k)
    ensures Admitted(auth, run, j) <==> exists k :: i < k <= j && Evicts(auth, run, i, k)
  {
    EntryUntilReadmitted(auth, run, i, j);
    assert Evicts(auth, run, i, j) <==> run[j].now > run[i].now + Bound(auth.skew);
  }

  // A proof's timestamp keeps the repeat itself inside the window.
  lemma SameProofStaysInside(auth: Authority, a: Attempt, b: Attempt)
    requires Reaches(auth, a) && Reaches(auth, b) && a.req.ts == b.req.ts
    ensures b.now <= a.now + Bound(auth.skew)
  {
  }

  // The same text and timestamp are admitted twice only across an attempt whose clock ran ahead and then back.
  lemma AdmittedTwiceNeedsAClockStep(auth: Authority, run: seq<Attempt>, i: nat, j: nat)
    requires i < j < |run| && Admitted(auth, run, i) && Admitted(auth, run, j)
    requires Key(run[j].req) == Key(run[i].req) && run[j].req.ts == run[i].req.ts
    ensures exists k :: i < k < j && Evicts(auth, run, i, k) && run[k].now > run[j].now
  {
    SameProofStaysInside(auth, run[i], run[j]);
    if forall k :: i < k < j ==> !Evicts(auth, run, i, k) {
      Stays(auth, run, i, j);
      assert false;
    }
    var k :| i < k < j && Evicts(auth, run, i, k);
  }

  ghost predicate ClockAscends(auth: Authority, run: seq<Attempt>) {
    forall i, j :: 0 <= i < j < |run| && Reaches(auth, run[i]) && Reaches(auth, run[j]) ==> run[i].now <= run[j].now
  }

  // With clock values that never step back along the run, each text is admitted at most once per timestamp.
  lemma TextsAreSingleUse(auth: Authority, run: seq<Attempt>, i: nat, j: nat)
    requires i < j < |run| && ClockAscends(auth, run)
    requires Key(run[j].req) == Key(run[i].req) && run[j].req.ts == run[i].req.ts
    ensures !(Admitted(auth, run, i) && Admitted(auth, run, j))
  {
    if Admitted(auth, run, i) && Admitted(auth, run, j) {
      AdmittedTwiceNeedsAClockStep(auth, run, i, j);
      assert false;
    }
  }

  // Without that, not: an attempt under another key whose clock is far enough ahead prunes the first.
  lemma ClockStepReadmits(auth: Authority, first: Attempt, ahead: Attempt)
    requires Reaches(auth, first) && Reaches(auth, ahead) && Key(ahead.req) != Key(first.req)
    requires ahead.now > first.now + Bound(auth.skew)
    ensures Admitted(auth, [first, ahead, first], 0) && Admitted(auth, [first, ahead, first], 2)
  {
    var run := [first, ahead, first];
    assert Cache(auth, run, 0) == map[];
    assert Admitted(auth, run, 0);
    assert Evicts(auth, run, 0, 1);
    RepeatAdmittedIff(auth, run, 0, 2);
  }

  // ---- proofs and their spellings ----

  // What possession is verified over. The cache is keyed by texts, and one value may have several.
  datatype Proof = Proof(owned: Ulid, target: Ulid, cid: Bytes, ts: U64, nonce: Bytes, signature: Bytes)

  function ProofOf(auth: Authority, req: Request): Proof
    requires Decodes(auth, req)
  {
    Proof(auth.ulid(req.owned).value, auth.ulid(req.target).value, auth.hex(req.cid).value, req.ts,
          auth.hex(req.nonce).value, auth.hex(req.proof).value)
  }

  ghost predicate SameProof(auth: Authority, a: Attempt, b: Attempt) {
    Decodes(auth, a.req) && Decodes(auth, b.req) && ProofOf(auth, a.req) == ProofOf(auth, b.req)
  }

  // An entry is that of an admitted attempt.
  lemma {:induction false} EntryComesFrom(auth: Authority, run: seq<Attempt>, n: nat, key: (string, string))
      returns (k: nat)
    requires n <= |run| && key in Cache(auth, run, n)
    ensures k < n && Admitted(auth, run, k) && Key(run[k].req) == key && Cache(auth, run, n)[key] == run[k].now
    decreases n
  {
    if key in Cache(auth, run, n - 1) && Cache(auth, run, n)[key] == Cache(auth, run, n - 1)[key] {
      k := EntryComesFrom(auth, run, n - 1, key);
    } else {
      k := n - 1;
    }
  }

  // The text of attempt `j` was used by attempt `k`, within the window.
  ghost predicate Uses(auth: Authority, run: seq<Attempt>, k: nat, j: nat)
    requires k < |run| && j < |run|
  {
    Admitted(auth, run, k) && Key(run[k].req) == Key(run[j].req) && run[j].now <= run[k].now + Bound(auth.skew)
  }

  /** Along an ascending clock, an attempt is admitted exactly if its text was not used within the window. */
  lemma AdmittedIffUnused(auth: Authority, run: seq<Attempt>, j: nat)
    requires j < |run| && ClockAscends(auth, run) && Reaches(auth, run[j])
    ensures Admitted(auth, run, j) <==> forall k :: 0 <= k < j ==> !Uses(auth, run, k, j)
  {
    forall k | 0 <= k < j && Uses(auth, run, k, j) ensures !Admitted(auth, run, j) { Stays(auth, run, k, j); }
    if !Admitted(auth, run, j) {
      var k := EntryComesFrom(auth, run, j, Key(run[j].req));
      assert Uses(auth, run, k, j);
    }
  }

  /**
   A proof that was admitted is admitted again, under a text not otherwise used before, exactly if
   that text is another spelling of it.
   */
  lemma AdmittedAgainIff(auth: Authority, run: seq<Attempt>, i: nat, j: nat)
    requires i < j < |run| && ClockAscends(auth, run) && Admitted(auth, run, i) && Reaches(auth, run[j])
    requires SameProof(auth, run[i], run[j])
    requires forall k :: 0 <= k < j && k != i ==> Key(run[k].req) != Key(run[j].req)
    ensures Admitted(auth, run, j) <==> Key(run[j].req) != Key(run[i].req)
  {
    AdmittedIffUnused(auth, run, j);
    SameProofStaysInside(auth, run[i], run[j]);
    if Key(run[j].req) == Key(run[i].req) { assert Uses(auth, run, i, j); }
  }

  // So one proof is admitted twice only across a clock step or under two spellings.
  lemma ProofTwiceHasACause(auth: Authority, run: seq<Attempt>, i: nat, j: nat)
    requires i < j < |run| && Admitted(auth, run, i) && Admitted(auth, run, j) && SameProof(auth, run[i], run[j])
    ensures Key(run[j].req) != Key(run[i].req)
            || exists k :: i < k < j && Evicts(auth, run, i, k) && run[k].now > run[j].now
  {
    if Key(run[j].req) == Key(run[i].req) { AdmittedTwiceNeedsAClockStep(auth, run, i, j); }
  }

  ghost predicate Over(run: seq<Attempt>, attempts: iset<Attempt>) { forall i :: 0 <= i < |run| ==> run[i] in attempts }

  ghost predicate AdmitsOnce(auth: Authority, run: seq<Attempt>) {
    forall i, j :: 0 <= i < j < |run| && SameProof(auth, run[i], run[j]) ==>
      !(Admitted(auth, run, i) && Admitted(auth, run, j))
  }

  // Attempts that reach the cache with one proof bear one text.
  ghost predicate OneSpelling(auth: Authority, attempts: iset<Attempt>) {
    forall a, b :: a in attempts && b in attempts && Reaches(auth, a) && Reaches(auth, b) && SameProof(auth, a, b) ==>
      Key(a.req) == Key(b.req)
  }

  ghost predicate SingleUse(auth: Authority, attempts: iset<Attempt>) {
    forall run :: Over(run, attempts) && ClockAscends(auth, run) ==> AdmitsOnce(auth, run)
  }

  /**
   A possession proof is single-use, in every run with an ascending clock over the given attempts,
   exactly if no two of those attempts spell one proof differently.
   */
  lemma ProofsAreSingleUseIff(auth: Authority, attempts: iset<Attempt>)
    ensures SingleUse(auth, attempts) <==> OneSpelling(auth, attempts)
  {
    if OneSpelling(auth, attempts) {
      forall run | Over(run, attempts) && ClockAscends(auth, run) ensures AdmitsOnce(auth, run) {
        OneSpellingAdmitsOnce(auth, attempts, run);
      }
    }
    forall a, b | a in attempts && b in attempts && Reaches(auth, a) && Reaches(auth, b) && SameProof(auth, a, b)
                  && Key(a.req) != Key(b.req) && a.now <= b.now
      ensures !SingleUse(auth, attempts)
    {
      BothSpellingsAdmitted(auth, a, b);
      assert Over([a, b], attempts);
    }
  }

  lemma OneSpellingAdmitsOnce(auth: Authority, attempts: iset<Attempt>, run: seq<Attempt>)
    requires OneSpelling(auth, attempts) && Over(run, attempts) && ClockAscends(auth, run)
    ensures AdmitsOnce(auth, run)
  {
    forall i, j | 0 <= i < j < |run| && SameProof(auth, run[i], run[j])
      ensures !(Admitted(auth, run, i) && Admitted(auth, run, j))
    {
      if Admitted(auth, run, i) && Admitted(auth, run, j) {
        TextsAreSingleUse(auth, run, i, j);
        assert false;
      }
    }
  }

  lemma BothSpellingsAdmitted(auth: Authority, a: Attempt, b: Attempt)
    requires Reaches(auth, a) && Reaches(auth, b) && SameProof(auth, a, b) && Key(a.req) != Key(b.req) && a.now <= b.now
    ensures ClockAscends(auth, [a, b]) && Admitted(auth, [a, b], 0) && Admitted(auth, [a, b], 1)
    ensures !AdmitsOnce(auth, [a, b])
  {
    var run := [a, b];
    assert Cache(auth, run, 0) == map[] && run[0] == a && run[1] == b;
    assert Admitted(auth, run, 0);
    AdmittedAgainIff(auth, run, 0, 1);
  }

  // A way to meet the condition: nonces without capitals and plus signs, and one text per volume.
  lemma CanonicalTextsAreOneSpelling(auth: Authority, attempts: iset<Attempt>)
    requires forall s :: auth.hex(s) == DecodeHex(s)
    requires forall a :: a in attempts ==> Canonical(a.req.nonce) == a.req.nonce
    requires forall a, b :: a in attempts && b in attempts && auth.ulid(a.req.owned) == auth.ulid(b.req.owned) ==>
                              a.req.owned == b.req.owned
    ensures OneSpelling(auth, attempts) && SingleUse(auth, attempts)
  {
    forall a, b | a in attempts && b in attempts && Reaches(auth, a) && Reaches(auth, b) && SameProof(auth, a, b)
      ensures Key(a.req) == Key(b.req)
    {
      SameBytesIff(a.req.nonce, b.req.nonce);
    }
    ProofsAreSingleUseIff(auth, attempts);
  }

  // Every attempt that reaches the cache leaves in it only entries at most `2 * skew` old.
  lemma EntriesAreRecent(auth: Authority, run: seq<Attempt>, n: nat, key: (string, string))
    requires 0 < n <= |run| && Reaches(auth, run[n - 1]) && key in Cache(auth, run, n)
    ensures run[n - 1].now <= Cache(auth, run, n)[key] + 2 * auth.skew
  {
    var seen := Cache(auth, run, n - 1);
    assert Cache(auth, run, n) == Record(seen, Key(run[n - 1].req), run[n - 1].now, Bound(auth.skew));
  }

  // ---- one discharge ----

  // `target` is in the read set the signed lineage of `owned` gives.
  ghost predicate InReadSet(provs: Lineage.Store, owned: Ulid, key: VerifyingKey, target: Ulid) {
    exists links ::
      Lineage.Complete(provs, owned, key, links) && Lineage.Fresh(links) && target in Lineage.ReadSet(links)
  }

  ghost predicate Possesses(auth: Authority, a: Attempt)
    requires Decodes(auth, a.req)
  {
    var owned := auth.ulid(a.req.owned).value;
    && owned in a.control.pubs && a.control.pubs[owned].Readable?
    && auth.possession(a.control.pubs[owned].value, owned, auth.ulid(a.req.target).value, auth.hex(a.req.cid).value,
                       a.req.ts, auth.hex(a.req.nonce).value, auth.hex(a.req.proof).value)
  }

  // The name binds `owned` now, in any state but Released.
  ghost predicate LivelyBound(auth: Authority, a: Attempt)
    requires Decodes(auth, a.req)
  {
    && a.req.name in a.control.names && a.control.names[a.req.name].Readable?
    && a.control.names[a.req.name].value.vol == auth.ulid(a.req.owned).value
    && a.control.names[a.req.name].value.state != Released
  }

  ghost predicate ModeAllows(auth: Authority, a: Attempt, mode: Bytes, ttl: nat)
    requires Decodes(auth, a.req) && Possesses(auth, a)
  {
    var owned, target := auth.ulid(a.req.owned).value, auth.ulid(a.req.target).value;
    || (mode == MODE_VOLUME_RW && target == owned && ttl == VOLUME_RW_DISCHARGE_TTL_SECS)
    || (mode == MODE_VOLUME_RO && InReadSet(a.control.provs, owned, a.control.pubs[owned].value, target)
        && ttl == VOLUME_RO_DISCHARGE_TTL_SECS)
  }

  // What the control plane and the mode `x` carries say of the attempt, and the grant that follows.
  ghost predicate Earns(auth: Authority, a: Attempt, x: Cid.AttestedCid, g: Grant)
    requires Decodes(auth, a.req)
  {
    && Possesses(auth, a) && LivelyBound(auth, a)
    && a.now <= g.exp && ModeAllows(auth, a, x.mode, g.exp - a.now)
    && g.r == x.r && g.ticket == auth.ticket(auth.hex(a.req.cid).value) && g.volume == auth.ulid(a.req.target).value
  }

  // `x` is what mint sealed, and the proof is fresh and unused.
  ghost predicate Admits(auth: Authority, seen: Seen, a: Attempt, x: Cid.AttestedCid)
    requires Decodes(auth, a.req)
  {
    && Recovers(auth, auth.hex(a.req.cid).value, x)
    && AbsDiff(a.now, a.req.ts) <= auth.skew && Key(a.req) !in Retain(seen, a.now, Bound(auth.skew))
  }

  // Everything a grant stands for: the attempt is admitted with `x`, and `g` is earned.
  ghost predicate Entitles(auth: Authority, seen: Seen, a: Attempt, x: Cid.AttestedCid, g: Grant) {
    Decodes(auth, a.req) && Admits(auth, seen, a, x) && Earns(auth, a, x, g)
  }

  // Along an ascending clock, two grants on one proof are one attempt or two spellings, whatever the store does.
  lemma RequestsEarnOneGrant(auth: Authority, run: seq<Attempt>, i: nat, j: nat,
                             x: Cid.AttestedCid, g: Grant, y: Cid.AttestedCid, h: Grant)
    requires i < |run| && j < |run| && ClockAscends(auth, run) && SameProof(auth, run[i], run[j])
    requires Entitles(auth, Cache(auth, run, i), run[i], x, g) && Entitles(auth, Cache(auth, run, j), run[j], y, h)
    ensures i == j || Key(run[i].req) != Key(run[j].req)
  {
    assert Admitted(auth, run, i) && Admitted(auth, run, j);
    if i < j && Key(run[i].req) == Key(run[j].req) {
      TextsAreSingleUse(auth, run, i, j);
      assert false;
    } else if j < i && Key(run[i].req) == Key(run[j].req) {
      TextsAreSingleUse(auth, run, j, i);
      assert false;
    }
  }

  // And two spellings do: the grant of any entitled attempt is earned again with its nonce written differently.
  lemma RespelledProofEarnsAgain(auth: Authority, a: Attempt, nonce: string, x: Cid.AttestedCid, g: Grant)
    requires Entitles(auth, map[], a, x, g)
    requires nonce != a.req.nonce && auth.hex(nonce) == auth.hex(a.req.nonce)
    ensures var b := a.(req := a.req.(nonce := nonce));
            && SameProof(auth, a, b) && ClockAscends(auth, [a, b])
            && Entitles(auth, Cache(auth, [a, b], 0), a, x, g) && Entitles(auth, Cache(auth, [a, b], 1), b, x, g)
  {
    var b := a.(req := a.req.(nonce := nonce));
    BothSpellingsAdmitted(auth, a, b);
    assert Cache(auth, [a, b], 0) == map[] && [a, b][1] == b;
  }

  class DischargeState {
    const auth: Authority
    var seen: Seen

    constructor (auth: Authority)
      ensures this.auth == auth && seen == map[]
    {
      this.auth := auth;
      seen := map[];
    }

    method CheckAndRecordNonce(owned: string, nonce: string, now: U64) returns (ok: bool)
      modifies this`seen
      ensures seen == Record(old(seen), (owned, nonce), now, Bound(auth.skew))
      ensures ok <==> (owned, nonce) !in Retain(old(seen), now, Bound(auth.skew))
    {
      var bound := Bound(auth.skew);
      seen := Retain(seen, now, bound);
      if (owned, nonce) in seen {
        return false;
      }
      seen := seen[(owned, nonce) := now];
      return true;
    }

    method Recover(cid: Bytes) returns (r: Option<Cid.AttestedCid>)
      ensures forall x :: r == Some(x) <==> Recovers(auth, cid, x)
    {
      var got := Cid.DecryptCidAttested(auth.cipher, cid);
      forall x ensures got == Ok(x) <==> Recovers(auth, cid, x) {}
      return if got.Ok? then Some(got.value) else None;
    }

    // Possession, liveness, and the lineage for `volume-ro`; then the grant.
    method Judge(a: Attempt, x: Cid.AttestedCid) returns (r: Result<Grant, Error>)
      requires Decodes(auth, a.req)
      requires x.mode == MODE_VOLUME_RO
               || (x.mode == MODE_VOLUME_RW && auth.ulid(a.req.target) == auth.ulid(a.req.owned))
      ensures forall g :: r == Ok(g) <==> Earns(auth, a, x, g)
      ensures r == Err(Backend) <==>
              var owned := auth.ulid(a.req.owned).value;
              || (owned in a.control.pubs && a.control.pubs[owned].Faulty?)
              || (Possesses(auth, a) && a.req.name in a.control.names && a.control.names[a.req.name].Faulty?)
      ensures r != Err(Malformed)
    {
      var owned, target := auth.ulid(a.req.owned).value, auth.ulid(a.req.target).value;
      if owned !in a.control.pubs || a.control.pubs[owned].Garbled? {
        return Err(Denied);
      }
      if a.control.pubs[owned].Faulty? {
        return Err(Backend);
      }
      var ownedPub := a.control.pubs[owned].value;
      if !auth.possession(ownedPub, owned, target, auth.hex(a.req.cid).value, a.req.ts,
                          auth.hex(a.req.nonce).value, auth.hex(a.req.proof).value) {
        return Err(Denied);
      }
      if a.req.name !in a.control.names || a.control.names[a.req.name].Garbled? {
        return Err(Denied);
      }
      if a.control.names[a.req.name].Faulty? {
        return Err(Backend);
      }
      var record := a.control.names[a.req.name].value;
      if record.vol != owned || record.state == Released {
        return Err(Denied);
      }
      if x.mode == MODE_VOLUME_RW {
        return Ok(Grant(x.r, auth.ticket(auth.hex(a.req.cid).value), target, a.now + VOLUME_RW_DISCHARGE_TTL_SECS));
      }
      var readSet := ReadSetOf(a.control.provs, owned, ownedPub);
      if readSet.Err? || target !in readSet.value {
        return Err(Denied);
      }
      return Ok(Grant(x.r, auth.ticket(auth.hex(a.req.cid).value), target, a.now + VOLUME_RO_DISCHARGE_TTL_SECS));
    }

    // Steps 1 and 2: open the CID, then freshness and single use.
    method Admit(a: Attempt) returns (r: Option<Cid.AttestedCid>)
      requires Decodes(auth, a.req)
      modifies this`seen
      ensures forall x :: r == Some(x) <==> Admits(auth, old(seen), a, x)
      ensures seen == After(auth, old(seen), a)
    {
      var recovered := Recover(auth.hex(a.req.cid).value);
      if recovered.None? {
        return None;
      }
      assert Recovers(auth, auth.hex(a.req.cid).value, recovered.value);
      if AbsDiff(a.now, a.req.ts) > auth.skew {
        return None;
      }
      var unused := CheckAndRecordNonce(a.req.owned, a.req.nonce, a.now);
      return if unused then recovered else None;
    }

    /**
     Grants exactly what the attempt is entitled to, and records the nonce whether or not a later
     check denies. The cache moves as the run function says, so the lemmas above are about it.
     */
    method Discharge(a: Attempt) returns (r: Result<Grant, Error>)
      modifies this`seen
      ensures r.Ok? ==> exists x :: Entitles(auth, old(seen), a, x, r.value)
      ensures forall x, g :: Entitles(auth, old(seen), a, x, g) ==> r == Ok(g)
      ensures r == Err(Malformed) <==> !Decodes(auth, a.req)
      ensures seen == After(auth, old(seen), a)
    {
      if !Decodes(auth, a.req) {
        return Err(Malformed);
      }
      var admitted := Admit(a);
      if admitted.None? {
        return Err(Denied);
      }
      var x := admitted.value;
      if x.mode == MODE_VOLUME_RW {
        if auth.ulid(a.req.target) != auth.ulid(a.req.owned) {
          return Err(Denied);
        }
      } else if x.mode != MODE_VOLUME_RO {
        return Err(Denied);
      }
      r := Judge(a, x);
      assert r.Ok? ==> Entitles(auth, old(seen), a, x, r.value);
    }
  }

  // The walk's result is the read set, when there is one.
  method ReadSetOf(provs: Lineage.Store, owned: Ulid, key: VerifyingKey) returns (r: Result<set<Ulid>, Lineage.Error>)
    ensures forall target :: InReadSet(provs, owned, key, target) <==> r.Ok? && target in r.value
  {
    ghost var links;
    r, links := Lineage.WalkLineageSet(provs, owned, key);
    forall target ensures InReadSet(provs, owned, key, target) <==> r.Ok? && target in r.value {
      forall other: seq<Lineage.Link>
        | Lineage.Complete(provs, owned, key, other) && Lineage.Complete(provs, owned, key, links)
        ensures other == links
      {
        Lineage.OneCompleteChain(provs, owned, key, other, links);
      }
    }
  }
}
