/**
 The foreign-claim protocol: any number of claim jobs, on any coordinators,
 race for one name against a shared bucket, and any of them may stop (crash or
 fail) between any two steps.

 The bucket holds the history of `names/<name>` (its length is the object
 version a conditional PUT compares), the published keys and provenance and the snapshot
 manifests. Every job carries its stage; every fork directory is a set of files.
 A step that is not enabled leaves the world as it is, so a run is just a
 sequence of actions.
 */
module Claim {
  import opened Volumes
  import opened Wrappers

  datatype Pin = Pin(vol: Ulid, snap: Ulid)

  // A published snapshot manifest, with the set of segments it exposes.
  datatype Snapshot = Snapshot(segs: seq<Ulid>, content: set<Ulid>)

  datatype NameState = Live | Stopped | Released | Readonly | Importing

  datatype Record = Record(state: NameState, vol: Ulid, handoff: Option<Ulid>, parent: Option<Pin>)

  datatype File = Claiming | Key | Pub | Prov | Toml | Wal | Pending | StoppedMark

  // What a job has completed. `Signed` is also where the two uploads run in parallel.
  datatype Stage =
    | Routed | DirMade | Guarded | KeyWritten | Keyed | Signed | Marking | Bound | Configured
    | Resolved | Resigned | Anchored | WalMade | PendingMade | Linked | Parked | Opened | Done

  function Rank(st: Stage): nat {
    match st
    case Routed => 0 case DirMade => 1 case Guarded => 2 case KeyWritten => 3 case Keyed => 4
    case Signed => 5 case Marking => 6 case Bound => 7 case Configured => 8 case Resolved => 9
    case Resigned => 10 case Anchored => 11 case WalMade => 12 case PendingMade => 13
    case Linked => 14 case Parked => 15 case Opened => 16 case Done => 17
  }

  /**
   `readAt` is the version of the name record the job was routed on and `src` the
   released fork and handoff it found there; `markAt` is the version `mark_claimed`
   read; `path` is the skip walk so far, from `src` to the effective ancestor.
   */
  datatype Job = Job(
    alive: bool, stage: Stage, readAt: nat, src: Pin, fork: Ulid,
    pubUp: bool, provUp: bool, markAt: nat, path: seq<Pin>)
  {
    predicate HasDir() { Rank(stage) >= 1 }
    predicate Took() { Rank(stage) >= 7 }
  }

  /**
   The shared bucket. `names` is the history of the name record. `published`
   remembers every provenance ever uploaded, because a walk may read a skeleton
   pulled before the fork's provenance was rewritten. `floors` and `bases` record,
   per fork with a parent, the snapshot it branched at and what it inherited there.
   */
  datatype Bucket = Bucket(
    names: seq<Option<Record>>,
    used: set<Ulid>,
    pubs: set<Ulid>,
    provs: map<Ulid, Option<Pin>>,
    published: set<(Ulid, Option<Pin>)>,
    snaps: map<Pin, Snapshot>,
    floors: map<Ulid, Ulid>,
    bases: map<Ulid, set<Ulid>>)

  datatype World = World(b: Bucket, jobs: map<nat, Job>, dirs: map<Ulid, set<File>>)

  datatype Action =
    // Everyone else: volume creation, forks, snapshot publication, lifecycle verbs.
    | CreateRoot(u: Ulid)
    | ForkFrom(u: Ulid, q: Pin)
    | Publish(v: Ulid, s: Ulid, segs: seq<Ulid>)
    | WriteName(r: Option<Record>)
    // The claim jobs.
    | StartClaim(j: nat)
    | MintDir(j: nat, u: Ulid)
    | Advance(j: nat)
    | UploadPub(j: nat)
    | UploadProv(j: nat)
    | MarkRead(j: nat)
    | MarkPut(j: nat)
    | Configure(j: nat)
    | WalkStep(j: nat, p: Option<Pin>)
    | Anchor(j: nat)
    | Stop(j: nat)

  const Genesis := World(Bucket([None], {}, {}, map[], {}, map[], map[], map[]), map[], map[])

  function SetOf(s: seq<Ulid>): set<Ulid> { set x | x in s }

  function Forks(jobs: map<nat, Job>): set<Ulid> { set j | j in jobs && jobs[j].HasDir() :: jobs[j].fork }

  function Current(b: Bucket): Option<Record>
    requires |b.names| > 0
  {
    b.names[|b.names| - 1]
  }

  // ---- writes to the bucket ----

  function PutRoot(b: Bucket, u: Ulid): Bucket {
    b.(used := b.used + {u}, pubs := b.pubs + {u}, provs := b.provs[u := None],
       published := b.published + {(u, None)})
  }

  // First provenance of a fork branching at `q`.
  function PutProv(b: Bucket, u: Ulid, q: Pin): Bucket
    requires q in b.snaps
  {
    b.(provs := b.provs[u := Some(q)], published := b.published + {(u, Some(q))},
       floors := b.floors[u := q.snap], bases := b.bases[u := b.snaps[q].content])
  }

  // The rewrite `finalize` makes.
  function ReplaceProv(b: Bucket, u: Ulid, q: Pin): Bucket {
    b.(provs := b.provs[u := Some(q)], published := b.published + {(u, Some(q))})
  }

  function PutName(b: Bucket, r: Option<Record>): Bucket { b.(names := b.names + [r]) }

  /**
   The owner of `v` publishes a snapshot. Its ULIDs are minted above the snapshot
   the fork branched at: every listed segment is inherited or newer than it.
   */
  function PutSnapshot(b: Bucket, v: Ulid, s: Ulid, segs: seq<Ulid>): Bucket {
    var q := Pin(v, s);
    if v !in b.provs || q in b.snaps || !Ascending(segs) then b
    else if v !in b.floors || v !in b.bases then
      b.(snaps := b.snaps[q := Snapshot(segs, SetOf(segs))])
    else if s > b.floors[v] && forall x :: x in segs ==> x in b.bases[v] || x > b.floors[v] then
      b.(snaps := b.snaps[q := Snapshot(segs, b.bases[v] + SetOf(segs))])
    else b
  }

  // ---- steps of everyone else ----

  function StepCreateRoot(w: World, u: Ulid): World {
    if u in w.b.used then w else w.(b := PutRoot(w.b, u))
  }

  function StepForkFrom(w: World, u: Ulid, q: Pin): World {
    if u in w.b.used || q !in w.b.snaps then w
    else w.(b := PutProv(w.b.(used := w.b.used + {u}, pubs := w.b.pubs + {u}), u, q))
  }

  /**
   A lifecycle verb rewrites the record: it keeps the bound fork (start, stop,
   release, in-place reclaim), binds a fork of its own (create, import, forced
   claim), or deletes the record. A release publishes its handoff first.
   */
  predicate MayWrite(b: Bucket, forks: set<Ulid>, r: Record)
    requires |b.names| > 0
  {
    && r.vol in b.pubs && r.vol in b.provs
    && (r.handoff.Some? ==> Pin(r.vol, r.handoff.value) in b.snaps)
    && ((Current(b).Some? && Current(b).value.vol == r.vol) || r.vol !in forks)
  }

  function StepWriteName(w: World, r: Option<Record>): World {
    if |w.b.names| == 0 || (r.Some? && !MayWrite(w.b, Forks(w.jobs), r.value)) then w
    else w.(b := PutName(w.b, r))
  }

  // ---- steps of a claim job ----

  function StepStartClaim(w: World, j: nat): World {
    if j in w.jobs || |w.b.names| == 0 then w
    else match Current(w.b)
      case Some(Record(Released, vol, Some(h), _)) =>
        var job := Job(true, Routed, |w.b.names| - 1, Pin(vol, h), 0, false, false, 0, []);
        w.(jobs := w.jobs[j := job])
      case _ => w
  }

  predicate At(w: World, j: nat, st: Stage) { j in w.jobs && w.jobs[j].alive && w.jobs[j].stage == st }

  function Halt(w: World, j: nat): World
    requires j in w.jobs
  {
    w.(jobs := w.jobs[j := w.jobs[j].(alive := false)])
  }

  // Job `j` becomes `job`, and its fork directory holds `files`.
  function Enter(w: World, j: nat, job: Job, files: set<File>): World {
    World(w.b, w.jobs[j := job], w.dirs[job.fork := files])
  }

  function StepMintDir(w: World, j: nat, u: Ulid): World {
    if At(w, j, Routed) && u !in w.b.used then
      Enter(w, j, w.jobs[j].(stage := DirMade, fork := u), {}).(b := w.b.(used := w.b.used + {u}))
    else w
  }

  // The local filesystem steps, in the order the source makes them.
  function NextLocal(st: Stage): Option<(Stage, set<File>, set<File>)> {
    match st
    case DirMade => Some((Guarded, {Claiming}, {}))
    case Guarded => Some((KeyWritten, {Key}, {}))
    case KeyWritten => Some((Keyed, {Pub}, {}))
    case Keyed => Some((Signed, {Prov}, {}))
    case Resolved => Some((Resigned, {}, {}))
    case Anchored => Some((WalMade, {Wal}, {}))
    case WalMade => Some((PendingMade, {Pending}, {}))
    case PendingMade => Some((Linked, {}, {}))
    case Linked => Some((Parked, {StoppedMark}, {}))
    case Parked => Some((Opened, {}, {Claiming}))
    case Opened => Some((Done, {}, {}))
    case _ => None
  }

  function StepAdvance(w: World, j: nat): World {
    if j !in w.jobs || !w.jobs[j].alive || w.jobs[j].fork !in w.dirs then w
    else
      var job := w.jobs[j];
      match NextLocal(job.stage)
      case None => w
      case Some((st, add, remove)) =>
        // Signing the provisional provenance needs the released volume's published key.
        if st == Signed && job.src.vol !in w.b.pubs then Halt(w, j)
        else Enter(w, j, job.(stage := st), w.dirs[job.fork] + add - remove)
  }

  function StepUploadPub(w: World, j: nat): World {
    if At(w, j, Signed) then
      w.(b := w.b.(pubs := w.b.pubs + {w.jobs[j].fork}), jobs := w.jobs[j := w.jobs[j].(pubUp := true)])
    else w
  }

  function StepUploadProv(w: World, j: nat): World {
    if At(w, j, Signed) && w.jobs[j].src in w.b.snaps then
      w.(b := PutProv(w.b, w.jobs[j].fork, w.jobs[j].src), jobs := w.jobs[j := w.jobs[j].(provUp := true)])
    else w
  }

  // `mark_claimed`, first half: read the record and its version; anything but Released is refused.
  function StepMarkRead(w: World, j: nat): World {
    if At(w, j, Signed) && w.jobs[j].pubUp && w.jobs[j].provUp && |w.b.names| > 0 then
      if Current(w.b).Some? && Current(w.b).value.state == Released then
        w.(jobs := w.jobs[j := w.jobs[j].(stage := Marking, markAt := |w.b.names| - 1)])
      else Halt(w, j)
    else w
  }

  function ParentPin(r: Record): Option<Pin> {
    match r.handoff case None => None case Some(h) => Some(Pin(r.vol, h))
  }

  // `mark_claimed`, second half: the PUT succeeds only at the version that was read.
  function StepMarkPut(w: World, j: nat): World {
    if At(w, j, Marking) && |w.b.names| > 0 then
      var job := w.jobs[j];
      if job.markAt == |w.b.names| - 1 && Current(w.b).Some? then
        w.(b := PutName(w.b, Some(Record(Stopped, job.fork, None, ParentPin(Current(w.b).value)))),
           jobs := w.jobs[j := job.(stage := Bound)])
      else Halt(w, j)
    else w
  }

  // Re-read the record for the size, write the local config, and start the skip walk at `src`.
  function StepConfigure(w: World, j: nat): World {
    if At(w, j, Bound) && |w.b.names| > 0 && w.jobs[j].fork in w.dirs then
      var job := w.jobs[j];
      if Current(w.b).None? then Halt(w, j)
      else Enter(w, j, job.(stage := Configured, path := [job.src]), w.dirs[job.fork] + {Toml})
    else w
  }

  // One iteration of the skip walk over any provenance `p` ever published for the current fork.
  function StepWalk(w: World, j: nat, p: Option<Pin>): World {
    if At(w, j, Configured) && |w.jobs[j].path| > 0 then
      var job := w.jobs[j];
      var cur := job.path[|job.path| - 1];
      if (cur.vol, p) !in w.b.published || cur !in w.b.snaps then w
      else if p.Some? && IsEmpty(w.b.snaps[cur].segs, p.value.snap) then
        w.(jobs := w.jobs[j := job.(path := job.path + [p.value])])
      else w.(jobs := w.jobs[j := job.(stage := Resolved)])
    else w
  }

  // `finalize` publishes the provenance that pins the effective ancestor.
  function StepAnchor(w: World, j: nat): World {
    if At(w, j, Resigned) && |w.jobs[j].path| > 0 then
      var job := w.jobs[j];
      w.(b := ReplaceProv(w.b, job.fork, job.path[|job.path| - 1]), jobs := w.jobs[j := job.(stage := Anchored)])
    else w
  }

  function StepStop(w: World, j: nat): World {
    if j in w.jobs then Halt(w, j) else w
  }

  function Step(w: World, a: Action): World {
    match a
    case CreateRoot(u) => StepCreateRoot(w, u)
    case ForkFrom(u, q) => StepForkFrom(w, u, q)
    case Publish(v, s, segs) => w.(b := PutSnapshot(w.b, v, s, segs))
    case WriteName(r) => StepWriteName(w, r)
    case StartClaim(j) => StepStartClaim(w, j)
    case MintDir(j, u) => StepMintDir(w, j, u)
    case Advance(j) => StepAdvance(w, j)
    case UploadPub(j) => StepUploadPub(w, j)
    case UploadProv(j) => StepUploadProv(w, j)
    case MarkRead(j) => StepMarkRead(w, j)
    case MarkPut(j) => StepMarkPut(w, j)
    case Configure(j) => StepConfigure(w, j)
    case WalkStep(j, p) => StepWalk(w, j, p)
    case Anchor(j) => StepAnchor(w, j)
    case Stop(j) => StepStop(w, j)
  }

  function Run(w: World, acts: seq<Action>): World
    decreases |acts|
  {
    if |acts| == 0 then w else Run(Step(w, acts[0]), acts[1..])
  }

  // ---- the invariant ----

  // The files a fork directory holds once its job has reached a stage.
  function FilesAt(st: Stage): set<File> {
    match st
    case Routed | DirMade => {}
    case Guarded => {Claiming}
    case KeyWritten => {Claiming, Key}
    case Keyed => {Claiming, Key, Pub}
    case Signed | Marking | Bound => {Claiming, Key, Pub, Prov}
    case Configured | Resolved | Resigned | Anchored => {Claiming, Key, Pub, Prov, Toml}
    case WalMade => {Claiming, Key, Pub, Prov, Toml, Wal}
    case PendingMade | Linked => {Claiming, Key, Pub, Prov, Toml, Wal, Pending}
    case Parked => {Claiming, Key, Pub, Prov, Toml, Wal, Pending, StoppedMark}
    case Opened | Done => {Key, Pub, Prov, Toml, Wal, Pending, StoppedMark}
  }

  // Every published parent pin names an existing snapshot, at or below the fork's
  // branch point, exposing exactly what the fork inherited.
  ghost predicate ProvOk(b: Bucket, v: Ulid, p: Option<Pin>) {
    && v in b.provs
    && match p
       case None => v !in b.floors
       case Some(q) =>
         && q in b.snaps && v in b.floors && v in b.bases
         && q.snap <= b.floors[v] && b.snaps[q].content == b.bases[v]
  }

  ghost predicate SnapOk(b: Bucket, q: Pin)
    requires q in b.snaps
  {
    && q.vol in b.provs && Ascending(b.snaps[q].segs)
    && (q.vol in b.floors ==>
          && q.vol in b.bases && q.snap > b.floors[q.vol]
          && b.snaps[q].content == b.bases[q.vol] + SetOf(b.snaps[q].segs)
          && forall x :: x in b.snaps[q].segs ==> x in b.bases[q.vol] || x > b.floors[q.vol])
  }

  ghost predicate NameOk(b: Bucket, r: Record) {
    && r.vol in b.pubs && r.vol in b.provs
    && (r.handoff.Some? ==> Pin(r.vol, r.handoff.value) in b.snaps)
  }

  ghost predicate BucketOk(b: Bucket) {
    && |b.names| > 0
    && b.pubs <= b.used && b.provs.Keys <= b.used
    && b.floors.Keys == b.bases.Keys <= b.provs.Keys
    && (forall v, p :: (v, p) in b.published ==> ProvOk(b, v, p))
    && (forall q :: q in b.snaps ==> SnapOk(b, q))
    && (forall i :: 0 <= i < |b.names| && b.names[i].Some? ==> NameOk(b, b.names[i].value))
  }

  // Each pin is the parent some published provenance of the one before names.
  ghost predicate Hops(published: set<(Ulid, Option<Pin>)>, path: seq<Pin>)
    decreases |path|
  {
    |path| > 1 ==>
      Hops(published, path[..|path| - 1]) && (path[|path| - 2].vol, Some(path[|path| - 1])) in published
  }

  lemma {:induction false} HopsGrow(published: set<(Ulid, Option<Pin>)>, published': set<(Ulid, Option<Pin>)>,
                                    path: seq<Pin>)
    requires Hops(published, path) && published <= published'
    ensures Hops(published', path)
    decreases |path|
  {
    if |path| > 1 { HopsGrow(published, published', path[..|path| - 1]); }
  }

  // The walk so far: hops along published provenance, all exposing the same content.
  ghost predicate PathOk(b: Bucket, src: Pin, path: seq<Pin>) {
    && |path| > 0 && path[0] == src && src in b.snaps && Hops(b.published, path)
    && (forall q :: q in path ==> q in b.snaps && q.snap <= src.snap && b.snaps[q].content == b.snaps[src].content)
  }

  // The provenance pin the bucket shows for a job's fork.
  function PinAt(job: Job): Pin {
    if Rank(job.stage) >= 11 && |job.path| > 0 then job.path[|job.path| - 1] else job.src
  }

  ghost predicate JobReads(b: Bucket, job: Job) {
    && job.src in b.snaps
    && job.readAt < |b.names| && b.names[job.readAt].Some?
    && b.names[job.readAt].value.state == Released
    && ParentPin(b.names[job.readAt].value) == Some(job.src)
  }

  ghost predicate JobFork(b: Bucket, job: Job) {
    && (job.HasDir() ==> job.fork in b.used)
    && (job.pubUp || job.provUp ==> Rank(job.stage) >= 5)
    && (Rank(job.stage) >= 6 ==> job.pubUp && job.provUp)
    && (job.pubUp ==> job.fork in b.pubs)
    && (job.HasDir() && !job.provUp ==> job.fork !in b.provs)
    && (job.provUp ==>
          && job.fork in b.floors && b.floors[job.fork] == job.src.snap
          && job.fork in b.bases && job.src in b.snaps && b.bases[job.fork] == b.snaps[job.src].content
          && job.fork in b.provs && b.provs[job.fork] == Some(PinAt(job)))
  }

  ghost predicate Unbound(b: Bucket, u: Ulid) {
    forall i :: 0 <= i < |b.names| && b.names[i].Some? ==> b.names[i].value.vol != u
  }

  ghost predicate JobMark(b: Bucket, job: Job) {
    && (Rank(job.stage) >= 6 ==>
          job.markAt < |b.names| && b.names[job.markAt].Some? && b.names[job.markAt].value.state == Released)
    && (job.Took() ==>
          && job.markAt + 1 < |b.names|
          && b.names[job.markAt + 1]
             == Some(Record(Stopped, job.fork, None, ParentPin(b.names[job.markAt].value))))
    && (job.HasDir() && !job.Took() ==> Unbound(b, job.fork))
  }

  ghost predicate JobWalk(b: Bucket, job: Job) { Rank(job.stage) >= 8 ==> PathOk(b, job.src, job.path) }

  ghost predicate JobOk(b: Bucket, job: Job) {
    JobReads(b, job) && JobFork(b, job) && JobMark(b, job) && JobWalk(b, job)
  }

  ghost predicate DirOk(dirs: map<Ulid, set<File>>, job: Job) {
    job.HasDir() ==> job.fork in dirs && dirs[job.fork] == FilesAt(job.stage)
  }

  ghost predicate AllOk(b: Bucket, jobs: map<nat, Job>) { forall j :: j in jobs ==> JobOk(b, jobs[j]) }

  ghost predicate DirsOk(dirs: map<Ulid, set<File>>, jobs: map<nat, Job>) {
    forall j :: j in jobs ==> DirOk(dirs, jobs[j])
  }

  ghost predicate ForksDiffer(jobs: map<nat, Job>) {
    forall i, j :: i in jobs && j in jobs && i != j && jobs[i].HasDir() && jobs[j].HasDir() ==>
      jobs[i].fork != jobs[j].fork
  }

  ghost predicate JobsOk(w: World) { AllOk(w.b, w.jobs) && DirsOk(w.dirs, w.jobs) && ForksDiffer(w.jobs) }

  ghost predicate Inv(w: World) { BucketOk(w.b) && JobsOk(w) }

  // ---- the bucket only grows ----

  ghost predicate Grows(b: Bucket, b': Bucket) {
    && b.names <= b'.names && b.used <= b'.used && b.pubs <= b'.pubs && b.published <= b'.published
    && b.provs.Keys <= b'.provs.Keys
    && (forall v :: v in b.floors ==> v in b'.floors && b'.floors[v] == b.floors[v])
    && (forall v :: v in b.bases ==> v in b'.bases && b'.bases[v] == b.bases[v])
    && (forall q :: q in b.snaps ==> q in b'.snaps && b'.snaps[q] == b.snaps[q])
  }

  // No known fork gains a branch point.
  ghost predicate Settled(b: Bucket, b': Bucket) {
    forall v :: v in b.provs ==> (v in b'.floors <==> v in b.floors)
  }

  lemma KeepBucket(b: Bucket, b': Bucket)
    requires BucketOk(b) && Grows(b, b') && Settled(b, b')
    ensures forall v, p :: (v, p) in b.published ==> ProvOk(b', v, p)
    ensures forall q :: q in b.snaps ==> SnapOk(b', q)
    ensures forall i :: 0 <= i < |b.names| && b.names[i].Some? ==> NameOk(b', b.names[i].value)
  {
    forall v, p | (v, p) in b.published ensures ProvOk(b', v, p) { assert ProvOk(b, v, p); }
    forall q | q in b.snaps ensures SnapOk(b', q) { assert SnapOk(b, q); }
  }

  lemma PutRootOk(b: Bucket, u: Ulid)
    requires BucketOk(b) && u !in b.used
    ensures Grows(b, PutRoot(b, u)) && BucketOk(PutRoot(b, u))
  {
    KeepBucket(b, PutRoot(b, u));
  }

  lemma PutProvOk(b: Bucket, u: Ulid, q: Pin)
    requires BucketOk(b) && u in b.used && u !in b.provs && q in b.snaps
    ensures Grows(b, PutProv(b, u, q)) && BucketOk(PutProv(b, u, q))
  {
    KeepBucket(b, PutProv(b, u, q));
  }

  lemma UseOk(b: Bucket, us: set<Ulid>, ps: set<Ulid>)
    requires BucketOk(b) && ps <= b.used + us
    ensures Grows(b, b.(used := b.used + us, pubs := b.pubs + ps))
    ensures BucketOk(b.(used := b.used + us, pubs := b.pubs + ps))
  {
    KeepBucket(b, b.(used := b.used + us, pubs := b.pubs + ps));
  }

  lemma ReplaceProvOk(b: Bucket, u: Ulid, q: Pin)
    requires BucketOk(b) && u in b.provs && u in b.floors && u in b.bases
    requires q in b.snaps && q.snap <= b.floors[u] && b.snaps[q].content == b.bases[u]
    ensures Grows(b, ReplaceProv(b, u, q)) && BucketOk(ReplaceProv(b, u, q))
  {
    KeepBucket(b, ReplaceProv(b, u, q));
  }

  lemma PutNameOk(b: Bucket, r: Option<Record>)
    requires BucketOk(b) && (r.Some? ==> NameOk(b, r.value))
    ensures Grows(b, PutName(b, r)) && BucketOk(PutName(b, r))
  {
    KeepBucket(b, PutName(b, r));
  }

  lemma PutSnapshotOk(b: Bucket, v: Ulid, s: Ulid, segs: seq<Ulid>)
    requires BucketOk(b)
    ensures Grows(b, PutSnapshot(b, v, s, segs)) && BucketOk(PutSnapshot(b, v, s, segs))
  {
    var b' := PutSnapshot(b, v, s, segs);
    KeepBucket(b, b');
    assert b' != b ==> SnapOk(b', Pin(v, s));
  }

  // ---- jobs ----

  // The fork's provenance stays put, and nobody binds it who did not take the name.
  ghost predicate Spares(b: Bucket, b': Bucket, job: Job) {
    job.HasDir() ==>
      && (job.fork in b'.provs <==> job.fork in b.provs)
      && (job.fork in b.provs ==> b'.provs[job.fork] == b.provs[job.fork])
      && (Unbound(b, job.fork) ==> Unbound(b', job.fork))
  }

  lemma KeepJob(b: Bucket, b': Bucket, job: Job)
    requires JobOk(b, job) && Grows(b, b') && Spares(b, b', job)
    ensures JobOk(b', job)
  {
    assert forall i :: 0 <= i < |b.names| ==> b'.names[i] == b.names[i];
    if Rank(job.stage) >= 8 { HopsGrow(b.published, b'.published, job.path); }
  }

  // Only the bucket moved.
  lemma KeepAllJobs(w: World, b': Bucket)
    requires JobsOk(w) && Grows(w.b, b')
    requires forall i :: i in w.jobs ==> Spares(w.b, b', w.jobs[i])
    ensures JobsOk(w.(b := b'))
  {
    forall i | i in w.jobs ensures JobOk(b', w.jobs[i]) { KeepJob(w.b, b', w.jobs[i]); }
  }

  // `job` replaces job `j`: the same fork, or one nobody has used.
  ghost predicate Succeeds(w: World, j: nat, job: Job) {
    job.HasDir() ==> job.fork !in w.b.used || (j in w.jobs && w.jobs[j].HasDir() && job.fork == w.jobs[j].fork)
  }

  lemma OthersDiffer(w: World, j: nat, job: Job, i: nat)
    requires JobsOk(w) && Succeeds(w, j, job) && i in w.jobs && i != j && w.jobs[i].HasDir() && job.HasDir()
    ensures w.jobs[i].fork != job.fork
  {
    assert JobOk(w.b, w.jobs[i]);
  }

  lemma SucceedsDiffers(w: World, j: nat, job: Job)
    requires JobsOk(w) && Succeeds(w, j, job)
    ensures ForksDiffer(w.jobs[j := job])
    ensures forall i :: i in w.jobs && i != j && w.jobs[i].HasDir() && job.HasDir() ==> w.jobs[i].fork != job.fork
  {
    forall i | i in w.jobs && i != j && w.jobs[i].HasDir() && job.HasDir() ensures w.jobs[i].fork != job.fork {
      OthersDiffer(w, j, job, i);
    }
  }

  lemma PutJobOk(b: Bucket, jobs: map<nat, Job>, j: nat, job: Job)
    requires AllOk(b, jobs) && JobOk(b, job)
    ensures AllOk(b, jobs[j := job])
  {
  }

  lemma PutDirOk(dirs: map<Ulid, set<File>>, dirs': map<Ulid, set<File>>, jobs: map<nat, Job>, j: nat, job: Job)
    requires DirsOk(dirs, jobs) && DirOk(dirs', job)
    requires forall i :: i in jobs && i != j && jobs[i].HasDir() && jobs[i].fork in dirs ==>
                           jobs[i].fork in dirs' && dirs'[jobs[i].fork] == dirs[jobs[i].fork]
    ensures DirsOk(dirs', jobs[j := job])
  {
  }

  // Only job `j` moved.
  lemma MoveJob(w: World, j: nat, job: Job)
    requires JobsOk(w) && Succeeds(w, j, job) && JobOk(w.b, job) && DirOk(w.dirs, job)
    ensures JobsOk(w.(jobs := w.jobs[j := job]))
  {
    SucceedsDiffers(w, j, job);
    PutJobOk(w.b, w.jobs, j, job);
    PutDirOk(w.dirs, w.dirs, w.jobs, j, job);
  }

  // Job `j` moved to a stage with the same files.
  lemma StageMoves(w: World, j: nat, job: Job)
    requires JobsOk(w) && j in w.jobs && w.jobs[j].HasDir() && job.HasDir() && job.fork == w.jobs[j].fork
    requires FilesAt(job.stage) == FilesAt(w.jobs[j].stage) && JobOk(w.b, job)
    ensures JobsOk(w.(jobs := w.jobs[j := job]))
  {
    assert DirOk(w.dirs, w.jobs[j]);
    MoveJob(w, j, job);
  }

  // Job `j` moved and its own directory with it.
  lemma MoveJobDir(w: World, j: nat, job: Job, files: set<File>)
    requires JobsOk(w) && Succeeds(w, j, job) && JobOk(w.b, job) && job.HasDir() && files == FilesAt(job.stage)
    ensures JobsOk(Enter(w, j, job, files))
  {
    SucceedsDiffers(w, j, job);
    PutJobOk(w.b, w.jobs, j, job);
    PutDirOk(w.dirs, w.dirs[job.fork := files], w.jobs, j, job);
  }

  // The bucket changed only in what concerns job `j`'s fork.
  ghost predicate OnlyFork(b: Bucket, b': Bucket, u: Ulid) {
    && Grows(b, b')
    && (forall v :: v != u ==> (v in b'.provs <==> v in b.provs))
    && (forall v :: v != u && v in b.provs ==> b'.provs[v] == b.provs[v])
    && (forall i :: |b.names| <= i < |b'.names| && b'.names[i].Some? ==> b'.names[i].value.vol == u)
  }

  lemma MoveBucket(w: World, j: nat, job: Job, b': Bucket)
    requires JobsOk(w) && j in w.jobs && w.jobs[j].HasDir() && job.HasDir() && job.fork == w.jobs[j].fork
    requires OnlyFork(w.b, b', job.fork) && JobOk(b', job) && DirOk(w.dirs, job)
    ensures JobsOk(World(b', w.jobs[j := job], w.dirs))
  {
    SucceedsDiffers(w, j, job);
    PutDirOk(w.dirs, w.dirs, w.jobs, j, job);
    forall i | i in w.jobs && i != j ensures JobOk(b', w.jobs[i]) { KeepJob(w.b, b', w.jobs[i]); }
  }

  lemma ForksAreUsed(w: World)
    requires JobsOk(w)
    ensures forall j :: j in w.jobs && w.jobs[j].HasDir() ==> w.jobs[j].fork in w.b.used
  {
    forall j | j in w.jobs && w.jobs[j].HasDir() ensures w.jobs[j].fork in w.b.used { assert JobOk(w.b, w.jobs[j]); }
  }

  lemma CreateRootKeeps(w: World, u: Ulid)
    requires Inv(w)
    ensures Inv(StepCreateRoot(w, u))
  {
    if u !in w.b.used {
      PutRootOk(w.b, u);
      ForksAreUsed(w);
      KeepAllJobs(w, PutRoot(w.b, u));
    }
  }

  lemma ForkFromKeeps(w: World, u: Ulid, q: Pin)
    requires Inv(w)
    ensures Inv(StepForkFrom(w, u, q))
  {
    if u !in w.b.used && q in w.b.snaps {
      var b1 := w.b.(used := w.b.used + {u}, pubs := w.b.pubs + {u});
      UseOk(w.b, {u}, {u});
      PutProvOk(b1, u, q);
      ForksAreUsed(w);
      KeepAllJobs(w, PutProv(b1, u, q));
    }
  }

  lemma PublishKeeps(w: World, v: Ulid, s: Ulid, segs: seq<Ulid>)
    requires Inv(w)
    ensures Inv(w.(b := PutSnapshot(w.b, v, s, segs)))
  {
    PutSnapshotOk(w.b, v, s, segs);
    KeepAllJobs(w, PutSnapshot(w.b, v, s, segs));
  }

  lemma WriteNameKeeps(w: World, r: Option<Record>)
    requires Inv(w)
    ensures Inv(StepWriteName(w, r))
  {
    if r.None? || MayWrite(w.b, Forks(w.jobs), r.value) {
      var b' := PutName(w.b, r);
      PutNameOk(w.b, r);
      forall j | j in w.jobs ensures Spares(w.b, b', w.jobs[j]) {
        assert w.jobs[j].HasDir() ==> w.jobs[j].fork in Forks(w.jobs);
      }
      KeepAllJobs(w, b');
    }
  }

  lemma StartClaimKeeps(w: World, j: nat)
    requires Inv(w)
    ensures Inv(StepStartClaim(w, j))
  {
    var w' := StepStartClaim(w, j);
    if w' != w {
      assert NameOk(w.b, Current(w.b).value);
      MoveJob(w, j, w'.jobs[j]);
    }
  }

  // ---- one job's own step ----

  lemma HaltedJob(b: Bucket, job: Job)
    requires JobOk(b, job)
    ensures JobOk(b, job.(alive := false))
  {
    assert PinAt(job.(alive := false)) == PinAt(job);
  }

  lemma MintedJob(b: Bucket, job: Job, u: Ulid)
    requires JobOk(b, job) && job.stage == Routed && BucketOk(b) && u !in b.used
    ensures JobOk(b.(used := b.used + {u}), job.(stage := DirMade, fork := u))
  {
    forall i | 0 <= i < |b.names| && b.names[i].Some? ensures b.names[i].value.vol != u {
      assert NameOk(b, b.names[i].value);
    }
    assert Unbound(b.(used := b.used + {u}), u);
  }

  lemma AdvancedJob(b: Bucket, job: Job)
    requires JobOk(b, job) && NextLocal(job.stage).Some?
    ensures JobOk(b, job.(stage := NextLocal(job.stage).value.0))
  {
    var job' := job.(stage := NextLocal(job.stage).value.0);
    assert PinAt(job') == PinAt(job);
    assert JobFork(b, job') && JobMark(b, job');
  }

  lemma AdvancedDir(dirs: map<Ulid, set<File>>, job: Job)
    requires DirOk(dirs, job) && NextLocal(job.stage).Some?
    ensures var (st, add, remove) := NextLocal(job.stage).value;
            job.fork in dirs && dirs[job.fork] + add - remove == FilesAt(st)
  {
  }

  lemma PubJob(b: Bucket, job: Job)
    requires JobOk(b, job) && job.stage == Signed
    ensures JobOk(b.(pubs := b.pubs + {job.fork}), job.(pubUp := true))
  {
    assert Unbound(b.(pubs := b.pubs + {job.fork}), job.fork);
  }

  lemma ProvJob(b: Bucket, job: Job)
    requires JobOk(b, job) && job.stage == Signed
    ensures JobOk(PutProv(b, job.fork, job.src), job.(provUp := true))
  {
    assert Unbound(PutProv(b, job.fork, job.src), job.fork);
  }

  lemma MarkingJob(b: Bucket, job: Job)
    requires JobOk(b, job) && job.stage == Signed && job.pubUp && job.provUp
    requires |b.names| > 0 && Current(b).Some? && Current(b).value.state == Released
    ensures JobOk(b, job.(stage := Marking, markAt := |b.names| - 1))
  {
    assert PinAt(job.(stage := Marking, markAt := |b.names| - 1)) == PinAt(job);
  }

  lemma BoundJob(b: Bucket, job: Job)
    requires JobOk(b, job) && job.stage == Marking && job.markAt == |b.names| - 1
    ensures JobOk(PutName(b, Some(Record(Stopped, job.fork, None, ParentPin(Current(b).value)))),
                  job.(stage := Bound))
  {
    assert PinAt(job.(stage := Bound)) == PinAt(job);
  }

  lemma ConfiguredJob(b: Bucket, job: Job)
    requires JobOk(b, job) && job.stage == Bound
    ensures JobOk(b, job.(stage := Configured, path := [job.src]))
  {
    assert PinAt(job.(stage := Configured, path := [job.src])) == PinAt(job);
  }

  lemma AnchoredJob(b: Bucket, job: Job)
    requires JobOk(b, job) && job.stage == Resigned
    ensures |job.path| > 0
    ensures JobOk(ReplaceProv(b, job.fork, job.path[|job.path| - 1]), job.(stage := Anchored))
  {
    var pin, job' := job.path[|job.path| - 1], job.(stage := Anchored);
    assert PinAt(job') == pin;
    HopsGrow(b.published, ReplaceProv(b, job.fork, pin).published, job.path);
    assert JobWalk(ReplaceProv(b, job.fork, pin), job');
  }

  // An empty fork's snapshot exposes what its parent pin exposes, at an older snapshot.
  lemma EmptyExposesParent(b: Bucket, cur: Pin, q: Pin)
    requires BucketOk(b) && cur in b.snaps && (cur.vol, Some(q)) in b.published
    requires IsEmpty(b.snaps[cur].segs, q.snap)
    ensures q in b.snaps && b.snaps[q].content == b.snaps[cur].content && q.snap < cur.snap
  {
    assert ProvOk(b, cur.vol, Some(q)) && SnapOk(b, cur);
    var segs, base := b.snaps[cur].segs, b.bases[cur.vol];
    forall x | x in segs ensures x in base {
      assert x <= segs[|segs| - 1];
    }
    assert base + SetOf(segs) == base;
  }

  lemma HoppedJob(b: Bucket, job: Job, q: Pin)
    requires JobOk(b, job) && job.stage == Configured && |job.path| > 0
    requires var cur := job.path[|job.path| - 1];
             && (cur.vol, Some(q)) in b.published && q in b.snaps && cur in b.snaps
             && b.snaps[q].content == b.snaps[cur].content && q.snap < cur.snap
    ensures JobOk(b, job.(path := job.path + [q]))
  {
    var job' := job.(path := job.path + [q]);
    assert PinAt(job') == PinAt(job);
    assert job'.path[..|job.path|] == job.path;
    assert job.path[|job.path| - 1] in job.path;
    assert PathOk(b, job.src, job'.path);
  }

  lemma ResolvedJob(b: Bucket, job: Job)
    requires JobOk(b, job) && job.stage == Configured
    ensures JobOk(b, job.(stage := Resolved))
  {
    assert PinAt(job.(stage := Resolved)) == PinAt(job);
  }

  // ---- every step keeps the invariant ----

  lemma HaltKeeps(w: World, j: nat)
    requires JobsOk(w) && j in w.jobs
    ensures JobsOk(Halt(w, j))
  {
    HaltedJob(w.b, w.jobs[j]);
    MoveJob(w, j, w.jobs[j].(alive := false));
  }

  lemma MintDirKeeps(w: World, j: nat, u: Ulid)
    requires Inv(w)
    ensures Inv(StepMintDir(w, j, u))
  {
    if At(w, j, Routed) && u !in w.b.used {
      var b' := w.b.(used := w.b.used + {u});
      UseOk(w.b, {u}, {});
      assert w.b.(used := w.b.used + {u}, pubs := w.b.pubs + {}) == b';
      MintedJob(w.b, w.jobs[j], u);
      MintedJobs(w, b', j, w.jobs[j].(stage := DirMade, fork := u));
    }
  }

  lemma MintedJobs(w: World, b': Bucket, j: nat, job: Job)
    requires JobsOk(w) && j in w.jobs && job.stage == DirMade && job.fork !in w.b.used
    requires b' == w.b.(used := w.b.used + {job.fork}) && JobOk(b', job)
    ensures JobsOk(Enter(w, j, job, {}).(b := b'))
  {
    ForksAreUsed(w);
    SucceedsDiffers(w, j, job);
    forall i | i in w.jobs ensures JobOk(b', w.jobs[i]) { KeepJob(w.b, b', w.jobs[i]); }
    PutJobOk(b', w.jobs, j, job);
    PutDirOk(w.dirs, w.dirs[job.fork := {}], w.jobs, j, job);
  }

  lemma AdvanceKeeps(w: World, j: nat)
    requires JobsOk(w)
    ensures JobsOk(StepAdvance(w, j))
  {
    if j in w.jobs && w.jobs[j].alive && w.jobs[j].fork in w.dirs && NextLocal(w.jobs[j].stage).Some? {
      var job := w.jobs[j];
      var (st, add, remove) := NextLocal(job.stage).value;
      if st == Signed && job.src.vol !in w.b.pubs {
        HaltKeeps(w, j);
      } else {
        AdvancedJob(w.b, job);
        AdvancedDir(w.dirs, job);
        MoveJobDir(w, j, job.(stage := st), w.dirs[job.fork] + add - remove);
      }
    }
  }

  lemma UploadPubKeeps(w: World, j: nat)
    requires Inv(w)
    ensures Inv(StepUploadPub(w, j))
  {
    if At(w, j, Signed) {
      var job := w.jobs[j];
      var b' := w.b.(pubs := w.b.pubs + {job.fork});
      assert JobFork(w.b, job);
      UseOk(w.b, {}, {job.fork});
      assert w.b.(used := w.b.used + {}, pubs := w.b.pubs + {job.fork}) == b';
      PubJob(w.b, job);
      MoveBucket(w, j, job.(pubUp := true), b');
    }
  }

  lemma UploadProvKeeps(w: World, j: nat)
    requires Inv(w)
    ensures Inv(StepUploadProv(w, j))
  {
    if At(w, j, Signed) && w.jobs[j].src in w.b.snaps {
      var job := w.jobs[j];
      UploadProvOk(w.b, job);
      ProvJob(w.b, job);
      MoveBucket(w, j, job.(provUp := true), PutProv(w.b, job.fork, job.src));
    }
  }

  lemma UploadProvOk(b: Bucket, job: Job)
    requires BucketOk(b) && JobOk(b, job) && job.stage == Signed
    ensures OnlyFork(b, PutProv(b, job.fork, job.src), job.fork) && BucketOk(PutProv(b, job.fork, job.src))
  {
    if job.provUp {
      ReplaceProvOk(b, job.fork, job.src);
      assert PutProv(b, job.fork, job.src) == ReplaceProv(b, job.fork, job.src);
    } else {
      PutProvOk(b, job.fork, job.src);
    }
  }

  lemma MarksRelease(w: World, j: nat)
    requires JobsOk(w) && At(w, j, Signed) && w.jobs[j].pubUp && w.jobs[j].provUp
    requires |w.b.names| > 0 && Current(w.b).Some? && Current(w.b).value.state == Released
    ensures JobsOk(StepMarkRead(w, j))
  {
    MarkingJob(w.b, w.jobs[j]);
    StageMoves(w, j, w.jobs[j].(stage := Marking, markAt := |w.b.names| - 1));
  }

  lemma MarkRefused(w: World, j: nat)
    requires JobsOk(w) && At(w, j, Signed) && w.jobs[j].pubUp && w.jobs[j].provUp
    requires |w.b.names| > 0 && !(Current(w.b).Some? && Current(w.b).value.state == Released)
    ensures JobsOk(StepMarkRead(w, j))
  {
    HaltKeeps(w, j);
  }

  lemma MarkReadKeeps(w: World, j: nat)
    requires JobsOk(w)
    ensures JobsOk(StepMarkRead(w, j))
  {
    if At(w, j, Signed) && w.jobs[j].pubUp && w.jobs[j].provUp && |w.b.names| > 0 {
      if Current(w.b).Some? && Current(w.b).value.state == Released {
        MarksRelease(w, j);
      } else {
        MarkRefused(w, j);
      }
    }
  }

  lemma MarkPutKeeps(w: World, j: nat)
    requires Inv(w)
    ensures Inv(StepMarkPut(w, j))
  {
    if At(w, j, Marking) && |w.b.names| > 0 {
      var job := w.jobs[j];
      if job.markAt == |w.b.names| - 1 && Current(w.b).Some? {
        var r := Record(Stopped, job.fork, None, ParentPin(Current(w.b).value));
        assert JobFork(w.b, job);
        PutNameOk(w.b, Some(r));
        BoundJob(w.b, job);
        MoveBucket(w, j, job.(stage := Bound), PutName(w.b, Some(r)));
      } else {
        HaltKeeps(w, j);
      }
    }
  }

  lemma ConfigureKeeps(w: World, j: nat)
    requires JobsOk(w)
    ensures JobsOk(StepConfigure(w, j))
  {
    if At(w, j, Bound) && |w.b.names| > 0 && w.jobs[j].fork in w.dirs {
      if Current(w.b).None? {
        HaltKeeps(w, j);
      } else {
        var job := w.jobs[j];
        assert DirOk(w.dirs, job);
        ConfiguredJob(w.b, job);
        MoveJobDir(w, j, job.(stage := Configured, path := [job.src]), w.dirs[job.fork] + {Toml});
      }
    }
  }

  // Where one iteration of the walk takes a job.
  function Walked(b: Bucket, job: Job, p: Option<Pin>): Job
    requires |job.path| > 0 && job.path[|job.path| - 1] in b.snaps
  {
    if p.Some? && IsEmpty(b.snaps[job.path[|job.path| - 1]].segs, p.value.snap) then job.(path := job.path + [p.value])
    else job.(stage := Resolved)
  }

  lemma WalkedJob(b: Bucket, job: Job, p: Option<Pin>)
    requires BucketOk(b) && JobOk(b, job) && job.stage == Configured && |job.path| > 0
    requires job.path[|job.path| - 1] in b.snaps && (job.path[|job.path| - 1].vol, p) in b.published
    ensures JobOk(b, Walked(b, job, p))
  {
    var cur := job.path[|job.path| - 1];
    if p.Some? && IsEmpty(b.snaps[cur].segs, p.value.snap) {
      EmptyExposesParent(b, cur, p.value);
      HoppedJob(b, job, p.value);
    } else {
      ResolvedJob(b, job);
    }
  }

  predicate WalkEnabled(w: World, j: nat, p: Option<Pin>) {
    && At(w, j, Configured) && |w.jobs[j].path| > 0
    && var cur := w.jobs[j].path[|w.jobs[j].path| - 1]; (cur.vol, p) in w.b.published && cur in w.b.snaps
  }

  lemma WalkKeepsJob(w: World, j: nat, p: Option<Pin>)
    requires Inv(w) && WalkEnabled(w, j, p)
    ensures JobOk(w.b, Walked(w.b, w.jobs[j], p))
  {
    assert JobOk(w.b, w.jobs[j]);
    WalkedJob(w.b, w.jobs[j], p);
  }

  lemma WalkKeepsJobs(w: World, j: nat, p: Option<Pin>)
    requires JobsOk(w) && (WalkEnabled(w, j, p) ==> JobOk(w.b, Walked(w.b, w.jobs[j], p)))
    ensures JobsOk(StepWalk(w, j, p))
  {
    if WalkEnabled(w, j, p) { StageMoves(w, j, Walked(w.b, w.jobs[j], p)); }
  }

  lemma WalkKeeps(w: World, j: nat, p: Option<Pin>)
    requires Inv(w)
    ensures JobsOk(StepWalk(w, j, p))
  {
    if WalkEnabled(w, j, p) { WalkKeepsJob(w, j, p); }
    WalkKeepsJobs(w, j, p);
  }

  lemma AnchorKeeps(w: World, j: nat)
    requires Inv(w)
    ensures Inv(StepAnchor(w, j))
  {
    if At(w, j, Resigned) && |w.jobs[j].path| > 0 {
      AnchorFacts(w.b, w.jobs[j]) by { assert JobOk(w.b, w.jobs[j]); }
      AnchorMoves(w, j);
    }
  }

  // The bucket with the fork's provenance pinned to the end of the walk.
  function Pinned(b: Bucket, job: Job): Bucket
    requires |job.path| > 0
  {
    ReplaceProv(b, job.fork, job.path[|job.path| - 1])
  }

  lemma AnchorFacts(b: Bucket, job: Job)
    requires BucketOk(b) && JobOk(b, job) && job.stage == Resigned && |job.path| > 0
    ensures OnlyFork(b, Pinned(b, job), job.fork) && BucketOk(Pinned(b, job))
            && JobOk(Pinned(b, job), job.(stage := Anchored))
  {
    AnchorOk(b, job);
    AnchoredJob(b, job);
  }

  lemma AnchorMoves(w: World, j: nat)
    requires JobsOk(w) && At(w, j, Resigned) && |w.jobs[j].path| > 0
    requires var b', job := Pinned(w.b, w.jobs[j]), w.jobs[j];
             OnlyFork(w.b, b', job.fork) && JobOk(b', job.(stage := Anchored))
    ensures JobsOk(StepAnchor(w, j))
  {
    assert DirOk(w.dirs, w.jobs[j]);
    MoveBucket(w, j, w.jobs[j].(stage := Anchored), Pinned(w.b, w.jobs[j]));
  }

  lemma AnchorOk(b: Bucket, job: Job)
    requires BucketOk(b) && JobOk(b, job) && job.stage == Resigned
    ensures |job.path| > 0
    ensures var b' := ReplaceProv(b, job.fork, job.path[|job.path| - 1]); OnlyFork(b, b', job.fork) && BucketOk(b')
  {
    ReplaceProvOk(b, job.fork, job.path[|job.path| - 1]);
  }

  predicate FromOutside(a: Action) { a.CreateRoot? || a.ForkFrom? || a.Publish? || a.WriteName? || a.Stop? }

  lemma OutsideKeeps(w: World, a: Action)
    requires Inv(w) && FromOutside(a)
    ensures Inv(Step(w, a))
  {
    match a
    case CreateRoot(u) => CreateRootKeeps(w, u);
    case ForkFrom(u, q) => ForkFromKeeps(w, u, q);
    case Publish(v, s, segs) => PublishKeeps(w, v, s, segs);
    case WriteName(r) => WriteNameKeeps(w, r);
    case Stop(j) => if j in w.jobs { HaltKeeps(w, j); }
  }

  predicate BuildsFork(a: Action) { a.StartClaim? || a.MintDir? || a.Advance? || a.UploadPub? || a.UploadProv? }

  lemma BuildingKeeps(w: World, a: Action)
    requires Inv(w) && BuildsFork(a)
    ensures Inv(Step(w, a))
  {
    match a
    case StartClaim(j) => StartClaimKeeps(w, j);
    case MintDir(j, u) => MintDirKeeps(w, j, u);
    case Advance(j) => AdvanceKeeps(w, j);
    case UploadPub(j) => UploadPubKeeps(w, j);
    case UploadProv(j) => UploadProvKeeps(w, j);
  }

  lemma TakingKeeps(w: World, a: Action)
    requires Inv(w) && !FromOutside(a) && !BuildsFork(a)
    ensures Inv(Step(w, a))
  {
    match a
    case MarkRead(j) => MarkReadKeeps(w, j);
    case MarkPut(j) => MarkPutKeeps(w, j);
    case Configure(j) => ConfigureKeeps(w, j);
    case WalkStep(j, p) => WalkKeeps(w, j, p);
    case Anchor(j) => AnchorKeeps(w, j);
  }

  lemma StepKeeps(w: World, a: Action)
    requires Inv(w)
    ensures Inv(Step(w, a))
  {
    if FromOutside(a) { OutsideKeeps(w, a); } else if BuildsFork(a) { BuildingKeeps(w, a); } else { TakingKeeps(w, a); }
  }

  lemma {:induction false} RunKeeps(w: World, acts: seq<Action>)
    requires Inv(w)
    ensures Inv(Run(w, acts))
    decreases |acts|
  {
    if |acts| > 0 {
      StepKeeps(w, acts[0]);
      RunKeeps(Step(w, acts[0]), acts[1..]);
    }
  }

  // ---- what holds over every run ----

  ghost predicate Reachable(w: World) { exists acts :: w == Run(Genesis, acts) }

  lemma ReachableOk(w: World)
    requires Reachable(w)
    ensures Inv(w)
  {
    var acts :| w == Run(Genesis, acts);
    RunKeeps(Genesis, acts);
  }

  // The version a claim takes was Released, and the next one binds the taker's fork.
  lemma TakenWasReleased(w: World, j: nat)
    requires Reachable(w) && j in w.jobs && w.jobs[j].Took()
    ensures w.jobs[j].markAt + 1 < |w.b.names|
    ensures w.b.names[w.jobs[j].markAt].Some? && w.b.names[w.jobs[j].markAt].value.state == Released
    ensures w.b.names[w.jobs[j].markAt + 1].Some? && w.b.names[w.jobs[j].markAt + 1].value.vol == w.jobs[j].fork
  {
    ReachableOk(w);
    assert JobOk(w.b, w.jobs[j]);
  }

  // At most one claim takes a given version of the record.
  lemma OneClaimPerRelease(w: World, i: nat, j: nat)
    requires Reachable(w) && i in w.jobs && j in w.jobs && w.jobs[i].Took() && w.jobs[j].Took()
    ensures w.jobs[i].markAt == w.jobs[j].markAt ==> i == j
  {
    ReachableOk(w);
    TakersDiffer(w, i, j);
  }

  lemma TakersDiffer(w: World, i: nat, j: nat)
    requires JobsOk(w) && i in w.jobs && j in w.jobs && w.jobs[i].Took() && w.jobs[j].Took()
    ensures w.jobs[i].markAt == w.jobs[j].markAt ==> i == j
  {
    assert JobOk(w.b, w.jobs[i]) && JobOk(w.b, w.jobs[j]);
  }

  // `to` is reached from `from` by hops along published provenance.
  ghost predicate Reaches(b: Bucket, from: Pin, to: Pin) {
    exists path: seq<Pin> :: PathOk(b, from, path) && path[|path| - 1] == to
  }

  ghost predicate SameContent(b: Bucket, p: Pin, q: Pin) {
    p in b.snaps && q in b.snaps && b.snaps[p].content == b.snaps[q].content
  }

  // The name is bound to the fork of claim `j`.
  ghost predicate Binds(w: World, j: nat) {
    && j in w.jobs && w.jobs[j].HasDir() && |w.b.names| > 0
    && Current(w.b).Some? && Current(w.b).value.vol == w.jobs[j].fork
  }

  /**
   Whenever the name binds the fork of a claim, that claim took the name, the fork's
   key and provenance are published, and the provenance has a parent on the released
   handoff's own chain exposing the same content as the handoff the claim was routed
   on. It exposes the content of the handoff the claim OVERWROTE exactly when those
   two handoffs agree, which `mark_claimed` itself does not check.
   */
  lemma BoundForkIsAnchored(w: World, j: nat)
    requires Reachable(w) && Binds(w, j)
    ensures w.jobs[j].Took() && w.jobs[j].fork in w.b.pubs
    ensures w.jobs[j].fork in w.b.provs && w.b.provs[w.jobs[j].fork].Some?
    ensures Reaches(w.b, w.jobs[j].src, w.b.provs[w.jobs[j].fork].value)
    ensures SameContent(w.b, w.b.provs[w.jobs[j].fork].value, w.jobs[j].src)
    ensures w.jobs[j].markAt < |w.b.names| && w.b.names[w.jobs[j].markAt].Some?
    ensures forall over :: ParentPin(w.b.names[w.jobs[j].markAt].value) == Some(over) ==>
              (SameContent(w.b, w.b.provs[w.jobs[j].fork].value, over) <==> SameContent(w.b, w.jobs[j].src, over))
  {
    ReachableOk(w);
    var job := w.jobs[j];
    assert JobOk(w.b, job);
    assert job.Took();
    assert PathOk(w.b, job.src, if Rank(job.stage) >= 11 then job.path else [job.src]);
    assert Reaches(w.b, job.src, PinAt(job));
  }

  // If the record overwritten is the one read, the new fork continues the released handoff.
  lemma SameRecordContinuesTheHandoff(w: World, j: nat, over: Pin)
    requires Reachable(w) && Binds(w, j)
    requires w.jobs[j].markAt < |w.b.names| && w.jobs[j].readAt < |w.b.names|
    requires w.b.names[w.jobs[j].markAt] == w.b.names[w.jobs[j].readAt]
    requires w.b.names[w.jobs[j].markAt].Some? && ParentPin(w.b.names[w.jobs[j].markAt].value) == Some(over)
    ensures w.jobs[j].fork in w.b.provs && w.b.provs[w.jobs[j].fork].Some?
    ensures SameContent(w.b, w.b.provs[w.jobs[j].fork].value, over)
  {
    BoundForkIsAnchored(w, j);
    ReachableOk(w);
    assert JobOk(w.b, w.jobs[j]);
  }

  // Discovery admits a directory without `volume.claiming` that shows a key or pending work.
  predicate Discovered(dir: set<File>) { Claiming !in dir && (Key in dir || Pending in dir) }

  /**
   At every crash point of every claim: a directory with a key carries a marker, and
   one that discovery admits is complete, parked, bound to the name by its claim, and
   already pinned in the bucket to the effective ancestor.
   */
  lemma NoHalfBuiltForkIsDiscovered(w: World, j: nat)
    requires Reachable(w) && j in w.jobs && w.jobs[j].HasDir()
    ensures w.jobs[j].fork in w.dirs
    ensures Key in w.dirs[w.jobs[j].fork] ==>
              Claiming in w.dirs[w.jobs[j].fork] || StoppedMark in w.dirs[w.jobs[j].fork]
    ensures Discovered(w.dirs[w.jobs[j].fork]) ==>
              && {Key, Pub, Prov, Toml, Wal, Pending, StoppedMark} <= w.dirs[w.jobs[j].fork]
              && w.jobs[j].Took() && |w.jobs[j].path| > 0
              && w.jobs[j].fork in w.b.provs
              && w.b.provs[w.jobs[j].fork] == Some(w.jobs[j].path[|w.jobs[j].path| - 1])
  {
    ReachableOk(w);
    assert JobOk(w.b, w.jobs[j]) && DirOk(w.dirs, w.jobs[j]);
  }

  lemma {:induction false} RunAppend(w: World, xs: seq<Action>, ys: seq<Action>)
    ensures Run(w, xs + ys) == Run(Run(w, xs), ys)
    decreases |xs|
  {
    if |xs| == 0 {
      assert xs + ys == ys;
    } else {
      assert (xs + ys)[1..] == xs[1..] + ys;
      RunAppend(Step(w, xs[0]), xs[1..], ys);
    }
  }

  // ---- why the same-record hypothesis is needed ----

  // A volume is written and released at snapshot 10 ...
  const FirstRelease := [
    CreateRoot(1), WriteName(Some(Record(Live, 1, None, None))), Publish(1, 10, [5]),
    WriteName(Some(Record(Released, 1, Some(10), None)))]
  // ... a claim is routed on that record and publishes its fork ...
  const ClaimStarts := [StartClaim(0), MintDir(0, 2)]
  const ClaimSigns := [Advance(0), Advance(0), Advance(0), Advance(0)]
  const ClaimUploads := [UploadPub(0), UploadProv(0)]
  // ... the owner takes the name back in place, writes, and releases it again at snapshot 20 ...
  const SecondRelease := [
    WriteName(Some(Record(Stopped, 1, Some(10), None))), Publish(1, 20, [5, 15]),
    WriteName(Some(Record(Released, 1, Some(20), None)))]
  // ... and only then does the claim reach `mark_claimed`.
  const ClaimMarks := [MarkRead(0), MarkPut(0)]

  const NamesA := [None, Some(Record(Live, 1, None, None)), Some(Record(Released, 1, Some(10), None))]
  const NamesB := NamesA + [Some(Record(Stopped, 1, Some(10), None)), Some(Record(Released, 1, Some(20), None))]
  const SnapsA := map[Pin(1, 10) := Snapshot([5], {5})]
  const BucketA := Bucket(NamesA, {1}, {1}, map[1 := None], {(1, None)}, SnapsA, map[], map[])
  const BucketB := Bucket(NamesA, {1, 2}, {1, 2}, map[1 := None, 2 := Some(Pin(1, 10))],
                          {(1, None), (2, Some(Pin(1, 10)))}, SnapsA, map[2 := 10], map[2 := {5}])
  const BucketC := BucketB.(names := NamesB, snaps := SnapsA[Pin(1, 20) := Snapshot([5, 15], {5, 15})])
  const JobB := Job(true, Signed, 2, Pin(1, 10), 2, true, true, 0, [])
  const WorldB := Solo(BucketB, JobB)
  const StaleClaim := FirstRelease + ClaimStarts + ClaimSigns + ClaimUploads + SecondRelease + ClaimMarks

  lemma FirstReleaseRun()
    ensures Run(Genesis, FirstRelease) == World(BucketA, map[], map[])
  {
    var w1 := Step(Genesis, FirstRelease[0]);
    var w2 := Step(w1, FirstRelease[1]);
    var w3 := Step(w2, FirstRelease[2]);
    assert SetOf([5]) == {5};
    assert w3 == World(BucketA.(names := NamesA[..2]), map[], map[]);
    assert Step(w3, FirstRelease[3]) == World(BucketA, map[], map[]);
    assert Run(w3, FirstRelease[3..]) == World(BucketA, map[], map[]);
  }

  function Solo(b: Bucket, job: Job): World { World(b, map[0 := job], map[job.fork := FilesAt(job.stage)]) }

  lemma ClaimStartsRun()
    ensures Run(World(BucketA, map[], map[]), ClaimStarts)
            == Solo(BucketA.(used := {1, 2}), JobB.(stage := DirMade, pubUp := false, provUp := false))
  {
    var job := Job(true, Routed, 2, Pin(1, 10), 0, false, false, 0, []);
    var w := World(BucketA, map[0 := job], map[]);
    assert Step(World(BucketA, map[], map[]), StartClaim(0)) == w;
    assert Step(w, MintDir(0, 2)) == Solo(BucketA.(used := {1, 2}), job.(stage := DirMade, fork := 2));
  }

  lemma LocalRun(b: Bucket, job: Job, acts: seq<Action>, st: Stage)
    requires 0 < |acts| && acts[0] == Advance(0) && job.src.vol in b.pubs
    requires job.alive && job.HasDir() && NextLocal(job.stage).Some? && NextLocal(job.stage).value.0 == st
    ensures Run(Solo(b, job), acts) == Run(Solo(b, job.(stage := st)), acts[1..])
  {
    AdvancedDir(Solo(b, job).dirs, job);
    assert Step(Solo(b, job), Advance(0)) == Solo(b, job.(stage := st));
  }

  // Four local steps from an empty directory to a signed provenance.
  lemma ClaimSignsRun(b: Bucket, job: Job, acts: seq<Action>)
    requires job.alive && job.stage == DirMade && job.src.vol in b.pubs
    requires |acts| == 4 && forall i :: 0 <= i < 4 ==> acts[i] == Advance(0)
    ensures Run(Solo(b, job), acts) == Solo(b, job.(stage := Signed))
  {
    TwoLocalSteps(b, job, acts, Guarded, KeyWritten);
    TwoLocalSteps(b, job.(stage := KeyWritten), acts[2..], Keyed, Signed);
    assert acts[2..][2..] == [];
  }

  lemma TwoLocalSteps(b: Bucket, job: Job, acts: seq<Action>, first: Stage, second: Stage)
    requires 1 < |acts| && acts[0] == acts[1] == Advance(0) && job.src.vol in b.pubs && job.alive && job.HasDir()
    requires NextLocal(job.stage).Some? && NextLocal(job.stage).value.0 == first && Rank(first) >= 1
    requires NextLocal(first).Some? && NextLocal(first).value.0 == second
    ensures Run(Solo(b, job), acts) == Run(Solo(b, job.(stage := second)), acts[2..])
  {
    LocalRun(b, job, acts, first);
    LocalRun(b, job.(stage := first), acts[1..], second);
    assert acts[1..][1..] == acts[2..];
  }

  lemma ClaimUploadsRun()
    ensures Run(Solo(BucketA.(used := {1, 2}), JobB.(pubUp := false, provUp := false)), ClaimUploads) ==
              Solo(BucketB, JobB)
  {
    var w1 := Solo(BucketA.(used := {1, 2}), JobB.(pubUp := false, provUp := false));
    var w2 := Solo(BucketA.(used := {1, 2}, pubs := {1, 2}), JobB.(provUp := false));
    assert Step(w1, UploadPub(0)) == w2;
    assert Step(w2, UploadProv(0)) == Solo(BucketB, JobB);
  }

  lemma SecondReleaseRun()
    ensures Run(WorldB, SecondRelease) == WorldB.(b := BucketC)
  {
    var b1 := BucketB.(names := NamesB[..4]);
    assert Step(WorldB, SecondRelease[0]) == WorldB.(b := b1);
    PublishAgain(b1);
    assert Step(WorldB.(b := b1.(snaps := BucketC.snaps)), SecondRelease[2]) == WorldB.(b := BucketC);
    assert SecondRelease[1..][1..] == [SecondRelease[2]];
  }

  lemma PublishAgain(b: Bucket)
    requires b.snaps == SnapsA && b.provs == BucketB.provs && b.floors == BucketB.floors
    ensures PutSnapshot(b, 1, 20, [5, 15]) == b.(snaps := BucketC.snaps)
  {
    assert SetOf([5, 15]) == {5, 15};
  }

  lemma ClaimMarksRun()
    ensures Run(WorldB.(b := BucketC), ClaimMarks)
            == World(PutName(BucketC, Some(Record(Stopped, 2, None, Some(Pin(1, 20))))),
                     map[0 := JobB.(stage := Bound, markAt := 4)], WorldB.dirs)
  {
    var w, rest := WorldB.(b := BucketC), [MarkPut(0)];
    var w1 := w.(jobs := map[0 := JobB.(stage := Marking, markAt := 4)]);
    MarkReadRun();
    MarkPutRun();
    assert ClaimMarks[1..] == rest && rest[1..] == [];
    assert Run(w, ClaimMarks) == Run(w1, rest);
    assert Run(w1, rest) == Run(Step(w1, MarkPut(0)), []);
  }

  lemma MarkReadRun()
    ensures Step(WorldB.(b := BucketC), MarkRead(0))
         == WorldB.(b := BucketC, jobs := map[0 := JobB.(stage := Marking, markAt := 4)])
  {
    assert WorldB.jobs[0 := JobB.(stage := Marking, markAt := 4)] == map[0 := JobB.(stage := Marking, markAt := 4)];
  }

  lemma MarkPutRun()
    ensures Step(WorldB.(b := BucketC, jobs := map[0 := JobB.(stage := Marking, markAt := 4)]), MarkPut(0))
         == World(PutName(BucketC, Some(Record(Stopped, 2, None, Some(Pin(1, 20))))),
                  map[0 := JobB.(stage := Bound, markAt := 4)], WorldB.dirs)
  {
    var job := JobB.(stage := Marking, markAt := 4);
    assert map[0 := job][0 := job.(stage := Bound)] == map[0 := job.(stage := Bound)];
  }

  /**
   Without the hypothesis the law fails: in this run the name ends bound to fork 2,
   whose record says it continues snapshot 20 while its published provenance pins
   snapshot 10, so what was written in between is not reachable through the name.
   */
  lemma StaleReadPinsAnOlderHandoff()
    ensures var w := Run(Genesis, StaleClaim);
            && |w.b.names| > 0
            && Current(w.b) == Some(Record(Stopped, 2, None, Some(Pin(1, 20))))
            && 2 in w.b.provs && w.b.provs[2] == Some(Pin(1, 10))
            && Pin(1, 10) in w.b.snaps && Pin(1, 20) in w.b.snaps
            && !SameContent(w.b, Pin(1, 10), Pin(1, 20))
  {
    StaleRun();
    ClaimMarksRun();
    assert 15 in BucketC.snaps[Pin(1, 20)].content && 15 !in BucketC.snaps[Pin(1, 10)].content;
  }

  lemma StaleRun()
    ensures Run(Genesis, StaleClaim) == Run(WorldB.(b := BucketC), ClaimMarks)
  {
    FirstReleaseRun();
    ClaimStartsRun();
    RunAppend(Genesis, FirstRelease, ClaimStarts);
    ClaimSignsRun(BucketA.(used := {1, 2}), JobB.(stage := DirMade, pubUp := false, provUp := false), ClaimSigns);
    RunAppend(Genesis, FirstRelease + ClaimStarts, ClaimSigns);
    ClaimUploadsRun();
    RunAppend(Genesis, FirstRelease + ClaimStarts + ClaimSigns, ClaimUploads);
    SecondReleaseRun();
    RunAppend(Genesis, FirstRelease + ClaimStarts + ClaimSigns + ClaimUploads, SecondRelease);
    RunAppend(Genesis, FirstRelease + ClaimStarts + ClaimSigns + ClaimUploads + SecondRelease, ClaimMarks);
  }
}
