/**
 One ublk queue: a task per tag, a pool of workers, the channel between them, and
 for each tag a result slot, an eventfd counter and one I/O buffer.

 Every action is one atomic access of the source (a channel operation, a store, an
 eventfd write, a poll completion, ...), so a run is any interleaving of them.
 */
module UblkQueue {

  datatype Op = Read | Write | Flush | Discard | WriteZeroes | OtherOp

  datatype Request = Request(op: Op, fua: bool, off: nat, bytes: nat)

  const EIO := 5
  const EINVAL := 22

  predicate CarriesPayload(op: Op) { op == Read || op == Write }

  // Does the request fit the tag's buffer of `buf` bytes?
  predicate Fits(buf: nat, req: Request) { !CarriesPayload(req.op) || req.bytes <= buf }

  // The truncating cast of a byte count to the kernel's 32-bit result.
  function I32(n: nat): int {
    var m := n % 0x1_0000_0000;
    if m < 0x8000_0000 then m else m - 0x1_0000_0000
  }

  // `dispatch`: the completion status, given whether the volume accepted the operation. Below 2 GiB the
  // cast is exact and the status tells success, a volume error and an unknown operation apart.
  function Dispatch(req: Request, ok: bool): (res: int)
    ensures req.bytes < 0x8000_0000 ==> (res == -EINVAL <==> req.op == OtherOp)
    ensures req.bytes < 0x8000_0000 ==> (res == -EIO <==> req.op != OtherOp && !ok)
    ensures req.bytes < 0x8000_0000 && req.op != OtherOp && ok ==>
              res == if CarriesPayload(req.op) then req.bytes else 0
  {
    match req.op
    case Flush => if ok then 0 else -EIO
    case Read => if ok then I32(req.bytes) else -EIO
    case Write => if ok then I32(req.bytes) else -EIO
    case Discard => if ok then 0 else -EIO
    case WriteZeroes => if ok then 0 else -EIO
    case OtherOp => -EINVAL
  }

  // The status always fits the kernel's field, and a payload's byte count survives the cast exactly below 2 GiB.
  lemma CountIsExactIff(req: Request, ok: bool)
    ensures -0x8000_0000 <= Dispatch(req, ok) < 0x8000_0000
    ensures CarriesPayload(req.op) ==> (Dispatch(req, true) == req.bytes <==> req.bytes < 0x8000_0000)
  {
  }

  // The task's program counter. `Failed`: the poll for the completion returned an error and the task
  // returned, dropping its buffer and eventfd. `Down`: it returned with no job out.
  datatype Phase =
    | WithKernel
    | Fetched(req: Request)
    | Awaiting(req: Request)
    | Polled(req: Request)
    | Drained(req: Request)
    | Committing(req: Request, res: int)
    | Failed(req: Request)
    | Down

  // Who may touch the tag's buffer. Tickets number the jobs sent on the channel. `Nobody`: the wake-up
  // was lost. `Gone`: the buffer was dropped and no job refers to it.
  datatype Owner = Kernel | Task | Queued(ticket: nat) | Worker(w: nat) | Nobody | Gone

  // `gen` counts the requests this tag has fetched.
  datatype Tag = Tag(phase: Phase, gen: nat, slot: int, efd: nat, owner: Owner)

  datatype Job = Job(tag: nat, gen: nat, req: Request)

  datatype WorkerState = Idle | Running(job: Job) | Holding(job: Job, res: int) | Stored(job: Job)

  datatype Entry = Entry(tag: nat, gen: nat, req: Request, res: int)

  // `strays` are the tags that failed to drain their eventfd at some point. `received` jobs have left the
  // channel; the rest are histories, by tag and generation: requests delivered, dispatched and committed,
  // jobs whose worker signalled, and polls that failed.
  datatype Queue = Queue(buf: nat, tags: map<nat, Tag>, strays: map<nat, Tag>, chan: seq<Job>, received: nat,
                         workers: map<nat, WorkerState>, delivered: map<(nat, nat), Request>,
                         dispatched: set<Entry>, committed: seq<Entry>,
                         signalled: set<(nat, nat)>, pollFailed: set<(nat, nat)>)

  datatype Action =
    | Deliver(t: nat, req: Request)
    | Submit(t: nat)
    | Receive(w: nat)
    | Perform(w: nat, ok: bool)
    | Store(w: nat)
    | Signal(w: nat, ok: bool)
    | Poll(t: nat)
    | PollFails(t: nat)
    | Drain(t: nat)
    | DrainFails(t: nat)
    | Load(t: nat)
    | Commit(t: nat)
    | Disconnect(t: nat)
    | FetchFails(t: nat)

  predicate Known(q: Queue, t: nat) { t in q.tags || t in q.strays }

  function TagAt(q: Queue, t: nat): Tag
    requires Known(q, t)
  {
    if t in q.tags then q.tags[t] else q.strays[t]
  }

  function Put(q: Queue, t: nat, tag: Tag): Queue {
    if t in q.tags then q.(tags := q.tags[t := tag]) else q.(strays := q.strays[t := tag])
  }

  function PutWorker(q: Queue, w: nat, st: WorkerState): Queue { q.(workers := q.workers[w := st]) }

  // The kernel completes the pending fetch or commit-and-fetch with a request.
  function StepDeliver(q: Queue, t: nat, req: Request): Queue {
    if Known(q, t) && TagAt(q, t).phase == WithKernel then
      var gen := TagAt(q, t).gen + 1;
      Put(q, t, TagAt(q, t).(phase := Fetched(req), gen := gen, owner := Task))
      .(delivered := q.delivered[(t, gen) := req])
    else q
  }

  function StepSubmit(q: Queue, t: nat): Queue {
    if Known(q, t) && TagAt(q, t).phase.Fetched? then
      var tag := TagAt(q, t);
      if Fits(q.buf, tag.phase.req) then
        Put(q, t, tag.(phase := Awaiting(tag.phase.req), slot := 0, owner := Queued(q.received + |q.chan|)))
        .(chan := q.chan + [Job(t, tag.gen, tag.phase.req)])
      else Put(q, t, tag.(phase := Committing(tag.phase.req, -EINVAL)))
    else q
  }

  function StepReceive(q: Queue, w: nat): Queue {
    if w in q.workers && q.workers[w] == Idle && |q.chan| > 0 && Known(q, q.chan[0].tag) then
      var job := q.chan[0];
      PutWorker(Put(q, job.tag, TagAt(q, job.tag).(owner := Worker(w))), w, Running(job))
      .(chan := q.chan[1..], received := q.received + 1)
    else q
  }

  // The worker repeats the size check before it dispatches.
  function StepPerform(q: Queue, w: nat, ok: bool): Queue {
    if w in q.workers && q.workers[w].Running? then
      var job := q.workers[w].job;
      var res := if Fits(q.buf, job.req) then Dispatch(job.req, ok) else -EINVAL;
      PutWorker(q, w, Holding(job, res)).(dispatched := q.dispatched + {Entry(job.tag, job.gen, job.req, res)})
    else q
  }

  function StepStore(q: Queue, w: nat): Queue {
    if w in q.workers && q.workers[w].Holding? && Known(q, q.workers[w].job.tag) then
      var job := q.workers[w].job;
      PutWorker(Put(q, job.tag, TagAt(q, job.tag).(slot := q.workers[w].res)), w, Stored(job))
    else q
  }

  // A failed eventfd write is only logged: the task is never woken. A write to a dropped one wakes nobody.
  function StepSignal(q: Queue, w: nat, ok: bool): Queue {
    if w in q.workers && q.workers[w].Stored? && Known(q, q.workers[w].job.tag) then
      var t := q.workers[w].job.tag;
      var tag := TagAt(q, t);
      PutWorker(Put(q, t, if tag.phase.Failed? then tag.(owner := Gone)
                          else if ok then tag.(efd := tag.efd + 1, owner := Task)
                          else tag.(owner := Nobody)), w, Idle)
      .(signalled := q.signalled + {(t, q.workers[w].job.gen)})
    else q
  }

  predicate OnLoan(owner: Owner) { owner.Queued? || owner.Worker? }

  // The ring reports an error for the poll: the task returns whether or not its job is still out.
  function StepPollFails(q: Queue, t: nat): Queue {
    if Known(q, t) && TagAt(q, t).phase.Awaiting? then
      var tag := TagAt(q, t);
      Put(q, t, tag.(phase := Failed(tag.phase.req), owner := if OnLoan(tag.owner) then tag.owner else Gone))
      .(pollFailed := q.pollFailed + {(t, tag.gen)})
    else q
  }

  function StepPoll(q: Queue, t: nat): Queue {
    if Known(q, t) && TagAt(q, t).phase.Awaiting? && TagAt(q, t).efd > 0 then
      Put(q, t, TagAt(q, t).(phase := Polled(TagAt(q, t).phase.req)))
    else q
  }

  function StepDrain(q: Queue, t: nat): Queue {
    if Known(q, t) && TagAt(q, t).phase.Polled? then
      Put(q, t, TagAt(q, t).(phase := Drained(TagAt(q, t).phase.req), efd := 0))
    else q
  }

  // A failed eventfd read is only logged: the counter stays up, and the next poll completes at once.
  function StepDrainFails(q: Queue, t: nat): Queue {
    if Known(q, t) && TagAt(q, t).phase.Polled? then
      var tag := TagAt(q, t);
      q.(tags := q.tags - {t}, strays := q.strays[t := tag.(phase := Drained(tag.phase.req))])
    else q
  }

  function StepLoad(q: Queue, t: nat): Queue {
    if Known(q, t) && TagAt(q, t).phase.Drained? then
      Put(q, t, TagAt(q, t).(phase := Committing(TagAt(q, t).phase.req, TagAt(q, t).slot)))
    else q
  }

  function StepCommit(q: Queue, t: nat): Queue {
    if Known(q, t) && TagAt(q, t).phase.Committing? then
      var tag := TagAt(q, t);
      Put(q, t, tag.(phase := WithKernel, owner := Kernel))
      .(committed := q.committed + [Entry(t, tag.gen, tag.phase.req, tag.phase.res)])
    else q
  }

  // The channel has no receiver left: the task ends before sending.
  function StepDisconnect(q: Queue, t: nat): Queue {
    if Known(q, t) && TagAt(q, t).phase.Fetched? then Put(q, t, TagAt(q, t).(phase := Down, owner := Gone)) else q
  }

  // The fetch, or commit-and-fetch, returns an error: the queue is going down.
  function StepFetchFails(q: Queue, t: nat): Queue {
    if Known(q, t) && TagAt(q, t).phase == WithKernel then Put(q, t, TagAt(q, t).(phase := Down, owner := Gone)) else q
  }

  function Step(q: Queue, a: Action): Queue {
    match a
    case Deliver(t, req) => StepDeliver(q, t, req)
    case Submit(t) => StepSubmit(q, t)
    case Receive(w) => StepReceive(q, w)
    case Perform(w, ok) => StepPerform(q, w, ok)
    case Store(w) => StepStore(q, w)
    case Signal(w, ok) => StepSignal(q, w, ok)
    case Poll(t) => StepPoll(q, t)
    case PollFails(t) => StepPollFails(q, t)
    case Drain(t) => StepDrain(q, t)
    case DrainFails(t) => StepDrainFails(q, t)
    case Load(t) => StepLoad(q, t)
    case Commit(t) => StepCommit(q, t)
    case Disconnect(t) => StepDisconnect(q, t)
    case FetchFails(t) => StepFetchFails(q, t)
  }

  function Run(q: Queue, acts: seq<Action>): Queue
    decreases |acts|
  {
    if |acts| == 0 then q else Run(Step(q, acts[0]), acts[1..])
  }

  // A queue with any tags and workers, before the first fetch.
  function Start(buf: nat, tags: set<nat>, workers: set<nat>): Queue {
    Queue(buf, map t | t in tags :: Tag(WithKernel, 0, 0, 0, Kernel), map[], [], 0,
          map w | w in workers :: Idle, map[], {}, [], {}, {})
  }

  ghost predicate Reachable(q: Queue) {
    exists buf, tags, workers, acts :: q == Run(Start(buf, tags, workers), acts)
  }

  // ---- the invariant: everything about tags that never strayed ----

  // The request the kernel handed to tag `t` as its `gen`-th.
  ghost predicate Asked(q: Queue, t: nat, gen: nat, req: Request) {
    (t, gen) in q.delivered && q.delivered[(t, gen)] == req
  }

  // The only dispatch of this tag's current request returned `res`.
  ghost predicate Answered(q: Queue, t: nat, req: Request, res: int)
    requires t in q.tags
  {
    Entry(t, q.tags[t].gen, req, res) in q.dispatched
  }

  // The tag's current request has not been dispatched.
  ghost predicate Untouched(dispatched: set<Entry>, t: nat, gen: nat) {
    forall e :: e in dispatched && e.tag == t ==> e.gen < gen
  }

  // A job outside its task: the task waits for exactly it, unsignalled, or its poll failed.
  ghost predicate JobOk(q: Queue, job: Job)
    requires job.tag in q.tags
  {
    && Fits(q.buf, job.req) && q.tags[job.tag].gen == job.gen && (job.tag, job.gen) !in q.signalled
    && ((q.tags[job.tag].phase == Awaiting(job.req) && q.tags[job.tag].efd == 0)
        || q.tags[job.tag].phase == Failed(job.req))
  }

  ghost predicate ChanOk(q: Queue) {
    forall i :: 0 <= i < |q.chan| && q.chan[i].tag in q.tags ==>
      && JobOk(q, q.chan[i])
      && q.tags[q.chan[i].tag].owner == Queued(q.received + i)
      && Untouched(q.dispatched, q.chan[i].tag, q.chan[i].gen)
  }

  ghost predicate WorkerOk(q: Queue, w: nat)
    requires w in q.workers
  {
    q.workers[w] != Idle && q.workers[w].job.tag in q.tags ==>
      var job := q.workers[w].job;
      && JobOk(q, job) && q.tags[job.tag].owner == Worker(w)
      && match q.workers[w]
         case Running(_) => Untouched(q.dispatched, job.tag, job.gen)
         case Holding(_, res) => Answered(q, job.tag, job.req, res)
         case Stored(_) => Answered(q, job.tag, job.req, q.tags[job.tag].slot)
  }

  ghost predicate TagOk(q: Queue, t: nat)
    requires t in q.tags
  {
    var tag := q.tags[t];
    && (tag.phase.WithKernel? <==> tag.owner == Kernel)
    && (OnLoan(tag.owner) || tag.owner.Nobody? ==>
          (tag.phase.Awaiting? && tag.efd == 0) || (OnLoan(tag.owner) && tag.phase.Failed?))
    && (tag.owner.Gone? ==> tag.phase.Failed? || tag.phase.Down?)
    && ((t, tag.gen) in q.pollFailed <==> tag.phase.Failed?)
    && (tag.phase.Awaiting? || tag.phase.Failed? ==> (OnLoan(tag.owner) <==> (t, tag.gen) !in q.signalled))
    && (!tag.phase.WithKernel? && !tag.phase.Down? ==> Asked(q, t, tag.gen, tag.phase.req))
    && match tag.phase
       case WithKernel => tag.efd == 0
       case Fetched(req) => tag.efd == 0 && Untouched(q.dispatched, t, tag.gen) && (t, tag.gen) !in q.signalled
       case Awaiting(req) =>
         Fits(q.buf, req) && (tag.owner == Task ==> tag.efd > 0) && (tag.efd > 0 ==> Answered(q, t, req, tag.slot))
       case Polled(req) => Fits(q.buf, req) && Answered(q, t, req, tag.slot)
       case Drained(req) => tag.efd == 0 && Fits(q.buf, req) && Answered(q, t, req, tag.slot)
       case Committing(req, res) =>
         && tag.efd == 0
         && if Fits(q.buf, req) then Answered(q, t, req, res)
            else res == -EINVAL && Untouched(q.dispatched, t, tag.gen)
       case Failed(req) => Fits(q.buf, req) && (OnLoan(tag.owner) || tag.owner.Gone?)
       case Down => tag.owner.Gone?
  }

  // Whoever owns a tag's buffer on loan has that tag's job.
  ghost predicate LoanOk(q: Queue, t: nat)
    requires t in q.tags
  {
    match q.tags[t].owner
    case Queued(ticket) =>
      && q.received <= ticket < q.received + |q.chan|
      && q.chan[ticket - q.received].tag == t && q.chan[ticket - q.received].gen == q.tags[t].gen
    case Worker(w) => w in q.workers && q.workers[w] != Idle && q.workers[w].job.tag == t
                      && q.workers[w].job.gen == q.tags[t].gen
    case _ => true
  }

  ghost predicate EntryOk(q: Queue, e: Entry)
    requires e.tag in q.tags
  {
    && Asked(q, e.tag, e.gen, e.req) && e.gen <= q.tags[e.tag].gen && Fits(q.buf, e.req)
    && (e.res == Dispatch(e.req, true) || e.res == Dispatch(e.req, false))
  }

  // A committed result: what the one dispatch of that request returned, or -EINVAL if it did not fit.
  ghost predicate CommitOk(q: Queue, e: Entry)
    requires e.tag in q.tags
  {
    && Asked(q, e.tag, e.gen, e.req) && e.gen <= q.tags[e.tag].gen
    && (e.gen == q.tags[e.tag].gen ==> q.tags[e.tag].phase == WithKernel || q.tags[e.tag].phase == Down)
    && if Fits(q.buf, e.req) then e in q.dispatched
       else e.res == -EINVAL && forall d :: d in q.dispatched ==> d.tag != e.tag || d.gen != e.gen
  }

  // Jobs outside their tasks.
  ghost predicate LoansOk(q: Queue) { forall t :: t in q.tags ==> LoanOk(q, t) }

  ghost predicate FlightsOk(q: Queue) {
    ChanOk(q) && (forall w :: w in q.workers ==> WorkerOk(q, w)) && LoansOk(q)
  }

  // The marks are of generations fetched, and a failed poll is the tag's last.
  ghost predicate MarksOk(q: Queue) {
    && (forall k :: k in q.signalled && k.0 in q.tags ==> k.1 <= q.tags[k.0].gen)
    && (forall k :: k in q.pollFailed && k.0 in q.tags ==> k.1 == q.tags[k.0].gen && q.tags[k.0].phase.Failed?)
  }

  ghost predicate HistoryOk(q: Queue) {
    && (forall e :: e in q.dispatched && e.tag in q.tags ==> EntryOk(q, e))
    && (forall d, e ::
          d in q.dispatched && e in q.dispatched && e.tag in q.tags && d.tag == e.tag && d.gen == e.gen ==> d == e)
    && (forall i :: 0 <= i < |q.committed| && q.committed[i].tag in q.tags ==> CommitOk(q, q.committed[i]))
    && (forall i, k ::
          0 <= i < k < |q.committed| && q.committed[i].tag in q.tags && q.committed[i].tag == q.committed[k].tag ==>
            q.committed[i].gen < q.committed[k].gen)
  }

  ghost predicate Inv(q: Queue) {
    FlightsOk(q) && HistoryOk(q) && MarksOk(q) && forall t :: t in q.tags ==> TagOk(q, t)
  }

  // ---- what a step on one tag leaves alone ----

  // Only tag `t` moved; new dispatches are its own, and no earlier delivery is rewritten.
  ghost predicate OnlyTag(q: Queue, q': Queue, t: nat) {
    && t in q.tags && t in q'.tags && q'.buf == q.buf && q'.tags == q.tags[t := q'.tags[t]]
    && q'.tags[t].gen >= q.tags[t].gen
    && q.dispatched <= q'.dispatched && (forall e :: e in q'.dispatched && e !in q.dispatched ==> e.tag == t)
    && (forall k :: k in q.delivered && (k.0 != t || k.1 <= q.tags[t].gen) ==>
          k in q'.delivered && q'.delivered[k] == q.delivered[k])
    && (q'.signalled == q.signalled || q'.signalled == q.signalled + {(t, q.tags[t].gen)})
    && (q'.pollFailed == q.pollFailed || q'.pollFailed == q.pollFailed + {(t, q.tags[t].gen)})
  }

  // A tag whose poll failed never moves on, and only a failed poll is marked as one.
  ghost predicate MarksMove(q: Queue, q': Queue, t: nat)
    requires t in q.tags && t in q'.tags
  {
    if q'.pollFailed == q.pollFailed then
      q.tags[t].phase.Failed? ==> q'.tags[t].phase.Failed? && q'.tags[t].gen == q.tags[t].gen
    else q'.tags[t].phase.Failed? && q'.tags[t].gen == q.tags[t].gen
  }

  lemma MarksKept(q: Queue, q': Queue, t: nat)
    requires MarksOk(q) && OnlyTag(q, q', t) && MarksMove(q, q', t)
    ensures MarksOk(q')
  {
  }

  lemma TagsKept(q: Queue, q': Queue, t: nat)
    requires (forall u :: u in q.tags ==> TagOk(q, u)) && OnlyTag(q, q', t) && TagOk(q', t)
    ensures forall u :: u in q'.tags ==> TagOk(q', u)
  {
    forall u | u in q'.tags ensures TagOk(q', u) { assert u != t ==> TagOk(q, u); }
  }

  // No commit is added and none becomes stale.
  lemma HistoryKept(q: Queue, q': Queue, t: nat)
    requires HistoryOk(q) && OnlyTag(q, q', t) && q'.committed == q.committed && q'.dispatched == q.dispatched
    requires q'.tags[t].gen > q.tags[t].gen || q'.tags[t].phase == Down
             || (q.tags[t].phase != WithKernel && q.tags[t].phase != Down)
    ensures HistoryOk(q')
  {
    forall e | e in q'.dispatched && e.tag in q'.tags ensures EntryOk(q', e) { assert EntryOk(q, e); }
    forall i | 0 <= i < |q'.committed| && q'.committed[i].tag in q'.tags ensures CommitOk(q', q'.committed[i]) {
      assert CommitOk(q, q.committed[i]);
    }
  }

  // Only tag `t` moved, and only workers that hold no other tag's job.
  lemma LoansKept(q: Queue, q': Queue, t: nat)
    requires LoansOk(q) && t in q.tags && t in q'.tags && q'.tags == q.tags[t := q'.tags[t]] && LoanOk(q', t)
    requires q'.chan == q.chan && q'.received == q.received
    requires forall w :: w in q.workers && q.workers[w] != Idle && q.workers[w].job.tag != t ==>
                           w in q'.workers && q'.workers[w] == q.workers[w]
    ensures LoansOk(q')
  {
    forall u | u in q'.tags ensures LoanOk(q', u) { assert u != t ==> LoanOk(q, u); }
  }

  // No job of `t` is outside its task, and nothing in flight moved.
  lemma FlightsKept(q: Queue, q': Queue, t: nat)
    requires FlightsOk(q) && OnlyTag(q, q', t) && !OnLoan(q.tags[t].owner) && !OnLoan(q'.tags[t].owner)
    requires q'.chan == q.chan && q'.received == q.received && q'.workers == q.workers
    ensures FlightsOk(q')
  {
    forall w | w in q'.workers ensures WorkerOk(q', w) { assert WorkerOk(q, w); }
    LoansKept(q, q', t);
  }

  // Worker `w` alone moved, on the tag it owns.
  lemma OtherFlightsKept(q: Queue, q': Queue, t: nat, w: nat)
    requires FlightsOk(q) && OnlyTag(q, q', t) && q.tags[t].owner == Worker(w)
    requires q'.chan == q.chan && q'.received == q.received
    requires w in q'.workers && q'.workers == q.workers[w := q'.workers[w]] && WorkerOk(q', w) && LoanOk(q', t)
    ensures FlightsOk(q')
  {
    forall v | v in q'.workers ensures WorkerOk(q', v) { assert v != w ==> WorkerOk(q, v); }
    assert WorkerOk(q, w) && LoanOk(q, t);
    LoansKept(q, q', t);
  }

  // ---- steps of a stray ----

  // Tag `t`, which strayed, moved, and with it at most a job of its own.
  ghost predicate OnlyStray(q: Queue, q': Queue, t: nat) {
    && t !in q.tags && q'.tags == q.tags && q'.buf == q.buf
    && (forall k :: k in q.delivered && k.0 != t ==> k in q'.delivered && q'.delivered[k] == q.delivered[k])
    && q.dispatched <= q'.dispatched && (forall e :: e in q'.dispatched && e !in q.dispatched ==> e.tag == t)
    && (forall k: (nat, nat) :: k.0 != t ==> (k in q'.signalled <==> k in q.signalled))
    && (forall k: (nat, nat) :: k.0 != t ==> (k in q'.pollFailed <==> k in q.pollFailed))
  }

  // The stray's own commit may have been added.
  ghost predicate StrayCommits(q: Queue, q': Queue, t: nat) {
    || q'.committed == q.committed
    || (|q'.committed| == |q.committed| + 1 && q'.committed[..|q.committed|] == q.committed
        && q'.committed[|q.committed|].tag == t)
  }

  // The stray's own job may have been sent, and a worker that holds one of its jobs may have moved.
  ghost predicate StrayFlights(q: Queue, q': Queue, t: nat) {
    && q'.received == q.received
    && (q'.chan == q.chan || (|q'.chan| == |q.chan| + 1 && q'.chan[..|q.chan|] == q.chan && q'.chan[|q.chan|].tag == t))
    && q'.workers.Keys == q.workers.Keys
    && (forall w :: w in q.workers && q'.workers[w] != q.workers[w] ==>
          && q.workers[w] != Idle && q.workers[w].job.tag == t
          && (q'.workers[w] == Idle || q'.workers[w].job.tag == t))
  }

  lemma StrayKeepsHistory(q: Queue, q': Queue, t: nat)
    requires HistoryOk(q) && MarksOk(q) && OnlyStray(q, q', t) && StrayCommits(q, q', t)
    ensures HistoryOk(q') && MarksOk(q')
  {
    forall e | e in q'.dispatched && e.tag in q'.tags ensures EntryOk(q', e) { assert EntryOk(q, e); }
    forall i | 0 <= i < |q'.committed| && q'.committed[i].tag in q'.tags
      ensures i < |q.committed| && q'.committed[i] == q.committed[i] && CommitOk(q', q'.committed[i])
    {
      assert q'.committed[..|q.committed|][i] == q'.committed[i];
      assert CommitOk(q, q.committed[i]);
    }
  }

  lemma StrayKeepsFlights(q: Queue, q': Queue, t: nat)
    requires FlightsOk(q) && OnlyStray(q, q', t) && StrayFlights(q, q', t)
    ensures FlightsOk(q')
  {
    forall i | 0 <= i < |q'.chan| && q'.chan[i].tag in q'.tags ensures i < |q.chan| && q'.chan[i] == q.chan[i] {
      assert q'.chan[..|q.chan|][i] == q'.chan[i];
    }
    forall w | w in q'.workers ensures WorkerOk(q', w) { assert WorkerOk(q, w); }
    forall u | u in q'.tags ensures LoanOk(q', u) { assert LoanOk(q, u); }
  }

  lemma StrayKeeps(q: Queue, q': Queue, t: nat)
    requires Inv(q) && StrayMoves(q, q', t)
    ensures Inv(q')
  {
    StrayKeepsHistory(q, q', t);
    StrayKeepsFlights(q, q', t);
    forall u | u in q'.tags ensures TagOk(q', u) { assert TagOk(q, u); }
  }

  lemma StrayReceiveKeeps(q: Queue, w: nat)
    requires Inv(q) && |q.chan| > 0 && q.chan[0].tag !in q.tags
    ensures Inv(StepReceive(q, w))
  {
    var q' := StepReceive(q, w);
    if q' != q {
      forall i | 0 <= i < |q'.chan| ensures q'.chan[i] == q.chan[i + 1] {}
      forall v | v in q'.workers ensures WorkerOk(q', v) { assert WorkerOk(q, v); }
      StrayReceiveKeepsLoans(q, q', w);
      StrayKeepsHistory(q, q', q.chan[0].tag);
      forall u | u in q'.tags ensures TagOk(q', u) { assert TagOk(q, u); }
    }
  }

  lemma StrayReceiveKeepsLoans(q: Queue, q': Queue, w: nat)
    requires FlightsOk(q) && |q.chan| > 0 && q.chan[0].tag !in q.tags && q' == StepReceive(q, w) && q' != q
    ensures LoansOk(q')
  {
    forall u | u in q'.tags ensures LoanOk(q', u) {
      assert LoanOk(q, u);
      if q.tags[u].owner.Queued? {
        var i := q.tags[u].owner.ticket - q.received;
        assert i > 0 && q'.chan[i - 1] == q.chan[i];
      }
    }
  }

  predicate HoldsStray(q: Queue, w: nat) { w in q.workers && q.workers[w] != Idle && q.workers[w].job.tag !in q.tags }

  ghost predicate StrayMoves(q: Queue, q': Queue, t: nat) {
    OnlyStray(q, q', t) && StrayCommits(q, q', t) && StrayFlights(q, q', t)
  }

  // A step that changes nothing but the stray tag and what was delivered to it.
  lemma StrayQuietly(q: Queue, q': Queue, t: nat)
    requires Inv(q) && t !in q.tags && q' == q.(strays := q'.strays, delivered := q'.delivered)
    requires forall k :: k in q.delivered && k.0 != t ==> k in q'.delivered && q'.delivered[k] == q.delivered[k]
    ensures Inv(q')
  {
    StrayKeeps(q, q', t);
  }

  lemma StrayDeliverKeeps(q: Queue, t: nat, req: Request)
    requires Inv(q) && t !in q.tags
    ensures Inv(StepDeliver(q, t, req))
  {
    StrayQuietly(q, StepDeliver(q, t, req), t);
  }

  lemma StrayPollKeeps(q: Queue, t: nat)
    requires Inv(q) && t !in q.tags
    ensures Inv(StepPoll(q, t))
  {
    StrayQuietly(q, StepPoll(q, t), t);
  }

  lemma StrayDrainKeeps(q: Queue, t: nat)
    requires Inv(q) && t !in q.tags
    ensures Inv(StepDrain(q, t))
  {
    StrayQuietly(q, StepDrain(q, t), t);
  }

  lemma StrayLoadKeeps(q: Queue, t: nat)
    requires Inv(q) && t !in q.tags
    ensures Inv(StepLoad(q, t))
  {
    StrayQuietly(q, StepLoad(q, t), t);
  }

  lemma StrayDisconnectKeeps(q: Queue, t: nat)
    requires Inv(q) && t !in q.tags
    ensures Inv(StepDisconnect(q, t))
  {
    StrayQuietly(q, StepDisconnect(q, t), t);
  }

  lemma StrayFetchFailsKeeps(q: Queue, t: nat)
    requires Inv(q) && t !in q.tags
    ensures Inv(StepFetchFails(q, t))
  {
    StrayQuietly(q, StepFetchFails(q, t), t);
  }

  lemma StraySubmitKeeps(q: Queue, t: nat)
    requires Inv(q) && t !in q.tags
    ensures Inv(StepSubmit(q, t))
  {
    StrayKeeps(q, StepSubmit(q, t), t);
  }

  lemma StrayPollFailsKeeps(q: Queue, t: nat)
    requires Inv(q) && t !in q.tags
    ensures Inv(StepPollFails(q, t))
  {
    StrayKeeps(q, StepPollFails(q, t), t);
  }

  lemma StrayCommitKeeps(q: Queue, t: nat)
    requires Inv(q) && t !in q.tags
    ensures Inv(StepCommit(q, t))
  {
    StrayKeeps(q, StepCommit(q, t), t);
  }

  lemma StrayPerformKeeps(q: Queue, w: nat, ok: bool)
    requires Inv(q) && HoldsStray(q, w)
    ensures Inv(StepPerform(q, w, ok))
  {
    StrayKeeps(q, StepPerform(q, w, ok), q.workers[w].job.tag);
  }

  lemma StrayStoreKeeps(q: Queue, w: nat)
    requires Inv(q) && HoldsStray(q, w)
    ensures Inv(StepStore(q, w))
  {
    StrayKeeps(q, StepStore(q, w), q.workers[w].job.tag);
  }

  lemma StraySignalKeeps(q: Queue, w: nat, ok: bool)
    requires Inv(q) && HoldsStray(q, w)
    ensures Inv(StepSignal(q, w, ok))
  {
    StrayKeeps(q, StepSignal(q, w, ok), q.workers[w].job.tag);
  }

  // A tag strays: less is claimed from here on.
  lemma StrayingKeepsFlights(q: Queue, q': Queue, t: nat)
    requires FlightsOk(q) && q' == q.(tags := q.tags - {t}, strays := q'.strays)
    ensures FlightsOk(q')
  {
    forall w | w in q'.workers ensures WorkerOk(q', w) { assert WorkerOk(q, w); }
    forall u | u in q'.tags ensures LoanOk(q', u) { assert LoanOk(q, u); }
  }

  lemma StrayingKeepsHistory(q: Queue, q': Queue, t: nat)
    requires HistoryOk(q) && MarksOk(q) && q' == q.(tags := q.tags - {t}, strays := q'.strays)
    ensures HistoryOk(q') && MarksOk(q')
  {
    forall e | e in q'.dispatched && e.tag in q'.tags ensures EntryOk(q', e) { assert EntryOk(q, e); }
    forall i | 0 <= i < |q'.committed| && q'.committed[i].tag in q'.tags ensures CommitOk(q', q'.committed[i]) {
      assert CommitOk(q, q.committed[i]);
    }
  }

  lemma DrainFailsKeeps(q: Queue, t: nat)
    requires Inv(q)
    ensures Inv(StepDrainFails(q, t))
  {
    var q' := StepDrainFails(q, t);
    if Known(q, t) && TagAt(q, t).phase.Polled? {
      StrayingKeepsFlights(q, q', t);
      StrayingKeepsHistory(q, q', t);
      forall u | u in q'.tags ensures TagOk(q', u) { assert TagOk(q, u); }
    }
  }

  // ---- steps of a task ----

  lemma TaskKeeps(q: Queue, q': Queue, t: nat)
    requires Inv(q) && OnlyTag(q, q', t) && TagOk(q', t)
    requires q' == q.(tags := q'.tags, delivered := q'.delivered)
    requires !OnLoan(q.tags[t].owner) && !OnLoan(q'.tags[t].owner)
    requires q'.tags[t].gen > q.tags[t].gen || q'.tags[t].phase == Down
             || (q.tags[t].phase != WithKernel && q.tags[t].phase != Down)
    requires !q.tags[t].phase.Failed?
    ensures Inv(q')
  {
    FlightsKept(q, q', t);
    TagsKept(q, q', t);
    HistoryKept(q, q', t);
    MarksKept(q, q', t);
  }

  lemma DeliverKeeps(q: Queue, t: nat, req: Request)
    requires Inv(q) && t in q.tags
    ensures Inv(StepDeliver(q, t, req))
  {
    if StepDeliver(q, t, req) != q {
      assert TagOk(q, t);
      forall e | e in q.dispatched && e.tag == t ensures e.gen <= q.tags[t].gen { assert EntryOk(q, e); }
      assert (t, q.tags[t].gen + 1) !in q.signalled && (t, q.tags[t].gen + 1) !in q.pollFailed;
      TaskKeeps(q, StepDeliver(q, t, req), t);
    }
  }

  lemma PollKeeps(q: Queue, t: nat)
    requires Inv(q) && t in q.tags
    ensures Inv(StepPoll(q, t))
  {
    if StepPoll(q, t) != q {
      assert TagOk(q, t);
      TaskKeeps(q, StepPoll(q, t), t);
    }
  }

  lemma DrainKeeps(q: Queue, t: nat)
    requires Inv(q) && t in q.tags
    ensures Inv(StepDrain(q, t))
  {
    if StepDrain(q, t) != q {
      assert TagOk(q, t);
      TaskKeeps(q, StepDrain(q, t), t);
    }
  }

  lemma LoadKeeps(q: Queue, t: nat)
    requires Inv(q) && t in q.tags
    ensures Inv(StepLoad(q, t))
  {
    if StepLoad(q, t) != q {
      assert TagOk(q, t);
      TaskKeeps(q, StepLoad(q, t), t);
    }
  }

  lemma DisconnectKeeps(q: Queue, t: nat)
    requires Inv(q) && t in q.tags
    ensures Inv(StepDisconnect(q, t))
  {
    if StepDisconnect(q, t) != q {
      assert TagOk(q, t);
      TaskKeeps(q, StepDisconnect(q, t), t);
    }
  }

  lemma FetchFailsKeeps(q: Queue, t: nat)
    requires Inv(q) && t in q.tags
    ensures Inv(StepFetchFails(q, t))
  {
    if StepFetchFails(q, t) != q {
      assert TagOk(q, t);
      TaskKeeps(q, StepFetchFails(q, t), t);
    }
  }

  lemma PollFailsKeeps(q: Queue, t: nat)
    requires Inv(q) && t in q.tags
    ensures Inv(StepPollFails(q, t))
  {
    var q' := StepPollFails(q, t);
    if q' != q {
      assert TagOk(q, t) && LoanOk(q, t);
      PollFailsKeepsFlights(q, q', t);
      TagsKept(q, q', t);
      HistoryKept(q, q', t);
      MarksKept(q, q', t);
    }
  }

  // The job stays out.
  lemma PollFailsKeepsFlights(q: Queue, q': Queue, t: nat)
    requires FlightsOk(q) && t in q.tags && q.tags[t].phase.Awaiting? && q' == StepPollFails(q, t)
    ensures FlightsOk(q')
  {
    forall w | w in q'.workers ensures WorkerOk(q', w) { assert WorkerOk(q, w); }
    forall u | u in q'.tags ensures LoanOk(q', u) { assert LoanOk(q, u); }
  }

  lemma SubmitKeeps(q: Queue, t: nat)
    requires Inv(q) && t in q.tags
    ensures Inv(StepSubmit(q, t))
  {
    var q' := StepSubmit(q, t);
    if q' != q {
      assert TagOk(q, t);
      if Fits(q.buf, q.tags[t].phase.req) {
        SubmitKeepsFlights(q, q', t);
        TagsKept(q, q', t);
        HistoryKept(q, q', t);
        MarksKept(q, q', t);
      } else {
        TaskKeeps(q, q', t);
      }
    }
  }

  lemma SubmitKeepsFlights(q: Queue, q': Queue, t: nat)
    requires FlightsOk(q) && q' == StepSubmit(q, t) && t in q.tags && TagOk(q, t)
    requires q.tags[t].phase.Fetched? && Fits(q.buf, q.tags[t].phase.req)
    ensures FlightsOk(q')
  {
    forall w | w in q'.workers ensures WorkerOk(q', w) { assert WorkerOk(q, w); }
    forall u | u in q'.tags ensures LoanOk(q', u) { assert u != t ==> LoanOk(q, u); }
  }

  lemma CommitKeeps(q: Queue, t: nat)
    requires Inv(q) && t in q.tags
    ensures Inv(StepCommit(q, t))
  {
    var q' := StepCommit(q, t);
    if q' != q {
      assert TagOk(q, t);
      FlightsKept(q, q', t);
      TagsKept(q, q', t);
      CommitKeepsHistory(q, q', t);
      MarksKept(q, q', t);
    }
  }

  lemma CommitKeepsHistory(q: Queue, q': Queue, t: nat)
    requires HistoryOk(q) && t in q.tags && TagOk(q, t) && q.tags[t].phase.Committing? && q' == StepCommit(q, t)
    ensures HistoryOk(q')
  {
    var mid := q'.(committed := q.committed);
    HistoryKept(q, mid, t);
    forall i | 0 <= i < |q.committed| && q.committed[i].tag == t ensures q.committed[i].gen < q.tags[t].gen {
      assert CommitOk(q, q.committed[i]);
    }
    CommitsKept(mid, q', q'.committed[|q.committed|]);
  }

  // One more commit, the latest of its tag.
  lemma CommitsKept(q: Queue, q': Queue, e: Entry)
    requires HistoryOk(q) && q' == q.(committed := q.committed + [e]) && e.tag in q.tags && CommitOk(q, e)
    requires forall i :: 0 <= i < |q.committed| && q.committed[i].tag == e.tag ==> q.committed[i].gen < e.gen
    ensures HistoryOk(q')
  {
    forall i | 0 <= i < |q'.committed| && q'.committed[i].tag in q'.tags ensures CommitOk(q', q'.committed[i]) {
      assert i < |q.committed| ==> CommitOk(q, q.committed[i]);
    }
    forall d | d in q'.dispatched && d.tag in q'.tags ensures EntryOk(q', d) { assert EntryOk(q, d); }
  }

  // ---- steps of a worker ----

  lemma ReceiveKeeps(q: Queue, w: nat)
    requires Inv(q) && (|q.chan| > 0 ==> q.chan[0].tag in q.tags)
    ensures Inv(StepReceive(q, w))
  {
    var q' := StepReceive(q, w);
    if q' != q {
      var t := q.chan[0].tag;
      assert JobOk(q, q.chan[0]) && TagOk(q, t);
      ReceiveKeepsFlights(q, q', w);
      TagsKept(q, q', t);
      HistoryKept(q, q', t);
      MarksKept(q, q', t);
    }
  }

  lemma ReceiveKeepsFlights(q: Queue, q': Queue, w: nat)
    requires FlightsOk(q) && q' == StepReceive(q, w) && q' != q && q.chan[0].tag in q.tags
    ensures FlightsOk(q')
  {
    assert JobOk(q, q.chan[0]);
    forall i | 0 <= i < |q'.chan| && q'.chan[i].tag in q'.tags
      ensures JobOk(q', q'.chan[i]) && q'.tags[q'.chan[i].tag].owner == Queued(q'.received + i)
    {
      assert q'.chan[i] == q.chan[i + 1];
    }
    forall v | v in q'.workers ensures WorkerOk(q', v) { assert WorkerOk(q, v); }
    ReceiveKeepsLoans(q, q', w);
  }

  lemma ReceiveKeepsLoans(q: Queue, q': Queue, w: nat)
    requires FlightsOk(q) && q' == StepReceive(q, w) && q' != q && q.chan[0].tag in q.tags
    ensures LoansOk(q')
  {
    assert JobOk(q, q.chan[0]);
    forall u | u in q'.tags ensures LoanOk(q', u) {
      assert LoanOk(q, u);
      if u != q.chan[0].tag && q.tags[u].owner.Queued? {
        var i := q.tags[u].owner.ticket - q.received;
        assert q.chan[i].tag == u;
        assert q'.chan[i - 1] == q.chan[i];
      }
    }
  }

  lemma PerformKeeps(q: Queue, w: nat, ok: bool)
    requires Inv(q) && !HoldsStray(q, w)
    ensures Inv(StepPerform(q, w, ok))
  {
    var q' := StepPerform(q, w, ok);
    if q' != q {
      assert WorkerOk(q, w);
      var job := q.workers[w].job;
      assert TagOk(q, job.tag);
      OtherFlightsKept(q, q', job.tag, w);
      TagsKept(q, q', job.tag);
      MarksKept(q, q', job.tag);
      PerformKeepsHistory(q, q', job, q'.workers[w].res);
    }
  }

  lemma PerformKeepsHistory(q: Queue, q': Queue, job: Job, res: int)
    requires HistoryOk(q) && job.tag in q.tags && JobOk(q, job) && Untouched(q.dispatched, job.tag, job.gen)
             && TagOk(q, job.tag)
    requires q' == q.(workers := q'.workers, dispatched := q.dispatched + {Entry(job.tag, job.gen, job.req, res)})
    requires res == Dispatch(job.req, true) || res == Dispatch(job.req, false)
    ensures HistoryOk(q')
  {
    forall e | e in q'.dispatched && e.tag in q'.tags ensures EntryOk(q', e) {
      assert e in q.dispatched ==> EntryOk(q, e);
    }
    forall i | 0 <= i < |q'.committed| && q'.committed[i].tag in q'.tags ensures CommitOk(q', q'.committed[i]) {
      assert CommitOk(q, q.committed[i]);
    }
  }

  lemma StoreKeeps(q: Queue, w: nat)
    requires Inv(q) && !HoldsStray(q, w)
    ensures Inv(StepStore(q, w))
  {
    var q' := StepStore(q, w);
    if q' != q {
      assert WorkerOk(q, w);
      var t := q.workers[w].job.tag;
      assert TagOk(q, t);
      OtherFlightsKept(q, q', t, w);
      TagsKept(q, q', t);
      HistoryKept(q, q', t);
      MarksKept(q, q', t);
    }
  }

  lemma SignalKeeps(q: Queue, w: nat, ok: bool)
    requires Inv(q) && !HoldsStray(q, w)
    ensures Inv(StepSignal(q, w, ok))
  {
    var q' := StepSignal(q, w, ok);
    if q' != q {
      assert WorkerOk(q, w);
      var t := q.workers[w].job.tag;
      assert TagOk(q, t);
      OtherFlightsKept(q, q', t, w);
      TagsKept(q, q', t);
      HistoryKept(q, q', t);
      MarksKept(q, q', t);
    }
  }

  // ---- every run ----

  predicate OfWorker(a: Action) { a.Receive? || a.Perform? || a.Store? || a.Signal? }

  lemma TaskStepKeeps(q: Queue, a: Action)
    requires Inv(q) && !OfWorker(a) && a.t in q.tags
    ensures Inv(Step(q, a))
  {
    match a
    case Deliver(t, req) => DeliverKeeps(q, t, req);
    case Submit(t) => SubmitKeeps(q, t);
    case Poll(t) => PollKeeps(q, t);
    case PollFails(t) => PollFailsKeeps(q, t);
    case Drain(t) => DrainKeeps(q, t);
    case DrainFails(t) => DrainFailsKeeps(q, t);
    case Load(t) => LoadKeeps(q, t);
    case Commit(t) => CommitKeeps(q, t);
    case Disconnect(t) => DisconnectKeeps(q, t);
    case FetchFails(t) => FetchFailsKeeps(q, t);
  }

  lemma StrayTaskStepKeeps(q: Queue, a: Action)
    requires Inv(q) && !OfWorker(a) && a.t !in q.tags
    ensures Inv(Step(q, a))
  {
    match a
    case Deliver(t, req) => StrayDeliverKeeps(q, t, req);
    case Submit(t) => StraySubmitKeeps(q, t);
    case Poll(t) => StrayPollKeeps(q, t);
    case PollFails(t) => StrayPollFailsKeeps(q, t);
    case Drain(t) => StrayDrainKeeps(q, t);
    case DrainFails(t) => DrainFailsKeeps(q, t);
    case Load(t) => StrayLoadKeeps(q, t);
    case Commit(t) => StrayCommitKeeps(q, t);
    case Disconnect(t) => StrayDisconnectKeeps(q, t);
    case FetchFails(t) => StrayFetchFailsKeeps(q, t);
  }

  lemma WorkerStepKeeps(q: Queue, a: Action)
    requires Inv(q) && OfWorker(a)
    ensures Inv(Step(q, a))
  {
    match a
    case Receive(w) =>
      if |q.chan| > 0 && q.chan[0].tag !in q.tags { StrayReceiveKeeps(q, w); } else { ReceiveKeeps(q, w); }
    case Perform(w, ok) => if HoldsStray(q, w) { StrayPerformKeeps(q, w, ok); } else { PerformKeeps(q, w, ok); }
    case Store(w) => if HoldsStray(q, w) { StrayStoreKeeps(q, w); } else { StoreKeeps(q, w); }
    case Signal(w, ok) => if HoldsStray(q, w) { StraySignalKeeps(q, w, ok); } else { SignalKeeps(q, w, ok); }
  }

  lemma StepKeeps(q: Queue, a: Action)
    requires Inv(q)
    ensures Inv(Step(q, a))
  {
    if OfWorker(a) {
      WorkerStepKeeps(q, a);
    } else if a.t in q.tags {
      TaskStepKeeps(q, a);
    } else {
      StrayTaskStepKeeps(q, a);
    }
  }

  lemma {:induction false} RunKeeps(q: Queue, acts: seq<Action>)
    requires Inv(q)
    ensures Inv(Run(q, acts))
    decreases |acts|
  {
    if |acts| > 0 {
      StepKeeps(q, acts[0]);
      RunKeeps(Step(q, acts[0]), acts[1..]);
    }
  }

  lemma ReachableOk(q: Queue)
    requires Reachable(q)
    ensures Inv(q)
  {
    var buf, tags, workers, acts :| q == Run(Start(buf, tags, workers), acts);
    RunKeeps(Start(buf, tags, workers), acts);
  }

  // Is a job of tag `t` with worker `w`?
  predicate Busy(q: Queue, w: nat, t: nat) { w in q.workers && q.workers[w] != Idle && q.workers[w].job.tag == t }

  /**
   In every interleaving a tag none of whose drains failed has at most one job in flight,
   in the channel or with one worker. While it is there its buffer is on loan to that one
   holder, and the task is waiting for exactly that job unless its poll failed.
   */
  lemma OneJobPerTag(q: Queue, t: nat)
    requires Reachable(q) && t in q.tags
    ensures forall i, k :: 0 <= i < |q.chan| && 0 <= k < |q.chan| && q.chan[i].tag == t && q.chan[k].tag == t ==> i == k
    ensures forall w, v :: Busy(q, w, t) && Busy(q, v, t) ==> w == v
    ensures forall i, w :: 0 <= i < |q.chan| && q.chan[i].tag == t ==> !Busy(q, w, t)
    ensures forall i :: 0 <= i < |q.chan| && q.chan[i].tag == t ==>
              q.tags[t].phase ==
                (if (t, q.chan[i].gen) in q.pollFailed then Failed(q.chan[i].req) else Awaiting(q.chan[i].req))
              && q.tags[t].owner == Queued(q.received + i)
    ensures forall w :: Busy(q, w, t) ==>
              var job := q.workers[w].job;
              q.tags[t].phase == (if (t, job.gen) in q.pollFailed then Failed(job.req) else Awaiting(job.req))
              && q.tags[t].owner == Worker(w)
  {
    ReachableOk(q);
    assert TagOk(q, t);
    forall i | 0 <= i < |q.chan| && q.chan[i].tag == t
      ensures JobOk(q, q.chan[i]) && q.tags[t].owner == Queued(q.received + i)
    {
    }
    forall w | Busy(q, w, t) ensures JobOk(q, q.workers[w].job) && q.tags[t].owner == Worker(w) {
      assert WorkerOk(q, w);
    }
  }

  // The job of tag `t`'s `gen`-th request is in the channel or with a worker.
  predicate InFlight(q: Queue, t: nat, gen: nat) {
    || (exists i :: 0 <= i < |q.chan| && q.chan[i].tag == t && q.chan[i].gen == gen)
    || (exists w :: w in q.workers && q.workers[w] != Idle && q.workers[w].job.tag == t && q.workers[w].job.gen == gen)
  }

  // The tag's task has returned, and its buffer and eventfd with it.
  predicate BufferGone(q: Queue, t: nat)
    requires t in q.tags
  {
    q.tags[t].phase.Failed? || q.tags[t].phase.Down?
  }

  /**
   A job outlives the buffer it points into exactly if its tag's poll failed and its
   worker has not signalled: that one error path returns while the job is still out.
   */
  lemma JobOutlivesBufferIff(q: Queue, t: nat, gen: nat)
    requires Reachable(q) && t in q.tags
    ensures InFlight(q, t, gen) && BufferGone(q, t) <==> (t, gen) in q.pollFailed && (t, gen) !in q.signalled
  {
    ReachableOk(q);
    assert TagOk(q, t) && LoanOk(q, t);
    if InFlight(q, t, gen) {
      if i :| 0 <= i < |q.chan| && q.chan[i].tag == t && q.chan[i].gen == gen {
        assert JobOk(q, q.chan[i]);
      } else {
        var w :| w in q.workers && q.workers[w] != Idle && q.workers[w].job.tag == t && q.workers[w].job.gen == gen;
        assert WorkerOk(q, w);
      }
    }
  }

  // One tag, one worker, and its first request sent.
  function Submitted(req: Request): Queue {
    Queue(4096, map[0 := Tag(Awaiting(req), 1, 0, 0, Queued(0))], map[], [Job(0, 1, req)], 0, map[0 := Idle],
          map[(0, 1) := req], {}, [], {}, {})
  }

  lemma SubmittedRun(req: Request)
    requires req.bytes <= 4096
    ensures Run(Start(4096, {0}, {0}), [Deliver(0, req), Submit(0)]) == Submitted(req)
  {
    var q := Step(Start(4096, {0}, {0}), Deliver(0, req));
    assert q.tags == map[0 := Tag(Fetched(req), 1, 0, 0, Task)] && q.workers == map[0 := Idle];
    assert Step(q, Submit(0)) == Submitted(req);
    var acts := [Deliver(0, req), Submit(0)];
    assert acts[1..] == [Submit(0)] && acts[1..][1..] == [];
    assert Run(Step(q, Submit(0)), acts[1..][1..]) == Submitted(req);
  }

  // Such a run: the poll fails while the worker holds the job, and the volume then reads the dropped buffer.
  lemma FailedPollLeavesAJob(req: Request)
    requires req.op == Write && req.bytes <= 4096
    ensures Run(Start(4096, {0}, {0}), [Deliver(0, req), Submit(0)]) == Submitted(req)
    ensures var q := Run(Submitted(req), [Receive(0), PollFails(0)]);
            && q.workers == map[0 := Running(Job(0, 1, req))] && 0 in q.tags && BufferGone(q, 0)
            && Step(q, Perform(0, true)).dispatched == {Entry(0, 1, req, Dispatch(req, true))}
  {
    SubmittedRun(req);
    var q := Step(Step(Submitted(req), Receive(0)), PollFails(0));
    assert Run(Submitted(req), [Receive(0), PollFails(0)]) == q;
    assert q.workers == map[0 := Running(Job(0, 1, req))];
  }

  /**
   Every result committed by a tag none of whose drains failed answers the request the
   kernel delivered for that tag and generation: it is what the one dispatch of that request returned, or -EINVAL for a
   request larger than the buffer, which is never dispatched. A tag commits its
   requests in order, each at most once, and none whose poll failed.
   */
  lemma CommitsAnswerTheirRequests(q: Queue, i: nat)
    requires Reachable(q) && i < |q.committed| && q.committed[i].tag in q.tags
    ensures var e := q.committed[i];
            && (e.tag, e.gen) in q.delivered && q.delivered[(e.tag, e.gen)] == e.req
            && (Fits(q.buf, e.req) ==>
                  && (e.res == Dispatch(e.req, true) || e.res == Dispatch(e.req, false))
                  && forall d :: d in q.dispatched && d.tag == e.tag && d.gen == e.gen <==> d == e)
            && (!Fits(q.buf, e.req) ==>
                  && e.res == -EINVAL
                  && forall d :: d in q.dispatched ==> d.tag != e.tag || d.gen != e.gen)
    ensures (q.committed[i].tag, q.committed[i].gen) !in q.pollFailed
    ensures forall k :: i < k < |q.committed| && q.committed[k].tag == q.committed[i].tag ==>
              q.committed[i].gen < q.committed[k].gen
  {
    ReachableOk(q);
    var e := q.committed[i];
    assert CommitOk(q, e);
    if Fits(q.buf, e.req) { assert EntryOk(q, e); }
  }

  // ---- strays ----

  // Some failed drain of tag `t` is among the actions.
  ghost predicate FailsToDrain(q: Queue, acts: seq<Action>, t: nat)
    decreases |acts|
  {
    && |acts| > 0
    && ((acts[0] == DrainFails(t) && t in q.tags && q.tags[t].phase.Polled?)
        || FailsToDrain(Step(q, acts[0]), acts[1..], t))
  }

  lemma WorkerKeepsTags(q: Queue, a: Action)
    requires OfWorker(a)
    ensures Step(q, a).tags.Keys == q.tags.Keys
  {
  }

  lemma PutKeepsTags(q: Queue, t: nat)
    ensures forall tag :: Put(q, t, tag).tags.Keys == q.tags.Keys
  {
  }

  lemma TaskKeepsTags(q: Queue, a: Action)
    requires !OfWorker(a) && !a.DrainFails?
    ensures Step(q, a).tags.Keys == q.tags.Keys
  {
    PutKeepsTags(q, a.t);
  }

  lemma DrainFailsMovesTag(q: Queue, t: nat, u: nat)
    ensures u in StepDrainFails(q, t).tags <==> u in q.tags && !(u == t && q.tags[t].phase.Polled?)
  {
  }

  lemma TagStays(q: Queue, a: Action, t: nat)
    ensures t in Step(q, a).tags <==> t in q.tags && !(a == DrainFails(t) && q.tags[t].phase.Polled?)
  {
    if OfWorker(a) {
      WorkerKeepsTags(q, a);
    } else if a.DrainFails? {
      DrainFailsMovesTag(q, a.t, t);
    } else {
      TaskKeepsTags(q, a);
    }
    assert t in Step(q, a).tags <==> t in Step(q, a).tags.Keys;
  }

  lemma {:induction false} StrayForGood(q: Queue, acts: seq<Action>, t: nat)
    requires t !in q.tags
    ensures t !in Run(q, acts).tags && !FailsToDrain(q, acts, t)
    decreases |acts|
  {
    if |acts| > 0 {
      TagStays(q, acts[0], t);
      StrayForGood(Step(q, acts[0]), acts[1..], t);
    }
  }

  // The theorems about tags are about those that never failed to drain.
  lemma {:induction false} StraysIff(q: Queue, acts: seq<Action>, t: nat)
    requires t in q.tags
    ensures t !in Run(q, acts).tags <==> FailsToDrain(q, acts, t)
    decreases |acts|
  {
    if |acts| > 0 {
      TagStays(q, acts[0], t);
      if t in Step(q, acts[0]).tags {
        StraysIff(Step(q, acts[0]), acts[1..], t);
      } else {
        StrayForGood(Step(q, acts[0]), acts[1..], t);
      }
    }
  }

  lemma {:induction false} RunAppend(q: Queue, xs: seq<Action>, ys: seq<Action>)
    ensures Run(q, xs + ys) == Run(Run(q, xs), ys)
    decreases |xs|
  {
    if |xs| == 0 {
      assert xs + ys == ys;
    } else {
      assert (xs + ys)[0] == xs[0] && (xs + ys)[1..] == xs[1..] + ys;
      RunAppend(Step(q, xs[0]), xs[1..], ys);
    }
  }

  lemma RunReaches(q: Queue, acts: seq<Action>)
    requires Reachable(q)
    ensures Reachable(Run(q, acts))
  {
    var buf, tags, workers, first :| q == Run(Start(buf, tags, workers), first);
    RunAppend(Start(buf, tags, workers), first, acts);
  }

  lemma RunThree(q: Queue, a: Action, b: Action, c: Action)
    ensures Run(q, [a, b, c]) == Step(Step(Step(q, a), b), c)
  {
    var bc: seq<Action>, cs: seq<Action> := [b, c], [c];
    assert [a, b, c][1..] == bc && bc[1..] == cs && cs[1..] == [];
    var q1 := Step(q, a);
    var q2 := Step(q1, b);
    assert Run(q2, cs) == Step(q2, c);
    assert Run(q1, bc) == Run(q2, cs);
  }

  // The worker has answered the first request.
  function Answering(req: Request): Queue {
    Queue(4096, map[0 := Tag(Awaiting(req), 1, Dispatch(req, true), 0, Worker(0))], map[], [], 1,
          map[0 := Stored(Job(0, 1, req))], map[(0, 1) := req], {Entry(0, 1, req, Dispatch(req, true))}, [], {}, {})
  }

  // The task has read the answer, but its eventfd still counts one.
  function Undrained(req: Request): Queue {
    Queue(4096, map[], map[0 := Tag(Drained(req), 1, Dispatch(req, true), 1, Task)], [], 1,
          map[0 := Idle], map[(0, 1) := req], {Entry(0, 1, req, Dispatch(req, true))}, [], {(0, 1)}, {})
  }

  // It has committed the answer and fetched the next request.
  function Refetched(req: Request, next: Request): Queue {
    Queue(4096, map[], map[0 := Tag(Fetched(next), 2, Dispatch(req, true), 1, Task)], [], 1,
          map[0 := Idle], map[(0, 1) := req, (0, 2) := next], {Entry(0, 1, req, Dispatch(req, true))},
          [Entry(0, 1, req, Dispatch(req, true))], {(0, 1)}, {})
  }

  // It has sent the job of the next request, and the poll completes at once.
  function Repolled(req: Request, next: Request): Queue {
    Refetched(req, next).(strays := map[0 := Tag(Drained(next), 2, 0, 0, Queued(1))], chan := [Job(0, 2, next)])
  }

  // It has committed what it found in the slot.
  function ResetCommitted(req: Request, next: Request): Queue {
    Repolled(req, next).(strays := map[0 := Tag(WithKernel, 2, 0, 0, Kernel)],
                         committed := [Entry(0, 1, req, Dispatch(req, true)), Entry(0, 2, next, 0)])
  }

  lemma AnsweringRun(req: Request)
    requires req.bytes <= 4096
    ensures Run(Submitted(req), [Receive(0), Perform(0, true), Store(0)]) == Answering(req)
  {
    RunThree(Submitted(req), Receive(0), Perform(0, true), Store(0));
    var q := Step(Step(Submitted(req), Receive(0)), Perform(0, true));
    assert q.chan == [] && q.workers == map[0 := Holding(Job(0, 1, req), Dispatch(req, true))];
    assert q.tags == map[0 := Tag(Awaiting(req), 1, 0, 0, Worker(0))];
    assert q.dispatched == {Entry(0, 1, req, Dispatch(req, true))};
    assert Step(q, Store(0)) == Answering(req);
  }

  lemma UndrainedRun(req: Request)
    ensures Run(Answering(req), [Signal(0, true), Poll(0), DrainFails(0)]) == Undrained(req)
  {
    RunThree(Answering(req), Signal(0, true), Poll(0), DrainFails(0));
    var q := Step(Step(Answering(req), Signal(0, true)), Poll(0));
    assert q.tags == map[0 := Tag(Polled(req), 1, Dispatch(req, true), 1, Task)] && q.workers == map[0 := Idle];
    assert Step(q, DrainFails(0)) == Undrained(req);
  }

  lemma RefetchedRun(req: Request, next: Request)
    ensures Run(Undrained(req), [Load(0), Commit(0), Deliver(0, next)]) == Refetched(req, next)
  {
    RunThree(Undrained(req), Load(0), Commit(0), Deliver(0, next));
    var q := Step(Step(Undrained(req), Load(0)), Commit(0));
    assert q.strays == map[0 := Tag(WithKernel, 1, Dispatch(req, true), 1, Kernel)];
    assert q.committed == [Entry(0, 1, req, Dispatch(req, true))];
    assert Step(q, Deliver(0, next)) == Refetched(req, next);
  }

  lemma RepolledRun(req: Request, next: Request)
    requires next.bytes <= 4096
    ensures Run(Refetched(req, next), [Submit(0), Poll(0), Drain(0)]) == Repolled(req, next)
  {
    RunThree(Refetched(req, next), Submit(0), Poll(0), Drain(0));
    var q := Step(Step(Refetched(req, next), Submit(0)), Poll(0));
    assert q.strays == map[0 := Tag(Polled(next), 2, 0, 1, Queued(1))] && q.chan == [Job(0, 2, next)];
    assert Step(q, Drain(0)) == Repolled(req, next);
  }

  lemma ResetCommittedRun(req: Request, next: Request)
    ensures Run(Repolled(req, next), [Load(0), Commit(0), Poll(0)]) == ResetCommitted(req, next)
  {
    RunThree(Repolled(req, next), Load(0), Commit(0), Poll(0));
    var q := Step(Repolled(req, next), Load(0));
    assert q.strays == map[0 := Tag(Committing(next, 0), 2, 0, 0, Queued(1))];
    assert Step(q, Commit(0)) == ResetCommitted(req, next);
  }

  lemma Onward(q: Queue, acts: seq<Action>, q': Queue)
    requires Reachable(q) && Run(q, acts) == q'
    ensures Reachable(q')
  {
    RunReaches(q, acts);
  }

  lemma UndrainedReached(req: Request)
    requires req.bytes <= 4096
    ensures Reachable(Undrained(req))
  {
    SubmittedRun(req);
    AnsweringRun(req);
    UndrainedRun(req);
    Onward(Submitted(req), [Receive(0), Perform(0, true), Store(0)], Answering(req));
    Onward(Answering(req), [Signal(0, true), Poll(0), DrainFails(0)], Undrained(req));
  }

  lemma ResetCommittedReached(req: Request, next: Request)
    requires Reachable(Undrained(req)) && next.bytes <= 4096
    ensures Reachable(ResetCommitted(req, next))
  {
    RefetchedRun(req, next);
    RepolledRun(req, next);
    ResetCommittedRun(req, next);
    Onward(Undrained(req), [Load(0), Commit(0), Deliver(0, next)], Refetched(req, next));
    Onward(Refetched(req, next), [Submit(0), Poll(0), Drain(0)], Repolled(req, next));
    Onward(Repolled(req, next), [Load(0), Commit(0), Poll(0)], ResetCommitted(req, next));
  }

  /**
   After a failed drain the theorem above does fail: the next request is answered with the reset
   value of the result slot while its job is still in the channel.
   */
  lemma FailedDrainCommitsTheReset(req: Request, next: Request)
    requires req.bytes <= 4096 && next.bytes <= 4096
    ensures var q := ResetCommitted(req, next);
            && Reachable(q) && q.committed[1] == Entry(0, 2, next, 0)
            && q.chan == [Job(0, 2, next)] && forall e :: e in q.dispatched ==> e.gen == 1
  {
    UndrainedReached(req);
    ResetCommittedReached(req, next);
  }
}
