/**
 The claim attach stream: the orchestrator appends events to a job's log and sets
 its final state, a server task looks the job up and copies its log to a socket, and
 the client turns what arrives into a result. The socket may break after any message,
 and the coordinator may restart, which loses the job and its log.
 */
module ClaimStream {
  import opened Volumes
  import opened Wrappers

  datatype Event = PullingAncestor(vol: Ulid) | ForkCreated(fork: Ulid) | PrefetchStarted | PrefetchDone | Done

  datatype JobState = Running | Succeeded | Failed

  // Where the orchestrator stands. `Durable(u)`: finalize has completed everything but its event.
  datatype Phase =
    | Working
    | Durable(u: Ulid)
    | Announced(u: Ulid)
    | Warming(u: Ulid)
    | Warm(u: Ulid)
    | Ending(u: Ulid)
    | Ended(u: Ulid)
    | Broken

  // `Attaching`: the client has not been answered yet.
  datatype Reader = Attaching | Reading | Checking | Closed

  // The two errors the server declares: the job's own, and that no job is registered under the name.
  datatype Message = Item(event: Event) | Failure | NoJob

  /**
   `offset` is how far the server task has read the log; `sent` is what it has put on the
   socket. `lost`: the coordinator restarted since the job was registered, and the registry
   is empty. What is durable outlives a restart.
   */
  datatype Server = Server(phase: Phase, durable: set<Ulid>, events: seq<Event>, state: JobState,
                           reader: Reader, offset: nat, sent: seq<Message>, lost: bool)

  datatype Action = Pull(u: Ulid) | Finalize(u: Ulid) | Proceed | Fail | Lookup | Fetch | Check | Restart

  const Fresh := Server(Working, {}, [], Running, Attaching, 0, [], false)

  function Items(es: seq<Event>): (ms: seq<Message>)
    ensures |ms| == |es| && forall i :: 0 <= i < |es| ==> ms[i] == Item(es[i])
  {
    seq(|es|, i requires 0 <= i < |es| => Item(es[i]))
  }

  // The stages after `finalize` cannot fail; each appends its event in turn.
  function StepProceed(s: Server): Server {
    match s.phase
    case Durable(u) => s.(phase := Announced(u), events := s.events + [ForkCreated(u)])
    case Announced(u) => s.(phase := Warming(u), events := s.events + [PrefetchStarted])
    case Warming(u) => s.(phase := Warm(u), events := s.events + [PrefetchDone])
    case Warm(u) => s.(phase := Ending(u), events := s.events + [Done])
    case Ending(u) => s.(phase := Ended(u), state := Succeeded)
    case _ => s
  }

  // A restart ends the orchestrator and the server task where they stand.
  function StepRestart(s: Server): Server {
    if s.lost then s
    else s.(lost := true, reader := if s.reader == Reading || s.reader == Checking then Closed else s.reader)
  }

  function StepLookup(s: Server): Server {
    if s.reader != Attaching then s
    else if s.lost then s.(reader := Closed, sent := [NoJob])
    else s.(reader := Reading)
  }

  function Step(s: Server, a: Action): Server {
    match a
    case Pull(u) => if s.phase == Working && !s.lost then s.(events := s.events + [PullingAncestor(u)]) else s
    case Finalize(u) =>
      if s.phase == Working && !s.lost then s.(phase := Durable(u), durable := s.durable + {u}) else s
    case Proceed => if s.lost then s else StepProceed(s)
    case Fail => if s.phase == Working && !s.lost then s.(phase := Broken, state := Failed) else s
    case Lookup => StepLookup(s)
    case Fetch =>
      if s.reader == Reading && s.offset <= |s.events| then
        s.(sent := s.sent + Items(s.events[s.offset..]), offset := |s.events|, reader := Checking)
      else s
    case Check =>
      if s.reader != Checking then s
      else (match s.state
        case Running => s.(reader := Reading)
        case Succeeded => s.(reader := Closed)
        case Failed => s.(reader := Closed, sent := s.sent + [Failure]))
    case Restart => StepRestart(s)
  }

  function Run(s: Server, acts: seq<Action>): Server
    decreases |acts|
  {
    if |acts| == 0 then s else Run(Step(s, acts[0]), acts[1..])
  }

  ghost predicate Reachable(s: Server) { exists acts :: s == Run(Fresh, acts) }

  // ---- the client ----

  // One line off the socket. `Garbled` is a line that does not parse; the list ends where the socket does.
  datatype Line = Ok(event: Event) | ServerError | Garbled

  datatype AttachError = Interrupted | Declared | NoForkCreated

  // `finalize_or_err`: past `ForkCreated` an interruption is still a success.
  function FinalizeOrErr(seen: Option<Ulid>, err: AttachError): Result<Ulid, AttachError> {
    match seen case Some(u) => Result.Ok(u) case None => Err(err)
  }

  function Attach(lines: seq<Line>, seen: Option<Ulid>): Result<Ulid, AttachError>
    decreases |lines|
  {
    if |lines| == 0 then FinalizeOrErr(seen, Interrupted)
    else match lines[0]
      case Garbled => FinalizeOrErr(seen, Interrupted)
      case ServerError => Err(Declared)
      case Ok(Done) => FinalizeOrErr(seen, NoForkCreated)
      case Ok(ForkCreated(u)) => Attach(lines[1..], Some(u))
      case Ok(_) => Attach(lines[1..], seen)
  }

  method ClaimAttachByName(lines: seq<Line>) returns (r: Result<Ulid, AttachError>)
    ensures r == Attach(lines, None)
  {
    var seen := None;
    var i := 0;
    while i < |lines|
      invariant 0 <= i <= |lines|
      invariant Attach(lines[i..], seen) == Attach(lines, None)
    {
      assert lines[i..][1..] == lines[i + 1..];
      match lines[i] {
        case Garbled => return FinalizeOrErr(seen, Interrupted);
        case ServerError => return Err(Declared);
        case Ok(event) =>
          if event.ForkCreated? { seen := Some(event.fork); }
          if event.Done? { return FinalizeOrErr(seen, NoForkCreated); }
      }
      i := i + 1;
    }
    return FinalizeOrErr(seen, Interrupted);
  }

  // Both errors are the same envelope.
  function AsLine(m: Message): Line { if m.Item? then Line.Ok(m.event) else ServerError }

  // What the client reads: the first `n` messages, then possibly a torn line.
  function Delivered(sent: seq<Message>, n: nat, torn: bool): (lines: seq<Line>)
    requires n <= |sent|
    ensures |lines| == n + if torn then 1 else 0
    ensures forall i :: 0 <= i < n ==> lines[i] == AsLine(sent[i])
    ensures torn ==> lines[n] == Garbled
  {
    seq(n, i requires 0 <= i < n => AsLine(sent[i]))
    + if torn then [Garbled] else []
  }

  // ---- the invariant ----

  // The tail of the log a phase accounts for, after the pulls.
  function Tail(p: Phase): seq<Event> {
    match p
    case Announced(u) => [ForkCreated(u)]
    case Warming(u) => [ForkCreated(u), PrefetchStarted]
    case Warm(u) => [ForkCreated(u), PrefetchStarted, PrefetchDone]
    case Ending(u) => [ForkCreated(u), PrefetchStarted, PrefetchDone, Done]
    case Ended(u) => [ForkCreated(u), PrefetchStarted, PrefetchDone, Done]
    case _ => []
  }

  function Owner(p: Phase): Option<Ulid> {
    match p
    case Durable(u) => Some(u) case Announced(u) => Some(u) case Warming(u) => Some(u) case Warm(u) => Some(u)
    case Ending(u) => Some(u) case Ended(u) => Some(u)
    case _ => None
  }

  ghost predicate Pulls(es: seq<Event>) { forall i :: 0 <= i < |es| ==> es[i].PullingAncestor? }

  // The number of pulls in the log: everything before the phase's own events.
  ghost function Base(s: Server): int { |s.events| - |Tail(s.phase)| }

  ghost predicate SentOk(s: Server)
    requires s.offset <= |s.events|
  {
    || s.sent == Items(s.events[..s.offset])
    || (s.sent == Items(s.events[..s.offset]) + [Failure] && s.reader == Closed && s.state == Failed)
    || (s.sent == [NoJob] && s.offset == 0 && s.reader == Closed && s.lost)
  }

  // The client was not told that there is no job.
  ghost predicate Found(s: Server) { s.sent != [NoJob] }

  ghost predicate Inv(s: Server) {
    && Base(s) >= 0 && s.events == s.events[..Base(s)] + Tail(s.phase) && Pulls(s.events[..Base(s)])
    && s.durable == (if Owner(s.phase).Some? then {Owner(s.phase).value} else {})
    && (s.state == Succeeded <==> s.phase.Ended?) && (s.state == Failed <==> s.phase.Broken?)
    && s.offset <= |s.events| && (s.reader == Closed ==> s.state != Running || s.lost)
    && (s.reader == Attaching ==> s.offset == 0) && (s.reader == Reading || s.reader == Checking ==> !s.lost)
    && SentOk(s)
  }

  // The log gains one event of the next phase; what was sent still matches it.
  lemma LogGrows(s: Server, s': Server, e: Event)
    requires Inv(s) && s'.events == s.events + [e] && s'.offset == s.offset
    requires Tail(s'.phase) == Tail(s.phase) + [e]
    ensures s'.events[..s'.offset] == s.events[..s.offset]
    ensures Base(s') == Base(s) && s'.events[..Base(s')] == s.events[..Base(s)]
    ensures s'.events == s'.events[..Base(s')] + Tail(s'.phase)
  {
  }

  lemma ProceedKeeps(s: Server)
    requires Inv(s) && !s.lost
    ensures Inv(StepProceed(s))
  {
    var s' := StepProceed(s);
    match s.phase
    case Durable(u) => LogGrows(s, s', ForkCreated(u));
    case Announced(u) => LogGrows(s, s', PrefetchStarted);
    case Warming(u) => LogGrows(s, s', PrefetchDone);
    case Warm(u) => LogGrows(s, s', Done);
    case _ =>
  }

  lemma PullKeeps(s: Server, u: Ulid)
    requires Inv(s) && s.phase == Working && !s.lost
    ensures Inv(s.(events := s.events + [PullingAncestor(u)]))
  {
    var s' := s.(events := s.events + [PullingAncestor(u)]);
    assert s'.events[..s'.offset] == s.events[..s.offset];
    assert s.events[..Base(s)] == s.events && s'.events[..Base(s')] == s'.events;
  }

  lemma ItemsJoin(es: seq<Event>, o: nat)
    requires o <= |es|
    ensures Items(es[..o]) + Items(es[o..]) == Items(es[..|es|])
  {
    assert es[..o] + es[o..] == es[..|es|];
  }

  lemma FetchKeeps(s: Server)
    requires Inv(s)
    ensures Inv(Step(s, Fetch))
  {
    if s.reader == Reading { ItemsJoin(s.events, s.offset); }
  }

  lemma StepKeeps(s: Server, a: Action)
    requires Inv(s)
    ensures Inv(Step(s, a))
  {
    match a
    case Pull(u) => if s.phase == Working && !s.lost { PullKeeps(s, u); }
    case Finalize(u) =>
    case Proceed => if !s.lost { ProceedKeeps(s); }
    case Fail =>
    case Lookup =>
    case Fetch => FetchKeeps(s);
    case Check =>
    case Restart =>
  }

  lemma {:induction false} RunKeeps(s: Server, acts: seq<Action>)
    requires Inv(s)
    ensures Inv(Run(s, acts))
    decreases |acts|
  {
    if |acts| > 0 {
      StepKeeps(s, acts[0]);
      RunKeeps(Step(s, acts[0]), acts[1..]);
    }
  }

  lemma ReachableOk(s: Server)
    requires Reachable(s)
    ensures Inv(s)
  {
    var acts :| s == Run(Fresh, acts);
    RunKeeps(Fresh, acts);
  }

  // ---- what the client can conclude ----

  // `lines` carries pulls, then at most the phase's own events.
  lemma {:induction false} AttachSkipsPulls(lines: seq<Line>, k: nat)
    requires k <= |lines| && forall i :: 0 <= i < k ==> lines[i].Ok? && lines[i].event.PullingAncestor?
    ensures Attach(lines, None) == Attach(lines[k..], None)
    decreases k
  {
    if k == 0 {
      assert lines[0..] == lines;
    } else {
      AttachSkipsPulls(lines[1..], k - 1);
      assert lines[1..][k - 1..] == lines[k..];
    }
  }

  // From `ForkCreated(u)` on, whatever prefix of the remaining events arrives, torn or not, the answer is u.
  lemma AttachAfterFork(lines: seq<Line>, u: Ulid)
    requires |lines| > 0 && lines[0] == Line.Ok(ForkCreated(u))
    requires forall i :: 0 < i < |lines| ==>
               lines[i] in [Line.Ok(PrefetchStarted), Line.Ok(PrefetchDone), Line.Ok(Done), Garbled]
    ensures Attach(lines, None) == Result.Ok(u)
  {
    AttachKeepsSeen(lines[1..], u);
  }

  lemma {:induction false} AttachKeepsSeen(lines: seq<Line>, u: Ulid)
    requires forall i :: 0 <= i < |lines| ==>
               lines[i] in [Line.Ok(PrefetchStarted), Line.Ok(PrefetchDone), Line.Ok(Done), Garbled]
    ensures Attach(lines, Some(u)) == Result.Ok(u)
    decreases |lines|
  {
    if |lines| > 0 { AttachKeepsSeen(lines[1..], u); }
  }

  ghost predicate PullsSent(sent: seq<Message>, k: nat)
    requires k <= |sent|
  {
    forall i :: 0 <= i < k ==> sent[i].Item? && sent[i].event.PullingAncestor?
  }

  lemma SentBeforeTheFork(s: Server, n: nat)
    requires Inv(s) && Found(s) && n <= |s.sent| && (n <= Base(s) || |Tail(s.phase)| == 0)
    ensures PullsSent(s.sent, if n <= s.offset then n else n - 1) && (s.offset < n ==> s.sent[n - 1] == Failure)
  {
    forall i | 0 <= i < n && i < s.offset ensures s.sent[i].Item? && s.sent[i].event.PullingAncestor? {
      assert s.sent[i] == Item(s.events[i]) && s.events[i] == s.events[..Base(s)][i];
    }
  }

  // Pulls, and then nothing, an error or a torn line.
  lemma AttachPulls(sent: seq<Message>, n: nat, k: nat, torn: bool)
    requires n <= |sent| && k <= n <= k + 1 && PullsSent(sent, k) && (k < n ==> sent[k] == Failure)
    ensures Attach(Delivered(sent, n, torn), None).Err?
    ensures Attach(Delivered(sent, n, torn), None) == Err(Declared) <==> k < n
  {
    var lines := Delivered(sent, n, torn);
    AttachSkipsPulls(lines, k);
    assert |lines[k..]| > 0 ==> lines[k..][0] == lines[k];
  }

  // Nothing but pulls, an error or a torn line has been delivered.
  lemma BeforeTheFork(s: Server, n: nat, torn: bool)
    requires Inv(s) && Found(s) && n <= |s.sent| && (n <= Base(s) || |Tail(s.phase)| == 0)
    ensures Attach(Delivered(s.sent, n, torn), None).Err?
    ensures Attach(Delivered(s.sent, n, torn), None) == Err(Declared) <==> Failure in s.sent[..n]
    ensures NoJob !in s.sent[..n] && forall u :: Item(ForkCreated(u)) !in s.sent[..n]
  {
    var k := if n <= s.offset then n else n - 1;
    SentBeforeTheFork(s, n);
    AttachPulls(s.sent, n, k, torn);
    assert k < n ==> s.sent[..n][k] == Failure;
  }

  // What follows the pulls on the socket is a prefix of the phase's own events.
  lemma SentTail(s: Server, i: nat)
    requires Inv(s) && Found(s) && |Tail(s.phase)| > 0 && Base(s) <= i < |s.sent|
    ensures i - Base(s) < |Tail(s.phase)| && s.sent[i] == Item(Tail(s.phase)[i - Base(s)])
  {
    assert s.state != Failed;
    assert s.sent[i] == Item(s.events[i]);
  }

  lemma SentAfterTheFork(s: Server, n: nat)
    requires Inv(s) && Found(s) && Base(s) < n <= |s.sent| && |Tail(s.phase)| > 0
    ensures Failure !in s.sent[..n] && NoJob !in s.sent[..n]
    ensures forall u :: Item(ForkCreated(u)) in s.sent[..n] <==> u == Owner(s.phase).value
  {
    forall i | 0 <= i < n
      ensures s.sent[..n][i].Item? && (s.sent[..n][i].event.ForkCreated? ==>
                s.sent[..n][i].event.fork == Owner(s.phase).value)
    {
      if i >= Base(s) { SentTail(s, i); } else { assert s.sent[i] == Item(s.events[..Base(s)][i]); }
    }
    SentTail(s, Base(s));
    assert s.sent[..n][Base(s)] == Item(ForkCreated(Owner(s.phase).value));
  }

  lemma AfterTheFork(s: Server, n: nat, torn: bool)
    requires Inv(s) && Found(s) && Base(s) < n <= |s.sent| && |Tail(s.phase)| > 0
    ensures Attach(Delivered(s.sent, n, torn), None) == Result.Ok(Owner(s.phase).value)
    ensures Failure !in s.sent[..n] && NoJob !in s.sent[..n]
    ensures forall u :: Item(ForkCreated(u)) in s.sent[..n] <==> u == Owner(s.phase).value
  {
    SentAfterTheFork(s, n);
    AttachedAfterTheFork(s, n, torn);
  }

  lemma AttachedAfterTheFork(s: Server, n: nat, torn: bool)
    requires Inv(s) && Found(s) && Base(s) < n <= |s.sent| && |Tail(s.phase)| > 0
    ensures Attach(Delivered(s.sent, n, torn), None) == Result.Ok(Owner(s.phase).value)
  {
    var base, lines := Base(s), Delivered(s.sent, n, torn);
    forall i | base <= i < n ensures lines[i] == Line.Ok(Tail(s.phase)[i - base]) { SentTail(s, i); }
    forall i | 0 <= i < base ensures lines[i].Ok? && lines[i].event.PullingAncestor? {
      assert s.sent[i] == Item(s.events[..base][i]);
    }
    AttachSkipsPulls(lines, base);
    var rest := lines[base..];
    TailAfterFork(s.phase, 0);
    forall i | 0 < i < |rest|
      ensures rest[i] in [Line.Ok(PrefetchStarted), Line.Ok(PrefetchDone), Line.Ok(Done), Garbled]
    {
      if base + i < n {
        SentTail(s, base + i);
        TailAfterFork(s.phase, i);
        assert rest[i] == Line.Ok(Tail(s.phase)[i]);
      } else {
        assert rest[i] == Garbled;
      }
    }
    AttachAfterFork(rest, Owner(s.phase).value);
  }

  lemma TailAfterFork(p: Phase, i: nat)
    requires i < |Tail(p)|
    ensures Owner(p).Some? && Tail(p)[0] == ForkCreated(Owner(p).value)
    ensures i > 0 ==> Tail(p)[i] in [PrefetchStarted, PrefetchDone, Done]
  {
  }

  lemma ToldNoJob(s: Server, n: nat, torn: bool)
    requires Inv(s) && !Found(s) && n <= 1
    ensures Attach(Delivered(s.sent, n, torn), None) == Err(if n == 1 then Declared else Interrupted)
    ensures NoJob in s.sent[..n] <==> n == 1
    ensures Failure !in s.sent[..n] && forall u :: Item(ForkCreated(u)) !in s.sent[..n]
  {
    if n == 1 { assert s.sent[..n][0] == NoJob; }
  }

  /**
   For every server run, restarts included, and every point at which the socket breaks:
   the client answers Ok(u) exactly when ForkCreated(u) was among the messages delivered,
   and then finalize had completed for u. It reports a declared failure exactly when the
   server sent one, be it the job's or that of the lookup.
   */
  lemma ClientMatchesServer(s: Server, n: nat, torn: bool, u: Ulid)
    requires Reachable(s) && n <= |s.sent|
    ensures Attach(Delivered(s.sent, n, torn), None) == Result.Ok(u) <==> Item(ForkCreated(u)) in s.sent[..n]
    ensures Attach(Delivered(s.sent, n, torn), None) == Result.Ok(u) ==> u in s.durable
    ensures Attach(Delivered(s.sent, n, torn), None) == Err(Declared) <==>
              Failure in s.sent[..n] || NoJob in s.sent[..n]
  {
    ReachableOk(s);
    if !Found(s) {
      ToldNoJob(s, n, torn);
    } else if n <= Base(s) || |Tail(s.phase)| == 0 {
      BeforeTheFork(s, n, torn);
    } else {
      AfterTheFork(s, n, torn);
    }
  }

  // The job's own failure means finalize never completed, and never will in this job.
  lemma DeclaredFailureIsFinal(s: Server, acts: seq<Action>)
    requires Reachable(s) && Failure in s.sent
    ensures Run(s, acts).durable == {} && forall u :: ForkCreated(u) !in Run(s, acts).events
  {
    ReachableOk(s);
    assert s.phase == Broken;
    BrokenStays(s, acts);
  }

  lemma {:induction false} BrokenStays(s: Server, acts: seq<Action>)
    requires Inv(s) && s.phase == Broken
    ensures Run(s, acts).durable == {} && forall u :: ForkCreated(u) !in Run(s, acts).events
    decreases |acts|
  {
    if |acts| == 0 {
      assert s.events[..Base(s)] == s.events;
    } else {
      StepKeeps(s, acts[0]);
      BrokenStays(Step(s, acts[0]), acts[1..]);
    }
  }

  // ---- which schedules lose the answer ----

  lemma {:induction false} RunAppend(s: Server, xs: seq<Action>, ys: seq<Action>)
    ensures Run(s, xs + ys) == Run(Run(s, xs), ys)
    decreases |xs|
  {
    if |xs| == 0 {
      assert xs + ys == ys;
    } else {
      assert (xs + ys)[0] == xs[0] && (xs + ys)[1..] == xs[1..] + ys;
      RunAppend(Step(s, xs[0]), xs[1..], ys);
    }
  }

  // The state before action `i`.
  function Before(acts: seq<Action>, i: nat): Server
    requires i <= |acts|
  {
    Run(Fresh, acts[..i])
  }

  lemma BeforeNext(acts: seq<Action>, i: nat)
    requires i < |acts|
    ensures Before(acts, i + 1) == Step(Before(acts, i), acts[i])
  {
    assert acts[..i + 1] == acts[..i] + [acts[i]];
    RunAppend(Fresh, acts[..i], [acts[i]]);
    assert [acts[i]][1..] == [];
  }

  // The log is read while `ForkCreated` is in it.
  predicate ReadsFork(acts: seq<Action>, i: nat)
    requires i < |acts|
  {
    acts[i] == Fetch && Before(acts, i).reader == Reading && |Tail(Before(acts, i).phase)| > 0
  }

  // The steps that end the stream of a finished job.
  ghost predicate Closing(s: Server, a: Action) {
    || (a == Check && s.reader == Checking)
    || (a == Restart && (s.reader == Reading || s.reader == Checking))
    || (a == Lookup && s.reader == Attaching && s.lost)
  }

  // The stream of a finished job ends here, with the whole of the phase's events unread.
  ghost predicate ClosesUnread(acts: seq<Action>, i: nat)
    requires i < |acts|
  {
    Closing(Before(acts, i), acts[i]) && Before(acts, i).state == Succeeded && !ForkRead(Before(acts, i))
  }

  ghost predicate ForkRead(s: Server) { |Tail(s.phase)| > 0 && s.offset > Base(s) }

  lemma ForkReadStep(s: Server, a: Action)
    requires Inv(s)
    ensures ForkRead(Step(s, a)) <==> ForkRead(s) || (a == Fetch && s.reader == Reading && |Tail(s.phase)| > 0)
  {
  }

  lemma BeforeOk(acts: seq<Action>, n: nat)
    requires n <= |acts|
    ensures Inv(Before(acts, n))
  {
    RunKeeps(Fresh, acts[..n]);
  }

  lemma ForkReadNext(acts: seq<Action>, n: nat)
    requires n < |acts|
    ensures ForkRead(Before(acts, n + 1)) <==> ForkRead(Before(acts, n)) || ReadsFork(acts, n)
  {
    BeforeOk(acts, n);
    BeforeNext(acts, n);
    ForkReadStep(Before(acts, n), acts[n]);
  }

  ghost predicate SomeReadBy(acts: seq<Action>, n: nat)
    requires n <= |acts|
  {
    exists i :: 0 <= i < n && ReadsFork(acts, i)
  }

  lemma {:induction false} ForkReadIff(acts: seq<Action>, n: nat)
    requires n <= |acts|
    ensures ForkRead(Before(acts, n)) <==> SomeReadBy(acts, n)
    decreases n
  {
    if n == 0 {
      assert acts[..0] == [];
    } else {
      ForkReadIff(acts, n - 1);
      ForkReadNext(acts, n - 1);
      assert SomeReadBy(acts, n) <==> SomeReadBy(acts, n - 1) || ReadsFork(acts, n - 1);
    }
  }

  // Once the stream of a finished job is closed nothing changes any more but that a restart forgets the job.
  lemma {:induction false} ClosedIsFinal(s: Server, acts: seq<Action>)
    requires Inv(s) && s.reader == Closed && s.state == Succeeded
    ensures Run(s, acts) == s.(lost := Run(s, acts).lost)
    decreases |acts|
  {
    if |acts| > 0 {
      StepKeeps(s, acts[0]);
      ClosedIsFinal(Step(s, acts[0]), acts[1..]);
    }
  }

  lemma ClosingStep(s: Server, a: Action)
    requires Inv(s) && Step(s, a).reader == Closed && Step(s, a).state == Succeeded
    ensures s.state == Succeeded && (ForkRead(Step(s, a)) <==> ForkRead(s))
    ensures s.reader != Closed ==> Closing(s, a)
  {
  }

  lemma {:induction false} ClosingCheck(acts: seq<Action>, n: nat) returns (i: nat)
    requires n <= |acts| && Before(acts, n).reader == Closed && Before(acts, n).state == Succeeded
    ensures i < n && Closing(Before(acts, i), acts[i]) && Before(acts, i).state == Succeeded
    ensures ForkRead(Before(acts, i)) <==> ForkRead(Before(acts, n))
    decreases n
  {
    assert acts[..0] == [];
    assert n > 0;
    BeforeOk(acts, n - 1);
    BeforeNext(acts, n - 1);
    ClosingStep(Before(acts, n - 1), acts[n - 1]);
    i := n - 1;
    if Before(acts, n - 1).reader == Closed {
      i := ClosingCheck(acts, n - 1);
    }
  }

  /**
   A finished job and an unbroken socket do not by themselves give Ok: the server task
   reads the log first and the state second, and stops at a final state without
   reading again. Over every schedule, the client succeeds exactly if some read of the
   log ran after ForkCreated was in it, and fails exactly if the stream ended with the
   job finished and ForkCreated unread: by the state check, unless a restart came first.
   */
  lemma UnbrokenStreamOfAFinishedJob(acts: seq<Action>)
    requires Run(Fresh, acts).reader == Closed && Run(Fresh, acts).state == Succeeded
    ensures var s := Run(Fresh, acts); var r := Attach(Delivered(s.sent, |s.sent|, false), None);
            && Owner(s.phase).Some? && s.durable == {Owner(s.phase).value}
            && (r.Ok? <==> exists i :: 0 <= i < |acts| && ReadsFork(acts, i))
            && (r.Err? <==> exists i :: 0 <= i < |acts| && ClosesUnread(acts, i))
            && (r.Err? && !s.lost ==> exists i :: 0 <= i < |acts| && acts[i] == Check && ClosesUnread(acts, i))
  {
    var s := Run(Fresh, acts);
    assert acts[..|acts|] == acts;
    BeforeOk(acts, |acts|);
    ForkReadIff(acts, |acts|);
    FinishedAnswer(s);
    var c := ClosingCheck(acts, |acts|);
    if !ForkRead(s) { assert ClosesUnread(acts, c); }
    if !s.lost { LostStays(acts, c); }
    forall i | 0 <= i < |acts| && ClosesUnread(acts, i) ensures !ForkRead(s) { UnreadStays(acts, i); }
  }

  // A restart, or a lookup after one, leaves the job lost.
  lemma LostStays(acts: seq<Action>, i: nat)
    requires i < |acts| && Closing(Before(acts, i), acts[i])
    ensures acts[i] != Check ==> Run(Fresh, acts).lost
  {
    BeforeOk(acts, i);
    BeforeNext(acts, i);
    RunFrom(acts, i + 1);
    LostForGood(Before(acts, i + 1), acts[i + 1..]);
  }

  lemma {:induction false} LostForGood(s: Server, acts: seq<Action>)
    ensures s.lost ==> Run(s, acts).lost
    decreases |acts|
  {
    if |acts| > 0 { LostForGood(Step(s, acts[0]), acts[1..]); }
  }

  lemma FinishedAnswer(s: Server)
    requires Inv(s) && s.reader == Closed && s.state == Succeeded
    ensures Attach(Delivered(s.sent, |s.sent|, false), None).Ok? <==> ForkRead(s)
  {
    if !Found(s) {
      ToldNoJob(s, |s.sent|, false);
    } else if s.offset <= Base(s) {
      BeforeTheFork(s, |s.sent|, false);
    } else {
      AfterTheFork(s, |s.sent|, false);
    }
  }

  lemma RunFrom(acts: seq<Action>, i: nat)
    requires i <= |acts|
    ensures Run(Fresh, acts) == Run(Before(acts, i), acts[i..])
  {
    assert acts == acts[..i] + acts[i..];
    RunAppend(Fresh, acts[..i], acts[i..]);
  }

  lemma ClosedUnread(s: Server, a: Action, rest: seq<Action>)
    requires Inv(s) && Closing(s, a) && s.state == Succeeded && !ForkRead(s)
    ensures !ForkRead(Run(Step(s, a), rest))
  {
    StepKeeps(s, a);
    ClosedIsFinal(Step(s, a), rest);
  }

  lemma UnreadStays(acts: seq<Action>, i: nat)
    requires i < |acts| && ClosesUnread(acts, i)
    ensures !ForkRead(Run(Fresh, acts))
  {
    BeforeOk(acts, i);
    BeforeNext(acts, i);
    RunFrom(acts, i + 1);
    ClosedUnread(Before(acts, i), acts[i], acts[i + 1..]);
  }

  const Announcing := Server(Durable(7), {7}, [], Running, Checking, 0, [], false)

  const Ending7 :=
    Server(Ending(7), {7}, [ForkCreated(7), PrefetchStarted, PrefetchDone, Done], Running, Checking, 0, [], false)

  lemma ReadThenFinalize()
    ensures Run(Fresh, [Lookup, Fetch, Finalize(7)]) == Announcing
  {
    assert Step(Step(Step(Fresh, Lookup), Fetch), Finalize(7)) == Announcing;
  }

  lemma AppendTheRest()
    ensures Run(Announcing, [Proceed, Proceed, Proceed, Proceed]) == Ending7
  {
    var s := Step(Step(Announcing, Proceed), Proceed);
    assert s.events == [ForkCreated(7), PrefetchStarted];
    assert Step(Step(s, Proceed), Proceed) == Ending7;
  }

  // A schedule that shows it: one read of the empty log, the whole job, then the state check.
  lemma FinishedJobCanLookInterrupted()
    ensures Run(Fresh, [Lookup, Fetch, Finalize(7)]) == Announcing
    ensures Run(Announcing, [Proceed, Proceed, Proceed, Proceed]) == Ending7
    ensures var s := Run(Ending7, [Proceed, Check]);
            && s.reader == Closed && s.state == Succeeded && s.durable == {7}
            && Attach(Delivered(s.sent, |s.sent|, false), None) == Err(Interrupted)
  {
    ReadThenFinalize();
    AppendTheRest();
    assert Run(Ending7, [Proceed, Check]) == Step(Step(Ending7, Proceed), Check);
  }

  // ---- which declared failures leave a durable fork behind ----

  ghost predicate Finalizes(acts: seq<Action>, i: nat)
    requires i < |acts|
  {
    acts[i].Finalize? && Before(acts, i).phase == Working && !Before(acts, i).lost
  }

  // The lookup comes after a restart.
  ghost predicate FindsNoJob(acts: seq<Action>, i: nat)
    requires i < |acts|
  {
    acts[i] == Lookup && Before(acts, i).reader == Attaching && Before(acts, i).lost
  }

  ghost predicate SomeFinalize(acts: seq<Action>, n: nat)
    requires n <= |acts|
  {
    exists i :: 0 <= i < n && Finalizes(acts, i)
  }

  ghost predicate SomeNoJob(acts: seq<Action>, n: nat)
    requires n <= |acts|
  {
    exists i :: 0 <= i < n && FindsNoJob(acts, i)
  }

  lemma AnswerStep(s: Server, a: Action)
    requires Inv(s)
    ensures Step(s, a).durable != {} <==> s.durable != {} || (a.Finalize? && s.phase == Working && !s.lost)
    ensures NoJob in Step(s, a).sent <==> NoJob in s.sent || (a == Lookup && s.reader == Attaching && s.lost)
  {
  }

  lemma {:induction false} AnswersByThen(acts: seq<Action>, n: nat)
    requires n <= |acts|
    ensures Before(acts, n).durable != {} <==> SomeFinalize(acts, n)
    ensures NoJob in Before(acts, n).sent <==> SomeNoJob(acts, n)
    decreases n
  {
    if n == 0 {
      assert acts[..0] == [];
    } else {
      AnswersByThen(acts, n - 1);
      BeforeOk(acts, n - 1);
      BeforeNext(acts, n - 1);
      AnswerStep(Before(acts, n - 1), acts[n - 1]);
      assert SomeFinalize(acts, n) <==> SomeFinalize(acts, n - 1) || Finalizes(acts, n - 1);
      assert SomeNoJob(acts, n) <==> SomeNoJob(acts, n - 1) || FindsNoJob(acts, n - 1);
    }
  }

  /**
   The client takes a declared failure to mean that finalize never completed. Over every
   schedule, one leaves a durable fork behind exactly if finalize completed and the lookup
   then found no job.
   */
  lemma DeclaredFailureHidesAForkIff(acts: seq<Action>)
    ensures var s := Run(Fresh, acts);
            Attach(Delivered(s.sent, |s.sent|, false), None) == Err(Declared) && s.durable != {} <==>
              (exists i :: 0 <= i < |acts| && Finalizes(acts, i)) && exists i :: 0 <= i < |acts| && FindsNoJob(acts, i)
  {
    var s := Run(Fresh, acts);
    assert acts[..|acts|] == acts && s.sent[..|s.sent|] == s.sent;
    AnswersByThen(acts, |acts|);
    ClientMatchesServer(s, |s.sent|, false, 0);
    if Failure in s.sent { DeclaredFailureIsFinal(s, []); }
  }

  lemma RunTwo(s: Server, a: Action, b: Action)
    ensures Run(s, [a, b]) == Step(Step(s, a), b)
  {
    assert [a, b][1..] == [b] && [b][1..] == [];
    assert Run(Step(s, a), [b]) == Step(Step(s, a), b);
  }

  // Such a run: the fork is announced, the coordinator restarts, and only then does the client attach.
  lemma RestartHidesAFork(u: Ulid)
    ensures var s := Run(Fresh, [Finalize(u), Proceed, Restart, Lookup]);
            && Attach(Delivered(s.sent, |s.sent|, false), None) == Err(Declared)
            && NoJob in s.sent && s.durable == {u} && ForkCreated(u) in s.events
  {
    var first, second := [Finalize(u), Proceed], [Restart, Lookup];
    RunAppend(Fresh, first, second);
    assert first + second == [Finalize(u), Proceed, Restart, Lookup];
    RunTwo(Fresh, Finalize(u), Proceed);
    var mid := Run(Fresh, first);
    assert mid == Server(Announced(u), {u}, [ForkCreated(u)], Running, Attaching, 0, [], false);
    RunTwo(mid, Restart, Lookup);
    assert Run(mid, second).sent == [NoJob];
  }

  /** A declared failure means that finalize never completed exactly if it is the failed job's own. */
  lemma DeclaredMeansUnfinishedIff(m: Message)
    requires !m.Item?
    ensures (forall s :: Reachable(s) && m in s.sent ==> s.durable == {}) <==> m == Failure
  {
    if m == Failure {
      forall s | Reachable(s) && m in s.sent ensures s.durable == {} { DeclaredFailureIsFinal(s, []); }
    } else {
      RestartHidesAFork(7);
      var s := Run(Fresh, [Finalize(7), Proceed, Restart, Lookup]);
      assert Reachable(s);
    }
  }
}
