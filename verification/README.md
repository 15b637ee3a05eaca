# elide in Dafny

A model of the hard core of elide, a log-structured block-device service over object storage, with
proofs of what its protocols and algorithms promise. `dafny verify dfyconfig.toml` checks all of it.

What is modelled, module by module:

- `Claim`: any number of coordinators claiming one name over a shared bucket with conditional
  writes, as a state machine over single bucket and filesystem steps. A job may stop before any
  step; other parties create volumes, fork, publish snapshots and rewrite the name.
- `SkipWalk`: the ancestor pull and the walk over empty forks of one claim job, with the guard that
  removes pulled directories when the job fails.
- `ClaimStream`: the event log of a claim job, the server task that looks it up and streams it, and the
  client that attaches, over a socket that may break or tear a line anywhere and a coordinator that may
  restart.
- `UblkQueue`: the tag tasks and worker threads of one ublk queue, with ring
  commands and eventfd reads and writes that may fail.
- `UblkBinding`: routing a volume to a ublk device by a persisted id that may be stale.
- `Creds`: the lazily built, idle-dropped credential cache under concurrent callers.
- `Lineage`, `Cid`, `Discharge`: the attestation authority: signed-lineage walk, CID plaintext
  layout, freshness, single use and the grant decision.
- `Gear`, `Sketch`: the rolling hash and the super-feature sketches.
- `Spans`, `DiffImages`, `DeltaSim`: span partition, the chunked image diff and the byte accounting
  of a measurement.
- `ExtentTree`, `Trace`: the two extent-tree walkers and the boot-trace text format.
- `HexText`, `Volumes`, `Wrappers`: what they share.

Protocols are a datatype of actions, a step function in which a disabled action does nothing, and
runs over any sequence of actions; each theorem is about every reachable state. Loops are methods
proved against functions, and the theorems are about those functions. Results of the outside world
(what a volume, an issuer, a backend or a compressor answers, what a clock reads) are arguments of
the actions, so the theorems hold whatever they are. Cryptographic primitives are arbitrary
functions; only opening is assumed to undo sealing, and only where a row says so.

Where the code and its comments disagree, the model follows the code:

- A claim reads the Released record when it starts and `mark_claimed` reads it again, without
  being told which release it is to take. `Claim.BoundForkIsAnchored` gives the exact condition under
  which the fork continues what it overwrote; `Claim.StaleReadPinsAnOlderHandoff` is a run where it
  does not.
- The claim stream checks the job's state after reading its log and does not read again at a final
  state, so a finished job can look interrupted. `ClaimStream.UnbrokenStreamOfAFinishedJob` says which
  schedules do; `ClaimStream.FinishedJobCanLookInterrupted` is one.
- The client takes a declared failure to mean that finalize never completed. The server also declares
  one when the registry has no job, as after a restart. `ClaimStream.DeclaredMeansUnfinishedIff` and
  `ClaimStream.DeclaredFailureHidesAForkIff` say when the client is right;
  `ClaimStream.RestartHidesAFork` is a run where it is not.
- The skip walk is to pass over every fork that minted nothing. Its test compares the last segment
  strictly with the parent snapshot, which is tagged with the parent's last segment, so a fork whose
  manifest repeats its parent's is kept. `SkipWalk.NoOpForkIsSkippedIff` gives the exact condition;
  `SkipWalk.VerbatimForkIsKept` is such a chain.
- `reissue_after_denial` is documented to reach the coordinator at most once for concurrent
  denials. Two causes make it more: an idle drop between two of them, and a failed reissue, which leaves
  the denied fetcher cached. `Creds.DenialAsksIff` gives the exact condition;
  `Creds.IdleDropBreaksSingleFlight` and `Creds.FailedReissueBreaksSingleFlight` are the two runs.
- A tag task owns its buffer for the queue's lifetime, and the worker's raw pointer relies on it. A
  failed poll ends the task while its job is out. `UblkQueue.JobOutlivesBufferIff` says exactly when a
  job outlives its buffer; `UblkQueue.FailedPollLeavesAJob` is a run.
- A failed read of a tag's eventfd is only logged, and leaves it counting. The theorems about a tag hold
  until that happens to it (`UblkQueue.StraysIff`); `UblkQueue.FailedDrainCommitsTheReset` is a run in
  which the next request is then answered with the reset value.
- The lineage walk's cycle test looks at the whole read set, not at the chain, and so rejects chains
  without a cycle.
- The seen-cache is to make a possession proof single-use. It does not across clock values that step
  back (the clock is read before the lock is taken), nor for a proof whose nonce or volume is spelled in
  two ways, since the cache is keyed by text and the proof is verified over decoded bytes.
  `Discharge.ProofsAreSingleUseIff` gives the exact condition; `Discharge.ClockStepReadmits` and
  `Discharge.RespelledProofEarnsAgain` are the two kinds of run.
- The Tier-1 replay keeps a delta smaller than the LZ4-stored size; the file header also asks it to
  beat plain zstd, which only the similarity stage does. `DeltaSim.ReplayMeetsHeaderIff` says on which
  measurements the two rules agree; `DeltaSim.ReplayKeepsALosingDelta` is an input where they do not.

## Model

| member | source | states |
|---|---|---|
| `Claim.OneClaimPerRelease` | elide-coordinator/src/claim.rs:583-786 | in every run of any number of claims, with a crash possible before any step, two claims that took the same version of the name record are one |
| `Claim.TakenWasReleased` | elide-coordinator/src/lifecycle.rs:745-800 | in every such run the version a claim takes was Released, and the next version binds that claim's fork |
| `Claim.BoundForkIsAnchored` | elide-coordinator/src/claim.rs:899-943 | whenever the name binds a claim-minted fork, its key and provenance are published, and the provenance's parent is reached from the handoff that was read by published provenance hops exposing the same segments; it exposes the handoff that was OVERWRITTEN exactly when the two handoffs do |
| `Claim.SameRecordContinuesTheHandoff` | elide-coordinator/src/claim.rs:583-786 | if the record overwritten is the record read, the bound fork exposes exactly the released handoff |
| `Claim.StaleReadPinsAnOlderHandoff` | elide-coordinator/src/lifecycle.rs:745-800 | a concrete run without that hypothesis: the owner takes the name back and releases a newer snapshot between the read and the mark, and the bound fork pins the older one |
| `Claim.NoHalfBuiltForkIsDiscovered` | elide-coordinator/src/claim.rs:598-607 | at every crash point a fork directory with `volume.key` has `volume.claiming` or `volume.stopped`; one that discovery admits is complete, parked, took the name, and its published provenance pins the effective ancestor |
| `Claim.EmptyExposesParent` | elide-coordinator/src/claim.rs:1054-1133 | an empty fork's snapshot exposes exactly what its parent pin exposes, at an older snapshot |
| `Claim.StepKeeps` | elide-coordinator/src/claim.rs:548-786 | every step of every job and of everyone else (create, fork, publish, name writes, crash) keeps the invariant over bucket, jobs and directories |
| `Claim.RunKeeps` | elide-coordinator/src/claim.rs:548-987 | hence every run does |
| `SkipWalk.WalkKeepsContents` | elide-coordinator/src/claim.rs:1035-1134 | on every well-founded chain whose forks mint above their parent's snapshot, the walk's answer exposes exactly the contents of (released, handoff) |
| `SkipWalk.HopKeepsContents` | elide-coordinator/src/claim.rs:1083-1133 | one hop over an empty fork keeps the contents, on the same chains |
| `SkipWalk.WalkIsTheSkipPath` | elide-coordinator/src/claim.rs:1054-1133 | the walk answers r exactly when r ends the run of empty forks starting at the handoff, i.e. r is the first fork going back that is a root or not empty |
| `SkipWalk.SettledHasItsOwnSegments` | elide-coordinator/src/claim.rs:1083-1108 | where forks mint above their parent's snapshot and no pin exposes a segment newer than its snapshot: a fork the walk settles on lists a segment its parent pin does not expose, exactly if its list does not end at that snapshot |
| `SkipWalk.NoOpForkIsSkippedIff` | elide-coordinator/src/claim.rs:864-871 | on the same chains, a fork that minted nothing is skipped exactly if its list does not end at its parent snapshot |
| `SkipWalk.VerbatimForkIsKept` | elide-coordinator/src/claim.rs:1104-1110 | a chain on which one is not: a root tagged with its last segment and a fork that inherits its list verbatim |
| `SkipWalk.TagsCut` | elide-coordinator/src/inbound/mod.rs:973-1000 | no pin exposes a segment newer than its snapshot if every volume tags its snapshots with nothing older than its segments and its own pin |
| `SkipWalk.SkipEmptyIntermediates` | elide-coordinator/src/claim.rs:1035-1134 | the loop returns the walk's answer, terminates on every well-founded chain, and records with the guard and announces exactly what it pulls |
| `SkipWalk.PullChain` | elide-coordinator/src/claim.rs:820-862 | the chain pull stops at a root or at a directory that exists, with one event and one guard record per pull |
| `SkipWalk.PullOne` | elide-coordinator/src/claim.rs:1113-1123 | a pull is announced and recorded with the guard before it starts, so a pull that fails half-way is still tracked |
| `SkipWalk.WalkStandsFor` | elide-coordinator/src/claim.rs:1035-1134 | the walk's answer, all at once, on those chains: it exposes exactly the contents of the released handoff, it ends the run of empty forks that starts there, and it is a root, or a fork that lists a segment its parent pin does not expose exactly if its list does not end at that pin |
| `SkipWalk.PullAndSkip` | elide-coordinator/src/claim.rs:548-556 | a job that fails before commit leaves exactly the directories that existed at its start if removals succeed; one that commits keeps those and all it pulled, its answer is the walk's, and on those chains it stands for the released handoff in that sense |
| `SkipWalk.Restores` | elide-coordinator/src/claim.rs:149-166 | dropping an uncommitted guard restores the start, up to removals that fail |
| `SkipWalk.PulledAncestorsGuard.Drop` | elide-coordinator/src/claim.rs:149-166 | removes exactly the recorded directories, and nothing once committed |
| `SkipWalk.Host.PullReadonly` | elide-coordinator/src/inbound/mod.rs:1844-1907 | refuses a directory that exists and leaves it alone; succeeds exactly on a pull that verifies, and then reports the parent; a directory appears exactly if the fetch got past its creation, also when it then fails |
| `ClaimStream.ClaimAttachByName` | src/coordinator_client.rs:624-684 | the client loop computes `Attach` over whatever lines arrive |
| `ClaimStream.ClientMatchesServer` | src/coordinator_client.rs:645-684 | for every server run, restarts included, and every point where the socket breaks or tears a line, the client returns Ok(u) exactly when ForkCreated(u) was delivered, and then finalize had completed for u; it reports a declared failure exactly when the server sent one, the job's or the lookup's |
| `ClaimStream.DeclaredFailureIsFinal` | elide-coordinator/src/claim.rs:548-558 | once a job's own failure is sent no continuation of the job completes finalize or logs ForkCreated |
| `ClaimStream.DeclaredMeansUnfinishedIff` | src/coordinator_client.rs:679-682 | of the two failures the server declares, one means in every reachable state that finalize never completed exactly if it is that of a failed job |
| `ClaimStream.DeclaredFailureHidesAForkIff` | elide-coordinator/src/inbound/mod.rs:2263-2274 | over every schedule, a declared failure leaves a durable fork behind exactly if finalize completed and the lookup came after a restart |
| `ClaimStream.RestartHidesAFork` | elide-coordinator/src/daemon.rs:289-291 | such a run: the fork is announced, the coordinator restarts with an empty registry, and then the client attaches |
| `ClaimStream.UnbrokenStreamOfAFinishedJob` | elide-coordinator/src/inbound/mod.rs:2257-2300 | over every schedule that ends with the job finished and the stream closed, the client gets Ok exactly if some read of the event log ran with ForkCreated in it, and an error exactly if the stream ended with the job finished and ForkCreated unread, which without a restart is a state check; finalize had completed in all cases |
| `ClaimStream.FinishedJobCanLookInterrupted` | elide-coordinator/src/inbound/mod.rs:2278-2300 | a run where it does not get Ok: the log is read, the job then finishes, and the state check ends the stream |
| `UblkQueue.OneJobPerTag` | src/ublk.rs:1221-1306 | in every interleaving of tags and workers, failed polls included, a tag none of whose drains failed has at most one job in the channel or with a worker; meanwhile its buffer is on loan to that one holder and its task waits for exactly that job, unless the poll failed |
| `UblkQueue.JobOutlivesBufferIff` | src/ublk.rs:1275-1291 | in every reachable state a job of such a tag is in flight with its buffer and eventfd dropped exactly if the tag's poll failed and its worker has not signalled |
| `UblkQueue.FailedPollLeavesAJob` | src/ublk.rs:1286-1291 | such a run, for every write that fits: the poll fails while the worker holds the job, and the dispatch then runs on the dropped buffer |
| `UblkQueue.CommitsAnswerTheirRequests` | src/ublk.rs:1221-1355 | every result such a tag commits is what the single dispatch of the request it had fetched returned (or -EINVAL if it did not fit, and then it was never dispatched); never the reset value, an earlier result, or one whose poll failed |
| `UblkQueue.StraysIff` | src/ublk.rs:1367-1379 | over every run, a tag leaves those theorems exactly if one of its drains failed |
| `UblkQueue.FailedDrainCommitsTheReset` | src/ublk.rs:1367-1379 | a reachable state, for any two requests that fit, in which the request after a failed drain was answered with the reset value while its job is still in the channel |
| `UblkQueue.Dispatch` | src/ublk.rs:1384-1450 | completion status by operation, with the cast to 32 bits: below 2 GiB, the byte count or 0 on success, -EIO exactly on a volume error, -EINVAL exactly for an unknown operation |
| `UblkQueue.CountIsExactIff` | src/ublk.rs:1384-1450 | the status fits 32 bits whatever the size, and a payload's byte count is reported unchanged exactly below 2 GiB |
| `UblkQueue.StepKeeps` | src/ublk.rs:1221-1379 | every step of every task and worker keeps the ownership and history invariant of the tags none of whose drains failed, including a failed fetch, poll or drain, a lost wake-up and a closed channel |
| `UblkBinding.RouteRespectsOwners` | src/ublk.rs:266-283 | what the route means in every reachable state, however stale the hint: a recovery is of a device the volume added itself, holding only its own I/O; an id on which another party's device sits is relocated from; an add asks only for a free id |
| `UblkBinding.RecoversOnlyItsOwnDevices` | src/ublk.rs:663-722 | over every run of serve, park, crash, kill, delete, reboot, foreign adds and drifting hints by any number of volumes, a volume recovers only a device it added itself and reissues only I/O queued for itself |
| `UblkBinding.ServeLeavesOthersAlone` | src/ublk.rs:663-846 | whatever the persisted id says, serving leaves every device another party added as it was, and recovers the volume's own quiesced device with everything it held |
| `UblkBinding.StepKeeps` | src/ublk.rs:663-846 | every step keeps stamps, adders and buffered I/O consistent |
| `Creds.EveryFetcherIsAccountedFor` | src/creds_fetcher.rs:155-205 | in every interleaving of callers and ticks, installed = cached + idle drops + denial replacements; no fetcher is replaced twice; no call reads the backend or asks the issuer more than twice |
| `Creds.ReplacedStaysReplaced` | src/creds_fetcher.rs:173-188 | a replaced fetcher is never cached again |
| `Creds.DenialAsksIff` | src/creds_fetcher.rs:169-188 | in every interleaving a caller denied on a fetcher asks the issuer exactly if that fetcher was never dropped and every ask on its behalf so far failed, or the newest fetcher has been dropped and not refilled |
| `Creds.SecondAskHasACause` | src/creds_fetcher.rs:169-188 | two asks on behalf of one fetcher: the earlier failed, or the later found the slot empty |
| `Creds.SingleFlight` | src/creds_fetcher.rs:169-172 | so the documented single flight holds in every run without a drop or a failed ask |
| `Creds.SupersededUntilADrop` | src/creds_fetcher.rs:169-188 | a denial of a superseded fetcher asks the issuer nothing, in any continuation without a further idle drop, failed reissues included |
| `Creds.IdleDropBreaksSingleFlight` | src/creds_fetcher.rs:293-323 | a run: across an idle drop two callers denied on one fetcher both reach the issuer, against the comment on `reissue_after_denial` |
| `Creds.FailedReissueBreaksSingleFlight` | src/creds_fetcher.rs:173-188 | a run without any drop in which they both do, because the first reissue fails |
| `Creds.LazyCredsFetcher.GetRange` | src/creds_fetcher.rs:191-205 | one call: at most two backend reads and two issues, the exact slot afterwards, and data only from the fetcher left in the slot |
| `Creds.LazyCredsFetcher.Acquire` | src/creds_fetcher.rs:155-168 | reuse what is cached, else install one fetcher |
| `Creds.LazyCredsFetcher.ReissueAfterDenial` | src/creds_fetcher.rs:173-188 | reuse a newer fetcher, else replace |
| `Creds.LazyCredsFetcher.IdleTick` | src/creds_fetcher.rs:293-323 | empties the slot and counts the drop |
| `Lineage.WalkLineageSet` | elide-attestation/src/lineage.rs:40-102 | terminates on every finite store, cyclic or not; Ok exactly when a complete chain of sound links exists none of whose fork parents was already visible, and then with its read set |
| `Lineage.ReadSetMembers` | elide-attestation/src/lineage.rs:54-70 | the read set is the chain, the extent sources named along it, and the owned volume's own recovery sources, nothing else |
| `Lineage.CycleTestFindsNamedSources` | elide-attestation/src/lineage.rs:85-92 | on a chain that reaches a root the cycle test fails exactly when a fork parent doubles as an extent or recovery source named below it |
| `Lineage.RootedChainsHaveNoCycle` | elide-attestation/src/lineage.rs:40-102 | a chain that reaches a root never repeats a volume |
| `Lineage.ParentAlsoAnExtentSource` | elide-attestation/src/lineage.rs:85-92 | a two-volume store, acyclic and rooted, that the walk rejects as a cycle |
| `Lineage.OneCompleteChain` | elide-attestation/src/lineage.rs:76-83 | the committed parent keys determine the chain |
| `Discharge.RepeatAdmittedIff` | elide-attestation/src/lib.rs:275-293 | for any clock values: a repeat of an admitted text (owned, nonce) is admitted exactly if some attempt in between, or the repeat, carried a clock more than twice the skew ahead of the first |
| `Discharge.AdmittedTwiceNeedsAClockStep` | elide-attestation/src/lib.rs:198-202 | the same text and timestamp are admitted twice only across an attempt whose clock was ahead of the later one |
| `Discharge.TextsAreSingleUse` | elide-attestation/src/lib.rs:198-202 | with clock values nondecreasing in lock order no text (owned, nonce, ts) is admitted twice in any run, despite pruning |
| `Discharge.AdmittedIffUnused` | elide-attestation/src/lib.rs:275-293 | along such clocks, in every run, an attempt that reaches the cache is admitted exactly if no admitted attempt bore its text within twice the skew |
| `Discharge.ProofsAreSingleUseIff` | elide-attestation/src/lib.rs:133-136 | for any set of attempts: a possession proof, taken by its decoded fields, is admitted at most once in every run over them along such clocks, exactly if no two of them that reach the cache spell one proof differently |
| `Discharge.AdmittedAgainIff` | elide-attestation/src/lib.rs:198-222 | in any run along such clocks, an admitted proof is admitted again, under a text not otherwise used before, exactly if the text is another |
| `Discharge.ProofTwiceHasACause` | elide-attestation/src/lib.rs:41-42 | for any clock values, one proof admitted twice was spelled in two ways or met a clock step |
| `Discharge.CanonicalTextsAreOneSpelling` | elide-attestation/src/lib.rs:176-202 | one way to meet the condition: nonces without capitals and plus signs, and one text per volume |
| `HexText.SameBytesIff` | elide-core/src/signing.rs:1184-1195 | two hex texts decode to the same bytes exactly if they differ only in case and in plus signs that stand for a zero |
| `HexText.ByteInThreeSpellings` | elide-core/src/signing.rs:1184-1195 | 0a, 0A and +a are one byte |
| `Discharge.ClockStepReadmits` | elide-attestation/src/lib.rs:275-293 | and without that it can be |
| `Discharge.RequestsEarnOneGrant` | elide-attestation/src/lib.rs:176-273 | hence along such clocks two grants on one proof are one attempt or two spellings, however the store changes in between |
| `Discharge.RespelledProofEarnsAgain` | elide-attestation/src/lib.rs:176-273 | and two spellings do earn two: any entitled attempt is entitled again with its nonce spelled differently |
| `Discharge.EntriesAreRecent` | elide-attestation/src/lib.rs:281-291 | after each call that reaches the cache every entry is at most twice the skew old |
| `Discharge.DischargeState.Discharge` | elide-attestation/src/lib.rs:176-273 | grants exactly what the attempt is entitled to (opened CID, fresh and unused proof, possession, a binding that is not Released, target equal to owned or in its read set, the mode's lifetime), Malformed exactly when it does not decode, and moves the cache as the run function does |
| `Discharge.DischargeState.Judge` | elide-attestation/src/lib.rs:218-260 | possession, liveness and lineage decide the grant, and exactly which store faults surface as backend errors |
| `Discharge.DischargeState.CheckAndRecordNonce` | elide-attestation/src/lib.rs:275-293 | prune, then refuse or record |
| `Discharge.ReadSetOf` | elide-attestation/src/lib.rs:250-258 | a target is in the walked set exactly if the signed lineage puts it in the read set |
| `Cid.ParseAttestedCid` | elide-attestation/src/crypto.rs:100-118 | accepts exactly the three-field layouts and returns what was laid out; reports trailing bytes exactly when a layout is followed by some |
| `Cid.ParseCid` | elide-attestation/src/crypto.rs:149-165 | the same for the two-field form |
| `Cid.FormsAreDisjoint` | elide-attestation/src/crypto.rs:100-165 | no plaintext is both an attested and an operator CID |
| `Cid.AttestedUnique` | elide-attestation/src/crypto.rs:182-188 | an attested layout determines its record and what follows it |
| `Cid.LayoutUnique` | elide-attestation/src/crypto.rs:211-217 | so does an operator layout |
| `Cid.ReadLengthPrefixed` | elide-attestation/src/crypto.rs:228-247 | reads a field exactly when one stands at the cursor, and otherwise reports truncation, overrun or bad UTF-8 in that order |
| `Cid.DecryptCidAttested` | elide-attestation/src/crypto.rs:89-98 | Ok(x) exactly when the cipher opens the tail under the leading nonce to x laid out; in particular it undoes sealing |
| `Gear.HashOfConcat` | src/delta_sim.rs:222-226 | H(s ++ t) = H(t) + H(s) * 2^|t| mod 2^64, for every table |
| `Gear.WindowErasesState` | src/delta_sim.rs:232-235 | 64 bytes erase any earlier state |
| `Gear.LateHashesAgree` | src/delta_sim.rs:232-235 | from the 64th byte on the rolling hashes do not depend on what came before |
| `Gear.OddMultiplierIsInjective` | src/delta_sim.rs:55-63 | wrapping multiplication by an odd word maps distinct words to distinct words |
| `Gear.OddMultiplierIsPermutation` | src/delta_sim.rs:55-63 | and onto every word: each is the image of exactly one |
| `Sketch.ProgramMultipliersPermute` | src/delta_sim.rs:55-66 | each multiplier of the program's own table permutes the words in that sense |
| `Sketch.FeatureOfExtended` | src/delta_sim.rs:231-245 | each Broder feature of prefix ++ base is the larger of what prefix and the first 63 bytes give and what the rest of base gives alone, and the sample counts add |
| `Sketch.SuperFeatureSurvivesShift` | src/delta_sim.rs:189-252 | a super-feature whose features are all won late is the same whatever precedes the base |
| `Sketch.WiderSketchExtends` | src/delta_sim.rs:189-252 | more Broder features, same group and width: the narrower sketch is an exact prefix, and None in the same cases |
| `Sketch.NarrowSketchIsMasked` | src/delta_sim.rs:189-211 | fewer bytes per super-feature is masking each one, for both kinds |
| `Sketch.FinesseSeesEveryByte` | src/delta_sim.rs:217-230 | every byte lies in the chunk its position names and that chunk is one of the features' |
| `Sketch.Sketch` | src/delta_sim.rs:213-252 | the loops over arrays compute the sketch specification |
| `Sketch.BroderFeatures` | src/delta_sim.rs:231-248 | the sampling loop keeps, per feature, the maximum of its permutation over the sampled hashes |
| `Sketch.FinesseFeatures` | src/delta_sim.rs:217-230 | the chunk loop keeps the peak hash of each subchunk, 0 where there is none |
| `Sketch.SfsFromFeatures` | src/delta_sim.rs:189-211 | groups are digested from a reused byte buffer |
| `Sketch.MaxOfIsMaximum` | src/delta_sim.rs:236-241 | the folded maximum is one, and 0 over nothing |
| `Spans.PartitionSpan` | src/delta_sim.rs:271-307 | given only that cuts are sorted by start (they may overlap or be empty): an exact split into bytes inside some cut and bytes inside none, ascending, lengths adding up |
| `DiffImages.Diff` | src/delta_sim.rs:388-432 | the double loop returns exactly the maximal runs of changed 4 KiB blocks, equal to the flat scan, with a short last block and runs across chunks; an error exactly when an image is too short |
| `DiffImages.MaximalRunsAreUnique` | src/delta_sim.rs:386-387 | two lists of maximal runs over the same bytes are the same list |
| `DiffImages.FlatScanIsExact` | src/delta_sim.rs:388-432 | the flat block scan returns the maximal runs of changed bytes |
| `DeltaSim.Classify` | src/delta_sim.rs:643-655 | journal, metadata and target pieces share the changed bytes exactly, each ascending; the sums are theirs and add up to the changed total |
| `DeltaSim.ReplayTier1` | src/delta_sim.rs:665-679 | the loop computes the hits and misses of the rule the code applies; they share the targets, and a hit saves at least a byte against LZ4 |
| `DeltaSim.ReplayMeetsHeaderIff` | src/delta_sim.rs:1-7 | the replay's misses and its bucket are those of the header's rule (smaller than both LZ4 and plain zstd) exactly if no target has a delta below LZ4 that plain zstd matches or beats |
| `DeltaSim.ReplayKeepsALosingDelta` | src/delta_sim.rs:665-679 | a target on which they differ: LZ4 10, delta 9, plain zstd 8 |
| `DeltaSim.EveryByteHasOneClass` | src/delta_sim.rs:643-928 | a byte is changed exactly if one and only one class holds it: journal, metadata, Tier-1 hit or one of the five outcomes |
| `DeltaSim.OutcomesShareTheMisses` | src/delta_sim.rs:778-928 | the five outcome buckets share the misses in bytes and runs; the matrix total is misses minus sub-threshold, and its recovered row is the recovered bucket |
| `DeltaSim.FateMeaning` | src/delta_sim.rs:905-924 | recovered, codec-only and no-benefit stated over all candidates, both directions |
| `DeltaSim.RecoveredSaves` | src/delta_sim.rs:911-915 | recovered runs save against both LZ4 and plain zstd, over the same bytes |
| `DeltaSim.MatchMisses` | src/delta_sim.rs:778-928 | the matching loop computes those buckets and cells |
| `DeltaSim.BestOf` | src/delta_sim.rs:842-853 | the best candidate is the least delta |
| `DeltaSim.LeastIsMinimum` | src/delta_sim.rs:850-852 | which is a minimum over the candidates |
| `DeltaSim.Run` | src/delta_sim.rs:611-928 | end to end: the changed runs are the maximal ones, every changed byte is in exactly one class, the reported numbers are the sizes of those classes and add up, and the Tier-1 bucket is the header's exactly if no target is disputed; refuses images of different sizes |
| `ExtentTree.CollectExtents` | src/extents.rs:114-153 | leaf by leaf the walk of its twin with logical numbers dropped, and the same status, on every disk including trees with cycles |
| `ExtentTree.CollectExtentsWithLogical` | src/extents.rs:167-205 | every leaf of the walk in order, up to where it stops |
| `ExtentTree.DescendingWalkEnds` | src/extents.rs:114-153 | on a tree whose depth decreases the walk needs no more stack than the root's depth |
| `ExtentTree.MoreStackSameWalk` | src/extents.rs:114-153 | and more stack changes nothing |
| `Trace.TraceRoundTrip` | src/extents.rs:341-383 | loading a saved trace returns the same entries, for every list of 32-byte hashes and u64 pairs |
| `Trace.SaveTrace` | src/extents.rs:341-352 | the loop writes the specified text, which loads back |
| `Trace.LoadTrace` | src/extents.rs:354-383 | the loop computes the specification: comments and blanks skipped, first error wins |
| `Trace.EntryLineLoads` | src/extents.rs:357-376 | a saved line survives line splitting, trimming, comment skipping and field splitting |
| `Trace.HexRoundTrip` | src/extents.rs:385-396 | a hash printed in hex reads back |
| `Trace.HexTextRoundTrip` | src/extents.rs:385-405 | hex text read as a hash prints as the same text in lower case |
| `Trace.HexToHash` | src/extents.rs:385-405 | reads exactly 64 hex digits of either case |
| `Trace.DecimalParses` | src/extents.rs:366-373 | every u64 in decimal parses back |

## Left out

- The in-place reclaim's fork-mismatch branch and forced claims: not steps of the claim model.
- Concurrent claim jobs that share a pulled ancestor: the cleanup theorems are for one job, as the guard tracks no sharing.
- The signed payloads, AEAD, BLAKE3, Ed25519, zstd, LZ4, base64 and MessagePack themselves, and the macaroon chain a grant is encoded into.
- Timing: idle deadlines, retry delays, watchdogs and every liveness statement.
- What a worker's write to a closed, possibly reused, eventfd does to whoever holds the number: the queue model records only that the job ran and signalled.
- u64 overflow in sums, in `now + ttl` and in block addresses: numbers are unbounded there.
- Non-UTF-8 store objects, absent ones and ones that fail to parse are told apart only as far as the error kind does.
- A lineage walk and the two reads before it see one snapshot of the store per request.
- Hex fields that are not ASCII, on which the decoder's slicing may fail at a character boundary.
- A second claim of the same name registered before the client of the first attaches: the client would follow the second.
- `PerOwnerCredsFetcher`, the claimer token and `covering_frag`: single lookups in a map or a sorted list.
- The ranking, floor and cap that choose similarity candidates, the path oracle's choice of source, the dictionary cache, the concatenated and trained dictionaries, and the per-directory attribution: their results enter the accounting as measured sizes.
- ext4 superblock, inode and fragment scans: the accounting takes their spans as given, sorted by start.
- The skip walk on a chain that is not well-founded: the source has no cycle check there and need not end.
- Errors of writing progress lines to the attached client's output.
- Sockets, HTTP, JSON and TOML wire code, command line, logging and reports.
- UblkQueue.Dispatch: does not model the data moved, only the status committed for it.
- SkipWalk.Host.PullReadonly: does not model the files a pull writes beyond the skeleton the walk reads.
