/**
 Which kernel device a volume attaches to. Device ids are reused by the kernel,
 the persisted id in a volume's config is only a hint and may be arbitrarily stale,
 and the ownership stamp lives and dies with the kernel device.
 */
module UblkBinding {
  import opened Wrappers

  type Volume = nat
  type DevId = int

  // ---- the routing decision ----

  datatype Route = Add(target: Option<DevId>) | Recover(id: DevId) | Relocate(from: DevId)

  // `present` is the set of ids with a sysfs entry, `ours` those stamped with this volume's ULID.
  function PlanRoute(persisted: Option<DevId>, present: set<DevId>, ours: set<DevId>): (r: Route)
    ensures r.Recover? <==> persisted.Some? && persisted.value in present && persisted.value in ours
    ensures r.Recover? ==> r.id == persisted.value
    ensures r.Relocate? <==> persisted.Some? && persisted.value in present && persisted.value !in ours
    ensures r.Add? ==> r.target == persisted && (persisted.Some? ==> persisted.value !in present)
  {
    match persisted
    case None => Add(None)
    case Some(id) =>
      if id !in present then Add(Some(id))
      else if id !in ours then Relocate(id)
      else Recover(id)
  }

  // ---- the host ----

  // The kernel's view: a fresh device is DEAD until it is started.
  datatype DevState = Dead | Live | Quiesced

  // Guest I/O the kernel holds, remembered with the volume whose device the guest issued it to.
  datatype Io = Io(dest: Option<Volume>, n: nat)

  /**
   `uid` distinguishes devices that occupy the same id one after the other, and
   `addedBy` is who issued the ADD (None: some other program). `stamp` is what
   `target_data` says.
   */
  datatype Device = Device(uid: nat, addedBy: Option<Volume>, stamp: Option<Volume>, state: DevState, buffered: seq<Io>)

  // A volume daemon: not running, holding an added device, or serving it.
  datatype Daemon = Off | Added(id: DevId, uid: nat) | Stamped(id: DevId, uid: nat) | Serving(id: DevId, uid: nat)

  datatype Recovery = Recovery(vol: Volume, uid: nat, ios: seq<Io>)

  datatype Host = Host(devs: map<DevId, Device>, next: nat, hints: map<Volume, DevId>, daemons: map<Volume, Daemon>,
                       addedBy: map<nat, Option<Volume>>, recoveries: seq<Recovery>)

  datatype Action =
    | Serve(v: Volume, auto: DevId)        // plan the route and ADD or RECOVER; `auto` is the kernel's pick
    | Stamp(v: Volume)                     // `tgt_init`
    | GoLive(v: Volume)                    // START_DEV
    | Bind(v: Volume)                      // the wait hook persists the id
    | Exit(v: Volume)                      // park or crash: the kernel quiesces a live device
    | Issue(id: DevId, n: nat)             // guest I/O arrives
    | Complete(id: DevId)                  // the daemon answers the oldest I/O
    | Kill(id: DevId)                      // STOP_DEV from anywhere
    | Delete(id: DevId, clears: bool)      // `elide ublk delete`, which may fail to clear the hint
    | ForeignAdd(id: DevId)                // another program adds a device
    | Drift(v: Volume, hint: Option<DevId>) // the hint changes in any way at all
    | Reboot

  const Boot := Host(map[], 0, map[], map[], map[], [])

  function Hint(h: Host, v: Volume): Option<DevId> { if v in h.hints then Some(h.hints[v]) else None }

  function SetHint(hints: map<Volume, DevId>, v: Volume, hint: Option<DevId>): map<Volume, DevId> {
    match hint case Some(id) => hints[v := id] case None => hints - {v}
  }

  function OursOf(h: Host, v: Volume): set<DevId> { set id | id in h.devs && h.devs[id].stamp == Some(v) }

  function AddAt(h: Host, v: Volume, id: DevId): Host {
    if id in h.devs then h
    else h.(devs := h.devs[id := Device(h.next, Some(v), None, Dead, [])], next := h.next + 1,
            addedBy := h.addedBy[h.next := Some(v)], daemons := h.daemons[v := Added(id, h.next)])
  }

  // "Check owner, then start recovery" is one step. A DEAD device is deleted and added afresh.
  function RecoverAt(h: Host, v: Volume, id: DevId): Host
    requires id in h.devs
  {
    var dev := h.devs[id];
    match dev.state
    case Dead => AddAt(h.(devs := h.devs - {id}), v, id)
    case Live => h
    case Quiesced =>
      h.(devs := h.devs[id := dev.(state := Live, stamp := Some(v))],
         daemons := h.daemons[v := Serving(id, dev.uid)],
         recoveries := h.recoveries + [Recovery(v, dev.uid, dev.buffered)])
  }

  function StepServe(h: Host, v: Volume, auto: DevId): Host {
    if v in h.daemons && h.daemons[v] != Off then h
    else match PlanRoute(Hint(h, v), h.devs.Keys, OursOf(h, v))
      case Add(None) => AddAt(h, v, auto)
      case Add(Some(id)) => AddAt(h, v, id)
      case Recover(id) => RecoverAt(h, v, id)
      case Relocate(_) => AddAt(h.(hints := h.hints - {v}), v, auto)
  }

  // Does the daemon still hold the device it thinks it holds?
  predicate Holds(h: Host, id: DevId, uid: nat) { id in h.devs && h.devs[id].uid == uid }

  function StepStamp(h: Host, v: Volume): Host {
    if v in h.daemons && h.daemons[v].Added? && Holds(h, h.daemons[v].id, h.daemons[v].uid) then
      var d := h.daemons[v];
      h.(devs := h.devs[d.id := h.devs[d.id].(stamp := Some(v))], daemons := h.daemons[v := Stamped(d.id, d.uid)])
    else h
  }

  function StepGoLive(h: Host, v: Volume): Host {
    if v in h.daemons && h.daemons[v].Stamped? && Holds(h, h.daemons[v].id, h.daemons[v].uid) then
      var d := h.daemons[v];
      h.(devs := h.devs[d.id := h.devs[d.id].(state := Live)], daemons := h.daemons[v := Serving(d.id, d.uid)])
    else h
  }

  function StepBind(h: Host, v: Volume): Host {
    if v in h.daemons && h.daemons[v].Serving? then h.(hints := h.hints[v := h.daemons[v].id]) else h
  }

  function StepExit(h: Host, v: Volume): Host {
    if v in h.daemons && h.daemons[v] != Off then
      var d := h.daemons[v];
      var devs := if Holds(h, d.id, d.uid) && h.devs[d.id].state == Live
                  then h.devs[d.id := h.devs[d.id].(state := Quiesced)] else h.devs;
      h.(devs := devs, daemons := h.daemons[v := Off])
    else h
  }

  function StepIssue(h: Host, id: DevId, n: nat): Host {
    if id in h.devs && h.devs[id].state != Dead then
      var dev := h.devs[id];
      h.(devs := h.devs[id := dev.(buffered := dev.buffered + [Io(dev.addedBy, n)])])
    else h
  }

  function StepComplete(h: Host, id: DevId): Host {
    if id in h.devs && h.devs[id].state == Live && |h.devs[id].buffered| > 0 then
      h.(devs := h.devs[id := h.devs[id].(buffered := h.devs[id].buffered[1..])])
    else h
  }

  // STOP_DEV fails whatever the device still held.
  function StepKill(h: Host, id: DevId): Host {
    if id in h.devs then h.(devs := h.devs[id := h.devs[id].(state := Dead, buffered := [])]) else h
  }

  function StepDelete(h: Host, id: DevId, clears: bool): Host {
    if id in h.devs then
      var stamp := h.devs[id].stamp;
      var h' := h.(devs := h.devs - {id});
      if stamp.Some? && clears then h'.(hints := h.hints - {stamp.value}) else h'
    else h
  }

  function StepForeignAdd(h: Host, id: DevId): Host {
    if id in h.devs then h
    else h.(devs := h.devs[id := Device(h.next, None, None, Live, [])], next := h.next + 1,
            addedBy := h.addedBy[h.next := None])
  }

  function Step(h: Host, a: Action): Host {
    match a
    case Serve(v, auto) => StepServe(h, v, auto)
    case Stamp(v) => StepStamp(h, v)
    case GoLive(v) => StepGoLive(h, v)
    case Bind(v) => StepBind(h, v)
    case Exit(v) => StepExit(h, v)
    case Issue(id, n) => StepIssue(h, id, n)
    case Complete(id) => StepComplete(h, id)
    case Kill(id) => StepKill(h, id)
    case Delete(id, clears) => StepDelete(h, id, clears)
    case ForeignAdd(id) => StepForeignAdd(h, id)
    case Drift(v, hint) => h.(hints := SetHint(h.hints, v, hint))
    case Reboot => h.(devs := map[], daemons := map[])
  }

  function Run(h: Host, acts: seq<Action>): Host
    decreases |acts|
  {
    if |acts| == 0 then h else Run(Step(h, acts[0]), acts[1..])
  }

  ghost predicate Reachable(h: Host) { exists acts :: h == Run(Boot, acts) }

  // ---- the invariant ----

  // A stamp names the volume that added the device, and so does every I/O it holds.
  ghost predicate DevOk(h: Host, dev: Device) {
    && dev.uid in h.addedBy && h.addedBy[dev.uid] == dev.addedBy
    && (dev.stamp.Some? ==> dev.stamp == dev.addedBy)
    && forall i :: 0 <= i < |dev.buffered| ==> dev.buffered[i].dest == dev.addedBy
  }

  ghost predicate DaemonOk(h: Host, v: Volume, d: Daemon) {
    d != Off ==> d.uid in h.addedBy && h.addedBy[d.uid] == Some(v)
  }

  // A recovery attached a volume to a device it added itself, and reissued only its own I/O.
  ghost predicate RecoveryOk(h: Host, r: Recovery) {
    && r.uid in h.addedBy && h.addedBy[r.uid] == Some(r.vol)
    && forall i :: 0 <= i < |r.ios| ==> r.ios[i].dest == Some(r.vol)
  }

  ghost predicate Inv(h: Host) {
    && (forall u :: u in h.addedBy ==> u < h.next)
    && (forall id :: id in h.devs ==> DevOk(h, h.devs[id]))
    && (forall i, k :: i in h.devs && k in h.devs && h.devs[i].uid == h.devs[k].uid ==> i == k)
    && (forall v :: v in h.daemons ==> DaemonOk(h, v, h.daemons[v]))
    && (forall i :: 0 <= i < |h.recoveries| ==> RecoveryOk(h, h.recoveries[i]))
  }

  lemma ServeKeeps(h: Host, v: Volume, auto: DevId)
    requires Inv(h)
    ensures Inv(StepServe(h, v, auto))
  {
    if v !in h.daemons || h.daemons[v] == Off {
      match PlanRoute(Hint(h, v), h.devs.Keys, OursOf(h, v))
      case Add(None) => AddKeeps(h, v, auto);
      case Add(Some(id)) => AddKeeps(h, v, id);
      case Recover(id) => RecoverKeeps(h, v, id);
      case Relocate(_) => AddKeeps(h.(hints := h.hints - {v}), v, auto);
    }
  }

  lemma AddKeeps(h: Host, v: Volume, id: DevId)
    requires Inv(h)
    ensures Inv(AddAt(h, v, id))
  {
    var h' := AddAt(h, v, id);
    if h' != h {
      forall k | k in h'.devs ensures DevOk(h', h'.devs[k]) { assert k != id ==> DevOk(h, h.devs[k]); }
      forall u | u in h'.daemons ensures DaemonOk(h', u, h'.daemons[u]) {
        assert u != v ==> DaemonOk(h, u, h.daemons[u]);
      }
      forall i | 0 <= i < |h'.recoveries| ensures RecoveryOk(h', h'.recoveries[i]) {
        assert RecoveryOk(h, h.recoveries[i]);
      }
    }
  }

  lemma RecoverKeeps(h: Host, v: Volume, id: DevId)
    requires Inv(h) && id in h.devs && h.devs[id].stamp == Some(v)
    ensures Inv(RecoverAt(h, v, id))
  {
    assert DevOk(h, h.devs[id]);
    if h.devs[id].state == Dead {
      AddKeeps(h.(devs := h.devs - {id}), v, id);
    }
  }

  // One device moved, staying the same device; the daemons are still accounted for.
  lemma DevMoves(h: Host, h': Host, id: DevId)
    requires Inv(h) && id in h.devs && id in h'.devs && h'.devs == h.devs[id := h'.devs[id]]
    requires h'.devs[id].uid == h.devs[id].uid && DevOk(h', h'.devs[id])
    requires h'.addedBy == h.addedBy && h'.next == h.next && h'.recoveries == h.recoveries
    requires forall v :: v in h'.daemons ==> DaemonOk(h', v, h'.daemons[v])
    ensures Inv(h')
  {
    forall k | k in h'.devs ensures DevOk(h', h'.devs[k]) { assert k != id ==> DevOk(h, h.devs[k]); }
    forall i | 0 <= i < |h'.recoveries| ensures RecoveryOk(h', h'.recoveries[i]) {
      assert RecoveryOk(h, h.recoveries[i]);
    }
  }

  // One daemon moved on with the device it holds.
  lemma DaemonMoves(h: Host, h': Host, v: Volume)
    requires Inv(h) && v in h.daemons && v in h'.daemons && h'.daemons == h.daemons[v := h'.daemons[v]]
    requires h'.addedBy == h.addedBy && (h'.daemons[v] != Off ==>
               h.daemons[v] != Off && h'.daemons[v].uid == h.daemons[v].uid)
    ensures forall u :: u in h'.daemons ==> DaemonOk(h', u, h'.daemons[u])
  {
    forall u | u in h'.daemons ensures DaemonOk(h', u, h'.daemons[u]) { assert DaemonOk(h, u, h.daemons[u]); }
  }

  // Only what no device, daemon or recovery depends on moved.
  lemma FewerDevs(h: Host, h': Host)
    requires Inv(h) && h'.addedBy == h.addedBy && h'.next == h.next && h'.recoveries == h.recoveries
    requires (forall id :: id in h'.devs ==> id in h.devs && h'.devs[id] == h.devs[id])
    requires (forall v :: v in h'.daemons ==> v in h.daemons && (h'.daemons[v] == h.daemons[v] || h'.daemons[v] == Off))
    ensures Inv(h')
  {
    forall k | k in h'.devs ensures DevOk(h', h'.devs[k]) { assert DevOk(h, h.devs[k]); }
    forall v | v in h'.daemons ensures DaemonOk(h', v, h'.daemons[v]) { assert DaemonOk(h, v, h.daemons[v]); }
    forall i | 0 <= i < |h'.recoveries| ensures RecoveryOk(h', h'.recoveries[i]) {
      assert RecoveryOk(h, h.recoveries[i]);
    }
  }

  lemma StampKeeps(h: Host, v: Volume)
    requires Inv(h)
    ensures Inv(StepStamp(h, v))
  {
    var h' := StepStamp(h, v);
    if h' != h {
      assert DaemonOk(h, v, h.daemons[v]) && DevOk(h, h.devs[h.daemons[v].id]);
      DaemonMoves(h, h', v);
      DevMoves(h, h', h.daemons[v].id);
    }
  }

  lemma GoLiveKeeps(h: Host, v: Volume)
    requires Inv(h)
    ensures Inv(StepGoLive(h, v))
  {
    var h' := StepGoLive(h, v);
    if v in h.daemons && h.daemons[v].Stamped? && Holds(h, h.daemons[v].id, h.daemons[v].uid) {
      assert DevOk(h, h.devs[h.daemons[v].id]);
      DaemonMoves(h, h', v);
      DevMoves(h, h', h.daemons[v].id);
    }
  }

  lemma ExitKeeps(h: Host, v: Volume)
    requires Inv(h)
    ensures Inv(StepExit(h, v))
  {
    if v in h.daemons && h.daemons[v] != Off {
      var h', id := StepExit(h, v), h.daemons[v].id;
      DaemonMoves(h, h', v);
      if Holds(h, id, h.daemons[v].uid) && h.devs[id].state == Live {
        assert DevOk(h, h.devs[id]);
        DevMoves(h, h', id);
      } else {
        FewerDevs(h, h');
      }
    }
  }

  lemma DeviceKeeps(h: Host, id: DevId, n: nat)
    requires Inv(h)
    ensures Inv(StepIssue(h, id, n)) && Inv(StepComplete(h, id)) && Inv(StepKill(h, id))
  {
    if id in h.devs {
      assert DevOk(h, h.devs[id]);
      DevMoves(h, StepKill(h, id), id);
      if h.devs[id].state != Dead { DevMoves(h, StepIssue(h, id, n), id); }
      if h.devs[id].state == Live && |h.devs[id].buffered| > 0 { DevMoves(h, StepComplete(h, id), id); }
    }
  }

  lemma StepKeeps(h: Host, a: Action)
    requires Inv(h)
    ensures Inv(Step(h, a))
  {
    match a
    case Serve(v, auto) => ServeKeeps(h, v, auto);
    case Stamp(v) => StampKeeps(h, v);
    case GoLive(v) => GoLiveKeeps(h, v);
    case Bind(v) => FewerDevs(h, StepBind(h, v));
    case Exit(v) => ExitKeeps(h, v);
    case Issue(id, n) => DeviceKeeps(h, id, n);
    case Complete(id) => DeviceKeeps(h, id, 0);
    case Kill(id) => DeviceKeeps(h, id, 0);
    case Delete(id, clears) => FewerDevs(h, StepDelete(h, id, clears));
    case ForeignAdd(id) => ForeignAddKeeps(h, id);
    case Drift(v, hint) => FewerDevs(h, Step(h, a));
    case Reboot => FewerDevs(h, Step(h, a));
  }

  lemma ForeignAddKeeps(h: Host, id: DevId)
    requires Inv(h)
    ensures Inv(StepForeignAdd(h, id))
  {
    var h' := StepForeignAdd(h, id);
    if h' != h {
      forall k | k in h'.devs ensures DevOk(h', h'.devs[k]) { assert k != id ==> DevOk(h, h.devs[k]); }
      forall u | u in h'.daemons ensures DaemonOk(h', u, h'.daemons[u]) { assert DaemonOk(h, u, h.daemons[u]); }
      forall i | 0 <= i < |h'.recoveries| ensures RecoveryOk(h', h'.recoveries[i]) {
        assert RecoveryOk(h, h.recoveries[i]);
      }
    }
  }

  lemma {:induction false} RunKeeps(h: Host, acts: seq<Action>)
    requires Inv(h)
    ensures Inv(Run(h, acts))
    decreases |acts|
  {
    if |acts| > 0 {
      StepKeeps(h, acts[0]);
      RunKeeps(Step(h, acts[0]), acts[1..]);
    }
  }

  lemma ReachableOk(h: Host)
    requires Reachable(h)
    ensures Inv(h)
  {
    var acts :| h == Run(Boot, acts);
    RunKeeps(Boot, acts);
  }

  // Over every run, each recovery attached a volume to a device it had added itself,
  // and every I/O reissued by it had been queued for that volume.
  lemma RecoversOnlyItsOwnDevices(h: Host, i: nat)
    requires Reachable(h) && i < |h.recoveries|
    ensures var r := h.recoveries[i];
            && r.uid in h.addedBy && h.addedBy[r.uid] == Some(r.vol)
            && forall k :: 0 <= k < |r.ios| ==> r.ios[k].dest == Some(r.vol)
  {
    ReachableOk(h);
    assert RecoveryOk(h, h.recoveries[i]);
  }

  /**
   What the route means in every reachable state, however stale the hint: a recovery is
   of a device the volume added, holding only its own I/O; an id another party's device
   occupies is left to it; and an add asks only for a free id.
   */
  lemma RouteRespectsOwners(h: Host, v: Volume, hint: Option<DevId>)
    requires Reachable(h)
    ensures var r := PlanRoute(hint, h.devs.Keys, OursOf(h, v));
            && (r.Recover? ==> r.id in h.devs && h.devs[r.id].addedBy == Some(v)
                               && forall k :: 0 <= k < |h.devs[r.id].buffered| ==>
                                    h.devs[r.id].buffered[k].dest == Some(v))
            && (hint.Some? && hint.value in h.devs && h.devs[hint.value].addedBy != Some(v) ==>
                  r == Relocate(hint.value))
            && (r.Add? && r.target.Some? ==> r.target.value !in h.devs)
  {
    ReachableOk(h);
    if hint.Some? && hint.value in h.devs {
      var id: DevId := hint.value;
      assert DevOk(h, h.devs[id]);
    }
  }

  /**
   However stale the hint, serving touches no device the volume did not add: every
   other device is afterwards exactly as it was. A volume that finds its own quiesced
   device at the hinted id gets back everything the kernel held for it.
   */
  lemma ServeLeavesOthersAlone(h: Host, v: Volume, auto: DevId, hint: Option<DevId>, id: DevId)
    requires Reachable(h) && id in h.devs && (v !in h.daemons || h.daemons[v] == Off)
    ensures var h' := StepServe(Step(h, Drift(v, hint)), v, auto);
            && (h.devs[id].addedBy != Some(v) ==> id in h'.devs && h'.devs[id] == h.devs[id])
            && (hint == Some(id) && h.devs[id].stamp == Some(v) && h.devs[id].state == Quiesced ==>
                  h'.recoveries == h.recoveries + [Recovery(v, h.devs[id].uid, h.devs[id].buffered)])
  {
    ReachableOk(h);
    assert DevOk(h, h.devs[id]);
    var g := Step(h, Drift(v, hint));
    assert g.devs == h.devs && Hint(g, v) == hint;
  }
}
