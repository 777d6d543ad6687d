/**
 Snapshot and delta replication: the manager's revisioned state, its two event channels and the
 subscribers' cursors, as a transition system whose steps are the code's lock-protected sections.

 `Server` holds the manager's fields. `Trace` holds what the proofs remember about a run and no
 step of the code reads. Channels: `version` counts values published on the latest-value watch,
 `log` lists every delta ever broadcast, of which only the newest 256 can still be received.
 */
module Replication {
  import opened Prelude
  import opened Transfer
  import opened History

  const PROGRESS_CAPACITY := 256

  // ----- data -----

  datatype Progress = Progress(
    revision: nat,
    base: nat,
    transferId: string,
    completed: nat,
    speed: nat,
    remaining: Option<nat>,
    updatedAt: int,
    files: map<nat, nat>)

  /** `emitted` says whether the instant of a last emission is known. */
  datatype Emission = Emission(emitted: bool, dirty: map<nat, nat>)

  /** `profile` stands for the snapshot's other fields: device, receive directory, peers. */
  datatype Server = Server(
    revision: nat,
    lastFull: nat,
    transfers: seq<View>,
    profile: int,
    emissions: map<string, Emission>,
    version: nat,
    log: seq<Progress>)

  datatype Phase = Idle | Wanting | Marked

  datatype Subscriber = Subscriber(
    phase: Phase,
    initialized: bool,
    revision: nat,
    base: nat,
    seen: nat,
    cursor: nat,
    transfers: seq<View>,
    profile: int,
    since: nat,
    abandoned: bool)

  /** What the server held when it assigned one revision, and what of the delta's transfer neither
      this delta nor anything before it carries. */
  datatype Revision =
    | Full(transfers: seq<View>)
    | Delta(progress: Progress, transfers: seq<View>, unsent: map<nat, nat>)

  /** `clock`: how many progress reports were accepted. `unsent`: files whose bytes changed without a
      later delta or full snapshot carrying the change, each with the clock of its last change.
      `lost`: files whose last report was dropped from `dirty` and is in no later delta or snapshot.
      `unpublished`: the state was written after the last full snapshot, other than by progress.
      `announced`: transfers listed in some full snapshot. `started`: transfers with progress.
      `used`: every transfer id ever listed. */
  datatype Trace = Trace(
    hist: seq<Revision>,
    clock: nat,
    unsent: map<string, map<nat, nat>>,
    lost: map<string, set<nat>>,
    unpublished: bool,
    announced: set<string>,
    started: set<string>,
    used: set<string>)

  datatype System = System(server: Server, trace: Trace, subs: seq<Subscriber>)

  // ----- lists of transfers -----

  function FindIndex(ts: seq<View>, id: string): (r: Option<nat>)
    ensures r.Some? ==> r.value < |ts| && ts[r.value].id == id
    ensures r.Some? ==> forall i :: 0 <= i < r.value ==> ts[i].id != id
    ensures r.None? ==> forall i :: 0 <= i < |ts| ==> ts[i].id != id
  {
    var ids := seq(|ts|, i requires 0 <= i < |ts| => ts[i].id);
    assert forall i :: 0 <= i < |ts| ==> ts[i].id == ids[i] && ids[i] in ids;
    IndexOf(ids, id)
  }

  function Lookup(ts: seq<View>, id: string): (r: Option<View>)
    ensures r.Some? ==> r.value in ts && r.value.id == id
  {
    match FindIndex(ts, id)
    case None => None
    case Some(i) => Some(ts[i])
  }

  // ----- the manager's critical sections -----

  function Dirty(s: Server, id: string): map<nat, nat> {
    if id in s.emissions then s.emissions[id].dirty else map[]
  }

  /** One progress report: updates the transfer, and emits a delta when the file is finished, when
      this transfer has not emitted yet, or when the throttling interval is over (`due`). */
  function RecordLive(s: Server, id: string, fileId: nat, bytes: nat, speed: nat, now: int, due: bool): Result<Server> {
    match FindIndex(s.transfers, id)
    case None => Err(TransferNotFound)
    case Some(i) =>
      match Progressed(s.transfers[i], fileId, bytes, now)
      case Err(error) => Err(error)
      case Ok((advanced, finished)) =>
        var left := if advanced.total >= advanced.completed then advanced.total - advanced.completed else 0;
        var v := advanced.(speed := speed, remaining := if speed > 0 then Some(left / speed) else None);
        var emission := if id in s.emissions then s.emissions[id] else Emission(false, map[]);
        var dirty := emission.dirty[fileId := bytes];
        var t := s.(transfers := s.transfers[i := v]);
        if finished || !emission.emitted || due then
          var p := Progress(s.revision + 1, s.lastFull, id, v.completed, v.speed, v.remaining, v.updatedAt, dirty);
          Ok(t.(revision := s.revision + 1, emissions := s.emissions[id := Emission(true, map[])], log := s.log + [p]))
        else
          Ok(t.(emissions := s.emissions[id := Emission(emission.emitted, dirty)]))
  }

  function Forget(s: Server, id: string): Server {
    s.(emissions := s.emissions - {id})
  }

  function Mutate(s: Server, id: string, edit: Edit): Result<Server> {
    match FindIndex(s.transfers, id)
    case None => Err(TransferNotFound)
    case Some(i) =>
      match ApplyEdit(s.transfers[i], edit)
      case Err(error) => Err(error)
      case Ok(v) => Ok(s.(transfers := Prune(s.transfers[i := v])))
  }

  function Push(s: Server, v: View): Server {
    s.(transfers := Prune([v] + s.transfers))
  }

  function Publish(s: Server): Server {
    s.(revision := s.revision + 1, lastFull := s.revision + 1, version := s.version + 1)
  }

  // ----- the subscriber's critical sections -----

  function PatchFiles(files: seq<FileView>, changed: map<nat, nat>): (r: seq<FileView>)
    ensures |r| == |files|
    ensures forall i :: 0 <= i < |files| ==>
      r[i] == if files[i].id in changed then files[i].(completed := changed[files[i].id]) else files[i]
  {
    seq(|files|, i requires 0 <= i < |files| =>
      if files[i].id in changed then files[i].(completed := changed[files[i].id]) else files[i])
  }

  function PatchView(v: View, p: Progress): View {
    v.(completed := p.completed, speed := p.speed, remaining := p.remaining, updatedAt := p.updatedAt,
       files := PatchFiles(v.files, p.files))
  }

  /** What a consumer does with a progress event. */
  function Patch(ts: seq<View>, p: Progress): seq<View> {
    match FindIndex(ts, p.transferId)
    case None => ts
    case Some(i) => ts[i := PatchView(ts[i], p)]
  }

  function NewSubscriber(s: Server): Subscriber {
    Subscriber(Idle, false, 0, 0, s.version, |s.log|, [], 0, 0, false)
  }

  /** Marks the watch seen; the future then waits for the state lock. */
  function Begin(s: Server, u: Subscriber): Subscriber {
    u.(phase := Marked, seen := s.version)
  }

  /** Reads state and `lastFull` under the lock and delivers a snapshot event. */
  function Read(s: Server, u: Subscriber, clock: nat): Subscriber {
    u.(phase := Idle, initialized := true, revision := s.revision, base := s.lastFull,
       transfers := s.transfers, profile := s.profile, since := clock, abandoned := false)
  }

  /** A full snapshot, or a delta that the cursor has passed, is newer than the subscriber. */
  predicate Missed(s: Server, u: Subscriber) {
    || u.base < s.lastFull
    || exists a :: 0 <= a < u.cursor && a < |s.log| && s.log[a].revision > u.revision
  }

  /** The future is dropped while it waits for the state lock. `abandoned` remembers that this lost
      something. */
  function Abandon(s: Server, u: Subscriber): Subscriber {
    u.(phase := Idle, abandoned := u.abandoned || (u.initialized && Missed(s, u)))
  }

  function Oldest(s: Server): nat {
    if |s.log| > PROGRESS_CAPACITY then |s.log| - PROGRESS_CAPACITY else 0
  }

  predicate Lagging(s: Server, u: Subscriber) {
    u.cursor < Oldest(s)
  }

  predicate Applies(s: Server, u: Subscriber)
    requires u.cursor < |s.log|
  {
    && !Lagging(s, u)
    && s.log[u.cursor].base == u.base
    && s.log[u.cursor].revision == u.revision + 1
  }

  function Receive(s: Server, u: Subscriber): Subscriber
    requires u.cursor < |s.log|
  {
    if Lagging(s, u) then u.(cursor := Oldest(s), phase := Wanting)
    else
      var p := s.log[u.cursor];
      var next := u.(cursor := u.cursor + 1);
      if p.revision <= u.revision then next
      else if Applies(s, u) then next.(revision := p.revision, transfers := Patch(u.transfers, p))
      else next.(phase := Wanting)
  }

  // ----- the composed system -----

  datatype Step =
    | DoRecord(id: string, fileId: nat, bytes: nat, speed: nat, now: int, due: bool)
    | DoForget(id: string)
    | DoMutate(id: string, edit: Edit)
    | DoPush(view: View)
    | DoProfile(profile: int)
    | DoPublish
    | DoSubscribe
    | DoBegin(who: nat)
    | DoRead(who: nat)
    | DoAbandon(who: nat)
    | DoReceive(who: nat)

  predicate Fresh(v: View) {
    UniqueFileIds(v.files) && NoProgress(v)
  }

  /** The guards beyond success are the program order of the transfer's own task: the push that lists
      a transfer publishes it before its first progress, the sender's reset comes before its first
      progress, and ids are never reused. */
  predicate Enabled(y: System, step: Step) {
    match step
    case DoRecord(id, fileId, bytes, speed, now, due) =>
      RecordLive(y.server, id, fileId, bytes, speed, now, due).Ok? && id in y.trace.announced
    case DoForget(id) => true
    case DoMutate(id, edit) =>
      Mutate(y.server, id, edit).Ok? && (edit.Reset? ==> id !in y.trace.started)
    case DoPush(v) => v.id !in y.trace.used && Fresh(v)
    case DoProfile(profile) => true
    case DoPublish => true
    case DoSubscribe => true
    case DoBegin(who) =>
      && who < |y.subs|
      && var u := y.subs[who];
         u.phase.Wanting? || (u.phase.Idle? && (!u.initialized || u.seen < y.server.version))
    case DoRead(who) => who < |y.subs| && y.subs[who].phase.Marked?
    case DoAbandon(who) => who < |y.subs| && y.subs[who].phase.Marked?
    case DoReceive(who) =>
      && who < |y.subs|
      && y.subs[who].phase.Idle? && y.subs[who].initialized && y.subs[who].cursor < |y.server.log|
  }

  function Lost(t: Trace, id: string): set<nat> {
    if id in t.lost then t.lost[id] else {}
  }

  function Unsent(t: Trace, id: string): map<nat, nat> {
    if id in t.unsent then t.unsent[id] else map[]
  }

  /** The bytes of one file of a listed transfer. */
  function Bytes(ts: seq<View>, id: string, fileId: nat): nat {
    match Lookup(ts, id)
    case None => 0
    case Some(v) =>
      match IndexedLookup(v.files, fileId)
      case None => 0
      case Some(i) => v.files[i].completed
  }

  /** A report that changes the file's bytes is unsent until a delta carries its file. */
  function UnsentAfter(t: Trace, s: Server, n: Server, id: string, fileId: nat): map<nat, nat> {
    if |n.log| > |s.log| then Unsent(t, id) - n.log[|n.log| - 1].files.Keys
    else if Bytes(n.transfers, id, fileId) != Bytes(s.transfers, id, fileId) then Unsent(t, id)[fileId := t.clock]
    else Unsent(t, id)
  }

  function Ids(ts: seq<View>): set<string> {
    set i | 0 <= i < |ts| :: ts[i].id
  }

  function ServerAfter(s: Server, step: Step): Server {
    match step
    case DoRecord(id, fileId, bytes, speed, now, due) =>
      (match RecordLive(s, id, fileId, bytes, speed, now, due) case Ok(n) => n case Err(_) => s)
    case DoForget(id) => Forget(s, id)
    case DoMutate(id, edit) => (match Mutate(s, id, edit) case Ok(n) => n case Err(_) => s)
    case DoPush(v) => Push(s, v)
    case DoProfile(profile) => s.(profile := profile)
    case DoPublish => Publish(s)
    case _ => s
  }

  /** `s` is the server before the step and `n` the server after it. */
  function TraceAfter(t: Trace, s: Server, n: Server, step: Step): Trace {
    match step
    case DoRecord(id, fileId, bytes, speed, now, due) =>
      var r := t.(clock := t.clock + 1, unsent := t.unsent[id := UnsentAfter(t, s, n, id, fileId)],
                  lost := t.lost[id := Lost(t, id) - {fileId}], started := t.started + {id});
      if |n.log| > |s.log|
      then r.(hist := t.hist + [Delta(n.log[|n.log| - 1], n.transfers, Unsent(r, id))])
      else r
    case DoForget(id) =>
      t.(lost := t.lost[id := Lost(t, id) + Dirty(s, id).Keys])
    case DoMutate(id, edit) => t.(unpublished := true)
    case DoPush(v) => t.(unpublished := true, used := t.used + {v.id})
    case DoProfile(profile) => t.(unpublished := true)
    case DoPublish =>
      t.(hist := t.hist + [Full(s.transfers)], unsent := map[], lost := map[], unpublished := false,
         announced := t.announced + Ids(s.transfers))
    case _ => t
  }

  function SubsAfter(y: System, step: Step): seq<Subscriber>
    requires Enabled(y, step)
  {
    match step
    case DoSubscribe => y.subs + [NewSubscriber(y.server)]
    case DoBegin(who) => y.subs[who := Begin(y.server, y.subs[who])]
    case DoRead(who) => y.subs[who := Read(y.server, y.subs[who], y.trace.clock)]
    case DoAbandon(who) => y.subs[who := Abandon(y.server, y.subs[who])]
    case DoReceive(who) => y.subs[who := Receive(y.server, y.subs[who])]
    case _ => y.subs
  }

  function Next(y: System, step: Step): System
    requires Enabled(y, step)
  {
    var n := ServerAfter(y.server, step);
    System(n, TraceAfter(y.trace, y.server, n, step), SubsAfter(y, step))
  }

  predicate UniqueIds(ts: seq<View>) {
    forall i, j :: 0 <= i < j < |ts| ==> ts[i].id != ts[j].id
  }

  /** What a manager needs of the list it starts from; a loaded history has terminal entries only. */
  predicate Startable(ts: seq<View>) {
    && UniqueIds(ts)
    && forall i :: 0 <= i < |ts| ==> UniqueFileIds(ts[i].files)
  }

  function Start(ts: seq<View>, profile: int): System {
    System(Server(0, 0, ts, profile, map[], 0, []),
           Trace([], 0, map[], map[], false, Ids(ts), Ids(ts), Ids(ts)),
           [])
  }

  predicate Legal(y: System, steps: seq<Step>)
    decreases |steps|
  {
    steps == [] || (Enabled(y, steps[0]) && Legal(Next(y, steps[0]), steps[1..]))
  }

  function After(y: System, steps: seq<Step>): System
    requires Legal(y, steps)
    decreases |steps|
  {
    if steps == [] then y else After(Next(y, steps[0]), steps[1..])
  }

  // ----- what the revisions mean -----

  /** The last full revision at or before revision `n`. */
  function LastFull(hist: seq<Revision>, n: nat): (r: nat)
    requires n <= |hist|
    ensures r <= n
  {
    if n == 0 then 0 else if hist[n - 1].Full? then n else LastFull(hist, n - 1)
  }

  /** Applies the deltas of revisions `r + 1` to `k`. */
  function Fold(ts: seq<View>, hist: seq<Revision>, r: nat, k: nat): seq<View>
    requires k <= |hist|
  {
    if k <= r then ts
    else if hist[k - 1].Delta? then Patch(Fold(ts, hist, r, k - 1), hist[k - 1].progress)
    else Fold(ts, hist, r, k - 1)
  }

  predicate SameTotals(w: View, v: View) {
    w.completed == v.completed && w.speed == v.speed && w.remaining == v.remaining && w.updatedAt == v.updatedAt
  }

  /** The files of `unsent` that changed at clock `since` or later. */
  function StaleSince(unsent: map<nat, nat>, since: nat): set<nat> {
    set f | f in unsent && unsent[f] >= since
  }

  /** The same files; in `stale` files the first view has fewer bytes, in all others exactly as many. */
  predicate Trails(w: View, v: View, stale: set<nat>) {
    && |w.files| == |v.files|
    && forall i :: 0 <= i < |v.files| ==>
         && w.files[i].id == v.files[i].id
         && (if v.files[i].id in stale then w.files[i].completed < v.files[i].completed
             else w.files[i].completed == v.files[i].completed)
  }

  /** A replica read at clock `since` holds a delta's transfer as the server held it when it assigned
      the delta's revision, but for the unsent changes after `since`, where it has fewer bytes. */
  predicate Exact(ts: seq<View>, rev: Revision, since: nat)
    requires rev.Delta?
  {
    var w := Lookup(ts, rev.progress.transferId);
    var v := Lookup(rev.transfers, rev.progress.transferId);
    w.Some? && v.Some? && SameTotals(w.value, v.value) && Trails(w.value, v.value, StaleSince(rev.unsent, since))
  }
}
