/** Where the replication guarantees end: dropped `next` futures and forgotten progress. */
module ReplicationLimits {
  import opened Prelude
  import opened Transfer
  import opened History
  import opened Replication
  import opened ReplicationProofs
  import opened ReplicationRuns

  predicate NoRead(steps: seq<Step>, who: nat) {
    forall i :: 0 <= i < |steps| ==> steps[i] != DoRead(who)
  }

  // ----- a dropped `next` -----

  /** A subscriber behind the last full snapshot stays behind until it reads a baseline: no delta helps. */
  lemma {:induction false} BehindUntilRead(y: System, steps: seq<Step>, who: nat)
    requires Inv(y) && Legal(y, steps) && NoRead(steps, who)
    requires who < |y.subs| && y.subs[who].initialized && y.subs[who].base < y.server.lastFull
    ensures var z := After(y, steps);
            who < |z.subs| && z.subs[who].base < z.server.lastFull && !UpToDate(z.server, z.subs[who])
    decreases |steps|
  {
    hide Enabled, Next, Inv;
    if steps != [] {
      StepKeepsInv(y, steps[0]);
      assert steps[0] != DoRead(who);
      forall i | 0 <= i < |steps[1..]| ensures steps[1..][i] != DoRead(who) {
        assert steps[i + 1] != DoRead(who);
      }
      StepStaysBehind(y, steps[0], who);
      BehindUntilRead(Next(y, steps[0]), steps[1..], who);
    }
  }

  lemma StepStaysBehind(y: System, step: Step, who: nat)
    requires Inv(y) && Enabled(y, step) && step != DoRead(who)
    requires who < |y.subs| && y.subs[who].initialized && y.subs[who].base < y.server.lastFull
    ensures var z := Next(y, step);
            who < |z.subs| && z.subs[who].initialized && z.subs[who].base < z.server.lastFull
  {
    assert LogInv(y.server, y.trace);
  }

  /** Exactly when dropping `next` in its baseline loses something. For a subscriber that lost nothing
      before and has nothing queued, the drop leaves it up to date if and only if no full snapshot was
      published since its base. */
  lemma DropLosesIff(ts: seq<View>, profile: int, steps: seq<Step>, who: nat)
    requires Startable(ts) && Legal(Start(ts, profile), steps)
    requires var y := After(Start(ts, profile), steps);
             && Enabled(y, DoAbandon(who)) && y.subs[who].initialized && !y.subs[who].abandoned
             && y.subs[who].cursor == |y.server.log|
    ensures var y := After(Start(ts, profile), steps);
            UpToDate(y.server, Next(y, DoAbandon(who)).subs[who]) <==> y.subs[who].base == y.server.lastFull
  {
    var y := Reached(ts, profile, steps);
    var s, t, u := y.server, y.trace, y.subs[who];
    assert SubInv(s, t, u);
    LastFullGap(t.hist, u.revision, s.revision);
    if u.base == s.lastFull {
      LatestIsUpToDate(s, t, u);
    }
  }

  /** What a drop lost stays lost in every continuation, until the subscriber reads a baseline. */
  lemma StepStaysAbandoned(y: System, step: Step, who: nat)
    requires Enabled(y, step) && step != DoRead(who)
    requires who < |y.subs| && y.subs[who].initialized && y.subs[who].abandoned
    ensures var z := Next(y, step); who < |z.subs| && z.subs[who].initialized && z.subs[who].abandoned
  {
    hide RecordLive, Mutate, Push, TraceAfter, Patch;
  }

  lemma {:induction false} AbandonedStaysBehind(y: System, steps: seq<Step>, who: nat)
    requires Inv(y) && Legal(y, steps) && NoRead(steps, who)
    requires who < |y.subs| && y.subs[who].initialized && y.subs[who].abandoned
    ensures var z := After(y, steps); who < |z.subs| && !UpToDate(z.server, z.subs[who])
    decreases |steps|
  {
    hide Enabled, Next, ReplicaInv, ListInv;
    if steps == [] {
      assert SubInv(y.server, y.trace, y.subs[who]);
      MissedIsBehind(y.server, y.trace, y.subs[who]);
    } else {
      StepKeepsInv(y, steps[0]);
      assert steps[0] != DoRead(who);
      forall i | 0 <= i < |steps[1..]| ensures steps[1..][i] != DoRead(who) {
        assert steps[i + 1] != DoRead(who);
      }
      StepStaysAbandoned(y, steps[0], who);
      AbandonedStaysBehind(Next(y, steps[0]), steps[1..], who);
    }
  }

  /** A subscriber is drained at revision 0 although the server published revision 1. */
  ghost predicate Overslept(y: System) {
    && |y.subs| == 1 && Drained(y.server, y.subs[0])
    && y.subs[0].revision == 0 && y.subs[0].profile == 0
    && y.server.revision == 1 && y.server.profile == 1
  }

  /** One subscriber that has read the server's initial state. */
  ghost predicate Awake(y: System) {
    && |y.subs| == 1 && y.server == Server(0, 0, [], 0, map[], 0, [])
    && y.subs[0] == Subscriber(Idle, true, 0, 0, 0, 0, [], 0, 0, false)
  }

  lemma AwakeIsReached() returns (y: System)
    ensures Reaches(Start([], 0), y) && Awake(y)
  {
    var x := Start([], 0);
    ReachesItself(x);
    ReachesNext(x, x, DoSubscribe);
    var y1 := Next(x, DoSubscribe);
    ReachesNext(x, y1, DoBegin(0));
    var y2 := Next(y1, DoBegin(0));
    ReachesNext(x, y2, DoRead(0));
    y := Next(y2, DoRead(0));
  }

  /** Such a run exists: one subscriber, one publication, one dropped `next`. */
  lemma DroppedBaselineHappens()
    ensures exists y :: Reaches(Start([], 0), y) && Overslept(y)
  {
    var x := Start([], 0);
    var y0 := AwakeIsReached();
    ReachesNext(x, y0, DoProfile(1));
    var y1 := Next(y0, DoProfile(1));
    ReachesNext(x, y1, DoPublish);
    var y2 := Next(y1, DoPublish);
    ReachesNext(x, y2, DoBegin(0));
    var y3 := Next(y2, DoBegin(0));
    ReachesNext(x, y3, DoAbandon(0));
    assert Overslept(Next(y3, DoAbandon(0)));
  }

  // ----- forgotten progress -----

  predicate NoForget(steps: seq<Step>, id: string) {
    forall i :: 0 <= i < |steps| ==> steps[i] != DoForget(id)
  }

  /** From revision `from` on, no delta of the transfer leaves a change behind. */
  ghost predicate NothingUnsent(hist: seq<Revision>, from: nat, id: string) {
    forall k :: from <= k < |hist| && hist[k].Delta? && hist[k].progress.transferId == id ==> hist[k].unsent == map[]
  }

  lemma {:induction false} NothingForgotten(y: System, steps: seq<Step>, id: string, from: nat)
    requires Inv(y) && Legal(y, steps) && NoForget(steps, id)
    requires Lost(y.trace, id) == {} && NothingUnsent(y.trace.hist, from, id)
    ensures Inv(After(y, steps)) && NothingUnsent(After(y, steps).trace.hist, from, id)
    decreases |steps|
  {
    if steps != [] {
      var z := Next(y, steps[0]);
      StepKeepsInv(y, steps[0]);
      assert steps[0] != DoForget(id);
      forall i | 0 <= i < |steps[1..]| ensures steps[1..][i] != DoForget(id) {
        assert steps[i + 1] != DoForget(id);
      }
      StepLeavesNothing(y, steps[0], id, from);
      NothingForgotten(z, steps[1..], id, from);
    }
  }

  lemma RecordLeavesNothing(s: Server, t: Trace, n: Server, t': Trace, r: Report, id: string)
    requires Recorded(s, n, r) && TracedRecord(s, t, n, t', r) && UnsentInv(n, t', id) && Lost(t, id) == {}
    ensures Lost(t', id) == {}
    ensures |n.log| > |s.log| && r.id == id ==> Unsent(t', id) == map[]
  {
    if |n.log| > |s.log| && r.id == id {
      assert Pending(n, t', id) == {};
      assert forall f :: f !in Unsent(t', id);
    }
  }

  lemma StepLeavesNothing(y: System, step: Step, id: string, from: nat)
    requires Inv(y) && Enabled(y, step) && Inv(Next(y, step)) && step != DoForget(id)
    requires Lost(y.trace, id) == {} && NothingUnsent(y.trace.hist, from, id)
    ensures Lost(Next(y, step).trace, id) == {} && NothingUnsent(Next(y, step).trace.hist, from, id)
  {
    hide RecordLive, Mutate, Push;
    if step.DoRecord? {
      RecordStepLeavesNothing(y, step, id, from);
    }
  }

  lemma RecordStepLeavesNothing(y: System, step: Step, id: string, from: nat)
    requires Inv(y) && Enabled(y, step) && Inv(Next(y, step)) && step.DoRecord?
    requires Lost(y.trace, id) == {} && NothingUnsent(y.trace.hist, from, id)
    ensures Lost(Next(y, step).trace, id) == {} && NothingUnsent(Next(y, step).trace.hist, from, id)
  {
    hide RecordLive, ReplicaInv, CursorInv, LogInv, ViewInv;
    var z := Next(y, step);
    var n, r := RecordShape(y.server, step.id, step.fileId, step.bytes, step.speed, step.now, step.due);
    assert z.server == n;
    RecordIsTraced(y.server, y.trace, step, n, r);
    assert UnsentInv(n, z.trace, id);
    RecordLeavesNothing(y.server, y.trace, n, z.trace, r, id);
  }

  /** The replica shows every file of `p`'s transfer and its totals as the server had them at `p`. */
  ghost predicate ExactForEveryFile(replica: seq<View>, hist: seq<Revision>, p: Progress) {
    && Logged(p, hist)
    && var w, v := Lookup(replica, p.transferId), Lookup(hist[p.revision - 1].transfers, p.transferId);
       w.Some? && v.Some? && SameTotals(w.value, v.value) && Trails(w.value, v.value, {})
  }

  lemma ExactFrom(x: System, steps: seq<Step>, who: nat)
    requires Inv(x) && Legal(x, steps) && Delivers(After(x, steps), who)
    requires var p := Incoming(After(x, steps), who);
             p.revision > x.server.revision && NoForget(steps, p.transferId) && Lost(x.trace, p.transferId) == {}
    ensures var y := After(x, steps);
            ExactForEveryFile(Next(y, DoReceive(who)).subs[who].transfers, y.trace.hist, Incoming(y, who))
  {
    var y := After(x, steps);
    NothingForgotten(x, steps, Incoming(y, who).transferId, |x.trace.hist|);
    DeliveredExactly(y, who, |x.trace.hist|);
  }

  lemma DeliveredExactly(y: System, who: nat, from: nat)
    requires Inv(y) && Delivers(y, who) && from < Incoming(y, who).revision
    requires NothingUnsent(y.trace.hist, from, Incoming(y, who).transferId)
    ensures ExactForEveryFile(Next(y, DoReceive(who)).subs[who].transfers, y.trace.hist, Incoming(y, who))
  {
    hide Next, Exact, Receive;
    assert SubInv(y.server, y.trace, y.subs[who]);
    DeliveryIsExact(y.server, y.trace, y.subs[who]);
    DeliveryHappens(y, who);
    ExactIsExact(Receive(y.server, y.subs[who]).transfers, y.trace.hist, Incoming(y, who), y.subs[who].since);
  }

  /** A replica that is exact at a delta that leaves nothing behind is exact for every file. */
  lemma ExactIsExact(replica: seq<View>, hist: seq<Revision>, p: Progress, since: nat)
    requires Logged(p, hist) && Exact(replica, hist[p.revision - 1], since)
    requires hist[p.revision - 1].unsent == map[]
    ensures ExactForEveryFile(replica, hist, p)
  {
    assert StaleSince(map[], since) == {};
  }

  /** If no terminal transition of the transfer forgot its emission since a full snapshot before the
      delta, a delivered delta is exact for every file. */
  lemma DeltaExactWithoutForgetting(ts: seq<View>, profile: int, before: seq<Step>, steps: seq<Step>, who: nat)
    requires Startable(ts) && Legal(Start(ts, profile), before)
    requires before == [] || before[|before| - 1] == DoPublish
    requires Legal(After(Start(ts, profile), before), steps)
    requires Delivers(After(After(Start(ts, profile), before), steps), who)
    requires var p := Incoming(After(After(Start(ts, profile), before), steps), who);
             p.revision > After(Start(ts, profile), before).server.revision && NoForget(steps, p.transferId)
    ensures var y := After(After(Start(ts, profile), before), steps);
            ExactForEveryFile(Next(y, DoReceive(who)).subs[who].transfers, y.trace.hist, Incoming(y, who))
  {
    hide ExactForEveryFile, Delivers;
    var x := Reached(ts, profile, before);
    if before != [] {
      ReplicationRuns.RunSnoc(Start(ts, profile), before);
    }
    ExactFrom(x, steps, who);
  }

  /** The steps neither publish, nor report the file, nor read a baseline. */
  predicate LeavesFile(steps: seq<Step>, who: nat, id: string, fileId: nat) {
    forall i :: 0 <= i < |steps| ==>
      && steps[i] != DoPublish && steps[i] != DoRead(who)
      && !(steps[i].DoRecord? && steps[i].id == id && steps[i].fileId == fileId)
  }

  /** The file changed after the subscriber's baseline, and the change is neither dirty nor carried. */
  ghost predicate Forgotten(y: System, who: nat, id: string, fileId: nat) {
    && who < |y.subs| && y.subs[who].initialized
    && fileId in StaleSince(Unsent(y.trace, id), y.subs[who].since) && fileId !in Dirty(y.server, id)
  }

  /** Every delta of the transfer from revision `from` on leaves the file's change behind. */
  ghost predicate LeftBehind(y: System, from: nat, who: nat, id: string, fileId: nat)
    requires who < |y.subs|
  {
    forall k :: from <= k < |y.trace.hist| && y.trace.hist[k].Delta? && y.trace.hist[k].progress.transferId == id ==>
      fileId in StaleSince(y.trace.hist[k].unsent, y.subs[who].since)
  }

  lemma RecordForgets(y: System, step: Step, who: nat, id: string, fileId: nat, from: nat)
    requires Inv(y) && Enabled(y, step) && step.DoRecord? && !(step.id == id && step.fileId == fileId)
    requires Forgotten(y, who, id, fileId) && LeftBehind(y, from, who, id, fileId)
    ensures var z := Next(y, step); Forgotten(z, who, id, fileId) && LeftBehind(z, from, who, id, fileId)
  {
    hide RecordLive, TracedRecord;
    var z := Next(y, step);
    var n, r := RecordShape(y.server, step.id, step.fileId, step.bytes, step.speed, step.now, step.due);
    assert z.server == n && z.subs == y.subs;
    RecordIsTraced(y.server, y.trace, step, n, r);
    OtherStaysUnsent(y.server, y.trace, n, z.trace, r, id, fileId);
  }

  /** A report of another file leaves an unsent change that is not dirty as it is. */
  lemma OtherStaysUnsent(s: Server, t: Trace, n: Server, t': Trace, r: Report, id: string, fileId: nat)
    requires Recorded(s, n, r) && TracedRecord(s, t, n, t', r) && !(r.id == id && r.fileId == fileId)
    requires fileId in Unsent(t, id) && fileId !in Dirty(s, id)
    ensures fileId in Unsent(t', id) && Unsent(t', id)[fileId] == Unsent(t, id)[fileId] && fileId !in Dirty(n, id)
  {
    hide Rewritten, Bytes, PatchView, Static;
  }

  lemma StepForgets(y: System, step: Step, who: nat, id: string, fileId: nat, from: nat)
    requires Inv(y) && Enabled(y, step) && LeavesFile([step], who, id, fileId)
    requires Forgotten(y, who, id, fileId) && LeftBehind(y, from, who, id, fileId)
    ensures var z := Next(y, step); Forgotten(z, who, id, fileId) && LeftBehind(z, from, who, id, fileId)
  {
    hide RecordLive, Patch;
    assert [step][0] == step;
    if step.DoRecord? {
      RecordForgets(y, step, who, id, fileId, from);
    }
  }

  lemma {:induction false} StaysForgotten(y: System, steps: seq<Step>, who: nat, id: string, fileId: nat, from: nat)
    requires Inv(y) && Legal(y, steps) && LeavesFile(steps, who, id, fileId)
    requires Forgotten(y, who, id, fileId) && LeftBehind(y, from, who, id, fileId)
    ensures var z := After(y, steps); Inv(z) && Forgotten(z, who, id, fileId) && LeftBehind(z, from, who, id, fileId)
    decreases |steps|
  {
    if steps != [] {
      StepKeepsInv(y, steps[0]);
      StepForgets(y, steps[0], who, id, fileId, from);
      StaysForgotten(Next(y, steps[0]), steps[1..], who, id, fileId, from);
    }
  }

  /** The replica shows fewer bytes of the file than the server had at `p`. */
  ghost predicate HasFewer(replica: seq<View>, hist: seq<Revision>, p: Progress, fileId: nat) {
    && Logged(p, hist)
    && var w, v := Lookup(replica, p.transferId), Lookup(hist[p.revision - 1].transfers, p.transferId);
       && w.Some? && v.Some? && |w.value.files| == |v.value.files|
       && var i := IndexedLookup(v.value.files, fileId);
          i.Some? && w.value.files[i.value].completed < v.value.files[i.value].completed
  }

  /** A replica that is exact but for a stale file of the transfer has fewer bytes of it. */
  lemma ExactHasFewer(replica: seq<View>, hist: seq<Revision>, p: Progress, since: nat, fileId: nat)
    requires Logged(p, hist) && KnownUnsent(hist[p.revision - 1]) && Exact(replica, hist[p.revision - 1], since)
    requires fileId in StaleSince(hist[p.revision - 1].unsent, since)
    ensures HasFewer(replica, hist, p, fileId)
  {
  }

  lemma DeliveredTrails(y: System, who: nat, fileId: nat, from: nat)
    requires Inv(y) && Delivers(y, who) && from < Incoming(y, who).revision
    requires LeftBehind(y, from, who, Incoming(y, who).transferId, fileId)
    ensures HasFewer(Next(y, DoReceive(who)).subs[who].transfers, y.trace.hist, Incoming(y, who), fileId)
  {
    hide Next, Exact, Receive;
    var p, u := Incoming(y, who), y.subs[who];
    assert SubInv(y.server, y.trace, u);
    DeliveryIsExact(y.server, y.trace, u);
    DeliveryHappens(y, who);
    assert Stamped(y.trace.hist, y.server.log, p.revision - 1);
    ExactHasFewer(Receive(y.server, u).transfers, y.trace.hist, p, u.since, fileId);
  }

  lemma TrailsFrom(x: System, steps: seq<Step>, who: nat, fileId: nat)
    requires Inv(x) && Legal(x, steps) && Delivers(After(x, steps), who)
    requires var p := Incoming(After(x, steps), who);
             && p.revision > x.server.revision
             && Forgotten(x, who, p.transferId, fileId) && LeavesFile(steps, who, p.transferId, fileId)
    ensures var y := After(x, steps);
            HasFewer(Next(y, DoReceive(who)).subs[who].transfers, y.trace.hist, Incoming(y, who), fileId)
  {
    var y := After(x, steps);
    var p := Incoming(y, who);
    StaysForgotten(x, steps, who, p.transferId, fileId, |x.trace.hist|);
    DeliveredTrails(y, who, fileId, |x.trace.hist|);
  }

  /** The loss is real and lasts. Once a change that a subscriber has not read is forgotten, every delta
      of its transfer that is assigned later leaves the subscriber with fewer bytes of that file than
      the server had, until the file is reported again, a full snapshot is published or the subscriber
      reads a baseline. */
  lemma ForgottenFileTrails(ts: seq<View>, profile: int, before: seq<Step>, steps: seq<Step>, who: nat, fileId: nat)
    requires Startable(ts) && Legal(Start(ts, profile), before)
    requires Legal(After(Start(ts, profile), before), steps)
    requires Delivers(After(After(Start(ts, profile), before), steps), who)
    requires var x := After(Start(ts, profile), before);
             var p := Incoming(After(x, steps), who);
             && p.revision > x.server.revision
             && Forgotten(x, who, p.transferId, fileId) && LeavesFile(steps, who, p.transferId, fileId)
    ensures var y := After(After(Start(ts, profile), before), steps);
            HasFewer(Next(y, DoReceive(who)).subs[who].transfers, y.trace.hist, Incoming(y, who), fileId)
  {
    var x := Reached(ts, profile, before);
    TrailsFrom(x, steps, who, fileId);
  }

  // ----- such a run -----

  // A transfer of two files, with one unemitted report forgotten before the next delta.

  const FILE_A := FileView(1, 10, 0, None, None, None)
  const FILE_B := FileView(2, 10, 0, None, None, None)

  function Shown(a: nat, b: nat, total: nat): View {
    View("t", 7, Transferring, [FILE_A.(completed := a), FILE_B.(completed := b)], 20, total, 0, None, None, 1)
  }

  function Offered(): View {
    Shown(0, 0, 0).(status := Connecting)
  }

  /** The transfer was accepted automatically: it was listed as connecting and is transferring now. */
  ghost predicate Transfers(y: System) {
    && y.server == Server(2, 2, [Shown(0, 0, 0)], 0, map[], 2, [])
    && "t" in y.trace.announced && y.subs == []
  }

  lemma ListingIsPublished() returns (y: System)
    ensures Reaches(Start([], 0), y)
    ensures y.server == Server(1, 1, [Offered()], 0, map[], 1, []) && "t" in y.trace.announced && y.subs == []
  {
    var x := Start([], 0);
    ReachesItself(x);
    ReachesNext(x, x, DoPush(Offered()));
    var y1 := Next(x, DoPush(Offered()));
    assert Prune([Offered()]) == [Offered()];
    ReachesNext(x, y1, DoPublish);
    y := Next(y1, DoPublish);
    assert y1.server.transfers[0].id == "t";
  }

  /** The transition to transferring evaluates like this. */
  lemma TransitionEvaluates(s: Server)
    requires s.transfers == [Offered()]
    ensures Mutate(s, "t", Move(Transferring, 1)) == Ok(s.(transfers := [Shown(0, 0, 0)]))
  {
    FindAt(s.transfers, 0);
    assert s.transfers[0 := Shown(0, 0, 0)] == [Shown(0, 0, 0)];
    assert Prune([Shown(0, 0, 0)]) == [Shown(0, 0, 0)];
  }

  lemma TransferringIsPublished() returns (y: System)
    ensures Reaches(Start([], 0), y) && Transfers(y)
  {
    var x := Start([], 0);
    var move := DoMutate("t", Move(Transferring, 1));
    var y0 := ListingIsPublished();
    TransitionEvaluates(y0.server);
    ReachesNext(x, y0, move);
    var y1 := Next(y0, move);
    ReachesNext(x, y1, DoPublish);
    y := Next(y1, DoPublish);
  }

  /** Subscriber 0 has read the state before any progress. */
  ghost predicate Attached(y: System) {
    && y.server == Server(2, 2, [Shown(0, 0, 0)], 0, map[], 2, []) && "t" in y.trace.announced
    && |y.subs| == 1
    && var u := y.subs[0];
       u.phase == Idle && u.initialized && u.revision == u.base == 2 && u.cursor == 0 && u.transfers == [Shown(0, 0, 0)]
  }

  lemma AttachedIsReached() returns (y: System)
    ensures Reaches(Start([], 0), y) && Attached(y)
  {
    var x := Start([], 0);
    var y0 := TransferringIsPublished();
    ReachesNext(x, y0, DoSubscribe);
    var y1 := Next(y0, DoSubscribe);
    ReachesNext(x, y1, DoBegin(0));
    var y2 := Next(y1, DoBegin(0));
    ReachesNext(x, y2, DoRead(0));
    y := Next(y2, DoRead(0));
  }

  /** Progress of the two-file transfer when no emission is known, and when one is. */
  lemma RecordEvaluates(s: Server, a: nat, b: nat, fileId: nat, bytes: nat)
    requires s.transfers == [Shown(a, b, a + b)] && 1 <= fileId <= 2
    requires (if fileId == 1 then a else b) <= bytes < 10
    requires "t" in s.emissions ==> s.emissions["t"] == Emission(true, map[])
    ensures var w := if fileId == 1 then Shown(bytes, b, bytes + b) else Shown(a, bytes, a + bytes);
            RecordLive(s, "t", fileId, bytes, 0, 1, false)
              == Ok(if "t" in s.emissions
                    then s.(transfers := [w], emissions := s.emissions["t" := Emission(true, map[fileId := bytes])])
                    else s.(transfers := [w], revision := s.revision + 1,
                            emissions := s.emissions["t" := Emission(true, map[])],
                            log := s.log + [Progress(s.revision + 1, s.lastFull, "t", w.completed, 0, None, 1,
                                                     map[fileId := bytes])]))
  {
    var v := Shown(a, b, a + b);
    FindAt(s.transfers, 0);
    assert IndexedLookup(v.files, fileId) == Some(fileId - 1);
    var w := if fileId == 1 then Shown(bytes, b, bytes + b) else Shown(a, bytes, a + bytes);
    assert w.files == v.files[fileId - 1 := v.files[fileId - 1].(completed := bytes)];
    assert Progressed(v, fileId, bytes, 1) == Ok((w, false));
    assert s.transfers[0 := w] == [w];
    assert map[][fileId := bytes] == map[fileId := bytes];
  }

  lemma PatchEvaluates(a: nat, b: nat, total: nat, p: Progress)
    requires p.transferId == "t" && p.speed == 0 && p.remaining == None && p.updatedAt == 1
    requires p.files.Keys == {1} || p.files.Keys == {2}
    ensures Patch([Shown(a, b, total)], p)
              == [if 1 in p.files then Shown(p.files[1], b, p.completed) else Shown(a, p.files[2], p.completed)]
  {
    var v := Shown(a, b, total);
    FindAt([v], 0);
    var w := if 1 in p.files then Shown(p.files[1], b, p.completed) else Shown(a, p.files[2], p.completed);
    assert PatchFiles(v.files, p.files) == w.files;
    assert [v][0 := PatchView(v, p)] == [w];
  }

  /** The first report emitted a delta, and the subscriber has delivered it. */
  ghost predicate Halfway(y: System) {
    && y.server.transfers == [Shown(5, 0, 5)]
    && y.server.revision == 3 && y.server.lastFull == 2 && |y.server.log| == 1
    && y.server.emissions == map["t" := Emission(true, map[])]
    && "t" in y.trace.announced
    && |y.subs| == 1
    && var u := y.subs[0];
       u.phase == Idle && u.initialized && u.revision == 3 && u.base == 2 && u.cursor == 1
       && u.transfers == [Shown(5, 0, 5)]
  }

  lemma ReportHappens(x: System, y: System, fileId: nat, bytes: nat)
    requires Reaches(x, y) && "t" in y.trace.announced && RecordLive(y.server, "t", fileId, bytes, 0, 1, false).Ok?
    ensures var step := DoRecord("t", fileId, bytes, 0, 1, false);
            && Enabled(y, step) && Reaches(x, Next(y, step))
            && Next(y, step).server == RecordLive(y.server, "t", fileId, bytes, 0, 1, false).value
            && Next(y, step).subs == y.subs && Next(y, step).trace.announced == y.trace.announced
  {
    ReachesNext(x, y, DoRecord("t", fileId, bytes, 0, 1, false));
  }

  lemma HalfwayIsReached() returns (y: System)
    ensures Reaches(Start([], 0), y) && Halfway(y)
  {
    var x := Start([], 0);
    var y0 := AttachedIsReached();
    RecordEvaluates(y0.server, 0, 0, 1, 5);
    ReportHappens(x, y0, 1, 5);
    var y1 := Next(y0, DoRecord("t", 1, 5, 0, 1, false));
    PatchEvaluates(0, 0, 0, y1.server.log[0]);
    ReachesNext(x, y1, DoReceive(0));
    y := Next(y1, DoReceive(0));
  }

  /** Subscriber 0 is about to deliver the newest delta; the server then held 7 and 3 bytes, and the
      replica will show 5 and 3. */
  ghost predicate AboutToMiss(y: System) {
    && Delivers(y, 0)
    && Incoming(y, 0).revision == y.server.revision
    && y.server.transfers == [Shown(7, 3, 10)]
    && Next(y, DoReceive(0)).subs[0].transfers == [Shown(5, 3, 10)]
  }

  lemma ReportIsForgotten(y: System) returns (z: System)
    requires Reaches(Start([], 0), y) && Halfway(y)
    ensures Reaches(Start([], 0), z)
    ensures z.server == y.server.(transfers := [Shown(7, 0, 7)], emissions := map[])
    ensures z.subs == y.subs && z.trace.announced == y.trace.announced
  {
    var x := Start([], 0);
    RecordEvaluates(y.server, 5, 0, 1, 7);
    ReportHappens(x, y, 1, 7);
    var y1 := Next(y, DoRecord("t", 1, 7, 0, 1, false));
    ReachesNext(x, y1, DoForget("t"));
    z := Next(y1, DoForget("t"));
  }

  /** Forgetting can make a later delta inexact, although it is delivered in sequence: from an empty
      history, such a run exists. */
  lemma ForgottenProgressIsLost()
    ensures exists y :: Reaches(Start([], 0), y) && AboutToMiss(y)
  {
    hide Next, Enabled, RecordLive, AboutToMiss;
    var y0 := HalfwayIsReached();
    var y1 := ReportIsForgotten(y0);
    RecordEvaluates(y1.server, 7, 0, 2, 3);
    ReportHappens(Start([], 0), y1, 2, 3);
    MissIsNear(Next(y1, DoRecord("t", 2, 3, 0, 1, false)));
  }

  lemma MissIsNear(y: System)
    requires y.server.transfers == [Shown(7, 3, 10)] && y.server.revision == 4 && y.server.lastFull == 2
    requires |y.server.log| == 2
    requires y.server.log[1] == Progress(4, 2, "t", 10, 0, None, 1, map[2 := 3])
    requires |y.subs| == 1
    requires var u := y.subs[0];
             && u.phase == Idle && u.initialized && u.revision == 3 && u.base == 2 && u.cursor == 1
             && u.transfers == [Shown(5, 0, 5)]
    ensures AboutToMiss(y)
  {
    hide RecordLive, Mutate, Push, TraceAfter;
    PatchEvaluates(5, 0, 5, y.server.log[1]);
  }
}
