/** What a subscriber is told: every delta and every diagnostic once and in order, unless too many wait. */
module SubscriptionEvents {
  import opened Prelude
  import opened Transfer
  import opened Replication
  import opened ReplicationProofs
  import opened Subscription

  // ----- deltas -----

  /** The next `k` events that a subscriber of a still server gets. */
  function Events(s: Server, u: Subscriber, clock: nat, k: nat): seq<Option<Event>>
    decreases k
  {
    if k == 0 then []
    else
      var (event, v) := NextEvent(s, u, clock);
      [event] + Events(s, v, clock, k - 1)
  }

  /** The next `k` entries of the log follow the subscriber's revision one by one. */
  ghost predicate Consecutive(s: Server, u: Subscriber, k: nat) {
    && u.cursor + k <= |s.log|
    && forall a :: u.cursor <= a < u.cursor + k ==>
         s.log[a].revision == u.revision + 1 + (a - u.cursor) && s.log[a].base == u.base
  }

  /** Deltas that follow one another are delivered one by one, none skipped, none replaced by a snapshot. */
  lemma {:induction false} DeltasInOrder(s: Server, u: Subscriber, clock: nat, k: nat)
    requires u.initialized && u.phase.Idle? && u.seen == s.version
    requires Consecutive(s, u, k) && |s.log| <= u.cursor + 256
    ensures |Events(s, u, clock, k)| == k
    ensures forall i :: 0 <= i < k ==> Events(s, u, clock, k)[i] == Some(ProgressEvent(s.log[u.cursor + i]))
    decreases k
  {
    if k > 0 {
      hide NextEvent, Receive, Consecutive;
      DeltaIsDelivered(s, u, clock, k);
      DeltasInOrder(s, NextEvent(s, u, clock).1, clock, k - 1);
    }
  }

  lemma DeltaIsDelivered(s: Server, u: Subscriber, clock: nat, k: nat)
    requires u.initialized && u.phase.Idle? && u.seen == s.version
    requires k > 0 && Consecutive(s, u, k) && |s.log| <= u.cursor + 256
    ensures u.cursor < |s.log|
    ensures var (event, v) := NextEvent(s, u, clock);
            && event == Some(ProgressEvent(s.log[u.cursor])) && Consecutive(s, v, k - 1)
            && v.initialized && v.phase.Idle? && v.seen == s.version && v.cursor == u.cursor + 1
  {
    hide Patch;
    assert s.log[u.cursor].revision == u.revision + 1;
    assert Applies(s, u) && NextEvent(s, u, clock).1 == Receive(s, u);
  }

  // ----- from a run -----

  /** No full snapshot is published, and the subscriber itself does nothing. */
  predicate OnlyDeltas(steps: seq<Step>, who: nat) {
    forall i :: 0 <= i < |steps| ==>
      && steps[i] != DoPublish
      && steps[i] != DoBegin(who) && steps[i] != DoRead(who) && steps[i] != DoAbandon(who) && steps[i] != DoReceive(who)
  }

  /** Since the log had `from` entries at revision `at`, each new revision is one delta on the same base. */
  ghost predicate OneEach(s: Server, from: nat, at: nat, base: nat) {
    && from <= |s.log| && s.lastFull == base && s.revision == at + (|s.log| - from)
    && forall a :: from <= a < |s.log| ==> s.log[a].revision == at + 1 + (a - from) && s.log[a].base == base
  }

  lemma StepLogsOne(y: System, step: Step, who: nat, from: nat, at: nat, base: nat)
    requires Enabled(y, step) && OnlyDeltas([step], who) && who < |y.subs| && OneEach(y.server, from, at, base)
    ensures var z := Next(y, step);
            && OneEach(z.server, from, at, base) && z.server.version == y.server.version
            && who < |z.subs| && z.subs[who] == y.subs[who]
  {
    assert [step][0] == step;
    if step.DoRecord? {
      var n, r := RecordShape(y.server, step.id, step.fileId, step.bytes, step.speed, step.now, step.due);
    }
  }

  lemma {:induction false} RunLogsOne(y: System, steps: seq<Step>, who: nat, from: nat, at: nat, base: nat)
    requires Legal(y, steps) && OnlyDeltas(steps, who) && who < |y.subs| && OneEach(y.server, from, at, base)
    ensures var z := After(y, steps);
            && OneEach(z.server, from, at, base) && z.server.version == y.server.version
            && who < |z.subs| && z.subs[who] == y.subs[who]
    decreases |steps|
  {
    hide Enabled, Next, OneEach;
    if steps != [] {
      assert forall i :: 0 <= i < |steps[1..]| ==> steps[1..][i] == steps[i + 1];
      StepLogsOne(y, steps[0], who, from, at, base);
      RunLogsOne(Next(y, steps[0]), steps[1..], who, from, at, base);
    }
  }

  /** The next calls of subscriber `who` deliver the deltas from index `from` on, each once and in order. */
  ghost predicate DeliversFrom(z: System, who: nat, from: nat) {
    && from <= |z.server.log| && who < |z.subs|
    && var k := |z.server.log| - from;
       var events := Events(z.server, z.subs[who], z.trace.clock, k);
       |events| == k && forall i :: 0 <= i < k ==> events[i] == Some(ProgressEvent(z.server.log[from + i]))
  }

  /** Every delta is delivered once and in order. In every run, if a subscriber that lost nothing by a drop
      had seen everything, and since then others published no full snapshot and at most 256 deltas, then
      its next calls deliver exactly these deltas. */
  lemma EveryDeltaIsDelivered(ts: seq<View>, profile: int, steps: seq<Step>, who: nat, more: seq<Step>)
    requires Startable(ts) && Legal(Start(ts, profile), steps)
    requires var y := After(Start(ts, profile), steps);
             who < |y.subs| && Drained(y.server, y.subs[who]) && !y.subs[who].abandoned
    requires Legal(After(Start(ts, profile), steps), more) && OnlyDeltas(more, who)
    requires var y := After(Start(ts, profile), steps); |After(y, more).server.log| <= |y.server.log| + 256
    ensures var y := After(Start(ts, profile), steps);
            DeliversFrom(After(y, more), who, |y.server.log|)
  {
    hide DeliversFrom;
    var y := Reached(ts, profile, steps);
    DeliverAll(y, who, more);
  }

  lemma DeliverAll(y: System, who: nat, more: seq<Step>)
    requires Inv(y) && who < |y.subs| && Drained(y.server, y.subs[who]) && !y.subs[who].abandoned
    requires Legal(y, more) && OnlyDeltas(more, who)
    requires |After(y, more).server.log| <= |y.server.log| + 256
    ensures DeliversFrom(After(y, more), who, |y.server.log|)
  {
    hide Enabled, Next, Events, OneEach, Consecutive, ListInv, ReplicaInv;
    var s, u := y.server, y.subs[who];
    assert SubInv(s, y.trace, u);
    LatestIsUpToDate(s, y.trace, u);
    NothingSince(s);
    RunLogsOne(y, more, who, |s.log|, s.revision, s.lastFull);
    var z := After(y, more);
    FollowsDrained(s, u, z.server);
    DeltasInOrder(z.server, u, z.trace.clock, |z.server.log| - |s.log|);
  }

  lemma NothingSince(s: Server)
    ensures OneEach(s, |s.log|, s.revision, s.lastFull)
  {
  }

  lemma FollowsDrained(s: Server, u: Subscriber, n: Server)
    requires Drained(s, u) && UpToDate(s, u) && OneEach(n, |s.log|, s.revision, s.lastFull)
    ensures |s.log| <= |n.log| && Consecutive(n, u, |n.log| - |s.log|)
  {
  }

  /** A new subscriber is told the state once, and then nothing until something happens: whatever was
      broadcast before it subscribed is not its business. */
  lemma FirstEvents(s: Server, clock: nat)
    ensures var (first, u) := NextEvent(s, NewSubscriber(s), clock);
            && first == Some(Snapshot(s.transfers, s.profile, s.lastFull))
            && u.transfers == s.transfers && u.revision == s.revision && u.base == s.lastFull
            && NextEvent(s, u, clock) == (None, u)
  {
  }

  // ----- diagnostics -----

  /** All diagnostics that a cursor gets while no new ones arrive. */
  function Diagnostics(errors: seq<string>, cursor: nat): seq<Event>
    decreases if cursor <= |errors| then |errors| - cursor else 0
  {
    match NextError(errors, cursor)
    case (None, _) => []
    case (Some(event), next) => [event] + Diagnostics(errors, next)
  }

  /** Diagnostics arrive once and in order: all of them if at most 32 wait, and otherwise the number that
      was dropped and then the newest 32. */
  lemma {:induction false} DiagnosticsInOrder(errors: seq<string>, cursor: nat)
    requires cursor <= |errors|
    ensures var waiting, got := |errors| - cursor, Diagnostics(errors, cursor);
            if waiting <= 32 then
              |got| == waiting && forall k :: 0 <= k < waiting ==> got[k] == ErrorEvent(errors[cursor + k])
            else
              && |got| == 33 && got[0] == ErrorsDropped(waiting - 32)
              && forall k :: 1 <= k < 33 ==> got[k] == ErrorEvent(errors[|errors| - 33 + k])
    decreases |errors| - cursor
  {
    if cursor < |errors| {
      var next := NextError(errors, cursor).1;
      DiagnosticsInOrder(errors, next);
      assert Diagnostics(errors, cursor)[1..] == Diagnostics(errors, next);
    }
  }
}
