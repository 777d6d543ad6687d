/** A subscriber's cursor: `Next` as the code's loop, and what it does while the server is quiet. */
module Subscription {
  import opened Prelude
  import opened Transfer
  import opened Replication
  import opened ReplicationProofs
  import opened ReplicationRuns
  import Manager

  const ERROR_CAPACITY := 32

  datatype Event =
    | Snapshot(transfers: seq<View>, profile: int, base: nat)
    | ProgressEvent(progress: Progress)
    | ErrorEvent(message: string)
    | ErrorsDropped(count: nat)

  /** How a call of `next` ends; a call that waits goes on when something happens. */
  datatype Outcome = Stopped | Waits | Delivered(event: Event)

  /** The diagnostics that a cursor gets next, of which only the newest 32 are kept, and where it goes. */
  function NextError(errors: seq<string>, cursor: nat): (Option<Event>, nat) {
    var oldest := if |errors| > ERROR_CAPACITY then |errors| - ERROR_CAPACITY else 0;
    if cursor >= |errors| then (None, cursor)
    else if cursor < oldest then (Some(ErrorsDropped(oldest - cursor)), oldest)
    else (Some(ErrorEvent(errors[cursor])), cursor + 1)
  }

  function Baseline(s: Server, u: Subscriber, clock: nat): Subscriber {
    Read(s, Begin(s, u), clock)
  }

  /** The event of one call of `next` and the cursor after it; no event means that the call waits. */
  function NextEvent(s: Server, u: Subscriber, clock: nat): (Option<Event>, Subscriber)
    decreases if u.cursor < |s.log| then |s.log| - u.cursor else 0
  {
    if !u.initialized || u.seen < s.version then
      (Some(Snapshot(s.transfers, s.profile, s.lastFull)), Baseline(s, u, clock))
    else if u.cursor >= |s.log| then (None, u)
    else
      var v := Receive(s, u);
      if v.phase.Wanting? then (Some(Snapshot(s.transfers, s.profile, s.lastFull)), Baseline(s, v, clock))
      else if Applies(s, u) then (Some(ProgressEvent(s.log[u.cursor])), v)
      else if v.cursor > u.cursor then NextEvent(s, v, clock)
      else (None, u)
  }

  // ----- one subscriber among writers -----

  /** The subscriber `who` after a step; its clock is left out. */
  function Own(s: Server, u: Subscriber, who: nat, step: Step): Subscriber {
    match step
    case DoBegin(w) => if w == who then Begin(s, u) else u
    case DoRead(w) => if w == who then Read(s, u, 0) else u
    case DoAbandon(w) => if w == who then Abandon(s, u) else u
    case DoReceive(w) => if w == who && u.cursor < |s.log| then Receive(s, u) else u
    case _ => u
  }

  function Play(s: Server, u: Subscriber, who: nat, steps: seq<Step>): (Server, Subscriber)
    decreases |steps|
  {
    if steps == [] then (s, u)
    else Play(ServerAfter(s, steps[0]), Own(s, u, who, steps[0]), who, steps[1..])
  }

  /** A run of the whole system moves its server and each subscriber like this. */
  lemma {:induction false} PlayFollowsRun(y: System, who: nat, steps: seq<Step>)
    requires Legal(y, steps) && who < |y.subs|
    ensures var z := After(y, steps);
            && who < |z.subs|
            && Play(y.server, y.subs[who].(since := 0), who, steps) == (z.server, z.subs[who].(since := 0))
    decreases |steps|
  {
    if steps != [] {
      StepFollows(y, who, steps[0]);
      PlayFollowsRun(Next(y, steps[0]), who, steps[1..]);
    }
  }

  lemma StepFollows(y: System, who: nat, step: Step)
    requires Enabled(y, step) && who < |y.subs|
    ensures var z := Next(y, step);
            && z.server == ServerAfter(y.server, step) && who < |z.subs|
            && z.subs[who].(since := 0) == Own(y.server, y.subs[who].(since := 0), who, step)
  {
  }

  lemma {:induction false} PlayAppend(s: Server, u: Subscriber, who: nat, a: seq<Step>, b: seq<Step>)
    ensures var (n, v) := Play(s, u, who, a); Play(s, u, who, a + b) == Play(n, v, who, b)
    decreases |a|
  {
    if a == [] {
      assert a + b == b;
    } else {
      assert (a + b)[0] == a[0] && (a + b)[1..] == a[1..] + b;
      PlayAppend(ServerAfter(s, a[0]), Own(s, u, who, a[0]), who, a[1..], b);
    }
  }

  lemma {:induction false} PlayWrites(s: Server, u: Subscriber, who: nat, steps: seq<Step>)
    requires forall step :: step in steps ==> Manager.Writes(step)
    ensures Play(s, u, who, steps) == (Manager.ServerRun(s, steps), u)
    decreases |steps|
  {
    if steps != [] {
      assert Manager.Writes(steps[0]);
      PlayWrites(ServerAfter(s, steps[0]), u, who, steps[1..]);
    }
  }

  lemma PlayOne(s: Server, u: Subscriber, who: nat, step: Step)
    ensures Play(s, u, who, [step]) == (ServerAfter(s, step), Own(s, u, who, step))
  {
    assert [step][1..] == [];
  }

  lemma PlayFromMark(s: Server, u: Subscriber, v: Subscriber, who: nat, steps: seq<Step>)
    requires steps != [] && steps[0] == DoBegin(who) && u.(phase := Idle) == v.(phase := Idle)
    ensures Play(s, u, who, steps) == Play(s, v, who, steps)
  {
  }

  /** What an event says about the server and the subscriber it leaves behind. */
  predicate Tells(event: Option<Event>, s: Server, u: Subscriber) {
    && u.initialized
    && match event
       case None => u.seen == s.version && u.cursor == |s.log|
       case Some(Snapshot(transfers, profile, base)) =>
         && transfers == u.transfers == s.transfers && profile == s.profile
         && base == u.base == s.lastFull && u.revision == s.revision
       case Some(ProgressEvent(progress)) =>
         && 0 < u.cursor <= |s.log| && progress == s.log[u.cursor - 1]
         && progress.revision == u.revision && progress.base == u.base
       case Some(_) => u.seen == s.version && u.cursor == |s.log|
  }

  class TransferSubscription {
    const manager: Manager.TransferManager
    ghost const who: nat
    var initialized: bool
    var revision: nat
    var base: nat
    var seen: nat
    var cursor: nat
    var errorCursor: nat
    ghost var transfers: seq<View>
    ghost var profile: int
    ghost var abandoned: bool

    ghost function Model(): Subscriber
      reads this
    {
      Subscriber(Idle, initialized, revision, base, seen, cursor, transfers, profile, 0, abandoned)
    }

    /** The cursor lies within what the manager has published. */
    ghost predicate Valid()
      reads this, manager
    {
      && revision <= manager.revision && seen <= manager.version && cursor <= |manager.log|
      && errorCursor <= |manager.errors|
      && forall a :: 0 <= a < |manager.log| ==> manager.log[a].revision <= manager.revision
    }

    constructor (manager: Manager.TransferManager, ghost who: nat)
      requires forall a :: 0 <= a < |manager.log| ==> manager.log[a].revision <= manager.revision
      ensures this.manager == manager && this.who == who
      ensures Valid() && Model() == NewSubscriber(manager.Model())
    {
      this.manager, this.who := manager, who;
      initialized, revision, base := false, 0, 0;
      seen, cursor, errorCursor := manager.version, |manager.log|, |manager.errors|;
      transfers, profile, abandoned := [], 0, false;
    }

    /** Marks the watch, waits for the state lock while others may write, and reads. */
    method ReadBaseline() returns (event: Event, ghost steps: seq<Step>)
      requires Valid()
      modifies this, manager
      ensures Valid() && Tells(Some(event), manager.Model(), Model()) && event.Snapshot?
      ensures errorCursor == old(errorCursor) && (old(manager.stopping) ==> manager.stopping)
      ensures steps != [] && steps[0] == DoBegin(who)
      ensures (manager.Model(), Model()) == Play(old(manager.Model()), old(Model()), who, steps)
      ensures manager.quiet ==>
        manager.Model() == old(manager.Model()) && Model() == old(Baseline(manager.Model(), Model(), 0))
    {
      ghost var s, u := manager.Model(), Model();
      seen := manager.version;
      ghost var marked := Begin(s, u);
      var others := manager.Others();
      initialized := true;
      revision := manager.revision;
      base := manager.lastFull;
      transfers, profile, abandoned := manager.transfers, manager.profile, false;
      event := Snapshot(manager.transfers, manager.profile, manager.lastFull);
      steps := [DoBegin(who)] + others + [DoRead(who)];
      PlayOne(s, u, who, DoBegin(who));
      PlayAppend(s, u, who, [DoBegin(who)], others);
      PlayWrites(s, marked, who, others);
      Manager.WritesExtend(s, others);
      PlayAppend(s, u, who, [DoBegin(who)] + others, [DoRead(who)]);
      PlayOne(manager.Model(), marked, who, DoRead(who));
    }

    /** Takes the next entry of the delta channel: nothing for an old one, the delta if it fits, and
        otherwise a demand for a baseline. */
    method TakeDelta() returns (delta: Option<Progress>, gap: bool)
      requires Valid() && initialized && cursor < |manager.log|
      modifies this
      ensures var s := manager.Model();
              && gap == Receive(s, old(Model())).phase.Wanting?
              && Model() == Receive(s, old(Model())).(phase := Idle)
              && (delta.Some? <==> Applies(s, old(Model())) && s.log[old(cursor)].revision > old(revision))
              && (delta.Some? ==> delta.value == s.log[old(cursor)])
      ensures Valid() && errorCursor == old(errorCursor)
      ensures delta.None? && !gap ==> cursor == old(cursor) + 1 && manager.log[old(cursor)].revision <= revision
    {
      var oldest := Oldest(manager.Model());
      if cursor < oldest {
        cursor := oldest;
        return None, true;
      }
      var progress := manager.log[cursor];
      cursor := cursor + 1;
      if progress.revision <= revision {
        return None, false;
      }
      if progress.base == base && progress.revision == revision + 1 {
        revision := progress.revision;
        transfers := Patch(transfers, progress);
        return Some(progress), false;
      }
      return None, true;
    }

    /** What a method of this subscriber leaves behind, given the steps taken meanwhile. */
    twostate predicate Played(steps: seq<Step>)
      reads this, manager
    {
      && (manager.Model(), Model()) == Play(old(manager.Model()), old(Model()), who, steps)
      && (manager.quiet ==> manager.Model() == old(manager.Model()))
    }

    /** Takes the next delta, and reads a baseline instead if it does not fit. */
    method TakeEvent() returns (event: Option<Event>, ghost steps: seq<Step>)
      requires Valid() && initialized && cursor < |manager.log|
      modifies this, manager
      ensures Valid() && initialized && Played(steps) && errorCursor == old(errorCursor)
      ensures event.Some? ==>
        Tells(event, manager.Model(), Model()) && (event.value.Snapshot? || event.value.ProgressEvent?)
      ensures event.None? ==> manager.stopping == old(manager.stopping) && manager.errors == old(manager.errors)
      ensures event.None? ==>
        && manager.Model() == old(manager.Model()) && revision == old(revision) && seen == old(seen)
        && cursor == old(cursor) + 1 && manager.log[old(cursor)].revision <= revision
      ensures manager.quiet && old(seen) == manager.version ==>
        old(NextEvent(manager.Model(), Model(), 0))
          == if event.Some? then (event, Model()) else NextEvent(manager.Model(), Model(), 0)
    {
      ghost var s, u := manager.Model(), Model();
      var delta, gap := TakeDelta();
      steps := [DoReceive(who)];
      PlayOne(s, u, who, DoReceive(who));
      event := match delta case Some(progress) => Some(ProgressEvent(progress)) case None => None;
      if gap {
        ghost var v := Model();
        var snapshot, reading := ReadBaseline();
        PlayFromMark(s, Receive(s, u), v, who, reading);
        PlayAppend(s, u, who, steps, reading);
        return Some(snapshot), steps + reading;
      }
    }

    /** Lets others write. */
    method Yield() returns (ghost steps: seq<Step>)
      requires Valid()
      modifies manager
      ensures Valid() && Played(steps) && Model() == old(Model())
      ensures old(manager.stopping) ==> manager.stopping
      ensures old(manager.errors) <= manager.errors
      ensures manager.quiet ==> manager.stopping == old(manager.stopping) && manager.errors == old(manager.errors)
      ensures old(|manager.log|) <= |manager.log| && manager.revision >= old(manager.revision)
      ensures forall a :: old(|manager.log|) <= a < |manager.log| ==> manager.log[a].revision > old(manager.revision)
      ensures forall a :: 0 <= a < old(|manager.log|) ==> manager.log[a] == old(manager.log)[a]
    {
      ghost var s, u := manager.Model(), Model();
      var others := manager.Others();
      steps := others;
      Manager.WritesExtend(s, others);
      PlayWrites(s, u, who, others);
    }

    /** Takes the next diagnostic, or learns that some were dropped. */
    method TakeError() returns (event: Option<Event>)
      requires Valid()
      modifies this`errorCursor
      ensures Valid() && (event, errorCursor) == old(NextError(manager.errors, errorCursor))
    {
      var oldest := if |manager.errors| > ERROR_CAPACITY then |manager.errors| - ERROR_CAPACITY else 0;
      if errorCursor >= |manager.errors| {
        return None;
      }
      if errorCursor < oldest {
        event := Some(ErrorsDropped(oldest - errorCursor));
        errorCursor := oldest;
        return;
      }
      event := Some(ErrorEvent(manager.errors[errorCursor]));
      errorCursor := errorCursor + 1;
    }

    /** What the outcome of a call says about the manager and the subscriber that it leaves behind. */
    ghost predicate Left(outcome: Outcome, errorsBefore: nat)
      reads this, manager
    {
      match outcome
      case Stopped => manager.stopping && errorCursor == errorsBefore
      case Waits => Tells(None, manager.Model(), Model()) && errorCursor == errorsBefore == |manager.errors|
      case Delivered(event) =>
        && Tells(Some(event), manager.Model(), Model())
        && (if event.Snapshot? || event.ProgressEvent? then errorCursor == errorsBefore
            else NextError(manager.errors, errorsBefore) == (Some(event), errorCursor))
    }

    /** The outcome of a call that no other task disturbs. */
    ghost function Undisturbed(): (Outcome, Subscriber)
      reads this, manager
    {
      var (event, u) := NextEvent(manager.Model(), Model(), 0);
      if manager.stopping then (Stopped, Model())
      else match event
           case Some(e) => (Delivered(e), u)
           case None =>
             match NextError(manager.errors, errorCursor).0
             case Some(e) => (Delivered(e), u)
             case None => (Waits, u)
    }

    /** One call of `next`, while others write between its accesses. */
    method Next() returns (outcome: Outcome, ghost steps: seq<Step>)
      requires Valid()
      modifies this, manager
      ensures Valid() && Left(outcome, old(errorCursor)) && Played(steps)
      ensures manager.quiet ==> (outcome, Model()) == old(Undisturbed())
    {
      ghost var s, u := manager.Model(), Model();
      steps := [];
      if manager.stopping {
        return Stopped, steps;
      }
      if !initialized {
        var snapshot, reading := ReadBaseline();
        return Delivered(snapshot), reading;
      }
      ghost var bound := |manager.log|;
      while true
        invariant initialized && Valid() && revision <= s.revision && errorCursor == old(errorCursor)
        invariant bound <= |manager.log| && manager.revision >= s.revision
        invariant forall a :: bound <= a < |manager.log| ==> manager.log[a].revision > s.revision
        invariant Played(steps)
        invariant manager.quiet ==>
          && NextEvent(s, Model(), 0) == NextEvent(s, u, 0)
          && !manager.stopping && manager.errors == old(manager.errors)
        decreases if cursor < bound then bound - cursor else 0
      {
        var others := Yield();
        PlayAppend(s, u, who, steps, others);
        steps := steps + others;
        if manager.stopping {
          return Stopped, steps;
        }
        if seen < manager.version {
          var snapshot, reading := ReadBaseline();
          PlayAppend(s, u, who, steps, reading);
          return Delivered(snapshot), steps + reading;
        }
        if cursor >= |manager.log| {
          var error := TakeError();
          return if error.Some? then Delivered(error.value) else Waits, steps;
        }
        var taken, taking := TakeEvent();
        PlayAppend(s, u, who, steps, taking);
        steps := steps + taking;
        if taken.Some? {
          return Delivered(taken.value), steps;
        }
      }
    }
  }

  // ----- `next` is a run of the replication system -----

  predicate Waiting(u: Subscriber) {
    u.phase.Idle?
  }

  lemma BaselineIsARun(y: System, who: nat) returns (steps: seq<Step>)
    requires Enabled(y, DoBegin(who))
    ensures Legal(y, steps)
    ensures After(y, steps) == y.(subs := y.subs[who := Baseline(y.server, y.subs[who], y.trace.clock)])
  {
    var z := Next(y, DoBegin(who));
    OneStep(y, DoBegin(who));
    OneStep(z, DoRead(who));
    RunAppend(y, [DoBegin(who)], [DoRead(who)]);
    steps := [DoBegin(who)] + [DoRead(who)];
    var u := Baseline(y.server, y.subs[who], y.trace.clock);
    assert Next(z, DoRead(who)).subs == y.subs[who := u];
  }

  /** One call of `next` that no other step interrupts is a run of that subscriber's own steps. */
  lemma {:induction false} NextIsARun(y: System, who: nat) returns (steps: seq<Step>)
    requires who < |y.subs| && Waiting(y.subs[who])
    ensures Legal(y, steps)
    ensures After(y, steps) == y.(subs := y.subs[who := NextEvent(y.server, y.subs[who], y.trace.clock).1])
    decreases if y.subs[who].cursor < |y.server.log| then |y.server.log| - y.subs[who].cursor else 0
  {
    var s, u := y.server, y.subs[who];
    assert y.subs[who := u] == y.subs;
    if !u.initialized || u.seen < s.version {
      steps := BaselineIsARun(y, who);
    } else if u.cursor >= |s.log| {
      steps := [];
    } else {
      var v := Receive(s, u);
      var z := Next(y, DoReceive(who));
      assert z == y.(subs := y.subs[who := v]);
      OneStep(y, DoReceive(who));
      var rest: seq<Step> := [];
      if v.phase.Wanting? {
        rest := BaselineIsARun(z, who);
      } else if !Applies(s, u) {
        rest := NextIsARun(z, who);
      }
      RunAppend(y, [DoReceive(who)], rest);
      steps := [DoReceive(who)] + rest;
      assert z.subs[who := NextEvent(s, u, y.trace.clock).1] == y.subs[who := NextEvent(s, u, y.trace.clock).1];
    }
  }

  // ----- catching up with a quiet server -----

  lemma {:induction false} NextAdvances(s: Server, u: Subscriber, clock: nat)
    requires Waiting(u) && u.cursor <= |s.log| && u.seen <= s.version
    ensures var (event, v) := NextEvent(s, u, clock);
            && Waiting(v) && v.cursor <= |s.log| && v.seen <= s.version && u.cursor <= v.cursor
            && (event.None? ==> v.cursor == |s.log| && v.initialized && v.seen == s.version)
            && (event.Some? ==> v.initialized && v.seen == s.version)
            && (event.Some? && u.initialized && u.seen == s.version ==> u.cursor < v.cursor)
    decreases |s.log| - u.cursor
  {
    if u.initialized && u.seen == s.version && u.cursor < |s.log| {
      var v := Receive(s, u);
      if !v.phase.Wanting? && !Applies(s, u) {
        NextAdvances(s, v, clock);
      }
    }
  }

  /** Calls `next` until it would wait. */
  function Drain(s: Server, u: Subscriber, clock: nat): Subscriber
    requires Waiting(u) && u.cursor <= |s.log| && u.seen <= s.version
    decreases !(u.initialized && u.seen == s.version), |s.log| - u.cursor
  {
    NextAdvances(s, u, clock);
    var (event, v) := NextEvent(s, u, clock);
    if event.None? then v else Drain(s, v, clock)
  }

  lemma {:induction false} NextKeepsSub(s: Server, t: Trace, u: Subscriber)
    requires LogInv(s, t) && ListInv(s, t) && SubInv(s, t, u) && Waiting(u)
    ensures SubInv(s, t, NextEvent(s, u, t.clock).1)
    ensures !u.abandoned ==> !NextEvent(s, u, t.clock).1.abandoned
    decreases |s.log| - u.cursor
  {
    if !u.initialized || u.seen < s.version {
      ReadKeepsSub(s, t, Begin(s, u));
    } else if u.cursor < |s.log| {
      var v := Receive(s, u);
      ReceiveKeepsSub(s, t, u);
      if v.phase.Wanting? {
        ReadKeepsSub(s, t, Begin(s, v));
      } else if !Applies(s, u) {
        NextKeepsSub(s, t, v);
      }
    }
  }

  lemma {:induction false} DrainKeepsSub(s: Server, t: Trace, u: Subscriber)
    requires LogInv(s, t) && ListInv(s, t) && SubInv(s, t, u) && Waiting(u)
    ensures SubInv(s, t, Drain(s, u, t.clock)) && Drained(s, Drain(s, u, t.clock))
    ensures !u.abandoned ==> !Drain(s, u, t.clock).abandoned
    decreases !(u.initialized && u.seen == s.version), |s.log| - u.cursor
  {
    NextAdvances(s, u, t.clock);
    NextKeepsSub(s, t, u);
    var (event, v) := NextEvent(s, u, t.clock);
    if event.Some? {
      DrainKeepsSub(s, t, v);
    }
  }

  /** Progress for subscribers: in every reachable state, if the server stays still, finitely many
      calls of `next` bring any subscriber that lost nothing by a drop to the server's revision, and to
      its state when nothing is unpublished, unemitted or forgotten. */
  lemma NextCatchesUp(ts: seq<View>, profile: int, steps: seq<Step>, who: nat)
    requires Startable(ts) && Legal(Start(ts, profile), steps)
    requires var y := After(Start(ts, profile), steps);
             who < |y.subs| && Waiting(y.subs[who]) && !y.subs[who].abandoned
    ensures var y := After(Start(ts, profile), steps);
            && y.subs[who].cursor <= |y.server.log| && y.subs[who].seen <= y.server.version
            && var u := Drain(y.server, y.subs[who], y.trace.clock);
               && UpToDate(y.server, u)
               && (Quiet(y.server, y.trace) ==> u.transfers == y.server.transfers && u.profile == y.server.profile)
  {
    var y := Reached(ts, profile, steps);
    var s, t, u := y.server, y.trace, y.subs[who];
    assert SubInv(s, t, u);
    DrainKeepsSub(s, t, u);
    LatestIsUpToDate(s, t, Drain(s, u, t.clock));
    if Quiet(s, t) {
      QuietReplica(s, t, Drain(s, u, t.clock));
    }
  }
}
