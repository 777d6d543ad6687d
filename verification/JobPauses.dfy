/** What pausing, resuming and cancelling do to the tasks that wait in `wait_ready`, from the calls on. */
module JobPauses {
  import opened JobControl

  predicate Without(steps: seq<Step>, step: Step) {
    forall i :: 0 <= i < |steps| ==> steps[i] != step
  }

  lemma WithoutTail(steps: seq<Step>, step: Step)
    requires steps != [] && Without(steps, step)
    ensures steps[0] != step && Without(steps[1..], step)
  {
    assert forall i :: 0 <= i < |steps[1..]| ==> steps[1..][i] == steps[i + 1];
  }

  // ----- pausing -----

  lemma {:induction false} PausedHolds(s: State, steps: seq<Step>, w: nat)
    requires Legal(s, steps) && Without(steps, ResumeStore) && s.paused && !At(s, w, ReturnedOk)
    ensures After(s, steps).paused && !At(After(s, steps), w, ReturnedOk)
    decreases |steps|
  {
    if steps != [] {
      WithoutTail(steps, ResumeStore);
      PausedHolds(Next(s, steps[0]), steps[1..], w);
    }
  }

  /** A pause holds. After `pause`, and as long as nobody calls `resume`, no waiter gets Ok that had not
      got it before, also none that arrives later or had already passed its cancellation check. */
  lemma PauseHolds(s: State, steps: seq<Step>, w: nat)
    requires Enabled(s, Pause) && Legal(Next(s, Pause), steps) && Without(steps, ResumeStore)
    requires !At(s, w, ReturnedOk)
    ensures !At(After(Next(s, Pause), steps), w, ReturnedOk)
  {
    PausedHolds(Next(s, Pause), steps, w);
  }

  // ----- cancelling -----

  predicate PastCheck(s: State, w: nat) {
    At(s, w, NotCancelled) || At(s, w, ReturnedOk)
  }

  lemma {:induction false} CancelledHolds(s: State, steps: seq<Step>, w: nat)
    requires Legal(s, steps) && s.cancelled && !PastCheck(s, w)
    ensures After(s, steps).cancelled && !PastCheck(After(s, steps), w)
    decreases |steps|
  {
    if steps != [] {
      CancelledHolds(Next(s, steps[0]), steps[1..], w);
    }
  }

  /** A cancellation holds for ever: after `cancel`, no waiter gets Ok that had not passed its check. */
  lemma CancelHolds(s: State, steps: seq<Step>, w: nat)
    requires Enabled(s, CancelStore) && Legal(Next(s, CancelStore), steps) && !PastCheck(s, w)
    ensures !At(After(Next(s, CancelStore), steps), w, ReturnedOk)
  {
    CancelledHolds(Next(s, CancelStore), steps, w);
  }

  // ----- waking -----

  lemma {:induction false} UnpausedHolds(s: State, steps: seq<Step>)
    requires Legal(s, steps) && Without(steps, Pause) && !s.paused
    ensures !After(s, steps).paused
    decreases |steps|
  {
    if steps != [] {
      WithoutTail(steps, Pause);
      UnpausedHolds(Next(s, steps[0]), steps[1..]);
    }
  }

  lemma {:induction false} AttachedHolds(s: State, steps: seq<Step>)
    requires Legal(s, steps)
    ensures s.attached ==> After(s, steps).attached
    ensures s.closed ==> After(s, steps).closed
    ensures s.cancelled ==> After(s, steps).cancelled
    decreases |steps|
  {
    if steps != [] {
      AttachedHolds(Next(s, steps[0]), steps[1..]);
    }
  }

  /** How many calls have stored and not yet notified. */
  function Open(steps: seq<Step>, store: Step, notify: Step): int {
    if steps == [] then 0
    else Counted(steps[0], store, notify) + Open(steps[1..], store, notify)
  }

  function Counted(step: Step, store: Step, notify: Step): int {
    if step == store then 1 else if step == notify then -1 else 0
  }

  lemma ResumesCounted(s: State, step: Step)
    requires Enabled(s, step)
    ensures Next(s, step).resuming == s.resuming + Counted(step, ResumeStore, ResumeNotify)
  {
  }

  lemma CancelsCounted(s: State, step: Step)
    requires Enabled(s, step)
    ensures Next(s, step).cancelling == s.cancelling + Counted(step, CancelStore, CancelNotify)
  {
  }

  lemma AttachesCounted(s: State, step: Step)
    requires Enabled(s, step)
    ensures Next(s, step).attaching == s.attaching + Counted(step, AttachStore, AttachNotify)
  {
  }

  lemma {:induction false} OpenCalls(s: State, steps: seq<Step>)
    requires Legal(s, steps)
    ensures After(s, steps).resuming == s.resuming + Open(steps, ResumeStore, ResumeNotify)
    ensures After(s, steps).cancelling == s.cancelling + Open(steps, CancelStore, CancelNotify)
    ensures After(s, steps).attaching == s.attaching + Open(steps, AttachStore, AttachNotify)
    decreases |steps|
  {
    hide Enabled, Next, Counted;
    if steps != [] {
      ResumesCounted(s, steps[0]);
      CancelsCounted(s, steps[0]);
      AttachesCounted(s, steps[0]);
      OpenCalls(Next(s, steps[0]), steps[1..]);
    }
  }

  lemma {:induction false} Appended(s: State, a: seq<Step>, b: seq<Step>)
    requires Legal(s, a + b)
    ensures Legal(s, a) && Legal(After(s, a), b) && After(s, a + b) == After(After(s, a), b)
    decreases |a|
  {
    if a == [] {
      assert a + b == b;
    } else {
      assert (a + b)[1..] == a[1..] + b;
      Appended(Next(s, a[0]), a[1..], b);
    }
  }

  /** Completed calls wake everybody. Let every resume, cancel and attach of a run have sent its
      notification. Then nobody sleeps if a resume is not followed by a pause, or if there was a cancel;
      and after an attach, whoever sleeps also listens for the connection to close. */
  lemma CompletedCallsWake(before: seq<Step>, call: Step, steps: seq<Step>, w: nat)
    requires Legal(START, before + ([call] + steps))
    requires var all := before + ([call] + steps);
             Open(all, ResumeStore, ResumeNotify) == Open(all, CancelStore, CancelNotify)
               == Open(all, AttachStore, AttachNotify) == 0
    requires Asleep(After(START, before + ([call] + steps)), w)
    ensures call == CancelStore ==> false
    ensures call == ResumeStore ==> !Without(steps, Pause)
    ensures call == AttachStore ==> After(START, before + ([call] + steps)).waiters[w].pc.onConnection
  {
    var all := before + ([call] + steps);
    NoLostWakeup(all, w);
    OpenCalls(START, all);
    Appended(START, before, [call] + steps);
    var s := Next(After(START, before), call);
    assert ([call] + steps)[1..] == steps;
    AttachedHolds(s, steps);
    if call == ResumeStore && Without(steps, Pause) {
      UnpausedHolds(s, steps);
    }
  }

  /** Whoever listens for the connection leaves when it closes. */
  lemma ClosingReleases(steps: seq<Step>, more: seq<Step>, w: nat)
    requires Legal(START, steps + ([Close] + more)) && At(After(START, steps + ([Close] + more)), w, Sleeping(true))
    ensures var s := After(START, steps + ([Close] + more));
            Enabled(s, SeeClosed(w)) && At(Next(s, SeeClosed(w)), w, ReturnedErr)
  {
    Appended(START, steps, [Close] + more);
    assert ([Close] + more)[1..] == more;
    AttachedHolds(Next(After(START, steps), Close), more);
  }

  // ----- nothing else stops a task -----

  predicate Undisturbed(s: State) {
    && !s.paused && !s.cancelled
    && forall w :: 0 <= w < |s.waiters| ==>
         !s.waiters[w].pc.SawPaused? && !s.waiters[w].pc.Sleeping? && !s.waiters[w].pc.ReturnedErr?
  }

  lemma {:induction false} UndisturbedRun(s: State, steps: seq<Step>)
    requires Legal(s, steps) && Undisturbed(s) && Without(steps, Pause) && Without(steps, CancelStore)
    ensures Undisturbed(After(s, steps))
    decreases |steps|
  {
    if steps != [] {
      WithoutTail(steps, Pause);
      WithoutTail(steps, CancelStore);
      UndisturbedRun(Next(s, steps[0]), steps[1..]);
    }
  }

  /** Without a pause or a cancel no waiter ever sleeps or fails. */
  lemma NobodyWaitsForNothing(steps: seq<Step>, w: nat)
    requires Legal(START, steps) && Without(steps, Pause) && Without(steps, CancelStore)
    requires w < |After(START, steps).waiters|
    ensures !After(START, steps).waiters[w].pc.Sleeping? && !After(START, steps).waiters[w].pc.ReturnedErr?
  {
    UndisturbedRun(START, steps);
  }

  // ----- how a waiter ends -----

  /** The steps that take a waiter from the top of its loop to its answer. */
  function Iteration(s: State, w: nat): seq<Step> {
    if s.cancelled then [TakeTicket(w), ReadCancelled(w)]
    else if s.paused then [TakeTicket(w), ReadCancelled(w), ReadPaused(w), ReadConnection(w)]
    else [TakeTicket(w), ReadCancelled(w), ReadPaused(w)]
  }

  /** Left to itself, a waiter at the top of its loop fails if the job is cancelled, sleeps if it is
      paused, listening for the connection if there is one, and otherwise gets Ok. */
  lemma IterationEnds(s: State, w: nat)
    requires At(s, w, Looping)
    ensures Legal(s, Iteration(s, w))
    ensures var z := After(s, Iteration(s, w));
            && At(z, w, if s.cancelled then ReturnedErr else if s.paused then Sleeping(s.attached) else ReturnedOk)
            && (s.paused && !s.cancelled ==> Asleep(z, w))
  {
    var s1 := Next(s, TakeTicket(w));
    var s2 := Next(s1, ReadCancelled(w));
    if s.cancelled {
      TwoSteps(s, TakeTicket(w), ReadCancelled(w), []);
      assert [TakeTicket(w), ReadCancelled(w)] + [] == Iteration(s, w);
    } else if s.paused {
      var s3 := Next(s2, ReadPaused(w));
      TwoSteps(s2, ReadPaused(w), ReadConnection(w), []);
      var rest := [ReadPaused(w), ReadConnection(w)] + [];
      TwoSteps(s, TakeTicket(w), ReadCancelled(w), rest);
      assert [TakeTicket(w), ReadCancelled(w)] + rest == Iteration(s, w);
    } else {
      assert [ReadPaused(w)][1..] == [] && Legal(s2, [ReadPaused(w)]);
      TwoSteps(s, TakeTicket(w), ReadCancelled(w), [ReadPaused(w)]);
      assert [TakeTicket(w), ReadCancelled(w)] + [ReadPaused(w)] == Iteration(s, w);
    }
  }

  lemma TwoSteps(s: State, a: Step, b: Step, rest: seq<Step>)
    requires Enabled(s, a) && Enabled(Next(s, a), b) && Legal(Next(Next(s, a), b), rest)
    ensures Legal(s, [a, b] + rest) && After(s, [a, b] + rest) == After(Next(Next(s, a), b), rest)
  {
    hide Enabled, Next;
    assert ([a, b] + rest)[1..] == [b] + rest && ([b] + rest)[1..] == rest;
  }

  /** A woken waiter is at the top of its loop again. */
  lemma WokenLoops(s: State, w: nat)
    requires Enabled(s, Wake(w))
    ensures At(Next(s, Wake(w)), w, Looping)
  {
  }

  function Arrivals(steps: seq<Step>): nat {
    if steps == [] then 0 else (if steps[0] == Arrive then 1 else 0) + Arrivals(steps[1..])
  }

  /** Every task that arrives is one waiter, and none is ever forgotten. */
  lemma {:induction false} WaitersAreArrivals(s: State, steps: seq<Step>)
    requires Legal(s, steps)
    ensures |After(s, steps).waiters| == |s.waiters| + Arrivals(steps)
    decreases |steps|
  {
    if steps != [] {
      WaitersAreArrivals(Next(s, steps[0]), steps[1..]);
    }
  }
}
