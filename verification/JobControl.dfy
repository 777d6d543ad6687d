/**
 Pause, resume, cancel and attach against tasks that wait in `wait_ready`, one memory access at a
 time. `generation` counts the notifications sent to all waiters: a waiter takes the current count
 before it reads any flag and sleeps until the count has moved on.
 */
module JobControl {

  /** Where a waiter is in its loop. `Sleeping(true)` also listens for the connection closing. */
  datatype Pc =
    | Looping
    | Ticketed
    | NotCancelled
    | SawPaused
    | Sleeping(onConnection: bool)
    | ReturnedOk
    | ReturnedErr

  datatype Waiter = Waiter(pc: Pc, ticket: nat)

  /** `resuming`, `cancelling` and `attaching` count calls between their store and their notification. */
  datatype State = State(
    paused: bool,
    cancelled: bool,
    attached: bool,
    closed: bool,
    generation: nat,
    resuming: nat,
    cancelling: nat,
    attaching: nat,
    waiters: seq<Waiter>)

  datatype Step =
    | Arrive
    | TakeTicket(w: nat)
    | ReadCancelled(w: nat)
    | ReadPaused(w: nat)
    | ReadConnection(w: nat)
    | Wake(w: nat)
    | SeeClosed(w: nat)
    | Pause
    | ResumeStore
    | ResumeNotify
    | CancelStore
    | CancelNotify
    | AttachStore
    | AttachNotify
    | Close

  predicate At(s: State, w: nat, pc: Pc) {
    w < |s.waiters| && s.waiters[w].pc == pc
  }

  predicate Asleep(s: State, w: nat) {
    w < |s.waiters| && s.waiters[w].pc.Sleeping? && s.waiters[w].ticket == s.generation
  }

  predicate Enabled(s: State, step: Step) {
    match step
    case TakeTicket(w) => At(s, w, Looping)
    case ReadCancelled(w) => At(s, w, Ticketed)
    case ReadPaused(w) => At(s, w, NotCancelled)
    case ReadConnection(w) => At(s, w, SawPaused)
    case Wake(w) => w < |s.waiters| && s.waiters[w].pc.Sleeping? && s.waiters[w].ticket < s.generation
    case SeeClosed(w) => At(s, w, Sleeping(true)) && s.closed
    case ResumeNotify => s.resuming > 0
    case CancelNotify => s.cancelling > 0
    case AttachNotify => s.attaching > 0
    case _ => true
  }

  function Goto(s: State, w: nat, pc: Pc): State
    requires w < |s.waiters|
  {
    s.(waiters := s.waiters[w := s.waiters[w].(pc := pc)])
  }

  function Next(s: State, step: Step): State
    requires Enabled(s, step)
  {
    match step
    case Arrive => s.(waiters := s.waiters + [Waiter(Looping, 0)])
    case TakeTicket(w) => s.(waiters := s.waiters[w := Waiter(Ticketed, s.generation)])
    case ReadCancelled(w) => Goto(s, w, if s.cancelled then ReturnedErr else NotCancelled)
    case ReadPaused(w) => Goto(s, w, if s.paused then SawPaused else ReturnedOk)
    case ReadConnection(w) => Goto(s, w, Sleeping(s.attached))
    case Wake(w) => Goto(s, w, Looping)
    case SeeClosed(w) => Goto(s, w, ReturnedErr)
    case Pause => s.(paused := true)
    case ResumeStore => s.(paused := false, resuming := s.resuming + 1)
    case ResumeNotify => s.(resuming := s.resuming - 1, generation := s.generation + 1)
    case CancelStore => s.(cancelled := true, cancelling := s.cancelling + 1)
    case CancelNotify => s.(cancelling := s.cancelling - 1, generation := s.generation + 1)
    case AttachStore => s.(attached := true, attaching := s.attaching + 1)
    case AttachNotify => s.(attaching := s.attaching - 1, generation := s.generation + 1)
    case Close => s.(closed := true)
  }

  const START := State(false, false, false, false, 0, 0, 0, 0, [])

  predicate Legal(s: State, steps: seq<Step>)
    decreases |steps|
  {
    steps == [] || (Enabled(s, steps[0]) && Legal(Next(s, steps[0]), steps[1..]))
  }

  function After(s: State, steps: seq<Step>): State
    requires Legal(s, steps)
    decreases |steps|
  {
    if steps == [] then s else After(Next(s, steps[0]), steps[1..])
  }

  /** While no notification arrived since its ticket, what a waiter read is still true, or the call
      that changed it has its notification ahead of it. */
  predicate WaiterInv(s: State, u: Waiter) {
    && u.ticket <= s.generation
    && (u.ticket == s.generation ==>
         && (u.pc.NotCancelled? || u.pc.SawPaused? || u.pc.Sleeping? ==> s.cancelled ==> s.cancelling > 0)
         && (u.pc.SawPaused? || u.pc.Sleeping? ==> !s.paused ==> s.resuming > 0)
         && (u.pc == Sleeping(false) ==> s.attached ==> s.attaching > 0))
  }

  predicate Inv(s: State) {
    forall w :: 0 <= w < |s.waiters| ==> WaiterInv(s, s.waiters[w])
  }

  lemma StepKeepsWaiter(s: State, step: Step, u: Waiter)
    requires WaiterInv(s, u) && Enabled(s, step)
    ensures WaiterInv(Next(s, step), u)
  {
  }

  predicate OwnStep(step: Step, w: nat) {
    step == TakeTicket(w) || step == ReadCancelled(w) || step == ReadPaused(w)
    || step == ReadConnection(w) || step == Wake(w) || step == SeeClosed(w)
  }

  lemma OwnStepKeepsWaiter(s: State, step: Step, w: nat)
    requires w < |s.waiters| && WaiterInv(s, s.waiters[w]) && Enabled(s, step) && OwnStep(step, w)
    ensures WaiterInv(Next(s, step), Next(s, step).waiters[w])
  {
  }

  lemma StepKeepsInv(s: State, step: Step)
    requires Inv(s) && Enabled(s, step)
    ensures Inv(Next(s, step))
  {
    var z := Next(s, step);
    forall w | 0 <= w < |z.waiters| ensures WaiterInv(z, z.waiters[w]) {
      if w < |s.waiters| {
        assert WaiterInv(s, s.waiters[w]);
        if OwnStep(step, w) {
          OwnStepKeepsWaiter(s, step, w);
        } else {
          assert z.waiters[w] == s.waiters[w];
          StepKeepsWaiter(s, step, s.waiters[w]);
        }
      }
    }
  }

  lemma {:induction false} RunKeepsInv(s: State, steps: seq<Step>)
    requires Inv(s) && Legal(s, steps)
    ensures Inv(After(s, steps))
    decreases |steps|
  {
    if steps != [] {
      StepKeepsInv(s, steps[0]);
      RunKeepsInv(Next(s, steps[0]), steps[1..]);
    }
  }

  /** No lost wakeup. In every interleaving, a waiter sleeps only while the job is paused and not
      cancelled, or while the resume or cancel that changed this has yet to notify; and it ignores
      the connection only while none is attached, or the attach has yet to notify. So it never stays
      asleep after a completed resume, without a later pause, or after a completed cancel. */
  lemma NoLostWakeup(steps: seq<Step>, w: nat)
    requires Legal(START, steps) && Asleep(After(START, steps), w)
    ensures var s := After(START, steps);
            && (s.paused || s.resuming > 0)
            && (!s.cancelled || s.cancelling > 0)
            && (s.waiters[w].pc.onConnection || !s.attached || s.attaching > 0)
  {
    RunKeepsInv(START, steps);
    assert WaiterInv(After(START, steps), After(START, steps).waiters[w]);
  }

  /** A waiter that is not asleep, and has not returned, always has a step of its own to take. */
  lemma AwakeWaitersCanStep(steps: seq<Step>, w: nat)
    requires Legal(START, steps) && w < |After(START, steps).waiters|
    requires !Asleep(After(START, steps), w)
    ensures var s := After(START, steps);
            || s.waiters[w].pc.ReturnedOk? || s.waiters[w].pc.ReturnedErr?
            || Enabled(s, TakeTicket(w)) || Enabled(s, ReadCancelled(w)) || Enabled(s, ReadPaused(w))
            || Enabled(s, ReadConnection(w)) || Enabled(s, Wake(w))
  {
    RunKeepsInv(START, steps);
    assert WaiterInv(After(START, steps), After(START, steps).waiters[w]);
  }

  /** Once a job is cancelled, a waiter that has not already passed its cancellation check never
      returns Ok, whatever follows. */
  lemma {:induction false} CancelIsFinal(s: State, steps: seq<Step>, w: nat)
    requires Legal(s, steps) && s.cancelled && w < |s.waiters|
    requires !s.waiters[w].pc.NotCancelled? && !s.waiters[w].pc.ReturnedOk?
    ensures w < |After(s, steps).waiters| && !After(s, steps).waiters[w].pc.ReturnedOk?
    decreases |steps|
  {
    if steps != [] {
      CancelIsFinal(Next(s, steps[0]), steps[1..], w);
    }
  }

  // ----- what Ok means -----

  /** The state before step `n` of a run. */
  function Before(s: State, steps: seq<Step>, n: nat): State
    requires Legal(s, steps) && n <= |steps|
    decreases n
  {
    if n == 0 then s else Before(Next(s, steps[0]), steps[1..], n - 1)
  }

  lemma {:induction false} BeforeNext(s: State, steps: seq<Step>, n: nat)
    requires Legal(s, steps) && n < |steps|
    ensures Enabled(Before(s, steps, n), steps[n])
    ensures Before(s, steps, n + 1) == Next(Before(s, steps, n), steps[n])
    decreases n
  {
    if n > 0 {
      BeforeNext(Next(s, steps[0]), steps[1..], n - 1);
    }
  }

  lemma {:induction false} BeforeEnd(s: State, steps: seq<Step>)
    requires Legal(s, steps)
    ensures Before(s, steps, |steps|) == After(s, steps)
    decreases |steps|
  {
    if steps != [] {
      BeforeEnd(Next(s, steps[0]), steps[1..]);
    }
  }

  /** In steps `i` to `n`, the waiter reads the job uncancelled at step `i` and does nothing after. */
  ghost predicate Checked(s: State, steps: seq<Step>, w: nat, i: nat, n: nat)
    requires Legal(s, steps) && n <= |steps|
  {
    && i < n && steps[i] == ReadCancelled(w) && !Before(s, steps, i).cancelled
    && forall k :: i < k < n ==> !OwnStep(steps[k], w)
  }

  /** A waiter that passed its cancellation check did so at some step of the run, and rests since. */
  lemma {:induction false} CheckHappened(s: State, steps: seq<Step>, w: nat, n: nat) returns (i: nat)
    requires Legal(s, steps) && n <= |steps|
    requires w < |s.waiters| ==> s.waiters[w].pc.Looping?
    requires At(Before(s, steps, n), w, NotCancelled)
    ensures Checked(s, steps, w, i, n)
    decreases n
  {
    if n > 0 {
      BeforeNext(s, steps, n - 1);
      var before, step := Before(s, steps, n - 1), steps[n - 1];
      if OwnStep(step, w) {
        i := n - 1;
      } else {
        i := CheckHappened(s, steps, w, n - 1);
      }
    }
  }

  /** The one step that makes a waiter return Ok, after everything that precedes it. */
  lemma {:induction false} OkHappened(s: State, steps: seq<Step>, w: nat, n: nat) returns (j: nat)
    requires Legal(s, steps) && n <= |steps|
    requires w < |s.waiters| ==> s.waiters[w].pc.Looping?
    requires At(Before(s, steps, n), w, ReturnedOk)
    ensures j < n && steps[j] == ReadPaused(w) && !Before(s, steps, j).paused
    ensures At(Before(s, steps, j), w, NotCancelled)
  {
    if n > 0 {
      BeforeNext(s, steps, n - 1);
      if At(Before(s, steps, n - 1), w, ReturnedOk) {
        j := OkHappened(s, steps, w, n - 1);
      } else {
        j := n - 1;
      }
    }
  }

  /** In every run, a waiter for which `wait_ready` returned Ok read the job uncancelled at some step,
      then took no other step of its own, and then read it unpaused. */
  lemma OkMeansReady(steps: seq<Step>, w: nat)
    requires Legal(START, steps) && At(After(START, steps), w, ReturnedOk)
    ensures exists i, j :: 0 <= i < j < |steps|
              && Checked(START, steps, w, i, j)
              && steps[j] == ReadPaused(w) && !Before(START, steps, j).paused
  {
    BeforeEnd(START, steps);
    var j := OkHappened(START, steps, w, |steps|);
    var i := CheckHappened(START, steps, w, j);
  }
}
