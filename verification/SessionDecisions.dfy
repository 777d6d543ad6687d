/** What the user decides: nothing is received without it, and a refusal reaches both sides. */
module SessionDecisions {
  import opened Prelude
  import opened Transfer
  import opened FileStream
  import opened Session
  import opened SessionProofs
  import opened SessionRuns

  /** No stream has reached a receive task. */
  predicate NoneTaken(streams: seq<Stream>) {
    forall i :: 0 <= i < |streams| ==>
      !streams[i].stage.Taken? && !streams[i].stage.Received? && streams[i].finalized.None? && !streams[i].result
  }

  /** The receiver has promised and received nothing. */
  predicate Nothing(y: System) {
    !y.receiver.accepted && Accept !in y.frames && NoneTaken(y.streams)
  }

  // ----- no receipt without consent -----

  /** Until a manual offer is decided, the receiver's job waits, has been refused, or has failed. */
  predicate Unapproved(y: System) {
    var r := y.receiver;
    if r.stage.Unaware? then Nothing(y)
    else r.automatic || (Nothing(y) && (r.stage.Deciding? || r.stage.ReceiverFailing? || r.stage.ReceiverOver?))
  }

  predicate Consents(step: Step) {
    step.OfReceiver? && step.r.Decide? && step.r.accept
  }

  predicate Refuses(step: Step) {
    step.OfReceiver? && step.r.Decide? && !step.r.accept
  }

  lemma StepStaysUnapproved(hash: Hash, y: System, step: Step)
    requires Enabled(hash, y, step) && Unapproved(y) && !Consents(step)
    ensures Unapproved(Next(hash, y, step))
  {
    var z := Next(hash, y, step);
    if Nothing(y) && !y.receiver.stage.Receiving? && (step.OfFile? || step.OfSender?) {
      StepStaysNothing(hash, y, step);
    } else if step.OfReceiver? {
      assert forall x :: x in z.frames ==> x in y.frames || x in Written(step.r);
    }
  }

  lemma StepStaysNothing(hash: Hash, y: System, step: Step)
    requires Enabled(hash, y, step) && Nothing(y) && (step.OfFile? || step.OfSender?) && !y.receiver.stage.Receiving?
    ensures var z := Next(hash, y, step);
            && Nothing(z) && z.receiver.stage == y.receiver.stage && z.receiver.automatic == y.receiver.automatic
  {
    var z := Next(hash, y, step);
    assert forall x :: x in z.frames ==> x in y.frames;
    if step.OfFile? {
      assert !y.streams[step.i].stage.Taken? && !step.f.Take?;
    }
  }

  lemma {:induction false} RunStaysUnapproved(hash: Hash, y: System, steps: seq<Step>)
    requires Legal(hash, y, steps) && Unapproved(y)
    requires forall k :: 0 <= k < |steps| ==> !Consents(steps[k])
    ensures Unapproved(After(hash, y, steps))
    decreases |steps|
  {
    hide Enabled, Next, Unapproved;
    if steps != [] {
      StepStaysUnapproved(hash, y, steps[0]);
      assert forall k :: 0 <= k < |steps[1..]| ==> steps[1..][k] == steps[k + 1];
      RunStaysUnapproved(hash, Next(hash, y, steps[0]), steps[1..]);
    }
  }

  /** No receipt without consent. In every run, if a receiver that does not receive automatically has
      accepted, or has registered a route, or any of its streams was taken or finalized, then the user
      had decided to accept. */
  lemma ReceiptNeedsConsent(hash: Hash, sizes: seq<nat>, steps: seq<Step>)
    requires Legal(hash, Start(sizes), steps)
    ensures var y := After(hash, Start(sizes), steps);
            !y.receiver.automatic
            && (!Nothing(y) || y.receiver.stage.Approved? || y.receiver.stage.Ready? || y.receiver.stage.Routed?) ==>
              exists k :: 0 <= k < |steps| && Consents(steps[k])
  {
    if forall k :: 0 <= k < |steps| ==> !Consents(steps[k]) {
      RunStaysUnapproved(hash, Start(sizes), steps);
    }
  }

  // ----- an automatic receive -----

  /** Only the offer itself says whether it is received automatically. */
  lemma AutomaticIsGiven(hash: Hash, y: System, step: Step)
    requires Enabled(hash, y, step)
    ensures Next(hash, y, step).receiver.automatic
              == if step.OfReceiver? && step.r.ReceiveOffer? then step.r.automatic else y.receiver.automatic
    ensures step.OfReceiver? && step.r.ReceiveOffer? ==>
              && Next(hash, y, step).receiver.stage == (if step.r.automatic then Approved else Deciding)
              && Next(hash, y, step).receiver.status == (if step.r.automatic then Connecting else AwaitingApproval)
  {
  }

  // ----- a refusal -----

  /** Before the answer is written, nothing is promised or received. */
  predicate Quiet(y: System) {
    var stage := y.receiver.stage;
    stage.Unaware? || stage.Deciding? || stage.Approved? || stage.Ready? || stage.Routed? ==> Nothing(y)
  }

  lemma StepStaysQuiet(hash: Hash, y: System, step: Step)
    requires Enabled(hash, y, step) && Quiet(y)
    ensures Quiet(Next(hash, y, step))
  {
    var z := Next(hash, y, step);
    if step.OfReceiver? {
      assert forall x :: x in z.frames ==> x in y.frames || x in Written(step.r);
    } else if Nothing(y) && !y.receiver.stage.Receiving? {
      StepStaysNothing(hash, y, step);
    }
  }

  lemma {:induction false} RunStaysQuiet(hash: Hash, y: System, steps: seq<Step>)
    requires Legal(hash, y, steps) && Quiet(y)
    ensures Quiet(After(hash, y, steps))
    decreases |steps|
  {
    hide Enabled, Next, Quiet;
    if steps != [] {
      StepStaysQuiet(hash, y, steps[0]);
      RunStaysQuiet(hash, Next(hash, y, steps[0]), steps[1..]);
    }
  }

  /** The receiver's job has ended, or is about to, without having promised anything. */
  predicate Ended(y: System) {
    Nothing(y) && (y.receiver.stage.ReceiverFailing? || y.receiver.stage.ReceiverOver?)
  }

  lemma StepStaysEnded(hash: Hash, y: System, step: Step)
    requires Enabled(hash, y, step) && Ended(y)
    ensures Ended(Next(hash, y, step))
  {
    var z := Next(hash, y, step);
    if step.OfReceiver? {
      assert forall x :: x in z.frames ==> x in y.frames || x in Written(step.r);
    } else {
      StepStaysNothing(hash, y, step);
    }
  }

  lemma {:induction false} RunStaysEnded(hash: Hash, y: System, steps: seq<Step>)
    requires Legal(hash, y, steps) && Ended(y)
    ensures Ended(After(hash, y, steps))
    decreases |steps|
  {
    hide Enabled, Next, Ended;
    if steps != [] {
      StepStaysEnded(hash, y, steps[0]);
      RunStaysEnded(hash, Next(hash, y, steps[0]), steps[1..]);
    }
  }

  predicate Refusing(step: Step) {
    Refuses(step) || step == OfReceiver(NoSpace)
  }

  /** A refusal is final. After the user refused, or the space did not suffice, the receiver accepts and
      receives nothing in any continuation. */
  lemma RefusalIsFinal(hash: Hash, sizes: seq<nat>, steps: seq<Step>, refusal: Step, more: seq<Step>)
    requires Legal(hash, Start(sizes), steps) && Refusing(refusal)
    requires Enabled(hash, After(hash, Start(sizes), steps), refusal)
    requires Legal(hash, Next(hash, After(hash, Start(sizes), steps), refusal), more)
    ensures Nothing(After(hash, Next(hash, After(hash, Start(sizes), steps), refusal), more))
  {
    RunStaysQuiet(hash, Start(sizes), steps);
    var y := After(hash, Start(sizes), steps);
    RefusalEnds(hash, y, refusal);
    RunStaysEnded(hash, Next(hash, y, refusal), more);
  }

  lemma RefusalEnds(hash: Hash, y: System, refusal: Step)
    requires Quiet(y) && Enabled(hash, y, refusal) && Refusing(refusal)
    ensures Ended(Next(hash, y, refusal))
  {
    var z := Next(hash, y, refusal);
    assert forall x :: x in z.frames ==> x in y.frames || x in Written(refusal.r);
  }

  /** The refusing receiver: a waiting transfer ends as rejected or, if the user cancelled it, as
      cancelled, and the answer says which; missing space ends it as failed. */
  lemma RefusalEndsTheReceiver(hash: Hash, y: System, refusal: Step)
    requires Enabled(hash, y, refusal) && Refusing(refusal) && y.receiver.status.AwaitingApproval?
    ensures var z := Next(hash, y, refusal);
            && z.receiver.stage.ReceiverOver?
            && z.receiver.status == (if refusal.r.NoSpace? then Failed
                                     else if refusal.r.cancelled then Status.Cancelled else Status.Rejected)
            && z.frames == y.frames + [Refuse(refusal.r.Decide? && refusal.r.cancelled)]
  {
  }

  /** The refused sender: a waiting transfer ends as rejected or cancelled, as the answer says, and no
      step of anyone changes that. */
  lemma RefusalEndsTheSender(hash: Hash, y: System, cancelled: bool, more: seq<Step>)
    requires Enabled(hash, y, OfSender(ReadAnswer)) && y.frames[0] == Refuse(cancelled)
    requires y.sender.status.AwaitingApproval?
    requires Legal(hash, Next(hash, y, OfSender(ReadAnswer)), more)
    ensures After(hash, Next(hash, y, OfSender(ReadAnswer)), more).sender.status
              == if cancelled then Status.Cancelled else Status.Rejected
  {
    EndedSenderStays(hash, Next(hash, y, OfSender(ReadAnswer)), more);
  }

  predicate SenderEnds(s: Sender) {
    s.status.Terminal() && (s.stage.SenderFailing? || s.stage.SenderOver?)
  }

  lemma StepStaysEnding(hash: Hash, y: System, step: Step)
    requires Enabled(hash, y, step) && SenderEnds(y.sender)
    ensures SenderEnds(Next(hash, y, step).sender) && Next(hash, y, step).sender.status == y.sender.status
  {
  }

  lemma {:induction false} EndedSenderStays(hash: Hash, y: System, steps: seq<Step>)
    requires Legal(hash, y, steps) && SenderEnds(y.sender)
    ensures After(hash, y, steps).sender.status == y.sender.status
    decreases |steps|
  {
    hide Enabled, Next, SenderEnds;
    if steps != [] {
      StepStaysEnding(hash, y, steps[0]);
      EndedSenderStays(hash, Next(hash, y, steps[0]), steps[1..]);
    }
  }

  // ----- failure and cancellation -----

  /** How a failing job ends its transfer: a cancellation ends an active one as cancelled and any other
      failure as failed; one that already ended stays as it is. */
  function EndedAs(status: Status, cancelled: bool): Status {
    if status.Completed? || status.Rejected? || status.Cancelled? || status.Failed? then status
    else if cancelled then Status.Cancelled else Failed
  }

  /** Failing, and then handling it, ends both sides' transfers so; the receiver's route is closed at once. */
  lemma FailuresAreRemembered(hash: Hash, y: System, cancelled: bool)
    ensures Enabled(hash, y, OfSender(SenderStep.Fail(cancelled))) ==>
              Next(hash, y, OfSender(SenderStep.Fail(cancelled))).sender == y.sender.(stage := SenderFailing(cancelled))
    ensures Enabled(hash, y, OfReceiver(Abort(cancelled))) ==>
              var r := Next(hash, y, OfReceiver(Abort(cancelled))).receiver;
              && r.stage == ReceiverFailing(cancelled) && r.status == y.receiver.status
              && !r.routeOpen && r.failed
  {
  }

  /** A user's cancellation ends an active transfer on its side, and a pause or resume acts exactly where
      the status machine allows it. */
  lemma UsersAct(hash: Hash, y: System, status: Status)
    requires status.Paused? || status.Transferring? || status.Cancelled?
    ensures Enabled(hash, y, OfSender(User(status)))
    ensures Next(hash, y, OfSender(User(status))).sender.status == Chosen(y.sender.status, status)
    ensures Enabled(hash, y, OfReceiver(UserChange(status))) ==>
              Next(hash, y, OfReceiver(UserChange(status))).receiver.status == Chosen(y.receiver.status, status)
  {
  }

  /** What a user's choice makes of a status. */
  function Chosen(status: Status, choice: Status): Status {
    if status.Completed? || status.Rejected? || status.Cancelled? || status.Failed? then status
    else if choice.Cancelled? then Status.Cancelled
    else if choice.Paused? && status.Transferring? then Paused
    else if choice.Transferring? && (status.Paused? || status.Connecting?) then Transferring
    else status
  }

  lemma FailuresEnd(hash: Hash, y: System, cancelled: bool)
    ensures y.sender.stage == SenderFailing(cancelled) ==>
      && Enabled(hash, y, OfSender(HandleFailure))
      && var s := Next(hash, y, OfSender(HandleFailure)).sender;
         s.stage.SenderOver? && s.status == EndedAs(y.sender.status, cancelled)
    ensures y.receiver.stage == ReceiverFailing(cancelled) ==>
      && Enabled(hash, y, OfReceiver(HandleAbort))
      && var r := Next(hash, y, OfReceiver(HandleAbort)).receiver;
         r.stage.ReceiverOver? && r.status == EndedAs(y.receiver.status, cancelled)
  {
  }
}
