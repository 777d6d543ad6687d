/** From which states of the two-party protocol both sides can still complete: no other is stuck. */
module SessionLiveness {
  import opened Prelude
  import opened Transfer
  import opened FileStream
  import opened Session
  import opened SessionProofs
  import opened SessionRuns

  // ----- the control stream while nothing has failed -----

  predicate BeforeAnswer(stage: SenderStage) {
    stage.Prepared? || stage.Linked? || stage.Offered? || stage.Awaiting?
  }

  predicate HasAccepted(stage: ReceiverStage) {
    stage.Accepted? || stage.Receiving? || stage.Completing? || stage.ReceiverOver?
  }

  /** Exactly the frames that were written and not yet read. */
  function Unread(s: Sender, r: Receiver): seq<Frame> {
    (if HasAccepted(r.stage) && BeforeAnswer(s.stage) then [Accept] else [])
    + (if r.stage.ReceiverOver? && !s.completion then [Completion] else [])
  }

  /** Neither job has failed. */
  predicate Running(y: System) {
    !y.receiver.failed && !y.sender.stage.SenderFailing? && (y.sender.stage.SenderOver? ==> y.sender.status.Completed?)
  }

  predicate InStep(y: System) {
    && (y.offer <==> !y.sender.stage.Prepared? && !y.sender.stage.Linked?)
    && (!y.offer ==> y.receiver.stage.Unaware?)
    && y.frames == Unread(y.sender, y.receiver)
    && (!BeforeAnswer(y.sender.stage) ==> HasAccepted(y.receiver.stage))
    && (BeforeAnswer(y.sender.stage) ==> !y.sender.completion)
    && (y.sender.completion ==> y.receiver.stage.ReceiverOver?)
  }

  predicate Synchronous(y: System) {
    && (Running(y) ==> InStep(y))
    && (y.receiver.failed ==> y.receiver.stage.ReceiverFailing? || y.receiver.stage.ReceiverOver?)
    && (y.sender.completion || Completion in y.frames ==> y.receiver.stage.ReceiverOver? && !y.receiver.failed)
  }

  lemma SenderStaysInStep(y: System, a: SenderStep, z: System)
    requires InStep(y) && SenderCan(y.sender, y.frames, a)
    requires z.sender == NextSender(y.sender, y.frames, a) && z.receiver == y.receiver
    requires z.offer == (y.offer || a.WriteOffer?)
    requires z.frames == if a.ReadAnswer? || a.ReadCompletion? then y.frames[1..] else y.frames
    requires Running(z) && !y.sender.stage.SenderFailing? && !y.sender.stage.SenderOver?
    ensures InStep(z)
  {
    if a.ReadAnswer? || a.ReadCompletion? {
      assert y.frames == [y.frames[0]] + z.frames;
      assert Unread(y.sender, y.receiver) == [y.frames[0]] + Unread(z.sender, z.receiver);
    }
  }

  lemma SenderKeepsSynchronous(hash: Hash, y: System, a: SenderStep)
    requires Inv(hash, y) && Synchronous(y) && Enabled(hash, y, OfSender(a))
    ensures Synchronous(Next(hash, y, OfSender(a)))
  {
    var z := Next(hash, y, OfSender(a));
    assert forall x :: x in z.frames ==> x in y.frames;
    assert y.frames != [] ==> y.frames[0] in y.frames;
    if Running(z) && !y.sender.stage.SenderFailing? && !y.sender.stage.SenderOver? {
      SenderStaysInStep(y, a, z);
    }
  }

  lemma ReceiverKeepsSynchronous(hash: Hash, y: System, b: ReceiverStep)
    requires Inv(hash, y) && Synchronous(y) && Enabled(hash, y, OfReceiver(b))
    ensures Synchronous(Next(hash, y, OfReceiver(b)))
  {
    var z := Next(hash, y, OfReceiver(b));
    assert forall x :: x in z.frames ==> x in y.frames || x in Written(b);
    if Running(z) {
      ReceiverStaysInStep(y, b, z);
    }
  }

  lemma ReceiverStaysInStep(y: System, b: ReceiverStep, z: System)
    requires InStep(y) && ReceiverCan(y.receiver, y.offer, y.streams, b)
    requires z == y.(frames := y.frames + Written(b), receiver := NextReceiver(y.receiver, y.offer, y.streams, b))
    requires !z.receiver.failed && (y.receiver.stage.ReceiverFailing? ==> y.receiver.failed)
    ensures InStep(z)
  {
    var s, r, n := y.sender, y.receiver, z.receiver;
    if b.WriteAccept? {
      assert !HasAccepted(r.stage) && BeforeAnswer(s.stage) && Unread(s, r) == [];
      assert Unread(s, n) == [Accept];
    } else if b.WriteCompletion? {
      assert r.stage.Completing? && !s.completion && n.stage.ReceiverOver?;
      assert Unread(s, n) == Unread(s, r) + [Completion];
    } else {
      assert Written(b) == [] && y.frames + [] == y.frames;
      assert HasAccepted(n.stage) == HasAccepted(r.stage) && n.stage.ReceiverOver? == r.stage.ReceiverOver?;
    }
  }

  lemma StepKeeps(hash: Hash, y: System, step: Step)
    requires Inv(hash, y) && Synchronous(y) && Enabled(hash, y, step)
    ensures Inv(hash, Next(hash, y, step)) && Synchronous(Next(hash, y, step))
  {
    match step {
      case OfSender(a) =>
        SenderStepKeepsInv(hash, y, a);
        SenderKeepsSynchronous(hash, y, a);
      case OfReceiver(b) =>
        ReceiverStepKeepsInv(hash, y, b);
        ReceiverKeepsSynchronous(hash, y, b);
      case OfFile(i, f) => FileStepKeepsInv(hash, y, i, f);
    }
  }

  lemma {:induction false} RunKeeps(hash: Hash, y: System, steps: seq<Step>)
    requires Inv(hash, y) && Synchronous(y) && Legal(hash, y, steps)
    ensures Inv(hash, After(hash, y, steps)) && Synchronous(After(hash, y, steps))
    decreases |steps|
  {
    hide Enabled, Next, Inv, Synchronous;
    if steps != [] {
      StepKeeps(hash, y, steps[0]);
      RunKeeps(hash, Next(hash, y, steps[0]), steps[1..]);
    }
  }

  // ----- which states can still complete -----

  /** The status still allows the changes that the job has ahead of it. */
  predicate SenderFits(s: Sender) {
    match s.stage
    case Prepared => s.status in {Preparing, AwaitingApproval, Connecting}
    case Linked => s.status in {Connecting, AwaitingApproval}
    case Offered => s.status in {Connecting, AwaitingApproval}
    case Awaiting => s.status in {Preparing, AwaitingApproval, Connecting}
    case Granted => s.status in {Preparing, AwaitingApproval, Connecting}
    case Connected => s.status in {Connecting, Transferring, Paused}
    case Sending => s.status in {Connecting, Transferring, Paused}
    case Joined => s.status in {Connecting, Transferring, Paused}
    case SenderFailing(_) => false
    case SenderOver => s.status.Completed?
  }

  predicate ReceiverFits(r: Receiver) {
    && !r.failed
    && match r.stage
       case Unaware => true
       case ReceiverFailing(_) => false
       case Receiving => r.status in {Connecting, Transferring, Paused, Completed}
       case Completing => r.status.Completed?
       case ReceiverOver => r.status.Completed?
       case Deciding => Acceptable(r)
       case Approved => Acceptable(r)
       case _ => r.status in {Connecting, Transferring, Paused}
  }

  predicate Acceptable(r: Receiver) {
    if r.automatic then r.status in {Connecting, Transferring, Paused}
    else r.status in {Preparing, AwaitingApproval, Connecting}
  }

  predicate Viable(y: System) {
    SenderFits(y.sender) && ReceiverFits(y.receiver)
  }

  predicate BothCompleted(y: System) {
    y.sender.status.Completed? && y.receiver.status.Completed?
  }

  lemma SenderUnfitStays(s: Sender, frames: seq<Frame>, a: SenderStep)
    requires !SenderFits(s) && SenderCan(s, frames, a) && !s.status.Completed?
    ensures !SenderFits(NextSender(s, frames, a)) && !NextSender(s, frames, a).status.Completed?
  {
  }

  lemma ReceiverUnfitStays(r: Receiver, offer: bool, streams: seq<Stream>, b: ReceiverStep)
    requires !ReceiverFits(r) && ReceiverCan(r, offer, streams, b) && (r.stage.ReceiverFailing? ==> r.failed)
    ensures !ReceiverFits(NextReceiver(r, offer, streams, b))
  {
  }

  lemma UnfitStays(hash: Hash, y: System, step: Step)
    requires Inv(hash, y) && Enabled(hash, y, step) && !Viable(y)
    ensures !Viable(Next(hash, y, step))
  {
    match step {
      case OfSender(a) =>
        if !SenderFits(y.sender) {
          SenderUnfitStays(y.sender, y.frames, a);
        }
      case OfReceiver(b) =>
        if !ReceiverFits(y.receiver) {
          ReceiverUnfitStays(y.receiver, y.offer, y.streams, b);
        }
      case OfFile(_, _) =>
    }
  }

  lemma CompletedIsViable(hash: Hash, y: System)
    requires Inv(hash, y) && Synchronous(y) && BothCompleted(y)
    ensures Viable(y)
  {
  }

  // ----- how much is left to do -----

  function Flag(b: bool): nat {
    if b then 1 else 0
  }

  function SenderLeft(s: Sender): nat {
    (match s.stage
     case Prepared => 8
     case Linked => 7
     case Offered => 6
     case Awaiting => 5
     case Granted => 4
     case Connected => 3
     case Sending => 2
     case Joined => 1
     case _ => 0)
    + Flag(!s.completion) + Flag(!s.status.Transferring? && (s.stage.Sending? || s.stage.Joined?))
    + Flag(BeforeAnswer(s.stage) || s.stage.Granted? || s.stage.Connected?)
  }

  function ReceiverLeft(r: Receiver): nat {
    (match r.stage
     case Unaware => 16
     case Deciding => 14
     case Approved => 12
     case Ready => 10
     case Routed => 8
     case Accepted => 6
     case Receiving => 4
     case Completing => 2
     case _ => 0)
    + Flag(r.stage.Receiving? && !r.status.Transferring?)
  }

  function TaskLeft(task: Task): nat {
    match task
    case NotSpawned => 4
    case Spawned => 3
    case Open => 2
    case Returned => 1
    case Gone => 0
  }

  function StreamLeft(u: Stream, size: nat): nat {
    (match u.stage
     case Unopened => 4
     case Travelling => 3
     case Queued => 2
     case Taken => 1
     case _ => 0)
    + Flag(!u.header) + Flag(!u.ended && |u.sent| < size) + Flag(!u.ended) + Flag(u.offset < size)
    + Flag(u.finalized.None?) + Flag(!u.result)
  }

  function FilesLeft(tasks: seq<Task>, streams: seq<Stream>, sizes: seq<nat>): nat
    requires |tasks| == |streams| == |sizes|
  {
    if tasks == [] then 0
    else TaskLeft(tasks[0]) + StreamLeft(streams[0], sizes[0]) + FilesLeft(tasks[1..], streams[1..], sizes[1..])
  }

  lemma {:induction false} FilesLeftAfter(tasks: seq<Task>, streams: seq<Stream>, sizes: seq<nat>, i: nat, task: Task,
                                          u: Stream)
    requires |tasks| == |streams| == |sizes| && i < |tasks|
    ensures FilesLeft(tasks[i := task], streams[i := u], sizes) + TaskLeft(tasks[i]) + StreamLeft(streams[i], sizes[i])
              == FilesLeft(tasks, streams, sizes) + TaskLeft(task) + StreamLeft(u, sizes[i])
  {
    if i > 0 {
      FilesLeftAfter(tasks[1..], streams[1..], sizes[1..], i - 1, task, u);
      assert tasks[i := task][1..] == tasks[1..][i - 1 := task];
      assert streams[i := u][1..] == streams[1..][i - 1 := u];
    } else {
      assert tasks[i := task][1..] == tasks[1..] && streams[i := u][1..] == streams[1..];
    }
  }

  function Left(y: System): nat
    requires |y.sender.tasks| == |y.streams| == |y.sizes|
  {
    SenderLeft(y.sender) + ReceiverLeft(y.receiver) + FilesLeft(y.sender.tasks, y.streams, y.sizes)
  }

  /** A step that brings both sides nearer to completion. */
  ghost predicate Advances(hash: Hash, y: System, step: Step)
    requires Inv(hash, y)
  {
    && Enabled(hash, y, step)
    && var z := Next(hash, y, step);
       && |z.sender.tasks| == |z.streams| == |z.sizes|
       && Viable(z) && Left(z) < Left(y)
  }

  // ----- one file advances -----

  /** The file step lowers what is left of its file. */
  predicate FileAdvances(hash: Hash, y: System, i: nat, f: FileStep)
    requires i < |y.streams| && i < |y.sizes| && i < |y.sender.tasks|
  {
    && FileCan(hash, y, i, f)
    && var u, task, size := y.streams[i], y.sender.tasks[i], y.sizes[i];
       && (f.Finalize? ==> size <= |u.sent|)
       && TaskLeft(NextTask(task, f)) + StreamLeft(NextStream(hash, u, size, Fits(y.receiver), f), size)
          < TaskLeft(task) + StreamLeft(u, size)
  }

  /** What happens next to a file that was spawned and is not queued. */
  function Onward(u: Stream, size: nat, task: Task): FileStep {
    if task.Spawned? then OpenStream
    else if u.stage.Travelling? then Dispatch
    else if u.stage.Taken? then
      if !u.header then WriteHeader
      else if u.result then JoinReceive
      else if !u.ended && |u.sent| < size then SendChunk(seq(size - |u.sent|, _ => 0))
      else if !u.ended then SendDigest
      else if u.offset < size then ReceiveChunk(size - u.offset)
      else if u.finalized.None? then Finalize
      else WriteResult
    else if task.Returned? then JoinSend
    else ReadResult
  }

  predicate Finished(y: System, i: nat)
    requires i < |y.streams| && i < |y.sender.tasks|
  {
    y.sender.tasks[i].Gone? && y.streams[i].stage.Received?
  }

  predicate Movable(y: System, i: nat)
    requires i < |y.streams| && i < |y.sender.tasks|
  {
    && !y.sender.tasks[i].NotSpawned? && !Finished(y, i)
    && !y.streams[i].stage.Queued? && !y.streams[i].stage.Refused?
  }

  lemma OnwardAdvances(hash: Hash, y: System, i: nat)
    requires FilesInv(hash, y) && y.sender.stage.Sending? && i < |y.streams| && Movable(y, i)
    ensures FileAdvances(hash, y, i, Onward(y.streams[i], y.sizes[i], y.sender.tasks[i]))
  {
    assert FileInv(hash, y.streams[i], y.sizes[i], y.sender.tasks[i]);
  }

  lemma FileStepAdvances(hash: Hash, y: System, i: nat, f: FileStep)
    requires Inv(hash, y) && Viable(y) && i < |y.streams| && FileAdvances(hash, y, i, f)
    ensures Advances(hash, y, OfFile(i, f))
  {
    var task, u := NextTask(y.sender.tasks[i], f), NextStream(hash, y.streams[i], y.sizes[i], Fits(y.receiver), f);
    FilesLeftAfter(y.sender.tasks, y.streams, y.sizes, i, task, u);
    var z := Next(hash, y, OfFile(i, f));
    assert z.sender.tasks == y.sender.tasks[i := task] && z.streams == y.streams[i := u];
    ControlStays(hash, y, i, f);
  }

  /** A file step leaves both jobs where they are. */
  lemma ControlStays(hash: Hash, y: System, i: nat, f: FileStep)
    requires Enabled(hash, y, OfFile(i, f)) && Viable(y)
    ensures var z := Next(hash, y, OfFile(i, f));
            && Viable(z) && SenderLeft(z.sender) == SenderLeft(y.sender)
            && ReceiverLeft(z.receiver) == ReceiverLeft(y.receiver)
  {
  }

  lemma QueuedAdvances(hash: Hash, y: System, i: nat) returns (step: Step)
    requires Inv(hash, y) && Viable(y) && y.sender.stage.Sending? && y.receiver.stage.Receiving?
    requires i < |y.streams| && y.streams[i].stage.Queued?
    requires forall k :: 0 <= k < |y.streams| ==> !y.streams[k].stage.Taken?
    ensures Advances(hash, y, step)
  {
    assert i in y.receiver.queue;
    var j := y.receiver.queue[0];
    assert Taking(y.streams) == {};
    step := OfFile(j, Take);
    FileStepAdvances(hash, y, j, Take);
  }

  lemma SpawnAdvances(hash: Hash, y: System) returns (step: Step)
    requires Inv(hash, y) && Viable(y) && y.sender.stage.Sending? && y.sender.spawned < |y.streams|
    requires Flying(y.sender.tasks) == {}
    ensures Advances(hash, y, step)
  {
    step := OfFile(y.sender.spawned, Spawn);
    FileStepAdvances(hash, y, y.sender.spawned, Spawn);
  }

  /** While files are missing, some file advances: no bound on what is in flight can block them all. */
  lemma SomeFileAdvances(hash: Hash, y: System, i: nat) returns (step: Step)
    requires Inv(hash, y) && Viable(y) && y.sender.stage.Sending?
    requires y.receiver.stage.Receiving? || AllReceived(y.streams)
    requires i < |y.streams| && !Finished(y, i)
    ensures Advances(hash, y, step)
  {
    if k: nat :| k < |y.streams| && Movable(y, k) {
      OnwardAdvances(hash, y, k);
      step := OfFile(k, Onward(y.streams[k], y.sizes[k], y.sender.tasks[k]));
      FileStepAdvances(hash, y, k, Onward(y.streams[k], y.sizes[k], y.sender.tasks[k]));
    } else {
      forall k | 0 <= k < |y.streams| ensures !y.streams[k].stage.Taken? {
        assert FileInv(hash, y.streams[k], y.sizes[k], y.sender.tasks[k]);
        assert !Movable(y, k);
      }
      if k: nat :| k < |y.streams| && y.streams[k].stage.Queued? {
        step := QueuedAdvances(hash, y, k);
      } else {
        forall k | 0 <= k < |y.streams| ensures y.sender.tasks[k].NotSpawned? || Finished(y, k) {
          assert !Movable(y, k) && !y.streams[k].stage.Queued? && !y.streams[k].stage.Refused?;
        }
        assert Flying(y.sender.tasks) == {};
        step := SpawnAdvances(hash, y);
      }
    }
  }

  // ----- the whole system advances -----

  lemma SenderStepAdvances(hash: Hash, y: System, a: SenderStep)
    requires Inv(hash, y) && Viable(y) && SenderCan(y.sender, y.frames, a)
    requires var n := NextSender(y.sender, y.frames, a); SenderFits(n) && SenderLeft(n) < SenderLeft(y.sender)
    ensures Advances(hash, y, OfSender(a))
  {
    var n := NextSender(y.sender, y.frames, a);
    assert n.tasks == y.sender.tasks;
  }

  lemma ReceiverStepAdvances(hash: Hash, y: System, b: ReceiverStep)
    requires Inv(hash, y) && Viable(y) && ReceiverCan(y.receiver, y.offer, y.streams, b)
    requires var n := NextReceiver(y.receiver, y.offer, y.streams, b);
             ReceiverFits(n) && ReceiverLeft(n) < ReceiverLeft(y.receiver)
    ensures Advances(hash, y, OfReceiver(b))
  {
  }

  /** The receiver's way to its accept. */
  function TowardsAccept(r: Receiver): ReceiverStep {
    match r.stage
    case Unaware => ReceiveOffer(true)
    case Deciding => Decide(true, false)
    case Approved => Prepare
    case Ready => Register
    case _ => WriteAccept
  }

  lemma ReceiverAdvances(hash: Hash, y: System)
    requires Inv(hash, y) && Viable(y) && y.offer && !HasAccepted(y.receiver.stage)
    ensures Advances(hash, y, OfReceiver(TowardsAccept(y.receiver)))
  {
    ReceiverStepAdvances(hash, y, TowardsAccept(y.receiver));
  }

  /** The sender's way to its files. */
  function TowardsSending(s: Sender): SenderStep {
    match s.stage
    case Prepared => Connect
    case Linked => WriteOffer
    case Offered => AwaitApproval
    case Awaiting => ReadAnswer
    case Granted => Reconnect
    case _ => BeginSending
  }

  lemma HandshakeAdvances(hash: Hash, y: System) returns (step: Step)
    requires Inv(hash, y) && Synchronous(y) && Viable(y)
    requires BeforeAnswer(y.sender.stage) || y.sender.stage.Granted? || y.sender.stage.Connected?
    ensures Advances(hash, y, step)
  {
    if y.sender.stage.Awaiting? && !HasAccepted(y.receiver.stage) {
      ReceiverAdvances(hash, y);
      step := OfReceiver(TowardsAccept(y.receiver));
    } else {
      assert y.sender.stage.Awaiting? ==> y.frames != [] && y.frames[0] == Accept;
      SenderStepAdvances(hash, y, TowardsSending(y.sender));
      step := OfSender(TowardsSending(y.sender));
    }
  }

  /** The receiver's next control step while it receives, once its files are in. */
  function TowardsCompletion(r: Receiver): ReceiverStep {
    match r.stage
    case Accepted => BeginReceiving
    case Receiving => if r.status.Transferring? || r.status.Completed? then CompleteAll else UserChange(Transferring)
    case _ => WriteCompletion
  }

  lemma CompletionAdvances(hash: Hash, y: System)
    requires Inv(hash, y) && Viable(y)
    requires y.receiver.stage.Accepted? || y.receiver.stage.Completing?
             || (y.receiver.stage.Receiving? && AllReceived(y.streams))
    ensures Advances(hash, y, OfReceiver(TowardsCompletion(y.receiver)))
  {
    ReceiverStepAdvances(hash, y, TowardsCompletion(y.receiver));
  }

  lemma ClosingAdvances(hash: Hash, y: System) returns (step: Step)
    requires Inv(hash, y) && Synchronous(y) && Viable(y) && y.sender.stage.Sending? && y.receiver.stage.ReceiverOver?
    ensures Advances(hash, y, step)
  {
    if !y.sender.completion {
      assert y.frames[0] == Completion;
      SenderStepAdvances(hash, y, ReadCompletion);
      step := OfSender(ReadCompletion);
    } else if !AllGone(y.sender.tasks) {
      var i: nat :| i < |y.sender.tasks| && !y.sender.tasks[i].Gone?;
      step := SomeFileAdvances(hash, y, i);
    } else {
      SenderStepAdvances(hash, y, FinishJoin);
      step := OfSender(FinishJoin);
    }
  }

  lemma SendingAdvances(hash: Hash, y: System) returns (step: Step)
    requires Inv(hash, y) && Synchronous(y) && Viable(y) && y.sender.stage.Sending?
    ensures Advances(hash, y, step)
  {
    if y.receiver.stage.ReceiverOver? {
      step := ClosingAdvances(hash, y);
    } else if y.receiver.stage.Receiving? && !AllReceived(y.streams) {
      var i: nat :| i < |y.streams| && !y.streams[i].stage.Received?;
      step := SomeFileAdvances(hash, y, i);
    } else {
      assert HasAccepted(y.receiver.stage);
      CompletionAdvances(hash, y);
      step := OfReceiver(TowardsCompletion(y.receiver));
    }
  }

  /** As long as it can still complete and has not, the system has a step that brings it nearer. */
  lemma SomethingAdvances(hash: Hash, y: System) returns (step: Step)
    requires Inv(hash, y) && Synchronous(y) && Viable(y) && !y.sender.stage.SenderOver?
    ensures Advances(hash, y, step)
  {
    if y.sender.stage.Sending? {
      step := SendingAdvances(hash, y);
    } else if y.sender.stage.Joined? {
      var a := if y.sender.status.Transferring? then CompleteJob else User(Transferring);
      SenderStepAdvances(hash, y, a);
      step := OfSender(a);
    } else {
      step := HandshakeAdvances(hash, y);
    }
  }

  // ----- the theorem -----

  lemma {:induction false} CanComplete(hash: Hash, x: System, y: System)
    requires Inv(hash, y) && Synchronous(y) && Viable(y) && Reaches(hash, x, y)
    ensures exists z :: Reaches(hash, x, z) && BothCompleted(z)
    decreases Left(y)
  {
    if !y.sender.stage.SenderOver? {
      var step := SomethingAdvances(hash, y);
      StepKeeps(hash, y, step);
      ReachesNext(hash, x, y, step);
      CanComplete(hash, x, Next(hash, y, step));
    }
  }

  lemma {:induction false} UnfitRunStays(hash: Hash, y: System, steps: seq<Step>)
    requires Inv(hash, y) && Synchronous(y) && Legal(hash, y, steps) && !Viable(y)
    ensures !BothCompleted(After(hash, y, steps))
    decreases |steps|
  {
    hide Enabled, Next, Inv, Synchronous, Viable;
    if steps == [] {
      if BothCompleted(y) {
        CompletedIsViable(hash, y);
      }
    } else {
      StepKeeps(hash, y, steps[0]);
      UnfitStays(hash, y, steps[0]);
      UnfitRunStays(hash, Next(hash, y, steps[0]), steps[1..]);
    }
  }

  /** No reachable state is stuck. From every reachable state, with whatever is in flight, both sides can
      still complete if and only if neither job has failed and no status rules it out. */
  lemma NoStateIsStuck(hash: Hash, sizes: seq<nat>, steps: seq<Step>)
    requires Legal(hash, Start(sizes), steps)
    ensures var y := After(hash, Start(sizes), steps);
            Viable(y) <==> exists z :: Reaches(hash, y, z) && BothCompleted(z)
  {
    var y := After(hash, Start(sizes), steps);
    StartInv(hash, sizes);
    RunKeeps(hash, Start(sizes), steps);
    if Viable(y) {
      ReachesItself(hash, y);
      CanComplete(hash, y, y);
    } else {
      forall z | Reaches(hash, y, z) ensures !BothCompleted(z) {
        var more :| Legal(hash, y, more) && After(hash, y, more) == z;
        UnfitRunStays(hash, y, more);
      }
    }
  }

  lemma ResumeSpoils(hash: Hash, y: System)
    requires (y.sender.stage.Linked? || y.sender.stage.Offered?) && y.sender.status.Connecting?
    ensures Enabled(hash, y, OfSender(User(Transferring))) && !Viable(Next(hash, y, OfSender(User(Transferring))))
  {
  }

  lemma ResumeDooms(hash: Hash, y: System)
    requires Inv(hash, y) && Synchronous(y)
    requires (y.sender.stage.Linked? || y.sender.stage.Offered?) && y.sender.status.Connecting?
    ensures Enabled(hash, y, OfSender(User(Transferring)))
    ensures forall z :: Reaches(hash, Next(hash, y, OfSender(User(Transferring))), z) ==> !BothCompleted(z)
  {
    hide Next, Inv, Synchronous, Viable;
    ResumeSpoils(hash, y);
    var n := Next(hash, y, OfSender(User(Transferring)));
    StepKeeps(hash, y, OfSender(User(Transferring)));
    forall z | Reaches(hash, n, z) ensures !BothCompleted(z) {
      var more :| Legal(hash, n, more) && After(hash, n, more) == z;
      UnfitRunStays(hash, n, more);
    }
  }

  lemma StartIsSynchronous(hash: Hash, sizes: seq<nat>)
    ensures Inv(hash, Start(sizes)) && Synchronous(Start(sizes))
  {
    StartInv(hash, sizes);
  }

  /** A resume that lands before the sender awaits the answer dooms the transfer: its status is then
      transferring, from which the change to awaiting approval is refused. */
  lemma EarlyResumeFails(hash: Hash, sizes: seq<nat>, steps: seq<Step>)
    requires Legal(hash, Start(sizes), steps)
    requires var s := After(hash, Start(sizes), steps).sender;
             (s.stage.Linked? || s.stage.Offered?) && s.status.Connecting?
    ensures var y := After(hash, Start(sizes), steps);
            && Enabled(hash, y, OfSender(User(Transferring)))
            && forall z :: Reaches(hash, Next(hash, y, OfSender(User(Transferring))), z) ==> !BothCompleted(z)
  {
    hide Enabled, Next, Inv, Synchronous;
    StartIsSynchronous(hash, sizes);
    RunKeeps(hash, Start(sizes), steps);
    ResumeDooms(hash, After(hash, Start(sizes), steps));
  }

  lemma ConnectHappens(hash: Hash, sizes: seq<nat>) returns (y: System)
    ensures Reaches(hash, Start(sizes), y) && Inv(hash, y) && Synchronous(y)
    ensures y.sender.stage.Linked? && y.sender.status.Connecting? && !y.receiver.failed
  {
    hide Inv, Synchronous;
    var x, connect := Start(sizes), OfSender(Connect);
    y := Next(hash, x, connect);
    ReachesItself(hash, x);
    ReachesNext(hash, x, x, connect);
    StartIsSynchronous(hash, sizes);
    StepKeeps(hash, x, connect);
  }

  lemma ResumeHappens(hash: Hash, x: System, y: System)
    requires Reaches(hash, x, y)
    requires y.sender.stage.Linked? && y.sender.status.Connecting? && !y.receiver.failed
    ensures Enabled(hash, y, OfSender(User(Transferring)))
    ensures var z := Next(hash, y, OfSender(User(Transferring)));
            Reaches(hash, x, z) && Running(z) && !z.sender.status.Terminal()
  {
    ReachesNext(hash, x, y, OfSender(User(Transferring)));
  }

  /** Such a run exists for every list of files: connect, and then a resume. Neither job has failed yet. */
  lemma EarlyResumeHappens(hash: Hash, sizes: seq<nat>)
    ensures exists y :: Reaches(hash, Start(sizes), y) && Running(y) && !y.sender.status.Terminal()
              && forall z :: Reaches(hash, y, z) ==> !BothCompleted(z)
  {
    hide Enabled, Next, Inv, Synchronous;
    var y := ConnectHappens(hash, sizes);
    ResumeHappens(hash, Start(sizes), y);
    ResumeDooms(hash, y);
  }
}
