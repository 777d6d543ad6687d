/** The invariant of the two-party protocol, end-to-end agreement and backpressure. */
module SessionProofs {
  import opened Prelude
  import opened Transfer
  import opened FileStream
  import opened Session

  // ----- the invariant -----

  /** One file: what was sent is a prefix of an encoding and ends only as a whole one; the receiver
      works on a taken stream only; a result means a finalized file with exactly the bytes sent; and
      a send task has returned only with a result. */
  ghost predicate FileInv(hash: Hash, u: Stream, size: nat, task: Task) {
    && (u.stage.Unopened? <==> (task.NotSpawned? || task.Spawned?))
    && (if u.ended then Complete(hash, u.sent, true, size) else |u.sent| <= size)
    && u.offset <= size && u.offset <= |u.sent|
    && (u.finalized.Some? ==> u.ended && u.finalized.value == u.sent[..size])
    && (u.result ==> u.finalized.Some?)
    && (u.stage.Received? ==> u.result)
    && (task.Returned? || task.Gone? ==> u.result)
    && (u.header || u.finalized.Some? ==> u.stage.Taken? || u.stage.Received?)
  }

  ghost predicate FilesInv(hash: Hash, y: System) {
    && |y.sender.tasks| == |y.streams| == |y.sizes|
    && forall i :: 0 <= i < |y.streams| ==> FileInv(hash, y.streams[i], y.sizes[i], y.sender.tasks[i])
  }

  /** The queue holds exactly the queued streams, each once. */
  ghost predicate QueueInv(y: System) {
    && OnlyQueued(y.receiver.queue, y.streams)
    && (forall i :: 0 <= i < |y.streams| && y.streams[i].stage.Queued? ==> i in y.receiver.queue)
  }

  ghost predicate OnlyQueued(queue: seq<nat>, streams: seq<Stream>) {
    && (forall a :: 0 <= a < |queue| ==> queue[a] < |streams| && streams[queue[a]].stage.Queued?)
    && (forall a, b :: 0 <= a < b < |queue| ==> queue[a] != queue[b])
  }

  /** Tasks are spawned in file order, at most four at a time. */
  ghost predicate TasksInv(s: Sender) {
    && s.spawned <= |s.tasks|
    && (forall i :: 0 <= i < |s.tasks| ==> (s.tasks[i].NotSpawned? <==> i >= s.spawned))
    && |Flying(s.tasks)| <= FILE_STREAM_CONCURRENCY
  }

  ghost predicate SenderInv(y: System) {
    var s := y.sender;
    && (s.stage.Granted? || s.stage.Connected? || s.stage.Sending? || s.stage.Joined? ==> y.receiver.accepted)
    && (s.spawned > 0 || Accept in y.frames ==> y.receiver.accepted)
    && (s.completion || Completion in y.frames ==> y.receiver.status.Completed?)
    && (s.stage.Joined? || s.status.Completed? ==> s.completion && AllGone(s.tasks))
    && (s.status.Completed? ==> s.stage.SenderOver?)
    && (s.stage.SenderOver? ==> s.status.Terminal())
  }

  ghost predicate ReceiverInv(r: Receiver, streams: seq<Stream>) {
    && (r.routeOpen <==> r.stage.Routed? || r.stage.Accepted? || r.stage.Receiving? || r.stage.Completing?)
    && (r.accepted ==> r.routeOpen || r.failed || AllReceived(streams))
    && (r.status.Completed? ==> AllReceived(streams) && !r.stage.Unaware?)
    && (r.stage.Completing? ==> r.status.Completed?)
    && (r.stage.ReceiverOver? ==> r.status.Terminal())
    && (r.stage.ReceiverFailing? ==> r.failed)
    && (forall i :: 0 <= i < |streams| && streams[i].stage.Refused? ==> r.failed)
  }

  ghost predicate Inv(hash: Hash, y: System) {
    && FilesInv(hash, y) && QueueInv(y) && TasksInv(y.sender) && SenderInv(y) && ReceiverInv(y.receiver, y.streams)
    && |Taking(y.streams)| <= FILE_STREAM_CONCURRENCY
  }

  // ----- backpressure: the counting argument -----

  ghost function Queueing(queue: seq<nat>): set<nat> {
    set a | 0 <= a < |queue| :: queue[a]
  }

  lemma {:induction false} QueueCount(queue: seq<nat>)
    requires forall a, b :: 0 <= a < b < |queue| ==> queue[a] != queue[b]
    ensures |Queueing(queue)| == |queue|
  {
    if queue != [] {
      var last := |queue| - 1;
      QueueCount(queue[..last]);
      assert Queueing(queue) == Queueing(queue[..last]) + {queue[last]};
    }
  }

  /** An opened stream that the receiver has not taken belongs to a send task still in flight. */
  lemma WaitingIsFlying(hash: Hash, y: System, i: nat)
    requires FilesInv(hash, y) && i < |y.streams|
    requires y.streams[i].stage.Travelling? || y.streams[i].stage.Queued?
    ensures i in Flying(y.sender.tasks)
  {
    assert FileInv(hash, y.streams[i], y.sizes[i], y.sender.tasks[i]);
  }

  /** So a stream that reaches the router always finds room. */
  lemma RoomForArrivals(hash: Hash, y: System, i: nat)
    requires FilesInv(hash, y) && QueueInv(y) && TasksInv(y.sender)
    requires i < |y.streams| && y.streams[i].stage.Travelling?
    ensures |y.receiver.queue| < FILE_STREAM_CONCURRENCY
  {
    var queued := Queueing(y.receiver.queue);
    forall j | j in queued ensures j in Flying(y.sender.tasks) && j != i {
      WaitingIsFlying(hash, y, j);
    }
    WaitingIsFlying(hash, y, i);
    QueueCount(y.receiver.queue);
    SubsetSize(queued + {i}, Flying(y.sender.tasks));
  }

  // ----- every step keeps the invariant -----

  lemma FileKeeps(hash: Hash, y: System, i: nat, f: FileStep)
    requires FilesInv(hash, y) && QueueInv(y) && TasksInv(y.sender) && Enabled(hash, y, OfFile(i, f))
    ensures FilesInv(hash, Next(hash, y, OfFile(i, f)))
  {
    var z := Next(hash, y, OfFile(i, f));
    var u := y.streams[i];
    assert FileInv(hash, u, y.sizes[i], y.sender.tasks[i]);
    if f.SendDigest? {
      assert Encode(hash, u.sent)[..y.sizes[i]] == u.sent;
    }
    assert FileInv(hash, z.streams[i], z.sizes[i], z.sender.tasks[i]);
    forall k | 0 <= k < |z.streams| && k != i ensures FileInv(hash, z.streams[k], z.sizes[k], z.sender.tasks[k]) {
      assert FileInv(hash, y.streams[k], y.sizes[k], y.sender.tasks[k]);
    }
  }

  lemma QueueKeepsOnly(hash: Hash, y: System, i: nat, f: FileStep)
    requires FilesInv(hash, y) && QueueInv(y) && Enabled(hash, y, OfFile(i, f))
    ensures var z := Next(hash, y, OfFile(i, f)); OnlyQueued(z.receiver.queue, z.streams)
  {
    hide Complete, Encode, Flying, Taking;
    assert FileInv(hash, y.streams[i], y.sizes[i], y.sender.tasks[i]);
    var z := Next(hash, y, OfFile(i, f));
    var q, q' := y.receiver.queue, z.receiver.queue;
    if f.Take? {
      assert forall a :: 0 <= a < |q'| ==> q'[a] == q[a + 1];
    } else {
      assert y.streams[i].stage.Queued? ==> z.streams[i].stage.Queued?;
      assert forall a :: 0 <= a < |q| ==> q'[a] == q[a];
    }
  }

  lemma QueueKeepsAll(hash: Hash, y: System, i: nat, f: FileStep, k: nat)
    requires FilesInv(hash, y) && QueueInv(y) && Enabled(hash, y, OfFile(i, f)) && k < |y.streams|
    ensures var z := Next(hash, y, OfFile(i, f)); z.streams[k].stage.Queued? ==> k in z.receiver.queue
  {
    var z := Next(hash, y, OfFile(i, f));
    var q, q' := y.receiver.queue, z.receiver.queue;
    assert FileInv(hash, y.streams[i], y.sizes[i], y.sender.tasks[i]);
    if f.Take? {
      assert q == [i] + q';
    } else if f.Dispatch? {
      assert q' == q || q' == q + [i];
    }
  }

  lemma QueueKeeps(hash: Hash, y: System, i: nat, f: FileStep)
    requires FilesInv(hash, y) && QueueInv(y) && Enabled(hash, y, OfFile(i, f))
    ensures QueueInv(Next(hash, y, OfFile(i, f)))
  {
    QueueKeepsOnly(hash, y, i, f);
    forall k | 0 <= k < |y.streams| && Next(hash, y, OfFile(i, f)).streams[k].stage.Queued?
      ensures k in Next(hash, y, OfFile(i, f)).receiver.queue
    {
      QueueKeepsAll(hash, y, i, f, k);
    }
  }

  lemma FlyingAfter(tasks: seq<Task>, i: nat, task: Task)
    requires i < |tasks|
    ensures Flying(tasks[i := task]) == if InFlight(task) then Flying(tasks) + {i} else Flying(tasks) - {i}
  {
  }

  lemma TasksKeep(hash: Hash, y: System, i: nat, f: FileStep)
    requires TasksInv(y.sender) && Enabled(hash, y, OfFile(i, f))
    ensures TasksInv(Next(hash, y, OfFile(i, f)).sender)
  {
    var tasks := y.sender.tasks;
    var task := NextTask(tasks[i], f);
    FlyingAfter(tasks, i, task);
    if InFlight(tasks[i]) && InFlight(task) {
      assert Flying(tasks) + {i} == Flying(tasks);
    } else if !InFlight(task) {
      SubsetSize(Flying(tasks) - {i}, Flying(tasks));
    }
  }

  lemma TakingAfter(streams: seq<Stream>, i: nat, u: Stream)
    requires i < |streams|
    ensures Taking(streams[i := u]) == if u.stage.Taken? then Taking(streams) + {i} else Taking(streams) - {i}
  {
  }

  lemma TakingKeeps(hash: Hash, y: System, i: nat, f: FileStep)
    requires Enabled(hash, y, OfFile(i, f)) && |Taking(y.streams)| <= FILE_STREAM_CONCURRENCY
    ensures |Taking(Next(hash, y, OfFile(i, f)).streams)| <= FILE_STREAM_CONCURRENCY
  {
    var u := NextStream(hash, y.streams[i], y.sizes[i], Fits(y.receiver), f);
    TakingAfter(y.streams, i, u);
    if u.stage.Taken? && y.streams[i].stage.Taken? {
      assert Taking(y.streams) + {i} == Taking(y.streams);
    } else if !u.stage.Taken? {
      SubsetSize(Taking(y.streams) - {i}, Taking(y.streams));
    }
  }

  lemma ReceiverKeeps(hash: Hash, y: System, i: nat, f: FileStep)
    requires Inv(hash, y) && Enabled(hash, y, OfFile(i, f))
    ensures var z := Next(hash, y, OfFile(i, f)); ReceiverInv(z.receiver, z.streams)
  {
    var z := Next(hash, y, OfFile(i, f));
    assert FileInv(hash, y.streams[i], y.sizes[i], y.sender.tasks[i]);
    if f.Dispatch? {
      RoomForArrivals(hash, y, i);
      WaitingIsFlying(hash, y, i);
      assert y.sender.spawned > 0;
    }
    assert y.streams[i].stage.Received? ==> z.streams[i].stage.Received?;
    assert z.streams[i].stage.Refused? ==> z.receiver.failed;
    forall k | 0 <= k < |z.streams| && k != i ensures z.streams[k] == y.streams[k] {
    }
  }

  lemma FileStepKeepsInv(hash: Hash, y: System, i: nat, f: FileStep)
    requires Inv(hash, y) && Enabled(hash, y, OfFile(i, f))
    ensures Inv(hash, Next(hash, y, OfFile(i, f)))
  {
    FileKeeps(hash, y, i, f);
    QueueKeeps(hash, y, i, f);
    TasksKeep(hash, y, i, f);
    ReceiverKeeps(hash, y, i, f);
    TakingKeeps(hash, y, i, f);
  }

  lemma SenderStepKeepsInv(hash: Hash, y: System, a: SenderStep)
    requires Inv(hash, y) && Enabled(hash, y, OfSender(a))
    ensures Inv(hash, Next(hash, y, OfSender(a)))
  {
    hide FileInv, Flying;
    var z := Next(hash, y, OfSender(a));
    assert z.sender.tasks == y.sender.tasks && z.sender.spawned == y.sender.spawned;
    assert forall x :: x in z.frames ==> x in y.frames;
    assert y.frames != [] ==> y.frames[0] in y.frames;
  }

  lemma ReceiverStepKeeps(r: Receiver, offer: bool, streams: seq<Stream>, b: ReceiverStep)
    requires ReceiverInv(r, streams) && ReceiverCan(r, offer, streams, b)
    ensures ReceiverInv(NextReceiver(r, offer, streams, b), streams)
  {
  }

  lemma ReceiverStepEffects(r: Receiver, offer: bool, streams: seq<Stream>, b: ReceiverStep)
    requires ReceiverInv(r, streams) && ReceiverCan(r, offer, streams, b)
    ensures var n := NextReceiver(r, offer, streams, b);
            && n.queue == r.queue
            && (r.accepted || Accept in Written(b) ==> n.accepted)
            && (r.status.Completed? || Completion in Written(b) ==> n.status.Completed?)
  {
  }

  lemma ReceiverStepKeepsInv(hash: Hash, y: System, b: ReceiverStep)
    requires Inv(hash, y) && Enabled(hash, y, OfReceiver(b))
    ensures Inv(hash, Next(hash, y, OfReceiver(b)))
  {
    ReceiverStepKeeps(y.receiver, y.offer, y.streams, b);
    ReceiverStepEffects(y.receiver, y.offer, y.streams, b);
    var z := Next(hash, y, OfReceiver(b));
    assert z.sender == y.sender && z.streams == y.streams;
    assert forall x :: x in z.frames ==> x in y.frames || x in Written(b);
  }

  lemma StartInv(hash: Hash, sizes: seq<nat>)
    ensures Inv(hash, Start(sizes))
  {
    assert Flying(Start(sizes).sender.tasks) == {} && Taking(Start(sizes).streams) == {};
  }

  lemma StepKeepsInv(hash: Hash, y: System, step: Step)
    requires Inv(hash, y) && Enabled(hash, y, step)
    ensures Inv(hash, Next(hash, y, step))
  {
    match step {
      case OfSender(a) => SenderStepKeepsInv(hash, y, a);
      case OfReceiver(b) => ReceiverStepKeepsInv(hash, y, b);
      case OfFile(i, f) => FileStepKeepsInv(hash, y, i, f);
    }
  }

  lemma {:induction false} RunKeepsInv(hash: Hash, y: System, steps: seq<Step>)
    requires Inv(hash, y) && Legal(hash, y, steps)
    ensures Inv(hash, After(hash, y, steps))
    decreases |steps|
  {
    hide Enabled, Next, Inv;
    if steps != [] {
      StepKeepsInv(hash, y, steps[0]);
      RunKeepsInv(hash, Next(hash, y, steps[0]), steps[1..]);
    }
  }

  lemma Reached(hash: Hash, sizes: seq<nat>, steps: seq<Step>) returns (y: System)
    requires Legal(hash, Start(sizes), steps)
    ensures y == After(hash, Start(sizes), steps) && Inv(hash, y)
    ensures y.sizes == sizes
  {
    StartInv(hash, sizes);
    RunKeepsInv(hash, Start(sizes), steps);
    SizesStay(hash, Start(sizes), steps);
    y := After(hash, Start(sizes), steps);
  }

  lemma {:induction false} SizesStay(hash: Hash, y: System, steps: seq<Step>)
    requires Legal(hash, y, steps)
    ensures After(hash, y, steps).sizes == y.sizes
    decreases |steps|
  {
    if steps != [] {
      SizesStay(hash, Next(hash, y, steps[0]), steps[1..]);
    }
  }

  // ----- the theorems -----

  /** The receiver's file `i` is finalized with exactly the bytes that the sender read and hashed. */
  predicate Delivered(hash: Hash, y: System, i: nat)
    requires i < |y.streams| && i < |y.sizes|
  {
    var u := y.streams[i];
    && u.finalized.Some?
    && |u.finalized.value| == y.sizes[i]
    && u.ended && u.sent == Encode(hash, u.finalized.value)
  }

  lemma CompletedMeansDelivered(hash: Hash, y: System)
    requires Inv(hash, y) && y.receiver.status.Completed?
    ensures |y.streams| == |y.sizes| && forall i :: 0 <= i < |y.streams| ==> Delivered(hash, y, i)
  {
    forall i | 0 <= i < |y.streams| ensures Delivered(hash, y, i) {
      assert FileInv(hash, y.streams[i], y.sizes[i], y.sender.tasks[i]);
      assert y.streams[i].sent == Encode(hash, y.streams[i].sent[..y.sizes[i]]);
    }
  }

  /** End-to-end agreement. In every run, if the sender's transfer is completed then so is the
      receiver's, and every file of the manifest was finalized there with exactly the bytes sent. */
  lemma EndToEndAgreement(hash: Hash, sizes: seq<nat>, steps: seq<Step>)
    requires Legal(hash, Start(sizes), steps)
    ensures var y := After(hash, Start(sizes), steps);
            y.sender.status.Completed? ==> y.receiver.status.Completed?
    ensures var y := After(hash, Start(sizes), steps);
            y.receiver.status.Completed? ==>
              |y.streams| == |sizes| == |y.sizes| && forall i :: 0 <= i < |sizes| ==> Delivered(hash, y, i)
  {
    var y := Reached(hash, sizes, steps);
    if y.receiver.status.Completed? {
      CompletedMeansDelivered(hash, y);
    }
  }

  /** Completion is never undone: not by a failed write of the completion frame, not by errors,
      cancellation or users on either side, and the finalized files stay as they are. */
  lemma {:induction false} CompletionIsFinal(hash: Hash, y: System, steps: seq<Step>)
    requires Inv(hash, y) && Legal(hash, y, steps) && y.receiver.status.Completed?
    ensures var z := After(hash, y, steps);
            z.receiver.status.Completed? && |z.streams| == |y.streams|
            && forall i :: 0 <= i < |y.streams| ==> z.streams[i].finalized == y.streams[i].finalized
    decreases |steps|
  {
    hide Enabled, Next, Inv;
    if steps != [] {
      StepKeepsInv(hash, y, steps[0]);
      StepKeepsCompletion(hash, y, steps[0]);
      CompletionIsFinal(hash, Next(hash, y, steps[0]), steps[1..]);
    }
  }

  lemma StepKeepsCompletion(hash: Hash, y: System, step: Step)
    requires Inv(hash, y) && Enabled(hash, y, step) && y.receiver.status.Completed?
    ensures var z := Next(hash, y, step);
            z.receiver.status.Completed? && |z.streams| == |y.streams|
            && forall i :: 0 <= i < |y.streams| ==> z.streams[i].finalized == y.streams[i].finalized
  {
    match step {
      case OfReceiver(b) => ReceiverStepEffects(y.receiver, y.offer, y.streams, b);
      case _ =>
    }
  }

  /** Backpressure. The queue of four never overflows: whenever a file stream reaches the router there
      is room for it, whatever failed; and while the receiver's job has not failed or refused, no
      stream of this sender is ever turned away, also not for a missing route. */
  lemma BackpressureHolds(hash: Hash, sizes: seq<nat>, steps: seq<Step>, i: nat)
    requires Legal(hash, Start(sizes), steps) && i < |After(hash, Start(sizes), steps).streams|
    ensures var y := After(hash, Start(sizes), steps);
            && |y.receiver.queue| <= FILE_STREAM_CONCURRENCY
            && |Flying(y.sender.tasks)| <= 4 && |Taking(y.streams)| <= 4
            && (y.streams[i].stage.Travelling? ==>
                 |y.receiver.queue| < FILE_STREAM_CONCURRENCY && (y.receiver.routeOpen || y.receiver.failed))
            && (y.streams[i].stage.Refused? ==> y.receiver.failed)
  {
    var y := Reached(hash, sizes, steps);
    var queued := Queueing(y.receiver.queue);
    forall j | j in queued ensures j in Flying(y.sender.tasks) {
      WaitingIsFlying(hash, y, j);
    }
    QueueCount(y.receiver.queue);
    SubsetSize(queued, Flying(y.sender.tasks));
    if y.streams[i].stage.Travelling? {
      RoomForArrivals(hash, y, i);
      WaitingIsFlying(hash, y, i);
      assert y.sender.spawned > 0;
    }
  }

  /** A job that is over has ended its transfer: on success, refusal, error and cancellation, on both
      sides, in every run. */
  lemma EndedJobsAreTerminal(hash: Hash, sizes: seq<nat>, steps: seq<Step>)
    requires Legal(hash, Start(sizes), steps)
    ensures var y := After(hash, Start(sizes), steps);
            && (y.sender.stage.SenderOver? ==> y.sender.status.Terminal())
            && (y.receiver.stage.ReceiverOver? ==> y.receiver.status.Terminal())
  {
    var y := Reached(hash, sizes, steps);
  }

  /** With every file and the completion frame in, the sender's transfer completes if and only if it is
      not paused or cancelled at that moment. */
  lemma SenderCompletesIff(hash: Hash, sizes: seq<nat>, steps: seq<Step>)
    requires Legal(hash, Start(sizes), steps) && After(hash, Start(sizes), steps).sender.stage.Joined?
    ensures var y := After(hash, Start(sizes), steps);
            Next(hash, y, OfSender(CompleteJob)).sender.status.Completed? <==> y.sender.status.Transferring?
  {
    var y := Reached(hash, sizes, steps);
  }

  /** A pause that lands after the last file and before the sender completes turns a transfer that the
      receiver completed into one that the sender reports as failed. */
  lemma LatePauseFailsTheSender(hash: Hash, sizes: seq<nat>, steps: seq<Step>)
    requires Legal(hash, Start(sizes), steps)
    requires var y := After(hash, Start(sizes), steps); y.sender.stage.Joined? && y.sender.status.Transferring?
    ensures var y := After(hash, Start(sizes), steps);
            var more := [OfSender(User(Paused)), OfSender(CompleteJob), OfSender(HandleFailure)];
            && Legal(hash, y, more)
            && After(hash, y, more).sender.status.Failed? && After(hash, y, more).receiver.status.Completed?
  {
    hide Enabled, Next, Inv;
    var y := Reached(hash, sizes, steps);
    PauseAtTheEnd(hash, y);
    var y1 := Next(hash, y, OfSender(User(Paused)));
    var y2 := Next(hash, y1, OfSender(CompleteJob));
    ThreeSteps(hash, y, OfSender(User(Paused)), y1, OfSender(CompleteJob), y2, OfSender(HandleFailure));
  }

  lemma PauseAtTheEnd(hash: Hash, y: System)
    requires Inv(hash, y) && y.sender.stage.Joined? && y.sender.status.Transferring?
    ensures Enabled(hash, y, OfSender(User(Paused)))
    ensures var y1 := Next(hash, y, OfSender(User(Paused)));
            && Enabled(hash, y1, OfSender(CompleteJob))
            && var y2 := Next(hash, y1, OfSender(CompleteJob));
               && Enabled(hash, y2, OfSender(HandleFailure))
               && var y3 := Next(hash, y2, OfSender(HandleFailure));
                  y3.sender.status.Failed? && y3.receiver.status.Completed?
  {
  }

  lemma ThreeSteps(hash: Hash, y: System, a: Step, y1: System, b: Step, y2: System, c: Step)
    requires Enabled(hash, y, a) && y1 == Next(hash, y, a)
    requires Enabled(hash, y1, b) && y2 == Next(hash, y1, b)
    requires Enabled(hash, y2, c)
    ensures Legal(hash, y, [a, b, c]) && After(hash, y, [a, b, c]) == Next(hash, y2, c)
  {
    hide Enabled, Next;
    assert [a, b, c][1..] == [b, c] && [b, c][1..] == [c] && [c][1..] == [];
    assert Legal(hash, y2, [c]) && After(hash, y2, [c]) == Next(hash, y2, c);
    assert Legal(hash, y1, [b, c]) && After(hash, y1, [b, c]) == Next(hash, y2, c);
  }
}
