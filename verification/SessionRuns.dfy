/** Runs of the two-party protocol that succeed: every list of files can be transferred. */
module SessionRuns {
  import opened Prelude
  import opened Transfer
  import opened FileStream
  import opened Session
  import opened SessionProofs

  ghost predicate Reaches(hash: Hash, y: System, z: System) {
    exists steps :: Legal(hash, y, steps) && After(hash, y, steps) == z
  }

  lemma ReachesItself(hash: Hash, y: System)
    ensures Reaches(hash, y, y)
  {
    assert Legal(hash, y, []) && After(hash, y, []) == y;
  }

  lemma {:induction false} RunSnoc(hash: Hash, y: System, steps: seq<Step>, step: Step)
    requires Legal(hash, y, steps) && Enabled(hash, After(hash, y, steps), step)
    ensures Legal(hash, y, steps + [step])
    ensures After(hash, y, steps + [step]) == Next(hash, After(hash, y, steps), step)
    decreases |steps|
  {
    hide Enabled, Next;
    if steps == [] {
      assert ([step])[1..] == [] && [] + [step] == [step];
    } else {
      assert (steps + [step])[1..] == steps[1..] + [step];
      RunSnoc(hash, Next(hash, y, steps[0]), steps[1..], step);
    }
  }

  lemma ReachesNext(hash: Hash, x: System, y: System, step: Step)
    requires Reaches(hash, x, y) && Enabled(hash, y, step)
    ensures Reaches(hash, x, Next(hash, y, step))
  {
    hide Enabled, Next;
    var steps :| Legal(hash, x, steps) && After(hash, x, steps) == y;
    RunSnoc(hash, x, steps, step);
  }

  // ----- between two files -----

  function Sizes(files: seq<seq<byte>>): seq<nat> {
    seq(|files|, i requires 0 <= i < |files| => |files[i]|)
  }

  const NEW_STREAM := Stream(Unopened, [], false, false, 0, None, false)
  const BUSY_RECEIVER := Receiver(Transferring, Receiving, true, true, [], true, false)

  function DoneStream(hash: Hash, data: seq<byte>): Stream {
    Stream(Received, Encode(hash, data), true, true, |data|, Some(data), true)
  }

  function Streams(hash: Hash, files: seq<seq<byte>>, n: nat): seq<Stream> {
    seq(|files|, i requires 0 <= i < |files| => if i < n then DoneStream(hash, files[i]) else NEW_STREAM)
  }

  function Tasks(count: nat, n: nat): seq<Task> {
    seq(count, i requires 0 <= i < count => if i < n then Gone else NotSpawned)
  }

  /** The first `n` files are through and no other is in flight. */
  function Between(hash: Hash, files: seq<seq<byte>>, n: nat): System {
    System(Sizes(files), true, [], Sender(Transferring, Sending, n, Tasks(|files|, n), false),
           BUSY_RECEIVER, Streams(hash, files, n))
  }

  /** File `n` is in flight. */
  function During(hash: Hash, files: seq<seq<byte>>, n: nat, task: Task, queue: seq<nat>, u: Stream): System
    requires n < |files|
  {
    System(Sizes(files), true, [], Sender(Transferring, Sending, n + 1, Tasks(|files|, n)[n := task], false),
           BUSY_RECEIVER.(queue := queue), Streams(hash, files, n)[n := u])
  }

  lemma FileStepHappens(hash: Hash, x: System, files: seq<seq<byte>>, n: nat, task: Task, queue: seq<nat>, u: Stream,
                        f: FileStep, v: Stream)
    requires n < |files| && !f.Spawn?
    requires Reaches(hash, x, During(hash, files, n, task, queue, u))
    requires FileCan(hash, During(hash, files, n, task, queue, u), n, f)
    requires v == NextStream(hash, u, |files[n]|, |queue| < FILE_STREAM_CONCURRENCY, f)
    ensures Reaches(hash, x, During(hash, files, n, NextTask(task, f),
                                    NextQueue(BUSY_RECEIVER.(queue := queue), n, f), v))
  {
    var y := During(hash, files, n, task, queue, u);
    ReachesNext(hash, x, y, OfFile(n, f));
    assert Next(hash, y, OfFile(n, f))
        == During(hash, files, n, NextTask(task, f), NextQueue(BUSY_RECEIVER.(queue := queue), n, f), v);
  }

  // ----- one more file -----

  lemma FileOpens(hash: Hash, x: System, files: seq<seq<byte>>, n: nat)
    requires n < |files| && Reaches(hash, x, Between(hash, files, n))
    ensures Reaches(hash, x, During(hash, files, n, Open, [], NEW_STREAM.(stage := Taken, header := true)))
  {
    var y := Between(hash, files, n);
    assert Flying(y.sender.tasks) == {};
    ReachesNext(hash, x, y, OfFile(n, Spawn));
    assert Next(hash, y, OfFile(n, Spawn)) == During(hash, files, n, Spawned, [], NEW_STREAM);
    FileStepHappens(hash, x, files, n, Spawned, [], NEW_STREAM, OpenStream, NEW_STREAM.(stage := Travelling));
    FileStepHappens(hash, x, files, n, Open, [], NEW_STREAM.(stage := Travelling), Dispatch,
                    NEW_STREAM.(stage := Queued));
    assert [n][1..] == [] && Taking(During(hash, files, n, Open, [n], NEW_STREAM.(stage := Queued)).streams) == {};
    FileStepHappens(hash, x, files, n, Open, [n], NEW_STREAM.(stage := Queued), Take, NEW_STREAM.(stage := Taken));
    FileStepHappens(hash, x, files, n, Open, [], NEW_STREAM.(stage := Taken), WriteHeader,
                    NEW_STREAM.(stage := Taken, header := true));
  }

  lemma FileTravels(hash: Hash, x: System, files: seq<seq<byte>>, n: nat)
    requires n < |files|
    requires Reaches(hash, x, During(hash, files, n, Open, [], NEW_STREAM.(stage := Taken, header := true)))
    ensures Reaches(hash, x, During(hash, files, n, Open, [], DoneStream(hash, files[n]).(stage := Taken)))
  {
    var data := files[n];
    var u0 := NEW_STREAM.(stage := Taken, header := true);
    var u1 := u0.(sent := data);
    var u2 := u1.(sent := Encode(hash, data), ended := true);
    var u3 := u2.(offset := |data|);
    assert [] + data == data && u2.sent[..|data|] == data && u2.sent[|data|..] == hash(data);
    FileStepHappens(hash, x, files, n, Open, [], u0, SendChunk(data), u1);
    FileStepHappens(hash, x, files, n, Open, [], u1, SendDigest, u2);
    FileStepHappens(hash, x, files, n, Open, [], u2, ReceiveChunk(|data|), u3);
    FileStepHappens(hash, x, files, n, Open, [], u3, Finalize, u3.(finalized := Some(data)));
    FileStepHappens(hash, x, files, n, Open, [], u3.(finalized := Some(data)), WriteResult,
                    u3.(finalized := Some(data), result := true));
  }

  lemma FileCloses(hash: Hash, x: System, files: seq<seq<byte>>, n: nat)
    requires n < |files|
    requires Reaches(hash, x, During(hash, files, n, Open, [], DoneStream(hash, files[n]).(stage := Taken)))
    ensures Reaches(hash, x, Between(hash, files, n + 1))
  {
    var u := DoneStream(hash, files[n]);
    FileStepHappens(hash, x, files, n, Open, [], u.(stage := Taken), ReadResult, u.(stage := Taken));
    FileStepHappens(hash, x, files, n, Returned, [], u.(stage := Taken), JoinReceive, u);
    FileStepHappens(hash, x, files, n, Returned, [], u, JoinSend, u);
    assert During(hash, files, n, Gone, [], u) == Between(hash, files, n + 1);
  }

  lemma {:induction false} AllFiles(hash: Hash, x: System, files: seq<seq<byte>>, n: nat)
    requires n <= |files| && Reaches(hash, x, Between(hash, files, n))
    ensures Reaches(hash, x, Between(hash, files, |files|))
    decreases |files| - n
  {
    if n < |files| {
      FileOpens(hash, x, files, n);
      FileTravels(hash, x, files, n);
      FileCloses(hash, x, files, n);
      AllFiles(hash, x, files, n + 1);
    }
  }

  // ----- the handshake and the completion -----

  function Waiting(files: seq<seq<byte>>, frames: seq<Frame>, r: Receiver): System {
    Start(Sizes(files)).(offer := true, frames := frames, receiver := r,
                         sender := Sender(AwaitingApproval, Awaiting, 0, Tasks(|files|, 0), false))
  }

  lemma OfferIsAccepted(hash: Hash, files: seq<seq<byte>>)
    ensures Reaches(hash, Start(Sizes(files)), Waiting(files, [Accept], BUSY_RECEIVER))
  {
    var x := Start(Sizes(files));
    ReachesItself(hash, x);
    ReachesNext(hash, x, x, OfSender(Connect));
    var y1 := Next(hash, x, OfSender(Connect));
    ReachesNext(hash, x, y1, OfSender(WriteOffer));
    var y2 := Next(hash, y1, OfSender(WriteOffer));
    ReachesNext(hash, x, y2, OfSender(AwaitApproval));
    var r := x.receiver;
    var y3 := Waiting(files, [], r);
    assert Next(hash, y2, OfSender(AwaitApproval)) == y3;
    ReceiverAccepts(hash, x, files, r);
  }

  lemma ReceiverAccepts(hash: Hash, x: System, files: seq<seq<byte>>, r: Receiver)
    requires r == Start([]).receiver && Reaches(hash, x, Waiting(files, [], r))
    ensures Reaches(hash, x, Waiting(files, [Accept], BUSY_RECEIVER))
  {
    var y0 := Waiting(files, [], r);
    ReachesNext(hash, x, y0, OfReceiver(ReceiveOffer(true)));
    var y1 := Next(hash, y0, OfReceiver(ReceiveOffer(true)));
    ReachesNext(hash, x, y1, OfReceiver(Prepare));
    var y2 := Next(hash, y1, OfReceiver(Prepare));
    ReachesNext(hash, x, y2, OfReceiver(Register));
    var y3 := Next(hash, y2, OfReceiver(Register));
    ReachesNext(hash, x, y3, OfReceiver(WriteAccept));
    var y4 := Next(hash, y3, OfReceiver(WriteAccept));
    ReachesNext(hash, x, y4, OfReceiver(BeginReceiving));
    assert Next(hash, y4, OfReceiver(BeginReceiving)) == Waiting(files, [Accept], BUSY_RECEIVER);
  }

  lemma SenderBegins(hash: Hash, x: System, files: seq<seq<byte>>)
    requires Reaches(hash, x, Waiting(files, [Accept], BUSY_RECEIVER))
    ensures Reaches(hash, x, Between(hash, files, 0))
  {
    var y0 := Waiting(files, [Accept], BUSY_RECEIVER);
    ReachesNext(hash, x, y0, OfSender(ReadAnswer));
    var y1 := Next(hash, y0, OfSender(ReadAnswer));
    ReachesNext(hash, x, y1, OfSender(Reconnect));
    var y2 := Next(hash, y1, OfSender(Reconnect));
    ReachesNext(hash, x, y2, OfSender(BeginSending));
    assert Next(hash, y2, OfSender(BeginSending)) == Between(hash, files, 0);
  }

  /** Everything is in: the next step of the sender's job completes its transfer, unless a pause lands first. */
  function Finished(hash: Hash, files: seq<seq<byte>>): System {
    Between(hash, files, |files|).(
      sender := Sender(Transferring, SenderStage.Joined, |files|, Tasks(|files|, |files|), true),
      receiver := BUSY_RECEIVER.(status := Completed, stage := ReceiverOver, routeOpen := false))
  }

  lemma CompletionArrives(hash: Hash, x: System, files: seq<seq<byte>>)
    requires Reaches(hash, x, Between(hash, files, |files|))
    ensures Reaches(hash, x, Finished(hash, files))
  {
    var y0 := Between(hash, files, |files|);
    ReachesNext(hash, x, y0, OfReceiver(CompleteAll));
    var y1 := Next(hash, y0, OfReceiver(CompleteAll));
    ReachesNext(hash, x, y1, OfReceiver(WriteCompletion));
    var y2 := Next(hash, y1, OfReceiver(WriteCompletion));
    ReachesNext(hash, x, y2, OfSender(ReadCompletion));
    var y3 := Next(hash, y2, OfSender(ReadCompletion));
    ReachesNext(hash, x, y3, OfSender(FinishJoin));
    assert Next(hash, y3, OfSender(FinishJoin)) == Finished(hash, files);
  }

  // ----- the theorems -----

  /** Every list of files can be transferred: some run completes both sides and finalizes exactly
      these files. */
  lemma TransfersCanSucceed(hash: Hash, files: seq<seq<byte>>)
    ensures Reaches(hash, Start(Sizes(files)), Finished(hash, files))
    ensures exists z :: Reaches(hash, Start(Sizes(files)), z)
              && z.sender.status.Completed? && z.receiver.status.Completed? && |z.streams| == |files|
              && forall i :: 0 <= i < |files| ==> z.streams[i].finalized == Some(files[i])
  {
    var x := Start(Sizes(files));
    OfferIsAccepted(hash, files);
    SenderBegins(hash, x, files);
    AllFiles(hash, x, files, 0);
    CompletionArrives(hash, x, files);
    ReachesNext(hash, x, Finished(hash, files), OfSender(CompleteJob));
    var z := Next(hash, Finished(hash, files), OfSender(CompleteJob));
    assert z.streams == Streams(hash, files, |files|);
  }

  /** The receiver completed the transfer; the sender's job ended like this. */
  function Apart(hash: Hash, files: seq<seq<byte>>, status: Status, stage: SenderStage): System {
    Finished(hash, files).(sender := Sender(status, stage, |files|, Tasks(|files|, |files|), true))
  }

  lemma PauseFails(hash: Hash, x: System, files: seq<seq<byte>>)
    requires Reaches(hash, x, Finished(hash, files))
    ensures Reaches(hash, x, Apart(hash, files, Failed, SenderOver))
  {
    var y0 := Finished(hash, files);
    var y1, y2 := Apart(hash, files, Paused, SenderStage.Joined), Apart(hash, files, Paused, SenderFailing(false));
    ReachesNext(hash, x, y0, OfSender(User(Paused)));
    assert Next(hash, y0, OfSender(User(Paused))) == y1;
    ReachesNext(hash, x, y1, OfSender(CompleteJob));
    assert Next(hash, y1, OfSender(CompleteJob)) == y2;
    ReachesNext(hash, x, y2, OfSender(HandleFailure));
    assert Next(hash, y2, OfSender(HandleFailure)) == Apart(hash, files, Failed, SenderOver);
  }

  /** For every list of files a pause can land so late that the receiver has completed the transfer
      with exactly these files, and the sender reports it as failed. */
  lemma LatePauseHappens(hash: Hash, files: seq<seq<byte>>)
    ensures exists z :: Reaches(hash, Start(Sizes(files)), z)
              && z.sender.status.Failed? && z.receiver.status.Completed? && |z.streams| == |files|
              && forall i :: 0 <= i < |files| ==> z.streams[i].finalized == Some(files[i])
  {
    hide Enabled, Next;
    TransfersCanSucceed(hash, files);
    PauseFails(hash, Start(Sizes(files)), files);
    var z := Apart(hash, files, Failed, SenderOver);
    assert z.streams == Streams(hash, files, |files|);
  }
}
