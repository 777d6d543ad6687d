/**
 The two-party protocol: a sender and a receiver with their control stream, the receiver's router
 and one stream per file, as a composed system. Steps of the two sides, of the router and of every
 file task interleave freely; either side can fail, be cancelled or be paused at any moment.
 */
module Session {
  import opened Prelude
  import opened Transfer
  import opened FileStream

  // ----- data -----

  /** The sender's job. `Joined`: every file task and the completion frame are in. */
  datatype SenderStage =
    | Prepared
    | Linked
    | Offered
    | Awaiting
    | Granted
    | Connected
    | Sending
    | Joined
    | SenderFailing(cancelled: bool)
    | SenderOver

  /** One `send_one_file` task; `Returned` is finished but still in the join set. */
  datatype Task = NotSpawned | Spawned | Open | Returned | Gone

  datatype Sender = Sender(status: Status, stage: SenderStage, spawned: nat, tasks: seq<Task>, completion: bool)

  /** The receiver's job. `Completing`: its transfer is completed, the completion frame is not written. */
  datatype ReceiverStage =
    | Unaware
    | Deciding
    | Approved
    | Ready
    | Routed
    | Accepted
    | Receiving
    | Completing
    | ReceiverFailing(cancelled: bool)
    | ReceiverOver

  /** `accepted`: the accept frame was written. `failed`: the job stopped before it was complete. */
  datatype Receiver = Receiver(
    status: Status,
    stage: ReceiverStage,
    automatic: bool,
    routeOpen: bool,
    queue: seq<nat>,
    accepted: bool,
    failed: bool)

  datatype Frame = Accept | Refuse(cancelled: bool) | Completion

  datatype StreamStage = Unopened | Travelling | Queued | Refused | Taken | Received

  /** `sent` and `ended` are the sending half, the rest is the receiving half: the offset, the
      finalized file and whether the result was written back. */
  datatype Stream = Stream(
    stage: StreamStage,
    sent: seq<byte>,
    ended: bool,
    header: bool,
    offset: nat,
    finalized: Option<seq<byte>>,
    result: bool)

  /** `offer` is the offer frame on its way, `frames` the receiver's unread control frames. */
  datatype System = System(
    sizes: seq<nat>,
    offer: bool,
    frames: seq<Frame>,
    sender: Sender,
    receiver: Receiver,
    streams: seq<Stream>)

  // ----- steps -----

  datatype SenderStep =
    | Connect
    | WriteOffer
    | AwaitApproval
    | ReadAnswer
    | Reconnect
    | BeginSending
    | ReadCompletion
    | FinishJoin
    | CompleteJob
    | Fail(cancelled: bool)
    | HandleFailure
    | User(status: Status)

  datatype ReceiverStep =
    | ReceiveOffer(automatic: bool)
    | Decide(accept: bool, cancelled: bool)
    | NoSpace
    | Prepare
    | Register
    | WriteAccept
    | BeginReceiving
    | CompleteAll
    | WriteCompletion
    | Abort(cancelled: bool)
    | HandleAbort
    | UserChange(status: Status)

  /** Steps about one file: its send task, its way through the router, its receive task. */
  datatype FileStep =
    | Spawn
    | OpenStream
    | SendChunk(chunk: seq<byte>)
    | SendDigest
    | ReadResult
    | JoinSend
    | Dispatch
    | Take
    | WriteHeader
    | ReceiveChunk(count: nat)
    | Finalize
    | WriteResult
    | JoinReceive

  datatype Step = OfSender(s: SenderStep) | OfReceiver(r: ReceiverStep) | OfFile(i: nat, f: FileStep)

  // ----- status changes -----

  predicate Moves(status: Status, next: Status) {
    Allowed(status, next) || status == next
  }

  /** A status change that the status machine may refuse. */
  function Tried(status: Status, next: Status): Status {
    if Moves(status, next) then next else status
  }

  /** `fail_transfer` leaves a terminal status alone. */
  function Broken(status: Status): Status {
    if status.Terminal() then status else Failed
  }

  /** The job's next stage if its status change is accepted, and a failure otherwise. */
  function SenderMoves(s: Sender, next: Status, stage: SenderStage): Sender {
    if Moves(s.status, next) then s.(status := next, stage := stage) else s.(stage := SenderFailing(false))
  }

  function ReceiverMoves(r: Receiver, next: Status, stage: ReceiverStage): Receiver {
    if Moves(r.status, next) then r.(status := next, stage := stage)
    else r.(stage := ReceiverFailing(false), failed := true, routeOpen := false)
  }

  predicate UserStatus(status: Status) {
    status.Paused? || status.Transferring? || status.Cancelled?
  }

  // ----- in flight -----

  predicate InFlight(task: Task) {
    task.Spawned? || task.Open? || task.Returned?
  }

  function Flying(tasks: seq<Task>): set<nat> {
    set i | 0 <= i < |tasks| && InFlight(tasks[i])
  }

  function Taking(streams: seq<Stream>): set<nat> {
    set i | 0 <= i < |streams| && streams[i].stage.Taken?
  }

  predicate AllReceived(streams: seq<Stream>) {
    forall i :: 0 <= i < |streams| ==> streams[i].stage.Received?
  }

  predicate AllGone(tasks: seq<Task>) {
    forall i :: 0 <= i < |tasks| ==> tasks[i].Gone?
  }

  // ----- the sender -----

  predicate SenderCan(s: Sender, frames: seq<Frame>, step: SenderStep) {
    match step
    case Connect => s.stage.Prepared?
    case WriteOffer => s.stage.Linked?
    case AwaitApproval => s.stage.Offered?
    case ReadAnswer => s.stage.Awaiting? && frames != []
    case Reconnect => s.stage.Granted?
    case BeginSending => s.stage.Connected?
    case ReadCompletion => s.stage.Sending? && !s.completion && frames != []
    case FinishJoin => s.stage.Sending? && s.completion && AllGone(s.tasks)
    case CompleteJob => s.stage.Joined?
    case Fail(_) => !s.stage.Joined? && !s.stage.SenderFailing? && !s.stage.SenderOver?
    case HandleFailure => s.stage.SenderFailing?
    case User(status) => UserStatus(status)
  }

  function NextSender(s: Sender, frames: seq<Frame>, step: SenderStep): Sender
    requires SenderCan(s, frames, step)
  {
    match step
    case Connect => SenderMoves(s, Connecting, Linked)
    case WriteOffer => s.(stage := Offered)
    case AwaitApproval => SenderMoves(s, AwaitingApproval, Awaiting)
    case ReadAnswer =>
      (match frames[0]
       case Accept => s.(stage := Granted)
       case Refuse(cancelled) =>
         var status := if cancelled then Status.Cancelled else Status.Rejected;
         s.(status := Tried(s.status, status), stage := SenderFailing(false))
       case Completion => s.(stage := SenderFailing(false)))
    case Reconnect => SenderMoves(s, Connecting, Connected)
    case BeginSending => SenderMoves(s, Transferring, Sending)
    case ReadCompletion => if frames[0].Completion? then s.(completion := true) else s.(stage := SenderFailing(false))
    case FinishJoin => s.(stage := Joined)
    case CompleteJob => SenderMoves(s, Completed, SenderOver)
    case Fail(cancelled) => s.(stage := SenderFailing(cancelled))
    case HandleFailure =>
      var status := if s.stage.cancelled then Tried(s.status, Status.Cancelled) else Broken(s.status);
      s.(status := status, stage := SenderOver)
    case User(status) => s.(status := Tried(s.status, status))
  }

  // ----- the receiver -----

  predicate ReceiverCan(r: Receiver, offer: bool, streams: seq<Stream>, step: ReceiverStep) {
    match step
    case ReceiveOffer(automatic) => r.stage.Unaware? && offer
    case Decide(_, _) => r.stage.Deciding?
    case NoSpace => r.stage.Approved?
    case Prepare => r.stage.Approved?
    case Register => r.stage.Ready?
    case WriteAccept => r.stage.Routed?
    case BeginReceiving => r.stage.Accepted?
    case CompleteAll => r.stage.Receiving? && AllReceived(streams)
    case WriteCompletion => r.stage.Completing?
    case Abort(_) => !r.stage.Unaware? && !r.stage.ReceiverFailing? && !r.stage.ReceiverOver?
    case HandleAbort => r.stage.ReceiverFailing?
    case UserChange(status) => UserStatus(status) && !r.stage.Unaware?
  }

  function NextReceiver(r: Receiver, offer: bool, streams: seq<Stream>, step: ReceiverStep): Receiver
    requires ReceiverCan(r, offer, streams, step)
  {
    match step
    case ReceiveOffer(automatic) =>
      r.(automatic := automatic,
         status := if automatic then Connecting else AwaitingApproval,
         stage := if automatic then Approved else Deciding)
    case Decide(accept, cancelled) =>
      if accept then r.(stage := Approved)
      else ReceiverMoves(r.(failed := true), if cancelled then Status.Cancelled else Status.Rejected, ReceiverOver)
    case NoSpace => r.(status := Broken(r.status), stage := ReceiverOver, failed := true)
    case Prepare => if r.automatic then r.(stage := Ready) else ReceiverMoves(r, Connecting, Ready)
    case Register => r.(stage := Routed, routeOpen := true)
    case WriteAccept => r.(stage := Accepted, accepted := true)
    case BeginReceiving => ReceiverMoves(r, Transferring, Receiving)
    case CompleteAll => ReceiverMoves(r, Completed, Completing)
    case WriteCompletion => r.(stage := ReceiverOver, routeOpen := false)
    case Abort(cancelled) => r.(stage := ReceiverFailing(cancelled), failed := true, routeOpen := false)
    case HandleAbort =>
      var status := if r.stage.cancelled then Tried(r.status, Status.Cancelled) else Broken(r.status);
      r.(status := status, stage := ReceiverOver, routeOpen := false)
    case UserChange(status) => r.(status := Tried(r.status, status))
  }

  function Written(step: ReceiverStep): seq<Frame> {
    match step
    case Decide(accept, cancelled) => if accept then [] else [Refuse(cancelled)]
    case NoSpace => [Refuse(false)]
    case WriteAccept => [Accept]
    case WriteCompletion => [Completion]
    case _ => []
  }

  // ----- one file -----

  /** Send tasks run while the sender is sending; if it fails they are aborted, which may take a while. */
  predicate TasksRun(stage: SenderStage) {
    stage.Sending? || stage.SenderFailing? || stage.SenderOver?
  }

  /** What the two jobs allow. */
  predicate FileCan(hash: Hash, y: System, i: nat, step: FileStep)
    requires i < |y.sender.tasks| && i < |y.streams| && i < |y.sizes|
  {
    var u, size, task := y.streams[i], y.sizes[i], y.sender.tasks[i];
    match step
    case Spawn =>
      y.sender.stage.Sending? && i == y.sender.spawned && |Flying(y.sender.tasks)| < FILE_STREAM_CONCURRENCY
    case OpenStream => TasksRun(y.sender.stage) && task.Spawned?
    case SendChunk(chunk) =>
      TasksRun(y.sender.stage) && task.Open? && u.header && !u.ended && |u.sent| + |chunk| <= size
    case SendDigest => TasksRun(y.sender.stage) && task.Open? && u.header && !u.ended && |u.sent| == size
    case ReadResult => TasksRun(y.sender.stage) && task.Open? && u.ended && u.result
    case JoinSend => y.sender.stage.Sending? && task.Returned?
    case Dispatch => u.stage.Travelling?
    case Take =>
      && y.receiver.stage.Receiving? && y.receiver.queue != [] && y.receiver.queue[0] == i
      && |Taking(y.streams)| < FILE_STREAM_CONCURRENCY
    case WriteHeader => u.stage.Taken?
    case ReceiveChunk(count) => u.stage.Taken? && u.offset + count <= size && u.offset + count <= |u.sent|
    case Finalize => u.stage.Taken? && u.offset == size && Complete(hash, u.sent, u.ended, size)
    case WriteResult => u.stage.Taken? && u.finalized.Some?
    case JoinReceive => u.stage.Taken? && u.result
  }

  function NextTask(task: Task, step: FileStep): Task {
    match step
    case Spawn => Spawned
    case OpenStream => Open
    case ReadResult => Returned
    case JoinSend => Gone
    case _ => task
  }

  predicate Fits(r: Receiver) {
    r.routeOpen && |r.queue| < FILE_STREAM_CONCURRENCY
  }

  function NextQueue(r: Receiver, i: nat, step: FileStep): seq<nat>
    requires step.Take? ==> r.queue != []
  {
    match step
    case Dispatch => if Fits(r) then r.queue + [i] else r.queue
    case Take => r.queue[1..]
    case _ => r.queue
  }

  function NextStream(hash: Hash, u: Stream, size: nat, fits: bool, step: FileStep): Stream
    requires step.Finalize? ==> size <= |u.sent|
  {
    match step
    case OpenStream => u.(stage := Travelling)
    case SendChunk(chunk) => u.(sent := u.sent + chunk)
    case SendDigest => u.(sent := Encode(hash, u.sent), ended := true)
    case Dispatch => u.(stage := if fits then Queued else Refused)
    case Take => u.(stage := Taken)
    case WriteHeader => u.(header := true)
    case ReceiveChunk(count) => u.(offset := u.offset + count)
    case Finalize => u.(finalized := Some(u.sent[..size]))
    case WriteResult => u.(result := true)
    case JoinReceive => u.(stage := Received)
    case _ => u
  }

  // ----- the composed system -----

  predicate Enabled(hash: Hash, y: System, step: Step) {
    match step
    case OfSender(a) => SenderCan(y.sender, y.frames, a)
    case OfReceiver(b) => ReceiverCan(y.receiver, y.offer, y.streams, b)
    case OfFile(i, f) =>
      i < |y.sender.tasks| && i < |y.streams| && i < |y.sizes| && FileCan(hash, y, i, f)
  }

  function Next(hash: Hash, y: System, step: Step): System
    requires Enabled(hash, y, step)
  {
    match step
    case OfSender(a) =>
      y.(offer := y.offer || a.WriteOffer?,
         frames := if a.ReadAnswer? || a.ReadCompletion? then y.frames[1..] else y.frames,
         sender := NextSender(y.sender, y.frames, a))
    case OfReceiver(b) =>
      y.(frames := y.frames + Written(b),
         receiver := NextReceiver(y.receiver, y.offer, y.streams, b))
    case OfFile(i, f) =>
      y.(sender := y.sender.(tasks := y.sender.tasks[i := NextTask(y.sender.tasks[i], f)],
                             spawned := if f.Spawn? then y.sender.spawned + 1 else y.sender.spawned),
         receiver := y.receiver.(queue := NextQueue(y.receiver, i, f)),
         streams := y.streams[i := NextStream(hash, y.streams[i], y.sizes[i], Fits(y.receiver), f)])
  }

  function Start(sizes: seq<nat>): System {
    System(sizes, false, [],
           Sender(Preparing, Prepared, 0, seq(|sizes|, _ => NotSpawned), false),
           Receiver(AwaitingApproval, Unaware, false, false, [], false, false),
           seq(|sizes|, _ => Stream(Unopened, [], false, false, 0, None, false)))
  }

  predicate Legal(hash: Hash, y: System, steps: seq<Step>)
    decreases |steps|
  {
    steps == [] || (Enabled(hash, y, steps[0]) && Legal(hash, Next(hash, y, steps[0]), steps[1..]))
  }

  function After(hash: Hash, y: System, steps: seq<Step>): System
    requires Legal(hash, y, steps)
    decreases |steps|
  {
    if steps == [] then y else After(hash, Next(hash, y, steps[0]), steps[1..])
  }
}
