/**
 Jobs, their slots and the transfers they list. A job holds one of 16 slots from before its transfer
 is listed until after it handled its own result, while users may pause, resume and cancel.
 */
module JobLifetime {
  import opened Prelude
  import opened Transfer
  import opened History
  import opened Replication
  import opened ReplicationProofs

  const JOB_SLOTS := 16

  /** Where the body of a job stands: first the points of a sending body, then those of a receiving one.
      Each names what the body is about to do next. */
  datatype Point =
    | Preparing
    | Prepared
    | Linking
    | Offering
    | Answering
    | Refused
    | Granted
    | Sending
    | Sent
    | Unlisted
    | Deciding
    | Approved
    | Declined
    | OutOfSpace
    | Authorizing
    | Receiving
    | Received

  datatype Stage = At(point: Point) | Broken(cancelled: bool) | Ended

  datatype Job = Job(id: string, stage: Stage)

  /** `known` holds every transfer id used so far. */
  datatype State = State(transfers: seq<View>, jobs: seq<Job>, known: set<string>)

  datatype Step =
    | StartSend(view: View)
    | StartReceive(id: string)
    | List(job: nat, view: View)
    | Report(job: nat, fileId: nat, bytes: nat, now: int)
    | NoSpace(job: nat, message: string, now: int)
    | Body(job: nat, edit: Edit)
    | Break(job: nat, cancelled: bool)
    | Succeed(job: nat)
    | Handle(job: nat, message: string, now: int)
    | Release(job: nat)
    | User(id: string, status: Status, now: int)

  predicate JobAt(s: State, k: nat, stage: Stage) {
    k < |s.jobs| && s.jobs[k].stage == stage
  }

  predicate Listed(s: State, id: string) {
    exists i :: 0 <= i < |s.transfers| && s.transfers[i].id == id
  }

  /** The mutation that a body makes at a point, and the point after it. */
  function Continue(point: Point, edit: Edit): Option<Point> {
    match edit
    case Reset => if point.Preparing? then Some(Prepared) else None
    case Preview(_) => if point.Linking? then Some(Offering) else None
    case Locate(_, _, _) => if point.Receiving? then Some(Receiving) else None
    case Fail(_, _) => None
    case Move(next, _) =>
      match point
      case Prepared => if next.Connecting? then Some(Linking) else None
      case Offering => if next.AwaitingApproval? then Some(Answering) else None
      case Answering =>
        if next.Connecting? then Some(Granted) else if next.Cancelled? || next.Rejected? then Some(Refused) else None
      case Granted => if next.Transferring? then Some(Sending) else None
      case Sending => if next.Completed? then Some(Sent) else None
      case Deciding =>
        if next.Connecting? then Some(Authorizing)
        else if next.Cancelled? || next.Rejected? then Some(Declined) else None
      case Approved => if next.Transferring? then Some(Receiving) else None
      case Authorizing => if next.Transferring? then Some(Receiving) else None
      case Receiving => if next.Completed? then Some(Received) else None
      case _ => None
  }

  /** The points at which a body returns Ok. */
  predicate Returns(point: Point) {
    point.Sent? || point.Declined? || point.OutOfSpace? || point.Received?
  }

  /** The points at which files are sent or received, with progress reports. */
  predicate Reports(point: Point) {
    point.Sending? || point.Receiving?
  }

  /** A slot is taken before an id is chosen; a user reaches a transfer through its id. */
  predicate Enabled(s: State, step: Step) {
    match step
    case StartSend(v) => |s.jobs| < JOB_SLOTS && v.id !in s.known && v.status.Preparing?
    case StartReceive(id) => |s.jobs| < JOB_SLOTS && id !in s.known
    case List(k, v) =>
      && JobAt(s, k, At(Unlisted)) && v.id == s.jobs[k].id && !Listed(s, v.id)
      && (v.status.AwaitingApproval? || v.status.Connecting?)
    case Report(k, fileId, bytes, now) =>
      k < |s.jobs| && s.jobs[k].stage.At? && Reports(s.jobs[k].stage.point)
    case NoSpace(k, message, now) => JobAt(s, k, At(Deciding)) || JobAt(s, k, At(Approved))
    case Body(k, edit) => k < |s.jobs| && s.jobs[k].stage.At? && Continue(s.jobs[k].stage.point, edit).Some?
    case Break(k, cancelled) => k < |s.jobs| && s.jobs[k].stage.At?
    case Succeed(k) => k < |s.jobs| && s.jobs[k].stage.At? && Returns(s.jobs[k].stage.point)
    case Handle(k, message, now) => k < |s.jobs| && s.jobs[k].stage.Broken?
    case Release(k) => JobAt(s, k, Ended)
    case User(id, status, now) => status in {Paused, Transferring, Status.Cancelled}
  }

  /** A mutation of the listed transfer; None when it is not found or refused. */
  function Edited(ts: seq<View>, id: string, edit: Edit): Option<seq<View>> {
    match FindIndex(ts, id)
    case None => None
    case Some(i) =>
      match ApplyEdit(ts[i], edit)
      case Ok(v) => Some(Prune(ts[i := v]))
      case Err(_) => None
  }

  function Tried(ts: seq<View>, id: string, edit: Edit): seq<View> {
    match Edited(ts, id, edit) case Some(us) => us case None => ts
  }

  /** A progress report; None when it is refused. */
  function Reported(ts: seq<View>, id: string, fileId: nat, bytes: nat, now: int): Option<seq<View>> {
    match FindIndex(ts, id)
    case None => None
    case Some(i) =>
      match Progressed(ts[i], fileId, bytes, now)
      case Ok((v, _)) => Some(ts[i := v])
      case Err(_) => None
  }

  function SetStage(s: State, k: nat, stage: Stage): State
    requires k < |s.jobs|
  {
    s.(jobs := s.jobs[k := s.jobs[k].(stage := stage)])
  }

  predicate Closes(edit: Edit) {
    edit.Fail? || (edit.Move? && edit.next.Terminal())
  }

  function Next(s: State, step: Step): State
    requires Enabled(s, step)
  {
    match step
    case StartSend(v) =>
      State(Prune([v] + s.transfers), s.jobs + [Job(v.id, At(Point.Preparing))], s.known + {v.id})
    case StartReceive(id) =>
      s.(jobs := s.jobs + [Job(id, At(Unlisted))], known := s.known + {id})
    case List(k, v) =>
      SetStage(s, k, At(if v.status.Connecting? then Approved else Deciding)).(transfers := Prune([v] + s.transfers))
    case Report(k, fileId, bytes, now) =>
      (match Reported(s.transfers, s.jobs[k].id, fileId, bytes, now)
       case Some(us) => s.(transfers := us)
       case None => SetStage(s, k, Broken(false)))
    case NoSpace(k, message, now) =>
      SetStage(s, k, At(OutOfSpace)).(transfers := Tried(s.transfers, s.jobs[k].id, Fail(message, now)))
    case Body(k, edit) =>
      (match Edited(s.transfers, s.jobs[k].id, edit)
       case Some(us) => SetStage(s, k, At(Continue(s.jobs[k].stage.point, edit).value)).(transfers := us)
       case None => SetStage(s, k, Broken(false)))
    case Break(k, cancelled) => SetStage(s, k, Broken(cancelled))
    case Succeed(k) => SetStage(s, k, Ended)
    case Handle(k, message, now) =>
      var edit := if s.jobs[k].stage.cancelled then Move(Status.Cancelled, now) else Fail(message, now);
      SetStage(s, k, Ended).(transfers := Tried(s.transfers, s.jobs[k].id, edit))
    case Release(k) => s.(jobs := s.jobs[..k] + s.jobs[k + 1..])
    case User(id, status, now) => s.(transfers := Tried(s.transfers, id, Move(status, now)))
  }

  predicate Legal(s: State, steps: seq<Step>)
    decreases |steps|
  {
    steps == [] || (Enabled(s, steps[0]) && Legal(Next(s, steps[0]), steps[1..]))
  }

  function After(s: State, steps: seq<Step>): State
    requires Legal(s, steps)
    decreases |steps|
  {
    if steps == [] then s else After(Next(s, steps[0]), steps[1..])
  }

  // ----- the invariant -----

  /** The job has yet to end its transfer, in its body or by handling its failure. */
  predicate Working(stage: Stage) {
    stage.Broken? || (stage.At? && !Returns(stage.point))
  }

  ghost predicate Worked(jobs: seq<Job>, id: string) {
    exists k :: 0 <= k < |jobs| && jobs[k].id == id && Working(jobs[k].stage)
  }

  /** Every active transfer belongs to a job that has yet to end it. */
  ghost predicate Owned(v: View, jobs: seq<Job>) {
    v.status.Terminal() || Worked(jobs, v.id)
  }

  ghost predicate UniqueJobs(jobs: seq<Job>) {
    forall i, j :: 0 <= i < j < |jobs| ==> jobs[i].id != jobs[j].id
  }

  ghost predicate Inv(s: State) {
    && UniqueIds(s.transfers) && UniqueJobs(s.jobs)
    && (forall v :: v in s.transfers ==> v.id in s.known && Owned(v, s.jobs))
    && (forall k :: 0 <= k < |s.jobs| ==> s.jobs[k].id in s.known)
    && |s.jobs| <= JOB_SLOTS
    && |Terminals(s.transfers)| <= MAX_TERMINAL_HISTORY
  }

  lemma PruneBounds(ts: seq<View>)
    requires UniqueIds(ts)
    ensures UniqueIds(Prune(ts)) && |Terminals(Prune(ts))| <= MAX_TERMINAL_HISTORY
    ensures forall v :: v in Prune(ts) ==> v in ts
  {
    PruneMembers(ts, 0);
    PruneKeeps(ts, 0);
  }

  lemma StatusAfterEdit(v: View, edit: Edit)
    requires ApplyEdit(v, edit).Ok?
    ensures ApplyEdit(v, edit).value.id == v.id
    ensures v.status.Terminal() ==> ApplyEdit(v, edit).value.status.Terminal()
    ensures Closes(edit) ==> ApplyEdit(v, edit).value.status.Terminal()
  {
  }

  /** An edit keeps ids and terminal states, and a closing edit ends its transfer. */
  lemma EditedShape(ts: seq<View>, id: string, edit: Edit)
    requires UniqueIds(ts) && Edited(ts, id, edit).Some?
    ensures var us := Edited(ts, id, edit).value;
            && UniqueIds(us) && |Terminals(us)| <= MAX_TERMINAL_HISTORY
            && forall w :: w in us ==>
                 (w in ts && w.id != id)
                 || (&& w.id == id
                     && (Closes(edit) ==> w.status.Terminal())
                     && exists v :: v in ts && v.id == id && (v.status.Terminal() ==> w.status.Terminal()))
  {
    var i := FindIndex(ts, id).value;
    var v := ApplyEdit(ts[i], edit).value;
    StatusAfterEdit(ts[i], edit);
    var us := ts[i := v];
    assert forall k :: 0 <= k < |us| ==> us[k].id == ts[k].id;
    PruneBounds(us);
    forall w | w in Prune(us) && !(w in ts && w.id != id)
      ensures w.id == id && (Closes(edit) ==> w.status.Terminal())
      ensures exists v :: v in ts && v.id == id && (v.status.Terminal() ==> w.status.Terminal())
    {
      var k :| 0 <= k < |us| && us[k] == w;
      assert k == i;
      assert ts[i] in ts;
    }
  }

  /** What the handling of a failed body makes of its transfer, if it is still listed and was active: failed
      with the body's message, or cancelled. */
  lemma HandlingRecords(ts: seq<View>, id: string, edit: Edit)
    requires UniqueIds(ts) && Lookup(ts, id).Some? && !Lookup(ts, id).value.status.Terminal()
    requires edit.Fail? || (edit.Move? && edit.next.Cancelled?)
    ensures var w := Lookup(Tried(ts, id, edit), id);
            w.Some? ==>
              w.value.status == (if edit.Fail? then Failed else Status.Cancelled)
              && (edit.Fail? ==> w.value.error == Some(edit.message))
  {
    var i := FindIndex(ts, id).value;
    FailEnds(ts[i], "", 0);
    RefusedEdits(ts[i], edit);
    if edit.Fail? {
      FailEnds(ts[i], edit.message, edit.now);
    }
    var us := ts[i := ApplyEdit(ts[i], edit).value];
    assert forall k :: 0 <= k < |us| ==> us[k].id == ts[k].id;
    LookupAfterPrune(us, id);
    LookupAfterSet(ts, i, us[i], id);
  }

  /** `Move(Cancelled)` is refused only to a transfer that is terminal already. */
  lemma HandlingEnds(ts: seq<View>, id: string, edit: Edit)
    requires UniqueIds(ts) && (edit.Fail? || (edit.Move? && edit.next.Cancelled?))
    requires |Terminals(ts)| <= MAX_TERMINAL_HISTORY
    ensures var us := Tried(ts, id, edit);
            && UniqueIds(us) && |Terminals(us)| <= MAX_TERMINAL_HISTORY
            && forall w :: w in us ==>
                 || (w in ts && w.id != id)
                 || (w.id == id && w.status.Terminal() && exists v :: v in ts && v.id == id)
  {
    if Edited(ts, id, edit).Some? {
      EditedShape(ts, id, edit);
    } else {
      forall w | w in ts && w.id == id ensures w.status.Terminal() {
        var k :| 0 <= k < |ts| && ts[k] == w;
        FindAt(ts, k);
      }
    }
  }

  // ----- every step keeps it -----

  /** Changing the stage of job `k` leaves the other jobs alone, and job `k` at work if it stays so. */
  lemma StageKeepsWorked(s: State, k: nat, stage: Stage, id: string)
    requires k < |s.jobs| && Worked(s.jobs, id)
    requires id != s.jobs[k].id || Working(stage)
    ensures Worked(SetStage(s, k, stage).jobs, id)
  {
    var m :| 0 <= m < |s.jobs| && s.jobs[m].id == id && Working(s.jobs[m].stage);
    assert SetStage(s, k, stage).jobs[m].id == id;
  }

  lemma StageKeepsInv(s: State, k: nat, stage: Stage)
    requires Inv(s) && k < |s.jobs|
    requires Working(stage) || !Working(s.jobs[k].stage)
    ensures Inv(SetStage(s, k, stage))
  {
    var z := SetStage(s, k, stage);
    forall w | w in z.transfers ensures Owned(w, z.jobs) {
      assert Owned(w, s.jobs);
      if !w.status.Terminal() {
        StageKeepsWorked(s, k, stage, w.id);
      }
    }
  }

  lemma ListingKeeps(s: State, v: View, jobs: seq<Job>)
    requires Inv(s) && UniqueJobs(jobs) && |jobs| <= JOB_SLOTS
    requires forall id :: Worked(s.jobs, id) ==> Worked(jobs, id)
    requires forall i :: 0 <= i < |s.transfers| ==> s.transfers[i].id != v.id
    requires forall k :: 0 <= k < |jobs| ==> jobs[k].id in s.known + {v.id}
    requires Worked(jobs, v.id)
    ensures Inv(State(Prune([v] + s.transfers), jobs, s.known + {v.id}))
  {
    var us := [v] + s.transfers;
    PruneBounds(us);
    forall w | w in Prune(us) ensures w.id in s.known + {v.id} && Owned(w, jobs) {
      assert w == v || w in s.transfers;
      assert w in s.transfers ==> Owned(w, s.jobs);
    }
  }

  lemma StartSendKeepsInv(s: State, v: View)
    requires Inv(s) && Enabled(s, StartSend(v))
    ensures Inv(Next(s, StartSend(v)))
  {
    var jobs := s.jobs + [Job(v.id, At(Point.Preparing))];
    forall i | 0 <= i < |s.transfers| ensures s.transfers[i].id != v.id {
      assert s.transfers[i] in s.transfers;
    }
    MoreJobs(s.jobs, Job(v.id, At(Point.Preparing)));
    assert jobs[|s.jobs|].id == v.id;
    ListingKeeps(s, v, jobs);
  }

  lemma MoreJobs(jobs: seq<Job>, job: Job)
    ensures forall id :: Worked(jobs, id) ==> Worked(jobs + [job], id)
  {
    forall id | Worked(jobs, id) ensures Worked(jobs + [job], id) {
      var k :| 0 <= k < |jobs| && jobs[k].id == id && Working(jobs[k].stage);
      assert (jobs + [job])[k] == jobs[k];
    }
  }

  lemma StartReceiveKeepsInv(s: State, id: string)
    requires Inv(s) && Enabled(s, StartReceive(id))
    ensures Inv(Next(s, StartReceive(id)))
  {
    MoreJobs(s.jobs, Job(id, At(Unlisted)));
    forall w | w in s.transfers ensures Owned(w, Next(s, StartReceive(id)).jobs) {
      assert Owned(w, s.jobs);
    }
  }

  lemma ListKeepsInv(s: State, k: nat, v: View)
    requires Inv(s) && Enabled(s, List(k, v))
    ensures Inv(Next(s, List(k, v)))
  {
    var z := Next(s, List(k, v));
    forall id | Worked(s.jobs, id) ensures Worked(z.jobs, id) {
      StageKeepsWorked(s, k, z.jobs[k].stage, id);
    }
    assert z.jobs[k].id == v.id && s.known + {v.id} == s.known;
    ListingKeeps(s, v, z.jobs);
  }

  /** A step that rewrites only the transfer of job `k`, which is terminal then or still worked on. */
  lemma OwnTransferKeeps(s: State, k: nat, stage: Stage, us: seq<View>)
    requires Inv(s) && k < |s.jobs| && UniqueIds(us) && |Terminals(us)| <= MAX_TERMINAL_HISTORY
    requires forall w :: w in us ==>
      || (w in s.transfers && w.id != s.jobs[k].id)
      || (w.id == s.jobs[k].id && (w.status.Terminal() || Working(stage)))
    ensures Inv(SetStage(s, k, stage).(transfers := us))
  {
    var z := SetStage(s, k, stage).(transfers := us);
    forall w | w in us ensures w.id in z.known && Owned(w, z.jobs) {
      if w in s.transfers && w.id != s.jobs[k].id {
        assert Owned(w, s.jobs);
        if !w.status.Terminal() {
          StageKeepsWorked(s, k, stage, w.id);
        }
      } else {
        assert z.jobs[k].id == w.id;
      }
    }
  }

  /** A body goes to a point where it returns Ok only by a mutation that ends its transfer. */
  lemma ReturningCloses(point: Point, edit: Edit)
    requires Continue(point, edit).Some? && Returns(Continue(point, edit).value)
    ensures Closes(edit)
  {
  }

  lemma BodyKeepsInv(s: State, k: nat, edit: Edit)
    requires Inv(s) && Enabled(s, Body(k, edit))
    ensures Inv(Next(s, Body(k, edit)))
  {
    var id, next := s.jobs[k].id, Continue(s.jobs[k].stage.point, edit).value;
    match Edited(s.transfers, id, edit) {
      case None => StageKeepsInv(s, k, Broken(false));
      case Some(us) =>
        EditedShape(s.transfers, id, edit);
        if Returns(next) {
          ReturningCloses(s.jobs[k].stage.point, edit);
        }
        OwnTransferKeeps(s, k, At(next), us);
    }
  }

  lemma ReportedShape(ts: seq<View>, id: string, fileId: nat, bytes: nat, now: int)
    requires UniqueIds(ts) && Reported(ts, id, fileId, bytes, now).Some?
    ensures var us := Reported(ts, id, fileId, bytes, now).value;
            && UniqueIds(us) && |Terminals(us)| == |Terminals(ts)|
            && forall w :: w in us ==> (w in ts && w.id != id) || w.id == id
  {
    var i := FindIndex(ts, id).value;
    var v := Progressed(ts[i], fileId, bytes, now).value.0;
    var us := ts[i := v];
    assert forall k :: 0 <= k < |us| ==> us[k].id == ts[k].id;
    TerminalsAfterSet(ts, i, v);
    forall w | w in us && w.id != id ensures w in ts {
      var k :| 0 <= k < |us| && us[k] == w;
      assert ts[k] == w;
    }
  }

  lemma {:induction false} TerminalsAfterSet(ts: seq<View>, i: nat, v: View)
    requires i < |ts| && v.status == ts[i].status
    ensures |Terminals(ts[i := v])| == |Terminals(ts)|
  {
    if i > 0 {
      TerminalsAfterSet(ts[1..], i - 1, v);
      assert ts[i := v][1..] == ts[1..][i - 1 := v];
    } else {
      assert ts[i := v][1..] == ts[1..];
    }
  }

  lemma ReportKeepsInv(s: State, k: nat, fileId: nat, bytes: nat, now: int)
    requires Inv(s) && Enabled(s, Step.Report(k, fileId, bytes, now))
    ensures Inv(Next(s, Step.Report(k, fileId, bytes, now)))
  {
    var id := s.jobs[k].id;
    match Reported(s.transfers, id, fileId, bytes, now) {
      case None => StageKeepsInv(s, k, Broken(false));
      case Some(us) =>
        ReportedShape(s.transfers, id, fileId, bytes, now);
        OwnTransferKeeps(s, k, s.jobs[k].stage, us);
        assert SetStage(s, k, s.jobs[k].stage).jobs == s.jobs;
    }
  }

  lemma HandleKeepsInv(s: State, k: nat, edit: Edit, stage: Stage)
    requires Inv(s) && k < |s.jobs| && (edit.Fail? || (edit.Move? && edit.next.Cancelled?))
    ensures Inv(SetStage(s, k, stage).(transfers := Tried(s.transfers, s.jobs[k].id, edit)))
  {
    HandlingEnds(s.transfers, s.jobs[k].id, edit);
    OwnTransferKeeps(s, k, stage, Tried(s.transfers, s.jobs[k].id, edit));
  }

  lemma UserKeepsInv(s: State, step: Step)
    requires Inv(s) && Enabled(s, step) && step.User?
    ensures Inv(Next(s, step))
  {
    var edit := Move(step.status, step.now);
    if Edited(s.transfers, step.id, edit).Some? {
      EditedShape(s.transfers, step.id, edit);
      forall w | w in Next(s, step).transfers ensures w.id in s.known && Owned(w, s.jobs) {
        if !(w in s.transfers && w.id != step.id) {
          var v :| v in s.transfers && v.id == step.id && (v.status.Terminal() ==> w.status.Terminal());
          assert Owned(v, s.jobs);
        }
      }
    }
  }

  lemma WithoutJob(jobs: seq<Job>, k: nat)
    requires k < |jobs| && UniqueJobs(jobs) && !Working(jobs[k].stage)
    ensures var rest := jobs[..k] + jobs[k + 1..];
            && UniqueJobs(rest)
            && (forall id :: Worked(jobs, id) ==> Worked(rest, id))
            && (forall job :: job in rest ==> job in jobs)
  {
    var rest := jobs[..k] + jobs[k + 1..];
    forall id | Worked(jobs, id) ensures Worked(rest, id) {
      var m :| 0 <= m < |jobs| && jobs[m].id == id && Working(jobs[m].stage);
      assert rest[if m < k then m else m - 1] == jobs[m];
    }
    forall i, j | 0 <= i < j < |rest| ensures rest[i].id != rest[j].id {
      assert rest[i] == jobs[if i < k then i else i + 1] && rest[j] == jobs[if j < k then j else j + 1];
    }
  }

  lemma ReleaseKeepsInv(s: State, k: nat)
    requires Inv(s) && JobAt(s, k, Ended)
    ensures Inv(Next(s, Release(k)))
  {
    WithoutJob(s.jobs, k);
    var z := Next(s, Release(k));
    forall w | w in s.transfers ensures Owned(w, z.jobs) {
      assert Owned(w, s.jobs);
    }
    forall m | 0 <= m < |z.jobs| ensures z.jobs[m].id in z.known {
      assert z.jobs[m] in s.jobs;
    }
  }

  lemma StepKeepsInv(s: State, step: Step)
    requires Inv(s) && Enabled(s, step)
    ensures Inv(Next(s, step))
  {
    match step {
      case StartSend(v) => StartSendKeepsInv(s, v);
      case StartReceive(id) => StartReceiveKeepsInv(s, id);
      case List(k, v) => ListKeepsInv(s, k, v);
      case Report(k, fileId, bytes, now) => ReportKeepsInv(s, k, fileId, bytes, now);
      case NoSpace(k, message, now) => HandleKeepsInv(s, k, Fail(message, now), At(OutOfSpace));
      case Body(k, edit) => BodyKeepsInv(s, k, edit);
      case Break(k, cancelled) => StageKeepsInv(s, k, Broken(cancelled));
      case Succeed(k) => StageKeepsInv(s, k, Ended);
      case Handle(k, message, now) =>
        var edit := if s.jobs[k].stage.cancelled then Move(Status.Cancelled, now) else Fail(message, now);
        HandleKeepsInv(s, k, edit, Ended);
      case Release(k) => ReleaseKeepsInv(s, k);
      case User(_, _, _) => UserKeepsInv(s, step);
    }
  }

  lemma {:induction false} RunKeepsInv(s: State, steps: seq<Step>)
    requires Inv(s) && Legal(s, steps)
    ensures Inv(After(s, steps))
    decreases |steps|
  {
    if steps != [] {
      StepKeepsInv(s, steps[0]);
      RunKeepsInv(Next(s, steps[0]), steps[1..]);
    }
  }

  // ----- the ways of the bodies -----

  /** How each point of a body is reached: the mutation before it, and the points before that. */
  lemma HowPointsAreReached(point: Point, edit: Edit)
    ensures Continue(point, edit) == Some(Prepared) <==> point.Preparing? && edit.Reset?
    ensures Continue(point, edit) == Some(Linking) <==> point.Prepared? && edit.Move? && edit.next.Connecting?
    ensures Continue(point, edit) == Some(Offering) <==> point.Linking? && edit.Preview?
    ensures Continue(point, edit) == Some(Answering) <==> point.Offering? && edit.Move? && edit.next.AwaitingApproval?
    ensures Continue(point, edit) == Some(Granted) <==> point.Answering? && edit.Move? && edit.next.Connecting?
    ensures Continue(point, edit) == Some(Refused) <==>
            point.Answering? && edit.Move? && (edit.next.Cancelled? || edit.next.Rejected?)
    ensures Continue(point, edit) == Some(Sending) <==> point.Granted? && edit.Move? && edit.next.Transferring?
    ensures Continue(point, edit) == Some(Sent) <==> point.Sending? && edit.Move? && edit.next.Completed?
    ensures Continue(point, edit) == Some(Authorizing) <==> point.Deciding? && edit.Move? && edit.next.Connecting?
    ensures Continue(point, edit) == Some(Declined) <==>
            point.Deciding? && edit.Move? && (edit.next.Cancelled? || edit.next.Rejected?)
    ensures Continue(point, edit) == Some(Receiving) <==>
            || ((point.Approved? || point.Authorizing?) && edit.Move? && edit.next.Transferring?)
            || (point.Receiving? && edit.Locate?)
    ensures Continue(point, edit) == Some(Received) <==> point.Receiving? && edit.Move? && edit.next.Completed?
    ensures Continue(point, edit) !in
            {Some(Point.Preparing), Some(Unlisted), Some(Deciding), Some(Approved), Some(OutOfSpace)}
  {
  }

  // ----- what single steps achieve -----

  /** A broken body is remembered with whether it was cancelled, and only that decides how it is handled. */
  lemma BreakIsRemembered(s: State, k: nat, cancelled: bool)
    requires Enabled(s, Break(k, cancelled))
    ensures var z := Next(s, Break(k, cancelled));
            z == s.(jobs := z.jobs) && |z.jobs| == |s.jobs| && z.jobs[k] == Job(s.jobs[k].id, Broken(cancelled))
            && forall m :: 0 <= m < |s.jobs| && m != k ==> z.jobs[m] == s.jobs[m]
  {
  }

  /** A body that returned Ok has ended, and nothing else happens. */
  lemma SuccessEnds(s: State, k: nat)
    requires Enabled(s, Succeed(k))
    ensures var z := Next(s, Succeed(k));
            && z == s.(jobs := z.jobs) && |z.jobs| == |s.jobs| && z.jobs[k] == Job(s.jobs[k].id, Ended)
            && forall m :: 0 <= m < |s.jobs| && m != k ==> z.jobs[m] == s.jobs[m]
  {
  }

  /** A body's accepted mutation is applied to its transfer and takes the body on; a refused one, or one of
      a transfer that is not listed, breaks the body and changes no transfer. */
  lemma BodiesAdvance(s: State, k: nat, edit: Edit)
    requires Inv(s) && Enabled(s, Body(k, edit))
    ensures var z, v := Next(s, Body(k, edit)), Lookup(s.transfers, s.jobs[k].id);
            && |z.jobs| == |s.jobs| && z.jobs[k].id == s.jobs[k].id && z.known == s.known
            && if v.Some? && ApplyEdit(v.value, edit).Ok? then
                 && z.jobs[k].stage == At(Continue(s.jobs[k].stage.point, edit).value)
                 && var w := Lookup(z.transfers, s.jobs[k].id);
                    w.Some? ==> w.value == ApplyEdit(v.value, edit).value
               else z.transfers == s.transfers && z.jobs[k].stage == Broken(false)
  {
    var id := s.jobs[k].id;
    if Edited(s.transfers, id, edit).Some? {
      var i := FindIndex(s.transfers, id).value;
      var us := s.transfers[i := ApplyEdit(s.transfers[i], edit).value];
      assert us[i].id == id;
      assert forall m :: 0 <= m < |us| ==> us[m].id == s.transfers[m].id;
      LookupAfterPrune(us, id);
      LookupAfterSet(s.transfers, i, us[i], id);
    }
  }

  /** An incoming offer takes a slot for a new id before anything is listed. */
  lemma ReceivesTakeASlot(s: State, id: string)
    requires Enabled(s, StartReceive(id))
    ensures var z := Next(s, StartReceive(id));
            && z.transfers == s.transfers && z.known == s.known + {id}
            && |z.jobs| == |s.jobs| + 1 && z.jobs[..|s.jobs|] == s.jobs && z.jobs[|s.jobs|] == Job(id, At(Unlisted))
  {
  }

  /** A released job gives its slot back and no other job is touched. */
  lemma ReleaseFreesTheSlot(s: State, k: nat)
    requires Enabled(s, Release(k))
    ensures var z := Next(s, Release(k));
            && z == s.(jobs := z.jobs) && |z.jobs| == |s.jobs| - 1
            && forall m :: 0 <= m < |s.jobs| && m != k ==> z.jobs[if m < k then m else m - 1] == s.jobs[m]
  {
  }

  /** A listed receive is listed first, and asks the user unless it is automatic. */
  lemma ReceivesAreListed(s: State, k: nat, v: View)
    requires Enabled(s, List(k, v))
    ensures var z := Next(s, List(k, v));
            && z.transfers == [v] + Prune(s.transfers) && |z.jobs| == |s.jobs|
            && z.jobs[k] == Job(v.id, At(if v.status.AwaitingApproval? then Deciding else Approved))
            && forall m :: 0 <= m < |s.jobs| && m != k ==> z.jobs[m] == s.jobs[m]
  {
    assert ([v] + s.transfers)[1..] == s.transfers;
  }

  /** A report lands in its transfer if it is accepted, and breaks the body otherwise. */
  lemma ReportsLand(s: State, k: nat, fileId: nat, bytes: nat, now: int, x: string)
    requires Inv(s) && Enabled(s, Step.Report(k, fileId, bytes, now))
    ensures var z, v := Next(s, Step.Report(k, fileId, bytes, now)), Lookup(s.transfers, s.jobs[k].id);
            if v.Some? && Progressed(v.value, fileId, bytes, now).Ok? then
              && z.jobs == s.jobs
              && Lookup(z.transfers, x)
                   == if x == s.jobs[k].id then Some(Progressed(v.value, fileId, bytes, now).value.0)
                      else Lookup(s.transfers, x)
            else z.transfers == s.transfers && |z.jobs| == |s.jobs| && z.jobs[k].stage == Broken(false)
  {
    var id := s.jobs[k].id;
    if Reported(s.transfers, id, fileId, bytes, now).Some? {
      var i := FindIndex(s.transfers, id).value;
      LookupAfterSet(s.transfers, i, Progressed(s.transfers[i], fileId, bytes, now).value.0, x);
    }
  }

  /** A job that failed or was cancelled leaves its active transfer, if it is still listed, as failed with
      its message or as cancelled. */
  lemma FailureIsRecorded(s: State, k: nat, message: string, now: int)
    requires Inv(s) && Enabled(s, Handle(k, message, now))
    requires Lookup(s.transfers, s.jobs[k].id).Some? && !Lookup(s.transfers, s.jobs[k].id).value.status.Terminal()
    ensures var w := Lookup(Next(s, Handle(k, message, now)).transfers, s.jobs[k].id);
            w.Some? ==>
              if s.jobs[k].stage.cancelled then w.value.status.Cancelled?
              else w.value.status.Failed? && w.value.error == Some(message)
    ensures JobAt(Next(s, Handle(k, message, now)), k, Ended)
  {
    HandlingRecords(s.transfers, s.jobs[k].id,
                    if s.jobs[k].stage.cancelled then Move(Status.Cancelled, now) else Fail(message, now));
  }

  /** Missing space ends the transfer as failed, and the body returns Ok. */
  lemma NoSpaceIsRecorded(s: State, k: nat, message: string, now: int)
    requires Inv(s) && Enabled(s, NoSpace(k, message, now))
    requires Lookup(s.transfers, s.jobs[k].id).Some? && !Lookup(s.transfers, s.jobs[k].id).value.status.Terminal()
    ensures var z := Next(s, NoSpace(k, message, now));
            var w := Lookup(z.transfers, s.jobs[k].id);
            && (w.Some? ==> w.value.status.Failed? && w.value.error == Some(message))
            && k < |z.jobs| && z.jobs[k].stage == At(OutOfSpace)
  {
    HandlingRecords(s.transfers, s.jobs[k].id, Fail(message, now));
  }

  /** A user's cancellation ends every active transfer, and a pause or resume acts exactly on one that the
      status machine lets be paused or resumed. */
  lemma UserActs(s: State, id: string, status: Status, now: int)
    requires Inv(s) && Enabled(s, User(id, status, now)) && Lookup(s.transfers, id).Some?
    ensures var v, w := Lookup(s.transfers, id).value, Lookup(Next(s, User(id, status, now)).transfers, id);
            && (w.Some? && status.Cancelled? && !v.status.Terminal() ==> w.value.status.Cancelled?)
            && (w.Some? && status.Paused? && v.status.Transferring? ==> w.value.status.Paused?)
            && (w.Some? && status.Transferring? && v.status.Paused? ==> w.value.status.Transferring?)
            && (v.status.Terminal() ==> w.Some? && w.value.status == v.status)
    ensures Next(s, User(id, status, now)).jobs == s.jobs
  {
    var edit := Move(status, now);
    var i := FindIndex(s.transfers, id).value;
    RefusedEdits(s.transfers[i], edit);
    if Edited(s.transfers, id, edit).Some? {
      var us := s.transfers[i := ApplyEdit(s.transfers[i], edit).value];
      assert forall k :: 0 <= k < |us| ==> us[k].id == s.transfers[k].id;
      LookupAfterPrune(us, id);
      LookupAfterSet(s.transfers, i, us[i], id);
      if s.transfers[i].status.Terminal() {
        TerminalsAfterSet(s.transfers, i, us[i]);
        PruneIdentity(us, 0);
      }
    }
  }

  /** A started job has its transfer listed first, and a slot of its own. */
  lemma StartsAreListed(s: State, v: View)
    requires Enabled(s, StartSend(v))
    ensures var z := Next(s, StartSend(v));
            && z.transfers == [v] + Prune(s.transfers) && |z.jobs| == |s.jobs| + 1 && z.jobs[..|s.jobs|] == s.jobs
            && z.jobs[|s.jobs|].id == v.id && Working(z.jobs[|s.jobs|].stage)
  {
    assert ([v] + s.transfers)[1..] == s.transfers;
  }

  // ----- the theorems -----

  /** A manager starts without jobs, from a history as `Load` returns it. */
  predicate StartsFrom(ts: seq<View>) {
    UniqueIds(ts) && |ts| <= MAX_TERMINAL_HISTORY && forall v :: v in ts ==> v.status.Terminal()
  }

  function Start(ts: seq<View>): State {
    State(ts, [], Ids(ts))
  }

  lemma StartInv(ts: seq<View>)
    requires StartsFrom(ts)
    ensures Inv(Start(ts))
  {
    AllTerminal(ts);
    forall v | v in ts ensures v.id in Ids(ts) {
      var i :| 0 <= i < |ts| && ts[i] == v;
    }
  }

  /** Job end means terminal: in every run, when a body has reached a point where it returns Ok, and
      when a job is ready to release its slot after success, refusal, error or cancellation, its
      transfer is terminal if it is still listed. */
  lemma JobEndMeansTerminal(ts: seq<View>, steps: seq<Step>, k: nat, v: View)
    requires StartsFrom(ts) && Legal(Start(ts), steps)
    requires var s := After(Start(ts), steps);
             && k < |s.jobs| && !Working(s.jobs[k].stage) && v in s.transfers && v.id == s.jobs[k].id
    ensures v.status.Terminal()
  {
    StartInv(ts);
    RunKeepsInv(Start(ts), steps);
    var s := After(Start(ts), steps);
    assert Owned(v, s.jobs);
  }

  ghost function JobIds(jobs: seq<Job>): set<string> {
    set k | 0 <= k < |jobs| :: jobs[k].id
  }

  lemma {:induction false} JobIdsBound(jobs: seq<Job>)
    ensures |JobIds(jobs)| <= |jobs|
  {
    if jobs != [] {
      var last := |jobs| - 1;
      JobIdsBound(jobs[..last]);
      assert JobIds(jobs) == JobIds(jobs[..last]) + {jobs[last].id};
    }
  }

  lemma {:induction false} ActivesBound(ts: seq<View>, ids: set<string>)
    requires UniqueIds(ts)
    requires forall v :: v in ts && !v.status.Terminal() ==> v.id in ids
    ensures |Actives(ts)| <= |ids|
  {
    if ts != [] {
      if ts[0].status.Terminal() {
        ActivesBound(ts[1..], ids);
      } else {
        forall v | v in ts[1..] ensures v.id != ts[0].id {
          var k :| 0 <= k < |ts[1..]| && ts[1..][k] == v;
          assert ts[k + 1] == v;
        }
        ActivesBound(ts[1..], ids - {ts[0].id});
      }
    }
  }

  /** Bounded lists: in every run at most 16 transfers are active and at most 216 are listed. */
  lemma ListsAreBounded(ts: seq<View>, steps: seq<Step>)
    requires StartsFrom(ts) && Legal(Start(ts), steps)
    ensures var s := After(Start(ts), steps);
            |s.jobs| <= 16 && |Actives(s.transfers)| <= 16 && |s.transfers| <= 216
  {
    StartInv(ts);
    RunKeepsInv(Start(ts), steps);
    var s := After(Start(ts), steps);
    JobIdsBound(s.jobs);
    forall v | v in s.transfers && !v.status.Terminal() ensures v.id in JobIds(s.jobs) {
      assert Owned(v, s.jobs);
    }
    ActivesBound(s.transfers, JobIds(s.jobs));
    SplitLength(s.transfers);
  }
}
