/** When progress is broadcast, and what may be held back. */
module ReplicationEmission {
  import opened Prelude
  import opened Transfer
  import opened History
  import opened Replication
  import opened ReplicationProofs

  /** The file is listed and has all of its bytes. */
  predicate IsFull(ts: seq<View>, id: string, fileId: nat) {
    match Lookup(ts, id)
    case None => false
    case Some(v) =>
      match IndexedLookup(v.files, fileId)
      case None => false
      case Some(i) => v.files[i].completed == v.files[i].size
  }

  /** Exactly when an accepted report emits a delta: when the throttling interval is over, when the
      transfer has not emitted since it was listed or since its emission was forgotten, or when the file
      is full now. Then nothing of the transfer stays dirty; otherwise the report is added to what is. */
  lemma EmitsIff(s: Server, id: string, fileId: nat, bytes: nat, speed: nat, now: int, due: bool)
    requires RecordLive(s, id, fileId, bytes, speed, now, due).Ok?
    ensures var n := RecordLive(s, id, fileId, bytes, speed, now, due).value;
            var emits := due || id !in s.emissions || !s.emissions[id].emitted || IsFull(n.transfers, id, fileId);
            && |n.log| == (if emits then |s.log| + 1 else |s.log|)
            && n.revision == (if emits then s.revision + 1 else s.revision)
            && Dirty(n, id) == (if emits then map[] else Dirty(s, id)[fileId := bytes])
            && (emits ==> n.log[|s.log|].files == Dirty(s, id)[fileId := bytes])
            && (id in n.emissions && (emits ==> n.emissions[id].emitted))
  {
    var n, r := RecordShape(s, id, fileId, bytes, speed, now, due);
    FullAfterReport(s, n, r);
    GuardOfReport(s, id, fileId, bytes, speed, now, due);
  }

  /** The guard of the code: the file is finished, the last emission is not known, or it is due. */
  lemma GuardOfReport(s: Server, id: string, fileId: nat, bytes: nat, speed: nat, now: int, due: bool)
    requires RecordLive(s, id, fileId, bytes, speed, now, due).Ok?
    ensures var n, i := RecordLive(s, id, fileId, bytes, speed, now, due).value, FindIndex(s.transfers, id);
            && i.Some? && Progressed(s.transfers[i.value], fileId, bytes, now).Ok?
            && var finished := Progressed(s.transfers[i.value], fileId, bytes, now).value.1;
               && (|n.log| > |s.log| <==> finished || due || !(id in s.emissions && s.emissions[id].emitted))
               && id in n.emissions && (|n.log| > |s.log| ==> n.emissions[id].emitted)
  {
    hide Progressed, FindIndex;
  }

  lemma FullAfterReport(s: Server, n: Server, r: Report)
    requires Recorded(s, n, r)
    ensures IsFull(n.transfers, r.id, r.fileId) <==> r.bytes == s.transfers[r.i].files[r.j].size
  {
    LookupAfterSet(s.transfers, r.i, n.transfers[r.i], r.id);
    SamePosition(s.transfers[r.i].files, n.transfers[r.i].files, r.fileId);
  }

  /** The totals that a report leaves: the time and speed it was given, and at that speed the whole
      seconds until the missing bytes are there. */
  lemma TotalsAfterReport(s: Server, id: string, fileId: nat, bytes: nat, speed: nat, now: int, due: bool)
    requires RecordLive(s, id, fileId, bytes, speed, now, due).Ok?
    ensures var v := Lookup(RecordLive(s, id, fileId, bytes, speed, now, due).value.transfers, id);
            && v.Some? && v.value.updatedAt == now && v.value.speed == speed
            && (v.value.remaining.None? <==> speed == 0)
            && (v.value.remaining.Some? && v.value.completed <= v.value.total ==>
                 var seconds, missing := v.value.remaining.value, v.value.total - v.value.completed;
                 seconds * speed <= missing < (seconds + 1) * speed)
  {
    var n, r := RecordShape(s, id, fileId, bytes, speed, now, due);
    LookupAfterSet(s.transfers, r.i, n.transfers[r.i], id);
  }

  // ----- what is held back is unfinished -----

  /** No dirty file of a listed transfer is full. */
  ghost predicate HeldBack(s: Server) {
    forall id, f :: Lookup(s.transfers, id).Some? && f in Dirty(s, id) ==> !IsFull(s.transfers, id, f)
  }

  /** The same files are full. */
  ghost predicate SameFull(ts: seq<View>, us: seq<View>, id: string) {
    forall f :: IsFull(ts, id, f) ==> IsFull(us, id, f)
  }

  lemma RecordHoldsBack(s: Server, id: string, fileId: nat, bytes: nat, speed: nat, now: int, due: bool, x: string,
                        f: nat)
    requires RecordLive(s, id, fileId, bytes, speed, now, due).Ok? && HeldBack(s)
    ensures var n := RecordLive(s, id, fileId, bytes, speed, now, due).value;
            Lookup(n.transfers, x).Some? && f in Dirty(n, x) ==> !IsFull(n.transfers, x, f)
  {
    var n, r := RecordShape(s, id, fileId, bytes, speed, now, due);
    EmitsIff(s, id, fileId, bytes, speed, now, due);
    LookupAfterSet(s.transfers, r.i, n.transfers[r.i], x);
    if x == id {
      var v, w := s.transfers[r.i], n.transfers[r.i];
      SamePosition(v.files, w.files, f);
      SamePosition(v.files, w.files, fileId);
    }
  }

  lemma EditKeepsFull(v: View, edit: Edit, f: nat)
    requires ApplyEdit(v, edit).Ok? && (edit.Reset? ==> NoProgress(v))
    ensures var w := ApplyEdit(v, edit).value;
            && (IndexedLookup(w.files, f) == IndexedLookup(v.files, f))
            && |w.files| == |v.files|
            && forall i :: 0 <= i < |v.files| ==>
                 w.files[i].completed == v.files[i].completed && w.files[i].size == v.files[i].size
  {
    SamePosition(v.files, ApplyEdit(v, edit).value.files, f);
  }

  lemma MutateHoldsBack(s: Server, t: Trace, id: string, edit: Edit, x: string, f: nat)
    requires ListInv(s, t) && Mutate(s, id, edit).Ok? && (edit.Reset? ==> id !in t.started)
    requires Lookup(Mutate(s, id, edit).value.transfers, x).Some?
    ensures Lookup(s.transfers, x).Some?
    ensures IsFull(Mutate(s, id, edit).value.transfers, x, f) ==> IsFull(s.transfers, x, f)
  {
    var i := FindIndex(s.transfers, id).value;
    var v := s.transfers[i];
    assert v in s.transfers && ViewInv(v, s, t);
    var w := ApplyEdit(v, edit).value;
    var us := s.transfers[i := w];
    assert forall k :: 0 <= k < |us| ==> us[k].id == s.transfers[k].id;
    LookupAfterPrune(us, x);
    LookupAfterSet(s.transfers, i, w, x);
    EditKeepsFull(v, edit, f);
  }

  lemma PushHoldsBack(s: Server, t: Trace, v: View, x: string, f: nat)
    requires ListInv(s, t) && v.id !in t.used && Lookup(Push(s, v).transfers, x).Some?
    ensures x != v.id ==> Lookup(Push(s, v).transfers, x) == Lookup(s.transfers, x)
    ensures x != v.id ==> IsFull(Push(s, v).transfers, x, f) == IsFull(s.transfers, x, f)
    ensures x == v.id ==> Dirty(s, x) == map[]
  {
    var us := [v] + s.transfers;
    forall i, j | 0 <= i < j < |us| ensures us[i].id != us[j].id {
      assert us[j] in s.transfers && ViewInv(us[j], s, t);
    }
    LookupAfterPrune(us, x);
    if x != v.id {
      LookupAfterCons(v, s.transfers, x);
    }
  }

  lemma StepHoldsBack(y: System, step: Step)
    requires Inv(y) && Enabled(y, step) && HeldBack(y.server)
    ensures HeldBack(Next(y, step).server)
  {
    hide RecordLive, Mutate, Push, IsFull, Dirty;
    var s, t, n := y.server, y.trace, ServerAfter(y.server, step);
    forall x, f | Lookup(n.transfers, x).Some? && f in Dirty(n, x) ensures !IsFull(n.transfers, x, f) {
      OneHeldBack(y, step, x, f);
    }
  }

  lemma OneHeldBack(y: System, step: Step, x: string, f: nat)
    requires Inv(y) && Enabled(y, step) && HeldBack(y.server)
    ensures var n := ServerAfter(y.server, step);
            Lookup(n.transfers, x).Some? && f in Dirty(n, x) ==> !IsFull(n.transfers, x, f)
  {
    hide RecordLive, IsFull;
    var s, t, n := y.server, y.trace, ServerAfter(y.server, step);
    if Lookup(n.transfers, x).Some? && f in Dirty(n, x) {
      match step {
        case DoRecord(id, fileId, bytes, speed, now, due) =>
          RecordHoldsBack(s, id, fileId, bytes, speed, now, due, x, f);
        case DoMutate(id, edit) => MutateHoldsBack(s, t, id, edit, x, f);
        case DoPush(v) => PushHoldsBack(s, t, v, x, f);
        case _ =>
      }
    }
  }

  lemma {:induction false} RunHoldsBack(y: System, steps: seq<Step>)
    requires Inv(y) && Legal(y, steps) && HeldBack(y.server)
    ensures HeldBack(After(y, steps).server)
    decreases |steps|
  {
    hide Enabled, Next, Inv, HeldBack;
    if steps != [] {
      StepKeepsInv(y, steps[0]);
      StepHoldsBack(y, steps[0]);
      RunHoldsBack(Next(y, steps[0]), steps[1..]);
    }
  }

  /** A full file is never held back: in every run, whatever is dirty for a listed transfer is a file
      that still misses bytes. So the last report of a transfer is always broadcast, and nothing of a
      transfer whose files are all full is dirty. */
  lemma FullFilesAreSent(ts: seq<View>, profile: int, steps: seq<Step>, id: string, fileId: nat)
    requires Startable(ts) && Legal(Start(ts, profile), steps)
    ensures var s := After(Start(ts, profile), steps).server;
            Lookup(s.transfers, id).Some? && fileId in Dirty(s, id) ==> !IsFull(s.transfers, id, fileId)
  {
    StartInv(ts, profile);
    RunHoldsBack(Start(ts, profile), steps);
  }

  /** Right after a report that fills its file, nothing of the transfer is dirty, and the newest delta
      carries that file with all of its bytes. */
  lemma FillingIsBroadcast(ts: seq<View>, profile: int, steps: seq<Step>, step: Step)
    requires Startable(ts) && Legal(Start(ts, profile), steps) && step.DoRecord?
    requires Enabled(After(Start(ts, profile), steps), step)
    requires IsFull(Next(After(Start(ts, profile), steps), step).server.transfers, step.id, step.fileId)
    ensures var n := Next(After(Start(ts, profile), steps), step).server;
            && Dirty(n, step.id) == map[] && n.log != []
            && var p := n.log[|n.log| - 1];
               && p.revision == n.revision && p.transferId == step.id
               && step.fileId in p.files && p.files[step.fileId] == step.bytes
  {
    var s := After(Start(ts, profile), steps).server;
    EmitsIff(s, step.id, step.fileId, step.bytes, step.speed, step.now, step.due);
    var n, r := RecordShape(s, step.id, step.fileId, step.bytes, step.speed, step.now, step.due);
  }
}
