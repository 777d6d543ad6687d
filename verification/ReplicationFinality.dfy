/** Once a transfer is terminal, nothing that the manager does changes its status or its progress. */
module ReplicationFinality {
  import opened Prelude
  import opened Transfer
  import opened History
  import opened Replication
  import opened ReplicationProofs

  function Listed(y: System, id: string): Option<View> {
    Lookup(y.server.transfers, id)
  }

  /** Neither the status nor any progress of the transfer differs. */
  predicate Unchanged(v: View, w: View) {
    v.status == w.status && SameProgress(v, w)
  }

  /** No edit moves a terminal transfer, and a reset finds no progress to take away. */
  lemma EditIsFinal(v: View, edit: Edit)
    requires v.status.Terminal() && ApplyEdit(v, edit).Ok? && (edit.Reset? ==> NoProgress(v))
    ensures Unchanged(v, ApplyEdit(v, edit).value)
  {
  }

  lemma MutateIsFinal(s: Server, t: Trace, id: string, edit: Edit, x: string)
    requires ListInv(s, t) && Mutate(s, id, edit).Ok? && (edit.Reset? ==> id !in t.started)
    ensures var v, w := Lookup(s.transfers, x), Lookup(Mutate(s, id, edit).value.transfers, x);
            w.Some? ==> v.Some? && (v.value.status.Terminal() ==> Unchanged(v.value, w.value))
  {
    var n := Mutate(s, id, edit).value;
    var i := FindIndex(s.transfers, id).value;
    var v := s.transfers[i];
    assert v in s.transfers && ViewInv(v, s, t);
    var w := ApplyEdit(v, edit).value;
    var us := s.transfers[i := w];
    assert forall k :: 0 <= k < |us| ==> us[k].id == s.transfers[k].id;
    LookupAfterPrune(us, x);
    LookupAfterSet(s.transfers, i, w, x);
    if v.status.Terminal() {
      EditIsFinal(v, edit);
    }
  }

  lemma RecordIsFinal(s: Server, id: string, fileId: nat, bytes: nat, speed: nat, now: int, due: bool, x: string)
    requires RecordLive(s, id, fileId, bytes, speed, now, due).Ok?
    ensures var v := Lookup(s.transfers, x);
            var w := Lookup(RecordLive(s, id, fileId, bytes, speed, now, due).value.transfers, x);
            (w.Some? <==> v.Some?) && (v.Some? && v.value.status.Terminal() ==> Unchanged(v.value, w.value))
  {
    var n, r := RecordShape(s, id, fileId, bytes, speed, now, due);
    LookupAfterSet(s.transfers, r.i, n.transfers[r.i], x);
  }

  lemma PushIsFinal(s: Server, t: Trace, v: View, x: string)
    requires ListInv(s, t) && v.id !in t.used && x in t.used
    ensures Lookup(Push(s, v).transfers, x).Some? ==> Lookup(Push(s, v).transfers, x) == Lookup(s.transfers, x)
  {
    var us := [v] + s.transfers;
    forall i, j | 0 <= i < j < |us| ensures us[i].id != us[j].id {
      assert us[j] in s.transfers && ViewInv(us[j], s, t);
    }
    LookupAfterPrune(us, x);
    LookupAfterCons(v, s.transfers, x);
  }

  /** No step changes a terminal transfer that it leaves listed, or lists again what was pruned. */
  lemma StepIsFinal(y: System, step: Step, x: string)
    requires Inv(y) && Enabled(y, step) && x in y.trace.used
    ensures var v, w := Listed(y, x), Listed(Next(y, step), x);
            w.Some? ==> v.Some? && (v.value.status.Terminal() ==> Unchanged(v.value, w.value))
    ensures x in Next(y, step).trace.used
  {
    match step {
      case DoRecord(id, fileId, bytes, speed, now, due) =>
        RecordIsFinal(y.server, id, fileId, bytes, speed, now, due, x);
      case DoMutate(id, edit) => MutateIsFinal(y.server, y.trace, id, edit, x);
      case DoPush(v) => PushIsFinal(y.server, y.trace, v, x);
      case _ =>
    }
  }

  lemma {:induction false} RunIsFinal(y: System, steps: seq<Step>, x: string)
    requires Inv(y) && Legal(y, steps) && x in y.trace.used
    ensures var v, w := Listed(y, x), Listed(After(y, steps), x);
            w.Some? ==> v.Some? && (v.value.status.Terminal() ==> Unchanged(v.value, w.value))
    decreases |steps|
  {
    if steps != [] {
      StepKeepsInv(y, steps[0]);
      StepIsFinal(y, steps[0], x);
      RunIsFinal(Next(y, steps[0]), steps[1..], x);
    }
  }

  /** Terminal is final. In every run, from the moment a transfer is terminal, its status, its total
      progress and the bytes of each of its files stay as they are for as long as it is listed, whatever
      reports, transitions, failures and resets still arrive; and once pruned it is not listed again. */
  lemma TerminalIsFinal(ts: seq<View>, profile: int, steps: seq<Step>, more: seq<Step>, x: string)
    requires Startable(ts) && Legal(Start(ts, profile), steps)
    requires Legal(After(Start(ts, profile), steps), more)
    requires x in After(Start(ts, profile), steps).trace.used
    ensures var y := After(Start(ts, profile), steps);
            var v, w := Listed(y, x), Listed(After(y, more), x);
            w.Some? ==> v.Some? && (v.value.status.Terminal() ==> Unchanged(v.value, w.value))
  {
    var y := Reached(ts, profile, steps);
    RunIsFinal(y, more, x);
  }
}
