/**
 The receives that a receiver has in flight. Each works through its own stream; their progress
 reports land on the shared view in any order, while users pause, resume and cancel the transfer.
 */
module ReceiveTasks {
  import opened Prelude
  import opened Transfer
  import opened FileStream

  datatype Manifest = Manifest(fileId: nat, size: nat)

  predicate UniqueManifest(files: seq<Manifest>) {
    forall i, j :: 0 <= i < j < |files| ==> files[i].fileId != files[j].fileId
  }

  function FileIds(files: seq<Manifest>): set<nat> {
    set i | 0 <= i < |files| :: files[i].fileId
  }

  lemma {:induction false} FileIdsCount(files: seq<Manifest>)
    requires UniqueManifest(files)
    ensures |FileIds(files)| == |files|
  {
    if files != [] {
      var last := |files| - 1;
      FileIdsCount(files[..last]);
      assert FileIds(files) == FileIds(files[..last]) + {files[last].fileId};
    }
  }

  /** The view lists the manifest's files. */
  predicate SameFiles(v: View, files: seq<Manifest>) {
    && |v.files| == |files|
    && forall i :: 0 <= i < |files| ==> v.files[i].id == files[i].fileId && v.files[i].size == files[i].size
  }

  /** What a receive still has to report, and whether its stream was complete. */
  datatype Receive = Receive(reports: seq<nat>, done: bool)

  predicate ReceiveFits(file: FileView, receive: Receive) {
    && Increasing(receive.reports)
    && (forall a :: 0 <= a < |receive.reports| ==> file.completed <= receive.reports[a] <= file.size)
    && (receive.done ==>
         (if receive.reports == [] then file.completed else receive.reports[|receive.reports| - 1]) == file.size)
  }

  /** A file before, during and after its receive. `whole`: the files whose streams were complete. */
  predicate FileFits(file: FileView, received: set<nat>, running: map<nat, Receive>, whole: set<nat>, failed: bool) {
    if file.id !in received then file.completed == 0
    else if file.id in running then
      ReceiveFits(file, running[file.id]) && (running[file.id].done ==> file.id in whole)
    else failed || (file.completed == file.size && file.id in whole)
  }

  /** `sound`: nothing fails around the receives, and all their streams are complete. */
  predicate Tracking(v: View, files: seq<Manifest>, received: set<nat>, running: map<nat, Receive>,
                     whole: set<nat>, failed: bool, sound: bool) {
    && Conserved(v) && SameFiles(v, files)
    && running.Keys <= received <= FileIds(files)
    && (forall i :: 0 <= i < |v.files| ==> FileFits(v.files[i], received, running, whole, failed))
    && (sound ==> Active(v.status) && !failed && forall id :: id in running ==> running[id].done)
  }

  /** The file of the next report of a receive, which is in range. */
  lemma ReportAccepted(v: View, files: seq<Manifest>, received: set<nat>, running: map<nat, Receive>,
                       whole: set<nat>, failed: bool, sound: bool, id: nat, now: int)
    requires Tracking(v, files, received, running, whole, failed, sound)
    requires id in running && running[id].reports != []
    ensures Progressed(v, id, running[id].reports[0], now).Ok? <==> Active(v.status)
  {
    var k :| 0 <= k < |files| && files[k].fileId == id;
    assert FileFits(v.files[k], received, running, whole, failed);
    RecordAccepted(v, id, running[id].reports[0], now);
  }

  lemma RestFits(file: FileView, receive: Receive)
    requires ReceiveFits(file, receive) && receive.reports != []
    ensures ReceiveFits(file.(completed := receive.reports[0]), receive.(reports := receive.reports[1..]))
    ensures ReceiveFits(file, Receive([], false))
  {
  }

  lemma AcceptedKeeps(v: View, files: seq<Manifest>, received: set<nat>, running: map<nat, Receive>,
                      whole: set<nat>, failed: bool, sound: bool, id: nat, now: int, w: View)
    requires Tracking(v, files, received, running, whole, failed, sound)
    requires id in running && running[id].reports != []
    requires Progressed(v, id, running[id].reports[0], now).Ok?
    requires w == Progressed(v, id, running[id].reports[0], now).value.0
    ensures Tracking(w, files, received, running[id := running[id].(reports := running[id].reports[1..])],
                     whole, failed, sound)
  {
    hide Progressed;
    RecordAccepted(v, id, running[id].reports[0], now);
    RecordConserves(v, id, running[id].reports[0], now);
    var more := running[id := running[id].(reports := running[id].reports[1..])];
    forall i | 0 <= i < |w.files| ensures FileFits(w.files[i], received, more, whole, failed) {
      assert FileFits(v.files[i], received, running, whole, failed);
      if v.files[i].id == id {
        RestFits(v.files[i], running[id]);
      }
    }
  }

  lemma RefusedKeeps(v: View, files: seq<Manifest>, received: set<nat>, running: map<nat, Receive>,
                     whole: set<nat>, failed: bool, id: nat)
    requires Tracking(v, files, received, running, whole, failed, false)
    requires id in running && running[id].reports != []
    ensures Tracking(v, files, received, running[id := Receive([], false)], whole, failed, false)
  {
    var more := running[id := Receive([], false)];
    forall i | 0 <= i < |v.files| ensures FileFits(v.files[i], received, more, whole, failed) {
      assert FileFits(v.files[i], received, running, whole, failed);
    }
  }

  /** One report of one receive, accepted or refused, keeps the view in step with all receives. */
  lemma ReportKeeps(v: View, files: seq<Manifest>, received: set<nat>, running: map<nat, Receive>,
                    whole: set<nat>, failed: bool, sound: bool, id: nat, now: int)
    requires Tracking(v, files, received, running, whole, failed, sound)
    requires id in running && running[id].reports != []
    ensures var reports := running[id].reports;
            match Progressed(v, id, reports[0], now)
            case Ok((w, _)) =>
              Tracking(w, files, received, running[id := running[id].(reports := reports[1..])], whole, failed, sound)
            case Err(_) =>
              !sound && Tracking(v, files, received, running[id := Receive([], false)], whole, failed, sound)
  {
    ReportAccepted(v, files, received, running, whole, failed, sound, id, now);
    match Progressed(v, id, running[id].reports[0], now) {
      case Ok((w, _)) => AcceptedKeeps(v, files, received, running, whole, failed, sound, id, now, w);
      case Err(_) => RefusedKeeps(v, files, received, running, whole, failed, id);
    }
  }

  /** A receive that has nothing left to report is joined. */
  lemma JoinKeeps(v: View, files: seq<Manifest>, received: set<nat>, running: map<nat, Receive>,
                  whole: set<nat>, failed: bool, sound: bool, id: nat)
    requires Tracking(v, files, received, running, whole, failed, sound)
    requires id in running && running[id].reports == []
    ensures Tracking(v, files, received, running - {id}, whole, failed || !running[id].done, sound)
  {
    forall i | 0 <= i < |v.files|
      ensures FileFits(v.files[i], received, running - {id}, whole, failed || !running[id].done)
    {
      assert FileFits(v.files[i], received, running, whole, failed);
    }
  }

  /** Once all files were received and all receives joined without a failure, everything is complete. */
  lemma AllJoined(v: View, files: seq<Manifest>, whole: set<nat>, sound: bool)
    requires Tracking(v, files, FileIds(files), map[], whole, false, sound)
    ensures v.completed == v.total && FileIds(files) <= whole
  {
    forall i | 0 <= i < |v.files| ensures v.files[i].completed == v.files[i].size && v.files[i].id in whole {
      assert FileFits(v.files[i], FileIds(files), map[], whole, false);
    }
    AllComplete(v.files);
  }

  lemma {:induction false} AllComplete(files: seq<FileView>)
    requires forall i :: 0 <= i < |files| ==> files[i].completed == files[i].size
    ensures SumCompleted(files) == SumSizes(files)
  {
    if files != [] {
      AllComplete(files[1..]);
    }
  }

  /** A receive that starts on an untouched file fits, whatever its stream holds. */
  lemma NewReceiveFits(v: View, files: seq<Manifest>, received: set<nat>, running: map<nat, Receive>,
                       whole: set<nat>, failed: bool, sound: bool, k: nat, receive: Receive)
    requires Tracking(v, files, received, running, whole, failed, sound)
    requires k < |files| && files[k].fileId !in received && UniqueManifest(files)
    requires Increasing(receive.reports)
    requires forall a :: 0 <= a < |receive.reports| ==> receive.reports[a] <= files[k].size
    requires receive.done ==> Reported(receive.reports, files[k].size) && files[k].fileId in whole
    requires sound ==> receive.done
    ensures var id := files[k].fileId;
            Tracking(v, files, received + {id}, running[id := receive], whole, failed, sound)
  {
    var id := files[k].fileId;
    forall i | 0 <= i < |v.files| ensures FileFits(v.files[i], received + {id}, running[id := receive], whole, failed) {
      assert FileFits(v.files[i], received, running, whole, failed);
    }
  }

  /** The spawned receives by file id, and the view of their transfer. They finish in any order.
      `healthy` excludes I/O errors, timeouts and cancellation. */
  class JoinSet {
    const view: TransferView
    const healthy: bool
    ghost const files: seq<Manifest>
    ghost const whole: set<nat>
    ghost const sound: bool
    var running: map<nat, Receive>
    ghost var received: set<nat>
    ghost var failed: bool

    ghost predicate Valid()
      reads this, view
    {
      && Tracking(view.Value(), files, received, running, whole, failed, sound)
      && UniqueManifest(files) && (sound ==> healthy)
    }

    constructor (view: TransferView, healthy: bool, ghost files: seq<Manifest>, ghost whole: set<nat>,
                 ghost sound: bool)
      requires Conserved(view.Value()) && NoProgress(view.Value()) && SameFiles(view.Value(), files)
      requires UniqueManifest(files) && (sound ==> healthy && Active(view.status))
      ensures Valid() && this.view == view && this.healthy == healthy && this.sound == sound
      ensures this.files == files && this.whole == whole
      ensures running == map[] && received == {} && !failed
    {
      this.view, this.healthy, this.files, this.whole, this.sound := view, healthy, files, whole, sound;
      running, received, failed := map[], {}, false;
    }

    /** Starts the receive of file `k` of the manifest. */
    method Spawn(k: nat, id: nat, receive: Receive)
      requires Valid() && k < |files| && files[k].fileId == id && id !in received
      requires Increasing(receive.reports)
      requires forall a :: 0 <= a < |receive.reports| ==> receive.reports[a] <= files[k].size
      requires receive.done ==> Reported(receive.reports, files[k].size) && id in whole
      requires sound ==> receive.done
      modifies this`running, this`received
      ensures Valid() && running == old(running)[id := receive] && received == old(received) + {id}
    {
      NewReceiveFits(view.Value(), files, received, running, whole, failed, sound, k, receive);
      running := running[id := receive];
      received := received + {id};
    }

    /** A receive reports its next offset; if the view refuses, the receive fails. */
    method Report(id: nat)
      requires Valid() && id in running && running[id].reports != []
      modifies this`running, view
      ensures Valid() && running.Keys == old(running.Keys)
      ensures |running[id].reports| < |old(running[id].reports)|
    {
      hide Tracking, Progressed;
      var now: int := *;
      var reports := running[id].reports;
      ReportKeeps(view.Value(), files, received, running, whole, failed, sound, id, now);
      var accepted := view.RecordProgress(id, reports[0], now);
      running := running[id := if accepted.Ok? then running[id].(reports := reports[1..]) else Receive([], false)];
    }

    /** A user pauses, resumes or cancels the transfer. */
    method UserChange()
      requires Valid()
      modifies view`status, view`updatedAt
      ensures Valid()
    {
      var now: int := *;
      var next: Status := *;
      if next.Paused? || next.Transferring? || (next.Cancelled? && !healthy) {
        var _ := view.Transition(next, now);
      }
    }

    /** Any number of reports and user actions. */
    method Interleave()
      requires Valid()
      modifies this`running, view
      ensures Valid() && running.Keys == old(running.Keys)
    {
      var wanted: int := *;
      var turns := if wanted < 0 then 0 else wanted;
      for turn := 0 to turns
        invariant Valid() && running.Keys == old(running.Keys)
      {
        var id: nat := *;
        if id in running && running[id].reports != [] {
          Report(id);
        } else {
          UserChange();
        }
      }
    }

    /** One receive makes its remaining reports. */
    method Finish(id: nat)
      requires Valid() && id in running
      modifies this`running, view
      ensures Valid() && running.Keys == old(running.Keys) && running[id].reports == []
    {
      while running[id].reports != []
        invariant Valid() && running.Keys == old(running.Keys)
        decreases |running[id].reports|
      {
        Report(id);
      }
    }

    /** Waits for one receive to finish. */
    method JoinNext() returns (ok: bool)
      requires Valid() && running.Keys != {}
      modifies this`running, this`failed, view
      ensures Valid() && failed == (old(failed) || !ok) && (sound ==> ok)
      ensures exists id :: id in old(running.Keys) && running.Keys == old(running.Keys) - {id}
    {
      hide Tracking;
      Interleave();
      var id :| id in running.Keys;
      Finish(id);
      ok := running[id].done;
      JoinKeeps(view.Value(), files, received, running, whole, failed, sound, id);
      running := running - {id};
      failed := failed || !ok;
    }
  }

  /** Joins receives until fewer than `limit` are in flight, or one of them failed. */
  method JoinUntil(receives: JoinSet, limit: nat) returns (ok: bool)
    requires limit > 0 && receives.Valid()
    modifies receives`running, receives`failed, receives.view
    ensures receives.Valid() && receives.running.Keys <= old(receives.running.Keys)
    ensures ok ==> |receives.running.Keys| < limit && receives.failed == old(receives.failed)
    ensures receives.sound ==> ok
  {
    while |receives.running.Keys| >= limit
      invariant receives.Valid() && receives.running.Keys <= old(receives.running.Keys)
      invariant receives.failed == old(receives.failed)
      decreases |receives.running.Keys|
    {
      var succeeded := receives.JoinNext();
      if !succeeded {
        return false;
      }
    }
    ok := true;
  }
}
