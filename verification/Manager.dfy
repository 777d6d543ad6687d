/**
 The manager's live state, updated in place. A method that takes a lock twice lets other tasks in
 between: its contract names their steps, and says which critical sections of the replication model
 the method itself contributes around them.
 */
module Manager {
  import opened Prelude
  import opened Transfer
  import opened History
  import opened Replication

  /** The server's side of a run; a step that is refused changes nothing. */
  function ServerRun(s: Server, steps: seq<Step>): Server
    decreases |steps|
  {
    if steps == [] then s else ServerRun(ServerAfter(s, steps[0]), steps[1..])
  }

  /** A run of the whole system moves its server like this. */
  lemma {:induction false} ServerOfRun(y: System, steps: seq<Step>)
    requires Legal(y, steps)
    ensures After(y, steps).server == ServerRun(y.server, steps)
    decreases |steps|
  {
    if steps != [] {
      ServerOfRun(Next(y, steps[0]), steps[1..]);
    }
  }

  lemma {:induction false} ServerRunAppend(s: Server, a: seq<Step>, b: seq<Step>)
    ensures ServerRun(s, a + b) == ServerRun(ServerRun(s, a), b)
    decreases |a|
  {
    if a == [] {
      assert a + b == b;
    } else {
      assert (a + b)[0] == a[0] && (a + b)[1..] == a[1..] + b;
      ServerRunAppend(ServerAfter(s, a[0]), a[1..], b);
    }
  }

  /** Two critical sections with the steps of other tasks between them. */
  lemma Around(s: Server, first: Step, between: seq<Step>, last: Step)
    ensures ServerRun(s, [first] + between + [last]) == ServerAfter(ServerRun(ServerAfter(s, first), between), last)
  {
    ServerRunAppend(s, [first] + between, [last]);
    ServerRunAppend(s, [first], between);
    assert [first][1..] == [] && [last][1..] == [];
  }

  /** The steps that write the server. */
  predicate Writes(step: Step) {
    step.DoRecord? || step.DoForget? || step.DoMutate? || step.DoPush? || step.DoProfile? || step.DoPublish?
  }

  function OnlyWrites(steps: seq<Step>): (r: seq<Step>)
    ensures forall step :: step in r ==> Writes(step)
  {
    if steps == [] then []
    else (if Writes(steps[0]) then [steps[0]] else []) + OnlyWrites(steps[1..])
  }

  /** Writers only append to the log, and what they append is newer than all that was there. */
  lemma {:induction false} WritesExtend(s: Server, steps: seq<Step>)
    ensures var n := ServerRun(s, steps);
            && s.log <= n.log && s.revision <= n.revision && s.version <= n.version
            && forall a :: |s.log| <= a < |n.log| ==> s.revision < n.log[a].revision <= n.revision
    decreases |steps|
  {
    if steps != [] {
      WritesExtend(ServerAfter(s, steps[0]), steps[1..]);
    }
  }

  /** What a mutation that may be refused contributes to a run: at its write, and at its publication. */
  function Mutation(s: Server, id: string, edit: Edit, between: seq<Step>): seq<Step> {
    if Mutate(s, id, edit).Ok? then [DoMutate(id, edit)] + between + [DoPublish] else []
  }

  /** Without others' steps, an accepted mutation is written and published, and a refused one is nothing. */
  lemma MutationLands(s: Server, id: string, edit: Edit)
    ensures ServerRun(s, Mutation(s, id, edit, []))
              == match Mutate(s, id, edit) case Ok(n) => Publish(n) case Err(_) => s
  {
    if Mutate(s, id, edit).Ok? {
      Around(s, DoMutate(id, edit), [], DoPublish);
    }
  }

  class TransferManager {
    /** No other task runs. */
    const quiet: bool
    var revision: nat
    var lastFull: nat
    var transfers: seq<View>
    var profile: int
    var emissions: map<string, Emission>
    var version: nat
    var log: seq<Progress>
    var stopping: bool
    var errors: seq<string>

    function Model(): Server
      reads this
    {
      Server(revision, lastFull, transfers, profile, emissions, version, log)
    }

    /** Starts from the loaded history, pruned. */
    constructor (history: seq<View>, profile: int, quiet: bool)
      ensures this.quiet == quiet && Model() == Start(Prune(history), profile).server
    {
      transfers := Prune(history);
      this.profile, this.quiet := profile, quiet;
      revision, lastFull, version := 0, 0, 0;
      emissions, log := map[], [];
      stopping, errors := false, [];
    }

    /** Other tasks take their steps, report errors, and may stop the manager. */
    method Others() returns (ghost steps: seq<Step>)
      modifies this
      ensures Model() == ServerRun(old(Model()), steps) && forall step :: step in steps ==> Writes(step)
      ensures old(stopping) ==> stopping
      ensures old(errors) <= errors
      ensures quiet ==> steps == [] && stopping == old(stopping) && errors == old(errors)
    {
      var chosen: seq<Step> := *;
      chosen := if quiet then [] else OnlyWrites(chosen);
      steps := chosen;
      var n := ServerRun(Model(), chosen);
      revision, lastFull, transfers, profile := n.revision, n.lastFull, n.transfers, n.profile;
      emissions, version, log := n.emissions, n.version, n.log;
      var stop, reported: seq<string> := *, *;
      if !quiet {
        stopping, errors := stopping || stop, errors + reported;
      }
    }

    method Find(id: string) returns (index: nat)
      ensures match FindIndex(transfers, id)
              case Some(i) => index == i
              case None => index == |transfers|
    {
      index := 0;
      while index < |transfers| && transfers[index].id != id
        invariant index <= |transfers|
        invariant forall i :: 0 <= i < index ==> transfers[i].id != id
      {
        index := index + 1;
      }
    }

    method RecordProgressLive(id: string, fileId: nat, bytes: nat, speed: nat, now: int, due: bool)
      returns (r: Result<()>)
      modifies this
      ensures match RecordLive(old(Model()), id, fileId, bytes, speed, now, due)
              case Ok(n) => r.Ok? && Model() == n
              case Err(e) => r == Err(e) && Model() == old(Model())
    {
      hide Progressed, IndexedLookup;
      var next := revision + 1;
      var index := Find(id);
      if index == |transfers| {
        return Err(TransferNotFound);
      }
      var advanced := Progressed(transfers[index], fileId, bytes, now);
      if advanced.Err? {
        return Err(advanced.error);
      }
      var (transfer, finished) := advanced.value;
      transfer := transfer.(speed := speed);
      var left := if transfer.total >= transfer.completed then transfer.total - transfer.completed else 0;
      transfer := transfer.(remaining := if speed > 0 then Some(left / speed) else None);
      transfers := transfers[index := transfer];
      var emission := if id in emissions then emissions[id] else Emission(false, map[]);
      emission := emission.(dirty := emission.dirty[fileId := bytes]);
      if finished || !emission.emitted || due {
        var progress := Progress(next, lastFull, id, transfer.completed, transfer.speed, transfer.remaining,
                                 transfer.updatedAt, emission.dirty);
        emission := Emission(true, map[]);
        revision := next;
        log := log + [progress];
      }
      emissions := emissions[id := emission];
      r := Ok(());
    }

    method EmitSnapshot()
      modifies this`revision, this`lastFull, this`version
      ensures Model() == Publish(old(Model()))
    {
      revision := revision + 1;
      lastFull := revision;
      version := version + 1;
    }

    /** The write of a mutation, under the state lock. */
    method WriteTransfer(id: string, edit: Edit) returns (r: Result<()>)
      modifies this`transfers
      ensures match Mutate(old(Model()), id, edit)
              case Ok(n) => r.Ok? && Model() == n
              case Err(e) => r == Err(e) && Model() == old(Model())
    {
      var index := Find(id);
      if index == |transfers| {
        return Err(TransferNotFound);
      }
      var edited := ApplyEdit(transfers[index], edit);
      if edited.Err? {
        return Err(edited.error);
      }
      transfers := PruneTransferHistory(transfers[index := edited.value]);
      r := Ok(());
    }

    method MutateTransfer(id: string, edit: Edit) returns (r: Result<()>, ghost between: seq<Step>)
      modifies this
      ensures match Mutate(old(Model()), id, edit)
              case Ok(_) => r.Ok? && Model() == ServerRun(old(Model()), [DoMutate(id, edit)] + between + [DoPublish])
              case Err(e) => r == Err(e) && Model() == old(Model())
      ensures quiet ==> between == []
    {
      ghost var s := Model();
      between := [];
      r := WriteTransfer(id, edit);
      if r.Ok? {
        between := Others();
        EmitSnapshot();
        Around(s, DoMutate(id, edit), between, DoPublish);
      }
    }

    method PushTransfer(transfer: View) returns (ghost between: seq<Step>)
      modifies this
      ensures Model() == ServerRun(old(Model()), [DoPush(transfer)] + between + [DoPublish])
      ensures quiet ==> between == []
    {
      ghost var s := Model();
      transfers := PruneTransferHistory([transfer] + transfers);
      between := Others();
      EmitSnapshot();
      Around(s, DoPush(transfer), between, DoPublish);
    }

    /** A terminal transition forgets the transfer's emission first, even if it is then refused. */
    method TransitionTransfer(id: string, next: Status, now: int)
      returns (r: Result<()>, ghost before: seq<Step>, ghost between: seq<Step>)
      modifies this
      ensures var forgetting := if next.Terminal() then [DoForget(id)] else [];
              var s := ServerRun(ServerRun(old(Model()), forgetting), before);
              && (r.Ok? <==> Mutate(s, id, Move(next, now)).Ok?)
              && Model() == ServerRun(s, Mutation(s, id, Move(next, now), between))
      ensures quiet ==> before == between == []
    {
      assert [DoForget(id)][1..] == [];
      if next.Terminal() {
        emissions := emissions - {id};
      }
      before := Others();
      r, between := MutateTransfer(id, Move(next, now));
    }

    /** Ends a transfer as failed unless it already ended. */
    method FailTransfer(id: string, message: string, now: int)
      returns (ghost before: seq<Step>, ghost between: seq<Step>)
      modifies this
      ensures var s := ServerRun(Forget(old(Model()), id), before);
              Model() == ServerRun(s, Mutation(s, id, Fail(message, now), between))
      ensures quiet ==> before == between == []
    {
      emissions := emissions - {id};
      before := Others();
      var _, steps := MutateTransfer(id, Fail(message, now));
      between := steps;
    }
  }
}
