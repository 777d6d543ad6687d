/**
 The receiver's file loop: single-use grants, at most four files in flight, and one stream per
 manifest entry, whatever streams the peer opens and in whatever order the receives finish.
 */
module ReceiveFiles {
  import opened Prelude
  import opened Transfer
  import opened FileStream
  import opened ReceiveTasks

  const MAX_CHUNK_SIZE := 256 * 1024

  /** What arrives on a stream, and whether it then ends or is reset. */
  datatype Arriving = Arriving(bytes: seq<byte>, ended: bool)

  datatype Open = Open(transferId: nat, fileId: nat, ticket: seq<bv8>)

  datatype Grant = Grant(ticket: seq<bv8>, expiresAt: int, used: bool)

  // ----- grants -----

  /** What it takes to pass: the right transfer, a grant for the file that is unused and has not
      expired, and its ticket. */
  predicate Authorized(grants: map<nat, Grant>, open: Open, transferId: nat, now: int) {
    && open.transferId == transferId
    && open.fileId in grants
    && !grants[open.fileId].used
    && now <= grants[open.fileId].expiresAt
    && grants[open.fileId].ticket == open.ticket
  }

  function MarkUsed(grants: map<nat, Grant>, id: nat): map<nat, Grant> {
    if id in grants then grants[id := grants[id].(used := true)] else grants
  }

  class Grants {
    var byFile: map<nat, Grant>

    constructor (byFile: map<nat, Grant>)
      ensures this.byFile == byFile
    {
      this.byFile := byFile;
    }

    method Consume(open: Open, transferId: nat, now: int) returns (r: Result<()>)
      modifies this
      ensures r.Ok? <==> old(Authorized(byFile, open, transferId, now))
      ensures r.Ok? ==> byFile == old(MarkUsed(byFile, open.fileId))
      ensures r.Err? ==> r.error == Invalid && byFile == old(byFile)
    {
      if open.transferId != transferId {
        return Err(Invalid);
      }
      if open.fileId !in byFile {
        return Err(Invalid);
      }
      var grant := byFile[open.fileId];
      if grant.used || now > grant.expiresAt || grant.ticket != open.ticket {
        return Err(Invalid);
      }
      byFile := byFile[open.fileId := grant.(used := true)];
      r := Ok(());
    }
  }

  // ----- taking streams -----

  /** The first `taken` streams: distinct files of this transfer. */
  ghost predicate Distinct(route: seq<Open>, taken: nat, transferId: nat, received: set<nat>) {
    && taken <= |route| && |received| == taken
    && (forall i :: 0 <= i < taken ==> route[i].transferId == transferId && route[i].fileId in received)
    && (forall i, j :: 0 <= i < j < taken ==> route[i].fileId != route[j].fileId)
  }

  lemma DistinctNext(route: seq<Open>, taken: nat, transferId: nat, received: set<nat>)
    requires Distinct(route, taken, transferId, received) && taken < |route|
    requires route[taken].transferId == transferId && route[taken].fileId !in received
    ensures Distinct(route, taken + 1, transferId, received + {route[taken].fileId})
  {
  }

  /** What the loop does to the grants: exactly those of the files taken are consumed, each once. */
  ghost predicate Consumed(files: seq<Manifest>, before: map<nat, Grant>, after: map<nat, Grant>, received: set<nat>) {
    && received <= FileIds(files) && received <= before.Keys && after.Keys == before.Keys
    && forall id :: id in before ==>
         if id in received then !before[id].used && after[id] == before[id].(used := true) else after[id] == before[id]
  }

  /** The streams taken so far: distinct files of the manifest, each with its grant consumed. */
  ghost predicate Taken(files: seq<Manifest>, transferId: nat, route: seq<Open>,
                        before: map<nat, Grant>, after: map<nat, Grant>, received: set<nat>) {
    Distinct(route, |received|, transferId, received) && Consumed(files, before, after, received)
  }

  /** A stream that may be received at `now`: for a file of the manifest, and authorized. */
  predicate Admissible(files: seq<Manifest>, transferId: nat, grants: map<nat, Grant>, open: Open, now: int) {
    open.fileId in FileIds(files) && Authorized(grants, open, transferId, now)
  }

  predicate NextIsAdmissible(files: seq<Manifest>, transferId: nat, grants: map<nat, Grant>, route: seq<Open>,
                             received: set<nat>, now: int) {
    && |received| < |route| && route[|received|].fileId !in received
    && Admissible(files, transferId, grants, route[|received|], now)
  }

  method TakeStream(files: seq<Manifest>, transferId: nat, grants: Grants, route: seq<Open>, now: int,
                    received: set<nat>, ghost before: map<nat, Grant>)
    returns (r: Result<nat>)
    requires Taken(files, transferId, route, before, grants.byFile, received)
    modifies grants
    ensures r.Ok? <==> NextIsAdmissible(files, transferId, before, route, received, now)
    ensures r.Ok? ==> r.value == route[|received|].fileId
                      && Taken(files, transferId, route, before, grants.byFile, received + {r.value})
    ensures r.Err? ==> grants.byFile == old(grants.byFile)
  {
    var taken := |received|;
    if taken == |route| {
      return Err(Network);
    }
    var open := route[taken];
    if open.fileId !in FileIds(files) {
      return Err(Invalid);
    }
    if open.fileId in received {
      return Err(Invalid);
    }
    var consumed := grants.Consume(open, transferId, now);
    if consumed.Err? {
      return Err(consumed.error);
    }
    DistinctNext(route, taken, transferId, received);
    r := Ok(open.fileId);
  }

  lemma AllTaken(files: seq<Manifest>, transferId: nat, route: seq<Open>,
                 before: map<nat, Grant>, after: map<nat, Grant>, received: set<nat>)
    requires UniqueManifest(files) && Taken(files, transferId, route, before, after, received)
    requires |received| >= |files|
    ensures received == FileIds(files)
  {
    FileIdsCount(files);
    SubsetSize(received, FileIds(files));
    SubsetOfSameSize(received, FileIds(files));
  }

  /** The position of a file in the manifest. */
  function PositionOf(files: seq<Manifest>, id: nat): (k: nat)
    requires id in FileIds(files)
    ensures k < |files| && files[k].fileId == id
  {
    if files[0].fileId == id then 0 else PositionOf(files[1..], id) + 1
  }

  /** The stream carries all of the manifest's file and its digest, and then ends. */
  predicate Whole(hash: Hash, files: seq<Manifest>, id: nat, arriving: Arriving)
    requires id in FileIds(files)
  {
    Complete(hash, arriving.bytes, arriving.ended, files[PositionOf(files, id)].size)
  }

  /** What is known of a stream before it is received. */
  predicate NextIsKnown(hash: Hash, files: seq<Manifest>, id: nat, arriving: Arriving, whole: set<nat>, sound: bool)
    requires id in FileIds(files)
  {
    && (Whole(hash, files, id, arriving) ==> id in whole)
    && (sound ==> Whole(hash, files, id, arriving))
  }

  /** One turn of the loop: makes room, takes the next stream and spawns its receive. */
  method ReceiveNext(hash: Hash, files: seq<Manifest>, transferId: nat, grants: Grants, route: seq<Open>,
                     arriving: Arriving, now: int, receives: JoinSet, ghost before: map<nat, Grant>,
                     received: set<nat>)
    returns (r: Result<nat>)
    requires receives.Valid() && receives.files == files && receives.received == received
    requires Taken(files, transferId, route, before, grants.byFile, received)
    requires NextIsAdmissible(files, transferId, before, route, received, now) ==>
      NextIsKnown(hash, files, route[|received|].fileId, arriving, receives.whole, receives.sound)
    modifies grants, receives, receives.view
    ensures receives.Valid()
    ensures r.Ok? ==> NextIsAdmissible(files, transferId, before, route, received, now)
    ensures receives.sound && NextIsAdmissible(files, transferId, before, route, received, now) ==> r.Ok?
    ensures r.Ok? ==> r.value == route[|received|].fileId && receives.received == received + {r.value}
                      && Taken(files, transferId, route, before, grants.byFile, received + {r.value})
    ensures r.Ok? ==> receives.failed == old(receives.failed) && |receives.running.Keys| <= FILE_STREAM_CONCURRENCY
    ensures r.Err? ==> grants.byFile == old(grants.byFile) && receives.received == received
  {
    var joining := JoinUntil(receives, FILE_STREAM_CONCURRENCY);
    if !joining {
      return Err(Network);
    }
    r := TakeStream(files, transferId, grants, route, now, received, before);
    if r.Ok? {
      SpawnReceive(hash, files, r.value, arriving, receives);
    }
  }

  /** Works through the stream of a file; when its reports arrive is left to the join set. */
  method SpawnReceive(hash: Hash, files: seq<Manifest>, id: nat, arriving: Arriving, receives: JoinSet)
    requires receives.Valid() && receives.files == files && id in FileIds(files) && id !in receives.received
    requires NextIsKnown(hash, files, id, arriving, receives.whole, receives.sound)
    modifies receives`running, receives`received
    ensures receives.Valid() && receives.received == old(receives.received) + {id}
    ensures receives.running.Keys == old(receives.running.Keys) + {id}
    ensures |receives.running.Keys| <= old(|receives.running.Keys|) + 1
  {
    var k := PositionOf(files, id);
    var incoming := new Incoming(arriving.bytes, arriving.ended);
    var outcome, staged, reports := ReceiveFile(hash, incoming, files[k].size, MAX_CHUNK_SIZE, receives.healthy);
    receives.Spawn(k, id, Receive(reports, outcome.Done?));
  }

  /** The first streams are one admissible stream for each file of the manifest, checked in turn. */
  ghost predicate OneEach(files: seq<Manifest>, transferId: nat, route: seq<Open>, grants: map<nat, Grant>,
                          clock: nat -> int, taken: nat) {
    && taken <= |route|
    && (forall i :: 0 <= i < taken ==> Admissible(files, transferId, grants, route[i], clock(i)))
    && (forall i, j :: 0 <= i < j < taken ==> route[i].fileId != route[j].fileId)
  }

  lemma OneEachNext(files: seq<Manifest>, transferId: nat, route: seq<Open>, before: map<nat, Grant>,
                    after: map<nat, Grant>, clock: nat -> int, received: set<nat>)
    requires Taken(files, transferId, route, before, after, received)
    requires OneEach(files, transferId, route, before, clock, |received|)
    requires forall id :: id in received ==> exists i :: 0 <= i < |received| && route[i].fileId == id
    ensures OneEach(files, transferId, route, before, clock, |received| + 1) <==>
            NextIsAdmissible(files, transferId, before, route, received, clock(|received|))
  {
  }

  /** The files of the first streams that are whole. */
  ghost function WholeFiles(hash: Hash, files: seq<Manifest>, route: seq<Open>, arriving: nat -> Arriving): set<nat> {
    set i | 0 <= i < |files| && i < |route| && route[i].fileId in FileIds(files)
            && Whole(hash, files, route[i].fileId, arriving(i)) :: route[i].fileId
  }

  /** One admissible and whole stream for each file of the manifest. */
  ghost predicate AllWhole(hash: Hash, files: seq<Manifest>, transferId: nat, route: seq<Open>,
                           arriving: nat -> Arriving, grants: map<nat, Grant>, clock: nat -> int) {
    && OneEach(files, transferId, route, grants, clock, |files|)
    && forall i :: 0 <= i < |files| ==> Whole(hash, files, route[i].fileId, arriving(i))
  }

  lemma WholeFilesAreWhole(hash: Hash, files: seq<Manifest>, transferId: nat, route: seq<Open>,
                           arriving: nat -> Arriving, grants: map<nat, Grant>, clock: nat -> int)
    requires OneEach(files, transferId, route, grants, clock, |files|)
    requires FileIds(files) <= WholeFiles(hash, files, route, arriving)
    ensures AllWhole(hash, files, transferId, route, arriving, grants, clock)
  {
    forall i | 0 <= i < |files| ensures Whole(hash, files, route[i].fileId, arriving(i)) {
      assert route[i].fileId in FileIds(files);
      var j :| 0 <= j < |files| && route[j].fileId == route[i].fileId
               && Whole(hash, files, route[j].fileId, arriving(j));
      assert i == j;
    }
  }

  /** Joins what is left after the last stream was taken. */
  method JoinAll(hash: Hash, files: seq<Manifest>, transferId: nat, route: seq<Open>, arriving: nat -> Arriving,
                 clock: nat -> int, receives: JoinSet, ghost before: map<nat, Grant>)
    returns (r: Result<()>)
    requires receives.Valid() && receives.files == files && receives.received == FileIds(files) && !receives.failed
    requires receives.whole == WholeFiles(hash, files, route, arriving)
    requires OneEach(files, transferId, route, before, clock, |files|)
    modifies receives`running, receives`failed, receives.view
    ensures receives.Valid() && (receives.sound ==> r.Ok?)
    ensures r.Ok? ==> receives.running == map[] && !receives.failed && receives.view.completed == receives.view.total
    ensures r.Ok? ==> AllWhole(hash, files, transferId, route, arriving, before, clock)
  {
    var joining := JoinUntil(receives, 1);
    if !joining {
      return Err(Network);
    }
    assert receives.running == map[];
    AllJoined(receives.view.Value(), files, receives.whole, receives.sound);
    WholeFilesAreWhole(hash, files, transferId, route, arriving, before, clock);
    r := Ok(());
  }

  /** The streams taken so far, and what the loop keeps of them. */
  ghost predicate Taking(files: seq<Manifest>, transferId: nat, route: seq<Open>,
                         before: map<nat, Grant>, after: map<nat, Grant>, clock: nat -> int, received: set<nat>) {
    && Taken(files, transferId, route, before, after, received)
    && OneEach(files, transferId, route, before, clock, |received|)
    && forall id :: id in received ==> exists i :: 0 <= i < |received| && route[i].fileId == id
  }

  lemma TakingNext(files: seq<Manifest>, transferId: nat, route: seq<Open>,
                   before: map<nat, Grant>, after: map<nat, Grant>, last: map<nat, Grant>, clock: nat -> int,
                   received: set<nat>, id: nat)
    requires Taking(files, transferId, route, before, after, clock, received)
    requires NextIsAdmissible(files, transferId, before, route, received, clock(|received|))
    requires id == route[|received|].fileId && Taken(files, transferId, route, before, last, received + {id})
    ensures Taking(files, transferId, route, before, last, clock, received + {id})
  {
    OneEachNext(files, transferId, route, before, after, clock, received);
    assert |received + {id}| == |received| + 1;
    forall x | x in received + {id} ensures exists i :: 0 <= i < |received| + 1 && route[i].fileId == x {
      if x in received {
        var i :| 0 <= i < |received| && route[i].fileId == x;
        assert i < |received| + 1;
      } else {
        assert route[|received|].fileId == x;
      }
    }
  }

  /** A stream that is next before the loop ends is known, and is admissible if all is well. */
  lemma NextIsTracked(hash: Hash, files: seq<Manifest>, transferId: nat, route: seq<Open>, arriving: nat -> Arriving,
                      before: map<nat, Grant>, after: map<nat, Grant>, clock: nat -> int, received: set<nat>)
    requires Taking(files, transferId, route, before, after, clock, received) && |received| < |files|
    ensures var n := |received|;
            var all := AllWhole(hash, files, transferId, route, arriving, before, clock);
            && (all ==> NextIsAdmissible(files, transferId, before, route, received, clock(n)))
            && (NextIsAdmissible(files, transferId, before, route, received, clock(n)) ==>
                 NextIsKnown(hash, files, route[n].fileId, arriving(n), WholeFiles(hash, files, route, arriving), all))
  {
    OneEachNext(files, transferId, route, before, after, clock, received);
  }

  /** Takes one stream after the other and spawns their receives. */
  method TakeAll(hash: Hash, files: seq<Manifest>, transferId: nat, grants: Grants, route: seq<Open>,
                 arriving: nat -> Arriving, clock: nat -> int, receives: JoinSet)
    returns (r: Result<()>, received: set<nat>, ghost peak: nat)
    requires receives.Valid() && receives.files == files && receives.received == {} && !receives.failed
    requires receives.whole == WholeFiles(hash, files, route, arriving)
    requires receives.sound ==> AllWhole(hash, files, transferId, route, arriving, grants.byFile, clock)
    modifies grants, receives, receives.view
    ensures receives.Valid() && receives.received == received && peak <= FILE_STREAM_CONCURRENCY
    ensures Taken(files, transferId, route, old(grants.byFile), grants.byFile, received)
    ensures receives.sound ==> r.Ok?
    ensures r.Ok? ==> received == FileIds(files) && !receives.failed
    ensures r.Ok? ==> OneEach(files, transferId, route, old(grants.byFile), clock, |files|)
  {
    ghost var before := grants.byFile;
    received, peak := {}, 0;
    for taken := 0 to |files|
      invariant receives.Valid() && receives.received == received && |received| == taken && !receives.failed
      invariant Taking(files, transferId, route, before, grants.byFile, clock, received)
      invariant peak <= FILE_STREAM_CONCURRENCY
    {
      ghost var after := grants.byFile;
      NextIsTracked(hash, files, transferId, route, arriving, before, after, clock, received);
      var stream := ReceiveNext(hash, files, transferId, grants, route, arriving(taken), clock(taken), receives,
                                before, received);
      if stream.Err? {
        return Err(stream.error), received, peak;
      }
      TakingNext(files, transferId, route, before, after, grants.byFile, clock, received, stream.value);
      received := received + {stream.value};
      peak := if |receives.running.Keys| > peak then |receives.running.Keys| else peak;
    }
    AllTaken(files, transferId, route, before, grants.byFile, received);
    r := Ok(());
  }

  /** Exactly-once receipt. `route` holds the streams the router delivers before it stops or times
      out, `arriving` what each of them carries, and `clock` the time at each grant check. Ok means that
      one admissible and whole stream was taken for every manifest file, that every receive was joined,
      that none failed, and that the view shows the whole transfer; and if nothing else fails, such
      streams are enough. On every exit the streams taken are distinct files of the manifest, exactly
      their grants are consumed, and never more than four receives were in flight. */
  method ReceiveAll(hash: Hash, files: seq<Manifest>, transferId: nat, grants: Grants, view: TransferView,
                    route: seq<Open>, arriving: nat -> Arriving, clock: nat -> int, healthy: bool)
    returns (r: Result<()>, received: set<nat>, receives: JoinSet, ghost peak: nat)
    requires UniqueManifest(files) && SameFiles(view.Value(), files)
    requires Conserved(view.Value()) && NoProgress(view.Value()) && Active(view.status)
    modifies grants, view
    ensures Taken(files, transferId, route, old(grants.byFile), grants.byFile, received)
    ensures peak <= FILE_STREAM_CONCURRENCY
    ensures r.Ok? ==> received == FileIds(files) && receives.running == map[] && !receives.failed
    ensures r.Ok? ==> AllWhole(hash, files, transferId, route, arriving, old(grants.byFile), clock)
    ensures Conserved(view.Value()) && (r.Ok? ==> view.completed == view.total)
    ensures healthy && AllWhole(hash, files, transferId, route, arriving, old(grants.byFile), clock) ==> r.Ok?
  {
    ghost var before := grants.byFile;
    ghost var sound := healthy && AllWhole(hash, files, transferId, route, arriving, before, clock);
    receives := new JoinSet(view, healthy, files, WholeFiles(hash, files, route, arriving), sound);
    r, received, peak := TakeAll(hash, files, transferId, grants, route, arriving, clock, receives);
    if r.Ok? {
      r := JoinAll(hash, files, transferId, route, arriving, clock, receives, before);
    }
  }
}
