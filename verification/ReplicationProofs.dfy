/** The inductive invariant of the replication system and the theorems that follow from it. */
module ReplicationProofs {
  import opened Prelude
  import opened Transfer
  import opened History
  import opened Replication

  // ----- lists of transfers -----

  lemma FindAt(ts: seq<View>, i: nat)
    requires UniqueIds(ts) && i < |ts|
    ensures FindIndex(ts, ts[i].id) == Some(i)
  {
    assert FindIndex(ts, ts[i].id).Some?;
  }

  lemma LookupAfterSet(ts: seq<View>, i: nat, v: View, x: string)
    requires FindIndex(ts, v.id) == Some(i)
    ensures Lookup(ts[i := v], x) == if x == v.id then Some(v) else Lookup(ts, x)
  {
    var us := ts[i := v];
    if x == v.id {
      assert us[i].id == x;
      assert FindIndex(us, x).Some?;
      assert us[FindIndex(us, x).value].id == x;
    } else {
      match FindIndex(ts, x) {
        case None =>
          assert forall k :: 0 <= k < |us| ==> us[k].id != x;
        case Some(j) =>
          assert us[j].id == x;
          assert FindIndex(us, x).Some?;
      }
    }
  }

  lemma LookupAfterPatch(ts: seq<View>, p: Progress, x: string)
    ensures Lookup(Patch(ts, p), x)
              == match Lookup(ts, x)
                 case None => None
                 case Some(v) => Some(if x == p.transferId then PatchView(v, p) else v)
  {
    match FindIndex(ts, p.transferId) {
      case None =>
      case Some(i) => LookupAfterSet(ts, i, PatchView(ts[i], p), x);
    }
  }

  lemma LookupAfterCons(v: View, ts: seq<View>, x: string)
    requires v.id != x
    ensures Lookup([v] + ts, x) == Lookup(ts, x)
  {
    var us := [v] + ts;
    match FindIndex(ts, x) {
      case None => assert forall k :: 0 <= k < |us| ==> us[k].id != x;
      case Some(i) => assert us[i + 1].id == x;
    }
  }

  lemma {:induction false} PruneMembers(ts: seq<View>, seen: nat)
    requires UniqueIds(ts)
    ensures forall v :: v in PruneFrom(ts, seen) ==> v in ts
    ensures UniqueIds(PruneFrom(ts, seen))
  {
    if ts != [] {
      PruneMembers(ts[1..], seen);
      PruneMembers(ts[1..], seen + 1);
      forall v | v in ts[1..] ensures v.id != ts[0].id {
        var k :| 0 <= k < |ts[1..]| && ts[1..][k] == v;
        assert ts[k + 1] == v;
      }
    }
  }

  lemma LookupAfterPrune(ts: seq<View>, x: string)
    requires UniqueIds(ts)
    ensures UniqueIds(Prune(ts))
    ensures Lookup(Prune(ts), x).Some? ==> Lookup(Prune(ts), x) == Lookup(ts, x)
  {
    PruneMembers(ts, 0);
    if Lookup(Prune(ts), x).Some? {
      var v := Lookup(Prune(ts), x).value;
      var i :| 0 <= i < |ts| && ts[i] == v;
      FindAt(ts, i);
    }
  }

  // ----- the server's own invariant -----

  ghost predicate DirtyExact(v: View, dirty: map<nat, nat>) {
    forall i :: 0 <= i < |v.files| && v.files[i].id in dirty ==> v.files[i].completed == dirty[v.files[i].id]
  }

  /** The transfer lists all these files. */
  ghost predicate Lists(v: View, files: map<nat, nat>) {
    forall f :: f in files ==> IndexedLookup(v.files, f).Some?
  }

  ghost predicate ViewInv(v: View, s: Server, t: Trace) {
    && UniqueFileIds(v.files)
    && v.id in t.used
    && (v.id !in t.started ==> NoProgress(v))
    && DirtyExact(v, Dirty(s, v.id))
    && Lists(v, Unsent(t, v.id))
  }

  /** Unsent changes lie in the past, and are either dirty or lost. */
  ghost predicate UnsentInv(s: Server, t: Trace, id: string) {
    forall f :: f in Unsent(t, id) ==> Unsent(t, id)[f] < t.clock && f in Pending(s, t, id)
  }

  ghost predicate ListInv(s: Server, t: Trace) {
    && UniqueIds(s.transfers)
    && t.announced <= t.used && t.started <= t.used
    && s.emissions.Keys <= t.started && t.unsent.Keys <= t.started
    && (forall id :: UnsentInv(s, t, id))
    && forall v :: v in s.transfers ==> ViewInv(v, s, t)
  }

  /** A broadcast delta is the one that the history holds for its revision. */
  ghost predicate Logged(p: Progress, hist: seq<Revision>) {
    1 <= p.revision <= |hist| && hist[p.revision - 1].Delta? && hist[p.revision - 1].progress == p
  }

  /** The files that a delta leaves behind are files of its transfer. */
  ghost predicate KnownUnsent(rev: Revision)
    requires rev.Delta?
  {
    var v := Lookup(rev.transfers, rev.progress.transferId);
    v.Some? ==> Lists(v.value, rev.unsent)
  }

  /** A delta of the history carries its own revision and the last full one, and was broadcast. */
  ghost predicate Stamped(hist: seq<Revision>, log: seq<Progress>, k: nat)
    requires k < |hist|
  {
    hist[k].Delta? ==>
      && hist[k].progress.revision == k + 1
      && hist[k].progress.base == LastFull(hist, k)
      && hist[k].progress in log
      && KnownUnsent(hist[k])
  }

  ghost predicate LogInv(s: Server, t: Trace) {
    && |t.hist| == s.revision
    && s.lastFull == LastFull(t.hist, s.revision)
    && (forall a :: 0 <= a < |s.log| ==> Logged(s.log[a], t.hist))
    && (forall a, b :: 0 <= a < b < |s.log| ==> s.log[a].revision < s.log[b].revision)
    && (forall k {:trigger Stamped(t.hist, s.log, k)} :: 0 <= k < |t.hist| ==> Stamped(t.hist, s.log, k))
  }

  // ----- one subscriber -----

  ghost function Pending(s: Server, t: Trace, id: string): set<nat> {
    Dirty(s, id).Keys + Lost(t, id)
  }

  /** Everything about a transfer that progress does not change. */
  ghost function Static(v: View): View {
    v.(completed := 0, speed := 0, remaining := None, updatedAt := 0, files := Rewound(v.files))
  }

  ghost predicate Near(w: View, v: View, pending: set<nat>) {
    w.id == v.id && Static(w) == Static(v) && (pending == {} ==> w == v)
  }

  ghost predicate Tracks(ts: seq<View>, s: Server, t: Trace, id: string, since: nat) {
    var v := Lookup(s.transfers, id);
    v.Some? ==>
      Lookup(ts, id).Some? && Trails(Lookup(ts, id).value, v.value, StaleSince(Unsent(t, id), since))
  }

  /** A replica that has seen every revision since its baseline, read at clock `since`, differs from the
      server's state exactly in the changes that are unsent since then, and in unpublished writes. */
  ghost predicate Current(ts: seq<View>, profile: int, since: nat, s: Server, t: Trace) {
    && (forall id :: id in t.announced ==> Tracks(ts, s, t, id, since))
    && (!t.unpublished ==>
         && profile == s.profile
         && |ts| == |s.transfers|
         && forall k :: 0 <= k < |ts| ==> Near(ts[k], s.transfers[k], Pending(s, t, s.transfers[k].id)))
  }

  /** Folding the deltas up to revision `k` onto a replica of revision `r` is exact at `k`, unless a
      full snapshot lies between. */
  ghost predicate ExactAt(ts: seq<View>, hist: seq<Revision>, r: nat, k: nat, since: nat)
    requires 0 < k <= |hist|
  {
    LastFull(hist, k) <= r ==> hist[k - 1].Delta? && Exact(Fold(ts, hist, r, k), hist[k - 1], since)
  }

  ghost predicate ReplicaInv(s: Server, t: Trace, u: Subscriber)
    requires |t.hist| == s.revision && u.revision <= s.revision
  {
    && u.since <= t.clock
    && (forall k {:trigger ExactAt(u.transfers, t.hist, u.revision, k, u.since)} ::
         u.revision < k <= |t.hist| ==> ExactAt(u.transfers, t.hist, u.revision, k, u.since))
    && (s.lastFull <= u.revision ==>
         Current(Fold(u.transfers, t.hist, u.revision, s.revision), u.profile, u.since, s, t))
  }

  /** The cursor has passed no delta that is newer than the subscriber. */
  ghost predicate NothingPassed(s: Server, u: Subscriber)
    requires u.cursor <= |s.log|
  {
    forall a :: 0 <= a < u.cursor ==> s.log[a].revision <= u.revision
  }

  ghost predicate CursorInv(s: Server, t: Trace, u: Subscriber)
    requires |t.hist| == s.revision
  {
    && u.cursor <= |s.log| && u.seen <= s.version && u.revision <= s.revision
    && (u.initialized ==> u.base == LastFull(t.hist, u.revision) && (u.abandoned ==> Missed(s, u)))
    && (u.initialized && !u.abandoned && u.phase.Idle? ==>
         NothingPassed(s, u) && (u.seen == s.version ==> u.base == s.lastFull))
    && (u.initialized && !u.abandoned && !u.phase.Idle? ==>
         u.base < s.lastFull || u.cursor < |s.log| || NothingPassed(s, u))
  }

  ghost predicate SubInv(s: Server, t: Trace, u: Subscriber)
    requires |t.hist| == s.revision
  {
    CursorInv(s, t, u) && (u.initialized ==> ReplicaInv(s, t, u))
  }

  ghost predicate Inv(y: System) {
    && ListInv(y.server, y.trace)
    && LogInv(y.server, y.trace)
    && forall i :: 0 <= i < |y.subs| ==> SubInv(y.server, y.trace, y.subs[i])
  }

  // ----- revisions -----

  lemma {:induction false} LastFullPrefix(hist: seq<Revision>, x: Revision, n: nat)
    requires n <= |hist|
    ensures LastFull(hist + [x], n) == LastFull(hist, n)
  {
    if n > 0 {
      LastFullPrefix(hist, x, n - 1);
    }
  }

  lemma {:induction false} LastFullGap(hist: seq<Revision>, m: nat, n: nat)
    requires m <= n <= |hist|
    ensures LastFull(hist, m) <= LastFull(hist, n)
    ensures LastFull(hist, n) <= m ==> LastFull(hist, n) == LastFull(hist, m)
    ensures LastFull(hist, n) > m ==> hist[LastFull(hist, n) - 1].Full?
  {
    if m < n {
      LastFullGap(hist, m, n - 1);
    }
  }

  lemma {:induction false} FoldPrefix(ts: seq<View>, hist: seq<Revision>, x: Revision, r: nat, k: nat)
    requires k <= |hist|
    ensures Fold(ts, hist + [x], r, k) == Fold(ts, hist, r, k)
  {
    if k > r {
      FoldPrefix(ts, hist, x, r, k - 1);
    }
  }

  lemma {:induction false} FoldShift(ts: seq<View>, hist: seq<Revision>, r: nat, k: nat)
    requires r < k <= |hist| && hist[r].Delta?
    ensures Fold(Patch(ts, hist[r].progress), hist, r + 1, k) == Fold(ts, hist, r, k)
  {
    if k > r + 1 {
      FoldShift(ts, hist, r, k - 1);
    } else {
      assert Fold(ts, hist, r, r) == ts;
    }
  }

  // ----- progress -----

  /** A progress report of file `fileId`, at position `j`, of the transfer `id`, at position `i`. */
  datatype Report = Report(id: string, fileId: nat, bytes: nat, i: nat, j: nat)

  /** The report rewrites its file, and otherwise only what progress may change. */
  ghost predicate Rewritten(v: View, w: View, r: Report) {
    && IndexedLookup(v.files, r.fileId) == Some(r.j) && r.j < |v.files| && v.files[r.j].id == r.fileId
    && w.id == r.id && w.files == v.files[r.j := v.files[r.j].(completed := r.bytes)]
    && Static(w) == Static(v)
  }

  /** What one accepted progress report changes. */
  ghost predicate Recorded(s: Server, n: Server, r: Report) {
    && FindIndex(s.transfers, r.id) == Some(r.i)
    && |n.transfers| == |s.transfers|
    && n.transfers == s.transfers[r.i := n.transfers[r.i]]
    && Rewritten(s.transfers[r.i], n.transfers[r.i], r)
    && s.transfers[r.i].files[r.j].completed == Bytes(s.transfers, r.id, r.fileId) <= r.bytes
    && r.bytes == Bytes(n.transfers, r.id, r.fileId)
    && n.profile == s.profile && n.version == s.version && n.lastFull == s.lastFull
    && n.emissions.Keys == s.emissions.Keys + {r.id}
    && (forall x :: x != r.id ==> Dirty(n, x) == Dirty(s, x))
    && if |n.log| > |s.log| then Emitted(s, n, r) else NotEmitted(s, n, r)
  }

  /** The delta of this report carries its totals and everything that was dirty. */
  ghost predicate Emitted(s: Server, n: Server, r: Report)
    requires |n.log| > |s.log| && r.i < |n.transfers|
  {
    && n.revision == s.revision + 1
    && Dirty(n, r.id) == map[]
    && n.log == s.log + [n.log[|s.log|]]
    && var p := n.log[|s.log|];
       && p.revision == n.revision && p.base == s.lastFull && p.transferId == r.id
       && p.files == Dirty(s, r.id)[r.fileId := r.bytes]
       && SameTotals(PatchView(n.transfers[r.i], p), n.transfers[r.i])
  }

  ghost predicate NotEmitted(s: Server, n: Server, r: Report) {
    && n.revision == s.revision && n.log == s.log
    && Dirty(n, r.id) == Dirty(s, r.id)[r.fileId := r.bytes]
  }

  lemma SamePosition(files: seq<FileView>, others: seq<FileView>, id: nat)
    requires |files| == |others| && forall i :: 0 <= i < |files| ==> files[i].id == others[i].id
    ensures IndexedLookup(files, id) == IndexedLookup(others, id)
  {
    assert Position(files, id) == Position(others, id);
  }

  lemma RecordShape(s: Server, id: string, fileId: nat, bytes: nat, speed: nat, now: int, due: bool)
    returns (n: Server, r: Report)
    requires RecordLive(s, id, fileId, bytes, speed, now, due).Ok?
    ensures RecordLive(s, id, fileId, bytes, speed, now, due) == Ok(n)
    ensures r.id == id && r.fileId == fileId && r.bytes == bytes && Recorded(s, n, r)
  {
    n := RecordLive(s, id, fileId, bytes, speed, now, due).value;
    var i := FindIndex(s.transfers, id).value;
    var j := IndexedLookup(s.transfers[i].files, fileId).value;
    r := Report(id, fileId, bytes, i, j);
    assert Rewound(n.transfers[i].files) == Rewound(s.transfers[i].files);
    assert n.transfers == s.transfers[i := n.transfers[i]];
    LookupAfterSet(s.transfers, i, n.transfers[i], id);
    SamePosition(s.transfers[i].files, n.transfers[i].files, fileId);
  }

  /** The trace after a progress report. */
  ghost predicate TracedRecord(s: Server, t: Trace, n: Server, t': Trace, r: Report) {
    && t'.clock == t.clock + 1
    && Unsent(t', r.id) == UnsentAfter(t, s, n, r.id, r.fileId)
    && (forall x :: x != r.id ==> Unsent(t', x) == Unsent(t, x))
    && Lost(t', r.id) == Lost(t, r.id) - {r.fileId}
    && (forall x :: x != r.id ==> Lost(t', x) == Lost(t, x))
    && t'.started == t.started + {r.id} && t'.unsent.Keys == t.unsent.Keys + {r.id}
    && t'.announced == t.announced && t'.used == t.used && t'.unpublished == t.unpublished
  }

  ghost predicate Steps(s: Server, t: Trace, n: Server, t': Trace, r: Report) {
    ListInv(s, t) && Recorded(s, n, r) && TracedRecord(s, t, n, t', r)
  }

  lemma RecordKeepsUnsent(s: Server, t: Trace, n: Server, t': Trace, r: Report, id: string)
    requires Steps(s, t, n, t', r)
    ensures UnsentInv(n, t', id)
  {
    assert UnsentInv(s, t, id);
  }

  lemma RecordKeepsLists(s: Server, t: Trace, n: Server, t': Trace, r: Report)
    requires Steps(s, t, n, t', r) && Lists(s.transfers[r.i], Unsent(t, r.id))
    ensures Lists(n.transfers[r.i], Unsent(t', r.id))
  {
    forall f | f in Unsent(t', r.id) ensures IndexedLookup(n.transfers[r.i].files, f).Some? {
      assert f in Unsent(t, r.id) || f == r.fileId;
      SamePosition(s.transfers[r.i].files, n.transfers[r.i].files, f);
    }
  }

  lemma RecordKeepsView(s: Server, t: Trace, n: Server, t': Trace, r: Report, k: nat)
    requires Steps(s, t, n, t', r) && k < |n.transfers|
    ensures ViewInv(n.transfers[k], n, t')
  {
    var v := s.transfers[k];
    assert v in s.transfers && ViewInv(v, s, t);
    if k == r.i {
      RecordKeepsLists(s, t, n, t', r);
    } else {
      assert v.id != r.id;
    }
  }

  lemma RecordKeepsList(s: Server, t: Trace, n: Server, t': Trace, r: Report)
    requires Steps(s, t, n, t', r)
    ensures ListInv(n, t')
  {
    forall w | w in n.transfers ensures ViewInv(w, n, t') {
      var k :| 0 <= k < |n.transfers| && n.transfers[k] == w;
      RecordKeepsView(s, t, n, t', r, k);
    }
    forall id ensures UnsentInv(n, t', id) {
      RecordKeepsUnsent(s, t, n, t', r, id);
    }
  }

  lemma PatchedTrails(w: View, s: Server, t: Trace, n: Server, t': Trace, r: Report, since: nat)
    requires Steps(s, t, n, t', r) && |n.log| > |s.log|
    requires Trails(w, s.transfers[r.i], StaleSince(Unsent(t, r.id), since))
    ensures Trails(PatchView(w, n.log[|s.log|]), n.transfers[r.i], StaleSince(Unsent(t', r.id), since))
  {
    var v, v' := s.transfers[r.i], n.transfers[r.i];
    assert v in s.transfers && ViewInv(v, s, t);
    forall k | 0 <= k < |v.files| && k != r.j ensures v.files[k].id != r.fileId && v'.files[k] == v.files[k] {
    }
  }

  lemma UnpatchedTrails(w: View, s: Server, t: Trace, n: Server, t': Trace, r: Report, since: nat)
    requires Steps(s, t, n, t', r) && |n.log| == |s.log| && since <= t.clock
    requires Trails(w, s.transfers[r.i], StaleSince(Unsent(t, r.id), since))
    ensures Trails(w, n.transfers[r.i], StaleSince(Unsent(t', r.id), since))
  {
    hide Lookup, FindIndex, IndexedLookup, PatchView, Static;
    var v, v' := s.transfers[r.i], n.transfers[r.i];
    assert v in s.transfers && ViewInv(v, s, t);
    forall k | 0 <= k < |v.files| && k != r.j ensures v.files[k].id != r.fileId && v'.files[k] == v.files[k] {
    }
  }

  lemma SameView(w: View, v: View)
    requires Static(w) == Static(v) && Trails(w, v, {}) && SameTotals(w, v)
    ensures w == v
  {
    forall k | 0 <= k < |v.files| ensures w.files[k] == v.files[k] {
      assert Rewound(w.files)[k] == Rewound(v.files)[k];
    }
    assert w.files == v.files;
  }

  lemma PatchStatic(w: View, p: Progress)
    ensures Static(PatchView(w, p)) == Static(w)
  {
    assert Rewound(PatchFiles(w.files, p.files)) == Rewound(w.files);
  }

  lemma RecordTracks(ts: seq<View>, s: Server, t: Trace, n: Server, t': Trace, r: Report, x: string, since: nat)
    requires Steps(s, t, n, t', r) && since <= t.clock
    requires Tracks(ts, s, t, x, since)
    ensures |n.log| == |s.log| ==> Tracks(ts, n, t', x, since)
    ensures |n.log| > |s.log| ==> Tracks(Patch(ts, n.log[|s.log|]), n, t', x, since)
  {
    LookupAfterSet(s.transfers, r.i, n.transfers[r.i], x);
    if |n.log| > |s.log| {
      LookupAfterPatch(ts, n.log[|s.log|], x);
      if x == r.id {
        PatchedTrails(Lookup(ts, x).value, s, t, n, t', r, since);
      }
    } else if x == r.id {
      UnpatchedTrails(Lookup(ts, x).value, s, t, n, t', r, since);
    }
  }

  lemma RecordNear(ts: seq<View>, s: Server, t: Trace, n: Server, t': Trace, r: Report, since: nat, k: nat)
    requires Steps(s, t, n, t', r)
    requires r.id in t.announced && Tracks(ts, s, t, r.id, since)
    requires |ts| == |s.transfers| && k < |ts|
    requires forall m :: 0 <= m < |ts| ==> Near(ts[m], s.transfers[m], Pending(s, t, s.transfers[m].id))
    ensures |n.log| == |s.log| ==> Near(ts[k], n.transfers[k], Pending(n, t', n.transfers[k].id))
    ensures |n.log| > |s.log| ==>
      |Patch(ts, n.log[|s.log|])| == |ts|
      && Near(Patch(ts, n.log[|s.log|])[k], n.transfers[k], Pending(n, t', n.transfers[k].id))
  {
    assert forall m :: 0 <= m < |ts| ==> ts[m].id == s.transfers[m].id;
    assert UniqueIds(ts);
    FindAt(ts, r.i);
    if k == r.i && |n.log| > |s.log| {
      var p := n.log[|s.log|];
      var w := PatchView(ts[r.i], p);
      PatchStatic(ts[r.i], p);
      assert Patch(ts, p)[r.i] == w;
      FindAt(s.transfers, r.i);
      PatchedTrails(ts[r.i], s, t, n, t', r, since);
      RecordKeepsUnsent(s, t, n, t', r, r.id);
      if Pending(n, t', r.id) == {} {
        assert StaleSince(Unsent(t', r.id), since) == {};
        SameView(w, n.transfers[r.i]);
      }
    } else if k == r.i {
      assert r.fileId in Pending(n, t', r.id);
    } else {
      assert s.transfers[k].id != r.id;
    }
  }

  lemma RecordTracksAll(ts: seq<View>, s: Server, t: Trace, n: Server, t': Trace, r: Report, since: nat)
    requires Steps(s, t, n, t', r) && since <= t.clock
    requires forall x :: x in t.announced ==> Tracks(ts, s, t, x, since)
    ensures |n.log| == |s.log| ==> forall x :: x in t'.announced ==> Tracks(ts, n, t', x, since)
    ensures |n.log| > |s.log| ==>
      forall x :: x in t'.announced ==> Tracks(Patch(ts, n.log[|s.log|]), n, t', x, since)
  {
    forall x | x in t'.announced
      ensures |n.log| == |s.log| ==> Tracks(ts, n, t', x, since)
      ensures |n.log| > |s.log| ==> Tracks(Patch(ts, n.log[|s.log|]), n, t', x, since)
    {
      RecordTracks(ts, s, t, n, t', r, x, since);
    }
  }

  lemma TrackedIsExact(ts: seq<View>, s: Server, t: Trace, n: Server, t': Trace, r: Report, since: nat)
    requires Steps(s, t, n, t', r) && |n.log| > |s.log|
    requires Tracks(ts, s, t, r.id, since) && Tracks(Patch(ts, n.log[|s.log|]), n, t', r.id, since)
    ensures Exact(Patch(ts, n.log[|s.log|]), Delta(n.log[|s.log|], n.transfers, Unsent(t', r.id)), since)
  {
    LookupAfterPatch(ts, n.log[|s.log|], r.id);
    LookupAfterSet(s.transfers, r.i, n.transfers[r.i], r.id);
  }

  /** A progress report keeps a complete replica current: applying its delta, if it emitted one. */
  lemma RecordKeepsCurrent(ts: seq<View>, profile: int, since: nat, s: Server, t: Trace, n: Server, t': Trace,
                           r: Report)
    requires Steps(s, t, n, t', r) && since <= t.clock
    requires r.id in t.announced && Current(ts, profile, since, s, t)
    ensures |n.log| == |s.log| ==> Current(ts, profile, since, n, t')
    ensures |n.log| > |s.log| ==>
      var p := n.log[|s.log|];
      && Current(Patch(ts, p), profile, since, n, t')
      && Exact(Patch(ts, p), Delta(p, n.transfers, Unsent(t', r.id)), since)
  {
    assert Tracks(ts, s, t, r.id, since);
    RecordTracksAll(ts, s, t, n, t', r, since);
    if !t.unpublished {
      forall k | 0 <= k < |ts|
        ensures |n.log| == |s.log| ==> Near(ts[k], n.transfers[k], Pending(n, t', n.transfers[k].id))
        ensures |n.log| > |s.log| ==>
          |Patch(ts, n.log[|s.log|])| == |ts|
          && Near(Patch(ts, n.log[|s.log|])[k], n.transfers[k], Pending(n, t', n.transfers[k].id))
      {
        RecordNear(ts, s, t, n, t', r, since, k);
      }
      assert |n.log| > |s.log| ==> |Patch(ts, n.log[|s.log|])| == |ts|;
    }
    if |n.log| > |s.log| {
      TrackedIsExact(ts, s, t, n, t', r, since);
    }
  }

  // ----- writes and forgetting -----

  lemma EditKeepsProgress(v: View, edit: Edit)
    requires ApplyEdit(v, edit).Ok? && (edit.Reset? ==> NoProgress(v))
    ensures var w := ApplyEdit(v, edit).value;
            && w.id == v.id && Trails(w, v, {})
            && (UniqueFileIds(v.files) ==> UniqueFileIds(w.files))
            && (NoProgress(v) ==> NoProgress(w))
            && forall dirty :: DirtyExact(v, dirty) ==> DirtyExact(w, dirty)
  {
  }

  lemma UnsentStays(s: Server, t: Trace, n: Server, t': Trace)
    requires n.emissions == s.emissions
    requires t'.unsent == t.unsent && t'.lost == t.lost && t'.clock == t.clock
    requires forall id :: UnsentInv(s, t, id)
    ensures forall id :: UnsentInv(n, t', id)
  {
    forall id ensures UnsentInv(n, t', id) {
      assert UnsentInv(s, t, id) && Pending(n, t', id) == Pending(s, t, id);
    }
  }

  lemma MutateKeepsList(s: Server, t: Trace, id: string, edit: Edit, t': Trace)
    requires ListInv(s, t) && Mutate(s, id, edit).Ok? && (edit.Reset? ==> id !in t.started)
    requires t' == t.(unpublished := true)
    ensures ListInv(Mutate(s, id, edit).value, t')
    ensures forall x :: Lookup(Mutate(s, id, edit).value.transfers, x).Some? ==>
      && Lookup(s.transfers, x).Some?
      && Trails(Lookup(Mutate(s, id, edit).value.transfers, x).value, Lookup(s.transfers, x).value, {})
  {
    var n := Mutate(s, id, edit).value;
    var i := FindIndex(s.transfers, id).value;
    var v := s.transfers[i];
    assert v in s.transfers && ViewInv(v, s, t);
    EditKeepsProgress(v, edit);
    var w := ApplyEdit(v, edit).value;
    var us := s.transfers[i := w];
    assert forall k :: 0 <= k < |us| ==> us[k].id == s.transfers[k].id;
    PruneMembers(us, 0);
    UnsentStays(s, t, n, t');
    forall z | z in n.transfers ensures ViewInv(z, n, t') {
      var k :| 0 <= k < |us| && us[k] == z;
      if k != i {
        assert z in s.transfers && ViewInv(z, s, t);
      }
    }
    forall x | Lookup(n.transfers, x).Some?
      ensures Lookup(s.transfers, x).Some?
      ensures Trails(Lookup(n.transfers, x).value, Lookup(s.transfers, x).value, {})
    {
      LookupAfterPrune(us, x);
      LookupAfterSet(s.transfers, i, w, x);
    }
  }

  /** A pushed active transfer is listed first; the others stay, pruned. */
  lemma PushLists(s: Server, v: View)
    requires !v.status.Terminal()
    ensures Push(s, v).transfers == [v] + Prune(s.transfers) && Push(s, v) == s.(transfers := Push(s, v).transfers)
  {
    assert ([v] + s.transfers)[1..] == s.transfers;
  }

  /** An accepted mutation applies its edit to its transfer and leaves every other listed one alone. */
  lemma MutateApplies(s: Server, id: string, edit: Edit, x: string)
    requires UniqueIds(s.transfers) && Mutate(s, id, edit).Ok?
    ensures var n := Mutate(s, id, edit).value;
            && n == s.(transfers := n.transfers) && Lookup(s.transfers, id).Some?
            && ApplyEdit(Lookup(s.transfers, id).value, edit).Ok?
            && (Lookup(n.transfers, x).Some? ==>
                 && Lookup(s.transfers, x).Some?
                 && var v := Lookup(s.transfers, x).value;
                    Lookup(n.transfers, x).value == if x == id then ApplyEdit(v, edit).value else v)
            && (Lookup(s.transfers, x).Some? && !Lookup(s.transfers, x).value.status.Terminal() && x != id ==>
                 Lookup(n.transfers, x).Some?)
            && |Terminals(n.transfers)| <= 200
  {
    var i := FindIndex(s.transfers, id).value;
    var w := ApplyEdit(s.transfers[i], edit).value;
    var us := s.transfers[i := w];
    PruneKeeps(us, 0);
    assert forall k :: 0 <= k < |us| ==> us[k].id == s.transfers[k].id;
    LookupAfterPrune(us, x);
    LookupAfterSet(s.transfers, i, w, x);
    if Lookup(us, x).Some? && !Lookup(us, x).value.status.Terminal() {
      ActiveStays(us, 0, Lookup(us, x).value);
      assert Lookup(us, x).value in Prune(us);
    }
  }

  lemma {:induction false} ActiveStays(ts: seq<View>, seen: nat, v: View)
    requires v in ts && !v.status.Terminal()
    ensures v in PruneFrom(ts, seen)
  {
    if ts[0] != v {
      ActiveStays(ts[1..], seen, v);
      ActiveStays(ts[1..], seen + 1, v);
    }
  }

  lemma PushKeepsList(s: Server, t: Trace, v: View, t': Trace)
    requires ListInv(s, t) && v.id !in t.used && Fresh(v)
    requires t' == t.(unpublished := true, used := t.used + {v.id})
    ensures ListInv(Push(s, v), t')
    ensures forall x :: x in t.announced && Lookup(Push(s, v).transfers, x).Some? ==>
      Lookup(Push(s, v).transfers, x) == Lookup(s.transfers, x)
  {
    var us := [v] + s.transfers;
    forall i, j | 0 <= i < j < |us| ensures us[i].id != us[j].id {
      assert us[j] in s.transfers && ViewInv(us[j], s, t);
    }
    PruneMembers(us, 0);
    UnsentStays(s, t, Push(s, v), t');
    forall z | z in Push(s, v).transfers ensures ViewInv(z, Push(s, v), t') {
      assert z == v || z in s.transfers;
      if z != v {
        assert ViewInv(z, s, t);
      }
    }
    forall x | x in t.announced && Lookup(Push(s, v).transfers, x).Some?
      ensures Lookup(Push(s, v).transfers, x) == Lookup(s.transfers, x)
    {
      LookupAfterPrune(us, x);
      assert us[1..] == s.transfers;
    }
  }

  lemma WriteKeepsCurrent(ts: seq<View>, profile: int, since: nat, s: Server, t: Trace, n: Server, t': Trace)
    requires Current(ts, profile, since, s, t) && t'.unpublished && t'.announced == t.announced
    requires t'.unsent == t.unsent
    requires forall x :: x in t.announced && Lookup(n.transfers, x).Some? ==>
      Lookup(s.transfers, x).Some? && Trails(Lookup(n.transfers, x).value, Lookup(s.transfers, x).value, {})
    ensures Current(ts, profile, since, n, t')
  {
    forall x | x in t'.announced ensures Tracks(ts, n, t', x, since) {
      assert Tracks(ts, s, t, x, since);
    }
  }

  lemma ForgetKeeps(s: Server, t: Trace, id: string, t': Trace, ts: seq<View>, profile: int, since: nat)
    requires ListInv(s, t)
    requires t' == t.(lost := t.lost[id := Lost(t, id) + Dirty(s, id).Keys])
    ensures ListInv(Forget(s, id), t')
    ensures Current(ts, profile, since, s, t) ==> Current(ts, profile, since, Forget(s, id), t')
  {
    var n := Forget(s, id);
    forall x ensures Pending(n, t', x) == Pending(s, t, x) {
    }
    forall v | v in n.transfers ensures ViewInv(v, n, t') {
      assert ViewInv(v, s, t);
    }
    forall x ensures UnsentInv(n, t', x) {
      assert UnsentInv(s, t, x) && Pending(n, t', x) == Pending(s, t, x);
    }
    if Current(ts, profile, since, s, t) {
      forall x | x in t'.announced ensures Tracks(ts, n, t', x, since) {
        assert Tracks(ts, s, t, x, since);
      }
    }
  }

  // ----- new revisions -----

  lemma LogAppend(s: Server, t: Trace, n: Server, t': Trace, x: Revision)
    requires LogInv(s, t)
    requires t'.hist == t.hist + [x] && n.revision == s.revision + 1
    requires x.Full? ==> n.log == s.log && n.lastFull == n.revision
    requires x.Delta? ==>
      n.log == s.log + [x.progress] && x.progress.revision == n.revision
      && x.progress.base == s.lastFull && n.lastFull == s.lastFull && KnownUnsent(x)
    ensures LogInv(n, t')
  {
    LastFullPrefix(t.hist, x, s.revision);
    forall a | 0 <= a < |n.log| ensures Logged(n.log[a], t'.hist) {
      if a < |s.log| {
        assert Logged(s.log[a], t.hist);
      }
    }
    forall a, b | 0 <= a < b < |n.log| ensures n.log[a].revision < n.log[b].revision {
      assert Logged(s.log[a], t.hist);
      assert b < |s.log| ==> s.log[a].revision < s.log[b].revision;
    }
    forall k | 0 <= k < |t'.hist| ensures Stamped(t'.hist, n.log, k) {
      LastFullPrefix(t.hist, x, k);
      if k < |t.hist| {
        assert Stamped(t.hist, s.log, k);
      } else if x.Delta? {
        assert n.log[|s.log|] == x.progress;
      }
    }
  }

  /** A step that assigns no revision leaves a subscriber's history intact. */
  lemma SubQuiet(s: Server, t: Trace, n: Server, t': Trace, u: Subscriber)
    requires |t.hist| == s.revision && SubInv(s, t, u)
    requires n.revision == s.revision && n.lastFull == s.lastFull && n.log == s.log && n.version == s.version
    requires t'.hist == t.hist && t.clock <= t'.clock
    requires u.initialized && s.lastFull <= u.revision ==>
      Current(Fold(u.transfers, t.hist, u.revision, s.revision), u.profile, u.since, n, t')
    ensures SubInv(n, t', u)
  {
  }

  lemma CursorAfterRevision(s: Server, t: Trace, n: Server, t': Trace, x: Revision, u: Subscriber)
    requires |t.hist| == s.revision && |t'.hist| == n.revision && CursorInv(s, t, u)
    requires t'.hist == t.hist + [x] && s.log <= n.log
    requires x.Full? ==> n.version == s.version + 1
    requires if x.Full? then n.lastFull == n.revision > s.revision else n.lastFull == s.lastFull
    requires x.Delta? ==> n.version == s.version
    ensures CursorInv(n, t', u)
  {
    LastFullPrefix(t.hist, x, u.revision);
    assert forall a :: 0 <= a < |s.log| ==> n.log[a] == s.log[a];
    if u.initialized && Missed(s, u) && n.lastFull == s.lastFull && u.base >= s.lastFull {
      var a :| 0 <= a < u.cursor && a < |s.log| && s.log[a].revision > u.revision;
      assert n.log[a].revision > u.revision;
    }
  }

  lemma ExactAtPrefix(ts: seq<View>, hist: seq<Revision>, x: Revision, r: nat, k: nat, since: nat)
    requires 0 < k <= |hist| && ExactAt(ts, hist, r, k, since)
    ensures ExactAt(ts, hist + [x], r, k, since)
  {
    LastFullPrefix(hist, x, k);
    FoldPrefix(ts, hist, x, r, k);
  }

  lemma SubAfterRevision(s: Server, t: Trace, n: Server, t': Trace, x: Revision, u: Subscriber)
    requires |t.hist| == s.revision && |t'.hist| == n.revision && SubInv(s, t, u)
    requires s.lastFull == LastFull(t.hist, s.revision) && n.lastFull == LastFull(t'.hist, n.revision)
    requires t'.hist == t.hist + [x] && s.log <= n.log && t.clock <= t'.clock
    requires x.Full? ==> n.version == s.version + 1
    requires x.Delta? ==> n.version == s.version && n.lastFull == s.lastFull
    requires x.Delta? && u.initialized && s.lastFull <= u.revision ==>
      var ts := Patch(Fold(u.transfers, t.hist, u.revision, s.revision), x.progress);
      Current(ts, u.profile, u.since, n, t') && Exact(ts, x, u.since)
    ensures SubInv(n, t', u)
  {
    hide Current, Exact, Patch;
    CursorAfterRevision(s, t, n, t', x, u);
    if u.initialized {
      FoldPrefix(u.transfers, t.hist, x, u.revision, s.revision);
      assert t'.hist[s.revision] == x;
      forall k | u.revision < k <= |t'.hist| ensures ExactAt(u.transfers, t'.hist, u.revision, k, u.since) {
        if k <= |t.hist| {
          ExactAtPrefix(u.transfers, t.hist, x, u.revision, k, u.since);
        }
      }
    }
  }

  // ----- subscriber steps -----

  lemma ReadKeepsSub(s: Server, t: Trace, u: Subscriber)
    requires LogInv(s, t) && ListInv(s, t) && CursorInv(s, t, u)
    ensures SubInv(s, t, Read(s, u, t.clock))
  {
    var r := Read(s, u, t.clock);
    assert Fold(r.transfers, t.hist, r.revision, s.revision) == s.transfers;
    forall id | id in t.announced ensures Tracks(s.transfers, s, t, id, t.clock) {
      assert UnsentInv(s, t, id);
    }
    forall a | 0 <= a < |s.log| ensures s.log[a].revision <= r.revision {
      assert Logged(s.log[a], t.hist);
    }
  }

  /** The base test is implied: the next revision, if it is a delta, continues the same full snapshot. */
  lemma BaseTestIsImplied(s: Server, t: Trace, u: Subscriber, a: nat)
    requires LogInv(s, t) && CursorInv(s, t, u) && u.initialized
    requires a < |s.log| && s.log[a].revision == u.revision + 1
    ensures s.log[a].base == u.base
  {
    assert Logged(s.log[a], t.hist);
    assert Stamped(t.hist, s.log, u.revision);
  }

  lemma ApplyKeepsReplica(s: Server, t: Trace, u: Subscriber, p: Progress)
    requires |t.hist| == s.revision && s.lastFull == LastFull(t.hist, s.revision)
    requires u.revision < s.revision && ReplicaInv(s, t, u)
    requires Logged(p, t.hist) && p.revision == u.revision + 1
    ensures ReplicaInv(s, t, u.(revision := p.revision, transfers := Patch(u.transfers, p)))
    ensures Exact(Patch(u.transfers, p), t.hist[u.revision], u.since)
  {
    hide Patch, Current, Exact;
    var hist, r, next := t.hist, u.revision, p.revision;
    var patched := Patch(u.transfers, p);
    assert ExactAt(u.transfers, hist, r, next, u.since);
    FoldShift(u.transfers, hist, r, next);
    assert Fold(patched, hist, next, next) == patched;
    forall k | next < k <= |hist| ensures ExactAt(patched, hist, next, k, u.since) {
      assert ExactAt(u.transfers, hist, r, k, u.since);
      FoldShift(u.transfers, hist, r, k);
      LastFullGap(hist, next, k);
    }
    LastFullGap(hist, next, s.revision);
    FoldShift(u.transfers, hist, r, s.revision);
  }

  /** If the next delta leaves a gap although none was passed over, a full snapshot filled it. */
  lemma GapMeansFull(s: Server, t: Trace, u: Subscriber)
    requires LogInv(s, t) && CursorInv(s, t, u) && u.initialized && NothingPassed(s, u)
    requires u.cursor < |s.log| && s.log[u.cursor].revision > u.revision + 1
    ensures u.base < s.lastFull
  {
    var p := s.log[u.cursor];
    assert Logged(p, t.hist);
    assert t.hist[u.revision].Full? by {
      assert Stamped(t.hist, s.log, u.revision);
      assert forall a :: 0 <= a < |s.log| ==> s.log[a].revision != u.revision + 1;
    }
    LastFullGap(t.hist, u.revision + 1, s.revision);
  }

  /** What was missed stays missed: no later delta fits. */
  lemma MissedStays(s: Server, t: Trace, u: Subscriber)
    requires LogInv(s, t) && CursorInv(s, t, u) && u.cursor < |s.log| && Missed(s, u)
    ensures Missed(s, Receive(s, u))
  {
    var n := Receive(s, u);
    if u.base >= s.lastFull {
      var a :| 0 <= a < u.cursor && a < |s.log| && s.log[a].revision > u.revision;
      assert s.log[a].revision < s.log[u.cursor].revision;
      assert a < n.cursor && n.revision == u.revision;
    }
  }

  lemma ReceiveKeepsCursor(s: Server, t: Trace, u: Subscriber)
    requires LogInv(s, t) && CursorInv(s, t, u)
    requires u.phase.Idle? && u.initialized && u.cursor < |s.log|
    ensures CursorInv(s, t, Receive(s, u))
  {
    var p := s.log[u.cursor];
    assert Logged(p, t.hist);
    assert Stamped(t.hist, s.log, p.revision - 1);
    if u.abandoned {
      MissedStays(s, t, u);
    } else if !Lagging(s, u) && p.revision > u.revision && !Applies(s, u) {
      if p.revision == u.revision + 1 {
        BaseTestIsImplied(s, t, u, u.cursor);
      }
      GapMeansFull(s, t, u);
    }
  }

  lemma AbandonKeepsCursor(s: Server, t: Trace, u: Subscriber)
    requires LogInv(s, t) && CursorInv(s, t, u)
    ensures CursorInv(s, t, Abandon(s, u))
  {
    LastFullGap(t.hist, u.revision, s.revision);
  }

  lemma ReceiveKeepsSub(s: Server, t: Trace, u: Subscriber)
    requires LogInv(s, t) && SubInv(s, t, u)
    requires u.phase.Idle? && u.initialized && u.cursor < |s.log|
    ensures SubInv(s, t, Receive(s, u))
    ensures Applies(s, u) ==> Exact(Receive(s, u).transfers, t.hist[u.revision], u.since)
  {
    ReceiveKeepsCursor(s, t, u);
    var p := s.log[u.cursor];
    assert Logged(p, t.hist);
    if Applies(s, u) {
      ApplyKeepsReplica(s, t, u, p);
    }
  }

  // ----- every step keeps the invariant -----

  lemma StartInv(ts: seq<View>, profile: int)
    requires Startable(ts)
    ensures Inv(Start(ts, profile))
  {
    var y := Start(ts, profile);
    forall v | v in ts ensures ViewInv(v, y.server, y.trace) {
      var i :| 0 <= i < |ts| && ts[i] == v;
      assert v.id in Ids(ts);
    }
  }

  lemma RecordKeepsSub(s: Server, t: Trace, n: Server, t': Trace, r: Report, u: Subscriber)
    requires LogInv(s, t) && LogInv(n, t') && Steps(s, t, n, t', r) && r.id in t.announced && SubInv(s, t, u)
    requires |n.log| == |s.log| ==> t'.hist == t.hist
    requires |n.log| > |s.log| ==> t'.hist == t.hist + [Delta(n.log[|s.log|], n.transfers, Unsent(t', r.id))]
    ensures SubInv(n, t', u)
  {
    if u.initialized && s.lastFull <= u.revision {
      RecordKeepsCurrent(Fold(u.transfers, t.hist, u.revision, s.revision), u.profile, u.since, s, t, n, t', r);
    }
    if |n.log| > |s.log| {
      SubAfterRevision(s, t, n, t', Delta(n.log[|s.log|], n.transfers, Unsent(t', r.id)), u);
    } else {
      SubQuiet(s, t, n, t', u);
    }
  }

  lemma RecordIsTraced(s: Server, t: Trace, step: Step, n: Server, r: Report)
    requires step.DoRecord? && r.id == step.id && r.fileId == step.fileId && |n.log| >= |s.log|
    ensures var t' := TraceAfter(t, s, n, step);
            && TracedRecord(s, t, n, t', r)
            && (|n.log| == |s.log| ==> t'.hist == t.hist)
            && (|n.log| == |s.log| + 1 ==>
                 t'.hist == t.hist + [Delta(n.log[|s.log|], n.transfers, Unsent(t', r.id))])
  {
  }

  lemma KnownAfterRecord(s: Server, t: Trace, n: Server, t': Trace, r: Report)
    requires Steps(s, t, n, t', r) && |n.log| > |s.log|
    ensures KnownUnsent(Delta(n.log[|s.log|], n.transfers, Unsent(t', r.id)))
  {
    LookupAfterSet(s.transfers, r.i, n.transfers[r.i], r.id);
    RecordKeepsView(s, t, n, t', r, r.i);
  }

  lemma RecordKeepsLog(s: Server, t: Trace, n: Server, t': Trace, r: Report)
    requires Steps(s, t, n, t', r) && LogInv(s, t)
    requires |n.log| == |s.log| ==> t'.hist == t.hist
    requires |n.log| > |s.log| ==> t'.hist == t.hist + [Delta(n.log[|s.log|], n.transfers, Unsent(t', r.id))]
    ensures LogInv(n, t')
  {
    if |n.log| > |s.log| {
      KnownAfterRecord(s, t, n, t', r);
      LogAppend(s, t, n, t', Delta(n.log[|s.log|], n.transfers, Unsent(t', r.id)));
    }
  }

  lemma RecordKeepsInv(y: System, step: Step)
    requires Inv(y) && step.DoRecord? && Enabled(y, step)
    ensures Inv(Next(y, step))
  {
    hide RecordLive, TracedRecord, ListInv, SubInv, LogInv, Mutate, Push, Publish;
    var s, t := y.server, y.trace;
    var z := Next(y, step);
    var n, r := RecordShape(s, step.id, step.fileId, step.bytes, step.speed, step.now, step.due);
    var t' := z.trace;
    assert z.server == n;
    RecordIsTraced(s, t, step, n, r);
    assert Steps(s, t, n, t', r);
    RecordKeepsList(s, t, n, t', r);
    RecordKeepsLog(s, t, n, t', r);
    forall k | 0 <= k < |y.subs| ensures SubInv(n, t', y.subs[k]) {
      assert SubInv(s, t, y.subs[k]);
      RecordKeepsSub(s, t, n, t', r, y.subs[k]);
    }
  }

  lemma WriteKeepsInv(y: System, step: Step)
    requires Inv(y) && (step.DoMutate? || step.DoPush? || step.DoProfile? || step.DoForget?) && Enabled(y, step)
    ensures Inv(Next(y, step))
  {
    var s, t := y.server, y.trace;
    var z := Next(y, step);
    var n, t' := z.server, z.trace;
    match step {
      case DoMutate(id, edit) => MutateKeepsList(s, t, id, edit, t');
      case DoPush(v) => PushKeepsList(s, t, v, t');
      case DoProfile(profile) =>
        forall v | v in n.transfers ensures ViewInv(v, n, t') {
          assert ViewInv(v, s, t);
        }
        UnsentStays(s, t, n, t');
      case DoForget(id) => ForgetKeeps(s, t, id, t', [], 0, 0);
    }
    forall k | 0 <= k < |y.subs| ensures SubInv(n, t', y.subs[k]) {
      var u := y.subs[k];
      assert SubInv(s, t, u);
      if u.initialized && s.lastFull <= u.revision {
        var ts := Fold(u.transfers, t.hist, u.revision, s.revision);
        if step.DoForget? {
          ForgetKeeps(s, t, step.id, t', ts, u.profile, u.since);
        } else {
          WriteKeepsCurrent(ts, u.profile, u.since, s, t, n, t');
        }
      }
      SubQuiet(s, t, n, t', u);
    }
  }

  lemma PublishKeepsInv(y: System)
    requires Inv(y)
    ensures Inv(Next(y, DoPublish))
    ensures var z := Next(y, DoPublish);
            && z.server.revision == y.server.revision + 1 == z.server.lastFull
            && LastFull(z.trace.hist, z.server.revision) == z.server.revision
            && forall id :: Unsent(z.trace, id) == map[]
  {
    var s, t := y.server, y.trace;
    var z := Next(y, DoPublish);
    var n, t' := z.server, z.trace;
    forall v | v in n.transfers ensures ViewInv(v, n, t') {
      assert ViewInv(v, s, t);
    }
    forall id | id in Ids(s.transfers) ensures id in t'.used {
      var i :| 0 <= i < |s.transfers| && s.transfers[i].id == id;
      assert s.transfers[i] in s.transfers && ViewInv(s.transfers[i], s, t);
    }
    LogAppend(s, t, n, t', Full(s.transfers));
    forall k | 0 <= k < |y.subs| ensures SubInv(n, t', y.subs[k]) {
      assert SubInv(s, t, y.subs[k]);
      SubAfterRevision(s, t, n, t', Full(s.transfers), y.subs[k]);
    }
  }

  lemma SubscriberKeepsInv(y: System, step: Step)
    requires Inv(y) && (step.DoSubscribe? || step.DoBegin? || step.DoRead? || step.DoAbandon? || step.DoReceive?)
    requires Enabled(y, step)
    ensures Inv(Next(y, step))
  {
    hide RecordLive, Mutate, Push, ListInv;
    var s, t := y.server, y.trace;
    var z := Next(y, step);
    assert z.server == s && z.trace == t;
    forall k | 0 <= k < |z.subs| ensures SubInv(s, t, z.subs[k]) {
      if k < |y.subs| {
        assert SubInv(s, t, y.subs[k]);
        match step {
          case DoRead(who) => ReadKeepsSub(s, t, y.subs[who]);
          case DoReceive(who) => ReceiveKeepsSub(s, t, y.subs[who]);
          case DoAbandon(who) => AbandonKeepsCursor(s, t, y.subs[who]);
          case _ =>
        }
      }
    }
  }

  lemma StepKeepsInv(y: System, step: Step)
    requires Inv(y) && Enabled(y, step)
    ensures Inv(Next(y, step))
  {
    match step {
      case DoRecord(_, _, _, _, _, _) => RecordKeepsInv(y, step);
      case DoForget(_) => WriteKeepsInv(y, step);
      case DoMutate(_, _) => WriteKeepsInv(y, step);
      case DoPush(_) => WriteKeepsInv(y, step);
      case DoProfile(_) => WriteKeepsInv(y, step);
      case DoPublish => PublishKeepsInv(y);
      case _ => SubscriberKeepsInv(y, step);
    }
  }

  lemma {:induction false} RunKeepsInv(y: System, steps: seq<Step>)
    requires Inv(y) && Legal(y, steps)
    ensures Inv(After(y, steps))
    decreases |steps|
  {
    if steps != [] {
      StepKeepsInv(y, steps[0]);
      RunKeepsInv(Next(y, steps[0]), steps[1..]);
    }
  }

  lemma Reached(ts: seq<View>, profile: int, steps: seq<Step>) returns (y: System)
    requires Startable(ts) && Legal(Start(ts, profile), steps)
    ensures y == After(Start(ts, profile), steps) && Inv(y)
  {
    StartInv(ts, profile);
    y := After(Start(ts, profile), steps);
    RunKeepsInv(Start(ts, profile), steps);
  }

  // ----- the theorems -----

  predicate Delivers(y: System, who: nat) {
    && Enabled(y, DoReceive(who))
    && Applies(y.server, y.subs[who])
  }

  /** The delta that subscriber `who` receives next. */
  function Incoming(y: System, who: nat): Progress
    requires Enabled(y, DoReceive(who))
  {
    y.server.log[y.subs[who].cursor]
  }

  lemma DeliveryHappens(y: System, who: nat)
    requires Delivers(y, who)
    ensures who < |Next(y, DoReceive(who)).subs|
    ensures Next(y, DoReceive(who)).subs[who] == Receive(y.server, y.subs[who])
    ensures Receive(y.server, y.subs[who]).since == y.subs[who].since
  {
    hide RecordLive, Mutate, Push, Patch, TraceAfter;
  }

  lemma DeliveryIsExact(s: Server, t: Trace, u: Subscriber)
    requires LogInv(s, t) && SubInv(s, t, u)
    requires u.phase.Idle? && u.initialized && u.cursor < |s.log| && Applies(s, u)
    ensures Logged(s.log[u.cursor], t.hist)
    ensures Receive(s, u).revision == s.log[u.cursor].revision
    ensures Exact(Receive(s, u).transfers, t.hist[s.log[u.cursor].revision - 1], u.since)
  {
    ReceiveKeepsSub(s, t, u);
  }

  /** Delta exactness. In every interleaving of writers and subscribers, right after a subscriber
      delivers a delta, its replica lists the delta's transfer with the totals and every file's bytes,
      also of files that the delta does not carry, exactly as the server held them when it assigned the
      delta's revision, if and only if the file has no unsent change after the subscriber's last
      baseline; otherwise the replica has fewer bytes. */
  lemma DeltaExactness(ts: seq<View>, profile: int, steps: seq<Step>, who: nat)
    requires Startable(ts) && Legal(Start(ts, profile), steps)
    requires Delivers(After(Start(ts, profile), steps), who)
    ensures var y := After(Start(ts, profile), steps);
            var p := Incoming(y, who);
            var u := Next(y, DoReceive(who)).subs[who];
            && u.revision == p.revision
            && Logged(p, y.trace.hist)
            && Exact(u.transfers, y.trace.hist[p.revision - 1], u.since)
  {
    hide Next, Exact, Receive;
    var y := Reached(ts, profile, steps);
    assert SubInv(y.server, y.trace, y.subs[who]);
    DeliveryIsExact(y.server, y.trace, y.subs[who]);
    DeliveryHappens(y, who);
  }

  /** Revision discipline. Broadcast deltas have strictly increasing revisions; a delta carries the
      last full revision before it; so whenever its revision is the subscriber's next one, its base
      is the subscriber's base and no full snapshot lies between. */
  lemma RevisionDiscipline(ts: seq<View>, profile: int, steps: seq<Step>, who: nat, a: nat)
    requires Startable(ts) && Legal(Start(ts, profile), steps)
    requires var y := After(Start(ts, profile), steps); who < |y.subs| && a < |y.server.log|
    ensures var y := After(Start(ts, profile), steps);
            var p := y.server.log[a];
            && |y.trace.hist| == y.server.revision
            && y.server.lastFull == LastFull(y.trace.hist, y.server.revision)
            && 1 <= p.revision <= y.server.revision
            && p.base == LastFull(y.trace.hist, p.revision)
            && (forall b :: a < b < |y.server.log| ==> p.revision < y.server.log[b].revision)
            && (y.subs[who].initialized && p.revision == y.subs[who].revision + 1 ==> p.base == y.subs[who].base)
  {
    var y := Reached(ts, profile, steps);
    LogDiscipline(y, who, a);
  }

  lemma LogDiscipline(y: System, who: nat, a: nat)
    requires Inv(y) && who < |y.subs| && a < |y.server.log|
    ensures var p, u := y.server.log[a], y.subs[who];
            && 1 <= p.revision <= y.server.revision == |y.trace.hist|
            && p.base == LastFull(y.trace.hist, p.revision)
            && (u.initialized && p.revision == u.revision + 1 ==> p.base == u.base)
  {
    var p, u := y.server.log[a], y.subs[who];
    assert Logged(p, y.trace.hist);
    assert Stamped(y.trace.hist, y.server.log, p.revision - 1);
    assert SubInv(y.server, y.trace, u);
    if u.initialized && p.revision == u.revision + 1 {
      BaseTestIsImplied(y.server, y.trace, u, a);
    }
  }

  /** No step takes a subscriber back to an earlier revision. */
  lemma DeliveredRevisionsNeverDecrease(ts: seq<View>, profile: int, steps: seq<Step>, step: Step, who: nat)
    requires Startable(ts) && Legal(Start(ts, profile), steps)
    requires var y := After(Start(ts, profile), steps); Enabled(y, step) && who < |y.subs|
    ensures var y := After(Start(ts, profile), steps);
            who < |Next(y, step).subs| && y.subs[who].revision <= Next(y, step).subs[who].revision
  {
    hide RecordLive, Mutate, Push, TraceAfter;
    var y := Reached(ts, profile, steps);
    assert SubInv(y.server, y.trace, y.subs[who]);
  }

  /** The subscriber waits with nothing left to see on either channel. */
  predicate Drained(s: Server, u: Subscriber) {
    u.initialized && u.phase.Idle? && u.seen == s.version && u.cursor == |s.log|
  }

  predicate UpToDate(s: Server, u: Subscriber) {
    u.revision == s.revision && u.base == s.lastFull
  }

  lemma LatestIsUpToDate(s: Server, t: Trace, u: Subscriber)
    requires LogInv(s, t) && CursorInv(s, t, u) && u.initialized
    requires u.cursor == |s.log| && NothingPassed(s, u) && u.base == s.lastFull
    ensures UpToDate(s, u)
  {
    LastFullGap(t.hist, u.revision, s.revision);
    if s.revision > 0 {
      var k := s.revision - 1;
      assert Stamped(t.hist, s.log, k);
      if t.hist[k].Delta? {
        var a :| 0 <= a < |s.log| && s.log[a] == t.hist[k].progress;
        assert s.log[a].revision <= u.revision;
      }
    }
  }

  lemma MissedIsBehind(s: Server, t: Trace, u: Subscriber)
    requires LogInv(s, t) && CursorInv(s, t, u) && Missed(s, u)
    ensures !UpToDate(s, u)
  {
    if u.base >= s.lastFull {
      var a :| 0 <= a < u.cursor && a < |s.log| && s.log[a].revision > u.revision;
      assert Logged(s.log[a], t.hist);
    }
  }

  /** No lost update. A subscriber with nothing left to see holds the server's revision and base, if
      and only if it dropped no `next` since its last baseline at a moment when that call was about to
      make up for something missed. */
  lemma NoLostUpdate(ts: seq<View>, profile: int, steps: seq<Step>, who: nat)
    requires Startable(ts) && Legal(Start(ts, profile), steps)
    requires var y := After(Start(ts, profile), steps); who < |y.subs| && Drained(y.server, y.subs[who])
    ensures var y := After(Start(ts, profile), steps);
            UpToDate(y.server, y.subs[who]) <==> !y.subs[who].abandoned
  {
    var y := Reached(ts, profile, steps);
    var s, t, u := y.server, y.trace, y.subs[who];
    assert SubInv(s, t, u);
    if u.abandoned {
      MissedIsBehind(s, t, u);
    } else {
      LatestIsUpToDate(s, t, u);
    }
  }

  /** Nothing is between a state write and its snapshot, and no progress is unemitted or forgotten. */
  predicate Quiet(s: Server, t: Trace) {
    && !t.unpublished
    && forall i :: 0 <= i < |s.transfers| ==>
         Dirty(s, s.transfers[i].id) == map[] && Lost(t, s.transfers[i].id) == {}
  }

  lemma QuietReplica(s: Server, t: Trace, u: Subscriber)
    requires LogInv(s, t) && SubInv(s, t, u)
    requires Drained(s, u) && !u.abandoned && Quiet(s, t)
    ensures u.transfers == s.transfers && u.profile == s.profile
  {
    LatestIsUpToDate(s, t, u);
    assert Fold(u.transfers, t.hist, u.revision, s.revision) == u.transfers;
    forall k | 0 <= k < |u.transfers| ensures u.transfers[k] == s.transfers[k] {
      assert Near(u.transfers[k], s.transfers[k], Pending(s, t, s.transfers[k].id));
    }
  }

  /** Quiescent convergence: then a drained subscriber's replica is the server's state. */
  lemma QuiescentConvergence(ts: seq<View>, profile: int, steps: seq<Step>, who: nat)
    requires Startable(ts) && Legal(Start(ts, profile), steps)
    requires var y := After(Start(ts, profile), steps);
             && who < |y.subs| && Drained(y.server, y.subs[who]) && !y.subs[who].abandoned
             && Quiet(y.server, y.trace)
    ensures var y := After(Start(ts, profile), steps);
            y.subs[who].transfers == y.server.transfers && y.subs[who].profile == y.server.profile
  {
    var y := Reached(ts, profile, steps);
    assert SubInv(y.server, y.trace, y.subs[who]);
    QuietReplica(y.server, y.trace, y.subs[who]);
  }
}
