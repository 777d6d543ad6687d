/** The bounded transfer history: pruning in memory, saving, and loading after a restart. */
module History {
  import opened Prelude
  import opened Transfer

  const MAX_TERMINAL_HISTORY := 200
  const MAX_STORED_TRANSFERS := 200

  // ----- pruning -----

  /** Keeps every active transfer and the first 200 terminal ones; `seen` terminal ones came before. */
  function PruneFrom(ts: seq<View>, seen: nat): seq<View> {
    if ts == [] then []
    else if !ts[0].status.Terminal() then [ts[0]] + PruneFrom(ts[1..], seen)
    else if seen < MAX_TERMINAL_HISTORY then [ts[0]] + PruneFrom(ts[1..], seen + 1)
    else PruneFrom(ts[1..], seen + 1)
  }

  function Prune(ts: seq<View>): seq<View> {
    PruneFrom(ts, 0)
  }

  function Actives(ts: seq<View>): seq<View> {
    if ts == [] then []
    else (if ts[0].status.Terminal() then [] else [ts[0]]) + Actives(ts[1..])
  }

  function Terminals(ts: seq<View>): seq<View> {
    if ts == [] then []
    else (if ts[0].status.Terminal() then [ts[0]] else []) + Terminals(ts[1..])
  }

  predicate Subsequence<T(==)>(a: seq<T>, b: seq<T>)
    decreases |b|
  {
    || a == []
    || (b != [] && a[0] == b[0] && Subsequence(a[1..], b[1..]))
    || (b != [] && Subsequence(a, b[1..]))
  }

  lemma {:induction false} PruneKeepsOrder(ts: seq<View>, seen: nat)
    ensures Subsequence(PruneFrom(ts, seen), ts)
  {
    if ts != [] {
      var next := if ts[0].status.Terminal() then seen + 1 else seen;
      PruneKeepsOrder(ts[1..], next);
      assert ([ts[0]] + PruneFrom(ts[1..], next))[1..] == PruneFrom(ts[1..], next);
    }
  }

  lemma {:induction false} PruneKeepsActives(ts: seq<View>, seen: nat)
    ensures Actives(PruneFrom(ts, seen)) == Actives(ts)
  {
    if ts != [] {
      var next := if ts[0].status.Terminal() then seen + 1 else seen;
      PruneKeepsActives(ts[1..], next);
      assert ([ts[0]] + PruneFrom(ts[1..], next))[1..] == PruneFrom(ts[1..], next);
    }
  }

  lemma {:induction false} PruneKeepsTerminals(ts: seq<View>, seen: nat)
    requires seen <= MAX_TERMINAL_HISTORY
    ensures Terminals(PruneFrom(ts, seen))
              == Terminals(ts)[..Min(MAX_TERMINAL_HISTORY - seen, |Terminals(ts)|)]
  {
    if ts != [] {
      var rest := ts[1..];
      if !ts[0].status.Terminal() {
        PruneKeepsTerminals(rest, seen);
        assert PruneFrom(ts, seen)[1..] == PruneFrom(rest, seen);
      } else if seen < MAX_TERMINAL_HISTORY {
        PruneKeepsTerminals(rest, seen + 1);
        assert PruneFrom(ts, seen)[1..] == PruneFrom(rest, seen + 1);
        var n := Min(MAX_TERMINAL_HISTORY - seen - 1, |Terminals(rest)|);
        assert Terminals(ts)[..n + 1] == [ts[0]] + Terminals(rest)[..n];
      } else {
        PruneFull(rest, seen, seen + 1);
        PruneKeepsTerminals(rest, seen);
      }
    }
  }

  /** Pruning keeps the order, every active transfer, and exactly the first 200 terminal ones. */
  lemma PruneKeeps(ts: seq<View>, seen: nat)
    requires seen <= MAX_TERMINAL_HISTORY
    ensures Subsequence(PruneFrom(ts, seen), ts)
    ensures Actives(PruneFrom(ts, seen)) == Actives(ts)
    ensures Terminals(PruneFrom(ts, seen))
              == Terminals(ts)[..Min(MAX_TERMINAL_HISTORY - seen, |Terminals(ts)|)]
  {
    PruneKeepsOrder(ts, seen);
    PruneKeepsActives(ts, seen);
    PruneKeepsTerminals(ts, seen);
  }

  lemma {:induction false} PruneFull(ts: seq<View>, m: nat, n: nat)
    requires m >= MAX_TERMINAL_HISTORY && n >= MAX_TERMINAL_HISTORY
    ensures PruneFrom(ts, m) == PruneFrom(ts, n)
  {
    if ts != [] {
      if ts[0].status.Terminal() {
        PruneFull(ts[1..], m + 1, n + 1);
      } else {
        PruneFull(ts[1..], m, n);
      }
    }
  }

  lemma {:induction false} PruneIdentity(ts: seq<View>, seen: nat)
    requires |Terminals(ts)| + seen <= MAX_TERMINAL_HISTORY
    ensures PruneFrom(ts, seen) == ts
  {
    if ts != [] {
      PruneIdentity(ts[1..], if ts[0].status.Terminal() then seen + 1 else seen);
    }
  }

  lemma PruneIdempotent(ts: seq<View>)
    ensures Prune(Prune(ts)) == Prune(ts)
  {
    PruneKeeps(ts, 0);
    PruneIdentity(Prune(ts), 0);
  }

  lemma {:induction false} SplitLength(ts: seq<View>)
    ensures |ts| == |Actives(ts)| + |Terminals(ts)|
  {
    if ts != [] {
      SplitLength(ts[1..]);
    }
  }

  lemma PruneNothing(seen: nat)
    ensures PruneFrom([], seen) == []
  {
  }

  lemma PruneStep(kept: seq<View>, ts: seq<View>, i: nat, seen: nat)
    requires i < |ts|
    ensures var more := if ts[i].status.Terminal() && seen >= MAX_TERMINAL_HISTORY then kept else kept + [ts[i]];
            kept + PruneFrom(ts[i..], seen)
              == more + PruneFrom(ts[i + 1..], if ts[i].status.Terminal() then seen + 1 else seen)
  {
    assert ts[i..][0] == ts[i] && ts[i..][1..] == ts[i + 1..];
    var rest := PruneFrom(ts[i + 1..], if ts[i].status.Terminal() then seen + 1 else seen);
    assert kept + ([ts[i]] + rest) == (kept + [ts[i]]) + rest;
  }

  /** `retain` with a running count of terminal transfers. */
  method PruneTransferHistory(transfers: seq<View>) returns (kept: seq<View>)
    ensures kept == Prune(transfers)
  {
    hide PruneFrom;
    kept := [];
    var terminalCount := 0;
    var i := 0;
    while i < |transfers|
      invariant 0 <= i <= |transfers| && terminalCount >= 0
      invariant kept + PruneFrom(transfers[i..], terminalCount) == Prune(transfers)
    {
      var transfer := transfers[i];
      PruneStep(kept, transfers, i, terminalCount);
      if transfer.status.Terminal() {
        terminalCount := terminalCount + 1;
        if terminalCount <= MAX_TERMINAL_HISTORY {
          kept := kept + [transfer];
        }
      } else {
        kept := kept + [transfer];
      }
      i := i + 1;
    }
    assert transfers[i..] == [];
    PruneNothing(terminalCount);
  }

  // ----- saving and loading -----

  function WithoutThumbnails(files: seq<FileView>): (r: seq<FileView>)
    ensures |r| == |files|
    ensures forall i :: 0 <= i < |files| ==> r[i] == files[i].(thumbnail := None)
  {
    seq(|files|, i requires 0 <= i < |files| => files[i].(thumbnail := None))
  }

  function Compact(v: View): View {
    v.(speed := 0, remaining := None, files := WithoutThumbnails(v.files))
  }

  function Recovered(v: View): View {
    var w := v.(files := WithoutThumbnails(v.files));
    if w.status.Terminal() then w
    else w.(status := Failed,
            error := Some("transfer was still in progress when the application exited"))
  }

  function Map(f: View -> View, ts: seq<View>): (r: seq<View>)
    ensures |r| == |ts|
    ensures forall i :: 0 <= i < |ts| ==> r[i] == f(ts[i])
  {
    seq(|ts|, i requires 0 <= i < |ts| => f(ts[i]))
  }

  function Saved(ts: seq<View>): seq<View> {
    Map(Compact, ts[..Min(MAX_STORED_TRANSFERS, |ts|)])
  }

  function Insert(v: View, ts: seq<View>): seq<View> {
    if ts == [] || ts[0].updatedAt <= v.updatedAt then [v] + ts else [ts[0]] + Insert(v, ts[1..])
  }

  /** Stable sort by descending `updatedAt`. */
  function Sort(ts: seq<View>): seq<View> {
    if ts == [] then [] else Insert(ts[0], Sort(ts[1..]))
  }

  function Loaded(stored: seq<View>): seq<View> {
    var sorted := Sort(Map(Recovered, stored));
    sorted[..Min(MAX_STORED_TRANSFERS, |sorted|)]
  }

  predicate Descending(ts: seq<View>) {
    forall i, j :: 0 <= i < j < |ts| ==> ts[i].updatedAt >= ts[j].updatedAt
  }

  /** The elements that carry one timestamp, in order. */
  function WithKey(ts: seq<View>, key: int): seq<View> {
    if ts == [] then []
    else (if ts[0].updatedAt == key then [ts[0]] else []) + WithKey(ts[1..], key)
  }

  ghost predicate Stable(a: seq<View>, b: seq<View>) {
    forall key :: WithKey(a, key) == WithKey(b, key)
  }

  lemma {:induction false} InsertSorts(v: View, ts: seq<View>)
    requires Descending(ts)
    ensures |Insert(v, ts)| == |ts| + 1
    ensures forall w :: w in Insert(v, ts) ==> w == v || w in ts
    ensures Descending(Insert(v, ts))
  {
    if ts != [] && ts[0].updatedAt > v.updatedAt {
      InsertSorts(v, ts[1..]);
      forall w | w in Insert(v, ts[1..]) ensures ts[0].updatedAt >= w.updatedAt {
      }
    }
  }

  lemma {:induction false} InsertIsStable(v: View, ts: seq<View>, key: int)
    ensures WithKey(Insert(v, ts), key) == WithKey([v] + ts, key)
  {
    assert ([v] + ts)[1..] == ts;
    if ts != [] && ts[0].updatedAt > v.updatedAt {
      InsertIsStable(v, ts[1..], key);
      assert Insert(v, ts)[1..] == Insert(v, ts[1..]);
      assert ([v] + ts[1..])[1..] == ts[1..];
    }
  }

  lemma {:induction false} SortSorts(ts: seq<View>)
    ensures Descending(Sort(ts)) && |Sort(ts)| == |ts|
    ensures forall v :: v in Sort(ts) ==> v in ts
    ensures Stable(Sort(ts), ts)
  {
    if ts != [] {
      SortSorts(ts[1..]);
      InsertSorts(ts[0], Sort(ts[1..]));
      forall key ensures WithKey(Sort(ts), key) == WithKey(ts, key) {
        InsertIsStable(ts[0], Sort(ts[1..]), key);
        assert ([ts[0]] + Sort(ts[1..]))[1..] == Sort(ts[1..]);
      }
    }
  }

  lemma {:induction false} WithKeyMember(ts: seq<View>, i: nat)
    requires i < |ts|
    ensures WithKey(ts, ts[i].updatedAt) != []
  {
    if i > 0 {
      WithKeyMember(ts[1..], i - 1);
    }
  }

  lemma {:induction false} WithKeyFrom(ts: seq<View>, key: int)
    requires WithKey(ts, key) != []
    ensures exists i :: 0 <= i < |ts| && ts[i].updatedAt == key
  {
    if ts[0].updatedAt != key {
      WithKeyFrom(ts[1..], key);
      var i :| 0 <= i < |ts[1..]| && ts[1..][i].updatedAt == key;
      assert ts[i + 1].updatedAt == key;
    }
  }

  lemma HeadIsLargest(a: seq<View>, b: seq<View>)
    requires Descending(a) && a != [] && Stable(a, b)
    ensures exists i :: 0 <= i < |b| && b[i].updatedAt == a[0].updatedAt
  {
    WithKeyMember(a, 0);
    assert WithKey(a, a[0].updatedAt) == WithKey(b, a[0].updatedAt);
    WithKeyFrom(b, a[0].updatedAt);
  }

  lemma SameHead(a: seq<View>, b: seq<View>)
    requires Descending(a) && Descending(b) && a != [] && b != [] && Stable(a, b)
    ensures a[0] == b[0]
  {
    HeadIsLargest(a, b);
    HeadIsLargest(b, a);
    var key := a[0].updatedAt;
    assert b[0].updatedAt == key;
    assert WithKey(a, key) == WithKey(b, key);
    assert WithKey(a, key)[0] == a[0] && WithKey(b, key)[0] == b[0];
  }

  lemma TailsAreStable(a: seq<View>, b: seq<View>)
    requires a != [] && b != [] && a[0] == b[0] && Stable(a, b)
    ensures Stable(a[1..], b[1..])
  {
    forall key ensures WithKey(a[1..], key) == WithKey(b[1..], key) {
      assert WithKey(a, key) == WithKey(b, key);
      if key == a[0].updatedAt {
        assert WithKey(a, key)[1..] == WithKey(a[1..], key);
        assert WithKey(b, key)[1..] == WithKey(b[1..], key);
      } else {
        assert WithKey(a, key) == WithKey(a[1..], key) && WithKey(b, key) == WithKey(b[1..], key);
      }
    }
  }

  /** Order and stability leave no freedom: `Sort` is the stable descending sort. */
  lemma {:induction false} StableSortIsUnique(a: seq<View>, b: seq<View>)
    requires Descending(a) && Descending(b) && Stable(a, b)
    ensures a == b
    decreases |a|
  {
    if a == [] && b != [] {
      HeadIsLargest(b, a);
    } else if a != [] {
      HeadIsLargest(a, b);
      SameHead(a, b);
      TailsAreStable(a, b);
      StableSortIsUnique(a[1..], b[1..]);
      assert a == [a[0]] + a[1..] && b == [b[0]] + b[1..];
    }
  }

  lemma SortIdentity(ts: seq<View>)
    requires Descending(ts)
    ensures Sort(ts) == ts
  {
    SortSorts(ts);
    StableSortIsUnique(Sort(ts), ts);
  }

  // ----- one save and restart -----

  predicate Settled(v: View) {
    && v.status.Terminal() && v.speed == 0 && v.remaining.None?
    && forall i :: 0 <= i < |v.files| ==> v.files[i].thumbnail.None?
  }

  function Restarted(ts: seq<View>): seq<View> {
    Prune(Loaded(Saved(ts)))
  }

  lemma {:induction false} AllTerminal(ts: seq<View>)
    requires forall v :: v in ts ==> v.status.Terminal()
    ensures Terminals(ts) == ts
  {
    if ts != [] {
      AllTerminal(ts[1..]);
    }
  }

  /** What is saved holds at most 200 transfers, in order, without thumbnails, speed or remaining time. */
  lemma SavedIsCompact(ts: seq<View>, i: nat)
    requires i < |Saved(ts)|
    ensures |Saved(ts)| <= 200 && i < |ts|
    ensures var v, w := ts[i], Saved(ts)[i];
            && w.speed == 0 && w.remaining.None? && |w.files| == |v.files|
            && w == v.(speed := 0, remaining := None, files := w.files)
            && forall k :: 0 <= k < |v.files| ==> w.files[k] == v.files[k].(thumbnail := None)
  {
  }

  lemma SavedIsSettled(ts: seq<View>, v: View)
    requires v in Map(Recovered, Saved(ts))
    ensures Settled(v) && v.status.Terminal()
  {
  }

  /** Whatever was saved, a restart lists at most 200 transfers, all terminal, newest first, and
      they are the stable sort of the first 200 saved entries; pruning then changes nothing. */
  lemma RestartResult(ts: seq<View>)
    ensures var r := Restarted(ts);
            && r == Loaded(Saved(ts))
            && |r| == Min(MAX_STORED_TRANSFERS, |ts|)
            && Descending(r)
            && Stable(r, Map(Recovered, Saved(ts)))
            && (forall v :: v in r ==> Settled(v))
  {
    hide Settled, Recovered, Compact, Sort, PruneFrom;
    var fixed := Map(Recovered, Saved(ts));
    SortSorts(fixed);
    var r := Loaded(Saved(ts));
    assert r == Sort(fixed);
    forall v | v in r ensures Settled(v) && v.status.Terminal() {
      assert v in fixed;
      SavedIsSettled(ts, v);
    }
    AllTerminal(r);
    PruneIdentity(r, 0);
  }

  /** What a restart makes of each of the first 200 saved transfers: an interrupted one is failed, with a
      message, an ended one is as it ended, and either shows the progress it had. */
  lemma InterruptedIsFailed(ts: seq<View>, i: nat)
    requires i < |ts| && i < 200
    ensures exists w :: w in Restarted(ts) && w.id == ts[i].id
              && (if ts[i].status.Completed? || ts[i].status.Rejected? || ts[i].status.Cancelled?
                     || ts[i].status.Failed?
                  then w.status == ts[i].status && w.error == ts[i].error
                  else w.status.Failed? && w.error.Some?)
              && w.updatedAt == ts[i].updatedAt && w.total == ts[i].total && SameProgress(w, ts[i])
  {
    var fixed := Map(Recovered, Saved(ts));
    RestartResult(ts);
    var w := fixed[i];
    assert w.updatedAt == ts[i].updatedAt;
    WithKeyHolds(fixed, i);
    assert WithKey(Restarted(ts), w.updatedAt) == WithKey(fixed, w.updatedAt);
    WithKeyIn(Restarted(ts), w.updatedAt, w);
  }

  lemma {:induction false} WithKeyHolds(ts: seq<View>, i: nat)
    requires i < |ts|
    ensures ts[i] in WithKey(ts, ts[i].updatedAt)
  {
    if i > 0 {
      WithKeyHolds(ts[1..], i - 1);
    }
  }

  lemma {:induction false} WithKeyIn(ts: seq<View>, key: int, v: View)
    requires v in WithKey(ts, key)
    ensures v in ts
  {
    if ts[0].updatedAt != key || ts[0] != v {
      WithKeyIn(ts[1..], key, v);
    }
  }

  lemma MapIdentity(f: View -> View, ts: seq<View>)
    requires forall v :: v in ts ==> f(v) == v
    ensures Map(f, ts) == ts
  {
  }

  lemma SettledIsFixed(v: View)
    requires Settled(v)
    ensures Compact(v) == v && Recovered(v) == v
  {
    assert WithoutThumbnails(v.files) == v.files;
  }

  /** One save and load cycle reaches a fixpoint of all further ones. */
  lemma RestartIsFixpoint(ts: seq<View>)
    ensures Restarted(Restarted(ts)) == Restarted(ts)
  {
    var r := Restarted(ts);
    RestartResult(ts);
    forall v | v in r ensures Compact(v) == v && Recovered(v) == v {
      SettledIsFixed(v);
    }
    assert r[..Min(MAX_STORED_TRANSFERS, |r|)] == r;
    MapIdentity(Compact, r);
    MapIdentity(Recovered, r);
    SortIdentity(r);
    RestartResult(r);
  }

  lemma LoadedIsBounded(stored: seq<View>)
    ensures |Loaded(stored)| <= MAX_STORED_TRANSFERS && Descending(Loaded(stored))
    ensures forall v :: v in Loaded(stored) ==> v.status.Terminal()
  {
    var fixed := Map(Recovered, stored);
    SortSorts(fixed);
    forall v | v in Loaded(stored) ensures v.status.Terminal() {
      assert v in fixed;
    }
  }

  /** Edits the decoded list in place, sorts it and cuts it off. */
  method Load(stored: seq<View>) returns (transfers: seq<View>)
    ensures transfers == Loaded(stored)
    ensures |transfers| <= MAX_STORED_TRANSFERS && Descending(transfers)
    ensures forall v :: v in transfers ==> v.status.Terminal()
  {
    transfers := stored;
    var i := 0;
    while i < |transfers|
      invariant 0 <= i <= |transfers| == |stored|
      invariant forall k :: 0 <= k < i ==> transfers[k] == Recovered(stored[k])
      invariant forall k :: i <= k < |stored| ==> transfers[k] == stored[k]
    {
      var transfer := transfers[i].(files := WithoutThumbnails(transfers[i].files));
      if !transfer.status.Terminal() {
        transfer := transfer.(status := Failed,
                              error := Some("transfer was still in progress when the application exited"));
      }
      transfers := transfers[i := transfer];
      i := i + 1;
    }
    assert transfers == Map(Recovered, stored);
    LoadedIsBounded(stored);
    transfers := Sort(transfers);
    transfers := transfers[..Min(MAX_STORED_TRANSFERS, |transfers|)];
  }
}
