/**
 The two ways a transfer is listed: with the sizes of the sender's files, and from a validated offer;
 and what a receiver that accepts such an offer gets.
 */
module Listing {
  import opened Prelude
  import opened Transfer
  import opened FileStream
  import opened ReceiveTasks
  import opened ReceiveFiles
  import Replication
  import Offer

  /** What each listed transfer satisfies: its accounting is right, and nothing is recorded yet. */
  ghost predicate Starts(v: View) {
    Conserved(v) && NoProgress(v) && Replication.Fresh(v)
  }

  lemma {:induction false} SumSizesSnoc(files: seq<FileView>, file: FileView)
    ensures SumSizes(files + [file]) == SumSizes(files) + file.size
  {
    if files == [] {
      assert [file][1..] == [];
    } else {
      assert (files + [file])[1..] == files[1..] + [file];
      SumSizesSnoc(files[1..], file);
    }
  }

  lemma {:induction false} NothingCompleted(files: seq<FileView>)
    requires forall i :: 0 <= i < |files| ==> files[i].completed == 0
    ensures SumCompleted(files) == 0
  {
    if files != [] {
      NothingCompleted(files[1..]);
    }
  }

  // ----- sending -----

  function FileOfSize(i: nat, size: nat): FileView {
    FileView(i + 1, size, 0, None, None, None)
  }

  function FilesOfSizes(sizes: seq<nat>): (files: seq<FileView>)
    ensures |files| == |sizes|
    ensures forall i :: 0 <= i < |sizes| ==> files[i] == FileOfSize(i, sizes[i])
  {
    seq(|sizes|, i requires 0 <= i < |sizes| => FileOfSize(i, sizes[i]))
  }

  lemma {:induction false} SumPrefix(files: seq<FileView>, n: nat)
    requires n <= |files|
    ensures SumSizes(files[..n]) <= SumSizes(files)
  {
    if n > 0 {
      assert files[..n][1..] == files[1..][..n - 1];
      SumPrefix(files[1..], n - 1);
    }
  }

  /** Lists a transfer of files of these sizes, whose sum must fit 64 bits. */
  method PreparingView(id: string, wireId: nat, sizes: seq<nat>, now: int) returns (r: Result<View>)
    ensures r.Ok? <==> SumSizes(FilesOfSizes(sizes)) <= U64_MAX
    ensures r.Err? ==> r.error == Invalid
    ensures r.Ok? ==> Starts(r.value) && r.value.id == id && r.value.status.Preparing?
                      && r.value.files == FilesOfSizes(sizes) && r.value.wireId == wireId && r.value.updatedAt == now
    ensures r.Ok? ==> |r.value.files| == |sizes| && forall i :: 0 <= i < |sizes| ==>
      r.value.files[i].id == i + 1 && r.value.files[i].size == sizes[i] && r.value.files[i].localPath.None?
  {
    var files: seq<FileView> := [];
    var total := 0;
    ghost var all := FilesOfSizes(sizes);
    for i := 0 to |sizes|
      invariant files == all[..i] && total == SumSizes(files) <= U64_MAX
    {
      SumSizesSnoc(files, FileOfSize(i, sizes[i]));
      assert all[..i + 1] == all[..i] + [all[i]];
      SumPrefix(all, i + 1);
      if total + sizes[i] > U64_MAX {
        return Err(Invalid);
      }
      total := total + sizes[i];
      files := files + [FileOfSize(i, sizes[i])];
    }
    assert all[..|sizes|] == all;
    NothingCompleted(files);
    r := Ok(View(id, wireId, Status.Preparing, files, total, 0, 0, None, None, now));
  }

  // ----- receiving -----

  function ManifestOf(files: seq<Offer.Entry>): (manifest: seq<Manifest>)
    ensures |manifest| == |files|
    ensures forall i :: 0 <= i < |files| ==> manifest[i] == Manifest(files[i].fileId, files[i].size)
  {
    seq(|files|, i requires 0 <= i < |files| => Manifest(files[i].fileId, files[i].size))
  }

  function FilesOf(files: seq<Offer.Entry>): (views: seq<FileView>)
    ensures |views| == |files|
    ensures forall i :: 0 <= i < |files| ==> views[i] == FileView(files[i].fileId, files[i].size, 0, None, None, None)
  {
    seq(|files|, i requires 0 <= i < |files| => FileView(files[i].fileId, files[i].size, 0, None, None, None))
  }

  function ReceivingView(id: string, offer: Offer.TransferOffer, automatic: bool, now: int): View {
    View(id, offer.transferId, if automatic then Connecting else AwaitingApproval, FilesOf(offer.files), offer.total,
         0, 0, None, None, now)
  }

  lemma {:induction false} SameSum(files: seq<Offer.Entry>)
    ensures SumSizes(FilesOf(files)) == Offer.SumSizes(files)
  {
    if files != [] {
      var last := |files| - 1;
      SameSum(files[..last]);
      assert FilesOf(files) == FilesOf(files[..last]) + [FilesOf(files)[last]];
      SumSizesSnoc(FilesOf(files[..last]), FilesOf(files)[last]);
    }
  }

  /** A validated offer has a manifest of distinct files, and lists a transfer whose accounting is right. */
  lemma ValidOfferStarts(key: string -> string, id: string, offer: Offer.TransferOffer, automatic: bool, now: int)
    requires Offer.ValidOffer(key, offer)
    ensures UniqueManifest(ManifestOf(offer.files))
    ensures var v := ReceivingView(id, offer, automatic, now);
            && Starts(v) && SameFiles(v, ManifestOf(offer.files)) && v.total == offer.total
            && v.id == id && v.wireId == offer.transferId && v.updatedAt == now
            && v.status == (if automatic then Connecting else AwaitingApproval)
  {
    SameSum(offer.files);
    NothingCompleted(FilesOf(offer.files));
  }

  function Unused(grant: Offer.FileGrant): Grant {
    Grant(grant.ticket, grant.expiresAt, false)
  }

  /** The grants that the receiver remembers for its answer. */
  function GrantsOf(grants: seq<Offer.FileGrant>): map<nat, Grant> {
    if grants == [] then map[]
    else GrantsOf(grants[..|grants| - 1])[grants[|grants| - 1].fileId := Unused(grants[|grants| - 1])]
  }

  lemma {:induction false} GrantsAreRemembered(grants: seq<Offer.FileGrant>, k: nat)
    requires forall i, j :: 0 <= i < j < |grants| ==> grants[i].fileId != grants[j].fileId
    requires k < |grants|
    ensures grants[k].fileId in GrantsOf(grants)
    ensures GrantsOf(grants)[grants[k].fileId] == Grant(grants[k].ticket, grants[k].expiresAt, false)
  {
    var last := |grants| - 1;
    if k < last {
      assert grants[k].fileId != grants[last].fileId;
      GrantsAreRemembered(grants[..last], k);
    }
  }

  /** Until 65 hours after `issued`, and within 64-bit time. */
  predicate InTime(now: int, issued: nat) {
    now <= issued + 65 * 60 * 60 * 1000 && now <= 0x7FFF_FFFF_FFFF_FFFF
  }

  /** Exactly how long an answer is good. A stream that carries a file's granted ticket is authorized if
      and only if it comes within 65 hours after the grant was issued; no other ticket ever is. */
  lemma AnswerIsUsable(offer: Offer.TransferOffer, ticket: nat -> Offer.Ticket, issued: nat -> nat, k: nat,
                       presented: seq<bv8>, now: int)
    requires forall i, j :: 0 <= i < j < |offer.files| ==> offer.files[i].fileId != offer.files[j].fileId
    requires k < |offer.files|
    ensures Authorized(GrantsOf(Offer.BuildAccept(offer, ticket, issued).grants),
                       Open(offer.transferId, offer.files[k].fileId, presented), offer.transferId, now)
            <==> presented == ticket(k) && InTime(now, issued(k))
  {
    var grants := Offer.BuildAccept(offer, ticket, issued).grants;
    GrantsAreRemembered(grants, k);
    assert grants[k] == Offer.GrantFor(offer.files[k], ticket(k), issued(k));
  }

  /** The `i`-th stream of the route is for file `k`: it carries its ticket in time, and the whole file. */
  predicate Serves(hash: Hash, offer: Offer.TransferOffer, ticket: nat -> Offer.Ticket, issued: nat -> nat,
                   open: Open, arriving: Arriving, now: int, k: nat) {
    && k < |offer.files|
    && open == Open(offer.transferId, offer.files[k].fileId, ticket(k)) && InTime(now, issued(k))
    && Complete(hash, arriving.bytes, arriving.ended, offer.files[k].size)
  }

  /** The first streams of the route serve the offer's files, each of them once. */
  ghost predicate ServesAll(hash: Hash, offer: Offer.TransferOffer, ticket: nat -> Offer.Ticket, issued: nat -> nat,
                            route: seq<Open>, arriving: nat -> Arriving, clock: nat -> int) {
    && |offer.files| <= |route|
    && (forall i :: 0 <= i < |offer.files| ==>
         exists k :: Serves(hash, offer, ticket, issued, route[i], arriving(i), clock(i), k))
    && (forall i, j :: 0 <= i < j < |offer.files| ==> route[i].fileId != route[j].fileId)
  }

  lemma ServedStreamIsWhole(hash: Hash, offer: Offer.TransferOffer, ticket: nat -> Offer.Ticket, issued: nat -> nat,
                            open: Open, arriving: Arriving, now: int, k: nat)
    requires forall i, j :: 0 <= i < j < |offer.files| ==> offer.files[i].fileId != offer.files[j].fileId
    requires Serves(hash, offer, ticket, issued, open, arriving, now, k)
    ensures var files, grants := ManifestOf(offer.files), GrantsOf(Offer.BuildAccept(offer, ticket, issued).grants);
            Admissible(files, offer.transferId, grants, open, now) && Whole(hash, files, open.fileId, arriving)
  {
    AnswerIsUsable(offer, ticket, issued, k, open.ticket, now);
    var files := ManifestOf(offer.files);
    assert files[k].fileId == open.fileId;
    assert PositionOf(files, open.fileId) == k;
  }

  lemma ServedIsWhole(hash: Hash, offer: Offer.TransferOffer, ticket: nat -> Offer.Ticket, issued: nat -> nat,
                      route: seq<Open>, arriving: nat -> Arriving, clock: nat -> int)
    requires forall i, j :: 0 <= i < j < |offer.files| ==> offer.files[i].fileId != offer.files[j].fileId
    requires ServesAll(hash, offer, ticket, issued, route, arriving, clock)
    ensures AllWhole(hash, ManifestOf(offer.files), offer.transferId, route, arriving,
                     GrantsOf(Offer.BuildAccept(offer, ticket, issued).grants), clock)
  {
    var files, grants := ManifestOf(offer.files), GrantsOf(Offer.BuildAccept(offer, ticket, issued).grants);
    forall i | 0 <= i < |files|
      ensures Admissible(files, offer.transferId, grants, route[i], clock(i))
      ensures Whole(hash, files, route[i].fileId, arriving(i))
    {
      var k :| Serves(hash, offer, ticket, issued, route[i], arriving(i), clock(i), k);
      ServedStreamIsWhole(hash, offer, ticket, issued, route[i], arriving(i), clock(i), k);
    }
  }

  /** For every validated offer: the answer is accepted by the sender, and a receive that ends with Ok
      has taken one whole stream for each file, all in the transfer shown as complete. If nothing else
      fails, it ends with Ok as soon as each file's ticket arrives once, in time, with the whole file. */
  method ReceiveOffer(hash: Hash, key: string -> string, offer: Offer.TransferOffer, id: string, now: int,
                      ticket: nat -> Offer.Ticket, issued: nat -> nat, route: seq<Open>,
                      arriving: nat -> Arriving, clock: nat -> int, healthy: bool)
    returns (r: Result<()>, accept: Offer.TransferAccept, view: TransferView, received: set<nat>)
    requires Offer.ValidOffer(key, offer)
    ensures Offer.VerifyAccept(accept, offer.transferId, offer.requestId, offer.files).Ok?
    ensures Conserved(view.Value()) && view.total == offer.total
    ensures r.Ok? ==> view.completed == offer.total && received == FileIds(ManifestOf(offer.files))
    ensures var complete := AllWhole(hash, ManifestOf(offer.files), offer.transferId, route, arriving,
                                     GrantsOf(accept.grants), clock);
            (r.Ok? ==> complete) && (healthy && complete ==> r.Ok?)
    ensures healthy && ServesAll(hash, offer, ticket, issued, route, arriving, clock) ==> r.Ok?
  {
    var files := ManifestOf(offer.files);
    ValidOfferStarts(key, id, offer, true, now);
    Offer.HandshakeCompatible(key, offer, ticket, issued);
    accept := Offer.BuildAccept(offer, ticket, issued);
    view := new TransferView(ReceivingView(id, offer, true, now));
    var transferring := view.Transition(Transferring, now);
    var grants := new Grants(GrantsOf(accept.grants));
    if ServesAll(hash, offer, ticket, issued, route, arriving, clock) {
      ServedIsWhole(hash, offer, ticket, issued, route, arriving, clock);
    }
    var receives: JoinSet;
    ghost var peak: nat;
    r, received, receives, peak :=
      ReceiveAll(hash, files, offer.transferId, grants, view, route, arriving, clock, healthy);
  }
}
