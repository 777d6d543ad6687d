/**
 The offer and its answer: greedy preview packing on the sending side, validation on the receiving
 side, and the authorization that goes back. `key` is the portable form of a path, under which
 different spellings of one file name collide.
 */
module Offer {
  import opened Prelude
  import opened PathNames

  const MAX_FILE_COUNT := 256
  const MAX_TOTAL_BYTES: nat := 16 * 1024 * 1024 * 1024 * 1024
  const MAX_PREVIEW_BYTES := 64 * 1024
  const MAX_TOTAL_PREVIEW_BYTES := 256 * 1024
  const MIN_CHUNK_SIZE := 16 * 1024
  const MAX_CHUNK_SIZE := 256 * 1024
  const TICKET_SIZE := 32
  const FILE_GRANT_TTL_MS := 65 * 60 * 60 * 1000
  const I64_MAX := 0x7FFF_FFFF_FFFF_FFFF

  datatype Entry = Entry(fileId: nat, path: string, size: nat)

  datatype Preview = Preview(fileId: nat, mediaType: string, data: seq<bv8>)

  datatype TransferOffer = TransferOffer(
    requestId: nat,
    transferId: nat,
    files: seq<Entry>,
    total: nat,
    createdAt: int,
    previews: seq<Preview>)

  datatype FileGrant = FileGrant(fileId: nat, ticket: seq<bv8>, expiresAt: int)

  datatype TransferAccept = TransferAccept(requestId: nat, transferId: nat, grants: seq<FileGrant>, chunkSize: nat)

  // ----- validation -----

  function SumSizes(files: seq<Entry>): nat {
    if files == [] then 0 else SumSizes(files[..|files| - 1]) + files[|files| - 1].size
  }

  function SumData(previews: seq<Preview>): nat {
    if previews == [] then 0 else SumData(previews[..|previews| - 1]) + |previews[|previews| - 1].data|
  }

  predicate Image(mediaType: string) {
    "image/" <= mediaType
  }

  predicate Requested(files: seq<Entry>, id: nat) {
    exists k :: 0 <= k < |files| && files[k].fileId == id
  }

  ghost predicate ValidFiles(key: string -> string, files: seq<Entry>) {
    && (forall i :: 0 <= i < |files| ==> Safe(files[i].path) && files[i].fileId != 0)
    && (forall i, j :: 0 <= i < j < |files| ==> files[i].fileId != files[j].fileId)
    && (forall i, j :: 0 <= i < j < |files| ==> key(files[i].path) != key(files[j].path))
  }

  ghost predicate ValidPreviews(previews: seq<Preview>, files: seq<Entry>) {
    && (forall i :: 0 <= i < |previews| ==>
         |previews[i].data| <= MAX_PREVIEW_BYTES && Image(previews[i].mediaType)
         && Requested(files, previews[i].fileId))
    && (forall i, j :: 0 <= i < j < |previews| ==> previews[i].fileId != previews[j].fileId)
  }

  /** What an offer has to be, said without sets or folds. */
  ghost predicate ValidOffer(key: string -> string, offer: TransferOffer) {
    && offer.requestId != 0 && offer.transferId != 0 && offer.createdAt > 0
    && 1 <= |offer.files| <= MAX_FILE_COUNT
    && offer.total <= MAX_TOTAL_BYTES && SumSizes(offer.files) == offer.total
    && ValidFiles(key, offer.files)
    && SumData(offer.previews) <= MAX_TOTAL_PREVIEW_BYTES
    && ValidPreviews(offer.previews, offer.files)
  }

  lemma {:induction false} SumSizesPrefix(files: seq<Entry>, n: nat)
    requires n <= |files|
    ensures SumSizes(files[..n]) <= SumSizes(files)
    decreases |files|
  {
    if n < |files| {
      assert files[..|files| - 1][..n] == files[..n];
      SumSizesPrefix(files[..|files| - 1], n);
    } else {
      assert files[..n] == files;
    }
  }

  function EntryIds(files: seq<Entry>): set<nat> {
    set i | 0 <= i < |files| :: files[i].fileId
  }

  function EntryKeys(key: string -> string, files: seq<Entry>): set<string> {
    set i | 0 <= i < |files| :: key(files[i].path)
  }

  /** An entry that continues a valid manifest. */
  predicate Continues(key: string -> string, files: seq<Entry>, file: Entry) {
    Safe(file.path) && file.fileId != 0 && file.fileId !in EntryIds(files) && key(file.path) !in EntryKeys(key, files)
  }

  lemma ValidFilesSnoc(key: string -> string, files: seq<Entry>, file: Entry)
    ensures ValidFiles(key, files + [file]) <==> ValidFiles(key, files) && Continues(key, files, file)
    ensures EntryIds(files + [file]) == EntryIds(files) + {file.fileId}
    ensures EntryKeys(key, files + [file]) == EntryKeys(key, files) + {key(file.path)}
    ensures SumSizes(files + [file]) == SumSizes(files) + file.size
  {
    EntriesSnoc(key, files, file);
    var all := files + [file];
    assert all[..|files|] == files;
    assert forall i :: 0 <= i < |files| ==> all[i] == files[i];
    assert all[|files|] == file;
    if ValidFiles(key, all) {
      assert ValidFiles(key, files);
      forall i | 0 <= i < |files| ensures files[i].fileId != file.fileId && key(files[i].path) != key(file.path) {
        assert all[i].fileId != all[|files|].fileId;
      }
    }
  }

  lemma EntriesSnoc(key: string -> string, files: seq<Entry>, file: Entry)
    ensures EntryIds(files + [file]) == EntryIds(files) + {file.fileId}
    ensures EntryKeys(key, files + [file]) == EntryKeys(key, files) + {key(file.path)}
  {
    var all := files + [file];
    assert forall i :: 0 <= i < |files| ==> all[i] == files[i];
    assert all[|files|] == file;
    forall x ensures x in EntryIds(all) <==> x in EntryIds(files) + {file.fileId} {
      if x in EntryIds(files) {
        var i :| 0 <= i < |files| && files[i].fileId == x;
        assert all[i].fileId == x;
      }
    }
    forall x ensures x in EntryKeys(key, all) <==> x in EntryKeys(key, files) + {key(file.path)} {
      if x in EntryKeys(key, files) {
        var i :| 0 <= i < |files| && key(files[i].path) == x;
        assert key(all[i].path) == x;
      }
    }
  }

  lemma NoFilesAreValid(key: string -> string)
    ensures ValidFiles(key, [])
  {
  }

  lemma ValidFilesPrefix(key: string -> string, files: seq<Entry>, n: nat)
    requires n <= |files| && ValidFiles(key, files)
    ensures ValidFiles(key, files[..n])
  {
    assert forall i :: 0 <= i < n ==> files[..n][i] == files[i];
  }

  /** Checks the manifest with running sets and a checked sum; None when something is wrong. */
  method CheckFiles(key: string -> string, files: seq<Entry>) returns (total: Option<nat>)
    ensures total.Some? <==> ValidFiles(key, files) && SumSizes(files) <= U64_MAX
    ensures total.Some? ==> total.value == SumSizes(files)
  {
    hide ValidFiles, Safe;
    NoFilesAreValid(key);
    assert files[..0] == [];
    var fileIds: set<nat> := {};
    var portablePaths: set<string> := {};
    var sum: nat := 0;
    for n := 0 to |files|
      invariant ValidFiles(key, files[..n])
      invariant fileIds == EntryIds(files[..n]) && portablePaths == EntryKeys(key, files[..n])
      invariant sum == SumSizes(files[..n]) <= U64_MAX
    {
      var file := files[n];
      assert files[..n + 1] == files[..n] + [file];
      ValidFilesSnoc(key, files[..n], file);
      if !Safe(file.path) || file.fileId == 0 || file.fileId in fileIds || key(file.path) in portablePaths {
        if ValidFiles(key, files) {
          ValidFilesPrefix(key, files, n + 1);
        }
        return None;
      }
      SumSizesPrefix(files, n + 1);
      if sum + file.size > U64_MAX {
        return None;
      }
      fileIds := fileIds + {file.fileId};
      portablePaths := portablePaths + {key(file.path)};
      sum := sum + file.size;
    }
    assert files[..|files|] == files;
    total := Some(sum);
  }

  method CheckPreviews(previews: seq<Preview>, files: seq<Entry>) returns (ok: bool)
    ensures ok <==> ValidPreviews(previews, files)
  {
    var previewIds: set<nat> := {};
    for n := 0 to |previews|
      invariant ValidPreviews(previews[..n], files)
      invariant forall id :: id in previewIds <==> exists i :: 0 <= i < n && previews[i].fileId == id
    {
      var preview := previews[n];
      if |preview.data| > MAX_PREVIEW_BYTES || !Image(preview.mediaType) || preview.fileId in previewIds
         || !Requested(files, preview.fileId) {
        return false;
      }
      previewIds := previewIds + {preview.fileId};
    }
    assert previews[..|previews|] == previews;
    ok := true;
  }

  method TotalPreviewBytes(previews: seq<Preview>) returns (total: nat)
    ensures total == SumData(previews)
  {
    total := 0;
    for n := 0 to |previews|
      invariant total == SumData(previews[..n])
    {
      assert previews[..n + 1][..n] == previews[..n];
      total := total + |previews[n].data|;
    }
    assert previews[..|previews|] == previews;
  }

  method ValidateOffer(key: string -> string, offer: TransferOffer) returns (r: Result<()>)
    ensures r.Ok? <==> ValidOffer(key, offer)
    ensures r.Err? ==> r.error == Invalid
  {
    if offer.requestId == 0 || offer.transferId == 0 {
      return Err(Invalid);
    }
    if offer.files == [] || |offer.files| > MAX_FILE_COUNT || offer.total > MAX_TOTAL_BYTES {
      return Err(Invalid);
    }
    if offer.createdAt <= 0 {
      return Err(Invalid);
    }
    var total := CheckFiles(key, offer.files);
    if total.None? || total.value != offer.total {
      return Err(Invalid);
    }
    var previewBytes := TotalPreviewBytes(offer.previews);
    if previewBytes > MAX_TOTAL_PREVIEW_BYTES {
      return Err(Invalid);
    }
    var previewsOk := CheckPreviews(offer.previews, offer.files);
    r := if previewsOk then Ok(()) else Err(Invalid);
  }

  // ----- the answer -----

  function GrantIds(grants: seq<FileGrant>): set<nat> {
    set i | 0 <= i < |grants| :: grants[i].fileId
  }

  /** The sender's check of an answer, by comparing sets and their sizes. */
  function VerifyAccept(accept: TransferAccept, transferId: nat, requestId: nat, files: seq<Entry>): Result<()> {
    if accept.transferId != transferId || accept.requestId != requestId
       || accept.chunkSize < MIN_CHUNK_SIZE || accept.chunkSize > MAX_CHUNK_SIZE
    then Err(Network)
    else if |GrantIds(accept.grants)| != |accept.grants|
            || GrantIds(accept.grants) != EntryIds(files)
            || exists i :: 0 <= i < |accept.grants|
                 && (|accept.grants[i].ticket| != TICKET_SIZE || accept.grants[i].expiresAt <= 0)
    then Err(Network)
    else Ok(())
  }

  predicate Granted(grants: seq<FileGrant>, id: nat) {
    exists i :: 0 <= i < |grants| && grants[i].fileId == id
  }

  /** What the check means: usable grants, one for each file and for nothing else. */
  ghost predicate GoodAccept(accept: TransferAccept, transferId: nat, requestId: nat, files: seq<Entry>) {
    && accept.transferId == transferId && accept.requestId == requestId
    && MIN_CHUNK_SIZE <= accept.chunkSize <= MAX_CHUNK_SIZE
    && (forall i, j :: 0 <= i < j < |accept.grants| ==> accept.grants[i].fileId != accept.grants[j].fileId)
    && (forall k :: 0 <= k < |files| ==> Granted(accept.grants, files[k].fileId))
    && (forall i :: 0 <= i < |accept.grants| ==>
         && Requested(files, accept.grants[i].fileId)
         && |accept.grants[i].ticket| == TICKET_SIZE && accept.grants[i].expiresAt > 0)
  }

  lemma {:induction false} GrantIdsCount(grants: seq<FileGrant>)
    ensures |GrantIds(grants)| <= |grants|
    ensures |GrantIds(grants)| == |grants| <==>
            forall i, j :: 0 <= i < j < |grants| ==> grants[i].fileId != grants[j].fileId
  {
    if grants != [] {
      var last := |grants| - 1;
      var init := grants[..last];
      GrantIdsCount(init);
      assert GrantIds(grants) == GrantIds(init) + {grants[last].fileId};
      if grants[last].fileId in GrantIds(init) {
        assert GrantIds(grants) == GrantIds(init);
      } else {
        assert forall i :: 0 <= i < last ==> grants[i].fileId != grants[last].fileId;
      }
    }
  }

  lemma VerifyAcceptMeansGood(accept: TransferAccept, transferId: nat, requestId: nat, files: seq<Entry>)
    ensures VerifyAccept(accept, transferId, requestId, files).Ok? <==> GoodAccept(accept, transferId, requestId, files)
  {
    GrantIdsCount(accept.grants);
    if VerifyAccept(accept, transferId, requestId, files).Ok? {
      forall k | 0 <= k < |files| ensures Granted(accept.grants, files[k].fileId) {
        assert files[k].fileId in EntryIds(files);
      }
      forall i | 0 <= i < |accept.grants| ensures Requested(files, accept.grants[i].fileId) {
        assert accept.grants[i].fileId in GrantIds(accept.grants);
      }
    }
    if GoodAccept(accept, transferId, requestId, files) {
      forall id ensures id in GrantIds(accept.grants) <==> id in EntryIds(files) {
        assert id in GrantIds(accept.grants) <==> Granted(accept.grants, id);
        assert id in EntryIds(files) <==> Requested(files, id);
      }
    }
  }

  /** Saturating, as the receiver computes expiry from a clock that never is negative. */
  function ExpiresAt(now: nat): (r: int)
    ensures 0 < r <= I64_MAX
  {
    if now + FILE_GRANT_TTL_MS > I64_MAX then I64_MAX else now + FILE_GRANT_TTL_MS
  }

  type Ticket = t: seq<bv8> | |t| == TICKET_SIZE witness seq(TICKET_SIZE, _ => 0)

  function GrantFor(file: Entry, ticket: Ticket, now: nat): (grant: FileGrant)
    ensures grant.fileId == file.fileId && grant.ticket == ticket && grant.expiresAt > 0
  {
    FileGrant(file.fileId, ticket, ExpiresAt(now))
  }

  /** One fresh grant for each file. */
  function BuildGrants(files: seq<Entry>, ticket: nat -> Ticket, clock: nat -> nat): (grants: seq<FileGrant>)
    ensures |grants| == |files|
    ensures forall i :: 0 <= i < |files| ==> grants[i] == GrantFor(files[i], ticket(i), clock(i))
  {
    seq(|files|, i requires 0 <= i < |files| => GrantFor(files[i], ticket(i), clock(i)))
  }

  function BuildAccept(offer: TransferOffer, ticket: nat -> Ticket, clock: nat -> nat): TransferAccept {
    TransferAccept(offer.requestId, offer.transferId, BuildGrants(offer.files, ticket, clock), MAX_CHUNK_SIZE)
  }

  function ClampChunk(size: nat): (r: nat)
    ensures MIN_CHUNK_SIZE <= r <= MAX_CHUNK_SIZE
    ensures MIN_CHUNK_SIZE <= size <= MAX_CHUNK_SIZE ==> r == size
  {
    if size < MIN_CHUNK_SIZE then MIN_CHUNK_SIZE else if size > MAX_CHUNK_SIZE then MAX_CHUNK_SIZE else size
  }

  lemma BuiltAcceptIsGood(offer: TransferOffer, ticket: nat -> Ticket, clock: nat -> nat)
    requires forall i, j :: 0 <= i < j < |offer.files| ==> offer.files[i].fileId != offer.files[j].fileId
    ensures GoodAccept(BuildAccept(offer, ticket, clock), offer.transferId, offer.requestId, offer.files)
  {
    hide BuildGrants;
    var files, grants := offer.files, BuildGrants(offer.files, ticket, clock);
    forall k | 0 <= k < |files| ensures Granted(grants, files[k].fileId) && Requested(files, grants[k].fileId) {
      assert grants[k].fileId == files[k].fileId;
    }
  }

  /** Handshake compatibility: whatever valid offer the receiver accepts, the sender accepts the answer. */
  lemma HandshakeCompatible(key: string -> string, offer: TransferOffer, ticket: nat -> Ticket, clock: nat -> nat)
    requires ValidOffer(key, offer)
    ensures VerifyAccept(BuildAccept(offer, ticket, clock), offer.transferId, offer.requestId, offer.files).Ok?
    ensures BuildAccept(offer, ticket, clock).chunkSize == 256 * 1024
  {
    BuiltAcceptIsGood(offer, ticket, clock);
    VerifyAcceptMeansGood(BuildAccept(offer, ticket, clock), offer.transferId, offer.requestId, offer.files);
  }

  /** After any answer that passes, looking up a file's grant succeeds, no second grant shadows it,
      and clamping the chunk size changes nothing. */
  lemma VerifiedAcceptIsUsable(accept: TransferAccept, transferId: nat, requestId: nat, files: seq<Entry>)
    requires VerifyAccept(accept, transferId, requestId, files).Ok?
    ensures ClampChunk(accept.chunkSize) == accept.chunkSize
    ensures forall k :: 0 <= k < |files| ==> Granted(accept.grants, files[k].fileId)
    ensures forall i, j :: 0 <= i < j < |accept.grants| ==> accept.grants[i].fileId != accept.grants[j].fileId
    ensures forall i :: 0 <= i < |accept.grants| ==> |accept.grants[i].ticket| == TICKET_SIZE
  {
    VerifyAcceptMeansGood(accept, transferId, requestId, files);
  }

  // ----- packing previews -----

  /** How frames are measured: the length of the offer without previews, what each preview adds, and
      the whole frame around them. */
  datatype Codec = Codec(base: nat, cost: Preview -> nat, frame: nat -> nat)

  ghost predicate Monotone(codec: Codec) {
    forall m: nat, n: nat :: m <= n ==> codec.frame(m) <= codec.frame(n)
  }

  function Cost(codec: Codec, previews: seq<Preview>): nat {
    if previews == [] then 0
    else Cost(codec, previews[..|previews| - 1]) + codec.cost(previews[|previews| - 1])
  }

  function FrameLen(codec: Codec, previews: seq<Preview>): nat {
    codec.frame(codec.base + Cost(codec, previews))
  }

  // The protobuf encoding of a control frame is measured like this.

  function VarintLen(n: nat): nat {
    if n < 0x80 then 1 else 1 + VarintLen(n / 0x80)
  }

  /** A length-delimited field with a one-byte tag. */
  function FieldLen(n: nat): nat {
    1 + VarintLen(n) + n
  }

  function WireCodec(base: nat): Codec {
    Codec(base,
          (p: Preview) => FieldLen(1 + VarintLen(p.fileId) + FieldLen(ByteLen(p.mediaType)) + FieldLen(|p.data|)),
          (n: nat) => FieldLen(n))
  }

  lemma {:induction false} VarintMonotone(m: nat, n: nat)
    requires m <= n
    ensures VarintLen(m) <= VarintLen(n)
    decreases n
  {
    if n >= 0x80 && m >= 0x80 {
      VarintMonotone(m / 0x80, n / 0x80);
    }
  }

  /** A varint has one byte for every seven bits. */
  lemma {:induction false} VarintLenIs(n: nat)
    ensures VarintLen(n) >= 1 && n < Power128(VarintLen(n))
    ensures VarintLen(n) > 1 ==> n >= Power128(VarintLen(n) - 1)
  {
    if n >= 0x80 {
      VarintLenIs(n / 0x80);
    }
  }

  function Power128(k: nat): nat {
    if k == 0 then 1 else 128 * Power128(k - 1)
  }

  function VarintBytes(n: nat): seq<bv8> {
    if n < 0x80 then [n as bv8] else [(n % 0x80 + 0x80) as bv8] + VarintBytes(n / 0x80)
  }

  /** A field is its tag, the length of its payload, and the payload. */
  function Field(tag: bv8, payload: seq<bv8>): seq<bv8> {
    [tag] + VarintBytes(|payload|) + payload
  }

  lemma {:induction false} VarintIsCounted(n: nat)
    ensures |VarintBytes(n)| == VarintLen(n)
  {
    if n >= 0x80 {
      VarintIsCounted(n / 0x80);
    }
  }

  lemma FieldIsCounted(tag: bv8, payload: seq<bv8>)
    ensures |Field(tag, payload)| == FieldLen(|payload|)
  {
    VarintIsCounted(|payload|);
  }

  /** What the codec counts for a preview, and for a frame, is the length of its protobuf encoding. */
  lemma EncodingIsCounted(base: nat, p: Preview, mediaType: seq<bv8>, tags: seq<bv8>, offer: seq<bv8>)
    requires |mediaType| == ByteLen(p.mediaType) && |tags| == 5
    ensures var id := [tags[0]] + VarintBytes(p.fileId);
            |Field(tags[3], id + Field(tags[1], mediaType) + Field(tags[2], p.data))| == WireCodec(base).cost(p)
    ensures |Field(tags[4], offer)| == WireCodec(base).frame(|offer|)
  {
    var id := [tags[0]] + VarintBytes(p.fileId);
    VarintIsCounted(p.fileId);
    FieldIsCounted(tags[1], mediaType);
    FieldIsCounted(tags[2], p.data);
    FieldIsCounted(tags[3], id + Field(tags[1], mediaType) + Field(tags[2], p.data));
    FieldIsCounted(tags[4], offer);
  }

  /** The frame around an offer holds the offer without previews and each of its previews. */
  lemma {:induction false} FrameHoldsAll(codec: Codec, previews: seq<Preview>, p: Preview)
    ensures FrameLen(codec, []) == codec.frame(codec.base)
    ensures FrameLen(codec, previews + [p]) == codec.frame(codec.base + Cost(codec, previews) + codec.cost(p))
  {
    assert (previews + [p])[..|previews|] == previews;
  }

  lemma WireCodecIsMonotone(base: nat)
    ensures Monotone(WireCodec(base))
  {
    forall m: nat, n: nat | m <= n ensures WireCodec(base).frame(m) <= WireCodec(base).frame(n) {
      VarintMonotone(m, n);
    }
  }

  datatype Prepared = Prepared(entry: Entry, preview: Option<Preview>)

  function Candidates(prepared: seq<Prepared>): seq<Preview> {
    if prepared == [] then []
    else Candidates(prepared[..|prepared| - 1])
         + (match prepared[|prepared| - 1].preview case Some(p) => [p] case None => [])
  }

  /** The candidates are exactly the previews that preparing the files gave, in the order of the files. */
  lemma {:induction false} CandidatesAreThePreviews(prepared: seq<Prepared>, p: Preview)
    ensures p in Candidates(prepared) <==> exists i :: 0 <= i < |prepared| && prepared[i].preview == Some(p)
    ensures |Candidates(prepared)| <= |prepared|
  {
    if prepared != [] {
      var last := |prepared| - 1;
      CandidatesAreThePreviews(prepared[..last], p);
      assert forall i :: 0 <= i < last ==> prepared[..last][i] == prepared[i];
      if i :| 0 <= i < last && prepared[..last][i].preview == Some(p) {
        assert prepared[i].preview == Some(p);
      }
    }
  }

  /** Whether a preview still fits after the ones packed before it. */
  predicate FitsAfter(codec: Codec, limit: nat, packed: seq<Preview>, p: Preview) {
    SumData(packed) + |p.data| <= MAX_TOTAL_PREVIEW_BYTES && FrameLen(codec, packed + [p]) <= limit
  }

  /** Which of the candidates the greedy pass takes, in order. */
  function Picks(codec: Codec, limit: nat, candidates: seq<Preview>): (picks: seq<bool>)
    ensures |picks| == |candidates|
  {
    if candidates == [] then []
    else
      var init := candidates[..|candidates| - 1];
      var picks := Picks(codec, limit, init);
      picks + [FitsAfter(codec, limit, Select(init, picks), candidates[|candidates| - 1])]
  }

  function Select(candidates: seq<Preview>, picks: seq<bool>): seq<Preview>
    requires |picks| == |candidates|
  {
    if candidates == [] then []
    else
      var last := |candidates| - 1;
      Select(candidates[..last], picks[..last]) + (if picks[last] then [candidates[last]] else [])
  }

  function Packed(codec: Codec, limit: nat, candidates: seq<Preview>): seq<Preview> {
    Select(candidates, Picks(codec, limit, candidates))
  }

  lemma PackedSnoc(codec: Codec, limit: nat, candidates: seq<Preview>, p: Preview)
    ensures Packed(codec, limit, candidates + [p])
              == Packed(codec, limit, candidates)
                 + (if FitsAfter(codec, limit, Packed(codec, limit, candidates), p) then [p] else [])
  {
    var all := candidates + [p];
    assert all[..|all| - 1] == candidates;
    var picks := Picks(codec, limit, all);
    assert picks[..|all| - 1] == Picks(codec, limit, candidates);
  }

  lemma SumsSnoc(codec: Codec, previews: seq<Preview>, p: Preview)
    ensures SumData(previews + [p]) == SumData(previews) + |p.data|
    ensures Cost(codec, previews + [p]) == Cost(codec, previews) + codec.cost(p)
  {
    assert (previews + [p])[..|previews|] == previews;
  }

  /** The budget counts every byte of every preview. */
  lemma {:induction false} SumDataCounts(previews: seq<Preview>, more: seq<Preview>)
    ensures SumData(previews + more) == SumData(previews) + SumData(more)
    ensures |more| == 1 ==> SumData(more) == |more[0].data|
    decreases |more|
  {
    if more == [] {
      assert previews + more == previews;
    } else {
      var last := |more| - 1;
      SumDataCounts(previews, more[..last]);
      assert (previews + more)[..|previews| + last] == previews + more[..last];
    }
  }

  /** The packed previews keep both budgets, provided the offer without previews keeps the second. */
  lemma {:induction false} PackedKeepsBudgets(codec: Codec, limit: nat, candidates: seq<Preview>)
    requires Monotone(codec)
    ensures SumData(Packed(codec, limit, candidates)) <= 256 * 1024
    ensures FrameLen(codec, []) <= limit ==> FrameLen(codec, Packed(codec, limit, candidates)) <= limit
    ensures FrameLen(codec, []) > limit ==> Packed(codec, limit, candidates) == []
  {
    if candidates != [] {
      var init, p := candidates[..|candidates| - 1], candidates[|candidates| - 1];
      var before := Packed(codec, limit, init);
      PackedKeepsBudgets(codec, limit, init);
      assert candidates == init + [p];
      PackedSnoc(codec, limit, init, p);
      SumsSnoc(codec, before, p);
      assert before + [] == before;
    }
  }

  lemma {:induction false} SkippedDoesNotFit(codec: Codec, limit: nat, candidates: seq<Preview>, i: nat)
    requires Monotone(codec) && i < |candidates| && !Picks(codec, limit, candidates)[i]
    ensures !FitsAfter(codec, limit, Packed(codec, limit, candidates), candidates[i])
  {
    var init, p := candidates[..|candidates| - 1], candidates[|candidates| - 1];
    assert candidates == init + [p];
    PackedSnoc(codec, limit, init, p);
    var before := Packed(codec, limit, init);
    assert before + [] == before;
    if i < |init| {
      assert Picks(codec, limit, candidates)[i] == Picks(codec, limit, init)[i];
      SkippedDoesNotFit(codec, limit, init, i);
      SumsSnoc(codec, before, p);
      SumsSnoc(codec, before, candidates[i]);
      SumsSnoc(codec, before + [p], candidates[i]);
      assert codec.base + Cost(codec, before + [candidates[i]])
          <= codec.base + Cost(codec, before + [p] + [candidates[i]]);
    }
  }

  /** No candidate was left out needlessly: each one that was skipped breaks a budget even if it is
      added to the final selection. */
  lemma PackedIsMaximal(codec: Codec, limit: nat, candidates: seq<Preview>, i: nat)
    requires Monotone(codec) && i < |candidates| && !Picks(codec, limit, candidates)[i]
    ensures var packed := Packed(codec, limit, candidates);
            SumData(packed) + |candidates[i].data| > 256 * 1024 || FrameLen(codec, packed + [candidates[i]]) > limit
  {
    SkippedDoesNotFit(codec, limit, candidates, i);
  }

  /** The greedy loop: push, measure the frame, pop if it is too long. */
  method PackPreviews(codec: Codec, limit: nat, candidates: seq<Preview>) returns (previews: seq<Preview>)
    ensures previews == Packed(codec, limit, candidates)
  {
    previews := [];
    var previewBytes := 0;
    for n := 0 to |candidates|
      invariant previews == Packed(codec, limit, candidates[..n])
      invariant previewBytes == SumData(previews)
    {
      var preview := candidates[n];
      assert candidates[..n + 1] == candidates[..n] + [preview];
      PackedSnoc(codec, limit, candidates[..n], preview);
      SumsSnoc(codec, previews, preview);
      if previewBytes + |preview.data| > MAX_TOTAL_PREVIEW_BYTES {
        continue;
      }
      previews := previews + [preview];
      if FrameLen(codec, previews) > limit {
        previews := previews[..|previews| - 1];
        continue;
      }
      previewBytes := previewBytes + |preview.data|;
    }
    assert candidates[..|candidates|] == candidates;
  }

  function Entries(prepared: seq<Prepared>): (files: seq<Entry>)
    ensures |files| == |prepared|
    ensures forall i :: 0 <= i < |prepared| ==> files[i] == prepared[i].entry
  {
    seq(|prepared|, i requires 0 <= i < |prepared| => prepared[i].entry)
  }

  /** `limit` is the longest control frame. The offer fails exactly when its preview-less frame is too long. */
  method BuildOffer(requestId: nat, transferId: nat, prepared: seq<Prepared>, now: int, codec: Codec, limit: nat)
    returns (r: Result<TransferOffer>)
    requires Monotone(codec)
    ensures r.Err? <==> FrameLen(codec, []) > limit
    ensures r.Err? ==> r.error == Invalid
    ensures r.Ok? ==>
      && r.value == TransferOffer(requestId, transferId, Entries(prepared), SumSizes(Entries(prepared)), now,
                                  Packed(codec, limit, Candidates(prepared)))
      && FrameLen(codec, r.value.previews) <= limit && SumData(r.value.previews) <= MAX_TOTAL_PREVIEW_BYTES
  {
    var offer := TransferOffer(requestId, transferId, Entries(prepared), SumSizes(Entries(prepared)), now, []);
    var previews := PackPreviews(codec, limit, Candidates(prepared));
    offer := offer.(previews := previews);
    PackedKeepsBudgets(codec, limit, Candidates(prepared));
    if FrameLen(codec, offer.previews) > limit {
      return Err(Invalid);
    }
    r := Ok(offer);
  }

  // ----- a built offer is valid -----

  /** What preparing the files establishes: ids by position, and bounded images as previews. */
  predicate WellPrepared(prepared: seq<Prepared>) {
    forall i :: 0 <= i < |prepared| ==>
      && prepared[i].entry.fileId == i + 1
      && (prepared[i].preview.Some? ==>
           && prepared[i].preview.value.fileId == i + 1
           && |prepared[i].preview.value.data| <= 64 * 1024
           && Image(prepared[i].preview.value.mediaType))
  }

  /** Previews of files 1 to `n`, each bounded and an image, in increasing order of file. */
  ghost predicate Ordered(previews: seq<Preview>, n: nat) {
    && (forall i :: 0 <= i < |previews| ==>
         1 <= previews[i].fileId <= n && |previews[i].data| <= MAX_PREVIEW_BYTES && Image(previews[i].mediaType))
    && (forall i, j :: 0 <= i < j < |previews| ==> previews[i].fileId < previews[j].fileId)
  }

  lemma {:induction false} CandidatesOrdered(prepared: seq<Prepared>)
    requires WellPrepared(prepared)
    ensures Ordered(Candidates(prepared), |prepared|)
  {
    if prepared != [] {
      CandidatesOrdered(prepared[..|prepared| - 1]);
    }
  }

  lemma OrderedSnoc(previews: seq<Preview>, p: Preview, n: nat)
    requires Ordered(previews, n) && Ordered([p], n)
    requires forall i :: 0 <= i < |previews| ==> previews[i].fileId < p.fileId
    ensures Ordered(previews + [p], n)
  {
    var all := previews + [p];
    forall i | 0 <= i < |all|
      ensures 1 <= all[i].fileId <= n && |all[i].data| <= MAX_PREVIEW_BYTES && Image(all[i].mediaType)
    {
      assert i < |previews| ==> all[i] == previews[i];
      assert i == |previews| ==> all[i] == [p][0];
    }
  }

  lemma OrderedPrefix(previews: seq<Preview>, n: nat)
    requires previews != [] && Ordered(previews, n)
    ensures var last := |previews| - 1;
            && Ordered(previews[..last], n) && Ordered([previews[last]], n)
            && forall p :: p in previews[..last] ==> p.fileId < previews[last].fileId
  {
  }

  lemma SelectLast(candidates: seq<Preview>, picks: seq<bool>)
    requires |picks| == |candidates| && candidates != []
    ensures var last := |candidates| - 1;
            Select(candidates, picks)
              == Select(candidates[..last], picks[..last]) + (if picks[last] then [candidates[last]] else [])
  {
  }

  lemma {:induction false} SelectOrdered(candidates: seq<Preview>, picks: seq<bool>, n: nat)
    requires |picks| == |candidates| && Ordered(candidates, n)
    ensures Ordered(Select(candidates, picks), n)
    ensures forall p :: p in Select(candidates, picks) ==> p in candidates
  {
    if candidates == [] {
      assert Select(candidates, picks) == [];
    } else {
      hide Ordered, Select;
      var last := |candidates| - 1;
      OrderedPrefix(candidates, n);
      SelectOrdered(candidates[..last], picks[..last], n);
      SelectLast(candidates, picks);
      var before := Select(candidates[..last], picks[..last]);
      if picks[last] {
        forall i | 0 <= i < |before| ensures before[i].fileId < candidates[last].fileId {
          assert before[i] in candidates[..last];
        }
        OrderedSnoc(before, candidates[last], n);
      }
    }
  }

  /** A built offer passes validation exactly when the transfer has 1 to 256 files within the size
      cap, safe names that no portable spelling confuses, and a positive id and time. */
  lemma BuiltOfferIsValidIff(key: string -> string, requestId: nat, transferId: nat, prepared: seq<Prepared>, now: int,
                             codec: Codec, limit: nat)
    requires WellPrepared(prepared) && requestId != 0 && Monotone(codec)
    ensures var files := Entries(prepared);
            var offer := TransferOffer(requestId, transferId, files, SumSizes(files), now,
                                       Packed(codec, limit, Candidates(prepared)));
            ValidOffer(key, offer) <==>
              (&& 1 <= |files| <= 256 && transferId != 0 && now > 0
               && SumSizes(files) <= 16 * 1024 * 1024 * 1024 * 1024
               && (forall i :: 0 <= i < |files| ==> Safe(files[i].path))
               && (forall i, j :: 0 <= i < j < |files| ==> key(files[i].path) != key(files[j].path)))
  {
    PackedKeepsBudgets(codec, limit, Candidates(prepared));
    PackedPreviewsAreValid(prepared, codec, limit);
    PreparedFilesAreValid(key, prepared);
  }

  lemma PreparedFilesAreValid(key: string -> string, prepared: seq<Prepared>)
    requires WellPrepared(prepared)
    ensures var files := Entries(prepared);
            ValidFiles(key, files) <==>
              (&& (forall i :: 0 <= i < |files| ==> Safe(files[i].path))
               && (forall i, j :: 0 <= i < j < |files| ==> key(files[i].path) != key(files[j].path)))
  {
  }

  lemma PackedPreviewsAreValid(prepared: seq<Prepared>, codec: Codec, limit: nat)
    requires WellPrepared(prepared)
    ensures ValidPreviews(Packed(codec, limit, Candidates(prepared)), Entries(prepared))
  {
    var candidates := Candidates(prepared);
    var previews := Packed(codec, limit, candidates);
    CandidatesOrdered(prepared);
    SelectOrdered(candidates, Picks(codec, limit, candidates), |prepared|);
    var files := Entries(prepared);
    forall i | 0 <= i < |previews| ensures Requested(files, previews[i].fileId) {
      assert files[previews[i].fileId - 1].fileId == previews[i].fileId;
    }
  }
}
