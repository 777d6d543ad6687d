/**
 The transfer domain: the view of one transfer, its status machine and its progress accounting.
 `View` is the value that the manager owns, copies into snapshots and persists; the class
 `TransferView` is the same entity updated in place.
 */
module Transfer {
  import opened Prelude

  datatype Status =
    | Preparing
    | AwaitingApproval
    | Connecting
    | Transferring
    | Paused
    | Completed
    | Rejected
    | Cancelled
    | Failed
  {
    predicate Terminal() {
      Completed? || Rejected? || Cancelled? || Failed?
    }
  }

  datatype FileView = FileView(
    id: nat,
    size: nat,
    completed: nat,
    thumbnail: Option<string>,
    localPath: Option<string>,
    receiveDirectory: Option<string>)

  datatype View = View(
    id: string,
    wireId: nat,
    status: Status,
    files: seq<FileView>,
    total: nat,
    completed: nat,
    speed: nat,
    remaining: Option<nat>,
    error: Option<string>,
    updatedAt: int)

  // ----- the status machine -----

  predicate Allowed(current: Status, next: Status) {
    match current
    case Preparing => next in {Connecting, Status.Cancelled, Failed}
    case AwaitingApproval => next in {Connecting, Rejected, Status.Cancelled, Failed}
    case Connecting => next in {Transferring, AwaitingApproval, Status.Cancelled, Failed}
    case Transferring => next in {Paused, Completed, Status.Cancelled, Failed}
    case Paused => next in {Transferring, Status.Cancelled, Failed}
    case _ => false
  }

  function Moved(v: View, next: Status, now: int): Result<View> {
    if !Allowed(v.status, next) && v.status != next
    then Err(InvalidState)
    else Ok(v.(status := next, updatedAt := now))
  }

  /** The status machine, read by where it leads: what may come before each status. */
  lemma WhereStatusesComeFrom(current: Status)
    ensures Allowed(current, Connecting) <==> current == Preparing || current == AwaitingApproval
    ensures Allowed(current, AwaitingApproval) <==> current == Connecting
    ensures Allowed(current, Transferring) <==> current == Connecting || current == Paused
    ensures Allowed(current, Paused) <==> current == Transferring
    ensures Allowed(current, Completed) <==> current == Transferring
    ensures Allowed(current, Rejected) <==> current == AwaitingApproval
    ensures Allowed(current, Status.Cancelled) <==> !current.Terminal()
    ensures Allowed(current, Failed) <==> !current.Terminal()
    ensures !Allowed(current, Preparing)
    ensures current.Terminal() <==>
            current == Completed || current == Rejected || current == Status.Cancelled || current == Failed
  {
  }

  // ----- progress accounting -----

  function SumSizes(files: seq<FileView>): nat {
    if files == [] then 0 else files[0].size + SumSizes(files[1..])
  }

  function SumCompleted(files: seq<FileView>): nat {
    if files == [] then 0 else files[0].completed + SumCompleted(files[1..])
  }

  predicate UniqueFileIds(files: seq<FileView>) {
    forall i, j :: 0 <= i < j < |files| ==> files[i].id != files[j].id
  }

  predicate Bounded(files: seq<FileView>) {
    forall i :: 0 <= i < |files| ==> files[i].completed <= files[i].size
  }

  /** What both constructors of a transfer establish and every operation has to keep. */
  predicate Conserved(v: View) {
    && UniqueFileIds(v.files)
    && Bounded(v.files)
    && v.completed == SumCompleted(v.files)
    && v.total == SumSizes(v.files)
    && v.total <= U64_MAX
  }

  /** The first position that holds `id`, as a linear search finds it. */
  function Position(files: seq<FileView>, id: nat): (r: Option<nat>)
    ensures r.Some? ==> r.value < |files| && files[r.value].id == id
    ensures r.Some? ==> forall i :: 0 <= i < r.value ==> files[i].id != id
    ensures r.None? ==> forall i :: 0 <= i < |files| ==> files[i].id != id
  {
    var ids := seq(|files|, i requires 0 <= i < |files| => files[i].id);
    assert forall i :: 0 <= i < |files| ==> files[i].id == ids[i] && ids[i] in ids;
    IndexOf(ids, id)
  }

  function Guess(id: nat): nat {
    if id == 0 then 0 else id - 1
  }

  /** Tries position `id - 1` before searching. */
  function IndexedLookup(files: seq<FileView>, id: nat): (r: Option<nat>)
    ensures r.Some? ==> r.value < |files| && files[r.value].id == id
  {
    var guess := Guess(id);
    if guess < |files| && files[guess].id == id then Some(guess) else Position(files, id)
  }

  predicate Active(status: Status) {
    status.Preparing? || status.Transferring? || status.Paused?
  }

  function Progressed(v: View, fileId: nat, bytes: nat, now: int): Result<(View, bool)> {
    if !Active(v.status) then Err(InvalidState)
    else match IndexedLookup(v.files, fileId)
         case None => Err(Invalid)
         case Some(i) =>
           var file := v.files[i];
           if bytes < file.completed || bytes > file.size then Err(Invalid)
           else Ok((v.(files := v.files[i := file.(completed := bytes)],
                       completed := v.completed + (bytes - file.completed),
                       updatedAt := now),
                    bytes == file.size))
  }

  // ----- the other edits that the manager applies under its state lock -----

  datatype Edit =
    | Move(next: Status, now: int)
    | Fail(message: string, now: int)
    | Reset
    | Preview(previews: map<nat, Option<string>>)
    | Locate(fileId: nat, path: string, directory: string)

  function Rewound(files: seq<FileView>): (r: seq<FileView>)
    ensures |r| == |files|
    ensures forall i :: 0 <= i < |files| ==> r[i] == files[i].(completed := 0)
  {
    seq(|files|, i requires 0 <= i < |files| => files[i].(completed := 0))
  }

  function WithPreviews(files: seq<FileView>, previews: map<nat, Option<string>>): (r: seq<FileView>)
    ensures |r| == |files|
    ensures forall i :: 0 <= i < |files| ==> r[i] == Previewed(files[i], previews)
  {
    seq(|files|, i requires 0 <= i < |files| => Previewed(files[i], previews))
  }

  function Previewed(file: FileView, previews: map<nat, Option<string>>): FileView {
    if file.id in previews then file.(thumbnail := previews[file.id]) else file
  }

  function ApplyEdit(v: View, e: Edit): Result<View> {
    match e
    case Move(next, now) => Moved(v, next, now)
    case Fail(message, now) =>
      if v.status.Terminal() then Ok(v)
      else (match Moved(v, Failed, now)
            case Ok(w) => Ok(w.(error := Some(message)))
            case Err(error) => Err(error))
    case Reset =>
      Ok(v.(files := Rewound(v.files), completed := 0, speed := 0, remaining := None))
    case Preview(previews) =>
      Ok(v.(files := WithPreviews(v.files, previews)))
    case Locate(fileId, path, directory) =>
      match Position(v.files, fileId)
      case None => Err(Invalid)
      case Some(i) =>
        Ok(v.(files := v.files[i := v.files[i].(localPath := Some(path), receiveDirectory := Some(directory))]))
  }

  /** A failure ends an active transfer as failed, with its message, and leaves an ended one alone. */
  lemma FailEnds(v: View, message: string, now: int)
    ensures ApplyEdit(v, Fail(message, now)).Ok?
    ensures var w := ApplyEdit(v, Fail(message, now)).value;
            if v.status.Terminal() then w == v
            else w == v.(status := Failed, error := Some(message), updatedAt := now)
  {
  }

  /** What a previewed, located or reset transfer shows, file by file. */
  lemma FilesAfterEdit(v: View, edit: Edit, i: nat)
    requires UniqueFileIds(v.files) && ApplyEdit(v, edit).Ok? && i < |v.files|
    ensures |ApplyEdit(v, edit).value.files| == |v.files|
    ensures var f, g := v.files[i], ApplyEdit(v, edit).value.files[i];
            && g.id == f.id && g.size == f.size
            && (edit.Preview? ==>
                 g == f.(thumbnail := if f.id in edit.previews then edit.previews[f.id] else f.thumbnail))
            && (edit.Locate? ==>
                 g == if f.id != edit.fileId then f
                      else f.(localPath := Some(edit.path), receiveDirectory := Some(edit.directory)))
            && (edit.Reset? ==> g == f.(completed := 0))
            && (edit.Move? || edit.Fail? ==> g == f)
    ensures edit.Reset? ==> var w := ApplyEdit(v, edit).value; w.completed == w.speed == 0 && w.remaining.None?
    ensures edit.Preview? || edit.Locate? ==> ApplyEdit(v, edit).value == v.(files := ApplyEdit(v, edit).value.files)
  {
  }

  /** Exactly which edits are refused. */
  lemma RefusedEdits(v: View, edit: Edit)
    ensures ApplyEdit(v, edit).Err? <==>
            || (edit.Move? && !Allowed(v.status, edit.next) && v.status != edit.next)
            || (edit.Locate? && forall i :: 0 <= i < |v.files| ==> v.files[i].id != edit.fileId)
    ensures edit.Move? && ApplyEdit(v, edit).Ok? ==>
              ApplyEdit(v, edit).value == v.(status := edit.next, updatedAt := edit.now)
  {
  }

  // ----- runs of one transfer -----

  datatype Op = Record(fileId: nat, bytes: nat, now: int) | Do(edit: Edit)

  /** A refused operation leaves the transfer as it was. */
  function Perform(v: View, op: Op): View {
    match op
    case Record(fileId, bytes, now) =>
      (match Progressed(v, fileId, bytes, now)
       case Ok(r) => r.0
       case Err(_) => v)
    case Do(edit) =>
      match ApplyEdit(v, edit)
      case Ok(w) => w
      case Err(_) => v
  }

  function Run(v: View, ops: seq<Op>): View
    decreases |ops|
  {
    if ops == [] then v else Run(Perform(v, ops[0]), ops[1..])
  }

  predicate NoReset(ops: seq<Op>) {
    forall i :: 0 <= i < |ops| ==> ops[i] != Do(Reset)
  }

  /** With unique ids the shortcut finds exactly what the linear search finds. */
  lemma IndexedLookupIsLinearSearch(files: seq<FileView>, id: nat)
    requires UniqueFileIds(files)
    ensures IndexedLookup(files, id) == Position(files, id)
  {
    if Guess(id) < |files| && files[Guess(id)].id == id {
      assert Position(files, id).Some?;
    }
  }

  lemma {:induction false} SumCompletedUpdate(files: seq<FileView>, i: nat, file: FileView)
    requires i < |files|
    ensures SumCompleted(files[i := file]) + files[i].completed == SumCompleted(files) + file.completed
  {
    if i == 0 {
      assert files[i := file][1..] == files[1..];
    } else {
      SumCompletedUpdate(files[1..], i - 1, file);
      assert files[i := file][1..] == files[1..][i - 1 := file];
    }
  }

  lemma {:induction false} SumSizesPointwise(a: seq<FileView>, b: seq<FileView>)
    requires |a| == |b| && forall i :: 0 <= i < |a| ==> a[i].size == b[i].size
    ensures SumSizes(a) == SumSizes(b)
  {
    if a != [] {
      SumSizesPointwise(a[1..], b[1..]);
    }
  }

  lemma {:induction false} SumCompletedPointwise(a: seq<FileView>, b: seq<FileView>)
    requires |a| == |b| && forall i :: 0 <= i < |a| ==> a[i].completed == b[i].completed
    ensures SumCompleted(a) == SumCompleted(b)
  {
    if a != [] {
      SumCompletedPointwise(a[1..], b[1..]);
    }
  }

  lemma {:induction false} SumRewound(files: seq<FileView>)
    ensures SumCompleted(Rewound(files)) == 0
  {
    if files != [] {
      assert Rewound(files)[1..] == Rewound(files[1..]);
      SumRewound(files[1..]);
    }
  }

  lemma {:induction false} SumBounded(files: seq<FileView>)
    requires Bounded(files)
    ensures SumCompleted(files) <= SumSizes(files)
  {
    if files != [] {
      SumBounded(files[1..]);
    }
  }

  /** Files never change their ids or sizes and, unless rewound, never lose bytes. */
  predicate Progresses(v: View, w: View) {
    && |v.files| == |w.files|
    && v.completed <= w.completed
    && v.total == w.total
    && forall i :: 0 <= i < |v.files| ==>
         && v.files[i].id == w.files[i].id
         && v.files[i].size == w.files[i].size
         && v.files[i].completed <= w.files[i].completed
  }

  /** Exactly which reports are accepted, and that an accepted one sets its file and nothing else. */
  lemma RecordAccepted(v: View, fileId: nat, bytes: nat, now: int)
    requires UniqueFileIds(v.files)
    ensures Progressed(v, fileId, bytes, now).Ok? <==>
            (v.status == Preparing || v.status == Transferring || v.status == Paused)
            && exists i :: 0 <= i < |v.files| && v.files[i].id == fileId
                 && v.files[i].completed <= bytes <= v.files[i].size
    ensures Progressed(v, fileId, bytes, now).Ok? ==>
              var (w, finished) := Progressed(v, fileId, bytes, now).value;
              && |w.files| == |v.files| && w.status == v.status && w.total == v.total
              && (forall i :: 0 <= i < |v.files| ==>
                   w.files[i] == if v.files[i].id == fileId then v.files[i].(completed := bytes) else v.files[i])
              && (finished <==> exists i :: 0 <= i < |v.files| && v.files[i].id == fileId && v.files[i].size == bytes)
  {
    if Progressed(v, fileId, bytes, now).Ok? {
      var i := IndexedLookup(v.files, fileId).value;
      assert forall j :: 0 <= j < |v.files| && j != i ==> v.files[j].id != fileId;
    }
    if i :| 0 <= i < |v.files| && v.files[i].id == fileId && v.files[i].completed <= bytes <= v.files[i].size {
      assert IndexedLookup(v.files, fileId) == Some(i);
    }
  }

  lemma RecordConserves(v: View, fileId: nat, bytes: nat, now: int)
    requires Conserved(v) && Progressed(v, fileId, bytes, now).Ok?
    ensures var w := Progressed(v, fileId, bytes, now).value.0; Conserved(w) && Progresses(v, w)
  {
    var w := Progressed(v, fileId, bytes, now).value.0;
    var i := IndexedLookup(v.files, fileId).value;
    SumCompletedUpdate(v.files, i, v.files[i].(completed := bytes));
    SumSizesPointwise(v.files, w.files);
  }

  lemma RecordStaysBounded(v: View, fileId: nat, bytes: nat, now: int)
    ensures Conserved(v) ==> v.completed <= U64_MAX
    ensures Conserved(v) && Progressed(v, fileId, bytes, now).Ok? ==>
      var w := Progressed(v, fileId, bytes, now).value.0; Conserved(w) && w.completed <= U64_MAX
  {
    if Conserved(v) {
      SumBounded(v.files);
      if Progressed(v, fileId, bytes, now).Ok? {
        RecordConserves(v, fileId, bytes, now);
        SumBounded(Progressed(v, fileId, bytes, now).value.0.files);
      }
    }
  }

  lemma EditConserves(v: View, edit: Edit)
    requires Conserved(v) && ApplyEdit(v, edit).Ok?
    ensures var w := ApplyEdit(v, edit).value; Conserved(w) && (!edit.Reset? ==> Progresses(v, w))
  {
    var w := ApplyEdit(v, edit).value;
    assert |w.files| == |v.files|;
    assert forall i :: 0 <= i < |v.files| ==> w.files[i].id == v.files[i].id && w.files[i].size == v.files[i].size;
    SumSizesPointwise(v.files, w.files);
    if edit.Reset? {
      SumRewound(v.files);
    } else {
      SumCompletedPointwise(v.files, w.files);
    }
  }

  lemma PerformConserves(v: View, op: Op)
    requires Conserved(v)
    ensures Conserved(Perform(v, op))
    ensures op != Do(Reset) ==> Progresses(v, Perform(v, op))
  {
    match op {
      case Record(fileId, bytes, now) =>
        if Progressed(v, fileId, bytes, now).Ok? {
          RecordConserves(v, fileId, bytes, now);
        }
      case Do(edit) =>
        if ApplyEdit(v, edit).Ok? {
          EditConserves(v, edit);
        }
    }
  }

  /** Conservation over every run: the total is the sum of the files, no file passes its size,
      and the total stays within `total`, so the 64-bit addition never overflows. */
  lemma {:induction false} ProgressIsConserved(v: View, ops: seq<Op>)
    requires Conserved(v)
    ensures var w := Run(v, ops);
            Conserved(w) && w.completed <= w.total <= U64_MAX && w.total == v.total
    ensures NoReset(ops) ==> Progresses(v, Run(v, ops))
    decreases |ops|
  {
    SumBounded(v.files);
    if ops != [] {
      PerformConserves(v, ops[0]);
      ProgressIsConserved(Perform(v, ops[0]), ops[1..]);
      assert ops[0] == Do(Reset) ==> Perform(v, ops[0]).total == v.total;
    }
  }

  predicate SameProgress(v: View, w: View) {
    && v.completed == w.completed
    && |v.files| == |w.files|
    && forall i :: 0 <= i < |v.files| ==> v.files[i].completed == w.files[i].completed
  }

  predicate NoProgress(v: View) {
    v.completed == 0 && forall i :: 0 <= i < |v.files| ==> v.files[i].completed == 0
  }

  lemma {:induction false} RunSnoc(v: View, ops: seq<Op>)
    requires ops != []
    ensures Run(v, ops) == Perform(Run(v, ops[..|ops| - 1]), ops[|ops| - 1])
    decreases |ops|
  {
    if |ops| > 1 {
      RunSnoc(Perform(v, ops[0]), ops[1..]);
      assert ops[1..][..|ops| - 2] == ops[..|ops| - 1][1..];
    }
  }

  /** No operation changes the status except as the status machine allows. */
  lemma StatusMoves(v: View, op: Op)
    ensures Perform(v, op).status == v.status || Allowed(v.status, Perform(v, op).status)
  {
  }

  lemma {:induction false} ConnectedFirst(v: View, ops: seq<Op>)
    requires v.status.Preparing? || v.status.AwaitingApproval? || v.status.Connecting?
    requires Run(v, ops).status.Transferring? || Run(v, ops).status.Paused?
    ensures exists m :: 0 <= m < |ops| && Run(v, ops[..m]).status.Connecting?
  {
    var last := |ops| - 1;
    hide Perform;
    assert ops != [];
    RunSnoc(v, ops);
    StatusMoves(Run(v, ops[..last]), ops[last]);
    if !Run(v, ops[..last]).status.Connecting? {
      ConnectedFirst(v, ops[..last]);
      var m :| 0 <= m < last && Run(v, ops[..last][..m]).status.Connecting?;
      assert ops[..last][..m] == ops[..m];
    }
  }

  /** No run completes a transfer without passing through `Connecting` and then `Transferring`. */
  lemma {:induction false} CompletionRoute(v: View, ops: seq<Op>)
    requires v.status.Preparing? || v.status.AwaitingApproval? || v.status.Connecting?
    requires Run(v, ops).status.Completed?
    ensures exists m, n :: 0 <= m < n < |ops|
              && Run(v, ops[..m]).status.Connecting? && Run(v, ops[..n]).status.Transferring?
  {
    hide Perform;
    var last := |ops| - 1;
    RunSnoc(v, ops);
    StatusMoves(Run(v, ops[..last]), ops[last]);
    if Run(v, ops[..last]).status.Completed? {
      CompletionRoute(v, ops[..last]);
      var m, n :| 0 <= m < n < last
        && Run(v, ops[..last][..m]).status.Connecting? && Run(v, ops[..last][..n]).status.Transferring?;
      assert ops[..last][..m] == ops[..m] && ops[..last][..n] == ops[..n];
    } else {
      ConnectedFirst(v, ops[..last]);
      var m :| 0 <= m < last && Run(v, ops[..last][..m]).status.Connecting?;
      assert ops[..last][..m] == ops[..m];
    }
  }

  // ----- the entity updated in place -----

  class TransferView {
    const id: string
    const wireId: nat
    const total: nat
    var status: Status
    var files: seq<FileView>
    var completed: nat
    var speed: nat
    var remaining: Option<nat>
    var error: Option<string>
    var updatedAt: int

    function Value(): View
      reads this
    {
      View(id, wireId, status, files, total, completed, speed, remaining, error, updatedAt)
    }

    constructor (v: View)
      ensures Value() == v
    {
      id, wireId, total := v.id, v.wireId, v.total;
      status, files, completed := v.status, v.files, v.completed;
      speed, remaining, error, updatedAt := v.speed, v.remaining, v.error, v.updatedAt;
    }

    method Transition(next: Status, now: int) returns (r: Result<()>)
      modifies this`status, this`updatedAt
      ensures r.Ok? <==> Allowed(old(status), next) || old(status) == next
      ensures r.Ok? ==> Value() == old(Value()).(status := next, updatedAt := now)
      ensures r.Err? ==> r.error == InvalidState && Value() == old(Value())
    {
      if !Allowed(status, next) && status != next {
        return Err(InvalidState);
      }
      status := next;
      updatedAt := now;
      r := Ok(());
    }

    method RecordProgress(fileId: nat, bytes: nat, now: int) returns (r: Result<bool>)
      modifies this`files, this`completed, this`updatedAt
      ensures match Progressed(old(Value()), fileId, bytes, now)
              case Ok(p) => r == Ok(p.1) && Value() == p.0
              case Err(e) => r == Err(e) && Value() == old(Value())
      ensures old(Conserved(Value())) ==> Conserved(Value()) && completed <= U64_MAX
      ensures old(UniqueFileIds(files)) ==> old(IndexedLookup(files, fileId) == Position(files, fileId))
    {
      RecordStaysBounded(Value(), fileId, bytes, now);
      if UniqueFileIds(files) {
        IndexedLookupIsLinearSearch(files, fileId);
      }
      if !Active(status) {
        return Err(InvalidState);
      }
      var index := Guess(fileId);
      if !(index < |files| && files[index].id == fileId) {
        index := 0;
        while index < |files| && files[index].id != fileId
          invariant 0 <= index <= |files|
          invariant forall i :: 0 <= i < index ==> files[i].id != fileId
        {
          index := index + 1;
        }
        if index == |files| {
          return Err(Invalid);
        }
      }
      assert IndexedLookup(files, fileId) == Some(index);
      var file := files[index];
      if bytes < file.completed || bytes > file.size {
        return Err(Invalid);
      }
      completed := completed + (bytes - file.completed);
      files := files[index := file.(completed := bytes)];
      updatedAt := now;
      r := Ok(bytes == file.size);
    }
  }
}
