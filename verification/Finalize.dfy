/**
 Moving a staged file to a destination that nothing else holds: candidate names, safe directories,
 and a hard link that never replaces an entry, while other programs keep creating entries.
 */
module Finalize {
  import opened Prelude
  import opened FileStream

  const NAME_LIMIT := 10_000

  // ----- candidate names -----

  function Digit(n: nat): char
    requires n < 10
  {
    (n + '0' as int) as char
  }

  function Digits(n: nat): string {
    if n < 10 then [Digit(n)] else Digits(n / 10) + [Digit(n % 10)]
  }

  function Number(s: string): int {
    if s == "" then 0 else 10 * Number(s[..|s| - 1]) + (s[|s| - 1] as int - '0' as int)
  }

  lemma {:induction false} NumberOfDigits(n: nat)
    ensures Number(Digits(n)) == n && Digits(n) != ""
  {
    if n >= 10 {
      NumberOfDigits(n / 10);
      assert Digits(n)[..|Digits(n)| - 1] == Digits(n / 10);
    } else {
      assert Digits(n)[..0] == "";
    }
  }

  /** The position of the last dot. */
  function LastDot(name: string): Option<nat>
    ensures LastDot(name).Some? ==> LastDot(name).value < |name|
  {
    if name == "" then None
    else if name[|name| - 1] == '.' then Some(|name| - 1)
    else LastDot(name[..|name| - 1])
  }

  /** A name that only starts with its dot has no extension. */
  function Parts(name: string): (string, Option<string>) {
    match LastDot(name)
    case None => (name, None)
    case Some(i) => if i == 0 then (name, None) else (name[..i], Some(name[i + 1..]))
  }

  function Suffix(name: string): string {
    match Parts(name).1
    case None => ")"
    case Some(extension) => ")." + extension
  }

  /** The name itself, and then numbered variants of its stem. */
  function Candidate(name: string, index: nat): string {
    if index == 0 then name else Parts(name).0 + " (" + Digits(index) + Suffix(name)
  }

  type Path = seq<string>

  function CandidatePath(parent: Path, name: string, index: nat): Path {
    parent + [Candidate(name, index)]
  }

  /** The last component of a sanitized path is the file's name, the others its directories. */
  function ParentOf(root: Path, relative: seq<string>): Path
    requires |relative| > 0
  {
    root + relative[..|relative| - 1]
  }

  function NameOf(relative: seq<string>): string
    requires |relative| > 0
  {
    relative[|relative| - 1]
  }

  /** The candidates of one name are pairwise distinct. */
  lemma CandidatesAreDistinct(name: string, i: nat, j: nat)
    requires i != j
    ensures Candidate(name, i) != Candidate(name, j)
  {
    NumberOfDigits(i);
    NumberOfDigits(j);
    var stem, suffix := Parts(name).0, Suffix(name);
    if i == 0 || j == 0 {
      assert |stem| + |suffix| + 2 >= |name|;
    } else {
      var from := |stem| + 2;
      assert Candidate(name, i)[from..from + |Digits(i)|] == Digits(i);
      assert Candidate(name, j)[from..from + |Digits(j)|] == Digits(j);
    }
  }

  lemma {:induction false} DigitsHaveNoDot(n: nat)
    ensures '.' !in Digits(n)
  {
    if n >= 10 {
      DigitsHaveNoDot(n / 10);
    }
  }

  lemma {:induction false} LastDotBefore(s: string, t: string)
    requires '.' !in t
    ensures LastDot(s + t) == LastDot(s)
  {
    if t != "" {
      assert (s + t)[..|s + t| - 1] == s + t[..|t| - 1];
      assert (s + t)[|s + t| - 1] == t[|t| - 1];
      LastDotBefore(s, t[..|t| - 1]);
    } else {
      assert s + t == s;
    }
  }

  lemma {:induction false} NoDotAfterLast(name: string)
    ensures match LastDot(name)
            case None => '.' !in name
            case Some(i) => name[i] == '.' && '.' !in name[i + 1..]
  {
    if name != "" && name[|name| - 1] != '.' {
      NoDotAfterLast(name[..|name| - 1]);
    }
  }

  lemma PartsOfDotted(stem: string, extension: string)
    requires stem != "" && '.' !in extension
    ensures Parts(stem + "." + extension) == (stem, Some(extension))
  {
    var front := stem + ".";
    assert front[|front| - 1] == '.';
    LastDotBefore(front, extension);
    var name := front + extension;
    assert name[..|stem|] == stem && name[|stem| + 1..] == extension;
  }

  lemma PartsOfPlain(name: string, tail: string)
    requires Parts(name).1.None? && '.' !in tail
    ensures Parts(name + tail) == (name + tail, None)
  {
    LastDotBefore(name, tail);
  }

  lemma PartsMeans(name: string)
    ensures match Parts(name)
            case (stem, None) => stem == name
            case (stem, Some(extension)) => stem != "" && '.' !in extension && name == stem + "." + extension
  {
    NoDotAfterLast(name);
  }

  /** A candidate has the extension of the name, and a number at the end of its stem. */
  lemma CandidateKeepsExtension(name: string, index: nat)
    requires index > 0
    ensures Parts(Candidate(name, index)) == (Parts(name).0 + " (" + Digits(index) + ")", Parts(name).1)
  {
    hide Parts, LastDot, Digits;
    var (stem, extension) := Parts(name);
    var number := " (" + Digits(index) + ")";
    PartsMeans(name);
    DigitsHaveNoDot(index);
    assert stem + " (" + Digits(index) + ")" == stem + number;
    match extension {
      case None =>
        PartsOfPlain(name, number);
        assert Candidate(name, index) == name + number;
      case Some(e) =>
        PartsOfDotted(stem + number, e);
        assert Candidate(name, index) == stem + number + "." + e;
    }
  }

  // ----- the file system -----

  /** A link is followed by existence checks but not by linking or by reading metadata of the entry. */
  datatype Node = File(content: seq<byte>) | Directory | Link(resolves: bool)

  type Entries = map<Path, Node>

  predicate Exists(entries: Entries, path: Path) {
    path in entries && (entries[path].Link? ==> entries[path].resolves)
  }

  predicate PlainDirectory(entries: Entries, path: Path) {
    path in entries && entries[path].Directory?
  }

  /** Every entry of `before` is still there and unaltered. */
  ghost predicate Keeps(before: Entries, after: Entries) {
    forall path :: path in before ==> path in after && after[path] == before[path]
  }

  /** The entries of one machine. Between any two calls other programs may create entries, unless the
      machine is `quiet`, which also excludes I/O errors; a `faultless` one only excludes these. `foreign`
      holds everything that others created. */
  class FileSystem {
    const quiet: bool
    const faultless: bool
    var entries: Entries
    ghost var foreign: set<Path>

    constructor (entries: Entries, quiet: bool, faultless: bool)
      ensures this.entries == entries && this.quiet == quiet && this.faultless == faultless && foreign == {}
    {
      this.entries, this.quiet, this.faultless, foreign := entries, quiet, faultless, {};
    }

    method Interfere()
      modifies this
      ensures Keeps(old(entries), entries) && foreign == old(foreign) + (entries.Keys - old(entries.Keys))
      ensures old(foreign) <= old(entries).Keys ==> foreign <= entries.Keys
      ensures quiet ==> entries == old(entries) && foreign == old(foreign)
    {
      var added: Entries := *;
      if !quiet {
        foreign := foreign + (added.Keys - entries.Keys);
        entries := added + entries;
      }
    }

    method CreateDirectory(path: Path) returns (ok: bool)
      modifies this`entries
      ensures ok ==> path !in old(entries) && entries == old(entries)[path := Directory]
      ensures !ok ==> entries == old(entries)
      ensures quiet && path !in old(entries) ==> ok
    {
      var fault := *;
      if path in entries || (!quiet && !faultless && fault) {
        return false;
      }
      entries := entries[path := Directory];
      ok := true;
    }

    /** Fails on an existing entry, also on a link that leads nowhere. */
    method HardLink(from: Path, to: Path) returns (r: Option<Result<()>>)
      requires from in entries && entries[from].File?
      modifies this`entries
      ensures r.None? <==> to in old(entries)
      ensures r.None? ==> entries == old(entries)
      ensures r.Some? && r.value.Ok? ==> to !in old(entries) && entries == old(entries)[to := old(entries)[from]]
      ensures r.Some? && r.value.Err? ==> r.value.error == Io && entries == old(entries) && !quiet && !faultless
    {
      if to in entries {
        return None;
      }
      var fault := *;
      if !quiet && !faultless && fault {
        return Some(Err(Io));
      }
      entries := entries[to := entries[from]];
      r := Some(Ok(()));
    }

    method RemoveFile(path: Path) returns (ok: bool)
      modifies this`entries
      ensures ok ==> entries == old(entries) - {path}
      ensures !ok ==> entries == old(entries) && !quiet && !faultless
    {
      var fault := *;
      if !quiet && !faultless && fault {
        return false;
      }
      entries := entries - {path};
      ok := true;
    }
  }

  // ----- directories -----

  /** Between `before` and now only other programs' entries and plain directories on the way to
      `deepest` were added. */
  ghost predicate OnlyDirectories(before: Entries, after: Entries, foreign: set<Path>, deepest: Path) {
    && Keeps(before, after) && foreign <= after.Keys
    && forall path :: path in after && path !in before && path !in foreign ==> path <= deepest && after[path].Directory?
  }

  /** Nothing but plain directories is in the way, and the root is there. */
  ghost predicate Walkable(entries: Entries, root: Path, components: seq<string>) {
    && PlainDirectory(entries, root)
    && forall n :: 0 < n <= |components| && root + components[..n] in entries ==>
         PlainDirectory(entries, root + components[..n])
  }

  /** A missing root cannot even be looked at; anything else in the way is refused. */
  function InTheWay(entries: Entries, root: Path): Error {
    if root in entries then Invalid else Io
  }

  /** All directories on the way are there. */
  ghost predicate Ready(entries: Entries, root: Path, components: seq<string>) {
    forall n :: 0 <= n <= |components| ==> PlainDirectory(entries, root + components[..n])
  }

  /** Accepts a plain directory, creates a missing one, and refuses anything else. */
  method EnterDirectory(fs: FileSystem, path: Path) returns (r: Result<()>)
    requires fs.foreign <= fs.entries.Keys
    modifies fs
    ensures OnlyDirectories(old(fs.entries), fs.entries, fs.foreign, path) && old(fs.foreign) <= fs.foreign
    ensures forall other :: other in fs.entries && other !in old(fs.entries) && other !in fs.foreign ==> other == path
    ensures r.Ok? ==> PlainDirectory(fs.entries, path)
    ensures PlainDirectory(old(fs.entries), path) ==> r.Ok?
    ensures fs.quiet ==> fs.foreign == old(fs.foreign)
    ensures fs.quiet && r.Err? ==>
      r.error == Invalid && path in old(fs.entries) && !PlainDirectory(old(fs.entries), path)
  {
    fs.Interfere();
    if path in fs.entries {
      return if PlainDirectory(fs.entries, path) then Ok(()) else Err(Invalid);
    }
    fs.Interfere();
    var created := fs.CreateDirectory(path);
    if !created {
      return Err(Io);
    }
    // The code looks again here; as nobody removes entries, it always finds its own directory.
    fs.Interfere();
    assert PlainDirectory(fs.entries, path);
    r := Ok(());
  }

  /** Walks down from the root, creates what is missing, and refuses links and non-directories. */
  method CreateSafeDirectories(fs: FileSystem, root: Path, components: seq<string>) returns (r: Result<()>)
    requires fs.foreign <= fs.entries.Keys
    modifies fs
    ensures OnlyDirectories(old(fs.entries), fs.entries, fs.foreign, root + components)
    ensures old(fs.foreign) <= fs.foreign
    ensures r.Ok? ==> forall n :: 0 <= n <= |components| ==> PlainDirectory(fs.entries, root + components[..n])
    ensures r.Ok? ==> Walkable(old(fs.entries), root, components)
    ensures fs.quiet ==> fs.foreign == old(fs.foreign)
    ensures Ready(old(fs.entries), root, components) ==> r.Ok?
    ensures fs.quiet && r.Err? ==>
      r.error == InTheWay(old(fs.entries), root) && !Walkable(old(fs.entries), root, components)
  {
    ghost var before := fs.entries;
    var current := root;
    assert root + components[..0] == root;
    assert Ready(before, root, components) ==> PlainDirectory(before, root + components[..0]);
    if current !in fs.entries {
      return Err(Io);
    }
    if !PlainDirectory(fs.entries, current) {
      return Err(Invalid);
    }
    for n := 0 to |components|
      invariant current == root + components[..n]
      invariant OnlyDirectories(before, fs.entries, fs.foreign, current) && old(fs.foreign) <= fs.foreign
      invariant forall k :: 0 <= k <= n ==> PlainDirectory(fs.entries, root + components[..k])
      invariant fs.quiet ==> fs.foreign == old(fs.foreign)
    {
      current := current + [components[n]];
      assert current == root + components[..n + 1] && root + components[..n] <= current <= root + components;
      var entered := EnterDirectory(fs, current);
      if entered.Err? {
        return entered;
      }
    }
    r := Ok(());
  }

  // ----- choosing a destination -----

  predicate Taken(entries: Entries, parent: Path, name: string, index: nat) {
    Exists(entries, CandidatePath(parent, name, index))
  }

  /** The first candidate that does not exist, as existence checks see it. */
  function FirstMissing(entries: Entries, parent: Path, name: string, from: nat): Option<nat>
    decreases NAME_LIMIT - from
  {
    if from >= NAME_LIMIT then None
    else if !Taken(entries, parent, name, from) then Some(from)
    else FirstMissing(entries, parent, name, from + 1)
  }

  lemma {:induction false} FirstMissingIs(entries: Entries, parent: Path, name: string, from: nat)
    ensures var r := FirstMissing(entries, parent, name, from);
            && (r.Some? ==> from <= r.value < NAME_LIMIT && !Taken(entries, parent, name, r.value))
            && (forall i :: from <= i < NAME_LIMIT && (r.Some? ==> i < r.value) ==> Taken(entries, parent, name, i))
    decreases NAME_LIMIT - from
  {
    if from < NAME_LIMIT && Taken(entries, parent, name, from) {
      FirstMissingIs(entries, parent, name, from + 1);
    }
  }

  ghost function CandidatePaths(parent: Path, name: string, n: nat): set<Path> {
    set i | 0 <= i < n :: CandidatePath(parent, name, i)
  }

  lemma {:induction false} CandidatePathsCount(parent: Path, name: string, n: nat)
    ensures |CandidatePaths(parent, name, n)| == n
  {
    if n > 0 {
      CandidatePathsCount(parent, name, n - 1);
      var path := CandidatePath(parent, name, n - 1);
      forall i | 0 <= i < n - 1 ensures CandidatePath(parent, name, i) != path {
        CandidatesAreDistinct(name, i, n - 1);
        assert (CandidatePath(parent, name, i))[|parent|] != path[|parent|];
      }
      assert CandidatePaths(parent, name, n) == CandidatePaths(parent, name, n - 1) + {path};
    }
  }

  /** If at most 9,999 of the candidates' paths are taken, one of them is missing. */
  lemma MissingNameExists(entries: Entries, parent: Path, name: string, taken: set<Path>)
    requires |taken| <= 9_999
    requires forall i :: 0 <= i < 10_000 && Taken(entries, parent, name, i) ==>
      CandidatePath(parent, name, i) in taken
    ensures FirstMissing(entries, parent, name, 0).Some?
  {
    FirstMissingIs(entries, parent, name, 0);
    if FirstMissing(entries, parent, name, 0).None? {
      CandidatePathsCount(parent, name, NAME_LIMIT);
      SubsetSize(CandidatePaths(parent, name, NAME_LIMIT), taken);
    }
  }

  /** Directories on the way to the parent are not among the candidates. */
  lemma {:induction false} DirectoriesAreNoCandidates(before: Entries, after: Entries, parent: Path, name: string,
                                                      from: nat)
    requires Keeps(before, after)
    requires forall path :: path in after && path !in before ==> path <= parent
    ensures FirstMissing(after, parent, name, from) == FirstMissing(before, parent, name, from)
    decreases NAME_LIMIT - from
  {
    if from < NAME_LIMIT {
      var path := CandidatePath(parent, name, from);
      assert |path| == |parent| + 1 && !(path <= parent);
      DirectoriesAreNoCandidates(before, after, parent, name, from + 1);
    }
  }

  /** What choosing a destination gives on a quiet machine. */
  ghost function Chosen(entries: Entries, root: Path, relative: seq<string>): Result<Path>
    requires |relative| > 0
  {
    var parent, name := ParentOf(root, relative), NameOf(relative);
    if !Walkable(entries, root, relative[..|relative| - 1]) then Err(InTheWay(entries, root))
    else match FirstMissing(entries, parent, name, 0)
         case Some(i) => Ok(CandidatePath(parent, name, i))
         case None => Err(Invalid)
  }

  lemma TakenStays(before: Entries, after: Entries, parent: Path, name: string)
    requires Keeps(before, after)
    ensures forall i :: Taken(before, parent, name, i) ==> Taken(after, parent, name, i)
  {
  }

  /** All 10,000 names are taken. */
  ghost predicate AllTaken(entries: Entries, parent: Path, name: string) {
    forall i :: 0 <= i < 10_000 ==> Taken(entries, parent, name, i)
  }

  /** Makes the directories and returns the first candidate that did not exist when it was checked. */
  method UniqueDestination(fs: FileSystem, root: Path, relative: seq<string>) returns (r: Result<Path>)
    requires |relative| > 0 && fs.foreign <= fs.entries.Keys
    modifies fs
    ensures OnlyDirectories(old(fs.entries), fs.entries, fs.foreign, ParentOf(root, relative))
    ensures old(fs.foreign) <= fs.foreign
    ensures r.Ok? ==>
      exists i :: 0 <= i < NAME_LIMIT && r.value == CandidatePath(ParentOf(root, relative), NameOf(relative), i)
    ensures fs.quiet ==> fs.foreign == old(fs.foreign) && r == Chosen(old(fs.entries), root, relative)
    ensures r.Ok? ==> !Exists(fs.entries, r.value)
    ensures r.Err? && Ready(old(fs.entries), root, relative[..|relative| - 1]) ==>
      AllTaken(fs.entries, ParentOf(root, relative), NameOf(relative))
  {
    var directories := relative[..|relative| - 1];
    var name := NameOf(relative);
    var made := CreateSafeDirectories(fs, root, directories);
    if made.Err? {
      return Err(made.error);
    }
    ghost var settled := fs.entries;
    var parent := ParentOf(root, relative);
    if fs.quiet {
      DirectoriesAreNoCandidates(old(fs.entries), settled, parent, name, 0);
    }
    var index := 0;
    while index < NAME_LIMIT
      invariant index <= NAME_LIMIT
      invariant OnlyDirectories(old(fs.entries), fs.entries, fs.foreign, parent) && old(fs.foreign) <= fs.foreign
      invariant fs.quiet ==> fs.entries == settled && fs.foreign == old(fs.foreign)
      invariant fs.quiet ==> FirstMissing(fs.entries, parent, name, 0) == FirstMissing(fs.entries, parent, name, index)
      invariant forall i :: 0 <= i < index ==> Taken(fs.entries, parent, name, i)
    {
      ghost var seen := fs.entries;
      fs.Interfere();
      TakenStays(seen, fs.entries, parent, name);
      var candidate := CandidatePath(parent, name, index);
      if !Taken(fs.entries, parent, name, index) {
        return Ok(candidate);
      }
      index := index + 1;
    }
    r := Err(Invalid);
  }

  // ----- finalizing -----

  /** What the collisions so far show: each happened at another entry that somebody created meanwhile,
      unless a dangling link was in the way. */
  ghost predicate Collided(fs: FileSystem, collided: set<Path>, attempt: nat)
    reads fs
  {
    && collided <= fs.foreign && collided <= fs.entries.Keys
    && (Dangles(fs.entries) || |collided| == attempt)
  }

  lemma DanglesStays(before: Entries, after: Entries)
    requires Keeps(before, after) && Dangles(before)
    ensures Dangles(after)
  {
    var path :| path in before && before[path] == Link(false);
    assert path in after && after[path] == Link(false);
  }

  /** Tries to link the staged file to a destination that did not seem to exist. */
  method TryLink(fs: FileSystem, staged: Path, destination: Path, ghost collided: set<Path>, ghost attempt: nat)
    returns (link: Option<Result<()>>, ghost more: set<Path>)
    requires staged in fs.entries && fs.entries[staged].File? && fs.foreign <= fs.entries.Keys
    requires !Exists(fs.entries, destination) && Collided(fs, collided, attempt)
    modifies fs
    ensures Keeps(old(fs.entries), fs.entries) && old(fs.foreign) <= fs.foreign <= fs.entries.Keys
    ensures forall path :: path in fs.entries && path !in old(fs.entries) && path !in fs.foreign ==>
      path == destination && link.Some? && link.value.Ok?
    ensures link.Some? && link.value.Ok? ==>
      && destination !in old(fs.entries) && destination !in fs.foreign
      && destination in fs.entries && fs.entries[destination] == old(fs.entries)[staged]
    ensures link.Some? && link.value.Err? ==> link.value.error == Io && !fs.quiet && !fs.faultless
    ensures link.None? ==> Collided(fs, more, attempt + 1)
    ensures fs.quiet ==> fs.foreign == old(fs.foreign)
    ensures fs.quiet && !(link.Some? && link.value.Ok?) ==> fs.entries == old(fs.entries) && destination in fs.entries
  {
    ghost var seen := fs.entries;
    fs.Interfere();
    link := fs.HardLink(staged, destination);
    more := collided;
    if link.None? {
      assert destination in seen ==> seen[destination] == Link(false);
      if Dangles(seen) {
        DanglesStays(seen, fs.entries);
      } else {
        more := collided + {destination};
      }
    }
  }

  /** Collision-free finalization. Whatever other programs create meanwhile, no entry but the staged one
      is altered or removed. Ok means that the destination was free, now holds the staged content, and
      that the staged entry is gone; otherwise the staged entry is kept, and the destination may have
      been added only if removing the staged entry failed. Collisions are retried: with its directories
      there, no I/O error and no dangling link, it fails only if others took all 10,000 names or created
      10,000 entries meanwhile. */
  method FinalizeStaged(fs: FileSystem, root: Path, relative: seq<string>, staged: Path)
    returns (r: Result<Path>, ghost linked: Option<Path>)
    requires |relative| > 0 && staged in fs.entries && fs.entries[staged].File?
    requires !(staged <= ParentOf(root, relative)) && fs.foreign == {}
    modifies fs
    ensures Keeps(old(fs.entries) - {staged}, fs.entries)
    ensures linked.Some? ==>
      && linked.value !in old(fs.entries) && linked.value !in fs.foreign
      && linked.value in fs.entries && fs.entries[linked.value] == old(fs.entries)[staged]
      && exists i :: 0 <= i < 10_000 && linked.value == CandidatePath(ParentOf(root, relative), NameOf(relative), i)
    ensures r.Ok? ==> linked == Some(r.value) && staged !in fs.entries
    ensures r.Err? ==>
      && staged in fs.entries && fs.entries[staged] == old(fs.entries)[staged]
      && (linked.Some? ==> !fs.quiet && !fs.faultless)
    ensures forall path :: path in fs.entries && path !in old(fs.entries) && path !in fs.foreign ==>
      linked == Some(path) || (path <= ParentOf(root, relative) && fs.entries[path].Directory?)
    ensures fs.quiet ==> (r.Ok? <==> Finalizable(old(fs.entries), root, relative))
    ensures r.Err? && fs.faultless && Ready(old(fs.entries), root, relative[..|relative| - 1]) ==>
      || AllTaken(fs.entries, ParentOf(root, relative), NameOf(relative))
      || |fs.foreign| >= 10_000 || Dangles(fs.entries)
  {
    ghost var before := fs.entries;
    ghost var collided: set<Path> := {};
    linked := None;
    var attempt := 0;
    while attempt < NAME_LIMIT
      invariant attempt <= NAME_LIMIT
      invariant OnlyDirectories(before, fs.entries, fs.foreign, ParentOf(root, relative))
      invariant fs.quiet && PlainDirectory(fs.entries, root) ==> PlainDirectory(before, root)
      invariant fs.quiet ==> fs.foreign == {} && (attempt > 0 ==> !Finalizable(before, root, relative))
      invariant Collided(fs, collided, attempt)
    {
      if fs.quiet {
        DirectoriesKeepFinalizable(before, fs.entries, root, relative);
      }
      ghost var top := fs.entries;
      var destination := UniqueDestination(fs, root, relative);
      if destination.Err? {
        return Err(destination.error), None;
      }
      if Dangles(top) {
        DanglesStays(top, fs.entries);
      }
      var link;
      link, collided := TryLink(fs, staged, destination.value, collided, attempt);
      match link {
        case None => attempt := attempt + 1;
        case Some(Err(error)) => return Err(error), None;
        case Some(Ok(_)) =>
          linked := Some(destination.value);
          var removed := fs.RemoveFile(staged);
          if !removed {
            return Err(Io), linked;
          }
          return Ok(destination.value), linked;
      }
    }
    SubsetSize(collided, fs.foreign);
    r := Err(Invalid);
  }

  /** Some entry is a link that leads nowhere. */
  ghost predicate Dangles(entries: Entries) {
    exists path :: path in entries && entries[path] == Link(false)
  }

  /** The first candidate that does not seem to exist is not there at all. */
  predicate LinkableName(entries: Entries, parent: Path, name: string) {
    var i := FirstMissing(entries, parent, name, 0);
    i.Some? && CandidatePath(parent, name, i.value) !in entries
  }

  predicate FreeAfterTaken(entries: Entries, parent: Path, name: string, index: nat) {
    && CandidatePath(parent, name, index) !in entries
    && forall j :: 0 <= j < index ==> Taken(entries, parent, name, j)
  }

  /** On a quiet machine a file can be finalized exactly when this holds. */
  ghost predicate Finalizable(entries: Entries, root: Path, relative: seq<string>)
    requires |relative| > 0
  {
    && Walkable(entries, root, relative[..|relative| - 1])
    && LinkableName(entries, ParentOf(root, relative), NameOf(relative))
  }

  lemma DirectoriesKeepFinalizable(before: Entries, after: Entries, root: Path, relative: seq<string>)
    requires |relative| > 0 && OnlyDirectories(before, after, {}, ParentOf(root, relative))
    requires PlainDirectory(after, root) ==> PlainDirectory(before, root)
    ensures Finalizable(after, root, relative) ==> Finalizable(before, root, relative)
    ensures Chosen(after, root, relative) == Chosen(before, root, relative)
  {
    var parent, name := ParentOf(root, relative), NameOf(relative);
    DirectoriesAreNoCandidates(before, after, parent, name, 0);
  }

  /** On a quiet machine the first missing name decides: it must be free, and a dangling link there
      blocks finalization, however many names after it are free. */
  lemma LinkableUnlessDangling(entries: Entries, parent: Path, name: string)
    ensures LinkableName(entries, parent, name) <==>
            exists i :: 0 <= i < NAME_LIMIT && FreeAfterTaken(entries, parent, name, i)
  {
    FirstMissingIs(entries, parent, name, 0);
    if i :| 0 <= i < NAME_LIMIT && FreeAfterTaken(entries, parent, name, i) {
      assert !Taken(entries, parent, name, i);
      assert FirstMissing(entries, parent, name, 0) == Some(i);
    }
    if LinkableName(entries, parent, name) {
      assert FreeAfterTaken(entries, parent, name, FirstMissing(entries, parent, name, 0).value);
    }
  }

  /** A dangling link under the file's own name blocks it although every other name is free. */
  lemma DanglingLinkBlocks(root: Path, name: string)
    ensures var entries := map[root := Directory, root + [name] := Link(false)];
            && Walkable(entries, root, [])
            && (forall i: nat :: i > 0 ==> CandidatePath(root, name, i) !in entries)
            && !Finalizable(entries, root, [name])
  {
    var entries: Entries := map[root := Directory, root + [name] := Link(false)];
    forall i: nat | i > 0 ensures CandidatePath(root, name, i) !in entries {
      CandidatesAreDistinct(name, i, 0);
      assert CandidatePath(root, name, i)[|root|] != (root + [name])[|root|];
      assert |CandidatePath(root, name, i)| != |root|;
    }
    assert ParentOf(root, [name]) == root && NameOf([name]) == name;
    assert FirstMissing(entries, root, name, 0) == Some(0) by {
      assert CandidatePath(root, name, 0) == root + [name];
    }
  }
}
