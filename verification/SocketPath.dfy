/** `prepare_socket_path` of src/source.rs down to `remove_existing_socket_entry`, over an abstract file system. */
module SocketPath {
  import opened Messages

  /** A path by its components: `/` is absolute without components, the empty path relative without any. */
  datatype Path = Path(absolute: bool, comps: seq<string>)

  const ROOT := Path(true, [])
  const EMPTY := Path(false, [])

  /** `Path::parent` */
  function Parent(p: Path): Option<Path> {
    if p.comps == [] then None else Some(p.(comps := p.comps[..|p.comps| - 1]))
  }

  datatype Kind = Dir | File | Socket | Symlink | Special

  datatype IoError = NotFound | AlreadyExists | OtherError

  datatype IoResult<+T> = Done(value: T) | Failed(error: IoError)

  /** Every entry stands in a directory; the empty path names nothing, but the working directory exists. */
  ghost predicate Tree(entries: map<Path, Kind>) {
    && ROOT in entries && entries[ROOT] == Dir && EMPTY !in entries
    && forall p | p in entries && p.comps != [] :: IsDirectory(entries, Parent(p).value)
  }

  predicate IsDirectory(entries: map<Path, Kind>, d: Path) {
    d == EMPTY || (d in entries && entries[d] == Dir)
  }

  datatype Walk = Reached | Missing | Obstructed

  /** Path resolution down to a directory: the first component that fails decides the error. */
  function WalkTo(entries: map<Path, Kind>, d: Path): Walk
    decreases |d.comps|
  {
    if d.comps == [] then Reached
    else match WalkTo(entries, Parent(d).value)
      case Reached => if d !in entries then Missing else if entries[d] == Dir then Reached else Obstructed
      case Missing => Missing
      case Obstructed => Obstructed
  }

  lemma {:induction false} WalkOfTree(entries: map<Path, Kind>, d: Path)
    requires Tree(entries)
    ensures WalkTo(entries, d) == Reached <==> IsDirectory(entries, d)
    ensures d in entries && entries[d] != Dir ==> WalkTo(entries, d) == Obstructed
    ensures WalkTo(entries, d) == Missing ==> d !in entries
    decreases |d.comps|
  {
    if d.comps != [] {
      WalkOfTree(entries, Parent(d).value);
    }
  }

  /** The file system calls the source makes; in a directory of `denied` nothing may be changed. */
  class FileSystem {
    var entries: map<Path, Kind>
    const denied: set<Path>

    /** `mkdir` */
    method CreateDir(p: Path) returns (r: IoResult<()>)
      requires Tree(entries)
      modifies this
      ensures Tree(entries)
      ensures r.Done? ==> p !in old(entries) && entries == old(entries)[p := Dir]
      ensures r.Failed? ==> entries == old(entries)
      ensures r == Failed(AlreadyExists) <==> p in old(entries)
      ensures r == Failed(NotFound) <==>
                p == EMPTY || (p !in old(entries) && WalkTo(old(entries), Parent(p).value) == Missing)
      ensures r == Failed(OtherError) && denied == {} ==> WalkTo(old(entries), Parent(p).value) == Obstructed
    {
      if p == EMPTY { return Failed(NotFound); }
      if p in entries { return Failed(AlreadyExists); }
      var d := Parent(p).value;
      WalkOfTree(entries, d);
      match WalkTo(entries, d)
      case Missing => return Failed(NotFound);
      case Obstructed => return Failed(OtherError);
      case Reached =>
        if d in denied { return Failed(OtherError); }
        entries := entries[p := Dir];
        return Done(());
    }

    /** `lstat` */
    method SymlinkMetadata(p: Path) returns (r: IoResult<Kind>)
      requires Tree(entries)
      ensures r.Done? <==> p in entries
      ensures r.Done? ==> r.value == entries[p]
      ensures r == Failed(NotFound) <==>
                p == EMPTY || (p !in entries && WalkTo(entries, Parent(p).value) != Obstructed)
    {
      if p == EMPTY { return Failed(NotFound); }
      if p in entries { return Done(entries[p]); }
      if WalkTo(entries, Parent(p).value) == Obstructed { return Failed(OtherError); }
      return Failed(NotFound);
    }

    /** `unlink` of something that is not a directory */
    method RemoveFile(p: Path) returns (r: IoResult<()>)
      requires Tree(entries) && p in entries && entries[p] != Dir
      modifies this
      ensures Tree(entries)
      ensures r.Done? ==> entries == old(entries) - {p}
      ensures r.Failed? ==> entries == old(entries) && denied != {}
    {
      if Parent(p).value in denied { return Failed(OtherError); }
      entries := entries - {p};
      return Done(());
    }
  }

  // ---- the code ----

  datatype Error =
    | NoParent | CannotCreate | CannotInspect | NotADirectory | IsSymlink | CannotRemove | NotRemovable

  datatype Outcome<+T> = Ok(value: T) | Err(error: Error)

  /** The directories still to be made for `d` to exist. */
  function ToCreate(entries: map<Path, Kind>, d: Path): map<Path, Kind>
    decreases |d.comps|
  {
    if d.comps == [] then map[]
    else ToCreate(entries, Parent(d).value) + if d in entries then map[] else map[d := Dir]
  }

  /** `now` is `before` with some of the wanted directories made. */
  ghost predicate GrewWithin(before: map<Path, Kind>, now: map<Path, Kind>, wanted: map<Path, Kind>) {
    && (forall p | p in before :: p in now && now[p] == before[p])
    && (forall p | p in now && p !in before :: p in wanted && now[p] == Dir)
  }

  lemma {:induction false} NothingToCreate(entries: map<Path, Kind>, d: Path)
    requires Tree(entries) && (d in entries || d == EMPTY)
    ensures ToCreate(entries, d) == map[]
    decreases |d.comps|
  {
    if d.comps != [] {
      NothingToCreate(entries, Parent(d).value);
    }
  }

  lemma {:induction false} CreatedAreNew(entries: map<Path, Kind>, d: Path)
    ensures forall p | p in ToCreate(entries, d) :: p !in entries && ToCreate(entries, d)[p] == Dir && p.comps != [] && |p.comps| <= |d.comps|
    decreases |d.comps|
  {
    if d.comps != [] {
      CreatedAreNew(entries, Parent(d).value);
    }
  }

  /** When `create_directory_if_missing` can do its work. */
  predicate Creatable(entries: map<Path, Kind>, d: Path) {
    d != EMPTY && (d in entries || (d.comps != [] && WalkTo(entries, Parent(d).value) != Obstructed))
  }

  /** One level above a directory that is already there. */
  lemma OneLevel(before: map<Path, Kind>, now: map<Path, Kind>, path: Path)
    requires Tree(before) && Tree(now) && path !in before && now == before[path := Dir]
    ensures now == before + ToCreate(before, path) && GrewWithin(before, now, ToCreate(before, path))
    ensures Creatable(before, path)
  {
    var parent := Parent(path).value;
    assert IsDirectory(now, parent) && IsDirectory(before, parent);
    WalkOfTree(before, parent);
    NothingToCreate(before, parent);
    assert ToCreate(before, path) == map[path := Dir];
  }

  /** One level above the directories just made. */
  lemma NextLevel(before: map<Path, Kind>, mid: map<Path, Kind>, path: Path)
    requires path.comps != [] && path !in before
    requires GrewWithin(before, mid, ToCreate(before, Parent(path).value))
    ensures path !in mid
    ensures GrewWithin(before, mid, ToCreate(before, path))
    ensures GrewWithin(before, mid[path := Dir], ToCreate(before, path))
    ensures mid == before + ToCreate(before, Parent(path).value) ==> mid[path := Dir] == before + ToCreate(before, path)
  {
    CreatedAreNew(before, Parent(path).value);
    GrowsByOne(before, mid, ToCreate(before, Parent(path).value), path);
  }

  lemma GrowsByOne(before: map<Path, Kind>, mid: map<Path, Kind>, wanted: map<Path, Kind>, path: Path)
    requires path !in before && path !in wanted && GrewWithin(before, mid, wanted)
    ensures path !in mid
    ensures GrewWithin(before, mid, wanted + map[path := Dir])
    ensures GrewWithin(before, mid[path := Dir], wanted + map[path := Dir])
    ensures mid == before + wanted ==> mid[path := Dir] == before + (wanted + map[path := Dir])
  {
    AddLast(before, wanted, path);
  }

  lemma AddLast(a: map<Path, Kind>, b: map<Path, Kind>, path: Path)
    ensures (a + b)[path := Dir] == a + (b + map[path := Dir])
  {
  }

  /** The last `mkdir`, its parent directory now there. */
  method CreateLast(fs: FileSystem, path: Path) returns (r: Outcome<bool>)
    requires Tree(fs.entries) && path.comps != [] && path !in fs.entries
    requires IsDirectory(fs.entries, Parent(path).value)
    modifies fs
    ensures Tree(fs.entries)
    ensures r.Ok? ==> r.value && fs.entries == old(fs.entries)[path := Dir]
    ensures r.Err? ==> fs.entries == old(fs.entries) && r.error == CannotCreate
    ensures fs.denied == {} ==> r.Ok?
  {
    WalkOfTree(fs.entries, Parent(path).value);
    var again := fs.CreateDir(path);
    match again
    case Done(_) => return Ok(true);
    case Failed(AlreadyExists) => return Ok(false);
    case Failed(NotFound) => return Err(CannotCreate);
    case Failed(OtherError) => return Err(CannotCreate);
  }

  /** Recursive: make the parent first when `mkdir` says it is missing. */
  method CreateDirectoryIfMissing(fs: FileSystem, path: Path) returns (r: Outcome<bool>)
    requires Tree(fs.entries)
    modifies fs
    ensures Tree(fs.entries)
    ensures r.Ok? ==> fs.entries == old(fs.entries) + ToCreate(old(fs.entries), path) && path in fs.entries
    ensures r.Ok? ==> (r.value <==> path !in old(fs.entries))
    ensures GrewWithin(old(fs.entries), fs.entries, ToCreate(old(fs.entries), path))
    ensures r.Ok? ==> Creatable(old(fs.entries), path)
    ensures fs.denied == {} && Creatable(old(fs.entries), path) ==> r.Ok?
    ensures path in old(fs.entries) ==> r.Ok?
    ensures r.Err? ==> r.error == if path == EMPTY then NoParent else CannotCreate
    decreases |path.comps|
  {
    ghost var before := fs.entries;
    var made := fs.CreateDir(path);
    match made
    case Done(_) =>
      OneLevel(before, fs.entries, path);
      return Ok(true);
    case Failed(AlreadyExists) =>
      NothingToCreate(before, path);
      return Ok(false);
    case Failed(OtherError) =>
      return Err(CannotCreate);
    case Failed(NotFound) =>
      var parent := Parent(path);
      if parent.None? { return Err(NoParent); }
      CreatableParent(before, path);
      var up := CreateDirectoryIfMissing(fs, parent.value);
      NextLevel(before, fs.entries, path);
      if up.Err? { return Err(up.error); }
      ParentMade(before, fs.entries, parent.value);
      r := CreateLast(fs, path);
  }

  lemma ParentMade(before: map<Path, Kind>, now: map<Path, Kind>, d: Path)
    requires now == before + ToCreate(before, d) && d in now && d !in before
    ensures IsDirectory(now, d)
  {
    CreatedAreNew(before, d);
  }

  lemma CreatableParent(entries: map<Path, Kind>, path: Path)
    requires Tree(entries) && path.comps != [] && path !in entries
    requires WalkTo(entries, Parent(path).value) == Missing
    ensures Creatable(entries, Parent(path).value) && Parent(path).value !in entries
  {
    WalkOfTree(entries, Parent(path).value);
  }

  function SocketParent(path: Path): Outcome<Path> {
    match Parent(path)
    case Some(p) => Ok(p)
    case None => Err(NoParent)
  }

  /** `ensure_socket_parent_dir` */
  method EnsureSocketParentDir(fs: FileSystem, parent: Path) returns (r: Outcome<bool>)
    requires Tree(fs.entries)
    modifies fs
    ensures Tree(fs.entries)
    ensures r.Ok? ==> fs.entries == old(fs.entries) + ToCreate(old(fs.entries), parent)
    ensures r.Ok? ==> parent in fs.entries && fs.entries[parent] == Dir
    ensures r.Ok? ==> (r.value <==> parent !in old(fs.entries))
    ensures GrewWithin(old(fs.entries), fs.entries, ToCreate(old(fs.entries), parent))
    ensures r.Ok? ==> ParentReady(old(fs.entries), parent)
    ensures fs.denied == {} && ParentReady(old(fs.entries), parent) ==> r.Ok?
    ensures r == Err(NoParent) <==> parent == EMPTY
    ensures r == Err(NotADirectory) <==> parent in old(fs.entries) && old(fs.entries)[parent] != Dir
  {
    ghost var before := fs.entries;
    var created := CreateDirectoryIfMissing(fs, parent);
    if created.Err? { return created; }
    CreatedAreNew(before, parent);
    var metadata := fs.SymlinkMetadata(parent);
    match metadata
    case Failed(_) => return Err(CannotInspect);
    case Done(kind) =>
      if kind != Dir { return Err(NotADirectory); }
      return created;
  }

  predicate ParentReady(entries: map<Path, Kind>, d: Path) {
    Creatable(entries, d) && (d in entries ==> entries[d] == Dir)
  }

  /** `remove_existing_socket_path` and `remove_existing_socket_entry` */
  method RemoveExistingSocketPath(fs: FileSystem, path: Path) returns (r: Outcome<()>)
    requires Tree(fs.entries)
    modifies fs
    ensures Tree(fs.entries)
    ensures r.Ok? ==> fs.entries == old(fs.entries) - {path}
    ensures r.Ok? && path in old(fs.entries) ==> old(fs.entries)[path] in {File, Socket}
    ensures r.Err? ==> fs.entries == old(fs.entries)
    ensures fs.denied == {} && path.comps != [] && IsDirectory(old(fs.entries), Parent(path).value) ==>
              (r.Ok? <==> Replaceable(old(fs.entries), path))
    ensures r.Err? ==> r.error in {CannotInspect, IsSymlink, CannotRemove, NotRemovable}
    ensures r == Err(IsSymlink) <==> path in old(fs.entries) && old(fs.entries)[path] == Symlink
    ensures r == Err(NotRemovable) <==> path in old(fs.entries) && old(fs.entries)[path] in {Dir, Special}
  {
    if path.comps != [] { WalkOfTree(fs.entries, Parent(path).value); }
    var existing := fs.SymlinkMetadata(path);
    match existing
    case Failed(NotFound) => return Ok(());
    case Failed(_) => return Err(CannotInspect);
    case Done(kind) =>
      if kind == Symlink { return Err(IsSymlink); }
      if kind == Socket || kind == File {
        var removed := fs.RemoveFile(path);
        if removed.Failed? { return Err(CannotRemove); }
        return Ok(());
      }
      return Err(NotRemovable);
  }

  predicate Replaceable(entries: map<Path, Kind>, path: Path) {
    path in entries ==> entries[path] in {File, Socket}
  }

  /** What a caller could look up before the call. */
  predicate Ready(entries: map<Path, Kind>, path: Path) {
    path.comps != [] && ParentReady(entries, Parent(path).value) && Replaceable(entries, path)
  }

  /**
   * On success the parent is a directory, the socket path is free, only missing ancestors were made and only a
   * regular file or socket was removed. On failure nothing but wanted directories was added. Without permission
   * failures the outcome is decided by `Ready`.
   */
  method PrepareSocketPath(fs: FileSystem, path: Path) returns (r: Outcome<bool>)
    requires Tree(fs.entries)
    modifies fs
    ensures Tree(fs.entries)
    ensures r.Ok? ==> path.comps != [] && Prepared(old(fs.entries), fs.entries, path)
    ensures r.Ok? ==> (r.value <==> Parent(path).value !in old(fs.entries))
    ensures r.Ok? && path in old(fs.entries) ==> old(fs.entries)[path] in {File, Socket}
    ensures r.Err? && path.comps == [] ==> fs.entries == old(fs.entries)
    ensures r.Err? && path.comps != [] ==>
              GrewWithin(old(fs.entries), fs.entries, ToCreate(old(fs.entries), Parent(path).value))
    ensures fs.denied == {} ==> (r.Ok? <==> Ready(old(fs.entries), path))
    ensures r == Err(NoParent) <==> path.comps == [] || Parent(path) == Some(EMPTY)
  {
    ghost var before := fs.entries;
    var parent := SocketParent(path);
    if parent.Err? { return Err(parent.error); }
    var created := EnsureSocketParentDir(fs, parent.value);
    if created.Err? { return created; }
    CreatedAreNew(before, parent.value);
    assert path !in ToCreate(before, parent.value);
    var removed := RemoveExistingSocketPath(fs, path);
    if removed.Err? { return Err(removed.error); }
    return created;
  }

  /** The file system after a success. */
  ghost predicate Prepared(before: map<Path, Kind>, now: map<Path, Kind>, path: Path)
    requires path.comps != []
  {
    var parent := Parent(path).value;
    && parent in now && now[parent] == Dir
    && path !in now
    && now == (before + ToCreate(before, parent)) - {path}
  }

  /** `q` is `d` or lies above it. */
  predicate LeadsTo(q: Path, d: Path) {
    q.absolute == d.absolute && q.comps <= d.comps
  }

  /** Nothing but directories on the way. */
  ghost predicate OnlyDirectories(entries: map<Path, Kind>, d: Path) {
    forall q | q in entries && LeadsTo(q, d) :: entries[q] == Dir
  }

  lemma {:induction false} WalkFreeIff(entries: map<Path, Kind>, d: Path)
    requires Tree(entries)
    ensures WalkTo(entries, d) != Obstructed <==> OnlyDirectories(entries, d)
    decreases |d.comps|
  {
    if d.comps == [] {
      assert forall q | q in entries && LeadsTo(q, d) :: q == ROOT;
    } else {
      var up := Parent(d).value;
      WalkFreeIff(entries, up);
      WalkOfTree(entries, up);
      WayUp(entries, d);
    }
  }

  /** The way to a path is the way to its parent and the path itself. */
  lemma WayUp(entries: map<Path, Kind>, d: Path)
    requires d.comps != []
    ensures OnlyDirectories(entries, d) <==> OnlyDirectories(entries, Parent(d).value) && (d in entries ==> entries[d] == Dir)
  {
    var up := Parent(d).value;
    forall q ensures LeadsTo(q, d) <==> q == d || LeadsTo(q, up) {
      PrefixOfLast(q.comps, d.comps);
    }
    assert LeadsTo(d, d);
  }

  /** When a path can be prepared, entry by entry. */
  lemma ReadyIff(entries: map<Path, Kind>, path: Path)
    requires Tree(entries)
    ensures Ready(entries, path) <==>
              && path.comps != [] && (path.absolute || |path.comps| >= 2)
              && (forall q | q in entries && q.absolute == path.absolute && q.comps <= path.comps[..|path.comps| - 1] ::
                    entries[q] == Dir)
              && (path in entries ==> entries[path] == File || entries[path] == Socket)
  {
    if path.comps != [] {
      var d := Parent(path).value;
      assert OnlyDirectories(entries, d) <==>
               forall q | q in entries && q.absolute == path.absolute && q.comps <= path.comps[..|path.comps| - 1] ::
                 entries[q] == Dir;
      WalkFreeIff(entries, d);
      if d.comps != [] {
        WalkOfTree(entries, d);
        WalkFreeIff(entries, Parent(d).value);
        WayUp(entries, d);
      }
    }
  }

  /** Exactly the missing ancestors-or-self of `d` are made. */
  lemma {:induction false} CreatesMissingAncestors(entries: map<Path, Kind>, d: Path, p: Path)
    ensures p in ToCreate(entries, d) <==> p !in entries && p.comps != [] && p.absolute == d.absolute && p.comps <= d.comps
    decreases |d.comps|
  {
    if d.comps != [] {
      CreatesMissingAncestors(entries, Parent(d).value, p);
      PrefixOfLast(p.comps, d.comps);
    }
  }

  lemma PrefixOfLast(a: seq<string>, b: seq<string>)
    requires b != []
    ensures a <= b <==> a == b || a <= b[..|b| - 1]
  {
  }

  /** A bare file name has the empty path as its parent, which `mkdir` never finds: it is refused everywhere. */
  lemma BareNameIsNeverReady(entries: map<Path, Kind>, name: string)
    ensures !Ready(entries, Path(false, [name]))
  {
  }

  /** Preparing twice in a row succeeds again and changes nothing more; the second call made no directory. */
  lemma PreparedStaysReady(before: map<Path, Kind>, now: map<Path, Kind>, path: Path)
    requires path.comps != [] && Prepared(before, now, path)
    requires Tree(now)
    ensures Ready(now, path) && Prepared(now, now, path)
  {
    NothingToCreate(now, Parent(path).value);
  }
}
