/**
 * The blob-cache reference: a wrapped image reference and an ordered,
 * non-empty list of cache directories. It parses "directories:reference",
 * prints itself back, answers whether a blob is cached and clears the cache.
 */
module CacheReference {
  import opened Wrappers
  import opened Text
  import opened FileSystem
  import opened Blobs

  /** `R` is the type of the wrapped transport's references. */
  datatype Reference<R> = Reference(inner: R, directories: seq<string>)
  {
    /** What NewBlobCache guarantees of every reference it builds. */
    predicate Valid()
    {
      |directories| > 0
    }
  }

  /** NewBlobCache: refuses an empty directory list and keeps its own copy of the list. */
  function NewBlobCache<R>(inner: R, directories: seq<string>): (r: Result<Reference<R>, Error>)
    ensures r.Failure? <==> |directories| == 0
    ensures r.Failure? ==> r.error == NoCacheDirectory
    ensures r.Success? ==> r.value.Valid() && r.value.inner == inner && Directories(r.value) == directories
  {
    if |directories| == 0 then Failure(NoCacheDirectory)
    else Success(Reference(inner, directories))
  }

  /** The cache directories, in order (a copy: a value the caller cannot alter the reference through). */
  function Directories<R>(r: Reference<R>): seq<string>
  {
    r.directories
  }

  /**
   * ParseReference: "dir1,dir2,...:inner". The text before the first ':' is
   * split on ','; an empty directory part gives the empty list, which
   * NewBlobCache then refuses. `parseImageName` parses the wrapped reference.
   */
  function ParseReference<R>(reference: string, parseImageName: string -> Result<R, Error>): (r: Result<Reference<R>, Error>)
    ensures ':' !in reference ==> r == Failure(BadSyntax(reference))
    ensures r.Success? ==>
              && Cut(reference, ':').Some?
              && r.value.directories == Split(Cut(reference, ':').value.0, ',')
              && parseImageName(Cut(reference, ':').value.1) == Success(r.value.inner)
              && r.value.Valid()
  {
    match Cut(reference, ':')
    case None => Failure(BadSyntax(reference))
    case Some((dirPart, realRef)) =>
      var split := Split(dirPart, ',');
      var directories := if |split| == 1 && split[0] == "" then [] else split;
      match parseImageName(realRef)
      case Failure(e) => Failure(Wrapped(ParsingReference, e))
      case Success(ref) => NewBlobCache(ref, directories)
  }

  /** An empty directory part is parsed as no directory at all, and the reference is refused. */
  lemma EmptyDirectoryPartRefused<R>(realRef: string, parseImageName: string -> Result<R, Error>)
    requires parseImageName(realRef).Success?
    ensures ParseReference(":" + realRef, parseImageName) == Failure(NoCacheDirectory)
  {
    var s := ":" + realRef;
    var cut := Cut(s, ':');
    CutUnique(cut.value.0, cut.value.1, "", realRef, ':');
    assert Split("", ',') == [""];
  }

  /** StringWithinTransport: the directories joined with ',', a ':', then the wrapped reference's name. */
  function StringWithinTransport<R>(r: Reference<R>, imageName: R -> string): string
  {
    Join(r.directories, ',') + ":" + imageName(r.inner)
  }

  /**
   * Parsing what StringWithinTransport prints gives the reference back, when
   * no directory holds ',' or ':', the list is not [""], and the wrapped
   * transport parses its own names back.
   */
  lemma ParseStringWithinTransport<R>(r: Reference<R>, imageName: R -> string, parseImageName: string -> Result<R, Error>)
    requires r.Valid() && r.directories != [""]
    requires forall i :: 0 <= i < |r.directories| ==> ',' !in r.directories[i] && ':' !in r.directories[i]
    requires parseImageName(imageName(r.inner)) == Success(r.inner)
    ensures ParseReference(StringWithinTransport(r, imageName), parseImageName) == Success(r)
  {
    var joined := Join(r.directories, ',');
    var s := StringWithinTransport(r, imageName);
    JoinAvoids(r.directories, ',', ':');
    assert s == joined + [':'] + imageName(r.inner);
    var cut := Cut(s, ':');
    CutUnique(cut.value.0, cut.value.1, joined, imageName(r.inner), ':');
    SplitJoin(r.directories, ',');
  }

  /** The error of a stat whose answer was not "not found" (nil when the file exists). */
  function StatError(stat: Probe, p: Path): Option<Error>
  {
    if stat.Failed? then Some(OsError(Stat, p)) else None
  }

  /**
   * What HasBlob answers: nothing is examined for an empty digest; otherwise
   * the first candidate (in scan order) that is not absent decides alone.
   * It is present when the requested size is -1 or its own; a file of another
   * size gives "absent" with no error and the search stops there; a failed
   * stat gives the error.
   */
  function HasBlobSpec(dirs: seq<string>, info: BlobInfo, fs: Fs): Answer
  {
    if info.digest == "" then Absent
    else
      var cands := Candidates(dirs, info.digest);
      var k := FirstNonMissing(fs, cands);
      if k == |cands| then Absent
      else match ProbeAt(fs, cands[k])
        case Found(content) =>
          if info.size == -1 || info.size == |content| then Answer(true, |content|, None) else Absent
        case _ => Answer(false, -1, Some(Wrapped(CheckingSize, OsError(Stat, cands[k]))))
  }

  /** blobCacheReference.HasBlob: scans directory by directory, layer name before configuration name. */
  method HasBlob<R>(r: Reference<R>, info: BlobInfo, disk: Disk) returns (ans: Answer)
    ensures ans == HasBlobSpec(r.directories, info, disk.fs)
  {
    if info.digest == "" {
      return Absent;
    }
    ghost var cands := Candidates(r.directories, info.digest);
    ghost var k := FirstNonMissing(disk.fs, cands);
    for i := 0 to |r.directories|
      invariant 2 * i <= k
    {
      var directory := r.directories[i];
      var configFlags := [false, true];
      for c := 0 to |configFlags|
        invariant 2 * i + c <= k
      {
        var isConfig := configFlags[c];
        var filename := JoinPath(directory, MakeFilename(info.digest, isConfig));
        CandidateAt(r.directories, info.digest, i, isConfig);
        var stat := ProbeAt(disk.fs, filename);
        if stat.Found? && (info.size == -1 || info.size == |stat.content|) {
          return Answer(true, |stat.content|, None);
        }
        if !stat.Missing? {
          // for a file of another size the error is nil, and so is its wrapping
          return Answer(false, -1, Wrapf(StatError(stat, filename), CheckingSize));
        }
      }
    }
    return Absent;
  }

  /**
   * The first file that is not absent decides: if directory i's file with
   * flag isConfig is the first one not absent, HasBlob answers from it alone.
   */
  lemma {:induction false} HasBlobFirstExistingDecides(dirs: seq<string>, info: BlobInfo, fs: Fs, i: nat, isConfig: bool)
    requires info.digest != "" && i < |dirs|
    requires forall j, c :: 0 <= j < i ==> ProbeAt(fs, JoinPath(dirs[j], MakeFilename(info.digest, c))).Missing?
    requires isConfig ==> ProbeAt(fs, JoinPath(dirs[i], MakeFilename(info.digest, false))).Missing?
    requires !ProbeAt(fs, JoinPath(dirs[i], MakeFilename(info.digest, isConfig))).Missing?
    ensures var stat := ProbeAt(fs, JoinPath(dirs[i], MakeFilename(info.digest, isConfig)));
            HasBlobSpec(dirs, info, fs) ==
              if stat.Failed? then Answer(false, -1, Some(Wrapped(CheckingSize, OsError(Stat, JoinPath(dirs[i], MakeFilename(info.digest, isConfig))))))
              else if info.size == -1 || info.size == |stat.content| then Answer(true, |stat.content|, None)
              else Absent
  {
    var cands := Candidates(dirs, info.digest);
    var k := 2 * i + (if isConfig then 1 else 0);
    CandidateAt(dirs, info.digest, i, isConfig);
    FirstNonMissingAt(fs, dirs, info.digest, i, isConfig);
    assert FirstNonMissing(fs, cands) == k && cands[k] == JoinPath(dirs[i], MakeFilename(info.digest, isConfig));
  }

  /** When no directory holds either file, the blob is absent and there is no error. */
  lemma {:induction false} HasBlobNothingCached(dirs: seq<string>, info: BlobInfo, fs: Fs)
    requires forall j, c :: 0 <= j < |dirs| ==> ProbeAt(fs, JoinPath(dirs[j], MakeFilename(info.digest, c))).Missing?
    ensures HasBlobSpec(dirs, info, fs) == Absent
  {
    if info.digest != "" {
      AllMissing(fs, dirs, info.digest);
    }
  }

  /**
   * A cached layer of another size than the one asked for hides every later
   * copy: two directories, the first holding 1 byte and the second 2 bytes
   * under the same digest; asking for 2 bytes finds nothing.
   */
  lemma SizeMismatchHidesLaterCopy(digest: string)
    requires digest != ""
    ensures var fs := Fs(map["a" := map[digest := [0]], "b" := map[digest := [0, 0]]], {}, {}, {}, {}, {});
            HasBlobSpec(["a", "b"], BlobInfo(digest, 2), fs) == Absent
  {
    var fs := Fs(map["a" := map[digest := [0]], "b" := map[digest := [0, 0]]], {}, {}, {}, {}, {});
    HasBlobFirstExistingDecides(["a", "b"], BlobInfo(digest, 2), fs, 0, false);
  }

  /**
   * A directory ClearCache can empty: it exists, opens, lists, and every entry
   * can be removed. ClearCache opens the name as it is listed, so the empty
   * name, which is no directory, cannot be emptied.
   */
  predicate DirClearable(fs: Fs, dir: string)
  {
    && dir != "" && dir in fs.dirs && dir !in fs.unopenable && dir !in fs.unlistable
    && forall n :: n in fs.dirs[dir] ==> Path(dir, n) !in fs.faulty
  }

  predicate Clearable(fs: Fs, dirs: seq<string>)
  {
    forall i :: 0 <= i < |dirs| ==> DirClearable(fs, dirs[i])
  }

  /** `fs` with every listed directory emptied and nothing else changed. */
  function Cleared(fs: Fs, dirs: seq<string>): (r: Fs)
    ensures r.dirs.Keys == fs.dirs.Keys
  {
    fs.(dirs := map d | d in fs.dirs :: if d in dirs then map[] else fs.dirs[d])
  }

  /** `after` is `before` with some of directory `dir`'s entries removed. */
  predicate Pruned(before: Fs, after: Fs, dir: string)
  {
    && after.(dirs := map[]) == before.(dirs := map[])
    && after.dirs.Keys == before.dirs.Keys
    && (forall d :: d in before.dirs && d != dir ==> after.dirs[d] == before.dirs[d])
    && (dir in before.dirs ==>
          && after.dirs[dir].Keys <= before.dirs[dir].Keys
          && forall n :: n in after.dirs[dir] ==> after.dirs[dir][n] == before.dirs[dir][n])
  }

  /**
   * blobCacheReference.ClearCache: empties the directories in list order,
   * removing every entry (not only cache files), and stops at the first
   * directory it cannot open or list or entry it cannot remove. On success
   * every directory is empty; on failure the directories before the failing
   * one are empty, the failing one has lost some entries, the rest are untouched.
   */
  method ClearCache<R>(r: Reference<R>, disk: Disk) returns (err: Option<Error>)
    modifies disk
    ensures err.None? <==> Clearable(old(disk.fs), r.directories)
    ensures err.None? ==> disk.fs == Cleared(old(disk.fs), r.directories)
    ensures err.Some? ==> exists i :: 0 <= i < |r.directories| && Clearable(old(disk.fs), r.directories[..i])
                                      && !DirClearable(old(disk.fs), r.directories[i])
                                      && Pruned(Cleared(old(disk.fs), r.directories[..i]), disk.fs, r.directories[i])
  {
    ghost var fs0 := disk.fs;
    for i := 0 to |r.directories|
      invariant Clearable(fs0, r.directories[..i])
      invariant disk.fs == Cleared(fs0, r.directories[..i])
    {
      ClearedDir(fs0, r.directories, i);
      ghost var prefix := disk.fs;
      err := ClearDirectory(disk, r.directories[i]);
      if err.Some? {
        assert Pruned(prefix, disk.fs, r.directories[i]);
        return;
      }
      ClearablePrefix(fs0, r.directories, i);
      ClearedStep(fs0, r.directories, i);
    }
    assert r.directories[..|r.directories|] == r.directories;
    err := None;
  }

  /** One round of ClearCache's loop: open the directory, read its names, remove each entry. */
  method ClearDirectory(disk: Disk, directory: string) returns (err: Option<Error>)
    modifies disk
    ensures err.None? <==> DirClearable(old(disk.fs), directory)
    ensures err.None? ==> directory in old(disk.fs).dirs && disk.fs == old(disk.fs).(dirs := old(disk.fs).dirs[directory := map[]])
    ensures err.Some? ==> Pruned(old(disk.fs), disk.fs, directory)
  {
    var isOpen := disk.OpenDir(directory);
    if !isOpen {
      return Some(Wrapped(OpeningDirectory, OsError(OpenDir, Path(directory, ""))));
    }
    var listed := disk.ReadDirNames(directory);
    if listed.None? {
      return Some(Wrapped(ReadingDirectory, OsError(ReadDir, Path(directory, ""))));
    }
    ghost var before := disk.fs;
    ghost var entries := before.dirs[directory];
    var names := listed.value;
    while names != {}
      invariant names <= entries.Keys
      invariant disk.fs.(dirs := map[]) == before.(dirs := map[])
      invariant disk.fs.dirs.Keys == before.dirs.Keys
      invariant forall d :: d in before.dirs && d != directory ==> disk.fs.dirs[d] == before.dirs[d]
      invariant disk.fs.dirs[directory].Keys == names
      invariant forall n :: n in names ==> disk.fs.dirs[directory][n] == entries[n]
      invariant forall n :: n in entries && n !in names ==> Path(directory, n) !in before.faulty
      decreases names
    {
      var name :| name in names;
      var pathname := Path(directory, name);
      var removed := disk.Remove(pathname);
      if !removed {
        return Some(Wrapped(RemovingEntry, OsError(RemoveAll, pathname)));
      }
      names := names - {name};
    }
    assert disk.fs.dirs == before.dirs[directory := map[]];
    return None;
  }

  /**
   * ClearCache opens each directory name as it is listed, and the empty name
   * opens nothing, so a list holding "" cannot be cleared, whatever the disk holds.
   */
  lemma EmptyNameNotClearable(fs: Fs, dirs: seq<string>)
    requires "" in dirs
    ensures !Clearable(fs, dirs)
  {
    var i :| 0 <= i < |dirs| && dirs[i] == "";
    assert !DirClearable(fs, dirs[i]);
  }

  /** A clearable prefix followed by a clearable directory is a clearable prefix. */
  lemma ClearablePrefix(fs0: Fs, dirs: seq<string>, i: nat)
    requires i < |dirs| && Clearable(fs0, dirs[..i]) && DirClearable(fs0, dirs[i])
    ensures Clearable(fs0, dirs[..i + 1])
  {
    assert dirs[..i + 1] == dirs[..i] + [dirs[i]];
  }

  /** Emptying directory i of the list extends the cleared prefix by one. */
  lemma ClearedStep(fs0: Fs, dirs: seq<string>, i: nat)
    requires i < |dirs| && dirs[i] in fs0.dirs
    ensures var c := Cleared(fs0, dirs[..i]);
            c.(dirs := c.dirs[dirs[i] := map[]]) == Cleared(fs0, dirs[..i + 1])
  {
    assert dirs[..i + 1] == dirs[..i] + [dirs[i]];
  }

  /**
   * Directory i of the list can be emptied now exactly when it could be at
   * the start: either it is untouched, or an earlier entry of the list
   * already emptied it successfully.
   */
  lemma ClearedDir(fs0: Fs, dirs: seq<string>, i: nat)
    requires i < |dirs| && Clearable(fs0, dirs[..i])
    ensures DirClearable(Cleared(fs0, dirs[..i]), dirs[i]) <==> DirClearable(fs0, dirs[i])
  {
    var d := dirs[i];
    if d in dirs[..i] {
      var j :| 0 <= j < i && dirs[..i][j] == d;
      assert DirClearable(fs0, dirs[..i][j]);
    }
  }

  /** After a successful clear every listed directory is empty, so clearing again succeeds and changes nothing. */
  lemma ClearCacheTwice(fs: Fs, dirs: seq<string>)
    requires Clearable(fs, dirs)
    ensures forall i :: 0 <= i < |dirs| ==> Cleared(fs, dirs).dirs[dirs[i]] == map[]
    ensures Clearable(Cleared(fs, dirs), dirs)
    ensures Cleared(Cleared(fs, dirs), dirs) == Cleared(fs, dirs)
  {
    var once := Cleared(fs, dirs);
    forall i | 0 <= i < |dirs|
      ensures once.dirs[dirs[i]] == map[] && DirClearable(once, dirs[i])
    {
      assert dirs[i] in dirs;
    }
  }
}
