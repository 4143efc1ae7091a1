/**
 * The blob-cache image destination: blob writes are copied into the first
 * cache directory while the wrapped destination receives them, manifests are
 * saved under their digest, and existence checks and re-applications consult
 * the cache and the wrapped destination in a fixed order. Whatever happens to
 * the cache, the caller sees the wrapped destination's result.
 */
module CacheDestination {
  import opened Wrappers
  import opened FileSystem
  import opened Blobs
  import opened CacheReference
  import CacheSource

  /** A PutBlob or ReapplyBlob answer: the stored blob's description and an error. */
  datatype Stored = Stored(info: BlobInfo, err: Option<Error>)

  /** What the wrapped destination's PutBlob did: how many bytes of the stream it read, and its answer. */
  datatype PutReply = PutReply(read: nat, stored: Stored)

  /** The wrapped destination, as the answers it gives. */
  datatype InnerDestination = InnerDestination(
    hasBlob: BlobInfo -> Answer,
    putBlob: (Bytes, BlobInfo, bool) -> PutReply,
    reapplyBlob: BlobInfo -> Stored,
    putManifest: Bytes -> Option<Error>)

  datatype Destination<R> = Destination(reference: Reference<R>, inner: InnerDestination)

  /** The digests in use ("sha256:" and the like, then hex digits) hold no '.'. */
  predicate IsDigest(digest: string)
  {
    digest != "" && '.' !in digest
  }

  /** The part of the stream a reader consumed. */
  function Consumed(stream: Bytes, read: nat): Bytes
  {
    if read <= |stream| then stream[..read] else stream
  }

  /** The wrapped destination's answer, its error wrapped with context. */
  function Delegated(s: Stored): (r: Stored)
    ensures r.info == s.info && (r.err.None? <==> s.err.None?)
  {
    Stored(s.info, Wrapf(s.err, StoringBlob))
  }

  /** Where PutBlob caches a blob, and PutManifest a manifest: in the first directory, "" standing for ".". */
  function CachePath(dirs: seq<string>, digest: string, isConfig: bool): Path
    requires |dirs| > 0
  {
    JoinPath(dirs[0], MakeFilename(digest, isConfig))
  }

  /** The temporary file PutBlob writes first: the cache name followed by a random suffix. */
  function TempPath(dirs: seq<string>, digest: string, isConfig: bool, suffix: string): Path
    requires |dirs| > 0
  {
    Path(DirKey(dirs[0]), MakeFilename(digest, isConfig) + suffix)
  }

  /**
   * blobCacheDestination.PutBlob. With a digest, a temporary file is created
   * in the first directory and the stream is teed into it while the wrapped
   * destination reads it. If the wrapped write succeeds the temporary file is
   * renamed to the cache name (when the rename fails it stays behind); if it
   * fails the temporary file is removed. The answer is always the wrapped
   * destination's; a directory that refuses new files changes nothing.
   * `tempSuffix` is the random part of the temporary name, unused so far.
   */
  method PutBlob<R>(d: Destination<R>, disk: Disk, stream: Bytes, info: BlobInfo, isConfig: bool, tempSuffix: string)
    returns (stored: Stored)
    requires d.reference.Valid()
    requires info.digest != "" ==>
               var temp := TempPath(d.reference.directories, info.digest, isConfig, tempSuffix);
               tempSuffix != "" && ProbeAt(disk.fs, temp).Missing? && temp !in disk.fs.unreadable
    modifies disk
    ensures stored == Delegated(d.inner.putBlob(stream, info, isConfig).stored)
    ensures var reply := d.inner.putBlob(stream, info, isConfig);
            var final := CachePath(d.reference.directories, info.digest, isConfig);
            var temp := TempPath(d.reference.directories, info.digest, isConfig, tempSuffix);
            disk.fs ==
              if info.digest == "" || !CanCreate(old(disk.fs), final.dir) || reply.stored.err.Some? then old(disk.fs)
              else if final in old(disk.fs).faulty then WithEntry(old(disk.fs), temp, Consumed(stream, reply.read))
              else WithEntry(old(disk.fs), final, Consumed(stream, reply.read))
  {
    var directory := d.reference.directories[0];
    if directory == "" {
      directory := ".";
    }
    var created := false;
    var filename, tempname;
    if info.digest != "" {
      filename := JoinPath(directory, MakeFilename(info.digest, isConfig));
      tempname := Path(DirKey(directory), MakeFilename(info.digest, isConfig) + tempSuffix);
      assert filename == CachePath(d.reference.directories, info.digest, isConfig);
      assert tempname == TempPath(d.reference.directories, info.digest, isConfig, tempSuffix);
      created := disk.CreateTemp(tempname); // a failure is only logged
    }
    ghost var fs0 := old(disk.fs);
    var reply := d.inner.putBlob(stream, info, isConfig);
    if created {
      // the tee has copied into the temporary file what the destination read
      var content := Consumed(stream, reply.read);
      disk.Append(tempname, content);
      assert [] + content == content;
      OverwriteEntry(fs0, tempname, [], content);
      RemoveNewEntry(fs0, tempname, content);
      if reply.stored.err.None? {
        var renamed := disk.Rename(tempname, filename); // a failure is only recorded in a variable nobody returns
      } else {
        var removed := disk.Remove(tempname); // a failure is only logged
      }
    }
    return Delegated(reply.stored);
  }

  /**
   * Write-then-read: once PutBlob has put `content` under its cache name,
   * HasBlob reports it present with its length and GetBlob serves it, for
   * the size -1 or the content's own. A configuration is found only while no
   * layer file of the same digest sits in front of it.
   */
  lemma PutBlobThenRead(dirs: seq<string>, digest: string, isConfig: bool, content: Bytes, size: int,
                        fs: Fs, inner: CacheSource.InnerSource)
    requires |dirs| > 0 && digest != "" && (size == -1 || size == |content|)
    requires CachePath(dirs, digest, isConfig).dir in fs.dirs && CachePath(dirs, digest, isConfig) !in fs.faulty
    requires isConfig ==> ProbeAt(fs, CachePath(dirs, digest, false)).Missing?
    ensures var after := WithEntry(fs, CachePath(dirs, digest, isConfig), content);
            && HasBlobSpec(dirs, BlobInfo(digest, size), after) == Answer(true, |content|, None)
            && CacheSource.GetBlobSpec(dirs, BlobInfo(digest, size), after, inner) == CacheSource.BlobRead(Some(content), |content|, None)
  {
    var final := CachePath(dirs, digest, isConfig);
    var after := WithEntry(fs, final, content);
    var info := BlobInfo(digest, size);
    assert MakeFilename(digest, false) != MakeFilename(digest, true);
    HasBlobFirstExistingDecides(dirs, info, after, 0, isConfig);
    CandidateAt(dirs, digest, 0, isConfig);
    var cands := Candidates(dirs, digest);
    assert FirstNonMissing(after, cands) == if isConfig then 1 else 0;
  }

  /**
   * blobCacheDestination.HasBlob: a cache hit is answered without asking the
   * wrapped destination, a cache error is returned wrapped, and on a miss the
   * wrapped destination answers.
   */
  method HasBlob<R>(d: Destination<R>, disk: Disk, info: BlobInfo) returns (ans: Answer)
    ensures var cached := HasBlobSpec(d.reference.directories, info, disk.fs);
            && (cached.err.Some? ==> ans == Answer(false, -1, Wrapf(cached.err, CheckingBlob)))
            && (cached.err.None? && cached.present ==> ans == cached)
            && (cached.err.None? && !cached.present ==> ans == d.inner.hasBlob(info))
  {
    var cached := CacheReference.HasBlob(d.reference, info, disk);
    if cached.err.Some? {
      return Answer(false, -1, Wrapf(cached.err, CheckingBlob));
    }
    if cached.present {
      return cached;
    }
    return d.inner.hasBlob(info);
  }

  /**
   * What ReapplyBlob returns: the wrapped destination's existence error,
   * wrapped; when the wrapped destination lacks the blob and some candidate
   * opens, the wrapped PutBlob fed the first such candidate, with that
   * candidate's configuration flag; otherwise the wrapped ReapplyBlob.
   */
  function ReapplyBlobSpec(dirs: seq<string>, info: BlobInfo, fs: Fs, inner: InnerDestination): Stored
  {
    var has := inner.hasBlob(info);
    if has.err.Some? then Stored(NoBlobInfo, Wrapf(has.err, CheckingBlob))
    else
      var cands := Candidates(dirs, info.digest);
      var k := FirstFound(fs, cands);
      if !has.present && k < |cands| then inner.putBlob(OpenAt(fs, cands[k]).content, info, k % 2 == 1).stored
      else inner.reapplyBlob(info)
  }

  /** blobCacheDestination.ReapplyBlob: asks the wrapped destination first, then the cache. */
  method ReapplyBlob<R>(d: Destination<R>, disk: Disk, info: BlobInfo) returns (stored: Stored)
    ensures stored == ReapplyBlobSpec(d.reference.directories, info, disk.fs, d.inner)
  {
    var has := d.inner.hasBlob(info);
    if has.err.Some? {
      return Stored(NoBlobInfo, Wrapf(has.err, CheckingBlob));
    }
    if !has.present {
      ghost var cands := Candidates(d.reference.directories, info.digest);
      ghost var k := FirstFound(disk.fs, cands);
      for i := 0 to |d.reference.directories|
        invariant 2 * i <= k
      {
        var configFlags := [false, true];
        for c := 0 to |configFlags|
          invariant 2 * i + c <= k
        {
          var isConfig := configFlags[c];
          var filename := JoinPath(d.reference.directories[i], MakeFilename(info.digest, isConfig));
          CandidateAt(d.reference.directories, info.digest, i, isConfig);
          var f := OpenAt(disk.fs, filename);
          if f.Found? {
            CandidateFlag(i, isConfig);
            return d.inner.putBlob(f.content, info, isConfig).stored;
          }
        }
      }
    }
    return d.inner.reapplyBlob(info);
  }

  /**
   * The cached copy ReapplyBlob feeds to the wrapped destination is the one in
   * the earliest directory that opens, the layer name before the
   * configuration name, and it is sent with the flag of the name it was found under.
   */
  lemma {:induction false} ReapplyBlobFromCache(dirs: seq<string>, info: BlobInfo, fs: Fs, inner: InnerDestination,
                                                i: nat, isConfig: bool)
    requires inner.hasBlob(info) == Answer(false, -1, None) && i < |dirs|
    requires forall j, c :: 0 <= j < i ==> !OpenAt(fs, JoinPath(dirs[j], MakeFilename(info.digest, c))).Found?
    requires isConfig ==> !OpenAt(fs, JoinPath(dirs[i], MakeFilename(info.digest, false))).Found?
    requires OpenAt(fs, JoinPath(dirs[i], MakeFilename(info.digest, isConfig))).Found?
    ensures ReapplyBlobSpec(dirs, info, fs, inner)
              == inner.putBlob(OpenAt(fs, JoinPath(dirs[i], MakeFilename(info.digest, isConfig))).content, info, isConfig).stored
  {
    var cands := Candidates(dirs, info.digest);
    var k := 2 * i + (if isConfig then 1 else 0);
    assert FirstFound(fs, cands) == k by {
      FirstFoundAt(fs, dirs, info.digest, i, isConfig);
    }
    assert cands[k] == JoinPath(dirs[i], MakeFilename(info.digest, isConfig)) by {
      CandidateAt(dirs, info.digest, i, isConfig);
    }
    assert k % 2 == 1 <==> isConfig by {
      CandidateFlag(i, isConfig);
    }
  }

  /**
   * blobCacheDestination.PutManifest: when the manifest can be digested, its
   * bytes are written atomically under the digest in the first directory; a
   * digest or write failure is only logged. The answer is always the wrapped
   * destination's. `digestOf` is the manifest utilities' digest computation.
   */
  method PutManifest<R>(d: Destination<R>, disk: Disk, manifestBytes: Bytes, digestOf: Bytes -> Result<string, Error>)
    returns (err: Option<Error>)
    modifies disk
    ensures err == d.inner.putManifest(manifestBytes)
    ensures var dirs := d.reference.directories;
            var digest := digestOf(manifestBytes);
            disk.fs ==
              if |dirs| > 0 && digest.Success?
                 && CanCreate(old(disk.fs), CachePath(dirs, digest.value, false).dir)
                 && !ProbeAt(old(disk.fs), CachePath(dirs, digest.value, false)).Failed?
              then WithEntry(old(disk.fs), CachePath(dirs, digest.value, false), manifestBytes)
              else old(disk.fs)
  {
    if |d.reference.directories| > 0 {
      var manifestDigest := digestOf(manifestBytes);
      if manifestDigest.Success? {
        var filename := JoinPath(d.reference.directories[0], MakeFilename(manifestDigest.value, false));
        var saved := disk.AtomicWriteFile(filename, manifestBytes); // a failure is only logged
      }
    }
    err := d.inner.putManifest(manifestBytes);
  }

  /**
   * Writing one layer, one configuration and one manifest through a blob
   * cache whose only directory starts out empty leaves exactly three files
   * there: the layer's digest, the configuration's digest with ".config",
   * and the manifest's digest. Clearing the cache afterwards succeeds and
   * leaves the directory empty.
   */
  method PopulateEmptyCache<R>(ref: R, dir: string, inner: InnerDestination,
                               layer: Bytes, layerInfo: BlobInfo, config: Bytes, configInfo: BlobInfo,
                               manifest: Bytes, digestOf: Bytes -> Result<string, Error>)
    returns (names: set<string>, cleared: Option<Error>, remaining: set<string>)
    requires dir != ""
    requires IsDigest(layerInfo.digest) && IsDigest(configInfo.digest)
    requires digestOf(manifest).Success? && IsDigest(digestOf(manifest).value)
    requires digestOf(manifest).value != layerInfo.digest
    requires inner.putBlob(layer, layerInfo, false).stored.err.None?
    requires inner.putBlob(config, configInfo, true).stored.err.None?
    ensures names == {layerInfo.digest, configInfo.digest + ConfigSuffix, digestOf(manifest).value}
    ensures |names| == 3
    ensures cleared.None? && remaining == {}
  {
    var disk := new Disk(Fs(map[dir := map[]], {}, {}, {}, {}, {}));
    var d := Destination(Reference(ref, [dir]), inner);
    CacheNamesDistinct(layerInfo.digest, configInfo.digest, digestOf(manifest).value);
    var layerStored := CacheBlob(d, disk, dir, layer, layerInfo, false);
    var configStored := CacheBlob(d, disk, dir, config, configInfo, true);
    assert CachePath([dir], digestOf(manifest).value, false) == Path(dir, digestOf(manifest).value);
    var manifestErr := PutManifest(d, disk, manifest, digestOf);
    var listed := disk.ReadDirNames(dir);
    names := listed.value;
    ClearSingleDirectory(disk.fs, dir);
    cleared := ClearCache(d.reference, disk);
    listed := disk.ReadDirNames(dir);
    remaining := listed.value;
  }

  /** A disk holding only the directory `dir`, where nothing fails. */
  predicate CleanCache(fs: Fs, dir: string)
  {
    && fs.dirs.Keys == {dir}
    && fs.faulty == {} && fs.readOnly == {} && fs.unopenable == {} && fs.unlistable == {} && fs.unreadable == {}
  }

  /** PutBlob into a clean single-directory cache, with a wrapped destination that accepts the blob. */
  method CacheBlob<R>(d: Destination<R>, disk: Disk, dir: string, stream: Bytes, info: BlobInfo, isConfig: bool)
    returns (stored: Stored)
    requires dir != "" && d.reference.directories == [dir] && CleanCache(disk.fs, dir)
    requires IsDigest(info.digest) && MakeFilename(info.digest, isConfig) + "-tmp" !in disk.fs.dirs[dir]
    requires d.inner.putBlob(stream, info, isConfig).stored.err.None?
    modifies disk
    ensures CleanCache(disk.fs, dir)
    ensures disk.fs.dirs[dir] == old(disk.fs.dirs[dir])[MakeFilename(info.digest, isConfig) := Consumed(stream, d.inner.putBlob(stream, info, isConfig).read)]
  {
    assert CachePath([dir], info.digest, isConfig) == Path(dir, MakeFilename(info.digest, isConfig));
    assert TempPath([dir], info.digest, isConfig, "-tmp") == Path(dir, MakeFilename(info.digest, isConfig) + "-tmp");
    stored := PutBlob(d, disk, stream, info, isConfig, "-tmp");
  }

  /** A cache of one directory, which opens, lists and holds only removable files, is emptied by a clear. */
  lemma ClearSingleDirectory(fs: Fs, dir: string)
    requires dir != "" && dir in fs.dirs && fs.faulty == {} && fs.unopenable == {} && fs.unlistable == {}
    ensures Clearable(fs, [dir]) && Cleared(fs, [dir]).dirs[dir] == map[]
  {
    assert dir in [dir];
  }

  /**
   * Digests hold no '.', so a layer, a configuration and a manifest of
   * different content have three different cache names, and none of them is
   * the configuration's temporary name.
   */
  lemma CacheNamesDistinct(layer: string, config: string, manifest: string)
    requires IsDigest(layer) && IsDigest(config) && IsDigest(manifest) && manifest != layer
    ensures layer != config + ConfigSuffix && manifest != config + ConfigSuffix
    ensures layer != config + ConfigSuffix + "-tmp"
    ensures |{layer, config + ConfigSuffix, manifest}| == 3
  {
    assert (config + ConfigSuffix)[|config|] == '.';
    assert (config + ConfigSuffix + "-tmp")[|config|] == '.';
  }
}
