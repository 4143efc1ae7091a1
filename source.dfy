/**
 * The blob-cache image source: manifest and blob reads look in the cache
 * directories first and fall back to the wrapped source. Its operations take
 * the disk without a `modifies` clause: reading never changes the cache.
 */
module CacheSource {
  import opened Wrappers
  import opened FileSystem
  import opened Blobs
  import opened CacheReference

  /** A manifest read: the bytes, their MIME type, and an error. */
  datatype ManifestRead = ManifestRead(manifest: Bytes, mimeType: string, err: Option<Error>)

  /** A blob read: the stream's content (None for a nil stream), its size, and an error. */
  datatype BlobRead = BlobRead(stream: Option<Bytes>, size: int, err: Option<Error>)

  /** The wrapped source, as the answers it gives. */
  datatype InnerSource = InnerSource(
    getManifest: Option<string> -> ManifestRead,
    getBlob: BlobInfo -> BlobRead)

  datatype Source<R> = Source(reference: Reference<R>, inner: InnerSource)

  /**
   * What GetManifest returns: without an instance digest the wrapped source's
   * answer; with one, the first cache directory whose file under the plain
   * digest name is not absent decides (its bytes and their sniffed MIME type,
   * or the read error, also for a file that exists but cannot be read); when
   * every directory lacks it, the wrapped source's answer.
   */
  function GetManifestSpec(dirs: seq<string>, instanceDigest: Option<string>, fs: Fs,
                           inner: InnerSource, guessMIMEType: Bytes -> string): ManifestRead
  {
    if instanceDigest.None? then inner.getManifest(instanceDigest)
    else
      var cands := ManifestCandidates(dirs, instanceDigest.value);
      var k := FirstNonMissing(fs, cands);
      if k == |cands| then inner.getManifest(instanceDigest)
      else match OpenAt(fs, cands[k])
        case Found(content) => ManifestRead(content, guessMIMEType(content), None)
        case _ => ManifestRead([], "", Some(Wrapped(CheckingManifest, OsError(ReadFile, cands[k]))))
  }

  /** blobCacheSource.GetManifest. `guessMIMEType` is the manifest utilities' MIME sniffing. */
  method GetManifest<R>(s: Source<R>, disk: Disk, instanceDigest: Option<string>, guessMIMEType: Bytes -> string)
    returns (m: ManifestRead)
    ensures m == GetManifestSpec(s.reference.directories, instanceDigest, disk.fs, s.inner, guessMIMEType)
  {
    if instanceDigest.Some? {
      ghost var cands := ManifestCandidates(s.reference.directories, instanceDigest.value);
      for i := 0 to |s.reference.directories|
        invariant forall j :: 0 <= j < i ==> ProbeAt(disk.fs, cands[j]).Missing?
      {
        var filename := JoinPath(s.reference.directories[i], MakeFilename(instanceDigest.value, false));
        var read := OpenAt(disk.fs, filename);
        if read.Found? {
          return ManifestRead(read.content, guessMIMEType(read.content), None);
        }
        if !read.Missing? {
          return ManifestRead([], "", Some(Wrapped(CheckingManifest, OsError(ReadFile, filename))));
        }
      }
    }
    m := s.inner.getManifest(instanceDigest);
  }

  /** A cached manifest in the first directory that has one is returned with its sniffed MIME type. */
  lemma {:induction false} GetManifestCacheHit(dirs: seq<string>, digest: string, fs: Fs, inner: InnerSource,
                                               guessMIMEType: Bytes -> string, i: nat)
    requires i < |dirs|
    requires forall j :: 0 <= j < i ==> ProbeAt(fs, JoinPath(dirs[j], MakeFilename(digest, false))).Missing?
    requires OpenAt(fs, JoinPath(dirs[i], MakeFilename(digest, false))).Found?
    ensures var content := OpenAt(fs, JoinPath(dirs[i], MakeFilename(digest, false))).content;
            GetManifestSpec(dirs, Some(digest), fs, inner, guessMIMEType) == ManifestRead(content, guessMIMEType(content), None)
  {
    var cands := ManifestCandidates(dirs, digest);
    assert FirstNonMissing(fs, cands) == i;
  }

  /**
   * With no instance digest, or none of the directories holding the plain
   * digest name (configuration files do not count), the wrapped source answers.
   */
  lemma {:induction false} GetManifestMissDelegates(dirs: seq<string>, instanceDigest: Option<string>, fs: Fs,
                                                    inner: InnerSource, guessMIMEType: Bytes -> string)
    requires instanceDigest.Some? ==>
               forall j :: 0 <= j < |dirs| ==> ProbeAt(fs, JoinPath(dirs[j], MakeFilename(instanceDigest.value, false))).Missing?
    ensures GetManifestSpec(dirs, instanceDigest, fs, inner, guessMIMEType) == inner.getManifest(instanceDigest)
  {
    if instanceDigest.Some? {
      var cands := ManifestCandidates(dirs, instanceDigest.value);
      assert FirstNonMissing(fs, cands) == |cands|;
    }
  }

  /**
   * What GetBlob returns: HasBlob's error unchanged; on a hit, the first
   * cached copy with HasBlob's size, or an open error when that file cannot
   * be read; otherwise the wrapped source's read, its error wrapped.
   */
  function GetBlobSpec(dirs: seq<string>, info: BlobInfo, fs: Fs, inner: InnerSource): BlobRead
  {
    var has := HasBlobSpec(dirs, info, fs);
    var read := inner.getBlob(info);
    var fromInner := BlobRead(read.stream, read.size, Wrapf(read.err, ReadingSourceBlob));
    if has.err.Some? then BlobRead(None, -1, has.err)
    else if !has.present then fromInner
    else
      var cands := Candidates(dirs, info.digest);
      var k := FirstNonMissing(fs, cands);
      if k == |cands| then fromInner
      else match OpenAt(fs, cands[k])
        case Found(content) => BlobRead(Some(content), has.size, None)
        case _ => BlobRead(None, -1, Some(Wrapped(CheckingCacheFile, OsError(Open, cands[k]))))
  }

  /** blobCacheSource.GetBlob: asks HasBlob, then opens the first candidate that opens. */
  method GetBlob<R>(s: Source<R>, disk: Disk, info: BlobInfo) returns (b: BlobRead)
    ensures b == GetBlobSpec(s.reference.directories, info, disk.fs, s.inner)
  {
    var has := HasBlob(s.reference, info, disk);
    if has.err.Some? {
      return BlobRead(None, -1, has.err);
    }
    if has.present {
      ghost var cands := Candidates(s.reference.directories, info.digest);
      ghost var k := FirstNonMissing(disk.fs, cands);
      for i := 0 to |s.reference.directories|
        invariant 2 * i <= k
      {
        var configFlags := [false, true];
        for c := 0 to |configFlags|
          invariant 2 * i + c <= k
        {
          var isConfig := configFlags[c];
          var filename := JoinPath(s.reference.directories[i], MakeFilename(info.digest, isConfig));
          CandidateAt(s.reference.directories, info.digest, i, isConfig);
          var f := OpenAt(disk.fs, filename);
          if f.Found? {
            return BlobRead(Some(f.content), has.size, None);
          }
          if !f.Missing? {
            return BlobRead(None, -1, Some(Wrapped(CheckingCacheFile, OsError(Open, filename))));
          }
        }
      }
    }
    var read := s.inner.getBlob(info);
    return BlobRead(read.stream, read.size, Wrapf(read.err, ReadingSourceBlob));
  }

  /**
   * A hit serves the first cached copy, whose length is the size reported,
   * and that size is the one asked for unless -1 was asked; when that copy
   * exists but cannot be opened the answer is an open error naming it. A
   * miss without error is the wrapped source's read; a cache error is
   * returned as HasBlob gave it.
   */
  lemma GetBlobAnswers(dirs: seq<string>, info: BlobInfo, fs: Fs, inner: InnerSource)
    ensures var has := HasBlobSpec(dirs, info, fs);
            var b := GetBlobSpec(dirs, info, fs, inner);
            && (has.err.Some? ==> b == BlobRead(None, -1, has.err))
            && (has.present ==>
                  var cands := Candidates(dirs, info.digest);
                  var k := FirstNonMissing(fs, cands);
                  && k < |cands|
                  && (b.err.None? <==> cands[k] !in fs.unreadable)
                  && (b.err.None? ==> b.stream == Some(ProbeAt(fs, cands[k]).content) && |b.stream.value| == b.size
                                      && (info.size == -1 || info.size == b.size))
                  && (b.err.Some? ==> b.stream.None? && Cause(b.err.value) == OsError(Open, cands[k])))
            && (!has.present && has.err.None? ==>
                  b.stream == inner.getBlob(info).stream && b.size == inner.getBlob(info).size
                  && (b.err.None? <==> inner.getBlob(info).err.None?))
  {
  }

  /** LayerInfosForCopy: never overrides the layer list (nil, nil). */
  function LayerInfosForCopy<R>(s: Source<R>): (r: (Option<seq<BlobInfo>>, Option<Error>))
    ensures r.0.None? && r.1.None?
  {
    (None, None)
  }
}
