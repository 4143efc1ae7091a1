/**
 * What every part of the blob cache shares: blob descriptors, errors, the
 * file name a blob is cached under, and the fixed order in which the cache
 * directories are searched.
 */
module Blobs {
  import opened Wrappers
  import opened FileSystem

  /** A blob's digest (the empty string when unknown) and size (-1 when unknown). */
  datatype BlobInfo = BlobInfo(digest: string, size: int)

  /** The zero `types.BlobInfo{}`. */
  const NoBlobInfo := BlobInfo("", 0)

  /** The system call a filesystem error came from. */
  datatype Op = Stat | Open | ReadFile | OpenDir | ReadDir | RemoveAll

  /** The message an error was wrapped with. */
  datatype Context =
    | ParsingReference | CheckingSize | OpeningDirectory | ReadingDirectory | RemovingEntry
    | CheckingManifest | CheckingCacheFile | ReadingSourceBlob | StoringBlob | CheckingBlob

  datatype Error =
    | BadSyntax(reference: string)      // a blob-cache reference without ':'
    | NoCacheDirectory                  // a blob cache built with no directory
    | OsError(op: Op, path: Path)       // a filesystem error other than "not found"
    | Inner(message: string)            // an error of the wrapped transport or of the manifest utilities
    | Wrapped(context: Context, cause: Error)

  /** The error at the bottom of a chain of wrappers (`errors.Cause`). */
  function Cause(e: Error): (c: Error)
    ensures !c.Wrapped?
  {
    if e.Wrapped? then Cause(e.cause) else e
  }

  /** `errors.Wrapf`: adds context to an error, and wrapping nil gives nil. */
  function Wrapf(err: Option<Error>, context: Context): (r: Option<Error>)
    ensures r.None? <==> err.None?
    ensures r.Some? ==> Cause(r.value) == Cause(err.value)
  {
    match err
    case None => None
    case Some(e) => Some(Wrapped(context, e))
  }

  /** The answer of a `HasBlob` query: present, size (-1 when absent), error. */
  datatype Answer = Answer(present: bool, size: int, err: Option<Error>)

  const Absent := Answer(false, -1, None)

  const ConfigSuffix: string := ".config"

  predicate HasConfigSuffix(name: string)
  {
    |name| >= |ConfigSuffix| && name[|name| - |ConfigSuffix|..] == ConfigSuffix
  }

  /**
   * The file name a blob is cached under: the digest for a layer (and for a
   * manifest), the digest followed by ".config" for an image configuration.
   */
  function MakeFilename(digest: string, isConfig: bool): (name: string)
    ensures |digest| <= |name| && name[..|digest|] == digest
    ensures isConfig <==> |name| != |digest|
  {
    if isConfig then digest + ConfigSuffix else digest
  }

  /** Reads a cache file name back as a digest and a configuration flag. */
  function ParseFilename(name: string): (string, bool)
  {
    if HasConfigSuffix(name) then (name[..|name| - |ConfigSuffix|], true) else (name, false)
  }

  /**
   * A digest never ends in ".config" (its encoded part is letters, digits,
   * '=', '_' and '-'), so a cache file name gives back its digest and flag.
   */
  lemma ParseMakeFilename(digest: string, isConfig: bool)
    requires !HasConfigSuffix(digest)
    ensures ParseFilename(MakeFilename(digest, isConfig)) == (digest, isConfig)
  {
    var name := MakeFilename(digest, isConfig);
    if isConfig {
      assert name[|name| - |ConfigSuffix|..] == ConfigSuffix;
      assert name[..|name| - |ConfigSuffix|] == digest;
    }
  }

  /** Configuration and layer file names never alias, for one digest or for two. */
  lemma FilenamesNeverAlias(d1: string, c1: bool, d2: string, c2: bool)
    requires !HasConfigSuffix(d1) && !HasConfigSuffix(d2)
    ensures MakeFilename(d1, c1) == MakeFilename(d2, c2) <==> d1 == d2 && c1 == c2
  {
    ParseMakeFilename(d1, c1);
    ParseMakeFilename(d2, c2);
  }

  /**
   * The files a lookup examines, in order: for each directory in the
   * configured order, the layer name and then the configuration name.
   */
  function Candidates(dirs: seq<string>, digest: string): (c: seq<Path>)
    ensures |c| == 2 * |dirs|
  {
    if dirs == [] then []
    else [JoinPath(dirs[0], MakeFilename(digest, false)), JoinPath(dirs[0], MakeFilename(digest, true))]
         + Candidates(dirs[1..], digest)
  }

  /** The scan order is fixed: candidate 2i + (isConfig ? 1 : 0) is that file of directory i. */
  lemma {:induction false} CandidateAt(dirs: seq<string>, digest: string, i: nat, isConfig: bool)
    requires i < |dirs|
    ensures Candidates(dirs, digest)[2 * i + (if isConfig then 1 else 0)] == JoinPath(dirs[i], MakeFilename(digest, isConfig))
  {
    if i > 0 {
      CandidateAt(dirs[1..], digest, i - 1, isConfig);
    }
  }

  /** Odd candidates are configuration names. */
  lemma CandidateFlag(i: nat, isConfig: bool)
    ensures (2 * i + (if isConfig then 1 else 0)) % 2 == 1 <==> isConfig
  {
  }

  /** The manifest files a lookup examines: the plain digest name in each directory, in order. */
  function ManifestCandidates(dirs: seq<string>, digest: string): (c: seq<Path>)
    ensures |c| == |dirs|
    ensures forall i :: 0 <= i < |dirs| ==> c[i] == JoinPath(dirs[i], MakeFilename(digest, false))
  {
    seq(|dirs|, i requires 0 <= i < |dirs| => JoinPath(dirs[i], MakeFilename(digest, false)))
  }

  /**
   * Index of the first candidate that is not absent (it exists, or examining
   * it failed); |cands| when every candidate is absent.
   */
  function FirstNonMissing(fs: Fs, cands: seq<Path>): (k: nat)
    ensures k <= |cands|
    ensures forall j :: 0 <= j < k ==> ProbeAt(fs, cands[j]).Missing?
    ensures k < |cands| ==> !ProbeAt(fs, cands[k]).Missing?
  {
    if cands == [] then 0
    else if ProbeAt(fs, cands[0]).Missing? then 1 + FirstNonMissing(fs, cands[1..])
    else 0
  }

  /** Index of the first candidate that can be opened; |cands| when none can. */
  function FirstFound(fs: Fs, cands: seq<Path>): (k: nat)
    ensures k <= |cands|
    ensures forall j :: 0 <= j < k ==> !OpenAt(fs, cands[j]).Found?
    ensures k < |cands| ==> OpenAt(fs, cands[k]).Found?
  {
    if cands == [] then 0
    else if !OpenAt(fs, cands[0]).Found? then 1 + FirstFound(fs, cands[1..])
    else 0
  }

  /** Candidate j is directory jd's file with flag jc, where j = 2 jd + (jc ? 1 : 0). */
  lemma {:induction false} CandidateSplit(dirs: seq<string>, digest: string, j: nat) returns (jd: nat, jc: bool)
    requires j < 2 * |dirs|
    ensures jd < |dirs| && 2 * jd + (if jc then 1 else 0) == j
    ensures Candidates(dirs, digest)[j] == JoinPath(dirs[jd], MakeFilename(digest, jc))
  {
    if j < 2 {
      jd, jc := 0, j == 1;
      CandidateAt(dirs, digest, 0, jc);
    } else {
      var rest := dirs[1..];
      var d, c := CandidateSplit(rest, digest, j - 2);
      jd, jc := d + 1, c;
      var head := [JoinPath(dirs[0], MakeFilename(digest, false)), JoinPath(dirs[0], MakeFilename(digest, true))];
      assert Candidates(dirs, digest) == head + Candidates(rest, digest);
      assert Candidates(dirs, digest)[j] == Candidates(rest, digest)[j - 2];
      assert rest[d] == dirs[jd];
    }
  }

  /** Directory i's file with flag isConfig is the first candidate not absent when every file before it is absent. */
  lemma FirstNonMissingAt(fs: Fs, dirs: seq<string>, digest: string, i: nat, isConfig: bool)
    requires i < |dirs|
    requires forall j, c :: 0 <= j < i ==> ProbeAt(fs, JoinPath(dirs[j], MakeFilename(digest, c))).Missing?
    requires isConfig ==> ProbeAt(fs, JoinPath(dirs[i], MakeFilename(digest, false))).Missing?
    requires !ProbeAt(fs, JoinPath(dirs[i], MakeFilename(digest, isConfig))).Missing?
    ensures FirstNonMissing(fs, Candidates(dirs, digest)) == 2 * i + (if isConfig then 1 else 0)
  {
    var cands := Candidates(dirs, digest);
    CandidateAt(dirs, digest, i, isConfig);
    forall j | 0 <= j < 2 * i + (if isConfig then 1 else 0)
      ensures ProbeAt(fs, cands[j]).Missing?
    {
      var jd, jc := CandidateSplit(dirs, digest, j);
      if jd == i {
        assert !jc && isConfig;
      } else {
        assert jd < i;
      }
    }
    var k := 2 * i + (if isConfig then 1 else 0);
    assert cands[k] == JoinPath(dirs[i], MakeFilename(digest, isConfig));
  }

  /** Directory i's file with flag isConfig is the first candidate that opens when no file before it does. */
  lemma FirstFoundAt(fs: Fs, dirs: seq<string>, digest: string, i: nat, isConfig: bool)
    requires i < |dirs|
    requires forall j, c :: 0 <= j < i ==> !OpenAt(fs, JoinPath(dirs[j], MakeFilename(digest, c))).Found?
    requires isConfig ==> !OpenAt(fs, JoinPath(dirs[i], MakeFilename(digest, false))).Found?
    requires OpenAt(fs, JoinPath(dirs[i], MakeFilename(digest, isConfig))).Found?
    ensures FirstFound(fs, Candidates(dirs, digest)) == 2 * i + (if isConfig then 1 else 0)
  {
    var cands := Candidates(dirs, digest);
    CandidateAt(dirs, digest, i, isConfig);
    forall j | 0 <= j < 2 * i + (if isConfig then 1 else 0)
      ensures !OpenAt(fs, cands[j]).Found?
    {
      var jd, jc := CandidateSplit(dirs, digest, j);
      if jd == i {
        assert !jc && isConfig;
      } else {
        assert jd < i;
      }
    }
    var k := 2 * i + (if isConfig then 1 else 0);
    assert cands[k] == JoinPath(dirs[i], MakeFilename(digest, isConfig));
  }

  /** No candidate is examined with success when every directory lacks both files. */
  lemma AllMissing(fs: Fs, dirs: seq<string>, digest: string)
    requires forall j, c :: 0 <= j < |dirs| ==> ProbeAt(fs, JoinPath(dirs[j], MakeFilename(digest, c))).Missing?
    ensures FirstNonMissing(fs, Candidates(dirs, digest)) == 2 * |dirs|
  {
    var cands := Candidates(dirs, digest);
    forall j | 0 <= j < |cands|
      ensures ProbeAt(fs, cands[j]).Missing?
    {
      var jd, jc := CandidateSplit(dirs, digest, j);
    }
  }
}
