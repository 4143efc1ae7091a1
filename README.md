# Blob cache and Kubernetes conversion helpers, in Dafny

This project models two parts of a container build tool.

**The blob-cache transport** (buildah's `pkg/blobcache`) wraps any image
transport. Its references are written `dir1,dir2,...:inner-reference`. Blobs
are cached as plain files named by their digest. An image configuration's
file name is its digest followed by `.config`. The model covers:

- Reading (the source side): a manifest or blob is looked up in the cache
  directories first, and the wrapped source is asked only on a miss.
- Writing (the destination side): blob writes are teed into the first cache
  directory through a temporary file, which is renamed into place only when
  the wrapped destination accepted the blob. Manifests are saved under their
  digest as a best-effort side effect.
- The cache can be cleared.

**The Kubernetes conversion helpers** (libpod's `kube.go`) build the pod
description printed for a container. The pod is named after the container,
with underscores removed and `-libpod` appended. `KEY=VALUE` strings become
environment variables. Port mappings get a TCP or UDP protocol. User volumes
are looked up among the container's mounts.

The modules follow the program's structure:

- `Wrappers`: `Option`, `Result`.
- `Text`: Go's `strings.SplitN(…, 2)`, `strings.Split` and `strings.Join`.
- `FileSystem`: the disk.
  - Its contents are a value `Fs`: directories mapping names to bytes.
  - `Fs` also records which paths and directories fail when touched, and
    which files can be stat'ed but not opened. The error branches this
    leaves unreachable are listed under "Left out".
  - A `Disk` object holds the `Fs`. Its methods model the system calls the
    cache uses.
- `Blobs`: blob descriptors, errors, `makeFilename` and the fixed search order.
- `CacheReference`: parsing, printing, `HasBlob` and `ClearCache`.
- `CacheSource` and `CacheDestination`: the cache's image source and image destination.
- `Kube`: the conversion helpers.

Operations that write the cache take the disk under a `modifies` clause. The
source-side reads take it without one, so they provably leave the cache
unchanged. Each operation that loops over directories (`HasBlob`,
`GetManifest`, `GetBlob`, `ReapplyBlob`) is a method with loop invariants. It
is proved equal to a specification function (`HasBlobSpec`,
`GetManifestSpec`, …), and the lemmas state the source's promises about that
function.

The wrapped transport is modelled as a datatype of functions. The model fixes
the answer each call of the inner transport gives. Some things are parameters
of the operations that use them:

- the wrapped reference parser;
- the digest and MIME-type computations on manifests;
- the random part of temporary file names.

`HasBlob` promises to report whether a blob matching the digest, and the
size unless it is -1, is in the cache (blobcache.go:47-49). In the code the
first cached file that exists decides. A file of the wrong size ends the
search: the stat succeeded, so its error is nil, and `errors.Wrapf(nil, …)` is
nil too. HasBlob then answers (false, -1, nil) and never looks at copies in
later directories. `SizeMismatchHidesLaterCopy` exhibits this.

## Model

Source paths are relative to the repository root.

| member | source | states |
|---|---|---|
| Blobs.MakeFilename | vendor/github.com/containers/buildah/pkg/blobcache/blobcache.go:73-78 | The name starts with the digest. It is longer than the digest exactly for a configuration. |
| Blobs.ParseMakeFilename | vendor/github.com/containers/buildah/pkg/blobcache/blobcache.go:73-78 | A cache file name gives back its digest and configuration flag. |
| Blobs.FilenamesNeverAlias | vendor/github.com/containers/buildah/pkg/blobcache/blobcache.go:73-78 | Two cache file names are equal exactly when their digests and flags are. A layer and a configuration never share a file. |
| Blobs.Wrapf | vendor/github.com/containers/buildah/pkg/blobcache/blobcache.go:157-161 | Wrapping a nil error gives nil; wrapping an error keeps its cause. |
| Blobs.CandidateAt | vendor/github.com/containers/buildah/pkg/blobcache/blobcache.go:153-155 | Lookups scan directories in list order, the layer name before the configuration name. |
| Text.Cut | vendor/github.com/containers/buildah/pkg/blobcache/blobcache.go:85 | Splitting at the first separator: none exactly when the text lacks it; otherwise the part before it holds no separator, and the parts joined around it give the text back. |
| Text.Split | vendor/github.com/containers/buildah/pkg/blobcache/blobcache.go:89 | At least one part; no part holds the separator; joining the parts gives the text back. |
| Text.SplitJoin | vendor/github.com/containers/buildah/pkg/blobcache/blobcache.go:129 | Splitting a join recovers the parts when none holds the separator. |
| CacheReference.ParseReference | vendor/github.com/containers/buildah/pkg/blobcache/blobcache.go:84-103 | A reference without ':' is refused with a syntax error naming it. On success the directories are the ','-split of the text before the first ':', the wrapped reference is the parse of the rest, and the list is not empty. |
| CacheReference.EmptyDirectoryPartRefused | vendor/github.com/containers/buildah/pkg/blobcache/blobcache.go:89-92 | An empty directory part becomes the empty list, which is refused as "no cache directory". |
| CacheReference.NewBlobCache | vendor/github.com/containers/buildah/pkg/blobcache/blobcache.go:113-122 | Fails exactly for an empty list. Otherwise the reference keeps the wrapped reference and the list (which `Directories` gives back unchanged), and is valid. |
| CacheReference.ParseStringWithinTransport | vendor/github.com/containers/buildah/pkg/blobcache/blobcache.go:128-130 | Parsing the printed form gives the reference back. This needs directories free of ',' and ':', a list other than [""], and a wrapped transport that parses its own names. |
| CacheReference.HasBlob | vendor/github.com/containers/buildah/pkg/blobcache/blobcache.go:148-167 | Equals `HasBlobSpec`: absent for an empty digest; otherwise the first candidate that is not absent decides. |
| CacheReference.HasBlobFirstExistingDecides | vendor/github.com/containers/buildah/pkg/blobcache/blobcache.go:153-162 | The first existing candidate decides alone. A matching size (or size -1) means present with the file's size. A stat failure gives the wrapped error. Another size means absent with no error. |
| CacheReference.HasBlobNothingCached | vendor/github.com/containers/buildah/pkg/blobcache/blobcache.go:166 | When no directory holds either file, the answer is (false, -1, nil). |
| CacheReference.SizeMismatchHidesLaterCopy | vendor/github.com/containers/buildah/pkg/blobcache/blobcache.go:157-161 | A 1-byte copy in the first directory hides a 2-byte copy in the second when 2 bytes are asked for. |
| CacheReference.ClearCache | vendor/github.com/containers/buildah/pkg/blobcache/blobcache.go:173-193 | Succeeds exactly when every directory, opened under the name as listed, opens, lists and has every entry removable. Then every listed directory is emptied and nothing else changes. On failure: the directories before the failing one are emptied, the failing one has only lost entries, and the rest are untouched. |
| CacheReference.ClearDirectory | vendor/github.com/containers/buildah/pkg/blobcache/blobcache.go:175-191 | One directory: emptied exactly when it opens, lists and every entry is removable. Otherwise it only loses entries. |
| CacheReference.EmptyNameNotClearable | vendor/github.com/containers/buildah/pkg/blobcache/blobcache.go:175-178 | A list holding the empty directory name cannot be cleared: opening "" fails. |
| CacheReference.ClearCacheTwice | vendor/github.com/containers/buildah/pkg/blobcache/blobcache.go:173-193 | After a successful clear every listed directory is empty, so a second clear succeeds and changes nothing. |
| CacheSource.GetManifest | vendor/github.com/containers/buildah/pkg/blobcache/blobcache.go:227-241 | Equals `GetManifestSpec`, and the method cannot change the disk. |
| CacheSource.GetManifestCacheHit | vendor/github.com/containers/buildah/pkg/blobcache/blobcache.go:229-234 | When the first directory holding the plain digest name has a readable file there, it supplies the bytes and their sniffed MIME type. |
| CacheSource.GetManifestMissDelegates | vendor/github.com/containers/buildah/pkg/blobcache/blobcache.go:228-240 | The wrapped source answers in two cases: there is no instance digest, or no directory has the plain name (configuration files do not count). |
| CacheSource.GetBlob | vendor/github.com/containers/buildah/pkg/blobcache/blobcache.go:243-267 | Equals `GetBlobSpec`, and the method cannot change the disk. |
| CacheSource.GetBlobAnswers | vendor/github.com/containers/buildah/pkg/blobcache/blobcache.go:243-267 | A HasBlob error is returned unchanged. A hit serves the content of the first cached copy, whose length is the reported size, and that size is the one asked for unless -1 was asked. If that copy exists but cannot be opened, the answer is an open error naming it. A miss gives the wrapped source's stream and size, failing exactly when it fails. |
| CacheSource.LayerInfosForCopy | vendor/github.com/containers/buildah/pkg/blobcache/blobcache.go:273-275 | Always (nil, nil). |
| CacheDestination.PutBlob | vendor/github.com/containers/buildah/pkg/blobcache/blobcache.go:309-342 | The answer is always the wrapped destination's, its error wrapped. With an empty digest, a directory refusing new files, or a wrapped failure, the disk is unchanged (the temporary file is removed). Otherwise the cache name holds exactly the bytes the wrapped destination read. If the rename fails, the temporary file holds them instead. |
| CacheDestination.PutBlobThenRead | vendor/github.com/containers/buildah/pkg/blobcache/blobcache.go:309-342 | After PutBlob caches content, HasBlob reports it present with its length, and GetBlob serves it. |
| CacheDestination.HasBlob | vendor/github.com/containers/buildah/pkg/blobcache/blobcache.go:344-353 | A cache error is returned wrapped. A cache hit is returned without asking the wrapped destination. On a miss the wrapped destination answers. |
| CacheDestination.ReapplyBlob | vendor/github.com/containers/buildah/pkg/blobcache/blobcache.go:355-373 | Equals `ReapplyBlobSpec`, and the method cannot change the disk. |
| CacheDestination.ReapplyBlobFromCache | vendor/github.com/containers/buildah/pkg/blobcache/blobcache.go:360-369 | If the wrapped destination lacks the blob, the first candidate that opens is fed to the wrapped PutBlob, with that candidate's configuration flag. |
| CacheDestination.PutManifest | vendor/github.com/containers/buildah/pkg/blobcache/blobcache.go:375-388 | The answer is always the wrapped destination's. The manifest bytes appear under the digest's plain name in the first directory exactly when digesting and the atomic write succeed. Otherwise the disk is unchanged. |
| CacheDestination.PopulateEmptyCache | vendor/github.com/containers/buildah/pkg/blobcache/blobcache_test.go:126-227 | After a layer, a configuration and a manifest are written into an empty cache directory with a non-empty name, it holds exactly three names: the layer digest, the configuration digest plus ".config", and the manifest digest. Clearing that cache then succeeds and leaves the directory empty. The image copies between those two steps are not modelled. |
| Kube.RemoveUnderscores | vendor/github.com/containers/libpod/libpod/kube.go:268-270 | No '_' in the result; every other character is kept with its multiplicity. |
| Kube.RemoveUnderscoresConcat | vendor/github.com/containers/libpod/libpod/kube.go:268-270 | Removal distributes over concatenation, so characters keep their order. |
| Kube.RemoveUnderscoresKeepsClean | vendor/github.com/containers/libpod/libpod/kube.go:268-270 | A name without '_' is returned unchanged. |
| Kube.RemoveUnderscoresIdempotent | vendor/github.com/containers/libpod/libpod/kube.go:268-270 | Applying it twice equals applying it once. |
| Kube.SimplePod | vendor/github.com/containers/libpod/libpod/kube.go:27-61 | A container conversion error is returned as it is. Otherwise the pod is kind "Pod", API version "v1", and has the converted container as its only container. Its only label is "app", which holds `RemoveUnderscores` of the name, and the pod name is that label followed by "-libpod". |
| Kube.SimplePodIgnoresUnderscores | vendor/github.com/containers/libpod/libpod/kube.go:41-45 | Names differing by an underscore give the same pod. |
| Kube.SplitEnv | vendor/github.com/containers/libpod/libpod/kube.go:156-165 | None exactly when the entry has no '='. Otherwise the name holds no '=', and name + "=" + value is the entry. |
| Kube.SplitEnvUnique | vendor/github.com/containers/libpod/libpod/kube.go:156-165 | The split is at the first '=': a value may itself hold '='. |
| Kube.EnvVarsToKube | vendor/github.com/containers/libpod/libpod/kube.go:154-168 | Entries are converted in order, one variable each. The first entry without '=' stops it with a "malformed" error naming that entry, and the variables before it are returned. |
| Kube.ParseProtocol | vendor/github.com/containers/libpod/libpod/kube.go:133-140 | TCP exactly when the text spells "tcp" in any letter case; UDP likewise for "udp"; unknown otherwise. |
| Kube.UpperMatches | vendor/github.com/containers/libpod/libpod/kube.go:134 | Upper-casing yields an upper-case word exactly when the text spells it in either case. |
| Kube.PortMappingsToContainerPorts | vendor/github.com/containers/libpod/libpod/kube.go:129-151 | One port per mapping, in order. Host port, host address and container port are copied, and the protocol is recognised. The first unknown protocol stops it with an error naming that protocol, and the ports before it are returned. |
| Kube.VolumeMountFor | vendor/github.com/containers/libpod/libpod/kube.go:186-201 | None exactly when no mount has that source. Otherwise it is an unnamed mount at the host path, taken from the first mount with that source: its sub-path is that mount's destination, and it is read-only exactly when "ro" is among that mount's options. |
| Kube.GenerateKubeVolumeMount | vendor/github.com/containers/libpod/libpod/kube.go:186-201 | Equals `VolumeMountFor`, so it is built from the first mount with that source, with that mount's destination and read-only flag. When no mount matches, the result is an empty volume mount and the error "unable to find mount source". |
| Kube.MountsToKubeVolumeMounts | vendor/github.com/containers/libpod/libpod/kube.go:204-216 | One volume mount per user volume, in order. The first volume without a mount stops it, and the mounts before it are returned with the error. |

## Left out

- The transport's `init` registration, `Name`, `ValidatePolicyConfigurationScope`, the pure pass-throughs and `NewImage`/`image.FromSource` are not modelled: they only delegate to code outside this model. The pass-throughs are `Transport`, `DockerReference`, the policy identities, `DeleteImage`, `Close`, signatures, `SupportedManifestMIMETypes`, the destination's capability flags and `Commit`.
- `NewImageSource` and `NewImageDestination` are not modelled; they open the wrapped transport's source and destination. A `Source` or `Destination` here pairs the reference with the wrapped side's answers.
- Logging, the wording of error messages, and the image name inside them are not modelled. Errors are a datatype that keeps the failing operation, the path and the wrapping context.
- Content digesting, MIME sniffing and the wrapped reference parser are parameters of the operations that use them.
- The random part of a temporary file name is the parameter `tempSuffix` of `CacheDestination.PutBlob`, which is required to name no existing file and no file recorded as unreadable.
- Concurrency is not modelled: two writers renaming the same digest, or one process clearing a cache while another writes.
- Paths are (directory, name) pairs. In a joined path, and in PutBlob's directory, `""` stands for `.`, and joining two empty names gives the empty path, which names nothing. ClearCache opens directory names as listed, so `""` is no directory there. No other `filepath.Join` cleaning (`..`, repeated separators, names holding `/`) is modelled.
- File sizes and permission bits are not modelled. A file's size is the length of its bytes. A file either can be opened or is recorded as unreadable; a file the process writes is readable by it.
- CacheSource.GetBlob: nothing changes the disk between HasBlob's stat and GetBlob's open, since another process would have to do it. So the open loop stops at the same file the stat found, which opens or gives an open error. The source's fall-through to the wrapped source after a hit (every candidate vanished in between) cannot be reached in the model.
- CacheDestination.PutBlob: the failed removal of the temporary file (it is only logged, and the file stays behind) cannot be reached in the model. The temporary file was just created in a directory that accepts new files, and nothing changes that before the removal.
- CacheDestination.PutBlob: the wrapped destination's reply fixes how many bytes it read. An error while writing the tee's copy, which the wrapped destination would see as a read error, is not modelled.
- CacheDestination.ReapplyBlob: with an empty digest the source opens the directory itself. The model treats a directory path with an empty name as a file that cannot be opened (and the empty path, from directory `""`, as nothing). So a file named `.config` in a listed directory, or else the wrapped `ReapplyBlob`, answers; the source instead feeds the directory handle to the wrapped `PutBlob` as a layer.
- FileSystem.Disk.AtomicWriteFile: the write succeeds or leaves the disk unchanged. Its own temporary file is not modelled.
- Kube.ParseProtocol: `strings.ToUpper` is modelled on ASCII letters only. No other character upper-cases to a letter of "TCP" or "UDP", so recognition is the same.
- Kube.SimplePod: the creation timestamp reads the clock and is not modelled. Nor is the conversion of the container itself (`containerToV1Container`, `generateKubeSecurityContext`), which needs a live container and the user database; its result is a parameter.
- `libpodMaxAndMinToResourceList` and `generateKubeVolumeDeviceFromLinuxDevice` are not modelled: the first returns two empty maps, the second only copies device paths.
- The other files of the repository are not part of this model: the command-line helpers, the runtime set-up and the empty blob-info cache.
