/**
 * The part of the operating system the blob cache talks to: directories holding
 * named files, and the ways a path can fail. `Fs` is the state as a value;
 * `Disk` holds it and offers the system calls the cache makes.
 */
module FileSystem {
  import opened Wrappers

  type Bytes = seq<bv8>

  /** A file inside a directory; `dir` is the directory as the process resolves it. */
  datatype Path = Path(dir: string, name: string)

  /** In a joined path the empty directory name stands for the working directory ".". */
  function DirKey(dir: string): string
  {
    if dir == "" then "." else dir
  }

  /**
   * `filepath.Join(dir, name)` for a plain file name. Joining two empty names
   * gives the empty path, which names nothing.
   */
  function JoinPath(dir: string, name: string): Path
  {
    if dir == "" && name == "" then Path("", "") else Path(DirKey(dir), name)
  }

  datatype Fs = Fs(
    dirs: map<string, map<string, Bytes>>, // the directories that exist, each with its entries
    faulty: set<Path>,                     // paths whose stat, open, read, rename or removal fails with an error other than "not found"
    unreadable: set<Path>,                 // files whose stat succeeds but which cannot be opened or read (their permissions)
    readOnly: set<string>,                 // directories in which no new file can be created
    unopenable: set<string>,               // directories that cannot be opened
    unlistable: set<string>)               // directories whose entry names cannot be read

  /** What a stat, open or read of a path finds. */
  datatype Probe = Missing | Found(content: Bytes) | Failed

  /** What `os.Stat` of a path finds. */
  function ProbeAt(fs: Fs, p: Path): Probe
  {
    if p.dir == "" then Missing // the empty path
    else if p in fs.faulty then Failed
    else if p.dir !in fs.dirs then Missing
    else if p.name == "" then Failed // the directory itself is not a regular file
    else if p.name in fs.dirs[p.dir] then Found(fs.dirs[p.dir][p.name])
    else Missing
  }

  /**
   * What `os.Open` or `ioutil.ReadFile` of a path finds: the same as a stat,
   * except that a file whose permissions forbid reading cannot be opened.
   */
  function OpenAt(fs: Fs, p: Path): (r: Probe)
    ensures r.Missing? <==> ProbeAt(fs, p).Missing?
    ensures r.Found? ==> r == ProbeAt(fs, p)
  {
    var stat := ProbeAt(fs, p);
    if stat.Found? && p in fs.unreadable then Failed else stat
  }

  predicate CanCreate(fs: Fs, dir: string)
  {
    dir in fs.dirs && dir !in fs.readOnly
  }

  /** `fs` with the file at `p` holding `content`, written by this process and so readable by it. */
  function WithEntry(fs: Fs, p: Path, content: Bytes): Fs
    requires p.dir in fs.dirs
  {
    fs.(dirs := fs.dirs[p.dir := fs.dirs[p.dir][p.name := content]], unreadable := fs.unreadable - {p})
  }

  /** `fs` without the file at `p`. */
  function WithoutEntry(fs: Fs, p: Path): Fs
    requires p.dir in fs.dirs
  {
    fs.(dirs := fs.dirs[p.dir := fs.dirs[p.dir] - {p.name}])
  }

  /** Writing a file twice leaves the second content. */
  lemma OverwriteEntry(fs: Fs, p: Path, first: Bytes, second: Bytes)
    requires p.dir in fs.dirs
    ensures WithEntry(WithEntry(fs, p, first), p, second) == WithEntry(fs, p, second)
  {
    assert fs.dirs[p.dir][p.name := first][p.name := second] == fs.dirs[p.dir][p.name := second];
  }

  /** Removing a file that was just created restores the directory. */
  lemma RemoveNewEntry(fs: Fs, p: Path, content: Bytes)
    requires p.dir in fs.dirs && p.name !in fs.dirs[p.dir] && p !in fs.unreadable
    ensures WithoutEntry(WithEntry(fs, p, content), p) == fs
  {
    assert fs.dirs[p.dir][p.name := content] - {p.name} == fs.dirs[p.dir];
    assert fs.dirs[p.dir := fs.dirs[p.dir]] == fs.dirs;
    assert fs.unreadable - {p} == fs.unreadable;
  }

  class Disk {
    var fs: Fs

    constructor (initial: Fs)
      ensures fs == initial
    {
      fs := initial;
    }

    /** `ioutil.TempFile`: creates an empty file under a name nobody uses yet. */
    method CreateTemp(p: Path) returns (ok: bool)
      requires p.name != "" && ProbeAt(fs, p).Missing?
      modifies this
      ensures ok == CanCreate(old(fs), p.dir)
      ensures fs == if ok then WithEntry(old(fs), p, []) else old(fs)
    {
      ok := CanCreate(fs, p.dir);
      if ok {
        fs := WithEntry(fs, p, []);
      }
    }

    /** Appends to an open file: the copy an `io.TeeReader` makes of what is read through it. */
    method Append(p: Path, data: Bytes)
      requires ProbeAt(fs, p).Found?
      modifies this
      ensures fs == WithEntry(old(fs), p, old(fs).dirs[p.dir][p.name] + data)
    {
      fs := WithEntry(fs, p, fs.dirs[p.dir][p.name] + data);
    }

    /** `os.Rename` within one directory; it fails when the target cannot be replaced. */
    method Rename(from: Path, to: Path) returns (ok: bool)
      requires ProbeAt(fs, from).Found? && from.dir == to.dir && from != to
      modifies this
      ensures ok == (to !in old(fs).faulty)
      ensures fs == if ok then WithEntry(WithoutEntry(old(fs), from), to, old(fs).dirs[from.dir][from.name]) else old(fs)
    {
      ok := to !in fs.faulty;
      if ok {
        fs := WithEntry(WithoutEntry(fs, from), to, fs.dirs[from.dir][from.name]);
      }
    }

    /** `os.Remove` / `os.RemoveAll` of one entry; removing what is not there succeeds. */
    method Remove(p: Path) returns (ok: bool)
      requires p.dir in fs.dirs
      modifies this
      ensures ok == (p !in old(fs).faulty)
      ensures fs == if ok then WithoutEntry(old(fs), p) else old(fs)
    {
      ok := p !in fs.faulty;
      if ok {
        fs := WithoutEntry(fs, p);
      }
    }

    /**
     * `ioutils.AtomicWriteFile`: the file appears with all of `data` or, when
     * the directory refuses new files or the path cannot be replaced, not at all.
     */
    method AtomicWriteFile(p: Path, data: Bytes) returns (ok: bool)
      modifies this
      ensures ok == (CanCreate(old(fs), p.dir) && !ProbeAt(old(fs), p).Failed?)
      ensures fs == if ok then WithEntry(old(fs), p, data) else old(fs)
    {
      ok := CanCreate(fs, p.dir) && !ProbeAt(fs, p).Failed?;
      if ok {
        fs := WithEntry(fs, p, data);
      }
    }

    /** `os.Open` of a directory; the empty name is no directory ("no such file or directory"). */
    method OpenDir(dir: string) returns (ok: bool)
      ensures ok == (dir != "" && dir in fs.dirs && dir !in fs.unopenable)
    {
      ok := dir != "" && dir in fs.dirs && dir !in fs.unopenable;
    }

    /** `Readdirnames(-1)` on an open directory. */
    method ReadDirNames(dir: string) returns (names: Option<set<string>>)
      requires dir in fs.dirs
      ensures names == if dir in fs.unlistable then None else Some(fs.dirs[dir].Keys)
    {
      names := if dir in fs.unlistable then None else Some(fs.dirs[dir].Keys);
    }
  }
}
