/** The abstract filesystem the Go packaging code walks: a map from clean absolute paths
    to the node stored there. File bytes are kept as a string; an archive written by the
    packager is kept as its set of entries (compression is not modelled). */
module FileSystem {
  import opened Wrappers
  import opened Paths

  datatype Node = Dir | File(content: string) | Archive(entries: set<Entry>)

  /** One archive entry: its name inside the archive and the node it stores. */
  datatype Entry = Entry(name: string, node: Node)

  type FS = map<Path, Node>

  const ErrNotDir := "not a directory"
  const ErrIsDir := "is a directory"
  const ErrNoEnt := "no such file or directory"

  predicate IsDir(fs: FS, p: Path) {
    p in fs && fs[p].Dir?
  }

  /** Some proper prefix of `p` exists and is not a directory, so looking `p` up fails
      with ENOTDIR rather than ENOENT. */
  predicate Blocked(fs: FS, p: Path) {
    exists k | 0 <= k < |p| :: p[..k] in fs && !fs[p[..k]].Dir?
  }

  /** `os.IsNotExist(err)` for the error of `os.Stat(p)`. */
  predicate NotExist(fs: FS, p: Path) {
    p !in fs && !Blocked(fs, p)
  }

  /** Every proper prefix of a stored path is a directory. */
  ghost predicate Tree(fs: FS) {
    forall p, k | p in fs && 0 <= k < |p| :: IsDir(fs, p[..k])
  }

  function Prefixes(p: Path): set<Path> {
    set k | 0 <= k <= |p| :: p[..k]
  }

  /** The deepest prefix of `p`, `p` itself included, that exists and is not a
      directory: os.MkdirAll climbs from `p` towards the root until a lookup succeeds,
      and reports the entry it stopped at. */
  function NonDirPrefix(fs: FS, p: Path): (q: Path)
    requires exists k | 0 <= k <= |p| :: p[..k] in fs && !fs[p[..k]].Dir?
    ensures Under(p, q) && q in fs && !fs[q].Dir?
    ensures forall k | |q| < k <= |p| :: !(p[..k] in fs && !fs[p[..k]].Dir?)
    decreases |p|
  {
    if p in fs && !fs[p].Dir? then
      assert p[..|p|] == p;
      p
    else
      var up := p[..|p| - 1];
      assert forall k | 0 <= k <= |up| :: up[..k] == p[..k];
      var q := NonDirPrefix(fs, up);
      assert p[..|q|] == up[..|q|];
      assert p[..|p|] == p;
      q
  }

  /** os.MkdirAll: creates `p` and its missing ancestors; fails when `p` or one of its
      ancestors exists and is not a directory, naming the deepest such entry. */
  function MkdirAll(fs: FS, p: Path): (r: Result<FS>)
    ensures r.Ok? <==> forall k | 0 <= k <= |p| && p[..k] in fs :: fs[p[..k]].Dir?
    ensures r.Ok? ==> forall k | 0 <= k <= |p| :: IsDir(r.value, p[..k])
    ensures r.Ok? ==> IsDir(r.value, p)
    ensures r.Ok? ==> forall q | q in fs :: q in r.value && r.value[q] == fs[q]
    ensures r.Ok? ==> forall q | q in r.value && q !in fs :: Under(p, q)
    ensures r.Err? ==> r.msg == "mkdir " + Render(NonDirPrefix(fs, p)) + ": " + ErrNotDir
  {
    if exists k | 0 <= k <= |p| :: p[..k] in fs && !fs[p[..k]].Dir? then
      Err("mkdir " + Render(NonDirPrefix(fs, p)) + ": " + ErrNotDir)
    else
      var made := map q | q in Prefixes(p) :: Dir;
      assert forall k | 0 <= k <= |p| :: p[..k] in Prefixes(p);
      assert p[..|p|] == p;
      Ok(fs + made)
  }

  /** os.RemoveAll: drops `p` and everything below it. */
  function RemoveAll(fs: FS, p: Path): (r: FS)
    ensures forall q :: q in r <==> q in fs && !Under(q, p)
    ensures forall q | q in r :: r[q] == fs[q]
  {
    map q | q in fs && !Under(q, p) :: fs[q]
  }

  /** os.Create: truncates an existing file or makes a new empty one; fails on a
      directory, below a non-directory, or when the parent directory is missing. */
  function Create(fs: FS, p: Path): (r: Result<FS>)
    ensures r.Ok? <==> !IsDir(fs, p) && |p| > 0 && IsDir(fs, p[..|p| - 1]) && !Blocked(fs, p)
    ensures r.Ok? ==> r.value == fs[p := File("")]
  {
    if IsDir(fs, p) then Err("open " + Render(p) + ": " + ErrIsDir)
    else if Blocked(fs, p) then Err("open " + Render(p) + ": " + ErrNotDir)
    else if |p| == 0 || !IsDir(fs, p[..|p| - 1]) then Err("open " + Render(p) + ": " + ErrNoEnt)
    else Ok(fs[p := File("")])
  }
}
