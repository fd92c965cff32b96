/** The archive writer of the packager (cli/src/core/utils.go, zipDirectory): every
    entry the walk of `source` visits becomes one archive entry named by its path with
    `source + "/"` trimmed off, directories with a trailing slash. Entries are kept as
    a set; their order in the archive and the compression are not modelled. */
module ZipArchive {
  import opened Wrappers
  import opened Strings
  import opened Paths
  import opened FileSystem

  /** The header name: the rendered path without the `source/` prefix, plus `/` for a
      directory. */
  function EntryName(source: Path, p: Path, isDir: bool): string {
    TrimPrefix(Render(p), Render(source) + "/") + (if isDir then "/" else "")
  }

  /** The archive entry written for the visited path `p`. */
  function EntryFor(fs: FS, source: Path, p: Path): Entry
    requires p in fs
  {
    Entry(EntryName(source, p, fs[p].Dir?), fs[p])
  }

  /** One entry for every path the walk of `source` visits, `source` itself included. */
  function EntriesOf(fs: FS, source: Path): set<Entry> {
    set p | p in fs && Under(p, source) :: EntryFor(fs, source, p)
  }

  /** zipDirectory(source, target): creates `target` (failing as os.Create fails and
      changing nothing then), then stores at `target` an archive holding exactly one
      entry per visited path, with that path's node. Nothing else changes. */
  function ZipDirectory(fs: FS, source: Path, target: Path): (r: Result<FS>)
    ensures r.Ok? <==> Create(fs, target).Ok?
    ensures r.Err? ==> r == Create(fs, target)
    ensures r.Ok? ==> target in r.value && r.value[target].Archive?
    ensures r.Ok? ==> forall q | q in r.value && q != target :: q in fs && r.value[q] == fs[q]
    ensures r.Ok? ==> forall q | q in fs :: q in r.value
    ensures r.Ok? ==> forall p | p in fs && p != target && Under(p, source) ::
                        EntryFor(fs, source, p) in r.value[target].entries
    ensures r.Ok? ==> forall e | e in r.value[target].entries ::
                        exists p | p in fs[target := File("")] && Under(p, source) ::
                          e == EntryFor(fs[target := File("")], source, p)
  {
    var created :- Create(fs, target);
    var entries := EntriesOf(created, source);
    assert forall p | p in fs && p != target && Under(p, source) ::
      EntryFor(fs, source, p) == EntryFor(created, source, p);
    Ok(created[target := Archive(entries)])
  }

  /** A path strictly below a non-root `source` is stored under its segments below
      `source` joined by slashes, with a trailing slash for a directory: the names an
      unpacked archive recreates the tree from. */
  lemma EntryNameIsRelative(source: Path, rel: Path, isDir: bool)
    requires |source| > 0 && |rel| > 0
    ensures EntryName(source, source + rel, isDir) == JoinSlash(rel) + (if isDir then "/" else "")
  {
    RenderBelow(source, rel);
  }

  /** The walk also visits `source` itself, and nothing trims its name: its entry
      carries the full rendered path of `source`, e.g. `/proj/workflow/.dist/`. */
  lemma RootEntryName(source: Path)
    ensures EntryName(source, source, true) == Render(source) + "/"
  {
    var s := Render(source);
    assert |s + "/"| > |s|;
  }

  /** Every file below `source` reaches the archive under its relative name with its
      content. */
  lemma ArchiveHoldsFile(fs: FS, source: Path, target: Path, rel: Path)
    requires |source| > 0 && |rel| > 0 && source + rel in fs && source + rel != target
    requires !fs[source + rel].Dir? && ZipDirectory(fs, source, target).Ok?
    ensures Entry(JoinSlash(rel), fs[source + rel]) in ZipDirectory(fs, source, target).value[target].entries
  {
    var p := source + rel;
    assert Under(p, source) by { assert p[..|source|] == source; }
    EntryNameIsRelative(source, rel, false);
    assert JoinSlash(rel) + "" == JoinSlash(rel);
  }
}
