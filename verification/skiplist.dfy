/** The copy filter of the packager (cli/src/core/utils.go, shouldSkip). */
module SkipList {
  import opened Strings

  /** Directory names whose whole subtree is left out of a build. */
  const SkippedDirs: seq<string> := [".dist", ".venv", "venv", "__pycache__", "node_modules", ".pytest_cache"]

  /** Names of previously built archives, left out whatever their kind. */
  const ArchiveSuffix := "_lambda.zip"

  /** shouldSkip(name, isDir): a skip-listed directory name, or any entry whose name
      ends with the archive suffix. */
  function ShouldSkip(name: string, isDir: bool): (skip: bool)
    ensures skip <==> (isDir && name in SkippedDirs) || HasSuffix(name, ArchiveSuffix)
  {
    if isDir && name in SkippedDirs then true
    else HasSuffix(name, ArchiveSuffix)
  }

  /** The skip list only ever matters for directories; for files only the suffix
      counts, and the suffix rule ignores the kind. */
  lemma SkipForFiles(name: string)
    ensures ShouldSkip(name, false) <==> HasSuffix(name, ArchiveSuffix)
    ensures HasSuffix(name, ArchiveSuffix) ==> ShouldSkip(name, true)
    ensures ShouldSkip(name, false) ==> ShouldSkip(name, true)
  {
  }

  /** The cases switchboard's `TestShouldSkip` checks. */
  lemma SkipTable()
    ensures !ShouldSkip("workflow", true)
    ensures ShouldSkip(".dist", true) && ShouldSkip("venv", true) && ShouldSkip("__pycache__", true)
    ensures ShouldSkip("node_modules", true) && ShouldSkip(".pytest_cache", true)
    ensures !ShouldSkip("main.py", false)
    ensures ShouldSkip("workflow_lambda.zip", false)
    ensures !ShouldSkip(".dist", false)
  {
    assert "workflow_lambda.zip"[|"workflow_lambda.zip"| - |ArchiveSuffix|..] == ArchiveSuffix;
  }
}
