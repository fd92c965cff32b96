/** Project discovery (cli/src/core/utils.go, findProjectRoot and loadConfig). */
module ProjectRoot {
  import opened Wrappers
  import opened Paths
  import opened FileSystem

  /** The marker file whose presence makes a directory the project root. */
  const Marker := "switchboard.json"

  const NotFoundMsg := "switchboard.json not found in any parent directories"

  /** The decoded marker file. `language` and `cloud` are kept as the strings found in
      the file: the loader does not check them. */
  datatype ProjectConfig = ProjectConfig(name: string, language: string, cloud: string)

  predicate HasMarker(fs: FS, dir: Path) {
    dir + [Marker] in fs
  }

  /** findProjectRoot, started at the working directory `cwd`: walks to the parent
      until a directory holds the marker, and gives up at the root, where the parent of
      a directory is the directory itself. Each step drops one segment, which is what
      makes the walk terminate. */
  function FindProjectRoot(fs: FS, cwd: Path): (r: Result<Path>)
    ensures r.Ok? ==> Under(cwd, r.value) && HasMarker(fs, r.value)
    ensures r.Ok? ==> forall k | |r.value| < k <= |cwd| :: !HasMarker(fs, cwd[..k])
    ensures r.Err? <==> forall k | 0 <= k <= |cwd| :: !HasMarker(fs, cwd[..k])
    ensures r.Err? ==> r.msg == NotFoundMsg
    decreases |cwd|
  {
    if HasMarker(fs, cwd) then Ok(cwd)
    else if |cwd| == 0 then Err(NotFoundMsg)
    else
      var up := FindProjectRoot(fs, cwd[..|cwd| - 1]);
      assert forall k | 0 <= k <= |cwd| - 1 :: cwd[..|cwd| - 1][..k] == cwd[..k];
      assert cwd[..|cwd|] == cwd;
      up
  }

  /** The nearest marker wins: a marker in `cwd`'s ancestor `root` is found from any
      directory below `root` whose own ancestors down to `root` hold none. */
  lemma FindsNearestMarker(fs: FS, root: Path, cwd: Path)
    requires Under(cwd, root) && HasMarker(fs, root)
    requires forall k | |root| < k <= |cwd| :: !HasMarker(fs, cwd[..k])
    ensures FindProjectRoot(fs, cwd) == Ok(root)
  {
    assert cwd[..|root|] == root;
  }

  /** loadConfig: finds the root, reads the marker and decodes it. The JSON decoder is
      the oracle `decode`, applied to the marker's node. */
  function LoadConfig(fs: FS, cwd: Path, decode: Node -> Result<ProjectConfig>): (r: Result<(ProjectConfig, Path)>)
    ensures r.Ok? ==> FindProjectRoot(fs, cwd) == Ok(r.value.1)
    ensures r.Ok? ==> decode(fs[r.value.1 + [Marker]]) == Ok(r.value.0)
    ensures FindProjectRoot(fs, cwd).Err? ==> r == Err(NotFoundMsg)
    ensures FindProjectRoot(fs, cwd).Ok? ==>
              var marker := FindProjectRoot(fs, cwd).value + [Marker];
              && (fs[marker].Dir? ==>
                    r == Err("could not read switchboard.json: read " + Render(marker) + ": " + ErrIsDir))
              && (!fs[marker].Dir? ==>
                    (r.Ok? <==> decode(fs[marker]).Ok?)
                    && (decode(fs[marker]).Err? ==> r == Err("could not parse switchboard.json: " + decode(fs[marker]).msg)))
  {
    match FindProjectRoot(fs, cwd)
    case Err(e) => Err(e)
    case Ok(root) =>
      var node := fs[root + [Marker]];
      if node.Dir? then
        Err("could not read switchboard.json: read " + Render(root + [Marker]) + ": " + ErrIsDir)
      else
        match decode(node)
        case Err(e) => Err("could not parse switchboard.json: " + e)
        case Ok(config) => Ok((config, root))
  }

  /** The configuration loaded from below a project is the one its marker decodes to,
      together with that project's root, as long as no directory in between holds a
      marker of its own. */
  lemma LoadsNearestProject(fs: FS, root: Path, cwd: Path, decode: Node -> Result<ProjectConfig>, config: ProjectConfig)
    requires Under(cwd, root) && HasMarker(fs, root) && !fs[root + [Marker]].Dir?
    requires forall k | |root| < k <= |cwd| :: !HasMarker(fs, cwd[..k])
    requires decode(fs[root + [Marker]]) == Ok(config)
    ensures LoadConfig(fs, cwd, decode) == Ok((config, root))
  {
    FindsNearestMarker(fs, root, cwd);
  }
}
