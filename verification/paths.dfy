/** Clean absolute paths as lists of segments, and their rendering as the strings Go's
    `filepath` produces on a system whose separator is `/`. */
module Paths {
  import opened Strings

  /** `[]` is the filesystem root; `["tmp", "proj"]` is `/tmp/proj`. */
  type Path = seq<string>

  /** `p` is `dir` itself or lies below it. */
  predicate Under(p: Path, dir: Path) {
    |dir| <= |p| && p[..|dir|] == dir
  }

  /** os.FileInfo.Name(): the last segment, and `/` for the root. */
  function Name(p: Path): string {
    if |p| == 0 then "/" else p[|p| - 1]
  }

  /** Every segment preceded by a slash: `/a/b` for `[a, b]`, empty for the root. */
  function Slashed(p: Path): string {
    if |p| == 0 then "" else "/" + p[0] + Slashed(p[1..])
  }

  /** The string Go uses for the path: `/` for the root, `/a/b` otherwise. */
  function Render(p: Path): string {
    if |p| == 0 then "/" else Slashed(p)
  }

  lemma {:induction false} SlashedAppend(a: Path, b: Path)
    ensures Slashed(a + b) == Slashed(a) + Slashed(b)
    decreases |a|
  {
    if |a| > 0 {
      assert (a + b)[1..] == a[1..] + b;
      SlashedAppend(a[1..], b);
    } else {
      assert a + b == b;
    }
  }

  lemma {:induction false} SlashedIsSlashJoin(r: Path)
    requires |r| > 0
    ensures Slashed(r) == "/" + JoinSlash(r)
    decreases |r|
  {
    if |r| > 1 {
      SlashedIsSlashJoin(r[1..]);
    } else {
      assert r[1..] == [];
    }
  }

  /** The rendering of a path strictly below a non-root `dir` is the rendering of
      `dir`, a slash, and the segments below `dir` joined by slashes. */
  lemma RenderConcat(dir: Path, r: Path)
    requires |dir| > 0 && |r| > 0
    ensures Render(dir + r) == (Render(dir) + "/") + JoinSlash(r)
  {
    var a, b, j := Slashed(dir), Slashed(r), JoinSlash(r);
    assert Render(dir) == a;
    assert Render(dir + r) == a + b by {
      SlashedAppend(dir, r);
    }
    assert b == "/" + j by {
      SlashedIsSlashJoin(r);
    }
    assert a + ("/" + j) == (a + "/") + j;
  }

  /** Trimming `Render(dir) + "/"` off the rendering of a path strictly below a
      non-root `dir` leaves its segments below `dir` joined by slashes. */
  lemma RenderBelow(dir: Path, r: Path)
    requires |dir| > 0 && |r| > 0
    ensures TrimPrefix(Render(dir + r), Render(dir) + "/") == JoinSlash(r)
  {
    RenderConcat(dir, r);
    TrimPrefixOfConcat(Render(dir) + "/", JoinSlash(r));
  }

  lemma UnderTransitive(p: Path, q: Path, r: Path)
    requires Under(p, q) && Under(q, r)
    ensures Under(p, r)
  {
    assert p[..|r|] == p[..|q|][..|r|];
  }
}
