/** The tree-filtering copy of a component into its scratch directory
    (cli/src/core/utils.go, copySource, called with `<component>/.dist` as destination).

    `CopySource` states the result declaratively; `WalkCopy` performs the copy the way
    `filepath.Walk` drives it, entry by entry, and is proved to reach the same result for
    every parent-first visiting order. */
module SourceCopy {
  import opened Wrappers
  import opened Paths
  import opened FileSystem
  import opened SkipList

  /** The scratch directory's name inside the component. */
  const ScratchName := ".dist"

  /** Reported when a copied entry would replace an entry of the other kind already in
      the scratch directory (a directory over a file or the reverse). */
  const ClashMsg := "destination exists with a different file type"

  function Scratch(src: Path): Path {
    src + [ScratchName]
  }

  /** The walk's filter decision for the entry at `q`. */
  predicate SkipEntry(fs: FS, q: Path) {
    ShouldSkip(Name(q), IsDir(fs, q))
  }

  /** `p` is copied: it lies under `src`, passes the filter, and its parent is copied
      too unless `p` is `src` itself (the walk does not enter a skipped directory). */
  predicate Kept(fs: FS, src: Path, p: Path)
    decreases |p|
  {
    Under(p, src) && !SkipEntry(fs, p) && (|p| > |src| ==> Kept(fs, src, p[..|p| - 1]))
  }

  /** The same decision read off the whole path: no directory between `src` and `p`,
      nor `p` itself, is skipped. */
  predicate NoSkippedAncestor(fs: FS, src: Path, p: Path) {
    Under(p, src) && forall k | |src| <= k <= |p| :: !SkipEntry(fs, p[..k])
  }

  lemma {:induction false} KeptIffNoSkippedAncestor(fs: FS, src: Path, p: Path)
    ensures Kept(fs, src, p) <==> NoSkippedAncestor(fs, src, p)
    decreases |p|
  {
    if Under(p, src) && |p| > |src| {
      var parent := p[..|p| - 1];
      KeptIffNoSkippedAncestor(fs, src, parent);
      assert forall k | |src| <= k < |p| :: parent[..k] == p[..k];
      assert p[..|p|] == p;
      assert Under(parent, src) by { assert parent[..|src|] == p[..|src|]; }
    } else if Under(p, src) {
      assert p[..|p|] == p;
    }
  }

  /** Where the walk writes `p`: the scratch directory joined with `p` minus the `src`
      prefix. */
  function Target(src: Path, p: Path): Path
    requires Under(p, src)
  {
    Scratch(src) + p[|src|..]
  }

  /** Writing `p` to its target fails: the target exists with the other kind. */
  predicate Clash(fs: FS, src: Path, p: Path)
    requires p in fs && Under(p, src)
  {
    Target(src, p) in fs && fs[Target(src, p)].Dir? != fs[p].Dir?
  }

  lemma TargetInjective(src: Path)
    ensures forall p, q | Under(p, src) && Under(q, src) && Target(src, p) == Target(src, q) :: p == q
  {
    forall p, q | Under(p, src) && Under(q, src) && Target(src, p) == Target(src, q)
      ensures p == q
    {
      assert p[|src|..] == Target(src, p)[|src| + 1..];
      assert q[|src|..] == Target(src, q)[|src| + 1..];
      assert p == p[..|src|] + p[|src|..];
      assert q == q[..|src|] + q[|src|..];
    }
  }

  /** The entries the copy writes for the kept paths among `among`. */
  function Copies(fs: FS, src: Path, among: set<Path>): map<Path, Node> {
    TargetInjective(src);
    map p | p in among && p in fs && Kept(fs, src, p) :: Target(src, p) := fs[p]
  }

  /** The source entry whose copy lands at `q` inside the scratch directory. */
  function Origin(src: Path, q: Path): Path
    requires Under(q, Scratch(src))
  {
    src + q[|src| + 1..]
  }

  /** Every kept entry has its copy at its target. */
  lemma CopiesLand(fs: FS, src: Path, p: Path)
    requires p in fs && Kept(fs, src, p)
    ensures Target(src, p) in Copies(fs, src, fs.Keys)
    ensures Copies(fs, src, fs.Keys)[Target(src, p)] == fs[p]
  {
    TargetInjective(src);
  }

  /** Every written entry is the copy of a kept entry, found from its own path. */
  lemma CopiesOrigin(fs: FS, src: Path, q: Path)
    requires q in Copies(fs, src, fs.Keys)
    ensures Under(q, Scratch(src)) && Origin(src, q) in fs && Kept(fs, src, Origin(src, q))
    ensures Copies(fs, src, fs.Keys)[q] == fs[Origin(src, q)]
  {
    var p :| p in fs && Kept(fs, src, p) && Target(src, p) == q;
    assert p == p[..|src|] + p[|src|..];
    assert q[|src| + 1..] == p[|src|..];
    assert Origin(src, q) == p;
    CopiesLand(fs, src, p);
  }

  /** copySource(src, src/.dist): every kept entry lands at its target with the same
      node; nothing outside the scratch directory changes, and every change inside it
      is the copy of a kept entry. The copy fails exactly when some kept entry clashes.
      The scratch directory exists when the packager calls it (MkdirAll runs first). */
  function CopySource(fs: FS, src: Path): (r: Result<FS>)
    requires IsDir(fs, Scratch(src))
    ensures r.Ok? <==> forall p | p in fs && Kept(fs, src, p) :: !Clash(fs, src, p)
    ensures r.Ok? ==> forall p | p in fs && Kept(fs, src, p) ::
                        Target(src, p) in r.value && r.value[Target(src, p)] == fs[p]
    ensures r.Ok? ==> forall q | q in fs :: q in r.value
    ensures r.Ok? ==> forall q | q in r.value && (q !in fs || r.value[q] != fs[q]) ::
                        Under(q, Scratch(src)) && Origin(src, q) in fs
                        && Kept(fs, src, Origin(src, q)) && r.value[q] == fs[Origin(src, q)]
  {
    if exists p | p in fs && Kept(fs, src, p) :: Clash(fs, src, p) then Err(ClashMsg)
    else
      var copies := Copies(fs, src, fs.Keys);
      forall p | p in fs && Kept(fs, src, p)
        ensures Target(src, p) in copies && copies[Target(src, p)] == fs[p]
      {
        CopiesLand(fs, src, p);
      }
      forall q | q in copies
        ensures Under(q, Scratch(src)) && Origin(src, q) in fs
                && Kept(fs, src, Origin(src, q)) && copies[q] == fs[Origin(src, q)]
      {
        CopiesOrigin(fs, src, q);
      }
      Ok(fs + copies)
  }

  /** The scratch directory is never copied into itself. */
  lemma ScratchNeverCopied(fs: FS, src: Path, p: Path)
    requires IsDir(fs, Scratch(src)) && Under(p, Scratch(src))
    ensures !Kept(fs, src, p)
  {
    KeptIffNoSkippedAncestor(fs, src, p);
    assert p[..|src| + 1] == Scratch(src);
    assert Name(Scratch(src)) == ScratchName;
  }

  /** A skipped directory prunes its whole subtree. */
  lemma PrunedSubtree(fs: FS, src: Path, d: Path, p: Path)
    requires Under(d, src) && !Kept(fs, src, d) && Under(p, d)
    ensures !Kept(fs, src, p)
  {
    KeptIffNoSkippedAncestor(fs, src, d);
    KeptIffNoSkippedAncestor(fs, src, p);
    var k :| |src| <= k <= |d| && SkipEntry(fs, d[..k]);
    assert p[..k] == d[..k];
  }

  /** `order` lists every entry below `src` once, each after all its ancestors below
      `src`, as `filepath.Walk` visits them (in lexical order, which is one such order). */
  ghost predicate ParentFirst(fs: FS, src: Path, order: seq<Path>) {
    && (forall i | 0 <= i < |order| :: order[i] in fs && Under(order[i], src))
    && (forall p | p in fs && Under(p, src) :: p in order)
    && (forall i, j | 0 <= i < j < |order| :: order[i] != order[j])
    && (forall i, k | 0 <= i < |order| && |src| <= k < |order[i]| :: order[i][..k] in order[..i])
  }

  lemma CopiesGrow(fs: FS, src: Path, done: set<Path>, p: Path)
    requires p in fs && p !in done && Kept(fs, src, p)
    ensures Copies(fs, src, done + {p}) == Copies(fs, src, done)[Target(src, p) := fs[p]]
    ensures Target(src, p) !in Copies(fs, src, done)
  {
    TargetInjective(src);
  }

  lemma CopiesSkip(fs: FS, src: Path, done: set<Path>, p: Path)
    requires !Kept(fs, src, p)
    ensures Copies(fs, src, done + {p}) == Copies(fs, src, done)
  {
  }

  lemma CopiesSameRange(fs: FS, src: Path, a: set<Path>, b: set<Path>)
    requires forall p | p in fs && Kept(fs, src, p) :: (p in a <==> p in b)
    ensures Copies(fs, src, a) == Copies(fs, src, b)
  {
  }

  /** The entries visited before step `i`. */
  ghost function Seen(order: seq<Path>, i: nat): set<Path>
    requires i <= |order|
  {
    set j | 0 <= j < i :: order[j]
  }

  lemma SeenStep(order: seq<Path>, i: nat)
    requires i < |order|
    ensures Seen(order, i + 1) == Seen(order, i) + {order[i]}
  {
  }

  /** The parent below `src` of a path strictly below it. */
  function Parent(p: Path): Path
    requires |p| > 0
  {
    p[..|p| - 1]
  }

  /** What the walk knows after visiting `order[..i]`. `pruned` holds the directories
      it does not enter: the skipped ones and every directory below them. None of the
      kept entries seen clashed, and the scratch directory holds exactly their
      copies. */
  ghost predicate WalkInv(fs: FS, src: Path, order: seq<Path>, i: nat, pruned: set<Path>, cur: FS)
    requires i <= |order|
  {
    && (forall d | d in pruned :: Under(d, src) && !Kept(fs, src, d))
    && (forall q | q in Seen(order, i) && IsDir(fs, q) && !Kept(fs, src, q) :: q in pruned)
    && (forall q | q in Seen(order, i) && q in fs && Kept(fs, src, q) :: !Clash(fs, src, q))
    && cur == fs + Copies(fs, src, Seen(order, i))
  }

  /** What the walk needs to know about the entry it visits at step `i`: it exists,
      lies below `src`, was not visited before, and its parent below `src` is a
      directory visited earlier. */
  ghost predicate Visitable(fs: FS, src: Path, order: seq<Path>, i: nat)
    requires i < |order|
  {
    && order[i] in fs && Under(order[i], src) && order[i] !in Seen(order, i)
    && (|order[i]| > |src| ==> IsDir(fs, Parent(order[i])) && Parent(order[i]) in Seen(order, i))
  }

  /** Every listed entry exists and lies below `src`. */
  predicate Listed(fs: FS, src: Path, order: seq<Path>) {
    forall j | 0 <= j < |order| :: Under(order[j], src) && order[j] in fs
  }

  /** What the walk relies on: every entry below `src` is listed, and each listed
      entry can be visited at its step. */
  ghost predicate WalkOrder(fs: FS, src: Path, order: seq<Path>) {
    && Listed(fs, src, order)
    && (forall p | p in fs && Under(p, src) :: p in order)
    && (forall i | 0 <= i < |order| :: Visitable(fs, src, order, i))
  }

  /** On a well-formed tree every parent-first listing is a walk order. */
  lemma ParentFirstIsWalkOrder(fs: FS, src: Path, order: seq<Path>)
    requires Tree(fs) && ParentFirst(fs, src, order)
    ensures WalkOrder(fs, src, order)
  {
    forall i | 0 <= i < |order|
      ensures Visitable(fs, src, order, i)
    {
      var p := order[i];
      if |p| > |src| {
        assert Parent(p) in order[..i];
      }
    }
  }

  /** Below a kept parent, an entry is kept exactly when it passes the filter
      itself; `src` itself only has to pass the filter. */
  lemma KeptUnlessSelfSkipped(fs: FS, src: Path, p: Path)
    requires Under(p, src)
    requires |p| > |src| ==> Kept(fs, src, Parent(p))
    ensures Kept(fs, src, p) <==> !SkipEntry(fs, p)
  {
    if |p| == |src| {
      assert p[..|src|] == p;
    }
  }

  /** In the walk, the parent of an entry whose parent is not pruned is kept. */
  lemma ParentKept(fs: FS, src: Path, order: seq<Path>, i: nat, pruned: set<Path>, cur: FS)
    requires i < |order| && Visitable(fs, src, order, i)
    requires WalkInv(fs, src, order, i, pruned, cur)
    requires !(|order[i]| > |src| && Parent(order[i]) in pruned)
    ensures Kept(fs, src, order[i]) <==> !SkipEntry(fs, order[i])
  {
    KeptUnlessSelfSkipped(fs, src, order[i]);
  }

  /** Pass over an entry that is not copied; a directory is not entered. */
  lemma StepNoCopy(fs: FS, src: Path, order: seq<Path>, i: nat, pruned: set<Path>, cur: FS)
    requires i < |order| && Visitable(fs, src, order, i)
    requires WalkInv(fs, src, order, i, pruned, cur)
    requires !Kept(fs, src, order[i])
    ensures WalkInv(fs, src, order, i + 1, if IsDir(fs, order[i]) then pruned + {order[i]} else pruned, cur)
  {
    var p := order[i];
    var pruned' := if IsDir(fs, p) then pruned + {p} else pruned;
    SeenStep(order, i);
    CopiesSkip(fs, src, Seen(order, i), p);
    assert forall d | d in pruned' :: Under(d, src) && !Kept(fs, src, d);
    assert forall q | q in Seen(order, i + 1) && IsDir(fs, q) && !Kept(fs, src, q) :: q in pruned';
  }

  /** Step over an entry whose parent the walk did not enter. */
  lemma StepPruned(fs: FS, src: Path, order: seq<Path>, i: nat, pruned: set<Path>, cur: FS)
    requires i < |order| && Visitable(fs, src, order, i)
    requires WalkInv(fs, src, order, i, pruned, cur)
    requires |order[i]| > |src| && Parent(order[i]) in pruned
    ensures WalkInv(fs, src, order, i + 1, if IsDir(fs, order[i]) then pruned + {order[i]} else pruned, cur)
  {
    PrunedSubtree(fs, src, Parent(order[i]), order[i]);
    StepNoCopy(fs, src, order, i, pruned, cur);
  }

  /** Step over an entry the filter rejects. */
  lemma StepSkipped(fs: FS, src: Path, order: seq<Path>, i: nat, pruned: set<Path>, cur: FS)
    requires i < |order| && Visitable(fs, src, order, i)
    requires WalkInv(fs, src, order, i, pruned, cur)
    requires !(|order[i]| > |src| && Parent(order[i]) in pruned)
    requires SkipEntry(fs, order[i])
    ensures WalkInv(fs, src, order, i + 1, if IsDir(fs, order[i]) then pruned + {order[i]} else pruned, cur)
  {
    ParentKept(fs, src, order, i, pruned, cur);
    StepNoCopy(fs, src, order, i, pruned, cur);
  }

  lemma UpdateUnion(a: FS, b: FS, k: Path, v: Node)
    ensures (a + b)[k := v] == a + b[k := v]
  {
  }

  /** Copy a kept entry whose target does not clash. */
  lemma StepCopied(fs: FS, src: Path, order: seq<Path>, i: nat, pruned: set<Path>, cur: FS)
    requires i < |order| && Visitable(fs, src, order, i)
    requires WalkInv(fs, src, order, i, pruned, cur)
    requires !(|order[i]| > |src| && Parent(order[i]) in pruned)
    requires !SkipEntry(fs, order[i])
    requires !(Target(src, order[i]) in cur && cur[Target(src, order[i])].Dir? != fs[order[i]].Dir?)
    ensures WalkInv(fs, src, order, i + 1, pruned, cur[Target(src, order[i]) := fs[order[i]]])
  {
    var p := order[i];
    var t := Target(src, p);
    var seen := Seen(order, i);
    ParentKept(fs, src, order, i, pruned, cur);
    CopiesGrow(fs, src, seen, p);
    SeenStep(order, i);
    assert !Clash(fs, src, p);
    UpdateUnion(fs, Copies(fs, src, seen), t, fs[p]);
    assert cur[t := fs[p]] == fs + Copies(fs, src, seen + {p});
  }

  /** A kept entry whose target clashes makes the whole copy fail. */
  lemma StepClash(fs: FS, src: Path, order: seq<Path>, i: nat, pruned: set<Path>, cur: FS)
    requires IsDir(fs, Scratch(src)) && i < |order| && Visitable(fs, src, order, i)
    requires WalkInv(fs, src, order, i, pruned, cur)
    requires !(|order[i]| > |src| && Parent(order[i]) in pruned)
    requires !SkipEntry(fs, order[i])
    requires Target(src, order[i]) in cur && cur[Target(src, order[i])].Dir? != fs[order[i]].Dir?
    ensures CopySource(fs, src) == Err(ClashMsg)
  {
    var p := order[i];
    ParentKept(fs, src, order, i, pruned, cur);
    CopiesGrow(fs, src, Seen(order, i), p);
    assert Clash(fs, src, p);
  }

  lemma WalkStart(fs: FS, src: Path, order: seq<Path>)
    ensures WalkInv(fs, src, order, 0, {}, fs)
  {
    assert Seen(order, 0) == {};
    assert Copies(fs, src, {}) == map[];
    assert fs + map[] == fs;
  }

  /** Once every entry is visited the scratch directory holds the declarative copy. */
  lemma WalkFinished(fs: FS, src: Path, order: seq<Path>, pruned: set<Path>, cur: FS)
    requires IsDir(fs, Scratch(src)) && WalkOrder(fs, src, order)
    requires WalkInv(fs, src, order, |order|, pruned, cur)
    ensures CopySource(fs, src) == Ok(cur)
  {
    assert forall p | p in fs && Under(p, src) :: p in Seen(order, |order|);
    CopiesSameRange(fs, src, Seen(order, |order|), fs.Keys);
  }

  /** The walk's state between callbacks: the directories it does not enter, the
      filesystem written so far, and whether a callback has stopped it. */
  datatype Walk = Walk(pruned: set<Path>, cur: FS, stopped: bool)

  /** One call of the walk callback on `p`: an entry below a directory the walk does
      not enter is passed over, a skipped directory is not entered, and a kept entry
      is written at its target unless that clashes, which stops the walk. */
  function Visit(fs: FS, src: Path, p: Path, w: Walk): Walk
    requires Under(p, src) && p in fs
  {
    if w.stopped then w
    else if (|p| > |src| && Parent(p) in w.pruned) || ShouldSkip(Name(p), IsDir(fs, p)) then
      w.(pruned := if IsDir(fs, p) then w.pruned + {p} else w.pruned)
    else
      var t := Target(src, p);
      if t in w.cur && w.cur[t].Dir? != fs[p].Dir? then w.(stopped := true)
      else w.(cur := w.cur[t := fs[p]])
  }

  /** The state after the callbacks on `order[..i]`. */
  function WalkPrefix(fs: FS, src: Path, order: seq<Path>, i: nat): Walk
    requires i <= |order| && Listed(fs, src, order)
  {
    if i == 0 then Walk({}, fs, false)
    else Visit(fs, src, order[i - 1], WalkPrefix(fs, src, order, i - 1))
  }

  /** A walk state after `i` callbacks is sound: either it satisfies the walk
      invariant, or it has stopped on a clash that makes the declarative copy fail. */
  ghost predicate Sound(fs: FS, src: Path, order: seq<Path>, i: nat, w: Walk)
    requires IsDir(fs, Scratch(src)) && i <= |order|
  {
    && (w.stopped ==> CopySource(fs, src) == Err(ClashMsg))
    && (!w.stopped ==> WalkInv(fs, src, order, i, w.pruned, w.cur))
  }

  /** One callback keeps the walk sound. */
  lemma VisitSound(fs: FS, src: Path, order: seq<Path>, i: nat, w: Walk)
    requires IsDir(fs, Scratch(src)) && i < |order| && Visitable(fs, src, order, i)
    requires Sound(fs, src, order, i, w)
    ensures Sound(fs, src, order, i + 1, Visit(fs, src, order[i], w))
  {
    var p := order[i];
    if !w.stopped {
      if |p| > |src| && Parent(p) in w.pruned {
        StepPruned(fs, src, order, i, w.pruned, w.cur);
      } else if ShouldSkip(Name(p), IsDir(fs, p)) {
        StepSkipped(fs, src, order, i, w.pruned, w.cur);
      } else if Target(src, p) in w.cur && w.cur[Target(src, p)].Dir? != fs[p].Dir? {
        StepClash(fs, src, order, i, w.pruned, w.cur);
      } else {
        StepCopied(fs, src, order, i, w.pruned, w.cur);
      }
    }
  }

  /** Every state the walk reaches is sound. */
  lemma {:induction false} WalkPrefixSound(fs: FS, src: Path, order: seq<Path>, i: nat)
    requires IsDir(fs, Scratch(src)) && WalkOrder(fs, src, order) && i <= |order|
    ensures Sound(fs, src, order, i, WalkPrefix(fs, src, order, i))
  {
    if i == 0 {
      WalkStart(fs, src, order);
    } else {
      WalkPrefixSound(fs, src, order, i - 1);
      assert Visitable(fs, src, order, i - 1);
      VisitSound(fs, src, order, i - 1, WalkPrefix(fs, src, order, i - 1));
    }
  }

  /** copySource as `filepath.Walk` performs it, one callback per listed entry and the
      first error ending the walk: any walk order gives the declarative result. */
  function WalkCopy(fs: FS, src: Path, order: seq<Path>): (r: Result<FS>)
    requires IsDir(fs, Scratch(src)) && WalkOrder(fs, src, order)
    ensures r == CopySource(fs, src)
  {
    var w := WalkPrefix(fs, src, order, |order|);
    WalkPrefixSound(fs, src, order, |order|);
    if w.stopped then Err(ClashMsg)
    else
      WalkFinished(fs, src, order, w.pruned, w.cur);
      Ok(w.cur)
  }
}
