/** `DestroyRecursive`: filesystems through the cached tree, same-named snapshots through the
    live pool. */
module RecursiveDestroy {
  import opened Pools
  import opened Decimal
  import opened Handles
  import opened Trees
  import opened Backend
  import opened Opening
  import opened CloneSearch
  import opened CloneLists
  import opened HandOver
  import opened Destroying
  import opened KidSteps
  import opened Chains
  import opened Stops

  /** How far the recursion can still go through the cached tree. */
  ghost function Height(d: Dataset): nat {
    if d.name.Fs? then Size(d) else 0
  }

  lemma {:induction false} KidIsLower(ks: seq<Dataset>, k: Dataset)
    requires k in ks
    ensures Size(k) <= SizeAll(ks)
    decreases |ks|
  {
    if k != ks[0] {
      KidIsLower(ks[1..], k);
    }
  }

  /** No dataset is a clone of a snapshot called `s` on a chain below `x`. */
  ghost predicate Unneeded(p: Pool, x: Path, s: string) {
    forall g | g in p.snaps && p.snaps[g].name == s && InChain(p, x, p.snaps[g].owner, s) :: !HasClone(p, g)
  }

  lemma ChainCut(p: Pool, q: Pool, x: Path, s: string, w: set<Path>, e: Path, o: Path)
    requires CutWithin(p, q, x, s, w) && x <= e && |e| == |x| + 1 && SnapExists(q, e, s) && InChain(q, e, o, s)
    ensures InChain(p, x, o, s)
  {
    hide SnapExists;
    forall n | |x| < n <= |o|
      ensures SnapExists(p, o[..n], s)
    {
      CarriesKept(p, q, x, s, w, o[..n]);
      assert n == |e| ==> o[..n] == e;
    }
  }

  /** A part of a chain is no more needed than the whole. */
  lemma UnneededChild(p: Pool, q: Pool, x: Path, s: string, w: set<Path>, e: Path)
    requires CutWithin(p, q, x, s, w) && Unneeded(p, x, s) && x <= e && |e| == |x| + 1 && SnapExists(q, e, s)
    ensures Unneeded(q, e, s)
  {
    hide SnapExists, InChain;
    forall g | g in q.snaps && q.snaps[g].name == s && InChain(q, e, q.snaps[g].owner, s)
      ensures !HasClone(q, g)
    {
      ChainCut(p, q, x, s, w, e, q.snaps[g].owner);
      assert !HasClone(p, g);
    }
  }

  lemma UnneededSelf(p: Pool, q: Pool, x: Path, s: string, w: set<Path>)
    requires CutWithin(p, q, x, s, w) && Unneeded(p, x, s)
    ensures CanDestroy(q, Snap(x, s))
  {
    hide SnapExists;
    assert InChain(p, x, x, s);
    forall f | f in q.fs && q.fs[f].origin.Some?
      ensures HasClone(p, q.fs[f].origin.value)
    {
    }
  }

  lemma NoSubtree(p: Pool, e: Path)
    requires Rooted(p) && e != [] && e !in p.fs
    ensures Sub(p, e) == {}
  {
    hide Rooted;
    forall f | f in p.fs
      ensures !(e <= f)
    {
      if e <= f {
        assert f[..|e|] == e;
        PrefixExists(p, f, |e|);
      }
    }
  }

  lemma OpenedSnapOwner(p: Pool, q: Pool, x: Path, s: string, w: set<Path>, e: Path)
    requires CutWithin(p, q, x, s, w) && OwnersExist(p) && SnapExists(q, e, s)
    ensures e in p.fs
  {
    CarriesKept(p, q, x, s, w, e);
  }

  lemma SubShrinks(p: Pool, x: Path, e: Path)
    requires x in p.fs && x <= e && |e| == |x| + 1
    ensures |Sub(p, e)| < |Sub(p, x)|
  {
    assert x in Sub(p, x) && x !in Sub(p, e);
    assert Sub(p, e) <= Sub(p, x) - {x};
    SubsetSize(Sub(p, e), Sub(p, x) - {x});
  }

  /** What a child of the live parent is known to be. */
  ghost predicate LiveChild(p: Pool, x: Path, w: set<Path>, c: Dataset) {
    c.name.Fs? ==> |c.name.path| == |x| + 1 && x <= c.name.path && w !! Sub(p, c.name.path)
  }

  ghost function Gain(p: Pool, c: Dataset): set<Path> {
    if c.name.Fs? then Sub(p, c.name.path) else {}
  }

  /** One round of the loop over the live children: snapshots are skipped, and so are filesystems
      whose snapshot cannot be opened. */
  method BelowChild(z: Zfs, c: Dataset, x: Path, s: string, ghost p: Pool, ghost w: set<Path>)
    returns (ok: bool, ghost stop: Stop)
    requires z.Valid() && WF(p) && x in p.fs && LiveChild(p, x, w, c) && CutWithin(p, z.pool, x, s, w)
    modifies z
    ensures z.Valid() && old(z.trace) <= z.trace
    ensures old(z.Steady()) ==> z.Steady()
    ensures old(z.Calm()) ==> z.Calm()
    ensures CutWithin(p, z.pool, x, s, w + Gain(p, c))
    ensures old(z.Calm()) && ok && CutAll(p, old(z.pool), x, s, w) ==> CutAll(p, z.pool, x, s, w + Gain(p, c))
    ensures old(z.Calm()) && Unneeded(p, x, s) ==> ok
    ensures !ok ==> c.name.Fs? && forall g | g in old(z.pool).snaps && g !in z.pool.snaps ::
      SnapLost(old(z.pool), Snap(c.name.path, s), [], stop, g)
    decreases 0, |Sub(p, x)|, 0
  {
    hide Stopped;
    stop := AtStart;
    hide WF, Reflects, Opened, Shaped, Unshared, History, CutWithin, CutAll, Unneeded, SnapExists, Rooted;
    hide OwnersExist, Sub, Onces, Repr, Bound, NodesOf, AllGuard, Wired, Shrunk, NoneBelow, Superset, CloneFree;
    ok := true;
    if c.name.Snap? {
      assert w + {} == w;
      return;
    }
    var e := c.name.path;
    PoolFacts(p);
    ghost var q := z.pool;
    var child, found := DatasetOpen(z, Snap(e, s));
    if !found {
      SkipChild(p, q, x, s, w, e);
      return;
    }
    OpenedSnapOwner(p, q, x, s, w, e);
    SubShrinks(p, x, e);
    SameSub(p, q, x, s, w, e);
    CutKeepsFs(p, q, x, s, w);
    if Unneeded(p, x, s) {
      UnneededChild(p, q, x, s, w, e);
    }
    OpenedGuards(child);
    ZfsApart(z, child);
    ghost var u := Onces(child);
    ghost var child0 := child;
    var res;
    SnapHasNoKids(child);
    child, res, stop := DestroyRecursive(z, child, u);
    CutChild(p, q, z.pool, x, s, w, e);
    SubBound(child0, child, u);
    ZfsApart(z, child);
    child := Close(child, u);
    ok := res == Ok;
    if !ok {
      StoppedSnaps(q, z.pool, child0, stop);
    }
  }

  lemma StoppedSnaps(q: Pool, s: Pool, d: Dataset, stop: Stop)
    requires Stopped(q, s, d, stop)
    ensures forall g | g in q.snaps && g !in s.snaps :: SnapLost(q, d.name, d.kids, stop, g)
  {
    hide SnapLost;
  }

  lemma PoolFacts(p: Pool)
    requires WF(p)
    ensures Rooted(p) && OwnersExist(p) && forall f | f in p.fs :: f != []
  {
  }

  lemma SameSub(p: Pool, q: Pool, x: Path, s: string, w: set<Path>, e: Path)
    requires CutWithin(p, q, x, s, w)
    ensures Sub(q, e) == Sub(p, e)
  {
  }

  lemma SkipChild(p: Pool, q: Pool, x: Path, s: string, w: set<Path>, e: Path)
    requires Rooted(p) && CutWithin(p, q, x, s, w) && x in p.fs && |e| == |x| + 1 && x <= e && w !! Sub(p, e)
    ensures CutWithin(p, q, x, s, w + Sub(p, e))
    ensures CutAll(p, q, x, s, w) && !SnapExists(q, e, s) ==> CutAll(p, q, x, s, w + Sub(p, e))
  {
    hide SnapExists, CutWithin, CutAll;
    if e in p.fs {
      CutSkip(p, q, x, s, w, e);
    } else {
      NoSubtree(p, e);
      assert w + {} == w;
    }
  }

  lemma CutWiden(p: Pool, q: Pool, x: Path, s: string, w: set<Path>, w': set<Path>)
    requires CutWithin(p, q, x, s, w) && w <= w'
    ensures CutWithin(p, q, x, s, w')
  {
    hide InChain;
  }

  lemma LiveChildren(p: Pool, x: Path, parent: Dataset, i: nat)
    requires x in p.fs && parent.name == Fs(x) && Shaped(parent) && i < |parent.kids|
    ensures LiveChild(p, x, Covered(p, x, parent.kids[..i]) - {x}, parent.kids[i])
    ensures Covered(p, x, parent.kids[..i + 1]) - {x}
        == (Covered(p, x, parent.kids[..i]) - {x}) + Gain(p, parent.kids[i])
    ensures Covered(p, x, parent.kids) <= Sub(p, x) && Covered(p, x, parent.kids[..i + 1]) <= Covered(p, x, parent.kids)
  {
    hide Covered;
    KidsAreChildren(parent);
    var k := parent.kids[i];
    assert k in parent.kids;
    CoveredIs(p, x, parent.kids);
    CoveredIs(p, x, parent.kids[..i + 1]);
    if k.name.Fs? {
      CoveredApart(p, x, parent.kids, i);
    }
    CoveredOne(p, x, parent.kids, i);
    assert x !in Gain(p, k);
  }

  lemma CoveredOne(p: Pool, x: Path, ks: seq<Dataset>, i: nat)
    requires i < |ks|
    ensures Covered(p, x, ks[..i + 1]) == Covered(p, x, ks[..i]) + Gain(p, ks[i])
    ensures Covered(p, x, ks[..0]) == {x}
  {
    assert ks[..i + 1][..i] == ks[..i];
  }

  /** The snapshot branch up to its last step: the same-named snapshots of the live children. */
  method DestroyBelow(z: Zfs, x: Path, s: string, ghost d: Dataset) returns (ok: bool, ghost stop: Stop)
    requires z.Valid() && x != [] && d.name == Snap(x, s)
    modifies z
    ensures z.Valid() && old(z.trace) <= z.trace
    ensures old(z.Steady()) ==> z.Steady()
    ensures old(z.Calm()) ==> z.Calm()
    ensures CutWithin(old(z.pool), z.pool, x, s, Sub(old(z.pool), x) - {x})
    ensures old(z.Calm()) && ok ==> CutAll(old(z.pool), z.pool, x, s, Sub(old(z.pool), x) - {x})
    ensures old(z.Calm()) && x in old(z.pool).fs && Unneeded(old(z.pool), x, s) ==> ok
    ensures ok ==> x in old(z.pool).fs
    ensures !ok ==> Stopped(old(z.pool), z.pool, d, stop)
    decreases 0, |Sub(z.pool, x)|, 1
  {
    hide WF, Reflects, Opened, Shaped, Unshared, History, CutWithin, CutAll, Unneeded, Covered, Sub, LiveChild, Gain;
    ghost var p := z.pool;
    z.PoolIsWF();
    z.CalmIsSteady();
    CutNone(p, x, s);
    stop := AtStart;
    NoneDone(p, d, d.kids);
    hide Stopped, Stops.SnapLost, FsBefore;
    var parent;
    parent, ok := DatasetOpen(z, Fs(x));
    if !ok {
      CutWiden(p, p, x, s, {}, Sub(p, x) - {x});
      return;
    }
    ghost var all := parent.kids;
    AllLiveChildren(p, x, parent);
    var i := 0;
    while i < |parent.kids|
      invariant 0 <= i <= |parent.kids|
      invariant z.Valid() && old(z.trace) <= z.trace && ok
      invariant old(z.Steady()) ==> z.Steady()
      invariant old(z.Calm()) ==> z.Calm()
      invariant Opened(parent)
      invariant CutWithin(p, z.pool, x, s, Covered(p, x, all[..i]) - {x})
      invariant old(z.Calm()) ==> CutAll(p, z.pool, x, s, Covered(p, x, all[..i]) - {x})
    {
      HandlesAllocated(parent);
      LiveChildren(p, x, parent, i);
      ghost var q := z.pool;
      ghost var below;
      ok, below := BelowChild(z, parent.kids[i], x, s, p, Covered(p, x, all[..i]) - {x});
      i := i + 1;
      if !ok {
        stop := AtLive(parent, i - 1, below);
        CutStopped(p, q, z.pool, d, parent, i - 1, below);
        CutWiden(p, z.pool, x, s, Covered(p, x, all[..i]) - {x}, Sub(p, x) - {x});
        break;
      }
    }
    if ok {
      assert all[..i] == all;
      CutWiden(p, z.pool, x, s, Covered(p, x, all) - {x}, Sub(p, x) - {x});
      if old(z.Calm()) {
        CoveredAll(p, x, parent);
      }
    }
    parent := CloseTree(parent);
  }

  /** The loop over the live children stopped at number `i`. */
  lemma CutStopped(p: Pool, q: Pool, s: Pool, d: Dataset, tree: Dataset, i: nat, below: Stop)
    requires d.name.Snap? && d.name.path in p.fs && tree.name == Fs(d.name.path) && Shaped(tree) && i < |tree.kids|
    requires tree.kids[i].name.Fs?
    requires CutWithin(p, q, d.name.path, d.name.snap, Covered(p, d.name.path, tree.kids[..i]) - {d.name.path})
    requires CutWithin(p, s, d.name.path, d.name.snap,
                       (Covered(p, d.name.path, tree.kids[..i]) - {d.name.path}) + Gain(p, tree.kids[i]))
    requires forall g | g in q.snaps && g !in s.snaps ::
      SnapLost(q, Snap(tree.kids[i].name.path, d.name.snap), [], below, g)
    ensures Stopped(p, s, d, AtLive(tree, i, below))
  {
    hide InChain, Covered, Stops.SnapLost, Stopped, Shaped, FsBefore;
    var x := d.name.path;
    KidsAreChildren(tree);
    forall g | g in p.snaps && g !in q.snaps
      ensures FsBefore(tree.kids, i, p.snaps[g].owner)
    {
      var j := CoveredBy(p, x, tree.kids, i, p.snaps[g].owner);
      FsBeforeIs(tree.kids, i, j, p.snaps[g].owner);
    }
    StoppedAtLive(p, q, s, d, tree, i, below);
  }

  lemma FsBeforeIs(kids: seq<Dataset>, n: nat, j: nat, f: Path)
    requires j < n && j < |kids| && kids[j].name.Fs? && kids[j].name.path <= f
    ensures FsBefore(kids, n, f)
  {
  }

  lemma AllLiveChildren(p: Pool, x: Path, parent: Dataset)
    requires x in p.fs && parent.name == Fs(x) && Shaped(parent)
    ensures Covered(p, x, parent.kids[..0]) - {x} == {}
    ensures Covered(p, x, parent.kids) <= Sub(p, x)
  {
    KidsAreChildren(parent);
    CoveredIs(p, x, parent.kids);
    assert parent.kids[..0] == [];
  }

  // ----- the filesystem branch -----

  /** The cached tree lists everything the pool has below the struct; its filesystems exist. */
  ghost predicate Superset(p: Pool, d: Dataset) {
    && ChildNames(p, d.name) <= KidNames(d.kids)
    && (d.name.Fs? ==> d.name.path in p.fs)
    && forall k | k in d.kids :: Superset(p, k)
  }

  lemma {:induction false} ReflectsIsSuperset(p: Pool, d: Dataset)
    requires Reflects(p, d)
    ensures Superset(p, d)
    decreases d
  {
    hide Cached;
    ReflectsExists(p, d);
    forall k | k in d.kids
      ensures Superset(p, k)
    {
      ReflectsIsSuperset(p, k);
    }
  }

  lemma ChildrenShrink(p: Pool, q: Pool, x: Path, n: Name)
    requires Shrunk(p, q, x)
    ensures ChildNames(q, n) <= ChildNames(p, n)
  {
  }

  /** A tree whose filesystems all stayed still lists everything. */
  lemma {:induction false} SupersetKept(p: Pool, q: Pool, x: Path, d: Dataset)
    requires Superset(p, d) && Shaped(d) && Shrunk(p, q, x)
    requires forall f | f in p.fs && d.name.path <= f :: f in q.fs
    ensures Superset(q, d)
    decreases d
  {
    hide ChildNames, Shrunk, ParseInt;
    ChildrenShrink(p, q, x, d.name);
    forall k | k in d.kids
      ensures Superset(q, k)
    {
      ShapedChild(d, k);
      SupersetKept(p, q, x, k);
    }
  }

  /** No snapshot at or below `x` has a clone. */
  ghost predicate CloneFree(p: Pool, x: Path) {
    forall g | g in p.snaps && x <= p.snaps[g].owner :: !HasClone(p, g)
  }

  lemma CloneFreeKept(p: Pool, q: Pool, x: Path, y: Path)
    requires CloneFree(p, x) && Shrunk(p, q, y)
    ensures CloneFree(q, x)
  {
    forall g | g in q.snaps && x <= q.snaps[g].owner
      ensures !HasClone(q, g)
    {
      assert !HasClone(p, g);
    }
  }

  lemma CloneFreeBelow(p: Pool, x: Path, y: Path, s: string)
    requires CloneFree(p, x) && x <= y
    ensures CloneFree(p, y) && Unneeded(p, y, s)
  {
    hide HasClone, SnapExists;
  }

  /** What is known between two children. */
  ghost predicate FsBetween(p: Pool, q: Pool, d: Dataset, i: nat)
    requires i <= |d.kids|
  {
    Shrunk(p, q, d.name.path) && forall j | 0 <= j < i && d.kids[j].name.Fs? :: NoneBelow(q, d.kids[j].name.path)
  }

  /** What is known besides if no foreign call fails and nothing below is cloned. */
  ghost predicate FsBetweenCalm(q: Pool, d: Dataset, i: nat)
    requires i <= |d.kids|
  {
    var x := d.name.path;
    && x in q.fs && CloneFree(q, x)
    && ChildNames(q, d.name) <= KidNames(d.kids)
    && (forall j | i <= j < |d.kids| :: Superset(q, d.kids[j]))
    && (forall j | 0 <= j < i && d.kids[j].name.Snap? :: !SnapExists(q, x, d.kids[j].name.snap))
  }

  lemma FsStart(p: Pool, d: Dataset)
    ensures FsBetween(p, p, d, 0)
    ensures d.name.Fs? && Superset(p, d) && CloneFree(p, d.name.path) ==> FsBetweenCalm(p, d, 0)
  {
    ShrunkSame(p, d.name.path);
  }

  /** After any child: nothing outside was touched, and what was gone stays gone. */
  lemma FsStep(p: Pool, q: Pool, s: Pool, d: Dataset, i: nat)
    requires i < |d.kids| && Shaped(d) && FsBetween(p, q, d, i) && Shrunk(q, s, d.kids[i].name.path)
    requires d.kids[i].name.Fs? ==> NoneBelow(s, d.kids[i].name.path)
    ensures FsBetween(p, s, d, i + 1)
  {
    hide Shrunk, ParseInt;
    ShapedChild(d, d.kids[i]);
    ShrunkThen(p, q, s, d.name.path, d.kids[i].name.path);
    ShrunkFs(q, s, d.kids[i].name.path);
  }

  lemma ShrunkFs(q: Pool, s: Pool, y: Path)
    requires Shrunk(q, s, y)
    ensures s.fs.Keys <= q.fs.Keys && forall f | f in q.fs && !(y <= f) :: f in s.fs
  {
  }

  lemma FsStepFailed(p: Pool, q: Pool, s: Pool, d: Dataset, i: nat)
    requires i < |d.kids| && Shaped(d) && FsBetween(p, q, d, i) && Shrunk(q, s, d.kids[i].name.path)
    ensures Shrunk(p, s, d.name.path)
  {
    hide Shrunk, ParseInt;
    ShapedChild(d, d.kids[i]);
    ShrunkThen(p, q, s, d.name.path, d.kids[i].name.path);
  }

  lemma FsStepCalm(q: Pool, s: Pool, d: Dataset, i: nat)
    requires i < |d.kids| && d.name.Fs? && Shaped(d) && FsBetweenCalm(q, d, i) && Shrunk(q, s, d.kids[i].name.path)
    requires d.kids[i].name.Snap? ==> s.fs == q.fs && !SnapExists(s, d.name.path, d.kids[i].name.snap)
    ensures FsBetweenCalm(s, d, i + 1)
  {
    hide ChildNames, ParseInt, CloneFree, Superset, Shrunk, Shaped;
    var x, y := d.name.path, d.kids[i].name.path;
    KidsAreChildren(d);
    ChildrenShrink(q, s, y, d.name);
    CloneFreeKept(q, s, x, y);
    ShrunkFs(q, s, y);
    forall j | i + 1 <= j < |d.kids|
      ensures Superset(s, d.kids[j])
    {
      ShapedChild(d, d.kids[j]);
      if d.kids[j].name.Snap? {
        SnapSuperset(s, d.kids[j]);
      } else {
        if d.kids[i].name.Fs? {
          SiblingApart(q, d, i, j);
        }
        SupersetKept(q, s, y, d.kids[j]);
      }
    }
    forall j | 0 <= j < i && d.kids[j].name.Snap?
      ensures !SnapExists(s, x, d.kids[j].name.snap)
    {
      AbsentStays(q, s, y, x, d.kids[j].name.snap);
    }
  }

  lemma AbsentStays(q: Pool, s: Pool, y: Path, x: Path, n: string)
    requires Shrunk(q, s, y) && !SnapExists(q, x, n)
    ensures !SnapExists(s, x, n)
  {
    assert forall g | g in s.snaps :: IsSnap(s, x, n, g) ==> IsSnap(q, x, n, g);
  }

  lemma SiblingApart(p: Pool, d: Dataset, i: nat, j: nat)
    requires Shaped(d) && i < j < |d.kids| && d.kids[i].name.Fs? && d.kids[j].name.Fs?
    ensures forall f | f in p.fs && d.kids[j].name.path <= f :: !(d.kids[i].name.path <= f)
  {
    hide ParseInt;
    KidsAreChildren(d);
    assert d.kids[i] in d.kids && d.kids[j] in d.kids;
    var a, b := d.kids[i].name.path, d.kids[j].name.path;
    assert a != b && |a| == |b|;
    forall f | f in p.fs && b <= f
      ensures !(a <= f)
    {
      assert f[..|b|] == b;
    }
  }

  lemma SnapSuperset(p: Pool, k: Dataset)
    requires Shaped(k) && k.name.Snap?
    ensures Superset(p, k)
  {
    hide ParseInt;
    SnapHasNoKids(k);
  }

  /** With all children gone the filesystem can go too. */
  lemma FsEnd(p: Pool, q: Pool, d: Dataset)
    requires d.name.Fs? && Rooted(q) && FsBetween(p, q, d, |d.kids|) && FsBetweenCalm(q, d, |d.kids|)
    requires |d.name.path| > 1
    ensures CanDestroy(q, d.name)
  {
    hide Shrunk, CloneFree, Superset, Rooted;
    var x := d.name.path;
    forall f | f in q.fs
      ensures !(x < f)
    {
      if x < f {
        PrefixExists(q, f, |x| + 1);
        ChildGone(p, q, d, f[..|x| + 1]);
      }
    }
    forall g | g in q.snaps
      ensures q.snaps[g].owner != x
    {
      SnapGone(q, d, g);
    }
  }

  lemma ChildGone(p: Pool, q: Pool, d: Dataset, y: Path)
    requires d.name.Fs? && FsBetween(p, q, d, |d.kids|) && FsBetweenCalm(q, d, |d.kids|)
    requires |y| == |d.name.path| + 1 && d.name.path < y
    ensures y !in q.fs
  {
    hide Shrunk, CloneFree, Superset;
    if Fs(y) in KidNames(d.kids) {
      var j :| 0 <= j < |d.kids| && d.kids[j].name == Fs(y);
      assert NoneBelow(q, y);
    }
  }

  lemma SnapGone(q: Pool, d: Dataset, g: Guid)
    requires d.name.Fs? && FsBetweenCalm(q, d, |d.kids|) && g in q.snaps
    ensures q.snaps[g].owner != d.name.path
  {
    hide CloneFree, Superset;
    var n := Snap(d.name.path, q.snaps[g].name);
    if n in KidNames(d.kids) {
      var j :| 0 <= j < |d.kids| && d.kids[j].name == n;
      assert !SnapExists(q, d.name.path, n.snap);
    }
  }

  // ----- the handles -----

  lemma KidsApart(d: Dataset, u: set<Once>, i: nat)
    requires Unshared(d) && AllGuard(u) && Onces(d) <= u && i < |d.kids| && Wired(d)
    ensures Onces(d.kids[i]) <= u && Unshared(d.kids[i]) && Own(d) !! Onces(d.kids[i])
    ensures d.list !in Repr(d.kids[i]) && d.closeOnce !in Repr(d.kids[i])
    ensures forall j, o | i < j < |d.kids| && o in Onces(d.kids[j]) :: o !in Repr(d.kids[i])
    ensures forall j, n | i < j < |d.kids| && n in NodesOf(Onces(d.kids[j])) :: n !in Repr(d.kids[i])
    ensures Repr(d.kids[i]) <= Repr(d)
  {
    hide Onces;
    var k := d.kids[i];
    assert k in d.kids;
    OncesOfKid(d, k);
    assert Own(d) <= u by {
      OwnOnces(d);
    }
    assert d.closeOnce in u && d.closeOnce.node.once == d.closeOnce;
    assert forall o | o in Onces(k) :: o.node.once == o;
    forall j | i < j < |d.kids|
      ensures Repr(k) !! Repr(d.kids[j])
    {
      OncesOfKid(d, d.kids[j]);
      ReprApart(k, d.kids[j]);
    }
  }

  lemma AllOncesOfKids(d: Dataset)
    ensures forall k | k in d.kids :: Onces(k) <= Onces(d)
  {
  }

  lemma ZfsApart(z: Zfs, k: Dataset)
    ensures z !in Repr(k)
  {
  }

  lemma OpenedGuards(d: Dataset)
    requires Opened(d)
    ensures AllGuard(Onces(d)) && Wired(d)
  {
    hide Onces;
  }

  lemma OwnOnces(d: Dataset)
    ensures Own(d) <= Onces(d)
    ensures d.kids == [] ==> Onces(d) == Own(d)
  {
  }

  lemma AllKidsOpened(d: Dataset)
    requires Opened(d)
    ensures forall k | k in d.kids :: Opened(k)
    ensures Wired(d) && d.list != null && d.list.zh == Some(d.name)
  {
    forall k | k in d.kids
      ensures Opened(k)
    {
      KidOpened(d, k);
    }
  }

  /** After a call on a child and the closing of what it returned, all its handles are closed. */
  lemma KidClosed(k: Dataset, k': Dataset)
    requires k' == k || k' == k.(kids := [])
    requires forall o | o in Onces(k') :: o.done
    requires k' != k ==> forall c, o | c in k.kids && o in Onces(c) :: o.done
    ensures forall o | o in Onces(k) :: o.done
  {
  }

  lemma SubBound(k: Dataset, k': Dataset, u: set<Once>)
    requires Wired(k) && Onces(k) <= u && (k' == k || k' == k.(kids := []))
    ensures Bound(k') && Onces(k') <= u && Repr(k') <= Repr(k)
  {
  }

  /** The loop over the cached children: destroy each, then close it. */
  method DestroyEach(z: Zfs, d: Dataset, ghost u: set<Once>) returns (res: Outcome, ghost stop: Stop)
    requires z.Valid() && Opened(d) && Shaped(d) && Unshared(d) && d.name.Fs? && d.name.path != []
    requires Onces(d) <= u && AllGuard(u)
    modifies z, Repr(d)
    ensures z.Valid() && old(z.trace) <= z.trace && res != Blocked
    ensures old(z.Steady()) ==> z.Steady()
    ensures old(z.Calm()) ==> z.Calm()
    ensures Shrunk(old(z.pool), z.pool, d.name.path)
    ensures res == Ok ==> FsBetween(old(z.pool), z.pool, d, |d.kids|)
    ensures old(z.Calm()) && FsBetweenCalm(old(z.pool), d, 0) ==> res == Ok && FsBetweenCalm(z.pool, d, |d.kids|)
    ensures AllGuard(u) && forall o | o in u :: old(o.done) ==> o.done
    ensures forall o | o in u && (o !in Onces(d) || o in Own(d)) :: o.done == old(o.done)
    ensures res == Ok ==> forall k, o | k in d.kids && o in Onces(k) :: o.done
    ensures d.list != null && d.list.zh == Some(d.name)
    ensures if res == Ok then DoneBefore(old(z.pool), z.pool, d.kids, |d.kids|) && stop == AtSelf
            else Stopped(old(z.pool), z.pool, d, stop) && stop.AtKid?
    ensures res != Ok ==> forall o | o in u :: o.done == (old(o.done) || o in ClosedBy(d.kids, stop))
    decreases Height(d), 0, 1
  {
    hide WF, Opened, Shaped, Unshared, History, Shrunk, FsBetween, FsBetweenCalm, Onces, Repr, Sub, Superset;
    hide DoneBefore, Stopped, ClosedBy;
    ghost var p := z.pool;
    stop := AtSelf;
    NoneDone(p, d, d.kids);
    FsStart(p, d);
    AllKidsOpened(d);
    AllOncesOfKids(d);
    ZfsApart(z, d);
    res := Ok;
    var i := 0;
    while i < |d.kids|
      invariant 0 <= i <= |d.kids|
      invariant z.Valid() && old(z.trace) <= z.trace && res == Ok
      invariant old(z.Steady()) ==> z.Steady()
      invariant old(z.Calm()) ==> z.Calm()
      invariant FsBetween(p, z.pool, d, i)
      invariant old(z.Calm()) && FsBetweenCalm(p, d, 0) ==> FsBetweenCalm(z.pool, d, i)
      invariant AllGuard(u) && forall o | o in u :: old(o.done) ==> o.done
      invariant forall o | o in u && (o !in Onces(d) || o in Own(d)) :: o.done == old(o.done)
      invariant forall j, o | 0 <= j < i && o in Onces(d.kids[j]) :: o.done
      invariant forall j | i <= j < |d.kids| :: Opened(d.kids[j])
      invariant d.list != null && d.list.zh == Some(d.name)
      invariant DoneBefore(p, z.pool, d.kids, i)
      invariant forall o | o in u && !InFirst(d.kids, i, o) :: o.done == old(o.done)
    {
      KidsApart(d, u, i);
      forall j | i <= j < |d.kids| {
        HandlesAllocated(d.kids[j]);
      }
      ghost var below;
      res, below := EachKid(z, d, i, u, p);
      if res != Ok {
        stop := AtKid(i, below);
        ClosedAtKid(d.kids, i, below);
        return;
      }
      i := i + 1;
    }
    BetweenShrunk(p, z.pool, d);
  }

  /** The guard belongs to one of the first `n` children. */
  ghost predicate InFirst(kids: seq<Dataset>, n: nat, o: Once) {
    exists j | 0 <= j < n && j < |kids| :: o in Onces(kids[j])
  }

  lemma ClosedAtKid(kids: seq<Dataset>, i: nat, below: Stop)
    requires i < |kids|
    ensures forall o :: o in ClosedBy(kids, AtKid(i, below)) <==>
      InFirst(kids, i, o) || (kids[i].name.Fs? && o in ClosedBy(kids[i].kids, below))
  {
    hide Onces;
  }

  lemma BetweenShrunk(p: Pool, q: Pool, d: Dataset)
    requires FsBetween(p, q, d, |d.kids|)
    ensures Shrunk(p, q, d.name.path)
  {
    hide Shrunk;
  }

  lemma CutKeepsFs(p: Pool, q: Pool, x: Path, s: string, w: set<Path>)
    requires CutWithin(p, q, x, s, w)
    ensures q.fs == p.fs
  {
    hide InChain;
  }

  /** One round of that loop. */
  method EachKid(z: Zfs, d: Dataset, i: nat, ghost u: set<Once>, ghost p: Pool)
    returns (res: Outcome, ghost below: Stop)
    requires i < |d.kids|
    requires z.Valid() && Shaped(d) && Unshared(d) && Wired(d) && d.name.Fs? && d.name.path != []
    requires Onces(d) <= u && AllGuard(u) && (forall j | i <= j < |d.kids| :: Opened(d.kids[j]))
    requires FsBetween(p, z.pool, d, i) && DoneBefore(p, z.pool, d.kids, i)
    modifies z, Repr(d.kids[i])
    ensures z.Valid() && old(z.trace) <= z.trace && res != Blocked
    ensures old(z.Steady()) ==> z.Steady()
    ensures old(z.Calm()) ==> z.Calm()
    ensures Shrunk(p, z.pool, d.name.path)
    ensures res == Ok ==> FsBetween(p, z.pool, d, i + 1)
    ensures old(z.Calm()) && FsBetweenCalm(old(z.pool), d, i) ==> res == Ok && FsBetweenCalm(z.pool, d, i + 1)
    ensures AllGuard(u) && forall o | o in u :: old(o.done) ==> o.done
    ensures forall o | o in u && o !in Onces(d.kids[i]) :: o.done == old(o.done)
    ensures res == Ok ==> forall o | o in Onces(d.kids[i]) :: o.done
    ensures if res == Ok then DoneBefore(p, z.pool, d.kids, i + 1) else Stopped(p, z.pool, d, AtKid(i, below))
    ensures res != Ok ==> forall o | o in u ::
      o.done == (old(o.done) || (d.kids[i].name.Fs? && o in ClosedBy(d.kids[i].kids, below)))
    decreases Height(d), 0, 0
  {
    hide DoneBefore, Stopped, ClosedBy;
    hide WF, Opened, Shaped, Unshared, History, Shrunk, FsBetween, FsBetweenCalm, Onces, Repr, Sub, Superset;
    hide CutWithin, CutAll, NoneBelow;
    var k := d.kids[i];
    ghost var q := z.pool;
    KidsApart(d, u, i);
    ShapedChild(d, k);
    KidIsWired(d, k);
    KidHeight(d, k);
    KidCalm(q, d, i);
    ZfsApart(z, k);
    AllOncesOfKids(k);
    var k';
    k', res, below := DestroyRecursive(z, k, u);
    BetweenShrinks(p, q, d, i);
    if res == Ok {
      OneMoreDone(p, q, z.pool, d.kids, i);
    } else {
      StoppedAtKid(p, q, z.pool, d, i, below);
    }
    if k.name.Snap? {
      CutKeepsFs(q, z.pool, k.name.path, k.name.snap, Sub(q, k.name.path));
    }
    KidDone(p, q, z.pool, d, i, res == Ok);
    if res != Ok {
      return;
    }
    SubBound(k, k', u);
    ghost var k1 := k';
    OncesInRepr(k);
    k' := Close(k', u);
    KidClosed(k, k1);
  }

  lemma BetweenShrinks(p: Pool, q: Pool, d: Dataset, i: nat)
    requires i <= |d.kids| && FsBetween(p, q, d, i)
    ensures Shrinks(p, q)
  {
    hide NoneBelow;
  }

  lemma KidIsWired(d: Dataset, k: Dataset)
    requires Wired(d) && k in d.kids
    ensures Wired(k)
  {
  }

  lemma KidHeight(d: Dataset, k: Dataset)
    requires d.name.Fs? && k in d.kids
    ensures Height(k) < Height(d)
  {
    KidIsLower(d.kids, k);
  }

  /** What a calm call on the next child may rely on. */
  lemma KidCalm(q: Pool, d: Dataset, i: nat)
    requires i < |d.kids| && d.name.Fs? && Shaped(d) && d.name.path != []
    ensures FsBetweenCalm(q, d, i) && d.kids[i].name.Fs? ==>
      Superset(q, d.kids[i]) && CloneFree(q, d.kids[i].name.path) && |d.kids[i].name.path| > 1
    ensures FsBetweenCalm(q, d, i) && d.kids[i].name.Snap? ==>
      d.kids[i].name.path in q.fs && Unneeded(q, d.kids[i].name.path, d.kids[i].name.snap)
  {
    hide CloneFree, Unneeded, ParseInt, Superset;
    KidsAreChildren(d);
    assert d.kids[i] in d.kids;
    if FsBetweenCalm(q, d, i) {
      CloneFreeBelow(q, d.name.path, d.kids[i].name.path, if d.kids[i].name.Snap? then d.kids[i].name.snap else "");
    }
  }

  /** If the child is a snapshot, it and those that go with it were removed, and nothing else. */
  ghost predicate SnapWasCut(q: Pool, s: Pool, d: Dataset, i: nat)
    requires i < |d.kids|
  {
    d.kids[i].name.Snap? ==> CutAll(q, s, d.name.path, d.kids[i].name.snap, Sub(q, d.name.path)) && s.fs == q.fs
  }

  lemma KidDone(p: Pool, q: Pool, s: Pool, d: Dataset, i: nat, ok: bool)
    requires i < |d.kids| && d.name.Fs? && Shaped(d) && FsBetween(p, q, d, i) && Shrunk(q, s, d.kids[i].name.path)
    requires ok && d.kids[i].name.Fs? ==> NoneBelow(s, d.kids[i].name.path)
    ensures Shrunk(p, s, d.name.path)
    ensures ok ==> FsBetween(p, s, d, i + 1)
    ensures ok && FsBetweenCalm(q, d, i) && SnapWasCut(q, s, d, i) ==> FsBetweenCalm(s, d, i + 1)
  {
    hide Shaped, Shrunk, FsBetween, FsBetweenCalm, NoneBelow, CutAll, Sub;
    FsStepFailed(p, q, s, d, i);
    if ok {
      FsStep(p, q, s, d, i);
      if FsBetweenCalm(q, d, i) && SnapWasCut(q, s, d, i) {
        if d.kids[i].name.Snap? {
          CutGone(q, s, d, i);
        }
        FsStepCalm(q, s, d, i);
      }
    }
  }

  lemma CutGone(q: Pool, s: Pool, d: Dataset, i: nat)
    requires i < |d.kids| && d.kids[i].name.Snap? && FsBetweenCalm(q, d, i) && Shrunk(q, s, d.kids[i].name.path)
    requires CutAll(q, s, d.name.path, d.kids[i].name.snap, Sub(q, d.name.path))
    ensures !SnapExists(s, d.name.path, d.kids[i].name.snap)
  {
    hide Superset, CloneFree;
    var x, n := d.name.path, d.kids[i].name.snap;
    assert x in Sub(q, x);
    assert InChain(q, x, x, n);
    assert forall g | g in s.snaps :: IsSnap(s, x, n, g) ==> IsSnap(q, x, n, g);
  }

  /** `DestroyRecursive`. */
  method DestroyRecursive(z: Zfs, d: Dataset, ghost u: set<Once>)
    returns (d': Dataset, res: Outcome, ghost stop: Stop)
    requires z.Valid() && Opened(d) && Shaped(d) && Unshared(d) && d.name.path != []
    requires Onces(d) <= u && AllGuard(u)
    modifies z, Repr(d)
    ensures z.Valid() && old(z.trace) <= z.trace && res != Blocked
    ensures old(z.Steady()) ==> z.Steady()
    ensures old(z.Calm()) ==> z.Calm()
    ensures Shrunk(old(z.pool), z.pool, d.name.path)
    ensures d.name.Fs? && res == Ok ==> NoneBelow(z.pool, d.name.path)
    ensures old(z.Calm()) && d.name.Fs? && |d.name.path| > 1 ==>
      (Superset(old(z.pool), d) && CloneFree(old(z.pool), d.name.path) ==> res == Ok)
    ensures d.name.Snap? ==> CutWithin(old(z.pool), z.pool, d.name.path, d.name.snap, Sub(old(z.pool), d.name.path))
    ensures d.name.Snap? && old(z.Calm()) ==>
      && (res == Ok ==> CutAll(old(z.pool), z.pool, d.name.path, d.name.snap, Sub(old(z.pool), d.name.path)))
      && (d.name.path in old(z.pool).fs && Unneeded(old(z.pool), d.name.path, d.name.snap) ==> res == Ok)
    ensures AllGuard(u) && forall o | o in u :: old(o.done) ==> o.done
    ensures forall o | o in u && (o !in Onces(d) || o in Own(d)) :: o.done == old(o.done)
    ensures d' == d || (d.name.Fs? && d' == d.(kids := []))
    ensures d.name.Fs? && res == Ok ==> d'.kids == []
    ensures d'.kids == [] ==> forall k, o | k in d.kids && o in Onces(k) :: o.done
    ensures res != Ok ==> Stopped(old(z.pool), z.pool, d, stop)
    ensures d.name.Fs? && res != Ok ==> forall o | o in u :: o.done == (old(o.done) || o in ClosedBy(d.kids, stop))
    ensures d.name.Snap? ==> forall o | o in u :: o.done == old(o.done)
    ensures res != Ok ==> d' == if d.name.Fs? && stop == AtSelf then d.(kids := []) else d
    decreases Height(d), |Sub(z.pool, d.name.path)|, 3
  {
    hide DoneBefore, Stopped, ClosedBy;
    hide WF, Opened, Shaped, Unshared, History, Shrunk, FsBetween, FsBetweenCalm, Onces, Repr, Sub, Superset;
    hide CutWithin, CutAll, NoneBelow, CloneFree, Unneeded, CanDestroy, Destroy;
    d' := d;
    ghost var p := z.pool;
    HandleName(d);
    HandlesAllocated(d);
    AllOncesOfKids(d);
    ZfsApart(z, d);
    if d.name.Snap? {
      res, stop := DestroySnapshot(z, d);
    } else {
      FsStart(p, d);
      res, stop := DestroyEach(z, d, u);
      if res != Ok {
        return;
      }
      StoppedAtSelf(p, z.pool, d);
      ClosedAtSelf(d);
      ghost var q := z.pool;
      z.PoolIsWF();
      EndOfFs(p, q, d);
      d' := d.(kids := []);
      res := DestroyOne(z, d');
    }
  }

  lemma ClosedAtSelf(d: Dataset)
    ensures forall o :: o in ClosedBy(d.kids, AtSelf) <==> exists k | k in d.kids :: o in Onces(k)
    ensures forall o | o in Onces(d) && o !in Own(d) :: o in ClosedBy(d.kids, AtSelf)
  {
    forall o
      ensures o in ClosedBy(d.kids, AtSelf) <==> exists k | k in d.kids :: o in Onces(k)
    {
      if k :| k in d.kids && o in Onces(k) {
        var j :| 0 <= j < |d.kids| && d.kids[j] == k;
      }
      if j :| 0 <= j < |d.kids| && o in Onces(d.kids[j]) {
        assert d.kids[j] in d.kids;
      }
    }
  }

  /** The snapshot branch: the chains below first, then the snapshot itself. */
  method DestroySnapshot(z: Zfs, d: Dataset) returns (res: Outcome, ghost stop: Stop)
    requires z.Valid() && Opened(d) && Shaped(d) && d.name.Snap? && d.name.path != []
    modifies z
    ensures z.Valid() && old(z.trace) <= z.trace && res != Blocked
    ensures old(z.Steady()) ==> z.Steady()
    ensures old(z.Calm()) ==> z.Calm()
    ensures Shrunk(old(z.pool), z.pool, d.name.path)
    ensures CutWithin(old(z.pool), z.pool, d.name.path, d.name.snap, Sub(old(z.pool), d.name.path))
    ensures old(z.Calm()) ==>
      && (res == Ok ==> CutAll(old(z.pool), z.pool, d.name.path, d.name.snap, Sub(old(z.pool), d.name.path)))
      && (d.name.path in old(z.pool).fs && Unneeded(old(z.pool), d.name.path, d.name.snap) ==> res == Ok)
    ensures res != Ok ==> Stopped(old(z.pool), z.pool, d, stop)
    ensures res != Ok ==> forall g | IsSnap(old(z.pool), d.name.path, d.name.snap, g) :: g in z.pool.snaps
    decreases 0, |Sub(z.pool, d.name.path)|, 2
  {
    hide WF, Opened, Shaped, History, Shrunk, Sub, CutWithin, CutAll, Unneeded, CanDestroy, Destroy, Stopped;
    var x, s := d.name.path, d.name.snap;
    ghost var p := z.pool;
    HandlesAllocated(d);
    HandleName(d);
    SnapHasNoKids(d);
    var ok;
    ok, stop := DestroyBelow(z, x, s, d);
    ghost var q := z.pool;
    CutWiden(p, q, x, s, Sub(p, x) - {x}, Sub(p, x));
    CutIsShrunk(p, q, x, s, Sub(p, x));
    if !ok {
      res := Err;
      AllSelfStay(p, q, d, stop);
      return;
    }
    stop := AtSelf;
    StoppedAtSnap(p, q, d);
    AllSelfStay(p, q, d, stop);
    SelfIn(p, x);
    CutSelf(p, q, x, s, Sub(p, x));
    CutIsShrunk(p, Destroy(q, d.name), x, s, Sub(p, x));
    if Unneeded(p, x, s) {
      UnneededSelf(p, q, x, s, Sub(p, x));
    }
    res := DestroyOne(z, d);
  }

  /** With everything below cut, the call stopped at the snapshot itself. */
  lemma StoppedAtSnap(p: Pool, q: Pool, d: Dataset)
    requires d.name.Snap?
    requires CutWithin(p, q, d.name.path, d.name.snap, Sub(p, d.name.path) - {d.name.path})
    ensures Stopped(p, q, d, AtSelf)
  {
    hide InChain;
  }

  lemma AllSelfStay(p: Pool, q: Pool, d: Dataset, stop: Stop)
    requires Stopped(p, q, d, stop) && d.name.Snap?
    ensures forall g | IsSnap(p, d.name.path, d.name.snap, g) :: g in q.snaps
  {
    hide Stopped;
    forall g | IsSnap(p, d.name.path, d.name.snap, g)
      ensures g in q.snaps
    {
      SelfStays(p, q, d, stop, g);
    }
  }

  lemma SelfIn(p: Pool, x: Path)
    requires x in p.fs
    ensures x in Sub(p, x)
  {
  }

  /** The filesystem's own end. */
  lemma EndOfFs(p: Pool, q: Pool, d: Dataset)
    requires d.name.Fs? && WF(q) && FsBetween(p, q, d, |d.kids|)
    ensures Shrunk(p, q, d.name.path) && Shrunk(p, Destroy(q, d.name), d.name.path)
    ensures CanDestroy(q, d.name) && d.name.path != [] ==> NoneBelow(Destroy(q, d.name), d.name.path)
    ensures FsBetweenCalm(q, d, |d.kids|) && |d.name.path| > 1 ==> CanDestroy(q, d.name)
  {
    hide FsBetweenCalm, Shrunk, Rooted;
    PoolFacts(q);
    ShrunkDestroy(q, d.name);
    ShrunkThen(p, q, Destroy(q, d.name), d.name.path, d.name.path);
    if FsBetweenCalm(q, d, |d.kids|) && |d.name.path| > 1 {
      FsEnd(p, q, d);
    }
    if d.name.path !in q.fs && d.name.path != [] {
      NoSubtree(q, d.name.path);
      assert forall f | f in q.fs && d.name.path <= f :: f in Sub(q, d.name.path);
    }
  }
}
