/** Removing filesystems with everything below them, and snapshots by name along a chain of
    filesystems: what may disappear from the pool. */
module Chains {
  import opened Pools

  /** From `p` to `q` nothing changed except that datasets and snapshots at or below `x` may have
      disappeared. */
  ghost predicate Shrunk(p: Pool, q: Pool, x: Path) {
    && q.name == p.name && q.fs.Keys <= p.fs.Keys && q.snaps.Keys <= p.snaps.Keys
    && (forall f | f in q.fs :: q.fs[f] == p.fs[f])
    && (forall g | g in q.snaps :: q.snaps[g] == p.snaps[g])
    && (forall f | f in p.fs && !(x <= f) :: f in q.fs)
    && (forall g | g in p.snaps && !(x <= p.snaps[g].owner) :: g in q.snaps)
  }

  lemma ShrunkSame(p: Pool, x: Path)
    ensures Shrunk(p, p, x)
  {
  }

  lemma ShrunkThen(p: Pool, q: Pool, s: Pool, x: Path, y: Path)
    requires Shrunk(p, q, x) && Shrunk(q, s, y) && x <= y
    ensures Shrunk(p, s, x)
  {
  }

  lemma ShrunkDestroy(p: Pool, n: Name)
    ensures Shrunk(p, Destroy(p, n), n.path)
  {
  }

  /** Every filesystem strictly below `x` down to `e` carries a snapshot called `s`. */
  ghost predicate InChain(p: Pool, x: Path, e: Path, s: string) {
    x <= e && forall n | |x| < n <= |e| :: SnapExists(p, e[..n], s)
  }

  /** Only snapshots called `s` of chained datasets in `w` have disappeared. */
  ghost predicate CutWithin(p: Pool, q: Pool, x: Path, s: string, w: set<Path>) {
    && q.name == p.name && q.fs == p.fs && q.snaps.Keys <= p.snaps.Keys
    && (forall g | g in q.snaps :: q.snaps[g] == p.snaps[g])
    && (forall g | g in p.snaps && g !in q.snaps ::
          p.snaps[g].name == s && p.snaps[g].owner in w && InChain(p, x, p.snaps[g].owner, s))
  }

  /** All of them have. */
  ghost predicate CutAll(p: Pool, q: Pool, x: Path, s: string, w: set<Path>) {
    forall g | g in p.snaps && p.snaps[g].name == s && p.snaps[g].owner in w && InChain(p, x, p.snaps[g].owner, s) ::
      g !in q.snaps
  }

  lemma CutNone(p: Pool, x: Path, s: string)
    ensures CutWithin(p, p, x, s, {}) && CutAll(p, p, x, s, {})
  {
  }

  lemma CutIsShrunk(p: Pool, q: Pool, x: Path, s: string, w: set<Path>)
    requires CutWithin(p, q, x, s, w)
    ensures Shrunk(p, q, x)
  {
    hide SnapExists;
  }

  lemma CarriesKept(p: Pool, q: Pool, x: Path, s: string, w: set<Path>, e: Path)
    requires CutWithin(p, q, x, s, w)
    ensures SnapExists(q, e, s) ==> SnapExists(p, e, s)
    ensures e !in w && SnapExists(p, e, s) ==> SnapExists(q, e, s)
  {
    hide InChain;
    if e !in w && SnapExists(p, e, s) {
      var g :| g in p.snaps && IsSnap(p, e, s, g);
      assert g in q.snaps;
      assert IsSnap(q, e, s, g);
    }
    if SnapExists(q, e, s) {
      var g :| g in q.snaps && IsSnap(q, e, s, g);
      assert IsSnap(p, e, s, g);
    }
  }

  /** A chain below child `e`, seen from after other children were cut, and from `x`. */
  lemma ChainBelow(p: Pool, q: Pool, x: Path, s: string, w: set<Path>, e: Path, o: Path)
    requires CutWithin(p, q, x, s, w) && |e| == |x| + 1 && x <= e && e <= o && o in p.fs && Rooted(p)
    requires |x| > 0 && w !! Sub(p, e) && e in p.fs
    ensures SnapExists(q, e, s) <==> SnapExists(p, e, s)
    ensures SnapExists(p, e, s) && InChain(q, e, o, s) <==> InChain(p, x, o, s)
  {
    hide SnapExists, CutWithin, Rooted;
    assert e in Sub(p, e);
    forall n | |e| <= n <= |o|
      ensures SnapExists(q, o[..n], s) <==> SnapExists(p, o[..n], s)
    {
      PrefixExists(p, o, n);
      assert e <= o[..n];
      CarriesKept(p, q, x, s, w, o[..n]);
    }
    assert o[..|e|] == e;
  }

  /** After one child filesystem `e` was handled. */
  lemma CutChild(p: Pool, q: Pool, r: Pool, x: Path, s: string, w: set<Path>, e: Path)
    requires Rooted(p) && CutWithin(p, q, x, s, w) && |x| > 0 && |e| == |x| + 1 && x <= e && e in p.fs && w !! Sub(p, e)
    requires SnapExists(q, e, s) && OwnersExist(p)
    requires CutWithin(q, r, e, s, Sub(q, e))
    ensures CutWithin(p, r, x, s, w + Sub(p, e))
    ensures CutAll(p, q, x, s, w) && CutAll(q, r, e, s, Sub(q, e)) ==> CutAll(p, r, x, s, w + Sub(p, e))
  {
    hide SnapExists, InChain, Rooted;
    assert Sub(q, e) == Sub(p, e);
    forall o | o in Sub(p, e)
      ensures InChain(q, e, o, s) <==> InChain(p, x, o, s)
    {
      ChainBelow(p, q, x, s, w, e, o);
    }
    assert SnapExists(p, e, s) by {
      CarriesKept(p, q, x, s, w, e);
    }
  }

  /** A child without the snapshot ends its chains. */
  lemma CutSkip(p: Pool, q: Pool, x: Path, s: string, w: set<Path>, e: Path)
    requires Rooted(p) && CutWithin(p, q, x, s, w) && |x| > 0 && |e| == |x| + 1 && x <= e && e in p.fs && w !! Sub(p, e)
    ensures CutWithin(p, q, x, s, w + Sub(p, e))
    ensures CutAll(p, q, x, s, w) && !SnapExists(q, e, s) ==> CutAll(p, q, x, s, w + Sub(p, e))
  {
    hide SnapExists, InChain, Rooted;
    forall o | o in Sub(p, e)
      ensures InChain(p, x, o, s) ==> SnapExists(q, e, s)
    {
      ChainBelow(p, q, x, s, w, e, o);
    }
  }

  /** Finally the snapshot of `x` itself. */
  lemma CutSelf(p: Pool, q: Pool, x: Path, s: string, w: set<Path>)
    requires CutWithin(p, q, x, s, w - {x}) && x in w
    ensures CutWithin(p, Destroy(q, Snap(x, s)), x, s, w)
    ensures CutAll(p, q, x, s, w - {x}) ==> CutAll(p, Destroy(q, Snap(x, s)), x, s, w)
  {
    hide SnapExists;
  }
}
