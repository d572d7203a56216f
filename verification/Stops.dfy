/** How far a recursive destruction got when it failed: whatever is gone is accounted for by what was
    done before. */
module Stops {
  import opened Pools
  import opened Decimal
  import opened Handles
  import opened Trees
  import opened Chains

  /** Where a failed call stopped: before anything was done; at the dataset itself, with everything
      below it done; at a cached child, in the way given by `below`; or, for a snapshot, at a child of
      its filesystem in the live pool, of which `tree` is a fresh copy. */
  datatype Stop = AtStart | AtSelf | AtKid(i: nat, below: Stop) | AtLive(tree: Dataset, i: nat, below: Stop)

  /** Filesystem `f` went with one of the first `n` children. */
  ghost predicate FsBefore(kids: seq<Dataset>, n: nat, f: Path) {
    exists j | 0 <= j < n && j < |kids| :: kids[j].name.Fs? && kids[j].name.path <= f
  }

  /** Snapshot `g` goes with child `k`: it belongs to a filesystem there; or `k` is a snapshot and `g`
      is that, or one of the same name on a chain below. */
  ghost predicate SnapWith(p: Pool, k: Dataset, g: Guid)
    requires g in p.snaps
  {
    if k.name.Fs? then k.name.path <= p.snaps[g].owner
    else p.snaps[g].name == k.name.snap && InChain(p, k.name.path, p.snaps[g].owner, k.name.snap)
  }

  ghost predicate SnapBefore(p: Pool, kids: seq<Dataset>, n: nat, g: Guid)
    requires g in p.snaps
  {
    exists j | 0 <= j < n && j < |kids| :: SnapWith(p, kids[j], g)
  }

  /** What a call on a filesystem with these cached children may have removed when it stopped. */
  ghost predicate FsLost(kids: seq<Dataset>, stop: Stop, f: Path)
    decreases stop
  {
    match stop
    case AtSelf => FsBefore(kids, |kids|, f)
    case AtKid(i, below) =>
      FsBefore(kids, i, f) || (i < |kids| && kids[i].name.Fs? && FsLost(kids[i].kids, below, f))
    case _ => false
  }

  /** The same for snapshots. Of a call on a snapshot it is what lies strictly below, on chains of the
      same name, up to the live child where it stopped. */
  ghost predicate SnapLost(p: Pool, n: Name, kids: seq<Dataset>, stop: Stop, g: Guid)
    requires g in p.snaps
    decreases stop
  {
    match n
    case Fs(x) =>
      (match stop
       case AtSelf => SnapBefore(p, kids, |kids|, g)
       case AtKid(i, below) =>
         SnapBefore(p, kids, i, g) || (i < |kids| && SnapLost(p, kids[i].name, kids[i].kids, below, g))
       case _ => false)
    case Snap(x, s) =>
      && p.snaps[g].name == s && InChain(p, x, p.snaps[g].owner, s) && p.snaps[g].owner != x
      && match stop
         case AtSelf => true
         case AtLive(tree, i, below) =>
           || FsBefore(tree.kids, i, p.snaps[g].owner)
           || (i < |tree.kids| && tree.kids[i].name.Fs?
               && SnapLost(p, Snap(tree.kids[i].name.path, s), [], below, g))
         case _ => false
  }

  /** All that is gone is accounted for. */
  ghost predicate Stopped(p: Pool, q: Pool, d: Dataset, stop: Stop) {
    && (forall f | f in p.fs && f !in q.fs :: d.name.Fs? && FsLost(d.kids, stop, f))
    && (forall g | g in p.snaps && g !in q.snaps :: SnapLost(p, d.name, d.kids, stop, g))
  }

  /** After the first `n` children. */
  ghost predicate DoneBefore(p: Pool, q: Pool, kids: seq<Dataset>, n: nat) {
    && (forall f | f in p.fs && f !in q.fs :: FsBefore(kids, n, f))
    && (forall g | g in p.snaps && g !in q.snaps :: SnapBefore(p, kids, n, g))
  }

  /** The guards that a failed call on a filesystem has closed: those of the children it was done with. */
  ghost function ClosedBy(kids: seq<Dataset>, stop: Stop): set<Once>
    decreases stop
  {
    match stop
    case AtSelf => set j, o | 0 <= j < |kids| && o in Onces(kids[j]) :: o
    case AtKid(i, below) =>
      (set j, o | 0 <= j < i && j < |kids| && o in Onces(kids[j]) :: o)
      + (if i < |kids| && kids[i].name.Fs? then ClosedBy(kids[i].kids, below) else {})
    case _ => {}
  }

  // ----- what that means -----

  /** The snapshot a failed call was made for is still there. */
  lemma SelfStays(p: Pool, q: Pool, d: Dataset, stop: Stop, g: Guid)
    requires Stopped(p, q, d, stop) && d.name.Snap? && g in p.snaps && IsSnap(p, d.name.path, d.name.snap, g)
    ensures g in q.snaps
  {
  }

  /** What a stopped call may have removed is at or below its dataset. */
  lemma {:induction false} LostIsUnder(p: Pool, k: Dataset, stop: Stop)
    requires Shaped(k)
    ensures forall f | k.name.Fs? && FsLost(k.kids, stop, f) :: k.name.path <= f
    ensures forall g | g in p.snaps && SnapLost(p, k.name, k.kids, stop, g) :: k.name.path <= p.snaps[g].owner
    decreases stop
  {
    hide ParseInt;
    KidsAreChildren(k);
    if k.name.Fs? && stop.AtKid? && stop.i < |k.kids| {
      assert k.kids[stop.i] in k.kids;
      LostIsUnder(p, k.kids[stop.i], stop.below);
    }
  }

  lemma KidsPart(d: Dataset, i: nat, j: nat, f: Path)
    requires Shaped(d) && i < |d.kids| && j < |d.kids| && i != j && d.kids[i].name.Fs? && d.kids[j].name.Fs?
    requires d.kids[j].name.path <= f
    ensures !(d.kids[i].name.path <= f)
  {
    hide ParseInt;
    KidsAreChildren(d);
    assert d.kids[i] in d.kids && d.kids[j] in d.kids && d.kids[i].name != d.kids[j].name;
    var y := d.kids[j].name.path;
    assert |d.kids[i].name.path| == |y| && y == f[..|y|];
  }

  lemma KidIsShaped(d: Dataset, i: nat)
    requires Shaped(d) && i < |d.kids|
    ensures Shaped(d.kids[i]) && ChildName(d.name, d.kids[i].name)
  {
    hide ParseInt;
    assert d.kids[i] in d.kids;
  }

  /** Which child a missing filesystem went with. */
  lemma FsLostWith(p: Pool, d: Dataset, i: nat, below: Stop, f: Path) returns (m: nat)
    requires d.name.Fs? && Shaped(d) && FsLost(d.kids, AtKid(i, below), f)
    ensures m <= i && m < |d.kids| && d.kids[m].name.Fs? && d.kids[m].name.path <= f
  {
    hide Shaped;
    if FsBefore(d.kids, i, f) {
      m :| 0 <= m < i && m < |d.kids| && d.kids[m].name.Fs? && d.kids[m].name.path <= f;
    } else {
      m := i;
      KidIsShaped(d, i);
      LostIsUnder(p, d.kids[i], below);
    }
  }

  /** No filesystem is gone at or below a child that was cached after the one where the call stopped. */
  lemma LaterFsStays(p: Pool, q: Pool, d: Dataset, i: nat, below: Stop, j: nat, f: Path)
    requires Stopped(p, q, d, AtKid(i, below)) && d.name.Fs? && Shaped(d)
    requires i < j < |d.kids| && d.kids[j].name.Fs? && f in p.fs && d.kids[j].name.path <= f
    ensures f in q.fs
  {
    hide Shaped, FsLost;
    if f !in q.fs {
      var m := FsLostWith(p, d, i, below, f);
      KidsPart(d, m, j, f);
    }
  }

  lemma SnapLostBelow(p: Pool, k: Dataset, below: Stop, g: Guid)
    requires g in p.snaps && k.name.Snap? && SnapLost(p, k.name, k.kids, below, g)
    ensures p.snaps[g].name == k.name.snap && p.snaps[g].owner != k.name.path
  {
    hide InChain;
  }

  /** Which child a missing snapshot went with. */
  lemma LostWith(p: Pool, q: Pool, d: Dataset, i: nat, below: Stop, g: Guid) returns (m: nat)
    requires Stopped(p, q, d, AtKid(i, below)) && d.name.Fs? && Shaped(d) && g in p.snaps && g !in q.snaps
    ensures m <= i && m < |d.kids|
    ensures d.kids[m].name.Fs? ==> d.kids[m].name.path <= p.snaps[g].owner
    ensures d.kids[m].name.Snap? ==> p.snaps[g].name == d.kids[m].name.snap
    ensures d.kids[m].name.Snap? && p.snaps[g].owner == d.name.path ==> m < i
  {
    hide Shaped, InChain;
    assert SnapLost(p, d.name, d.kids, AtKid(i, below), g);
    if SnapBefore(p, d.kids, i, g) {
      m :| 0 <= m < i && m < |d.kids| && SnapWith(p, d.kids[m], g);
    } else {
      m := i;
      KidIsShaped(d, i);
      LostIsUnder(p, d.kids[i], below);
      if d.kids[i].name.Snap? {
        SnapLostBelow(p, d.kids[i], below, g);
      }
    }
  }

  /** A snapshot of the dataset itself is gone only if it was cached before the place where the call
      stopped. */
  lemma OwnSnapStays(p: Pool, q: Pool, d: Dataset, i: nat, below: Stop, g: Guid)
    requires Stopped(p, q, d, AtKid(i, below)) && d.name.Fs? && Shaped(d) && g in p.snaps && g !in q.snaps
    requires p.snaps[g].owner == d.name.path
    ensures exists m | 0 <= m < i && m < |d.kids| :: d.kids[m].name == Snap(d.name.path, p.snaps[g].name)
  {
    hide Shaped, Stopped;
    var m := LostWith(p, q, d, i, below, g);
    KidIsShaped(d, m);
  }

  /** One at or below a later child is gone only with an earlier snapshot of its name. */
  lemma LaterSnapStays(p: Pool, q: Pool, d: Dataset, i: nat, below: Stop, j: nat, g: Guid)
    requires Stopped(p, q, d, AtKid(i, below)) && d.name.Fs? && Shaped(d) && g in p.snaps && g !in q.snaps
    requires i < j < |d.kids| && d.kids[j].name.Fs? && d.kids[j].name.path <= p.snaps[g].owner
    ensures exists m | 0 <= m <= i :: d.kids[m].name == Snap(d.name.path, p.snaps[g].name)
  {
    hide Shaped, Stopped;
    var m := LostWith(p, q, d, i, below, g);
    KidIsShaped(d, m);
    if d.kids[m].name.Fs? {
      KidsPart(d, m, j, p.snaps[g].owner);
      assert false;
    }
  }

  // ----- putting calls together -----

  lemma ChainEarlier(p: Pool, q: Pool, x: Path, e: Path, s: string)
    requires Shrinks(p, q) && InChain(q, x, e, s)
    ensures InChain(p, x, e, s)
  {
    forall n | |x| < n <= |e|
      ensures SnapExists(p, e[..n], s)
    {
      assert SnapExists(q, e[..n], s);
      var g :| g in q.snaps && IsSnap(q, e[..n], s, g);
      assert IsSnap(p, e[..n], s, g);
    }
  }

  /** What is left is as it was. */
  ghost predicate Shrinks(p: Pool, q: Pool) {
    && q.fs.Keys <= p.fs.Keys && q.snaps.Keys <= p.snaps.Keys
    && forall g | g in q.snaps :: q.snaps[g] == p.snaps[g]
  }

  lemma SnapWithEarlier(p: Pool, q: Pool, k: Dataset, g: Guid)
    requires Shrinks(p, q) && g in q.snaps && SnapWith(q, k, g)
    ensures SnapWith(p, k, g)
  {
    hide InChain;
    if k.name.Snap? {
      ChainEarlier(p, q, k.name.path, q.snaps[g].owner, k.name.snap);
    }
  }

  /** A call in a pool that has lost something accounts for no more than in the pool before. */
  lemma {:induction false} LostEarlier(p: Pool, q: Pool, n: Name, kids: seq<Dataset>, stop: Stop, g: Guid)
    requires Shrinks(p, q) && g in q.snaps && SnapLost(q, n, kids, stop, g)
    ensures SnapLost(p, n, kids, stop, g)
    decreases stop
  {
    hide InChain;
    match n
    case Fs(x) =>
      forall k | k in kids && SnapWith(q, k, g)
        ensures SnapWith(p, k, g)
      {
        SnapWithEarlier(p, q, k, g);
      }
      if stop.AtKid? && stop.i < |kids| && SnapLost(q, kids[stop.i].name, kids[stop.i].kids, stop.below, g) {
        LostEarlier(p, q, kids[stop.i].name, kids[stop.i].kids, stop.below, g);
      }
    case Snap(x, s) =>
      ChainEarlier(p, q, x, q.snaps[g].owner, s);
      if stop.AtLive? && stop.i < |stop.tree.kids| && stop.tree.kids[stop.i].name.Fs?
        && SnapLost(q, Snap(stop.tree.kids[stop.i].name.path, s), [], stop.below, g) {
        LostEarlier(p, q, Snap(stop.tree.kids[stop.i].name.path, s), [], stop.below, g);
      }
  }

  lemma NoneDone(p: Pool, d: Dataset, kids: seq<Dataset>)
    ensures DoneBefore(p, p, kids, 0) && Stopped(p, p, d, AtStart)
  {
  }

  /** One more child was done. */
  lemma OneMoreDone(p: Pool, q: Pool, s: Pool, kids: seq<Dataset>, i: nat)
    requires i < |kids| && Shrinks(p, q) && Shrunk(q, s, kids[i].name.path) && DoneBefore(p, q, kids, i)
    requires kids[i].name.Snap? ==>
      CutWithin(q, s, kids[i].name.path, kids[i].name.snap, Sub(q, kids[i].name.path))
    ensures DoneBefore(p, s, kids, i + 1)
  {
    hide InChain, SnapWith;
    forall f | f in p.fs && f !in s.fs
      ensures FsBefore(kids, i + 1, f)
    {
      if f !in q.fs {
        var j :| 0 <= j < i && j < |kids| && kids[j].name.Fs? && kids[j].name.path <= f;
      } else {
        assert kids[i].name.Fs? && kids[i].name.path <= f;
      }
    }
    forall g | g in p.snaps && g !in s.snaps
      ensures SnapBefore(p, kids, i + 1, g)
    {
      if g !in q.snaps {
        var j :| 0 <= j < i && j < |kids| && SnapWith(p, kids[j], g);
      } else {
        SnapGoesWith(q, s, kids[i], g);
        SnapWithEarlier(p, q, kids[i], g);
      }
    }
  }

  lemma SnapGoesWith(q: Pool, s: Pool, k: Dataset, g: Guid)
    requires Shrunk(q, s, k.name.path) && g in q.snaps && g !in s.snaps
    requires k.name.Snap? ==> CutWithin(q, s, k.name.path, k.name.snap, Sub(q, k.name.path))
    ensures SnapWith(q, k, g)
  {
    hide InChain;
  }

  /** The call stopped at child `i`. */
  lemma StoppedAtKid(p: Pool, q: Pool, s: Pool, d: Dataset, i: nat, below: Stop)
    requires d.name.Fs? && i < |d.kids| && Shrinks(p, q) && DoneBefore(p, q, d.kids, i)
    requires Stopped(q, s, d.kids[i], below)
    ensures Stopped(p, s, d, AtKid(i, below))
  {
    hide InChain, SnapWith;
    forall g | g in p.snaps && g !in s.snaps
      ensures SnapLost(p, d.name, d.kids, AtKid(i, below), g)
    {
      if g in q.snaps {
        LostEarlier(p, q, d.kids[i].name, d.kids[i].kids, below, g);
      }
    }
  }

  /** It stopped at the filesystem itself. */
  lemma StoppedAtSelf(p: Pool, q: Pool, d: Dataset)
    requires d.name.Fs? && DoneBefore(p, q, d.kids, |d.kids|)
    ensures Stopped(p, q, d, AtSelf)
  {
    hide InChain, SnapWith;
  }

  /** A call on a snapshot stopped at a live child. */
  lemma StoppedAtLive(p: Pool, q: Pool, s: Pool, d: Dataset, tree: Dataset, i: nat, below: Stop)
    requires d.name.Snap? && Shrinks(p, q) && q.fs == p.fs && s.fs == q.fs
    requires i < |tree.kids| && tree.kids[i].name.Fs? && tree.name == Fs(d.name.path) && Shaped(tree)
    requires forall g | g in p.snaps && g !in q.snaps :: FsBefore(tree.kids, i, p.snaps[g].owner)
    requires forall g | g in p.snaps && g !in s.snaps ::
      p.snaps[g].name == d.name.snap && InChain(p, d.name.path, p.snaps[g].owner, d.name.snap)
    requires forall g | g in q.snaps && g !in s.snaps ::
      SnapLost(q, Snap(tree.kids[i].name.path, d.name.snap), [], below, g)
    ensures Stopped(p, s, d, AtLive(tree, i, below))
  {
    hide InChain, ParseInt;
    KidsAreChildren(tree);
    var x := d.name.path;
    forall g | g in p.snaps && g !in s.snaps
      ensures SnapLost(p, d.name, d.kids, AtLive(tree, i, below), g)
    {
      forall j | 0 <= j < |tree.kids| && tree.kids[j].name.Fs?
        ensures !(tree.kids[j].name.path <= x)
      {
        assert tree.kids[j] in tree.kids;
      }
      if g in q.snaps {
        var n := Snap(tree.kids[i].name.path, d.name.snap);
        LostEarlier(p, q, n, [], below, g);
        ChainPath(p, tree.kids[i].name.path, p.snaps[g].owner, d.name.snap);
      }
    }
  }

  lemma ChainPath(p: Pool, x: Path, o: Path, s: string)
    ensures InChain(p, x, o, s) ==> x <= o
  {
  }
}
