/** `DestroyRecursive` from open to close: when it succeeds, and what becomes of the handles. */
module WholeCalls {
  import opened Pools
  import opened Frames
  import opened Handles
  import opened Trees
  import opened Backend
  import opened Opening
  import opened CloneLists
  import opened HandOver
  import opened Chains
  import opened Stops
  import opened Halts
  import opened RecursiveDestroy
  import opened Promotion
  import opened Removal
  import opened OwnSnapshots
  import opened CachedOrders
  import opened KidSteps
  import opened DestroySteps
  import opened PromoteAndDestroy
  import opened Consequences

  /** If everything at or below `x` could be removed, no dataset outside had its origin there: it
      would be left without it. */
  lemma OriginOutside(p: Pool, q: Pool, x: Path, f: Path)
    requires WF(q) && Shrunk(p, q, x) && NoneBelow(q, x)
    requires f in p.fs && !(x <= f) && p.fs[f].origin.Some? && p.fs[f].origin.value in p.snaps
    ensures !(x <= p.snaps[p.fs[f].origin.value].owner)
  {
    var g := p.fs[f].origin.value;
    assert f in q.fs && q.fs[f] == p.fs[f];
    assert g in q.snaps && q.snaps[g] == p.snaps[g];
    assert q.snaps[g].owner in q.fs;
  }

  /** No dataset outside the subtree of `x` is a clone of a snapshot in it. */
  ghost predicate NoOutsideClone(p: Pool, x: Path) {
    forall f | f in p.fs && !(x <= f) && Base(p, f).Some? :: !(x <= Base(p, f).value)
  }

  /** So a filesystem can only be removed if no dataset outside is a clone of a snapshot in it. */
  lemma NoCloneLeft(p: Pool, q: Pool, x: Path)
    requires WF(q) && Shrunk(p, q, x) && NoneBelow(q, x)
    ensures NoOutsideClone(p, x)
  {
    hide WF, Shrunk, NoneBelow;
    forall f | f in p.fs && !(x <= f) && Base(p, f).Some?
      ensures !(x <= Base(p, f).value)
    {
      OriginOutside(p, q, x, f);
    }
  }

  /** Without clones inside, that means no clone at all. */
  lemma CloneFreeIff(p: Pool, x: Path)
    requires OriginsExist(p) && OwnersExist(p) && NoInternal(p, Sub(p, x))
    ensures CloneFree(p, x) <==> NoOutsideClone(p, x)
  {
    if NoOutsideClone(p, x) {
      forall f | f in p.fs && p.fs[f].origin.Some?
        ensures !(x <= p.snaps[p.fs[f].origin.value].owner)
      {
        var o := p.snaps[p.fs[f].origin.value].owner;
        assert Base(p, f) == Some(o) && o in p.fs;
        assert x <= f ==> f in Sub(p, x);
      }
    } else {
      var f :| f in p.fs && !(x <= f) && Base(p, f).Some? && x <= Base(p, f).value;
      assert HasClone(p, p.fs[f].origin.value);
    }
  }

  /** The same for a snapshot and those that go with it. */
  lemma NoneNeeded(p: Pool, q: Pool, x: Path, s: string)
    requires OwnersExist(p) && OriginsExist(q) && CutWithin(p, q, x, s, Sub(p, x)) && CutAll(p, q, x, s, Sub(p, x))
    ensures Unneeded(p, x, s)
  {
    hide InChain;
    forall g | g in p.snaps && p.snaps[g].name == s && InChain(p, x, p.snaps[g].owner, s)
      ensures !HasClone(p, g)
    {
      ChainIsBelow(p, x, p.snaps[g].owner, s);
      assert p.snaps[g].owner in Sub(p, x);
      assert g !in q.snaps;
    }
  }

  lemma ChainIsBelow(p: Pool, x: Path, o: Path, s: string)
    requires InChain(p, x, o, s)
    ensures x <= o
  {
  }

  /** What a successful call leaves of a filesystem's subtree, and of the rest of the pool. */
  lemma OnlyOutsideLeft(p: Pool, q: Pool, x: Path)
    requires WF(q) && Shrunk(p, q, x) && NoneBelow(q, x)
    ensures forall f :: f in q.fs <==> f in p.fs && !(x <= f)
    ensures forall g :: g in q.snaps <==> g in p.snaps && !(x <= p.snaps[g].owner)
    ensures (forall f | f in q.fs :: q.fs[f] == p.fs[f]) && forall g | g in q.snaps :: q.snaps[g] == p.snaps[g]
  {
    assert OwnersExist(q);
  }

  /** Opens a dataset, destroys it recursively and closes what was opened. Every handle is closed and
      every list node freed exactly once, whatever happens. If no foreign call fails, a filesystem
      below the pool's root, none of whose datasets is a clone of another one, is removed exactly if
      no snapshot at or below it has a clone; a snapshot exactly if none of those that would go with
      it has one. If the call fails, on the way through `tree`, all that is gone is accounted for by what
      comes before the place where it stopped; in particular the snapshot it was called for is left. */
  method OpenDestroyClose(z: Zfs, n: Name)
    returns (found: bool, res: Outcome, ghost u: set<Once>, ghost tree: Dataset, ghost stop: Stop)
    requires z.Valid() && n.path != []
    modifies z
    ensures z.Valid() && fresh(u) && forall o | o in u :: o.node.frees == 1 && o.node.zh == None
    ensures found ==> Exists(old(z.pool), n) && Shrunk(old(z.pool), z.pool, n.path) && u != {}
    ensures !found ==> z.pool == old(z.pool) && u == {}
    ensures old(z.Calm()) ==> found == Exists(old(z.pool), n)
    ensures found && n.Fs? && res == Ok ==> NoneBelow(z.pool, n.path) && NoOutsideClone(old(z.pool), n.path)
    ensures found && old(z.Calm()) && n.Fs? && |n.path| > 1 && NoInternal(old(z.pool), Sub(old(z.pool), n.path)) ==>
      (res == Ok <==> CloneFree(old(z.pool), n.path))
    ensures found && n.Snap? ==> CutWithin(old(z.pool), z.pool, n.path, n.snap, Sub(old(z.pool), n.path))
    ensures found && n.Snap? && old(z.Calm()) && res == Ok ==>
      CutAll(old(z.pool), z.pool, n.path, n.snap, Sub(old(z.pool), n.path))
    ensures found && n.Snap? && old(z.Calm()) ==> (res == Ok <==> Unneeded(old(z.pool), n.path, n.snap))
    ensures found ==> tree.name == n && Shaped(tree) && (old(z.Steady()) ==> Reflects(old(z.pool), tree))
    ensures found && res != Ok ==> Stopped(old(z.pool), z.pool, tree, stop)
    ensures found && n.Snap? && res != Ok ==> forall g | IsSnap(old(z.pool), n.path, n.snap, g) :: g in z.pool.snaps
  {
    hide WF, Reflects, Opened, Shaped, Unshared, History, Shrunk, Onces, Repr, Sub, Superset, CutWithin, CutAll;
    hide NoneBelow, CloneFree, Unneeded, NoInternal, NoOutsideClone, AllGuard, Exists, Stopped, ClosedBy;
    ghost var p := z.pool;
    z.PoolIsWF();
    z.CalmIsSteady();
    ghost var steady := z.Steady();
    res, u := Ok, {};
    var d;
    d, found := DatasetOpen(z, n);
    tree, stop := d, AtStart;
    if !found {
      return;
    }
    u := Onces(d);
    OpenedGuards(d);
    OncesInRepr(d);
    OwnOnces(d);
    ZfsApart(z, d);
    if steady {
      ReflectsIsSuperset(p, d);
    }
    ghost var d0 := d;
    d, res, stop := DestroyRecursive(z, d, u);
    if n.Snap? && res != Ok {
      AllSelfStay(p, z.pool, tree, stop);
    }
    z.PoolIsWF();
    WFOwners(p);
    WFOrigins(p);
    WFOwners(z.pool);
    WFOrigins(z.pool);
    if n.Fs? && res == Ok {
      NoCloneLeft(p, z.pool, n.path);
    }
    if NoInternal(p, Sub(p, n.path)) {
      CloneFreeIff(p, n.path);
    }
    if n.Snap? {
      SnapOwnerExists(p, n);
      if old(z.Calm()) && res == Ok {
        NoneNeeded(p, z.pool, n.path, n.snap);
      }
    }
    SubBound(d0, d, u);
    ZfsApart(z, d);
    KeptOrDropped(d0, d);
    d := Close(d, u);
    AllFreed(d0, u);
  }

  lemma KeptOrDropped(d: Dataset, d': Dataset)
    requires d' == d || d' == d.(kids := [])
    ensures forall o | o in Onces(d) && o !in Onces(d') :: d'.kids == [] && exists k | k in d.kids :: o in Onces(k)
  {
  }

  lemma SnapOwnerExists(p: Pool, n: Name)
    requires Exists(p, n) && OwnersExist(p)
    ensures n.path in p.fs
  {
  }

  /** What a successful call destroys outside the subtree. */
  ghost predicate LosesExactly(p: Pool, q: Pool, x: Path, ord: Orders) {
    forall g | g in p.snaps && !(x <= p.snaps[g].owner) :: g !in q.snaps <==> Lost(p, x, ord, g)
  }

  lemma LossIsExact(p: Pool, q: Pool, x: Path, pr: set<Path>, ord: Orders)
    requires WF(p) && WF(q) && Aged(p) && Outcomes(p, q, x, pr, true) && Thorough(p, q, pr, Sub(p, x), ord)
    ensures LosesExactly(p, q, x, ord)
  {
    hide WF, Aged, Outcomes, Thorough, Sub, Lost;
    WFOwners(p);
    WFOrigins(p);
    WFOwners(q);
    WFOrigins(q);
    forall g | g in p.snaps && !(x <= p.snaps[g].owner)
      ensures g !in q.snaps <==> Lost(p, x, ord, g)
    {
      LostIff(p, q, x, pr, ord, g);
    }
  }

  /** The filesystems left are exactly those outside the subtree. */
  ghost predicate Survivors(p: Pool, q: Pool, x: Path) {
    forall f :: f in q.fs <==> f in p.fs && !(x <= f)
  }

  lemma SurvivorsAre(p: Pool, q: Pool, x: Path)
    requires OthersStay(p, q, x) && NoneBelow(q, x) && q.fs.Keys <= p.fs.Keys
    ensures Survivors(p, q, x)
  {
    assert forall f | f in q.fs :: f in p.fs.Keys;
  }

  /** Opens a filesystem below the pool's root and destroys it with its clones promoted. In every
      state the pool goes through, whatever happens, origins exist, no dataset is its own clone's
      clone, and nothing outside the subtree is destroyed; and whenever the call succeeds, exactly the
      filesystems outside are left. If the subtree is prepared the call does what `Outcomes` says. If,
      besides, no foreign call fails and no two datasets are equally old, a successful call destroys
      exactly the `Lost` snapshots outside; and if the pool is small enough for the search, it succeeds
      exactly if every dataset with clones can pass, in the order `ord` in which its children were
      listed. With fresh suffixed names the order of the snapshots does not matter: then it succeeds
      exactly if no snapshot that stays behind has a name of the clone. A call on a prepared subtree that
      fails, on the way through `tree`, leaves what `Halted` says. */
  method OpenDestroyPromote(z: Zfs, x: Path)
    returns (found: bool, res: Outcome, ghost pr: set<Path>, ghost ord: Orders, ghost tree: Dataset, ghost halt: Halt)
    requires z.Valid() && |x| > 1
    modifies z
    ensures z.Valid() && old(z.trace) <= z.trace && OthersStay(old(z.pool), z.pool, x)
    ensures forall i | |old(z.trace)| - 1 <= i < |z.trace| ::
      && WF(z.trace[i]) && OthersStay(old(z.pool), z.trace[i], x)
      && forall w | |w| >= 2 && CloneWalk(z.trace[i], w) :: w[0] != w[|w| - 1]
    ensures old(z.Calm()) ==> found == (x in old(z.pool).fs)
    ensures !found ==> z.pool == old(z.pool)
    ensures found && res == Ok ==> Survivors(old(z.pool), z.pool, x)
    ensures found && old(z.Steady()) ==>
      forall e | e in Sub(old(z.pool), x) :: e in ord && IsOrder(old(z.pool), e, ord[e])
    ensures found && old(z.Steady()) && Prepared(old(z.pool), Sub(old(z.pool), x), ord) ==>
      Outcomes(old(z.pool), z.pool, x, pr, res == Ok)
    ensures found && old(z.Steady()) ==> Reflects(old(z.pool), tree) && tree.name == Fs(x) && Ordered(tree, ord)
    ensures found && old(z.Steady()) && Prepared(old(z.pool), Sub(old(z.pool), x), ord) && res != Ok ==>
      Halted(old(z.pool), z.pool, tree, halt)
    ensures found && old(z.Calm()) && Prepared(old(z.pool), Sub(old(z.pool), x), ord) && res == Ok ==>
      Thorough(old(z.pool), z.pool, pr, Sub(old(z.pool), x), ord)
    ensures found && old(z.Calm()) && Aged(old(z.pool)) && res == Ok ==>
      Prepared(old(z.pool), Sub(old(z.pool), x), ord) ==>
      LosesExactly(old(z.pool), z.pool, x, ord)
    ensures found && old(z.Calm()) && Aged(old(z.pool)) && Small(old(z.pool)) ==>
      Prepared(old(z.pool), Sub(old(z.pool), x), ord) ==>
      && res != Blocked
      && (res == Ok <==> Passable(old(z.pool), Sub(old(z.pool), x), ord))
      && (SuffixFresh(old(z.pool), Sub(old(z.pool), x)) ==>
        (res == Ok <==> Compatible(old(z.pool), Sub(old(z.pool), x))))
  {
    hide WF, Reflects, Opened, Shaped, Unshared, History, Sub, Passable, Compatible, Aged, Small, Prepared, SuffixFresh;
    hide Outcomes, Thorough, LosesExactly, OthersStay, CloneWalk, Ordered, IsOrder, NoneBelow, Survivors, Halted;
    ghost var p := z.pool;
    z.PoolIsWF();
    z.CalmIsSteady();
    ghost var steady := z.Steady();
    ghost var first := |z.trace| - 1;
    OthersStayNow(p, x);
    res, pr, ord := Ok, {}, map[];
    var d;
    d, found := DatasetOpen(z, Fs(x));
    tree, halt := d, InFirst(None, 0);
    if found {
      ord := OrdersIn(d);
      OrdersAre(d);
      HandlesAllocated(d);
      ListIsThere(d);
      UsableOpened(d);
      if steady {
        AllOrdersTrue(p, d, ord);
      }
      d, res, pr, halt := DestroyPromote(z, d, ord);
      HistoryAt(z.trace, first, |z.trace| - 1);
      if res == Ok {
        SurvivorsAre(p, z.pool, x);
      }
      z.PoolIsWF();
      if Outcomes(p, z.pool, x, pr, true) && Thorough(p, z.pool, pr, Sub(p, x), ord) && Aged(p) {
        LossIsExact(p, z.pool, x, pr, ord);
      }
      PassableFresh(p, x, ord);
      ThoroughPasses(p, z.pool, pr, Sub(p, x), ord);
    }
    assert z.trace[first] == p;
    forall i | first <= i < |z.trace|
      ensures WF(z.trace[i]) && OthersStay(p, z.trace[i], x)
      ensures forall w | |w| >= 2 && CloneWalk(z.trace[i], w) :: w[0] != w[|w| - 1]
    {
      EveryState(z.trace, first, i, x);
    }
  }

  lemma ListIsThere(d: Dataset)
    requires Opened(d)
    ensures d.list != null
  {
  }

  lemma UsableOpened(d: Dataset)
    requires Opened(d)
    ensures Usable(d)
  {
  }

  lemma AllOrdersTrue(p: Pool, d: Dataset, ord: Orders)
    requires WF(p) && Reflects(p, d) && Ordered(d, ord) && d.name.Fs?
    ensures forall e | e in Sub(p, d.name.path) :: e in ord && IsOrder(p, e, ord[e])
  {
    hide WF, Reflects, Ordered, IsOrder, Sub;
    forall e | e in Sub(p, d.name.path)
      ensures e in ord && IsOrder(p, e, ord[e])
    {
      OrdersAreTrue(p, d, ord, e);
    }
  }

  lemma PassableFresh(p: Pool, x: Path, ord: Orders)
    requires |x| > 1
    ensures SuffixFresh(p, Sub(p, x)) ==> (Passable(p, Sub(p, x), ord) <==> Compatible(p, Sub(p, x)))
  {
    hide SuffixFresh, Passable, Compatible;
    if SuffixFresh(p, Sub(p, x)) {
      PassableIfFresh(p, Sub(p, x), ord);
    }
  }

  lemma ThoroughPasses(p: Pool, q: Pool, pr: set<Path>, t: set<Path>, ord: Orders)
    ensures Thorough(p, q, pr, t, ord) && Aged(p) ==> Passable(p, t, ord)
  {
    hide Aged, Passable, OnlyNeeded, OwnSwept, HeldKept;
  }

  lemma OthersStayNow(p: Pool, x: Path)
    ensures OthersStay(p, p, x)
  {
  }

  lemma AllFreed(d: Dataset, u: set<Once>)
    requires AllGuard(u) && forall o | o in u :: o.done
    ensures forall o | o in u :: o.node.frees == 1 && o.node.zh == None
  {
  }
}
