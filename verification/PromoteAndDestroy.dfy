/** `DestroyPromote`: destroys a dataset with everything below it, promoting clones first. */
module PromoteAndDestroy {
  import opened Pools
  import opened Frames
  import opened Handles
  import opened Trees
  import opened Backend
  import opened Lookup
  import opened CloneSearch
  import opened CloneLists
  import opened Promotion
  import opened CachedOrders
  import opened Choice
  import opened Removal
  import opened OwnSnapshots
  import opened HandOver
  import opened Destroying
  import opened KidSteps
  import opened DestroySteps
  import opened Halts

  lemma StartBetween(p: Pool, r: Pool, d: Dataset, pr: set<Path>, ord: Orders)
    requires Good(p, d, ord) && WF(r) && Progress(p, r, r, d.name.path, Sub(p, d.name.path), {d.name.path}, pr)
    requires p.snaps.Keys == r.snaps.Keys
    ensures Between(p, r, r, d, 0, pr, ord) && BetweenCalm(p, r, d, 0, pr, ord)
  {
    hide Progress, WF, Prepared, Reflects, Ordered;
    assert d.kids[..0] == [];
    OwnStart(p, r, pr, Sub(p, d.name.path), ord);
    assert {d.name.path} - {d.name.path} == {};
    NoneLeftYet(r, d.name.path);
  }

  lemma NoneLeftYet(r: Pool, x: Path)
    ensures OwnLeft(r, r, x, {}) && SnapNames(SnapKids([])) == {}
  {
  }

  /** The recursive calls on the children. `p` and `r` are the pool when the call began and after
      the handover; what is said about them holds if the call started well (`good`). */
  method DestroyKids(z: Zfs, d: Dataset, ghost good: bool, ghost p: Pool, ghost r: Pool, ghost pr0: set<Path>,
                     ghost ord: Orders)
    returns (res: Outcome, ghost pr: set<Path>, ghost i: nat, ghost below: Halt)
    requires z.Valid() && Usable(d) && Shaped(d) && d.name.path != []
    requires good ==> z.Steady() && z.pool == r && Between(p, r, r, d, 0, pr0, ord) && BetweenCalm(p, r, d, 0, pr0, ord)
    modifies z
    ensures z.Valid() && old(z.trace) <= z.trace && OthersStay(old(z.pool), z.pool, d.name.path)
    ensures old(z.Steady()) ==> z.Steady()
    ensures old(z.Calm()) ==> z.Calm()
    ensures good && res == Ok ==> Between(p, r, z.pool, d, |d.kids|, pr, ord) && pr0 <= pr
    ensures good && res == Ok ==> Secured(r, z.pool, d.name.path, pr0)
    ensures good && res != Ok ==> Frame(Sub(p, d.name.path), pr, p, z.pool) && pr0 <= pr
    ensures good && res != Ok ==> KidHalted(p, r, z.pool, d, i, below, pr0)
    ensures good && old(z.Calm()) && res == Ok ==> BetweenCalm(p, z.pool, d, |d.kids|, pr, ord)
    ensures good && old(z.Calm()) && Small(p) && |d.name.path| > 1 ==>
      res != Blocked && (Passable(p, Sub(p, d.name.path) - {d.name.path}, ord) ==> res == Ok)
    ensures d.kids == [] ==> res == Ok && z.pool == old(z.pool)
    decreases d, 0
  {
    hide WF, Reflects, History, Usable, Shaped, Good, Between, BetweenCalm, Frame, Sub, Passable, Small, Aged;
    hide Outcomes, Thorough, Quiet, CanDestroy, Destroy, Secured, Halted, KidHalted;
    HandlesAllocated(d);
    SecuredStart(r, d.name.path, pr0);
    res, pr, i, below := Ok, pr0, 0, InFirst(None, 0);
    for n := 0 to |d.kids|
      invariant z.Valid() && old(z.trace) <= z.trace && OthersStay(old(z.pool), z.pool, d.name.path)
      invariant old(z.Steady()) ==> z.Steady()
      invariant old(z.Calm()) ==> z.Calm()
      invariant good ==> Between(p, r, z.pool, d, n, pr, ord) && pr0 <= pr
      invariant good && old(z.Calm()) ==> BetweenCalm(p, z.pool, d, n, pr, ord)
      invariant good ==> Secured(r, z.pool, d.name.path, pr0)
      invariant res == Ok && (n == 0 ==> z.pool == old(z.pool))
    {
      var k := d.kids[n];
      UsableKid(d, k);
      ShapedChild(d, k);
      ghost var q, pb := z.pool, {};
      if good {
        BeforeKid(p, r, q, d, n, pr, ord);
      }
      var k';
      k', res, pb, below := DestroyPromote(z, k, ord);
      i := n;
      z.PoolIsWF();
      if good {
        if k.name.Fs? {
          if res == Ok {
            KidFsSecured(p, r, q, z.pool, d, n, pr, pb, ord, pr0);
            KidFsDone(p, r, q, z.pool, d, n, pr, pb, ord);
          } else {
            KidFsHalts(p, r, q, z.pool, d, n, pr, pb, ord, below, pr0);
            KidFsFailed(p, r, q, z.pool, d, n, pr, pb, ord);
          }
          pr := pr + pb;
        } else if res == Ok {
          KidSnapSecured(p, r, q, d, n, pr, ord, pr0);
          KidSnapDone(p, r, q, d, n, pr, ord);
        } else {
          KidSnapHalts(p, r, q, d, n, pr, ord, below, pr0);
          BetweenFrame(p, r, q, d, n, pr, ord);
        }
      }
      if res != Ok {
        return;
      }
    }
  }

  /** The preconditions of the call on the next child. */
  lemma BeforeKid(p: Pool, r: Pool, q: Pool, d: Dataset, i: nat, pr: set<Path>, ord: Orders)
    requires i < |d.kids| && Between(p, r, q, d, i, pr, ord) && ChildName(d.name, d.kids[i].name)
    ensures d.kids[i].name.Fs? ==> Good(q, d.kids[i], ord)
    ensures d.kids[i].name.Snap? ==> Quiet(q, d.kids[i].name) && (|d.name.path| > 1 ==> Below(q, d.kids[i].name))
    ensures |d.kids[i].name.path| > 0
    ensures Small(p) ==> Small(q)
  {
    hide Progress, WF, Prepared, Reflects, Sub, Small, Covered, Quiet;
    if d.kids[i].name.Fs? {
      KidFsReady(p, r, q, d, i, pr, ord);
    } else {
      KidSnapQuiet(p, r, q, d, i, pr, ord);
      KidBelow(p, r, q, d, i, pr, ord);
    }
    if Small(p) {
      BetweenFrame(p, r, q, d, i, pr, ord);
      SmallerPool(Sub(p, d.name.path), pr, p, q);
    }
  }

  /** The state after the first phase: either nothing is a clone of the dataset, or its snapshots
      were handed over to the youngest clone and their new names saved. */
  ghost predicate PhaseOne(p: Pool, r: Pool, d: Dataset, clones: seq<Name>, psnaps: seq<string>, ord: Orders) {
    && d.name.path != []
    && (clones == [] ==> r == p && forall f :: !IsClone(p, f, d.name.path))
    && (clones != [] ==>
          && clones[0].Fs? && Handed(p, r, d, clones[0].path, ord)
          && SavedAll(p, d.name.path, clones[0].path, psnaps)
          && clones[0].path !in Sub(p, d.name.path))
  }

  ghost function PhaseOnePromoted(clones: seq<Name>): set<Path> {
    if clones == [] then {} else {clones[0].path}
  }

  lemma PhaseOneStarts(p: Pool, r: Pool, d: Dataset, clones: seq<Name>, psnaps: seq<string>, ord: Orders)
    requires Good(p, d, ord) && WF(r)
    requires clones == [] ==> r == p && forall f :: !IsClone(p, f, d.name.path)
    requires clones != [] ==>
      clones[0].Fs? && Handed(p, r, d, clones[0].path, ord) && SavedAll(p, d.name.path, clones[0].path, psnaps)
    ensures PhaseOne(p, r, d, clones, psnaps, ord)
    ensures Between(p, r, r, d, 0, PhaseOnePromoted(clones), ord)
    ensures BetweenCalm(p, r, d, 0, PhaseOnePromoted(clones), ord)
  {
    hide WF, Reflects, TopsReached, HandedOver, SavedAll, IsTop, Orderly, Movable, Progress, Between;
    hide BetweenCalm, NoInternal, Sub, Ordered;
    XInSub(p, d, ord);
    WFOrigins(p);
    WFOrigins(r);
    if clones == [] {
      StartUncloned(p, d.name.path, Sub(p, d.name.path));
    } else {
      HandedMeans(p, r, d, clones[0].path, ord);
      StartHandedOver(p, r, d.name.path, clones[0].path, Sub(p, d.name.path));
    }
    StartBetween(p, r, d, PhaseOnePromoted(clones), ord);
  }

  ghost function CloneOf(clones: seq<Name>): Option<Path> {
    if clones == [] then None else Some(clones[0].path)
  }

  lemma NothingHalts(p: Pool, d: Dataset)
    ensures Halted(p, p, d, InFirst(None, 0))
  {
    NoneRenamed(p, d.name.path);
  }

  lemma FirstHalts(p: Pool, q: Pool, d: Dataset, head: Name, ord: Orders) returns (halt: Halt)
    requires Good(p, d, ord) && head.Fs? && IsTop(p, d.name.path, head.path)
    requires PartlyResolved(p, q, d, head.path)
    ensures halt.InFirst? && Halted(p, q, d, halt)
  {
    hide WF, Reflects, Prepared, Resolved, OnlyRenamed, Ordered;
    var n :| 0 <= n <= |SnapKids(d.kids)|
      && q == Resolved(p, d.name.path, head.path, SnapNames(SnapKids(d.kids)[..n]));
    ResolvedIsRenamed(p, d.name.path, head.path, SnapNames(SnapKids(d.kids)[..n]));
    halt := InFirst(Some(head.path), n);
  }

  /** The first phase: find the clones and hand the snapshots over to the first of them. */
  method Prepare(z: Zfs, d: Dataset, ghost ord: Orders)
    returns (clones: seq<Name>, psnaps: seq<string>, res: Outcome, ghost halt: Halt)
    requires z.Valid() && Usable(d) && Shaped(d) && d.name.path != []
    modifies z
    ensures z.Valid() && old(z.trace) <= z.trace && z.pool.fs.Keys == old(z.pool).fs.Keys
    ensures old(z.Steady()) ==> z.Steady()
    ensures old(z.Calm()) ==> z.Calm()
    ensures old(z.Steady()) && Good(old(z.pool), d, ord) && res == Ok ==>
      && PhaseOne(old(z.pool), z.pool, d, clones, psnaps, ord)
      && Between(old(z.pool), z.pool, z.pool, d, 0, PhaseOnePromoted(clones), ord)
      && BetweenCalm(old(z.pool), z.pool, d, 0, PhaseOnePromoted(clones), ord)
    ensures old(z.Steady()) && Good(old(z.pool), d, ord) && res != Ok ==>
      Frame(Sub(old(z.pool), d.name.path), {}, old(z.pool), z.pool)
    ensures res != Ok ==> OnlyNames(old(z.pool), z.pool)
    ensures halt.InFirst?
    ensures old(z.Steady()) && Good(old(z.pool), d, ord) && res != Ok ==> Halted(old(z.pool), z.pool, d, halt)
    ensures old(z.Steady()) && Quiet(old(z.pool), d.name) ==> z.pool == old(z.pool) && (res == Ok ==> clones == [])
    ensures old(z.Calm()) && Small(old(z.pool)) && Good(old(z.pool), d, ord) ==>
      res != Blocked && (Passable(old(z.pool), Sub(old(z.pool), d.name.path), ord) ==> res == Ok)
    ensures old(z.Calm()) && Small(old(z.pool)) && Quiet(old(z.pool), d.name) && Below(old(z.pool), d.name) ==>
      res == Ok
  {
    hide WF, Reflects, History, Usable, Shaped, Good, Between, BetweenCalm, Frame, Sub, Small, Quiet, Ready;
    hide HandedOver, SavedAll, Handed, IsTop, IsClone, IsCloneList, VisibleNames, PhaseOne, Exists, Passable, Orderly;
    hide Movable, SnapOrder, Halted, Resolved;
    HandlesAllocated(d);
    z.CalmIsSteady();
    z.PoolIsWF();
    ghost var p := z.pool;
    ghost var steady := z.Steady();
    psnaps := [];
    ClonesContext(p, d, ord);
    halt := InFirst(None, 0);
    NothingHalts(p, d);
    ghost var root;
    clones, res, root := Clones(z, d);
    if res != Ok {
      FrameStart(Sub(p, d.name.path), p);
      return;
    }
    if steady {
      ClonesMeaning(p, d, clones, ord);
    }
    if |clones| > 0 {
      if steady && Good(p, d, ord) {
        HeadPasses(p, d, clones[0], ord);
      }
      var ok;
      psnaps, ok := TakeOver(z, d, clones[0]);
      if !ok {
        if steady && Good(p, d, ord) {
          TakeOverFailed(p, z.pool, d, ord);
          halt := FirstHalts(p, z.pool, d, clones[0], ord);
        }
        res := Err;
        return;
      }
    }
    z.PoolIsWF();
    if steady && Good(p, d, ord) {
      HandedIs(p, z.pool, d, clones, ord);
      PhaseOneStarts(p, z.pool, d, clones, psnaps, ord);
    }
  }

  /** What the search needs to succeed. */
  lemma ClonesContext(p: Pool, d: Dataset, ord: Orders)
    requires WF(p) && d.name.path != []
    ensures Good(p, d, ord) || Below(p, d.name) ==> PoolName(d.name).Fs? && Exists(p, PoolName(d.name))
    ensures Small(p) ==> |VisibleNames(p, d)| <= QUEUE_CAP
  {
    hide WF, VisibleNames, Reflects, Prepared, Small;
    WFRooted(p);
    if Good(p, d, ord) {
      XInSub(p, d, ord);
    }
    if Good(p, d, ord) || Below(p, d.name) {
      assert d.name.path[..1] == [p.name];
    }
    if Small(p) {
      SmallFits(p, d);
    }
  }

  /** What the returned list says. */
  lemma ClonesMeaning(p: Pool, d: Dataset, clones: seq<Name>, ord: Orders)
    requires d.name.path != [] && Shaped(d)
    requires PoolName(d.name).Fs? ==> IsCloneList(p, d, clones)
    requires PoolName(d.name).Snap? ==> clones == []
    ensures Quiet(p, d.name) ==> clones == []
    ensures Good(p, d, ord) && clones == [] ==> forall f :: !IsClone(p, f, d.name.path)
    ensures Good(p, d, ord) && clones != [] ==>
      clones[0].Fs? && IsTop(p, d.name.path, clones[0].path) && Ready(p, d, clones[0])
  {
    hide WF, Reflects, Shaped, IsCloneList, IsTop, Ready, IsClone, NoInternal, TopsReached, Ordered;
    if Quiet(p, d.name) && PoolName(d.name).Fs? {
      SnapHasNoKids(d);
      NoClonesListed(p, d, clones);
    }
    if Good(p, d, ord) {
      XInSub(p, d, ord);
      HeadIsTop(p, d, d.name.path, Sub(p, d.name.path), ord, clones);
      if clones != [] {
        TopIsReady(p, d, clones[0].path, ord);
      }
    }
  }

  lemma TakeOverFailed(p: Pool, q: Pool, d: Dataset, ord: Orders)
    requires Good(p, d, ord) && Frame({d.name.path}, {}, p, q)
    ensures Frame(Sub(p, d.name.path), {}, p, q)
  {
    hide WF, Reflects, Frame, Prepared, Sub;
    XInSub(p, d, ord);
    FrameGrow({d.name.path}, Sub(p, d.name.path), {}, p, q);
  }

  /** If all may get through, this clone's conditions hold. */
  lemma HeadPasses(p: Pool, d: Dataset, head: Name, ord: Orders)
    requires Good(p, d, ord) && head.Fs? && IsTop(p, d.name.path, head.path)
    ensures Passable(p, Sub(p, d.name.path), ord) ==>
      Orderly(p, d.name.path, head.path, SnapOrder(SnapKids(d.kids))) && Movable(p, d.name.path, head.path)
  {
    hide WF, Reflects, Prepared, Sub, IsTop, Orderly, Movable, LeftCached, SnapOrder, SnapKids, Ready;
    XInSub(p, d, ord);
    TopIsReady(p, d, head.path, ord);
  }

  lemma HandedIs(p: Pool, r: Pool, d: Dataset, clones: seq<Name>, ord: Orders)
    requires Good(p, d, ord)
    requires clones != [] ==>
      && clones[0].Fs? && IsTop(p, d.name.path, clones[0].path) && HandedOver(p, r, d.name.path, clones[0].path)
      && Orderly(p, d.name.path, clones[0].path, SnapOrder(SnapKids(d.kids))) && Movable(p, d.name.path, clones[0].path)
    ensures clones != [] ==> clones[0].Fs? && Handed(p, r, d, clones[0].path, ord)
  {
    hide WF, Reflects, Prepared, IsTop, HandedOver, Orderly, Movable, SnapOrder, SnapKids;
    if clones != [] {
      TopIsReady(p, d, clones[0].path, ord);
    }
  }

  // ----- the last phase -----

  lemma FinishedOutcomes(p: Pool, r: Pool, q: Pool, s: Pool, d: Dataset, clones: seq<Name>, psnaps: seq<string>,
                         pr: set<Path>, ord: Orders)
    requires PhaseOne(p, r, d, clones, psnaps, ord) && Between(p, r, q, d, |d.kids|, pr, ord)
    requires PhaseOnePromoted(clones) <= pr && CanDestroy(q, d.name)
    requires if clones == [] then s == Destroy(q, d.name) else Pruned(Destroy(q, d.name), s, clones[0].path, psnaps)
    ensures Outcomes(p, s, d.name.path, pr, true)
  {
    hide Between, Frame, Sub, Chosen, IsClone, Handed, SavedAll, Destroy, CanDestroy, LeftCached, Movable;
    SelfDone(p, r, q, d, pr, ord);
    NotRoot(p, r, q, d, pr, ord);
    if clones != [] {
      var c := clones[0].path;
      SelfCloned(p, r, q, d, c, pr, ord);
      HandedParts(p, r, d, c, ord);
      CleanedFrame(p, Destroy(q, d.name), s, d.name.path, Sub(p, d.name.path), pr, c, psnaps);
    }
  }

  lemma HandedParts(p: Pool, r: Pool, d: Dataset, c: Path, ord: Orders)
    requires Handed(p, r, d, c, ord)
    ensures d.name.path != [] && Movable(p, d.name.path, c) && IsClone(p, c, d.name.path)
  {
    hide Movable;
  }

  lemma FinishedCalm(p: Pool, r: Pool, q: Pool, s: Pool, d: Dataset, clones: seq<Name>, psnaps: seq<string>,
                     pr: set<Path>, ord: Orders)
    requires PhaseOne(p, r, d, clones, psnaps, ord) && Outcomes(p, s, d.name.path, pr, true)
    requires Between(p, r, q, d, |d.kids|, pr, ord) && BetweenCalm(p, q, d, |d.kids|, pr, ord) && CanDestroy(q, d.name)
    requires PhaseOnePromoted(clones) <= pr && OriginsExist(s)
    requires clones == [] ==> s == Destroy(q, d.name)
    requires clones != [] ==> Pruned(Destroy(q, d.name), s, clones[0].path, psnaps) && Swept(s, clones[0].path, psnaps)
    ensures Thorough(p, s, pr, Sub(p, d.name.path), ord)
  {
    hide Between, BetweenCalm, Frame, Gone, Chosen, Sub, IsClone, Handed, SavedAll, Destroy, OnlyNeeded, OwnSwept;
    hide Passable;
    hide Aged, Pruned, Swept, CanDestroy, LeftCached;
    NotRoot(p, r, q, d, pr, ord);
    if clones == [] {
      SelfUncloned(p, q, d, pr, ord);
    } else {
      var c := clones[0].path;
      SelfCloned(p, r, q, d, c, pr, ord);
      CleanedNeeded(p, r, q, s, d, c, pr, psnaps, ord);
      SelfDone(p, r, q, d, pr, ord);
      GoodOf(p, r, q, d, pr, ord);
      XInSub(p, d, ord);
      HandedParts(p, r, d, c, ord);
      ClonedPasses(p, r, d, c, ord);
      PrunedKeys(Destroy(q, d.name), s, c, psnaps);
      OwnSweptLess(p, Destroy(q, d.name), s, pr, Sub(p, d.name.path) - {d.name.path}, Sub(p, d.name.path), ord);
      CleanedOwn(p, s, d.name.path, Sub(p, d.name.path), pr, c, psnaps, ord);
      CleanedKept(p, Destroy(q, d.name), s, d.name.path, Sub(p, d.name.path), pr, c, psnaps, ord);
    }
  }

  lemma PrunedKeys(q: Pool, s: Pool, c: Path, names: seq<string>)
    requires Pruned(q, s, c, names)
    ensures s.snaps.Keys <= q.snaps.Keys
  {
  }

  lemma NotRoot(p: Pool, r: Pool, q: Pool, d: Dataset, pr: set<Path>, ord: Orders)
    requires Between(p, r, q, d, |d.kids|, pr, ord) && CanDestroy(q, d.name)
    ensures |d.name.path| > 1
  {
  }

  /** A dataset that may get through can be destroyed, and the clone reopened afterwards. */
  lemma FinishPossible(p: Pool, r: Pool, q: Pool, d: Dataset, clones: seq<Name>, psnaps: seq<string>,
                       pr: set<Path>, ord: Orders)
    requires PhaseOne(p, r, d, clones, psnaps, ord) && Between(p, r, q, d, |d.kids|, pr, ord)
    ensures clones != [] ==> Exists(Destroy(q, d.name), clones[0])
    ensures |d.name.path| > 1 && Passable(p, Sub(p, d.name.path), ord) ==> CanDestroy(q, d.name)
  {
    hide Between, IsClone, SavedAll, Passable, CanDestroy, Handed, LeftCached;
    if |d.name.path| > 1 && Passable(p, Sub(p, d.name.path), ord) {
      if clones == [] {
        SelfUncloned(p, q, d, pr, ord);
      } else {
        GoodOf(p, r, q, d, pr, ord);
        ClonedPasses(p, r, d, clones[0].path, ord);
        SelfCloned(p, r, q, d, clones[0].path, pr, ord);
      }
    }
    if clones != [] {
      CloneStays(p, r, q, d, clones[0].path, pr, ord);
    }
  }

  lemma CloneStays(p: Pool, r: Pool, q: Pool, d: Dataset, c: Path, pr: set<Path>, ord: Orders)
    requires Between(p, r, q, d, |d.kids|, pr, ord) && Handed(p, r, d, c, ord) && c !in Sub(p, d.name.path)
    ensures c in Destroy(q, d.name).fs
  {
    hide Between, IsTop, Lodged, Kept, Movable, Orderly;
    BetweenFrame(p, r, q, d, |d.kids|, pr, ord);
    GoodOf(p, r, q, d, pr, ord);
    assert Survives(pr, p, q, c);
  }

  /** Destroys the dataset itself and sweeps the promoted clone. */
  method Finish(z: Zfs, d: Dataset, clones: seq<Name>, psnaps: seq<string>,
                ghost good: bool, ghost p: Pool, ghost r: Pool, ghost pr: set<Path>, ghost ord: Orders)
    returns (d': Dataset, res: Outcome)
    requires z.Valid() && Usable(d) && Shaped(d) && d.name.path != []
    requires good ==> z.Steady() && PhaseOne(p, r, d, clones, psnaps, ord)
    requires good ==> Between(p, r, z.pool, d, |d.kids|, pr, ord) && PhaseOnePromoted(clones) <= pr
    modifies z
    ensures z.Valid() && old(z.trace) <= z.trace && OthersStay(old(z.pool), z.pool, d.name.path)
    ensures old(z.Steady()) ==> z.Steady()
    ensures old(z.Calm()) ==> z.Calm()
    ensures d' == d.(kids := [])
    ensures d.name.Fs? && res == Ok ==> NoneBelow(z.pool, d.name.path)
    ensures res != Ok ==> z.pool == old(z.pool) || z.pool == Destroy(old(z.pool), d.name)
    ensures good ==> Outcomes(p, z.pool, d.name.path, pr, res == Ok)
    ensures good && old(z.Calm()) && BetweenCalm(p, old(z.pool), d, |d.kids|, pr, ord) ==>
      && res != Blocked
      && (res == Ok ==> Thorough(p, z.pool, pr, Sub(p, d.name.path), ord))
      && (d.list != null && |d.name.path| > 1 && Passable(p, Sub(p, d.name.path), ord) ==> res == Ok)
    ensures clones == [] ==>
      && z.pool == (if res == Ok then Destroy(old(z.pool), d.name) else old(z.pool))
      && (old(z.Calm()) && d.list != null && CanDestroy(old(z.pool), d.name) ==> res == Ok)
  {
    hide Between, BetweenCalm, PhaseOne, Outcomes, Thorough, Passable, Sub, CanDestroy, Destroy, Usable;
    hide Shaped, History, Pruned, Swept, Exists, NoneBelow;
    UsableName(d);
    z.PoolIsWF();
    DestroyedIsGone(z.pool, d.name);
    ghost var q := z.pool;
    if good {
      FinishPossible(p, r, q, d, clones, psnaps, pr, ord);
      FinishFailed(p, r, q, d, pr, ord);
      PhaseOneHead(p, r, d, clones, psnaps, ord);
    }
    OthersStayDestroyed(q, d.name);
    d' := d.(kids := []);
    res := DestroyOne(z, d');
    if res != Ok {
      return;
    }
    ghost var q' := z.pool;
    if |clones| > 0 && |psnaps| > 0 {
      res := CleanUp(z, clones[0], psnaps);
      PrunedFs(q', z.pool, clones[0].path, psnaps);
    } else if |clones| > 0 {
      PrunedNone(q', clones[0].path, psnaps);
    }
    if good {
      FinishedOutcomes(p, r, q, z.pool, d, clones, psnaps, pr, ord);
      if res != Ok {
        OutcomesWeaken(p, z.pool, d.name.path, pr);
      } else if old(z.Calm()) && BetweenCalm(p, q, d, |d.kids|, pr, ord) {
        z.PoolIsWF();
        WFOrigins(z.pool);
        FinishedCalm(p, r, q, z.pool, d, clones, psnaps, pr, ord);
      }
    }
  }

  /** A filesystem can only be destroyed once there is nothing below it. */
  lemma DestroyedIsGone(q: Pool, n: Name)
    requires WF(q) && n.path != []
    ensures n.Fs? && CanDestroy(q, n) ==> NoneBelow(Destroy(q, n), n.path)
  {
    WFRooted(q);
    forall f | f in q.fs && n.path <= f
      ensures n.path in q.fs
    {
      PrefixExists(q, f, |n.path|);
      assert f[..|n.path|] == n.path;
    }
  }

  lemma PhaseOneHead(p: Pool, r: Pool, d: Dataset, clones: seq<Name>, psnaps: seq<string>, ord: Orders)
    requires PhaseOne(p, r, d, clones, psnaps, ord)
    ensures clones != [] ==> clones[0].Fs?
  {
  }

  lemma OutcomesWeaken(p: Pool, q: Pool, x: Path, pr: set<Path>)
    requires Outcomes(p, q, x, pr, true)
    ensures Outcomes(p, q, x, pr, false)
  {
  }

  lemma FinishFailed(p: Pool, r: Pool, q: Pool, d: Dataset, pr: set<Path>, ord: Orders)
    requires Between(p, r, q, d, |d.kids|, pr, ord)
    ensures Outcomes(p, q, d.name.path, pr, false)
  {
    hide Between, Frame;
    BetweenFrame(p, r, q, d, |d.kids|, pr, ord);
  }

  lemma OthersStayDestroyed(q: Pool, n: Name)
    ensures OthersStay(q, Destroy(q, n), n.path)
  {
  }

  lemma PrunedFs(q: Pool, s: Pool, c: Path, names: seq<string>)
    requires Pruned(q, s, c, names)
    ensures s.fs == q.fs && forall x :: NoneBelow(q, x) <==> NoneBelow(s, x)
  {
  }

  /** What the dataset and its clone hold, in terms of the pool at the start. */
  lemma HandsOn(p: Pool, r: Pool, s: Pool, d: Dataset, clones: seq<Name>, psnaps: seq<string>, ord: Orders,
                pr: set<Path>, done: set<string>)
    requires PhaseOne(p, r, d, clones, psnaps, ord) && Secured(r, s, d.name.path, PhaseOnePromoted(clones))
    requires OwnLeft(r, s, d.name.path, done) && Frame(Sub(p, d.name.path), pr, p, s) && PhaseOnePromoted(clones) <= pr
    ensures HandedOn(p, s, d.name.path, CloneOf(clones), done)
    ensures d.name.path in s.fs ==> StillThere(p, s, d.name.path, CloneOf(clones))
  {
    hide NewName, SavedAll, Movable, Orderly, Kept, Lodged, NotYounger;
    if clones != [] {
      assert Survives(pr, p, s, clones[0].path);
    }
  }

  lemma InKidHalts(p: Pool, r: Pool, s: Pool, d: Dataset, clones: seq<Name>, psnaps: seq<string>, ord: Orders, i: nat,
                   below: Halt, pr: set<Path>)
    requires PhaseOne(p, r, d, clones, psnaps, ord) && KidHalted(p, r, s, d, i, below, PhaseOnePromoted(clones))
    requires Frame(Sub(p, d.name.path), pr, p, s) && PhaseOnePromoted(clones) <= pr
    ensures Halted(p, s, d, InKid(CloneOf(clones), i, below))
  {
    hide PhaseOne, Secured, OwnLeft, Frame, HandedOn, StillThere, EarlierGone, LaterWhole, SnapNames, SnapKids;
    HandsOn(p, r, s, d, clones, psnaps, ord, pr, SnapNames(SnapKids(d.kids[..i])));
  }

  lemma LastHalts(p: Pool, r: Pool, q: Pool, s: Pool, d: Dataset, clones: seq<Name>, psnaps: seq<string>, pr: set<Path>,
                  ord: Orders)
    requires PhaseOne(p, r, d, clones, psnaps, ord) && Between(p, r, q, d, |d.kids|, pr, ord)
    requires Secured(r, q, d.name.path, PhaseOnePromoted(clones)) && PhaseOnePromoted(clones) <= pr
    requires s == q || s == Destroy(q, d.name)
    ensures Halted(p, s, d, InLast(CloneOf(clones)))
  {
    hide PhaseOne, Between, Secured, OwnLeft, Frame, HandedOn, StillThere, EarlierGone, SnapNames, SnapKids, Destroy;
    hide Sub;
    AllKidsDone(p, r, q, d, pr, ord);
    GoodOf(p, r, q, d, pr, ord);
    BeforeAreGone(p, r, q, q, d, |d.kids|, pr, ord);
    BetweenFrame(p, r, q, d, |d.kids|, pr, ord);
    HandsOn(p, r, q, d, clones, psnaps, ord, pr, SnapNames(SnapKids(d.kids)));
    XInSub(p, d, ord);
    CloneIsOutside(p, r, d, clones, psnaps, ord);
    SelfGone(p, q, d, CloneOf(clones), SnapNames(SnapKids(d.kids)));
  }

  lemma CloneIsOutside(p: Pool, r: Pool, d: Dataset, clones: seq<Name>, psnaps: seq<string>, ord: Orders)
    requires PhaseOne(p, r, d, clones, psnaps, ord) && d.name.path in Sub(p, d.name.path)
    ensures CloneOf(clones) != Some(d.name.path)
  {
    hide Handed, SavedAll;
  }

  lemma SelfGone(p: Pool, q: Pool, d: Dataset, clone: Option<Path>, done: set<string>)
    requires d.name.Fs? && HandedOn(p, q, d.name.path, clone, done) && EarlierGone(q, d, |d.kids|)
    requires clone != Some(d.name.path)
    ensures HandedOn(p, Destroy(q, d.name), d.name.path, clone, done)
    ensures EarlierGone(Destroy(q, d.name), d, |d.kids|) && d.name.path !in Destroy(q, d.name).fs
  {
    hide NewName, OriginTxg;
  }

  /** `DestroyPromote`. */
  method DestroyPromote(z: Zfs, d: Dataset, ghost ord: Orders)
    returns (d': Dataset, res: Outcome, ghost pr: set<Path>, ghost halt: Halt)
    requires z.Valid() && Usable(d) && Shaped(d) && d.name.path != []
    modifies z
    ensures z.Valid() && old(z.trace) <= z.trace && OthersStay(old(z.pool), z.pool, d.name.path)
    ensures d' == d || d' == d.(kids := [])
    ensures res == Ok ==> d' == d.(kids := [])
    ensures res != Ok ==> d' == if halt.InLast? then d.(kids := []) else d
    ensures res != Ok && halt.InFirst? ==> OnlyNames(old(z.pool), z.pool)
    ensures d.name.Fs? && res == Ok ==> NoneBelow(z.pool, d.name.path)
    ensures old(z.Steady()) ==> z.Steady()
    ensures old(z.Calm()) ==> z.Calm()
    ensures old(z.Steady()) && Good(old(z.pool), d, ord) ==> Outcomes(old(z.pool), z.pool, d.name.path, pr, res == Ok)
    ensures old(z.Steady()) && Good(old(z.pool), d, ord) && res != Ok ==> Halted(old(z.pool), z.pool, d, halt)
    ensures old(z.Calm()) && Good(old(z.pool), d, ord) && res == Ok ==>
      Thorough(old(z.pool), z.pool, pr, Sub(old(z.pool), d.name.path), ord)
    ensures old(z.Calm()) && Good(old(z.pool), d, ord) && Small(old(z.pool)) && |d.name.path| > 1 ==>
      && res != Blocked
      && (d.list != null && Passable(old(z.pool), Sub(old(z.pool), d.name.path), ord) ==> res == Ok)
    ensures old(z.Steady()) && Quiet(old(z.pool), d.name) ==>
      z.pool == if res == Ok then Destroy(old(z.pool), d.name) else old(z.pool)
    ensures old(z.Calm()) && Small(old(z.pool)) && d.list != null ==>
      (Quiet(old(z.pool), d.name) && Below(old(z.pool), d.name) ==> res == Ok)
    decreases d, 1
  {
    hide Between, BetweenCalm, PhaseOne, Thorough, Passable, Small, Sub, CanDestroy, Destroy, Usable;
    hide Shaped, History, Good, Quiet, Frame, OthersStay, NoneBelow, OnlyNames, Halted, KidHalted, Secured;
    ghost var p := z.pool;
    ghost var good := z.Steady() && Good(p, d, ord);
    ghost var quiet := z.Steady() && Quiet(p, d.name);
    z.CalmIsSteady();
    HandlesAllocated(d);
    d', pr := d, {};
    var clones, psnaps;
    clones, psnaps, res, halt := Prepare(z, d, ord);
    ghost var r := z.pool;
    if quiet {
      QuietIsLeaf(p, d, ord);
    }
    if res != Ok {
      FailedOutcomes(p, r, d, pr);
      return;
    }
    ghost var i, below;
    res, pr, i, below := DestroyKids(z, d, good, p, r, PhaseOnePromoted(clones), ord);
    OthersStayTrans(p, r, z.pool, d.name.path);
    if good {
      PassableLess(p, Sub(p, d.name.path), d.name.path, ord);
    }
    if res != Ok {
      halt := InKid(CloneOf(clones), i, below);
      if good {
        InKidHalts(p, r, z.pool, d, clones, psnaps, ord, i, below, pr);
      }
      FailedOutcomes(p, z.pool, d, pr);
      return;
    }
    ghost var q := z.pool;
    halt := InLast(CloneOf(clones));
    d', res := Finish(z, d, clones, psnaps, good, p, r, pr, ord);
    if good && res != Ok {
      LastHalts(p, r, q, z.pool, d, clones, psnaps, pr, ord);
    }
    OthersStayTrans(p, q, z.pool, d.name.path);
  }

  lemma PassableLess(p: Pool, t: set<Path>, x: Path, ord: Orders)
    ensures Passable(p, t, ord) ==> Passable(p, t - {x}, ord)
  {
    hide IsTop, Passes;
  }

  lemma FailedOutcomes(p: Pool, q: Pool, d: Dataset, pr: set<Path>)
    ensures Frame(Sub(p, d.name.path), pr, p, q) ==> Outcomes(p, q, d.name.path, pr, false)
    ensures p.fs.Keys == q.fs.Keys ==> OthersStay(p, q, d.name.path)
  {
  }

  lemma OthersStayTrans(p: Pool, q: Pool, s: Pool, x: Path)
    requires p.fs.Keys == q.fs.Keys || OthersStay(p, q, x)
    requires OthersStay(q, s, x)
    ensures OthersStay(p, s, x)
  {
  }

  lemma QuietIsLeaf(p: Pool, d: Dataset, ord: Orders)
    requires Quiet(p, d.name) && Shaped(d)
    ensures d.kids == [] && CanDestroy(p, d.name) && !Good(p, d, ord)
  {
    hide Shaped, WF, Reflects;
    SnapHasNoKids(d);
  }
}
