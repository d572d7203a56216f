/** The steps of `DestroyPromote`: what holds between two children, and at the end. */
module DestroySteps {
  import opened Pools
  import opened Frames
  import opened Handles
  import opened Trees
  import opened Lookup
  import opened CloneLists
  import opened Promotion
  import opened CachedOrders
  import opened Siblings
  import opened Removal
  import opened OwnSnapshots
  import opened HandOver
  import opened Destroying
  import opened KidSteps

  /** No dataset names the snapshot `n` as its origin. */
  ghost predicate Quiet(p: Pool, n: Name) {
    n.Snap? && forall f | f in p.fs :: OriginName(p, f) != Some(n)
  }

  /** A name below the pool's root: what `PoolName` makes of it is the pool. */
  ghost predicate Below(p: Pool, n: Name) {
    |n.path| > 1 && n.path[0] == p.name
  }

  /** Every filesystem outside the subtree of `x` is still there. */
  ghost predicate OthersStay(p: Pool, q: Pool, x: Path) {
    forall f | f in p.fs && !(x <= f) :: f in q.fs
  }

  /** What is known between two children, if the call started well. */
  ghost predicate Between(p: Pool, r: Pool, q: Pool, d: Dataset, i: nat, pr: set<Path>, ord: Orders)
    requires i <= |d.kids|
  {
    && Good(p, d, ord) && WF(q)
    && Progress(p, r, q, d.name.path, Sub(p, d.name.path), Covered(p, d.name.path, d.kids[..i]), pr)
    && OwnLeft(r, q, d.name.path, SnapNames(SnapKids(d.kids[..i])))
  }

  /** What was achieved over the datasets of `a`, of all those in `t`, if no foreign call failed: of
      their snapshots only needed ones are left; of those exposed on the promoted clones only held
      ones, and all held ones; and if the youngest clones are unique, all of `a` could get through. */
  ghost predicate Partly(p: Pool, q: Pool, pr: set<Path>, a: set<Path>, t: set<Path>, ord: Orders) {
    && OnlyNeeded(p, q, a) && OwnSwept(p, q, pr, a, t, ord) && HeldKept(p, q, t, ord)
    && (Aged(p) ==> Passable(p, a, ord))
  }

  /** What a whole call achieves. */
  ghost predicate Thorough(p: Pool, q: Pool, pr: set<Path>, t: set<Path>, ord: Orders) {
    Partly(p, q, pr, t, t, ord)
  }

  ghost predicate BetweenCalm(p: Pool, q: Pool, d: Dataset, i: nat, pr: set<Path>, ord: Orders)
    requires i <= |d.kids|
  {
    Partly(p, q, pr, Covered(p, d.name.path, d.kids[..i]) - {d.name.path}, Sub(p, d.name.path), ord)
  }

  // ----- one child -----

  lemma KidFsReady(p: Pool, r: Pool, q: Pool, d: Dataset, i: nat, pr: set<Path>, ord: Orders)
    requires i < |d.kids| && d.kids[i].name.Fs? && Between(p, r, q, d, i, pr, ord)
    ensures var y, a := d.kids[i].name.path, Covered(p, d.name.path, d.kids[..i]);
      && Good(q, d.kids[i], ord) && Sub(q, y) == Sub(p, y) && a !! Sub(p, y) && Sub(p, y) <= Sub(p, d.name.path)
      && Next(a, pr, Sub(p, y), Sub(p, d.name.path), p, q)
      && (Passable(q, Sub(p, y), ord) <==> Passable(p, Sub(p, y), ord))
      && InTurn(ord, a, Sub(p, y), Sub(p, d.name.path))
  {
    hide Progress, Reflects, Prepared, Covered, Next, Passable, WF;
    var x := d.name.path;
    ReflectsIsShaped(p, d);
    KidsAreChildren(d);
    assert x in p.fs by {
      ReflectsExists(p, d);
    }
    CoveredApart(p, x, d.kids, i);
    WFRooted(p);
    KidInTurn(p, d, i, ord);
    KidIsGood(p, r, q, d, d.kids[i], Covered(p, x, d.kids[..i]), pr, ord);
  }

  lemma CoveredStep(p: Pool, d: Dataset, i: nat)
    requires i < |d.kids|
    ensures Covered(p, d.name.path, d.kids[..i + 1]) ==
            Covered(p, d.name.path, d.kids[..i]) + (if d.kids[i].name.Fs? then Sub(p, d.kids[i].name.path) else {})
    ensures SnapKids(d.kids[..i + 1]) == SnapKids(d.kids[..i]) + (if d.kids[i].name.Snap? then [d.kids[i]] else [])
  {
    assert d.kids[..i + 1][..i] == d.kids[..i];
  }

  /** A child filesystem was destroyed with everything below it. */
  lemma KidFsDone(p: Pool, r: Pool, q: Pool, s: Pool, d: Dataset, i: nat, pr: set<Path>, pb: set<Path>, ord: Orders)
    requires i < |d.kids| && d.kids[i].name.Fs? && Between(p, r, q, d, i, pr, ord)
    requires WF(s) && Outcomes(q, s, d.kids[i].name.path, pb, true)
    ensures Between(p, r, s, d, i + 1, pr + pb, ord)
    ensures BetweenCalm(p, q, d, i, pr, ord) && Thorough(q, s, pb, Sub(q, d.kids[i].name.path), ord) ==>
      BetweenCalm(p, s, d, i + 1, pr + pb, ord)
  {
    hide Progress, Covered, Next, Passable, WF, Good, Sub, Frame, Gone, Chosen, OwnLeft, SnapKids, SnapNames;
    hide Thorough, Partly;
    var x, y := d.name.path, d.kids[i].name.path;
    var a, b, t := Covered(p, x, d.kids[..i]), Sub(p, y), Sub(p, x);
    KidFsReady(p, r, q, d, i, pr, ord);
    CoveredStep(p, d, i);
    WFOrigins(s);
    ProgressKid(p, r, q, s, x, t, a, pr, b, pb);
    XNotBelow(p, r, q, d, i, pr, ord);
    BetweenOrigins(p, r, q, d, i, pr, ord);
    KidKeepsSnaps(p, r, q, s, x, t, a, pr, b, pb);
    assert SnapKids(d.kids[..i]) + [] == SnapKids(d.kids[..i]);
    if BetweenCalm(p, q, d, i, pr, ord) && Thorough(q, s, pb, b, ord) {
      ThoroughKid(p, r, q, s, d, i, pr, pb, ord);
      assert (a - {x}) + b == (a + b) - {x};
    }
  }

  lemma ThoroughKid(p: Pool, r: Pool, q: Pool, s: Pool, d: Dataset, i: nat, pr: set<Path>, pb: set<Path>, ord: Orders)
    requires i < |d.kids| && d.kids[i].name.Fs? && Between(p, r, q, d, i, pr, ord) && BetweenCalm(p, q, d, i, pr, ord)
    requires Frame(Sub(p, d.kids[i].name.path), pb, q, s) && Thorough(q, s, pb, Sub(p, d.kids[i].name.path), ord)
    ensures var below := Covered(p, d.name.path, d.kids[..i]) - {d.name.path};
      Partly(p, s, pr + pb, below + Sub(p, d.kids[i].name.path), Sub(p, d.name.path), ord)
  {
    hide Progress, Covered, Next, Passable, WF, Good, Sub, Frame, Gone, Chosen, OwnLeft, OnlyNeeded, OwnSwept, SnapKids;
    hide SnapNames, Aged, InTurn, HeldKept, GoneBefore;
    var x, y := d.name.path, d.kids[i].name.path;
    var a, b, t := Covered(p, x, d.kids[..i]), Sub(p, y), Sub(p, x);
    KidFsReady(p, r, q, d, i, pr, ord);
    BetweenFrame(p, r, q, d, i, pr, ord);
    if Aged(p) {
      AgedSame(t, pr, p, q);
    }
    NeededUnion(p, q, s, t, a, pr, a - {x}, b, pb);
    ThoroughKidOwn(p, r, q, s, d, i, pr, pb, ord);
    PassableUnion(p, a - {x}, b, ord);
  }

  /** The same for the snapshots the promoted clones had of their own. */
  lemma ThoroughKidOwn(p: Pool, r: Pool, q: Pool, s: Pool, d: Dataset, i: nat, pr: set<Path>, pb: set<Path>,
                       ord: Orders)
    requires i < |d.kids| && d.kids[i].name.Fs? && Between(p, r, q, d, i, pr, ord) && BetweenCalm(p, q, d, i, pr, ord)
    requires Frame(Sub(p, d.kids[i].name.path), pb, q, s) && Thorough(q, s, pb, Sub(p, d.kids[i].name.path), ord)
    ensures var below := Covered(p, d.name.path, d.kids[..i]) - {d.name.path};
      && OwnSwept(p, s, pr + pb, below + Sub(p, d.kids[i].name.path), Sub(p, d.name.path), ord)
      && HeldKept(p, s, Sub(p, d.name.path), ord)
  {
    hide Progress, Covered, Next, Passable, WF, Good, Frame, Chosen, OwnLeft, OnlyNeeded, OwnSwept, SnapKids;
    hide SnapNames, Aged, InTurn, HeldKept, GoneBefore;
    var x, y := d.name.path, d.kids[i].name.path;
    var a, b, t := Covered(p, x, d.kids[..i]), Sub(p, y), Sub(p, x);
    KidFsReady(p, r, q, d, i, pr, ord);
    XNotBelow(p, r, q, d, i, pr, ord);
    EarlierAreGone(p, r, q, d, i, pr, ord);
    OwnSweptUnion(p, r, q, s, x, t, a, pr, a - {x}, b, pb, ord);
    HeldKeptThen(p, r, q, s, x, t, a, pr, b, pb, ord);
  }

  lemma EarlierAreGone(p: Pool, r: Pool, q: Pool, d: Dataset, i: nat, pr: set<Path>, ord: Orders)
    requires i < |d.kids| && d.kids[i].name.Fs? && Between(p, r, q, d, i, pr, ord)
    ensures forall f, e | f in Covered(p, d.name.path, d.kids[..i]) && f != d.name.path
      && e in Sub(p, d.kids[i].name.path) :: GoneBefore(ord, f, e)
  {
    hide Progress, Covered, WF, Reflects, Prepared, BranchBefore;
    ReflectsIsShaped(p, d);
    KidsAreChildren(d);
    ReflectsExists(p, d);
    forall f, e | f in Covered(p, d.name.path, d.kids[..i]) && f != d.name.path && e in Sub(p, d.kids[i].name.path)
      ensures GoneBefore(ord, f, e)
    {
      var j := CoveredBy(p, d.name.path, d.kids, i, f);
      EarlierBranch(d, j, i, ord, f, e);
    }
  }

  lemma BetweenOrigins(p: Pool, r: Pool, q: Pool, d: Dataset, i: nat, pr: set<Path>, ord: Orders)
    requires i <= |d.kids| && Between(p, r, q, d, i, pr, ord)
    ensures OwnLeft(r, q, d.name.path, SnapNames(SnapKids(d.kids[..i])))
  {
  }

  lemma XNotBelow(p: Pool, r: Pool, q: Pool, d: Dataset, i: nat, pr: set<Path>, ord: Orders)
    requires i < |d.kids| && d.kids[i].name.Fs? && Between(p, r, q, d, i, pr, ord)
    ensures d.name.path !in Sub(p, d.kids[i].name.path)
  {
    hide Progress, Covered, Prepared, WF;
    KidName(p, d, d.kids[i]);
  }

  lemma PassableUnion(p: Pool, a: set<Path>, b: set<Path>, ord: Orders)
    ensures Passable(p, a + b, ord) <==> Passable(p, a, ord) && Passable(p, b, ord)
  {
    hide IsTop, Passes;
  }

  /** A child filesystem was not destroyed. */
  lemma KidFsFailed(p: Pool, r: Pool, q: Pool, s: Pool, d: Dataset, i: nat, pr: set<Path>, pb: set<Path>, ord: Orders)
    requires i < |d.kids| && d.kids[i].name.Fs? && Between(p, r, q, d, i, pr, ord)
    requires Outcomes(q, s, d.kids[i].name.path, pb, false)
    ensures Frame(Sub(p, d.name.path), pr + pb, p, s)
    ensures !Passable(q, Sub(q, d.kids[i].name.path), ord) ==> !Passable(p, Sub(p, d.name.path) - {d.name.path}, ord)
  {
    hide Progress, Covered, Next, Passable, WF, Good, Frame;
    var x, y := d.name.path, d.kids[i].name.path;
    var a, b, t := Covered(p, x, d.kids[..i]), Sub(p, y), Sub(p, x);
    KidFsReady(p, r, q, d, i, pr, ord);
    KidFailed(p, r, q, s, x, t, a, pr, b, pb);
    XNotBelow(p, r, q, d, i, pr, ord);
    PassableUnion(p, b, t - {x}, ord);
    assert b + (t - {x}) == t - {x};
  }

  /** A child snapshot was destroyed, or was gone already. */
  lemma KidSnapDone(p: Pool, r: Pool, q: Pool, d: Dataset, i: nat, pr: set<Path>, ord: Orders)
    requires i < |d.kids| && d.kids[i].name.Snap? && d.kids[i].name.path == d.name.path
    requires Between(p, r, q, d, i, pr, ord)
    requires WF(Destroy(q, d.kids[i].name))
    ensures Between(p, r, Destroy(q, d.kids[i].name), d, i + 1, pr, ord)
    ensures BetweenCalm(p, q, d, i, pr, ord) ==> BetweenCalm(p, Destroy(q, d.kids[i].name), d, i + 1, pr, ord)
  {
    hide Covered, Passable, WF, Good, Sub, Frame, Chosen, OwnLeft, OnlyNeeded, SnapKids, OwnSame, OutsideSame;
    hide Destroy, XOrigin, NoInternal, OriginsExist, Aged, OwnSwept, HeldKept, SnapNames;
    var x, n := d.name.path, d.kids[i].name.snap;
    var s := Destroy(q, d.kids[i].name);
    var a := Covered(p, x, d.kids[..i]);
    CoveredStep(p, d, i);
    assert a + {} == a;
    WFOrigins(s);
    ProgressSnap(p, r, q, x, Sub(p, x), a, pr, n);
    SnapKeepsSnaps(r, q, x, Sub(p, x), n);
    SnapNamesAdd(SnapKids(d.kids[..i]), d.kids[i]);
    if BetweenCalm(p, q, d, i, pr, ord) {
      SnapKeepsNeeded(p, q, d.kids[i].name, a - {x});
      DestroyedSnaps(q, d.kids[i].name);
      OwnSweptLess(p, q, s, pr, a - {x}, Sub(p, x), ord);
      HeldKeptSnap(p, r, q, x, Sub(p, x), a, pr, n, ord);
    }
  }

  lemma DestroyedSnaps(q: Pool, n: Name)
    ensures Destroy(q, n).snaps.Keys <= q.snaps.Keys && (n.Fs? ==> Destroy(q, n).snaps == q.snaps)
  {
  }

  lemma SnapNamesAdd(ks: seq<Dataset>, k: Dataset)
    requires k.name.Snap?
    ensures SnapNames(ks + [k]) == SnapNames(ks) + {k.name.snap}
  {
    assert (ks + [k])[..|ks|] == ks && (ks + [k])[..|ks| + 1] == ks + [k];
    SnapNamesSnoc(ks + [k], |ks|);
  }

  lemma KidSnapQuiet(p: Pool, r: Pool, q: Pool, d: Dataset, i: nat, pr: set<Path>, ord: Orders)
    requires i < |d.kids| && d.kids[i].name.Snap? && d.kids[i].name.path == d.name.path
    requires Between(p, r, q, d, i, pr, ord)
    ensures Quiet(q, d.kids[i].name)
  {
    hide Progress, Covered, WF, Good;
    var x := d.name.path;
    SnapKidIsQuiet(p, r, q, x, Sub(p, x), Covered(p, x, d.kids[..i]), pr, d.kids[i].name.snap);
  }

  lemma KidBelow(p: Pool, r: Pool, q: Pool, d: Dataset, i: nat, pr: set<Path>, ord: Orders)
    requires i < |d.kids| && d.kids[i].name.path == d.name.path && Between(p, r, q, d, i, pr, ord)
    ensures |d.name.path| > 1 ==> Below(q, d.kids[i].name)
  {
    hide WF, Reflects, Prepared, Frame;
    WFRooted(q);
  }

  lemma BetweenFrame(p: Pool, r: Pool, q: Pool, d: Dataset, i: nat, pr: set<Path>, ord: Orders)
    requires i <= |d.kids| && Between(p, r, q, d, i, pr, ord)
    ensures Frame(Sub(p, d.name.path), pr, p, q)
  {
    hide Progress, Covered, WF, Good, Frame, Sub;
    ProgressFrame(p, r, q, d.name.path, Sub(p, d.name.path), Covered(p, d.name.path, d.kids[..i]), pr);
  }

  // ----- the dataset itself -----

  lemma SnapKidNames(p: Pool, d: Dataset, n: string)
    requires Reflects(p, d) && d.name.Fs?
    ensures n in SnapNames(SnapKids(d.kids)) <==> SnapExists(p, d.name.path, n)
  {
    hide Reflects, SnapExists, SnapKids;
    if SnapExists(p, d.name.path, n) {
      var i := SnapInKids(p, d, n);
      assert SnapKids(d.kids)[i] in SnapKids(d.kids);
    }
    if n in SnapNames(SnapKids(d.kids)) {
      var k :| k in SnapKids(d.kids) && k.name.Snap? && k.name.snap == n;
      SnapKidsAre(d.kids);
      KidName(p, d, k);
      SnapKidExists(p, d, k);
      ReflectsIsShaped(p, d);
      KidsAreChildren(d);
    }
  }

  lemma AllKidsDone(p: Pool, r: Pool, q: Pool, d: Dataset, pr: set<Path>, ord: Orders)
    requires Between(p, r, q, d, |d.kids|, pr, ord)
    ensures Progress(p, r, q, d.name.path, Sub(p, d.name.path), Sub(p, d.name.path), pr)
    ensures OwnLeft(r, q, d.name.path, SnapNames(SnapKids(d.kids)))
    ensures var t := Sub(p, d.name.path);
      BetweenCalm(p, q, d, |d.kids|, pr, ord) ==> Partly(p, q, pr, t - {d.name.path}, t, ord)
  {
    hide Progress, Covered, WF, Prepared, Reflects, Sub, OwnLeft, SnapKids, SnapNames, Partly, Ordered;
    assert d.kids[..|d.kids|] == d.kids;
    ReflectsExists(p, d);
    CoveredAll(p, d.name.path, d);
  }

  /** The dataset itself was destroyed. */
  lemma SelfDone(p: Pool, r: Pool, q: Pool, d: Dataset, pr: set<Path>, ord: Orders)
    requires Between(p, r, q, d, |d.kids|, pr, ord)
    ensures Outcomes(p, Destroy(q, d.name), d.name.path, pr, true)
    ensures var t := Sub(p, d.name.path);
      BetweenCalm(p, q, d, |d.kids|, pr, ord) ==> Partly(p, Destroy(q, d.name), pr, t - {d.name.path}, t, ord)
  {
    hide Covered, WF, Prepared, Reflects, Sub, OwnLeft, OnlyNeeded, OwnSwept, HeldKept, Passable, Aged, SnapKids;
    hide SnapNames, Frame, Gone, Destroy, OwnSame, OutsideSame, Ordered;
    AllKidsDone(p, r, q, d, pr, ord);
    var t := Sub(p, d.name.path);
    FinishFrame(p, r, q, d.name.path, t, pr);
    if BetweenCalm(p, q, d, |d.kids|, pr, ord) {
      DestroyedSnaps(q, d.name);
      OwnSweptLess(p, q, Destroy(q, d.name), pr, t - {d.name.path}, t, ord);
      HeldKeptSame(p, q, Destroy(q, d.name), t, ord);
    }
  }

  /** The dataset can go once the cached names of its snapshots cover what it holds. */
  lemma SelfCan(p: Pool, r: Pool, q: Pool, d: Dataset, pr: set<Path>, ord: Orders)
    requires Between(p, r, q, d, |d.kids|, pr, ord) && |d.name.path| > 1
    ensures CanDestroy(q, d.name) <==>
      forall g | g in r.snaps && r.snaps[g].owner == d.name.path :: SnapExists(p, d.name.path, r.snaps[g].name)
  {
    hide Covered, WF, Prepared, Sub, OwnLeft, SnapKids, SnapNames, Frame, Gone, Progress, SnapExists, Between;
    hide CanDestroy;
    hide Reflects, Ordered;
    var x, done := d.name.path, SnapNames(SnapKids(d.kids));
    GoodOf(p, r, q, d, pr, ord);
    AllKidsDone(p, r, q, d, pr, ord);
    forall n
      ensures n in done <==> SnapExists(p, x, n)
    {
      SnapKidNames(p, d, n);
    }
    DestroyableIff(p, r, q, x, Sub(p, x), pr, done);
  }

  /** A dataset without clones goes once its children are gone. */
  lemma SelfUncloned(p: Pool, q: Pool, d: Dataset, pr: set<Path>, ord: Orders)
    requires Between(p, p, q, d, |d.kids|, pr, ord) && |d.name.path| > 1
    requires forall f :: !IsClone(p, f, d.name.path)
    ensures CanDestroy(q, d.name)
    ensures BetweenCalm(p, q, d, |d.kids|, pr, ord) ==> Thorough(p, Destroy(q, d.name), pr, Sub(p, d.name.path), ord)
  {
    hide Covered, WF, Prepared, Sub, OwnLeft, OnlyNeeded, OwnSwept, HeldKept, Passable, Aged, SnapKids, SnapNames;
    hide Frame, Gone;
    hide Progress, SnapExists, Between, BetweenCalm, CanDestroy, Destroy, IsClone;
    var x, done := d.name.path, SnapNames(SnapKids(d.kids));
    SelfCan(p, p, q, d, pr, ord);
    SnapsHaveNames(p, x);
    if BetweenCalm(p, q, d, |d.kids|, pr, ord) {
      GoodOf(p, p, q, d, pr, ord);
      AllKidsDone(p, p, q, d, pr, ord);
      SelfDone(p, p, q, d, pr, ord);
      forall n
        ensures n in done <==> SnapExists(p, x, n)
      {
        SnapKidNames(p, d, n);
      }
      OwnAllGone(p, p, q, x, done, d.name, Sub(p, x));
      NoTopsPassable(p, Sub(p, x), x, ord);
      OwnSweptUncloned(p, Destroy(q, d.name), pr, Sub(p, x), x, ord);
    }
  }

  lemma GoodOf(p: Pool, r: Pool, q: Pool, d: Dataset, pr: set<Path>, ord: Orders)
    requires Between(p, r, q, d, |d.kids|, pr, ord)
    ensures Good(p, d, ord)
  {
  }

  lemma NoTopsPassable(p: Pool, t: set<Path>, x: Path, ord: Orders)
    requires forall f :: !IsClone(p, f, x)
    ensures Passable(p, t - {x}, ord) ==> Passable(p, t, ord)
  {
    hide Passes;
  }

  lemma OwnSweptUncloned(p: Pool, s: Pool, pr: set<Path>, t: set<Path>, x: Path, ord: Orders)
    requires OwnSwept(p, s, pr, t - {x}, t, ord) && forall f :: !IsClone(p, f, x)
    ensures OwnSwept(p, s, pr, t, t, ord)
  {
    hide Held, ExposedBy;
    forall g | g in p.snaps && Exposed(p, p.snaps[g].owner, g)
      ensures Base(p, p.snaps[g].owner).value != x
    {
      assert !IsClone(p, p.snaps[g].owner, x);
    }
  }

  /** Nothing the dataset itself held survives it, unless it was handed over. */
  lemma OwnAllGone(p: Pool, r: Pool, q: Pool, x: Path, done: set<string>, n: Name, t: set<Path>)
    requires n == Fs(x) && OwnLeft(r, q, x, done) && r.snaps.Keys == p.snaps.Keys
    requires forall g | g in r.snaps && r.snaps[g].owner == x :: r.snaps[g].name in done
    requires OnlyNeeded(p, Destroy(q, n), t - {x})
    ensures (forall g | g in p.snaps && p.snaps[g].owner == x :: r.snaps[g].owner == x) ==>
      OnlyNeeded(p, Destroy(q, n), t)
  {
  }

  /** The dataset was handed over to its youngest clone, which it was ready for. */
  ghost predicate Handed(p: Pool, r: Pool, d: Dataset, c: Path, ord: Orders) {
    && HandedOver(p, r, d.name.path, c) && IsTop(p, d.name.path, c)
    && Movable(p, d.name.path, c) && Orderly(p, d.name.path, c, OrderOf(ord, d.name.path))
  }

  lemma TopIsReady(p: Pool, d: Dataset, c: Path, ord: Orders)
    requires Good(p, d, ord) && IsTop(p, d.name.path, c)
    ensures Ready(p, d, Fs(c)) && OrderOf(ord, d.name.path) == SnapOrder(SnapKids(d.kids))
  {
    hide WF, Reflects, NoInternal, TopsReached, SnapExists, SnapOrder, SnapKids, SnapsIn, KidOrder;
    SnapsInOrder(d.kids);
  }

  lemma HandedMeans(p: Pool, r: Pool, d: Dataset, c: Path, ord: Orders)
    requires Handed(p, r, d, c, ord)
    ensures r.snaps.Keys == p.snaps.Keys && IsTop(p, d.name.path, c) && d.name.path != []
    ensures LeftCached(p, d.name.path, c) ==> Passes(p, d.name.path, c, OrderOf(ord, d.name.path))
  {
    hide Orderly, Movable, LeftCached, IsTop;
  }

  lemma HandedLeftover(p: Pool, r: Pool, d: Dataset, c: Path, ord: Orders)
    requires Handed(p, r, d, c, ord)
    ensures (forall g | g in r.snaps && r.snaps[g].owner == d.name.path :: SnapExists(p, d.name.path, r.snaps[g].name))
      <==> LeftCached(p, d.name.path, c)
  {
    hide IsTop, SnapExists, Movable, Orderly, LeftCached;
    SnapsHaveNames(p, d.name.path);
    var done := set g | g in p.snaps && p.snaps[g].owner == d.name.path :: p.snaps[g].name;
    forall n
      ensures n in done <==> SnapExists(p, d.name.path, n)
    {
      NamesAre(p, d.name.path, n);
    }
    LeftoverIsCached(p, r, d.name.path, c, done);
  }

  lemma NamesAre(p: Pool, x: Path, n: string)
    ensures n in (set g | g in p.snaps && p.snaps[g].owner == x :: p.snaps[g].name) <==> SnapExists(p, x, n)
  {
    if g :| g in p.snaps && p.snaps[g].owner == x && p.snaps[g].name == n {
      assert IsSnap(p, x, n, g);
    }
  }

  /** After the handover the dataset can go exactly if every snapshot that stayed behind has a cached
      name: the cached name of a renamed snapshot is stale. */
  lemma SelfCloned(p: Pool, r: Pool, q: Pool, d: Dataset, c: Path, pr: set<Path>, ord: Orders)
    requires Between(p, r, q, d, |d.kids|, pr, ord) && |d.name.path| > 1 && Handed(p, r, d, c, ord)
    ensures CanDestroy(q, d.name) <==> LeftCached(p, d.name.path, c)
  {
    hide Between, CanDestroy, Handed, LeftCached, SnapExists;
    SelfCan(p, r, q, d, pr, ord);
    HandedLeftover(p, r, d, c, ord);
  }

  lemma ClonedPasses(p: Pool, r: Pool, d: Dataset, c: Path, ord: Orders)
    requires Good(p, d, ord) && Handed(p, r, d, c, ord)
    ensures LeftCached(p, d.name.path, c) && Aged(p) && Passable(p, Sub(p, d.name.path) - {d.name.path}, ord) ==>
      Passable(p, Sub(p, d.name.path), ord)
    ensures Passable(p, Sub(p, d.name.path), ord) ==> LeftCached(p, d.name.path, c)
  {
    hide WF, Prepared, Reflects, Ordered, Sub, Passable, Aged, Handed, LeftCached, Orderly, Movable, IsTop;
    var x := d.name.path;
    var t := Sub(p, x);
    HandedMeans(p, r, d, c, ord);
    PassableOne(p, x, c, ord);
    PassableUnion(p, t - {x}, {x}, ord);
    XInSub(p, d, ord);
    assert (t - {x}) + {x} == t;
  }

  lemma XInSub(p: Pool, d: Dataset, ord: Orders)
    requires Good(p, d, ord)
    ensures d.name.path in Sub(p, d.name.path) && d.name.path in p.fs
    ensures forall f | f in Sub(p, d.name.path) :: d.name.path <= f
  {
    ReflectsExists(p, d);
  }

  /** The clean-up removes snapshots that were handed over, and exposed ones. */
  lemma CleanedFrame(p: Pool, q: Pool, s: Pool, x: Path, t: set<Path>, pr: set<Path>, c: Path, psnaps: seq<string>)
    requires Frame(t, pr, p, q) && Pruned(q, s, c, psnaps) && c in pr && IsClone(p, c, x)
    requires x != [] && SavedAll(p, x, c, psnaps) && Movable(p, x, c) && LeftCached(p, x, c)
    ensures Frame(t, pr, p, s)
  {
    hide SavedAll, Movable, LeftCached, Exposed, Lodged;
    forall g | g in p.snaps && p.snaps[g].owner !in t
      ensures Kept(pr, p, s, g)
    {
      assert Kept(pr, p, q, g);
      if g in q.snaps && g !in s.snaps {
        SavedIsExposed(p, x, c, psnaps, g);
      }
    }
    forall g | g in s.snaps && p.snaps[g].owner in t
      ensures Lodged(t, pr, p, g, s.snaps[g])
    {
      assert Lodged(t, pr, p, g, q.snaps[g]);
    }
  }

  /** A saved name is the name of a snapshot the clone had of its own only if that one is exposed. */
  lemma SavedIsExposed(p: Pool, x: Path, c: Path, psnaps: seq<string>, g: Guid)
    requires x != [] && IsClone(p, c, x) && SavedAll(p, x, c, psnaps) && Movable(p, x, c) && LeftCached(p, x, c)
    requires g in p.snaps && p.snaps[g].owner == c && p.snaps[g].name in psnaps
    ensures Exposed(p, c, g)
  {
    hide Suffixed, OriginTxg;
    var n := p.snaps[g].name;
    assert IsSnap(p, c, n, g);
    var m :| SnapExists(p, x, m) && n == NewName(p, x, c, m);
    assert n == Suffixed(x, m) && SnapExists(p, c, m);
    var h :| h in p.snaps && IsSnap(p, x, m, h);
    assert p.snaps[h].txg > OriginTxg(p, c);
    assert StaysBehind(p, x, c, m);
    assert ExposedBy(p, x, c, g, m);
  }

  /** Conversely the name of an exposed snapshot was saved. */
  lemma ExposedIsSaved(p: Pool, x: Path, c: Path, psnaps: seq<string>, g: Guid)
    requires x != [] && IsClone(p, c, x) && SavedAll(p, x, c, psnaps) && g in p.snaps && Exposed(p, c, g)
    ensures p.snaps[g].owner == c && p.snaps[g].name in psnaps
  {
    hide Suffixed, OriginTxg;
    var m :| ExposedBy(p, x, c, g, m);
    var h :| h in p.snaps && IsSnap(p, x, m, h);
    assert SnapExists(p, x, m);
  }

  /** After the clean-up only needed snapshots are left of the dataset's own. */
  lemma CleanedNeeded(p: Pool, r: Pool, q: Pool, s: Pool, d: Dataset, c: Path, pr: set<Path>, psnaps: seq<string>,
                      ord: Orders)
    requires Between(p, r, q, d, |d.kids|, pr, ord) && BetweenCalm(p, q, d, |d.kids|, pr, ord) && |d.name.path| > 1
    requires Handed(p, r, d, c, ord) && SavedAll(p, d.name.path, c, psnaps) && c !in Sub(p, d.name.path)
    requires CanDestroy(q, d.name) && Pruned(Destroy(q, d.name), s, c, psnaps) && Swept(s, c, psnaps)
    ensures OnlyNeeded(p, s, Sub(p, d.name.path))
  {
    hide Covered, WF, Prepared, Sub, Passable, Aged, SnapKids, SnapNames, Frame, Gone, Progress, Between, Ordered;
    hide BetweenCalm, Reflects, IsTop, NewName, Orderly, Movable, HasClone, SavedAll, HandedOver, OwnLeft, OwnSwept;
    hide CanDestroy, Destroy, Pruned, Swept;
    var x := d.name.path;
    var t := Sub(p, x);
    SelfDone(p, r, q, d, pr, ord);
    var q' := Destroy(q, d.name);
    forall g | g in s.snaps && g in p.snaps && p.snaps[g].owner in t
      ensures HasClone(s, g)
    {
      if p.snaps[g].owner == x {
        OwnSnapCleaned(p, r, q, s, d, c, pr, psnaps, g, ord);
      } else {
        PrunedClone(q', s, c, psnaps, g);
      }
    }
  }

  lemma PrunedClone(q: Pool, s: Pool, c: Path, psnaps: seq<string>, g: Guid)
    requires Pruned(q, s, c, psnaps) && g in s.snaps
    ensures g in q.snaps && (HasClone(q, g) ==> HasClone(s, g))
  {
  }

  lemma OwnSnapCleaned(p: Pool, r: Pool, q: Pool, s: Pool, d: Dataset, c: Path, pr: set<Path>, psnaps: seq<string>,
                       g: Guid, ord: Orders)
    requires Between(p, r, q, d, |d.kids|, pr, ord) && |d.name.path| > 1
    requires Handed(p, r, d, c, ord) && SavedAll(p, d.name.path, c, psnaps) && c !in Sub(p, d.name.path)
    requires CanDestroy(q, d.name) && Pruned(Destroy(q, d.name), s, c, psnaps) && Swept(s, c, psnaps)
    requires g in s.snaps && g in p.snaps && p.snaps[g].owner == d.name.path
    ensures HasClone(s, g)
  {
    hide Covered, WF, Prepared, Sub, Passable, Aged, SnapKids, SnapNames, Frame, Gone, Between, Ordered;
    hide Reflects, IsTop, NewName, Orderly, Movable, HasClone, Chosen, OwnSame, NoInternal, XOrigin, OwnLeft;
    hide CanDestroy;
    var x, done := d.name.path, SnapNames(SnapKids(d.kids));
    GoodOf(p, r, q, d, pr, ord);
    AllKidsDone(p, r, q, d, pr, ord);
    DestroyableIff(p, r, q, x, Sub(p, x), pr, done);
    assert g in q.snaps && s.snaps[g] == q.snaps[g];
    LeftIsNotOwn(r, q, x, done, g);
    SnapsHaveNames(p, x);
    assert q.snaps[g] == r.snaps[g];
  }

  lemma LeftIsNotOwn(r: Pool, q: Pool, x: Path, done: set<string>, g: Guid)
    requires OwnLeft(r, q, x, done) && g in q.snaps && g in r.snaps
    requires forall h | h in r.snaps && r.snaps[h].owner == x :: r.snaps[h].name in done
    ensures r.snaps[g].owner != x
  {
  }

  /** After the clean-up, of the exposed snapshots on the promoted clone only held ones are left. */
  lemma CleanedOwn(p: Pool, s: Pool, x: Path, t: set<Path>, pr: set<Path>, c: Path, psnaps: seq<string>, ord: Orders)
    requires Frame(t, pr, p, s) && Gone(s, t) && Chosen(p, t, pr) && c in pr && IsClone(p, c, x) && x in t && x != []
    requires SavedAll(p, x, c, psnaps) && Swept(s, c, psnaps) && OwnSwept(p, s, pr, t - {x}, t, ord)
    ensures OwnSwept(p, s, pr, t, t, ord)
  {
    hide SavedAll, HasClone, Exposed, IsTop, Lodged, Survives, Held;
    forall g | g in s.snaps && g in p.snaps && p.snaps[g].owner in pr && Exposed(p, p.snaps[g].owner, g)
      && Base(p, p.snaps[g].owner).value in t
      ensures Held(p, t, ord, Base(p, p.snaps[g].owner).value, g)
    {
      var o := p.snaps[g].owner;
      if Base(p, o) == Some(x) {
        assert o == c && Kept(pr, p, s, g);
        ExposedIsSaved(p, x, c, psnaps, g);
        HeldAtEnd(p, s, t, pr, ord, x, g);
      } else {
        assert Base(p, o).value in t - {x};
      }
    }
  }

  /** And no held one was destroyed. */
  lemma CleanedKept(p: Pool, q: Pool, s: Pool, x: Path, t: set<Path>, pr: set<Path>, c: Path, psnaps: seq<string>,
                    ord: Orders)
    requires OriginsExist(s) && Frame(t, pr, p, q) && Frame(t, pr, p, s) && Chosen(p, t, pr) && NoInternal(p, t)
    requires Pruned(q, s, c, psnaps) && IsClone(p, c, x) && (forall f | f in t :: x <= f) && HeldKept(p, q, t, ord)
    ensures HeldKept(p, s, t, ord)
  {
    hide Chosen, Held, Lodged, Survives, Exposed, NoInternal;
    forall g | g in p.snaps && p.snaps[g].owner !in t && g !in s.snaps && Base(p, p.snaps[g].owner).Some?
      ensures !Held(p, t, ord, Base(p, p.snaps[g].owner).value, g)
    {
      if g in q.snaps {
        assert Kept(pr, p, q, g);
        LostIsNotHeld(p, s, x, t, pr, c, ord, g);
      }
    }
  }
}
