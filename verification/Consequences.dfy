/** What the contract of `DestroyPromote` means for a caller, where its conditions are needed, and
    that they can be met. */
module Consequences {
  import opened Pools
  import opened Frames
  import opened Backend
  import opened Handles
  import opened Trees
  import opened Lookup
  import opened CloneLists
  import opened CachedOrders
  import opened Promotion
  import opened Removal
  import opened OwnSnapshots
  import opened HandOver
  import opened KidSteps
  import opened DestroySteps

  // ----- success, seen from outside -----

  /** After a successful call the survivors are exactly the filesystems outside the subtree; each of
      them has its old origin, except that a promoted clone has the former origin of the doomed
      dataset it was a clone of. */
  lemma SurvivorsAndOrigins(p: Pool, q: Pool, x: Path, pr: set<Path>)
    requires Outcomes(p, q, x, pr, true)
    ensures forall f :: f in q.fs <==> f in p.fs && !(x <= f)
    ensures forall f | f in q.fs && f !in pr :: q.fs[f] == p.fs[f]
    ensures forall f | f in pr ::
      f in q.fs && Base(p, f).Some? && q.fs[f] == p.fs[f].(origin := Origin(p, Base(p, f).value))
  {
    hide Chosen, Lodged, Kept;
    forall f | f in p.fs && !(x <= f)
      ensures Survives(pr, p, q, f)
    {
      assert f !in Sub(p, x);
    }
    forall f | f in p.fs && x <= f
      ensures f !in q.fs
    {
      assert f in Sub(p, x);
    }
  }

  /** Over every doomed dataset that had clones exactly one was promoted, its youngest, and none over
      any other dataset. */
  lemma OnePromotedEach(p: Pool, q: Pool, x: Path, pr: set<Path>, e: Path)
    requires Outcomes(p, q, x, pr, true) && e in Sub(p, x)
    ensures (exists f :: IsClone(p, f, e)) <==> exists c | c in pr :: IsTop(p, e, c)
    ensures forall c, c' | c in pr && c' in pr && IsClone(p, c, e) && IsClone(p, c', e) :: c == c'
    ensures forall c | c in pr :: c !in Sub(p, x) && Base(p, c).Some? && Base(p, c).value in Sub(p, x)
  {
    hide Sub, Base, NotYounger;
    if f :| IsClone(p, f, e) {
      assert HasPromoted(p, e, pr);
      var c :| c in pr && IsClone(p, c, e);
      assert IsTop(p, e, c);
    }
  }

  /** A snapshot owned outside the subtree is exactly what it was, unless a promoted clone owned it
      and it was exposed: then it may be gone. One owned inside is gone, or lives on the promoted clone
      of its former owner, under its old name unless the clone used that one. */
  lemma SnapshotsAfter(p: Pool, q: Pool, x: Path, pr: set<Path>, g: Guid)
    requires OwnersExist(q) && Outcomes(p, q, x, pr, true) && g in p.snaps && p.snaps[g].owner in p.fs
    ensures !(x <= p.snaps[g].owner) && g in q.snaps ==> q.snaps[g] == p.snaps[g]
    ensures !(x <= p.snaps[g].owner) && g !in q.snaps ==> p.snaps[g].owner in pr && Exposed(p, p.snaps[g].owner, g)
    ensures x <= p.snaps[g].owner && g in q.snaps ==>
      var e, c := p.snaps[g].owner, q.snaps[g].owner;
      && c in pr && IsClone(p, c, e) && e != []
      && q.snaps[g] == Snapshot(c, NewName(p, e, c, p.snaps[g].name), p.snaps[g].txg)
  {
    hide Chosen, Promoted, Survives, NewName, Exposed;
    assert !(x <= p.snaps[g].owner) ==> Kept(pr, p, q, g);
  }

  /** If no foreign call failed, the snapshots left from the subtree are exactly those some dataset
      is still a clone of. */
  lemma LeftIffNeeded(p: Pool, q: Pool, x: Path, g: Guid)
    requires OriginsExist(q) && OnlyNeeded(p, q, Sub(p, x)) && g in p.snaps && p.snaps[g].owner in Sub(p, x)
    ensures g in q.snaps <==> HasClone(q, g)
  {
  }

  /** In every state between the first and the last one of a call, whatever its outcome, the pool is
      well formed, so that origins exist; the clone graph has no cycle; and no filesystem outside the
      subtree has been destroyed. */
  lemma EveryState(t: seq<Pool>, first: nat, i: nat, x: Path)
    requires History(t) && first <= i < |t| && OthersStay(t[first], t[|t| - 1], x)
    ensures WF(t[i]) && OthersStay(t[first], t[i], x)
    ensures forall w | |w| >= 2 && CloneWalk(t[i], w) :: w[0] != w[|w| - 1]
  {
    hide WF, History, CloneWalk;
    HistoryAt(t, first, i);
    HistoryAt(t, i, |t| - 1);
    forall w | |w| >= 2 && CloneWalk(t[i], w)
      ensures w[0] != w[|w| - 1]
    {
      CloneGraphAcyclic(t[i], w);
    }
  }

  // ----- snapshots the promoted clones had of their own -----

  /** `g` belongs to a clone that will be promoted, is exposed there, and nothing will hold it when the
      clean-up comes. */
  ghost predicate Lost(p: Pool, x: Path, ord: Orders, g: Guid)
    requires g in p.snaps
  {
    var c := p.snaps[g].owner;
    && Base(p, c).Some? && Base(p, c).value in Sub(p, x) && IsTop(p, Base(p, c).value, c)
    && Exposed(p, c, g) && !Held(p, Sub(p, x), ord, Base(p, c).value, g)
  }

  /** With unique youngest clones, the clones that were promoted are the youngest ones. */
  lemma PromotedAreTops(p: Pool, q: Pool, x: Path, pr: set<Path>, c: Path)
    requires Outcomes(p, q, x, pr, true) && Aged(p)
    ensures c in pr <==> Base(p, c).Some? && Base(p, c).value in Sub(p, x) && IsTop(p, Base(p, c).value, c)
  {
    hide Sub, Base, NotYounger, Aged;
    if Base(p, c).Some? && Base(p, c).value in Sub(p, x) && IsTop(p, Base(p, c).value, c) {
      var e := Base(p, c).value;
      assert HasPromoted(p, e, pr);
      var c' :| c' in pr && IsClone(p, c', e);
      TopUnique(p, e, c, c');
    }
  }

  /** Exactly which snapshots owned outside the subtree a successful call destroys: the exposed ones of
      promoted clones that nothing holds by then. */
  lemma LostIff(p: Pool, q: Pool, x: Path, pr: set<Path>, ord: Orders, g: Guid)
    requires OwnersExist(q) && OriginsExist(q) && Aged(p)
    requires Outcomes(p, q, x, pr, true) && Thorough(p, q, pr, Sub(p, x), ord)
    requires g in p.snaps && p.snaps[g].owner in p.fs && !(x <= p.snaps[g].owner)
    ensures g !in q.snaps <==> Lost(p, x, ord, g)
  {
    hide Exposed, IsTop, Aged, Passable, OnlyNeeded, Outcomes, Held;
    SnapshotsAfter(p, q, x, pr, g);
    PromotedAreTops(p, q, x, pr, p.snaps[g].owner);
  }

  /** A snapshot some dataset outside the subtree is a clone of stays. */
  lemma ClonedStays(p: Pool, q: Pool, x: Path, pr: set<Path>, g: Guid, f: Path)
    requires OriginsExist(q) && Outcomes(p, q, x, pr, true) && g in p.snaps && !(x <= p.snaps[g].owner)
    requires f in p.fs && p.fs[f].origin == Some(g) && !(x <= f)
    ensures g in q.snaps
  {
    hide Chosen, Kept, Lodged;
    assert f !in Sub(p, x) && Base(p, f) == Some(p.snaps[g].owner);
    assert Survives(pr, p, q, f);
  }

  /** With fresh suffixed names every snapshot owned outside the subtree stays as it is. */
  lemma FreshLosesNothing(p: Pool, q: Pool, x: Path, pr: set<Path>, g: Guid)
    requires OwnersExist(q) && Outcomes(p, q, x, pr, true) && SuffixFresh(p, Sub(p, x))
    requires g in p.snaps && p.snaps[g].owner in p.fs && !(x <= p.snaps[g].owner)
    ensures g in q.snaps && q.snaps[g] == p.snaps[g]
  {
    hide Exposed, Sub, SuffixFresh, Outcomes, IsTop;
    var c := p.snaps[g].owner;
    SnapshotsAfter(p, q, x, pr, g);
    if c in pr {
      PromotedIsTop(p, q, x, pr, c);
      NothingExposed(p, Sub(p, x), c, g);
    }
  }

  lemma PromotedIsTop(p: Pool, q: Pool, x: Path, pr: set<Path>, c: Path)
    requires Outcomes(p, q, x, pr, true) && c in pr
    ensures Base(p, c).Some? && Base(p, c).value in Sub(p, x) && IsTop(p, Base(p, c).value, c)
  {
    hide Sub, Kept, Lodged, Survives, IsTop;
  }

  /** Whatever depends on the snapshot: one that is gone was exposed on a promoted clone, and every
      dataset that was a clone of it was doomed. */
  lemma LostOnlyIf(p: Pool, q: Pool, x: Path, pr: set<Path>, g: Guid, f: Path)
    requires OwnersExist(q) && OriginsExist(q) && Outcomes(p, q, x, pr, true)
    requires g in p.snaps && p.snaps[g].owner in p.fs && !(x <= p.snaps[g].owner) && g !in q.snaps
    ensures p.snaps[g].owner in pr && Exposed(p, p.snaps[g].owner, g)
    ensures f in p.fs && p.fs[f].origin == Some(g) ==> x <= f
  {
    hide Exposed, Outcomes;
    SnapshotsAfter(p, q, x, pr, g);
    if f in p.fs && p.fs[f].origin == Some(g) && !(x <= f) {
      ClonedStays(p, q, x, pr, g, f);
    }
  }

  /** The clean-up goes by name. If a run can get that far, a saved name is the name of a snapshot the
      clone had of its own exactly if that one is exposed. */
  lemma SavedHitsOwnIff(p: Pool, x: Path, c: Path, psnaps: seq<string>, g: Guid)
    requires x != [] && IsClone(p, c, x) && SavedAll(p, x, c, psnaps) && Movable(p, x, c) && LeftCached(p, x, c)
    requires g in p.snaps && p.snaps[g].owner == c
    ensures p.snaps[g].name in psnaps <==> Exposed(p, c, g)
  {
    hide SavedAll, Movable, LeftCached, Exposed;
    if p.snaps[g].name in psnaps {
      SavedIsExposed(p, x, c, psnaps, g);
    }
    if Exposed(p, c, g) {
      ExposedIsSaved(p, x, c, psnaps, g);
    }
  }

  /** If a dataset gets through, something is exposed exactly if a snapshot that stays behind has a
      name of the clone. */
  lemma ExposedIffYoungClash(p: Pool, x: Path, c: Path, order: seq<string>)
    requires x != [] && IsClone(p, c, x) && Passes(p, x, c, order) && IsSnapOrder(p, x, order)
    ensures (exists g | g in p.snaps :: Exposed(p, c, g)) <==> !NoYoungClash(p, x, c)
  {
    hide Suffixed, OriginTxg, Movable;
    if g :| g in p.snaps && Exposed(p, c, g) {
      var m :| ExposedBy(p, x, c, g, m);
      var h :| h in p.snaps && IsSnap(p, x, m, h) && p.snaps[h].txg > OriginTxg(p, c);
      assert p.snaps[h].name == m;
    }
    if !NoYoungClash(p, x, c) {
      var h :| h in p.snaps && p.snaps[h].owner == x && p.snaps[h].txg > OriginTxg(p, c)
        && SnapExists(p, c, p.snaps[h].name);
      YoungClashExposes(p, x, c, order, h);
    }
  }

  lemma YoungClashExposes(p: Pool, x: Path, c: Path, order: seq<string>, h: Guid)
    requires x != [] && IsClone(p, c, x) && Orderly(p, x, c, order) && LeftCached(p, x, c) && IsSnapOrder(p, x, order)
    requires h in p.snaps && p.snaps[h].owner == x && p.snaps[h].txg > OriginTxg(p, c)
    requires SnapExists(p, c, p.snaps[h].name)
    ensures exists g | g in p.snaps :: Exposed(p, c, g)
  {
    hide Suffixed, OriginTxg;
    var m := p.snaps[h].name;
    assert IsSnap(p, x, m, h);
    assert m in order;
    var i :| 0 <= i < |order| && order[i] == m;
    assert Clash(p, x, c, order[i]) && Freed(p, x, c, Firsts(order, i), order[i]);
    assert SnapExists(p, c, Suffixed(x, m));
    var g :| g in p.snaps && IsSnap(p, c, Suffixed(x, m), g);
    assert StaysBehind(p, x, c, m);
    assert ExposedBy(p, x, c, g, m);
    assert Exposed(p, c, g);
  }

  // ----- the cached orders -----

  /** `names` lists the children of `e`, each once. */
  ghost predicate IsOrder(p: Pool, e: Path, names: seq<Name>) {
    && (forall n :: n in names <==> n in ChildNames(p, Fs(e)))
    && forall i, j | 0 <= i < j < |names| :: names[i] != names[j]
  }

  /** `order` lists the snapshot names of `e`, each once. */
  ghost predicate IsSnapOrder(p: Pool, e: Path, order: seq<string>) {
    && (forall n :: n in order <==> SnapExists(p, e, n))
    && forall i, j | 0 <= i < j < |order| :: order[i] != order[j]
  }

  lemma OwnOrder(p: Pool, d: Dataset)
    requires Reflects(p, d) && d.name.Fs?
    ensures IsOrder(p, d.name.path, KidOrder(d.kids))
  {
    hide Cached, ChildNames;
    ReflectsIsShaped(p, d);
    forall n
      ensures n in KidOrder(d.kids) <==> n in KidNames(d.kids)
    {
      if n in KidOrder(d.kids) {
        var i :| 0 <= i < |d.kids| && KidOrder(d.kids)[i] == n;
        assert d.kids[i] in d.kids;
      }
      if k :| k in d.kids && k.name == n {
        var i :| 0 <= i < |d.kids| && d.kids[i] == k;
        assert KidOrder(d.kids)[i] == n;
      }
    }
  }

  lemma OwnSnapOrder(p: Pool, d: Dataset)
    requires Reflects(p, d) && d.name.Fs?
    ensures IsSnapOrder(p, d.name.path, SnapOrder(SnapKids(d.kids)))
  {
    hide Reflects, SnapExists, SnapKids;
    ReflectsIsShaped(p, d);
    var snaps := SnapKids(d.kids);
    var order := SnapOrder(snaps);
    SnapKidsAre(d.kids);
    forall n
      ensures n in order <==> SnapExists(p, d.name.path, n)
    {
      FirstsAre(snaps, |snaps|);
      assert snaps[..|snaps|] == snaps;
      SnapKidNames(p, d, n);
      assert n in order <==> n in Firsts(order, |order|);
    }
    forall i, j | 0 <= i < j < |order|
      ensures order[i] != order[j]
    {
      SnapKidIs(d, j);
      FirstsAre(snaps, j);
      assert order[i] in Firsts(order, j);
    }
  }

  /** The orders read off a true tree are orders of the children, and of the snapshots, in the pool. */
  lemma {:induction false} OrdersAreTrue(p: Pool, d: Dataset, ord: Orders, e: Path)
    requires WF(p) && Reflects(p, d) && Ordered(d, ord) && d.name.Fs? && e in Sub(p, d.name.path)
    ensures e in ord && IsOrder(p, e, ord[e]) && IsSnapOrder(p, e, OrderOf(ord, e))
    decreases d
  {
    hide WF, Cached, IsOrder, IsSnapOrder, SnapOrder, SnapKids, SnapsIn, KidOrder;
    var x := d.name.path;
    if e == x {
      OwnOrder(p, d);
      OwnSnapOrder(p, d);
      SnapsInOrder(d.kids);
    } else {
      WFRooted(p);
      PrefixExists(p, e, |x| + 1);
      var y := e[..|x| + 1];
      assert Fs(y) in ChildNames(p, d.name);
      var k := KidNamed(p, d, Fs(y));
      assert e in Sub(p, y);
      OrdersAreTrue(p, k, ord, e);
    }
  }

  // ----- the conflict loop -----

  /** Once the loop is through, dataset and clone share no snapshot name, unless the suffixed name of
      a clash was one of the clone's. */
  lemma NoConflictLeft(p: Pool, x: Path, c: Path, names: set<string>)
    requires x != [] && c != x && AllNames(p, x, names)
    ensures var q := Resolved(p, x, c, names);
      (forall n :: !(SnapExists(q, x, n) && SnapExists(q, c, n))) <==>
      forall m | Clash(p, x, c, m) :: !SnapExists(p, c, Suffixed(x, m))
  {
    hide Suffixed, SnapExists;
    var q := Resolved(p, x, c, names);
    forall n
      ensures SnapExists(q, c, n) <==> SnapExists(p, c, n)
      ensures SnapExists(q, x, n) <==> exists m | SnapExists(p, x, m) :: n == NewName(p, x, c, m)
    {
      NamesThen(p, x, c, names, n);
    }
    forall m | Clash(p, x, c, m)
      ensures SnapExists(q, x, Suffixed(x, m))
    {
      assert NewName(p, x, c, m) == Suffixed(x, m);
    }
  }

  lemma NamesThen(p: Pool, x: Path, c: Path, names: set<string>, n: string)
    requires x != [] && c != x && AllNames(p, x, names)
    ensures SnapExists(Resolved(p, x, c, names), c, n) <==> SnapExists(p, c, n)
    ensures SnapExists(Resolved(p, x, c, names), x, n) <==> exists m | SnapExists(p, x, m) :: n == NewName(p, x, c, m)
  {
    hide NewName;
    var q := Resolved(p, x, c, names);
    if g :| g in p.snaps && IsSnap(p, c, n, g) {
      assert IsSnap(q, c, n, g);
    }
    if g :| g in q.snaps && IsSnap(q, c, n, g) {
      assert IsSnap(p, c, n, g);
    }
    if g :| g in q.snaps && IsSnap(q, x, n, g) {
      assert IsSnap(p, x, p.snaps[g].name, g);
    }
    if m :| SnapExists(p, x, m) && n == NewName(p, x, c, m) {
      var g :| g in p.snaps && IsSnap(p, x, m, g);
      assert IsSnap(q, x, n, g);
    }
  }

  /** The saved names are exactly the names the dataset's snapshots have then. */
  lemma SavedAreNewNames(p: Pool, x: Path, c: Path, names: set<string>, psnaps: seq<string>, n: string)
    requires x != [] && c != x && AllNames(p, x, names) && SavedAll(p, x, c, psnaps)
    ensures n in psnaps <==> SnapExists(Resolved(p, x, c, names), x, n)
  {
    hide NewName;
    var q := Resolved(p, x, c, names);
    if n in psnaps {
      var m :| SnapExists(p, x, m) && n == NewName(p, x, c, m);
      var g :| g in p.snaps && IsSnap(p, x, m, g);
      assert IsSnap(q, x, n, g);
    }
    if SnapExists(q, x, n) {
      var g :| g in q.snaps && IsSnap(q, x, n, g);
      assert IsSnap(p, x, p.snaps[g].name, g);
    }
  }
}
