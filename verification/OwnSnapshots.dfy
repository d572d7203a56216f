/** What becomes of the snapshots that promoted clones had of their own. */
module OwnSnapshots {
  import opened Pools
  import opened Frames
  import opened Promotion
  import opened Siblings
  import opened Removal

  // ----- who still depends on a snapshot when the clean-up comes -----

  /** `f` is destroyed before the clean-up that follows the destruction of `e`: it is below `e`, or in a
      branch that was cached before. */
  ghost predicate GoneBefore(ord: Orders, f: Path, e: Path) {
    e < f || BranchBefore(ord, f, e)
  }

  /** `f` is doomed, hands its origin on to nobody, and is destroyed before that clean-up. */
  ghost predicate LetsGo(p: Pool, t: set<Path>, ord: Orders, f: Path, e: Path) {
    f in t && (forall h :: !IsClone(p, h, f)) && GoneBefore(ord, f, e)
  }

  /** Some clone of `g`, or whoever inherits its origin, is still there. */
  ghost predicate Held(p: Pool, t: set<Path>, ord: Orders, e: Path, g: Guid) {
    exists f :: Origin(p, f) == Some(g) && !LetsGo(p, t, ord, f, e)
  }

  /** If no doomed dataset is a clone of the snapshot, the order does not matter. */
  lemma HeldIffCloned(p: Pool, t: set<Path>, ord: Orders, e: Path, g: Guid)
    requires forall f | f in t :: Origin(p, f) != Some(g)
    ensures Held(p, t, ord, e, g) <==> HasClone(p, g)
  {
    if HasClone(p, g) {
      var f :| f in p.fs && p.fs[f].origin == Some(g);
      assert Origin(p, f) == Some(g);
    }
  }

  /** Of the snapshots exposed on the clones promoted over datasets of `c`, only held ones are left. */
  ghost predicate OwnSwept(p: Pool, q: Pool, pr: set<Path>, c: set<Path>, t: set<Path>, ord: Orders) {
    forall g | g in q.snaps && g in p.snaps && p.snaps[g].owner in pr && Exposed(p, p.snaps[g].owner, g)
      && Base(p, p.snaps[g].owner).value in c :: Held(p, t, ord, Base(p, p.snaps[g].owner).value, g)
  }

  /** Of the snapshots owned outside the doomed datasets `t` none that is held was destroyed. */
  ghost predicate HeldKept(p: Pool, q: Pool, t: set<Path>, ord: Orders) {
    forall g | g in p.snaps && p.snaps[g].owner !in t && g !in q.snaps && Base(p, p.snaps[g].owner).Some? ::
      !Held(p, t, ord, Base(p, p.snaps[g].owner).value, g)
  }

  lemma OwnSweptLess(p: Pool, q: Pool, s: Pool, pr: set<Path>, c: set<Path>, t: set<Path>, ord: Orders)
    requires OwnSwept(p, q, pr, c, t, ord) && s.snaps.Keys <= q.snaps.Keys
    ensures OwnSwept(p, s, pr, c, t, ord)
  {
    hide Held, Exposed;
  }

  lemma OwnStart(p: Pool, q: Pool, pr: set<Path>, t: set<Path>, ord: Orders)
    requires p.snaps.Keys == q.snaps.Keys
    ensures OwnSwept(p, q, pr, {}, t, ord) && HeldKept(p, q, t, ord)
  {
    hide Held, Exposed;
    assert forall g | g in p.snaps :: g in q.snaps.Keys;
  }

  lemma HeldKeptSame(p: Pool, q: Pool, s: Pool, t: set<Path>, ord: Orders)
    requires HeldKept(p, q, t, ord) && s.snaps == q.snaps
    ensures HeldKept(p, s, t, ord)
  {
    hide Held;
  }

  /** Destroying a snapshot of `x` concerns nothing outside. */
  lemma HeldKeptSnap(p: Pool, r: Pool, q: Pool, x: Path, t: set<Path>, a: set<Path>, pr: set<Path>, n: string,
                    ord: Orders)
    requires Progress(p, r, q, x, t, a, pr) && HeldKept(p, q, t, ord)
    ensures HeldKept(p, Destroy(q, Snap(x, n)), t, ord)
  {
    hide Held, Frame, Chosen, OwnSame, OutsideSame, OriginsExist, NoInternal;
    forall g | IsSnap(q, x, n, g)
      ensures g in p.snaps && p.snaps[g].owner in a
    {
      HeldBefore(a, pr, p, q, g);
    }
  }

  // ----- a child filesystem was removed, over the datasets `b` -----

  /** What lies below a dataset of `b` is in `b`, too. */
  ghost predicate Deep(b: set<Path>, t: set<Path>) {
    forall e, f | e in b && f in t && e < f :: f in b
  }

  lemma RootIsLast(x: Path, e: Path, ord: Orders)
    requires x <= e
    ensures !GoneBefore(ord, x, e)
  {
    assert forall n | 0 <= n < |x| :: x[n] == e[n];
  }

  /** What holds a snapshot when the child has its turn held it from the start. */
  lemma HeldFromStart(p: Pool, r: Pool, q: Pool, x: Path, t: set<Path>, a: set<Path>, pr: set<Path>, b: set<Path>,
                      ord: Orders, e: Path, g: Guid)
    requires Progress(p, r, q, x, t, a, pr) && Next(a, pr, b, t, p, q) && InTurn(ord, a, b, t) && Deep(b, t)
    requires e in b && x <= e && g in p.snaps && p.snaps[g].owner !in t && Held(q, b, ord, e, g)
    ensures Held(p, t, ord, e, g)
  {
    hide Chosen, OwnSame, OutsideSame, OriginsExist, NoInternal, Kept, Lodged, Next, LetsGo;
    var f :| Origin(q, f) == Some(g) && !LetsGo(q, b, ord, f, e);
    if f == x {
      RootIsLast(x, e, ord);
      NotGone(p, t, ord, x, e);
      assert Origin(p, x) == Some(g);
    } else {
      assert Survives(pr, p, q, f);
      if f in pr {
        InheritedFrom(p, t, ord, f, e);
      } else if LetsGo(p, t, ord, f, e) {
        LetsGoLater(a, pr, b, t, p, q, ord, f, e);
      }
    }
  }

  lemma NotGone(p: Pool, t: set<Path>, ord: Orders, f: Path, e: Path)
    requires !GoneBefore(ord, f, e)
    ensures !LetsGo(p, t, ord, f, e)
  {
  }

  lemma InheritedFrom(p: Pool, t: set<Path>, ord: Orders, f: Path, e: Path)
    requires Base(p, f).Some?
    ensures !LetsGo(p, t, ord, Base(p, f).value, e)
  {
    assert IsClone(p, f, Base(p, f).value);
  }

  lemma LetsGoLater(a: set<Path>, pr: set<Path>, b: set<Path>, t: set<Path>, p: Pool, q: Pool, ord: Orders, f: Path,
                    e: Path)
    requires Next(a, pr, b, t, p, q) && InTurn(ord, a, b, t) && Deep(b, t) && e in b && f !in a
    requires LetsGo(p, t, ord, f, e)
    ensures LetsGo(q, b, ord, f, e)
  {
    hide Next, BranchBefore;
    assert BranchBefore(ord, f, e) ==> TurnBefore(ord, f, e);
    assert f in b;
    forall h
      ensures !IsClone(q, h, f)
    {
      assert !IsClone(p, h, f);
      ClonesSame(a, pr, b, t, p, q, h);
    }
  }

  /** The converse. The branches in `a` were cached before that of the child. */
  lemma HeldUntilTurn(p: Pool, r: Pool, q: Pool, x: Path, t: set<Path>, a: set<Path>, pr: set<Path>, b: set<Path>,
                      ord: Orders, e: Path, g: Guid)
    requires Progress(p, r, q, x, t, a, pr) && Next(a, pr, b, t, p, q) && e in b && x !in b
    requires forall f | f in a && f != x :: GoneBefore(ord, f, e)
    requires g in p.snaps && p.snaps[g].owner !in t && Held(p, t, ord, e, g)
    ensures Held(q, b, ord, e, g)
  {
    hide OwnSame, OutsideSame, OriginsExist, Kept, Lodged, Next, GoneBefore, IsTop;
    var f :| Origin(p, f) == Some(g) && !LetsGo(p, t, ord, f, e);
    assert Base(p, f) == Some(p.snaps[g].owner);
    if f !in a {
      assert Survives(pr, p, q, f) && Origin(q, f) == Some(g);
      if LetsGo(q, b, ord, f, e) {
        LetsGoFromStart(a, pr, b, t, p, q, ord, f, e);
      }
    } else if h :| IsClone(p, h, f) {
      assert HasPromoted(p, f, pr);
      var c :| c in pr && IsClone(p, c, f);
      assert Survives(pr, p, q, c) && Origin(q, c) == Some(g);
      assert c !in t;
      assert b <= t by { NextInside(a, pr, b, t, p, q); }
    } else {
      assert f == x && Origin(q, x) == Some(g);
    }
  }

  lemma NextInside(a: set<Path>, pr: set<Path>, b: set<Path>, t: set<Path>, p: Pool, q: Pool)
    requires Next(a, pr, b, t, p, q)
    ensures b <= t
  {
  }

  lemma LetsGoFromStart(a: set<Path>, pr: set<Path>, b: set<Path>, t: set<Path>, p: Pool, q: Pool, ord: Orders,
                        f: Path, e: Path)
    requires Next(a, pr, b, t, p, q) && LetsGo(q, b, ord, f, e)
    ensures LetsGo(p, t, ord, f, e)
  {
    hide Next, GoneBefore;
    NextInside(a, pr, b, t, p, q);
    forall h
      ensures !IsClone(p, h, f)
    {
      assert !IsClone(q, h, f);
      ClonesSame(a, pr, b, t, p, q, h);
    }
  }

  /** What two removals left of the exposed snapshots. */
  lemma OwnSweptUnion(p: Pool, r: Pool, q: Pool, s: Pool, x: Path, t: set<Path>, a: set<Path>, pr: set<Path>,
                      c: set<Path>, b: set<Path>, pb: set<Path>, ord: Orders)
    requires Progress(p, r, q, x, t, a, pr) && Next(a, pr, b, t, p, q) && Frame(b, pb, q, s) && c <= a
    requires InTurn(ord, a, b, t) && Deep(b, t) && forall e | e in b :: x <= e
    requires OwnSwept(p, q, pr, c, t, ord) && OwnSwept(q, s, pb, b, b, ord)
    ensures OwnSwept(p, s, pr + pb, c + b, t, ord)
  {
    hide Held, Exposed, Progress, OriginsExist, InTurn, Deep;
    NoInternalUnion(p, t, a, b);
    PromotedBefore(a, pr, b, pb, p, q);
    forall g | g in s.snaps && g in p.snaps && p.snaps[g].owner in pr + pb && Exposed(p, p.snaps[g].owner, g)
      && Base(p, p.snaps[g].owner).value in c + b
      ensures Held(p, t, ord, Base(p, p.snaps[g].owner).value, g)
    {
      var o := p.snaps[g].owner;
      if o in pb {
        HeldExactly(a, pr, p, q, o);
        ExposedSame(a, pr, p, q, o, g);
        ClonesAreOutside(p, t, b, o);
        HeldFromStart(p, r, q, x, t, a, pr, b, ord, Base(p, o).value, g);
      } else {
        assert Base(p, o).value in a;
      }
    }
  }

  /** Neither of two removals destroyed a held one. */
  lemma HeldKeptThen(p: Pool, r: Pool, q: Pool, s: Pool, x: Path, t: set<Path>, a: set<Path>, pr: set<Path>,
                    b: set<Path>, pb: set<Path>, ord: Orders)
    requires Progress(p, r, q, x, t, a, pr) && Next(a, pr, b, t, p, q) && Frame(b, pb, q, s) && x !in b
    requires forall f, e | f in a && f != x && e in b :: GoneBefore(ord, f, e)
    requires HeldKept(p, q, t, ord) && HeldKept(q, s, b, ord)
    ensures HeldKept(p, s, t, ord)
  {
    hide Held, Exposed, Progress, OriginsExist, GoneBefore;
    forall g | g in p.snaps && p.snaps[g].owner !in t && g !in s.snaps && Base(p, p.snaps[g].owner).Some?
      ensures !Held(p, t, ord, Base(p, p.snaps[g].owner).value, g)
    {
      if g in q.snaps {
        assert q.snaps[g] == p.snaps[g];
        var c := q.snaps[g].owner;
        assert Kept(pb, q, s, g);
        var e := Base(q, c).value;
        ClonesSame(a, pr, b, t, p, q, c);
        if Held(p, t, ord, e, g) {
          HeldUntilTurn(p, r, q, x, t, a, pr, b, ord, e, g);
        }
      }
    }
  }

  // ----- the clean-up -----

  /** A snapshot that still has a clone when all of `t` is gone was held. */
  lemma HeldAtEnd(p: Pool, s: Pool, t: set<Path>, pr: set<Path>, ord: Orders, e: Path, g: Guid)
    requires Frame(t, pr, p, s) && Gone(s, t) && HasClone(s, g)
    ensures Held(p, t, ord, e, g)
  {
    hide Kept, Lodged;
    var f :| f in s.fs && s.fs[f].origin == Some(g);
    assert Survives(pr, p, s, f);
    if f in pr {
      InheritedFrom(p, t, ord, f, e);
      assert Origin(p, Base(p, f).value) == Some(g);
    } else {
      assert Origin(p, f) == Some(g);
    }
  }

  lemma StillCloned(p: Pool, s: Pool, t: set<Path>, pr: set<Path>, f: Path, g: Guid)
    requires OriginsExist(s) && Frame(t, pr, p, s) && Chosen(p, t, pr) && NoInternal(p, t)
    requires g in p.snaps && p.snaps[g].owner !in t && Origin(p, f) == Some(g)
    requires f !in t || exists h :: IsClone(p, h, f)
    ensures g in s.snaps
  {
    hide Kept, Lodged, IsTop;
    assert Base(p, f) == Some(p.snaps[g].owner);
    if f !in t {
      assert Survives(pr, p, s, f);
    } else {
      var h :| IsClone(p, h, f);
      assert HasPromoted(p, f, pr);
      var k :| k in pr && IsClone(p, k, f);
      assert Survives(pr, p, s, k);
    }
  }

  /** One that is destroyed after `x`, the last of `t`, was not. */
  lemma LostIsNotHeld(p: Pool, s: Pool, x: Path, t: set<Path>, pr: set<Path>, c: Path, ord: Orders, g: Guid)
    requires OriginsExist(s) && Frame(t, pr, p, s) && Chosen(p, t, pr) && NoInternal(p, t)
    requires (forall f | f in t :: x <= f) && IsClone(p, c, x)
    requires g in p.snaps && p.snaps[g].owner !in t && g !in s.snaps
    ensures !Held(p, t, ord, x, g)
  {
    hide Frame, Chosen, NoInternal, OriginsExist;
    forall f | Origin(p, f) == Some(g)
      ensures LetsGo(p, t, ord, f, x)
    {
      if f !in t || exists h :: IsClone(p, h, f) {
        StillCloned(p, s, t, pr, f, g);
      } else {
        assert f != x && x < f;
      }
    }
  }
}
