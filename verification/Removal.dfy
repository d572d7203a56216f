/** Removing a dataset whose snapshots were handed over: the children one by one, then itself. */
module Removal {
  import opened Pools
  import opened Frames
  import opened Promotion
  import opened Siblings

  ghost predicate Gone(q: Pool, t: set<Path>) {
    forall f | f in t :: f !in q.fs
  }

  /** Of the doomed datasets' snapshots only those are left that some dataset is a clone of. */
  ghost predicate OnlyNeeded(p: Pool, q: Pool, t: set<Path>) {
    forall g | g in q.snaps && g in p.snaps && p.snaps[g].owner in t :: HasClone(q, g)
  }

  /** The state between two children of `x`: `r` is the pool after the handover, `a` the datasets
      worked on so far, among which only `x` is left. */
  ghost predicate Progress(p: Pool, r: Pool, q: Pool, x: Path, t: set<Path>, a: set<Path>, pr: set<Path>) {
    && OriginsExist(p) && OriginsExist(q)
    && NoInternal(p, t) && x in a && a <= t
    && Frame(a, pr, p, q)
    && x in q.fs && (forall f | f in a && f in q.fs :: f == x)
    && (forall f | f in q.fs :: !IsClone(q, f, x))
    && (Base(q, x).None? || Base(q, x).value !in t)
    && XOrigin(p, q, x)
    && OwnSame(r, q, x)
    && OutsideSame(r, q, t)
    && Chosen(p, a, pr)
  }

  /** The origin of `x` is what it was, or, if `x` had clones, a snapshot `x` had of its own. */
  ghost predicate XOrigin(p: Pool, q: Pool, x: Path) {
    || Origin(q, x) == Origin(p, x)
    || (Origin(q, x).Some? && Origin(q, x).value in p.snaps && p.snaps[Origin(q, x).value].owner == x
        && exists f :: IsClone(p, f, x))
  }

  /** `x` holds nothing it did not hold in `r`. */
  ghost predicate OwnSame(r: Pool, q: Pool, x: Path) {
    forall g | g in q.snaps && q.snaps[g].owner == x :: g in r.snaps && q.snaps[g] == r.snaps[g]
  }

  /** Snapshots held outside the doomed datasets, if they are still there, are as in `r`. */
  ghost predicate OutsideSame(r: Pool, q: Pool, t: set<Path>) {
    forall g | g in r.snaps && r.snaps[g].owner !in t && g in q.snaps :: q.snaps[g] == r.snaps[g]
  }

  /** Of what `x` held in `r`, exactly the snapshots not named in `done` are left. */
  ghost predicate OwnLeft(r: Pool, q: Pool, x: Path, done: set<string>) {
    forall g | g in r.snaps && r.snaps[g].owner == x ::
      && (g in q.snaps <==> r.snaps[g].name !in done)
      && (g in q.snaps ==> q.snaps[g] == r.snaps[g])
  }

  // ----- a child filesystem was removed, over the datasets `b` -----

  lemma ProgressNext(p: Pool, r: Pool, q: Pool, x: Path, t: set<Path>, a: set<Path>, pr: set<Path>, b: set<Path>)
    requires Progress(p, r, q, x, t, a, pr) && a !! b && b <= t
    ensures Next(a, pr, b, t, p, q)
  {
  }

  lemma XAfterKid(q: Pool, s: Pool, x: Path, t: set<Path>, b: set<Path>, pb: set<Path>)
    requires OriginsExist(q) && OriginsExist(s) && Frame(b, pb, q, s) && b <= t && x !in b && x in q.fs
    requires Base(q, x).None? || Base(q, x).value !in t
    ensures x in s.fs && Origin(s, x) == Origin(q, x) && Base(s, x) == Base(q, x) && x !in pb
  {
    assert Survives(pb, q, s, x);
  }

  lemma HeldAfterKid(q: Pool, s: Pool, x: Path, b: set<Path>, pb: set<Path>, g: Guid)
    requires Frame(b, pb, q, s) && x !in b && x !in pb && g in s.snaps && s.snaps[g].owner == x
    ensures q.snaps[g] == s.snaps[g]
  {
    assert q.snaps[g].owner !in b || Lodged(b, pb, q, g, s.snaps[g]);
  }

  lemma UnclonedAfterKid(q: Pool, s: Pool, x: Path, b: set<Path>, pb: set<Path>, f: Path)
    requires OriginsExist(q) && Frame(b, pb, q, s) && x !in b && x !in pb
    requires forall h | h in q.fs :: !IsClone(q, h, x)
    requires f in s.fs && f !in b
    ensures !IsClone(s, f, x)
  {
    assert Survives(pb, q, s, f);
    if IsClone(s, f, x) {
      HeldAfterKid(q, s, x, b, pb, s.fs[f].origin.value);
      if f in pb {
        var e := Base(q, f).value;
        assert IsClone(q, e, x);
      }
    }
  }

  lemma ChosenSame(a: set<Path>, pr: set<Path>, b: set<Path>, t: set<Path>, p: Pool, q: Pool, pb: set<Path>)
    requires Next(a, pr, b, t, p, q) && Chosen(q, b, pb) && Promoted(b, pb, q)
    ensures Chosen(p, b, pb) && forall c | c in pb :: Base(p, c).Some? && Base(p, c).value in b
  {
    hide Next, Base, IsTop;
    forall c | c in pb
      ensures Base(p, c) == Base(q, c) && Base(p, c).Some? && IsTop(p, Base(p, c).value, c)
    {
      ClonesSame(a, pr, b, t, p, q, c);
      TopSame(a, pr, b, t, p, q, Base(q, c).value, c);
    }
    forall e, f | e in b && IsClone(p, f, e)
      ensures HasPromoted(p, e, pb)
    {
      ClonesSame(a, pr, b, t, p, q, f);
      assert IsClone(q, f, e);
      assert HasPromoted(q, e, pb);
    }
  }

  lemma ChosenUnion(p: Pool, a: set<Path>, pa: set<Path>, b: set<Path>, pb: set<Path>)
    requires Chosen(p, a, pa) && Chosen(p, b, pb) && a !! b
    requires Promoted(a, pa, p)
    requires forall c | c in pb :: Base(p, c).Some? && Base(p, c).value in b
    ensures Chosen(p, a + b, pa + pb)
  {
    hide IsTop, Base;
    forall e, f | e in a + b && IsClone(p, f, e)
      ensures HasPromoted(p, e, pa + pb)
    {
      if e in a {
        var c :| c in pa && IsClone(p, c, e);
        assert c in pa + pb;
      } else {
        var c :| c in pb && IsClone(p, c, e);
        assert c in pa + pb;
      }
    }
  }

  /** After a child filesystem was removed completely. */
  lemma ProgressKid(p: Pool, r: Pool, q: Pool, s: Pool, x: Path, t: set<Path>, a: set<Path>, pr: set<Path>,
                    b: set<Path>, pb: set<Path>)
    requires Progress(p, r, q, x, t, a, pr) && a !! b && b <= t
    requires OriginsExist(s) && Frame(b, pb, q, s) && Gone(s, b) && Chosen(q, b, pb)
    ensures Progress(p, r, s, x, t, a + b, pr + pb)
  {
    hide IsTop, OriginsExist, Frame, Chosen;
    ProgressNext(p, r, q, x, t, a, pr, b);
    KidFrame(p, r, q, s, x, t, a, pr, b, pb);
    KidKeepsX(p, r, q, s, x, t, a, pr, b, pb);
    KidKeepsSnaps(p, r, q, s, x, t, a, pr, b, pb);
  }

  lemma KidFrame(p: Pool, r: Pool, q: Pool, s: Pool, x: Path, t: set<Path>, a: set<Path>, pr: set<Path>, b: set<Path>,
                 pb: set<Path>)
    requires Progress(p, r, q, x, t, a, pr) && Next(a, pr, b, t, p, q)
    requires Frame(b, pb, q, s) && Chosen(q, b, pb)
    ensures Frame(a + b, pr + pb, p, s) && Chosen(p, a + b, pr + pb)
  {
    hide IsTop, Chosen, OwnSame, OutsideSame;
    FrameThen(a, pr, b, pb, p, q, s);
    ChosenSame(a, pr, b, t, p, q, pb);
    ChosenUnion(p, a, pr, b, pb);
  }

  lemma KidKeepsX(p: Pool, r: Pool, q: Pool, s: Pool, x: Path, t: set<Path>, a: set<Path>, pr: set<Path>,
                  b: set<Path>, pb: set<Path>)
    requires OriginsExist(s)
    requires Progress(p, r, q, x, t, a, pr) && a !! b && b <= t
    requires Frame(b, pb, q, s) && Gone(s, b)
    ensures x in s.fs && x !in pb && (Base(s, x).None? || Base(s, x).value !in t) && XOrigin(p, s, x)
    ensures forall f | f in a + b && f in s.fs :: f == x
    ensures forall f | f in s.fs :: !IsClone(s, f, x)
  {
    hide Chosen, OwnSame, OutsideSame;
    XAfterKid(q, s, x, t, b, pb);
    forall f | f in s.fs
      ensures !IsClone(s, f, x)
    {
      UnclonedAfterKid(q, s, x, b, pb, f);
    }
  }

  lemma KidKeepsSnaps(p: Pool, r: Pool, q: Pool, s: Pool, x: Path, t: set<Path>, a: set<Path>, pr: set<Path>,
                      b: set<Path>, pb: set<Path>)
    requires OriginsExist(s)
    requires Progress(p, r, q, x, t, a, pr) && a !! b && b <= t
    requires Frame(b, pb, q, s)
    ensures OwnSame(r, s, x) && OutsideSame(r, s, t)
    ensures forall done :: OwnLeft(r, q, x, done) ==> OwnLeft(r, s, x, done)
  {
    hide Chosen;
    XAfterKid(q, s, x, t, b, pb);
    forall g | g in s.snaps && s.snaps[g].owner == x
      ensures q.snaps[g] == s.snaps[g]
    {
      HeldAfterKid(q, s, x, b, pb, g);
    }
  }

  lemma UnworkedOrigin(a: set<Path>, pr: set<Path>, b: set<Path>, t: set<Path>, p: Pool, q: Pool, f: Path)
    requires Next(a, pr, b, t, p, q) && f in b && f in q.fs
    ensures q.fs[f].origin.Some? ==> q.fs[f].origin.value in p.snaps && p.snaps[q.fs[f].origin.value].owner !in t
  {
    NotPromoted(a, pr, b, t, p, q, f);
    assert Survives(pr, p, q, f);
    assert f in t;
    assert q.fs[f].origin.Some? ==> Base(p, f) == Some(p.snaps[q.fs[f].origin.value].owner);
  }

  /** A needed snapshot stays needed while another child is removed. */
  lemma NeededAfterKid(p: Pool, q: Pool, s: Pool, t: set<Path>, a: set<Path>, pr: set<Path>, b: set<Path>,
                       pb: set<Path>, g: Guid)
    requires Next(a, pr, b, t, p, q) && Frame(b, pb, q, s)
    requires g in s.snaps && g in p.snaps && p.snaps[g].owner in a && HasClone(q, g)
    ensures HasClone(s, g)
  {
    hide OriginsExist;
    var f :| f in q.fs && q.fs[f].origin == Some(g);
    assert q.snaps[g].owner !in b by {
      assert Lodged(a, pr, p, g, q.snaps[g]);
    }
    assert f !in b by {
      if f in b {
        UnworkedOrigin(a, pr, b, t, p, q, f);
      }
    }
    assert Survives(pb, q, s, f);
  }

  /** The snapshots left behind by two removals are all needed. */
  lemma NeededUnion(p: Pool, q: Pool, s: Pool, t: set<Path>, a: set<Path>, pr: set<Path>, c: set<Path>, b: set<Path>,
                    pb: set<Path>)
    requires Next(a, pr, b, t, p, q) && Frame(b, pb, q, s) && c <= a
    requires OnlyNeeded(p, q, c) && OnlyNeeded(q, s, b)
    ensures OnlyNeeded(p, s, c + b)
  {
    hide HasClone, OriginsExist;
    forall g | g in s.snaps && g in p.snaps && p.snaps[g].owner in c + b
      ensures HasClone(s, g)
    {
      assert g in q.snaps;
      if p.snaps[g].owner in b {
        SnapsSame(a, pr, b, t, p, q, p.snaps[g].owner);
      } else {
        NeededAfterKid(p, q, s, t, a, pr, b, pb, g);
      }
    }
  }

  // ----- a snapshot of `x` was destroyed by name -----

  lemma SnapKeepsSnaps(r: Pool, q: Pool, x: Path, t: set<Path>, n: string)
    requires x in t && OwnSame(r, q, x) && OutsideSame(r, q, t)
    ensures OwnSame(r, Destroy(q, Snap(x, n)), x) && OutsideSame(r, Destroy(q, Snap(x, n)), t)
    ensures forall done :: OwnLeft(r, q, x, done) ==> OwnLeft(r, Destroy(q, Snap(x, n)), x, done + {n})
  {
  }

  lemma SnapKeepsNeeded(p: Pool, q: Pool, n: Name, c: set<Path>)
    requires n.Snap? && OnlyNeeded(p, q, c)
    ensures OnlyNeeded(p, Destroy(q, n), c)
  {
    var s := Destroy(q, n);
    forall g | g in s.snaps && g in p.snaps && p.snaps[g].owner in c
      ensures HasClone(s, g)
    {
      assert HasClone(q, g);
    }
  }

  lemma ProgressSnap(p: Pool, r: Pool, q: Pool, x: Path, t: set<Path>, a: set<Path>, pr: set<Path>, n: string)
    requires Progress(p, r, q, x, t, a, pr) && OriginsExist(Destroy(q, Snap(x, n)))
    ensures Progress(p, r, Destroy(q, Snap(x, n)), x, t, a, pr)
  {
    hide Frame, Chosen, OwnSame, OutsideSame, OriginsExist, NoInternal;
    var s := Destroy(q, Snap(x, n));
    assert s.fs == q.fs;
    SnapKeepsSnaps(r, q, x, t, n);
    forall g | IsSnap(q, x, n, g)
      ensures g in p.snaps && p.snaps[g].owner in a
    {
      HeldBefore(a, pr, p, q, g);
    }
    FrameDestroySnap(a, pr, p, q, x, n);
    forall f
      ensures Base(s, f) == Base(q, f) || Base(s, f) == None
    {
    }
  }

  // ----- before the first child -----

  lemma StartUncloned(p: Pool, x: Path, t: set<Path>)
    requires OriginsExist(p) && NoInternal(p, t) && x in t && x in p.fs
    requires forall f :: !IsClone(p, f, x)
    ensures Progress(p, p, p, x, t, {x}, {})
  {
    FrameStart({x}, p);
    hide Frame;
    assert x in t;
  }

  lemma StartHandedOver(p: Pool, r: Pool, x: Path, c: Path, t: set<Path>)
    requires WF(p) && OriginsExist(r) && NoInternal(p, t) && x in t && HandedOver(p, r, x, c) && IsTop(p, x, c)
    ensures Progress(p, r, r, x, t, {x}, {c}) && c !in t
  {
    hide NewName, WF;
    WFOrigins(p);
    HandedOverFrame(p, r, x, c);
    OnePromoteIsEnough(p, r, x, c);
    hide Frame, NotYounger;
    assert Base(p, c) == Some(x);
    assert c !in t;
    assert r.fs[x].origin == p.fs[c].origin;
  }

  // ----- after the last child -----

  /** `x` itself can go exactly if everything it still held had one of the names in `done`. */
  lemma DestroyableIff(p: Pool, r: Pool, q: Pool, x: Path, t: set<Path>, pr: set<Path>, done: set<string>)
    requires Progress(p, r, q, x, t, t, pr) && t == Sub(p, x) && |x| > 1 && OwnLeft(r, q, x, done)
    ensures CanDestroy(q, Fs(x)) <==> forall g | g in r.snaps && r.snaps[g].owner == x :: r.snaps[g].name in done
  {
    hide Chosen, OutsideSame, NoInternal;
    assert forall f | f in q.fs && x <= f :: f in Sub(p, x);
    assert forall f | f in q.fs :: !(x < f);
  }

  /** The names that were cached cover what stayed behind exactly if the new names are cached ones. */
  lemma LeftoverIsCached(p: Pool, r: Pool, x: Path, c: Path, done: set<string>)
    requires HandedOver(p, r, x, c)
    requires forall n :: n in done <==> SnapExists(p, x, n)
    ensures (forall g | g in r.snaps && r.snaps[g].owner == x :: r.snaps[g].name in done) <==> LeftCached(p, x, c)
  {
    hide Suffixed, OriginTxg;
    forall g | g in p.snaps && p.snaps[g].owner == x
      ensures r.snaps[g].name in done <==>
        (SnapExists(p, c, p.snaps[g].name) ==> SnapExists(p, x, Suffixed(x, p.snaps[g].name)))
    {
      assert IsSnap(p, x, p.snaps[g].name, g);
    }
  }

  lemma NoInternalUnion(p: Pool, t: set<Path>, a: set<Path>, b: set<Path>)
    requires NoInternal(p, t) && a + b <= t
    ensures NoInternal(p, a + b)
  {
  }

  /** A clone promoted over a doomed dataset is not doomed itself. */
  lemma ClonesAreOutside(p: Pool, t: set<Path>, b: set<Path>, o: Path)
    requires NoInternal(p, t) && b <= t && Base(p, o).Some? && Base(p, o).value in b
    ensures o !in t
  {
  }

  lemma XOriginIs(p: Pool, r: Pool, q: Pool, x: Path, t: set<Path>, a: set<Path>, pr: set<Path>)
    requires Progress(p, r, q, x, t, a, pr)
    ensures Origin(q, x).Some? && Origin(q, x).value in p.snaps ==>
      p.snaps[Origin(q, x).value].owner == x || p.snaps[Origin(q, x).value].owner !in t
  {
    hide Frame, Chosen, OwnSame, OutsideSame;
    assert x in t;
    assert Origin(p, x).Some? && Origin(p, x).value in p.snaps ==>
        Base(p, x) == Some(p.snaps[Origin(p, x).value].owner);
  }

  lemma FinishFrame(p: Pool, r: Pool, q: Pool, x: Path, t: set<Path>, pr: set<Path>)
    requires Progress(p, r, q, x, t, t, pr)
    ensures Frame(t, pr, p, Destroy(q, Fs(x))) && Gone(Destroy(q, Fs(x)), t)
    ensures OnlyNeeded(p, q, t - {x}) ==> OnlyNeeded(p, Destroy(q, Fs(x)), t - {x})
  {
    hide Chosen, OwnSame, OutsideSame, NoInternal;
    XOriginIs(p, r, q, x, t, t, pr);
    FrameDestroyFs(t, pr, p, q, x);
    var s := Destroy(q, Fs(x));
    if OnlyNeeded(p, q, t - {x}) {
      forall g | g in s.snaps && g in p.snaps && p.snaps[g].owner in t - {x}
        ensures HasClone(s, g)
      {
        assert HasClone(q, g);
        var f :| f in q.fs && q.fs[f].origin == Some(g);
        assert f in s.fs;
      }
    }
  }
}
