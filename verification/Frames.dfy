/** What one run over a set of doomed datasets may do to the rest of the pool. */
module Frames {
  import opened Pools

  /** No dataset of `t` is a clone of another one of `t`. */
  ghost predicate NoInternal(p: Pool, t: set<Path>) {
    forall f | f in t :: Base(p, f).None? || Base(p, f).value !in t
  }

  /** The name a clashing snapshot is given: its dataset's last component is appended. */
  function Suffixed(e: Path, n: string): string
    requires e != []
  {
    n + "." + e[|e| - 1]
  }

  /** The name a snapshot of `x` has once clone `c` took it over. */
  function NewName(p: Pool, x: Path, c: Path, n: string): string
    requires x != []
  {
    if SnapExists(p, c, n) then Suffixed(x, n) else n
  }

  /** `n` names a snapshot of `e` that stays on `e` when clone `c` is promoted: it is younger than the
      origin of `c`. */
  ghost predicate StaysBehind(p: Pool, e: Path, c: Path, n: string) {
    exists g | g in p.snaps :: IsSnap(p, e, n, g) && p.snaps[g].txg > OriginTxg(p, c)
  }

  /** `g` is a snapshot `c` has of its own under the suffixed name of `m`, which names a snapshot of `c`
      and one of `e` that stays behind; and the suffixed name is taken in `e` too. */
  ghost predicate ExposedBy(p: Pool, e: Path, c: Path, g: Guid, m: string)
    requires g in p.snaps && e != []
  {
    && p.snaps[g].owner == c && p.snaps[g].name == Suffixed(e, m)
    && SnapExists(p, c, m) && StaysBehind(p, e, c, m) && SnapExists(p, e, Suffixed(e, m))
  }

  /** The clean-up after promoting `c` will take `g` for a snapshot that was handed over. */
  ghost predicate Exposed(p: Pool, c: Path, g: Guid)
    requires g in p.snaps
  {
    Base(p, c).Some? && Base(p, c).value != [] && exists m :: ExposedBy(p, Base(p, c).value, c, g, m)
  }

  /** From `p` to `q` only the datasets of `a` were worked on and the clones `pr` were promoted
      over them: every other dataset survives, with its origin unless it was promoted, in which
      case it has its base's former origin; snapshots owned elsewhere are untouched, except that a
      promoted clone may have lost exposed ones; and a snapshot that left its owner in `a` lives on
      the promoted clone of that owner, under its old name unless the clone used that one. */
  ghost predicate Frame(a: set<Path>, pr: set<Path>, p: Pool, q: Pool) {
    && q.name == p.name
    && q.fs.Keys <= p.fs.Keys
    && q.snaps.Keys <= p.snaps.Keys
    && Promoted(a, pr, p)
    && (forall f | f in p.fs && f !in a :: Survives(pr, p, q, f))
    && (forall f | f in q.fs :: q.fs[f].txg == p.fs[f].txg)
    && (forall g | g in q.snaps :: q.snaps[g].txg == p.snaps[g].txg)
    && (forall g | g in p.snaps && p.snaps[g].owner !in a :: Kept(pr, p, q, g))
    && (forall g | g in q.snaps && p.snaps[g].owner in a :: Lodged(a, pr, p, g, q.snaps[g]))
  }

  ghost predicate Promoted(a: set<Path>, pr: set<Path>, p: Pool) {
    forall f | f in pr :: f in p.fs && f !in a && Base(p, f).Some? && Base(p, f).value in a
  }

  ghost predicate Survives(pr: set<Path>, p: Pool, q: Pool, f: Path)
    requires f in p.fs
  {
    && f in q.fs
    && q.fs[f].txg == p.fs[f].txg
    && q.fs[f].origin == (if f in pr && Base(p, f).Some? then Origin(p, Base(p, f).value) else p.fs[f].origin)
  }

  ghost predicate Kept(pr: set<Path>, p: Pool, q: Pool, g: Guid)
    requires g in p.snaps
  {
    if g in q.snaps then q.snaps[g] == p.snaps[g] else p.snaps[g].owner in pr && Exposed(p, p.snaps[g].owner, g)
  }

  /** What may have become of snapshot `g` of a dataset of `a`. */
  ghost predicate Lodged(a: set<Path>, pr: set<Path>, p: Pool, g: Guid, s: Snapshot)
    requires g in p.snaps
  {
    var e := p.snaps[g].owner;
    || s.owner in a
    || (s.owner in pr && Base(p, s.owner) == Some(e) && e != [] && s.name == NewName(p, e, s.owner, p.snaps[g].name))
  }

  lemma FrameStart(a: set<Path>, p: Pool)
    ensures Frame(a, {}, p, p)
  {
    hide Exposed;
  }

  lemma FrameGrow(a: set<Path>, b: set<Path>, pr: set<Path>, p: Pool, q: Pool)
    requires Frame(a, pr, p, q) && a <= b && b !! pr
    ensures Frame(b, pr, p, q)
  {
    hide Exposed;
  }

  lemma FrameDestroySnap(a: set<Path>, pr: set<Path>, p: Pool, q: Pool, x: Path, n: string)
    requires Frame(a, pr, p, q)
    requires forall g | IsSnap(q, x, n, g) :: p.snaps[g].owner in a
    ensures Frame(a, pr, p, Destroy(q, Snap(x, n)))
  {
    hide Exposed;
  }

  lemma FrameDestroyFs(a: set<Path>, pr: set<Path>, p: Pool, q: Pool, x: Path)
    requires Frame(a, pr, p, q) && x in a
    ensures Frame(a, pr, p, Destroy(q, Fs(x)))
  {
    hide Exposed;
  }

  /** A snapshot held by a dataset of `a` was held by one before: nothing moves into `a`. */
  lemma HeldBefore(a: set<Path>, pr: set<Path>, p: Pool, q: Pool, g: Guid)
    requires Frame(a, pr, p, q) && g in q.snaps && q.snaps[g].owner in a
    ensures g in p.snaps && p.snaps[g].owner in a
  {
    hide Exposed;
  }

  /** Nothing moves onto a doomed dataset that is not being worked on. */
  lemma NotMovedInto(a: set<Path>, pr: set<Path>, p: Pool, q: Pool, t: set<Path>, g: Guid)
    requires Frame(a, pr, p, q) && NoInternal(p, t) && a <= t
    requires g in q.snaps && q.snaps[g].owner in t && q.snaps[g].owner !in a
    ensures p.snaps[g] == q.snaps[g]
  {
    hide Exposed;
    var b := q.snaps[g].owner;
    assert Base(p, b).None? || Base(p, b).value !in t;
    assert p.snaps[g].owner !in a || Lodged(a, pr, p, g, q.snaps[g]);
  }

  /** A promoted clone inherits an origin outside the doomed datasets. */
  lemma InheritsOutside(a: set<Path>, pr: set<Path>, p: Pool, q: Pool, t: set<Path>, f: Path)
    requires OriginsExist(p) && OriginsExist(q) && Frame(a, pr, p, q) && NoInternal(p, t) && a <= t && f in pr
    ensures f in q.fs && (Base(q, f).None? || Base(q, f).value !in t)
  {
    hide Exposed;
    var e := Base(p, f).value;
    assert Survives(pr, p, q, f);
    assert q.fs[f].origin == Origin(p, e);
    assert e in t;
    if q.fs[f].origin.Some? {
      var h := q.fs[f].origin.value;
      assert Base(p, e) == Some(p.snaps[h].owner);
      assert q.snaps[h] == p.snaps[h];
    }
  }

  /** A clone, after the run, of a doomed dataset that is not being worked on was one before. */
  lemma BaseAfter(a: set<Path>, pr: set<Path>, p: Pool, q: Pool, t: set<Path>, f: Path)
    requires OriginsExist(p) && OriginsExist(q) && Frame(a, pr, p, q) && NoInternal(p, t) && a <= t
    requires f in q.fs && f !in a && Base(q, f).Some? && Base(q, f).value in t && Base(q, f).value !in a
    ensures Base(p, f) == Base(q, f) && f !in pr && q.fs[f].origin == p.fs[f].origin
  {
    hide Exposed;
    assert Survives(pr, p, q, f);
    NotMovedInto(a, pr, p, q, t, q.fs[f].origin.value);
    assert f !in pr by {
      if f in pr {
        InheritsOutside(a, pr, p, q, t, f);
      }
    }
  }

  /** The converse: such a clone stays one. */
  lemma BaseKept(a: set<Path>, pr: set<Path>, p: Pool, q: Pool, f: Path)
    requires OriginsExist(p) && OriginsExist(q) && Frame(a, pr, p, q) && f in p.fs && f !in a
    requires Base(p, f).Some? && Base(p, f).value !in a
    ensures f in q.fs && Base(q, f) == Base(p, f) && f !in pr && q.fs[f].origin == p.fs[f].origin
  {
    hide Exposed;
    assert Survives(pr, p, q, f);
  }

  /** The datasets worked on first are not clones of those worked on next. */
  ghost predicate Apart(a: set<Path>, b: set<Path>, q: Pool) {
    a !! b && forall f | f in a && f in q.fs :: Base(q, f).None? || Base(q, f).value !in b
  }

  lemma PromotedBefore(a: set<Path>, pa: set<Path>, b: set<Path>, pb: set<Path>, p: Pool, q: Pool)
    requires OriginsExist(p) && OriginsExist(q) && Frame(a, pa, p, q) && Promoted(b, pb, q)
    requires NoInternal(p, a + b) && Apart(a, b, q)
    ensures pa !! pb && Promoted(a + b, pa + pb, p)
    ensures forall f | f in pb :: f !in a && f !in b && Base(p, f) == Base(q, f) && p.fs[f].origin == q.fs[f].origin
  {
    hide Exposed;
    forall f | f in pb
      ensures f !in a && f !in b && f !in pa && f in p.fs && Base(p, f) == Base(q, f)
      ensures p.fs[f].origin == q.fs[f].origin
    {
      BaseAfter(a, pa, p, q, a + b, f);
    }
    forall f | f in pa
      ensures f !in b
    {
      assert Base(p, f).value in a + b;
    }
  }

  lemma SurvivesBoth(a: set<Path>, pa: set<Path>, b: set<Path>, pb: set<Path>, p: Pool, q: Pool, r: Pool, f: Path)
    requires OriginsExist(p) && OriginsExist(q) && Frame(a, pa, p, q) && Frame(b, pb, q, r)
    requires NoInternal(p, a + b) && Apart(a, b, q)
    requires f in p.fs && f !in a && f !in b
    ensures Survives(pa + pb, p, r, f)
  {
    hide Exposed;
    PromotedBefore(a, pa, b, pb, p, q);
    assert Survives(pa, p, q, f);
    assert Survives(pb, q, r, f);
    if f in pb {
      var e := Base(p, f).value;
      assert e in a + b && e !in a && e !in pa;
      assert Origin(p, e) == Origin(q, e);
    }
  }

  /** A dataset that was neither worked on nor promoted has the snapshots it had. */
  lemma HeldExactly(a: set<Path>, pr: set<Path>, p: Pool, q: Pool, o: Path)
    requires Frame(a, pr, p, q) && o !in a && o !in pr
    ensures forall g | g in p.snaps && p.snaps[g].owner == o :: g in q.snaps && q.snaps[g] == p.snaps[g]
    ensures forall g | g in q.snaps && q.snaps[g].owner == o :: g in p.snaps && q.snaps[g] == p.snaps[g]
  {
    hide Promoted, Survives, NewName, Exposed;
    forall g | g in q.snaps && q.snaps[g].owner == o
      ensures p.snaps[g] == q.snaps[g]
    {
      assert p.snaps[g].owner !in a || Lodged(a, pr, p, g, q.snaps[g]);
    }
    assert forall g | g in p.snaps && p.snaps[g].owner == o :: Kept(pr, p, q, g);
  }

  lemma HeldSame(a: set<Path>, pr: set<Path>, p: Pool, q: Pool, o: Path, n: string)
    requires Frame(a, pr, p, q) && o !in a && o !in pr
    ensures SnapExists(q, o, n) <==> SnapExists(p, o, n)
  {
    HeldExactly(a, pr, p, q, o);
    hide Frame;
    if g :| g in p.snaps && IsSnap(p, o, n, g) {
      assert IsSnap(q, o, n, g);
    }
    if g :| g in q.snaps && IsSnap(q, o, n, g) {
      assert IsSnap(p, o, n, g);
    }
  }

  /** What is exposed on a clone whose base was not worked on yet has not changed. */
  lemma ExposedSame(a: set<Path>, pr: set<Path>, p: Pool, q: Pool, o: Path, g: Guid)
    requires Frame(a, pr, p, q) && Base(p, o).Some? && Base(q, o) == Base(p, o) && Origin(q, o) == Origin(p, o)
    requires o !in a && o !in pr && Base(p, o).value !in a && Base(p, o).value !in pr
    requires g in p.snaps && g in q.snaps && q.snaps[g] == p.snaps[g]
    ensures Exposed(q, o, g) <==> Exposed(p, o, g)
  {
    hide Frame, SnapExists, StaysBehind, Suffixed;
    var e := Base(p, o).value;
    forall m
      ensures StaysBehind(q, e, o, m) <==> StaysBehind(p, e, o, m)
      ensures SnapExists(q, e, m) <==> SnapExists(p, e, m)
      ensures SnapExists(q, o, m) <==> SnapExists(p, o, m)
    {
      HeldSame(a, pr, p, q, e, m);
      HeldSame(a, pr, p, q, o, m);
      StaysBehindSame(a, pr, p, q, e, o, m);
    }
    if e != [] {
      forall m
        ensures ExposedBy(q, e, o, g, m) <==> ExposedBy(p, e, o, g, m)
      {
      }
    }
  }

  lemma StaysBehindSame(a: set<Path>, pr: set<Path>, p: Pool, q: Pool, e: Path, o: Path, m: string)
    requires Frame(a, pr, p, q) && e !in a && e !in pr
    requires Base(p, o).Some? && Base(q, o).Some? && Origin(q, o) == Origin(p, o)
    ensures StaysBehind(q, e, o, m) <==> StaysBehind(p, e, o, m)
  {
    HeldExactly(a, pr, p, q, e);
    var h := Origin(p, o).value;
    assert q.snaps[h].txg == p.snaps[h].txg;
    hide Frame;
    if g :| g in p.snaps && IsSnap(p, e, m, g) && p.snaps[g].txg > OriginTxg(p, o) {
      assert IsSnap(q, e, m, g);
    }
    if g :| g in q.snaps && IsSnap(q, e, m, g) && q.snaps[g].txg > OriginTxg(q, o) {
      assert IsSnap(p, e, m, g);
    }
  }

  lemma KeptBoth(a: set<Path>, pa: set<Path>, b: set<Path>, pb: set<Path>, p: Pool, q: Pool, r: Pool, g: Guid)
    requires OriginsExist(p) && OriginsExist(q) && Frame(a, pa, p, q) && Frame(b, pb, q, r)
    requires NoInternal(p, a + b) && Apart(a, b, q)
    requires g in p.snaps && p.snaps[g].owner !in a + b
    ensures Kept(pa + pb, p, r, g)
  {
    hide Exposed, NoInternal, Lodged, Survives;
    PromotedBefore(a, pa, b, pb, p, q);
    assert Kept(pa, p, q, g);
    if g in q.snaps && g !in r.snaps {
      var o := p.snaps[g].owner;
      assert Kept(pb, q, r, g);
      ExposedSame(a, pa, p, q, o, g);
    }
  }

  lemma LodgedBoth(a: set<Path>, pa: set<Path>, b: set<Path>, pb: set<Path>, p: Pool, q: Pool, r: Pool, g: Guid)
    requires OriginsExist(p) && OriginsExist(q) && Frame(a, pa, p, q) && Frame(b, pb, q, r)
    requires NoInternal(p, a + b) && Apart(a, b, q)
    requires g in r.snaps && p.snaps[g].owner in a + b
    ensures Lodged(a + b, pa + pb, p, g, r.snaps[g])
  {
    hide SnapExists, Suffixed, NoInternal, Exposed;
    PromotedBefore(a, pa, b, pb, p, q);
    var s := r.snaps[g];
    if q.snaps[g].owner in b {
      NotMovedInto(a, pa, p, q, a + b, g);
      assert Lodged(b, pb, q, g, s);
      if s.owner !in b {
        HeldSame(a, pa, p, q, s.owner, p.snaps[g].name);
      }
    } else {
      assert s == q.snaps[g];
      assert Lodged(a, pa, p, g, s);
    }
  }

  lemma FrameThen(a: set<Path>, pa: set<Path>, b: set<Path>, pb: set<Path>, p: Pool, q: Pool, r: Pool)
    requires OriginsExist(p) && OriginsExist(q) && Frame(a, pa, p, q) && Frame(b, pb, q, r)
    requires NoInternal(p, a + b) && Apart(a, b, q)
    ensures Frame(a + b, pa + pb, p, r)
  {
    hide Exposed;
    PromotedBefore(a, pa, b, pb, p, q);
    forall f | f in p.fs && f !in a + b
      ensures Survives(pa + pb, p, r, f)
    {
      SurvivesBoth(a, pa, b, pb, p, q, r, f);
    }
    forall g | g in p.snaps && p.snaps[g].owner !in a + b
      ensures Kept(pa + pb, p, r, g)
    {
      KeptBoth(a, pa, b, pb, p, q, r, g);
    }
    forall g | g in r.snaps && p.snaps[g].owner in a + b
      ensures Lodged(a + b, pa + pb, p, g, r.snaps[g])
    {
      LodgedBoth(a, pa, b, pb, p, q, r, g);
    }
  }
}
