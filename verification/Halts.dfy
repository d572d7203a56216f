/** What a failed `DestroyPromote` leaves: everything that comes after the place where it stopped is as it
    was, and of what comes before, nothing more is gone than was to go. */
module Halts {
  import opened Pools
  import opened Frames
  import opened Handles
  import opened Trees
  import opened Lookup
  import opened CloneLists
  import opened Promotion
  import opened CachedOrders
  import opened Siblings
  import opened Removal
  import opened HandOver
  import opened KidSteps
  import opened DestroySteps
  import opened Stops

  /** Where the call stopped: in the first phase, having compared the first `n` cached snapshots with that
      clone if any; at child `i`, in the way given by `below`, after that clone was promoted; or when all
      children were done. */
  datatype Halt =
    | InFirst(clone: Option<Path>, n: nat)
    | InKid(clone: Option<Path>, i: nat, below: Halt)
    | InLast(clone: Option<Path>)

  /** Everything at or below `y` is as it was. */
  ghost predicate Whole(p: Pool, q: Pool, y: Path) {
    && (forall f | f in p.fs && y <= f :: f in q.fs && q.fs[f] == p.fs[f])
    && (forall g | g in p.snaps && y <= p.snaps[g].owner :: g in q.snaps && q.snaps[g] == p.snaps[g])
  }

  /** Everything at or below `x` is as it was, except that of the snapshots of `x` named in `done` those
      whose name the clone uses have the suffixed name. */
  ghost predicate OnlyRenamed(p: Pool, q: Pool, x: Path, clone: Option<Path>, done: set<string>) {
    && (clone.Some? ==> x != [] && IsClone(p, clone.value, x))
    && (forall f | f in p.fs && x <= f :: f in q.fs && q.fs[f] == p.fs[f])
    && (forall g | g in p.snaps && x <= p.snaps[g].owner :: g in q.snaps && Renamed(p, q.snaps[g], x, clone, done, g))
  }

  ghost predicate Renamed(p: Pool, s: Snapshot, x: Path, clone: Option<Path>, done: set<string>, g: Guid)
    requires g in p.snaps && (clone.Some? ==> x != [])
  {
    var was := p.snaps[g];
    s == if was.owner == x && was.name in done && clone.Some? && Clash(p, x, clone.value, was.name)
         then Snapshot(x, Suffixed(x, was.name), was.txg) else was
  }

  /** What became of snapshot `g` of `x`: it is there under its new name on the promoted clone, if it is no
      younger than the clone's origin; otherwise it is there under that name on `x` unless the name is one
      of `done`. */
  ghost predicate PassedOn(p: Pool, q: Pool, x: Path, c: Path, done: set<string>, g: Guid)
    requires g in p.snaps && x != []
  {
    var was, n := p.snaps[g], NewName(p, x, c, p.snaps[g].name);
    if was.txg <= OriginTxg(p, c) then g in q.snaps && q.snaps[g] == Snapshot(c, n, was.txg)
    else (g in q.snaps <==> n !in done) && (g in q.snaps ==> q.snaps[g] == Snapshot(x, n, was.txg))
  }

  /** The snapshots of `x`, and those of the clone that was promoted over it if there was one, once the
      cached snapshots named in `done` had their turn. */
  ghost predicate HandedOn(p: Pool, q: Pool, x: Path, clone: Option<Path>, done: set<string>) {
    match clone
    case None =>
      forall g | g in p.snaps && p.snaps[g].owner == x ::
        (g in q.snaps <==> p.snaps[g].name !in done) && (g in q.snaps ==> q.snaps[g] == p.snaps[g])
    case Some(c) =>
      && x != [] && IsTop(p, x, c) && c in q.fs && Origin(q, c) == Origin(p, x)
      && (forall g | g in p.snaps && p.snaps[g].owner == x :: PassedOn(p, q, x, c, done, g))
      && (forall g | g in p.snaps && p.snaps[g].owner == c :: g in q.snaps && q.snaps[g] == p.snaps[g])
  }

  ghost predicate StillThere(p: Pool, q: Pool, x: Path, clone: Option<Path>) {
    x in q.fs && Origin(q, x) == if clone.Some? then Origin(p, clone.value) else Origin(p, x)
  }

  ghost predicate EarlierGone(q: Pool, d: Dataset, i: nat) {
    forall j | 0 <= j < i && j < |d.kids| && d.kids[j].name.Fs? :: NoneBelow(q, d.kids[j].name.path)
  }

  ghost predicate LaterWhole(p: Pool, q: Pool, d: Dataset, i: nat) {
    forall j | i < j < |d.kids| && d.kids[j].name.Fs? :: Whole(p, q, d.kids[j].name.path)
  }

  /** From `p` to `q`, a call on filesystem `d` stopped like this. At child `i`: earlier child filesystems
      are gone, later ones are as they were, the snapshots of `d` listed before had their turn and no others,
      and at or below the child itself things are as its own call left them. */
  ghost predicate Halted(p: Pool, q: Pool, d: Dataset, halt: Halt)
    decreases halt
  {
    var x := d.name.path;
    match halt
    case InFirst(clone, n) =>
      n <= |SnapKids(d.kids)| && OnlyRenamed(p, q, x, clone, SnapNames(SnapKids(d.kids)[..n]))
    case InKid(clone, i, below) =>
      && i < |d.kids| && StillThere(p, q, x, clone)
      && HandedOn(p, q, x, clone, SnapNames(SnapKids(d.kids[..i])))
      && EarlierGone(q, d, i) && LaterWhole(p, q, d, i)
      && (d.kids[i].name.Fs? ==> Halted(p, q, d.kids[i], below))
    case InLast(clone) =>
      && (x in q.fs ==> StillThere(p, q, x, clone))
      && HandedOn(p, q, x, clone, SnapNames(SnapKids(d.kids)))
      && EarlierGone(q, d, |d.kids|)
  }

  // ----- the first phase -----

  lemma ResolvedIsRenamed(p: Pool, x: Path, c: Path, names: set<string>)
    requires x != [] && IsClone(p, c, x)
    ensures OnlyRenamed(p, Resolved(p, x, c, names), x, Some(c), names)
  {
    hide Suffixed;
    var q := Resolved(p, x, c, names);
    forall g | g in p.snaps && x <= p.snaps[g].owner
      ensures g in q.snaps && Renamed(p, q.snaps[g], x, Some(c), names, g)
    {
      if p.snaps[g].owner == x {
        assert IsSnap(p, x, p.snaps[g].name, g);
      }
    }
  }

  lemma NoneRenamed(p: Pool, x: Path)
    ensures forall done :: OnlyRenamed(p, p, x, None, done)
  {
  }

  // ----- between the children -----

  /** What `x` and the clones `pr0` promoted over it hold is not touched by the work on the children. */
  ghost predicate Secured(r: Pool, q: Pool, x: Path, pr0: set<Path>) {
    && Origin(q, x) == Origin(r, x)
    && forall g | g in r.snaps && r.snaps[g].owner in pr0 :: g in q.snaps && q.snaps[g] == r.snaps[g]
  }

  lemma SecuredKid(p: Pool, r: Pool, q: Pool, s: Pool, x: Path, t: set<Path>, a: set<Path>, pr: set<Path>, b: set<Path>,
                pb: set<Path>, pr0: set<Path>)
    requires Progress(p, r, q, x, t, a, pr) && a !! b && b <= t && OriginsExist(s) && Frame(b, pb, q, s)
    requires Secured(r, q, x, pr0) && pr0 <= pr
    ensures Secured(r, s, x, pr0) && x in s.fs
  {
    hide Chosen, OwnSame, OutsideSame, Lodged, Kept, Survives;
    XAfterKid(q, s, x, t, b, pb);
    forall g | g in r.snaps && r.snaps[g].owner in pr0
      ensures g in s.snaps && s.snaps[g] == r.snaps[g]
    {
      var c := r.snaps[g].owner;
      InheritsOutside(a, pr, p, q, t, c);
      assert c !in b && c !in pb;
      HeldExactly(b, pb, q, s, c);
    }
  }

  lemma SecuredSnap(r: Pool, q: Pool, x: Path, pr0: set<Path>, n: string)
    requires Secured(r, q, x, pr0) && x !in pr0
    ensures Secured(r, Destroy(q, Snap(x, n)), x, pr0)
  {
  }

  /** What is known when the call on child `i` has failed, in terms of the pool after the handover. */
  ghost predicate KidHalted(p: Pool, r: Pool, s: Pool, d: Dataset, i: nat, below: Halt, pr0: set<Path>) {
    && i < |d.kids| && d.name.path in s.fs && Secured(r, s, d.name.path, pr0)
    && OwnLeft(r, s, d.name.path, SnapNames(SnapKids(d.kids[..i])))
    && EarlierGone(s, d, i) && LaterWhole(p, s, d, i)
    && (d.kids[i].name.Fs? ==> Halted(p, s, d.kids[i], below))
  }

  lemma BeforeAreGone(p: Pool, r: Pool, q: Pool, s: Pool, d: Dataset, i: nat, pr: set<Path>, ord: Orders)
    requires i <= |d.kids| && Between(p, r, q, d, i, pr, ord) && s.fs.Keys <= q.fs.Keys
    ensures EarlierGone(s, d, i)
  {
    hide Frame, Chosen, OwnSame, OutsideSame, WF, Reflects, Prepared, Ordered, Covered, OwnLeft, SnapKids, SnapNames;
    var x := d.name.path;
    ReflectsIsShaped(p, d);
    KidsAreChildren(d);
    ReflectsExists(p, d);
    CoveredIs(p, x, d.kids[..i]);
    FrameKeys(Covered(p, x, d.kids[..i]), pr, p, q);
    forall j, f | 0 <= j < i && d.kids[j].name.Fs? && f in s.fs
      ensures !(d.kids[j].name.path <= f)
    {
      assert d.kids[j] in d.kids[..i] && d.kids[j] in d.kids;
      assert f in q.fs.Keys && f in p.fs.Keys;
      assert d.kids[j].name.path <= f ==> f in Sub(p, d.kids[j].name.path);
    }
  }

  lemma FrameKeys(a: set<Path>, pr: set<Path>, p: Pool, q: Pool)
    requires Frame(a, pr, p, q)
    ensures q.fs.Keys <= p.fs.Keys
  {
  }

  /** A subtree that was not worked on is whole. */
  lemma UnworkedIsWhole(p: Pool, q: Pool, a: set<Path>, pr: set<Path>, y: Path)
    requires OwnersExist(p) && Frame(a, pr, p, q) && Sub(p, y) !! a && Sub(p, y) !! pr
    ensures Whole(p, q, y)
  {
    hide Lodged, Kept;
    forall f | f in p.fs && y <= f
      ensures f in q.fs && q.fs[f] == p.fs[f]
    {
      assert f in Sub(p, y);
      assert Survives(pr, p, q, f);
    }
    forall g | g in p.snaps && y <= p.snaps[g].owner
      ensures g in q.snaps && q.snaps[g] == p.snaps[g]
    {
      assert p.snaps[g].owner in Sub(p, y);
      HeldExactly(a, pr, p, q, p.snaps[g].owner);
    }
  }

  lemma AfterAreWhole(p: Pool, r: Pool, q: Pool, s: Pool, d: Dataset, i: nat, a: set<Path>, pr: set<Path>, ord: Orders)
    requires i < |d.kids| && Good(p, d, ord) && a == Covered(p, d.name.path, d.kids[..i + 1]) && Frame(a, pr, p, s)
    ensures LaterWhole(p, s, d, i)
  {
    hide Frame, WF, Reflects, NoInternal, TopsReached, Ordered, Covered;
    var x := d.name.path;
    ReflectsIsShaped(p, d);
    KidsAreChildren(d);
    ReflectsExists(p, d);
    WFOwners(p);
    CoveredIs(p, x, d.kids[..i + 1]);
    PromotedOutside(p, s, Sub(p, x), a, pr);
    forall j | i < j < |d.kids| && d.kids[j].name.Fs?
      ensures Whole(p, s, d.kids[j].name.path)
    {
      var y := d.kids[j].name.path;
      assert d.kids[j] in d.kids;
      forall f | f in Sub(p, y)
        ensures f !in a && f !in pr
      {
        assert x <= y && f in Sub(p, x);
        if f in a {
          var m := CoveredBy(p, x, d.kids, i + 1, f);
          KidsPart(d, m, j, f);
          assert false;
        }
      }
      UnworkedIsWhole(p, s, a, pr, y);
    }
  }

  // ----- one call seen from an earlier pool -----

  lemma UnworkedRecord(a: set<Path>, pr: set<Path>, b: set<Path>, t: set<Path>, p: Pool, q: Pool, f: Path)
    requires Next(a, pr, b, t, p, q) && f in b
    ensures f in p.fs <==> f in q.fs
    ensures f in p.fs ==> q.fs[f] == p.fs[f]
  {
    NotPromoted(a, pr, b, t, p, q, f);
    if f in p.fs {
      assert Survives(pr, p, q, f);
    }
  }

  /** Nothing is missing between `p` and `q` at or below `y`. */
  ghost predicate SameBelow(p: Pool, q: Pool, y: Path) {
    && (forall f | y <= f :: f in p.fs <==> f in q.fs)
    && (forall f | y <= f && f in p.fs :: q.fs[f] == p.fs[f])
    && (forall g | g in p.snaps && y <= p.snaps[g].owner :: g in q.snaps && q.snaps[g] == p.snaps[g])
    && (forall g | g in q.snaps && y <= q.snaps[g].owner :: g in p.snaps && q.snaps[g] == p.snaps[g])
  }

  lemma UnworkedBelow(a: set<Path>, pr: set<Path>, b: set<Path>, t: set<Path>, p: Pool, q: Pool, y: Path)
    requires Next(a, pr, b, t, p, q) && OwnersExist(p) && OwnersExist(q)
    requires forall f | f in p.fs && y <= f :: f in b
    ensures SameBelow(p, q, y)
  {
    NextKeys(a, pr, b, t, p, q);
    hide Next;
    forall f | y <= f
      ensures f in p.fs <==> f in q.fs
      ensures f in p.fs ==> q.fs[f] == p.fs[f]
    {
      if f in p.fs || f in q.fs {
        UnworkedRecord(a, pr, b, t, p, q, f);
      }
    }
    forall g | g in p.snaps && y <= p.snaps[g].owner
      ensures g in q.snaps && q.snaps[g] == p.snaps[g]
    {
      SnapsSame(a, pr, b, t, p, q, p.snaps[g].owner);
    }
    forall g | g in q.snaps && y <= q.snaps[g].owner
      ensures g in p.snaps && q.snaps[g] == p.snaps[g]
    {
      assert q.snaps[g].owner in p.fs;
      SnapsSame(a, pr, b, t, p, q, q.snaps[g].owner);
    }
  }

  lemma NextKeys(a: set<Path>, pr: set<Path>, b: set<Path>, t: set<Path>, p: Pool, q: Pool)
    requires Next(a, pr, b, t, p, q)
    ensures forall f | f in q.fs :: f in p.fs
  {
    assert forall f | f in q.fs :: f in p.fs.Keys;
  }

  /** What is said of a clone of `x` is the same in both pools. */
  lemma CloneSame(a: set<Path>, pr: set<Path>, b: set<Path>, t: set<Path>, p: Pool, q: Pool, x: Path, c: Path)
    requires Next(a, pr, b, t, p, q) && x in b && IsClone(q, c, x)
    ensures IsClone(p, c, x) && Origin(p, c) == Origin(q, c) && OriginTxg(p, c) == OriginTxg(q, c)
    ensures forall g | g in p.snaps && p.snaps[g].owner == c :: g in q.snaps && q.snaps[g] == p.snaps[g]
    ensures forall n :: Clash(p, x, c, n) <==> Clash(q, x, c, n)
    ensures x != [] ==> forall n :: NewName(p, x, c, n) == NewName(q, x, c, n)
  {
    hide Next, Suffixed, SnapExists;
    ClonesSame(a, pr, b, t, p, q, c);
    AgesSame(a, pr, b, t, p, q, c);
    SnapsSame(a, pr, b, t, p, q, c);
    forall n
      ensures SnapExists(q, c, n) <==> SnapExists(p, c, n)
      ensures SnapExists(q, x, n) <==> SnapExists(p, x, n)
    {
      SnapExistsSame(a, pr, b, t, p, q, c, n);
      SnapExistsSame(a, pr, b, t, p, q, x, n);
    }
  }

  lemma WholeEarlier(p: Pool, q: Pool, s: Pool, y: Path)
    requires SameBelow(p, q, y) && Whole(q, s, y)
    ensures Whole(p, s, y)
  {
  }

  lemma LaterEarlier(p: Pool, q: Pool, s: Pool, d: Dataset, i: nat)
    requires Reflects(q, d) && SameBelow(p, q, d.name.path) && LaterWhole(q, s, d, i)
    ensures LaterWhole(p, s, d, i)
  {
    hide Reflects, SameBelow, Whole;
    forall j | i < j < |d.kids| && d.kids[j].name.Fs?
      ensures Whole(p, s, d.kids[j].name.path)
    {
      KidName(q, d, d.kids[j]);
      SameFurther(p, q, d.name.path, d.kids[j].name.path);
      WholeEarlier(p, q, s, d.kids[j].name.path);
    }
  }

  lemma SameFurther(p: Pool, q: Pool, x: Path, y: Path)
    requires SameBelow(p, q, x) && x <= y
    ensures SameBelow(p, q, y)
  {
    assert forall f | f in p.fs && y <= f :: x <= f;
    assert forall f | f in q.fs && y <= f :: x <= f;
  }

  lemma RenamedEarlier(a: set<Path>, pr: set<Path>, b: set<Path>, t: set<Path>, p: Pool, q: Pool, s: Pool, x: Path,
                       clone: Option<Path>, done: set<string>)
    requires Next(a, pr, b, t, p, q) && x in b && SameBelow(p, q, x) && OnlyRenamed(q, s, x, clone, done)
    ensures OnlyRenamed(p, s, x, clone, done)
  {
    hide Next, Clash, Suffixed;
    if clone.Some? {
      CloneSame(a, pr, b, t, p, q, x, clone.value);
    }
  }

  lemma HandedEarlier(a: set<Path>, pr: set<Path>, b: set<Path>, t: set<Path>, p: Pool, q: Pool, s: Pool, x: Path,
                      clone: Option<Path>, done: set<string>)
    requires Next(a, pr, b, t, p, q) && x in b && SameBelow(p, q, x) && HandedOn(q, s, x, clone, done)
    ensures HandedOn(p, s, x, clone, done)
  {
    hide Next, NewName, OriginTxg, Base;
    UnworkedRecord(a, pr, b, t, p, q, x);
    if clone.Some? {
      CloneSame(a, pr, b, t, p, q, x, clone.value);
      TopSame(a, pr, b, t, p, q, x, clone.value);
    }
  }

  lemma ThereEarlier(a: set<Path>, pr: set<Path>, b: set<Path>, t: set<Path>, p: Pool, q: Pool, s: Pool, x: Path,
                     clone: Option<Path>)
    requires Next(a, pr, b, t, p, q) && x in b && (clone.Some? ==> IsClone(q, clone.value, x))
    requires StillThere(q, s, x, clone)
    ensures StillThere(p, s, x, clone)
  {
    hide Next;
    UnworkedRecord(a, pr, b, t, p, q, x);
    if clone.Some? {
      CloneSame(a, pr, b, t, p, q, x, clone.value);
    }
  }

  lemma HandedIsClone(p: Pool, q: Pool, x: Path, clone: Option<Path>, done: set<string>)
    requires HandedOn(p, q, x, clone, done)
    ensures clone.Some? ==> IsClone(p, clone.value, x)
  {
    hide OriginTxg, NewName;
  }

  /** A call on a dataset that had not been worked on left things in terms of the earlier pool, too. */
  lemma {:induction false} HaltedEarlier(a: set<Path>, pr: set<Path>, b: set<Path>, t: set<Path>, p: Pool, q: Pool,
                                         s: Pool, d: Dataset, halt: Halt)
    requires Next(a, pr, b, t, p, q) && OwnersExist(p) && OwnersExist(q) && d.name.Fs? && Reflects(q, d)
    requires (forall f | f in p.fs && d.name.path <= f :: f in b) && Halted(q, s, d, halt)
    ensures Halted(p, s, d, halt)
    decreases halt
  {
    hide Next, OnlyRenamed, HandedOn, StillThere, Whole, Reflects, SnapNames, SnapKids, SameBelow;
    var x := d.name.path;
    NextKeys(a, pr, b, t, p, q);
    ReflectsExists(q, d);
    UnworkedBelow(a, pr, b, t, p, q, x);
    match halt
    case InFirst(clone, n) =>
      RenamedEarlier(a, pr, b, t, p, q, s, x, clone, SnapNames(SnapKids(d.kids)[..n]));
    case InKid(clone, i, below) =>
      HandedIsClone(q, s, x, clone, SnapNames(SnapKids(d.kids[..i])));
      HandedEarlier(a, pr, b, t, p, q, s, x, clone, SnapNames(SnapKids(d.kids[..i])));
      ThereEarlier(a, pr, b, t, p, q, s, x, clone);
      LaterEarlier(p, q, s, d, i);
      if d.kids[i].name.Fs? {
        KidName(q, d, d.kids[i]);
        HaltedEarlier(a, pr, b, t, p, q, s, d.kids[i], below);
      }
    case InLast(clone) =>
      HandedIsClone(q, s, x, clone, SnapNames(SnapKids(d.kids)));
      HandedEarlier(a, pr, b, t, p, q, s, x, clone, SnapNames(SnapKids(d.kids)));
      if x in s.fs {
        ThereEarlier(a, pr, b, t, p, q, s, x, clone);
      }
  }

  // ----- the children -----

  lemma SecuredStart(r: Pool, x: Path, pr0: set<Path>)
    ensures Secured(r, r, x, pr0)
  {
  }

  lemma KidFsSecured(p: Pool, r: Pool, q: Pool, s: Pool, d: Dataset, i: nat, pr: set<Path>, pb: set<Path>, ord: Orders,
                  pr0: set<Path>)
    requires i < |d.kids| && d.kids[i].name.Fs? && Between(p, r, q, d, i, pr, ord) && WF(s)
    requires Outcomes(q, s, d.kids[i].name.path, pb, true) || Outcomes(q, s, d.kids[i].name.path, pb, false)
    requires Secured(r, q, d.name.path, pr0) && pr0 <= pr
    ensures Secured(r, s, d.name.path, pr0) && d.name.path in s.fs
  {
    hide Progress, Covered, Next, Passable, WF, Good, Sub, Frame, Gone, Chosen, Secured, OwnLeft;
    var x := d.name.path;
    var a, b, t := Covered(p, x, d.kids[..i]), Sub(p, d.kids[i].name.path), Sub(p, x);
    KidFsReady(p, r, q, d, i, pr, ord);
    WFOrigins(s);
    SecuredKid(p, r, q, s, x, t, a, pr, b, pb, pr0);
  }

  /** The call on child filesystem `i` failed. */
  lemma KidFsHalts(p: Pool, r: Pool, q: Pool, s: Pool, d: Dataset, i: nat, pr: set<Path>, pb: set<Path>, ord: Orders,
                   below: Halt, pr0: set<Path>)
    requires i < |d.kids| && d.kids[i].name.Fs? && Between(p, r, q, d, i, pr, ord) && WF(s)
    requires Outcomes(q, s, d.kids[i].name.path, pb, false) && Halted(q, s, d.kids[i], below)
    requires Secured(r, q, d.name.path, pr0) && pr0 <= pr
    ensures KidHalted(p, r, s, d, i, below, pr0)
  {
    hide Progress, Covered, Next, Passable, WF, Reflects, Prepared, Ordered, Frame, Gone, Chosen, Secured, OwnLeft;
    hide Halted, EarlierGone, LaterWhole, SnapKids, SnapNames;
    var x, y := d.name.path, d.kids[i].name.path;
    var a, b, t := Covered(p, x, d.kids[..i]), Sub(p, y), Sub(p, x);
    KidFsReady(p, r, q, d, i, pr, ord);
    KidFsSecured(p, r, q, s, d, i, pr, pb, ord, pr0);
    WFOrigins(s);
    KidKeepsSnaps(p, r, q, s, x, t, a, pr, b, pb);
    FrameKeys(b, pb, q, s);
    BeforeAreGone(p, r, q, s, d, i, pr, ord);
    CoveredStep(p, d, i);
    KidFrameOnly(a, pr, b, pb, t, p, q, s);
    AfterAreWhole(p, r, q, s, d, i, a + b, pr + pb, ord);
    WFOwners(p);
    WFOwners(q);
    HaltedEarlier(a, pr, b, t, p, q, s, d.kids[i], below);
  }

  lemma KidFrameOnly(a: set<Path>, pr: set<Path>, b: set<Path>, pb: set<Path>, t: set<Path>, p: Pool, q: Pool, s: Pool)
    requires Next(a, pr, b, t, p, q) && Frame(b, pb, q, s)
    ensures Frame(a + b, pr + pb, p, s)
  {
    hide Frame, OriginsExist;
    NoInternalSub(p, t, a + b);
    FrameThen(a, pr, b, pb, p, q, s);
  }

  lemma KidSnapSecured(p: Pool, r: Pool, q: Pool, d: Dataset, i: nat, pr: set<Path>, ord: Orders, pr0: set<Path>)
    requires i < |d.kids| && d.kids[i].name.Snap? && d.kids[i].name.path == d.name.path
    requires Between(p, r, q, d, i, pr, ord) && Secured(r, q, d.name.path, pr0) && pr0 <= pr
    ensures Secured(r, Destroy(q, d.kids[i].name), d.name.path, pr0)
  {
    hide Progress, Covered, WF, Good, Frame, Sub, Secured;
    BetweenFrame(p, r, q, d, i, pr, ord);
    NotItsOwnClone(p, q, d, pr, ord);
    SecuredSnap(r, q, d.name.path, pr0, d.kids[i].name.snap);
  }

  lemma NotItsOwnClone(p: Pool, q: Pool, d: Dataset, pr: set<Path>, ord: Orders)
    requires Good(p, d, ord) && Frame(Sub(p, d.name.path), pr, p, q)
    ensures d.name.path !in pr
  {
    hide WF, Reflects, Prepared, Ordered;
    XInSub(p, d, ord);
  }

  /** The call on child snapshot `i` failed, and changed nothing. */
  lemma KidSnapHalts(p: Pool, r: Pool, q: Pool, d: Dataset, i: nat, pr: set<Path>, ord: Orders, below: Halt,
                     pr0: set<Path>)
    requires i < |d.kids| && d.kids[i].name.Snap? && Between(p, r, q, d, i, pr, ord)
    requires Secured(r, q, d.name.path, pr0)
    ensures KidHalted(p, r, q, d, i, below, pr0)
  {
    hide Covered, WF, Good, Frame, Sub, Secured, OwnLeft, Halted, EarlierGone, LaterWhole, SnapKids, SnapNames;
    var a := Covered(p, d.name.path, d.kids[..i]);
    BeforeAreGone(p, r, q, q, d, i, pr, ord);
    CoveredStep(p, d, i);
    assert a + {} == a;
    AfterAreWhole(p, r, q, q, d, i, a, pr, ord);
  }
}
