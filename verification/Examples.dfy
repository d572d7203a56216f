/** Concrete pools: one on which `DestroyPromote` succeeds, four that show what its conditions are there
    for, and one on which `DestroyRecursive` fails half-way. */
module Examples {
  import opened Pools
  import opened Frames
  import opened Promotion
  import opened Removal
  import opened KidSteps
  import opened Consequences
  import opened Chains
  import opened Halts
  import opened RecursiveDestroy
  import opened WholeCalls

  const R: Path := ["p"]
  const D: Path := ["p", "d"]
  const C: Path := ["p", "c1"]
  const E: Path := ["p", "ce2"]

  lemma PathsDiffer()
    ensures R != D && R != C && R != E && D != C && D != E && C != E
    ensures |D| == |C| == |E| == 2 && D[1] == "d"
  {
    assert |D[1]| == 1 && |C[1]| == 2 && |E[1]| == 3;
  }

  // ----- two clones, as the repository's own test builds them -----

  /** `d` has an older and a younger snapshot, each with a clone, which has a snapshot of its own. */
  const TWO_CLONES: Pool := Pool("p",
    map[R := Filesystem(None, 1), D := Filesystem(None, 2), C := Filesystem(Some(0), 12), E := Filesystem(Some(1), 14)],
    map[0 := Snapshot(D, "ss2", 10), 1 := Snapshot(D, "s1", 11), 2 := Snapshot(C, "s1", 13), 3 := Snapshot(E, "s", 15)])

  lemma TwoClonesRooted()
    ensures Rooted(TWO_CLONES) && OwnersExist(TWO_CLONES)
  {
    PathsDiffer();
    assert Parent(D) == R && Parent(C) == R && Parent(E) == R;
    assert TWO_CLONES.fs.Keys == {R, D, C, E};
  }

  lemma TwoClonesUnique()
    ensures NamesUnique(TWO_CLONES)
  {
    PathsDiffer();
    assert |"ss2"| == 3 && |"s1"| == 2 && |"s"| == 1;
  }

  lemma TwoClonesDated()
    ensures TxgsUnique(TWO_CLONES)
  {
    PathsDiffer();
  }

  lemma TwoClonesOrigins()
    ensures OriginsExist(TWO_CLONES) && OriginsOlder(TWO_CLONES)
  {
    PathsDiffer();
  }

  lemma TwoClonesWF()
    ensures WF(TWO_CLONES)
  {
    hide Rooted, OwnersExist, NamesUnique, TxgsUnique, OriginsExist, OriginsOlder;
    TwoClonesRooted();
    TwoClonesUnique();
    TwoClonesDated();
    TwoClonesOrigins();
  }

  lemma TwoClonesBases()
    ensures Sub(TWO_CLONES, D) == {D}
    ensures Base(TWO_CLONES, R) == None && Base(TWO_CLONES, D) == None
    ensures Base(TWO_CLONES, C) == Some(D) && Base(TWO_CLONES, E) == Some(D)
    ensures forall f :: f in TWO_CLONES.fs <==> f == R || f == D || f == C || f == E
  {
    PathsDiffer();
  }

  lemma TwoClonesTop(c: Path)
    ensures IsTop(TWO_CLONES, D, c) <==> c == E
  {
    PathsDiffer();
    TwoClonesBases();
    if IsTop(TWO_CLONES, D, c) {
      assert NotYounger(TWO_CLONES, E, c);
    }
  }

  lemma TwoClonesNames(n: string)
    ensures !Clash(TWO_CLONES, D, E, n)
  {
    PathsDiffer();
    assert |"ss2"| == 3 && |"s1"| == 2 && |"s"| == 1;
  }

  lemma TwoClonesSmall()
    ensures Small(TWO_CLONES) && Aged(TWO_CLONES)
  {
    PathsDiffer();
    assert TWO_CLONES.fs.Keys == {R, D, C, E} && TWO_CLONES.snaps.Keys == {0, 1, 2, 3};
    assert |TWO_CLONES.fs| == |TWO_CLONES.fs.Keys| && |TWO_CLONES.snaps| == |TWO_CLONES.snaps.Keys|;
  }

  /** The conditions under which `DestroyPromote` must succeed are met, and nothing is exposed. */
  lemma TwoClonesPrepared()
    ensures WF(TWO_CLONES) && Small(TWO_CLONES) && Aged(TWO_CLONES)
    ensures Prepared(TWO_CLONES, Sub(TWO_CLONES, D), map[]) && SuffixFresh(TWO_CLONES, Sub(TWO_CLONES, D))
    ensures Compatible(TWO_CLONES, Sub(TWO_CLONES, D))
  {
    hide WF, Small, Aged;
    TwoClonesWF();
    TwoClonesSmall();
    PathsDiffer();
    TwoClonesBases();
    var p := TWO_CLONES;
    TwoClonesTop(E);
    assert Reached(p, Sub(p, D), map[], D, E);
    forall e, c, n | e in Sub(p, D) && IsTop(p, e, c) && Clash(p, e, c, n)
      ensures false
    {
      TwoClonesTop(c);
      TwoClonesNames(n);
    }
    forall e, c | e in Sub(p, D) && IsTop(p, e, c)
      ensures NoYoungClash(p, e, c)
    {
      TwoClonesTop(c);
    }
  }

  /** What is left then: the two clones, the one with the younger origin promoted, the other one's
      origin on it, and the younger snapshot gone because nothing depends on it any more. */
  lemma TwoClonesOutcome(q: Pool, pr: set<Path>)
    requires WF(q) && Outcomes(TWO_CLONES, q, D, pr, true) && OnlyNeeded(TWO_CLONES, q, Sub(TWO_CLONES, D))
    ensures pr == {E} && q.fs.Keys == {R, C, E} && q.snaps.Keys == {0, 2, 3}
    ensures q.fs[E].origin == None && q.fs[C].origin == Some(0) && q.snaps[0] == Snapshot(E, "ss2", 10)
    ensures q.snaps[2] == TWO_CLONES.snaps[2] && q.snaps[3] == TWO_CLONES.snaps[3]
  {
    hide WF, Outcomes, OnlyNeeded, IsTop;
    PathsDiffer();
    TwoClonesBases();
    var p := TWO_CLONES;
    SurvivorsAndOrigins(p, q, D, pr);
    OnePromotedEach(p, q, D, pr, D);
    assert E in p.fs && IsClone(p, E, D);
    var c :| c in pr && IsTop(p, D, c);
    TwoClonesTop(c);
    forall f | f in pr
      ensures f == E
    {
      assert IsClone(p, f, D);
      assert IsClone(p, E, D);
    }
    TwoClonesSnaps(q, pr);
  }

  lemma TwoClonesSnaps(q: Pool, pr: set<Path>)
    requires WF(q) && Outcomes(TWO_CLONES, q, D, pr, true) && OnlyNeeded(TWO_CLONES, q, Sub(TWO_CLONES, D))
    requires pr == {E} && q.fs.Keys == {R, C, E} && q.fs[C].origin == Some(0) && q.fs[E].origin == None
    requires q.fs[R] == TWO_CLONES.fs[R]
    ensures q.snaps.Keys == {0, 2, 3} && q.snaps[0] == Snapshot(E, "ss2", 10)
    ensures q.snaps[2] == TWO_CLONES.snaps[2] && q.snaps[3] == TWO_CLONES.snaps[3]
  {
    hide OnlyNeeded, Outcomes, WF, Base, HasClone, SnapExists, Exposed, Small, Aged, Compatible, SuffixFresh, Prepared;
    PathsDiffer();
    OlderKeepsName();
    TwoClonesBases();
    TwoClonesPrepared();
    var p := TWO_CLONES;
    assert OwnersExist(q) && OriginsExist(q) by {
      WFOwners(q);
      WFOrigins(q);
    }
    assert p.snaps.Keys == {0, 1, 2, 3} && D in Sub(p, D);
    SnapshotsAfter(p, q, D, pr, 0);
    FreshLosesNothing(p, q, D, pr, 2);
    FreshLosesNothing(p, q, D, pr, 3);
    TwoClonesNeeded(q);
    LeftIffNeeded(p, q, D, 0);
    LeftIffNeeded(p, q, D, 1);
    KeysShrink(p, q, pr);
  }

  lemma OlderKeepsName()
    ensures NewName(TWO_CLONES, D, E, "ss2") == "ss2"
  {
    TwoClonesNames("ss2");
    assert IsSnap(TWO_CLONES, D, "ss2", 0);
  }

  lemma TwoClonesNeeded(q: Pool)
    requires q.fs.Keys == {R, C, E} && q.fs[C].origin == Some(0) && q.fs[E].origin == None && q.fs[R].origin == None
    ensures HasClone(q, 0) && !HasClone(q, 1)
  {
    assert C in q.fs && q.fs[C].origin == Some(0);
  }

  lemma KeysShrink(p: Pool, q: Pool, pr: set<Path>)
    requires Outcomes(p, q, D, pr, true)
    ensures q.snaps.Keys <= p.snaps.Keys
  {
  }

  // ----- a clash on a snapshot that stays behind -----

  /** The clone of `d@s` has a snapshot called like the younger `d@t`. */
  const YOUNG_CLASH: Pool := Pool("p",
    map[R := Filesystem(None, 1), D := Filesystem(None, 2), C := Filesystem(Some(0), 12)],
    map[0 := Snapshot(D, "s", 10), 1 := Snapshot(D, "tt", 20), 2 := Snapshot(C, "tt", 30)])

  lemma YoungClashRooted()
    ensures Rooted(YOUNG_CLASH) && OwnersExist(YOUNG_CLASH)
  {
    PathsDiffer();
    assert Parent(D) == R && Parent(C) == R;
    assert YOUNG_CLASH.fs.Keys == {R, D, C};
  }

  lemma YoungClashUnique()
    ensures NamesUnique(YOUNG_CLASH)
  {
    PathsDiffer();
    assert |"tt"| == 2 && |"s"| == 1;
  }

  lemma YoungClashDated()
    ensures TxgsUnique(YOUNG_CLASH)
  {
    PathsDiffer();
  }

  lemma YoungClashOrigins()
    ensures OriginsExist(YOUNG_CLASH) && OriginsOlder(YOUNG_CLASH)
  {
    PathsDiffer();
  }

  lemma YoungClashWF()
    ensures WF(YOUNG_CLASH)
  {
    hide Rooted, OwnersExist, NamesUnique, TxgsUnique, OriginsExist, OriginsOlder;
    YoungClashRooted();
    YoungClashUnique();
    YoungClashDated();
    YoungClashOrigins();
  }

  lemma YoungClashSmall()
    ensures Small(YOUNG_CLASH) && Aged(YOUNG_CLASH)
  {
    PathsDiffer();
    assert YOUNG_CLASH.fs.Keys == {R, D, C} && YOUNG_CLASH.snaps.Keys == {0, 1, 2};
    assert |YOUNG_CLASH.fs| == |YOUNG_CLASH.fs.Keys| && |YOUNG_CLASH.snaps| == |YOUNG_CLASH.snaps.Keys|;
  }

  /** Everything else a caller must know holds of it. */
  lemma YoungClashPrepared()
    ensures WF(YOUNG_CLASH) && Small(YOUNG_CLASH) && Aged(YOUNG_CLASH)
    ensures Prepared(YOUNG_CLASH, Sub(YOUNG_CLASH, D), map[])
    ensures SuffixFresh(YOUNG_CLASH, Sub(YOUNG_CLASH, D))
    ensures !Compatible(YOUNG_CLASH, Sub(YOUNG_CLASH, D))
  {
    hide WF, Small, Aged;
    YoungClashWF();
    YoungClashSmall();
    PathsDiffer();
    var p := YOUNG_CLASH;
    assert Sub(p, D) == {D};
    assert |"tt"| == 2 && |"s"| == 1;
    assert Base(p, C) == Some(D) && Base(p, R) == None && Base(p, D) == None;
    forall e, c, n | e in Sub(p, D) && IsTop(p, e, c) && Clash(p, e, c, n)
      ensures e != [] && !SnapExists(p, e, Suffixed(e, n)) && !SnapExists(p, c, Suffixed(e, n))
    {
      assert c == C && n == "tt" && |Suffixed(e, n)| == 4;
    }
    assert IsTop(p, D, C);
    assert p.snaps[1].txg > OriginTxg(p, C) && IsSnap(p, C, "tt", 2);
    assert !NoYoungClash(p, D, C);
  }

  const YOUNG_THEN: Pool := YOUNG_CLASH.(snaps := YOUNG_CLASH.snaps[1 := Snapshot(D, "tt.d", 20)])

  const YOUNG_LATER: Pool := Pool("p",
    map[R := Filesystem(None, 1), D := Filesystem(Some(0), 2), C := Filesystem(None, 12)],
    map[0 := Snapshot(C, "s", 10), 1 := Snapshot(D, "tt.d", 20), 2 := Snapshot(C, "tt", 30)])

  /** The run: `tt` is renamed and the clone promoted. */
  lemma YoungClashHandedOver()
    ensures Suffixed(D, "tt") == "tt.d"
    ensures CanRename(YOUNG_CLASH, D, "tt", "tt.d") && Rename(YOUNG_CLASH, D, "tt", "tt.d") == YOUNG_THEN
    ensures Promotable(YOUNG_THEN, C) && Promote(YOUNG_THEN, C) == YOUNG_LATER
  {
    PathsDiffer();
    assert |"tt"| == 2 && |"s"| == 1 && |"tt.d"| == 4;
    assert IsSnap(YOUNG_CLASH, D, "tt", 1);
    assert Rename(YOUNG_CLASH, D, "tt", "tt.d").snaps == YOUNG_THEN.snaps;
    YoungClashPromoted();
  }

  lemma YoungClashPromoted()
    ensures Promotable(YOUNG_THEN, C) && Promote(YOUNG_THEN, C) == YOUNG_LATER
  {
    PathsDiffer();
    assert |"tt"| == 2 && |"s"| == 1;
    assert Promote(YOUNG_THEN, C).fs == YOUNG_LATER.fs;
    assert Promote(YOUNG_THEN, C).snaps == YOUNG_LATER.snaps;
  }

  /** Then the cached names `tt` and `s` are both absent, so destroying them changes nothing, and `d`
      still has a snapshot. */
  lemma YoungClashFails()
    ensures var r := YOUNG_LATER;
      Destroy(r, Snap(D, "s")) == r && Destroy(r, Snap(D, "tt")) == r && !CanDestroy(r, Fs(D))
  {
    PathsDiffer();
    assert |"tt"| == 2 && |"s"| == 1 && |"tt.d"| == 4;
    var r := YOUNG_LATER;
    assert Destroy(r, Snap(D, "s")).snaps == r.snaps && Destroy(r, Snap(D, "tt")).snaps == r.snaps;
    assert r.snaps[1].owner == D;
  }

  // ----- a suffixed name that is taken -----

  /** The clone of `d@a.d` has snapshots `a` and `a.d` of its own, and `d` has a younger `a`. */
  const TAKEN: Pool := Pool("p",
    map[R := Filesystem(None, 1), D := Filesystem(None, 2), C := Filesystem(Some(0), 12)],
    map[0 := Snapshot(D, "a.d", 10), 1 := Snapshot(D, "a", 20), 2 := Snapshot(C, "a", 30), 3 := Snapshot(C, "a.d", 31)])

  lemma TakenRooted()
    ensures Rooted(TAKEN) && OwnersExist(TAKEN)
  {
    PathsDiffer();
    assert Parent(D) == R && Parent(C) == R;
    assert TAKEN.fs.Keys == {R, D, C};
  }

  lemma TakenUnique()
    ensures NamesUnique(TAKEN)
  {
    PathsDiffer();
    assert |"a.d"| == 3 && |"a"| == 1;
  }

  lemma TakenDated()
    ensures TxgsUnique(TAKEN)
  {
    PathsDiffer();
  }

  lemma TakenOrigins()
    ensures OriginsExist(TAKEN) && OriginsOlder(TAKEN)
  {
    PathsDiffer();
  }

  lemma TakenWF()
    ensures WF(TAKEN)
  {
    hide Rooted, OwnersExist, NamesUnique, TxgsUnique, OriginsExist, OriginsOlder;
    TakenRooted();
    TakenUnique();
    TakenDated();
    TakenOrigins();
  }

  lemma TakenSmall()
    ensures Small(TAKEN) && Aged(TAKEN)
  {
    PathsDiffer();
    assert TAKEN.fs.Keys == {R, D, C} && TAKEN.snaps.Keys == {0, 1, 2, 3};
    assert |TAKEN.fs| == |TAKEN.fs.Keys| && |TAKEN.snaps| == |TAKEN.snaps.Keys|;
  }

  lemma TakenBases()
    ensures Sub(TAKEN, D) == {D} && Base(TAKEN, R) == None && Base(TAKEN, D) == None && Base(TAKEN, C) == Some(D)
    ensures OriginTxg(TAKEN, C) == 10 && forall c :: IsTop(TAKEN, D, c) <==> c == C
  {
    PathsDiffer();
    assert forall f :: IsClone(TAKEN, f, D) ==> f == C;
  }

  lemma TakenNames(x: Path, n: string)
    ensures SnapExists(TAKEN, x, n) <==> (x == D || x == C) && (n == "a" || n == "a.d")
  {
    PathsDiffer();
    assert |"a.d"| == 3 && |"a"| == 1;
    if n == "a" {
      assert IsSnap(TAKEN, D, n, 1) && IsSnap(TAKEN, C, n, 2);
    } else if n == "a.d" {
      assert IsSnap(TAKEN, D, n, 0) && IsSnap(TAKEN, C, n, 3);
    }
  }

  lemma TakenSuffixes()
    ensures Suffixed(D, "a") == "a.d" && Suffixed(D, "a.d") == "a.d.d"
    ensures "a.d.d" != "a" && "a.d.d" != "a.d" && "a" != "a.d"
  {
    PathsDiffer();
    assert |"a.d.d"| == 5 && |"a.d"| == 3 && |"a"| == 1;
  }

  /** If `a.d` is listed first, `d` gets through. */
  lemma TakenPasses()
    ensures Passes(TAKEN, D, C, ["a.d", "a"]) && !Passes(TAKEN, D, C, ["a", "a.d"])
  {
    hide SnapExists, Suffixed, OriginTxg;
    PathsDiffer();
    TakenBases();
    TakenSuffixes();
    var p := TAKEN;
    forall x, n
      ensures SnapExists(p, x, n) <==> (x == D || x == C) && (n == "a" || n == "a.d")
    {
      TakenNames(x, n);
    }
    var order := ["a.d", "a"];
    assert Firsts(order, 1) == {order[0]};
    var other := ["a", "a.d"];
    assert other[0] == "a" && Clash(p, D, C, other[0]) && !Freed(p, D, C, Firsts(other, 0), other[0]);
  }

  /** And then the clone's own `a.d` will be lost. */
  lemma TakenIsLost()
    ensures WF(TAKEN) && Small(TAKEN) && Aged(TAKEN)
    ensures Prepared(TAKEN, Sub(TAKEN, D), map[]) && Lost(TAKEN, D, map[], 3)
  {
    hide SnapExists, Suffixed, IsTop, OriginTxg, WF, Small, Aged;
    PathsDiffer();
    TakenWF();
    TakenSmall();
    TakenBases();
    TakenSuffixes();
    TakenNames(C, "a");
    TakenNames(D, "a.d");
    var p := TAKEN;
    assert IsTop(p, D, C) && Reached(p, Sub(p, D), map[], D, C);
    assert IsSnap(p, D, "a", 1) && StaysBehind(p, D, C, "a");
    assert ExposedBy(p, D, C, 3, "a");
  }

  const TAKEN_THEN: Pool := TAKEN.(snaps := TAKEN.snaps[0 := Snapshot(D, "a.d.d", 10)])

  const TAKEN_NEXT: Pool := TAKEN_THEN.(snaps := TAKEN_THEN.snaps[1 := Snapshot(D, "a.d", 20)])

  /** The pool after the conflict loop, which came to `a.d` first, and the promotion. */
  const TAKEN_LATER: Pool := Pool("p",
    map[R := Filesystem(None, 1), D := Filesystem(Some(0), 2), C := Filesystem(None, 12)],
    map[0 := Snapshot(C, "a.d.d", 10), 1 := Snapshot(D, "a.d", 20),
        2 := Snapshot(C, "a", 30), 3 := Snapshot(C, "a.d", 31)])

  lemma TakenHandedOver()
    ensures WF(TAKEN)
    ensures Suffixed(D, "a.d") == "a.d.d" && Suffixed(D, "a") == "a.d"
    ensures CanRename(TAKEN, D, "a.d", "a.d.d") && Rename(TAKEN, D, "a.d", "a.d.d") == TAKEN_THEN
    ensures CanRename(TAKEN_THEN, D, "a", "a.d") && Rename(TAKEN_THEN, D, "a", "a.d") == TAKEN_NEXT
    ensures Promotable(TAKEN_NEXT, C) && Promote(TAKEN_NEXT, C) == TAKEN_LATER
  {
    hide WF, Promotable, Pools.Promote, CanRename, Pools.Rename;
    TakenWF();
    PathsDiffer();
    TakenFirst();
    TakenSecond();
    TakenThird();
  }

  lemma TakenFirst()
    ensures CanRename(TAKEN, D, "a.d", "a.d.d") && Rename(TAKEN, D, "a.d", "a.d.d") == TAKEN_THEN
  {
    PathsDiffer();
    assert |"a.d.d"| == 5 && |"a.d"| == 3 && |"a"| == 1;
    assert IsSnap(TAKEN, D, "a.d", 0);
    assert Rename(TAKEN, D, "a.d", "a.d.d").snaps == TAKEN_THEN.snaps;
  }

  lemma TakenSecond()
    ensures CanRename(TAKEN_THEN, D, "a", "a.d") && Rename(TAKEN_THEN, D, "a", "a.d") == TAKEN_NEXT
  {
    PathsDiffer();
    assert |"a.d.d"| == 5 && |"a.d"| == 3 && |"a"| == 1;
    assert IsSnap(TAKEN_THEN, D, "a", 1);
    assert Rename(TAKEN_THEN, D, "a", "a.d").snaps == TAKEN_NEXT.snaps;
  }

  lemma TakenThird()
    ensures Promotable(TAKEN_NEXT, C) && Promote(TAKEN_NEXT, C) == TAKEN_LATER
  {
    hide Promotable;
    PathsDiffer();
    TakenPromotable();
    TakenSnaps();
    assert Promote(TAKEN_NEXT, C).fs == TAKEN_LATER.fs;
  }

  lemma TakenSnaps()
    requires Promotable(TAKEN_NEXT, C)
    ensures Promote(TAKEN_NEXT, C).snaps == TAKEN_LATER.snaps
  {
    hide Promotable;
    PathsDiffer();
    var p, q := TAKEN_NEXT, Promote(TAKEN_NEXT, C);
    assert q.snaps.Keys == {0, 1, 2, 3};
    assert Moves(p, C, 0) && !Moves(p, C, 1) && !Moves(p, C, 2) && !Moves(p, C, 3);
    assert q.snaps[0] == TAKEN_LATER.snaps[0] && q.snaps[1] == TAKEN_LATER.snaps[1];
    assert q.snaps[2] == TAKEN_LATER.snaps[2] && q.snaps[3] == TAKEN_LATER.snaps[3];
  }

  lemma TakenPromotable()
    ensures Promotable(TAKEN_NEXT, C)
  {
    PathsDiffer();
    assert |"a.d.d"| == 5 && |"a.d"| == 3 && |"a"| == 1;
    assert forall g | g in TAKEN_NEXT.snaps && Moves(TAKEN_NEXT, C, g) :: g == 0;
  }

  /** Then `d` loses the snapshot now called `a.d` through its stale handle and can be destroyed, and
      the clean-up, going by the saved names, destroys the clone's own `a.d`. */
  lemma OwnSnapshotLost()
    ensures var r := TAKEN_LATER;
      && CanDestroy(r, Snap(D, "a.d"))
      && var s := Destroy(Destroy(r, Snap(D, "a.d")), Snap(D, "a"));
      && CanDestroy(s, Fs(D))
      && var t := Destroy(s, Fs(D));
      && CanDestroy(t, Snap(C, "a.d"))
      && 3 in TAKEN.snaps && TAKEN.snaps[3].owner == C && 3 in t.snaps && 3 !in Destroy(t, Snap(C, "a.d")).snaps
  {
    PathsDiffer();
    assert |"a.d.d"| == 5 && |"a.d"| == 3 && |"a"| == 1;
    var r := TAKEN_LATER;
    var s := Destroy(Destroy(r, Snap(D, "a.d")), Snap(D, "a"));
    assert s.snaps.Keys == {0, 2, 3};
    assert s.fs.Keys == {R, D, C};
    assert !(D < R) && !(D < C) && !(D < D);
    var t := Destroy(s, Fs(D));
    assert t.fs.Keys == {R, C};
    assert IsSnap(t, C, "a.d", 3);
  }

  /** With the child cached as `a.d` the snapshot goes that was cached as `a`: should the next child fail
      after `a.d` and before `a`, it is gone although it was cached later. */
  lemma StaleNameTakesLater()
    ensures TAKEN.snaps[1].name == "a" && TAKEN.snaps[1].owner == D && CanDestroy(TAKEN_LATER, Snap(D, "a.d"))
    ensures 1 !in Destroy(TAKEN_LATER, Snap(D, "a.d")).snaps
    ensures PassedOn(TAKEN, Destroy(TAKEN_LATER, Snap(D, "a.d")), D, C, {"a.d"}, 1)
  {
    hide SnapExists, Suffixed, OriginTxg;
    PathsDiffer();
    TakenBases();
    TakenSuffixes();
    TakenNames(C, "a");
    assert |"a.d"| == 3 && |"a"| == 1;
    assert IsSnap(TAKEN_LATER, D, "a.d", 1);
  }

  // ----- a suffixed name that is taken in the clone alone -----

  /** The clone of `d@a` has snapshots `a` and `a.d` of its own. */
  const BUSY: Pool := Pool("p",
    map[R := Filesystem(None, 1), D := Filesystem(None, 2), C := Filesystem(Some(0), 12)],
    map[0 := Snapshot(D, "a", 10), 2 := Snapshot(C, "a", 30), 3 := Snapshot(C, "a.d", 31)])

  /** It is a proper pool, and everything else a caller must know holds of it. */
  lemma BusyPrepared()
    ensures WF(BUSY) && Small(BUSY) && Aged(BUSY) && Prepared(BUSY, Sub(BUSY, D), map[])
  {
    hide WF, Small, Aged;
    BusyWF();
    BusySmall();
    PathsDiffer();
    var p := BUSY;
    assert Sub(p, D) == {D} && Base(p, C) == Some(D) && Base(p, R) == None && Base(p, D) == None;
    assert IsTop(p, D, C) && Reached(p, Sub(p, D), map[], D, C);
  }

  lemma BusyRooted()
    ensures Rooted(BUSY) && OwnersExist(BUSY)
  {
    PathsDiffer();
    assert Parent(D) == R && Parent(C) == R;
    assert BUSY.fs.Keys == {R, D, C};
  }

  lemma BusyUnique()
    ensures NamesUnique(BUSY) && TxgsUnique(BUSY)
  {
    PathsDiffer();
    assert |"a.d"| == 3 && |"a"| == 1;
  }

  lemma BusyOrigins()
    ensures OriginsExist(BUSY) && OriginsOlder(BUSY)
  {
    PathsDiffer();
  }

  lemma BusyWF()
    ensures WF(BUSY)
  {
    hide Rooted, OwnersExist, NamesUnique, TxgsUnique, OriginsExist, OriginsOlder;
    BusyRooted();
    BusyUnique();
    BusyOrigins();
  }

  lemma BusySmall()
    ensures Small(BUSY) && Aged(BUSY)
  {
    PathsDiffer();
    assert BUSY.fs.Keys == {R, D, C} && BUSY.snaps.Keys == {0, 2, 3};
    assert |BUSY.fs| == |BUSY.fs.Keys| && |BUSY.snaps| == |BUSY.snaps.Keys|;
  }

  /** The renamed `a` cannot move to the clone, in whatever order the snapshots are listed, so the
      promotion is refused and nothing is lost. */
  lemma BusyNeverPasses(order: seq<string>)
    ensures Clash(BUSY, D, C, "a") && SnapExists(BUSY, C, Suffixed(D, "a")) && !SnapExists(BUSY, D, Suffixed(D, "a"))
    ensures IsClone(BUSY, C, D) && !Movable(BUSY, D, C) && !Passes(BUSY, D, C, order)
  {
    PathsDiffer();
    assert |"a.d"| == 3 && |"a"| == 1 && Suffixed(D, "a") == "a.d";
    assert IsSnap(BUSY, D, "a", 0) && IsSnap(BUSY, C, "a", 2) && IsSnap(BUSY, C, "a.d", 3);
    assert BUSY.snaps[0].txg <= OriginTxg(BUSY, C);
  }

  // ----- a clone inside the subtree -----

  const K: Path := ["p", "d", "k"]

  /** `d/k` is a clone of `d@s`. */
  const INNER: Pool := Pool("p",
    map[R := Filesystem(None, 1), D := Filesystem(None, 2), K := Filesystem(Some(0), 12)],
    map[0 := Snapshot(D, "s", 10)])

  const INNER_LATER: Pool := Pool("p",
    map[R := Filesystem(None, 1), D := Filesystem(Some(0), 2), K := Filesystem(None, 12)],
    map[0 := Snapshot(K, "s", 10)])

  lemma InnerWF()
    ensures WF(INNER)
  {
    PathsDiffer();
    assert Parent(D) == R && Parent(K) == D;
    assert INNER.fs.Keys == {R, D, K};
  }

  lemma InnerPromoted()
    ensures IsTop(INNER, D, K) && (forall n :: !Clash(INNER, D, K, n))
    ensures Promotable(INNER, K) && Promote(INNER, K) == INNER_LATER
  {
    PathsDiffer();
    assert Promote(INNER, K).fs == INNER_LATER.fs;
    assert Promote(INNER, K).snaps == INNER_LATER.snaps;
  }

  /** The clone takes `s` over, without a name of it in its cached struct: nothing was cached below it.
      So it cannot be destroyed when its turn comes, and neither can `d`. */
  lemma InnerFails()
    ensures WF(INNER) && !NoInternal(INNER, Sub(INNER, D)) && ChildNames(INNER, Fs(K)) == {}
    ensures IsTop(INNER, D, K) && (forall n :: !Clash(INNER, D, K, n)) && Promotable(INNER, K)
    ensures var r := Promote(INNER, K); !CanDestroy(r, Fs(K)) && !CanDestroy(r, Fs(D))
  {
    hide WF, Promotable, Pools.Promote, IsTop, Clash;
    PathsDiffer();
    InnerWF();
    InnerPromoted();
    assert D <= K && D < K && K in Sub(INNER, D) && D in Sub(INNER, D);
    assert Base(INNER, K) == Some(D);
    assert INNER_LATER.snaps[0].owner == K;
    assert !(K < R) && !(K < D) && !(K < K);
  }

  // ----- a recursive destruction that fails -----

  const A: Path := ["p", "d", "a"]
  const B: Path := ["p", "d", "bb"]

  /** `d` and `d/bb` have a snapshot `s`; `c1` is a clone of `d/a@t`. */
  const CHAINED: Pool := Pool("p",
    map[R := Filesystem(None, 1), D := Filesystem(None, 2), A := Filesystem(None, 3), B := Filesystem(None, 4),
        C := Filesystem(Some(2), 12)],
    map[0 := Snapshot(D, "s", 10), 1 := Snapshot(B, "s", 10), 2 := Snapshot(A, "t", 11)])

  /** With `d@s`, cached first, `d/bb@s` goes. So if `d/a` is cached next, with which the call must fail, a
      snapshot below a later child is gone by then. */
  lemma ChainGoesFirst(q: Pool)
    requires CutWithin(CHAINED, q, D, "s", Sub(CHAINED, D)) && CutAll(CHAINED, q, D, "s", Sub(CHAINED, D))
    ensures Unneeded(CHAINED, D, "s") && 0 !in q.snaps && 1 !in q.snaps
    ensures A in q.fs && !CloneFree(q, A) && !NoOutsideClone(q, A)
  {
    hide CutWithin, CutAll, Unneeded;
    PathsDiffer();
    ChainOfB();
    assert D <= B && D <= D && B in Sub(CHAINED, D) && D in Sub(CHAINED, D);
    GoneWith(q);
    assert C in q.fs && q.fs[C].origin == Some(2) && Base(q, C) == Some(A) && A <= A && !(A <= C);
    assert HasClone(q, 2);
  }

  lemma ChainOfB()
    ensures InChain(CHAINED, D, B, "s") && InChain(CHAINED, D, D, "s") && Unneeded(CHAINED, D, "s")
  {
    PathsDiffer();
    assert |A[2]| == 1 && |B[2]| == 2 && |"s"| == 1;
    assert IsSnap(CHAINED, B, "s", 1) && B[..3] == B;
    forall g | g in CHAINED.snaps && CHAINED.snaps[g].name == "s"
      ensures !HasClone(CHAINED, g)
    {
      assert g == 0 || g == 1;
    }
  }

  lemma GoneWith(q: Pool)
    requires CutWithin(CHAINED, q, D, "s", Sub(CHAINED, D)) && CutAll(CHAINED, q, D, "s", Sub(CHAINED, D))
    requires InChain(CHAINED, D, B, "s") && InChain(CHAINED, D, D, "s") && B in Sub(CHAINED, D) && D in Sub(CHAINED, D)
    ensures 0 !in q.snaps && 1 !in q.snaps && q.fs == CHAINED.fs && 2 in q.snaps && q.snaps[2] == CHAINED.snaps[2]
  {
    hide InChain, Sub;
    PathsDiffer();
    assert CHAINED.snaps[2].name != "s";
  }
}
