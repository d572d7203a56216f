/** A concrete pool: a dataset and its child were snapshotted and cloned together, so that the clone of
    the child lies below the clone of the dataset. */
module ClonedTree {
  import opened Pools
  import opened Promotion
  import opened Removal
  import opened KidSteps
  import opened Consequences

  const R: Path := ["p"]
  const D: Path := ["p", "d"]
  const K: Path := ["p", "d", "k"]
  const C: Path := ["p", "cc"]
  const L: Path := ["p", "cc", "k"]

  const TREE: Pool := Pool("p",
    map[R := Filesystem(None, 1), D := Filesystem(None, 2), K := Filesystem(None, 3),
        C := Filesystem(Some(0), 12), L := Filesystem(Some(1), 13)],
    map[0 := Snapshot(D, "s", 10), 1 := Snapshot(K, "s", 10)])

  lemma PathsDiffer()
    ensures R != D && R != K && R != C && R != L && D != K && D != C && D != L && K != C && K != L && C != L
    ensures Parent(D) == R && Parent(C) == R && Parent(K) == D && Parent(L) == C && L[..2] == C
    ensures D < K && !(D <= R) && !(D <= C) && !(D <= L)
  {
    assert |D[1]| == 1 && |C[1]| == 2;
  }

  lemma TreeRooted()
    ensures Rooted(TREE) && OwnersExist(TREE)
  {
    PathsDiffer();
    assert TREE.fs.Keys == {R, D, K, C, L};
  }

  lemma TreeRest()
    ensures NamesUnique(TREE) && TxgsUnique(TREE) && OriginsExist(TREE) && OriginsOlder(TREE)
  {
    PathsDiffer();
  }

  lemma TreeSmall()
    ensures Small(TREE) && Aged(TREE)
  {
    PathsDiffer();
    assert TREE.fs.Keys == {R, D, K, C, L} && TREE.snaps.Keys == {0, 1};
    assert |TREE.fs| == |TREE.fs.Keys| && |TREE.snaps| == |TREE.snaps.Keys|;
  }

  lemma TreeBases()
    ensures Sub(TREE, D) == {D, K}
    ensures forall f, e :: IsClone(TREE, f, e) <==> (f == C && e == D) || (f == L && e == K)
    ensures forall e, c :: IsTop(TREE, e, c) <==> IsClone(TREE, c, e)
    ensures Origin(TREE, D) == None && Origin(TREE, K) == None && Origin(TREE, R) == None
  {
    PathsDiffer();
  }

  /** The search for the child's clone does not get past the other clone as the pool is now; but when
      the turn comes to the child, that one was promoted. */
  lemma TreeReached()
    ensures !ClearPath(TREE, K, L) && Reached(TREE, Sub(TREE, D), map[], K, L)
    ensures Prepared(TREE, Sub(TREE, D), map[])
  {
    hide IsTop;
    PathsDiffer();
    TreeBases();
    var p, t := TREE, Sub(TREE, D);
    assert TurnBefore(map[], D, K) && OnlyTop(p, D, C);
    assert Released(p, t, map[], K, L[..2]);
    assert Base(p, L[..2]) == Some(D);
    assert Reached(p, t, map[], D, C) && IsTop(p, D, C) && IsTop(p, K, L);
    assert TopReached(p, t, map[], D) && TopReached(p, t, map[], K);
  }

  /** All conditions under which `DestroyPromote` must succeed are met. */
  lemma TreePrepared()
    ensures WF(TREE) && Small(TREE) && Aged(TREE)
    ensures Prepared(TREE, Sub(TREE, D), map[]) && SuffixFresh(TREE, Sub(TREE, D))
    ensures Compatible(TREE, Sub(TREE, D))
  {
    hide Rooted, OwnersExist, NamesUnique, TxgsUnique, OriginsExist, OriginsOlder, Small, Aged, IsTop, Prepared;
    PathsDiffer();
    TreeRooted();
    TreeRest();
    TreeSmall();
    TreeBases();
    TreeReached();
    forall c, n | c == C || c == L
      ensures !SnapExists(TREE, c, n)
    {
    }
  }

  /** What is left then: the two clones, both promoted, without origin and without snapshots. */
  lemma TreeOutcome(q: Pool, pr: set<Path>)
    requires WF(q) && Outcomes(TREE, q, D, pr, true) && OnlyNeeded(TREE, q, Sub(TREE, D))
    ensures pr == {C, L} && q.fs.Keys == {R, C, L} && q.snaps == map[]
    ensures forall f | f in q.fs :: q.fs[f].origin == None
  {
    hide WF, Outcomes, OnlyNeeded, IsTop, Base;
    PathsDiffer();
    TreeBases();
    var p := TREE;
    SurvivorsAndOrigins(p, q, D, pr);
    OnePromotedEach(p, q, D, pr, D);
    OnePromotedEach(p, q, D, pr, K);
    assert IsClone(p, C, D) && IsClone(p, L, K);
    forall f | f in pr
      ensures f == C || f == L
    {
      assert IsClone(p, f, Base(p, f).value);
    }
    assert C in pr && L in pr;
    WFOrigins(q);
    LeftIffNeeded(p, q, D, 0);
    LeftIffNeeded(p, q, D, 1);
    NoNewSnaps(q, pr);
  }

  lemma NoNewSnaps(q: Pool, pr: set<Path>)
    requires Outcomes(TREE, q, D, pr, true)
    ensures q.snaps.Keys <= {0, 1}
  {
    assert TREE.snaps.Keys == {0, 1};
  }
}
