/** `Destroy` of one struct, and the clean-up after a promotion. */
module Destroying {
  import opened Pools
  import opened Handles
  import opened Trees
  import opened Backend
  import opened Opening
  import opened CloneLists
  import opened HandOver

  /** `Destroy`. A struct with cached children is refused, except that a closed one reports success
      without doing anything: the error of reading its path is dropped. */
  method DestroyOne(z: Zfs, d: Dataset) returns (res: Outcome)
    requires z.Valid() && (d.list != null ==> d.list.zh == Some(d.name))
    modifies z
    ensures z.Valid() && old(z.trace) <= z.trace
    ensures old(z.Steady()) ==> z.Steady()
    ensures old(z.Calm()) ==> z.Calm()
    ensures d.kids != [] ==> z.pool == old(z.pool) && res == if d.list == null then Ok else Err
    ensures d.kids == [] && d.list == null ==> z.pool == old(z.pool) && res == Err
    ensures d.kids == [] && d.list != null && res == Ok ==>
      CanDestroy(old(z.pool), d.name) && z.pool == Destroy(old(z.pool), d.name)
    ensures res != Ok ==> z.pool == old(z.pool)
    ensures old(z.Calm()) && d.kids == [] && d.list != null ==> (res == Ok <==> CanDestroy(old(z.pool), d.name))
    ensures res != Blocked
  {
    hide History, CanDestroy, Destroy;
    if |d.kids| > 0 {
      if d.list == null {
        res := Ok;
      } else {
        res := Err;
      }
    } else if d.list != null {
      var ok := z.Destroy(d.list.zh.value);
      res := if ok then Ok else Err;
    } else {
      res := Err;
    }
  }

  /** From `q` to `s` only snapshots of `c` with one of the names were removed. */
  ghost predicate Pruned(q: Pool, s: Pool, c: Path, names: seq<string>) {
    && s.name == q.name && s.fs == q.fs && s.snaps.Keys <= q.snaps.Keys
    && (forall g | g in s.snaps :: s.snaps[g] == q.snaps[g])
    && (forall g | g in q.snaps && g !in s.snaps :: q.snaps[g].owner == c && q.snaps[g].name in names)
  }

  /** What is left under one of the names is still somebody's origin. */
  ghost predicate Swept(s: Pool, c: Path, names: seq<string>) {
    forall g | g in s.snaps && s.snaps[g].owner == c && s.snaps[g].name in names :: HasClone(s, g)
  }

  lemma PrunedMore(q: Pool, s: Pool, c: Path, names: seq<string>, i: nat)
    requires i < |names| && Pruned(q, s, c, names[..i])
    ensures Pruned(q, s, c, names[..i + 1]) && Pruned(q, Destroy(s, Snap(c, names[i])), c, names[..i + 1])
  {
    assert names[..i + 1] == names[..i] + [names[i]];
  }

  lemma SweptGone(s: Pool, c: Path, names: seq<string>, i: nat)
    requires i < |names| && Swept(s, c, names[..i])
    ensures Swept(Destroy(s, Snap(c, names[i])), c, names[..i + 1])
  {
    assert names[..i + 1] == names[..i] + [names[i]];
    var r := Destroy(s, Snap(c, names[i]));
    forall g | g in r.snaps && r.snaps[g].owner == c && r.snaps[g].name in names[..i + 1]
      ensures HasClone(r, g)
    {
      assert HasClone(s, g);
    }
  }

  lemma SweptKept(s: Pool, c: Path, names: seq<string>, i: nat)
    requires i < |names| && NamesUnique(s) && Swept(s, c, names[..i])
    requires !CanDestroy(s, Snap(c, names[i])) || !SnapExists(s, c, names[i])
    ensures Swept(s, c, names[..i + 1])
  {
    assert names[..i + 1] == names[..i] + [names[i]];
    forall g | g in s.snaps && s.snaps[g].owner == c && s.snaps[g].name == names[i]
      ensures HasClone(s, g)
    {
      assert IsSnap(s, c, names[i], g);
      var f :| f in s.fs && s.fs[f].origin.Some? && IsSnap(s, c, names[i], s.fs[f].origin.value);
      assert s.fs[f].origin == Some(g);
    }
  }

  /** Once a name does not exist among the clone's snapshots it never will during the clean-up. */
  lemma StaysAbsent(q: Pool, s: Pool, c: Path, names: seq<string>, n: string)
    requires Pruned(q, s, c, names) && !SnapExists(q, c, n)
    ensures !SnapExists(s, c, n)
  {
  }

  /** One round of the clean-up. `q` is the pool when it began; what is said about needed snapshots holds
      if no foreign call fails and the cached tree was true then (`good`). */
  method CleanUpOne(z: Zfs, cds: Dataset, psnaps: seq<string>, i: nat, ghost q: Pool, ghost good: bool)
    requires z.Valid() && i < |psnaps| && Opened(cds) && Shaped(cds)
    requires Pruned(q, z.pool, cds.name.path, psnaps[..i])
    requires good ==> z.Calm() && cds.name.Fs? && Reflects(q, cds) && Swept(z.pool, cds.name.path, psnaps[..i])
    modifies z
    ensures z.Valid() && old(z.trace) <= z.trace
    ensures old(z.Steady()) ==> z.Steady()
    ensures old(z.Calm()) ==> z.Calm()
    ensures Pruned(q, z.pool, cds.name.path, psnaps[..i + 1])
    ensures good ==> Swept(z.pool, cds.name.path, psnaps[..i + 1])
  {
    hide WF, Reflects, History, Opened, Shaped, Pruned, Swept, CanDestroy, Destroy, SnapExists;
    HandlesAllocated(cds);
    PrunedMore(q, z.pool, cds.name.path, psnaps, i);
    var found, snap := FindSnapshotName(cds, psnaps[i]);
    z.PoolIsWF();
    WFNames(z.pool);
    if good {
      FindsSnapshots(q, cds, cds.name.path, psnaps[i]);
      CleanStep(q, z.pool, cds.name.path, psnaps, i, found);
    }
    if found {
      KidOpened(cds, snap);
      SnapKidIsLeaf(cds, snap);
      var _ := DestroyOne(z, snap);
    }
  }

  /** The clean-up: reopens the promoted clone and destroys, by name, what nobody depends on. */
  method CleanUp(z: Zfs, head: Name, psnaps: seq<string>) returns (res: Outcome)
    requires z.Valid()
    modifies z
    ensures z.Valid() && old(z.trace) <= z.trace
    ensures old(z.Steady()) ==> z.Steady()
    ensures old(z.Calm()) ==> z.Calm() && (res == Ok <==> Exists(old(z.pool), head))
    ensures Pruned(old(z.pool), z.pool, head.path, psnaps) && res != Blocked
    ensures res != Ok ==> z.pool == old(z.pool)
    ensures old(z.Calm()) && head.Fs? && res == Ok ==> Swept(z.pool, head.path, psnaps)
  {
    hide WF, Reflects, History, Opened, Shaped, Pruned, Swept, CanDestroy, Destroy, SnapExists;
    PrunedNone(z.pool, head.path, psnaps);
    z.CalmIsSteady();
    var cds, ok := DatasetOpen(z, head);
    if !ok {
      res := Err;
      return;
    }
    HandlesAllocated(cds);
    assert psnaps[..0] == [];
    for i := 0 to |psnaps|
      invariant z.Valid() && old(z.trace) <= z.trace
      invariant old(z.Steady()) ==> z.Steady()
      invariant Opened(cds)
      invariant old(z.Calm()) ==> z.Calm() && Reflects(old(z.pool), cds)
      invariant Pruned(old(z.pool), z.pool, head.path, psnaps[..i])
      invariant old(z.Calm()) && head.Fs? ==> Swept(z.pool, head.path, psnaps[..i])
    {
      HandlesAllocated(cds);
      CleanUpOne(z, cds, psnaps, i, old(z.pool), old(z.Calm()) && head.Fs?);
    }
    assert psnaps[..|psnaps|] == psnaps;
    cds := CloseTree(cds);
    res := Ok;
  }

  lemma PrunedNone(q: Pool, c: Path, psnaps: seq<string>)
    ensures Pruned(q, q, c, []) && Pruned(q, q, c, psnaps) && Swept(q, c, [])
  {
  }

  lemma SnapKidIsLeaf(d: Dataset, k: Dataset)
    requires Shaped(d) && k in d.kids && k.name.Snap?
    ensures k.kids == []
  {
    ShapedChild(d, k);
    SnapHasNoKids(k);
  }

  /** Both outcomes of one round leave only needed snapshots under the names handled so far. */
  lemma CleanStep(q: Pool, s: Pool, c: Path, names: seq<string>, i: nat, found: bool)
    requires i < |names| && NamesUnique(s) && Pruned(q, s, c, names[..i]) && Swept(s, c, names[..i])
    requires found <==> SnapExists(q, c, names[i])
    ensures found ==> Swept(Destroy(s, Snap(c, names[i])), c, names[..i + 1])
    ensures !found || !CanDestroy(s, Snap(c, names[i])) ==> Swept(s, c, names[..i + 1])
  {
    hide Pruned, Swept, SnapExists, CanDestroy, Destroy, NamesUnique;
    SweptGone(s, c, names, i);
    if !found {
      StaysAbsent(q, s, c, names[..i], names[i]);
    }
    if !found || !CanDestroy(s, Snap(c, names[i])) {
      SweptKept(s, c, names, i);
    }
  }
}
