/** The first half of `DestroyPromote`: resolving name conflicts and promoting the chosen clone. */
module HandOver {
  import opened Pools
  import opened Decimal
  import opened Frames
  import opened Handles
  import opened Trees
  import opened Backend
  import opened Opening
  import opened Lookup
  import opened CloneLists
  import opened Promotion
  import opened CachedOrders

  /** An opened tree, or a struct without children whose handle was closed. */
  ghost predicate Usable(d: Dataset)
    reads Onces(d), NodesOf(Onces(d))
  {
    if d.list == null then d.kids == [] else Opened(d)
  }

  lemma UsableKid(d: Dataset, k: Dataset)
    requires Usable(d) && k in d.kids
    ensures Opened(k) && Usable(k) && k.list != null && k.list.zh == Some(k.name)
  {
    KidOpened(d, k);
  }

  lemma UsableName(d: Dataset)
    requires Usable(d)
    ensures d.list != null ==> d.list.zh == Some(d.name)
  {
  }

  lemma KidOpened(d: Dataset, k: Dataset)
    requires Opened(d) && k in d.kids
    ensures Opened(k) && k.list != null && k.list.zh == Some(k.name)
  {
    assert Live(k);
    assert Onces(k) <= Onces(d);
  }

  /** `FindSnapshotName`: looks for the struct's own name followed by `@n`. */
  method FindSnapshotName(d: Dataset, n: string) returns (ok: bool, snap: Dataset)
    ensures ok == (d.name.Fs? && FirstSnap(d.kids, Snap(d.name.path, n)).Some?)
    ensures ok ==> snap in d.kids && snap.name == Snap(d.name.path, n)
  {
    if d.name.Fs? {
      ok, snap := FindSnapshot(d, Snap(d.name.path, n));
    } else {
      ok, snap := false, d;
    }
  }

  /** On a true cached tree the search by name finds exactly the snapshots of the dataset. */
  lemma FindsSnapshots(p: Pool, d: Dataset, c: Path, n: string)
    requires Reflects(p, d) && d.name == Fs(c)
    ensures FirstSnap(d.kids, Snap(c, n)).Some? <==> SnapExists(p, c, n)
  {
    hide Cached;
    FirstSnapFinds(d.kids, Snap(c, n));
    if SnapExists(p, c, n) {
      var g :| g in p.snaps && IsSnap(p, c, n, g);
      assert Snap(c, n) in ChildNames(p, d.name);
    }
    if Snap(c, n) in ChildNames(p, d.name) {
      var g :| g in p.snaps && p.snaps[g].owner == c && p.snaps[g].name == n;
      assert IsSnap(p, c, n, g);
    }
  }

  /** The cached trees are true, of a dataset and of one of its clones. */
  ghost predicate Facing(p: Pool, d: Dataset, cds: Dataset) {
    && d.name.Fs? && cds.name.Fs?
    && Reflects(p, d) && Reflects(p, cds)
    && d.name.path != []
  }

  /** `saved` holds the new names of the first snapshots, in order. */
  ghost predicate Saved(p: Pool, x: Path, c: Path, snaps: seq<Dataset>, saved: seq<string>)
    requires x != []
  {
    && |saved| <= |snaps|
    && forall i | 0 <= i < |saved| :: snaps[i].name.Snap? && saved[i] == NewName(p, x, c, snaps[i].name.snap)
  }

  ghost function SnapNames(ks: seq<Dataset>): set<string> {
    set k | k in ks && k.name.Snap? :: k.name.snap
  }

  lemma FirstsAre(snaps: seq<Dataset>, i: nat)
    requires i <= |snaps| && forall s | s in snaps :: s.name.Snap?
    ensures Firsts(SnapOrder(snaps), i) == SnapNames(snaps[..i])
  {
    forall n | n in Firsts(SnapOrder(snaps), i)
      ensures n in SnapNames(snaps[..i])
    {
      var j :| 0 <= j < i && SnapOrder(snaps)[j] == n;
      assert snaps[..i][j] == snaps[j] && snaps[j] in snaps;
    }
    forall n | n in SnapNames(snaps[..i])
      ensures n in Firsts(SnapOrder(snaps), i)
    {
      var k :| k in snaps[..i] && k.name.Snap? && k.name.snap == n;
      var j :| 0 <= j < i && snaps[j] == k;
      assert SnapOrder(snaps)[j] == n;
    }
  }

  /** The first `n` names of an order are orderly. */
  ghost predicate OrderlyTo(p: Pool, x: Path, c: Path, order: seq<string>, n: nat)
    requires x != [] && n <= |order|
  {
    forall i | 0 <= i < n && Clash(p, x, c, order[i]) :: Freed(p, x, c, Firsts(order, i), order[i])
  }

  lemma OrderlyStep(p: Pool, x: Path, c: Path, snaps: seq<Dataset>, i: nat, done: set<string>)
    requires x != [] && i < |snaps| && (forall s | s in snaps :: s.name.Snap?) && done == SnapNames(snaps[..i])
    requires OrderlyTo(p, x, c, SnapOrder(snaps), i)
    ensures SnapOrder(snaps)[i] == snaps[i].name.snap
    ensures (Clash(p, x, c, snaps[i].name.snap) ==> Freed(p, x, c, done, snaps[i].name.snap))
        <==> OrderlyTo(p, x, c, SnapOrder(snaps), i + 1)
    ensures Orderly(p, x, c, SnapOrder(snaps)) ==> OrderlyTo(p, x, c, SnapOrder(snaps), i + 1)
    ensures i + 1 == |snaps| && OrderlyTo(p, x, c, SnapOrder(snaps), i + 1) ==> Orderly(p, x, c, SnapOrder(snaps))
  {
    hide Clash, Freed, SnapNames;
    FirstsAre(snaps, i);
    assert snaps[i] in snaps;
  }

  lemma SnapKidIs(d: Dataset, i: nat)
    requires Shaped(d) && i < |SnapKids(d.kids)|
    ensures var s := SnapKids(d.kids)[i];
      s in d.kids && s.name.Snap? && s.name.path == d.name.path && s.name.snap !in SnapNames(SnapKids(d.kids)[..i])
  {
    hide ParseInt;
    SnapKidsAre(d.kids);
    var snaps := SnapKids(d.kids);
    assert snaps[i] in snaps;
    assert ChildName(d.name, snaps[i].name);
    forall j | 0 <= j < i
      ensures snaps[j].name.Snap? && snaps[j].name.snap != snaps[i].name.snap
    {
      assert snaps[j] in snaps;
      assert ChildName(d.name, snaps[j].name);
    }
  }

  lemma SnapKidExists(p: Pool, d: Dataset, s: Dataset)
    requires Reflects(p, d) && s in d.kids && s.name.Snap?
    ensures SnapExists(p, s.name.path, s.name.snap)
  {
    assert Reflects(p, s);
  }

  lemma SnapNamesNone()
    ensures SnapNames([]) == {}
  {
  }

  lemma SnapNamesSnoc(snaps: seq<Dataset>, i: nat)
    requires i < |snaps| && snaps[i].name.Snap?
    ensures SnapNames(snaps[..i + 1]) == SnapNames(snaps[..i]) + {snaps[i].name.snap}
  {
    assert snaps[..i + 1] == snaps[..i] + [snaps[i]];
  }

  /** From `p` to `q` nothing changed but names of snapshots. */
  ghost predicate OnlyNames(p: Pool, q: Pool) {
    && q.name == p.name && q.fs == p.fs && q.snaps.Keys == p.snaps.Keys
    && forall g | g in p.snaps :: q.snaps[g].owner == p.snaps[g].owner && q.snaps[g].txg == p.snaps[g].txg
  }

  lemma OnlyNamesNow(p: Pool)
    ensures OnlyNames(p, p)
  {
  }

  lemma OnlyNamesThen(p: Pool, q: Pool, s: Pool)
    requires OnlyNames(p, q) && OnlyNames(q, s)
    ensures OnlyNames(p, s)
  {
  }

  lemma OnlyNamesKeys(p: Pool, q: Pool)
    requires OnlyNames(p, q)
    ensures q.fs.Keys == p.fs.Keys
  {
  }

  /** One round of the conflict loop: a snapshot of `d` whose name the clone also uses is renamed.
      `p` is the pool at the start of the loop and `done` are the names already handled; what is
      said about them holds if the cached trees were true (`good`). */
  method ResolveOne(z: Zfs, s: Dataset, cds: Dataset, ghost good: bool, ghost p: Pool, ghost done: set<string>)
    returns (sname: string, ok: bool)
    requires z.Valid() && s.name.Snap? && s.name.path != [] && s.list != null && s.list.zh == Some(s.name)
    requires good ==> cds.name.Fs? && Reflects(p, cds)
    requires good ==> SnapExists(p, s.name.path, s.name.snap) && s.name.snap !in done
    requires good ==>
      z.pool == Resolved(p, s.name.path, cds.name.path, done) && Settled(p, s.name.path, cds.name.path, done)
    modifies z
    ensures z.Valid() && old(z.trace) <= z.trace && OnlyNames(old(z.pool), z.pool)
    ensures old(z.Steady()) ==> z.Steady()
    ensures good && ok ==> sname == NewName(p, s.name.path, cds.name.path, s.name.snap)
    ensures good && ok ==>
      && z.pool == Resolved(p, s.name.path, cds.name.path, done + {s.name.snap})
      && Settled(p, s.name.path, cds.name.path, done + {s.name.snap})
      && (Clash(p, s.name.path, cds.name.path, s.name.snap) ==> Freed(p, s.name.path, cds.name.path, done, s.name.snap))
    ensures !ok ==> z.pool == old(z.pool)
    ensures old(z.Calm()) ==> z.Calm()
    ensures old(z.Calm()) && good && !ok ==>
      Clash(p, s.name.path, cds.name.path, s.name.snap) && !Freed(p, s.name.path, cds.name.path, done, s.name.snap)
  {
    hide Reflects, History, SnapExists, CanRename, Pools.Rename, Resolved, Settled, Freed;
    sname, ok := s.name.snap, true;
    var clash, _ := FindSnapshotName(cds, sname);
    if good {
      FindsSnapshots(p, cds, cds.name.path, sname);
      if clash {
        assert Clash(p, s.name.path, cds.name.path, sname);
        ResolvedStep(p, s.name.path, cds.name.path, done, sname);
      } else {
        ResolvedSame(p, s.name.path, cds.name.path, done, sname);
      }
      if Clash(p, s.name.path, cds.name.path, sname) ==> Freed(p, s.name.path, cds.name.path, done, sname) {
        SettledMore(p, s.name.path, cds.name.path, done, sname);
      }
    }
    if clash {
      sname := Suffixed(s.name.path, sname);
      ok := z.Rename(s.list.zh.value, sname);
      RenameKeepsFs(old(z.pool), s.name.path, s.name.snap, sname);
    }
  }

  lemma RenameKeepsFs(p: Pool, x: Path, n: string, m: string)
    ensures OnlyNames(p, Rename(p, x, n, m))
  {
  }

  /** The conflict loop: every snapshot of `d` gets its new name, and the new names are saved in
      order. Whatever names are taken, it runs to its end exactly if the cached order is orderly. */
  method ResolveConflicts(z: Zfs, d: Dataset, cds: Dataset)
    returns (psnaps: seq<string>, ok: bool, ghost done: set<string>)
    requires z.Valid() && Usable(d) && Shaped(d) && d.name.path != []
    modifies z
    ensures z.Valid() && old(z.trace) <= z.trace && OnlyNames(old(z.pool), z.pool)
    ensures old(z.Steady()) ==> z.Steady()
    ensures Facing(old(z.pool), d, cds) ==> z.pool == Resolved(old(z.pool), d.name.path, cds.name.path, done)
    ensures Facing(old(z.pool), d, cds) ==>
      |psnaps| <= |SnapKids(d.kids)| && done == SnapNames(SnapKids(d.kids)[..|psnaps|])
    ensures Facing(old(z.pool), d, cds) && ok ==>
      && |psnaps| == |SnapKids(d.kids)| && Saved(old(z.pool), d.name.path, cds.name.path, SnapKids(d.kids), psnaps)
      && done == SnapNames(SnapKids(d.kids)) && SavedAll(old(z.pool), d.name.path, cds.name.path, psnaps)
      && Orderly(old(z.pool), d.name.path, cds.name.path, SnapOrder(SnapKids(d.kids)))
    ensures old(z.Calm()) ==> z.Calm()
    ensures old(z.Calm()) && Facing(old(z.pool), d, cds) ==>
      (ok <==> Orderly(old(z.pool), d.name.path, cds.name.path, SnapOrder(SnapKids(d.kids))))
  {
    hide Reflects, History, SnapExists, Resolved, NewName, Shaped, SnapKids, SnapNames, Orderly, OrderlyTo, Settled;
    hide Freed;
    hide SavedAll, SnapOrder, Clash, OnlyNames;
    OnlyNamesNow(z.pool);
    HandlesAllocated(d);
    SnapNamesNone();
    var snaps := Snapshots(d);
    ghost var p := z.pool;
    ghost var good := Facing(p, d, cds);
    ghost var x, c := d.name.path, cds.name.path;
    psnaps, ok, done := [], true, {};
    SnapKidsAre(d.kids);
    ResolvedNone(p, x, c);
    NothingDone(p, x, c, SnapOrder(snaps));
    for i := 0 to |snaps|
      invariant z.Valid() && old(z.trace) <= z.trace && OnlyNames(p, z.pool) && ok
      invariant old(z.Steady()) ==> z.Steady()
      invariant old(z.Calm()) ==> z.Calm()
      invariant good ==> z.pool == Resolved(p, x, c, done) && Settled(p, x, c, done)
      invariant good ==> |psnaps| == i && Saved(p, x, c, snaps, psnaps) && done == SnapNames(snaps[..i])
      invariant OrderlyTo(p, x, c, SnapOrder(snaps), if good then i else 0)
      invariant good && i == |snaps| ==> Orderly(p, x, c, SnapOrder(snaps))
    {
      var s := snaps[i];
      SnapKidIs(d, i);
      UsableKid(d, s);
      if good {
        SnapKidExists(p, d, s);
        OrderlyStep(p, x, c, snaps, i, done);
      }
      var sname;
      ghost var q := z.pool;
      sname, ok := ResolveOne(z, s, cds, good, p, done);
      OnlyNamesThen(p, q, z.pool);
      if !ok {
        return;
      }
      psnaps := psnaps + [sname];
      done := done + {s.name.snap};
      SnapNamesSnoc(snaps, i);
    }
    assert snaps[..|snaps|] == snaps;
    if good {
      SavedIsAll(p, d, c, psnaps);
    }
  }

  lemma NothingDone(p: Pool, x: Path, c: Path, order: seq<string>)
    requires x != []
    ensures Settled(p, x, c, {}) && OrderlyTo(p, x, c, order, 0)
    ensures order == [] ==> Orderly(p, x, c, order)
  {
  }

  /** The saved list is exactly the new names of the dataset's snapshots. */
  ghost predicate SavedAll(p: Pool, x: Path, c: Path, psnaps: seq<string>)
    requires x != []
  {
    && (forall n | n in psnaps :: exists m :: SnapExists(p, x, m) && n == NewName(p, x, c, m))
    && (forall m | SnapExists(p, x, m) :: NewName(p, x, c, m) in psnaps)
  }

  lemma SnapInKids(p: Pool, d: Dataset, m: string) returns (i: nat)
    requires Reflects(p, d) && d.name.Fs? && SnapExists(p, d.name.path, m)
    ensures i < |SnapKids(d.kids)| && SnapKids(d.kids)[i].name == Snap(d.name.path, m)
  {
    hide Cached;
    FindsSnapshots(p, d, d.name.path, m);
    FirstSnapFinds(d.kids, Snap(d.name.path, m));
    var k :| k in d.kids && k.name == Snap(d.name.path, m);
    SnapKidsAre(d.kids);
    i :| 0 <= i < |SnapKids(d.kids)| && SnapKids(d.kids)[i] == k;
  }

  lemma SavedIsAll(p: Pool, d: Dataset, c: Path, psnaps: seq<string>)
    requires Reflects(p, d) && d.name.Fs? && d.name.path != []
    requires |psnaps| == |SnapKids(d.kids)| && Saved(p, d.name.path, c, SnapKids(d.kids), psnaps)
    ensures SavedAll(p, d.name.path, c, psnaps)
  {
    hide Reflects, SnapExists, NewName, SnapKids;
    var x, snaps := d.name.path, SnapKids(d.kids);
    ReflectsIsShaped(p, d);
    forall n | n in psnaps
      ensures exists m :: SnapExists(p, x, m) && n == NewName(p, x, c, m)
    {
      var i :| 0 <= i < |psnaps| && psnaps[i] == n;
      SnapKidIs(d, i);
      SnapKidExists(p, d, snaps[i]);
    }
    forall m | SnapExists(p, x, m)
      ensures NewName(p, x, c, m) in psnaps
    {
      var i := SnapInKids(p, d, m);
      assert psnaps[i] == NewName(p, x, c, m);
    }
  }

  lemma SnapsHaveNames(p: Pool, x: Path)
    ensures forall g | g in p.snaps && p.snaps[g].owner == x :: SnapExists(p, x, p.snaps[g].name)
  {
    forall g | g in p.snaps && p.snaps[g].owner == x
      ensures SnapExists(p, x, p.snaps[g].name)
    {
      assert IsSnap(p, x, p.snaps[g].name, g);
    }
  }

  /** The chosen clone can take over from a truly cached dataset. */
  ghost predicate Ready(p: Pool, d: Dataset, head: Name) {
    d.name.Fs? && head.Fs? && d.name.path != [] && Reflects(p, d) && IsClone(p, head.path, d.name.path)
  }

  lemma ReadyFacing(p: Pool, d: Dataset, cds: Dataset)
    requires Ready(p, d, cds.name) && Reflects(p, cds)
    ensures Facing(p, d, cds)
  {
  }

  lemma ReadyHandsOver(p: Pool, d: Dataset, c: Path, q: Pool)
    requires WF(p) && Ready(p, d, Fs(c)) && AllNames(p, d.name.path, SnapNames(SnapKids(d.kids)))
    requires q == Resolved(p, d.name.path, c, SnapNames(SnapKids(d.kids)))
    ensures Promotable(q, c) <==> Movable(p, d.name.path, c)
    ensures Promotable(q, c) ==> HandedOver(p, Promote(q, c), d.name.path, c)
  {
    hide WF, Reflects, SnapKids, SnapNames, Resolved, AllNames, Promotable, Movable, HandedOver;
    ResolvedPromotes(p, d.name.path, c, SnapNames(SnapKids(d.kids)));
    if Promotable(q, c) {
      PromotedIsHandedOver(p, d.name.path, c, SnapNames(SnapKids(d.kids)));
    }
  }

  lemma CachedAllNames(p: Pool, d: Dataset)
    requires Reflects(p, d) && d.name.Fs?
    ensures AllNames(p, d.name.path, SnapNames(SnapKids(d.kids)))
  {
    hide Reflects, SnapExists, SnapKids;
    SnapsHaveNames(p, d.name.path);
    forall m | SnapExists(p, d.name.path, m)
      ensures m in SnapNames(SnapKids(d.kids))
    {
      var i := SnapInKids(p, d, m);
      assert SnapKids(d.kids)[i] in SnapKids(d.kids);
    }
  }

  /** From `p` to `q`, the conflict loop was through with some of the first cached snapshots of `d`, and
      nothing else happened. */
  ghost predicate PartlyResolved(p: Pool, q: Pool, d: Dataset, c: Path)
    requires d.name.path != []
  {
    exists n: nat | n <= |SnapKids(d.kids)| ::
      q == Resolved(p, d.name.path, c, SnapNames(SnapKids(d.kids)[..n]))
  }

  lemma PartlyIs(p: Pool, q: Pool, d: Dataset, c: Path, n: nat)
    requires d.name.path != [] && n <= |SnapKids(d.kids)|
    requires q == Resolved(p, d.name.path, c, SnapNames(SnapKids(d.kids)[..n]))
    ensures PartlyResolved(p, q, d, c)
  {
  }

  lemma NoneResolved(p: Pool, d: Dataset, c: Path)
    requires d.name.path != []
    ensures PartlyResolved(p, p, d, c)
  {
    hide Resolved;
    ResolvedNone(p, d.name.path, c);
    SnapNamesNone();
    assert SnapKids(d.kids)[..0] == [];
    PartlyIs(p, p, d, c, 0);
  }

  /** The cached order and the names allow the clone to take over. */
  ghost predicate CanTakeOver(p: Pool, d: Dataset, c: Path)
    requires d.name.path != []
  {
    Orderly(p, d.name.path, c, SnapOrder(SnapKids(d.kids))) && Movable(p, d.name.path, c)
  }

  /** Resolves the conflicts with the opened clone and promotes it. */
  method ResolveAndPromote(z: Zfs, d: Dataset, cds: Dataset) returns (psnaps: seq<string>, ok: bool)
    requires z.Valid() && Usable(d) && Shaped(d) && d.name.path != [] && Opened(cds)
    modifies z
    ensures z.Valid() && old(z.trace) <= z.trace && z.pool.fs.Keys == old(z.pool).fs.Keys
    ensures old(z.Steady()) ==> z.Steady()
    ensures old(z.Calm()) ==> z.Calm()
    ensures !ok ==> OnlyNames(old(z.pool), z.pool)
    ensures Ready(old(z.pool), d, cds.name) && Reflects(old(z.pool), cds) && ok ==>
      && HandedOver(old(z.pool), z.pool, d.name.path, cds.name.path)
      && SavedAll(old(z.pool), d.name.path, cds.name.path, psnaps)
      && CanTakeOver(old(z.pool), d, cds.name.path)
    ensures Ready(old(z.pool), d, cds.name) && Reflects(old(z.pool), cds) && !ok ==>
      PartlyResolved(old(z.pool), z.pool, d, cds.name.path)
    ensures old(z.Calm()) && Ready(old(z.pool), d, cds.name) && Reflects(old(z.pool), cds) ==>
      (ok <==> CanTakeOver(old(z.pool), d, cds.name.path))
  {
    hide WF, Reflects, History, Resolved, Usable, Shaped, SavedAll, HandedOver, Facing, Saved, SnapKids, SnapNames;
    hide SnapOrder, Opened, Unshared, IsClone, PartlyResolved, OnlyNames, Promotable, Pools.Promote, Exists, Orderly;
    hide Movable, AllNames;
    z.PoolIsWF();
    ghost var p := z.pool;
    ghost var good := Ready(p, d, cds.name) && Reflects(p, cds);
    HandlesAllocated(cds);
    if good {
      ReadyFacing(p, d, cds);
      CachedAllNames(p, d);
    }
    ghost var done;
    psnaps, ok, done := ResolveConflicts(z, d, cds);
    OnlyNamesKeys(p, z.pool);
    if good {
      PartlyIs(p, z.pool, d, cds.name.path, |psnaps|);
    }
    if ok {
      if good {
        ReadyHandsOver(p, d, cds.name.path, z.pool);
      }
      HandleName(cds);
      PromoteKeepsFs(z.pool, cds.name);
      ok := z.Promote(cds.list.zh.value);
    }
  }

  lemma PartlyFrame(p: Pool, q: Pool, d: Dataset, c: Path)
    requires d.name.path != [] && PartlyResolved(p, q, d, c)
    ensures Frame({d.name.path}, {}, p, q)
  {
    hide Frame, Resolved;
    var n :| 0 <= n <= |SnapKids(d.kids)| && q == Resolved(p, d.name.path, c, SnapNames(SnapKids(d.kids)[..n]));
    ResolvedFrame(p, d.name.path, c, SnapNames(SnapKids(d.kids)[..n]));
  }

  /** Opens the chosen clone, resolves the conflicts and promotes it. */
  method TakeOver(z: Zfs, d: Dataset, head: Name) returns (psnaps: seq<string>, ok: bool)
    requires z.Valid() && Usable(d) && Shaped(d) && d.name.path != []
    modifies z
    ensures z.Valid() && old(z.trace) <= z.trace && z.pool.fs.Keys == old(z.pool).fs.Keys
    ensures old(z.Steady()) ==> z.Steady()
    ensures old(z.Calm()) ==> z.Calm()
    ensures !ok ==> OnlyNames(old(z.pool), z.pool)
    ensures old(z.Steady()) && Ready(old(z.pool), d, head) && ok ==>
      && HandedOver(old(z.pool), z.pool, d.name.path, head.path)
      && SavedAll(old(z.pool), d.name.path, head.path, psnaps)
      && CanTakeOver(old(z.pool), d, head.path)
    ensures old(z.Steady()) && Ready(old(z.pool), d, head) && !ok ==>
      && PartlyResolved(old(z.pool), z.pool, d, head.path)
      && Frame({d.name.path}, {}, old(z.pool), z.pool)
    ensures old(z.Calm()) && Ready(old(z.pool), d, head) ==> (ok <==> CanTakeOver(old(z.pool), d, head.path))
  {
    hide WF, Reflects, History, Usable, Shaped, SavedAll, HandedOver, Frame, Opened, Unshared, IsClone, PartlyResolved;
    hide OnlyNames, Exists, CanTakeOver;
    OnlyNamesNow(z.pool);
    z.CalmIsSteady();
    ghost var p := z.pool;
    ghost var good := z.Steady() && Ready(p, d, head);
    HandlesAllocated(d);
    NoneResolved(p, d, head.path);
    PartlyFrame(p, p, d, head.path);
    if good {
      CloneFsExists(p, head.path, d.name.path);
    }
    psnaps := [];
    var cds;
    cds, ok := DatasetOpen(z, head);
    if !ok {
      return;
    }
    HandlesAllocated(cds);
    psnaps, ok := ResolveAndPromote(z, d, cds);
    if good && !ok {
      PartlyFrame(p, z.pool, d, head.path);
    }
    cds := CloseTree(cds);
  }

  lemma CloneFsExists(p: Pool, c: Path, x: Path)
    requires IsClone(p, c, x)
    ensures Exists(p, Fs(c))
  {
  }

  lemma HandleName(d: Dataset)
    requires Opened(d)
    ensures d.list != null && d.list.zh == Some(d.name)
  {
  }

  lemma PromoteKeepsFs(p: Pool, n: Name)
    ensures n.Fs? && Promotable(p, n.path) ==> Promote(p, n.path).fs.Keys == p.fs.Keys
  {
  }
}
