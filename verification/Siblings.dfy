/** Working on some doomed datasets leaves the others as they were: the facts the next call in a
    recursion relies on still hold. */
module Siblings {
  import opened Pools
  import opened Frames
  import opened Handles
  import opened Trees
  import opened Promotion

  /** `a` has been worked on, `b` is next; both are doomed. */
  ghost predicate Next(a: set<Path>, pr: set<Path>, b: set<Path>, t: set<Path>, p: Pool, q: Pool) {
    && OriginsExist(p) && OriginsExist(q)
    && Frame(a, pr, p, q) && NoInternal(p, t) && a + b <= t && Apart(a, b, q)
  }

  lemma NotPromoted(a: set<Path>, pr: set<Path>, b: set<Path>, t: set<Path>, p: Pool, q: Pool, o: Path)
    requires Next(a, pr, b, t, p, q)
    requires o in b || (Base(p, o).Some? && Base(p, o).value in b)
    ensures o !in a && o !in pr
  {
    hide OriginsExist;
  }

  lemma ClonesSame(a: set<Path>, pr: set<Path>, b: set<Path>, t: set<Path>, p: Pool, q: Pool, f: Path)
    requires Next(a, pr, b, t, p, q)
    ensures Base(q, f).Some? && Base(q, f).value in b ==> Base(p, f) == Base(q, f) && Origin(p, f) == Origin(q, f)
    ensures Base(p, f).Some? && Base(p, f).value in b ==> Base(p, f) == Base(q, f) && Origin(p, f) == Origin(q, f)
  {
    if Base(q, f).Some? && Base(q, f).value in b {
      BaseAfter(a, pr, p, q, t, f);
    }
    if Base(p, f).Some? && Base(p, f).value in b {
      NotPromoted(a, pr, b, t, p, q, f);
      BaseKept(a, pr, p, q, f);
    }
  }

  /** The snapshots of an unworked doomed dataset, and of its clones, are the same. */
  lemma SnapsSame(a: set<Path>, pr: set<Path>, b: set<Path>, t: set<Path>, p: Pool, q: Pool, o: Path)
    requires Next(a, pr, b, t, p, q)
    requires o in b || (Base(p, o).Some? && Base(p, o).value in b)
    ensures forall g | g in p.snaps && p.snaps[g].owner == o :: g in q.snaps && q.snaps[g] == p.snaps[g]
    ensures forall g | g in q.snaps && q.snaps[g].owner == o :: g in p.snaps && q.snaps[g] == p.snaps[g]
  {
    hide OriginsExist;
    NotPromoted(a, pr, b, t, p, q, o);
    HeldExactly(a, pr, p, q, o);
  }

  lemma SnapExistsSame(a: set<Path>, pr: set<Path>, b: set<Path>, t: set<Path>, p: Pool, q: Pool, o: Path, n: string)
    requires Next(a, pr, b, t, p, q)
    requires o in b || (Base(p, o).Some? && Base(p, o).value in b)
    ensures SnapExists(q, o, n) <==> SnapExists(p, o, n)
  {
    SnapsSame(a, pr, b, t, p, q, o);
    hide Next, Base;
    if SnapExists(p, o, n) {
      var g :| g in p.snaps && IsSnap(p, o, n, g);
      assert IsSnap(q, o, n, g);
    }
    if SnapExists(q, o, n) {
      var g :| g in q.snaps && IsSnap(q, o, n, g);
      assert IsSnap(p, o, n, g);
    }
  }

  lemma AgesSame(a: set<Path>, pr: set<Path>, b: set<Path>, t: set<Path>, p: Pool, q: Pool, f: Path)
    requires Next(a, pr, b, t, p, q) && Base(p, f).Some? && Base(p, f).value in b
    ensures f in p.fs && f in q.fs && q.fs[f].txg == p.fs[f].txg && OriginTxg(q, f) == OriginTxg(p, f)
  {
    ClonesSame(a, pr, b, t, p, q, f);
    NotPromoted(a, pr, b, t, p, q, f);
    assert Survives(pr, p, q, f);
  }

  lemma TopSame(a: set<Path>, pr: set<Path>, b: set<Path>, t: set<Path>, p: Pool, q: Pool, e: Path, c: Path)
    requires Next(a, pr, b, t, p, q) && e in b
    ensures IsTop(q, e, c) <==> IsTop(p, e, c)
  {
    hide Next, OriginTxg, Base;
    forall f
      ensures IsClone(q, f, e) <==> IsClone(p, f, e)
      ensures IsClone(p, f, e) ==>
        f in p.fs && f in q.fs && q.fs[f].txg == p.fs[f].txg && OriginTxg(q, f) == OriginTxg(p, f)
    {
      ClonesSame(a, pr, b, t, p, q, f);
      if IsClone(p, f, e) {
        AgesSame(a, pr, b, t, p, q, f);
      }
    }
  }

  lemma PassableSame(a: set<Path>, pr: set<Path>, b: set<Path>, t: set<Path>, p: Pool, q: Pool, ord: Orders)
    requires Next(a, pr, b, t, p, q)
    ensures Passable(q, b, ord) <==> Passable(p, b, ord)
  {
    hide Next, OriginTxg, Base, Passes;
    forall e, c | e in b && e != []
      ensures IsTop(q, e, c) <==> IsTop(p, e, c)
      ensures IsTop(p, e, c) ==> (Passes(q, e, c, OrderOf(ord, e)) <==> Passes(p, e, c, OrderOf(ord, e)))
    {
      TopSame(a, pr, b, t, p, q, e, c);
      if IsTop(p, e, c) {
        PassesSame(a, pr, b, t, p, q, e, c, OrderOf(ord, e));
      }
    }
  }

  lemma PassesSame(a: set<Path>, pr: set<Path>, b: set<Path>, t: set<Path>, p: Pool, q: Pool, e: Path, c: Path,
                   order: seq<string>)
    requires Next(a, pr, b, t, p, q) && e in b && e != [] && IsClone(p, c, e)
    ensures Passes(q, e, c, order) <==> Passes(p, e, c, order)
  {
    hide Next, OriginTxg, SnapExists, Suffixed, Base;
    AgesSame(a, pr, b, t, p, q, c);
    SnapsSame(a, pr, b, t, p, q, e);
    forall n
      ensures SnapExists(q, c, n) <==> SnapExists(p, c, n)
      ensures SnapExists(q, e, n) <==> SnapExists(p, e, n)
    {
      SnapExistsSame(a, pr, b, t, p, q, c, n);
      SnapExistsSame(a, pr, b, t, p, q, e, n);
    }
    assert Orderly(q, e, c, order) <==> Orderly(p, e, c, order);
  }

  /** What lies below a doomed dataset is doomed. */
  ghost predicate Closed(p: Pool, t: set<Path>) {
    forall f, n | f in p.fs && 0 <= n <= |f| && f[..n] in t :: f in t
  }

  lemma InternalSame(a: set<Path>, pr: set<Path>, b: set<Path>, t: set<Path>, p: Pool, q: Pool)
    requires Next(a, pr, b, t, p, q)
    ensures NoInternal(q, b)
  {
    forall f | f in b
      ensures Base(q, f).None? || Base(q, f).value !in b
    {
      ClonesSame(a, pr, b, t, p, q, f);
    }
  }

  /** Whatever has its turn before a dataset of `b` was worked on or is in `b` itself. */
  ghost predicate InTurn(ord: Orders, a: set<Path>, b: set<Path>, t: set<Path>) {
    forall h, e | h in t && e in b && TurnBefore(ord, h, e) :: h in a + b
  }

  lemma ClearSame(a: set<Path>, pr: set<Path>, b: set<Path>, t: set<Path>, p: Pool, q: Pool, e: Path, r: Path)
    requires Next(a, pr, b, t, p, q) && e in b && r !in a
    requires Base(p, r).None? || IsClone(p, r, e)
    ensures Base(q, r).None? || IsClone(q, r, e)
  {
    ClonesSame(a, pr, b, t, p, q, r);
    if Base(p, r).None? && r in p.fs {
      assert Survives(pr, p, q, r);
    }
  }

  /** The only youngest clone of a worked dataset was promoted over it. */
  lemma TopWasPromoted(p: Pool, a: set<Path>, pr: set<Path>, h: Path, r: Path)
    requires Chosen(p, a, pr) && h in a && OnlyTop(p, h, r)
    ensures r in pr && Base(p, r) == Some(h)
  {
    hide NotYounger, Base;
    assert HasPromoted(p, h, pr);
    var c :| c in pr && IsClone(p, c, h);
    assert IsTop(p, h, c);
  }

  lemma PromotedIsFree(a: set<Path>, pr: set<Path>, b: set<Path>, t: set<Path>, p: Pool, q: Pool, h: Path, r: Path)
    requires Next(a, pr, b, t, p, q) && r in pr && Base(p, r) == Some(h) && Origin(p, h).None?
    ensures Base(q, r).None?
  {
    assert Survives(pr, p, q, r);
  }

  /** What was released by a worked dataset is no clone any more; the others still release theirs. */
  lemma ReleasedSame(a: set<Path>, pr: set<Path>, b: set<Path>, t: set<Path>, p: Pool, q: Pool, ord: Orders, e: Path,
                     r: Path)
    requires Next(a, pr, b, t, p, q) && Chosen(p, a, pr) && InTurn(ord, a, b, t) && e in b
    requires Released(p, t, ord, e, r)
    ensures Base(q, r).None? || Released(q, b, ord, e, r)
  {
    hide Next, TurnBefore, Chosen, IsTop;
    var h :| h in t && TurnBefore(ord, h, e) && OnlyTop(p, h, r) && Origin(p, h).None?;
    if h in a {
      TopWasPromoted(p, a, pr, h, r);
      PromotedIsFree(a, pr, b, t, p, q, h, r);
    } else {
      assert h in b;
      forall c
        ensures IsTop(q, h, c) <==> IsTop(p, h, c)
      {
        TopSame(a, pr, b, t, p, q, h, c);
      }
      UnworkedIsFree(a, pr, b, t, p, q, h);
    }
  }

  lemma UnworkedIsFree(a: set<Path>, pr: set<Path>, b: set<Path>, t: set<Path>, p: Pool, q: Pool, h: Path)
    requires Next(a, pr, b, t, p, q) && h in b && Origin(p, h).None?
    ensures Origin(q, h).None?
  {
    NotPromoted(a, pr, b, t, p, q, h);
    if h in p.fs {
      assert Survives(pr, p, q, h);
    }
  }

  lemma ReachedSame(a: set<Path>, pr: set<Path>, b: set<Path>, t: set<Path>, p: Pool, q: Pool, ord: Orders, e: Path,
                    c: Path)
    requires Next(a, pr, b, t, p, q) && Chosen(p, a, pr) && InTurn(ord, a, b, t) && e in b
    requires Reached(p, t, ord, e, c) && forall n | 0 <= n <= |c| :: c[..n] !in t
    ensures Reached(q, b, ord, e, c)
  {
    hide Base, Released, Chosen, InTurn;
    forall n | 1 < n < |c|
      ensures Base(q, c[..n]).None? || IsClone(q, c[..n], e) || Released(q, b, ord, e, c[..n])
    {
      var r := c[..n];
      if Released(p, t, ord, e, r) {
        ReleasedSame(a, pr, b, t, p, q, ord, e, r);
      } else {
        assert r !in t;
        ClearSame(a, pr, b, t, p, q, e, r);
      }
    }
  }

  /** The youngest clones of what is left are found too, given what was promoted so far. */
  lemma TopsReachedSame(a: set<Path>, pr: set<Path>, b: set<Path>, t: set<Path>, p: Pool, q: Pool, ord: Orders)
    requires Next(a, pr, b, t, p, q) && Closed(p, t) && Chosen(p, a, pr) && InTurn(ord, a, b, t)
    requires TopsReached(p, t, ord)
    ensures TopsReached(q, b, ord)
  {
    hide Base, IsTop, Reached, Chosen, InTurn;
    forall e, f | e in b && IsClone(q, f, e)
      ensures TopReached(q, b, ord, e)
    {
      ClonesSame(a, pr, b, t, p, q, f);
      assert e in t && IsClone(p, f, e);
      assert TopReached(p, t, ord, e);
      var c :| IsTop(p, e, c) && Reached(p, t, ord, e, c);
      TopOutside(p, t, e, c);
      ReachedSame(a, pr, b, t, p, q, ord, e, c);
      TopSame(a, pr, b, t, p, q, e, c);
    }
  }

  lemma TopOutside(p: Pool, t: set<Path>, e: Path, c: Path)
    requires NoInternal(p, t) && Closed(p, t) && e in t && IsTop(p, e, c)
    ensures forall n | 0 <= n <= |c| :: c[..n] !in t
  {
    assert c !in t;
  }

  lemma PreparedSame(a: set<Path>, pr: set<Path>, b: set<Path>, t: set<Path>, p: Pool, q: Pool, ord: Orders)
    requires Next(a, pr, b, t, p, q) && Closed(p, t) && Prepared(p, t, ord)
    requires Chosen(p, a, pr) && InTurn(ord, a, b, t)
    ensures Prepared(q, b, ord)
  {
    hide Next, Chosen, InTurn, TopsReached;
    InternalSame(a, pr, b, t, p, q);
    TopsReachedSame(a, pr, b, t, p, q, ord);
  }

  // ----- cached trees stay true -----

  /** A dataset of `b` and the name its origin is read as. */
  lemma RecordSame(a: set<Path>, pr: set<Path>, b: set<Path>, t: set<Path>, p: Pool, q: Pool, y: Path)
    requires Next(a, pr, b, t, p, q) && y in b && y in p.fs
    ensures y in q.fs && q.fs[y].txg == p.fs[y].txg && OriginName(q, y) == OriginName(p, y)
  {
    NotPromoted(a, pr, b, t, p, q, y);
    assert Survives(pr, p, q, y);
    assert Base(p, y).None? || Base(p, y).value !in t;
  }

  lemma CachedSame(a: set<Path>, pr: set<Path>, b: set<Path>, t: set<Path>, p: Pool, q: Pool, d: Dataset)
    requires Next(a, pr, b, t, p, q) && Cached(p, d) && d.name.path in b
    ensures Cached(q, d)
  {
    hide Next, OriginName, SnapExists;
    match d.name
    case Fs(y) => RecordSame(a, pr, b, t, p, q, y);
    case Snap(y, n) =>
      SnapExistsSame(a, pr, b, t, p, q, y, n);
      SnapsSame(a, pr, b, t, p, q, y);
  }

  lemma ChildrenSame(a: set<Path>, pr: set<Path>, b: set<Path>, t: set<Path>, p: Pool, q: Pool, y: Path)
    requires Next(a, pr, b, t, p, q) && y in b
    requires forall f | f in p.fs && y <= f :: f in b
    ensures ChildNames(q, Fs(y)) == ChildNames(p, Fs(y))
  {
    SnapsSame(a, pr, b, t, p, q, y);
    forall f | f in p.fs && y <= f
      ensures f in q.fs
    {
      RecordSame(a, pr, b, t, p, q, f);
    }
    var q1 := set f | f in q.fs && |f| == |y| + 1 && y < f :: Fs(f);
    var p1 := set f | f in p.fs && |f| == |y| + 1 && y < f :: Fs(f);
    assert q1 == p1;
    var q2 := set g | g in q.snaps && q.snaps[g].owner == y :: Snap(y, q.snaps[g].name);
    var p2 := set g | g in p.snaps && p.snaps[g].owner == y :: Snap(y, p.snaps[g].name);
    assert q2 == p2;
  }

  lemma SnapIsLeaf(p: Pool, q: Pool, n: Name)
    requires n.Snap?
    ensures ChildNames(q, n) == ChildNames(p, n)
  {
  }

  lemma {:induction false} ReflectsSame(a: set<Path>, pr: set<Path>, b: set<Path>, t: set<Path>, p: Pool, q: Pool,
                                        d: Dataset)
    requires Next(a, pr, b, t, p, q) && Reflects(p, d) && d.name.path in b
    requires forall f | f in p.fs && d.name.path <= f :: f in b
    ensures Reflects(q, d)
    decreases d
  {
    hide Next, Cached, ChildNames;
    CachedSame(a, pr, b, t, p, q, d);
    if d.name.Fs? {
      ChildrenSame(a, pr, b, t, p, q, d.name.path);
    } else {
      SnapIsLeaf(p, q, d.name);
    }
    forall k | k in d.kids
      ensures Reflects(q, k)
    {
      KidName(p, d, k);
      ReflectsSame(a, pr, b, t, p, q, k);
    }
  }

  lemma KidName(p: Pool, d: Dataset, k: Dataset)
    requires Reflects(p, d) && k in d.kids
    ensures Reflects(p, k) && Exists(p, k.name) && ChildName(d.name, k.name) && d.name.path <= k.name.path
    ensures k.name.Fs? ==> k.name.path in p.fs
  {
    assert k.name in KidNames(d.kids);
  }
}
