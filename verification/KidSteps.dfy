/** The children of a doomed dataset, one at a time: what holds before and after each of them. */
module KidSteps {
  import opened Pools
  import opened Frames
  import opened Handles
  import opened Trees
  import opened Opening
  import opened CloneSearch
  import opened CloneLists
  import opened Promotion
  import opened CachedOrders
  import opened Siblings
  import opened Removal

  /** A dataset that may be destroyed this way: truly cached, in these orders, its subtree prepared. */
  ghost predicate Good(p: Pool, d: Dataset, ord: Orders) {
    && d.name.Fs? && d.name.path != [] && WF(p) && Reflects(p, d) && Ordered(d, ord)
    && Prepared(p, Sub(p, d.name.path), ord)
  }

  /** At most as many datasets and snapshots below the pool's root as the channel holds. */
  ghost predicate Small(p: Pool) {
    |p.fs| + |p.snaps| <= QUEUE_CAP + 1
  }

  /** No two datasets were created in the same txg, so the youngest clone is unique. */
  ghost predicate Aged(p: Pool) {
    forall f, h | f in p.fs && h in p.fs && p.fs[f].txg == p.fs[h].txg :: f == h
  }

  /** What the call does whatever its outcome, and what it achieves when it succeeds. */
  ghost predicate Outcomes(p: Pool, q: Pool, x: Path, pr: set<Path>, ok: bool) {
    && Frame(Sub(p, x), pr, p, q)
    && (ok ==> Gone(q, Sub(p, x)) && Chosen(p, Sub(p, x), pr))
  }

  /** The datasets worked on once the children `ks` are done. */
  ghost function Covered(p: Pool, x: Path, ks: seq<Dataset>): set<Path> {
    if ks == [] then {x}
    else
      var n := |ks| - 1;
      Covered(p, x, ks[..n]) + (if ks[n].name.Fs? then Sub(p, ks[n].name.path) else {})
  }

  lemma {:induction false} CoveredIs(p: Pool, x: Path, ks: seq<Dataset>)
    requires x in p.fs && forall k | k in ks :: ChildName(Fs(x), k.name)
    ensures forall f | f in Covered(p, x, ks) :: f == x || exists k | k in ks :: k.name.Fs? && f in Sub(p, k.name.path)
    ensures forall k, f | k in ks && k.name.Fs? && f in Sub(p, k.name.path) :: f in Covered(p, x, ks)
    ensures x in Covered(p, x, ks) && Covered(p, x, ks) <= Sub(p, x)
    decreases |ks|
  {
    if ks != [] {
      var n := |ks| - 1;
      assert ks == ks[..n] + [ks[n]];
      assert ks[n] in ks;
      CoveredIs(p, x, ks[..n]);
    }
  }

  /** Different children have disjoint subtrees. */
  lemma CoveredApart(p: Pool, x: Path, ks: seq<Dataset>, i: nat)
    requires x in p.fs && Distinct(ks) && i < |ks| && ks[i].name.Fs?
    requires forall k | k in ks :: ChildName(Fs(x), k.name)
    ensures Covered(p, x, ks[..i]) !! Sub(p, ks[i].name.path) && Sub(p, ks[i].name.path) <= Sub(p, x)
  {
    hide Covered;
    var y := ks[i].name.path;
    assert ks[i] in ks;
    CoveredIs(p, x, ks[..i]);
    forall f | f in Covered(p, x, ks[..i])
      ensures f !in Sub(p, y)
    {
      if f != x {
        var k :| k in ks[..i] && k.name.Fs? && f in Sub(p, k.name.path);
        assert k in ks;
        var j :| 0 <= j < i && ks[j] == k;
        assert ks[j].name != ks[i].name;
        assert k.name.path == f[..|x| + 1];
      }
    }
  }

  /** With all children done, the whole subtree was worked on. */
  lemma CoveredAll(p: Pool, x: Path, d: Dataset)
    requires WF(p) && Reflects(p, d) && d.name == Fs(x) && x in p.fs
    ensures Covered(p, x, d.kids) == Sub(p, x)
  {
    hide WF, Cached, Covered, Shaped, ListsChildren;
    ReflectsIsShaped(p, d);
    KidsAreChildren(d);
    CoveredIs(p, x, d.kids);
    WFRooted(p);
    forall f | f in Sub(p, x) && f != x
      ensures f in Covered(p, x, d.kids)
    {
      var k := KidAbove(p, x, d, f);
    }
  }

  /** Every dataset strictly below lies in the subtree of a cached child. */
  lemma KidAbove(p: Pool, x: Path, d: Dataset, f: Path) returns (k: Dataset)
    requires Rooted(p) && ListsChildren(p, d) && d.name == Fs(x) && x in p.fs && f in Sub(p, x) && f != x
    ensures k in d.kids && k.name.Fs? && f in Sub(p, k.name.path)
  {
    PrefixExists(p, f, |x| + 1);
    var y := f[..|x| + 1];
    assert Fs(y) in ChildNames(p, Fs(x));
    assert Fs(y) in KidNames(d.kids);
    k :| k in d.kids && k.name == Fs(y);
    assert f in Sub(p, y);
  }

  lemma SmallerPool(a: set<Path>, pr: set<Path>, p: Pool, q: Pool)
    requires Frame(a, pr, p, q) && Small(p)
    ensures Small(q)
  {
    assert q.fs.Keys <= p.fs.Keys && q.snaps.Keys <= p.snaps.Keys;
    SubsetSize(q.fs.Keys, p.fs.Keys);
    SubsetSize(q.snaps.Keys, p.snaps.Keys);
    assert |q.fs| == |q.fs.Keys| && |p.fs| == |p.fs.Keys| && |q.snaps| == |q.snaps.Keys| && |p.snaps| == |p.snaps.Keys|;
  }

  lemma SubtreeClosed(p: Pool, x: Path)
    ensures Closed(p, Sub(p, x))
  {
    forall f, n | f in p.fs && 0 <= n <= |f| && f[..n] in Sub(p, x)
      ensures f in Sub(p, x)
    {
      assert f[..|x|] == f[..n][..|x|];
    }
  }

  /** Promoted clones are not doomed themselves. */
  lemma PromotedOutside(p: Pool, q: Pool, t: set<Path>, a: set<Path>, pr: set<Path>)
    requires Frame(a, pr, p, q) && NoInternal(p, t) && a <= t
    ensures t !! pr
  {
    forall f | f in pr
      ensures f !in t
    {
      assert Base(p, f).value in t;
    }
  }

  /** The subtree of an unworked child is as it was. */
  lemma SubSame(a: set<Path>, pr: set<Path>, t: set<Path>, p: Pool, q: Pool, y: Path)
    requires Next(a, pr, Sub(p, y), t, p, q)
    ensures Sub(q, y) == Sub(p, y)
  {
    hide OriginsExist;
    forall f | f in Sub(p, y)
      ensures f in q.fs
    {
      assert Survives(pr, p, q, f);
    }
  }

  lemma ProgressChosen(p: Pool, r: Pool, q: Pool, x: Path, t: set<Path>, a: set<Path>, pr: set<Path>)
    requires Progress(p, r, q, x, t, a, pr)
    ensures Chosen(p, a, pr)
  {
    hide Frame, Chosen, OwnSame, OutsideSame;
  }

  /** What has its turn before the child's subtree belongs to an earlier child, or is `x`. */
  lemma KidInTurn(p: Pool, d: Dataset, i: nat, ord: Orders)
    requires Rooted(p) && Reflects(p, d) && Shaped(d) && d.name.Fs? && d.name.path in p.fs && Ordered(d, ord)
    requires i < |d.kids| && d.kids[i].name.Fs?
    ensures InTurn(ord, Covered(p, d.name.path, d.kids[..i]), Sub(p, d.kids[i].name.path), Sub(p, d.name.path))
  {
    hide Cached, Covered, Shaped, ListsChildren, TurnBefore;
    var x, y := d.name.path, d.kids[i].name.path;
    KidsAreChildren(d);
    CoveredIs(p, x, d.kids[..i]);
    forall h, e | h in Sub(p, x) && e in Sub(p, y) && TurnBefore(ord, h, e)
      ensures h in Covered(p, x, d.kids[..i]) + Sub(p, y)
    {
      if h != x {
        var k := KidAbove(p, x, d, h);
        var j :| 0 <= j < |d.kids| && d.kids[j] == k;
        if j < i {
          assert d.kids[..i][j] == k;
        } else if j > i {
          LaterHasNoTurn(d, i, j, ord, h, e);
          assert false;
        }
      }
    }
  }

  lemma LaterHasNoTurn(d: Dataset, i: nat, j: nat, ord: Orders, h: Path, e: Path)
    requires d.name.Fs? && Distinct(d.kids) && d.name.path in ord && ord[d.name.path] == KidOrder(d.kids)
    requires i < j < |d.kids| && d.kids[i].name.Fs? && d.kids[j].name.Fs?
    requires ChildName(d.name, d.kids[i].name) && ChildName(d.name, d.kids[j].name)
    requires d.kids[i].name.path <= e && d.kids[j].name.path <= h
    ensures !TurnBefore(ord, h, e)
  {
    var l := |d.name.path|;
    assert d.kids[i].name.path == e[..l + 1] && d.kids[j].name.path == h[..l + 1];
    assert e[..l] == d.name.path == h[..l];
    assert forall n | 0 <= n < l :: h[n] == e[n];
    assert h[l] != e[l] by {
      assert h[..l + 1] == h[..l] + [h[l]] && e[..l + 1] == e[..l] + [e[l]];
    }
    assert forall n | l < n <= |h| :: h[..n][l] == h[l];
    assert forall n | l < n <= |e| :: e[..n][l] == e[l];
  }

  /** Which earlier child a dataset strictly below belongs to. */
  lemma CoveredBy(p: Pool, x: Path, ks: seq<Dataset>, i: nat, f: Path) returns (j: nat)
    requires x in p.fs && (forall k | k in ks :: ChildName(Fs(x), k.name)) && i <= |ks|
    requires f in Covered(p, x, ks[..i]) && f != x
    ensures j < i && ks[j].name.Fs? && ks[j].name.path <= f
  {
    CoveredIs(p, x, ks[..i]);
    var k :| k in ks[..i] && k.name.Fs? && f in Sub(p, k.name.path);
    j :| 0 <= j < i && ks[j] == k;
  }

  lemma EarlierBranch(d: Dataset, j: nat, i: nat, ord: Orders, f: Path, e: Path)
    requires d.name.Fs? && Distinct(d.kids) && d.name.path in ord && ord[d.name.path] == KidOrder(d.kids)
    requires j < i < |d.kids| && d.kids[i].name.Fs? && d.kids[j].name.Fs?
    requires ChildName(d.name, d.kids[i].name) && ChildName(d.name, d.kids[j].name)
    requires d.kids[j].name.path <= f && d.kids[i].name.path <= e
    ensures BranchBefore(ord, f, e)
  {
    var l := |d.name.path|;
    assert d.kids[i].name.path == e[..l + 1] && d.kids[j].name.path == f[..l + 1];
    assert e[..l] == d.name.path == f[..l];
    assert f[l] != e[l] by {
      assert f[..l + 1] == f[..l] + [f[l]] && e[..l + 1] == e[..l] + [e[l]];
    }
    var names := ord[d.name.path];
    assert names[j] == Fs(f[..l + 1]) && names[i] == Fs(e[..l + 1]);
    assert ListedBefore(names, f[..l + 1], e[..l + 1]);
  }

  /** The next child filesystem is as good to destroy as its parent was. */
  lemma KidIsGood(p: Pool, r: Pool, q: Pool, d: Dataset, k: Dataset, a: set<Path>, pr: set<Path>, ord: Orders)
    requires Good(p, d, ord) && WF(q) && k in d.kids && k.name.Fs?
    requires Progress(p, r, q, d.name.path, Sub(p, d.name.path), a, pr)
    requires a !! Sub(p, k.name.path) && Sub(p, k.name.path) <= Sub(p, d.name.path)
    requires InTurn(ord, a, Sub(p, k.name.path), Sub(p, d.name.path))
    ensures Good(q, k, ord) && Sub(q, k.name.path) == Sub(p, k.name.path)
    ensures Next(a, pr, Sub(p, k.name.path), Sub(p, d.name.path), p, q)
    ensures Passable(q, Sub(p, k.name.path), ord) <==> Passable(p, Sub(p, k.name.path), ord)
  {
    hide WF, Progress, Prepared, Next, Passable, Chosen, InTurn;
    var x, y := d.name.path, k.name.path;
    var t, b := Sub(p, x), Sub(p, y);
    ProgressChosen(p, r, q, x, t, a, pr);
    ProgressNext(p, r, q, x, t, a, pr, b);
    KidName(p, d, k);
    SubSame(a, pr, t, p, q, y);
    SubtreeClosed(p, x);
    PreparedSame(a, pr, b, t, p, q, ord);
    PassableSame(a, pr, b, t, p, q, ord);
    assert y in b;
    ReflectsSame(a, pr, b, t, p, q, k);
  }

  /** A child filesystem could not be destroyed: what was done so far stays within bounds. */
  lemma KidFailed(p: Pool, r: Pool, q: Pool, s: Pool, x: Path, t: set<Path>, a: set<Path>, pr: set<Path>,
                  b: set<Path>, pb: set<Path>)
    requires Progress(p, r, q, x, t, a, pr) && Next(a, pr, b, t, p, q) && Frame(b, pb, q, s)
    ensures Frame(t, pr + pb, p, s)
  {
    hide Frame, Chosen, OwnSame, OutsideSame, OriginsExist, NoInternal;
    NoInternalSub(p, t, a + b);
    FrameThen(a, pr, b, pb, p, q, s);
    PromotedOutside(p, s, t, a + b, pr + pb);
    FrameGrow(a + b, t, pr + pb, p, s);
  }

  lemma NoInternalSub(p: Pool, t: set<Path>, a: set<Path>)
    requires NoInternal(p, t) && a <= t
    ensures NoInternal(p, a)
  {
  }

  lemma ProgressFrame(p: Pool, r: Pool, q: Pool, x: Path, t: set<Path>, a: set<Path>, pr: set<Path>)
    requires Progress(p, r, q, x, t, a, pr)
    ensures Frame(t, pr, p, q)
  {
    hide Frame, Chosen, OwnSame, OutsideSame, OriginsExist;
    PromotedOutside(p, q, t, a, pr);
    FrameGrow(a, t, pr, p, q);
  }

  /** No clone refers to a snapshot `x` still owns. */
  lemma SnapKidIsQuiet(p: Pool, r: Pool, q: Pool, x: Path, t: set<Path>, a: set<Path>, pr: set<Path>, n: string)
    requires Progress(p, r, q, x, t, a, pr)
    ensures forall f | f in q.fs :: OriginName(q, f) != Some(Snap(x, n))
  {
    hide Frame, Chosen, OwnSame, OutsideSame, OriginsExist, NoInternal;
    forall f | f in q.fs
      ensures OriginName(q, f) != Some(Snap(x, n))
    {
      assert !IsClone(q, f, x);
    }
  }

  lemma AgedSame(a: set<Path>, pr: set<Path>, p: Pool, q: Pool)
    requires Frame(a, pr, p, q) && Aged(p)
    ensures Aged(q)
  {
    hide Promoted, Survives, Lodged;
  }

  lemma TopUnique(p: Pool, e: Path, c: Path, c': Path)
    requires Aged(p) && IsTop(p, e, c) && IsTop(p, e, c')
    ensures c == c'
  {
    hide OriginTxg;
    assert NotYounger(p, c, c') && NotYounger(p, c', c);
  }

  lemma PassableOne(p: Pool, x: Path, c: Path, ord: Orders)
    requires IsTop(p, x, c) && x != []
    ensures Passable(p, {x}, ord) ==> Passes(p, x, c, OrderOf(ord, x))
    ensures Aged(p) && Passes(p, x, c, OrderOf(ord, x)) ==> Passable(p, {x}, ord)
  {
    hide IsTop, Passes;
    if Aged(p) {
      forall c' | IsTop(p, x, c')
        ensures c' == c
      {
        TopUnique(p, x, c, c');
      }
    }
  }

  lemma {:induction false} ImageSize<A, B>(s: set<A>, im: set<B>, h: A -> B)
    requires forall b | b in im :: exists a | a in s :: h(a) == b
    ensures |im| <= |s|
    decreases |s|
  {
    if s != {} {
      var a :| a in s;
      forall b | b in im - {h(a)}
        ensures exists a' | a' in s - {a} :: h(a') == b
      {
        var a' :| a' in s && h(a') == b;
        assert a' in s - {a};
      }
      ImageSize(s - {a}, im - {h(a)}, h);
      assert |im| <= |im - {h(a)}| + 1;
    }
  }

  /** In a small pool the search never fills its channel. */
  lemma SmallFits(p: Pool, d: Dataset)
    requires WF(p) && Small(p)
    ensures |VisibleNames(p, d)| <= QUEUE_CAP
  {
    hide Visible, WF, VisibleFs, VisibleSnaps;
    WFRooted(p);
    FsFit(p, d);
    SnapsFit(p, d);
  }

  lemma FsFit(p: Pool, d: Dataset)
    requires Rooted(p)
    ensures |VisibleFs(p, d)| < |p.fs|
  {
    hide Visible;
    var below := p.fs.Keys - {[p.name]};
    var h := (f: Path) => Fs(f);
    forall b | b in VisibleFs(p, d)
      ensures exists a | a in below :: h(a) == b
    {
      assert b.path in below && h(b.path) == b;
    }
    ImageSize(below, VisibleFs(p, d), h);
    assert |below| == |p.fs.Keys| - 1;
  }

  lemma SnapsFit(p: Pool, d: Dataset)
    ensures |VisibleSnaps(p, d)| <= |p.snaps|
  {
    hide Visible;
    var h := (g: Guid) => if g in p.snaps then Snap(p.snaps[g].owner, p.snaps[g].name) else Fs([]);
    ImageSize(p.snaps.Keys, VisibleSnaps(p, d), h);
    assert |p.snaps.Keys| == |p.snaps|;
  }
}
