/** What the list returned by `Clones` means for the dataset that is about to be destroyed. */
module Choice {
  import opened Pools
  import opened Decimal
  import opened Handles
  import opened Trees
  import opened Lookup
  import opened CloneSearch
  import opened CloneLists
  import opened Promotion

  /** On a true cached tree, an origin matches exactly if the dataset is a clone of `x`. */
  lemma HitIsClone(p: Pool, d: Dataset, x: Path, f: Path)
    requires WF(p) && Reflects(p, d) && d.name == Fs(x) && OriginName(p, f).Some?
    ensures Hit(d, OriginName(p, f).value).Some? <==> IsClone(p, f, x)
    ensures IsClone(p, f, x) ==> OriginAge(p, d, f) == OriginTxg(p, f)
  {
    hide WF, Cached, TextAge;
    var g := p.fs[f].origin.value;
    var s := p.snaps[g];
    var o := OriginName(p, f).value;
    FirstSnapFinds(d.kids, o);
    if s.owner == x {
      assert o in ChildNames(p, d.name);
      FirstSnapIs(d.kids, o);
      var k :| k in d.kids && k.name == o && FirstSnap(d.kids, o) == Some(k.createTxg);
      SnapText(p, k, x, s.name, g);
    }
  }

  lemma SnapText(p: Pool, k: Dataset, x: Path, n: string, g: Guid)
    requires Reflects(p, k) && k.name == Snap(x, n) && IsSnap(p, x, n, g)
    ensures TextAge(k.createTxg) == p.snaps[g].txg
  {
    hide ParseInt;
    ParseFormat(p.snaps[g].txg);
  }

  lemma CloneIsListed(p: Pool, d: Dataset, x: Path, f: Path)
    requires WF(p) && Reflects(p, d) && d.name == Fs(x)
    requires IsClone(p, f, x) && |f| > 1 && ClearPath(p, x, f)
    ensures Listed(p, d, Fs(f))
  {
    hide WF, Reflects, Hit;
    assert OriginsExist(p) by { WFOrigins(p); }
    forall n | 1 < n <= |f|
      ensures OpenPath(p, d, f[..n])
    {
      assert f[..|f|] == f;
      if OriginName(p, f[..n]).Some? {
        assert IsClone(p, f[..n], x);
        HitIsClone(p, d, x, f[..n]);
      }
    }
  }

  /** A filesystem's list holds exactly its clones that can be reached from the pool's root past no
      other clones. */
  lemma ListedIff(p: Pool, d: Dataset, x: Path, f: Path)
    requires WF(p) && Reflects(p, d) && d.name == Fs(x)
    ensures Listed(p, d, Fs(f)) <==> IsClone(p, f, x) && |f| > 1 && ClearPath(p, x, f)
  {
    hide WF, Reflects, Hit;
    assert OriginsExist(p) by { WFOrigins(p); }
    if IsClone(p, f, x) && |f| > 1 && ClearPath(p, x, f) {
      CloneIsListed(p, d, x, f);
    }
    if Listed(p, d, Fs(f)) {
      ListedIsClone(p, d, x, Fs(f));
      forall n | 1 < n < |f|
        ensures Base(p, f[..n]).None? || IsClone(p, f[..n], x)
      {
        assert OpenPath(p, d, f[..n]);
        if OriginName(p, f[..n]).Some? {
          HitIsClone(p, d, x, f[..n]);
        }
      }
    }
  }

  /** A snapshot's list likewise. */
  lemma SnapListedIff(p: Pool, d: Dataset, f: Path)
    requires Rooted(p) && d.name.Snap? && d.kids == []
    ensures Listed(p, d, Fs(f)) <==>
      OriginName(p, f) == Some(d.name) && |f| > 1
      && forall n | 1 < n < |f| :: OriginName(p, f[..n]).None? || OriginName(p, f[..n]) == Some(d.name)
  {
    hide Rooted;
    forall n | 0 <= n <= |f|
      ensures OpenPath(p, d, f[..n]) <==> OriginName(p, f[..n]).None? || OriginName(p, f[..n]) == Some(d.name)
    {
    }
    assert f[..|f|] == f;
  }

  /** Nothing at or below `x` has its turn before `x`, so what is reached then is in sight now. */
  lemma ReachedIsClear(p: Pool, x: Path, t: set<Path>, ord: Orders, c: Path)
    requires Reached(p, t, ord, x, c) && forall a | a in t :: x <= a
    ensures |c| > 1 && ClearPath(p, x, c)
  {
    hide Base, OnlyTop;
    forall a | a in t
      ensures !TurnBefore(ord, a, x)
    {
      assert forall n | 0 <= n < |x| :: a[n] == x[n];
    }
  }

  /** With a youngest clone of `x` in sight, the head of the list is a youngest one, whatever else
      is hidden, and an empty list means there is none. */
  lemma HeadIsTop(p: Pool, d: Dataset, x: Path, t: set<Path>, ord: Orders, clones: seq<Name>)
    requires WF(p) && Reflects(p, d) && d.name == Fs(x) && x in t && TopsReached(p, t, ord)
    requires forall a | a in t :: x <= a
    requires IsCloneList(p, d, clones)
    ensures clones == [] ==> forall f :: !IsClone(p, f, x)
    ensures clones != [] ==> clones[0].Fs? && IsTop(p, x, clones[0].path)
  {
    hide WF, Reflects, Hit, OriginAge, ClearPath, Visible, OriginTxg, Base, Reached;
    if f :| IsClone(p, f, x) {
      assert TopReached(p, t, ord, x);
      var c :| IsTop(p, x, c) && Reached(p, t, ord, x, c);
      ReachedIsClear(p, x, t, ord, c);
      CloneExists(p, c, x);
      CloneIsListed(p, d, x, c);
      HitIsClone(p, d, x, c);
      var i :| 0 <= i < |clones| && clones[i] == Fs(c);
      ListedIsClone(p, d, x, clones[0]);
      CloneExists(p, clones[0].path, x);
      HitIsClone(p, d, x, clones[0].path);
      assert i > 0 ==> NoOlder(p, d, clones[0].path, c);
    } else if clones != [] {
      ListedIsClone(p, d, x, clones[0]);
    }
  }

  lemma CloneExists(p: Pool, f: Path, x: Path)
    requires IsClone(p, f, x)
    ensures f in p.fs && OriginName(p, f).Some?
  {
  }

  lemma ListedIsClone(p: Pool, d: Dataset, x: Path, n: Name)
    requires WF(p) && Reflects(p, d) && d.name == Fs(x) && Listed(p, d, n)
    ensures n.Fs? && n.path in p.fs && IsClone(p, n.path, x)
  {
    hide WF, Reflects, Hit;
    HitIsClone(p, d, x, n.path);
    assert n.path[..|n.path|] == n.path;
    assert OpenPath(p, d, n.path[..|n.path|]);
  }

  lemma ListedIsHit(p: Pool, d: Dataset, n: Name)
    requires Listed(p, d, n)
    ensures n.path in p.fs && OriginName(p, n.path).Some? && Hit(d, OriginName(p, n.path).value).Some?
  {
    assert n.path[..|n.path|] == n.path;
    assert OpenPath(p, d, n.path[..|n.path|]);
  }

  /** A snapshot no clone refers to has an empty list. */
  lemma NoClonesListed(p: Pool, d: Dataset, clones: seq<Name>)
    requires d.name.Snap? && d.kids == [] && IsCloneList(p, d, clones)
    requires forall f | f in p.fs :: OriginName(p, f) != Some(d.name)
    ensures clones == []
  {
    hide Listed, OriginName;
    if clones != [] {
      ListedIsHit(p, d, clones[0]);
    }
  }
}
