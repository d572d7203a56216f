/** What `DestroyPromote` relies on and what it achieves, in terms of the pool alone. */
module Promotion {
  import opened Pools
  import opened Frames

  ghost predicate IsClone(p: Pool, c: Path, e: Path) {
    Base(p, c) == Some(e)
  }

  /** `c` is a clone of `e` with the youngest origin and, among those, itself the youngest. */
  ghost predicate IsTop(p: Pool, e: Path, c: Path) {
    IsClone(p, c, e) && forall f | f in p.fs && IsClone(p, f, e) :: NotYounger(p, f, c)
  }

  ghost predicate NotYounger(p: Pool, f: Path, c: Path)
    requires f in p.fs && c in p.fs
  {
    OriginTxg(p, f) < OriginTxg(p, c) || (OriginTxg(p, f) == OriginTxg(p, c) && p.fs[f].txg <= p.fs[c].txg)
  }

  ghost predicate OnlyTop(p: Pool, e: Path, c: Path) {
    IsTop(p, e, c) && forall c' | IsTop(p, e, c') :: c' == c
  }

  // ----- the order of the work -----

  /** The order in which the children of each doomed dataset are cached. */
  type Orders = map<Path, seq<Name>>

  ghost predicate ListedBefore(names: seq<Name>, y: Path, y': Path) {
    exists i, j | 0 <= i < j < |names| :: names[i] == Fs(y) && names[j] == Fs(y')
  }

  /** Where the paths of `a` and `e` part, the branch of `a` is cached before that of `e`: everything
      at or below it is destroyed when the branch of `e` has its turn. */
  ghost predicate BranchBefore(ord: Orders, a: Path, e: Path) {
    exists n: nat | n < |a| && n < |e| && a[..n] == e[..n] && a[n] != e[n] && a[..n] in ord ::
      ListedBefore(ord[a[..n]], a[..n + 1], e[..n + 1])
  }

  /** The clones of `a` are searched for before those of `e`. */
  ghost predicate TurnBefore(ord: Orders, a: Path, e: Path) {
    a < e || BranchBefore(ord, a, e)
  }

  // ----- which clones are found -----

  /** Between the pool's root and `f` there are only datasets that are no clones, or clones of `e`:
      the search of `Clones` gets from one to the other. */
  ghost predicate ClearPath(p: Pool, e: Path, f: Path) {
    forall n | 1 < n < |f| :: Base(p, f[..n]).None? || IsClone(p, f[..n], e)
  }

  /** When the turn comes to `e`, `r` was promoted over another doomed dataset, which was no clone, so
      that `r` is none any more. */
  ghost predicate Released(p: Pool, t: set<Path>, ord: Orders, e: Path, r: Path) {
    exists a | a in t && TurnBefore(ord, a, e) :: OnlyTop(p, a, r) && Origin(p, a).None?
  }

  /** When the turn comes to `e`, the search gets to `f`. */
  ghost predicate Reached(p: Pool, t: set<Path>, ord: Orders, e: Path, f: Path) {
    && |f| > 1
    && forall n | 1 < n < |f| ::
      Base(p, f[..n]).None? || IsClone(p, f[..n], e) || Released(p, t, ord, e, f[..n])
  }

  /** Of every doomed dataset that has clones, a youngest one is found when its turn comes. */
  ghost predicate TopsReached(p: Pool, t: set<Path>, ord: Orders) {
    forall e, f | e in t && IsClone(p, f, e) :: TopReached(p, t, ord, e)
  }

  ghost predicate TopReached(p: Pool, t: set<Path>, ord: Orders, e: Path) {
    exists c :: IsTop(p, e, c) && Reached(p, t, ord, e, c)
  }

  /** `n` names a snapshot of `e` and one of `c`. */
  predicate Clash(p: Pool, e: Path, c: Path, n: string) {
    SnapExists(p, e, n) && SnapExists(p, c, n)
  }

  /** Wherever a doomed dataset and the clone that will be promoted share a snapshot name, the
      suffixed name is still free in both. */
  ghost predicate SuffixFresh(p: Pool, t: set<Path>) {
    forall e, c, n | e in t && IsTop(p, e, c) && Clash(p, e, c, n) ::
      e != [] && !SnapExists(p, e, Suffixed(e, n)) && !SnapExists(p, c, Suffixed(e, n))
  }

  /** No snapshot that stays behind, being younger than the promoted clone's origin, shares its
      name with a snapshot of that clone. */
  ghost predicate NoYoungClash(p: Pool, e: Path, c: Path) {
    forall g | g in p.snaps && p.snaps[g].owner == e && p.snaps[g].txg > OriginTxg(p, c) ::
      !SnapExists(p, c, p.snaps[g].name)
  }

  ghost predicate Compatible(p: Pool, t: set<Path>) {
    forall e, c | e in t && IsTop(p, e, c) :: NoYoungClash(p, e, c)
  }

  /** What a caller must know about a doomed subtree. */
  ghost predicate Prepared(p: Pool, t: set<Path>, ord: Orders) {
    NoInternal(p, t) && TopsReached(p, t, ord)
  }

  /** What was found without regard to the order of the children is found in any. */
  lemma AnyOrder(p: Pool, t: set<Path>, ord: Orders)
    requires Prepared(p, t, map[])
    ensures Prepared(p, t, ord)
  {
    hide IsTop, Base, Origin, OnlyTop;
    forall e, f | e in t && IsClone(p, f, e)
      ensures TopReached(p, t, ord, e)
    {
      assert TopReached(p, t, map[], e);
      var c :| IsTop(p, e, c) && Reached(p, t, map[], e, c);
      forall n | 1 < n < |c| && Released(p, t, map[], e, c[..n])
        ensures Released(p, t, ord, e, c[..n])
      {
        var a :| a in t && TurnBefore(map[], a, e) && OnlyTop(p, a, c[..n]) && Origin(p, a).None?;
        assert TurnBefore(ord, a, e);
      }
    }
  }

  /** Over each doomed dataset that has clones exactly one was promoted, the youngest. */
  ghost predicate Chosen(p: Pool, t: set<Path>, pr: set<Path>) {
    && (forall c | c in pr :: Base(p, c).Some? && IsTop(p, Base(p, c).value, c))
    && (forall c, c' | c in pr && c' in pr && Base(p, c) == Base(p, c') :: c == c')
    && (forall e, f | e in t && IsClone(p, f, e) :: HasPromoted(p, e, pr))
  }

  ghost predicate HasPromoted(p: Pool, e: Path, pr: set<Path>) {
    exists c | c in pr :: IsClone(p, c, e)
  }

  // ----- when a dataset with clones gets through -----

  /** After the clashing names of `done` were resolved, `n` can be: its suffixed name is free in `x`,
      or was, and gave way. */
  predicate Freed(p: Pool, x: Path, c: Path, done: set<string>, n: string)
    requires x != []
  {
    !SnapExists(p, x, Suffixed(x, n)) || (Suffixed(x, n) in done && SnapExists(p, c, Suffixed(x, n)))
  }

  function Firsts(order: seq<string>, i: nat): set<string>
    requires i <= |order|
  {
    set j | 0 <= j < i :: order[j]
  }

  /** Every taken suffixed name of a clash is itself an earlier clash. */
  ghost predicate Orderly(p: Pool, x: Path, c: Path, order: seq<string>)
    requires x != []
  {
    forall i | 0 <= i < |order| && Clash(p, x, c, order[i]) :: Freed(p, x, c, Firsts(order, i), order[i])
  }

  /** Every snapshot that moves gets a name the clone does not use. */
  ghost predicate Movable(p: Pool, x: Path, c: Path)
    requires x != []
  {
    forall g | g in p.snaps && p.snaps[g].owner == x && p.snaps[g].txg <= OriginTxg(p, c)
      && SnapExists(p, c, p.snaps[g].name) :: !SnapExists(p, c, Suffixed(x, p.snaps[g].name))
  }

  /** Every snapshot that stays behind gets a name that was cached, if only for another one. */
  ghost predicate LeftCached(p: Pool, x: Path, c: Path)
    requires x != []
  {
    forall g | g in p.snaps && p.snaps[g].owner == x && p.snaps[g].txg > OriginTxg(p, c)
      && SnapExists(p, c, p.snaps[g].name) :: SnapExists(p, x, Suffixed(x, p.snaps[g].name))
  }

  /** The snapshots of `x`, cached in this order, let `x` be destroyed once `c` is promoted. */
  ghost predicate Passes(p: Pool, x: Path, c: Path, order: seq<string>)
    requires x != []
  {
    Orderly(p, x, c, order) && Movable(p, x, c) && LeftCached(p, x, c)
  }

  /** The names of the snapshots in a list of names. */
  function SnapsIn(names: seq<Name>): seq<string> {
    if names == [] then []
    else
      var n := |names| - 1;
      SnapsIn(names[..n]) + (if names[n].Snap? then [names[n].snap] else [])
  }

  /** The order in which the snapshots of `e` are cached. */
  function OrderOf(ord: Orders, e: Path): seq<string> {
    if e in ord then SnapsIn(ord[e]) else []
  }

  ghost predicate Passable(p: Pool, t: set<Path>, ord: Orders) {
    forall e, c | e in t && e != [] && IsTop(p, e, c) :: Passes(p, e, c, OrderOf(ord, e))
  }

  /** The suffixed forms of the clashing names are free in both datasets. */
  ghost predicate SuffixOk(p: Pool, x: Path, c: Path) {
    x != [] && forall m | Clash(p, x, c, m) :: !SnapExists(p, x, Suffixed(x, m)) && !SnapExists(p, c, Suffixed(x, m))
  }

  /** With fresh suffixed names only a young clash stands in the way, whatever the order. */
  lemma PassesIfFresh(p: Pool, x: Path, c: Path, order: seq<string>)
    requires SuffixOk(p, x, c)
    ensures Passes(p, x, c, order) <==> NoYoungClash(p, x, c)
  {
    hide Suffixed, OriginTxg;
    forall g | g in p.snaps && p.snaps[g].owner == x && SnapExists(p, c, p.snaps[g].name)
      ensures Clash(p, x, c, p.snaps[g].name)
    {
      assert IsSnap(p, x, p.snaps[g].name, g);
    }
  }

  lemma PassableIfFresh(p: Pool, t: set<Path>, ord: Orders)
    requires SuffixFresh(p, t) && [] !in t
    ensures Passable(p, t, ord) <==> Compatible(p, t)
  {
    hide IsTop, Passes, NoYoungClash, SnapExists;
    forall e, c | e in t && IsTop(p, e, c)
      ensures Passes(p, e, c, OrderOf(ord, e)) <==> NoYoungClash(p, e, c)
    {
      PassesIfFresh(p, e, c, OrderOf(ord, e));
    }
  }

  /** And nothing is exposed. */
  lemma NothingExposed(p: Pool, t: set<Path>, c: Path, g: Guid)
    requires SuffixFresh(p, t) && g in p.snaps && Base(p, c).Some? && Base(p, c).value in t
    requires IsTop(p, Base(p, c).value, c)
    ensures !Exposed(p, c, g)
  {
    hide IsTop, OriginTxg, Suffixed;
    var e := Base(p, c).value;
    if e != [] {
      forall m
        ensures !ExposedBy(p, e, c, g, m)
      {
        if StaysBehind(p, e, c, m) && SnapExists(p, c, m) {
          assert Clash(p, e, c, m);
        }
      }
    }
  }

  // ----- handing a dataset's snapshots over to its youngest clone -----

  /** The pool after the clashing snapshots of `x` among `names` were renamed. */
  function Resolved(p: Pool, x: Path, c: Path, names: set<string>): Pool
    requires x != []
  {
    p.(snaps := map g | g in p.snaps ::
      if p.snaps[g].owner == x && p.snaps[g].name in names then p.snaps[g].(name := NewName(p, x, c, p.snaps[g].name))
      else p.snaps[g])
  }

  lemma ResolvedNone(p: Pool, x: Path, c: Path)
    requires x != []
    ensures Resolved(p, x, c, {}) == p
  {
  }

  /** What was renamed so far could be, when its turn came. */
  ghost predicate Settled(p: Pool, x: Path, c: Path, done: set<string>)
    requires x != []
  {
    forall m | m in done && Clash(p, x, c, m) :: Freed(p, x, c, done, m)
  }

  lemma SettledMore(p: Pool, x: Path, c: Path, done: set<string>, n: string)
    requires x != [] && Settled(p, x, c, done) && (Clash(p, x, c, n) ==> Freed(p, x, c, done, n))
    ensures Settled(p, x, c, done + {n})
  {
    hide Clash, SnapExists, Suffixed;
  }

  /** A name without a clash needs no renaming. */
  lemma ResolvedSame(p: Pool, x: Path, c: Path, names: set<string>, n: string)
    requires x != [] && !SnapExists(p, c, n)
    ensures Resolved(p, x, c, names + {n}) == Resolved(p, x, c, names)
  {
    hide SnapExists;
    assert NewName(p, x, c, n) == n;
  }

  lemma SuffixInjective(x: Path, n: string, m: string)
    requires x != [] && Suffixed(x, n) == Suffixed(x, m)
    ensures n == m
  {
    var t := "." + x[|x| - 1];
    assert Suffixed(x, n) == n + t && Suffixed(x, m) == m + t;
    assert |n| == |m|;
    assert (n + t)[..|n|] == n && (m + t)[..|m|] == m;
  }

  /** Which snapshots of `x` carry name `n` or its suffixed form while clashes are resolved. */
  lemma ResolvedNames(p: Pool, x: Path, c: Path, names: set<string>, n: string, g: Guid)
    requires x != [] && n !in names && Clash(p, x, c, n) && Settled(p, x, c, names)
    requires g in p.snaps && p.snaps[g].owner == x
    ensures Resolved(p, x, c, names).snaps[g].name == n <==> p.snaps[g].name == n
    ensures Freed(p, x, c, names, n) ==> Resolved(p, x, c, names).snaps[g].name != Suffixed(x, n)
  {
    hide Suffixed;
    var m := p.snaps[g].name;
    assert IsSnap(p, x, m, g);
    if m in names && SnapExists(p, c, m) {
      assert Clash(p, x, c, m);
      if Suffixed(x, m) == Suffixed(x, n) {
        SuffixInjective(x, m, n);
      }
    }
  }

  lemma NotFreed(p: Pool, x: Path, c: Path, names: set<string>, n: string)
    requires x != [] && !Freed(p, x, c, names, n)
    ensures SnapExists(Resolved(p, x, c, names), x, Suffixed(x, n))
  {
    hide Suffixed;
    var m := Suffixed(x, n);
    var g :| g in p.snaps && IsSnap(p, x, m, g);
    assert IsSnap(Resolved(p, x, c, names), x, m, g);
  }

  /** The next clashing snapshot can be renamed exactly if its suffixed name is free or was freed. */
  lemma ResolvedStep(p: Pool, x: Path, c: Path, names: set<string>, n: string)
    requires x != [] && n !in names && Clash(p, x, c, n) && Settled(p, x, c, names)
    ensures CanRename(Resolved(p, x, c, names), x, n, Suffixed(x, n)) <==> Freed(p, x, c, names, n)
    ensures Freed(p, x, c, names, n) ==>
      Rename(Resolved(p, x, c, names), x, n, Suffixed(x, n)) == Resolved(p, x, c, names + {n})
  {
    hide Clash, Suffixed, Freed, Settled;
    var q := Resolved(p, x, c, names);
    forall g | g in p.snaps && p.snaps[g].owner == x
      ensures IsSnap(q, x, n, g) <==> p.snaps[g].name == n
      ensures Freed(p, x, c, names, n) ==> !IsSnap(q, x, Suffixed(x, n), g)
    {
      ResolvedNames(p, x, c, names, n, g);
    }
    ClashIsSnap(p, x, c, n);
    var h :| h in p.snaps && IsSnap(p, x, n, h);
    assert IsSnap(q, x, n, h);
    if !Freed(p, x, c, names, n) {
      NotFreed(p, x, c, names, n);
    }
  }

  lemma ClashIsSnap(p: Pool, x: Path, c: Path, n: string)
    requires Clash(p, x, c, n)
    ensures SnapExists(p, x, n) && SnapExists(p, c, n)
  {
  }

  /** The pool once the clashing snapshots of `x` are renamed and `c` is promoted over `x`. */
  ghost predicate HandedOver(p: Pool, q: Pool, x: Path, c: Path) {
    && x != [] && c != x && x in p.fs && IsClone(p, c, x)
    && q.name == p.name && q.fs.Keys == p.fs.Keys && q.snaps.Keys == p.snaps.Keys
    && q.fs[c] == p.fs[c].(origin := p.fs[x].origin)
    && q.fs[x] == p.fs[x].(origin := p.fs[c].origin)
    && (forall f | f in p.fs && f != c && f != x :: q.fs[f] == p.fs[f])
    && (forall g | g in p.snaps && p.snaps[g].owner != x :: q.snaps[g] == p.snaps[g])
    && (forall g | g in p.snaps && p.snaps[g].owner == x :: q.snaps[g] == Snapshot(
          if p.snaps[g].txg <= OriginTxg(p, c) then c else x, NewName(p, x, c, p.snaps[g].name), p.snaps[g].txg))
  }

  ghost predicate AllNames(p: Pool, x: Path, names: set<string>) {
    forall g | g in p.snaps && p.snaps[g].owner == x :: p.snaps[g].name in names
  }

  lemma CloneIsOther(p: Pool, x: Path, c: Path)
    requires WF(p) && IsClone(p, c, x)
    ensures c != x && x in p.fs && c in p.fs
  {
  }

  /** After the loop the promotion is refused exactly if a snapshot that moves has a name the clone
      uses. */
  lemma ResolvedPromotes(p: Pool, x: Path, c: Path, names: set<string>)
    requires WF(p) && x != [] && IsClone(p, c, x) && AllNames(p, x, names)
    ensures Promotable(Resolved(p, x, c, names), c) <==> Movable(p, x, c)
  {
    hide WF, Suffixed;
    CloneIsOther(p, x, c);
    var q := Resolved(p, x, c, names);
    if Movable(p, x, c) {
      forall g, h | g in q.snaps && h in q.snaps && Moves(q, c, g) && q.snaps[h].owner == c
        ensures q.snaps[g].name != q.snaps[h].name
      {
        assert IsSnap(p, c, p.snaps[h].name, h);
      }
    } else {
      var g :| g in p.snaps && p.snaps[g].owner == x && p.snaps[g].txg <= OriginTxg(p, c)
        && SnapExists(p, c, p.snaps[g].name) && SnapExists(p, c, Suffixed(x, p.snaps[g].name));
      var h :| h in p.snaps && IsSnap(p, c, Suffixed(x, p.snaps[g].name), h);
      assert Moves(q, c, g) && q.snaps[h].owner == c && q.snaps[g].name == q.snaps[h].name;
    }
  }

  lemma PromotedIsHandedOver(p: Pool, x: Path, c: Path, names: set<string>)
    requires WF(p) && x != [] && IsClone(p, c, x) && AllNames(p, x, names)
    requires Promotable(Resolved(p, x, c, names), c)
    ensures HandedOver(p, Promote(Resolved(p, x, c, names), c), x, c)
  {
    hide WF, NewName, Promotable;
    CloneIsOther(p, x, c);
  }

  lemma HandedOverFrame(p: Pool, q: Pool, x: Path, c: Path)
    requires HandedOver(p, q, x, c)
    ensures Frame({x}, {c}, p, q)
  {
    hide NewName;
  }

  /** Before anything was done, and after only renaming. */
  lemma ResolvedFrame(p: Pool, x: Path, c: Path, names: set<string>)
    requires x != []
    ensures Frame({x}, {}, p, Resolved(p, x, c, names))
  {
    hide NewName;
  }

  /** The point of promoting the youngest: no clone is left on a snapshot the dataset still owns. */
  lemma OnePromoteIsEnough(p: Pool, q: Pool, x: Path, c: Path)
    requires WF(p) && HandedOver(p, q, x, c) && IsTop(p, x, c)
    ensures forall f | f in q.fs :: !IsClone(q, f, x)
  {
    hide NewName, WF;
    assert !IsClone(p, x, x) by {
      if IsClone(p, x, x) {
        CloneIsOther(p, x, x);
      }
    }
    assert OriginsExist(p) by {
      WFOrigins(p);
    }
    forall f | f in q.fs
      ensures !IsClone(q, f, x)
    {
      if f != c && f != x && IsClone(p, f, x) {
        assert NotYounger(p, f, c);
      }
    }
  }

}
