/** `Clones`: which datasets it returns, and in which order. */
module CloneLists {
  import opened Pools
  import opened Decimal
  import opened Handles
  import opened Trees
  import opened Backend
  import opened Opening
  import opened Lookup
  import opened CloneOrder
  import opened CloneSearch

  /** `PoolName` cuts the name at its first slash, so a snapshot of the pool's root keeps its
      whole name. */
  function PoolName(n: Name): Name
    requires n.path != []
  {
    if n.Snap? && |n.path| == 1 then n else Fs(n.path[..1])
  }

  /** A path the search passes: no clone, or a clone of what is searched for. */
  ghost predicate OpenPath(p: Pool, d: Dataset, q: Path) {
    OriginName(p, q).None? || Hit(d, OriginName(p, q).value).Some?
  }

  /** Every dataset from just below the pool's root down to `f` is passed. */
  ghost predicate Visible(p: Pool, d: Dataset, f: Path) {
    f in p.fs && forall n | 1 < n <= |f| :: OpenPath(p, d, f[..n])
  }

  lemma {:induction false} ExpandIs(d: Dataset, ts: seq<Dataset>)
    ensures forall v | v in Expand(d, ts) :: Open(d, v) && exists t | t in ts :: v in t.kids
    ensures forall t, v | t in ts && v in t.kids && Open(d, v) :: v in Expand(d, ts)
    decreases |ts|
  {
    hide Open, OpenKids;
    if ts != [] {
      var n := |ts| - 1;
      ExpandIs(d, ts[..n]);
      OpenKidsAre(d, ts[n].kids);
      assert ts == ts[..n] + [ts[n]];
    }
  }

  lemma VisibleChild(p: Pool, d: Dataset, f: Path)
    requires |f| > 1 && f in p.fs && Visible(p, d, Parent(f)) && OpenPath(p, d, f)
    ensures Visible(p, d, f)
  {
    hide OpenPath;
    forall n | 1 < n <= |f|
      ensures OpenPath(p, d, f[..n])
    {
      if n < |f| {
        assert Parent(f)[..n] == f[..n];
      } else {
        assert f[..n] == f;
      }
    }
  }

  lemma VisibleParent(p: Pool, d: Dataset, f: Path)
    requires Rooted(p) && |f| > 1 && Visible(p, d, f)
    ensures Visible(p, d, Parent(f)) && OpenPath(p, d, f)
  {
    hide OpenPath;
    assert f[..|f|] == f;
    forall n | 1 < n <= |f| - 1
      ensures OpenPath(p, d, Parent(f)[..n])
    {
      assert Parent(f)[..n] == f[..n];
    }
  }

  /** A node of a true tree carries its dataset's origin, so the search treats it accordingly. */
  lemma OpenMeans(p: Pool, d: Dataset, v: Dataset)
    requires Reflects(p, v) && v.name.Fs?
    ensures v.name.path in p.fs && v.origin == OriginName(p, v.name.path)
    ensures (Open(d, v) <==> OpenPath(p, d, v.name.path))
  {
  }

  lemma ShapedChild(t: Dataset, v: Dataset)
    requires Shaped(t) && v in t.kids
    ensures ChildName(t.name, v.name) && Shaped(v)
  {
    hide ParseInt, ChildName;
  }

  lemma ReflectsChild(p: Pool, t: Dataset, v: Dataset)
    requires Reflects(p, t) && v in t.kids
    ensures Reflects(p, v) && v.name in ChildNames(p, t.name)
  {
    hide Cached;
    assert v.name in KidNames(t.kids);
  }

  /** Every visited node is the root or was sent by a visited parent. */
  ghost predicate Traced(d: Dataset, root: Dataset, seen: seq<Dataset>) {
    && (forall t | t in seen :: Shaped(t))
    && (forall v | v in seen && v != root :: exists t | t in seen :: v in t.kids && Open(d, v))
  }

  /** A search that has run to its end. */
  ghost predicate Finished(d: Dataset, root: Dataset, seen: seq<Dataset>) {
    seen == [root] + Expand(d, seen) && Traced(d, root, seen)
  }

  lemma FrontierIsTraced(d: Dataset, root: Dataset, pulled: seq<Dataset>, queue: seq<Dataset>)
    requires Frontier(d, root, pulled, queue)
    ensures Traced(d, root, pulled + queue)
  {
    hide Open, Expand, Shaped, LevelByLevel;
    var s := pulled + queue;
    ExpandIs(d, pulled);
    forall v | v in s && v != root
      ensures exists t | t in s :: v in t.kids && Open(d, v)
    {
      assert v in Expand(d, pulled);
      var t :| t in pulled && v in t.kids;
      assert t in s;
    }
  }

  /** A search visits only visible datasets, each with its true subtree. */
  lemma {:induction false} VisitedIsVisible(p: Pool, d: Dataset, root: Dataset, seen: seq<Dataset>, v: Dataset)
    requires WF(p) && Reflects(p, root) && root.name == Fs([p.name])
    requires Traced(d, root, seen) && v in seen
    ensures Reflects(p, v) && |v.name.path| > 0
    ensures v.name.Fs? ==> Visible(p, d, v.name.path)
    ensures v.name.Snap? ==> Visible(p, d, v.name.path)
    ensures v != root ==> v.name.Snap? || |v.name.path| > 1
    decreases Depth(v.name)
  {
    hide Reflects, Open, Expand, OpenPath, Shaped;
    if v != root {
      var t :| t in seen && v in t.kids && Open(d, v);
      ShapedChild(t, v);
      ChildUp(t.name, v.name);
      VisitedIsVisible(p, d, root, seen, t);
      ReflectsChild(p, t, v);
      if v.name.Fs? {
        OpenMeans(p, d, v);
        VisibleChild(p, d, v.name.path);
      }
    }
  }

  /** A finished search visits every visible dataset. */
  lemma {:induction false} VisibleIsVisited(p: Pool, d: Dataset, root: Dataset, seen: seq<Dataset>, f: Path)
    returns (v: Dataset)
    requires WF(p) && Reflects(p, root) && root.name == Fs([p.name])
    requires Finished(d, root, seen) && Visible(p, d, f)
    ensures v in seen && v.name == Fs(f) && (|f| > 1 ==> v in Expand(d, seen))
    decreases |f|
  {
    hide Reflects, Open, Expand, OpenPath, Shaped;
    if |f| == 1 {
      assert f == [p.name];
      v := root;
    } else {
      VisibleParent(p, d, f);
      var t := VisibleIsVisited(p, d, root, seen, Parent(f));
      VisitedIsVisible(p, d, root, seen, t);
      v := KidNamed(p, t, Fs(f));
      OpenMeans(p, d, v);
      ExpandIs(d, seen);
    }
  }

  lemma KidNamed(p: Pool, t: Dataset, n: Name) returns (v: Dataset)
    requires Reflects(p, t) && n in ChildNames(p, t.name)
    ensures v in t.kids && v.name == n && Reflects(p, v)
  {
    hide Cached;
    assert n in KidNames(t.kids);
    v :| v in t.kids && v.name == n;
  }

  // ----- the returned list -----

  /** `n` is a dataset the search reports: it is a clone, and visible. */
  ghost predicate Listed(p: Pool, d: Dataset, n: Name) {
    n.Fs? && |n.path| > 1 && OriginName(p, n.path).Some? && Visible(p, d, n.path)
  }

  /** The txg, as the search read it, of the snapshot a listed clone came from. */
  ghost function OriginAge(p: Pool, d: Dataset, f: Path): int {
    if OriginName(p, f).Some? && Hit(d, OriginName(p, f).value).Some?
    then TextAge(Hit(d, OriginName(p, f).value).value) else -1
  }

  ghost function TextAge(s: string): int {
    if ParseInt(s).Some? then ParseInt(s).value else -1
  }

  ghost function OwnAge(p: Pool, f: Path): int {
    if f in p.fs then p.fs[f].txg else -1
  }

  /** `f` has an origin at least as young as `h`'s and, if both are equally old, is itself at
      least as young. */
  ghost predicate NoOlder(p: Pool, d: Dataset, f: Path, h: Path) {
    || OriginAge(p, d, f) > OriginAge(p, d, h)
    || (OriginAge(p, d, f) == OriginAge(p, d, h) && OwnAge(p, f) >= OwnAge(p, h))
  }

  /** Every listed clone exactly once and nothing else, youngest first. */
  ghost predicate IsCloneList(p: Pool, d: Dataset, clones: seq<Name>) {
    && (forall n | n in clones :: Listed(p, d, n))
    && (forall n | Listed(p, d, n) :: n in clones)
    && (forall i, j | 0 <= i < j < |clones| :: clones[i] != clones[j] && NoOlder(p, d, clones[i].path, clones[j].path))
  }

  /** What a found struct is: the visited node with its origin's txg attached. */
  ghost predicate MarkOf(d: Dataset, ts: seq<Dataset>, m: Dataset) {
    exists t | t in ts && t.origin.Some? :: m == Marked(d, t)
  }

  lemma {:induction false} FoundAre(d: Dataset, ts: seq<Dataset>)
    ensures forall m | m in Found(d, ts) :: MarkOf(d, ts, m)
    ensures forall t | t in ts && t.origin.Some? :: Marked(d, t) in Found(d, ts)
    ensures Distinct(ts) ==> Distinct(Found(d, ts))
    decreases |ts|
  {
    hide Hit, MarkOf, Distinct;
    if ts == [] {
      assert Distinct(Found(d, ts)) by {
        NoneDistinct();
      }
    } else {
      var n := |ts| - 1;
      FoundAre(d, ts[..n]);
      assert ts == ts[..n] + [ts[n]];
      var o := Found(d, ts[..n]);
      forall m | m in Found(d, ts)
        ensures MarkOf(d, ts, m)
      {
        MarkMore(d, ts, n, m);
      }
      if Distinct(ts) {
        FrontDistinct(ts, n);
        FoundLast(d, ts, o);
      }
    }
  }

  lemma NoneDistinct()
    ensures Distinct([])
  {
  }

  lemma FrontDistinct(ts: seq<Dataset>, n: nat)
    requires Distinct(ts) && n <= |ts|
    ensures Distinct(ts[..n])
  {
  }

  lemma MarkMore(d: Dataset, ts: seq<Dataset>, n: nat, m: Dataset)
    requires n < |ts|
    ensures MarkOf(d, ts[..n], m) ==> MarkOf(d, ts, m)
    ensures ts[n].origin.Some? && m == Marked(d, ts[n]) ==> MarkOf(d, ts, m)
  {
    hide Hit;
    if MarkOf(d, ts[..n], m) {
      var t :| t in ts[..n] && t.origin.Some? && m == Marked(d, t);
      assert t in ts;
    }
  }

  /** One more marked struct, with a name none of the earlier ones has. */
  lemma FoundLast(d: Dataset, ts: seq<Dataset>, o: seq<Dataset>)
    requires ts != [] && Distinct(ts) && Distinct(o) && forall m | m in o :: MarkOf(d, ts[..|ts| - 1], m)
    ensures Distinct(o + (if ts[|ts| - 1].origin.Some? then [Marked(d, ts[|ts| - 1])] else []))
  {
    hide Hit;
    var n := |ts| - 1;
    forall i | 0 <= i < |o|
      ensures o[i].name != ts[n].name
    {
      assert o[i] in o;
      var t :| t in ts[..n] && t.origin.Some? && o[i] == Marked(d, t);
      var j :| 0 <= j < n && ts[j] == t;
    }
  }

  lemma {:induction false} OnceIfDistinct(s: seq<Dataset>, m: Dataset)
    requires Distinct(s)
    ensures multiset(s)[m] <= 1
    decreases |s|
  {
    if s != [] {
      var n := |s| - 1;
      OnceIfDistinct(s[..n], m);
      assert s == s[..n] + [s[n]];
      if m == s[n] {
        assert m !in s[..n];
      }
    }
  }

  lemma TwiceIfRepeated(s: seq<Dataset>, i: nat, j: nat)
    requires i < j < |s| && s[i] == s[j]
    ensures multiset(s)[s[i]] >= 2
  {
    assert s == s[..j] + [s[j]] + s[j + 1..];
    assert s[i] in s[..j];
  }

  lemma SameNameSame(s: seq<Dataset>, a: Dataset, b: Dataset)
    requires Distinct(s) && a in s && b in s && a.name == b.name
    ensures a == b
  {
  }

  lemma PermutationDistinct(s: seq<Dataset>, t: seq<Dataset>)
    requires Distinct(s) && multiset(s) == multiset(t)
    ensures Distinct(t)
  {
    forall i, j | 0 <= i < j < |t|
      ensures t[i].name != t[j].name
    {
      if t[i].name == t[j].name {
        assert t[i] in multiset(t) && t[j] in multiset(t);
        SameNameSame(s, t[i], t[j]);
        TwiceIfRepeated(t, i, j);
        OnceIfDistinct(s, t[i]);
      }
    }
  }

  /** The keys a found struct is sorted by are the ages of its origin and of itself. */
  lemma KeysAreAges(p: Pool, d: Dataset, m: Dataset)
    requires m.name.Fs? && Keyed(m) && m.origin.Some? && m.name.path in p.fs && m.origin == OriginName(p, m.name.path)
    requires m.originTxg == Hit(d, m.origin.value) && m.createTxg == Format(p.fs[m.name.path].txg)
    ensures OriginKey(m) == OriginAge(p, d, m.name.path) && OwnKey(m) == OwnAge(p, m.name.path)
  {
    hide ParseInt, Hit;
    ParseFormat(p.fs[m.name.path].txg);
  }

  lemma HitIsDated(d: Dataset, o: Name)
    requires Shaped(d) && Hit(d, o).Some?
    ensures ParseInt(Hit(d, o).value).Some?
  {
    hide ParseInt;
    if !(d.name.Snap? && o == d.name) {
      FirstSnapIs(d.kids, o);
      assert forall k | k in d.kids :: Shaped(k);
    }
  }

  /** Everything the search collects can be sorted: `Less` will not panic. */
  lemma FoundAreKeyed(d: Dataset, ts: seq<Dataset>)
    requires Shaped(d) && forall t | t in ts :: Shaped(t) && Open(d, t)
    ensures AllKeyed(Found(d, ts))
  {
    hide ParseInt, Hit;
    FoundAre(d, ts);
    forall m | m in Found(d, ts)
      ensures Keyed(m)
    {
      var t :| t in ts && t.origin.Some? && m == Marked(d, t);
      HitIsDated(d, t.origin.value);
    }
  }

  /** What a collected struct says about the pool. */
  ghost predicate Faithful(p: Pool, d: Dataset, m: Dataset) {
    && Keyed(m)
    && Listed(p, d, m.name)
    && OriginKey(m) == OriginAge(p, d, m.name.path)
    && OwnKey(m) == OwnAge(p, m.name.path)
  }

  lemma ExpandIsNotRoot(d: Dataset, root: Dataset, seen: seq<Dataset>, t: Dataset)
    requires Finished(d, root, seen) && t in Expand(d, seen) && Distinct(seen)
    ensures t != root
  {
    hide Expand, Open, Shaped;
    var i :| 0 <= i < |Expand(d, seen)| && Expand(d, seen)[i] == t;
    assert seen[i + 1] == t && seen[0] == root;
    assert seen[0].name != seen[i + 1].name;
  }

  lemma FoundIsFaithful(p: Pool, d: Dataset, root: Dataset, seen: seq<Dataset>, m: Dataset)
    requires WF(p) && Reflects(p, root) && root.name == Fs([p.name]) && Finished(d, root, seen)
    requires Distinct(seen) && m in Found(d, Expand(d, seen)) && Keyed(m)
    ensures Faithful(p, d, m)
  {
    hide ParseInt, Hit, Expand, Shaped, WF, Visible, OriginName, ListsChildren;
    FoundAre(d, Expand(d, seen));
    var t :| t in Expand(d, seen) && t.origin.Some? && m == Marked(d, t);
    assert t in seen;
    VisitedIsVisible(p, d, root, seen, t);
    ExpandIsNotRoot(d, root, seen, t);
    KeysAreAges(p, d, m);
  }

  lemma ListedIsFound(p: Pool, d: Dataset, root: Dataset, seen: seq<Dataset>, n: Name)
    requires WF(p) && Reflects(p, root) && root.name == Fs([p.name]) && Finished(d, root, seen)
    requires Listed(p, d, n)
    ensures exists m | m in Found(d, Expand(d, seen)) :: m.name == n
  {
    hide ParseInt, Hit, Expand, Shaped, WF, OriginName, ListsChildren;
    var v := VisibleIsVisited(p, d, root, seen, n.path);
    VisitedIsVisible(p, d, root, seen, v);
    FoundAre(d, Expand(d, seen));
    assert Marked(d, v) in Found(d, Expand(d, seen));
  }

  /** The sorted collection, by name, is the list of visible clones, youngest first. */
  lemma SortedIsCloneList(p: Pool, d: Dataset, found: seq<Dataset>, sorted: seq<Dataset>, clones: seq<Name>)
    requires Distinct(found) && multiset(found) == multiset(sorted) && AllKeyed(sorted) && Descending(sorted)
    requires forall m | m in found :: Faithful(p, d, m)
    requires forall n | Listed(p, d, n) :: exists m | m in found :: m.name == n
    requires |clones| == |sorted| && forall i | 0 <= i < |clones| :: clones[i] == sorted[i].name
    ensures IsCloneList(p, d, clones)
  {
    hide Listed, OriginAge, OwnAge, OriginKey, OwnKey, Keyed;
    PermutationDistinct(found, sorted);
    forall m | m in sorted
      ensures Faithful(p, d, m)
    {
      assert m in multiset(sorted);
    }
    forall n | Listed(p, d, n)
      ensures n in clones
    {
      var m :| m in found && m.name == n;
      assert m in multiset(sorted);
      var i :| 0 <= i < |sorted| && sorted[i] == m;
      assert clones[i] == n;
    }
    forall i, j | 0 <= i < j < |clones|
      ensures clones[i] != clones[j] && NoOlder(p, d, clones[i].path, clones[j].path)
    {
      assert Faithful(p, d, sorted[i]) && Faithful(p, d, sorted[j]);
      assert AtLeast(sorted[i], sorted[j]);
    }
    forall n | n in clones
      ensures Listed(p, d, n)
    {
      var i :| 0 <= i < |clones| && clones[i] == n;
      assert Faithful(p, d, sorted[i]);
    }
  }

  /** Everything below the pool's root the search can see. */
  ghost function VisibleNames(p: Pool, d: Dataset): set<Name> {
    VisibleFs(p, d) + VisibleSnaps(p, d)
  }

  ghost function VisibleFs(p: Pool, d: Dataset): set<Name> {
    set f | f in p.fs && |f| > 1 && Visible(p, d, f) :: Fs(f)
  }

  ghost function VisibleSnaps(p: Pool, d: Dataset): set<Name> {
    set g | g in p.snaps && Visible(p, d, p.snaps[g].owner) :: Snap(p.snaps[g].owner, p.snaps[g].name)
  }

  lemma {:induction false} DistinctCount(s: seq<Dataset>, names: set<Name>)
    requires Distinct(s) && forall t | t in s :: t.name in names
    ensures |s| <= |names|
    decreases |s|
  {
    if s != [] {
      var n := |s| - 1;
      assert forall t | t in s[..n] :: t in s && t.name != s[n].name;
      DistinctCount(s[..n], names - {s[n].name});
    }
  }

  /** The channel fills up only if more than its capacity of names is visible. */
  lemma FrontierIsVisible(p: Pool, d: Dataset, root: Dataset, pulled: seq<Dataset>, queue: seq<Dataset>)
    requires WF(p) && Reflects(p, root) && root.name == Fs([p.name])
    requires Frontier(d, root, pulled, queue) && pulled != []
    ensures |queue| <= |VisibleNames(p, d)|
  {
    hide WF, Visible, Reflects, Expand, Shaped, LevelByLevel;
    var s := pulled + queue;
    FrontierIsTraced(d, root, pulled, queue);
    assert s[0] == root;
    forall t | t in queue
      ensures t.name in VisibleNames(p, d)
    {
      var i :| 0 <= i < |queue| && queue[i] == t;
      assert s[|pulled| + i] == t && s[0].name != s[|pulled| + i].name;
      VisitedIsVisible(p, d, root, s, t);
      ReflectsExists(p, t);
    }
    forall i, j | 0 <= i < j < |queue|
      ensures queue[i].name != queue[j].name
    {
      assert s[|pulled| + i].name != s[|pulled| + j].name;
    }
    DistinctCount(queue, VisibleNames(p, d));
  }

  lemma ReflectsExists(p: Pool, t: Dataset)
    requires Reflects(p, t)
    ensures Exists(p, t.name)
  {
  }

  // ----- the method -----

  /** How a call ends: normally, with an error, or never, because the goroutine waits forever on
      a full channel only it reads from. */
  datatype Outcome = Ok | Err | Blocked

  lemma RootIsPool(p: Pool, n: Name)
    requires WF(p) && n.path != [] && PoolName(n).Fs? && Exists(p, PoolName(n))
    ensures PoolName(n) == Fs([p.name])
  {
  }

  lemma FinishedFrontier(d: Dataset, root: Dataset, seen: seq<Dataset>)
    requires Frontier(d, root, seen, [])
    ensures Finished(d, root, seen) && Distinct(seen)
  {
    hide Expand, Open, Shaped, LevelByLevel;
    FrontierIsTraced(d, root, seen, []);
    assert seen + [] == seen;
  }

  /** The collected structs can be sorted. */
  lemma CollectedAreKeyed(d: Dataset, root: Dataset, seen: seq<Dataset>)
    requires Shaped(d) && Finished(d, root, seen)
    ensures AllKeyed(Found(d, Expand(d, seen)))
  {
    hide Shaped, Open, Expand;
    ExpandIs(d, seen);
    FoundAreKeyed(d, Expand(d, seen));
  }

  /** The sorted collection of a finished search over the true tree is the clone list. */
  lemma CollectedIsCloneList(p: Pool, d: Dataset, root: Dataset, seen: seq<Dataset>, sorted: seq<Dataset>,
                             clones: seq<Name>)
    requires WF(p) && Reflects(p, root) && root.name == Fs([p.name])
    requires Finished(d, root, seen) && Distinct(seen)
    requires multiset(Found(d, Expand(d, seen))) == multiset(sorted) && AllKeyed(sorted) && Descending(sorted)
    requires |clones| == |sorted| && forall i | 0 <= i < |clones| :: clones[i] == sorted[i].name
    ensures IsCloneList(p, d, clones)
  {
    hide WF, Reflects, Finished, Expand, Keyed, AtLeast, Listed, Faithful, IsCloneList;
    var found := Found(d, Expand(d, seen));
    ExpandDistinct(d, root, seen);
    FoundAre(d, Expand(d, seen));
    forall m | m in found
      ensures Faithful(p, d, m)
    {
      assert m in multiset(sorted);
      FoundIsFaithful(p, d, root, seen, m);
    }
    forall n | Listed(p, d, n)
      ensures exists m | m in found :: m.name == n
    {
      ListedIsFound(p, d, root, seen, n);
    }
    SortedIsCloneList(p, d, found, sorted, clones);
  }

  lemma ExpandDistinct(d: Dataset, root: Dataset, seen: seq<Dataset>)
    requires Finished(d, root, seen) && Distinct(seen)
    ensures Distinct(Expand(d, seen))
  {
    hide Expand, Traced;
    var e := Expand(d, seen);
    forall i, j | 0 <= i < j < |e|
      ensures e[i].name != e[j].name
    {
      assert seen[i + 1] == e[i] && seen[j + 1] == e[j];
    }
  }

  /** `sort.Sort` on the collected structs, and their names. */
  method SortedNames(found: seq<Dataset>) returns (clones: seq<Name>, ghost sorted: seq<Dataset>)
    requires AllKeyed(found)
    ensures multiset(found) == multiset(sorted) && AllKeyed(sorted) && Descending(sorted)
    ensures |clones| == |sorted| && forall i | 0 <= i < |clones| :: clones[i] == sorted[i].name
    ensures |clones| == |found|
  {
    hide Keyed, AtLeast;
    var a := new Dataset[|found|](i requires 0 <= i < |found| => found[i]);
    assert a[..] == found;
    Sort(a);
    clones := [];
    for i := 0 to a.Length
      invariant |clones| == i && forall j | 0 <= j < i :: clones[j] == a[j].name
    {
      clones := clones + [a[i].name];
    }
    sorted := a[..];
    assert |multiset(found)| == |multiset(sorted)|;
  }

  /** `Clones`: the datasets cloned from this dataset or snapshot. */
  method Clones(z: Zfs, d: Dataset) returns (clones: seq<Name>, res: Outcome, ghost root: Dataset)
    requires z.Valid() && Shaped(d) && d.name.path != []
    modifies z`faults
    ensures res == Ok && old(z.Steady()) && PoolName(d.name).Fs? ==> IsCloneList(z.pool, d, clones)
    ensures res == Ok && PoolName(d.name).Snap? ==> clones == []
    ensures res == Blocked && old(z.Steady()) && PoolName(d.name).Fs? ==> |VisibleNames(z.pool, d)| > QUEUE_CAP
    ensures res == Blocked ==> PoolName(d.name).Fs?
    ensures res != Err ==> root.name == PoolName(d.name) && (old(z.Steady()) ==> Reflects(z.pool, root))
    ensures res != Err ==> (res == Blocked <==> Overfull(d, root))
    ensures old(z.Steady()) ==> z.Steady()
    ensures old(z.Calm()) ==> z.Calm() && (res != Err <==> Exists(z.pool, PoolName(d.name)))
  {
    hide WF, Reflects, Shaped, Opened, IsCloneList, VisibleNames, Frontier, Found, Expand, Exists, History;
    clones := [];
    var tree, ok := DatasetOpen(z, PoolName(d.name));
    root := tree;
    if !ok {
      res := Err;
      return;
    }
    z.PoolIsWF();
    HandlesAllocated(tree);
    if PoolName(d.name).Fs? {
      RootIsPool(z.pool, d.name);
    } else {
      SnapHasNoKids(root);
    }
    var found, blocked, seen, frontier := Search(d, tree);
    if blocked {
      if old(z.Steady()) && PoolName(d.name).Fs? {
        FrontierIsVisible(z.pool, d, root, seen, frontier);
      }
      res := Blocked;
      return;
    }
    FinishedFrontier(d, root, seen);
    CollectedAreKeyed(d, root, seen);
    ghost var sorted;
    clones, sorted := SortedNames(found);
    if old(z.Steady()) && PoolName(d.name).Fs? {
      CollectedIsCloneList(z.pool, d, root, seen, sorted, clones);
    }
    tree := CloseTree(tree);
    res := Ok;
  }

  lemma ParentIsFs(t: Dataset, k: Dataset)
    requires Shaped(t) && k in t.kids
    ensures t.name.Fs?
  {
    hide ParseInt;
  }

  lemma SnapHasNoKids(t: Dataset)
    requires Shaped(t) && t.name.Snap?
    ensures t.kids == []
  {
    hide ParseInt, ChildName, Shaped;
    if t.kids != [] {
      ParentIsFs(t, t.kids[0]);
    }
  }

  /** `Close` of a tree this call opened. */
  method CloseTree(d: Dataset) returns (d': Dataset)
    requires Opened(d)
    modifies Repr(d)
    ensures d' == d.(list := null)
    ensures forall o | o in Onces(d) :: o.Guards() && o.done
  {
    d' := Close(d, Onces(d));
  }
}
