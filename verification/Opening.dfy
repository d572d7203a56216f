/** Opening dataset trees: from iterated handles to the Go structs with their properties. */
module Opening {
  import opened Pools
  import opened Decimal
  import opened Handles
  import opened HandleLists
  import opened Trees
  import opened Backend

  /** The filesystems an iteration below `n` can still descend into. */
  ghost function Room(p: Pool, n: Name): nat {
    match n
    case Fs(x) => |Sub(p, x)|
    case Snap(_, _) => 0
  }

  lemma RoomShrinks(p: Pool, n: Name, m: Name)
    requires Exists(p, n) && m in ChildNames(p, n)
    ensures Room(p, m) < Room(p, n)
  {
    assert n.path in Sub(p, n.path);
    if m.Fs? {
      assert Sub(p, m.path) <= Sub(p, n.path) - {n.path};
      SubsetSize(Sub(p, m.path), Sub(p, n.path) - {n.path});
    } else {
      SubsetSize({n.path}, Sub(p, n.path));
    }
  }

  lemma {:induction false} SubsetSize<T>(a: set<T>, b: set<T>)
    requires a <= b
    ensures |a| <= |b|
    decreases a
  {
    if a != {} {
      var x :| x in a;
      SubsetSize(a - {x}, b - {x});
    }
  }

  /** `ReloadProperties` of a struct just opened on `list`. */
  method Load(p: Pool, n: Name, list: Node, once: Once) returns (d: Dataset)
    requires NamesUnique(p) && Exists(p, n)
    ensures Cached(p, d) && d.name == n && d.list == list && d.closeOnce == once && d.kids == []
  {
    match n
    case Fs(x) =>
      d := Dataset(list, once, n, OriginName(p, x), Format(p.fs[x].txg), None, []);
    case Snap(x, s) =>
      var g :| g in p.snaps && IsSnap(p, x, s, g);
      d := Dataset(list, once, n, None, Format(p.snaps[g].txg), None, []);
  }

  /** A tree just opened: live, and its guards guard its nodes. */
  ghost predicate Opened(d: Dataset)
    reads Onces(d), NodesOf(Onces(d))
  {
    Live(d) && AllGuard(Onces(d))
  }

  /** `order` reports members of `names`, none of them twice. */
  ghost predicate ReportsOnly(order: seq<Name>, names: set<Name>) {
    (forall m | m in order :: m in names) && forall i, j | 0 <= i < j < |order| :: order[i] != order[j]
  }

  /** `order` reports every member of `names` exactly once. */
  ghost predicate Reports(order: seq<Name>, names: set<Name>) {
    ReportsOnly(order, names) && forall m | m in names :: m in order
  }

  /** `zfs_iter_children`: reports the children in some order, or fails after some of them. */
  method IterChildren(z: Zfs, n: Name) returns (order: seq<Name>, fails: bool)
    requires z.Valid()
    modifies z`faults
    ensures old(z.Steady()) ==> z.Steady() && !fails
    ensures old(z.Calm()) ==> z.Calm()
    ensures ReportsOnly(order, ChildNames(z.pool, n)) && (!fails ==> Reports(order, ChildNames(z.pool, n)))
  {
    hide ChildNames;
    var f := z.Next();
    order, fails := [], f.Cut?;
    var todo := ChildNames(z.pool, n);
    ghost var all := todo;
    while todo != {} && !(fails && |order| == f.reported)
      invariant todo <= all && Reports(order, all - todo)
    {
      var m :| m in todo;
      order := order + [m];
      todo := todo - {m};
    }
    assert !fails ==> all - todo == all;
  }

  /** One struct of a list walk, with its own `sync.Once` and its properties loaded. */
  method Wrap(p: Pool, l: Node) returns (d: Dataset)
    requires NamesUnique(p) && l.zh.Some? && Exists(p, l.zh.value) && l.frees == 0
    modifies l`once
    ensures d.name == l.zh.value && d.list == l && d.kids == [] && Cached(p, d)
    ensures fresh(d.closeOnce) && Opened(d)
  {
    hide Cached;
    var once := new Once(l);
    l.once := once;
    d := Load(p, l.zh.value, l, once);
  }

  ghost predicate Wrapped(p: Pool, d: Dataset, n: Node, m: Name)
    reads Onces(d), NodesOf(Onces(d))
  {
    d.name == m && d.list == n && d.kids == [] && Cached(p, d) && Opened(d)
  }

  lemma WrappedRepr(p: Pool, d: Dataset, n: Node, m: Name)
    requires Wrapped(p, d, n, m)
    ensures d.closeOnce != null && Repr(d) == {d.closeOnce, n}
  {
    hide Cached;
  }

  lemma WrappedOnce(p: Pool, d: Dataset, n: Node, m: Name)
    requires Wrapped(p, d, n, m)
    ensures d.closeOnce != null && Onces(d) == {d.closeOnce} && d.closeOnce.node == n
  {
    hide Cached;
  }

  /** The Go walk of a C list: one struct per node, in list order. */
  method Walk(p: Pool, list: Node?, ghost chain: seq<Node>, ghost names: seq<Name>) returns (kids: seq<Dataset>)
    requires NamesUnique(p) && forall n | n in names :: Exists(p, n)
    requires Chained(chain) && Carries(chain, names) && list == (if chain == [] then null else chain[0])
    modifies chain
    ensures |kids| == |names|
    ensures forall i | 0 <= i < |kids| :: fresh(kids[i].closeOnce) && Wrapped(p, kids[i], chain[i], names[i])
  {
    hide Cached, Opened;
    kids := [];
    var l := list;
    while l != null
      invariant |kids| <= |chain| && Chained(chain)
      invariant l == (if |kids| < |chain| then chain[|kids|] else null)
      invariant forall j | |kids| <= j < |chain| :: chain[j].zh == Some(names[j]) && chain[j].frees == 0
      invariant forall j | 0 <= j < |kids| :: fresh(kids[j].closeOnce) && Wrapped(p, kids[j], chain[j], names[j])
      decreases |chain| - |kids|
    {
      assert l.pnext == NextIn(chain, |kids|);
      forall j | 0 <= j < |kids|
        ensures Repr(kids[j]) == {kids[j].closeOnce, chain[j]}
      {
        WrappedRepr(p, kids[j], chain[j], names[j]);
      }
      var d := Wrap(p, l);
      kids := kids + [d];
      l := l.pnext;
    }
  }

  lemma ReversedReports(order: seq<Name>, names: set<Name>)
    requires Reports(order, names)
    ensures Reports(Reversed(order), names)
  {
    var n, r := |order|, Reversed(order);
    forall m | m in names
      ensures m in r
    {
      var i :| 0 <= i < n && order[i] == m;
      assert r[n - 1 - i] == m;
    }
    forall m | m in r
      ensures m in names
    {
      var i :| 0 <= i < n && r[i] == m;
      assert order[n - 1 - i] == m;
    }
    forall i, j | 0 <= i < j < n
      ensures r[i] != r[j]
    {
      assert order[n - 1 - j] != order[n - 1 - i];
    }
  }

  lemma WalkedAll(p: Pool, d: Dataset, names: seq<Name>)
    requires |d.kids| == |names| && forall i | 0 <= i < |names| :: d.kids[i].name == names[i]
    requires Reports(names, ChildNames(p, d.name))
    ensures ListsChildren(p, d)
  {
    hide ChildNames;
    assert Distinct(d.kids);
    forall m | m in ChildNames(p, d.name)
      ensures m in KidNames(d.kids)
    {
      var i :| 0 <= i < |names| && names[i] == m;
      assert d.kids[i] in d.kids && d.kids[i].name == m;
    }
    forall m | m in KidNames(d.kids)
      ensures m in ChildNames(p, d.name)
    {
      var i :| 0 <= i < |d.kids| && d.kids[i].name == m;
      assert names[i] in names;
    }
  }

  lemma ChildrenExist(p: Pool, n: Name)
    ensures forall m | m in ChildNames(p, n) :: Exists(p, m) && ChildName(n, m)
  {
  }

  lemma WrappedFacts(p: Pool, d: Dataset, n: Node, m: Name)
    requires Wrapped(p, d, n, m)
    ensures d.name == m && d.kids == [] && Opened(d) && Cached(p, d)
  {
    hide Opened, Cached;
  }

  /** What the walk of a list of children yields: each reported child once, with its own handle. */
  lemma WalkedApart(p: Pool, kids: seq<Dataset>, chain: seq<Node>, names: seq<Name>)
    requires |kids| == |names| == |chain|
    requires forall i, j | 0 <= i < j < |names| :: names[i] != names[j]
    requires forall i, j | 0 <= i < j < |chain| :: chain[i] != chain[j]
    requires forall i | 0 <= i < |kids| :: Wrapped(p, kids[i], chain[i], names[i])
    ensures Distinct(kids)
    ensures forall i, j | 0 <= i < j < |kids| :: Onces(kids[i]) !! Onces(kids[j])
  {
    hide Wrapped, Onces;
    forall i, j | 0 <= i < j < |kids|
      ensures Onces(kids[i]) !! Onces(kids[j]) && kids[i].name != kids[j].name
    {
      WrappedOnce(p, kids[i], chain[i], names[i]);
      WrappedOnce(p, kids[j], chain[j], names[j]);
      WrappedFacts(p, kids[i], chain[i], names[i]);
      WrappedFacts(p, kids[j], chain[j], names[j]);
    }
  }

  lemma WalkedEach(p: Pool, kids: seq<Dataset>, chain: seq<Node>, names: seq<Name>)
    requires |kids| == |names| == |chain|
    requires forall i | 0 <= i < |kids| :: Wrapped(p, kids[i], chain[i], names[i])
    ensures forall i | 0 <= i < |kids| :: kids[i].name == names[i]
    ensures forall k | k in kids :: k.name in names && Opened(k) && k.kids == [] && Cached(p, k) && k.closeOnce != null
    ensures forall i | 0 <= i < |kids| :: Repr(kids[i]) == {kids[i].closeOnce, chain[i]}
  {
    hide Wrapped, Opened, Cached, Repr;
    forall i | 0 <= i < |kids|
      ensures kids[i].name == names[i] && Opened(kids[i]) && kids[i].kids == [] && Cached(p, kids[i])
      ensures kids[i].closeOnce != null && Repr(kids[i]) == {kids[i].closeOnce, chain[i]}
    {
      WrappedFacts(p, kids[i], chain[i], names[i]);
      WrappedRepr(p, kids[i], chain[i], names[i]);
    }
  }

  /** The walk, with what it yields. */
  method WalkList(p: Pool, list: Node?, ghost chain: seq<Node>, ghost names: seq<Name>) returns (kids: seq<Dataset>)
    requires NamesUnique(p) && (forall n | n in names :: Exists(p, n))
    requires forall i, j | 0 <= i < j < |names| :: names[i] != names[j]
    requires Chained(chain) && Carries(chain, names) && list == (if chain == [] then null else chain[0])
    modifies chain
    ensures |kids| == |names| && Distinct(kids) && forall i | 0 <= i < |kids| :: kids[i].name == names[i]
    ensures forall i, j | 0 <= i < j < |kids| :: Onces(kids[i]) !! Onces(kids[j])
    ensures forall k | k in kids :: k.name in names && Opened(k) && k.kids == [] && Cached(p, k)
    ensures forall k, o | k in kids && o in Repr(k) :: fresh(o) || o in chain
  {
    hide Opened, Cached, Onces, Repr, Exists, NamesUnique, Wrapped, NodesOf, Distinct;
    assert forall i, j | 0 <= i < j < |chain| :: chain[i] != chain[j];
    kids := Walk(p, list, chain, names);
    WalkedApart(p, kids, chain, names);
    WalkedEach(p, kids, chain, names);
  }

  lemma ReversedIn(order: seq<Name>)
    ensures forall n | n in Reversed(order) :: n in order
  {
    forall n | n in Reversed(order)
      ensures n in order
    {
      var i :| 0 <= i < |order| && Reversed(order)[i] == n;
      assert order[|order| - 1 - i] == n;
    }
  }

  lemma ReportedExist(p: Pool, n: Name, order: seq<Name>)
    requires ReportsOnly(order, ChildNames(p, n))
    ensures forall m | m in order :: m in ChildNames(p, n) && Exists(p, m)
    ensures forall i, j | 0 <= i < j < |order| :: order[i] != order[j]
  {
    hide ChildNames, Exists;
    ChildrenExist(p, n);
  }

  /** The list of children of `d`, walked into structs. */
  method ListChildren(z: Zfs, d: Dataset) returns (kids: seq<Dataset>)
    requires z.Valid() && Exists(z.pool, d.name)
    modifies z`faults
    ensures old(z.Steady()) ==> z.Steady() && ListsChildren(z.pool, d.(kids := kids))
    ensures old(z.Calm()) ==> z.Calm()
    ensures Distinct(kids) && forall k | k in kids :: k.name in ChildNames(z.pool, d.name)
    ensures forall k | k in kids :: fresh(Repr(k)) && Opened(k) && k.kids == [] && Cached(z.pool, k)
    ensures forall i, j | 0 <= i < j < |kids| :: Onces(kids[i]) !! Onces(kids[j])
  {
    hide Opened, Live, ChildNames, Cached, ListsChildren, Exists, Onces, NodesOf, Repr, History, ChildName, Wired;
    hide AllGuard, Wrapped, Reports, Reversed, Distinct, Chained, Carries;
    z.PoolIsWF();
    WFNames(z.pool);
    var order, fails := IterChildren(z, d.name);
    ReportedExist(z.pool, d.name, order);
    var list, nodes := ListAll(order, fails);
    ghost var chain := if list == null then [] else nodes;
    assert forall n: object | n in chain :: fresh(n);
    ghost var names := if list == null then [] else Reversed(order);
    NoChain();
    ReversedIn(order);
    ReversedApart(order);
    kids := WalkList(z.pool, list, chain, names);
    forall k | k in kids
      ensures fresh(Repr(k))
    {
      forall o | o in Repr(k)
        ensures fresh(o)
      {
        assert o in chain || o !in chain;
      }
    }
    if !fails {
      ReversedReports(order, ChildNames(z.pool, d.name));
      WalkedAll(z.pool, d.(kids := kids), names);
    }
  }

  lemma ReversedApart(order: seq<Name>)
    requires forall i, j | 0 <= i < j < |order| :: order[i] != order[j]
    ensures forall i, j | 0 <= i < j < |order| :: Reversed(order)[i] != Reversed(order)[j]
  {
    forall i, j | 0 <= i < j < |order|
      ensures Reversed(order)[i] != Reversed(order)[j]
    {
      assert order[|order| - 1 - j] != order[|order| - 1 - i];
    }
  }

  /** A struct whose children were opened is an opened tree. */
  lemma OpenedWith(k: Dataset, k': Dataset)
    requires Opened(k) && k.kids == [] && k' == k.(kids := k'.kids)
    requires forall c | c in k'.kids :: Opened(c)
    ensures Opened(k') && Repr(k) <= Repr(k')
    ensures forall o | o in Repr(k') :: o in Repr(k) || exists c | c in k'.kids :: o in Repr(c)
  {
  }

  lemma CachedWith(p: Pool, k: Dataset, k': Dataset)
    requires Cached(p, k) && k' == k.(kids := k'.kids)
    ensures Cached(p, k')
  {
  }

  /** `k` is `k0` with its children opened. */
  ghost predicate Grown(p: Pool, k0: Dataset, k: Dataset, steady: bool)
    reads Onces(k), NodesOf(Onces(k))
  {
    && k == k0.(kids := k.kids)
    && Opened(k)
    && Shaped(k)
    && (steady ==> Reflects(p, k))
  }

  lemma GrownAnyway(p: Pool, k0: Dataset, k: Dataset, steady: bool, before: bool)
    requires Grown(p, k0, k, steady) && (before ==> steady)
    ensures Grown(p, k0, k, before)
  {
    hide Reflects, Shaped;
  }

  /** `openChildren`: the whole subtree below a struct that is open but has no children yet. */
  method OpenChildren(z: Zfs, d: Dataset) returns (d': Dataset)
    requires z.Valid() && Exists(z.pool, d.name) && Cached(z.pool, d) && d.kids == [] && Opened(d)
    modifies z`faults
    ensures Unshared(d')
    ensures Grown(z.pool, d, d', old(z.Steady())) && forall o | o in Repr(d') :: o in Repr(d) || fresh(o)
    ensures old(z.Steady()) ==> z.Steady()
    ensures old(z.Calm()) ==> z.Calm()
    decreases Room(z.pool, d.name), 1
  {
    hide Opened, ChildNames, Cached, ListsChildren, Exists, Onces, NodesOf, Repr, History, Distinct, Reflects, Shaped;
    hide Unshared;
    HandlesAllocated(d);
    var kids := ListChildren(z, d);
    KidsHaveRoom(z.pool, d.name, kids);
    var grown := OpenEach(z, kids, Room(z.pool, d.name));
    forall k, o | k in grown && o in Onces(k)
      ensures fresh(o)
    {
      var i :| 0 <= i < |grown| && grown[i] == k;
      OncesInRepr(k);
      assert kids[i] in kids;
    }
    forall k | k in grown
      ensures Unshared(k)
    {
      var i :| 0 <= i < |grown| && grown[i] == k;
    }
    d' := d.(kids := grown);
    UnsharedWith(d, grown);
    GrownWith(z.pool, d, kids, grown, old(z.Steady()));
  }

  lemma UnsharedWith(d: Dataset, grown: seq<Dataset>)
    requires forall k | k in grown :: Unshared(k) && Own(d) !! Onces(k)
    requires forall i, j | 0 <= i < j < |grown| :: Onces(grown[i]) !! Onces(grown[j])
    ensures Unshared(d.(kids := grown))
  {
    hide Onces;
  }

  /** The struct with its opened children is an opened tree, and a true one if they are. */
  lemma GrownWith(p: Pool, d: Dataset, kids: seq<Dataset>, grown: seq<Dataset>, steady: bool)
    requires Cached(p, d) && d.kids == [] && Opened(d)
    requires Distinct(kids) && forall k | k in kids :: k.name in ChildNames(p, d.name)
    requires |grown| == |kids| && forall i | 0 <= i < |kids| :: Grown(p, kids[i], grown[i], steady)
    requires steady ==> ListsChildren(p, d.(kids := kids))
    ensures Grown(p, d, d.(kids := grown), steady)
    ensures forall o | o in Repr(d.(kids := grown)) ::
      o in Repr(d) || exists i | 0 <= i < |grown| :: o in Repr(grown[i])
  {
    hide Opened, ChildNames, Cached, ListsChildren, ParseInt, ChildName, Onces, NodesOf, Repr;
    var d' := d.(kids := grown);
    ChildrenExist(p, d.name);
    forall k | k in grown
      ensures Opened(k) && Shaped(k) && ChildName(d.name, k.name) && (steady ==> Reflects(p, k))
    {
      var i :| 0 <= i < |grown| && grown[i] == k;
      assert kids[i] in kids;
    }
    OpenedWith(d, d');
    CachedWith(p, d, d');
    CachedIsDated(p, d);
    assert forall i | 0 <= i < |kids| :: grown[i].name == kids[i].name;
    if steady {
      SameNames(p, d.(kids := kids), d');
    }
  }

  lemma KidsHaveRoom(p: Pool, n: Name, kids: seq<Dataset>)
    requires Exists(p, n) && forall k | k in kids :: k.name in ChildNames(p, n)
    ensures forall k | k in kids :: Exists(p, k.name) && Room(p, k.name) < Room(p, n)
  {
    hide Room, ChildNames;
    ChildrenExist(p, n);
    forall k | k in kids
      ensures Room(p, k.name) < Room(p, n)
    {
      RoomShrinks(p, n, k.name);
    }
  }

  lemma OncesInRepr(k: Dataset)
    ensures forall o | o in Onces(k) :: o in Repr(k)
    ensures forall o: Once | o in Repr(k) :: o in Onces(k)
  {
  }

  /** The loop of `openChildren` over the children just listed. */
  method OpenEach(z: Zfs, kids: seq<Dataset>, ghost room: nat) returns (grown: seq<Dataset>)
    requires z.Valid()
    requires forall k | k in kids ::
      Opened(k) && k.kids == [] && Cached(z.pool, k) && Exists(z.pool, k.name) && Room(z.pool, k.name) < room
    requires forall i, j | 0 <= i < j < |kids| :: Onces(kids[i]) !! Onces(kids[j])
    modifies z`faults
    ensures |grown| == |kids| && forall i | 0 <= i < |kids| :: Grown(z.pool, kids[i], grown[i], old(z.Steady()))
    ensures forall i, o | 0 <= i < |kids| && o in Repr(grown[i]) :: o in Repr(kids[i]) || fresh(o)
    ensures forall i | 0 <= i < |kids| :: Unshared(grown[i])
    ensures forall i, j | 0 <= i < j < |kids| :: Onces(grown[i]) !! Onces(grown[j])
    ensures old(z.Steady()) ==> z.Steady()
    ensures old(z.Calm()) ==> z.Calm()
    decreases room, 0
  {
    hide Opened, ChildNames, Cached, Exists, Onces, NodesOf, Repr, Shaped, Reflects, Room, History, Grown, Unshared;
    grown := [];
    for i := 0 to |kids|
      invariant |grown| == i && z.Valid()
      invariant old(z.Steady()) ==> z.Steady()
      invariant old(z.Calm()) ==> z.Calm()
      invariant forall j | 0 <= j < i :: Grown(z.pool, kids[j], grown[j], old(z.Steady()))
      invariant forall j | i <= j < |kids| :: Opened(kids[j])
      invariant forall j, o | 0 <= j < i && o in Repr(grown[j]) :: o in Repr(kids[j]) || fresh(o)
      invariant forall j | 0 <= j < i :: Unshared(grown[j])
      invariant forall j, l | 0 <= j < l < i :: Onces(grown[j]) !! Onces(grown[l])
      invariant forall j, l | 0 <= j < i <= l < |kids| :: Onces(grown[j]) !! Onces(kids[l])
    {
      assert kids[i] in kids;
      forall j | 0 <= j < i {
        HandlesAllocated(grown[j]);
      }
      forall j | i <= j < |kids| {
        HandlesAllocated(kids[j]);
      }
      ghost var steady := z.Steady();
      var k := OpenChildren(z, kids[i]);
      GrownAnyway(z.pool, kids[i], k, steady, old(z.Steady()));
      OncesInRepr(k);
      OncesInRepr(kids[i]);
      grown := grown + [k];
    }
  }

  lemma SameNames(p: Pool, d: Dataset, e: Dataset)
    requires ListsChildren(p, d) && e.name == d.name && |e.kids| == |d.kids|
    requires forall i | 0 <= i < |d.kids| :: e.kids[i].name == d.kids[i].name
    ensures ListsChildren(p, e)
  {
    hide ChildNames;
    var names := seq(|d.kids|, i requires 0 <= i < |d.kids| => d.kids[i].name);
    forall m | m in ChildNames(p, d.name)
      ensures m in names
    {
      assert m in KidNames(d.kids);
      var i :| 0 <= i < |d.kids| && d.kids[i].name == m;
      assert names[i] == m;
    }
    forall m | m in names
      ensures m in ChildNames(p, d.name)
    {
      var i :| 0 <= i < |names| && names[i] == m;
      assert d.kids[i] in d.kids && m in KidNames(d.kids);
    }
    WalkedAll(p, e, names);
  }

  /** `DatasetOpenSingle`: a struct for one existing dataset, without children. */
  method DatasetOpenSingle(z: Zfs, n: Name) returns (d: Dataset, ok: bool)
    requires z.Valid()
    modifies z`faults
    ensures ok ==> Exists(z.pool, n) && d.name == n && d.kids == []
    ensures ok ==> Cached(z.pool, d) && Opened(d) && fresh(Repr(d))
    ensures !ok ==> d.list == null && d.closeOnce == null && d.kids == []
    ensures old(z.Steady()) ==> z.Steady()
    ensures old(z.Calm()) ==> z.Calm() && ok == Exists(z.pool, n)
  {
    hide Cached;
    var f := z.Next();
    ok := f == Clean && Exists(z.pool, n);
    if ok {
      z.PoolIsWF();
      var list := new Node();
      list.zh := Some(n);
      d := Wrap(z.pool, list);
    } else {
      d := Dataset(null, null, n, None, "", None, []);
    }
  }

  /** `DatasetOpen`: a struct and the whole subtree below it. */
  method DatasetOpen(z: Zfs, n: Name) returns (d: Dataset, ok: bool)
    requires z.Valid()
    modifies z`faults
    ensures ok ==> Exists(z.pool, n) && d.name == n && Shaped(d) && Opened(d) && Unshared(d) && fresh(Repr(d))
    ensures !ok ==> d.list == null && d.closeOnce == null && d.kids == []
    ensures old(z.Steady()) ==> z.Steady() && (ok ==> Reflects(z.pool, d))
    ensures old(z.Calm()) ==> z.Calm() && ok == Exists(z.pool, n)
  {
    hide Cached, Opened, Reflects, Shaped, Exists, History;
    d, ok := DatasetOpenSingle(z, n);
    if ok {
      d := OpenChildren(z, d);
    }
  }

  /** `dataset_list_root` with one pool imported: a failed iteration yields no list at all. */
  method ListRoots(z: Zfs) returns (list: Node?, ghost chain: seq<Node>, ghost names: seq<Name>)
    requires z.Valid()
    modifies z`faults
    ensures fresh(chain) && Chained(chain) && Carries(chain, names) && list == (if chain == [] then null else chain[0])
    ensures names == [Fs([z.pool.name])] || (names == [] && !old(z.Steady()))
    ensures old(z.Steady()) ==> z.Steady()
    ensures old(z.Calm()) ==> z.Calm()
  {
    var f := z.Next();
    var order := if f.Cut? && f.reported == 0 then [] else [Fs([z.pool.name])];
    list, chain := ListAll(order, f.Cut?);
    chain, names := if list == null then [] else chain, if list == null then [] else Reversed(order);
  }

  /** `DatasetOpenAll` with one pool imported. */
  method DatasetOpenAll(z: Zfs) returns (datasets: seq<Dataset>)
    requires z.Valid()
    modifies z`faults
    ensures forall d | d in datasets :: Opened(d) && Shaped(d) && Unshared(d) && d.name == Fs([z.pool.name])
    ensures forall d, o | d in datasets && o in Repr(d) :: fresh(o)
    ensures forall i, j | 0 <= i < j < |datasets| :: Onces(datasets[i]) !! Onces(datasets[j])
    ensures old(z.Steady()) ==> z.Steady() && |datasets| == 1 && Reflects(z.pool, datasets[0])
    ensures old(z.Calm()) ==> z.Calm()
  {
    hide WF, Opened, Cached, Reflects, Shaped, Unshared, Exists, History, Onces, Repr, Reversed, Chained, Carries;
    hide Room;
    z.PoolIsWF();
    WFNames(z.pool);
    RootExists(z.pool);
    var list, chain, names := ListRoots(z);
    var roots := WalkList(z.pool, list, chain, names);
    datasets := OpenEach(z, roots, Room(z.pool, Fs([z.pool.name])) + 1);
    forall d | d in datasets
      ensures Opened(d) && Shaped(d) && Unshared(d) && d.name == Fs([z.pool.name])
      ensures forall o | o in Repr(d) :: fresh(o)
    {
      var i :| 0 <= i < |datasets| && datasets[i] == d;
      assert roots[i] in roots;
      forall o | o in Repr(d)
        ensures fresh(o)
      {
        assert o in chain || o !in chain;
      }
    }
  }

  lemma RootExists(p: Pool)
    requires WF(p)
    ensures Exists(p, Fs([p.name]))
  {
  }

  /** `DatasetCloseAll`: closes copies of the structs, which share their guards with them. */
  method DatasetCloseAll(datasets: seq<Dataset>, ghost u: set<Once>)
    requires AllGuard(u) && forall d | d in datasets :: Wired(d) && Onces(d) <= u
    modifies u, NodesOf(u)
    ensures AllGuard(u) && forall o | o in u :: old(o.done) ==> o.done
    ensures forall d, o | d in datasets && o in Onces(d) :: o.done
  {
    hide Onces;
    for i := 0 to |datasets|
      invariant AllGuard(u) && forall o | o in u :: old(o.done) ==> o.done
      invariant forall j, o | 0 <= j < i && o in Onces(datasets[j]) :: o.done
    {
      var d := datasets[i];
      assert d in datasets;
      assert Wired(d);
      var _ := Close(d, u);
    }
  }
}
