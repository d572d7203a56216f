/** The order in which an opened tree lists the children of its datasets. */
module CachedOrders {
  import opened Pools
  import opened Decimal
  import opened Handles
  import opened Trees
  import opened Lookup
  import opened CloneLists
  import opened Promotion

  /** The order in which a struct lists its snapshots. */
  function SnapOrder(snaps: seq<Dataset>): (o: seq<string>)
    ensures |o| == |snaps|
  {
    seq(|snaps|, i requires 0 <= i < |snaps| => if snaps[i].name.Snap? then snaps[i].name.snap else "")
  }

  function KidOrder(ks: seq<Dataset>): (o: seq<Name>)
    ensures |o| == |ks|
  {
    seq(|ks|, i requires 0 <= i < |ks| => ks[i].name)
  }

  /** The snapshots among the children come in the same order. */
  lemma {:induction false} SnapsInOrder(ks: seq<Dataset>)
    ensures SnapsIn(KidOrder(ks)) == SnapOrder(SnapKids(ks))
    decreases |ks|
  {
    if ks != [] {
      var n := |ks| - 1;
      assert KidOrder(ks)[..n] == KidOrder(ks[..n]);
      SnapsInOrder(ks[..n]);
    }
  }

  /** `ord` gives, for every filesystem of the tree, the order of its children. */
  ghost predicate Ordered(d: Dataset, ord: Orders) {
    && (d.name.Fs? ==> d.name.path in ord && ord[d.name.path] == KidOrder(d.kids))
    && forall k | k in d.kids :: Ordered(k, ord)
  }

  function OrdersIn(d: Dataset): Orders
    decreases d, 1
  {
    if d.name.Fs? then OrdersBelow(d.kids)[d.name.path := KidOrder(d.kids)] else map[]
  }

  function OrdersBelow(ks: seq<Dataset>): Orders
    decreases ks, 0
  {
    if ks == [] then map[]
    else
      var n := |ks| - 1;
      OrdersBelow(ks[..n]) + OrdersIn(ks[n])
  }

  ghost predicate Agree(ord: Orders, ord': Orders, x: Path) {
    forall e | x <= e && e in ord :: e in ord' && ord'[e] == ord[e]
  }

  lemma {:induction false} OrderedStill(d: Dataset, ord: Orders, ord': Orders)
    requires Shaped(d) && Ordered(d, ord) && Agree(ord, ord', d.name.path)
    ensures Ordered(d, ord')
    decreases d
  {
    hide ParseInt, KidOrder;
    forall k | k in d.kids
      ensures Ordered(k, ord')
    {
      assert ChildName(d.name, k.name);
      forall e | k.name.path <= e && e in ord
        ensures e in ord' && ord'[e] == ord[e]
      {
        assert d.name.path <= e;
      }
      OrderedStill(k, ord, ord');
    }
  }

  lemma OrdersInIs(d: Dataset)
    ensures d.name.Fs? ==> OrdersIn(d) == OrdersBelow(d.kids)[d.name.path := KidOrder(d.kids)]
    ensures d.name.Snap? ==> OrdersIn(d) == map[]
  {
  }

  lemma OrdersBelowIs(front: seq<Dataset>, last: Dataset)
    ensures OrdersBelow([]) == map[]
    ensures OrdersBelow(front + [last]) == OrdersBelow(front) + OrdersIn(last)
  {
    assert (front + [last])[..|front|] == front;
  }

  lemma SnapOrdered(d: Dataset, ord: Orders)
    requires Shaped(d) && d.name.Snap?
    ensures Ordered(d, ord) && d.kids == []
  {
    SnapHasNoKids(d);
  }

  /** Every opened tree has such orders. */
  lemma {:induction false} OrdersAre(d: Dataset)
    requires Shaped(d)
    ensures Ordered(d, OrdersIn(d)) && forall e | e in OrdersIn(d) :: d.name.path <= e
    decreases d, 1
  {
    hide OrdersIn, OrdersBelow, Shaped, ChildName, KidOrder;
    OrdersInIs(d);
    if d.name.Snap? {
      SnapOrdered(d, OrdersIn(d));
    } else {
      KidsAreChildren(d);
      OrdersBelowAre(d.name.path, d.kids);
      forall k | k in d.kids
        ensures Ordered(k, OrdersIn(d))
      {
        OwnKept(d, k);
      }
      forall e | e in OrdersBelow(d.kids)
        ensures d.name.path <= e
      {
        var k :| k in d.kids && k.name.Fs? && k.name.path <= e;
        OwnNotBelow(d.name, k.name);
      }
    }
  }

  lemma OwnNotBelow(n: Name, m: Name)
    requires ChildName(n, m)
    ensures n.path <= m.path && (m.Fs? ==> !(m.path <= n.path)) && |m.path| == |n.path| + (if m.Fs? then 1 else 0)
  {
  }

  /** The order of the struct itself concerns no child. */
  lemma OwnKept(d: Dataset, k: Dataset)
    requires d.name.Fs? && k in d.kids && ChildName(d.name, k.name) && Shaped(k) && Ordered(k, OrdersBelow(d.kids))
    ensures Ordered(k, OrdersIn(d))
  {
    hide OrdersIn, OrdersBelow, Shaped, Ordered, KidOrder;
    OrdersInIs(d);
    OwnNotBelow(d.name, k.name);
    if k.name.Snap? {
      SnapOrdered(k, OrdersIn(d));
    } else {
      OrderedStill(k, OrdersBelow(d.kids), OrdersIn(d));
    }
  }

  lemma {:induction false} OrdersBelowAre(x: Path, ks: seq<Dataset>)
    requires Distinct(ks) && forall k | k in ks :: ChildName(Fs(x), k.name) && Shaped(k)
    ensures forall k | k in ks :: Ordered(k, OrdersBelow(ks))
    ensures forall e | e in OrdersBelow(ks) :: exists k | k in ks :: k.name.Fs? && k.name.path <= e
    decreases ks, 0
  {
    hide OrdersIn, OrdersBelow, Shaped, KidOrder, ChildName, Ordered;
    OrdersBelowIs([], if ks == [] then Dataset(null, null, Fs([]), None, "", None, []) else ks[0]);
    if ks != [] {
      var n := |ks| - 1;
      var front, last := ks[..n], ks[n];
      assert ks == front + [last] && last in ks;
      OrdersBelowIs(front, last);
      OrdersBelowAre(x, front);
      OrdersAre(last);
      forall k | k in front
        ensures Ordered(k, OrdersBelow(ks))
      {
        FrontKept(x, front, last, k);
      }
      OrdersInIs(last);
      OrderedStill(last, OrdersIn(last), OrdersBelow(ks));
      forall e | e in OrdersBelow(ks)
        ensures exists k | k in ks :: k.name.Fs? && k.name.path <= e
      {
        if e in OrdersBelow(front) {
          var k :| k in front && k.name.Fs? && k.name.path <= e;
          assert k in ks;
        }
      }
    }
  }

  lemma PathsApart(a: Path, b: Path, e: Path)
    requires |a| == |b| && a != b && a <= e
    ensures !(b <= e)
  {
    assert a == e[..|a|];
  }

  /** What the last child adds concerns no earlier child. */
  lemma FrontKept(x: Path, front: seq<Dataset>, last: Dataset, k: Dataset)
    requires k in front && Distinct(front + [last]) && Shaped(k) && Ordered(k, OrdersBelow(front))
    requires ChildName(Fs(x), k.name) && ChildName(Fs(x), last.name)
    requires forall e | e in OrdersIn(last) :: last.name.path <= e
    ensures Ordered(k, OrdersBelow(front) + OrdersIn(last))
  {
    hide OrdersIn, OrdersBelow, Shaped, Ordered, KidOrder, ChildName;
    var all := OrdersBelow(front) + OrdersIn(last);
    OrdersInIs(last);
    OwnNotBelow(Fs(x), k.name);
    OwnNotBelow(Fs(x), last.name);
    if k.name.Snap? {
      SnapOrdered(k, all);
    } else {
      var ks := front + [last];
      var i :| 0 <= i < |front| && front[i] == k;
      assert ks[i].name != ks[|front|].name;
      forall e | k.name.path <= e && e in OrdersBelow(front)
        ensures e !in OrdersIn(last)
      {
        if last.name.Fs? {
          PathsApart(k.name.path, last.name.path, e);
        }
      }
      OrderedStill(k, OrdersBelow(front), all);
    }
  }
}
