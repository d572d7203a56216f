/** Dataset handles: heap list nodes that C allocates and frees, the Go structs that point at
    them and are copied by value, and the shared `sync.Once` that guards each free. */
module Handles {
  import opened Pools

  /** `dataset_list_t`. The ghost fields count the frees and name the `Once` that guards them. */
  class Node {
    var zh: Option<Name>
    var pnext: Node?
    ghost var frees: nat
    ghost var once: Once?

    constructor ()
      ensures zh == None && pnext == null && frees == 0 && once == null
    {
      zh, pnext, frees, once := None, null, 0, null;
    }
  }

  /** `sync.Once`; `node` is the list node whose release it guards. */
  class Once {
    ghost const node: Node
    var done: bool

    constructor (n: Node)
      ensures node == n && !done
    {
      node := n;
      done := false;
    }

    /** The node is freed exactly when the guarded function has run, and then once, after its
        handle was closed. */
    ghost predicate Guards()
      reads this, node
    {
      node.once == this && node.frees == (if done then 1 else 0) && (done ==> node.zh == None)
    }
  }

  /** The Go struct: a value that is copied freely. `createTxg` and `originTxg` are the property
      texts; `originTxg` is the extra property `Clones` attaches before sorting. */
  datatype Dataset = Dataset(list: Node?, closeOnce: Once?, name: Name, origin: Option<Name>,
                             createTxg: string, originTxg: Option<string>, kids: seq<Dataset>)

  /** The guards of every struct of the tree, and the nodes they guard. */
  ghost function Onces(d: Dataset): set<Once> {
    Own(d) + set k, o | k in d.kids && o in Onces(k) :: o
  }

  ghost function Own(d: Dataset): set<Once> {
    if d.closeOnce == null then {} else {d.closeOnce}
  }

  ghost function NodesOf(u: set<Once>): set<Node> {
    set o | o in u :: o.node
  }

  ghost function Repr(d: Dataset): set<object> {
    Onces(d) + NodesOf(Onces(d))
  }

  /** Every struct of the tree points at the node its `Once` guards. */
  ghost predicate Wired(d: Dataset) {
    d.closeOnce != null && d.list == d.closeOnce.node && forall k | k in d.kids :: Wired(k)
  }

  /** No two structs of the tree share a handle. */
  ghost predicate Unshared(d: Dataset) {
    && (forall k | k in d.kids :: Own(d) !! Onces(k) && Unshared(k))
    && (forall i, j | 0 <= i < j < |d.kids| :: Onces(d.kids[i]) !! Onces(d.kids[j]))
  }

  /** A struct variable: wired, or its pointer was set to nil after its node was freed, or it was
      never opened. The children's pointers are never reset: loops close copies of them. */
  ghost predicate Bound(d: Dataset)
    reads Own(d)
  {
    && (if d.closeOnce == null then d.list == null
        else d.list == d.closeOnce.node || (d.list == null && d.closeOnce.done))
    && forall k | k in d.kids :: Wired(k)
  }

  /** An opened tree that nobody has closed: every struct has its own open handle. */
  ghost predicate Live(d: Dataset)
    reads Onces(d), NodesOf(Onces(d))
  {
    && Wired(d)
    && !d.closeOnce.done
    && d.list.zh == Some(d.name)
    && forall k | k in d.kids :: Live(k)
  }

  /** A struct refers to allocated objects only, so whatever leaves existing objects alone leaves
      the state of its handles alone. */
  lemma {:induction false} HandlesAllocated(d: Dataset)
    ensures forall o | o in Onces(d) :: allocated(o)
    ensures forall n | n in NodesOf(Onces(d)) :: allocated(n)
    decreases d
  {
    forall o | o in Onces(d)
      ensures allocated(o) && allocated(o.node)
    {
      if o !in Own(d) {
        var k :| k in d.kids && o in Onces(k);
        HandlesAllocated(k);
        assert o.node in NodesOf(Onces(k));
      }
    }
  }

  /** Every guard of `u` agrees with what happened to its node. */
  ghost predicate AllGuard(u: set<Once>)
    reads u, NodesOf(u)
  {
    forall o | o in u :: o.Guards()
  }

  /** `dataset_list_close`. */
  method ListClose(list: Node?)
    modifies list
    ensures list != null ==> list.frees == old(list.frees) + 1 && list.zh == None && list.once == old(list.once)
  {
    if list != null {
      if list.zh != None {
        list.zh := None;
      }
      list.frees := list.frees + 1;
    }
  }

  /** The struct's own part of `Close`: `closeOnce.Do` around `dataset_list_close`. */
  method CloseOwn(d: Dataset, ghost u: set<Once>)
    requires Bound(d) && Own(d) <= u && AllGuard(u)
    modifies Own(d), NodesOf(Own(d))
    ensures AllGuard(u) && forall o | o in u :: o.done == (old(o.done) || o in Own(d))
  {
    if d.closeOnce != null {
      if !d.closeOnce.done {
        d.closeOnce.done := true;
        ListClose(d.list);
      }
    }
  }

  lemma OncesOfKid(d: Dataset, k: Dataset)
    requires k in d.kids
    ensures Onces(k) <= Onces(d) && Repr(k) <= Repr(d)
  {
  }

  lemma OncesAre(d: Dataset)
    ensures Own(d) <= Onces(d) && forall i | 0 <= i < |d.kids| :: Onces(d.kids[i]) <= Onces(d)
    ensures forall o | o in Onces(d) :: o in Own(d) || exists i | 0 <= i < |d.kids| :: o in Onces(d.kids[i])
  {
  }

  /** Closes a struct and its children. `u` is any set of guards that includes the tree's: none of
      them is ever freed twice, whatever copies of the struct exist and however often they are
      closed, and afterwards every node of the tree has been freed exactly once. */
  method Close(d: Dataset, ghost u: set<Once>) returns (d': Dataset)
    requires Bound(d) && Onces(d) <= u && AllGuard(u)
    modifies Repr(d)
    ensures d' == d.(list := null)
    ensures AllGuard(u) && forall o | o in u :: old(o.done) ==> o.done
    ensures forall o | o in Onces(d) :: o.done
    decreases d
  {
    hide Onces;
    OncesAre(d);
    CloseOwn(d, u);
    d' := d.(list := null);
    var i := 0;
    while i < |d.kids|
      invariant 0 <= i <= |d.kids|
      invariant AllGuard(u) && forall o | o in u :: old(o.done) ==> o.done
      invariant forall o | o in Own(d) :: o.done
      invariant forall j, o | 0 <= j < i && o in Onces(d.kids[j]) :: o.done
    {
      var k := d.kids[i];
      assert Wired(k);
      OncesOfKid(d, k);
      var _ := Close(k, u);
      i := i + 1;
    }
  }

  /** Trees without a common guard have no common object. */
  lemma ReprApart(k: Dataset, l: Dataset)
    requires AllGuard(Onces(k)) && AllGuard(Onces(l)) && Onces(k) !! Onces(l)
    ensures Repr(k) !! Repr(l) && Repr(k) !! (set o: object | o in Onces(l))
    ensures Repr(k) !! (set n: object | n in NodesOf(Onces(l)))
  {
    hide Onces;
    assert forall o | o in Onces(k) :: o.node.once == o;
    assert forall o | o in Onces(l) :: o.node.once == o;
  }
}
