/** Pool handles: `PoolOpenAll` turns the chain C builds into lists of one node each, so that
    closing the results is safe although `zpool_list_close` frees a whole chain. */
module PoolHandles {
  import opened HandleLists

  /** `zpool_handle_t`. */
  class Handle {
    const name: string
    ghost var closes: nat

    constructor (n: string)
      ensures name == n && closes == 0
    {
      name, closes := n, 0;
    }
  }

  /** `zpool_list_t`. */
  class PoolNode {
    var zph: Handle?
    var pnext: PoolNode?
    ghost var frees: nat

    constructor ()
      ensures zph == null && pnext == null && frees == 0
    {
      zph, pnext, frees := null, null, 0;
    }
  }

  /** The Go struct, as far as its pointer goes. */
  datatype PoolStruct = PoolStruct(list: PoolNode?)

  ghost predicate Different<T>(s: seq<T>) {
    forall i, j | 0 <= i < j < |s| :: s[i] != s[j]
  }

  ghost predicate Linked(chain: seq<PoolNode>)
    reads chain
  {
    && Different(chain)
    && (forall i {:trigger chain[i].pnext} | 0 <= i < |chain| :: chain[i].pnext == After(chain, i))
  }

  ghost function After(chain: seq<PoolNode>, i: nat): PoolNode? {
    if i + 1 < |chain| then chain[i + 1] else null
  }

  ghost predicate Holds(chain: seq<PoolNode>, hs: seq<Handle>)
    reads chain
  {
    |chain| == |hs| && forall i | 0 <= i < |chain| :: chain[i].zph == hs[i] && chain[i].frees == 0
  }

  /** The list while the handles `hs` were reported: an empty node first, then one per handle. */
  ghost predicate Building(chain: seq<PoolNode>, hs: seq<Handle>)
    reads chain
  {
    && |chain| > 0 && Linked(chain)
    && if hs == [] then |chain| == 1 && chain[0].zph == null && chain[0].frees == 0 else Holds(chain, Reversed(hs))
  }

  /** Different, open handles with these names. */
  ghost predicate OpenHandles(hs: seq<Handle>, names: seq<string>)
    reads hs
  {
    && |hs| == |names|
    && Different(hs)
    && (forall i | 0 <= i < |hs| :: hs[i].name == names[i] && hs[i].closes == 0)
  }

  lemma LinkedCons(root: PoolNode, chain: seq<PoolNode>)
    requires Linked(chain) && |chain| > 0 && root !in chain && root.pnext == chain[0]
    ensures Linked([root] + chain)
  {
    var c := [root] + chain;
    forall i | 0 <= i < |c|
      ensures c[i].pnext == After(c, i)
    {
      if i > 0 {
        assert chain[i - 1].pnext == After(chain, i - 1);
      }
    }
  }

  /** `zpool_list_callb`: allocates a node each time, which the first handle does not use. */
  method PoolCallback(pool: Handle, root: PoolNode, ghost chain: seq<PoolNode>, ghost hs: seq<Handle>)
    returns (root': PoolNode, ghost chain': seq<PoolNode>)
    requires Building(chain, hs) && chain[0] == root
    modifies root
    ensures Building(chain', hs + [pool]) && chain'[0] == root'
    ensures fresh(set n | n in chain' && n !in chain)
  {
    ReversedSnoc(hs, pool);
    var nroot := new PoolNode();
    if root.zph == null {
      assert hs == [];
      root.zph := pool;
      root', chain' := root, chain;
      assert root.pnext == After(chain, 0);
    } else {
      nroot.zph := pool;
      nroot.pnext := root;
      root' := nroot;
      chain' := [nroot] + chain;
      LinkedCons(nroot, chain);
    }
  }

  /** `zpool_list_free`: walks the links and frees every node. */
  method PoolListFree(list: PoolNode, ghost chain: seq<PoolNode>)
    requires Linked(chain) && |chain| > 0 && chain[0] == list
    modifies chain
    ensures forall n | n in chain :: n.frees == old(n.frees) + 1 && n.zph == old(n.zph) && n.pnext == old(n.pnext)
  {
    var l: PoolNode? := list;
    ghost var i := 0;
    while l != null
      invariant 0 <= i <= |chain| && Linked(chain)
      invariant l == (if i < |chain| then chain[i] else null)
      invariant forall j | 0 <= j < |chain| :: chain[j].frees == old(chain[j].frees) + (if j < i then 1 else 0)
      invariant forall n | n in chain :: n.zph == old(n.zph) && n.pnext == old(n.pnext)
      decreases |chain| - i
    {
      var next := l.pnext;
      assert next == After(chain, i);
      l.frees := l.frees + 1;
      l := next;
      i := i + 1;
    }
  }

  /** `zpool_list_close`: closes one handle, the first, and frees all nodes. */
  method PoolListClose(list: PoolNode, ghost chain: seq<PoolNode>)
    requires Linked(chain) && |chain| > 0 && chain[0] == list && list.zph != null
    modifies chain, list.zph
    ensures forall n | n in chain :: n.frees == old(n.frees) + 1 && n.zph == old(n.zph) && n.pnext == old(n.pnext)
    ensures list.zph.closes == old(list.zph.closes) + 1
  {
    list.zph.closes := list.zph.closes + 1;
    PoolListFree(list, chain);
  }

  lemma FirstNode(n: PoolNode)
    requires n.zph == null && n.pnext == null && n.frees == 0
    ensures Building([n], []) && Linked([n])
  {
  }

  /** What is known of a list under construction, without its contents. */
  lemma BuildingMeans(chain: seq<PoolNode>, hs: seq<Handle>)
    requires Building(chain, hs)
    ensures Linked(chain) && |chain| > 0 && (chain[0].zph == null <==> hs == [])
    ensures hs != [] ==> Holds(chain, Reversed(hs))
    ensures forall n | n in chain :: n.frees == 0
  {
  }

  /** `zpool_iter` with `zpool_list_callb`. */
  method IteratePools(names: seq<string>) returns (zlist: PoolNode, ghost chain: seq<PoolNode>, ghost hs: seq<Handle>)
    ensures fresh(chain) && fresh(hs) && Building(chain, hs) && chain[0] == zlist && OpenHandles(hs, names)
  {
    hide Linked, Holds, Reversed;
    zlist := new PoolNode();
    chain, hs := [zlist], [];
    FirstNode(zlist);
    for i := 0 to |names|
      invariant fresh(chain) && fresh(hs) && Building(chain, hs) && chain[0] == zlist
      invariant OpenHandles(hs, names[..i])
    {
      var h := new Handle(names[i]);
      zlist, chain := PoolCallback(h, zlist, chain, hs);
      hs := hs + [h];
    }
    assert names[..|names|] == names;
  }

  /** `zpool_list_openall`, for an iteration that reports pools called `names` and then fails or
      not. A failed iteration gives the nodes back and forgets the handles, which stay open. */
  method ListOpenAll(names: seq<string>, fails: bool)
    returns (list: PoolNode?, ghost chain: seq<PoolNode>, ghost hs: seq<Handle>)
    ensures fresh(chain) && fresh(hs) && OpenHandles(hs, names)
    ensures list == null <==> fails || names == []
    ensures list != null ==> Linked(chain) && Holds(chain, Reversed(hs)) && chain != [] && list == chain[0]
    ensures list == null ==> forall n | n in chain :: n.frees == 1
  {
    hide Linked, Holds, Reversed, Building;
    var zlist;
    zlist, chain, hs := IteratePools(names);
    BuildingMeans(chain, hs);
    if fails || zlist.zph == null {
      PoolListFree(zlist, chain);
      list := null;
    } else {
      list := zlist;
    }
  }

  /** Every struct that was not closed has a list of its own: one node, and a handle of its own. */
  ghost predicate Separate(pools: seq<PoolStruct>, hs: seq<Handle>)
    reads set p | p in pools && p.list != null :: p.list
  {
    && |pools| == |hs|
    && (forall i | 0 <= i < |pools| && pools[i].list != null ::
      pools[i].list.pnext == null && pools[i].list.zph == hs[i])
    && (forall i, j | 0 <= i < j < |pools| ::
      hs[i] != hs[j] && (pools[i].list != null ==> pools[i].list != pools[j].list))
  }

  lemma ReversedHandles(hs: seq<Handle>, names: seq<string>)
    requires OpenHandles(hs, names)
    ensures OpenHandles(Reversed(hs), Reversed(names)) && forall h | h in Reversed(hs) :: h in hs
  {
    var n := |hs|;
    forall i, j | 0 <= i < j < n
      ensures Reversed(hs)[i] != Reversed(hs)[j]
    {
      assert hs[n - 1 - j] != hs[n - 1 - i];
    }
  }

  lemma DifferentFrom<T>(s: seq<T>, k: nat)
    requires Different(s) && k < |s|
    ensures forall i | 0 <= i < |s| && i != k :: s[i] != s[k]
  {
  }

  /** The chain with its first links cut and wrapped. */
  ghost predicate Cutting(chain: seq<PoolNode>, hs: seq<Handle>, pools: seq<PoolStruct>)
    reads chain
  {
    && |pools| <= |chain| == |hs|
    && Different(chain) && Different(hs)
    && (forall i | 0 <= i < |chain| :: chain[i].zph == hs[i] && chain[i].frees == 0)
    && (forall i {:trigger chain[i].pnext} | |pools| <= i < |chain| :: chain[i].pnext == After(chain, i))
    && (forall i | 0 <= i < |pools| :: pools[i].list == chain[i] && chain[i].pnext == null)
  }

  /** The loop of `PoolOpenAll`: remembers the next node, cuts the link, keeps the struct. */
  method CutChain(first: PoolNode, good: nat, ghost chain: seq<PoolNode>, ghost hs: seq<Handle>)
    returns (pools: seq<PoolStruct>, complete: bool)
    requires Cutting(chain, hs, []) && |chain| > 0 && first == chain[0]
    modifies chain
    ensures complete == (|chain| <= good) && |pools| == (if good < |chain| then good else |chain|)
    ensures Cutting(chain, hs, pools)
  {
    hide Different;
    pools, complete := [], true;
    var list: PoolNode? := first;
    while list != null
      invariant Cutting(chain, hs, pools) && |pools| <= good
      invariant list == (if |pools| < |chain| then chain[|pools|] else null)
      decreases |chain| - |pools|
    {
      if |pools| == good {
        complete := false;
        return;
      }
      var next := list.pnext;
      assert next == After(chain, |pools|);
      DifferentFrom(chain, |pools|);
      list.pnext := null;
      pools := pools + [PoolStruct(list)];
      list := next;
    }
  }

  lemma CutIsSeparate(chain: seq<PoolNode>, hs: seq<Handle>, pools: seq<PoolStruct>)
    requires Cutting(chain, hs, pools)
    ensures Separate(pools, hs[..|pools|])
    ensures forall i | 0 <= i < |pools| :: pools[i].list in chain && pools[i].list.frees == 0
  {
  }

  lemma UncutYet(chain: seq<PoolNode>, hs: seq<Handle>, names: seq<string>)
    requires Linked(chain) && Holds(chain, hs) && OpenHandles(hs, names)
    ensures Cutting(chain, hs, [])
  {
  }

  lemma FirstHandles(hs: seq<Handle>, names: seq<string>, n: nat)
    requires OpenHandles(hs, names) && n <= |hs|
    ensures OpenHandles(hs[..n], names[..n])
  {
  }

  /** `PoolOpenAll`; reading the properties fails at the pool numbered `good`, if there is one.
      The result holds the pools up to there, last reported first. */
  method PoolOpenAll(names: seq<string>, fails: bool, good: nat)
    returns (pools: seq<PoolStruct>, complete: bool, ghost hs: seq<Handle>)
    ensures complete == (!fails && names != [] && |names| <= good)
    ensures |pools| == (if fails then 0 else if good < |names| then good else |names|)
    ensures Separate(pools, hs) && fresh(hs) && OpenHandles(hs, Reversed(names)[..|pools|])
    ensures forall i | 0 <= i < |pools| :: pools[i].list != null && fresh(pools[i].list) && pools[i].list.frees == 0
  {
    hide Linked, Holds, OpenHandles, Cutting, Reversed;
    var list, chain, all := ListOpenAll(names, fails);
    ReversedHandles(all, names);
    FirstHandles(Reversed(all), Reversed(names), 0);
    pools, complete, hs := [], list != null, [];
    if list != null {
      UncutYet(chain, Reversed(all), Reversed(names));
      pools, complete := CutChain(list, good, chain, Reversed(all));
      CutIsSeparate(chain, Reversed(all), pools);
      hs := Reversed(all)[..|pools|];
      FirstHandles(Reversed(all), Reversed(names), |pools|);
    }
  }

  /** `Pool.Close` of a struct that owns a list of one node. */
  method PoolClose(p: PoolStruct) returns (p': PoolStruct)
    requires p.list != null ==> p.list.zph != null && p.list.pnext == null
    modifies p.list, if p.list != null then p.list.zph else null
    ensures p'.list == null
    ensures p.list != null ==>
      && p.list.frees == old(p.list.frees) + 1 && p.list.zph == old(p.list.zph) && p.list.pnext == null
      && p.list.zph.closes == old(p.list.zph.closes) + 1
  {
    p' := p;
    if p.list != null {
      PoolListClose(p.list, [p.list]);
      p' := p.(list := null);
    }
  }

  /** `k` is to be closed, and has not been closed yet. */
  predicate Pending(pools: seq<PoolStruct>, order: seq<nat>, k: nat)
    requires k < |pools|
  {
    k in order && pools[k].list != null
  }

  /** Closing some of the results, each at most once and in any order: exactly their handles are
      closed and their nodes freed, once each. A struct that was closed before is skipped. */
  method CloseInOrder(pools: seq<PoolStruct>, order: seq<nat>, ghost hs: seq<Handle>)
    requires Separate(pools, hs)
    requires (forall k | k in order :: k < |pools|) && forall i, j | 0 <= i < j < |order| :: order[i] != order[j]
    modifies hs, set p | p in pools && p.list != null :: p.list
    ensures Separate(pools, hs)
    ensures forall k | 0 <= k < |pools| ::
      && (pools[k].list != null ==> pools[k].list.frees == old(pools[k].list.frees) + (if k in order then 1 else 0))
      && hs[k].closes == old(hs[k].closes) + (if Pending(pools, order, k) then 1 else 0)
  {
    for i := 0 to |order|
      invariant Separate(pools, hs)
      invariant forall k | 0 <= k < |pools| ::
        && (pools[k].list != null ==>
          pools[k].list.frees == old(pools[k].list.frees) + (if k in order[..i] then 1 else 0))
        && hs[k].closes == old(hs[k].closes) + (if Pending(pools, order[..i], k) then 1 else 0)
    {
      assert order[..i + 1] == order[..i] + [order[i]];
      assert order[i] in order && order[i] !in order[..i];
      var p := pools[order[i]];
      assert p in pools && (p.list != null ==> p.list.zph == hs[order[i]]);
      var _ := PoolClose(p);
    }
    assert order[..|order|] == order;
  }

  /** `PoolCloseAll`. It closes copies of the structs, so a second call on the same structs frees every
      node again: nothing guards against it. */
  method PoolCloseAll(pools: seq<PoolStruct>, ghost hs: seq<Handle>)
    requires Separate(pools, hs)
    modifies hs, set p | p in pools && p.list != null :: p.list
    ensures Separate(pools, hs)
    ensures forall k | 0 <= k < |pools| && pools[k].list != null ::
      pools[k].list.frees == old(pools[k].list.frees) + 1 && hs[k].closes == old(hs[k].closes) + 1
    ensures forall k | 0 <= k < |pools| && pools[k].list == null :: hs[k].closes == old(hs[k].closes)
  {
    var order := seq(|pools|, (i: nat) => i);
    forall k: nat | k < |pools|
      ensures k in order
    {
      assert order[k] == k;
    }
    CloseInOrder(pools, order, hs);
  }

  /** Opening all pools and closing the results in any order closes every handle and frees every
      node exactly once. */
  method OpenThenClose(names: seq<string>, order: seq<nat>) returns (pools: seq<PoolStruct>, ghost hs: seq<Handle>)
    requires |order| == |names| && forall k | 0 <= k < |names| :: k in order
    requires (forall k | k in order :: k < |names|) && forall i, j | 0 <= i < j < |order| :: order[i] != order[j]
    ensures |pools| == |names| && forall k | 0 <= k < |pools| :: pools[k].list != null && pools[k].list.frees == 1
    ensures |hs| == |pools| && forall k | 0 <= k < |hs| ::
      hs[k].name == names[|names| - 1 - k] && hs[k].closes == 1 && pools[k].list.zph == hs[k]
    ensures forall i, j | 0 <= i < j < |names| :: hs[i] != hs[j] && pools[i].list != pools[j].list
  {
    var complete;
    pools, complete, hs := PoolOpenAll(names, false, |names|);
    assert Reversed(names)[..|pools|] == Reversed(names);
    CloseInOrder(pools, order, hs);
  }
}
