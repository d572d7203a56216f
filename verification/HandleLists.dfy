/** Lists of dataset handles as C builds them. */
module HandleLists {
  import opened Pools
  import opened Handles

  /** The nodes are distinct and linked in this order. */
  ghost predicate Chained(chain: seq<Node>)
    reads chain
  {
    && (forall i, j | 0 <= i < j < |chain| :: chain[i] != chain[j])
    && (forall i {:trigger chain[i].pnext} | 0 <= i < |chain| :: chain[i].pnext == NextIn(chain, i))
  }

  ghost function NextIn(chain: seq<Node>, i: nat): Node? {
    if i + 1 < |chain| then chain[i + 1] else null
  }

  /** Each node carries the handle of that name, unfreed and not yet wrapped in a struct. */
  ghost predicate Carries(chain: seq<Node>, names: seq<Name>)
    reads chain
  {
    && |chain| == |names|
    && forall i | 0 <= i < |chain| :: chain[i].zh == Some(names[i]) && chain[i].frees == 0 && chain[i].once == null
  }

  function Reversed<T>(s: seq<T>): (r: seq<T>)
    ensures |r| == |s| && forall i | 0 <= i < |s| :: r[i] == s[|s| - 1 - i]
  {
    if s == [] then [] else Reversed(s[1..]) + [s[0]]
  }

  /** What the list under construction looks like after the handles `names` were reported: one
      empty node to start with, then one node per handle, the last reported one in front. */
  ghost predicate Growing(chain: seq<Node>, names: seq<Name>)
    reads chain
  {
    && |chain| > 0
    && Chained(chain)
    && if names == []
       then |chain| == 1 && chain[0].zh == None && chain[0].frees == 0 && chain[0].once == null
       else Carries(chain, Reversed(names))
  }

  lemma NoChain()
    ensures Chained([]) && Carries([], [])
  {
  }

  lemma ChainedCons(root: Node, chain: seq<Node>)
    requires Chained(chain) && |chain| > 0 && root !in chain && root.pnext == chain[0]
    ensures Chained([root] + chain)
  {
    var c := [root] + chain;
    forall i | 0 <= i < |c|
      ensures c[i].pnext == NextIn(c, i)
    {
      if i > 0 {
        assert chain[i - 1].pnext == NextIn(chain, i - 1);
      }
    }
  }

  lemma ReversedSnoc<T>(s: seq<T>, x: T)
    ensures Reversed(s + [x]) == [x] + Reversed(s)
  {
    var r, r' := Reversed(s + [x]), [x] + Reversed(s);
    assert forall i | 0 <= i < |r| :: r[i] == r'[i];
  }

  /** `dataset_list_callb`: the first handle fills the list's first node, every later one is put
      in front. `names` are the handles reported so far. */
  method ListCallback(dataset: Name, root: Node, ghost chain: seq<Node>, ghost names: seq<Name>)
    returns (root': Node, ghost chain': seq<Node>)
    requires Growing(chain, names) && chain[0] == root
    modifies root
    ensures Growing(chain', names + [dataset]) && chain'[0] == root'
    ensures fresh(set n | n in chain' && n !in chain)
  {
    ReversedSnoc(names, dataset);
    if root.zh == None {
      assert names == [];
      root.zh := Some(dataset);
      root', chain' := root, chain;
      assert root.pnext == NextIn(chain, 0);
    } else {
      root' := new Node();
      root'.zh := Some(dataset);
      root'.pnext := root;
      chain' := [root'] + chain;
      ChainedCons(root', chain);
    }
  }

  /** `dataset_list_free`: walks the links and frees every node, closing no handle. */
  method ListFree(list: Node, ghost chain: seq<Node>)
    requires Chained(chain) && |chain| > 0 && chain[0] == list
    modifies chain
    ensures forall n | n in chain :: n.frees == old(n.frees) + 1 && n.zh == old(n.zh)
  {
    var l: Node? := list;
    ghost var i := 0;
    while l != null
      invariant 0 <= i <= |chain| && Chained(chain)
      invariant l == (if i < |chain| then chain[i] else null)
      invariant forall j | 0 <= j < |chain| :: chain[j].frees == old(chain[j].frees) + (if j < i then 1 else 0)
      invariant forall n | n in chain :: n.zh == old(n.zh)
      decreases |chain| - i
    {
      var next := l.pnext;
      assert next == NextIn(chain, i);
      l.frees := l.frees + 1;
      l := next;
      i := i + 1;
    }
  }

  /** `dataset_list_children` and `dataset_list_root` for an iteration that reports `order` and then
      fails or not. If it does not, the list holds every reported handle exactly once, in reverse. A
      failed iteration gives the nodes back and forgets the handles, which stay open. */
  method ListAll(order: seq<Name>, fails: bool) returns (list: Node?, ghost chain: seq<Node>)
    ensures fresh(chain) && (list == null <==> fails || order == [])
    ensures list != null ==> Chained(chain) && Carries(chain, Reversed(order)) && chain[0] == list
    ensures list == null ==> forall n | n in chain :: n.frees == 1
    ensures order != [] ==>
      |chain| == |order| && forall i | 0 <= i < |chain| :: chain[i].zh == Some(Reversed(order)[i])
  {
    var zlist := new Node();
    chain := [zlist];
    for i := 0 to |order|
      invariant fresh(chain) && Growing(chain, order[..i]) && chain[0] == zlist
    {
      assert order[..i + 1] == order[..i] + [order[i]];
      zlist, chain := ListCallback(order[i], zlist, chain, order[..i]);
    }
    assert order[..|order|] == order;
    if fails || zlist.zh == None {
      ListFree(zlist, chain);
      list := null;
    } else {
      list := zlist;
    }
  }
}
