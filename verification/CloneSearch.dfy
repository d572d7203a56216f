/** The breadth-first search of `Clones` over an opened tree. */
module CloneSearch {
  import opened Pools
  import opened Handles
  import opened Trees
  import opened Lookup

  /** The channel used as a queue holds this many structs. */
  const QUEUE_CAP: nat := 1024

  /** `o` is the snapshot `d`, or a cached snapshot of `d`. */
  function Hit(d: Dataset, o: Name): Option<string> {
    if d.name.Snap? && o == d.name then Some(d.createTxg) else FirstSnap(d.kids, o)
  }

  /** The search descends into `ch`: it is no clone at all, or a clone of what is searched for. */
  predicate Open(d: Dataset, ch: Dataset) {
    ch.origin.None? || Hit(d, ch.origin.value).Some?
  }

  function OpenKids(d: Dataset, ks: seq<Dataset>): seq<Dataset> {
    if ks == [] then []
    else
      var n := |ks| - 1;
      OpenKids(d, ks[..n]) + (if Open(d, ks[n]) then [ks[n]] else [])
  }

  /** The nodes found by expanding `ts` in order. */
  function Expand(d: Dataset, ts: seq<Dataset>): seq<Dataset> {
    if ts == [] then []
    else
      var n := |ts| - 1;
      Expand(d, ts[..n]) + OpenKids(d, ts[n].kids)
  }

  function Marked(d: Dataset, ch: Dataset): Dataset
    requires ch.origin.Some?
  {
    ch.(originTxg := Hit(d, ch.origin.value))
  }

  /** The clones among visited nodes, with their origin's txg attached. */
  function Found(d: Dataset, ts: seq<Dataset>): seq<Dataset> {
    if ts == [] then []
    else
      var n := |ts| - 1;
      Found(d, ts[..n]) + (if ts[n].origin.Some? then [Marked(d, ts[n])] else [])
  }

  function Depth(n: Name): nat {
    |n.path| + (if n.Snap? then 1 else 0)
  }

  /** The name of the only possible parent. */
  function Up(n: Name): Name {
    match n
    case Fs(y) => Fs(if y == [] then [] else y[..|y| - 1])
    case Snap(y, _) => Fs(y)
  }

  lemma ChildUp(n: Name, m: Name)
    requires ChildName(n, m)
    ensures Up(m) == n && Depth(m) == Depth(n) + 1
  {
  }

  // ----- the search invariant -----

  /** `queue` is the breadth-first frontier after `pulled` was expanded: what has been discovered
      and not expanded, in order of discovery; each node was discovered once, by its parent; and
      discovery is level by level. */
  ghost predicate Frontier(d: Dataset, root: Dataset, pulled: seq<Dataset>, queue: seq<Dataset>) {
    var s := pulled + queue;
    && s == [root] + Expand(d, pulled)
    && Distinct(s)
    && (forall t | t in s :: Shaped(t))
    && (forall i | 1 <= i < |s| :: Up(s[i].name) in KidNames(pulled))
    && LevelByLevel(s, |pulled|)
  }

  ghost predicate LevelByLevel(s: seq<Dataset>, n: nat) {
    && (forall i, j | 0 <= i <= j < |s| :: Depth(s[i].name) <= Depth(s[j].name))
    && (forall i | n <= i < |s| :: Depth(s[i].name) <= Depth(s[n].name) + 1)
  }

  lemma {:induction false} OpenKidsAre(d: Dataset, ks: seq<Dataset>)
    ensures forall k | k in OpenKids(d, ks) :: k in ks && Open(d, k)
    ensures forall k | k in ks && Open(d, k) :: k in OpenKids(d, ks)
    ensures Distinct(ks) ==> Distinct(OpenKids(d, ks))
    decreases |ks|
  {
    hide Open;
    if ks != [] {
      var n := |ks| - 1;
      OpenKidsAre(d, ks[..n]);
      assert ks == ks[..n] + [ks[n]];
      var o := OpenKids(d, ks[..n]);
      forall i | Distinct(ks) && 0 <= i < |o|
        ensures o[i].name != ks[n].name
      {
        assert o[i] in ks[..n];
      }
    }
  }

  lemma FrontierStart(d: Dataset, root: Dataset)
    requires Shaped(root)
    ensures Frontier(d, root, [], [root])
  {
  }

  lemma ExpandSnoc(d: Dataset, ts: seq<Dataset>, t: Dataset)
    ensures Expand(d, ts + [t]) == Expand(d, ts) + OpenKids(d, t.kids)
  {
    assert (ts + [t])[..|ts|] == ts;
  }

  lemma ShapedKids(d: Dataset, t: Dataset)
    requires Shaped(t)
    ensures Distinct(OpenKids(d, t.kids))
    ensures forall k | k in OpenKids(d, t.kids) :: ChildName(t.name, k.name) && Shaped(k)
  {
    OpenKidsAre(d, t.kids);
  }

  /** Pulling the head of the queue and sending its open children keeps the frontier. */
  lemma FrontierStep(d: Dataset, root: Dataset, pulled: seq<Dataset>, queue: seq<Dataset>)
    requires Frontier(d, root, pulled, queue) && queue != []
    ensures Frontier(d, root, pulled + [queue[0]], queue[1..] + OpenKids(d, queue[0].kids))
  {
    hide Open, OpenKids, Expand, Shaped, Distinct, ChildName, Up, KidNames, LevelByLevel;
    var t := queue[0];
    var ks := OpenKids(d, t.kids);
    var s := pulled + queue;
    var s' := (pulled + [t]) + (queue[1..] + ks);
    assert t in s && s[|pulled|] == t && s[..|pulled|] == pulled;
    ShapedKids(d, t);
    assert s' == s + ks;
    ExpandSnoc(d, pulled, t);
    NewKids(s, pulled, t, ks);
  }

  lemma NewKids(s: seq<Dataset>, pulled: seq<Dataset>, t: Dataset, ks: seq<Dataset>)
    requires |pulled| < |s| && s[..|pulled|] == pulled && s[|pulled|] == t && Distinct(s)
    requires forall i | 1 <= i < |s| :: Up(s[i].name) in KidNames(pulled)
    requires LevelByLevel(s, |pulled|)
    requires Distinct(ks) && forall k | k in ks :: ChildName(t.name, k.name)
    ensures Distinct(s + ks)
    ensures forall i | 1 <= i < |s + ks| :: Up((s + ks)[i].name) in KidNames(pulled + [t])
    ensures LevelByLevel(s + ks, |pulled| + 1)
  {
    var s' := s + ks;
    assert t in pulled + [t];
    forall i | |s| <= i < |s'|
      ensures Up(s'[i].name) == t.name && Depth(s'[i].name) == Depth(t.name) + 1
    {
      assert s'[i] in ks;
      ChildUp(t.name, s'[i].name);
    }
    forall n | n in KidNames(pulled)
      ensures n in KidNames(pulled + [t]) && n != t.name
    {
      var j :| 0 <= j < |pulled| && pulled[j].name == n;
      assert pulled[j] in pulled + [t];
      assert s[j] == pulled[j];
    }
  }

  // ----- termination -----

  function Size(t: Dataset): nat
    decreases t, 1
  {
    1 + SizeAll(t.kids)
  }

  function SizeAll(ts: seq<Dataset>): nat
    decreases ts, 0
  {
    if ts == [] then 0 else Size(ts[0]) + SizeAll(ts[1..])
  }

  lemma {:induction false} SizeAppend(a: seq<Dataset>, b: seq<Dataset>)
    ensures SizeAll(a + b) == SizeAll(a) + SizeAll(b)
    decreases |a|
  {
    if a == [] {
      assert a + b == b;
    } else {
      SizeAppend(a[1..], b);
      assert (a + b)[1..] == a[1..] + b;
    }
  }

  lemma {:induction false} OpenKidsSmaller(d: Dataset, ks: seq<Dataset>)
    ensures SizeAll(OpenKids(d, ks)) <= SizeAll(ks)
    decreases |ks|
  {
    if ks != [] {
      var n := |ks| - 1;
      OpenKidsSmaller(d, ks[..n]);
      assert ks == ks[..n] + [ks[n]];
      SizeAppend(ks[..n], [ks[n]]);
      SizeAppend(OpenKids(d, ks[..n]), [ks[n]]);
      assert OpenKids(d, ks[..n]) + [] == OpenKids(d, ks[..n]);
    }
  }

  // ----- the search itself -----

  lemma FoundSnoc(d: Dataset, ts: seq<Dataset>, t: Dataset)
    ensures Found(d, ts + [t]) == Found(d, ts) + (if t.origin.Some? then [Marked(d, t)] else [])
  {
    assert (ts + [t])[..|ts|] == ts;
  }

  lemma OpenKidsSnoc(d: Dataset, ks: seq<Dataset>, i: nat)
    requires i < |ks|
    ensures OpenKids(d, ks[..i + 1]) == OpenKids(d, ks[..i]) + (if Open(d, ks[i]) then [ks[i]] else [])
  {
    assert ks[..i + 1][..i] == ks[..i];
  }

  lemma OpenKidsNone(d: Dataset)
    ensures OpenKids(d, []) == []
  {
  }

  lemma {:induction false} OpenKidsPrefix(d: Dataset, ks: seq<Dataset>, i: nat)
    requires i <= |ks|
    ensures |OpenKids(d, ks[..i])| <= |OpenKids(d, ks)|
    decreases |ks|
  {
    if i == |ks| {
      assert ks[..i] == ks;
    } else {
      var n := |ks| - 1;
      OpenKidsPrefix(d, ks[..n], i);
      assert ks[..n][..i] == ks[..i];
    }
  }

  /** Whether an origin belongs to `d`, and the txg of the snapshot it names. */
  method MatchOrigin(d: Dataset, origin: Name) returns (hit: Option<string>)
    ensures hit == Hit(d, origin)
  {
    if d.name.Snap? && origin == d.name {
      hit := Some(d.createTxg);
    } else {
      var ok, snap := FindSnapshot(d, origin);
      hit := if ok then Some(snap.createTxg) else None;
    }
  }

  /** The inner loop: sends the open children of one node, collecting the clones among them;
      `blocked` if a send finds the channel full, with nobody left to receive. */
  method Visit(d: Dataset, kids: seq<Dataset>, queue: seq<Dataset>, found: seq<Dataset>, ghost seen: seq<Dataset>)
    returns (queue': seq<Dataset>, found': seq<Dataset>, blocked: bool)
    requires found == Found(d, seen)
    ensures !blocked ==> queue' == queue + OpenKids(d, kids) && found' == Found(d, seen + OpenKids(d, kids))
    ensures !blocked && |queue| <= QUEUE_CAP ==> |queue'| <= QUEUE_CAP
    ensures blocked && |queue| <= QUEUE_CAP ==> |queue + OpenKids(d, kids)| > QUEUE_CAP
  {
    hide Found, Hit, OpenKids;
    queue', found', blocked := queue, found, false;
    OpenKidsNone(d);
    assert kids[..0] == [] && seen + [] == seen;
    var i := 0;
    while i < |kids|
      invariant 0 <= i <= |kids|
      invariant queue' == queue + OpenKids(d, kids[..i])
      invariant found' == Found(d, seen + OpenKids(d, kids[..i]))
      invariant |queue| <= QUEUE_CAP ==> |queue'| <= QUEUE_CAP
    {
      var ch := kids[i];
      ghost var sent := OpenKids(d, kids[..i]);
      OpenKidsSnoc(d, kids, i);
      assert Found(d, seen + (sent + [ch]))
          == Found(d, seen + sent) + (if ch.origin.Some? then [Marked(d, ch)] else []) by {
        assert seen + (sent + [ch]) == (seen + sent) + [ch];
        FoundSnoc(d, seen + sent, ch);
      }
      assert sent + [] == sent;
      i := i + 1;
      var hit: Option<string> := None;
      if ch.origin.Some? {
        hit := MatchOrigin(d, ch.origin.value);
        if hit.None? {
          continue;
        }
        found' := found' + [ch.(originTxg := hit)];
      }
      if |queue'| == QUEUE_CAP {
        OpenKidsPrefix(d, kids, i);
        blocked := true;
        return;
      }
      queue' := queue' + [ch];
    }
    assert kids[..|kids|] == kids;
  }

  /** The search after `i` rounds, if the channel held everything: what was pulled and what waits. */
  function Rounds(d: Dataset, root: Dataset, i: nat): (seq<Dataset>, seq<Dataset>) {
    if i == 0 then ([], [root])
    else
      var (pulled, queue) := Rounds(d, root, i - 1);
      if queue == [] then (pulled, []) else (pulled + [queue[0]], queue[1..] + OpenKids(d, queue[0].kids))
  }

  /** At some point of the search more structs wait than the channel holds. */
  ghost predicate Overfull(d: Dataset, root: Dataset) {
    exists i :: |Rounds(d, root, i).1| > QUEUE_CAP
  }

  lemma {:induction false} NothingWaits(d: Dataset, root: Dataset, i: nat, j: nat)
    requires i <= j && Rounds(d, root, i).1 == []
    ensures Rounds(d, root, j).1 == []
    decreases j
  {
    if i < j {
      NothingWaits(d, root, i, j - 1);
    }
  }

  /** A search whose queue emptied without ever exceeding the channel was never overfull. */
  lemma NotOverfull(d: Dataset, root: Dataset, n: nat)
    requires Rounds(d, root, n).1 == [] && forall i | 0 <= i <= n :: |Rounds(d, root, i).1| <= QUEUE_CAP
    ensures !Overfull(d, root)
  {
    forall i: nat
      ensures |Rounds(d, root, i).1| <= QUEUE_CAP
    {
      if i > n {
        NothingWaits(d, root, n, i);
      }
    }
  }

  /** The search loop of `Clones`. It ends with an empty queue once every visible node has been
      expanded, and blocks exactly if at some point more nodes than the channel holds would wait. */
  method Search(d: Dataset, root: Dataset)
    returns (found: seq<Dataset>, blocked: bool, ghost pulled: seq<Dataset>, ghost frontier: seq<Dataset>)
    requires Shaped(root)
    ensures Frontier(d, root, pulled, frontier)
    ensures !blocked ==> frontier == [] && found == Found(d, Expand(d, pulled))
    ensures blocked ==> pulled != [] && |frontier| > QUEUE_CAP
    ensures blocked <==> Overfull(d, root)
    ensures root.kids == [] ==> !blocked && found == []
  {
    hide Frontier, Hit, Open;
    assert Rounds(d, root, 0) == ([], [root]);
    var queue := [root];
    found, blocked, pulled := [], false, [];
    FrontierStart(d, root);
    while queue != []
      invariant Frontier(d, root, pulled, queue) && |queue| <= QUEUE_CAP
      invariant found == Found(d, Expand(d, pulled))
      invariant Rounds(d, root, |pulled|) == (pulled, queue)
      invariant forall i | 0 <= i <= |pulled| :: |Rounds(d, root, i).1| <= QUEUE_CAP
      invariant root.kids == [] ==> found == [] && (queue == [root] || queue == [])
      decreases SizeAll(queue)
    {
      var ds := queue[0];
      FrontierStep(d, root, pulled, queue);
      ExpandSnoc(d, pulled, ds);
      SizeAppend(queue[1..], OpenKids(d, ds.kids));
      OpenKidsSmaller(d, ds.kids);
      assert SizeAll(queue) == 1 + SizeAll(ds.kids) + SizeAll(queue[1..]);
      OpenKidsNone(d);
      assert Expand(d, pulled) + [] == Expand(d, pulled);
      ghost var next := queue[1..] + OpenKids(d, ds.kids);
      assert Rounds(d, root, |pulled| + 1) == (pulled + [ds], next);
      queue, found, blocked := Visit(d, ds.kids, queue[1..], found, Expand(d, pulled));
      pulled := pulled + [ds];
      if blocked {
        frontier := next;
        return;
      }
    }
    NotOverfull(d, root, |pulled|);
    frontier := [];
  }
}
