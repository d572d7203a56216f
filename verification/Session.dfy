/** Any program over dataset variables: whatever is opened, copied, closed and destroyed, in any
    order and any number of times, no handle is freed twice. */
module Session {
  import opened Pools
  import opened Handles
  import opened Trees
  import opened Decimal
  import opened Backend
  import opened Opening
  import opened HandOver
  import opened Chains
  import opened Stops
  import opened DestroySteps
  import opened PromoteAndDestroy
  import opened RecursiveDestroy

  /** One statement of such a program; the numbers are variables, counted in order of creation. */
  datatype Op =
    | OpenInto(name: Name)
    | CopyOf(from: nat)
    | ChildOf(from: nat, i: nat)
    | CloseVar(v: nat)
    | DestroyVar(v: nat)
    | PromoteVar(v: nat)

  /** A variable holds an opened tree, possibly closed since, or nothing. */
  ghost predicate Tracked(d: Dataset, u: set<Once>) {
    && (if d.closeOnce == null then d.list == null else d.list == d.closeOnce.node || d.list == null)
    && (forall k | k in d.kids :: Wired(k))
    && Own(d) <= u && Onces(d) <= u
    && (if d.closeOnce == null then d.kids == [] else Shaped(d) && Unshared(d) && d.name.path != [])
  }

  /** A pointer is nil only when nothing was opened or the handle was closed. */
  ghost predicate NilIsDone(d: Dataset)
    reads Own(d)
  {
    d.closeOnce != null && d.list == null ==> d.closeOnce.done
  }

  /** The invariant of every program. */
  ghost predicate Consistent(vars: seq<Dataset>, u: set<Once>)
    reads u, NodesOf(u)
  {
    AllGuard(u) && forall d | d in vars :: Tracked(d, u) && NilIsDone(d)
  }

  ghost function Pointers(d: Dataset): set<Node> {
    (if d.list == null then {} else {d.list}) + set k, n | k in d.kids && n in Pointers(k) :: n
  }

  /** Whether every struct of the tree still points at an open handle. */
  predicate IsLive(d: Dataset)
    reads Onces(d), Pointers(d)
  {
    && d.closeOnce != null && d.list != null && !d.closeOnce.done && d.list.zh == Some(d.name)
    && forall k | k in d.kids :: IsLive(k)
  }

  lemma {:induction false} LiveIsOpened(d: Dataset, u: set<Once>)
    requires Bound(d) && IsLive(d) && Onces(d) <= u && AllGuard(u)
    ensures Opened(d)
    decreases d
  {
    hide Onces;
    AllOncesOfKids(d);
    OwnOnces(d);
    forall k | k in d.kids
      ensures Live(k)
    {
      assert Wired(k);
      LiveIsOpened(k, u);
    }
  }

  lemma OpenedIsTracked(d: Dataset, u: set<Once>)
    requires Opened(d) && Shaped(d) && Unshared(d) && d.name.path != [] && Onces(d) <= u
    ensures Tracked(d, u) && NilIsDone(d)
  {
    hide Onces, Shaped, Unshared, AllGuard;
    OwnOnces(d);
  }

  lemma EmptyIsTracked(d: Dataset, u: set<Once>)
    requires d.list == null && d.closeOnce == null && d.kids == []
    ensures Tracked(d, u) && NilIsDone(d) && Onces(d) == {}
  {
  }

  /** A copy of a child struct shares the child's guard with the tree it was copied from. */
  lemma ChildIsTracked(d: Dataset, k: Dataset, u: set<Once>)
    requires Tracked(d, u) && k in d.kids
    ensures Tracked(k, u) && NilIsDone(k)
  {
    hide Onces;
    KidsAreChildren(d);
    OncesOfKid(d, k);
    OwnOnces(k);
    assert Unshared(k) && Wired(k);
    ChildPath(d.name, k.name);
  }

  lemma ChildPath(n: Name, m: Name)
    requires ChildName(n, m) && n.path != []
    ensures m.path != []
  {
  }

  lemma TrackedMore(vars: seq<Dataset>, u: set<Once>, u': set<Once>)
    requires (forall d | d in vars :: Tracked(d, u)) && u <= u'
    ensures forall d | d in vars :: Tracked(d, u')
  {
    hide Onces, Shaped, Unshared;
  }

  lemma UniverseAllocated(u: set<Once>)
    ensures forall n | n in NodesOf(u) :: allocated(n)
  {
  }

  lemma TrackedFacts(d: Dataset, u: set<Once>)
    requires Tracked(d, u)
    ensures Own(d) <= u && Onces(d) <= u && (NilIsDone(d) ==> Bound(d))
    ensures d.closeOnce != null ==> Shaped(d) && Unshared(d) && d.name.path != []
    ensures forall o: object | o in Repr(d) :: o in u || o in NodesOf(u)
  {
    hide Onces, Shaped, Unshared;
  }

  lemma AllOwn(vars: seq<Dataset>, u: set<Once>)
    requires forall d | d in vars :: Tracked(d, u)
    ensures forall d | d in vars :: Own(d) <= u
  {
    hide Onces, Shaped, Unshared;
  }

  /** `Close`, `DestroyRecursive` and `DestroyPromote` leave a variable sane. */
  lemma StaysTracked(d: Dataset, e: Dataset, u: set<Once>)
    requires Tracked(d, u) && (e == d || e == d.(kids := []) || e == d.(list := null))
    ensures Tracked(e, u)
  {
    hide ParseInt;
  }

  /** Runs the program. A statement that names no variable, or one that was never opened, does
      nothing; one that would follow a freed pointer ends the run, since C says nothing about what
      happens then. */
  method Run(z: Zfs, ops: seq<Op>) returns (vars: seq<Dataset>, ghost u: set<Once>)
    requires z.Valid()
    modifies z
    ensures z.Valid() && fresh(u) && Consistent(vars, u)
    ensures forall o | o in u :: o.node.frees <= 1
  {
    hide Tracked, Opened, Shaped, Unshared, History, Onces, IsLive;
    vars, u := [], {};
    var i := 0;
    while i < |ops|
      invariant z.Valid() && fresh(u) && fresh(NodesOf(u)) && Consistent(vars, u)
    {
      var stop;
      vars, u, stop := Step(z, ops[i], vars, u);
      i := i + 1;
      if stop {
        break;
      }
    }
  }

  /** Only variable `v` may have changed, and only by losing its children. */
  ghost predicate OnlyDropped(vars: seq<Dataset>, vars': seq<Dataset>, v: nat)
    requires v < |vars|
  {
    vars' == vars || vars' == vars[v := vars[v].(kids := [])]
  }

  /** One statement, and what it does to the variables. */
  method Step(z: Zfs, op: Op, vars: seq<Dataset>, ghost u: set<Once>)
    returns (vars': seq<Dataset>, ghost u': set<Once>, stop: bool)
    requires z.Valid() && Consistent(vars, u)
    modifies z, u, NodesOf(u)
    ensures z.Valid() && Consistent(vars', u')
    ensures u <= u' && fresh(u' - u) && fresh(NodesOf(u') - NodesOf(u))
    ensures op.OpenInto? ==> |vars'| == |vars| + 1 && vars <= vars'
    ensures op.OpenInto? && vars'[|vars|].list != null ==> vars'[|vars|].name == op.name && Opened(vars'[|vars|])
    ensures op.CopyOf? && op.from < |vars| ==> vars' == vars + [vars[op.from]]
    ensures op.ChildOf? && op.from < |vars| && op.i < |vars[op.from].kids| ==>
      vars' == vars + [vars[op.from].kids[op.i]]
    ensures op.CloseVar? && op.v < |vars| ==>
      && vars' == vars[op.v := vars[op.v].(list := null)]
      && (forall o | o in Onces(vars[op.v]) :: o.done)
      && (forall o | o in u && o !in Onces(vars[op.v]) :: o.done == old(o.done))
    ensures op.DestroyVar? || op.PromoteVar? ==> if op.v < |vars| then OnlyDropped(vars, vars', op.v) else vars' == vars
    ensures op.PromoteVar? ==> forall o | o in u :: o.done == old(o.done)
    ensures !op.OpenInto? ==> u' == u
  {
    hide Tracked, Opened, Shaped, Unshared, History, Onces, IsLive, NodesOf;
    vars', u', stop := vars, u, false;
    match op
    case OpenInto(n) =>
      vars', u' := StepOpen(z, n, vars, u);
    case CopyOf(f) =>
      if f < |vars| {
        vars' := vars + [vars[f]];
      }
    case ChildOf(f, i) =>
      if f < |vars| && i < |vars[f].kids| {
        ChildIsTracked(vars[f], vars[f].kids[i], u);
        vars' := vars + [vars[f].kids[i]];
      }
    case CloseVar(v) =>
      if v < |vars| {
        vars' := StepClose(v, vars, u);
      }
    case DestroyVar(v) =>
      if v < |vars| && vars[v].list != null {
        vars', stop := StepDestroy(z, v, vars, u);
      }
    case PromoteVar(v) =>
      if v < |vars| && vars[v].closeOnce != null {
        vars', stop := StepPromote(z, v, vars, u);
      }
  }

  /** `DatasetOpen` into a new variable. */
  method StepOpen(z: Zfs, n: Name, vars: seq<Dataset>, ghost u: set<Once>)
    returns (vars': seq<Dataset>, ghost u': set<Once>)
    requires z.Valid() && Consistent(vars, u)
    modifies z
    ensures z.Valid() && Consistent(vars', u')
    ensures u <= u' && fresh(u' - u) && fresh(NodesOf(u') - NodesOf(u))
    ensures |vars'| == |vars| + 1 && vars <= vars' && z.pool == old(z.pool)
    ensures vars'[|vars|].list != null ==> vars'[|vars|].name == n && Opened(vars'[|vars|])
    ensures old(z.Calm()) ==> (vars'[|vars|].list != null <==> Exists(z.pool, n))
  {
    hide Tracked, Shaped, Unshared, History, Onces, Opened;
    UniverseAllocated(u);
    AllOwn(vars, u);
    z.PoolIsWF();
    var d, ok := DatasetOpen(z, n);
    u' := u + Onces(d);
    if ok {
      NamesArePaths(z.pool, n);
      OpenedGuards(d);
      OpenedIsTracked(d, u');
    } else {
      EmptyIsTracked(d, u');
    }
    TrackedMore(vars, u, u');
    vars' := vars + [d];
  }

  lemma NamesArePaths(p: Pool, n: Name)
    requires WF(p) && Exists(p, n)
    ensures n.path != []
  {
  }

  lemma ReprGuards(d: Dataset, u: set<Once>)
    ensures forall o: object | o in u && o in Repr(d) :: o in Onces(d)
  {
    hide Onces;
  }

  /** `Close` of a variable; its children's pointers stay as they are. */
  method StepClose(v: nat, vars: seq<Dataset>, ghost u: set<Once>) returns (vars': seq<Dataset>)
    requires v < |vars| && Consistent(vars, u)
    modifies u, NodesOf(u)
    ensures Consistent(vars', u)
    ensures vars' == vars[v := vars[v].(list := null)] && forall o | o in Onces(vars[v]) :: o.done
    ensures forall o | o in u && o !in Onces(vars[v]) :: o.done == old(o.done)
  {
    hide Tracked, Shaped, Unshared, Onces, NodesOf, Repr;
    var d := vars[v];
    TrackedFacts(d, u);
    AllOwn(vars, u);
    OwnOnces(d);
    ReprGuards(d, u);
    var e := Close(d, u);
    StaysTracked(d, e, u);
    assert NilIsDone(e);
    forall w | w in vars
      ensures NilIsDone(w)
    {
      if w.closeOnce != null && w.list == null {
        assert w.closeOnce in u && old(NilIsDone(w));
      }
    }
    vars' := vars[v := e];
  }

  /** `DestroyRecursive` on a variable. */
  method StepDestroy(z: Zfs, v: nat, vars: seq<Dataset>, ghost u: set<Once>) returns (vars': seq<Dataset>, stop: bool)
    requires z.Valid() && v < |vars| && vars[v].list != null && Consistent(vars, u)
    modifies z, u, NodesOf(u)
    ensures z.Valid() && Consistent(vars', u) && OnlyDropped(vars, vars', v)
    ensures stop <==> !old(IsLive(vars[v]))
    ensures stop ==> z.pool == old(z.pool)
    ensures !stop ==> Shrunk(old(z.pool), z.pool, vars[v].name.path)
    ensures !stop && vars'[v].kids == [] ==> forall k, o | k in vars[v].kids && o in Onces(k) :: o.done
    ensures forall o | o in u && (o !in Onces(vars[v]) || o in Own(vars[v])) :: o.done == old(o.done)
  {
    hide Tracked, Shaped, Unshared, Onces, NodesOf, Repr, History, Opened;
    hide Stopped, ClosedBy, Shrunk;
    var d := vars[v];
    TrackedFacts(d, u);
    AllOwn(vars, u);
    vars', stop := vars, !IsLive(d);
    if stop {
      return;
    }
    LiveIsOpened(d, u);
    var e, res, at := DestroyRecursive(z, d, u);
    StaysTracked(d, e, u);
    vars' := vars[v := e];
  }

  lemma LiveOrClosed(d: Dataset)
    requires Opened(d) || (d.list == null && d.kids == [])
    ensures Usable(d)
  {
  }

  /** `DestroyPromote` on a variable. A closed struct without children is not followed anywhere: the
      call ends with an error. */
  method StepPromote(z: Zfs, v: nat, vars: seq<Dataset>, ghost u: set<Once>) returns (vars': seq<Dataset>, stop: bool)
    requires z.Valid() && v < |vars| && vars[v].closeOnce != null && Consistent(vars, u)
    modifies z
    ensures z.Valid() && Consistent(vars', u) && OnlyDropped(vars, vars', v)
    ensures stop <==> !old(IsLive(vars[v])) && (vars[v].list != null || vars[v].kids != [])
    ensures stop ==> z.pool == old(z.pool)
    ensures OthersStay(old(z.pool), z.pool, vars[v].name.path)
  {
    hide Tracked, Shaped, Unshared, Onces, NodesOf, Repr, History, Opened;
    var d := vars[v];
    TrackedFacts(d, u);
    AllOwn(vars, u);
    UniverseAllocated(u);
    vars', stop := vars, !IsLive(d) && (d.list != null || d.kids != []);
    if stop {
      return;
    }
    if IsLive(d) {
      LiveIsOpened(d, u);
    }
    LiveOrClosed(d);
    var e, res, pr, at := DestroyPromote(z, d, map[]);
    StaysTracked(d, e, u);
    vars' := vars[v := e];
  }
}
