/** What reading gets back of what building stored, and how the two ways of finding the devices of
    a configuration agree. */
module VdevRoundTrip {
  import opened Pools
  import opened VdevBuilding
  import opened VdevReading

  // ----- which configurations can be read -----

  /** `m` is a node the reader comes to: it does not go below missing devices and holes. */
  ghost predicate Comes(c: Config, at: seq<nat>, m: Config)
    decreases |at|
  {
    if at == [] then m == c
    else
      && c.typ.Some? && !Skipped(c.typ.value)
      && at[0] < |Kids(c)| && Comes(Kids(c)[at[0]], at[1..], m)
  }

  predicate Readable(m: Config) {
    m.typ.Some? && (Skipped(m.typ.value) || m.stats.Some?)
  }

  ghost predicate AllReadable(c: Config) {
    forall at, m | Comes(c, at, m) :: Readable(m)
  }

  lemma {:induction false} KidsReadable(cs: seq<Config>, nm: Naming)
    ensures ReadKids(cs, nm).Some? <==> forall i | 0 <= i < |cs| :: ReadOf(nm(cs[i]), cs[i], nm).Some?
    decreases |cs|
  {
    hide ReadOf;
    if cs != [] {
      var n := |cs| - 1;
      KidsReadable(cs[..n], nm);
      assert forall i | 0 <= i < n :: cs[..n][i] == cs[i];
    }
  }

  lemma AllReadableMeans(c: Config)
    ensures AllReadable(c) <==>
      Readable(c) && (!Skipped(c.typ.value) ==> forall i | 0 <= i < |Kids(c)| :: AllReadable(Kids(c)[i]))
  {
    hide Skipped, Kids;
    assert Comes(c, [], c);
    forall i, at, m | AllReadable(c) && c.typ.Some? && !Skipped(c.typ.value) && 0 <= i < |Kids(c)|
      && Comes(Kids(c)[i], at, m)
      ensures Readable(m)
    {
      assert ([i] + at)[1..] == at;
      assert Comes(c, [i] + at, m);
    }
    forall at, m | Comes(c, at, m) && Readable(c) && !Readable(m)
      ensures c.typ.Some? && !Skipped(c.typ.value) && exists i | 0 <= i < |Kids(c)| :: !AllReadable(Kids(c)[i])
    {
      assert at != [];
      assert Comes(Kids(c)[at[0]], at[1..], m);
      assert !AllReadable(Kids(c)[at[0]]);
    }
  }

  /** Reading succeeds exactly if every node it comes to has a type and, unless it is missing or a
      hole, statistics. */
  lemma {:induction false} ReadIff(name: string, c: Config, nm: Naming)
    ensures ReadOf(name, c, nm).Some? <==> AllReadable(c)
    decreases c
  {
    hide AllReadable;
    AllReadableMeans(c);
    if c.children.NodeList? {
      var cs := c.children.nodes;
      assert Kids(c) == cs;
      KidsReadable(cs, nm);
      forall i | 0 <= i < |cs|
        ensures ReadOf(nm(cs[i]), cs[i], nm).Some? <==> AllReadable(cs[i])
      {
        ReadIff(nm(cs[i]), cs[i], nm);
      }
    }
  }

  // ----- what was built is read back -----

  /** The kernel's report of a configuration: every node has statistics. */
  function WithStats(c: Config, stat: nat): Config
    decreases c, 1
  {
    c.(stats := Some(stat),
    children := if c.children.NodeList? then NodeList(AllWithStats(c.children.nodes, stat)) else Absent,
    spares := if c.spares.NodeList? then NodeList(AllWithStats(c.spares.nodes, stat)) else Absent)
  }

  function AllWithStats(cs: seq<Config>, stat: nat): (r: seq<Config>)
    ensures |r| == |cs|
    decreases cs, 0
  {
    if cs == [] then []
    else
      var n := |cs| - 1;
      AllWithStats(cs[..n], stat) + [WithStats(cs[n], stat)]
  }

  /** The same types and the same number of devices, in the same order, at all depths. */
  ghost predicate SameShape(v: VDev, w: VDev) {
    && v.typ == w.typ
    && |v.devices| == |w.devices|
    && forall i | 0 <= i < |v.devices| :: SameShape(v.devices[i], w.devices[i])
  }

  ghost predicate SameShapes(vs: seq<VDev>, ws: seq<VDev>) {
    |vs| == |ws| && forall i | 0 <= i < |vs| :: SameShape(vs[i], ws[i])
  }

  /** Only grouping nodes have devices. */
  ghost predicate Plain(v: VDev) {
    if Grouping(v.typ) then forall i | 0 <= i < |v.devices| :: Plain(v.devices[i]) else v.devices == []
  }

  lemma BuiltSnoc(vs: seq<VDev>, ashift: int)
    requires vs != []
    ensures BuiltAll(vs, ashift) == BuiltAll(vs[..|vs| - 1], ashift) + [Built(vs[|vs| - 1], ashift)]
  {
  }

  lemma StatsSnoc(cs: seq<Config>, c: Config, stat: nat)
    ensures AllWithStats(cs + [c], stat) == AllWithStats(cs, stat) + [WithStats(c, stat)]
  {
    assert (cs + [c])[..|cs|] == cs;
  }

  lemma KidsSnoc(cs: seq<Config>, c: Config, nm: Naming)
    requires ReadKids(cs, nm).Some? && ReadOf(nm(c), c, nm).Some? && !IsLog(c)
    ensures var r := ReadKids(cs, nm).value;
      ReadKids(cs + [c], nm) == Some(r.(devices := r.devices + [ReadOf(nm(c), c, nm).value]))
  {
    assert (cs + [c])[..|cs|] == cs;
  }

  /** A built node is read back with its type and, exactly if devices occur under grouping nodes
      only, with its whole shape. */
  lemma {:induction false} NodeRoundTrip(v: VDev, ashift: int, stat: nat, name: string, nm: Naming)
    ensures var r := ReadOf(name, WithStats(Built(v, ashift), stat), nm);
      r.Some? && r.value.typ == v.typ && r.value.logs == NoLog && (SameShape(v, r.value) <==> Plain(v))
    ensures !IsLog(WithStats(Built(v, ashift), stat))
    decreases v, 1
  {
    if Grouping(v.typ) {
      NodesRoundTrip(v.devices, ashift, stat, nm);
    }
  }

  lemma {:induction false} NodesRoundTrip(vs: seq<VDev>, ashift: int, stat: nat, nm: Naming)
    ensures var r := ReadKids(AllWithStats(BuiltAll(vs, ashift), stat), nm);
      && r.Some? && r.value.logs == NoLog && |r.value.devices| == |vs|
      && forall i | 0 <= i < |vs| :: SameShape(vs[i], r.value.devices[i]) <==> Plain(vs[i])
    decreases vs, 0
  {
    hide SameShape, Plain, IsLog, WithStats, ReadOf, Built;
    if vs != [] {
      var n := |vs| - 1;
      NodesRoundTrip(vs[..n], ashift, stat, nm);
      BuiltSnoc(vs, ashift);
      StatsSnoc(BuiltAll(vs[..n], ashift), Built(vs[n], ashift), stat);
      var c := WithStats(Built(vs[n], ashift), stat);
      NodeRoundTrip(vs[n], ashift, stat, nm(c), nm);
      KidsSnoc(AllWithStats(BuiltAll(vs[..n], ashift), stat), c, nm);
    }
  }

  /** No struct of the tree has a path or a parity. */
  ghost predicate Bare(v: VDev) {
    && v.path == "" && v.parity == 0
    && (forall i | 0 <= i < |v.devices| :: Bare(v.devices[i]))
    && (v.logs.LogRef? ==> Bare(v.logs.dev))
  }

  /** A node that was built comes back without its path, and without its parity. */
  lemma {:induction false} NodeComesBare(v: VDev, ashift: int, stat: nat, name: string, nm: Naming)
    ensures var r := ReadOf(name, WithStats(Built(v, ashift), stat), nm); r.Some? && Bare(r.value)
    decreases v, 1
  {
    NodeRoundTrip(v, ashift, stat, name, nm);
    if Grouping(v.typ) {
      NodesComeBare(v.devices, ashift, stat, nm);
    }
  }

  lemma {:induction false} NodesComeBare(vs: seq<VDev>, ashift: int, stat: nat, nm: Naming)
    ensures var r := ReadKids(AllWithStats(BuiltAll(vs, ashift), stat), nm);
      r.Some? && r.value.logs == NoLog && forall i | 0 <= i < |r.value.devices| :: Bare(r.value.devices[i])
    decreases vs, 0
  {
    hide Bare, IsLog, WithStats, ReadOf, Built;
    if vs != [] {
      var n := |vs| - 1;
      NodesComeBare(vs[..n], ashift, stat, nm);
      BuiltSnoc(vs, ashift);
      StatsSnoc(BuiltAll(vs[..n], ashift), Built(vs[n], ashift), stat);
      var c := WithStats(Built(vs[n], ashift), stat);
      NodeRoundTrip(vs[n], ashift, stat, nm(c), nm);
      NodeComesBare(vs[n], ashift, stat, nm(c), nm);
      KidsSnoc(AllWithStats(BuiltAll(vs[..n], ashift), stat), c, nm);
    }
  }

  lemma {:induction false} LeavesComeBare(vs: seq<VDev>, ashift: int, stat: nat, nm: Naming)
    ensures var r := ReadList(AllWithStats(Leaves(vs, ashift), stat), nm);
      r.Some? && forall i | 0 <= i < |r.value| :: Bare(r.value[i])
    decreases |vs|
  {
    hide Bare, WithStats, ReadOf, Leaf;
    if vs != [] {
      var n := |vs| - 1;
      LeavesComeBare(vs[..n], ashift, stat, nm);
      assert Leaves(vs, ashift) == Leaves(vs[..n], ashift) + [Leaf(vs[n], ashift)];
      StatsSnoc(Leaves(vs[..n], ashift), Leaf(vs[n], ashift), stat);
      var c := WithStats(Leaf(vs[n], ashift), stat);
      LeafComesBare(vs[n], ashift, stat, nm(c), nm);
      ListSnoc(AllWithStats(Leaves(vs[..n], ashift), stat), c, nm);
    }
  }

  lemma LeafComesBare(v: VDev, ashift: int, stat: nat, name: string, nm: Naming)
    ensures var r := ReadOf(name, WithStats(Leaf(v, ashift), stat), nm); r.Some? && Bare(r.value)
  {
  }

  lemma ListSnoc(cs: seq<Config>, c: Config, nm: Naming)
    ensures ReadList(cs + [c], nm) ==
      if ReadList(cs, nm).None? || ReadOf(nm(c), c, nm).None? then None
      else Some(ReadList(cs, nm).value + [ReadOf(nm(c), c, nm).value])
  {
    assert (cs + [c])[..|cs|] == cs;
  }

  /** A list of single devices is read back in order, exactly if none of them has devices below it. */
  lemma {:induction false} LeavesRoundTrip(vs: seq<VDev>, ashift: int, stat: nat, nm: Naming)
    ensures var r := ReadList(AllWithStats(Leaves(vs, ashift), stat), nm);
      && r.Some? && |r.value| == |vs|
      && forall i | 0 <= i < |vs| ::
        r.value[i].typ == vs[i].typ && (SameShape(vs[i], r.value[i]) <==> vs[i].devices == [])
    decreases |vs|
  {
    hide SameShape, WithStats, ReadOf, Leaf;
    if vs != [] {
      var n := |vs| - 1;
      LeavesRoundTrip(vs[..n], ashift, stat, nm);
      assert Leaves(vs, ashift) == Leaves(vs[..n], ashift) + [Leaf(vs[n], ashift)];
      StatsSnoc(Leaves(vs[..n], ashift), Leaf(vs[n], ashift), stat);
      var c := WithStats(Leaf(vs[n], ashift), stat);
      LeafRoundTrip(vs[n], ashift, stat, nm(c), nm);
      ListSnoc(AllWithStats(Leaves(vs[..n], ashift), stat), c, nm);
    }
  }

  lemma LeafRoundTrip(v: VDev, ashift: int, stat: nat, name: string, nm: Naming)
    ensures var r := ReadOf(name, WithStats(Leaf(v, ashift), stat), nm);
      r.Some? && r.value.typ == v.typ && (SameShape(v, r.value) <==> v.devices == [])
  {
  }

  // ----- a whole pool -----

  /** The parts of the root `VDevTree` that `PoolCreate` passes on. */
  datatype PoolSpec = PoolSpec(devices: seq<VDev>, spares: seq<VDev>, l2cache: seq<VDev>)

  function Stored(spec: PoolSpec, ashift: int): Config {
    Extended(EMPTY.(typ := Some(ROOT)), spec.devices, spec.spares, spec.l2cache, ashift)
  }

  /** Every node of the specification that is reached has one in its place that describes it. */
  ghost predicate TreeDescribed(vs: seq<VDev>, ashift: int, cs: seq<Config>) {
    && |cs| == |vs|
    && (forall at, v | Reaches(vs, at, v) :: exists m :: StoredIn(cs, at, m))
    && (forall at, v, m | Reaches(vs, at, v) && StoredIn(cs, at, m) ::
      if Grouping(v.typ) then IsGroup(v, m) else IsDevice(v, ashift, m) && m.isLog == Some(0))
  }

  /** Device by device, in order. */
  ghost predicate ListDescribed(vs: seq<VDev>, ashift: int, list: NodeList) {
    if vs == [] then list == Absent
    else
      && list.NodeList? && |list.nodes| == |vs|
      && forall i | 0 <= i < |vs| :: IsDevice(vs[i], ashift, list.nodes[i])
  }

  /** The configuration of a whole pool. Without devices it has its type only. */
  ghost predicate RootDescribed(spec: PoolSpec, ashift: int, c: Config) {
    && c.typ == Some("root") && c.l2cache == Absent
    && (spec.devices == [] ==> c.children == Absent && c.spares == Absent)
    && (spec.devices != [] ==>
      && c.children.NodeList? && TreeDescribed(spec.devices, ashift, c.children.nodes)
      && ListDescribed(if spec.l2cache != [] then spec.l2cache else spec.spares, ashift, c.spares))
  }

  lemma StoredIsDescribed(spec: PoolSpec, ashift: int)
    ensures RootDescribed(spec, ashift, Stored(spec, ashift))
  {
    hide IsDevice, IsGroup, Grouping, BuiltAll, Leaves, Reaches, StoredIn;
    LeavesDescribe(spec.spares, ashift);
    LeavesDescribe(spec.l2cache, ashift);
    forall at, v | Reaches(spec.devices, at, v)
      ensures exists m :: StoredIn(BuiltAll(spec.devices, ashift), at, m)
    {
      StoredWhereSpecified(spec.devices, ashift, at, v);
      assert StoredIn(BuiltAll(spec.devices, ashift), at, Built(v, ashift));
    }
    forall at, v, m | Reaches(spec.devices, at, v) && StoredIn(BuiltAll(spec.devices, ashift), at, m)
      ensures if Grouping(v.typ) then IsGroup(v, m) else IsDevice(v, ashift, m) && m.isLog == Some(0)
    {
      StoredDescribes(spec.devices, ashift, at, v, m);
    }
  }

  /** The part of `PoolCreate` that makes the configuration. */
  method BuildRoot(spec: PoolSpec, ashift: int) returns (nvroot: NvList, ok: bool)
    ensures ok <==> AllFit(spec.devices)
    ensures ok ==> nvroot.data == Stored(spec, ashift) && RootDescribed(spec, ashift, nvroot.data)
  {
    hide Extended, AllFit, RootDescribed;
    nvroot := new NvList();
    nvroot.data := nvroot.data.(typ := Some(ROOT));
    ok := BuildVDevTree(nvroot, spec.devices, spec.spares, spec.l2cache, ashift);
    StoredIsDescribed(spec, ashift);
  }

  /** The part of `Pool.VDevTree` that reads it. The error of reading the spares is overwritten. */
  method ReadRoot(name: string, nvroot: Config, nm: Naming)
    returns (tree: VDev, spares: seq<VDev>, l2cache: seq<VDev>, ok: bool)
    ensures ok <==> AllReadable(nvroot) && (nvroot.l2cache.NodeList? ==> ReadList(nvroot.l2cache.nodes, nm).Some?)
    ensures ok ==> ReadOf(name, nvroot, nm) == Some(tree)
    ensures ok ==> l2cache == if nvroot.l2cache.NodeList? then ReadList(nvroot.l2cache.nodes, nm).value else []
    ensures ok && nvroot.spares == Absent ==> spares == []
    ensures ok && nvroot.spares.NodeList? && ReadList(nvroot.spares.nodes, nm).Some? ==>
      ReadList(nvroot.spares.nodes, nm) == Some(spares)
  {
    hide AllReadable, ReadOf;
    ReadIff(name, nvroot, nm);
    spares, l2cache := [], [];
    tree, ok := PoolGetConfig(name, nvroot, nm);
    if !ok {
      return;
    }
    spares, ok := PoolGetList(nvroot.spares, nm);
    l2cache, ok := PoolGetList(nvroot.l2cache, nm);
  }

  /** The stored configuration of an accepted pool, with statistics, can always be read. */
  lemma RootRoundTrip(spec: PoolSpec, ashift: int, stat: nat, name: string, nm: Naming)
    requires spec.devices != []
    ensures var r := ReadOf(name, WithStats(Stored(spec, ashift), stat), nm);
      && r.Some? && r.value.typ == ROOT && r.value.name == name && r.value.logs == NoLog
      && (SameShapes(spec.devices, r.value.devices) <==> forall i | 0 <= i < |spec.devices| :: Plain(spec.devices[i]))
      && Bare(r.value)
  {
    hide SameShape, Plain, ReadKids;
    NodesRoundTrip(spec.devices, ashift, stat, nm);
    NodesComeBare(spec.devices, ashift, stat, nm);
  }

  /** What comes back as spares: the spares, or the cache devices if there are any. */
  function BackAsSpares(spec: PoolSpec): seq<VDev> {
    if spec.l2cache != [] then spec.l2cache else spec.spares
  }

  lemma SparesRoundTrip(spec: PoolSpec, ashift: int, stat: nat, nm: Naming)
    requires spec.devices != []
    ensures var c := WithStats(Stored(spec, ashift), stat);
      && c.l2cache == Absent
      && (c.spares == Absent <==> BackAsSpares(spec) == [])
      && (c.spares.NodeList? ==> ReadList(c.spares.nodes, nm).Some?)
      && (c.spares.NodeList? ==>
            (SameShapes(BackAsSpares(spec), ReadList(c.spares.nodes, nm).value) <==>
             forall i | 0 <= i < |BackAsSpares(spec)| :: BackAsSpares(spec)[i].devices == []))
      && (c.spares.NodeList? ==>
        var w := ReadList(c.spares.nodes, nm).value; forall i | 0 <= i < |w| :: Bare(w[i]))
  {
    hide SameShape, ReadList, AllWithStats, Leaves, BuiltAll, Bare;
    LeavesRoundTrip(BackAsSpares(spec), ashift, stat, nm);
    LeavesComeBare(BackAsSpares(spec), ashift, stat, nm);
  }

  lemma NoSpares()
    ensures SameShapes([], [])
  {
  }

  /** Creating a pool and reading its configuration: an accepted, non-empty specification comes back
      with its types and device order at all depths, exactly if devices occur under grouping nodes
      only, and with its spares in order, exactly if none of them has devices below it. With cache
      devices, these come back as the spares, and the spares are lost. No path and no parity comes back. */
  method CreateThenRead(spec: PoolSpec, ashift: int, stat: nat, name: string, nm: Naming)
    returns (created: bool, tree: VDev, spares: seq<VDev>, l2cache: seq<VDev>, ok: bool)
    ensures created <==> AllFit(spec.devices)
    ensures created && spec.devices != [] ==>
      && ok && tree.typ == ROOT && tree.name == name && tree.logs == NoLog && l2cache == []
      && (SameShapes(spec.devices, tree.devices) <==> forall i | 0 <= i < |spec.devices| :: Plain(spec.devices[i]))
      && (SameShapes(BackAsSpares(spec), spares) <==>
          forall i | 0 <= i < |BackAsSpares(spec)| :: BackAsSpares(spec)[i].devices == [])
    ensures created && spec.devices != [] ==> Bare(tree) && forall i | 0 <= i < |spares| :: Bare(spares[i])
    ensures created && spec.devices == [] ==> ok && tree.devices == [] && spares == [] && l2cache == []
  {
    hide AllFit, SameShapes, Plain, AllReadable, Extended, ReadList, Bare, RootDescribed;
    tree, spares, l2cache, ok := Blank("", ""), [], [], false;
    var nvroot;
    nvroot, created := BuildRoot(spec, ashift);
    if !created {
      return;
    }
    var config := WithStats(nvroot.data, stat);
    ReadIff(name, config, nm);
    NoSpares();
    if spec.devices != [] {
      RootRoundTrip(spec, ashift, stat, name, nm);
      SparesRoundTrip(spec, ashift, stat, nm);
    } else {
      EmptyRoot(spec, ashift, stat, name, nm);
    }
    tree, spares, l2cache, ok := ReadRoot(name, config, nm);
  }

  lemma EmptyRoot(spec: PoolSpec, ashift: int, stat: nat, name: string, nm: Naming)
    requires spec.devices == []
    ensures var c := WithStats(Stored(spec, ashift), stat);
      && c.l2cache == Absent && c.spares == Absent
      && ReadOf(name, c, nm).Some? && ReadOf(name, c, nm).value.devices == []
  {
  }

  // ----- leaves -----

  /** The names of the devices at the ends of a tree that was read. */
  function TreeLeaves(v: VDev): set<string>
    decreases v, 1
  {
    if v.devices == [] && v.logs == NoLog then {v.name}
    else AllTreeLeaves(v.devices) + (if v.logs.LogRef? then TreeLeaves(v.logs.dev) else {})
  }

  function AllTreeLeaves(vs: seq<VDev>): set<string>
    decreases vs, 0
  {
    if vs == [] then {}
    else
      var n := |vs| - 1;
      AllTreeLeaves(vs[..n]) + TreeLeaves(vs[n])
  }

  ghost predicate OneLog(cs: seq<Config>) {
    forall i, j | 0 <= i < j < |cs| :: !(IsLog(cs[i]) && IsLog(cs[j]))
  }

  /** No node has two log children, and missing devices and holes have no children at all. */
  ghost predicate Tidy(c: Config) {
    && OneLog(Kids(c))
    && (c.typ.Some? && Skipped(c.typ.value) ==> Kids(c) == [])
    && (c.children.NodeList? ==> forall i | 0 <= i < |c.children.nodes| :: Tidy(c.children.nodes[i]))
  }

  ghost function PartLeaves(r: Parts): set<string> {
    AllTreeLeaves(r.devices) + (if r.logs.LogRef? then TreeLeaves(r.logs.dev) else {})
  }

  lemma {:induction false} KidsAgree(cs: seq<Config>, nm: Naming)
    requires ReadKids(cs, nm).Some? && OneLog(cs) && forall i | 0 <= i < |cs| :: Tidy(cs[i])
    ensures PartLeaves(ReadKids(cs, nm).value) - {INDIRECT} == AllLeafNames(cs, nm)
    ensures ReadKids(cs, nm).value.devices == [] && ReadKids(cs, nm).value.logs == NoLog <==> cs == []
    ensures ReadKids(cs, nm).value.logs.LogRef? ==> exists i | 0 <= i < |cs| :: IsLog(cs[i])
    decreases cs, 0
  {
    hide ReadOf, TreeLeaves, LeafNames, Tidy, IsLog;
    if cs != [] {
      var n := |cs| - 1;
      assert forall i | 0 <= i < n :: cs[..n][i] == cs[i];
      KidsAgree(cs[..n], nm);
      LeavesAgree(nm(cs[n]), cs[n], nm);
      var r, w := ReadKids(cs[..n], nm).value, ReadOf(nm(cs[n]), cs[n], nm).value;
      if !IsLog(cs[n]) {
        assert (r.devices + [w])[..|r.devices|] == r.devices;
      }
    }
  }

  /** The tree that was read and the collected names agree on the devices, but for "indirect". */
  lemma {:induction false} LeavesAgree(name: string, c: Config, nm: Naming)
    requires ReadOf(name, c, nm).Some? && Tidy(c) && (name == nm(c) || Kids(c) != [])
    ensures TreeLeaves(ReadOf(name, c, nm).value) - {INDIRECT} == LeafNames(c, nm)
    decreases c, 1
  {
    if Kids(c) != [] {
      KidsAgree(c.children.nodes, nm);
    }
  }

  // ----- exactly when the leaves agree -----

  /** The names at which either view can end: leaves, and skipped devices. */
  ghost function Ends(c: Config, nm: Naming): set<string>
    decreases c, 1
  {
    if c.children == Absent || c.children.nodes == [] then {nm(c)}
    else AllEnds(c.children.nodes, nm) + (if c.typ.Some? && Skipped(c.typ.value) then {nm(c)} else {})
  }

  ghost function AllEnds(cs: seq<Config>, nm: Naming): set<string>
    decreases cs, 0
  {
    if cs == [] then {}
    else
      var n := |cs| - 1;
      AllEnds(cs[..n], nm) + Ends(cs[n], nm)
  }

  /** The names of all leaves and skipped devices are different, and no leaf is called "indirect". */
  ghost predicate NamedApart(c: Config, nm: Naming)
    decreases c, 1
  {
    if c.children == Absent || c.children.nodes == [] then nm(c) != INDIRECT
    else
      && AllNamedApart(c.children.nodes, nm)
      && (c.typ.Some? && Skipped(c.typ.value) ==> nm(c) !in AllEnds(c.children.nodes, nm))
  }

  ghost predicate AllNamedApart(cs: seq<Config>, nm: Naming)
    decreases cs, 0
  {
    cs != [] ==>
      var n := |cs| - 1;
      AllNamedApart(cs[..n], nm) && NamedApart(cs[n], nm) && AllEnds(cs[..n], nm) !! Ends(cs[n], nm)
  }

  lemma {:induction false} LeavesAreEnds(c: Config, nm: Naming)
    requires NamedApart(c, nm)
    ensures LeafNames(c, nm) <= Ends(c, nm) && LeafNames(c, nm) != {}
    decreases c, 1
  {
    if c.children.NodeList? && c.children.nodes != [] {
      AllLeavesAreEnds(c.children.nodes, nm);
    }
  }

  lemma {:induction false} AllLeavesAreEnds(cs: seq<Config>, nm: Naming)
    requires AllNamedApart(cs, nm)
    ensures AllLeafNames(cs, nm) <= AllEnds(cs, nm) && (cs != [] ==> AllLeafNames(cs, nm) != {})
    decreases cs, 0
  {
    hide LeafNames, Ends, NamedApart;
    if cs != [] {
      var n := |cs| - 1;
      AllLeavesAreEnds(cs[..n], nm);
      LeavesAreEnds(cs[n], nm);
    }
  }

  /** What the children contribute to either view, and that a dropped log child makes them differ. */
  ghost predicate KidsView(cs: seq<Config>, nm: Naming)
    requires ReadKids(cs, nm).Some?
  {
    var r := ReadKids(cs, nm).value;
    && PartLeaves(r) <= AllEnds(cs, nm)
    && (PartLeaves(r) == AllLeafNames(cs, nm) <==> OneLog(cs) && forall i | 0 <= i < |cs| :: Tidy(cs[i]))
    && (r.logs.LogRef? <==> exists i | 0 <= i < |cs| :: IsLog(cs[i]))
    && (r.logs.LogRef? ==> exists n | n in AllLeafNames(cs, nm) :: n !in AllTreeLeaves(r.devices))
    && (r.devices == [] && r.logs == NoLog <==> cs == [])
  }

  lemma {:induction false} KidsAgreeIff(cs: seq<Config>, nm: Naming)
    requires ReadKids(cs, nm).Some? && AllNamedApart(cs, nm)
    ensures KidsView(cs, nm)
    decreases cs, 0
  {
    hide ReadOf, TreeLeaves, LeafNames, Ends, NamedApart, Tidy, IsLog;
    if cs != [] {
      var n := |cs| - 1;
      hide KidsView;
      assert cs == cs[..n] + [cs[n]];
      KidsAgreeIff(cs[..n], nm);
      LeavesAgreeIff(nm(cs[n]), cs[n], nm);
      AllLeavesAreEnds(cs[..n], nm);
      LeavesAreEnds(cs[n], nm);
      KidAdded(cs[..n], cs[n], nm);
    }
  }

  /** One more child. */
  lemma KidAdded(cs: seq<Config>, c: Config, nm: Naming)
    requires ReadKids(cs + [c], nm).Some? && ReadKids(cs, nm).Some? && ReadOf(nm(c), c, nm).Some? && KidsView(cs, nm)
    requires AllEnds(cs, nm) !! Ends(c, nm) && LeafNames(c, nm) <= Ends(c, nm) && LeafNames(c, nm) != {}
    requires AllLeafNames(cs, nm) <= AllEnds(cs, nm)
    requires TreeLeaves(ReadOf(nm(c), c, nm).value) <= Ends(c, nm)
    requires TreeLeaves(ReadOf(nm(c), c, nm).value) == LeafNames(c, nm) <==> Tidy(c)
    ensures KidsView(cs + [c], nm)
  {
    hide ReadOf, TreeLeaves, LeafNames, Ends, NamedApart, Tidy, IsLog;
    hide ReadKids, PartLeaves, AllLeafNames, AllEnds, AllTreeLeaves, OneLog;
    var all := cs + [c];
    var f, r, w := ReadKids(cs, nm).value, ReadKids(all, nm).value, ReadOf(nm(c), c, nm).value;
    assert all[|cs|] == c && forall i | 0 <= i < |cs| :: all[i] == cs[i];
    var l :| l in LeafNames(c, nm);
    OneLogAdded(cs, c);
    KidRead(cs, c, nm);
    if f.logs.LogRef? {
      var n :| n in AllLeafNames(cs, nm) && n !in AllTreeLeaves(f.devices);
      assert n in AllLeafNames(all, nm) && n !in AllTreeLeaves(r.devices);
    }
    if !(IsLog(c) && f.logs.LogRef?) {
      UnionsAgree(PartLeaves(f), AllLeafNames(cs, nm), AllEnds(cs, nm), TreeLeaves(w), LeafNames(c, nm), Ends(c, nm));
    }
  }

  /** What reading one more child adds to the tree's view and to the names. */
  lemma KidRead(cs: seq<Config>, c: Config, nm: Naming)
    requires ReadKids(cs + [c], nm).Some? && ReadKids(cs, nm).Some? && ReadOf(nm(c), c, nm).Some?
    ensures AllLeafNames(cs + [c], nm) == AllLeafNames(cs, nm) + LeafNames(c, nm)
    ensures AllEnds(cs + [c], nm) == AllEnds(cs, nm) + Ends(c, nm)
    ensures var f, r, w := ReadKids(cs, nm).value, ReadKids(cs + [c], nm).value, ReadOf(nm(c), c, nm).value;
      && PartLeaves(f) >= AllTreeLeaves(f.devices)
      && (f.logs.NoLog? ==> PartLeaves(f) == AllTreeLeaves(f.devices))
      && (IsLog(c) ==> r.logs.LogRef? && r.devices == f.devices)
      && (!IsLog(c) ==> r.logs == f.logs && r.devices == f.devices + [w])
      && PartLeaves(r) == (if IsLog(c) then AllTreeLeaves(f.devices) else PartLeaves(f)) + TreeLeaves(w)
      && AllTreeLeaves(r.devices) == AllTreeLeaves(f.devices) + (if IsLog(c) then {} else TreeLeaves(w))
  {
    hide ReadOf, TreeLeaves, LeafNames, Ends, IsLog;
    var all := cs + [c];
    var f, w := ReadKids(cs, nm).value, ReadOf(nm(c), c, nm).value;
    assert all[..|cs|] == cs && all[|cs|] == c;
    assert (f.devices + [w])[..|f.devices|] == f.devices;
  }

  lemma OneLogAdded(cs: seq<Config>, c: Config)
    ensures OneLog(cs + [c]) <==> OneLog(cs) && (IsLog(c) ==> forall i | 0 <= i < |cs| :: !IsLog(cs[i]))
  {
    hide IsLog;
    var all := cs + [c];
    assert all[|cs|] == c && forall i | 0 <= i < |cs| :: all[i] == cs[i];
    if OneLog(all) && IsLog(c) {
      assert forall i | 0 <= i < |cs| :: !(IsLog(all[i]) && IsLog(all[|cs|]));
    }
  }

  lemma UnionsAgree(a: set<string>, a': set<string>, x: set<string>, b: set<string>, b': set<string>, y: set<string>)
    requires a <= x && a' <= x && b <= y && b' <= y && x !! y
    ensures a + b == a' + b' <==> a == a' && b == b'
  {
    if a + b == a' + b' {
      assert a == (a + b) * x && a' == (a' + b') * x;
      assert b == (a + b) * y && b' == (a' + b') * y;
    }
  }

  /** If the names are different, the tree that was read and the collected names agree exactly if no
      node the reader comes to has two log children, and no skipped one has any children. */
  lemma {:induction false} LeavesAgreeIff(name: string, c: Config, nm: Naming)
    requires ReadOf(name, c, nm).Some? && NamedApart(c, nm)
    requires (name == nm(c) || (Kids(c) != [] && !Skipped(c.typ.value)))
    ensures TreeLeaves(ReadOf(name, c, nm).value) <= Ends(c, nm)
    ensures TreeLeaves(ReadOf(name, c, nm).value) == LeafNames(c, nm) <==> Tidy(c)
    decreases c, 1
  {
    if Kids(c) != [] {
      var cs := c.children.nodes;
      if Skipped(c.typ.value) {
        AllLeavesAreEnds(cs, nm);
        assert nm(c) !in AllLeafNames(cs, nm);
      } else {
        KidsAgreeIff(cs, nm);
      }
    }
  }

  /** Of several log children only the last is kept. */
  lemma {:induction false} LastLogIsKept(cs: seq<Config>, nm: Naming, i: nat)
    requires ReadKids(cs, nm).Some? && i < |cs| && IsLog(cs[i]) && forall j | i < j < |cs| :: !IsLog(cs[j])
    ensures ReadOf(nm(cs[i]), cs[i], nm).Some?
    ensures ReadKids(cs, nm).value.logs == LogRef(ReadOf(nm(cs[i]), cs[i], nm).value)
    decreases |cs|
  {
    hide ReadOf;
    var n := |cs| - 1;
    if i < n {
      assert forall j | 0 <= j < n :: cs[..n][j] == cs[j];
      LastLogIsKept(cs[..n], nm, i);
    }
  }

  function Disk(path: string, isLog: nat): Config {
    EMPTY.(typ := Some("disk"), isLog := Some(isLog), path := Some(path), stats := Some(0))
  }

  /** So two log devices are enough for the tree and the collected names to disagree. */
  lemma TwoLogsDisagree(nm: Naming)
    requires forall p, l :: nm(Disk(p, l)) == p
    ensures var c := EMPTY.(typ := Some(ROOT), stats := Some(0), children := NodeList([Disk("a", 1), Disk("b", 1)]));
      && ReadOf("pool", c, nm).Some? && !OneLog(Kids(c))
      && TreeLeaves(ReadOf("pool", c, nm).value) == {"b"} && LeafNames(c, nm) == {"a", "b"}
  {
    var a, b := Disk("a", 1), Disk("b", 1);
    var cs := [a, b];
    assert nm(a) == "a" && nm(b) == "b";
    assert cs[..1] == [a] && [a][..0] == [];
    assert ReadOf("a", a, nm).Some? && ReadOf("b", b, nm).Some?;
    assert IsLog(cs[0]) && IsLog(cs[1]);
    assert AllLeafNames([a], nm) == {"a"};
  }
}
