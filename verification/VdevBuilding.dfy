/** Building a pool's device configuration from a specification of virtual devices. */
module VdevBuilding {
  import opened Pools

  /** `VDevTree`; `guid` and `stat` stand for what is read back besides. */
  datatype VDev = VDev(typ: string, devices: seq<VDev>, logs: LogRef, parity: nat, path: string,
                       name: string, guid: nat, stat: nat)
  datatype LogRef = NoLog | LogRef(dev: VDev)

  /** The contents of an nvlist, as far as these keys go. A list that is added as a value is copied. */
  datatype Config = Config(typ: Option<string>, isLog: Option<nat>, wholeDisk: Option<nat>, path: Option<string>,
                           ashift: Option<nat>, nparity: Option<nat>, notPresent: Option<nat>, guid: Option<nat>,
                           stats: Option<nat>, children: NodeList, spares: NodeList, l2cache: NodeList)
  datatype NodeList = Absent | NodeList(nodes: seq<Config>)

  const EMPTY: Config := Config(None, None, None, None, None, None, None, None, None, Absent, Absent, Absent)

  const RAIDZ := "raidz"
  const MIRROR := "mirror"
  const LOG := "log"
  const SPARE := "spare"
  const L2CACHE := "l2cache"
  const MISSING := "missing"
  const HOLE := "hole"
  const ROOT := "root"

  const MAX_INT: nat := 0x7FFF_FFFF_FFFF_FFFF

  // ----- what a specification must look like -----

  predicate Grouping(t: string) {
    t == RAIDZ || t == MIRROR || t == LOG || t == SPARE || t == L2CACHE
  }

  /** How many devices a node needs and allows. A raidz node needs one more than it has parity
      devices, and has at least 1 and at most 254 of those. */
  predicate Fits(v: VDev) {
    if v.typ == RAIDZ then
      |v.devices| <= 255 && |v.devices| >= 2 && (|v.devices| > v.parity || |v.devices| == 255)
    else if v.typ == MIRROR then 2 <= |v.devices| <= MAX_INT
    else if Grouping(v.typ) then 1 <= |v.devices| <= MAX_INT
    else |v.devices| <= MAX_INT
  }

  /** The bounds, type by type. */
  lemma BoundsAre(v: VDev)
    ensures Grouping(v.typ) <==> v.typ in {"raidz", "mirror", "log", "spare", "l2cache"}
    ensures v.typ == "raidz" ==>
      (Fits(v) <==> 2 <= |v.devices| <= 255 && (if v.parity > 254 then |v.devices| == 255 else |v.devices| > v.parity))
    ensures v.typ == "mirror" ==> (Fits(v) <==> 2 <= |v.devices| <= 0x7FFF_FFFF_FFFF_FFFF)
    ensures v.typ in {"log", "spare", "l2cache"} ==> (Fits(v) <==> 1 <= |v.devices| <= 0x7FFF_FFFF_FFFF_FFFF)
    ensures !Grouping(v.typ) ==> (Fits(v) <==> |v.devices| <= 0x7FFF_FFFF_FFFF_FFFF)
  {
  }

  /** `v` is found in `vs` by going down through grouping nodes only. */
  ghost predicate Reaches(vs: seq<VDev>, at: seq<nat>, v: VDev)
    decreases |at|
  {
    && at != [] && at[0] < |vs|
    && if |at| == 1 then v == vs[at[0]] else Grouping(vs[at[0]].typ) && Reaches(vs[at[0]].devices, at[1..], v)
  }

  ghost predicate AllFit(vs: seq<VDev>) {
    forall at, v | Reaches(vs, at, v) :: Fits(v)
  }

  lemma AllFitMeans(vs: seq<VDev>)
    ensures AllFit(vs) <==> forall i | 0 <= i < |vs| :: Fits(vs[i]) && (Grouping(vs[i].typ) ==> AllFit(vs[i].devices))
  {
    hide Fits, Grouping;
    forall i | AllFit(vs) && 0 <= i < |vs|
      ensures Fits(vs[i]) && (Grouping(vs[i].typ) ==> AllFit(vs[i].devices))
    {
      assert Reaches(vs, [i], vs[i]);
      forall at, v | Grouping(vs[i].typ) && Reaches(vs[i].devices, at, v)
        ensures Fits(v)
      {
        assert ([i] + at)[1..] == at;
        assert Reaches(vs, [i] + at, v);
      }
    }
    forall at, v | !AllFit(vs) && Reaches(vs, at, v) && !Fits(v)
      ensures exists i | 0 <= i < |vs| :: !Fits(vs[i]) || (Grouping(vs[i].typ) && !AllFit(vs[i].devices))
    {
      var i := at[0];
      if |at| > 1 {
        assert Reaches(vs[i].devices, at[1..], v);
      }
    }
  }

  // ----- what is stored -----

  function Clamped(parity: nat): nat {
    if parity == 0 then 1 else if parity > 254 then 254 else parity
  }

  /** A single device; devices below it are not stored. */
  function Leaf(v: VDev, ashift: int): Config {
    EMPTY.(typ := Some(v.typ), isLog := Some(if v.typ == LOG then 1 else 0), wholeDisk := Some(1),
    path := if v.path == "" then None else Some(v.path),
    ashift := if v.path != "" && ashift > 0 then Some(ashift) else None)
  }

  function Leaves(vs: seq<VDev>, ashift: int): seq<Config> {
    seq(|vs|, i requires 0 <= i < |vs| => Leaf(vs[i], ashift))
  }

  function Built(v: VDev, ashift: int): Config
    decreases v
  {
    if Grouping(v.typ) then
      EMPTY.(typ := Some(v.typ), nparity := if v.typ == RAIDZ then Some(Clamped(v.parity)) else None,
      children := NodeList(BuiltAll(v.devices, ashift)))
    else Leaf(v, ashift)
  }

  function BuiltAll(vs: seq<VDev>, ashift: int): (cs: seq<Config>)
    ensures |cs| == |vs|
    decreases vs
  {
    seq(|vs|, i requires 0 <= i < |vs| => Built(vs[i], ashift))
  }

  /** The root's nvlist after a successful build. Without devices nothing is stored at all; a cache
      list is stored under the key of the spares, in place of them. */
  function Extended(c: Config, vs: seq<VDev>, spares: seq<VDev>, l2cache: seq<VDev>, ashift: int): Config {
    if vs == [] then c
    else c.(children := NodeList(BuiltAll(vs, ashift)),
    spares := if l2cache != [] then NodeList(Leaves(l2cache, ashift))
              else if spares != [] then NodeList(Leaves(spares, ashift)) else c.spares)
  }

  // ----- nvlists on the C heap -----

  class NvList {
    var data: Config

    /** `nvlist_alloc`. */
    constructor ()
      ensures data == EMPTY
    {
      data := EMPTY;
    }
  }

  /** `nvlist_add_nvlist_array`: copies the contents of the array's lists. */
  method CopyArray(a: array<NvList?>) returns (cs: seq<Config>)
    requires forall i | 0 <= i < a.Length :: a[i] != null
    ensures |cs| == a.Length && forall i | 0 <= i < a.Length :: cs[i] == a[i].data
  {
    cs := [];
    for i := 0 to a.Length
      invariant |cs| == i && forall j | 0 <= j < i :: cs[j] == a[j].data
    {
      cs := cs + [a[i].data];
    }
  }

  /** `isGrouping`, which also puts the parity of a raidz node within its bounds. */
  method IsGrouping(vdev: VDev) returns (vdev': VDev, grouping: bool, mindevs: int, maxdevs: int)
    ensures grouping == Grouping(vdev.typ)
    ensures mindevs <= |vdev.devices| <= maxdevs <==> Fits(vdev)
    ensures vdev.typ == RAIDZ ==> 1 <= vdev'.parity <= 254 && mindevs == vdev'.parity + 1 && maxdevs == 255
    ensures vdev.typ == "mirror" ==> grouping && mindevs == 2 && maxdevs == 0x7FFF_FFFF_FFFF_FFFF
    ensures vdev.typ in {"log", "spare", "l2cache"} ==> grouping && mindevs == 1 && maxdevs == 0x7FFF_FFFF_FFFF_FFFF
    ensures !grouping ==> mindevs == 0 && maxdevs == 0x7FFF_FFFF_FFFF_FFFF
    ensures vdev.typ == RAIDZ && 1 <= vdev.parity <= 254 ==> vdev' == vdev
    ensures vdev.typ == RAIDZ ==> vdev' == vdev.(parity := Clamped(vdev.parity))
    ensures vdev.typ != RAIDZ ==> vdev' == vdev
  {
    vdev', grouping, mindevs, maxdevs := vdev, false, 0, MAX_INT;
    if vdev'.typ == RAIDZ {
      grouping := true;
      if vdev'.parity == 0 {
        vdev' := vdev'.(parity := 1);
      }
      if vdev'.parity > 254 {
        vdev' := vdev'.(parity := 254);
      }
      mindevs := vdev'.parity + 1;
      maxdevs := 255;
    } else if vdev'.typ == MIRROR {
      grouping := true;
      mindevs := 2;
    } else if vdev'.typ == LOG || vdev'.typ == SPARE || vdev'.typ == L2CACHE {
      grouping := true;
      mindevs := 1;
    }
  }

  /** `buildVdev`. */
  method BuildVdev(vdev: VDev, ashift: int) returns (nv: NvList)
    ensures fresh(nv) && nv.data == Leaf(vdev, ashift)
  {
    nv := new NvList();
    nv.data := nv.data.(typ := Some(vdev.typ));
    nv.data := nv.data.(isLog := Some(if vdev.typ == LOG then 1 else 0));
    nv.data := nv.data.(wholeDisk := Some(1));
    if |vdev.path| > 0 {
      nv.data := nv.data.(path := Some(vdev.path));
      if ashift > 0 {
        nv.data := nv.data.(ashift := Some(ashift));
      }
    }
  }

  /** The common loop of `buildVdevSpares` and `buildVdevL2Cache`. */
  method BuildLeaves(vdevs: seq<VDev>, ashift: int) returns (cs: seq<Config>)
    ensures cs == Leaves(vdevs, ashift)
  {
    hide Leaf;
    var a := new NvList?[|vdevs|](_ => null);
    for i := 0 to |vdevs|
      invariant forall j | 0 <= j < i :: a[j] != null && a[j].data == Leaf(vdevs[j], ashift)
    {
      a[i] := BuildVdev(vdevs[i], ashift);
    }
    cs := CopyArray(a);
  }

  method BuildVdevSpares(root: NvList, vdevs: seq<VDev>, ashift: int)
    modifies root
    ensures root.data ==
      if vdevs == [] then old(root.data) else old(root.data).(spares := NodeList(Leaves(vdevs, ashift)))
  {
    if |vdevs| != 0 {
      var cs := BuildLeaves(vdevs, ashift);
      root.data := root.data.(spares := NodeList(cs));
    }
  }

  /** Writes to the same key as `BuildVdevSpares`. */
  method BuildVdevL2Cache(root: NvList, vdevs: seq<VDev>, ashift: int)
    modifies root
    ensures root.data ==
      if vdevs == [] then old(root.data) else old(root.data).(spares := NodeList(Leaves(vdevs, ashift)))
  {
    if |vdevs| != 0 {
      var cs := BuildLeaves(vdevs, ashift);
      root.data := root.data.(spares := NodeList(cs));
    }
  }

  /** `buildVDevTree`: succeeds exactly if every node reached through grouping nodes fits, and then
      has stored the whole tree; otherwise it has stored nothing. */
  method BuildVDevTree(root: NvList, vdevs: seq<VDev>, spares: seq<VDev>, l2cache: seq<VDev>, ashift: int)
    returns (ok: bool)
    modifies root
    ensures ok <==> AllFit(vdevs)
    ensures root.data == if ok then Extended(old(root.data), vdevs, spares, l2cache, ashift) else old(root.data)
    decreases vdevs
  {
    hide Fits, Leaf, AllFit;
    ok := true;
    AllFitMeans(vdevs);
    var count := |vdevs|;
    if count == 0 {
      return;
    }
    var childrens := new NvList?[count](_ => null);
    for i := 0 to count
      invariant root.data == old(root.data)
      invariant forall j | 0 <= j < i :: Fits(vdevs[j]) && (Grouping(vdevs[j].typ) ==> AllFit(vdevs[j].devices))
      invariant forall j | 0 <= j < i ::
        childrens[j] != null && childrens[j] != root && childrens[j].data == Built(vdevs[j], ashift)
    {
      var child;
      child, ok := BuildOne(vdevs[i], ashift);
      if !ok {
        return;
      }
      childrens[i] := child;
    }
    var cs := CopyArray(childrens);
    assert cs == BuiltAll(vdevs, ashift);
    root.data := root.data.(children := NodeList(cs));
    if |spares| > 0 {
      BuildVdevSpares(root, spares, ashift);
    }
    if |l2cache| > 0 {
      BuildVdevL2Cache(root, l2cache, ashift);
    }
  }

  /** One round of that loop. */
  method BuildOne(spec: VDev, ashift: int) returns (child: NvList, ok: bool)
    ensures ok <==> Fits(spec) && (Grouping(spec.typ) ==> AllFit(spec.devices))
    ensures fresh(child) && (ok ==> child.data == Built(spec, ashift))
    decreases spec
  {
    hide Fits, Leaf, AllFit;
    var vdev, grouping, mindevs, maxdevs := IsGrouping(spec);
    child := new NvList();
    ok := true;
    if |vdev.devices| < mindevs || |vdev.devices| > maxdevs {
      ok := false;
      return;
    }
    if grouping {
      child.data := child.data.(typ := Some(vdev.typ));
      if vdev.typ == RAIDZ {
        child.data := child.data.(nparity := Some(mindevs - 1));
      }
      ok := BuildVDevTree(child, vdev.devices, [], [], ashift);
      GroupIsNotEmpty(spec);
    } else {
      child := BuildVdev(vdev, ashift);
    }
  }

  lemma GroupIsNotEmpty(v: VDev)
    requires Fits(v) && Grouping(v.typ)
    ensures v.devices != []
  {
  }

  // ----- properties of accepted specifications -----

  /** `m` is stored somewhere below the nodes `cs`. */
  ghost predicate StoredIn(cs: seq<Config>, at: seq<nat>, m: Config)
    decreases |at|
  {
    && at != [] && at[0] < |cs|
    && if |at| == 1 then m == cs[at[0]]
       else cs[at[0]].children.NodeList? && StoredIn(cs[at[0]].children.nodes, at[1..], m)
  }

  /** Every raidz node that is stored has a parity between 1 and 254 and more devices than that,
      at most 255; every mirror has at least two. */
  lemma {:induction false} StoredWithinBounds(vs: seq<VDev>, ashift: int, at: seq<nat>, m: Config)
    requires AllFit(vs) && StoredIn(BuiltAll(vs, ashift), at, m)
    ensures m.typ == Some(RAIDZ) ==>
      && m.nparity.Some? && 1 <= m.nparity.value <= 254
      && m.children.NodeList? && m.nparity.value + 1 <= |m.children.nodes| <= 255
    ensures m.typ == Some(MIRROR) ==> m.children.NodeList? && |m.children.nodes| >= 2
    decreases |at|
  {
    hide AllFit;
    AllFitMeans(vs);
    var v := vs[at[0]];
    if |at| > 1 {
      StoredWithinBounds(v.devices, ashift, at[1..], m);
    }
  }

  // ----- what a stored node says -----

  /** `m` describes the single device `v`: its type, whether that is "log", that it has the whole disk,
      its path if it has one, and then, if positive, the ashift; and nothing else. */
  ghost predicate IsDevice(v: VDev, ashift: int, m: Config) {
    && m.typ == Some(v.typ)
    && m.isLog == Some(if v.typ == "log" then 1 else 0)
    && m.wholeDisk == Some(1)
    && (m.path.Some? <==> v.path != "") && (m.path.Some? ==> m.path.value == v.path)
    && (m.ashift.Some? <==> v.path != "" && ashift > 0) && (m.ashift.Some? ==> m.ashift.value == ashift)
    && m.children == Absent && m.nparity == None
    && m.notPresent == None && m.guid == None && m.stats == None && m.spares == Absent && m.l2cache == Absent
  }

  /** `m` describes the grouping node `v`: its type, as many children as `v` has devices, the parity if it
      is a raidz node, and nothing else. */
  ghost predicate IsGroup(v: VDev, m: Config) {
    && m.typ == Some(v.typ)
    && m.children.NodeList? && |m.children.nodes| == |v.devices|
    && (m.nparity.Some? <==> v.typ == "raidz")
    && (m.nparity.Some? ==> m.nparity.value == if v.parity < 1 then 1 else if v.parity <= 254 then v.parity else 254)
    && m.isLog == None && m.wholeDisk == None && m.path == None && m.ashift == None
    && m.notPresent == None && m.guid == None && m.stats == None && m.spares == Absent && m.l2cache == Absent
  }

  /** Whatever is stored describes the node of the specification in that place. */
  lemma {:induction false} StoredDescribes(vs: seq<VDev>, ashift: int, at: seq<nat>, v: VDev, m: Config)
    requires Reaches(vs, at, v) && StoredIn(BuiltAll(vs, ashift), at, m)
    ensures !Grouping(v.typ) ==> IsDevice(v, ashift, m) && m.isLog == Some(0)
    ensures Grouping(v.typ) ==> IsGroup(v, m)
    decreases |at|
  {
    assert BuiltAll(vs, ashift)[at[0]] == Built(vs[at[0]], ashift);
    if |at| > 1 {
      StoredDescribes(vs[at[0]].devices, ashift, at[1..], v, m);
    }
  }

  lemma LeavesDescribe(vs: seq<VDev>, ashift: int)
    ensures |Leaves(vs, ashift)| == |vs| && forall i | 0 <= i < |vs| :: IsDevice(vs[i], ashift, Leaves(vs, ashift)[i])
  {
  }

  /** A node of the specification is stored at the same place, and nothing else is stored there. */
  lemma {:induction false} StoredWhereSpecified(vs: seq<VDev>, ashift: int, at: seq<nat>, v: VDev)
    requires Reaches(vs, at, v)
    ensures forall m :: StoredIn(BuiltAll(vs, ashift), at, m) <==> m == Built(v, ashift)
    ensures v.typ == RAIDZ && 1 <= v.parity <= 254 ==> Built(v, ashift).nparity == Some(v.parity)
    decreases |at|
  {
    assert BuiltAll(vs, ashift)[at[0]] == Built(vs[at[0]], ashift);
    if |at| > 1 {
      StoredWhereSpecified(vs[at[0]].devices, ashift, at[1..], v);
    }
  }
}
