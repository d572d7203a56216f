/** Reading a device configuration back: the tree of structs, the spares, and the names of the
    leaves that C collects from the same configuration. */
module VdevReading {
  import opened Pools
  import opened VdevBuilding

  /** How libzfs names a device. */
  type Naming = Config -> string

  predicate Skipped(t: string) {
    t == MISSING || t == HOLE
  }

  predicate IsLog(c: Config) {
    c.isLog.Some? && c.isLog.value != 0
  }

  function Kids(c: Config): seq<Config> {
    if c.children.NodeList? then c.children.nodes else []
  }

  function Blank(name: string, typ: string): VDev {
    VDev(typ, [], NoLog, 0, "", name, 0, 0)
  }

  /** The path of a device is read only if it is marked as not present. */
  function PathOf(c: Config): string {
    if c.notPresent.Some? && c.path.Some? then c.path.value else ""
  }

  /** The tree read from `c`, if it can be read. */
  function ReadOf(name: string, c: Config, nm: Naming): Option<VDev>
    decreases c, 1
  {
    if c.typ.None? then None
    else if Skipped(c.typ.value) then Some(Blank(name, c.typ.value))
    else if c.stats.None? then None
    else
      var r := if c.children.NodeList? then ReadKids(c.children.nodes, nm) else Some(Parts([], NoLog));
      if r.None? then None
      else Some(VDev(c.typ.value, r.value.devices, r.value.logs, 0, PathOf(c), name,
                     if c.guid.Some? then c.guid.value else 0, c.stats.value))
  }

  datatype Parts = Parts(devices: seq<VDev>, logs: LogRef)

  /** The children: log devices apart, of which the last one is kept. */
  function ReadKids(cs: seq<Config>, nm: Naming): Option<Parts>
    decreases cs, 0
  {
    if cs == [] then Some(Parts([], NoLog))
    else
      var n := |cs| - 1;
      var r, k := ReadKids(cs[..n], nm), ReadOf(nm(cs[n]), cs[n], nm);
      if r.None? || k.None? then None
      else if IsLog(cs[n]) then Some(r.value.(logs := LogRef(k.value)))
      else Some(r.value.(devices := r.value.devices + [k.value]))
  }

  /** The list read from `cs`, every member as a tree. */
  function ReadList(cs: seq<Config>, nm: Naming): Option<seq<VDev>> {
    if cs == [] then Some([])
    else
      var n := |cs| - 1;
      var r, k := ReadList(cs[..n], nm), ReadOf(nm(cs[n]), cs[n], nm);
      if r.None? || k.None? then None else Some(r.value + [k.value])
  }

  // ----- the code -----

  /** `poolGetConfig`. */
  method PoolGetConfig(name: string, nv: Config, nm: Naming) returns (vdevs: VDev, ok: bool)
    ensures ok <==> ReadOf(name, nv, nm).Some?
    ensures ok ==> vdevs == ReadOf(name, nv, nm).value
    decreases nv
  {
    vdevs, ok := Blank("", ""), true;
    if nv.typ.None? {
      ok := false;
      return;
    }
    vdevs := vdevs.(name := name);
    vdevs := vdevs.(typ := nv.typ.value);
    if vdevs.typ == MISSING || vdevs.typ == HOLE {
      return;
    }
    vdevs := vdevs.(guid := if nv.guid.Some? then nv.guid.value else 0);
    if nv.stats.None? {
      ok := false;
      return;
    }
    vdevs := vdevs.(stat := nv.stats.value);
    if nv.notPresent.Some? && nv.path.Some? {
      vdevs := vdevs.(path := nv.path.value);
    }
    ghost var start := vdevs;
    if nv.children.NodeList? {
      var cs := nv.children.nodes;
      assert cs[..0] == [];
      for c := 0 to |cs|
        invariant ok && ReadKids(cs[..c], nm).Some?
        invariant var read := ReadKids(cs[..c], nm).value;
          vdevs == start.(devices := read.devices, logs := read.logs)
      {
        assert cs[..c + 1][..c] == cs[..c];
        var vdev;
        vdev, ok := PoolGetConfig(nm(cs[c]), cs[c], nm);
        if !ok {
          KidUnreadable(cs, c + 1, nm);
          return;
        }
        if IsLog(cs[c]) {
          vdevs := vdevs.(logs := LogRef(vdev));
        } else {
          vdevs := vdevs.(devices := vdevs.devices + [vdev]);
        }
      }
      assert cs[..|cs|] == cs;
    }
  }

  lemma {:induction false} KidUnreadable(cs: seq<Config>, n: nat, nm: Naming)
    requires n <= |cs| && ReadKids(cs[..n], nm).None?
    ensures ReadKids(cs, nm).None?
    decreases |cs|
  {
    if n == |cs| {
      assert cs[..n] == cs;
    } else {
      assert cs[..|cs| - 1][..n] == cs[..n];
      KidUnreadable(cs[..|cs| - 1], n, nm);
    }
  }

  lemma {:induction false} ListUnreadable(cs: seq<Config>, n: nat, nm: Naming)
    requires n <= |cs| && ReadList(cs[..n], nm).None?
    ensures ReadList(cs, nm).None?
    decreases |cs|
  {
    if n == |cs| {
      assert cs[..n] == cs;
    } else {
      assert cs[..|cs| - 1][..n] == cs[..n];
      ListUnreadable(cs[..|cs| - 1], n, nm);
    }
  }

  /** `poolGetSpares`, and `poolGetL2Cache` on the other key. */
  method PoolGetList(list: NodeList, nm: Naming) returns (vdevs: seq<VDev>, ok: bool)
    ensures ok <==> list.NodeList? ==> ReadList(list.nodes, nm).Some?
    ensures ok ==> vdevs == if list.NodeList? then ReadList(list.nodes, nm).value else []
  {
    vdevs, ok := [], true;
    if list.NodeList? {
      var cs := list.nodes;
      for c := 0 to |cs|
        invariant ok && ReadList(cs[..c], nm) == Some(vdevs)
      {
        assert cs[..c + 1][..c] == cs[..c];
        var vdev;
        vdev, ok := PoolGetConfig(nm(cs[c]), cs[c], nm);
        if !ok {
          ListUnreadable(cs, c + 1, nm);
          return;
        }
        vdevs := vdevs + [vdev];
      }
      assert cs[..|cs|] == cs;
    }
  }

  /** An nvlist of boolean entries with unique names. */
  class NameList {
    var names: set<string>

    constructor ()
      ensures names == {}
    {
      names := {};
    }
  }

  const INDIRECT := "indirect"

  function LeafNames(c: Config, nm: Naming): set<string>
    decreases c, 1
  {
    if c.children == Absent || c.children.nodes == [] then (if nm(c) == INDIRECT then {} else {nm(c)})
    else AllLeafNames(c.children.nodes, nm)
  }

  function AllLeafNames(cs: seq<Config>, nm: Naming): set<string>
    decreases cs, 0
  {
    if cs == [] then {}
    else
      var n := |cs| - 1;
      AllLeafNames(cs[..n], nm) + LeafNames(cs[n], nm)
  }

  /** `collect_zpool_leaves`: adds the name of every node without children, except "indirect". */
  method CollectLeaves(nvroot: Config, nv: NameList, nm: Naming)
    modifies nv
    ensures nv.names == old(nv.names) + LeafNames(nvroot, nm)
    decreases nvroot
  {
    var child := Kids(nvroot);
    if |child| == 0 {
      var path := nm(nvroot);
      if path != INDIRECT {
        nv.names := nv.names + {path};
      }
      return;
    }
    for i := 0 to |child|
      invariant nv.names == old(nv.names) + AllLeafNames(child[..i], nm)
    {
      assert child[..i + 1][..i] == child[..i];
      CollectLeaves(child[i], nv, nm);
    }
    assert child[..|child|] == child;
  }
}
