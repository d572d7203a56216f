/** Where each node of a configuration ends up in the tree that is read, and with what contents. */
module VdevPlaces {
  import opened Pools
  import opened VdevBuilding
  import opened VdevReading
  import opened VdevRoundTrip

  /** How many of the nodes are no log devices. */
  function Others(cs: seq<Config>): nat {
    if cs == [] then 0 else Others(cs[..|cs| - 1]) + (if IsLog(cs[|cs| - 1]) then 0 else 1)
  }

  /** No log device comes after number `i`. */
  ghost predicate LastLog(cs: seq<Config>, i: nat) {
    forall j | i < j < |cs| :: !IsLog(cs[j])
  }

  /** The node at `at` is not dropped on the way: of several log devices only the last is kept. */
  ghost predicate Kept(c: Config, at: seq<nat>)
    decreases |at|
  {
    at != [] ==>
      && at[0] < |Kids(c)| && (IsLog(Kids(c)[at[0]]) ==> LastLog(Kids(c), at[0]))
      && Kept(Kids(c)[at[0]], at[1..])
  }

  /** The struct in the place of that node: log devices are apart, and do not count among the others. */
  function StructAt(c: Config, at: seq<nat>, v: VDev): Option<VDev>
    decreases |at|
  {
    if at == [] then Some(v)
    else if at[0] >= |Kids(c)| then None
    else
      var k, n := Kids(c)[at[0]], Others(Kids(c)[..at[0]]);
      if IsLog(k) then (if v.logs.LogRef? then StructAt(k, at[1..], v.logs.dev) else None)
      else if n < |v.devices| then StructAt(k, at[1..], v.devices[n]) else None
  }

  /** The struct `w` tells of node `m`: its type; and unless it is a missing device or a hole, its guid,
      its statistics, and its path if it is marked as not present. Of a missing device or a hole it tells
      no more. The parity is never read. */
  ghost predicate Tells(m: Config, w: VDev) {
    && m.typ == Some(w.typ) && w.parity == 0
    && (w.typ == "missing" || w.typ == "hole" ==>
      w.devices == [] && w.logs == NoLog && w.path == "" && w.guid == 0 && w.stat == 0)
    && (w.typ != "missing" && w.typ != "hole" ==>
      && m.stats == Some(w.stat)
      && (m.guid.Some? ==> w.guid == m.guid.value) && (m.guid.None? ==> w.guid == 0)
      && (m.notPresent.None? ==> w.path == "")
      && (m.notPresent.Some? && m.path.Some? ==> w.path == m.path.value)
      && (m.path.None? ==> w.path == "")
      && |w.devices| == Others(Kids(m))
      && (w.logs.LogRef? <==> exists i | 0 <= i < |Kids(m)| :: IsLog(Kids(m)[i])))
  }

  /** Each child is in its place: the others in order, the last log device apart. */
  ghost predicate InPlace(cs: seq<Config>, r: Parts, nm: Naming) {
    && |r.devices| == Others(cs)
    && (forall i | 0 <= i < |cs| :: KidInPlace(cs, r, nm, i))
    && (r.logs.LogRef? <==> exists i | 0 <= i < |cs| :: IsLog(cs[i]))
  }

  ghost predicate KidInPlace(cs: seq<Config>, r: Parts, nm: Naming, i: nat)
    requires i < |cs|
  {
    var w, n := ReadOf(nm(cs[i]), cs[i], nm), Others(cs[..i]);
    && w.Some?
    && (!IsLog(cs[i]) ==> n < |r.devices| && r.devices[n] == w.value)
    && (IsLog(cs[i]) && LastLog(cs, i) ==> r.logs == LogRef(w.value))
  }

  lemma {:induction false} KidsInPlace(cs: seq<Config>, nm: Naming)
    requires ReadKids(cs, nm).Some?
    ensures InPlace(cs, ReadKids(cs, nm).value, nm)
    decreases |cs|
  {
    hide ReadOf, IsLog, KidInPlace;
    if cs != [] {
      var n := |cs| - 1;
      KidsInPlace(cs[..n], nm);
      assert cs[..n] + [cs[n]] == cs;
      var f := ReadKids(cs[..n], nm).value;
      forall i | 0 <= i < |cs|
        ensures KidInPlace(cs, ReadKids(cs, nm).value, nm, i)
      {
        OneMoreInPlace(cs, f, nm, i);
      }
      assert forall i | 0 <= i < n :: cs[..n][i] == cs[i];
    }
  }

  lemma OneMoreInPlace(cs: seq<Config>, f: Parts, nm: Naming, i: nat)
    requires cs != [] && i < |cs| && ReadKids(cs, nm).Some? && ReadKids(cs[..|cs| - 1], nm) == Some(f)
    requires |f.devices| == Others(cs[..|cs| - 1]) && (i < |cs| - 1 ==> KidInPlace(cs[..|cs| - 1], f, nm, i))
    ensures KidInPlace(cs, ReadKids(cs, nm).value, nm, i)
  {
    hide ReadOf, IsLog;
    var n := |cs| - 1;
    if i < n {
      assert cs[..n][i] == cs[i] && cs[..n][..i] == cs[..i];
      assert IsLog(cs[n]) ==> !LastLog(cs, i);
      assert LastLog(cs, i) ==> LastLog(cs[..n], i);
    }
  }

  lemma TopTells(name: string, c: Config, nm: Naming)
    requires ReadOf(name, c, nm).Some?
    ensures Tells(c, ReadOf(name, c, nm).value) && ReadOf(name, c, nm).value.name == name
  {
    if c.children.NodeList? && !Skipped(c.typ.value) {
      KidsInPlace(c.children.nodes, nm);
    }
  }

  /** Every node the reader comes to and does not drop is in its place, under its name, and the struct
      there tells of it. */
  lemma {:induction false} ReadInPlace(name: string, c: Config, nm: Naming, at: seq<nat>, m: Config)
    requires ReadOf(name, c, nm).Some? && Comes(c, at, m) && Kept(c, at)
    ensures var w := StructAt(c, at, ReadOf(name, c, nm).value);
      w.Some? && Tells(m, w.value) && w.value.name == if at == [] then name else nm(m)
    decreases |at|
  {
    hide Tells, LastLog;
    if at == [] {
      TopTells(name, c, nm);
    } else {
      var cs := c.children.nodes;
      var k := cs[at[0]];
      KidsInPlace(cs, nm);
      assert KidInPlace(cs, ReadKids(cs, nm).value, nm, at[0]);
      ReadInPlace(nm(k), k, nm, at[1..], m);
    }
  }

  /** A list is read exactly if each member can be, and then member by member, in order. */
  lemma {:induction false} ListTells(cs: seq<Config>, nm: Naming)
    ensures ReadList(cs, nm).Some? <==> forall i | 0 <= i < |cs| :: AllReadable(cs[i])
    ensures ReadList(cs, nm).Some? ==>
      var ws := ReadList(cs, nm).value;
      |ws| == |cs| && forall i | 0 <= i < |cs| :: Tells(cs[i], ws[i]) && ws[i].name == nm(cs[i])
    decreases |cs|
  {
    hide ReadOf, Tells, AllReadable;
    if cs != [] {
      var n := |cs| - 1;
      ListTells(cs[..n], nm);
      assert forall i | 0 <= i < n :: cs[..n][i] == cs[i];
      ReadIff(nm(cs[n]), cs[n], nm);
      if ReadOf(nm(cs[n]), cs[n], nm).Some? {
        TopTells(nm(cs[n]), cs[n], nm);
      }
    }
  }
}
