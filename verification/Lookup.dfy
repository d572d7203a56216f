/** Looking up cached snapshots among the children of a struct. */
module Lookup {
  import opened Pools
  import opened Handles
  import opened Trees

  /** The first cached snapshot of that name: the text of its txg. */
  function FirstSnap(ks: seq<Dataset>, o: Name): Option<string> {
    if ks == [] then None
    else if ks[0].name.Snap? && ks[0].name == o then Some(ks[0].createTxg)
    else FirstSnap(ks[1..], o)
  }

  /** `FindSnapshot`. */
  method FindSnapshot(d: Dataset, path: Name) returns (ok: bool, snap: Dataset)
    ensures ok == FirstSnap(d.kids, path).Some?
    ensures ok ==>
      snap in d.kids && snap.name.Snap? && snap.name == path && FirstSnap(d.kids, path) == Some(snap.createTxg)
  {
    ok, snap := false, Dataset(null, null, path, None, "", None, []);
    var i := 0;
    while i < |d.kids|
      invariant 0 <= i <= |d.kids| && !ok
      invariant FirstSnap(d.kids, path) == FirstSnap(d.kids[i..], path)
    {
      var ch := d.kids[i];
      assert d.kids[i..][0] == ch && d.kids[i..][1..] == d.kids[i + 1..];
      if ch.name.Snap? {
        ok := path == ch.name;
        if ok {
          snap := ch;
          break;
        }
      }
      i := i + 1;
    }
  }

  lemma {:induction false} FirstSnapFinds(ks: seq<Dataset>, o: Name)
    ensures FirstSnap(ks, o).Some? <==> o.Snap? && o in KidNames(ks)
    decreases |ks|
  {
    if ks != [] {
      FirstSnapFinds(ks[1..], o);
      assert ks == [ks[0]] + ks[1..];
      assert KidNames(ks) == {ks[0].name} + KidNames(ks[1..]);
    }
  }

  lemma {:induction false} FirstSnapIs(ks: seq<Dataset>, o: Name)
    requires FirstSnap(ks, o).Some?
    ensures exists k | k in ks :: k.name == o && FirstSnap(ks, o) == Some(k.createTxg)
    decreases |ks|
  {
    if ks[0].name.Snap? && ks[0].name == o {
      assert ks[0] in ks;
    } else {
      FirstSnapIs(ks[1..], o);
      var k :| k in ks[1..] && k.name == o && FirstSnap(ks[1..], o) == Some(k.createTxg);
      assert k in ks;
    }
  }

  /** The cached snapshots, in order. */
  function SnapKids(ks: seq<Dataset>): seq<Dataset> {
    if ks == [] then []
    else
      var n := |ks| - 1;
      SnapKids(ks[..n]) + (if ks[n].name.Snap? then [ks[n]] else [])
  }

  /** `Snapshots`. */
  method Snapshots(d: Dataset) returns (snaps: seq<Dataset>)
    ensures snaps == SnapKids(d.kids)
  {
    snaps := [];
    for i := 0 to |d.kids|
      invariant snaps == SnapKids(d.kids[..i])
    {
      assert d.kids[..i + 1][..i] == d.kids[..i];
      if d.kids[i].name.Snap? {
        snaps := snaps + [d.kids[i]];
      }
    }
    assert d.kids[..|d.kids|] == d.kids;
  }

  lemma {:induction false} SnapKidsAre(ks: seq<Dataset>)
    ensures forall k | k in SnapKids(ks) :: k in ks && k.name.Snap?
    ensures forall k | k in ks && k.name.Snap? :: k in SnapKids(ks)
    ensures Distinct(ks) ==> Distinct(SnapKids(ks))
    decreases |ks|
  {
    if ks != [] {
      var n := |ks| - 1;
      SnapKidsAre(ks[..n]);
      assert ks == ks[..n] + [ks[n]];
      var o := SnapKids(ks[..n]);
      forall i | Distinct(ks) && 0 <= i < |o|
        ensures o[i].name != ks[n].name
      {
        assert o[i] in o && o[i] in ks[..n];
      }
    }
  }
}
