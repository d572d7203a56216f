/** sort.go: the order that decides which clone is promoted. */
module CloneOrder {
  import opened Pools
  import opened Decimal
  import opened Handles

  /** The text of the extra property; a missing map entry reads as the empty string. */
  function OriginText(d: Dataset): string {
    if d.originTxg.Some? then d.originTxg.value else ""
  }

  /** `clonesCreateDesc.Less`; `None` is its panic. Both presence tests look at the first struct. */
  function Less(a: Dataset, b: Dataset): Option<bool> {
    if a.originTxg.Some? then
      var ti, tj := ParseInt(OriginText(a)), ParseInt(OriginText(b));
      if ti.None? || tj.None? then None
      else if ti != tj then Some(ti.value > tj.value)
      else LessCreated(a, b)
    else LessCreated(a, b)
  }

  function LessCreated(a: Dataset, b: Dataset): Option<bool> {
    var ti, tj := ParseInt(a.createTxg), ParseInt(b.createTxg);
    if ti.None? || tj.None? then None else Some(ti.value > tj.value)
  }

  /** Both transaction groups of the struct can be read. */
  predicate Keyed(d: Dataset) {
    d.originTxg.Some? && ParseInt(d.originTxg.value).Some? && ParseInt(d.createTxg).Some?
  }

  function OriginKey(d: Dataset): int
    requires Keyed(d)
  {
    ParseInt(d.originTxg.value).value
  }

  function OwnKey(d: Dataset): int
    requires Keyed(d)
  {
    ParseInt(d.createTxg).value
  }

  /** `a` is at least as young as `b`: by origin, then by its own creation. */
  predicate AtLeast(a: Dataset, b: Dataset)
    requires Keyed(a) && Keyed(b)
  {
    OriginKey(a) > OriginKey(b) || (OriginKey(a) == OriginKey(b) && OwnKey(a) >= OwnKey(b))
  }

  /** On lists as `Clones` builds them `Less` never panics and is the strict part of a total
      preorder: the descending order of the pairs (origin txg, own txg). */
  lemma LessIsStrictWeakOrder(a: Dataset, b: Dataset, c: Dataset)
    requires Keyed(a) && Keyed(b) && Keyed(c)
    ensures Less(a, b) == Some(!AtLeast(b, a))
    ensures Less(a, a) == Some(false)
    ensures Less(a, b) == Some(true) && Less(b, c) == Some(true) ==> Less(a, c) == Some(true)
    ensures Less(a, b) == Some(false) && Less(b, c) == Some(false) ==> Less(a, c) == Some(false)
  {
    hide ParseInt;
  }

  /** One struct without the extra property is enough for a comparison to panic, in one of the
      two argument orders only: the test of the second struct is missing. */
  lemma LessPanicsOneWay(a: Dataset, b: Dataset)
    requires Keyed(a) && b.originTxg == None && ParseInt(b.createTxg).Some?
    ensures Less(a, b) == None && Less(b, a).Some?
  {
  }

  ghost predicate AllKeyed(s: seq<Dataset>) {
    forall d | d in s :: Keyed(d)
  }

  ghost predicate Descending(s: seq<Dataset>)
    requires AllKeyed(s)
  {
    forall i, j | 0 <= i < j < |s| :: AtLeast(s[i], s[j])
  }

  method Swap(a: array<Dataset>, i: nat, j: nat)
    requires i < a.Length && j < a.Length
    modifies a
    ensures a[..] == old(a[..])[i := old(a[j])][j := old(a[i])]
    ensures multiset(a[..]) == old(multiset(a[..]))
  {
    a[i], a[j] := a[j], a[i];
  }

  lemma AtLeastLaws(a: Dataset, b: Dataset, c: Dataset)
    requires Keyed(a) && Keyed(b) && Keyed(c)
    ensures AtLeast(a, b) || AtLeast(b, a)
    ensures AtLeast(a, b) && AtLeast(b, c) ==> AtLeast(a, c)
  {
    hide ParseInt;
  }

  /** `sort.Sort`: an insertion sort through `Less` and `Swap`. */
  method Sort(a: array<Dataset>)
    requires AllKeyed(a[..])
    modifies a
    ensures multiset(a[..]) == old(multiset(a[..]))
    ensures AllKeyed(a[..]) && Descending(a[..])
  {
    hide Less, AtLeast, Keyed;
    var i := 0;
    while i < a.Length
      invariant 0 <= i <= a.Length
      invariant multiset(a[..]) == old(multiset(a[..]))
      invariant AllKeyed(a[..]) && Descending(a[..i])
    {
      Sink(a, i);
      i := i + 1;
    }
    assert a[..i] == a[..];
  }

  /** Moves element `i` into place among the sorted elements before it. */
  method Sink(a: array<Dataset>, i: nat)
    requires i < a.Length && AllKeyed(a[..]) && Descending(a[..i])
    modifies a
    ensures multiset(a[..]) == old(multiset(a[..]))
    ensures AllKeyed(a[..]) && Descending(a[..i + 1])
  {
    hide Less, AtLeast, Keyed;
    var j := i;
    while j > 0
      invariant 0 <= j <= i
      invariant multiset(a[..]) == old(multiset(a[..]))
      invariant AllKeyed(a[..])
      invariant forall k, l | 0 <= k < l <= i && l != j :: AtLeast(a[k], a[l])
    {
      assert forall k | 0 <= k < a.Length :: a[k] in a[..];
      LessIsStrictWeakOrder(a[j], a[j - 1], a[j]);
      AtLeastLaws(a[j], a[j - 1], a[j]);
      if Less(a[j], a[j - 1]) != Some(true) {
        forall k | 0 <= k < j
          ensures AtLeast(a[k], a[j])
        {
          AtLeastLaws(a[k], a[j - 1], a[j]);
        }
        break;
      }
      Swap(a, j, j - 1);
      j := j - 1;
    }
  }
}
