/** Cached dataset trees: what the Go structs remember of the pool. */
module Trees {
  import opened Pools
  import opened Decimal
  import opened Handles

  /** The properties of one struct are those of the dataset it names. */
  ghost predicate Cached(p: Pool, d: Dataset) {
    && Exists(p, d.name)
    && d.originTxg == None
    && match d.name
      case Fs(x) => d.origin == OriginName(p, x) && d.createTxg == Format(p.fs[x].txg)
      case Snap(x, s) => d.origin == None && forall g | IsSnap(p, x, s, g) :: d.createTxg == Format(p.snaps[g].txg)
  }

  ghost predicate Distinct(ks: seq<Dataset>) {
    forall i, j | 0 <= i < j < |ks| :: ks[i].name != ks[j].name
  }

  ghost function KidNames(ks: seq<Dataset>): set<Name> {
    set k | k in ks :: k.name
  }

  /** The struct's children are exactly the dataset's children, each once. */
  ghost predicate ListsChildren(p: Pool, d: Dataset) {
    Distinct(d.kids) && KidNames(d.kids) == ChildNames(p, d.name)
  }

  /** The whole tree is what a fresh open of `d.name` reads from the pool. */
  ghost predicate Reflects(p: Pool, d: Dataset) {
    Cached(p, d) && ListsChildren(p, d) && forall k | k in d.kids :: Reflects(p, k)
  }

  /** Every child's name is directly below its parent's, no two children share a name, and every
      creation txg can be read. */
  ghost predicate Shaped(d: Dataset) {
    ParseInt(d.createTxg).Some? && Distinct(d.kids) && forall k | k in d.kids :: ChildName(d.name, k.name) && Shaped(k)
  }

  lemma KidsAreChildren(d: Dataset)
    requires Shaped(d)
    ensures Distinct(d.kids) && forall k | k in d.kids :: ChildName(d.name, k.name) && Shaped(k)
  {
    hide ParseInt;
  }

  lemma CachedIsDated(p: Pool, d: Dataset)
    requires Cached(p, d)
    ensures ParseInt(d.createTxg).Some?
  {
    hide ParseInt;
    match d.name
    case Fs(x) => ParseFormat(p.fs[x].txg);
    case Snap(x, s) =>
      var g :| g in p.snaps && IsSnap(p, x, s, g);
      ParseFormat(p.snaps[g].txg);
  }

  lemma {:induction false} ReflectsIsShaped(p: Pool, d: Dataset)
    requires Reflects(p, d)
    ensures Shaped(d)
    decreases d
  {
    hide ParseInt, Cached;
    CachedIsDated(p, d);
    forall k | k in d.kids
      ensures ChildName(d.name, k.name) && Shaped(k)
    {
      assert k.name in KidNames(d.kids);
      ReflectsIsShaped(p, k);
    }
  }
}
