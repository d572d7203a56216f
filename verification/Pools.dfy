/** The backend the Go code talks to: one pool of filesystems and snapshots, with the
    transitions of libzfs that the modelled code uses and what each of them keeps.

    A snapshot keeps its identity (its guid) when it is renamed or handed to another dataset,
    and a clone's origin is that identity; the origin *name* a caller reads is looked up. */
module Pools {
  datatype Option<+T> = None | Some(value: T)

  type Path = seq<string>
  type Guid = nat

  const TXG_LIMIT: nat := 0x8000_0000_0000_0000
  type Txg = t: nat | t < TXG_LIMIT

  /** The name of a dataset: a filesystem `pool/a/b` or a snapshot `pool/a/b@s`. */
  datatype Name = Fs(path: Path) | Snap(path: Path, snap: string)

  datatype Filesystem = Filesystem(origin: Option<Guid>, txg: Txg)
  datatype Snapshot = Snapshot(owner: Path, name: string, txg: Txg)
  datatype Pool = Pool(name: string, fs: map<Path, Filesystem>, snaps: map<Guid, Snapshot>)

  function Parent(f: Path): Path
    requires f != []
  {
    f[..|f| - 1]
  }

  /** The filesystems at or below `x`. */
  ghost function Sub(p: Pool, x: Path): set<Path> {
    set f | f in p.fs && x <= f
  }

  ghost predicate NoneBelow(p: Pool, x: Path) {
    forall f | f in p.fs :: !(x <= f)
  }

  ghost function Origin(p: Pool, f: Path): Option<Guid> {
    if f in p.fs then p.fs[f].origin else None
  }

  /** The dataset that owns the origin of clone `f`. */
  ghost function Base(p: Pool, f: Path): Option<Path> {
    if Origin(p, f).Some? && Origin(p, f).value in p.snaps then Some(p.snaps[Origin(p, f).value].owner) else None
  }

  ghost predicate HasClone(p: Pool, g: Guid) {
    exists f :: f in p.fs && p.fs[f].origin == Some(g)
  }

  // ----- well-formed pools -----

  ghost predicate Rooted(p: Pool) {
    && [p.name] in p.fs
    && forall f | f in p.fs :: f != [] && f[0] == p.name && (|f| > 1 ==> Parent(f) in p.fs)
  }

  ghost predicate OwnersExist(p: Pool) {
    forall g | g in p.snaps :: p.snaps[g].owner in p.fs
  }

  ghost predicate NamesUnique(p: Pool) {
    forall g, h | g in p.snaps && h in p.snaps && p.snaps[g].owner == p.snaps[h].owner
      && p.snaps[g].name == p.snaps[h].name :: g == h
  }

  ghost predicate TxgsUnique(p: Pool) {
    forall g, h | g in p.snaps && h in p.snaps && p.snaps[g].owner == p.snaps[h].owner
      && p.snaps[g].txg == p.snaps[h].txg :: g == h
  }

  ghost predicate OriginsExist(p: Pool) {
    forall f | f in p.fs && p.fs[f].origin.Some? :: p.fs[f].origin.value in p.snaps
  }

  /** A clone's own snapshots are younger than the snapshot it was cloned from. */
  ghost predicate OriginsOlder(p: Pool) {
    forall f, g | f in p.fs && g in p.snaps && p.snaps[g].owner == f && p.fs[f].origin.Some?
      && p.fs[f].origin.value in p.snaps :: p.snaps[p.fs[f].origin.value].txg < p.snaps[g].txg
  }

  ghost predicate WF(p: Pool) {
    Rooted(p) && OwnersExist(p) && NamesUnique(p) && TxgsUnique(p) && OriginsExist(p) && OriginsOlder(p)
  }

  lemma WFRooted(p: Pool)
    requires WF(p)
    ensures Rooted(p)
  {
  }

  lemma WFOwners(p: Pool)
    requires WF(p)
    ensures OwnersExist(p)
  {
  }

  lemma WFNames(p: Pool)
    requires WF(p)
    ensures NamesUnique(p)
  {
  }

  lemma WFOrigins(p: Pool)
    requires WF(p)
    ensures OriginsExist(p)
  {
  }

  /** `q` walks the clone graph: each dataset is a clone of a snapshot of the next. */
  ghost predicate CloneWalk(p: Pool, q: seq<Path>) {
    forall i | 0 <= i < |q| - 1 :: Base(p, q[i]) == Some(q[i + 1])
  }

  /** The age of the snapshot `f` was cloned from. */
  ghost function OriginTxg(p: Pool, f: Path): int {
    if Base(p, f).Some? then p.snaps[Origin(p, f).value].txg else -1
  }

  lemma BaseIsOlder(p: Pool, f: Path)
    requires WF(p) && Base(p, f).Some? && Base(p, Base(p, f).value).Some?
    ensures OriginTxg(p, Base(p, f).value) < OriginTxg(p, f)
  {
  }

  lemma {:induction false} WalkGetsOlder(p: Pool, q: seq<Path>)
    requires WF(p) && |q| >= 3 && CloneWalk(p, q)
    ensures OriginTxg(p, q[|q| - 2]) < OriginTxg(p, q[0])
    decreases |q|
  {
    assert Base(p, q[0]) == Some(q[1]) && Base(p, q[1]) == Some(q[2]);
    BaseIsOlder(p, q[0]);
    if |q| > 3 {
      var t := q[1..];
      forall i | 0 <= i < |t| - 1
        ensures Base(p, t[i]) == Some(t[i + 1])
      {
        var j := i + 1;
        assert Base(p, q[j]) == Some(q[j + 1]);
      }
      WalkGetsOlder(p, t);
    }
  }

  /** No dataset is a clone, directly or through others, of one of its own snapshots. */
  lemma {:induction false} CloneGraphAcyclic(p: Pool, q: seq<Path>)
    requires WF(p) && |q| >= 2 && CloneWalk(p, q)
    ensures q[0] != q[|q| - 1]
  {
    var last := q[|q| - 2];
    assert Base(p, q[0]) == Some(q[1]) && Base(p, last) == Some(q[|q| - 2 + 1]);
    if |q| >= 3 {
      WalkGetsOlder(p, q);
      if Base(p, q[|q| - 1]).Some? {
        BaseIsOlder(p, last);
      }
    }
  }

  /** Every ancestor of a filesystem below the pool exists. */
  lemma {:induction false} PrefixExists(p: Pool, f: Path, n: nat)
    requires Rooted(p) && f in p.fs && 1 <= n <= |f|
    ensures f[..n] in p.fs
    decreases |f|
  {
    if n < |f| {
      PrefixExists(p, Parent(f), n);
      assert Parent(f)[..n] == f[..n];
    } else {
      assert f[..n] == f;
    }
  }

  // ----- backend transitions -----

  predicate Promotable(p: Pool, c: Path) {
    && c in p.fs
    && p.fs[c].origin.Some?
    && p.fs[c].origin.value in p.snaps
    && p.snaps[p.fs[c].origin.value].owner in p.fs
    && forall g, h | g in p.snaps && h in p.snaps && Moves(p, c, g) && p.snaps[h].owner == c ::
         p.snaps[g].name != p.snaps[h].name
  }

  /** Promoting `c` takes over every snapshot of its base that is no younger than its origin. */
  predicate Moves(p: Pool, c: Path, g: Guid)
    requires c in p.fs && p.fs[c].origin.Some? && p.fs[c].origin.value in p.snaps && g in p.snaps
  {
    var s := p.snaps[p.fs[c].origin.value];
    p.snaps[g].owner == s.owner && p.snaps[g].txg <= s.txg
  }

  function Promote(p: Pool, c: Path): Pool
    requires Promotable(p, c)
  {
    var g := p.fs[c].origin.value;
    var d := p.snaps[g].owner;
    p.(fs := p.fs[c := p.fs[c].(origin := p.fs[d].origin)][d := p.fs[d].(origin := Some(g))],
    snaps := map h | h in p.snaps :: if Moves(p, c, h) then p.snaps[h].(owner := c) else p.snaps[h])
  }

  /** The snapshot called `n`, if the pool has one. */
  predicate IsSnap(p: Pool, x: Path, n: string, g: Guid) {
    g in p.snaps && p.snaps[g].owner == x && p.snaps[g].name == n
  }

  predicate SnapExists(p: Pool, x: Path, n: string) {
    exists g | g in p.snaps :: IsSnap(p, x, n, g)
  }

  predicate CanRename(p: Pool, x: Path, n: string, m: string) {
    SnapExists(p, x, n) && !SnapExists(p, x, m)
  }

  function Rename(p: Pool, x: Path, n: string, m: string): Pool {
    p.(snaps := map g | g in p.snaps :: if IsSnap(p, x, n, g) then p.snaps[g].(name := m) else p.snaps[g])
  }

  /** Destroying an absent name succeeds. A filesystem must have no children and no snapshots and
      must not be the pool's root; a snapshot must have no clones. */
  predicate CanDestroy(p: Pool, n: Name) {
    match n
    case Fs(x) =>
      x in p.fs ==>
        && |x| > 1
        && (forall f | f in p.fs :: !(x < f))
        && (forall g | g in p.snaps :: p.snaps[g].owner != x)
    case Snap(x, s) =>
      forall f | f in p.fs && p.fs[f].origin.Some? :: !IsSnap(p, x, s, p.fs[f].origin.value)
  }

  function Destroy(p: Pool, n: Name): Pool {
    match n
    case Fs(x) => p.(fs := map f | f in p.fs && f != x :: p.fs[f])
    case Snap(x, s) => p.(snaps := map g | g in p.snaps && !IsSnap(p, x, s, g) :: p.snaps[g])
  }

  /** What `Promote` does to each record, in a form the proofs below use. */
  ghost predicate PromoteEffect(p: Pool, q: Pool, c: Path, d: Path, s: Guid) {
    && c != d && c in p.fs && d in p.fs && s in p.snaps && p.snaps[s].owner == d
    && p.fs[c].origin == Some(s)
    && q.name == p.name && q.fs.Keys == p.fs.Keys && q.snaps.Keys == p.snaps.Keys
    && q.fs[c] == p.fs[c].(origin := p.fs[d].origin) && q.fs[d] == p.fs[d].(origin := Some(s))
    && (forall f | f in p.fs && f != c && f != d :: q.fs[f] == p.fs[f])
    && (forall g | g in p.snaps :: q.snaps[g] == (
          if p.snaps[g].owner == d && p.snaps[g].txg <= p.snaps[s].txg then p.snaps[g].(owner := c) else p.snaps[g]))
  }

  lemma PromoteHasEffect(p: Pool, c: Path)
    requires WF(p) && Promotable(p, c)
    ensures PromoteEffect(p, Promote(p, c), c, Base(p, c).value, p.fs[c].origin.value)
  {
    hide NamesUnique, TxgsUnique, Rooted, OwnersExist;
    var s := p.fs[c].origin.value;
    var d := p.snaps[s].owner;
    assert c != d && Base(p, c) == Some(d);
  }

  lemma PromoteKeepsOwners(p: Pool, q: Pool, c: Path, d: Path, s: Guid)
    requires WF(p) && PromoteEffect(p, q, c, d, s)
    ensures Rooted(q) && OwnersExist(q) && OriginsExist(q)
  {
  }

  lemma PromoteKeepsUnique(p: Pool, q: Pool, c: Path, d: Path, s: Guid)
    requires WF(p) && Promotable(p, c) && PromoteEffect(p, q, c, d, s)
    ensures NamesUnique(q) && TxgsUnique(q)
  {
    hide Rooted, OwnersExist, OriginsExist;
    assert forall g | g in p.snaps && p.snaps[g].owner == c :: p.snaps[s].txg < p.snaps[g].txg;
  }

  lemma PromoteKeepsAge(p: Pool, q: Pool, c: Path, d: Path, s: Guid)
    requires WF(p) && PromoteEffect(p, q, c, d, s)
    ensures OriginsOlder(q)
  {
    hide Rooted, NamesUnique, OwnersExist;
    forall f, g | f in q.fs && g in q.snaps && q.snaps[g].owner == f && q.fs[f].origin.Some?
      && q.fs[f].origin.value in q.snaps
      ensures q.snaps[q.fs[f].origin.value].txg < q.snaps[g].txg
    {
      var o := q.fs[f].origin.value;
      if f == c && p.snaps[g].owner == c {
        assert p.snaps[o].txg < p.snaps[s].txg < p.snaps[g].txg;
      }
    }
  }

  lemma PromoteKeepsWF(p: Pool, c: Path)
    requires WF(p) && Promotable(p, c)
    ensures WF(Promote(p, c)) && Promote(p, c).fs.Keys == p.fs.Keys
  {
    var s := p.fs[c].origin.value;
    var d := p.snaps[s].owner;
    var q := Promote(p, c);
    PromoteHasEffect(p, c);
    PromoteKeepsOwners(p, q, c, d, s);
    PromoteKeepsUnique(p, q, c, d, s);
    PromoteKeepsAge(p, q, c, d, s);
  }

  lemma RenameKeepsWF(p: Pool, x: Path, n: string, m: string)
    requires WF(p) && CanRename(p, x, n, m)
    ensures WF(Rename(p, x, n, m)) && Rename(p, x, n, m).fs == p.fs
  {
    var q := Rename(p, x, n, m);
    assert forall h | h in p.snaps :: !IsSnap(p, x, m, h);
    assert forall h | h in p.snaps :: q.snaps[h].owner == p.snaps[h].owner && q.snaps[h].txg == p.snaps[h].txg;
  }

  lemma DestroyKeepsWF(p: Pool, n: Name)
    requires WF(p) && CanDestroy(p, n)
    ensures WF(Destroy(p, n)) && Destroy(p, n).fs.Keys <= p.fs.Keys
  {
    var q := Destroy(p, n);
    match n
    case Fs(x) =>
      forall f | f in q.fs && |f| > 1
        ensures Parent(f) in q.fs
      {
        assert Parent(f) < f;
      }
    case Snap(x, s) =>
  }

  // ----- names and what a caller reads -----

  predicate Exists(p: Pool, n: Name) {
    match n
    case Fs(x) => x in p.fs
    case Snap(x, s) => SnapExists(p, x, s)
  }

  /** The origin property of a filesystem: the current name of its origin snapshot. */
  function OriginName(p: Pool, x: Path): Option<Name> {
    if x in p.fs && p.fs[x].origin.Some? && p.fs[x].origin.value in p.snaps
    then var s := p.snaps[p.fs[x].origin.value]; Some(Snap(s.owner, s.name))
    else None
  }

  /** The children a libzfs iteration over `n` visits. */
  function ChildNames(p: Pool, n: Name): set<Name> {
    match n
    case Fs(x) =>
      (set f | f in p.fs && |f| == |x| + 1 && x < f :: Fs(f))
      + (set g | g in p.snaps && p.snaps[g].owner == x :: Snap(x, p.snaps[g].name))
    case Snap(_, _) => {}
  }

  /** `m` can be a child of `n`. */
  predicate ChildName(n: Name, m: Name) {
    n.Fs? && match m
      case Fs(y) => |y| == |n.path| + 1 && n.path < y
      case Snap(y, _) => y == n.path
  }
}
