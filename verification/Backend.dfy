/** libzfs as the Go code sees it: a pool behind calls that may fail, which remembers every state it
    has been in. */
module Backend {
  import opened Pools

  /** What the next foreign call does: behave, refuse with an error, or (for an iteration over
      children) fail after some reports, which the C wrapper turns into an empty list. */
  datatype Fault = Clean | Refuse | Cut(reported: nat)

  /** Every state is well formed, and no filesystem ever appears. */
  ghost predicate History(t: seq<Pool>) {
    t != [] ==>
      var n := |t| - 1;
      WF(t[n]) && (n > 0 ==> t[n].fs.Keys <= t[n - 1].fs.Keys) && History(t[..n])
  }

  /** Any two states of a history. */
  lemma {:induction false} HistoryAt(t: seq<Pool>, i: nat, j: nat)
    requires History(t) && i <= j < |t|
    ensures WF(t[i]) && t[j].fs.Keys <= t[i].fs.Keys
    decreases |t|
  {
    hide WF;
    var n := |t| - 1;
    if j < n {
      HistoryAt(t[..n], i, j);
    } else if i < n {
      HistoryAt(t[..n], i, n - 1);
    }
  }

  class Zfs {
    var pool: Pool
    var faults: seq<Fault>
    /** Every state the pool has been in. */
    ghost var trace: seq<Pool>

    constructor (p: Pool, faults: seq<Fault>)
      requires WF(p)
      ensures Valid() && pool == p && this.faults == faults && trace == [p]
    {
      this.pool, this.faults, this.trace := p, faults, [p];
    }

    ghost predicate Valid()
      reads this
    {
      |trace| > 0 && trace[|trace| - 1] == pool && History(trace)
    }

    lemma PoolIsWF()
      requires Valid()
      ensures WF(pool)
    {
      hide WF;
    }

    /** No iteration will be cut short. */
    ghost predicate Steady()
      reads this
    {
      forall f | f in faults :: !f.Cut?
    }

    /** No call will fail for reasons outside the model. */
    ghost predicate Calm()
      reads this
    {
      forall f | f in faults :: f == Clean
    }

    lemma CalmIsSteady()
      ensures Calm() ==> Steady()
    {
    }

    method Next() returns (f: Fault)
      modifies `faults
      ensures old(Steady()) ==> Steady() && !f.Cut?
      ensures old(Calm()) ==> Calm() && f == Clean
    {
      if faults == [] {
        f := Clean;
      } else {
        f, faults := faults[0], faults[1..];
        assert f in old(faults) && forall g | g in faults :: g in old(faults);
      }
    }

    /** Records a new pool state. */
    method Become(q: Pool)
      requires Valid() && WF(q) && q.fs.Keys <= pool.fs.Keys
      modifies `pool, `trace
      ensures Valid() && pool == q && trace == old(trace) + [q]
    {
      ghost var t := trace + [q];
      assert t[..|t| - 1] == trace;
      trace := t;
      pool := q;
    }

    /** `zfs_promote`. */
    method Promote(n: Name) returns (ok: bool)
      requires Valid()
      modifies this
      ensures Valid() && old(trace) <= trace
      ensures old(Steady()) ==> Steady()
      ensures old(Calm()) ==> Calm() && ok == (n.Fs? && Promotable(old(pool), n.path))
      ensures ok ==> n.Fs? && Promotable(old(pool), n.path) && pool == Pools.Promote(old(pool), n.path)
      ensures !ok ==> pool == old(pool) && trace == old(trace)
    {
      hide WF, Promotable;
      var f := Next();
      ok := f == Clean && n.Fs? && Promotable(pool, n.path);
      if ok {
        PromoteKeepsWF(pool, n.path);
        Become(Pools.Promote(pool, n.path));
      }
    }

    /** `zfs_rename` of a snapshot within its dataset. */
    method Rename(n: Name, m: string) returns (ok: bool)
      requires Valid()
      modifies this
      ensures Valid() && old(trace) <= trace
      ensures old(Steady()) ==> Steady()
      ensures old(Calm()) ==> Calm() && ok == (n.Snap? && CanRename(old(pool), n.path, n.snap, m))
      ensures ok ==>
        n.Snap? && CanRename(old(pool), n.path, n.snap, m) && pool == Pools.Rename(old(pool), n.path, n.snap, m)
      ensures !ok ==> pool == old(pool) && trace == old(trace)
    {
      hide WF, CanRename;
      var f := Next();
      ok := f == Clean && n.Snap? && CanRename(pool, n.path, n.snap, m);
      if ok {
        RenameKeepsWF(pool, n.path, n.snap, m);
        Become(Pools.Rename(pool, n.path, n.snap, m));
      }
    }

    /** `zfs_destroy`. */
    method Destroy(n: Name) returns (ok: bool)
      requires Valid()
      modifies this
      ensures Valid() && old(trace) <= trace
      ensures old(Steady()) ==> Steady()
      ensures old(Calm()) ==> Calm() && ok == CanDestroy(old(pool), n)
      ensures ok ==> CanDestroy(old(pool), n) && pool == Pools.Destroy(old(pool), n)
      ensures !ok ==> pool == old(pool) && trace == old(trace)
    {
      hide WF, CanDestroy;
      var f := Next();
      ok := f == Clean && CanDestroy(pool, n);
      if ok {
        DestroyKeepsWF(pool, n);
        Become(Pools.Destroy(pool, n));
      }
    }
  }
}
