/** Dataset names as text. The rest of the model works with structured names; here the string
    operations of the source are shown to compute what the model says, on every name whose
    components are as ZFS allows them: not empty, and without slash and at sign. */
module Names {
  import opened Pools
  import opened CloneLists
  import opened Frames

  function Join(x: Path): string {
    if x == [] then ""
    else if |x| == 1 then x[0]
    else Join(x[..|x| - 1]) + "/" + x[|x| - 1]
  }

  function Render(n: Name): string {
    match n
    case Fs(x) => Join(x)
    case Snap(x, s) => Join(x) + "@" + s
  }

  predicate CleanText(s: string) {
    s != "" && '/' !in s && '@' !in s
  }

  predicate Clean(n: Name) {
    n.path != [] && (forall i | 0 <= i < |n.path| :: CleanText(n.path[i])) && (n.Snap? ==> CleanText(n.snap))
  }

  /** `strings.Index` of a single character. */
  function Index(s: string, c: char): (i: int)
    ensures -1 <= i < |s|
    ensures if i < 0 then c !in s else s[i] == c && c !in s[..i]
  {
    if s == "" then -1
    else if s[0] == c then 0
    else
      var i := Index(s[1..], c);
      if i < 0 then
        assert s == [s[0]] + s[1..];
        -1
      else
        assert s[..i + 1] == [s[0]] + s[1..][..i];
        i + 1
  }

  /** `path.Base` of a text without trailing slashes: what follows the last slash. */
  function BaseName(s: string): (b: string)
    ensures '/' !in b && |b| <= |s| && b == s[|s| - |b|..]
    ensures |b| < |s| ==> s[|s| - |b| - 1] == '/'
  {
    if s == "" || s[|s| - 1] == '/' then ""
    else
      var b := BaseName(s[..|s| - 1]);
      b + [s[|s| - 1]]
  }

  // ----- the source's operations on texts -----

  /** `IsSnapshot`, the test of the name. */
  predicate IsSnapshotText(path: string) {
    Index(path, '@') >= 0
  }

  /** `PoolName`. */
  function PoolNameText(path: string): string {
    var i := Index(path, '/');
    if i < 0 then path else path[..i]
  }

  /** The two halves `DestroyRecursive` splits a snapshot's name into. */
  function SplitAt(path: string): (string, string) {
    var i := Index(path, '@');
    if i < 0 then (path, "") else (path[..i], path[i + 1..])
  }

  // ----- texts of clean names -----

  lemma {:induction false} JoinClean(x: Path)
    requires x != [] && forall i | 0 <= i < |x| :: CleanText(x[i])
    ensures Join(x) != "" && '@' !in Join(x)
    decreases |x|
  {
    if |x| > 1 {
      JoinClean(x[..|x| - 1]);
    }
  }

  lemma NotBefore(s: string, c: char, i: nat)
    requires i <= |s| && c !in s[..i]
    ensures forall j | 0 <= j < i :: s[j] != c
  {
    assert forall j | 0 <= j < i :: s[..i][j] == s[j];
  }

  lemma FirstIs(s: string, c: char, i: nat)
    requires i < |s| && s[i] == c && c !in s[..i]
    ensures Index(s, c) == i
  {
    NotBefore(s, c, i);
    if 0 <= Index(s, c) {
      NotBefore(s, c, Index(s, c));
    }
  }

  lemma IndexIs(a: string, c: char, b: string)
    requires c !in a
    ensures Index(a + [c] + b, c) == |a|
  {
    var s := a + [c] + b;
    assert s[|a|] == c && s[..|a|] == a;
    FirstIs(s, c, |a|);
  }

  lemma AtSign(n: Name)
    requires Clean(n)
    ensures n.Snap? ==> Index(Render(n), '@') == |Join(n.path)|
    ensures n.Fs? ==> Index(Render(n), '@') < 0
  {
    JoinClean(n.path);
    if n.Snap? {
      IndexIs(Join(n.path), '@', n.snap);
    }
  }

  /** The text says what kind of dataset it names. */
  lemma SnapshotsAreRecognized(n: Name)
    requires Clean(n)
    ensures IsSnapshotText(Render(n)) <==> n.Snap?
  {
    AtSign(n);
  }

  lemma SplitNames(n: Name)
    requires Clean(n) && n.Snap?
    ensures SplitAt(Render(n)) == (Render(Fs(n.path)), n.snap)
  {
    AtSign(n);
    var j, r := Join(n.path), Render(n);
    assert r == j + ['@'] + n.snap;
    assert r[..|j|] == j && r[|j| + 1..] == n.snap;
  }

  lemma {:induction false} FirstSlash(x: Path)
    requires x != [] && forall i | 0 <= i < |x| :: CleanText(x[i])
    ensures |x| == 1 ==> Index(Join(x), '/') < 0
    ensures |x| > 1 ==> Index(Join(x), '/') == |x[0]| && Join(x)[..|x[0]|] == x[0]
    decreases |x|
  {
    if |x| > 1 {
      var y, z := x[..|x| - 1], x[|x| - 1];
      FirstSlash(y);
      assert Join(x) == Join(y) + ['/'] + z;
      if |x| == 2 {
        IndexIs(y[0], '/', z);
      } else {
        var i := |x[0]|;
        assert Join(x)[..i] == Join(y)[..i] && Join(x)[i] == '/';
        assert Join(x) == x[0] + ['/'] + Join(x)[i + 1..];
        IndexIs(x[0], '/', Join(x)[i + 1..]);
      }
    }
  }

  /** The pool's name is cut off at the first slash, so the snapshots of the pool's root, and only
      they, keep their whole name instead. */
  lemma PoolNames(n: Name)
    requires Clean(n)
    ensures PoolNameText(Render(n)) == Render(PoolName(n))
    ensures PoolName(n) == Fs([n.path[0]]) <==> !(n.Snap? && |n.path| == 1)
  {
    FirstSlash(n.path);
    assert n.path[..1] == [n.path[0]];
    if n.Snap? {
      var j, r := Join(n.path), Render(n);
      if |n.path| > 1 {
        var i := |n.path[0]|;
        assert r[..i] == j[..i] && r[i] == j[i];
        assert r == n.path[0] + ['/'] + r[i + 1..];
        IndexIs(n.path[0], '/', r[i + 1..]);
      } else {
        assert r == n.path[0] + "@" + n.snap;
      }
    }
  }

  lemma NoSlashAfter(s: string, b: string)
    requires |b| <= |s| && b == s[|s| - |b|..] && '/' !in b
    ensures forall i | |s| - |b| <= i < |s| :: s[i] != '/'
  {
    assert forall i | |s| - |b| <= i < |s| :: s[i] == b[i - (|s| - |b|)];
  }

  /** The part after the last slash, and nothing else, is what the function finds. */
  lemma BaseUnique(s: string, b: string)
    requires |b| <= |s| && b == s[|s| - |b|..] && '/' !in b && (|b| < |s| ==> s[|s| - |b| - 1] == '/')
    ensures BaseName(s) == b
  {
    NoSlashAfter(s, b);
    NoSlashAfter(s, BaseName(s));
  }

  lemma BaseIs(a: string, b: string)
    requires '/' !in b
    ensures BaseName(b) == b && BaseName(a + "/" + b) == b
  {
    var s := a + "/" + b;
    assert s[|a|] == '/' && s[|a| + 1..] == b;
    BaseUnique(s, b);
    BaseUnique(b, b);
  }

  lemma JoinBase(x: Path)
    requires x != [] && CleanText(x[|x| - 1])
    ensures BaseName(Join(x)) == x[|x| - 1]
  {
    BaseIs(Join(x[..|x| - 1]), x[|x| - 1]);
  }

  lemma AtPart(x: Path, s: string)
    requires Clean(Snap(x, s))
    ensures var r, i := Render(Snap(x, s)), Index(Render(Snap(x, s)), '@');
      0 <= i && r[..i] == Join(x) && r[i..] == "@" + s
  {
    AtSign(Snap(x, s));
    var j, r := Join(x), Render(Snap(x, s));
    assert r == j + ("@" + s);
    assert (j + ("@" + s))[..|j|] == j && (j + ("@" + s))[|j|..] == "@" + s;
  }

  lemma Assoc(a: string, b: string, c: string)
    ensures a + b + c == a + (b + c)
  {
  }

  /** The conflict loop on a snapshot's name: the part from the at sign on, looked up below the
      clone's name, is the same-named snapshot of the clone; and the name it renames to is the
      suffixed one of the model. */
  lemma ConflictNames(x: Path, c: Path, s: string)
    requires Clean(Snap(x, s)) && Clean(Fs(c))
    ensures var spath := Render(Snap(x, s)); var i := Index(spath, '@');
      && 0 <= i
      && Render(Fs(c)) + spath[i..] == Render(Snap(c, s))
      && spath + ("." + BaseName(spath[..i])) == Render(Snap(x, Suffixed(x, s)))
      && Render(Fs(c)) + (spath[i..] + ("." + BaseName(spath[..i]))) == Render(Snap(c, Suffixed(x, s)))
  {
    hide Join, CleanText, Index, BaseName;
    AtPart(x, s);
    var j, v := Join(x), x[|x| - 1];
    JoinBase(x);
    Assoc(Join(c), "@", s);
    Assoc(j + "@", s, "." + v);
    Assoc(s, ".", v);
    Assoc("@", s, "." + v);
    Assoc(Join(c), "@", s + ("." + v));
  }

  /** A suffixed name is as clean as the names it is made of. */
  lemma SuffixedIsClean(x: Path, s: string)
    requires Clean(Snap(x, s))
    ensures Clean(Snap(x, Suffixed(x, s)))
  {
    var v := x[|x| - 1];
    assert CleanText(v);
  }

  // ----- reading a text back -----

  lemma {:induction false} JoinInjective(x: Path, y: Path)
    requires x != [] && (forall i | 0 <= i < |x| :: CleanText(x[i]))
    requires y != [] && (forall i | 0 <= i < |y| :: CleanText(y[i]))
    requires Join(x) == Join(y)
    ensures x == y
    decreases |x|
  {
    JoinBase(x);
    JoinBase(y);
    FirstSlash(x);
    FirstSlash(y);
    var n, m := |x| - 1, |y| - 1;
    assert x == x[..n] + [x[n]] && y == y[..m] + [y[m]];
    if n > 0 {
      JoinFront(x);
      JoinFront(y);
      JoinInjective(x[..n], y[..m]);
    }
  }

  lemma JoinFront(x: Path)
    requires |x| > 1
    ensures |Join(x)| > |x[|x| - 1]| && Join(x)[..|Join(x)| - |x[|x| - 1]| - 1] == Join(x[..|x| - 1])
  {
  }

  /** Comparing texts is comparing names. */
  lemma RenderInjective(n: Name, m: Name)
    requires Clean(n) && Clean(m) && Render(n) == Render(m)
    ensures n == m
  {
    AtSign(n);
    AtSign(m);
    if n.Snap? {
      SplitNames(n);
      SplitNames(m);
    }
    JoinInjective(n.path, m.path);
  }
}
