/** Paths as sequences of components, and the orders the installer sorts them by. */
module Paths {
  import opened Wrappers
  import opened Sorting

  type Path = seq<string>

  function Parent(p: Path): Option<Path> {
    if p == [] then None else Some(p[..|p| - 1])
  }

  /** `a` is an ancestor of `p`. */
  predicate Above(a: Path, p: Path) {
    |a| < |p| && p[..|a|] == a
  }

  // ---------- ordering ----------

  predicate TextLe(a: string, b: string) {
    a == "" || (b != "" && (a[0] < b[0] || (a[0] == b[0] && TextLe(a[1..], b[1..]))))
  }

  predicate PathLe(a: Path, b: Path) {
    a == [] || (b != [] && (if a[0] == b[0] then PathLe(a[1..], b[1..]) else TextLe(a[0], b[0])))
  }

  /** Deeper paths first, equally deep ones in path order. */
  predicate DeeperFirst(a: Path, b: Path) {
    |a| > |b| || (|a| == |b| && PathLe(a, b))
  }

  /** `a` is a prefix of `b`, or smaller at the first place where they differ. */
  ghost predicate TextBefore(a: string, b: string) {
    a <= b || exists i :: 0 <= i < |a| && i < |b| && a[..i] == b[..i] && a[i] < b[i]
  }

  lemma PrefixNext<T>(c: T, x: seq<T>, y: seq<T>)
    ensures [c] + x <= [c] + y <==> x <= y
  {
    var a, b := [c] + x, [c] + y;
    if x <= y {
      assert y == x + y[|x|..];
      assert b == a + y[|x|..];
    }
    if a <= b {
      assert y[..|x|] == b[..|a|][1..] == a[1..] == x;
    }
  }

  lemma TextBeforeNext(c: char, x: string, y: string)
    ensures TextBefore([c] + x, [c] + y) <==> TextBefore(x, y)
  {
    var a, b := [c] + x, [c] + y;
    PrefixNext(c, x, y);
    if i :| 0 <= i < |x| && i < |y| && x[..i] == y[..i] && x[i] < y[i] {
      SliceNext(c, x, i);
      SliceNext(c, y, i);
      assert a[..i + 1] == b[..i + 1] && a[i + 1] < b[i + 1];
    }
    if i :| 0 <= i < |a| && i < |b| && a[..i] == b[..i] && a[i] < b[i] {
      SliceNext(c, x, i - 1);
      SliceNext(c, y, i - 1);
      assert x[..i - 1] == y[..i - 1] && x[i - 1] < y[i - 1];
    }
  }

  lemma SliceNext<T>(c: T, x: seq<T>, i: nat)
    requires i <= |x|
    ensures ([c] + x)[..i + 1] == [c] + x[..i] && ([c] + x)[..i + 1][1..] == x[..i]
  {
  }

  lemma TextBeforeFirst(a: string, b: string)
    requires a != "" && b != "" && a[0] != b[0]
    ensures TextBefore(a, b) <==> a[0] < b[0]
  {
    assert a[..0] == b[..0];
    assert forall i :: 0 < i < |a| && i < |b| ==> a[..i][0] != b[..i][0];
  }

  lemma {:induction false} TextLeIff(a: string, b: string)
    ensures TextLe(a, b) <==> TextBefore(a, b)
  {
    if a != "" && b != "" {
      if a[0] == b[0] {
        TextLeIff(a[1..], b[1..]);
        TextBeforeNext(a[0], a[1..], b[1..]);
        assert a == [a[0]] + a[1..] && b == [a[0]] + b[1..];
      } else {
        TextBeforeFirst(a, b);
      }
    }
  }

  /** `a` is `b` or above it, or its name comes first at the first place where they differ. */
  ghost predicate PathBefore(a: Path, b: Path) {
    || a <= b
    || exists i :: 0 <= i < |a| && i < |b| && a[..i] == b[..i] && a[i] != b[i] && TextLe(a[i], b[i])
  }

  lemma PathBeforeNext(s: string, x: Path, y: Path)
    ensures PathBefore([s] + x, [s] + y) <==> PathBefore(x, y)
  {
    var a, b := [s] + x, [s] + y;
    PrefixNext(s, x, y);
    if i :| 0 <= i < |x| && i < |y| && x[..i] == y[..i] && x[i] != y[i] && TextLe(x[i], y[i]) {
      SliceNext(s, x, i);
      SliceNext(s, y, i);
      assert a[..i + 1] == b[..i + 1] && a[i + 1] != b[i + 1];
    }
    if i :| 0 <= i < |a| && i < |b| && a[..i] == b[..i] && a[i] != b[i] && TextLe(a[i], b[i]) {
      SliceNext(s, x, i - 1);
      SliceNext(s, y, i - 1);
      assert x[..i - 1] == y[..i - 1] && x[i - 1] != y[i - 1];
    }
  }

  lemma PathBeforeFirst(a: Path, b: Path)
    requires a != [] && b != [] && a[0] != b[0]
    ensures PathBefore(a, b) <==> TextLe(a[0], b[0])
  {
    assert a[..0] == b[..0];
    assert forall i :: 0 < i < |a| && i < |b| ==> a[..i][0] != b[..i][0];
  }

  lemma {:induction false} PathLeIff(a: Path, b: Path)
    ensures PathLe(a, b) <==> PathBefore(a, b)
  {
    if a != [] && b != [] {
      if a[0] == b[0] {
        PathLeIff(a[1..], b[1..]);
        PathBeforeNext(a[0], a[1..], b[1..]);
        assert a == [a[0]] + a[1..] && b == [a[0]] + b[1..];
      } else {
        PathBeforeFirst(a, b);
      }
    }
  }

  lemma {:induction false} TextLeTotal(a: string, b: string)
    ensures TextLe(a, b) || TextLe(b, a)
  {
    if a != "" && b != "" && a[0] == b[0] {
      TextLeTotal(a[1..], b[1..]);
    }
  }

  lemma {:induction false} TextLeAntisymmetric(a: string, b: string)
    requires TextLe(a, b) && TextLe(b, a)
    ensures a == b
  {
    if a != "" {
      TextLeAntisymmetric(a[1..], b[1..]);
      assert a == [a[0]] + a[1..] && b == [b[0]] + b[1..];
    }
  }

  lemma {:induction false} TextLeTransitive(a: string, b: string, c: string)
    requires TextLe(a, b) && TextLe(b, c)
    ensures TextLe(a, c)
  {
    if a != "" && a[0] == b[0] && b[0] == c[0] {
      TextLeTransitive(a[1..], b[1..], c[1..]);
    }
  }

  lemma {:induction false} PathLeTotal(a: Path, b: Path)
    ensures PathLe(a, b) || PathLe(b, a)
  {
    if a != [] && b != [] {
      if a[0] == b[0] {
        PathLeTotal(a[1..], b[1..]);
      } else {
        TextLeTotal(a[0], b[0]);
      }
    }
  }

  lemma {:induction false} PathLeAntisymmetric(a: Path, b: Path)
    requires PathLe(a, b) && PathLe(b, a)
    ensures a == b
  {
    if a != [] {
      if a[0] == b[0] {
        PathLeAntisymmetric(a[1..], b[1..]);
        assert a == [a[0]] + a[1..] && b == [b[0]] + b[1..];
      } else {
        TextLeAntisymmetric(a[0], b[0]);
      }
    }
  }

  lemma {:induction false} PathLeTransitive(a: Path, b: Path, c: Path)
    requires PathLe(a, b) && PathLe(b, c)
    ensures PathLe(a, c)
  {
    if a != [] {
      if a[0] == b[0] && b[0] == c[0] {
        PathLeTransitive(a[1..], b[1..], c[1..]);
      } else if a[0] != b[0] && b[0] != c[0] {
        TextLeTransitive(a[0], b[0], c[0]);
        if a[0] == c[0] {
          TextLeAntisymmetric(a[0], b[0]);
        }
      }
    }
  }

  lemma PathLeIsAnOrder()
    ensures TotalOrder(PathLe)
  {
    forall a, b ensures PathLe(a, b) || PathLe(b, a) {
      PathLeTotal(a, b);
    }
    forall a, b, c | PathLe(a, b) && PathLe(b, c) ensures PathLe(a, c) {
      PathLeTransitive(a, b, c);
    }
  }

  lemma DeeperFirstIsAnOrder()
    ensures TotalOrder(DeeperFirst)
  {
    PathLeIsAnOrder();
  }

  // ---------- the ancestors a walk upwards visits ----------

  /** Walking up from `t` reaches the ancestor of depth `j` before it meets `root`. */
  predicate Reaches(root: Path, t: Path, j: int) {
    0 <= j < |t| && !(j <= |root| && Above(root, t))
  }

  /** From a target below the root the walk reaches exactly the ancestors strictly below the root. */
  lemma ReachesBelowRoot(root: Path, t: Path, j: int)
    requires Above(root, t)
    ensures Reaches(root, t, j) <==> 0 <= j < |t| && Above(root, t[..j])
  {
    if Reaches(root, t, j) {
      assert t[..j][..|root|] == t[..|root|];
    }
  }
}
