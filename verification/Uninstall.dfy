/** Removing an installation: which files go, which directories go with them. */
module Uninstall {
  import opened Wrappers
  import opened Sorting
  import opened Paths

  // ---------- the targets ----------

  datatype Component = Normal(name: string) | CurDir | ParentDir

  /** One manifest entry, as the path parser sees it. */
  datatype Entry = Entry(absolute: bool, components: seq<Component>)

  datatype EntryError = NotRelative(entry: Entry) | Escapes(entry: Entry)

  function Names(components: seq<Component>): Path {
    if components == [] then []
    else (if components[0].Normal? then [components[0].name] else []) + Names(components[1..])
  }

  predicate Acceptable(e: Entry) {
    !e.absolute && ParentDir !in e.components
  }

  function Sanitize(e: Entry): Result<Path, EntryError> {
    if e.absolute then Err(NotRelative(e))
    else if ParentDir in e.components then Err(Escapes(e))
    else Ok(Names(e.components))
  }

  /** Of a path in two parts the names of the first come first. */
  lemma {:induction false} NamesJoin(a: seq<Component>, b: seq<Component>)
    ensures Names(a + b) == Names(a) + Names(b)
    decreases |a|
  {
    if a == [] {
      assert a + b == b;
    } else {
      NamesJoin(a[1..], b);
      assert a + b == [a[0]] + (a[1..] + b);
      NamesNext(a[0], a[1..] + b);
      NamesNext(a[0], a[1..]);
      assert a == [a[0]] + a[1..];
    }
  }

  lemma NamesNext(c: Component, rest: seq<Component>)
    ensures Names([c] + rest) == (if c.Normal? then [c.name] else []) + Names(rest)
  {
    assert ([c] + rest)[1..] == rest;
  }

  /** The current directory adds nothing, wherever it stands. */
  lemma CurDirAddsNothing(a: seq<Component>, b: seq<Component>)
    ensures Names(a + [CurDir] + b) == Names(a + b)
  {
    NamesJoin(a + [CurDir], b);
    NamesJoin(a, [CurDir]);
    NamesJoin(a, b);
    assert Names([CurDir]) == [];
  }

  predicate AllNormal(components: seq<Component>) {
    forall i :: 0 <= i < |components| ==> components[i].Normal?
  }

  /** `t` is what the components name, one after the other, below `installPath`. */
  predicate InstalledAt(installPath: Path, components: seq<Component>, t: Path) {
    && |t| == |installPath| + |components| && t[..|installPath|] == installPath
    && forall i :: 0 <= i < |components| ==> components[i] == Normal(t[|installPath| + i])
  }

  lemma {:induction false} NamesOfNormal(installPath: Path, components: seq<Component>)
    requires AllNormal(components)
    ensures InstalledAt(installPath, components, installPath + Names(components))
    decreases components
  {
    if components != [] {
      var rest := components[1..];
      NamesOfNormal(installPath, rest);
      NamesNext(components[0], rest);
      assert components == [components[0]] + rest;
      var t := installPath + Names(components);
      assert t == installPath + ([components[0].name] + Names(rest));
      forall i | 0 <= i < |components| ensures components[i] == Normal(t[|installPath| + i]) {
        if i > 0 {
          assert t[|installPath| + i] == (installPath + Names(rest))[|installPath| + (i - 1)];
        }
      }
    }
  }

  const UNINSTALLER := Entry(false, [Normal("uninstall.exe")])

  /** Neighbouring duplicates removed. */
  function Dedup(s: seq<Path>): seq<Path> {
    if |s| < 2 then s
    else if s[0] == s[1] then Dedup(s[1..])
    else [s[0]] + Dedup(s[1..])
  }

  lemma {:induction false} DedupOfSorted(s: seq<Path>)
    requires SortedBy(s, PathLe)
    ensures SortedBy(Dedup(s), PathLe)
    ensures forall x :: x in Dedup(s) <==> x in s
    ensures forall i, j :: 0 <= i < j < |Dedup(s)| ==> Dedup(s)[i] != Dedup(s)[j]
    ensures s != [] ==> Dedup(s) != [] && Dedup(s)[0] == s[0]
  {
    if |s| >= 2 {
      DedupOfSorted(s[1..]);
      assert s == [s[0]] + s[1..];
      var rest := Dedup(s[1..]);
      if s[0] != s[1] {
        forall j | 0 <= j < |rest| ensures PathLe(s[0], rest[j]) && s[0] != rest[j] {
          assert rest[j] in rest;
          assert rest[j] in s[1..];
          var k :| 0 <= k < |s[1..]| && s[1..][k] == rest[j];
          assert PathLe(s[0], s[k + 1]);
          if s[0] == rest[j] {
            assert PathLe(s[1], s[k + 1]) && PathLe(s[0], s[1]);
            PathLeAntisymmetric(s[0], s[1]);
          }
        }
      }
    }
  }

  /** Entry `i` is the first that is not acceptable, for this reason. */
  predicate FirstRejected(manifest: seq<Entry>, i: nat, error: EntryError) {
    && i < |manifest| && !Acceptable(manifest[i]) && error.entry == manifest[i]
    && (error.NotRelative? <==> manifest[i].absolute)
    && forall k :: 0 <= k < i ==> Acceptable(manifest[k])
  }

  /** The installed paths to remove: every manifest entry and the uninstaller, once each. */
  method CollectUninstallTargets(installPath: Path, manifest: seq<Entry>)
    returns (targets: Result<seq<Path>, EntryError>)
    ensures targets.Ok? <==> forall e :: e in manifest ==> Acceptable(e)
    ensures targets.Err? ==> exists i: nat :: FirstRejected(manifest, i, targets.error)
    ensures targets.Ok? ==>
      && SortedBy(targets.value, PathLe)
      && (forall i, j :: 0 <= i < j < |targets.value| ==> targets.value[i] != targets.value[j])
      && (forall p :: p in targets.value <==> IsTarget(installPath, manifest, p))
    ensures targets.Ok? ==>
      && installPath + ["uninstall.exe"] in targets.value
      && (forall e :: e in manifest && AllNormal(e.components) ==>
           exists t :: t in targets.value && InstalledAt(installPath, e.components, t))
  {
    var entries := manifest + [UNINSTALLER];
    assert Acceptable(UNINSTALLER);
    var joined: seq<Path> := [];
    for i := 0 to |entries|
      invariant |joined| == i
      invariant forall k :: 0 <= k < i ==>
          Acceptable(entries[k]) && joined[k] == installPath + Names(entries[k].components)
    {
      match Sanitize(entries[i]) {
        case Err(error) =>
          assert i < |manifest|;
          assert forall k :: 0 <= k < i ==> manifest[k] == entries[k];
          assert manifest[i] in manifest;
          assert FirstRejected(manifest, i, error);
          return Err(error);
        case Ok(path) => joined := joined + [installPath + path];
      }
    }
    forall e | e in manifest ensures Acceptable(e) {
      var k :| 0 <= k < |manifest| && manifest[k] == e;
      assert entries[k] == e;
    }
    PathLeIsAnOrder();
    SortSorts(joined, PathLe);
    DedupOfSorted(Sort(joined, PathLe));
    forall p ensures p in Sort(joined, PathLe) <==> IsTarget(installPath, manifest, p) {
      SortMembers(joined, PathLe, p);
      JoinedAreTargets(installPath, manifest, joined, p);
    }
    EntriesAreInstalled(installPath, manifest, Dedup(Sort(joined, PathLe)));
    return Ok(Dedup(Sort(joined, PathLe)));
  }

  /** `p` is where a manifest entry or the uninstaller is installed. */
  ghost predicate IsTarget(installPath: Path, manifest: seq<Entry>, p: Path) {
    exists e :: (e in manifest || e == UNINSTALLER) && p == installPath + Names(e.components)
  }

  /** The uninstaller, and every entry made of names alone, is a target where its components say. */
  lemma EntriesAreInstalled(installPath: Path, manifest: seq<Entry>, targets: seq<Path>)
    requires forall p :: p in targets <==> IsTarget(installPath, manifest, p)
    ensures installPath + ["uninstall.exe"] in targets
    ensures forall e :: e in manifest && AllNormal(e.components) ==>
      exists t :: t in targets && InstalledAt(installPath, e.components, t)
  {
    assert Names(UNINSTALLER.components) == ["uninstall.exe"];
    assert IsTarget(installPath, manifest, installPath + ["uninstall.exe"]);
    forall e | e in manifest && AllNormal(e.components)
      ensures exists t :: t in targets && InstalledAt(installPath, e.components, t)
    {
      NamesOfNormal(installPath, e.components);
      assert IsTarget(installPath, manifest, installPath + Names(e.components));
    }
  }

  lemma JoinedAreTargets(installPath: Path, manifest: seq<Entry>, joined: seq<Path>, p: Path)
    requires |joined| == |manifest| + 1
    requires forall k :: 0 <= k < |joined| ==>
        joined[k] == installPath + Names((manifest + [UNINSTALLER])[k].components)
    ensures p in joined <==> IsTarget(installPath, manifest, p)
  {
    var entries := manifest + [UNINSTALLER];
    if p in joined {
      var k :| 0 <= k < |joined| && joined[k] == p;
      assert entries[k] in manifest || entries[k] == UNINSTALLER;
    }
    if IsTarget(installPath, manifest, p) {
      var e :| (e in manifest || e == UNINSTALLER) && p == installPath + Names(e.components);
      assert e in entries;
      var k :| 0 <= k < |entries| && entries[k] == e;
      assert joined[k] == p;
    }
  }

  // ---------- the directories above the targets ----------

  /** `d` is one of the ancestors the walk up from target `t` visits. */
  ghost predicate Visited(root: Path, t: Path, d: Path) {
    Above(d, t) && Reaches(root, t, |d|)
  }

  /** Some of the first `n` targets has `d` among the ancestors its walk visits. */
  ghost predicate VisitedBy(root: Path, targets: seq<Path>, n: nat, d: Path) {
    exists i :: 0 <= i < n && i < |targets| && Visited(root, targets[i], d)
  }

  /** Every ancestor a walk from a collected directory would visit is collected too. */
  ghost predicate AncestorClosed(root: Path, dirs: seq<Path>) {
    forall d, a {:trigger Visited(root, d, a)} :: d in dirs && Visited(root, d, a) ==> a in dirs
  }

  ghost predicate NoDuplicates(dirs: seq<Path>) {
    forall i, j :: 0 <= i < j < |dirs| ==> dirs[i] != dirs[j]
  }

  /** The collected directories after the first `n` targets. */
  ghost predicate Collected(root: Path, targets: seq<Path>, n: nat, dirs: seq<Path>) {
    && NoDuplicates(dirs)
    && AncestorClosed(root, dirs)
    && (forall d {:trigger VisitedBy(root, targets, n, d)} :: d in dirs <==> VisitedBy(root, targets, n, d))
  }

  /**
   * In the middle of the walk from `t`: the ancestors deeper than `k` are new and have been
   * appended, deepest first.
   */
  ghost predicate Climbed(root: Path, t: Path, known: seq<Path>, dirs: seq<Path>, k: int) {
    && -1 <= k < |t|
    && |dirs| == |known| + |t| - 1 - k
    && known == dirs[..|known|]
    && (forall j {:trigger t[..j]} :: k < j < |t| ==>
          Reaches(root, t, j) && dirs[|known| + |t| - 1 - j] == t[..j] && t[..j] !in known)
  }

  /** What a walk from a visited ancestor visits, the walk from the target visits. */
  lemma VisitedTwice(root: Path, t: Path, d: Path, a: Path)
    requires Visited(root, t, d)
    ensures Visited(root, d, a) <==> Visited(root, t, a) && |a| < |d|
  {
    if Above(a, d) {
      assert t[..|d|][..|a|] == t[..|a|];
    }
    if |a| < |d| && Above(a, t) {
      assert d[..|a|] == t[..|a|];
    }
    if |root| < |d| {
      assert d[..|root|] == t[..|root|];
    }
  }

  /** Collects the ancestors of every target; a walk stops at the root or at a directory it already knows. */
  method CollectAncestors(root: Path, targets: seq<Path>) returns (dirs: seq<Path>)
    ensures Collected(root, targets, |targets|, dirs)
  {
    dirs := [];
    for i := 0 to |targets|
      invariant Collected(root, targets, i, dirs)
    {
      dirs := WalkUp(root, targets, i, dirs);
    }
  }

  method WalkUp(root: Path, targets: seq<Path>, i: nat, known: seq<Path>) returns (dirs: seq<Path>)
    requires i < |targets| && Collected(root, targets, i, known)
    ensures Collected(root, targets, i + 1, dirs)
  {
    var t := targets[i];
    dirs := known;
    var current := Parent(t);
    if current.None? {
      NothingVisited(root, targets, i, known);
      return;
    }
    while current.Some?
      invariant Climbed(root, t, known, dirs, if current.Some? then |current.value| else -1)
      invariant current.Some? ==> current.value == t[..|current.value|]
      decreases if current.Some? then |current.value| + 1 else 0
    {
      var dir := current.value;
      if dir == root {
        WalkStopped(root, targets, i, known, dirs, |dir|);
        return;
      }
      ReachesNext(root, t, known, dirs, |dir|);
      if dir in dirs {
        StoppedAtKnown(root, targets, i, known, dirs, |dir|);
        WalkStopped(root, targets, i, known, dirs, |dir|);
        return;
      }
      Climb(root, t, known, dirs, |dir|);
      dirs := dirs + [dir];
      current := Parent(dir);
      assert dir != [] ==> current.value == t[..|dir| - 1];
    }
    WalkStopped(root, targets, i, known, dirs, -1);
  }

  lemma Climb(root: Path, t: Path, known: seq<Path>, dirs: seq<Path>, k: nat)
    requires Climbed(root, t, known, dirs, k) && Reaches(root, t, k) && t[..k] !in dirs
    ensures Climbed(root, t, known, dirs + [t[..k]], k - 1)
  {
    var dirs' := dirs + [t[..k]];
    assert dirs'[..|known|] == known;
    assert t[..k] !in known by {
      assert dirs == known + dirs[|known|..];
    }
    forall j | k - 1 < j < |t|
      ensures Reaches(root, t, j) && dirs'[|known| + |t| - 1 - j] == t[..j] && t[..j] !in known
    {
      if j > k {
        assert dirs[|known| + |t| - 1 - j] == t[..j];
      }
    }
  }

  /** The file system root has no ancestors. */
  lemma NothingVisited(root: Path, targets: seq<Path>, i: nat, known: seq<Path>)
    requires i < |targets| && Collected(root, targets, i, known) && targets[i] == []
    ensures Collected(root, targets, i + 1, known)
  {
    forall d ensures d in known <==> VisitedBy(root, targets, i + 1, d) {
      VisitedByStep(root, targets, i, d);
      assert d in known <==> VisitedBy(root, targets, i, d);
    }
  }

  lemma VisitedByStep(root: Path, targets: seq<Path>, i: nat, d: Path)
    requires i < |targets|
    ensures VisitedBy(root, targets, i + 1, d) <==> VisitedBy(root, targets, i, d) || Visited(root, targets[i], d)
  {
    if VisitedBy(root, targets, i, d) {
      var k :| 0 <= k < i && Visited(root, targets[k], d);
      assert 0 <= k < i + 1;
    }
  }

  /** Unless it is the root, the next ancestor up is visited. */
  lemma ReachesNext(root: Path, t: Path, known: seq<Path>, dirs: seq<Path>, k: nat)
    requires Climbed(root, t, known, dirs, k) && t[..k] != root
    ensures Reaches(root, t, k)
  {
    if k + 1 < |t| {
      assert t[..k + 1] == t[..k + 1];
    }
  }

  /** Stopping at a directory that is already known misses nothing above it. */
  lemma StoppedAtKnown(root: Path, targets: seq<Path>, i: nat, known: seq<Path>, dirs: seq<Path>, k: nat)
    requires i < |targets| && Collected(root, targets, i, known)
    requires Climbed(root, targets[i], known, dirs, k)
    requires targets[i][..k] in dirs && Reaches(root, targets[i], k)
    ensures forall j :: 0 <= j <= k && Reaches(root, targets[i], j) ==> targets[i][..j] in known
  {
    var t := targets[i];
    var d := t[..k];
    forall m | |known| <= m < |dirs| ensures dirs[m] != d {
      assert |t[..|known| + |t| - 1 - m]| > k;
    }
    assert dirs == known + dirs[|known|..];
    forall j | 0 <= j < k && Reaches(root, t, j) ensures t[..j] in known {
      assert t[..j] == d[..j];
      VisitedTwice(root, t, d, t[..j]);
    }
  }

  /** The directories in hand are the known ones and the ancestors climbed past. */
  lemma ClimbedMembers(root: Path, t: Path, known: seq<Path>, dirs: seq<Path>, k: int, d: Path)
    requires Climbed(root, t, known, dirs, k)
    ensures d in dirs <==> d in known || (Above(d, t) && |d| > k)
  {
    assert forall m :: 0 <= m < |known| ==> dirs[m] == known[m];
    if d in dirs && d !in known {
      var m :| 0 <= m < |dirs| && dirs[m] == d;
      var j := |known| + |t| - 1 - m;
      assert t[..j] == d;
    }
    if d in known {
      var m :| 0 <= m < |known| && known[m] == d;
      assert dirs[m] == d;
    }
    if Above(d, t) && |d| > k {
      assert t[..|d|] == d;
    }
  }

  lemma ClimbedDistinct(root: Path, t: Path, known: seq<Path>, dirs: seq<Path>, k: int)
    requires Climbed(root, t, known, dirs, k) && NoDuplicates(known)
    ensures NoDuplicates(dirs)
  {
    var n := |known|;
    forall x, y | 0 <= x < y < |dirs| ensures dirs[x] != dirs[y] {
      if x < n && y < n {
        assert dirs[x] == known[x] && dirs[y] == known[y];
      } else {
        var j := n + |t| - 1 - y;
        assert t[..j] == dirs[y];
        if x < n {
          assert dirs[x] == known[x];
        } else {
          var l := n + |t| - 1 - x;
          assert t[..l] == dirs[x];
        }
      }
    }
  }

  /** Why the walk from `t` may stop above depth `k`: the top, the root, or everything further up is known. */
  ghost predicate MayStop(root: Path, t: Path, known: seq<Path>, k: int) {
    k < |t| && (k < 0 || t[..k] == root || forall j :: 0 <= j <= k && Reaches(root, t, j) ==> t[..j] in known)
  }

  lemma AllVisitedFound(root: Path, t: Path, known: seq<Path>, dirs: seq<Path>, k: int, d: Path)
    requires Climbed(root, t, known, dirs, k) && MayStop(root, t, known, k)
    requires Visited(root, t, d)
    ensures d in dirs
  {
    ClimbedMembers(root, t, known, dirs, k, d);
    assert t[..|d|] == d;
  }

  lemma FoundAreVisited(root: Path, t: Path, known: seq<Path>, dirs: seq<Path>, k: int, d: Path)
    requires Climbed(root, t, known, dirs, k) && d in dirs
    ensures d in known || Visited(root, t, d)
  {
    ClimbedMembers(root, t, known, dirs, k, d);
    if d !in known {
      assert t[..|d|] == d;
    }
  }

  /** The walk is over: what it appended completes the collection. */
  lemma WalkStopped(root: Path, targets: seq<Path>, i: nat, known: seq<Path>, dirs: seq<Path>, k: int)
    requires i < |targets| && Collected(root, targets, i, known)
    requires Climbed(root, targets[i], known, dirs, k) && MayStop(root, targets[i], known, k)
    ensures Collected(root, targets, i + 1, dirs)
  {
    var t := targets[i];
    ClimbedDistinct(root, t, known, dirs, k);
    forall d ensures d in dirs <==> VisitedBy(root, targets, i + 1, d) {
      VisitedByStep(root, targets, i, d);
      assert d in known <==> VisitedBy(root, targets, i, d);
      ClimbedMembers(root, t, known, dirs, k, d);
      if d in dirs {
        FoundAreVisited(root, t, known, dirs, k, d);
      }
      if Visited(root, t, d) {
        AllVisitedFound(root, t, known, dirs, k, d);
      }
    }
    forall d, a | d in dirs && Visited(root, d, a) ensures a in dirs {
      FoundAreVisited(root, t, known, dirs, k, d);
      ClimbedMembers(root, t, known, dirs, k, a);
      if d !in known {
        VisitedTwice(root, t, d, a);
        AllVisitedFound(root, t, known, dirs, k, a);
      }
    }
  }

  /** The collected directories, each before its ancestors. */
  method CollectParentDirectories(root: Path, targets: seq<Path>) returns (dirs: seq<Path>)
    ensures NoDuplicates(dirs) && DeepestFirst(dirs)
    ensures forall d :: d in dirs <==> VisitedBy(root, targets, |targets|, d)
  {
    var found := CollectAncestors(root, targets);
    dirs := Sort(found, DeeperFirst);
    DeeperFirstIsAnOrder();
    SortSorts(found, DeeperFirst);
    SortPermutes(found, DeeperFirst);
    StillDistinct(found, dirs);
    forall d ensures d in dirs <==> VisitedBy(root, targets, |targets|, d) {
      SortMembers(found, DeeperFirst, d);
      assert d in found <==> VisitedBy(root, targets, |targets|, d);
    }
  }

  /** No directory stands behind one of its ancestors. */
  ghost predicate DeepestFirst(dirs: seq<Path>) {
    forall i, j :: 0 <= i < j < |dirs| ==> |dirs[i]| >= |dirs[j]|
  }

  lemma StillDistinct(s: seq<Path>, t: seq<Path>)
    requires NoDuplicates(s) && multiset(s) == multiset(t)
    ensures NoDuplicates(t)
  {
    forall i, j | 0 <= i < j < |t| ensures t[i] != t[j] {
      if t[i] == t[j] {
        CountTwice(t, i, j);
        AtMostOnce(s, t[i]);
      }
    }
  }

  lemma {:induction false} AtMostOnce(s: seq<Path>, x: Path)
    requires NoDuplicates(s)
    ensures multiset(s)[x] <= 1
  {
    if s != [] {
      var front, last := s[..|s| - 1], s[|s| - 1];
      assert s == front + [last];
      AtMostOnce(front, x);
      assert last !in front;
    }
  }

  /** Every collected directory lies strictly below the root exactly when every target with an ancestor does. */
  lemma CollectedStayBelowRootIff(root: Path, targets: seq<Path>)
    ensures (forall d :: VisitedBy(root, targets, |targets|, d) ==> Above(root, d))
       <==> (forall t :: t in targets ==> t == [] || Above(root, t))
  {
    if forall t :: t in targets ==> t == [] || Above(root, t) {
      forall d | VisitedBy(root, targets, |targets|, d) ensures Above(root, d) {
        var i :| 0 <= i < |targets| && Visited(root, targets[i], d);
        assert targets[i] in targets;
        ReachesBelowRoot(root, targets[i], |d|);
      }
    }
    if t :| t in targets && t != [] && !Above(root, t) {
      var i :| 0 <= i < |targets| && targets[i] == t;
      var top: Path := [];
      assert t[..0] == top;
      assert Visited(root, targets[i], top);
      assert VisitedBy(root, targets, |targets|, top);
      assert !Above(root, top);
    }
  }

  /** For targets below the root the collected directories are exactly their ancestors strictly below the root. */
  lemma CollectedAreTheAncestors(root: Path, targets: seq<Path>, d: Path)
    requires forall t :: t in targets ==> Above(root, t)
    ensures VisitedBy(root, targets, |targets|, d) <==> Above(root, d) && exists t :: t in targets && Above(d, t)
  {
    if VisitedBy(root, targets, |targets|, d) {
      var i :| 0 <= i < |targets| && Visited(root, targets[i], d);
      assert targets[i] in targets;
      ReachesBelowRoot(root, targets[i], |d|);
    }
    if Above(root, d) {
      if t :| t in targets && Above(d, t) {
        var i :| 0 <= i < |targets| && targets[i] == t;
        ReachesBelowRoot(root, t, |d|);
        assert Visited(root, targets[i], d);
      }
    }
  }

  // ---------- the file system ----------

  datatype Kind = File | Dir

  type Tree = map<Path, Kind>

  /** Whatever exists stands in existing directories. */
  ghost predicate Rooted(tree: Tree) {
    forall p, j {:trigger p[..j]} :: p in tree && 0 <= j < |p| ==> p[..j] in tree && tree[p[..j]].Dir?
  }

  predicate ChildOf(c: Path, d: Path) {
    |c| == |d| + 1 && c[..|d|] == d
  }

  predicate Empty(tree: Tree, d: Path) {
    forall c :: c in tree ==> !ChildOf(c, d)
  }

  /** Removing a directory works only on an existing, empty one that is not locked. */
  predicate Removable(tree: Tree, locked: set<Path>, d: Path) {
    d in tree && tree[d].Dir? && d !in locked && Empty(tree, d)
  }

  function WithoutDir(tree: Tree, locked: set<Path>, d: Path): Tree {
    if Removable(tree, locked, d) then tree - {d} else tree
  }

  /** Trying to remove the first `n` directories in turn. */
  function WithoutDirs(tree: Tree, locked: set<Path>, dirs: seq<Path>, n: nat): Tree
    requires n <= |dirs|
  {
    if n == 0 then tree else WithoutDir(WithoutDirs(tree, locked, dirs, n - 1), locked, dirs[n - 1])
  }

  /** Removing directories will not take `q` away: a file, locked, or not listed. */
  predicate Stays(tree: Tree, locked: set<Path>, dirs: seq<Path>, q: Path) {
    q in tree && (tree[q].File? || q in locked || q !in dirs)
  }

  predicate AtOrBelow(q: Path, d: Path) {
    |d| <= |q| && q[..|d|] == d
  }

  /** Something at or below `d` stays. */
  ghost predicate Held(tree: Tree, locked: set<Path>, dirs: seq<Path>, d: Path) {
    exists q :: Stays(tree, locked, dirs, q) && AtOrBelow(q, d)
  }

  /** After the first `n` attempts: the paths not tried are as they were, those tried exist exactly if held. */
  ghost predicate RemovedSoFar(tree: Tree, locked: set<Path>, dirs: seq<Path>, n: nat, now: Tree) {
    && n <= |dirs|
    && (forall p {:trigger p in now} :: p in now ==> p in tree && now[p] == tree[p])
    && (forall p {:trigger p in now} :: p in tree && p !in dirs[..n] ==> p in now)
    && (forall i {:trigger dirs[i]} :: 0 <= i < n && dirs[i] in tree ==>
           (dirs[i] in now <==> Held(tree, locked, dirs, dirs[i])))
  }

  /** A listed path below the next directory has been tried already. */
  lemma DeeperIsTried(dirs: seq<Path>, n: nat, c: Path)
    requires DeepestFirst(dirs) && n < |dirs| && c in dirs && |c| > |dirs[n]|
    ensures c in dirs[..n]
  {
    var i :| 0 <= i < |dirs| && dirs[i] == c;
    assert i < n;
    assert dirs[..n][i] == c;
  }

  /** The next directory has a child left exactly when something below it stays. */
  lemma ChildLeftIffHeld(tree: Tree, locked: set<Path>, dirs: seq<Path>, n: nat, now: Tree)
    requires Rooted(tree) && DeepestFirst(dirs) && n < |dirs|
    requires RemovedSoFar(tree, locked, dirs, n, now)
    requires !Stays(tree, locked, dirs, dirs[n])
    ensures Empty(now, dirs[n]) <==> !Held(tree, locked, dirs, dirs[n])
  {
    var d := dirs[n];
    if !Empty(now, d) {
      var c :| c in now && ChildOf(c, d);
      ChildHolds(tree, locked, dirs, n, now, c);
    }
    if Held(tree, locked, dirs, d) {
      var q :| Stays(tree, locked, dirs, q) && AtOrBelow(q, d);
      assert q != d;
      HeldHasChild(tree, locked, dirs, n, now, q);
    }
  }

  lemma ChildHolds(tree: Tree, locked: set<Path>, dirs: seq<Path>, n: nat, now: Tree, c: Path)
    requires DeepestFirst(dirs) && n < |dirs| && RemovedSoFar(tree, locked, dirs, n, now)
    requires c in now && ChildOf(c, dirs[n])
    ensures Held(tree, locked, dirs, dirs[n])
  {
    var d := dirs[n];
    if c in dirs {
      DeeperIsTried(dirs, n, c);
      var i :| 0 <= i < n && dirs[..n][i] == c;
      assert dirs[i] == c;
      var q :| Stays(tree, locked, dirs, q) && AtOrBelow(q, c);
      assert q[..|d|] == c[..|d|];
      assert AtOrBelow(q, d);
    } else {
      assert Stays(tree, locked, dirs, c) && AtOrBelow(c, d);
    }
  }

  lemma HeldHasChild(tree: Tree, locked: set<Path>, dirs: seq<Path>, n: nat, now: Tree, q: Path)
    requires Rooted(tree) && DeepestFirst(dirs) && n < |dirs| && RemovedSoFar(tree, locked, dirs, n, now)
    requires Stays(tree, locked, dirs, q) && AtOrBelow(q, dirs[n]) && q != dirs[n]
    ensures !Empty(now, dirs[n])
  {
    var d := dirs[n];
    assert q == q[..|q|];
    var c := q[..|d| + 1];
    assert c[..|d|] == d && ChildOf(c, d);
    assert c in tree by {
      if |c| == |q| {
        assert c == q;
      }
    }
    assert AtOrBelow(q, c);
    assert Held(tree, locked, dirs, c);
    if c in dirs {
      DeeperIsTried(dirs, n, c);
      var i :| 0 <= i < n && dirs[..n][i] == c;
      assert dirs[i] == c;
    } else {
      assert c !in dirs[..n];
    }
    assert c in now;
  }

  lemma RemovedStep(tree: Tree, locked: set<Path>, dirs: seq<Path>, n: nat, now: Tree)
    requires Rooted(tree) && DeepestFirst(dirs) && NoDuplicates(dirs) && n < |dirs|
    requires RemovedSoFar(tree, locked, dirs, n, now)
    ensures RemovedSoFar(tree, locked, dirs, n + 1, WithoutDir(now, locked, dirs[n]))
  {
    var d := dirs[n];
    var next := WithoutDir(now, locked, d);
    assert dirs[..n + 1] == dirs[..n] + [d];
    assert d !in dirs[..n];
    if Stays(tree, locked, dirs, d) {
      assert AtOrBelow(d, d);
      assert Held(tree, locked, dirs, d);
    } else if d in tree {
      ChildLeftIffHeld(tree, locked, dirs, n, now);
    }
  }

  lemma {:induction false} RemovedThrough(tree: Tree, locked: set<Path>, dirs: seq<Path>, n: nat)
    requires Rooted(tree) && DeepestFirst(dirs) && NoDuplicates(dirs) && n <= |dirs|
    ensures RemovedSoFar(tree, locked, dirs, n, WithoutDirs(tree, locked, dirs, n))
  {
    if n > 0 {
      RemovedThrough(tree, locked, dirs, n - 1);
      RemovedStep(tree, locked, dirs, n - 1, WithoutDirs(tree, locked, dirs, n - 1));
    }
  }

  /**
   * Trying the directories deepest first removes everything that can go: a listed
   * directory survives if and only if a file, a locked path or an unlisted directory
   * is at or below it, and nothing that is not listed is touched.
   */
  lemma DeepestFirstRemovesAllItCan(tree: Tree, locked: set<Path>, dirs: seq<Path>)
    requires Rooted(tree) && DeepestFirst(dirs) && NoDuplicates(dirs)
    ensures var left := WithoutDirs(tree, locked, dirs, |dirs|);
      && (forall p :: p in left ==> p in tree && left[p] == tree[p])
      && (forall p :: p in tree && p !in dirs ==> p in left)
      && (forall d :: d in dirs && d in tree ==> (d in left <==> Held(tree, locked, dirs, d)))
  {
    RemovedThrough(tree, locked, dirs, |dirs|);
    assert dirs[..|dirs|] == dirs;
  }

  /** A directory and one inside it, both empty otherwise. */
  const NESTED: Tree := map[[] := Dir, ["a"] := Dir, ["a", "b"] := Dir]

  /** In another order a directory is tried while what it holds is still there, and stays though nothing holds it. */
  lemma OrderMatters()
    ensures Rooted(NESTED) && !Held(NESTED, {}, [["a"], ["a", "b"]], ["a"])
    ensures ["a"] in WithoutDirs(NESTED, {}, [["a"], ["a", "b"]], 2)
    ensures ["a"] !in WithoutDirs(NESTED, {}, [["a", "b"], ["a"]], 2)
  {
    var inner: Path := ["a", "b"];
    var shallow, deep: seq<Path> := [["a"], inner], [inner, ["a"]];
    assert inner[..0] == [] && inner[..1] == ["a"] && [["a"][0]][..0] == [];
    assert ChildOf(inner, ["a"]);
    assert WithoutDirs(NESTED, {}, shallow, 1) == NESTED;
    assert WithoutDirs(NESTED, {}, deep, 1) == map[[] := Dir, ["a"] := Dir];
  }

  // ---------- removing the installation ----------

  class FileSystem {
    var tree: Tree
    const locked: set<Path>

    constructor (tree: Tree, locked: set<Path>)
      ensures this.tree == tree && this.locked == locked
    {
      this.tree, this.locked := tree, locked;
    }

    method RemoveFile(p: Path) returns (ok: bool)
      requires p in tree && tree[p].File?
      modifies this
      ensures ok <==> p !in locked
      ensures tree == if ok then old(tree) - {p} else old(tree)
    {
      ok := p !in locked;
      if ok {
        tree := tree - {p};
      }
    }

    method RemoveDir(d: Path)
      modifies this
      ensures tree == WithoutDir(old(tree), locked, d)
    {
      if Removable(tree, locked, d) {
        tree := tree - {d};
      }
    }
  }

  /** A target file that is to go. */
  predicate Doomed(tree: Tree, skip: Option<Path>, p: Path) {
    p in tree && tree[p].File? && skip != Some(p)
  }

  /** The tree without those of the first `n` targets that are files, the skipped one excepted. */
  ghost predicate FilesGone(tree: Tree, targets: seq<Path>, n: nat, skip: Option<Path>, now: Tree) {
    && n <= |targets|
    && forall p {:trigger p in now} ::
         && (p in now <==> p in tree && !(Doomed(tree, skip, p) && p in targets[..n]))
         && (p in now ==> now[p] == tree[p])
  }

  /** Directories above files stay rooted when files go. */
  lemma FilesGoneStaysRooted(tree: Tree, targets: seq<Path>, n: nat, skip: Option<Path>, now: Tree)
    requires Rooted(tree) && FilesGone(tree, targets, n, skip, now)
    ensures Rooted(now)
  {
    forall p, j | p in now && 0 <= j < |p| ensures p[..j] in now && now[p[..j]].Dir? {
      assert p[..j] in tree && tree[p[..j]].Dir?;
    }
  }

  /** Removes the target files; fails at the first one that cannot be removed. */
  method RemoveFiles(fs: FileSystem, targets: seq<Path>, skip: Option<Path>)
    returns (failed: Option<Path>, ghost n: nat)
    modifies fs
    ensures FilesGone(old(fs.tree), targets, n, skip, fs.tree)
    ensures failed.None? ==> n == |targets|
    ensures failed.None? <==> forall p :: p in targets && Doomed(old(fs.tree), skip, p) ==> p !in fs.locked
    ensures failed.Some? ==> n < |targets| && failed.value == targets[n] && Doomed(old(fs.tree), skip, targets[n])
    ensures failed.Some? ==> targets[n] in fs.locked
  {
    n := 0;
    for i := 0 to |targets|
      invariant n == i
      invariant FilesGone(old(fs.tree), targets, i, skip, fs.tree)
      invariant forall k :: 0 <= k < i && Doomed(old(fs.tree), skip, targets[k]) ==> targets[k] !in fs.locked
    {
      var path := targets[i];
      assert targets[..i + 1] == targets[..i] + [path];
      n := i + 1;
      if skip == Some(path) {
        continue;
      }
      if path !in fs.tree {
        continue;
      }
      if fs.tree[path].File? {
        var ok := fs.RemoveFile(path);
        if !ok {
          n := i;
          return Some(path), i;
        }
      }
    }
    assert targets[..|targets|] == targets;
    return None, |targets|;
  }

  /** Tries every directory in turn, ignoring those that will not go. */
  method RemoveDirs(fs: FileSystem, dirs: seq<Path>)
    modifies fs
    ensures fs.tree == WithoutDirs(old(fs.tree), fs.locked, dirs, |dirs|)
  {
    for i := 0 to |dirs|
      invariant fs.tree == WithoutDirs(old(fs.tree), fs.locked, dirs, i)
    {
      fs.RemoveDir(dirs[i]);
    }
  }

  /**
   * Uninstalls: the target files first, then the directories above them deepest
   * first, then the root. Returns the file that could not be removed, if any.
   */
  method RemoveInstalledTargets(fs: FileSystem, root: Path, targets: seq<Path>, skip: Option<Path>)
    returns (failed: Option<Path>, ghost files: Tree, ghost dirs: seq<Path>)
    requires Rooted(fs.tree)
    modifies fs
    ensures failed.None? <==> forall p :: p in targets && Doomed(old(fs.tree), skip, p) ==> p !in fs.locked
    ensures failed.Some? ==>
      failed.value in targets && Doomed(old(fs.tree), skip, failed.value) && failed.value in fs.locked
    ensures failed.Some? ==> exists n: nat ::
        FilesGone(old(fs.tree), targets, n, skip, fs.tree) && n < |targets| && targets[n] == failed.value
    ensures failed.None? ==> FilesGone(old(fs.tree), targets, |targets|, skip, files)
    ensures failed.None? ==>
      && NoDuplicates(dirs) && DeepestFirst(dirs)
      && (forall d :: d in dirs <==> VisitedBy(root, targets, |targets|, d))
      && fs.tree == WithoutDirs(files, fs.locked, dirs + [root], |dirs| + 1)
  {
    ghost var n;
    failed, n := RemoveFiles(fs, targets, skip);
    files, dirs := fs.tree, [];
    if failed.Some? {
      return;
    }
    var found := CollectParentDirectories(root, targets);
    dirs := found;
    RemoveDirs(fs, found);
    fs.RemoveDir(root);
    WithoutDirsPrefix(files, fs.locked, dirs, [root], |dirs|);
  }

  lemma {:induction false} WithoutDirsPrefix(tree: Tree, locked: set<Path>, dirs: seq<Path>, more: seq<Path>, n: nat)
    requires n <= |dirs|
    ensures WithoutDirs(tree, locked, dirs + more, n) == WithoutDirs(tree, locked, dirs, n)
  {
    if n > 0 {
      WithoutDirsPrefix(tree, locked, dirs, more, n - 1);
    }
  }

  /** No walk ever visits the root. */
  lemma RootIsNotVisited(root: Path, targets: seq<Path>)
    ensures !VisitedBy(root, targets, |targets|, root)
  {
  }

  /** A root that is tried last stays exactly if something at or below it stays. */
  lemma RootLeftIffHeld(tree: Tree, locked: set<Path>, dirs: seq<Path>, root: Path)
    requires Rooted(tree) && DeepestFirst(dirs) && NoDuplicates(dirs) && root !in dirs
    requires root in tree && tree[root].Dir?
    ensures root in WithoutDir(WithoutDirs(tree, locked, dirs, |dirs|), locked, root)
       <==> Held(tree, locked, dirs + [root], root)
  {
    var mid, all := WithoutDirs(tree, locked, dirs, |dirs|), dirs + [root];
    DeepestFirstRemovesAllItCan(tree, locked, dirs);
    if root in locked {
      assert Stays(tree, locked, all, root) && AtOrBelow(root, root);
    } else if !Empty(mid, root) {
      var c :| c in mid && ChildOf(c, root);
      ChildHoldsRoot(tree, locked, dirs, root, c);
    } else if Held(tree, locked, all, root) {
      HeldRootHasChild(tree, locked, dirs, root);
    }
  }

  lemma HeldRootHasChild(tree: Tree, locked: set<Path>, dirs: seq<Path>, root: Path)
    requires Rooted(tree) && DeepestFirst(dirs) && NoDuplicates(dirs)
    requires root !in locked && root in tree && tree[root].Dir? && Held(tree, locked, dirs + [root], root)
    ensures !Empty(WithoutDirs(tree, locked, dirs, |dirs|), root)
  {
    DeepestFirstRemovesAllItCan(tree, locked, dirs);
    var q :| Stays(tree, locked, dirs + [root], q) && AtOrBelow(q, root);
    assert root in dirs + [root] && q != root;
    var c := ChildTowards(tree, root, q);
    assert c in dirs ==> Held(tree, locked, dirs, c) by {
      assert Stays(tree, locked, dirs, q) && AtOrBelow(q, c);
    }
  }

  lemma ChildTowards(tree: Tree, d: Path, q: Path) returns (c: Path)
    requires Rooted(tree) && q in tree && AtOrBelow(q, d) && q != d
    ensures c in tree && ChildOf(c, d) && AtOrBelow(q, c)
  {
    assert q[..|q|] == q;
    c := q[..|d| + 1];
    assert c[..|d|] == q[..|d|];
  }

  lemma ChildHoldsRoot(tree: Tree, locked: set<Path>, dirs: seq<Path>, root: Path, c: Path)
    requires c in tree && ChildOf(c, root)
    requires c in dirs ==> Held(tree, locked, dirs, c)
    ensures Held(tree, locked, dirs + [root], root)
  {
    if c in dirs {
      var q :| Stays(tree, locked, dirs, q) && AtOrBelow(q, c);
      assert q[..|root|] == c[..|root|];
      assert Stays(tree, locked, dirs + [root], q) && AtOrBelow(q, root);
    } else {
      assert Stays(tree, locked, dirs + [root], c) && AtOrBelow(c, root);
    }
  }

  /**
   * What an uninstallation whose files could all be removed leaves behind, whatever
   * the targets are: every file but the doomed targets; every directory but the root
   * and those above targets; and of those exactly the ones that a remaining file, a
   * locked path or an unrelated directory holds. Nothing above an existing root goes.
   */
  lemma UninstallLeaves(tree: Tree, locked: set<Path>, root: Path, targets: seq<Path>, skip: Option<Path>,
                        files: Tree, dirs: seq<Path>, left: Tree)
    requires Rooted(tree)
    requires FilesGone(tree, targets, |targets|, skip, files)
    requires NoDuplicates(dirs) && DeepestFirst(dirs)
    requires forall d :: d in dirs <==> VisitedBy(root, targets, |targets|, d)
    requires left == WithoutDirs(files, locked, dirs + [root], |dirs| + 1)
    ensures forall p :: p in left ==> p in tree && left[p] == tree[p]
    ensures forall p :: p in tree && tree[p].File? ==> (p in left <==> !(p in targets && skip != Some(p)))
    ensures forall p :: p in tree && tree[p].Dir? && p != root && !VisitedBy(root, targets, |targets|, p) ==> p in left
    ensures forall d :: d in tree && tree[d].Dir? && VisitedBy(root, targets, |targets|, d) ==>
      (d in left <==> Held(files, locked, dirs, d))
    ensures root in tree && tree[root].Dir? ==> (root in left <==> Held(files, locked, dirs + [root], root))
    ensures root in tree && tree[root].Dir? ==> forall d :: d in tree && Above(d, root) ==> d in left
  {
    RootIsNotVisited(root, targets);
    FilesGoneStaysRooted(tree, targets, |targets|, skip, files);
    WithoutDirsPrefix(files, locked, dirs, [root], |dirs|);
    assert left == WithoutDir(WithoutDirs(files, locked, dirs, |dirs|), locked, root);
    DeepestFirstRemovesAllItCan(files, locked, dirs);
    assert targets[..|targets|] == targets;
    forall p | p in tree && tree[p].File? ensures p in left <==> !(p in targets && skip != Some(p)) {
      if p in files && p in dirs {
        assert Stays(files, locked, dirs, p) && AtOrBelow(p, p);
      }
    }
    if root in tree && tree[root].Dir? {
      RootLeftIffHeld(files, locked, dirs, root);
      forall d | d in tree && Above(d, root) ensures d in left {
        assert Stays(files, locked, dirs, root) && AtOrBelow(root, d);
      }
    }
  }

  // ---------- which manifests keep to the installation ----------

  /** What the installer collects lies below the installation if and only if every entry names something. */
  lemma TargetsStayBelowRootIff(installPath: Path, manifest: seq<Entry>, targets: seq<Path>)
    requires forall p :: p in targets <==> IsTarget(installPath, manifest, p)
    ensures (forall t :: t in targets ==> Above(installPath, t))
       <==> forall e :: e in manifest ==> Names(e.components) != []
  {
    forall e | (e in manifest || e == UNINSTALLER)
      ensures installPath + Names(e.components) in targets
      ensures Above(installPath, installPath + Names(e.components)) <==> Names(e.components) != []
    {
      assert IsTarget(installPath, manifest, installPath + Names(e.components));
    }
  }

  /** An acceptable entry without a name, such as ".". */
  const NAMELESS := Entry(false, [CurDir])

  /** With such an entry the root is a target itself, and the walk from it visits the directory above. */
  lemma NamelessEntryLeavesRoot(root: Path, targets: seq<Path>)
    requires root != [] && forall p :: p in targets <==> IsTarget(root, [NAMELESS], p)
    ensures Acceptable(NAMELESS) && root in targets
    ensures VisitedBy(root, targets, |targets|, root[..|root| - 1]) && !Above(root, root[..|root| - 1])
  {
    assert root + Names(NAMELESS.components) == root;
    assert NAMELESS in [NAMELESS] && IsTarget(root, [NAMELESS], root);
    var i :| 0 <= i < |targets| && targets[i] == root;
    assert Visited(root, targets[i], root[..|root| - 1]);
  }
}
