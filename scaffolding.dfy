/**
 * `create_additional_directories` of the post-generation hook, as
 * functions on the file tree: `os.makedirs(directory, exist_ok=True)`
 * for each listed directory, then an empty `__init__.py` touched inside
 * the ones under `src/` and `tests/` when it does not exist yet.
 *
 * `os.makedirs` raises when the directory or one of its ancestors is a
 * file; the hook does not catch that, so the exception ends the hook at
 * that directory. `Scaffold` reports it as `Failed`, with the tree as it
 * was when the exception was raised.
 */
module Scaffolding {
  import opened Cookiecutter
  import opened FileTree

  const InitFile: string := "__init__.py"

  /** The directories every project gets, in the hook's order. */
  const CommonDirectories: seq<Path> := [
    ["tests", "unit"], ["tests", "integration"], ["tests", "fixtures"],
    ["docs", "api"], ["docs", "guides"], ["docs", "development"],
    ["scripts"]
  ]

  function UtilsDirectory(slug: string): Path { ["src", slug, "utils"] }

  function EndpointsDirectory(slug: string): Path { ["src", slug, "api", "v1", "endpoints"] }

  /** The directory list: the common ones, then `utils` unless web, then the endpoints package for FastAPI. */
  function Directories(c: Config): seq<Path>
  {
    var withUtils := CommonDirectories + if c.projectType != "web" then [UtilsDirectory(c.projectSlug)] else [];
    withUtils + if c.webFramework == "fastapi" then [EndpointsDirectory(c.projectSlug)] else []
  }

  /** `directory.startswith("src/") or directory.startswith("tests/")` */
  predicate IsPackageDir(d: Path)
  {
    |d| >= 2 && (d[0] == "src" || d[0] == "tests")
  }

  /** `d` and every ancestor of it. */
  function Ancestors(d: Path): set<Path>
  {
    set k | 0 < k <= |d| :: d[..k]
  }

  /** `os.makedirs(d)` would meet a file: `d` or one of its ancestors is a file. */
  predicate Blocked(t: Tree, d: Path)
  {
    exists k | 0 < k <= |d| :: d[..k] in t && t[d[..k]].File?
  }

  /** `os.makedirs(d, exist_ok=True)` when nothing blocks it: every missing ancestor becomes a directory. */
  function MakeDirs(t: Tree, d: Path): Tree
  {
    map q | q in t.Keys + Ancestors(d) :: if q in t then t[q] else Dir
  }

  /** `Path.touch()` guarded by `exists()`: an existing entry is left alone. */
  function Touch(t: Tree, p: Path): Tree
  {
    if p in t then t else t[p := File("", true)]
  }

  datatype Scaffolded = Done(tree: Tree) | Failed(tree: Tree, at: Path)

  /** One turn of the hook's loop. */
  function CreateDirectory(t: Tree, d: Path): Scaffolded
  {
    if Blocked(t, d) then Failed(t, d)
    else
      var made := MakeDirs(t, d);
      Done(if IsPackageDir(d) then Touch(made, d + [InitFile]) else made)
  }

  /** The hook's loop over `ds`, in order, stopping at the first directory that cannot be made. */
  function Scaffold(t: Tree, ds: seq<Path>): Scaffolded
    decreases |ds|
  {
    if ds == [] then Done(t)
    else
      match Scaffold(t, ds[..|ds| - 1])
      case Failed(t', at) => Failed(t', at)
      case Done(t') => CreateDirectory(t', ds[|ds| - 1])
  }

  predicate NonEmptyPaths(ds: seq<Path>)
  {
    forall d | d in ds :: d != []
  }

  /**
   * One directory: when nothing blocks it, the directory exists afterwards
   * and so does its `__init__.py` if it is a package directory. Nothing
   * that existed changes; each new entry is a directory at or above `d`
   * or, for a package directory only, the fresh, empty `__init__.py` inside `d`.
   */
  lemma CreateDirectoryFacts(t: Tree, d: Path)
    requires d != []
    ensures CreateDirectory(t, d).Done? <==> !Blocked(t, d)
    ensures var t' := CreateDirectory(t, d).tree;
      && (forall p | p in t :: p in t' && t'[p] == t[p])
      && (forall p | p in t' && p !in t ::
            (t'[p] == Dir && Below(d, p)) || (t'[p] == File("", true) && IsPackageDir(d) && p == d + [InitFile]))
    ensures CreateDirectory(t, d).Done? ==>
      var t' := CreateDirectory(t, d).tree;
      && d in t' && t'[d].Dir?
      && (IsPackageDir(d) ==> d + [InitFile] in t')
      && (Wf(t) ==> Wf(t'))
  {
    if !Blocked(t, d) {
      var t' := CreateDirectory(t, d).tree;
      MadeDirsAreDirs(t, d);
      assert d[..|d|] == d;
      forall p | p in t' && p !in t && t'[p] == Dir ensures Below(d, p) {
        if p in Ancestors(d) {
          var m :| 0 < m <= |d| && p == d[..m];
        }
      }
      if Wf(t) {
        CreateDirectoryWf(t, d);
      }
    }
  }

  /** When nothing blocks `d`, `d` and its ancestors are directories once made. */
  lemma MadeDirsAreDirs(t: Tree, d: Path)
    requires !Blocked(t, d)
    ensures forall k | 0 < k <= |d| :: d[..k] in MakeDirs(t, d) && MakeDirs(t, d)[d[..k]].Dir?
  {
    forall k | 0 < k <= |d| ensures d[..k] in MakeDirs(t, d) && MakeDirs(t, d)[d[..k]].Dir? {
      assert d[..k] in Ancestors(d);
    }
  }

  /** Making an unblocked directory keeps a well-formed tree well-formed. */
  lemma CreateDirectoryWf(t: Tree, d: Path)
    requires Wf(t) && d != [] && !Blocked(t, d)
    ensures Wf(CreateDirectory(t, d).tree)
  {
    var t' := CreateDirectory(t, d).tree;
    MadeDirsAreDirs(t, d);
    assert d[..|d|] == d;
    forall q, k | q in t' && 0 < k < |q| ensures q[..k] in t' && t'[q[..k]].Dir? {
      if q in t {
      } else if q in Ancestors(d) {
        var m :| 0 < m <= |d| && q == d[..m];
        assert q[..k] == d[..k];
      } else {
        assert q == d + [InitFile];
        if k < |d| {
          assert q[..k] == d[..k];
        } else {
          assert q[..k] == d[..|d|];
        }
      }
    }
  }

  /** Whatever the outcome, every entry that existed keeps its node: an existing `__init__.py` is never truncated. */
  lemma {:induction false} ScaffoldKeeps(t: Tree, ds: seq<Path>)
    requires NonEmptyPaths(ds)
    ensures forall p | p in t :: p in Scaffold(t, ds).tree && Scaffold(t, ds).tree[p] == t[p]
    ensures Wf(t) ==> Wf(Scaffold(t, ds).tree)
  {
    if ds != [] {
      var front, last := ds[..|ds| - 1], ds[|ds| - 1];
      assert forall d | d in front :: d in ds;
      assert last in ds;
      ScaffoldKeeps(t, front);
      if Scaffold(t, front).Done? {
        CreateDirectoryFacts(Scaffold(t, front).tree, last);
      }
    }
  }

  /** The new entries are `NewEntry`s of `ds`. */
  predicate NewEntry(ds: seq<Path>, p: Path, n: Node)
  {
    || (n == Dir && exists i | 0 <= i < |ds| :: Below(ds[i], p))
    || (n == File("", true) && exists i | 0 <= i < |ds| :: IsPackageDir(ds[i]) && p == ds[i] + [InitFile])
  }

  lemma NewEntryFront(front: seq<Path>, ds: seq<Path>, p: Path, n: Node)
    requires |front| <= |ds| && front == ds[..|front|] && NewEntry(front, p, n)
    ensures NewEntry(ds, p, n)
  {
    if n == Dir && exists i | 0 <= i < |front| :: Below(front[i], p) {
      var i :| 0 <= i < |front| && Below(front[i], p);
      assert front[i] == ds[i];
    } else {
      var i :| 0 <= i < |front| && IsPackageDir(front[i]) && p == front[i] + [InitFile];
      assert front[i] == ds[i];
    }
  }

  /**
   * Every entry the loop adds is a directory at or above a listed
   * directory, or an empty, readable `__init__.py` of a listed one.
   */
  lemma {:induction false} ScaffoldNewEntries(t: Tree, ds: seq<Path>)
    requires NonEmptyPaths(ds)
    ensures forall p | p in Scaffold(t, ds).tree && p !in t :: NewEntry(ds, p, Scaffold(t, ds).tree[p])
  {
    if ds != [] {
      var front, last := ds[..|ds| - 1], ds[|ds| - 1];
      assert forall d | d in front :: d in ds;
      assert last in ds;
      ScaffoldNewEntries(t, front);
      if Scaffold(t, front).Done? {
        var mid := Scaffold(t, front).tree;
        var t' := Scaffold(t, ds).tree;
        CreateDirectoryFacts(mid, last);
        forall p | p in t' && p !in t ensures NewEntry(ds, p, t'[p]) {
          if p in mid {
            NewEntryFront(front, ds, p, mid[p]);
          } else if t'[p] == Dir {
            assert Below(ds[|ds| - 1], p);
          } else {
            assert p == ds[|ds| - 1] + [InitFile];
          }
        }
      } else {
        forall p | p in Scaffold(t, ds).tree && p !in t ensures NewEntry(ds, p, Scaffold(t, ds).tree[p]) {
          NewEntryFront(front, ds, p, Scaffold(t, front).tree[p]);
        }
      }
    }
  }

  /** When the loop finishes, every listed directory exists, with an `__init__.py` in each package directory. */
  lemma {:induction false} ScaffoldCreates(t: Tree, ds: seq<Path>)
    requires NonEmptyPaths(ds)
    ensures Scaffold(t, ds).Done? ==> forall d | d in ds ::
      && d in Scaffold(t, ds).tree && Scaffold(t, ds).tree[d].Dir?
      && (IsPackageDir(d) ==> d + [InitFile] in Scaffold(t, ds).tree)
  {
    if ds != [] {
      var front, last := ds[..|ds| - 1], ds[|ds| - 1];
      assert forall d | d in front :: d in ds;
      assert last in ds;
      ScaffoldCreates(t, front);
      if Scaffold(t, front).Done? {
        CreateDirectoryFacts(Scaffold(t, front).tree, last);
        assert forall d | d in ds :: d in front || d == last;
      }
    }
  }

  /** Once a turn fails, the loop has stopped: the outcome of the whole list is that failure. */
  lemma {:induction false} FailureIsFinal(t: Tree, ds: seq<Path>, n: nat)
    requires n <= |ds| && Scaffold(t, ds[..n]).Failed?
    ensures Scaffold(t, ds) == Scaffold(t, ds[..n])
    decreases |ds| - n
  {
    if n < |ds| {
      assert ds[..n + 1][..n] == ds[..n];
      assert Scaffold(t, ds[..n + 1]) == Scaffold(t, ds[..n]);
      FailureIsFinal(t, ds, n + 1);
    } else {
      assert ds[..n] == ds;
    }
  }

  /** No listed directory lies at or below the `__init__.py` of a listed directory. */
  predicate InitsOutOfTheWay(ds: seq<Path>)
  {
    forall i, j | 0 <= i < |ds| && 0 <= j < |ds| :: !Below(ds[j], ds[i] + [InitFile])
  }

  /**
   * Files that the earlier turns added (the `__init__.py` of earlier
   * directories) do not block `d` when none of them lies at or above it.
   */
  lemma BlockedUnchanged(t: Tree, mid: Tree, front: seq<Path>, d: Path)
    requires forall p | p in t :: p in mid && mid[p] == t[p]
    requires forall p | p in mid && p !in t :: NewEntry(front, p, mid[p])
    requires forall i | 0 <= i < |front| :: !Below(d, front[i] + [InitFile])
    ensures Blocked(mid, d) <==> Blocked(t, d)
  {
    if Blocked(t, d) {
      var k :| 0 < k <= |d| && d[..k] in t && t[d[..k]].File?;
      assert d[..k] in mid && mid[d[..k]].File?;
    }
    if Blocked(mid, d) {
      var k :| 0 < k <= |d| && d[..k] in mid && mid[d[..k]].File?;
      var p := d[..k];
      if p in t {
      } else {
        var i :| 0 <= i < |front| && IsPackageDir(front[i]) && p == front[i] + [InitFile];
        BelowIsPrefix(d, p);
        assert false;
      }
    }
  }

  /**
   * When no listed directory sits at or below a listed directory's
   * `__init__.py`, the loop runs to the end exactly when no listed
   * directory is blocked by a file of the original tree.
   */
  lemma {:induction false} ScaffoldDoneIff(t: Tree, ds: seq<Path>)
    requires NonEmptyPaths(ds) && InitsOutOfTheWay(ds)
    ensures Scaffold(t, ds).Done? <==> forall d | d in ds :: !Blocked(t, d)
  {
    if ds != [] {
      var front, last := ds[..|ds| - 1], ds[|ds| - 1];
      assert forall d | d in front :: d in ds;
      assert forall d | d in ds :: d in front || d == last;
      assert last in ds;
      assert InitsOutOfTheWay(front) by {
        forall i, j | 0 <= i < |front| && 0 <= j < |front| ensures !Below(front[j], front[i] + [InitFile]) {
          assert front[i] == ds[i] && front[j] == ds[j];
        }
      }
      ScaffoldDoneIff(t, front);
      if Scaffold(t, front).Done? {
        ScaffoldKeeps(t, front);
        ScaffoldNewEntries(t, front);
        var mid := Scaffold(t, front).tree;
        CreateDirectoryFacts(mid, last);
        forall i | 0 <= i < |front| ensures !Below(last, front[i] + [InitFile]) {
          assert front[i] == ds[i];
        }
        BlockedUnchanged(t, mid, front, last);
      }
    }
  }

  /**
   * An `__init__.py` that was not there before the loop and is there after
   * it is the empty, readable file the loop touched.
   */
  lemma FreshInitIsEmpty(t: Tree, ds: seq<Path>, d: Path)
    requires NonEmptyPaths(ds) && InitsOutOfTheWay(ds) && d in ds
    requires d + [InitFile] !in t && d + [InitFile] in Scaffold(t, ds).tree
    ensures Scaffold(t, ds).tree[d + [InitFile]] == File("", true)
  {
    ScaffoldNewEntries(t, ds);
    var j :| 0 <= j < |ds| && ds[j] == d;
    assert forall i | 0 <= i < |ds| :: !Below(ds[i], ds[j] + [InitFile]);
  }

  /** The three lemmas above together, for a list meeting their conditions. */
  lemma ScaffoldOutcome(t: Tree, ds: seq<Path>)
    requires NonEmptyPaths(ds) && InitsOutOfTheWay(ds)
    ensures Scaffold(t, ds).Done? <==> forall d | d in ds :: !Blocked(t, d)
    ensures Scaffold(t, ds).Done? ==> forall d | d in ds ::
      && d in Scaffold(t, ds).tree && Scaffold(t, ds).tree[d].Dir?
      && (IsPackageDir(d) ==> d + [InitFile] in Scaffold(t, ds).tree)
    ensures forall p | p in t :: p in Scaffold(t, ds).tree && Scaffold(t, ds).tree[p] == t[p]
  {
    ScaffoldDoneIff(t, ds);
    ScaffoldCreates(t, ds);
    ScaffoldKeeps(t, ds);
  }

  /** Running the loop again on a finished result changes nothing: `exist_ok=True` and touch-if-absent. */
  lemma ScaffoldIdempotent(t: Tree, ds: seq<Path>)
    requires Wf(t) && NonEmptyPaths(ds) && Scaffold(t, ds).Done?
    ensures Scaffold(Scaffold(t, ds).tree, ds) == Scaffold(t, ds)
  {
    var done := Scaffold(t, ds).tree;
    ScaffoldCreates(t, ds);
    ScaffoldKeeps(t, ds);
    StableFrom(done, ds, |ds|);
    assert ds[..|ds|] == ds;
  }

  /** On a well-formed tree holding all of `ds` (and their `__init__.py`), the first `n` turns change nothing. */
  lemma {:induction false} StableFrom(t: Tree, ds: seq<Path>, n: nat)
    requires Wf(t) && n <= |ds| && NonEmptyPaths(ds)
    requires forall d | d in ds :: d in t && t[d].Dir? && (IsPackageDir(d) ==> d + [InitFile] in t)
    ensures Scaffold(t, ds[..n]) == Done(t)
    decreases n
  {
    if n > 0 {
      StableFrom(t, ds, n - 1);
      assert ds[..n][..n - 1] == ds[..n - 1];
      var d := ds[n - 1];
      assert d in ds;
      forall k | 0 < k <= |d| ensures d[..k] in t && t[d[..k]].Dir? {
        if k == |d| {
          assert d[..k] == d;
        }
      }
      assert MakeDirs(t, d) == t;
    }
  }

  // ----- the directory list of the hook -----

  /**
   * What the list holds: the seven common directories always, `utils`
   * exactly when the project type is not "web", the endpoints package
   * exactly when the web framework variable is "fastapi", and nothing else.
   */
  lemma DirectoriesChoice(c: Config)
    ensures forall d | d in CommonDirectories :: d in Directories(c)
    ensures UtilsDirectory(c.projectSlug) in Directories(c) <==> c.projectType != "web"
    ensures EndpointsDirectory(c.projectSlug) in Directories(c) <==> c.webFramework == "fastapi"
    ensures forall d | d in Directories(c) ::
      d in CommonDirectories || d == UtilsDirectory(c.projectSlug) || d == EndpointsDirectory(c.projectSlug)
  {
    var slug := c.projectSlug;
    CommonOutsideSrc();
    assert forall d | d in CommonDirectories :: d[0] != "src";
    var extraU := if c.projectType != "web" then [UtilsDirectory(slug)] else [];
    var extraE := if c.webFramework == "fastapi" then [EndpointsDirectory(slug)] else [];
    assert Directories(c) == CommonDirectories + extraU + extraE;
    assert UtilsDirectory(slug) != EndpointsDirectory(slug);
    assert UtilsDirectory(slug) !in CommonDirectories;
    assert EndpointsDirectory(slug) !in CommonDirectories;
  }

  /** None of the common directories is under `src`, and all but the last have two components. */
  lemma CommonOutsideSrc()
    ensures forall i | 0 <= i < 7 :: 0 < |CommonDirectories[i]| <= 2 && CommonDirectories[i][0] != "src"
    ensures forall i | 0 <= i < 6 :: |CommonDirectories[i]| == 2
  {
    forall i | 0 <= i < 7 ensures 0 < |CommonDirectories[i]| <= 2 && CommonDirectories[i][0] != "src" {
      // the first components are "tests", "docs" and "scripts", none of length three
      assert |CommonDirectories[i][0]| != |"src"|;
    }
  }

  lemma DirectoriesNonEmpty(c: Config)
    ensures NonEmptyPaths(Directories(c))
  {
    CommonOutsideSrc();
  }

  /** The hook's list meets the conditions of the lemmas above, for every configuration. */
  lemma DirectoriesWellFormed(c: Config)
    ensures NonEmptyPaths(Directories(c))
    ensures InitsOutOfTheWay(Directories(c))
  {
    DirectoriesNonEmpty(c);
    var ds := Directories(c);
    var slug := c.projectSlug;
    CommonOutsideSrc();
    assert ds[..7] == CommonDirectories;
    assert forall k | 7 <= k < |ds| :: ds[k] == UtilsDirectory(slug) || ds[k] == EndpointsDirectory(slug);
    assert |ds| == 9 ==> ds[7] == UtilsDirectory(slug) && ds[8] == EndpointsDirectory(slug);
    forall i, j | 0 <= i < |ds| && 0 <= j < |ds| ensures !Below(ds[j], ds[i] + [InitFile]) {
      var e := ds[i] + [InitFile];
      if j < 6 && i == 6 {
        // "scripts/__init__.py" against a two-component directory under "tests" or "docs"
        assert ds[i] == ["scripts"] && ds[j] == CommonDirectories[j];
        assert |ds[j][0]| != |e[0]|;
      } else if j < 7 {
        assert ds[j] == CommonDirectories[j];
        assert i < 7 ==> ds[i] == CommonDirectories[i];
        assert |ds[j]| < |e|;
      } else if i < 7 {
        assert ds[i] == CommonDirectories[i];
        assert ds[j][0] == "src" && e[0] != "src";
      } else if i == j {
        assert |ds[j]| < |e|;
      } else if i == 7 {
        assert ds[j][2] == "api" && e[2] == "utils";
      } else {
        assert |ds[j]| < |e|;
      }
    }
  }
}
