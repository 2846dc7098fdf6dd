/**
 * The post-generation hook run on the generated project directory: the
 * rule loop of `clean_unused_files`, the empty-file sweep, directory
 * scaffolding and the pre-commit configuration, in the order of the
 * hook's main block. `ProjectTree` holds the directory and its methods
 * change it the way the hook's functions change the disk; each method is
 * proved to compute the corresponding function of Cleanup or Scaffolding.
 */
module PostGen {
  import opened Wrappers
  import opened Cookiecutter
  import opened Text
  import opened FileTree
  import opened Cleanup
  import opened Scaffolding

  /** `.pre-commit-config.yaml` at the project root. */
  const PreCommitConfigPath: Path := [".pre-commit-config.yaml"]

  /** `setup_pre_commit` on the tree: write the configuration only when pre-commit is wanted and nothing is there yet. */
  function WritePreCommitConfig(t: Tree, c: Config, configText: string): Tree
  {
    if c.usePreCommit == "y" && PreCommitConfigPath !in t then t[PreCommitConfigPath := File(configText, true)] else t
  }

  /** What follows cleaning: scaffold `ds` and, unless that raised, set up pre-commit. */
  function Finish(cleaned: Tree, ds: seq<Path>, c: Config, configText: string): Scaffolded
  {
    match Scaffold(cleaned, ds)
    case Failed(t', at) => Failed(t', at)
    case Done(t') => Done(WritePreCommitConfig(t', c, configText))
  }

  /** The whole hook: clean, scaffold, and, unless scaffolding raised, set up pre-commit. */
  function PostGenOutcome(t: Tree, c: Config, configText: string): Scaffolded
  {
    Finish(Cleanse(t, c), Directories(c), c, configText)
  }

  /** The sweep's loop state: the entries still to visit are untouched, the visited ones swept. */
  ghost function SweptExcept(t: Tree, projectType: string, pending: set<Path>): Tree
  {
    map p | p in t && (p in pending || !SweepDeletes(projectType, p, t[p])) :: t[p]
  }

  /** Visiting one more entry: it drops out exactly when the sweep deletes it. */
  lemma SweepStep(t: Tree, projectType: string, pending: set<Path>, p: Path)
    requires p in pending && p in t
    ensures SweptExcept(t, projectType, pending - {p}) ==
      if SweepDeletes(projectType, p, t[p]) then SweptExcept(t, projectType, pending) - {p}
      else SweptExcept(t, projectType, pending)
  {
  }

  /** A tree swept in part is still well-formed: only files are deleted. */
  lemma SweptExceptWf(t: Tree, projectType: string, pending: set<Path>)
    requires Wf(t)
    ensures Wf(SweptExcept(t, projectType, pending))
  {
  }

  class ProjectTree {
    /** The generated project directory (the hook's working directory). */
    var tree: Tree

    ghost predicate Valid()
      reads this
    {
      Wf(tree)
    }

    constructor (initial: Tree)
      requires Wf(initial)
      ensures Valid() && tree == initial
    {
      tree := initial;
    }

    /** `remove_file_or_dir`: a file alone, a directory with its whole subtree, nothing when absent. */
    method RemoveFileOrDir(p: Path)
      requires Valid() && p != []
      modifies this
      ensures Valid()
      ensures tree == Remove(old(tree), p)
      ensures forall q :: q in tree <==> q in old(tree) && !Below(q, p)
      ensures forall q | q in tree :: tree[q] == old(tree)[q]
    {
      RemoveSubtree(tree, p);
      if p in tree && tree[p].File? {
        tree := tree - {p};
      } else if p in tree {
        tree := map q | q in tree && !Below(q, p) :: tree[q];
      }
    }

    /** `clean_empty_files`, visiting the files in any order. */
    method CleanEmptyFiles(c: Config)
      requires Valid()
      modifies this
      ensures Valid()
      ensures tree == Sweep(old(tree), c.projectType)
    {
      var projectType := c.projectType;
      var webFramework := DerivedWebFramework(projectType);
      var pending := tree.Keys;
      SweptExceptWf(tree, projectType, pending);
      while pending != {}
        invariant pending <= old(tree).Keys
        invariant tree == SweptExcept(old(tree), projectType, pending)
        invariant Valid()
        decreases pending
      {
        var p :| p in pending;
        SweepStep(old(tree), projectType, pending, p);
        SweptExceptWf(old(tree), projectType, pending - {p});
        pending := pending - {p};
        if p in tree && tree[p].File? {
          if webFramework == "fastapi" && HasPreservedName(p[|p| - 1]) {
            continue;
          }
          var node := tree[p];
          if !node.decodable {
            // the read raised UnicodeDecodeError or PermissionError: skipped
            continue;
          }
          var content := Strip(node.content);
          if content == [] || (StartsWith(content, "{%") && EndsWith(content, "-%}")) {
            tree := tree - {p};
          }
        }
      }
      assert tree == Sweep(old(tree), projectType);
    }

    /**
     * `clean_unused_files`: each true rule whose target exists removes
     * it, in list order, then the sweep. What is left is exactly what no
     * true rule targets and the sweep keeps, each entry unchanged.
     */
    method CleanUnusedFiles(c: Config)
      requires Valid()
      modifies this
      ensures Valid()
      ensures tree == Cleanse(old(tree), c)
      ensures forall q :: q in tree <==>
        q in old(tree) && !Targeted(Rules(c), q) && !SweepDeletes(c.projectType, q, old(tree)[q])
      ensures forall q | q in tree :: tree[q] == old(tree)[q]
    {
      ghost var start := tree;
      RulesHaveTargets(c);
      RemoveTargets(Rules(c));
      CleanEmptyFiles(c);
      CleanseKeeps(start, c);
    }

    /** The loop of `clean_unused_files`: in list order, each true rule whose target exists removes it. */
    method RemoveTargets(rules: seq<Rule>)
      requires Valid() && NonEmptyTargets(rules)
      modifies this
      ensures Valid()
      ensures tree == ApplyRules(old(tree), rules)
    {
      for i := 0 to |rules|
        invariant Valid()
        invariant tree == ApplyRules(old(tree), rules[..i])
      {
        assert rules[..i + 1][..i] == rules[..i];
        var rule := rules[i];
        assert rule in rules;
        if rule.condition && rule.target in tree {
          RemoveFileOrDir(rule.target);
        }
      }
      assert rules[..|rules|] == rules;
    }

    /**
     * `create_additional_directories`. `failedAt` is the directory whose
     * `os.makedirs` raised because a file was in the way (the exception
     * ends the hook), or None when every directory was made. What that
     * outcome means is proved about `Scaffold` (`ScaffoldOutcome`).
     */
    method CreateAdditionalDirectories(c: Config) returns (failedAt: Option<Path>)
      requires Valid()
      modifies this
      ensures Valid()
      ensures Scaffold(old(tree), Directories(c)) ==
        if failedAt.None? then Done(tree) else Failed(tree, failedAt.value)
    {
      var slug := c.projectSlug;
      var directories := CommonDirectories;
      if c.projectType != "web" {
        directories := directories + [UtilsDirectory(slug)];
      }
      if c.webFramework == "fastapi" {
        directories := directories + [EndpointsDirectory(slug)];
      }
      assert directories == Directories(c);
      DirectoriesNonEmpty(c);
      failedAt := MakeDirectories(directories);
    }

    /**
     * The loop of `create_additional_directories`: `os.makedirs` with
     * `exist_ok=True` for each directory, then the `__init__.py` of a
     * package directory when it is missing; stops at the first directory
     * a file is in the way of.
     */
    method MakeDirectories(directories: seq<Path>) returns (failedAt: Option<Path>)
      requires Valid() && NonEmptyPaths(directories)
      modifies this
      ensures Valid()
      ensures Scaffold(old(tree), directories) ==
        if failedAt.None? then Done(tree) else Failed(tree, failedAt.value)
    {
      for i := 0 to |directories|
        invariant Valid()
        invariant Scaffold(old(tree), directories[..i]) == Done(tree)
      {
        var directory := directories[i];
        assert directory in directories;
        assert directories[..i + 1][..i] == directories[..i];
        assert Scaffold(old(tree), directories[..i + 1]) == CreateDirectory(tree, directory);
        ghost var before := tree;
        CreateDirectoryFacts(tree, directory);
        if Blocked(tree, directory) {
          FailureIsFinal(old(tree), directories, i + 1);
          return Some(directory);
        }
        tree := MakeDirs(tree, directory);
        if IsPackageDir(directory) {
          var initFile := directory + [InitFile];
          if initFile !in tree {
            tree := tree[initFile := File("", true)];
          }
        }
        assert CreateDirectory(before, directory) == Done(tree);
      }
      assert directories[..|directories|] == directories;
      return None;
    }

    /** The configuration-file part of `setup_pre_commit`: never overwrites; `configText` is the text the hook writes. */
    method SetupPreCommit(c: Config, configText: string)
      requires Valid()
      modifies this
      ensures Valid()
      ensures tree == WritePreCommitConfig(old(tree), c, configText)
    {
      if c.usePreCommit == "y" {
        if PreCommitConfigPath !in tree {
          tree := tree[PreCommitConfigPath := File(configText, true)];
        }
      }
    }

    /** The hook's main block, up to the external commands. */
    method RunHook(c: Config, configText: string) returns (failedAt: Option<Path>)
      requires Valid()
      modifies this
      ensures Valid()
      ensures PostGenOutcome(old(tree), c, configText) ==
        if failedAt.None? then Done(tree) else Failed(tree, failedAt.value)
    {
      CleanUnusedFiles(c);
      failedAt := CreateAdditionalDirectories(c);
      if failedAt.None? {
        SetupPreCommit(c, configText);
      }
    }
  }

  // ----- properties of the whole hook -----

  /** The pre-commit step never changes an existing entry, and the configuration exists afterwards when pre-commit is wanted. */
  lemma PreCommitNeverOverwrites(t: Tree, c: Config, configText: string)
    requires Wf(t)
    ensures var r := WritePreCommitConfig(t, c, configText);
      && Wf(r)
      && (forall q | q in t :: q in r && r[q] == t[q])
      && (forall q | q in r && q !in t :: q == PreCommitConfigPath && r[q] == File(configText, true))
      && (c.usePreCommit == "y" ==> PreCommitConfigPath in r)
      && (c.usePreCommit != "y" ==> r == t)
  {
  }

  /** The steps after cleaning keep every entry, keep the tree well-formed, and complete exactly when nothing blocks. */
  lemma FinishFacts(cleaned: Tree, ds: seq<Path>, c: Config, configText: string)
    requires Wf(cleaned) && NonEmptyPaths(ds) && InitsOutOfTheWay(ds)
    ensures var s := Scaffold(cleaned, ds); var f := Finish(cleaned, ds, c, configText);
      && f.Done? == s.Done?
      && (f.Done? <==> forall d | d in ds :: !Blocked(cleaned, d))
      && Wf(f.tree)
      && (forall q | q in cleaned :: q in f.tree && f.tree[q] == cleaned[q])
      && (forall q | q in s.tree :: q in f.tree && f.tree[q] == s.tree[q])
      && (forall q | q in f.tree && q !in s.tree :: q == PreCommitConfigPath)
      && (f.Done? ==> forall d | d in ds ::
            d in f.tree && f.tree[d].Dir? && (IsPackageDir(d) ==> d + [InitFile] in f.tree))
  {
    var s := Scaffold(cleaned, ds);
    ScaffoldOutcome(cleaned, ds);
    ScaffoldKeeps(cleaned, ds);
    PreCommitNeverOverwrites(s.tree, c, configText);
  }

  /** The hook completes exactly when no listed directory is blocked by a file that survived cleaning. */
  lemma PostGenCompletes(t: Tree, c: Config, configText: string)
    requires Wf(t)
    ensures PostGenOutcome(t, c, configText).Done? <==>
      forall d | d in Directories(c) :: !Blocked(Cleanse(t, c), d)
  {
    assert Wf(Cleanse(t, c)) by {
      CleanseKeeps(t, c);
    }
    DirectoriesWellFormed(c);
    FinishFacts(Cleanse(t, c), Directories(c), c, configText);
  }

  /**
   * Whatever the outcome, the project stays well-formed and every entry
   * that survived cleaning is still there with its original content (an
   * existing `__init__.py` is never truncated).
   */
  lemma PostGenKeeps(t: Tree, c: Config, configText: string)
    requires Wf(t)
    ensures var r := PostGenOutcome(t, c, configText).tree;
      && Wf(r)
      && forall q | q in Cleanse(t, c) :: q in t && q in r && r[q] == t[q]
  {
    var cleaned := Cleanse(t, c);
    var f := Finish(cleaned, Directories(c), c, configText);
    assert Wf(cleaned) && forall q | q in cleaned :: q in t && cleaned[q] == t[q] by {
      CleanseKeeps(t, c);
    }
    assert Wf(f.tree) && forall q | q in cleaned :: q in f.tree && f.tree[q] == cleaned[q] by {
      DirectoriesWellFormed(c);
      FinishFacts(cleaned, Directories(c), c, configText);
    }
  }

  /** When the hook completes, every listed directory exists, with an `__init__.py` in each package directory. */
  lemma PostGenCreates(t: Tree, c: Config, configText: string)
    requires Wf(t) && PostGenOutcome(t, c, configText).Done?
    ensures var r := PostGenOutcome(t, c, configText).tree;
      forall d | d in Directories(c) :: d in r && r[d].Dir? && (IsPackageDir(d) ==> d + [InitFile] in r)
  {
    assert Wf(Cleanse(t, c)) by {
      CleanseKeeps(t, c);
    }
    DirectoriesWellFormed(c);
    FinishFacts(Cleanse(t, c), Directories(c), c, configText);
  }

  /** No protected name occurs in `__init__.py`: each holds a letter that `__init__.py` lacks. */
  lemma InitFileNotPreserved(projectType: string, d: Path)
    ensures !Preserved(projectType, d + [InitFile])
  {
    forall name | name in PreserveNames ensures !IsSubstring(name, InitFile) {
      var k := if name[0] == 't' then 1 else if name[0] == 'i' then 2 else 0;
      MissingCharNotSubstring(name, InitFile, k);
    }
  }

  /**
   * Why the sweep runs before scaffolding: an `__init__.py` the hook
   * touches is empty and unprotected, so it survives the hook, but the
   * sweep would delete it had it run afterwards.
   */
  lemma FreshInitFilesOutliveSweep(t: Tree, c: Config, configText: string, d: Path)
    requires Wf(t) && PostGenOutcome(t, c, configText).Done?
    requires d in Directories(c) && IsPackageDir(d) && d + [InitFile] !in Cleanse(t, c)
    ensures var r := PostGenOutcome(t, c, configText).tree;
      && d + [InitFile] in r
      && r[d + [InitFile]] == File("", true)
      && d + [InitFile] !in Sweep(r, c.projectType)
  {
    assert Wf(Cleanse(t, c)) by {
      CleanseKeeps(t, c);
    }
    DirectoriesWellFormed(c);
    FreshInitSurvives(Cleanse(t, c), Directories(c), c, configText, d);
  }

  /** `FreshInitFilesOutliveSweep` for any cleaned tree and directory list. */
  lemma FreshInitSurvives(cleaned: Tree, ds: seq<Path>, c: Config, configText: string, d: Path)
    requires Wf(cleaned) && NonEmptyPaths(ds) && InitsOutOfTheWay(ds)
    requires Finish(cleaned, ds, c, configText).Done?
    requires d in ds && IsPackageDir(d) && d + [InitFile] !in cleaned
    ensures var r := Finish(cleaned, ds, c, configText).tree;
      && d + [InitFile] in r
      && r[d + [InitFile]] == File("", true)
      && d + [InitFile] !in Sweep(r, c.projectType)
  {
    FinishFacts(cleaned, ds, c, configText);
    FreshInitIsEmpty(cleaned, ds, d);
    var init := d + [InitFile];
    assert init != PreCommitConfigPath;
    InitFileNotPreserved(c.projectType, d);
    assert Strip("") == "";
  }
}
