/**
 * `clean_unused_files` and `clean_empty_files` of the post-generation
 * hook, as functions on the file tree. The class in PostGen runs them as
 * loops over the real state; these functions are what those loops are
 * proved to compute.
 */
module Cleanup {
  import opened Cookiecutter
  import opened Text
  import opened FileTree
  import PreGen

  /** A removal rule: delete `target` when `condition` holds. */
  datatype Rule = Rule(condition: bool, target: Path)

  /** The rule list of `clean_unused_files`, in its order, with the values it derives from the project type. */
  function Rules(c: Config): seq<Rule>
  {
    var slug := c.projectSlug;
    var webFramework := DerivedWebFramework(c.projectType);
    var useStructlog := DerivedUseStructlog(c.projectType);
    [
      Rule(c.useGithubActions != "y", [".github"]),
      Rule(c.useDocker != "y", ["docker"]),
      Rule(c.useDocker != "y", [".dockerignore"]),
      Rule(c.createAuthorFile != "y", ["AUTHORS.md"]),
      Rule(c.projectType == "web", ["src", slug, "cli.py"]),
      Rule(webFramework != "fastapi", ["src", slug, "main.py"]),
      Rule(webFramework != "fastapi", ["src", slug, "api"]),
      Rule(webFramework != "fastapi", ["src", slug, "models"]),
      Rule(webFramework != "fastapi", ["src", slug, "services"]),
      Rule(webFramework != "fastapi", ["tests", "test_health.py"]),
      Rule(webFramework != "fastapi", ["tests", "test_main.py"]),
      Rule(webFramework != "fastapi", ["tests", "test_items.py"]),
      Rule(c.projectType == "cli", ["src", slug, "core"]),
      Rule(useStructlog != "y", ["src", slug, "core", "logging.py"]),
      Rule(true, [slug])
    ]
  }

  /** One step of the rule loop: a true rule whose target exists removes it. */
  function ApplyRule(t: Tree, r: Rule): Tree
  {
    if r.condition && r.target in t then Remove(t, r.target) else t
  }

  /** The rule loop over `rs`, first rule first. */
  function ApplyRules(t: Tree, rs: seq<Rule>): Tree
    decreases |rs|
  {
    if rs == [] then t else ApplyRule(ApplyRules(t, rs[..|rs| - 1]), rs[|rs| - 1])
  }

  /** Some rule of `rs` holds and targets `q` or an ancestor of `q`. */
  predicate Targeted(rs: seq<Rule>, q: Path)
  {
    exists r | r in rs :: r.condition && Below(q, r.target)
  }

  predicate NonEmptyTargets(rs: seq<Rule>)
  {
    forall r | r in rs :: r.target != []
  }

  /**
   * On a well-formed tree the rule loop keeps exactly the entries that no
   * true rule targets (directly or through an ancestor), each unchanged:
   * the order of the rules does not matter, and a rule whose target an
   * earlier directory rule already removed does nothing.
   */
  lemma {:induction false} ApplyRulesKeeps(t: Tree, rs: seq<Rule>)
    requires Wf(t) && NonEmptyTargets(rs)
    ensures Wf(ApplyRules(t, rs))
    ensures forall q :: q in ApplyRules(t, rs) <==> q in t && !Targeted(rs, q)
    ensures forall q | q in ApplyRules(t, rs) :: ApplyRules(t, rs)[q] == t[q]
  {
    if rs != [] {
      var front, last := rs[..|rs| - 1], rs[|rs| - 1];
      assert rs == front + [last];
      ApplyRulesKeeps(t, front);
      var mid := ApplyRules(t, front);
      if last.condition {
        RemoveSubtree(mid, last.target);
        assert ApplyRule(mid, last) == Remove(mid, last.target);
      }
      forall q ensures Targeted(rs, q) <==> Targeted(front, q) || (last.condition && Below(q, last.target)) {
        if Targeted(rs, q) {
          var r :| r in rs && r.condition && Below(q, r.target);
          assert r in front || r == last;
        }
      }
    }
  }

  /** Two rule lists that hold for the same targets remove the same entries. */
  lemma RuleOrderIrrelevant(t: Tree, rs: seq<Rule>, rs': seq<Rule>)
    requires Wf(t) && NonEmptyTargets(rs) && NonEmptyTargets(rs')
    requires forall r | r in rs :: r.condition ==> r in rs'
    requires forall r | r in rs' :: r.condition ==> r in rs
    ensures ApplyRules(t, rs) == ApplyRules(t, rs')
  {
    ApplyRulesKeeps(t, rs);
    ApplyRulesKeeps(t, rs');
    forall q ensures Targeted(rs, q) == Targeted(rs', q) {
      if Targeted(rs, q) {
        var r :| r in rs && r.condition && Below(q, r.target);
        assert r in rs';
      }
      if Targeted(rs', q) {
        var r :| r in rs' && r.condition && Below(q, r.target);
        assert r in rs;
      }
    }
  }

  // ----- the empty-file sweep -----

  /** The names `clean_empty_files` protects in web projects. */
  const PreserveNames: set<string> := {
    "main.py", "health.py", "router.py", "config.py", "logging.py", "item.py",
    "items.py", "item_service.py", "test_health.py", "test_main.py", "test_items.py"
  }

  /** Some protected name occurs anywhere inside the base name (a substring test, not equality). */
  predicate HasPreservedName(baseName: string)
  {
    exists name | name in PreserveNames :: IsSubstring(name, baseName)
  }

  /** The sweep skips the file: a non-cli project (web framework "fastapi") and a protected name in the base name. */
  predicate Preserved(projectType: string, p: Path)
  {
    p != [] && DerivedWebFramework(projectType) == "fastapi" && HasPreservedName(p[|p| - 1])
  }

  /** Stripped text that is empty, or starts with `{%` and ends with `-%}` (a left-over template tag). */
  predicate IsVestigial(content: string)
  {
    var s := Strip(content);
    s == [] || (StartsWith(s, "{%") && EndsWith(s, "-%}"))
  }

  /** `clean_empty_files` deletes the entry `p` holding node `n`. */
  predicate SweepDeletes(projectType: string, p: Path, n: Node)
  {
    n.File? && !Preserved(projectType, p) && n.decodable && IsVestigial(n.content)
  }

  /** The tree after `clean_empty_files`. */
  function Sweep(t: Tree, projectType: string): Tree
  {
    map p | p in t && !SweepDeletes(projectType, p, t[p]) :: t[p]
  }

  /** The sweep deletes only files, so a well-formed tree stays well-formed. */
  lemma SweepWf(t: Tree, projectType: string)
    requires Wf(t)
    ensures Wf(Sweep(t, projectType))
  {
  }

  /** Sweeping a swept tree deletes nothing more. */
  lemma SweepIdempotent(t: Tree, projectType: string)
    ensures Sweep(Sweep(t, projectType), projectType) == Sweep(t, projectType)
  {
  }

  /** A readable, unprotected file that holds only white space is deleted. */
  lemma BlankFileDeleted(projectType: string, p: Path, content: string)
    requires AllSpace(content) && !Preserved(projectType, p)
    ensures SweepDeletes(projectType, p, File(content, true))
  {
    StripEmptyIffBlank(content);
  }

  /** A file is kept when its stripped text is not empty and does not start with `{%`. */
  lemma ContentfulFileKept(projectType: string, p: Path, content: string, decodable: bool)
    requires !AllSpace(content) && !StartsWith(Strip(content), "{%")
    ensures !SweepDeletes(projectType, p, File(content, decodable))
  {
    StripEmptyIffBlank(content);
  }

  /** A file that cannot be decoded or read is never deleted, whatever it holds. */
  lemma UndecodableKept(projectType: string, p: Path, content: string)
    ensures !SweepDeletes(projectType, p, File(content, false))
  {
  }

  /** Protection by name never applies to cli projects. */
  lemma NoPreservationForCli(p: Path)
    ensures !Preserved("cli", p)
  {
  }

  /** The name test is a substring test: `domain.py` contains `main.py`, so it is protected in a web project. */
  lemma PreservedBySubstring()
    ensures Preserved("web", ["src", "app", "domain.py"])
    ensures Preserved("web", ["tests", "test_items.py"])
  {
    assert OccursAt("main.py", "domain.py", 2);
    assert OccursAt("test_items.py", "test_items.py", 0);
  }

  /** A file is vestigial exactly when it is blank or its stripped text is a `{% … -%}` tag. */
  lemma VestigialIff(content: string)
    ensures IsVestigial(content)
        <==> AllSpace(content) || (StartsWith(Strip(content), "{%") && EndsWith(Strip(content), "-%}"))
  {
    StripEmptyIffBlank(content);
  }

  /** Whitespace alone, or nothing at all, is deleted. */
  lemma BlankIsVestigial(content: string)
    requires AllSpace(content)
    ensures IsVestigial(content)
  {
    StripEmptyIffBlank(content);
  }

  /**
   * Text `t` that begins and ends with a non-space character, padded with
   * whitespace on both sides, is vestigial exactly when `t` is a tag.
   */
  lemma PaddedVestigialIff(a: string, t: string, b: string)
    requires AllSpace(a) && AllSpace(b)
    requires t != [] && !IsSpace(t[0]) && !IsSpace(t[|t| - 1])
    ensures IsVestigial(a + t + b) <==> StartsWith(t, "{%") && EndsWith(t, "-%}")
  {
    StripPadded(a, t, b);
  }

  /** A file left holding only a `{% … -%}` tag, with any whitespace around it, is deleted. */
  lemma PaddedTagIsVestigial(a: string, t: string, b: string)
    requires AllSpace(a) && AllSpace(b)
    requires StartsWith(t, "{%") && EndsWith(t, "-%}")
    ensures IsVestigial(a + t + b)
  {
    assert t[0] == '{';
    assert t[|t| - 1] == '}';
    StripPadded(a, t, b);
  }

  /** Text padded with whitespace whose core does not end with `-%}` (an opening tag, code) is kept. */
  lemma UnclosedTagNotVestigial(a: string, t: string, b: string)
    requires AllSpace(a) && AllSpace(b)
    requires t != [] && !IsSpace(t[0]) && !IsSpace(t[|t| - 1])
    requires !EndsWith(t, "-%}")
    ensures !IsVestigial(a + t + b)
  {
    StripPadded(a, t, b);
  }

  // ----- clean_unused_files -----

  /** `clean_unused_files`: the rule loop, then the sweep. */
  function Cleanse(t: Tree, c: Config): Tree
  {
    Sweep(ApplyRules(t, Rules(c)), c.projectType)
  }

  lemma RulesHaveTargets(c: Config)
    ensures NonEmptyTargets(Rules(c))
  {
  }

  /**
   * What `clean_unused_files` leaves: exactly the entries of the tree that
   * no true rule targets and that the sweep does not delete, each with
   * its original content; the result is well-formed.
   */
  lemma CleanseKeeps(t: Tree, c: Config)
    requires Wf(t)
    ensures Wf(Cleanse(t, c))
    ensures forall q :: q in Cleanse(t, c) <==>
      q in t && !Targeted(Rules(c), q) && !SweepDeletes(c.projectType, q, t[q])
    ensures forall q | q in Cleanse(t, c) :: Cleanse(t, c)[q] == t[q]
  {
    RulesHaveTargets(c);
    ApplyRulesKeeps(t, Rules(c));
    SweepWf(ApplyRules(t, Rules(c)), c.projectType);
  }

  /** Running `clean_unused_files` again on its own output deletes nothing more. */
  lemma CleanseIdempotent(t: Tree, c: Config)
    requires Wf(t)
    ensures Cleanse(Cleanse(t, c), c) == Cleanse(t, c)
  {
    RulesHaveTargets(c);
    RulesThenSweepIdempotent(t, Rules(c), c.projectType);
  }

  /** The rule loop followed by the sweep, for any rule list: a second run deletes nothing more. */
  lemma RulesThenSweepIdempotent(t: Tree, rs: seq<Rule>, projectType: string)
    requires Wf(t) && NonEmptyTargets(rs)
    ensures var once := Sweep(ApplyRules(t, rs), projectType);
      Sweep(ApplyRules(once, rs), projectType) == once
  {
    var applied := ApplyRules(t, rs);
    var once := Sweep(applied, projectType);
    ApplyRulesKeeps(t, rs);
    SweepWf(applied, projectType);
    ApplyRulesKeeps(once, rs);
    // every entry left is one no true rule targets, so the second rule loop removes nothing
    assert ApplyRules(once, rs) == once;
    SweepIdempotent(applied, projectType);
  }

  // ----- which rules hold for which configuration -----

  /** The FastAPI paths `clean_unused_files` removes when the derived web framework is not "fastapi". */
  function FastApiPaths(slug: string): seq<Path>
  {
    [
      ["src", slug, "main.py"], ["src", slug, "api"], ["src", slug, "models"], ["src", slug, "services"],
      ["tests", "test_health.py"], ["tests", "test_main.py"], ["tests", "test_items.py"]
    ]
  }

  /**
   * The rule list spelled out component by component: `q` is targeted
   * exactly when one of these holds. (The logging rule adds nothing: its
   * target lies inside `core`, whose rule holds for the same projects;
   * see `LoggingRuleAddsNothing`.)
   */
  predicate TargetedExplicit(c: Config, q: Path)
  {
    var slug := c.projectSlug;
    || (c.useGithubActions != "y" && |q| >= 1 && q[0] == ".github")
    || (c.useDocker != "y" && |q| >= 1 && (q[0] == "docker" || q[0] == ".dockerignore"))
    || (c.createAuthorFile != "y" && |q| >= 1 && q[0] == "AUTHORS.md")
    || (c.projectType == "web" && |q| >= 3 && q[0] == "src" && q[1] == slug && q[2] == "cli.py")
    || (c.projectType == "cli" && |q| >= 3 && q[0] == "src" && q[1] == slug &&
        (q[2] == "main.py" || q[2] == "api" || q[2] == "models" || q[2] == "services" || q[2] == "core"))
    || (c.projectType == "cli" && |q| >= 2 && q[0] == "tests" &&
        (q[1] == "test_health.py" || q[1] == "test_main.py" || q[1] == "test_items.py"))
    || (|q| >= 1 && q[0] == slug)
  }

  lemma RuleHitExplicit(c: Config, q: Path, i: int)
    requires 0 <= i < |Rules(c)| && Rules(c)[i].condition && Below(q, Rules(c)[i].target)
    ensures TargetedExplicit(c, q)
  {
    var t := Rules(c)[i].target;
    assert q[0] == t[0];
    if i == 0 || i == 1 || i == 2 || i == 3 || i == 14 {
    } else if i == 9 || i == 10 || i == 11 {
      assert q[1] == t[1];
    } else {
      assert q[1] == t[1] && q[2] == t[2];
    }
  }

  lemma ExplicitHasRule(c: Config, q: Path) returns (i: int)
    requires TargetedExplicit(c, q)
    ensures 0 <= i < |Rules(c)| && Rules(c)[i].condition && Below(q, Rules(c)[i].target)
  {
    var slug := c.projectSlug;
    if c.useGithubActions != "y" && |q| >= 1 && q[0] == ".github" {
      i := 0;
    } else if c.useDocker != "y" && |q| >= 1 && q[0] == "docker" {
      i := 1;
    } else if c.useDocker != "y" && |q| >= 1 && q[0] == ".dockerignore" {
      i := 2;
    } else if c.createAuthorFile != "y" && |q| >= 1 && q[0] == "AUTHORS.md" {
      i := 3;
    } else if c.projectType == "web" && |q| >= 3 && q[0] == "src" && q[1] == slug && q[2] == "cli.py" {
      i := 4;
    } else if |q| >= 1 && q[0] == slug {
      i := 14;
    } else if |q| >= 3 && q[0] == "src" && q[1] == slug {
      i := if q[2] == "main.py" then 5 else if q[2] == "api" then 6 else if q[2] == "models" then 7
        else if q[2] == "services" then 8 else 12;
    } else {
      i := if q[1] == "test_health.py" then 9 else if q[1] == "test_main.py" then 10 else 11;
    }
  }

  lemma RulesTargetedExplicit(c: Config, q: Path)
    ensures Targeted(Rules(c), q) <==> TargetedExplicit(c, q)
  {
    var rs := Rules(c);
    if Targeted(rs, q) {
      var r :| r in rs && r.condition && Below(q, r.target);
      var i :| 0 <= i < |rs| && rs[i] == r;
      RuleHitExplicit(c, q, i);
    }
    if TargetedExplicit(c, q) {
      var i := ExplicitHasRule(c, q);
      assert rs[i] in rs;
    }
  }

  /** A slug the validator accepts has no '.' in it. */
  lemma AcceptedSlugHasNoDot(slug: string)
    requires PreGen.ValidateProjectSlug(slug).None?
    ensures forall i | 0 <= i < |slug| :: slug[i] != '.'
  {
    PreGen.IdentifierAnchored(slug);
    var body := PreGen.Chomp(slug);
    forall i | 0 <= i < |slug| ensures slug[i] != '.' {
      if i < |body| {
        assert slug[i] == body[i];
      }
    }
  }

  /**
   * The toggle rules. Everything under `.github` is targeted exactly when
   * GitHub Actions are off, for a slug the validator accepts (a slug holds
   * no '.', so it is never ".github").
   */
  lemma GithubToggle(c: Config, q: Path)
    requires PreGen.ValidateProjectSlug(c.projectSlug).None? && Below(q, [".github"])
    ensures Targeted(Rules(c), q) <==> c.useGithubActions != "y"
  {
    AcceptedSlugHasNoDot(c.projectSlug);
    RulesTargetedExplicit(c, q);
    assert ".github"[0] == '.';
  }

  /**
   * Everything under `docker` is targeted when Docker is off, and also
   * when the slug itself is "docker", because of the rule that removes
   * the top-level directory named like the slug.
   */
  lemma DockerToggle(c: Config, q: Path)
    requires Below(q, ["docker"])
    ensures Targeted(Rules(c), q) <==> c.useDocker != "y" || c.projectSlug == "docker"
  {
    RulesTargetedExplicit(c, q);
  }

  /** `.dockerignore` is targeted exactly when Docker is off, for a slug the validator accepts. */
  lemma DockerignoreToggle(c: Config, q: Path)
    requires PreGen.ValidateProjectSlug(c.projectSlug).None? && Below(q, [".dockerignore"])
    ensures Targeted(Rules(c), q) <==> c.useDocker != "y"
  {
    AcceptedSlugHasNoDot(c.projectSlug);
    RulesTargetedExplicit(c, q);
    assert ".dockerignore"[0] == '.';
  }

  /** `AUTHORS.md` is targeted exactly when no author file is wanted, for a slug the validator accepts. */
  lemma AuthorsToggle(c: Config, q: Path)
    requires PreGen.ValidateProjectSlug(c.projectSlug).None? && Below(q, ["AUTHORS.md"])
    ensures Targeted(Rules(c), q) <==> c.createAuthorFile != "y"
  {
    AcceptedSlugHasNoDot(c.projectSlug);
    RulesTargetedExplicit(c, q);
    assert "AUTHORS.md"[7] == '.';
  }

  /** The top-level directory named like the slug is targeted under every configuration. */
  lemma SlugDirectoryAlwaysTargeted(c: Config, q: Path)
    requires Below(q, [c.projectSlug])
    ensures Targeted(Rules(c), q)
  {
    assert Rules(c)[14] in Rules(c);
  }

  /** A cli project (derived web framework "none"): every FastAPI path is targeted. */
  lemma CliDropsFastApi(c: Config, p: Path, q: Path)
    requires c.projectType == "cli" && p in FastApiPaths(c.projectSlug) && Below(q, p)
    ensures DerivedWebFramework(c.projectType) == "none"
    ensures Targeted(Rules(c), q)
  {
    RulesTargetedExplicit(c, q);
    assert q[0] == p[0] && q[1] == p[1];
    assert |p| == 3 ==> q[2] == p[2];
  }

  /** A cli project: the `core` package is targeted. */
  lemma CliDropsCore(c: Config, q: Path)
    requires c.projectType == "cli" && Below(q, ["src", c.projectSlug, "core"])
    ensures Targeted(Rules(c), q)
  {
    RulesTargetedExplicit(c, q);
    assert q[0] == "src" && q[1] == c.projectSlug && q[2] == "core";
  }

  /** A cli project keeps `cli.py`, unless the slug is "src", whose top-level directory rule takes the whole `src` tree. */
  lemma CliKeepsCliModule(c: Config)
    requires c.projectType == "cli" && c.projectSlug != "src"
    ensures !Targeted(Rules(c), ["src", c.projectSlug, "cli.py"])
  {
    RulesTargetedExplicit(c, ["src", c.projectSlug, "cli.py"]);
  }

  /** A web project: `cli.py` is targeted. */
  lemma WebDropsCli(c: Config)
    requires c.projectType == "web"
    ensures DerivedWebFramework(c.projectType) == "fastapi"
    ensures Targeted(Rules(c), ["src", c.projectSlug, "cli.py"])
  {
    RulesTargetedExplicit(c, ["src", c.projectSlug, "cli.py"]);
  }

  /**
   * A web project keeps everything in its package except `cli.py`: the
   * FastAPI modules, `core` and the logging module in it. This needs a
   * slug other than "src", whose top-level directory rule would take the
   * whole `src` tree.
   */
  lemma WebKeepsPackage(c: Config, name: string, q: Path)
    requires c.projectType == "web" && c.projectSlug != "src" && name != "cli.py"
    requires Below(q, ["src", c.projectSlug, name])
    ensures !Targeted(Rules(c), q)
  {
    RulesTargetedExplicit(c, q);
    assert q[0] == "src" && q[1] == c.projectSlug && q[2] == name;
  }

  /** A web project keeps all of `tests`, the FastAPI tests included, unless the slug is "tests". */
  lemma WebKeepsTests(c: Config, q: Path)
    requires c.projectType == "web" && c.projectSlug != "tests"
    requires Below(q, ["tests"])
    ensures !Targeted(Rules(c), q)
  {
    RulesTargetedExplicit(c, q);
    assert q[0] == "tests";
  }

  /**
   * In a cli project the `core` rule comes before the logging rule, so by
   * the time the logging rule runs its target is already gone and the rule
   * changes nothing.
   */
  lemma LoggingRuleAfterCoreIsNoOp(t: Tree, c: Config)
    requires Wf(t) && c.projectType == "cli"
    ensures Rules(c)[13].target !in ApplyRules(t, Rules(c)[..13])
    ensures ApplyRule(ApplyRules(t, Rules(c)[..13]), Rules(c)[13]) == ApplyRules(t, Rules(c)[..13])
  {
    var front := Rules(c)[..13];
    RulesHaveTargets(c);
    ApplyRulesKeeps(t, front);
    assert front[12] in front;
    assert Targeted(front, Rules(c)[13].target);
  }

  /**
   * A rule whose target lies inside another rule's target, and which holds
   * only when that other rule holds, targets nothing the list without it
   * does not already target.
   */
  lemma NestedRuleRedundant(rs: seq<Rule>, i: int, j: int, q: Path)
    requires 0 <= i < |rs| && 0 <= j < |rs| && i != j
    requires rs[i].condition ==> rs[j].condition
    requires Below(rs[i].target, rs[j].target)
    ensures Targeted(rs, q) <==> Targeted(rs[..i] + rs[i + 1..], q)
  {
    var rest := rs[..i] + rs[i + 1..];
    assert forall k | 0 <= k < i :: rest[k] == rs[k];
    assert forall k | i < k < |rs| :: rest[k - 1] == rs[k];
    if Targeted(rs, q) {
      var r :| r in rs && r.condition && Below(q, r.target);
      var k :| 0 <= k < |rs| && rs[k] == r;
      if k == i {
        assert Below(q, rs[j].target);
        if j < i {
          assert rest[j] in rest;
        } else {
          assert rest[j - 1] in rest;
        }
      } else if k < i {
        assert rest[k] in rest;
      } else {
        assert rest[k - 1] in rest;
      }
    }
    if Targeted(rest, q) {
      var r :| r in rest && r.condition && Below(q, r.target);
      assert r in rs;
    }
  }

  /**
   * The logging rule adds nothing to the rule list: its target lies inside
   * `core`, and it holds (structured logging off) exactly for cli
   * projects, for which the `core` rule holds too.
   */
  lemma LoggingRuleAddsNothing(c: Config, q: Path)
    ensures Targeted(Rules(c), q) <==> Targeted(Rules(c)[..13] + Rules(c)[14..], q)
  {
    StructlogFollowsFramework(c.projectType);
    NestedRuleRedundant(Rules(c), 13, 12, q);
  }

  /**
   * After `clean_unused_files`, nothing of a disabled feature is left: no
   * `.github` without GitHub Actions, no Docker files without Docker, no
   * `AUTHORS.md` without an author file, no FastAPI file in a cli project
   * and no `cli.py` in a web project.
   */
  lemma DisabledFeaturesAbsent(t: Tree, c: Config, q: Path)
    requires Wf(t) && q in Cleanse(t, c)
    ensures c.useGithubActions != "y" ==> !Below(q, [".github"])
    ensures c.useDocker != "y" ==> !Below(q, ["docker"]) && !Below(q, [".dockerignore"])
    ensures c.createAuthorFile != "y" ==> !Below(q, ["AUTHORS.md"])
    ensures c.projectType == "cli" ==> forall p | p in FastApiPaths(c.projectSlug) :: !Below(q, p)
    ensures c.projectType == "web" ==> !Below(q, ["src", c.projectSlug, "cli.py"])
    ensures !Below(q, [c.projectSlug])
  {
    SurvivorUntargeted(t, c, q);
    UntargetedLacksDisabled(c, q);
  }

  /** An entry left by `clean_unused_files` is one no true rule targets. */
  lemma SurvivorUntargeted(t: Tree, c: Config, q: Path)
    requires Wf(t) && q in Cleanse(t, c)
    ensures !Targeted(Rules(c), q)
  {
    CleanseKeeps(t, c);
  }

  /** A path no true rule of the configuration targets lies below none of the disabled features. */
  lemma UntargetedLacksDisabled(c: Config, q: Path)
    requires !Targeted(Rules(c), q)
    ensures c.useGithubActions != "y" ==> !Below(q, [".github"])
    ensures c.useDocker != "y" ==> !Below(q, ["docker"]) && !Below(q, [".dockerignore"])
    ensures c.createAuthorFile != "y" ==> !Below(q, ["AUTHORS.md"])
    ensures c.projectType == "cli" ==> forall p | p in FastApiPaths(c.projectSlug) :: !Below(q, p)
    ensures c.projectType == "web" ==> !Below(q, ["src", c.projectSlug, "cli.py"])
    ensures !Below(q, [c.projectSlug])
  {
    RulesTargetedExplicit(c, q);
    if c.projectType == "cli" {
      forall p | p in FastApiPaths(c.projectSlug) ensures !Below(q, p) {
        BelowFastApiPath(c.projectSlug, p, q);
      }
    }
  }

  /** Lying below a FastAPI path, spelled out component by component. */
  lemma BelowFastApiPath(slug: string, p: Path, q: Path)
    requires p in FastApiPaths(slug)
    ensures Below(q, p) ==>
      || (|q| >= 3 && q[0] == "src" && q[1] == slug &&
          (q[2] == "main.py" || q[2] == "api" || q[2] == "models" || q[2] == "services"))
      || (|q| >= 2 && q[0] == "tests" &&
          (q[1] == "test_health.py" || q[1] == "test_main.py" || q[1] == "test_items.py"))
  {
    if Below(q, p) {
      assert q[0] == p[0] && q[1] == p[1];
      assert |p| == 3 ==> q[2] == p[2];
    }
  }

  /** In a cli project `cli.py` survives the cleanup unless the sweep finds it empty. */
  lemma CliModuleKept(t: Tree, c: Config)
    requires Wf(t) && c.projectType == "cli" && c.projectSlug != "src"
    requires ["src", c.projectSlug, "cli.py"] in t
    ensures var q := ["src", c.projectSlug, "cli.py"];
      q in Cleanse(t, c) <==> !SweepDeletes(c.projectType, q, t[q])
  {
    CleanseKeeps(t, c);
    CliKeepsCliModule(c);
  }
}
