# Cookiecutter project template hooks, modelled in Dafny

The template ships two hook scripts that cookiecutter runs around project
generation. This project models both of them and proves properties about them.

- **`hooks/pre_gen_project.py`** validates the answers before anything is
  generated. It runs four checks in a fixed order: the project slug must be a
  Python identifier and not a keyword; the PyPI package name must match its
  pattern and have at most 214 characters; the Python version must be one of
  3.6 to 3.13; the e-mail address only draws a warning. The first failing
  check ends the hook with exit status 1. Here that is the `Err` result of
  `PreGen.Validate`.
- **`hooks/post_gen_project.py`** tidies the generated project, in the order of
  its main block:
  - `clean_unused_files` deletes the targets of those rules whose conditions
    hold. Each rule pairs a condition with a path. It then runs
    `clean_empty_files`, which sweeps away every readable, unprotected file whose
    stripped text is empty, or starts with `{%` and ends with `-%}`, whatever
    lies in between.
  - `create_additional_directories` then makes a directory list that depends
    on the configuration. It touches an `__init__.py` in every listed
    directory under `src/` and `tests/`.
  - Finally, `setup_pre_commit` writes `.pre-commit-config.yaml` when the
    `use_pre_commit` answer is "y" and the file is missing. It is never
    reached when `os.makedirs` raised during the previous step, because the
    hook does not catch that exception.

Every `{{ cookiecutter.x }}` placeholder has been substituted by the time a
hook runs, so the model reads it as a field of `Cookiecutter.Config`. The
`y`/`n` answers stay strings because the hooks compare them with `!= "y"`.

## Layout

| file | module | contents |
|---|---|---|
| `wrappers.dfy` | `Wrappers` | `Option`, `Result` |
| `cookiecutter.dfy` | `Cookiecutter` | the configuration record; the values the post hook derives from the project type |
| `text.dfy` | `Text` | Python's `str.strip()` (the full `str.isspace()` set), prefix, suffix and substring tests |
| `pre_gen.dfy` | `PreGen` | the validators as pure functions; each regular expression is written out as a predicate |
| `file_tree.dfy` | `FileTree` | the project directory; `remove_file_or_dir` |
| `cleanup.dfy` | `Cleanup` | the rule list, the rule loop and the sweep as functions, with their properties |
| `scaffolding.dfy` | `Scaffolding` | the directory list and the `makedirs`/`touch` loop as functions, with their properties |
| `post_gen.dfy` | `PostGen` | class `ProjectTree`, which holds the tree; its methods run the hook's loops and are proved to compute the functions above |

The project directory is a `map` from paths to entries:

- A path is a sequence of components.
- An entry is `File(content, decodable)` or `Dir`.
- `Wf` requires every proper ancestor of an entry to be a directory.
- `decodable` is false for a file whose read raises `UnicodeDecodeError` or
  `PermissionError`.

The model follows the code where it says more than its comments:

- The docstring of `clean_empty_files` (hooks/post_gen_project.py:22) and the
  comment at line 57 speak of files holding only whitespace or Jinja comments.
  The test at line 58 deletes any readable, unprotected file whose stripped
  text is empty, or starts with `{%` and ends with `-%}`, whatever lies in
  between. The model states that test.
- The preserve set protects a file only when the derived web framework is
  "fastapi", that is, for any project type other than "cli".
- A name in the preserve set protects a file when it occurs anywhere inside the
  file's base name.
- `clean_unused_files` re-derives the web framework from the project type.
  `create_additional_directories` reads the separate `_web_framework` variable.
  Both are modelled as written.

## Model

| member | source | states |
|---|---|---|
| Cookiecutter.StructlogFollowsFramework | hooks/post_gen_project.py:73-74 | the two values derived from the project type (`DerivedWebFramework`, `DerivedUseStructlog`) agree: structured logging is off exactly when the framework is not "fastapi", that is, exactly for "cli" |
| PreGen.SlugAccepted | hooks/pre_gen_project.py:9-29 | `ValidateProjectSlug`: a slug is accepted iff it is a non-empty identifier (a letter or `_`, then letters, digits and `_`) and not a keyword; a final newline is allowed, as `$` allows it |
| PreGen.KeywordsRejectedAfterPattern | hooks/pre_gen_project.py:24-29 | every keyword passes the identifier pattern and is then rejected as a keyword |
| PreGen.SlugRejectedExamples | hooks/pre_gen_project.py:11-22 | "123bad", "my-app" and "" fail the identifier pattern |
| PreGen.SlugKeywordExamples | hooks/pre_gen_project.py:24-29 | "class" and "None" are rejected as keywords |
| PreGen.SlugAcceptedExamples | hooks/pre_gen_project.py:11-24 | "my_app", "_" and "my_app" followed by a newline are accepted |
| PreGen.PackageAccepted | hooks/pre_gen_project.py:34-52 | `ValidatePypiPackageName`: a package name is accepted iff its first and last characters are alphanumeric, everything between is alphanumeric or one of `._-`, and its length (a final newline included) is at most 214 |
| PreGen.PackageLengthBound | hooks/pre_gen_project.py:47-52 | for a name that matches the pattern, the length test alone decides, and its only possible error is "too long" |
| PreGen.PackageLengthBoundary | hooks/pre_gen_project.py:34-52 | a run of n copies of any one ASCII letter or digit is accepted iff 1 <= n <= 214: empty is a pattern error, 215 or more is too long |
| PreGen.PackageExamples | hooks/pre_gen_project.py:34-45 | "a" and "my-app.core_2" are accepted; "", "-app", "app." and "my app" are pattern errors |
| PreGen.VersionAcceptedIffListed | hooks/pre_gen_project.py:57-65 | `ValidatePythonVersion`: a version is accepted iff it is one of 3.6 to 3.13, optionally followed by one newline |
| PreGen.VersionExamples | hooks/pre_gen_project.py:58-65 | 3.6, 3.10 and 3.13 are accepted; 3.5, 3.1, 3.14 and 4.0 are rejected |
| PreGen.EmailWithoutAtWarns | hooks/pre_gen_project.py:71-77 | `ValidateEmail`: an address without `@` always yields exactly the one warning |
| PreGen.EmailExamples | hooks/pre_gen_project.py:68-77 | "not-an-email" yields the warning; "jane.doe@example.com" yields none |
| PreGen.ValidateFailFast | hooks/pre_gen_project.py:80-88 | `Validate`, the main block: accepted iff slug, package name and version all pass; otherwise the result is `Err` of exactly the error the first failing check returns, in the order slug, package name, version |
| PreGen.EmailOnlyWarns | hooks/pre_gen_project.py:68-86 | the e-mail address changes neither acceptance nor the error; when accepted, the only possible warning is about the e-mail address |
| PreGen.InvalidSlugScenario | hooks/pre_gen_project.py:80-86 | slug "123bad" ends validation with that slug error, whatever the other answers |
| PreGen.MalformedEmailScenario | hooks/pre_gen_project.py:80-86 | valid answers with "not-an-email" are accepted with one warning |
| Text.StripSlice | hooks/post_gen_project.py:56 | `Strip`: `strip()` yields the slice between the leading and trailing whitespace; its first and last characters are not whitespace |
| Text.StripEmptyIffBlank | hooks/post_gen_project.py:56-58 | the stripped text is empty iff the text is all whitespace |
| Text.StripUntrimmed | hooks/post_gen_project.py:56 | a text with no whitespace at either end is its own stripped form |
| Text.MissingCharNotSubstring | hooks/post_gen_project.py:52 | a name holding a character the base name lacks does not occur in it |
| FileTree.RemoveSubtree | hooks/post_gen_project.py:11-18 | `Remove`, for `remove_file_or_dir`: after removing p, the entries are exactly those not at or below p, each unchanged, and the tree stays well-formed |
| FileTree.FileIsLeaf | hooks/post_gen_project.py:13-14 | nothing lies below a file, so removing a file removes that file only |
| FileTree.AbsentIsEmpty | hooks/post_gen_project.py:16-18 | nothing lies below an absent path |
| FileTree.RemoveAbsent | hooks/post_gen_project.py:11-18 | removing an absent path changes nothing |
| PostGen.ProjectTree.RemoveFileOrDir | hooks/post_gen_project.py:11-18 | the new tree is the old one without the entries at or below the path; everything else is unchanged |
| Cleanup.ApplyRulesKeeps | hooks/post_gen_project.py:101-103 | `ApplyRules`, the rule loop: the rule loop keeps exactly the entries that no true rule targets, directly or through an ancestor, each unchanged, and keeps the tree well-formed |
| Cleanup.RuleOrderIrrelevant | hooks/post_gen_project.py:101-103 | two rule lists with the same true rules remove the same entries, whatever their order |
| PostGen.ProjectTree.RemoveTargets | hooks/post_gen_project.py:101-103 | the loop computes the rule loop over the given list |
| Cleanup.RulesTargetedExplicit | hooks/post_gen_project.py:78-99 | `Rules`, the rule list: a path is targeted iff one of the component-wise conditions holds, spelled out per rule |
| Cleanup.AcceptedSlugHasNoDot | hooks/pre_gen_project.py:11-14 | a slug the validator accepts contains no '.' |
| Cleanup.GithubToggle | hooks/post_gen_project.py:79 | for an accepted slug, everything under `.github` is targeted iff GitHub Actions are off |
| Cleanup.DockerToggle | hooks/post_gen_project.py:80-98 | everything under `docker` is targeted iff Docker is off or the slug is "docker" |
| Cleanup.DockerignoreToggle | hooks/post_gen_project.py:81 | for an accepted slug, `.dockerignore` is targeted iff Docker is off |
| Cleanup.AuthorsToggle | hooks/post_gen_project.py:82 | for an accepted slug, `AUTHORS.md` is targeted iff no author file is wanted |
| Cleanup.SlugDirectoryAlwaysTargeted | hooks/post_gen_project.py:98 | the top-level directory named like the slug, and all below it, is targeted under every configuration |
| Cleanup.CliDropsFastApi | hooks/post_gen_project.py:73-92 | in a cli project the derived framework (`DerivedWebFramework`) is "none" and everything under each FastAPI path is targeted |
| Cleanup.CliDropsCore | hooks/post_gen_project.py:94 | in a cli project everything under `src/<slug>/core` is targeted |
| Cleanup.CliKeepsCliModule | hooks/post_gen_project.py:84 | in a cli project whose slug is not "src", `cli.py` is not targeted |
| Cleanup.WebDropsCli | hooks/post_gen_project.py:84 | in a web project the derived framework (`DerivedWebFramework`) is "fastapi" and `cli.py` is targeted |
| Cleanup.WebKeepsPackage | hooks/post_gen_project.py:84-96 | in a web project whose slug is not "src", nothing in the package outside `cli.py` is targeted |
| Cleanup.WebKeepsTests | hooks/post_gen_project.py:90-92 | in a web project whose slug is not "tests", nothing under `tests` is targeted |
| Cleanup.NestedRuleRedundant | hooks/post_gen_project.py:78-103 | a rule whose target lies inside another's, and which holds only when that one holds, can be dropped from the list without changing what is targeted |
| Cleanup.LoggingRuleAddsNothing | hooks/post_gen_project.py:74-96 | the rule list without the logging rule targets exactly the same paths, because that rule holds exactly for cli projects, as the `core` rule does, and its target lies inside `core` |
| Cleanup.LoggingRuleAfterCoreIsNoOp | hooks/post_gen_project.py:94-103 | in a cli project `core/logging.py` is already gone when its rule runs, so that rule changes nothing |
| Cleanup.BlankFileDeleted | hooks/post_gen_project.py:55-59 | an unprotected, readable file holding only whitespace is deleted |
| Cleanup.ContentfulFileKept | hooks/post_gen_project.py:55-59 | a file whose stripped text is non-empty and does not start with `{%` is kept, readable or not |
| Cleanup.UndecodableKept | hooks/post_gen_project.py:61-63 | a file that cannot be read or decoded is never deleted |
| Cleanup.NoPreservationForCli | hooks/post_gen_project.py:29-52 | in a cli project no file is protected |
| Cleanup.PreservedBySubstring | hooks/post_gen_project.py:52 | the name test is a substring test: in a web project `domain.py` is protected because it contains `main.py` |
| Cleanup.VestigialIff | hooks/post_gen_project.py:56-58 | a text counts as vestigial iff it is all whitespace or its stripped form starts with `{%` and ends with `-%}` |
| Cleanup.BlankIsVestigial | hooks/post_gen_project.py:56-58 | every empty or all-whitespace text counts as vestigial |
| Cleanup.PaddedVestigialIff | hooks/post_gen_project.py:56-58 | text `t` that starts and ends with a non-space character, with any whitespace around it, counts as vestigial iff `t` starts with `{%` and ends with `-%}` |
| Cleanup.PaddedTagIsVestigial | hooks/post_gen_project.py:56-58 | every text from `{%` to `-%}`, with anything between and any whitespace around it, counts as vestigial |
| Cleanup.UnclosedTagNotVestigial | hooks/post_gen_project.py:56-58 | every padded text whose non-blank part does not end with `-%}` (an opening tag, a line of code) is kept |
| Cleanup.SweepWf | hooks/post_gen_project.py:46-63 | `Sweep`, for `clean_empty_files`: the sweep deletes only files, so the tree stays well-formed |
| Cleanup.SweepIdempotent | hooks/post_gen_project.py:46-63 | sweeping a swept tree changes nothing |
| PostGen.ProjectTree.CleanEmptyFiles | hooks/post_gen_project.py:21-63 | visiting the files in any order, the loop leaves exactly the swept tree |
| Cleanup.CleanseKeeps | hooks/post_gen_project.py:66-106 | `Cleanse`, for `clean_unused_files`: `clean_unused_files` leaves exactly the entries no true rule targets and the sweep keeps, each with its content, in a well-formed tree |
| PostGen.ProjectTree.CleanUnusedFiles | hooks/post_gen_project.py:66-106 | the rule loop then the sweep; the surviving entries are characterised as in `CleanseKeeps` |
| Cleanup.CleanseIdempotent | hooks/post_gen_project.py:101-106 | a second `clean_unused_files` on its own output deletes nothing more |
| Cleanup.RulesThenSweepIdempotent | hooks/post_gen_project.py:101-106 | the same, for any rule list with non-empty targets |
| Cleanup.DisabledFeaturesAbsent | hooks/post_gen_project.py:78-106 | after cleaning, nothing is left of a disabled feature, of the FastAPI paths in a cli project, of `cli.py` in a web project, or of the slug-named top-level directory |
| Cleanup.SurvivorUntargeted | hooks/post_gen_project.py:101-106 | an entry left by cleaning is targeted by no true rule |
| Cleanup.UntargetedLacksDisabled | hooks/post_gen_project.py:78-99 | a path no true rule targets lies under no disabled feature's path |
| Cleanup.CliModuleKept | hooks/post_gen_project.py:84-106 | in a cli project whose slug is not "src", `cli.py` survives cleaning iff the sweep keeps it |
| Scaffolding.DirectoriesChoice | hooks/post_gen_project.py:181-201 | `Directories`, the directory list: the list holds the seven common directories, `src/<slug>/utils` iff the type is not "web", `src/<slug>/api/v1/endpoints` iff `_web_framework` is "fastapi", and nothing else |
| Scaffolding.DirectoriesWellFormed | hooks/post_gen_project.py:181-207 | no listed path is empty, and none lies at or below another's `__init__.py` |
| Scaffolding.CreateDirectoryFacts | hooks/post_gen_project.py:203-210 | one turn completes iff no file is at the directory or any ancestor; then the directory exists, with an `__init__.py` if it is a package directory; existing entries are unchanged; new ones are ancestor directories or, for a listed directory under src/ or tests/, its empty `__init__.py` |
| Scaffolding.ScaffoldKeeps | hooks/post_gen_project.py:203-210 | whatever the outcome, every existing entry keeps its node, so an existing `__init__.py` is never truncated; well-formedness is kept |
| Scaffolding.ScaffoldNewEntries | hooks/post_gen_project.py:203-210 | every new entry is a directory at or above a listed one, or the empty `__init__.py` of a listed directory under src/ or tests/ |
| Scaffolding.ScaffoldCreates | hooks/post_gen_project.py:203-210 | when the loop finishes, every listed directory exists, with an `__init__.py` in each one under `src/` or `tests/` |
| Scaffolding.FailureIsFinal | hooks/post_gen_project.py:203-204 | a `makedirs` that raises ends the loop: later directories are not attempted |
| Scaffolding.ScaffoldDoneIff | hooks/post_gen_project.py:203-210 | for a list like the hook's, the loop finishes iff no listed directory is blocked by a file of the original tree |
| Scaffolding.FreshInitIsEmpty | hooks/post_gen_project.py:207-210 | an `__init__.py` the loop created is the empty, readable file of `touch()` |
| Scaffolding.ScaffoldOutcome | hooks/post_gen_project.py:203-210 | `Scaffold`, the loop of `create_additional_directories`: the finish iff, the creation guarantee and the preservation guarantee together |
| Scaffolding.ScaffoldIdempotent | hooks/post_gen_project.py:203-210 | a second run on a finished result changes nothing (`exist_ok=True` and touch only when absent) |
| PostGen.ProjectTree.MakeDirectories | hooks/post_gen_project.py:203-210 | the loop's final tree and its failure point are those of `Scaffold` |
| PostGen.ProjectTree.CreateAdditionalDirectories | hooks/post_gen_project.py:173-210 | builds the hook's directory list; the final tree and failure point are those of `Scaffold` on it |
| PostGen.ProjectTree.SetupPreCommit | hooks/post_gen_project.py:124-132 | the configuration file is written only when pre-commit is wanted and the file is absent |
| PostGen.PreCommitNeverOverwrites | hooks/post_gen_project.py:126-162 | `WritePreCommitConfig`: the pre-commit step changes no existing entry, adds at most the configuration file, and leaves the tree alone when pre-commit is not wanted |
| PostGen.ProjectTree.RunHook | hooks/post_gen_project.py:277-282 | clean, scaffold, then set up pre-commit only if scaffolding did not raise; the outcome is `PostGenOutcome` |
| PostGen.FinishFacts | hooks/post_gen_project.py:281-282 | after cleaning, the later steps keep every entry, finish iff nothing blocks, and then leave every listed directory in place |
| PostGen.PostGenCompletes | hooks/post_gen_project.py:277-282 | `PostGenOutcome`, the main block: the hook finishes iff no listed directory is blocked by a file that survived cleaning |
| PostGen.PostGenKeeps | hooks/post_gen_project.py:280-282 | whatever the outcome, every entry that survived cleaning is still there with its content, in a well-formed tree |
| PostGen.PostGenCreates | hooks/post_gen_project.py:280-281 | when the hook finishes, every listed directory exists, with an `__init__.py` in each package directory |
| PostGen.InitFileNotPreserved | hooks/post_gen_project.py:32-52 | no protected name occurs in `__init__.py` |
| PostGen.FreshInitFilesOutliveSweep | hooks/post_gen_project.py:280-281 | an `__init__.py` the hook touched is empty and survives the hook, yet the sweep would delete it: the sweep must run before scaffolding |
| PostGen.FreshInitSurvives | hooks/post_gen_project.py:280-281 | the same, for any cleaned tree and directory list meeting the scaffolding conditions |

## Left out

- `initialize_git_repo` and the `pre-commit install` call of `setup_pre_commit` are not modelled. They only run external programs, and their failures are only logged.
- `print_next_steps` and every message the hooks print are console output and are left out.
- The text of `.pre-commit-config.yaml` is the parameter `configText` and is not spelled out.
- Rendering the hooks with Jinja is done by cookiecutter itself and is not part of this model. The placeholders arrive already substituted.
- `sys.exit(1)` is the `Err` result of `Validate`, not process termination.
- `os.walk` visits files in an order the host decides. `CleanEmptyFiles` picks the next file arbitrarily, so its result holds for every order.
- Permissions, symbolic links and other file kinds are not modelled. An unreadable file is a `File` with `decodable` false.
- The slug is one path component, as an accepted slug has no `/`. `Config` admits any string, and the rule lemmas state where they need an accepted slug.
- Rule targets are non-empty paths, so `PostGen.ProjectTree.RemoveFileOrDir` requires `p != []`.
- PostGen.ProjectTree.CreateAdditionalDirectories and PostGen.ProjectTree.MakeDirectories: their contracts tie the result to `Scaffold`. The guarantees themselves are lemmas about `Scaffold`: `ScaffoldOutcome`, `FreshInitIsEmpty`, `ScaffoldNewEntries`, `PostGenCompletes`, `PostGenKeeps` and `PostGenCreates`.
- The lemmas about the cli and web profiles assume the slug is not "src" or "tests". These are valid identifiers, and for them the rule that removes the top-level slug directory also removes the whole `src` or `tests` tree. `Cleanup.DockerToggle` states the same collision for "docker".
- Each string field of `Config` is the value of the Python string literal `"{{ cookiecutter.x }}"` after rendering. An answer holding a real line break, a `"`, or a `\` other than a final `\n` would change that literal and lies outside the model. So "a final newline is allowed" in the rows for `SlugAccepted`, `PackageAccepted` and `VersionAcceptedIffListed` covers only an answer that ends in the two characters `\n`, which the literal turns into a newline.
- `PostGen.Finish` and `Scaffolding.CreateDirectory` are helpers, with no row of their own. Their contracts are stated by `PostGen.FinishFacts` and `Scaffolding.CreateDirectoryFacts`.
- Jinja comments `{# … #}`, which the comment at hooks/post_gen_project.py:57 names, do not pass the test at line 58. The model keeps such files, as the code does.
- On Windows, `os.remove` inside the still-open `with` block raises `PermissionError`, which line 61 catches, so the file stays. The model follows POSIX, where the file is deleted.
- `keyword.iskeyword` is modelled as the 35 hard keywords of Python 3. The soft keywords are not included.
- Non-ASCII characters are neither letters nor digits in the patterns, as in Python's ASCII character ranges.
