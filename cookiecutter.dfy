/**
 * The rendered template variables the two hooks read. Every
 * `{{ cookiecutter.x }}` placeholder of a hook is already substituted by
 * the time the hook runs, so here it is a plain field of a record.
 * The y/n toggles stay strings: the hooks compare them with `!= "y"`, so
 * any value other than exactly "y" (even "Y") means "off".
 */
module Cookiecutter {

  datatype Config = Config(
    projectSlug: string,
    pypiPackageName: string,
    pythonVersion: string,
    email: string,
    projectType: string,
    webFramework: string,      // the `_web_framework` variable
    useGithubActions: string,
    useDocker: string,
    createAuthorFile: string,
    usePreCommit: string)

  /** The hooks' own re-derivation of the web framework from the project type. */
  function DerivedWebFramework(projectType: string): string
  {
    if projectType != "cli" then "fastapi" else "none"
  }

  /** The hooks' own re-derivation of whether structured logging is used. */
  function DerivedUseStructlog(projectType: string): string
  {
    if projectType != "cli" then "y" else "n"
  }

  /**
   * The two derived values agree: structured logging is off exactly when
   * the framework is not "fastapi", so a rule guarded by one fires for the
   * same projects as a rule guarded by the other.
   */
  lemma StructlogFollowsFramework(projectType: string)
    ensures DerivedUseStructlog(projectType) != "y" <==> DerivedWebFramework(projectType) != "fastapi"
    ensures DerivedUseStructlog(projectType) != "y" <==> projectType == "cli"
  {
  }
}
