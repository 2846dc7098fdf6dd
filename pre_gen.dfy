/**
 * The pre-generation hook: a fail-fast chain of checks on the project
 * slug, the PyPI package name, the Python version and the e-mail address.
 * A fatal check ends the hook with exit status 1 before any file is
 * generated; here that is the `Err` of `Validate`. The e-mail check only
 * warns, so it contributes to the `Ok` value instead.
 *
 * Each regular expression of the hook is written out as a predicate over
 * the string. The hook calls `re.match` with patterns of the form `^…$`;
 * Python's `$` matches at the very end and also just before a final
 * newline, and `MatchesAnchored` keeps that behaviour.
 */
module PreGen {
  import opened Wrappers
  import opened Cookiecutter

  datatype ValidationError =
    | SlugNotIdentifier(slug: string)
    | SlugIsKeyword(slug: string)
    | PackageNameInvalid(name: string)
    | PackageNameTooLong(name: string)
    | PythonVersionUnsupported(version: string)
  {
    predicate IsSlugError() { SlugNotIdentifier? || SlugIsKeyword? }
    predicate IsPackageError() { PackageNameInvalid? || PackageNameTooLong? }
    predicate IsVersionError() { PythonVersionUnsupported? }
  }

  datatype Warning = EmailMayBeInvalid(email: string)

  /** The longest package name the hook lets through. */
  const MaxPackageNameLength: nat := 214

  /** What `keyword.iskeyword` accepts in Python 3 (the hard keywords; soft keywords are not included). */
  const PythonKeywords: set<string> := {
    "False", "None", "True", "and", "as", "assert", "async", "await",
    "break", "class", "continue", "def", "del", "elif", "else", "except",
    "finally", "for", "from", "global", "if", "import", "in", "is",
    "lambda", "nonlocal", "not", "or", "pass", "raise", "return", "try",
    "while", "with", "yield"
  }

  /** The versions the hook's error message offers, in its order. */
  const SupportedVersions: seq<string> := ["3.6", "3.7", "3.8", "3.9", "3.10", "3.11", "3.12", "3.13"]

  // Character classes of the patterns (ASCII ranges, as in Python's `re`).

  predicate IsAsciiLetter(ch: char) { 'a' <= ch <= 'z' || 'A' <= ch <= 'Z' }
  predicate IsAsciiDigit(ch: char) { '0' <= ch <= '9' }
  predicate IsAlnum(ch: char) { IsAsciiLetter(ch) || IsAsciiDigit(ch) }

  /** `[_a-zA-Z]` */
  predicate IsIdentStart(ch: char) { ch == '_' || IsAsciiLetter(ch) }
  /** `[_a-zA-Z0-9]` */
  predicate IsIdentChar(ch: char) { IsIdentStart(ch) || IsAsciiDigit(ch) }
  /** `[a-zA-Z0-9._-]` */
  predicate IsPackageChar(ch: char) { IsAlnum(ch) || ch == '.' || ch == '_' || ch == '-' }
  /** `[a-zA-Z0-9._%+-]` */
  predicate IsEmailLocalChar(ch: char) { IsAlnum(ch) || ch == '.' || ch == '_' || ch == '%' || ch == '+' || ch == '-' }
  /** `[a-zA-Z0-9.-]` */
  predicate IsEmailDomainChar(ch: char) { IsAlnum(ch) || ch == '.' || ch == '-' }

  /** `s` with one final newline removed, if it has one. */
  function Chomp(s: string): string
  {
    if |s| > 0 && s[|s| - 1] == '\n' then s[..|s| - 1] else s
  }

  /** `re.match("^" + body + "$", s)`: the body matches all of `s`, or all of `s` but a final newline. */
  predicate MatchesAnchored(body: string -> bool, s: string)
  {
    body(s) || (|s| > 0 && s[|s| - 1] == '\n' && body(s[..|s| - 1]))
  }

  /** The body of `^[_a-zA-Z][_a-zA-Z0-9]*$`. */
  predicate IdentifierBody(s: string)
  {
    |s| > 0 && IsIdentStart(s[0]) && forall i | 1 <= i < |s| :: IsIdentChar(s[i])
  }

  /** The body of `^[a-zA-Z0-9]([a-zA-Z0-9._-]*[a-zA-Z0-9])?$`; the group is optional. */
  predicate PackageNameBody(s: string)
  {
    && |s| > 0
    && IsAlnum(s[0])
    && (|s| == 1 || (IsAlnum(s[|s| - 1]) && forall i | 1 <= i < |s| - 1 :: IsPackageChar(s[i])))
  }

  /** The body of `^3\.(1[0-3]|[6-9])$`. */
  predicate VersionBody(s: string)
  {
    || (|s| == 3 && s[0] == '3' && s[1] == '.' && '6' <= s[2] <= '9')
    || (|s| == 4 && s[0] == '3' && s[1] == '.' && s[2] == '1' && '0' <= s[3] <= '3')
  }

  /** `s` splits as local-part `@` domain `.` top-level at the positions `at` and `dot`. */
  predicate EmailSplit(s: string, at: int, dot: int)
  {
    && 0 < at && at + 1 < dot && dot + 2 < |s|
    && s[at] == '@' && s[dot] == '.'
    && (forall i | 0 <= i < at :: IsEmailLocalChar(s[i]))
    && (forall i | at < i < dot :: IsEmailDomainChar(s[i]))
    && (forall i | dot < i < |s| :: IsAsciiLetter(s[i]))
  }

  /** The body of `^[a-zA-Z0-9._%+-]+@[a-zA-Z0-9.-]+\.[a-zA-Z]{2,}$`. */
  predicate EmailBody(s: string)
  {
    exists at, dot | 0 < at < dot < |s| :: EmailSplit(s, at, dot)
  }

  /** `validate_project_slug`: the identifier pattern first, then the keyword test. */
  function ValidateProjectSlug(slug: string): Option<ValidationError>
  {
    if !MatchesAnchored(IdentifierBody, slug) then Some(SlugNotIdentifier(slug))
    else if slug in PythonKeywords then Some(SlugIsKeyword(slug))
    else None
  }

  /** `validate_pypi_package_name`: the pattern first, then the length bound. */
  function ValidatePypiPackageName(name: string): Option<ValidationError>
  {
    if !MatchesAnchored(PackageNameBody, name) then Some(PackageNameInvalid(name))
    else if |name| > MaxPackageNameLength then Some(PackageNameTooLong(name))
    else None
  }

  /** `validate_python_version` */
  function ValidatePythonVersion(version: string): Option<ValidationError>
  {
    if !MatchesAnchored(VersionBody, version) then Some(PythonVersionUnsupported(version))
    else None
  }

  /** `validate_email`: a warning, never an error. */
  function ValidateEmail(email: string): seq<Warning>
  {
    if !MatchesAnchored(EmailBody, email) then [EmailMayBeInvalid(email)] else []
  }

  /** The hook's main block: the four checks in order, stopping at the first fatal one. */
  function Validate(c: Config): Result<seq<Warning>, ValidationError>
  {
    match ValidateProjectSlug(c.projectSlug)
    case Some(e) => Err(e)
    case None =>
      match ValidatePypiPackageName(c.pypiPackageName)
      case Some(e) => Err(e)
      case None =>
        match ValidatePythonVersion(c.pythonVersion)
        case Some(e) => Err(e)
        case None => Ok(ValidateEmail(c.email))
  }

  // ----- the slug -----

  /** None of the bodies can end in a newline, so the anchored match is the body applied to `Chomp(s)`. */
  lemma IdentifierAnchored(s: string)
    ensures MatchesAnchored(IdentifierBody, s) <==> IdentifierBody(Chomp(s))
  {
  }

  /**
   * A slug is accepted exactly when, apart from one final newline, it is
   * non-empty, starts with a letter or underscore and has only letters,
   * digits and underscores, and it is not a Python keyword.
   */
  lemma SlugAccepted(s: string)
    ensures ValidateProjectSlug(s).None? <==>
      && |Chomp(s)| > 0
      && IsIdentStart(Chomp(s)[0])
      && (forall i | 0 <= i < |Chomp(s)| :: IsIdentChar(Chomp(s)[i]))
      && s !in PythonKeywords
  {
    IdentifierAnchored(s);
  }

  /** Every keyword passes the identifier pattern, so the keyword test is what rejects it. */
  lemma KeywordsRejectedAfterPattern(k: string)
    requires k in PythonKeywords
    ensures MatchesAnchored(IdentifierBody, k)
    ensures ValidateProjectSlug(k) == Some(SlugIsKeyword(k))
  {
    assert IdentifierBody(k);
  }

  lemma SlugRejectedExamples()
    ensures ValidateProjectSlug("123bad") == Some(SlugNotIdentifier("123bad"))
    ensures ValidateProjectSlug("my-app") == Some(SlugNotIdentifier("my-app"))
    ensures ValidateProjectSlug("") == Some(SlugNotIdentifier(""))
  {
    assert "123bad"[0] == '1';
    assert "my-app"[2] == '-';
  }

  lemma SlugKeywordExamples()
    ensures ValidateProjectSlug("class") == Some(SlugIsKeyword("class"))
    ensures ValidateProjectSlug("None") == Some(SlugIsKeyword("None"))
  {
    KeywordsRejectedAfterPattern("class");
    KeywordsRejectedAfterPattern("None");
  }

  lemma SlugAcceptedExamples()
    ensures ValidateProjectSlug("my_app") == None
    ensures ValidateProjectSlug("_") == None
    ensures ValidateProjectSlug("my_app\n") == None
  {
    assert IdentifierBody("my_app");
    assert "my_app\n"[..6] == "my_app";
  }

  // ----- the package name -----

  lemma PackageAnchored(s: string)
    ensures MatchesAnchored(PackageNameBody, s) <==> PackageNameBody(Chomp(s))
  {
  }

  /**
   * A package name is accepted exactly when, apart from one final newline,
   * it is non-empty, its first and last characters are letters or digits
   * and every character between them is a letter, digit, '.', '_' or '-',
   * and it has at most 214 characters (a final newline counts).
   */
  lemma PackageAccepted(s: string)
    ensures ValidatePypiPackageName(s).None? <==>
      && |Chomp(s)| > 0
      && IsAlnum(Chomp(s)[0])
      && IsAlnum(Chomp(s)[|Chomp(s)| - 1])
      && (forall i | 0 < i < |Chomp(s)| - 1 :: IsPackageChar(Chomp(s)[i]))
      && |s| <= MaxPackageNameLength
  {
    PackageAnchored(s);
  }

  /** A package name that passes the pattern is accepted exactly when it has at most 214 characters. */
  lemma PackageLengthBound(s: string)
    requires MatchesAnchored(PackageNameBody, s)
    ensures ValidatePypiPackageName(s).None? <==> |s| <= MaxPackageNameLength
    ensures ValidatePypiPackageName(s).Some? ==> ValidatePypiPackageName(s) == Some(PackageNameTooLong(s))
  {
  }

  function Repeat(ch: char, n: nat): (r: string)
    ensures |r| == n && forall i | 0 <= i < n :: r[i] == ch
  {
    if n == 0 then [] else Repeat(ch, n - 1) + [ch]
  }

  /** A name of one repeated letter or digit: accepted for lengths 1 to 214, rejected as empty or (from 215 on) too long. */
  lemma {:induction false} PackageLengthBoundary(ch: char, n: nat)
    requires IsAlnum(ch)
    ensures ValidatePypiPackageName(Repeat(ch, n)).None? <==> 1 <= n <= 214
    ensures n == 0 ==> ValidatePypiPackageName(Repeat(ch, n)) == Some(PackageNameInvalid(""))
    ensures n > 214 ==> ValidatePypiPackageName(Repeat(ch, n)) == Some(PackageNameTooLong(Repeat(ch, n)))
  {
    var s := Repeat(ch, n);
    if n > 0 {
      assert PackageNameBody(s);
    }
  }

  lemma PackageExamples()
    ensures ValidatePypiPackageName("a") == None
    ensures ValidatePypiPackageName("my-app.core_2") == None
    ensures ValidatePypiPackageName("") == Some(PackageNameInvalid(""))
    ensures ValidatePypiPackageName("-app") == Some(PackageNameInvalid("-app"))
    ensures ValidatePypiPackageName("app.") == Some(PackageNameInvalid("app."))
    ensures ValidatePypiPackageName("my app") == Some(PackageNameInvalid("my app"))
  {
    assert PackageNameBody("a");
    assert PackageNameBody("my-app.core_2");
    assert "-app"[0] == '-' && "-app"[3] == 'p';
    assert "app."[3] == '.';
    assert "my app"[2] == ' ' && "my app"[5] == 'p';
  }

  // ----- the Python version -----

  /** The version check accepts exactly the offered versions, each optionally followed by one newline. */
  lemma VersionAcceptedIffListed(v: string)
    ensures ValidatePythonVersion(v).None? <==>
      v in SupportedVersions || (|v| > 0 && v[|v| - 1] == '\n' && v[..|v| - 1] in SupportedVersions)
  {
    forall w | VersionBody(w) ensures w in SupportedVersions {
      if |w| == 3 {
        assert w == ['3', '.', w[2]];
      } else {
        assert w == ['3', '.', '1', w[3]];
      }
    }
    assert forall w | w in SupportedVersions :: VersionBody(w);
  }

  lemma VersionExamples()
    ensures ValidatePythonVersion("3.6") == None
    ensures ValidatePythonVersion("3.10") == None
    ensures ValidatePythonVersion("3.13") == None
    ensures ValidatePythonVersion("3.5") == Some(PythonVersionUnsupported("3.5"))
    ensures ValidatePythonVersion("3.1") == Some(PythonVersionUnsupported("3.1"))
    ensures ValidatePythonVersion("3.14") == Some(PythonVersionUnsupported("3.14"))
    ensures ValidatePythonVersion("4.0") == Some(PythonVersionUnsupported("4.0"))
  {
    VersionAcceptedIffListed("3.5");
    VersionAcceptedIffListed("3.1");
    VersionAcceptedIffListed("3.14");
    VersionAcceptedIffListed("4.0");
  }

  // ----- the e-mail address -----

  lemma EmailExamples()
    ensures ValidateEmail("not-an-email") == [EmailMayBeInvalid("not-an-email")]
    ensures ValidateEmail("jane.doe@example.com") == []
  {
    var bad := "not-an-email";
    assert forall i | 0 <= i < |bad| :: bad[i] != '@';
    EmailWithoutAtWarns(bad);
    assert EmailSplit("jane.doe@example.com", 8, 16);
  }

  /** An address without `@` always draws the warning. */
  lemma EmailWithoutAtWarns(s: string)
    requires forall i | 0 <= i < |s| :: s[i] != '@'
    ensures ValidateEmail(s) == [EmailMayBeInvalid(s)]
  {
    assert !EmailBody(s);
    assert |s| > 0 ==> !EmailBody(s[..|s| - 1]);
  }

  // ----- the whole chain -----

  /**
   * Fail-fast order: the configuration is accepted exactly when the slug,
   * the package name and the version all pass; the error reported is the
   * one the first failing check produced, and the later checks are not
   * consulted.
   */
  lemma ValidateFailFast(c: Config)
    ensures Validate(c).Ok? <==>
      && ValidateProjectSlug(c.projectSlug).None?
      && ValidatePypiPackageName(c.pypiPackageName).None?
      && ValidatePythonVersion(c.pythonVersion).None?
    ensures Validate(c).Err? && Validate(c).error.IsPackageError() ==> ValidateProjectSlug(c.projectSlug).None?
    ensures Validate(c).Err? && Validate(c).error.IsVersionError() ==>
      ValidateProjectSlug(c.projectSlug).None? && ValidatePypiPackageName(c.pypiPackageName).None?
    ensures ValidateProjectSlug(c.projectSlug).Some? ==> Validate(c).Err? && Validate(c).error.IsSlugError()
    ensures ValidateProjectSlug(c.projectSlug).Some? ==> Validate(c) == Err(ValidateProjectSlug(c.projectSlug).value)
    ensures ValidateProjectSlug(c.projectSlug).None? && ValidatePypiPackageName(c.pypiPackageName).Some? ==>
      Validate(c) == Err(ValidatePypiPackageName(c.pypiPackageName).value)
    ensures && ValidateProjectSlug(c.projectSlug).None?
            && ValidatePypiPackageName(c.pypiPackageName).None?
            && ValidatePythonVersion(c.pythonVersion).Some?
            ==> Validate(c) == Err(ValidatePythonVersion(c.pythonVersion).value)
  {
  }

  /**
   * The e-mail address never decides acceptance: replacing it changes
   * neither whether the configuration is accepted nor the error reported,
   * and when the configuration is accepted the only possible warning is
   * about the e-mail address.
   */
  lemma EmailOnlyWarns(c: Config, other: string)
    ensures Validate(c).Ok? <==> Validate(c.(email := other)).Ok?
    ensures Validate(c).Err? ==> Validate(c) == Validate(c.(email := other))
    ensures Validate(c).Ok? ==>
      (Validate(c).value == [] <==> MatchesAnchored(EmailBody, c.email))
    ensures Validate(c).Ok? && Validate(c).value != [] ==> Validate(c).value == [EmailMayBeInvalid(c.email)]
  {
  }

  /** A slug such as "123bad" ends validation with that error, whatever the other fields are. */
  lemma InvalidSlugScenario(c: Config)
    requires c.projectSlug == "123bad"
    ensures Validate(c) == Err(SlugNotIdentifier("123bad"))
  {
    SlugRejectedExamples();
  }

  /** A malformed e-mail address with otherwise valid fields: accepted, with one warning. */
  lemma MalformedEmailScenario(c: Config)
    requires c.projectSlug == "my_app" && c.pypiPackageName == "my-app" && c.pythonVersion == "3.12"
    requires c.email == "not-an-email"
    ensures Validate(c) == Ok([EmailMayBeInvalid("not-an-email")])
  {
    SlugAcceptedExamples();
    assert PackageNameBody("my-app");
    assert VersionBody("3.12");
    EmailExamples();
  }
}
