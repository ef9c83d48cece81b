/**
 * The Bitbucket Pipelines configuration suggested for projects built with
 * something else than Maven, Gradle or .NET: the analysis of the main
 * branch, an analysis of pull requests when branches are enabled, and the
 * scanner cache.
 */
module Others {
  import opened Strings

  /** Indentations of the YAML lines. */
  const I4 := "    "
  const I6 := I4 + "  "
  const I10 := I6 + I4
  const I12 := I10 + "  "
  const I14 := I12 + "  "
  const I16 := I14 + "  "

  const PIPE := "sonarsource/sonarqube-scan:1.0.0"
  const HOST_URL_VARIABLE := "SONAR_HOST_URL: ${SONAR_HOST_URL}"
  const TOKEN_VARIABLE := "SONAR_TOKEN: ${SONAR_TOKEN}"
  const VARIABLE_COMMENT := " # Get the value from the repository/workspace variable."
  const SECRET_WARNING := " You shouldn't set secret in clear text here."

  const IMAGE := "image: maven:3.3.9\n"
  const FULL_CLONE := "\nclone:\n  depth: full\n"
  const BRANCHES_HEAD := "\npipelines:\n  branches:\n" + I4 + "'{master}': # or the name of your main branch\n"

  /** The analysis step, the same for the main branch and for pull requests. */
  const STEP_HEAD := I6 + "- step:\n" + I10 + "name: SonarQube analysis\n" + I10 + "script:\n" + I12 + "- pipe: "
  const HOST_URL_LINE := I16 + HOST_URL_VARIABLE + (VARIABLE_COMMENT + "\n")
  const TOKEN_LINE := I16 + TOKEN_VARIABLE + (VARIABLE_COMMENT + SECRET_WARNING + "\n")
  const STEP_VARIABLES := "\n" + I14 + "variables:\n" + HOST_URL_LINE + TOKEN_LINE
  const SCAN_STEP := STEP_HEAD + PIPE + STEP_VARIABLES

  const PULL_REQUESTS_HEAD := "\n  pull-requests:\n" + I4 + "'**':\n"
  const CACHE := "sonar: ~/.sonar"

  /** Everything before the optional pull request section. */
  const PREFIX := IMAGE + FULL_CLONE + BRANCHES_HEAD + SCAN_STEP
  const PULL_REQUESTS_SECTION := PULL_REQUESTS_HEAD + SCAN_STEP
  /** Everything after it; the first line keeps two trailing spaces. */
  const SUFFIX := SUFFIX_HEAD + CACHE
  const SUFFIX_HEAD := "  \ndefinitions:\n  caches:\n" + I4

  /** `othersExample`: the main-branch pipeline first, the cache definition last. */
  function OthersExample(branchesEnabled: bool): (r: string)
    ensures PREFIX <= r
    ensures |SUFFIX| <= |r| && r[|r| - |SUFFIX|..] == SUFFIX
  {
    PREFIX + (if branchesEnabled then PULL_REQUESTS_SECTION else "") + SUFFIX
  }

  /**
   * With branches enabled the configuration is the one without, with the
   * pull request section inserted between the same prefix and suffix.
   */
  lemma PullRequestSectionOnlyWithBranches()
    ensures OthersExample(true) == PREFIX + PULL_REQUESTS_SECTION + SUFFIX
    ensures OthersExample(false) == PREFIX + SUFFIX
    ensures |OthersExample(true)| == |OthersExample(false)| + |PULL_REQUESTS_SECTION|
    ensures Contains(OthersExample(true), PULL_REQUESTS_SECTION)
  {
    assert PREFIX + "" == PREFIX;
    ContainsMiddle(PREFIX, PULL_REQUESTS_SECTION, SUFFIX);
  }

  /** The configuration starts with the image and the full clone. */
  lemma ConfigurationStartsWithImageAndClone(branchesEnabled: bool)
    ensures IMAGE + FULL_CLONE <= OthersExample(branchesEnabled)
  {
    var frame := IMAGE + FULL_CLONE;
    var middle := if branchesEnabled then PULL_REQUESTS_SECTION else "";
    PrefixOfConcat(frame, frame, BRANCHES_HEAD);
    PrefixOfConcat(frame, frame + BRANCHES_HEAD, SCAN_STEP);
    PrefixOfConcat(frame, PREFIX, middle);
    PrefixOfConcat(frame, PREFIX + middle, SUFFIX);
  }

  /** The configuration ends with the scanner cache. */
  lemma ConfigurationEndsWithCache(branchesEnabled: bool)
    ensures var t := OthersExample(branchesEnabled);
      |t| >= |CACHE| && t[|t| - |CACHE|..] == CACHE
  {
    SuffixOfConcat(PREFIX + (if branchesEnabled then PULL_REQUESTS_SECTION else ""), SUFFIX_HEAD, CACHE);
  }

  /**
   * The analysis step, which the configuration holds once for the main
   * branch and once more for pull requests, runs the scan pipe with the
   * server URL and the token.
   */
  lemma EveryStepScansWithHostAndToken()
    ensures Contains(SCAN_STEP, PIPE)
    ensures Contains(SCAN_STEP, HOST_URL_VARIABLE)
    ensures Contains(SCAN_STEP, TOKEN_VARIABLE)
  {
    ContainsMiddle(STEP_HEAD, PIPE, STEP_VARIABLES);
    ContainsSuffix(STEP_HEAD + PIPE, STEP_VARIABLES);
    ContainsMiddle("\n" + I14 + "variables:\n", HOST_URL_LINE, TOKEN_LINE);
    ContainsSuffix("\n" + I14 + "variables:\n" + HOST_URL_LINE, TOKEN_LINE);
    ContainsMiddle(I16, HOST_URL_VARIABLE, VARIABLE_COMMENT + "\n");
    ContainsMiddle(I16, TOKEN_VARIABLE, VARIABLE_COMMENT + SECRET_WARNING + "\n");
    ContainsTransitive(STEP_VARIABLES, HOST_URL_LINE, HOST_URL_VARIABLE);
    ContainsTransitive(STEP_VARIABLES, TOKEN_LINE, TOKEN_VARIABLE);
    ContainsTransitive(SCAN_STEP, STEP_VARIABLES, HOST_URL_VARIABLE);
    ContainsTransitive(SCAN_STEP, STEP_VARIABLES, TOKEN_VARIABLE);
  }
}
