/**
 * The GitHub Actions workflow suggested for a C, C++ or Objective-C
 * project: a fixed header, a pull request trigger when branches are
 * enabled, and the build steps for the chosen operating system. Each text
 * is written as a concatenation of named pieces, so that what the pieces
 * share is visible.
 */
module CFamily {
  import opened Wrappers
  import opened Strings

  datatype OS = Linux | MacOS | Windows

  /** Indentations of the YAML lines. */
  const I6 := "      "
  const I8 := I6 + "  "
  const I10 := I8 + "  "

  const SONAR_HOME := "$HOME/.sonar"
  const HOST_URL_SECRET := "${{ secrets.SONAR_HOST_URL }}"
  const TOKEN_SECRET := "${{ secrets.SONAR_TOKEN }}"

  const WRAPPER_OUTPUT := "sonar.cfamily.build-wrapper-output=bw-output"
  const WRAPPER_OUTPUT_ARG := "-D" + WRAPPER_OUTPUT
  /** What every build wrapper invocation is given after the command. */
  const BUILD_WRAPPER_ARGS := " --out-dir bw-output <your clean build command>\n"
  const SCANNER_VERSION := "4.6.2.2472"
  const SCAN_ACTION := "SonarSource/sonarqube-scan-action@v1.0.0"
  /** The download location of the scanner command line, up to its platform suffix. */
  const SCANNER_CLI :=
    "https://binaries.sonarsource.com/Distribution" + "/sonar-scanner-cli/sonar-scanner-cli-" + SCANNER_VERSION

  const FULL_DEPTH := "fetch-depth: 0"
  const CHECKOUT_HEAD :=
    "steps:\n" + I6 + "- name: Checkout code\n" + I8 + "uses: actions/checkout@v2\n" + I8 + "with:\n" + I10
  const CHECKOUT_STEP := CHECKOUT_HEAD + FULL_DEPTH + "\n\n"

  /** The environment of the build wrapper steps, followed by a blank line. */
  const HOST_ENV := I8 + "env:\n" + I10 + "SONAR_HOST_URL: " + HOST_URL_SECRET + "\n\n"

  /** The environment that closes every step list. */
  const SCAN_ENV :=
    I8 + "env:\n" + I10 + "SONAR_TOKEN: " + TOKEN_SECRET + "\n" + I10 + "SONAR_HOST_URL: " + HOST_URL_SECRET

  const LINUX_BUILD_STEP :=
    I6 + "- name: Download and install the build wrapper, build the project\n"
    + I8 + "run: |\n"
    + I10 + "mkdir " + SONAR_HOME + "\n"
    + I10 + "curl -sSLo " + SONAR_HOME + "/build-wrapper-linux-x86.zip "
    + HOST_URL_SECRET + "/static/cpp/build-wrapper-linux-x86.zip\n"
    + I10 + "unzip -o " + SONAR_HOME + "/build-wrapper-linux-x86.zip -d " + SONAR_HOME + "/\n"
    + I10 + SONAR_HOME + "/build-wrapper-linux-x86/build-wrapper-linux-x86-64" + BUILD_WRAPPER_ARGS

  const LINUX_ANALYSIS_USES := I6 + "- name: SonarQube analysis\n" + I8 + "uses: "
  const LINUX_ANALYSIS_ARGS := "\n" + I8 + "with:\n" + I10 + "args: "
  const LINUX_ANALYSIS_STEP_HEAD := LINUX_ANALYSIS_USES + SCAN_ACTION + LINUX_ANALYSIS_ARGS

  const MACOS_WRAPPER_STEP :=
    I6 + "- name: Download and install the build wrapper\n"
    + I8 + "run: |\n"
    + I10 + "mkdir " + SONAR_HOME + "\n"
    + I10 + "curl -sSLo " + SONAR_HOME + "/build-wrapper-macosx-x86.zip "
    + HOST_URL_SECRET + "/static/cpp/build-wrapper-macosx-x86.zip\n"
    + I10 + "unzip -o " + SONAR_HOME + "/build-wrapper-macosx-x86.zip -d " + SONAR_HOME + "/\n"

  const MACOS_SCANNER_STEP := MACOS_SCANNER_STEP_HEAD + SCANNER_CLI + MACOS_SCANNER_STEP_TAIL
  const MACOS_SCANNER_STEP_HEAD :=
    I6 + "- name: Download and install the SonarScanner\n"
    + I8 + "run: |\n"
    + I10 + "curl -sSLo " + SONAR_HOME + "/sonar-scanner.zip "
  const MACOS_SCANNER_STEP_TAIL :=
    "-macosx.zip\n"
    + I10 + "unzip -o " + SONAR_HOME + "/sonar-scanner.zip -d " + SONAR_HOME + "/\n\n"

  const MACOS_ANALYSIS_STEP_HEAD :=
    I6 + "- name: Build and analyse the project\n"
    + I8 + "run: |\n"
    + I10 + "# Potential improvement : add these paths to the PATH env var.\n"
    + I10 + SONAR_HOME + "/build-wrapper-macosx-x86/build-wrapper-macosx-x86" + BUILD_WRAPPER_ARGS
    + I10 + SONAR_HOME + "/sonar-scanner-" + SCANNER_VERSION + "-macosx/bin/sonar-scanner "

  /** The PowerShell lines the Windows download steps share. */
  const TLS12_LINE := "[Net.ServicePointManager]::SecurityProtocol = " + "[Net.SecurityProtocolType]::Tls12\n"
  const DOWNLOAD_FILE := "(New-Object System.Net.WebClient).DownloadFile(\""
  const UNZIP_LINES :=
    I10 + "Add-Type -AssemblyName System.IO.Compression.FileSystem\n"
    + I10 + "[System.IO.Compression.ZipFile]::ExtractToDirectory($path, \"" + SONAR_HOME + "\")\n"

  const WINDOWS_WRAPPER_STEP :=
    I6 + "- name: Download and install the build wrapper\n"
    + I8 + "shell: powershell\n"
    + I8 + "run: |\n"
    + I10 + "$path = \"" + SONAR_HOME + "/build-wrapper-win-x86.zip\"\n"
    + I10 + "mkdir " + SONAR_HOME + "\n"
    + I10 + TLS12_LINE
    + I10 + DOWNLOAD_FILE + HOST_URL_SECRET + "/static/cpp/build-wrapper-win-x86.zip\", $path)\n"
    + UNZIP_LINES

  const WINDOWS_SCANNER_STEP := WINDOWS_SCANNER_STEP_HEAD + SCANNER_CLI + WINDOWS_SCANNER_STEP_TAIL
  const WINDOWS_SCANNER_STEP_HEAD :=
    I6 + "- name: Download and install the SonarScanner\n"
    + I8 + "shell: powershell\n"
    + I8 + "run: |\n"
    + I10 + "$path = \"" + SONAR_HOME + "/sonar-scanner-cli-" + SCANNER_VERSION + "-windows.zip\"\n"
    + I10 + TLS12_LINE
    + I10 + DOWNLOAD_FILE
  const WINDOWS_SCANNER_STEP_TAIL := "-windows.zip\", $path)\n" + UNZIP_LINES + "\n"

  const WINDOWS_ANALYSIS_STEP_HEAD :=
    I6 + "- name: Build and analyse the project\n"
    + I8 + "shell: powershell\n"
    + I8 + "run: |\n"
    + I10 + "$env:Path += \";" + SONAR_HOME + "/build-wrapper-win-x86;"
    + SONAR_HOME + "/sonar-scanner-" + SCANNER_VERSION + "-windows/bin\"\n"
    + I10 + "build-wrapper-win-x86-64" + BUILD_WRAPPER_ARGS
    + I10 + "sonar-scanner.bat \""

  /** The steps between the checkout and the build wrapper output argument. */
  function StepsMiddle(os: OS): string {
    match os
    case Linux => LINUX_BUILD_STEP + HOST_ENV + LINUX_ANALYSIS_STEP_HEAD
    case MacOS => MACOS_WRAPPER_STEP + HOST_ENV + MACOS_SCANNER_STEP + MACOS_ANALYSIS_STEP_HEAD
    case Windows => WINDOWS_WRAPPER_STEP + HOST_ENV + WINDOWS_SCANNER_STEP + WINDOWS_ANALYSIS_STEP_HEAD
  }

  /** The text of a step list after the build wrapper output argument. */
  function StepsTail(os: OS): string {
    if os == Windows then "\"\n" + SCAN_ENV else "\n" + SCAN_ENV
  }

  /** The step list after the checkout. */
  function StepsAfterCheckout(os: OS): string {
    StepsMiddle(os) + WRAPPER_OUTPUT_ARG + StepsTail(os)
  }

  /** `STEPS`: the step list of each operating system. */
  function Steps(os: OS): string {
    CHECKOUT_STEP + StepsAfterCheckout(os)
  }

  const TEMPLATE_HEADER :=
    "name: Build\non:\n  push:\n    branches:\n" + I6 + "- master # or the name of your main branch\n"
  const PULL_REQUEST_TRIGGER := "  pull_request:\n    types: [opened, synchronize, reopened]"
  const JOBS_HEAD := "\n\njobs:\n  build:\n" + "    runs-on: <image ready for your build toolchain>\n    "

  /** The jobs block of the workflow, with the steps of `os`. */
  function Jobs(os: OS): string {
    JOBS_HEAD + Steps(os) + "\n"
  }

  /** `cfamilyYamlTemplate`: the push trigger first, the jobs of `os` last. */
  function YamlTemplate(branchesEnabled: bool, os: OS): (r: string)
    ensures TEMPLATE_HEADER <= r
    ensures |Jobs(os)| <= |r| && r[|r| - |Jobs(os)|..] == Jobs(os)
  {
    var front := TEMPLATE_HEADER + (if branchesEnabled then PULL_REQUEST_TRIGGER else "");
    var jobs := Jobs(os);
    PrefixOfConcat(TEMPLATE_HEADER, TEMPLATE_HEADER, if branchesEnabled then PULL_REQUEST_TRIGGER else "");
    PrefixOfConcat(TEMPLATE_HEADER, front, jobs);
    SuffixOfConcat("", front, jobs);
    front + jobs
  }

  const YAML_FILE_NAME := ".github/workflows/build.yml"

  /** What the tutorial shows: the file name and its content, once an operating system is chosen. */
  function YamlFile(branchesEnabled: Option<bool>, os: Option<OS>): (r: Option<(string, string)>)
    ensures r.Some? <==> os.Some?
    ensures r.Some? ==>
      r.value.0 == YAML_FILE_NAME && r.value.1 == YamlTemplate(branchesEnabled == Some(true), os.value)
  {
    if os.None? then None else Some((YAML_FILE_NAME, YamlTemplate(branchesEnabled == Some(true), os.value)))
  }

  /**
   * With branches enabled the workflow is the one without, with the pull
   * request trigger inserted right after the header.
   */
  lemma PullRequestTriggerOnlyWithBranches(os: OS)
    ensures YamlTemplate(true, os) == TEMPLATE_HEADER + PULL_REQUEST_TRIGGER + Jobs(os)
    ensures YamlTemplate(false, os) == TEMPLATE_HEADER + Jobs(os)
  {
    assert TEMPLATE_HEADER + "" == TEMPLATE_HEADER;
  }

  /** The pull request trigger is in the workflow when branches are enabled. */
  lemma PullRequestTriggerShownWithBranches(os: OS)
    ensures Contains(YamlTemplate(true, os), PULL_REQUEST_TRIGGER)
  {
    ContainsMiddle(TEMPLATE_HEADER, PULL_REQUEST_TRIGGER, Jobs(os));
  }

  /** The jobs of the workflow carry the steps of the OS. */
  lemma JobsContainSteps(os: OS)
    ensures Contains(Jobs(os), Steps(os))
  {
    ContainsMiddle(JOBS_HEAD, Steps(os), "\n");
  }

  /** Every step list starts by checking out the full history. */
  lemma StepsStartWithFullCheckout(os: OS)
    ensures CHECKOUT_STEP <= Steps(os)
    ensures Contains(Steps(os), FULL_DEPTH)
  {
    ContainsMiddle(CHECKOUT_HEAD, FULL_DEPTH, "\n\n");
    ContainsPrefix(CHECKOUT_STEP, StepsAfterCheckout(os));
    ContainsTransitive(Steps(os), CHECKOUT_STEP, FULL_DEPTH);
  }

  /** Every step list passes the build wrapper output directory to the analysis. */
  lemma StepsPassBuildWrapperOutput(os: OS)
    ensures Contains(Steps(os), WRAPPER_OUTPUT_ARG)
    ensures Contains(Steps(os), WRAPPER_OUTPUT)
  {
    ContainsMiddle(StepsMiddle(os), WRAPPER_OUTPUT_ARG, StepsTail(os));
    ContainsSuffix(CHECKOUT_STEP, StepsAfterCheckout(os));
    ContainsTransitive(Steps(os), StepsAfterCheckout(os), WRAPPER_OUTPUT_ARG);
    ContainsSuffix("-D", WRAPPER_OUTPUT);
    ContainsTransitive(Steps(os), WRAPPER_OUTPUT_ARG, WRAPPER_OUTPUT);
  }

  /** The middle part of a step list is part of it. */
  lemma StepsContainMiddle(os: OS)
    ensures Contains(Steps(os), StepsMiddle(os))
  {
    ContainsPrefix(StepsMiddle(os) + WRAPPER_OUTPUT_ARG, StepsTail(os));
    ContainsPrefix(StepsMiddle(os), WRAPPER_OUTPUT_ARG);
    ContainsTransitive(StepsAfterCheckout(os), StepsMiddle(os) + WRAPPER_OUTPUT_ARG, StepsMiddle(os));
    ContainsSuffix(CHECKOUT_STEP, StepsAfterCheckout(os));
    ContainsTransitive(Steps(os), StepsAfterCheckout(os), StepsMiddle(os));
  }

  /** The Linux steps analyse with the scan action. */
  lemma LinuxUsesScanAction()
    ensures Contains(Steps(Linux), SCAN_ACTION)
  {
    ContainsMiddle(LINUX_ANALYSIS_USES, SCAN_ACTION, LINUX_ANALYSIS_ARGS);
    ContainsSuffix(LINUX_BUILD_STEP + HOST_ENV, LINUX_ANALYSIS_STEP_HEAD);
    StepsContainMiddle(Linux);
    ContainsTransitive(Steps(Linux), StepsMiddle(Linux), LINUX_ANALYSIS_STEP_HEAD);
    ContainsTransitive(Steps(Linux), LINUX_ANALYSIS_STEP_HEAD, SCAN_ACTION);
  }

  /** The macOS and Windows steps download the scanner command line of the same version. */
  lemma OtherSystemsDownloadTheScanner(os: OS)
    requires os != Linux
    ensures Contains(Steps(os), SCANNER_CLI)
  {
    StepsContainMiddle(os);
    var (head, step, tail) :=
      if os == MacOS then (MACOS_WRAPPER_STEP + HOST_ENV, MACOS_SCANNER_STEP, MACOS_ANALYSIS_STEP_HEAD)
      else (WINDOWS_WRAPPER_STEP + HOST_ENV, WINDOWS_SCANNER_STEP, WINDOWS_ANALYSIS_STEP_HEAD);
    assert StepsMiddle(os) == head + step + tail;
    ContainsMiddle(head, step, tail);
    ContainsTransitive(Steps(os), StepsMiddle(os), step);
    if os == MacOS {
      ContainsMiddle(MACOS_SCANNER_STEP_HEAD, SCANNER_CLI, MACOS_SCANNER_STEP_TAIL);
    } else {
      ContainsMiddle(WINDOWS_SCANNER_STEP_HEAD, SCANNER_CLI, WINDOWS_SCANNER_STEP_TAIL);
    }
    ContainsTransitive(Steps(os), step, SCANNER_CLI);
  }
}
