/**
 * The notice shown on a project's overview after its first analysis,
 * suggesting to set up continuous integration, pull request decoration, or
 * both.
 */
module FirstAnalysisNextStepsNotif {
  import opened Wrappers

  datatype Props = Props(
    loggedIn: bool, qualifier: string, componentKey: string,
    /** `component.configuration?.showSettings`, `None` when undefined */
    showSettings: Option<bool>,
    branchesEnabled: bool,
    detectedCIOnLastAnalysis: Option<bool>,
    hasProjectBinding: bool)

  const PROJECT := "TRK"
  const PULL_REQUEST_DECORATION_BINDING_CATEGORY := "pull_request_decoration_binding"

  /** The message inside the notice, with the links it carries. */
  datatype Message =
    | SetUpCI
    | SetUpPrDecoAdmin
    | SetUpPrDeco
    | SetUpPrDecoAndCIAdmin
    | SetUpPrDecoAndCI

  datatype Notice = Notice(alertKey: string, message: Message)

  predicate WantsPrDecoration(p: Props) {
    p.branchesEnabled && !p.hasProjectBinding
  }

  predicate WantsCI(p: Props) {
    p.detectedCIOnLastAnalysis.Some? && !p.detectedCIOnLastAnalysis.value
  }

  predicate IsProjectAdmin(p: Props) {
    p.showSettings == Some(true)
  }

  predicate OnlyCI(p: Props) { WantsCI(p) && !WantsPrDecoration(p) }
  predicate OnlyPrDecoration(p: Props) { WantsPrDecoration(p) && !WantsCI(p) }
  predicate Both(p: Props) { WantsCI(p) && WantsPrDecoration(p) }

  /** `FirstAnalysisNextStepsNotif`: the notice rendered, if any. */
  function NextStepsNotice(p: Props): (r: Option<Notice>)
    ensures !p.loggedIn || p.qualifier != PROJECT ==> r.None?
    ensures r.Some? ==> |r.value.alertKey| > |p.componentKey| && r.value.alertKey[|r.value.alertKey| - |p.componentKey|..] == p.componentKey
    ensures r.Some? ==> (r.value.message.SetUpCI? <==> OnlyCI(p))
  {
    if !p.loggedIn || p.qualifier != PROJECT then None
    else
      if !WantsCI(p) && !WantsPrDecoration(p) then None
      else
        var message :=
          if OnlyCI(p) then SetUpCI
          else if OnlyPrDecoration(p) then (if IsProjectAdmin(p) then SetUpPrDecoAdmin else SetUpPrDeco)
          else if IsProjectAdmin(p) then SetUpPrDecoAndCIAdmin else SetUpPrDecoAndCI;
        Some(Notice("config_ci_pr_deco." + p.componentKey, message))
  }

  /** Whether the message mentions continuous integration, and pull request decoration. */
  predicate MentionsCI(m: Message) {
    m.SetUpCI? || m.SetUpPrDecoAndCIAdmin? || m.SetUpPrDecoAndCI?
  }

  predicate MentionsPrDecoration(m: Message) {
    !m.SetUpCI?
  }

  predicate IsAdminVariant(m: Message) {
    m.SetUpPrDecoAdmin? || m.SetUpPrDecoAndCIAdmin?
  }

  datatype NoticeLink = TutorialsLink | ProjectSettingsLink

  /** The links each message carries in its `values`. */
  function LinksOf(m: Message): set<NoticeLink> {
    match m
    case SetUpCI => {TutorialsLink}
    case SetUpPrDecoAdmin => {ProjectSettingsLink}
    case SetUpPrDeco => {}
    case SetUpPrDecoAndCIAdmin => {TutorialsLink, ProjectSettingsLink}
    case SetUpPrDecoAndCI => {TutorialsLink}
  }

  /**
   * A notice is shown exactly to logged-in users on projects that want at
   * least one of the two set-ups, and its message covers exactly the wanted
   * ones.
   */
  lemma NoticeCoversExactlyWhatIsWanted(p: Props)
    ensures NextStepsNotice(p).Some? <==>
      p.loggedIn && p.qualifier == PROJECT && (WantsCI(p) || WantsPrDecoration(p))
    ensures NextStepsNotice(p).Some? ==>
      && (MentionsCI(NextStepsNotice(p).value.message) <==> WantsCI(p))
      && (MentionsPrDecoration(NextStepsNotice(p).value.message) <==> WantsPrDecoration(p))
  {
  }

  /** Whenever a notice is shown, exactly one of the three cases holds. */
  lemma ExactlyOneCase(p: Props)
    requires NextStepsNotice(p).Some?
    ensures (OnlyCI(p) || OnlyPrDecoration(p) || Both(p))
    ensures !(OnlyCI(p) && OnlyPrDecoration(p)) && !(OnlyCI(p) && Both(p)) && !(OnlyPrDecoration(p) && Both(p))
  {
  }

  /** The admin variants are chosen exactly for project admins, and never for the CI-only notice. */
  lemma AdminVariantOnlyForAdmins(p: Props)
    requires NextStepsNotice(p).Some?
    ensures var m := NextStepsNotice(p).value.message;
      IsAdminVariant(m) <==> IsProjectAdmin(p) && WantsPrDecoration(p)
  {
  }

  /**
   * A shown notice links to the tutorials exactly when CI is wanted, and to
   * the project settings exactly for a project admin who wants pull request
   * decoration.
   */
  lemma NoticeLinksMatchWhatIsWanted(p: Props)
    requires NextStepsNotice(p).Some?
    ensures TutorialsLink in LinksOf(NextStepsNotice(p).value.message) <==> WantsCI(p)
    ensures ProjectSettingsLink in LinksOf(NextStepsNotice(p).value.message) <==>
      IsProjectAdmin(p) && WantsPrDecoration(p)
  {
  }

  /** The notice is dismissed per project. */
  lemma DismissKeyIsPerProject(p: Props, q: Props)
    requires NextStepsNotice(p).Some? && NextStepsNotice(q).Some?
    ensures NextStepsNotice(p).value.alertKey == NextStepsNotice(q).value.alertKey <==>
      p.componentKey == q.componentKey
  {
    var prefix := "config_ci_pr_deco.";
    if NextStepsNotice(p).value.alertKey == NextStepsNotice(q).value.alertKey {
      assert p.componentKey == (prefix + p.componentKey)[|prefix|..];
      assert q.componentKey == (prefix + q.componentKey)[|prefix|..];
    }
  }

  /** The link queries of the notice. */
  function TutorialsLinkQuery(p: Props): (q: map<string, string>)
    ensures q.Keys == {"id"} && q["id"] == p.componentKey
  {
    map["id" := p.componentKey]
  }

  function ProjectSettingsLinkQuery(p: Props): (q: map<string, string>)
    ensures q.Keys == {"id", "category"} && q["id"] == p.componentKey
    ensures q["category"] == PULL_REQUEST_DECORATION_BINDING_CATEGORY
  {
    map["id" := p.componentKey, "category" := PULL_REQUEST_DECORATION_BINDING_CATEGORY]
  }
}
