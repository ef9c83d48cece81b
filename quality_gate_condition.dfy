/**
 * One condition of a quality gate on the project overview: the link it
 * leads to (the issues page, the security hotspots page, or a measure
 * drilldown), the query that link carries, and the values it displays.
 */
module QualityGateCondition {
  import opened Wrappers
  import opened Strings

  /** A URL query; a key bound to `None` is present with an `undefined` value. */
  type Query = map<string, Option<string>>

  datatype Condition = Condition(
    level: string, op: string, error: Option<string>, warning: Option<string>,
    metricKey: string, metricType: string,
    /** `measure.value` */
    measureValue: Option<string>,
    /** `measure.period?.value` */
    measurePeriodValue: Option<string>,
    /** `condition.period`, the index of the new-code period */
    period: Option<int>)

  /**
   * Everything the component gets from outside: the component key, the
   * query of the branch or pull request (computed by a helper that is not
   * part of this model), and whether a metric is a "new code" metric.
   */
  datatype Props = Props(
    componentKey: string, branchLikeQuery: Query, condition: Condition, isDiffMetric: string -> bool)

  /** A drilldown names its branch or pull request by that branch's query. */
  datatype Target =
    | IssuesPage(component: string, query: Query)
    | HotspotsPage(component: string, query: Query)
    | Drilldown(component: string, metric: string, sinceLeakPeriod: bool, branchLikeQuery: Query)

  const BUG := "BUG"
  const VULNERABILITY := "VULNERABILITY"
  const CODE_SMELL := "CODE_SMELL"

  // ---------------------------------------------------------------------------
  // Queries
  // ---------------------------------------------------------------------------

  function SinceLeakPeriodQuery(sinceLeakPeriod: bool): Query {
    if sinceLeakPeriod then map["sinceLeakPeriod" := Some("true")] else map[]
  }

  /** `getIssuesUrl`'s query: later sources override earlier ones. */
  function IssuesQuery(branchLikeQuery: Query, custom: Query, sinceLeakPeriod: bool): (q: Query)
    ensures q.Keys == {"resolved"} + branchLikeQuery.Keys + custom.Keys
      + (if sinceLeakPeriod then {"sinceLeakPeriod"} else {})
    ensures sinceLeakPeriod ==> q["sinceLeakPeriod"] == Some("true")
    ensures forall k :: k in custom && !(sinceLeakPeriod && k == "sinceLeakPeriod") ==> q[k] == custom[k]
    ensures forall k :: k in branchLikeQuery && k !in custom && !(sinceLeakPeriod && k == "sinceLeakPeriod") ==>
      q[k] == branchLikeQuery[k]
    ensures "resolved" !in branchLikeQuery && "resolved" !in custom ==> q["resolved"] == Some("false")
  {
    map["resolved" := Some("false")] + branchLikeQuery + custom + SinceLeakPeriodQuery(sinceLeakPeriod)
  }

  /** `getUrlForSecurityHotspot`'s query. */
  function HotspotsQuery(branchLikeQuery: Query, sinceLeakPeriod: bool): (q: Query)
    ensures q.Keys == branchLikeQuery.Keys + (if sinceLeakPeriod then {"sinceLeakPeriod"} else {})
    ensures "resolved" in q <==> "resolved" in branchLikeQuery
    ensures sinceLeakPeriod ==> q["sinceLeakPeriod"] == Some("true")
    ensures forall k :: k in branchLikeQuery && !(sinceLeakPeriod && k == "sinceLeakPeriod") ==>
      q[k] == branchLikeQuery[k]
  {
    branchLikeQuery + SinceLeakPeriodQuery(sinceLeakPeriod)
  }

  // ---------------------------------------------------------------------------
  // Rating thresholds
  // ---------------------------------------------------------------------------

  /** The severities from most to least severe. */
  const SEVERITIES: seq<string> := ["BLOCKER", "CRITICAL", "MAJOR", "MINOR"]

  /** The threshold the condition's level refers to. */
  function Threshold(c: Condition): (t: Option<string>)
    ensures c.level == "ERROR" ==> t == c.error
    ensures c.level != "ERROR" ==> t == c.warning
  {
    if c.level == "ERROR" then c.error else c.warning
  }

  /** `RATING_TO_SEVERITIES_MAPPING`, indexed by the rating less one. */
  const RATING_TO_SEVERITIES: seq<string> :=
    ["BLOCKER,CRITICAL,MAJOR,MINOR", "BLOCKER,CRITICAL,MAJOR", "BLOCKER,CRITICAL", "BLOCKER"]

  /** The rating whose decimal spelling is `t`, when it is 1 to 4; 0 otherwise. */
  function RatingOf(t: string): int {
    if t == "1" then 1 else if t == "2" then 2 else if t == "3" then 3 else if t == "4" then 4 else 0
  }

  /**
   * `RATING_TO_SEVERITIES_MAPPING[Number(threshold) - 1]`: ratings 1 to 4
   * give a list, any other threshold falls outside the table.
   */
  function SeveritiesFor(threshold: Option<string>): (r: Option<string>)
    ensures r.Some? <==> threshold.Some? && threshold.value in {"1", "2", "3", "4"}
    ensures r.Some? ==> r.value in RATING_TO_SEVERITIES
  {
    if threshold.Some? && 1 <= RatingOf(threshold.value) <= 4 then
      Some(RATING_TO_SEVERITIES[RatingOf(threshold.value) - 1])
    else None
  }

  /** Entry `i` of the table joins the `4 - i` most severe severities. */
  lemma {:induction false} SeverityListIsJoined(i: nat)
    requires i < 4
    ensures RATING_TO_SEVERITIES[i] == Join(SEVERITIES[..4 - i], ",")
    decreases 4 - i
  {
    if i == 3 {
      assert SEVERITIES[..1] == ["BLOCKER"];
    } else {
      SeverityListIsJoined(i + 1);
      assert SEVERITIES[..4 - i] == SEVERITIES[..3 - i] + [SEVERITIES[3 - i]];
      JoinSnoc(SEVERITIES[..3 - i], SEVERITIES[3 - i], ",");
      if i == 0 {
        assert RATING_TO_SEVERITIES[0] == RATING_TO_SEVERITIES[1] + "," + "MINOR";
      } else if i == 1 {
        assert RATING_TO_SEVERITIES[1] == RATING_TO_SEVERITIES[2] + "," + "MAJOR";
      } else {
        assert RATING_TO_SEVERITIES[2] == RATING_TO_SEVERITIES[3] + "," + "CRITICAL";
      }
    }
  }

  /**
   * A worse-than-`t` rating condition lists the `5 - t` most severe
   * severities: the issues that can lower the rating to `t` or below.
   */
  lemma SeveritiesAreTheMostSevereOnes(threshold: Option<string>)
    ensures threshold.Some? && 1 <= RatingOf(threshold.value) <= 4 ==>
      SeveritiesFor(threshold) == Some(Join(SEVERITIES[..5 - RatingOf(threshold.value)], ","))
    ensures (threshold.None? || RatingOf(threshold.value) == 0) ==> SeveritiesFor(threshold).None?
  {
    if threshold.Some? && 1 <= RatingOf(threshold.value) <= 4 {
      SeverityListIsJoined(RatingOf(threshold.value) - 1);
    }
  }

  /** A stricter threshold lists fewer severities, each of them also listed by a looser one. */
  lemma StricterRatingListsPrefix(t: string, u: string)
    requires 1 <= RatingOf(t) <= RatingOf(u) <= 4
    ensures SEVERITIES[..5 - RatingOf(u)] <= SEVERITIES[..5 - RatingOf(t)]
  {
  }

  // ---------------------------------------------------------------------------
  // The link
  // ---------------------------------------------------------------------------

  /** The keys of `METRICS_TO_URL_MAPPING`. */
  datatype LinkedMetric =
    | ReliabilityRating | NewReliabilityRating
    | SecurityRating | NewSecurityRating
    | SqaleRating | NewMaintainabilityRating
    | SecurityHotspotsReviewed | NewSecurityHotspotsReviewed

  /** The key of an entry; the new-code entries are exactly those whose key starts with `new_`. */
  function MetricKeyOf(m: LinkedMetric): (key: string)
    ensures IsNewCodeMetric(m) <==> StartsWithNew(key)
  {
    var key := match m
      case ReliabilityRating => "reliability_rating"
      case NewReliabilityRating => "new_reliability_rating"
      case SecurityRating => "security_rating"
      case NewSecurityRating => "new_security_rating"
      case SqaleRating => "sqale_rating"
      case NewMaintainabilityRating => "new_maintainability_rating"
      case SecurityHotspotsReviewed => "security_hotspots_reviewed"
      case NewSecurityHotspotsReviewed => "new_security_hotspots_reviewed";
    assert key[0] == 'n' <==> IsNewCodeMetric(m);
    key
  }

  /** `METRICS_TO_URL_MAPPING[metricKey]`: the entry of the table for a metric key, if any. */
  function LinkedMetricOf(key: string): (r: Option<LinkedMetric>)
    ensures r.Some? ==> MetricKeyOf(r.value) == key
    ensures r.None? ==> forall m :: MetricKeyOf(m) != key
  {
    if key == "reliability_rating" then Some(ReliabilityRating)
    else if key == "new_reliability_rating" then Some(NewReliabilityRating)
    else if key == "security_rating" then Some(SecurityRating)
    else if key == "new_security_rating" then Some(NewSecurityRating)
    else if key == "sqale_rating" then Some(SqaleRating)
    else if key == "new_maintainability_rating" then Some(NewMaintainabilityRating)
    else if key == "security_hotspots_reviewed" then Some(SecurityHotspotsReviewed)
    else if key == "new_security_hotspots_reviewed" then Some(NewSecurityHotspotsReviewed)
    else None
  }

  /** The metrics whose link is restricted to new code. */
  predicate IsNewCodeMetric(m: LinkedMetric) {
    m.NewReliabilityRating? || m.NewSecurityRating? || m.NewMaintainabilityRating? || m.NewSecurityHotspotsReviewed?
  }

  predicate StartsWithNew(key: string) {
    |key| >= 4 && key[..4] == "new_"
  }

  /** No two entries of the table share a key. */
  lemma MetricKeysAreDistinct(m: LinkedMetric, n: LinkedMetric)
    ensures MetricKeyOf(m) == MetricKeyOf(n) <==> m == n
  {
    if MetricKeyOf(m) == MetricKeyOf(n) {
      assert LinkedMetricOf(MetricKeyOf(m)) == Some(m);
    }
  }

  function BugsOrVulnerabilitiesTarget(props: Props, issueType: string, sinceLeakPeriod: bool): Target {
    IssuesPage(props.componentKey,
      IssuesQuery(props.branchLikeQuery,
        map["types" := Some(issueType), "severities" := SeveritiesFor(Threshold(props.condition))],
        sinceLeakPeriod))
  }

  function CodeSmellsTarget(props: Props, sinceLeakPeriod: bool): Target {
    IssuesPage(props.componentKey,
      IssuesQuery(props.branchLikeQuery, map["types" := Some(CODE_SMELL)], sinceLeakPeriod))
  }

  function HotspotsTarget(props: Props, sinceLeakPeriod: bool): Target {
    HotspotsPage(props.componentKey, HotspotsQuery(props.branchLikeQuery, sinceLeakPeriod))
  }

  /**
   * The value of `METRICS_TO_URL_MAPPING` for an entry: the issues page or,
   * for the two hotspot metrics, the hotspots page, of the condition's
   * component.
   */
  function LinkTarget(props: Props, m: LinkedMetric): (t: Target)
    ensures t.component == props.componentKey
    ensures t.IssuesPage? || t.HotspotsPage?
    ensures t.HotspotsPage? <==> m == SecurityHotspotsReviewed || m == NewSecurityHotspotsReviewed
  {
    match m
    case ReliabilityRating => BugsOrVulnerabilitiesTarget(props, BUG, false)
    case NewReliabilityRating => BugsOrVulnerabilitiesTarget(props, BUG, true)
    case SecurityRating => BugsOrVulnerabilitiesTarget(props, VULNERABILITY, false)
    case NewSecurityRating => BugsOrVulnerabilitiesTarget(props, VULNERABILITY, true)
    case SqaleRating => CodeSmellsTarget(props, false)
    case NewMaintainabilityRating => CodeSmellsTarget(props, true)
    case SecurityHotspotsReviewed => HotspotsTarget(props, false)
    case NewSecurityHotspotsReviewed => HotspotsTarget(props, true)
  }

  /**
   * `wrapWithLink`: where the condition leads. A metric of the table leads
   * to its entry's page; every other metric leads to its own drilldown on
   * the same branch or pull request, restricted to new code when the
   * condition has a period.
   */
  function TargetOf(props: Props): (t: Target)
    ensures var key := props.condition.metricKey; var r := LinkedMetricOf(key);
      && t.component == props.componentKey
      && (r.None? <==> t.Drilldown?)
      && (r.Some? ==> t == LinkTarget(props, r.value) && MetricKeyOf(r.value) == key)
      && (t.Drilldown? ==> t.metric == key && (t.sinceLeakPeriod <==> props.condition.period.Some?))
      && (t.Drilldown? ==> t.branchLikeQuery == props.branchLikeQuery)
  {
    var key := props.condition.metricKey;
    match LinkedMetricOf(key)
    case Some(m) => LinkTarget(props, m)
    case None => Drilldown(props.componentKey, key, props.condition.period.Some?, props.branchLikeQuery)
  }

  /** An entry's page is restricted to new code exactly when the metric key starts with `new_`. */
  lemma LinkedTargetIsNewCodeForNewMetrics(props: Props, m: LinkedMetric)
    requires "sinceLeakPeriod" !in props.branchLikeQuery
    ensures ("sinceLeakPeriod" in LinkTarget(props, m).query) <==> StartsWithNew(MetricKeyOf(m))
  {
  }

  /**
   * The issues page lists unresolved issues of the metric's type: bugs for
   * reliability, vulnerabilities for security (both with the severities of
   * the threshold), code smells for maintainability.
   */
  lemma IssuesTargetQueryMatchesMetric(props: Props, m: LinkedMetric)
    requires "resolved" !in props.branchLikeQuery
    ensures var t := LinkTarget(props, m);
      && (t.IssuesPage? ==> t.query["resolved"] == Some("false") && "types" in t.query)
      && (t.IssuesPage? ==> (t.query["types"] == Some(CODE_SMELL) <==>
            m == SqaleRating || m == NewMaintainabilityRating))
      && (m == ReliabilityRating || m == NewReliabilityRating ==>
            t.IssuesPage? && t.query["types"] == Some(BUG)
            && t.query["severities"] == SeveritiesFor(Threshold(props.condition)))
      && (m == SecurityRating || m == NewSecurityRating ==>
            t.IssuesPage? && t.query["types"] == Some(VULNERABILITY)
            && t.query["severities"] == SeveritiesFor(Threshold(props.condition)))
  {
  }

  // ---------------------------------------------------------------------------
  // Displayed values
  // ---------------------------------------------------------------------------

  /** The value shown: the new-code value when the condition has a (truthy) period. */
  function ActualValue(c: Condition): (v: Option<string>)
    ensures c.period.Some? && c.period.value != 0 ==> v == c.measurePeriodValue
    ensures c.period.None? || c.period.value == 0 ==> v == c.measureValue
  {
    if c.period.Some? && c.period.value != 0 then c.measurePeriodValue else c.measureValue
  }

  /** The "on new code" label is shown for a period condition on a metric that is not itself a new-code metric. */
  predicate ShowsNewCodeLabel(props: Props) {
    !props.isDiffMetric(props.condition.metricKey) && props.condition.period.Some?
  }

  /** The translation key parts of the operator label. */
  function OperatorLabelKey(c: Condition): (k: seq<string>)
    ensures |k| >= 2 && k[..2] == ["quality_gates.operator", c.op]
    ensures |k| == 3 <==> c.metricType == "RATING"
  {
    if c.metricType == "RATING" then ["quality_gates.operator", c.op, "rating"]
    else ["quality_gates.operator", c.op]
  }

  /**
   * The displayed value and the drilldown disagree on a period of 0: the
   * drilldown is restricted to new code while the value shown is the
   * overall one.
   */
  lemma PeriodZeroShowsOverallValueButNewCodeDrilldown(props: Props)
    requires props.condition.period == Some(0)
    requires LinkedMetricOf(props.condition.metricKey).None?
    ensures ActualValue(props.condition) == props.condition.measureValue
    ensures TargetOf(props).Drilldown? && TargetOf(props).sinceLeakPeriod
  {
  }

  /**
   * The "on new code" label never shows for a new-code metric; otherwise it
   * shows exactly when a drilldown is restricted to new code, also for a
   * period of 0, whose displayed value is the overall one.
   */
  lemma NewCodeLabelFollowsTheDrilldown(props: Props)
    ensures props.isDiffMetric(props.condition.metricKey) ==> !ShowsNewCodeLabel(props)
    ensures !props.isDiffMetric(props.condition.metricKey) && LinkedMetricOf(props.condition.metricKey).None? ==>
      (ShowsNewCodeLabel(props) <==> TargetOf(props).sinceLeakPeriod)
    ensures !props.isDiffMetric(props.condition.metricKey) && props.condition.period == Some(0) ==>
      ShowsNewCodeLabel(props) && ActualValue(props.condition) == props.condition.measureValue
  {
  }
}
