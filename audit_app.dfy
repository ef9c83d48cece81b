/**
 * The audit logs page: the selected date range, whether a download was
 * started, the housekeeping policy it shows, and the setting it fetches
 * when it is mounted.
 */
module AuditApp {
  import opened Wrappers
  import opened DownloadButton

  datatype HousekeepingPolicy = Weekly | Monthly | Trimester | Yearly

  const AUDIT_HOUSEKEEPING_SETTING := "sonar.dbcleaner.auditHousekeeping"

  /** An admin page contributed by an extension. */
  datatype AdminPage = AdminPage(key: string, name: string)

  /**
   * `mapStateToProps`: the extension is present when some admin page has the
   * governance console's key (that key is defined outside this model).
   */
  function HasGovernanceExtension(adminPages: Option<seq<AdminPage>>, governanceConsoleKey: string): (b: bool)
    ensures b <==> adminPages.Some? && exists i :: 0 <= i < |adminPages.value| && adminPages.value[i].key == governanceConsoleKey
  {
    adminPages.Some? && FindPage(adminPages.value, governanceConsoleKey).Some?
  }

  /** `find`: the first page with the key. */
  function FindPage(pages: seq<AdminPage>, key: string): (r: Option<AdminPage>)
    ensures r.Some? <==> exists i :: 0 <= i < |pages| && pages[i].key == key
    ensures r.Some? ==> r.value.key == key && r.value in pages
  {
    if |pages| == 0 then None
    else if pages[0].key == key then Some(pages[0])
    else
      var r := FindPage(pages[1..], key);
      assert forall i :: 0 < i < |pages| ==> pages[i] == pages[1..][i - 1];
      r
  }

  /** The policy shown: the setting's value, or monthly when it is not set. */
  function ShownPolicy(auditHousekeepingPolicy: Option<HousekeepingPolicy>): (p: HousekeepingPolicy)
    ensures auditHousekeepingPolicy.Some? ==> p == auditHousekeepingPolicy.value
    ensures auditHousekeepingPolicy.None? ==> p == Monthly
  {
    auditHousekeepingPolicy.GetOr(Monthly)
  }

  /** What the renderer receives. */
  datatype RendererProps = RendererProps(
    housekeepingPolicy: HousekeepingPolicy, dateRange: Option<DateRange>,
    downloadStarted: bool, selection: RangeOption)

  class AuditApp {
    const hasGovernanceExtension: bool
    const auditHousekeepingPolicy: Option<HousekeepingPolicy>

    var dateRange: Option<DateRange>
    var downloadStarted: bool
    var selection: RangeOption
    /** A `setTimeout` callback that will mark the download as started is pending. */
    var downloadStartPending: bool
    /** The keys passed to `fetchValues`, in order. */
    var fetchedSettings: seq<string>

    constructor (hasGovernanceExtension: bool, auditHousekeepingPolicy: Option<HousekeepingPolicy>)
      ensures this.hasGovernanceExtension == hasGovernanceExtension
      ensures this.auditHousekeepingPolicy == auditHousekeepingPolicy
      ensures dateRange.None? && !downloadStarted && selection == Today
      ensures !downloadStartPending && fetchedSettings == []
    {
      this.hasGovernanceExtension := hasGovernanceExtension;
      this.auditHousekeepingPolicy := auditHousekeepingPolicy;
      dateRange := None;
      downloadStarted := false;
      selection := Today;
      downloadStartPending := false;
      fetchedSettings := [];
    }

    /** `componentDidMount`: the housekeeping setting is fetched only with the governance extension. */
    method DidMount()
      modifies this
      ensures fetchedSettings == old(fetchedSettings) + (if hasGovernanceExtension then [AUDIT_HOUSEKEEPING_SETTING] else [])
      ensures dateRange == old(dateRange) && downloadStarted == old(downloadStarted) && selection == old(selection)
      ensures downloadStartPending == old(downloadStartPending)
    {
      if hasGovernanceExtension {
        fetchedSettings := fetchedSettings + [AUDIT_HOUSEKEEPING_SETTING];
      }
    }

    /** Picking dates in the calendar switches to a custom range. */
    method HandleDateSelection(range: DateRange)
      modifies this
      ensures dateRange == Some(range) && !downloadStarted && selection == Custom
      ensures downloadStartPending == old(downloadStartPending) && fetchedSettings == old(fetchedSettings)
    {
      dateRange := Some(range);
      downloadStarted := false;
      selection := Custom;
    }

    /** Picking a range option forgets the calendar dates. */
    method HandleOptionSelection(option: RangeOption)
      modifies this
      ensures dateRange.None? && !downloadStarted && selection == option
      ensures downloadStartPending == old(downloadStartPending) && fetchedSettings == old(fetchedSettings)
    {
      dateRange := None;
      downloadStarted := false;
      selection := option;
    }

    /** A click on the download button only schedules the state change. */
    method HandleStartDownload()
      modifies this
      ensures downloadStartPending
      ensures dateRange == old(dateRange) && downloadStarted == old(downloadStarted) && selection == old(selection)
      ensures fetchedSettings == old(fetchedSettings)
    {
      downloadStartPending := true;
    }

    /** The scheduled callback runs: it sets only `downloadStarted`. */
    method RunPendingTimeout()
      modifies this
      ensures !downloadStartPending
      ensures downloadStarted == (old(downloadStarted) || old(downloadStartPending))
      ensures dateRange == old(dateRange) && selection == old(selection) && fetchedSettings == old(fetchedSettings)
    {
      if downloadStartPending {
        downloadStarted := true;
        downloadStartPending := false;
      }
    }

    /** `render`: nothing without the governance extension. */
    function Render(): (r: Option<RendererProps>)
      reads this
      ensures r.Some? <==> hasGovernanceExtension
      ensures r.Some? ==> r.value == RendererProps(ShownPolicy(auditHousekeepingPolicy), dateRange, downloadStarted, selection)
    {
      if hasGovernanceExtension
      then Some(RendererProps(ShownPolicy(auditHousekeepingPolicy), dateRange, downloadStarted, selection))
      else None
    }

    /** The download button's props, as the renderer passes them on. */
    function ButtonProps(): (p: Props)
      reads this
      ensures p.dateRange == dateRange && p.downloadStarted == downloadStarted && p.selection == selection
      ensures !DownloadDisabled(p) <==> !downloadStarted && (selection != Custom || CompleteRange(dateRange))
    {
      Props(dateRange, downloadStarted, selection)
    }
  }

  /**
   * After a date selection, with both ends picked, the page can download
   * again: the download button is enabled.
   */
  lemma CompleteDateSelectionEnablesDownload(range: DateRange)
    requires range.from.Some? && range.to.Some?
    ensures !DownloadDisabled(Props(Some(range), false, Custom))
  {
  }

  /** A half-picked custom range keeps the download button disabled. */
  lemma IncompleteDateSelectionDisablesDownload(range: DateRange)
    requires range.from.None? || range.to.None?
    ensures DownloadDisabled(Props(Some(range), false, Custom))
  {
  }

  /** Any preset option selection enables the download. */
  lemma PresetSelectionEnablesDownload(option: RangeOption)
    requires option != Custom
    ensures !DownloadDisabled(Props(None, false, option))
  {
  }

  /** A started download disables the button until another range option is picked. */
  method StartDownloadThenPickOption(app: AuditApp, option: RangeOption)
    requires option != Custom
    modifies app
    ensures !DownloadDisabled(app.ButtonProps())
  {
    app.HandleStartDownload();
    app.RunPendingTimeout();
    assert DownloadDisabled(app.ButtonProps());
    app.HandleOptionSelection(option);
  }
}
