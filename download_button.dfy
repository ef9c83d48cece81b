/**
 * The download button of the audit logs page: whether downloading is
 * possible, and the URL of the download with its date range parameters.
 * Dates are abstract timestamps; the calendar functions, the ISO
 * formatting and the URL encoding are parameters.
 */
module DownloadButton {
  import opened Wrappers

  datatype RangeOption = Today | Week | Month | Trimester | Custom

  /** A date range as picked in the calendar; either end may be missing. */
  datatype DateRange = DateRange(from: Option<int>, to: Option<int>)

  datatype Clock = Clock(
    now: int,
    startOfDay: int -> int,
    endOfDay: int -> int,
    subDays: (int, int) -> int,
    toISOString: int -> string,
    /** the form encoding `URLSearchParams` applies to a value */
    encode: string -> string)

  datatype Props = Props(dateRange: Option<DateRange>, downloadStarted: bool, selection: RangeOption)

  /** How many days back a preset range starts; `Today` starts now. */
  function PresetDays(selection: RangeOption): (days: int)
    requires selection != Custom
    ensures selection == Today ==> days == 0
    ensures selection == Week ==> days == 7
    ensures selection == Month ==> days == 30
    ensures selection == Trimester ==> days == 90
  {
    match selection
    case Today => 0
    case Week => 7
    case Month => 30
    case Trimester => 90
  }

  /** `RANGE_OPTION_START`: the moment a preset range starts. */
  function RangeOptionStart(selection: RangeOption, clock: Clock): (t: int)
    requires selection != Custom
    ensures selection == Today ==> t == clock.now
    ensures selection != Today ==> t == clock.subDays(clock.now, PresetDays(selection))
  {
    if selection == Today then clock.now else clock.subDays(clock.now, PresetDays(selection))
  }

  /** `new URLSearchParams({from, to}).toString()`. */
  function FromToParams(from: int, to: int, clock: Clock): string {
    "from=" + clock.encode(clock.toISOString(from)) + "&to=" + clock.encode(clock.toISOString(to))
  }

  predicate CompleteRange(dateRange: Option<DateRange>) {
    dateRange.Some? && dateRange.value.from.Some? && dateRange.value.to.Some?
  }

  /** `getRangeParams`. */
  function RangeParams(selection: RangeOption, dateRange: Option<DateRange>, clock: Clock): (r: string)
    ensures selection == Custom && !CompleteRange(dateRange) ==> r == ""
    ensures selection == Custom && CompleteRange(dateRange) ==>
      r == FromToParams(clock.startOfDay(dateRange.value.from.value), clock.endOfDay(dateRange.value.to.value), clock)
    ensures selection != Custom ==>
      r == FromToParams(clock.startOfDay(RangeOptionStart(selection, clock)), clock.now, clock)
  {
    if selection == Custom then
      if !CompleteRange(dateRange) then ""
      else FromToParams(clock.startOfDay(dateRange.value.from.value), clock.endOfDay(dateRange.value.to.value), clock)
    else FromToParams(clock.startOfDay(RangeOptionStart(selection, clock)), clock.now, clock)
  }

  /** `downloadDisabled`. */
  predicate DownloadDisabled(props: Props): (b: bool)
    ensures props.downloadStarted ==> b
    ensures props.selection != Custom ==> (b <==> props.downloadStarted)
  {
    props.downloadStarted || (props.selection == Custom && !CompleteRange(props.dateRange))
  }

  const DOWNLOAD_PATH := "/api/audit_logs/download?"

  /** The `href` of the button. */
  function DownloadUrl(props: Props, baseUrl: string, clock: Clock): (url: string)
    ensures url == "#" <==> DownloadDisabled(props)
    ensures !DownloadDisabled(props) ==>
      |url| >= |baseUrl| + |DOWNLOAD_PATH| && url[..|baseUrl| + |DOWNLOAD_PATH|] == baseUrl + DOWNLOAD_PATH
  {
    if DownloadDisabled(props) then "#"
    else baseUrl + DOWNLOAD_PATH + RangeParams(props.selection, props.dateRange, clock)
  }

  /** Whether the button carries the `onStartDownload` click handler. */
  predicate HasClickHandler(props: Props) {
    !DownloadDisabled(props)
  }

  /**
   * A disabled button points nowhere and does not react to clicks; an
   * enabled one points at the download of a non-empty `from`/`to` range.
   */
  lemma EnabledButtonDownloadsARange(props: Props, baseUrl: string, clock: Clock)
    ensures DownloadDisabled(props) ==> DownloadUrl(props, baseUrl, clock) == "#" && !HasClickHandler(props)
    ensures !DownloadDisabled(props) ==>
      HasClickHandler(props)
      && exists from: int, to: int ::
        DownloadUrl(props, baseUrl, clock) == baseUrl + DOWNLOAD_PATH + FromToParams(from, to, clock)
  {
    if !DownloadDisabled(props) {
      var from, to :=
        if props.selection == Custom then clock.startOfDay(props.dateRange.value.from.value)
        else clock.startOfDay(RangeOptionStart(props.selection, clock)),
        if props.selection == Custom then clock.endOfDay(props.dateRange.value.to.value) else clock.now;
      assert DownloadUrl(props, baseUrl, clock) == baseUrl + DOWNLOAD_PATH + FromToParams(from, to, clock);
    }
  }

  /** The range parameters are empty exactly for an incomplete custom range. */
  lemma EmptyParamsOnlyForIncompleteCustomRange(selection: RangeOption, dateRange: Option<DateRange>, clock: Clock)
    ensures RangeParams(selection, dateRange, clock) == "" <==> selection == Custom && !CompleteRange(dateRange)
  {
    if !(selection == Custom && !CompleteRange(dateRange)) {
      assert RangeParams(selection, dateRange, clock)[..5] == "from=";
    }
  }

  /** Whether the "download started" sentences are shown. */
  predicate ShowsDownloadStarted(props: Props) {
    props.downloadStarted
  }

  /** Once the download has started the button stays disabled, whatever the range. */
  lemma StartedDownloadDisablesButton(props: Props, baseUrl: string, clock: Clock)
    requires ShowsDownloadStarted(props)
    ensures DownloadUrl(props, baseUrl, clock) == "#"
  {
  }
}
