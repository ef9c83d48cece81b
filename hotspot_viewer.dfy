/**
 * The panel showing one security hotspot: loading its details, reacting to
 * an update of the hotspot (a status change or another edit), and the
 * success dialog that offers to switch the list to the new status.
 * Requests to the server and calls to the parent are recorded in order.
 */
module HotspotViewer {
  import opened Wrappers

  /** The details of a hotspot, as the server returns them. */
  datatype Hotspot = Hotspot(key: string, details: string)

  class HotspotViewer {
    /** `getStatusFilterFromStatusOption`, a helper that is not part of this model. */
    const statusFilterOf: string -> string

    var hotspotKey: string
    var mounted: bool

    var hotspot: Option<Hotspot>
    /** The status option last chosen; `None` when undefined. */
    var lastStatusChangedTo: Option<string>
    var loading: bool
    var showStatusUpdateSuccessModal: bool

    /** `getSecurityHotspotDetails` requests, `onUpdateHotspot` and `onSwitchStatusFilter` calls. */
    var detailRequests: seq<string>
    var parentUpdates: seq<string>
    var filterSwitches: seq<string>

    constructor (hotspotKey: string, statusFilterOf: string -> string)
      ensures this.hotspotKey == hotspotKey && this.statusFilterOf == statusFilterOf && !mounted
      ensures hotspot.None? && lastStatusChangedTo.None? && !loading && !showStatusUpdateSuccessModal
      ensures detailRequests == [] && parentUpdates == [] && filterSwitches == []
    {
      this.hotspotKey := hotspotKey;
      this.statusFilterOf := statusFilterOf;
      mounted := false;
      hotspot := None;
      lastStatusChangedTo := None;
      loading := false;
      showStatusUpdateSuccessModal := false;
      detailRequests := [];
      parentUpdates := [];
      filterSwitches := [];
    }

    /** `fetchHotspot`, the request being sent. */
    method FetchHotspot()
      modifies this
      ensures loading && detailRequests == old(detailRequests) + [hotspotKey]
      ensures hotspotKey == old(hotspotKey) && mounted == old(mounted) && hotspot == old(hotspot)
      ensures lastStatusChangedTo == old(lastStatusChangedTo)
      ensures showStatusUpdateSuccessModal == old(showStatusUpdateSuccessModal)
      ensures parentUpdates == old(parentUpdates) && filterSwitches == old(filterSwitches)
    {
      loading := true;
      detailRequests := detailRequests + [hotspotKey];
    }

    /**
     * `fetchHotspot`, completion: `result` is `None` when the request
     * failed. The state changes only while mounted; a loaded hotspot is
     * handed back either way.
     */
    method HotspotFetched(result: Option<Hotspot>) returns (r: Option<Hotspot>)
      modifies this
      ensures r == result
      ensures old(mounted) && result.Some? ==> hotspot == result && !loading
      ensures old(mounted) && result.None? ==> hotspot == old(hotspot) && !loading
      ensures !old(mounted) ==> hotspot == old(hotspot) && loading == old(loading)
      ensures hotspotKey == old(hotspotKey) && mounted == old(mounted)
      ensures lastStatusChangedTo == old(lastStatusChangedTo)
      ensures showStatusUpdateSuccessModal == old(showStatusUpdateSuccessModal)
      ensures detailRequests == old(detailRequests)
      ensures parentUpdates == old(parentUpdates) && filterSwitches == old(filterSwitches)
    {
      if mounted {
        if result.Some? {
          hotspot := result;
        }
        loading := false;
      }
      r := result;
    }

    method DidMount()
      modifies this
      ensures mounted && loading && detailRequests == old(detailRequests) + [hotspotKey]
      ensures hotspotKey == old(hotspotKey) && hotspot == old(hotspot)
      ensures lastStatusChangedTo == old(lastStatusChangedTo)
      ensures showStatusUpdateSuccessModal == old(showStatusUpdateSuccessModal)
      ensures parentUpdates == old(parentUpdates) && filterSwitches == old(filterSwitches)
    {
      mounted := true;
      FetchHotspot();
    }

    /** `componentDidUpdate` after the parent passed `newKey`: refetch only for another hotspot. */
    method DidUpdate(newKey: string)
      modifies this
      ensures hotspotKey == newKey
      ensures newKey != old(hotspotKey) ==> loading && detailRequests == old(detailRequests) + [newKey]
      ensures newKey == old(hotspotKey) ==> loading == old(loading) && detailRequests == old(detailRequests)
      ensures mounted == old(mounted) && hotspot == old(hotspot)
      ensures lastStatusChangedTo == old(lastStatusChangedTo)
      ensures showStatusUpdateSuccessModal == old(showStatusUpdateSuccessModal)
      ensures parentUpdates == old(parentUpdates) && filterSwitches == old(filterSwitches)
    {
      var previousKey := hotspotKey;
      hotspotKey := newKey;
      if previousKey != newKey {
        FetchHotspot();
      }
    }

    method WillUnmount()
      modifies this
      ensures !mounted
      ensures hotspotKey == old(hotspotKey) && hotspot == old(hotspot) && loading == old(loading)
      ensures lastStatusChangedTo == old(lastStatusChangedTo)
      ensures showStatusUpdateSuccessModal == old(showStatusUpdateSuccessModal)
      ensures detailRequests == old(detailRequests)
      ensures parentUpdates == old(parentUpdates) && filterSwitches == old(filterSwitches)
    {
      mounted := false;
    }

    /**
     * `handleHotspotUpdate`: a status change records the chosen option,
     * opens the success dialog and tells the parent; any other edit only
     * reloads the hotspot.
     */
    method HandleHotspotUpdate(statusUpdate: bool, statusOption: Option<string>)
      modifies this
      ensures statusUpdate ==>
        && lastStatusChangedTo == statusOption && showStatusUpdateSuccessModal
        && parentUpdates == old(parentUpdates) + [hotspotKey]
        && loading == old(loading) && detailRequests == old(detailRequests)
      ensures !statusUpdate ==>
        && lastStatusChangedTo == old(lastStatusChangedTo)
        && showStatusUpdateSuccessModal == old(showStatusUpdateSuccessModal)
        && parentUpdates == old(parentUpdates)
        && loading && detailRequests == old(detailRequests) + [hotspotKey]
      ensures hotspotKey == old(hotspotKey) && mounted == old(mounted) && hotspot == old(hotspot)
      ensures filterSwitches == old(filterSwitches)
    {
      if statusUpdate {
        lastStatusChangedTo := statusOption;
        showStatusUpdateSuccessModal := true;
        parentUpdates := parentUpdates + [hotspotKey];
      } else {
        FetchHotspot();
      }
    }

    /** `handleSwitchFilterToStatusOfUpdatedHotspot`: only after a (truthy) status was chosen. */
    method HandleSwitchFilterToStatusOfUpdatedHotspot()
      modifies this
      ensures TruthyString(lastStatusChangedTo) ==>
        filterSwitches == old(filterSwitches) + [statusFilterOf(lastStatusChangedTo.value)]
      ensures !TruthyString(lastStatusChangedTo) ==> filterSwitches == old(filterSwitches)
      ensures hotspotKey == old(hotspotKey) && mounted == old(mounted) && hotspot == old(hotspot)
      ensures loading == old(loading) && lastStatusChangedTo == old(lastStatusChangedTo)
      ensures showStatusUpdateSuccessModal == old(showStatusUpdateSuccessModal)
      ensures detailRequests == old(detailRequests) && parentUpdates == old(parentUpdates)
    {
      if TruthyString(lastStatusChangedTo) {
        filterSwitches := filterSwitches + [statusFilterOf(lastStatusChangedTo.value)];
      }
    }

    method HandleCloseStatusUpdateSuccessModal()
      modifies this
      ensures !showStatusUpdateSuccessModal
      ensures hotspotKey == old(hotspotKey) && mounted == old(mounted) && hotspot == old(hotspot)
      ensures loading == old(loading) && lastStatusChangedTo == old(lastStatusChangedTo)
      ensures detailRequests == old(detailRequests)
      ensures parentUpdates == old(parentUpdates) && filterSwitches == old(filterSwitches)
    {
      showStatusUpdateSuccessModal := false;
    }
  }

  /** A mounted viewer whose request fails ends up not loading, with no hotspot. */
  method LoadingResetOnFetchError(key: string, statusFilterOf: string -> string) returns (viewer: HotspotViewer)
    ensures !viewer.loading && viewer.hotspot.None? && viewer.detailRequests == [key]
  {
    viewer := new HotspotViewer(key, statusFilterOf);
    viewer.DidMount();
    var _ := viewer.HotspotFetched(None);
  }

  /**
   * Once unmounted while its first request is pending, an edit of the
   * hotspot leaves the viewer's state as it was, and so does the answer.
   */
  method UnmountedViewerKeepsItsState(key: string, statusFilterOf: string -> string, answer: Option<Hotspot>)
    returns (viewer: HotspotViewer)
    ensures viewer.loading && viewer.hotspot.None? && viewer.lastStatusChangedTo.None?
    ensures !viewer.showStatusUpdateSuccessModal && viewer.parentUpdates == []
  {
    viewer := new HotspotViewer(key, statusFilterOf);
    viewer.DidMount();
    viewer.WillUnmount();
    viewer.HandleHotspotUpdate(false, None);
    var _ := viewer.HotspotFetched(answer);
  }

  /** A status change followed by the switch request switches to that status's filter. */
  method StatusChangeThenSwitchFilter(key: string, statusFilterOf: string -> string, option: string)
    returns (viewer: HotspotViewer)
    requires option != ""
    ensures viewer.filterSwitches == [statusFilterOf(option)] && viewer.parentUpdates == [key]
  {
    viewer := new HotspotViewer(key, statusFilterOf);
    viewer.DidMount();
    viewer.HandleHotspotUpdate(true, Some(option));
    viewer.HandleSwitchFilterToStatusOfUpdatedHotspot();
  }
}
