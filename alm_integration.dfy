/**
 * The DevOps platform integration settings page: the tab shown, the list of
 * binding definitions per platform, the validation status of each
 * definition, and the deletion flow. Every call to the server is split into
 * the method that starts it and the method that handles its completion.
 */
module AlmIntegration {
  import opened Wrappers

  datatype AlmKey = Azure | BitbucketServer | BitbucketCloud | GitHub | GitLab

  /** The order in which the platforms' definitions are validated on load. */
  const VALIDATION_ORDER: seq<AlmKey> := [Azure, BitbucketCloud, BitbucketServer, GitHub, GitLab]

  datatype Definition = Definition(key: string)

  /** The binding definitions, one list per platform. */
  datatype Definitions = Definitions(
    azure: seq<Definition>, bitbucketServer: seq<Definition>, bitbucketCloud: seq<Definition>,
    github: seq<Definition>, gitlab: seq<Definition>)
  {
    function Of(alm: AlmKey): seq<Definition> {
      match alm
      case Azure => azure
      case BitbucketServer => bitbucketServer
      case BitbucketCloud => bitbucketCloud
      case GitHub => github
      case GitLab => gitlab
    }
  }

  function EmptyDefinitions(): (defs: Definitions)
    ensures forall alm :: defs.Of(alm) == []
  {
    Definitions([], [], [], [], [])
  }

  datatype StatusType = Validating | Success | Failure | Warning

  /** A definition's status; the fields are optional, as a spread of `undefined` leaves them out. */
  datatype BindingStatus = BindingStatus(
    alertSuccess: Option<bool>, failureMessage: Option<string>, statusType: Option<StatusType>)

  /** How a call to the validation service ended. */
  datatype ValidationOutcome = Returned(failureMessage: string) | Threw

  datatype CheckRequest = CheckRequest(definitionKey: string, alertSuccess: bool)

  /** A navigation pushed to the router: the tab in the query, and an empty hash. */
  datatype Location = Location(alm: AlmKey, hash: string)

  /** The tab the page opens on, from the `alm` query parameter (`None` when absent or empty). */
  function InitialTab(queryAlm: Option<AlmKey>): (tab: AlmKey)
    ensures tab != BitbucketCloud
    ensures queryAlm.None? ==> tab == GitHub
    ensures queryAlm.Some? && queryAlm.value != BitbucketCloud ==> tab == queryAlm.value
    ensures queryAlm == Some(BitbucketCloud) ==> tab == BitbucketServer
  {
    var tab := queryAlm.GetOr(GitHub);
    if tab == BitbucketCloud then BitbucketServer else tab
  }

  /** The status while a check runs: the previous fields stay, the type becomes `Validating`. */
  function MarkValidating(previous: Option<BindingStatus>): (s: BindingStatus)
    ensures s.statusType == Some(Validating)
    ensures previous.Some? ==> s.alertSuccess == previous.value.alertSuccess && s.failureMessage == previous.value.failureMessage
    ensures previous.None? ==> s.alertSuccess.None? && s.failureMessage.None?
  {
    match previous
    case None => BindingStatus(None, None, Some(Validating))
    case Some(p) => BindingStatus(p.alertSuccess, p.failureMessage, Some(Validating))
  }

  function Lookup(m: map<string, BindingStatus>, key: string): Option<BindingStatus> {
    if key in m then Some(m[key]) else None
  }

  /** The statuses after checks were started for `keys`, one after the other. */
  function MarkAllValidating(m: map<string, BindingStatus>, keys: seq<string>): map<string, BindingStatus>
  {
    if |keys| == 0 then m
    else
      var before := MarkAllValidating(m, keys[..|keys| - 1]);
      before[keys[|keys| - 1] := MarkValidating(Lookup(before, keys[|keys| - 1]))]
  }

  /**
   * Starting checks for several keys marks each of them as validating,
   * keeping its earlier fields, and leaves every other key alone.
   */
  lemma {:induction false} MarkAllValidatingEffect(m: map<string, BindingStatus>, keys: seq<string>)
    ensures var r := MarkAllValidating(m, keys);
      && (forall k :: k in r ==> k in m || k in keys)
      && (forall k :: k in keys ==> k in r && r[k] == MarkValidating(Lookup(m, k)))
      && (forall k :: k in m && k !in keys ==> k in r && r[k] == m[k])
  {
    if |keys| > 0 {
      var init := keys[..|keys| - 1];
      var last := keys[|keys| - 1];
      MarkAllValidatingEffect(m, init);
      var before := MarkAllValidating(m, init);
      assert forall k :: k in keys <==> k in init || k == last by {
        assert keys == init + [last];
      }
      if last in init {
        assert Lookup(before, last) == Some(MarkValidating(Lookup(m, last)));
      } else if last in m {
        assert Lookup(before, last) == Lookup(m, last);
      } else {
        assert last !in before;
      }
    }
  }

  /** The outcome of a check: its type and the failure message kept with it. */
  function Classify(outcome: ValidationOutcome): (r: (StatusType, string))
    ensures outcome.Threw? ==> r == (Warning, "")
    ensures outcome.Returned? && outcome.failureMessage != "" ==> r == (Failure, outcome.failureMessage)
    ensures outcome.Returned? && outcome.failureMessage == "" ==> r == (Success, "")
  {
    match outcome
    case Threw => (Warning, "")
    case Returned(message) => if message != "" then (Failure, message) else (Success, message)
  }

  /** The definition keys of all platforms, in validation order. */
  function AllDefinitionKeys(defs: Definitions, alms: seq<AlmKey>): (keys: seq<string>)
    ensures forall k :: k in keys <==> exists i, d :: 0 <= i < |alms| && d in defs.Of(alms[i]) && d.key == k
  {
    if |alms| == 0 then []
    else
      var rest := AllDefinitionKeys(defs, alms[1..]);
      assert forall i :: 1 <= i < |alms| ==> alms[i] == alms[1..][i - 1];
      KeysOf(defs.Of(alms[0])) + rest
  }

  function KeysOf(defs: seq<Definition>): (keys: seq<string>)
    ensures |keys| == |defs| && forall i :: 0 <= i < |defs| ==> keys[i] == defs[i].key
  {
    seq(|defs|, i requires 0 <= i < |defs| => defs[i].key)
  }

  /** The checks started, without success alert, for `keys` in order. */
  function SilentChecks(keys: seq<string>): (r: seq<CheckRequest>)
    ensures |r| == |keys| && forall i :: 0 <= i < |keys| ==> r[i] == CheckRequest(keys[i], false)
  {
    seq(|keys|, i requires 0 <= i < |keys| => CheckRequest(keys[i], false))
  }

  class AlmIntegration {
    var mounted: bool
    var currentAlmTab: AlmKey
    var definitionKeyForDeletion: Option<string>
    var definitions: Definitions
    var definitionStatus: map<string, BindingStatus>
    var loadingAlmDefinitions: bool
    var loadingProjectCount: bool
    var projectCount: Option<int>

    /** Calls made to the outside world, in order. */
    var navigations: seq<Location>
    var definitionFetches: nat
    var projectCountRequests: seq<string>
    var deleteRequests: seq<string>
    var checkRequests: seq<CheckRequest>

    constructor (queryAlm: Option<AlmKey>)
      ensures !mounted
      ensures currentAlmTab == InitialTab(queryAlm)
      ensures definitions == EmptyDefinitions() && definitionStatus == map[]
      ensures loadingAlmDefinitions && !loadingProjectCount
      ensures definitionKeyForDeletion.None? && projectCount.None?
      ensures navigations == [] && definitionFetches == 0 && projectCountRequests == []
      ensures deleteRequests == [] && checkRequests == []
    {
      mounted := false;
      currentAlmTab := InitialTab(queryAlm);
      definitionKeyForDeletion := None;
      definitions := EmptyDefinitions();
      definitionStatus := map[];
      loadingAlmDefinitions := true;
      loadingProjectCount := false;
      projectCount := None;
      navigations := [];
      definitionFetches := 0;
      projectCountRequests := [];
      deleteRequests := [];
      checkRequests := [];
    }

    /** `componentDidMount`: mark as mounted and fetch the definitions. */
    method DidMount()
      modifies this
      ensures mounted && loadingAlmDefinitions && definitionFetches == old(definitionFetches) + 1
      ensures currentAlmTab == old(currentAlmTab) && definitions == old(definitions)
      ensures definitionStatus == old(definitionStatus) && checkRequests == old(checkRequests)
      ensures definitionKeyForDeletion == old(definitionKeyForDeletion) && projectCount == old(projectCount)
      ensures loadingProjectCount == old(loadingProjectCount) && navigations == old(navigations)
      ensures projectCountRequests == old(projectCountRequests) && deleteRequests == old(deleteRequests)
    {
      mounted := true;
      FetchDefinitions();
    }

    /** `fetchPullRequestDecorationSetting`, the request being sent. */
    method FetchDefinitions()
      modifies this
      ensures loadingAlmDefinitions && definitionFetches == old(definitionFetches) + 1
      ensures mounted == old(mounted) && currentAlmTab == old(currentAlmTab) && definitions == old(definitions)
      ensures definitionStatus == old(definitionStatus) && checkRequests == old(checkRequests)
      ensures definitionKeyForDeletion == old(definitionKeyForDeletion) && projectCount == old(projectCount)
      ensures loadingProjectCount == old(loadingProjectCount) && navigations == old(navigations)
      ensures projectCountRequests == old(projectCountRequests) && deleteRequests == old(deleteRequests)
    {
      loadingAlmDefinitions := true;
      definitionFetches := definitionFetches + 1;
    }

    /**
     * The definitions request completed with `result` (`None` when it
     * failed); the definitions are returned only when they were stored.
     */
    method DefinitionsFetched(result: Option<Definitions>) returns (stored: Option<Definitions>)
      modifies this
      ensures stored.Some? <==> old(mounted) && result.Some?
      ensures stored.Some? ==> stored == result && definitions == result.value && !loadingAlmDefinitions
      ensures !old(mounted) ==> definitions == old(definitions) && loadingAlmDefinitions == old(loadingAlmDefinitions)
      ensures old(mounted) && result.None? ==> definitions == old(definitions) && !loadingAlmDefinitions
      ensures mounted == old(mounted) && currentAlmTab == old(currentAlmTab) && definitionStatus == old(definitionStatus)
      ensures checkRequests == old(checkRequests) && definitionFetches == old(definitionFetches)
      ensures definitionKeyForDeletion == old(definitionKeyForDeletion) && projectCount == old(projectCount)
      ensures loadingProjectCount == old(loadingProjectCount) && navigations == old(navigations)
      ensures projectCountRequests == old(projectCountRequests) && deleteRequests == old(deleteRequests)
    {
      stored := None;
      if mounted {
        if result.Some? {
          definitions := result.value;
          loadingAlmDefinitions := false;
          stored := result;
        } else {
          loadingAlmDefinitions := false;
        }
      }
    }

    /**
     * The continuation of `componentDidMount`: once the definitions are
     * stored, a check (without success alert) starts for every definition
     * of every platform, platform by platform.
     */
    method ValidateAllDefinitions()
      modifies this
      ensures checkRequests == old(checkRequests) + SilentChecks(AllDefinitionKeys(definitions, VALIDATION_ORDER))
      ensures definitionStatus == MarkAllValidating(old(definitionStatus), AllDefinitionKeys(definitions, VALIDATION_ORDER))
      ensures mounted == old(mounted) && currentAlmTab == old(currentAlmTab) && definitions == old(definitions)
      ensures loadingAlmDefinitions == old(loadingAlmDefinitions) && definitionFetches == old(definitionFetches)
      ensures definitionKeyForDeletion == old(definitionKeyForDeletion) && projectCount == old(projectCount)
      ensures loadingProjectCount == old(loadingProjectCount) && navigations == old(navigations)
      ensures projectCountRequests == old(projectCountRequests) && deleteRequests == old(deleteRequests)
    {
      var keys := AllDefinitionKeys(definitions, VALIDATION_ORDER);
      var i := 0;
      while i < |keys|
        invariant 0 <= i <= |keys|
        invariant checkRequests == old(checkRequests) + SilentChecks(keys[..i])
        invariant definitionStatus == MarkAllValidating(old(definitionStatus), keys[..i])
        invariant mounted == old(mounted) && currentAlmTab == old(currentAlmTab) && definitions == old(definitions)
        invariant loadingAlmDefinitions == old(loadingAlmDefinitions) && definitionFetches == old(definitionFetches)
        invariant definitionKeyForDeletion == old(definitionKeyForDeletion) && projectCount == old(projectCount)
        invariant loadingProjectCount == old(loadingProjectCount) && navigations == old(navigations)
        invariant projectCountRequests == old(projectCountRequests) && deleteRequests == old(deleteRequests)
      {
        ghost var before := MarkAllValidating(old(definitionStatus), keys[..i]);
        BeginCheck(keys[i], false);
        assert keys[..i + 1][..i] == keys[..i] && keys[..i + 1][i] == keys[i];
        assert MarkAllValidating(old(definitionStatus), keys[..i + 1]) ==
          before[keys[i] := MarkValidating(Lookup(before, keys[i]))];
        assert SilentChecks(keys[..i + 1]) == SilentChecks(keys[..i]) + [CheckRequest(keys[i], false)];
        i := i + 1;
      }
      assert keys[..i] == keys;
    }

    /** `handleCheck`, first step: the key's status becomes `Validating` and the validation call is sent. */
    method BeginCheck(definitionKey: string, alertSuccess: bool)
      modifies this
      ensures definitionStatus == old(definitionStatus)[definitionKey := MarkValidating(Lookup(old(definitionStatus), definitionKey))]
      ensures checkRequests == old(checkRequests) + [CheckRequest(definitionKey, alertSuccess)]
      ensures mounted == old(mounted) && currentAlmTab == old(currentAlmTab) && definitions == old(definitions)
      ensures loadingAlmDefinitions == old(loadingAlmDefinitions) && definitionFetches == old(definitionFetches)
      ensures definitionKeyForDeletion == old(definitionKeyForDeletion) && projectCount == old(projectCount)
      ensures loadingProjectCount == old(loadingProjectCount) && navigations == old(navigations)
      ensures projectCountRequests == old(projectCountRequests) && deleteRequests == old(deleteRequests)
    {
      definitionStatus := definitionStatus[definitionKey := MarkValidating(Lookup(definitionStatus, definitionKey))];
      checkRequests := checkRequests + [CheckRequest(definitionKey, alertSuccess)];
    }

    /** `handleCheck`, second step: the validation call of `request` ended with `outcome`. */
    method FinishCheck(request: CheckRequest, outcome: ValidationOutcome)
      modifies this
      ensures old(mounted) ==> definitionStatus == old(definitionStatus)[request.definitionKey :=
        BindingStatus(Some(request.alertSuccess), Some(Classify(outcome).1), Some(Classify(outcome).0))]
      ensures !old(mounted) ==> definitionStatus == old(definitionStatus)
      ensures checkRequests == old(checkRequests)
      ensures mounted == old(mounted) && currentAlmTab == old(currentAlmTab) && definitions == old(definitions)
      ensures loadingAlmDefinitions == old(loadingAlmDefinitions) && definitionFetches == old(definitionFetches)
      ensures definitionKeyForDeletion == old(definitionKeyForDeletion) && projectCount == old(projectCount)
      ensures loadingProjectCount == old(loadingProjectCount) && navigations == old(navigations)
      ensures projectCountRequests == old(projectCountRequests) && deleteRequests == old(deleteRequests)
    {
      var (statusType, failureMessage) := Classify(outcome);
      if mounted {
        definitionStatus := definitionStatus[request.definitionKey :=
          BindingStatus(Some(request.alertSuccess), Some(failureMessage), Some(statusType))];
      }
    }

    /** `componentDidUpdate`: a (truthy) `alm` query parameter is copied to the tab as it is. */
    method DidUpdate(queryAlm: Option<AlmKey>)
      modifies this
      ensures queryAlm.Some? && old(mounted) ==> currentAlmTab == queryAlm.value
      ensures queryAlm.None? || !old(mounted) ==> currentAlmTab == old(currentAlmTab)
      ensures mounted == old(mounted) && definitions == old(definitions) && definitionStatus == old(definitionStatus)
      ensures loadingAlmDefinitions == old(loadingAlmDefinitions) && definitionFetches == old(definitionFetches)
      ensures checkRequests == old(checkRequests)
      ensures definitionKeyForDeletion == old(definitionKeyForDeletion) && projectCount == old(projectCount)
      ensures loadingProjectCount == old(loadingProjectCount) && navigations == old(navigations)
      ensures projectCountRequests == old(projectCountRequests) && deleteRequests == old(deleteRequests)
    {
      if queryAlm.Some? && mounted {
        currentAlmTab := queryAlm.value;
      }
    }

    method WillUnmount()
      modifies this
      ensures !mounted
      ensures currentAlmTab == old(currentAlmTab) && definitions == old(definitions) && definitionStatus == old(definitionStatus)
      ensures loadingAlmDefinitions == old(loadingAlmDefinitions) && definitionFetches == old(definitionFetches)
      ensures checkRequests == old(checkRequests)
      ensures definitionKeyForDeletion == old(definitionKeyForDeletion) && projectCount == old(projectCount)
      ensures loadingProjectCount == old(loadingProjectCount) && navigations == old(navigations)
      ensures projectCountRequests == old(projectCountRequests) && deleteRequests == old(deleteRequests)
    {
      mounted := false;
    }

    /** `handleSelectAlm`: navigate to the tab (clearing the hash) and show it. */
    method HandleSelectAlm(tab: AlmKey)
      modifies this
      ensures currentAlmTab == tab && navigations == old(navigations) + [Location(tab, "")]
      ensures mounted == old(mounted) && definitions == old(definitions) && definitionStatus == old(definitionStatus)
      ensures loadingAlmDefinitions == old(loadingAlmDefinitions) && definitionFetches == old(definitionFetches)
      ensures checkRequests == old(checkRequests)
      ensures definitionKeyForDeletion == old(definitionKeyForDeletion) && projectCount == old(projectCount)
      ensures loadingProjectCount == old(loadingProjectCount)
      ensures projectCountRequests == old(projectCountRequests) && deleteRequests == old(deleteRequests)
    {
      navigations := navigations + [Location(tab, "")];
      currentAlmTab := tab;
    }

    /** `handleCancelDelete`: forget the definition to delete and its project count. */
    method HandleCancelDelete()
      modifies this
      ensures definitionKeyForDeletion.None? && projectCount.None?
      ensures mounted == old(mounted) && currentAlmTab == old(currentAlmTab) && definitions == old(definitions)
      ensures definitionStatus == old(definitionStatus) && checkRequests == old(checkRequests)
      ensures loadingAlmDefinitions == old(loadingAlmDefinitions) && definitionFetches == old(definitionFetches)
      ensures loadingProjectCount == old(loadingProjectCount) && navigations == old(navigations)
      ensures projectCountRequests == old(projectCountRequests) && deleteRequests == old(deleteRequests)
    {
      definitionKeyForDeletion := None;
      projectCount := None;
    }

    /** `handleDelete`, first step: ask how many projects are bound to the definition. */
    method HandleDelete(definitionKey: string)
      modifies this
      ensures loadingProjectCount && projectCountRequests == old(projectCountRequests) + [definitionKey]
      ensures mounted == old(mounted) && currentAlmTab == old(currentAlmTab) && definitions == old(definitions)
      ensures definitionStatus == old(definitionStatus) && checkRequests == old(checkRequests)
      ensures loadingAlmDefinitions == old(loadingAlmDefinitions) && definitionFetches == old(definitionFetches)
      ensures definitionKeyForDeletion == old(definitionKeyForDeletion) && projectCount == old(projectCount)
      ensures navigations == old(navigations) && deleteRequests == old(deleteRequests)
    {
      loadingProjectCount := true;
      projectCountRequests := projectCountRequests + [definitionKey];
    }

    /**
     * `handleDelete`, second step: the count for `definitionKey` arrived
     * (`None` when the call failed). A failure only stops the loading.
     */
    method ProjectCountLoaded(definitionKey: string, count: Option<int>)
      modifies this
      ensures old(mounted) && count.Some? ==>
        definitionKeyForDeletion == Some(definitionKey) && projectCount == count && !loadingProjectCount
      ensures old(mounted) && count.None? ==>
        !loadingProjectCount && definitionKeyForDeletion == old(definitionKeyForDeletion) && projectCount == old(projectCount)
      ensures !old(mounted) ==>
        loadingProjectCount == old(loadingProjectCount)
        && definitionKeyForDeletion == old(definitionKeyForDeletion) && projectCount == old(projectCount)
      ensures mounted == old(mounted) && currentAlmTab == old(currentAlmTab) && definitions == old(definitions)
      ensures definitionStatus == old(definitionStatus) && checkRequests == old(checkRequests)
      ensures loadingAlmDefinitions == old(loadingAlmDefinitions) && definitionFetches == old(definitionFetches)
      ensures navigations == old(navigations)
      ensures projectCountRequests == old(projectCountRequests) && deleteRequests == old(deleteRequests)
    {
      if mounted {
        if count.Some? {
          definitionKeyForDeletion := Some(definitionKey);
          loadingProjectCount := false;
          projectCount := count;
        } else {
          loadingProjectCount := false;
        }
      }
    }

    /** `handleConfirmDelete`, first step: the deletion call is sent. */
    method HandleConfirmDelete(definitionKey: string)
      modifies this
      ensures deleteRequests == old(deleteRequests) + [definitionKey]
      ensures mounted == old(mounted) && currentAlmTab == old(currentAlmTab) && definitions == old(definitions)
      ensures definitionStatus == old(definitionStatus) && checkRequests == old(checkRequests)
      ensures loadingAlmDefinitions == old(loadingAlmDefinitions) && definitionFetches == old(definitionFetches)
      ensures definitionKeyForDeletion == old(definitionKeyForDeletion) && projectCount == old(projectCount)
      ensures loadingProjectCount == old(loadingProjectCount) && navigations == old(navigations)
      ensures projectCountRequests == old(projectCountRequests)
    {
      deleteRequests := deleteRequests + [definitionKey];
    }

    /**
     * `handleConfirmDelete`, second step: after a successful deletion the
     * dialog state is cleared (if mounted) and the definitions are fetched
     * again; after a failed one nothing happens.
     */
    method DeleteCompleted(succeeded: bool)
      modifies this
      ensures succeeded && old(mounted) ==> definitionKeyForDeletion.None? && projectCount.None?
      ensures !succeeded || !old(mounted) ==>
        definitionKeyForDeletion == old(definitionKeyForDeletion) && projectCount == old(projectCount)
      ensures succeeded ==> loadingAlmDefinitions && definitionFetches == old(definitionFetches) + 1
      ensures !succeeded ==> loadingAlmDefinitions == old(loadingAlmDefinitions) && definitionFetches == old(definitionFetches)
      ensures mounted == old(mounted) && currentAlmTab == old(currentAlmTab) && definitions == old(definitions)
      ensures definitionStatus == old(definitionStatus) && checkRequests == old(checkRequests)
      ensures loadingProjectCount == old(loadingProjectCount) && navigations == old(navigations)
      ensures projectCountRequests == old(projectCountRequests) && deleteRequests == old(deleteRequests)
    {
      if succeeded {
        if mounted {
          definitionKeyForDeletion := None;
          projectCount := None;
        }
        FetchDefinitions();
      }
    }
  }

  /**
   * The tab from the query is normalised only when the page is built: a
   * later update with the Bitbucket Cloud key shows that tab as it is.
   */
  method BitbucketCloudTabOnlyNormalisedAtConstruction() returns (initial: AlmKey, updated: AlmKey)
    ensures initial == BitbucketServer && updated == BitbucketCloud
  {
    var page := new AlmIntegration(Some(BitbucketCloud));
    initial := page.currentAlmTab;
    page.DidMount();
    page.DidUpdate(Some(BitbucketCloud));
    updated := page.currentAlmTab;
  }

  /** A full check cycle leaves exactly the classified outcome as the key's status. */
  method CheckCycle(page: AlmIntegration, key: string, outcome: ValidationOutcome) returns (status: BindingStatus)
    requires page.mounted
    modifies page
    ensures status.statusType == Some(Classify(outcome).0) && status.failureMessage == Some(Classify(outcome).1)
    ensures status.alertSuccess == Some(true)
  {
    page.BeginCheck(key, true);
    page.FinishCheck(CheckRequest(key, true), outcome);
    status := page.definitionStatus[key];
  }
}
