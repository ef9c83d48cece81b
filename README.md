# SonarQube core, modelled in Dafny

This project models a slice of SonarQube, the code quality server, and proves properties of that model.

- **Web front end.** It covers the settings pages:
  - the search box over setting definitions (`SettingsSearch`);
  - the category menu (`AllCategoriesList`);
  - the list of sub-categories of one category (`SubCategoryDefinitionsList`);
  - the ALM integration page (`AlmIntegration`).
- **Overview pages.** The model covers:
  - the quality gate condition with its link (`QualityGateCondition`);
  - the notice shown after a project's first analysis (`FirstAnalysisNextStepsNotif`).
- **Audit logs page.** The page (`AuditApp`) and its download button (`DownloadButton`).
- **Security hotspot viewer** (`HotspotViewer`).
- **Tutorials.** Two of the CI configurations they generate:
  - the GitHub Actions workflow for C and C++ (`CFamily`);
  - the Bitbucket Pipelines file for other build tools (`Others`).
- **Server side.** The liveness probe of a node (`LivenessChecker`) and the portfolio data access object (`PortfolioDao`).
- **Database migrations.** The SQL that drops a primary key on each supported database (`DropPrimaryKeySqlGenerator`).

How each part of the source becomes Dafny:

- **Pure code becomes functions.** Helpers, URL builders, render decisions and generated text are datatypes and functions. Lemmas state what those produce.
- **React components become classes.** A component that keeps state becomes a `class`:
  - its `state` fields are the class's fields;
  - each lifecycle method and handler is a `method` that states the new state outright;
  - asynchronous calls are split at the `await`: one method starts the request, and a second method applies its answer.
- **The portfolio DAO is split in two.**
  - The database tables are a datatype. Pure transition functions carry the meaning of the operations: what an insert refuses, and what a delete removes and keeps.
  - The `PortfolioDao` class holds the tables, the audit log and the uuid counter. Its methods are proved to move the tables by those functions. Lemmas prove that every transition keeps the tables well formed: uuids are row keys, roots are consistent and keys are unique.
- **Shared helpers.** The lodash and JavaScript helpers the sources rely on are modelled once:
  - `Strings`: lower-casing, splitting on whitespace and joining;
  - `Sorting`: a stable `sortBy`;
  - `Sequences`: `filter`, stated by the increasing list of the indices it keeps, so that order is part of its contract;
  - `Wrappers`: `Option`.

## Model

| member | source | states |
|---|---|---|
| Strings.Lower | server/sonar-web/src/main/js/apps/settings/components/AllCategoriesList.tsx:43 | lower-cases exactly the ASCII capitals, character by character, and leaves no capital behind |
| Strings.LowerIdempotent | server/sonar-web/src/main/js/apps/settings/components/AllCategoriesList.tsx:69 | lower-casing twice is lower-casing once, so comparing lower-cased keys is stable |
| Strings.SplitWhitespace | server/sonar-web/src/main/js/apps/settings/components/SettingsSearch.tsx:91 | `split(/\s+/)` always yields at least one piece |
| Strings.SplitPiecesHaveNoWhitespace | server/sonar-web/src/main/js/apps/settings/components/SettingsSearch.tsx:91 | no piece of the split contains whitespace |
| Strings.JoinSplitWhitespace | server/sonar-web/src/main/js/apps/settings/components/SettingsSearch.tsx:91-93 | splitting a single-spaced string and joining with one space gives the string back |
| Strings.SplitJoinWords | server/sonar-web/src/main/js/apps/settings/components/SettingsSearch.tsx:91-93 | splitting words joined by single spaces gives the words back |
| Strings.Split | server/sonar-web/src/main/js/apps/settings/components/SubCategoryDefinitionsList.tsx:78 | `split(sep)`, the inverse of the comma join: at least one piece, and no piece contains the separator |
| Strings.SplitJoin | server/sonar-web/src/main/js/apps/settings/components/SubCategoryDefinitionsList.tsx:78 | splitting a join of separator-free parts at the separator gives the parts back |
| Sequences.Matches | server/sonar-web/src/main/js/apps/settings/components/AllCategoriesList.tsx:43 | the indices of the elements a filter keeps: in increasing order, each satisfying the predicate, and every satisfying index listed |
| Sequences.Filter | server/sonar-web/src/main/js/apps/settings/components/AllCategoriesList.tsx:43 | `filter` keeps exactly the elements satisfying the predicate, never more of them than the list has, and the whole list when every element satisfies it |
| Sequences.FilterIndices | server/sonar-web/src/main/js/apps/settings/components/AllCategoriesList.tsx:43 | `filter` keeps the elements at exactly the matching indices, in their original order |
| Sequences.EnumerationIsUnique | server/sonar-web/src/main/js/apps/settings/components/AllCategoriesList.tsx:43 | the increasing enumeration of the satisfying indices is unique, so the filter's order is determined |
| Sorting.SortBy | server/sonar-web/src/main/js/apps/settings/components/AllCategoriesList.tsx:59 | lodash `sortBy` on a string key: the result is a permutation of the input sorted by the key |
| Sorting.InsertKeepsSorted | server/sonar-web/src/main/js/apps/settings/components/AllCategoriesList.tsx:59 | inserting an item into a list sorted by the key keeps it sorted |
| Sorting.SortByIsStable | server/sonar-web/src/main/js/apps/settings/components/SubCategoryDefinitionsList.tsx:97-99 | `sortBy` is stable: the items with one key keep their input order |
| SettingsSearch.CleanQuery | server/sonar-web/src/main/js/apps/settings/components/SettingsSearch.tsx:81 | the cleaned query has no `^ - + : ~ *` and only characters of the query |
| SettingsSearch.CleanQueryConcat | server/sonar-web/src/main/js/apps/settings/components/SettingsSearch.tsx:81 | cleaning works character by character: it distributes over concatenation |
| SettingsSearch.CleanQueryKeepsPlainText | server/sonar-web/src/main/js/apps/settings/components/SettingsSearch.tsx:81 | a query without operator characters is left as it is |
| SettingsSearch.CleanQueryOfOperatorsIsEmpty | server/sonar-web/src/main/js/apps/settings/components/SettingsSearch.tsx:81-86 | a query of operator characters only cleans to the empty query, the case that hides the results |
| SettingsSearch.CleanQueryIdempotent | server/sonar-web/src/main/js/apps/settings/components/SettingsSearch.tsx:81 | cleaning a cleaned query changes nothing |
| SettingsSearch.Clauses | server/sonar-web/src/main/js/apps/settings/components/SettingsSearch.tsx:92 | each token `s` becomes the clause `s~1 *s*`, in token order |
| SettingsSearch.IndexQuery | server/sonar-web/src/main/js/apps/settings/components/SettingsSearch.tsx:89-94 | a single word becomes its own clause |
| SettingsSearch.IndexQueryOfWords | server/sonar-web/src/main/js/apps/settings/components/SettingsSearch.tsx:89-94 | for words joined by single spaces the index query is their clauses joined by single spaces |
| SettingsSearch.IndexQueryTokensHaveNoWhitespace | server/sonar-web/src/main/js/apps/settings/components/SettingsSearch.tsx:91 | the tokens the clauses are built from contain no whitespace |
| SettingsSearch.IndexOfDot | server/sonar-web/src/main/js/apps/settings/components/SettingsSearch.tsx:75 | the index of the first `.` of a key, or -1 when it has none |
| SettingsSearch.SplitKey | server/sonar-web/src/main/js/apps/settings/components/SettingsSearch.tsx:75 | `key.replace('.', ' ')`: only the first dot becomes a space, every other character is kept |
| SettingsSearch.BuildSearchIndex | server/sonar-web/src/main/js/apps/settings/components/SettingsSearch.tsx:66-77 | the loop indexes one document per definition, in order, each with its key as reference and its split key |
| SettingsSearch.KeyBy | server/sonar-web/src/main/js/apps/settings/components/SettingsSearch.tsx:63 | `keyBy`: each key maps to a definition with that key, and the last definition always wins its key |
| SettingsSearch.DefinitionByKey | server/sonar-web/src/main/js/apps/settings/components/SettingsSearch.tsx:167 | looking a key up gives a definition exactly when the key is in the map, and then the one the map holds; `None` stands for `undefined` |
| SettingsSearch.KeyByMapsEachKeyToItsLastDefinition | server/sonar-web/src/main/js/apps/settings/components/SettingsSearch.tsx:63 | lodash `keyBy`: the keys are exactly the definitions' keys and each maps to the last definition with that key |
| SettingsSearch.KeyByFindsEveryDefinition | server/sonar-web/src/main/js/apps/settings/components/SettingsSearch.tsx:63 | with distinct keys every definition is found under its own key |
| SettingsSearch.FindIndex | server/sonar-web/src/main/js/apps/settings/components/SettingsSearch.tsx:143 | `findIndex`: the first index with the key, or -1 exactly when no result has it |
| SettingsSearch.PreviousSelection | server/sonar-web/src/main/js/apps/settings/components/SettingsSearch.tsx:139-149 | without results the selection stays; a selection that changes lands on the key of one of the results |
| SettingsSearch.NextSelection | server/sonar-web/src/main/js/apps/settings/components/SettingsSearch.tsx:151-161 | without results the selection stays; a selection that changes lands on the key of one of the results |
| SettingsSearch.PreviousSelectionMoves | server/sonar-web/src/main/js/apps/settings/components/SettingsSearch.tsx:139-149 | select-previous only ever moves to the result just before the selection, and does so whenever its index is positive |
| SettingsSearch.NextSelectionCases | server/sonar-web/src/main/js/apps/settings/components/SettingsSearch.tsx:151-161 | select-next is a no-op without a selection, at the last result or without results, and jumps to the first result when the selection is not found |
| SettingsSearch.NextThenPrevious | server/sonar-web/src/main/js/apps/settings/components/SettingsSearch.tsx:139-161 | moving down then up returns to the same result |
| SettingsSearch.PreviousThenNext | server/sonar-web/src/main/js/apps/settings/components/SettingsSearch.tsx:139-161 | moving up then down returns to the same result |
| SettingsSearch.FirstIndexOfKey | server/sonar-web/src/main/js/apps/settings/components/SettingsSearch.tsx:143 | with distinct keys a result is found at its own index |
| SettingsSearch.SelectionStaysAmongResults | server/sonar-web/src/main/js/apps/settings/components/SettingsSearch.tsx:139-161 | moving the selection keeps it on one of the results |
| SettingsSearch.ScenarioDownArrow | server/sonar-web/src/main/js/apps/settings/components/SettingsSearch.tsx:151-161 | on two results, down from the first selects the second and down again stays there |
| SettingsSearch.SettingsSearch.constructor | server/sonar-web/src/main/js/apps/settings/components/SettingsSearch.tsx:50-64 | the index holds the definitions and the additional ones, `definitionsByKey` is their `keyBy`, nothing is shown or selected |
| SettingsSearch.SettingsSearch.DoSearch | server/sonar-web/src/main/js/apps/settings/components/SettingsSearch.tsx:80-98 | an empty cleaned query only hides the results; otherwise the results are the hits looked up in `definitionsByKey`, in hit order, shown, with the first one selected |
| SettingsSearch.SettingsSearch.HideResults | server/sonar-web/src/main/js/apps/settings/components/SettingsSearch.tsx:100-102 | hides the results and changes nothing else |
| SettingsSearch.SettingsSearch.HandleFocus | server/sonar-web/src/main/js/apps/settings/components/SettingsSearch.tsx:104-109 | shows the results exactly when there is a query; nothing else changes |
| SettingsSearch.SettingsSearch.HandleSearchChange | server/sonar-web/src/main/js/apps/settings/components/SettingsSearch.tsx:111-114 | stores the query at once, then searches for it |
| SettingsSearch.SettingsSearch.HandleMouseOverResult | server/sonar-web/src/main/js/apps/settings/components/SettingsSearch.tsx:116-118 | selects the hovered key, whatever it is, and changes nothing else |
| SettingsSearch.SettingsSearch.SelectPrevious | server/sonar-web/src/main/js/apps/settings/components/SettingsSearch.tsx:139-149 | the selection becomes the previous selection of the results and nothing else changes |
| SettingsSearch.SettingsSearch.SelectNext | server/sonar-web/src/main/js/apps/settings/components/SettingsSearch.tsx:151-161 | the selection becomes the next selection of the results and nothing else changes |
| SettingsSearch.SettingsSearch.OpenSelected | server/sonar-web/src/main/js/apps/settings/components/SettingsSearch.tsx:163-171 | with a truthy selection it navigates to the link built from the lookup of the selection, `undefined` when the key is unknown, and hides the results; without one it does nothing |
| SettingsSearch.SettingsSearch.HandleKeyDown | server/sonar-web/src/main/js/apps/settings/components/SettingsSearch.tsx:120-137 | Enter, Up and Down prevent the default and open, select the previous or select the next result; any other key changes nothing |
| SubCategoryDefinitionsList.EscapeSelector | server/sonar-web/src/main/js/apps/settings/components/SubCategoryDefinitionsList.tsx:58 | every `.`, `#` and `/` of the hash is preceded by a backslash |
| SubCategoryDefinitionsList.UnescapeEscapeSelector | server/sonar-web/src/main/js/apps/settings/components/SubCategoryDefinitionsList.tsx:58 | the escaping loses nothing: removing the backslashes gives the hash back |
| SubCategoryDefinitionsList.DefinitionKeys | server/sonar-web/src/main/js/apps/settings/components/SubCategoryDefinitionsList.tsx:50-51 | the settings' definition keys, in order |
| SubCategoryDefinitionsList.FetchValuesRequest | server/sonar-web/src/main/js/apps/settings/components/SubCategoryDefinitionsList.tsx:77-80 | fetches the definition keys joined with commas, the empty string for no settings, for the component's key exactly when there is a component |
| SubCategoryDefinitionsList.FetchedKeysSplitBack | server/sonar-web/src/main/js/apps/settings/components/SubCategoryDefinitionsList.tsx:77-80 | splitting the fetched key list at its commas gives back the settings' definition keys, in order, when no key contains a comma |
| SubCategoryDefinitionsList.DidUpdate | server/sonar-web/src/main/js/apps/settings/components/SubCategoryDefinitionsList.tsx:49-62 | refetches exactly when the component or the key list changed, and queries the escaped data-key selector exactly when a non-empty hash changed |
| SubCategoryDefinitionsList.ScrollsOnlyToTheHashTarget | server/sonar-web/src/main/js/apps/settings/components/SubCategoryDefinitionsList.tsx:64-75 | it scrolls only to an element whose data key is the hash without its `#`, never without an element or a hash |
| SubCategoryDefinitionsList.SubCategoryKeys | server/sonar-web/src/main/js/apps/settings/components/SubCategoryDefinitionsList.tsx:91-92 | the grouping keys: every sub-category used by a setting, once |
| SubCategoryDefinitionsList.SettingsOf | server/sonar-web/src/main/js/apps/settings/components/SubCategoryDefinitionsList.tsx:91 | `groupBy`'s group: exactly the settings of that sub-category, each at its place, in their original order |
| SubCategoryDefinitionsList.SettingsOfUsedIsNonEmpty | server/sonar-web/src/main/js/apps/settings/components/SubCategoryDefinitionsList.tsx:94 | a used sub-category has a first setting to take the category from |
| SubCategoryDefinitionsList.Entry | server/sonar-web/src/main/js/apps/settings/components/SubCategoryDefinitionsList.tsx:92-96 | a sub-category entry: its settings, and the name and description looked up with its first setting's category |
| SubCategoryDefinitionsList.Group | server/sonar-web/src/main/js/apps/settings/components/SubCategoryDefinitionsList.tsx:91-96 | one entry per grouping key, in key order |
| SubCategoryDefinitionsList.KeepSelected | server/sonar-web/src/main/js/apps/settings/components/SubCategoryDefinitionsList.tsx:100-102 | with a truthy sub-category prop exactly the entries with that key, in their original order; without one everything is kept |
| SubCategoryDefinitionsList.DistinctEntryKeysOccurOnce | server/sonar-web/src/main/js/apps/settings/components/SubCategoryDefinitionsList.tsx:91-96 | entries with distinct keys occur once each |
| SubCategoryDefinitionsList.DistinctEntryKeysPermuted | server/sonar-web/src/main/js/apps/settings/components/SubCategoryDefinitionsList.tsx:97-99 | reordering keeps the entry keys distinct |
| SubCategoryDefinitionsList.GroupCoversSubCategories | server/sonar-web/src/main/js/apps/settings/components/SubCategoryDefinitionsList.tsx:91-96 | the groups have distinct keys and there is a group exactly for each used sub-category |
| SubCategoryDefinitionsList.OneEntryPerSubCategory | server/sonar-web/src/main/js/apps/settings/components/SubCategoryDefinitionsList.tsx:90-102 | without a sub-category prop the list is sorted by lower-cased name, has distinct keys and has an entry exactly for each used sub-category |
| SubCategoryDefinitionsList.SubCategoryPropKeepsOnlyItsEntry | server/sonar-web/src/main/js/apps/settings/components/SubCategoryDefinitionsList.tsx:100-102 | with a sub-category prop every rendered entry is that sub-category |
| SubCategoryDefinitionsList.RenderedSubCategories | server/sonar-web/src/main/js/apps/settings/components/SubCategoryDefinitionsList.tsx:90-102 | the rendered list is sorted by lower-cased name and holds only grouped entries, with or without the prop |
| SubCategoryDefinitionsList.EmailFormAtMostOnce | server/sonar-web/src/main/js/apps/settings/components/SubCategoryDefinitionsList.tsx:82-127 | without a sub-category prop the email form is rendered at most once, and exactly on the `general` category when a setting is in the `email` sub-category |
| AllCategoriesList.ServerCategories | server/sonar-web/src/main/js/apps/settings/components/AllCategoriesList.tsx:42-47 | the server's categories whose lower-cased key is not overridden, in their order, each with its name |
| AllCategoriesList.ShownAdditional | server/sonar-web/src/main/js/apps/settings/components/AllCategoriesList.tsx:49-57 | the additional categories with a tab, available where the page is and allowed by the branch feature, in their order |
| AllCategoriesList.ServerCategoriesMembers | server/sonar-web/src/main/js/apps/settings/components/AllCategoriesList.tsx:42-47 | a category is listed exactly when it is a server key that is not overridden, named by the server |
| AllCategoriesList.ShownAdditionalMembers | server/sonar-web/src/main/js/apps/settings/components/AllCategoriesList.tsx:49-57 | an additional category is listed exactly when it passes the three filters |
| AllCategoriesList.SortedCategories | server/sonar-web/src/main/js/apps/settings/components/AllCategoriesList.tsx:42-59 | both lists together, permuted and sorted by lower-cased name |
| AllCategoriesList.LinkFor | server/sonar-web/src/main/js/apps/settings/components/AllCategoriesList.tsx:64-76 | links to the project or global settings; the category is omitted exactly for the default one and is lower-cased otherwise |
| AllCategoriesList.Entry | server/sonar-web/src/main/js/apps/settings/components/AllCategoriesList.tsx:63-80 | a menu entry is active exactly when its key equals the selected category ignoring case |
| AllCategoriesList.Entries | server/sonar-web/src/main/js/apps/settings/components/AllCategoriesList.tsx:63-81 | one entry per sorted category, in order |
| AllCategoriesList.CategoriesList | server/sonar-web/src/main/js/apps/settings/components/AllCategoriesList.tsx:61-83 | one entry per sorted category with its key and name, active exactly when its key matches the selected category ignoring case |
| AllCategoriesList.MenuHasTheRightCategories | server/sonar-web/src/main/js/apps/settings/components/AllCategoriesList.tsx:39-84 | the menu is sorted by name and holds the kept server categories and the shown additional ones, each as often as it is kept, and no other |
| AllCategoriesList.OverriddenCategoryIsHidden | server/sonar-web/src/main/js/apps/settings/components/AllCategoriesList.tsx:42-58 | a menu entry with an overridden key, ignoring case, is always one of the shown additional categories, never a server one |
| QualityGateCondition.IssuesQuery | server/sonar-web/src/main/js/apps/overview/components/QualityGateCondition.tsx:46-56 | `resolved=false`, overridden by the branch query, overridden by the custom query, and `sinceLeakPeriod=true` on top when asked |
| QualityGateCondition.HotspotsQuery | server/sonar-web/src/main/js/apps/overview/components/QualityGateCondition.tsx:58-66 | the branch query, with `sinceLeakPeriod=true` on top when asked, never adding `resolved` |
| QualityGateCondition.Threshold | server/sonar-web/src/main/js/apps/overview/components/QualityGateCondition.tsx:81 | the error threshold for an ERROR condition and the warning threshold otherwise |
| QualityGateCondition.SeveritiesFor | server/sonar-web/src/main/js/apps/overview/components/QualityGateCondition.tsx:73-85 | the threshold gives an entry of the severities table exactly when it is one of the ratings "1" to "4" |
| QualityGateCondition.SeveritiesAreTheMostSevereOnes | server/sonar-web/src/main/js/apps/overview/components/QualityGateCondition.tsx:73-85 | a rating threshold r from 1 to 4 lists the 5-r most severe severities, most severe first; other thresholds list none |
| QualityGateCondition.StricterRatingListsPrefix | server/sonar-web/src/main/js/apps/overview/components/QualityGateCondition.tsx:73-78 | a higher rating threshold lists a prefix of a lower one's severities |
| QualityGateCondition.LinkedMetricOf | server/sonar-web/src/main/js/apps/overview/components/QualityGateCondition.tsx:99-114 | finds the entry of the eight-metric table whose key is the condition's metric key, and none exactly when no entry has that key |
| QualityGateCondition.MetricKeyOf | server/sonar-web/src/main/js/apps/overview/components/QualityGateCondition.tsx:99-112 | the table's new-code entries are exactly those whose key starts with `new_` |
| QualityGateCondition.MetricKeysAreDistinct | server/sonar-web/src/main/js/apps/overview/components/QualityGateCondition.tsx:99-112 | two entries of the table have the same key exactly when they are the same entry |
| QualityGateCondition.LinkTarget | server/sonar-web/src/main/js/apps/overview/components/QualityGateCondition.tsx:99-112 | every table entry links to the issues page or the hotspots page of the component, the hotspots page exactly for the two hotspot metrics |
| QualityGateCondition.TargetOf | server/sonar-web/src/main/js/apps/overview/components/QualityGateCondition.tsx:114-127 | a metric in the table goes to the link of its entry, every other metric to its own drilldown of the component on the condition's branch or pull request, restricted to new code exactly when the condition has a period |
| QualityGateCondition.LinkedTargetIsNewCodeForNewMetrics | server/sonar-web/src/main/js/apps/overview/components/QualityGateCondition.tsx:99-112 | a table entry's page is restricted to new code exactly when the entry's key starts with `new_` |
| QualityGateCondition.IssuesTargetQueryMatchesMetric | server/sonar-web/src/main/js/apps/overview/components/QualityGateCondition.tsx:68-109 | an issues-page entry lists unresolved bugs, vulnerabilities or code smells according to the metric, with the threshold's severities for ratings |
| QualityGateCondition.ActualValue | server/sonar-web/src/main/js/apps/overview/components/QualityGateCondition.tsx:138 | the period value when the period is truthy, the overall value otherwise |
| QualityGateCondition.OperatorLabelKey | server/sonar-web/src/main/js/apps/overview/components/QualityGateCondition.tsx:140-144 | the operator label key, with the rating variant exactly for rating metrics |
| QualityGateCondition.PeriodZeroShowsOverallValueButNewCodeDrilldown | server/sonar-web/src/main/js/apps/overview/components/QualityGateCondition.tsx:124-138 | with period 0 the overall value is shown while the drilldown is restricted to new code |
| QualityGateCondition.NewCodeLabelFollowsTheDrilldown | server/sonar-web/src/main/js/apps/overview/components/QualityGateCondition.tsx:162-166 | the new-code label never shows for a new-code metric; otherwise it shows exactly when a drilldown is restricted to new code, also for period 0, where the shown value is the overall one |
| FirstAnalysisNextStepsNotif.NoticeLinksMatchWhatIsWanted | server/sonar-web/src/main/js/apps/overview/branches/FirstAnalysisNextStepsNotif.tsx:86-127 | a shown notice links to the tutorials exactly when CI is wanted, and to the project settings exactly when an administrator wants pull request decoration |
| FirstAnalysisNextStepsNotif.NextStepsNotice | server/sonar-web/src/main/js/apps/overview/branches/FirstAnalysisNextStepsNotif.tsx:48-87 | no notice for anonymous users or non-projects; a notice is dismissed under a key ending in the project key, and says only to set up CI exactly when only CI is wanted |
| FirstAnalysisNextStepsNotif.NoticeCoversExactlyWhatIsWanted | server/sonar-web/src/main/js/apps/overview/branches/FirstAnalysisNextStepsNotif.tsx:48-62 | a notice is shown exactly to logged-in users on projects needing CI or pull-request decoration, and it mentions exactly what is needed |
| FirstAnalysisNextStepsNotif.ExactlyOneCase | server/sonar-web/src/main/js/apps/overview/branches/FirstAnalysisNextStepsNotif.tsx:60-62 | when a notice is shown exactly one of only-CI, only-decoration and both holds |
| FirstAnalysisNextStepsNotif.AdminVariantOnlyForAdmins | server/sonar-web/src/main/js/apps/overview/branches/FirstAnalysisNextStepsNotif.tsx:63-127 | the admin wording with the settings link is used exactly for project admins, and only with decoration |
| FirstAnalysisNextStepsNotif.DismissKeyIsPerProject | server/sonar-web/src/main/js/apps/overview/branches/FirstAnalysisNextStepsNotif.tsx:87 | two notices share a dismiss key exactly when they are for the same project |
| FirstAnalysisNextStepsNotif.TutorialsLinkQuery | server/sonar-web/src/main/js/apps/overview/branches/FirstAnalysisNextStepsNotif.tsx:64-72 | the tutorials link carries only the project key |
| FirstAnalysisNextStepsNotif.ProjectSettingsLinkQuery | server/sonar-web/src/main/js/apps/overview/branches/FirstAnalysisNextStepsNotif.tsx:73-84 | the settings link goes to the project's pull-request decoration binding category |
| DownloadButton.PresetDays | server/sonar-web/src/main/js/apps/audit-logs/components/DownloadButton.tsx:35-40 | today, a week, a month and a trimester reach back 0, 7, 30 and 90 days |
| DownloadButton.RangeOptionStart | server/sonar-web/src/main/js/apps/audit-logs/components/DownloadButton.tsx:35-40 | the start of a preset range: now, or now less the preset's days |
| DownloadButton.RangeParams | server/sonar-web/src/main/js/apps/audit-logs/components/DownloadButton.tsx:44-61 | an incomplete custom range gives no parameters; a complete one runs from the start of its first day to the end of its last; a preset from the start of its first day to now |
| DownloadButton.DownloadDisabled | server/sonar-web/src/main/js/apps/audit-logs/components/DownloadButton.tsx:66-69 | a started download always disables the button; for a preset range nothing else does |
| DownloadButton.DownloadUrl | server/sonar-web/src/main/js/apps/audit-logs/components/DownloadButton.tsx:71-73 | the link is `#` exactly when the button is disabled, and otherwise starts with the audit log download path |
| DownloadButton.EnabledButtonDownloadsARange | server/sonar-web/src/main/js/apps/audit-logs/components/DownloadButton.tsx:66-80 | a disabled button links to `#` with no click handler; an enabled one downloads the audit logs for the range parameters |
| DownloadButton.EmptyParamsOnlyForIncompleteCustomRange | server/sonar-web/src/main/js/apps/audit-logs/components/DownloadButton.tsx:44-61 | the parameters are empty exactly for an incomplete custom range |
| DownloadButton.StartedDownloadDisablesButton | server/sonar-web/src/main/js/apps/audit-logs/components/DownloadButton.tsx:66-87 | once the download has started the button is disabled |
| AuditApp.HasGovernanceExtension | server/sonar-web/src/main/js/apps/audit-logs/components/AuditApp.tsx:85-87 | true exactly when the admin pages include the governance console |
| AuditApp.FindPage | server/sonar-web/src/main/js/apps/audit-logs/components/AuditApp.tsx:86 | `find`: some page with the key exactly when one exists |
| AuditApp.ShownPolicy | server/sonar-web/src/main/js/apps/audit-logs/components/AuditApp.tsx:74 | the housekeeping policy, Monthly when it is not set |
| AuditApp.AuditApp.constructor | server/sonar-web/src/main/js/apps/audit-logs/components/AuditApp.tsx:42-45 | no date range, no download started, Today selected |
| AuditApp.AuditApp.DidMount | server/sonar-web/src/main/js/apps/audit-logs/components/AuditApp.tsx:47-52 | fetches the housekeeping setting exactly when the governance extension is there |
| AuditApp.AuditApp.HandleDateSelection | server/sonar-web/src/main/js/apps/audit-logs/components/AuditApp.tsx:54-55 | stores the range, selects Custom and clears the started download |
| AuditApp.AuditApp.HandleOptionSelection | server/sonar-web/src/main/js/apps/audit-logs/components/AuditApp.tsx:57-58 | drops the range, selects the option and clears the started download |
| AuditApp.AuditApp.HandleStartDownload | server/sonar-web/src/main/js/apps/audit-logs/components/AuditApp.tsx:60-64 | only schedules the start of the download |
| AuditApp.AuditApp.RunPendingTimeout | server/sonar-web/src/main/js/apps/audit-logs/components/AuditApp.tsx:61-63 | the scheduled callback marks the download as started |
| AuditApp.AuditApp.Render | server/sonar-web/src/main/js/apps/audit-logs/components/AuditApp.tsx:66-78 | renders exactly with the governance extension, passing the shown policy and the state |
| AuditApp.AuditApp.ButtonProps | server/sonar-web/src/main/js/apps/audit-logs/components/AuditApp.tsx:66-78 | the button gets the page's range, started flag and selection, and is enabled exactly when no download started and the range is a preset or complete |
| AuditApp.CompleteDateSelectionEnablesDownload | server/sonar-web/src/main/js/apps/audit-logs/components/AuditApp.tsx:54-55 | after choosing a complete custom range the download button is enabled |
| AuditApp.IncompleteDateSelectionDisablesDownload | server/sonar-web/src/main/js/apps/audit-logs/components/AuditApp.tsx:54-55 | after choosing an incomplete custom range the download button is disabled |
| AuditApp.PresetSelectionEnablesDownload | server/sonar-web/src/main/js/apps/audit-logs/components/AuditApp.tsx:57-58 | after choosing a preset the download button is enabled |
| AuditApp.StartDownloadThenPickOption | server/sonar-web/src/main/js/apps/audit-logs/components/AuditApp.tsx:57-64 | picking a preset after the download has started re-enables the button |
| AlmIntegration.EmptyDefinitions | server/sonar-web/src/main/js/apps/settings/components/almIntegration/AlmIntegration.tsx:69-75 | every ALM starts with no definitions |
| AlmIntegration.InitialTab | server/sonar-web/src/main/js/apps/settings/components/almIntegration/AlmIntegration.tsx:62-65 | the query's ALM, GitHub without one, and Bitbucket Server instead of Bitbucket Cloud |
| AlmIntegration.MarkValidating | server/sonar-web/src/main/js/apps/settings/components/almIntegration/AlmIntegration.tsx:174-181 | a status being validated keeps its previous alert flag and failure message |
| AlmIntegration.MarkAllValidatingEffect | server/sonar-web/src/main/js/apps/settings/components/almIntegration/AlmIntegration.tsx:174-181 | validating all definitions marks each of their keys as validating, keeping what the status had, and leaves other keys alone |
| AlmIntegration.Classify | server/sonar-web/src/main/js/apps/settings/components/almIntegration/AlmIntegration.tsx:183-193 | a thrown validation is a warning, a failure message a failure, an empty message a success |
| AlmIntegration.AllDefinitionKeys | server/sonar-web/src/main/js/apps/settings/components/almIntegration/AlmIntegration.tsx:87-97 | the keys of every definition of the ALMs, in validation order |
| AlmIntegration.KeysOf | server/sonar-web/src/main/js/apps/settings/components/almIntegration/AlmIntegration.tsx:94 | the keys of one ALM's definitions, in order |
| AlmIntegration.SilentChecks | server/sonar-web/src/main/js/apps/settings/components/almIntegration/AlmIntegration.tsx:95 | the validations run on load do not alert on success |
| AlmIntegration.AlmIntegration.constructor | server/sonar-web/src/main/js/apps/settings/components/almIntegration/AlmIntegration.tsx:56-80 | unmounted, on the initial tab, with no definitions, no statuses, and the definitions loading |
| AlmIntegration.AlmIntegration.DidMount | server/sonar-web/src/main/js/apps/settings/components/almIntegration/AlmIntegration.tsx:82-84 | mounts and starts fetching the definitions |
| AlmIntegration.AlmIntegration.FetchDefinitions | server/sonar-web/src/main/js/apps/settings/components/almIntegration/AlmIntegration.tsx:123-125 | sets the loading flag and requests the definitions |
| AlmIntegration.AlmIntegration.DefinitionsFetched | server/sonar-web/src/main/js/apps/settings/components/almIntegration/AlmIntegration.tsx:126-139 | a mounted page stores fetched definitions and stops loading, stops loading on an error, and an unmounted one changes nothing |
| AlmIntegration.AlmIntegration.ValidateAllDefinitions | server/sonar-web/src/main/js/apps/settings/components/almIntegration/AlmIntegration.tsx:85-97 | the loop starts one silent check per definition key in validation order and marks each as validating |
| AlmIntegration.AlmIntegration.BeginCheck | server/sonar-web/src/main/js/apps/settings/components/almIntegration/AlmIntegration.tsx:173-181 | marks the definition as validating and starts the check |
| AlmIntegration.AlmIntegration.FinishCheck | server/sonar-web/src/main/js/apps/settings/components/almIntegration/AlmIntegration.tsx:183-205 | a mounted page records the classified outcome with the alert flag; an unmounted one records nothing |
| AlmIntegration.AlmIntegration.DidUpdate | server/sonar-web/src/main/js/apps/settings/components/almIntegration/AlmIntegration.tsx:102-107 | a mounted page follows the query's ALM; otherwise the tab stays |
| AlmIntegration.AlmIntegration.WillUnmount | server/sonar-web/src/main/js/apps/settings/components/almIntegration/AlmIntegration.tsx:109-111 | unmounts and changes nothing else |
| AlmIntegration.AlmIntegration.HandleSelectAlm | server/sonar-web/src/main/js/apps/settings/components/almIntegration/AlmIntegration.tsx:142-148 | navigates to the tab's ALM with an empty hash and selects the tab |
| AlmIntegration.AlmIntegration.HandleCancelDelete | server/sonar-web/src/main/js/apps/settings/components/almIntegration/AlmIntegration.tsx:150-152 | clears the pending deletion and its project count |
| AlmIntegration.AlmIntegration.HandleDelete | server/sonar-web/src/main/js/apps/settings/components/almIntegration/AlmIntegration.tsx:154-156 | starts counting the bound projects |
| AlmIntegration.AlmIntegration.ProjectCountLoaded | server/sonar-web/src/main/js/apps/settings/components/almIntegration/AlmIntegration.tsx:157-170 | a mounted page records the deletion candidate and its count, or only stops loading on an error |
| AlmIntegration.AlmIntegration.HandleConfirmDelete | server/sonar-web/src/main/js/apps/settings/components/almIntegration/AlmIntegration.tsx:113-114 | sends the deletion |
| AlmIntegration.AlmIntegration.DeleteCompleted | server/sonar-web/src/main/js/apps/settings/components/almIntegration/AlmIntegration.tsx:115-120 | a successful deletion clears the candidate on a mounted page and refetches the definitions |
| AlmIntegration.BitbucketCloudTabOnlyNormalisedAtConstruction | server/sonar-web/src/main/js/apps/settings/components/almIntegration/AlmIntegration.tsx:62-107 | Bitbucket Cloud is replaced at construction but an update takes it as it is |
| AlmIntegration.CheckCycle | server/sonar-web/src/main/js/apps/settings/components/almIntegration/AlmIntegration.tsx:173-205 | a user-started check ends with the classified outcome and alerts on success |
| HotspotViewer.HotspotViewer.constructor | server/sonar-web/src/main/js/apps/security-hotspots/components/HotspotViewer.tsx:54-58 | not loading, no success modal, nothing fetched |
| HotspotViewer.HotspotViewer.FetchHotspot | server/sonar-web/src/main/js/apps/security-hotspots/components/HotspotViewer.tsx:78-80 | sets loading and requests the current hotspot |
| HotspotViewer.HotspotViewer.HotspotFetched | server/sonar-web/src/main/js/apps/security-hotspots/components/HotspotViewer.tsx:81-87 | a mounted viewer stores the hotspot and stops loading, or only stops loading on an error; the result is passed on |
| HotspotViewer.HotspotViewer.DidMount | server/sonar-web/src/main/js/apps/security-hotspots/components/HotspotViewer.tsx:60-63 | mounts and fetches the hotspot |
| HotspotViewer.HotspotViewer.DidUpdate | server/sonar-web/src/main/js/apps/security-hotspots/components/HotspotViewer.tsx:65-68 | refetches exactly when the hotspot key changed |
| HotspotViewer.HotspotViewer.WillUnmount | server/sonar-web/src/main/js/apps/security-hotspots/components/HotspotViewer.tsx:74-76 | unmounts and changes nothing else |
| HotspotViewer.HotspotViewer.HandleHotspotUpdate | server/sonar-web/src/main/js/apps/security-hotspots/components/HotspotViewer.tsx:90-99 | a status update records the status, opens the success modal and notifies the parent; any other update refetches |
| HotspotViewer.HotspotViewer.HandleSwitchFilterToStatusOfUpdatedHotspot | server/sonar-web/src/main/js/apps/security-hotspots/components/HotspotViewer.tsx:110-115 | switches the filter to the last status's filter exactly when a status was recorded |
| HotspotViewer.HotspotViewer.HandleCloseStatusUpdateSuccessModal | server/sonar-web/src/main/js/apps/security-hotspots/components/HotspotViewer.tsx:117-119 | closes the modal and changes nothing else |
| HotspotViewer.LoadingResetOnFetchError | server/sonar-web/src/main/js/apps/security-hotspots/components/HotspotViewer.tsx:78-87 | a failed fetch on a mounted viewer leaves it not loading and without hotspot |
| HotspotViewer.UnmountedViewerKeepsItsState | server/sonar-web/src/main/js/apps/security-hotspots/components/HotspotViewer.tsx:81-87 | an answer arriving after unmount changes nothing |
| HotspotViewer.StatusChangeThenSwitchFilter | server/sonar-web/src/main/js/apps/security-hotspots/components/HotspotViewer.tsx:90-115 | after a status change the filter switches to that status's filter and the parent was told about the hotspot |
| CFamily.YamlFile | server/sonar-web/src/main/js/components/tutorials/github-action/commands/CFamily.tsx:149-158 | the workflow file is shown only once an OS is chosen, under `.github/workflows/build.yml`, with branches counted only when enabled |
| CFamily.YamlTemplate | server/sonar-web/src/main/js/components/tutorials/github-action/commands/CFamily.tsx:123-134 | the workflow starts with the push trigger on the main branch and ends with the jobs of the chosen OS; the lemmas below give the rest |
| CFamily.PullRequestTriggerOnlyWithBranches | server/sonar-web/src/main/js/components/tutorials/github-action/commands/CFamily.tsx:123-134 | the workflow with branches is the one without, with the pull-request trigger inserted between the header and the jobs |
| CFamily.PullRequestTriggerShownWithBranches | server/sonar-web/src/main/js/components/tutorials/github-action/commands/CFamily.tsx:128 | with branches the workflow contains the pull-request trigger |
| CFamily.JobsContainSteps | server/sonar-web/src/main/js/components/tutorials/github-action/commands/CFamily.tsx:130-133 | the jobs section contains the chosen OS's steps |
| CFamily.StepsStartWithFullCheckout | server/sonar-web/src/main/js/components/tutorials/github-action/commands/CFamily.tsx:35-121 | every OS's steps start with a full-depth checkout |
| CFamily.StepsPassBuildWrapperOutput | server/sonar-web/src/main/js/components/tutorials/github-action/commands/CFamily.tsx:35-121 | every OS's analysis passes the build wrapper output directory |
| CFamily.StepsContainMiddle | server/sonar-web/src/main/js/components/tutorials/github-action/commands/CFamily.tsx:35-121 | every OS's steps contain that OS's build-wrapper and scanner steps |
| CFamily.LinuxUsesScanAction | server/sonar-web/src/main/js/components/tutorials/github-action/commands/CFamily.tsx:36-57 | the Linux analysis runs the scan action |
| CFamily.OtherSystemsDownloadTheScanner | server/sonar-web/src/main/js/components/tutorials/github-action/commands/CFamily.tsx:58-121 | the macOS and Windows steps download the scanner CLI |
| Others.OthersExample | server/sonar-web/src/main/js/components/tutorials/bitbucket-pipelines/commands/Others.ts:21-55 | the configuration starts with the main-branch pipeline and ends with the cache definition; the lemmas below give the rest |
| Others.PullRequestSectionOnlyWithBranches | server/sonar-web/src/main/js/components/tutorials/bitbucket-pipelines/commands/Others.ts:21-55 | with branches the configuration is the one without, with the pull-requests section inserted |
| Others.ConfigurationStartsWithImageAndClone | server/sonar-web/src/main/js/components/tutorials/bitbucket-pipelines/commands/Others.ts:22-26 | the configuration starts with the image and the full-depth clone |
| Others.ConfigurationEndsWithCache | server/sonar-web/src/main/js/components/tutorials/bitbucket-pipelines/commands/Others.ts:51-55 | the configuration ends with the Sonar scanner cache |
| Others.EveryStepScansWithHostAndToken | server/sonar-web/src/main/js/components/tutorials/bitbucket-pipelines/commands/Others.ts:29-35 | the analysis step, used for the main branch and again for pull requests, runs the scan pipe with the host URL and the token |
| LivenessChecker.WithEsCheck | server/sonar-webserver-webapi/src/main/java/org/sonar/server/platform/ws/LivenessCheckerImpl.java:35-41 | the four-argument constructor has an Elasticsearch check |
| LivenessChecker.WithoutEsCheck | server/sonar-webserver-webapi/src/main/java/org/sonar/server/platform/ws/LivenessCheckerImpl.java:46-52 | the three-argument constructor has none |
| LivenessChecker.Liveness | server/sonar-webserver-webapi/src/main/java/org/sonar/server/platform/ws/LivenessCheckerImpl.java:54-73 | live exactly when the database, web server and compute engine are green and Elasticsearch, if checked, is not red; checks run in order and stop at the first failure |
| LivenessChecker.YellowOnlyToleratedForElasticsearch | server/sonar-webserver-webapi/src/main/java/org/sonar/server/platform/ws/LivenessCheckerImpl.java:56-70 | a yellow Elasticsearch is live, a yellow database, web server or compute engine is not |
| LivenessChecker.WithoutEsCheckIgnoresElasticsearch | server/sonar-webserver-webapi/src/main/java/org/sonar/server/platform/ws/LivenessCheckerImpl.java:46-68 | without the Elasticsearch check its report is never looked at |
| LivenessChecker.EsCheckOnlyStrengthens | server/sonar-webserver-webapi/src/main/java/org/sonar/server/platform/ws/LivenessCheckerImpl.java:68-70 | a node live with the Elasticsearch check is live without it |
| PortfolioDao.Qualifier | server/sonar-db-dao/src/main/java/org/sonar/db/portfolio/PortfolioDao.java:114-116 | VIEW exactly for a root portfolio, SUBVIEW otherwise |
| PortfolioDao.ToComponentNewValue | server/sonar-db-dao/src/main/java/org/sonar/db/portfolio/PortfolioDao.java:109-112 | the audited value carries the portfolio's uuid and key and its qualifier |
| PortfolioDao.SelectByUuid | server/sonar-db-dao/src/main/java/org/sonar/db/portfolio/PortfolioDao.java:73-75 | the portfolio with the uuid, when there is one |
| PortfolioDao.SelectByUuids | server/sonar-db-dao/src/main/java/org/sonar/db/portfolio/PortfolioDao.java:77-82 | the portfolios whose uuid is asked for; an empty request gives nothing |
| PortfolioDao.SelectKeysByUuids | server/sonar-db-dao/src/main/java/org/sonar/db/portfolio/PortfolioDao.java:118-121 | maps exactly the found uuids to their portfolios' keys |
| PortfolioDao.SelectAllRoots | server/sonar-db-dao/src/main/java/org/sonar/db/portfolio/PortfolioDao.java:53-55 | exactly the root portfolios |
| PortfolioDao.SelectReferenceUuids | server/sonar-db-dao/src/main/java/org/sonar/db/portfolio/PortfolioDao.java:139-141 | exactly what the portfolio references |
| PortfolioDao.SelectProjects | server/sonar-db-dao/src/main/java/org/sonar/db/portfolio/PortfolioDao.java:171-173 | exactly the projects linked to the portfolio |
| PortfolioDao.InsertPortfolio | server/sonar-db-dao/src/main/java/org/sonar/db/portfolio/PortfolioDao.java:84-88 | refuses an inconsistent root, then a taken uuid or key; otherwise the portfolio is stored and nothing else changes |
| PortfolioDao.UpdatePortfolio | server/sonar-db-dao/src/main/java/org/sonar/db/portfolio/PortfolioDao.java:102-107 | refuses an inconsistent root or a key taken by another portfolio; otherwise the stored row takes the new values and nothing else changes |
| PortfolioDao.DeletePortfolio | server/sonar-db-dao/src/main/java/org/sonar/db/portfolio/PortfolioDao.java:90-95 | removes the portfolio, every reference from or to it and its project links, and keeps every other row |
| PortfolioDao.DeleteDescendants | server/sonar-db-dao/src/main/java/org/sonar/db/portfolio/PortfolioDao.java:97-100 | removes the non-root portfolios of the tree and keeps every other row |
| PortfolioDao.WithoutReference | server/sonar-db-dao/src/main/java/org/sonar/db/portfolio/PortfolioDao.java:163-165 | removes only the references from that portfolio to that target |
| PortfolioDao.WithoutReferencesTo | server/sonar-db-dao/src/main/java/org/sonar/db/portfolio/PortfolioDao.java:155-157 | removes only the references to the target |
| PortfolioDao.WithoutProjectsOf | server/sonar-db-dao/src/main/java/org/sonar/db/portfolio/PortfolioDao.java:191-193 | removes only that portfolio's project links |
| PortfolioDao.WithoutProject | server/sonar-db-dao/src/main/java/org/sonar/db/portfolio/PortfolioDao.java:195-197 | removes only the link between that portfolio and that project |
| PortfolioDao.PortfolioDao.constructor | server/sonar-db-dao/src/main/java/org/sonar/db/portfolio/PortfolioDao.java:47-51 | empty tables, empty audit log, no uuid created |
| PortfolioDao.PortfolioDao.Insert | server/sonar-db-dao/src/main/java/org/sonar/db/portfolio/PortfolioDao.java:84-88 | a refused insert changes nothing; an accepted one stores the portfolio and audits its addition once |
| PortfolioDao.PortfolioDao.Update | server/sonar-db-dao/src/main/java/org/sonar/db/portfolio/PortfolioDao.java:102-107 | checks the root first, then sets the update date to now, writes the row and audits the update once |
| PortfolioDao.PortfolioDao.Delete | server/sonar-db-dao/src/main/java/org/sonar/db/portfolio/PortfolioDao.java:90-95 | runs the cascade and audits the deletion once, even when nothing was linked |
| PortfolioDao.PortfolioDao.DeleteAllDescendantPortfolios | server/sonar-db-dao/src/main/java/org/sonar/db/portfolio/PortfolioDao.java:97-100 | removes the tree's descendants without auditing |
| PortfolioDao.PortfolioDao.AddReference | server/sonar-db-dao/src/main/java/org/sonar/db/portfolio/PortfolioDao.java:123-129 | adds exactly one reference row with a fresh uuid and the current time |
| PortfolioDao.PortfolioDao.AddProject | server/sonar-db-dao/src/main/java/org/sonar/db/portfolio/PortfolioDao.java:183-189 | adds exactly one project link with a fresh uuid and the current time |
| PortfolioDao.PortfolioDao.DeleteReference | server/sonar-db-dao/src/main/java/org/sonar/db/portfolio/PortfolioDao.java:163-165 | removes that reference and returns how many rows went |
| PortfolioDao.PortfolioDao.DeleteReferencesTo | server/sonar-db-dao/src/main/java/org/sonar/db/portfolio/PortfolioDao.java:155-157 | removes every reference to the target |
| PortfolioDao.PortfolioDao.DeleteAllReferences | server/sonar-db-dao/src/main/java/org/sonar/db/portfolio/PortfolioDao.java:159-161 | empties the reference table |
| PortfolioDao.PortfolioDao.DeleteProjects | server/sonar-db-dao/src/main/java/org/sonar/db/portfolio/PortfolioDao.java:191-193 | removes the portfolio's project links |
| PortfolioDao.PortfolioDao.DeleteProject | server/sonar-db-dao/src/main/java/org/sonar/db/portfolio/PortfolioDao.java:195-197 | removes one project link |
| PortfolioDao.PortfolioDao.DeleteAllProjects | server/sonar-db-dao/src/main/java/org/sonar/db/portfolio/PortfolioDao.java:199-201 | empties the project link table |
| PortfolioDao.InsertKeepsWellFormed | server/sonar-db-dao/src/main/java/org/sonar/db/portfolio/PortfolioDao.java:84-88 | an accepted insert keeps uuids as row keys, roots consistent and keys distinct |
| PortfolioDao.UpdateKeepsWellFormed | server/sonar-db-dao/src/main/java/org/sonar/db/portfolio/PortfolioDao.java:102-107 | an accepted update keeps the same invariant |
| PortfolioDao.DeleteKeepsWellFormed | server/sonar-db-dao/src/main/java/org/sonar/db/portfolio/PortfolioDao.java:90-95 | a delete keeps the same invariant |
| PortfolioDao.InconsistentRootsAreRefused | server/sonar-db-dao/src/test/java/org/sonar/db/portfolio/PortfolioDaoTest.java:137-152 | a parentless portfolio rooted elsewhere and a child rooted at itself are both refused with an illegal argument |
| PortfolioDao.AddedProjectIsSelected | server/sonar-db-dao/src/test/java/org/sonar/db/portfolio/PortfolioDaoTest.java:380-398 | after adding a link the portfolio's projects gain exactly that project |
| PortfolioDao.AddedReferenceIsSelected | server/sonar-db-dao/src/test/java/org/sonar/db/portfolio/PortfolioDaoTest.java:254-269 | after adding a reference the portfolio's references gain exactly that target |
| PortfolioDao.DeleteProjectRemovesOnlyThatLink | server/sonar-db-dao/src/test/java/org/sonar/db/portfolio/PortfolioDaoTest.java:415-429 | deleting a project link removes exactly that project from exactly that portfolio |
| PortfolioDao.DeleteProjectsEmptiesOnlyThatPortfolio | server/sonar-db-dao/src/test/java/org/sonar/db/portfolio/PortfolioDaoTest.java:399-413 | deleting a portfolio's projects empties its list and leaves the others |
| PortfolioDao.DeleteReferenceRemovesOnlyThatTarget | server/sonar-db-dao/src/test/java/org/sonar/db/portfolio/PortfolioDaoTest.java:366-378 | deleting a reference removes exactly that target from exactly that portfolio |
| PortfolioDao.DeleteForgetsThePortfolio | server/sonar-db-dao/src/test/java/org/sonar/db/portfolio/PortfolioDaoTest.java:154-179 | after a delete no table mentions the portfolio, and deleting again changes nothing |
| DropPrimaryKeySqlGenerator.Generate | server/sonar-db-migration/src/test/java/org/sonar/server/platform/db/migration/sql/DropPrimaryKeySqlGeneratorTest.java:54-130 | an unknown dialect is an illegal state; every statement list ends by dropping the constraint (with its index on Oracle); PostgreSQL first drops the default and drops the sequence exactly when there is one |
| DropPrimaryKeySqlGenerator.MsSqlAndH2AgreeAndOnlyDropTheConstraint | server/sonar-db-migration/src/test/java/org/sonar/server/platform/db/migration/sql/DropPrimaryKeySqlGeneratorTest.java:90-130 | MSSQL and H2 give the same single statement |
| DropPrimaryKeySqlGenerator.PostgreSqlWithoutSequenceOmitsOnlyDropSequence | server/sonar-db-migration/src/test/java/org/sonar/server/platform/db/migration/sql/DropPrimaryKeySqlGeneratorTest.java:65-88 | without a sequence PostgreSQL omits only the DROP SEQUENCE |
| DropPrimaryKeySqlGenerator.OracleNotAutogeneratedIsSuffix | server/sonar-db-migration/src/test/java/org/sonar/server/platform/db/migration/sql/DropPrimaryKeySqlGeneratorTest.java:100-120 | a key that is not generated needs only the last statement of a generated one |
| DropPrimaryKeySqlGenerator.UnknownDialectIsRefused | server/sonar-db-migration/src/test/java/org/sonar/server/platform/db/migration/sql/DropPrimaryKeySqlGeneratorTest.java:54-63 | the unknown dialect of the test is refused |
| DropPrimaryKeySqlGenerator.PostgreSqlStatements | server/sonar-db-migration/src/test/java/org/sonar/server/platform/db/migration/sql/DropPrimaryKeySqlGeneratorTest.java:65-88 | the two PostgreSQL lists of the tests, in order |
| DropPrimaryKeySqlGenerator.MsSqlAndH2Statements | server/sonar-db-migration/src/test/java/org/sonar/server/platform/db/migration/sql/DropPrimaryKeySqlGeneratorTest.java:90-130 | the MSSQL and H2 lists of the tests |
| DropPrimaryKeySqlGenerator.OracleStatements | server/sonar-db-migration/src/test/java/org/sonar/server/platform/db/migration/sql/DropPrimaryKeySqlGeneratorTest.java:100-120 | the two Oracle lists of the tests, in order |

## Left out

- Rendering and styling: JSX trees, CSS class names (the condition's `overview-quality-gate-condition-<level>` class among them), translated texts, tooltips, icons and focus handling are not modelled. Only the decisions that choose what is rendered are modelled: which message, which link, enabled or not.
- The lunr search index is not modelled. `SettingsSearch` records the documents it indexes and the query it builds, and takes the index's answer as a parameter.
- Debouncing and timers are collapsed into a pending step. `SettingsSearch` handlers run at once. The `setTimeout` in `AuditApp.HandleStartDownload` is a pending flag that `RunPendingTimeout` completes.
- Network calls, the Redux store, routing and DOM queries are parameters or recorded requests:
  - the REST calls of `AlmIntegration`, `HotspotViewer`, `AuditApp` and `SubCategoryDefinitionsList`;
  - `router.push`;
  - `document.querySelector` and scrolling.
  Their answers are inputs to the methods that apply them.
- `SubCategoryDefinitionsList`: the scroll offsets and the `SCROLL_OFFSET` constants are not modelled. The e-mail form is modelled only by where it is rendered.
- `HotspotViewer`: the comment text area focus and `handleScrollToCommentForm` are not modelled.
- `Strings.Lower` lower-cases ASCII letters only. JavaScript's Unicode case mapping is not modelled.
- Object key order is not modelled. The model's `map`s do not remember that JavaScript enumerates integer-like keys first.
- `QualityGateCondition.SeveritiesAreTheMostSevereOnes`: only the exact strings "1" to "4" are read as ratings. The source converts the threshold with `Number(threshold)` (QualityGateCondition.tsx line 85), so spellings such as "01", " 1", "1.0" and "1e0" are ratings there. In the model they give no severities.
- `QualityGateCondition.SeveritiesFor`: the same gap. Its `Some` case covers only the exact strings "1" to "4", where `Number(threshold)` (QualityGateCondition.tsx line 85) also accepts other spellings of those numbers.
- Dates are abstract timestamps. The calendar functions are parameters of the model: start and end of day, and subtracting days. So are the ISO formatting and the URL encoding.
- Constants the sources import from files that are not part of this model take the values of those files:
  - the portfolio qualifiers `VW` and `SVW`, and the project qualifier `TRK`;
  - the settings category `pull_request_decoration_binding`;
  - the issue types and severities;
  - the housekeeping policy values.
  The governance console page key is a parameter.
- `CFamily` and `Others`: the generated YAML is checked by its structure and by what it contains. The model does not assert that a given text is absent.
- `PortfolioDao`:
  - the MyBatis mapper is not part of this model. The UPDATE is taken to write every column of the row.
  - the unique constraints on the portfolio uuid and on its key (the `uniq_portfolios_kee` index) are modelled as a `ConstraintViolation` error.
  - `deleteAllDescendantPortfolios` is taken to remove the portfolios of the tree that are not its root.
  - `executeLargeInputs` partitioning is not modelled. Uuid lists are sets.
  - the uuid factory is a counter, and the clock is a `now` parameter.
  - the selects that only forward to the mapper are not modelled: `selectAll`, `selectTree`, `selectByKey`, `selectByKeys`, `selectAllReferencesToPortfolios`, `selectAllReferencesToApplications`, `selectAllReferencesInHierarchy`, `selectReferencers`, `selectRootOfReferencers`, `selectReference`, `selectAllProjectsInHierarchy` and `selectAllPortfolioProjects`.
- `DropPrimaryKeySqlGenerator.Generate`: the generator's own source is not part of this model. It is modelled from its tests, with the table, the column and the constraint generalised.
  - The autogenerated flag changes only the Oracle statements.
  - Catalog lookups are taken to succeed; a missing constraint name is not modelled.
- `LivenessChecker.Liveness`: an exception thrown by a health check is not modelled. Each check is one report.

## Notes

- `QualityGateCondition`: the source decides "on new code" in two ways.
  - The value shown is the period value only when `condition.period` is truthy.
  - The drilldown link is restricted to new code when `condition.period != null`. The "on new code" label uses the same test, for a metric that is not itself a new-code one.
  For period `0` the page shows the overall value but labels it and links it as new code. `QualityGateCondition.PeriodZeroShowsOverallValueButNewCodeDrilldown` and `QualityGateCondition.NewCodeLabelFollowsTheDrilldown` state this. Both behaviours are modelled as written.
