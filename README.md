# tackle2-ui front-end logic in Dafny

This project models the logic of the tackle2-ui web console (the Konveyor
front end) that derives requests, table state and form payloads from data.
It does not model how those are rendered or sent. Each part is one Dafny
module:

- `Rest` covers the REST client layer. It models:
  - `buildQuery`, which turns a parameter record into `key=value` strings;
  - the assessments URL;
  - the paginated helper's `total` and `params`;
  - the `:applicationId` / `:issueId` path templates;
  - the operations that reject a falsy id;
  - the boolean-to-text conversion of settings;
  - the `{ applicationId }` payloads of the report operations;
  - the Accept header chosen for JSON or YAML.
- `TableControlState` covers the `useTableControlState` hook. It models:
  - the argument defaults;
  - the extra columns before and after the data columns;
  - the projection of sort values into column order;
  - the initial sort index;
  - selection by name;
  - bypassing pagination.
- `ApplicationsFilter` covers the application inventory. It models:
  - the value each filter category reads;
  - the `group:artifact:version` artifact classifier;
  - the sort vector;
  - clearing the filters, with the filter values held in a class that the clear operation updates in place;
  - selection by id.
- `AssessmentSummaryTable` covers the assessment summary table. It models:
  - one row per question, taking the first checked answer;
  - the stable sort by category order, then question order;
  - the risk filter;
  - the sort vector;
  - the rendered rows.
- `DependenciesForm` covers the dependency editor. It models:
  - the northbound and southbound dependencies;
  - the already-mapped ids;
  - the candidate options on each side;
  - the close button.
- `IdentityForm` covers bulk credential assignment. It models:
  - the source and Maven options;
  - the per-application update built by `onSubmit`;
  - the default name field;
  - the Save condition.
- `Proxies` covers the development proxy. It models:
  - the headers that the `/auth` and `/hub` request callbacks set on the outgoing request, which is modelled as a class whose header map is updated in place;
  - the redirect of unauthorised browser requests;
  - the `/hub` path rewrite.
- `Common` holds the JavaScript built-ins these rely on, stated on Dafny values: `find`, `filter`, `indexOf`, `join`, `includes`, `replace` with a string pattern, `String(n)` and `parseInt(s, 10)`.
- `Models` holds the resource records.

Code that builds its result step by step is a method proved against the functions that specify it:
- `buildQuery` (nested loops);
- the identities extractor (a loop);
- row rendering (a loop);
- `onSubmit` (a loop);
- the column counters (straight-line conditional increments, with no loop).

Everything else is functions, with lemmas relating them.

Two behaviours of the code are worth stating directly:
- A non-empty `x-total` header that is not a number gives `NaN` (what `parseInt` returns), not 0. See `Rest.TotalOfTextHeader`.
- `getIssueReports` does not forward its parameters. See "## Findings".

## Model

| member | source | states |
|---|---|---|
| Rest.BuildQuery | client/src/app/api/rest.ts:123-141 | the loop over the keys and their values builds exactly `Query(params)`: each key's `key=v` entries in key order, one entry per array element or per other non-nullish value |
| Rest.Query | client/src/app/api/rest.ts:123-141 | defines what `buildQuery` produces: each key's `key=v` entries, keys in order; its properties are the lemmas below |
| Rest.AllNullishQueryEmpty | client/src/app/api/rest.ts:126-129 | a parameter record whose values are all `undefined` or `null` builds an empty query |
| Rest.QueryOmitsNullish | client/src/app/api/rest.ts:126-129 | a key whose value is `undefined` or `null` contributes nothing: the query equals that of the remaining keys |
| Rest.QueryEntryAt | client/src/app/api/rest.ts:131-136 | the j-th element of the i-th key's array is emitted as `key=element`, right after the entries of the earlier keys and elements, so element order is kept |
| Rest.QueryEntryOrigin | client/src/app/api/rest.ts:126-136 | conversely, every emitted entry is `key=v` for some non-nullish key and one of its values |
| Rest.QueryLength | client/src/app/api/rest.ts:123-141 | the number of entries is the sum over the keys: the array length for arrays, 1 for other non-nullish values, 0 for nullish ones |
| Rest.QueryAppend | client/src/app/api/rest.ts:125-139 | entries are grouped by key in key order: the query of two key lists in sequence is the two queries in sequence |
| Rest.ParamCountAppend | client/src/app/api/rest.ts:125-139 | the entry count of two key lists in sequence is the sum of their counts |
| Rest.AssessmentsUrl | client/src/app/api/rest.ts:219-228 | the URL is the assessments path followed by `?`, plus `applicationId=<id>` exactly when an id is given |
| Rest.TotalFromHeader | client/src/app/api/rest.ts:531 | an absent or empty `x-total` gives 0, and a non-empty one gives `parseInt(header, 10)` |
| Rest.PaginatedResult | client/src/app/api/rest.ts:521-533 | the result's data is the response data unchanged, its params echo the call's params, and its total is read from `x-total` |
| Rest.TotalOfCountHeader | client/src/app/api/rest.ts:531 | a header holding the decimal text of a count yields exactly that count |
| Rest.TotalOfTextHeader | client/src/app/api/rest.ts:531 | a non-empty header that is not a number (`n/a`) yields NaN rather than 0 |
| Rest.NoColonInPaths | client/src/app/api/rest.ts:97-108 | the fixed text before each `/:placeholder/` holds no colon, so the placeholder is the first match of the pattern |
| Rest.GetIssueReports | client/src/app/api/rest.ts:541-550 | the application id (the text `undefined` when absent) replaces `/:applicationId/`, and the call always uses the default parameters, whatever params the caller gives |
| Rest.IssueReportsDropParams | client/src/app/api/rest.ts:541-550 | whatever parameters the caller gives, the call is exactly the one made with the default `{}`, and the result's params are always the default |
| Rest.GetIssueReportsForwarding | client/src/app/api/rest.ts:541-550 | corrected version: the same URL, with the caller's parameters forwarded |
| Rest.IssueReportsForwardingEchoes | client/src/app/api/rest.ts:529-533 | with the parameters forwarded, the paginated result echoes the caller's parameters |
| Rest.GetFileReports | client/src/app/api/rest.ts:560-572 | rejects exactly when the issue id is undefined or 0; otherwise the URL is the issue-files path with `/<id>/` in place of `/:issueId/`, and the params are forwarded |
| Rest.GetIncidents | client/src/app/api/rest.ts:574-580 | rejects exactly when the issue id is undefined or 0; otherwise the URL is the incidents path with `/<id>/` in place of `/:issueId/`, and the params are forwarded |
| Rest.GetFacts | client/src/app/api/rest.ts:730-736 | rejects exactly when the id is falsy (undefined, 0 or ""); otherwise it is a GET of `/hub/applications/<id>/facts` |
| Rest.FactsPathHasTruthyId | client/src/app/api/rest.ts:734-735 | an issued facts request always has a non-empty id segment, and for a numeric id that segment is never `0` |
| Rest.UpdateSetting | client/src/app/api/rest.ts:477-483 | a PUT to `/hub/settings/<key>` whose body is never a boolean: a boolean is sent as `"true"`/`"false"`, and any other value is sent unchanged |
| Rest.BooleanBodyMatchesText | client/src/app/api/rest.ts:482 | a boolean setting sends the same request as the corresponding word sent as text |
| Rest.ApplicationIdPayload | client/src/app/api/rest.ts:203-206 | the payload has one `{ applicationId }` record per id, in the same order |
| Rest.PayloadRoundTrip | client/src/app/api/rest.ts:199-208 | reading the ids back from the payload gives the original id list |
| Rest.ApplicationReportRequest | client/src/app/api/rest.ts:248-273 | each report operation POSTs to its own path with a payload that carries exactly the given ids |
| Rest.AcceptFor | client/src/app/api/rest.ts:355 | the YAML Accept header is chosen if and only if the format is YAML, and the JSON header if and only if it is JSON |
| Rest.TaskByIdRequest | client/src/app/api/rest.ts:361-376 | a GET of `/hub/tasks/<id>` with the Accept header of the requested format |
| Rest.ApplicationAnalysisRequest | client/src/app/api/rest.ts:351-359 | a GET of `/hub/applications/<id>/analysis` with the Accept header of the requested format |
| TableControlState.WithDefaults | client/src/app/shared/hooks/use-table-controls/useTableControlState.ts:32-44 | each omitted argument takes its default (false, no expansion, false, [], true, 10), and each given one is kept |
| TableControlState.ColumnsBeforeData | client/src/app/shared/hooks/use-table-controls/useTableControlState.ts:48-51 | at most 2 columns come before the data; none exactly when the table is neither selectable nor single-expandable; 2 exactly when it is both |
| TableControlState.ColumnsAfterData | client/src/app/shared/hooks/use-table-controls/useTableControlState.ts:52-56 | one column comes after the data exactly when there is an actions column |
| TableControlState.CompoundAddsNoColumn | client/src/app/shared/hooks/use-table-controls/useTableControlState.ts:51 | compound expansion adds no column; single expansion adds exactly one |
| TableControlState.CountColumns | client/src/app/shared/hooks/use-table-controls/useTableControlState.ts:48-56 | the incremented counters equal the column counts above, and the rendered count lies between the data-column count and that count plus 3 |
| TableControlState.ColumnKeys | client/src/app/shared/hooks/use-table-controls/useTableControlState.ts:76 | one key per column, in column order |
| TableControlState.ProjectSortValues | client/src/app/shared/hooks/use-table-controls/useTableControlState.ts:70-80 | one entry per column key, in key order; each entry is either `""` or a truthy value that the item gives for that key; every truthy value is kept |
| TableControlState.FalsyValueSortsAsEmpty | client/src/app/shared/hooks/use-table-controls/useTableControlState.ts:77 | a value that is present but falsy, such as 0, is projected as `""` |
| TableControlState.InitialSortIndex | client/src/app/shared/hooks/use-table-controls/useTableControlState.ts:82-87 | present if and only if an initial sort is given; the direction is copied; the index is the first position of the key, or -1 exactly when the key is not a column |
| TableControlState.SelectionKeepsRenewedItem | client/src/app/shared/hooks/use-table-controls/useTableControlState.ts:62-65 | selection compares names: an item refreshed with other data but the same name stays selected |
| TableControlState.IsSelected | client/src/app/shared/hooks/use-table-controls/useTableControlState.ts:62-65 | an item is selected if and only if some selected item has the same name; an item in the selection is always selected |
| TableControlState.UseTableControlState | client/src/app/shared/hooks/use-table-controls/useTableControlState.ts:95-110 | the arguments pass through; the column counts are as above; selection is over the filtered items; the current page is the paginated slice, or the whole sorted list when pagination is off |
| TableControlState.DefaultTableState | client/src/app/shared/hooks/use-table-controls/useTableControlState.ts:32-56 | with every optional argument omitted, exactly one column per name is rendered, pagination applies and there is no initial sort |
| ApplicationsFilter.NameValue | client/src/app/pages/applications/applicationsFilter.ts:49 | the name filter reads the application's name |
| ApplicationsFilter.DescriptionValue | client/src/app/pages/applications/applicationsFilter.ts:59 | the description filter reads the description; the value is `""` exactly when the description is missing or empty |
| ApplicationsFilter.BusinessServiceValue | client/src/app/pages/applications/applicationsFilter.ts:75 | the business-service name, or `""` when there is none |
| ApplicationsFilter.RepositoryValue | client/src/app/pages/applications/applicationsFilter.ts:114 | the repository kind, or `""` when the repository or its kind is missing |
| ApplicationsFilter.FindById | client/src/app/pages/applications/applicationsFilter.ts:93-95 | the first known identity with the id; absent exactly when no identity has that id |
| ApplicationsFilter.IdentityKinds | client/src/app/pages/applications/applicationsFilter.ts:92-97 | one kind per identity reference, in the application's order: the first matching identity's kind, or `""` |
| ApplicationsFilter.IdentitiesValue | client/src/app/pages/applications/applicationsFilter.ts:90-100 | the loop's joined result is the concatenation of those kinds, and its length is the sum of their lengths |
| ApplicationsFilter.IdentityKindInSearchString | client/src/app/pages/applications/applicationsFilter.ts:96-98 | each referenced identity's kind occurs in the search string, at the offset of the kinds before it |
| ApplicationsFilter.UnknownIdentityContributesNothing | client/src/app/pages/applications/applicationsFilter.ts:96 | a reference to an identity that is not known contributes `""` |
| ApplicationsFilter.ArtifactValue | client/src/app/pages/applications/applicationsFilter.ts:128-135 | the value is `binary` or `none`; it is `binary` if and only if the value is present, not `::`, and matches `.+:.+:.+` |
| ApplicationsFilter.CoordinatesAreArtifact | client/src/app/pages/applications/applicationsFilter.ts:130 | any text containing `x:y:z`, where x, y and z are non-empty single-line parts, is classified as `binary` |
| ApplicationsFilter.ArtifactHasCoordinates | client/src/app/pages/applications/applicationsFilter.ts:130 | conversely, text classified as `binary` contains such an `x:y:z` |
| ApplicationsFilter.MissingBinaryIsNone | client/src/app/pages/applications/applicationsFilter.ts:129-132 | an absent or empty value is `none` |
| ApplicationsFilter.DoubleColonNeverMatches | client/src/app/pages/applications/applicationsFilter.ts:130 | `::` does not match the pattern anyway |
| ApplicationsFilter.TagNames | client/src/app/pages/applications/applicationsFilter.ts:146 | one name per tag, in tag order |
| ApplicationsFilter.TagsValue | client/src/app/pages/applications/applicationsFilter.ts:145-148 | `""` without tags; otherwise the concatenated names, whose length is the sum of the name lengths |
| ApplicationsFilter.TagNameInTagsValue | client/src/app/pages/applications/applicationsFilter.ts:146 | each tag's name occurs in the value, after the names of the tags before it |
| ApplicationsFilter.BareApplicationValues | client/src/app/pages/applications/applicationsFilter.ts:49-148 | an application without its optional fields yields `""` for every text category and `none` for the artifact |
| ApplicationsFilter.ItemValue | client/src/app/pages/applications/applicationsFilter.ts:49-148 | the search value of each category: the name, the description or `""`, the business service's name or `""`, `""` for an application without identities, the repository kind or `""`, `binary`/`none` by the coordinates pattern, and text as long as all tag names together |
| ApplicationsFilter.SortValues | client/src/app/pages/applications/applicationsFilter.ts:169-178 | the sort vector has length 8 for the assessment table and 7 otherwise; the name is at 1, the business service at 3 and the tag count (0 without tags) second from last; every other entry is `""` |
| ApplicationsFilter.FilterValues.HandleOnClearAllFilters | client/src/app/pages/applications/applicationsFilter.ts:165-167 | the filter values become the empty map, so no category filters anything |
| ApplicationsFilter.FilterValues.SetFilterValues | client/src/app/pages/applications/applicationsFilter.ts:159-166 | the filter values become exactly the given map |
| ApplicationsFilter.SelectionSurvivesRefresh | client/src/app/pages/applications/applicationsFilter.ts:193-196 | a selected application, fetched again with the same id, stays selected |
| ApplicationsFilter.IsRowSelected | client/src/app/pages/applications/applicationsFilter.ts:186-195 | an application is selected if and only if some selected application has the same id; an application in the selection is always selected |
| ApplicationsFilter.SelectionIgnoresName | client/src/app/pages/applications/applicationsFilter.ts:195 | selection depends on the id alone: renaming an application does not change whether it is selected |
| AssessmentSummaryTable.FirstChecked | client/src/app/pages/applications/application-review/components/application-assessment-summary-table/application-assessment-summary-table.tsx:52-54 | the first checked option; absent exactly when no option is checked |
| AssessmentSummaryTable.MakeItem | client/src/app/pages/applications/application-review/components/application-assessment-summary-table/application-assessment-summary-table.tsx:55-61 | a row carries its category and question, plus the first checked option's text and risk, or `""` and UNKNOWN when none is checked |
| AssessmentSummaryTable.CategoryItems | client/src/app/pages/applications/application-review/components/application-assessment-summary-table/application-assessment-summary-table.tsx:51-63 | one row per question of the category, in question order |
| AssessmentSummaryTable.ItemsCount | client/src/app/pages/applications/application-review/components/application-assessment-summary-table/application-assessment-summary-table.tsx:48-65 | the flattened rows number exactly the questions of all categories |
| AssessmentSummaryTable.Items | client/src/app/pages/applications/application-review/components/application-assessment-summary-table/application-assessment-summary-table.tsx:48-65 | every row comes from a category of the questionnaire and one of that category's questions, and every question of every category yields its row |
| AssessmentSummaryTable.ItemsWellFormed | client/src/app/pages/applications/application-review/components/application-assessment-summary-table/application-assessment-summary-table.tsx:51-65 | every flattened row's answer and risk are those that its question's options give |
| AssessmentSummaryTable.Insert | client/src/app/pages/applications/application-review/components/application-assessment-summary-table/application-assessment-summary-table.tsx:66-72 | one insertion step of the sort adds exactly the new row |
| AssessmentSummaryTable.InsertSorted | client/src/app/pages/applications/application-review/components/application-assessment-summary-table/application-assessment-summary-table.tsx:66-72 | inserting into an ordered list keeps it ordered by category order, then question order |
| AssessmentSummaryTable.SortItems | client/src/app/pages/applications/application-review/components/application-assessment-summary-table/application-assessment-summary-table.tsx:66-72 | the sort returns a permutation of its input, ordered by category order, then question order |
| AssessmentSummaryTable.InsertKeepsKeyOrder | client/src/app/pages/applications/application-review/components/application-assessment-summary-table/application-assessment-summary-table.tsx:66-72 | inserting a row puts it before the rows with its key that were already there |
| AssessmentSummaryTable.SortIsStable | client/src/app/pages/applications/application-review/components/application-assessment-summary-table/application-assessment-summary-table.tsx:66-72 | rows sharing a (category order, question order) key keep their questionnaire order |
| AssessmentSummaryTable.TableItems | client/src/app/pages/applications/application-review/components/application-assessment-summary-table/application-assessment-summary-table.tsx:47-73 | the table has one row per question, holds exactly the built rows, is ordered by category order then question order, and every row is well formed |
| AssessmentSummaryTable.RiskFilterValue | client/src/app/pages/applications/application-review/components/application-assessment-summary-table/application-assessment-summary-table.tsx:74-90 | the risk filter value is always one of the four option keys, and it is the key of the row's own risk: GREEN (Low) if and only if the risk is green, AMBER (Medium) if and only if amber, RED (High) if and only if red, UNKNOWN if and only if unknown |
| AssessmentSummaryTable.RiskOptionsAreExact | client/src/app/pages/applications/application-review/components/application-assessment-summary-table/application-assessment-summary-table.tsx:74-92 | two rows have the same filter value if and only if they have the same risk |
| AssessmentSummaryTable.SortValues | client/src/app/pages/applications/application-review/components/application-assessment-summary-table/application-assessment-summary-table.tsx:98-103 | four sort values: category title, question, answer, and the risk's sort factor, or `""` when that factor is 0 |
| AssessmentSummaryTable.BuildRows | client/src/app/pages/applications/application-review/components/application-assessment-summary-table/application-assessment-summary-table.tsx:139-165 | one rendered row per current-page item, in page order, showing its title, question, answer and risk |
| DependenciesForm.DependencyToOption | client/src/app/components/ApplicationDependenciesFormContainer/ApplicationDependenciesForm.tsx:28-37 | the option holds the dependency and shows its `from` name (north) or its `to` name (south) |
| DependenciesForm.ToOptions | client/src/app/components/ApplicationDependenciesFormContainer/ApplicationDependenciesForm.tsx:109 | one option per dependency, in order |
| DependenciesForm.Incoming | client/src/app/components/ApplicationDependenciesFormContainer/ApplicationDependenciesForm.tsx:107-108 | exactly the fetched dependencies whose `to` is the application, each as often as fetched, in fetched order |
| DependenciesForm.Outgoing | client/src/app/components/ApplicationDependenciesFormContainer/ApplicationDependenciesForm.tsx:116-117 | exactly the fetched dependencies whose `from` is the application, each as often as fetched, in fetched order |
| DependenciesForm.ToOptionsMembers | client/src/app/components/ApplicationDependenciesFormContainer/ApplicationDependenciesForm.tsx:109 | an option is in the mapped list if and only if it is the option of one of the listed dependencies |
| DependenciesForm.Northbound | client/src/app/components/ApplicationDependenciesFormContainer/ApplicationDependenciesForm.tsx:105-112 | one option per incoming dependency, in fetched order, shown by `from` name, so the options are exactly the fetched dependencies whose `to` is the application; the list is unchanged while nothing has been fetched |
| DependenciesForm.Southbound | client/src/app/components/ApplicationDependenciesFormContainer/ApplicationDependenciesForm.tsx:114-121 | one option per outgoing dependency, in fetched order, shown by `to` name, so the options are exactly the fetched dependencies whose `from` is the application; the list is unchanged while nothing has been fetched |
| DependenciesForm.ExistingDependencyMappings | client/src/app/components/ApplicationDependenciesFormContainer/ApplicationDependenciesForm.tsx:128-130 | the southbound `to` ids, then the northbound `from` ids |
| DependenciesForm.MappedIdsHaveDependency | client/src/app/components/ApplicationDependenciesFormContainer/ApplicationDependenciesForm.tsx:128-130 | each mapped id comes from one current southbound or northbound option |
| DependenciesForm.MappedIds | client/src/app/components/ApplicationDependenciesFormContainer/ApplicationDependenciesForm.tsx:105-130 | with fresh lists, an id is mapped if and only if a fetched dependency links the application to it, or it to the application |
| DependenciesForm.SouthboundMapped | client/src/app/components/ApplicationDependenciesFormContainer/ApplicationDependenciesForm.tsx:114-130 | the target of every southbound dependency of the application is mapped |
| DependenciesForm.NorthboundMapped | client/src/app/components/ApplicationDependenciesFormContainer/ApplicationDependenciesForm.tsx:105-130 | the source of every northbound dependency of the application is mapped |
| DependenciesForm.Candidates | client/src/app/components/ApplicationDependenciesFormContainer/ApplicationDependenciesForm.tsx:153-157 | the candidates are exactly the applications other than this one whose id is not mapped, kept in application order, each as often as it appears among the applications |
| DependenciesForm.NorthOptions | client/src/app/components/ApplicationDependenciesFormContainer/ApplicationDependenciesForm.tsx:153-160 | one new dependency per candidate, from the candidate to the application, shown by the candidate's name |
| DependenciesForm.SouthOptions | client/src/app/components/ApplicationDependenciesFormContainer/ApplicationDependenciesForm.tsx:192-199 | one new dependency per candidate, from the application to the candidate, shown by the candidate's name |
| DependenciesForm.OptionsExcludeSelfAndMapped | client/src/app/components/ApplicationDependenciesFormContainer/ApplicationDependenciesForm.tsx:153-199 | no option links the application to itself or to an application already mapped |
| DependenciesForm.SidesOfferSameCandidates | client/src/app/components/ApplicationDependenciesFormContainer/ApplicationDependenciesForm.tsx:153-199 | both sides offer the same candidates, in the same order |
| DependenciesForm.CloseDisabled | client/src/app/components/ApplicationDependenciesFormContainer/ApplicationDependenciesForm.tsx:224 | close is enabled if and only if neither side is being saved |
| IdentityForm.IdentitiesOfKind | client/src/app/pages/applications/components/application-identity-form/application-identity-form.tsx:56 | exactly the identities of the kind, each as often as in the input, in input order |
| IdentityForm.IdentityOptions | client/src/app/pages/applications/components/application-identity-form/application-identity-form.tsx:55-70 | one option per identity of the given kind, in input order, valued and shown by its name; so the options are exactly those identities' names, and there are no more of them than identities |
| IdentityForm.SourceIdentityOptions | client/src/app/pages/applications/components/application-identity-form/application-identity-form.tsx:55-62 | one option per `source` identity; the options are exactly the `source` identities' names |
| IdentityForm.MavenIdentityOptions | client/src/app/pages/applications/components/application-identity-form/application-identity-form.tsx:63-70 | one option per `maven` identity; the options are exactly the `maven` identities' names |
| IdentityForm.SourceOptionsAreSourceIdentities | client/src/app/pages/applications/components/application-identity-form/application-identity-form.tsx:55-62 | every source option names an identity of kind `source` |
| IdentityForm.FindByName | client/src/app/pages/applications/components/application-identity-form/application-identity-form.tsx:100-111 | the first identity with the chosen name; absent when nothing was chosen or no identity has that name |
| IdentityForm.RefsOf | client/src/app/pages/applications/components/application-identity-form/application-identity-form.tsx:103-116 | a found identity is pushed as its `{ id, name }`, and nothing is pushed otherwise |
| IdentityForm.UpdatedIdentities | client/src/app/pages/applications/components/application-identity-form/application-identity-form.tsx:98-117 | no identities without an identities field; otherwise the found source credential, then the found Maven settings |
| IdentityForm.AssignedIdentitiesAreKnown | client/src/app/pages/applications/components/application-identity-form/application-identity-form.tsx:98-117 | every assigned reference is a known identity's own id and name, and at most two are assigned |
| IdentityForm.UpdatePayload | client/src/app/pages/applications/components/application-identity-form/application-identity-form.tsx:119-131 | the update is the application with only its identities replaced |
| IdentityForm.OnSubmit | client/src/app/pages/applications/components/application-identity-form/application-identity-form.tsx:95-136 | exactly one update per application, in input order, each being that application's update payload |
| IdentityForm.UpdatesKeepIdentity | client/src/app/pages/applications/components/application-identity-form/application-identity-form.tsx:120-126 | each update keeps the application's id, name, business service and migration wave |
| IdentityForm.Names | client/src/app/pages/applications/components/application-identity-form/application-identity-form.tsx:139 | one name per application, in order |
| IdentityForm.ApplicationNames | client/src/app/pages/applications/components/application-identity-form/application-identity-form.tsx:138-141 | `""` for no applications, the name itself for one, and otherwise text as long as the names together plus 2 per `", "` separator; where each name and separator stands is stated by `IdentityForm.NameInApplicationNames` |
| IdentityForm.NameInApplicationNames | client/src/app/pages/applications/components/application-identity-form/application-identity-form.tsx:138-141 | the i-th application's name stands in the field after the i names and i `", "` separators before it, and `", "` follows every name but the last |
| IdentityForm.SaveEnabled | client/src/app/pages/applications/components/application-identity-form/application-identity-form.tsx:255 | Save is enabled if and only if the form is valid, dirty, not submitting and not validating |
| Proxies.ApplyAppend | common/src/proxies.ts:23-28 | setting headers in two batches equals setting them in one |
| Proxies.ApplyKeepsOthers | common/src/proxies.ts:23-50 | headers that no call names are left as they were |
| Proxies.ApplySetsOnce | common/src/proxies.ts:23-50 | a header set by exactly one call ends up with that call's value |
| Proxies.ProxyRequest.SetHeader | common/src/proxies.ts:24 | the named header takes the value, and every other header is unchanged |
| Proxies.AuthHeaderUpdates | common/src/proxies.ts:23-28 | the address is set twice (X-Forwarded-For, X-Real-IP) only when it is known, and X-Forwarded-Host only when a host is known |
| Proxies.OnAuthProxyReq | common/src/proxies.ts:10-29 | the outgoing headers become the old ones with those calls applied in order |
| Proxies.AuthHeadersAfterCall | common/src/proxies.ts:23-28 | after the call, the forwarding headers carry the address and the host verbatim, and no other header appears or disappears |
| Proxies.HubHeaderUpdates | common/src/proxies.ts:41-51 | Accept is cleared if and only if the URL contains `windup/report/?filter`; `Authorization: Bearer <cookie>` is set if and only if the cookie is present and the request has no authorization of its own; no other header is set, and none twice |
| Proxies.OnHubProxyReq | common/src/proxies.ts:41-51 | the outgoing headers become the old ones with those calls applied in order |
| Proxies.BearerInjection | common/src/proxies.ts:45-50 | starting without one, the forwarded request has an Authorization header if and only if the cookie is present and the client sent none, and its value is the bearer cookie |
| Proxies.ShouldRedirect | common/src/proxies.ts:53-58 | redirect if and only if the Accept header does not include `application/json` (an absent header counts as not including it) and the status is 401 or the message is `Unauthorized` |
| Proxies.AcceptsJson | common/src/proxies.ts:54-55 | a client is a JSON client if and only if it sent an Accept header in which `application/json` occurs; with no Accept header it is not |
| Proxies.JsonClientsAreNotRedirected | common/src/proxies.ts:53-58 | a client whose Accept lists `application/json` anywhere is never redirected |
| Proxies.BrowserRedirectedOnUnauthorized | common/src/proxies.ts:55-59 | a request without Accept that meets a 401 is redirected |
| Proxies.ServerResponse.Redirect | common/src/proxies.ts:59 | the response records the redirect location |
| Proxies.OnHubProxyRes | common/src/proxies.ts:52-61 | the response is redirected to `/` exactly when the redirect condition holds, and is left alone otherwise |
| Proxies.RewriteHubPath | common/src/proxies.ts:37-39 | a leading `/hub` is removed, and any other path is kept |
| Proxies.RewriteStripsPrefix | common/src/proxies.ts:37-39 | `/hub` followed by a hub path is forwarded as exactly that hub path |
| Common.Find | client/src/app/pages/applications/applicationsFilter.ts:93-95 | `find` returns the first element satisfying the predicate, and is absent exactly when none does |
| Common.Filter | client/src/app/components/ApplicationDependenciesFormContainer/ApplicationDependenciesForm.tsx:107-108 | `filter` keeps exactly the elements satisfying the predicate, each as often as in the input, in input order |
| Common.SubsequenceTransitive | client/src/app/components/ApplicationDependenciesFormContainer/ApplicationDependenciesForm.tsx:153-157 | filtering twice still keeps the original order |
| Common.IndexOf | client/src/app/shared/hooks/use-table-controls/useTableControlState.ts:84 | `indexOf` gives the first position of the element, or -1 exactly when it is absent |
| Common.ReplacePlaceholder | client/src/app/api/rest.ts:546-548 | replacing `/:name/` substitutes the value where the placeholder stands, provided no colon comes before it |
| Common.ParseIntOfIntToString | client/src/app/api/rest.ts:531 | `parseInt(String(n), 10)` is `n` for every integer |
| Common.DigitsValueOfDecimal | client/src/app/api/rest.ts:531 | the decimal digits of n read back as n |
| Common.ConcatLength | client/src/app/pages/applications/applicationsFilter.ts:98 | `join("")` is as long as its parts together |
| Common.ConcatContainsPart | client/src/app/pages/applications/applicationsFilter.ts:146 | each part occurs in `join("")` at the offset of the parts before it |
| Common.JoinLength | client/src/app/pages/applications/components/application-identity-form/application-identity-form.tsx:140 | a non-empty `join(sep)` is as long as its parts plus one separator between each two |
| Common.JoinContainsPart | client/src/app/pages/applications/components/application-identity-form/application-identity-form.tsx:140 | in `join(sep)` each part stands after the parts and separators before it, and a separator follows every part but the last |
| Common.JoinEmptySeparator | client/src/app/pages/applications/applicationsFilter.ts:98 | joining with `""` is plain concatenation |

## Left out

- The HTTP transport is not modelled: `axios`, `APIClient`, promises and `updateAllApplications` batching. Operations yield the request they would issue, or `Rejected` when they return `Promise.reject()`.
- `createTickets` is left out. Its posts are fired inside `map` and never collected, so it has no modellable result.
- `serializeRequestParamsForHub` is left out; its definition is not part of this model. The hub request parameters are an opaque type parameter `P`.
- `getHubRequestParams`, `dedupeFunction` and `getKindIDByRef` are left out; their definitions are not part of this model. The business-service and tag select options built with `dedupeFunction` are therefore not modelled.
- `RISK_LIST` is not part of this model. The risk sort factor is a function parameter of `AssessmentSummaryTable.SortValues`.
- The filter, sort, pagination, selection and expansion hooks are not part of this model. Their results are parameters of `TableControlState.UseTableControlState`, and their own states are not in the modelled result.
- `filterStorageKey`, `getSortValues` and `initialItemsPerPage` are only handed on to those hooks. They are modelled only through the defaults.
- React state and effects, JSX, PatternFly props, translations, notifications and the form validation schema are left out.
- The `isNorthBeingSaved === getAxiosErrorMessage(...)` condition for the helper text is left out, because it only chooses whether a message is shown.
- The environment-variable targets, `changeOrigin`, the logging level and the proxy middleware itself are left out. Header names are compared exactly, not case-insensitively.
- The property order of a JavaScript record (`Object.keys`) is taken to be the given sequence. Integer-like keys, which JavaScript moves to the front, are not modelled.
- Numbers are integers only: sort values, ids, header totals and setting values. Floating point and NaN inside sort values are not modelled; `parseInt` returns an integer or NaN.
- No percent-encoding is modelled, because `buildQuery` performs none: values are rendered into `key=value` as given.
- `DependenciesForm.NorthOptions`, `DependenciesForm.SouthOptions`: the option dependencies hold `{ id, name }` references where the source puts the whole application object (the hub reads only the id and name).
- `Rest.TotalFromHeader`: the header is a single text value; array-valued headers are not modelled.
- `Rest.GetIssueReports`: the application id is modelled as a number or absent. Other values reaching `String(...)` are not modelled.

## Findings

| source | as written | input that shows it | evidently intended | confidence | as-written member | corrected member |
|---|---|---|---|---|---|---|
| client/src/app/api/rest.ts:541-550 | `getIssueReports` takes `params` but calls `getHubPaginatedResult` without it, so the default `{}` is used and the result echoes `{}` | `getIssueReports(1, { page: { pageNumber: 2, itemsPerPage: 10 } })` requests the first page with no filters, and the result's `params` is `{}` | forward `params` as `getFileReports` and `getIncidents` do, so the request is paged and filtered and the result echoes the caller's params | high (not executed) | Rest.IssueReportsDropParams | Rest.IssueReportsForwardingEchoes |
