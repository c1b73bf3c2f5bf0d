# CDB core, modelled in Dafny

CDB (platformcommons) is a registry of APIs and of the providers that publish them. It has several parts:

- an **API Registry** marketplace UI, where the published APIs and the provider directory are browsed;
- a **Provider Registry** console, where providers register, manage their keys, configurations and environments, and write their APIs' OpenAPI descriptions, either as YAML text or in a visual designer;
- the backend services: the api-registry (management and discovery of API entries), the provider-registry (providers, access requests, keys, configurations, environments), the auth-registry (OAuth 2.0 authorization server with PKCE, one-time passwords, users, roles), the gateway (round-robin load balancing, response cache, counters), and the shared security and JPA libraries (RS256 tokens, the public-endpoint table, audit fields).

This project models the logic of that core and proves what it promises. The model falls into four groups.

- **The API designer and OpenAPI.** JavaScript values are modelled as ordered property lists in `Json`. On top of them sit the project state and its merge-style updates (`DesignerProject`), and the basic-details, endpoint, parameter and schema editors (`BasicDetails`, `EndpointEditor`, `ParameterDetails`, `SchemaEditor`). The OpenAPI export covers the document, its schemas and the YAML writer (`OpenApiExport`, `SchemaExport`, `YamlWriter`). The regular-expression YAML import is in `YamlImport`.
- **Backend domain rules.** Each service works on its tables, which are modelled as maps or as sequences indexed by identity id. Each operation maps a state and its inputs to a result and a new state, and the proofs establish the invariants these operations keep. The modules are `ApiManagement`, `ApiMapper`, `ApiDiscovery`, `Providers`, `ProviderRequests`, `ProviderKeys`, `ProviderConfigurations`, `ProviderEnvironments`, `UserProviderMappings`, `UserManagement`, `Roles`, `OtpRegistry`, `OAuth2`, `HomeController`, `JwtTokens`, `PublicEndpoints`, `AuditListener`, `BaseEntity`, `LoadBalancer`, `Cache` and `Monitoring`.
- **Encodings.** `Base64` covers RFC 4648 in the standard, MIME and URL-safe forms the services and the browser use. `Pkce` covers the verifier and S256 challenge of RFC 7636.
- **UI computations.** React state is modelled as a record, and each handler maps it to its successor. The modules cover pagination (`PageStrip`, `Pagination`, `ApisPage`), the chip input and the multi-select (`AutocompleteInput`, `MultiSelectDropdown`), query-string handling (`QueryParams`), the listing services (`ApiService`, `ApiClient`, `ProviderRegistryService`), and the form pages (`ProviderRegistryPage`, `KeysPage`, `AddKey`, `EditConfiguration`, `ProviderValidation`, `ApiEdit`, `ApiDetailModal`, `YamlLint`).

Three shared modules sit under all of these. `Wrappers` holds options and results: Java `null` and JavaScript `undefined` are `None`, and a thrown exception is an `Err`. `Strings` holds trimming, case mapping, splitting, joining and decimal integers, with Java's or JavaScript's semantics as each call site uses them. `Json` holds the JavaScript values.

Clocks, randomness and cryptographic primitives are parameters of the operations that use them.

## Model

| member | source | states |
|---|---|---|
| AddKey.InputChangeRules | cdb-provider-registry/ui/src/pages/AddKey.jsx:52-57 | an edit sets its field and no other, keeps the scopes, and clears that field's error and only that one |
| AddKey.ScopeToggleRules | cdb-provider-registry/ui/src/pages/AddKey.jsx:59-66 | an absent scope is appended, a present one removed with every copy, and toggling an absent scope twice gives the list back |
| AddKey.ValidateRules | cdb-provider-registry/ui/src/pages/AddKey.jsx:68-74 | the title is in error iff it is blank after trimming, the type iff it is empty, and the form is valid iff neither is |
| AddKey.InitialErrors | cdb-provider-registry/ui/src/pages/AddKey.jsx:18-26 | the opening form fails only on its empty title |
| AddKey.PayloadDefaults | cdb-provider-registry/ui/src/pages/AddKey.jsx:82-90 | the payload keeps title, type and scopes, takes ACTIVE and "default" for an empty status and client id, has no expiry for an empty date, and fails iff a given date cannot be read |
| AddKey.ClientIdRules | cdb-provider-registry/ui/src/pages/AddKey.jsx:235 | the client id holds no white space, text without white space is kept, and filtering twice is filtering once |
| ApiClient.ApiBaseUrl | cdb-provider-registry/ui/src/services/api.js:9-17 | a non-empty runtime global is the base; otherwise the build-time variable, or the empty text |
| ApiClient.EmptyBase | cdb-provider-registry/ui/src/services/api.js:20 | without a base the path is used as it is |
| ApiClient.JoinRules | cdb-provider-registry/ui/src/services/api.js:19-25 | with a base, a single '/' joins base and path when neither or both bring one, and they are concatenated when one of them does |
| ApiClient.DoubleSlashBase | cdb-provider-registry/ui/src/services/api.js:21-22 | a base ending in two slashes still leaves a double slash in the URL, since only one is dropped |
| ApiClient.OptionsRules | cdb-provider-registry/ui/src/services/api.js:52-53 | the caller's Content-Type wins over the JSON default, every other header is the caller's, and the body is absent iff it is undefined or null, a string passed as it is |
| ApiClient.JsonContentType | cdb-provider-registry/ui/src/services/api.js:55-56 | a content type starting with application/json reads the body as JSON |
| ApiClient.Settle | cdb-provider-registry/ui/src/services/api.js:57-62 | an error is thrown iff the response is not ok, carrying the status, the data and the message "HTTP" and the status; otherwise the data and status are returned |
| ApiClient.BodilessShortcut | cdb-provider-registry/ui/src/services/api.js:66-67 | the get and delete shortcuts send their own method and no body |
| ApiDetailModal.KeyValueLineIff | cdb-provider-registry/ui/src/components/ApiDetailModal.jsx:34 | a line counts as key: value iff some ':' is followed, anywhere later, by a character that is not white space |
| ApiDetailModal.ColonCount | cdb-provider-registry/ui/src/components/ApiDetailModal.jsx:32-35 | the loop counts the key: value lines among the first fifty |
| ApiDetailModal.LintYaml | cdb-provider-registry/ui/src/components/ApiDetailModal.jsx:22-38 | the computed result is the lint of the text, an absent spec read as the empty text |
| ApiDetailModal.LintRules | cdb-provider-registry/ui/src/components/ApiDetailModal.jsx:22-38 | an empty spec gets the empty-spec verdict; otherwise the text passes iff it holds no tab, and the key: value warning is given iff fewer than three of the first fifty lines look like key: value |
| ApiDetailModal.PathColonIsLast | cdb-provider-registry/ui/src/components/ApiDetailModal.jsx:171 | on a line ending in a non-space character the path pattern can only close on a final ':' |
| ApiDetailModal.OpenApiSummary | cdb-provider-registry/ui/src/components/ApiDetailModal.jsx:155-175 | the line walk with its two flags yields the summary of the text, and nothing for an empty spec |
| ApiDetailModal.NoSpec | cdb-provider-registry/ui/src/components/ApiDetailModal.jsx:157 | an empty spec shows no summary |
| ApiDetailModal.IndentedLineIgnored | cdb-provider-registry/ui/src/components/ApiDetailModal.jsx:162-174 | a line starting with white space changes neither the sections nor the summary |
| ApiDetailModal.HeadersSwitch | cdb-provider-registry/ui/src/components/ApiDetailModal.jsx:164-166 | the info, paths and components headers each switch to their section whatever came before |
| ApiDetailModal.InfoEntrySets | cdb-provider-registry/ui/src/components/ApiDetailModal.jsx:167-169 | inside info, a title, version or description line sets that key, overwriting an earlier value, and stays in info |
| ApiDetailModal.PathsStartWithSlash | cdb-provider-registry/ui/src/components/ApiDetailModal.jsx:171-172 | every recorded path is non-empty and starts with '/' |
| ApiDetailModal.PathRecorded | cdb-provider-registry/ui/src/components/ApiDetailModal.jsx:170-172 | inside paths, an unindented line "/p:" with path characters records p after the earlier paths |
| ApiDiscovery.ClampPage | cdb-api-registry/src/main/java/com/platformcommons/cdb/platform/api/registry/service/ApiDiscoveryService.java:40 | a null or negative page number becomes 0; any other page number is kept |
| ApiDiscovery.ClampSize | cdb-api-registry/src/main/java/com/platformcommons/cdb/platform/api/registry/service/ApiDiscoveryService.java:41 | the size always lies in 1..200; a size in that range is kept; a null or out-of-range size becomes 20 |
| ApiDiscovery.DefaultSort | cdb-api-registry/src/main/java/com/platformcommons/cdb/platform/api/registry/service/ApiDiscoveryService.java:60-64 | a null or blank sort text gives updatedAt, descending |
| ApiDiscovery.SortRules | cdb-api-registry/src/main/java/com/platformcommons/cdb/platform/api/registry/service/ApiDiscoveryService.java:64-73 | the direction is ascending iff the second comma part reads "asc" after trimming and lower-casing; the property is the trimmed first part when that is not blank, and updatedAt otherwise |
| ApiDiscovery.SortRoundTrip | cdb-api-registry/src/main/java/com/platformcommons/cdb/platform/api/registry/service/ApiDiscoveryService.java:60-76 | a sort written as "property,asc" or "property,desc" is read back as itself, for a trimmed, non-blank, comma-free property |
| ApiDiscovery.DirectionRoundTrip | cdb-api-registry/src/main/java/com/platformcommons/cdb/platform/api/registry/service/ApiDiscoveryService.java:70-72 | a direction's text is already trimmed, and it reads as "asc" iff the direction is ascending |
| ApiDiscovery.ParseTwoParts | cdb-api-registry/src/main/java/com/platformcommons/cdb/platform/api/registry/service/ApiDiscoveryService.java:65-73 | a two-part sort text with a non-blank first part gives the trimmed first part and the direction its second part names |
| ApiDiscovery.ListedArePublished | cdb-api-registry/src/main/java/com/platformcommons/cdb/platform/api/registry/service/ApiDiscoveryService.java:46-56 | every listed entry is active and PUBLISHED, and satisfies the owner and provider filters when they are given |
| ApiDiscovery.UnfilteredConditions | cdb-api-registry/src/main/java/com/platformcommons/cdb/platform/api/registry/service/ApiDiscoveryService.java:46-56 | without filters, the conditions are exactly "is active" and "status is PUBLISHED" |
| ApiDiscovery.AvailableQuery | cdb-api-registry/src/main/java/com/platformcommons/cdb/platform/api/registry/service/ApiDiscoveryService.java:78-97 | a limit below one fails with the IllegalArgumentException of PageRequest.of, and exactly then; otherwise the search-specific query is used iff the search text is present and not empty after trimming, and then it searches for the trimmed text; the limit is passed through |
| ApiDiscovery.AvailableQueryTrims | cdb-api-registry/src/main/java/com/platformcommons/cdb/platform/api/registry/service/ApiDiscoveryService.java:79-80 | trimming the search text beforehand does not change the query |
| ApiEdit.LintYaml | cdb-provider-registry/ui/src/pages/ApiEdit.jsx:8-15 | the computed result is the lint of the text |
| ApiEdit.LintRules | cdb-provider-registry/ui/src/pages/ApiEdit.jsx:8-15 | an absent or blank spec passes with the single warning "Empty spec"; any other passes iff it holds no tab, has no warning, and lists one error per line with a tab |
| ApiEdit.FormattingRules | cdb-provider-registry/ui/src/pages/ApiEdit.jsx:63-78 | the text before and after the selection is kept, the wrappers surround it, the new selection covers the same text, and the right wrapper defaults to the left |
| ApiEdit.FormattingUndone | cdb-provider-registry/ui/src/pages/ApiEdit.jsx:63-78 | removing the inserted wrappers gives back the original text |
| ApiEdit.SavedListsClean | cdb-provider-registry/ui/src/pages/ApiEdit.jsx:93-94 | saved tags and domains are trimmed, non-empty and comma-free |
| ApiEdit.LoadSaveRoundTrip | cdb-provider-registry/ui/src/pages/ApiEdit.jsx:36-94 | loading an API and saving it unchanged sends back its tags and domains when their entries are clean, its name or the empty text, and its version and status or the defaults 1.0.0 and DRAFT |
| ApiManagement.Inc32 | cdb-api-registry/src/main/java/com/platformcommons/cdb/platform/api/registry/service/ApiManagementService.java:116-117 | the result is a 32-bit int congruent to n + 1, as Java's int addition gives |
| ApiManagement.IncrementVersion | cdb-api-registry/src/main/java/com/platformcommons/cdb/platform/api/registry/service/ApiManagementService.java:111-121 | the array-based increment computes exactly the next version that the specification function defines |
| ApiManagement.BlankVersionRestarts | cdb-api-registry/src/main/java/com/platformcommons/cdb/platform/api/registry/service/ApiManagementService.java:112 | a null or blank version becomes "1.0.0" |
| ApiManagement.IncrementsLastPart | cdb-api-registry/src/main/java/com/platformcommons/cdb/platform/api/registry/service/ApiManagementService.java:113-118 | when the last dot-separated part is an int, that part is incremented, with wrap-around, and the other parts are kept |
| ApiManagement.IncrementWrapsAtMax | cdb-api-registry/src/main/java/com/platformcommons/cdb/platform/api/registry/service/ApiManagementService.java:116-117 | the largest int wraps around to the smallest |
| ApiManagement.NonNumericGetsSuffix | cdb-api-registry/src/main/java/com/platformcommons/cdb/platform/api/registry/service/ApiManagementService.java:119-120 | a version whose last character is neither a digit nor a '.' gets ".1" appended |
| ApiManagement.NotDigitEndNotInt | cdb-api-registry/src/main/java/com/platformcommons/cdb/platform/api/registry/service/ApiManagementService.java:116 | parseInt refuses text whose last character is not a digit |
| ApiManagement.NextVersionNonBlank | cdb-api-registry/src/main/java/com/platformcommons/cdb/platform/api/registry/service/ApiManagementService.java:111-121 | the next version is never blank |
| ApiManagement.ValueMapFaithful | cdb-api-registry/src/main/java/com/platformcommons/cdb/platform/api/registry/service/ApiManagementService.java:124-142 | two entries have equal value maps iff they agree on every column, where a null list counts as an empty one |
| ApiManagement.EnumerationSorted | cdb-api-registry/src/main/java/com/platformcommons/cdb/platform/api/registry/service/ApiManagementService.java:163 | the key enumeration lists every key of the set exactly once, in increasing order |
| ApiManagement.SortedKeys | cdb-api-registry/src/main/java/com/platformcommons/cdb/platform/api/registry/service/ApiManagementService.java:163 | the TreeSet loop returns that sorted enumeration |
| ApiManagement.DiffDescription | cdb-api-registry/src/main/java/com/platformcommons/cdb/platform/api/registry/service/ApiManagementService.java:161-171 | the loop computes the description that the specification function defines |
| ApiManagement.ChangedKeysRule | cdb-api-registry/src/main/java/com/platformcommons/cdb/platform/api/registry/service/ApiManagementService.java:163-169 | the changed keys are exactly the new map's keys whose old value differs, and they are in sorted order |
| ApiManagement.NoChangesIff | cdb-api-registry/src/main/java/com/platformcommons/cdb/platform/api/registry/service/ApiManagementService.java:170 | the description is "No changes" iff every new value equals the old one |
| ApiManagement.UpdateRules | cdb-api-registry/src/main/java/com/platformcommons/cdb/platform/api/registry/service/ApiManagementService.java:48-63 | an unknown id gives "API not found" and leaves the state as it was; otherwise only that entry changes, to the mapper's update, and a published entry gets the next version and exactly one audit entry |
| ApiManagement.AuditAsWrittenSaysNoChanges | cdb-api-registry/src/main/java/com/platformcommons/cdb/platform/api/registry/service/ApiManagementService.java:54-61 | as written, a published update records equal old and new values and "No changes", whatever it changed |
| ApiManagement.AuditListsChanges | cdb-api-registry/src/main/java/com/platformcommons/cdb/platform/api/registry/service/ApiManagementService.java:57-61 | with the snapshot taken before the update, the audit holds the value maps from before and after the update, says "No changes" iff the entry is unchanged, and names exactly the changed columns |
| ApiManagement.RenameAuditExample | cdb-api-registry/src/main/java/com/platformcommons/cdb/platform/api/registry/service/ApiManagementService.java:54-61 | renaming a published entry from "a" to "b": the as-written audit says "No changes", while the corrected audit does not |
| ApiManagement.RegisterRules | cdb-api-registry/src/main/java/com/platformcommons/cdb/platform/api/registry/service/ApiManagementService.java:41-46 | registering stores the mapper's new entity under a fresh id and changes no stored entry and no audit |
| ApiManagement.StepsPreserveWellKeyed | cdb-api-registry/src/main/java/com/platformcommons/cdb/platform/api/registry/service/ApiManagementService.java:41-63 | registering and updating, as written and corrected, keep every entry stored under its own id, below the next id |
| ApiManagement.CeilDiv | cdb-api-registry/src/main/java/com/platformcommons/cdb/platform/api/registry/service/ApiManagementService.java:84 | the result is the ceiling of n divided by d |
| ApiManagement.ListPageRules | cdb-api-registry/src/main/java/com/platformcommons/cdb/platform/api/registry/service/ApiManagementService.java:65-88 | one summary per entry of the page, in order; the total is the page's size; the page count is zero iff the page is empty and at most one when the page fits |
| ApiManagement.Suggestions | cdb-api-registry/src/main/java/com/platformcommons/cdb/platform/api/registry/service/ApiManagementService.java:242-254 | a null query fails; otherwise the result is the first min(10, n) of the store's matches for the lower-cased query |
| ApiManagement.FiltersRules | cdb-api-registry/src/main/java/com/platformcommons/cdb/platform/api/registry/service/ApiManagementService.java:173-180 | an empty tag or domain list means no filter; a comma-joined status text is split back into the same names |
| ApiManagement.ApiManagementService.constructor | cdb-api-registry/src/main/java/com/platformcommons/cdb/platform/api/registry/service/ApiManagementService.java:33-39 | the service starts with no entries, no audits and next id 1 |
| ApiManagement.ApiManagementService.RegisterApi | cdb-api-registry/src/main/java/com/platformcommons/cdb/platform/api/registry/service/ApiManagementService.java:41-46 | the new state and the returned id are those of the specification step, and the id invariant is kept |
| ApiManagement.ApiManagementService.GetApiDetail | cdb-api-registry/src/main/java/com/platformcommons/cdb/platform/api/registry/service/ApiManagementService.java:90-109 | the lookup succeeds iff the id is stored, and returns that entry; otherwise it fails with "API not found" |
| ApiManagement.ApiManagementService.UpdateApi | cdb-api-registry/src/main/java/com/platformcommons/cdb/platform/api/registry/service/ApiManagementService.java:48-63 | the method applies the update in place and reads the old values from that same entity, so the new state and the result are UpdateAsWritten of the old state, whose audit says "No changes"; the id invariant is kept |
| ApiMapper.NewEntityDefaults | cdb-api-registry/src/main/java/com/platformcommons/cdb/platform/api/registry/mapper/ApiMapper.java:15-30 | a new entity has id 0; its version is the request's when that is non-blank and "1.0.0" otherwise; its status defaults to DRAFT; its tag and domain lists default to empty |
| ApiMapper.AppliedRules | cdb-api-registry/src/main/java/com/platformcommons/cdb/platform/api/registry/mapper/ApiMapper.java:32-68 | a null request field keeps its value and a non-null one, an empty list included, replaces it; the id and the audit columns are never changed; the version changes only to a non-blank new version |
| ApiMapper.AppliedIdempotent | cdb-api-registry/src/main/java/com/platformcommons/cdb/platform/api/registry/mapper/ApiMapper.java:32-68 | applying the same update twice equals applying it once |
| ApiMapper.EmptyUpdateKeeps | cdb-api-registry/src/main/java/com/platformcommons/cdb/platform/api/registry/mapper/ApiMapper.java:32-68 | an update whose fields are all null, with no new version, changes nothing |
| ApiMapper.ReapplyRegistration | cdb-api-registry/src/main/java/com/platformcommons/cdb/platform/api/registry/mapper/ApiMapper.java:15-68 | updating a fresh entity with its own registration request, and no new version, gives the entity back unchanged |
| ApiMapper.Api.FromRecord | cdb-api-registry/src/main/java/com/platformcommons/cdb/platform/api/registry/mapper/ApiMapper.java:32 | the object holds exactly the given state |
| ApiMapper.ToNewEntity | cdb-api-registry/src/main/java/com/platformcommons/cdb/platform/api/registry/mapper/ApiMapper.java:15-30 | a fresh object whose state is the specification's new record |
| ApiMapper.ApplyUpdate | cdb-api-registry/src/main/java/com/platformcommons/cdb/platform/api/registry/mapper/ApiMapper.java:32-68 | returns the same object, now in the state the specification's update gives for its previous state |
| ApiService.EndpointChoice | cdb-api-registry/ui/src/services/apiService.ts:7-35 | the search endpoint is used iff a search text or a non-empty tag, domain or owner list is given; page and size default to 0 and 20; only the listing carries the sort and the provider, only the search the query and the tags |
| ApiService.TotalsRules | cdb-api-registry/ui/src/services/apiService.ts:53-54 | a number at least 0 from the server is the total or page count; without totalElements and numberOfElements the total is the item count; a page count of -1 becomes the current page (0 when missing) plus one, plus two when another page follows |
| ApiService.TotalPagesCoverCurrent | cdb-api-registry/ui/src/services/apiService.ts:54 | without a usable page count the count passes the current page, and the next one when the server says there is one |
| ApiService.FetchRules | cdb-api-registry/ui/src/services/apiService.ts:37-69 | a failed call gives the empty page at the requested page; an apis array without null items is mapped item by item, in order, each with tag and domain lists present |
| ApiService.MissingApis | cdb-api-registry/ui/src/services/apiService.ts:38-53 | a missing apis list gives no items and the total computed from a count of 0, not a failure |
| ApiService.IdText | cdb-api-registry/ui/src/services/apiService.ts:39 | a numeric id becomes its decimal text |
| ApiService.SuggestionRules | cdb-api-registry/ui/src/services/apiService.ts:171-180 | a failure gives the fixed list, a nested list is taken when present, and without either list the answer is empty |
| ApiService.FallbackSuggestions | cdb-api-registry/ui/src/services/apiService.ts:171-202 | a failed tag, domain or owner suggestion call offers its fixed list of names, in order |
| ApiService.DomainFetchRules | cdb-api-registry/ui/src/services/apiService.ts:128-168 | a failed domain listing gives the empty page at the page asked; otherwise the listing is read from data.data, or the body when that is falsy, mapped item by item, and each total is the server's value unless null or missing, then the item count, one page and the page asked |
| ApiService.DomainKeepsNegativeTotals | cdb-api-registry/ui/src/services/apiService.ts:153-155 | the domain listing hands on a -1 page count and a negative total as they came, where the general listing turns -1 into a count past the current page |
| ApisPage.StatusChip | cdb-provider-registry/ui/src/pages/Apis.jsx:71-74 | pressing a chip sets the status filter to it, or clears the filter when it already is the filter; the search is kept and the list goes back to page 0 |
| ApisPage.SetSearch | cdb-provider-registry/ui/src/pages/Apis.jsx:18-26 | typing sets the search at once and, when the text changes, (re)starts the debounce timer; the list's search, the filter and the page stay as they were until the timer fires |
| ApisPage.ClearSearch | cdb-provider-registry/ui/src/pages/Apis.jsx:61-69 | Escape and the clear button are setting the search to the empty text: at once the search is empty and the filter and the page are kept |
| ApisPage.DebounceFires | cdb-provider-registry/ui/src/pages/Apis.jsx:19-23 | when the 300 ms timer fires, the list's search becomes the current search and the page goes back to 0; with no timer pending nothing changes |
| ApisPage.ClearSearchSettles | cdb-provider-registry/ui/src/pages/Apis.jsx:18-69 | once the timer fires after a clear, the list is searched for the empty text on page 0 whenever the search had text or a timer was pending, and the filter is kept |
| ApisPage.TypedSearchSettles | cdb-provider-registry/ui/src/pages/Apis.jsx:18-59 | typing a new text settles, once the timer fires, to that text searched from page 0, with every other part of the page as it was |
| ApisPage.ChipTwice | cdb-provider-registry/ui/src/pages/Apis.jsx:71-74 | pressing the same chip twice restores the filter it started from, no filter or this chip |
| ApisPage.Window | cdb-provider-registry/ui/src/pages/Apis.jsx:258-265 | the computed start and end pages are the visible window of the current page |
| ApisPage.WindowRules | cdb-provider-registry/ui/src/pages/Apis.jsx:258-265 | the window lies within the pages, spans at most five, exactly five when there are that many, all pages otherwise, and holds the current page |
| ApisPage.PageItems | cdb-provider-registry/ui/src/pages/Apis.jsx:257-302 | the pushed items are the strip: the first-page shortcut and an ellipsis, the window's buttons, an ellipsis and the last-page shortcut |
| ApisPage.PushWindow | cdb-provider-registry/ui/src/pages/Apis.jsx:278-288 | the loop appends one button per page of the window, in order, with the current page highlighted |
| ApisPage.Controls | cdb-provider-registry/ui/src/pages/Apis.jsx:236-322 | no pager with at most one page; First and Previous are enabled iff the page is not the first, Next and Last iff it is before the last |
| ApisPage.ControlsShow | cdb-provider-registry/ui/src/pages/Apis.jsx:255-304 | with more than one page, a page has a button iff it is the first, the last or in the window; only the current page is highlighted; an ellipsis shows iff the window leaves a gap at either end |
| ApisPage.NavigationClamped | cdb-provider-registry/ui/src/pages/Apis.jsx:238-322 | First goes to page 0, Previous one back and not below 0, Next one on and not past the last, Last to the last page |
| ApisPage.CeilDiv | cdb-provider-registry/ui/src/pages/Apis.jsx:36 | the page count is the least that holds n entries at d a page |
| ApisPage.ShowingCountsEntries | cdb-provider-registry/ui/src/pages/Apis.jsx:232 | on a page holding the entries it should, the "Showing a to b" line names exactly the entries shown, within 1 to the total |
| ApisPage.ShowingBounds | cdb-provider-registry/ui/src/pages/Apis.jsx:232 | the last number never passes the total, and an empty page starts at 0 |
| ApisPage.LoadedPagesCover | cdb-provider-registry/ui/src/pages/Apis.jsx:36-37 | without a server page count, the count at twelve a page covers every entry and leaves no page empty |
| ApisPage.LoadedTotalsRules | cdb-provider-registry/ui/src/pages/Apis.jsx:34-48 | a server page count is taken as given, and a failed load shows no pager |
| AuditListener.Safe | cdb-shared-libraries/cdb-common-core/src/main/java/com/platformcommons/cdb/common/jpa/AuditableEntityListener.java:55-57 | a null id reads as 0, any other id as itself |
| AuditListener.OnCreateAudit | cdb-shared-libraries/cdb-common-core/src/main/java/com/platformcommons/cdb/common/jpa/AuditableEntityListener.java:19-38 | with no context provider nothing changes; otherwise updated-by is set from the context, and created-by only when it was null |
| AuditListener.OnUpdateAudit | cdb-shared-libraries/cdb-common-core/src/main/java/com/platformcommons/cdb/common/jpa/AuditableEntityListener.java:40-53 | with no context nothing changes; otherwise only the updated-by pair is set, the created-by pair kept |
| AuditListener.AuditedColumnsSet | cdb-shared-libraries/cdb-common-core/src/main/java/com/platformcommons/cdb/common/jpa/AuditableEntityListener.java:28-52 | after a create with a context, no audit column is null, and a later update keeps the created-by pair |
| AuditListener.SetAuditOnCreate | cdb-shared-libraries/cdb-common-core/src/main/java/com/platformcommons/cdb/common/jpa/AuditableEntityListener.java:19-38 | a non-entity is left alone; an entity's audit columns become OnCreateAudit of the old ones and its timestamps are untouched |
| AuditListener.SetAuditOnUpdate | cdb-shared-libraries/cdb-common-core/src/main/java/com/platformcommons/cdb/common/jpa/AuditableEntityListener.java:40-53 | an entity's audit columns become OnUpdateAudit of the old ones; timestamps untouched |
| AutocompleteInput.Unselected | cdb-provider-registry/ui/src/components/AutocompleteInput.jsx:26-28 | a result is offered iff it is among the results and no chip equals it ignoring case |
| AutocompleteInput.SearchResults | cdb-provider-registry/ui/src/components/AutocompleteInput.jsx:21-39 | the search changes only the suggestions and whether they show, never the value, the text box or the highlight |
| AutocompleteInput.ValuesWellFormed | cdb-provider-registry/ui/src/components/AutocompleteInput.jsx:19 | every chip is non-empty, trimmed and comma-free |
| AutocompleteInput.ValuesOfJoin | cdb-provider-registry/ui/src/components/AutocompleteInput.jsx:19 | a list of well-formed chips written as the value reads back as the same chips |
| AutocompleteInput.AddBlank | cdb-provider-registry/ui/src/components/AutocompleteInput.jsx:42 | adding a blank value changes nothing |
| AutocompleteInput.AddRules | cdb-provider-registry/ui/src/components/AutocompleteInput.jsx:41-52 | a new comma-free value becomes the last chip, trimmed; one a chip already has, ignoring case, leaves the value; either way the text box is emptied, the suggestions hidden and the highlight reset |
| AutocompleteInput.RemoveExactly | cdb-provider-registry/ui/src/components/AutocompleteInput.jsx:54-57 | removing index i leaves the chips before and after it, in order |
| AutocompleteInput.BackspaceDropsLast | cdb-provider-registry/ui/src/components/AutocompleteInput.jsx:76-77 | Backspace in an empty text box drops the last chip |
| AutocompleteInput.UnselectedKeepsOrder | cdb-provider-registry/ui/src/components/AutocompleteInput.jsx:26-28 | results with no chip among them are offered whole and in order |
| AutocompleteInput.UnselectedOrder | cdb-provider-registry/ui/src/components/AutocompleteInput.jsx:26-28 | offering the results of a concatenation offers those of each part, in order; a single result is offered once iff no chip matches it, and not at all otherwise |
| AutocompleteInput.ArrowsInRange | cdb-provider-registry/ui/src/components/AutocompleteInput.jsx:67-72 | the arrows keep the highlight between -1 and the last suggestion, ArrowDown one on up to the last, ArrowUp one back down to -1 |
| AutocompleteInput.EnterPicksHighlighted | cdb-provider-registry/ui/src/components/AutocompleteInput.jsx:60-63 | Enter on a highlighted suggestion adds that suggestion |
| Base64.StdValue | cdb-shared-libraries/cdb-security-lib/src/main/java/com/platformcommons/cdb/security/jwt/JwtTokenService.java:163 | the value of a standard-alphabet character is below 64 and maps back to that character |
| Base64.EncodedLength | cdb-provider-registry/src/main/java/com/platformcommons/cdb/platform/provider/registry/service/ProviderKeyService.java:140 | the basic encoding has four characters for every started group of three bytes |
| Base64.UnpaddedLength | cdb-auth-registry/src/main/java/com/platformcommons/cdb/auth/registry/service/impl/OAuth2ServiceImpl.java:160 | without padding, the length is the number of six-bit groups |
| Base64.PaddedSplit | cdb-auth-registry/src/main/java/com/platformcommons/cdb/auth/registry/service/impl/OAuth2ServiceImpl.java:160 | the padded encoding is the unpadded one followed by the last group's padding |
| Base64.EncodeChars | cdb-provider-registry/src/main/java/com/platformcommons/cdb/platform/provider/registry/service/ProviderKeyService.java:140 | the basic encoder emits only alphabet characters and '=' |
| Base64.UrlNoPadChars | cdb-auth-registry/src/main/java/com/platformcommons/cdb/auth/registry/service/impl/OAuth2ServiceImpl.java:160 | the URL-safe encoder without padding emits only URL-safe characters |
| Base64.FullUnit | cdb-shared-libraries/cdb-security-lib/src/main/java/com/platformcommons/cdb/security/jwt/JwtTokenService.java:163 | the four characters of a full group are standard characters that stand for its three bytes |
| Base64.DecodeEncode | cdb-shared-libraries/cdb-security-lib/src/main/java/com/platformcommons/cdb/security/jwt/JwtTokenService.java:163 | decoding the basic encoding gives back the bytes |
| Base64.DropNewline | cdb-provider-registry/src/main/java/com/platformcommons/cdb/platform/provider/registry/service/ProviderKeyService.java:59 | a line break between two texts disappears when line breaks are filtered out |
| Base64.MimeIsEncode | cdb-provider-registry/src/main/java/com/platformcommons/cdb/platform/provider/registry/service/ProviderKeyService.java:59 | the MIME text holds only standard characters, '=' and line breaks, and without its line breaks it is the basic encoding |
| Base64.ReplaceCharPointwise | cdb-provider-registry/ui/src/services/pkce.js:19-20 | replacing a character by one character rewrites the text position by position and keeps its length |
| Base64.RewriteChar | cdb-provider-registry/ui/src/services/pkce.js:19-20 | rewriting '+' and '/' in a standard character gives the URL-safe character of the same value |
| Base64.RewriteAppend | cdb-provider-registry/ui/src/services/pkce.js:18-21 | the rewrite of a concatenation is the concatenation of the rewrites |
| Base64.RewriteGroup | cdb-provider-registry/ui/src/services/pkce.js:18-21 | for one group, the rewritten standard characters are the URL-safe ones |
| Base64.RewritePadding | cdb-provider-registry/ui/src/services/pkce.js:21 | the padding disappears in the rewrite |
| Base64.BtoaUrlIsUrlNoPad | cdb-provider-registry/ui/src/services/pkce.js:15-22 | the helper's rewrite of btoa output is exactly URL-safe Base64 without padding |
| Base64.ThirtyTwoBytes | cdb-provider-registry/ui/src/services/pkce.js:2-6 | 32 random bytes give a 43-character verifier |
| BaseEntity.Created | cdb-shared-libraries/cdb-common-core/src/main/java/com/platformcommons/cdb/common/jpa/BaseEntity.java:56-66 | `onCreate` keeps an existing creation time, else sets it to now; the update time becomes now; a null flag becomes true |
| BaseEntity.Updated | cdb-shared-libraries/cdb-common-core/src/main/java/com/platformcommons/cdb/common/jpa/BaseEntity.java:68-74 | `onUpdate` keeps the creation time, sets the update time to now and a null flag to true |
| BaseEntity.HooksKeepInactive | cdb-shared-libraries/cdb-common-core/src/main/java/com/platformcommons/cdb/common/jpa/BaseEntity.java:63-73 | a false active flag survives both hooks |
| BaseEntity.CreateThenUpdate | cdb-shared-libraries/cdb-common-core/src/main/java/com/platformcommons/cdb/common/jpa/BaseEntity.java:56-74 | after a create, later hooks keep the creation time of the first |
| BaseEntity.BaseEntity.constructor | cdb-shared-libraries/cdb-common-core/src/main/java/com/platformcommons/cdb/common/jpa/BaseEntity.java:28-54 | a new entity has every column null except the active flag, which is true |
| BaseEntity.BaseEntity.OnCreate | cdb-shared-libraries/cdb-common-core/src/main/java/com/platformcommons/cdb/common/jpa/BaseEntity.java:56-66 | the stamps become Created of the old ones |
| BaseEntity.BaseEntity.OnUpdate | cdb-shared-libraries/cdb-common-core/src/main/java/com/platformcommons/cdb/common/jpa/BaseEntity.java:68-74 | the stamps become Updated of the old ones |
| BasicDetails.HandleChangeRules | cdb-provider-registry/ui/src/modules/api-designer/components/BasicDetails.jsx:8-10 | a top-level edit sets that field and keeps every other |
| BasicDetails.NestedChangeRules | cdb-provider-registry/ui/src/modules/api-designer/components/BasicDetails.jsx:12-14 | a contact or license edit sets one sub-field and keeps the others; a missing sub-object starts empty; no other top-level field changes |
| BasicDetails.ServerChangeRules | cdb-provider-registry/ui/src/modules/api-designer/components/BasicDetails.jsx:16-20 | a server edit sets one field of server index and keeps its other fields and the other servers; past the end the list grows to index + 1 with holes; nothing else changes |
| BasicDetails.NonArrayServers | cdb-provider-registry/ui/src/modules/api-designer/components/BasicDetails.jsx:16-32 | a servers value that is not an array is read as empty: adding gives the new server alone, editing server 0 gives a server with that field alone, removing gives an empty list |
| BasicDetails.AddServerRules | cdb-provider-registry/ui/src/modules/api-designer/components/BasicDetails.jsx:22-26 | adding appends the empty server after the others and changes nothing else |
| BasicDetails.RemoveServerRules | cdb-provider-registry/ui/src/modules/api-designer/components/BasicDetails.jsx:28-32 | removal takes out exactly server index, shifting the later ones down; an index past the end removes nothing; nothing else changes |
| BasicDetails.RemoveUndoesAddServer | cdb-provider-registry/ui/src/modules/api-designer/components/BasicDetails.jsx:22-32 | removing the server just added gives the list back |
| Cache.Expiry | cdb-api-gateway/src/main/java/com/platformcommons/cdb/platform/api/gateway/service/CacheService.java:24 | a non-negative TTL gives an expiry no earlier than the moment of the put |
| Cache.AfterPut | cdb-api-gateway/src/main/java/com/platformcommons/cdb/platform/api/gateway/service/CacheService.java:23-25 | after `put` the key holds the new payload and expiry; every other key is unchanged |
| Cache.AfterGet | cdb-api-gateway/src/main/java/com/platformcommons/cdb/platform/api/gateway/service/CacheService.java:27-35 | `get` of an entry past its expiry removes it; a live entry leaves the map as it was; other keys are unchanged |
| Cache.AfterEvict | cdb-api-gateway/src/main/java/com/platformcommons/cdb/platform/api/gateway/service/CacheService.java:37-39 | `evict` removes the key and nothing else |
| Cache.GetNeverPut | cdb-api-gateway/src/main/java/com/platformcommons/cdb/platform/api/gateway/service/CacheService.java:28-29 | a key never put reads as empty and the map is unchanged |
| Cache.PutThenGet | cdb-api-gateway/src/main/java/com/platformcommons/cdb/platform/api/gateway/service/CacheService.java:23-34 | a get at any moment up to the expiry returns the payload just put |
| Cache.PutThenExpire | cdb-api-gateway/src/main/java/com/platformcommons/cdb/platform/api/gateway/service/CacheService.java:30-32 | strictly after the expiry the get is empty and the entry is gone |
| Cache.PutReplaces | cdb-api-gateway/src/main/java/com/platformcommons/cdb/platform/api/gateway/service/CacheService.java:23-25 | a second put on a key replaces both payload and expiry |
| Cache.EvictThenGet | cdb-api-gateway/src/main/java/com/platformcommons/cdb/platform/api/gateway/service/CacheService.java:37-39 | after evict, get of that key is empty |
| Cache.CacheService.constructor | cdb-api-gateway/src/main/java/com/platformcommons/cdb/platform/api/gateway/service/CacheService.java:21 | the cache starts empty |
| Cache.CacheService.Put | cdb-api-gateway/src/main/java/com/platformcommons/cdb/platform/api/gateway/service/CacheService.java:23-25 | the map becomes AfterPut of the old map |
| Cache.CacheService.Get | cdb-api-gateway/src/main/java/com/platformcommons/cdb/platform/api/gateway/service/CacheService.java:27-35 | returns the live payload, if any, and the map becomes AfterGet of the old map |
| Cache.CacheService.Evict | cdb-api-gateway/src/main/java/com/platformcommons/cdb/platform/api/gateway/service/CacheService.java:37-39 | the map becomes AfterEvict of the old map |
| DesignerProject.UpdateProjectRules | cdb-provider-registry/ui/src/modules/api-designer/context.jsx:30-32 | the merge takes every key the updates carry, keeps every other key, and an empty update changes nothing |
| DesignerProject.AddRules | cdb-provider-registry/ui/src/modules/api-designer/context.jsx:34-39 | adding puts the item after the existing ones, keeps the other properties and the key order; a string list is spread into one-character items first; a list that is neither an array nor a string throws |
| DesignerProject.WriteList | cdb-provider-registry/ui/src/modules/api-designer/context.jsx:34-74 | writing a list back sets that list and no other property; writing back the same items gives the project back |
| DesignerProject.UpdateRules | cdb-provider-registry/ui/src/modules/api-designer/context.jsx:41-46 | updating merges the updates into exactly the items with that id and keeps the others, the length and the other properties; no matching id changes nothing; a non-array list or a null item throws |
| DesignerProject.DropMatchingRules | cdb-provider-registry/ui/src/modules/api-designer/context.jsx:51 | the kept items are exactly those without the id, and none is added |
| DesignerProject.RemoveRules | cdb-provider-registry/ui/src/modules/api-designer/context.jsx:48-53 | removal keeps exactly the items without that id and the other properties; no matching id changes nothing; a non-array list or a null item throws |
| DesignerProject.RemoveUndoesAdd | cdb-provider-registry/ui/src/modules/api-designer/context.jsx:34-53 | removing an item just added, by an id no earlier item has, gives the project back |
| EditConfiguration.Values | cdb-provider-registry/ui/src/pages/EditConfiguration.jsx:39 | a missing list gives no values; otherwise one value per element, in order, each that element's configValue |
| EditConfiguration.FindConfig | cdb-provider-registry/ui/src/pages/EditConfiguration.jsx:29 | nothing is found iff no configuration has the id; a found one is among them, has the id, and no configuration before it has the id |
| EditConfiguration.LoadRules | cdb-provider-registry/ui/src/pages/EditConfiguration.jsx:26-47 | an unknown or unreadable id leaves the form as it was; a known id fills the form from a configuration with that id, its values in order and a missing value as empty |
| EditConfiguration.AddRules | cdb-provider-registry/ui/src/pages/EditConfiguration.jsx:64-69 | adding appends an empty value and keeps every other field |
| EditConfiguration.UpdateRules | cdb-provider-registry/ui/src/pages/EditConfiguration.jsx:71-76 | updating sets the value at the index, keeps the length, the other values and every other field, and changes nothing for an index outside the list |
| EditConfiguration.RemoveRules | cdb-provider-registry/ui/src/pages/EditConfiguration.jsx:78-83 | removing drops exactly the value at the index, keeping the others in order and every other field; an index outside the list changes nothing |
| EditConfiguration.RemoveUndoesAdd | cdb-provider-registry/ui/src/pages/EditConfiguration.jsx:64-83 | removing the value just added gives the form back |
| EditConfiguration.UpdateRoundTrip | cdb-provider-registry/ui/src/pages/EditConfiguration.jsx:71-76 | writing a value's own text back changes nothing, and two updates at one index keep the second |
| EndpointEditor.AddParameterRules | cdb-provider-registry/ui/src/modules/api-designer/components/EndpointEditor.jsx:17-27 | the new query parameter goes after the existing ones; without parameters it is the only one; a truthy non-array parameters value throws |
| EndpointEditor.UpdateParameterRules | cdb-provider-registry/ui/src/modules/api-designer/components/EndpointEditor.jsx:29-33 | the update merges into parameter index alone; the other parameters stay; past the end the list grows to index + 1 with holes |
| EndpointEditor.DropIndexIsSplice | cdb-provider-registry/ui/src/modules/api-designer/components/EndpointEditor.jsx:36 | the index filter gives the list without that position, or the list itself when the index is past the end |
| EndpointEditor.DropIndexPast | cdb-provider-registry/ui/src/modules/api-designer/components/EndpointEditor.jsx:36 | once the filter has passed the index it keeps everything |
| EndpointEditor.RemoveParameterRules | cdb-provider-registry/ui/src/modules/api-designer/components/EndpointEditor.jsx:35-38 | removal drops exactly parameter index and keeps the rest in order; an index past the end removes nothing; a non-array list throws |
| EndpointEditor.RemoveUndoesAddParameter | cdb-provider-registry/ui/src/modules/api-designer/components/EndpointEditor.jsx:17-38 | removing the parameter just added gives the old parameters back |
| EndpointEditor.WithContentRules | cdb-provider-registry/ui/src/modules/api-designer/components/EndpointEditor.jsx:45-52 | the update sends only the request body, with the written content and every other request-body field kept |
| EndpointEditor.AddContentRules | cdb-provider-registry/ui/src/modules/api-designer/components/EndpointEditor.jsx:40-53 | a new content type gets an object schema with no properties and the example '{}' iff it is application/json; the other content types stay |
| EndpointEditor.RemoveContentRules | cdb-provider-registry/ui/src/modules/api-designer/components/EndpointEditor.jsx:55-63 | removing a content type drops it and keeps every other |
| EndpointEditor.DeleteSetNew | cdb-provider-registry/ui/src/modules/api-designer/components/EndpointEditor.jsx:55-57 | deleting a key just added gives the object back |
| EndpointEditor.RemoveUndoesAddContent | cdb-provider-registry/ui/src/modules/api-designer/components/EndpointEditor.jsx:40-63 | removing a content type just added gives the content back |
| EndpointEditor.UpdateContentRules | cdb-provider-registry/ui/src/modules/api-designer/components/EndpointEditor.jsx:65-77 | updating a content type merges the updates into it and keeps the other content types |
| EndpointEditor.RenamedPropertiesRules | cdb-provider-registry/ui/src/modules/api-designer/components/EndpointEditor.jsx:92-106 | a renamed property holds the new fragment under the new name, the old name is gone and the other properties stay; saving under the same name keeps the key order |
| EndpointEditor.WithPropertiesRules | cdb-provider-registry/ui/src/modules/api-designer/components/EndpointEditor.jsx:101-105 | the schema written back has the new properties and every other field of the current schema, required among them |
| EndpointEditor.AddSchemaPropertyRules | cdb-provider-registry/ui/src/modules/api-designer/components/EndpointEditor.jsx:79-90 | a new request-schema property property{N+1} gets the string fragment, beside the N there were |
| EndpointEditor.RemoveSchemaPropertyRules | cdb-provider-registry/ui/src/modules/api-designer/components/EndpointEditor.jsx:108-118 | removing a request-schema property deletes only that name |
| EndpointEditor.AddResponseRules | cdb-provider-registry/ui/src/modules/api-designer/components/EndpointEditor.jsx:586-599 | an empty choice does nothing; a status code gets the description from the table and empty headers and content, replacing any response it had, and the other codes stay |
| EndpointEditor.ResponseDescriptionTable | cdb-provider-registry/ui/src/modules/api-designer/components/EndpointEditor.jsx:589 | a code outside the seven known ones is described as "Response"; 404 is "Not Found" and 500 is "Internal Server Error" |
| EndpointEditor.RenameHeaderRules | cdb-provider-registry/ui/src/modules/api-designer/components/EndpointEditor.jsx:696-705 | a renamed header keeps its object under the new name; the old name is gone; the other headers, the response's other fields and the other status codes stay |
| EndpointEditor.EditRules | cdb-provider-registry/ui/src/modules/api-designer/components/EndpointEditor.jsx:13-15 | every edit merges into the endpoints with the edited endpoint's id, keeps their count, and changes no other project property |
| HomeController.Present | cdb-auth-registry/src/main/java/com/platformcommons/cdb/auth/registry/controller/HomeController.java:30-40 | at most three pairs are written |
| HomeController.Signup | cdb-auth-registry/src/main/java/com/platformcommons/cdb/auth/registry/controller/HomeController.java:26-45 | the buffer-and-flag loop builds exactly the signup target the specification function defines |
| HomeController.AppendPair | cdb-auth-registry/src/main/java/com/platformcommons/cdb/auth/registry/controller/HomeController.java:31-39 | appending one pair puts '?' before the first pair and '&' before the others |
| HomeController.Route | cdb-auth-registry/src/main/java/com/platformcommons/cdb/auth/registry/controller/HomeController.java:10-46 | "/", "/login" and "/login/" show the login view; "/signup" and "/signup/" give the signup target; any other path has no view |
| HomeController.PlainSignup | cdb-auth-registry/src/main/java/com/platformcommons/cdb/auth/registry/controller/HomeController.java:26-45 | without a client id and a redirect URI the signup view is shown, even when a state is given |
| HomeController.RedirectShape | cdb-auth-registry/src/main/java/com/platformcommons/cdb/auth/registry/controller/HomeController.java:26-42 | with a client id or a redirect URI the answer redirects to the OAuth2 signup with the present parameters in the order client_id, redirect_uri, state, and with one pair per present parameter |
| HomeController.QueryRoundTrip | cdb-auth-registry/src/main/java/com/platformcommons/cdb/auth/registry/controller/HomeController.java:27-42 | when no value holds an '&', the query splits back into the pairs written, in order |
| HomeController.UnencodedValues | cdb-auth-registry/src/main/java/com/platformcommons/cdb/auth/registry/controller/HomeController.java:31-39 | values are not URL-encoded: a client id "a&state=x" gives the same redirect as client id "a" with state "x" |
| JwtTokens.StripMarkers | cdb-shared-libraries/cdb-security-lib/src/main/java/com/platformcommons/cdb/security/jwt/JwtTokenService.java:134-135 | removing the marker matches never makes the text longer |
| JwtTokens.PadToUnit | cdb-shared-libraries/cdb-security-lib/src/main/java/com/platformcommons/cdb/security/jwt/JwtTokenService.java:159-162 | the padded text's length is a multiple of four |
| JwtTokens.StripDashless | cdb-shared-libraries/cdb-security-lib/src/main/java/com/platformcommons/cdb/security/jwt/JwtTokenService.java:134-135 | text without a dash passes through the marker removal unchanged |
| JwtTokens.StripNoMatch | cdb-shared-libraries/cdb-security-lib/src/main/java/com/platformcommons/cdb/security/jwt/JwtTokenService.java:134-135 | text in which the marker never occurs is left as it is |
| JwtTokens.EndLineKept | cdb-shared-libraries/cdb-security-lib/src/main/java/com/platformcommons/cdb/security/jwt/JwtTokenService.java:134 | the BEGIN pattern leaves an END line alone |
| JwtTokens.MarkerLineMatch | cdb-shared-libraries/cdb-security-lib/src/main/java/com/platformcommons/cdb/security/jwt/JwtTokenService.java:134-135 | a marker line at the start of the text is removed under either quantifier when the line ends after its closing dashes; the lazy pattern removes it whatever follows |
| JwtTokens.GreedyBeginSwallowsLine | cdb-shared-libraries/cdb-security-lib/src/main/java/com/platformcommons/cdb/security/jwt/JwtTokenService.java:134 | on a one-line PEM text, the greedy BEGIN pattern removes the whole line, the key body included |
| JwtTokens.WrittenPemContent | cdb-shared-libraries/cdb-security-lib/src/main/java/com/platformcommons/cdb/security/jwt/JwtTokenService.java:133-137 | a PEM text with BEGIN line, body and END line on separate lines yields its body without whitespace, under either quantifier |
| JwtTokens.SingleLinePemContent | cdb-shared-libraries/cdb-security-lib/src/main/java/com/platformcommons/cdb/security/jwt/JwtTokenService.java:133-137 | the same PEM text on a single line yields nothing with the greedy pattern as written, and exactly the body with the lazy one |
| JwtTokens.LenientOfEncoded | cdb-shared-libraries/cdb-security-lib/src/main/java/com/platformcommons/cdb/security/jwt/JwtTokenService.java:155-164 | the lenient decoder gives back the bytes of any basic Base64 encoding |
| JwtTokens.LenientRestoresPadding | cdb-shared-libraries/cdb-security-lib/src/main/java/com/platformcommons/cdb/security/jwt/JwtTokenService.java:159-162 | Base64 text that lost its '=' padding decodes as if the padding were there |
| JwtTokens.DecodeTripleEquals | cdb-shared-libraries/cdb-security-lib/src/main/java/com/platformcommons/cdb/security/jwt/JwtTokenService.java:161-163 | a unit ending in "===" never decodes |
| JwtTokens.LenientRejectsDangling | cdb-shared-libraries/cdb-security-lib/src/main/java/com/platformcommons/cdb/security/jwt/JwtTokenService.java:158-163 | a single character left after the full four-character units makes the decoding fail |
| JwtTokens.ConstructOutcome | cdb-shared-libraries/cdb-security-lib/src/main/java/com/platformcommons/cdb/security/jwt/JwtTokenService.java:40-60 | a service is built iff a present public PEM parses and a present private PEM parses too, each stripped of its markers by the greedy patterns as written; it then holds those keys and the normalised key id; a missing public key gives "RSA public key (cdb.security.jwt.rsa.public-key) is required …", a present PEM that does not parse gives "Failed to parse RSA keys from PEM: " followed by the thrown exception's message, and every failure is an IllegalState error |
| JwtTokens.SingleLineConstructFails | cdb-shared-libraries/cdb-security-lib/src/main/java/com/platformcommons/cdb/security/jwt/JwtTokenService.java:40-53 | a public key PEM written on one line leaves no content under the greedy markers, so, with the key factory refusing an empty encoding, the constructor fails with "Failed to parse RSA keys from PEM: " followed by the key factory's message |
| JwtTokens.KeyIdNormalized | cdb-shared-libraries/cdb-security-lib/src/main/java/com/platformcommons/cdb/security/jwt/JwtTokenService.java:41 | the key id is kept, trimmed, iff it is present and not blank |
| JwtTokens.HeaderKidAgreement | cdb-shared-libraries/cdb-security-lib/src/main/java/com/platformcommons/cdb/security/jwt/JwtTokenService.java:74-76 | the header carries the stored key id unless that id is blank after trimming |
| JwtTokens.ControlCharKeyId | cdb-shared-libraries/cdb-security-lib/src/main/java/com/platformcommons/cdb/security/jwt/JwtTokenService.java:41 | a key id made of one control character is kept as the empty text |
| JwtTokens.ExtraClaimsWin | cdb-shared-libraries/cdb-security-lib/src/main/java/com/platformcommons/cdb/security/jwt/JwtTokenService.java:69-73 | an extra claim replaces the built-in claim of the same name, and a null extra value removes it |
| JwtTokens.BuiltInClaims | cdb-shared-libraries/cdb-security-lib/src/main/java/com/platformcommons/cdb/security/jwt/JwtTokenService.java:62-68 | without an overriding extra claim, the token carries the subject, the user id, the issue time and the expiry time, which is issue time plus ttl |
| JwtTokens.GenerateNeedsSigningKey | cdb-shared-libraries/cdb-security-lib/src/main/java/com/platformcommons/cdb/security/jwt/JwtTokenService.java:77-80 | issuing succeeds iff the service holds a private key; otherwise it fails with "private key is not configured" |
| JwtTokens.GenerateThenSubject | cdb-shared-libraries/cdb-security-lib/src/main/java/com/platformcommons/cdb/security/jwt/JwtTokenService.java:62-102 | with a matching key pair, an issued token validates and reads back the subject it was issued for |
| JwtTokens.SubjectNeedsValidToken | cdb-shared-libraries/cdb-security-lib/src/main/java/com/platformcommons/cdb/security/jwt/JwtTokenService.java:83-102 | a subject is read only from a token that validates, and a token validates iff its signature verifies |
| JwtTokens.ToByteArrayForm | cdb-shared-libraries/cdb-security-lib/src/main/java/com/platformcommons/cdb/security/jwt/JwtTokenService.java:115-116 | the big-integer bytes are a big-endian form of the number with the sign bit clear and no redundant leading zero |
| JwtTokens.JwkIntegerIsMagnitude | cdb-shared-libraries/cdb-security-lib/src/main/java/com/platformcommons/cdb/security/jwt/JwtTokenService.java:124-131 | each published integer is the URL-safe unpadded Base64 of the number's shortest unsigned bytes |
| JwtTokens.JwksShape | cdb-shared-libraries/cdb-security-lib/src/main/java/com/platformcommons/cdb/security/jwt/JwtTokenService.java:107-122 | there is one RSA RS256 signing key, carrying the service's key id and its modulus and exponent, iff the public key is an RSA key; otherwise the key set is empty |
| KeysPage.ProviderId | cdb-provider-registry/ui/src/pages/Keys.jsx:5-15 | the provider id is never empty: the query's id, else the stored one, else "1", an empty id counting as missing |
| KeysPage.RememberedProvider | cdb-provider-registry/ui/src/pages/Keys.jsx:10-13 | after a query id is remembered, a visit without it finds the same provider, and the add-key link always carries the provider |
| KeysPage.Filtered | cdb-provider-registry/ui/src/pages/Keys.jsx:59-64 | the filtered list is no longer than the keys and holds exactly the keys that match the search |
| KeysPage.EmptySearchKeepsAll | cdb-provider-registry/ui/src/pages/Keys.jsx:59-64 | the empty search keeps every key, in order |
| KeysPage.FilteredAppend | cdb-provider-registry/ui/src/pages/Keys.jsx:59-64 | filtering a concatenation filters each part, so kept keys stay in their order |
| KeysPage.MatchRules | cdb-provider-registry/ui/src/pages/Keys.jsx:60-63 | a key matches iff the lower-cased search occurs in its lower-cased title, type, environment or client id; a key without any of them matches only the empty search |
| KeysPage.DeactivateRules | cdb-provider-registry/ui/src/pages/Keys.jsx:74-92 | a call is made iff the confirmation reads exactly "Permanently Delete" and a key is selected, and otherwise nothing changes; the selected key's id is sent; after a successful call the dialog is closed and cleared; a reload sets the keys, and a failure sets the error and keeps them |
| KeysPage.BadgeMarksDeactivatable | cdb-provider-registry/ui/src/pages/Keys.jsx:51-57 | a key's badge is the highlighted one exactly when its row offers the delete button, and the plain one otherwise |
| KeysPage.OnlyActiveKeysSent | cdb-provider-registry/ui/src/pages/Keys.jsx:74-92 | from a screen with no key selected, the delete button and the typed confirmation send a key's id iff the key is active, and then the id of that key |
| LoadBalancer.WrapIncrement | cdb-api-gateway/src/main/java/com/platformcommons/cdb/platform/api/gateway/service/LoadBalancerService.java:15-26 | the shared counter after one `getAndIncrement`: one more, wrapped to 32 bits |
| LoadBalancer.JavaRem | cdb-api-gateway/src/main/java/com/platformcommons/cdb/platform/api/gateway/service/LoadBalancerService.java:26 | Java's `%`: quotient times divisor plus remainder gives the dividend, the remainder is smaller than the divisor and takes the dividend's sign |
| LoadBalancer.Index | cdb-api-gateway/src/main/java/com/platformcommons/cdb/platform/api/gateway/service/LoadBalancerService.java:26 | the slot `Math.abs(counter % size)` is within the list and equals the absolute value of counter mod size |
| LoadBalancer.Advance | cdb-api-gateway/src/main/java/com/platformcommons/cdb/platform/api/gateway/service/LoadBalancerService.java:26 | the counter after k calls stays a 32-bit integer |
| LoadBalancer.RoundRobinStep | cdb-api-gateway/src/main/java/com/platformcommons/cdb/platform/api/gateway/service/LoadBalancerService.java:26 | from a non-negative counter, the next call picks the next slot round the list |
| LoadBalancer.RoundRobin | cdb-api-gateway/src/main/java/com/platformcommons/cdb/platform/api/gateway/service/LoadBalancerService.java:22-28 | k calls with no wrap add k to the counter and move k slots round the list |
| LoadBalancer.AdvanceNoWrap | cdb-api-gateway/src/main/java/com/platformcommons/cdb/platform/api/gateway/service/LoadBalancerService.java:26 | without a wrap, k increments add k to the counter |
| LoadBalancer.WrapRepeatsSlot | cdb-api-gateway/src/main/java/com/platformcommons/cdb/platform/api/gateway/service/LoadBalancerService.java:26 | at the 32-bit wrap the rotation breaks: three calls from MAX_VALUE over three instances pick slots 1, 2, 1 |
| LoadBalancer.LoadBalancerService.constructor | cdb-api-gateway/src/main/java/com/platformcommons/cdb/platform/api/gateway/service/LoadBalancerService.java:15 | the counter starts at 0 |
| LoadBalancer.LoadBalancerService.ChooseInstance | cdb-api-gateway/src/main/java/com/platformcommons/cdb/platform/api/gateway/service/LoadBalancerService.java:22-28 | a null or empty list gives null and keeps the counter; otherwise the instance at the counter's slot, with the counter advanced once |
| Monitoring.Bump | cdb-api-gateway/src/main/java/com/platformcommons/cdb/platform/api/gateway/service/MonitoringService.java:22-24 | `merge(metric, by, Long::sum)` adds to that counter alone and leaves every other counter |
| Monitoring.ElapsedMillis | cdb-api-gateway/src/main/java/com/platformcommons/cdb/platform/api/gateway/service/MonitoringService.java:35-39 | `Duration.between(...).toMillis()`: the whole milliseconds between the two instants, the fraction dropped toward zero, so a clock that steps back gives a non-positive count no further from zero than the true difference |
| Monitoring.UnseenIsZero | cdb-api-gateway/src/main/java/com/platformcommons/cdb/platform/api/gateway/service/MonitoringService.java:26-28 | a metric never counted reads as 0 |
| Monitoring.TimeEffect | cdb-api-gateway/src/main/java/com/platformcommons/cdb/platform/api/gateway/service/MonitoringService.java:35-37 | `time` adds one to `metric.count`, the elapsed ms to `metric.totalMs`, and nothing else |
| Monitoring.MonitoringService.constructor | cdb-api-gateway/src/main/java/com/platformcommons/cdb/platform/api/gateway/service/MonitoringService.java:20 | the counters start empty |
| Monitoring.MonitoringService.Increment | cdb-api-gateway/src/main/java/com/platformcommons/cdb/platform/api/gateway/service/MonitoringService.java:22-24 | the counters become Bump of the old ones by one |
| Monitoring.MonitoringService.Counter | cdb-api-gateway/src/main/java/com/platformcommons/cdb/platform/api/gateway/service/MonitoringService.java:26-28 | returns the count, 0 for an unseen metric |
| Monitoring.MonitoringService.Time | cdb-api-gateway/src/main/java/com/platformcommons/cdb/platform/api/gateway/service/MonitoringService.java:30-40 | records count and elapsed time even when the runnable throws; rethrows, or returns the time measured again after the finally block |
| MultiSelectDropdown.Without | cdb-api-registry/ui/src/components/common/MultiSelectDropdown.tsx:66 | the filter is no longer than the list and keeps exactly the entries other than the option |
| MultiSelectDropdown.FilteredOptions | cdb-api-registry/ui/src/components/common/MultiSelectDropdown.tsx:24 | an option is offered iff it is among the options and not selected |
| MultiSelectDropdown.FilteredKeepsOrder | cdb-api-registry/ui/src/components/common/MultiSelectDropdown.tsx:24 | with none of the options selected, all are offered in their order |
| MultiSelectDropdown.FilteredOrder | cdb-api-registry/ui/src/components/common/MultiSelectDropdown.tsx:24 | filtering a concatenation filters each part and keeps their order; a single option is kept once iff it is not selected, and dropped otherwise |
| MultiSelectDropdown.ToggleRules | cdb-api-registry/ui/src/components/common/MultiSelectDropdown.tsx:64-74 | toggling an absent option appends it; toggling a present one removes every copy of it and keeps every other selected entry; removing a chip is toggling a selected one off and does nothing otherwise |
| MultiSelectDropdown.ToggleTwice | cdb-api-registry/ui/src/components/common/MultiSelectDropdown.tsx:64-70 | toggling an unselected option twice gives the selection back |
| MultiSelectDropdown.RemoveTwice | cdb-api-registry/ui/src/components/common/MultiSelectDropdown.tsx:72-74 | removing the same chip twice is removing it once |
| OAuth2.FindByEmail | cdb-auth-registry/src/main/java/com/platformcommons/cdb/auth/registry/service/impl/OAuth2ServiceImpl.java:62-71 | `findByEmail` finds the user with that email, none only when no user has it |
| OAuth2.FindById | cdb-auth-registry/src/main/java/com/platformcommons/cdb/auth/registry/service/impl/OAuth2ServiceImpl.java:116 | `findById` finds the user with that id, none only when there is none |
| OAuth2.ValidateClientRules | cdb-auth-registry/src/main/java/com/platformcommons/cdb/auth/registry/service/impl/OAuth2ServiceImpl.java:48-58 | a client is accepted iff it is registered and lists the redirect URI, and the result is that client; an unknown client is "Invalid client" |
| OAuth2.AuthenticateRule | cdb-auth-registry/src/main/java/com/platformcommons/cdb/auth/registry/service/impl/OAuth2ServiceImpl.java:60-66 | authentication succeeds only for an enabled user under the lower-cased name whose hash matches; no such user means failure |
| OAuth2.UnknownUserRefused | cdb-auth-registry/src/main/java/com/platformcommons/cdb/auth/registry/service/impl/OAuth2ServiceImpl.java:61-72 | an email no user has fails authentication, and issuing a code for it fails with "User not found" and leaves the code store unchanged |
| OAuth2.IssuedCode | cdb-auth-registry/src/main/java/com/platformcommons/cdb/auth/registry/service/impl/OAuth2ServiceImpl.java:68-161 | an issued code is 43 characters of the URL-safe alphabet, stored unused for ten minutes with the request's client, user, redirect URI, scope and PKCE fields |
| OAuth2.ExchangeRefusals | cdb-auth-registry/src/main/java/com/platformcommons/cdb/auth/registry/service/impl/OAuth2ServiceImpl.java:92-109 | an unknown or used code, an expired code, a code stored without a client (a NullPointerException), a client mismatch and a failed PKCE check are refused in that order, and none writes anything |
| OAuth2.CodeIsOneShot | cdb-auth-registry/src/main/java/com/platformcommons/cdb/auth/registry/service/impl/OAuth2ServiceImpl.java:111-113 | an exchange that passes the checks marks the code used, so a second exchange is refused |
| OAuth2.ExchangeSuccess | cdb-auth-registry/src/main/java/com/platformcommons/cdb/auth/registry/service/impl/OAuth2ServiceImpl.java:116-131 | a successful exchange returns a Bearer token for the code's user lasting accessTtl seconds |
| OAuth2.PkceRules | cdb-auth-registry/src/main/java/com/platformcommons/cdb/auth/registry/service/impl/OAuth2ServiceImpl.java:139-155 | no verifier never passes; with a method other than S256 the verifier must equal the challenge; with S256 the unpadded base64url of its digest must |
| OAuth2.BrowserChallengeVerifies | cdb-auth-registry/src/main/java/com/platformcommons/cdb/auth/registry/service/impl/OAuth2ServiceImpl.java:144-151 | the S256 challenge the browser computes in `pkce.js` (`btoa` with two rewrites, padding dropped) is accepted for the same verifier |
| OAuth2.EmptyChallenge | cdb-auth-registry/src/main/java/com/platformcommons/cdb/auth/registry/service/impl/OAuth2ServiceImpl.java:105-109 | a code stored with an empty challenge is exchanged only with the empty verifier |
| OAuth2.NoChallengeSkipsPkce | cdb-auth-registry/src/main/java/com/platformcommons/cdb/auth/registry/service/impl/OAuth2ServiceImpl.java:105-109 | a code stored without a challenge passes the PKCE step with any verifier, absent included, once the earlier checks pass |
| OAuth2.OAuth2Service.constructor | cdb-auth-registry/src/main/java/com/platformcommons/cdb/auth/registry/service/impl/OAuth2ServiceImpl.java:35-46 | the service starts with the given clients and users, no codes and the default access TTL of 86400 |
| OAuth2.OAuth2Service.GenerateAuthorizationCode | cdb-auth-registry/src/main/java/com/platformcommons/cdb/auth/registry/service/impl/OAuth2ServiceImpl.java:68-89 | the result and new code store are GenerateStep of the old store |
| OAuth2.OAuth2Service.ExchangeCodeForToken | cdb-auth-registry/src/main/java/com/platformcommons/cdb/auth/registry/service/impl/OAuth2ServiceImpl.java:91-131 | the result and new code store are ExchangeStep of the old store |
| OpenApiExport.MethodName | cdb-provider-registry/ui/src/modules/api-designer/context.jsx:113 | the method name is found iff the endpoint is not null and its method is text |
| OpenApiExport.LastOperation | cdb-provider-registry/ui/src/modules/api-designer/context.jsx:100-123 | a path that no endpoint has gives no operation |
| OpenApiExport.BuildPaths | cdb-provider-registry/ui/src/modules/api-designer/context.jsx:100-123 | the reduce loop gives exactly the specification's paths object, or its error |
| OpenApiExport.ExportSpec | cdb-provider-registry/ui/src/modules/api-designer/context.jsx:76-175 | the two reduce loops give exactly the specification's document, or its error |
| OpenApiExport.PathsErrSticky | cdb-provider-registry/ui/src/modules/api-designer/context.jsx:100-123 | once a prefix of the endpoints throws, the whole reduce throws the same error |
| OpenApiExport.TruthyPairsRules | cdb-provider-registry/ui/src/modules/api-designer/context.jsx:87-89 | exactly the listed keys with a truthy value are kept, each with its value |
| OpenApiExport.SubObjectRules | cdb-provider-registry/ui/src/modules/api-designer/context.jsx:85-98 | a contact or license block is exported iff one of its fields is truthy, and then holds exactly the truthy fields |
| OpenApiExport.InfoRules | cdb-provider-registry/ui/src/modules/api-designer/context.jsx:81-99 | the info block has the project's name as title, its description and version, the contact and license blocks, and the terms of service only when truthy |
| OpenApiExport.ListedServersRules | cdb-provider-registry/ui/src/modules/api-designer/context.jsx:125 | the exported servers are exactly the truthy servers with a truthy URL, each with its URL and its description when truthy, in order, and none is added |
| OpenApiExport.ServersRules | cdb-provider-registry/ui/src/modules/api-designer/context.jsx:124-126 | servers are exported iff the list is a non-empty array; a blank description is dropped |
| OpenApiExport.OperationRules | cdb-provider-registry/ui/src/modules/api-designer/context.jsx:103-121 | an operation has the endpoint's summary and description, its parameters only when a non-empty array, its request body only when the content has keys, and its responses or a single '200' "Success" |
| OpenApiExport.PathsErr | cdb-provider-registry/ui/src/modules/api-designer/context.jsx:100-123 | building the paths throws iff some endpoint is null or has a method that is not text |
| OpenApiExport.PathsShape | cdb-provider-registry/ui/src/modules/api-designer/context.jsx:101 | the paths object has an entry for every endpoint path and no other, and each entry is an object |
| OpenApiExport.PathsLookup | cdb-provider-registry/ui/src/modules/api-designer/context.jsx:100-123 | each path and lower-cased method hold the operation of the last endpoint with that path and method |
| OpenApiExport.SpecErr | cdb-provider-registry/ui/src/modules/api-designer/context.jsx:76-175 | exporting throws iff the endpoints or the schemas are not arrays, an endpoint is null or has a non-text method, or a schema is null |
| OpenApiExport.SpecShape | cdb-provider-registry/ui/src/modules/api-designer/context.jsx:78-175 | a successful export is the document built from the info block, the paths, the servers and the schemas |
| OpenApiExport.DocumentRules | cdb-provider-registry/ui/src/modules/api-designer/context.jsx:78-80 | the document carries openapi 3.1.1, the 2020-12 JSON Schema dialect, the info, the paths, the servers and the component schemas |
| OtpRegistry.Code | cdb-auth-registry/src/main/java/com/platformcommons/cdb/auth/registry/service/OtpRegistryService.java:35 | `%06d` of a draw below 10^6 is six digits whose decimal value is the draw |
| OtpRegistry.InitiateStep | cdb-auth-registry/src/main/java/com/platformcommons/cdb/auth/registry/service/OtpRegistryService.java:28-39 | initiate stores the normalised email, the six-digit code and an expiry five minutes on under the new key, and changes no other entry |
| OtpRegistry.Purged | cdb-auth-registry/src/main/java/com/platformcommons/cdb/auth/registry/service/OtpRegistryService.java:89 | the purge removes exactly the expired entries of that email and keeps the rest unchanged |
| OtpRegistry.VerifyRejectsNull | cdb-auth-registry/src/main/java/com/platformcommons/cdb/auth/registry/service/OtpRegistryService.java:42 | a null key, email or code fails and changes nothing |
| OtpRegistry.VerifyOverride | cdb-auth-registry/src/main/java/com/platformcommons/cdb/auth/registry/service/OtpRegistryService.java:29-46 | "000000" succeeds for any key and email and changes neither store |
| OtpRegistry.VerifyUnknownOrExpired | cdb-auth-registry/src/main/java/com/platformcommons/cdb/auth/registry/service/OtpRegistryService.java:47-52 | an unknown key fails and changes nothing; an expired one fails and is removed |
| OtpRegistry.VerifyLive | cdb-auth-registry/src/main/java/com/platformcommons/cdb/auth/registry/service/OtpRegistryService.java:53-59 | a live entry verifies iff the normalised email and the code match; success moves it to the validated store, failure leaves both stores |
| OtpRegistry.VerifyOnlyOnce | cdb-auth-registry/src/main/java/com/platformcommons/cdb/auth/registry/service/OtpRegistryService.java:53-58 | a key that verified with its real code cannot verify with it again |
| OtpRegistry.InitiateThenVerify | cdb-auth-registry/src/main/java/com/platformcommons/cdb/auth/registry/service/OtpRegistryService.java:33-58 | an initiated key verifies with its own code and email until it expires |
| OtpRegistry.ConsumeOnlyOnce | cdb-auth-registry/src/main/java/com/platformcommons/cdb/auth/registry/service/OtpRegistryService.java:66-79 | after a successful consume the same key fails |
| OtpRegistry.PurgeEffect | cdb-auth-registry/src/main/java/com/platformcommons/cdb/auth/registry/service/OtpRegistryService.java:88-94 | after the purge no entry of that email is expired, other emails' entries are kept, and the live entries of that email are the same before and after |
| OtpRegistry.OtpRegistryService.constructor | cdb-auth-registry/src/main/java/com/platformcommons/cdb/auth/registry/service/OtpRegistryService.java:30-31 | both stores start empty |
| OtpRegistry.OtpRegistryService.Initiate | cdb-auth-registry/src/main/java/com/platformcommons/cdb/auth/registry/service/OtpRegistryService.java:33-39 | returns the fresh key; the state becomes InitiateStep of the old state |
| OtpRegistry.OtpRegistryService.Verify | cdb-auth-registry/src/main/java/com/platformcommons/cdb/auth/registry/service/OtpRegistryService.java:41-60 | the result and new state are VerifyStep of the old state |
| OtpRegistry.OtpRegistryService.ConsumeValidated | cdb-auth-registry/src/main/java/com/platformcommons/cdb/auth/registry/service/OtpRegistryService.java:66-79 | the result and new state are ConsumeStep of the old state |
| OtpRegistry.OtpRegistryService.GetExistingPendingByEmail | cdb-auth-registry/src/main/java/com/platformcommons/cdb/auth/registry/service/OtpRegistryService.java:85-94 | a null or blank email gives none and changes nothing; otherwise the store is purged and the result is a live entry of that email, none only when there is none |
| PageStrip.StripShows | cdb-api-registry/ui/src/components/common/Pagination.tsx:36-75 | for a window inside the pages, a page has a button iff it is the first, the last or in the window; only the current page, when in the window, is highlighted; an ellipsis shows iff pages are skipped at either end |
| Pagination.WindowPages | cdb-api-registry/ui/src/components/common/Pagination.tsx:18-22 | the loop collects the pages from the window's start to its end, in order |
| Pagination.WindowRules | cdb-api-registry/ui/src/components/common/Pagination.tsx:19-21 | for a page in range the window is the pages within two of it, clipped to the page range, and the shortcut and ellipsis tests match how far the page is from either end |
| Pagination.Render | cdb-api-registry/ui/src/components/common/Pagination.tsx:12-15 | nothing is drawn for at most one page; Prev is enabled iff the page is after the first and goes one back; Next iff it is before the last and goes one on |
| Pagination.RenderShows | cdb-api-registry/ui/src/components/common/Pagination.tsx:36-75 | a page is shown iff it is the first, the last or within two of the current one; only the current page is highlighted; an ellipsis shows iff the current page is more than three pages from an end |
| Pagination.NavigationInRange | cdb-api-registry/ui/src/components/common/Pagination.tsx:14-15 | with more than one page at least one of Prev and Next is enabled, and each enabled one moves to an existing page |
| ParameterDetails.RemoveUndefined | cdb-provider-registry/ui/src/modules/api-designer/components/ParameterDetails.jsx:43-48 | the delete loop leaves exactly the pairs the specification filter keeps |
| ParameterDetails.DefinedRules | cdb-provider-registry/ui/src/modules/api-designer/components/ParameterDetails.jsx:44-48 | the filter keeps exactly the defined pairs, so no kept key is undefined, and distinct keys stay distinct |
| ParameterDetails.DefinedAt | cdb-provider-registry/ui/src/modules/api-designer/components/ParameterDetails.jsx:44-48 | after the filter, a key holds its value when that is defined and is gone when it is undefined |
| ParameterDetails.SchemaUpdatesKeys | cdb-provider-registry/ui/src/modules/api-designer/components/ParameterDetails.jsx:28-41 | the schema updates have the twelve keys, each once |
| ParameterDetails.OrUndefined | cdb-provider-registry/ui/src/modules/api-designer/components/ParameterDetails.jsx:30 | the value-or-undefined idiom gives undefined iff the value is falsy |
| ParameterDetails.OmitsEmptyFields | cdb-provider-registry/ui/src/modules/api-designer/components/ParameterDetails.jsx:28-48 | empty text fields and false flags are left out of the schema updates, and a filled one is written as it is |
| ParameterDetails.EnumRules | cdb-provider-registry/ui/src/modules/api-designer/components/ParameterDetails.jsx:36 | the enum is the trimmed, non-empty comma-separated values of its text; an empty text writes no enum |
| ParameterDetails.NumberFieldRules | cdb-provider-registry/ui/src/modules/api-designer/components/ParameterDetails.jsx:31-38 | a filled minimum is written as parseFloat of its text and a filled maxLength as parseInt of its text, an empty one is left out, and the type is always written |
| ParameterDetails.SaveSchemaRules | cdb-provider-registry/ui/src/modules/api-designer/components/ParameterDetails.jsx:55 | the saved schema is the old schema with the surviving updates over it; every key not updated keeps its old value |
| ParameterDetails.SaveFieldsRules | cdb-provider-registry/ui/src/modules/api-designer/components/ParameterDetails.jsx:50-56 | description, required and deprecated are always written; the example is undefined iff it is empty |
| ParameterDetails.ClearedFieldKept | cdb-provider-registry/ui/src/modules/api-designer/components/ParameterDetails.jsx:30-55 | clearing the format does not clear it: the empty value is left out, so the schema keeps its old format |
| ParameterDetails.InitialEnumText | cdb-provider-registry/ui/src/modules/api-designer/components/ParameterDetails.jsx:4-21 | a list enum opens as its items joined by ", " |
| ParameterDetails.EnumRoundTrip | cdb-provider-registry/ui/src/modules/api-designer/components/ParameterDetails.jsx:14-36 | an enum of trimmed, non-empty, comma-free strings, the empty enum included, opens as its values joined by ", " and is saved back as the same list |
| ParameterDetails.UnwrittenKeyKept | cdb-provider-registry/ui/src/modules/api-designer/components/ParameterDetails.jsx:44-55 | a schema key the form does not write keeps the value the schema had |
| ParameterDetails.BlankEnumTextKeeps | cdb-provider-registry/ui/src/modules/api-designer/components/ParameterDetails.jsx:36-55 | an empty enum text writes no enum, so the saved schema keeps the enum it had |
| ParameterDetails.EmptyEnumKept | cdb-provider-registry/ui/src/modules/api-designer/components/ParameterDetails.jsx:14-55 | the empty enum list opens as the empty text and is saved back as the empty list |
| ParameterDetails.ListedEnumRoundTrip | cdb-provider-registry/ui/src/modules/api-designer/components/ParameterDetails.jsx:14-36 | a non-empty enum opens joined by ", " and is split back into the same list |
| ParameterDetails.FormatOptionsRules | cdb-provider-registry/ui/src/modules/api-designer/components/ParameterDetails.jsx:62-73 | every type offers the empty format first; types other than string, number and integer offer nothing else; string offers ten, email among them |
| Pkce.Base64UrlEncode | cdb-provider-registry/ui/src/services/pkce.js:15-22 | the loop builds the binary string byte by byte, and the result is its `btoa` with '+' and '/' rewritten and '=' dropped |
| Pkce.EncodingIsUrlSafe | cdb-provider-registry/ui/src/services/pkce.js:15-22 | that encoding is the unpadded base64url of section 5 of RFC 4648, and never contains '+', '/' or '=' |
| Pkce.VerifierShape | cdb-provider-registry/ui/src/services/pkce.js:2-6 | a verifier from 32 random bytes is 43 unreserved characters, inside the 43 to 128 that section 4.1 of RFC 7636 allows |
| Pkce.ChallengeVerifies | cdb-provider-registry/ui/src/services/pkce.js:8-13 | the challenge is the unpadded base64url of the SHA-256 of the verifier (section 4.2 of RFC 7636), which the server's S256 check accepts |
| ProviderConfigurations.FirstInvalid | cdb-provider-registry/src/main/java/com/platformcommons/cdb/platform/provider/registry/mapper/ProviderConfigurationMapper.java:62-63 | the first list value the type refuses, with every earlier one accepted; none only when all are accepted |
| ProviderConfigurations.NullsPass | cdb-provider-registry/src/main/java/com/platformcommons/cdb/platform/provider/registry/mapper/ProviderConfigurationMapper.java:18 | a null value or a null type is accepted |
| ProviderConfigurations.TypeRules | cdb-provider-registry/src/main/java/com/platformcommons/cdb/platform/provider/registry/mapper/ProviderConfigurationMapper.java:17-35 | NUMBER accepts exactly an optional sign and ASCII decimal digits within 32 bits, the model of `Integer.parseInt`, DOUBLE what `parseDouble` parses, BOOLEAN everything, STRING every non-empty text, and any other type nothing; every refusal reads "Invalid value for type" |
| ProviderConfigurations.NumberExamples | cdb-provider-registry/src/main/java/com/platformcommons/cdb/platform/provider/registry/mapper/ProviderConfigurationMapper.java:23 | a printed 32-bit number passes as NUMBER and "12a" does not |
| ProviderConfigurations.ValidateRequestRule | cdb-provider-registry/src/main/java/com/platformcommons/cdb/platform/provider/registry/mapper/ProviderConfigurationMapper.java:61-66 | with a used list every list value is checked and the single value is not; otherwise only the single value is |
| ProviderConfigurations.InactiveNeverClashes | cdb-provider-registry/src/main/java/com/platformcommons/cdb/platform/provider/registry/service/ProviderConfigurationService.java:36-47 | a request that is not ACTIVE never meets the uniqueness error |
| ProviderConfigurations.CreateClash | cdb-provider-registry/src/main/java/com/platformcommons/cdb/platform/provider/registry/service/ProviderConfigurationService.java:29-47 | an ACTIVE create is refused with the conflict message, changing nothing, iff the provider already has an ACTIVE entry with that code |
| ProviderConfigurations.UniqueClash | cdb-provider-registry/src/main/java/com/platformcommons/cdb/platform/provider/registry/service/ProviderConfigurationService.java:37-45 | an ACTIVE entry with that code, other than the excluded one, is a clash |
| ProviderConfigurations.NoClashNoConflict | cdb-provider-registry/src/main/java/com/platformcommons/cdb/platform/provider/registry/service/ProviderConfigurationService.java:29-34 | past the uniqueness check, create never reports the conflict |
| ProviderConfigurations.ConflictNotInvalid | cdb-provider-registry/src/main/java/com/platformcommons/cdb/platform/provider/registry/service/ProviderConfigurationService.java:42-44 | the conflict message never reads as a value error |
| ProviderConfigurations.CreateEffect | cdb-provider-registry/src/main/java/com/platformcommons/cdb/platform/provider/registry/service/ProviderConfigurationService.java:29-34 | a created entry takes the next id, keeps the request's fields and numbers its list values 1..n in order |
| ProviderConfigurations.UpdateEffect | cdb-provider-registry/src/main/java/com/platformcommons/cdb/platform/provider/registry/service/ProviderConfigurationService.java:62-91 | an unknown id or another provider's entry gives nothing and changes nothing; a clash changes nothing; otherwise only that entry changes, and an entry never clashes with itself |
| ProviderConfigurations.UpdateSkipsValueCheck | cdb-provider-registry/src/main/java/com/platformcommons/cdb/platform/provider/registry/service/ProviderConfigurationService.java:62-91 | update does not validate values: a FLOAT entry create refuses is accepted by update |
| ProviderConfigurations.CreatePreservesOneActive | cdb-provider-registry/src/main/java/com/platformcommons/cdb/platform/provider/registry/service/ProviderConfigurationService.java:29-47 | create keeps at most one ACTIVE entry per provider and code |
| ProviderConfigurations.UpdatePreservesOneActive | cdb-provider-registry/src/main/java/com/platformcommons/cdb/platform/provider/registry/service/ProviderConfigurationService.java:62-91 | update keeps at most one ACTIVE entry per provider and code |
| ProviderConfigurations.OneActiveAfterWrite | cdb-provider-registry/src/main/java/com/platformcommons/cdb/platform/provider/registry/service/ProviderConfigurationService.java:36-47 | writing an entry keeps the rule when no other entry is ACTIVE with its provider and code |
| ProviderConfigurations.FindByIdRule | cdb-provider-registry/src/main/java/com/platformcommons/cdb/platform/provider/registry/service/ProviderConfigurationService.java:49-53 | lookup finds an entry iff it exists, belongs to the asking provider and is ACTIVE, and returns it |
| ProviderConfigurations.DeleteEffect | cdb-provider-registry/src/main/java/com/platformcommons/cdb/platform/provider/registry/service/ProviderConfigurationService.java:93-101 | delete reports whether the provider owned the entry, removes only that entry, and keeps the one-ACTIVE rule |
| ProviderConfigurations.ProviderConfigurationService.constructor | cdb-provider-registry/src/main/java/com/platformcommons/cdb/platform/provider/registry/service/ProviderConfigurationService.java:23-27 | the service starts with no entries |
| ProviderConfigurations.ProviderConfigurationService.Create | cdb-provider-registry/src/main/java/com/platformcommons/cdb/platform/provider/registry/service/ProviderConfigurationService.java:29-34 | the result and new store are CreateStep of the old store |
| ProviderConfigurations.ProviderConfigurationService.ValidateValues | cdb-provider-registry/src/main/java/com/platformcommons/cdb/platform/provider/registry/mapper/ProviderConfigurationMapper.java:60-66 | the loop checks the values in order and stops at the first refusal; the result is the request check |
| ProviderConfigurations.ProviderConfigurationService.Update | cdb-provider-registry/src/main/java/com/platformcommons/cdb/platform/provider/registry/service/ProviderConfigurationService.java:62-91 | the result and new store are UpdateStep of the old store |
| ProviderConfigurations.ProviderConfigurationService.Delete | cdb-provider-registry/src/main/java/com/platformcommons/cdb/platform/provider/registry/service/ProviderConfigurationService.java:93-101 | the result and new store are DeleteStep of the old store |
| ProviderEnvironments.CreateOwned | cdb-provider-registry/src/main/java/com/platformcommons/cdb/platform/provider/registry/service/ProviderEnvironmentService.java:27-32 | a created entry gets the next id and belongs to the current provider; nothing else changes |
| ProviderEnvironments.CreateIgnoresRequestProvider | cdb-provider-registry/src/main/java/com/platformcommons/cdb/platform/provider/registry/service/ProviderEnvironmentService.java:28 | the request's providerId never decides the owner |
| ProviderEnvironments.FindByProviderIdMembers | cdb-provider-registry/src/main/java/com/platformcommons/cdb/platform/provider/registry/service/ProviderEnvironmentService.java:38-41 | the listing holds exactly the current provider's entries, whatever id is asked for |
| ProviderEnvironments.CheckOwnerRule | cdb-provider-registry/src/main/java/com/platformcommons/cdb/platform/provider/registry/service/ProviderEnvironmentService.java:46-64 | the ownership check passes exactly for an entry of the current provider |
| ProviderEnvironments.UpdateRules | cdb-provider-registry/src/main/java/com/platformcommons/cdb/platform/provider/registry/service/ProviderEnvironmentService.java:43-57 | an unknown id answers empty; another provider's entry fails with the mismatch message; an own entry gets exactly the five editable fields replaced; only that entry can change |
| ProviderEnvironments.DeleteRules | cdb-provider-registry/src/main/java/com/platformcommons/cdb/platform/provider/registry/service/ProviderEnvironmentService.java:59-68 | an unknown id answers false, another provider's entry fails, an own entry is removed |
| ProviderEnvironments.ForeignEntriesKept | cdb-provider-registry/src/main/java/com/platformcommons/cdb/platform/provider/registry/service/ProviderEnvironmentService.java:43-68 | no update or delete touches another provider's entry |
| ProviderEnvironments.StepsPreserveWellKeyed | cdb-provider-registry/src/main/java/com/platformcommons/cdb/platform/provider/registry/service/ProviderEnvironmentService.java:43-68 | update and delete keep every entry stored under its own id, below the next id |
| ProviderEnvironments.ProviderEnvironmentService.constructor | cdb-provider-registry/src/main/java/com/platformcommons/cdb/platform/provider/registry/service/ProviderEnvironmentService.java:21-25 | the service starts with no entries and next id 1 |
| ProviderEnvironments.ProviderEnvironmentService.Create | cdb-provider-registry/src/main/java/com/platformcommons/cdb/platform/provider/registry/service/ProviderEnvironmentService.java:27-32 | the result and new store are CreateStep of the old store |
| ProviderEnvironments.ProviderEnvironmentService.FindById | cdb-provider-registry/src/main/java/com/platformcommons/cdb/platform/provider/registry/service/ProviderEnvironmentService.java:34-36 | finds the entry iff the id is stored, and returns it |
| ProviderEnvironments.ProviderEnvironmentService.Update | cdb-provider-registry/src/main/java/com/platformcommons/cdb/platform/provider/registry/service/ProviderEnvironmentService.java:43-57 | the result and new store are UpdateStep of the old store |
| ProviderEnvironments.ProviderEnvironmentService.Delete | cdb-provider-registry/src/main/java/com/platformcommons/cdb/platform/provider/registry/service/ProviderEnvironmentService.java:59-68 | the result and new store are DeleteStep of the old store |
| ProviderKeys.JavaSplitParts | cdb-provider-registry/src/main/java/com/platformcommons/cdb/platform/provider/registry/model/ProviderKey.java:92 | no part of `split(",")` contains a comma |
| ProviderKeys.GetScopesWellFormed | cdb-provider-registry/src/main/java/com/platformcommons/cdb/platform/provider/registry/model/ProviderKey.java:90-96 | `getScopes` yields distinct, non-empty, trimmed, comma-free scopes |
| ProviderKeys.JoinNotBlank | cdb-provider-registry/src/main/java/com/platformcommons/cdb/platform/provider/registry/model/ProviderKey.java:91-102 | a non-empty join of well-formed scopes is not blank |
| ProviderKeys.JavaSplitJoin | cdb-provider-registry/src/main/java/com/platformcommons/cdb/platform/provider/registry/model/ProviderKey.java:92-102 | `split(",")` of the comma join gives the scopes back |
| ProviderKeys.ReadJoined | cdb-provider-registry/src/main/java/com/platformcommons/cdb/platform/provider/registry/model/ProviderKey.java:90-96 | reading a joined column is trimming, dropping empties and removing repeats |
| ProviderKeys.CleanScopesKept | cdb-provider-registry/src/main/java/com/platformcommons/cdb/platform/provider/registry/model/ProviderKey.java:93-95 | distinct well-formed scopes survive the trim, filter and set unchanged |
| ProviderKeys.ScopesRoundTrip | cdb-provider-registry/src/main/java/com/platformcommons/cdb/platform/provider/registry/model/ProviderKey.java:90-104 | distinct, non-empty, trimmed, comma-free scopes stored and read back come out the same and in order |
| ProviderKeys.BlankScopeLost | cdb-provider-registry/src/main/java/com/platformcommons/cdb/platform/provider/registry/model/ProviderKey.java:91-103 | a single scope of em-spaces, which `trim` keeps, makes the column blank, so it reads back as no scopes |
| ProviderKeys.NoScopesIsNull | cdb-provider-registry/src/main/java/com/platformcommons/cdb/platform/provider/registry/model/ProviderKey.java:91-100 | the column is null exactly for a null or empty set, and a null column reads as empty |
| ProviderKeys.MimeBody | cdb-provider-registry/src/main/java/com/platformcommons/cdb/platform/provider/registry/service/ProviderKeyService.java:59 | the MIME body has no dash, and removing its line breaks gives the basic Base64 encoding |
| ProviderKeys.PemBody | cdb-provider-registry/src/main/java/com/platformcommons/cdb/platform/provider/registry/service/ProviderKeyService.java:58-61 | the body of a written PEM text is the Base64 of the DER bytes, whether the marker pattern is greedy or lazy |
| ProviderKeys.PemRoundTrip | cdb-provider-registry/src/main/java/com/platformcommons/cdb/platform/provider/registry/service/ProviderKeyService.java:58-61 | the token service's key parser gets exactly the DER bytes of a PEM text this service wrote |
| ProviderKeys.KeyTags | cdb-provider-registry/src/main/java/com/platformcommons/cdb/platform/provider/registry/service/ProviderKeyService.java:130-131 | the two PEM labels contain only label characters |
| ProviderKeys.FirstClash | cdb-provider-registry/src/main/java/com/platformcommons/cdb/platform/provider/registry/service/ProviderKeyService.java:94-98 | the first live key of that provider, type, environment and client in table order, none only when no key clashes |
| ProviderKeys.FindKey | cdb-provider-registry/src/main/java/com/platformcommons/cdb/platform/provider/registry/service/ProviderKeyService.java:215 | the key of that provider and keyId, none only when there is none |
| ProviderKeys.UnknownProvider | cdb-provider-registry/src/main/java/com/platformcommons/cdb/platform/provider/registry/service/ProviderKeyService.java:85-86 | an unknown provider gets an empty answer and the table is unchanged |
| ProviderKeys.ClientIdRule | cdb-provider-registry/src/main/java/com/platformcommons/cdb/platform/provider/registry/service/ProviderKeyService.java:91 | the client id is "default" when null or blank, else trimmed; it is never blank and applying the rule twice changes nothing |
| ProviderKeys.ConflictRule | cdb-provider-registry/src/main/java/com/platformcommons/cdb/platform/provider/registry/service/ProviderKeyService.java:92-107 | a live request clashing with a live key: a signing key is refused, an encryption key is answered with the stored key; either way nothing is added |
| ProviderKeys.OnlyRsa | cdb-provider-registry/src/main/java/com/platformcommons/cdb/platform/provider/registry/service/ProviderKeyService.java:118-126 | a signing request for an algorithm other than RSA in any letter case is refused and adds nothing; an RSA request fails exactly when the key pair generator refuses the size, with the generator's exception, and then also adds nothing |
| ProviderKeys.GenerateShape | cdb-provider-registry/src/main/java/com/platformcommons/cdb/platform/provider/registry/service/ProviderKeyService.java:111-168 | a new key is appended with the request's fields, the effective status and client; the response carries the private text and the scopes read back; a refusal changes nothing |
| ProviderKeys.ResponseScopes | cdb-provider-registry/src/main/java/com/platformcommons/cdb/platform/provider/registry/service/ProviderKeyService.java:53-165 | the response's scopes are the requested ones without repeats |
| ProviderKeys.SigningKeyParses | cdb-provider-registry/src/main/java/com/platformcommons/cdb/platform/provider/registry/service/ProviderKeyService.java:116-132 | a signing key gets the default size 4096 and its public PEM parses back to the X.509 bytes |
| ProviderKeys.GeneratePreservesUniqueLive | cdb-provider-registry/src/main/java/com/platformcommons/cdb/platform/provider/registry/service/ProviderKeyService.java:90-109 | generation keeps at most one live key per provider, type, environment and client |
| ProviderKeys.DeactivateEffect | cdb-provider-registry/src/main/java/com/platformcommons/cdb/platform/provider/registry/service/ProviderKeyService.java:214-224 | an unknown key reports false and changes nothing; otherwise only that key becomes NOT_ACTIVE and stops being published |
| ProviderKeys.DeactivatePreservesUniqueLive | cdb-provider-registry/src/main/java/com/platformcommons/cdb/platform/provider/registry/service/ProviderKeyService.java:214-224 | deactivation keeps the one-live-key rule |
| ProviderKeys.PublicKeysListed | cdb-provider-registry/src/main/java/com/platformcommons/cdb/platform/provider/registry/service/ProviderKeyService.java:195-203 | exactly the provider's ACTIVE SIGNING keys are published, each as its environment and public text |
| ProviderKeys.SymmetricAnswers | cdb-provider-registry/src/main/java/com/platformcommons/cdb/platform/provider/registry/service/ProviderKeyService.java:74-82 | `generateSymmetricKey` for a known provider always answers with a key |
| ProviderKeys.SymmetricIdempotent | cdb-provider-registry/src/main/java/com/platformcommons/cdb/platform/provider/registry/service/ProviderKeyService.java:74-106 | asking twice for the caller's symmetric key gives the same answer and the second call adds nothing |
| ProviderKeys.ProviderKeyService.constructor | cdb-provider-registry/src/main/java/com/platformcommons/cdb/platform/provider/registry/service/ProviderKeyService.java:36-40 | the service starts with an empty key table over the given providers |
| ProviderKeys.ProviderKeyService.GenerateKey | cdb-provider-registry/src/main/java/com/platformcommons/cdb/platform/provider/registry/service/ProviderKeyService.java:84-173 | the result and new table are GenerateStep of the old table, and the one-live-key rule is kept |
| ProviderKeys.ProviderKeyService.GenerateSymmetricKey | cdb-provider-registry/src/main/java/com/platformcommons/cdb/platform/provider/registry/service/ProviderKeyService.java:74-82 | GenerateStep of the symmetric request; never an error, and the one-live-key rule is kept |
| ProviderKeys.ProviderKeyService.DeactivateKey | cdb-provider-registry/src/main/java/com/platformcommons/cdb/platform/provider/registry/service/ProviderKeyService.java:214-224 | the result and new table are DeactivateStep of the old table, and the one-live-key rule is kept |
| ProviderKeys.ProviderKeyService.ListKeysPublic | cdb-provider-registry/src/main/java/com/platformcommons/cdb/platform/provider/registry/service/ProviderKeyService.java:195-203 | returns the published summaries of the table, leaving it unchanged |
| ProviderRegistryPage.SliceBound | cdb-api-registry/ui/src/pages/ProviderRegistryPage.tsx:88 | a slice bound in 0..n is kept, one past n is clamped to n, and a negative one counts from the end, clamped at 0 |
| ProviderRegistryPage.PagedRules | cdb-api-registry/ui/src/pages/ProviderRegistryPage.tsx:86-89 | a page shows the providers from page * 10 on, at most ten of them, in their order, and none past the end |
| ProviderRegistryPage.EachProviderOnItsPage | cdb-api-registry/ui/src/pages/ProviderRegistryPage.tsx:86-89 | provider i is item i % 10 of page i / 10 |
| ProviderRegistryPage.NonEmptyPages | cdb-api-registry/ui/src/pages/ProviderRegistryPage.tsx:86-91 | a page shows something iff it is below the page count |
| ProviderRegistryPage.LabelRules | cdb-api-registry/ui/src/pages/ProviderRegistryPage.tsx:226 | the label shows the page count, and 1 when there are no providers, never "of 0" |
| ProviderRegistryPage.NavigationRules | cdb-api-registry/ui/src/pages/ProviderRegistryPage.tsx:228-229 | Previous never goes below the first page; an enabled Next goes one page on; Next is disabled iff the page is the last or beyond; both keep the page reachable |
| ProviderRegistryPage.Find | cdb-api-registry/ui/src/pages/ProviderRegistryPage.tsx:97 | nothing is found iff no element passes; a found element passes and is in the list |
| ProviderRegistryPage.FindFirst | cdb-api-registry/ui/src/pages/ProviderRegistryPage.tsx:97 | an element that passes, with none before it that does, is the one found |
| ProviderRegistryPage.PreferredKeyRules | cdb-api-registry/ui/src/pages/ProviderRegistryPage.tsx:97 | an ACTIVE SIGNING key is taken when there is one, else an ACTIVE key, else the first key; there is none iff the list is empty |
| ProviderRegistryPage.FirstSigningWins | cdb-api-registry/ui/src/pages/ProviderRegistryPage.tsx:97 | the earliest ACTIVE SIGNING key is the one taken |
| ProviderRegistryPage.PublicKeyPemRules | cdb-api-registry/ui/src/pages/ProviderRegistryPage.tsx:98 | the preferred key's public part is used, and the empty text without a key or a public part |
| ProviderRegistryPage.BaseUrlRules | cdb-api-registry/ui/src/pages/ProviderRegistryPage.tsx:102-104 | the base URL is that of the first environment of the type, and empty without one |
| ProviderRegistryPage.EnvDownloadLines | cdb-api-registry/ui/src/pages/ProviderRegistryPage.tsx:93-107 | the file is named after the provider code, or "provider"; the file has eleven lines; its PRODUCTION and SANDBOX URL lines hold the first matching environment's URL and its key line the preferred public key, escaped (when names and URLs hold no line break) |
| ProviderRegistryPage.RequestKeyRules | cdb-api-registry/ui/src/pages/ProviderRegistryPage.tsx:114-132 | the request is cancelled iff there is no client id; a new key is requested iff there is a client id and no ENCRYPTION key is bound to it; the stored e-mail is the client id when there is one |
| ProviderRegistryPage.ExistingKeyDownload | cdb-api-registry/ui/src/pages/ProviderRegistryPage.tsx:120-129 | for an already bound key the client id is set, and a download is the non-empty public part of a key bound to it, named code-clientId-public.pem |
| ProviderRegistryPage.AfterGenerate | cdb-api-registry/ui/src/pages/ProviderRegistryPage.tsx:132-140 | a returned private key is downloaded as code-clientId.pem with the success notice; without one nothing is downloaded and a notice is shown iff the status is PENDING_FOR_APPROVAL |
| ProviderRegistryService.Sort | cdb-api-registry/ui/src/services/providerRegistryService.ts:96 | sorting gives a permutation of its input: the same elements, each as often as before |
| ProviderRegistryService.SortRules | cdb-api-registry/ui/src/services/providerRegistryService.ts:96 | the sorted list is in order, and has no repeats when the input had none |
| ProviderRegistryService.ExtractTagsSet | cdb-api-registry/ui/src/services/providerRegistryService.ts:90-97 | the result is sorted, has no repeats, and holds exactly the tags some provider lists |
| ProviderRegistryService.Gather | cdb-api-registry/ui/src/services/providerRegistryService.ts:92-95 | the loop's set has no repeats and holds exactly the tags of all the providers' lists |
| ProviderRegistryService.SortSet | cdb-api-registry/ui/src/services/providerRegistryService.ts:96 | sorting the set gives an ordered list without repeats, with the same members |
| ProviderRegistryService.AddAll | cdb-api-registry/ui/src/services/providerRegistryService.ts:94 | adding a provider's tags keeps the set free of repeats and adds exactly those tags |
| ProviderRegistryService.AllTagsMembers | cdb-api-registry/ui/src/services/providerRegistryService.ts:90-97 | a tag is offered iff some provider lists it |
| ProviderRegistryService.AllTagsSnoc | cdb-api-registry/ui/src/services/providerRegistryService.ts:92-95 | a provider's tags come after the tags of the providers before it |
| ProviderRegistryService.NoTags | cdb-api-registry/ui/src/services/providerRegistryService.ts:93-94 | a provider with no tags, or an empty tag text, adds nothing |
| ProviderRegistryService.TagsWellFormed | cdb-api-registry/ui/src/services/providerRegistryService.ts:94 | every offered tag is non-empty, comma-free and trimmed |
| ProviderRegistryService.EscapeRules | cdb-api-registry/ui/src/services/providerRegistryService.ts:110 | escaping leaves no line break, and changes nothing in text without one |
| ProviderRegistryService.EnvFileLines | cdb-api-registry/ui/src/services/providerRegistryService.ts:99-114 | the file splits back into the eleven lines pushed when the name, the code and the URLs have no line break: the header first, the id line spelled TARGET_PROVDER_ID, the escaped public key on one line, and empty values for a missing URL or key |
| ProviderRequests.MapToDtoRules | cdb-provider-registry/src/main/java/com/platformcommons/cdb/platform/provider/registry/service/ProviderRequestService.java:98-114 | `LocalDateTime.from` on the stored `Instant`s makes every mapping throw `DateTimeException`; a conversion through a zone never fails and carries the entity's columns, its instants shifted by the zone offset |
| ProviderRequests.FindRequest | cdb-provider-registry/src/main/java/com/platformcommons/cdb/platform/provider/registry/service/ProviderRequestService.java:67-90 | `findById` finds a request iff one has that id, and returns that request |
| ProviderRequests.CreateRefusals | cdb-provider-registry/src/main/java/com/platformcommons/cdb/platform/provider/registry/service/ProviderRequestService.java:24-29 | an unknown provider and a second PENDING request for the same user and provider both fail and change nothing, whatever the conversion |
| ProviderRequests.CreateFailsAsWritten | cdb-provider-registry/src/main/java/com/platformcommons/cdb/platform/provider/registry/service/ProviderRequestService.java:22-43 | as written no create commits: one that passes both checks is saved, its reply mapping throws `DateTimeException`, and the `@Transactional` rollback leaves the table as it was |
| ProviderRequests.CreateAppends | cdb-provider-registry/src/main/java/com/platformcommons/cdb/platform/provider/registry/service/ProviderRequestService.java:31-42 | with the conversion through a zone, a create appends the request PENDING under the next id with the provider's code, "USER" when no role is asked for, both times now, and replies with it |
| ProviderRequests.CreatePreservesOnePending | cdb-provider-registry/src/main/java/com/platformcommons/cdb/platform/provider/registry/service/ProviderRequestService.java:27-41 | creation keeps at most one PENDING request per user and provider, whatever the conversion |
| ProviderRequests.ApproveFailsAsWritten | cdb-provider-registry/src/main/java/com/platformcommons/cdb/platform/provider/registry/service/ProviderRequestService.java:65-85 | as written no approval commits: an unknown id and a non-PENDING request fail with their own messages, and a PENDING one fails in the reply mapping and is rolled back |
| ProviderRequests.ApproveEffect | cdb-provider-registry/src/main/java/com/platformcommons/cdb/platform/provider/registry/service/ProviderRequestService.java:66-85 | with the conversion through a zone, an unknown id or a non-PENDING request fails and changes nothing; otherwise only that request changes: APPROVED, approver and notes set, role replaced only by a given one, update time now, while the reply shows the update time read before the flush |
| ProviderRequests.ApproveOnce | cdb-provider-registry/src/main/java/com/platformcommons/cdb/platform/provider/registry/service/ProviderRequestService.java:70-72 | with the conversion through a zone, a request is approved at most once: a second approval fails and changes nothing |
| ProviderRequests.RejectOverridesApproval | cdb-provider-registry/src/main/java/com/platformcommons/cdb/platform/provider/registry/service/ProviderRequestService.java:88-96 | rejection has no status check, so with the conversion through a zone an approved request can be made REJECTED |
| ProviderRequests.RejectEffect | cdb-provider-registry/src/main/java/com/platformcommons/cdb/platform/provider/registry/service/ProviderRequestService.java:88-96 | rejection maps no reply; it fails only for an unknown id and otherwise changes only that request, which becomes REJECTED with the approver, the notes and the update time |
| ProviderRequests.AsWrittenNeverApproves | cdb-provider-registry/src/main/java/com/platformcommons/cdb/platform/provider/registry/service/ProviderRequestService.java:65-96 | as written no request ever becomes APPROVED: creation and approval roll back, and rejection writes only REJECTED |
| ProviderRequests.ProcessingPreservesOnePending | cdb-provider-registry/src/main/java/com/platformcommons/cdb/platform/provider/registry/service/ProviderRequestService.java:66-96 | approval and rejection keep at most one PENDING request per user and provider |
| ProviderRequests.PendingSelectedMembers | cdb-provider-registry/src/main/java/com/platformcommons/cdb/platform/provider/registry/service/ProviderRequestService.java:46-56 | the repository query holds exactly the PENDING requests selected |
| ProviderRequests.MapAllRules | cdb-provider-registry/src/main/java/com/platformcommons/cdb/platform/provider/registry/service/ProviderRequestService.java:47-52 | the mapped stream, as written, succeeds only when empty and otherwise throws `DateTimeException`; through a zone it maps every element in order |
| ProviderRequests.ListingsFailAsWritten | cdb-provider-registry/src/main/java/com/platformcommons/cdb/platform/provider/registry/service/ProviderRequestService.java:45-63 | as written each listing is empty when nothing is PENDING for the provider, or the user, and throws `DateTimeException` otherwise |
| ProviderRequests.PendingListed | cdb-provider-registry/src/main/java/com/platformcommons/cdb/platform/provider/registry/service/ProviderRequestService.java:45-63 | with the conversion through a zone, the listings hold exactly the replies for the PENDING requests selected, named after their provider or "Unknown" |
| ProviderRequests.ListingsArePending | cdb-provider-registry/src/main/java/com/platformcommons/cdb/platform/provider/registry/service/ProviderRequestService.java:45-63 | with the conversion through a zone, every listed request is PENDING and belongs to the provider, or the user, asked about |
| ProviderRequests.ProviderRequestService.Create | cdb-provider-registry/src/main/java/com/platformcommons/cdb/platform/provider/registry/service/ProviderRequestService.java:22-43 | the method saves, maps the reply, and restores the committed table when the mapping throws; result and table are CreateStep as written, so the table never changes |
| ProviderRequests.ProviderRequestService.Approve | cdb-provider-registry/src/main/java/com/platformcommons/cdb/platform/provider/registry/service/ProviderRequestService.java:65-85 | the method writes the approval, maps the reply, and restores the committed table when the mapping throws; result and table are ApproveStep as written, so the table never changes |
| ProviderRequests.ProviderRequestService.Reject | cdb-provider-registry/src/main/java/com/platformcommons/cdb/platform/provider/registry/service/ProviderRequestService.java:87-96 | the new table is RejectStep of the old one, it fails exactly when that does, and it keeps at most one PENDING request per user and provider |
| ProviderRequests.ProviderRequestService.constructor | cdb-provider-registry/src/main/java/com/platformcommons/cdb/platform/provider/registry/service/ProviderRequestService.java:19-20 | the service starts over the given, well-numbered request table and providers |
| ProviderValidation.ValidateProviderRegistration | cdb-provider-registry/ui/src/validation/providerValidation.js:18-36 | the loop over the six checks yields the errors map of the field rules |
| ProviderValidation.RuleMeaning | cdb-provider-registry/ui/src/validation/providerValidation.js:4-11 | a name passes iff it has two characters after trimming, a code iff it is 3 to 50 lowercase letters, digits and hyphens, a contact email iff it is missing, empty or address-like, the admin username and email iff present and address-like, and a password iff eight characters or more |
| ProviderValidation.ErrorsAreFailingFields | cdb-provider-registry/ui/src/validation/providerValidation.js:18-36 | a field is in the errors map iff its rule fails, with that rule's message, and the map is empty iff every field passes |
| ProviderValidation.EmailExamples | cdb-provider-registry/ui/src/validation/providerValidation.js:7-9 | "a@b.c" is address-like, "a@b", "@b.c" and "a@.c" are not, and a line before an address does not spoil it |
| ProviderValidation.EmailLikeExtends | cdb-provider-registry/ui/src/validation/providerValidation.js:7-9 | the address test is unanchored: text around an address-like value keeps it address-like |
| ProviderValidation.CodeExamples | cdb-provider-registry/ui/src/validation/providerValidation.js:6 | "acme-01" is a valid code, "ab" and "Acme" are not |
| Providers.TokenOccurs | cdb-provider-registry/src/main/java/com/platformcommons/cdb/platform/provider/registry/service/ProviderDiscoveryService.java:47-48 | a token of the tag list occurs comma-fenced in the fenced list |
| Providers.OnlyTokensOccur | cdb-provider-registry/src/main/java/com/platformcommons/cdb/platform/provider/registry/service/ProviderDiscoveryService.java:47-48 | a fenced comma-free text occurs in the fenced list only where it is one of the tokens |
| Providers.TagMatchIsToken | cdb-provider-registry/src/main/java/com/platformcommons/cdb/platform/provider/registry/service/ProviderDiscoveryService.java:45-48 | a comma-free tag matches iff, lower-cased, it is one of the comma-separated tokens of the lower-cased list, spaces included |
| Providers.Select | cdb-provider-registry/src/main/java/com/platformcommons/cdb/platform/provider/registry/service/ProviderDiscoveryService.java:44 | the providers that pass the test, in table order, and no others |
| Providers.SearchMembers | cdb-provider-registry/src/main/java/com/platformcommons/cdb/platform/provider/registry/service/ProviderDiscoveryService.java:35-50 | a provider is returned iff it is in the base list (by name if a name is given, else by status if given, else all) and passes the tag filter |
| Providers.NameBeatsStatus | cdb-provider-registry/src/main/java/com/platformcommons/cdb/platform/provider/registry/service/ProviderDiscoveryService.java:37-41 | with a non-blank name the status criterion is ignored |
| Providers.NoTagKeepsBase | cdb-provider-registry/src/main/java/com/platformcommons/cdb/platform/provider/registry/service/ProviderDiscoveryService.java:45 | without a tag the base list comes back whole and in order |
| Providers.UntaggedExcluded | cdb-provider-registry/src/main/java/com/platformcommons/cdb/platform/provider/registry/service/ProviderDiscoveryService.java:46 | with a tag, a provider without metadata or without tags is never returned |
| Providers.SpacedTokenExample | cdb-provider-registry/src/main/java/com/platformcommons/cdb/platform/provider/registry/service/ProviderDiscoveryService.java:47-48 | "b" does not match "a, b", whose second token is " b" |
| Providers.CaseExample | cdb-provider-registry/src/main/java/com/platformcommons/cdb/platform/provider/registry/service/ProviderDiscoveryService.java:47-48 | case is ignored: "B" matches "a,b" |
| Providers.PrecheckRules | cdb-provider-registry/src/main/java/com/platformcommons/cdb/platform/provider/registry/service/ProviderRegistrationService.java:46-62 | the pre-check returns the OTP key iff code and email are non-blank, the code is free, the user is new and a key came back; the refusals come in that order with their messages |
| Providers.RegisterRefusals | cdb-provider-registry/src/main/java/com/platformcommons/cdb/platform/provider/registry/service/ProviderRegistrationService.java:73-79 | a taken code or a blank admin username is refused before anything is saved |
| Providers.RegisterSuccess | cdb-provider-registry/src/main/java/com/platformcommons/cdb/platform/provider/registry/service/ProviderRegistrationService.java:82-148 | a created admin user leaves one new ACTIVE provider owned by that user, holding the request's details |
| Providers.RegisterFailureAsWritten | cdb-provider-registry/src/main/java/com/platformcommons/cdb/platform/provider/registry/service/ProviderRegistrationService.java:71-94 | as written, a failed admin user is refused with "provider marked FAILED", yet the transaction rolls back the insert and the FAILED update, so the table is exactly as before |
| Providers.RegisterFailure | cdb-provider-registry/src/main/java/com/platformcommons/cdb/platform/provider/registry/service/ProviderRegistrationService.java:64-115 | with the FAILED row kept as the method's comment describes, a failed admin user leaves a FAILED unowned provider whose code, name, description, email and phone carry the UUID suffix; the tags are kept and the code is free again |
| Providers.RetryAfterFailure | cdb-provider-registry/src/main/java/com/platformcommons/cdb/platform/provider/registry/service/ProviderRegistrationService.java:73-115 | whether the failure is rolled back or kept, retrying a failed registration gets past the code check |
| Providers.RegisterPreservesTable | cdb-provider-registry/src/main/java/com/platformcommons/cdb/platform/provider/registry/service/ProviderRegistrationService.java:72-94 | registration keeps the ids in order and the codes unique, a kept failure row needing a fresh suffix |
| Providers.SearchProvidersMembers | cdb-provider-registry/src/main/java/com/platformcommons/cdb/platform/provider/registry/service/ProviderRegistrationService.java:162-168 | the search returns exactly the ACTIVE providers whose name or code contains the query, ignoring case |
| Providers.FailedNotSearchable | cdb-provider-registry/src/main/java/com/platformcommons/cdb/platform/provider/registry/service/ProviderRegistrationService.java:105-165 | a failed registration never shows up in the search |
| Providers.ProviderRegistrationService.constructor | cdb-provider-registry/src/main/java/com/platformcommons/cdb/platform/provider/registry/service/ProviderRegistrationService.java:31-38 | the service starts over the given provider table |
| Providers.ProviderRegistrationService.PrecheckAndInitiateOtp | cdb-provider-registry/src/main/java/com/platformcommons/cdb/platform/provider/registry/service/ProviderRegistrationService.java:45-51 | returns the pre-check result and writes nothing |
| Providers.ProviderRegistrationService.Register | cdb-provider-registry/src/main/java/com/platformcommons/cdb/platform/provider/registry/service/ProviderRegistrationService.java:71-94 | the result and new table are RegisterStep of the old table with the failure rolled back, and the table invariant is kept |
| PublicEndpoints.AnyPatternMatches | cdb-shared-libraries/cdb-security-lib/src/main/java/com/platformcommons/cdb/security/filter/PublicEndpoints.java:30-40 | the loop returns true exactly when some pattern matches the path |
| PublicEndpoints.IsPublicPath | cdb-shared-libraries/cdb-security-lib/src/main/java/com/platformcommons/cdb/security/filter/PublicEndpoints.java:28-41 | the result is the public-path predicate over the pattern table; a null path is public |
| PublicEndpoints.WildcardAdmitsBelow | cdb-shared-libraries/cdb-security-lib/src/main/java/com/platformcommons/cdb/security/filter/PublicEndpoints.java:31-33 | a `/**` pattern admits every path below its stem |
| PublicEndpoints.WildcardExcludesStem | cdb-shared-libraries/cdb-security-lib/src/main/java/com/platformcommons/cdb/security/filter/PublicEndpoints.java:31-33 | a `/**` pattern does not admit its bare stem |
| PublicEndpoints.ExactPatternIsExact | cdb-shared-libraries/cdb-security-lib/src/main/java/com/platformcommons/cdb/security/filter/PublicEndpoints.java:38 | a pattern with no wildcard and no trailing '/' matches only itself |
| PublicEndpoints.OtpPattern | cdb-shared-libraries/cdb-security-lib/src/main/java/com/platformcommons/cdb/security/filter/PublicEndpoints.java:18 | the OTP entry is a `/**` pattern over a wildcard-free stem |
| PublicEndpoints.OtpVerifyIsPublic | cdb-shared-libraries/cdb-security-lib/src/main/java/com/platformcommons/cdb/security/filter/PublicEndpoints.java:18-41 | `/api/v1/otp/verify` is public |
| PublicEndpoints.OtpRootNotMatchedByWildcard | cdb-shared-libraries/cdb-security-lib/src/main/java/com/platformcommons/cdb/security/filter/PublicEndpoints.java:18-33 | the OTP wildcard does not admit the bare `/api/v1/otp` |
| PublicEndpoints.RegisterIsPublic | cdb-shared-libraries/cdb-security-lib/src/main/java/com/platformcommons/cdb/security/filter/PublicEndpoints.java:16-38 | `/api/v1/providers/register` is public |
| PublicEndpoints.RegisterChildNotMatched | cdb-shared-libraries/cdb-security-lib/src/main/java/com/platformcommons/cdb/security/filter/PublicEndpoints.java:16-38 | the registration entry is exact, so a path below it is not matched by it |
| QueryParams.Update | cdb-api-registry/ui/src/hooks/useQueryParams.ts:17-33 | the new query is the patch's entries applied in order to the current one, and the URL is replaced iff the new query's text differs from the current search |
| QueryParams.DeleteRules | cdb-api-registry/ui/src/hooks/useQueryParams.ts:21 | after a delete the key has no value left, and every other key keeps its first and all its values |
| QueryParams.SetRules | cdb-api-registry/ui/src/hooks/useQueryParams.ts:23-27 | after a set the key holds exactly the new value, and every other key keeps its values |
| QueryParams.UntouchedKeys | cdb-api-registry/ui/src/hooks/useQueryParams.ts:19-29 | a key the patch does not name keeps all its values |
| QueryParams.PatchedKeys | cdb-api-registry/ui/src/hooks/useQueryParams.ts:19-29 | a named key ends up with no value when its patch value is undefined, empty text or the empty list, and with that value's text alone otherwise |
| QueryParams.ListRoundTrip | cdb-api-registry/ui/src/hooks/useQueryParams.ts:10-12 | a list of non-empty, comma-free values written by a patch reads back as the same list, the empty list included |
| QueryParams.PageRoundTrip | cdb-api-registry/ui/src/hooks/useQueryParams.ts:13 | a page number written by a patch reads back as itself |
| QueryParams.Defaults | cdb-api-registry/ui/src/hooks/useQueryParams.ts:9-13 | a missing or empty value reads as the empty text, the empty list and page 0 |
| QueryParams.ListEntryReads | cdb-api-registry/ui/src/hooks/useQueryParams.ts:10-29 | a list of non-empty, comma-free names written by a patch with distinct keys reads back as the same list |
| QueryParams.FiltersRoundTrip | cdb-api-registry/ui/src/hooks/useQueryParams.ts:8-29 | reading inverts writing: after a patch sets the search text, the three name lists and the page, the hook reads those very filters back, whatever the query held before |
| Roles.ResolveMembers | cdb-auth-registry/src/main/java/com/platformcommons/cdb/auth/registry/service/impl/RoleMasterServiceImpl.java:72-76 | an authority is found iff one of the listed codes names it in the catalogue |
| Roles.AssignRules | cdb-auth-registry/src/main/java/com/platformcommons/cdb/auth/registry/service/impl/RoleMasterServiceImpl.java:68-81 | an unknown role fails with "Role not found"; otherwise exactly the found authorities are added to that role, and nothing else changes |
| Roles.RemoveRules | cdb-auth-registry/src/main/java/com/platformcommons/cdb/auth/registry/service/impl/RoleMasterServiceImpl.java:83-92 | exactly the authorities whose code is listed are removed; those without a code stay; other roles are untouched |
| Roles.RemoveUndoesAssign | cdb-auth-registry/src/main/java/com/platformcommons/cdb/auth/registry/service/impl/RoleMasterServiceImpl.java:68-92 | with a consistent catalogue, removing codes undoes assigning the same codes |
| Roles.RemoveIdempotent | cdb-auth-registry/src/main/java/com/platformcommons/cdb/auth/registry/service/impl/RoleMasterServiceImpl.java:83-92 | removing the same codes twice is the same as removing them once |
| Roles.CreateRules | cdb-auth-registry/src/main/java/com/platformcommons/cdb/auth/registry/service/impl/RoleMasterServiceImpl.java:25-28 | a body without a stored id is inserted under the next id, and one whose id is stored is merged over that row, the keys unchanged; the save fails on the uk_role_master_code constraint, leaving the table as it was, exactly when another row (the merged row itself excepted) already holds the code |
| Roles.CreateResavesStored | cdb-auth-registry/src/main/java/com/platformcommons/cdb/auth/registry/service/impl/RoleMasterServiceImpl.java:25-28 | posting a stored role back with its own id succeeds and changes nothing |
| Roles.UpdateRules | cdb-auth-registry/src/main/java/com/platformcommons/cdb/auth/registry/service/impl/RoleMasterServiceImpl.java:48-59 | update overwrites code, label and type, and the authorities only when given; an unknown id fails with "Role not found"; a code another role holds fails on the uk_role_master_code constraint and leaves the table as it was |
| Roles.StepsPreserveWellKeyed | cdb-auth-registry/src/main/java/com/platformcommons/cdb/auth/registry/service/impl/RoleMasterServiceImpl.java:48-92 | every step keeps each role stored under its own id |
| Roles.StepsPreserveUniqueCodes | cdb-auth-registry/src/main/java/com/platformcommons/cdb/auth/registry/model/RoleMaster.java:20-23 | every step keeps the role codes unique, as the table's unique constraint demands |
| Roles.RoleMasterService.constructor | cdb-auth-registry/src/main/java/com/platformcommons/cdb/auth/registry/service/impl/RoleMasterServiceImpl.java:20-23 | the service starts with no roles over the given authority catalogue |
| Roles.RoleMasterService.Create | cdb-auth-registry/src/main/java/com/platformcommons/cdb/auth/registry/service/impl/RoleMasterServiceImpl.java:25-28 | the result and new table are CreateStep of the old table, the id counter advancing only on a successful insert (not on a merge), and the service invariant, unique codes included, is kept |
| Roles.RoleMasterService.Update | cdb-auth-registry/src/main/java/com/platformcommons/cdb/auth/registry/service/impl/RoleMasterServiceImpl.java:48-59 | the result and new table are UpdateStep of the old table, and the service invariant, unique codes included, is kept |
| Roles.RoleMasterService.Delete | cdb-auth-registry/src/main/java/com/platformcommons/cdb/auth/registry/service/impl/RoleMasterServiceImpl.java:61-66 | the result and new table are DeleteStep of the old table |
| Roles.RoleMasterService.AssignAuthoritiesByCodes | cdb-auth-registry/src/main/java/com/platformcommons/cdb/auth/registry/service/impl/RoleMasterServiceImpl.java:68-81 | the result and new table are AssignStep of the old table |
| Roles.RoleMasterService.RemoveAuthoritiesByCodes | cdb-auth-registry/src/main/java/com/platformcommons/cdb/auth/registry/service/impl/RoleMasterServiceImpl.java:83-92 | the result and new table are RemoveStep of the old table |
| SchemaEditor.FindFirst | cdb-provider-registry/ui/src/modules/api-designer/components/SchemaEditor.jsx:15-17 | a found schema is the first item with the selected id, and every item before it is neither null nor has that id |
| SchemaEditor.FindNone | cdb-provider-registry/ui/src/modules/api-designer/components/SchemaEditor.jsx:15-17 | nothing is found iff no item has the id and none is null |
| SchemaEditor.SelectedRules | cdb-provider-registry/ui/src/modules/api-designer/components/SchemaEditor.jsx:15-17 | without a selected id nothing is selected; a schema list that is not an array throws; a selected schema has the id and is in the list |
| SchemaEditor.NoSelectionNoChange | cdb-provider-registry/ui/src/modules/api-designer/components/SchemaEditor.jsx:36-120 | without a selected schema, adding, updating, removing and toggling a property all leave the project as it is |
| SchemaEditor.RenameRules | cdb-provider-registry/ui/src/modules/api-designer/components/SchemaEditor.jsx:90-91 | renaming in required leaves a list without the old name as it is, removes every occurrence of the old name, and renaming back restores the list when the new name was not in it |
| SchemaEditor.WithoutRules | cdb-provider-registry/ui/src/modules/api-designer/components/SchemaEditor.jsx:106 | filtering keeps exactly the other elements; it changes nothing iff the name is absent |
| SchemaEditor.WithoutTwice | cdb-provider-registry/ui/src/modules/api-designer/components/SchemaEditor.jsx:106 | filtering twice is the same as filtering once |
| SchemaEditor.AddPropertyRules | cdb-provider-registry/ui/src/modules/api-designer/components/SchemaEditor.jsx:41-57 | the update writes property{N+1} with the default fragment and keeps the other properties; the key is new unless a property already has that name, in which case it is overwritten; null properties throw |
| SchemaEditor.AddPropertyCanOverwrite | cdb-provider-registry/ui/src/modules/api-designer/components/SchemaEditor.jsx:44-54 | a lone property named property2 is overwritten by the new property |
| SchemaEditor.RenamePropertyRules | cdb-provider-registry/ui/src/modules/api-designer/components/SchemaEditor.jsx:86-92 | a rename moves the fragment to the new key, drops the old key, keeps the other properties and renames the name in required; a required that is not an array throws |
| SchemaEditor.SameNamePropertyRules | cdb-provider-registry/ui/src/modules/api-designer/components/SchemaEditor.jsx:93-96 | saving a property under its own name replaces only that fragment and sends no required |
| SchemaEditor.RemovePropertyRules | cdb-provider-registry/ui/src/modules/api-designer/components/SchemaEditor.jsx:99-109 | removal drops the key and every occurrence of the name in required, and keeps the other properties and names; a required that is not an array throws |
| SchemaEditor.ToggleRequiredRules | cdb-provider-registry/ui/src/modules/api-designer/components/SchemaEditor.jsx:111-120 | marking required appends the name even when it is already there; unmarking filters every occurrence out |
| SchemaEditor.ToggleRequiredFails | cdb-provider-registry/ui/src/modules/api-designer/components/SchemaEditor.jsx:114-117 | a truthy required that is an object, a number or true makes either toggle throw |
| SchemaEditor.ToggleOnThenOff | cdb-provider-registry/ui/src/modules/api-designer/components/SchemaEditor.jsx:115-117 | marking and then unmarking a name leaves required as filtering alone would |
| SchemaEditor.CreateSchemaRules | cdb-provider-registry/ui/src/modules/api-designer/components/SchemaEditor.jsx:19-34 | a blank name changes nothing; otherwise the new schema is added last under the given id, nothing else changes, and the form selects it and is cleared; a string schema list is spread into its characters before the new schema, and any other non-array schema list throws |
| SchemaEditor.NewSchemaFields | cdb-provider-registry/ui/src/modules/api-designer/components/SchemaEditor.jsx:22-28 | the new schema has the given id and name, type object, no properties and nothing required |
| SchemaEditor.EditReachesSelected | cdb-provider-registry/ui/src/modules/api-designer/components/SchemaEditor.jsx:36-39 | an edit merges the update into every schema with the selected id, keeps the schema count, and changes no other project property |
| SchemaExport.CleanProperty | cdb-provider-registry/ui/src/modules/api-designer/context.jsx:138-159 | the allowed-keys loop builds exactly the cleaned fragment the specification function defines |
| SchemaExport.CleanSchema | cdb-provider-registry/ui/src/modules/api-designer/context.jsx:130-171 | the per-schema loops build exactly the exported schema object the specification function defines |
| SchemaExport.CleanEntries | cdb-provider-registry/ui/src/modules/api-designer/context.jsx:131-161 | the property loop gives the cleaned properties and the required set, filled from the declared names and then the flagged ones |
| SchemaExport.BuildSchemas | cdb-provider-registry/ui/src/modules/api-designer/context.jsx:128-173 | the reduce loop gives exactly the specification's schema map, or its error |
| SchemaExport.ReduceErrSticky | cdb-provider-registry/ui/src/modules/api-designer/context.jsx:128-173 | once a prefix of the schemas throws, the whole reduce throws the same error |
| SchemaExport.CleanPairsRules | cdb-provider-registry/ui/src/modules/api-designer/context.jsx:146-153 | exactly the listed keys whose value is not undefined, null or blank are kept, each with the fragment's value |
| SchemaExport.CleanFragmentRules | cdb-provider-registry/ui/src/modules/api-designer/context.jsx:134-159 | a cleaned property is never empty and has only allowed keys; each allowed key but type is kept iff its value is kept; type is the fragment's when kept or truthy, and 'string' when nothing was kept |
| SchemaExport.CleanPairsEmpty | cdb-provider-registry/ui/src/modules/api-designer/context.jsx:156 | nothing is kept iff no allowed key has a kept value |
| SchemaExport.EmptyFragment | cdb-provider-registry/ui/src/modules/api-designer/context.jsx:134-159 | a missing or empty property exports as {type: 'string'} |
| SchemaExport.CleanPropertiesRules | cdb-provider-registry/ui/src/modules/api-designer/context.jsx:133-161 | there is one cleaned entry per property name, the cleaned fragment of the last entry with that name |
| SchemaExport.FlaggedRules | cdb-provider-registry/ui/src/modules/api-designer/context.jsx:136 | the flagged names are exactly the names of the properties marked required |
| SchemaExport.RequiredRules | cdb-provider-registry/ui/src/modules/api-designer/context.jsx:131-169 | the required list has no duplicates, starts with the declared names in order, holds exactly the declared and the flagged names, and is exported only when not empty |
| SchemaExport.SchemaObjectRules | cdb-provider-registry/ui/src/modules/api-designer/context.jsx:165-171 | the type is the schema's when truthy and 'object' otherwise; the description only when truthy; additionalProperties only when false; properties only when there are some |
| SchemaExport.CleanPropertiesEmpty | cdb-provider-registry/ui/src/modules/api-designer/context.jsx:168 | the cleaned properties are empty iff the schema has no properties |
| SchemaExport.LastNamed | cdb-provider-registry/ui/src/modules/api-designer/context.jsx:165 | no schema is found iff no schema has that name, and a found schema is one of the list |
| SchemaExport.ReduceErr | cdb-provider-registry/ui/src/modules/api-designer/context.jsx:128-173 | the reduce throws iff some schema is null or undefined |
| SchemaExport.ReduceLookup | cdb-provider-registry/ui/src/modules/api-designer/context.jsx:128-173 | every name holds the export of the last schema with that name, and no other name is written |
| UserManagement.RegisterRefusals | cdb-auth-registry/src/main/java/com/platformcommons/cdb/auth/registry/service/impl/UserManagementServiceImpl.java:72-100 | for the raw lookup as written and the normalised one alike: missing credentials, a blank OTP key and a failed OTP check are refused in that order; a lookup hit gives "Email already exists"; a lookup miss whose normalised email is stored fails on the uk_users_email constraint; only these save nothing, and the call succeeds exactly when neither email is stored |
| UserManagement.EmailChecks | cdb-auth-registry/src/main/java/com/platformcommons/cdb/auth/registry/service/impl/UserManagementServiceImpl.java:86-100 | once the OTP check has passed, a lookup hit gives "Email already exists", a lookup miss whose normalised email is stored gives the constraint violation, and otherwise the user is saved; the OTP stores keep what the check left |
| UserManagement.VerifiedHasEmail | cdb-auth-registry/src/main/java/com/platformcommons/cdb/auth/registry/service/impl/UserManagementServiceImpl.java:81 | a verified OTP always came with an email |
| UserManagement.RegisterSucceeds | cdb-auth-registry/src/main/java/com/platformcommons/cdb/auth/registry/service/impl/UserManagementServiceImpl.java:36-101 | a registration succeeds only after all its checks pass, the OTP included, and then it stores the new user under the next id with the normalised email, advances the id, and adds the provider mapping |
| UserManagement.RegisteredUser | cdb-auth-registry/src/main/java/com/platformcommons/cdb/auth/registry/service/impl/UserManagementServiceImpl.java:91-101 | for either lookup, a registered user gets the next id, is enabled, has no MFA or last login, and is stored with a normalised email that no other user has |
| UserManagement.RegisteredMapping | cdb-auth-registry/src/main/java/com/platformcommons/cdb/auth/registry/service/impl/UserManagementServiceImpl.java:44-63 | for either lookup, a mapping is added only for a non-blank provider code, under the normalised code; afterwards exactly one ACTIVE mapping links the user to it |
| UserManagement.AddMappingRules | cdb-auth-registry/src/main/java/com/platformcommons/cdb/auth/registry/service/impl/UserManagementServiceImpl.java:44-63 | the mapping step alone adds one ACTIVE mapping of the user to the normalised provider code, under the next mapping id, unless the code is blank or such a mapping exists already |
| UserManagement.RegisterPreservesUniqueEmails | cdb-auth-registry/src/main/java/com/platformcommons/cdb/auth/registry/service/impl/UserManagementServiceImpl.java:86-100 | for either lookup, registration keeps stored emails unique, because the unique constraint refuses what the lookup misses |
| UserManagement.DuplicateEmailAsWritten | cdb-auth-registry/src/main/java/com/platformcommons/cdb/auth/registry/service/impl/UserManagementServiceImpl.java:86-100 | as written, "A@x" passes the raw lookup against a stored "a@x", and its insert then fails on the uk_users_email constraint with no user added; the normalised lookup refuses it with "Email already exists" |
| UserManagement.KeyNotReusable | cdb-auth-registry/src/main/java/com/platformcommons/cdb/auth/registry/service/impl/UserManagementServiceImpl.java:80-84 | for either lookup, the OTP key used for a registration cannot be verified again with its real code |
| UserManagement.UpdateUserRules | cdb-auth-registry/src/main/java/com/platformcommons/cdb/auth/registry/service/impl/UserManagementServiceImpl.java:114-126 | an unknown id fails; a null or blank name changes nothing; a name equal to another account's email is refused; a success changes that user's username alone |
| UserManagement.SetEnabledRules | cdb-auth-registry/src/main/java/com/platformcommons/cdb/auth/registry/service/impl/UserManagementServiceImpl.java:128-133 | an unknown id fails; otherwise only that user's enabled flag changes |
| UserManagement.UserManagementService.constructor | cdb-auth-registry/src/main/java/com/platformcommons/cdb/auth/registry/service/impl/UserManagementServiceImpl.java:27-33 | the service starts with no users and no mappings over the given OTP stores |
| UserManagement.UserManagementService.RegisterUser | cdb-auth-registry/src/main/java/com/platformcommons/cdb/auth/registry/service/impl/UserManagementServiceImpl.java:35-42 | the result and the new state are RegisterAsWritten of the old state: the lookup uses the raw email and the constraint refuses a normalised duplicate; stored emails stay unique |
| UserManagement.UserManagementService.UpdateUser | cdb-auth-registry/src/main/java/com/platformcommons/cdb/auth/registry/service/impl/UserManagementServiceImpl.java:114-126 | the result and new users are UpdateUserStep of the old users |
| UserManagement.UserManagementService.SetUserEnabled | cdb-auth-registry/src/main/java/com/platformcommons/cdb/auth/registry/service/impl/UserManagementServiceImpl.java:128-133 | the result and new users are SetEnabledStep of the old users |
| UserProviderMappings.CreateRules | cdb-auth-registry/src/main/java/com/platformcommons/cdb/auth/registry/service/impl/UserProviderMappingServiceImpl.java:24-37 | a provider's first mapping is ACTIVE with the admin role alone; a later one is REQUESTED and keeps its roles; the instant is set only when missing |
| UserProviderMappings.CreatePreservesOneActive | cdb-auth-registry/src/main/java/com/platformcommons/cdb/auth/registry/service/impl/UserProviderMappingServiceImpl.java:26-32 | creating never makes a second ACTIVE mapping for a provider, whatever status is asked for |
| UserProviderMappings.UpdateStatusRules | cdb-auth-registry/src/main/java/com/platformcommons/cdb/auth/registry/service/impl/UserProviderMappingServiceImpl.java:39-45 | a status update changes that mapping's status alone; an unknown id fails with "Mapping not found" |
| UserProviderMappings.DeleteRules | cdb-auth-registry/src/main/java/com/platformcommons/cdb/auth/registry/service/impl/UserProviderMappingServiceImpl.java:47-54 | delete answers whether the id was there, and removes exactly that id |
| UserProviderMappings.FindByUserIdAndStatusMembers | cdb-auth-registry/src/main/java/com/platformcommons/cdb/auth/registry/service/impl/UserProviderMappingServiceImpl.java:61-64 | the listing holds exactly the mappings of that user with that status |
| UserProviderMappings.UserProviderMappingService.constructor | cdb-auth-registry/src/main/java/com/platformcommons/cdb/auth/registry/service/impl/UserProviderMappingServiceImpl.java:20-22 | the service starts with no mappings |
| UserProviderMappings.UserProviderMappingService.Create | cdb-auth-registry/src/main/java/com/platformcommons/cdb/auth/registry/service/impl/UserProviderMappingServiceImpl.java:24-37 | the result and new store are CreateStep of the old store |
| UserProviderMappings.UserProviderMappingService.UpdateStatus | cdb-auth-registry/src/main/java/com/platformcommons/cdb/auth/registry/service/impl/UserProviderMappingServiceImpl.java:39-45 | the result and new store are UpdateStatusStep of the old store |
| UserProviderMappings.UserProviderMappingService.Delete | cdb-auth-registry/src/main/java/com/platformcommons/cdb/auth/registry/service/impl/UserProviderMappingServiceImpl.java:47-54 | the result and new store are DeleteStep of the old store |
| YamlImport.ExecPath | cdb-provider-registry/ui/src/modules/api-designer/context.jsx:251-254 | a path match ends after where the search started and within the section, so the loop advances |
| YamlImport.MethodAt | cdb-provider-registry/ui/src/modules/api-designer/context.jsx:256 | a method match ends after its start and its word lower-cases to one of get, post, put, delete, patch |
| YamlImport.ExecMethod | cdb-provider-registry/ui/src/modules/api-designer/context.jsx:256-259 | a method match ends after where the search started and names one of the five method words |
| YamlImport.ParseYamlToProject | cdb-provider-registry/ui/src/modules/api-designer/context.jsx:231-281 | the two exec loops build exactly the project that the specification function defines |
| YamlImport.PushMethods | cdb-provider-registry/ui/src/modules/api-designer/context.jsx:256-272 | the inner loop appends one endpoint for the path per method match, in order |
| YamlImport.RunRules | cdb-provider-registry/ui/src/modules/api-designer/context.jsx:238 | every character of a greedy run satisfies the class, and the one after it does not |
| YamlImport.FirstValueLeftmost | cdb-provider-registry/ui/src/modules/api-designer/context.jsx:238-240 | the key search finds exactly the value after the leftmost occurrence of the key that has one, and nothing when none has |
| YamlImport.FirstValueAbsent | cdb-provider-registry/ui/src/modules/api-designer/context.jsx:238-244 | without the key, the search finds nothing |
| YamlImport.ReadsQuotedLine | cdb-provider-registry/ui/src/modules/api-designer/context.jsx:238-240 | a key: "x" line as the YAML writer writes it reads back as x, when the key does not occur earlier |
| YamlImport.ParseDefaults | cdb-provider-registry/ui/src/modules/api-designer/context.jsx:235-249 | the import has id "1" and no schemas; a missing title, description or version gives the default; without a paths key there are no endpoints |
| YamlImport.ImportsExportedTitle | cdb-provider-registry/ui/src/modules/api-designer/context.jsx:238-242 | an exported title line becomes the project's name |
| YamlImport.RowRules | cdb-provider-registry/ui/src/modules/api-designer/context.jsx:259-271 | one path's row has one endpoint per method, in the methods' order |
| YamlImport.RowsRules | cdb-provider-registry/ui/src/modules/api-designer/context.jsx:254-273 | the endpoints are one per path and method, in order; the endpoint for path i and method j sits at i * (number of methods) + j |
| YamlImport.MethodsAreHttp | cdb-provider-registry/ui/src/modules/api-designer/context.jsx:259-260 | every method the loop finds is GET, POST, PUT, DELETE or PATCH |
| YamlImport.PathsShape | cdb-provider-registry/ui/src/modules/api-designer/context.jsx:251-255 | every path found has the shape the pattern demands: a '/' followed by characters other than ':' and line breaks |
| YamlImport.ReadsPathLine | cdb-provider-registry/ui/src/modules/api-designer/context.jsx:251-255 | a "  /path:" line at the start of a line is matched as that path, and the search goes on just after its colon |
| YamlImport.SummaryFromNone | cdb-provider-registry/ui/src/modules/api-designer/context.jsx:261 | a method's summary is found iff some "m:" is followed later by a "summary:" with a value |
| YamlImport.SummaryFallback | cdb-provider-registry/ui/src/modules/api-designer/context.jsx:261-267 | without a summary, the endpoint's summary is "METHOD path" |
| YamlImport.SanitizeRules | cdb-provider-registry/ui/src/modules/api-designer/context.jsx:264 | letters and digits stay and every other character becomes '-'; applying it twice changes nothing more; ids of letters and digits are kept |
| YamlImport.EndpointIdRules | cdb-provider-registry/ui/src/modules/api-designer/context.jsx:264 | an endpoint id is the sanitised path, '-' and the method, and holds only letters, digits and '-' |
| YamlImport.IdsCanCollide | cdb-provider-registry/ui/src/modules/api-designer/context.jsx:264 | the paths "/a-b" and "/a/b" get the same GET id |
| YamlLint.Lines | cdb-provider-registry/ui/src/pages/ApiEdit.jsx:10 | the text is cut into one line per line feed plus one, and no line holds a line feed |
| YamlLint.TabLinesRule | cdb-provider-registry/ui/src/pages/ApiEdit.jsx:13 | exactly the lines holding a tab are listed, by their number from 1, each once, in increasing order |
| YamlLint.TabErrors | cdb-provider-registry/ui/src/pages/ApiEdit.jsx:13 | the loop pushes one message per line holding a tab, in line order |
| YamlLint.NoTabNoError | cdb-provider-registry/ui/src/pages/ApiEdit.jsx:9-13 | no line is flagged iff the text holds no tab |
| YamlLint.LinesCover | cdb-provider-registry/ui/src/pages/ApiEdit.jsx:10 | a tab is in some line iff it is in the text |
| YamlWriter.Spaces | cdb-provider-registry/ui/src/modules/api-designer/context.jsx:188 | the indent is two spaces per level |
| YamlWriter.ConvertToYaml | cdb-provider-registry/ui/src/modules/api-designer/context.jsx:187-204 | the entry loop gives exactly the text, or the error, that the specification function defines |
| YamlWriter.WriteEntry | cdb-provider-registry/ui/src/modules/api-designer/context.jsx:191-201 | one pass of the loop body gives the text of that entry |
| YamlWriter.WriteItems | cdb-provider-registry/ui/src/modules/api-designer/context.jsx:196-198 | the item map and join give the text of the array's items |
| YamlWriter.EntriesStep | cdb-provider-registry/ui/src/modules/api-designer/context.jsx:190-202 | one more entry appends that entry's text |
| YamlWriter.EntriesSticky | cdb-provider-registry/ui/src/modules/api-designer/context.jsx:190-202 | once an entry throws, the whole text throws that error |
| YamlWriter.ObjectPrefix | cdb-provider-registry/ui/src/modules/api-designer/context.jsx:190-202 | an object's first n entries are written as the object of those entries alone |
| YamlWriter.ObjectSnoc | cdb-provider-registry/ui/src/modules/api-designer/context.jsx:190-202 | one more entry at the end of an object adds its text at the end |
| YamlWriter.AppendEntries | cdb-provider-registry/ui/src/modules/api-designer/context.jsx:190-202 | the text of an object is the text of its first entries followed by the text of the rest |
| YamlWriter.SkipsNullish | cdb-provider-registry/ui/src/modules/api-designer/context.jsx:191 | removing a null or undefined entry leaves the text unchanged |
| YamlWriter.ScalarEntries | cdb-provider-registry/ui/src/modules/api-designer/context.jsx:199-201 | a string is written in double quotes, an integer and a boolean as JavaScript prints them |
| YamlWriter.EmptyEntries | cdb-provider-registry/ui/src/modules/api-designer/context.jsx:191-196 | null and undefined write nothing; an empty array writes " []" |
| YamlWriter.NestedEntry | cdb-provider-registry/ui/src/modules/api-designer/context.jsx:193-194 | a nested object follows "key:" on the next lines, one level deeper |
| YamlWriter.ScalarItem | cdb-provider-registry/ui/src/modules/api-designer/context.jsx:197 | a scalar array item follows "- " on its own line |
| YamlWriter.ObjectItem | cdb-provider-registry/ui/src/modules/api-designer/context.jsx:197 | an object array item is written after "- " and then on the following lines, two levels deeper |
| YamlWriter.EntryAtOk | cdb-provider-registry/ui/src/modules/api-designer/context.jsx:191-201 | one entry is written without throwing iff its value is writable: a nested object writable throughout, every object-typed item of an array writable |
| YamlWriter.YamlOk | cdb-provider-registry/ui/src/modules/api-designer/context.jsx:187-204 | the writer succeeds iff the value is writable, that is it has no null array item |
| YamlWriter.NullItemThrows | cdb-provider-registry/ui/src/modules/api-designer/context.jsx:197 | a null item in an array value throws, whichever entry the array sits in, so writing the whole object throws |
| YamlWriter.TwoStringsFirst | cdb-provider-registry/ui/src/modules/api-designer/context.jsx:190-202 | two leading string entries become the first two lines |
| YamlWriter.ExportYamlRules | cdb-provider-registry/ui/src/modules/api-designer/context.jsx:76-185 | the document's errors pass through; otherwise the export succeeds iff the document is writable, and it starts with the openapi and jsonSchemaDialect lines |

## Left out

- UI rendering, routing and layout (JSX markup, hover handlers, modals, route tables, navigation bars, landing and dashboard pages): presentation only.
- Network and service calls of the UI (the auth, provider, API registry, configuration and environment clients, and the Signup, Login, callback and user-management flows that only sequence them): the model starts from the reply each call gives, taken as a parameter.
- The token-expired handler that `apiFetch` calls on a 401 (api.js:43-45) is a callback into the UI, so it is not modelled.
- The token interceptor's single-flight refresh: its point is coordinating concurrent asynchronous requests, and the model is sequential.
- The token storage's AES-GCM/PBKDF2 encryption: Web Crypto is a foreign call.
- RSA and AES key generation, SHA-256, jjwt signing and verification, and BCrypt: these are library calls, so they are function parameters or inputs, and only the decisions around them are modelled.
- Clocks (`Instant.now()`, `Date.now()`), UUIDs, random OTP codes, client ids and authorization codes: all of these are parameters or fresh-value inputs.
- `ConcurrentHashMap` and `AtomicInteger` are modelled sequentially: each operation runs alone. The 32-bit wrap-around of the load balancer's counter is modelled.
- Floating point: `parseFloat`/`parseInt` in the parameter dialog and `Double.parseDouble` for DOUBLE configuration values are parameters. JavaScript numbers are integers in `Json`, so NaN and fractions do not arise.
- The Markdown-to-HTML description previews: they rest on regular-expression replacement into HTML and on HTML injection.
- The hand-off through `window.*` globals between the designer's components: cross-component plumbing.
- Duplicated code is modelled once. The lint, formatting and tag handling of ApiCreate.jsx and ApiFormModal.jsx are ApiEdit.jsx's, modelled in `ApiEdit` and `YamlLint`. AddConfiguration.jsx's value-list edits are EditConfiguration.jsx's, modelled in `EditConfiguration`.
- JPA persistence is modelled only as far as transactions and unique constraints reach: a `@Transactional` method that throws leaves the table as it was, and a save that breaks a unique constraint fails with the constraint's name. Flush timing, lazy loading and the jakarta.validation annotations are not modelled. Provider.java marks `code` as `updatable=false`, so in the `KeptFailed` variant of `Providers.RegisterStep` the "-uuid" suffix on a FAILED provider's code may never reach the database. That variant shows the suffixed entity as the service builds it.
- Roles.RoleMasterService.Create: a failed insert leaves the id counter where it was, whereas a database identity column may use up a value on a failed insert. Ids stay unique either way.
- Roles.CreateRules: a body carrying an id that is not stored is inserted under the next id. Hibernate before 6.6 merges it that way, while 6.6 refuses it with an optimistic-locking error. The audit columns a merge copies from the body are not modelled.
- JwtTokens.ConstructOutcome and JwtTokens.SingleLineConstructFails: the message the Base64 decoder or the key factory gives its exception, which the constructor appends after "Failed to parse RSA keys from PEM: ", is a parameter, since the library writes it.
- ApiService.DomainFetchRules: the request of the domain listing (its path with the percent-encoded domain, page and size) is not modelled; the model starts from the reply. The fixed domain statistics returned when that call fails are presentation data and are left out too.
- Email comparison is exact. A database whose collation ignores case would also refuse "A@x" beside "a@x" on uk_users_email, and the model does not capture that collation.
- Controllers, servlet filters, security configuration and JPQL repositories are HTTP and JPA plumbing. Repository queries are functions over the modelled tables.
- The thin authentication wrapper over the token service and BCrypt, and the placeholder services with no behaviour (master data, the gateway's request, response and rate-limit filters, a routing service that returns null): there is nothing to state about them.
- Holes in JavaScript arrays (an assignment past the end) are the value `undefined` in the model. The model does not tell a hole from a stored `undefined`.
- Json.Spread: a spread of an array or a string copies nothing, whereas JavaScript copies its elements under their indices. Where a spread value may be an array or a string (a schema's `properties`, say), the editors use `Json.Entries`, which does copy them.
- ParameterDetails.Save: a form field left `undefined` is dropped by building the list of kept keys rather than by deleting in place. The key order that results is the same.
- ProviderRegistryService.Sort: `Array.prototype.sort` compares UTF-16 code units. The model compares the characters of `string`, which agrees on the Basic Multilingual Plane only.
- Strings.ToLower and Strings.ToUpper: only the ASCII letters change case. Java's and JavaScript's case mapping covers all of Unicode, so for text with other letters the model differs. This holds wherever the model folds case: UserManagement.Normalize (the stored email and username), OAuth2.Authenticate, KeysPage.Filtered, AutocompleteInput.Selected, Providers.TagMatches, Providers.ContainsIgnoreCase, ApiDiscovery.ParseSort and OtpRegistry.Normalize.
- Strings.ParseJavaInt: accepts only ASCII decimal digits. `Integer.parseInt` also accepts the decimal digits of other scripts, which this model refuses. ProviderConfigurations.TypeRules and the version parsing in ApiManagement inherit this.
- Text is a sequence of Unicode characters, whereas Java's and JavaScript's strings are sequences of UTF-16 code units. Lengths, indices and comparisons agree only for text on the Basic Multilingual Plane.
- QueryParams.JsNumber: reads only integer text, an optional sign and decimal digits, and gives NaN (`None`) for anything else. JavaScript's `Number` would also read a fraction such as "1.5", hexadecimal such as "0x10" and an exponent such as "1e2". QueryParams.PageOf inherits this.
- Json.Set, Json.Merge and Json.Entries: object keys keep their insertion order. JavaScript lists integer-like keys first, in ascending numeric order, in `Object.entries`, `Object.keys` and `JSON.stringify`. The model therefore shows an object that mixes integer-like keys with others, or adds a smaller integer-like key after a larger one, in insertion order. Examples are the response codes added by EndpointEditor.AddResponse (a "200" added to responses holding "404" is listed after it), the `responses` that OpenApiExport.Responses and OpenApiExport.Spec carry, the properties that SchemaExport writes, and the lines YamlWriter.Yaml writes from any such object. Each of these members states the order of the model.
- Base64: the Java and browser encoders are modelled from RFC 4648 itself, not from their implementations. Line lengths and alphabets follow the forms each call site uses.
- QueryParams: the URL's own percent-encoding of keys and values is a parameter.
- PublicEndpoints.OtpRootNotMatchedByWildcard and PublicEndpoints.RegisterChildNotMatched: each states that one pattern does not admit the path. Neither states that no pattern of the table admits it.
- AutocompleteInput.AddRules: states the new chip list only for a value without a comma. For a value with a comma, the model computes the result, but no lemma states it.
- Pagination.WindowRules: states the window only for a current page inside the page range, though the model computes it for every page.
- Pagination.RenderShows: states the buttons only for a page inside the range.
- Cache.Expiry: instants and TTLs are unbounded integers. `Instant.plusSeconds` throws a DateTimeException when the expiry passes the range of an Instant, or an ArithmeticException when the seconds overflow a long. The model stores such an entry with its unbounded expiry instead of failing the put.
- Json.Set and Json.Get: every key is an ordinary own key. In JavaScript, `__proto__` and the other keys inherited from Object.prototype (`constructor`, `toString`, ...) read or change the prototype instead, which the model does not capture.

## Findings

| source | as written | input that shows it | evidently intended | confidence | as-written member | corrected member |
|---|---|---|---|---|---|---|
| cdb-shared-libraries/cdb-security-lib/src/main/java/com/platformcommons/cdb/security/jwt/JwtTokenService.java:134-135 | the `-----BEGIN ...-----` / `-----END ...-----` markers are stripped with a greedy `.*`, which runs to the last "-----" on the line | a PEM written on one line, `-----BEGIN PUBLIC KEY-----<body>-----END PUBLIC KEY-----`, leaves the empty text and no key | strip only the marker itself (a lazy `.*?`), so that the body survives either layout | not executed | JwtTokens.SingleLinePemContent | JwtTokens.WrittenPemContent |
| cdb-auth-registry/src/main/java/com/platformcommons/cdb/auth/registry/service/impl/UserManagementServiceImpl.java:86 | the duplicate-email check looks up the email as the request gives it, while the user is stored under the trimmed, lower-cased email | registering "A@x" when "a@x" is stored passes the check; the insert then fails on the uk_users_email constraint (User.java:26), so the caller gets a constraint violation instead of "Email already exists", and the OTP key is already used up | check the normalised email, so that a duplicate is refused with "Email already exists" before the insert | not executed | UserManagement.DuplicateEmailAsWritten | UserManagement.RegisterRefusals |
| cdb-api-registry/src/main/java/com/platformcommons/cdb/platform/api/registry/service/ApiManagementService.java:54-61 | the audit's old values are taken from the entity after the mapper (ApiMapper.java:68) has written the update onto that same object, so old and new values always agree | renaming a published entry from "a" to "b" records "No changes" | take the old values before applying the update, so that the audit lists the changed columns | not executed | ApiManagement.AuditAsWrittenSaysNoChanges | ApiManagement.AuditListsChanges |
| cdb-provider-registry/src/main/java/com/platformcommons/cdb/platform/provider/registry/service/ProviderRequestService.java:111-112 | `mapToDto` converts the entity's `Instant` timestamps with `LocalDateTime.from`, which throws for an `Instant`, and the exception rolls the transaction back | any create or approve whose entity has been saved: the reply fails with a DateTimeException and the new or approved request is not kept | convert at a zone offset (`LocalDateTime.ofInstant`), so that the reply carries the timestamps | not executed | ProviderRequests.CreateFailsAsWritten | ProviderRequests.CreateAppends |
| cdb-provider-registry/src/main/java/com/platformcommons/cdb/platform/provider/registry/service/ProviderRegistrationService.java:89-93 | on a failed admin user the provider is marked FAILED and saved, then an IllegalStateException is thrown from the `@Transactional` method, which rolls back the insert and the FAILED update | any registration whose auth registry call fails: the refusal says "provider marked FAILED", yet no FAILED row exists | keep the FAILED, suffixed row, as the method's comment (lines 64-70) describes, for instance by committing it in a transaction of its own | not executed | Providers.RegisterFailureAsWritten | Providers.RegisterFailure |
