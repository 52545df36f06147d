# Trivy report explorer: a verified model of the findings core

The report explorer loads a Trivy JSON report (vulnerabilities, EKS CIS
benchmark, misconfigurations, licenses or secrets). It classifies the
document into one of these report families and stamps it with a display
name and a description. It then turns the report into a list of
findings: it extracts the raw records, filters them by the session's
filter state, sorts them by the session's sort state and maps them to a
common finding shape. Three filter panels edit that filter and sort
state.

This project models that core in Dafny:

- **`Js`**: the JSON values the program handles, and the JavaScript
  operations it applies to them. A `TypeError` is a `Thrown` result.
  - Property access throws on `null`/`undefined`.
  - Also modelled: truthiness, `||`, spreading, `String(v)`,
    `toLowerCase`, `includes`, `localeCompare`.
  - `String(v)` and template literals throw on an object with an own
    `toString` key (JSON cannot give it a callable one). The report
    transforms and the resource-type options convert this way.
- **`JsArray`, `StableSort`**:
  - `Array.prototype.filter` with a test that can throw.
  - `Array.prototype.map` over records.
  - `Array.prototype.sort`, specified as the unique stable sort of a
    consistent comparator. It is also implemented in place on an `array`
    and proved equal to the specification.
- **`ReportTypes`**: the report families, the five-field filter state, the
  sort state, and the filter and sort configuration records.
- **`ConfigRegistry`**: the configuration registry.
  - Each family has a detector, a transform, filters and sorts.
  - Lookup by type id.
  - The first-match classification `detectReportTypeFromRegistry`. It is
    a loop with an early return, proved equal to a recursive
    specification. Its detectors are not guarded: a `null` document
    throws.
- **`RegistryFindings`**: each family's `filterFn`, `sortFn` (in place)
  and `mapToBaseFinding`.
- **`Session`**: the session of the current program, as a class.
  - Its fields are `report`, `reportType`, `filters` and `sortOptions`.
  - It has `setReport`, the setters, title, description and filterable
    fields.
  - `getFilteredFindings` accumulates the records in a loop and sorts a
    fresh array in place.
- **`TypesRegistry`**: the report-type registry of the earlier session.
  - Its search catches a throwing detector or transform and moves on.
  - Its EKS detector is stricter.
  - It tries secrets before licenses.
- **`LegacySession`**: the earlier session.
  - It has a four-field filter state and a hard-coded pipeline that serves
    only vulnerability and EKS reports.
  - In its findings, a record's own fields override the finding header.
- **`FilterState`, `FiltersPanel`, `FilterManager`, `LegacyFilters`**: the
  filter panels.
  - Value toggles, setters, and parsing of the sort select.
  - Clearing: a loop that applies each filter's default.
  - The active-filter badge: a loop that sums over the family's filters.
  - The always-visible/expandable split.
  - The resource-type options.

Some behaviour of the program is easy to miss. The model makes it
explicit and the proofs pin it down:

- **The severity sort is inverted relative to its labels.**
  - The comparator is `(rank b - rank a) * direction`, with direction 1
    for `'asc'`.
  - So "Severity (Low to High)" puts CRITICAL first, and "High to Low"
    puts it last.
  - See `RegistryFindings.SeveritySortOrder` and
    `LegacySession.LegacySeveritySortOrder`.
- **Sorting happens before mapping.**
  - The severity sort reads a lowercase `severity`. Only vulnerability
    records carry it at that point, because their `filterFn` already adds
    the finding header.
  - The resource sort of misconfigurations, licenses and secrets reads a
    lowercase `type`. That field is only added by the mapping.
  - So these sorts keep the records in their order
    (`SeveritySortUnranked`, `ResourceSortUntyped`).
- **The two registries disagree on a report whose scan result lists both
  secrets and licenses** (`TypesRegistry.RegistriesDisagree`).

## Model

| member | source | states |
|---|---|---|
| Js.Get | src/context/ReportContext.tsx:104-105 | property access on `null` or `undefined` throws; otherwise it returns the property (or `undefined`) |
| Js.Iterate | src/context/ReportContext.tsx:122 | spreading a JSON array gives its elements, a string gives one element per character, and any other value throws |
| Js.ToLower | src/utils/reportConfigRegistry.ts:91 | lowercasing keeps the length, turns each capital letter into its lower-case letter, keeps every other character and leaves no capital letter |
| Js.Convert | src/utils/reportConfigRegistry.ts:127 | `String(v)` and `${v}` throw iff the value is an object with an own `toString` key or an array holding one; otherwise they give the string conversion |
| Js.ConvertObjects | src/utils/reportConfigRegistry.ts:127 | an object converts to "[object Object]" unless it has an own `toString` key, in which case it throws, alone or inside an array |
| Js.ContainsIff | src/utils/reportConfigRegistry.ts:91 | `includes` on strings holds exactly when the needle occurs at some position |
| Js.LocaleCompareOrder | src/utils/reportConfigRegistry.ts:166 | string comparison is antisymmetric, total and transitive |
| JsArray.FilterBy | src/utils/reportConfigRegistry.ts:73-76 | `filter` throws iff some test throws; otherwise it keeps, in order, exactly the accepted elements |
| JsArray.FilterByKeepsAll | src/utils/reportConfigRegistry.ts:73-76 | a test accepting every element returns the data unchanged |
| JsArray.FilterByMembers | src/utils/reportConfigRegistry.ts:73-76 | an element survives a filter iff it is in the input and its test accepts it |
| JsArray.SortRecords | src/utils/reportConfigRegistry.ts:95-106 | sorting records throws iff there are two or more and one is nullish; otherwise the result is a permutation and the stable sort of the data |
| JsArray.SortRecordsInPlace | src/utils/reportConfigRegistry.ts:100 | the in-place `data.sort` leaves the array holding exactly the specified sort, or unchanged when it throws |
| JsArray.MapRecords | src/utils/reportConfigRegistry.ts:172-181 | mapping throws iff a record is nullish; otherwise one result per record, in order |
| StableSort.SortPermutes | src/utils/reportConfigRegistry.ts:100-105 | the sort is a permutation of its input |
| StableSort.SortSorted | src/utils/reportConfigRegistry.ts:100-105 | under a consistent comparator the sort is ordered |
| StableSort.SortStable | src/utils/reportConfigRegistry.ts:100-105 | elements that compare equal keep their relative order |
| StableSort.SortOrderedIsIdentity | trivy-report-explorer/src/context/ReportContext.tsx:155-156 | sorting an already ordered sequence (e.g. under a comparator answering 0) changes nothing |
| StableSort.SortInPlace | trivy-report-explorer/src/context/ReportContext.tsx:136-158 | the in-place insertion sort leaves the array equal to the specified sort of its old contents |
| ReportTypes.SetList | src/components/Filters.tsx:94-97 | writing a list field changes that field and no other |
| ReportTypes.FieldValue | src/components/FilterManager.tsx:86 | reading the filter state by id gives each list field (`severity`, `status`, `resourceType`) as an array of its strings, the package name as a string, the flag as a boolean, and `undefined` for any other id |
| ConfigRegistry.IdInjective | src/utils/reportConfigRegistry.ts:476-483 | distinct families have distinct type ids |
| ConfigRegistry.LookupRegistry | src/utils/reportConfigRegistry.ts:476-483 | the registry maps each family's id to its configuration and nothing else |
| ConfigRegistry.GetReportConfig | src/utils/reportConfigRegistry.ts:486-488 | a family's id gives its configuration; any other key gives the generic one (inherited property names aside, see "## Left out") |
| ConfigRegistry.AllReportConfigs | src/utils/reportConfigRegistry.ts:514-516 | all configurations but the generic one, in registry order |
| ConfigRegistry.AllReportConfigsListed | src/utils/reportConfigRegistry.ts:515 | filtering out UNKNOWN from the registry leaves exactly its first five entries |
| ConfigRegistry.SomeTruthyProp | src/utils/reportConfigRegistry.ts:120 | `some(r => r[key])` is true iff an element has a truthy `key` before any nullish element; it throws iff a nullish element comes first |
| ConfigRegistry.Detect | src/utils/reportConfigRegistry.ts:115-122 | the generic detector never matches; every other one throws on a nullish document and matches only non-nullish ones |
| ConfigRegistry.DetectVulnerabilityIff | src/utils/reportConfigRegistry.ts:115-122 | the vulnerability detector holds iff `SchemaVersion` and `ArtifactName` are truthy and `Results` is an array with a result whose `Vulnerabilities` is truthy before any nullish result |
| ConfigRegistry.DetectEksRequires | src/utils/reportConfigRegistry.ts:190-197 | a matched EKS report has a truthy `ID`, a `Title` that includes "EKS CIS" and an array of `SummaryControls` |
| ConfigRegistry.DetectEksThrowsOnNonStringTitle | src/utils/reportConfigRegistry.ts:194 | a truthy `Title` that is neither a string nor an array has no `includes`, so detection throws |
| ConfigRegistry.Transform | src/utils/reportConfigRegistry.ts:124-129 | a transform throws iff the document is nullish or a value its header template converts with `String` (or `${…}`) is an object with an own `toString` key; otherwise it yields an object carrying the type id, keeping every other field of the document, with exactly the document's keys plus the stamped ones |
| ConfigRegistry.VulnerabilityDisplayName | src/utils/reportConfigRegistry.ts:124-129 | a vulnerability report's transform succeeds iff its `ArtifactName` and `ArtifactType` convert; it is then named "Vulnerability Scan: " followed by the converted artifact name and described as "Scan type: " and the converted artifact type |
| ConfigRegistry.EksDisplayName | src/utils/reportConfigRegistry.ts:199-204 | an EKS report's transform succeeds iff its `ID` converts, and the report is then named by its `Title` |
| ConfigRegistry.MisconfigDisplayName | src/utils/reportConfigRegistry.ts:273-278 | a misconfiguration report without artifact name and type always transforms; without artifact name it is named "Misconfiguration Scan: Unknown", without artifact type described as a scan for "file system" |
| ConfigRegistry.DetectReportTypeFromRegistry | src/utils/reportConfigRegistry.ts:490-512 | the loop with early return computes the first-match classification |
| ConfigRegistry.FirstMatchAt | src/utils/reportConfigRegistry.ts:495-505 | the search stops at the first detector that does not answer false, with its family or its throw |
| ConfigRegistry.FirstMatchNone | src/utils/reportConfigRegistry.ts:507-511 | the search finds nothing iff every detector answers false |
| ConfigRegistry.ClassifyFirstMatch | src/utils/reportConfigRegistry.ts:496-503 | when the first matching family's transform throws, classification throws; otherwise the family is returned with its configuration and its transformed document |
| ConfigRegistry.StampedHeaderTruthy | src/utils/reportConfigRegistry.ts:124-129 | every family whose detector holds stamps a truthy display name and a truthy description |
| ConfigRegistry.ClassifyNoMatch | src/utils/reportConfigRegistry.ts:507-511 | UNKNOWN, the generic configuration and no document exactly when no detector matches |
| ConfigRegistry.ClassifyThrows | src/utils/reportConfigRegistry.ts:496 | a detector that throws before any match makes classification throw |
| ConfigRegistry.ClassifyUnknownIffNoDocument | src/utils/reportConfigRegistry.ts:456 | since the generic detector never matches, the family is UNKNOWN iff there is no transformed document |
| ConfigRegistry.ClassifiedObject | src/utils/reportConfigRegistry.ts:497 | a transformed document is an object of a known family |
| ConfigRegistry.ClassifyTransformed | src/utils/reportConfigRegistry.ts:497 | the stored document is the family's transform of the input |
| ConfigRegistry.ClassifyNullThrows | src/utils/reportConfigRegistry.ts:117 | a `null` document throws |
| RegistryFindings.SeverityRank | src/utils/reportConfigRegistry.ts:96-98 | ranks lie in 0..4, 4 exactly for CRITICAL, 0 exactly for keys outside CRITICAL/HIGH/MEDIUM/LOW (inherited property names aside, see "## Left out") |
| RegistryFindings.Direction | src/utils/reportConfigRegistry.ts:101 | the direction factor is 1 or -1 |
| RegistryFindings.SeverityComparatorConsistent | src/utils/reportConfigRegistry.ts:100-105 | the severity comparator is antisymmetric and transitive in either direction |
| RegistryFindings.LocaleComparatorConsistent | src/utils/reportConfigRegistry.ts:166 | a `localeCompare` comparator on a string key is consistent in either direction |
| RegistryFindings.ComparatorConsistent | src/utils/reportConfigRegistry.ts:160-170 | every comparator a `sortFn` uses is consistent |
| RegistryFindings.SortFnInPlace | src/utils/reportConfigRegistry.ts:236-246 | the in-place `sortFn` throws iff the specified sort does; otherwise the array holds the specified result |
| RegistryFindings.SortFnStablePermutation | src/utils/reportConfigRegistry.ts:160-170 | a sort result is a permutation, ordered by the comparator, with equal records in input order |
| RegistryFindings.SeveritySortOrder | src/utils/reportConfigRegistry.ts:95-106 | under 'asc' ranks are non-increasing (CRITICAL first), under any other direction non-decreasing |
| RegistryFindings.SeveritySortUnranked | src/utils/reportConfigRegistry.ts:102-103 | records that all rank 0 stay in their order |
| RegistryFindings.ResourceSortUntyped | src/utils/reportConfigRegistry.ts:306 | records without a truthy lowercase `type` stay in their order under the resource sort |
| RegistryFindings.SortFnUnsupportedField | src/utils/reportConfigRegistry.ts:167-168 | a sort field a family does not support returns the data unchanged |
| RegistryFindings.FilterFnEmpty | src/utils/reportConfigRegistry.ts:140-153 | with every filter field empty each `filterFn` keeps all records (the vulnerability one also maps them) |
| RegistryFindings.SeverityFilterKeeps | src/utils/reportConfigRegistry.ts:73-76 | an active severity filter keeps exactly the records whose `Severity`, or else `severity`, is listed |
| RegistryFindings.ListedFiltersKeep | src/utils/reportConfigRegistry.ts:78-86 | active status and resource-type filters keep exactly the records whose field is truthy and listed |
| RegistryFindings.ToLowerIdempotent | src/utils/reportConfigRegistry.ts:91 | lowercasing twice is lowercasing once |
| RegistryFindings.PackageMatchIff | src/utils/reportConfigRegistry.ts:88-93 | a record matches iff its string `PkgName`, lowercased, contains the lowercased name; a missing name fails; a non-string name throws; the filter is case-insensitive |
| RegistryFindings.FailedTestsFilterKeeps | src/utils/reportConfigRegistry.ts:223-225 | the zero-failure filter keeps exactly the controls whose `TotalFail`, defaulting to 0, is positive |
| RegistryFindings.MapToBaseFinding | src/utils/reportConfigRegistry.ts:172-181 | the generic mapping is the identity; others throw iff a record is nullish, and otherwise give one finding per record in order |
| RegistryFindings.ToFindingKeepsRecord | src/utils/reportConfigRegistry.ts:173-180 | a finding keeps every record field the header does not overwrite |
| RegistryFindings.LicenseFinding | src/utils/reportConfigRegistry.ts:376-384 | license findings get id `PkgName-Name`, title `Name`, severity UNKNOWN and type "license" |
| RegistryFindings.SecretFinding | src/utils/reportConfigRegistry.ts:438-446 | secret findings get id `RuleID-StartLine`, severity HIGH and type "secret" |
| RegistryFindings.VulnerabilityFindingTitle | src/utils/reportConfigRegistry.ts:176 | the title falls back to the vulnerability id |
| RegistryFindings.VulnerabilityFindingIdempotent | src/utils/reportConfigRegistry.ts:145-152 | mapping a vulnerability record twice equals mapping it once |
| RegistryFindings.VulnerabilityMapIdempotent | src/utils/reportConfigRegistry.ts:172-181 | mapping an array of vulnerability records twice equals mapping it once |
| RegistryFindings.VulnerabilityMapAfterFilter | src/context/ReportContext.tsx:177-183 | the vulnerability mapping after its `filterFn` (which already mapped) changes nothing |
| Session.Flatten | src/context/ReportContext.tsx:105-117 | extraction throws iff a result's array field is truthy but not an array (or the result is nullish); otherwise it yields as many records as the fields hold, each an object with `Target` |
| Session.WithContext | src/context/ReportContext.tsx:108-113 | a record holds exactly the item's keys plus `Target`, `Class` and `Type`, which are the result's, and every other key is the item's |
| Session.FlattenAt | src/context/ReportContext.tsx:105-117 | item `k` of result `j`'s array field becomes the record at position (items of the earlier results) + `k`, carrying result `j`'s `Target`, `Class` and `Type` |
| Session.ExtractRecords | src/context/ReportContext.tsx:105-117 | the `forEach` accumulation computes the flattened records |
| Session.ScanRecordsCount | src/context/ReportContext.tsx:125-170 | a scan report's record count is the total length of its results' array fields |
| Session.ReportTitle | src/context/ReportContext.tsx:67-73 | the title is empty iff there is no report; for a report it is the truthy `displayName`, otherwise "Unknown Report" |
| Session.StoredReportHeader | src/context/ReportContext.tsx:67-81 | for every family, a document stored after classification shows its own stamped `displayName` as title and its stamped `description`, both truthy, so "Unknown Report" and the empty description never appear |
| Session.ReportDescription | src/context/ReportContext.tsx:75-81 | the description is empty without a report; for a report with a truthy `description` it is that description, otherwise empty |
| Session.FilterableFields | src/context/ReportContext.tsx:83-89 | the `(id, name)` pairs of the family's filters, in order |
| Session.ReportSession.constructor | src/context/ReportContext.tsx:40-52 | no report, UNKNOWN, empty filters, severity/desc sort |
| Session.ReportSession.SetReport | src/context/ReportContext.tsx:54-65 | throws iff classification throws, leaving the session unchanged; otherwise stores the transformed document and family, or clears both; filters and sort untouched |
| Session.ReportSession.Store | src/context/ReportContext.tsx:57-64 | stores a document with its family or clears both, keeping a report present iff the family is known |
| Session.ReportSession.SetFilters | src/context/ReportContext.tsx:42 | replaces the filters and nothing else |
| Session.ReportSession.SetSortOptions | src/context/ReportContext.tsx:49 | replaces the sort state and nothing else |
| Session.ReportSession.GetFilteredFindings | src/context/ReportContext.tsx:92-184 | the imperative pipeline computes the specified findings |
| Session.NoReportNoFindings | src/context/ReportContext.tsx:93-95 | no report or an unknown family gives no findings |
| Session.MappedFindingsTyped | src/utils/reportConfigRegistry.ts:172-181 | each mapped finding of a known family is an object whose `type` names the family |
| Session.FindingsTyped | src/context/ReportContext.tsx:177-183 | every finding of a known family is an object whose `type` names the family |
| Session.FilterFnLength | src/context/ReportContext.tsx:177 | filtering never adds records and keeps them all with no filter set |
| Session.FindingsCount | src/context/ReportContext.tsx:176-183 | with no filter set there is one finding per raw record |
| TypesRegistry.DetectReportType | src/utils/reportTypesRegistry.ts:138-173 | the loop with `try` and early return computes the first entry that claims the document |
| TypesRegistry.AllReportTypes | src/utils/reportTypesRegistry.ts:178-180 | five entries, in declaration order, none UNKNOWN |
| TypesRegistry.Find | src/utils/reportTypesRegistry.ts:188 | `find` returns an entry with the id, or none when no entry has it |
| TypesRegistry.GetReportTypeInfo | src/utils/reportTypesRegistry.ts:185-189 | every known family has its entry; UNKNOWN has none |
| TypesRegistry.ClaimCondition | src/utils/reportTypesRegistry.ts:145-151 | an entry claims a document iff its detector answers true and its transform's templates convert, since a throwing transform is caught like a throwing detector |
| TypesRegistry.FirstClaimNone | src/utils/reportTypesRegistry.ts:168-172 | UNKNOWN with no entry and no document iff no entry claims the document |
| TypesRegistry.FirstClaimAt | src/utils/reportTypesRegistry.ts:143-158 | the first claiming entry is chosen |
| TypesRegistry.FirstClaimShape | src/utils/reportTypesRegistry.ts:153-157 | a detected family is known, claims the document and comes with its entry and transform |
| TypesRegistry.DetectedObject | src/utils/reportTypesRegistry.ts:146-156 | a detected document is an object of a known family; no document means UNKNOWN |
| TypesRegistry.NullIsUnknown | src/utils/reportTypesRegistry.ts:159-165 | a `null` document is UNKNOWN here, while the unguarded registry throws |
| TypesRegistry.StrictEksImpliesLoose | src/utils/reportTypesRegistry.ts:36-45 | the strict EKS detector accepts only what the other one accepts, and throws only on a nullish document (where the other one throws too) |
| TypesRegistry.ArrayTitleOnlyLoose | src/utils/reportTypesRegistry.ts:41 | an array `Title` holding "EKS CIS" passes only the loose detector |
| TypesRegistry.MixedReportIsLicenseReport | src/utils/reportConfigRegistry.ts:476-483 | the configuration registry classifies a secrets-and-licenses report as licenses |
| TypesRegistry.SecretWhenEarlierDecline | src/utils/reportTypesRegistry.ts:143-158 | a document that the vulnerability, EKS and misconfiguration entries decline and whose secret detector holds is classified as secrets |
| TypesRegistry.MixedReportIsSecretReport | src/utils/reportTypesRegistry.ts:4-131 | the type registry classifies it as secrets |
| TypesRegistry.RegistriesDisagree | src/utils/reportTypesRegistry.ts:143 | the two registries classify that report differently |
| TypesRegistry.UnprintableNameRegistries | src/utils/reportTypesRegistry.ts:143-165 | a vulnerability report whose `ArtifactName` has an own `toString` key makes the configuration registry throw, while the type registry catches that and finds no family |
| TypesRegistry.NoClaimWhenVulnerabilityUnprintable | src/utils/reportTypesRegistry.ts:143-172 | a document whose vulnerability transform throws and that the other detectors decline is UNKNOWN in the type registry |
| LegacySession.LegacyFilterableFields | trivy-report-explorer/src/context/ReportContext.tsx:71-89 | for vulnerabilities the same `(id, name)` pairs, in order, as the current session's four vulnerability filters; otherwise `severity` named "Severity" alone; ids never repeat |
| LegacySession.LegacyReportSession.constructor | trivy-report-explorer/src/context/ReportContext.tsx:33-44 | no report, UNKNOWN, four empty filters, severity/desc sort |
| LegacySession.LegacyReportSession.SetReport | trivy-report-explorer/src/context/ReportContext.tsx:46-57 | stores the type registry's document and family, which never throws |
| LegacySession.LegacyReportSession.Store | trivy-report-explorer/src/context/ReportContext.tsx:49-56 | stores a document with its family or clears both |
| LegacySession.LegacyReportSession.SetFilters | trivy-report-explorer/src/context/ReportContext.tsx:35 | replaces the filters and nothing else |
| LegacySession.LegacyReportSession.SetSortOptions | trivy-report-explorer/src/context/ReportContext.tsx:41 | replaces the sort state and nothing else |
| LegacySession.LegacyReportSession.GetFilteredFindings | trivy-report-explorer/src/context/ReportContext.tsx:92-218 | the imperative pipeline, sorting in place, computes the specified findings |
| LegacySession.LegacyUnknownFieldKeepsOrder | trivy-report-explorer/src/context/ReportContext.tsx:155-156 | an unknown sort field keeps the filtered order, even with `null` records |
| LegacySession.LegacySeveritySortOrder | trivy-report-explorer/src/context/ReportContext.tsx:139-150 | 'asc' puts CRITICAL first here too |
| LegacySession.RecordFieldsWin | trivy-report-explorer/src/context/ReportContext.tsx:161-168 | a record's own `type` survives the earlier mapping, while the newer one overwrites it |
| LegacySession.LegacyPackageFilterThrowsOnMissingName | trivy-report-explorer/src/context/ReportContext.tsx:129-133 | a record without `PkgName` makes the earlier package filter throw, while the newer one drops it |
| LegacySession.LegacySeverityFilterKeeps | trivy-report-explorer/src/context/ReportContext.tsx:117-119 | the earlier severity filter keeps exactly the records whose `Severity` is listed |
| LegacySession.LegacyOtherFamiliesEmpty | trivy-report-explorer/src/context/ReportContext.tsx:217 | families other than vulnerabilities and EKS have no findings |
| LegacySession.LegacyVulnerabilitySortNeverThrows | trivy-report-explorer/src/context/ReportContext.tsx:100-136 | spread-built vulnerability records are never `null`, so their sort never throws |
| LegacySession.LegacyFilterKeepsObjects | trivy-report-explorer/src/context/ReportContext.tsx:115-133 | the vulnerability filters keep object records objects |
| FilterState.Toggle | src/components/Filters.tsx:90-98 | the toggled value's membership flips, every other value's is unchanged, and an absent value is appended at the end |
| FilterState.ToggleTwiceRestores | src/components/Filters.tsx:91-93 | toggling an absent value twice restores the list |
| FilterState.ToggleLength | src/components/Filters.tsx:91-93 | toggling adds one for an absent value and removes every occurrence of a present one |
| FilterState.ToggleField | src/components/Filters.tsx:94-97 | a toggle flips the value in one list field and leaves every other field unchanged |
| FilterState.ToggleFieldTwice | src/components/Filters.tsx:90-118 | toggling an absent value twice restores the whole filter state |
| FilterState.Split | src/components/Filters.tsx:135 | `split('-')` gives at least one part, none containing `-` |
| FilterState.SplitJoin | src/components/Filters.tsx:135 | joining the parts with `-` gives back the string |
| FilterState.ParseSortValue | src/components/Filters.tsx:134-140 | a value without `-` is a field with no direction; no part of the result contains `-` |
| FilterState.SortValueRoundTrip | src/components/Filters.tsx:299 | parsing `field-direction` gives back that field and direction when neither contains `-` |
| FilterState.SortStateRoundTrip | src/components/FilterManager.tsx:278 | a sort state printed into the select and read back is unchanged |
| FilterState.TypesOf | src/components/Filters.tsx:78 | `map(result => result.Type)` throws iff a result is nullish, and otherwise lists each result's `Type` in order |
| FilterState.ResourceTypes | src/components/Filters.tsx:76-86 | families other than vulnerabilities have no resource types |
| FilterState.ResourceTypesDistinct | src/components/FilterManager.tsx:17-24 | for non-nullish results, a vulnerability report's resource types throw iff some `Type` cannot be converted; otherwise they are the converted distinct types, listing every result's type once in first-occurrence order |
| FilterState.ConvertAll | src/components/FilterManager.tsx:21 | `map(type => String(type))` throws iff some value cannot be converted, and otherwise converts each value in place |
| FilterState.ConvertDistinct | src/components/FilterManager.tsx:19-21 | the distinct types convert iff all the types do |
| FilterState.ResourceOptions | src/components/FilterManager.tsx:131-132 | the report's types become the options when there are any; otherwise the configured options or none |
| FiltersPanel.ActiveFilterCount | src/components/Filters.tsx:153-158 | the badge is zero iff the filter state is empty |
| FiltersPanel.ToggleCount | src/components/Filters.tsx:90-118 | a toggle raises the badge by one for an absent value and lowers it by the occurrences of a present one |
| FiltersPanel.HandleListChange | src/components/Filters.tsx:90-118 | the session's filters become the toggled state; report, type and sort unchanged |
| FiltersPanel.HandlePackageNameChange | src/components/Filters.tsx:120-125 | only `packageName` changes |
| FiltersPanel.HandleHideZeroFailedTestsChange | src/components/Filters.tsx:127-132 | only `hideZeroFailedTests` changes |
| FiltersPanel.HandleSortChange | src/components/Filters.tsx:134-140 | the sort state becomes the parsed select value; filters unchanged |
| FiltersPanel.ClearFilters | src/components/Filters.tsx:142-150 | every field is emptied and the badge shows zero |
| FiltersPanel.SortSelectParses | src/components/Filters.tsx:303-306 | each of the panel's four select values reads back as its field and direction |
| FilterManager.SessionFilters | src/components/FilterManager.tsx:13-14 | the configuration looked up by the session's type id offers that family's filters |
| FilterManager.ListFieldOf | src/components/FilterManager.tsx:30 | exactly the ids severity, status and resourceType name list fields |
| FilterManager.HandleMultiSelectChange | src/components/FilterManager.tsx:29-39 | the filters become the multi-select toggle of the named field; report, type and sort unchanged |
| FilterManager.HandleTextChange | src/components/FilterManager.tsx:41-46 | the package-name filter takes the text; the rest is unchanged |
| FilterManager.HandleCheckboxChange | src/components/FilterManager.tsx:48-53 | the zero-failed-tests flag takes the checkbox state; the rest is unchanged |
| FilterManager.HandleSortChange | src/components/FilterManager.tsx:55-61 | the sort state becomes the parsed select value |
| FilterManager.ConfiguredSortsParse | src/components/FilterManager.tsx:282-283 | every sort a family's configuration offers reads back from its option value as that field and direction |
| FilterManager.ClearedFilters | src/components/FilterManager.tsx:64-77 | the loop applies each filter's default, in order, to the empty state |
| FilterManager.ClearFilters | src/components/FilterManager.tsx:63-80 | clearing stores the defaults of the family's filters, which is the empty state for every family |
| FilterManager.NoDefaults | src/components/FilterManager.tsx:73-77 | filters without defaults, or with an unchecked-box default, leave an unflagged state as it is |
| FilterManager.ClearedIsEmpty | src/utils/reportConfigRegistry.ts:210-216 | for every family the cleared state is the empty state |
| FilterManager.ActiveFilterCount | src/components/FilterManager.tsx:83-96 | the counting loop sums the contributions of the family's filters |
| FilterManager.EmptyCountsNothing | src/components/FilterManager.tsx:87-93 | nothing is counted in the empty state |
| FilterManager.ClearedCountsNothing | src/components/FilterManager.tsx:63-96 | after clearing the badge shows zero for every family |
| FilterManager.VulnerabilityCount | src/components/FilterManager.tsx:83-96 | for vulnerabilities the badge equals the fixed panel's count minus the flag |
| FilterManager.EksCount | src/components/FilterManager.tsx:83-96 | for EKS the badge counts the selected severities and the flag |
| FilterManager.PartitionFilters | src/components/FilterManager.tsx:209-215 | the always-visible and expandable groups split the filters: every filter is in exactly one group, with its multiplicity |
| FilterManager.HeadVisibleLayout | src/components/FilterManager.tsx:209-215 | a severity-like filter followed only by expandable ones splits into that one visible filter and the rest, in order |
| FilterManager.FamilyLayouts | src/components/FilterManager.tsx:209-215 | EKS shows all its filters at once; vulnerabilities show severity and keep the rest for expansion |
| FilterManager.ResourceControlHidden | src/components/FilterManager.tsx:131-132 | outside vulnerability reports the resource-type control has no options, so it is hidden |
| LegacyFilters.LegacyToggleField | trivy-report-explorer/src/components/Filters.tsx:36-64 | a toggle flips the value in one list field and leaves the other fields unchanged |
| LegacyFilters.LegacyToggleTwice | trivy-report-explorer/src/components/Filters.tsx:37-39 | toggling an absent value twice restores the four-field state |
| LegacyFilters.ToggleAgrees | trivy-report-explorer/src/components/Filters.tsx:36-64 | the earlier toggles agree with the later panel's on the shared fields |
| LegacyFilters.ClearAgrees | trivy-report-explorer/src/components/Filters.tsx:81-88 | the earlier clear empties the same fields as the later one |
| LegacyFilters.HandleListChange | trivy-report-explorer/src/components/Filters.tsx:36-64 | the session's filters become the toggled state; the rest is unchanged |
| LegacyFilters.HandlePackageNameChange | trivy-report-explorer/src/components/Filters.tsx:66-71 | only `packageName` changes |
| LegacyFilters.HandleSortChange | trivy-report-explorer/src/components/Filters.tsx:73-79 | the sort state becomes the parsed select value |
| LegacyFilters.ClearFilters | trivy-report-explorer/src/components/Filters.tsx:81-88 | all four fields are emptied; report, type and sort unchanged |
| Seqs.Distinct | src/components/Filters.tsx:79 | `Array.from(new Set(xs))` has no repetitions and the same elements |
| Seqs.DistinctOrder | src/components/Filters.tsx:79 | the distinct elements come in order of first occurrence |
| Seqs.RemoveAllCount | src/components/Filters.tsx:92 | removing a value shortens the list by its number of occurrences |

## Left out

- Reading the report file, drag-and-drop, fetching the sample reports and `JSON.parse`: these are I/O and library code. The model starts from a parsed JSON value.
- Rendering: the view components, the detail modal and the report viewers. Also left out are colours, the panels' expand/collapse state and `viewComponent`, which holds opaque React components.
- `console.error` on an unknown report and in the type registry's `catch`. These are logging only.
- React state updates are modelled as immediate assignments to the session's fields. Batching and re-rendering are not modelled.
- Numbers are integers. Floating-point values (a fractional `TotalFail`, the `Confidence` rounding of the license view) and `NaN` are not modelled.
- The type registry's fallback for an entry without a transform is not modelled. Every entry has a transform, so that branch cannot run.
- The panels render nothing without a report. The handlers are modelled without that guard, since it only hides them.
- RegistryFindings.LocaleComparator: `localeCompare` is modelled as lexicographic order on character codes. Locale collation is not modelled.
- RegistryFindings.StringKey: the EKS control-id sort converts `ID` with `String`. The program calls `ID.localeCompare` and throws on a nullish or non-string `ID`. LegacySession.LegacyComparator does the same.
- RegistryFindings.LocaleComparator: the program evaluates `(a.x || '').localeCompare(...)`. A truthy non-string key has no `localeCompare` and throws there. The model compares string conversions instead.
- RegistryFindings.RankOf: a severity value that is an object with an own `toString` key is ranked as "[object Object]", i.e. 0. The program's `severityOrder[key]` converts it to a property key and throws.
- RegistryFindings.OrEmptyKey: a truthy sort key that is an object with an own `toString` key is compared as "[object Object]". The program throws on it (it has no `localeCompare` in any case). RegistryFindings.StringKey and LegacySession.LegacyComparator do the same.
- RegistryFindings.Hyphenated: the license and secret ids `${a}-${b}` convert an object with an own `toString` key as "[object Object]". The program's template literal throws there, which would make the mapping throw.
- Js.ToStr: the total string conversion used by the members above. It gives "[object Object]" for every object; Js.Convert is the conversion that throws, and the transforms and the resource types use it.
- ConfigRegistry.GetReportConfig: keys that name inherited `Object.prototype` members (such as "constructor", "toString" or "__proto__") get the generic configuration. The program's `reportConfigRegistry[key]` finds those members and returns them instead. Every caller passes a report type id, so no such key reaches it.
- RegistryFindings.SeverityRank: keys that name inherited object properties (such as "constructor") are ranked 0. The program's `severityOrder[key] || 0` finds those properties and yields a function, not a number.
- RegistryFindings.RankOf: ranks through RegistryFindings.SeverityRank, so the same inherited property names are ranked 0 here.
- RegistryFindings.FailedTestsMatch: `TotalFail > 0` is modelled for numbers and booleans. A numeric string or an array, which JavaScript would coerce, counts as not positive.
- JsArray.SortRecords: any nullish record in an array of two or more throws. The engine moves `undefined` elements to the end without calling the comparator. Parsed JSON never contains `undefined`, so only `null` arises.
- JsArray.SortRecordsInPlace: a sort that throws leaves the array unchanged. The engine may leave it partly sorted. The findings call then throws and the array is discarded.
- Js.ToLower: only ASCII letters are lowercased.
- FilterManager.MultiSelect: ids other than the three list fields `severity`, `status` and `resourceType` are not modelled. The program would add or corrupt a key outside the five-field state. The panel only passes those three ids: the severity and status checkboxes, and the resource-type checkboxes built from the report's types.
- FilterManager.HandleTextChange: ids other than `packageName` leave the modelled state unchanged. FilterManager.HandleCheckboxChange does the same for ids other than `hideZeroFailedTests`. No configuration offers other text or checkbox ids.
- FilterManager.ApplyDefault: a default whose type does not fit its field, or whose id is not a filter field, is ignored. The program would store it under that id.
- FilterState.ResourceTypes: `Type` values that are objects or arrays with equal contents are merged. The program's `Set` keeps each object separately. The resulting option strings are the same.
