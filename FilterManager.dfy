/**
 * The configuration-driven filter panel: its handlers address filters by
 * the ids of the active family's `availableFilters`, clearing applies each
 * filter's default value, and the badge counts only the filters the family
 * offers. The filters are shown in two groups: severity and report-specific
 * filters always, the rest when the panel is expanded.
 */
module FilterManager {
  import opened Js
  import opened ReportTypes
  import opened FilterState
  import Seqs
  import Session
  import ConfigRegistry
  import FiltersPanel

  /** The filters the session's family offers (`getReportConfig(reportType).availableFilters`). */
  function SessionFilters(t: ReportType): (r: seq<FilterConfig>)
    ensures r == ConfigRegistry.AvailableFilters(t)
  {
    ConfigRegistry.GetReportConfig(t.Id()).availableFilters
  }

  // ---------------------------------------------------------------------
  // Handlers

  /** The list field a filter id names, if it names one. */
  function ListFieldOf(id: string): (r: Option<ListField>)
    ensures r.Some? <==> id in {"severity", "status", "resourceType"}
  {
    if id == "severity" then Some(SeverityField)
    else if id == "status" then Some(StatusField)
    else if id == "resourceType" then Some(ResourceTypeField)
    else None
  }

  /** `{...filters, [filterId]: toggled}` over the list-valued filter state. */
  function MultiSelect(f: FilterOptions, filterId: string, v: string): FilterOptions {
    match ListFieldOf(filterId)
    case Some(field) => ToggleField(f, field, v)
    case None => f
  }

  /** `handleMultiSelectChange`. */
  method HandleMultiSelectChange(s: Session.ReportSession, filterId: string, v: string)
    modifies s
    ensures s.filters == MultiSelect(old(s.filters), filterId, v)
    ensures s.report == old(s.report) && s.reportType == old(s.reportType) && s.sortOptions == old(s.sortOptions)
  {
    s.SetFilters(MultiSelect(s.filters, filterId, v));
  }

  /** `handleTextChange`; the only text filter in any configuration is the package name. */
  method HandleTextChange(s: Session.ReportSession, filterId: string, value: string)
    modifies s
    ensures filterId == "packageName" ==> s.filters == old(s.filters).(packageName := value)
    ensures filterId != "packageName" ==> s.filters == old(s.filters)
    ensures s.report == old(s.report) && s.reportType == old(s.reportType) && s.sortOptions == old(s.sortOptions)
  {
    if filterId == "packageName" {
      s.SetFilters(s.filters.(packageName := value));
    }
  }

  /** `handleCheckboxChange`; the only checkbox in any configuration hides controls with zero failed tests. */
  method HandleCheckboxChange(s: Session.ReportSession, filterId: string, checked: bool)
    modifies s
    ensures filterId == "hideZeroFailedTests" ==> s.filters == old(s.filters).(hideZeroFailedTests := checked)
    ensures filterId != "hideZeroFailedTests" ==> s.filters == old(s.filters)
    ensures s.report == old(s.report) && s.reportType == old(s.reportType) && s.sortOptions == old(s.sortOptions)
  {
    if filterId == "hideZeroFailedTests" {
      s.SetFilters(s.filters.(hideZeroFailedTests := checked));
    }
  }

  /** `handleSortChange`. */
  method HandleSortChange(s: Session.ReportSession, value: string)
    modifies s
    ensures s.sortOptions == ParseSortValue(value)
    ensures s.report == old(s.report) && s.reportType == old(s.reportType) && s.filters == old(s.filters)
  {
    s.SetSortOptions(ParseSortValue(value));
  }

  /** Every sort a family offers is read back from its select value as that field and direction. */
  lemma ConfiguredSortsParse(t: ReportType)
    ensures forall c :: c in ConfigRegistry.AvailableSorts(t) ==>
      ParseSortValue(OptionValue(c)) == SortOptions(c.field, Some(c.direction))
  {
    forall c | c in ConfigRegistry.AvailableSorts(t)
      ensures ParseSortValue(OptionValue(c)) == SortOptions(c.field, Some(c.direction))
    {
      assert c.field in {"severity", "resource", "package"};
      assert c.direction in {"asc", "desc"};
      SortValueRoundTrip(c.field, c.direction);
    }
  }

  // ---------------------------------------------------------------------
  // Clearing

  /** `clearedFilters[filter.id] = filter.defaultValue` when the filter has a default. */
  function ApplyDefault(f: FilterOptions, c: FilterConfig): FilterOptions {
    match c.defaultValue
    case None => f
    case Some(ListDefault(values)) =>
      if ListFieldOf(c.id).Some? then SetList(f, ListFieldOf(c.id).value, values) else f
    case Some(TextDefault(text)) => if c.id == "packageName" then f.(packageName := text) else f
    case Some(FlagDefault(flag)) => if c.id == "hideZeroFailedTests" then f.(hideZeroFailedTests := flag) else f
  }

  /** The defaults of `filters` applied in order to `acc`. */
  function Defaults(filters: seq<FilterConfig>, acc: FilterOptions): FilterOptions {
    if filters == [] then acc else Defaults(filters[1..], ApplyDefault(acc, filters[0]))
  }

  /** The defaults applied by the panel's loop. */
  method ClearedFilters(filters: seq<FilterConfig>) returns (cleared: FilterOptions)
    ensures cleared == Defaults(filters, EmptyFilters)
  {
    cleared := EmptyFilters;
    var i := 0;
    while i < |filters|
      invariant 0 <= i <= |filters|
      invariant Defaults(filters, EmptyFilters) == Defaults(filters[i..], cleared)
    {
      assert filters[i..][1..] == filters[i + 1..];
      cleared := ApplyDefault(cleared, filters[i]);
      i := i + 1;
    }
  }

  /** `clearFilters`. */
  method ClearFilters(s: Session.ReportSession)
    modifies s
    ensures s.filters == Defaults(SessionFilters(s.reportType), EmptyFilters)
    ensures s.filters == EmptyFilters
    ensures s.report == old(s.report) && s.reportType == old(s.reportType) && s.sortOptions == old(s.sortOptions)
  {
    var cleared := ClearedFilters(SessionFilters(s.reportType));
    ClearedIsEmpty(s.reportType);
    s.SetFilters(cleared);
  }

  /** Filters without defaults leave the state as it is. */
  lemma {:induction false} NoDefaults(filters: seq<FilterConfig>, acc: FilterOptions)
    requires forall i :: 0 <= i < |filters| ==> filters[i].defaultValue.None? || filters[i].defaultValue == Some(FlagDefault(false))
    requires !acc.hideZeroFailedTests
    ensures Defaults(filters, acc) == acc
  {
    if filters != [] {
      NoDefaults(filters[1..], acc);
    }
  }

  /** Clearing gives the empty state for every family, since the only configured default is an unchecked box. */
  lemma ClearedIsEmpty(t: ReportType)
    ensures Defaults(SessionFilters(t), EmptyFilters) == EmptyFilters
  {
    NoDefaults(ConfigRegistry.AvailableFilters(t), EmptyFilters);
  }

  // ---------------------------------------------------------------------
  // The active-filter badge

  /** What one filter adds to the badge: its list length, or one when its value is truthy. */
  function Contribution(f: FilterOptions, c: FilterConfig): nat {
    var value := FieldValue(f, c.id);
    match c.kind
    case SeverityKind => if value.Arr? then |value.items| else 0
    case StatusKind => if value.Arr? then |value.items| else 0
    case ResourceTypeKind => if value.Arr? then |value.items| else 0
    case TextKind => if Truthy(value) then 1 else 0
    case PackageNameKind => if Truthy(value) then 1 else 0
    case CheckboxKind => if Truthy(value) then 1 else 0
  }

  function ConfigCount(filters: seq<FilterConfig>, f: FilterOptions): nat {
    if filters == [] then 0 else Contribution(f, filters[0]) + ConfigCount(filters[1..], f)
  }

  /** `getActiveFilterCount`, summed by the panel's loop over the family's filters. */
  method ActiveFilterCount(s: Session.ReportSession) returns (count: nat)
    ensures count == ConfigCount(SessionFilters(s.reportType), s.filters)
  {
    var filters := SessionFilters(s.reportType);
    count := 0;
    var i := 0;
    while i < |filters|
      invariant 0 <= i <= |filters|
      invariant count + ConfigCount(filters[i..], s.filters) == ConfigCount(filters, s.filters)
    {
      assert filters[i..][1..] == filters[i + 1..];
      count := count + Contribution(s.filters, filters[i]);
      i := i + 1;
    }
  }

  /** The filters the configurations are built from. */
  const KnownFilters: seq<FilterConfig> := [ConfigRegistry.SeverityFilter, ConfigRegistry.StatusFilter,
    ConfigRegistry.ResourceTypeFilter, ConfigRegistry.PackageNameFilter, ConfigRegistry.HideZeroFailedTestsFilter]

  lemma SeverityCounts(f: FilterOptions)
    ensures Contribution(f, ConfigRegistry.SeverityFilter) == |f.severity|
  {
  }

  lemma StatusCounts(f: FilterOptions)
    ensures Contribution(f, ConfigRegistry.StatusFilter) == |f.status|
  {
    assert FieldValue(f, "status") == Arr(StrValues(f.status));
  }

  lemma ResourceTypeCounts(f: FilterOptions)
    ensures Contribution(f, ConfigRegistry.ResourceTypeFilter) == |f.resourceType|
  {
    assert FieldValue(f, "resourceType") == Arr(StrValues(f.resourceType));
  }

  lemma PackageNameCounts(f: FilterOptions)
    ensures Contribution(f, ConfigRegistry.PackageNameFilter) == if f.packageName != "" then 1 else 0
  {
  }

  lemma HideZeroCounts(f: FilterOptions)
    ensures Contribution(f, ConfigRegistry.HideZeroFailedTestsFilter) == if f.hideZeroFailedTests then 1 else 0
  {
  }

  /** The count of a non-empty list of filters: its first filter's contribution plus the rest. */
  lemma CountCons(c: FilterConfig, rest: seq<FilterConfig>, f: FilterOptions)
    ensures ConfigCount([c] + rest, f) == Contribution(f, c) + ConfigCount(rest, f)
  {
    assert ([c] + rest)[1..] == rest;
  }

  /** Nothing is counted in the empty state, for any list of the configured filters. */
  lemma {:induction false} EmptyCountsNothing(filters: seq<FilterConfig>)
    requires forall i :: 0 <= i < |filters| ==> filters[i] in KnownFilters
    ensures ConfigCount(filters, EmptyFilters) == 0
  {
    if filters != [] {
      EmptyCountsNothing(filters[1..]);
      SeverityCounts(EmptyFilters);
      StatusCounts(EmptyFilters);
      ResourceTypeCounts(EmptyFilters);
      PackageNameCounts(EmptyFilters);
      HideZeroCounts(EmptyFilters);
      assert Contribution(EmptyFilters, filters[0]) == 0;
    }
  }

  /** Every family's filters are among the configured ones. */
  lemma FamilyFiltersKnown(t: ReportType)
    ensures forall i :: 0 <= i < |SessionFilters(t)| ==> SessionFilters(t)[i] in KnownFilters
  {
  }

  /** After clearing, the badge shows nothing. */
  lemma ClearedCountsNothing(t: ReportType)
    ensures ConfigCount(SessionFilters(t), Defaults(SessionFilters(t), EmptyFilters)) == 0
  {
    ClearedIsEmpty(t);
    FamilyFiltersKnown(t);
    EmptyCountsNothing(SessionFilters(t));
  }

  /**
   * For a vulnerability report the badge counts what the fixed panel counts
   * except the zero-failed-tests flag, which that family does not offer.
   */
  lemma VulnerabilityCount(f: FilterOptions)
    ensures ConfigCount(SessionFilters(TrivyVulnerability), f) ==
      FiltersPanel.ActiveFilterCount(f) - (if f.hideZeroFailedTests then 1 else 0)
  {
    var p := [ConfigRegistry.PackageNameFilter];
    var r := [ConfigRegistry.ResourceTypeFilter] + p;
    var st := [ConfigRegistry.StatusFilter] + r;
    assert SessionFilters(TrivyVulnerability) == [ConfigRegistry.SeverityFilter] + st;
    CountCons(ConfigRegistry.SeverityFilter, st, f);
    CountCons(ConfigRegistry.StatusFilter, r, f);
    CountCons(ConfigRegistry.ResourceTypeFilter, p, f);
    CountCons(ConfigRegistry.PackageNameFilter, [], f);
    SeverityCounts(f);
    StatusCounts(f);
    ResourceTypeCounts(f);
    PackageNameCounts(f);
  }

  /** For an EKS report the badge counts the selected severities and the flag, and nothing else. */
  lemma EksCount(f: FilterOptions)
    ensures ConfigCount(SessionFilters(EksCis), f) == |f.severity| + (if f.hideZeroFailedTests then 1 else 0)
  {
    var h := [ConfigRegistry.HideZeroFailedTestsFilter];
    assert SessionFilters(EksCis) == [ConfigRegistry.SeverityFilter] + h;
    CountCons(ConfigRegistry.SeverityFilter, h, f);
    CountCons(ConfigRegistry.HideZeroFailedTestsFilter, [], f);
    SeverityCounts(f);
    HideZeroCounts(f);
  }

  // ---------------------------------------------------------------------
  // Layout

  /** Severity filters and report-specific filters are always shown. */
  predicate AlwaysVisible(c: FilterConfig) {
    c.kind == SeverityKind || c.isReportSpecific
  }

  function VisibleFilters(filters: seq<FilterConfig>): seq<FilterConfig> {
    Seqs.Filter(filters, AlwaysVisible)
  }

  /** The other filters are shown when the panel is expanded. */
  predicate Expandable(c: FilterConfig) {
    !AlwaysVisible(c)
  }

  function ExpandableFilters(filters: seq<FilterConfig>): seq<FilterConfig> {
    Seqs.Filter(filters, Expandable)
  }

  /** The two groups split the filters between them: each filter is in exactly one, as often as it is configured. */
  lemma PartitionFilters(filters: seq<FilterConfig>)
    ensures multiset(VisibleFilters(filters)) + multiset(ExpandableFilters(filters)) == multiset(filters)
    ensures forall c :: c in VisibleFilters(filters) ==> c !in ExpandableFilters(filters)
  {
    Seqs.FilterSplits(filters, Expandable, AlwaysVisible);
  }

  /** The EKS filters are all shown at once; the vulnerability panel shows severity and keeps the rest for expansion. */
  lemma FamilyLayouts()
    ensures VisibleFilters(SessionFilters(EksCis)) == SessionFilters(EksCis)
    ensures ExpandableFilters(SessionFilters(EksCis)) == []
    ensures VisibleFilters(SessionFilters(TrivyVulnerability)) == [ConfigRegistry.SeverityFilter]
    ensures ExpandableFilters(SessionFilters(TrivyVulnerability)) ==
      [ConfigRegistry.StatusFilter, ConfigRegistry.ResourceTypeFilter, ConfigRegistry.PackageNameFilter]
  {
    EksLayout();
    VulnerabilityLayout();
  }

  lemma EksLayout()
    ensures VisibleFilters(SessionFilters(EksCis)) == SessionFilters(EksCis)
    ensures ExpandableFilters(SessionFilters(EksCis)) == []
  {
    var sev := ConfigRegistry.SeverityFilter;
    var flag := ConfigRegistry.HideZeroFailedTestsFilter;
    assert SessionFilters(EksCis) == [sev] + [flag];
    Seqs.FilterAppend([sev], [flag], AlwaysVisible);
    Seqs.FilterAppend([sev], [flag], Expandable);
    Seqs.FilterOne(sev, AlwaysVisible);
    Seqs.FilterOne(sev, Expandable);
    Seqs.FilterOne(flag, AlwaysVisible);
    Seqs.FilterOne(flag, Expandable);
  }

  /** A visible filter followed only by expandable ones: the first stays in view, the rest fold away. */
  lemma HeadVisibleLayout(head: FilterConfig, rest: seq<FilterConfig>)
    requires AlwaysVisible(head)
    requires forall i :: 0 <= i < |rest| ==> Expandable(rest[i])
    ensures VisibleFilters([head] + rest) == [head]
    ensures ExpandableFilters([head] + rest) == rest
  {
    Seqs.FilterAppend([head], rest, AlwaysVisible);
    Seqs.FilterAppend([head], rest, Expandable);
    Seqs.FilterOne(head, AlwaysVisible);
    Seqs.FilterOne(head, Expandable);
    Seqs.FilterKeepsAll(rest, Expandable);
    Seqs.FilterNone(rest, AlwaysVisible);
  }

  lemma VulnerabilityLayout()
    ensures VisibleFilters(SessionFilters(TrivyVulnerability)) == [ConfigRegistry.SeverityFilter]
    ensures ExpandableFilters(SessionFilters(TrivyVulnerability)) ==
      [ConfigRegistry.StatusFilter, ConfigRegistry.ResourceTypeFilter, ConfigRegistry.PackageNameFilter]
  {
    var rest := [ConfigRegistry.StatusFilter, ConfigRegistry.ResourceTypeFilter, ConfigRegistry.PackageNameFilter];
    assert SessionFilters(TrivyVulnerability) == [ConfigRegistry.SeverityFilter] + rest;
    HeadVisibleLayout(ConfigRegistry.SeverityFilter, rest);
  }

  // ---------------------------------------------------------------------
  // Resource-type options

  /** The options of the resource-type control: the report's types, or else the configured options. */
  function ResourceControl(report: Value, t: ReportType): Result<seq<FilterOptionItem>> {
    var types :- ResourceTypes(report, t);
    Ok(ResourceOptions(types, ConfigRegistry.ResourceTypeFilter))
  }

  /** Outside vulnerability reports the control has no options, so it is hidden. */
  lemma ResourceControlHidden(report: Value, t: ReportType)
    requires t != TrivyVulnerability
    ensures ResourceControl(report, t) == Ok([])
  {
  }
}
