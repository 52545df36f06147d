/**
 * The fixed five-field filter panel: one toggle handler per list-valued
 * filter, setters for the package name and the zero-failed-tests flag, the
 * sort select, clearing, and the badge counting the active filters. Every
 * handler ends by writing the session's filter or sort state.
 */
module FiltersPanel {
  import opened Js
  import opened ReportTypes
  import opened FilterState
  import Session
  import ConfigRegistry

  /** The badge count: every selected list value, plus one for a package name and one for the flag. */
  function ActiveFilterCount(f: FilterOptions): (r: nat)
    ensures r == 0 <==> f == EmptyFilters
  {
    |f.severity| + |f.status| + |f.resourceType| + (if f.packageName != "" then 1 else 0) + (if f.hideZeroFailedTests then 1 else 0)
  }

  /** Toggling adds one to the count for an absent value and removes every occurrence of a present one. */
  lemma ToggleCount(f: FilterOptions, field: ListField, v: string)
    ensures ActiveFilterCount(ToggleField(f, field, v)) ==
      if v in GetList(f, field) then ActiveFilterCount(f) - multiset(GetList(f, field))[v] else ActiveFilterCount(f) + 1
  {
    ToggleLength(GetList(f, field), v);
  }

  /** `handleSeverityChange`, `handleStatusChange` and `handleResourceTypeChange`. */
  method HandleListChange(s: Session.ReportSession, field: ListField, v: string)
    modifies s
    ensures s.filters == ToggleField(old(s.filters), field, v)
    ensures s.report == old(s.report) && s.reportType == old(s.reportType) && s.sortOptions == old(s.sortOptions)
  {
    s.SetFilters(ToggleField(s.filters, field, v));
  }

  /** `handlePackageNameChange`. */
  method HandlePackageNameChange(s: Session.ReportSession, value: string)
    modifies s
    ensures s.filters == old(s.filters).(packageName := value)
    ensures s.report == old(s.report) && s.reportType == old(s.reportType) && s.sortOptions == old(s.sortOptions)
  {
    s.SetFilters(s.filters.(packageName := value));
  }

  /** `handleHideZeroFailedTestsChange`. */
  method HandleHideZeroFailedTestsChange(s: Session.ReportSession, checked: bool)
    modifies s
    ensures s.filters == old(s.filters).(hideZeroFailedTests := checked)
    ensures s.report == old(s.report) && s.reportType == old(s.reportType) && s.sortOptions == old(s.sortOptions)
  {
    s.SetFilters(s.filters.(hideZeroFailedTests := checked));
  }

  /** `handleSortChange`. */
  method HandleSortChange(s: Session.ReportSession, value: string)
    modifies s
    ensures s.sortOptions == ParseSortValue(value)
    ensures s.report == old(s.report) && s.reportType == old(s.reportType) && s.filters == old(s.filters)
  {
    s.SetSortOptions(ParseSortValue(value));
  }

  /** `clearFilters`: every field back to empty, which leaves nothing for the badge to count. */
  method ClearFilters(s: Session.ReportSession)
    modifies s
    ensures s.filters == EmptyFilters && ActiveFilterCount(s.filters) == 0
    ensures s.report == old(s.report) && s.reportType == old(s.reportType) && s.sortOptions == old(s.sortOptions)
  {
    s.SetFilters(EmptyFilters);
  }

  /** The panel's sort select offers the severity and resource orders, with the same captions as the configurations. */
  const SortSelect: seq<SortConfig> := ConfigRegistry.SeveritySorts + ConfigRegistry.ResourceSorts

  /** Each option of the sort select is read back as its field and direction. */
  lemma SortSelectParses()
    ensures forall i :: 0 <= i < |SortSelect| ==>
      ParseSortValue(OptionValue(SortSelect[i])) == SortOptions(SortSelect[i].field, Some(SortSelect[i].direction))
  {
    forall i | 0 <= i < |SortSelect|
      ensures ParseSortValue(OptionValue(SortSelect[i])) == SortOptions(SortSelect[i].field, Some(SortSelect[i].direction))
    {
      assert SortSelect[i].field in {"severity", "resource"};
      assert SortSelect[i].direction in {"asc", "desc"};
      SortValueRoundTrip(SortSelect[i].field, SortSelect[i].direction);
    }
  }
}
