/**
 * The filter panel of the earlier session: the same toggles, package-name
 * setter and sort select as the fixed five-field panel, over the four-field
 * filter state, and a clear that empties all four fields.
 */
module LegacyFilters {
  import opened Js
  import opened ReportTypes
  import opened FilterState
  import LegacySession

  function LegacyGetList(f: LegacySession.LegacyFilterOptions, field: ListField): seq<string> {
    match field
    case SeverityField => f.severity
    case StatusField => f.status
    case ResourceTypeField => f.resourceType
  }

  /** `setFilters({...filters, [field]: toggled})` over the four-field state. */
  function LegacyToggleField(f: LegacySession.LegacyFilterOptions, field: ListField, v: string): (r: LegacySession.LegacyFilterOptions)
    ensures v in LegacyGetList(r, field) <==> v !in LegacyGetList(f, field)
    ensures forall g: ListField :: g != field ==> LegacyGetList(r, g) == LegacyGetList(f, g)
    ensures r.packageName == f.packageName
  {
    var toggled := Toggle(LegacyGetList(f, field), v);
    match field
    case SeverityField => f.(severity := toggled)
    case StatusField => f.(status := toggled)
    case ResourceTypeField => f.(resourceType := toggled)
  }

  /** Toggling the same absent value twice restores the four-field state. */
  lemma LegacyToggleTwice(f: LegacySession.LegacyFilterOptions, field: ListField, v: string)
    requires v !in LegacyGetList(f, field)
    ensures LegacyToggleField(LegacyToggleField(f, field, v), field, v) == f
  {
    ToggleTwiceRestores(LegacyGetList(f, field), v);
  }

  /** The four-field state as a five-field state with the flag off. */
  function Widen(f: LegacySession.LegacyFilterOptions): FilterOptions {
    FilterOptions(f.severity, f.status, f.resourceType, f.packageName, false)
  }

  /** The earlier panel's toggles agree with the later panel's on the fields both have. */
  lemma ToggleAgrees(f: LegacySession.LegacyFilterOptions, field: ListField, v: string)
    ensures Widen(LegacyToggleField(f, field, v)) == ToggleField(Widen(f), field, v)
  {
  }

  /** Clearing empties the same fields as the later panel's clear. */
  lemma ClearAgrees()
    ensures Widen(LegacySession.LegacyEmptyFilters) == EmptyFilters
  {
  }

  /** `handleSeverityChange`, `handleStatusChange` and `handleResourceTypeChange`. */
  method HandleListChange(s: LegacySession.LegacyReportSession, field: ListField, v: string)
    modifies s
    ensures s.filters == LegacyToggleField(old(s.filters), field, v)
    ensures s.report == old(s.report) && s.reportType == old(s.reportType) && s.sortOptions == old(s.sortOptions)
  {
    s.SetFilters(LegacyToggleField(s.filters, field, v));
  }

  /** `handlePackageNameChange`. */
  method HandlePackageNameChange(s: LegacySession.LegacyReportSession, value: string)
    modifies s
    ensures s.filters == old(s.filters).(packageName := value)
    ensures s.report == old(s.report) && s.reportType == old(s.reportType) && s.sortOptions == old(s.sortOptions)
  {
    s.SetFilters(s.filters.(packageName := value));
  }

  /** `handleSortChange`. */
  method HandleSortChange(s: LegacySession.LegacyReportSession, value: string)
    modifies s
    ensures s.sortOptions == ParseSortValue(value)
    ensures s.report == old(s.report) && s.reportType == old(s.reportType) && s.filters == old(s.filters)
  {
    s.SetSortOptions(ParseSortValue(value));
  }

  /** `clearFilters`: all four fields empty. */
  method ClearFilters(s: LegacySession.LegacyReportSession)
    modifies s
    ensures s.filters.severity == [] && s.filters.status == [] && s.filters.resourceType == [] && s.filters.packageName == ""
    ensures s.report == old(s.report) && s.reportType == old(s.reportType) && s.sortOptions == old(s.sortOptions)
  {
    s.SetFilters(LegacySession.LegacyEmptyFilters);
  }
}
