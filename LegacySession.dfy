/**
 * The earlier report session, which classifies with the failure-isolating
 * type registry and builds findings itself for two families only:
 * vulnerabilities and EKS CIS controls. Its filters have four fields, its
 * sort reads the upper-case `Severity`, and its mapping lets the record's
 * own fields win over the finding header.
 */
module LegacySession {
  import opened Js
  import opened ReportTypes
  import StableSort
  import JsArray
  import RegistryFindings
  import Session
  import TypesRegistry

  /** The four-field filter state of the earlier session. */
  datatype LegacyFilterOptions = LegacyFilterOptions(
    severity: seq<string>,
    status: seq<string>,
    resourceType: seq<string>,
    packageName: string)

  const LegacyEmptyFilters := LegacyFilterOptions([], [], [], "")

  // ---------------------------------------------------------------------
  // Filters

  /** `filters.severity.includes(v.Severity)`: no fallback to a lower-case `severity`. */
  function LegacySeverityMatch(list: seq<string>, x: Value): Result<bool> {
    var severity :- Get(x, "Severity");
    Ok(StringListIncludes(list, severity))
  }

  /** `v.PkgName.toLowerCase().includes(...)`: a record without a string `PkgName` throws. */
  function LegacyPackageMatch(name: string, x: Value): Result<bool> {
    var pkg :- Get(x, "PkgName");
    if pkg.Str? then Ok(Contains(ToLower(pkg.s), ToLower(name))) else Thrown
  }

  function LegacySeverityTest(list: seq<string>): Value -> Result<bool> {
    x => LegacySeverityMatch(list, x)
  }

  function LegacyPackageTest(name: string): Value -> Result<bool> {
    x => LegacyPackageMatch(name, x)
  }

  function LegacySeverityFilter(data: seq<Value>, f: LegacyFilterOptions): Result<seq<Value>> {
    if |f.severity| == 0 then Ok(data) else JsArray.FilterBy(data, LegacySeverityTest(f.severity))
  }

  /** The four vulnerability filters in turn, each skipped when its field is empty. */
  function LegacyVulnerabilityFilter(data: seq<Value>, f: LegacyFilterOptions): Result<seq<Value>> {
    var s :- LegacySeverityFilter(data, f);
    var st :- if |f.status| == 0 then Ok(s) else JsArray.FilterBy(s, RegistryFindings.StatusTest(f.status));
    var rt :- if |f.resourceType| == 0 then Ok(st) else JsArray.FilterBy(st, RegistryFindings.ResourceTypeTest(f.resourceType));
    if f.packageName == "" then Ok(rt) else JsArray.FilterBy(rt, LegacyPackageTest(f.packageName))
  }

  // ---------------------------------------------------------------------
  // Sorting and mapping

  /** The comparator for a sort field that is neither severity nor resource: it reads nothing and answers 0. */
  function ZeroComparator(): (Value, Value) -> int {
    (a: Value, b: Value) => 0
  }

  /** The comparator reading the records, for the severity and resource fields; none for any other field. */
  function LegacyComparator(t: ReportType, opts: SortOptions): Option<(Value, Value) -> int> {
    var dir := RegistryFindings.Direction(opts);
    if opts.field == "severity" then Some(RegistryFindings.SeverityComparator("Severity", dir))
    else if opts.field == "resource" then
      if t == EksCis then Some(RegistryFindings.LocaleComparator(RegistryFindings.StringKey("ID"), dir))
      else Some(RegistryFindings.LocaleComparator(RegistryFindings.OrEmptyKey("Target"), dir))
    else None
  }

  /** The in-place `sort` of the earlier session; with the zero comparator nothing is read, so nothing throws. */
  function LegacySort(t: ReportType, data: seq<Value>, opts: SortOptions): Result<seq<Value>> {
    match LegacyComparator(t, opts)
    case None => Ok(StableSort.Sort(data, ZeroComparator()))
    case Some(cmp) => JsArray.SortRecords(data, cmp)
  }

  /** `{id, title, description, severity, type, ...record}`: the record's own fields win. */
  function LegacyFinding(t: ReportType, x: Value): Value {
    Obj(RegistryFindings.FindingHeader(t, x) + Spread(x))
  }

  function LegacyFindingOf(t: ReportType): Value -> Value {
    x => LegacyFinding(t, x)
  }

  // ---------------------------------------------------------------------
  // The findings pipeline

  /** The raw records the earlier session works on: the flattened vulnerabilities, or a copy of the EKS controls. */
  function LegacyRecords(report: Value, t: ReportType): Result<seq<Value>> {
    if t == TrivyVulnerability then
      var results :- Get(report, "Results");
      if results.Arr? then Session.Flatten(results.items, "Vulnerabilities") else Thrown
    else
      var controls :- Get(report, "SummaryControls");
      Iterate(controls)
  }

  /** The findings: empty without a report or for a family other than vulnerabilities and EKS, otherwise filter, sort and map. */
  function LegacyFindings(report: Option<Value>, t: ReportType, f: LegacyFilterOptions, opts: SortOptions): Result<seq<Value>> {
    if report.None? || !Truthy(report.value) || t !in {TrivyVulnerability, EksCis} then Ok([])
    else
      var raw :- LegacyRecords(report.value, t);
      var filtered :- if t == TrivyVulnerability then LegacyVulnerabilityFilter(raw, f) else LegacySeverityFilter(raw, f);
      var sorted :- LegacySort(t, filtered, opts);
      JsArray.MapRecords(sorted, LegacyFindingOf(t))
  }

  /** The hard-coded filterable fields: four for vulnerabilities, severity alone otherwise. */
  function LegacyFilterableFields(t: ReportType): (r: seq<(string, string)>)
    ensures t == TrivyVulnerability ==> r == Session.FilterableFields(TrivyVulnerability)
    ensures t != TrivyVulnerability ==> r == [("severity", "Severity")]
    ensures forall i, j :: 0 <= i < j < |r| ==> r[i].0 != r[j].0
  {
    if t == TrivyVulnerability then
      [("severity", "Severity"), ("status", "Status"), ("resourceType", "Resource Type"), ("packageName", "Package Name")]
    else [("severity", "Severity")]
  }

  // ---------------------------------------------------------------------
  // The session state

  class LegacyReportSession {
    var report: Option<Value>
    var reportType: ReportType
    var filters: LegacyFilterOptions
    var sortOptions: SortOptions

    constructor()
      ensures report == None && reportType == Unknown
      ensures filters == LegacyEmptyFilters && sortOptions == DefaultSort
    {
      report := None;
      reportType := Unknown;
      filters := LegacyEmptyFilters;
      sortOptions := DefaultSort;
    }

    /** Classifies with the type registry, which never throws, and stores the document and family, or clears them. */
    method SetReport(json: Value)
      modifies this
      ensures report == TypesRegistry.Detected(json).transformed
      ensures reportType == TypesRegistry.Detected(json).reportType
      ensures filters == old(filters) && sortOptions == old(sortOptions)
    {
      var d := TypesRegistry.DetectReportType(json);
      TypesRegistry.DetectedObject(json);
      Store(d);
    }

    /** Stores the transformed document and its family when there is one, and otherwise clears the report. */
    method Store(d: TypesRegistry.Detection)
      requires d.transformed.Some? ==> d.transformed.value.Obj?
      requires d.transformed.None? ==> d.reportType == Unknown
      modifies this
      ensures report == d.transformed && reportType == d.reportType
      ensures filters == old(filters) && sortOptions == old(sortOptions)
    {
      if d.transformed.Some? && Truthy(d.transformed.value) {
        report := d.transformed;
        reportType := d.reportType;
      } else {
        report := None;
        reportType := Unknown;
      }
    }

    method SetFilters(f: LegacyFilterOptions)
      modifies this
      ensures filters == f
      ensures report == old(report) && reportType == old(reportType) && sortOptions == old(sortOptions)
    {
      filters := f;
    }

    method SetSortOptions(s: SortOptions)
      modifies this
      ensures sortOptions == s
      ensures report == old(report) && reportType == old(reportType) && filters == old(filters)
    {
      sortOptions := s;
    }

    /** The findings as the program computes them, sorting the filtered array in place. */
    method GetFilteredFindings() returns (r: Result<seq<Value>>)
      ensures r == LegacyFindings(report, reportType, filters, sortOptions)
    {
      if report.None? || !Truthy(report.value) || reportType !in {TrivyVulnerability, EksCis} {
        return Ok([]);
      }
      var t := reportType;
      var raw: Result<seq<Value>>;
      if t == TrivyVulnerability {
        var results := Get(report.value, "Results");
        if results.Thrown? || !results.value.Arr? {
          return Thrown;
        }
        raw := Session.ExtractRecords(results.value.items, "Vulnerabilities");
      } else {
        raw := LegacyRecords(report.value, t);
      }
      if raw.Thrown? {
        return Thrown;
      }
      var filtered := if t == TrivyVulnerability then LegacyVulnerabilityFilter(raw.value, filters) else LegacySeverityFilter(raw.value, filters);
      if filtered.Thrown? {
        return Thrown;
      }
      var a := new Value[|filtered.value|](i requires 0 <= i < |filtered.value| => filtered.value[i]);
      assert a[..] == filtered.value;
      var cmp := LegacyComparator(t, sortOptions);
      if cmp.None? {
        StableSort.SortInPlace(a, ZeroComparator());
      } else {
        var threw := JsArray.SortRecordsInPlace(a, cmp.value);
        if threw {
          return Thrown;
        }
      }
      r := JsArray.MapRecords(a[..], LegacyFindingOf(t));
    }
  }

  // ---------------------------------------------------------------------
  // Properties

  /** Sorting by a field the earlier session does not know keeps the filtered order, even with `null` records. */
  lemma LegacyUnknownFieldKeepsOrder(t: ReportType, data: seq<Value>, opts: SortOptions)
    requires opts.field != "severity" && opts.field != "resource"
    ensures LegacySort(t, data, opts) == Ok(data)
  {
    var zero := ZeroComparator();
    forall i, j | 0 <= i < j < |data| ensures zero(data[j], data[i]) >= 0 {
    }
    StableSort.SortOrderedIsIdentity(data, zero);
  }

  /** The earlier severity sort orders by the upper-case `Severity`: 'asc' puts CRITICAL first, like the newer one. */
  lemma LegacySeveritySortOrder(t: ReportType, data: seq<Value>, opts: SortOptions)
    requires opts.field == "severity" && LegacySort(t, data, opts).Ok?
    ensures var r := LegacySort(t, data, opts).value;
      forall i, j :: 0 <= i < j < |r| ==>
        if opts.direction == Some("asc") then RegistryFindings.RankOf("Severity", r[i]) >= RegistryFindings.RankOf("Severity", r[j])
        else RegistryFindings.RankOf("Severity", r[i]) <= RegistryFindings.RankOf("Severity", r[j])
  {
    RegistryFindings.SeveritySortOrder("Severity", data, opts);
  }

  /** In the earlier mapping the record's own `type` survives, where the newer mapping overwrites it with the family's. */
  lemma RecordFieldsWin(x: Value)
    requires x.Obj? && "type" in x.props
    ensures LegacyFinding(TrivyVulnerability, x).props["type"] == x.props["type"]
    ensures RegistryFindings.ToFinding(TrivyVulnerability, x).props["type"] == Str("vulnerability")
  {
  }

  /** A record without `PkgName` makes the earlier package filter throw, where the newer one merely drops it. */
  lemma LegacyPackageFilterThrowsOnMissingName(name: string, x: Value)
    requires x.Obj? && "PkgName" !in x.props
    ensures LegacyPackageMatch(name, x) == Thrown
    ensures RegistryFindings.PackageMatch(name, x) == Ok(false)
  {
  }

  /** The earlier severity filter keeps exactly the records whose upper-case `Severity` is listed. */
  lemma LegacySeverityFilterKeeps(data: seq<Value>, f: LegacyFilterOptions, x: Value)
    requires |f.severity| > 0 && LegacySeverityFilter(data, f).Ok?
    ensures x in LegacySeverityFilter(data, f).value <==> x in data && StringListIncludes(f.severity, Prop(x, "Severity"))
  {
    JsArray.FilterByMembers(data, LegacySeverityTest(f.severity), x);
  }

  /** Only vulnerability and EKS reports have findings in the earlier session. */
  lemma LegacyOtherFamiliesEmpty(report: Option<Value>, t: ReportType, f: LegacyFilterOptions, opts: SortOptions)
    requires t !in {TrivyVulnerability, EksCis}
    ensures LegacyFindings(report, t, f, opts) == Ok([])
  {
  }

  /** Vulnerability records are built by spreading, so they are never `null` and the vulnerability sort never throws. */
  lemma LegacyVulnerabilitySortNeverThrows(data: seq<Value>, f: LegacyFilterOptions, opts: SortOptions, results: seq<Value>)
    requires Session.Flatten(results, "Vulnerabilities").Ok?
    requires LegacyVulnerabilityFilter(Session.Flatten(results, "Vulnerabilities").value, f).Ok?
    ensures LegacySort(TrivyVulnerability, LegacyVulnerabilityFilter(Session.Flatten(results, "Vulnerabilities").value, f).value, opts).Ok?
  {
    var raw := Session.Flatten(results, "Vulnerabilities").value;
    var filtered := LegacyVulnerabilityFilter(raw, f).value;
    LegacyFilterKeepsObjects(raw, f);
    assert !JsArray.HasNullish(filtered);
  }

  lemma LegacyFilterKeepsObjects(data: seq<Value>, f: LegacyFilterOptions)
    requires RegistryFindings.AllObj(data) && LegacyVulnerabilityFilter(data, f).Ok?
    ensures RegistryFindings.AllObj(LegacyVulnerabilityFilter(data, f).value)
  {
    var s := LegacySeverityFilter(data, f).value;
    if |f.severity| > 0 { RegistryFindings.FilterByAllObj(data, LegacySeverityTest(f.severity)); }
    var st := if |f.status| == 0 then s else JsArray.FilterBy(s, RegistryFindings.StatusTest(f.status)).value;
    if |f.status| > 0 { RegistryFindings.FilterByAllObj(s, RegistryFindings.StatusTest(f.status)); }
    var rt := if |f.resourceType| == 0 then st else JsArray.FilterBy(st, RegistryFindings.ResourceTypeTest(f.resourceType)).value;
    if |f.resourceType| > 0 { RegistryFindings.FilterByAllObj(st, RegistryFindings.ResourceTypeTest(f.resourceType)); }
    if f.packageName != "" { RegistryFindings.FilterByAllObj(rt, LegacyPackageTest(f.packageName)); }
  }
}
