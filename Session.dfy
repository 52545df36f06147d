/**
 * The report session: the loaded report, its family, and the filter and
 * sort state, with the derived title, description, filterable fields and
 * the findings pipeline (extract the records of the family, then the
 * family's filter, sort and mapping to the common finding header).
 */
module Session {
  import opened Js
  import opened ReportTypes
  import ConfigRegistry
  import RegistryFindings
  import JsArray

  // ---------------------------------------------------------------------
  // Extraction of the records of a report

  /** `{...item, Target: result.Target, Class: result.Class, Type: result.Type}`. */
  function WithContext(result: Value, item: Value): (r: Value)
    ensures r.Obj? && r.props.Keys == Spread(item).Keys + {"Target", "Class", "Type"}
    ensures Prop(r, "Target") == Prop(result, "Target")
    ensures Prop(r, "Class") == Prop(result, "Class")
    ensures Prop(r, "Type") == Prop(result, "Type")
    ensures forall k :: k in Spread(item) && k !in {"Target", "Class", "Type"} ==> r.props[k] == Spread(item)[k]
  {
    Obj(Spread(item)["Target" := Prop(result, "Target")]["Class" := Prop(result, "Class")]["Type" := Prop(result, "Type")])
  }

  /** The records one scan result contributes: none when its array field is falsy; a truthy field that is not an array has no `map`. */
  function ResultRecords(result: Value, key: string): Result<seq<Value>> {
    var field :- Get(result, key);
    if !Truthy(field) then Ok([])
    else if field.Arr? then Ok(seq(|field.items|, i requires 0 <= i < |field.items| => WithContext(result, field.items[i])))
    else Thrown
  }

  /** Whether a result's array field is one the extraction cannot `map` over. */
  predicate Unmappable(result: Value, key: string) {
    IsNullish(result) || (Truthy(Prop(result, key)) && !Prop(result, key).Arr?)
  }

  /** The number of records held in the array fields of `results`, counted independently of the extraction. */
  function NestedCount(results: seq<Value>, key: string): nat {
    if results == [] then 0
    else
      var field := Prop(results[|results| - 1], key);
      NestedCount(results[..|results| - 1], key) + (if field.Arr? then |field.items| else 0)
  }

  /** All records of `results`, in order, each carrying its result's `Target`, `Class` and `Type`. */
  function Flatten(results: seq<Value>, key: string): (r: Result<seq<Value>>)
    ensures r.Thrown? <==> exists i :: 0 <= i < |results| && Unmappable(results[i], key)
    ensures r.Ok? ==> |r.value| == NestedCount(results, key)
    ensures r.Ok? ==> forall i :: 0 <= i < |r.value| ==> r.value[i].Obj? && "Target" in r.value[i].props
  {
    if results == [] then Ok([])
    else
      var init := results[..|results| - 1];
      assert forall i :: 0 <= i < |init| ==> init[i] == results[i];
      var before :- Flatten(init, key);
      var last :- ResultRecords(results[|results| - 1], key);
      Ok(before + last)
  }

  /**
   * Item `k` of result `j` is the record right after the records of the
   * results before `j`, spread and given that result's `Target`, `Class` and
   * `Type`: the records keep the order of the results and of their items.
   */
  lemma {:induction false} FlattenAt(results: seq<Value>, key: string, j: nat, k: nat)
    requires Flatten(results, key).Ok?
    requires j < |results| && Prop(results[j], key).Arr? && k < |Prop(results[j], key).items|
    ensures NestedCount(results[..j], key) + k < |Flatten(results, key).value|
    ensures Flatten(results, key).value[NestedCount(results[..j], key) + k] == WithContext(results[j], Prop(results[j], key).items[k])
    decreases |results|
  {
    var n := |results| - 1;
    var init := results[..n];
    FlattenStep(results, key);
    if j < n {
      assert init[j] == results[j];
      FlattenAt(init, key, j, k);
      assert init[..j] == results[..j];
    } else {
      assert results[..j] == init;
      ResultRecordsAt(results[n], key, k);
    }
  }

  /** The records of a non-empty list are those of all but its last result, followed by those of the last one. */
  lemma FlattenStep(results: seq<Value>, key: string)
    requires results != [] && Flatten(results, key).Ok?
    ensures Flatten(results[..|results| - 1], key).Ok? && ResultRecords(results[|results| - 1], key).Ok?
    ensures Flatten(results, key).value == Flatten(results[..|results| - 1], key).value + ResultRecords(results[|results| - 1], key).value
  {
  }

  /** Item `k` of a result's array field becomes that result's record `k`. */
  lemma ResultRecordsAt(result: Value, key: string, k: nat)
    requires ResultRecords(result, key).Ok? && Prop(result, key).Arr? && k < |Prop(result, key).items|
    ensures k < |ResultRecords(result, key).value|
    ensures ResultRecords(result, key).value[k] == WithContext(result, Prop(result, key).items[k])
  {
  }

  /** Each family's array field within a scan result. */
  function ItemsKey(t: ReportType): string {
    match t
    case TrivyMisconfig => "Misconfigurations"
    case TrivyLicense => "Licenses"
    case TrivySecret => "Secrets"
    case _ => "Vulnerabilities"
  }

  /** The raw records of a report: the flattened scan results, or a copy of the EKS summary controls. */
  function Records(report: Value, t: ReportType): Result<seq<Value>> {
    match t
    case Unknown => Ok([])
    case EksCis =>
      var controls :- Get(report, "SummaryControls");
      Iterate(controls)
    case _ =>
      var results :- Get(report, "Results");
      if results.Arr? then Flatten(results.items, ItemsKey(t)) else Thrown
  }

  /** The `forEach` over the scan results, accumulating each result's records. */
  method ExtractRecords(results: seq<Value>, key: string) returns (r: Result<seq<Value>>)
    ensures r == Flatten(results, key)
  {
    var raw: seq<Value> := [];
    var i := 0;
    while i < |results|
      invariant 0 <= i <= |results|
      invariant Flatten(results[..i], key) == Ok(raw)
    {
      assert results[..i + 1][..i] == results[..i];
      var here := ResultRecords(results[i], key);
      if here.Thrown? {
        assert Unmappable(results[i], key);
        return Thrown;
      }
      raw := raw + here.value;
      i := i + 1;
    }
    assert results[..i] == results;
    return Ok(raw);
  }

  // ---------------------------------------------------------------------
  // Derived views of the session state

  /** The findings of the session: empty without a report or for an unknown family, otherwise extract, filter, sort and map. */
  function FilteredFindings(report: Option<Value>, t: ReportType, filters: FilterOptions, sort: SortOptions): Result<seq<Value>> {
    if report.None? || !Truthy(report.value) || t == Unknown then Ok([])
    else
      var raw :- Records(report.value, t);
      var filtered :- RegistryFindings.FilterFn(t, raw, filters);
      var sorted :- RegistryFindings.SortFn(t, filtered, sort);
      RegistryFindings.MapToBaseFinding(t, sorted)
  }

  /** The title: empty without a report, otherwise the stamped display name or a fixed fallback. */
  function ReportTitle(report: Option<Value>): (r: Value)
    ensures r == Str("") <==> report.None? || !Truthy(report.value)
    ensures report.Some? && Truthy(report.value) ==> Truthy(r)
    ensures report.Some? && Truthy(report.value) ==>
      r == (if Truthy(Prop(report.value, "displayName")) then Prop(report.value, "displayName") else Str("Unknown Report"))
  {
    if report.None? || !Truthy(report.value) then Str("")
    else Or(Prop(report.value, "displayName"), Str("Unknown Report"))
  }

  /** The description: the stamped description when it is truthy, otherwise empty. */
  function ReportDescription(report: Option<Value>): (r: Value)
    ensures r == Str("") || (report.Some? && r == Prop(report.value, "description") && Truthy(r))
    ensures report.Some? && Truthy(report.value) && Truthy(Prop(report.value, "description")) ==>
      r == Prop(report.value, "description")
  {
    if report.None? || !Truthy(report.value) then Str("")
    else Or(Prop(report.value, "description"), Str(""))
  }

  /** The `{id, name}` pairs of the filters the family's configuration offers. */
  function FilterableFields(t: ReportType): (r: seq<(string, string)>)
    ensures |r| == |ConfigRegistry.AvailableFilters(t)|
    ensures forall i :: 0 <= i < |r| ==>
      r[i] == (ConfigRegistry.AvailableFilters(t)[i].id, ConfigRegistry.AvailableFilters(t)[i].name)
  {
    var filters := ConfigRegistry.GetReportConfig(t.Id()).availableFilters;
    seq(|filters|, i requires 0 <= i < |filters| => (filters[i].id, filters[i].name))
  }

  // ---------------------------------------------------------------------
  // The session state

  class ReportSession {
    var report: Option<Value>
    var reportType: ReportType
    var filters: FilterOptions
    var sortOptions: SortOptions

    /** A report is stored exactly when its family is known, and a stored report is an object. */
    ghost predicate Valid()
      reads this
    {
      (report.None? <==> reportType == Unknown) && (report.Some? ==> report.value.Obj?)
    }

    constructor()
      ensures Valid()
      ensures report == None && reportType == Unknown
      ensures filters == EmptyFilters && sortOptions == DefaultSort
    {
      report := None;
      reportType := Unknown;
      filters := EmptyFilters;
      sortOptions := DefaultSort;
    }

    /**
     * Classifies a parsed document and stores its transformed form and family,
     * or clears the report when no family matches; a detector or transform
     * that throws leaves the session as it was.
     */
    method SetReport(json: Value) returns (threw: bool)
      requires Valid()
      modifies this
      ensures Valid()
      ensures threw <==> ConfigRegistry.Classify(json).Thrown?
      ensures threw ==> report == old(report) && reportType == old(reportType)
      ensures !threw ==> report == ConfigRegistry.Classify(json).value.transformed
      ensures !threw ==> reportType == ConfigRegistry.Classify(json).value.reportType
      ensures filters == old(filters) && sortOptions == old(sortOptions)
    {
      var c := ConfigRegistry.DetectReportTypeFromRegistry(json);
      if c.Thrown? {
        return true;
      }
      ConfigRegistry.ClassifiedObject(json);
      Store(c.value);
      return false;
    }

    /** Stores the transformed document and its family when there is one, and otherwise clears the report. */
    method Store(c: ConfigRegistry.Classification)
      requires c.transformed.Some? ==> c.reportType != Unknown && c.transformed.value.Obj?
      requires c.transformed.None? ==> c.reportType == Unknown
      modifies this
      ensures Valid()
      ensures report == c.transformed && reportType == c.reportType
      ensures filters == old(filters) && sortOptions == old(sortOptions)
    {
      if c.transformed.Some? && Truthy(c.transformed.value) {
        report := c.transformed;
        reportType := c.reportType;
      } else {
        report := None;
        reportType := Unknown;
      }
    }

    method SetFilters(f: FilterOptions)
      modifies this
      ensures filters == f
      ensures report == old(report) && reportType == old(reportType) && sortOptions == old(sortOptions)
    {
      filters := f;
    }

    method SetSortOptions(s: SortOptions)
      modifies this
      ensures sortOptions == s
      ensures report == old(report) && reportType == old(reportType) && filters == old(filters)
    {
      sortOptions := s;
    }

    /** The findings pipeline as the program runs it, sorting a fresh array in place. */
    method GetFilteredFindings() returns (r: Result<seq<Value>>)
      ensures r == FilteredFindings(report, reportType, filters, sortOptions)
    {
      if report.None? || !Truthy(report.value) || reportType == Unknown {
        return Ok([]);
      }
      var t := reportType;
      var raw: Result<seq<Value>>;
      if t == EksCis {
        raw := Records(report.value, t);
      } else {
        var results := Get(report.value, "Results");
        if results.Thrown? || !results.value.Arr? {
          return Thrown;
        }
        raw := ExtractRecords(results.value.items, ItemsKey(t));
      }
      if raw.Thrown? {
        return Thrown;
      }
      var filtered := RegistryFindings.FilterFn(t, raw.value, filters);
      if filtered.Thrown? {
        return Thrown;
      }
      var a := new Value[|filtered.value|](i requires 0 <= i < |filtered.value| => filtered.value[i]);
      assert a[..] == filtered.value;
      var threw := RegistryFindings.SortFnInPlace(t, a, sortOptions);
      if threw {
        return Thrown;
      }
      r := RegistryFindings.MapToBaseFinding(t, a[..]);
    }
  }

  // ---------------------------------------------------------------------
  // Properties of the session

  /** Without a report, or for a report of unknown family, there are no findings. */
  lemma NoReportNoFindings(t: ReportType, filters: FilterOptions, sort: SortOptions)
    ensures FilteredFindings(None, t, filters, sort) == Ok([])
    ensures forall report :: FilteredFindings(report, Unknown, filters, sort) == Ok([])
  {
  }

  /** The `type` every finding of a family carries. */
  function FindingType(t: ReportType): string {
    match t
    case TrivyVulnerability => "vulnerability"
    case EksCis => "eks-control"
    case TrivyMisconfig => "misconfiguration"
    case TrivyLicense => "license"
    case TrivySecret => "secret"
    case Unknown => ""
  }

  /** The mapping of a known family gives objects whose `type` names the family, whatever `type` the record had. */
  lemma MappedFindingsTyped(t: ReportType, sorted: seq<Value>, i: int)
    requires t != Unknown && RegistryFindings.MapToBaseFinding(t, sorted).Ok?
    requires 0 <= i < |RegistryFindings.MapToBaseFinding(t, sorted).value|
    ensures RegistryFindings.MapToBaseFinding(t, sorted).value[i].Obj?
    ensures Prop(RegistryFindings.MapToBaseFinding(t, sorted).value[i], "type") == Str(FindingType(t))
  {
    assert RegistryFindings.MapToBaseFinding(t, sorted).value[i] == RegistryFindings.ToFinding(t, sorted[i]);
  }

  /** Every finding of a known family is an object whose `type` names the family. */
  lemma FindingsTyped(report: Option<Value>, t: ReportType, filters: FilterOptions, sort: SortOptions, i: int)
    requires t != Unknown
    requires FilteredFindings(report, t, filters, sort).Ok?
    requires 0 <= i < |FilteredFindings(report, t, filters, sort).value|
    ensures FilteredFindings(report, t, filters, sort).value[i].Obj?
    ensures Prop(FilteredFindings(report, t, filters, sort).value[i], "type") == Str(FindingType(t))
  {
    var raw := Records(report.value, t).value;
    var filtered := RegistryFindings.FilterFn(t, raw, filters).value;
    var sorted := RegistryFindings.SortFn(t, filtered, sort).value;
    MappedFindingsTyped(t, sorted, i);
  }

  /** The filter step of a family never adds records, and with no filter set it keeps them all. */
  lemma FilterFnLength(t: ReportType, data: seq<Value>, f: FilterOptions)
    requires RegistryFindings.FilterFn(t, data, f).Ok?
    ensures |RegistryFindings.FilterFn(t, data, f).value| <= |data|
    ensures f == EmptyFilters ==> |RegistryFindings.FilterFn(t, data, f).value| == |data|
  {
    RegistryFindings.FilterFnEmpty(t, data);
    var s := RegistryFindings.ApplySeverityFilter(data, f);
    match t
    case TrivyVulnerability =>
      var st := RegistryFindings.ApplyStatusFilter(s.value, f);
      var rt := RegistryFindings.ApplyResourceTypeFilter(st.value, f);
      var p := RegistryFindings.ApplyPackageNameFilter(rt.value, f);
      assert |p.value| <= |rt.value| <= |st.value| <= |s.value| <= |data|;
    case EksCis =>
    case TrivyMisconfig =>
      var st := RegistryFindings.ApplyStatusFilter(s.value, f);
      assert |st.value| <= |s.value| <= |data|;
    case TrivyLicense =>
      var rt := RegistryFindings.ApplyResourceTypeFilter(data, f);
      assert |rt.value| <= |data|;
    case TrivySecret =>
      assert |s.value| <= |data|;
    case Unknown =>
  }

  /**
   * With no filter set, a report yields one finding per record of its
   * scan results: the sort only reorders, and the mappings map one to one.
   */
  lemma FindingsCount(report: Value, t: ReportType, sort: SortOptions)
    requires Truthy(report) && t != Unknown
    requires FilteredFindings(Some(report), t, EmptyFilters, sort).Ok?
    ensures Records(report, t).Ok?
    ensures |FilteredFindings(Some(report), t, EmptyFilters, sort).value| == |Records(report, t).value|
  {
    var raw := Records(report, t).value;
    var filtered := RegistryFindings.FilterFn(t, raw, EmptyFilters).value;
    FilterFnLength(t, raw, EmptyFilters);
    var sorted := RegistryFindings.SortFn(t, filtered, sort).value;
    assert |sorted| == |filtered| by {
      if RegistryFindings.Comparator(t, sort).Some? {
        assert multiset(sorted) == multiset(filtered);
        assert |multiset(sorted)| == |multiset(filtered)|;
      }
    }
  }

  /** A scan report's records are counted by the array fields of its results. */
  lemma ScanRecordsCount(report: Value, t: ReportType)
    requires t !in {EksCis, Unknown} && Records(report, t).Ok?
    ensures Prop(report, "Results").Arr?
    ensures |Records(report, t).value| == NestedCount(Prop(report, "Results").items, ItemsKey(t))
  {
  }

  /**
   * For every classified document the session stores, of any family, the
   * title and description are the display name and description its transform
   * stamped: both are truthy, so neither fallback is ever shown.
   */
  lemma StoredReportHeader(json: Value)
    requires ConfigRegistry.Classify(json).Ok? && ConfigRegistry.Classify(json).value.transformed.Some?
    ensures var d := ConfigRegistry.Classify(json).value.transformed.value;
      && Truthy(d)
      && ReportTitle(Some(d)) == Prop(d, "displayName") && Truthy(ReportTitle(Some(d)))
      && ReportDescription(Some(d)) == Prop(d, "description") && Truthy(ReportDescription(Some(d)))
  {
    ConfigRegistry.ClassifyTransformed(json);
    ConfigRegistry.StampedHeaderTruthy(ConfigRegistry.Classify(json).value.reportType, json);
  }
}
