/**
 * The per-family behaviour of the report configurations: the shared filter
 * helpers and each family's `filterFn`, the severity-rank and `localeCompare`
 * sorts of each `sortFn`, and each `mapToBaseFinding`, which overlays the
 * common finding header (`id`, `title`, `description`, `severity`, `type`) on
 * a record.
 */
module RegistryFindings {
  import opened Js
  import opened ReportTypes
  import Seqs
  import StableSort
  import JsArray

  // ---------------------------------------------------------------------
  // Filter tests (each reads a property of the record, so a `null` record throws)

  /** `filters.severity.includes(item.Severity || item.severity)`. */
  function SeverityMatch(list: seq<string>, x: Value): Result<bool> {
    var upper :- Get(x, "Severity");
    Ok(StringListIncludes(list, Or(upper, Prop(x, "severity"))))
  }

  /** `item[key] && list.includes(item[key])`, the status and resource-type tests. */
  function ListedMatch(list: seq<string>, key: string, x: Value): Result<bool> {
    var v :- Get(x, key);
    Ok(Truthy(v) && StringListIncludes(list, v))
  }

  /** `item.PkgName?.toLowerCase().includes(name.toLowerCase())`: a missing name fails, a name that is not a string has no `toLowerCase`. */
  function PackageMatch(name: string, x: Value): Result<bool> {
    var pkg :- Get(x, "PkgName");
    if IsNullish(pkg) then Ok(false)
    else if pkg.Str? then Ok(Contains(ToLower(pkg.s), ToLower(name)))
    else Thrown
  }

  /** `v > 0` for the values `TotalFail || 0` can take. */
  predicate Positive(v: Value) {
    match v
    case Num(n) => n > 0
    case Bool(b) => b
    case _ => false
  }

  /** `(control.TotalFail || 0) > 0`. */
  function FailedTestsMatch(x: Value): Result<bool> {
    var total :- Get(x, "TotalFail");
    Ok(Positive(Or(total, Num(0))))
  }

  function SeverityTest(list: seq<string>): Value -> Result<bool> {
    x => SeverityMatch(list, x)
  }

  function StatusTest(list: seq<string>): Value -> Result<bool> {
    x => ListedMatch(list, "Status", x)
  }

  function ResourceTypeTest(list: seq<string>): Value -> Result<bool> {
    x => ListedMatch(list, "Type", x)
  }

  function PackageTest(name: string): Value -> Result<bool> {
    x => PackageMatch(name, x)
  }

  function FailedTestsTest(): Value -> Result<bool> {
    x => FailedTestsMatch(x)
  }

  // ---------------------------------------------------------------------
  // The filter helpers: each is the identity when its filter field is empty

  function ApplySeverityFilter(data: seq<Value>, f: FilterOptions): Result<seq<Value>> {
    if |f.severity| == 0 then Ok(data) else JsArray.FilterBy(data, SeverityTest(f.severity))
  }

  function ApplyStatusFilter(data: seq<Value>, f: FilterOptions): Result<seq<Value>> {
    if |f.status| == 0 then Ok(data) else JsArray.FilterBy(data, StatusTest(f.status))
  }

  function ApplyResourceTypeFilter(data: seq<Value>, f: FilterOptions): Result<seq<Value>> {
    if |f.resourceType| == 0 then Ok(data) else JsArray.FilterBy(data, ResourceTypeTest(f.resourceType))
  }

  function ApplyPackageNameFilter(data: seq<Value>, f: FilterOptions): Result<seq<Value>> {
    if f.packageName == "" then Ok(data) else JsArray.FilterBy(data, PackageTest(f.packageName))
  }

  /** Each family's `filterFn`; the vulnerability one already overlays the finding header. */
  function FilterFn(t: ReportType, data: seq<Value>, f: FilterOptions): Result<seq<Value>> {
    match t
    case TrivyVulnerability =>
      var s :- ApplySeverityFilter(data, f);
      var st :- ApplyStatusFilter(s, f);
      var rt :- ApplyResourceTypeFilter(st, f);
      var p :- ApplyPackageNameFilter(rt, f);
      MapToBaseFinding(t, p)
    case EksCis =>
      var s :- ApplySeverityFilter(data, f);
      if f.hideZeroFailedTests then JsArray.FilterBy(s, FailedTestsTest()) else Ok(s)
    case TrivyMisconfig =>
      var s :- ApplySeverityFilter(data, f);
      var st :- ApplyStatusFilter(s, f);
      ApplyResourceTypeFilter(st, f)
    case TrivyLicense =>
      var rt :- ApplyResourceTypeFilter(data, f);
      ApplyPackageNameFilter(rt, f)
    case TrivySecret =>
      var s :- ApplySeverityFilter(data, f);
      ApplyResourceTypeFilter(s, f)
    case Unknown =>
      ApplySeverityFilter(data, f)
  }

  // ---------------------------------------------------------------------
  // Sorting

  /** `severityOrder[key] || 0`. */
  function SeverityRank(key: string): (r: int)
    ensures 0 <= r <= 4
    ensures r == 4 <==> key == "CRITICAL"
    ensures r == 0 <==> key !in {"CRITICAL", "HIGH", "MEDIUM", "LOW"}
  {
    if key == "CRITICAL" then 4
    else if key == "HIGH" then 3
    else if key == "MEDIUM" then 2
    else if key == "LOW" then 1
    else 0
  }

  /** The rank of a record's severity field `key`, looked up by its string conversion. */
  function RankOf(key: string, x: Value): int {
    SeverityRank(ToStr(Prop(x, key)))
  }

  /** `sortOptions.direction === 'asc' ? 1 : -1`. */
  function Direction(opts: SortOptions): (d: int)
    ensures d == 1 || d == -1
  {
    if opts.direction == Some("asc") then 1 else -1
  }

  /** The comparator of `applySeveritySort` on the severity field `key`: `(rank b - rank a) * direction`. */
  function SeverityComparator(key: string, dir: int): (Value, Value) -> int {
    (a: Value, b: Value) => (RankOf(key, b) - RankOf(key, a)) * dir
  }

  /** `(x[key] || '')`, the string key of a resource or package sort. */
  function OrEmptyKey(key: string): Value -> string {
    x => if Truthy(Prop(x, key)) then ToStr(Prop(x, key)) else ""
  }

  /** `x[key]` converted to a string, the key of the EKS control-id sort. */
  function StringKey(key: string): Value -> string {
    x => ToStr(Prop(x, key))
  }

  /** `k(a).localeCompare(k(b)) * direction`. */
  function LocaleComparator(k: Value -> string, dir: int): (Value, Value) -> int {
    (a: Value, b: Value) => LocaleCompare(k(a), k(b)) * dir
  }

  /** The comparator each family's `sortFn` uses for a sort field, or none when it returns the data unsorted. */
  function Comparator(t: ReportType, opts: SortOptions): Option<(Value, Value) -> int> {
    var dir := Direction(opts);
    match t
    case TrivyVulnerability =>
      if opts.field == "severity" then Some(SeverityComparator("severity", dir))
      else if opts.field == "resource" then Some(LocaleComparator(OrEmptyKey("Target"), dir))
      else None
    case EksCis =>
      if opts.field == "severity" then Some(SeverityComparator("severity", dir))
      else if opts.field == "resource" then Some(LocaleComparator(StringKey("ID"), dir))
      else None
    case TrivyMisconfig =>
      if opts.field == "severity" then Some(SeverityComparator("severity", dir))
      else if opts.field == "resource" then Some(LocaleComparator(OrEmptyKey("type"), dir))
      else None
    case TrivyLicense =>
      if opts.field == "resource" then Some(LocaleComparator(OrEmptyKey("type"), dir))
      else if opts.field == "package" then Some(LocaleComparator(OrEmptyKey("PkgName"), dir))
      else None
    case TrivySecret =>
      if opts.field == "severity" then Some(SeverityComparator("severity", dir))
      else if opts.field == "resource" then Some(LocaleComparator(OrEmptyKey("type"), dir))
      else None
    case Unknown =>
      Some(SeverityComparator("severity", dir))
  }

  /** Each family's `sortFn`. */
  function SortFn(t: ReportType, data: seq<Value>, opts: SortOptions): Result<seq<Value>> {
    match Comparator(t, opts)
    case None => Ok(data)
    case Some(cmp) => JsArray.SortRecords(data, cmp)
  }

  /** `sortFn` as the program runs it: `data.sort(...)` reorders the array in place. */
  method SortFnInPlace(t: ReportType, a: array<Value>, opts: SortOptions) returns (threw: bool)
    modifies a
    ensures threw <==> SortFn(t, old(a[..]), opts).Thrown?
    ensures threw ==> a[..] == old(a[..])
    ensures !threw ==> a[..] == SortFn(t, old(a[..]), opts).value
  {
    var cmp := Comparator(t, opts);
    if cmp.None? {
      return false;
    }
    threw := JsArray.SortRecordsInPlace(a, cmp.value);
  }

  // ---------------------------------------------------------------------
  // Mapping to the common finding header

  /** `${a}-${b}`. */
  function Hyphenated(a: Value, b: Value): Value {
    Str(ToStr(a) + "-" + ToStr(b))
  }

  /** The header fields each family's `mapToBaseFinding` writes over a record. */
  function FindingHeader(t: ReportType, x: Value): Record {
    match t
    case TrivyVulnerability =>
      map["id" := Prop(x, "VulnerabilityID"),
          "title" := Or(Prop(x, "Title"), Prop(x, "VulnerabilityID")),
          "description" := Prop(x, "Description"),
          "severity" := Prop(x, "Severity"),
          "type" := Str("vulnerability")]
    case EksCis =>
      map["id" := Prop(x, "ID"), "title" := Prop(x, "Name"), "severity" := Prop(x, "Severity"), "type" := Str("eks-control")]
    case TrivyMisconfig =>
      map["id" := Prop(x, "ID"),
          "title" := Prop(x, "Title"),
          "description" := Prop(x, "Description"),
          "severity" := Prop(x, "Severity"),
          "type" := Str("misconfiguration")]
    case TrivyLicense =>
      map["id" := Hyphenated(Prop(x, "PkgName"), Prop(x, "Name")),
          "title" := Prop(x, "Name"),
          "severity" := Str("UNKNOWN"),
          "type" := Str("license")]
    case TrivySecret =>
      map["id" := Hyphenated(Prop(x, "RuleID"), Prop(x, "StartLine")),
          "title" := Prop(x, "Title"),
          "severity" := Str("HIGH"),
          "type" := Str("secret")]
    case Unknown => map[]
  }

  /** `{...x, ...header}`: the header wins on a key clash; the generic mapping is the identity. */
  function ToFinding(t: ReportType, x: Value): Value {
    if t == Unknown then x else Obj(Spread(x) + FindingHeader(t, x))
  }

  function Finding(t: ReportType): Value -> Value {
    x => ToFinding(t, x)
  }

  /** Each family's `mapToBaseFinding`: one finding per record, in order. */
  function MapToBaseFinding(t: ReportType, data: seq<Value>): (r: Result<seq<Value>>)
    ensures t == Unknown ==> r == Ok(data)
    ensures r.Thrown? <==> t != Unknown && JsArray.HasNullish(data)
    ensures r.Ok? ==> |r.value| == |data| && forall i :: 0 <= i < |data| ==> r.value[i] == ToFinding(t, data[i])
  {
    if t == Unknown then Ok(data) else JsArray.MapRecords(data, Finding(t))
  }

  // ---------------------------------------------------------------------
  // Properties of the filters

  /** With every filter field empty, each family's filter keeps all records (the vulnerability one still maps them). */
  lemma FilterFnEmpty(t: ReportType, data: seq<Value>)
    ensures t != TrivyVulnerability ==> FilterFn(t, data, EmptyFilters) == Ok(data)
    ensures t == TrivyVulnerability ==> FilterFn(t, data, EmptyFilters) == MapToBaseFinding(t, data)
  {
  }

  /** An active severity filter keeps exactly the records whose `Severity || severity` is listed. */
  lemma SeverityFilterKeeps(data: seq<Value>, f: FilterOptions, x: Value)
    requires |f.severity| > 0 && ApplySeverityFilter(data, f).Ok?
    ensures x in ApplySeverityFilter(data, f).value <==>
      x in data && StringListIncludes(f.severity, Or(Prop(x, "Severity"), Prop(x, "severity")))
  {
    JsArray.FilterByMembers(data, SeverityTest(f.severity), x);
  }

  /** Active status and resource-type filters keep exactly the records whose field is truthy and listed. */
  lemma ListedFiltersKeep(data: seq<Value>, f: FilterOptions, x: Value)
    ensures |f.status| > 0 && ApplyStatusFilter(data, f).Ok? ==>
      (x in ApplyStatusFilter(data, f).value <==> x in data && Truthy(Prop(x, "Status")) && StringListIncludes(f.status, Prop(x, "Status")))
    ensures |f.resourceType| > 0 && ApplyResourceTypeFilter(data, f).Ok? ==>
      (x in ApplyResourceTypeFilter(data, f).value <==> x in data && Truthy(Prop(x, "Type")) && StringListIncludes(f.resourceType, Prop(x, "Type")))
  {
    if |f.status| > 0 && ApplyStatusFilter(data, f).Ok? {
      JsArray.FilterByMembers(data, StatusTest(f.status), x);
    }
    if |f.resourceType| > 0 && ApplyResourceTypeFilter(data, f).Ok? {
      JsArray.FilterByMembers(data, ResourceTypeTest(f.resourceType), x);
    }
  }

  lemma {:induction false} LowerCharIdempotent(c: char)
    ensures LowerChar(LowerChar(c)) == LowerChar(c)
  {
  }

  lemma ToLowerIdempotent(s: string)
    ensures ToLower(ToLower(s)) == ToLower(s)
  {
    forall i | 0 <= i < |s| ensures ToLower(ToLower(s))[i] == ToLower(s)[i] {
      LowerCharIdempotent(s[i]);
    }
  }

  /**
   * The package test is a case-insensitive substring test on `PkgName`: the
   * name matches when its lower-case form occurs in the package's; a record
   * without `PkgName` never matches, and one whose `PkgName` is not a string throws.
   */
  lemma PackageMatchIff(name: string, x: Value)
    requires !IsNullish(x)
    ensures PackageMatch(name, x) == Ok(true) <==>
      Prop(x, "PkgName").Str? && exists i: nat :: OccursAt(ToLower(Prop(x, "PkgName").s), ToLower(name), i)
    ensures IsNullish(Prop(x, "PkgName")) ==> PackageMatch(name, x) == Ok(false)
    ensures PackageMatch(name, x).Thrown? <==> !IsNullish(Prop(x, "PkgName")) && !Prop(x, "PkgName").Str?
    ensures PackageMatch(ToLower(name), x) == PackageMatch(name, x)
  {
    ToLowerIdempotent(name);
    if Prop(x, "PkgName").Str? {
      ContainsIff(ToLower(Prop(x, "PkgName").s), ToLower(name));
    }
  }

  /** The EKS zero-failure filter keeps exactly the controls whose `TotalFail || 0` is positive. */
  lemma FailedTestsFilterKeeps(data: seq<Value>, x: Value)
    requires JsArray.FilterBy(data, FailedTestsTest()).Ok?
    ensures x in JsArray.FilterBy(data, FailedTestsTest()).value <==> x in data && Positive(Or(Prop(x, "TotalFail"), Num(0)))
    ensures Prop(x, "TotalFail") == Num(0) || IsNullish(Prop(x, "TotalFail")) ==>
      x !in JsArray.FilterBy(data, FailedTestsTest()).value
  {
    JsArray.FilterByMembers(data, FailedTestsTest(), x);
  }

  // ---------------------------------------------------------------------
  // Properties of the sorts

  /** The severity comparator is a consistent comparator in either direction. */
  lemma SeverityComparatorConsistent(key: string, dir: int)
    requires dir == 1 || dir == -1
    ensures StableSort.Consistent(SeverityComparator(key, dir))
  {
    var cmp := SeverityComparator(key, dir);
    forall x, y ensures cmp(x, y) < 0 <==> cmp(y, x) > 0 {
      if dir == 1 {
        assert cmp(x, y) == RankOf(key, y) - RankOf(key, x);
      } else {
        assert cmp(x, y) == RankOf(key, x) - RankOf(key, y);
      }
    }
    forall x, y, z | cmp(x, y) <= 0 && cmp(y, z) <= 0 ensures cmp(x, z) <= 0 {
      if dir == 1 {
        assert cmp(x, z) == RankOf(key, z) - RankOf(key, x);
      } else {
        assert cmp(x, z) == RankOf(key, x) - RankOf(key, z);
      }
    }
  }

  /** A `localeCompare` comparator on any string key is consistent in either direction. */
  lemma LocaleComparatorConsistent(k: Value -> string, dir: int)
    requires dir == 1 || dir == -1
    ensures StableSort.Consistent(LocaleComparator(k, dir))
  {
    var cmp := LocaleComparator(k, dir);
    forall x, y ensures cmp(x, y) < 0 <==> cmp(y, x) > 0 {
      LocaleCompareOrder(k(x), k(y), k(y));
    }
    forall x, y, z | cmp(x, y) <= 0 && cmp(y, z) <= 0 ensures cmp(x, z) <= 0 {
      if dir == 1 {
        LocaleCompareOrder(k(x), k(y), k(z));
      } else {
        LocaleCompareOrder(k(z), k(y), k(x));
        LocaleCompareOrder(k(x), k(z), k(z));
        LocaleCompareOrder(k(y), k(x), k(x));
        LocaleCompareOrder(k(z), k(y), k(y));
      }
    }
  }

  /** Every comparator a `sortFn` uses is consistent. */
  lemma ComparatorConsistent(t: ReportType, opts: SortOptions)
    requires Comparator(t, opts).Some?
    ensures StableSort.Consistent(Comparator(t, opts).value)
  {
    var dir := Direction(opts);
    var cmp := Comparator(t, opts).value;
    if cmp == SeverityComparator("severity", dir) {
      SeverityComparatorConsistent("severity", dir);
    } else {
      var key := if t == TrivyVulnerability then OrEmptyKey("Target")
        else if t == EksCis then StringKey("ID")
        else if t == TrivyLicense && opts.field == "package" then OrEmptyKey("PkgName")
        else OrEmptyKey("type");
      assert cmp == LocaleComparator(key, dir);
      LocaleComparatorConsistent(key, dir);
    }
  }

  /**
   * A sort that succeeds returns a permutation of its input, ordered by its
   * comparator, in which records the comparator ranks equal keep their
   * input order.
   */
  lemma SortFnStablePermutation(t: ReportType, data: seq<Value>, opts: SortOptions, x: Value)
    requires SortFn(t, data, opts).Ok? && Comparator(t, opts).Some?
    ensures multiset(SortFn(t, data, opts).value) == multiset(data)
    ensures StableSort.Sorted(SortFn(t, data, opts).value, Comparator(t, opts).value)
    ensures StableSort.EqualRun(SortFn(t, data, opts).value, x, Comparator(t, opts).value)
         == StableSort.EqualRun(data, x, Comparator(t, opts).value)
  {
    var cmp := Comparator(t, opts).value;
    ComparatorConsistent(t, opts);
    StableSort.SortSorted(data, cmp);
    StableSort.SortStable(data, x, cmp);
  }

  /**
   * The severity sort under direction 'asc' yields non-increasing rank
   * (CRITICAL first) and under any other direction non-decreasing rank:
   * the reverse of what the sort options' labels promise.
   */
  lemma SeveritySortOrder(key: string, data: seq<Value>, opts: SortOptions)
    requires JsArray.SortRecords(data, SeverityComparator(key, Direction(opts))).Ok?
    ensures var r := JsArray.SortRecords(data, SeverityComparator(key, Direction(opts))).value;
      forall i, j :: 0 <= i < j < |r| ==>
        if opts.direction == Some("asc") then RankOf(key, r[i]) >= RankOf(key, r[j]) else RankOf(key, r[i]) <= RankOf(key, r[j])
  {
    var cmp := SeverityComparator(key, Direction(opts));
    SeverityComparatorConsistent(key, Direction(opts));
    StableSort.SortSorted(data, cmp);
    var r := StableSort.Sort(data, cmp);
    forall i, j | 0 <= i < j < |r|
      ensures if opts.direction == Some("asc") then RankOf(key, r[i]) >= RankOf(key, r[j]) else RankOf(key, r[i]) <= RankOf(key, r[j])
    {
      assert cmp(r[i], r[j]) <= 0;
    }
  }

  /** Records that all rank 0 (for instance because none carries a lowercase `severity`) are left in their order. */
  lemma SeveritySortUnranked(key: string, data: seq<Value>, dir: int)
    requires forall i :: 0 <= i < |data| ==> RankOf(key, data[i]) == 0
    ensures StableSort.Sort(data, SeverityComparator(key, dir)) == data
  {
    var cmp := SeverityComparator(key, dir);
    forall i, j | 0 <= i < j < |data| ensures cmp(data[j], data[i]) >= 0 {
      assert RankOf(key, data[i]) == 0 && RankOf(key, data[j]) == 0;
      assert cmp(data[j], data[i]) == 0 * dir;
    }
    StableSort.SortOrderedIsIdentity(data, cmp);
  }

  /** Records with no truthy lowercase `type` all compare `''` with `''`, so the resource sort leaves them in order. */
  lemma ResourceSortUntyped(data: seq<Value>, dir: int)
    requires forall i :: 0 <= i < |data| ==> !Truthy(Prop(data[i], "type"))
    ensures StableSort.Sort(data, LocaleComparator(OrEmptyKey("type"), dir)) == data
  {
    var cmp := LocaleComparator(OrEmptyKey("type"), dir);
    forall i, j | 0 <= i < j < |data| ensures cmp(data[j], data[i]) >= 0 {
      assert OrEmptyKey("type")(data[i]) == "" && OrEmptyKey("type")(data[j]) == "";
    }
    StableSort.SortOrderedIsIdentity(data, cmp);
  }

  /** A sort field a family does not support returns the data unchanged. */
  lemma SortFnUnsupportedField(t: ReportType, data: seq<Value>, opts: SortOptions)
    requires t != Unknown && opts.field !in {"severity", "resource", "package"}
    ensures SortFn(t, data, opts) == Ok(data)
  {
  }

  // ---------------------------------------------------------------------
  // Properties of the mappings

  /** The header keys written by a mapping. */
  const HeaderKeys: set<string> := {"id", "title", "description", "severity", "type"}

  /** A mapped record keeps every field of the record that the header does not overwrite. */
  lemma ToFindingKeepsRecord(t: ReportType, x: Value, k: string)
    requires t != Unknown && k in Spread(x) && k !in HeaderKeys
    ensures ToFinding(t, x).Obj? && k in ToFinding(t, x).props && ToFinding(t, x).props[k] == Spread(x)[k]
  {
  }

  /** License findings: `id` is `PkgName-Name`, severity UNKNOWN, type "license". */
  lemma LicenseFinding(x: Value)
    ensures var h := ToFinding(TrivyLicense, x).props;
      && h["id"] == Str(ToStr(Prop(x, "PkgName")) + "-" + ToStr(Prop(x, "Name")))
      && h["title"] == Prop(x, "Name")
      && h["severity"] == Str("UNKNOWN")
      && h["type"] == Str("license")
  {
  }

  /** Secret findings: `id` is `RuleID-StartLine`, severity HIGH, type "secret". */
  lemma SecretFinding(x: Value)
    ensures var h := ToFinding(TrivySecret, x).props;
      && h["id"] == Str(ToStr(Prop(x, "RuleID")) + "-" + ToStr(Prop(x, "StartLine")))
      && h["title"] == Prop(x, "Title")
      && h["severity"] == Str("HIGH")
      && h["type"] == Str("secret")
  {
  }

  /** Vulnerability findings: the title falls back to the vulnerability id when the record has no truthy `Title`. */
  lemma VulnerabilityFindingTitle(x: Value)
    ensures var h := ToFinding(TrivyVulnerability, x).props;
      && h["id"] == Prop(x, "VulnerabilityID")
      && h["title"] == (if Truthy(Prop(x, "Title")) then Prop(x, "Title") else Prop(x, "VulnerabilityID"))
      && h["severity"] == Prop(x, "Severity")
  {
  }

  /** Mapping a vulnerability record twice gives the same finding as mapping it once. */
  lemma VulnerabilityFindingIdempotent(x: Value)
    requires x.Obj?
    ensures ToFinding(TrivyVulnerability, ToFinding(TrivyVulnerability, x)) == ToFinding(TrivyVulnerability, x)
  {
    var h := FindingHeader(TrivyVulnerability, x);
    assert h.Keys == {"id", "title", "description", "severity", "type"};
    PropPastHeader(x.props, h, "VulnerabilityID");
    PropPastHeader(x.props, h, "Title");
    PropPastHeader(x.props, h, "Description");
    PropPastHeader(x.props, h, "Severity");
    var once := ToFinding(TrivyVulnerability, x);
    assert FindingHeader(TrivyVulnerability, once) == h;
    assert Spread(once) + h == Spread(once);
  }

  /** A key the header does not set reads the same on the finding as on the record. */
  lemma PropPastHeader(props: Record, h: Record, k: string)
    requires k !in h
    ensures Prop(Obj(props + h), k) == Prop(Obj(props), k)
  {
  }

  predicate AllObj(data: seq<Value>) {
    forall i :: 0 <= i < |data| ==> data[i].Obj?
  }

  lemma FilterByAllObj(data: seq<Value>, test: Value -> Result<bool>)
    requires AllObj(data) && JsArray.FilterBy(data, test).Ok?
    ensures AllObj(JsArray.FilterBy(data, test).value)
  {
    var r := JsArray.FilterBy(data, test).value;
    forall i | 0 <= i < |r| ensures r[i].Obj? {
      JsArray.FilterByMembers(data, test, r[i]);
    }
  }

  /** Mapping an array of vulnerability records twice gives the same findings as mapping it once. */
  lemma VulnerabilityMapIdempotent(p: seq<Value>)
    requires AllObj(p)
    ensures MapToBaseFinding(TrivyVulnerability, p).Ok?
    ensures MapToBaseFinding(TrivyVulnerability, MapToBaseFinding(TrivyVulnerability, p).value) == MapToBaseFinding(TrivyVulnerability, p)
  {
    assert !JsArray.HasNullish(p) by {
      forall i | 0 <= i < |p| ensures !IsNullish(p[i]) { }
    }
    var once := MapToBaseFinding(TrivyVulnerability, p).value;
    forall i | 0 <= i < |once| ensures ToFinding(TrivyVulnerability, once[i]) == once[i] && !IsNullish(once[i]) {
      VulnerabilityFindingIdempotent(p[i]);
    }
    var twice := MapToBaseFinding(TrivyVulnerability, once);
    assert twice.Ok?;
    assert twice.value == once;
  }

  /** The vulnerability `mapToBaseFinding` applied to what its `filterFn` returned changes nothing. */
  lemma VulnerabilityMapAfterFilter(data: seq<Value>, f: FilterOptions)
    requires FilterFn(TrivyVulnerability, data, f).Ok?
    requires AllObj(data)
    ensures MapToBaseFinding(TrivyVulnerability, FilterFn(TrivyVulnerability, data, f).value) == FilterFn(TrivyVulnerability, data, f)
  {
    var s := ApplySeverityFilter(data, f).value;
    if |f.severity| > 0 { FilterByAllObj(data, SeverityTest(f.severity)); }
    var st := ApplyStatusFilter(s, f).value;
    if |f.status| > 0 { FilterByAllObj(s, StatusTest(f.status)); }
    var rt := ApplyResourceTypeFilter(st, f).value;
    if |f.resourceType| > 0 { FilterByAllObj(st, ResourceTypeTest(f.resourceType)); }
    var p := ApplyPackageNameFilter(rt, f).value;
    if f.packageName != "" { FilterByAllObj(rt, PackageTest(f.packageName)); }
    assert FilterFn(TrivyVulnerability, data, f) == MapToBaseFinding(TrivyVulnerability, p);
    VulnerabilityMapIdempotent(p);
  }
}
