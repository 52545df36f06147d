/**
 * The report-configuration registry: one configuration per report family,
 * each with a structural detector over the parsed JSON and a transform that
 * stamps the document with its type, display name and description, and the
 * first-match classifier over them. Detectors here run unguarded, so a
 * detector that throws (for instance on a `null` document) makes the whole
 * classification throw.
 */
module ConfigRegistry {
  import opened Js
  import opened ReportTypes
  import Seqs

  // ---------------------------------------------------------------------
  // Shared filter and sort configurations

  const SeverityFilter := FilterConfig("severity", "Severity", SeverityKind, Some([
    FilterOptionItem("CRITICAL", "Critical", Some("bg-github-red"), Some("text-white")),
    FilterOptionItem("HIGH", "High", Some("bg-github-orange"), Some("text-white")),
    FilterOptionItem("MEDIUM", "Medium", Some("bg-github-yellow"), Some("text-gray-900")),
    FilterOptionItem("LOW", "Low", Some("bg-github-green"), Some("text-white")),
    FilterOptionItem("UNKNOWN", "Unknown", Some("bg-github-gray"), Some("text-white"))
  ]), None, None, false)

  const StatusFilter := FilterConfig("status", "Status", StatusKind, Some([
    FilterOptionItem("fixed", "Fixed", Some("bg-green-100"), Some("text-green-800")),
    FilterOptionItem("affected", "Affected", Some("bg-red-100"), Some("text-red-800")),
    FilterOptionItem("unknown", "Unknown", Some("bg-gray-100"), Some("text-gray-800"))
  ]), None, None, false)

  const ResourceTypeFilter := FilterConfig("resourceType", "Resource Type", ResourceTypeKind, None, None, None, false)

  const PackageNameFilter := FilterConfig("packageName", "Package Name", TextKind, None, Some("Filter by package name"), None, false)

  const HideZeroFailedTestsFilter :=
    FilterConfig("hideZeroFailedTests", "Hide controls with zero failed tests", CheckboxKind, None, None, Some(FlagDefault(false)), true)

  const SeveritySorts := [
    SortConfig("severity", "Severity (High to Low)", "desc"),
    SortConfig("severity", "Severity (Low to High)", "asc")
  ]

  const ResourceSorts := [
    SortConfig("resource", "Resource (A-Z)", "asc"),
    SortConfig("resource", "Resource (Z-A)", "desc")
  ]

  // ---------------------------------------------------------------------
  // The configurations and the registry

  /** The configuration registered for each family. */
  function Config(t: ReportType): ReportConfig {
    ReportConfig(t, ConfigName(t), AvailableFilters(t), AvailableSorts(t))
  }

  function ConfigName(t: ReportType): string {
    match t
    case TrivyVulnerability => "Vulnerability Report"
    case EksCis => "EKS CIS Benchmark"
    case TrivyMisconfig => "Misconfiguration Report"
    case TrivyLicense => "License Scanning Report"
    case TrivySecret => "Secret Scanning Report"
    case Unknown => "Generic Report"
  }

  /** The `description` of each configuration, shown on the upload page. */
  function ConfigDescription(t: ReportType): string {
    match t
    case TrivyVulnerability => "Trivy vulnerability scan results for container images, filesystems, or repositories"
    case EksCis => "Center for Internet Security (CIS) benchmark for Amazon EKS"
    case TrivyMisconfig => "Trivy infrastructure as code (IaC) and configuration scanning"
    case TrivyLicense => "Trivy software license scanning results"
    case TrivySecret => "Trivy secret scanning results"
    case Unknown => "Fallback for unknown report types"
  }

  /** The `exampleCommand` of each configuration, shown on the upload page. */
  function ExampleCommand(t: ReportType): string {
    match t
    case TrivyVulnerability => "trivy image --format json -o report.json [image-name]"
    case EksCis => "trivy k8s --format json -o eks-cis-report.json cluster --compliance=eks-cis"
    case TrivyMisconfig => "trivy config --format json -o misconfig-report.json [directory]"
    case TrivyLicense => "trivy fs --format json --security-checks license -o license-report.json [directory]"
    case TrivySecret => "trivy fs --format json --security-checks secret -o secret-report.json [directory]"
    case Unknown => ""
  }

  /** Each family's `availableFilters`, in the order the panels show them. */
  function AvailableFilters(t: ReportType): seq<FilterConfig> {
    match t
    case TrivyVulnerability => [SeverityFilter, StatusFilter, ResourceTypeFilter, PackageNameFilter]
    case EksCis => [SeverityFilter, HideZeroFailedTestsFilter]
    case TrivyMisconfig => [SeverityFilter, StatusFilter, ResourceTypeFilter]
    case TrivyLicense => [ResourceTypeFilter, PackageNameFilter]
    case TrivySecret => [SeverityFilter, ResourceTypeFilter]
    case Unknown => [SeverityFilter]
  }

  function AvailableSorts(t: ReportType): seq<SortConfig> {
    match t
    case TrivyVulnerability => SeveritySorts + ResourceSorts
    case EksCis => SeveritySorts + [SortConfig("resource", "Control ID (A-Z)", "asc"), SortConfig("resource", "Control ID (Z-A)", "desc")]
    case TrivyMisconfig => SeveritySorts + ResourceSorts
    case TrivyLicense => ResourceSorts + [SortConfig("package", "Package (A-Z)", "asc"), SortConfig("package", "Package (Z-A)", "desc")]
    case TrivySecret => SeveritySorts + ResourceSorts
    case Unknown => SeveritySorts
  }

  const GenericConfig := Config(Unknown)

  /** The registry's declaration order, which is the order classification tries the families in. */
  const RegistryOrder := [TrivyVulnerability, EksCis, TrivyMisconfig, TrivyLicense, TrivySecret, Unknown]

  /** `reportConfigRegistry`, in declaration order. */
  const Registry := [Config(TrivyVulnerability), Config(EksCis), Config(TrivyMisconfig), Config(TrivyLicense), Config(TrivySecret), Config(Unknown)]

  /** The type ids are pairwise distinct, so the registry is keyed unambiguously. */
  lemma IdInjective(a: ReportType, b: ReportType)
    ensures a.Id() == b.Id() ==> a == b
  {
    if a != b {
      assert |a.Id()| != |b.Id()| || a.Id()[0] != b.Id()[0];
    }
  }

  /** `reportConfigRegistry[key]` over the families of `order`. */
  function Lookup(order: seq<ReportType>, key: string): Option<ReportConfig> {
    if order == [] then None
    else if order[0].Id() == key then Some(Config(order[0]))
    else Lookup(order[1..], key)
  }

  lemma {:induction false} LookupFinds(order: seq<ReportType>, key: string)
    ensures forall t: ReportType :: t in order && key == t.Id() ==> Lookup(order, key) == Some(Config(t))
    ensures (forall t: ReportType :: t in order ==> key != t.Id()) ==> Lookup(order, key) == None
    decreases |order|
  {
    if order != [] {
      LookupFinds(order[1..], key);
      forall t: ReportType | t in order && key == t.Id() ensures Lookup(order, key) == Some(Config(t)) {
        IdInjective(t, order[0]);
      }
    }
  }

  lemma LookupRegistry(key: string)
    ensures forall t: ReportType :: key == t.Id() ==> Lookup(RegistryOrder, key) == Some(Config(t))
    ensures (forall t: ReportType :: key != t.Id()) ==> Lookup(RegistryOrder, key) == None
  {
    LookupFinds(RegistryOrder, key);
    forall t: ReportType ensures t in RegistryOrder {
      match t
      case TrivyVulnerability => assert RegistryOrder[0] == t;
      case EksCis => assert RegistryOrder[1] == t;
      case TrivyMisconfig => assert RegistryOrder[2] == t;
      case TrivyLicense => assert RegistryOrder[3] == t;
      case TrivySecret => assert RegistryOrder[4] == t;
      case Unknown => assert RegistryOrder[5] == t;
    }
  }

  /** `getReportConfig`: the configuration registered under a type id, or the generic one. */
  function GetReportConfig(key: string): (c: ReportConfig)
    ensures forall t: ReportType :: key == t.Id() ==> c == Config(t)
    ensures (forall t: ReportType :: key != t.Id()) ==> c == GenericConfig
  {
    LookupRegistry(key);
    var found := Lookup(RegistryOrder, key);
    if found.Some? then found.value else GenericConfig
  }

  predicate IsListed(c: ReportConfig) {
    c.id != Unknown
  }

  /** `getAllReportConfigs`: the registry without the generic fallback. */
  function AllReportConfigs(): (r: seq<ReportConfig>)
    ensures r == Registry[..5]
    ensures forall i :: 0 <= i < |r| ==> r[i].id != Unknown
  {
    AllReportConfigsListed();
    Seqs.Filter(Registry, IsListed)
  }

  lemma AllReportConfigsListed()
    ensures Seqs.Filter(Registry, IsListed) == Registry[..5]
  {
    FirstFiveListed();
    assert !IsListed(Registry[5]);
    Seqs.FilterDropsLast(Registry, IsListed);
  }

  lemma FirstFiveListed()
    ensures forall i :: 0 <= i < 5 ==> IsListed(Registry[i])
  {
    forall i | 0 <= i < 5 ensures IsListed(Registry[i]) {
      assert i == 0 || i == 1 || i == 2 || i == 3 || i == 4;
    }
  }

  // ---------------------------------------------------------------------
  // Detectors

  /** `items.some(r => r[key])`, evaluated left to right: a `null` element reached before a match throws. */
  function SomeTruthyProp(items: seq<Value>, key: string): (r: Result<bool>)
    ensures r == Ok(true) <==> exists i :: 0 <= i < |items| && Truthy(Prop(items[i], key)) && NoneBefore(items, key, i)
    ensures r.Thrown? <==> exists i :: 0 <= i < |items| && IsNullish(items[i]) && NoneBefore(items, key, i)
  {
    if items == [] then Ok(false)
    else
      var first :- Get(items[0], key);
      if Truthy(first) then
        assert NoneBefore(items, key, 0);
        Ok(true)
      else
        var rest := SomeTruthyProp(items[1..], key);
        ShiftNoneBefore(items, key);
        rest
  }

  /** No element before position `i` is `null`, `undefined` or carries a truthy `key`. */
  predicate NoneBefore(items: seq<Value>, key: string, i: int)
    requires 0 <= i <= |items|
  {
    forall j :: 0 <= j < i ==> !IsNullish(items[j]) && !Truthy(Prop(items[j], key))
  }

  lemma ShiftNoneBefore(items: seq<Value>, key: string)
    requires items != [] && !IsNullish(items[0]) && !Truthy(Prop(items[0], key))
    ensures forall i :: 1 <= i <= |items| ==> (NoneBefore(items, key, i) <==> NoneBefore(items[1..], key, i - 1))
  {
    forall i | 1 <= i <= |items|
      ensures NoneBefore(items, key, i) <==> NoneBefore(items[1..], key, i - 1)
    {
      if NoneBefore(items[1..], key, i - 1) {
        forall j | 0 <= j < i ensures !IsNullish(items[j]) && !Truthy(Prop(items[j], key)) {
          if j > 0 {
            assert items[j] == items[1..][j - 1];
          }
        }
      }
    }
  }

  function DetectVulnerability(json: Value): Result<bool> {
    var schema :- Get(json, "SchemaVersion");
    if !Truthy(schema) || !Truthy(Prop(json, "ArtifactName")) || !Prop(json, "Results").Arr? then Ok(false)
    else SomeTruthyProp(Prop(json, "Results").items, "Vulnerabilities")
  }

  /** `title.includes(needle)`: substring search on a string, element search on an array; any other value has no `includes` method. */
  function Includes(title: Value, needle: string): Result<bool> {
    match title
    case Str(s) => Ok(Contains(s, needle))
    case Arr(items) => Ok(Str(needle) in items)
    case _ => Thrown
  }

  function DetectEks(json: Value): Result<bool> {
    var id :- Get(json, "ID");
    if !Truthy(id) || !Truthy(Prop(json, "Title")) then Ok(false)
    else
      var named :- Includes(Prop(json, "Title"), "EKS CIS");
      Ok(named && Prop(json, "SummaryControls").Arr?)
  }

  /** The misconfiguration, license and secret detectors: `Results` is an array with an element carrying a truthy `key`. */
  function DetectResultsWith(json: Value, key: string): Result<bool> {
    var results :- Get(json, "Results");
    if !results.Arr? then Ok(false) else SomeTruthyProp(results.items, key)
  }

  /** The detector of each configuration; the generic one never matches. */
  function Detect(t: ReportType, json: Value): (r: Result<bool>)
    ensures t == Unknown ==> r == Ok(false)
    ensures t != Unknown ==> (r.Thrown? <== IsNullish(json))
    ensures r == Ok(true) ==> t != Unknown && !IsNullish(json)
  {
    match t
    case TrivyVulnerability => DetectVulnerability(json)
    case EksCis => DetectEks(json)
    case TrivyMisconfig => DetectResultsWith(json, "Misconfigurations")
    case TrivyLicense => DetectResultsWith(json, "Licenses")
    case TrivySecret => DetectResultsWith(json, "Secrets")
    case Unknown => Ok(false)
  }

  // ---------------------------------------------------------------------
  // Transforms

  /** `{...json, reportType, displayName, description}`. */
  function Stamp(json: Value, t: ReportType, displayName: Value, description: Value): Value {
    Obj(Spread(json)["reportType" := Str(t.Id())]["displayName" := displayName]["description" := description])
  }

  /** The stamped-on header keys. */
  const StampKeys: set<string> := {"reportType", "displayName", "description"}

  /** Whether every value a family's transform substitutes into its template literals converts to a string. */
  predicate TemplatesConvert(t: ReportType, json: Value) {
    var name := Prop(json, "ArtifactName");
    var kind := Prop(json, "ArtifactType");
    match t
    case TrivyVulnerability => Converts(name) && Converts(kind)
    case EksCis => Converts(Prop(json, "ID"))
    case Unknown => true
    case _ => Converts(Or(name, Str("Unknown"))) && Converts(Or(kind, Str("file system")))
  }

  /**
   * The transform of each configuration; the generic configuration has none,
   * so the document is copied with its type set. A template literal throws
   * on a substituted value that cannot be converted.
   */
  function Transform(t: ReportType, json: Value): (r: Result<Value>)
    ensures r.Thrown? <==> t != Unknown && (IsNullish(json) || !TemplatesConvert(t, json))
    ensures r.Ok? ==> r.value.Obj? && Prop(r.value, "reportType") == Str(t.Id())
    ensures r.Ok? ==> forall k :: k in Spread(json) && k !in StampKeys ==> k in r.value.props && r.value.props[k] == Spread(json)[k]
    ensures r.Ok? && t != Unknown ==> r.value.props.Keys == Spread(json).Keys + StampKeys
  {
    if t == Unknown then Ok(Obj(Spread(json)["reportType" := Str(t.Id())]))
    else if IsNullish(json) then Thrown
    else
      var name := Prop(json, "ArtifactName");
      var kind := Prop(json, "ArtifactType");
      match t
      case TrivyVulnerability =>
        var n :- Convert(name);
        var k :- Convert(kind);
        Ok(Stamp(json, t, Str("Vulnerability Scan: " + n), Str("Scan type: " + k)))
      case EksCis =>
        var id :- Convert(Prop(json, "ID"));
        Ok(Stamp(json, t, Prop(json, "Title"), Str("EKS CIS Benchmark: " + id)))
      case TrivyMisconfig =>
        var n :- Convert(Or(name, Str("Unknown")));
        var k :- Convert(Or(kind, Str("file system")));
        Ok(Stamp(json, t, Str("Misconfiguration Scan: " + n), Str("Configuration scan for " + k)))
      case TrivyLicense =>
        var n :- Convert(Or(name, Str("Unknown")));
        var k :- Convert(Or(kind, Str("file system")));
        Ok(Stamp(json, t, Str("License Scan: " + n), Str("License scan for " + k)))
      case TrivySecret =>
        var n :- Convert(Or(name, Str("Unknown")));
        var k :- Convert(Or(kind, Str("file system")));
        Ok(Stamp(json, t, Str("Secret Scan: " + n), Str("Secret scan for " + k)))
  }

  // ---------------------------------------------------------------------
  // Classification

  datatype Classification = Classification(reportType: ReportType, config: ReportConfig, transformed: Option<Value>)

  /** The first family of `order` whose detector holds; a detector that throws ends the search with the throw. */
  function FirstMatch(order: seq<ReportType>, json: Value): Result<Option<ReportType>> {
    if order == [] then Ok(None)
    else
      var hit :- Detect(order[0], json);
      if hit then Ok(Some(order[0])) else FirstMatch(order[1..], json)
  }

  /** `detectReportTypeFromRegistry`. */
  function Classify(json: Value): Result<Classification> {
    var found :- FirstMatch(RegistryOrder, json);
    match found
    case None => Ok(Classification(Unknown, GenericConfig, None))
    case Some(t) =>
      var data :- Transform(t, json);
      Ok(Classification(t, Config(t), Some(data)))
  }

  /** The registry search as the program runs it: a loop over the configurations with an early return. */
  method DetectReportTypeFromRegistry(json: Value) returns (r: Result<Classification>)
    ensures r == Classify(json)
  {
    var i := 0;
    while i < |RegistryOrder|
      invariant 0 <= i <= |RegistryOrder|
      invariant FirstMatch(RegistryOrder, json) == FirstMatch(RegistryOrder[i..], json)
    {
      assert RegistryOrder[i..][1..] == RegistryOrder[i + 1..];
      var t := RegistryOrder[i];
      var hit := Detect(t, json);
      if hit.Thrown? {
        return Thrown;
      }
      if hit.value {
        var data := Transform(t, json);
        if data.Thrown? {
          return Thrown;
        }
        return Ok(Classification(t, Config(t), Some(data.value)));
      }
      i := i + 1;
    }
    return Ok(Classification(Unknown, GenericConfig, None));
  }

  // ---------------------------------------------------------------------
  // Properties of the detectors and of classification

  /** All families before position `k` of `order` answered "no match". */
  predicate NoMatchBefore(order: seq<ReportType>, json: Value, k: int)
    requires 0 <= k <= |order|
  {
    forall j :: 0 <= j < k ==> Detect(order[j], json) == Ok(false)
  }

  /** The search stops at the first family whose detector does not answer "no match". */
  lemma {:induction false} FirstMatchAt(order: seq<ReportType>, json: Value, k: nat)
    requires k < |order| && NoMatchBefore(order, json, k) && Detect(order[k], json) != Ok(false)
    ensures FirstMatch(order, json) == if Detect(order[k], json).Thrown? then Thrown else Ok(Some(order[k]))
    decreases k
  {
    if k > 0 {
      assert Detect(order[0], json) == Ok(false);
      FirstMatchAt(order[1..], json, k - 1);
    }
  }

  /** The search finds nothing exactly when every detector answers "no match". */
  lemma {:induction false} FirstMatchNone(order: seq<ReportType>, json: Value)
    ensures FirstMatch(order, json) == Ok(None) <==> NoMatchBefore(order, json, |order|)
    decreases |order|
  {
    if order != [] {
      FirstMatchNone(order[1..], json);
      if Detect(order[0], json) == Ok(false) {
        if NoMatchBefore(order[1..], json, |order| - 1) {
          forall j | 0 <= j < |order| ensures Detect(order[j], json) == Ok(false) {
            if j > 0 {
              assert order[j] == order[1..][j - 1];
            }
          }
        }
      }
    }
  }

  /**
   * First match: classification yields the first family, in registry order,
   * whose detector holds, with that family's configuration and transformed
   * document, provided no earlier detector threw.
   */
  lemma ClassifyFirstMatch(json: Value, k: nat)
    requires k < |RegistryOrder| && NoMatchBefore(RegistryOrder, json, k) && Detect(RegistryOrder[k], json) == Ok(true)
    ensures Transform(RegistryOrder[k], json).Thrown? ==> Classify(json) == Thrown
    ensures Transform(RegistryOrder[k], json).Ok? ==>
      Classify(json) == Ok(Classification(RegistryOrder[k], Config(RegistryOrder[k]), Some(Transform(RegistryOrder[k], json).value)))
  {
    FirstMatchAt(RegistryOrder, json, k);
  }

  /** With no detector holding, the result is UNKNOWN with the generic configuration and no document. */
  lemma ClassifyNoMatch(json: Value)
    ensures Classify(json) == Ok(Classification(Unknown, GenericConfig, None)) <==> NoMatchBefore(RegistryOrder, json, |RegistryOrder|)
  {
    FirstMatchNone(RegistryOrder, json);
    if !NoMatchBefore(RegistryOrder, json, |RegistryOrder|) {
      var k := FirstNonFalse(RegistryOrder, json);
      FirstMatchAt(RegistryOrder, json, k);
    }
  }

  /** The first position whose detector does not answer "no match", when there is one. */
  lemma FirstNonFalse(order: seq<ReportType>, json: Value) returns (k: nat)
    requires !NoMatchBefore(order, json, |order|)
    ensures k < |order| && NoMatchBefore(order, json, k) && Detect(order[k], json) != Ok(false)
  {
    k := 0;
    while Detect(order[k], json) == Ok(false)
      invariant k < |order| && NoMatchBefore(order, json, k)
      decreases |order| - k
    {
      k := k + 1;
    }
  }

  /** A detector that throws before any detector matched makes the classification throw. */
  lemma ClassifyThrows(json: Value, k: nat)
    requires k < |RegistryOrder| && NoMatchBefore(RegistryOrder, json, k) && Detect(RegistryOrder[k], json).Thrown?
    ensures Classify(json) == Thrown
  {
    FirstMatchAt(RegistryOrder, json, k);
  }

  /** A classified document is an object of a known family; no document means the unknown family. */
  lemma ClassifiedObject(json: Value)
    requires Classify(json).Ok?
    ensures Classify(json).value.transformed.Some? ==>
      Classify(json).value.reportType != Unknown && Classify(json).value.transformed.value.Obj?
    ensures Classify(json).value.transformed.None? ==> Classify(json).value.reportType == Unknown
  {
    ClassifyUnknownIffNoDocument(json);
  }

  /** A classified document is stored as its family's transform, an object, and that family's detector holds; no document means the unknown family. */
  lemma ClassifyTransformed(json: Value)
    requires Classify(json).Ok?
    ensures Classify(json).value.transformed.Some? ==>
      Classify(json).value.reportType != Unknown
      && Detect(Classify(json).value.reportType, json) == Ok(true)
      && Transform(Classify(json).value.reportType, json) == Ok(Classify(json).value.transformed.value)
      && Classify(json).value.transformed.value.Obj?
    ensures Classify(json).value.transformed.None? ==> Classify(json).value.reportType == Unknown
  {
    ClassifyUnknownIffNoDocument(json);
    FirstMatchFound(RegistryOrder, json);
  }

  /** The generic configuration never matches: UNKNOWN comes with no document, and every other family with one. */
  lemma ClassifyUnknownIffNoDocument(json: Value)
    ensures Classify(json).Ok? ==> (Classify(json).value.reportType == Unknown <==> Classify(json).value.transformed == None)
  {
    if Classify(json).Ok? && Classify(json).value.transformed == None {
      FirstMatchFound(RegistryOrder, json);
    }
    if Classify(json).Ok? && Classify(json).value.transformed.Some? {
      FirstMatchFound(RegistryOrder, json);
    }
  }

  /** A family the search returns is a known one whose detector holds. */
  lemma {:induction false} FirstMatchFound(order: seq<ReportType>, json: Value)
    ensures FirstMatch(order, json).Ok? && FirstMatch(order, json).value.Some? ==>
      FirstMatch(order, json).value.value != Unknown && Detect(FirstMatch(order, json).value.value, json) == Ok(true)
    decreases |order|
  {
    if order != [] {
      FirstMatchFound(order[1..], json);
    }
  }

  /** A `null` document throws in the first detector, so the unguarded classification throws. */
  lemma ClassifyNullThrows()
    ensures Classify(Null) == Thrown
  {
    ClassifyThrows(Null, 0);
  }

  /**
   * The vulnerability detector holds exactly when `SchemaVersion` and
   * `ArtifactName` are truthy, `Results` is an array and some element of it
   * has a truthy `Vulnerabilities`, with no `null` element before it.
   */
  lemma DetectVulnerabilityIff(json: Value)
    ensures DetectVulnerability(json) == Ok(true) <==>
      && !IsNullish(json)
      && Truthy(Prop(json, "SchemaVersion"))
      && Truthy(Prop(json, "ArtifactName"))
      && Prop(json, "Results").Arr?
      && exists i :: 0 <= i < |Prop(json, "Results").items|
           && Truthy(Prop(Prop(json, "Results").items[i], "Vulnerabilities"))
           && NoneBefore(Prop(json, "Results").items, "Vulnerabilities", i)
  {
  }

  /** The EKS detector holds only for a truthy `ID`, a `Title` that includes "EKS CIS" and an array of `SummaryControls`. */
  lemma DetectEksRequires(json: Value)
    requires DetectEks(json) == Ok(true)
    ensures Truthy(Prop(json, "ID"))
    ensures Prop(json, "Title").Str? ==> Contains(Prop(json, "Title").s, "EKS CIS")
    ensures Prop(json, "Title").Str? || (Prop(json, "Title").Arr? && Str("EKS CIS") in Prop(json, "Title").items)
    ensures Prop(json, "SummaryControls").Arr?
  {
  }

  /** A `Title` that is a number, a flag or an object has no `includes` method, so the EKS detector throws. */
  lemma DetectEksThrowsOnNonStringTitle(json: Value)
    requires json.Obj? && Truthy(Prop(json, "ID")) && Truthy(Prop(json, "Title"))
    requires !Prop(json, "Title").Str? && !Prop(json, "Title").Arr?
    ensures DetectEks(json) == Thrown
  {
  }

  /** The vulnerability transform names the scan after its artifact and describes it by the artifact's type. */
  lemma VulnerabilityDisplayName(json: Value)
    requires json.Obj?
    ensures Transform(TrivyVulnerability, json).Ok? <==>
      Converts(Prop(json, "ArtifactName")) && Converts(Prop(json, "ArtifactType"))
    ensures Transform(TrivyVulnerability, json).Ok? ==>
      && Prop(Transform(TrivyVulnerability, json).value, "displayName") == Str("Vulnerability Scan: " + ToStr(Prop(json, "ArtifactName")))
      && Prop(Transform(TrivyVulnerability, json).value, "description") == Str("Scan type: " + ToStr(Prop(json, "ArtifactType")))
  {
    var name := Str("Vulnerability Scan: " + ToStr(Prop(json, "ArtifactName")));
    var kind := Str("Scan type: " + ToStr(Prop(json, "ArtifactType")));
    StampHeader(json, TrivyVulnerability, name, kind);
  }

  /** The misconfiguration transform falls back to "Unknown" and "file system", which always convert. */
  lemma MisconfigDisplayName(json: Value)
    requires json.Obj?
    ensures !Truthy(Prop(json, "ArtifactName")) && !Truthy(Prop(json, "ArtifactType")) ==> Transform(TrivyMisconfig, json).Ok?
    ensures !Truthy(Prop(json, "ArtifactName")) && Transform(TrivyMisconfig, json).Ok? ==>
      Prop(Transform(TrivyMisconfig, json).value, "displayName") == Str("Misconfiguration Scan: " + "Unknown")
    ensures !Truthy(Prop(json, "ArtifactType")) && Transform(TrivyMisconfig, json).Ok? ==>
      Prop(Transform(TrivyMisconfig, json).value, "description") == Str("Configuration scan for " + "file system")
  {
    var name := Str("Misconfiguration Scan: " + ToStr(Or(Prop(json, "ArtifactName"), Str("Unknown"))));
    var kind := Str("Configuration scan for " + ToStr(Or(Prop(json, "ArtifactType"), Str("file system"))));
    if Transform(TrivyMisconfig, json).Ok? {
      assert Transform(TrivyMisconfig, json) == Ok(Stamp(json, TrivyMisconfig, name, kind));
      StampHeader(json, TrivyMisconfig, name, kind);
    }
  }

  /** The EKS transform shows the benchmark's `Title`, and throws only on an `ID` that cannot be converted. */
  lemma EksDisplayName(json: Value)
    requires json.Obj?
    ensures Transform(EksCis, json).Ok? <==> Converts(Prop(json, "ID"))
    ensures Transform(EksCis, json).Ok? ==> Prop(Transform(EksCis, json).value, "displayName") == Prop(json, "Title")
  {
    StampHeader(json, EksCis, Prop(json, "Title"), Str("EKS CIS Benchmark: " + ToStr(Prop(json, "ID"))));
  }

  /**
   * Every transform of a document its detector accepts stamps a truthy display
   * name and description: the texts start with a fixed prefix, and the EKS
   * display name is the `Title` the detector requires to be truthy.
   */
  lemma StampedHeaderTruthy(t: ReportType, json: Value)
    requires t != Unknown && Detect(t, json) == Ok(true) && Transform(t, json).Ok?
    ensures Truthy(Prop(Transform(t, json).value, "displayName"))
    ensures Truthy(Prop(Transform(t, json).value, "description"))
  {
    var name := Prop(json, "ArtifactName");
    var kind := Prop(json, "ArtifactType");
    var n := ToStr(Or(name, Str("Unknown")));
    var k := ToStr(Or(kind, Str("file system")));
    match t
    case TrivyVulnerability =>
      StampHeader(json, t, Str("Vulnerability Scan: " + ToStr(name)), Str("Scan type: " + ToStr(kind)));
    case EksCis =>
      StampHeader(json, t, Prop(json, "Title"), Str("EKS CIS Benchmark: " + ToStr(Prop(json, "ID"))));
    case TrivyMisconfig =>
      StampHeader(json, t, Str("Misconfiguration Scan: " + n), Str("Configuration scan for " + k));
    case TrivyLicense =>
      StampHeader(json, t, Str("License Scan: " + n), Str("License scan for " + k));
    case TrivySecret =>
      StampHeader(json, t, Str("Secret Scan: " + n), Str("Secret scan for " + k));
  }

  /** The stamped header is read back as written. */
  lemma StampHeader(json: Value, t: ReportType, displayName: Value, description: Value)
    ensures Prop(Stamp(json, t, displayName, description), "displayName") == displayName
    ensures Prop(Stamp(json, t, displayName, description), "description") == description
  {
  }
}
