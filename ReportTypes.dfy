/**
 * The data types the report explorer passes between its registry, its
 * session state and its filter panels: report families, filter and sort
 * state, and the per-family configuration records.
 */
module ReportTypes {
  import opened Js

  /** The report families, identified in the program by these string ids. */
  datatype ReportType = TrivyVulnerability | EksCis | TrivyMisconfig | TrivyLicense | TrivySecret | Unknown
  {
    function Id(): string {
      match this
      case TrivyVulnerability => "TRIVY_VULNERABILITY"
      case EksCis => "EKS_CIS"
      case TrivyMisconfig => "TRIVY_MISCONFIG"
      case TrivyLicense => "TRIVY_LICENSE"
      case TrivySecret => "TRIVY_SECRET"
      case Unknown => "UNKNOWN"
    }
  }

  /** The five-field filter state of the current session. */
  datatype FilterOptions = FilterOptions(
    severity: seq<string>,
    status: seq<string>,
    resourceType: seq<string>,
    packageName: string,
    hideZeroFailedTests: bool)

  const EmptyFilters := FilterOptions([], [], [], "", false)

  /**
   * The sort state. The field is any string (the sort handlers cast whatever
   * the select produced), and the direction is absent when the select value
   * had no `-`.
   */
  datatype SortOptions = SortOptions(field: string, direction: Option<string>)

  const DefaultSort := SortOptions("severity", Some("desc"))

  /** The three list-valued filter fields. */
  datatype ListField = SeverityField | StatusField | ResourceTypeField

  function GetList(f: FilterOptions, field: ListField): seq<string> {
    match field
    case SeverityField => f.severity
    case StatusField => f.status
    case ResourceTypeField => f.resourceType
  }

  /** `{...f, [field]: values}` for a list field. */
  function SetList(f: FilterOptions, field: ListField, values: seq<string>): (r: FilterOptions)
    ensures GetList(r, field) == values
    ensures forall g: ListField :: g != field ==> GetList(r, g) == GetList(f, g)
    ensures r.packageName == f.packageName && r.hideZeroFailedTests == f.hideZeroFailedTests
  {
    match field
    case SeverityField => f.(severity := values)
    case StatusField => f.(status := values)
    case ResourceTypeField => f.(resourceType := values)
  }

  function StrValues(xs: seq<string>): seq<Value> {
    seq(|xs|, i requires 0 <= i < |xs| => Str(xs[i]))
  }

  /** `(filters as any)[id]`: the filter state read by a configuration's filter id. */
  function FieldValue(f: FilterOptions, id: string): (r: Value)
    ensures id == "severity" ==> r == Arr(StrValues(f.severity))
    ensures id == "status" ==> r == Arr(StrValues(f.status))
    ensures id == "resourceType" ==> r == Arr(StrValues(f.resourceType))
    ensures id == "packageName" ==> r == Str(f.packageName)
    ensures id == "hideZeroFailedTests" ==> r == Bool(f.hideZeroFailedTests)
    ensures id !in {"severity", "status", "resourceType", "packageName", "hideZeroFailedTests"} ==> r == Undefined
  {
    if id == "severity" then Arr(StrValues(f.severity))
    else if id == "status" then Arr(StrValues(f.status))
    else if id == "resourceType" then Arr(StrValues(f.resourceType))
    else if id == "packageName" then Str(f.packageName)
    else if id == "hideZeroFailedTests" then Bool(f.hideZeroFailedTests)
    else Undefined
  }

  datatype FilterKind = SeverityKind | StatusKind | ResourceTypeKind | PackageNameKind | CheckboxKind | TextKind

  datatype FilterOptionItem = FilterOptionItem(value: string, caption: string, color: Option<string>, textColor: Option<string>)

  /** A filter's `defaultValue`: a string, a list of strings or a flag. */
  datatype DefaultValue = TextDefault(text: string) | ListDefault(values: seq<string>) | FlagDefault(flag: bool)

  datatype FilterConfig = FilterConfig(
    id: string,
    name: string,
    kind: FilterKind,
    options: Option<seq<FilterOptionItem>>,
    placeholder: Option<string>,
    defaultValue: Option<DefaultValue>,
    isReportSpecific: bool)

  datatype SortConfig = SortConfig(field: string, caption: string, direction: string)

  /**
   * The data part of a family's configuration; its behaviour is dispatched on
   * `id`, and so are its display texts (`ConfigRegistry.ConfigDescription`,
   * `ConfigRegistry.ExampleCommand`), which no operation reads.
   */
  datatype ReportConfig = ReportConfig(
    id: ReportType,
    name: string,
    availableFilters: seq<FilterConfig>,
    availableSorts: seq<SortConfig>)

  /** An entry of the failure-isolating type registry; its description and example command are those of the configuration registry, looked up by `id`. */
  datatype ReportTypeInfo = ReportTypeInfo(id: ReportType, name: string)
}
