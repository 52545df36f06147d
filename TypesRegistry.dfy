/**
 * The report-type registry of the earlier session: the same five families
 * with the same names, descriptions, example commands and transforms as
 * the configuration registry, but tried in a different order (secret before
 * license), with a stricter EKS detector, and with every detector and
 * transform isolated so that one that throws counts as "no match".
 */
module TypesRegistry {
  import opened Js
  import opened ReportTypes
  import ConfigRegistry

  /** The registry's declaration order. */
  const TypesOrder: seq<ReportType> := [TrivyVulnerability, EksCis, TrivyMisconfig, TrivySecret, TrivyLicense]

  /** The registry entry of a family. */
  function Info(t: ReportType): ReportTypeInfo {
    ReportTypeInfo(t, ConfigRegistry.ConfigName(t))
  }

  /** `reportTypes`, in declaration order. */
  const ReportTypeInfos: seq<ReportTypeInfo> := [Info(TrivyVulnerability), Info(EksCis), Info(TrivyMisconfig), Info(TrivySecret), Info(TrivyLicense)]

  /** The EKS detector, which checks that `Title` is a string before searching it. */
  function DetectEksStrict(json: Value): Result<bool> {
    var id :- Get(json, "ID");
    var title := Prop(json, "Title");
    if !Truthy(id) || !Truthy(title) || !title.Str? then Ok(false)
    else Ok(Contains(title.s, "EKS CIS") && Prop(json, "SummaryControls").Arr?)
  }

  /** The detector of each entry; apart from EKS they are those of the configuration registry. */
  function TypeDetect(t: ReportType, json: Value): Result<bool> {
    if t == EksCis then DetectEksStrict(json) else ConfigRegistry.Detect(t, json)
  }

  /** Whether an entry claims the document: its detector returns true and its transform does not throw. */
  predicate Claims(t: ReportType, json: Value) {
    TypeDetect(t, json) == Ok(true) && ConfigRegistry.Transform(t, json).Ok?
  }

  /** The result of `detectReportType`: the family, its entry and the transformed document, or UNKNOWN with neither. */
  datatype Detection = Detection(reportType: ReportType, info: Option<ReportTypeInfo>, transformed: Option<Value>)

  const NoDetection := Detection(Unknown, None, None)

  /** What `detectReportType` returns for the entry of family `t`. */
  function Claimed(t: ReportType, json: Value): Detection
    requires Claims(t, json)
  {
    Detection(t, Some(Info(t)), Some(ConfigRegistry.Transform(t, json).value))
  }

  /** The first family of `order` that satisfies `p`. */
  function FirstWhere(order: seq<ReportType>, p: ReportType -> bool): (r: Option<ReportType>)
    ensures r.Some? ==> r.value in order && p(r.value)
  {
    if order == [] then None
    else if p(order[0]) then Some(order[0])
    else FirstWhere(order[1..], p)
  }

  /** One step of the search. */
  lemma FirstWhereStep(order: seq<ReportType>, p: ReportType -> bool)
    requires order != []
    ensures FirstWhere(order, p) == if p(order[0]) then Some(order[0]) else FirstWhere(order[1..], p)
  {
  }

  /** The test `detectReportType` applies to each entry. */
  function ClaimTest(json: Value): ReportType -> bool {
    t => Claims(t, json)
  }

  /** The first entry of `order` that claims the document; a fault inside an entry moves on to the next one. */
  function FirstClaim(order: seq<ReportType>, json: Value): Detection {
    match FirstWhere(order, ClaimTest(json))
    case None => NoDetection
    case Some(t) => Claimed(t, json)
  }

  /** `detectReportType`: never throws. */
  function Detected(json: Value): Detection {
    FirstClaim(TypesOrder, json)
  }

  /** The loop over the entries as the program runs it, each detection inside its own `try`. */
  method DetectReportType(json: Value) returns (d: Detection)
    ensures d == Detected(json)
  {
    ghost var p := ClaimTest(json);
    var i := 0;
    while i < |TypesOrder|
      invariant 0 <= i <= |TypesOrder|
      invariant FirstWhere(TypesOrder, p) == FirstWhere(TypesOrder[i..], p)
    {
      var t := TypesOrder[i];
      FirstWhereStep(TypesOrder[i..], p);
      assert TypesOrder[i..][0] == t && TypesOrder[i..][1..] == TypesOrder[i + 1..];
      var hit := TypeDetect(t, json);
      if hit == Ok(true) {
        var data := ConfigRegistry.Transform(t, json);
        if data.Ok? {
          assert p(t);
          return Claimed(t, json);
        }
      }
      assert !p(t);
      i := i + 1;
    }
    assert TypesOrder[i..] == [];
    return NoDetection;
  }

  /** `getAllReportTypes`. */
  function AllReportTypes(): (r: seq<ReportTypeInfo>)
    ensures |r| == |TypesOrder|
    ensures forall i :: 0 <= i < |r| ==> r[i].id == TypesOrder[i] && r[i].id != Unknown
  {
    ReportTypeInfos
  }

  /** `reportTypes.find(rt => rt.id === type)`. */
  function Find(infos: seq<ReportTypeInfo>, t: ReportType): (r: Option<ReportTypeInfo>)
    ensures r.Some? ==> r.value in infos && r.value.id == t
    ensures r.None? ==> forall i :: 0 <= i < |infos| ==> infos[i].id != t
  {
    if infos == [] then None
    else if infos[0].id == t then Some(infos[0])
    else Find(infos[1..], t)
  }

  /** `getReportTypeInfo`: the entry of every known family, and none for UNKNOWN. */
  function GetReportTypeInfo(t: ReportType): (r: Option<ReportTypeInfo>)
    ensures r.Some? <==> t != Unknown
    ensures r.Some? ==> r.value == Info(t)
  {
    if t != Unknown then
      EntryListed(t);
      Find(ReportTypeInfos, t)
    else
      Find(ReportTypeInfos, t)
  }

  lemma EntryListed(t: ReportType)
    requires t != Unknown
    ensures exists i :: 0 <= i < |ReportTypeInfos| && ReportTypeInfos[i].id == t
  {
    var i := if t == TrivyVulnerability then 0 else if t == EksCis then 1 else if t == TrivyMisconfig then 2
      else if t == TrivySecret then 3 else 4;
    assert ReportTypeInfos[i].id == t;
  }

  // ---------------------------------------------------------------------
  // Properties

  /**
   * An entry claims a document exactly when its detector holds and every value
   * its transform substitutes into a template literal converts: a detector
   * that holds rules out a null document, so only a conversion can still throw.
   */
  lemma ClaimCondition(t: ReportType, json: Value)
    ensures Claims(t, json) <==> TypeDetect(t, json) == Ok(true) && ConfigRegistry.TemplatesConvert(t, json)
  {
    if TypeDetect(t, json) == Ok(true) {
      assert !IsNullish(json);
    }
  }

  /** `FirstWhere` finds nothing exactly when no family satisfies `p`. */
  lemma {:induction false} FirstWhereNone(order: seq<ReportType>, p: ReportType -> bool)
    ensures FirstWhere(order, p) == None <==> forall j :: 0 <= j < |order| ==> !p(order[j])
  {
    if order != [] {
      FirstWhereNone(order[1..], p);
      assert forall j :: 0 < j < |order| ==> order[j] == order[1..][j - 1];
    }
  }

  /** `FirstWhere` finds the family at position `k` when it satisfies `p` and no earlier one does. */
  lemma {:induction false} FirstWhereAt(order: seq<ReportType>, p: ReportType -> bool, k: nat)
    requires k < |order| && p(order[k])
    requires forall j :: 0 <= j < k ==> !p(order[j])
    ensures FirstWhere(order, p) == Some(order[k])
  {
    if k > 0 {
      assert forall j :: 0 <= j < k - 1 ==> order[1..][j] == order[j + 1];
      FirstWhereAt(order[1..], p, k - 1);
    }
  }

  /** A document that no entry claims is UNKNOWN, with no entry and no transformed data. */
  lemma FirstClaimNone(order: seq<ReportType>, json: Value)
    ensures FirstClaim(order, json) == NoDetection <==> forall j :: 0 <= j < |order| ==> !Claims(order[j], json)
  {
    FirstWhereNone(order, ClaimTest(json));
  }

  /** The entry at position `k` is chosen exactly when it claims the document and no earlier entry does. */
  lemma FirstClaimAt(order: seq<ReportType>, json: Value, k: nat)
    requires k < |order| && Claims(order[k], json)
    requires forall j :: 0 <= j < k ==> !Claims(order[j], json)
    ensures FirstClaim(order, json) == Claimed(order[k], json)
  {
    FirstWhereAt(order, ClaimTest(json), k);
  }

  /** Without a match the family is UNKNOWN exactly when there is no document, and the entry is that of the family. */
  lemma FirstClaimShape(order: seq<ReportType>, json: Value)
    requires forall j :: 0 <= j < |order| ==> order[j] != Unknown
    ensures var d := FirstClaim(order, json);
      && (d.reportType == Unknown <==> d == NoDetection)
      && (d.reportType != Unknown ==> d.reportType in order && Claims(d.reportType, json) && d == Claimed(d.reportType, json))
  {
  }

  /** A detected document is an object of a known family; no document means UNKNOWN. */
  lemma DetectedObject(json: Value)
    ensures Detected(json).transformed.None? ==> Detected(json).reportType == Unknown
    ensures Detected(json).transformed.Some? ==> Detected(json).transformed.value.Obj? && Detected(json).reportType != Unknown
  {
    FirstClaimShape(TypesOrder, json);
  }

  /** A `null` document, which throws in every detector of the configuration registry, is simply UNKNOWN here. */
  lemma NullIsUnknown()
    ensures Detected(Null) == NoDetection
    ensures ConfigRegistry.Classify(Null).Thrown?
  {
    forall t | true ensures !Claims(t, Null) {
      NoClaimOnNull(t);
    }
    FirstClaimNone(TypesOrder, Null);
    ConfigRegistry.ClassifyNullThrows();
  }

  /** No detector holds for `null`: each throws or answers false. */
  lemma NoClaimOnNull(t: ReportType)
    ensures TypeDetect(t, Null) != Ok(true)
  {
    if t != EksCis {
      assert ConfigRegistry.Detect(t, Null) != Ok(true);
    }
  }

  /** The strict EKS detector only accepts what the detector of the configuration registry accepts. */
  lemma StrictEksImpliesLoose(json: Value)
    ensures DetectEksStrict(json) == Ok(true) ==> ConfigRegistry.DetectEks(json) == Ok(true)
    ensures DetectEksStrict(json).Thrown? <==> ConfigRegistry.DetectEks(json).Thrown? && IsNullish(json)
  {
  }

  /** An array `Title` holding "EKS CIS" satisfies the configuration registry's EKS detector but not this one. */
  lemma ArrayTitleOnlyLoose()
    ensures var json := Obj(map["ID" := Str("eks"), "Title" := Arr([Str("EKS CIS")]), "SummaryControls" := Arr([])]);
      ConfigRegistry.DetectEks(json) == Ok(true) && DetectEksStrict(json) == Ok(false)
  {
  }

  /** A scan result listing both secrets and licenses. */
  const SecretsAndLicenses: Value := Obj(map["Secrets" := Arr([Num(1)]), "Licenses" := Arr([Num(1)])])

  /** A report whose only scan result lists both secrets and licenses. */
  const MixedReport: Value := Obj(map["Results" := Arr([SecretsAndLicenses])])

  lemma MixedReportIsLicenseReport()
    ensures ConfigRegistry.Classify(MixedReport).Ok?
    ensures ConfigRegistry.Classify(MixedReport).value.reportType == TrivyLicense
  {
    var json := MixedReport;
    assert ConfigRegistry.Detect(TrivyVulnerability, json) == Ok(false);
    assert ConfigRegistry.Detect(EksCis, json) == Ok(false);
    assert ConfigRegistry.SomeTruthyProp([SecretsAndLicenses], "Misconfigurations") == Ok(false);
    assert ConfigRegistry.SomeTruthyProp([SecretsAndLicenses], "Licenses") == Ok(true);
    assert ConfigRegistry.NoMatchBefore(ConfigRegistry.RegistryOrder, json, 3) by {
      forall j | 0 <= j < 3 ensures ConfigRegistry.Detect(ConfigRegistry.RegistryOrder[j], json) == Ok(false) {
        assert j == 0 || j == 1 || j == 2;
      }
    }
    ConfigRegistry.ClassifyFirstMatch(json, 3);
  }

  lemma MixedReportIsSecretReport()
    ensures Detected(MixedReport).reportType == TrivySecret
  {
    MixedReportDetectors();
    SecretWhenEarlierDecline(MixedReport);
  }

  /** A document that the three entries tried before the secret entry decline, and that lists secrets, is a secret report. */
  lemma SecretWhenEarlierDecline(json: Value)
    requires TypeDetect(TrivyVulnerability, json) == Ok(false)
    requires TypeDetect(EksCis, json) == Ok(false)
    requires TypeDetect(TrivyMisconfig, json) == Ok(false)
    requires TypeDetect(TrivySecret, json) == Ok(true) && ConfigRegistry.TemplatesConvert(TrivySecret, json)
    ensures Detected(json).reportType == TrivySecret
  {
    ClaimCondition(TrivySecret, json);
    EarlierDecline(json);
    FirstClaimAt(TypesOrder, json, 3);
  }

  /** The entries tried before the secret entry claim nothing once their detectors answer false. */
  lemma EarlierDecline(json: Value)
    requires TypeDetect(TrivyVulnerability, json) == Ok(false)
    requires TypeDetect(EksCis, json) == Ok(false)
    requires TypeDetect(TrivyMisconfig, json) == Ok(false)
    ensures forall j :: 0 <= j < 3 ==> !Claims(TypesOrder[j], json)
  {
    DeclinedNoClaim(TrivyVulnerability, json);
    DeclinedNoClaim(EksCis, json);
    DeclinedNoClaim(TrivyMisconfig, json);
    assert TypesOrder[0] == TrivyVulnerability && TypesOrder[1] == EksCis && TypesOrder[2] == TrivyMisconfig;
  }

  /** An entry whose detector answers false does not claim the document. */
  lemma DeclinedNoClaim(t: ReportType, json: Value)
    requires TypeDetect(t, json) == Ok(false)
    ensures !Claims(t, json)
  {
  }

  /** The mixed report has neither a schema version nor an id, lists no misconfigurations and lists secrets. */
  lemma MixedReportDetectors()
    ensures TypeDetect(TrivyVulnerability, MixedReport) == Ok(false)
    ensures TypeDetect(EksCis, MixedReport) == Ok(false)
    ensures TypeDetect(TrivyMisconfig, MixedReport) == Ok(false)
    ensures TypeDetect(TrivySecret, MixedReport) == Ok(true)
    ensures ConfigRegistry.TemplatesConvert(TrivySecret, MixedReport)
  {
    assert ConfigRegistry.SomeTruthyProp([SecretsAndLicenses], "Misconfigurations") == Ok(false);
    assert ConfigRegistry.SomeTruthyProp([SecretsAndLicenses], "Secrets") == Ok(true);
  }

  /** A vulnerability report whose `ArtifactName` is an object with its own `toString` key. */
  const UnprintableNameReport: Value := Obj(map[
    "SchemaVersion" := Num(2),
    "ArtifactName" := Obj(map["toString" := Str("x")]),
    "Results" := Arr([Obj(map["Vulnerabilities" := Arr([])])])])

  /**
   * Its vulnerability detector holds, but the display name's template literal
   * throws: the configuration registry throws, while the type registry skips
   * that entry and, with no other entry matching, finds no family.
   */
  lemma UnprintableNameRegistries()
    ensures ConfigRegistry.Classify(UnprintableNameReport) == Thrown
    ensures Detected(UnprintableNameReport) == NoDetection
  {
    UnprintableNameDetectors();
    UnprintableNameOthersDecline();
    ConfigRegistry.ClassifyFirstMatch(UnprintableNameReport, 0);
    NoClaimWhenVulnerabilityUnprintable(UnprintableNameReport);
  }

  /** The vulnerability detector accepts that report, but its display name cannot be converted. */
  lemma UnprintableNameDetectors()
    ensures ConfigRegistry.Detect(TrivyVulnerability, UnprintableNameReport) == Ok(true)
    ensures !ConfigRegistry.TemplatesConvert(TrivyVulnerability, UnprintableNameReport)
  {
    var results := [Obj(map["Vulnerabilities" := Arr([])])];
    assert Prop(UnprintableNameReport, "Results") == Arr(results);
    assert ConfigRegistry.SomeTruthyProp(results, "Vulnerabilities") == Ok(true);
  }

  /** No other detector accepts it: it has no `ID`, and its only scan result lists no misconfigurations, secrets or licenses. */
  lemma UnprintableNameOthersDecline()
    ensures TypeDetect(EksCis, UnprintableNameReport) == Ok(false)
    ensures TypeDetect(TrivyMisconfig, UnprintableNameReport) == Ok(false)
    ensures TypeDetect(TrivySecret, UnprintableNameReport) == Ok(false)
    ensures TypeDetect(TrivyLicense, UnprintableNameReport) == Ok(false)
  {
    var results := [Obj(map["Vulnerabilities" := Arr([])])];
    assert Prop(UnprintableNameReport, "Results") == Arr(results);
    forall key | key in {"Misconfigurations", "Secrets", "Licenses"}
      ensures ConfigRegistry.SomeTruthyProp(results, key) == Ok(false)
    {
      assert Prop(results[0], key) == Undefined;
    }
  }

  /** A document whose vulnerability transform throws and that no other detector accepts has no family here. */
  lemma NoClaimWhenVulnerabilityUnprintable(json: Value)
    requires !ConfigRegistry.TemplatesConvert(TrivyVulnerability, json)
    requires TypeDetect(EksCis, json) == Ok(false) && TypeDetect(TrivyMisconfig, json) == Ok(false)
    requires TypeDetect(TrivySecret, json) == Ok(false) && TypeDetect(TrivyLicense, json) == Ok(false)
    ensures Detected(json) == NoDetection
  {
    var order := TypesOrder;
    forall j | 0 <= j < |order| ensures !Claims(order[j], json) {
      ClaimCondition(order[j], json);
    }
    FirstClaimNone(order, json);
  }

  /**
   * A scan result holding both secrets and licenses is a license report for
   * the configuration registry and a secret report here, because the two
   * registries try those families in opposite orders.
   */
  lemma RegistriesDisagree()
    ensures ConfigRegistry.Classify(MixedReport).Ok?
    ensures ConfigRegistry.Classify(MixedReport).value.reportType != Detected(MixedReport).reportType
  {
    MixedReportIsLicenseReport();
    MixedReportIsSecretReport();
  }
}
