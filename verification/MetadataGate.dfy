/**
 The two independent readings of run metadata: the gate applied before a real run
 (`metadata_blockers`) and the calibration check applied to the finished report
 (`check_calibration_requirements`).
 */
module MetadataGate {
  import opened Json
  import opened Text
  import opened Vocabulary

  /** Metadata sections copied into the report. */
  type Metadata = map<Section, Json>

  function SectionData(metadata: Metadata, s: Section): Json {
    if s in metadata then metadata[s] else JNull
  }

  const BLOCKED_PREFIX := "blocked-"
  const CONTRACT_PATH := "docs/spec-db/process-14a-effects.yaml"
  const SIGNOFF_PASSED := "pdk" + "_extracted_timing_power_thermal_signoff_passed"
  const TOP_FIELDS: seq<string> := ["source", "ground_truth_reference", "last_calibrated_utc"]
  const ASSET_FIELDS: seq<string> := ["source", "sha256", "evidence"]

  /** `is_blocked_value` */
  predicate IsBlocked(v: Json) {
    v.JStr? && StartsWith(Strip(v.s), BLOCKED_PREFIX)
  }

  /** `SHA256_RE.fullmatch` */
  predicate IsSha256(s: string) {
    |s| == 64 && forall c :: c in s ==> '0' <= c <= '9' || 'a' <= c <= 'f'
  }

  // ---------- the gate ----------

  datatype Blocker =
    | MissingSection(s: Section)
    | BlockedField(s: Section, field: string)
    | NoContract | WrongContractPath | NoContractDigest
    | WrongNode | BadCornerCount | BadWorstCorner | NoPdkSignoff
    | Uncalibrated
    | MissingAsset(asset: string)
    | UncalibratedAsset(asset: string)
    | BlockedAssetField(asset: string, field: string)

  /** When the process section earns each of its own blockers. */
  predicate ProcessBlocks(d: Object, b: Blocker) {
    var contract := Get(d, "process_effects_contract");
    match b
    case NoContract => !contract.JObj?
    case WrongContractPath => contract.JObj? && Get(contract.fields, "path") != JStr(CONTRACT_PATH)
    case NoContractDigest =>
      contract.JObj? && !(Get(contract.fields, "sha256").JStr? && IsSha256(Get(contract.fields, "sha256").s))
    case WrongNode => !(Get(d, "node").JStr? && Contains(Get(d, "node").s, "14A"))
    case BadCornerCount => !(Get(d, "process_corner_count").JInt? && Get(d, "process_corner_count").i > 0)
    case BadWorstCorner => !(Get(d, "worst_process_corner").JStr? && StartsWith(Get(d, "worst_process_corner").s, "14a_"))
    case NoPdkSignoff => Get(d, "pdk_signoff_claim") != JStr(SIGNOFF_PASSED)
    case _ => false
  }

  predicate FieldBlocks(s: Section, d: Object, fields: seq<(string, Type)>, b: Blocker) {
    && b.BlockedField? && b.s == s
    && (exists f :: f in fields && f.0 == b.field)
    && (Get(d, b.field).JNull? || IsBlocked(Get(d, b.field)))
  }

  predicate SectionBlocks(metadata: Metadata, name: string, b: Blocker) {
    SectionOf(name).Some? &&
    var s := SectionOf(name).value;
    var data := SectionData(metadata, s);
    if !data.JObj? then b == MissingSection(s)
    else
      || FieldBlocks(s, data.fields, RequiredFields(s), b)
      || (s == Process && ProcessBlocks(data.fields, b))
  }

  /** A string with visible text that is not a "blocked-" note, wherever its text starts. */
  predicate Populated(v: Json) {
    v.JStr? && Strip(v.s) != "" && !IsBlocked(v)
  }

  predicate AssetBlocks(assets: Object, name: string, b: Blocker) {
    var asset := Get(assets, name);
    if !asset.JObj? then b == MissingAsset(name)
    else
      || (b == UncalibratedAsset(name) && Get(asset.fields, "status") != JStr("calibrated"))
      || (b.BlockedAssetField? && b.asset == name && b.field in ASSET_FIELDS && !Populated(Get(asset.fields, b.field)))
  }

  function AssetTable(calibration: Object): Object {
    var assets := Get(calibration, "assets");
    if assets.JObj? then assets.fields else map[]
  }

  predicate CalibrationBlocks(calibration: Json, assets: seq<string>, b: Blocker) {
    calibration.JObj? &&
    ( || (b == Uncalibrated && Get(calibration.fields, "status") != JStr("calibrated"))
      || exists name :: name in assets && AssetBlocks(AssetTable(calibration.fields), name, b))
  }

  /** The sections a benchmark asks for; all of them by default. */
  function RequiredSections(bench: Object): seq<string> {
    if "required_metadata" in bench && AllStrs(bench["required_metadata"]) then Strs(bench["required_metadata"])
    else seq(|SECTIONS|, i requires 0 <= i < |SECTIONS| => SectionName(SECTIONS[i]))
  }

  function RequiredAssets(bench: Object): seq<string> {
    var v := GetOr(bench, "required_calibration_assets", JList([]));
    if AllStrs(v) then Strs(v) else []
  }

  /** What blocks a real run of a benchmark, declaratively. */
  predicate GateBlocks(metadata: Metadata, bench: Object, b: Blocker) {
    || (exists name :: name in RequiredSections(bench) && SectionBlocks(metadata, name, b))
    || CalibrationBlocks(SectionData(metadata, Calibration), RequiredAssets(bench), b)
  }

  ghost predicate Clears(metadata: Metadata, bench: Object) {
    forall b :: !GateBlocks(metadata, bench, b)
  }

  method SectionBlockers(metadata: Metadata, name: string) returns (r: seq<Blocker>)
    ensures forall b :: b in r <==> SectionBlocks(metadata, name, b)
  {
    if SectionOf(name).None? {
      return [];
    }
    var s := SectionOf(name).value;
    var data := SectionData(metadata, s);
    if !data.JObj? {
      return [MissingSection(s)];
    }
    r := [];
    var fields := RequiredFields(s);
    for i := 0 to |fields|
      invariant forall b :: b in r <==> FieldBlocks(s, data.fields, fields[..i], b)
    {
      var value := Get(data.fields, fields[i].0);
      if value.JNull? || IsBlocked(value) {
        r := r + [BlockedField(s, fields[i].0)];
      }
      assert fields[..i + 1] == fields[..i] + [fields[i]];
    }
    assert fields[..|fields|] == fields;
    if s == Process {
      var more := ProcessBlockers(data.fields);
      r := r + more;
    }
  }

  method ProcessBlockers(d: Object) returns (r: seq<Blocker>)
    ensures forall b :: b in r <==> ProcessBlocks(d, b)
  {
    r := [];
    var contract := Get(d, "process_effects_contract");
    if !contract.JObj? {
      r := r + [NoContract];
    } else {
      if Get(contract.fields, "path") != JStr(CONTRACT_PATH) {
        r := r + [WrongContractPath];
      }
      var digest := Get(contract.fields, "sha256");
      if !(digest.JStr? && IsSha256(digest.s)) {
        r := r + [NoContractDigest];
      }
    }
    var node, count := Get(d, "node"), Get(d, "process_corner_count");
    if !(node.JStr? && Contains(node.s, "14A")) {
      r := r + [WrongNode];
    }
    if !(count.JInt? && count.i > 0) {
      r := r + [BadCornerCount];
    }
    var worst := Get(d, "worst_process_corner");
    if !(worst.JStr? && StartsWith(worst.s, "14a_")) {
      r := r + [BadWorstCorner];
    }
    if Get(d, "pdk_signoff_claim") != JStr(SIGNOFF_PASSED) {
      r := r + [NoPdkSignoff];
    }
  }

  method AssetBlockers(assets: Object, name: string) returns (r: seq<Blocker>)
    ensures forall b :: b in r <==> AssetBlocks(assets, name, b)
  {
    var asset := Get(assets, name);
    if !asset.JObj? {
      return [MissingAsset(name)];
    }
    r := if Get(asset.fields, "status") != JStr("calibrated") then [UncalibratedAsset(name)] else [];
    ghost var first := r;
    for i := 0 to |ASSET_FIELDS|
      invariant forall b :: b in r <==> b in first ||
                                        (b.BlockedAssetField? && b.asset == name && b.field in ASSET_FIELDS[..i]
                                         && !Populated(Get(asset.fields, b.field)))
    {
      if !Populated(Get(asset.fields, ASSET_FIELDS[i])) {
        r := r + [BlockedAssetField(name, ASSET_FIELDS[i])];
      }
      assert ASSET_FIELDS[..i + 1] == ASSET_FIELDS[..i] + [ASSET_FIELDS[i]];
    }
    assert ASSET_FIELDS[..|ASSET_FIELDS|] == ASSET_FIELDS;
  }

  /** `metadata_blockers`: exactly the blockers that hold, none invented and none missed. */
  method MetadataBlockers(metadata: Metadata, bench: Object) returns (r: seq<Blocker>)
    ensures forall b :: b in r <==> GateBlocks(metadata, bench, b)
  {
    r := [];
    var sections := RequiredSections(bench);
    for i := 0 to |sections|
      invariant forall b :: b in r <==> exists name :: name in sections[..i] && SectionBlocks(metadata, name, b)
    {
      var more := SectionBlockers(metadata, sections[i]);
      assert sections[..i + 1] == sections[..i] + [sections[i]];
      r := r + more;
    }
    assert sections[..|sections|] == sections;
    var calibration := SectionData(metadata, Calibration);
    if calibration.JObj? {
      var more := CalibrationBlockers(calibration.fields, RequiredAssets(bench));
      r := r + more;
    }
  }

  method CalibrationBlockers(calibration: Object, assets: seq<string>) returns (r: seq<Blocker>)
    ensures forall b :: b in r <==> CalibrationBlocks(JObj(calibration), assets, b)
  {
    r := if Get(calibration, "status") != JStr("calibrated") then [Uncalibrated] else [];
    ghost var first := r;
    var table := AssetTable(calibration);
    for i := 0 to |assets|
      invariant forall b :: b in r <==> b in first || exists name :: name in assets[..i] && AssetBlocks(table, name, b)
    {
      var more := AssetBlockers(table, assets[i]);
      assert assets[..i + 1] == assets[..i] + [assets[i]];
      r := r + more;
    }
    assert assets[..|assets|] == assets;
  }

  // ---------- the calibration check on the report ----------

  datatype CalibrationFault =
    | NoCalibration
    | StatusFault
    | TopFieldFault(field: string)
    | AssetsFault
    | AssetMissing(asset: string)
    | AssetStatusFault(asset: string)
    | AssetFieldFault(asset: string, field: string)

  /** The report's own test of a field: only a literal leading "blocked-" counts as a note. */
  predicate Evidenced(v: Json) {
    v.JStr? && Strip(v.s) != "" && !StartsWith(v.s, BLOCKED_PREFIX)
  }

  predicate AssetFaulty(assets: Object, name: string, f: CalibrationFault) {
    var asset := Get(assets, name);
    if !asset.JObj? then f == AssetMissing(name)
    else
      || (f == AssetStatusFault(name) && Get(asset.fields, "status") != JStr("calibrated"))
      || (f.AssetFieldFault? && f.asset == name && f.field in ASSET_FIELDS && !Evidenced(Get(asset.fields, f.field)))
  }

  predicate CalibrationFaulty(calibration: Json, assets: seq<string>, f: CalibrationFault) {
    if !calibration.JObj? then f == NoCalibration
    else
      || (f == StatusFault && Get(calibration.fields, "status") != JStr("calibrated"))
      || (f.TopFieldFault? && f.field in TOP_FIELDS && !Evidenced(Get(calibration.fields, f.field)))
      || (f == AssetsFault && !Get(calibration.fields, "assets").JObj?)
      || exists name :: name in assets && AssetFaulty(AssetTable(calibration.fields), name, f)
  }

  ghost predicate Calibrated(calibration: Json, assets: seq<string>) {
    forall f :: !CalibrationFaulty(calibration, assets, f)
  }

  method AssetFaults(assets: Object, name: string) returns (r: seq<CalibrationFault>)
    ensures forall f :: f in r <==> AssetFaulty(assets, name, f)
  {
    var asset := Get(assets, name);
    if !asset.JObj? {
      return [AssetMissing(name)];
    }
    r := if Get(asset.fields, "status") != JStr("calibrated") then [AssetStatusFault(name)] else [];
    ghost var first := r;
    for i := 0 to |ASSET_FIELDS|
      invariant forall f :: f in r <==> f in first ||
                                        (f.AssetFieldFault? && f.asset == name && f.field in ASSET_FIELDS[..i]
                                         && !Evidenced(Get(asset.fields, f.field)))
    {
      if !Evidenced(Get(asset.fields, ASSET_FIELDS[i])) {
        r := r + [AssetFieldFault(name, ASSET_FIELDS[i])];
      }
      assert ASSET_FIELDS[..i + 1] == ASSET_FIELDS[..i] + [ASSET_FIELDS[i]];
    }
    assert ASSET_FIELDS[..|ASSET_FIELDS|] == ASSET_FIELDS;
  }

  method TopFaults(calibration: Object) returns (r: seq<CalibrationFault>)
    ensures forall f :: f in r <==>
                        || (f == StatusFault && Get(calibration, "status") != JStr("calibrated"))
                        || (f.TopFieldFault? && f.field in TOP_FIELDS && !Evidenced(Get(calibration, f.field)))
                        || (f == AssetsFault && !Get(calibration, "assets").JObj?)
  {
    r := if Get(calibration, "status") != JStr("calibrated") then [StatusFault] else [];
    ghost var first := r;
    for i := 0 to |TOP_FIELDS|
      invariant forall f :: f in r <==> f in first ||
                                        (f.TopFieldFault? && f.field in TOP_FIELDS[..i] && !Evidenced(Get(calibration, f.field)))
    {
      if !Evidenced(Get(calibration, TOP_FIELDS[i])) {
        r := r + [TopFieldFault(TOP_FIELDS[i])];
      }
      assert TOP_FIELDS[..i + 1] == TOP_FIELDS[..i] + [TOP_FIELDS[i]];
    }
    assert TOP_FIELDS[..|TOP_FIELDS|] == TOP_FIELDS;
    if !Get(calibration, "assets").JObj? {
      r := r + [AssetsFault];
    }
  }

  /** `check_calibration_requirements`, sound and complete. */
  method CheckCalibration(calibration: Json, assets: seq<string>) returns (r: seq<CalibrationFault>)
    ensures forall f :: f in r <==> CalibrationFaulty(calibration, assets, f)
  {
    if !calibration.JObj? {
      return [NoCalibration];
    }
    r := TopFaults(calibration.fields);
    ghost var first := r;
    var table := AssetTable(calibration.fields);
    for i := 0 to |assets|
      invariant forall f :: f in r <==> f in first || exists name :: name in assets[..i] && AssetFaulty(table, name, f)
    {
      var more := AssetFaults(table, assets[i]);
      assert assets[..i + 1] == assets[..i] + [assets[i]];
      r := r + more;
    }
    assert assets[..|assets|] == assets;
  }

  // ---------- the two readings compared ----------

  /** The gate's field test implies the report's, and differs from it only on notes that whitespace precedes. */
  lemma PopulatedVersusEvidenced(v: Json)
    ensures Populated(v) <==> Evidenced(v) && !(IsBlocked(v) && !StartsWith(v.s, BLOCKED_PREFIX))
  {
    if v.JStr? && StartsWith(v.s, BLOCKED_PREFIX) {
      StripKeepsPrefix(v.s, BLOCKED_PREFIX);
    }
  }

  /** Such a note exists, and the report accepts it. */
  lemma IndentedNoteIsEvidenced()
    ensures Evidenced(JStr(" blocked-x")) && !Populated(JStr(" blocked-x"))
  {
    var s := " blocked-x";
    assert s[1..] == "blocked-x" && LStrip(s) == LStrip(s[1..]) == "blocked-x";
    assert Strip(s) == "blocked-x";
  }

  /** No asset that the gate lets through is faulted by the report, and conversely up to indented notes. */
  lemma AssetVerdictsAgree(assets: Object, name: string)
    ensures (forall b :: !AssetBlocks(assets, name, b)) <==>
            && (forall f :: !AssetFaulty(assets, name, f))
            && Get(assets, name).JObj?
            && forall field :: field in ASSET_FIELDS ==> !IsBlocked(Get(Get(assets, name).fields, field))
  {
    var asset := Get(assets, name);
    if !asset.JObj? {
      assert AssetBlocks(assets, name, MissingAsset(name)) && AssetFaulty(assets, name, AssetMissing(name));
    } else {
      forall field | field in ASSET_FIELDS
        ensures AssetBlocks(assets, name, BlockedAssetField(name, field)) <==>
                AssetFaulty(assets, name, AssetFieldFault(name, field)) || IsBlocked(Get(asset.fields, field))
      {
        PopulatedVersusEvidenced(Get(asset.fields, field));
      }
      assert AssetBlocks(assets, name, UncalibratedAsset(name)) <==> AssetFaulty(assets, name, AssetStatusFault(name));
    }
  }

  /**
   A benchmark that clears the gate with a calibration object present can fail the report's
   calibration check only on the three top-level text fields or an `assets` field that is not an
   object, never on the status or on a required asset.
   */
  lemma ClearedCalibrationFaults(metadata: Metadata, bench: Object, f: CalibrationFault)
    requires Clears(metadata, bench) && SectionData(metadata, Calibration).JObj?
    ensures var calibration := SectionData(metadata, Calibration).fields;
            CalibrationFaulty(SectionData(metadata, Calibration), RequiredAssets(bench), f) <==>
            || (f.TopFieldFault? && f.field in TOP_FIELDS && !Evidenced(Get(calibration, f.field)))
            || (f == AssetsFault && !Get(calibration, "assets").JObj? && RequiredAssets(bench) == [])
  {
    var c := SectionData(metadata, Calibration);
    assert !GateBlocks(metadata, bench, Uncalibrated);
    forall name | name in RequiredAssets(bench)
      ensures forall f :: !AssetFaulty(AssetTable(c.fields), name, f)
    {
      forall b
        ensures !AssetBlocks(AssetTable(c.fields), name, b)
      {
        assert !GateBlocks(metadata, bench, b);
      }
      AssetVerdictsAgree(AssetTable(c.fields), name);
    }
    if RequiredAssets(bench) != [] {
      var name := RequiredAssets(bench)[0];
      assert name in RequiredAssets(bench);
      assert !AssetFaulty(AssetTable(c.fields), name, AssetMissing(name));
    }
  }
}
