/**
 What the metadata gate and the report's metadata clauses say of the recorded metadata itself, for
 the sections and assets that a benchmark names in its own fields.
 */
module GateEvidence {
  import opened Json
  import opened Text
  import opened Vocabulary
  import R = Report
  import G = MetadataGate

  predicate Visible(s: string) {
    exists c :: c in s && !IsSpace(c)
  }

  /** A note instead of evidence: text whose visible part starts with "blocked-". */
  predicate Note(v: Json) {
    v.JStr? && StartsWith(Strip(v.s), "blocked-")
  }

  /** A field that is there. */
  predicate Recorded(d: Object, field: string) {
    field in d && !d[field].JNull?
  }

  predicate IsText(d: Object, field: string) {
    field in d && d[field].JStr? && Visible(d[field].s)
  }

  predicate IsWhole(d: Object, field: string) {
    field in d && d[field].JInt?
  }

  /** A number; a boolean is none. */
  predicate IsNumeric(d: Object, field: string) {
    field in d && (d[field].JInt? || d[field].JFloat?)
  }

  predicate IsMapping(d: Object, field: string) {
    field in d && d[field].JObj?
  }

  // ---------- the process section ----------

  predicate Sha256Text(v: Json) {
    v.JStr? && |v.s| == 64 && forall i :: 0 <= i < 64 ==> v.s[i] in "0123456789abcdef"
  }

  /** The process section names its contract by path and hash, a 14A node and corner, and a passed signoff. */
  predicate ProcessBound(d: Object) {
    && IsMapping(d, "process_effects_contract")
    && (var contract := d["process_effects_contract"].fields;
        && "path" in contract && contract["path"] == JStr("docs/spec-db/process-14a-effects.yaml")
        && "sha256" in contract && Sha256Text(contract["sha256"]))
    && "node" in d && d["node"].JStr? && Contains(d["node"].s, "14A")
    && "process_corner_count" in d && d["process_corner_count"].JInt? && d["process_corner_count"].i > 0
    && "worst_process_corner" in d && d["worst_process_corner"].JStr? && StartsWith(d["worst_process_corner"].s, "14a_")
    && "pdk_signoff_claim" in d
    && d["pdk_signoff_claim"] == JStr("pdk" + "_extracted_timing_power_thermal_signoff_passed")
  }

  lemma HexDigits(s: string)
    ensures G.IsSha256(s) <==> Sha256Text(JStr(s))
  {
    assert forall c: char :: c in "0123456789abcdef" <==> '0' <= c <= '9' || 'a' <= c <= 'f';
    assert forall i :: 0 <= i < |s| ==> s[i] in s;
    if Sha256Text(JStr(s)) {
      forall c | c in s
        ensures c in "0123456789abcdef"
      {
        var i :| 0 <= i < |s| && s[i] == c;
      }
    }
  }

  lemma ProcessCleared(d: Object)
    ensures (forall b :: !G.ProcessBlocks(d, b)) <==> ProcessBound(d)
  {
    var contract := Get(d, "process_effects_contract");
    var sha := if contract.JObj? then Get(contract.fields, "sha256") else JNull;
    HexDigits(Str(sha));
    if forall b :: !G.ProcessBlocks(d, b) {
      assert !G.ProcessBlocks(d, G.NoContract) && !G.ProcessBlocks(d, G.WrongContractPath) && !G.ProcessBlocks(d, G.NoContractDigest);
      assert !G.ProcessBlocks(d, G.WrongNode) && !G.ProcessBlocks(d, G.BadCornerCount) && !G.ProcessBlocks(d, G.BadWorstCorner);
      assert !G.ProcessBlocks(d, G.NoPdkSignoff);
    }
  }

  // ---------- the gate ----------

  /** A benchmark asks for the sections it lists, and for all seven if it has no list. */
  predicate Asks(bench: Object, s: Section) {
    "required_metadata" in bench && bench["required_metadata"].JList? ==>
      var names := bench["required_metadata"].items;
      exists k :: 0 <= k < |names| && names[k] == JStr(SectionName(s))
  }

  /** A section as the gate wants it: no field of its table is absent or a note. */
  predicate SectionRecorded(metadata: G.Metadata, s: Section) {
    s in metadata && metadata[s].JObj? &&
    var d := metadata[s].fields;
    && (forall f :: f in RequiredFields(s) ==> Recorded(d, f.0) && !Note(d[f.0]))
    && (s == Process ==> ProcessBound(d))
  }

  predicate AssetCalibrated(assets: Object, name: string) {
    IsMapping(assets, name) &&
    var a := assets[name].fields;
    && "status" in a && a["status"] == JStr("calibrated")
    && IsText(a, "source") && !Note(a["source"])
    && IsText(a, "sha256") && !Note(a["sha256"])
    && IsText(a, "evidence") && !Note(a["evidence"])
  }

  /** Every asset that the benchmark lists, from the first to the last. */
  predicate AssetsCalibrated(bench: Object, calibration: Object) {
    "required_calibration_assets" in bench && bench["required_calibration_assets"].JList? ==>
      var names := bench["required_calibration_assets"].items;
      forall k :: 0 <= k < |names| ==>
        names[k].JStr? && IsMapping(calibration, "assets") && AssetCalibrated(calibration["assets"].fields, names[k].s)
  }

  /** A calibration object is calibrated, itself and in the assets asked for. */
  predicate CalibrationRecorded(metadata: G.Metadata, bench: Object) {
    Calibration in metadata && metadata[Calibration].JObj? ==>
      var calibration := metadata[Calibration].fields;
      "status" in calibration && calibration["status"] == JStr("calibrated") && AssetsCalibrated(bench, calibration)
  }

  /** What the configuration check ensures of the two lists. */
  predicate ListsAccepted(bench: Object) {
    && ("required_metadata" in bench ==> AllStrs(bench["required_metadata"]))
    && ("required_calibration_assets" in bench ==> AllStrs(bench["required_calibration_assets"]))
  }

  lemma Asked(bench: Object, s: Section)
    requires ListsAccepted(bench)
    ensures SectionName(s) in G.RequiredSections(bench) <==> Asks(bench, s)
  {
    EverySection(s);
    if "required_metadata" in bench {
      var v := bench["required_metadata"];
      assert forall k :: 0 <= k < |Strs(v)| ==> v.items[k] == JStr(Strs(v)[k]);
    } else {
      var i :| 0 <= i < |SECTIONS| && SECTIONS[i] == s;
      assert G.RequiredSections(bench)[i] == SectionName(s);
    }
  }

  lemma EverySection(s: Section)
    ensures s in SECTIONS && SectionOf(SectionName(s)) == Some(s)
  {
    match s {
      case Software => assert SECTIONS[0] == s;
      case Clocks => assert SECTIONS[1] == s;
      case Memory => assert SECTIONS[2] == s;
      case Thermal => assert SECTIONS[3] == s;
      case Power => assert SECTIONS[4] == s;
      case Process => assert SECTIONS[5] == s;
      case Calibration => assert SECTIONS[6] == s;
    }
  }

  lemma SectionCleared(metadata: G.Metadata, s: Section)
    ensures (forall b :: !G.SectionBlocks(metadata, SectionName(s), b)) <==> SectionRecorded(metadata, s)
  {
    EverySection(s);
    var data := G.SectionData(metadata, s);
    if !data.JObj? {
      assert G.SectionBlocks(metadata, SectionName(s), G.MissingSection(s));
    } else {
      ProcessCleared(data.fields);
      hide ProcessBound, G.ProcessBlocks, RequiredFields;
      if forall b :: !G.SectionBlocks(metadata, SectionName(s), b) {
        forall f | f in RequiredFields(s)
          ensures Recorded(data.fields, f.0) && !Note(data.fields[f.0])
        {
          assert !G.SectionBlocks(metadata, SectionName(s), G.BlockedField(s, f.0));
        }
        if s == Process {
          assert forall b :: !G.SectionBlocks(metadata, SectionName(s), b) ==> !G.ProcessBlocks(data.fields, b);
        }
      }
    }
  }

  lemma AssetCleared(assets: Object, name: string)
    ensures (forall b :: !G.AssetBlocks(assets, name, b)) <==> AssetCalibrated(assets, name)
  {
    var asset := Get(assets, name);
    if !asset.JObj? {
      assert G.AssetBlocks(assets, name, G.MissingAsset(name));
    } else {
      var a := asset.fields;
      ShownField(a, "source");
      ShownField(a, "sha256");
      ShownField(a, "evidence");
      hide G.Populated, IsText, Note;
      assert G.ASSET_FIELDS == ["source", "sha256", "evidence"];
      if forall b :: !G.AssetBlocks(assets, name, b) {
        assert !G.AssetBlocks(assets, name, G.UncalibratedAsset(name));
        assert !G.AssetBlocks(assets, name, G.BlockedAssetField(name, "source"));
        assert !G.AssetBlocks(assets, name, G.BlockedAssetField(name, "sha256"));
        assert !G.AssetBlocks(assets, name, G.BlockedAssetField(name, "evidence"));
      }
    }
  }

  lemma ShownField(a: Object, field: string)
    ensures G.Populated(Get(a, field)) <==> IsText(a, field) && !Note(a[field])
  {
    StripEmptyIffBlank(Str(Get(a, field)));
  }

  /**
   Clearing the gate, in the benchmark's own words: every section that it lists is recorded, and a
   calibration object covers every asset that it lists.
   */
  lemma ClearsIff(metadata: G.Metadata, bench: Object)
    requires ListsAccepted(bench)
    ensures G.Clears(metadata, bench) <==>
            (forall s :: Asks(bench, s) ==> SectionRecorded(metadata, s)) && CalibrationRecorded(metadata, bench)
  {
    SectionsCleared(metadata, bench);
    CalibrationCleared(metadata, bench);
    if G.Clears(metadata, bench) {
      forall name, b | name in G.RequiredSections(bench)
        ensures !G.SectionBlocks(metadata, name, b)
      {
        assert !G.GateBlocks(metadata, bench, b);
      }
      forall b
        ensures !G.CalibrationBlocks(G.SectionData(metadata, Calibration), G.RequiredAssets(bench), b)
      {
        assert !G.GateBlocks(metadata, bench, b);
      }
    }
  }

  lemma SectionsCleared(metadata: G.Metadata, bench: Object)
    requires ListsAccepted(bench)
    ensures (forall name, b :: name in G.RequiredSections(bench) ==> !G.SectionBlocks(metadata, name, b)) <==>
            forall s :: Asks(bench, s) ==> SectionRecorded(metadata, s)
  {
    hide SectionRecorded, Asks, G.RequiredSections, ListsAccepted;
    forall s
      ensures SectionName(s) in G.RequiredSections(bench) <==> Asks(bench, s)
      ensures (forall b :: !G.SectionBlocks(metadata, SectionName(s), b)) <==> SectionRecorded(metadata, s)
    {
      Asked(bench, s);
      SectionCleared(metadata, s);
    }
    if forall s :: Asks(bench, s) ==> SectionRecorded(metadata, s) {
      forall name, b | name in G.RequiredSections(bench)
        ensures !G.SectionBlocks(metadata, name, b)
      {
        if SectionOf(name).Some? {
          assert SectionName(SectionOf(name).value) == name;
        }
      }
    }
  }

  lemma CalibrationCleared(metadata: G.Metadata, bench: Object)
    requires ListsAccepted(bench)
    ensures (forall b :: !G.CalibrationBlocks(G.SectionData(metadata, Calibration), G.RequiredAssets(bench), b)) <==>
            CalibrationRecorded(metadata, bench)
  {
    var data, names := G.SectionData(metadata, Calibration), G.RequiredAssets(bench);
    if data.JObj? {
      AssetsCleared(bench, data.fields);
      hide AssetsCalibrated, G.AssetBlocks;
      if forall b :: !G.CalibrationBlocks(data, names, b) {
        assert !G.CalibrationBlocks(data, names, G.Uncalibrated);
        forall name, b | name in names
          ensures !G.AssetBlocks(G.AssetTable(data.fields), name, b)
        {
          assert !G.CalibrationBlocks(data, names, b);
        }
      } else if AssetsCalibrated(bench, data.fields) {
        var b :| G.CalibrationBlocks(data, names, b);
        assert forall name :: name in names ==> !G.AssetBlocks(G.AssetTable(data.fields), name, b);
      }
    }
  }

  lemma AssetsCleared(bench: Object, calibration: Object)
    requires ListsAccepted(bench)
    ensures (forall name, b :: name in G.RequiredAssets(bench) ==> !G.AssetBlocks(G.AssetTable(calibration), name, b)) <==>
            AssetsCalibrated(bench, calibration)
  {
    hide AssetCalibrated;
    var names, table := G.RequiredAssets(bench), G.AssetTable(calibration);
    forall name
      ensures (forall b :: !G.AssetBlocks(table, name, b)) <==> AssetCalibrated(table, name)
      ensures AssetCalibrated(table, name) ==> name in table
    {
      AssetCleared(table, name);
      NeedsEntry(table, name);
    }
    if "required_calibration_assets" in bench {
      var items := bench["required_calibration_assets"].items;
      assert |names| == |items| && forall k :: 0 <= k < |items| ==> items[k] == JStr(names[k]);
      assert AssetsCalibrated(bench, calibration) <==> forall k :: 0 <= k < |names| ==> AssetCalibrated(table, names[k]);
      assert forall k :: 0 <= k < |names| ==> names[k] in names;
    }
  }

  lemma NeedsEntry(assets: Object, name: string)
    ensures AssetCalibrated(assets, name) ==> name in assets
  {
  }

  // ---------- the report ----------

  /** The fields of each section and their types, as a report that claims success must have them. */
  predicate Schema(s: Section, d: Object) {
    match s
    case Software => IsText(d, "os") && IsText(d, "kernel") && IsText(d, "firmware") && IsText(d, "runtime") && IsText(d, "build_id")
    case Clocks =>
      && IsText(d, "source") && IsNumeric(d, "cpu_hz") && IsNumeric(d, "npu_hz") && IsNumeric(d, "memory_hz")
      && IsText(d, "governor")
    case Memory =>
      && IsText(d, "type") && IsWhole(d, "capacity_bytes") && IsNumeric(d, "bandwidth_bytes_per_second")
      && IsWhole(d, "channels")
    case Thermal => IsNumeric(d, "ambient_c") && IsNumeric(d, "die_c") && IsText(d, "cooling") && IsText(d, "throttle_state")
    case Power =>
      && IsText(d, "source") && IsNumeric(d, "watts") && IsText(d, "measurement_method") && IsWhole(d, "sample_count")
      && IsNumeric(d, "averaging_window_seconds")
    case Process => IsText(d, "node") && IsText(d, "pdk") && ProcessBound(d)
    case Calibration =>
      && IsText(d, "status") && IsText(d, "source") && IsText(d, "ground_truth_reference") && IsText(d, "last_calibrated_utc")
      && IsMapping(d, "assets")
  }

  predicate SectionTyped(metadata: G.Metadata, s: Section) {
    s in metadata && metadata[s].JObj? && Schema(s, metadata[s].fields)
  }

  predicate Fits(d: Object, f: (string, Type)) {
    match f.1
    case TStr => IsText(d, f.0)
    case TInt => IsWhole(d, f.0)
    case TNum => IsNumeric(d, f.0)
    case TBool => f.0 in d && d[f.0].JBool?
    case TList => f.0 in d && d[f.0].JList?
    case TDict => IsMapping(d, f.0)
  }

  lemma FieldsFit(s: Section, d: Object, fields: seq<(string, Type)>)
    ensures (forall x :: !R.FieldFaulty(s, d, fields, x)) <==> forall i :: 0 <= i < |fields| ==> Fits(d, fields[i])
  {
    forall f: (string, Type)
      ensures Fits(d, f) <==> HasType(Get(d, f.0), f.1) && !(f.1 == TStr && Get(d, f.0).JStr? && Strip(Get(d, f.0).s) == "")
    {
      StripEmptyIffBlank(Str(Get(d, f.0)));
    }
    if forall x :: !R.FieldFaulty(s, d, fields, x) {
      forall i | 0 <= i < |fields|
        ensures Fits(d, fields[i])
      {
        assert fields[i] in fields;
        assert !R.FieldFaulty(s, d, fields, R.FieldType(s, fields[i].0));
        assert !R.FieldFaulty(s, d, fields, R.FieldBlank(s, fields[i].0));
      }
    }
  }

  lemma ProcessFaultless(d: Object)
    ensures (forall x :: !R.ProcessFaulty(d, x)) <==> ProcessBound(d)
  {
    var contract := Get(d, "process_effects_contract");
    var sha := if contract.JObj? then Get(contract.fields, "sha256") else JNull;
    HexDigits(Str(sha));
    if forall x :: !R.ProcessFaulty(d, x) {
      assert !R.ProcessFaulty(d, R.ContractFault) && !R.ProcessFaulty(d, R.ContractPathFault);
      assert !R.ProcessFaulty(d, R.ContractDigestFault) && !R.ProcessFaulty(d, R.NodeFault);
      assert !R.ProcessFaulty(d, R.CornerCountFault) && !R.ProcessFaulty(d, R.WorstCornerFault);
      assert !R.ProcessFaulty(d, R.SignoffFault);
    }
  }

  lemma AllFit(s: Section, d: Object)
    ensures (forall i :: 0 <= i < |RequiredFields(s)| ==> Fits(d, RequiredFields(s)[i])) && (s == Process ==> ProcessBound(d)) <==>
            Schema(s, d)
  {
    var fields := RequiredFields(s);
    hide IsText, IsWhole, IsNumeric, ProcessBound;
    if forall i :: 0 <= i < |fields| ==> Fits(d, fields[i]) {
      assert Fits(d, fields[0]) && Fits(d, fields[1]) && Fits(d, fields[2]) && Fits(d, fields[3]);
      assert |fields| > 4 ==> Fits(d, fields[4]);
      assert |fields| > 5 ==> Fits(d, fields[5]);
    }
    if s == Process && ProcessBound(d) {
      ProcessTexts(d);
    }
  }

  /** Two texts and the types of the bound process section follow from what binds it. */
  lemma ProcessTexts(d: Object)
    requires ProcessBound(d)
    ensures IsWhole(d, "process_corner_count") && IsMapping(d, "process_effects_contract")
    ensures IsText(d, "worst_process_corner") && IsText(d, "pdk_signoff_claim")
  {
    assert d["worst_process_corner"].s[0] == "14a_"[0] == '1' && '1' in d["worst_process_corner"].s;
    assert ("pdk" + "_extracted_timing_power_thermal_signoff_passed")[0] == 'p' && 'p' in d["pdk_signoff_claim"].s;
  }

  /** The report finds no fault in a section exactly when the section fits its schema. */
  lemma SectionFaultless(metadata: G.Metadata, s: Section)
    ensures (forall x :: !R.SectionFaulty(metadata, s, x)) <==> SectionTyped(metadata, s)
  {
    var data := G.SectionData(metadata, s);
    if !data.JObj? {
      assert R.SectionFaulty(metadata, s, R.SectionMissing(s));
    } else {
      FieldsFit(s, data.fields, RequiredFields(s));
      ProcessFaultless(data.fields);
      AllFit(s, data.fields);
      hide Schema, ProcessBound, R.FieldFaulty, R.ProcessFaulty, RequiredFields, Fits;
      if forall x :: !R.SectionFaulty(metadata, s, x) {
        assert forall x :: !R.SectionFaulty(metadata, s, x) ==> !R.FieldFaulty(s, data.fields, RequiredFields(s), x);
        assert s == Process ==> forall x :: !R.SectionFaulty(metadata, s, x) ==> !R.ProcessFaulty(data.fields, x);
      }
    }
  }

  /** Visible text that does not begin with the prefix of a note. */
  predicate Evident(d: Object, field: string) {
    IsText(d, field) && !StartsWith(d[field].s, "blocked-")
  }

  /** The top level of a calibration that a report accepts. */
  predicate CalibrationEvident(calibration: Json) {
    calibration.JObj? &&
    var c := calibration.fields;
    && "status" in c && c["status"] == JStr("calibrated")
    && Evident(c, "source") && Evident(c, "ground_truth_reference") && Evident(c, "last_calibrated_utc")
    && IsMapping(c, "assets")
  }

  lemma ShownEvidence(d: Object, field: string)
    ensures G.Evidenced(Get(d, field)) <==> Evident(d, field)
  {
    StripEmptyIffBlank(Str(Get(d, field)));
  }

  predicate AssetEvident(assets: Object, name: string) {
    IsMapping(assets, name) &&
    var a := assets[name].fields;
    && "status" in a && a["status"] == JStr("calibrated")
    && Evident(a, "source") && Evident(a, "sha256") && Evident(a, "evidence")
  }

  /** A calibration that a report accepts, with every asset that the benchmark lists. */
  predicate CalibrationAccepted(calibration: Json, bench: Object) {
    && CalibrationEvident(calibration)
    && ("required_calibration_assets" in bench && bench["required_calibration_assets"].JList? ==>
          var names := bench["required_calibration_assets"].items;
          forall k :: 0 <= k < |names| ==>
            names[k].JStr? && AssetEvident(calibration.fields["assets"].fields, names[k].s))
  }

  predicate AboutAsset(f: G.CalibrationFault) {
    f.AssetMissing? || f.AssetStatusFault? || f.AssetFieldFault?
  }

  lemma TopEvident(calibration: Json, assets: seq<string>)
    ensures (forall f :: AboutAsset(f) || !G.CalibrationFaulty(calibration, assets, f)) <==>
            CalibrationEvident(calibration)
  {
    if !calibration.JObj? {
      assert G.CalibrationFaulty(calibration, assets, G.NoCalibration);
    } else {
      var c := calibration.fields;
      assert G.TOP_FIELDS == ["source", "ground_truth_reference", "last_calibrated_utc"];
      assert G.TOP_FIELDS[0] in G.TOP_FIELDS && G.TOP_FIELDS[1] in G.TOP_FIELDS && G.TOP_FIELDS[2] in G.TOP_FIELDS;
      forall field
        ensures G.Evidenced(Get(c, field)) <==> Evident(c, field)
      {
        ShownEvidence(c, field);
      }
      hide G.Evidenced, Evident;
      if forall f :: AboutAsset(f) || !G.CalibrationFaulty(calibration, assets, f) {
        assert !G.CalibrationFaulty(calibration, assets, G.StatusFault) && !G.CalibrationFaulty(calibration, assets, G.AssetsFault);
        forall field | field in G.TOP_FIELDS
          ensures Evident(c, field)
        {
          assert !G.CalibrationFaulty(calibration, assets, G.TopFieldFault(field));
        }
      }
    }
  }

  lemma AssetFaultless(assets: Object, name: string)
    ensures (forall f :: !G.AssetFaulty(assets, name, f)) <==> AssetEvident(assets, name)
  {
    var asset := Get(assets, name);
    if !asset.JObj? {
      assert G.AssetFaulty(assets, name, G.AssetMissing(name));
    } else {
      var a := asset.fields;
      ShownEvidence(a, "source");
      ShownEvidence(a, "sha256");
      ShownEvidence(a, "evidence");
      hide G.Evidenced, Evident;
      assert G.ASSET_FIELDS == ["source", "sha256", "evidence"];
      if forall f :: !G.AssetFaulty(assets, name, f) {
        assert !G.AssetFaulty(assets, name, G.AssetStatusFault(name));
        assert !G.AssetFaulty(assets, name, G.AssetFieldFault(name, "source"));
        assert !G.AssetFaulty(assets, name, G.AssetFieldFault(name, "sha256"));
        assert !G.AssetFaulty(assets, name, G.AssetFieldFault(name, "evidence"));
      }
    }
  }

  /** The report's calibration check, in the benchmark's own words. */
  lemma CalibratedIff(calibration: Json, bench: Object)
    requires ListsAccepted(bench)
    ensures G.Calibrated(calibration, G.RequiredAssets(bench)) <==> CalibrationAccepted(calibration, bench)
  {
    var names := G.RequiredAssets(bench);
    TopEvident(calibration, names);
    if CalibrationEvident(calibration) {
      var table := G.AssetTable(calibration.fields);
      assert table == calibration.fields["assets"].fields;
      forall name
        ensures (forall f :: !G.AssetFaulty(table, name, f)) <==> AssetEvident(table, name)
      {
        AssetFaultless(table, name);
      }
      hide AssetEvident, CalibrationEvident, G.AssetFaulty;
      if "required_calibration_assets" in bench {
        var items := bench["required_calibration_assets"].items;
        assert |names| == |items| && forall k :: 0 <= k < |items| ==> items[k] == JStr(names[k]);
        assert CalibrationAccepted(calibration, bench) <==> forall k :: 0 <= k < |names| ==> AssetEvident(table, names[k]);
        assert forall k :: 0 <= k < |names| ==> names[k] in names;
      }
      if G.Calibrated(calibration, names) {
        forall name, f | name in names
          ensures !G.AssetFaulty(table, name, f)
        {
          assert !G.CalibrationFaulty(calibration, names, f);
        }
      }
    }
  }
}
