/** `validate_config` and `selected_benchmarks`. */
module Config {
  import opened Json
  import opened Vocabulary
  import D = Dependencies
  import opened Host
  import opened Sequences

  // ---------- acceptance of one benchmark ----------

  /** Optional list field. */
  predicate OptionalList(d: Object, key: string) {
    key in d ==> d[key].JList?
  }

  predicate OptionalNonEmptyStrs(d: Object, key: string) {
    key in d ==> NonEmptyStrs(d[key])
  }

  predicate GateAccepted(g: Json) {
    g.JObj? && NonEmptyStr(Get(g.fields, "metric")) && KnownOp(Get(g.fields, "op")) && IsNumber(Get(g.fields, "value"))
  }

  /** A field that is a list of non-empty strings; an empty string or object passes too, as it iterates over nothing. */
  predicate FalsyOrNonEmptyStrs(d: Object, key: string) {
    var v := GetOr(d, key, JList([]));
    NonEmptyStrs(v) || v == JStr("") || v == JObj(map[])
  }

  predicate MarkersAccepted(v: Json) {
    v.JNull? || (v.JObj? && forall name :: name in v.fields ==> name != "" && NonEmptyStrs(v.fields[name]))
  }

  predicate ProofAccepted(v: Json) {
    v.JObj? &&
    var p := v.fields;
    && (Truthy(Get(p, "schema")) ==> Get(p, "schema").JStr?)
    && (Truthy(Get(p, "accelerator_name")) ==> Get(p, "accelerator_name").JStr?)
    && (Truthy(Get(p, "required_files")) ==> Get(p, "required_files").JList?)
    && FalsyOrNonEmptyStrs(p, "required_model_artifacts")
    && FalsyOrNonEmptyStrs(p, "required_json_fields")
    && (!Get(p, "max_cpu_fallback_percent").JNull? ==> IsJsonNumber(Get(p, "max_cpu_fallback_percent")))
    && (!Get(p, "max_unsupported_op_count").JNull? ==> Get(p, "max_unsupported_op_count").JInt?)
    && MarkersAccepted(Get(p, "required_transcript_markers"))
  }

  predicate AssetAccepted(v: Json) {
    D.Asset(v) &&
    var a := v.fields;
    && ("pipeline_visible" in a ==> a["pipeline_visible"].JBool?)
    && ("release_blocking" in a ==> a["release_blocking"].JBool?)
    && !(Get(a, "placeholder_allowed") == JBool(true) && GetOr(a, "release_blocking", JBool(true)) == JBool(true))
    && ("generator" in a ==> a["generator"].JObj? && AllStrs(Get(a["generator"].fields, "command")))
    && ("proof" in a ==> ProofAccepted(a["proof"]))
  }

  predicate BenchAccepted(v: Json) {
    v.JObj? &&
    var b := v.fields;
    && "name" in b && "suite" in b && "version" in b && "command" in b && "primary_metric" in b && "units" in b && "parser" in b
    && NonEmptyStr(b["name"])
    && AllStrs(b["command"])
    && ParserOf(b["parser"]).Some?
    && ("provenance" in b ==> ProvenanceOf(b["provenance"]).Some?)
    && OptionalNonEmptyStrs(b, "required_metadata")
    && OptionalNonEmptyStrs(b, "required_metrics")
    && OptionalNonEmptyStrs(b, "required_calibration_assets")
    && OptionalList(b, "metric_gates")
    && (forall g :: g in Items(b, "metric_gates") ==> GateAccepted(g))
    && OptionalList(b, "requires")
    && OptionalList(b, "required_files")
    && OptionalList(b, "model_artifacts")
    && OptionalList(b, "capability_artifacts")
    && (forall a :: a in Items(b, "model_artifacts") ==> AssetAccepted(a))
    && (forall a :: a in Items(b, "capability_artifacts") ==> AssetAccepted(a))
  }

  function NameOf(v: Json): string
    requires BenchAccepted(v)
  {
    v.fields["name"].s
  }

  // ---------- acceptance of the whole configuration ----------

  ghost predicate ConfigAccepted(benches: seq<Json>) {
    && (forall v :: v in benches ==> BenchAccepted(v))
    && forall i, j :: 0 <= i < j < |benches| ==> NameOf(benches[i]) != NameOf(benches[j])
  }

  method CheckStrings(items: seq<Json>) returns (ok: bool)
    ensures ok <==> forall x :: x in items ==> NonEmptyStr(x)
  {
    for i := 0 to |items|
      invariant forall j :: 0 <= j < i ==> NonEmptyStr(items[j])
    {
      if !items[i].JStr? || items[i].s == "" {
        assert items[i] in items;
        return false;
      }
    }
    ok := true;
  }

  /** An optional list of non-empty strings. */
  method CheckList(b: Object, key: string) returns (ok: bool)
    ensures ok <==> OptionalNonEmptyStrs(b, key)
  {
    if key !in b {
      return true;
    }
    if !b[key].JList? {
      return false;
    }
    ok := CheckStrings(b[key].items);
  }

  /** A list in a proof: a false value that is no list still raises when it cannot be iterated. */
  method CheckProofList(p: Object, key: string) returns (ok: bool)
    ensures ok <==> FalsyOrNonEmptyStrs(p, key)
  {
    var v := GetOr(p, key, JList([]));
    match v {
      case JList(items) => ok := CheckStrings(items);
      case JStr(s) => ok := s == "";
      case JObj(fields) => ok := fields == map[];
      case _ => ok := false;
    }
  }

  method CheckGates(gates: seq<Json>) returns (ok: bool)
    ensures ok <==> forall g :: g in gates ==> GateAccepted(g)
  {
    for i := 0 to |gates|
      invariant forall j :: 0 <= j < i ==> GateAccepted(gates[j])
    {
      var gate := gates[i];
      assert gate in gates;
      if !gate.JObj? {
        return false;
      }
      var metric := Get(gate.fields, "metric");
      if !metric.JStr? || metric.s == "" {
        return false;
      }
      if !KnownOp(Get(gate.fields, "op")) {
        return false;
      }
      if !IsNumber(Get(gate.fields, "value")) {
        return false;
      }
    }
    ok := true;
  }

  /** The loop over the transcript markers. */
  method CheckMarkers(v: Json) returns (ok: bool)
    ensures ok <==> MarkersAccepted(v)
  {
    if v.JNull? {
      return true;
    }
    if !v.JObj? {
      return false;
    }
    var names := v.fields.Keys;
    while names != {}
      invariant names <= v.fields.Keys
      invariant forall name :: name in v.fields && name !in names ==> name != "" && NonEmptyStrs(v.fields[name])
      decreases |names|
    {
      var name :| name in names;
      names := names - {name};
      if name == "" || !v.fields[name].JList? {
        return false;
      }
      var good := CheckStrings(v.fields[name].items);
      if !good {
        return false;
      }
    }
    ok := true;
  }

  method CheckProof(v: Json) returns (ok: bool)
    ensures ok <==> ProofAccepted(v)
  {
    if !v.JObj? {
      return false;
    }
    var p := v.fields;
    if Truthy(Get(p, "schema")) && !Get(p, "schema").JStr? {
      return false;
    }
    if Truthy(Get(p, "accelerator_name")) && !Get(p, "accelerator_name").JStr? {
      return false;
    }
    if Truthy(Get(p, "required_files")) && !Get(p, "required_files").JList? {
      return false;
    }
    var models := CheckProofList(p, "required_model_artifacts");
    var fields := CheckProofList(p, "required_json_fields");
    var markers := CheckMarkers(Get(p, "required_transcript_markers"));
    var fallback, unsupported := Get(p, "max_cpu_fallback_percent"), Get(p, "max_unsupported_op_count");
    ok := models && fields && markers && (fallback.JNull? || fallback.JInt? || fallback.JFloat?) && (unsupported.JNull? || unsupported.JInt?);
  }

  /** The loop over the artifacts of a benchmark. */
  method CheckAssets(assets: seq<Json>) returns (ok: bool)
    ensures ok <==> forall a :: a in assets ==> AssetAccepted(a)
  {
    for i := 0 to |assets|
      invariant forall j :: 0 <= j < i ==> AssetAccepted(assets[j])
    {
      assert assets[i] in assets;
      var good := CheckAsset(assets[i]);
      if !good {
        return false;
      }
    }
    ok := true;
  }

  method CheckAsset(v: Json) returns (ok: bool)
    ensures ok <==> AssetAccepted(v)
  {
    if !v.JObj? || !Get(v.fields, "path").JStr? {
      return false;
    }
    var a := v.fields;
    if ("pipeline_visible" in a && !a["pipeline_visible"].JBool?) || ("release_blocking" in a && !a["release_blocking"].JBool?) {
      return false;
    }
    if Get(a, "placeholder_allowed") == JBool(true) && GetOr(a, "release_blocking", JBool(true)) == JBool(true) {
      return false;
    }
    if "generator" in a {
      if !a["generator"].JObj? || !Get(a["generator"].fields, "command").JList? {
        return false;
      }
      var command := Get(a["generator"].fields, "command");
      var strings := CheckParts(command.items);
      if !strings {
        return false;
      }
    }
    ok := true;
    if "proof" in a {
      ok := CheckProof(a["proof"]);
    }
  }

  method CheckParts(items: seq<Json>) returns (ok: bool)
    ensures ok <==> AllStrs(JList(items))
  {
    for i := 0 to |items|
      invariant forall j :: 0 <= j < i ==> items[j].JStr?
    {
      assert items[i] in items;
      if !items[i].JStr? {
        return false;
      }
    }
    ok := true;
  }

  /** The head of the loop body: the required keys and the fields that are no lists. */
  predicate HeadAccepted(b: Object) {
    && "name" in b && "suite" in b && "version" in b && "command" in b && "primary_metric" in b && "units" in b && "parser" in b
    && NonEmptyStr(b["name"])
    && AllStrs(b["command"])
    && ParserOf(b["parser"]).Some?
    && ("provenance" in b ==> ProvenanceOf(b["provenance"]).Some?)
  }

  method CheckHead(b: Object) returns (ok: bool)
    ensures ok <==> HeadAccepted(b)
  {
    var keys := ["name", "suite", "version", "command", "primary_metric", "units", "parser"];
    for i := 0 to |keys|
      invariant forall j :: 0 <= j < i ==> keys[j] in b
    {
      if keys[i] !in b {
        return false;
      }
    }
    assert keys[0] in b && keys[1] in b && keys[2] in b && keys[3] in b && keys[4] in b && keys[5] in b && keys[6] in b;
    if !b["name"].JStr? || b["name"].s == "" {
      return false;
    }
    if !b["command"].JList? {
      return false;
    }
    var command := CheckParts(b["command"].items);
    if !command || ParserOf(b["parser"]).None? {
      return false;
    }
    ok := "provenance" in b ==> ProvenanceOf(b["provenance"]).Some?;
  }

  /** The loop body of `validate_config` for one benchmark; a raised error is the answer false. */
  method CheckBench(v: Json) returns (ok: bool)
    ensures ok <==> BenchAccepted(v)
  {
    if !v.JObj? {
      return false;
    }
    var b := v.fields;
    hide GateAccepted, AssetAccepted;
    var head := CheckHead(b);
    var metadata := CheckList(b, "required_metadata");
    var metrics := CheckList(b, "required_metrics");
    var calibration := CheckList(b, "required_calibration_assets");
    if !head || !metadata || !metrics || !calibration {
      return false;
    }
    if ("metric_gates" in b && !b["metric_gates"].JList?) || ("requires" in b && !b["requires"].JList?)
       || ("required_files" in b && !b["required_files"].JList?) || ("model_artifacts" in b && !b["model_artifacts"].JList?)
       || ("capability_artifacts" in b && !b["capability_artifacts"].JList?) {
      return false;
    }
    var gates := CheckGates(Items(b, "metric_gates"));
    var models := CheckAssets(Items(b, "model_artifacts"));
    var capabilities := CheckAssets(Items(b, "capability_artifacts"));
    ok := gates && models && capabilities;
  }

  /** `validate_config`: one pass over the benchmarks with the set of names seen. */
  method ValidateConfig(benches: seq<Json>) returns (ok: bool)
    ensures ok <==> ConfigAccepted(benches)
  {
    hide BenchAccepted, NameOf;
    var seen: set<string> := {};
    for i := 0 to |benches|
      invariant forall j :: 0 <= j < i ==> BenchAccepted(benches[j])
      invariant forall j, k :: 0 <= j < k < i ==> NameOf(benches[j]) != NameOf(benches[k])
      invariant forall n :: n in seen <==> exists j :: 0 <= j < i && NameOf(benches[j]) == n
    {
      var accepted := CheckBench(benches[i]);
      if !accepted {
        assert benches[i] in benches;
        return false;
      }
      if NameOf(benches[i]) in seen {
        return false;
      }
      seen := seen + {NameOf(benches[i])};
    }
    ok := true;
  }

  // ---------- selection ----------

  function Named(benches: seq<Json>, names: set<string>): (r: seq<Json>)
    requires forall v :: v in benches ==> BenchAccepted(v)
    ensures forall v :: v in r <==> v in benches && NameOf(v) in names
  {
    if benches == [] then []
    else
      assert benches == [benches[0]] + benches[1..];
      (if NameOf(benches[0]) in names then [benches[0]] else []) + Named(benches[1..], names)
  }

  /** `selected_benchmarks`, or nothing where it raises for an unknown name. */
  function Selected(benches: seq<Json>, names: set<string>): (r: Option<seq<Json>>)
    requires forall v :: v in benches ==> BenchAccepted(v)
    ensures r.None? <==> names != {} && "all" !in names && exists n :: n in names && forall v :: v in benches ==> NameOf(v) != n
    ensures r.Some? && (names == {} || "all" in names) ==> r.value == benches
    ensures r.Some? && names != {} && "all" !in names ==> forall v :: v in r.value <==> v in benches && NameOf(v) in names
  {
    if names == {} || "all" in names then Some(benches)
    else
      var chosen := Named(benches, names);
      if forall n | n in names :: exists v :: v in chosen && NameOf(v) == n then Some(chosen) else None
  }

  lemma {:induction false} NamedInOrder(benches: seq<Json>, names: set<string>)
    requires forall v :: v in benches ==> BenchAccepted(v)
    ensures Sub(Named(benches, names), benches)
  {
    hide BenchAccepted, NameOf;
    if benches != [] {
      var own := if NameOf(benches[0]) in names then [benches[0]] else [];
      NamedInOrder(benches[1..], names);
      SubWhole([benches[0]]);
      assert benches == [benches[0]] + benches[1..];
      SubAppend(own, [benches[0]], Named(benches[1..], names), benches[1..]);
    }
  }

  /** Every name asked for adds a benchmark. */
  lemma NamedSelectionNotEmpty(benches: seq<Json>, names: set<string>)
    requires forall v :: v in benches ==> BenchAccepted(v)
    requires names != {} && "all" !in names
    ensures Selected(benches, names).Some? ==> Selected(benches, names).value != []
  {
    hide BenchAccepted, NameOf;
    if Selected(benches, names).Some? {
      var n :| n in names;
      var v :| v in benches && NameOf(v) == n;
      assert v in Selected(benches, names).value;
    }
  }

  /** The selection is a subsequence of the configured benchmarks: each keeps its place and number of occurrences. */
  lemma SelectionKeepsOrder(benches: seq<Json>, names: set<string>)
    requires forall v :: v in benches ==> BenchAccepted(v)
    ensures var r := Selected(benches, names); r.Some? ==> Sub(r.value, benches)
  {
    NamedInOrder(benches, names);
    SubWhole(benches);
  }

  // ---------- what acceptance buys ----------

  /**
   The rule "a release-blocking artifact must not allow placeholders" is enforced with `is True`,
   but the run reads `placeholder_allowed` with `bool()`. An accepted release-blocking artifact
   can be available without a matching pinned hash exactly when it is unpinned and
   `placeholder_allowed` is a truthy value other than a boolean.
   */
  lemma ReleaseBlockingArtifactPinned(v: Json, env: Env)
    requires AssetAccepted(v) && D.ModelStatus(v.fields, env).Some?
    ensures var dep := D.ModelStatus(v.fields, env).value;
            var a := v.fields;
            dep.available && dep.releaseBlocking ==>
              (Truthy(Get(a, "sha256")) && Get(a, "sha256") == JStr(env.digest(Get(a, "path").s))
               <==> Truthy(Get(a, "sha256")) || !Truthy(Get(a, "placeholder_allowed")) || Get(a, "placeholder_allowed").JBool?)
  {
  }

  /** Such an artifact exists: `"placeholder_allowed": 1` passes the configuration check and needs no hash. */
  lemma PlaceholderLoophole(env: Env)
    requires env.isFile("m.tflite") && env.size("m.tflite") >= 1
    ensures var v := JObj(map["path" := JStr("m.tflite"), "placeholder_allowed" := JInt(1)]);
            && AssetAccepted(v)
            && D.ModelStatus(v.fields, env).Some?
            && D.ModelStatus(v.fields, env).value.available && D.ModelStatus(v.fields, env).value.releaseBlocking
  {
    var a: Object := map["path" := JStr("m.tflite"), "placeholder_allowed" := JInt(1)];
    assert "pipeline_visible" !in a && "release_blocking" !in a && "generator" !in a && "proof" !in a;
    assert "sha256" !in a && "placeholder_sha256" !in a && "min_size_bytes" !in a;
    assert |"path"| != |"placeholder_allowed"|;
  }
}
