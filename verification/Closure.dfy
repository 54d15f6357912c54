/** Release closure of one physical-design run: metrics, run manifest and waivers. */
module Closure {
  import opened Json

  const ZERO_METRICS := [
    "antenna__violating__nets", "antenna__violating__pins", "route__antenna_violation__count",
    "timing__hold_vio__count", "timing__setup_vio__count", "timing__hold_r2r_vio__count",
    "timing__setup_r2r_vio__count", "design__max_slew_violation__count", "design__max_cap_violation__count",
    "design__max_fanout_violation__count", "design__violations"
  ]

  const NONNEGATIVE_METRICS := [
    "timing__hold__wns", "timing__hold__tns", "timing__hold_r2r__ws",
    "timing__setup__wns", "timing__setup__tns", "timing__setup_r2r__ws"
  ]

  const CLEAN_CHECKS := ["antenna", "sta"]

  /** What `final/metrics.json` holds. */
  datatype MetricsFile = NoFile | NotJson | Payload(value: Json)

  /** The files of a run that closure reads; a file that does not exist is `None`. */
  datatype RunFiles = RunFiles(metrics: MetricsFile, runYaml: Option<Json>, waiversYaml: Option<Json>)

  datatype Failure =
    | MetricsMissing | MetricsInvalid | MetricsNotObject
    | MetricMissing(key: string) | MetricNotZero(key: string) | MetricNegative(key: string)
    | ChecksNotMapping | CheckNotClean(check: string)
    | WaiverOpen(check: string)

  /** `load_yaml`: a missing file or another kind of document reads as an empty mapping. */
  function LoadYaml(file: Option<Json>): Object {
    if file.Some? && file.value.JObj? then file.value.fields else map[]
  }

  // ---------- metrics ----------

  method LoadMetrics(file: MetricsFile) returns (metrics: Object, failures: seq<Failure>)
    ensures metrics == if file.Payload? && file.value.JObj? then file.value.fields else map[]
    ensures failures == [] <==> file.Payload? && file.value.JObj?
  {
    match file {
      case NoFile => return map[], [MetricsMissing];
      case NotJson => return map[], [MetricsInvalid];
      case Payload(value) =>
        if !value.JObj? {
          return map[], [MetricsNotObject];
        }
        return value.fields, [];
    }
  }

  predicate MetricFails(metrics: Object, f: Failure) {
    match f
    case MetricMissing(key) => (key in ZERO_METRICS || key in NONNEGATIVE_METRICS) && !IsNumber(Get(metrics, key))
    case MetricNotZero(key) => key in ZERO_METRICS && IsNumber(Get(metrics, key)) && Number(Get(metrics, key)) != 0.0
    case MetricNegative(key) => key in NONNEGATIVE_METRICS && IsNumber(Get(metrics, key)) && Number(Get(metrics, key)) < 0.0
    case _ => false
  }

  /** `numeric_metric`: a missing number is reported in the caller's list. */
  method NumericMetric(metrics: Object, key: string, failures: seq<Failure>) returns (value: Option<real>, r: seq<Failure>)
    ensures value.Some? <==> IsNumber(Get(metrics, key))
    ensures value.Some? ==> value.value == Number(Get(metrics, key))
    ensures r == failures + if value.None? then [MetricMissing(key)] else []
  {
    var v := Get(metrics, key);
    if !IsNumber(v) {
      return None, failures + [MetricMissing(key)];
    }
    return Some(Number(v)), failures;
  }

  method ZeroMetrics(metrics: Object, given: seq<Failure>) returns (r: seq<Failure>)
    ensures forall f :: f in r <==> f in given || (MetricFails(metrics, f) && !f.MetricNegative? && f.key in ZERO_METRICS)
  {
    r := given;
    for i := 0 to |ZERO_METRICS|
      invariant forall f :: f in r <==> f in given || (MetricFails(metrics, f) && !f.MetricNegative? && f.key in ZERO_METRICS[..i])
    {
      var key := ZERO_METRICS[i];
      assert ZERO_METRICS[..i + 1] == ZERO_METRICS[..i] + [key];
      var value, grown := NumericMetric(metrics, key, r);
      r := grown;
      if value.Some? && value.value != 0.0 {
        r := r + [MetricNotZero(key)];
      }
    }
    assert ZERO_METRICS[..|ZERO_METRICS|] == ZERO_METRICS;
  }

  method NonnegativeMetrics(metrics: Object, given: seq<Failure>) returns (r: seq<Failure>)
    ensures forall f :: f in r <==> f in given || (MetricFails(metrics, f) && !f.MetricNotZero? && f.key in NONNEGATIVE_METRICS)
  {
    r := given;
    for i := 0 to |NONNEGATIVE_METRICS|
      invariant forall f :: f in r <==>
                  f in given || (MetricFails(metrics, f) && !f.MetricNotZero? && f.key in NONNEGATIVE_METRICS[..i])
    {
      var key := NONNEGATIVE_METRICS[i];
      assert NONNEGATIVE_METRICS[..i + 1] == NONNEGATIVE_METRICS[..i] + [key];
      var value, grown := NumericMetric(metrics, key, r);
      r := grown;
      if value.Some? && value.value < 0.0 {
        r := r + [MetricNegative(key)];
      }
    }
    assert NONNEGATIVE_METRICS[..|NONNEGATIVE_METRICS|] == NONNEGATIVE_METRICS;
  }

  method CheckMetrics(metrics: Object) returns (failures: seq<Failure>)
    ensures forall f :: f in failures <==> MetricFails(metrics, f)
  {
    failures := ZeroMetrics(metrics, []);
    failures := NonnegativeMetrics(metrics, failures);
  }

  // ---------- run manifest ----------

  /** `checks.get(check, {}).get("status") if isinstance(checks.get(check), dict) else None` */
  function CheckStatus(checks: Object, check: string): Json {
    if Get(checks, check).JObj? then Get(Get(checks, check).fields, "status") else JNull
  }

  predicate CheckClean(checks: Object, check: string) {
    CheckStatus(checks, check) == JStr("clean")
  }

  predicate RunManifestClean(file: Option<Json>) {
    var checks := GetOr(LoadYaml(file), "checks", JObj(map[]));
    checks.JObj? && forall c :: c in CLEAN_CHECKS ==> CheckClean(checks.fields, c)
  }

  method CheckRunManifest(file: Option<Json>) returns (failures: seq<Failure>)
    ensures failures == [] <==> RunManifestClean(file)
    ensures var checks := GetOr(LoadYaml(file), "checks", JObj(map[]));
            checks.JObj? ==> forall f :: f in failures <==>
                               f.CheckNotClean? && f.check in CLEAN_CHECKS && !CheckClean(checks.fields, f.check)
  {
    var checks := GetOr(LoadYaml(file), "checks", JObj(map[]));
    if !checks.JObj? {
      return [ChecksNotMapping];
    }
    failures := [];
    for i := 0 to |CLEAN_CHECKS|
      invariant forall f :: f in failures <==>
                  f.CheckNotClean? && f.check in CLEAN_CHECKS[..i] && !CheckClean(checks.fields, f.check)
    {
      var check := CLEAN_CHECKS[i];
      assert CLEAN_CHECKS[..i + 1] == CLEAN_CHECKS[..i] + [check];
      if CheckStatus(checks.fields, check) != JStr("clean") {
        failures := failures + [CheckNotClean(check)];
      }
    }
    assert CLEAN_CHECKS[..|CLEAN_CHECKS|] == CLEAN_CHECKS;
    if !RunManifestClean(file) {
      var c :| c in CLEAN_CHECKS && !CheckClean(checks.fields, c);
      assert CheckNotClean(c) in failures;
    }
    if failures != [] {
      assert failures[0] in failures;
    }
  }

  // ---------- waivers ----------

  /** A list or mapping cannot be looked up in a set: the membership test raises. */
  predicate Unhashable(v: Json) {
    v.JList? || v.JObj?
  }

  predicate WaiverRaises(waiver: Json) {
    waiver.JObj? && Unhashable(Get(waiver.fields, "check"))
  }

  /** A waiver of a check that must be clean, not closed. */
  predicate WaiverIsOpen(waiver: Json) {
    && waiver.JObj? && NonEmptyStr(Get(waiver.fields, "check")) && Get(waiver.fields, "check").s in CLEAN_CHECKS
    && Get(waiver.fields, "status") != JStr("closed_release_clean")
  }

  function Waivers(file: Option<Json>): seq<Json> {
    var waivers := Get(LoadYaml(file), "waivers");
    if waivers.JList? then waivers.items else []
  }

  method CheckWaivers(file: Option<Json>) returns (failures: Option<seq<Failure>>)
    ensures failures.None? <==> exists w :: w in Waivers(file) && WaiverRaises(w)
    ensures failures.Some? ==> (failures.value == [] <==> forall w :: w in Waivers(file) ==> !WaiverIsOpen(w))
  {
    var waivers := Waivers(file);
    var found: seq<Failure> := [];
    for i := 0 to |waivers|
      invariant forall j :: 0 <= j < i ==> !WaiverRaises(waivers[j])
      invariant found == [] <==> forall j :: 0 <= j < i ==> !WaiverIsOpen(waivers[j])
    {
      var w := waivers[i];
      assert w in waivers;
      if w.JObj? {
        var check := Get(w.fields, "check");
        if Unhashable(check) {
          return None;
        }
        if check.JStr? && check.s in CLEAN_CHECKS && Get(w.fields, "status") != JStr("closed_release_clean") {
          found := found + [WaiverOpen(check.s)];
        }
      }
    }
    failures := Some(found);
  }

  // ---------- the whole closure check ----------

  predicate MetricsClean(metrics: Object) {
    && (forall key :: key in ZERO_METRICS ==> IsNumber(Get(metrics, key)) && Number(Get(metrics, key)) == 0.0)
    && (forall key :: key in NONNEGATIVE_METRICS ==> IsNumber(Get(metrics, key)) && Number(Get(metrics, key)) >= 0.0)
  }

  predicate Raises(files: RunFiles) {
    exists w :: w in Waivers(files.waiversYaml) && WaiverRaises(w)
  }

  /** A run whose closure check reports nothing: an empty metrics object is let through unchecked. */
  predicate Clean(files: RunFiles) {
    && files.metrics.Payload? && files.metrics.value.JObj?
    && (files.metrics.value.fields == map[] || MetricsClean(files.metrics.value.fields))
    && RunManifestClean(files.runYaml)
    && forall w :: w in Waivers(files.waiversYaml) ==> !WaiverIsOpen(w)
  }

  /** `validate_release_closure_metrics`: it reports nothing exactly of a clean run. */
  method ValidateReleaseClosure(files: RunFiles) returns (failures: Option<seq<Failure>>)
    ensures failures.None? <==> Raises(files)
    ensures failures.Some? ==> (failures.value == [] <==> Clean(files))
  {
    var metrics, found := LoadMetrics(files.metrics);
    if metrics != map[] {
      var more := CheckMetrics(metrics);
      EmptyIffClean(metrics, more);
      found := found + more;
    }
    var manifest := CheckRunManifest(files.runYaml);
    var waivers := CheckWaivers(files.waiversYaml);
    if waivers.None? {
      return None;
    }
    failures := Some(found + manifest + waivers.value);
  }

  lemma EmptyIffClean(metrics: Object, failures: seq<Failure>)
    requires forall f :: f in failures <==> MetricFails(metrics, f)
    ensures failures == [] <==> MetricsClean(metrics)
  {
    if failures == [] {
      forall key | key in ZERO_METRICS
        ensures IsNumber(Get(metrics, key)) && Number(Get(metrics, key)) == 0.0
      {
        assert MetricMissing(key) !in failures && MetricNotZero(key) !in failures;
      }
      forall key | key in NONNEGATIVE_METRICS
        ensures IsNumber(Get(metrics, key)) && Number(Get(metrics, key)) >= 0.0
      {
        assert MetricMissing(key) !in failures && MetricNegative(key) !in failures;
      }
    } else {
      assert failures[0] in failures;
    }
  }

  /** The exception: with an empty object no metric is checked at all. */
  lemma EmptyMetricsPass(files: RunFiles)
    requires files.metrics == Payload(JObj(map[]))
    requires RunManifestClean(files.runYaml) && Waivers(files.waiversYaml) == []
    ensures Clean(files) && !Raises(files) && !MetricsClean(map[])
  {
    assert ZERO_METRICS[0] in ZERO_METRICS;
  }
}
