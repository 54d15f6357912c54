/**
 What whole runs of the benchmark runner guarantee, for every configuration, metadata document,
 host and process outcome.
 */
module RunTheorems {
  import opened Json
  import opened Host
  import opened Vocabulary
  import opened Report
  import opened Runner
  import opened Execution
  import C = Config
  import D = Dependencies
  import G = MetadataGate
  import M = Metrics
  import P = Provision
  import E = GateEvidence

  // ---------- outcomes of one benchmark ----------

  /**
   The status of a real run: blocked exactly when something blocks it, passed exactly when nothing
   does and the run was clean, and otherwise a failure. "missing_dependencies" and the planning
   statuses are unreachable, and only blocked results are held back by strict mode.
   */
  lemma RealStatus(bench: Object, ctx: Context, env: Env, r: Result)
    requires C.BenchAccepted(JObj(bench)) && !ctx.dryRun
    requires OutcomeOf(bench, ctx, env, Some(r))
    ensures var deps := D.Statuses(bench, env, ctx.allowSmoke);
            && deps.Some?
            && (r.status == Known(Blocked) <==> !Ready(bench, ctx, deps.value))
            && (r.status == Known(Passed) <==> Ready(bench, ctx, deps.value) && RanClean(bench, deps.value, env))
            && (r.status == Known(Blocked) || r.status == Known(Passed) || IsFailure(r))
            && (IsHeldBack(r) <==> r.status == Known(Blocked))
  {
    var deps := D.Statuses(bench, env, ctx.allowSmoke).value;
    RanCleanIff(bench, deps, env);
    if !Ready(bench, ctx, deps) && D.BlockedAssets(deps) == [] {
      var q :| Blocks(bench, ctx, deps, q);
      assert q in r.blockedRequirements;
    }
  }

  lemma PlanStatus(bench: Object, ctx: Context, env: Env, r: Result)
    requires C.BenchAccepted(JObj(bench)) && ctx.dryRun
    requires OutcomeOf(bench, ctx, env, Some(r))
    ensures var deps := D.Statuses(bench, env, ctx.allowSmoke);
            && deps.Some?
            && (r.status == Known(Planned) || r.status == Known(PlannedMissingDeps) || r.status == Known(Blocked))
            && (r.status == Known(Planned) <==> D.AllAvailable(deps.value))
            && (IsHeldBack(r) <==> r.status != Known(Planned))
            && !IsFailure(r)
  {
    var deps := D.Statuses(bench, env, ctx.allowSmoke).value;
    D.FiltersCoverEverything(deps);
    PlannedRequirements(deps, r.blockedRequirements);
    if D.MissingDependencies(deps) == [] && D.BlockedAssets(deps) == [] {
      assert D.AllAvailable(deps) by {
        forall d | d in deps
          ensures d.available
        {
          assert D.IsArtifact(d.kind) || !D.IsArtifact(d.kind);
        }
      }
    }
  }

  lemma PlannedRequirements(deps: seq<D.Dep>, requirements: seq<Requirement>)
    requires forall q :: q in requirements <==> q.OnDependency? && q.dependency in D.DependencyBlockers(deps)
    ensures requirements == [] <==> D.DependencyBlockers(deps) == []
  {
    if requirements != [] {
      assert requirements[0] in requirements;
    }
    if D.DependencyBlockers(deps) != [] {
      assert OnDependency(D.DependencyBlockers(deps)[0]) in requirements;
    }
  }

  // ---------- when a result satisfies the validator ----------

  ghost predicate TextsAreStrings(bench: Object)
    requires C.BenchAccepted(JObj(bench))
  {
    && bench["suite"].JStr? && bench["version"].JStr? && bench["primary_metric"].JStr? && bench["units"].JStr?
    && GetOr(bench, "input_dataset", JStr("none")).JStr?
  }

  /** A figure that equals zero: Python's `==` takes false and 0.0 for zero too. */
  predicate ZeroAt(metrics: M.Metrics, key: string) {
    key in metrics && (metrics[key] == JInt(0) || metrics[key] == JFloat(0.0) || metrics[key] == JBool(false))
  }

  /** The validator's demands on the metrics of the NPU benchmark. */
  predicate NpuProof(metrics: M.Metrics) {
    && ZeroAt(metrics, "unsupported_op_count")
    && ZeroAt(metrics, "cpu_fallback_nodes")
    && "nnapi_delegated_nodes" in metrics
    && match metrics["nnapi_delegated_nodes"] {
       case JInt(n) => n > 0
       case JBool(b) => b
       case _ => false
       }
  }

  lemma ShapeClean(bench: Object, ctx: Context, deps: seq<D.Dep>, r: Result)
    requires C.BenchAccepted(JObj(bench))
    requires var base := Base(bench, ctx, deps);
             && r.text == base.text && r.command == base.command && r.dependencies == base.dependencies
             && r.artifacts == base.artifacts && r.provenance == base.provenance && r.parser == base.parser
    requires r.status.Known?
    ensures (forall f :: !ShapeFaulty(r, f)) <==> TextsAreStrings(bench)
  {
    assert TextsAreStrings(bench) <==> forall t :: t in r.text ==> r.text[t].JStr? by {
      assert r.text[Suite] == bench["suite"] && r.text[Version] == bench["version"] && r.text[Units] == bench["units"];
      assert r.text[PrimaryMetric] == bench["primary_metric"];
      assert r.text[InputDataset] == GetOr(bench, "input_dataset", JStr("none"));
    }
    forall t: TextField
      ensures t in r.text
    {
      match t {
        case Name => case Suite => case Version => case InputDataset => case PrimaryMetric => case Units =>
      }
    }
    if TextsAreStrings(bench) {
      assert AllStrs(r.command.value);
    } else {
      var t :| t in r.text && !r.text[t].JStr?;
      assert ShapeFaulty(r, TextType(t));
    }
  }

  lemma AssetsClean(frame: Frame, deps: seq<D.Dep>, r: Result)
    requires r.blockedAssets == D.BlockedAssets(deps)
    ensures (forall k: nat :: !OtherFaulty(frame, r, AssetId(k))) <==> D.GoodBlockerIds(deps)
  {
    if D.GoodBlockerIds(deps) {
      forall k: nat | k < |r.blockedAssets|
        ensures NonEmptyStr(r.blockedAssets[k].blockerId)
      {
        assert r.blockedAssets[k] in r.blockedAssets;
      }
    } else {
      var d :| d in deps && !d.available && D.IsArtifact(d.kind) && !NonEmptyStr(d.blockerId);
      assert D.AssetOf(d) in r.blockedAssets;
      var k :| 0 <= k < |r.blockedAssets| && r.blockedAssets[k] == D.AssetOf(d);
      assert OtherFaulty(frame, r, AssetId(k));
    }
  }

  /** What planning leaves in a result. */
  lemma PlanShape(bench: Object, ctx: Context, env: Env, r: Result)
    requires C.BenchAccepted(JObj(bench)) && ctx.dryRun
    requires OutcomeOf(bench, ctx, env, Some(r))
    ensures var deps := D.Statuses(bench, env, ctx.allowSmoke);
            && deps.Some?
            && (var base := Base(bench, ctx, deps.value);
                && r.text == base.text && r.command == base.command && r.dependencies == base.dependencies
                && r.artifacts == base.artifacts && r.provenance == base.provenance && r.parser == base.parser)
            && r.provenance == Known(DryRun) && r.status.Known? && r.status != Known(Passed)
            && r.blockedAssets == D.BlockedAssets(deps.value)
            && (r.status == Known(Blocked) ==> r.blockedAssets != [])
  {
  }

  lemma PlanOtherClean(frame: Frame, r: Result)
    requires IsDryRun(frame) && r.provenance == Known(DryRun) && (r.status == Known(Blocked) ==> r.blockedAssets != [])
    ensures (forall f :: !OtherFaulty(frame, r, f)) <==> forall k: nat :: !OtherFaulty(frame, r, AssetId(k))
    ensures forall f :: !SimulatorFaulty(frame, r, f)
  {
    assert forall f :: OtherFaulty(frame, r, f) ==> f.AssetId?;
  }

  /**
   A planned result satisfies the validator exactly when the configured descriptive fields are
   strings and every unavailable artifact has a non-empty blocker id.
   */
  lemma PlanSound(bench: Object, ctx: Context, env: Env, r: Result, frame: Frame)
    requires C.BenchAccepted(JObj(bench)) && ctx.dryRun && IsDryRun(frame)
    requires OutcomeOf(bench, ctx, env, Some(r))
    ensures D.Statuses(bench, env, ctx.allowSmoke).Some?
    ensures ResultSound(frame, r) <==>
            TextsAreStrings(bench) && P.IdsGiven(bench, env)
  {
    hide *;
    PlanShape(bench, ctx, env, r);
    P.IdsGivenIff(bench, env, ctx.allowSmoke);
    var deps := D.Statuses(bench, env, ctx.allowSmoke).value;
    ShapeClean(bench, ctx, deps, r);
    AssetsClean(frame, deps, r);
    PlanOtherClean(frame, r);
    SoundByGroups(frame, r);
  }

  /** No run outside L2 has an available dependency that is barred from release claims. */
  lemma DependenciesReleasable(bench: Object, env: Env, d: D.Dep)
    requires D.Statuses(bench, env, false).Some? && d in D.Statuses(bench, env, false).value && d.available
    ensures d.releaseClaimAllowed != Some(false)
  {
    var deps, list := D.Statuses(bench, env, false).value, D.StatusList(D.Sources(bench), env, false);
    var i :| 0 <= i < |deps| && deps[i] == d;
    assert list[i] == Some(d);
    D.AvailableMeansReleasable(D.Sources(bench)[i], env);
  }

  /** The metrics that a result records. */
  function RecordedMetrics(r: Result): M.Metrics {
    if HasObject(r.metrics) then r.metrics.value.fields else map[]
  }

  /** The conditions a passed result must meet beyond the runner's own checks. */
  ghost predicate PassedConditions(bench: Object, frame: Frame, metrics: M.Metrics)
    requires C.BenchAccepted(JObj(bench))
  {
    && ConfiguredProvenance(bench) != DryRun
    && E.CalibrationAccepted(frame.calibration, bench)
    && (bench["name"].s == "tflite_e1_npu" ==> NpuProof(metrics))
    && (ConfiguredProvenance(bench) == Simulator ==> M.SuccessParser(ParserFor(bench)))
  }

  /** A passed result as the runner builds it. */
  lemma PassedShape(bench: Object, ctx: Context, env: Env, r: Result)
    requires C.BenchAccepted(JObj(bench)) && !ctx.dryRun
    requires OutcomeOf(bench, ctx, env, Some(r)) && r.status == Known(Passed)
    ensures var deps := D.Statuses(bench, env, ctx.allowSmoke);
            && deps.Some? && D.AllAvailable(deps.value) && r.dependencies == deps
            && r.metrics == Some(JObj(ParsedMetrics(bench, deps.value, env)))
            && ParsedMetrics(bench, deps.value, env) != map[]
            && r.runMetadata == Some(RunMetadataOf(bench))
            && M.MetricsMet(ParsedMetrics(bench, deps.value, env), Items(bench, "required_metrics"), Items(bench, "metric_gates"))
            && r.missing == [] && r.blockedAssets == [] && r.blockedRequirements == []
            && r.provenance == Known(ConfiguredProvenance(bench))
            && r.text[Name] == bench["name"]
            && (forall k :: k in M.FORBIDDEN_KEYS ==> k !in ParsedMetrics(bench, deps.value, env))
            && (Get(ParsedMetrics(bench, deps.value, env), M.SUCCESS_KEY) == JBool(true) <==> M.SuccessParser(ParserFor(bench)))
  {
    RealStatus(bench, ctx, env, r);
    var deps := D.Statuses(bench, env, ctx.allowSmoke).value;
    ReadyHasNothingMissing(bench, ctx, deps);
    OutcomeExecuted(bench, ctx, env, r);
    ExecutedPassed(bench, ctx, deps, env, r);
    BaseName(bench, ctx, deps);
    hide OutcomeOf, Executed, Ready, RanClean, Base, M.ParseOutput, M.MetricsMet, D.Statuses, D.AllAvailable, C.BenchAccepted,
      ExecutionCommand, CommandOf, ParserFor, RunMetadataOf, ConfiguredProvenance;
    var process := env.run(ExecutionCommand(CommandOf(bench), deps));
    M.ParsedNotEmpty(ParserFor(bench), process.stdout);
    M.ParsedClaims(ParserFor(bench), process.stdout);
  }

  lemma OutcomeExecuted(bench: Object, ctx: Context, env: Env, r: Result)
    requires C.BenchAccepted(JObj(bench)) && !ctx.dryRun
    requires OutcomeOf(bench, ctx, env, Some(r)) && Ready(bench, ctx, D.Statuses(bench, env, ctx.allowSmoke).value)
    ensures Executed(bench, ctx, D.Statuses(bench, env, ctx.allowSmoke).value, env) == Some(r)
  {
    hide C.BenchAccepted, Executed, Ready, D.Statuses;
  }

  lemma BaseName(bench: Object, ctx: Context, deps: seq<D.Dep>)
    requires C.BenchAccepted(JObj(bench))
    ensures var base := Base(bench, ctx, deps);
            && base.dependencies == Some(deps) && base.missing == [] && base.blockedAssets == [] && base.blockedRequirements == []
            && Name in base.text && base.text[Name] == bench["name"]
            && (!ctx.dryRun ==> base.provenance == Known(ConfiguredProvenance(bench)))
  {
    hide ConfiguredProvenance, ParserFor;
  }

  /** What the success path makes of the base. */
  lemma ExecutedPassed(bench: Object, ctx: Context, deps: seq<D.Dep>, env: Env, r: Result)
    requires C.BenchAccepted(JObj(bench)) && Executed(bench, ctx, deps, env) == Some(r) && r.status == Known(Passed)
    ensures var process := env.run(ExecutionCommand(CommandOf(bench), deps));
            && process.Completed? && M.ParseOutput(ParserFor(bench), process.stdout) == M.Found(ParsedMetrics(bench, deps, env))
    ensures M.MetricsMet(ParsedMetrics(bench, deps, env), Items(bench, "required_metrics"), Items(bench, "metric_gates"))
    ensures r == Base(bench, ctx, deps).(status := Known(Passed), metrics := Some(JObj(ParsedMetrics(bench, deps, env))),
                                         runMetadata := Some(RunMetadataOf(bench)))
  {
    hide C.BenchAccepted, M.ParseOutput, M.MetricsMet, ExecutionCommand, CommandOf, ParserFor, CountsReadable, TextOf, ConfiguredProvenance;
  }

  lemma PassedFacts(frame: Frame, r: Result)
    requires IsReal(frame) && r.status == Known(Passed) && r.provenance.Known?
    requires HasObject(r.metrics) && r.metrics.value.fields != map[] && r.runMetadata.Some?
    requires M.MetricsMet(r.metrics.value.fields, r.runMetadata.value.requiredMetrics, r.runMetadata.value.gates)
    requires r.missing == [] && r.blockedAssets == []
    requires forall d :: d in Deps(r) ==> d.available && (frame.claimLevel != Known(L2ArchSim) ==> d.releaseClaimAllowed != Some(false))
    ensures (forall f :: !PassedFaulty(frame, r, f)) <==>
            r.provenance != Known(DryRun) && G.Calibrated(frame.calibration, r.runMetadata.value.assets)
  {
    var assets := r.runMetadata.value.assets;
    if r.provenance == Known(DryRun) {
      assert PassedFaulty(frame, r, PassedAsDryRun);
    } else if !G.Calibrated(frame.calibration, assets) {
      var c :| G.CalibrationFaulty(frame.calibration, assets, c);
      assert PassedFaulty(frame, r, CalibrationProblem(c));
    }
  }

  /** The validator's clauses on passed results, applied to what the runner builds. */
  lemma PassedClean(bench: Object, ctx: Context, env: Env, r: Result, frame: Frame)
    requires C.BenchAccepted(JObj(bench)) && !ctx.dryRun && IsReal(frame)
    requires ctx.allowSmoke ==> frame.claimLevel == Known(L2ArchSim)
    requires OutcomeOf(bench, ctx, env, Some(r)) && r.status == Known(Passed)
    ensures (forall f :: !PassedFaulty(frame, r, f)) <==>
            ConfiguredProvenance(bench) != DryRun && E.CalibrationAccepted(frame.calibration, bench)
  {
    E.CalibratedIff(frame.calibration, bench);
    PassedShape(bench, ctx, env, r);
    forall d | d in Deps(r) && frame.claimLevel != Known(L2ArchSim)
      ensures d.releaseClaimAllowed != Some(false)
    {
      DependenciesReleasable(bench, env, d);
    }
    PassedFacts(frame, r);
  }

  lemma NpuClean(r: Result, metrics: M.Metrics)
    requires r.status == Known(Passed) && r.metrics == Some(JObj(metrics)) && Name in r.text
    ensures (forall f :: !NpuFaulty(r, f)) <==> (r.text[Name] == JStr("tflite_e1_npu") ==> NpuProof(metrics))
  {
    if r.text[Name] == JStr("tflite_e1_npu") && !NpuProof(metrics) {
      assert NpuFaulty(r, NpuUnsupportedOps) || NpuFaulty(r, NpuFallback) || NpuFaulty(r, NpuDelegation);
    }
  }

  lemma SimulatorClean(frame: Frame, r: Result)
    requires r.provenance.Known? && r.status.Known? && MetricsOrEmpty(r).JObj?
    requires forall k :: k in M.FORBIDDEN_KEYS ==> k !in MetricsOrEmpty(r).fields
    ensures (forall f :: !SimulatorFaulty(frame, r, f)) <==>
            (r.provenance == Known(Simulator) ==>
               && frame.claimLevel.Known? && SimulatorLevel(frame.claimLevel.value)
               && (r.status == Known(Passed) ==> Get(MetricsOrEmpty(r).fields, M.SUCCESS_KEY) == JBool(true)))
  {
    if r.provenance == Known(Simulator) {
      assert SimulatorFaulty(frame, r, SimulatorClaim) <==> !(frame.claimLevel.Known? && SimulatorLevel(frame.claimLevel.value));
      assert SimulatorFaulty(frame, r, SimulatorSuccess) <==>
             r.status == Known(Passed) && Get(MetricsOrEmpty(r).fields, M.SUCCESS_KEY) != JBool(true);
    }
  }

  /** Whatever the outcome, recorded metrics come from the parser and hold no comparable score. */
  lemma NoForbiddenScores(bench: Object, ctx: Context, env: Env, r: Result)
    requires C.BenchAccepted(JObj(bench)) && OutcomeOf(bench, ctx, env, Some(r))
    ensures MetricsOrEmpty(r).JObj?
    ensures forall k :: k in M.FORBIDDEN_KEYS ==> k !in MetricsOrEmpty(r).fields
  {
    var deps := D.Statuses(bench, env, ctx.allowSmoke).value;
    var process := env.run(ExecutionCommand(CommandOf(bench), deps));
    if process.Completed? && M.ParseOutput(ParserFor(bench), process.stdout).Found? {
      M.ParsedClaims(ParserFor(bench), process.stdout);
    }
  }

  /** What the validator asks of the configuration of any real result. */
  ghost predicate RealConditions(bench: Object, ctx: Context, env: Env, frame: Frame)
    requires C.BenchAccepted(JObj(bench))
  {
    && TextsAreStrings(bench)
    && P.Readable(bench, env) && P.IdsGiven(bench, env)
    && (ConfiguredProvenance(bench) == Simulator ==>
          frame.claimLevel == Known(L0RtlUnit) || frame.claimLevel == Known(L1RtlFullSoc) || frame.claimLevel == Known(L2ArchSim))
  }

  lemma OtherClean(bench: Object, ctx: Context, env: Env, r: Result, frame: Frame)
    requires C.BenchAccepted(JObj(bench)) && !ctx.dryRun && IsReal(frame)
    requires OutcomeOf(bench, ctx, env, Some(r))
    ensures (forall f :: !OtherFaulty(frame, r, f)) <==> P.IdsGiven(bench, env)
  {
    P.IdsGivenIff(bench, env, ctx.allowSmoke);
    var deps := D.Statuses(bench, env, ctx.allowSmoke).value;
    RealStatus(bench, ctx, env, r);
    if Ready(bench, ctx, deps) {
      ReadyHasNothingMissing(bench, ctx, deps);
    }
    AssetsClean(frame, deps, r);
    assert forall f :: OtherFaulty(frame, r, f) ==> f.AssetId?;
  }

  /** What every real result keeps of its base. */
  lemma RealShape(bench: Object, ctx: Context, env: Env, r: Result)
    requires C.BenchAccepted(JObj(bench)) && !ctx.dryRun
    requires OutcomeOf(bench, ctx, env, Some(r))
    ensures var deps := D.Statuses(bench, env, ctx.allowSmoke);
            && deps.Some?
            && (var base := Base(bench, ctx, deps.value);
                && r.text == base.text && r.command == base.command && r.dependencies == base.dependencies
                && r.artifacts == base.artifacts && r.provenance == base.provenance && r.parser == base.parser)
            && r.provenance == Known(ConfiguredProvenance(bench)) && r.status.Known? && Name in r.text && r.text[Name] == bench["name"] && bench["name"].JStr?
            && (r.metrics.Some? && r.metrics.value.JObj? ==> MetricsOrEmpty(r) == r.metrics.value)
  {
  }

  /**
   Runner and validator agree: a real result satisfies the validator exactly when the configuration
   is well described, its simulator benchmarks stay within the simulator claim levels and, if it
   passed, it also meets the provenance, calibration, NPU and simulator-parser conditions. Every
   dependency, metric and gate clause already holds of what the runner marks as passed.
   */
  lemma RealSound(bench: Object, ctx: Context, env: Env, r: Result, frame: Frame)
    requires C.BenchAccepted(JObj(bench)) && !ctx.dryRun && IsReal(frame)
    requires ctx.allowSmoke ==> frame.claimLevel == Known(L2ArchSim)
    requires OutcomeOf(bench, ctx, env, Some(r))
    ensures ResultSound(frame, r) <==>
            && RealConditions(bench, ctx, env, frame)
            && (r.status == Known(Passed) ==>
                  PassedConditions(bench, frame, RecordedMetrics(r)))
  {
    hide OutcomeOf, D.Statuses, ResultSound, ShapeFaulty, PassedFaulty, NpuFaulty, SimulatorFaulty, OtherFaulty, RanClean,
      ParsedMetrics, NpuProof, TextsAreStrings, MetricsOrEmpty, M.MetricsMet, D.AllAvailable, C.BenchAccepted, P.IdsGiven, P.Readable,
      E.CalibrationAccepted;
    RealShape(bench, ctx, env, r);
    P.StatusesReadable(bench, env, ctx.allowSmoke);
    var deps := D.Statuses(bench, env, ctx.allowSmoke).value;
    RealStatus(bench, ctx, env, r);
    ShapeClean(bench, ctx, deps, r);
    OtherClean(bench, ctx, env, r, frame);
    NoForbiddenScores(bench, ctx, env, r);
    SimulatorClean(frame, r);
    if r.status == Known(Passed) {
      PassedShape(bench, ctx, env, r);
      PassedClean(bench, ctx, env, r, frame);
      NpuClean(r, ParsedMetrics(bench, deps, env));
    }
    SoundByGroups(frame, r);
  }

  lemma SoundByGroups(frame: Frame, r: Result)
    ensures ResultSound(frame, r) <==>
            && (forall f :: !ShapeFaulty(r, f)) && (forall f :: !PassedFaulty(frame, r, f)) && (forall f :: !NpuFaulty(r, f))
            && (forall f :: !SimulatorFaulty(frame, r, f)) && forall f :: !OtherFaulty(frame, r, f)
    ensures r.status != Known(Passed) ==> (forall f :: !PassedFaulty(frame, r, f)) && forall f :: !NpuFaulty(r, f)
  {
    if ResultSound(frame, r) {
      forall f
        ensures !ShapeFaulty(r, f) && !PassedFaulty(frame, r, f) && !NpuFaulty(r, f)
                && !SimulatorFaulty(frame, r, f) && !OtherFaulty(frame, r, f)
      {
        assert !ResultFaulty(frame, r, f);
      }
    }
  }

  // ---------- whole runs ----------

  lemma HeaderTypes(f: HeaderField, e: (HeaderField, Type))
    requires e in HEADER_FIELDS && e.0 == f
    ensures e.1 == match f case DryRunFlag => TBool case ConfigInfo => TDict case _ => TStr
  {
    var j :| 0 <= j < |HEADER_FIELDS| && HEADER_FIELDS[j] == e;
    assert j == 0 || j == 1 || j == 2 || j == 3 || j == 4;
  }

  lemma HeaderClean(args: Args, stamp: Stamp, config: Json, metadata: G.Metadata, results: seq<Result>, d: Defect)
    requires config.JObj?
    ensures !HeaderFaulty(ReportOf(args, stamp, config, metadata, results), d)
  {
    var r := ReportOf(args, stamp, config, metadata, results);
    match d {
      case HeaderType(f) =>
        forall e | e in HEADER_FIELDS && e.0 == f
          ensures f in r.header && HasType(r.header[f], e.1)
        {
          HeaderTypes(f, e);
          match f { case Schema => case ReportId => case DateUtc => case DryRunFlag => case ConfigInfo => }
        }
      case HeaderMissing(f) =>
        match f { case Schema => case ReportId => case DateUtc => case DryRunFlag => case ConfigInfo => }
      case PlatformFault(f) =>
        match f { case PlatformName => case Revision => case SourceTreeSha => case HostName => case HostSystem => }
      case _ =>
    }
  }

  /** A metadata section in which the validator finds nothing wrong. */
  ghost predicate SectionComplete(metadata: G.Metadata, s: Section) {
    forall d :: !SectionFaulty(metadata, s, d)
  }

  lemma ValidByParts(r: Report)
    requires forall d :: !HeaderFaulty(r, d)
    ensures Valid(r) <==>
            && (forall i :: 0 <= i < |r.results| ==> ResultSound(FrameOf(r), r.results[i]))
            && (IsReal(FrameOf(r)) && ClaimsSuccess(r) ==> forall s :: s in SECTIONS ==> SectionComplete(r.metadata, s))
  {
    if Valid(r) {
      forall i, f | 0 <= i < |r.results|
        ensures !ResultFaulty(FrameOf(r), r.results[i], f)
      {
        assert !Defective(r, AtResult(i, f));
      }
      forall s, d | s in SECTIONS && IsReal(FrameOf(r)) && ClaimsSuccess(r)
        ensures !SectionFaulty(r.metadata, s, d)
      {
        assert !Defective(r, d);
      }
    }
  }

  ghost predicate PlanConditions(v: Json, args: Args, env: Env) {
    && C.BenchAccepted(v) && TextsAreStrings(v.fields)
    && P.Readable(v.fields, env) && P.IdsGiven(v.fields, env)
  }

  /**
   A plan whose configuration loads validates exactly when every selected benchmark has string
   descriptions and non-empty blocker ids for its unavailable artifacts, so only then can a plan
   not exit with code 3. It never exits with code 1, and under strict mode it exits 0 exactly when
   it validates and every result is "planned", that is every dependency is available.
   */
  lemma PlanExits(args: Args, stamp: Stamp, config: Json, document: Option<Json>, envs: nat -> Env, report: Report)
    requires args.dryRun && Completes(args, stamp, config, document, envs, report)
    ensures var benches := Selection(args, config).value;
            && (Valid(report) <==> forall i :: 0 <= i < |benches| ==> PlanConditions(benches[i], args, envs(i)))
            && (ExitCode(report, args.strict) == 3 <==> !Valid(report))
            && ExitCode(report, args.strict) != 1
            && (ExitCode(report, true) == 0 <==> Valid(report) && forall r :: r in report.results ==> r.status == Known(Planned))
            && (Valid(report) ==> ExitCode(report, false) == 0)
            && forall i :: 0 <= i < |benches| ==>
                 benches[i].JObj?
                 && (report.results[i].status == Known(Planned) <==> P.Everything(benches[i].fields, envs(i), args.allowSmoke))
  {
    var benches, metadata := Selection(args, config).value, LoadMetadata(document).value;
    forall i | 0 <= i < |benches|
      ensures PlanFacts(benches[i], args, envs(i), FrameOf(report), report.results[i])
    {
      PlanPoint(benches[i], args, metadata, envs(i), FrameOf(report), report.results[i]);
    }
    RunHeader(args, stamp, config, document, envs, report);
    ValidByParts(report);
    PlanPointwise(benches, report, args, envs);
    PlanCodes(benches, report, args, envs);
  }

  lemma RunHeader(args: Args, stamp: Stamp, config: Json, document: Option<Json>, envs: nat -> Env, report: Report)
    requires Completes(args, stamp, config, document, envs, report)
    ensures forall d :: !HeaderFaulty(report, d)
    ensures FrameOf(report) ==
            Frame(Some(JBool(args.dryRun)), Known(args.claimLevel), G.SectionData(LoadMetadata(document).value, Calibration))
    ensures report.metadata == LoadMetadata(document).value
  {
    forall d
      ensures !HeaderFaulty(report, d)
    {
      HeaderClean(args, stamp, config, LoadMetadata(document).value, report.results, d);
    }
  }

  ghost predicate PlanFacts(v: Json, args: Args, env: Env, frame: Frame, r: Result) {
    && (ResultSound(frame, r) <==> PlanConditions(v, args, env))
    && !IsFailure(r)
    && (IsHeldBack(r) <==> r.status != Known(Planned))
    && v.JObj? && (r.status == Known(Planned) <==> P.Everything(v.fields, env, args.allowSmoke))
  }

  lemma PlanPoint(v: Json, args: Args, metadata: G.Metadata, env: Env, frame: Frame, r: Result)
    requires args.dryRun && IsDryRun(frame) && Outcome(v, ContextOf(args, metadata), env, Some(r))
    ensures PlanFacts(v, args, env, frame, r)
  {
    PlanSound(v.fields, ContextOf(args, metadata), env, r, frame);
    PlanStatus(v.fields, ContextOf(args, metadata), env, r);
    P.StatusesReadable(v.fields, env, args.allowSmoke);
    P.EverythingFound(v.fields, env, args.allowSmoke);
    hide P.Readable, P.IdsGiven, P.Everything, D.Statuses, TextsAreStrings;
  }

  lemma PlanCodes(benches: seq<Json>, report: Report, args: Args, envs: nat -> Env)
    requires |benches| == |report.results|
    requires forall i :: 0 <= i < |benches| ==> PlanFacts(benches[i], args, envs(i), FrameOf(report), report.results[i])
    ensures (ExitCode(report, args.strict) == 3 <==> !Valid(report)) && ExitCode(report, args.strict) != 1
    ensures ExitCode(report, true) == 0 <==> Valid(report) && forall r :: r in report.results ==> r.status == Known(Planned)
    ensures Valid(report) ==> ExitCode(report, false) == 0
  {
    forall r | r in report.results
      ensures !IsFailure(r) && (IsHeldBack(r) <==> r.status != Known(Planned))
    {
      var i :| 0 <= i < |report.results| && report.results[i] == r;
      assert PlanFacts(benches[i], args, envs(i), FrameOf(report), report.results[i]);
    }
  }

  lemma PlanPointwise(benches: seq<Json>, report: Report, args: Args, envs: nat -> Env)
    requires |benches| == |report.results|
    requires forall i :: 0 <= i < |benches| ==> PlanFacts(benches[i], args, envs(i), FrameOf(report), report.results[i])
    ensures (forall i :: 0 <= i < |report.results| ==> ResultSound(FrameOf(report), report.results[i])) <==>
            forall i :: 0 <= i < |benches| ==> PlanConditions(benches[i], args, envs(i))
  {
  }

  /** A real result and the configuration it came from satisfy the validator. */
  ghost predicate RealResultAccepted(v: Json, args: Args, metadata: G.Metadata, env: Env, r: Result) {
    var frame := Frame(Some(JBool(false)), Known(args.claimLevel), G.SectionData(metadata, Calibration));
    && C.BenchAccepted(v)
    && RealConditions(v.fields, ContextOf(args, metadata), env, frame)
    && (r.status == Known(Passed) ==>
          PassedConditions(v.fields, frame, RecordedMetrics(r)))
  }

  /**
   A real run validates exactly when each result is accepted and, if any passed, all seven metadata
   sections are complete. In particular a run in which nothing passed validates exactly when its
   benchmarks meet the configuration conditions alone.
   */
  lemma RealRunValid(args: Args, stamp: Stamp, config: Json, document: Option<Json>, envs: nat -> Env, report: Report)
    requires !args.dryRun && Completes(args, stamp, config, document, envs, report)
    ensures var benches, metadata := Selection(args, config).value, LoadMetadata(document).value;
            Valid(report) <==>
            && (forall i :: 0 <= i < |benches| ==> RealResultAccepted(benches[i], args, metadata, envs(i), report.results[i]))
            && ((exists r :: r in report.results && r.status == Known(Passed)) ==>
                  forall s :: s in SECTIONS ==> SectionComplete(metadata, s))
  {
    var benches, metadata := Selection(args, config).value, LoadMetadata(document).value;
    RunHeader(args, stamp, config, document, envs, report);
    forall i | 0 <= i < |benches|
      ensures RealFacts(benches[i], args, metadata, envs(i), FrameOf(report), report.results[i])
    {
      RealPoint(benches[i], args, metadata, envs(i), FrameOf(report), report.results[i]);
    }
    ValidByParts(report);
    SuccessClaimed(report);
    RealPointwise(benches, args, metadata, envs, report);
  }

  ghost predicate RealFacts(v: Json, args: Args, metadata: G.Metadata, env: Env, frame: Frame, r: Result) {
    && (ResultSound(frame, r) <==> RealResultAccepted(v, args, metadata, env, r))
    && (r.status == Known(Passed) || r.status == Known(Blocked) || IsFailure(r))
    && (IsHeldBack(r) <==> r.status == Known(Blocked))
  }

  lemma RealPoint(v: Json, args: Args, metadata: G.Metadata, env: Env, frame: Frame, r: Result)
    requires !args.dryRun && !Refused(args) && Outcome(v, ContextOf(args, metadata), env, Some(r))
    requires frame == Frame(Some(JBool(false)), Known(args.claimLevel), G.SectionData(metadata, Calibration))
    ensures RealFacts(v, args, metadata, env, frame, r)
  {
    RealSound(v.fields, ContextOf(args, metadata), env, r, frame);
    RealStatus(v.fields, ContextOf(args, metadata), env, r);
  }

  lemma RealPointwise(benches: seq<Json>, args: Args, metadata: G.Metadata, envs: nat -> Env, report: Report)
    requires |benches| == |report.results|
    requires forall i :: 0 <= i < |benches| ==> RealFacts(benches[i], args, metadata, envs(i), FrameOf(report), report.results[i])
    ensures (forall i :: 0 <= i < |report.results| ==> ResultSound(FrameOf(report), report.results[i])) <==>
            forall i :: 0 <= i < |benches| ==> RealResultAccepted(benches[i], args, metadata, envs(i), report.results[i])
  {
  }

  lemma SuccessClaimed(report: Report)
    ensures ClaimsSuccess(report) <==> exists r :: r in report.results && r.status == Known(Passed)
  {
    if i :| 0 <= i < |report.results| && Is(report.results[i].status, Passed) {
      assert report.results[i] in report.results;
    }
  }

  /** The metadata sections are those of the document. */
  ghost predicate CopiedFrom(metadata: G.Metadata, document: Option<Json>) {
    if document.Some? && document.value.JObj? then
      forall s :: if SectionName(s) in document.value.fields then s in metadata && metadata[s] == document.value.fields[SectionName(s)]
                  else s !in metadata
    else metadata == map[]
  }

  /** Loading keeps every section of the document, and nothing else. */
  lemma LoadedMetadata(document: Option<Json>)
    requires LoadMetadata(document).Some?
    ensures CopiedFrom(LoadMetadata(document).value, document)
  {
    forall s
      ensures s in SECTIONS
    {
      E.EverySection(s);
    }
  }

  /**
   Everything that a passed result vouches for, in terms of the benchmark's own fields, the metadata
   and the host: every dependency is there, the configured command was launched and printed the
   metrics recorded, every listed metric is a number and every gate holds, every listed section is
   recorded, every listed asset is calibrated, and the calibration is evident.
   */
  ghost predicate FullyVouched(v: Json, args: Args, metadata: G.Metadata, env: Env, r: Result) {
    && C.BenchAccepted(v)
    && r.status == Known(Passed)
    && P.Everything(v.fields, env, args.allowSmoke)
    && (exists m :: MeasuredOn(v.fields, env, args.allowSmoke, m) && r.metrics == Some(JObj(m)))
    && (forall s :: E.Asks(v.fields, s) ==> E.SectionRecorded(metadata, s))
    && Calibration in metadata && metadata[Calibration].JObj?
    && E.CalibrationRecorded(metadata, v.fields) && E.CalibrationAccepted(metadata[Calibration], v.fields)
  }

  /**
   Fail-closed runs: a strict real run exits 0 exactly when its report validates and every result
   passed; then every dependency was available, no metadata blocker held, every metric requirement
   was met and calibration was evidenced. Its exit code is 1 exactly when the report validates and
   something failed, and 2 exactly when nothing failed but something was blocked.
   */
  lemma StrictRealExits(args: Args, stamp: Stamp, config: Json, document: Option<Json>, envs: nat -> Env, report: Report)
    requires !args.dryRun && Completes(args, stamp, config, document, envs, report)
    ensures var benches, metadata := Selection(args, config).value, LoadMetadata(document).value;
            && (ExitCode(report, true) == 0 <==> Valid(report) && forall r :: r in report.results ==> r.status == Known(Passed))
            && (ExitCode(report, true) == 1 <==> Valid(report) && exists r :: r in report.results && IsFailure(r))
            && (ExitCode(report, true) == 2 <==>
                Valid(report) && (forall r :: r in report.results ==> !IsFailure(r))
                && exists r :: r in report.results && r.status == Known(Blocked))
            && (ExitCode(report, true) == 0 ==>
                  && (forall i :: 0 <= i < |benches| ==> FullyVouched(benches[i], args, metadata, envs(i), report.results[i]))
                  && CopiedFrom(metadata, document)
                  && (benches != [] ==> forall s :: E.SectionTyped(metadata, s)))
            && forall r :: r in report.results ==> r.status != Known(MissingDependencies)
  {
    var benches, metadata := Selection(args, config).value, LoadMetadata(document).value;
    RunHeader(args, stamp, config, document, envs, report);
    forall i | 0 <= i < |benches|
      ensures RealFacts(benches[i], args, metadata, envs(i), FrameOf(report), report.results[i])
    {
      RealPoint(benches[i], args, metadata, envs(i), FrameOf(report), report.results[i]);
    }
    RealCodes(benches, args, metadata, envs, report);
    if ExitCode(report, true) == 0 {
      RealRunValid(args, stamp, config, document, envs, report);
      LoadedMetadata(document);
      if benches != [] {
        assert report.results[0] in report.results;
        AllTyped(metadata);
      }
      forall i | 0 <= i < |benches|
        ensures FullyVouched(benches[i], args, metadata, envs(i), report.results[i])
      {
        assert report.results[i] in report.results;
        Vouch(benches[i], args, metadata, envs(i), report.results[i]);
      }
    }
  }

  /**
   What every completed run writes down: the arguments and stamps of the run, and one result for each
   selected benchmark, which describes that benchmark.
   */
  lemma ReportRecords(args: Args, stamp: Stamp, config: Json, document: Option<Json>, envs: nat -> Env, report: Report)
    requires Completes(args, stamp, config, document, envs, report)
    ensures Says(report.header, Schema, "openagent.benchmark_run.v1") && Says(report.header, ReportId, args.reportId)
    ensures Says(report.header, DateUtc, stamp.date) && DryRunFlag in report.header && report.header[DryRunFlag] == JBool(args.dryRun)
    ensures report.claimLevel == Known(args.claimLevel) && report.platform.Some?
    ensures Says(report.platform.value, PlatformName, args.platform) && Says(report.platform.value, Revision, args.revision)
    ensures Says(report.platform.value, SourceTreeSha, stamp.sourceTreeSha)
    ensures Says(report.platform.value, HostName, stamp.host) && Says(report.platform.value, HostSystem, stamp.system)
    ensures config.JObj? && ConfigInfo in report.header && NamesConfig(report.header[ConfigInfo], args.configPath, config.fields)
    ensures CopiedFrom(report.metadata, document)
    ensures var benches := Selection(args, config).value;
            && |report.results| == |benches|
            && forall i :: 0 <= i < |benches| ==>
                 benches[i].JObj? && Describes(benches[i].fields, ContextOf(args, report.metadata), report.results[i])
  {
    LoadedMetadata(document);
    CompletedReport(args, stamp, config, document, envs, report);
    WrittenReport(args, stamp, config, report.metadata, report.results);
    hide Describes, CopiedFrom, Selection, LoadMetadata, ReportOf, Completes, Says, NamesConfig, Outcome;
    var benches, ctx := Selection(args, config).value, ContextOf(args, report.metadata);
    forall i | 0 <= i < |benches|
      ensures benches[i].JObj? && Describes(benches[i].fields, ctx, report.results[i])
    {
      DescribedOutcome(benches[i], ctx, envs(i), report.results[i]);
    }
  }

  lemma DescribedOutcome(v: Json, ctx: Context, env: Env, r: Result)
    requires Outcome(v, ctx, env, Some(r))
    ensures v.JObj? && Describes(v.fields, ctx, r)
  {
    hide Describes, OutcomeOf;
    ResultDescribes(v.fields, ctx, env, r);
  }

  lemma CompletedReport(args: Args, stamp: Stamp, config: Json, document: Option<Json>, envs: nat -> Env, report: Report)
    requires Completes(args, stamp, config, document, envs, report)
    ensures Selection(args, config).Some? && LoadMetadata(document).Some? && config.JObj?
    ensures report.metadata == LoadMetadata(document).value
    ensures report == ReportOf(args, stamp, config, report.metadata, report.results)
    ensures var benches := Selection(args, config).value;
            && |report.results| == |benches|
            && forall i :: 0 <= i < |benches| ==>
                 Outcome(benches[i], ContextOf(args, report.metadata), envs(i), Some(report.results[i]))
  {
    hide Outcome, C.ConfigAccepted, C.Selected, LoadMetadata;
  }

  lemma WrittenReport(args: Args, stamp: Stamp, config: Json, metadata: G.Metadata, results: seq<Result>)
    requires config.JObj?
    ensures var report := ReportOf(args, stamp, config, metadata, results);
            && Says(report.header, Schema, "openagent.benchmark_run.v1") && Says(report.header, ReportId, args.reportId)
            && Says(report.header, DateUtc, stamp.date) && DryRunFlag in report.header && report.header[DryRunFlag] == JBool(args.dryRun)
            && report.claimLevel == Known(args.claimLevel) && report.platform.Some?
            && Says(report.platform.value, PlatformName, args.platform) && Says(report.platform.value, Revision, args.revision)
            && Says(report.platform.value, SourceTreeSha, stamp.sourceTreeSha)
            && Says(report.platform.value, HostName, stamp.host) && Says(report.platform.value, HostSystem, stamp.system)
            && ConfigInfo in report.header && NamesConfig(report.header[ConfigInfo], args.configPath, config.fields)
  {
  }

  /** The path of the configuration, and its version if it has one. */
  predicate NamesConfig(info: Json, path: string, config: Object) {
    info.JObj? && Says(info.fields, "path", path) && "version" in info.fields
    && info.fields["version"] == if "version" in config then config["version"] else JStr("unknown")
  }

  predicate Says<K(==)>(m: map<K, Json>, key: K, text: string) {
    key in m && m[key] == JStr(text)
  }

  /** A run with nothing to do: it exits 0 in every mode, whatever the metadata. */
  lemma EmptyRunExits(args: Args, stamp: Stamp, config: Json, document: Option<Json>, envs: nat -> Env, report: Report)
    requires Completes(args, stamp, config, document, envs, report) && Selection(args, config) == Some([])
    ensures report.results == [] && Valid(report) && ExitCode(report, args.strict) == 0 && ExitCode(report, true) == 0
  {
    RunHeader(args, stamp, config, document, envs, report);
    ValidByParts(report);
    SuccessClaimed(report);
  }

  /** That takes an empty benchmarks list and no name that asks for more. */
  lemma SelectionIsEmpty(args: Args, config: Json)
    ensures Selection(args, config) == Some([]) <==>
            Benchmarks(config) == Some([]) && (args.names == {} || "all" in args.names)
  {
    var benches := Benchmarks(config);
    if benches.Some? && C.ConfigAccepted(benches.value) && args.names != {} && "all" !in args.names {
      C.NamedSelectionNotEmpty(benches.value, args.names);
    }
  }

  lemma RealCodes(benches: seq<Json>, args: Args, metadata: G.Metadata, envs: nat -> Env, report: Report)
    requires |benches| == |report.results|
    requires forall i :: 0 <= i < |benches| ==> RealFacts(benches[i], args, metadata, envs(i), FrameOf(report), report.results[i])
    ensures ExitCode(report, true) == 0 <==> Valid(report) && forall r :: r in report.results ==> r.status == Known(Passed)
    ensures ExitCode(report, true) == 1 <==> Valid(report) && exists r :: r in report.results && IsFailure(r)
    ensures ExitCode(report, true) == 2 <==>
            Valid(report) && (forall r :: r in report.results ==> !IsFailure(r))
            && exists r :: r in report.results && r.status == Known(Blocked)
    ensures forall r :: r in report.results ==> r.status != Known(MissingDependencies)
  {
    forall r | r in report.results
      ensures r.status == Known(Passed) || r.status == Known(Blocked) || IsFailure(r)
      ensures IsHeldBack(r) <==> r.status == Known(Blocked)
    {
      var i :| 0 <= i < |report.results| && report.results[i] == r;
      assert RealFacts(benches[i], args, metadata, envs(i), FrameOf(report), report.results[i]);
    }
  }

  lemma AllTyped(metadata: G.Metadata)
    requires forall s :: s in SECTIONS ==> SectionComplete(metadata, s)
    ensures forall s :: E.SectionTyped(metadata, s)
  {
    forall s
      ensures E.SectionTyped(metadata, s)
    {
      E.EverySection(s);
      E.SectionFaultless(metadata, s);
    }
  }

  lemma Vouch(v: Json, args: Args, metadata: G.Metadata, env: Env, r: Result)
    requires !args.dryRun && Outcome(v, ContextOf(args, metadata), env, Some(r)) && r.status == Known(Passed)
    requires RealResultAccepted(v, args, metadata, env, r)
    ensures FullyVouched(v, args, metadata, env, r)
  {
    var ctx := ContextOf(args, metadata);
    PassedShape(v.fields, ctx, env, r);
    PassedGate(v.fields, ctx, env, r);
    hide Outcome, OutcomeOf, Ready, RanClean, ParsedMetrics, MeasuredOn, D.Statuses, D.AllAvailable, P.Everything, P.Readable, P.IdsGiven,
      M.MetricsMet, C.BenchAccepted, G.Clears, NpuProof, TextsAreStrings;
    var deps := D.Statuses(v.fields, env, args.allowSmoke).value;
    P.EverythingFound(v.fields, env, args.allowSmoke);
    RanCleanMeans(v.fields, env, args.allowSmoke, ParsedMetrics(v.fields, deps, env));
    AcceptedLists(v.fields);
    E.ClearsIff(metadata, v.fields);
    assert G.SectionData(metadata, Calibration).JObj?;
  }

  lemma AcceptedLists(bench: Object)
    requires C.BenchAccepted(JObj(bench))
    ensures E.ListsAccepted(bench)
  {
  }

  /** A passed benchmark cleared the gate and ran clean. */
  lemma PassedGate(bench: Object, ctx: Context, env: Env, r: Result)
    requires C.BenchAccepted(JObj(bench)) && !ctx.dryRun
    requires OutcomeOf(bench, ctx, env, Some(r)) && r.status == Known(Passed)
    ensures D.Statuses(bench, env, ctx.allowSmoke).Some?
    ensures G.Clears(ctx.metadata, bench) && RanClean(bench, D.Statuses(bench, env, ctx.allowSmoke).value, env)
  {
    hide OutcomeOf, RanClean, D.Statuses, C.BenchAccepted, IsHeldBack, IsFailure, G.GateBlocks;
    RealStatus(bench, ctx, env, r);
    var deps := D.Statuses(bench, env, ctx.allowSmoke).value;
    forall b
      ensures !G.GateBlocks(ctx.metadata, bench, b)
    {
      assert !Blocks(bench, ctx, deps, OnMetadata(b));
    }
  }

  /**
   The NPU benchmark can never be reported as passed while it uses the TFLite parser: that parser
   does not produce the node counts which the validator demands, so the run exits with code 3.
   */
  lemma NpuBenchmarkNeverAccepted(args: Args, stamp: Stamp, config: Json, document: Option<Json>, envs: nat -> Env, report: Report, i: nat)
    requires !args.dryRun && Completes(args, stamp, config, document, envs, report)
    requires i < |report.results|
    requires var v := Selection(args, config).value[i];
             C.BenchAccepted(v) && C.NameOf(v) == "tflite_e1_npu" && ParserFor(v.fields) == TfliteBenchmarkModel
    requires report.results[i].status == Known(Passed)
    ensures ExitCode(report, args.strict) == 3
  {
    var v, metadata := Selection(args, config).value[i], LoadMetadata(document).value;
    RealRunValid(args, stamp, config, document, envs, report);
    assert Outcome(v, ContextOf(args, metadata), envs(i), Some(report.results[i]));
    hide *;
    NpuResultRejected(v, args, metadata, envs(i), report.results[i]);
  }

  lemma NpuResultRejected(v: Json, args: Args, metadata: G.Metadata, env: Env, r: Result)
    requires !args.dryRun && Outcome(v, ContextOf(args, metadata), env, Some(r)) && r.status == Known(Passed)
    requires C.BenchAccepted(v) && C.NameOf(v) == "tflite_e1_npu" && ParserFor(v.fields) == TfliteBenchmarkModel
    ensures !RealResultAccepted(v, args, metadata, env, r)
  {
    var deps := D.Statuses(v.fields, env, args.allowSmoke).value;
    PassedShape(v.fields, ContextOf(args, metadata), env, r);
    M.TfliteHasNoNodeCounts(env.run(ExecutionCommand(CommandOf(v.fields), deps)).stdout);
    assert !NpuProof(ParsedMetrics(v.fields, deps, env));
  }
}
