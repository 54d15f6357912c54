/** The benchmark runner: `run_benchmark` and `run_plan_or_real`. */
module Runner {
  import opened Json
  import opened Text
  import opened Host
  import opened Vocabulary
  import opened Report
  import C = Config
  import D = Dependencies
  import G = MetadataGate
  import M = Metrics

  /** What every benchmark of a run shares. */
  datatype Context = Context(dryRun: bool, allowSmoke: bool, metadata: G.Metadata, runDir: string)

  // ---------- the outcome of one benchmark ----------

  function CommandOf(bench: Object): seq<string>
    requires C.BenchAccepted(JObj(bench))
  {
    Strs(bench["command"])
  }

  function ParserFor(bench: Object): Parser
    requires C.BenchAccepted(JObj(bench))
  {
    ParserOf(bench["parser"]).value
  }

  function ConfiguredProvenance(bench: Object): Provenance
    requires C.BenchAccepted(JObj(bench))
  {
    if "provenance" in bench then ProvenanceOf(bench["provenance"]).value else Measured
  }

  function TextOf(bench: Object): map<TextField, Json>
    requires C.BenchAccepted(JObj(bench))
  {
    map[Name := bench["name"], Suite := bench["suite"], Version := bench["version"],
        InputDataset := GetOr(bench, "input_dataset", JStr("none")),
        PrimaryMetric := bench["primary_metric"], Units := bench["units"]]
  }

  /** The result before anything is known about the run. */
  function Base(bench: Object, ctx: Context, deps: seq<D.Dep>): Result
    requires C.BenchAccepted(JObj(bench))
  {
    Result(TextOf(bench), Some(bench["command"]), Some(deps),
           Some(JObj(map["raw_output" := JStr(ctx.runDir + "/" + bench["name"].s + ".log")])),
           Absent, Known(if ctx.dryRun then DryRun else ConfiguredProvenance(bench)), Known(ParserFor(bench)),
           None, None, [], [], [])
  }

  /** `command_with_resolved_executable` */
  function ExecutionCommand(command: seq<string>, deps: seq<D.Dep>): seq<string> {
    if command == [] || deps == [] then command
    else if deps[0].kind == D.Executable && deps[0].name == command[0] && deps[0].available
            && deps[0].path.Some? && deps[0].path.value != "" then
      [deps[0].path.value] + command[1..]
    else ExecutionCommand(command, deps[1..])
  }

  function RunMetadataOf(bench: Object): RunMetadata {
    RunMetadata(Items(bench, "required_metrics"), Items(bench, "metric_gates"), G.RequiredAssets(bench))
  }

  /** Whether the repeat counts can be read as integers. */
  predicate CountsReadable(bench: Object, env: Env) {
    D.ToInt(GetOr(bench, "runs", JInt(1)), env).Some? && D.ToInt(GetOr(bench, "warmup_runs", JInt(0)), env).Some?
  }

  /** The result of executing the command, or nothing where an error escapes. */
  ghost function Executed(bench: Object, ctx: Context, deps: seq<D.Dep>, env: Env): Option<Result>
    requires C.BenchAccepted(JObj(bench))
  {
    var base := Base(bench, ctx, deps);
    match env.run(ExecutionCommand(CommandOf(bench), deps))
    case Uncaught => None
    case TimedOut => Some(base.(status := Known(Timeout)))
    case OsError => Some(base.(status := Known(Error)))
    case Completed(code, out) =>
      match M.ParseOutput(ParserFor(bench), out)
      case Crash => None
      case NotFound => Some(base.(status := Known(Failed)))
      case Found(metrics) =>
        if code != 0 then Some(base.(status := Known(Failed), metrics := Some(JObj(metrics))))
        else if !CountsReadable(bench, env) then None
        else
          var run := RunMetadataOf(bench);
          var met := M.MetricsMet(metrics, run.requiredMetrics, run.gates);
          Some(base.(status := Known(if met then Passed else Failed), metrics := Some(JObj(metrics)), runMetadata := Some(run)))
  }

  /** What blocks a real run before it starts. */
  predicate Blocks(bench: Object, ctx: Context, deps: seq<D.Dep>, q: Requirement) {
    match q
    case OnDependency(d) => d in D.DependencyBlockers(deps)
    case OnMetadata(b) => G.GateBlocks(ctx.metadata, bench, b)
  }

  ghost predicate Ready(bench: Object, ctx: Context, deps: seq<D.Dep>) {
    D.BlockedAssets(deps) == [] && forall q :: !Blocks(bench, ctx, deps, q)
  }

  /** The result of planning a benchmark without running it. */
  ghost predicate PlannedResult(bench: Object, ctx: Context, deps: seq<D.Dep>, r: Result)
    requires C.BenchAccepted(JObj(bench))
  {
    var blocked, missing := D.BlockedAssets(deps), D.MissingDependencies(deps);
    var status := if blocked != [] then Blocked else if missing != [] then PlannedMissingDeps else Planned;
    && r == Base(bench, ctx, deps).(status := Known(status), missing := missing, blockedAssets := blocked,
                                    blockedRequirements := r.blockedRequirements)
    && forall q :: q in r.blockedRequirements <==> q.OnDependency? && q.dependency in D.DependencyBlockers(deps)
  }

  /** The result of a real run that the gate stops. */
  ghost predicate BlockedResult(bench: Object, ctx: Context, deps: seq<D.Dep>, r: Result)
    requires C.BenchAccepted(JObj(bench))
  {
    && r == Base(bench, ctx, deps).(status := Known(Blocked), missing := D.MissingDependencies(deps),
                                    blockedAssets := D.BlockedAssets(deps), blockedRequirements := r.blockedRequirements)
    && forall q :: q in r.blockedRequirements <==> Blocks(bench, ctx, deps, q)
  }

  /** The outcome of `run_benchmark`; no result means that an error escapes. */
  ghost predicate OutcomeOf(bench: Object, ctx: Context, env: Env, r: Option<Result>)
    requires C.BenchAccepted(JObj(bench))
  {
    var deps := D.Statuses(bench, env, ctx.allowSmoke);
    if deps.None? then r == None
    else if ctx.dryRun then r.Some? && PlannedResult(bench, ctx, deps.value, r.value)
    else if !Ready(bench, ctx, deps.value) then r.Some? && BlockedResult(bench, ctx, deps.value, r.value)
    else r == Executed(bench, ctx, deps.value, env)
  }

  ghost predicate Outcome(bench: Json, ctx: Context, env: Env, r: Option<Result>) {
    C.BenchAccepted(bench) && OutcomeOf(bench.fields, ctx, env, r)
  }

  // ---------- run_benchmark ----------

  /** The result dictionary, filled in while the benchmark runs. */
  class ResultRecord {
    const text: map<TextField, Json>
    const command: Json
    const dependencies: seq<D.Dep>
    const artifacts: Json
    const provenance: Provenance
    const parser: Parser
    var status: Field<Status>
    var metrics: Option<Json>
    var runMetadata: Option<RunMetadata>
    var missing: seq<string>
    var blockedAssets: seq<D.BlockedAsset>
    var blockedRequirements: seq<Requirement>

    constructor (bench: Object, ctx: Context, deps: seq<D.Dep>)
      requires C.BenchAccepted(JObj(bench))
      ensures View() == Base(bench, ctx, deps)
    {
      text, command, dependencies := TextOf(bench), bench["command"], deps;
      artifacts := JObj(map["raw_output" := JStr(ctx.runDir + "/" + bench["name"].s + ".log")]);
      provenance := if ctx.dryRun then DryRun else ConfiguredProvenance(bench);
      parser := ParserFor(bench);
      status, metrics, runMetadata := Absent, None, None;
      missing, blockedAssets, blockedRequirements := [], [], [];
    }

    /** The dictionary as it stands. */
    function View(): Result
      reads this
    {
      Result(text, Some(command), Some(dependencies), Some(artifacts), status, Known(provenance), Known(parser),
             metrics, runMetadata, missing, blockedAssets, blockedRequirements)
    }
  }

  method DependencyRequirements(deps: seq<D.Dep>) returns (r: seq<Requirement>)
    ensures forall q :: q in r <==> q.OnDependency? && q.dependency in D.DependencyBlockers(deps)
    ensures r == [] <==> D.DependencyBlockers(deps) == []
  {
    var blockers := D.DependencyBlockers(deps);
    r := [];
    for i := 0 to |blockers|
      invariant |r| == i
      invariant forall q :: q in r <==> q.OnDependency? && q.dependency in blockers[..i]
    {
      assert blockers[..i + 1] == blockers[..i] + [blockers[i]];
      r := r + [OnDependency(blockers[i])];
    }
    assert blockers[..|blockers|] == blockers;
  }

  method MetadataRequirements(blockers: seq<G.Blocker>) returns (r: seq<Requirement>)
    ensures forall q :: q in r <==> q.OnMetadata? && q.blocker in blockers
  {
    r := [];
    for i := 0 to |blockers|
      invariant forall q :: q in r <==> q.OnMetadata? && q.blocker in blockers[..i]
    {
      assert blockers[..i + 1] == blockers[..i] + [blockers[i]];
      r := r + [OnMetadata(blockers[i])];
    }
    assert blockers[..|blockers|] == blockers;
  }

  /** All that blocks a real run: dependencies first, then metadata. */
  method BlockingRequirements(bench: Object, ctx: Context, deps: seq<D.Dep>) returns (r: seq<Requirement>)
    ensures forall q :: q in r <==> Blocks(bench, ctx, deps, q)
  {
    var dependency := DependencyRequirements(deps);
    var blockers := G.MetadataBlockers(ctx.metadata, bench);
    var metadata := MetadataRequirements(blockers);
    r := dependency + metadata;
  }

  /** The execution half of `run_benchmark`, once nothing blocks it. */
  method Execute(record: ResultRecord, bench: Object, ghost ctx: Context, deps: seq<D.Dep>, env: Env) returns (raised: bool)
    requires C.BenchAccepted(JObj(bench))
    requires record.View() == Base(bench, ctx, deps)
    modifies record
    ensures Executed(bench, ctx, deps, env) == if raised then None else Some(record.View())
  {
    match env.run(ExecutionCommand(CommandOf(bench), deps)) {
      case Uncaught => return true;
      case TimedOut =>
        record.status := Known(Timeout);
      case OsError =>
        record.status := Known(Error);
      case Completed(code, out) =>
        record.status := Known(if code == 0 then Passed else Failed);
        var parsed := M.ParseBenchmarkOutput(ParserFor(bench), out);
        match parsed {
          case Crash => return true;
          case NotFound =>
            record.status := Known(Failed);
          case Found(metrics) =>
            record.metrics := Some(JObj(metrics));
            if code == 0 {
              if !CountsReadable(bench, env) {
                return true;
              }
              var run := RunMetadataOf(bench);
              record.runMetadata := Some(run);
              var problems := M.CheckMetricRequirements(metrics, run.requiredMetrics, run.gates);
              if problems != [] {
                assert problems[0] in problems;
                record.status := Known(Failed);
              }
            }
        }
    }
    raised := false;
  }

  /** The dry-run branch. */
  method Plan(record: ResultRecord, bench: Object, ghost ctx: Context, deps: seq<D.Dep>)
    requires C.BenchAccepted(JObj(bench))
    requires record.View() == Base(bench, ctx, deps)
    modifies record
    ensures PlannedResult(bench, ctx, deps, record.View())
  {
    var missing, blocked := D.MissingDependencies(deps), D.BlockedAssets(deps);
    record.status := Known(if blocked != [] then Blocked else if missing != [] then PlannedMissingDeps else Planned);
    record.missing := missing;
    record.blockedRequirements := DependencyRequirements(deps);
    record.blockedAssets := blocked;
  }

  /** The branch of a real run that something blocks. */
  method Stop(record: ResultRecord, bench: Object, ghost ctx: Context, deps: seq<D.Dep>, requirements: seq<Requirement>)
    requires C.BenchAccepted(JObj(bench))
    requires record.View() == Base(bench, ctx, deps)
    requires forall q :: q in requirements <==> Blocks(bench, ctx, deps, q)
    modifies record
    ensures BlockedResult(bench, ctx, deps, record.View())
  {
    record.status := Known(Blocked);
    record.missing := D.MissingDependencies(deps);
    record.blockedAssets := D.BlockedAssets(deps);
    record.blockedRequirements := requirements;
  }

  /** With nothing blocked, nothing is missing: the branch that reports "missing_dependencies" is dead. */
  lemma ReadyHasNothingMissing(bench: Object, ctx: Context, deps: seq<D.Dep>)
    requires Ready(bench, ctx, deps)
    ensures D.MissingDependencies(deps) == [] && D.AllAvailable(deps)
  {
    D.FiltersCoverEverything(deps);
    if D.DependencyBlockers(deps) != [] {
      assert Blocks(bench, ctx, deps, OnDependency(D.DependencyBlockers(deps)[0]));
    }
  }

  lemma ReadyIff(bench: Object, ctx: Context, deps: seq<D.Dep>, requirements: seq<Requirement>)
    requires forall q :: q in requirements <==> Blocks(bench, ctx, deps, q)
    ensures Ready(bench, ctx, deps) <==> D.BlockedAssets(deps) == [] && requirements == []
  {
    if requirements != [] {
      assert Blocks(bench, ctx, deps, requirements[0]);
    }
  }

  /** `run_benchmark`; no record means that an error escapes. */
  method RunBenchmark(bench: Object, ctx: Context, env: Env) returns (record: ResultRecord?)
    requires C.BenchAccepted(JObj(bench))
    ensures record == null || fresh(record)
    ensures OutcomeOf(bench, ctx, env, if record == null then None else Some(record.View()))
  {
    var statuses := D.DependencyStatus(bench, env, ctx.allowSmoke);
    if statuses.None? {
      return null;
    }
    var deps := statuses.value;
    record := new ResultRecord(bench, ctx, deps);
    if ctx.dryRun {
      Plan(record, bench, ctx, deps);
      return;
    }
    var requirements := BlockingRequirements(bench, ctx, deps);
    ReadyIff(bench, ctx, deps, requirements);
    if D.BlockedAssets(deps) != [] || requirements != [] {
      Stop(record, bench, ctx, deps, requirements);
      return;
    }
    ReadyHasNothingMissing(bench, ctx, deps);
    if D.MissingDependencies(deps) != [] {
      // The branch that sets the status "missing_dependencies".
      assert false;
    }
    var raised := Execute(record, bench, ctx, deps, env);
    if raised {
      record := null;
    }
  }

  // ---------- run_plan_or_real ----------

  datatype Args = Args(
    dryRun: bool, allowSmoke: bool, strict: bool, claimLevel: ClaimLevel, names: set<string>,
    reportId: string, platform: string, revision: string, configPath: string, runDir: string)

  /** Facts stamped on a report. */
  datatype Stamp = Stamp(date: string, sourceTreeSha: string, host: string, system: string)

  /** How the program ends: with an exit code, or with an error that nothing catches. */
  datatype Ending = Exit(code: int) | Raised

  /** The benchmarks list of a configuration, if the configuration loads. */
  function Benchmarks(config: Json): Option<seq<Json>> {
    if config.JObj? && "benchmarks" in config.fields && config.fields["benchmarks"].JList? then
      Some(config.fields["benchmarks"].items)
    else None
  }

  /** The sections that `base_report` copies; nothing where the metadata document makes it raise. */
  function LoadMetadata(document: Option<Json>): Option<G.Metadata> {
    match document
    case None => Some(map[])
    case Some(JObj(m)) => Some(map s | s in SECTIONS && SectionName(s) in m :: m[SectionName(s)])
    case Some(JList(items)) =>
      if exists s :: s in SECTIONS && JStr(SectionName(s)) in items then None else Some(map[])
    case Some(JStr(t)) => if exists s :: s in SECTIONS && Contains(t, SectionName(s)) then None else Some(map[])
    case Some(_) => None
  }

  /** The loop of `base_report` over the section names; looking one up in anything but an object raises. */
  method CopySections(document: Option<Json>) returns (metadata: Option<G.Metadata>)
    ensures metadata == LoadMetadata(document)
  {
    var copied: G.Metadata := map[];
    if document.None? {
      return Some(copied);
    }
    var d := document.value;
    for i := 0 to |SECTIONS|
      invariant d.JObj? ==>
                  copied == map s | s in SECTIONS[..i] && SectionName(s) in d.fields :: d.fields[SectionName(s)]
      invariant d.JList? ==> copied == map[] && forall j :: 0 <= j < i ==> JStr(SectionName(SECTIONS[j])) !in d.items
      invariant d.JStr? ==> copied == map[] && forall j :: 0 <= j < i ==> !Contains(d.s, SectionName(SECTIONS[j]))
      invariant !d.JObj? && !d.JList? && !d.JStr? ==> i == 0
    {
      var s := SECTIONS[i];
      assert SECTIONS[..i + 1] == SECTIONS[..i] + [s] && s in SECTIONS;
      match d {
        case JObj(fields) =>
          if SectionName(s) in fields {
            copied := copied[s := fields[SectionName(s)]];
          }
        case JList(items) =>
          if JStr(SectionName(s)) in items {
            return None;
          }
        case JStr(text) =>
          if Contains(text, SectionName(s)) {
            return None;
          }
        case _ => return None;
      }
    }
    assert SECTIONS[..|SECTIONS|] == SECTIONS;
    metadata := Some(copied);
  }

  /** `base_report` with the results of the run. */
  function ReportOf(args: Args, stamp: Stamp, config: Json, metadata: G.Metadata, results: seq<Result>): Report
    requires config.JObj?
  {
    Report(map[Schema := JStr("openagent.benchmark_run.v1"), ReportId := JStr(args.reportId), DateUtc := JStr(stamp.date),
               DryRunFlag := JBool(args.dryRun),
               ConfigInfo := JObj(map["path" := JStr(args.configPath),
                                      "version" := GetOr(config.fields, "version", JStr("unknown"))])],
           Known(args.claimLevel),
           Some(map[PlatformName := JStr(args.platform), Revision := JStr(args.revision),
                    SourceTreeSha := JStr(stamp.sourceTreeSha), HostName := JStr(stamp.host), HostSystem := JStr(stamp.system)]),
           metadata, results)
  }

  function ContextOf(args: Args, metadata: G.Metadata): Context {
    Context(args.dryRun, args.allowSmoke, metadata, args.runDir)
  }

  predicate IsFailure(r: Result) {
    r.status == Known(Failed) || r.status == Known(Timeout) || r.status == Known(Error)
  }

  /** Results that strict mode refuses. */
  predicate IsHeldBack(r: Result) {
    r.missing != [] || r.blockedAssets != [] || r.blockedRequirements != []
  }

  ghost function ExitCode(report: Report, strict: bool): int {
    if !Valid(report) then 3
    else if exists r :: r in report.results && IsFailure(r) then 1
    else if strict && exists r :: r in report.results && IsHeldBack(r) then 2
    else 0
  }

  predicate Refused(args: Args) {
    args.allowSmoke && args.claimLevel != L2ArchSim
  }

  /** The selected benchmarks of a configuration that loads. */
  ghost function Selection(args: Args, config: Json): Option<seq<Json>> {
    if Benchmarks(config).None? || !C.ConfigAccepted(Benchmarks(config).value) then None
    else C.Selected(Benchmarks(config).value, args.names)
  }

  /** A run that gets as far as its report. */
  ghost predicate Completes(args: Args, stamp: Stamp, config: Json, document: Option<Json>, envs: nat -> Env, report: Report) {
    var benches, metadata := Selection(args, config), LoadMetadata(document);
    && !Refused(args) && benches.Some? && metadata.Some?
    && report == ReportOf(args, stamp, config, metadata.value, report.results)
    && Outcomes(benches.value, ContextOf(args, metadata.value), envs, report.results)
  }

  /** A run stopped by an uncaught error: a bad configuration, selection or metadata document, or a benchmark that raises. */
  ghost predicate Breaks(args: Args, config: Json, document: Option<Json>, envs: nat -> Env) {
    var benches, metadata := Selection(args, config), LoadMetadata(document);
    && !Refused(args)
    && (|| benches.None? || metadata.None?
        || exists i :: 0 <= i < |benches.value| && Outcome(benches.value[i], ContextOf(args, metadata.value), envs(i), None))
  }

  /** The flags of the loop over the benchmarks, as far as it got. */
  datatype Flags = Flags(missing: bool, blocked: bool, failed: bool)

  ghost predicate FlagsFor(flags: Flags, results: seq<Result>) {
    && (flags.missing || flags.blocked <==> exists r :: r in results && IsHeldBack(r))
    && (flags.failed <==> exists r :: r in results && IsFailure(r))
  }

  function Raise(flags: Flags, result: Result): Flags {
    Flags(flags.missing || result.missing != [],
          flags.blocked || result.blockedAssets != [] || result.blockedRequirements != [],
          flags.failed || IsFailure(result))
  }

  lemma RaiseKeepsFlags(flags: Flags, results: seq<Result>, result: Result)
    requires FlagsFor(flags, results)
    ensures FlagsFor(Raise(flags, result), results + [result])
  {
    var all := results + [result];
    assert all[|results|] == result && result in all;
    forall r | r in results
      ensures r in all
    {
    }
    if r :| r in all && IsHeldBack(r) {
      assert r in results || r == result;
    }
    if r :| r in results && IsHeldBack(r) {
      assert r in all && IsHeldBack(r);
    }
    if r :| r in results && IsFailure(r) {
      assert r in all && IsFailure(r);
    }
  }

  method RunOne(bench: Json, ctx: Context, env: Env) returns (result: Option<Result>)
    requires C.BenchAccepted(bench)
    ensures Outcome(bench, ctx, env, result)
  {
    var record := RunBenchmark(bench.fields, ctx, env);
    if record == null {
      return None;
    }
    result := Some(record.View());
  }

  /**
   One outcome per benchmark. Each benchmark meets an environment of its own: time passes between
   them, and a benchmark can change what a later one finds.
   */
  ghost predicate Outcomes(benches: seq<Json>, ctx: Context, envs: nat -> Env, results: seq<Result>) {
    |results| == |benches| && forall i :: 0 <= i < |benches| ==> Outcome(benches[i], ctx, envs(i), Some(results[i]))
  }

  /** A benchmark does not both raise and give a result. */
  lemma OutcomeExcludes(bench: Json, ctx: Context, env: Env, r: Result)
    requires Outcome(bench, ctx, env, Some(r))
    ensures !Outcome(bench, ctx, env, None)
  {
  }

  lemma OutcomesStep(benches: seq<Json>, ctx: Context, envs: nat -> Env, results: seq<Result>, i: nat, result: Result)
    requires i < |benches| && Outcomes(benches[..i], ctx, envs, results)
    requires Outcome(benches[i], ctx, envs(i), Some(result))
    ensures Outcomes(benches[..i + 1], ctx, envs, results + [result])
  {
    hide Outcome;
    forall j | 0 <= j <= i
      ensures Outcome(benches[..i + 1][j], ctx, envs(j), Some((results + [result])[j]))
    {
      if j < i {
        assert benches[..i + 1][j] == benches[..i][j];
      }
    }
  }

  /** The loop over the selected benchmarks; no results where an error escapes. */
  method RunAll(benches: seq<Json>, ctx: Context, envs: nat -> Env) returns (results: Option<seq<Result>>, flags: Flags)
    requires forall v :: v in benches ==> C.BenchAccepted(v)
    ensures results.None? <==> exists i :: 0 <= i < |benches| && Outcome(benches[i], ctx, envs(i), None)
    ensures results.Some? ==> Outcomes(benches, ctx, envs, results.value) && FlagsFor(flags, results.value)
  {
    hide Outcome, C.BenchAccepted, FlagsFor, Raise;
    flags := Flags(false, false, false);
    NoFlags();
    var done: seq<Result> := [];
    for i := 0 to |benches|
      invariant Outcomes(benches[..i], ctx, envs, done)
      invariant FlagsFor(flags, done)
    {
      assert benches[i] in benches;
      var result := RunOne(benches[i], ctx, envs(i));
      if result.None? {
        return None, flags;
      }
      OutcomesStep(benches, ctx, envs, done, i, result.value);
      RaiseKeepsFlags(flags, done, result.value);
      done := done + [result.value];
      flags := Raise(flags, result.value);
    }
    assert benches[..|benches|] == benches;
    forall i | 0 <= i < |benches|
      ensures !Outcome(benches[i], ctx, envs(i), None)
    {
      OutcomeExcludes(benches[i], ctx, envs(i), done[i]);
    }
    results := Some(done);
  }

  lemma NoFlags()
    ensures FlagsFor(Flags(false, false, false), [])
  {
  }

  /** `run_plan_or_real`: the loop over the benchmarks, its three flags, validation and the exit code. */
  method RunPlanOrReal(args: Args, stamp: Stamp, config: Json, document: Option<Json>, envs: nat -> Env)
    returns (ending: Ending, report: Option<Report>)
    ensures Refused(args) ==> ending == Exit(2) && report == None
    ensures ending == Raised <==> Breaks(args, config, document, envs)
    ensures report.Some? <==> !Refused(args) && ending != Raised
    ensures report.Some? ==> Completes(args, stamp, config, document, envs, report.value)
                             && ending == Exit(ExitCode(report.value, args.strict))
  {
    hide Outcome, C.ConfigAccepted, C.BenchAccepted, C.Selected, ReportOf, Valid, LoadMetadata, FlagsFor;
    if args.allowSmoke && args.claimLevel != L2ArchSim {
      return Exit(2), None;
    }
    var listed := Benchmarks(config);
    if listed.None? {
      return Raised, None;
    }
    var accepted := C.ValidateConfig(listed.value);
    if !accepted {
      return Raised, None;
    }
    AllAccepted(listed.value, args.names);
    var chosen := C.Selected(listed.value, args.names);
    var metadata := CopySections(document);
    if chosen.None? || metadata.None? {
      return Raised, None;
    }
    var results, flags := RunAll(chosen.value, ContextOf(args, metadata.value), envs);
    if results.None? {
      return Raised, None;
    }
    var written := ReportOf(args, stamp, config, metadata.value, results.value);
    ReportHolds(args, stamp, config, metadata.value, results.value);
    ending := Finish(written, flags, args.strict);
    report := Some(written);
  }

  /** The end of the command: validation, then the flags. */
  method Finish(written: Report, flags: Flags, strict: bool) returns (ending: Ending)
    requires FlagsFor(flags, written.results)
    ensures ending == Exit(ExitCode(written, strict))
  {
    hide Valid;
    var errors := ValidateReport(written);
    if errors != [] {
      ending := Exit(3);
    } else if flags.failed {
      ending := Exit(1);
    } else if (flags.missing || flags.blocked) && strict {
      ending := Exit(2);
    } else {
      ending := Exit(0);
    }
  }

  lemma AllAccepted(benches: seq<Json>, names: set<string>)
    requires C.ConfigAccepted(benches)
    ensures forall v :: v in benches ==> C.BenchAccepted(v)
    ensures C.Selected(benches, names).Some? ==> forall v :: v in C.Selected(benches, names).value ==> C.BenchAccepted(v)
  {
  }

  lemma ReportHolds(args: Args, stamp: Stamp, config: Json, metadata: G.Metadata, results: seq<Result>)
    requires config.JObj?
    ensures ReportOf(args, stamp, config, metadata, results).results == results
  {
  }
}
