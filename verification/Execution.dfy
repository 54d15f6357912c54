/** What the runner executes and records, in terms of the configured command and fields. */
module Execution {
  import opened Json
  import opened Host
  import opened Vocabulary
  import opened Report
  import opened Runner
  import C = Config
  import D = Dependencies
  import M = Metrics
  import E = Measurement
  import P = Provision
  import T = ToolSearch

  // ---------- the command that is executed ----------

  /** A dependency that can stand for the first word of a command. */
  predicate Stands(d: D.Dep, word: string) {
    d.kind.Executable? && d.name == word && d.available && d.path.Some? && d.path.value != ""
  }

  ghost predicate FirstStanding(deps: seq<D.Dep>, word: string, i: int) {
    0 <= i < |deps| && Stands(deps[i], word) && forall j :: 0 <= j < i ==> !Stands(deps[j], word)
  }

  /**
   What is executed of a command: every word but the first as it is, and the first replaced exactly
   when some dependency can stand for it, by the path of the first such dependency.
   */
  ghost predicate Argv(command: seq<string>, deps: seq<D.Dep>, argv: seq<string>) {
    && |argv| == |command|
    && (forall k :: 0 < k < |command| ==> argv[k] == command[k])
    && (command != [] ==>
          && ((forall i :: 0 <= i < |deps| ==> !Stands(deps[i], command[0])) ==> argv[0] == command[0])
          && forall i :: FirstStanding(deps, command[0], i) ==> argv[0] == deps[i].path.value)
  }

  lemma {:induction false} ExecutedArgv(command: seq<string>, deps: seq<D.Dep>)
    ensures Argv(command, deps, ExecutionCommand(command, deps))
  {
    if command != [] && deps != [] && !Stands(deps[0], command[0]) {
      ExecutedArgv(command, deps[1..]);
      assert forall i :: 0 <= i < |deps[1..]| ==> deps[1..][i] == deps[i + 1];
    }
  }

  lemma SomeFirst(deps: seq<D.Dep>, word: string, i: nat) returns (k: nat)
    requires i < |deps| && Stands(deps[i], word)
    ensures FirstStanding(deps, word, k)
  {
    if j :| 0 <= j < i && Stands(deps[j], word) {
      k := SomeFirst(deps, word, j);
    } else {
      k := i;
    }
  }

  /** The executed command is the only one of which this is true. */
  lemma ArgvIff(command: seq<string>, deps: seq<D.Dep>, argv: seq<string>)
    ensures Argv(command, deps, argv) <==> argv == ExecutionCommand(command, deps)
  {
    ExecutedArgv(command, deps);
    var other := ExecutionCommand(command, deps);
    if Argv(command, deps, argv) && command != [] {
      if i :| 0 <= i < |deps| && Stands(deps[i], command[0]) {
        var k := SomeFirst(deps, command[0], i);
        assert argv[0] == other[0];
      }
    }
  }

  // ---------- the command and the host ----------

  /** The first word on the host: the place of the tool if it is a configured one, and the word itself otherwise. */
  ghost predicate FirstWord(bench: Object, env: Env, allowSmoke: bool, word: Json, first: string) {
    && word.JStr?
    && if Required(bench, word)
       then (P.ToolAt(env, word.s, allowSmoke, first) && first != "")
            || (P.ToolAt(env, word.s, allowSmoke, "") && first == word.s)
       else first == word.s
  }

  ghost predicate Required(bench: Object, word: Json) {
    "requires" in bench && bench["requires"].JList? && exists k :: 0 <= k < |bench["requires"].items| && bench["requires"].items[k] == word
  }

  /** The configured command as it is launched. */
  ghost predicate Launched(bench: Object, env: Env, allowSmoke: bool, argv: seq<string>) {
    "command" in bench && bench["command"].JList? &&
    var words := bench["command"].items;
    && |argv| == |words|
    && (forall k :: 0 < k < |words| ==> words[k] == JStr(argv[k]))
    && (words != [] ==> FirstWord(bench, env, allowSmoke, words[0], argv[0]))
  }

  lemma SourceKind(s: D.Source, env: Env, allowSmoke: bool)
    requires D.StatusOf(s, env, allowSmoke).Some?
    ensures var d := D.StatusOf(s, env, allowSmoke).value;
            && (d.kind.Executable? <==> s.Tool?)
            && (s.Tool? ==> s.name == JStr(d.name)
                            && d.path == T.Resolve(d.name, env, allowSmoke).path
                            && d.available == T.Resolve(d.name, env, allowSmoke).available)
  {
  }

  lemma ToolDeps(bench: Object, env: Env, allowSmoke: bool, word: string)
    requires C.BenchAccepted(JObj(bench)) && D.Statuses(bench, env, allowSmoke).Some?
    ensures var deps := D.Statuses(bench, env, allowSmoke).value;
            && (Required(bench, JStr(word)) <==> exists i :: 0 <= i < |deps| && deps[i].kind.Executable? && deps[i].name == word)
            && forall i :: 0 <= i < |deps| && deps[i].kind.Executable? && deps[i].name == word ==>
                 deps[i].path == T.Resolve(word, env, allowSmoke).path
  {
    P.StatusAt(bench, env, allowSmoke);
    P.ListsAccepted(bench);
    hide D.StatusOf, D.Statuses, T.Resolve, C.BenchAccepted;
    var deps, sources := D.Statuses(bench, env, allowSmoke).value, D.Sources(bench);
    var items := Items(bench, "requires");
    forall i | 0 <= i < |deps|
      ensures deps[i].kind.Executable? <==> i < |items|
      ensures i < |items| ==> items[i] == JStr(deps[i].name) && deps[i].path == T.Resolve(deps[i].name, env, allowSmoke).path
    {
      SourceKind(sources[i], env, allowSmoke);
    }
    if Required(bench, JStr(word)) {
      var k :| 0 <= k < |items| && items[k] == JStr(word);
      assert deps[k].name == word;
    }
  }

  /** With every dependency available, the executed command is the only one that is the configured one as launched. */
  lemma LaunchedIff(bench: Object, env: Env, allowSmoke: bool, argv: seq<string>)
    requires C.BenchAccepted(JObj(bench)) && D.Statuses(bench, env, allowSmoke).Some?
    requires D.AllAvailable(D.Statuses(bench, env, allowSmoke).value)
    ensures Launched(bench, env, allowSmoke, argv) <==>
            argv == ExecutionCommand(CommandOf(bench), D.Statuses(bench, env, allowSmoke).value)
  {
    var deps, command := D.Statuses(bench, env, allowSmoke).value, CommandOf(bench);
    var words := bench["command"].items;
    assert |command| == |words| && forall k :: 0 <= k < |words| ==> words[k] == JStr(command[k]);
    ArgvIff(command, deps, argv);
    hide C.BenchAccepted, D.Statuses, FirstWord, FirstStanding;
    if command != [] && |argv| == |command| {
      FirstWordIff(bench, env, allowSmoke, command[0], argv[0]);
    }
  }

  lemma FirstWordIff(bench: Object, env: Env, allowSmoke: bool, word: string, first: string)
    requires C.BenchAccepted(JObj(bench)) && D.Statuses(bench, env, allowSmoke).Some?
    requires D.AllAvailable(D.Statuses(bench, env, allowSmoke).value)
    ensures var deps := D.Statuses(bench, env, allowSmoke).value;
            FirstWord(bench, env, allowSmoke, JStr(word), first) <==>
            && ((forall i :: 0 <= i < |deps| ==> !Stands(deps[i], word)) ==> first == word)
            && forall i :: FirstStanding(deps, word, i) ==> first == deps[i].path.value
  {
    var deps := D.Statuses(bench, env, allowSmoke).value;
    ToolDeps(bench, env, allowSmoke, word);
    hide C.BenchAccepted, D.Statuses, P.ToolAt, T.Resolve, Required;
    var tool := T.Resolve(word, env, allowSmoke);
    forall path
      ensures P.ToolAt(env, word, allowSmoke, path) <==> tool.available && tool.path == Some(path)
    {
      P.ToolFound(env, word, allowSmoke, path);
    }
    if Required(bench, JStr(word)) {
      var i :| 0 <= i < |deps| && deps[i].kind.Executable? && deps[i].name == word;
      assert deps[i] in deps;
      RequiredFound(bench, env, allowSmoke, word, i);
      if tool.path.value != "" {
        var k := SomeFirst(deps, word, i);
      }
    }
  }

  lemma RequiredFound(bench: Object, env: Env, allowSmoke: bool, word: string, i: nat)
    requires D.Statuses(bench, env, allowSmoke).Some? && i < |D.Statuses(bench, env, allowSmoke).value|
    requires var d := D.Statuses(bench, env, allowSmoke).value[i]; d.kind.Executable? && d.name == word && d.available
    ensures T.Resolve(word, env, allowSmoke).available && T.Resolve(word, env, allowSmoke).path.Some?
  {
    P.StatusAt(bench, env, allowSmoke);
    SourceKind(D.Sources(bench)[i], env, allowSmoke);
    P.ResolvedPath(word, env, allowSmoke);
  }

  // ---------- names ----------

  function ParserName(p: Parser): string {
    match p
    case CoremarkV1 => "coremark_v1"
    case NpuScaleSimV1 => "openagent_npu_scale_sim_v1"
    case StreamV5 => "stream_v5"
    case LmbenchBwMem => "lmbench_bw_mem"
    case LmbenchLatMemRd => "lmbench_lat_mem_rd"
    case FioJsonV3 => "fio_json_v3"
    case TfliteBenchmarkModel => "tflite_benchmark_model"
    case SimulatorMetricsV1 => "simulator_metrics_v1"
  }

  lemma ParserNamed(v: Json, p: Parser)
    ensures ParserOf(v) == Some(p) <==> v == JStr(ParserName(p))
  {
  }

  function ProvenanceName(p: Provenance): string {
    match p
    case DryRun => "dry_run"
    case Measured => "measured"
    case Simulator => "simulator"
    case Imported => "imported"
  }

  lemma ProvenanceNamed(v: Json, p: Provenance)
    ensures ProvenanceOf(v) == Some(p) <==> v == JStr(ProvenanceName(p))
  {
  }

  function TextKey(f: TextField): string {
    match f
    case Name => "name"
    case Suite => "suite"
    case Version => "version"
    case InputDataset => "input_dataset"
    case PrimaryMetric => "primary_metric"
    case Units => "units"
  }

  /** A result repeats what the configuration says of its benchmark. */
  ghost predicate Describes(bench: Object, ctx: Context, r: Result) {
    && (forall f: TextField :: f in r.text && if TextKey(f) in bench then r.text[f] == bench[TextKey(f)]
                                              else f == InputDataset && r.text[f] == JStr("none"))
    && "command" in bench && r.command == Some(bench["command"])
    && r.parser.Known? && "parser" in bench && bench["parser"] == JStr(ParserName(r.parser.value))
    && r.provenance.Known?
    && (if ctx.dryRun then r.provenance.value == DryRun
        else if "provenance" in bench then bench["provenance"] == JStr(ProvenanceName(r.provenance.value))
        else r.provenance.value == Measured)
    && "name" in bench && bench["name"].JStr?
    && r.artifacts == Some(JObj(map["raw_output" := JStr(ctx.runDir + "/" + bench["name"].s + ".log")]))
  }

  lemma BaseDescribes(bench: Object, ctx: Context, deps: seq<D.Dep>)
    requires C.BenchAccepted(JObj(bench))
    ensures Describes(bench, ctx, Base(bench, ctx, deps))
  {
    ParserNamed(bench["parser"], ParserFor(bench));
    if "provenance" in bench {
      ProvenanceNamed(bench["provenance"], ProvenanceOf(bench["provenance"]).value);
    }
    var text := TextOf(bench);
    assert text[Name] == bench["name"] && text[Suite] == bench["suite"] && text[Version] == bench["version"];
    assert text[PrimaryMetric] == bench["primary_metric"] && text[Units] == bench["units"];
    forall f: TextField
      ensures f in text && if TextKey(f) in bench then text[f] == bench[TextKey(f)] else f == InputDataset && text[f] == JStr("none")
    {
      match f {
        case Name => case Suite => case Version => case InputDataset => case PrimaryMetric => case Units =>
      }
    }
  }

  /** Whatever the outcome, a result describes its benchmark. */
  lemma ResultDescribes(bench: Object, ctx: Context, env: Env, r: Result)
    requires C.BenchAccepted(JObj(bench)) && OutcomeOf(bench, ctx, env, Some(r))
    ensures Describes(bench, ctx, r)
  {
    var deps := D.Statuses(bench, env, ctx.allowSmoke).value;
    BaseDescribes(bench, ctx, deps);
    SameBase(bench, ctx, env, r);
  }

  lemma SameBase(bench: Object, ctx: Context, env: Env, r: Result)
    requires C.BenchAccepted(JObj(bench)) && OutcomeOf(bench, ctx, env, Some(r))
    ensures KeepsBase(r, Base(bench, ctx, D.Statuses(bench, env, ctx.allowSmoke).value))
  {
    hide C.BenchAccepted, Base, Ready, Executed, PlannedResult, BlockedResult, D.Statuses;
    var deps := D.Statuses(bench, env, ctx.allowSmoke).value;
    if ctx.dryRun {
      PlannedBase(bench, ctx, deps, r);
    } else if Ready(bench, ctx, deps) {
      ExecutedBase(bench, ctx, deps, env, r);
    } else {
      BlockedBase(bench, ctx, deps, r);
    }
  }

  /** What no branch of the runner changes. */
  predicate KeepsBase(r: Result, base: Result) {
    && r.text == base.text && r.command == base.command && r.artifacts == base.artifacts
    && r.provenance == base.provenance && r.parser == base.parser
  }

  lemma PlannedBase(bench: Object, ctx: Context, deps: seq<D.Dep>, r: Result)
    requires C.BenchAccepted(JObj(bench)) && PlannedResult(bench, ctx, deps, r)
    ensures KeepsBase(r, Base(bench, ctx, deps))
  {
    hide C.BenchAccepted, Base, D.BlockedAssets, D.MissingDependencies, D.DependencyBlockers;
  }

  lemma BlockedBase(bench: Object, ctx: Context, deps: seq<D.Dep>, r: Result)
    requires C.BenchAccepted(JObj(bench)) && BlockedResult(bench, ctx, deps, r)
    ensures KeepsBase(r, Base(bench, ctx, deps))
  {
    hide C.BenchAccepted, Base, D.BlockedAssets, D.MissingDependencies, Blocks;
  }

  lemma ExecutedBase(bench: Object, ctx: Context, deps: seq<D.Dep>, env: Env, r: Result)
    requires C.BenchAccepted(JObj(bench)) && Executed(bench, ctx, deps, env) == Some(r)
    ensures KeepsBase(r, Base(bench, ctx, deps))
  {
    hide C.BenchAccepted, Base, M.ParseOutput, M.MetricsMet, CountsReadable, RunMetadataOf, ExecutionCommand, ParserFor, CommandOf;
  }

  // ---------- a clean run ----------

  /** The command ran, exited cleanly, was parsed, and met every metric requirement. */
  ghost predicate RanClean(bench: Object, deps: seq<D.Dep>, env: Env)
    requires C.BenchAccepted(JObj(bench))
  {
    exists argv :: Argv(CommandOf(bench), deps, argv) && CleanProcess(bench, env.run(argv)) && CountsReadable(bench, env)
  }

  ghost predicate CleanProcess(bench: Object, process: Process)
    requires C.BenchAccepted(JObj(bench))
  {
    && process.Completed? && process.returncode == 0
    && M.ParseOutput(ParserFor(bench), process.stdout).Found?
    && M.MetricsMet(M.ParseOutput(ParserFor(bench), process.stdout).metrics,
                    Items(bench, "required_metrics"), Items(bench, "metric_gates"))
  }

  lemma RanCleanIff(bench: Object, deps: seq<D.Dep>, env: Env)
    requires C.BenchAccepted(JObj(bench))
    ensures RanClean(bench, deps, env) <==>
            CleanProcess(bench, env.run(ExecutionCommand(CommandOf(bench), deps))) && CountsReadable(bench, env)
  {
    forall argv
      ensures Argv(CommandOf(bench), deps, argv) <==> argv == ExecutionCommand(CommandOf(bench), deps)
    {
      ArgvIff(CommandOf(bench), deps, argv);
    }
  }

  function ParsedMetrics(bench: Object, deps: seq<D.Dep>, env: Env): M.Metrics
    requires C.BenchAccepted(JObj(bench))
  {
    var process := env.run(ExecutionCommand(CommandOf(bench), deps));
    if process.Completed? && M.ParseOutput(ParserFor(bench), process.stdout).Found? then
      M.ParseOutput(ParserFor(bench), process.stdout).metrics
    else map[]
  }

  /** A repeat count that can be read as an integer. */
  predicate Countable(bench: Object, key: string, env: Env) {
    key in bench ==>
      match bench[key]
      case JInt(_) => true
      case JBool(_) => true
      case JFloat(_) => true
      case JStr(s) => env.parseInt(s).Some?
      case _ => false
  }

  ghost predicate MeasuredBy(bench: Object, env: Env, allowSmoke: bool, argv: seq<string>, p: Parser, out: Output, m: M.Metrics) {
    && Launched(bench, env, allowSmoke, argv) && env.run(argv) == Completed(0, out)
    && "parser" in bench && bench["parser"] == JStr(ParserName(p)) && E.Figures(p, out, m)
    && E.MetricsHold(m, bench) && Countable(bench, "runs", env) && Countable(bench, "warmup_runs", env)
  }

  /** These metrics are what the configured command, launched on this host, printed for its parser, and they meet every requirement. */
  ghost predicate MeasuredOn(bench: Object, env: Env, allowSmoke: bool, m: M.Metrics) {
    exists argv, p, out :: MeasuredBy(bench, env, allowSmoke, argv, p, out, m)
  }

  /** Only the executed command and the configured parser can have measured anything. */
  lemma MeasuredOnlyBy(bench: Object, env: Env, allowSmoke: bool, argv: seq<string>, p: Parser)
    requires C.BenchAccepted(JObj(bench)) && D.Statuses(bench, env, allowSmoke).Some?
    requires D.AllAvailable(D.Statuses(bench, env, allowSmoke).value)
    ensures Launched(bench, env, allowSmoke, argv) <==>
            argv == ExecutionCommand(CommandOf(bench), D.Statuses(bench, env, allowSmoke).value)
    ensures "parser" in bench && (bench["parser"] == JStr(ParserName(p)) <==> p == ParserFor(bench))
  {
    LaunchedIff(bench, env, allowSmoke, argv);
    ParserNamed(bench["parser"], p);
    hide Launched, ParserName, D.Statuses, D.AllAvailable;
  }

  /** What a process must be for these metrics. */
  ghost predicate Printed(bench: Object, env: Env, process: Process, m: M.Metrics)
    requires C.BenchAccepted(JObj(bench))
  {
    && process.Completed? && process.returncode == 0 && E.Figures(ParserFor(bench), process.stdout, m)
    && E.MetricsHold(m, bench) && Countable(bench, "runs", env) && Countable(bench, "warmup_runs", env)
  }

  lemma MeasuredOnIff(bench: Object, env: Env, allowSmoke: bool, m: M.Metrics)
    requires C.BenchAccepted(JObj(bench)) && D.Statuses(bench, env, allowSmoke).Some?
    requires D.AllAvailable(D.Statuses(bench, env, allowSmoke).value)
    ensures var run := ExecutionCommand(CommandOf(bench), D.Statuses(bench, env, allowSmoke).value);
            MeasuredOn(bench, env, allowSmoke, m) <==> Printed(bench, env, env.run(run), m)
  {
    hide Launched, ParserName, D.Statuses, D.AllAvailable, E.MetricsHold, E.Figures, Countable, C.BenchAccepted, ParserFor, CommandOf,
      ExecutionCommand;
    var run := ExecutionCommand(CommandOf(bench), D.Statuses(bench, env, allowSmoke).value);
    forall argv
      ensures Launched(bench, env, allowSmoke, argv) <==> argv == run
    {
      MeasuredOnlyBy(bench, env, allowSmoke, argv, ParserFor(bench));
    }
    forall p
      ensures "parser" in bench && (bench["parser"] == JStr(ParserName(p)) <==> p == ParserFor(bench))
    {
      MeasuredOnlyBy(bench, env, allowSmoke, run, p);
    }
    if Printed(bench, env, env.run(run), m) {
      MeasuredOnlyBy(bench, env, allowSmoke, run, ParserFor(bench));
      assert env.run(run) == Completed(0, env.run(run).stdout);
      assert MeasuredBy(bench, env, allowSmoke, run, ParserFor(bench), env.run(run).stdout, m);
    }
  }

  lemma PrintedIff(bench: Object, env: Env, process: Process, m: M.Metrics)
    requires C.BenchAccepted(JObj(bench))
    ensures Printed(bench, env, process, m) <==>
            && CleanProcess(bench, process) && CountsReadable(bench, env)
            && M.ParseOutput(ParserFor(bench), process.stdout) == M.Found(m)
  {
    E.MetricsMetIff(m, bench);
    if process.Completed? {
      E.ParsedIff(ParserFor(bench), process.stdout, m);
    }
    hide E.MetricsHold, M.MetricsMet, M.ParseOutput, E.Figures, ParserFor, C.BenchAccepted;
  }

  /** A clean run in the configuration's own words. */
  lemma RanCleanMeans(bench: Object, env: Env, allowSmoke: bool, m: M.Metrics)
    requires C.BenchAccepted(JObj(bench)) && D.Statuses(bench, env, allowSmoke).Some?
    requires D.AllAvailable(D.Statuses(bench, env, allowSmoke).value)
    ensures var deps := D.Statuses(bench, env, allowSmoke).value;
            MeasuredOn(bench, env, allowSmoke, m) <==> RanClean(bench, deps, env) && ParsedMetrics(bench, deps, env) == m
  {
    hide MeasuredOn, Printed, D.Statuses, D.AllAvailable, M.MetricsMet, M.ParseOutput, C.BenchAccepted, RanClean, ParserFor, CommandOf,
      ExecutionCommand, CountsReadable;
    var deps := D.Statuses(bench, env, allowSmoke).value;
    RanCleanIff(bench, deps, env);
    MeasuredOnIff(bench, env, allowSmoke, m);
    PrintedIff(bench, env, env.run(ExecutionCommand(CommandOf(bench), deps)), m);
  }
}
