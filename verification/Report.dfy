/** The benchmark report and its validator, `validate_report`. */
module Report {
  import opened Json
  import opened Text
  import opened Vocabulary
  import D = Dependencies
  import G = MetadataGate
  import M = Metrics

  // ---------- the report ----------

  datatype TextField = Name | Suite | Version | InputDataset | PrimaryMetric | Units

  const TEXT_FIELDS: seq<TextField> := [Name, Suite, Version, InputDataset, PrimaryMetric, Units]

  datatype RunMetadata = RunMetadata(requiredMetrics: seq<Json>, gates: seq<Json>, assets: seq<string>)

  /** An entry of `blocked_requirements`. */
  datatype Requirement = OnDependency(dependency: D.DependencyBlocker) | OnMetadata(blocker: G.Blocker)

  datatype Result = Result(
    text: map<TextField, Json>,
    command: Option<Json>,
    dependencies: Option<seq<D.Dep>>,
    artifacts: Option<Json>,
    status: Field<Status>,
    provenance: Field<Provenance>,
    parser: Field<Parser>,
    metrics: Option<Json>,
    runMetadata: Option<RunMetadata>,
    missing: seq<string>,
    blockedAssets: seq<D.BlockedAsset>,
    blockedRequirements: seq<Requirement>)

  datatype HeaderField = Schema | ReportId | DateUtc | DryRunFlag | ConfigInfo

  const HEADER_FIELDS: seq<(HeaderField, Type)> :=
    [(Schema, TStr), (ReportId, TStr), (DateUtc, TStr), (DryRunFlag, TBool), (ConfigInfo, TDict)]

  datatype PlatformField = PlatformName | Revision | SourceTreeSha | HostName | HostSystem

  const PLATFORM_FIELDS: seq<PlatformField> := [PlatformName, Revision, SourceTreeSha, HostName, HostSystem]

  datatype Report = Report(
    header: map<HeaderField, Json>,
    claimLevel: Field<ClaimLevel>,
    platform: Option<map<PlatformField, Json>>,
    metadata: G.Metadata,
    results: seq<Result>)

  /** What the checks of one result read of the rest of the report. */
  datatype Frame = Frame(dryRun: Option<Json>, claimLevel: Field<ClaimLevel>, calibration: Json)

  function FrameOf(r: Report): Frame {
    Frame(if DryRunFlag in r.header then Some(r.header[DryRunFlag]) else None, r.claimLevel,
          G.SectionData(r.metadata, Calibration))
  }

  // ---------- faults of one result ----------

  datatype ResultFault =
    | TextMissing(field: TextField) | TextType(field: TextField)
    | CommandMissing | CommandType | CommandItems
    | DependenciesMissing
    | ArtifactsMissing | ArtifactsType
    | StatusMissing | StatusType | BadStatus
    | ProvenanceMissing | ProvenanceType | BadProvenance
    | ParserMissing | ParserType | BadParser
    | DryRunPassed | DryRunProvenance
    | PassedAsDryRun | NoMetrics | NoRunMetadata
    | MetricProblem(metric: M.MetricFault) | CalibrationProblem(calibration: G.CalibrationFault)
    | PassedWithMissing | PassedWithBlocked
    | PassedUnavailable(name: string) | PassedUnreleasable(name: string)
    | NpuNoMetrics | NpuUnsupportedOps | NpuFallback | NpuDelegation
    | BlockedWithoutCause
    | ForbiddenScore(key: string) | SimulatorClaim | SimulatorSuccess
    | AssetId(index: nat)

  predicate Is<T(==)>(f: Field<T>, v: T) {
    f == Known(v)
  }

  predicate WrongType<T>(f: Field<T>) {
    f.Other? && !f.json.JStr?
  }

  /** Presence, types and vocabularies. */
  predicate ShapeFaulty(r: Result, f: ResultFault) {
    match f
    case TextMissing(t) => t !in r.text
    case TextType(t) => t in r.text && !r.text[t].JStr?
    case CommandMissing => r.command.None?
    case CommandType => r.command.Some? && !r.command.value.JList?
    case CommandItems => r.command.Some? && r.command.value.JList? && !AllStrs(r.command.value)
    case DependenciesMissing => r.dependencies.None?
    case ArtifactsMissing => r.artifacts.None?
    case ArtifactsType => r.artifacts.Some? && !r.artifacts.value.JObj?
    case StatusMissing => r.status.Absent?
    case StatusType => WrongType(r.status)
    case BadStatus => !r.status.Known?
    case ProvenanceMissing => r.provenance.Absent?
    case ProvenanceType => WrongType(r.provenance)
    case BadProvenance => !r.provenance.Known?
    case ParserMissing => r.parser.Absent?
    case ParserType => WrongType(r.parser)
    case BadParser => !r.parser.Known?
    case _ => false
  }

  predicate IsDryRun(frame: Frame) {
    frame.dryRun == Some(JBool(true))
  }

  predicate IsReal(frame: Frame) {
    frame.dryRun == Some(JBool(false))
  }

  predicate HasObject(v: Option<Json>) {
    v.Some? && v.value.JObj?
  }

  function Deps(r: Result): seq<D.Dep> {
    if r.dependencies.Some? then r.dependencies.value else []
  }

  /** `v == 0` in Python, where 0, 0.0 and False are equal. */
  predicate EqualsZero(v: Json) {
    IsNumber(v) && Number(v) == 0.0
  }

  /** A result that claims to have passed. */
  predicate PassedFaulty(frame: Frame, r: Result, f: ResultFault) {
    match f
    case DryRunPassed => IsDryRun(frame) && Is(r.status, Passed)
    case PassedAsDryRun => IsReal(frame) && Is(r.status, Passed) && Is(r.provenance, DryRun)
    case NoMetrics => IsReal(frame) && Is(r.status, Passed) && !(HasObject(r.metrics) && r.metrics.value.fields != map[])
    case NoRunMetadata => IsReal(frame) && Is(r.status, Passed) && r.runMetadata.None?
    case MetricProblem(m) =>
      && IsReal(frame) && Is(r.status, Passed) && HasObject(r.metrics) && r.runMetadata.Some?
      && M.MetricFaulty(r.metrics.value.fields, r.runMetadata.value.requiredMetrics, r.runMetadata.value.gates, m)
    case CalibrationProblem(c) =>
      && IsReal(frame) && Is(r.status, Passed) && HasObject(r.metrics) && r.runMetadata.Some?
      && G.CalibrationFaulty(frame.calibration, r.runMetadata.value.assets, c)
    case PassedWithMissing => Is(r.status, Passed) && r.missing != []
    case PassedWithBlocked => Is(r.status, Passed) && r.blockedAssets != []
    case PassedUnavailable(name) =>
      Is(r.status, Passed) && exists d :: d in Deps(r) && d.name == name && D.IsArtifact(d.kind) && !d.available
    case PassedUnreleasable(name) =>
      && Is(r.status, Passed) && !Is(frame.claimLevel, L2ArchSim)
      && exists d :: d in Deps(r) && d.name == name && d.releaseClaimAllowed == Some(false)
    case _ => false
  }

  predicate IsNpuBenchmark(r: Result) {
    Name in r.text && r.text[Name] == JStr("tflite_e1_npu")
  }

  /** The clause on the NPU benchmark of the phone. */
  predicate NpuFaulty(r: Result, f: ResultFault) {
    Is(r.status, Passed) && IsNpuBenchmark(r) &&
    if !HasObject(r.metrics) then f == NpuNoMetrics
    else
      var m := r.metrics.value.fields;
      var delegated := Get(m, "nnapi_delegated_nodes");
      || (f == NpuUnsupportedOps && !EqualsZero(Get(m, "unsupported_op_count")))
      || (f == NpuFallback && !EqualsZero(Get(m, "cpu_fallback_nodes")))
      || (f == NpuDelegation && !(IsInt(delegated) && IntValue(delegated) > 0))
  }

  function MetricsOrEmpty(r: Result): Json {
    if r.metrics.Some? then r.metrics.value else JObj(map[])
  }

  predicate SimulatorFaulty(frame: Frame, r: Result, f: ResultFault) {
    Is(r.provenance, Simulator) &&
    var metrics := MetricsOrEmpty(r);
    match f
    case ForbiddenScore(k) => metrics.JObj? && k in M.FORBIDDEN_KEYS && k in metrics.fields
    case SimulatorClaim => !(frame.claimLevel.Known? && SimulatorLevel(frame.claimLevel.value))
    case SimulatorSuccess => Is(r.status, Passed) && metrics.JObj? && Get(metrics.fields, M.SUCCESS_KEY) != JBool(true)
    case _ => false
  }

  predicate OtherFaulty(frame: Frame, r: Result, f: ResultFault) {
    match f
    case DryRunProvenance => IsDryRun(frame) && !Is(r.provenance, DryRun)
    case BlockedWithoutCause =>
      Is(r.status, Blocked) && r.blockedAssets == [] && r.blockedRequirements == [] && r.missing == []
    case AssetId(k) => k < |r.blockedAssets| && !NonEmptyStr(r.blockedAssets[k].blockerId)
    case _ => false
  }

  /** What is wrong with one result, declaratively. */
  predicate ResultFaulty(frame: Frame, r: Result, f: ResultFault) {
    || ShapeFaulty(r, f)
    || PassedFaulty(frame, r, f)
    || NpuFaulty(r, f)
    || SimulatorFaulty(frame, r, f)
    || OtherFaulty(frame, r, f)
  }

  ghost predicate ResultSound(frame: Frame, r: Result) {
    forall f :: !ResultFaulty(frame, r, f)
  }

  // ---------- faults of the report ----------

  datatype Defect =
    | HeaderMissing(field: HeaderField) | HeaderType(field: HeaderField)
    | ClaimMissing | ClaimType | PlatformMissing
    | BadSchema | BadClaimLevel
    | SectionMissing(s: Section)
    | FieldType(s: Section, name: string) | FieldBlank(s: Section, name: string)
    | ContractFault | ContractPathFault | ContractDigestFault | NodeFault | CornerCountFault | WorstCornerFault | SignoffFault
    | PlatformFault(part: PlatformField)
    | AtResult(index: nat, fault: ResultFault)

  predicate HeaderFaulty(r: Report, d: Defect) {
    match d
    case HeaderMissing(f) => f !in r.header
    case HeaderType(f) => f in r.header && exists e :: e in HEADER_FIELDS && e.0 == f && !HasType(r.header[f], e.1)
    case ClaimMissing => r.claimLevel.Absent?
    case ClaimType => WrongType(r.claimLevel)
    case PlatformMissing => r.platform.None?
    case BadSchema => !(Schema in r.header && r.header[Schema] == JStr("openagent.benchmark_run.v1"))
    case BadClaimLevel => !r.claimLevel.Known?
    case PlatformFault(f) => !(r.platform.Some? && f in r.platform.value && r.platform.value[f].JStr?)
    case _ => false
  }

  predicate ClaimsSuccess(r: Report) {
    exists i :: 0 <= i < |r.results| && Is(r.results[i].status, Passed)
  }

  predicate FieldFaulty(s: Section, data: Object, fields: seq<(string, Type)>, d: Defect) {
    match d
    case FieldType(t, n) => t == s && exists e :: e in fields && e.0 == n && !HasType(Get(data, n), e.1)
    case FieldBlank(t, n) =>
      t == s && exists e :: e in fields && e.0 == n && e.1 == TStr && Get(data, n).JStr? && Strip(Get(data, n).s) == ""
    case _ => false
  }

  /** The report's own conditions on the process section. */
  predicate ProcessFaulty(data: Object, d: Defect) {
    var contract := Get(data, "process_effects_contract");
    var node, count, worst := Get(data, "node"), Get(data, "process_corner_count"), Get(data, "worst_process_corner");
    match d
    case ContractFault => !contract.JObj?
    case ContractPathFault => contract.JObj? && Get(contract.fields, "path") != JStr(G.CONTRACT_PATH)
    case ContractDigestFault =>
      contract.JObj? && !(Get(contract.fields, "sha256").JStr? && G.IsSha256(Get(contract.fields, "sha256").s))
    case NodeFault => !(node.JStr? && Contains(node.s, "14A"))
    case CornerCountFault => !(count.JInt? && count.i > 0)
    case WorstCornerFault => !(worst.JStr? && StartsWith(worst.s, "14a_"))
    case SignoffFault => Get(data, "pdk_signoff_claim") != JStr(G.SIGNOFF_PASSED)
    case _ => false
  }

  predicate SectionFaulty(metadata: G.Metadata, s: Section, d: Defect) {
    var data := G.SectionData(metadata, s);
    if !data.JObj? then d == SectionMissing(s)
    else
      || FieldFaulty(s, data.fields, RequiredFields(s), d)
      || (s == Process && ProcessFaulty(data.fields, d))
  }

  predicate MetadataFaulty(r: Report, d: Defect) {
    IsReal(FrameOf(r)) && ClaimsSuccess(r) && exists s :: s in SECTIONS && SectionFaulty(r.metadata, s, d)
  }

  /** What is wrong with a report, declaratively. */
  predicate Defective(r: Report, d: Defect) {
    || HeaderFaulty(r, d)
    || MetadataFaulty(r, d)
    || (d.AtResult? && d.index < |r.results| && ResultFaulty(FrameOf(r), r.results[d.index], d.fault))
  }

  ghost predicate Valid(r: Report) {
    forall d :: !Defective(r, d)
  }

  // ---------- the validator ----------

  lemma EveryTextField(t: TextField)
    ensures t in TEXT_FIELDS
  {
    match t {
      case Name => assert TEXT_FIELDS[0] == t;
      case Suite => assert TEXT_FIELDS[1] == t;
      case Version => assert TEXT_FIELDS[2] == t;
      case InputDataset => assert TEXT_FIELDS[3] == t;
      case PrimaryMetric => assert TEXT_FIELDS[4] == t;
      case Units => assert TEXT_FIELDS[5] == t;
    }
  }

  lemma EveryHeaderField(f: HeaderField) returns (t: Type)
    ensures (f, t) in HEADER_FIELDS
  {
    var i := match f case Schema => 0 case ReportId => 1 case DateUtc => 2 case DryRunFlag => 3 case ConfigInfo => 4;
    t := HEADER_FIELDS[i].1;
    assert HEADER_FIELDS[i] == (f, t);
  }

  lemma EveryPlatformField(f: PlatformField)
    ensures f in PLATFORM_FIELDS
  {
    match f {
      case PlatformName => assert PLATFORM_FIELDS[0] == f;
      case Revision => assert PLATFORM_FIELDS[1] == f;
      case SourceTreeSha => assert PLATFORM_FIELDS[2] == f;
      case HostName => assert PLATFORM_FIELDS[3] == f;
      case HostSystem => assert PLATFORM_FIELDS[4] == f;
    }
  }

  method TextFaults(r: Result) returns (e: seq<ResultFault>)
    ensures forall f :: f in e <==> (f.TextMissing? || f.TextType?) && ShapeFaulty(r, f)
  {
    e := [];
    for i := 0 to |TEXT_FIELDS|
      invariant forall f :: f in e <==> (f.TextMissing? || f.TextType?) && f.field in TEXT_FIELDS[..i] && ShapeFaulty(r, f)
    {
      var t := TEXT_FIELDS[i];
      assert TEXT_FIELDS[..i + 1] == TEXT_FIELDS[..i] + [t];
      if t !in r.text {
        e := e + [TextMissing(t)];
      } else if !r.text[t].JStr? {
        e := e + [TextType(t)];
      }
    }
    assert TEXT_FIELDS[..|TEXT_FIELDS|] == TEXT_FIELDS;
    forall t: TextField
      ensures t in TEXT_FIELDS
    {
      EveryTextField(t);
    }
  }

  method FieldChecks<T>(v: Field<T>, missing: ResultFault, wrongType: ResultFault, outside: ResultFault)
    returns (e: seq<ResultFault>)
    ensures forall f :: f in e <==> || (f == missing && v.Absent?) || (f == wrongType && WrongType(v)) || (f == outside && !v.Known?)
  {
    e := [];
    if v.Absent? {
      e := e + [missing];
    } else if v.Other? && !v.json.JStr? {
      e := e + [wrongType];
    }
    if !v.Known? {
      e := e + [outside];
    }
  }

  method VocabularyFaults(r: Result) returns (e: seq<ResultFault>)
    ensures forall f :: f in e <==>
                        && (f.StatusMissing? || f.StatusType? || f.BadStatus? || f.ProvenanceMissing? || f.ProvenanceType?
                            || f.BadProvenance? || f.ParserMissing? || f.ParserType? || f.BadParser?)
                        && ShapeFaulty(r, f)
  {
    var status := FieldChecks(r.status, StatusMissing, StatusType, BadStatus);
    var provenance := FieldChecks(r.provenance, ProvenanceMissing, ProvenanceType, BadProvenance);
    var parser := FieldChecks(r.parser, ParserMissing, ParserType, BadParser);
    e := status + provenance + parser;
  }

  method ShapeFaults(r: Result) returns (e: seq<ResultFault>)
    ensures forall f :: f in e <==> ShapeFaulty(r, f)
  {
    var text := TextFaults(r);
    var vocabulary := VocabularyFaults(r);
    var list := r.command.Some? && r.command.value.JList?;
    e := [];
    if r.command.None? {
      e := e + [CommandMissing];
    }
    if r.command.Some? && !r.command.value.JList? {
      e := e + [CommandType];
    }
    if list && !AllStrs(r.command.value) {
      e := e + [CommandItems];
    }
    if r.dependencies.None? {
      e := e + [DependenciesMissing];
    }
    if r.artifacts.None? {
      e := e + [ArtifactsMissing];
    }
    if r.artifacts.Some? && !r.artifacts.value.JObj? {
      e := e + [ArtifactsType];
    }
    e := text + e + vocabulary;
  }

  /** The clauses on a passed result of a real report that look at its metrics. */
  method MetricFaults(frame: Frame, r: Result) returns (e: seq<ResultFault>)
    requires IsReal(frame) && Is(r.status, Passed) && HasObject(r.metrics) && r.runMetadata.Some?
    ensures forall f :: f in e <==> (f.MetricProblem? || f.CalibrationProblem?) && PassedFaulty(frame, r, f)
  {
    var run := r.runMetadata.value;
    var problems := M.CheckMetricRequirements(r.metrics.value.fields, run.requiredMetrics, run.gates);
    var faults := G.CheckCalibration(frame.calibration, run.assets);
    e := [];
    for i := 0 to |problems|
      invariant forall f :: f in e <==> f.MetricProblem? && f.metric in problems[..i]
    {
      assert problems[..i + 1] == problems[..i] + [problems[i]];
      e := e + [MetricProblem(problems[i])];
    }
    assert problems[..|problems|] == problems;
    for i := 0 to |faults|
      invariant forall f :: f in e <==> (f.MetricProblem? && f.metric in problems) || (f.CalibrationProblem? && f.calibration in faults[..i])
    {
      assert faults[..i + 1] == faults[..i] + [faults[i]];
      e := e + [CalibrationProblem(faults[i])];
    }
    assert faults[..|faults|] == faults;
  }

  method DependencyFaults(frame: Frame, r: Result) returns (e: seq<ResultFault>)
    requires Is(r.status, Passed)
    ensures forall f :: f in e <==> (f.PassedUnavailable? || f.PassedUnreleasable?) && PassedFaulty(frame, r, f)
  {
    e := [];
    var deps := Deps(r);
    for i := 0 to |deps|
      invariant forall f :: f in e <==>
                            || (f.PassedUnavailable? && exists d :: d in deps[..i] && d.name == f.name && D.IsArtifact(d.kind) && !d.available)
                            || (f.PassedUnreleasable? && !Is(frame.claimLevel, L2ArchSim)
                                && exists d :: d in deps[..i] && d.name == f.name && d.releaseClaimAllowed == Some(false))
    {
      var d := deps[i];
      assert deps[..i + 1] == deps[..i] + [d];
      if D.IsArtifact(d.kind) && !d.available {
        e := e + [PassedUnavailable(d.name)];
      }
      if !Is(frame.claimLevel, L2ArchSim) && d.releaseClaimAllowed == Some(false) {
        e := e + [PassedUnreleasable(d.name)];
      }
    }
    assert deps[..|deps|] == deps;
  }

  /** The clauses that apply to a passed result of a real report only. */
  method RealFaults(frame: Frame, r: Result) returns (e: seq<ResultFault>)
    requires IsReal(frame) && Is(r.status, Passed)
    ensures forall f :: f in e <==>
                        && (f.PassedAsDryRun? || f.NoMetrics? || f.NoRunMetadata? || f.MetricProblem? || f.CalibrationProblem?)
                        && PassedFaulty(frame, r, f)
  {
    e := [];
    if r.provenance == Known(DryRun) {
      e := e + [PassedAsDryRun];
    }
    if !(HasObject(r.metrics) && r.metrics.value.fields != map[]) {
      e := e + [NoMetrics];
    }
    if r.runMetadata.None? {
      e := e + [NoRunMetadata];
    }
    if HasObject(r.metrics) && r.runMetadata.Some? {
      var more := MetricFaults(frame, r);
      e := e + more;
    }
  }

  method PassedFaults(frame: Frame, r: Result) returns (e: seq<ResultFault>)
    ensures forall f :: f in e <==> PassedFaulty(frame, r, f)
  {
    e := [];
    if r.status != Known(Passed) {
      return;
    }
    var genuine: seq<ResultFault> := [];
    if IsReal(frame) {
      genuine := RealFaults(frame, r);
    }
    var dependencies := DependencyFaults(frame, r);
    e := [];
    if IsDryRun(frame) {
      e := e + [DryRunPassed];
    }
    e := e + genuine;
    if r.missing != [] {
      e := e + [PassedWithMissing];
    }
    if r.blockedAssets != [] {
      e := e + [PassedWithBlocked];
    }
    e := e + dependencies;
  }

  method NpuFaults(r: Result) returns (e: seq<ResultFault>)
    ensures forall f :: f in e <==> NpuFaulty(r, f)
  {
    e := [];
    if r.status == Known(Passed) && IsNpuBenchmark(r) {
      if !HasObject(r.metrics) {
        return [NpuNoMetrics];
      }
      var m := r.metrics.value.fields;
      var delegated := Get(m, "nnapi_delegated_nodes");
      e := [];
      if !EqualsZero(Get(m, "unsupported_op_count")) {
        e := e + [NpuUnsupportedOps];
      }
      if !EqualsZero(Get(m, "cpu_fallback_nodes")) {
        e := e + [NpuFallback];
      }
      if !(IsInt(delegated) && IntValue(delegated) > 0) {
        e := e + [NpuDelegation];
      }
    }
  }

  method SimulatorFaults(frame: Frame, r: Result) returns (e: seq<ResultFault>)
    ensures forall f :: f in e <==> SimulatorFaulty(frame, r, f)
  {
    e := [];
    if r.provenance != Known(Simulator) {
      return;
    }
    var metrics := MetricsOrEmpty(r);
    if metrics.JObj? {
      for i := 0 to |M.FORBIDDEN_KEYS|
        invariant forall f :: f in e <==> f.ForbiddenScore? && f.key in M.FORBIDDEN_KEYS[..i] && f.key in metrics.fields
      {
        var k := M.FORBIDDEN_KEYS[i];
        assert M.FORBIDDEN_KEYS[..i + 1] == M.FORBIDDEN_KEYS[..i] + [k];
        if k in metrics.fields {
          e := e + [ForbiddenScore(k)];
        }
      }
      assert M.FORBIDDEN_KEYS[..|M.FORBIDDEN_KEYS|] == M.FORBIDDEN_KEYS;
    }
    if frame.claimLevel != Known(L0RtlUnit) && frame.claimLevel != Known(L1RtlFullSoc) && frame.claimLevel != Known(L2ArchSim) {
      e := e + [SimulatorClaim];
    }
    if r.status == Known(Passed) && metrics.JObj? && Get(metrics.fields, M.SUCCESS_KEY) != JBool(true) {
      e := e + [SimulatorSuccess];
    }
  }

  method OtherFaults(frame: Frame, r: Result) returns (e: seq<ResultFault>)
    ensures forall f :: f in e <==> OtherFaulty(frame, r, f)
  {
    e := [];
    if IsDryRun(frame) && r.provenance != Known(DryRun) {
      e := e + [DryRunProvenance];
    }
    if r.status == Known(Blocked) && r.blockedAssets == [] && r.blockedRequirements == [] && r.missing == [] {
      e := e + [BlockedWithoutCause];
    }
    ghost var first := e;
    for i := 0 to |r.blockedAssets|
      invariant forall f :: f in e <==> f in first || (f.AssetId? && f.index < i && OtherFaulty(frame, r, f))
    {
      if !NonEmptyStr(r.blockedAssets[i].blockerId) {
        e := e + [AssetId(i)];
      }
    }
  }

  method ResultFaults(frame: Frame, r: Result) returns (e: seq<ResultFault>)
    ensures forall f :: f in e <==> ResultFaulty(frame, r, f)
  {
    var shape := ShapeFaults(r);
    var passed := PassedFaults(frame, r);
    var npu := NpuFaults(r);
    var simulator := SimulatorFaults(frame, r);
    var other := OtherFaults(frame, r);
    e := shape + passed + npu + simulator + other;
  }

  method SectionFieldFaults(s: Section, data: Object) returns (e: seq<Defect>)
    ensures forall d :: d in e <==> FieldFaulty(s, data, RequiredFields(s), d)
  {
    hide RequiredFields, Strip;
    e := [];
    var fields := RequiredFields(s);
    for i := 0 to |fields|
      invariant forall d :: d in e <==> FieldFaulty(s, data, fields[..i], d)
    {
      var x := fields[i];
      var value := Get(data, x.0);
      assert fields[..i + 1] == fields[..i] + [x];
      if !HasType(value, x.1) {
        e := e + [FieldType(s, x.0)];
      } else if x.1 == TStr && Strip(value.s) == "" {
        e := e + [FieldBlank(s, x.0)];
      }
    }
    assert fields[..|fields|] == fields;
  }

  method SectionFaults(metadata: G.Metadata, s: Section) returns (e: seq<Defect>)
    ensures forall d :: d in e <==> SectionFaulty(metadata, s, d)
  {
    var data := G.SectionData(metadata, s);
    if !data.JObj? {
      return [SectionMissing(s)];
    }
    e := SectionFieldFaults(s, data.fields);
    if s == Process {
      var process := ProcessFaults(data.fields);
      e := e + process;
    }
  }

  method ContractFaults(data: Object) returns (e: seq<Defect>)
    ensures forall d :: d in e <==> ProcessFaulty(data, d) && (d == ContractFault || d == ContractPathFault || d == ContractDigestFault)
  {
    hide Contains, G.IsSha256;
    e := [];
    var contract := Get(data, "process_effects_contract");
    if !contract.JObj? {
      return [ContractFault];
    }
    if Get(contract.fields, "path") != JStr(G.CONTRACT_PATH) {
      e := e + [ContractPathFault];
    }
    var digest := Get(contract.fields, "sha256");
    if !(digest.JStr? && G.IsSha256(digest.s)) {
      e := e + [ContractDigestFault];
    }
  }

  method ProcessFaults(data: Object) returns (e: seq<Defect>)
    ensures forall d :: d in e <==> ProcessFaulty(data, d)
  {
    hide Contains, G.IsSha256;
    var contract := ContractFaults(data);
    var rest: seq<Defect> := [];
    var node, count := Get(data, "node"), Get(data, "process_corner_count");
    if !(node.JStr? && Contains(node.s, "14A")) {
      rest := rest + [NodeFault];
    }
    if !(count.JInt? && count.i > 0) {
      rest := rest + [CornerCountFault];
    }
    var worst := Get(data, "worst_process_corner");
    if !(worst.JStr? && StartsWith(worst.s, "14a_")) {
      rest := rest + [WorstCornerFault];
    }
    if Get(data, "pdk_signoff_claim") != JStr(G.SIGNOFF_PASSED) {
      rest := rest + [SignoffFault];
    }
    e := contract + rest;
  }

  method FieldFaults(r: Report) returns (e: seq<Defect>)
    ensures forall d :: d in e <==> (d.HeaderMissing? || d.HeaderType?) && HeaderFaulty(r, d)
  {
    e := [];
    for i := 0 to |HEADER_FIELDS|
      invariant forall d :: d in e <==>
                            || (d.HeaderMissing? && (exists x :: x in HEADER_FIELDS[..i] && x.0 == d.field) && d.field !in r.header)
                            || (d.HeaderType? && d.field in r.header
                                && exists x :: x in HEADER_FIELDS[..i] && x.0 == d.field && !HasType(r.header[d.field], x.1))
    {
      var x := HEADER_FIELDS[i];
      assert HEADER_FIELDS[..i + 1] == HEADER_FIELDS[..i] + [x];
      if x.0 !in r.header {
        e := e + [HeaderMissing(x.0)];
      }
      if x.0 in r.header && !HasType(r.header[x.0], x.1) {
        e := e + [HeaderType(x.0)];
      }
    }
    assert HEADER_FIELDS[..|HEADER_FIELDS|] == HEADER_FIELDS;
    forall d: Defect | d.HeaderMissing?
      ensures exists x :: x in HEADER_FIELDS && x.0 == d.field
    {
      var t := EveryHeaderField(d.field);
      assert (d.field, t).0 == d.field;
    }
  }

  method HeaderFaults(r: Report) returns (e: seq<Defect>)
    ensures forall d :: d in e <==> HeaderFaulty(r, d)
  {
    var fields := FieldFaults(r);
    var platform := PlatformFaults(r);
    e := fields;
    if r.claimLevel.Absent? {
      e := e + [ClaimMissing];
    }
    if r.claimLevel.Other? && !r.claimLevel.json.JStr? {
      e := e + [ClaimType];
    }
    if r.platform.None? {
      e := e + [PlatformMissing];
    }
    if !(Schema in r.header && r.header[Schema] == JStr("openagent.benchmark_run.v1")) {
      e := e + [BadSchema];
    }
    if !r.claimLevel.Known? {
      e := e + [BadClaimLevel];
    }
    e := e + platform;
  }

  method PlatformFaults(r: Report) returns (e: seq<Defect>)
    ensures forall d :: d in e <==> d.PlatformFault? && HeaderFaulty(r, d)
  {
    e := [];
    for i := 0 to |PLATFORM_FIELDS|
      invariant forall d :: d in e <==> d.PlatformFault? && d.part in PLATFORM_FIELDS[..i] && HeaderFaulty(r, d)
    {
      var f := PLATFORM_FIELDS[i];
      assert PLATFORM_FIELDS[..i + 1] == PLATFORM_FIELDS[..i] + [f];
      if !(r.platform.Some? && f in r.platform.value && r.platform.value[f].JStr?) {
        e := e + [PlatformFault(f)];
      }
    }
    assert PLATFORM_FIELDS[..|PLATFORM_FIELDS|] == PLATFORM_FIELDS;
    forall f: PlatformField
      ensures f in PLATFORM_FIELDS
    {
      EveryPlatformField(f);
    }
  }

  method MetadataFaults(r: Report) returns (e: seq<Defect>)
    ensures forall d :: d in e <==> MetadataFaulty(r, d)
  {
    e := [];
    if !IsReal(FrameOf(r)) || !ClaimsSuccess(r) {
      return;
    }
    for i := 0 to |SECTIONS|
      invariant forall d :: d in e <==> exists s :: s in SECTIONS[..i] && SectionFaulty(r.metadata, s, d)
    {
      var more := SectionFaults(r.metadata, SECTIONS[i]);
      assert SECTIONS[..i + 1] == SECTIONS[..i] + [SECTIONS[i]];
      e := e + more;
    }
    assert SECTIONS[..|SECTIONS|] == SECTIONS;
  }

  /** `validate_report`: reports exactly the defects that are present. */
  method ValidateReport(r: Report) returns (e: seq<Defect>)
    ensures forall d :: d in e <==> Defective(r, d)
    ensures e == [] <==> Valid(r)
  {
    var header := HeaderFaults(r);
    var metadata := MetadataFaults(r);
    e := header + metadata;
    ghost var first := e;
    var frame := FrameOf(r);
    for i := 0 to |r.results|
      invariant forall d :: d in e <==> d in first || (d.AtResult? && d.index < i && ResultFaulty(frame, r.results[d.index], d.fault))
    {
      var faults := ResultFaults(frame, r.results[i]);
      var more := AtIndex(i, faults);
      e := e + more;
    }
    if e != [] {
      assert e[0] in e;
    }
  }

  method AtIndex(index: nat, faults: seq<ResultFault>) returns (e: seq<Defect>)
    ensures forall d :: d in e <==> d.AtResult? && d.index == index && d.fault in faults
  {
    e := [];
    for i := 0 to |faults|
      invariant forall d :: d in e <==> d.AtResult? && d.index == index && d.fault in faults[..i]
    {
      assert faults[..i + 1] == faults[..i] + [faults[i]];
      e := e + [AtResult(index, faults[i])];
    }
    assert faults[..|faults|] == faults;
  }
}
