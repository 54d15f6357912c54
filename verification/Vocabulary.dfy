/** The closed vocabularies of benchmark reports. */
module Vocabulary {
  import opened Json

  datatype Parser =
    | CoremarkV1 | NpuScaleSimV1 | StreamV5 | LmbenchBwMem | LmbenchLatMemRd | FioJsonV3
    | TfliteBenchmarkModel | SimulatorMetricsV1

  function ParserOf(v: Json): Option<Parser> {
    if v == JStr("coremark_v1") then Some(CoremarkV1)
    else if v == JStr("openagent_npu_scale_sim_v1") then Some(NpuScaleSimV1)
    else if v == JStr("stream_v5") then Some(StreamV5)
    else if v == JStr("lmbench_bw_mem") then Some(LmbenchBwMem)
    else if v == JStr("lmbench_lat_mem_rd") then Some(LmbenchLatMemRd)
    else if v == JStr("fio_json_v3") then Some(FioJsonV3)
    else if v == JStr("tflite_benchmark_model") then Some(TfliteBenchmarkModel)
    else if v == JStr("simulator_metrics_v1") then Some(SimulatorMetricsV1)
    else None
  }

  datatype Provenance = DryRun | Measured | Simulator | Imported

  function ProvenanceOf(v: Json): Option<Provenance> {
    if v == JStr("dry_run") then Some(DryRun)
    else if v == JStr("measured") then Some(Measured)
    else if v == JStr("simulator") then Some(Simulator)
    else if v == JStr("imported") then Some(Imported)
    else None
  }

  datatype Status =
    | Planned | PlannedMissingDeps | Blocked | MissingDependencies | Passed | Failed | Timeout | Error

  /** `VALID_CLAIM_LEVELS`, which is also the list of choices of `--claim-level`. */
  datatype ClaimLevel = L0RtlUnit | L1RtlFullSoc | L2ArchSim | L3Fpga | L4DevBoard | L5PrototypeSilicon | L6CompletePhone

  predicate SimulatorLevel(level: ClaimLevel) {
    level.L0RtlUnit? || level.L1RtlFullSoc? || level.L2ArchSim?
  }

  /** A field of a report: absent, in its vocabulary, or any other value. */
  datatype Field<+T> = Absent | Known(value: T) | Other(json: Json)

  datatype Section = Software | Clocks | Memory | Thermal | Power | Process | Calibration

  /** `REAL_METADATA_SECTIONS` */
  const SECTIONS: seq<Section> := [Software, Clocks, Memory, Thermal, Power, Process, Calibration]

  function SectionName(s: Section): string {
    match s
    case Software => "software"
    case Clocks => "clocks"
    case Memory => "memory"
    case Thermal => "thermal"
    case Power => "power"
    case Process => "process"
    case Calibration => "calibration"
  }

  function SectionOf(name: string): (r: Option<Section>)
    ensures r.Some? ==> SectionName(r.value) == name
  {
    if name == "software" then Some(Software)
    else if name == "clocks" then Some(Clocks)
    else if name == "memory" then Some(Memory)
    else if name == "thermal" then Some(Thermal)
    else if name == "power" then Some(Power)
    else if name == "process" then Some(Process)
    else if name == "calibration" then Some(Calibration)
    else None
  }

  /** Comparison operators of metric gates. */
  predicate KnownOp(v: Json) {
    v == JStr("==") || v == JStr("!=") || v == JStr("<") || v == JStr("<=") || v == JStr(">") || v == JStr(">=")
  }

  /** Python types named by the field tables; `TNum` is the pair (int, float). */
  datatype Type = TStr | TInt | TNum | TBool | TList | TDict

  /** `isinstance(v, t)`, except that a bool is never accepted as a number. */
  predicate HasType(v: Json, t: Type) {
    match t
    case TStr => v.JStr?
    case TInt => v.JInt?
    case TNum => v.JInt? || v.JFloat?
    case TBool => v.JBool?
    case TList => v.JList?
    case TDict => v.JObj?
  }

  /** `REAL_METADATA_REQUIRED_FIELDS` */
  function RequiredFields(s: Section): seq<(string, Type)> {
    match s
    case Software => [("os", TStr), ("kernel", TStr), ("firmware", TStr), ("runtime", TStr), ("build_id", TStr)]
    case Clocks => [("source", TStr), ("cpu_hz", TNum), ("npu_hz", TNum), ("memory_hz", TNum), ("governor", TStr)]
    case Memory =>
      [("type", TStr), ("capacity_bytes", TInt), ("bandwidth_bytes_per_second", TNum), ("channels", TInt)]
    case Thermal => [("ambient_c", TNum), ("die_c", TNum), ("cooling", TStr), ("throttle_state", TStr)]
    case Power =>
      [("source", TStr), ("watts", TNum), ("measurement_method", TStr), ("sample_count", TInt),
       ("averaging_window_seconds", TNum)]
    case Process =>
      [("node", TStr), ("pdk", TStr), ("process_effects_contract", TDict), ("process_corner_count", TInt),
       ("worst_process_corner", TStr), ("pdk_signoff_claim", TStr)]
    case Calibration =>
      [("status", TStr), ("source", TStr), ("ground_truth_reference", TStr), ("last_calibrated_utc", TStr),
       ("assets", TDict)]
  }
}
