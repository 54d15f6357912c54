/** Output parsers and metric gates of the benchmark runner. */
module Metrics {
  import opened Json
  import opened Host
  import opened Vocabulary

  type Metrics = map<string, Json>

  /** A parser finds its metrics, reports that it cannot, or fails with an error the runner does not catch. */
  datatype ParseResult = Found(metrics: Metrics) | NotFound | Crash

  // ---------- captures ----------

  /** The last line on which a pattern captures decides. */
  function Last<T>(captures: seq<Option<T>>): Option<T> {
    if captures == [] then None
    else
      var n := |captures| - 1;
      if captures[n].Some? then captures[n] else Last(captures[..n])
  }

  /** It is the capture behind which there is no other. */
  lemma {:induction false} LastMeans<T>(captures: seq<Option<T>>) returns (k: nat)
    ensures Last(captures).None? ==> forall i :: 0 <= i < |captures| ==> captures[i].None?
    ensures Last(captures).Some? ==>
              k < |captures| && captures[k] == Last(captures) && forall j :: k < j < |captures| ==> captures[j].None?
  {
    k := 0;
    if captures != [] {
      var n := |captures| - 1;
      if captures[n].Some? {
        k := n;
      } else {
        k := LastMeans(captures[..n]);
        assert forall j :: 0 <= j < n ==> captures[..n][j] == captures[j];
      }
    }
  }

  lemma LastSnoc<T>(captures: seq<Option<T>>, c: Option<T>)
    ensures Last(captures + [c]) == if c.Some? then c else Last(captures)
  {
    assert (captures + [c])[..|captures|] == captures;
  }

  /** All captured values, in order. */
  function Captured<T>(captures: seq<Option<T>>): (values: seq<T>)
    ensures values == [] <==> Last(captures).None?
    ensures values != [] ==> Last(captures) == Some(values[|values| - 1])
  {
    if captures == [] then []
    else
      var n := |captures| - 1;
      if captures[n].Some? then Captured(captures[..n]) + [captures[n].value] else Captured(captures[..n])
  }

  lemma CapturedSnoc<T>(captures: seq<Option<T>>, c: Option<T>)
    ensures Captured(captures + [c]) == if c.Some? then Captured(captures) + [c.value] else Captured(captures)
  {
    assert (captures + [c])[..|captures|] == captures;
  }

  function Entry(key: string, v: Option<Json>): Metrics {
    match v
    case None => map[]
    case Some(j) => map[key := j]
  }

  function FloatEntry(key: string, v: Option<real>): Metrics {
    Entry(key, if v.Some? then Some(JFloat(v.value)) else None)
  }

  // ---------- TFLite ----------

  const TFLITE_KEYS: set<string> := {"avg_latency_us", "cpu_fallback_percent", "unsupported_op_count"}

  function Averages(lines: seq<TfliteLine>): seq<Option<real>> {
    seq(|lines|, i requires 0 <= i < |lines| => lines[i].average)
  }

  function Fallbacks(lines: seq<TfliteLine>): seq<Option<real>> {
    seq(|lines|, i requires 0 <= i < |lines| => lines[i].fallback)
  }

  function Unsupported(lines: seq<TfliteLine>): seq<Option<nat>> {
    seq(|lines|, i requires 0 <= i < |lines| => lines[i].unsupported)
  }

  function TfliteMetrics(lines: seq<TfliteLine>): Metrics {
    var unsupported := Last(Unsupported(lines));
    FloatEntry("avg_latency_us", Last(Averages(lines)))
    + FloatEntry("cpu_fallback_percent", Last(Fallbacks(lines)))
    + Entry("unsupported_op_count", if unsupported.Some? then Some(JInt(unsupported.value)) else None)
  }

  /** `parse_tflite_benchmark_model`: one pass over the lines, later captures replacing earlier ones. */
  method ParseTflite(lines: seq<TfliteLine>) returns (r: ParseResult)
    ensures r == if Last(Averages(lines)).Some? then Found(TfliteMetrics(lines)) else NotFound
  {
    var average: Option<real>, fallback: Option<real>, unsupported: Option<nat> := None, None, None;
    for i := 0 to |lines|
      invariant average == Last(Averages(lines)[..i])
      invariant fallback == Last(Fallbacks(lines)[..i])
      invariant unsupported == Last(Unsupported(lines)[..i])
    {
      NextCapture(Averages(lines), i);
      NextCapture(Fallbacks(lines), i);
      NextCapture(Unsupported(lines), i);
      if lines[i].average.Some? {
        average := lines[i].average;
      }
      if lines[i].fallback.Some? {
        fallback := lines[i].fallback;
      }
      if lines[i].unsupported.Some? {
        unsupported := lines[i].unsupported;
      }
    }
    AllCaptures(Averages(lines));
    AllCaptures(Fallbacks(lines));
    AllCaptures(Unsupported(lines));
    if average.None? {
      return NotFound;
    }
    r := Found(FloatEntry("avg_latency_us", average)
               + FloatEntry("cpu_fallback_percent", fallback)
               + Entry("unsupported_op_count", if unsupported.Some? then Some(JInt(unsupported.value)) else None));
  }

  lemma NextCapture<T>(captures: seq<Option<T>>, i: nat)
    requires i < |captures|
    ensures Last(captures[..i + 1]) == if captures[i].Some? then captures[i] else Last(captures[..i])
    ensures Captured(captures[..i + 1]) == if captures[i].Some? then Captured(captures[..i]) + [captures[i].value] else Captured(captures[..i])
  {
    LastSnoc(captures[..i], captures[i]);
    CapturedSnoc(captures[..i], captures[i]);
    assert captures[..i + 1] == captures[..i] + [captures[i]];
  }

  lemma AllCaptures<T>(captures: seq<Option<T>>)
    ensures captures[..|captures|] == captures
  {
  }

  // ---------- CoreMark ----------

  function Iterations(lines: seq<CoremarkLine>): seq<Option<real>> {
    seq(|lines|, i requires 0 <= i < |lines| => lines[i].iterations)
  }

  function PerMhz(lines: seq<CoremarkLine>): seq<Option<real>> {
    seq(|lines|, i requires 0 <= i < |lines| => lines[i].perMhz)
  }

  function CoremarkMetrics(lines: seq<CoremarkLine>): Metrics {
    FloatEntry("iterations_per_second", Last(Iterations(lines))) + FloatEntry("coremark_per_mhz", Last(PerMhz(lines)))
  }

  /** `parse_coremark` */
  method ParseCoremark(lines: seq<CoremarkLine>) returns (r: ParseResult)
    ensures r == if Last(PerMhz(lines)).Some? then Found(CoremarkMetrics(lines)) else NotFound
  {
    var iterations: Option<real>, perMhz: Option<real> := None, None;
    for i := 0 to |lines|
      invariant iterations == Last(Iterations(lines)[..i])
      invariant perMhz == Last(PerMhz(lines)[..i])
    {
      NextCapture(Iterations(lines), i);
      NextCapture(PerMhz(lines), i);
      if lines[i].iterations.Some? {
        iterations := lines[i].iterations;
      }
      if lines[i].perMhz.Some? {
        perMhz := lines[i].perMhz;
      }
    }
    AllCaptures(Iterations(lines));
    AllCaptures(PerMhz(lines));
    if perMhz.None? {
      return NotFound;
    }
    r := Found(FloatEntry("iterations_per_second", iterations) + FloatEntry("coremark_per_mhz", perMhz));
  }

  // ---------- STREAM ----------

  function StreamKey(k: StreamKernel): string {
    match k
    case Copy => "copy_mb_per_s"
    case Scale => "scale_mb_per_s"
    case Add => "add_mb_per_s"
    case Triad => "triad_mb_per_s"
  }

  /** The bandwidths reported for one kernel. */
  function OfKernel(lines: seq<Option<(StreamKernel, real)>>, k: StreamKernel): seq<Option<real>> {
    seq(|lines|, i requires 0 <= i < |lines| => if lines[i].Some? && lines[i].value.0 == k then Some(lines[i].value.1) else None)
  }

  function KernelEntry(lines: seq<Option<(StreamKernel, real)>>, k: StreamKernel): (m: Metrics)
    ensures forall key :: key in m ==> key == StreamKey(k)
  {
    FloatEntry(StreamKey(k), Last(OfKernel(lines, k)))
  }

  function StreamMetrics(lines: seq<Option<(StreamKernel, real)>>): Metrics {
    KernelEntry(lines, Copy) + KernelEntry(lines, Scale) + KernelEntry(lines, Add) + KernelEntry(lines, Triad)
  }

  lemma StreamKeysDistinct(j: StreamKernel, k: StreamKernel)
    ensures StreamKey(j) == StreamKey(k) <==> j == k
  {
    assert StreamKey(Copy)[0] == 'c' && StreamKey(Scale)[0] == 's' && StreamKey(Add)[0] == 'a' && StreamKey(Triad)[0] == 't';
  }

  lemma KernelSnoc(lines: seq<Option<(StreamKernel, real)>>, line: Option<(StreamKernel, real)>, k: StreamKernel)
    ensures KernelEntry(lines + [line], k) ==
            if line.Some? && line.value.0 == k then map[StreamKey(k) := JFloat(line.value.1)] else KernelEntry(lines, k)
  {
    var c := if line.Some? && line.value.0 == k then Some(line.value.1) else None;
    assert OfKernel(lines + [line], k) == OfKernel(lines, k) + [c];
    LastSnoc(OfKernel(lines, k), c);
  }

  lemma StreamSnoc(lines: seq<Option<(StreamKernel, real)>>, line: Option<(StreamKernel, real)>)
    ensures StreamMetrics(lines + [line]) ==
            if line.None? then StreamMetrics(lines) else StreamMetrics(lines)[StreamKey(line.value.0) := JFloat(line.value.1)]
  {
    hide KernelEntry, StreamKey;
    KernelSnoc(lines, line, Copy);
    KernelSnoc(lines, line, Scale);
    KernelSnoc(lines, line, Add);
    KernelSnoc(lines, line, Triad);
    var a, b, c, d := KernelEntry(lines, Copy), KernelEntry(lines, Scale), KernelEntry(lines, Add), KernelEntry(lines, Triad);
    if line.Some? {
      var k, key, v := line.value.0, StreamKey(line.value.0), JFloat(line.value.1);
      StreamKeysDistinct(k, Copy);
      StreamKeysDistinct(k, Scale);
      StreamKeysDistinct(k, Add);
      StreamKeysDistinct(k, Triad);
      match k {
        case Copy => Overwrite(map[], a, b, c, d, key, v);
        case Scale => Overwrite(a, b, c, d, map[], key, v);
        case Add => Overwrite(a + b, c, d, map[], map[], key, v);
        case Triad => Overwrite(a + b + c, d, map[], map[], map[], key, v);
      }
    }
  }

  lemma Overwrite(front: Metrics, was: Metrics, b: Metrics, c: Metrics, d: Metrics, key: string, v: Json)
    requires (forall k :: k in was ==> k == key) && key !in b && key !in c && key !in d
    ensures front + map[key := v] + b + c + d == (front + was + b + c + d)[key := v]
    ensures map[] + map[key := v] + b + c + d == map[key := v] + b + c + d && map[] + was + b + c + d == was + b + c + d
    ensures front + map[key := v] + b + c + map[] == front + map[key := v] + b + c && front + was + b + c + map[] == front + was + b + c
    ensures front + map[key := v] + map[] + map[] + map[] == front + map[key := v] && front + was + map[] + map[] + map[] == front + was
    ensures front + map[key := v] + b + map[] + map[] == front + map[key := v] + b && front + was + b + map[] + map[] == front + was + b
  {
    EmptyRight(front + map[key := v]);
    EmptyRight(front + was);
    EmptyRight(front + map[key := v] + b);
    EmptyRight(front + was + b);
    EmptyRight(front + map[key := v] + b + c);
    EmptyRight(front + was + b + c);
    EmptyRight(map[key := v]);
    EmptyRight(was);
  }

  lemma EmptyRight(m: Metrics)
    ensures m + map[] == m && map[] + m == m
  {
  }

  /** `parse_stream`: a dictionary that later lines overwrite. */
  method ParseStream(lines: seq<Option<(StreamKernel, real)>>) returns (r: ParseResult)
    ensures r == if Last(OfKernel(lines, Triad)).Some? then Found(StreamMetrics(lines)) else NotFound
  {
    hide StreamMetrics;
    var metrics: Metrics := map[];
    NoStream();
    for i := 0 to |lines|
      invariant metrics == StreamMetrics(lines[..i])
    {
      StreamSnoc(lines[..i], lines[i]);
      assert lines[..i + 1] == lines[..i] + [lines[i]];
      if lines[i].Some? {
        metrics := metrics[StreamKey(lines[i].value.0) := JFloat(lines[i].value.1)];
      }
    }
    assert lines[..|lines|] == lines;
    TriadKey(lines);
    r := if StreamKey(Triad) in metrics then Found(metrics) else NotFound;
  }

  lemma NoStream()
    ensures StreamMetrics([]) == map[]
  {
  }

  lemma TriadKey(lines: seq<Option<(StreamKernel, real)>>)
    ensures StreamKey(Triad) in StreamMetrics(lines) <==> Last(OfKernel(lines, Triad)).Some?
  {
    StreamKeysDistinct(Copy, Triad);
    StreamKeysDistinct(Scale, Triad);
    StreamKeysDistinct(Add, Triad);
  }

  // ---------- lmbench ----------

  /** `parse_lmbench_bw_mem`: the last bandwidth counts. */
  method ParseBwMem(lines: seq<Option<real>>) returns (r: ParseResult)
    ensures r == if Last(lines).Some? then Found(map["bandwidth_mb_per_s" := JFloat(Last(lines).value)]) else NotFound
  {
    var values: seq<real> := [];
    for i := 0 to |lines|
      invariant values == Captured(lines[..i])
    {
      NextCapture(lines, i);
      if lines[i].Some? {
        values := values + [lines[i].value];
      }
    }
    AllCaptures(lines);
    if values == [] {
      return NotFound;
    }
    r := Found(map["bandwidth_mb_per_s" := JFloat(values[|values| - 1])]);
  }

  function PointOf(p: (real, real)): Json {
    JObj(map["size_mb" := JFloat(p.0), "latency_ns" := JFloat(p.1)])
  }

  function PointList(points: seq<(real, real)>): seq<Json> {
    seq(|points|, i requires 0 <= i < |points| => PointOf(points[i]))
  }

  function MaxLatency(points: seq<(real, real)>): (r: real)
    requires points != []
    ensures forall i :: 0 <= i < |points| ==> points[i].1 <= r
    ensures exists i :: 0 <= i < |points| && points[i].1 == r
  {
    var n := |points| - 1;
    if n == 0 then points[0].1
    else
      var before := MaxLatency(points[..n]);
      if points[n].1 > before then points[n].1 else before
  }

  lemma NoPoints()
    ensures PointList([]) == [] && Captured<(real, real)>([]) == []
  {
  }

  lemma PointsSnoc(points: seq<(real, real)>, p: (real, real))
    ensures PointList(points + [p]) == PointList(points) + [PointOf(p)]
    ensures MaxLatency(points + [p]) == if points == [] || p.1 > MaxLatency(points) then p.1 else MaxLatency(points)
  {
    assert (points + [p])[..|points|] == points;
  }

  /** `parse_lmbench_lat_mem_rd`: all points and their greatest latency. */
  method ParseLatMemRd(lines: seq<Option<(real, real)>>) returns (r: ParseResult)
    ensures var points := Captured(lines);
            r == if points == [] then NotFound
                 else Found(map["points" := JList(PointList(points)), "max_latency_ns" := JFloat(MaxLatency(points))])
  {
    hide MaxLatency, PointList, Captured, PointOf;
    var points: seq<Json>, greatest: Option<real> := [], None;
    NoPoints();
    for i := 0 to |lines|
      invariant points == PointList(Captured(lines[..i])) && |points| == |Captured(lines[..i])|
      invariant greatest == if Captured(lines[..i]) == [] then None else Some(MaxLatency(Captured(lines[..i])))
    {
      NextCapture(lines, i);
      if lines[i].Some? {
        var p := lines[i].value;
        PointsSnoc(Captured(lines[..i]), p);
        points := points + [PointOf(p)];
        greatest := if greatest.None? || p.1 > greatest.value then Some(p.1) else greatest;
      }
    }
    AllCaptures(lines);
    if points == [] {
      return NotFound;
    }
    r := Found(map["points" := JList(points), "max_latency_ns" := JFloat(greatest.value)]);
  }

  // ---------- fio ----------

  datatype FioTotals = FioTotals(readIops: real, writeIops: real, readBandwidth: real, writeBandwidth: real)

  /** The sums over the jobs that have figures. */
  function Totals(jobs: seq<FioJob>): FioTotals {
    if jobs == [] then FioTotals(0.0, 0.0, 0.0, 0.0)
    else
      var t, job := Totals(jobs[..|jobs| - 1]), jobs[|jobs| - 1];
      if job.Figures?
      then FioTotals(t.readIops + job.readIops, t.writeIops + job.writeIops,
                     t.readBandwidth + job.readBandwidth, t.writeBandwidth + job.writeBandwidth)
      else t
  }

  /** The first job whose figures cannot be summed decides how the parser fails. */
  function FirstBad(jobs: seq<FioJob>): Option<FioJob> {
    if jobs == [] then None else if !jobs[0].Figures? then Some(jobs[0]) else FirstBad(jobs[1..])
  }

  lemma {:induction false} FirstBadAt(jobs: seq<FioJob>, i: nat)
    requires i <= |jobs| && forall j :: 0 <= j < i ==> jobs[j].Figures?
    ensures i < |jobs| && !jobs[i].Figures? ==> FirstBad(jobs) == Some(jobs[i])
    ensures i == |jobs| ==> FirstBad(jobs) == None
  {
    if i > 0 {
      FirstBadAt(jobs[1..], i - 1);
    }
  }

  function FioMetrics(t: FioTotals): Metrics {
    map["read_iops" := JFloat(t.readIops), "write_iops" := JFloat(t.writeIops),
        "read_bw_kib_s" := JFloat(t.readBandwidth), "write_bw_kib_s" := JFloat(t.writeBandwidth)]
  }

  function FioResult(scan: FioScan): ParseResult {
    match scan
    case NoJson => NotFound
    case NoObject => Crash
    case Jobs(jobs) =>
      match FirstBad(jobs)
      case Some(NotNumeric) => NotFound
      case Some(_) => Crash
      case None => if jobs == [] || Totals(jobs) == FioTotals(0.0, 0.0, 0.0, 0.0) then NotFound else Found(FioMetrics(Totals(jobs)))
  }

  /** `parse_fio_json`: four running totals; the first bad job raises. */
  method ParseFio(scan: FioScan) returns (r: ParseResult)
    ensures r == FioResult(scan)
  {
    if !scan.Jobs? {
      return if scan.NoJson? then NotFound else Crash;
    }
    var jobs := scan.jobs;
    var readIops, writeIops, readBandwidth, writeBandwidth := 0.0, 0.0, 0.0, 0.0;
    for i := 0 to |jobs|
      invariant forall j :: 0 <= j < i ==> jobs[j].Figures?
      invariant Totals(jobs[..i]) == FioTotals(readIops, writeIops, readBandwidth, writeBandwidth)
    {
      assert jobs[..i + 1][..i] == jobs[..i];
      match jobs[i] {
        case Figures(ri, wi, rb, wb) =>
          readIops, writeIops, readBandwidth, writeBandwidth := readIops + ri, writeIops + wi, readBandwidth + rb, writeBandwidth + wb;
        case NotNumeric =>
          FirstBadAt(jobs, i);
          return NotFound;
        case Malformed =>
          FirstBadAt(jobs, i);
          return Crash;
      }
    }
    assert jobs[..|jobs|] == jobs;
    FirstBadAt(jobs, |jobs|);
    var totals := FioTotals(readIops, writeIops, readBandwidth, writeBandwidth);
    if jobs == [] || totals == FioTotals(0.0, 0.0, 0.0, 0.0) {
      return NotFound;
    }
    r := Found(FioMetrics(totals));
  }

  // ---------- the other parsers ----------

  const SIMULATOR_KEYS: seq<string> := ["target_cycles", "simulated_frequency_hz", "ipc"]
  const FORBIDDEN_KEYS: seq<string> := ["wall_clock_score", "phone_score", "geekbench_score"]
  const SUCCESS_KEY := "benchmark_success_allowed"

  const NPU_KEYS: set<string> := {
    "kernel_count", "process_corner_count", "dense_int8_peak_tops", "int8_macs_per_cycle", "dma_queue_depth",
    "scratchpad_kib", "total_macs", "total_bytes_read", "total_bytes_written", "min_observed_tops",
    "max_observed_tops", "min_utilization_percent", "worst_process_corner_min_observed_tops"}

  predicate Faulty(d: Object, key: string) {
    !IsNumber(Get(d, key))
  }

  /** `parse_simulator_metrics` accepts only calibrated documents without comparable scores. */
  function ParseSimulator(document: Document): ParseResult {
    match document
    case NotJson => NotFound
    case Parsed(v) =>
      if !v.JObj? then Crash
      else if exists k :: k in SIMULATOR_KEYS && Faulty(v.fields, k) then NotFound
      else if exists k :: k in FORBIDDEN_KEYS && k in v.fields then NotFound
      else if Get(v.fields, SUCCESS_KEY) != JBool(true) then NotFound
      else Found(v.fields)
  }

  /** The loops of `parse_simulator_metrics`. */
  method ParseSimulatorMetrics(document: Document) returns (r: ParseResult)
    ensures r == ParseSimulator(document)
  {
    if document.NotJson? {
      return NotFound;
    }
    if !document.value.JObj? {
      return Crash;
    }
    var data := document.value.fields;
    var missing: seq<string>, forbidden: seq<string> := [], [];
    for i := 0 to |SIMULATOR_KEYS|
      invariant missing == [] <==> forall k :: k in SIMULATOR_KEYS[..i] ==> !Faulty(data, k)
    {
      assert SIMULATOR_KEYS[..i + 1] == SIMULATOR_KEYS[..i] + [SIMULATOR_KEYS[i]];
      if Faulty(data, SIMULATOR_KEYS[i]) {
        missing := missing + [SIMULATOR_KEYS[i]];
      }
    }
    for i := 0 to |FORBIDDEN_KEYS|
      invariant forbidden == [] <==> forall k :: k in FORBIDDEN_KEYS[..i] ==> k !in data
    {
      assert FORBIDDEN_KEYS[..i + 1] == FORBIDDEN_KEYS[..i] + [FORBIDDEN_KEYS[i]];
      if FORBIDDEN_KEYS[i] in data {
        forbidden := forbidden + [FORBIDDEN_KEYS[i]];
      }
    }
    assert SIMULATOR_KEYS[..|SIMULATOR_KEYS|] == SIMULATOR_KEYS && FORBIDDEN_KEYS[..|FORBIDDEN_KEYS|] == FORBIDDEN_KEYS;
    if missing != [] || forbidden != [] || Get(data, SUCCESS_KEY) != JBool(true) {
      return NotFound;
    }
    r := Found(data);
  }

  function ParseNpu(npu: NpuScan): ParseResult {
    match npu
    case NoSummary => NotFound
    case BrokenFigure => Crash
    case Summary(f) => Found((map k | k in NPU_KEYS :: f(k)) + map[SUCCESS_KEY := JBool(true)])
  }

  /** `parse_benchmark_output` */
  function ParseOutput(parser: Parser, out: Output): ParseResult {
    match parser
    case CoremarkV1 => if Last(PerMhz(out.coremark)).Some? then Found(CoremarkMetrics(out.coremark)) else NotFound
    case StreamV5 => if Last(OfKernel(out.stream, Triad)).Some? then Found(StreamMetrics(out.stream)) else NotFound
    case LmbenchBwMem =>
      var last := Last(out.bandwidths);
      if last.Some? then Found(map["bandwidth_mb_per_s" := JFloat(last.value)]) else NotFound
    case LmbenchLatMemRd =>
      var points := Captured(out.latencies);
      if points == [] then NotFound
      else Found(map["points" := JList(PointList(points)), "max_latency_ns" := JFloat(MaxLatency(points))])
    case FioJsonV3 => FioResult(out.fio)
    case TfliteBenchmarkModel => if Last(Averages(out.tflite)).Some? then Found(TfliteMetrics(out.tflite)) else NotFound
    case SimulatorMetricsV1 => ParseSimulator(out.document)
    case NpuScaleSimV1 => ParseNpu(out.npu)
  }

  method ParseBenchmarkOutput(parser: Parser, out: Output) returns (r: ParseResult)
    ensures r == ParseOutput(parser, out)
  {
    match parser {
      case CoremarkV1 => r := ParseCoremark(out.coremark);
      case StreamV5 => r := ParseStream(out.stream);
      case LmbenchBwMem => r := ParseBwMem(out.bandwidths);
      case LmbenchLatMemRd => r := ParseLatMemRd(out.latencies);
      case FioJsonV3 => r := ParseFio(out.fio);
      case TfliteBenchmarkModel => r := ParseTflite(out.tflite);
      case SimulatorMetricsV1 => r := ParseSimulatorMetrics(out.document);
      case NpuScaleSimV1 => r := ParseNpu(out.npu);
    }
  }

  /** Parsers whose output says that it may count as a benchmark success. */
  predicate SuccessParser(parser: Parser) {
    parser.SimulatorMetricsV1? || parser.NpuScaleSimV1?
  }

  lemma ParsedNotEmpty(parser: Parser, out: Output)
    requires ParseOutput(parser, out).Found?
    ensures ParseOutput(parser, out).metrics != map[]
  {
    var m := ParseOutput(parser, out).metrics;
    match parser {
      case CoremarkV1 => assert "coremark_per_mhz" in m;
      case StreamV5 => TriadKey(out.stream); assert StreamKey(Triad) in m;
      case TfliteBenchmarkModel => assert "avg_latency_us" in m;
      case SimulatorMetricsV1 => assert SIMULATOR_KEYS[0] in SIMULATOR_KEYS; assert SIMULATOR_KEYS[0] in m;
      case NpuScaleSimV1 => assert SUCCESS_KEY in m;
      case LmbenchBwMem => assert "bandwidth_mb_per_s" in m;
      case LmbenchLatMemRd => assert "max_latency_ns" in m;
      case FioJsonV3 => assert "read_iops" in m;
    }
  }

  /** The TFLite parser never produces the node counts that the validator wants of the NPU benchmark. */
  lemma TfliteHasNoNodeCounts(out: Output)
    requires ParseOutput(TfliteBenchmarkModel, out).Found?
    ensures var m := ParseOutput(TfliteBenchmarkModel, out).metrics;
            m.Keys <= TFLITE_KEYS && "cpu_fallback_nodes" !in m && "nnapi_delegated_nodes" !in m
  {
    assert |"cpu_fallback_nodes"| == 18 && |"nnapi_delegated_nodes"| == 21;
    assert |"avg_latency_us"| == 14 && |"cpu_fallback_percent"| == 20 && |"unsupported_op_count"| == 20;
  }

  predicate FixedKeys(parser: Parser, key: string) {
    match parser
    case CoremarkV1 => key == "iterations_per_second" || key == "coremark_per_mhz"
    case StreamV5 => key == "copy_mb_per_s" || key == "scale_mb_per_s" || key == "add_mb_per_s" || key == "triad_mb_per_s"
    case LmbenchBwMem => key == "bandwidth_mb_per_s"
    case LmbenchLatMemRd => key == "points" || key == "max_latency_ns"
    case FioJsonV3 => key == "read_iops" || key == "write_iops" || key == "read_bw_kib_s" || key == "write_bw_kib_s"
    case TfliteBenchmarkModel => key in TFLITE_KEYS
    case NpuScaleSimV1 => key in NPU_KEYS || key == SUCCESS_KEY
    case SimulatorMetricsV1 => true
  }

  lemma ParsedKeys(parser: Parser, out: Output)
    requires ParseOutput(parser, out).Found?
    ensures forall k :: k in ParseOutput(parser, out).metrics ==> FixedKeys(parser, k)
  {
    hide Last, Captured, MaxLatency, Totals, FirstBad;
    if parser == StreamV5 {
      StreamKeysOnly(out.stream);
    }
  }

  lemma StreamKeysOnly(lines: seq<Option<(StreamKernel, real)>>)
    ensures forall k :: k in StreamMetrics(lines) ==> FixedKeys(StreamV5, k)
  {
    hide KernelEntry;
    forall k | k in StreamMetrics(lines)
      ensures k == StreamKey(Copy) || k == StreamKey(Scale) || k == StreamKey(Add) || k == StreamKey(Triad)
    {
      assert k in KernelEntry(lines, Copy) || k in KernelEntry(lines, Scale) || k in KernelEntry(lines, Add) || k in KernelEntry(lines, Triad);
    }
  }

  lemma FixedKeysAreSafe(parser: Parser)
    requires !parser.SimulatorMetricsV1?
    ensures !parser.NpuScaleSimV1? ==> !FixedKeys(parser, SUCCESS_KEY)
    ensures forall k :: k in FORBIDDEN_KEYS ==> !FixedKeys(parser, k)
  {
    assert |SUCCESS_KEY| == 25 && |FORBIDDEN_KEYS[0]| == 16 && |FORBIDDEN_KEYS[1]| == 11 && |FORBIDDEN_KEYS[2]| == 15;
    assert FORBIDDEN_KEYS[0][0] == 'w' && FORBIDDEN_KEYS[1][0] == 'p' && FORBIDDEN_KEYS[2][0] == 'g';
  }

  /**
   No parser lets a comparable score through, and parsed output is marked as allowed success
   exactly when it comes from one of the two simulator parsers.
   */
  lemma ParsedClaims(parser: Parser, out: Output)
    requires ParseOutput(parser, out).Found?
    ensures forall k :: k in FORBIDDEN_KEYS ==> k !in ParseOutput(parser, out).metrics
    ensures Get(ParseOutput(parser, out).metrics, SUCCESS_KEY) == JBool(true) <==> SuccessParser(parser)
  {
    if !parser.SimulatorMetricsV1? {
      ParsedKeys(parser, out);
      FixedKeysAreSafe(parser);
    }
  }

  // ---------- metric requirements ----------

  datatype MetricFault =
    | BadRequirement
    | MissingMetric(metric: string)
    | GateNotObject(index: nat)
    | GateUnnamed(index: nat)
    | GateUnknownOp(metric: string, op: Json)
    | GateNotNumeric(metric: string)
    | GateWithoutMetric(metric: string)
    | GateFailed(metric: string, op: Json, expected: Json, actual: Json)

  /** `metric_gate_passes` */
  predicate GatePasses(actual: real, op: Json, expected: real) {
    || (op == JStr("==") && actual == expected)
    || (op == JStr("!=") && actual != expected)
    || (op == JStr("<") && actual < expected)
    || (op == JStr("<=") && actual <= expected)
    || (op == JStr(">") && actual > expected)
    || (op == JStr(">=") && actual >= expected)
  }

  predicate RequirementFaulty(metrics: Metrics, v: Json, f: MetricFault) {
    if !NonEmptyStr(v) then f == BadRequirement
    else f == MissingMetric(v.s) && !IsNumber(Get(metrics, v.s))
  }

  /** The first problem of a gate, if it has one. */
  function GateFault(metrics: Metrics, index: nat, gate: Json): Option<MetricFault> {
    if !gate.JObj? then Some(GateNotObject(index))
    else
      var metric, op, expected := Get(gate.fields, "metric"), Get(gate.fields, "op"), Get(gate.fields, "value");
      if !NonEmptyStr(metric) then Some(GateUnnamed(index))
      else if !KnownOp(op) then Some(GateUnknownOp(metric.s, op))
      else if !IsNumber(expected) then Some(GateNotNumeric(metric.s))
      else
        var actual := Get(metrics, metric.s);
        if !IsNumber(actual) then Some(GateWithoutMetric(metric.s))
        else if !GatePasses(Number(actual), op, Number(expected)) then Some(GateFailed(metric.s, op, expected, actual))
        else None
  }

  predicate MetricFaulty(metrics: Metrics, required: seq<Json>, gates: seq<Json>, f: MetricFault) {
    || (exists i: nat :: i < |required| && RequirementFaulty(metrics, required[i], f))
    || (exists i: nat :: i < |gates| && GateFault(metrics, i, gates[i]) == Some(f))
  }

  ghost predicate MetricsMet(metrics: Metrics, required: seq<Json>, gates: seq<Json>) {
    forall f :: !MetricFaulty(metrics, required, gates, f)
  }

  /** `check_metric_requirements`, sound and complete. */
  method CheckMetricRequirements(metrics: Metrics, required: seq<Json>, gates: seq<Json>) returns (r: seq<MetricFault>)
    ensures forall f :: f in r <==> MetricFaulty(metrics, required, gates, f)
  {
    r := [];
    for i := 0 to |required|
      invariant forall f :: f in r <==> exists j: nat :: j < i && RequirementFaulty(metrics, required[j], f)
    {
      var v := required[i];
      if !NonEmptyStr(v) {
        r := r + [BadRequirement];
      } else if !IsNumber(Get(metrics, v.s)) {
        r := r + [MissingMetric(v.s)];
      }
      assert forall f :: RequirementFaulty(metrics, required[i], f) <==>
                         (!NonEmptyStr(v) && f == BadRequirement)
                         || (NonEmptyStr(v) && !IsNumber(Get(metrics, v.s)) && f == MissingMetric(v.s));
    }
    ghost var first := r;
    for i := 0 to |gates|
      invariant forall f :: f in r <==> f in first || exists j: nat :: j < i && GateFault(metrics, j, gates[j]) == Some(f)
    {
      var fault := GateFault(metrics, i, gates[i]);
      if fault.Some? {
        r := r + [fault.value];
      }
    }
  }

  /** On requirements that the configuration check accepted, the metrics are met exactly when every
      required metric is a number and every gate compares true. */
  lemma MetricsMetMeans(metrics: Metrics, required: seq<Json>, gates: seq<Json>)
    requires forall v :: v in required ==> NonEmptyStr(v)
    requires forall g :: g in gates ==>
               g.JObj? && NonEmptyStr(Get(g.fields, "metric")) && KnownOp(Get(g.fields, "op")) && IsNumber(Get(g.fields, "value"))
    ensures MetricsMet(metrics, required, gates) <==>
            && (forall v :: v in required ==> IsNumber(Get(metrics, Str(v))))
            && forall g :: g in gates ==>
                 && IsNumber(Get(metrics, Str(Get(g.fields, "metric"))))
                 && GatePasses(Number(Get(metrics, Str(Get(g.fields, "metric")))), Get(g.fields, "op"), Number(Get(g.fields, "value")))
  {
    if MetricsMet(metrics, required, gates) {
      forall v | v in required
        ensures IsNumber(Get(metrics, Str(v)))
      {
        var i :| 0 <= i < |required| && required[i] == v;
        assert !MetricFaulty(metrics, required, gates, MissingMetric(Str(v)));
        assert !RequirementFaulty(metrics, required[i], MissingMetric(Str(v)));
      }
      forall g | g in gates
        ensures GateFault(metrics, 0, g) == None || GateFault(metrics, 0, g).value.GateNotObject? || GateFault(metrics, 0, g).value.GateUnnamed?
      {
        var i :| 0 <= i < |gates| && gates[i] == g;
        var fault := GateFault(metrics, i, gates[i]);
        assert fault.Some? ==> MetricFaulty(metrics, required, gates, fault.value);
      }
    } else {
      var f :| MetricFaulty(metrics, required, gates, f);
      if i: nat :| i < |required| && RequirementFaulty(metrics, required[i], f) {
        assert required[i] in required;
      } else {
        var i: nat :| i < |gates| && GateFault(metrics, i, gates[i]) == Some(f);
        assert gates[i] in gates;
      }
    }
  }
}
