/**
 What parsed metrics and passed gates say of the output of a benchmark: for each parser, the
 figures of the output that its dictionary holds, and for each gate the comparison that it makes.
 */
module Measurement {
  import opened Json
  import opened Host
  import opened Vocabulary
  import M = Metrics

  // ---------- figures that later lines replace ----------

  /** Line `i` shows a figure, and no later line shows one. */
  ghost predicate Final<L(!new)>(lines: seq<L>, shown: L -> Option<Json>, i: int) {
    0 <= i < |lines| && shown(lines[i]).Some? && forall j :: i < j < |lines| ==> shown(lines[j]).None?
  }

  /** The figure under a key is the one on the last line that shows it, and is absent where no line does. */
  ghost predicate Reports<L(!new)>(metrics: M.Metrics, key: string, lines: seq<L>, shown: L -> Option<Json>) {
    && (key in metrics <==> exists i :: 0 <= i < |lines| && shown(lines[i]).Some?)
    && forall i :: Final(lines, shown, i) ==> key in metrics && shown(lines[i]) == Some(metrics[key])
  }

  function AsJson(x: Option<real>): Option<Json> {
    if x.Some? then Some(JFloat(x.value)) else None
  }

  function KernelFigure(line: Option<(StreamKernel, real)>, k: StreamKernel): Option<Json> {
    if line.Some? && line.value.0 == k then Some(JFloat(line.value.1)) else None
  }

  function Copied(l: Option<(StreamKernel, real)>): Option<Json> {
    KernelFigure(l, Copy)
  }

  function Scaled(l: Option<(StreamKernel, real)>): Option<Json> {
    KernelFigure(l, Scale)
  }

  function Added(l: Option<(StreamKernel, real)>): Option<Json> {
    KernelFigure(l, Add)
  }

  function Triadic(l: Option<(StreamKernel, real)>): Option<Json> {
    KernelFigure(l, Triad)
  }

  function Rate(l: CoremarkLine): Option<Json> {
    AsJson(l.iterations)
  }

  function Score(l: CoremarkLine): Option<Json> {
    AsJson(l.perMhz)
  }

  function Latency(l: TfliteLine): Option<Json> {
    AsJson(l.average)
  }

  function Fallback(l: TfliteLine): Option<Json> {
    AsJson(l.fallback)
  }

  function UnsupportedOps(l: TfliteLine): Option<Json> {
    if l.unsupported.Some? then Some(JInt(l.unsupported.value)) else None
  }

  ghost predicate CoremarkFigures(lines: seq<CoremarkLine>, m: M.Metrics) {
    && Reports(m, "iterations_per_second", lines, Rate)
    && Reports(m, "coremark_per_mhz", lines, Score)
    && "coremark_per_mhz" in m && m.Keys <= {"iterations_per_second", "coremark_per_mhz"}
  }

  ghost predicate StreamFigures(lines: seq<Option<(StreamKernel, real)>>, m: M.Metrics) {
    && Reports(m, "copy_mb_per_s", lines, Copied)
    && Reports(m, "scale_mb_per_s", lines, Scaled)
    && Reports(m, "add_mb_per_s", lines, Added)
    && Reports(m, "triad_mb_per_s", lines, Triadic)
    && "triad_mb_per_s" in m && m.Keys <= {"copy_mb_per_s", "scale_mb_per_s", "add_mb_per_s", "triad_mb_per_s"}
  }

  ghost predicate TfliteFigures(lines: seq<TfliteLine>, m: M.Metrics) {
    && Reports(m, "avg_latency_us", lines, Latency)
    && Reports(m, "cpu_fallback_percent", lines, Fallback)
    && Reports(m, "unsupported_op_count", lines, UnsupportedOps)
    && "avg_latency_us" in m && m.Keys <= {"avg_latency_us", "cpu_fallback_percent", "unsupported_op_count"}
  }

  ghost predicate BandwidthFigures(lines: seq<Option<real>>, m: M.Metrics) {
    && Reports(m, "bandwidth_mb_per_s", lines, AsJson)
    && m.Keys == {"bandwidth_mb_per_s"}
  }

  /** What the parsers keep of a column of captures is what the lines show. */
  lemma Kept<L(!new)>(m: M.Metrics, key: string, lines: seq<L>, shown: L -> Option<Json>, column: seq<Option<Json>>)
    requires |column| == |lines| && forall i :: 0 <= i < |lines| ==> column[i] == shown(lines[i])
    requires key in m <==> M.Last(column).Some?
    requires key in m ==> M.Last(column) == Some(m[key])
    ensures Reports(m, key, lines, shown)
  {
    var k := M.LastMeans(column);
    forall i | Final(lines, shown, i)
      ensures key in m && shown(lines[i]) == Some(m[key])
    {
      assert column[i].Some?;
      assert i == k;
    }
  }

  /** Two dictionaries that report the same figure agree on its key. */
  lemma Same<L(!new)>(m: M.Metrics, n: M.Metrics, key: string, lines: seq<L>, shown: L -> Option<Json>)
    requires Reports(m, key, lines, shown) && Reports(n, key, lines, shown)
    ensures key in m <==> key in n
    ensures key in m ==> m[key] == n[key]
  {
    if key in m {
      var i :| 0 <= i < |lines| && shown(lines[i]).Some?;
      var k := LastOne(lines, shown, i);
    }
  }

  lemma LastOne<L(!new)>(lines: seq<L>, shown: L -> Option<Json>, i: nat) returns (k: nat)
    requires i < |lines| && shown(lines[i]).Some?
    ensures Final(lines, shown, k)
    decreases |lines| - i
  {
    if j :| i < j < |lines| && shown(lines[j]).Some? {
      k := LastOne(lines, shown, j);
    } else {
      k := i;
    }
  }

  function AsJsons(column: seq<Option<real>>): (r: seq<Option<Json>>)
    ensures |r| == |column|
  {
    seq(|column|, i requires 0 <= i < |column| => AsJson(column[i]))
  }

  lemma {:induction false} LastAsJson(column: seq<Option<real>>)
    ensures M.Last(AsJsons(column)) == AsJson(M.Last(column))
  {
    if column != [] {
      var n := |column| - 1;
      assert AsJsons(column)[..n] == AsJsons(column[..n]);
      LastAsJson(column[..n]);
    }
  }

  /** A column of numbers kept under a key. */
  lemma KeptReal<L(!new)>(m: M.Metrics, key: string, lines: seq<L>, shown: L -> Option<Json>, column: seq<Option<real>>)
    requires |column| == |lines| && forall i :: 0 <= i < |lines| ==> AsJson(column[i]) == shown(lines[i])
    requires key in m <==> M.Last(column).Some?
    requires key in m ==> m[key] == JFloat(M.Last(column).value)
    ensures Reports(m, key, lines, shown)
  {
    LastAsJson(column);
    Kept(m, key, lines, shown, AsJsons(column));
  }

  lemma CoremarkReports(lines: seq<CoremarkLine>)
    requires M.Last(M.PerMhz(lines)).Some?
    ensures CoremarkFigures(lines, M.CoremarkMetrics(lines))
  {
    var m := M.CoremarkMetrics(lines);
    KeptReal(m, "iterations_per_second", lines, Rate, M.Iterations(lines));
    KeptReal(m, "coremark_per_mhz", lines, Score, M.PerMhz(lines));
  }

  /** CoreMark: the last figure of each kind, and a failure exactly when no line shows CoreMark/MHz. */
  lemma CoremarkIff(out: Output, m: M.Metrics)
    ensures M.ParseOutput(CoremarkV1, out) == M.Found(m) <==> CoremarkFigures(out.coremark, m)
  {
    var lines := out.coremark;
    if M.Last(M.PerMhz(lines)).Some? {
      var n := M.CoremarkMetrics(lines);
      CoremarkReports(lines);
      if CoremarkFigures(lines, m) {
        Same(m, n, "iterations_per_second", lines, Rate);
        Same(m, n, "coremark_per_mhz", lines, Score);
        assert m == n;
      }
    } else {
      var k := M.LastMeans(M.PerMhz(lines));
      assert forall i :: 0 <= i < |lines| ==> M.PerMhz(lines)[i] == lines[i].perMhz;
    }
  }

  lemma KernelReports(lines: seq<Option<(StreamKernel, real)>>, k: StreamKernel, key: string, shown: Option<(StreamKernel, real)> -> Option<Json>)
    requires key == M.StreamKey(k) && forall l :: shown(l) == KernelFigure(l, k)
    ensures Reports(M.KernelEntry(lines, k), key, lines, shown)
  {
    KeptReal(M.KernelEntry(lines, k), key, lines, shown, M.OfKernel(lines, k));
  }

  predicate Agree(m: M.Metrics, n: M.Metrics, key: string) {
    (key in m <==> key in n) && (key in m ==> m[key] == n[key])
  }

  /** Reporting depends on one key only. */
  lemma Carried<L(!new)>(m: M.Metrics, n: M.Metrics, key: string, lines: seq<L>, shown: L -> Option<Json>)
    requires Reports(m, key, lines, shown) && Agree(m, n, key)
    ensures Reports(n, key, lines, shown)
  {
  }

  lemma TriadShown(lines: seq<Option<(StreamKernel, real)>>)
    ensures "triad_mb_per_s" in M.KernelEntry(lines, Triad) <==> M.Last(M.OfKernel(lines, Triad)).Some?
  {
  }

  lemma FourEntries(a: M.Metrics, b: M.Metrics, c: M.Metrics, d: M.Metrics, ka: string, kb: string, kc: string, kd: string)
    requires a.Keys <= {ka} && b.Keys <= {kb} && c.Keys <= {kc} && d.Keys <= {kd}
    requires ka != kb && ka != kc && ka != kd && kb != kc && kb != kd && kc != kd
    ensures var all := a + b + c + d;
            && Agree(a, all, ka) && Agree(b, all, kb) && Agree(c, all, kc) && Agree(d, all, kd)
            && all.Keys <= {ka, kb, kc, kd}
  {
  }

  lemma StreamKeys()
    ensures "copy_mb_per_s" != "scale_mb_per_s" && "copy_mb_per_s" != "add_mb_per_s" && "copy_mb_per_s" != "triad_mb_per_s"
    ensures "scale_mb_per_s" != "add_mb_per_s" && "scale_mb_per_s" != "triad_mb_per_s" && "add_mb_per_s" != "triad_mb_per_s"
  {
    assert "copy_mb_per_s"[0] == 'c' && "scale_mb_per_s"[0] == 's' && "add_mb_per_s"[0] == 'a' && "triad_mb_per_s"[0] == 't';
  }

  lemma StreamReports(lines: seq<Option<(StreamKernel, real)>>)
    requires M.Last(M.OfKernel(lines, Triad)).Some?
    ensures StreamFigures(lines, M.StreamMetrics(lines))
  {
    hide Reports, M.Last, M.OfKernel, M.KernelEntry;
    var m := M.StreamMetrics(lines);
    TriadShown(lines);
    var copy, scale, add, triad := M.KernelEntry(lines, Copy), M.KernelEntry(lines, Scale), M.KernelEntry(lines, Add), M.KernelEntry(lines, Triad);
    StreamKeys();
    FourEntries(copy, scale, add, triad, "copy_mb_per_s", "scale_mb_per_s", "add_mb_per_s", "triad_mb_per_s");
    KernelReports(lines, Copy, "copy_mb_per_s", Copied);
    KernelReports(lines, Scale, "scale_mb_per_s", Scaled);
    KernelReports(lines, Add, "add_mb_per_s", Added);
    KernelReports(lines, Triad, "triad_mb_per_s", Triadic);
    Carried(copy, m, "copy_mb_per_s", lines, Copied);
    Carried(scale, m, "scale_mb_per_s", lines, Scaled);
    Carried(add, m, "add_mb_per_s", lines, Added);
    Carried(triad, m, "triad_mb_per_s", lines, Triadic);
  }

  lemma NoTriad(lines: seq<Option<(StreamKernel, real)>>, m: M.Metrics)
    requires M.Last(M.OfKernel(lines, Triad)).None?
    ensures Reports(m, "triad_mb_per_s", lines, Triadic) ==> "triad_mb_per_s" !in m
  {
    var k := M.LastMeans(M.OfKernel(lines, Triad));
    assert forall i :: 0 <= i < |lines| ==> AsJson(M.OfKernel(lines, Triad)[i]) == Triadic(lines[i]);
  }

  /** STREAM: the last bandwidth of each kernel, and a failure exactly when no line shows Triad. */
  lemma StreamIff(out: Output, m: M.Metrics)
    ensures M.ParseOutput(StreamV5, out) == M.Found(m) <==> StreamFigures(out.stream, m)
  {
    hide Reports, M.Last, M.OfKernel, M.StreamMetrics;
    var lines := out.stream;
    if M.Last(M.OfKernel(lines, Triad)).Some? {
      var n := M.StreamMetrics(lines);
      StreamReports(lines);
      if StreamFigures(lines, m) {
        Same(m, n, "copy_mb_per_s", lines, Copied);
        Same(m, n, "scale_mb_per_s", lines, Scaled);
        Same(m, n, "add_mb_per_s", lines, Added);
        Same(m, n, "triad_mb_per_s", lines, Triadic);
        assert m == n;
      }
    } else {
      NoTriad(lines, m);
    }
  }

  lemma TfliteReports(lines: seq<TfliteLine>)
    requires M.Last(M.Averages(lines)).Some?
    ensures TfliteFigures(lines, M.TfliteMetrics(lines))
  {
    hide Reports, M.Last;
    var m := M.TfliteMetrics(lines);
    KeptReal(m, "avg_latency_us", lines, Latency, M.Averages(lines));
    KeptReal(m, "cpu_fallback_percent", lines, Fallback, M.Fallbacks(lines));
    var column := Counts(lines);
    LastCount(lines);
    Kept(m, "unsupported_op_count", lines, UnsupportedOps, column);
  }

  function Counts(lines: seq<TfliteLine>): (r: seq<Option<Json>>)
    ensures |r| == |lines|
  {
    seq(|lines|, i requires 0 <= i < |lines| => UnsupportedOps(lines[i]))
  }

  lemma {:induction false} LastCount(lines: seq<TfliteLine>)
    ensures var last := M.Last(M.Unsupported(lines));
            M.Last(Counts(lines)) == if last.Some? then Some(JInt(last.value)) else None
  {
    if lines != [] {
      var n := |lines| - 1;
      assert Counts(lines)[..n] == Counts(lines[..n]) && M.Unsupported(lines)[..n] == M.Unsupported(lines[..n]);
      LastCount(lines[..n]);
    }
  }

  /** TFLite: the last figure of each kind, and a failure exactly when no line shows a latency. */
  lemma TfliteIff(out: Output, m: M.Metrics)
    ensures M.ParseOutput(TfliteBenchmarkModel, out) == M.Found(m) <==> TfliteFigures(out.tflite, m)
  {
    var lines := out.tflite;
    if M.Last(M.Averages(lines)).Some? {
      var n := M.TfliteMetrics(lines);
      TfliteReports(lines);
      if TfliteFigures(lines, m) {
        Same(m, n, "avg_latency_us", lines, Latency);
        Same(m, n, "cpu_fallback_percent", lines, Fallback);
        Same(m, n, "unsupported_op_count", lines, UnsupportedOps);
        assert m == n;
      }
    } else {
      var k := M.LastMeans(M.Averages(lines));
      assert forall i :: 0 <= i < |lines| ==> M.Averages(lines)[i] == lines[i].average;
    }
  }

  /** lmbench bandwidth: the last figure, and a failure exactly when no line shows one. */
  lemma BandwidthIff(out: Output, m: M.Metrics)
    ensures M.ParseOutput(LmbenchBwMem, out) == M.Found(m) <==> BandwidthFigures(out.bandwidths, m)
  {
    var lines := out.bandwidths;
    var last := M.Last(lines);
    if last.Some? {
      var n: M.Metrics := map["bandwidth_mb_per_s" := JFloat(last.value)];
      KeptReal(n, "bandwidth_mb_per_s", lines, AsJson, lines);
      if BandwidthFigures(lines, m) {
        Same(m, n, "bandwidth_mb_per_s", lines, AsJson);
        assert m == n;
      }
    } else {
      var k := M.LastMeans(lines);
    }
  }

  // ---------- figures of the whole output ----------

  /** The listed points are the lines that show one, in their order. */
  predicate PointsOf(lines: seq<Option<(real, real)>>, points: seq<Json>) {
    if lines == [] then points == []
    else if lines[0].None? then PointsOf(lines[1..], points)
    else
      && points != []
      && points[0] == JObj(map["size_mb" := JFloat(lines[0].value.0), "latency_ns" := JFloat(lines[0].value.1)])
      && PointsOf(lines[1..], points[1..])
  }

  ghost predicate Greatest(lines: seq<Option<(real, real)>>, latency: real) {
    && (exists i :: 0 <= i < |lines| && lines[i].Some? && lines[i].value.1 == latency)
    && forall i :: 0 <= i < |lines| && lines[i].Some? ==> lines[i].value.1 <= latency
  }

  ghost predicate LatencyFigures(lines: seq<Option<(real, real)>>, m: M.Metrics) {
    && m.Keys == {"points", "max_latency_ns"}
    && m["points"].JList? && PointsOf(lines, m["points"].items)
    && m["max_latency_ns"].JFloat? && Greatest(lines, m["max_latency_ns"].r)
  }

  lemma {:induction false} CapturedFront<T>(captures: seq<Option<T>>)
    requires captures != []
    ensures M.Captured(captures) == (if captures[0].Some? then [captures[0].value] else []) + M.Captured(captures[1..])
  {
    var n := |captures| - 1;
    if n > 0 {
      CapturedFront(captures[..n]);
      assert captures[..n][1..] == captures[1..][..n - 1];
      assert captures[1..][n - 1] == captures[n];
    } else {
      assert captures[..0] == [] && captures[1..] == [];
    }
  }

  lemma {:induction false} PointsKept(lines: seq<Option<(real, real)>>, points: seq<Json>)
    ensures PointsOf(lines, points) <==> points == M.PointList(M.Captured(lines))
  {
    if lines != [] {
      CapturedFront(lines);
      var rest := M.Captured(lines[1..]);
      if lines[0].None? {
        assert M.Captured(lines) == rest;
        PointsKept(lines[1..], points);
      } else {
        assert M.PointList([lines[0].value] + rest) == [M.PointOf(lines[0].value)] + M.PointList(rest);
        if points != [] {
          assert points == [points[0]] + points[1..];
          PointsKept(lines[1..], points[1..]);
        }
      }
    }
  }

  lemma {:induction false} CapturedAre<T(!new)>(captures: seq<Option<T>>, x: T)
    ensures x in M.Captured(captures) <==> exists i :: 0 <= i < |captures| && captures[i] == Some(x)
  {
    if captures != [] {
      CapturedFront(captures);
      CapturedAre(captures[1..], x);
      if i :| 0 <= i < |captures| && captures[i] == Some(x) {
        assert i > 0 ==> captures[1..][i - 1] == Some(x);
      }
      if i :| 0 <= i < |captures[1..]| && captures[1..][i] == Some(x) {
        assert captures[i + 1] == Some(x);
      }
    }
  }

  lemma GreatestKept(lines: seq<Option<(real, real)>>, latency: real)
    requires M.Captured(lines) != []
    ensures Greatest(lines, latency) <==> latency == M.MaxLatency(M.Captured(lines))
  {
    var points := M.Captured(lines);
    forall x
      ensures x in points <==> exists i :: 0 <= i < |lines| && lines[i] == Some(x)
    {
      CapturedAre(lines, x);
    }
    var top := M.MaxLatency(points);
    var k :| 0 <= k < |points| && points[k].1 == top;
    assert points[k] in points;
    forall i | 0 <= i < |lines| && lines[i].Some?
      ensures lines[i].value.1 <= top
    {
      assert lines[i] == Some(lines[i].value) && lines[i].value in points;
    }
  }

  /** lmbench latency: all points in order and the greatest latency; a failure exactly when no line shows a point. */
  lemma LatencyIff(out: Output, m: M.Metrics)
    ensures M.ParseOutput(LmbenchLatMemRd, out) == M.Found(m) <==> LatencyFigures(out.latencies, m)
  {
    var lines := out.latencies;
    var points := M.Captured(lines);
    if points == [] {
      if LatencyFigures(lines, m) {
        var i :| 0 <= i < |lines| && lines[i].Some? && lines[i].value.1 == m["max_latency_ns"].r;
        CapturedAre(lines, lines[i].value);
      }
    } else {
      var n: M.Metrics := map["points" := JList(M.PointList(points)), "max_latency_ns" := JFloat(M.MaxLatency(points))];
      PointsKept(lines, M.PointList(points));
      GreatestKept(lines, M.MaxLatency(points));
      if LatencyFigures(lines, m) {
        PointsKept(lines, m["points"].items);
        GreatestKept(lines, m["max_latency_ns"].r);
        assert m == n;
      }
    }
  }

  // ---------- fio ----------

  /** The sum of one figure over all jobs. */
  function Sum(jobs: seq<FioJob>, figure: FioJob -> real): real {
    if jobs == [] then 0.0 else figure(jobs[0]) + Sum(jobs[1..], figure)
  }

  function ReadIops(job: FioJob): real {
    if job.Figures? then job.readIops else 0.0
  }

  function WriteIops(job: FioJob): real {
    if job.Figures? then job.writeIops else 0.0
  }

  function ReadBandwidth(job: FioJob): real {
    if job.Figures? then job.readBandwidth else 0.0
  }

  function WriteBandwidth(job: FioJob): real {
    if job.Figures? then job.writeBandwidth else 0.0
  }

  lemma {:induction false} SumSnoc(jobs: seq<FioJob>, job: FioJob, figure: FioJob -> real)
    ensures Sum(jobs + [job], figure) == Sum(jobs, figure) + figure(job)
  {
    if jobs == [] {
      assert [job][1..] == [] && jobs + [job] == [job];
    } else {
      assert (jobs + [job])[1..] == jobs[1..] + [job];
      SumSnoc(jobs[1..], job, figure);
    }
  }

  lemma {:induction false} TotalsAreSums(jobs: seq<FioJob>)
    ensures M.Totals(jobs) ==
            M.FioTotals(Sum(jobs, ReadIops), Sum(jobs, WriteIops), Sum(jobs, ReadBandwidth), Sum(jobs, WriteBandwidth))
  {
    if jobs != [] {
      var init, last := jobs[..|jobs| - 1], jobs[|jobs| - 1];
      assert jobs == init + [last];
      TotalsAreSums(init);
      SumSnoc(init, last, ReadIops);
      SumSnoc(init, last, WriteIops);
      SumSnoc(init, last, ReadBandwidth);
      SumSnoc(init, last, WriteBandwidth);
    }
  }

  /** The four sums over jobs that all have figures; they are not all zero. */
  ghost predicate FioFigures(scan: FioScan, m: M.Metrics) {
    scan.Jobs? && scan.jobs != [] && (forall i :: 0 <= i < |scan.jobs| ==> scan.jobs[i].Figures?) &&
    var readOps, writeOps := Sum(scan.jobs, ReadIops), Sum(scan.jobs, WriteIops);
    var readRate, writeRate := Sum(scan.jobs, ReadBandwidth), Sum(scan.jobs, WriteBandwidth);
    && !(readOps == 0.0 && writeOps == 0.0 && readRate == 0.0 && writeRate == 0.0)
    && m == map["read_iops" := JFloat(readOps), "write_iops" := JFloat(writeOps),
                "read_bw_kib_s" := JFloat(readRate), "write_bw_kib_s" := JFloat(writeRate)]
  }

  lemma {:induction false} NoBadJob(jobs: seq<FioJob>)
    ensures M.FirstBad(jobs).None? <==> forall i :: 0 <= i < |jobs| ==> jobs[i].Figures?
  {
    if jobs != [] {
      NoBadJob(jobs[1..]);
      assert forall i :: 1 <= i < |jobs| ==> jobs[i] == jobs[1..][i - 1];
    }
  }

  lemma FioIff(out: Output, m: M.Metrics)
    ensures M.ParseOutput(FioJsonV3, out) == M.Found(m) <==> FioFigures(out.fio, m)
  {
    if out.fio.Jobs? {
      NoBadJob(out.fio.jobs);
      TotalsAreSums(out.fio.jobs);
    }
  }

  // ---------- simulators ----------

  predicate NumberAt(m: M.Metrics, key: string) {
    key in m && (m[key].JInt? || m[key].JFloat? || m[key].JBool?)
  }

  predicate SimulatorFigures(document: Document, m: M.Metrics) {
    && document == Parsed(JObj(m))
    && NumberAt(m, "target_cycles") && NumberAt(m, "simulated_frequency_hz") && NumberAt(m, "ipc")
    && "wall_clock_score" !in m && "phone_score" !in m && "geekbench_score" !in m
    && "benchmark_success_allowed" in m && m["benchmark_success_allowed"] == JBool(true)
  }

  lemma SimulatorIff(out: Output, m: M.Metrics)
    ensures M.ParseOutput(SimulatorMetricsV1, out) == M.Found(m) <==> SimulatorFigures(out.document, m)
  {
    if out.document.Parsed? && out.document.value.JObj? {
      NumbersAt(out.document.value.fields);
      NoScores(out.document.value.fields);
    }
  }

  lemma NumbersAt(d: Object)
    ensures (exists k :: k in M.SIMULATOR_KEYS && M.Faulty(d, k)) <==>
            !(NumberAt(d, "target_cycles") && NumberAt(d, "simulated_frequency_hz") && NumberAt(d, "ipc"))
  {
    var keys := M.SIMULATOR_KEYS;
    assert keys[0] == "target_cycles" && keys[1] == "simulated_frequency_hz" && keys[2] == "ipc";
    assert keys[0] in keys && keys[1] in keys && keys[2] in keys;
    assert forall k :: M.Faulty(d, k) <==> !NumberAt(d, k);
    hide M.Faulty, NumberAt;
    if k :| k in keys && M.Faulty(d, k) {
      var i :| 0 <= i < |keys| && keys[i] == k;
      assert i == 0 || i == 1 || i == 2;
    }
  }

  lemma NoScores(d: Object)
    ensures (exists k :: k in M.FORBIDDEN_KEYS && k in d) <==>
            !("wall_clock_score" !in d && "phone_score" !in d && "geekbench_score" !in d)
  {
    var keys := M.FORBIDDEN_KEYS;
    assert keys[0] == "wall_clock_score" && keys[1] == "phone_score" && keys[2] == "geekbench_score";
    assert keys[0] in keys && keys[1] in keys && keys[2] in keys;
    if k :| k in keys && k in d {
      var i :| 0 <= i < |keys| && keys[i] == k;
      assert i == 0 || i == 1 || i == 2;
    }
  }

  /** The figures of the document under their names, and the mark of success. */
  ghost predicate NpuFigures(npu: NpuScan, m: M.Metrics) {
    npu.Summary? && m.Keys == M.NPU_KEYS + {"benchmark_success_allowed"} && m["benchmark_success_allowed"] == JBool(true)
    && forall k :: k in M.NPU_KEYS ==> m[k] == npu.figure(k)
  }

  lemma NpuIff(out: Output, m: M.Metrics)
    ensures M.ParseOutput(NpuScaleSimV1, out) == M.Found(m) <==> NpuFigures(out.npu, m)
  {
    if out.npu.Summary? {
      var n: M.Metrics := (map k | k in M.NPU_KEYS :: out.npu.figure(k)) + map[M.SUCCESS_KEY := JBool(true)];
      SuccessIsNoFigure();
      if NpuFigures(out.npu, m) {
        assert m == n;
      }
    }
  }

  lemma SuccessIsNoFigure()
    ensures "benchmark_success_allowed" !in M.NPU_KEYS
  {
    assert |"benchmark_success_allowed"| == 25;
  }

  // ---------- all parsers ----------

  ghost predicate Figures(parser: Parser, out: Output, m: M.Metrics) {
    match parser
    case CoremarkV1 => CoremarkFigures(out.coremark, m)
    case StreamV5 => StreamFigures(out.stream, m)
    case LmbenchBwMem => BandwidthFigures(out.bandwidths, m)
    case LmbenchLatMemRd => LatencyFigures(out.latencies, m)
    case FioJsonV3 => FioFigures(out.fio, m)
    case TfliteBenchmarkModel => TfliteFigures(out.tflite, m)
    case SimulatorMetricsV1 => SimulatorFigures(out.document, m)
    case NpuScaleSimV1 => NpuFigures(out.npu, m)
  }

  /** A parser returns a dictionary exactly when the output shows the figures in it. */
  lemma ParsedIff(parser: Parser, out: Output, m: M.Metrics)
    ensures M.ParseOutput(parser, out) == M.Found(m) <==> Figures(parser, out, m)
  {
    hide M.ParseOutput, CoremarkFigures, StreamFigures, BandwidthFigures, LatencyFigures, FioFigures, TfliteFigures,
      SimulatorFigures, NpuFigures;
    match parser {
      case CoremarkV1 => CoremarkIff(out, m);
      case StreamV5 => StreamIff(out, m);
      case LmbenchBwMem => BandwidthIff(out, m);
      case LmbenchLatMemRd => LatencyIff(out, m);
      case FioJsonV3 => FioIff(out, m);
      case TfliteBenchmarkModel => TfliteIff(out, m);
      case SimulatorMetricsV1 => SimulatorIff(out, m);
      case NpuScaleSimV1 => NpuIff(out, m);
    }
  }

  // ---------- gates ----------

  /** How two numbers compare decides which operators hold between them. */
  function Holding(actual: real, expected: real): set<string> {
    if actual < expected then {"<", "<=", "!="}
    else if actual == expected then {"==", "<=", ">="}
    else {">", ">=", "!="}
  }

  lemma OperatorMeans(actual: real, op: Json, expected: real)
    ensures M.GatePasses(actual, op, expected) <==> op.JStr? && op.s in Holding(actual, expected)
  {
  }

  /** The gate names a metric that is a number, and its operator holds between the metric and its value. */
  ghost predicate GateHolds(metrics: M.Metrics, gate: Json) {
    gate.JObj? &&
    var g := gate.fields;
    && "metric" in g && g["metric"].JStr? && g["metric"].s != "" && g["metric"].s in metrics && IsNumber(metrics[g["metric"].s])
    && "value" in g && IsNumber(g["value"]) && "op" in g && g["op"].JStr?
    && g["op"].s in Holding(Number(metrics[g["metric"].s]), Number(g["value"]))
  }

  ghost predicate MetricsHold(metrics: M.Metrics, bench: Object) {
    && ("required_metrics" in bench && bench["required_metrics"].JList? ==>
          var names := bench["required_metrics"].items;
          forall k :: 0 <= k < |names| ==> names[k].JStr? && names[k].s in metrics && IsNumber(metrics[names[k].s]))
    && ("metric_gates" in bench && bench["metric_gates"].JList? ==>
          var gates := bench["metric_gates"].items;
          forall k :: 0 <= k < |gates| ==> GateHolds(metrics, gates[k]))
  }

  lemma GateIs(metrics: M.Metrics, gate: Json, k: nat)
    ensures M.GateFault(metrics, k, gate).None? <==> GateHolds(metrics, gate)
  {
    if gate.JObj? {
      var metric, op, value := Get(gate.fields, "metric"), Get(gate.fields, "op"), Get(gate.fields, "value");
      hide Holding, KnownOp, M.GatePasses;
      if metric.JStr? && IsNumber(Get(metrics, metric.s)) && IsNumber(value) {
        OperatorMeans(Number(Get(metrics, metric.s)), op, Number(value));
        HoldingIsKnown(Number(Get(metrics, metric.s)), op, Number(value));
      }
    }
  }

  lemma HoldingIsKnown(actual: real, op: Json, expected: real)
    ensures op.JStr? && op.s in Holding(actual, expected) ==> KnownOp(op)
  {
  }

  /** On an accepted configuration the metric requirements are met exactly when the listed metrics hold. */
  lemma MetricsMetIff(metrics: M.Metrics, bench: Object)
    requires "required_metrics" in bench ==> NonEmptyStrs(bench["required_metrics"])
    requires "metric_gates" in bench ==> bench["metric_gates"].JList?
    ensures M.MetricsMet(metrics, Items(bench, "required_metrics"), Items(bench, "metric_gates")) <==> MetricsHold(metrics, bench)
  {
    var names, gates := Items(bench, "required_metrics"), Items(bench, "metric_gates");
    hide M.GateFault, GateHolds;
    forall k: nat | k < |gates|
      ensures M.GateFault(metrics, k, gates[k]).None? <==> GateHolds(metrics, gates[k])
    {
      GateIs(metrics, gates[k], k);
    }
    assert forall k :: 0 <= k < |names| ==> names[k] in names;
    if M.MetricsMet(metrics, names, gates) {
      forall k | 0 <= k < |names|
        ensures names[k].JStr? && names[k].s in metrics && IsNumber(metrics[names[k].s])
      {
        assert !M.MetricFaulty(metrics, names, gates, M.MissingMetric(names[k].s));
        assert !M.RequirementFaulty(metrics, names[k], M.MissingMetric(names[k].s));
      }
      forall k: nat | k < |gates|
        ensures M.GateFault(metrics, k, gates[k]).None?
      {
        var fault := M.GateFault(metrics, k, gates[k]);
        assert fault.Some? ==> M.MetricFaulty(metrics, names, gates, fault.value);
      }
    }
  }
}
