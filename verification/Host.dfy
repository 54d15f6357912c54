/**
 The machine a benchmark runs on: the parts of the file system, the search path and the
 child processes that the runner consults. Every theorem holds for all hosts.
 */
module Host {
  import opened Json

  /** What one run of a benchmark command does. `Uncaught` is an exception other than OSError. */
  datatype Process =
    | Completed(returncode: int, stdout: Output)
    | TimedOut
    | OsError
    | Uncaught

  /** One line of TFLite benchmark_model output: the value each pattern captures, if it matches. */
  datatype TfliteLine = TfliteLine(average: Option<real>, fallback: Option<real>, unsupported: Option<nat>)

  /** Captured output, seen line by line through the text patterns of each parser. */
  datatype Output = Output(
    coremark: seq<CoremarkLine>,
    stream: seq<Option<(StreamKernel, real)>>,
    bandwidths: seq<Option<real>>,
    latencies: seq<Option<(real, real)>>,
    tflite: seq<TfliteLine>,
    fio: FioScan,
    document: Document,
    npu: NpuScan)

  /** One line of CoreMark output: the value each pattern captures, if it matches. */
  datatype CoremarkLine = CoremarkLine(iterations: Option<real>, perMhz: Option<real>)

  datatype StreamKernel = Copy | Scale | Add | Triad

  /** What `float()` makes of the four figures of a fio job: a text that is no number, or no job at all, raises. */
  datatype FioJob =
    | Figures(readIops: real, writeIops: real, readBandwidth: real, writeBandwidth: real)
    | NotNumeric
    | Malformed

  /** fio output: no JSON, JSON that is no object, or the list of jobs, empty where the field is no list. */
  datatype FioScan = NoJson | NoObject | Jobs(jobs: seq<FioJob>)

  /** NPU scale simulator output: what raises a value error, what raises another error, or the figures by name. */
  datatype NpuScan = NoSummary | BrokenFigure | Summary(figure: string -> Json)

  /** What `json.loads` makes of the output. */
  datatype Document = NotJson | Parsed(value: Json)

  /** Verdict on the JSON proof of a capability artifact. */
  datatype Proof = Accepted | Rejected | Crashes

  datatype Env = Env(
    searchPath: seq<string>,
    smokeDir: Option<string>,
    which: (string, string) -> Option<string>,
    target: string -> string,
    smokeTarget: string -> bool,
    explicitPath: string -> Option<string>,
    runnable: string -> bool,
    isFile: string -> bool,
    digest: string -> string,
    size: string -> nat,
    proof: (string, Json) -> Proof,
    parseInt: string -> Option<int>,
    run: seq<string> -> Process)
}
