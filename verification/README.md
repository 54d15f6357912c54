# Evidence gates

A Dafny model of the repository's fail-closed evidence gates: programs that turn configurations, metadata, logs and
process outcomes into accepted, blocked or failed. Files, hashes, child processes and the file system enter as
inputs (`Env`, `World`, `Disk`); everything the scripts decide about them is modelled and proved.

`dafny verify dfyconfig.toml` checks the whole project.

- **Benchmark runner and report validator** (`Host`, `Vocabulary`, `ToolSearch`, `Dependencies`, `Config`,
  `MetadataGate`, `Metrics`, `Report`, `Runner`, `RunTheorems`, `Agreement`; `Provision`, `GateEvidence`, `Measurement` and
  `Execution` say what their verdicts mean for the configured fields, the metadata and the host themselves). `Runner` fills a `ResultRecord` in place,
  one benchmark at a time, each in an environment of its own; `Report` is the second, separately written validator. `RunTheorems` quantifies over every
  configuration, metadata document and process outcome: what an exit code of 0, 1, 2 or 3 means for plan and real runs,
  and exactly when a result of the runner satisfies the validator. `Agreement` compares the pre-run gate with the
  validator clause by clause.
- **Boot smoke log** (`SmokeLog`, `SmokeGate`, `SmokePass`, `SmokeExit`). The streaming parser keeps its state in the fields of `LogMetadata` and
  is proved equal to a declarative reading of the log; the progress ladder is monotone over growing logs.
- **Header printer and header parser** (`Hex`, `Header`, `HeaderRoundTrip`, `HeaderReadBack`). The printed C header is read back by the
  regular expression of the other script, down to the hex digits, against every other line of the header.
- **Process-corner arithmetic** (`ArchMetrics`, `ModelReport`), over the reals with explicit flooring.
- **Smaller gates**: Markdown tables (`Table`), address windows (`Decode`), bracket-aware splitting (`Brackets`),
  duplicate YAML keys (`YamlKeys`), release closure and signoff (`Closure`, `Signoff`, `SignoffMeaning`), board evidence
  (`BoardEvidence`, `BoardValidator`, `BoardTheorems`).
- `Text`, `TextLaws`, `Json` and `Sequences` hold the Python string, JSON and list operations that the scripts use.

Methods carry the loops of the scripts and are proved against functions or predicates; the lemmas are about those.
Where a list of errors or blockers is built, the entries are values of a datatype and the contract says exactly which
of them are in it.

Findings where the code and its own intent differ:

- `placeholder_allowed: 1` passes the configuration check of a release-blocking artifact, which compares with `is True`,
  and then excuses the missing hash at run time, which uses truth (`Config.PlaceholderLoophole`).
- A passed `tflite_e1_npu` benchmark is rejected by the validator whenever it uses the TFLite parser, because that
  parser never produces the node counts that the validator wants (`RunTheorems.NpuBenchmarkNeverAccepted`).
- The gate and the validator disagree on notes like `" blocked-..."` in calibration assets
  (`MetadataGate.IndentedNoteIsEvidenced`) and on `node` and `pdk` in the process section
  (`Agreement.ProcessVerdictsAgree`, `Agreement.BlockedNodeDivides`, `Agreement.NumericPdkDivides`).
- The boot-ROM-to-payload flag of the trace does not look at order (`SmokeLog.HandoffIgnoresOrder`); it shows the intended
  order exactly when the first program counter is in the boot ROM (`SmokeLog.HandoffTrustedIff`).
- The smoke gate passes without a recorded exit code, and with an empty one (`SmokeExit.PassesWithoutExit`,
  `SmokeExit.PassesWithEmptyExit`); a passing log records a zero exit exactly when its last value is present and not
  empty (`SmokeExit.PassExit`).
- The three positivity guards of the corner model do not exclude division by zero (`ArchMetrics.GuardsDoNotSuffice`).
- An empty metrics object skips every closure metric (`Closure.EmptyMetricsPass`); any waiver file excuses every dirty
  report (`Signoff.DirtyButWaived`).
- Duplicate keys below a YAML sequence or key are not seen (`YamlKeys.SequencesAreNotEntered`); a clean verdict covers the
  whole document exactly as far as the unreached mappings are distinct themselves (`YamlKeys.CleanDocumentIff`).
- A run without benchmarks exits 0 in every mode (`RunTheorems.EmptyRunExits`).
- A board release without failures still needs a manifest whose status is `release_blocked`
  (`BoardTheorems.ReleaseImpliesPreflight`).

## Model

| member | source | states |
|---|---|---|
| `RunTheorems.StrictRealExits` | benchmarks/run_benchmarks.py:1921-2009 | A strict real run exits 0 exactly when its report validates and every result passed. Then, in the words of the configuration: every listed tool, file and artifact was found and sound, the configured command was launched with its own arguments and printed the recorded metrics, every listed metric is a number and every gate holds, every listed section of the metadata document is recorded, every listed asset is calibrated, and all seven sections fit their schema. Exit codes 1 and 2 are characterised as well, and no result is "missing_dependencies". |
| `RunTheorems.EmptyRunExits` | benchmarks/run_benchmarks.py:1943-2009 | A run that selects nothing validates and exits 0 in every mode. |
| `RunTheorems.ReportRecords` | benchmarks/run_benchmarks.py:1202-1231 | Every completed run writes down its own arguments and stamps, the sections of the metadata document, and one result for each selected benchmark, which describes that benchmark. |
| `RunTheorems.LoadedMetadata` | benchmarks/run_benchmarks.py:1222-1230 | Loading keeps every section of the document under its name, and nothing else. |
| `RunTheorems.SelectionIsEmpty` | benchmarks/run_benchmarks.py:1190-1199 | That takes an empty benchmarks list and no name that asks for more. |
| `RunTheorems.PlanExits` | benchmarks/run_benchmarks.py:1719-1732 | A plan validates exactly when each selected benchmark has string descriptions, readable dependencies and a blocker id for every artifact that is not sound, so only otherwise does it exit 3; it never exits 1, and a strict plan exits 0 exactly when it validates and every result is planned, which means every configured tool, file and artifact is found and sound. |
| `RunTheorems.RealRunValid` | benchmarks/run_benchmarks.py:1478-1675 | A real report validates exactly when each result is accepted and, if one passed, all seven metadata sections are complete. |
| `RunTheorems.RealSound` | benchmarks/run_benchmarks.py:1559-1674 | Runner and validator agree: a real result satisfies all result clauses if and only if the descriptive fields are strings, blocker ids are non-empty, simulator benchmarks stay within L0 to L2 and, when passed, the provenance, NPU and calibration clauses hold; dependency, metric and gate clauses can never reject it. |
| `RunTheorems.PlanSound` | benchmarks/run_benchmarks.py:1719-1732 | A planned result satisfies the validator exactly when its descriptive fields are strings and every artifact that is not sound has a non-empty blocker id. |
| `RunTheorems.RealStatus` | benchmarks/run_benchmarks.py:1734-1839 | A real result is blocked exactly when something blocks it, passed exactly when nothing does and the run, parse and gates were clean, and otherwise a failure; "missing_dependencies" is unreachable. |
| `RunTheorems.PlanStatus` | benchmarks/run_benchmarks.py:1719-1732 | Under dry run the status is blocked, planned_missing_deps or planned according to which dependencies are unavailable. |
| `RunTheorems.PassedShape` | benchmarks/run_benchmarks.py:1801-1839 | What a passed result carries: no missing or blocked entries, the parsed metrics and the run metadata that met the requirements. |
| `RunTheorems.PassedClean` | benchmarks/run_benchmarks.py:1585-1617 | The validator's clauses on passed results hold of what the runner builds exactly under the provenance and calibration conditions. |
| `RunTheorems.NoForbiddenScores` | benchmarks/run_benchmarks.py:1638-1645 | Recorded metrics never hold one of the three scores forbidden to simulators. |
| `RunTheorems.DependenciesReleasable` | benchmarks/run_benchmarks.py:1928-1934 | No accepted command line above L2 leads to an available dependency that is barred from release claims. |
| `RunTheorems.NpuBenchmarkNeverAccepted` | benchmarks/run_benchmarks.py:1618-1629 | A passed `tflite_e1_npu` result with the TFLite parser makes the run exit with code 3. |
| `RunTheorems.NpuResultRejected` | benchmarks/run_benchmarks.py:1618-1629 | Such a result fails the validator, because its metrics lack the node counts. |
| `RunTheorems.Vouch` | benchmarks/run_benchmarks.py:1684-1839 | A passed and accepted result vouches for all of this, one benchmark at a time. |
| `Runner.RunPlanOrReal` | benchmarks/run_benchmarks.py:1921-2009 | The whole command: refusal of the smoke flag, an escaping error exactly when the configuration, selection, metadata or a benchmark raises, and otherwise the report made of one outcome per selected benchmark, each in its own environment, and the exit code of that report. |
| `Runner.Finish` | benchmarks/run_benchmarks.py:1982-2009 | Validation first, then failure, then strict mode: the exit code follows the report and the three flags. |
| `Runner.RunAll` | benchmarks/run_benchmarks.py:1947-1956 | The loop collects one outcome per benchmark in order, gives up exactly when one raises, and raises each of its three flags exactly when some result calls for it. |
| `Runner.CopySections` | benchmarks/run_benchmarks.py:1222-1230 | The loop over the section names copies what an object has of them, and raises where a name is found in a list or a text, or the document is neither. |
| `Runner.RunBenchmark` | benchmarks/run_benchmarks.py:1684-1839 | The record that the method fills in place is an outcome of the benchmark, or none where an error escapes. |
| `Runner.Plan` | benchmarks/run_benchmarks.py:1719-1732 | The dry-run branch fills the record with the planned result. |
| `Runner.Stop` | benchmarks/run_benchmarks.py:1734-1753 | The blocked branch records everything missing, blocked and required, and nothing of a run. |
| `Runner.Execute` | benchmarks/run_benchmarks.py:1774-1839 | Timeout, start error, parse error, non-zero return code, gate failure and success each lead to their own record. |
| `Execution.ArgvIff` | benchmarks/run_benchmarks.py:499-513 | The executed command has the length of the configured one and its words from the second on; its first word is replaced exactly when some dependency is an available executable of that name with a non-empty path, by the path of the first such dependency. No other command has this property. |
| `Execution.LaunchedIff` | benchmarks/run_benchmarks.py:1690-1693 | With every dependency available, the executed command is exactly the configured one with its first word found on the host by the tool search, if that word is a configured tool. |
| `Execution.RanCleanMeans` | benchmarks/run_benchmarks.py:1774-1839 | A run is clean with given metrics exactly when the configured command, launched on the host, exited 0 and printed the figures of those metrics for the configured parser, every listed metric is a number, every gate holds and the repeat counts are readable. |
| `Execution.ResultDescribes` | benchmarks/run_benchmarks.py:1704-1717 | Whatever the outcome, a result repeats the descriptive fields, command, parser and provenance of its benchmark, and names its own log. |
| `Execution.ParserNamed` | benchmarks/run_benchmarks.py:1384-1395 | Each parser is chosen by its own name only. |
| `Runner.ReadyHasNothingMissing` | benchmarks/run_benchmarks.py:1755-1772 | When nothing blocks, nothing is missing, so this branch is dead. |
| `Runner.BlockingRequirements` | benchmarks/run_benchmarks.py:1698-1701 | The list holds exactly the dependency and metadata requirements that block. |
| `Runner.ReadyIff` | benchmarks/run_benchmarks.py:1734-1734 | The branch condition is false exactly when every dependency is available and the gate clears the benchmark. |
| `Report.ValidateReport` | benchmarks/run_benchmarks.py:1478-1675 | The validator lists exactly the defects present, so the list is empty if and only if the report is valid. |
| `Report.ResultFaults` | benchmarks/run_benchmarks.py:1559-1674 | The faults of one result, sound and complete. |
| `Report.MetadataFaults` | benchmarks/run_benchmarks.py:1490-1552 | The metadata clauses apply exactly to real reports with a passed result, and find exactly the faulty sections and fields. |
| `Report.ProcessFaults` | benchmarks/run_benchmarks.py:1516-1552 | The seven clauses on the process section, sound and complete. |
| `Report.PassedFaults` | benchmarks/run_benchmarks.py:1585-1617 | The clauses on passed results, sound and complete. |
| `Report.NpuFaults` | benchmarks/run_benchmarks.py:1618-1629 | The clauses on a passed `tflite_e1_npu` result, sound and complete. |
| `Report.SimulatorFaults` | benchmarks/run_benchmarks.py:1638-1658 | The clauses on simulator provenance, sound and complete. |
| `MetadataGate.MetadataBlockers` | benchmarks/run_benchmarks.py:1044-1187 | The pre-run gate lists exactly the blockers that hold. |
| `GateEvidence.ClearsIff` | benchmarks/run_benchmarks.py:1044-1187 | A benchmark clears the gate exactly when every section that it lists, or all seven without a list, is an object whose fields are neither null nor blocked, the process section is bound to its contract, node, corner and signoff, and a calibration object is calibrated with every asset that the benchmark lists, from the first to the last. |
| `GateEvidence.SectionFaultless` | benchmarks/run_benchmarks.py:1490-1552 | The report finds no fault in a section exactly when the section fits its schema, field by field. |
| `GateEvidence.CalibratedIff` | benchmarks/run_benchmarks.py:1446-1475 | The calibration check of the report accepts exactly a calibrated object with evident top-level fields and every listed asset calibrated and evident. |
| `MetadataGate.ProcessBlockers` | benchmarks/run_benchmarks.py:1072-1142 | The clauses of the gate on the process section, sound and complete. |
| `MetadataGate.CheckCalibration` | benchmarks/run_benchmarks.py:1446-1475 | The calibration check lists exactly the faults that hold. |
| `MetadataGate.ClearedCalibrationFaults` | benchmarks/run_benchmarks.py:1446-1475 | With a calibration object, a benchmark that clears the gate can only fail calibration on the three top-level text fields or on an `assets` field that is no object and is not needed, never on the status or a required asset. |
| `MetadataGate.PopulatedVersusEvidenced` | benchmarks/run_benchmarks.py:1176-1186 | The gate's field test implies the report's, and differs only on text whose first visible part is the blocked prefix behind whitespace. |
| `MetadataGate.AssetVerdictsAgree` | benchmarks/run_benchmarks.py:1154-1186 | An asset that the gate lets through is never faulted by the report, and conversely up to indented notes. |
| `MetadataGate.IndentedNoteIsEvidenced` | benchmarks/run_benchmarks.py:1040-1041 | A concrete indented note is blocked at the gate and accepted by the report. |
| `Agreement.ProcessVerdictsAgree` | benchmarks/run_benchmarks.py:1072-1142 | The process clauses of gate and validator are equivalent; with the field tables the two verdicts differ only on `pdk` being visible text and on blocked notes in `node` and `pdk`. |
| `Agreement.BlockedNodeDivides` | benchmarks/run_benchmarks.py:1499-1515 | A concrete section with a blocked note as its node is accepted by the validator and blocked at the gate. |
| `Agreement.NumericPdkDivides` | benchmarks/run_benchmarks.py:1499-1515 | A concrete section with a number as its PDK clears the gate and is rejected by the validator. |
| `Agreement.FieldTables` | benchmarks/run_benchmarks.py:1499-1515 | Once the process clauses hold, the field tables leave only `node` and `pdk` open. |
| `Metrics.ParseTflite` | benchmarks/run_benchmarks.py:1302-1333 | One pass over the output keeps the last captured value of each figure and fails exactly when the latency is absent. |
| `Metrics.ParseCoremark` | benchmarks/run_benchmarks.py:1233-1246 | The last captured value of each figure, and a failure exactly when CoreMark/MHz is absent. |
| `Metrics.ParseStream` | benchmarks/run_benchmarks.py:1249-1257 | The dictionary that later lines overwrite holds the last bandwidth of each kernel; a failure exactly when Triad is absent. |
| `Metrics.ParseBwMem` | benchmarks/run_benchmarks.py:1260-1269 | The last bandwidth, or a failure when no line has one. |
| `Metrics.ParseLatMemRd` | benchmarks/run_benchmarks.py:1272-1281 | All points in order with their greatest latency, or a failure when there is none. |
| `Metrics.ParseFio` | benchmarks/run_benchmarks.py:1284-1299 | The sums over all jobs; the first job without figures decides how the parser fails, and sums of zero fail too. |
| `Metrics.ParseSimulatorMetrics` | benchmarks/run_benchmarks.py:1336-1351 | The document, exactly when it is an object with the three numbers, no forbidden score and the success mark. |
| `Metrics.LastMeans` | benchmarks/run_benchmarks.py:1302-1333 | The value that counts is the capture behind which there is no other. |
| `Metrics.ParsedNotEmpty` | benchmarks/run_benchmarks.py:1233-1395 | A parser that succeeds never returns an empty dictionary, so the validator cannot miss the metrics. |
| `Metrics.TfliteHasNoNodeCounts` | benchmarks/run_benchmarks.py:1302-1333 | The TFLite parser never produces the delegated-node count. |
| `Metrics.ParsedClaims` | benchmarks/run_benchmarks.py:1336-1395 | No parser lets a forbidden score through, and success is marked as allowed exactly by the two simulator parsers. |
| `Metrics.CheckMetricRequirements` | benchmarks/run_benchmarks.py:1414-1443 | The metric gate lists exactly the required metrics and gates that fail. |
| `Metrics.MetricsMetMeans` | benchmarks/run_benchmarks.py:1398-1443 | On an accepted configuration nothing fails exactly when each required metric is a number and each gate compares true. |
| `Measurement.ParsedIff` | benchmarks/run_benchmarks.py:1233-1395 | For each of the eight parsers: it returns a dictionary exactly when the output shows the figures in it, the last line of a kind winning, sums running over all jobs, and nothing else under any key. |
| `Measurement.MetricsMetIff` | benchmarks/run_benchmarks.py:1414-1443 | On an accepted configuration the requirements are met exactly when every listed metric is a number and every listed gate holds between its own metric and its own value. |
| `Measurement.OperatorMeans` | benchmarks/run_benchmarks.py:1398-1411 | Which of less, equal and greater holds between two numbers decides which operators pass. |
| `ToolSearch.CommandAvailable` | benchmarks/run_benchmarks.py:414-458 | The loop with its set of seen targets returns what the declarative search returns. |
| `ToolSearch.SearchReturnsFirstAcceptable` | benchmarks/run_benchmarks.py:414-458 | The tool found is the candidate of the first directory in search order whose candidate is acceptable. |
| `ToolSearch.NeverSmokeWithoutFlag` | benchmarks/run_benchmarks.py:373-411 | Without the smoke flag an available executable is never a smoke tool. |
| `ToolSearch.RejectedCandidates` | benchmarks/run_benchmarks.py:431-458 | Rejected candidates are smoke tools with pairwise distinct targets, and there are none when smoke tools are allowed. |
| `Dependencies.DependencyStatus` | benchmarks/run_benchmarks.py:467-496 | Statuses in configuration order, or an escaping error as soon as one raises. |
| `Provision.ToolFound` | benchmarks/run_benchmarks.py:414-458 | A tool is available at a path exactly when it is named by that path, is runnable and not a smoke tool, or when that path is the usable candidate of the first directory that offers one. |
| `Provision.EverythingFound` | benchmarks/run_benchmarks.py:467-496 | Every dependency is available exactly when each item of the four configured lists is: each tool found, each file there, each model artifact pinned, large enough and no placeholder, each capability artifact proved. |
| `Provision.StatusesReadable` | benchmarks/run_benchmarks.py:467-496 | The status check raises exactly when a tool or file name is no text, or an artifact that is there has unreadable placeholders or minimum size, or a proof check that crashes. |
| `Provision.IdsGivenIff` | benchmarks/run_benchmarks.py:894-906 | Blocker ids are good exactly when every configured artifact that is not sound is given a non-empty one, or none at all. |
| `Provision.ModelRecorded` | benchmarks/run_benchmarks.py:535-572 | The status of a model artifact records its own path, id and flags, and is missing, unpinned, of another hash, or a placeholder, in this order. |
| `Provision.CapabilityRecorded` | benchmarks/run_benchmarks.py:575-838 | The status of a capability artifact records its own path, id and flags, and is missing for the configured reason, or not proved. |
| `Provision.ToolRecorded` | benchmarks/run_benchmarks.py:472-489 | The status of a tool records its path and its rejected candidates, and claims releases exactly when its target is no smoke tool. |
| `Dependencies.MissingDependencies` | benchmarks/run_benchmarks.py:840-846 | Exactly the names of the unavailable dependencies that are no artifacts. |
| `Dependencies.DependencyBlockers` | benchmarks/run_benchmarks.py:866-891 | Exactly the name and kind of each unavailable dependency that is no model artifact. |
| `Dependencies.BlockedAssets` | benchmarks/run_benchmarks.py:894-906 | Exactly the unavailable artifacts. |
| `Dependencies.FiltersCoverEverything` | benchmarks/run_benchmarks.py:840-906 | The blocker filter covers the missing filter, and nothing is reported exactly when every dependency is available. |
| `Dependencies.ModelAvailable` | benchmarks/run_benchmarks.py:535-572 | A model artifact is available exactly when it is present, pinned or excused, no placeholder and large enough. |
| `Dependencies.AvailableMeansReleasable` | benchmarks/run_benchmarks.py:390-411 | Without the smoke flag no available dependency is barred from release claims. |
| `Config.ValidateConfig` | benchmarks/run_benchmarks.py:205-341 | The loop with its set of names accepts exactly well-formed benchmarks with distinct names. |
| `Config.CheckBench` | benchmarks/run_benchmarks.py:207-341 | The checks of one benchmark, with their loops, accept exactly the well-formed ones. |
| `Config.CheckAsset` | benchmarks/run_benchmarks.py:255-341 | The checks of one artifact accept exactly the well-formed ones. |
| `Config.CheckGates` | benchmarks/run_benchmarks.py:242-251 | The loop over the gates accepts exactly the well-formed ones. |
| `Config.Selected` | benchmarks/run_benchmarks.py:1190-1199 | Without names or with "all" the whole list, otherwise exactly the named benchmarks; it raises exactly when a name is unknown. |
| `Config.SelectionKeepsOrder` | benchmarks/run_benchmarks.py:1190-1199 | The selection is a subsequence of the configured list. |
| `Config.ReleaseBlockingArtifactPinned` | benchmarks/run_benchmarks.py:535-572 | An accepted release-blocking artifact that is available has a matching hash, unless its placeholder field is truthy without being true. |
| `Config.PlaceholderLoophole` | benchmarks/run_benchmarks.py:205-341 | A concrete artifact with `placeholder_allowed: 1` is accepted and needs no hash. |
| `SmokeLog.ParseLog` | scripts/check_chipyard_verilator_linux_smoke.py:446-533 | The streaming parser ends with exactly the metadata that the declarative functions read off the lines. |
| `SmokePass.ParsedValues` | scripts/check_chipyard_verilator_linux_smoke.py:446-533 | Every field of the parsed metadata in terms of the lines: each key has what follows its literal prefix on the last line that begins with it, the load range what follows the last marker, the last progress the last line that advances, the alarms the stripped lines of each kind in order. |
| `SmokePass.TrailingIs` | scripts/check_chipyard_verilator_linux_smoke.py:475-477 | The trailing count is the number of lines behind some end line that are neither whitespace nor evidence. |
| `SmokeLog.LogMetadata.Feed` | scripts/check_chipyard_verilator_linux_smoke.py:475-530 | One line changes each field as one more line changes the declarative reading. |
| `SmokeLog.LogMetadata.TakeBranch` | scripts/check_chipyard_verilator_linux_smoke.py:478-514 | The new value of every field the chain can change. |
| `SmokeLog.LogMetadata.CountTrailing` | scripts/check_chipyard_verilator_linux_smoke.py:476-477 | The counter is the number of noisy lines after the first end line. |
| `SmokeLog.LogMetadata.RaiseAlarms` | scripts/check_chipyard_verilator_linux_smoke.py:515-530 | Each alarm list grows by the stripped line exactly when the line raises that alarm. |
| `SmokeLog.BranchMeans` | scripts/check_chipyard_verilator_linux_smoke.py:478-514 | Each branch is taken by exactly the lines its own test describes: no earlier branch shadows it. |
| `SmokeLog.KeyValue` | scripts/check_chipyard_verilator_linux_smoke.py:478-503 | The value on a key line is all that follows its prefix, further equals signs included. |
| `TextLaws.AfterLastIs` | scripts/check_chipyard_verilator_linux_smoke.py:503-507 | `rsplit` leaves what follows the last occurrence of the marker. |
| `SmokeLog.LastValueAppend` | scripts/check_chipyard_verilator_linux_smoke.py:478-501 | Over concatenated logs the last value of a key wins. |
| `SmokeLog.LastEntryAppend` | scripts/check_chipyard_verilator_linux_smoke.py:510-512 | Over concatenated logs the last entry address wins. |
| `SmokeLog.LastRangeAppend` | scripts/check_chipyard_verilator_linux_smoke.py:505-509 | Over concatenated logs the last load range wins. |
| `SmokeLog.LastProgressAppend` | scripts/check_chipyard_verilator_linux_smoke.py:488-514 | Over concatenated logs the later progress wins. |
| `SmokeLog.AlarmsAppend` | scripts/check_chipyard_verilator_linux_smoke.py:515-530 | Alarm lists compose by concatenation, so they only grow, by a suffix. |
| `SmokeLog.TrailingAppend` | scripts/check_chipyard_verilator_linux_smoke.py:472-477 | After an end line every later noisy line counts; before one, the count starts with the later log. |
| `SmokeLog.ExitLineIsNotProgress` | scripts/check_chipyard_verilator_linux_smoke.py:482-514 | An exit-code line is never the last progress, although its prefix is among the progress markers. |
| `SmokeLog.ParseTrace` | scripts/check_chipyard_verilator_linux_smoke.py:542-597 | The trace fold returns first and last program counter, last cycle, count and handoff flag of the retired instructions. |
| `SmokePass.RetiredAre` | scripts/check_chipyard_verilator_linux_smoke.py:568-577 | The retired instructions are exactly the matched lines marked valid, in order. |
| `SmokeLog.HandoffIgnoresOrder` | scripts/check_chipyard_verilator_linux_smoke.py:542-597 | The handoff flag is symmetric in the two halves of a trace; payload before boot ROM sets it too. |
| `SmokeLog.HandoffTrustedIff` | scripts/check_chipyard_verilator_linux_smoke.py:542-597 | The flag implies that a payload ran after the boot ROM, for every trace with a given first entry, if and only if that entry is in the boot ROM. |
| `SmokeLog.OrderedSetsFlag` | scripts/check_chipyard_verilator_linux_smoke.py:542-597 | A trace in the intended order always sets the flag. |
| `SmokeGate.ProgressIsMonotone` | scripts/check_chipyard_verilator_linux_smoke.py:600-651 | Appending any text to a log, with the trace fixed, never lowers the stage. |
| `SmokeGate.StageByRank` | scripts/check_chipyard_verilator_linux_smoke.py:600-651 | Each rung of the ladder is reached exactly by its own condition or a higher one. |
| `SmokeGate.LinePrefixSurvives` | scripts/check_chipyard_verilator_linux_smoke.py:475-475 | A line with a given prefix survives text appended anywhere behind it, also within the last line. |
| `SmokeGate.Gate` | scripts/check_chipyard_verilator_linux_smoke.py:717-856 | The blockers collected are exactly those that hold, and the stage is that of the log. |
| `SmokeGate.PassMeans` | scripts/check_chipyard_verilator_linux_smoke.py:758-856 | The gate passes exactly on a clean environment and a log with accepted OpenSBI and Linux markers, closed if opened, without alarms, outliving output, failing exit code or stale trace. |
| `SmokePass.PassIff` | scripts/check_chipyard_verilator_linux_smoke.py:758-856 | The gate passes exactly on a clean environment and a log with the accepted markers that was closed if it was opened, where every line behind an end line is whitespace or evidence, no line raises an alarm and the last exit code is zero or empty. |
| `SmokePass.OutlivedIff` | scripts/check_chipyard_verilator_linux_smoke.py:771-777 | One late line earns the blocker and stops the gate; without one the blocker cannot occur; its count is the number of late lines. |
| `SmokeGate.PassOnlyAtLinuxBoot` | scripts/check_chipyard_verilator_linux_smoke.py:839-856 | The gate passes only when the stage is linux_boot. |
| `SmokeExit.PassExit` | scripts/check_chipyard_verilator_linux_smoke.py:796-802 | A passing log records a zero exit exactly when its last exit value is present and not empty. |
| `SmokeExit.PassesWithoutExit` | scripts/check_chipyard_verilator_linux_smoke.py:796-802 | A concrete log without an exit line passes. |
| `SmokeExit.PassesWithEmptyExit` | scripts/check_chipyard_verilator_linux_smoke.py:796-802 | A concrete log with an empty exit value passes. |
| `Hex.HexRoundTrip` | scripts/check_platform_contract.py:31-36 | `h(fmt_hex(v, w))` is v for every width exactly when v is not negative. |
| `Hex.PaddedValue` | scripts/check_platform_contract.py:35-36 | Zero padding to any width does not change the value of the digits. |
| `Hex.FmtHexShape` | scripts/check_platform_contract.py:35-36 | A number is printed in upper-case digits, as many as the width asks for, and more only where they are needed. |
| `Hex.ReadIntForms` | scripts/check_platform_contract.py:31-32 | `int(s, 16)` takes digits with or without a prefix, and a sign before either. |
| `Header.PrintHeader` | scripts/check_platform_contract.py:56-106 | The nested loops print the header text of the specification. |
| `Header.MatchComplete` | scripts/check_e1_npu_runtime_contract.py:150-156 | The matcher without backtracking finds every match of the pattern: its decomposition is unique. |
| `Header.MatchSound` | scripts/check_e1_npu_runtime_contract.py:150-156 | What the matcher finds is a match of the pattern. |
| `HeaderRoundTrip.HeaderRoundTrip` | scripts/check_platform_contract.py:56-106 | Reading the printed header, and the driver copy, gives back exactly the map from NPU registers to offsets if and only if every NPU register has a non-empty name and no negative offset. |
| `HeaderRoundTrip.HeaderEntries` | scripts/check_e1_npu_runtime_contract.py:150-156 | The search finds the NPU registers in order and nothing on any other line of the header. |
| `HeaderRoundTrip.DriverEntries` | scripts/check_platform_contract.py:109-132 | The driver copy with its replaced comment has the same entries. |
| `HeaderRoundTrip.ReplacesFirst` | scripts/check_platform_contract.py:121-125 | `replace` with a count of one replaces the first occurrence, and keeps a text without one. |
| `HeaderRoundTrip.RecoversIff` | scripts/check_e1_npu_runtime_contract.py:150-156 | The dictionary of the entries is the register map exactly when all registers are printable. |
| `HeaderReadBack.HeaderReadsBack` | scripts/check_platform_contract.py:56-106 | The whole header read back: a reader of definitions finds the own contract value under each of the fifteen fixed keys, the own offset under each register key of the four regions, and no other key; only negative addresses and offsets do not come back. |
| `HeaderReadBack.HeaderDictionary` | scripts/check_platform_contract.py:56-106 | No two lines of the header define the same key. |
| `HeaderReadBack.DriverReadsBack` | scripts/check_platform_contract.py:121-125 | The lines of the driver copy are those of the header but for the first, and define the same. |
| `HeaderReadBack.HeaderGuarded` | scripts/check_platform_contract.py:62-104 | The header begins and ends with its own include guard. |
| `ArchMetrics.ModeledWorkloadEntries` | benchmarks/generate_simulator_arch_metrics.py:157-198 | One entry per workload in order, or a raised division by zero. |
| `ArchMetrics.ModeledCpu` | benchmarks/generate_simulator_arch_metrics.py:201-287 | Guards, corners, nominal corner, worst corner and maxima as the specification says, with the two ways to fail. |
| `ModelReport.ModeledReport` | benchmarks/generate_simulator_arch_metrics.py:201-287 | Every modeled report takes its nominal figures from the first corner of the nominal name and its MPKI from the workloads of the last one, its worst corner is the first of least IPC, its worst power and temperature bound every corner and are attained, and the entry of each corner is that of the corner at the same place. |
| `ModelReport.CornerIsFit` | benchmarks/generate_simulator_arch_metrics.py:212-249 | The figures of a corner: sums over its workloads, their greatest power, the die temperature, and the quotients. |
| `ModelReport.EntryFits` | benchmarks/generate_simulator_arch_metrics.py:157-198 | The figures of one workload at one corner. |
| `ArchMetrics.ModeledCorners` | benchmarks/generate_simulator_arch_metrics.py:213-249 | The loop over the corners, which remembers the workloads of the last nominal corner. |
| `ArchMetrics.AggregateBounds` | benchmarks/generate_simulator_arch_metrics.py:220-226 | Despite flooring, aggregate IPC is at least the least workload IPC and below the greatest times 1 + n / cycles. |
| `ArchMetrics.EnergyBound` | benchmarks/generate_simulator_arch_metrics.py:220-242 | Instructions per joule times the reported power is at least aggregate IPC times cores times frequency. |
| `ArchMetrics.EntryCycles` | benchmarks/generate_simulator_arch_metrics.py:179-180 | The floored cycle count brackets the instructions, and is positive exactly when the cores retire no more than that in one cycle. |
| `ArchMetrics.DerateOrdersIpc` | benchmarks/generate_simulator_arch_metrics.py:220-226 | The corner with the smaller derating has the smaller aggregate IPC, whatever flooring does. |
| `ArchMetrics.WorstCornerByDerate` | benchmarks/generate_simulator_arch_metrics.py:254-254 | The corner with the smallest derating attains the reported worst IPC for every workload list and core count. |
| `ArchMetrics.DivisionSafety` | benchmarks/generate_simulator_arch_metrics.py:179-226 | A corner is computed without division by zero exactly when its floored frequency is at least 1 and some workload has at least as many instructions as all cores retire in a cycle. |
| `ArchMetrics.ModelSafety` | benchmarks/generate_simulator_arch_metrics.py:201-287 | The whole model finishes exactly when every corner is safe and a nominal corner is listed. |
| `ArchMetrics.GuardsDoNotSuffice` | benchmarks/generate_simulator_arch_metrics.py:201-207 | Arguments that pass the guards, and a corner that then divides by zero. |
| `ArchMetrics.FirstWorst` | benchmarks/generate_simulator_arch_metrics.py:254-254 | `min` over the corners returns the first with the least IPC. |
| `Table.MarkdownRows` | scripts/check_memory_interconnect_contract.py:65-82 | The loop with its header state returns the rows of the specification. |
| `Table.TableRoundTrip` | scripts/check_memory_interconnect_contract.py:65-82 | A printed table comes back row by row exactly when it has no rows, or neither its header nor any row looks like a rule of dashes and colons. |
| `Table.RowRoundTrip` | scripts/check_memory_interconnect_contract.py:72-72 | A printed row of trimmed cells without bars gives its cells back. |
| `Table.GapSeparates` | scripts/check_memory_interconnect_contract.py:69-71 | A line outside any table separates: the lines before and after it are read on their own. |
| `Table.DocumentRoundTrip` | scripts/check_memory_interconnect_contract.py:65-82 | A document of recoverable tables with gaps returns all their records in order. |
| `Table.TextRoundTrip` | scripts/check_memory_interconnect_contract.py:65-82 | The same from the document's text, through `splitlines`. |
| `TextLaws.SplitLinesLaws` | scripts/check_memory_interconnect_contract.py:68-68 | `splitlines` takes a text apart at its breaks, a carriage return with the newline behind it counting as one. |
| `TextLaws.StripIff` | scripts/check_memory_interconnect_contract.py:72-72 | `strip` removes the whitespace around a text, all of it and nothing else. |
| `Table.DistinctHeaders` | scripts/check_memory_interconnect_contract.py:80-81 | Under distinct headers every cell of a row is found under its header. |
| `Decode.DecodeIsInterval` | scripts/check_memory_interconnect_contract.py:255-259 | For an aligned window the masked compare selects exactly the interval the overlap check uses. |
| `Decode.AndHigh` | rtl/interconnect/e1_axi_lite_interconnect.sv:200-211 | Masking off k low bits of a word subtracts the remainder by 2^k. |
| `Decode.OverlapIsExact` | scripts/check_memory_interconnect_contract.py:99-100 | For positive sizes the overlap test holds exactly when a common address exists. |
| `Decode.EmptyRangeIsReported` | scripts/check_memory_interconnect_contract.py:99-100 | With an empty range the test can hold without a common address. |
| `Decode.OverlapErrors` | scripts/check_memory_interconnect_contract.py:260-266 | The pairwise loop reports exactly the clashing pairs. |
| `Decode.AtMostOneTarget` | scripts/check_memory_interconnect_contract.py:260-266 | When it reports nothing, no address selects two targets, for any number of windows with masks of low ones, aligned or not. |
| `Decode.ClashIsReal` | scripts/check_memory_interconnect_contract.py:260-266 | Two windows that clash share an address that selects both. |
| `Decode.DecodeAddrMeans` | rtl/interconnect/e1_axi_lite_interconnect.sv:200-211 | The decode chain selects each target exactly on its own interval, so its order does not matter. |
| `Decode.InterconnectDecodes` | rtl/interconnect/e1_axi_lite_interconnect.sv:173-179 | The three windows of the interconnect are aligned and disjoint. |
| `Decode.IntervalIffAligned` | scripts/check_memory_interconnect_contract.py:255-259 | With a mask of low ones, decode and span agree on every address if and only if the base is aligned. |
| `Decode.UnalignedSelectsNothing` | rtl/interconnect/e1_axi_lite_interconnect.sv:200-211 | A window with an unaligned base selects no address. |
| `Decode.UnalignedBaseIsUnreachable` | scripts/check_memory_interconnect_contract.py:255-259 | A concrete window that has a span and no address. |
| `Brackets.SplitTopLevel` | scripts/check_pad_consistency.py:74-91 | The result is the split of the text at its commas of depth zero, up to one dropped empty last piece. |
| `Brackets.SplitIsUnique` | scripts/check_pad_consistency.py:74-91 | That split is unique: joined by commas it is the text, pieces that end at a comma have net depth zero, and no comma of depth zero is left inside, for mismatched brackets too. |
| `Brackets.PieceCount` | scripts/check_pad_consistency.py:74-91 | There is one piece more than there are commas of depth zero. |
| `YamlKeys.Visit` | scripts/check_pd_signoff.py:141-158 | The visitor extends the shared list by the duplicates of the tree, in order. |
| `YamlKeys.CountDuplicates` | scripts/check_pd_signoff.py:135-160 | The number of reports is that of scalar-key occurrences minus distinct scalar keys, summed over the mappings reached through mapping values. |
| `YamlKeys.CleanMeansDistinct` | scripts/check_pd_signoff.py:135-160 | Nothing is reported exactly when no reached mapping repeats a scalar key. |
| `YamlKeys.ReportIsReal` | scripts/check_pd_signoff.py:144-155 | Each report names a key and two lines at which a reached mapping has it. |
| `YamlKeys.SequencesAreNotEntered` | scripts/check_pd_signoff.py:141-158 | A repeated key below a sequence goes unreported. |
| `YamlKeys.ReportsCoverReached` | scripts/check_pd_signoff.py:135-160 | The reports and the excess of the unreached mappings add up to the excess of all mappings of the tree. |
| `YamlKeys.CleanDocumentIff` | scripts/check_pd_signoff.py:135-160 | The document repeats no key if and only if nothing is reported and no unreached mapping repeats one. |
| `YamlKeys.FlatDocumentIff` | scripts/check_pd_signoff.py:135-160 | Where no sequence and no key has a mapping below it, nothing is reported exactly when every mapping of the document has distinct keys. |
| `YamlKeys.Partition` | scripts/check_pd_signoff.py:141-158 | Reached and unreached mappings together are the mappings of the tree. |
| `Closure.CheckMetrics` | scripts/check_pd_closure.py:69-80 | Exactly the missing, non-zero and negative metrics are reported. |
| `Closure.NumericMetric` | scripts/check_pd_closure.py:61-66 | The number, or nothing and one more failure in the caller's list. |
| `Closure.CheckRunManifest` | scripts/check_pd_closure.py:100-115 | Exactly the checks that are not clean are reported. |
| `Closure.CheckWaivers` | scripts/check_pd_closure.py:83-97 | Nothing is reported exactly when no waiver of a clean check is open; an unhashable check name raises. |
| `Closure.ValidateReleaseClosure` | scripts/check_pd_signoff.py:621-627 | Nothing is reported exactly of a clean run, where an empty metrics object counts as clean. |
| `SignoffMeaning.ClosureIs` | scripts/check_pd_signoff.py:621-627 | A run is clean exactly when each of the eleven violation counts is zero and none of the six slacks is negative, or there are no metrics, both checks are marked clean and their waivers closed. |
| `SignoffMeaning.ClosureRaisesIff` | scripts/check_pd_closure.py:83-97 | The closure check raises exactly when a waiver names its check by a list or a mapping. |
| `Closure.EmptyMetricsPass` | scripts/check_pd_signoff.py:621-627 | With an empty metrics object the closure check passes although no metric is present. |
| `Signoff.ChooseCompleteRun` | scripts/check_pd_signoff.py:593-618 | The first complete run with all its artifacts, or else the artifacts of the closest run, with the dictionary of what is missing. |
| `Signoff.FilesForRun` | scripts/check_pd_signoff.py:582-590 | The loop over the patterns returns what each pattern of the run's own root matches inside the run. |
| `Signoff.FilesAreOfRun` | scripts/check_pd_signoff.py:582-590 | A file belongs to a run exactly when a pattern scoped to its root matches it inside the run directory. |
| `Signoff.Survey` | scripts/check_pd_signoff.py:604-611 | The artifacts found in one run and the classes missing there. |
| `Signoff.ClosestAgrees` | scripts/check_pd_signoff.py:675-675 | The run tracked by the loop is the one that `main` finds with `min` over the dictionary, also when directories repeat. |
| `Signoff.Closest` | scripts/check_pd_signoff.py:612-615 | The tracked run has no more missing classes than any other. |
| `Signoff.CheckRuns` | scripts/check_pd_signoff.py:671-701 | Without a complete run the failures name the closest one and what it lacks; with one they are empty exactly when it is accepted. |
| `Signoff.CheckClass` | scripts/check_pd_signoff.py:684-698 | One artifact class is without failure exactly when its files are large enough and its reports carry the clean marker. |
| `Signoff.BlockedGates` | scripts/check_pd_signoff.py:705-709 | Exactly the gates marked as blocked are reported. |
| `Signoff.CheckArtifacts` | scripts/check_pd_signoff.py:670-715 | No failure exactly when the artifacts are accepted; every blocked gate is among the failures. |
| `Signoff.Verdict` | scripts/check_pd_signoff.py:630-725 | Exit 0 exactly when no key repeats, the manifest is sound and, unless only the manifest is asked about, the artifacts are accepted. |
| `Signoff.AcceptedIsOneRun` | scripts/check_pd_signoff.py:670-715 | An accepted signoff draws on one run, the first complete one, whose closure is clean, and no gate is blocked. |
| `SignoffMeaning.AcceptsIff` | scripts/check_pd_signoff.py:670-715 | Acceptance holds exactly when some directory is the first with a file of every class, each file large enough and each report marked clean, its closure clean, no gate marked as blocked, and dirty reports waived where that is required. |
| `SignoffMeaning.FilesAre` | scripts/check_pd_signoff.py:582-590 | A file belongs to a run exactly when a pattern consists of the root without trailing slashes, a run directory and a rest that matches the file inside the run. |
| `Signoff.DirtyButWaived` | scripts/check_pd_signoff.py:710-715 | Dirty reports stop an otherwise accepted run exactly when a waiver is required and no waiver file exists. |
| `BoardValidator.ValidateManifest` | scripts/check_board_package_evidence.py:667-737 | The failures and release blockers of the specification, or an escaping error. |
| `BoardValidator.Findings.ValidateArtifact` | scripts/check_board_package_evidence.py:580-664 | What one artifact appends to the two lists and to the set of identifiers. |
| `BoardValidator.Findings.ValidateEvidenceRecords` | scripts/check_board_package_evidence.py:488-577 | What the evidence records of an artifact append. |
| `BoardValidator.Findings.ValidateGroups` | scripts/check_board_package_evidence.py:705-731 | The loop over groups, with the identifiers threaded through all of them. |
| `BoardTheorems.PreflightWithinRelease` | scripts/check_board_package_evidence.py:667-737 | For every manifest the preflight failures are a subsequence of the release failures. |
| `BoardTheorems.ManifestClean` | scripts/check_board_package_evidence.py:667-737 | In either mode a manifest has no failure exactly when its header, every group and every artifact of it are what the mode accepts, field by field, and identifiers are distinct and cover the required set. |
| `BoardTheorems.PreflightClean` | scripts/check_board_package_evidence.py:667-737 | A preflight is clean exactly when the manifest is consistent: what is complete has files, metadata and accepted records, what is missing has no files, and everything names what it waits for. |
| `BoardTheorems.ReleaseClean` | scripts/check_board_package_evidence.py:667-737 | A release is clean exactly when every group and artifact of the manifest is complete with files, metadata and accepted evidence, and identifiers are distinct within and across groups and cover the required set. |
| `BoardTheorems.ArtifactClean` | scripts/check_board_package_evidence.py:580-664 | In either mode an artifact is without failure exactly when the mode accepts its own fields, every digest in its metadata included, and its identifier is new. |
| `BoardTheorems.RecordClean` | scripts/check_board_package_evidence.py:518-577 | A record is without problem exactly when every field, path, file and hash condition holds, with or without an identifier to match. |
| `BoardTheorems.ReleaseImpliesPreflight` | scripts/check_board_package_evidence.py:679-682 | A clean release is clean in preflight, with a manifest that still says release_blocked. |
| `BoardTheorems.BlockersMeanFailure` | scripts/check_board_package_evidence.py:655-664 | A non-empty list of release blockers comes with a failure. |
| `BoardTheorems.ReleaseBlockersAre` | scripts/check_board_package_evidence.py:655-660 | The release blockers are exactly the texts of the artifacts that name what they wait for and are not complete with files; a preflight has none. |
| `BoardTheorems.RaisesIff` | scripts/check_board_package_evidence.py:667-737 | Validation raises exactly when the status of some group or artifact, or the acceptance status of some record, is a list or a mapping. |
| `BoardTheorems.FailuresAt` | scripts/check_board_package_evidence.py:589-596 | Every failure of an artifact stands under its group, or under the group and the artifact's own name, or "unnamed" without one. |
| `BoardTheorems.UniqueItems` | scripts/check_board_package_evidence.py:740-747 | The loop keeps the first occurrence of each item. |
| `BoardTheorems.FirstsMean` | scripts/check_board_package_evidence.py:740-747 | Nothing is lost, nothing repeats and the order is kept. |

## Left out

- Command-line parsing, printing, report writing, locks, repair commands and child processes: their outcomes are inputs.
- Hashing, JSON and YAML parsing, file matching and path resolution: inputs; a mapping read from a document has string keys.
- The rest of the capability-proof document check (benchmarks/run_benchmarks.py:591-838): one verdict in `Env`.
- `Metrics.ParseTflite`: takes the captures of each line as input, because the general regular expressions are not part of the model.
- `Metrics.ParseCoremark`: takes the captures of each line as input, for the same reason.
- `Metrics.ParseStream`: takes the captures of each line as input, for the same reason.
- `Metrics.ParseBwMem`: takes what `float()` makes of each line's last word as input.
- `Metrics.ParseLatMemRd`: takes what `float()` makes of each line's first two words as input.
- `Metrics.ParseFio`: takes what `float()` makes of each job's figures as input.
- The NPU scale simulator's document: its figures, or the kind of error that reading them raises, are an input.
- `parse_metrics` in benchmarks/run_benchmarks.py: the runner does not call it.
- `Report.ValidateReport`: says which defects are listed, not in which order or how often; dependencies and blocked assets are typed records, so arbitrary JSON in a report file that the runner did not write is not covered.
- `Report.ResultFaults`: as for the whole report, malformed dependency entries and asset flags that are no booleans cannot occur in a typed record.
- `MetadataGate.MetadataBlockers`: says which blockers are listed, not their order or their resolution texts.
- Rounding, NaN and infinities: `ArchMetrics` and metric gates use the reals; `float()` of an integer too large for a float is not modelled.
- `ArchMetrics.AggregateBounds`: for positive base IPC and derating, as all built-in workloads and corners have.
- `ArchMetrics.EnergyBound`: for positive IPC and derating, non-negative activity and dynamic scale and positive leakage scale, as all built-in workloads and corners have.
- `HeaderReadBack.HeaderReadsBack`: for register names over upper-case letters, digits and underscores that do not repeat within a region; with a repeated name the later line wins, and other characters can break a line apart.
- `HeaderRoundTrip.HeaderRoundTrip`: for the same names.
- The resolved command, missing-dependency details, return code, elapsed time, error text and repeat counts in a result: written for the reader of a report, and read by no script.
- `Hex.HexRoundTrip`: `int(s, 16)` reads ASCII digits only.
- The RTL regular expressions of the contract scripts, and the gate scripts that test a document for a fixed list of tokens and constants: they keep no state and combine nothing, so there is no law between their parts to state.
- `Signoff.Verdict`: the shape of the manifest, the per-run manifest and the report patterns are verdicts given as inputs; the node tree of the YAML document is finite, so recursive aliases are excluded.
- `Signoff.ChooseCompleteRun`: what a pattern matches inside a run directory is an input, and so is the root a directory lies in.
- `BoardValidator.ValidateManifest`: the source contracts, capture template, scaling assessment, record policy and placeholder blockers do not depend on the mode and enter as one list; the order in which a mapping lists its keys is an input, of which the theorems about a clean manifest and its release blockers require that it visits each key once.
- `expand_rtl_buses`, `parse_rtl_ports` and the cross-check loops of scripts/check_pad_consistency.py: set comparisons without an invariant.
- Decoding of the smoke log's bytes: the model starts from its text.
