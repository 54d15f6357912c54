/** What an accepted signoff says of the run, its files, its closure and the gates themselves. */
module SignoffMeaning {
  import opened Json
  import opened Text
  import opened Signoff
  import C = Closure

  // ---------- the files of a run ----------

  /** The pattern is the root, without its trailing slashes, a run directory, and this rest. */
  ghost predicate Scoped(root: string, pattern: string, rest: string) {
    exists base, slashes ::
      && (base != "" ==> base[|base| - 1] != '/') && (forall c :: c in slashes ==> c == '/')
      && root == base + slashes && pattern == base + ("/*/" + rest)
  }

  /** Some pattern of the class, scoped to the root of the run, matches this file inside the run. */
  ghost predicate FileOf(disk: Disk, dir: string, name: string, file: string) {
    exists g, rest :: g in disk.globs(name) && Scoped(disk.rootOf(dir), g, rest) && file in disk.within(dir, rest)
  }

  lemma {:induction false} SlashesOf(root: string) returns (slashes: string)
    ensures root == RStripSlash(root) + slashes && (forall c :: c in slashes ==> c == '/')
    ensures RStripSlash(root) != "" ==> RStripSlash(root)[|RStripSlash(root)| - 1] != '/'
  {
    slashes := "";
    if root != "" && root[|root| - 1] == '/' {
      var rest := SlashesOf(root[..|root| - 1]);
      slashes := rest + "/";
    }
  }

  lemma {:induction false} BaseIs(base: string, slashes: string)
    requires (base != "" ==> base[|base| - 1] != '/') && forall c :: c in slashes ==> c == '/'
    ensures RStripSlash(base + slashes) == base
  {
    if slashes == "" {
      assert base + slashes == base;
    } else {
      var n := |slashes| - 1;
      assert slashes[n] in slashes && forall c :: c in slashes[..n] ==> c in slashes;
      assert (base + slashes)[..|base + slashes| - 1] == base + slashes[..n];
      BaseIs(base, slashes[..n]);
    }
  }

  lemma ScopedIs(root: string, pattern: string, rest: string)
    ensures Scoped(root, pattern, rest) <==> StartsWith(pattern, RunPrefix(root)) && rest == pattern[|RunPrefix(root)|..]
  {
    var slashes := SlashesOf(root);
    var prefix := RunPrefix(root);
    if StartsWith(pattern, prefix) && rest == pattern[|prefix|..] {
      assert pattern == RStripSlash(root) + ("/*/" + rest);
    }
    if Scoped(root, pattern, rest) {
      var base, more :| (base != "" ==> base[|base| - 1] != '/') && (forall c :: c in more ==> c == '/')
                        && root == base + more && pattern == base + ("/*/" + rest);
      BaseIs(base, more);
      assert pattern == prefix + rest;
    }
  }

  lemma FilesAre(disk: Disk, dir: string, name: string, file: string)
    ensures file in FilesOf(disk, dir, name) <==> FileOf(disk, dir, name, file)
  {
    var globs, root := disk.globs(name), disk.rootOf(dir);
    FilesAreOfRun(disk, dir, globs, file);
    forall g, rest
      ensures Scoped(root, g, rest) <==> StartsWith(g, RunPrefix(root)) && rest == g[|RunPrefix(root)|..]
    {
      ScopedIs(root, g, rest);
    }
    hide Scoped, RunPrefix, FilesFor;
    if g :| g in globs && StartsWith(g, RunPrefix(root)) && file in disk.within(dir, g[|RunPrefix(root)|..]) {
      assert Scoped(root, g, g[|RunPrefix(root)|..]);
    }
  }

  // ---------- the closure ----------

  predicate ZeroAt(metrics: Object, key: string) {
    key in metrics && (metrics[key] == JInt(0) || metrics[key] == JFloat(0.0) || metrics[key] == JBool(false))
  }

  predicate NotNegative(metrics: Object, key: string) {
    key in metrics &&
    match metrics[key]
    case JInt(n) => n >= 0
    case JFloat(r) => r >= 0.0
    case JBool(_) => true
    case _ => false
  }

  /** No violation of any kind, and no negative slack. */
  predicate MetricsClosed(m: Object) {
    && ZeroAt(m, "antenna__violating__nets") && ZeroAt(m, "antenna__violating__pins") && ZeroAt(m, "route__antenna_violation__count")
    && ZeroAt(m, "timing__hold_vio__count") && ZeroAt(m, "timing__setup_vio__count")
    && ZeroAt(m, "timing__hold_r2r_vio__count") && ZeroAt(m, "timing__setup_r2r_vio__count")
    && ZeroAt(m, "design__max_slew_violation__count") && ZeroAt(m, "design__max_cap_violation__count")
    && ZeroAt(m, "design__max_fanout_violation__count") && ZeroAt(m, "design__violations")
    && NotNegative(m, "timing__hold__wns") && NotNegative(m, "timing__hold__tns") && NotNegative(m, "timing__hold_r2r__ws")
    && NotNegative(m, "timing__setup__wns") && NotNegative(m, "timing__setup__tns") && NotNegative(m, "timing__setup_r2r__ws")
  }

  predicate Says(d: Object, key: string, text: string) {
    key in d && d[key] == JStr(text)
  }

  /** The run manifest marks a check as clean. */
  predicate MarkedClean(manifest: Object, check: string) {
    && "checks" in manifest && manifest["checks"].JObj?
    && check in manifest["checks"].fields && manifest["checks"].fields[check].JObj?
    && Says(manifest["checks"].fields[check].fields, "status", "clean")
  }

  predicate WaiverClosed(waiver: Json) {
    waiver.JObj? && (Says(waiver.fields, "check", "antenna") || Says(waiver.fields, "check", "sta")) ==>
      Says(waiver.fields, "status", "closed_release_clean")
  }

  /** The closure of a run: metrics checked unless there are none, both checks clean, their waivers closed. */
  predicate ClosureClean(files: C.RunFiles) {
    && files.metrics.Payload? && files.metrics.value.JObj?
    && (files.metrics.value.fields == map[] || MetricsClosed(files.metrics.value.fields))
    && files.runYaml.Some? && files.runYaml.value.JObj?
    && MarkedClean(files.runYaml.value.fields, "antenna") && MarkedClean(files.runYaml.value.fields, "sta")
    && (files.waiversYaml.Some? && files.waiversYaml.value.JObj?
        && "waivers" in files.waiversYaml.value.fields && files.waiversYaml.value.fields["waivers"].JList? ==>
          var waivers := files.waiversYaml.value.fields["waivers"].items;
          forall k :: 0 <= k < |waivers| ==> WaiverClosed(waivers[k]))
  }

  lemma ZeroIs(m: Object, key: string)
    ensures ZeroAt(m, key) <==> IsNumber(Get(m, key)) && Number(Get(m, key)) == 0.0
    ensures NotNegative(m, key) <==> IsNumber(Get(m, key)) && Number(Get(m, key)) >= 0.0
  {
  }

  lemma ZeroesAre(m: Object)
    ensures (forall key :: key in C.ZERO_METRICS ==> ZeroAt(m, key)) <==>
            && ZeroAt(m, "antenna__violating__nets") && ZeroAt(m, "antenna__violating__pins") && ZeroAt(m, "route__antenna_violation__count")
            && ZeroAt(m, "timing__hold_vio__count") && ZeroAt(m, "timing__setup_vio__count")
            && ZeroAt(m, "timing__hold_r2r_vio__count") && ZeroAt(m, "timing__setup_r2r_vio__count")
            && ZeroAt(m, "design__max_slew_violation__count") && ZeroAt(m, "design__max_cap_violation__count")
            && ZeroAt(m, "design__max_fanout_violation__count") && ZeroAt(m, "design__violations")
  {
    hide ZeroAt;
    var keys := C.ZERO_METRICS;
    if forall key :: key in keys ==> ZeroAt(m, key) {
      assert keys[0] in keys && keys[1] in keys && keys[2] in keys && keys[3] in keys && keys[4] in keys && keys[5] in keys;
      assert keys[6] in keys && keys[7] in keys && keys[8] in keys && keys[9] in keys && keys[10] in keys;
    }
  }

  lemma SlacksAre(m: Object)
    ensures (forall key :: key in C.NONNEGATIVE_METRICS ==> NotNegative(m, key)) <==>
            && NotNegative(m, "timing__hold__wns") && NotNegative(m, "timing__hold__tns") && NotNegative(m, "timing__hold_r2r__ws")
            && NotNegative(m, "timing__setup__wns") && NotNegative(m, "timing__setup__tns") && NotNegative(m, "timing__setup_r2r__ws")
  {
    hide NotNegative;
    var keys := C.NONNEGATIVE_METRICS;
    if forall key :: key in keys ==> NotNegative(m, key) {
      assert keys[0] in keys && keys[1] in keys && keys[2] in keys && keys[3] in keys && keys[4] in keys && keys[5] in keys;
    }
  }

  lemma MetricsAre(m: Object)
    ensures C.MetricsClean(m) <==> MetricsClosed(m)
  {
    ZeroesAre(m);
    SlacksAre(m);
    hide ZeroAt, NotNegative, IsNumber, Number, Get;
    forall key
      ensures ZeroAt(m, key) <==> IsNumber(Get(m, key)) && Number(Get(m, key)) == 0.0
      ensures NotNegative(m, key) <==> IsNumber(Get(m, key)) && Number(Get(m, key)) >= 0.0
    {
      ZeroIs(m, key);
    }
  }

  lemma ManifestIs(file: Option<Json>)
    ensures C.RunManifestClean(file) <==>
            file.Some? && file.value.JObj? && MarkedClean(file.value.fields, "antenna") && MarkedClean(file.value.fields, "sta")
  {
    assert C.CLEAN_CHECKS[0] == "antenna" && C.CLEAN_CHECKS[1] == "sta";
    assert C.CLEAN_CHECKS[0] in C.CLEAN_CHECKS && C.CLEAN_CHECKS[1] in C.CLEAN_CHECKS;
  }

  lemma WaiverIs(waiver: Json)
    ensures C.WaiverIsOpen(waiver) <==> !WaiverClosed(waiver)
  {
    assert forall s :: s in C.CLEAN_CHECKS <==> s == "antenna" || s == "sta";
  }

  lemma WaiversAre(file: Option<Json>)
    ensures (forall w :: w in C.Waivers(file) ==> !C.WaiverIsOpen(w)) <==>
            (file.Some? && file.value.JObj? && "waivers" in file.value.fields && file.value.fields["waivers"].JList? ==>
               var waivers := file.value.fields["waivers"].items;
               forall k :: 0 <= k < |waivers| ==> WaiverClosed(waivers[k]))
  {
    var waivers := C.Waivers(file);
    forall w
      ensures C.WaiverIsOpen(w) <==> !WaiverClosed(w)
    {
      WaiverIs(w);
    }
    hide C.WaiverIsOpen, WaiverClosed;
    assert forall k :: 0 <= k < |waivers| ==> waivers[k] in waivers;
  }

  lemma ClosureIs(files: C.RunFiles)
    ensures C.Clean(files) <==> ClosureClean(files)
  {
    if files.metrics.Payload? && files.metrics.value.JObj? {
      MetricsAre(files.metrics.value.fields);
    }
    ManifestIs(files.runYaml);
    WaiversAre(files.waiversYaml);
    hide C.MetricsClean, MetricsClosed, C.RunManifestClean, MarkedClean, C.WaiverIsOpen, WaiverClosed, C.Waivers;
  }

  /** The closure check raises exactly when a waiver's check is a list or a mapping. */
  lemma ClosureRaisesIff(files: C.RunFiles)
    ensures C.Raises(files) <==>
            && files.waiversYaml.Some? && files.waiversYaml.value.JObj?
            && "waivers" in files.waiversYaml.value.fields && files.waiversYaml.value.fields["waivers"].JList?
            && var waivers := files.waiversYaml.value.fields["waivers"].items;
            exists k :: 0 <= k < |waivers| && Unreadable(waivers[k])
  {
    var waivers := C.Waivers(files.waiversYaml);
    assert forall w :: C.WaiverRaises(w) <==> Unreadable(w);
    assert forall k :: 0 <= k < |waivers| ==> waivers[k] in waivers;
  }

  predicate Unreadable(waiver: Json) {
    waiver.JObj? && "check" in waiver.fields && (waiver.fields["check"].JList? || waiver.fields["check"].JObj?)
  }

  // ---------- an accepted run ----------

  ghost predicate SomeFile(disk: Disk, dir: string, name: string) {
    exists file :: FileOf(disk, dir, name, file)
  }

  /** Every class has a file in the run. */
  ghost predicate CompleteRun(disk: Disk, dir: string, required: seq<ArtifactClass>) {
    forall i :: 0 <= i < |required| ==> SomeFile(disk, dir, required[i].name)
  }

  predicate ReportClass(c: ArtifactClass) {
    EndsWith(c.name, "_report")
  }

  /** Every file of a class is large enough, and a report carries its clean marker. */
  ghost predicate ClassSound(disk: Disk, run: string, c: ArtifactClass) {
    forall file :: FileOf(disk, run, c.name, file) ==>
      disk.size(file) >= c.minBytes && (ReportClass(c) ==> disk.passHit(c.name, file))
  }

  ghost predicate SomeReportDirty(disk: Disk, run: string, required: seq<ArtifactClass>) {
    exists i, file :: 0 <= i < |required| && ReportClass(required[i])
                      && FileOf(disk, run, required[i].name, file) && disk.failHit(required[i].name, file)
  }

  ghost predicate RunSound(disk: Disk, run: string, required: seq<ArtifactClass>) {
    && (forall i :: 0 <= i < |required| ==> ClassSound(disk, run, required[i]))
    && ((exists i :: 0 <= i < |required| && required[i].name == "run_manifest") ==>
          forall file :: FileOf(disk, run, "run_manifest", file) ==> disk.manifestFailures(run, file) == [])
    && ClosureClean(disk.closure(run))
  }

  predicate NoGateBlocked(gates: Json) {
    gates.JObj? ==> forall name :: name in gates.fields ==>
      !(gates.fields[name].JObj? && "blocked" in gates.fields[name].fields && gates.fields[name].fields["blocked"] == JBool(true))
  }

  predicate WaiverNeeded(waivers: Object) {
    "required_if_any_report_dirty" in waivers && Truthy(waivers["required_if_any_report_dirty"])
  }

  /** The run at this place is the first complete one, and sound; no gate is blocked; dirty reports are waived if they must be. */
  ghost predicate AcceptedAt(m: Manifest, dirs: seq<string>, disk: Disk, k: int) {
    && 0 <= k < |dirs| && CompleteRun(disk, dirs[k], m.required)
    && (forall j :: 0 <= j < k ==> !CompleteRun(disk, dirs[j], m.required))
    && RunSound(disk, dirs[k], m.required)
    && NoGateBlocked(m.gates)
    && m.waivers.JObj?
    && (WaiverNeeded(m.waivers.fields) && SomeReportDirty(disk, dirs[k], m.required) ==> m.waiverFiles)
  }

  lemma AnyFile(files: seq<string>)
    ensures files != [] <==> exists file :: file in files
  {
    if files != [] {
      assert files[0] in files;
    }
  }

  lemma CompleteIs(disk: Disk, dir: string, required: seq<ArtifactClass>)
    ensures Complete(disk, dir, required) <==> CompleteRun(disk, dir, required)
  {
    forall name
      ensures FilesOf(disk, dir, name) != [] <==> SomeFile(disk, dir, name)
    {
      AnyFile(FilesOf(disk, dir, name));
      forall file
        ensures file in FilesOf(disk, dir, name) <==> FileOf(disk, dir, name, file)
      {
        FilesAre(disk, dir, name, file);
      }
    }
    hide FilesOf, SomeFile;
    assert forall i :: 0 <= i < |required| ==> required[i] in required;
  }

  lemma ClassIs(disk: Disk, run: string, c: ArtifactClass)
    ensures ClassAccepted(disk, run, c) <==> ClassSound(disk, run, c)
    ensures ClassDirty(disk, run, c) <==> ReportClass(c) && exists file :: FileOf(disk, run, c.name, file) && disk.failHit(c.name, file)
  {
    forall file
      ensures file in FilesOf(disk, run, c.name) <==> FileOf(disk, run, c.name, file)
    {
      FilesAre(disk, run, c.name, file);
    }
    hide FilesOf, FileOf;
  }

  lemma RunIs(disk: Disk, run: string, required: seq<ArtifactClass>)
    ensures RunAccepted(disk, run, required) <==> RunSound(disk, run, required)
  {
    ClosureIs(disk.closure(run));
    forall file
      ensures file in FilesOf(disk, run, "run_manifest") <==> FileOf(disk, run, "run_manifest", file)
    {
      FilesAre(disk, run, "run_manifest", file);
    }
    forall c
      ensures ClassAccepted(disk, run, c) <==> ClassSound(disk, run, c)
    {
      ClassIs(disk, run, c);
    }
    assert forall i :: 0 <= i < |required| ==> required[i] in required;
    hide FilesOf, FileOf, ClassAccepted, ClassSound, C.Clean, ClosureClean;
    assert "run_manifest" in Names(required) <==> exists i :: 0 <= i < |required| && required[i].name == "run_manifest";
  }

  lemma DirtyIs(disk: Disk, run: string, required: seq<ArtifactClass>)
    ensures RunDirty(disk, run, required) <==> SomeReportDirty(disk, run, required)
  {
    forall c
      ensures ClassDirty(disk, run, c) <==> ReportClass(c) && exists file :: FileOf(disk, run, c.name, file) && disk.failHit(c.name, file)
    {
      ClassIs(disk, run, c);
    }
    hide FileOf, ClassDirty, ReportClass;
    assert forall i :: 0 <= i < |required| ==> required[i] in required;
  }

  lemma GatesAre(gates: Json)
    ensures (forall name :: !GateIsBlocked(gates, name)) <==> NoGateBlocked(gates)
  {
    if forall name :: !GateIsBlocked(gates, name) {
      assert gates.JObj? ==> forall name :: name in gates.fields ==> !GateIsBlocked(gates, name);
    }
  }

  /**
   What acceptance means: some directory is the first complete run, and it is sound; a complete run
   has a file of every class, each large enough and each report marked clean, a clean closure and no
   complaint about its run manifest.
   */
  lemma AcceptsIff(m: Manifest, dirs: seq<string>, disk: Disk)
    ensures Accepts(m, dirs, disk) <==> exists k :: AcceptedAt(m, dirs, disk, k)
  {
    forall dir
      ensures Complete(disk, dir, m.required) <==> CompleteRun(disk, dir, m.required)
      ensures RunAccepted(disk, dir, m.required) <==> RunSound(disk, dir, m.required)
      ensures RunDirty(disk, dir, m.required) <==> SomeReportDirty(disk, dir, m.required)
    {
      CompleteIs(disk, dir, m.required);
      RunIs(disk, dir, m.required);
      DirtyIs(disk, dir, m.required);
    }
    GatesAre(m.gates);
    hide Complete, CompleteRun, RunAccepted, RunSound, RunDirty, SomeReportDirty, FirstComplete, GateIsBlocked, NoGateBlocked;
    if Accepts(m, dirs, disk) {
      var k := FirstCompleteMeans(disk, dirs, m.required);
      assert AcceptedAt(m, dirs, disk, k);
    }
    if k :| AcceptedAt(m, dirs, disk, k) {
      FirstCompleteAt(disk, dirs, m.required, k);
    }
  }
}
