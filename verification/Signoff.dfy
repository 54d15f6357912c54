/** Signoff of a physical-design run: choosing the run and accepting it. */
module Signoff {
  import opened Json
  import opened Text

  import C = Closure
  import K = YamlKeys

  /** A required artifact class, with the fields of its specification that `main` reads. */
  datatype ArtifactClass = ArtifactClass(name: string, minBytes: int)

  /**
   The manifest's patterns and the files on disk: what each class lists, the run root that a run
   directory lies in, what a pattern matches inside a directory, and what each file holds.
   */
  datatype Disk = Disk(
    globs: string -> seq<string>,
    rootOf: string -> string,
    within: (string, string) -> seq<string>,
    size: string -> nat,
    failHit: (string, string) -> bool,
    passHit: (string, string) -> bool,
    manifestFailures: (string, string) -> seq<string>,
    closure: string -> C.RunFiles)

  type Artifacts = map<string, seq<string>>

  /** `missing_by_run`: a dictionary in insertion order. */
  type Table = seq<(string, seq<string>)>

  predicate IsReport(c: ArtifactClass) {
    EndsWith(c.name, "_report")
  }

  // ---------- the files of a run ----------

  function RStripSlash(s: string): (r: string)
    ensures r <= s
  {
    if s != "" && s[|s| - 1] == '/' then RStripSlash(s[..|s| - 1]) else s
  }

  /** What a pattern must begin with to be about the runs of a root. */
  function RunPrefix(root: string): string {
    RStripSlash(root) + "/*/"
  }

  /** What one pattern contributes: the rest of it is matched inside the run directory. */
  function Matched(disk: Disk, dir: string, pattern: string): seq<string> {
    var prefix := RunPrefix(disk.rootOf(dir));
    if StartsWith(pattern, prefix) then disk.within(dir, pattern[|prefix|..]) else []
  }

  function FilesFor(disk: Disk, dir: string, globs: seq<string>): seq<string> {
    if globs == [] then [] else FilesFor(disk, dir, globs[..|globs| - 1]) + Matched(disk, dir, globs[|globs| - 1])
  }

  /** The files of an artifact class in a run. */
  function FilesOf(disk: Disk, dir: string, name: string): seq<string> {
    FilesFor(disk, dir, disk.globs(name))
  }

  /** `files_for_run` */
  method FilesForRun(disk: Disk, dir: string, globs: seq<string>) returns (files: seq<string>)
    ensures files == FilesFor(disk, dir, globs)
  {
    files := [];
    var prefix := RunPrefix(disk.rootOf(dir));
    for i := 0 to |globs|
      invariant files == FilesFor(disk, dir, globs[..i])
    {
      assert globs[..i + 1][..i] == globs[..i];
      if StartsWith(globs[i], prefix) {
        files := files + disk.within(dir, globs[i][|prefix|..]);
      }
    }
    assert globs[..|globs|] == globs;
  }

  /**
   A file of a run was matched inside that run's directory, by a pattern scoped to the root the
   directory lies in; patterns of other roots contribute nothing.
   */
  lemma {:induction false} FilesAreOfRun(disk: Disk, dir: string, globs: seq<string>, file: string)
    ensures file in FilesFor(disk, dir, globs) <==>
            exists g :: g in globs && StartsWith(g, RunPrefix(disk.rootOf(dir)))
                        && file in disk.within(dir, g[|RunPrefix(disk.rootOf(dir))|..])
  {
    if globs != [] {
      var n := |globs| - 1;
      FilesAreOfRun(disk, dir, globs[..n], file);
      assert globs == globs[..n] + [globs[n]];
      if file in Matched(disk, dir, globs[n]) {
        assert globs[n] in globs;
      }
    }
  }

  // ---------- choosing a run ----------

  /** The classes without files in a run, in order. */
  function Missing(disk: Disk, dir: string, required: seq<ArtifactClass>): (names: seq<string>)
    ensures names == [] <==> forall c :: c in required ==> FilesOf(disk, dir, c.name) != []
  {
    if required == [] then []
    else
      var n := |required| - 1;
      assert required == required[..n] + [required[n]];
      Missing(disk, dir, required[..n]) + if FilesOf(disk, dir, required[n].name) == [] then [required[n].name] else []
  }

  function Names(required: seq<ArtifactClass>): set<string> {
    set c | c in required :: c.name
  }

  /** The classes that have files in a run, with those files. */
  function ArtifactsOf(disk: Disk, dir: string, required: seq<ArtifactClass>): Artifacts {
    map name | name in Names(required) && FilesOf(disk, dir, name) != [] :: FilesOf(disk, dir, name)
  }

  lemma SurveyStep(disk: Disk, dir: string, init: seq<ArtifactClass>, c: ArtifactClass)
    ensures var files := FilesOf(disk, dir, c.name);
            && ArtifactsOf(disk, dir, init + [c]) ==
               (if files != [] then ArtifactsOf(disk, dir, init)[c.name := files] else ArtifactsOf(disk, dir, init))
            && Missing(disk, dir, init + [c]) == Missing(disk, dir, init) + if files == [] then [c.name] else []
  {
    hide FilesFor;
    assert (init + [c])[..|init|] == init;
    assert Names(init + [c]) == Names(init) + {c.name};
  }

  lemma NoneRequired(disk: Disk, dir: string)
    ensures ArtifactsOf(disk, dir, []) == map[] && Missing(disk, dir, []) == []
  {
  }

  /** The inner loop of `choose_complete_run`. */
  method Survey(disk: Disk, dir: string, required: seq<ArtifactClass>) returns (artifacts: Artifacts, missing: seq<string>)
    ensures artifacts == ArtifactsOf(disk, dir, required)
    ensures missing == Missing(disk, dir, required)
  {
    hide ArtifactsOf, Missing, FilesFor;
    NoneRequired(disk, dir);
    artifacts, missing := map[], [];
    for j := 0 to |required|
      invariant artifacts == ArtifactsOf(disk, dir, required[..j])
      invariant missing == Missing(disk, dir, required[..j])
    {
      var name := required[j].name;
      SurveyStep(disk, dir, required[..j], required[j]);
      assert required[..j + 1] == required[..j] + [required[j]];
      var files := FilesForRun(disk, dir, disk.globs(name));
      if files != [] {
        artifacts := artifacts[name := files];
      } else {
        missing := missing + [name];
      }
    }
    assert required[..|required|] == required;
  }

  function Put(t: Table, dir: string, missing: seq<string>): Table {
    if t == [] then [(dir, missing)]
    else if t[0].0 == dir then [(dir, missing)] + t[1..]
    else [t[0]] + Put(t[1..], dir, missing)
  }

  predicate InTable(t: Table, dir: string) {
    exists i :: 0 <= i < |t| && t[i].0 == dir
  }

  function Look(t: Table, dir: string): seq<string>
    requires InTable(t, dir)
  {
    if t[0].0 == dir then t[0].1
    else
      assert forall i :: 1 <= i < |t| ==> t[i] == t[1..][i - 1];
      Look(t[1..], dir)
  }

  /** The dictionary after these directories. */
  function Tabled(disk: Disk, dirs: seq<string>, required: seq<ArtifactClass>): Table {
    if dirs == [] then []
    else
      var last := dirs[|dirs| - 1];
      Put(Tabled(disk, dirs[..|dirs| - 1], required), last, Missing(disk, last, required))
  }

  /** The first directory with the fewest missing classes. */
  function Closest(disk: Disk, dirs: seq<string>, required: seq<ArtifactClass>): (best: string)
    requires dirs != []
    ensures best in dirs
    ensures forall d :: d in dirs ==> |Missing(disk, best, required)| <= |Missing(disk, d, required)|
  {
    var n := |dirs| - 1;
    assert dirs == dirs[..n] + [dirs[n]];
    if n == 0 then dirs[0]
    else
      var best := Closest(disk, dirs[..n], required);
      if |Missing(disk, dirs[n], required)| < |Missing(disk, best, required)| then dirs[n] else best
  }

  /** `min(missing_by_run, key=...)`: the first key with the shortest list. */
  function MinKey(t: Table): (k: nat)
    requires t != []
    ensures k < |t|
    ensures forall j :: 0 <= j < |t| ==> |t[k].1| <= |t[j].1|
    ensures forall j :: 0 <= j < k ==> |t[k].1| < |t[j].1|
  {
    if |t| == 1 then 0
    else
      var k := MinKey(t[..|t| - 1]);
      if |t[|t| - 1].1| < |t[k].1| then |t| - 1 else k
  }

  /** Entries are about the directories seen, each once, with what is missing there. */
  ghost predicate Faithful(disk: Disk, dirs: seq<string>, required: seq<ArtifactClass>, t: Table) {
    && (forall i :: 0 <= i < |t| ==> t[i].1 == Missing(disk, t[i].0, required))
    && (forall d :: InTable(t, d) <==> d in dirs)
    && (forall i, j :: 0 <= i < j < |t| ==> t[i].0 != t[j].0)
  }

  lemma {:induction false} PutNew(t: Table, dir: string, missing: seq<string>)
    requires !InTable(t, dir)
    ensures Put(t, dir, missing) == t + [(dir, missing)]
  {
    if t != [] {
      assert t[0].0 != dir;
      assert forall i :: 1 <= i < |t| ==> t[i] == t[1..][i - 1];
      PutNew(t[1..], dir, missing);
      assert t + [(dir, missing)] == [t[0]] + (t[1..] + [(dir, missing)]);
    }
  }

  lemma {:induction false} PutSame(t: Table, dir: string, missing: seq<string>)
    requires InTable(t, dir) && forall i :: 0 <= i < |t| && t[i].0 == dir ==> t[i].1 == missing
    ensures Put(t, dir, missing) == t && Look(t, dir) == missing
  {
    assert forall i :: 1 <= i < |t| ==> t[i] == t[1..][i - 1];
    if t[0].0 != dir {
      PutSame(t[1..], dir, missing);
    }
  }

  /** A directory met again changes nothing; a new one is appended. */
  lemma {:induction false} TabledSnoc(disk: Disk, dirs: seq<string>, required: seq<ArtifactClass>)
    ensures Faithful(disk, dirs, required, Tabled(disk, dirs, required))
    ensures dirs != [] ==>
              var last, init := dirs[|dirs| - 1], dirs[..|dirs| - 1];
              Tabled(disk, dirs, required) ==
              if last in init then Tabled(disk, init, required)
              else Tabled(disk, init, required) + [(last, Missing(disk, last, required))]
  {
    hide Missing, Put, Faithful;
    if dirs == [] {
      NothingTabled(disk, required);
    } else {
      var last, init := dirs[|dirs| - 1], dirs[..|dirs| - 1];
      TabledSnoc(disk, init, required);
      Extended(disk, init, last, required, Tabled(disk, init, required));
      assert dirs == init + [last];
    }
  }

  lemma NothingTabled(disk: Disk, required: seq<ArtifactClass>)
    ensures Faithful(disk, [], required, [])
  {
  }

  lemma Extended(disk: Disk, init: seq<string>, last: string, required: seq<ArtifactClass>, t: Table)
    requires Faithful(disk, init, required, t)
    ensures var m := Missing(disk, last, required);
            && Put(t, last, m) == (if last in init then t else t + [(last, m)])
            && Faithful(disk, init + [last], required, Put(t, last, m))
  {
    hide Missing, Put;
    if last in init {
      PutSame(t, last, Missing(disk, last, required));
      assert forall d :: d in init + [last] <==> d in init;
    } else {
      PutNew(t, last, Missing(disk, last, required));
      Appended(disk, init, last, required, t);
    }
  }

  lemma Appended(disk: Disk, init: seq<string>, last: string, required: seq<ArtifactClass>, t: Table)
    requires Faithful(disk, init, required, t) && last !in init
    ensures Faithful(disk, init + [last], required, t + [(last, Missing(disk, last, required))])
  {
    hide Missing;
    var grown := t + [(last, Missing(disk, last, required))];
    assert grown[|t|].0 == last;
    forall d
      ensures InTable(grown, d) <==> InTable(t, d) || d == last
    {
      if InTable(t, d) {
        var i :| 0 <= i < |t| && t[i].0 == d;
        assert grown[i].0 == d;
      }
    }
    forall i | 0 <= i < |t|
      ensures t[i].0 != last
    {
      assert InTable(t, t[i].0);
    }
  }

  lemma LookIsMissing(disk: Disk, dirs: seq<string>, required: seq<ArtifactClass>, d: string)
    requires d in dirs
    ensures InTable(Tabled(disk, dirs, required), d)
    ensures Look(Tabled(disk, dirs, required), d) == Missing(disk, d, required)
  {
    TabledSnoc(disk, dirs, required);
    PutSame(Tabled(disk, dirs, required), d, Missing(disk, d, required));
  }

  /**
   The run that the loop tracks as its best is the one that `main` finds with `min` over the
   dictionary, although directories may repeat.
   */
  lemma {:induction false} ClosestAgrees(disk: Disk, dirs: seq<string>, required: seq<ArtifactClass>)
    requires dirs != []
    ensures Tabled(disk, dirs, required) != []
    ensures var t := Tabled(disk, dirs, required); t[MinKey(t)].0 == Closest(disk, dirs, required)
  {
    hide *;
    var init, last := dirs[..|dirs| - 1], dirs[|dirs| - 1];
    assert dirs == init + [last];
    if init == [] {
      assert dirs == [last];
      ClosestOfOne(disk, last, required);
    } else {
      ClosestAgrees(disk, init, required);
      MinKeySnoc(disk, init, last, required);
    }
  }

  lemma ClosestOfOne(disk: Disk, dir: string, required: seq<ArtifactClass>)
    ensures var t := Tabled(disk, [dir], required); t != [] && t[MinKey(t)].0 == Closest(disk, [dir], required)
  {
    hide Missing;
    assert [dir][..0] == [];
    assert Tabled(disk, [dir], required) == Put([], dir, Missing(disk, dir, required));
  }

  lemma MinKeySnoc(disk: Disk, init: seq<string>, last: string, required: seq<ArtifactClass>)
    requires init != [] && Tabled(disk, init, required) != []
    requires var t := Tabled(disk, init, required); t[MinKey(t)].0 == Closest(disk, init, required)
    ensures var t := Tabled(disk, init + [last], required); t != [] && t[MinKey(t)].0 == Closest(disk, init + [last], required)
  {
    hide Missing, Tabled, MinKey, Closest;
    TabledSnoc(disk, init, required);
    TabledSnoc(disk, init + [last], required);
    assert (init + [last])[..|init|] == init;
    ClosestSnoc(disk, init, last, required);
    var t := Tabled(disk, init, required);
    if last !in init {
      MinKeyAppend(t, (last, Missing(disk, last, required)));
    }
  }

  lemma MinKeyAppend(t: Table, e: (string, seq<string>))
    requires t != []
    ensures MinKey(t + [e]) == if |e.1| < |t[MinKey(t)].1| then |t| else MinKey(t)
  {
    assert (t + [e])[..|t|] == t;
  }

  lemma ClosestSnoc(disk: Disk, init: seq<string>, last: string, required: seq<ArtifactClass>)
    requires init != []
    ensures Closest(disk, init + [last], required) ==
            if |Missing(disk, last, required)| < |Missing(disk, Closest(disk, init, required), required)| then last
            else Closest(disk, init, required)
  {
    assert (init + [last])[..|init|] == init;
  }

  predicate Complete(disk: Disk, dir: string, required: seq<ArtifactClass>) {
    forall c :: c in required ==> FilesOf(disk, dir, c.name) != []
  }

  function FirstComplete(disk: Disk, dirs: seq<string>, required: seq<ArtifactClass>): Option<string> {
    if dirs == [] then None
    else if Complete(disk, dirs[0], required) then Some(dirs[0])
    else FirstComplete(disk, dirs[1..], required)
  }

  /** The first complete directory, or none where no directory is complete. */
  lemma {:induction false} FirstCompleteMeans(disk: Disk, dirs: seq<string>, required: seq<ArtifactClass>) returns (k: nat)
    ensures var r := FirstComplete(disk, dirs, required);
            && (r.None? ==> forall j :: 0 <= j < |dirs| ==> !Complete(disk, dirs[j], required))
            && (r.Some? ==> k < |dirs| && dirs[k] == r.value && Complete(disk, dirs[k], required)
                            && forall j :: 0 <= j < k ==> !Complete(disk, dirs[j], required))
  {
    hide Complete;
    k := 0;
    if dirs != [] && !Complete(disk, dirs[0], required) {
      var i := FirstCompleteMeans(disk, dirs[1..], required);
      assert forall j :: 1 <= j < |dirs| ==> dirs[j] == dirs[1..][j - 1];
      k := i + 1;
    }
  }

  lemma {:induction false} FirstCompleteAt(disk: Disk, dirs: seq<string>, required: seq<ArtifactClass>, k: nat)
    requires k < |dirs| && Complete(disk, dirs[k], required)
    requires forall j :: 0 <= j < k ==> !Complete(disk, dirs[j], required)
    ensures FirstComplete(disk, dirs, required) == Some(dirs[k])
  {
    hide Complete, FilesOf;
    if k > 0 {
      assert forall j :: 1 <= j < |dirs| ==> dirs[j] == dirs[1..][j - 1];
      FirstCompleteAt(disk, dirs[1..], required, k - 1);
    }
  }

  /**
   `choose_complete_run`: the first complete run with all its artifacts; without one, the artifacts
   of the closest run. Artifacts of different runs are never mixed.
   */
  method ChooseCompleteRun(disk: Disk, dirs: seq<string>, required: seq<ArtifactClass>)
    returns (run: Option<string>, artifacts: Artifacts, missing: Table)
    ensures run == FirstComplete(disk, dirs, required)
    ensures run.Some? ==> artifacts == ArtifactsOf(disk, run.value, required) && artifacts.Keys == Names(required) && missing != []
    ensures run.None? ==> missing == Tabled(disk, dirs, required)
    ensures run.None? ==> artifacts == if dirs == [] then map[] else ArtifactsOf(disk, Closest(disk, dirs, required), required)
  {
    hide Missing, ArtifactsOf, Tabled, Look, Put, FirstComplete, Closest, InTable, Complete, Names;
    var best := "";
    artifacts, missing := map[], [];
    TabledNothing(disk, required);
    for i := 0 to |dirs|
      invariant missing == Tabled(disk, dirs[..i], required)
      invariant i == 0 ==> artifacts == map[]
      invariant i > 0 ==> best == Closest(disk, dirs[..i], required) && artifacts == ArtifactsOf(disk, best, required)
      invariant forall j :: 0 <= j < i ==> !Complete(disk, dirs[j], required)
    {
      var found, lacking := Survey(disk, dirs[i], required);
      TabledStep(disk, dirs, required, i);
      missing := Put(missing, dirs[i], lacking);
      ClosestStep(disk, dirs, required, i);
      if i == 0 || |lacking| < |Look(missing, best)| {
        best, artifacts := dirs[i], found;
      }
      if lacking == [] {
        MissingIffIncomplete(disk, dirs[i], required);
        FirstCompleteAt(disk, dirs, required, i);
        CompleteHasAll(disk, dirs[i], required);
        return Some(dirs[i]), found, missing;
      }
      MissingIffIncomplete(disk, dirs[i], required);
    }
    assert dirs[..|dirs|] == dirs;
    NoneComplete(disk, dirs, required);
    run := None;
  }

  lemma MissingIffIncomplete(disk: Disk, dir: string, required: seq<ArtifactClass>)
    ensures Missing(disk, dir, required) == [] <==> Complete(disk, dir, required)
  {
  }

  lemma NoneComplete(disk: Disk, dirs: seq<string>, required: seq<ArtifactClass>)
    requires forall j :: 0 <= j < |dirs| ==> !Complete(disk, dirs[j], required)
    ensures FirstComplete(disk, dirs, required) == None
  {
    hide Complete;
    var k := FirstCompleteMeans(disk, dirs, required);
  }

  lemma TabledNothing(disk: Disk, required: seq<ArtifactClass>)
    ensures Tabled(disk, [], required) == []
  {
  }

  lemma TabledStep(disk: Disk, dirs: seq<string>, required: seq<ArtifactClass>, i: nat)
    requires i < |dirs|
    ensures var now := Tabled(disk, dirs[..i + 1], required);
            now == Put(Tabled(disk, dirs[..i], required), dirs[i], Missing(disk, dirs[i], required)) && now != []
  {
    assert dirs[..i + 1][..i] == dirs[..i];
  }

  /** The comparison of the loop, with the length looked up in the dictionary. */
  lemma ClosestStep(disk: Disk, dirs: seq<string>, required: seq<ArtifactClass>, i: nat)
    requires i < |dirs|
    ensures i == 0 ==> Closest(disk, dirs[..i + 1], required) == dirs[i]
    ensures i > 0 ==>
              var best, now := Closest(disk, dirs[..i], required), Tabled(disk, dirs[..i + 1], required);
              && InTable(now, best)
              && Closest(disk, dirs[..i + 1], required) ==
                 if |Missing(disk, dirs[i], required)| < |Look(now, best)| then dirs[i] else best
  {
    hide Missing, Look;
    assert dirs[..i + 1] == dirs[..i] + [dirs[i]];
    if i > 0 {
      LookIsMissing(disk, dirs[..i + 1], required, Closest(disk, dirs[..i], required));
      ClosestSnoc(disk, dirs[..i], dirs[i], required);
    }
  }

  lemma CompleteHasAll(disk: Disk, dir: string, required: seq<ArtifactClass>)
    requires Complete(disk, dir, required)
    ensures ArtifactsOf(disk, dir, required).Keys == Names(required)
  {
  }

  // ---------- accepting a run ----------

  datatype Failure =
    | NoRuns | NoCompleteRun | ClosestMisses(dir: string, missing: seq<string>)
    | TooSmall(class_: string, file: string) | NotClean(class_: string, file: string)
    | RunManifest(text: string) | NotClosed(failure: C.Failure)
    | GateBlocked(gate: string)
    | NoWaiver | DirtyReport(file: string) | LacksMarker(file: string)

  /** The parts of a manifest that `main` reads; `problems` is the verdict on its shape. */
  datatype Manifest = Manifest(
    problems: seq<string>, required: seq<ArtifactClass>, waivers: Json, waiverFiles: bool, gates: Json)

  datatype Ending = Raised | Exit(code: int)

  predicate FileAccepted(disk: Disk, c: ArtifactClass, file: string) {
    disk.size(file) >= c.minBytes && (IsReport(c) ==> disk.passHit(c.name, file))
  }

  predicate ClassAccepted(disk: Disk, run: string, c: ArtifactClass) {
    forall f :: f in FilesOf(disk, run, c.name) ==> FileAccepted(disk, c, f)
  }

  predicate ClassDirty(disk: Disk, run: string, c: ArtifactClass) {
    exists f :: f in FilesOf(disk, run, c.name) && IsDirty(disk, run, c, f)
  }

  /** The reports of a class that match its failure pattern. */
  predicate IsDirty(disk: Disk, run: string, c: ArtifactClass, file: string) {
    IsReport(c) && file in FilesOf(disk, run, c.name) && disk.failHit(c.name, file)
  }

  predicate RunDirty(disk: Disk, run: string, required: seq<ArtifactClass>) {
    exists c :: c in required && ClassDirty(disk, run, c)
  }

  /** `check_reports` */
  method CheckReports(disk: Disk, name: string, files: seq<string>) returns (dirty: seq<string>, lacking: seq<string>)
    ensures forall f :: f in dirty <==> f in files && disk.failHit(name, f)
    ensures forall f :: f in lacking <==> f in files && !disk.passHit(name, f)
  {
    dirty, lacking := [], [];
    for i := 0 to |files|
      invariant forall f :: f in dirty <==> f in files[..i] && disk.failHit(name, f)
      invariant forall f :: f in lacking <==> f in files[..i] && !disk.passHit(name, f)
    {
      assert files[..i + 1] == files[..i] + [files[i]];
      if disk.failHit(name, files[i]) {
        dirty := dirty + [files[i]];
      }
      if !disk.passHit(name, files[i]) {
        lacking := lacking + [files[i]];
      }
    }
    assert files[..|files|] == files;
  }

  method SmallFiles(disk: Disk, c: ArtifactClass, files: seq<string>) returns (failures: seq<Failure>)
    ensures failures == [] <==> forall f :: f in files ==> disk.size(f) >= c.minBytes
    ensures forall f :: f in failures ==> f.TooSmall?
  {
    failures := [];
    for i := 0 to |files|
      invariant failures == [] <==> forall f :: f in files[..i] ==> disk.size(f) >= c.minBytes
      invariant forall f :: f in failures ==> f.TooSmall?
    {
      assert files[..i + 1] == files[..i] + [files[i]];
      if disk.size(files[i]) < c.minBytes {
        failures := failures + [TooSmall(c.name, files[i])];
      }
    }
    assert files[..|files|] == files;
  }

  /** The checks of one class of artifacts. */
  method CheckClass(disk: Disk, run: string, c: ArtifactClass)
    returns (failures: seq<Failure>, dirty: seq<string>, lacking: seq<string>)
    ensures failures == [] <==> ClassAccepted(disk, run, c)
    ensures forall f :: f in dirty <==> IsDirty(disk, run, c, f)
    ensures dirty != [] <==> ClassDirty(disk, run, c)
    ensures forall f :: f in failures ==> f.TooSmall? || f.NotClean?
  {
    var files := FilesOf(disk, run, c.name);
    failures := SmallFiles(disk, c, files);
    dirty, lacking := [], [];
    if IsReport(c) {
      dirty, lacking := CheckReports(disk, c.name, files);
      var marked := WrapLacking(c.name, lacking);
      failures := failures + marked;
      assert lacking != [] ==> lacking[0] in lacking;
      assert dirty != [] ==> dirty[0] in dirty;
    }
  }

  method WrapLacking(name: string, lacking: seq<string>) returns (failures: seq<Failure>)
    ensures failures == [] <==> lacking == []
    ensures forall f :: f in failures ==> f.NotClean?
  {
    failures := [];
    for i := 0 to |lacking|
      invariant |failures| == i
      invariant forall f :: f in failures ==> f.NotClean?
    {
      failures := failures + [NotClean(name, lacking[i])];
    }
  }

  predicate RunManifestsAccepted(disk: Disk, run: string) {
    forall f :: f in FilesOf(disk, run, "run_manifest") ==> disk.manifestFailures(run, f) == []
  }

  /** Everything about a complete run but its dirty reports. */
  predicate RunAccepted(disk: Disk, run: string, required: seq<ArtifactClass>) {
    && (forall c :: c in required ==> ClassAccepted(disk, run, c))
    && ("run_manifest" in Names(required) ==> RunManifestsAccepted(disk, run))
    && C.Clean(disk.closure(run))
  }

  method CheckRunManifests(disk: Disk, run: string, files: seq<string>) returns (failures: seq<Failure>)
    ensures failures == [] <==> forall f :: f in files ==> disk.manifestFailures(run, f) == []
    ensures forall f :: f in failures ==> f.RunManifest?
  {
    failures := [];
    for i := 0 to |files|
      invariant failures == [] <==> forall j :: 0 <= j < i ==> disk.manifestFailures(run, files[j]) == []
      invariant forall f :: f in failures ==> f.RunManifest?
    {
      var texts := disk.manifestFailures(run, files[i]);
      for t := 0 to |texts|
        invariant failures == [] <==> t == 0 && forall j :: 0 <= j < i ==> disk.manifestFailures(run, files[j]) == []
        invariant forall f :: f in failures ==> f.RunManifest?
      {
        failures := failures + [RunManifest(texts[t])];
      }
    }
    assert forall f :: f in files ==> exists j :: 0 <= j < |files| && files[j] == f;
  }

  method WrapClosure(found: seq<C.Failure>) returns (failures: seq<Failure>)
    ensures failures == [] <==> found == []
    ensures forall f :: f in failures ==> f.NotClosed?
  {
    failures := [];
    for i := 0 to |found|
      invariant |failures| == i
      invariant forall f :: f in failures ==> f.NotClosed?
    {
      failures := failures + [NotClosed(found[i])];
    }
  }

  /** The loop over the artifact classes of a complete run. */
  method CheckClasses(disk: Disk, run: string, required: seq<ArtifactClass>)
    returns (failures: seq<Failure>, dirty: seq<string>, lacking: seq<string>)
    ensures failures == [] <==> forall c :: c in required ==> ClassAccepted(disk, run, c)
    ensures dirty != [] <==> RunDirty(disk, run, required)
    ensures forall f :: f in failures ==> f.TooSmall? || f.NotClean?
  {
    hide ClassAccepted, ClassDirty;
    failures, dirty, lacking := [], [], [];
    for i := 0 to |required|
      invariant failures == [] <==> forall c :: c in required[..i] ==> ClassAccepted(disk, run, c)
      invariant dirty != [] <==> RunDirty(disk, run, required[..i])
      invariant forall f :: f in failures ==> f.TooSmall? || f.NotClean?
    {
      assert required[..i + 1] == required[..i] + [required[i]];
      var found, hits, unmarked := CheckClass(disk, run, required[i]);
      assert required[i] in required[..i + 1];
      failures, dirty, lacking := failures + found, dirty + hits, lacking + unmarked;
    }
    assert required[..|required|] == required;
  }

  /** The branch of `main` for a complete run. */
  method CheckRun(disk: Disk, run: string, required: seq<ArtifactClass>, artifacts: Artifacts)
    returns (failures: Option<seq<Failure>>, dirty: seq<string>, lacking: seq<string>)
    requires artifacts == ArtifactsOf(disk, run, required) && artifacts.Keys == Names(required)
    ensures failures.None? <==> C.Raises(disk.closure(run))
    ensures failures.Some? ==> (failures.value == [] <==> RunAccepted(disk, run, required))
    ensures failures.Some? ==> forall f :: f in failures.value ==> f.TooSmall? || f.NotClean? || f.RunManifest? || f.NotClosed?
    ensures dirty != [] <==> RunDirty(disk, run, required)
  {
    hide ClassAccepted, ClassDirty, RunDirty, C.Raises, C.Clean, Names;
    var found, hits, unmarked := CheckClasses(disk, run, required);
    dirty, lacking := hits, unmarked;
    var manifests := CheckRunManifests(disk, run, if "run_manifest" in artifacts then artifacts["run_manifest"] else []);
    var closure := C.ValidateReleaseClosure(disk.closure(run));
    if closure.None? {
      return None, dirty, lacking;
    }
    var closed := WrapClosure(closure.value);
    failures := Some(found + manifests + closed);
  }

  // ---------- gates ----------

  /** `isinstance(gate, dict) and gate.get("blocked") is True` */
  predicate Blocked(gate: Json) {
    gate.JObj? && Get(gate.fields, "blocked") == JBool(true)
  }

  predicate GateIsBlocked(gates: Json, name: string) {
    gates.JObj? && name in gates.fields && Blocked(gates.fields[name])
  }

  method BlockedGates(gates: Json) returns (failures: seq<Failure>)
    ensures forall f :: f in failures <==> f.GateBlocked? && GateIsBlocked(gates, f.gate)
  {
    failures := [];
    if gates.JObj? {
      var names := gates.fields.Keys;
      while names != {}
        invariant names <= gates.fields.Keys
        invariant forall f :: f in failures <==> f.GateBlocked? && f.gate !in names && GateIsBlocked(gates, f.gate)
        decreases |names|
      {
        var name :| name in names;
        names := names - {name};
        if Blocked(gates.fields[name]) {
          failures := failures + [GateBlocked(name)];
        }
      }
    }
  }

  // ---------- the verdict ----------

  predicate WaiverRequired(waivers: Object) {
    Truthy(GetOr(waivers, "required_if_any_report_dirty", JBool(false)))
  }

  function Repeats(document: K.Document): seq<K.Duplicate> {
    if document.Root? then K.Duplicates(document.node, "") else []
  }

  /** The manifest passes and artifacts are asked for. */
  predicate Examined(manifestOnly: bool, document: K.Document, manifest: Option<Manifest>) {
    Repeats(document) == [] && manifest.Some? && manifest.value.problems == [] && !manifestOnly
  }

  predicate Breaks(m: Manifest, dirs: seq<string>, disk: Disk) {
    var run := FirstComplete(disk, dirs, m.required);
    !m.waivers.JObj? || (run.Some? && C.Raises(disk.closure(run.value)))
  }

  /** What an accepted set of artifacts looks like. */
  ghost predicate Accepts(m: Manifest, dirs: seq<string>, disk: Disk) {
    var run := FirstComplete(disk, dirs, m.required);
    && run.Some? && m.waivers.JObj?
    && RunAccepted(disk, run.value, m.required)
    && (forall name :: !GateIsBlocked(m.gates, name))
    && (RunDirty(disk, run.value, m.required) && WaiverRequired(m.waivers.fields) ==> m.waiverFiles)
  }

  /** What is said of the runs: there is none, none is complete, or the first complete one is checked. */
  method CheckRuns(m: Manifest, dirs: seq<string>, disk: Disk)
    returns (failures: Option<seq<Failure>>, dirty: seq<string>, lacking: seq<string>)
    ensures var run := FirstComplete(disk, dirs, m.required);
            && (failures.None? <==> run.Some? && C.Raises(disk.closure(run.value)))
            && (failures.Some? ==> (failures.value == [] <==> run.Some? && RunAccepted(disk, run.value, m.required)))
            && (failures.Some? ==> (dirty != [] <==> run.Some? && RunDirty(disk, run.value, m.required)))
            && (failures.Some? ==> forall f :: f in failures.value ==> !f.GateBlocked?)
            && (dirs == [] ==> failures == Some([NoRuns]))
            && (dirs != [] && run.None? ==>
                  var best := Closest(disk, dirs, m.required);
                  failures == Some([NoCompleteRun, ClosestMisses(best, Missing(disk, best, m.required))]))
  {
    hide FirstComplete, ArtifactsOf, RunAccepted, RunDirty, Missing, C.Raises, Names, Tabled, Closest, MinKey;
    var run, artifacts, missing := ChooseCompleteRun(disk, dirs, m.required);
    dirty, lacking := [], [];
    NoDirs(disk, m.required);
    if dirs != [] {
      ClosestAgrees(disk, dirs, m.required);
      TabledSnoc(disk, dirs, m.required);
    }
    if missing == [] {
      failures := Some([NoRuns]);
    } else if run.None? {
      var best := missing[MinKey(missing)];
      failures := Some([NoCompleteRun, ClosestMisses(best.0, best.1)]);
    } else {
      failures, dirty, lacking := CheckRun(disk, run.value, m.required, artifacts);
    }
  }

  lemma NoDirs(disk: Disk, required: seq<ArtifactClass>)
    ensures Tabled(disk, [], required) == [] && FirstComplete(disk, [], required) == None
  {
  }

  /** The complaints about dirty reports without a waiver. */
  method DirtyFailures(dirty: seq<string>, lacking: seq<string>) returns (failures: seq<Failure>)
    ensures failures != [] && failures[0] == NoWaiver
    ensures forall f :: f in failures <==>
              f == NoWaiver || (f.DirtyReport? && f.file in dirty) || (f.LacksMarker? && f.file in lacking)
  {
    failures := [NoWaiver];
    for i := 0 to |dirty|
      invariant failures != [] && failures[0] == NoWaiver
      invariant forall f :: f in failures <==> f == NoWaiver || (f.DirtyReport? && f.file in dirty[..i])
    {
      assert dirty[..i + 1] == dirty[..i] + [dirty[i]];
      failures := failures + [DirtyReport(dirty[i])];
    }
    assert dirty[..|dirty|] == dirty;
    for i := 0 to |lacking|
      invariant failures != [] && failures[0] == NoWaiver
      invariant forall f :: f in failures <==>
                  f == NoWaiver || (f.DirtyReport? && f.file in dirty) || (f.LacksMarker? && f.file in lacking[..i])
    {
      assert lacking[..i + 1] == lacking[..i] + [lacking[i]];
      failures := failures + [LacksMarker(lacking[i])];
    }
    assert lacking[..|lacking|] == lacking;
  }

  /** The part of `main` behind the manifest check. */
  method CheckArtifacts(m: Manifest, dirs: seq<string>, disk: Disk) returns (failures: Option<seq<Failure>>)
    ensures failures.None? <==> Breaks(m, dirs, disk)
    ensures failures.Some? ==> (failures.value == [] <==> Accepts(m, dirs, disk))
    ensures failures.Some? ==> forall name :: GateBlocked(name) in failures.value <==> GateIsBlocked(m.gates, name)
  {
    hide FirstComplete, RunAccepted, RunDirty, C.Raises, Closest, Missing, GateIsBlocked, WaiverRequired;
    var found, dirty, lacking := CheckRuns(m, dirs, disk);
    if found.None? || !m.waivers.JObj? {
      return None;
    }
    var all := found.value;
    var gates := BlockedGates(m.gates);
    assert gates != [] ==> gates[0] in gates;
    forall name
      ensures GateBlocked(name) in gates <==> GateIsBlocked(m.gates, name)
    {
      assert GateBlocked(name).gate == name;
    }
    all := all + gates;
    if dirty != [] && WaiverRequired(m.waivers.fields) && !m.waiverFiles {
      var more := DirtyFailures(dirty, lacking);
      all := all + more;
    }
    failures := Some(all);
  }

  /** `main`: duplicate keys first, then the shape of the manifest, then the artifacts unless only the manifest is asked about. */
  method Verdict(manifestOnly: bool, document: K.Document, manifest: Option<Manifest>, dirs: seq<string>, disk: Disk)
    returns (ending: Ending)
    ensures ending == Raised <==> Examined(manifestOnly, document, manifest) && Breaks(manifest.value, dirs, disk)
    ensures ending == Exit(0) <==>
            && Repeats(document) == [] && manifest.Some? && manifest.value.problems == []
            && (manifestOnly || (!Breaks(manifest.value, dirs, disk) && Accepts(manifest.value, dirs, disk)))
    ensures ending != Raised && ending != Exit(0) ==> ending == Exit(1)
  {
    hide Breaks, Accepts;
    var duplicates := K.ValidateNoDuplicateKeys(document);
    if duplicates != [] || manifest.None? {
      return Exit(1);
    }
    var m := manifest.value;
    if manifestOnly || m.problems != [] {
      return Exit(if m.problems != [] then 1 else 0);
    }
    var failures := CheckArtifacts(m, dirs, disk);
    ending := if failures.None? then Raised else if failures.value != [] then Exit(1) else Exit(0);
  }

  /**
   An accepted signoff never mixes runs: one directory, the first that is complete, supplies every
   required artifact, each large enough; its closure is clean and no release gate is blocked.
   */
  lemma AcceptedIsOneRun(m: Manifest, dirs: seq<string>, disk: Disk) returns (k: nat)
    requires Accepts(m, dirs, disk)
    ensures k < |dirs| && Complete(disk, dirs[k], m.required) && forall j :: 0 <= j < k ==> !Complete(disk, dirs[j], m.required)
    ensures forall c, f :: c in m.required && f in FilesOf(disk, dirs[k], c.name) ==> FileAccepted(disk, c, f)
    ensures forall c :: c in m.required ==> FilesOf(disk, dirs[k], c.name) != []
    ensures C.Clean(disk.closure(dirs[k])) && forall name :: !GateIsBlocked(m.gates, name)
  {
    var run := FirstComplete(disk, dirs, m.required).value;
    k := FirstCompleteMeans(disk, dirs, m.required);
    assert forall c :: c in m.required ==> ClassAccepted(disk, run, c);
  }

  /** A dirty report does not stop an accepted run as long as any waiver file exists, or none is required. */
  lemma DirtyButWaived(m: Manifest, dirs: seq<string>, disk: Disk)
    requires Accepts(m.(waiverFiles := true), dirs, disk)
    ensures Accepts(m, dirs, disk) <==>
            m.waiverFiles || !WaiverRequired(m.waivers.fields)
            || !RunDirty(disk, FirstComplete(disk, dirs, m.required).value, m.required)
  {
  }
}
