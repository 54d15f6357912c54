/**
 What "available" says of the configured tools, files and artifacts themselves: each predicate here
 speaks of the fields of a benchmark, item by item, and of the host.
 */
module Provision {
  import opened Json
  import opened Text
  import opened Host
  import opened Vocabulary
  import C = Config
  import D = Dependencies
  import G = MetadataGate
  import T = ToolSearch

  // ---------- tools ----------

  predicate Usable(env: Env, path: string, allowSmoke: bool) {
    allowSmoke || !env.smokeTarget(env.target(path))
  }

  function Directories(env: Env, allowSmoke: bool): seq<string> {
    if allowSmoke && env.smokeDir.Some? then env.searchPath + [env.smokeDir.value] else env.searchPath
  }

  /** A directory offers this usable candidate, and no directory before it offers a usable one. */
  ghost predicate FirstUsable(env: Env, exe: string, dirs: seq<string>, i: int, allowSmoke: bool, path: string) {
    && 0 <= i < |dirs| && env.which(exe, dirs[i]) == Some(path) && Usable(env, path, allowSmoke)
    && forall j :: 0 <= j < i && env.which(exe, dirs[j]).Some? ==> !Usable(env, env.which(exe, dirs[j]).value, allowSmoke)
  }

  /** A tool named by its path is that path; any other one is searched for. */
  ghost predicate ToolAt(env: Env, exe: string, allowSmoke: bool, path: string) {
    match env.explicitPath(exe)
    case Some(p) => path == p && env.runnable(p) && Usable(env, p, allowSmoke)
    case None => exists i :: FirstUsable(env, exe, Directories(env, allowSmoke), i, allowSmoke, path)
  }

  lemma ToolFound(env: Env, exe: string, allowSmoke: bool, path: string)
    ensures ToolAt(env, exe, allowSmoke, path) <==>
            T.Resolve(exe, env, allowSmoke).available && T.Resolve(exe, env, allowSmoke).path == Some(path)
  {
    if env.explicitPath(exe).None? {
      T.SearchReturnsFirstAcceptable(exe, env, allowSmoke, path);
      var dirs := T.SearchDirs(env, allowSmoke);
      assert dirs == Directories(env, allowSmoke);
      if i :| 0 <= i < |dirs| && env.which(exe, dirs[i]) == Some(path) && T.Acceptable(env, path, allowSmoke)
              && T.NoneAcceptableBefore(env, exe, dirs, i, allowSmoke) {
        assert FirstUsable(env, exe, Directories(env, allowSmoke), i, allowSmoke, path);
      }
      if i :| FirstUsable(env, exe, Directories(env, allowSmoke), i, allowSmoke, path) {
        assert T.NoneAcceptableBefore(env, exe, dirs, i, allowSmoke);
      }
    }
  }

  // ---------- artifacts ----------

  /** The configured minimum does not exceed the size: fractions are cut towards zero. */
  predicate LargeEnough(minimum: Json, size: nat, env: Env) {
    match minimum
    case JInt(n) => n <= size
    case JBool(b) => b ==> size >= 1
    case JFloat(r) => r < (size + 1) as real
    case JStr(s) => env.parseInt(s).Some? && env.parseInt(s).value <= size
    case _ => false
  }

  /** The digest can be looked up among the placeholders, and is none of them. */
  predicate NoPlaceholder(placeholders: Json, digest: string) {
    match placeholders
    case JList(items) => forall k :: 0 <= k < |items| ==> !items[k].JList? && !items[k].JObj? && items[k] != JStr(digest)
    case JStr(text) => forall c :: c in text ==> digest != [c]
    case JObj(fields) => digest !in fields
    case _ => false
  }

  predicate ModelSound(entry: Json, env: Env) {
    entry.JObj? && "path" in entry.fields && entry.fields["path"].JStr? &&
    var a, path := entry.fields, entry.fields["path"].s;
    && env.isFile(path)
    && (if "sha256" in a && Truthy(a["sha256"]) then a["sha256"] == JStr(env.digest(path))
        else "placeholder_allowed" in a && Truthy(a["placeholder_allowed"]))
    && ("placeholder_sha256" in a ==> NoPlaceholder(a["placeholder_sha256"], env.digest(path)))
    && (if "min_size_bytes" in a then LargeEnough(a["min_size_bytes"], env.size(path), env) else env.size(path) >= 1)
  }

  predicate CapabilitySound(entry: Json, env: Env) {
    entry.JObj? && "path" in entry.fields && entry.fields["path"].JStr? &&
    var a, path := entry.fields, entry.fields["path"].s;
    && env.isFile(path)
    && ("proof" in a && Truthy(a["proof"]) ==> env.proof(path, a["proof"]) == Accepted)
  }

  lemma ModelIsSound(entry: Json, env: Env)
    ensures var s := D.StatusOf(D.Model(entry), env, false); s.Some? && s.value.available <==> ModelSound(entry, env)
    ensures forall allow :: D.StatusOf(D.Model(entry), env, allow) == D.StatusOf(D.Model(entry), env, false)
  {
    if D.Asset(entry) {
      D.ModelAvailable(entry.fields, env);
    }
  }

  lemma CapabilityIsSound(entry: Json, env: Env)
    ensures var s := D.StatusOf(D.Capability(entry), env, false); s.Some? && s.value.available <==> CapabilitySound(entry, env)
    ensures forall allow :: D.StatusOf(D.Capability(entry), env, allow) == D.StatusOf(D.Capability(entry), env, false)
  {
  }

  // ---------- all dependencies of a benchmark ----------

  ghost predicate Provided(name: Json, env: Env, allowSmoke: bool) {
    name.JStr? && exists path :: ToolAt(env, name.s, allowSmoke, path)
  }

  ghost predicate ToolsFound(bench: Object, env: Env, allowSmoke: bool) {
    "requires" in bench && bench["requires"].JList? ==>
      var items := bench["requires"].items;
      forall k :: 0 <= k < |items| ==> Provided(items[k], env, allowSmoke)
  }

  predicate FilesFound(bench: Object, env: Env) {
    "required_files" in bench && bench["required_files"].JList? ==>
      var items := bench["required_files"].items;
      forall k :: 0 <= k < |items| ==> items[k].JStr? && env.isFile(items[k].s)
  }

  predicate ModelsSound(bench: Object, env: Env) {
    "model_artifacts" in bench && bench["model_artifacts"].JList? ==>
      var items := bench["model_artifacts"].items;
      forall k :: 0 <= k < |items| ==> ModelSound(items[k], env)
  }

  predicate CapabilitiesSound(bench: Object, env: Env) {
    "capability_artifacts" in bench && bench["capability_artifacts"].JList? ==>
      var items := bench["capability_artifacts"].items;
      forall k :: 0 <= k < |items| ==> CapabilitySound(items[k], env)
  }

  /** Every configured tool is found, every file is there and every artifact is sound. */
  ghost predicate Everything(bench: Object, env: Env, allowSmoke: bool) {
    && ToolsFound(bench, env, allowSmoke) && FilesFound(bench, env)
    && ModelsSound(bench, env) && CapabilitiesSound(bench, env)
  }

  // ---------- from sources to configured lists ----------

  lemma FourParts<T>(a: seq<T>, b: seq<T>, c: seq<T>, d: seq<T>, p: T -> bool)
    ensures (forall i :: 0 <= i < |a + b + c + d| ==> p((a + b + c + d)[i])) <==>
            && (forall i :: 0 <= i < |a| ==> p(a[i])) && (forall i :: 0 <= i < |b| ==> p(b[i]))
            && (forall i :: 0 <= i < |c| ==> p(c[i])) && (forall i :: 0 <= i < |d| ==> p(d[i]))
  {
    var all := a + b + c + d;
    assert forall i :: 0 <= i < |a| ==> all[i] == a[i];
    assert forall i :: 0 <= i < |b| ==> all[|a| + i] == b[i];
    assert forall i :: 0 <= i < |c| ==> all[|a| + |b| + i] == c[i];
    assert forall i :: 0 <= i < |d| ==> all[|a| + |b| + |c| + i] == d[i];
  }

  ghost predicate OfAll(bench: Object, p: D.Source -> bool) {
    forall i :: 0 <= i < |D.Sources(bench)| ==> p(D.Sources(bench)[i])
  }

  ghost predicate OfEach(bench: Object, key: string, p: Json -> bool) {
    key in bench && bench[key].JList? ==> forall k :: 0 <= k < |bench[key].items| ==> p(bench[key].items[k])
  }

  /** What holds of every source holds of every item of the four configured lists. */
  lemma ByLists(bench: Object, p: D.Source -> bool, tool: Json -> bool, file: Json -> bool, model: Json -> bool, capability: Json -> bool)
    requires C.BenchAccepted(JObj(bench))
    requires forall v :: (p(D.Tool(v)) <==> tool(v)) && (p(D.Path(v)) <==> file(v))
    requires forall v :: D.Asset(v) ==> (p(D.Model(v)) <==> model(v)) && (p(D.Capability(v)) <==> capability(v))
    ensures OfAll(bench, p) <==>
            && OfEach(bench, "requires", tool) && OfEach(bench, "required_files", file)
            && OfEach(bench, "model_artifacts", model) && OfEach(bench, "capability_artifacts", capability)
  {
    ListsAccepted(bench);
    OfAllParts(bench, p);
    var tools, files := Items(bench, "requires"), Items(bench, "required_files");
    var models, capabilities := Items(bench, "model_artifacts"), Items(bench, "capability_artifacts");
    SourceItems(tools);
    SourceItems(files);
    SourceItems(models);
    SourceItems(capabilities);
    hide C.BenchAccepted, AllOf, OfAll, D.ToolSources, D.FileSources, D.ModelSources, D.CapabilitySources, D.Asset, Items, OfEach;
    assert forall k :: 0 <= k < |models| ==> models[k] in models;
    assert forall k :: 0 <= k < |capabilities| ==> capabilities[k] in capabilities;
    EachItem(bench, "requires", D.ToolSources(tools), p, tool);
    EachItem(bench, "required_files", D.FileSources(files), p, file);
    EachItem(bench, "model_artifacts", D.ModelSources(models), p, model);
    EachItem(bench, "capability_artifacts", D.CapabilitySources(capabilities), p, capability);
  }

  ghost predicate AllOf(sources: seq<D.Source>, p: D.Source -> bool) {
    forall i :: 0 <= i < |sources| ==> p(sources[i])
  }

  lemma OfAllParts(bench: Object, p: D.Source -> bool)
    ensures OfAll(bench, p) <==>
            && AllOf(D.ToolSources(Items(bench, "requires")), p) && AllOf(D.FileSources(Items(bench, "required_files")), p)
            && AllOf(D.ModelSources(Items(bench, "model_artifacts")), p)
            && AllOf(D.CapabilitySources(Items(bench, "capability_artifacts")), p)
  {
    hide Items, D.ToolSources, D.FileSources, D.ModelSources, D.CapabilitySources;
    var tools, files := D.ToolSources(Items(bench, "requires")), D.FileSources(Items(bench, "required_files"));
    var models, capabilities := D.ModelSources(Items(bench, "model_artifacts")), D.CapabilitySources(Items(bench, "capability_artifacts"));
    FourParts(tools, files, models, capabilities, p);
    assert D.Sources(bench) == tools + files + models + capabilities;
  }

  lemma SourceItems(items: seq<Json>)
    ensures |D.ToolSources(items)| == |items| && forall k :: 0 <= k < |items| ==> D.ToolSources(items)[k] == D.Tool(items[k])
    ensures |D.FileSources(items)| == |items| && forall k :: 0 <= k < |items| ==> D.FileSources(items)[k] == D.Path(items[k])
    ensures |D.ModelSources(items)| == |items| && forall k :: 0 <= k < |items| ==> D.ModelSources(items)[k] == D.Model(items[k])
    ensures |D.CapabilitySources(items)| == |items|
            && forall k :: 0 <= k < |items| ==> D.CapabilitySources(items)[k] == D.Capability(items[k])
  {
  }

  lemma EachItem(bench: Object, key: string, sources: seq<D.Source>, p: D.Source -> bool, q: Json -> bool)
    requires key in bench ==> bench[key].JList?
    requires |sources| == |Items(bench, key)|
    requires forall k :: 0 <= k < |sources| ==> p(sources[k]) == q(Items(bench, key)[k])
    ensures AllOf(sources, p) <==> OfEach(bench, key, q)
  {
    if OfEach(bench, key, q) {
      assert forall i :: 0 <= i < |sources| ==> q(Items(bench, key)[i]);
    } else {
      var k :| 0 <= k < |bench[key].items| && !q(bench[key].items[k]);
      assert !p(sources[k]);
    }
  }

  lemma ListsAccepted(bench: Object)
    requires C.BenchAccepted(JObj(bench))
    ensures "requires" in bench ==> bench["requires"].JList?
    ensures "required_files" in bench ==> bench["required_files"].JList?
    ensures "model_artifacts" in bench ==> bench["model_artifacts"].JList?
    ensures "capability_artifacts" in bench ==> bench["capability_artifacts"].JList?
    ensures forall v :: v in Items(bench, "model_artifacts") || v in Items(bench, "capability_artifacts") ==> D.Asset(v)
  {
  }

  // ---------- when every dependency is available ----------

  ghost predicate Good(s: D.Source, env: Env, allowSmoke: bool) {
    D.StatusOf(s, env, allowSmoke).Some? && D.StatusOf(s, env, allowSmoke).value.available
  }

  lemma GoodTool(name: Json, env: Env, allowSmoke: bool)
    ensures Good(D.Tool(name), env, allowSmoke) <==> Provided(name, env, allowSmoke)
  {
    if name.JStr? {
      var r := T.Resolve(name.s, env, allowSmoke);
      forall path
        ensures ToolAt(env, name.s, allowSmoke, path) <==> r.available && r.path == Some(path)
      {
        ToolFound(env, name.s, allowSmoke, path);
      }
      if r.available {
        ResolvedPath(name.s, env, allowSmoke);
        assert ToolAt(env, name.s, allowSmoke, r.path.value);
      }
    }
  }

  lemma ResolvedPath(exe: string, env: Env, allowSmoke: bool)
    requires T.Resolve(exe, env, allowSmoke).available
    ensures T.Resolve(exe, env, allowSmoke).path.Some?
  {
  }

  lemma StatusAt(bench: Object, env: Env, allowSmoke: bool)
    ensures var r := D.Statuses(bench, env, allowSmoke);
            && (r.Some? <==> OfAll(bench, s => D.StatusOf(s, env, allowSmoke).Some?))
            && (r.Some? ==> |r.value| == |D.Sources(bench)|
                            && forall i :: 0 <= i < |r.value| ==> D.StatusOf(D.Sources(bench)[i], env, allowSmoke) == Some(r.value[i]))
  {
    hide D.StatusOf, D.Sources;
    var sources, list := D.Sources(bench), D.StatusList(D.Sources(bench), env, allowSmoke);
    assert forall i :: 0 <= i < |sources| ==> list[i] == D.StatusOf(sources[i], env, allowSmoke);
  }

  /** Every dependency is available exactly when every configured tool, file and artifact is found and sound. */
  lemma EverythingFound(bench: Object, env: Env, allowSmoke: bool)
    requires C.BenchAccepted(JObj(bench))
    ensures D.Statuses(bench, env, allowSmoke).Some? && D.AllAvailable(D.Statuses(bench, env, allowSmoke).value) <==>
            Everything(bench, env, allowSmoke)
  {
    StatusAt(bench, env, allowSmoke);
    AllGood(bench, env, allowSmoke);
    forall v
      ensures Good(D.Tool(v), env, allowSmoke) <==> Provided(v, env, allowSmoke)
      ensures Good(D.Path(v), env, allowSmoke) <==> v.JStr? && env.isFile(v.s)
      ensures Good(D.Model(v), env, allowSmoke) <==> ModelSound(v, env)
      ensures Good(D.Capability(v), env, allowSmoke) <==> CapabilitySound(v, env)
    {
      GoodTool(v, env, allowSmoke);
      ModelIsSound(v, env);
      CapabilityIsSound(v, env);
    }
    hide Good, Provided, ModelSound, CapabilitySound, D.StatusOf, D.AllAvailable, D.Statuses, D.Sources, C.BenchAccepted;
    hide OfAll, OfEach, Everything;
    ByLists(bench, s => Good(s, env, allowSmoke), v => Provided(v, env, allowSmoke), (v: Json) => v.JStr? && env.isFile(v.s),
            v => ModelSound(v, env), v => CapabilitySound(v, env));
    EverythingEach(bench, env, allowSmoke);
  }

  lemma EverythingEach(bench: Object, env: Env, allowSmoke: bool)
    ensures Everything(bench, env, allowSmoke) <==>
            && OfEach(bench, "requires", v => Provided(v, env, allowSmoke))
            && OfEach(bench, "required_files", (v: Json) => v.JStr? && env.isFile(v.s))
            && OfEach(bench, "model_artifacts", v => ModelSound(v, env))
            && OfEach(bench, "capability_artifacts", v => CapabilitySound(v, env))
  {
    hide Provided, ModelSound, CapabilitySound;
  }

  lemma AllGood(bench: Object, env: Env, allowSmoke: bool)
    ensures D.Statuses(bench, env, allowSmoke).Some? && D.AllAvailable(D.Statuses(bench, env, allowSmoke).value) <==>
            OfAll(bench, s => Good(s, env, allowSmoke))
  {
    StatusAt(bench, env, allowSmoke);
    hide D.StatusOf, D.Sources;
    var r := D.Statuses(bench, env, allowSmoke);
    if OfAll(bench, s => Good(s, env, allowSmoke)) {
      assert OfAll(bench, s => D.StatusOf(s, env, allowSmoke).Some?) by {
        assert forall i :: 0 <= i < |D.Sources(bench)| ==> Good(D.Sources(bench)[i], env, allowSmoke);
      }
      forall d | d in r.value
        ensures d.available
      {
        var i :| 0 <= i < |r.value| && r.value[i] == d;
        assert Good(D.Sources(bench)[i], env, allowSmoke);
      }
    } else if r.Some? && D.AllAvailable(r.value) {
      forall i | 0 <= i < |D.Sources(bench)|
        ensures Good(D.Sources(bench)[i], env, allowSmoke)
      {
        assert r.value[i] in r.value;
      }
    }
  }

  // ---------- when a dependency raises ----------

  predicate MinimumReadable(minimum: Json, env: Env) {
    match minimum
    case JInt(_) => true
    case JBool(_) => true
    case JFloat(_) => true
    case JStr(s) => env.parseInt(s).Some?
    case _ => false
  }

  /** A list that can be turned into a set, a text or a mapping. */
  predicate PlaceholdersReadable(placeholders: Json) {
    match placeholders
    case JList(items) => forall k :: 0 <= k < |items| ==> !items[k].JList? && !items[k].JObj?
    case JStr(_) => true
    case JObj(_) => true
    case _ => false
  }

  /** A model artifact raises only when its file is there. */
  predicate ModelReadable(entry: Json, env: Env) {
    entry.JObj? && "path" in entry.fields && entry.fields["path"].JStr? &&
    var a := entry.fields;
    env.isFile(a["path"].s) ==>
      && ("placeholder_sha256" in a ==> PlaceholdersReadable(a["placeholder_sha256"]))
      && ("min_size_bytes" in a ==> MinimumReadable(a["min_size_bytes"], env))
  }

  /** So does a capability artifact, and only by the check of its proof. */
  predicate CapabilityReadable(entry: Json, env: Env) {
    entry.JObj? && "path" in entry.fields && entry.fields["path"].JStr? &&
    var a := entry.fields;
    env.isFile(a["path"].s) && "proof" in a && Truthy(a["proof"]) ==> env.proof(a["path"].s, a["proof"]) != Crashes
  }

  ghost predicate Readable(bench: Object, env: Env) {
    && OfEach(bench, "requires", (v: Json) => v.JStr?) && OfEach(bench, "required_files", (v: Json) => v.JStr?)
    && OfEach(bench, "model_artifacts", v => ModelReadable(v, env))
    && OfEach(bench, "capability_artifacts", v => CapabilityReadable(v, env))
  }

  lemma EntriesReadable(v: Json, env: Env, allowSmoke: bool)
    ensures D.StatusOf(D.Model(v), env, allowSmoke).Some? <==> ModelReadable(v, env)
    ensures D.StatusOf(D.Capability(v), env, allowSmoke).Some? <==> CapabilityReadable(v, env)
  {
    if v.JObj? && D.Asset(v) {
      var placeholders := GetOr(v.fields, "placeholder_sha256", JList([]));
      assert D.IsCollection(placeholders) <==> PlaceholdersReadable(placeholders) by {
        if placeholders.JList? {
          assert forall k :: 0 <= k < |placeholders.items| ==> placeholders.items[k] in placeholders.items;
        }
      }
    }
  }

  /** The status check raises exactly when a name is no text, or an artifact that is there cannot be judged. */
  lemma StatusesReadable(bench: Object, env: Env, allowSmoke: bool)
    requires C.BenchAccepted(JObj(bench))
    ensures D.Statuses(bench, env, allowSmoke).Some? <==> Readable(bench, env)
  {
    StatusAt(bench, env, allowSmoke);
    forall v
      ensures D.StatusOf(D.Tool(v), env, allowSmoke).Some? <==> v.JStr?
      ensures D.StatusOf(D.Path(v), env, allowSmoke).Some? <==> v.JStr?
      ensures D.StatusOf(D.Model(v), env, allowSmoke).Some? <==> ModelReadable(v, env)
      ensures D.StatusOf(D.Capability(v), env, allowSmoke).Some? <==> CapabilityReadable(v, env)
    {
      EntriesReadable(v, env, allowSmoke);
    }
    hide ModelReadable, CapabilityReadable, D.StatusOf, D.Statuses, D.Sources, C.BenchAccepted;
    ByLists(bench, s => D.StatusOf(s, env, allowSmoke).Some?, (v: Json) => v.JStr?, (v: Json) => v.JStr?,
            v => ModelReadable(v, env), v => CapabilityReadable(v, env));
  }

  // ---------- blocker ids ----------

  /** A configured blocker id is a text that is not empty; without the field there is a default. */
  predicate IdGiven(entry: Json) {
    entry.JObj? && "blocker_id" in entry.fields ==> NonEmptyStr(entry.fields["blocker_id"])
  }

  /** Every artifact that is not sound has its blocker id. */
  ghost predicate IdsGiven(bench: Object, env: Env) {
    && OfEach(bench, "model_artifacts", v => ModelSound(v, env) || IdGiven(v))
    && OfEach(bench, "capability_artifacts", v => CapabilitySound(v, env) || IdGiven(v))
  }

  ghost predicate Identified(s: D.Source, env: Env, allowSmoke: bool) {
    D.StatusOf(s, env, allowSmoke).Some? &&
    var d := D.StatusOf(s, env, allowSmoke).value;
    !d.available && D.IsArtifact(d.kind) ==> NonEmptyStr(d.blockerId)
  }

  predicate ModelIdentified(v: Json, env: Env) {
    ModelReadable(v, env) && (ModelSound(v, env) || IdGiven(v))
  }

  predicate CapabilityIdentified(v: Json, env: Env) {
    CapabilityReadable(v, env) && (CapabilitySound(v, env) || IdGiven(v))
  }

  lemma ModelIdentifiedIff(v: Json, env: Env, allowSmoke: bool)
    ensures Identified(D.Model(v), env, allowSmoke) <==> ModelIdentified(v, env)
  {
    EntriesReadable(v, env, allowSmoke);
    ModelIsSound(v, env);
    hide ModelSound, ModelReadable;
  }

  lemma EntriesIdentified(v: Json, env: Env, allowSmoke: bool)
    ensures Identified(D.Model(v), env, allowSmoke) <==> ModelIdentified(v, env)
    ensures Identified(D.Capability(v), env, allowSmoke) <==> CapabilityIdentified(v, env)
  {
    ModelIdentifiedIff(v, env, allowSmoke);
    EntriesReadable(v, env, allowSmoke);
    CapabilityIsSound(v, env);
    hide ModelSound, CapabilitySound, ModelReadable, CapabilityReadable, ModelIdentified, Readable;
  }

  lemma AllIdentified(bench: Object, env: Env, allowSmoke: bool)
    requires D.Statuses(bench, env, allowSmoke).Some?
    ensures D.GoodBlockerIds(D.Statuses(bench, env, allowSmoke).value) <==> OfAll(bench, s => Identified(s, env, allowSmoke))
  {
    StatusAt(bench, env, allowSmoke);
    hide D.StatusOf, D.Sources;
    var deps := D.Statuses(bench, env, allowSmoke).value;
    if OfAll(bench, s => Identified(s, env, allowSmoke)) {
      forall d | d in deps && !d.available && D.IsArtifact(d.kind)
        ensures NonEmptyStr(d.blockerId)
      {
        var i :| 0 <= i < |deps| && deps[i] == d;
        assert Identified(D.Sources(bench)[i], env, allowSmoke);
      }
    } else {
      var i :| 0 <= i < |D.Sources(bench)| && !Identified(D.Sources(bench)[i], env, allowSmoke);
      assert deps[i] in deps;
    }
  }

  lemma OfEachAnd(bench: Object, key: string, p: Json -> bool, q: Json -> bool, both: Json -> bool)
    requires OfEach(bench, key, p) && forall v :: both(v) <==> p(v) && q(v)
    ensures OfEach(bench, key, both) <==> OfEach(bench, key, q)
  {
  }

  /** The blocker ids are good exactly when every artifact that is not sound is given one. */
  lemma IdsGivenIff(bench: Object, env: Env, allowSmoke: bool)
    requires C.BenchAccepted(JObj(bench)) && D.Statuses(bench, env, allowSmoke).Some?
    ensures D.GoodBlockerIds(D.Statuses(bench, env, allowSmoke).value) <==> IdsGiven(bench, env)
  {
    AllIdentified(bench, env, allowSmoke);
    StatusesReadable(bench, env, allowSmoke);
    forall v
      ensures Identified(D.Tool(v), env, allowSmoke) <==> v.JStr?
      ensures Identified(D.Path(v), env, allowSmoke) <==> v.JStr?
      ensures Identified(D.Model(v), env, allowSmoke) <==> ModelIdentified(v, env)
      ensures Identified(D.Capability(v), env, allowSmoke) <==> CapabilityIdentified(v, env)
    {
      EntriesIdentified(v, env, allowSmoke);
    }
    hide ModelReadable, CapabilityReadable, ModelSound, CapabilitySound, IdGiven, Identified, OfAll, OfEach, D.StatusOf, D.Statuses,
      D.Sources, C.BenchAccepted;
    ByLists(bench, s => Identified(s, env, allowSmoke), (v: Json) => v.JStr?, (v: Json) => v.JStr?,
            v => ModelIdentified(v, env), v => CapabilityIdentified(v, env));
    OfEachAnd(bench, "model_artifacts", v => ModelReadable(v, env), v => ModelSound(v, env) || IdGiven(v), v => ModelIdentified(v, env));
    OfEachAnd(bench, "capability_artifacts", v => CapabilityReadable(v, env), v => CapabilitySound(v, env) || IdGiven(v),
              v => CapabilityIdentified(v, env));
  }

  // ---------- what a status records ----------

  /** What the status of an artifact says of its entry. */
  predicate Records(d: D.Dep, a: Object, path: string, id: string) {
    && d.name == path && d.path == Some(path)
    && d.blockerId == (if "blocker_id" in a then a["blocker_id"] else JStr(id))
    && d.pipelineVisible == ("pipeline_visible" in a ==> Truthy(a["pipeline_visible"]))
    && d.releaseBlocking == ("release_blocking" in a ==> Truthy(a["release_blocking"]))
    && d.releaseClaimAllowed == None && d.rejected == []
    && (d.available <==> d.reason == None)
  }

  /** A model artifact is missing, unpinned, of another hash, or a placeholder, in this order. */
  lemma ModelRecorded(entry: Json, env: Env)
    requires D.StatusOf(D.Model(entry), env, false).Some?
    ensures entry.JObj? && "path" in entry.fields && entry.fields["path"].JStr?
    ensures var d, a, path := D.StatusOf(D.Model(entry), env, false).value, entry.fields, entry.fields["path"].s;
            var pinned := "sha256" in a && Truthy(a["sha256"]);
            && d.kind == D.ModelArtifact && Records(d, a, path, "MODEL_ARTIFACT_UNAVAILABLE")
            && (d.reason == Some(D.MissingModel) <==> !env.isFile(path))
            && (d.reason == Some(D.UnpinnedModel) <==>
                env.isFile(path) && !pinned && !("placeholder_allowed" in a && Truthy(a["placeholder_allowed"])))
            && (d.reason == Some(D.MismatchedModel) <==> env.isFile(path) && pinned && a["sha256"] != JStr(env.digest(path)))
  {
  }

  /** A capability artifact is missing, for the configured reason, or not proved. */
  lemma CapabilityRecorded(entry: Json, env: Env)
    requires D.StatusOf(D.Capability(entry), env, false).Some?
    ensures entry.JObj? && "path" in entry.fields && entry.fields["path"].JStr?
    ensures var d, a, path := D.StatusOf(D.Capability(entry), env, false).value, entry.fields, entry.fields["path"].s;
            && d.kind == D.CapabilityArtifact && Records(d, a, path, "CAPABILITY_ARTIFACT_UNAVAILABLE")
            && (!env.isFile(path) <==>
                d.reason == Some(D.MissingCapability(if "blocked_reason" in a then a["blocked_reason"] else JStr("missing_capability_artifact"))))
            && (d.reason == Some(D.InvalidProof) <==>
                env.isFile(path) && "proof" in a && Truthy(a["proof"]) && env.proof(path, a["proof"]) == Rejected)
  {
  }

  /** A tool's claim on releases, and the reason and the candidates it was rejected for. */
  lemma ToolRecorded(name: string, env: Env, allowSmoke: bool)
    ensures var d, found := D.StatusOf(D.Tool(JStr(name)), env, allowSmoke).value, T.Resolve(name, env, allowSmoke);
            && d.name == name && d.kind == D.Executable && d.path == found.path && d.rejected == found.rejected
            && d.available == found.available
            && (d.reason == Some(D.HostSmokeTool) <==> found.smoke) && (d.reason == None <==> !found.smoke)
            && (d.path.None? <==> d.releaseClaimAllowed == None)
            && (d.path.Some? ==> d.releaseClaimAllowed == Some(!env.smokeTarget(env.target(d.path.value))))
  {
  }
}
