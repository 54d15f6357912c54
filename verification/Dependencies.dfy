/**
 Dependency resolution of the benchmark runner: `dependency_status`, the artifact checks and
 the three filters that split unavailable dependencies into missing, blockers and blocked assets.
 */
module Dependencies {
  import opened Json
  import opened Host
  import opened ToolSearch

  datatype Kind = Executable | File | ModelArtifact | CapabilityArtifact

  datatype Reason =
    | HostSmokeTool
    | MissingModel | UnpinnedModel | MismatchedModel | PlaceholderModel
    | MissingCapability(given: Json) | InvalidProof

  datatype Dep = Dep(
    name: string,
    kind: Kind,
    available: bool,
    path: Option<string>,
    reason: Option<Reason>,
    releaseClaimAllowed: Option<bool>,
    rejected: seq<string>,
    blockerId: Json,
    pipelineVisible: bool,
    releaseBlocking: bool)

  /** A configured dependency, still as read from the configuration. */
  datatype Source = Tool(name: Json) | Path(name: Json) | Model(entry: Json) | Capability(entry: Json)

  function ToolSources(names: seq<Json>): seq<Source> {
    seq(|names|, i requires 0 <= i < |names| => Tool(names[i]))
  }

  function FileSources(names: seq<Json>): seq<Source> {
    seq(|names|, i requires 0 <= i < |names| => Path(names[i]))
  }

  function ModelSources(entries: seq<Json>): seq<Source> {
    seq(|entries|, i requires 0 <= i < |entries| => Model(entries[i]))
  }

  function CapabilitySources(entries: seq<Json>): seq<Source> {
    seq(|entries|, i requires 0 <= i < |entries| => Capability(entries[i]))
  }

  function Sources(bench: Object): seq<Source> {
    ToolSources(Items(bench, "requires")) + FileSources(Items(bench, "required_files"))
    + ModelSources(Items(bench, "model_artifacts")) + CapabilitySources(Items(bench, "capability_artifacts"))
  }

  // ---------- one status ----------

  function PlainDep(name: string, kind: Kind, available: bool, path: Option<string>): Dep {
    Dep(name, kind, available, path, None, None, [], JNull, true, true)
  }

  function ToolStatus(exe: string, lookup: Lookup, env: Env): Dep {
    var claim := if lookup.path.Some? then Some(!IsSmoke(env, lookup.path.value)) else None;
    PlainDep(exe, Executable, lookup.available, lookup.path)
    .(reason := if lookup.smoke then Some(HostSmokeTool) else None,
    releaseClaimAllowed := claim,
    rejected := lookup.rejected)
  }

  function FileStatus(path: string, env: Env): Dep {
    PlainDep(path, File, env.isFile(path), Some(path))
  }

  /** `int(v)`, or nothing where it raises. */
  function ToInt(v: Json, env: Env): Option<int> {
    match v
    case JInt(i) => Some(i)
    case JBool(b) => Some(IntValue(v))
    case JFloat(r) => Some(if r >= 0.0 then r.Floor else -((-r).Floor))
    case JStr(s) => env.parseInt(s)
    case _ => None
  }

  /** Whether `set(v)` can be built. */
  predicate IsCollection(v: Json) {
    match v
    case JList(items) => forall x :: x in items ==> !x.JList? && !x.JObj?
    case JStr(_) => true
    case JObj(_) => true
    case _ => false
  }

  /** `s in set(v)` */
  predicate InCollection(s: string, v: Json) {
    match v
    case JList(items) => JStr(s) in items
    case JStr(text) => |s| == 1 && s[0] in text
    case JObj(fields) => s in fields
    case _ => false
  }

  predicate Asset(entry: Json) {
    entry.JObj? && Get(entry.fields, "path").JStr?
  }

  function AssetDep(a: Object, kind: Kind, env: Env, defaultId: string): Dep
    requires Get(a, "path").JStr?
  {
    var path := Get(a, "path").s;
    PlainDep(path, kind, env.isFile(path), Some(path))
    .(blockerId := GetOr(a, "blocker_id", JStr(defaultId)),
    pipelineVisible := Truthy(GetOr(a, "pipeline_visible", JBool(true))),
    releaseBlocking := Truthy(GetOr(a, "release_blocking", JBool(true))))
  }

  function Unavailable(dep: Dep, reason: Reason): Dep {
    dep.(available := false, reason := Some(reason))
  }

  /** `model_artifact_status`, or nothing where it raises. */
  function ModelStatus(a: Object, env: Env): Option<Dep>
    requires Get(a, "path").JStr?
  {
    var path := Get(a, "path").s;
    var dep := AssetDep(a, ModelArtifact, env, "MODEL_ARTIFACT_UNAVAILABLE");
    if !env.isFile(path) then
      Some(Unavailable(dep, MissingModel))
    else
      var digest, expected := env.digest(path), Get(a, "sha256");
      var placeholders := GetOr(a, "placeholder_sha256", JList([]));
      var minSize := ToInt(GetOr(a, "min_size_bytes", JInt(1)), env);
      if !IsCollection(placeholders) || minSize.None? then None
      else if !Truthy(expected) && !Truthy(GetOr(a, "placeholder_allowed", JBool(false))) then
        Some(Unavailable(dep, UnpinnedModel))
      else if Truthy(expected) && JStr(digest) != expected then
        Some(Unavailable(dep, MismatchedModel))
      else if InCollection(digest, placeholders) || env.size(path) < minSize.value then
        Some(Unavailable(dep, PlaceholderModel))
      else
        Some(dep)
  }

  /** `capability_artifact_status`, with the verdict on the proof document as an input. */
  function CapabilityStatus(a: Object, env: Env): Option<Dep>
    requires Get(a, "path").JStr?
  {
    var path, proof := Get(a, "path").s, Get(a, "proof");
    var dep := AssetDep(a, CapabilityArtifact, env, "CAPABILITY_ARTIFACT_UNAVAILABLE");
    if !env.isFile(path) then
      Some(Unavailable(dep, MissingCapability(GetOr(a, "blocked_reason", JStr("missing_capability_artifact")))))
    else if !Truthy(proof) then
      Some(dep)
    else
      match env.proof(path, proof)
      case Accepted => Some(dep)
      case Rejected => Some(Unavailable(dep, InvalidProof))
      case Crashes => None
  }

  function StatusOf(s: Source, env: Env, allowSmoke: bool): Option<Dep> {
    match s
    case Tool(name) =>
      if name.JStr? then Some(ToolStatus(name.s, Resolve(name.s, env, allowSmoke), env)) else None
    case Path(name) => if name.JStr? then Some(FileStatus(name.s, env)) else None
    case Model(entry) => if Asset(entry) then ModelStatus(entry.fields, env) else None
    case Capability(entry) => if Asset(entry) then CapabilityStatus(entry.fields, env) else None
  }

  function StatusList(sources: seq<Source>, env: Env, allowSmoke: bool): seq<Option<Dep>> {
    seq(|sources|, i requires 0 <= i < |sources| => StatusOf(sources[i], env, allowSmoke))
  }

  /** All statuses in configuration order, or nothing as soon as one of them raises. */
  function Statuses(bench: Object, env: Env, allowSmoke: bool): Option<seq<Dep>> {
    AllSome(StatusList(Sources(bench), env, allowSmoke))
  }

  /** One dependency, searched for if it names a tool. */
  method CheckOne(source: Source, env: Env, allowSmoke: bool) returns (r: Option<Dep>)
    ensures r == StatusOf(source, env, allowSmoke)
  {
    if source.Tool? && source.name.JStr? {
      var lookup := CommandAvailable(source.name.s, env, allowSmoke);
      r := Some(ToolStatus(source.name.s, lookup, env));
    } else {
      r := StatusOf(source, env, allowSmoke);
    }
  }

  /** `dependency_status`: tools, files, model artifacts, then capability artifacts. */
  method DependencyStatus(bench: Object, env: Env, allowSmoke: bool) returns (r: Option<seq<Dep>>)
    ensures r == Statuses(bench, env, allowSmoke)
  {
    hide StatusOf, Sources;
    var sources := Sources(bench);
    ghost var wanted := StatusList(sources, env, allowSmoke);
    var statuses: seq<Dep> := [];
    for i := 0 to |sources|
      invariant AllSome(wanted[..i]) == Some(statuses)
    {
      assert wanted[..i + 1][..i] == wanted[..i];
      var status := CheckOne(sources[i], env, allowSmoke);
      assert status == wanted[i];
      if status.None? {
        return None;
      }
      statuses := statuses + [status.value];
    }
    assert wanted[..|sources|] == wanted;
    r := Some(statuses);
  }

  // ---------- the three filters ----------

  predicate IsArtifact(kind: Kind) {
    kind.ModelArtifact? || kind.CapabilityArtifact?
  }

  /** An entry of `missing_dependency_blockers`. */
  datatype DependencyBlocker = DependencyBlocker(name: string, kind: Kind)

  datatype BlockedAsset = BlockedAsset(
    name: string, reason: Option<Reason>, blockerId: Json, pipelineVisible: bool, releaseBlocking: bool)

  /** `missing_dependencies` */
  function MissingDependencies(deps: seq<Dep>): (r: seq<string>)
    ensures r != [] <==> exists d :: d in deps && !d.available && !IsArtifact(d.kind)
    ensures forall n :: n in r <==> exists d :: d in deps && !d.available && !IsArtifact(d.kind) && n == d.name
  {
    if deps == [] then []
    else
      assert deps == [deps[0]] + deps[1..];
      var rest := MissingDependencies(deps[1..]);
      if !deps[0].available && !IsArtifact(deps[0].kind) then [deps[0].name] + rest else rest
  }

  /** `missing_dependency_blockers` */
  function DependencyBlockers(deps: seq<Dep>): (r: seq<DependencyBlocker>)
    ensures r != [] <==> exists d :: d in deps && !d.available && !d.kind.ModelArtifact?
    ensures forall b :: b in r <==> exists d :: d in deps && !d.available && !d.kind.ModelArtifact? && b == DependencyBlocker(d.name, d.kind)
  {
    if deps == [] then []
    else
      assert deps == [deps[0]] + deps[1..];
      var rest := DependencyBlockers(deps[1..]);
      if !deps[0].available && !deps[0].kind.ModelArtifact? then
        [DependencyBlocker(deps[0].name, deps[0].kind)] + rest
      else rest
  }

  /** `blocked_assets` */
  function BlockedAssets(deps: seq<Dep>): (r: seq<BlockedAsset>)
    ensures r != [] <==> exists d :: d in deps && !d.available && IsArtifact(d.kind)
    ensures forall a :: a in r <==> exists d :: d in deps && !d.available && IsArtifact(d.kind) && a == AssetOf(d)
  {
    if deps == [] then []
    else
      assert deps == [deps[0]] + deps[1..];
      var rest := BlockedAssets(deps[1..]);
      if !deps[0].available && IsArtifact(deps[0].kind) then [AssetOf(deps[0])] + rest else rest
  }

  function AssetOf(d: Dep): BlockedAsset {
    BlockedAsset(d.name, d.reason, d.blockerId, d.pipelineVisible, d.releaseBlocking)
  }

  predicate AllAvailable(deps: seq<Dep>) {
    forall d :: d in deps ==> d.available
  }

  /**
   The filters are exhaustive: nothing is blocked exactly when every dependency is available, and
   the blocker filter covers the missing filter, so a missing dependency always blocks.
   */
  lemma FiltersCoverEverything(deps: seq<Dep>)
    ensures DependencyBlockers(deps) == [] && BlockedAssets(deps) == [] <==> AllAvailable(deps)
    ensures MissingDependencies(deps) != [] ==> DependencyBlockers(deps) != []
  {
    if MissingDependencies(deps) != [] {
      var d :| d in deps && !d.available && !IsArtifact(d.kind);
    }
  }

  // ---------- what an available dependency means ----------

  /** A model artifact is available exactly when it is present, pinned or excused, not a placeholder and large enough. */
  lemma ModelAvailable(a: Object, env: Env)
    requires Get(a, "path").JStr?
    ensures var path := Get(a, "path").s;
            var s := ModelStatus(a, env);
            s.Some? && s.value.available <==>
            && env.isFile(path)
            && IsCollection(GetOr(a, "placeholder_sha256", JList([])))
            && !InCollection(env.digest(path), GetOr(a, "placeholder_sha256", JList([])))
            && ToInt(GetOr(a, "min_size_bytes", JInt(1)), env).Some?
            && ToInt(GetOr(a, "min_size_bytes", JInt(1)), env).value <= env.size(path)
            && (if Truthy(Get(a, "sha256")) then Get(a, "sha256") == JStr(env.digest(path))
                else Truthy(GetOr(a, "placeholder_allowed", JBool(false))))
  {
  }

  /** Without the smoke flag, no available dependency carries the "not for release claims" mark. */
  lemma AvailableMeansReleasable(s: Source, env: Env)
    ensures var d := StatusOf(s, env, false);
            d.Some? && d.value.available ==> d.value.releaseClaimAllowed != Some(false)
  {
    if s.Tool? && s.name.JStr? {
      NeverSmokeWithoutFlag(s.name.s, env);
    }
  }

  /** The blocked assets carry the configured blocker ids; their flags are always booleans. */
  predicate GoodBlockerIds(deps: seq<Dep>) {
    forall d :: d in deps && !d.available && IsArtifact(d.kind) ==> NonEmptyStr(d.blockerId)
  }
}
