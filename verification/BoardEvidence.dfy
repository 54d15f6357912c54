/** The board and package evidence manifest: one validator, run as preflight or as release. */
module BoardEvidence {
  import opened Json

  // ---------- vocabulary ----------

  const ALLOWED_STATUS := {"missing", "draft", "complete"}
  const ACCEPTED_STATUS := {"accepted", "approved", "pass"}

  const REQUIRED_BLOCKER_IDS := {
    "package_drawing", "footprint_source", "bond_diagram", "kicad_project", "kicad_schematic", "kicad_pcb",
    "vendor_derived_footprint", "erc", "drc", "gerbers", "drill", "bom", "pick_and_place", "cross_probe",
    "dfm", "si_pi", "first_article"
  }

  const REQUIRED_RECORD_FIELDS := {
    "blocker_id", "artifact_name", "artifact_class", "source_path", "source_owner", "captured_at", "captured_by",
    "immutable_revision_or_lot", "sha256", "vendor_or_tool", "revision", "source_document",
    "package_or_board_revision", "reviewer", "acceptance_status", "acceptance_criteria", "review_record",
    "linked_release_gate", "supersedes_placeholder"
  }

  datatype Problem =
    | NoFile | BadYaml | NotMapping | HeaderStatus | HeaderGate | HeaderSchema | HeaderPolicy | NoGroups | Elsewhere(text: string)
    | GroupStatus | GroupIncomplete | NoArtifacts | MissingIds(ids: set<string>)
    | NoName | BadStatus | NoGlobs | BadPath(path: string)
    | BadMetadata | BadRequired | BadDigest(key: string) | AbsentMetadata(keys: set<string>)
    | BadBlocker | BadId | RepeatedId(id: string) | NoId | NoBlocker
    | UnexpectedFiles | LacksFiles | NotComplete | NotReleased
    | NoRecords | RecordsNotList | RecordsEmpty | Record(index: nat, record: RecordProblem)

  datatype RecordProblem =
    | RecordNotMapping | AbsentFields(fields: set<string>) | WrongId | WrongArtifact | WrongGate | NotSuperseding | NotAccepted
    | NoSource | SourceNotRelative | ForbiddenPart | OutsideGlobs | PlaceholderSource | SourceMissing | Marked | BadSha | WrongSha

  datatype Failure = Failure(field: string, problem: Problem)

  /**
   What the validator asks of the world outside the manifest: the order of a mapping's keys, the file
   system, hashes, and the checks that do not depend on the mode.
   */
  datatype World = World(
    order: Object -> seq<string>,
    others: Object -> seq<Failure>,
    hasFiles: seq<string> -> bool,
    relative: string -> bool,
    forbidden: string -> bool,
    matches: (string, seq<string>) -> bool,
    placeholder: string -> bool,
    isFile: string -> bool,
    marked: string -> bool,
    digest: string -> string)

  /** Iterating over a mapping visits each key exactly once. */
  ghost predicate Lists(keys: seq<string>, d: Object) {
    && (forall k :: k in d <==> k in keys)
    && forall i, j :: 0 <= i < j < |keys| ==> keys[i] != keys[j]
  }

  /** The order in which the world hands out keys is that of an iteration. */
  ghost predicate Iterates(w: World) {
    forall d: Object :: Lists(w.order(d), d)
  }

  datatype ManifestFile = Absent | Unparsable | Loaded(value: Json)

  function When<T>(c: bool, x: T): seq<T> {
    if c then [x] else []
  }

  /** `as_string_list` */
  function StringList(v: Json): seq<string> {
    if AllStrs(v) && NonEmptyStrs(v) then Strs(v) else []
  }

  predicate Allowed(v: Json, words: set<string>) {
    v.JStr? && v.s in words
  }

  predicate Unhashable(v: Json) {
    v.JList? || v.JObj?
  }

  predicate IsSha(v: Json) {
    v.JStr? && |v.s| == 64 && forall i :: 0 <= i < 64 ==> '0' <= v.s[i] <= '9' || 'a' <= v.s[i] <= 'f'
  }

  // ---------- evidence records ----------

  function RecordHead(name: string, id: Option<string>, r: Object): seq<RecordProblem> {
    When(REQUIRED_RECORD_FIELDS - r.Keys != {}, AbsentFields(REQUIRED_RECORD_FIELDS - r.Keys))
    + When(id.Some? && id.value != "" && Get(r, "blocker_id") != JStr(id.value), WrongId)
    + When(Get(r, "artifact_name") != JStr(name), WrongArtifact)
    + When(Get(r, "linked_release_gate") != JStr("board_fabrication_release"), WrongGate)
    + When(Get(r, "supersedes_placeholder") != JBool(true), NotSuperseding)
    + When(!Allowed(Get(r, "acceptance_status"), ACCEPTED_STATUS), NotAccepted)
  }

  function RecordContent(w: World, source: string, sha: Json): seq<RecordProblem> {
    When(w.marked(source), Marked)
    + if !IsSha(sha) then [BadSha] else When(w.digest(source) != sha.s, WrongSha)
  }

  function RecordSource(w: World, globs: seq<string>, r: Object): seq<RecordProblem> {
    var source := Get(r, "source_path");
    if !NonEmptyStr(source) then [NoSource]
    else
      When(!w.relative(source.s), SourceNotRelative) + When(w.forbidden(source.s), ForbiddenPart)
      + When(!w.matches(source.s, globs), OutsideGlobs)
      + if w.placeholder(source.s) then [PlaceholderSource]
        else if !w.isFile(source.s) then [SourceMissing]
        else RecordContent(w, source.s, Get(r, "sha256"))
  }

  function RecordProblems(w: World, name: string, id: Option<string>, globs: seq<string>, record: Json): seq<RecordProblem> {
    if !record.JObj? then [RecordNotMapping]
    else RecordHead(name, id, record.fields) + RecordSource(w, globs, record.fields)
  }

  function Tag(field: string, index: nat, ps: seq<RecordProblem>): (r: seq<Failure>)
    ensures r == [] <==> ps == []
  {
    if ps == [] then [] else Tag(field, index, ps[..|ps| - 1]) + [Failure(field, Record(index, ps[|ps| - 1]))]
  }

  function EachRecord(w: World, field: string, name: string, id: Option<string>, globs: seq<string>, records: seq<Json>): seq<Failure> {
    if records == [] then []
    else
      var n := |records| - 1;
      EachRecord(w, field, name, id, globs, records[..n]) + Tag(field, n, RecordProblems(w, name, id, globs, records[n]))
  }

  function Records(w: World, field: string, name: string, id: Option<string>, globs: seq<string>, records: Json, required: bool): seq<Failure> {
    if records == JNull then When(required, Failure(field, NoRecords))
    else if !records.JList? then [Failure(field, RecordsNotList)]
    else if required && records.items == [] then [Failure(field, RecordsEmpty)]
    else EachRecord(w, field, name, id, globs, records.items)
  }

  /** A status that cannot be looked up in a set raises. */
  predicate RecordRaises(record: Json) {
    record.JObj? && Unhashable(Get(record.fields, "acceptance_status"))
  }

  predicate RecordsRaise(records: Json) {
    records.JList? && exists r :: r in records.items && RecordRaises(r)
  }

  // ---------- artifacts ----------

  function NameOf(a: Object): string {
    if NonEmptyStr(Get(a, "name")) then Get(a, "name").s else "unnamed"
  }

  function FieldOf(group: string, a: Object): string {
    group + "." + NameOf(a)
  }

  predicate IsComplete(a: Object) {
    Get(a, "status") == JStr("complete")
  }

  function GlobsOf(a: Object): seq<string> {
    StringList(Get(a, "globs"))
  }

  /** The name and the status. */
  function Identity(group: string, a: Object): seq<Failure> {
    When(!NonEmptyStr(Get(a, "name")), Failure(group, NoName))
    + When(!Allowed(Get(a, "status"), ALLOWED_STATUS), Failure(FieldOf(group, a), BadStatus))
  }

  function BadPaths(w: World, field: string, paths: seq<string>): (r: seq<Failure>)
    ensures r == [] <==> forall p :: p in paths ==> w.relative(p)
  {
    if paths == [] then []
    else
      var n := |paths| - 1;
      assert paths == paths[..n] + [paths[n]];
      BadPaths(w, field, paths[..n]) + When(!w.relative(paths[n]), Failure(field, BadPath(paths[n])))
  }

  function Globs(w: World, field: string, a: Object): seq<Failure> {
    When(GlobsOf(a) == [], Failure(field, NoGlobs)) + BadPaths(w, field, GlobsOf(a))
  }

  function MetadataOf(a: Object): Object {
    var metadata := GetOr(a, "metadata", JObj(map[]));
    if metadata.JObj? then metadata.fields else map[]
  }

  predicate DigestFaulty(metadata: Object, key: string) {
    key in metadata && |key| >= 7 && key[|key| - 7..] == "_sha256" && !IsSha(metadata[key])
  }

  function BadDigests(field: string, metadata: Object, keys: seq<string>): (r: seq<Failure>)
    ensures r == [] <==> forall k :: k in keys ==> !DigestFaulty(metadata, k)
  {
    if keys == [] then []
    else
      var n := |keys| - 1;
      assert keys == keys[..n] + [keys[n]];
      BadDigests(field, metadata, keys[..n]) + When(DigestFaulty(metadata, keys[n]), Failure(field, BadDigest(keys[n])))
  }

  function AbsentKeys(a: Object): set<string> {
    (set k | k in StringList(GetOr(a, "required_metadata", JList([])))) - MetadataOf(a).Keys
  }

  predicate BadMetadataField(a: Object) {
    var metadata := GetOr(a, "metadata", JObj(map[]));
    Truthy(metadata) && !metadata.JObj?
  }

  predicate BadRequiredField(a: Object) {
    var required := GetOr(a, "required_metadata", JList([]));
    Truthy(required) && StringList(required) == []
  }

  function MetadataShape(w: World, field: string, a: Object): seq<Failure> {
    When(BadMetadataField(a), Failure(field, BadMetadata)) + When(BadRequiredField(a), Failure(field, BadRequired))
    + BadDigests(field, MetadataOf(a), w.order(MetadataOf(a)))
  }

  function RequiredMetadata(field: string, a: Object, release: bool): seq<Failure> {
    When((release || IsComplete(a)) && AbsentKeys(a) != {}, Failure(field, AbsentMetadata(AbsentKeys(a))))
  }

  function IdOf(a: Object): Option<string> {
    var id := Get(a, "release_blocker_id");
    if id.JStr? then Some(id.s) else None
  }

  function BlockerId(field: string, a: Object, release: bool, ids: set<string>): seq<Failure> {
    var id := Get(a, "release_blocker_id");
    if id == JNull then When(release || !IsComplete(a), Failure(field, NoId))
    else if !NonEmptyStr(id) then [Failure(field, BadId)]
    else When(id.s in ids, Failure(field, RepeatedId(id.s)))
  }

  function Blocker(field: string, a: Object, release: bool, ids: set<string>): seq<Failure> {
    var blocker := Get(a, "release_blocker");
    When(blocker != JNull && !NonEmptyStr(blocker), Failure(field, BadBlocker))
    + BlockerId(field, a, release, ids)
    + When(!NonEmptyStr(blocker), Failure(field, NoBlocker))
  }

  /** No pattern, no file. */
  predicate HasFiles(w: World, globs: seq<string>) {
    globs != [] && w.hasFiles(globs)
  }

  function Files(w: World, field: string, a: Object): seq<Failure> {
    When(Get(a, "status") == JStr("missing") && HasFiles(w, GlobsOf(a)), Failure(field, UnexpectedFiles))
    + When(IsComplete(a) && !HasFiles(w, GlobsOf(a)), Failure(field, LacksFiles))
  }

  function ReleaseOnly(w: World, field: string, a: Object, release: bool): seq<Failure> {
    if release then
      When(!IsComplete(a), Failure(field, NotComplete)) + When(!HasFiles(w, GlobsOf(a)), Failure(field, NotReleased))
    else []
  }

  /** What `validate_artifact` appends to the failures. */
  function ArtifactFailures(w: World, group: string, artifact: Json, release: bool, ids: set<string>): seq<Failure> {
    if !artifact.JObj? then [Failure(group, NotMapping)]
    else
      var a := artifact.fields;
      var field := FieldOf(group, a);
      Identity(group, a) + Globs(w, field, a) + MetadataShape(w, field, a) + RequiredMetadata(field, a, release)
      + Blocker(field, a, release, ids) + Files(w, field, a)
      + Records(w, field, NameOf(a), IdOf(a), GlobsOf(a), Get(a, "evidence_records"), IsComplete(a))
      + ReleaseOnly(w, field, a, release)
  }

  /** The identifier that an artifact adds to the shared set. */
  function NewIds(artifact: Json): seq<string> {
    if artifact.JObj? && NonEmptyStr(Get(artifact.fields, "release_blocker_id"))
    then [Get(artifact.fields, "release_blocker_id").s] else []
  }

  /** What it appends to the release blockers. */
  function ArtifactBlockers(w: World, artifact: Json, release: bool): seq<string> {
    if !artifact.JObj? || !release then []
    else
      var a := artifact.fields;
      var blocker, id := Get(a, "release_blocker"), Get(a, "release_blocker_id");
      When(NonEmptyStr(blocker) && (!IsComplete(a) || !HasFiles(w, GlobsOf(a))),
           (if NonEmptyStr(id) then id.s + ": " else "") + Str(blocker))
  }

  predicate ArtifactRaises(artifact: Json) {
    artifact.JObj? && (Unhashable(Get(artifact.fields, "status")) || RecordsRaise(Get(artifact.fields, "evidence_records")))
  }

  // ---------- groups ----------

  function ToSet(ids: seq<string>): set<string> {
    set id | id in ids
  }

  function ItemsFailures(w: World, group: string, items: seq<Json>, release: bool, ids: set<string>): seq<Failure>
    decreases items
  {
    if items == [] then []
    else ArtifactFailures(w, group, items[0], release, ids) + ItemsFailures(w, group, items[1..], release, ids + ToSet(NewIds(items[0])))
  }

  function ItemsIds(items: seq<Json>): seq<string> {
    if items == [] then [] else NewIds(items[0]) + ItemsIds(items[1..])
  }

  function ItemsBlockers(w: World, items: seq<Json>, release: bool): seq<string> {
    if items == [] then [] else ArtifactBlockers(w, items[0], release) + ItemsBlockers(w, items[1..], release)
  }

  /** The artifacts of a group that are looked at. */
  function GroupItems(group: Json): seq<Json> {
    if group.JObj? && Get(group.fields, "artifacts").JList? then Get(group.fields, "artifacts").items else []
  }

  function Prefixed(name: string): string {
    "artifact_groups." + name
  }

  function GroupFailures(w: World, name: string, group: Json, release: bool, ids: set<string>): seq<Failure> {
    var field := Prefixed(name);
    if !group.JObj? then [Failure(field, NotMapping)]
    else
      var status := Get(group.fields, "status");
      When(!Allowed(status, ALLOWED_STATUS), Failure(field, GroupStatus))
      + When(release && status != JStr("complete"), Failure(field, GroupIncomplete))
      + if GroupItems(group) == [] then [Failure(field, NoArtifacts)]
        else ItemsFailures(w, field, GroupItems(group), release, ids)
  }

  function GroupsFailures(w: World, names: seq<string>, groups: Object, release: bool, ids: set<string>): seq<Failure>
    decreases names
  {
    if names == [] then []
    else
      var group := Get(groups, names[0]);
      GroupFailures(w, names[0], group, release, ids)
      + GroupsFailures(w, names[1..], groups, release, ids + ToSet(ItemsIds(GroupItems(group))))
  }

  function GroupsIds(names: seq<string>, groups: Object): seq<string> {
    if names == [] then [] else ItemsIds(GroupItems(Get(groups, names[0]))) + GroupsIds(names[1..], groups)
  }

  function GroupsBlockers(w: World, names: seq<string>, groups: Object, release: bool): seq<string> {
    if names == [] then []
    else ItemsBlockers(w, GroupItems(Get(groups, names[0])), release) + GroupsBlockers(w, names[1..], groups, release)
  }

  predicate GroupRaises(group: Json) {
    && group.JObj?
    && (Unhashable(Get(group.fields, "status")) || exists a :: a in GroupItems(group) && ArtifactRaises(a))
  }

  // ---------- the manifest ----------

  function Header(m: Object): seq<Failure> {
    var policy := Get(m, "policy");
    When(Get(m, "status") != JStr("release_blocked"), Failure("manifest", HeaderStatus))
    + When(Get(m, "release_gate") != JStr("board_fabrication_release"), Failure("manifest", HeaderGate))
    + When(Get(m, "schema") != JStr("openagent.board_package_evidence.v1"), Failure("manifest", HeaderSchema))
    + When(!policy.JObj? || !Get(policy.fields, "preflight").JStr? || !Get(policy.fields, "release").JStr?, Failure("manifest", HeaderPolicy))
  }

  /** The groups of a manifest, or none where the field is no mapping. */
  function GroupsOf(m: Object): Object {
    var groups := Get(m, "artifact_groups");
    if groups.JObj? then groups.fields else map[]
  }

  function GroupNames(w: World, m: Object): seq<string> {
    if GroupsOf(m) == map[] then [] else w.order(GroupsOf(m))
  }

  function BlockerIds(w: World, m: Object): seq<string> {
    GroupsIds(GroupNames(w, m), GroupsOf(m))
  }

  function AllGroups(w: World, m: Object, release: bool): seq<Failure> {
    if GroupsOf(m) == map[] then [Failure("manifest", NoGroups)]
    else
      var absent := REQUIRED_BLOCKER_IDS - ToSet(BlockerIds(w, m));
      GroupsFailures(w, GroupNames(w, m), GroupsOf(m), release, {}) + When(absent != {}, Failure("manifest", MissingIds(absent)))
  }

  /** What `validate_manifest` returns. */
  function Failures(w: World, file: ManifestFile, release: bool): seq<Failure> {
    match file
    case Absent => [Failure("manifest", NoFile)]
    case Unparsable => [Failure("manifest", BadYaml)]
    case Loaded(v) =>
      if !v.JObj? then [Failure("manifest", NotMapping)]
      else Header(v.fields) + w.others(v.fields) + AllGroups(w, v.fields, release)
  }

  function ReleaseBlockers(w: World, file: ManifestFile, release: bool): seq<string> {
    if file.Loaded? && file.value.JObj?
    then GroupsBlockers(w, GroupNames(w, file.value.fields), GroupsOf(file.value.fields), release) else []
  }

  predicate Raises(w: World, file: ManifestFile) {
    file.Loaded? && file.value.JObj?
    && exists name :: name in GroupNames(w, file.value.fields) && GroupRaises(Get(GroupsOf(file.value.fields), name))
  }
}
