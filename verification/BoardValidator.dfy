/** The validators that fill the shared lists: `validate_manifest` and what it calls. */
module BoardValidator {
  import opened Json
  import opened BoardEvidence

  lemma Assoc<T>(a: seq<T>, b: seq<T>, c: seq<T>)
    ensures (a + b) + c == a + (b + c)
  {
  }

  lemma Unit<T>(a: seq<T>)
    ensures a + [] == a && [] + a == a
  {
  }

  /** The two lists and the set that the nested validators share. */
  class Findings {
    var failures: seq<Failure>
    var releaseBlockers: seq<string>
    var blockerIds: set<string>

    constructor ()
      ensures failures == [] && releaseBlockers == [] && blockerIds == {}
    {
      failures, releaseBlockers, blockerIds := [], [], {};
    }

    /** One conditional `failures.append`. */
    method Note(c: bool, f: Failure, ghost given: seq<Failure>, ghost parts: seq<Failure>)
      requires failures == given + parts
      modifies this`failures
      ensures failures == given + (parts + When(c, f))
    {
      Assoc(given, parts, When(c, f));
      Unit(parts);
      if c {
        failures := failures + [f];
      }
    }

    method NoteRecord(c: bool, field: string, index: nat, p: RecordProblem, ghost given: seq<Failure>, ghost ps: seq<RecordProblem>)
      requires failures == given + Tag(field, index, ps)
      modifies this`failures
      ensures failures == given + Tag(field, index, ps + When(c, p))
    {
      if c {
        assert (ps + [p])[..|ps|] == ps;
        Assoc(given, Tag(field, index, ps), [Failure(field, Record(index, p))]);
        failures := failures + [Failure(field, Record(index, p))];
      } else {
        Unit(ps);
      }
    }

    method ValidateRecordHead(field: string, index: nat, name: string, id: Option<string>, r: Object)
      modifies this`failures
      ensures failures == old(failures) + Tag(field, index, RecordHead(name, id, r))
    {
      hide Tag;
      ghost var given, ps: seq<RecordProblem> := failures, [];
      TagNothing(field, index);
      Unit(given);
      var absent := REQUIRED_RECORD_FIELDS - r.Keys;
      NoteRecord(absent != {}, field, index, AbsentFields(absent), given, ps);
      Unit(When(absent != {}, AbsentFields(absent)));
      ps := When(absent != {}, AbsentFields(absent));
      var c := id.Some? && id.value != "" && Get(r, "blocker_id") != JStr(id.value);
      NoteRecord(c, field, index, WrongId, given, ps);
      ps := ps + When(c, WrongId);
      c := Get(r, "artifact_name") != JStr(name);
      NoteRecord(c, field, index, WrongArtifact, given, ps);
      ps := ps + When(c, WrongArtifact);
      c := Get(r, "linked_release_gate") != JStr("board_fabrication_release");
      NoteRecord(c, field, index, WrongGate, given, ps);
      ps := ps + When(c, WrongGate);
      c := Get(r, "supersedes_placeholder") != JBool(true);
      NoteRecord(c, field, index, NotSuperseding, given, ps);
      ps := ps + When(c, NotSuperseding);
      c := !Allowed(Get(r, "acceptance_status"), ACCEPTED_STATUS);
      NoteRecord(c, field, index, NotAccepted, given, ps);
    }

    method ValidateRecordContent(w: World, field: string, index: nat, source: string, sha: Json,
                                 ghost given: seq<Failure>, ghost ps: seq<RecordProblem>)
      requires failures == given + Tag(field, index, ps)
      modifies this`failures
      ensures failures == given + Tag(field, index, ps + RecordContent(w, source, sha))
    {
      hide Tag;
      NoteRecord(w.marked(source), field, index, Marked, given, ps);
      ghost var now := ps + When(w.marked(source), Marked);
      if !IsSha(sha) {
        NoteRecord(true, field, index, BadSha, given, now);
      } else {
        NoteRecord(w.digest(source) != sha.s, field, index, WrongSha, given, now);
      }
      Assoc(ps, When(w.marked(source), Marked), if !IsSha(sha) then [BadSha] else When(w.digest(source) != sha.s, WrongSha));
    }

    method ValidateRecordSource(w: World, field: string, index: nat, globs: seq<string>, r: Object,
                                ghost given: seq<Failure>, ghost head: seq<RecordProblem>)
      requires failures == given + Tag(field, index, head)
      modifies this`failures
      ensures failures == given + Tag(field, index, head + RecordSource(w, globs, r))
    {
      hide Tag;
      var source := Get(r, "source_path");
      if !NonEmptyStr(source) {
        NoteRecord(true, field, index, NoSource, given, head);
        return;
      }
      var path := source.s;
      ghost var first, second, third :=
        When(!w.relative(path), SourceNotRelative), When(w.forbidden(path), ForbiddenPart), When(!w.matches(path, globs), OutsideGlobs);
      NoteRecord(!w.relative(path), field, index, SourceNotRelative, given, head);
      NoteRecord(w.forbidden(path), field, index, ForbiddenPart, given, head + first);
      NoteRecord(!w.matches(path, globs), field, index, OutsideGlobs, given, head + first + second);
      ghost var now := head + first + second + third;
      if w.placeholder(path) {
        NoteRecord(true, field, index, PlaceholderSource, given, now);
        FiveParts(head, first, second, third, [PlaceholderSource]);
      } else if !w.isFile(path) {
        NoteRecord(true, field, index, SourceMissing, given, now);
        FiveParts(head, first, second, third, [SourceMissing]);
      } else {
        ValidateRecordContent(w, field, index, path, Get(r, "sha256"), given, now);
        FiveParts(head, first, second, third, RecordContent(w, path, Get(r, "sha256")));
      }
    }

    /** The body of the loop over evidence records; it raises on a status that cannot be hashed. */
    method ValidateRecord(w: World, field: string, index: nat, name: string, id: Option<string>, globs: seq<string>, record: Json)
      returns (ok: bool)
      modifies this`failures
      ensures ok <==> !RecordRaises(record)
      ensures ok ==> failures == old(failures) + Tag(field, index, RecordProblems(w, name, id, globs, record))
    {
      ghost var given := failures;
      if !record.JObj? {
        Unit(given);
        NoteRecord(true, field, index, RecordNotMapping, given, []);
        return true;
      }
      hide Tag, RecordHead, RecordSource;
      if Unhashable(Get(record.fields, "acceptance_status")) {
        return false;
      }
      ValidateRecordHead(field, index, name, id, record.fields);
      ValidateRecordSource(w, field, index, globs, record.fields, given, RecordHead(name, id, record.fields));
      ok := true;
    }

    /** `validate_evidence_records` */
    method ValidateEvidenceRecords(w: World, field: string, name: string, id: Option<string>, globs: seq<string>, records: Json, required: bool)
      returns (ok: bool)
      modifies this`failures
      ensures ok <==> !RecordsRaise(records)
      ensures ok ==> failures == old(failures) + Records(w, field, name, id, globs, records, required)
    {
      ghost var given := failures;
      ok := true;
      Unit(given);
      if records == JNull {
        Note(required, Failure(field, NoRecords), given, []);
        Unit(When(required, Failure(field, NoRecords)));
      } else if !records.JList? {
        failures := failures + [Failure(field, RecordsNotList)];
      } else if required && records.items == [] {
        failures := failures + [Failure(field, RecordsEmpty)];
      } else {
        ok := ValidateEach(w, field, name, id, globs, records.items);
      }
    }

    method ValidateEach(w: World, field: string, name: string, id: Option<string>, globs: seq<string>, records: seq<Json>)
      returns (ok: bool)
      modifies this`failures
      ensures ok <==> !exists r :: r in records && RecordRaises(r)
      ensures ok ==> failures == old(failures) + EachRecord(w, field, name, id, globs, records)
    {
      hide RecordProblems, Tag, RecordRaises;
      ghost var given := failures;
      Unit(given);
      for k := 0 to |records|
        invariant forall r :: r in records[..k] ==> !RecordRaises(r)
        invariant failures == given + EachRecord(w, field, name, id, globs, records[..k])
      {
        assert records[..k + 1] == records[..k] + [records[k]];
        assert records[..k + 1][..k] == records[..k];
        ok := ValidateRecord(w, field, k, name, id, globs, records[k]);
        if !ok {
          assert records[k] in records;
          return;
        }
        Assoc(given, EachRecord(w, field, name, id, globs, records[..k]), Tag(field, k, RecordProblems(w, name, id, globs, records[k])));
      }
      assert records[..|records|] == records;
      ok := true;
    }

    // ---------- artifacts ----------

    method ValidateGlobs(w: World, field: string, a: Object)
      modifies this`failures
      ensures failures == old(failures) + Globs(w, field, a)
    {
      ghost var given := failures;
      var globs := GlobsOf(a);
      Unit(given);
      Note(globs == [], Failure(field, NoGlobs), given, []);
      ghost var first := When(globs == [], Failure(field, NoGlobs));
      Unit(first);
      assert globs[..0] == [];
      for i := 0 to |globs|
        invariant failures == given + (first + BadPaths(w, field, globs[..i]))
      {
        hide BadPaths;
        PathStep(w, field, globs, i);
        ghost var done := BadPaths(w, field, globs[..i]);
        Note(!w.relative(globs[i]), Failure(field, BadPath(globs[i])), given, first + done);
        Assoc(first, done, When(!w.relative(globs[i]), Failure(field, BadPath(globs[i]))));
      }
      assert globs[..|globs|] == globs;
    }

    method ValidateMetadata(w: World, field: string, a: Object, release: bool)
      modifies this`failures
      ensures failures == old(failures) + (MetadataShape(w, field, a) + RequiredMetadata(field, a, release))
    {
      ghost var given := failures;
      Unit(given);
      ghost var first, second :=
        When(BadMetadataField(a), Failure(field, BadMetadata)), When(BadRequiredField(a), Failure(field, BadRequired));
      Note(BadMetadataField(a), Failure(field, BadMetadata), given, []);
      Unit(first);
      Note(BadRequiredField(a), Failure(field, BadRequired), given, first);
      var metadata := MetadataOf(a);
      var keys := w.order(metadata);
      Unit(first + second);
      assert keys[..0] == [];
      for i := 0 to |keys|
        invariant failures == given + (first + second + BadDigests(field, metadata, keys[..i]))
      {
        hide BadDigests, DigestFaulty;
        DigestStep(field, metadata, keys, i);
        ghost var done := BadDigests(field, metadata, keys[..i]);
        Note(DigestFaulty(metadata, keys[i]), Failure(field, BadDigest(keys[i])), given, first + second + done);
        Assoc(first + second, done, When(DigestFaulty(metadata, keys[i]), Failure(field, BadDigest(keys[i]))));
      }
      assert keys[..|keys|] == keys;
      Note((release || IsComplete(a)) && AbsentKeys(a) != {}, Failure(field, AbsentMetadata(AbsentKeys(a))), given, MetadataShape(w, field, a));
    }

    method ValidateBlocker(field: string, a: Object, release: bool)
      modifies this`failures, this`blockerIds
      ensures failures == old(failures) + Blocker(field, a, release, old(blockerIds))
      ensures blockerIds == old(blockerIds) + ToSet(NewIds(JObj(a)))
    {
      ghost var given, ids := failures, blockerIds;
      var blocker, id := Get(a, "release_blocker"), Get(a, "release_blocker_id");
      Unit(given);
      var bad := blocker != JNull && !NonEmptyStr(blocker);
      Note(bad, Failure(field, BadBlocker), given, []);
      ghost var first := When(bad, Failure(field, BadBlocker));
      Unit(first);
      if id != JNull {
        if !NonEmptyStr(id) {
          Note(true, Failure(field, BadId), given, first);
        } else {
          Note(id.s in blockerIds, Failure(field, RepeatedId(id.s)), given, first);
          blockerIds := blockerIds + {id.s};
        }
      } else {
        Note(release || !IsComplete(a), Failure(field, NoId), given, first);
      }
      Note(!NonEmptyStr(blocker), Failure(field, NoBlocker), given, first + BlockerId(field, a, release, ids));
    }

    method ValidateFiles(w: World, field: string, a: Object)
      modifies this`failures
      ensures failures == old(failures) + Files(w, field, a)
    {
      ghost var given := failures;
      Unit(given);
      var early := Get(a, "status") == JStr("missing") && HasFiles(w, GlobsOf(a));
      Note(early, Failure(field, UnexpectedFiles), given, []);
      Unit(When(early, Failure(field, UnexpectedFiles)));
      Note(IsComplete(a) && !HasFiles(w, GlobsOf(a)), Failure(field, LacksFiles), given, When(early, Failure(field, UnexpectedFiles)));
    }

    /** The branch for a release. */
    method ValidateRelease(w: World, field: string, a: Object, release: bool)
      modifies this`failures, this`releaseBlockers
      ensures failures == old(failures) + ReleaseOnly(w, field, a, release)
      ensures releaseBlockers == old(releaseBlockers) + ArtifactBlockers(w, JObj(a), release)
    {
      ghost var given := failures;
      Unit(given);
      if release {
        var blocker, id := Get(a, "release_blocker"), Get(a, "release_blocker_id");
        if NonEmptyStr(blocker) && (!IsComplete(a) || !HasFiles(w, GlobsOf(a))) {
          if NonEmptyStr(id) {
            releaseBlockers := releaseBlockers + [id.s + ": " + blocker.s];
          } else {
            assert "" + blocker.s == blocker.s;
            releaseBlockers := releaseBlockers + [blocker.s];
          }
        }
        Note(!IsComplete(a), Failure(field, NotComplete), given, []);
        Unit(When(!IsComplete(a), Failure(field, NotComplete)));
        Note(!HasFiles(w, GlobsOf(a)), Failure(field, NotReleased), given, When(!IsComplete(a), Failure(field, NotComplete)));
      }
    }

    method ValidateIdentity(group: string, a: Object)
      modifies this`failures
      ensures failures == old(failures) + Identity(group, a)
    {
      ghost var given := failures;
      Unit(given);
      var unnamed := !NonEmptyStr(Get(a, "name"));
      Note(unnamed, Failure(group, NoName), given, []);
      Unit(When(unnamed, Failure(group, NoName)));
      Note(!Allowed(Get(a, "status"), ALLOWED_STATUS), Failure(FieldOf(group, a), BadStatus), given, When(unnamed, Failure(group, NoName)));
    }

    /** `validate_artifact` */
    method ValidateArtifact(w: World, group: string, artifact: Json, release: bool) returns (ok: bool)
      modifies this
      ensures ok <==> !ArtifactRaises(artifact)
      ensures ok ==> failures == old(failures) + ArtifactFailures(w, group, artifact, release, old(blockerIds))
      ensures ok ==> blockerIds == old(blockerIds) + ToSet(NewIds(artifact))
      ensures ok ==> releaseBlockers == old(releaseBlockers) + ArtifactBlockers(w, artifact, release)
    {
      hide Identity, Globs, MetadataShape, RequiredMetadata, Blocker, Files, Records, ReleaseOnly, ArtifactBlockers, NewIds,
        RecordsRaise, ToSet, Get, NameOf, IdOf, GlobsOf, FieldOf, IsComplete, Unhashable;
      if !artifact.JObj? {
        NothingFromNonMapping(w, artifact, release);
        Unit(releaseBlockers);
        failures := failures + [Failure(group, NotMapping)];
        return true;
      }
      var a := artifact.fields;
      var field := FieldOf(group, a);
      if Unhashable(Get(a, "status")) {
        return false;
      }
      ghost var given, ids := failures, blockerIds;
      ValidateIdentity(group, a);
      ValidateGlobs(w, field, a);
      ValidateMetadata(w, field, a, release);
      ValidateBlocker(field, a, release);
      ValidateFiles(w, field, a);
      ok := ValidateEvidenceRecords(w, field, NameOf(a), IdOf(a), GlobsOf(a), Get(a, "evidence_records"), IsComplete(a));
      if ok {
        ValidateRelease(w, field, a, release);
        AllParts(given, Identity(group, a), Globs(w, field, a), MetadataShape(w, field, a), RequiredMetadata(field, a, release),
                 Blocker(field, a, release, ids), Files(w, field, a),
                 Records(w, field, NameOf(a), IdOf(a), GlobsOf(a), Get(a, "evidence_records"), IsComplete(a)),
                 ReleaseOnly(w, field, a, release));
      }
    }

    // ---------- groups ----------

    method ValidateItems(w: World, group: string, items: seq<Json>, release: bool) returns (ok: bool)
      modifies this
      ensures ok <==> !exists a :: a in items && ArtifactRaises(a)
      ensures ok ==> failures == old(failures) + ItemsFailures(w, group, items, release, old(blockerIds))
      ensures ok ==> blockerIds == old(blockerIds) + ToSet(ItemsIds(items))
      ensures ok ==> releaseBlockers == old(releaseBlockers) + ItemsBlockers(w, items, release)
    {
      hide ArtifactFailures, ArtifactBlockers, NewIds, ArtifactRaises;
      ghost var allFailures := failures + ItemsFailures(w, group, items, release, blockerIds);
      ghost var allIds := blockerIds + ToSet(ItemsIds(items));
      ghost var allBlockers := releaseBlockers + ItemsBlockers(w, items, release);
      for i := 0 to |items|
        invariant forall a :: a in items[..i] ==> !ArtifactRaises(a)
        invariant failures + ItemsFailures(w, group, items[i..], release, blockerIds) == allFailures
        invariant blockerIds + ToSet(ItemsIds(items[i..])) == allIds
        invariant releaseBlockers + ItemsBlockers(w, items[i..], release) == allBlockers
      {
        assert items[..i + 1] == items[..i] + [items[i]];
        assert items[i..][0] == items[i] && items[i..][1..] == items[i + 1..];
        ghost var before, ids, blockers := failures, blockerIds, releaseBlockers;
        ok := ValidateArtifact(w, group, items[i], release);
        if !ok {
          assert items[i] in items;
          return;
        }
        Assoc(before, ArtifactFailures(w, group, items[i], release, ids), ItemsFailures(w, group, items[i + 1..], release, blockerIds));
        Assoc(blockers, ArtifactBlockers(w, items[i], release), ItemsBlockers(w, items[i + 1..], release));
      }
      assert items[|items|..] == [] && items[..|items|] == items;
      Unit(failures);
      Unit(releaseBlockers);
      ok := true;
    }

    method ValidateGroup(w: World, name: string, group: Json, release: bool) returns (ok: bool)
      modifies this
      ensures ok <==> !GroupRaises(group)
      ensures ok ==> failures == old(failures) + GroupFailures(w, name, group, release, old(blockerIds))
      ensures ok ==> blockerIds == old(blockerIds) + ToSet(ItemsIds(GroupItems(group)))
      ensures ok ==> releaseBlockers == old(releaseBlockers) + ItemsBlockers(w, GroupItems(group), release)
    {
      hide ItemsFailures, ArtifactRaises;
      var field := Prefixed(name);
      ghost var given := failures;
      ok := true;
      Unit(given);
      if !group.JObj? {
        failures := failures + [Failure(field, NotMapping)];
        return;
      }
      var status := Get(group.fields, "status");
      if Unhashable(status) {
        return false;
      }
      ghost var first, second :=
        When(!Allowed(status, ALLOWED_STATUS), Failure(field, GroupStatus)),
        When(release && status != JStr("complete"), Failure(field, GroupIncomplete));
      Note(!Allowed(status, ALLOWED_STATUS), Failure(field, GroupStatus), given, []);
      Unit(first);
      Note(release && status != JStr("complete"), Failure(field, GroupIncomplete), given, first);
      var items := GroupItems(group);
      if items == [] {
        Note(true, Failure(field, NoArtifacts), given, first + second);
      } else {
        ghost var ids := blockerIds;
        ok := ValidateItems(w, field, items, release);
        Assoc(given, first + second, ItemsFailures(w, field, items, release, ids));
      }
    }

    method ValidateGroups(w: World, names: seq<string>, groups: Object, release: bool) returns (ok: bool)
      modifies this
      ensures ok <==> !exists n :: n in names && GroupRaises(Get(groups, n))
      ensures ok ==> failures == old(failures) + GroupsFailures(w, names, groups, release, old(blockerIds))
      ensures ok ==> blockerIds == old(blockerIds) + ToSet(GroupsIds(names, groups))
      ensures ok ==> releaseBlockers == old(releaseBlockers) + GroupsBlockers(w, names, groups, release)
    {
      hide GroupFailures, ItemsBlockers, ItemsIds, GroupRaises, GroupItems, Get;
      ghost var allFailures := failures + GroupsFailures(w, names, groups, release, blockerIds);
      ghost var allIds := blockerIds + ToSet(GroupsIds(names, groups));
      ghost var allBlockers := releaseBlockers + GroupsBlockers(w, names, groups, release);
      for i := 0 to |names|
        invariant forall n :: n in names[..i] ==> !GroupRaises(Get(groups, n))
        invariant failures + GroupsFailures(w, names[i..], groups, release, blockerIds) == allFailures
        invariant blockerIds + ToSet(GroupsIds(names[i..], groups)) == allIds
        invariant releaseBlockers + GroupsBlockers(w, names[i..], groups, release) == allBlockers
      {
        assert names[..i + 1] == names[..i] + [names[i]];
        assert names[i..][0] == names[i] && names[i..][1..] == names[i + 1..];
        ghost var before, ids, blockers := failures, blockerIds, releaseBlockers;
        var group := Get(groups, names[i]);
        ok := ValidateGroup(w, names[i], group, release);
        if !ok {
          assert names[i] in names;
          return;
        }
        Assoc(before, GroupFailures(w, names[i], group, release, ids), GroupsFailures(w, names[i + 1..], groups, release, blockerIds));
        Assoc(blockers, ItemsBlockers(w, GroupItems(group), release), GroupsBlockers(w, names[i + 1..], groups, release));
      }
      assert names[|names|..] == [] && names[..|names|] == names;
      Unit(failures);
      Unit(releaseBlockers);
      ok := true;
    }

    method ValidateHeader(m: Object)
      modifies this`failures
      ensures failures == old(failures) + Header(m)
    {
      ghost var given := failures;
      Unit(given);
      var c := Get(m, "status") != JStr("release_blocked");
      Note(c, Failure("manifest", HeaderStatus), given, []);
      ghost var parts := When(c, Failure("manifest", HeaderStatus));
      Unit(parts);
      c := Get(m, "release_gate") != JStr("board_fabrication_release");
      Note(c, Failure("manifest", HeaderGate), given, parts);
      parts := parts + When(c, Failure("manifest", HeaderGate));
      c := Get(m, "schema") != JStr("openagent.board_package_evidence.v1");
      Note(c, Failure("manifest", HeaderSchema), given, parts);
      parts := parts + When(c, Failure("manifest", HeaderSchema));
      var policy := Get(m, "policy");
      c := !policy.JObj? || !Get(policy.fields, "preflight").JStr? || !Get(policy.fields, "release").JStr?;
      Note(c, Failure("manifest", HeaderPolicy), given, parts);
    }
  }

  lemma PathStep(w: World, field: string, paths: seq<string>, i: nat)
    requires i < |paths|
    ensures BadPaths(w, field, paths[..i + 1]) ==
            BadPaths(w, field, paths[..i]) + When(!w.relative(paths[i]), Failure(field, BadPath(paths[i])))
  {
    assert paths[..i + 1][..i] == paths[..i];
  }

  lemma DigestStep(field: string, metadata: Object, keys: seq<string>, i: nat)
    requires i < |keys|
    ensures BadDigests(field, metadata, keys[..i + 1]) ==
            BadDigests(field, metadata, keys[..i]) + When(DigestFaulty(metadata, keys[i]), Failure(field, BadDigest(keys[i])))
  {
    assert keys[..i + 1][..i] == keys[..i];
  }

  lemma NothingFromNonMapping(w: World, artifact: Json, release: bool)
    ensures !artifact.JObj? ==> NewIds(artifact) == [] && ToSet(NewIds(artifact)) == {} && ArtifactBlockers(w, artifact, release) == []
  {
  }

  lemma TagNothing(field: string, index: nat)
    ensures Tag(field, index, []) == []
  {
  }

  lemma FiveParts<T>(h: seq<T>, a: seq<T>, b: seq<T>, c: seq<T>, d: seq<T>)
    ensures h + a + b + c + d == h + (a + b + c + d)
  {
  }

  lemma AllParts<T>(g: seq<T>, a: seq<T>, b: seq<T>, c: seq<T>, d: seq<T>, e: seq<T>, f: seq<T>, h: seq<T>, i: seq<T>)
    ensures g + a + b + (c + d) + e + f + h + i == g + (a + b + c + d + e + f + h + i)
  {
    var front := a + b + c + d;
    FiveParts(g, a, b, c, d);
    Assoc(g + a + b, c, d);
    FiveParts(g, front, e, f, h);
    Assoc(g, front + e + f + h, i);
  }

  /** `validate_manifest`: the failures it returns and the blockers it leaves in the caller's list. */
  method ValidateManifest(w: World, file: ManifestFile, release: bool) returns (ok: bool, failures: seq<Failure>, blockers: seq<string>)
    ensures ok <==> !Raises(w, file)
    ensures ok ==> failures == Failures(w, file, release) && blockers == ReleaseBlockers(w, file, release)
  {
    hide Header, GroupsFailures, GroupsIds, GroupsBlockers, GroupRaises, ToSet;
    failures, blockers, ok := [], [], true;
    match file {
      case Absent => failures := [Failure("manifest", NoFile)];
      case Unparsable => failures := [Failure("manifest", BadYaml)];
      case Loaded(v) =>
        if !v.JObj? {
          return true, [Failure("manifest", NotMapping)], [];
        }
        var m := v.fields;
        var found := new Findings();
        found.ValidateHeader(m);
        Unit(Header(m));
        found.failures := found.failures + w.others(m);
        if GroupsOf(m) == map[] {
          NoGroupsNoBlockers(w, m, release);
          return true, found.failures + [Failure("manifest", NoGroups)], [];
        }
        ghost var front := found.failures;
        var names := GroupNames(w, m);
        ok := found.ValidateGroups(w, names, GroupsOf(m), release);
        if !ok {
          return;
        }
        Unit(ReleaseBlockers(w, file, release));
        blockers := found.releaseBlockers;
        var absent := REQUIRED_BLOCKER_IDS - found.blockerIds;
        failures := found.failures + When(absent != {}, Failure("manifest", MissingIds(absent)));
        Assoc(front, GroupsFailures(w, names, GroupsOf(m), release, {}), When(absent != {}, Failure("manifest", MissingIds(absent))));
        assert {} + ToSet(BlockerIds(w, m)) == ToSet(BlockerIds(w, m));
    }
  }

  lemma NoGroupsNoBlockers(w: World, m: Object, release: bool)
    ensures GroupsOf(m) == map[] ==> GroupsBlockers(w, GroupNames(w, m), GroupsOf(m), release) == []
  {
  }
}
