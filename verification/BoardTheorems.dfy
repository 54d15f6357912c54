/** What the two modes of the evidence validator promise about each other and about a clean release. */
module BoardTheorems {
  import opened Json
  import opened Text
  import opened BoardEvidence
  import opened Sequences

  // ---------- preflight within release ----------

  lemma SubWhen<T>(c: bool, d: bool, x: T)
    requires c ==> d
    ensures Sub(When(c, x), When(d, x))
  {
    SubWhole([x]);
  }

  lemma BlockerIdWithin(field: string, a: Object, ids: set<string>)
    ensures Sub(BlockerId(field, a, false, ids), BlockerId(field, a, true, ids))
  {
    SubWhole(BlockerId(field, a, true, ids));
    SubWhen(!IsComplete(a), true, Failure(field, NoId));
  }

  lemma BlockerWithin(field: string, a: Object, ids: set<string>)
    ensures Sub(Blocker(field, a, false, ids), Blocker(field, a, true, ids))
  {
    hide BlockerId;
    var blocker := Get(a, "release_blocker");
    var first, last := When(blocker != JNull && !NonEmptyStr(blocker), Failure(field, BadBlocker)), When(!NonEmptyStr(blocker), Failure(field, NoBlocker));
    SubWhole(first);
    SubWhole(last);
    BlockerIdWithin(field, a, ids);
    SubAppend(first, first, BlockerId(field, a, false, ids), BlockerId(field, a, true, ids));
    SubAppend(first + BlockerId(field, a, false, ids), first + BlockerId(field, a, true, ids), last, last);
  }

  lemma ArtifactWithin(w: World, group: string, artifact: Json, ids: set<string>)
    ensures Sub(ArtifactFailures(w, group, artifact, false, ids), ArtifactFailures(w, group, artifact, true, ids))
  {
    if !artifact.JObj? {
      SubWhole([Failure(group, NotMapping)]);
    } else {
      hide Identity, Globs, MetadataShape, RequiredMetadata, Blocker, Files, Records, ReleaseOnly, Sub;
      var a := artifact.fields;
      var field := FieldOf(group, a);
      var front := Identity(group, a) + Globs(w, field, a) + MetadataShape(w, field, a);
      var files, records := Files(w, field, a), Records(w, field, NameOf(a), IdOf(a), GlobsOf(a), Get(a, "evidence_records"), IsComplete(a));
      SubWhole(front);
      SubWhole(files);
      SubWhole(records);
      RequiredWithin(field, a);
      BlockerWithin(field, a, ids);
      ReleaseOnlyWithin(w, field, a);
      var p, q := RequiredMetadata(field, a, false), RequiredMetadata(field, a, true);
      SubAppend(front, front, p, q);
      var b, c := Blocker(field, a, false, ids), Blocker(field, a, true, ids);
      SubAppend(front + p, front + q, b, c);
      SubAppend(front + p + b, front + q + c, files, files);
      SubAppend(front + p + b + files, front + q + c + files, records, records);
      SubAppend(front + p + b + files + records, front + q + c + files + records, ReleaseOnly(w, field, a, false), ReleaseOnly(w, field, a, true));
    }
  }

  lemma RequiredWithin(field: string, a: Object)
    ensures Sub(RequiredMetadata(field, a, false), RequiredMetadata(field, a, true))
  {
    SubWhen(IsComplete(a) && AbsentKeys(a) != {}, AbsentKeys(a) != {}, Failure(field, AbsentMetadata(AbsentKeys(a))));
  }

  lemma ReleaseOnlyWithin(w: World, field: string, a: Object)
    ensures Sub(ReleaseOnly(w, field, a, false), ReleaseOnly(w, field, a, true))
  {
  }

  lemma {:induction false} ItemsWithin(w: World, group: string, items: seq<Json>, ids: set<string>)
    ensures Sub(ItemsFailures(w, group, items, false, ids), ItemsFailures(w, group, items, true, ids))
    decreases items
  {
    hide ArtifactFailures, NewIds;
    if items != [] {
      var next := ids + ToSet(NewIds(items[0]));
      ArtifactWithin(w, group, items[0], ids);
      ItemsWithin(w, group, items[1..], next);
      SubAppend(ArtifactFailures(w, group, items[0], false, ids), ArtifactFailures(w, group, items[0], true, ids),
                ItemsFailures(w, group, items[1..], false, next), ItemsFailures(w, group, items[1..], true, next));
    }
  }

  lemma GroupWithin(w: World, name: string, group: Json, ids: set<string>)
    ensures Sub(GroupFailures(w, name, group, false, ids), GroupFailures(w, name, group, true, ids))
  {
    hide ItemsFailures, Sub;
    var field := Prefixed(name);
    SubWhole([Failure(field, NotMapping)]);
    if group.JObj? {
      var status, items := Get(group.fields, "status"), GroupItems(group);
      var first := When(!Allowed(status, ALLOWED_STATUS), Failure(field, GroupStatus));
      SubWhole(first);
      SubWhen(false, status != JStr("complete"), Failure(field, GroupIncomplete));
      SubWhole([Failure(field, NoArtifacts)]);
      ItemsWithin(w, field, items, ids);
      var p, q := When(false, Failure(field, GroupIncomplete)), When(status != JStr("complete"), Failure(field, GroupIncomplete));
      SubAppend(first, first, p, q);
      if items == [] {
        SubAppend(first + p, first + q, [Failure(field, NoArtifacts)], [Failure(field, NoArtifacts)]);
      } else {
        SubAppend(first + p, first + q, ItemsFailures(w, field, items, false, ids), ItemsFailures(w, field, items, true, ids));
      }
    }
  }

  lemma {:induction false} GroupsWithin(w: World, names: seq<string>, groups: Object, ids: set<string>)
    ensures Sub(GroupsFailures(w, names, groups, false, ids), GroupsFailures(w, names, groups, true, ids))
    decreases names
  {
    hide GroupFailures, GroupItems, ItemsIds, Get;
    if names != [] {
      var group := Get(groups, names[0]);
      var next := ids + ToSet(ItemsIds(GroupItems(group)));
      GroupWithin(w, names[0], group, ids);
      GroupsWithin(w, names[1..], groups, next);
      SubAppend(GroupFailures(w, names[0], group, false, ids), GroupFailures(w, names[0], group, true, ids),
                GroupsFailures(w, names[1..], groups, false, next), GroupsFailures(w, names[1..], groups, true, next));
    }
  }

  /** Release is stricter: for every manifest the preflight failures are a subsequence of the release failures. */
  lemma PreflightWithinRelease(w: World, file: ManifestFile)
    ensures Sub(Failures(w, file, false), Failures(w, file, true))
  {
    SubWhole(Failures(w, file, true));
    if file.Loaded? && file.value.JObj? {
      var m := file.value.fields;
      var front := Header(m) + w.others(m);
      SubWhole(front);
      GroupsPartWithin(w, m);
      hide Header, AllGroups, Sub;
      SubAppend(front, front, AllGroups(w, m, false), AllGroups(w, m, true));
    }
  }

  lemma GroupsPartWithin(w: World, m: Object)
    ensures Sub(AllGroups(w, m, false), AllGroups(w, m, true))
  {
    hide GroupsFailures, Sub;
    SubWhole(AllGroups(w, m, true));
    if GroupsOf(m) != map[] {
      var absent := REQUIRED_BLOCKER_IDS - ToSet(BlockerIds(w, m));
      var last := When(absent != {}, Failure("manifest", MissingIds(absent)));
      SubWhole(last);
      GroupsWithin(w, GroupNames(w, m), GroupsOf(m), {});
      SubAppend(GroupsFailures(w, GroupNames(w, m), GroupsOf(m), false, {}), GroupsFailures(w, GroupNames(w, m), GroupsOf(m), true, {}), last, last);
    }
  }

  // ---------- what a manifest must be ----------

  predicate Word(v: Json) {
    v.JStr? && v.s != ""
  }

  predicate WordAt(d: Object, key: string) {
    key in d && Word(d[key])
  }

  predicate Says(d: Object, key: string, text: string) {
    key in d && d[key] == JStr(text)
  }

  predicate Given(d: Object, key: string) {
    key in d && !d[key].JNull?
  }

  predicate Hash(v: Json) {
    v.JStr? && |v.s| == 64 && forall i :: 0 <= i < 64 ==> v.s[i] in "0123456789abcdef"
  }

  /** The field is the list of these texts, none of them empty. */
  ghost predicate Listing(d: Object, key: string, texts: seq<string>) {
    && key in d && d[key].JList? && |d[key].items| == |texts|
    && forall k :: 0 <= k < |texts| ==> texts[k] != "" && d[key].items[k] == JStr(texts[k])
  }

  const RECORD_FIELDS := {
    "blocker_id", "artifact_name", "artifact_class", "source_path", "source_owner", "captured_at", "captured_by",
    "immutable_revision_or_lot", "sha256", "vendor_or_tool", "revision", "source_document",
    "package_or_board_revision", "reviewer", "acceptance_status", "acceptance_criteria", "review_record",
    "linked_release_gate", "supersedes_placeholder"
  }

  /** A record that is accepted as evidence for the artifact of this name and identifier, if it has one. */
  ghost predicate RecordFit(w: World, name: string, id: string, globs: seq<string>, record: Json) {
    record.JObj? &&
    var r := record.fields;
    && RECORD_FIELDS <= r.Keys
    && (id != "" ==> Says(r, "blocker_id", id))
    && Says(r, "artifact_name", name) && Says(r, "linked_release_gate", "board_fabrication_release")
    && "supersedes_placeholder" in r && r["supersedes_placeholder"] == JBool(true)
    && (Says(r, "acceptance_status", "accepted") || Says(r, "acceptance_status", "approved") || Says(r, "acceptance_status", "pass"))
    && WordAt(r, "source_path")
    && var source := r["source_path"].s;
    && w.relative(source) && !w.forbidden(source) && w.matches(source, globs) && !w.placeholder(source)
    && w.isFile(source) && !w.marked(source)
    && "sha256" in r && Hash(r["sha256"]) && r["sha256"].s == w.digest(source)
  }

  predicate Complete(a: Object) {
    Says(a, "status", "complete")
  }

  /** Records are needed exactly of what is complete; those that are given must be accepted. */
  ghost predicate RecordsFit(w: World, a: Object, globs: seq<string>) {
    if !Given(a, "evidence_records") then !Complete(a)
    else
      var records := a["evidence_records"];
      var id := if "release_blocker_id" in a && a["release_blocker_id"].JStr? then a["release_blocker_id"].s else "";
      && records.JList? && (Complete(a) ==> records.items != [])
      && "name" in a && a["name"].JStr?
      && forall k :: 0 <= k < |records.items| ==> RecordFit(w, a["name"].s, id, globs, records.items[k])
  }

  /** Every digest in the metadata is a hash, and a release or a complete artifact has all metadata asked for. */
  ghost predicate MetadataFit(a: Object, release: bool) {
    && ("metadata" in a && Truthy(a["metadata"]) ==> a["metadata"].JObj?)
    && ("metadata" in a && a["metadata"].JObj? ==>
          forall k :: k in a["metadata"].fields && EndsWith(k, "_sha256") ==> Hash(a["metadata"].fields[k]))
    && ("required_metadata" in a && Truthy(a["required_metadata"]) ==>
          exists keys :: Listing(a, "required_metadata", keys) && keys != []
                         && (release || Complete(a) ==> KeysPresent(a, keys)))
  }

  ghost predicate KeysPresent(a: Object, keys: seq<string>) {
    forall k :: 0 <= k < |keys| ==> HasMetadata(a, keys[k])
  }

  predicate HasMetadata(a: Object, key: string) {
    "metadata" in a && a["metadata"].JObj? && key in a["metadata"].fields
  }

  /** The patterns of an artifact, its files and its records. */
  ghost predicate FilesFit(w: World, a: Object, globs: seq<string>) {
    && Listing(a, "globs", globs) && globs != [] && (forall k :: 0 <= k < |globs| ==> w.relative(globs[k]))
    && (Complete(a) ==> w.hasFiles(globs)) && (Says(a, "status", "missing") ==> !w.hasFiles(globs))
    && RecordsFit(w, a, globs)
  }

  /** A status that the mode accepts: a release takes only what is complete. */
  predicate StatusFit(d: Object, release: bool) {
    Says(d, "status", "complete") || (!release && (Says(d, "status", "missing") || Says(d, "status", "draft")))
  }

  /** An artifact that the mode accepts, its identifier apart. */
  ghost predicate ArtifactFit(w: World, artifact: Json, release: bool) {
    artifact.JObj? &&
    var a := artifact.fields;
    && WordAt(a, "name") && StatusFit(a, release)
    && (exists globs :: FilesFit(w, a, globs))
    && MetadataFit(a, release)
    && WordAt(a, "release_blocker")
    && if Given(a, "release_blocker_id") then Word(a["release_blocker_id"]) else !release && Complete(a)
  }

  // ---------- records ----------

  lemma HashIsSha(v: Json)
    ensures IsSha(v) <==> Hash(v)
  {
    assert forall c: char :: c in "0123456789abcdef" <==> '0' <= c <= '9' || 'a' <= c <= 'f';
  }

  lemma ShaIsText(v: Json)
    ensures IsSha(v) || Hash(v) ==> v.JStr?
  {
  }

  lemma Covers(a: set<string>, b: set<string>)
    ensures a - b == {} <==> a <= b
  {
    if a - b == {} {
      forall x | x in a
        ensures x in b
      {
        assert x !in a - b;
      }
    }
  }

  function IdText(id: Option<string>): string {
    if id.Some? then id.value else ""
  }

  /** A record is without problem exactly when it is accepted. */
  lemma RecordClean(w: World, name: string, id: Option<string>, globs: seq<string>, record: Json)
    ensures RecordProblems(w, name, id, globs, record) == [] <==> RecordFit(w, name, IdText(id), globs, record)
  {
    if record.JObj? {
      HeadClean(name, id, record.fields);
      SourceClean(w, globs, record.fields);
      hide RecordHead, RecordSource;
    }
  }

  lemma HeadClean(name: string, id: Option<string>, r: Object)
    ensures RecordHead(name, id, r) == [] <==>
            && RECORD_FIELDS <= r.Keys
            && (IdText(id) != "" ==> Says(r, "blocker_id", IdText(id)))
            && Says(r, "artifact_name", name) && Says(r, "linked_release_gate", "board_fabrication_release")
            && "supersedes_placeholder" in r && r["supersedes_placeholder"] == JBool(true)
            && (Says(r, "acceptance_status", "accepted") || Says(r, "acceptance_status", "approved") || Says(r, "acceptance_status", "pass"))
  {
    Covers(REQUIRED_RECORD_FIELDS, r.Keys);
  }

  lemma SourceClean(w: World, globs: seq<string>, r: Object)
    ensures RecordSource(w, globs, r) == [] <==>
            && WordAt(r, "source_path")
            && var source := r["source_path"].s;
            && w.relative(source) && !w.forbidden(source) && w.matches(source, globs) && !w.placeholder(source)
            && w.isFile(source) && !w.marked(source)
            && "sha256" in r && Hash(r["sha256"]) && r["sha256"].s == w.digest(source)
  {
    HashIsSha(Get(r, "sha256"));
    ShaIsText(Get(r, "sha256"));
    hide IsSha, Hash;
  }

  lemma {:induction false} EachClean(w: World, field: string, name: string, id: Option<string>, globs: seq<string>, records: seq<Json>)
    ensures EachRecord(w, field, name, id, globs, records) == [] <==>
            forall k :: 0 <= k < |records| ==> RecordFit(w, name, IdText(id), globs, records[k])
  {
    hide RecordProblems, RecordFit, Tag;
    if records != [] {
      var n := |records| - 1;
      EachClean(w, field, name, id, globs, records[..n]);
      RecordClean(w, name, id, globs, records[n]);
      assert forall k :: 0 <= k < n ==> records[..n][k] == records[k];
    }
  }

  lemma RecordsClean(w: World, field: string, a: Object, globs: seq<string>)
    requires WordAt(a, "name")
    ensures Records(w, field, NameOf(a), IdOf(a), globs, Get(a, "evidence_records"), IsComplete(a)) == [] <==> RecordsFit(w, a, globs)
  {
    hide RecordFit, EachRecord;
    if Get(a, "evidence_records").JList? {
      EachClean(w, field, NameOf(a), IdOf(a), globs, Get(a, "evidence_records").items);
    }
  }

  // ---------- artifacts ----------

  lemma ListingIs(d: Object, key: string)
    ensures var xs := StringList(Get(d, key));
            && (xs != [] ==> Listing(d, key, xs))
            && forall texts :: Listing(d, key, texts) && texts != [] ==> texts == xs
  {
    var v := Get(d, key);
    assert v.JList? ==> forall k :: 0 <= k < |v.items| ==> v.items[k] in v.items;
    forall texts | Listing(d, key, texts) && texts != []
      ensures texts == StringList(v)
    {
      forall x | x in v.items
        ensures NonEmptyStr(x)
      {
        var k :| 0 <= k < |v.items| && v.items[k] == x;
      }
    }
  }

  lemma FilesClean(w: World, field: string, a: Object, release: bool)
    requires WordAt(a, "name") && StatusFit(a, release)
    ensures Globs(w, field, a) == [] && Files(w, field, a) == []
            && Records(w, field, NameOf(a), IdOf(a), GlobsOf(a), Get(a, "evidence_records"), IsComplete(a)) == []
            && ReleaseOnly(w, field, a, release) == [] <==>
            exists globs :: FilesFit(w, a, globs)
  {
    ListingIs(a, "globs");
    var globs := GlobsOf(a);
    RecordsClean(w, field, a, globs);
    hide Records, RecordsFit, BadPaths, Listing;
    assert (forall p :: p in globs ==> w.relative(p)) <==> forall k :: 0 <= k < |globs| ==> w.relative(globs[k]);
    if other :| FilesFit(w, a, other) {
      assert other == globs;
    } else if globs != [] {
      assert !FilesFit(w, a, globs);
    }
  }

  lemma DigestsClean(w: World, field: string, metadata: Object)
    requires Iterates(w)
    ensures BadDigests(field, metadata, w.order(metadata)) == [] <==>
            forall k :: k in metadata && EndsWith(k, "_sha256") ==> Hash(metadata[k])
  {
    assert Lists(w.order(metadata), metadata);
    forall k
      ensures DigestFaulty(metadata, k) <==> k in metadata && EndsWith(k, "_sha256") && !Hash(metadata[k])
    {
      if k in metadata {
        HashIsSha(metadata[k]);
      }
    }
    hide DigestFaulty, Hash, EndsWith, Iterates;
  }

  lemma RequiredClean(a: Object, field: string, release: bool)
    ensures !BadRequiredField(a) && RequiredMetadata(field, a, release) == [] <==>
            ("required_metadata" in a && Truthy(a["required_metadata"]) ==>
               exists keys :: Listing(a, "required_metadata", keys) && keys != []
                              && (release || Complete(a) ==> KeysPresent(a, keys)))
  {
    ListingIs(a, "required_metadata");
    var keys := StringList(Get(a, "required_metadata"));
    hide Listing;
    if "required_metadata" in a && Truthy(a["required_metadata"]) {
      PresentKeys(a, keys);
      if others :| Listing(a, "required_metadata", others) && others != [] && (release || Complete(a) ==> KeysPresent(a, others)) {
        assert others == keys;
      } else if keys != [] {
        assert Listing(a, "required_metadata", keys);
      }
    } else {
      NothingRequired(a);
    }
  }

  lemma NothingRequired(a: Object)
    requires !("required_metadata" in a && Truthy(a["required_metadata"]))
    ensures AbsentKeys(a) == {} && !BadRequiredField(a)
  {
  }

  lemma PresentKeys(a: Object, keys: seq<string>)
    requires keys == StringList(GetOr(a, "required_metadata", JList([])))
    ensures AbsentKeys(a) == {} <==> KeysPresent(a, keys)
  {
    var wanted, present := (set k | k in keys), MetadataOf(a).Keys;
    Covers(wanted, present);
    assert AbsentKeys(a) == wanted - present;
    assert forall x :: x in present <==> HasMetadata(a, x);
    hide StringList, MetadataOf;
    assert forall k :: 0 <= k < |keys| ==> keys[k] in wanted;
    if KeysPresent(a, keys) {
      forall x | x in wanted
        ensures x in present
      {
        var k :| 0 <= k < |keys| && keys[k] == x;
      }
      assert AbsentKeys(a) == {};
    }
    if AbsentKeys(a) == {} {
      forall k | 0 <= k < |keys|
        ensures HasMetadata(a, keys[k])
      {
        assert keys[k] in wanted && keys[k] in present;
      }
    }
  }

  lemma MetadataClean(w: World, field: string, a: Object, release: bool)
    requires Iterates(w)
    ensures MetadataShape(w, field, a) == [] && RequiredMetadata(field, a, release) == [] <==> MetadataFit(a, release)
  {
    DigestsClean(w, field, MetadataOf(a));
    RequiredClean(a, field, release);
    hide BadDigests, RequiredMetadata, BadRequiredField, Hash, EndsWith, Listing, Iterates, KeysPresent;
  }

  lemma BlockerClean(field: string, a: Object, release: bool, ids: set<string>)
    ensures Blocker(field, a, release, ids) == [] <==>
            && WordAt(a, "release_blocker")
            && if Given(a, "release_blocker_id") then Word(a["release_blocker_id"]) && a["release_blocker_id"].s !in ids
               else !release && Complete(a)
  {
  }

  lemma IdentityClean(group: string, a: Object)
    ensures Identity(group, a) == [] <==>
            WordAt(a, "name") && (Complete(a) || Says(a, "status", "missing") || Says(a, "status", "draft"))
  {
  }

  /** An artifact is without failure exactly when the mode accepts it and its identifier, if it has one, is new. */
  lemma ArtifactClean(w: World, group: string, artifact: Json, release: bool, ids: set<string>)
    requires Iterates(w)
    ensures ArtifactFailures(w, group, artifact, release, ids) == [] <==>
            ArtifactFit(w, artifact, release) && forall id :: id in NewIds(artifact) ==> id !in ids
  {
    if artifact.JObj? {
      var a := artifact.fields;
      var field := FieldOf(group, a);
      IdentityClean(group, a);
      MetadataClean(w, field, a, release);
      BlockerClean(field, a, release, ids);
      if WordAt(a, "name") && StatusFit(a, release) {
        FilesClean(w, field, a, release);
      }
      hide Identity, Globs, MetadataShape, RequiredMetadata, Blocker, Files, Records, FilesFit, MetadataFit, Iterates, GlobsOf;
    }
  }

  /** The identifiers are new and pairwise distinct. */
  ghost predicate Fresh(new_: seq<string>, ids: set<string>) {
    (forall i :: 0 <= i < |new_| ==> new_[i] !in ids) && forall i, j :: 0 <= i < j < |new_| ==> new_[i] != new_[j]
  }

  lemma FreshAppend(a: seq<string>, b: seq<string>, ids: set<string>)
    ensures Fresh(a + b, ids) <==> Fresh(a, ids) && Fresh(b, ids + ToSet(a))
  {
    var all := a + b;
    assert forall i :: 0 <= i < |a| ==> all[i] == a[i];
    assert forall i :: 0 <= i < |b| ==> all[|a| + i] == b[i];
    if Fresh(all, ids) {
      forall i | 0 <= i < |b|
        ensures b[i] !in ToSet(a)
      {
        assert all[|a| + i] == b[i];
      }
    }
    if Fresh(a, ids) && Fresh(b, ids + ToSet(a)) {
      forall i, j | 0 <= i < j < |all|
        ensures all[i] != all[j]
      {
        if i < |a| <= j {
          assert all[i] in ToSet(a) && b[j - |a|] !in ToSet(a);
        }
      }
    }
  }

  lemma {:induction false} ItemsClean(w: World, group: string, items: seq<Json>, release: bool, ids: set<string>)
    requires Iterates(w)
    ensures ItemsFailures(w, group, items, release, ids) == [] <==>
            AllFit(w, items, release) && Fresh(ItemsIds(items), ids)
    decreases items
  {
    if items != [] {
      hide ArtifactFailures, ArtifactFit, Fresh, AllFit, NewIds, Iterates;
      var first, rest := items[0], items[1..];
      ArtifactClean(w, group, first, release, ids);
      ItemsClean(w, group, rest, release, ids + ToSet(NewIds(first)));
      FreshAppend(NewIds(first), ItemsIds(rest), ids);
      OneFresh(first, ids);
      FitFirst(w, items, release);
    } else {
      NoneFresh(ids);
    }
  }

  ghost predicate AllFit(w: World, items: seq<Json>, release: bool) {
    forall k :: 0 <= k < |items| ==> ArtifactFit(w, items[k], release)
  }

  lemma FitFirst(w: World, items: seq<Json>, release: bool)
    requires items != []
    ensures AllFit(w, items, release) <==> ArtifactFit(w, items[0], release) && AllFit(w, items[1..], release)
  {
    hide ArtifactFit;
    assert forall i :: 1 <= i < |items| ==> items[i] == items[1..][i - 1];
  }

  lemma NoneFresh(ids: set<string>)
    ensures Fresh([], ids)
  {
  }

  lemma OneFresh(artifact: Json, ids: set<string>)
    ensures Fresh(NewIds(artifact), ids) <==> forall id :: id in NewIds(artifact) ==> id !in ids
  {
    assert forall i :: 0 <= i < |NewIds(artifact)| ==> NewIds(artifact)[i] in NewIds(artifact);
  }

  /** A group that the mode accepts, with artifacts that it accepts. */
  ghost predicate GroupFit(w: World, group: Json, release: bool) {
    group.JObj? &&
    var g := group.fields;
    && StatusFit(g, release)
    && "artifacts" in g && g["artifacts"].JList? && g["artifacts"].items != []
    && AllFit(w, g["artifacts"].items, release)
  }

  lemma GroupClean(w: World, name: string, group: Json, release: bool, ids: set<string>)
    requires Iterates(w)
    ensures GroupFailures(w, name, group, release, ids) == [] <==>
            GroupFit(w, group, release) && Fresh(ItemsIds(GroupItems(group)), ids)
  {
    hide ItemsFailures, AllFit, Fresh, Iterates;
    if group.JObj? {
      ItemsClean(w, Prefixed(name), GroupItems(group), release, ids);
    }
  }

  lemma {:induction false} GroupsClean(w: World, names: seq<string>, groups: Object, release: bool, ids: set<string>)
    requires Iterates(w)
    ensures GroupsFailures(w, names, groups, release, ids) == [] <==>
            (forall i :: 0 <= i < |names| ==> GroupFit(w, Get(groups, names[i]), release)) && Fresh(GroupsIds(names, groups), ids)
    decreases names
  {
    hide GroupFailures, GroupFit, Fresh, GroupItems, ItemsIds, Get, Iterates;
    if names != [] {
      var group := Get(groups, names[0]);
      var own, rest := ItemsIds(GroupItems(group)), names[1..];
      GroupClean(w, names[0], group, release, ids);
      GroupsClean(w, rest, groups, release, ids + ToSet(own));
      FreshAppend(own, GroupsIds(rest, groups), ids);
      assert forall i :: 1 <= i < |names| ==> names[i] == rest[i - 1];
    } else {
      NoneFresh(ids);
    }
  }

  /** The blocker identifiers of one group. */
  function IdsOf(groups: Object, name: string): seq<string> {
    ItemsIds(GroupItems(Get(groups, name)))
  }

  ghost predicate Distinct(ids: seq<string>) {
    forall i, j :: 0 <= i < j < |ids| ==> ids[i] != ids[j]
  }

  lemma FreshByParts(own: seq<string>, ids: set<string>, more: set<string>)
    ensures Fresh(own, ids + more) <==> Fresh(own, ids) && ToSet(own) !! more
    ensures Fresh(own, {}) <==> Distinct(own)
  {
    if ToSet(own) !! more {
      forall i | 0 <= i < |own|
        ensures own[i] !in more
      {
        assert own[i] in ToSet(own);
      }
    }
    if Fresh(own, ids + more) {
      forall x | x in ToSet(own)
        ensures x !in more
      {
        var i :| 0 <= i < |own| && own[i] == x;
        assert own[i] !in ids + more;
      }
    }
  }

  /** The identifiers of all groups, group by group. */
  ghost predicate Apart(names: seq<string>, groups: Object, ids: set<string>) {
    && (forall i :: 0 <= i < |names| ==> Fresh(IdsOf(groups, names[i]), ids))
    && forall i, j :: 0 <= i < j < |names| ==> ToSet(IdsOf(groups, names[i])) !! ToSet(IdsOf(groups, names[j]))
  }

  lemma {:induction false} GroupsApart(names: seq<string>, groups: Object, ids: set<string>)
    ensures Fresh(GroupsIds(names, groups), ids) <==> Apart(names, groups, ids)
    decreases names
  {
    if names == [] {
      NoneFresh(ids);
    } else {
      hide Apart, Fresh, ItemsIds, GroupItems, Get;
      var own, rest := IdsOf(groups, names[0]), names[1..];
      GroupsApart(rest, groups, ids + ToSet(own));
      FreshAppend(own, GroupsIds(rest, groups), ids);
      ApartFirst(names, groups, ids);
    }
  }

  lemma ApartFirst(names: seq<string>, groups: Object, ids: set<string>)
    requires names != []
    ensures var own := IdsOf(groups, names[0]);
            Apart(names, groups, ids) <==> Fresh(own, ids) && Apart(names[1..], groups, ids + ToSet(own))
  {
    hide IdsOf, Fresh;
    var own, rest := IdsOf(groups, names[0]), names[1..];
    forall i | 0 <= i < |rest|
      ensures rest[i] == names[i + 1]
      ensures Fresh(IdsOf(groups, rest[i]), ids + ToSet(own)) <==>
              Fresh(IdsOf(groups, rest[i]), ids) && ToSet(IdsOf(groups, rest[i])) !! ToSet(own)
    {
      FreshByParts(IdsOf(groups, rest[i]), ids, ToSet(own));
    }
    if Apart(names, groups, ids) {
      forall i | 0 <= i < |rest|
        ensures ToSet(own) !! ToSet(IdsOf(groups, rest[i])) && Fresh(IdsOf(groups, rest[i]), ids)
      {
        assert rest[i] == names[i + 1];
      }
    }
    if Fresh(own, ids) && Apart(rest, groups, ids + ToSet(own)) {
      forall i | 0 <= i < |names|
        ensures Fresh(IdsOf(groups, names[i]), ids)
      {
        assert i > 0 ==> names[i] == rest[i - 1];
      }
      forall i, j | 0 <= i < j < |names|
        ensures ToSet(IdsOf(groups, names[i])) !! ToSet(IdsOf(groups, names[j]))
      {
        assert names[j] == rest[j - 1];
        assert i > 0 ==> names[i] == rest[i - 1];
      }
    }
  }

  lemma {:induction false} IdsOfAll(names: seq<string>, groups: Object, id: string)
    ensures id in GroupsIds(names, groups) <==> exists i :: 0 <= i < |names| && id in IdsOf(groups, names[i])
  {
    hide ItemsIds, GroupItems, Get;
    if names != [] {
      IdsOfAll(names[1..], groups, id);
      assert forall i :: 1 <= i < |names| ==> names[i] == names[1..][i - 1];
    }
  }

  /** Artifact `k` of a group has this identifier. */
  ghost predicate IdAt(groups: Object, name: string, k: int, id: string) {
    name in groups && groups[name].JObj? &&
    var g := groups[name].fields;
    && "artifacts" in g && g["artifacts"].JList? && 0 <= k < |g["artifacts"].items|
    && HasId(g["artifacts"].items[k], id)
  }

  predicate HasId(artifact: Json, id: string) {
    id != "" && artifact.JObj? && Says(artifact.fields, "release_blocker_id", id)
  }

  /** No two artifacts of the manifest share an identifier: not within a group, and not across groups. */
  ghost predicate IdsDistinct(groups: Object) {
    forall name, k, other, l, id :: IdAt(groups, name, k, id) && IdAt(groups, other, l, id) ==> name == other && k == l
  }

  const BLOCKER_IDS := {
    "package_drawing", "footprint_source", "bond_diagram", "kicad_project", "kicad_schematic", "kicad_pcb",
    "vendor_derived_footprint", "erc", "drc", "gerbers", "drill", "bom", "pick_and_place", "cross_probe",
    "dfm", "si_pi", "first_article"
  }

  ghost predicate IdsCover(groups: Object) {
    forall id :: id in BLOCKER_IDS ==> exists name, k :: IdAt(groups, name, k, id)
  }

  /** What a manifest must be for the mode to report nothing: every group, whatever the order. */
  ghost predicate ManifestFit(w: World, m: Object, release: bool) {
    && Says(m, "status", "release_blocked") && Says(m, "release_gate", "board_fabrication_release")
    && Says(m, "schema", "openagent.board_package_evidence.v1")
    && "policy" in m && m["policy"].JObj?
    && "preflight" in m["policy"].fields && m["policy"].fields["preflight"].JStr?
    && "release" in m["policy"].fields && m["policy"].fields["release"].JStr?
    && w.others(m) == []
    && "artifact_groups" in m && m["artifact_groups"].JObj? && m["artifact_groups"].fields != map[]
    && (forall name :: name in m["artifact_groups"].fields ==> GroupFit(w, m["artifact_groups"].fields[name], release))
    && IdsDistinct(m["artifact_groups"].fields) && IdsCover(m["artifact_groups"].fields)
  }

  lemma HeaderClean(m: Object)
    ensures Header(m) == [] <==>
            && Says(m, "status", "release_blocked") && Says(m, "release_gate", "board_fabrication_release")
            && Says(m, "schema", "openagent.board_package_evidence.v1")
            && "policy" in m && m["policy"].JObj?
            && "preflight" in m["policy"].fields && m["policy"].fields["preflight"].JStr?
            && "release" in m["policy"].fields && m["policy"].fields["release"].JStr?
  {
  }

  lemma NewIdsAre(artifact: Json, id: string)
    ensures id in NewIds(artifact) <==> HasId(artifact, id)
    ensures |NewIds(artifact)| <= 1
  {
  }

  lemma {:induction false} ItemsIdsAre(items: seq<Json>, id: string)
    ensures id in ItemsIds(items) <==> exists k :: 0 <= k < |items| && HasId(items[k], id)
  {
    hide HasId, NewIds;
    if items != [] {
      NewIdsAre(items[0], id);
      ItemsIdsAre(items[1..], id);
      assert forall k :: 1 <= k < |items| ==> items[k] == items[1..][k - 1];
    }
  }

  /** Each identifier stands in one place. */
  ghost predicate OnePlace(items: seq<Json>) {
    forall k, l, id :: 0 <= k < |items| && 0 <= l < |items| && HasId(items[k], id) && HasId(items[l], id) ==> k == l
  }

  lemma DistinctAppend(a: seq<string>, b: seq<string>)
    requires |a| <= 1
    ensures Distinct(a + b) <==> Distinct(b) && forall x :: x in a ==> x !in b
  {
    var all := a + b;
    assert forall i :: 0 <= i < |b| ==> all[|a| + i] == b[i];
    assert Distinct(all) ==> Distinct(b) by {
      if Distinct(all) {
        forall i, j | 0 <= i < j < |b|
          ensures b[i] != b[j]
        {
          assert all[|a| + i] != all[|a| + j];
        }
      }
    }
    if Distinct(all) && a != [] {
      forall i | 0 <= i < |b|
        ensures b[i] != a[0]
      {
        assert all[0] == a[0] && all[1 + i] == b[i];
      }
    }
    if Distinct(b) && forall x :: x in a ==> x !in b {
      forall i, j | 0 <= i < j < |all|
        ensures all[i] != all[j]
      {
        assert all[j] == b[j - |a|];
        if i < |a| {
          assert all[i] in a;
        } else {
          assert all[i] == b[i - |a|];
        }
      }
    }
  }

  lemma {:induction false} DistinctIsOnePlace(items: seq<Json>)
    ensures Distinct(ItemsIds(items)) <==> OnePlace(items)
  {
    hide HasId, NewIds, Distinct;
    if items == [] {
      NoneDistinct();
    } else {
      var first, rest := items[0], items[1..];
      DistinctIsOnePlace(rest);
      forall id
        ensures id in NewIds(first) <==> HasId(first, id)
        ensures id in ItemsIds(rest) <==> exists k :: 0 <= k < |rest| && HasId(rest[k], id)
      {
        NewIdsAre(first, id);
        ItemsIdsAre(rest, id);
      }
      NewIdsAre(first, "");
      DistinctAppend(NewIds(first), ItemsIds(rest));
      OnePlaceFirst(items);
    }
  }

  lemma NoneDistinct()
    ensures Distinct([])
  {
  }

  lemma OnePlaceFirst(items: seq<Json>)
    requires items != []
    ensures OnePlace(items) <==>
            OnePlace(items[1..]) && forall id :: HasId(items[0], id) ==> forall k :: 0 <= k < |items[1..]| ==> !HasId(items[1..][k], id)
  {
    hide HasId;
    var rest := items[1..];
    assert forall k :: 0 <= k < |rest| ==> rest[k] == items[k + 1];
    if OnePlace(items) {
      forall k, l, id | 0 <= k < |rest| && 0 <= l < |rest| && HasId(rest[k], id) && HasId(rest[l], id)
        ensures k == l
      {
        assert HasId(items[k + 1], id) && HasId(items[l + 1], id);
      }
    }
    if OnePlace(rest) && forall id :: HasId(items[0], id) ==> forall k :: 0 <= k < |rest| ==> !HasId(rest[k], id) {
      forall k, l, id | 0 <= k < |items| && 0 <= l < |items| && HasId(items[k], id) && HasId(items[l], id)
        ensures k == l
      {
        assert k > 0 ==> items[k] == rest[k - 1];
        assert l > 0 ==> items[l] == rest[l - 1];
      }
    }
  }

  lemma IdsOfAre(groups: Object, name: string, id: string)
    requires name in groups
    ensures id in IdsOf(groups, name) <==> exists k :: IdAt(groups, name, k, id)
  {
    ItemsIdsAre(GroupItems(groups[name]), id);
    hide HasId, ItemsIds;
    var items := GroupItems(groups[name]);
    if k :| 0 <= k < |items| && HasId(items[k], id) {
      assert IdAt(groups, name, k, id);
    }
    if k :| IdAt(groups, name, k, id) {
      assert HasId(items[k], id);
    }
  }

  lemma OnePlaceIn(groups: Object, name: string)
    requires name in groups
    ensures Distinct(IdsOf(groups, name)) <==>
            forall k, l, id :: IdAt(groups, name, k, id) && IdAt(groups, name, l, id) ==> k == l
  {
    DistinctIsOnePlace(GroupItems(groups[name]));
    hide HasId, ItemsIds, Distinct;
    var items := GroupItems(groups[name]);
    assert forall k, id :: IdAt(groups, name, k, id) <==> 0 <= k < |items| && HasId(items[k], id);
  }

  /** Distinct identifiers, by the lists of the groups. */
  lemma DistinctByGroups(groups: Object)
    ensures IdsDistinct(groups) <==>
            && (forall n :: n in groups ==> Distinct(IdsOf(groups, n)))
            && forall n, o :: n in groups && o in groups && n != o ==> ToSet(IdsOf(groups, n)) !! ToSet(IdsOf(groups, o))
  {
    forall n | n in groups
      ensures Distinct(IdsOf(groups, n)) <==> forall k, l, id :: IdAt(groups, n, k, id) && IdAt(groups, n, l, id) ==> k == l
      ensures forall id :: id in IdsOf(groups, n) <==> exists k :: IdAt(groups, n, k, id)
    {
      OnePlaceIn(groups, n);
      forall id
        ensures id in IdsOf(groups, n) <==> exists k :: IdAt(groups, n, k, id)
      {
        IdsOfAre(groups, n, id);
      }
    }
    assert forall n, k, id :: IdAt(groups, n, k, id) ==> n in groups;
    hide IdsOf, Distinct, IdAt;
    if IdsDistinct(groups) {
      forall n, o | n in groups && o in groups && n != o
        ensures ToSet(IdsOf(groups, n)) !! ToSet(IdsOf(groups, o))
      {
        forall id | id in IdsOf(groups, n)
          ensures id !in IdsOf(groups, o)
        {
          var k :| IdAt(groups, n, k, id);
          assert forall l :: !IdAt(groups, o, l, id);
        }
      }
    } else if forall n, o :: n in groups && o in groups && n != o ==> ToSet(IdsOf(groups, n)) !! ToSet(IdsOf(groups, o)) {
      var n, k, o, l, id :| IdAt(groups, n, k, id) && IdAt(groups, o, l, id) && !(n == o && k == l);
      assert n in groups && o in groups;
      assert id in ToSet(IdsOf(groups, n)) && id in ToSet(IdsOf(groups, o));
      assert n == o;
    }
  }

  lemma ApartIsDistinct(names: seq<string>, groups: Object)
    requires Lists(names, groups)
    ensures Apart(names, groups, {}) <==> IdsDistinct(groups)
  {
    DistinctByGroups(groups);
    hide IdsOf, Fresh, Distinct, IdsDistinct;
    forall n
      ensures Fresh(IdsOf(groups, n), {}) <==> Distinct(IdsOf(groups, n))
    {
      FreshByParts(IdsOf(groups, n), {}, {});
    }
    if Apart(names, groups, {}) {
      forall n, o | n in groups && o in groups && n != o
        ensures ToSet(IdsOf(groups, n)) !! ToSet(IdsOf(groups, o))
      {
        var i :| 0 <= i < |names| && names[i] == n;
        var j :| 0 <= j < |names| && names[j] == o;
        assert i < j || j < i;
      }
      forall n | n in groups
        ensures Distinct(IdsOf(groups, n))
      {
        var i :| 0 <= i < |names| && names[i] == n;
      }
    }
    if IdsDistinct(groups) {
      assert forall i :: 0 <= i < |names| ==> names[i] in groups;
    }
  }

  lemma CoverIsUnion(names: seq<string>, groups: Object)
    requires Lists(names, groups)
    ensures REQUIRED_BLOCKER_IDS <= ToSet(GroupsIds(names, groups)) <==> IdsCover(groups)
  {
    hide IdsOf, GroupsIds;
    forall id
      ensures id in GroupsIds(names, groups) <==> exists n, k :: IdAt(groups, n, k, id)
    {
      IdsOfAll(names, groups, id);
      if n, k :| IdAt(groups, n, k, id) {
        var i :| 0 <= i < |names| && names[i] == n;
        IdsOfAre(groups, n, id);
      }
      if i :| 0 <= i < |names| && id in IdsOf(groups, names[i]) {
        assert names[i] in groups;
        IdsOfAre(groups, names[i], id);
      }
    }
  }

  lemma FitGroups(w: World, names: seq<string>, groups: Object, release: bool)
    requires Lists(names, groups)
    ensures (forall i :: 0 <= i < |names| ==> GroupFit(w, Get(groups, names[i]), release)) <==>
            forall name :: name in groups ==> GroupFit(w, groups[name], release)
  {
    hide GroupFit;
    if forall i :: 0 <= i < |names| ==> GroupFit(w, Get(groups, names[i]), release) {
      forall name | name in groups
        ensures GroupFit(w, groups[name], release)
      {
        var i :| 0 <= i < |names| && names[i] == name;
      }
    } else {
      var i :| 0 <= i < |names| && !GroupFit(w, Get(groups, names[i]), release);
      assert names[i] in groups;
    }
  }

  /**
   When a manifest has no failures, in either mode: exactly when its header and every group and
   artifact are what the mode accepts, and the blocker identifiers are distinct within and across all
   groups and cover the required set. The keys of a mapping are visited once each, in whatever order.
   */
  lemma ManifestClean(w: World, m: Object, release: bool)
    requires Iterates(w)
    ensures Failures(w, Loaded(JObj(m)), release) == [] <==> ManifestFit(w, m, release)
  {
    HeaderClean(m);
    AllGroupsClean(w, m, release);
    GroupsAre(m);
    hide Header, AllGroups, GroupFit, IdsDistinct, IdsCover, Iterates, GroupsOf, Says;
  }

  lemma GroupsAre(m: Object)
    ensures GroupsOf(m) != map[] <==>
            "artifact_groups" in m && m["artifact_groups"].JObj? && m["artifact_groups"].fields != map[]
    ensures GroupsOf(m) != map[] ==> GroupsOf(m) == m["artifact_groups"].fields
  {
  }

  lemma AllGroupsClean(w: World, m: Object, release: bool)
    requires Iterates(w)
    ensures AllGroups(w, m, release) == [] <==>
            && GroupsOf(m) != map[]
            && (forall name :: name in GroupsOf(m) ==> GroupFit(w, GroupsOf(m)[name], release))
            && IdsDistinct(GroupsOf(m)) && IdsCover(GroupsOf(m))
  {
    var names, groups := w.order(GroupsOf(m)), GroupsOf(m);
    assert Lists(names, groups);
    hide GroupsFailures, GroupFit, GroupsIds, IdsDistinct, IdsCover, Iterates, Lists, Apart, ToSet, GroupsOf, Get, Fresh;
    if groups != map[] {
      GroupsClean(w, names, groups, release, {});
      GroupsApart(names, groups, {});
      ApartIsDistinct(names, groups);
      CoverIsUnion(names, groups);
      FitGroups(w, names, groups, release);
      Covers(REQUIRED_BLOCKER_IDS, ToSet(GroupsIds(names, groups)));
    }
  }

  /** A release is clean exactly when the manifest is complete. */
  lemma ReleaseClean(w: World, m: Object)
    requires Iterates(w)
    ensures Failures(w, Loaded(JObj(m)), true) == [] <==> ManifestFit(w, m, true)
  {
    ManifestClean(w, m, true);
  }

  /** A preflight is clean exactly when the manifest is consistent about what it does not have yet. */
  lemma PreflightClean(w: World, m: Object)
    requires Iterates(w)
    ensures Failures(w, Loaded(JObj(m)), false) == [] <==> ManifestFit(w, m, false)
  {
    ManifestClean(w, m, false);
  }

  /** A clean release is clean in preflight as well, and its manifest still calls itself blocked. */
  lemma ReleaseImpliesPreflight(w: World, m: Object)
    requires Failures(w, Loaded(JObj(m)), true) == []
    ensures Failures(w, Loaded(JObj(m)), false) == [] && Get(m, "status") == JStr("release_blocked")
  {
    PreflightWithinRelease(w, Loaded(JObj(m)));
  }

  // ---------- release blockers ----------

  lemma ArtifactBlocked(w: World, group: string, artifact: Json, release: bool, ids: set<string>)
    requires ArtifactBlockers(w, artifact, release) != []
    ensures ArtifactFailures(w, group, artifact, release, ids) != []
  {
    hide Identity, Globs, MetadataShape, RequiredMetadata, Blocker, Files, Records;
    assert ReleaseOnly(w, FieldOf(group, artifact.fields), artifact.fields, release) != [];
  }

  lemma {:induction false} ItemsBlocked(w: World, group: string, items: seq<Json>, release: bool, ids: set<string>)
    requires ItemsBlockers(w, items, release) != []
    ensures ItemsFailures(w, group, items, release, ids) != []
    decreases items
  {
    hide ArtifactFailures, ArtifactBlockers, NewIds;
    if ArtifactBlockers(w, items[0], release) != [] {
      ArtifactBlocked(w, group, items[0], release, ids);
    } else {
      ItemsBlocked(w, group, items[1..], release, ids + ToSet(NewIds(items[0])));
    }
  }

  lemma {:induction false} GroupsBlocked(w: World, names: seq<string>, groups: Object, release: bool, ids: set<string>)
    requires GroupsBlockers(w, names, groups, release) != []
    ensures GroupsFailures(w, names, groups, release, ids) != []
    decreases names
  {
    hide ItemsFailures, ItemsBlockers, ItemsIds;
    var group := Get(groups, names[0]);
    if ItemsBlockers(w, GroupItems(group), release) != [] {
      NoItemsNoBlockers(w, release);
      ItemsBlocked(w, Prefixed(names[0]), GroupItems(group), release, ids);
    } else {
      GroupsBlocked(w, names[1..], groups, release, ids + ToSet(ItemsIds(GroupItems(group))));
    }
  }

  lemma NoItemsNoBlockers(w: World, release: bool)
    ensures ItemsBlockers(w, [], release) == []
  {
  }

  /** A release blocker never comes without a failure, so the list is only ever shown with a refusal. */
  lemma BlockersMeanFailure(w: World, file: ManifestFile, release: bool)
    requires ReleaseBlockers(w, file, release) != []
    ensures Failures(w, file, release) != []
  {
    hide GroupsFailures, GroupsBlockers, Header;
    var m := file.value.fields;
    NoNamesNoBlockers(w, GroupsOf(m), release);
    GroupsBlocked(w, GroupNames(w, m), GroupsOf(m), release, {});
  }

  lemma NoNamesNoBlockers(w: World, groups: Object, release: bool)
    ensures GroupsBlockers(w, [], groups, release) == []
  {
  }

  /** An artifact that names what it waits for, and is not complete with files, announces it. */
  ghost predicate Announces(w: World, artifact: Json, text: string) {
    artifact.JObj? &&
    var a := artifact.fields;
    && WordAt(a, "release_blocker")
    && !(Complete(a) && exists globs :: Listing(a, "globs", globs) && globs != [] && w.hasFiles(globs))
    && text == (if WordAt(a, "release_blocker_id") then a["release_blocker_id"].s + ": " else "") + a["release_blocker"].s
  }

  lemma OneAnnounced(w: World, artifact: Json, text: string)
    ensures text in ArtifactBlockers(w, artifact, true) <==> Announces(w, artifact, text)
  {
    if artifact.JObj? {
      var a := artifact.fields;
      ListingIs(a, "globs");
      hide Listing, StringList;
      assert (exists globs :: Listing(a, "globs", globs) && globs != [] && w.hasFiles(globs)) <==> HasFiles(w, GlobsOf(a));
    }
  }

  lemma {:induction false} ItemsAnnounced(w: World, items: seq<Json>, text: string)
    ensures text in ItemsBlockers(w, items, true) <==> exists k :: 0 <= k < |items| && Announces(w, items[k], text)
  {
    hide Announces, ArtifactBlockers;
    if items != [] {
      OneAnnounced(w, items[0], text);
      ItemsAnnounced(w, items[1..], text);
      assert forall k :: 1 <= k < |items| ==> items[k] == items[1..][k - 1];
    }
  }

  lemma {:induction false} GroupsAnnounced(w: World, names: seq<string>, groups: Object, text: string)
    ensures text in GroupsBlockers(w, names, groups, true) <==>
            exists i :: 0 <= i < |names| && text in ItemsBlockers(w, GroupItems(Get(groups, names[i])), true)
  {
    hide ItemsBlockers, GroupItems, Get;
    if names != [] {
      GroupsAnnounced(w, names[1..], groups, text);
      assert forall i :: 1 <= i < |names| ==> names[i] == names[1..][i - 1];
    }
  }

  /** The artifact at a place of the manifest announces this text. */
  ghost predicate AnnouncedAt(w: World, m: Object, name: string, k: int, text: string) {
    "artifact_groups" in m && m["artifact_groups"].JObj? &&
    var groups := m["artifact_groups"].fields;
    name in groups && groups[name].JObj? &&
    var g := groups[name].fields;
    "artifacts" in g && g["artifacts"].JList? && 0 <= k < |g["artifacts"].items| && Announces(w, g["artifacts"].items[k], text)
  }

  lemma GroupAnnounced(w: World, m: Object, name: string, text: string)
    requires name in GroupsOf(m)
    ensures text in ItemsBlockers(w, GroupItems(GroupsOf(m)[name]), true) <==> exists k :: AnnouncedAt(w, m, name, k, text)
  {
    var items := GroupItems(GroupsOf(m)[name]);
    ItemsAnnounced(w, items, text);
    hide Announces, ItemsBlockers;
    if k :| 0 <= k < |items| && Announces(w, items[k], text) {
      assert AnnouncedAt(w, m, name, k, text);
    }
    if k :| AnnouncedAt(w, m, name, k, text) {
      assert Announces(w, items[k], text);
    }
  }

  /** The release blockers are exactly what the artifacts of the manifest announce; a preflight has none. */
  lemma ReleaseBlockersAre(w: World, m: Object, text: string)
    requires Iterates(w)
    ensures text in ReleaseBlockers(w, Loaded(JObj(m)), true) <==> exists name, k :: AnnouncedAt(w, m, name, k, text)
    ensures ReleaseBlockers(w, Loaded(JObj(m)), false) == []
  {
    NoBlockersBefore(w, GroupNames(w, m), GroupsOf(m));
    GroupsAnnounced(w, GroupNames(w, m), GroupsOf(m), text);
    AnnouncedByName(w, m, text);
    NamesOf(w, m);
    hide AnnouncedAt, ItemsBlockers, GroupsBlockers, GroupItems, GroupsOf, Iterates, GroupNames;
  }

  lemma NamesOf(w: World, m: Object)
    requires Iterates(w)
    ensures forall name :: name in GroupsOf(m) <==> exists i :: 0 <= i < |GroupNames(w, m)| && GroupNames(w, m)[i] == name
    ensures forall i :: 0 <= i < |GroupNames(w, m)| ==> Get(GroupsOf(m), GroupNames(w, m)[i]) == GroupsOf(m)[GroupNames(w, m)[i]]
  {
    assert Lists(w.order(GroupsOf(m)), GroupsOf(m));
    var names := GroupNames(w, m);
    assert forall i :: 0 <= i < |names| ==> names[i] in names;
    assert forall name :: name in GroupsOf(m) <==> name in names;
    forall name
      ensures name in GroupsOf(m) <==> exists i :: 0 <= i < |names| && names[i] == name
    {
    }
  }

  lemma AnnouncedByName(w: World, m: Object, text: string)
    ensures (exists name, k :: AnnouncedAt(w, m, name, k, text)) <==>
            exists name :: name in GroupsOf(m) && text in ItemsBlockers(w, GroupItems(GroupsOf(m)[name]), true)
  {
    assert forall name, k :: AnnouncedAt(w, m, name, k, text) ==> name in GroupsOf(m);
    forall name | name in GroupsOf(m)
      ensures text in ItemsBlockers(w, GroupItems(GroupsOf(m)[name]), true) <==> exists k :: AnnouncedAt(w, m, name, k, text)
    {
      GroupAnnounced(w, m, name, text);
    }
  }

  lemma {:induction false} NoBlockersBefore(w: World, names: seq<string>, groups: Object)
    ensures GroupsBlockers(w, names, groups, false) == []
  {
    if names != [] {
      NoItemBlockers(w, GroupItems(Get(groups, names[0])));
      NoBlockersBefore(w, names[1..], groups);
    }
  }

  lemma {:induction false} NoItemBlockers(w: World, items: seq<Json>)
    ensures ItemsBlockers(w, items, false) == []
  {
    if items != [] {
      NoItemBlockers(w, items[1..]);
    }
  }

  // ---------- where failures are reported ----------

  /** Every failure stands under one field. */
  ghost predicate At(fs: seq<Failure>, field: string) {
    forall i :: 0 <= i < |fs| ==> fs[i].field == field
  }

  ghost predicate AtEither(fs: seq<Failure>, field: string, other: string) {
    forall i :: 0 <= i < |fs| ==> fs[i].field == field || fs[i].field == other
  }

  lemma EitherAppend(a: seq<Failure>, b: seq<Failure>, field: string, other: string)
    requires AtEither(a, field, other) && AtEither(b, field, other)
    ensures AtEither(a + b, field, other)
  {
  }

  lemma {:induction false} PathsAt(w: World, field: string, paths: seq<string>)
    ensures At(BadPaths(w, field, paths), field)
  {
    if paths != [] {
      PathsAt(w, field, paths[..|paths| - 1]);
    }
  }

  lemma {:induction false} DigestsAt(field: string, metadata: Object, keys: seq<string>)
    ensures At(BadDigests(field, metadata, keys), field)
  {
    if keys != [] {
      DigestsAt(field, metadata, keys[..|keys| - 1]);
    }
  }

  lemma {:induction false} TagAt(field: string, index: nat, ps: seq<RecordProblem>)
    ensures At(Tag(field, index, ps), field)
  {
    if ps != [] {
      TagAt(field, index, ps[..|ps| - 1]);
    }
  }

  lemma {:induction false} EachAt(w: World, field: string, name: string, id: Option<string>, globs: seq<string>, records: seq<Json>)
    ensures At(EachRecord(w, field, name, id, globs, records), field)
  {
    hide RecordProblems;
    if records != [] {
      var n := |records| - 1;
      EachAt(w, field, name, id, globs, records[..n]);
      TagAt(field, n, RecordProblems(w, name, id, globs, records[n]));
    }
  }

  lemma ShapeAt(w: World, group: string, field: string, a: Object, release: bool)
    requires field == FieldOf(group, a)
    ensures AtEither(Identity(group, a), group, field) && AtEither(Globs(w, field, a), group, field)
    ensures AtEither(MetadataShape(w, field, a), group, field) && AtEither(RequiredMetadata(field, a, release), group, field)
  {
    PathsAt(w, field, GlobsOf(a));
    DigestsAt(field, MetadataOf(a), w.order(MetadataOf(a)));
    hide BadPaths, BadDigests, FieldOf, GlobsOf, MetadataOf, AbsentKeys, BadMetadataField, BadRequiredField;
  }

  lemma StateAt(w: World, group: string, field: string, a: Object, release: bool, ids: set<string>)
    ensures AtEither(Blocker(field, a, release, ids), group, field) && AtEither(Files(w, field, a), group, field)
    ensures AtEither(ReleaseOnly(w, field, a, release), group, field)
  {
    hide GlobsOf;
  }

  lemma EvidenceAt(w: World, group: string, field: string, a: Object)
    ensures AtEither(Records(w, field, NameOf(a), IdOf(a), GlobsOf(a), Get(a, "evidence_records"), IsComplete(a)), group, field)
  {
    var records := Get(a, "evidence_records");
    EachAt(w, field, NameOf(a), IdOf(a), GlobsOf(a), if records.JList? then records.items else []);
    hide EachRecord, NameOf, IdOf, GlobsOf;
  }

  lemma NoMappingAt(w: World, group: string, artifact: Json, release: bool, ids: set<string>)
    requires !artifact.JObj?
    ensures AtEither(ArtifactFailures(w, group, artifact, release, ids), group, group + "." + "unnamed")
  {
  }

  /** The failures of an artifact stand under its group or under the group and its name. */
  lemma FailuresAt(w: World, group: string, artifact: Json, release: bool, ids: set<string>)
    ensures var name := if artifact.JObj? && WordAt(artifact.fields, "name") then artifact.fields["name"].s else "unnamed";
            AtEither(ArtifactFailures(w, group, artifact, release, ids), group, group + "." + name)
  {
    hide AtEither;
    if !artifact.JObj? {
      NoMappingAt(w, group, artifact, release, ids);
    } else {
      var a := artifact.fields;
      var field := FieldOf(group, a);
      assert field == group + "." + if WordAt(a, "name") then a["name"].s else "unnamed";
      ShapeAt(w, group, field, a, release);
      StateAt(w, group, field, a, release, ids);
      EvidenceAt(w, group, field, a);
      hide FieldOf, Identity, Globs, MetadataShape, RequiredMetadata, Blocker, Files, Records, ReleaseOnly;
      var one := Identity(group, a) + Globs(w, field, a) + MetadataShape(w, field, a) + RequiredMetadata(field, a, release);
      EitherAppend(Identity(group, a), Globs(w, field, a), group, field);
      EitherAppend(Identity(group, a) + Globs(w, field, a), MetadataShape(w, field, a), group, field);
      EitherAppend(Identity(group, a) + Globs(w, field, a) + MetadataShape(w, field, a), RequiredMetadata(field, a, release), group, field);
      var records := Records(w, field, NameOf(a), IdOf(a), GlobsOf(a), Get(a, "evidence_records"), IsComplete(a));
      EitherAppend(one, Blocker(field, a, release, ids), group, field);
      EitherAppend(one + Blocker(field, a, release, ids), Files(w, field, a), group, field);
      EitherAppend(one + Blocker(field, a, release, ids) + Files(w, field, a), records, group, field);
      EitherAppend(one + Blocker(field, a, release, ids) + Files(w, field, a) + records, ReleaseOnly(w, field, a, release), group, field);
    }
  }

  // ---------- when a manifest raises ----------

  /** A list or a mapping where a word is looked up in a set. */
  predicate Container(d: Object, key: string) {
    key in d && (d[key].JList? || d[key].JObj?)
  }

  predicate RecordBreaks(record: Json) {
    record.JObj? && Container(record.fields, "acceptance_status")
  }

  predicate ArtifactBreaks(artifact: Json) {
    artifact.JObj? &&
    var a := artifact.fields;
    || Container(a, "status")
    || ("evidence_records" in a && a["evidence_records"].JList?
        && exists k :: 0 <= k < |a["evidence_records"].items| && RecordBreaks(a["evidence_records"].items[k]))
  }

  predicate GroupBreaks(group: Json) {
    group.JObj? &&
    var g := group.fields;
    || Container(g, "status")
    || ("artifacts" in g && g["artifacts"].JList?
        && exists k :: 0 <= k < |g["artifacts"].items| && ArtifactBreaks(g["artifacts"].items[k]))
  }

  lemma ArtifactBreaksIff(artifact: Json)
    ensures ArtifactRaises(artifact) <==> ArtifactBreaks(artifact)
  {
    if artifact.JObj? {
      var records := Get(artifact.fields, "evidence_records");
      assert forall r :: RecordRaises(r) <==> RecordBreaks(r);
      assert records.JList? ==> forall k :: 0 <= k < |records.items| ==> records.items[k] in records.items;
    }
  }

  lemma GroupBreaksIff(group: Json)
    ensures GroupRaises(group) <==> GroupBreaks(group)
  {
    if group.JObj? {
      forall a
        ensures ArtifactRaises(a) <==> ArtifactBreaks(a)
      {
        ArtifactBreaksIff(a);
      }
      hide ArtifactRaises, ArtifactBreaks;
      var items := GroupItems(group);
      assert forall k :: 0 <= k < |items| ==> items[k] in items;
    }
  }

  /** Validation raises exactly when the status of some group or artifact, or of a record's acceptance, is a list or a mapping. */
  lemma RaisesIff(w: World, m: Object)
    requires Iterates(w)
    ensures Raises(w, Loaded(JObj(m))) <==>
            && "artifact_groups" in m && m["artifact_groups"].JObj?
            && exists name :: name in m["artifact_groups"].fields && GroupBreaks(m["artifact_groups"].fields[name])
  {
    NamesOf(w, m);
    forall group
      ensures GroupRaises(group) <==> GroupBreaks(group)
    {
      GroupBreaksIff(group);
    }
    hide GroupRaises, GroupBreaks, Iterates;
    var names, groups := GroupNames(w, m), GroupsOf(m);
    assert forall i :: 0 <= i < |names| ==> names[i] in names;
    if name :| name in names && GroupRaises(Get(groups, name)) {
      var i :| 0 <= i < |names| && names[i] == name;
      assert groups[name] == Get(groups, name);
    }
  }

  // ---------- printing the blockers ----------

  function Firsts(items: seq<string>): seq<string> {
    if items == [] then []
    else
      var n := |items| - 1;
      Firsts(items[..n]) + if items[n] in items[..n] then [] else [items[n]]
  }

  /** `unique_items` */
  method UniqueItems(items: seq<string>) returns (unique: seq<string>)
    ensures unique == Firsts(items)
  {
    var seen: set<string> := {};
    unique := [];
    for i := 0 to |items|
      invariant seen == ToSet(items[..i]) && unique == Firsts(items[..i])
    {
      assert items[..i + 1] == items[..i] + [items[i]];
      assert items[..i + 1][..i] == items[..i];
      if items[i] !in seen {
        seen := seen + {items[i]};
        unique := unique + [items[i]];
      }
    }
    assert items[..|items|] == items;
  }

  lemma FirstsStep(init: seq<string>, last: string)
    ensures Firsts(init + [last]) == Firsts(init) + if last in init then [] else [last]
  {
    assert (init + [last])[..|init|] == init;
  }

  lemma ToSetAppend(a: seq<string>, b: seq<string>)
    ensures ToSet(a + b) == ToSet(a) + ToSet(b)
  {
  }

  /** Nothing is lost, nothing is repeated, and the order is kept. */
  lemma {:induction false} FirstsMean(items: seq<string>)
    ensures ToSet(Firsts(items)) == ToSet(items)
    ensures forall i, j :: 0 <= i < j < |Firsts(items)| ==> Firsts(items)[i] != Firsts(items)[j]
    ensures Sub(Firsts(items), items)
  {
    if items != [] {
      var n := |items| - 1;
      var init, last := items[..n], items[n];
      FirstsMean(init);
      assert items == init + [last];
      var more := if last in init then [] else [last];
      FirstsStep(init, last);
      ToSetAppend(init, [last]);
      ToSetAppend(Firsts(init), more);
      hide Firsts, Sub;
      assert last in init <==> last in ToSet(init);
      assert forall i :: 0 <= i < |Firsts(init)| ==> Firsts(init)[i] in ToSet(Firsts(init));
      SubWhole([last]);
      SubAppend(Firsts(init), init, more, [last]);
    }
  }
}
