/** Duplicate keys in a YAML document: `validate_no_duplicate_yaml_keys` over the composed node tree. */
module YamlKeys {

  datatype Node = Scalar(value: string, line: nat) | Sequence(items: seq<Node>) | Mapping(pairs: seq<Pair>)

  datatype Pair = Pair(key: Node, value: Node)

  datatype Duplicate = Duplicate(path: string, key: string, firstLine: nat, line: nat)

  function ChildPath(path: string, key: Node): string {
    if key.Scalar? then (if path != "" then path + "." + key.value else key.value) else path
  }

  /** The text of a scalar key, or nothing. */
  function KeyText(p: Pair): set<string> {
    if p.key.Scalar? then {p.key.value} else {}
  }

  function KeySet(pairs: seq<Pair>): (keys: set<string>)
    ensures forall s :: s in keys <==> exists i :: 0 <= i < |pairs| && pairs[i].key.Scalar? && pairs[i].key.value == s
  {
    if pairs == [] then {}
    else
      var n := |pairs| - 1;
      assert forall i :: 0 <= i < n ==> pairs[..n][i] == pairs[i];
      KeySet(pairs[..n]) + KeyText(pairs[n])
  }

  /** Occurrences of scalar keys. */
  function KeyCount(pairs: seq<Pair>): nat {
    if pairs == [] then 0
    else KeyCount(pairs[..|pairs| - 1]) + if pairs[|pairs| - 1].key.Scalar? then 1 else 0
  }

  /** Line of the first occurrence of a key. */
  function FirstLine(pairs: seq<Pair>, s: string): nat
    requires s in KeySet(pairs)
  {
    var n := |pairs| - 1;
    if s in KeySet(pairs[..n]) then FirstLine(pairs[..n], s) else pairs[n].key.line + 1
  }

  /** What the k-th pair itself adds: a report when its key was seen before in this mapping. */
  function Own(pairs: seq<Pair>, path: string, k: nat): seq<Duplicate>
    requires k < |pairs|
  {
    var key := pairs[k].key;
    if key.Scalar? && key.value in KeySet(pairs[..k])
    then [Duplicate(path, key.value, FirstLine(pairs[..k], key.value), key.line + 1)]
    else []
  }

  /** The reports of the first k pairs and everything below them. */
  function Found(node: Node, path: string, k: nat): seq<Duplicate>
    requires node.Mapping? && k <= |node.pairs|
    decreases node, k
  {
    if k == 0 then []
    else
      var p := node.pairs[k - 1];
      Found(node, path, k - 1) + Own(node.pairs, path, k - 1) + Duplicates(p.value, ChildPath(path, p.key))
  }

  function Duplicates(node: Node, path: string): seq<Duplicate>
    decreases node, if node.Mapping? then |node.pairs| + 1 else 0
  {
    if node.Mapping? then Found(node, path, |node.pairs|) else []
  }

  /** The dictionary `seen` after some pairs. */
  ghost predicate Tracks(seen: map<string, nat>, pairs: seq<Pair>) {
    seen.Keys == KeySet(pairs) && forall s :: s in seen ==> seen[s] == FirstLine(pairs, s)
  }

  /** One turn of the loop: what it reports and what it remembers. */
  lemma TracksStep(seen: map<string, nat>, pairs: seq<Pair>, path: string, k: nat)
    requires k < |pairs| && Tracks(seen, pairs[..k])
    ensures var key := pairs[k].key;
            && Own(pairs, path, k) == (if key.Scalar? && key.value in seen
                                       then [Duplicate(path, key.value, seen[key.value], key.line + 1)] else [])
            && Tracks(if key.Scalar? && key.value !in seen then seen[key.value := key.line + 1] else seen, pairs[..k + 1])
  {
    assert pairs[..k + 1][..k] == pairs[..k];
  }

  lemma FoundStep(node: Node, path: string, k: nat)
    requires node.Mapping? && k < |node.pairs|
    ensures var p := node.pairs[k];
            Found(node, path, k + 1) == Found(node, path, k) + Own(node.pairs, path, k) + Duplicates(p.value, ChildPath(path, p.key))
  {
  }

  /** The part of the loop that looks at the key. */
  method NoteKey(p: Pair, path: string, seen: map<string, nat>, ghost pairs: seq<Pair>, ghost k: nat)
    returns (reports: seq<Duplicate>, seenNow: map<string, nat>, childPath: string)
    requires k < |pairs| && p == pairs[k] && Tracks(seen, pairs[..k])
    ensures reports == Own(pairs, path, k) && Tracks(seenNow, pairs[..k + 1]) && childPath == ChildPath(path, p.key)
  {
    hide Tracks, Own;
    TracksStep(seen, pairs, path, k);
    reports, seenNow, childPath := [], seen, path;
    if p.key.Scalar? {
      var key := p.key.value;
      if key in seen {
        reports := [Duplicate(path, key, seen[key], p.key.line + 1)];
      } else {
        seenNow := seen[key := p.key.line + 1];
      }
      childPath := if path != "" then path + "." + key else key;
    }
  }

  /** The nested function `visit`: it extends the shared list of failures. */
  method Visit(node: Node, path: string, failures: seq<Duplicate>) returns (r: seq<Duplicate>)
    ensures r == failures + Duplicates(node, path)
    decreases node
  {
    r := failures;
    if node.Mapping? {
      var seen: map<string, nat> := map[];
      TracksNothing();
      hide Tracks, Own;
      assert node.pairs[..0] == [];
      for k := 0 to |node.pairs|
        invariant r == failures + Found(node, path, k)
        invariant Tracks(seen, node.pairs[..k])
      {
        var p := node.pairs[k];
        FoundStep(node, path, k);
        var reports, seenNow, childPath := NoteKey(p, path, seen, node.pairs, k);
        Concat(failures, Found(node, path, k), reports, Duplicates(p.value, childPath));
        seen := seenNow;
        r := Visit(p.value, childPath, r + reports);
      }
    }
  }

  lemma Concat(a: seq<Duplicate>, b: seq<Duplicate>, c: seq<Duplicate>, d: seq<Duplicate>)
    ensures a + b + c + d == a + (b + c + d) && a + b + [] == a + b
  {
  }

  lemma TracksNothing()
    ensures Tracks(map[], [])
  {
  }

  /** `root is None` for an empty document. */
  method ValidateNoDuplicateKeys(root: Document) returns (failures: seq<Duplicate>)
    ensures failures == if root.Root? then Duplicates(root.node, "") else []
  {
    failures := [];
    if root.Root? {
      failures := Visit(root.node, "", []);
    }
  }

  datatype Document = NoDocument | Root(node: Node)

  // ---------- soundness and completeness ----------

  /** The mappings reached through mapping values only, in order. */
  function Reached(node: Node): seq<Node>
    decreases node, if node.Mapping? then |node.pairs| + 1 else 0
  {
    if node.Mapping? then [node] + ReachedBelow(node, |node.pairs|) else []
  }

  function ReachedBelow(node: Node, k: nat): seq<Node>
    requires node.Mapping? && k <= |node.pairs|
    decreases node, k
  {
    if k == 0 then [] else ReachedBelow(node, k - 1) + Reached(node.pairs[k - 1].value)
  }

  /** Occurrences of scalar keys beyond the first of each. */
  function Excess(pairs: seq<Pair>): int {
    KeyCount(pairs) - |KeySet(pairs)|
  }

  function TotalExcess(nodes: seq<Node>): int {
    if nodes == [] then 0
    else
      var last := nodes[|nodes| - 1];
      TotalExcess(nodes[..|nodes| - 1]) + if last.Mapping? then Excess(last.pairs) else 0
  }

  lemma {:induction false} TotalExcessAppend(a: seq<Node>, b: seq<Node>)
    ensures TotalExcess(a + b) == TotalExcess(a) + TotalExcess(b)
  {
    if b == [] {
      assert a + b == a;
    } else {
      assert (a + b)[..|a + b| - 1] == a + b[..|b| - 1];
      TotalExcessAppend(a, b[..|b| - 1]);
    }
  }

  lemma ExcessStep(init: seq<Pair>, last: Pair)
    ensures Excess(init + [last]) == Excess(init) + if last.key.Scalar? && last.key.value in KeySet(init) then 1 else 0
  {
    assert (init + [last])[..|init|] == init;
    if last.key.Scalar? {
      var s := last.key.value;
      if s in KeySet(init) {
        assert KeySet(init) + {s} == KeySet(init);
      } else {
        assert |KeySet(init) + {s}| == |KeySet(init)| + 1;
      }
    }
  }

  lemma OwnIsExcess(pairs: seq<Pair>, path: string, k: nat)
    requires k < |pairs|
    ensures |Own(pairs, path, k)| == Excess(pairs[..k + 1]) - Excess(pairs[..k])
  {
    hide Excess, KeySet;
    ExcessStep(pairs[..k], pairs[k]);
    assert pairs[..k + 1] == pairs[..k] + [pairs[k]];
  }

  lemma ReachedStep(node: Node, k: nat)
    requires node.Mapping? && k < |node.pairs|
    ensures TotalExcess(ReachedBelow(node, k + 1)) == TotalExcess(ReachedBelow(node, k)) + TotalExcess(Reached(node.pairs[k].value))
  {
    TotalExcessAppend(ReachedBelow(node, k), Reached(node.pairs[k].value));
  }

  lemma NothingYet(node: Node, path: string)
    requires node.Mapping?
    ensures Found(node, path, 0) == [] && ReachedBelow(node, 0) == [] && Excess(node.pairs[..0]) == 0 && TotalExcess([]) == 0
  {
    assert node.pairs[..0] == [];
  }

  lemma {:induction false} CountFound(node: Node, path: string, k: nat)
    requires node.Mapping? && k <= |node.pairs|
    ensures |Found(node, path, k)| == Excess(node.pairs[..k]) + TotalExcess(ReachedBelow(node, k))
    decreases node, k
  {
    hide *;
    if k == 0 {
      NothingYet(node, path);
    } else {
      var p := node.pairs[k - 1];
      CountFound(node, path, k - 1);
      OwnIsExcess(node.pairs, path, k - 1);
      FoundStep(node, path, k - 1);
      ReachedStep(node, k - 1);
      CountDuplicates(p.value, ChildPath(path, p.key));
    }
  }

  /**
   The number of reports is the number of scalar-key occurrences minus that of distinct scalar keys,
   summed over the mappings reached through mapping values.
   */
  lemma {:induction false} CountDuplicates(node: Node, path: string)
    ensures |Duplicates(node, path)| == TotalExcess(Reached(node))
    decreases node, if node.Mapping? then |node.pairs| + 1 else 0
  {
    if node.Mapping? {
      CountFound(node, path, |node.pairs|);
      assert node.pairs[..|node.pairs|] == node.pairs;
      TotalExcessAppend([node], ReachedBelow(node, |node.pairs|));
      assert [node][..0] == [];
    }
  }

  ghost predicate DistinctKeys(pairs: seq<Pair>) {
    forall i, j :: 0 <= i < j < |pairs| && pairs[i].key.Scalar? && pairs[j].key.Scalar? ==> pairs[i].key.value != pairs[j].key.value
  }

  lemma DistinctSnoc(init: seq<Pair>, last: Pair)
    ensures DistinctKeys(init + [last]) <==> DistinctKeys(init) && !(last.key.Scalar? && last.key.value in KeySet(init))
  {
    var pairs, n := init + [last], |init|;
    assert forall i :: 0 <= i < n ==> init[i] == pairs[i];
    if DistinctKeys(pairs) {
      forall i | 0 <= i < n && last.key.Scalar? && init[i].key.Scalar?
        ensures init[i].key.value != last.key.value
      {
        assert pairs[i].key.value != pairs[n].key.value;
      }
    }
  }

  lemma {:induction false} ExcessSign(pairs: seq<Pair>)
    ensures Excess(pairs) >= 0
    ensures Excess(pairs) == 0 <==> DistinctKeys(pairs)
  {
    if pairs != [] {
      hide Excess, KeySet, DistinctKeys;
      var init, last := pairs[..|pairs| - 1], pairs[|pairs| - 1];
      assert pairs == init + [last];
      ExcessSign(init);
      ExcessStep(init, last);
      DistinctSnoc(init, last);
    }
  }

  lemma {:induction false} TotalSign(nodes: seq<Node>)
    ensures TotalExcess(nodes) >= 0
    ensures TotalExcess(nodes) == 0 <==> forall i :: 0 <= i < |nodes| && nodes[i].Mapping? ==> DistinctKeys(nodes[i].pairs)
  {
    if nodes != [] {
      var n := |nodes| - 1;
      TotalSign(nodes[..n]);
      if nodes[n].Mapping? {
        ExcessSign(nodes[n].pairs);
      }
      assert forall i :: 0 <= i < n ==> nodes[..n][i] == nodes[i];
    }
  }

  /** No report exactly when no reached mapping repeats a scalar key. */
  lemma CleanMeansDistinct(node: Node, path: string)
    ensures Duplicates(node, path) == [] <==>
            forall i :: 0 <= i < |Reached(node)| && Reached(node)[i].Mapping? ==> DistinctKeys(Reached(node)[i].pairs)
  {
    CountDuplicates(node, path);
    TotalSign(Reached(node));
  }

  predicate KeyAt(p: Pair, s: string, line: nat) {
    p.key.Scalar? && p.key.value == s && p.key.line + 1 == line
  }

  /** Every report is about a key with two occurrences in one reached mapping, at the lines it names. */
  ghost predicate Describes(d: Duplicate, m: Node) {
    m.Mapping? && exists i, j :: 0 <= i < j < |m.pairs| && KeyAt(m.pairs[i], d.key, d.firstLine) && KeyAt(m.pairs[j], d.key, d.line)
  }

  lemma {:induction false} FirstLineIsLine(pairs: seq<Pair>, s: string)
    requires s in KeySet(pairs)
    ensures exists i :: 0 <= i < |pairs| && KeyAt(pairs[i], s, FirstLine(pairs, s))
  {
    var n := |pairs| - 1;
    if s in KeySet(pairs[..n]) {
      FirstLineIsLine(pairs[..n], s);
      var i :| 0 <= i < n && KeyAt(pairs[..n][i], s, FirstLine(pairs[..n], s));
      assert KeyAt(pairs[i], s, FirstLine(pairs, s));
    } else {
      assert KeyAt(pairs[n], s, FirstLine(pairs, s));
    }
  }

  lemma {:induction false} FoundIsReal(node: Node, path: string, k: nat)
    requires node.Mapping? && k <= |node.pairs|
    ensures forall d :: d in Found(node, path, k) ==>
              Describes(d, node) || exists m :: m in ReachedBelow(node, k) && Describes(d, m)
    decreases node, k
  {
    if k > 0 {
      var p := node.pairs[k - 1];
      FoundIsReal(node, path, k - 1);
      ReportIsReal(p.value, ChildPath(path, p.key));
      forall d | d in Own(node.pairs, path, k - 1)
        ensures Describes(d, node)
      {
        FirstLineIsLine(node.pairs[..k - 1], d.key);
        var i :| 0 <= i < k - 1 && KeyAt(node.pairs[..k - 1][i], d.key, d.firstLine);
        assert KeyAt(node.pairs[i], d.key, d.firstLine) && KeyAt(p, d.key, d.line);
      }
    }
  }

  lemma {:induction false} ReportIsReal(node: Node, path: string)
    ensures forall d :: d in Duplicates(node, path) ==> exists m :: m in Reached(node) && Describes(d, m)
    decreases node, if node.Mapping? then |node.pairs| + 1 else 0
  {
    if node.Mapping? {
      FoundIsReal(node, path, |node.pairs|);
      assert node in Reached(node);
    }
  }

  // ---------- the whole tree ----------

  /** Every mapping of the tree: below keys, values and sequence items alike. */
  function AllMappings(node: Node): seq<Node>
    decreases node, 2
  {
    match node
    case Scalar(_, _) => []
    case Sequence(items) => MappingsOfItems(node, |items|)
    case Mapping(pairs) => [node] + MappingsOfPairs(node, |pairs|)
  }

  function MappingsOfItems(node: Node, k: nat): seq<Node>
    requires node.Sequence? && k <= |node.items|
    decreases node, 1, k
  {
    if k == 0 then [] else MappingsOfItems(node, k - 1) + AllMappings(node.items[k - 1])
  }

  function MappingsOfPairs(node: Node, k: nat): seq<Node>
    requires node.Mapping? && k <= |node.pairs|
    decreases node, 1, k
  {
    if k == 0 then []
    else
      var p := node.pairs[k - 1];
      MappingsOfPairs(node, k - 1) + AllMappings(p.key) + AllMappings(p.value)
  }

  /** The mappings that the visitor does not reach: below sequences and below keys. */
  function Unreached(node: Node): seq<Node>
    decreases node, 2
  {
    match node
    case Scalar(_, _) => []
    case Sequence(_) => AllMappings(node)
    case Mapping(pairs) => UnreachedBelow(node, |pairs|)
  }

  function UnreachedBelow(node: Node, k: nat): seq<Node>
    requires node.Mapping? && k <= |node.pairs|
    decreases node, 1, k
  {
    if k == 0 then []
    else
      var p := node.pairs[k - 1];
      UnreachedBelow(node, k - 1) + AllMappings(p.key) + Unreached(p.value)
  }

  /** Reached and unreached mappings make up the tree. */
  lemma {:induction false} Partition(node: Node)
    ensures multiset(AllMappings(node)) == multiset(Reached(node)) + multiset(Unreached(node))
    ensures TotalExcess(AllMappings(node)) == TotalExcess(Reached(node)) + TotalExcess(Unreached(node))
    decreases node, 2
  {
    if node.Mapping? {
      PartitionBelow(node, |node.pairs|);
      TotalExcessAppend([node], ReachedBelow(node, |node.pairs|));
      TotalExcessAppend([node], MappingsOfPairs(node, |node.pairs|));
    }
  }

  lemma PairUnfold(node: Node, k: nat)
    requires node.Mapping? && k < |node.pairs|
    ensures var p := node.pairs[k];
            && MappingsOfPairs(node, k + 1) == MappingsOfPairs(node, k) + AllMappings(p.key) + AllMappings(p.value)
            && ReachedBelow(node, k + 1) == ReachedBelow(node, k) + Reached(p.value)
            && UnreachedBelow(node, k + 1) == UnreachedBelow(node, k) + AllMappings(p.key) + Unreached(p.value)
  {
  }

  lemma NoPairs(node: Node)
    requires node.Mapping?
    ensures MappingsOfPairs(node, 0) == [] && ReachedBelow(node, 0) == [] && UnreachedBelow(node, 0) == [] && TotalExcess([]) == 0
  {
  }

  lemma {:induction false} PartitionBelow(node: Node, k: nat)
    requires node.Mapping? && k <= |node.pairs|
    ensures multiset(MappingsOfPairs(node, k)) == multiset(ReachedBelow(node, k)) + multiset(UnreachedBelow(node, k))
    ensures TotalExcess(MappingsOfPairs(node, k)) == TotalExcess(ReachedBelow(node, k)) + TotalExcess(UnreachedBelow(node, k))
    decreases node, 1, k
  {
    hide *;
    if k == 0 {
      NoPairs(node);
    } else {
      var p := node.pairs[k - 1];
      PairUnfold(node, k - 1);
      PartitionBelow(node, k - 1);
      Partition(p.value);
      JoinPartitions(MappingsOfPairs(node, k - 1), ReachedBelow(node, k - 1), UnreachedBelow(node, k - 1), AllMappings(p.key),
                     AllMappings(p.value), Reached(p.value), Unreached(p.value));
    }
  }

  /** Two partitions, with the mappings of a key between them. */
  lemma JoinPartitions(m: seq<Node>, r: seq<Node>, u: seq<Node>, key: seq<Node>, n: seq<Node>, s: seq<Node>, v: seq<Node>)
    requires multiset(m) == multiset(r) + multiset(u) && multiset(n) == multiset(s) + multiset(v)
    requires TotalExcess(m) == TotalExcess(r) + TotalExcess(u) && TotalExcess(n) == TotalExcess(s) + TotalExcess(v)
    ensures multiset(m + key + n) == multiset(r + s) + multiset(u + key + v)
    ensures TotalExcess(m + key + n) == TotalExcess(r + s) + TotalExcess(u + key + v)
  {
    hide *;
    ThreeParts(m, key, n);
    ThreeParts(u, key, v);
    TotalExcessAppend(r, s);
  }

  lemma ThreeParts(a: seq<Node>, b: seq<Node>, c: seq<Node>)
    ensures TotalExcess(a + b + c) == TotalExcess(a) + TotalExcess(b) + TotalExcess(c)
  {
    TotalExcessAppend(a, b);
    TotalExcessAppend(a + b, c);
  }

  ghost predicate AllDistinct(nodes: seq<Node>) {
    forall i :: 0 <= i < |nodes| && nodes[i].Mapping? ==> DistinctKeys(nodes[i].pairs)
  }

  /** What goes unreported is exactly the excess of the mappings that are not reached. */
  lemma ReportsCoverReached(node: Node, path: string)
    ensures |Duplicates(node, path)| + TotalExcess(Unreached(node)) == TotalExcess(AllMappings(node))
  {
    CountDuplicates(node, path);
    Partition(node);
  }

  /**
   A clean verdict speaks for the whole document exactly as far as the unreached mappings are
   distinct themselves: the document has no repeated key if and only if nothing is reported and no
   unreached mapping repeats one.
   */
  lemma CleanDocumentIff(node: Node, path: string)
    ensures AllDistinct(AllMappings(node)) <==> Duplicates(node, path) == [] && AllDistinct(Unreached(node))
  {
    ReportsCoverReached(node, path);
    TotalSign(AllMappings(node));
    TotalSign(Unreached(node));
  }

  /** No sequence and no key has a mapping below it. */
  predicate Flat(node: Node)
    decreases node, 2
  {
    match node
    case Scalar(_, _) => true
    case Sequence(_) => AllMappings(node) == []
    case Mapping(pairs) => forall i :: 0 <= i < |pairs| ==> AllMappings(pairs[i].key) == [] && Flat(pairs[i].value)
  }

  lemma {:induction false} FlatIsReached(node: Node)
    ensures Flat(node) <==> Unreached(node) == []
    decreases node, 2
  {
    if node.Mapping? {
      FlatBelow(node, |node.pairs|);
    }
  }

  lemma {:induction false} FlatBelow(node: Node, k: nat)
    requires node.Mapping? && k <= |node.pairs|
    ensures (forall i :: 0 <= i < k ==> AllMappings(node.pairs[i].key) == [] && Flat(node.pairs[i].value)) <==>
            UnreachedBelow(node, k) == []
    decreases node, 1, k
  {
    if k > 0 {
      FlatBelow(node, k - 1);
      FlatIsReached(node.pairs[k - 1].value);
    }
  }

  /** For a document in which no sequence and no key has a mapping below it, the verdict is complete. */
  lemma FlatDocumentIff(node: Node, path: string)
    requires Flat(node)
    ensures Duplicates(node, path) == [] <==> AllDistinct(AllMappings(node))
  {
    FlatIsReached(node);
    CleanDocumentIff(node, path);
  }

  /** Sequences are not entered: a repeated key below one goes unreported. */
  lemma SequencesAreNotEntered(path: string)
    ensures var twice := Mapping([Pair(Scalar("a", 1), Scalar("x", 1)), Pair(Scalar("a", 2), Scalar("y", 2))]);
            Duplicates(twice, path) != [] && Duplicates(Mapping([Pair(Scalar("k", 0), Sequence([twice]))]), path) == []
  {
    var first, second := Pair(Scalar("a", 1), Scalar("x", 1)), Pair(Scalar("a", 2), Scalar("y", 2));
    var twice := Mapping([first, second]);
    assert [first, second][..1] == [first];
    assert "a" in KeySet([first]);
    assert Own(twice.pairs, path, 1) != [];
    assert Found(twice, path, 2) != [];
    var outer := Mapping([Pair(Scalar("k", 0), Sequence([twice]))]);
    assert outer.pairs[..0] == [];
    assert Found(outer, path, 1) == [];
  }
}
