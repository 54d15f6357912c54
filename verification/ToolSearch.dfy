/** Executable lookup of the benchmark runner: `local_search_path` and `command_available`. */
module ToolSearch {
  import opened Json
  import opened Host

  /**
   Answer of `command_available`: `smoke` stands for the reason "repo_local_host_smoke_tool",
   `rejected` lists the candidates passed over for that reason.
   */
  datatype Lookup = Lookup(available: bool, path: Option<string>, smoke: bool, rejected: seq<string>)

  function SmokeDirs(env: Env): seq<string> {
    match env.smokeDir
    case None => []
    case Some(d) => [d]
  }

  /** The smoke directory is searched last, and only when smoke tools are allowed. */
  function SearchDirs(env: Env, allowSmoke: bool): seq<string> {
    env.searchPath + if allowSmoke then SmokeDirs(env) else []
  }

  /** Whether a candidate is a smoke tool depends on the file it resolves to. */
  predicate IsSmoke(env: Env, path: string) {
    env.smokeTarget(env.target(path))
  }

  predicate Acceptable(env: Env, path: string, allowSmoke: bool) {
    allowSmoke || !IsSmoke(env, path)
  }

  /** Candidates in search order, one for each directory that has one. */
  function Hits(env: Env, exe: string, dirs: seq<string>): seq<string> {
    if dirs == [] then []
    else
      var rest := Hits(env, exe, dirs[1..]);
      match env.which(exe, dirs[0])
      case None => rest
      case Some(p) => [p] + rest
  }

  /** Position of the first acceptable candidate, or the length. */
  function FirstAcceptable(env: Env, hits: seq<string>, allowSmoke: bool): (k: nat)
    ensures k <= |hits|
    ensures k < |hits| ==> Acceptable(env, hits[k], allowSmoke)
    ensures forall j :: 0 <= j < k ==> !Acceptable(env, hits[j], allowSmoke)
  {
    if hits == [] || Acceptable(env, hits[0], allowSmoke) then 0
    else 1 + FirstAcceptable(env, hits[1..], allowSmoke)
  }

  function Targets(env: Env, paths: seq<string>): set<string> {
    set p | p in paths :: env.target(p)
  }

  lemma TargetsSnoc(env: Env, paths: seq<string>, p: string)
    ensures Targets(env, paths + [p]) == Targets(env, paths) + {env.target(p)}
  {
    assert forall q :: q in paths + [p] <==> q in paths || q == p;
  }

  /** The candidates whose target no earlier candidate has. */
  function FirstOfEachTarget(env: Env, hits: seq<string>): (r: seq<string>)
    ensures Targets(env, r) == Targets(env, hits)
    ensures forall p :: p in r ==> p in hits
    ensures forall i, j :: 0 <= i < j < |r| ==> env.target(r[i]) != env.target(r[j])
  {
    if hits == [] then []
    else
      var init, last := hits[..|hits| - 1], hits[|hits| - 1];
      assert hits == init + [last];
      var r := FirstOfEachTarget(env, init);
      TargetsSnoc(env, init, last);
      if env.target(last) in Targets(env, init) then
        r
      else
        assert forall p :: p in r ==> env.target(p) in Targets(env, r);
        TargetsSnoc(env, r, last);
        r + [last]
  }

  /** What the search returns for an executable under a smoke policy. */
  function Resolve(exe: string, env: Env, allowSmoke: bool): Lookup {
    match env.explicitPath(exe)
    case Some(p) =>
      var smoke := env.runnable(p) && IsSmoke(env, p) && !allowSmoke;
      Lookup(env.runnable(p) && !smoke, Some(p), smoke, [])
    case None =>
      var hits := Hits(env, exe, SearchDirs(env, allowSmoke));
      var k := FirstAcceptable(env, hits, allowSmoke);
      if k < |hits| then
        Lookup(true, Some(hits[k]), false, FirstOfEachTarget(env, hits[..k]))
      else
        var all := Hits(env, exe, SearchDirs(env, true));
        Lookup(false, if all == [] then None else Some(all[0]), all != [], FirstOfEachTarget(env, hits))
  }

  lemma {:induction false} HitsAppend(env: Env, exe: string, a: seq<string>, b: seq<string>)
    ensures Hits(env, exe, a + b) == Hits(env, exe, a) + Hits(env, exe, b)
  {
    if a == [] {
      assert a + b == b;
    } else {
      HitsAppend(env, exe, a[1..], b);
      assert (a + b)[0] == a[0] && (a + b)[1..] == a[1..] + b;
    }
  }

  lemma FirstAcceptableUnique(env: Env, hits: seq<string>, allowSmoke: bool, k: nat)
    requires k < |hits| && Acceptable(env, hits[k], allowSmoke)
    requires forall j :: 0 <= j < k ==> !Acceptable(env, hits[j], allowSmoke)
    ensures FirstAcceptable(env, hits, allowSmoke) == k
  {
  }

  /** One more directory adds its candidate, if it has one, to the end of the list. */
  lemma HitsStep(env: Env, exe: string, dirs: seq<string>, i: nat)
    requires i < |dirs|
    ensures Hits(env, exe, dirs[..i + 1]) ==
            Hits(env, exe, dirs[..i]) + match env.which(exe, dirs[i]) case None => [] case Some(p) => [p]
    ensures Hits(env, exe, dirs[..i + 1]) <= Hits(env, exe, dirs)
  {
    HitsAppend(env, exe, dirs[..i], [dirs[i]]);
    assert dirs[..i + 1] == dirs[..i] + [dirs[i]];
    HitsAppend(env, exe, dirs[..i + 1], dirs[i + 1..]);
    assert dirs == dirs[..i + 1] + dirs[i + 1..];
    assert [dirs[i]][1..] == [];
  }

  lemma TargetSeen(env: Env, hits: seq<string>, p: string)
    requires hits != [] && hits[|hits| - 1] == p
    ensures var before := hits[..|hits| - 1];
            && (env.target(p) in Targets(env, before) ==>
                  FirstOfEachTarget(env, hits) == FirstOfEachTarget(env, before) && Targets(env, hits) == Targets(env, before))
            && (env.target(p) !in Targets(env, before) ==>
                  FirstOfEachTarget(env, hits) == FirstOfEachTarget(env, before) + [p])
            && Targets(env, hits) == Targets(env, before) + {env.target(p)}
  {
    assert hits == hits[..|hits| - 1] + [p];
  }

  /** What an acceptable candidate after unacceptable ones makes of the search. */
  lemma Settled(env: Env, exe: string, allowSmoke: bool, before: seq<string>, p: string)
    requires env.explicitPath(exe) == None
    requires before + [p] <= Hits(env, exe, SearchDirs(env, allowSmoke))
    requires Acceptable(env, p, allowSmoke)
    requires forall q :: q in before ==> !Acceptable(env, q, allowSmoke)
    ensures Resolve(exe, env, allowSmoke) == Lookup(true, Some(p), false, FirstOfEachTarget(env, before))
  {
    var hits := Hits(env, exe, SearchDirs(env, allowSmoke));
    assert hits[|before|] == (before + [p])[|before|] == p;
    assert hits[..|before|] == (before + [p])[..|before|] == before;
    assert forall j :: 0 <= j < |before| ==> hits[j] == before[j];
    FirstAcceptableUnique(env, hits, allowSmoke, |before|);
  }

  lemma Exhausted(env: Env, exe: string, allowSmoke: bool)
    requires env.explicitPath(exe) == None
    requires var hits := Hits(env, exe, SearchDirs(env, allowSmoke)); forall q :: q in hits ==> !Acceptable(env, q, allowSmoke)
    ensures var hits := Hits(env, exe, SearchDirs(env, allowSmoke));
            var all := Hits(env, exe, SearchDirs(env, true));
            && (hits != [] ==> all != [] && all[0] == hits[0])
            && Resolve(exe, env, allowSmoke) ==
               Lookup(false, if all == [] then None else Some(all[0]), all != [], FirstOfEachTarget(env, hits))
  {
    HitsAppend(env, exe, env.searchPath, SmokeDirs(env));
    assert SearchDirs(env, false) == env.searchPath;
  }

  /** The loop of `command_available`, with its set of seen targets. */
  method CommandAvailable(exe: string, env: Env, allowSmoke: bool) returns (r: Lookup)
    ensures r == Resolve(exe, env, allowSmoke)
  {
    match env.explicitPath(exe) {
      case Some(p) =>
        var available := env.runnable(p);
        var smoke := available && IsSmoke(env, p);
        if allowSmoke {
          smoke := false;
        }
        return Lookup(available && !smoke, Some(p), smoke, []);
      case None =>
    }
    var firstSmoke: Option<string> := None;
    var rejected: seq<string> := [];
    var seen: set<string> := {};
    var dirs := SearchDirs(env, allowSmoke);
    ghost var hits: seq<string> := [];
    for i := 0 to |dirs|
      invariant hits == Hits(env, exe, dirs[..i])
      invariant forall p :: p in hits ==> !Acceptable(env, p, allowSmoke)
      invariant seen == Targets(env, hits)
      invariant rejected == FirstOfEachTarget(env, hits)
      invariant firstSmoke == if hits == [] then None else Some(hits[0])
    {
      HitsStep(env, exe, dirs, i);
      var found := env.which(exe, dirs[i]);
      if found.Some? {
        var resolved := found.value;
        ghost var before := hits;
        hits := before + [resolved];
        assert hits[..|hits| - 1] == before;
        TargetSeen(env, hits, resolved);
        if env.target(resolved) !in seen {
          seen := seen + {env.target(resolved)};
          if !IsSmoke(env, resolved) || allowSmoke {
            Settled(env, exe, allowSmoke, before, resolved);
            return Lookup(true, Some(resolved), false, rejected);
          }
          firstSmoke := if firstSmoke.Some? then firstSmoke else Some(resolved);
          rejected := rejected + [resolved];
        }
      }
    }
    assert dirs[..|dirs|] == dirs;
    Exhausted(env, exe, allowSmoke);
    if firstSmoke.None? {
      var all := Hits(env, exe, SearchDirs(env, true));
      firstSmoke := if all == [] then None else Some(all[0]);
    }
    r := Lookup(false, firstSmoke, firstSmoke.Some?, rejected);
  }

  /**
   The search returns exactly the candidate of the first directory whose candidate is
   acceptable: no directory before it offers one.
   */
  lemma SearchReturnsFirstAcceptable(exe: string, env: Env, allowSmoke: bool, path: string)
    requires env.explicitPath(exe) == None
    ensures var dirs := SearchDirs(env, allowSmoke);
            Resolve(exe, env, allowSmoke).available && Resolve(exe, env, allowSmoke).path == Some(path) <==>
            exists i :: 0 <= i < |dirs| && env.which(exe, dirs[i]) == Some(path) && Acceptable(env, path, allowSmoke)
                        && NoneAcceptableBefore(env, exe, dirs, i, allowSmoke)
  {
    var dirs := SearchDirs(env, allowSmoke);
    var hits := Hits(env, exe, dirs);
    var k := FirstAcceptable(env, hits, allowSmoke);
    if k < |hits| {
      var i := DirOfHit(env, exe, dirs, k);
      HitsAreCandidates(env, exe, dirs[..i]);
      assert forall j :: 0 <= j < i ==> dirs[..i][j] == dirs[j];
      forall j | 0 <= j < |dirs| && env.which(exe, dirs[j]).Some? && Acceptable(env, env.which(exe, dirs[j]).value, allowSmoke)
                 && NoneAcceptableBefore(env, exe, dirs, j, allowSmoke)
        ensures i == j
      {
      }
    } else {
      HitsAreCandidates(env, exe, dirs);
    }
  }

  predicate NoneAcceptableBefore(env: Env, exe: string, dirs: seq<string>, n: int, allowSmoke: bool)
    requires n <= |dirs|
  {
    forall j :: 0 <= j < n && env.which(exe, dirs[j]).Some? ==>
      !Acceptable(env, env.which(exe, dirs[j]).value, allowSmoke)
  }

  lemma {:induction false} HitsAreCandidates(env: Env, exe: string, dirs: seq<string>)
    ensures forall j :: 0 <= j < |dirs| && env.which(exe, dirs[j]).Some? ==>
              env.which(exe, dirs[j]).value in Hits(env, exe, dirs)
  {
    if dirs != [] {
      HitsAreCandidates(env, exe, dirs[1..]);
      forall j | 0 <= j < |dirs| && env.which(exe, dirs[j]).Some?
        ensures env.which(exe, dirs[j]).value in Hits(env, exe, dirs)
      {
        if j > 0 {
          assert dirs[j] == dirs[1..][j - 1];
        }
      }
    }
  }

  lemma {:induction false} DirOfHit(env: Env, exe: string, dirs: seq<string>, k: nat) returns (i: nat)
    requires k < |Hits(env, exe, dirs)|
    ensures i < |dirs| && env.which(exe, dirs[i]) == Some(Hits(env, exe, dirs)[k])
    ensures Hits(env, exe, dirs[..i]) == Hits(env, exe, dirs)[..k]
  {
    var here := env.which(exe, dirs[0]);
    if here.Some? && k == 0 {
      i := 0;
    } else {
      var m := DirOfHit(env, exe, dirs[1..], if here.Some? then k - 1 else k);
      i := m + 1;
      assert dirs[..i][0] == dirs[0] && dirs[..i][1..] == dirs[1..][..m];
    }
  }

  /** Without the flag an available executable is never a smoke tool, however it was named. */
  lemma NeverSmokeWithoutFlag(exe: string, env: Env)
    ensures var r := Resolve(exe, env, false);
            r.available ==> r.path.Some? && !IsSmoke(env, r.path.value)
  {
  }

  /** Every rejected candidate is a smoke tool, no two share a target, and none is listed when smoke tools are allowed. */
  lemma RejectedCandidates(exe: string, env: Env, allowSmoke: bool)
    ensures var r := Resolve(exe, env, allowSmoke);
            && (allowSmoke ==> r.rejected == [])
            && (forall p :: p in r.rejected ==> IsSmoke(env, p))
            && forall i, j :: 0 <= i < j < |r.rejected| ==> env.target(r.rejected[i]) != env.target(r.rejected[j])
  {
    if env.explicitPath(exe) == None {
      var hits := Hits(env, exe, SearchDirs(env, allowSmoke));
      var k := FirstAcceptable(env, hits, allowSmoke);
      assert k == |hits| ==> hits[..k] == hits;
      assert FirstOfEachTarget(env, []) == [];
      if allowSmoke && hits != [] {
        assert Acceptable(env, hits[0], allowSmoke);
      }
    }
  }
}
