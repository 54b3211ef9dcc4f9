/** Workspace declarations and the evidence that they were materialised.

    Evidence is canonical: it lists the observed repositories by name and binds
    them, with the whole declaration, in a digest.  The digest function is a
    parameter, so nothing here depends on how it is computed. */
module Workspaces {
  import opened Keys
  import opened Graph

  datatype Repository = Repository(name: string, revision: string, readOnly: bool)

  datatype WorkspaceSpec = WorkspaceSpec(repositories: seq<Repository>, mcpServers: seq<string>, skills: seq<string>)

  /** What was found on disk for one repository. */
  datatype Observation = Observation(name: string, requested: string, observed: string, tree: string, content: nat,
                                     readOnly: bool)

  datatype Evidence = Evidence(schema: nat, repositories: seq<Observation>, digest: nat)

  type Digester = (WorkspaceSpec, seq<Observation>) -> nat

  const MAX_REPOSITORIES := 32
  const MAX_REPOSITORY_BYTES := 512
  const MAX_CAPABILITY_BYTES := 256
  const EVIDENCE_SCHEMA := 1

  // -------------------------------------------------------------- tokens

  predicate Token(value: string, maxBytes: nat)
  {
    && value != ""
    && Utf8Length(value) <= maxBytes
    && (forall c <- value :: !Control(c))
    && !WhiteSpace(value[0]) && !WhiteSpace(value[|value| - 1])
  }

  predicate GitObjectId(value: string)
  {
    (|value| == 40 || |value| == 64) && forall c <- value :: '0' <= c <= '9' || 'a' <= c <= 'f'
  }

  ghost predicate UniqueTokens(values: seq<string>, maxBytes: nat)
  {
    NoDuplicates(values) && forall i :: 0 <= i < |values| ==> Token(values[i], maxBytes)
  }

  method ValidateTokens(values: seq<string>, maxBytes: nat) returns (ok: bool)
    ensures ok <==> UniqueTokens(values, maxBytes)
  {
    var seen: set<string> := {};
    for k := 0 to |values|
      invariant forall x :: x in seen <==> x in values[..k]
      invariant UniqueTokens(values[..k], maxBytes)
    {
      assert values[..k + 1] == values[..k] + [values[k]];
      if !Token(values[k], maxBytes) || values[k] in seen {
        assert !UniqueTokens(values, maxBytes);
        return false;
      }
      seen := seen + {values[k]};
    }
    assert values[..|values|] == values;
    return true;
  }

  // --------------------------------------------------------- declarations

  ghost predicate DistinctRepositories(declared: seq<Repository>)
  {
    forall i, j :: 0 <= i < j < |declared| ==> declared[i].name != declared[j].name
  }

  predicate ValidRepository(r: Repository)
  {
    Token(r.name, MAX_REPOSITORY_BYTES) && GitObjectId(r.revision)
  }

  ghost predicate ValidRepositories(declared: seq<Repository>)
  {
    DistinctRepositories(declared) && forall i :: 0 <= i < |declared| ==> ValidRepository(declared[i])
  }

  ghost predicate ValidWorkspace(spec: WorkspaceSpec)
  {
    && |spec.repositories| <= MAX_REPOSITORIES
    && ValidRepositories(spec.repositories)
    && UniqueTokens(spec.mcpServers, MAX_CAPABILITY_BYTES)
    && UniqueTokens(spec.skills, MAX_CAPABILITY_BYTES)
  }

  method ValidateWorkspace(spec: WorkspaceSpec) returns (ok: bool)
    ensures ok <==> ValidWorkspace(spec)
  {
    var declared := spec.repositories;
    if |declared| > MAX_REPOSITORIES { return false; }
    var seen: set<string> := {};
    for k := 0 to |declared|
      invariant forall i :: 0 <= i < k ==> declared[i].name in seen
      invariant forall x :: x in seen ==> exists i :: 0 <= i < k && declared[i].name == x
      invariant ValidRepositories(declared[..k])
    {
      if !ValidRepository(declared[k]) || declared[k].name in seen {
        assert !ValidRepositories(declared);
        return false;
      }
      seen := seen + {declared[k].name};
    }
    assert declared[..|declared|] == declared;
    var servers := ValidateTokens(spec.mcpServers, MAX_CAPABILITY_BYTES);
    var skills := ValidateTokens(spec.skills, MAX_CAPABILITY_BYTES);
    return servers && skills;
  }

  // ------------------------------------------------------ canonical order

  predicate NameAtMost(a: Observation, b: Observation)
  {
    a.name == b.name || Less(a.name, b.name)
  }

  ghost predicate Ordered(xs: seq<Observation>)
  {
    forall i, j :: 0 <= i < j < |xs| ==> NameAtMost(xs[i], xs[j])
  }

  ghost predicate DistinctNames(xs: seq<Observation>)
  {
    forall i, j :: 0 <= i < j < |xs| ==> xs[i].name != xs[j].name
  }

  /** Puts `x` before the first element it does not follow. */
  function Insert(x: Observation, xs: seq<Observation>): (ys: seq<Observation>)
    ensures multiset(ys) == multiset{x} + multiset(xs)
  {
    if xs == [] then [x]
    else if NameAtMost(x, xs[0]) then [x] + xs
    else
      assert xs == [xs[0]] + xs[1..];
      [xs[0]] + Insert(x, xs[1..])
  }

  /** The stable sort by repository name. */
  function SortByName(xs: seq<Observation>): (ys: seq<Observation>)
    ensures multiset(ys) == multiset(xs)
  {
    if xs == [] then [] else
      assert xs == [xs[0]] + xs[1..];
      Insert(xs[0], SortByName(xs[1..]))
  }

  lemma SameMembers(xs: seq<Observation>, ys: seq<Observation>)
    requires multiset(xs) == multiset(ys)
    ensures |xs| == |ys|
    ensures forall x :: x in xs <==> x in ys
  {
    assert |multiset(xs)| == |xs| && |multiset(ys)| == |ys|;
    forall x
      ensures x in xs <==> x in ys
    {
      assert x in xs <==> x in multiset(xs);
      assert x in ys <==> x in multiset(ys);
    }
  }

  lemma {:induction false} InsertOrders(x: Observation, xs: seq<Observation>)
    requires Ordered(xs)
    ensures Ordered(Insert(x, xs))
  {
    if xs != [] {
      if NameAtMost(x, xs[0]) {
        forall j | 0 <= j < |xs|
          ensures NameAtMost(x, xs[j])
        {
          NameAtMostTransitive(x, xs[0], xs[j]);
        }
      } else {
        LessTotal(x.name, xs[0].name);
        InsertOrders(x, xs[1..]);
        var rest := Insert(x, xs[1..]);
        forall j | 0 <= j < |rest|
          ensures NameAtMost(xs[0], rest[j])
        {
          assert rest[j] in multiset(rest);
          assert rest[j] == x || rest[j] in xs[1..];
        }
      }
    }
  }

  lemma NameAtMostTransitive(a: Observation, b: Observation, c: Observation)
    requires NameAtMost(a, b) && (b == c || NameAtMost(b, c))
    ensures NameAtMost(a, c)
  {
    if Less(a.name, b.name) && Less(b.name, c.name) { LessTransitive(a.name, b.name, c.name); }
  }

  lemma {:induction false} SortOrders(xs: seq<Observation>)
    ensures Ordered(SortByName(xs))
  {
    if xs != [] {
      SortOrders(xs[1..]);
      InsertOrders(xs[0], SortByName(xs[1..]));
    }
  }

  lemma {:induction false} OrderedStays(xs: seq<Observation>)
    requires Ordered(xs)
    ensures SortByName(xs) == xs
  {
    if xs != [] {
      OrderedStays(xs[1..]);
      assert xs == [xs[0]] + xs[1..];
      assert |xs| > 1 ==> NameAtMost(xs[0], xs[1]);
    }
  }

  /** The sort leaves a sequence alone exactly when it is already in order. */
  lemma SortFixesOrdered(xs: seq<Observation>)
    ensures SortByName(xs) == xs <==> Ordered(xs)
  {
    SortOrders(xs);
    if Ordered(xs) { OrderedStays(xs); }
  }

  /** An ordered sequence with distinct names is the only ordered arrangement of
      its elements. */
  lemma {:induction false} OrderIsUnique(xs: seq<Observation>, ys: seq<Observation>)
    requires Ordered(xs) && DistinctNames(xs) && Ordered(ys) && multiset(xs) == multiset(ys)
    ensures xs == ys
    decreases |xs|
  {
    SameMembers(xs, ys);
    if xs != [] {
      HeadsAgree(xs, ys);
      assert xs == [xs[0]] + xs[1..] && ys == [ys[0]] + ys[1..];
      assert multiset(xs[1..]) == multiset(xs) - multiset{xs[0]};
      assert multiset(ys[1..]) == multiset(ys) - multiset{ys[0]};
      OrderIsUnique(xs[1..], ys[1..]);
    }
  }

  lemma HeadsAgree(xs: seq<Observation>, ys: seq<Observation>)
    requires Ordered(xs) && DistinctNames(xs) && Ordered(ys)
    requires |xs| == |ys| > 0 && forall x :: x in xs <==> x in ys
    ensures xs[0] == ys[0]
  {
    assert ys[0] in xs && xs[0] in ys;
    assert NameAtMost(ys[0], ys[0]);
    var i :| 0 <= i < |xs| && xs[i] == ys[0];
    var j :| 0 <= j < |ys| && ys[j] == xs[0];
    NotBefore(ys[0], xs[0]);
    assert i == 0;
  }

  lemma NotBefore(a: Observation, b: Observation)
    requires NameAtMost(a, b)
    ensures !Less(b.name, a.name)
  {
    if Less(b.name, a.name) { LessAsymmetric(b.name, a.name); }
  }

  // ------------------------------------------------------------- matching

  /** The observation is what the declaration asked for. */
  predicate Fits(declared: Repository, o: Observation)
  {
    && o.name == declared.name
    && o.requested == declared.revision && o.observed == declared.revision
    && GitObjectId(o.observed) && GitObjectId(o.tree)
    && o.readOnly == declared.readOnly
  }

  /** A one-to-one correspondence: observation `i` answers declaration `f[i]`, no
      declaration is answered twice and none is left over. */
  ghost predicate IsMatching(declared: seq<Repository>, seen: seq<Observation>, f: seq<nat>)
  {
    && |f| == |seen|
    && NoDuplicates(f)
    && (forall i :: 0 <= i < |f| ==> f[i] < |declared| && Fits(declared[f[i]], seen[i]))
    && (forall k :: 0 <= k < |declared| ==> k in f)
  }

  ghost predicate Matched(declared: seq<Repository>, seen: seq<Observation>)
  {
    exists f :: IsMatching(declared, seen, f)
  }

  ghost predicate Answered(declared: seq<Repository>, o: Observation)
  {
    exists k :: 0 <= k < |declared| && Fits(declared[k], o)
  }

  /** What the checking loop establishes: as many observations as declarations, no
      name twice, and each one answers some declaration. */
  ghost predicate Checked(declared: seq<Repository>, seen: seq<Observation>)
  {
    && |seen| == |declared|
    && DistinctNames(seen)
    && forall i :: 0 <= i < |seen| ==> Answered(declared, seen[i])
  }

  ghost function Index(declared: seq<Repository>, o: Observation): (k: nat)
    requires Answered(declared, o)
    ensures k < |declared| && Fits(declared[k], o)
  {
    var k :| 0 <= k < |declared| && Fits(declared[k], o);
    k
  }

  ghost function Indices(n: nat): (s: set<nat>)
    ensures |s| == n
    ensures forall k :: k in s <==> 0 <= k < n
  {
    if n == 0 then {} else Indices(n - 1) + {n - 1}
  }

  lemma FullRange(f: seq<nat>, n: nat)
    requires |f| == n && NoDuplicates(f) && forall i :: 0 <= i < n ==> f[i] < n
    ensures forall k :: 0 <= k < n ==> k in f
  {
    DistinctLength(f);
    assert Elements(f) <= Indices(n);
    if Elements(f) != Indices(n) { SmallerCardinality(Elements(f), Indices(n)); }
    assert Elements(f) == Indices(n);
    forall k | 0 <= k < n
      ensures k in f
    {
      assert k in Elements(f);
    }
  }

  /** Equal counts and distinct names force a bijection, and a bijection with
      distinct declarations gives both back. */
  lemma CheckedIsMatched(declared: seq<Repository>, seen: seq<Observation>)
    requires DistinctRepositories(declared)
    ensures Checked(declared, seen) <==> Matched(declared, seen)
  {
    if Checked(declared, seen) { CheckedGivesMatching(declared, seen); }
    if Matched(declared, seen) {
      var f :| IsMatching(declared, seen, f);
      MatchingGivesChecked(declared, seen, f);
    }
  }

  lemma CheckedGivesMatching(declared: seq<Repository>, seen: seq<Observation>)
    requires Checked(declared, seen)
    ensures Matched(declared, seen)
  {
    var f := seq(|seen|, i requires 0 <= i < |seen| => Index(declared, seen[i]));
    assert NoDuplicates(f) by {
      forall i, j | 0 <= i < j < |f|
        ensures f[i] != f[j]
      {
        assert seen[i].name == declared[f[i]].name && seen[j].name == declared[f[j]].name;
      }
    }
    FullRange(f, |declared|);
    assert IsMatching(declared, seen, f);
  }

  lemma MatchingGivesChecked(declared: seq<Repository>, seen: seq<Observation>, f: seq<nat>)
    requires DistinctRepositories(declared) && IsMatching(declared, seen, f)
    ensures Checked(declared, seen)
  {
    DistinctLength(f);
    assert Elements(f) == Indices(|declared|);
    forall i, j | 0 <= i < j < |seen|
      ensures seen[i].name != seen[j].name
    {
      assert f[i] != f[j];
      assert Fits(declared[f[i]], seen[i]) && Fits(declared[f[j]], seen[j]);
    }
  }

  /** The first `k` observations have distinct names, the ones collected, and each
      answers a declaration. */
  ghost predicate CheckedTo(declared: seq<Repository>, seen: seq<Observation>, k: nat, names: set<string>)
    requires k <= |seen|
  {
    && (forall i :: 0 <= i < k ==> seen[i].name in names)
    && (forall x :: x in names ==> exists i :: 0 <= i < k && seen[i].name == x)
    && (forall i, j :: 0 <= i < j < k ==> seen[i].name != seen[j].name)
    && (forall i :: 0 <= i < k ==> Answered(declared, seen[i]))
  }

  lemma CheckNext(declared: seq<Repository>, seen: seq<Observation>, k: nat, names: set<string>)
    requires k < |seen| && CheckedTo(declared, seen, k, names)
    requires seen[k].name !in names && Answered(declared, seen[k])
    ensures CheckedTo(declared, seen, k + 1, names + {seen[k].name})
  {
  }

  lemma CheckFails(declared: seq<Repository>, seen: seq<Observation>, k: nat, names: set<string>)
    requires k < |seen| && CheckedTo(declared, seen, k, names)
    requires seen[k].name in names || !Answered(declared, seen[k])
    ensures !Checked(declared, seen)
  {
  }

  /** Accepts exactly the observations in one-to-one correspondence with the
      declared repositories. */
  method CheckEvidence(spec: WorkspaceSpec, seen: seq<Observation>) returns (ok: bool)
    requires ValidWorkspace(spec)
    ensures ok <==> Matched(spec.repositories, seen)
  {
    ok := CheckDeclared(spec.repositories, seen);
    CheckedIsMatched(spec.repositories, seen);
  }

  method CheckDeclared(declared: seq<Repository>, seen: seq<Observation>) returns (ok: bool)
    requires ValidRepositories(declared)
    ensures ok <==> Checked(declared, seen)
  {
    if |seen| != |declared| { return false; }
    var expected := Expected(declared);
    var names: set<string> := {};
    for k := 0 to |seen|
      invariant CheckedTo(declared, seen, k, names)
    {
      AnsweredByLookup(declared, expected, seen[k]);
      if seen[k].name in names || !FitsLookup(expected, seen[k]) {
        CheckFails(declared, seen, k, names);
        return false;
      }
      CheckNext(declared, seen, k, names);
      names := names + {seen[k].name};
    }
    return true;
  }

  /** `byName` is the lookup table of the declarations. */
  ghost predicate IsLookup(declared: seq<Repository>, byName: map<string, Repository>)
  {
    && (forall i :: 0 <= i < |declared| ==> declared[i].name in byName && byName[declared[i].name] == declared[i])
    && (forall x :: x in byName ==> byName[x].name == x && byName[x] in declared)
  }

  method Expected(declared: seq<Repository>) returns (byName: map<string, Repository>)
    requires DistinctRepositories(declared)
    ensures IsLookup(declared, byName)
  {
    byName := map[];
    for k := 0 to |declared|
      invariant IsLookup(declared[..k], byName)
    {
      byName := byName[declared[k].name := declared[k]];
      assert declared[..k + 1] == declared[..k] + [declared[k]];
    }
    assert declared[..|declared|] == declared;
  }

  predicate FitsLookup(byName: map<string, Repository>, o: Observation)
  {
    Token(o.name, MAX_REPOSITORY_BYTES) && o.name in byName && Fits(byName[o.name], o)
  }

  lemma AnsweredByLookup(declared: seq<Repository>, byName: map<string, Repository>, o: Observation)
    requires ValidRepositories(declared) && IsLookup(declared, byName)
    ensures FitsLookup(byName, o) <==> Answered(declared, o)
  {
    if Answered(declared, o) {
      var k :| 0 <= k < |declared| && Fits(declared[k], o);
      assert ValidRepository(declared[k]);
    }
  }

  // ------------------------------------------------------------- evidence

  /** The evidence built from a declaration and the observations, in any order. */
  ghost function Build(digest: Digester, spec: WorkspaceSpec, seen: seq<Observation>): Option<Evidence>
  {
    var sorted := SortByName(seen);
    if ValidWorkspace(spec) && Matched(spec.repositories, sorted)
    then Some(Evidence(EVIDENCE_SCHEMA, sorted, digest(spec, sorted)))
    else None
  }

  method NewEvidence(digest: Digester, spec: WorkspaceSpec, seen: seq<Observation>) returns (r: Option<Evidence>)
    ensures r == Build(digest, spec, seen)
  {
    var valid := ValidateWorkspace(spec);
    if !valid { return None; }
    var repositories := SortByName(seen);
    var ok := CheckEvidence(spec, repositories);
    if !ok { return None; }
    return Some(Evidence(EVIDENCE_SCHEMA, repositories, digest(spec, repositories)));
  }

  /** Retained evidence still proves the declaration. */
  ghost predicate ValidAgainst(digest: Digester, e: Evidence, spec: WorkspaceSpec)
  {
    && e.schema == EVIDENCE_SCHEMA
    && ValidWorkspace(spec)
    && SortByName(e.repositories) == e.repositories
    && Matched(spec.repositories, e.repositories)
    && digest(spec, e.repositories) == e.digest
  }

  method ValidateAgainst(digest: Digester, e: Evidence, spec: WorkspaceSpec) returns (ok: bool)
    ensures ok <==> ValidAgainst(digest, e, spec)
  {
    if e.schema != EVIDENCE_SCHEMA { return false; }
    var valid := ValidateWorkspace(spec);
    if !valid { return false; }
    var repositories := SortByName(e.repositories);
    if repositories != e.repositories { return false; }
    var matched := CheckEvidence(spec, repositories);
    if !matched { return false; }
    return digest(spec, repositories) == e.digest;
  }

  /** Only distinct names can match, and those sort to one arrangement. */
  lemma MatchedSortsOnce(declared: seq<Repository>, xs: seq<Observation>, ys: seq<Observation>)
    requires DistinctRepositories(declared) && multiset(xs) == multiset(ys)
    requires Matched(declared, SortByName(xs))
    ensures SortByName(xs) == SortByName(ys)
  {
    CheckedIsMatched(declared, SortByName(xs));
    SortOrders(xs);
    SortOrders(ys);
    OrderIsUnique(SortByName(xs), SortByName(ys));
  }

  /** The order in which observations are supplied never matters. */
  lemma BuildIgnoresOrder(digest: Digester, spec: WorkspaceSpec, xs: seq<Observation>, ys: seq<Observation>)
    requires multiset(xs) == multiset(ys)
    ensures Build(digest, spec, xs) == Build(digest, spec, ys)
  {
    if ValidWorkspace(spec) {
      if Matched(spec.repositories, SortByName(xs)) {
        MatchedSortsOnce(spec.repositories, xs, ys);
      } else if Matched(spec.repositories, SortByName(ys)) {
        MatchedSortsOnce(spec.repositories, ys, xs);
      }
    }
  }

  lemma {:induction false} AnsweredAfterSort(declared: seq<Repository>, xs: seq<Observation>, ys: seq<Observation>)
    requires multiset(xs) == multiset(ys) && Checked(declared, xs)
    ensures Checked(declared, ys)
  {
    SameMembers(xs, ys);
    forall i | 0 <= i < |ys|
      ensures Answered(declared, ys[i])
    {
      assert ys[i] in xs;
    }
    forall i, j | 0 <= i < j < |ys|
      ensures ys[i].name != ys[j].name
    {
      DistinctCounts(xs, ys[i]);
      assert ys[i] in xs && ys[j] in xs;
      if ys[i] == ys[j] { TwoCopies(ys, i, j); }
    }
  }

  lemma {:induction false} DistinctCounts(xs: seq<Observation>, x: Observation)
    requires DistinctNames(xs)
    ensures multiset(xs)[x] <= 1
  {
    if xs != [] {
      assert xs == [xs[0]] + xs[1..];
      DistinctCounts(xs[1..], x);
      if x == xs[0] { assert x !in xs[1..]; }
    }
  }

  lemma TwoCopies(ys: seq<Observation>, i: nat, j: nat)
    requires i < j < |ys| && ys[i] == ys[j]
    ensures multiset(ys)[ys[i]] >= 2
  {
    assert ys == ys[..i] + [ys[i]] + ys[i + 1..j] + [ys[j]] + ys[j + 1..];
  }

  /** Evidence can be built exactly when the declaration is valid and the
      observations, as supplied, correspond one to one to it. */
  lemma BuildIff(digest: Digester, spec: WorkspaceSpec, seen: seq<Observation>)
    ensures Build(digest, spec, seen).Some? <==> ValidWorkspace(spec) && Matched(spec.repositories, seen)
  {
    if ValidWorkspace(spec) {
      var sorted := SortByName(seen);
      CheckedIsMatched(spec.repositories, seen);
      CheckedIsMatched(spec.repositories, sorted);
      if Checked(spec.repositories, seen) { AnsweredAfterSort(spec.repositories, seen, sorted); }
      if Checked(spec.repositories, sorted) { AnsweredAfterSort(spec.repositories, sorted, seen); }
    }
  }

  /** Evidence revalidates exactly when it is what would be built afresh from the
      observations it retains: whatever is built revalidates, and nothing else. */
  lemma ValidIffRebuilt(digest: Digester, spec: WorkspaceSpec, e: Evidence)
    ensures ValidAgainst(digest, e, spec) <==> Build(digest, spec, e.repositories) == Some(e)
    ensures forall seen :: Build(digest, spec, seen) == Some(e) ==> ValidAgainst(digest, e, spec)
  {
    forall seen | Build(digest, spec, seen) == Some(e)
      ensures ValidAgainst(digest, e, spec)
    {
      SortOrders(seen);
      SortFixesOrdered(SortByName(seen));
    }
  }
}
