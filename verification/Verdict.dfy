/** The verdict of the guard script over the dependency annotations its regular expressions found. */
module Verdict {
  import opened Common

  /** One match; a named group that is missing or did not take part in the match is undefined. */
  datatype Found = Found(file: string, depName: Option<string>, datasource: Option<string>,
    currentValue: Option<string>)

  /** An entry of the expected list; the minimum is one where the list gives none. */
  datatype Expected = Expected(datasource: string, depName: string, min: nat := 1)

  const EXPECTED: seq<Expected> := [
    Expected("github-releases", "golangci/golangci-lint", 2),
    Expected("github-releases", "kubernetes-sigs/kind"),
    Expected("github-releases", "kubernetes-sigs/controller-tools"),
    Expected("github-releases", "ko-build/ko"),
    Expected("github-releases", "gotestyourself/gotestsum"),
    Expected("go", "github.com/kyverno/chainsaw"),
    Expected("docker", "renovate"),
    Expected("docker", "docker.io/ollama/ollama")
  ]

  const SEPARATOR: string := " :: "

  function Shown(s: Option<string>): string { if s.Some? then s.value else "undefined" }

  /** The key is one string, not a pair. */
  function KeyOf(f: Found): string { f.file + SEPARATOR + Shown(f.depName) }

  predicate Meets(f: Found, e: Expected) { f.datasource == Some(e.datasource) && f.depName == Some(e.depName) }

  function Matching(found: seq<Found>, e: Expected): seq<Found> {
    if found == [] then []
    else (if Meets(found[0], e) then [found[0]] else []) + Matching(found[1..], e)
  }

  /** The text under which a match is filed, and "undefined" stands for a missing name. */
  ghost predicate FiledUnder(f: Found, key: string) {
    key == f.file + " :: " + if f.depName.Some? then f.depName.value else "undefined"
  }

  /** Matches filed under one text agree on the value. */
  ghost predicate SingleValued(found: seq<Found>) {
    forall f, g, key :: f in found && g in found && FiledUnder(f, key) && FiledUnder(g, key) ==>
      f.currentValue == g.currentValue
  }

  lemma KeysDecide(found: seq<Found>)
    ensures SingleValued(found) <==>
      forall f, g :: f in found && g in found && KeyOf(f) == KeyOf(g) ==> f.currentValue == g.currentValue
  {
    forall f: Found
      ensures forall key :: FiledUnder(f, key) <==> key == KeyOf(f)
    {
    }
    if SingleValued(found) {
      forall f, g | f in found && g in found && KeyOf(f) == KeyOf(g)
        ensures f.currentValue == g.currentValue
      {
        assert FiledUnder(f, KeyOf(f)) && FiledUnder(g, KeyOf(f));
      }
    }
  }

  /** The places at which a list has a match of this datasource and this dependency. */
  ghost function Places(found: seq<Found>, datasource: string, depName: string): set<int> {
    set i | 0 <= i < |found| && found[i].datasource == Some(datasource) && found[i].depName == Some(depName)
  }

  /** The verdict: one value a key, and every expected entry as often as it must be. */
  ghost predicate Passes(found: seq<Found>, expected: seq<Expected>) {
    SingleValued(found) && forall e :: e in expected ==> |Places(found, e.datasource, e.depName)| >= e.min
  }

  lemma {:induction false} MatchingSnoc(found: seq<Found>, f: Found, e: Expected)
    ensures Matching(found + [f], e) == Matching(found, e) + if Meets(f, e) then [f] else []
  {
    if found == [] {
      assert [f][1..] == [] && found + [f] == [f];
    } else {
      assert (found + [f])[1..] == found[1..] + [f];
      MatchingSnoc(found[1..], f, e);
    }
  }

  /** The filter keeps one match for each of those places. */
  lemma {:induction false} MatchingCounts(found: seq<Found>, e: Expected)
    ensures |Matching(found, e)| == |Places(found, e.datasource, e.depName)|
  {
    if found == [] {
      assert Places(found, e.datasource, e.depName) == {};
    } else {
      var n := |found| - 1;
      var front, f := found[..n], found[n];
      assert found == front + [f];
      MatchingCounts(front, e);
      MatchingSnoc(front, f, e);
      assert Places(found, e.datasource, e.depName) ==
        Places(front, e.datasource, e.depName) + if Meets(f, e) then {n} else {};
    }
  }

  lemma FirstOf(f: Found, rest: seq<Found>)
    ensures multiset([f] + rest) == multiset{f} + multiset(rest)
  {
  }

  /** The matches that meet an entry are kept, each as often as it was found, and no others. */
  lemma {:induction false} MatchingKeeps(found: seq<Found>, e: Expected, f: Found)
    ensures multiset(Matching(found, e))[f] ==
      if f.datasource == Some(e.datasource) && f.depName == Some(e.depName) then multiset(found)[f] else 0
  {
    if found != [] {
      MatchingKeeps(found[1..], e, f);
      FirstOf(found[0], found[1..]);
      assert found == [found[0]] + found[1..];
      if Meets(found[0], e) {
        FirstOf(found[0], Matching(found[1..], e));
      } else {
        assert Matching(found, e) == Matching(found[1..], e);
      }
    }
  }

  /** The order in which matches were found does not matter. */
  lemma OrderIsFree(a: seq<Found>, b: seq<Found>, expected: seq<Expected>)
    requires multiset(a) == multiset(b)
    ensures Passes(a, expected) <==> Passes(b, expected)
  {
    forall f
      ensures f in a <==> f in b
    {
      assert f in a <==> f in multiset(a);
      assert f in b <==> f in multiset(b);
    }
    forall e: Expected
      ensures |Places(a, e.datasource, e.depName)| == |Places(b, e.datasource, e.depName)|
    {
      MatchingCounts(a, e);
      MatchingCounts(b, e);
      forall f
        ensures multiset(Matching(a, e))[f] == multiset(Matching(b, e))[f]
      {
        MatchingKeeps(a, e, f);
        MatchingKeeps(b, e, f);
      }
      assert multiset(Matching(a, e)) == multiset(Matching(b, e));
      assert |Matching(a, e)| == |multiset(Matching(a, e))|;
    }
  }

  // ---------------------------------------------------------------- the loops

  ghost predicate Groups(groups: map<string, set<Option<string>>>, found: seq<Found>) {
    && (forall f :: f in found ==> KeyOf(f) in groups && f.currentValue in groups[KeyOf(f)])
    && (forall key, v :: key in groups && v in groups[key] ==>
          exists f :: f in found && KeyOf(f) == key && f.currentValue == v)
  }

  method GroupByFileAndDep(found: seq<Found>) returns (groups: map<string, set<Option<string>>>)
    ensures Groups(groups, found)
  {
    groups := map[];
    for i := 0 to |found|
      invariant Groups(groups, found[..i])
    {
      var f := found[i];
      var key := KeyOf(f);
      ghost var before := groups;
      if key !in groups {
        groups := groups[key := {}];
      }
      groups := groups[key := groups[key] + {f.currentValue}];
      assert found[..i + 1] == found[..i] + [f];
      forall k, v | k in groups && v in groups[k]
        ensures exists g :: g in found[..i + 1] && KeyOf(g) == k && g.currentValue == v
      {
        if k in before && v in before[k] {
          var g :| g in found[..i] && KeyOf(g) == k && g.currentValue == v;
          assert g in found[..i + 1];
        } else {
          assert k == key && v == f.currentValue && f in found[..i + 1];
        }
      }
    }
    assert found[..|found|] == found;
  }

  lemma TwoMembers<T>(s: set<T>)
    ensures |s| > 1 <==> exists a, b :: a in s && b in s && a != b
  {
    if a, b :| a in s && b in s && a != b {
      assert {a, b} <= s;
      Subset({a, b}, s);
    }
    if |s| > 1 {
      var a :| a in s;
      var t := s - {a};
      assert |t| > 0;
      var b :| b in t;
      assert a in s && b in s && a != b;
    }
  }

  lemma {:induction false} Subset<T>(a: set<T>, b: set<T>)
    requires a <= b
    ensures |a| <= |b|
  {
    assert b == a + (b - a);
  }

  /** The loop over the map: the keys with more than one value. */
  method OneValuePerKey(groups: map<string, set<Option<string>>>) returns (ok: bool)
    ensures ok <==> forall key :: key in groups ==> |groups[key]| <= 1
  {
    ok := true;
    var rest := groups.Keys;
    while rest != {}
      invariant rest <= groups.Keys
      invariant ok <==> forall key :: key in groups && key !in rest ==> |groups[key]| <= 1
      decreases |rest|
    {
      var key :| key in rest;
      if |groups[key]| > 1 {
        ok := false;
      }
      rest := rest - {key};
    }
  }

  lemma GroupsDecide(groups: map<string, set<Option<string>>>, found: seq<Found>)
    requires Groups(groups, found)
    ensures (forall key :: key in groups ==> |groups[key]| <= 1) <==> SingleValued(found)
  {
    KeysDecide(found);
    if forall key :: key in groups ==> |groups[key]| <= 1 {
      forall f, g | f in found && g in found && KeyOf(f) == KeyOf(g)
        ensures f.currentValue == g.currentValue
      {
        TwoMembers(groups[KeyOf(f)]);
      }
    }
    if SingleValued(found) {
      forall key | key in groups
        ensures |groups[key]| <= 1
      {
        TwoMembers(groups[key]);
        forall a, b | a in groups[key] && b in groups[key]
          ensures a == b
        {
          var f :| f in found && KeyOf(f) == key && f.currentValue == a;
          var g :| g in found && KeyOf(g) == key && g.currentValue == b;
        }
      }
    }
  }

  /** The guard accepts exactly when every key has one value and every expected entry reaches its minimum. */
  method Judge(found: seq<Found>, expected: seq<Expected>) returns (ok: bool)
    ensures ok <==> Passes(found, expected)
  {
    var groups := GroupByFileAndDep(found);
    ok := OneValuePerKey(groups);
    GroupsDecide(groups, found);
    for i := 0 to |expected|
      invariant ok <==> SingleValued(found) && forall k :: 0 <= k < i ==>
        |Places(found, expected[k].datasource, expected[k].depName)| >= expected[k].min
    {
      MatchingCounts(found, expected[i]);
      var matches := Matching(found, expected[i]);
      if |matches| < expected[i].min {
        ok := false;
      }
    }
  }

  // ---------------------------------------------------------------- what a key tells

  /** Two files whose keys can coincide: one name, with the separator behind it, begins the other one. */
  predicate Clash(f: string, g: string) { f != g && (f + SEPARATOR <= g + SEPARATOR || g + SEPARATOR <= f + SEPARATOR) }

  /**
   * A shorter file name shares a key with a longer one, for some dependencies, exactly when it begins it in this way.
   */
  lemma SharedKey(f: string, g: string)
    requires |f| <= |g|
    ensures (exists d, e :: f + SEPARATOR + d == g + SEPARATOR + e) <==> f + SEPARATOR <= g + SEPARATOR
  {
    var a, b := f + SEPARATOR, g + SEPARATOR;
    if d, e :| a + d == b + e {
      assert a == (a + d)[..|a|] && b == (b + e)[..|b|];
      assert a == b[..|a|];
    }
    if a <= b {
      assert a + b[|a|..] == b + "";
    }
  }

  /**
   * The key tells file and dependency apart, whatever the dependencies are called, if and only if the file names are
   * equal or do not clash.
   */
  lemma KeyTellsFileAndName(f: string, g: string)
    ensures (forall d, e :: f + SEPARATOR + d == g + SEPARATOR + e ==> f == g && d == e) <==> !Clash(f, g)
  {
    if |f| <= |g| { SharedKey(f, g); } else { SharedKey(g, f); }
    if f == g {
      forall d, e | f + SEPARATOR + d == g + SEPARATOR + e
        ensures d == e
      {
        assert d == (f + SEPARATOR + d)[|f| + 4..] && e == (g + SEPARATOR + e)[|g| + 4..];
      }
    }
  }

  /** What the guard is after: an annotation of a file, by its shown name, has one value. */
  ghost predicate SingleByPair(found: seq<Found>) {
    forall f, g :: f in found && g in found && f.file == g.file && Shown(f.depName) == Shown(g.depName) ==>
      f.currentValue == g.currentValue
  }

  ghost predicate Over(found: seq<Found>, files: set<string>) { forall f :: f in found ==> f.file in files }

  /** The check over the keys says that of every list over these files if and only if no two of them clash. */
  lemma GuardIsExact(files: set<string>)
    ensures (forall found :: Over(found, files) ==> (SingleValued(found) <==> SingleByPair(found)))
      <==> (forall f, g :: f in files && g in files ==> !Clash(f, g))
  {
    if forall f, g :: f in files && g in files ==> !Clash(f, g) {
      forall found | Over(found, files)
        ensures SingleValued(found) <==> SingleByPair(found)
      {
        KeysDecide(found);
        forall f, g | f in found && g in found
          ensures KeyOf(f) == KeyOf(g) <==> f.file == g.file && Shown(f.depName) == Shown(g.depName)
        {
          KeyTellsFileAndName(f.file, g.file);
        }
      }
    }
    if a, b :| a in files && b in files && Clash(a, b) {
      var found := ClashRefused(a, b);
      assert Over(found, files);
    }
  }

  /** Two matches in clashing files that the guard refuses although nothing is wrong with them. */
  lemma ClashRefused(a: string, b: string) returns (found: seq<Found>)
    requires Clash(a, b)
    ensures |found| == 2 && found[0].file == a && found[1].file == b
    ensures !SingleValued(found) && SingleByPair(found)
  {
    KeyTellsFileAndName(a, b);
    var d, e :| a + SEPARATOR + d == b + SEPARATOR + e && !(a == b && d == e);
    var f, g := Found(a, Some(d), None, Some("1")), Found(b, Some(e), None, Some("2"));
    found := [f, g];
    KeysDecide(found);
    assert f in found && g in found && KeyOf(f) == KeyOf(g);
  }

  /** A file name need not contain the separator to clash. */
  lemma KeysCollide()
    ensures Clash("a", "a ::") && KeyOf(Found("a ::", Some("b"), None, Some("1")))
      == KeyOf(Found("a", Some(":: b"), None, Some("2")))
    ensures !Clash("a", "a ::b")
  {
    assert "a" + SEPARATOR == "a :: " && "a ::" + SEPARATOR == "a :: :: ";
    assert ("a ::" + SEPARATOR)[..5] == "a :: ";
    assert "a ::" + SEPARATOR + "b" == "a :: :: b" == "a" + SEPARATOR + ":: b";
    assert ("a ::b" + SEPARATOR)[4] == 'b' && ("a" + SEPARATOR)[4] == ' ';
  }

  // ---------------------------------------------------------------- the list that is expected

  function Minima(expected: seq<Expected>): nat {
    if expected == [] then 0 else expected[0].min + Minima(expected[1..])
  }

  ghost predicate DistinctEntries(expected: seq<Expected>) {
    forall i, j :: 0 <= i < j < |expected| ==>
      expected[i].datasource != expected[j].datasource || expected[i].depName != expected[j].depName
  }

  function Without(found: seq<Found>, e: Expected): seq<Found> {
    if found == [] then [] else (if Meets(found[0], e) then [] else [found[0]]) + Without(found[1..], e)
  }

  lemma {:induction false} WithoutCounts(found: seq<Found>, e: Expected, other: Expected)
    ensures |found| == |Matching(found, e)| + |Without(found, e)|
    ensures e.datasource != other.datasource || e.depName != other.depName ==>
      |Matching(Without(found, e), other)| == |Matching(found, other)|
  {
    if found != [] {
      WithoutCounts(found[1..], e, other);
      if !Meets(found[0], e) {
        assert Without(found, e)[1..] == Without(found[1..], e);
      } else {
        assert Without(found, e) == Without(found[1..], e);
      }
    }
  }

  /** A list that passes has at least as many matches as the minima of distinct expected entries add up to. */
  lemma {:induction false} PassingNeeds(found: seq<Found>, expected: seq<Expected>)
    requires DistinctEntries(expected)
    requires forall e :: e in expected ==> |Places(found, e.datasource, e.depName)| >= e.min
    ensures |found| >= Minima(expected)
    decreases |expected|
  {
    if expected != [] {
      var e, rest := expected[0], Without(found, expected[0]);
      WithoutCounts(found, e, e);
      MatchingCounts(found, e);
      forall o | o in expected[1..]
        ensures |Places(rest, o.datasource, o.depName)| >= o.min
      {
        var i :| 0 <= i < |expected[1..]| && expected[1..][i] == o;
        assert o == expected[i + 1];
        WithoutCounts(found, e, o);
        MatchingCounts(found, o);
        MatchingCounts(rest, o);
      }
      PassingNeeds(rest, expected[1..]);
    }
  }

  lemma ExpectedMinima()
    ensures DistinctEntries(EXPECTED) && Minima(EXPECTED) == 9
  {
    assert Minima(EXPECTED[8..]) == 0;
    assert EXPECTED[6..][1..] == EXPECTED[7..] && EXPECTED[7..][1..] == EXPECTED[8..];
    assert Minima(EXPECTED[6..]) == 2;
    assert EXPECTED[4..][1..] == EXPECTED[5..] && EXPECTED[5..][1..] == EXPECTED[6..];
    assert Minima(EXPECTED[4..]) == 4;
    assert EXPECTED[2..][1..] == EXPECTED[3..] && EXPECTED[3..][1..] == EXPECTED[4..];
    assert Minima(EXPECTED[2..]) == 6;
    assert EXPECTED[1..][1..] == EXPECTED[2..];
  }

  /** The eight dependencies of the script, golangci-lint twice. */
  ghost predicate AllThere(found: seq<Found>) {
    && |Places(found, "github-releases", "golangci/golangci-lint")| >= 2
    && |Places(found, "github-releases", "kubernetes-sigs/kind")| >= 1
    && |Places(found, "github-releases", "kubernetes-sigs/controller-tools")| >= 1
    && |Places(found, "github-releases", "ko-build/ko")| >= 1
    && |Places(found, "github-releases", "gotestyourself/gotestsum")| >= 1
    && |Places(found, "go", "github.com/kyverno/chainsaw")| >= 1
    && |Places(found, "docker", "renovate")| >= 1
    && |Places(found, "docker", "docker.io/ollama/ollama")| >= 1
  }

  /** An entry is there as often as it must be. */
  ghost predicate There(found: seq<Found>, e: Expected) { |Places(found, e.datasource, e.depName)| >= e.min }

  lemma {:induction false} AllEntries(found: seq<Found>, es: seq<Expected>)
    ensures (forall e :: e in es ==> There(found, e)) <==> forall i :: 0 <= i < |es| ==> There(found, es[i])
  {
  }

  lemma ExpectedIsAll(found: seq<Found>)
    ensures Passes(found, EXPECTED) <==> SingleValued(found) && AllThere(found)
  {
    AllEntries(found, EXPECTED);
    FirstEntries(found);
    LastEntries(found);
    assert Passes(found, EXPECTED) <==> SingleValued(found) && forall e :: e in EXPECTED ==> There(found, e);
    assert |EXPECTED| == 8;
  }

  lemma FirstEntries(found: seq<Found>)
    ensures |EXPECTED| == 8
    ensures There(found, EXPECTED[0]) <==> |Places(found, "github-releases", "golangci/golangci-lint")| >= 2
    ensures There(found, EXPECTED[1]) <==> |Places(found, "github-releases", "kubernetes-sigs/kind")| >= 1
    ensures There(found, EXPECTED[2]) <==> |Places(found, "github-releases", "kubernetes-sigs/controller-tools")| >= 1
    ensures There(found, EXPECTED[3]) <==> |Places(found, "github-releases", "ko-build/ko")| >= 1
  {
  }

  lemma LastEntries(found: seq<Found>)
    ensures There(found, EXPECTED[4]) <==> |Places(found, "github-releases", "gotestyourself/gotestsum")| >= 1
    ensures There(found, EXPECTED[5]) <==> |Places(found, "go", "github.com/kyverno/chainsaw")| >= 1
    ensures There(found, EXPECTED[6]) <==> |Places(found, "docker", "renovate")| >= 1
    ensures There(found, EXPECTED[7]) <==> |Places(found, "docker", "docker.io/ollama/ollama")| >= 1
  {
  }

  /** The script's own run: what it accepts has nine matches at least. */
  method Guard(found: seq<Found>) returns (ok: bool)
    ensures ok <==> SingleValued(found) && AllThere(found)
    ensures ok ==> |found| >= 9
  {
    ok := Judge(found, EXPECTED);
    ExpectedIsAll(found);
    ExpectedMinima();
    if ok { PassingNeeds(found, EXPECTED); }
  }
}
