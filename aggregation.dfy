/**
 * `addReposAndOwners(results, maxRepos)` from repos/index.js: flatten the
 * per-group search results, drop repositories without a language, project
 * them, sort newest first, keep one repository per owner and truncate.
 */
module Aggregation {
  import opened Wrappers
  import opened JsSeq
  import opened Records
  import opened Ranking

  /** The projected repositories that have a language, in result order. */
  function Candidates(results: seq<seq<RawRepo>>): seq<RepoObject>
  {
    var valid := Filter(Flatten(results), HasValidLanguage);
    seq(|valid|, i requires 0 <= i < |valid| => GetRepoObject(valid[i]))
  }

  function Aggregated(results: seq<seq<RawRepo>>, maxRepos: int): seq<RepoObject>
  {
    RankCounted(Candidates(results), PushedAt, OwnerLogin, maxRepos)
  }

  /** The chain `concat.apply`, `filter`, `map`, `sort`, owner-counting `filter`, `slice`. */
  method AddReposAndOwners(results: seq<seq<RawRepo>>, maxRepos: int) returns (repos: seq<RepoObject>)
    ensures repos == Aggregated(results, maxRepos)
  {
    var all := Flatten(results);
    var valid := Filter(all, HasValidLanguage);
    var projected := seq(|valid|, i requires 0 <= i < |valid| => GetRepoObject(valid[i]));
    var sorted := SortDesc(projected, PushedAt);
    var kept := DedupByOwner(sorted, OwnerLogin);
    repos := Slice(kept, 0, maxRepos);
  }

  /** Every candidate is the projection of a repository with a language from the results. */
  lemma CandidatesFromResults(results: seq<seq<RawRepo>>, x: RepoObject)
    requires x in Candidates(results)
    ensures exists raw :: raw in Flatten(results) && HasValidLanguage(raw) && GetRepoObject(raw) == x
    ensures Truthy(x.language)
  {
    var valid := Filter(Flatten(results), HasValidLanguage);
    FilterMembers(Flatten(results), HasValidLanguage);
    var i :| 0 <= i < |valid| && Candidates(results)[i] == x;
    assert valid[i] in valid;
  }

  /**
   * The language filter decides candidacy: a search result's projection is
   * a candidate exactly when the result has a non-empty language.
   */
  lemma LanguageFilterExact(results: seq<seq<RawRepo>>, raw: RawRepo)
    requires raw in Flatten(results)
    ensures GetRepoObject(raw) in Candidates(results) <==> HasValidLanguage(raw)
  {
    var valid := Filter(Flatten(results), HasValidLanguage);
    FilterMembers(Flatten(results), HasValidLanguage);
    if HasValidLanguage(raw) {
      var i :| 0 <= i < |valid| && valid[i] == raw;
      assert Candidates(results)[i] == GetRepoObject(raw);
    }
    if GetRepoObject(raw) in Candidates(results) {
      CandidatesFromResults(results, GetRepoObject(raw));
    }
  }

  /**
   * The canonical feed: owners distinct, newest first, at most `maxRepos`
   * entries, every entry a projected search result with a language, no owner
   * whose login names an Object.prototype member, each entry the newest
   * repository of its owner among those with a language, and, while there
   * is room, every other owner of such a repository.
   */
  lemma AggregatedShape(results: seq<seq<RawRepo>>, maxRepos: nat)
    ensures var r := Aggregated(results, maxRepos);
      && DistinctOwners(r, OwnerLogin)
      && NonIncreasing(r, PushedAt)
      && |r| <= maxRepos
      && (forall x :: x in r ==> Truthy(x.language))
      && (forall x :: x in r ==> exists raw :: raw in Flatten(results) && GetRepoObject(raw) == x)
      && (forall x :: x in r ==> x.owner.login !in InheritedKeys)
      && (forall x, y :: x in r && y in Candidates(results) && y.owner.login == x.owner.login ==> y.pushedAt <= x.pushedAt)
      && (|OwnersOf(Candidates(results), OwnerLogin)| <= maxRepos ==>
            OwnersOf(r, OwnerLogin) == OwnersOf(Candidates(results), OwnerLogin) - InheritedKeys)
  {
    var cands := Candidates(results);
    var r := RankCounted(cands, PushedAt, OwnerLogin, maxRepos);
    assert r == Aggregated(results, maxRepos);
    RankCountedShape(cands, PushedAt, OwnerLogin, maxRepos);
    DrawnFromCandidates(results, r);
  }

  lemma DrawnFromCandidates(results: seq<seq<RawRepo>>, r: seq<RepoObject>)
    requires multiset(r) <= multiset(Candidates(results))
    ensures forall x :: x in r ==> Truthy(x.language)
    ensures forall x :: x in r ==> exists raw :: raw in Flatten(results) && GetRepoObject(raw) == x
  {
    forall x | x in r
      ensures Truthy(x.language)
      ensures exists raw :: raw in Flatten(results) && GetRepoObject(raw) == x
    {
      assert x in multiset(Candidates(results));
      CandidatesFromResults(results, x);
    }
  }

  /** No results, or results without any language, give an empty feed. */
  lemma AggregatedOfNothing(results: seq<seq<RawRepo>>, maxRepos: int)
    requires forall raw :: raw in Flatten(results) ==> !HasValidLanguage(raw)
    ensures Aggregated(results, maxRepos) == []
  {
    var all := Flatten(results);
    assert forall i :: 0 <= i < |all| ==> all[i] in all;
    FilterNone(all, HasValidLanguage);
  }

  /** A negative `maxRepos` does not empty the feed: `slice(0, -1)` drops only the last owner's entry. */
  lemma NegativeMaxReposKeepsEntries(results: seq<seq<RawRepo>>)
    requires |KeepFirstCounted(SortDesc(Candidates(results), PushedAt), OwnerLogin)| >= 1
    ensures var kept := KeepFirstCounted(SortDesc(Candidates(results), PushedAt), OwnerLogin);
      Aggregated(results, -1) == kept[..|kept| - 1]
  {
  }

  function SampleRepo(owner: string, pushedAt: int): RawRepo
  {
    RawRepo("r", "u", None, pushedAt, pushedAt, Some("Go"), 1, 0, 0, 1, 0, RawOwner(owner, "", "", "User"))
  }

  /** Owner "a" pushed on days 3 and 1, owner "b" on day 2: the feed is a(3), b(2). */
  lemma DedupScenario()
    ensures Aggregated([[SampleRepo("a", 3), SampleRepo("b", 2), SampleRepo("a", 1)]], 10)
      == [GetRepoObject(SampleRepo("a", 3)), GetRepoObject(SampleRepo("b", 2))]
  {
    var a3, b2, a1 := SampleRepo("a", 3), SampleRepo("b", 2), SampleRepo("a", 1);
    var results := [[a3, b2, a1]];
    assert Flatten(results) == [a3, b2, a1];
    assert [a3, b2, a1][1..] == [b2, a1] && [b2, a1][1..] == [a1];
    assert Filter([a1], HasValidLanguage) == [a1];
    assert Filter([b2, a1], HasValidLanguage) == [b2, a1];
    assert Filter([a3, b2, a1], HasValidLanguage) == [a3, b2, a1];
    var o3, o2, o1 := GetRepoObject(a3), GetRepoObject(b2), GetRepoObject(a1);
    assert Candidates(results) == [o3, o2, o1];
    assert SortDesc([o1], PushedAt) == [o1];
    assert SortDesc([o2, o1], PushedAt) == [o2, o1];
    assert SortDesc([o3, o2, o1], PushedAt) == [o3, o2, o1];
    var sorted := [o3, o2, o1];
    var p := PlainOwner(OwnerLogin);
    ShortLoginPlain(o3);
    ShortLoginPlain(o2);
    ShortLoginPlain(o1);
    assert [o3, o2, o1][1..] == [o2, o1] && [o2, o1][1..] == [o1] && [o1][1..] == [];
    assert Filter([o1], p) == [o1];
    assert Filter([o2, o1], p) == [o2, o1];
    assert Filter(sorted, p) == sorted;
    assert sorted[..2] == [o3, o2] && [o3, o2][..1] == [o3] && [o3][..0] == [];
    assert KeepFirstPerOwner([o3], OwnerLogin) == [o3];
    assert OwnersOf([o3], OwnerLogin) == {"a"};
    assert KeepFirstPerOwner([o3, o2], OwnerLogin) == [o3, o2];
    assert OwnersOf([o3, o2], OwnerLogin) == {"a", "b"};
    assert KeepFirstPerOwner(sorted, OwnerLogin) == [o3, o2];
  }

  /** Every inherited name has at least seven letters, so no shorter login is one. */
  lemma ShortLoginPlain(x: RepoObject)
    requires |x.owner.login| < 7
    ensures PlainOwner(OwnerLogin)(x)
  {
    assert OwnerLogin(x) == x.owner.login;
    assert forall k :: k in InheritedKeys ==> |k| >= 7;
  }

  lemma InheritedLoginNotPlain(x: RepoObject)
    requires x.owner.login == "constructor"
    ensures !PlainOwner(OwnerLogin)(x)
  {
    assert OwnerLogin(x) in InheritedKeys;
  }

  /**
   * The owner "constructor" pushed on days 3 and 2, "a" on day 1: the lookup
   * `owners["constructor"]` finds the inherited constructor, `1 +` it is a
   * string, and the feed is a(1) alone.
   */
  lemma InheritedOwnerScenario()
    ensures Aggregated([[SampleRepo("constructor", 3), SampleRepo("constructor", 2), SampleRepo("a", 1)]], 10)
      == [GetRepoObject(SampleRepo("a", 1))]
  {
    var c3, c2, a1 := SampleRepo("constructor", 3), SampleRepo("constructor", 2), SampleRepo("a", 1);
    var results := [[c3, c2, a1]];
    assert Flatten(results) == [c3, c2, a1];
    assert [c3, c2, a1][1..] == [c2, a1] && [c2, a1][1..] == [a1];
    assert Filter([a1], HasValidLanguage) == [a1];
    assert Filter([c2, a1], HasValidLanguage) == [c2, a1];
    assert Filter([c3, c2, a1], HasValidLanguage) == [c3, c2, a1];
    var o3, o2, o1 := GetRepoObject(c3), GetRepoObject(c2), GetRepoObject(a1);
    assert Candidates(results) == [o3, o2, o1];
    assert SortDesc([o1], PushedAt) == [o1];
    assert SortDesc([o2, o1], PushedAt) == [o2, o1];
    assert SortDesc([o3, o2, o1], PushedAt) == [o3, o2, o1];
    var p := PlainOwner(OwnerLogin);
    assert [o3, o2, o1][1..] == [o2, o1] && [o2, o1][1..] == [o1];
    InheritedLoginNotPlain(o3);
    InheritedLoginNotPlain(o2);
    ShortLoginPlain(o1);
    assert [o1][1..] == [];
    assert Filter([o1], p) == [o1];
    assert Filter([o2, o1], p) == [o1];
    assert Filter([o3, o2, o1], p) == [o1];
    assert KeepFirstPerOwner([o1], OwnerLogin) == [o1];
  }
}
