/**
 * The GitHub provider of repos/github.js: the user search, one repository
 * search per group of twenty shuffled users, and `filterRepoResults`, which
 * sorts the found repositories newest first, keeps one per owner and
 * truncates.  `update` chains the three; its as-written chain is modelled
 * beside the corrected one (see UpdateAsWritten).
 */
module GithubProvider {
  import opened Wrappers
  import opened JsSeq
  import opened Records
  import opened Ranking
  import opened Paging
  import opened Chunking
  import opened Queries

  /** `fetchReposForUsers(users)`: shuffle, chunk by 20, one search per group, `Promise.all`. */
  method FetchReposForUsers(shared: SearchArgs, users: seq<User>, picks: seq<nat>,
                            responses: seq<seq<Response<RawRepo>>>, maxRepos: int)
    returns (issued: seq<SearchArgs>, joined: JoinOutcome<RawRepo>)
    requires shared.q.Terms?
    ensures var groups := Chunks(Mess(users, picks), GroupSize);
      && |issued| == |groups|
      && (forall g :: 0 <= g < |groups| ==> issued[g] == GroupSearchArgs(shared, groups[g]))
      && (forall g :: 0 <= g < |groups| ==> issued[g].(q := shared.q) == shared)
      && joined == JoinAll(GroupOutcomes(responses, |groups|, maxRepos))
  {
    var arr := new JsArray(Mess(users, picks));
    var chunked := Chunk(arr, GroupSize);
    var groups := chunked.value;
    issued := [];
    for g := 0 to |groups|
      invariant |issued| == g
      invariant forall h :: 0 <= h < g ==> issued[h] == GroupSearchArgs(shared, groups[h])
    {
      issued := issued + [GroupSearchArgs(shared, groups[g])];
    }
    joined := FetchAll(responses, |groups|, maxRepos);
  }

  /** Every user lands in exactly as many groups as it occurs, and no group exceeds twenty users. */
  lemma GroupsPartitionUsers(users: seq<User>, picks: seq<nat>)
    ensures var groups := Chunks(Mess(users, picks), GroupSize);
      && multiset(Flatten(groups)) == multiset(users)
      && (forall g :: 0 <= g < |groups| ==> 0 < |groups[g]| <= GroupSize)
  {
    var shuffled := Mess(users, picks);
    MessPermutes(users, picks);
    ChunksFlatten(shuffled, GroupSize);
    ChunksSizes(shuffled, GroupSize);
  }

  /** What `filterRepoResults` receives: anything that is not an array yields `[]`. */
  datatype RepoList<T> = NotAnArray | RepoArray(repos: seq<T>)

  /**
   * `filterRepoResults(repos)` with `config.maxRepos` as `maxRepos`, and with
   * `new Repo()` constructing (the projection it fills is discarded: the
   * `map` returns the search result itself).
   */
  method FilterRepoResults(repos: RepoList<RawRepo>, maxRepos: int) returns (r: seq<RawRepo>)
    ensures repos.NotAnArray? ==> r == []
    ensures repos.RepoArray? ==> r == RankFlagged(repos.repos, RawPushedAt, RawOwnerLogin, maxRepos)
  {
    if repos.NotAnArray? {
      return [];
    }
    var sorted := SortDesc(repos.repos, RawPushedAt);
    var kept := DedupByOwnerFlag(sorted, RawOwnerLogin);
    r := Slice(kept, 0, maxRepos);
  }

  /**
   * The filtered list has distinct owners, is newest first, holds at most
   * `maxRepos` repositories, all from the input; a repository whose owner's
   * login is not an Object.prototype member is the newest of that owner, and
   * no such owner is lost while there is room.  Unlike repos/index.js,
   * repositories without a language are kept.
   */
  lemma FilterRepoResultsShape(repos: seq<RawRepo>, maxRepos: nat)
    ensures var r := RankFlagged(repos, RawPushedAt, RawOwnerLogin, maxRepos);
      && DistinctOwners(r, RawOwnerLogin)
      && NonIncreasing(r, RawPushedAt)
      && |r| <= maxRepos
      && multiset(r) <= multiset(repos)
      && (forall x, y :: x in r && y in repos && y.owner.login == x.owner.login && x.owner.login !in InheritedKeys ==>
            y.pushedAt <= x.pushedAt)
      && (|OwnersOf(repos, RawOwnerLogin)| <= maxRepos ==>
            OwnersOf(repos, RawOwnerLogin) - InheritedKeys <= OwnersOf(r, RawOwnerLogin))
  {
    RankFlaggedShape(repos, RawPushedAt, RawOwnerLogin, maxRepos);
  }

  function SampleRaw(owner: string, pushedAt: int): RawRepo
  {
    RawRepo("r", "u", None, pushedAt, pushedAt, None, 1, 0, 0, 1, 0, RawOwner(owner, "", "", "User"))
  }

  /**
   * The owner "constructor" pushed on days 3 and 2, "a" on day 1: the first
   * lookup of `reposPerOwner["constructor"]` finds the inherited constructor
   * and `++` turns it into NaN, so the second of that owner passes.
   */
  lemma InheritedOwnerFilter()
    ensures RankFlagged([SampleRaw("constructor", 3), SampleRaw("constructor", 2), SampleRaw("a", 1)],
                        RawPushedAt, RawOwnerLogin, 10)
      == [SampleRaw("constructor", 2), SampleRaw("a", 1)]
  {
    var c3, c2, a1 := SampleRaw("constructor", 3), SampleRaw("constructor", 2), SampleRaw("a", 1);
    var s := [c3, c2, a1];
    InheritedSampleSorted(c3, c2, a1);
    InheritedSampleDropped(c3, c2, a1);
    assert [c2, a1][..1] == [c2] && [c2][..0] == [];
    assert KeepFirstPerOwner([c2], RawOwnerLogin) == [c2];
    assert OwnersOf([c2], RawOwnerLogin) == {"constructor"};
    assert KeepFirstPerOwner([c2, a1], RawOwnerLogin) == [c2, a1];
  }

  lemma InheritedSampleSorted(c3: RawRepo, c2: RawRepo, a1: RawRepo)
    requires c3.pushedAt == 3 && c2.pushedAt == 2 && a1.pushedAt == 1
    ensures SortDesc([c3, c2, a1], RawPushedAt) == [c3, c2, a1]
  {
    assert [c3, c2, a1][1..] == [c2, a1] && [c2, a1][1..] == [a1];
    assert SortDesc([a1], RawPushedAt) == [a1];
    assert SortDesc([c2, a1], RawPushedAt) == [c2, a1];
  }

  lemma InheritedSampleDropped(c3: RawRepo, c2: RawRepo, a1: RawRepo)
    requires c3.owner.login == "constructor" && c2.owner.login == "constructor" && a1.owner.login == "a"
    ensures DropFirstInherited([c3, c2, a1], RawOwnerLogin) == [c2, a1]
  {
    var s := [c3, c2, a1];
    assert s[..2] == [c3, c2] && [c3, c2][..1] == [c3] && [c3][..0] == [];
    assert "constructor" in InheritedKeys;
    assert "a" !in InheritedKeys by {
      assert forall k :: k in InheritedKeys ==> |k| >= 7;
    }
    assert RawOwnerLogin(c3) == "constructor" && RawOwnerLogin(c2) == "constructor";
    assert "constructor" in OwnersOf([c3], RawOwnerLogin) by {
      assert RawOwnerLogin([c3][0]) == "constructor";
    }
    assert "constructor" in OwnersOf([c3, c2], RawOwnerLogin) by {
      assert RawOwnerLogin([c3, c2][0]) == "constructor";
    }
    assert "constructor" !in OwnersOf([], RawOwnerLogin);
    assert DropFirstInherited([c3], RawOwnerLogin) == [];
    assert DropFirstInherited([c3, c2], RawOwnerLogin) == [c2];
  }

  // ---------------------------------------------------------------------
  // `update`

  /**
   * How the promise `update` returns settles: with a list; or, after the
   * `catch` logs a rejected search or a thrown error, with `undefined`; or never.
   */
  datatype Settled = Fulfilled(repos: seq<RawRepo>) | SearchFailed(code: int) | Threw(message: string) | NeverSettles

  /**
   * Repo.js assigns no `module.exports`, so `require('../Repo')` yields an
   * empty object and `new Repo()` throws.
   */
  const RepoNotAConstructor := "TypeError: Repo is not a constructor"
  const ReferenceErrorRepos := "ReferenceError: repos is not defined"

  /**
   * `filterRepoResults` as written: anything but an array, and an empty
   * array, give `[]`; otherwise its `map` calls `new Repo()` on the first
   * element and throws.
   */
  function FilterRepoResultsAsWritten<T>(repos: RepoList<T>): (s: Settled)
    ensures s == Fulfilled([]) <==> repos.NotAnArray? || repos.repos == []
    ensures !s.Fulfilled? ==> s == Threw(RepoNotAConstructor)
  {
    if repos.NotAnArray? || repos.repos == [] then Fulfilled([]) else Threw(RepoNotAConstructor)
  }

  /** One repository: the written filter throws, the filter with `Repo` exported returns it. */
  lemma FilterRepoResultsAsWrittenThrows(repo: RawRepo, maxRepos: nat)
    requires maxRepos >= 1 && repo.owner.login !in InheritedKeys
    ensures FilterRepoResultsAsWritten(RepoArray([repo])) == Threw(RepoNotAConstructor)
    ensures RankFlagged([repo], RawPushedAt, RawOwnerLogin, maxRepos) == [repo]
  {
    assert SortDesc([repo], RawPushedAt) == [repo];
    assert [repo][..0] == [];
    assert DropFirstInherited([repo], RawOwnerLogin) == [repo];
    assert KeepFirstPerOwner([repo], RawOwnerLogin) == [repo];
  }

  /**
   * The chain as written: `Promise.all` fulfils with one array per group,
   * and that array of arrays reaches `filterRepoResults` unflattened, whose
   * `map` throws at `new Repo()`; with no group at all the filter returns
   * `[]` and the success handler reads the undeclared `repos` and throws.
   */
  function UpdateAsWritten(joined: JoinOutcome<RawRepo>): (s: Settled)
  {
    match joined
    case AnyRejected(code) => SearchFailed(code)
    case NotSettled => NeverSettles
    case AllResolved(results) =>
      var filtered := FilterRepoResultsAsWritten(RepoArray(results));
      if filtered.Threw? then filtered else Threw(ReferenceErrorRepos)
  }

  /** As written, `update` never fulfils with a list, whatever the searches return. */
  lemma UpdateAsWrittenNeverFulfils(joined: JoinOutcome<RawRepo>)
    ensures !UpdateAsWritten(joined).Fulfilled?
    ensures joined.AllResolved? ==> UpdateAsWritten(joined).Threw?
  {
  }

  /** One group whose search found one repository: the intended chain lists it, the written one logs a TypeError. */
  lemma UpdateAsWrittenExample(repo: RawRepo)
    requires repo.owner.login !in InheritedKeys
    ensures UpdateAsWritten(AllResolved([[repo]])) == Threw(RepoNotAConstructor)
    ensures UpdateSpec(AllResolved([[repo]]), 30) == Fulfilled([repo])
  {
    assert Flatten([[repo]]) == [repo];
    FilterRepoResultsAsWrittenThrows(repo, 30);
  }

  /** The intended chain: the group results flattened, then filtered. */
  function UpdateSpec(joined: JoinOutcome<RawRepo>, maxRepos: int): Settled
  {
    match joined
    case AnyRejected(code) => SearchFailed(code)
    case NotSettled => NeverSettles
    case AllResolved(results) => Fulfilled(RankFlagged(Flatten(results), RawPushedAt, RawOwnerLogin, maxRepos))
  }

  /** The intended chain after the user search: nothing more on failure, else one search per group, flattened and filtered. */
  function UpdateAfterUsers(users: FetchOutcome<User>, picks: seq<nat>,
                            repoAnswers: seq<seq<Response<RawRepo>>>, maxRepos: int): Settled
  {
    match users
    case Rejected(code, _) => SearchFailed(code)
    case Pending(_) => NeverSettles
    case Resolved(items, _) =>
      UpdateSpec(JoinAll(GroupOutcomes(repoAnswers, |Chunks(Mess(items, picks), GroupSize)|, maxRepos)), maxRepos)
  }

  /**
   * `update()` with its three slips corrected: `Repo` exported from Repo.js,
   * the group results flattened before filtering, and `reposResult.length`
   * logged in place of the undeclared `repos.length`.  It searches users,
   * searches repositories per group, flattens and filters.  A rejected
   * search is logged and the promise fulfils with `undefined`.
   */
  method Update(shared: SearchArgs, userAnswers: seq<Response<User>>, picks: seq<nat>,
                repoAnswers: seq<seq<Response<RawRepo>>>, maxUsers: int, maxRepos: int)
    returns (s: Settled)
    requires shared.q.Terms?
    ensures s == UpdateAfterUsers(FetchSpec(userAnswers, maxUsers), picks, repoAnswers, maxRepos)
  {
    var users := Fetch(userAnswers, maxUsers);
    match users {
      case Rejected(code, _) =>
        return SearchFailed(code);
      case Pending(_) =>
        return NeverSettles;
      case Resolved(items, _) =>
        var issued, joined := FetchReposForUsers(shared, items, picks, repoAnswers, maxRepos);
        match joined {
          case AnyRejected(code) =>
            return SearchFailed(code);
          case NotSettled =>
            return NeverSettles;
          case AllResolved(results) =>
            var r := FilterRepoResults(RepoArray(Flatten(results)), maxRepos);
            return Fulfilled(r);
        }
    }
  }

  /** A fulfilled update lists at most `maxRepos` repositories with distinct owners, newest first. */
  lemma UpdateFulfilledShape(joined: JoinOutcome<RawRepo>, maxRepos: nat)
    requires UpdateSpec(joined, maxRepos).Fulfilled?
    ensures var r := UpdateSpec(joined, maxRepos).repos;
      && DistinctOwners(r, RawOwnerLogin) && NonIncreasing(r, RawPushedAt) && |r| <= maxRepos
      && multiset(r) <= multiset(Flatten(joined.results))
  {
    FilterRepoResultsShape(Flatten(joined.results), maxRepos);
  }
}
