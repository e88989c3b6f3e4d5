/**
 * Contributor enrichment (`addContributors` and `addContributorsToRepos` in
 * repos/index.js).  Each repository's contributors request is replaced by
 * its reply: an optional error, given by the message it carries, and an
 * optional list of contributors.
 */
module Enrichment {
  import opened Wrappers
  import opened Records

  /** The error message GitHub gives when it will not list a repository's contributors. */
  const TooLargeMessage := "The history or contributor list is too large to list contributors for this repository via the API."

  /** What `contributors` is set to on that error, before the reply's list is looked at. */
  const TooLargeNote := "Contributor list is too large"

  datatype RawContributor = RawContributor(login: string, htmlUrl: string, contributions: int, contributorType: string)

  datatype ContributorsReply = ContributorsReply(errMessage: Option<string>, res: Option<seq<RawContributor>>)

  function Summary(c: RawContributor): Contributor
  {
    Contributor(c.login, c.htmlUrl, c.contributions)
  }

  function Summaries(response: seq<RawContributor>): (r: seq<Contributor>)
    ensures |r| == |response|
  {
    seq(|response|, i requires 0 <= i < |response| => Summary(response[i]))
  }

  /** `addContributors(response)`: one summary per contributor, in the same order. */
  method AddContributors(response: seq<RawContributor>) returns (result: seq<Contributor>)
    ensures |result| == |response|
    ensures forall i :: 0 <= i < |response| ==>
      result[i].login == response[i].login &&
      result[i].htmlUrl == response[i].htmlUrl &&
      result[i].contributions == response[i].contributions
  {
    result := [];
    for i := 0 to |response|
      invariant |result| == i
      invariant forall k :: 0 <= k < i ==> result[k] == Summary(response[k])
    {
      result := result + [Summary(response[i])];
    }
  }

  /** The reply has a non-empty list of contributors. */
  predicate HasContributors(reply: ContributorsReply)
  {
    reply.res.Some? && |reply.res.value| > 0
  }

  /** The callback for one repository: first the error branch, then the reply's list overwrites it. */
  function Annotate(repo: RepoObject, reply: ContributorsReply): RepoObject
  {
    var noted :=
      if reply.errMessage == Some(TooLargeMessage) then repo.(contributors := Note(TooLargeNote)) else repo;
    if HasContributors(reply) then noted.(contributors := Listed(Summaries(reply.res.value)))
    else noted.(contributors := Listed([]))
  }

  /**
   * Only `contributors` changes, and it always ends as a list: the
   * contributors' summaries when the reply has any, and otherwise the empty
   * list, whatever the error was (the "too large" note is overwritten).
   */
  lemma AnnotateOutcome(repo: RepoObject, reply: ContributorsReply)
    ensures Annotate(repo, reply).(contributors := repo.contributors) == repo
    ensures Annotate(repo, reply).contributors.Listed?
    ensures !HasContributors(reply) ==> Annotate(repo, reply).contributors == Listed([])
    ensures HasContributors(reply) ==>
      var listed, res := Annotate(repo, reply).contributors.contributors, reply.res.value;
      && |listed| == |res|
      && forall i :: 0 <= i < |res| ==> listed[i] == Contributor(res[i].login, res[i].htmlUrl, res[i].contributions)
  {
  }

  /**
   * `addContributorsToRepos(repos)`: each reply annotates its repository in
   * place.  The join settles only when every repository has its reply; a
   * repository without one is left as it was.
   */
  method AddContributorsToRepos(repos: array<RepoObject>, replies: seq<ContributorsReply>) returns (settled: bool)
    modifies repos
    ensures settled == (repos.Length <= |replies|)
    ensures forall i :: 0 <= i < repos.Length ==>
      repos[i] == if i < |replies| then Annotate(old(repos[i]), replies[i]) else old(repos[i])
  {
    var n := if repos.Length <= |replies| then repos.Length else |replies|;
    for i := 0 to n
      invariant forall k :: 0 <= k < i ==> repos[k] == Annotate(old(repos[k]), replies[k])
      invariant forall k :: i <= k < repos.Length ==> repos[k] == old(repos[k])
    {
      var reply := replies[i];
      if reply.errMessage.Some? && reply.errMessage.value == TooLargeMessage {
        repos[i] := repos[i].(contributors := Note(TooLargeNote));
      }
      if reply.res.Some? && |reply.res.value| > 0 {
        var list := AddContributors(reply.res.value);
        assert list == Summaries(reply.res.value);
        repos[i] := repos[i].(contributors := Listed(list));
      } else {
        repos[i] := repos[i].(contributors := Listed([]));
      }
    }
    settled := repos.Length <= |replies|;
  }
}
