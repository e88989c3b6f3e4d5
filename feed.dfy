/**
 * The feed module of repos/index.js: the three snapshots it keeps
 * (`reposResult`, `reposToday`, `reposHour`), the day and hour views derived
 * from the full feed, `get(count)`, and one refresh (`updateRepos`) run
 * sequentially over given API answers.  The clock is the `now` parameter
 * (milliseconds); the date in the repository query is `pushedDate`.
 */
module Feed {
  import opened Wrappers
  import opened JsSeq
  import opened Records
  import opened Ranking
  import opened Paging
  import opened Chunking
  import opened Aggregation
  import opened Enrichment
  import opened Queries

  const DayMs := 86400000
  const HourMs := 3600000
  const ApiVersion := "v1"

  /** The parts of `config` the feed reads. */
  datatype Config = Config(
    location: string,
    starLimit: string,
    maxUsers: int,
    maxRepos: int,
    city: Option<string>,
    apiVersion: Option<string>)

  /** A snapshot's `meta` object; a field never assigned is `None`. */
  datatype Meta = Meta(
    generatedAt: Option<int>,
    location: Option<string>,
    totalRepos: Option<int>,
    apiVersion: Option<string>,
    maxUsers: Option<int>,
    maxRepos: Option<int>)

  const EmptyMeta := Meta(None, None, None, None, None, None)

  datatype Snapshot = Snapshot(meta: Meta, repos: seq<RepoObject>)

  // ---------------------------------------------------------------------
  // Day and hour views

  /** Division truncating toward zero, as moment's `diff` does. */
  function TruncDiv(a: int, b: int): int
    requires b > 0
  {
    if a >= 0 then a / b else -((-a) / b)
  }

  /** `moment(generated_at).diff(moment(pushed_at), 'days') === 0` */
  predicate SameDay(generatedAt: int, repo: RepoObject)
  {
    TruncDiv(generatedAt - repo.pushedAt, DayMs) == 0
  }

  function InDay(generatedAt: int): RepoObject -> bool
  {
    r => SameDay(generatedAt, r)
  }

  /** `getCurrentDayData(data)`: a missing `generated_at` makes moment use the current time. */
  function CurrentDayData(data: Snapshot, now: int): (r: seq<RepoObject>)
    ensures |r| <= |data.repos|
    ensures forall x :: x in r <==> x in data.repos && SameDay(data.meta.generatedAt.GetOr(now), x)
  {
    var generatedAt := data.meta.generatedAt.GetOr(now);
    FilterMembers(data.repos, InDay(generatedAt));
    Filter(data.repos, InDay(generatedAt))
  }

  /** `moment(pushed_at).isAfter(moment().subtract(1, 'hour'))` */
  predicate WithinLastHour(now: int, repo: RepoObject)
  {
    repo.pushedAt > now - HourMs
  }

  function InHour(now: int): RepoObject -> bool
  {
    r => WithinLastHour(now, r)
  }

  /** `getCurrentHourData(data)` */
  function CurrentHourData(data: Snapshot, now: int): (r: seq<RepoObject>)
    ensures |r| <= |data.repos|
    ensures forall x :: x in r <==> x in data.repos && WithinLastHour(now, x)
  {
    FilterMembers(data.repos, InHour(now));
    Filter(data.repos, InHour(now))
  }

  /** Zero whole days apart means pushed less than 24 hours before, or after, the generation time. */
  lemma SameDayWindow(generatedAt: int, repo: RepoObject)
    ensures SameDay(generatedAt, repo) <==> generatedAt - DayMs < repo.pushedAt < generatedAt + DayMs
  {
    var d := generatedAt - repo.pushedAt;
    if d >= DayMs {
      assert d / DayMs >= 1;
    } else if d <= -DayMs {
      assert (-d) / DayMs >= 1;
    }
  }

  /**
   * The day view is the subsequence of the feed made of the repositories
   * pushed within a day of generation: its k-th entry is the feed's entry at
   * the k-th such position, in feed order, and every such position is taken.
   */
  lemma CurrentDayDataExact(data: Snapshot, now: int)
    ensures var g, view := data.meta.generatedAt.GetOr(now), CurrentDayData(data, now);
      var idx := Passing(data.repos, InDay(g));
      && |idx| == |view|
      && (forall k :: 0 <= k < |idx| ==> idx[k] < |data.repos| && view[k] == data.repos[idx[k]])
      && (forall k, l :: 0 <= k < l < |idx| ==> idx[k] < idx[l])
      && (forall i :: 0 <= i < |data.repos| ==> (i in idx <==> g - DayMs < data.repos[i].pushedAt < g + DayMs))
  {
    var g := data.meta.generatedAt.GetOr(now);
    FilterPositions(data.repos, InDay(g));
    forall x: RepoObject ensures SameDay(g, x) <==> g - DayMs < x.pushedAt < g + DayMs {
      SameDayWindow(g, x);
    }
  }

  /**
   * The hour view is the subsequence of the feed made of the repositories
   * pushed strictly after an hour before now, in feed order.
   */
  lemma CurrentHourDataExact(data: Snapshot, now: int)
    ensures var view, idx := CurrentHourData(data, now), Passing(data.repos, InHour(now));
      && |idx| == |view|
      && (forall k :: 0 <= k < |idx| ==> idx[k] < |data.repos| && view[k] == data.repos[idx[k]])
      && (forall k, l :: 0 <= k < l < |idx| ==> idx[k] < idx[l])
      && (forall i :: 0 <= i < |data.repos| ==> (i in idx <==> data.repos[i].pushedAt > now - HourMs))
  {
    FilterPositions(data.repos, InHour(now));
  }

  /** The view after `addDayData`: `meta` keeps its other fields. */
  function DayView(previous: Meta, feed: Snapshot, now: int): Snapshot
  {
    var repos := CurrentDayData(feed, now);
    Snapshot(previous.(generatedAt := feed.meta.generatedAt, location := feed.meta.location, totalRepos := Some(|repos|)), repos)
  }

  function HourView(previous: Meta, feed: Snapshot, now: int): Snapshot
  {
    var repos := CurrentHourData(feed, now);
    Snapshot(previous.(generatedAt := feed.meta.generatedAt, location := feed.meta.location, totalRepos := Some(|repos|)), repos)
  }

  /**
   * `getMetaObject(config, repos)`: every field is set; the total is the
   * number of repositories listed, the generation time is now.
   */
  function MetaObject(config: Config, repos: seq<RepoObject>, now: int): (m: Meta)
    ensures m.totalRepos == Some(|repos|) && m.generatedAt == Some(now)
    ensures m.location == Some(config.location) && m.apiVersion == Some(ApiVersion)
    ensures m.maxUsers == Some(config.maxUsers) && m.maxRepos == Some(config.maxRepos)
  {
    Meta(Some(now), Some(config.location), Some(|repos|), Some(ApiVersion), Some(config.maxUsers), Some(config.maxRepos))
  }

  // ---------------------------------------------------------------------
  // One refresh, as a function of the API's answers

  /** The answers the API gives during one refresh. */
  datatype ApiScript = ApiScript(
    users: seq<Response<User>>,
    orgs: seq<Response<User>>,
    picks: seq<nat>,
    repoPages: seq<seq<Response<RawRepo>>>,
    contributors: seq<ContributorsReply>)

  /** A refresh either replaces the feed, fails on a search error (caught and logged), or never settles. */
  datatype RefreshOutcome = Refreshed(repos: seq<RepoObject>) | Failed(code: int) | Stalled

  /** The shuffled user and organisation groups, once both user searches resolved. */
  function UserGroups(config: Config, script: ApiScript): Option<seq<seq<User>>>
  {
    var users := FetchSpec(script.users, config.maxUsers);
    var orgs := FetchSpec(script.orgs, config.maxUsers);
    if users.Resolved? && orgs.Resolved? then
      Some(Chunks(Mess(users.items + orgs.items, script.picks), GroupSize))
    else None
  }

  /** The repository queries a refresh sends, one per group. */
  function RefreshQueries(config: Config, script: ApiScript, pushedDate: string): seq<SearchOptions>
  {
    match UserGroups(config, script)
    case None => []
    case Some(groups) =>
      seq(|groups|, g requires 0 <= g < |groups| => SearchReposOptions(config.starLimit, pushedDate, groups[g]))
  }

  function AnnotateAll(repos: seq<RepoObject>, replies: seq<ContributorsReply>): seq<RepoObject>
    requires |repos| <= |replies|
  {
    seq(|repos|, i requires 0 <= i < |repos| => Annotate(repos[i], replies[i]))
  }

  function RefreshSpec(config: Config, script: ApiScript): RefreshOutcome
  {
    var users := FetchSpec(script.users, config.maxUsers);
    var orgs := FetchSpec(script.orgs, config.maxUsers);
    if users.Rejected? then Failed(users.code)
    else if users.Pending? then Stalled
    else if orgs.Rejected? then Failed(orgs.code)
    else if orgs.Pending? then Stalled
    else
      var groups := Chunks(Mess(users.items + orgs.items, script.picks), GroupSize);
      match JoinAll(GroupOutcomes(script.repoPages, |groups|, config.maxRepos))
      case AnyRejected(code) => Failed(code)
      case NotSettled => Stalled
      case AllResolved(results) =>
        var repos := Aggregated(results, config.maxRepos);
        if |script.contributors| < |repos| then Stalled
        else Refreshed(AnnotateAll(repos, script.contributors))
  }

  /** What every feed a refresh produces satisfies. */
  ghost predicate WellFormedFeed(repos: seq<RepoObject>, maxRepos: nat)
  {
    && DistinctOwners(repos, OwnerLogin)
    && NonIncreasing(repos, PushedAt)
    && |repos| <= maxRepos
    && (forall x :: x in repos ==> Truthy(x.language) && x.contributors.Listed?)
  }

  /**
   * A refreshed feed has distinct owners, is newest first, holds at most
   * `maxRepos` repositories, each with a language and a contributor list.
   */
  lemma RefreshedFeedShape(config: Config, script: ApiScript)
    requires config.maxRepos >= 0
    requires RefreshSpec(config, script).Refreshed?
    ensures WellFormedFeed(RefreshSpec(config, script).repos, config.maxRepos)
  {
    var users := FetchSpec(script.users, config.maxUsers);
    var orgs := FetchSpec(script.orgs, config.maxUsers);
    var groups := Chunks(Mess(users.items + orgs.items, script.picks), GroupSize);
    var results := JoinAll(GroupOutcomes(script.repoPages, |groups|, config.maxRepos)).results;
    var repos := Aggregated(results, config.maxRepos);
    AggregatedShape(results, config.maxRepos);
    var annotated := AnnotateAll(repos, script.contributors);
    assert annotated == RefreshSpec(config, script).repos;
    forall i | 0 <= i < |repos|
      ensures annotated[i].owner == repos[i].owner && annotated[i].pushedAt == repos[i].pushedAt
      ensures annotated[i].language == repos[i].language && annotated[i].contributors.Listed?
    {
      AnnotateOutcome(repos[i], script.contributors[i]);
      assert repos[i] in repos;
    }
    forall x | x in annotated ensures Truthy(x.language) && x.contributors.Listed? {
      var i :| 0 <= i < |annotated| && annotated[i] == x;
      assert repos[i] in repos;
    }
  }

  /** A snapshot's `total_repos`, when set, counts its repositories. */
  predicate TotalMatches(s: Snapshot)
  {
    s.meta.totalRepos.None? || s.meta.totalRepos == Some(|s.repos|)
  }

  /**
   * After a refresh the three snapshots carry the feed's generation time
   * and location, and each reports its own number of repositories as its
   * total; the configured limits are those of the feed alone.
   */
  lemma RefreshTotals(config: Config, repos: seq<RepoObject>, now: int, dayMeta: Meta, hourMeta: Meta)
    ensures var feed := Snapshot(MetaObject(config, repos, now), repos);
      var day, hour := DayView(dayMeta, feed, now), HourView(hourMeta, feed, now);
      && TotalMatches(feed) && TotalMatches(day) && TotalMatches(hour)
      && feed.meta.totalRepos.Some? && day.meta.totalRepos.Some? && hour.meta.totalRepos.Some?
      && day.meta.generatedAt == hour.meta.generatedAt == feed.meta.generatedAt == Some(now)
      && day.meta.location == hour.meta.location == feed.meta.location == Some(config.location)
      && feed.meta.maxRepos == Some(config.maxRepos) && feed.meta.maxUsers == Some(config.maxUsers)
      && day.meta.maxRepos == dayMeta.maxRepos && hour.meta.maxRepos == hourMeta.maxRepos
  {
  }

  // ---------------------------------------------------------------------
  // The module state

  class ReposFeed {
    const config: Config
    var feed: Snapshot
    var day: Snapshot
    var hour: Snapshot

    /**
     * Every snapshot this object holds came from a refresh (loading the cache
     * file is not modelled): the feed is well formed, and each snapshot's
     * total, once set, is its own number of repositories.
     */
    ghost predicate Valid()
      reads this`feed, this`day, this`hour
    {
      && (config.maxRepos >= 0 ==> WellFormedFeed(feed.repos, config.maxRepos))
      && TotalMatches(feed) && TotalMatches(day) && TotalMatches(hour)
    }

    constructor (config: Config)
      ensures this.config == config && Valid()
      ensures feed == Snapshot(EmptyMeta, []) && day == Snapshot(EmptyMeta, []) && hour == Snapshot(EmptyMeta, [])
    {
      this.config := config;
      feed := Snapshot(EmptyMeta, []);
      day := Snapshot(EmptyMeta, []);
      hour := Snapshot(EmptyMeta, []);
    }

    /** `addDayData()` */
    method AddDayData(now: int)
      requires Valid()
      modifies this`day
      ensures Valid()
      ensures day == DayView(old(day).meta, feed, now)
    {
      var repos := CurrentDayData(feed, now);
      day := day.(meta := day.meta.(generatedAt := feed.meta.generatedAt));
      day := day.(meta := day.meta.(location := feed.meta.location));
      day := day.(repos := repos);
      day := day.(meta := day.meta.(totalRepos := Some(|day.repos|)));
    }

    /** `addHourData()` */
    method AddHourData(now: int)
      requires Valid()
      modifies this`hour
      ensures Valid()
      ensures hour == HourView(old(hour).meta, feed, now)
    {
      var repos := CurrentHourData(feed, now);
      hour := hour.(meta := hour.meta.(generatedAt := feed.meta.generatedAt));
      hour := hour.(meta := hour.meta.(location := feed.meta.location));
      hour := hour.(repos := repos);
      hour := hour.(meta := hour.meta.(totalRepos := Some(|hour.repos|)));
    }

    /** The success handler of `updateRepos`: replace the feed whole, then recompute both views. */
    method ReplaceFeed(repos: seq<RepoObject>, now: int)
      requires Valid()
      requires config.maxRepos >= 0 ==> WellFormedFeed(repos, config.maxRepos)
      modifies this
      ensures Valid()
      ensures feed == Snapshot(MetaObject(config, repos, now), repos)
      ensures day == DayView(old(day).meta, feed, now)
      ensures hour == HourView(old(hour).meta, feed, now)
    {
      feed := feed.(meta := MetaObject(config, repos, now));
      feed := feed.(repos := repos);
      AddDayData(now);
      AddHourData(now);
    }

    /** `get(count)`: the first `count` repositories; `total_repos` is `count` itself. */
    function Get(count: nat, now: int): (answer: Snapshot)
      reads this
      ensures answer.repos <= feed.repos
      ensures |answer.repos| == (if count < |feed.repos| then count else |feed.repos|)
      ensures answer.meta.totalRepos == Some(count)
      ensures answer.meta.location == config.city && answer.meta.apiVersion == config.apiVersion
      ensures answer.meta.generatedAt == Some(now)
    {
      Snapshot(Meta(Some(now), config.city, Some(count), config.apiVersion, None, None), Slice(feed.repos, 0, count))
    }

    /**
     * `updateRepos()`, one stage after another: search users, then
     * organisations, shuffle and chunk them, search repositories per group,
     * aggregate, enrich, and replace the feed.  A rejected search leaves all
     * three snapshots as they were; so does a refresh that never settles.
     */
    method Update(script: ApiScript, now: int, pushedDate: string) returns (outcome: RefreshOutcome, queries: seq<SearchOptions>)
      requires Valid()
      modifies this
      ensures Valid()
      ensures outcome == RefreshSpec(config, script)
      ensures queries == RefreshQueries(config, script, pushedDate)
      ensures outcome.Refreshed? ==>
        && feed == Snapshot(MetaObject(config, outcome.repos, now), outcome.repos)
        && day == DayView(old(day).meta, feed, now)
        && hour == HourView(old(hour).meta, feed, now)
      ensures !outcome.Refreshed? ==> feed == old(feed) && day == old(day) && hour == old(hour)
    {
      queries := [];
      var users := Fetch(script.users, config.maxUsers);
      if users.Rejected? { return Failed(users.code), queries; }
      if users.Pending? { return Stalled, queries; }
      var orgs := Fetch(script.orgs, config.maxUsers);
      if orgs.Rejected? { return Failed(orgs.code), queries; }
      if orgs.Pending? { return Stalled, queries; }

      var everyone := new JsArray(Mess(users.items + orgs.items, script.picks));
      var chunked := Chunk(everyone, GroupSize);
      var groups := chunked.value;
      queries := seq(|groups|, g requires 0 <= g < |groups| => SearchReposOptions(config.starLimit, pushedDate, groups[g]));

      var joined := FetchAll(script.repoPages, |groups|, config.maxRepos);
      if joined.AnyRejected? { return Failed(joined.code), queries; }
      if joined.NotSettled? { return Stalled, queries; }

      var repos := AddReposAndOwners(joined.results, config.maxRepos);
      var annotated := new RepoObject[|repos|](i requires 0 <= i < |repos| => repos[i]);
      var settled := AddContributorsToRepos(annotated, script.contributors);
      if !settled { return Stalled, queries; }

      assert annotated[..] == AnnotateAll(repos, script.contributors);
      outcome := Refreshed(annotated[..]);
      if config.maxRepos >= 0 {
        RefreshedFeedShape(config, script);
      }
      ReplaceFeed(annotated[..], now);
    }
  }

  /** `get` reports `count` as the total even when the feed is shorter. */
  lemma GetOverstatesTotal(store: ReposFeed, count: nat, now: int)
    requires |store.feed.repos| < count
    ensures store.Get(count, now).meta.totalRepos != Some(|store.Get(count, now).repos|)
  {
  }
}
