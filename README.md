# webuild-repos in Dafny

A model of the repositories feed of webuild-repos. The feed searches GitHub
for users and organisations in one location. It shuffles them into groups of
twenty and searches each group's repositories, following pages up to a
limit and retrying after a rate limit. It keeps the newest repository per
owner, asks GitHub for each kept repository's contributors, and publishes
three snapshots: the full feed, the repositories pushed on the feed's day,
and those pushed in the last hour. Beside it sit the older provider design
(`repos/github.js`), the provider-neutral `Repo` record (`Repo.js`), and the
store that merges what providers deliver (`index.js`).

The remote API is replaced by the answers it gives, in the order they are
asked for. The clock is a `now` parameter in milliseconds, and the shuffle's
random choices are a `picks` parameter. Timestamps are integers; JavaScript
`null`/`undefined` is `None`.

Modules, one concept each:

- `JsSeq`: `slice` (negative ends count from the end), flattening, `filter`,
  `join('+')`, and `Split`, the inverse of `join`.
- `Paging`: the paginated `fetch`, and `Promise.all` over fetches.
- `Chunking`: `chunk` on a shared array (a class, changed in place) and the shuffle.
- `Ranking`: sort newest first, keep the first per owner, truncate; the per-owner
  counters of both files are plain objects, so logins such as `constructor`
  find Object.prototype members, and each file's filter is modelled with them.
- `Records`, `Queries`, `Aggregation`, `Enrichment`: the records,
  search queries, `addReposAndOwners` and the contributor step of `repos/index.js`.
- `Feed`: the three snapshots (`ReposFeed`), the day and hour views, `get`,
  and one `updateRepos` run.
- `GithubProvider`: `repos/github.js`.
- `RepoRecord`: `Repo.js`.
- `ProviderMerge`: `index.js`.

## Model

| member | source | states |
|---|---|---|
| JsSeq.SliceFromStart | repos/index.js:187 | with a non-negative end, `slice(0, n)` is the first n elements |
| JsSeq.SliceNegativeEnd | repos/index.js:187 | with a negative end, `slice(0, n)` drops the last -n elements rather than returning nothing |
| JsSeq.FlattenMembers | repos/index.js:179 | an element is in the flattened results exactly when it is in one of the groups |
| JsSeq.FilterMembers | repos/index.js:180 | `filter` keeps exactly the elements that pass and never adds any |
| JsSeq.SplitJoin | repos/index.js:108 | joining terms that hold no `+` with `+` and splitting again gives the terms back |
| Paging.Fetch | repos/index.js:33-63 | the callback loop ends exactly as the loop-free FetchSpec says: resolved with the items and the request count, rejected with the first non-403 code, or pending when answers run out |
| Paging.FetchSpecMeans | repos/index.js:36-60 | a resolved fetch's items are the first `limit` items of the pages it asked for; every earlier answer was a 403 or a page with a successor under the limit, and the last page reached the limit or had no successor; a rejected fetch stopped at its first non-403 error; a pending one used every answer |
| Paging.FetchBoundedPrefix | repos/index.js:50-57 | a fetch never returns more than `limit` items, and they are a prefix of the items of the pages in the order they were answered (a page answered twice counts twice) |
| Paging.ThreePagesOfTen | repos/index.js:50-59 | three pages of ten with a limit of 25 give the first 25 items after three requests; the fourth page is never requested |
| Paging.RateLimitedThenPage | repos/index.js:38-43 | a 403 on the first request costs one request and changes nothing else; the request sent again then settles the fetch |
| Paging.RetryRestartsFromFirstPage | repos/index.js:38-43 | as written, a 403 on the request for the second page sends the original request again: the first page comes back and its items are collected twice |
| Paging.RetrySamePageExample | repos/index.js:38-59 | retrying the failed page instead, the same schedule collects each page once |
| Paging.RetrySamePageNoDuplicates | repos/index.js:38-59 | retrying the failed page, whatever the rate limits, a resolved fetch returns at most `limit` items, a prefix of the pages' items in page order |
| Paging.JoinAllMeans | repos/index.js:286 | `Promise.all` resolves exactly when every fetch resolved, with their items in group order; it rejects exactly when some fetch rejected, with that fetch's code |
| Paging.FetchAll | repos/index.js:283-286 | running one fetch per group and joining them gives JoinAll of the groups' outcomes |
| Chunking.JsArray.SpliceFront | repos/index.js:71 | `splice(0, count)` returns the first clamped-count elements and leaves the rest in the array |
| Chunking.Chunk | repos/index.js:65-74 | a negative size fails with `Invalid size` and leaves the array alone; otherwise the groups are the consecutive runs of `size` and the caller's array is left empty |
| Chunking.ChunksFlatten | repos/index.js:70-72 | the groups concatenated give the input back |
| Chunking.ChunksSizes | repos/index.js:71 | every group is non-empty with at most `size` elements, and all but the last have exactly `size` |
| Chunking.Mess | repos/index.js:283 | the shuffle keeps the number of users |
| Chunking.MessPermutes | repos/index.js:283 | the shuffle is a permutation of its input |
| Ranking.SortDescCorrect | repos/index.js:157-159 | the sort gives a newest-first permutation of its input |
| Ranking.DedupByOwner | repos/index.js:183-186 | the counting filter keeps exactly the first entry of each owner whose login is not an Object.prototype member; for such a login `1 + owners[login]` is a string and never equals 1, so all its entries go |
| Ranking.DedupByOwnerFlag | repos/github.js:149-156 | the marking filter keeps exactly the first entry of each owner, except that an owner named after an Object.prototype member loses its first entry, whose `++` turns the method into NaN, and keeps its second |
| Ranking.OwnersOfPlain | repos/index.js:183-186 | leaving out the entries of inherited owners removes exactly those names from the set of owners |
| Ranking.DropFirstShape | repos/github.js:149-156 | the entries left after the inherited owners lose their first are drawn from the input, and every entry of any other owner is left |
| Ranking.DropFirstSorted | repos/github.js:146-156 | dropping those entries keeps a newest-first order |
| Ranking.KeepFirstShape | repos/index.js:183-186 | the kept entries are a sub-multiset of the input with distinct owners and the same set of owners |
| Ranking.KeepFirstExactly | repos/index.js:183-186 | an entry is kept exactly when it is the first of its owner |
| Ranking.KeepFirstSorted | repos/index.js:182-186 | the owner filter keeps a newest-first order |
| Ranking.FirstIsNewest | repos/index.js:182-186 | in a newest-first list an owner's first entry is that owner's newest |
| Ranking.RankedShape | repos/index.js:182-187 | for any newest-first order: distinct owners, newest first, at most `max`, all from the input, each its owner's first, and every owner kept while there is room |
| Ranking.DistinctOwnersCount | repos/index.js:183-186 | with distinct owners there are as many owners as entries |
| Ranking.RankCountedShape | repos/index.js:182-187 | the ranking of repos/index.js: distinct owners, newest first, at most `max`, drawn from the input, no owner named after an Object.prototype member, each entry its owner's newest, and with room for every owner exactly the owners whose names are not inherited |
| Ranking.RankFlaggedShape | repos/github.js:146-157 | the ranking of repos/github.js: distinct owners, newest first, at most `max`, drawn from the input; an entry of an owner without an inherited name is its owner's newest, and with room every such owner is present |
| Aggregation.AddReposAndOwners | repos/index.js:175-188 | the chain `concat`, `filter`, `map`, `sort`, owner filter, `slice` computes Aggregated |
| Aggregation.CandidatesFromResults | repos/index.js:178-181 | every candidate is the projection of a search result that has a language |
| Aggregation.AggregatedShape | repos/index.js:175-188 | the feed has distinct owners and is newest first, with at most `maxRepos` entries; each entry has a language, is projected from a result, has an owner login that is not an Object.prototype member, and is its owner's newest among results with a language; with room for all, exactly the owners with a language and a plain login are present |
| Aggregation.AggregatedOfNothing | repos/index.js:180 | results without any language give an empty feed |
| Aggregation.NegativeMaxReposKeepsEntries | repos/index.js:187 | with a `maxRepos` of -1 the feed is the newest-first, one-per-owner list without its last entry |
| Aggregation.DedupScenario | repos/index.js:182-187 | owner a pushed on days 3 and 1 and owner b on day 2: the feed is a(3), b(2) |
| Aggregation.InheritedOwnerScenario | repos/index.js:183-186 | owner `constructor` pushed on days 3 and 2 and owner a on day 1: the feed is a(1) alone |
| Enrichment.AddContributors | repos/index.js:161-173 | one summary per contributor, in order, with its login, URL and contribution count |
| Enrichment.AnnotateOutcome | repos/index.js:195-211 | only `contributors` changes and it always ends as a list: when the reply has contributors, one summary per contributor in reply order with its login, URL and contribution count; otherwise empty, overwriting the "too large" note |
| Enrichment.AddContributorsToRepos | repos/index.js:190-217 | each repository is annotated in place by its own reply; the join settles only when every repository has a reply |
| Aggregation.LanguageFilterExact | repos/index.js:153-155 | a search result's projection is a candidate exactly when the result has a non-empty language |
| Records.GetRepoObject | repos/index.js:119-140 | the projection keeps the push time, the owner's login, avatar and type, and the language, so it has a language exactly when the result passes the language filter; contributors are not yet annotated |
| Queries.UserSearchQuery | repos/index.js:80-84 | a location without `+` gives a query that is a single search term: splitting it at `+` gives it back whole |
| Queries.OrgSearchQuery | repos/index.js:86-90 | the organisation query is `type:org`, a `+`, and the user query |
| Queries.OrgQueryTerms | repos/index.js:80-90 | the organisation query is the user query's single term preceded by `type:org` |
| Queries.SearchReposOptions | repos/index.js:92-110 | sorted by update time, descending; the query starts with the star limit, `fork:true` and the pushed date, joined by `+` |
| Queries.SearchReposOptionsTerms | repos/index.js:92-110 | sorted by update time, descending; the query's terms are the three base terms and then `user:"login"` for exactly the users whose login has no double quote, in order |
| Queries.UserTermInjective | repos/index.js:106 | different logins give different user terms |
| Queries.GroupSearchArgsTerms | repos/github.js:114-121 | a group's query is the shared base terms followed by one term for exactly its members with a non-empty login; sort and order are copied |
| Feed.SameDayWindow | repos/index.js:221 | zero whole days apart means pushed strictly less than 24 hours before or after the generation time |
| Feed.CurrentDayData | repos/index.js:219-223 | the day view is no longer than the feed and holds exactly the feed's repositories zero whole days from the generation time (or from now when that is missing) |
| Feed.CurrentDayDataExact | repos/index.js:219-223 | the day view is the subsequence of the feed at the positions whose push time is within 24 hours of the generation time: positions strictly increasing, each element the feed's at its position, every such position present |
| Feed.CurrentHourData | repos/index.js:232-236 | the hour view is no longer than the feed and holds exactly the feed's repositories pushed strictly after an hour ago |
| Feed.RefreshTotals | repos/index.js:142-151 | after a refresh the three snapshots share the feed's generation time and location, each reports its own number of repositories as its total, the feed carries the configured limits, and the day and hour snapshots keep their previous ones |
| Feed.CurrentHourDataExact | repos/index.js:232-236 | the hour view is the subsequence of the feed at the positions pushed strictly after an hour ago, in feed order, every such position present |
| Feed.RefreshedFeedShape | repos/index.js:269-305 | a refreshed feed has distinct owners and is newest first, with at most `maxRepos` entries, each with a language and a contributor list |
| Feed.ReposFeed.constructor | repos/index.js:10-21 | the three snapshots start with empty metadata and no repositories |
| Feed.ReposFeed.AddDayData | repos/index.js:225-230 | the day snapshot takes the feed's generation time and location, the day view, and its length as total; other metadata stays; the store invariant (a well-formed feed, and every set total equal to its snapshot's length) is kept |
| Feed.ReposFeed.AddHourData | repos/index.js:238-243 | the same for the hour snapshot and the hour view |
| Feed.ReposFeed.ReplaceFeed | repos/index.js:298-304 | given a well-formed list, the feed is replaced whole with fresh metadata, then both views are recomputed, and the store invariant holds |
| Feed.ReposFeed.Get | repos/index.js:316-328 | the answer is a prefix of the feed of length min(count, feed length), stamped now, with the city and API version; `total_repos` is `count` itself |
| Feed.GetOverstatesTotal | repos/index.js:322-324 | when the feed is shorter than `count`, `total_repos` is more than the repositories returned |
| Feed.ReposFeed.Update | repos/index.js:269-309 | one refresh gives RefreshSpec and sends one query per group; a refresh replaces feed, day and hour; a failed or unsettled one leaves all three unchanged; the well-formed-feed invariant is kept |
| GithubProvider.FetchReposForUsers | repos/github.js:111-125 | one search per group of twenty shuffled users, each with its group's arguments, joined by `Promise.all`; each group's arguments differ from the shared ones only in `q` |
| Queries.GroupSearchArgs | repos/github.js:115-121 | the clone differs from the shared arguments only in `q`, which becomes a joined string; the shared arguments are not changed |
| GithubProvider.GroupsPartitionUsers | repos/github.js:113 | the groups hold every user as often as it occurs, at most twenty per group |
| GithubProvider.FilterRepoResults | repos/github.js:127-158 | with `Repo` exported: anything but an array gives `[]`; an array is sorted newest first, passed through the per-owner marks, and truncated to `maxRepos` |
| GithubProvider.FilterRepoResultsShape | repos/github.js:146-157 | distinct owners, newest first, at most `maxRepos`, all from the input; a repository of an owner without an inherited name is its owner's newest, and no such owner is lost while there is room; repositories without a language are kept |
| GithubProvider.InheritedOwnerFilter | repos/github.js:149-156 | owner `constructor` pushed on days 3 and 2 and owner a on day 1: the filter keeps `constructor`(2) and a(1) |
| GithubProvider.FilterRepoResultsAsWritten | repos/github.js:127-145 | as written: `[]` exactly for a non-array or an empty array; any other array throws `Repo is not a constructor` |
| GithubProvider.FilterRepoResultsAsWrittenThrows | repos/github.js:133 | one repository: the written filter throws, while with `Repo` exported the filter returns that repository |
| GithubProvider.UpdateAsWrittenNeverFulfils | repos/github.js:161-175 | as written, `update` never fulfils with a list |
| GithubProvider.UpdateAsWrittenExample | repos/github.js:133-164 | one group with one repository: the written chain throws `Repo is not a constructor`, the intended one lists that repository |
| GithubProvider.Update | repos/github.js:161-175 | with the results flattened: a failed user search is logged, otherwise the filtered results of the per-group searches |
| GithubProvider.UpdateFulfilledShape | repos/github.js:161-171 | a fulfilled update lists at most `maxRepos` repositories with distinct owners, newest first, all from the searches |
| RepoRecord.IsValidUrlMeansShape | Repo.js:31-34 | the URL check, run on UTF-16 code units, accepts exactly a non-empty `http`, `https` or `ftp` URL whose `://` is followed by a character that is not whitespace or one of `/ $ . ? #` and then by a character that is not a line terminator; a character above U+FFFF is two code units and fills both places alone |
| RepoRecord.IsValidUrlExtends | Repo.js:32 | the pattern is anchored only at the start: anything may follow a valid URL |
| RepoRecord.UrlExamples | Repo.js:31-34 | accepted: a plain host, a host with a space, and a host that is a single character above U+FFFF |
| RepoRecord.UrlCounterExamples | Repo.js:31-34 | rejected: the empty string, a one-character host up to U+FFFF, a host starting with `.`, and a single slash after the scheme |
| RepoRecord.IsValidAsWrittenNeverTruthy | Repo.js:16-29 | as written `is_valid` is never truthy; it throws exactly when the conjuncts before `stars` hold, so for every intended-valid record |
| RepoRecord.SampleValidDiscrepancy | Repo.js:23 | a record the intended check accepts and on which the written check throws |
| RepoRecord.IsValidFieldsMeans | Repo.js:16-29 | an intended-valid record has positive stars, a past `last_updated` and three well-formed URLs |
| RepoRecord.UnsetLastUpdatedNeverValid | Repo.js:1-14 | nothing sets `last_updated`, so a fresh record, or one filled from a search result, fails even the intended check |
| RepoRecord.HttpsUrl | Repo.js:32 | any `https://` URL whose first host character may start a host and whose second is not a line terminator is valid |
| RepoRecord.Repo.constructor | Repo.js:1-14 | empty strings, zero stars, both dates and `last_updated` unset |
| RepoRecord.Repo.CopyFrom | repos/github.js:133-143 | the fields are copied from a search result; `last_updated` is untouched |
| RepoRecord.Repo.IsValid | Repo.js:16-29 | never truthy; throws exactly when the conjuncts before `stars` hold |
| ProviderMerge.IsSameEquivalence | index.js:13-17 | being the same repository is reflexive, symmetric and transitive, and depends only on name, description and language |
| ProviderMerge.Merge | index.js:29-38 | stored repositories stay, in place, at the front; at most one entry per delivered item is appended |
| ProviderMerge.MergeAddsOnlyAccepted | index.js:30-35 | every appended entry comes from a valid `Repo` in the batch |
| ProviderMerge.MergeNoSamePair | index.js:31-35 | no two stored repositories share name, description and language, before and after a merge |
| ProviderMerge.MergeCovers | index.js:29-38 | after a merge every valid delivered repository has a same one in the store |
| ProviderMerge.MergeStable | index.js:31-35 | a batch whose valid items all have same ones stored changes nothing |
| ProviderMerge.MergeIdempotent | index.js:29-38 | delivering the same batch twice stores it once |
| ProviderMerge.MergedRepos.constructor | index.js:3-8 | an empty store stamped with the load time and a total of 0 |
| ProviderMerge.MergedRepos.AddToRepos | index.js:19-42 | an error or an empty delivery changes nothing; otherwise the store is Merge of the old one and the batch, restamped with its new total; no two same repositories are ever stored |
| ProviderMerge.AddToReposAsWrittenNeverMerges | index.js:25 | as written a call without an error throws, even for a batch with one valid new repository that the intended guard would store |

## Left out

- The GitHub client: construction, OAuth authentication, `hasNextPage` and
  `getNextPage` are replaced by the answers they produce.
- The 60-second wait before a retry after a 403. The model counts requests,
  not time, and makes no claim that a rate-limited fetch ever ends.
- Concurrency. `Promise.all` is modelled as a join of fetches run one after
  another. When several fetches reject, the lowest-numbered group's code is
  taken as the first.
- The cache files: reading a saved feed at start-up (`repos/index.js:253-267`,
  `repos/github.js:35-51`) and writing it after a refresh. A loaded cache is
  not checked against the feed invariant.
- Logging with `console` and `cli-color`, and the log line at `repos/github.js:166` itself beyond the error it raises.
- `moment`: date formatting, `formatted_time` (`repos/index.js:126`), and the
  three-months-ago query date, which is a parameter. `toISOString` stamps are
  the integer `now`. Time zones and daylight-saving shifts in `diff` are not modelled.
- `JSON.parse` of a contributors error (`repos/index.js:197`) is the reply's
  parsed message. A reply that is not JSON, which throws inside the callback
  and leaves the join unsettled, is not modelled.
- `mess` is an external package. Its shuffle is modelled as a permutation
  driven by the `picks` parameter.
- `parseInt(count)` in `get` is taken as an already-parsed natural number.
- NaN stars, and missing or `null` owners and logins. Owner logins that are
  Object.prototype members are modelled; other inherited properties
  (`__proto__`, `__defineGetter__` and the like) are not.
- Lone surrogates: a Dafny `char` is a Unicode scalar value, so a string with
  an unpaired surrogate code unit cannot be written down.
- The order of equal push times under a comparator that never returns 0: in
  `repos/github.js` the entry an inherited-name owner keeps is its second
  newest in the one sort order modelled.
- Chunking.Chunk: requires a non-zero size for a non-empty array. The source loops forever in that case.
- `fetch` and `chunk` in `repos/github.js:63-103` are the same as in `repos/index.js` and are modelled once.
- ProviderMerge.MergeAddsOnlyAccepted: does not state that appended entries keep the batch's order; Merge appends one item at a time, in order, by definition.
- The provider wiring of `index.js:45-53` and `index.js:59-63` (loading
  `./repos/<name>` and calling `update` on each provider) is not modelled.
  The same goes for `.then(addToRepos)`, which passes a provider's result as
  `err`, and for `Repo`, which `index.js:30` uses without importing it.
- Aliasing: `index.js` stores references to the delivered `Repo` objects.
  The model stores their fields as values.
- In `repos/github.js:132-145` a `Repo` would be filled from each result and
  then discarded (`return repo`), so the raw results flow on. `Repo.js`
  assigns no `module.exports`, so as written `new Repo()` throws (see
  Findings). `GithubProvider.FilterRepoResults` models the filter with the
  export in place, and `Repo.CopyFrom` models the copy on its own.
- `list()` in `repos/github.js:176-178` returns the module's `reposResult`.
  `update` never assigns it, and the cache load is not modelled.
- The comparator `sortByPushedAt` never returns 0, so the order of equal push
  times is unspecified. The sort is modelled as one newest-first insertion
  sort, and the ranking properties are proved for every newest-first order.
- The day view compares whole 24-hour differences (`diff(..., 'days') === 0`
  at `repos/index.js:221`), not calendar days, and `slice(0, maxRepos)` with
  a negative `maxRepos` drops only the last entries
  (`repos/index.js:187`).

## Findings

| source | as written | input that shows it | evidently intended | confidence | as-written member | corrected member |
|---|---|---|---|---|---|---|
| Repo.js:23 | `!this.stars.isNaN()` calls a method numbers do not have | any record whose URL, name, description and `last_updated` pass, e.g. the sample with 42 stars | `!isNaN(this.stars)` | high, not executed | RepoRecord.IsValidAsWrittenNeverTruthy | RepoRecord.IsValidFieldsMeans |
| index.js:25 | the guard reads `data`, which is never declared, so it throws a ReferenceError | `addToRepos(null, [validRepo])` | return early when `newRepos` is missing or empty | high, not executed | ProviderMerge.AddToReposAsWrittenNeverMerges | ProviderMerge.MergedRepos.AddToRepos |
| repos/github.js:164 | `Promise.all` yields one array per group and `filterRepoResults` receives them unflattened; the first group array reaches `new Repo()` and throws, and with no groups line 166 reads the undeclared `repos` | one user whose search finds one repository | flatten the groups first and log `reposResult.length` | high, not executed | GithubProvider.UpdateAsWrittenExample | GithubProvider.Update |
| repos/github.js:133 | `new Repo()`, but `Repo.js` assigns no `module.exports`, so `require('../Repo')` is an empty object and the call throws a TypeError | any array with one search result | `module.exports = Repo` in `Repo.js` | high, not executed | GithubProvider.FilterRepoResultsAsWrittenThrows | GithubProvider.FilterRepoResults |
| repos/index.js:42 | after a 403 the retry calls `method(args, recv)` with the original arguments, so a rate limit on a later page starts again from the first page and its items are pushed again | pages a and b with the request for b rate limited: the items are a, a, b | retry the request that failed | medium, not executed | Paging.RetryRestartsFromFirstPage | Paging.RetrySamePageNoDuplicates |
