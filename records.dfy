/**
 * The records the pipeline passes around: repositories and users as the
 * search API returns them, and the projected repository object
 * (`getRepoObject` in repos/index.js) that the feed holds.  Timestamps are
 * milliseconds since the epoch; a JavaScript `null`/`undefined` is `None`.
 */
module Records {
  import opened Wrappers

  datatype User = User(login: string)

  datatype RawOwner = RawOwner(login: string, avatarUrl: string, htmlUrl: string, ownerType: string)

  datatype RawRepo = RawRepo(
    name: string,
    htmlUrl: string,
    description: Option<string>,
    pushedAt: int,
    updatedAt: int,
    language: Option<string>,
    stargazersCount: int,
    forksCount: int,
    openIssuesCount: int,
    size: int,
    subscribersCount: int,
    owner: RawOwner)

  datatype OwnerSummary = OwnerSummary(login: string, avatarUrl: string, htmlUrl: string)

  datatype Contributor = Contributor(login: string, htmlUrl: string, contributions: int)

  /** The `contributors` field: absent until enrichment, then a note or a list. */
  datatype ContributorsField = NotAnnotated | Note(message: string) | Listed(contributors: seq<Contributor>)

  datatype RepoObject = RepoObject(
    name: string,
    htmlUrl: string,
    description: Option<string>,
    pushedAt: int,
    updatedAt: int,
    language: Option<string>,
    stargazersCount: int,
    forksCount: int,
    openIssuesCount: int,
    size: int,
    subscribersCount: int,
    ownerType: string,
    owner: OwnerSummary,
    contributors: ContributorsField)

  /** JavaScript truthiness of a possibly absent string. */
  predicate Truthy(s: Option<string>)
  {
    s.Some? && s.value != ""
  }

  /** `hasValidLanguage` */
  predicate HasValidLanguage(repo: RawRepo): (b: bool)
    ensures b <==> repo.language.Some? && |repo.language.value| > 0
  {
    Truthy(repo.language)
  }

  /** `getRepoObject`: the fields the feed keeps, the owner reduced to a summary. */
  function GetRepoObject(repo: RawRepo): (r: RepoObject)
    ensures PushedAt(r) == RawPushedAt(repo) && OwnerLogin(r) == RawOwnerLogin(repo)
    ensures r.language == repo.language && (HasValidLanguage(repo) <==> Truthy(r.language))
    ensures r.owner.avatarUrl == repo.owner.avatarUrl && r.ownerType == repo.owner.ownerType
    ensures r.contributors == NotAnnotated
  {
    RepoObject(
      repo.name, repo.htmlUrl, repo.description, repo.pushedAt, repo.updatedAt, repo.language,
      repo.stargazersCount, repo.forksCount, repo.openIssuesCount, repo.size, repo.subscribersCount,
      repo.owner.ownerType,
      OwnerSummary(repo.owner.login, repo.owner.avatarUrl, repo.owner.htmlUrl),
      NotAnnotated)
  }

  function PushedAt(r: RepoObject): int { r.pushedAt }

  function OwnerLogin(r: RepoObject): string { r.owner.login }

  function RawPushedAt(r: RawRepo): int { r.pushedAt }

  function RawOwnerLogin(r: RawRepo): string { r.owner.login }
}
