/**
 * Repo.js: the provider-neutral repository record, its URL check (the
 * regular expression `^(https?|ftp)://[^\s/$.?#].[^\s]*`, simulated
 * character by character) and `is_valid`, as written and as intended.
 * The current time is the `now` parameter (milliseconds).
 */
module RepoRecord {
  import opened Wrappers
  import opened Records

  // ---------------------------------------------------------------------
  // The URL pattern.  A JavaScript string is a sequence of UTF-16 code
  // units, and a regular expression without the `u` flag matches code units:
  // a character above U+FFFF is two of them, a surrogate pair.

  /** The UTF-16 code units of one character. */
  function Units(c: char): (u: seq<int>)
    ensures |u| == (if c as int < 0x10000 then 1 else 2)
  {
    var n := c as int;
    if n < 0x10000 then [n] else [0xD800 + (n - 0x10000) / 0x400, 0xDC00 + (n - 0x10000) % 0x400]
  }

  /** The string as JavaScript holds it. */
  function Utf16(s: string): seq<int>
  {
    if s == [] then [] else Units(s[0]) + Utf16(s[1..])
  }

  /** The code units of a string without characters above U+FFFF, one per character. */
  function Codes(s: string): seq<int>
  {
    seq(|s|, i requires 0 <= i < |s| => s[i] as int)
  }

  /** `\s` in a JavaScript regular expression, on one code unit. */
  predicate IsJsWhitespace(u: int)
  {
    (9 <= u <= 13) || u == 0x20 || u == 0xA0 || u == 0x1680 || (0x2000 <= u <= 0x200A)
    || u == 0x2028 || u == 0x2029 || u == 0x202F || u == 0x205F || u == 0x3000 || u == 0xFEFF
  }

  /** The code units `.` does not match: line feed, carriage return, line and paragraph separators. */
  predicate IsLineTerminator(u: int)
  {
    u == 10 || u == 13 || u == 0x2028 || u == 0x2029
  }

  /** `[^\s/$.?#]`: the first code unit after `://`. */
  predicate IsHostStart(u: int)
  {
    !IsJsWhitespace(u) && u != '/' as int && u != '$' as int && u != '.' as int && u != '?' as int && u != '#' as int
  }

  /** What must follow a scheme that ends at unit `k`: `://`, a host start, one more unit. */
  predicate MatchesAfterScheme(u: seq<int>, k: nat)
  {
    k + 5 <= |u| && u[k..k + 3] == Codes("://") && IsHostStart(u[k + 3]) && !IsLineTerminator(u[k + 4])
  }

  /** `urlRegex.test(url)` on code units: anchored at the start; `https?` tries `https` before `http`. */
  predicate UrlRegexTest(u: seq<int>)
  {
    || (|u| >= 5 && u[..5] == Codes("https") && MatchesAfterScheme(u, 5))
    || (|u| >= 4 && u[..4] == Codes("http") && MatchesAfterScheme(u, 4))
    || (|u| >= 3 && u[..3] == Codes("ftp") && MatchesAfterScheme(u, 3))
  }

  /** `isValidURL(url)`: a non-empty string the pattern accepts. */
  predicate IsValidUrl(url: string)
  {
    url != "" && UrlRegexTest(Utf16(url))
  }

  const Schemes: set<string> := {"http", "https", "ftp"}

  /** A character above U+FFFF: a surrogate pair in JavaScript. */
  predicate IsAstral(c: char)
  {
    c as int >= 0x10000
  }

  /**
   * The pattern read on characters: a known scheme, `://`, and a host-start
   * character; unless that character is a surrogate pair, which fills both
   * places the pattern checks, one more character that is not a line
   * terminator.  The rest is free.
   */
  ghost predicate UrlShape(url: string)
  {
    exists scheme, h, rest :: scheme in Schemes && url == scheme + "://" + [h] + rest
      && IsHostStart(h as int) && (IsAstral(h) || (rest != [] && !IsLineTerminator(rest[0] as int)))
  }

  /** The URL check on code units accepts exactly the URLs of that shape. */
  lemma IsValidUrlMeansShape(url: string)
    ensures IsValidUrl(url) <==> UrlShape(url)
  {
    if IsValidUrl(url) {
      var u := Utf16(url);
      var k: nat := if |u| >= 5 && u[..5] == Codes("https") && MatchesAfterScheme(u, 5) then 5
        else if |u| >= 4 && u[..4] == Codes("http") && MatchesAfterScheme(u, 4) then 4 else 3;
      var scheme := if k == 5 then "https" else if k == 4 then "http" else "ftp";
      MatchShape(url, scheme);
    }
    if UrlShape(url) {
      var scheme, h, rest :| scheme in Schemes && url == scheme + "://" + [h] + rest
        && IsHostStart(h as int) && (IsAstral(h) || (rest != [] && !IsLineTerminator(rest[0] as int)));
      ShapeMatches(scheme, h, rest);
    }
  }

  lemma {:induction false} Utf16Append(a: string, b: string)
    ensures Utf16(a + b) == Utf16(a) + Utf16(b)
    decreases |a|
  {
    if a != [] {
      Utf16Append(a[1..], b);
      assert (a + b)[0] == a[0] && (a + b)[1..] == a[1..] + b;
    } else {
      assert a + b == b;
    }
  }

  /** Characters up to U+FFFF are one code unit each. */
  lemma {:induction false} Utf16Codes(s: string)
    requires forall i :: 0 <= i < |s| ==> s[i] as int < 0x10000
    ensures Utf16(s) == Codes(s)
    decreases |s|
  {
    if s != [] {
      Utf16Codes(s[1..]);
    }
  }

  /** A surrogate pair: a high unit then a low one, neither a space, a delimiter or a line terminator. */
  lemma AstralUnits(c: char)
    requires IsAstral(c)
    ensures 0xD800 <= Units(c)[0] < 0xDC00 <= Units(c)[1] < 0xE000
    ensures IsHostStart(c as int) && IsHostStart(Units(c)[0]) && !IsLineTerminator(Units(c)[1])
  {
  }

  /** The first unit of a non-empty string is not a line terminator when its first character is not one. */
  lemma FirstUnit(s: string)
    requires s != []
    ensures Utf16(s) != [] && Utf16(s)[0] == Units(s[0])[0]
    ensures !IsLineTerminator(s[0] as int) ==> !IsLineTerminator(Utf16(s)[0])
  {
  }

  /** The schemes and `://` are ASCII. */
  lemma SchemeCodes(scheme: string)
    requires scheme in Schemes
    ensures Utf16(scheme + "://") == Codes(scheme) + Codes("://")
  {
    Utf16Append(scheme, "://");
    assert Utf16("://") == Codes("://");
    if scheme == "http" {
      assert Utf16("http") == Codes("http");
    } else if scheme == "https" {
      assert Utf16("https") == Codes("https");
    } else {
      assert Utf16("ftp") == Codes("ftp");
    }
  }

  /** A URL of the shape passes the check with its own scheme (`https` is tried before `http`, on the same string). */
  lemma ShapeMatches(scheme: string, h: char, rest: string)
    requires scheme in Schemes
    requires IsHostStart(h as int) && (IsAstral(h) || (rest != [] && !IsLineTerminator(rest[0] as int)))
    ensures IsValidUrl(scheme + "://" + [h] + rest)
  {
    var k := |scheme|;
    var url := scheme + "://" + [h] + rest;
    var u := Utf16(url);
    Utf16Append(scheme + "://" + [h], rest);
    Utf16Append(scheme + "://", [h]);
    SchemeCodes(scheme);
    assert [h][1..] == [];
    var head := Codes(scheme) + Codes("://");
    assert u == head + Units(h) + Utf16(rest);
    assert u[..k] == Codes(scheme) && u[k..k + 3] == Codes("://");
    if IsAstral(h) {
      AstralUnits(h);
      assert u[k + 3] == Units(h)[0] && u[k + 4] == Units(h)[1];
    } else {
      FirstUnit(rest);
      assert u[k + 3] == h as int && u[k + 4] == Utf16(rest)[0];
    }
    assert MatchesAfterScheme(u, k);
  }

  /**
   * Code units below the surrogates at the start of a string are its first
   * characters, one each.
   */
  lemma {:induction false} Utf16Prefix(s: string, n: nat)
    requires n <= |Utf16(s)| && forall i :: 0 <= i < n ==> Utf16(s)[i] < 0xD800
    ensures n <= |s| && Utf16(s[n..]) == Utf16(s)[n..]
    ensures forall i :: 0 <= i < n ==> s[i] as int == Utf16(s)[i]
    decreases n
  {
    if n > 0 {
      assert s != [];
      var u := Utf16(s);
      assert u[0] == Units(s[0])[0];
      if IsAstral(s[0]) {
        AstralUnits(s[0]);
        assert false;
      }
      assert u == [s[0] as int] + Utf16(s[1..]);
      assert forall i :: 0 <= i < n - 1 ==> Utf16(s[1..])[i] == u[i + 1];
      Utf16Prefix(s[1..], n - 1);
      assert s[1..][n - 1..] == s[n..];
    }
  }

  lemma SchemeAscii(scheme: string)
    requires scheme in Schemes
    ensures forall i :: 0 <= i < |scheme| ==> scheme[i] as int < 128
  {
    if scheme == "http" {
      assert scheme == ['h', 't', 't', 'p'];
    } else if scheme == "https" {
      assert scheme == ['h', 't', 't', 'p', 's'];
    } else {
      assert scheme == ['f', 't', 'p'];
    }
  }

  /** A string that passes the check with a given scheme starts with that scheme and `://`, one character each. */
  lemma MatchPrefix(url: string, scheme: string)
    requires scheme in Schemes
    requires var u, k := Utf16(url), |scheme|;
      |u| >= k + 3 && u[..k] == Codes(scheme) && u[k..k + 3] == Codes("://")
    ensures var k := |scheme|;
      k + 3 <= |url| && url[..k] == scheme && url[k..k + 3] == "://" && Utf16(url[k + 3..]) == Utf16(url)[k + 3..]
  {
    var u, k := Utf16(url), |scheme|;
    SchemeAscii(scheme);
    forall i | 0 <= i < k + 3
      ensures u[i] < 0xD800
      ensures i < k ==> u[i] == scheme[i] as int
      ensures k <= i ==> u[i] == "://"[i - k] as int
    {
      if i < k {
        assert u[i] == u[..k][i] == Codes(scheme)[i];
      } else {
        assert u[i] == u[k..k + 3][i - k] == Codes("://")[i - k];
      }
    }
    Utf16Prefix(url, k + 3);
    assert url[..k] == scheme by {
      forall i | 0 <= i < k ensures url[..k][i] == scheme[i] {
        assert url[i] as int == u[i];
      }
    }
    assert url[k..k + 3] == "://" by {
      forall i | 0 <= i < 3 ensures url[k..k + 3][i] == "://"[i] {
        assert url[k + i] as int == u[k + i];
      }
    }
  }

  /** A string that passes the check with a given scheme has the shape. */
  lemma MatchShape(url: string, scheme: string)
    requires scheme in Schemes
    requires var u, k := Utf16(url), |scheme|;
      |u| >= k && u[..k] == Codes(scheme) && MatchesAfterScheme(u, k)
    ensures UrlShape(url)
  {
    var u, k := Utf16(url), |scheme|;
    MatchPrefix(url, scheme);
    var tail := url[k + 3..];
    assert Utf16(tail) == u[k + 3..];
    var h := tail[0];
    var rest := tail[1..];
    assert url == url[..k] + url[k..k + 3] + tail;
    assert url == scheme + "://" + [h] + rest;
    assert Utf16(tail) == Units(h) + Utf16(rest);
    if IsAstral(h) {
      AstralUnits(h);
    } else {
      assert u[k + 3] == h as int;
      assert rest != [];
      FirstUnit(rest);
      assert !IsLineTerminator(rest[0] as int);
    }
  }

  /** The pattern is not anchored at the end: anything may follow a valid URL. */
  lemma IsValidUrlExtends(url: string, suffix: string)
    requires IsValidUrl(url)
    ensures IsValidUrl(url + suffix)
  {
    var u := Utf16(url);
    var longer := Utf16(url + suffix);
    Utf16Append(url, suffix);
    var k: nat := if |u| >= 5 && u[..5] == Codes("https") && MatchesAfterScheme(u, 5) then 5
      else if |u| >= 4 && u[..4] == Codes("http") && MatchesAfterScheme(u, 4) then 4 else 3;
    assert longer[..k] == u[..k] && longer[k..k + 3] == u[k..k + 3];
    assert MatchesAfterScheme(longer, k);
  }

  /** A URL none of whose characters is above U+FFFF is checked on its characters' codes. */
  lemma BmpUrl(url: string)
    requires forall i :: 0 <= i < |url| ==> url[i] as int < 0x10000
    ensures IsValidUrl(url) <==> url != "" && UrlRegexTest(Codes(url))
  {
    Utf16Codes(url);
  }

  /** Accepted: a host, a host with a space in it, and a host that is one character above U+FFFF. */
  lemma UrlExamples()
    ensures IsValidUrl("https://" + "webuild.sg")
    ensures IsValidUrl("ftp://" + "a b")
    ensures IsValidUrl("http://" + [0x1F600 as char])
  {
    ShapeMatches("https", 'w', "ebuild.sg");
    assert "https" + "://" + ['w'] + "ebuild.sg" == "https://" + "webuild.sg";
    ShapeMatches("ftp", 'a', " b");
    assert "ftp" + "://" + ['a'] + " b" == "ftp://" + "a b";
    ShapeMatches("http", 0x1F600 as char, []);
    assert "http" + "://" + [0x1F600 as char] + [] == "http://" + [0x1F600 as char];
  }

  /** Rejected: a host of one character up to U+FFFF, with nothing after it. */
  lemma OneUnitHostRejected()
    ensures !IsValidUrl("http://x")
  {
    Utf16Append("http", "://x");
    var u := Utf16("http://x");
    assert u == Codes("http://x");
    assert |u| == 8 && u[4] == ':' as int && u[0] == 'h' as int;
  }

  /** Rejected: a host that starts with `.`. */
  lemma DotHostRejected()
    ensures !IsValidUrl("https://.sg")
  {
    Utf16Append("https", "://.sg");
    var u := Utf16("https://.sg");
    assert u == Codes("https://.sg");
    assert u[0] == 'h' as int && u[4] == 's' as int && u[8] == '.' as int;
  }

  /** Rejected: a single slash after the scheme. */
  lemma SingleSlashRejected()
    ensures !IsValidUrl("ftp:/a")
  {
    var u := Utf16("ftp:/a");
    assert u == Codes("ftp:/a");
    assert u[0] == 'f' as int && u[5] == 'a' as int;
  }

  /** Rejected: the empty string, a host of one character up to U+FFFF, a host starting with `.`, a single slash. */
  lemma UrlCounterExamples()
    ensures !IsValidUrl("")
    ensures !IsValidUrl("http://x")
    ensures !IsValidUrl("https://.sg")
    ensures !IsValidUrl("ftp:/a")
  {
    OneUnitHostRejected();
    DotHostRejected();
    SingleSlashRejected();
  }

  // ---------------------------------------------------------------------
  // The record

  datatype RepoOwner = RepoOwner(uid: string, avatarUrl: string, profileUrl: string)

  /** The fields of a `Repo`; a property never assigned (or `null`) is `None`. */
  datatype RepoFields = RepoFields(
    url: string,
    name: string,
    description: Option<string>,
    updatedAt: Option<int>,
    pushedAt: Option<int>,
    stars: int,
    language: Option<string>,
    owner: RepoOwner,
    lastUpdated: Option<int>)

  /** What `is_valid` evaluates to: a falsy value, a truthy one (Passes), or a thrown TypeError. */
  datatype Validity = Falsy | Passes | Throws

  /** The conjuncts of `is_valid` before the `stars` test. */
  predicate ValidPrefix(f: RepoFields, now: int)
  {
    IsValidUrl(f.url) && f.name != "" && Truthy(f.description)
    && f.lastUpdated.Some? && f.lastUpdated.value < now
  }

  /**
   * `is_valid` as written: `this.stars.isNaN()` calls a method numbers do
   * not have, so once the earlier conjuncts hold the call throws.
   */
  function IsValidAsWritten(f: RepoFields, now: int): (v: Validity)
  {
    if !ValidPrefix(f, now) then Falsy else Throws
  }

  /** `is_valid` as intended, with `!isNaN(this.stars)` (always true for the integers modelled). */
  predicate IsValidFields(f: RepoFields, now: int)
  {
    && ValidPrefix(f, now)
    && f.stars > 0
    && Truthy(f.language)
    && f.owner.uid != ""
    && IsValidUrl(f.owner.avatarUrl)
    && IsValidUrl(f.owner.profileUrl)
  }

  /** As written, no record is ever valid: `is_valid` is falsy or throws, and throws for every intended-valid record. */
  lemma IsValidAsWrittenNeverTruthy(f: RepoFields, now: int)
    ensures IsValidAsWritten(f, now) != Passes
    ensures IsValidAsWritten(f, now) == Throws <==> ValidPrefix(f, now)
    ensures IsValidFields(f, now) ==> IsValidAsWritten(f, now) == Throws
  {
  }

  /** Any `https://` URL whose host starts well is valid. */
  lemma HttpsUrl(host: string)
    requires |host| >= 2 && IsHostStart(host[0] as int) && !IsLineTerminator(host[1] as int)
    ensures IsValidUrl("https://" + host)
  {
    ShapeMatches("https", host[0], host[1..]);
    assert "https" + "://" + [host[0]] + host[1..] == "https://" + host;
  }


  const SampleOwner := RepoOwner("webuildsg", "https://" + "avatars", "https://" + "github")

  function SampleValid(): RepoFields
  {
    RepoFields("https://" + "github", "webuild", Some("events and groups"), Some(5), Some(5),
      42, Some("JavaScript"), SampleOwner, Some(5))
  }

  /** A record the intended check accepts, on which the written check throws. */
  lemma SampleValidDiscrepancy()
    ensures IsValidFields(SampleValid(), 10)
    ensures IsValidAsWritten(SampleValid(), 10) == Throws
  {
    HttpsUrl("github");
    HttpsUrl("avatars");
  }

  /** A record the intended check accepts has positive stars, a language, an owner and three valid URLs. */
  lemma IsValidFieldsMeans(f: RepoFields, now: int)
    requires IsValidFields(f, now)
    ensures f.stars > 0 && f.lastUpdated.Some? && f.lastUpdated.value < now
    ensures UrlShape(f.url) && UrlShape(f.owner.avatarUrl) && UrlShape(f.owner.profileUrl)
  {
    IsValidUrlMeansShape(f.url);
    IsValidUrlMeansShape(f.owner.avatarUrl);
    IsValidUrlMeansShape(f.owner.profileUrl);
  }

  /** `new Repo()`: empty strings, no stars, the two dates and `last_updated` unset. */
  function FreshFields(): RepoFields
  {
    RepoFields("", "", Some(""), None, None, 0, Some(""), RepoOwner("", "", ""), None)
  }

  /** The copy `filterRepoResults` makes of one search result (github.js); `last_updated` stays unset. */
  function CopiedFields(raw: RawRepo): RepoFields
  {
    RepoFields(raw.htmlUrl, raw.name, raw.description, Some(raw.updatedAt), Some(raw.pushedAt),
      raw.stargazersCount, raw.language, RepoOwner(raw.owner.login, raw.owner.avatarUrl, raw.owner.htmlUrl), None)
  }

  /** Nothing sets `last_updated`: a fresh record, or one filled from a search result, fails even the intended check. */
  lemma UnsetLastUpdatedNeverValid(raw: RawRepo, now: int)
    ensures !IsValidFields(FreshFields(), now) && IsValidAsWritten(FreshFields(), now) == Falsy
    ensures !IsValidFields(CopiedFields(raw), now) && IsValidAsWritten(CopiedFields(raw), now) == Falsy
  {
  }

  class Repo {
    var url: string
    var name: string
    var description: Option<string>
    var updatedAt: Option<int>
    var pushedAt: Option<int>
    var stars: int
    var language: Option<string>
    var owner: RepoOwner
    var lastUpdated: Option<int>

    function Fields(): RepoFields
      reads this
    {
      RepoFields(url, name, description, updatedAt, pushedAt, stars, language, owner, lastUpdated)
    }

    constructor ()
      ensures Fields() == FreshFields()
    {
      url := "";
      name := "";
      description := Some("");
      stars := 0;
      language := Some("");
      owner := RepoOwner("", "", "");
      updatedAt := None;
      pushedAt := None;
      lastUpdated := None;
    }

    /** The field assignments of `filterRepoResults` (github.js) on a fresh `Repo`. */
    method CopyFrom(raw: RawRepo)
      modifies this
      ensures Fields() == CopiedFields(raw).(lastUpdated := old(lastUpdated))
    {
      url := raw.htmlUrl;
      name := raw.name;
      description := raw.description;
      pushedAt := Some(raw.pushedAt);
      updatedAt := Some(raw.updatedAt);
      stars := raw.stargazersCount;
      language := raw.language;
      owner := owner.(uid := raw.owner.login);
      owner := owner.(avatarUrl := raw.owner.avatarUrl);
      owner := owner.(profileUrl := raw.owner.htmlUrl);
    }

    /** `is_valid()` as written: never truthy; it throws exactly when the conjuncts before `stars` hold. */
    function IsValid(now: int): (v: Validity)
      reads this
      ensures v != Passes
      ensures v == Throws <==> ValidPrefix(Fields(), now)
    {
      IsValidAsWritten(Fields(), now)
    }
  }
}
