/**
 * The repository search query built for a group of users: three fixed
 * terms (minimum stars, forks included, pushed after a date) followed by one
 * `user:"login"` term per user, joined with `+`.  repos/index.js drops
 * logins containing a double quote; repos/github.js drops empty logins and
 * builds each group's query from a copy of shared search arguments.  The
 * date (three months before now) is a parameter.
 */
module Queries {
  import opened JsSeq
  import opened Records

  const Separator := '+'

  /** The double quote character (code point 34). */
  const DoubleQuote: char := 34 as char
  const SortUpdated := "updated"
  const OrderDesc := "desc"

  function BaseTerms(starLimit: string, pushedDate: string): seq<string>
  {
    ["stars:>=" + starLimit, "fork:true", "pushed:>" + pushedDate]
  }

  function UserTerm(login: string): string
  {
    "user:" + [DoubleQuote] + login + [DoubleQuote]
  }

  function UserTerms(users: seq<User>): (terms: seq<string>)
    ensures |terms| == |users|
  {
    seq(|users|, i requires 0 <= i < |users| => UserTerm(users[i].login))
  }

  // ---------------------------------------------------------------------
  // repos/index.js

  /** The `q` of `searchUserOptions`. */
  function UserSearchQuery(location: string): (q: string)
    ensures |q| == 9 + |location| && q[..9] == "location:" && q[9..] == location
    ensures Separator !in location ==> Split(q, Separator) == [q]
  {
    var q := "location:" + location;
    if Separator !in location then
      assert Separator !in q by {
        forall i | 0 <= i < |q| ensures q[i] != Separator {
          if i >= 9 {
            assert q[i] == location[i - 9];
          }
        }
      }
      SplitNoSeparator(q, "", Separator);
      assert q + "" == q;
      q
    else q
  }

  /** The `q` of `searchOrgOptions`: organisations in the same location. */
  function OrgSearchQuery(location: string): (q: string)
    ensures q == "type:org" + [Separator] + UserSearchQuery(location)
  {
    "type:org+location:" + location
  }

  /**
   * The organisation query is the user query with one more term in front,
   * `type:org`, when the location holds no separator.
   */
  lemma OrgQueryTerms(location: string)
    requires Separator !in location
    ensures Split(UserSearchQuery(location), Separator) == [UserSearchQuery(location)]
    ensures Split(OrgSearchQuery(location), Separator) == ["type:org", UserSearchQuery(location)]
  {
    var user := UserSearchQuery(location);
    forall i | 0 <= i < |user| ensures user[i] != Separator {
      if i >= 9 {
        assert user[i] == location[i - 9];
      }
    }
    assert Join(["type:org", user], Separator) == OrgSearchQuery(location);
    assert Join([user], Separator) == user;
    SplitJoin(["type:org", user], Separator);
    SplitJoin([user], Separator);
  }

  datatype SearchOptions = SearchOptions(sort: string, order: string, q: string)

  /** The quote guard of `searchReposOptions`. */
  predicate NoQuote(u: User)
  {
    DoubleQuote !in u.login
  }

  /** `searchReposOptions(config, users)` */
  function SearchReposOptions(starLimit: string, pushedDate: string, users: seq<User>): (r: SearchOptions)
    ensures r.sort == "updated" && r.order == "desc"
    ensures "stars:>=" + starLimit + "+fork:true+pushed:>" + pushedDate <= r.q
  {
    var terms := UserTerms(Filter(users, NoQuote));
    BaseTermsLead(BaseTerms(starLimit, pushedDate), terms);
    SearchOptions(SortUpdated, OrderDesc, Join(BaseTerms(starLimit, pushedDate) + terms, Separator))
  }

  /** Joining three leading terms and any others starts with the three joined. */
  lemma BaseTermsLead(base: seq<string>, more: seq<string>)
    requires |base| == 3
    ensures base[0] + [Separator] + base[1] + [Separator] + base[2] <= Join(base + more, Separator)
  {
    var parts := base + more;
    assert parts[1..] == [base[1], base[2]] + more;
    assert parts[1..][1..] == [base[2]] + more;
    var last := Join([base[2]] + more, Separator);
    assert base[2] <= last;
    assert Join(parts, Separator) == base[0] + [Separator] + (base[1] + [Separator] + last);
  }

  /** No term of the query holds the separator, so splitting the query gives the terms back. */
  lemma SplitTerms(base: seq<string>, users: seq<User>)
    requires |base| >= 1
    requires forall i :: 0 <= i < |base| ==> Separator !in base[i]
    requires forall u :: u in users ==> Separator !in u.login
    ensures Split(Join(base + UserTerms(users), Separator), Separator) == base + UserTerms(users)
  {
    var terms := base + UserTerms(users);
    forall i | 0 <= i < |terms| ensures Separator !in terms[i] {
      if i >= |base| {
        var u := users[i - |base|];
        assert u in users;
        assert terms[i] == UserTerm(u.login);
        UserTermNoSeparator(u.login);
      }
    }
    SplitJoin(terms, Separator);
  }

  /**
   * The query's terms are the three base terms, then `user:"login"` for
   * exactly the users whose login has no double quote, in input order
   * (read back by splitting at `+`, when no term contains one); sorting is
   * by update time, descending.
   */
  lemma SearchReposOptionsTerms(starLimit: string, pushedDate: string, users: seq<User>)
    requires Separator !in starLimit && Separator !in pushedDate
    requires forall u :: u in users ==> Separator !in u.login
    ensures var opts := SearchReposOptions(starLimit, pushedDate, users);
      && opts.sort == "updated" && opts.order == "desc"
      && Split(opts.q, Separator) == BaseTerms(starLimit, pushedDate) + UserTerms(Filter(users, NoQuote))
      && (forall u :: u in users ==> (UserTerm(u.login) in Split(opts.q, Separator)[3..] <==> NoQuote(u)))
  {
    var kept := Filter(users, NoQuote);
    FilterMembers(users, NoQuote);
    SplitTerms(BaseTerms(starLimit, pushedDate), kept);
    var terms := BaseTerms(starLimit, pushedDate) + UserTerms(kept);
    assert terms[3..] == UserTerms(kept);
    forall u | u in users
      ensures UserTerm(u.login) in UserTerms(kept) <==> NoQuote(u)
    {
      if UserTerm(u.login) in UserTerms(kept) {
        var i :| 0 <= i < |kept| && UserTerms(kept)[i] == UserTerm(u.login);
        UserTermInjective(kept[i].login, u.login);
        assert kept[i] in kept;
      }
      if NoQuote(u) {
        var i :| 0 <= i < |kept| && kept[i] == u;
        assert UserTerms(kept)[i] == UserTerm(u.login);
      }
    }
  }

  lemma UserTermNoSeparator(login: string)
    requires Separator !in login
    ensures Separator !in UserTerm(login)
  {
    var t := UserTerm(login);
    forall i | 0 <= i < |t| ensures t[i] != Separator {
      if 6 <= i < 6 + |login| {
        assert t[i] == login[i - 6];
      }
    }
  }

  lemma UserTermInjective(a: string, b: string)
    requires UserTerm(a) == UserTerm(b)
    ensures a == b
  {
    assert a == UserTerm(a)[6..|UserTerm(a)| - 1];
    assert b == UserTerm(b)[6..|UserTerm(b)| - 1];
  }

  // ---------------------------------------------------------------------
  // repos/github.js

  /** The `q` field: an array of terms in the shared arguments, a joined string in a group's copy. */
  datatype Query = Terms(terms: seq<string>) | Text(text: string)

  datatype SearchArgs = SearchArgs(sort: string, order: string, q: Query)

  /** `repoSearchArgs`, built once in `init`. */
  function RepoSearchArgs(starLimit: string, pushedDate: string): SearchArgs
  {
    SearchArgs(SortUpdated, OrderDesc, Terms(BaseTerms(starLimit, pushedDate)))
  }

  /** The login filter of `fetchReposForUsers`: a truthy login. */
  predicate HasLogin(u: User)
  {
    u.login != ""
  }

  /** The clone of the shared arguments for one group, its `q` replaced by the joined terms. */
  function GroupSearchArgs(shared: SearchArgs, group: seq<User>): (args: SearchArgs)
    requires shared.q.Terms?
    ensures args.(q := shared.q) == shared && args.q.Text?
  {
    shared.(q := Text(Join(shared.q.terms + UserTerms(Filter(group, HasLogin)), Separator)))
  }

  /**
   * A group's query is the shared base terms followed by `user:"login"` for
   * exactly its members with a non-empty login, in order; nothing from
   * another group enters it, and sort and order are copied.
   */
  lemma GroupSearchArgsTerms(starLimit: string, pushedDate: string, group: seq<User>)
    requires Separator !in starLimit && Separator !in pushedDate
    requires forall u :: u in group ==> Separator !in u.login
    ensures var args := GroupSearchArgs(RepoSearchArgs(starLimit, pushedDate), group);
      && args.sort == "updated" && args.order == "desc" && args.q.Text?
      && Split(args.q.text, Separator) == BaseTerms(starLimit, pushedDate) + UserTerms(Filter(group, HasLogin))
  {
    var kept := Filter(group, HasLogin);
    FilterMembers(group, HasLogin);
    SplitTerms(BaseTerms(starLimit, pushedDate), kept);
  }
}
