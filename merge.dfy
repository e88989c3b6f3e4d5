/**
 * index.js: the store that merges what the repository providers deliver.
 * `addToRepos(err, newRepos)` appends each valid `Repo` that has no
 * counterpart with the same name, description and language, then stamps
 * the metadata.  The current time is the `now` parameter.
 */
module ProviderMerge {
  import opened Wrappers
  import opened JsSeq
  import opened RepoRecord

  /** `isSame(repo1, repo2)` */
  predicate IsSame(a: RepoFields, b: RepoFields)
  {
    a.name == b.name && a.description == b.description && a.language == b.language
  }

  /** Being the same repository is an equivalence that looks only at name, description and language. */
  lemma IsSameEquivalence(a: RepoFields, b: RepoFields, c: RepoFields)
    ensures IsSame(a, a)
    ensures IsSame(a, b) ==> IsSame(b, a)
    ensures IsSame(a, b) && IsSame(b, c) ==> IsSame(a, c)
    ensures IsSame(a, b) <==> IsSame(a.(url := c.url, stars := c.stars, updatedAt := c.updatedAt, pushedAt := c.pushedAt, owner := c.owner), b)
  {
  }

  /** One element of `newRepos`: a `Repo` instance, or anything else. */
  datatype Item = RepoInstance(fields: RepoFields) | NotARepo

  /** `thisRepo instanceof Repo && thisRepo.is_valid()`, with the intended `is_valid`. */
  predicate Accepts(item: Item, now: int)
  {
    item.RepoInstance? && IsValidFields(item.fields, now)
  }

  predicate HasSame(repos: seq<RepoFields>, f: RepoFields)
  {
    exists r :: r in repos && IsSame(r, f)
  }

  predicate NoSamePair(repos: seq<RepoFields>)
  {
    forall i, j :: 0 <= i < j < |repos| ==> !IsSame(repos[i], repos[j])
  }

  /** The store after the `forEach` over `items`, one element at a time. */
  function Merge(existing: seq<RepoFields>, items: seq<Item>, now: int): (r: seq<RepoFields>)
    ensures existing <= r && |r| <= |existing| + |items|
    decreases |items|
  {
    if items == [] then existing
    else
      var before := Merge(existing, items[..|items| - 1], now);
      var item := items[|items| - 1];
      if Accepts(item, now) && !HasSame(before, item.fields) then before + [item.fields] else before
  }

  /** Every appended entry is the fields of an accepted item. */
  lemma {:induction false} MergeAddsOnlyAccepted(existing: seq<RepoFields>, items: seq<Item>, now: int)
    ensures var merged := Merge(existing, items, now);
      |existing| <= |merged| &&
      forall k :: |existing| <= k < |merged| ==> exists item :: item in items && Accepts(item, now) && item.fields == merged[k]
    decreases |items|
  {
    if items != [] {
      var init := items[..|items| - 1];
      MergeAddsOnlyAccepted(existing, init, now);
      var merged := Merge(existing, items, now);
      forall k | |existing| <= k < |merged|
        ensures exists item :: item in items && Accepts(item, now) && item.fields == merged[k]
      {
        var before := Merge(existing, init, now);
        if k < |before| {
          var item :| item in init && Accepts(item, now) && item.fields == before[k];
          assert item in items;
        } else {
          assert items[|items| - 1] in items;
        }
      }
    }
  }

  /** A store without two same repositories keeps that property. */
  lemma {:induction false} MergeNoSamePair(existing: seq<RepoFields>, items: seq<Item>, now: int)
    requires NoSamePair(existing)
    ensures NoSamePair(Merge(existing, items, now))
    decreases |items|
  {
    if items != [] {
      var init := items[..|items| - 1];
      MergeNoSamePair(existing, init, now);
      var before := Merge(existing, init, now);
      var item := items[|items| - 1];
      if Accepts(item, now) && !HasSame(before, item.fields) {
        var merged := before + [item.fields];
        forall i, j | 0 <= i < j < |merged| ensures !IsSame(merged[i], merged[j]) {
          if j == |before| {
            assert merged[i] in before;
          }
        }
      }
    }
  }

  /** After the merge every accepted item has a same repository in the store. */
  lemma {:induction false} MergeCovers(existing: seq<RepoFields>, items: seq<Item>, now: int)
    ensures forall item :: item in items && Accepts(item, now) ==> HasSame(Merge(existing, items, now), item.fields)
    decreases |items|
  {
    if items != [] {
      var init := items[..|items| - 1];
      MergeCovers(existing, init, now);
      var before := Merge(existing, init, now);
      var merged := Merge(existing, items, now);
      assert before <= merged;
      forall item | item in items && Accepts(item, now) ensures HasSame(merged, item.fields) {
        if item in init {
          var r :| r in before && IsSame(r, item.fields);
          assert r in merged;
        } else {
          assert item == items[|items| - 1];
          if !HasSame(before, item.fields) {
            assert merged[|merged| - 1] == item.fields;
            assert IsSame(item.fields, item.fields);
          }
          else {
            var r :| r in before && IsSame(r, item.fields);
            assert r in merged;
          }
        }
      }
    }
  }

  /** A batch whose accepted items all have counterparts already changes nothing. */
  lemma {:induction false} MergeStable(existing: seq<RepoFields>, items: seq<Item>, now: int)
    requires forall item :: item in items && Accepts(item, now) ==> HasSame(existing, item.fields)
    ensures Merge(existing, items, now) == existing
    decreases |items|
  {
    if items != [] {
      var init := items[..|items| - 1];
      assert forall item :: item in init ==> item in items;
      MergeStable(existing, init, now);
      assert items[|items| - 1] in items;
    }
  }

  /** Delivering the same batch twice stores it once. */
  lemma MergeIdempotent(existing: seq<RepoFields>, items: seq<Item>, now: int)
    ensures Merge(Merge(existing, items, now), items, now) == Merge(existing, items, now)
  {
    MergeCovers(existing, items, now);
    MergeStable(Merge(existing, items, now), items, now);
  }

  datatype MergeMeta = MergeMeta(generatedAt: int, totalRepos: int)

  /** What the module holds: `repos` and `meta`, shared with every caller of `init`. */
  class MergedRepos {
    var repos: seq<RepoFields>
    var meta: MergeMeta

    ghost predicate Valid()
      reads this
    {
      NoSamePair(repos) && meta.totalRepos == |repos|
    }

    constructor (now: int)
      ensures repos == [] && meta == MergeMeta(now, 0) && Valid()
    {
      repos := [];
      meta := MergeMeta(now, 0);
    }

    /**
     * `addToRepos(err, newRepos)` with the emptiness guard on `newRepos`:
     * an error, or nothing delivered, leaves the store and its metadata as
     * they were; otherwise the valid new repositories are merged and the
     * metadata restamped.  `Some(e)` stands for a truthy `err` (an Error
     * object); a falsy one (`null`, `undefined`, `""`) is `None`.
     */
    method AddToRepos(err: Option<string>, newRepos: Option<seq<Item>>, now: int)
      requires Valid()
      modifies this
      ensures Valid()
      ensures err.Some? || newRepos.None? || newRepos.value == [] ==> repos == old(repos) && meta == old(meta)
      ensures err.None? && newRepos.Some? && newRepos.value != [] ==>
        repos == Merge(old(repos), newRepos.value, now) && meta == MergeMeta(now, |repos|)
    {
      if err.Some? {
        return;
      }
      if newRepos.None? || |newRepos.value| == 0 {
        return;
      }
      var items := newRepos.value;
      for i := 0 to |items|
        invariant repos == Merge(old(repos), items[..i], now)
        invariant NoSamePair(repos)
      {
        assert items[..i + 1][..i] == items[..i];
        var item := items[i];
        if item.RepoInstance? && IsValidFields(item.fields, now) {
          var dup := Filter(repos, r => IsSame(r, item.fields));
          FilterMembers(repos, r => IsSame(r, item.fields));
          if |dup| == 0 {
            assert !HasSame(repos, item.fields) by {
              forall r | r in repos ensures !IsSame(r, item.fields) {
                assert r !in dup;
              }
            }
            MergeNoSamePair(old(repos), items[..i + 1], now);
            repos := repos + [item.fields];
          } else {
            assert dup[0] in dup;
          }
        }
      }
      assert items[..|items|] == items;
      meta := MergeMeta(now, |repos|);
    }
  }

  // ---------------------------------------------------------------------
  // `addToRepos` as written

  datatype Effect = Returned | Threw(message: string)

  const ReferenceErrorData := "ReferenceError: data is not defined"

  /** As written the guard reads the undeclared `data`, so every call without an error throws. */
  function AddToReposAsWritten(err: Option<string>, newRepos: Option<seq<Item>>): (e: Effect)
  {
    if err.Some? then Returned else Threw(ReferenceErrorData)
  }

  /** As written, no delivery is ever merged: even a batch of valid new repositories throws before the loop. */
  lemma AddToReposAsWrittenNeverMerges(fields: RepoFields, now: int)
    requires IsValidFields(fields, now)
    ensures AddToReposAsWritten(None, Some([RepoInstance(fields)])) == Threw(ReferenceErrorData)
    ensures Merge([], [RepoInstance(fields)], now) == [fields]
  {
    assert [RepoInstance(fields)][..0] == [];
  }
}
