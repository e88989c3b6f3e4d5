/**
 * The ranking steps shared by `addReposAndOwners` (repos/index.js) and
 * `filterRepoResults` (repos/github.js): sort by push time, newest first;
 * keep one repository per owner, tracking owners in a dictionary (each file
 * in its own way); truncate with `slice(0, max)`.  Generic in the record
 * type, with the sort key and the owner as parameters.
 */
module Ranking {
  import opened JsSeq

  /** Sorted newest first: every element's key is at least that of every later one. */
  predicate NonIncreasing<T>(s: seq<T>, key: T -> int)
  {
    forall i, j :: 0 <= i < j < |s| ==> key(s[i]) >= key(s[j])
  }

  // ---------------------------------------------------------------------
  // The sort.  The source's comparator never answers "equal", so only its
  // outcome (a non-increasing permutation) is relied on below.

  function Insert<T>(x: T, s: seq<T>, key: T -> int): seq<T>
  {
    if s == [] then [x]
    else if key(s[0]) <= key(x) then [x] + s
    else [s[0]] + Insert(x, s[1..], key)
  }

  function SortDesc<T>(s: seq<T>, key: T -> int): seq<T>
  {
    if s == [] then [] else Insert(s[0], SortDesc(s[1..], key), key)
  }

  lemma {:induction false} InsertPermutes<T>(x: T, s: seq<T>, key: T -> int)
    ensures multiset(Insert(x, s, key)) == multiset{x} + multiset(s)
  {
    if s != [] && key(s[0]) > key(x) {
      InsertPermutes(x, s[1..], key);
      assert s == [s[0]] + s[1..];
    }
  }

  lemma {:induction false} InsertSorted<T>(x: T, s: seq<T>, key: T -> int)
    requires NonIncreasing(s, key)
    ensures NonIncreasing(Insert(x, s, key), key)
  {
    if s != [] && key(s[0]) > key(x) {
      InsertSorted(x, s[1..], key);
      InsertPermutes(x, s[1..], key);
      var r := Insert(x, s, key);
      var tail := Insert(x, s[1..], key);
      assert r == [s[0]] + tail;
      forall j | 1 <= j < |r|
        ensures key(r[0]) >= key(r[j])
      {
        assert r[j] == tail[j - 1];
        assert r[j] in multiset(tail);
        assert r[j] == x || r[j] in s[1..];
      }
    }
  }

  /** The sort returns a non-increasing permutation of its input. */
  lemma {:induction false} SortDescCorrect<T>(s: seq<T>, key: T -> int)
    ensures NonIncreasing(SortDesc(s, key), key)
    ensures multiset(SortDesc(s, key)) == multiset(s)
  {
    if s != [] {
      SortDescCorrect(s[1..], key);
      InsertSorted(s[0], SortDesc(s[1..], key), key);
      InsertPermutes(s[0], SortDesc(s[1..], key), key);
      assert s == [s[0]] + s[1..];
    }
  }

  // ---------------------------------------------------------------------
  // Keeping the first repository of each owner

  function OwnersOf<T>(s: seq<T>, owner: T -> string): set<string>
  {
    set i | 0 <= i < |s| :: owner(s[i])
  }

  /** The entry at `j` is the first one of its owner. */
  predicate FirstOfOwner<T>(s: seq<T>, j: nat, owner: T -> string)
    requires j < |s|
  {
    forall k :: 0 <= k < j ==> owner(s[k]) != owner(s[j])
  }

  predicate DistinctOwners<T>(s: seq<T>, owner: T -> string)
  {
    forall i, j :: 0 <= i < j < |s| ==> owner(s[i]) != owner(s[j])
  }

  /** The first entry of each owner, in input order. */
  function KeepFirstPerOwner<T>(s: seq<T>, owner: T -> string): seq<T>
  {
    if s == [] then []
    else
      var init := s[..|s| - 1];
      var kept := KeepFirstPerOwner(init, owner);
      if owner(s[|s| - 1]) in OwnersOf(init, owner) then kept else kept + [s[|s| - 1]]
  }

  // ---------------------------------------------------------------------
  // The per-owner dictionaries are plain objects `{}`, so a login that names
  // a method of Object.prototype finds that method before anything is stored.

  /** The members of Object.prototype whose names a GitHub login can spell (letters, digits, hyphens). */
  const InheritedKeys: set<string> :=
    {"constructor", "hasOwnProperty", "isPrototypeOf", "propertyIsEnumerable", "toLocaleString", "toString", "valueOf"}

  /** The entry's owner is not one of the inherited names. */
  function PlainOwner<T>(owner: T -> string): T -> bool
  {
    x => owner(x) !in InheritedKeys
  }

  /**
   * A value of `owners` in repos/index.js: a count, or the string that
   * `1 + owners[login]` yields once the lookup has found an inherited method
   * (`1 +` a string is again a string).
   */
  datatype Tally = Count(n: nat) | Text

  /** `1 + (owners[login] || 0)` */
  function NextTally(owners: map<string, Tally>, login: string): Tally
  {
    if login in owners then
      match owners[login]
      case Count(n) => Count(n + 1)
      case Text => Text
    else if login in InheritedKeys then Text
    else Count(1)
  }

  /**
   * What the counting filter of repos/index.js keeps: the first entry of each
   * owner whose name is not inherited; an inherited name never counts 1.
   */
  function KeepFirstCounted<T>(s: seq<T>, owner: T -> string): seq<T>
  {
    KeepFirstPerOwner(Filter(s, PlainOwner(owner)), owner)
  }

  /** The `filter` over the `owners` dictionary: an entry passes when its owner's tally is the number 1. */
  method DedupByOwner<T>(s: seq<T>, owner: T -> string) returns (kept: seq<T>)
    ensures kept == KeepFirstCounted(s, owner)
  {
    var owners: map<string, Tally> := map[];
    kept := [];
    var i := 0;
    while i < |s|
      invariant i <= |s|
      invariant owners.Keys == OwnersOf(s[..i], owner)
      invariant forall o :: o in owners ==> (owners[o].Text? <==> o in InheritedKeys)
      invariant forall o :: o in owners && owners[o].Count? ==> owners[o].n >= 1
      invariant kept == KeepFirstCounted(s[..i], owner)
    {
      var o := owner(s[i]);
      owners := owners[o := NextTally(owners, o)];
      assert s[..i + 1] == s[..i] + [s[i]];
      OwnersOfSnoc(s[..i], s[i], owner);
      KeepFirstCountedSnoc(s[..i], s[i], owner);
      if owners[o] == Count(1) {
        kept := kept + [s[i]];
      }
      i := i + 1;
    }
    assert s[..i] == s;
  }

  /** Leaving out inherited owners removes exactly their names from the owners. */
  lemma OwnersOfPlain<T>(s: seq<T>, owner: T -> string)
    ensures OwnersOf(Filter(s, PlainOwner(owner)), owner) == OwnersOf(s, owner) - InheritedKeys
  {
    var f := Filter(s, PlainOwner(owner));
    FilterMembers(s, PlainOwner(owner));
    forall o | o in OwnersOf(f, owner) ensures o in OwnersOf(s, owner) - InheritedKeys {
      var i :| 0 <= i < |f| && owner(f[i]) == o;
      assert f[i] in f;
      var j :| 0 <= j < |s| && s[j] == f[i];
    }
    forall o | o in OwnersOf(s, owner) - InheritedKeys ensures o in OwnersOf(f, owner) {
      var j :| 0 <= j < |s| && owner(s[j]) == o;
      assert s[j] in f;
      var i :| 0 <= i < |f| && f[i] == s[j];
    }
  }

  lemma KeepFirstCountedSnoc<T>(t: seq<T>, x: T, owner: T -> string)
    ensures KeepFirstCounted(t + [x], owner) ==
      KeepFirstCounted(t, owner) + (if owner(x) !in InheritedKeys && owner(x) !in OwnersOf(t, owner) then [x] else [])
  {
    var p := PlainOwner(owner);
    FilterAppend(t, [x], p);
    assert [x][1..] == [];
    var f := Filter(t, p);
    if p(x) {
      assert (f + [x])[..|f|] == f;
      OwnersOfPlain(t, owner);
    } else {
      assert f + [] == f;
    }
  }

  /**
   * A value of `reposPerOwner` in repos/github.js: a count, or the NaN that
   * `++` leaves after the lookup found an inherited method.
   */
  datatype Mark = Seen(n: nat) | NaN

  /** `!reposPerOwner[login]`: nothing stored and nothing inherited, NaN, or 0. */
  predicate Unmarked(perOwner: map<string, Mark>, login: string)
  {
    if login in perOwner then perOwner[login] == NaN || perOwner[login] == Seen(0)
    else login !in InheritedKeys
  }

  /** `reposPerOwner[login]++` on a marked login: a count goes up, a method or NaN gives NaN. */
  function Incremented(perOwner: map<string, Mark>, login: string): Mark
  {
    if login in perOwner && perOwner[login].Seen? then Seen(perOwner[login].n + 1) else NaN
  }

  /** The entries without the first one of each owner whose name is inherited. */
  function DropFirstInherited<T>(s: seq<T>, owner: T -> string): seq<T>
  {
    if s == [] then []
    else
      var init, last := s[..|s| - 1], s[|s| - 1];
      if owner(last) in InheritedKeys && owner(last) !in OwnersOf(init, owner) then DropFirstInherited(init, owner)
      else DropFirstInherited(init, owner) + [last]
  }

  /**
   * What the filter of repos/github.js keeps: the first entry of each owner,
   * except that for an inherited name the first entry only turns the method
   * into NaN, and it is the second entry that passes.
   */
  function KeepFirstFlagged<T>(s: seq<T>, owner: T -> string): seq<T>
  {
    KeepFirstPerOwner(DropFirstInherited(s, owner), owner)
  }

  /** The `filter` over `reposPerOwner`: an unmarked owner is marked 1 and passes, a marked one is incremented. */
  method DedupByOwnerFlag<T>(s: seq<T>, owner: T -> string) returns (kept: seq<T>)
    ensures kept == KeepFirstFlagged(s, owner)
  {
    var perOwner: map<string, Mark> := map[];
    kept := [];
    var i := 0;
    while i < |s|
      invariant i <= |s|
      invariant MarksOf(perOwner, s[..i], owner)
      invariant kept == KeepFirstFlagged(s[..i], owner)
    {
      var o := owner(s[i]);
      assert s[..i + 1] == s[..i] + [s[i]];
      MarkStep(perOwner, s[..i], s[i], owner);
      if Unmarked(perOwner, o) {
        perOwner := perOwner[o := Seen(1)];
        kept := kept + [s[i]];
      } else {
        perOwner := perOwner[o := Incremented(perOwner, o)];
      }
      i := i + 1;
    }
    assert s[..i] == s;
  }

  /**
   * `reposPerOwner` after the entries `t`: a key per owner seen; NaN exactly
   * for an inherited name whose first entry was dropped and no other kept;
   * otherwise a positive count.
   */
  predicate MarksOf<T>(perOwner: map<string, Mark>, t: seq<T>, owner: T -> string)
  {
    && perOwner.Keys == OwnersOf(t, owner)
    && (forall o :: o in perOwner ==>
          (perOwner[o].NaN? <==> o in InheritedKeys && o !in OwnersOf(DropFirstInherited(t, owner), owner)))
    && (forall o :: o in perOwner && perOwner[o].Seen? ==> perOwner[o].n >= 1)
  }

  /** One step of the marking filter: the entry passes exactly when KeepFirstFlagged takes it, and the marks stay in step. */
  lemma MarkStep<T>(perOwner: map<string, Mark>, t: seq<T>, x: T, owner: T -> string)
    requires MarksOf(perOwner, t, owner)
    ensures var o := owner(x);
      var next := if Unmarked(perOwner, o) then perOwner[o := Seen(1)] else perOwner[o := Incremented(perOwner, o)];
      && MarksOf(next, t + [x], owner)
      && KeepFirstFlagged(t + [x], owner) == KeepFirstFlagged(t, owner) + (if Unmarked(perOwner, o) then [x] else [])
  {
    OwnersOfSnoc(t, x, owner);
    DropFirstSnoc(t, x, owner);
  }

  lemma DropFirstSnoc<T>(t: seq<T>, x: T, owner: T -> string)
    ensures var dropped := owner(x) in InheritedKeys && owner(x) !in OwnersOf(t, owner);
      && DropFirstInherited(t + [x], owner) == DropFirstInherited(t, owner) + (if dropped then [] else [x])
      && KeepFirstFlagged(t + [x], owner) == KeepFirstFlagged(t, owner) +
           (if !dropped && owner(x) !in OwnersOf(DropFirstInherited(t, owner), owner) then [x] else [])
      && OwnersOf(DropFirstInherited(t, owner), owner) <= OwnersOf(t, owner)
      && OwnersOf(t, owner) - InheritedKeys <= OwnersOf(DropFirstInherited(t, owner), owner)
  {
    var d := DropFirstInherited(t, owner);
    assert (t + [x])[..|t|] == t;
    assert (d + [x])[..|d|] == d;
    assert d + [] == d;
    DropFirstShape(t, owner);
    OwnersOfMembers(d, t, owner);
    forall o | o in OwnersOf(t, owner) - InheritedKeys ensures o in OwnersOf(d, owner) {
      var j :| 0 <= j < |t| && owner(t[j]) == o;
      assert t[j] in d;
      var k :| 0 <= k < |d| && d[k] == t[j];
    }
  }

  /** Only the first entry of an inherited owner is dropped: what remains comes from the input, and every entry of an other owner remains. */
  lemma {:induction false} DropFirstShape<T>(s: seq<T>, owner: T -> string)
    ensures multiset(DropFirstInherited(s, owner)) <= multiset(s)
    ensures forall i :: 0 <= i < |s| && owner(s[i]) !in InheritedKeys ==> s[i] in DropFirstInherited(s, owner)
    decreases |s|
  {
    if s != [] {
      var init, last := s[..|s| - 1], s[|s| - 1];
      DropFirstShape(init, owner);
      SplitLast(s);
      forall i | 0 <= i < |s| && owner(s[i]) !in InheritedKeys ensures s[i] in DropFirstInherited(s, owner) {
        if i < |init| {
          assert s[i] == init[i];
        }
      }
    }
  }

  /** Dropping entries keeps the newest-first order. */
  lemma {:induction false} DropFirstSorted<T>(s: seq<T>, owner: T -> string, key: T -> int)
    requires NonIncreasing(s, key)
    ensures NonIncreasing(DropFirstInherited(s, owner), key)
    decreases |s|
  {
    if s != [] {
      var init, last := s[..|s| - 1], s[|s| - 1];
      var d := DropFirstInherited(init, owner);
      DropFirstSorted(init, owner, key);
      DropFirstShape(init, owner);
      var r := d + [last];
      if DropFirstInherited(s, owner) == r {
        forall i, j | 0 <= i < j < |r| ensures key(r[i]) >= key(r[j]) {
          if j == |d| {
            assert r[i] in multiset(d);
            var k :| 0 <= k < |init| && init[k] == r[i];
            assert s[k] == r[i];
          }
        }
      }
    }
  }

  /** Filtering keeps the newest-first order. */
  lemma FilterSorted<T>(s: seq<T>, p: T -> bool, key: T -> int)
    requires NonIncreasing(s, key)
    ensures NonIncreasing(Filter(s, p), key)
  {
    FilterPositions(s, p);
  }

  /** Owners of a sequence drawn from another are owners of that other one. */
  lemma OwnersOfMembers<T>(a: seq<T>, b: seq<T>, owner: T -> string)
    requires multiset(a) <= multiset(b)
    ensures OwnersOf(a, owner) <= OwnersOf(b, owner)
  {
    forall o | o in OwnersOf(a, owner) ensures o in OwnersOf(b, owner) {
      var i :| 0 <= i < |a| && owner(a[i]) == o;
      assert a[i] in multiset(b);
      var j :| 0 <= j < |b| && b[j] == a[i];
    }
  }

  lemma OwnersOfSnoc<T>(s: seq<T>, x: T, owner: T -> string)
    ensures OwnersOf(s + [x], owner) == OwnersOf(s, owner) + {owner(x)}
  {
    var t := s + [x];
    forall o | o in OwnersOf(t, owner) ensures o in OwnersOf(s, owner) + {owner(x)} {
      var i :| 0 <= i < |t| && owner(t[i]) == o;
      if i < |s| { assert t[i] == s[i]; }
    }
    forall o | o in OwnersOf(s, owner) ensures o in OwnersOf(t, owner) {
      var i :| 0 <= i < |s| && owner(s[i]) == o;
      assert t[i] == s[i];
    }
    assert owner(t[|s|]) == owner(x);
  }

  lemma SplitLast<T>(s: seq<T>)
    requires s != []
    ensures s == s[..|s| - 1] + [s[|s| - 1]]
  {
  }

  /** What survives is drawn from the input, keeps every owner of the input, and holds each owner once. */
  lemma {:induction false} KeepFirstShape<T>(s: seq<T>, owner: T -> string)
    ensures multiset(KeepFirstPerOwner(s, owner)) <= multiset(s)
    ensures OwnersOf(KeepFirstPerOwner(s, owner), owner) == OwnersOf(s, owner)
    ensures DistinctOwners(KeepFirstPerOwner(s, owner), owner)
    decreases |s|
  {
    if s != [] {
      var init, last := s[..|s| - 1], s[|s| - 1];
      var kept := KeepFirstPerOwner(init, owner);
      KeepFirstShape(init, owner);
      SplitLast(s);
      OwnersOfSnoc(init, last, owner);
      if owner(last) !in OwnersOf(init, owner) {
        OwnersOfSnoc(kept, last, owner);
        var r := kept + [last];
        forall i, j | 0 <= i < j < |r| ensures owner(r[i]) != owner(r[j]) {
          if j == |kept| {
            assert owner(r[i]) in OwnersOf(kept, owner);
          }
        }
      }
    }
  }

  /** An entry survives exactly when it is the first of its owner in the input. */
  lemma {:induction false} KeepFirstExactly<T>(s: seq<T>, owner: T -> string, x: T)
    ensures x in KeepFirstPerOwner(s, owner) <==>
      exists j :: 0 <= j < |s| && s[j] == x && FirstOfOwner(s, j, owner)
    decreases |s|
  {
    if s != [] {
      var init, last := s[..|s| - 1], s[|s| - 1];
      KeepFirstExactly(init, owner, x);
      SplitLast(s);
      assert forall j :: 0 <= j < |init| ==> (FirstOfOwner(s, j, owner) <==> FirstOfOwner(init, j, owner)) by {
        forall j | 0 <= j < |init| ensures FirstOfOwner(s, j, owner) <==> FirstOfOwner(init, j, owner) {
          assert forall k :: 0 <= k <= j ==> s[k] == init[k];
        }
      }
      assert FirstOfOwner(s, |init|, owner) <==> owner(last) !in OwnersOf(init, owner) by {
        if owner(last) in OwnersOf(init, owner) {
          var k :| 0 <= k < |init| && owner(init[k]) == owner(last);
          assert s[k] == init[k];
        }
      }
      if x in KeepFirstPerOwner(s, owner) {
        if x !in KeepFirstPerOwner(init, owner) {
          assert x == last && FirstOfOwner(s, |init|, owner);
        } else {
          var j :| 0 <= j < |init| && init[j] == x && FirstOfOwner(init, j, owner);
          assert s[j] == x;
        }
      }
    }
  }

  /** Keeping first entries preserves the newest-first order. */
  lemma {:induction false} KeepFirstSorted<T>(s: seq<T>, owner: T -> string, key: T -> int)
    requires NonIncreasing(s, key)
    ensures NonIncreasing(KeepFirstPerOwner(s, owner), key)
    decreases |s|
  {
    if s != [] {
      var init, last := s[..|s| - 1], s[|s| - 1];
      var kept := KeepFirstPerOwner(init, owner);
      KeepFirstSorted(init, owner, key);
      KeepFirstShape(init, owner);
      if owner(last) !in OwnersOf(init, owner) {
        var r := kept + [last];
        forall i, j | 0 <= i < j < |r| ensures key(r[i]) >= key(r[j]) {
          if j == |kept| {
            assert r[i] in multiset(kept);
            var k :| 0 <= k < |init| && init[k] == r[i];
            assert s[k] == r[i];
          }
        }
      }
    }
  }

  /** In a newest-first sequence, the first entry of an owner is that owner's most recently pushed one. */
  lemma FirstIsNewest<T>(s: seq<T>, j: nat, owner: T -> string, key: T -> int)
    requires NonIncreasing(s, key) && j < |s| && FirstOfOwner(s, j, owner)
    ensures forall k :: 0 <= k < |s| && owner(s[k]) == owner(s[j]) ==> key(s[k]) <= key(s[j])
  {
  }

  // ---------------------------------------------------------------------
  // The whole ranking

  /** repos/index.js: sort newest first, the counting filter, `slice(0, max)`. */
  function RankCounted<T>(s: seq<T>, key: T -> int, owner: T -> string, max: int): seq<T>
  {
    Slice(KeepFirstCounted(SortDesc(s, key), owner), 0, max)
  }

  /** repos/github.js: sort newest first, the marking filter, `slice(0, max)`. */
  function RankFlagged<T>(s: seq<T>, key: T -> int, owner: T -> string, max: int): seq<T>
  {
    Slice(KeepFirstFlagged(SortDesc(s, key), owner), 0, max)
  }

  /**
   * Truncating the owner-filtered form of ANY newest-first ordering: owners
   * are distinct, the order is newest first, there are at most `max`
   * entries, every entry comes from the input and is the first of its owner
   * in that ordering (so its newest), and no owner is lost before the cut.
   */
  lemma RankedShape<T>(sorted: seq<T>, key: T -> int, owner: T -> string, max: nat)
    requires NonIncreasing(sorted, key)
    ensures var r := Slice(KeepFirstPerOwner(sorted, owner), 0, max);
      && DistinctOwners(r, owner)
      && NonIncreasing(r, key)
      && |r| <= max
      && multiset(r) <= multiset(sorted)
      && (forall x :: x in r ==> exists j :: 0 <= j < |sorted| && sorted[j] == x && FirstOfOwner(sorted, j, owner))
      && (|OwnersOf(sorted, owner)| <= max ==> OwnersOf(r, owner) == OwnersOf(sorted, owner))
  {
    var kept := KeepFirstPerOwner(sorted, owner);
    var r := Slice(kept, 0, max);
    SliceFromStart(kept, max);
    TakeBounds(kept, max);
    KeepFirstShape(sorted, owner);
    KeepFirstSorted(sorted, owner, key);
    assert kept == r + kept[|r|..];
    assert multiset(kept) == multiset(r) + multiset(kept[|r|..]);
    forall x | x in r
      ensures exists j :: 0 <= j < |sorted| && sorted[j] == x && FirstOfOwner(sorted, j, owner)
    {
      KeepFirstExactly(sorted, owner, x);
    }
    if |OwnersOf(sorted, owner)| <= max && |r| < |kept| {
      DistinctOwnersCount(kept, owner);
      assert false;
    }
  }

  /** Sorting changes no owner. */
  lemma SortKeepsOwners<T>(s: seq<T>, key: T -> int, owner: T -> string)
    ensures multiset(SortDesc(s, key)) == multiset(s)
    ensures NonIncreasing(SortDesc(s, key), key)
    ensures OwnersOf(SortDesc(s, key), owner) == OwnersOf(s, owner)
  {
    SortDescCorrect(s, key);
    OwnersOfMembers(SortDesc(s, key), s, owner);
    OwnersOfMembers(s, SortDesc(s, key), owner);
  }

  /**
   * The ranking of repos/index.js: owners distinct, newest first, at most
   * `max` entries drawn from the input, no owner with an inherited name,
   * each entry the newest of its owner, and, while there is room, every
   * owner without an inherited name.
   */
  lemma RankCountedShape<T>(s: seq<T>, key: T -> int, owner: T -> string, max: nat)
    ensures var r := RankCounted(s, key, owner, max);
      && DistinctOwners(r, owner)
      && NonIncreasing(r, key)
      && |r| <= max
      && multiset(r) <= multiset(s)
      && (forall x :: x in r ==> owner(x) !in InheritedKeys)
      && (forall x, y :: x in r && y in s && owner(y) == owner(x) ==> key(y) <= key(x))
      && (|OwnersOf(s, owner)| <= max ==> OwnersOf(r, owner) == OwnersOf(s, owner) - InheritedKeys)
  {
    var sorted := SortDesc(s, key);
    var sub := Filter(sorted, PlainOwner(owner));
    var r := RankCounted(s, key, owner, max);
    SortKeepsOwners(s, key, owner);
    FilterSorted(sorted, PlainOwner(owner), key);
    FilterMembers(sorted, PlainOwner(owner));
    FilterMultiset(sorted, PlainOwner(owner));
    OwnersOfPlain(sorted, owner);
    RankedShape(sub, key, owner, max);
    forall x | x in r
      ensures owner(x) !in InheritedKeys
      ensures forall y :: y in s && owner(y) == owner(x) ==> key(y) <= key(x)
    {
      var j :| 0 <= j < |sub| && sub[j] == x && FirstOfOwner(sub, j, owner);
      assert x in sub;
      FirstIsNewest(sub, j, owner, key);
      forall y | y in s && owner(y) == owner(x) ensures key(y) <= key(x) {
        assert y in multiset(sorted);
        assert y in sub;
        var k :| 0 <= k < |sub| && sub[k] == y;
      }
    }
  }

  /**
   * The ranking of repos/github.js: owners distinct, newest first, at most
   * `max` entries drawn from the input, each entry of an owner without an
   * inherited name the newest of that owner, and, while there is room, every
   * such owner present.
   */
  lemma RankFlaggedShape<T>(s: seq<T>, key: T -> int, owner: T -> string, max: nat)
    ensures var r := RankFlagged(s, key, owner, max);
      && DistinctOwners(r, owner)
      && NonIncreasing(r, key)
      && |r| <= max
      && multiset(r) <= multiset(s)
      && (forall x, y :: x in r && y in s && owner(y) == owner(x) && owner(x) !in InheritedKeys ==> key(y) <= key(x))
      && (|OwnersOf(s, owner)| <= max ==> OwnersOf(s, owner) - InheritedKeys <= OwnersOf(r, owner))
  {
    var sorted := SortDesc(s, key);
    var sub := DropFirstInherited(sorted, owner);
    var r := RankFlagged(s, key, owner, max);
    SortKeepsOwners(s, key, owner);
    DropFirstKeeps(sorted, owner, key);
    RankedShape(sub, key, owner, max);
    assert multiset(r) <= multiset(s);
    forall x, y | x in r && y in s && owner(y) == owner(x) && owner(x) !in InheritedKeys
      ensures key(y) <= key(x)
    {
      var j :| 0 <= j < |sub| && sub[j] == x && FirstOfOwner(sub, j, owner);
      FirstIsNewest(sub, j, owner, key);
      assert y in multiset(sorted);
      var k :| 0 <= k < |sub| && sub[k] == y;
    }
    if |OwnersOf(s, owner)| <= max {
      SubsetCard(OwnersOf(sub, owner), OwnersOf(s, owner));
    }
  }

  lemma SubsetCard<U>(a: set<U>, b: set<U>)
    requires a <= b
    ensures |a| <= |b|
  {
    assert b == a + (b - a);
  }

  /** What the marking filter's drop step keeps of a newest-first sequence. */
  lemma DropFirstKeeps<T>(sorted: seq<T>, owner: T -> string, key: T -> int)
    requires NonIncreasing(sorted, key)
    ensures var sub := DropFirstInherited(sorted, owner);
      && NonIncreasing(sub, key)
      && multiset(sub) <= multiset(sorted)
      && (forall y :: y in sorted && owner(y) !in InheritedKeys ==> y in sub)
      && OwnersOf(sorted, owner) - InheritedKeys <= OwnersOf(sub, owner) <= OwnersOf(sorted, owner)
  {
    var sub := DropFirstInherited(sorted, owner);
    DropFirstSorted(sorted, owner, key);
    DropFirstShape(sorted, owner);
    OwnersOfMembers(sub, sorted, owner);
    forall y | y in sorted && owner(y) !in InheritedKeys ensures y in sub {
      var i :| 0 <= i < |sorted| && sorted[i] == y;
    }
    forall o | o in OwnersOf(sorted, owner) - InheritedKeys ensures o in OwnersOf(sub, owner) {
      var i :| 0 <= i < |sorted| && owner(sorted[i]) == o;
      assert sorted[i] in sub;
      var k :| 0 <= k < |sub| && sub[k] == sorted[i];
    }
  }

  /** A sequence with distinct owners has as many owners as entries. */
  lemma {:induction false} DistinctOwnersCount<T>(s: seq<T>, owner: T -> string)
    requires DistinctOwners(s, owner)
    ensures |OwnersOf(s, owner)| == |s|
    decreases |s|
  {
    if s != [] {
      var init := s[..|s| - 1];
      assert DistinctOwners(init, owner);
      DistinctOwnersCount(init, owner);
      SplitLast(s);
      OwnersOfSnoc(init, s[|s| - 1], owner);
      assert owner(s[|s| - 1]) !in OwnersOf(init, owner);
    }
  }
}
