/**
 * The JavaScript array and string operations the pipeline is built from:
 * `slice`, `concat.apply` (flattening), `filter`, `join('+')`, and a
 * splitting function that serves as the reference inverse of `join`.
 */
module JsSeq {

  /** Where a `slice` position lands: negative positions count from the end, and both ends are clamped. */
  function SlicePos(len: nat, x: int): (p: nat)
    ensures p <= len
    ensures 0 <= x ==> p == if x < len then x else len
  {
    if x < 0 then (if len + x < 0 then 0 else len + x)
    else if x > len then len
    else x
  }

  /** `s.slice(start, end)` */
  function Slice<T>(s: seq<T>, start: int, end: int): seq<T>
  {
    var from, to := SlicePos(|s|, start), SlicePos(|s|, end);
    if from < to then s[from..to] else []
  }

  /** The first `n` elements, or all of them when there are fewer. */
  function Take<T>(s: seq<T>, n: nat): seq<T>
  {
    if n < |s| then s[..n] else s
  }

  lemma TakeBounds<T>(s: seq<T>, n: nat)
    ensures |Take(s, n)| <= n && |Take(s, n)| <= |s|
    ensures |Take(s, n)| == (if n < |s| then n else |s|)
    ensures Take(s, n) == s[..|Take(s, n)|]
  {
  }

  /** With a non-negative end, `slice(0, n)` is the first `n` elements. */
  lemma SliceFromStart<T>(s: seq<T>, n: int)
    requires 0 <= n
    ensures Slice(s, 0, n) == Take(s, n)
  {
  }

  /** With a negative end, `slice(0, n)` drops the last `-n` elements instead of giving nothing. */
  lemma SliceNegativeEnd<T>(s: seq<T>, n: int)
    requires n < 0
    ensures Slice(s, 0, n) == s[..SlicePos(|s|, n)]
    ensures |s| > -n ==> |Slice(s, 0, n)| == |s| + n
  {
  }

  /** `[].concat.apply([], groups)`: the groups one after another. */
  function Flatten<T>(groups: seq<seq<T>>): seq<T>
  {
    if groups == [] then [] else groups[0] + Flatten(groups[1..])
  }

  lemma {:induction false} FlattenAppend<T>(a: seq<seq<T>>, b: seq<seq<T>>)
    ensures Flatten(a + b) == Flatten(a) + Flatten(b)
  {
    if a == [] {
      assert a + b == b;
    } else {
      assert (a + b)[1..] == a[1..] + b;
      FlattenAppend(a[1..], b);
    }
  }

  /** Every element of the flattened sequence comes from one of the groups, and conversely. */
  lemma {:induction false} FlattenMembers<T>(groups: seq<seq<T>>, x: T)
    ensures x in Flatten(groups) <==> exists g :: g in groups && x in g
  {
    if groups != [] {
      FlattenMembers(groups[1..], x);
      assert forall g :: g in groups <==> g == groups[0] || g in groups[1..];
    }
  }

  /** `s.filter(p)` */
  function Filter<T>(s: seq<T>, p: T -> bool): seq<T>
  {
    if s == [] then []
    else if p(s[0]) then [s[0]] + Filter(s[1..], p)
    else Filter(s[1..], p)
  }

  /** Filtering keeps exactly the elements that pass, and never adds any. */
  lemma {:induction false} FilterMembers<T>(s: seq<T>, p: T -> bool)
    ensures |Filter(s, p)| <= |s|
    ensures forall x :: x in Filter(s, p) <==> x in s && p(x)
  {
    if s != [] {
      FilterMembers(s[1..], p);
      assert forall x :: x in s <==> x == s[0] || x in s[1..];
    }
  }

  /** Nothing passes when no element satisfies the predicate. */
  lemma {:induction false} FilterNone<T>(s: seq<T>, p: T -> bool)
    requires forall i :: 0 <= i < |s| ==> !p(s[i])
    ensures Filter(s, p) == []
  {
    if s != [] {
      FilterNone(s[1..], p);
    }
  }

  /** Filtering a concatenation filters each part and keeps their order. */
  lemma {:induction false} FilterAppend<T>(a: seq<T>, b: seq<T>, p: T -> bool)
    ensures Filter(a + b, p) == Filter(a, p) + Filter(b, p)
  {
    if a == [] {
      assert a + b == b;
    } else {
      assert (a + b)[0] == a[0];
      assert (a + b)[1..] == a[1..] + b;
      FilterAppend(a[1..], b, p);
    }
  }

  /** What filtering keeps is a sub-multiset of the input. */
  lemma {:induction false} FilterMultiset<T>(s: seq<T>, p: T -> bool)
    ensures multiset(Filter(s, p)) <= multiset(s)
  {
    if s != [] {
      FilterMultiset(s[1..], p);
      assert s == [s[0]] + s[1..];
    }
  }

  /** The positions from `from` on whose element passes `p`, in increasing order. */
  function PassingFrom<T>(s: seq<T>, p: T -> bool, from: nat): seq<nat>
    requires from <= |s|
    decreases |s| - from
  {
    if from == |s| then [] else (if p(s[from]) then [from] else []) + PassingFrom(s, p, from + 1)
  }

  /** The positions of `s` whose element passes `p`, in increasing order. */
  function Passing<T>(s: seq<T>, p: T -> bool): seq<nat>
  {
    PassingFrom(s, p, 0)
  }

  lemma {:induction false} FilterPositionsFrom<T>(s: seq<T>, p: T -> bool, from: nat)
    requires from <= |s|
    ensures var idx, f := PassingFrom(s, p, from), Filter(s[from..], p);
      && |idx| == |f|
      && (forall k :: 0 <= k < |idx| ==> from <= idx[k] < |s| && f[k] == s[idx[k]])
      && (forall k, l :: 0 <= k < l < |idx| ==> idx[k] < idx[l])
      && (forall i :: from <= i < |s| ==> (i in idx <==> p(s[i])))
    decreases |s| - from
  {
    if from < |s| {
      FilterPositionsFrom(s, p, from + 1);
      var idx', f' := PassingFrom(s, p, from + 1), Filter(s[from + 1..], p);
      assert s[from..][0] == s[from];
      assert s[from..][1..] == s[from + 1..];
      if p(s[from]) {
        assert PassingFrom(s, p, from) == [from] + idx';
        assert Filter(s[from..], p) == [s[from]] + f';
      } else {
        assert PassingFrom(s, p, from) == [] + idx' == idx';
        assert Filter(s[from..], p) == f';
      }
    }
  }

  /**
   * `filter` is a subsequence: the k-th element kept is the element at the
   * k-th passing position, those positions increase, and every passing
   * position is among them.
   */
  lemma FilterPositions<T>(s: seq<T>, p: T -> bool)
    ensures var idx, f := Passing(s, p), Filter(s, p);
      && |idx| == |f|
      && (forall k :: 0 <= k < |idx| ==> idx[k] < |s| && f[k] == s[idx[k]])
      && (forall k, l :: 0 <= k < l < |idx| ==> idx[k] < idx[l])
      && (forall i :: 0 <= i < |s| ==> (i in idx <==> p(s[i])))
  {
    FilterPositionsFrom(s, p, 0);
    assert s[0..] == s;
  }

  /** `parts.join(sep)` */
  function Join(parts: seq<string>, sep: char): string
  {
    if parts == [] then ""
    else if |parts| == 1 then parts[0]
    else parts[0] + [sep] + Join(parts[1..], sep)
  }

  /** Cuts a string at every occurrence of `sep`: the reference inverse of Join. */
  function Split(s: string, sep: char): (parts: seq<string>)
    ensures |parts| >= 1
  {
    if s == [] then [""]
    else
      var rest := Split(s[1..], sep);
      if s[0] == sep then [""] + rest
      else [[s[0]] + rest[0]] + rest[1..]
  }

  /** A piece without the separator stays in one part. */
  lemma {:induction false} SplitNoSeparator(p: string, t: string, sep: char)
    requires sep !in p
    ensures Split(p + t, sep) == [p + Split(t, sep)[0]] + Split(t, sep)[1..]
  {
    if p != [] {
      assert (p + t)[0] == p[0];
      assert (p + t)[1..] == p[1..] + t;
      SplitNoSeparator(p[1..], t, sep);
      assert [p[0]] + (p[1..] + Split(t, sep)[0]) == p + Split(t, sep)[0];
    } else {
      assert p + t == t;
      var parts := Split(t, sep);
      assert parts == [parts[0]] + parts[1..];
      assert p + parts[0] == parts[0];
    }
  }

  /** Joining parts that do not contain the separator and splitting again gives the parts back. */
  lemma {:induction false} SplitJoin(parts: seq<string>, sep: char)
    requires |parts| >= 1
    requires forall i :: 0 <= i < |parts| ==> sep !in parts[i]
    ensures Split(Join(parts, sep), sep) == parts
  {
    if |parts| == 1 {
      SplitNoSeparator(parts[0], "", sep);
      assert parts[0] + "" == parts[0];
    } else {
      var rest := Join(parts[1..], sep);
      SplitJoin(parts[1..], sep);
      assert Join(parts, sep) == parts[0] + ([sep] + rest);
      SplitNoSeparator(parts[0], [sep] + rest, sep);
      assert ([sep] + rest)[1..] == rest;
      assert Split([sep] + rest, sep) == [""] + parts[1..];
      assert parts[0] + "" == parts[0];
    }
  }
}
