/**
 * `chunk(arr, size)` from repos/index.js and repos/github.js, which splices
 * groups off the front of the caller's array until it is empty, and the
 * shuffle (`mess`) applied before it, with its random choices as a parameter.
 */
module Chunking {
  import opened Wrappers
  import opened JsSeq

  /** The message of the error `chunk` throws for a negative size. */
  const InvalidSize := "Invalid size"

  /** Both callers chunk the shuffled users into groups of 20. */
  const GroupSize := 20

  /** A JavaScript array that the caller shares with `chunk`, changed in place. */
  class JsArray<T> {
    var elems: seq<T>

    constructor (elems: seq<T>)
      ensures this.elems == elems
    {
      this.elems := elems;
    }

    /** `arr.splice(0, count)`: removes and returns the first `count` elements (a negative count removes none). */
    method SpliceFront(count: int) returns (removed: seq<T>)
      modifies this
      ensures |removed| == (if count < 0 then 0 else if count < |old(elems)| then count else |old(elems)|)
      ensures removed + elems == old(elems)
    {
      var n := if count < 0 then 0 else if count < |elems| then count else |elems|;
      removed := elems[..n];
      elems := elems[n..];
      assert removed + elems == old(elems);
    }
  }

  /** The groups `chunk` produces: consecutive runs of `size` elements, the last one possibly shorter. */
  function Chunks<T>(s: seq<T>, size: nat): seq<seq<T>>
    requires size > 0 || s == []
    decreases |s|
  {
    if s == [] then []
    else
      var n := if size < |s| then size else |s|;
      [s[..n]] + Chunks(s[n..], size)
  }

  /**
   * `chunk(arr, size)`.  A negative size throws before anything changes.
   * Otherwise the groups are spliced off the front of `arr`, which is left
   * empty.  A size of 0 on a non-empty array never terminates in the source
   * (every splice removes nothing), so that one case is excluded.
   */
  method Chunk<T>(arr: JsArray<T>, size: int) returns (result: Result<seq<seq<T>>, string>)
    requires size != 0 || arr.elems == []
    modifies arr
    ensures size < 0 ==> result == Failure(InvalidSize) && arr.elems == old(arr.elems)
    ensures size >= 0 ==> result == Success(Chunks(old(arr.elems), size)) && arr.elems == []
  {
    if size < 0 {
      return Failure(InvalidSize);
    }
    var chunks: seq<seq<T>> := [];
    while |arr.elems| > 0
      invariant size > 0 || arr.elems == []
      invariant chunks + Chunks(arr.elems, size) == Chunks(old(arr.elems), size)
      decreases |arr.elems|
    {
      ghost var rest := arr.elems;
      var group := arr.SpliceFront(size);
      assert group == rest[..|group|] && arr.elems == rest[|group|..];
      chunks := chunks + [group];
    }
    assert Chunks(arr.elems, size) == [];
    assert chunks + [] == chunks;
    return Success(chunks);
  }

  /** Concatenating the groups gives the original sequence back. */
  lemma {:induction false} ChunksFlatten<T>(s: seq<T>, size: nat)
    requires size > 0 || s == []
    ensures Flatten(Chunks(s, size)) == s
    decreases |s|
  {
    if s != [] {
      var n := if size < |s| then size else |s|;
      ChunksFlatten(s[n..], size);
      assert Chunks(s, size)[1..] == Chunks(s[n..], size);
      assert s[..n] + s[n..] == s;
    }
  }

  /** Every group is non-empty and holds at most `size` elements; all but the last hold exactly `size`. */
  lemma {:induction false} ChunksSizes<T>(s: seq<T>, size: nat)
    requires size > 0 || s == []
    ensures forall i :: 0 <= i < |Chunks(s, size)| ==> 0 < |Chunks(s, size)[i]| <= size
    ensures forall i :: 0 <= i < |Chunks(s, size)| - 1 ==> |Chunks(s, size)[i]| == size
    decreases |s|
  {
    if s != [] {
      var n := if size < |s| then size else |s|;
      ChunksSizes(s[n..], size);
      var cs := Chunks(s, size);
      assert cs[1..] == Chunks(s[n..], size);
      assert forall i :: 1 <= i < |cs| ==> cs[i] == cs[1..][i - 1];
      if n < size {
        assert s[n..] == [];
      }
    }
  }

  /**
   * The shuffle applied to the users before chunking: at each step the
   * element at position `picks[0]` (taken modulo what is left) is moved to
   * the output; missing picks count as 0.  Any order can be reached by some
   * choice of picks, so the randomness is the caller's.
   */
  function Mess<T>(s: seq<T>, picks: seq<nat>): (r: seq<T>)
    ensures |r| == |s|
    decreases |s|
  {
    if s == [] then []
    else
      var k := Pick(picks, |s|);
      [s[k]] + Mess(s[..k] + s[k + 1..], Rest(picks))
  }

  /** The position chosen among `n` remaining elements. */
  function Pick(picks: seq<nat>, n: nat): (k: nat)
    requires n > 0
    ensures k < n
  {
    (if picks == [] then 0 else picks[0]) % n
  }

  function Rest(picks: seq<nat>): seq<nat>
  {
    if picks == [] then [] else picks[1..]
  }

  /** The shuffle is a permutation of its input. */
  lemma {:induction false} MessPermutes<T>(s: seq<T>, picks: seq<nat>)
    ensures multiset(Mess(s, picks)) == multiset(s)
    decreases |s|
  {
    if s != [] {
      var k := Pick(picks, |s|);
      var front, back := s[..k], s[k + 1..];
      var rest := front + back;
      var picks' := Rest(picks);
      MessPermutes(rest, picks');
      assert Mess(s, picks) == [s[k]] + Mess(rest, picks');
      assert s == front + ([s[k]] + back);
      assert multiset(rest) == multiset(front) + multiset(back);
      assert multiset([s[k]] + back) == multiset([s[k]]) + multiset(back);
      assert multiset(s) == multiset(front) + multiset([s[k]] + back);
    }
  }
}
