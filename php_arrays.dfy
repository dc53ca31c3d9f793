/**
 * The PHP array functions the plugin relies on, over sequences:
 * `array_filter` (keys are not kept: results are lists), `array_unique`
 * and `array_chunk`.
 */
module PhpArrays {

  /** `array_filter($s, $keep)`: the elements satisfying `keep`, in their order. */
  function ArrayFilter<T>(s: seq<T>, keep: T -> bool): (r: seq<T>)
    ensures |r| <= |s|
    ensures forall i :: 0 <= i < |r| ==> keep(r[i])
  {
    if s == [] then []
    else
      var rest := ArrayFilter(s[1..], keep);
      if keep(s[0]) then
        var r := [s[0]] + rest;
        assert forall i :: 1 <= i < |r| ==> r[i] == rest[i - 1];
        r
      else rest
  }

  /** Filtering only removes elements. */
  lemma {:induction false} ArrayFilterSubset<T>(s: seq<T>, keep: T -> bool)
    ensures multiset(ArrayFilter(s, keep)) <= multiset(s)
  {
    if s != [] {
      ArrayFilterSubset(s[1..], keep);
      assert s == [s[0]] + s[1..];
    }
  }

  /** Every element that satisfies `keep` survives the filter. */
  lemma {:induction false} ArrayFilterKeepsMatches<T>(s: seq<T>, keep: T -> bool, i: nat)
    requires i < |s| && keep(s[i])
    ensures s[i] in ArrayFilter(s, keep)
  {
    if i > 0 {
      ArrayFilterKeepsMatches(s[1..], keep, i - 1);
    }
  }

  /** Filtering a concatenation filters each part: the relative order is kept. */
  lemma {:induction false} ArrayFilterConcat<T>(a: seq<T>, b: seq<T>, keep: T -> bool)
    ensures ArrayFilter(a + b, keep) == ArrayFilter(a, keep) + ArrayFilter(b, keep)
  {
    if a == [] {
      assert a + b == b;
    } else {
      assert (a + b)[0] == a[0];
      assert (a + b)[1..] == a[1..] + b;
      ArrayFilterConcat(a[1..], b, keep);
    }
  }

  /** Filtering a list that ends in x: x survives at the end exactly when it passes. */
  lemma ArrayFilterSnoc<T>(s: seq<T>, keep: T -> bool)
    requires s != []
    ensures ArrayFilter(s, keep)
            == ArrayFilter(s[..|s| - 1], keep) + (if keep(s[|s| - 1]) then [s[|s| - 1]] else [])
  {
    var front, last := s[..|s| - 1], s[|s| - 1];
    assert s == front + [last];
    ArrayFilterConcat(front, [last], keep);
    assert [last][1..] == [];
  }

  /** A filter that keeps every element changes nothing. */
  lemma {:induction false} ArrayFilterKeepsAll<T>(s: seq<T>, keep: T -> bool)
    requires forall i :: 0 <= i < |s| ==> keep(s[i])
    ensures ArrayFilter(s, keep) == s
  {
    if s != [] {
      ArrayFilterKeepsAll(s[1..], keep);
    }
  }

  predicate NoDuplicates<T(==)>(s: seq<T>)
  {
    forall i, j :: 0 <= i < j < |s| ==> s[i] != s[j]
  }

  /** `array_unique($s)`: the first occurrence of each value, in order of first occurrence. */
  function ArrayUnique<T(==)>(s: seq<T>): (r: seq<T>)
    ensures NoDuplicates(r)
    ensures forall i :: 0 <= i < |r| ==> r[i] in s
    ensures forall i :: 0 <= i < |s| ==> s[i] in r
    ensures |r| <= |s|
    ensures s != [] ==> r != [] && r[0] == s[0]
  {
    if s == [] then []
    else
      var front := ArrayUnique(s[..|s| - 1]);
      assert s == s[..|s| - 1] + [s[|s| - 1]];
      if s[|s| - 1] in front then front else front + [s[|s| - 1]]
  }

  /** The position of the first occurrence of x in s. */
  function FirstIndex<T(==)>(s: seq<T>, x: T): (k: nat)
    requires x in s
    ensures k < |s| && s[k] == x
    ensures forall j :: 0 <= j < k ==> s[j] != x
  {
    if s[0] == x then 0 else 1 + FirstIndex(s[1..], x)
  }

  /** Dropping the last element does not move a first occurrence that lies before it. */
  lemma {:induction false} FirstIndexInFront<T>(s: seq<T>, x: T)
    requires s != [] && x in s[..|s| - 1]
    ensures FirstIndex(s, x) == FirstIndex(s[..|s| - 1], x)
  {
    var front := s[..|s| - 1];
    if s[0] != x {
      assert front[1..] == s[1..][..|s| - 2];
      FirstIndexInFront(s[1..], x);
    }
  }

  /** The induction hypothesis of ArrayUniqueKeepsOrder, for one pair of positions. */
  lemma {:induction false} OrderInFront<T>(s: seq<T>, i: nat, j: nat)
    requires s != [] && i < j < |ArrayUnique(s[..|s| - 1])|
    ensures var front := s[..|s| - 1];
            FirstIndex(front, ArrayUnique(front)[i]) < FirstIndex(front, ArrayUnique(front)[j])
    decreases |s|, 0
  {
    ArrayUniqueKeepsOrder(s[..|s| - 1]);
  }

  /**
   * `array_unique` keeps first occurrences in input order: the values of
   * the result appear in the order in which each first occurs in s.
   */
  lemma {:induction false} ArrayUniqueKeepsOrder<T>(s: seq<T>)
    ensures var r := ArrayUnique(s);
            forall i, j :: 0 <= i < j < |r| ==> FirstIndex(s, r[i]) < FirstIndex(s, r[j])
    decreases |s|, 1
  {
    if s != [] {
      var front, last := s[..|s| - 1], s[|s| - 1];
      var rf := ArrayUnique(front);
      assert s == front + [last];
      forall i | 0 <= i < |rf|
        ensures FirstIndex(s, rf[i]) == FirstIndex(front, rf[i]) < |s| - 1
      {
        FirstIndexInFront(s, rf[i]);
      }
      forall i, j | 0 <= i < j < |rf|
        ensures FirstIndex(s, rf[i]) < FirstIndex(s, rf[j])
      {
        OrderInFront(s, i, j);
      }
      if last in rf {
        assert ArrayUnique(s) == rf;
      } else {
        var r := rf + [last];
        assert ArrayUnique(s) == r;
        forall i, j | 0 <= i < j < |r|
          ensures FirstIndex(s, r[i]) < FirstIndex(s, r[j])
        {
          assert r[i] == rf[i];
          if j < |rf| {
            assert r[j] == rf[j];
          } else {
            assert r[j] == last;
          }
        }
      }
    }
  }

  /** Concatenation of a list of lists. */
  function Flatten<T>(chunks: seq<seq<T>>): seq<T>
  {
    if chunks == [] then [] else chunks[0] + Flatten(chunks[1..])
  }

  /**
   * `array_chunk($s, $size)` for a positive size: consecutive chunks of
   * `size` elements, the last one possibly shorter; no chunk is empty.
   */
  function ArrayChunk<T>(s: seq<T>, size: nat): (r: seq<seq<T>>)
    requires size > 0
    ensures forall k :: 0 <= k < |r| ==> 0 < |r[k]| <= size
    ensures forall k :: 0 <= k < |r| - 1 ==> |r[k]| == size
    decreases |s|
  {
    if s == [] then []
    else if |s| <= size then [s]
    else [s[..size]] + ArrayChunk(s[size..], size)
  }

  /** Putting the chunks back together gives the original list. */
  lemma {:induction false} FlattenArrayChunk<T>(s: seq<T>, size: nat)
    requires size > 0
    ensures Flatten(ArrayChunk(s, size)) == s
    decreases |s|
  {
    if s != [] && |s| > size {
      var c := ArrayChunk(s, size);
      assert c[1..] == ArrayChunk(s[size..], size);
      FlattenArrayChunk(s[size..], size);
      assert s == s[..size] + s[size..];
    } else if s != [] {
      assert ArrayChunk(s, size)[1..] == [];
    }
  }

  /** Chunk k exists exactly when the list reaches past k * size. */
  lemma {:induction false} ArrayChunkCount<T>(s: seq<T>, size: nat, k: nat)
    requires size > 0
    ensures k < |ArrayChunk(s, size)| <==> k * size < |s|
    decreases k
  {
    if k > 0 && |s| > size {
      ArrayChunkCount(s[size..], size, k - 1);
      assert (k - 1) * size + size == k * size;
    } else if k > 0 {
      assert k * size >= size by {
        assert k * size == (k - 1) * size + size;
      }
    }
  }

  /** Chunk k holds the elements from k * size up to (k + 1) * size, cut at the end. */
  lemma {:induction false} ArrayChunkAt<T>(s: seq<T>, size: nat, k: nat)
    requires size > 0 && k < |ArrayChunk(s, size)|
    ensures k * size < |s|
    ensures ArrayChunk(s, size)[k] == s[k * size .. if (k + 1) * size <= |s| then (k + 1) * size else |s|]
    decreases k
  {
    if k > 0 {
      var rest := s[size..];
      assert |s| > size && ArrayChunk(s, size)[k] == ArrayChunk(rest, size)[k - 1];
      ArrayChunkAt(rest, size, k - 1);
      NextMultiple(k - 1, size);
      NextMultiple(k, size);
      var lo := (k - 1) * size;
      SliceOfSuffix(s, size, lo, if k * size <= |rest| then k * size else |rest|);
    }
  }

  lemma NextMultiple(k: nat, size: nat)
    ensures k * size + size == (k + 1) * size
  {
  }

  /** A slice of a suffix is a slice of the whole list, shifted. */
  lemma SliceOfSuffix<T>(s: seq<T>, d: nat, lo: nat, hi: nat)
    requires d <= |s| && lo <= hi <= |s| - d
    ensures s[d..][lo..hi] == s[lo + d..hi + d]
  {
  }
}
