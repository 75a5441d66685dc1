/**
 How a block knows that all its elements have been dequeued: one flag per element, stored in
 reverse, for explicit producers with small blocks, and a counter otherwise
 (shared/queue_internal/concurrentqueue.h:1562-1663).
 */
module Block {
  import WrapAround
  import opened Indices

  /** Where the flag of element index `i` is kept. */
  function FlagAt(size: nat, i: nat): nat
    requires size > 0
  {
    size - 1 - i % size
  }

  /** `set_empty` on the flags. */
  function MarkOne(flags: seq<bool>, i: nat): (r: seq<bool>)
    requires |flags| > 0
    ensures |r| == |flags|
  {
    flags[FlagAt(|flags|, i) := true]
  }

  /** `set_empty` called on `i`, `i + 1`, ... `i + count - 1` in turn. */
  function MarkEach(flags: seq<bool>, i: nat, count: nat): (r: seq<bool>)
    requires |flags| > 0
    ensures |r| == |flags|
  {
    if count == 0 then flags else MarkOne(MarkEach(flags, i, count - 1), i + count - 1)
  }

  /** The offsets within the block whose elements are completely dequeued. */
  ghost function Released(flags: seq<bool>): set<nat> {
    set k: nat | k < |flags| && IsReleased(flags, k)
  }

  predicate IsReleased(flags: seq<bool>, k: nat)
    requires k < |flags|
  {
    flags[|flags| - 1 - k]
  }

  /** All offsets of a block of `size` elements. */
  ghost predicate Full(s: set<nat>, size: nat) { forall k: nat :: k < size ==> k in s }

  lemma ModWithin(size: nat, i: nat, k: nat)
    requires size > 0 && i % size + k < size
    ensures (i + k) % size == i % size + k
  {
    WrapAround.DivModUnique(i + k, size, i / size, i % size + k);
  }

  /** Releasing a run of elements that does not leave the block adds exactly their offsets. */
  lemma MarkEachReleases(flags: seq<bool>, i: nat, count: nat)
    requires |flags| > 0 && i % |flags| + count <= |flags|
    ensures forall k: nat :: k in Released(MarkEach(flags, i, count)) <==>
              k in Released(flags) || i % |flags| <= k < i % |flags| + count
  {
    forall k: nat
      ensures k in Released(MarkEach(flags, i, count)) <==>
                k in Released(flags) || i % |flags| <= k < i % |flags| + count
    {
      if k < |flags| {
        MarkEachAt(flags, i, count, |flags| - 1 - k);
      }
    }
  }

  class Block {
    const size: nat
    const emptyFlags: array<bool>
    var elementsCompletelyDequeued: nat

    ghost predicate Valid()
      reads this
    {
      size > 0 && emptyFlags.Length == size
    }

    constructor (size: nat)
      requires size > 0
      ensures Valid() && this.size == size && fresh(emptyFlags) && elementsCompletelyDequeued == 0
    {
      this.size := size;
      emptyFlags := new bool[size](_ => false);
      elementsCompletelyDequeued := 0;
    }

    /** `is_empty` by flags: true exactly when every element was released. */
    method IsEmpty() returns (empty: bool)
      requires Valid()
      ensures empty <==> Full(Released(emptyFlags[..]), size)
    {
      var i := 0;
      while i < size
        invariant 0 <= i <= size
        invariant forall j :: 0 <= j < i ==> emptyFlags[j]
      {
        if !emptyFlags[i] {
          assert !IsReleased(emptyFlags[..], size - 1 - i);
          assert size - 1 - i !in Released(emptyFlags[..]);
          return false;
        }
        i := i + 1;
      }
      forall k: nat | k < size
        ensures k in Released(emptyFlags[..])
      {
        assert IsReleased(emptyFlags[..], k);
      }
      return true;
    }

    /** `set_empty` by flags (1599-1604). */
    method SetEmpty(i: nat)
      requires Valid() && !emptyFlags[FlagAt(size, i)]
      modifies emptyFlags
      ensures Released(emptyFlags[..]) == Released(old(emptyFlags[..])) + {i % size}
      ensures emptyFlags[..] == MarkOne(old(emptyFlags[..]), i)
    {
      ghost var before := emptyFlags[..];
      emptyFlags[size - 1 - i % size] := true;
      assert emptyFlags[..] == before[FlagAt(size, i) := true];
    }

    /** `set_many_empty` by flags (1618-1627): one ascending sweep over the reversed flags, equal to
        the corresponding calls of `set_empty`. */
    method SetManyEmpty(i: nat, count: nat)
      requires Valid() && i % size + count <= size
      modifies emptyFlags
      ensures emptyFlags[..] == MarkEach(old(emptyFlags[..]), i, count)
    {
      ghost var before := emptyFlags[..];
      var first := size - 1 - i % size - count + 1;
      var j := 0;
      while j != count
        invariant 0 <= j <= count
        invariant forall k :: 0 <= k < size ==>
          emptyFlags[k] == if first <= k < first + j then true else before[k]
      {
        emptyFlags[first + j] := true;
        j := j + 1;
      }
      forall k | 0 <= k < size
        ensures emptyFlags[k] == MarkEach(before, i, count)[k]
      {
        MarkEachAt(before, i, count, k);
      }
    }

    /** `reset_empty` (1653-1663). */
    method ResetEmpty()
      requires Valid()
      modifies this, emptyFlags
      ensures Released(emptyFlags[..]) == {} && elementsCompletelyDequeued == 0
    {
      var i := 0;
      while i != size
        invariant 0 <= i <= size
        invariant forall j :: 0 <= j < i ==> !emptyFlags[j]
      {
        emptyFlags[i] := false;
        i := i + 1;
      }
      elementsCompletelyDequeued := 0;
    }

    /** `set_many_empty` by counter (1628-1633), and `set_empty` with a count of one. */
    method CountManyEmpty(count: nat) returns (nowEmpty: bool)
      requires Valid() && elementsCompletelyDequeued + count <= size
      modifies this`elementsCompletelyDequeued
      ensures elementsCompletelyDequeued == old(elementsCompletelyDequeued) + count
      ensures nowEmpty <==> elementsCompletelyDequeued == size
    {
      var prevVal := elementsCompletelyDequeued;
      elementsCompletelyDequeued := elementsCompletelyDequeued + count;
      nowEmpty := prevVal + count == size;
    }
  }

  lemma {:induction false} MarkEachAt(flags: seq<bool>, i: nat, count: nat, k: nat)
    requires |flags| > 0 && i % |flags| + count <= |flags| && k < |flags|
    ensures MarkEach(flags, i, count)[k] ==
            (if |flags| - i % |flags| - count <= k < |flags| - i % |flags| then true else flags[k])
  {
    if count > 0 {
      MarkEachAt(flags, i, count - 1, k);
      ModWithin(|flags|, i, count - 1);
    }
  }

  // ---------------------------------------------------------------- release exactly once

  ghost function Union(batches: seq<set<nat>>): set<nat> {
    if batches == [] then {} else Union(batches[..|batches| - 1]) + batches[|batches| - 1]
  }

  /** The counter after the batches have been added. */
  ghost function Counted(batches: seq<set<nat>>): nat {
    if batches == [] then 0 else Counted(batches[..|batches| - 1]) + |batches[|batches| - 1]|
  }

  /** Consumers complete disjoint, non-empty runs of the block's elements. */
  ghost predicate Disjoint(batches: seq<set<nat>>, size: nat) {
    && (forall i :: 0 <= i < |batches| ==> batches[i] != {} && forall k :: k in batches[i] ==> k < size)
    && (forall i, j :: 0 <= i < j < |batches| ==> batches[i] !! batches[j])
  }

  /** The `i`-th addition reports the block empty. */
  ghost predicate Fires(batches: seq<set<nat>>, size: nat, i: nat)
    requires i < |batches|
  {
    Counted(batches[..i + 1]) == size
  }

  lemma {:induction false} UnionMember(batches: seq<set<nat>>, k: nat)
    ensures k in Union(batches) <==> exists i :: 0 <= i < |batches| && k in batches[i]
  {
    if batches != [] {
      var front := batches[..|batches| - 1];
      UnionMember(front, k);
      assert k in Union(front) ==> exists i :: 0 <= i < |front| && k in front[i];
      if i :| 0 <= i < |batches| && k in batches[i] {
        if i < |front| {
          assert k in front[i];
        }
      }
    }
  }

  lemma {:induction false} CountedIsUnion(batches: seq<set<nat>>, size: nat)
    requires Disjoint(batches, size)
    ensures Counted(batches) == |Union(batches)|
  {
    if batches != [] {
      var n := |batches| - 1;
      var front := batches[..n];
      CountedIsUnion(front, size);
      assert Union(front) !! batches[n] by {
        forall k | k in Union(front)
          ensures k !in batches[n]
        {
          UnionMember(front, k);
          var i :| 0 <= i < |front| && k in front[i];
          assert front[i] == batches[i];
        }
      }
      assert |Union(front) + batches[n]| == |Union(front)| + |batches[n]|;
    }
  }

  /** Whatever the order and batching of the dequeues, an addition reports the block empty exactly when
      it completes the last elements: all of them are done then, and no other addition reports it. */
  lemma ReleasedExactlyOnce(batches: seq<set<nat>>, size: nat, i: nat, j: nat)
    requires Disjoint(batches, size) && i < |batches| && j < |batches|
    ensures Fires(batches, size, i) <==> Full(Union(batches[..i + 1]), size)
    ensures Fires(batches, size, i) && Fires(batches, size, j) ==> i == j
    ensures Fires(batches, size, i) ==> i == |batches| - 1
  {
    Prefix(batches, size, i + 1);
    Prefix(batches, size, j + 1);
    Prefix(batches, size, |batches|);
    assert batches[..|batches|] == batches;
    if Fires(batches, size, i) && i < |batches| - 1 {
      CountedGrows(batches, i + 1, |batches|);
    }
    if Fires(batches, size, j) && j < |batches| - 1 {
      CountedGrows(batches, j + 1, |batches|);
    }
  }

  lemma Prefix(batches: seq<set<nat>>, size: nat, n: nat)
    requires Disjoint(batches, size) && n <= |batches|
    ensures Counted(batches[..n]) == |Union(batches[..n])| <= size
    ensures Counted(batches[..n]) == size <==> Full(Union(batches[..n]), size)
  {
    CountedIsUnion(batches[..n], size);
    forall k | k in Union(batches[..n])
      ensures k < size
    {
      UnionMember(batches[..n], k);
      var i :| 0 <= i < n && k in batches[..n][i];
      assert batches[..n][i] == batches[i];
    }
    RangeCard(Union(batches[..n]), 0, size);
    assert Full(Union(batches[..n]), size) <==> Range(0, size) <= Union(batches[..n]);
  }

  lemma {:induction false} CountedGrows(batches: seq<set<nat>>, m: nat, n: nat)
    requires m < n <= |batches| && forall i :: 0 <= i < |batches| ==> batches[i] != {}
    ensures Counted(batches[..m]) < Counted(batches[..n])
  {
    assert batches[..n][..n - 1] == batches[..n - 1];
    assert |batches[n - 1]| > 0;
    if m < n - 1 {
      CountedGrows(batches, m, n - 1);
    }
  }
}
