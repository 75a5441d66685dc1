/** The byte queue between a channel's readers and its listeners (shared/StreamQueue.hpp). */
module StreamQueue {
  import opened Basics

  type Byte = b: int | 0 <= b < 256

  /** How many bytes the loop of `dequeueAsVec` pops from a queue of `n`: its 8-bit counter never
      reaches a maximum above 255. */
  function Popped(n: nat, maxCount: nat): nat { if maxCount <= 255 then Min(maxCount, n) else n }

  /** The last iteration below `pops` in which the 8-bit counter is at `p`. */
  function LastWrite(p: nat, pops: nat): (k: nat)
    requires p < 256 && p < pops
    ensures p <= k < pops && k % 256 == p
    ensures forall j :: k < j < pops ==> j % 256 != p
  {
    p + 256 * ((pops - 1 - p) / 256)
  }

  /** What `dequeueAsVec` returns, position by position. */
  function VecAt(bytes: seq<Byte>, maxCount: nat, p: nat): Byte
    requires p < Min(maxCount, |bytes|)
  {
    var pops := Popped(|bytes|, maxCount);
    if p < 256 && p < pops then bytes[LastWrite(p, pops)] else 0
  }

  /** The result after `k` rounds of the loop. */
  ghost predicate Written(vec: seq<Byte>, all: seq<Byte>, k: nat)
    requires k <= |all|
  {
    forall p :: 0 <= p < |vec| ==> vec[p] == if p < 256 && p < k then all[LastWrite(p, k)] else 0
  }

  lemma WrittenNext(vec: seq<Byte>, all: seq<Byte>, k: nat)
    requires k < |all| && k % 256 < |vec| && Written(vec, all, k)
    ensures Written(vec[k % 256 := all[k]], all, k + 1)
  {
    var vec' := vec[k % 256 := all[k]];
    forall p | 0 <= p < |vec'|
      ensures vec'[p] == if p < 256 && p < k + 1 then all[LastWrite(p, k + 1)] else 0
    {
      if p == k % 256 {
        LastWriteUnique(p, k + 1, k);
      } else if p < 256 && p < k + 1 {
        SameLastWrite(p, k);
      }
    }
  }

  lemma WrittenNone(vec: seq<Byte>, all: seq<Byte>)
    requires forall p :: 0 <= p < |vec| ==> vec[p] == 0
    ensures Written(vec, all, 0)
  {
  }

  lemma WrittenAll(vec: seq<Byte>, all: seq<Byte>, maxCount: nat, k: nat)
    requires k <= |all| && Written(vec, all, k) && k == Popped(|all|, maxCount) && |vec| == Min(maxCount, |all|)
    ensures forall p :: 0 <= p < |vec| ==> vec[p] == VecAt(all, maxCount, p)
  {
  }

  class Stream {
    var bytes: seq<Byte>

    constructor ()
      ensures bytes == []
    {
      bytes := [];
    }

    /** Takes the first bytes, in order, and leaves the rest (22-33). */
    method Dequeue(maxCount: nat) returns (taken: seq<Byte>)
      modifies this
      ensures taken + bytes == old(bytes)
      ensures |taken| == Min(maxCount, |old(bytes)|)
    {
      var count := Min(maxCount, |bytes|);
      taken := bytes[..count];
      bytes := bytes[count..];
    }

    /** The loop of 58-61 with its 8-bit counter: every write is in bounds, later rounds overwrite
        earlier ones, and with a maximum above 255 the whole queue is consumed. */
    method DequeueAsVec(maxCount: nat) returns (vec: array<Byte>)
      modifies this
      ensures fresh(vec) && vec.Length == Min(maxCount, |old(bytes)|)
      ensures forall p :: 0 <= p < vec.Length ==> vec[p] == VecAt(old(bytes), maxCount, p)
      ensures bytes == if maxCount > 255 then [] else old(bytes)[vec.Length..]
    {
      hide Written, LastWrite;
      ghost var all := bytes;
      var count := Min(maxCount, |bytes|);
      vec := new Byte[count](_ => 0);
      var i: Byte := 0;
      ghost var k := 0;
      WrittenNone(vec[..], all);
      while i < maxCount && bytes != []
        invariant 0 <= k <= |all| && bytes == all[k..]
        invariant i == k % 256
        invariant maxCount <= 255 ==> k == i <= maxCount
        invariant Written(vec[..], all, k)
        decreases |bytes|
      {
        WrittenNext(vec[..], all, k);
        vec[i] := bytes[0];
        bytes := bytes[1..];
        i := (i + 1) % 256;
        k := k + 1;
      }
      assert k == Popped(|all|, maxCount);
      WrittenAll(vec[..], all, maxCount, k);
    }

    /** Copies without consuming (72-78). */
    method Peek(maxCount: nat) returns (copy: seq<Byte>)
      ensures copy <= bytes && |copy| == Min(maxCount, |bytes|)
    {
      copy := bytes[..Min(maxCount, |bytes|)];
    }

    /** Appends received bytes at the end (105-108). */
    method EnqueueMove(newBytes: seq<Byte>)
      modifies this
      ensures bytes == old(bytes) + newBytes
    {
      bytes := bytes + newBytes;
    }
  }

  lemma LastWriteUnique(p: nat, pops: nat, k: nat)
    requires p < 256 && p < pops && k < pops && k % 256 == p
    requires forall j :: k < j < pops ==> j % 256 != p
    ensures k == LastWrite(p, pops)
  {
    assert LastWrite(p, pops) <= k;
  }

  /** A step that writes elsewhere leaves the last write to `p` where it was. */
  lemma SameLastWrite(p: nat, k: nat)
    requires p < 256 && p < k + 1 && p != k % 256
    ensures p < k && LastWrite(p, k + 1) == LastWrite(p, k)
  {
    assert p < k;
    LastWriteUnique(p, k, LastWrite(p, k + 1));
  }

  /** `dequeueAsVec` behaves as `dequeue` on this content: same bytes out, same bytes left. */
  ghost predicate Agrees(bytes: seq<Byte>, maxCount: nat) {
    var count := Min(maxCount, |bytes|);
    && (forall p :: 0 <= p < count ==> VecAt(bytes, maxCount, p) == bytes[p])
    && bytes[Popped(|bytes|, maxCount)..] == bytes[count..]
  }

  ghost predicate AgreesOnAll(n: nat, maxCount: nat) {
    forall bytes: seq<Byte> :: |bytes| == n ==> Agrees(bytes, maxCount)
  }

  /** The exact range the 8-bit counter supports: `dequeueAsVec(maxCount)` equals `dequeue(maxCount)`
      for all contents of a queue of `n` bytes if and only if one of the two numbers is small. */
  lemma VecSupportedRange(n: nat, maxCount: nat)
    ensures AgreesOnAll(n, maxCount) <==> maxCount <= 255 || n <= 256
  {
    if maxCount <= 255 || n <= 256 {
      forall bytes: seq<Byte> | |bytes| == n
        ensures Agrees(bytes, maxCount)
      {
        var pops := Popped(n, maxCount);
        forall p | 0 <= p < Min(maxCount, n)
          ensures VecAt(bytes, maxCount, p) == bytes[p]
        {
          assert p < 256 && p < pops;
          assert LastWrite(p, pops) == p;
        }
      }
    } else {
      var bytes: seq<Byte> := seq(n, i => if i == 0 then 1 else 0);
      assert LastWrite(0, n) >= 256 by {
        assert 256 % 256 == 0;
        assert !(LastWrite(0, n) < 256);
      }
      assert VecAt(bytes, maxCount, 0) != bytes[0];
    }
  }
}
