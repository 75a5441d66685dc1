/**
 The wrapping index arithmetic of the queue. Indices are 64-bit words that wrap around; the other
 modules use unbounded integers. Here the word expressions of the program are related to the
 integers they stand for, on exactly the distances the enqueue guard allows.
 */
module WrapAround {

  const WORD: int := 0x1_0000_0000_0000_0000
  const HALF: int := 0x8000_0000_0000_0000

  /** The word an unbounded index is stored in. */
  function Wrap(x: int): nat { x % WORD }

  /** `circular_less_than` on 64-bit words (477-483). */
  predicate CircularLessThan(a: nat, b: nat) { Wrap(a - b) > HALF }

  /** A word read as a signed integer. */
  function Signed(a: nat): int { if a >= HALF then a - WORD else a }

  /** Division of signed integers, truncating towards zero. */
  function TruncDiv(x: int, y: nat): int
    requires y > 0
  {
    if x >= 0 then x / y else -((-x) / y)
  }

  /** `x & ~(B - 1)` for a power of two `B`. */
  function BlockBase(x: int, b: nat): int
    requires b > 0
  {
    x - x % b
  }

  lemma WrapDifference(x: int, y: int)
    ensures Wrap(Wrap(x) - Wrap(y)) == Wrap(x - y)
  {
    var q := x / WORD - y / WORD;
    assert x - y == Wrap(x) - Wrap(y) + WORD * q;
    WrapShift(Wrap(x) - Wrap(y), q);
  }

  lemma WrapShift(x: int, k: int)
    ensures Wrap(x + WORD * k) == Wrap(x)
  {
    var y := x + WORD * k;
    assert y == WORD * (x / WORD + k) + x % WORD;
    assert y / WORD == x / WORD + k;
  }

  /** Within one turn of the word, `circular_less_than` agrees with the order of the integers if and
      only if their distance is below half the word range (or exactly half, from above). */
  lemma CircularLessThanExact(x: int, y: int)
    requires -WORD < x - y < WORD
    ensures (CircularLessThan(Wrap(x), Wrap(y)) <==> x < y) <==> -HALF < x - y <= HALF
  {
    WrapDifference(x, y);
    if x < y {
      WrapShift(x - y, 1);
    }
  }

  // ---------------------------------------------------------------- the block offset

  lemma {:induction false} ModShift(x: int, m: nat, k: int)
    requires m > 0
    ensures (x + m * k) % m == x % m
    decreases if k < 0 then -k else k
  {
    if k > 0 {
      ModShift(x, m, k - 1);
      assert m * k == m * (k - 1) + m;
      StepMod(x + m * (k - 1), m);
    } else if k < 0 {
      ModShift(x, m, k + 1);
      assert m * k == m * (k + 1) - m;
      StepMod(x + m * k, m);
    }
  }

  lemma StepMod(y: int, m: nat)
    requires m > 0
    ensures (y + m) % m == y % m
  {
    var q, r := y / m, y % m;
    assert y + m == m * (q + 1) + r by { assert y == m * q + r; assert m * (q + 1) == m * q + m; }
    DivModUnique(y + m, m, q + 1, r);
  }

  lemma DivModUnique(y: int, m: nat, q: int, r: int)
    requires m > 0 && y == m * q + r && 0 <= r < m
    ensures y / m == q && y % m == r
  {
    var q', r' := y / m, y % m;
    assert y == m * q' + r';
    assert m * (q + 1) == m * q + m && m * (q' + 1) == m * q' + m;
    if q' > q {
      MulMonotone(m, q + 1, q');
    } else if q' < q {
      MulMonotone(m, q' + 1, q);
    }
  }

  lemma MulMonotone(m: nat, x: int, y: int)
    requires x <= y
    ensures m * x <= m * y
  {
    assert m * y == m * x + m * (y - x);
  }

  /** Masking a word with a power of two loses nothing of the integer it stands for. */
  lemma WrapMod(x: int, m: nat, k: nat)
    requires m > 0 && WORD == m * k
    ensures Wrap(x) % m == x % m
  {
    var q := x / WORD;
    assert x == Wrap(x) + WORD * q;
    assert WORD * q == m * (k * q) by { assert (m * k) * q == m * (k * q); }
    ModShift(Wrap(x), m, k * q);
  }

  lemma SignedDifference(x: int, y: int)
    requires -HALF < x - y < HALF
    ensures Signed(Wrap(Wrap(x) - Wrap(y))) == x - y
  {
    WrapDifference(x, y);
    if x < y {
      WrapShift(x - y, 1);
    }
  }

  lemma TruncDivExact(k: int, b: nat)
    requires b > 0
    ensures TruncDiv(b * k, b) == k
  {
    if k >= 0 {
      MulMonotone(b, 0, k);
      DivModUnique(b * k, b, k, 0);
    } else {
      MulMonotone(b, k, -1);
      assert -(b * k) == b * (-k);
      DivModUnique(b * (-k), b, -k, 0);
    }
  }

  /** The slot a consumer computes from words (2014-2017, 2978-2981): masked sum of the front slot and
      the signed block offset, cast back to an unsigned word. */
  function SlotFromWords(front: nat, index: nat, frontBase: nat, b: nat, size: nat): nat
    requires b > 0 && size > 0
  {
    Wrap(front + Wrap(TruncDiv(Signed(Wrap(BlockBase(index, b) - frontBase)), b))) % size
  }

  lemma BlockBaseWords(x: int, b: nat, k: nat)
    requires b > 0 && WORD == b * k
    ensures BlockBase(Wrap(x), b) == Wrap(BlockBase(x, b))
  {
    WrapMod(x, b, k);
    var w, r := Wrap(x), x % b;
    assert w - r >= 0 by { assert w % b == r; }
    assert BlockBase(x, b) == w - r + WORD * (x / WORD);
    WrapShift(w - r, x / WORD);
  }

  /** For every index whose block lies within half the word range of the front block, the words give
      the slot that is as many blocks away from the front slot as the indices are, wrap or no wrap. */
  lemma SlotAgrees(front: nat, index: int, frontBlock: int, b: nat, size: nat, kb: nat, ks: nat)
    requires b > 0 && size > 0 && WORD == b * kb && WORD == size * ks
    requires -HALF < BlockBase(index, b) - b * frontBlock < HALF
    ensures SlotFromWords(front, Wrap(index), Wrap(b * frontBlock), b, size) == (front + (index / b - frontBlock)) % size
  {
    hide *;
    var d := index / b - frontBlock;
    OffsetInBlocks(index, frontBlock, b);
    OffsetFromWords(index, frontBlock, b, kb);
    SlotOfOffset(front, Wrap(index), Wrap(b * frontBlock), b, size, d);
    MaskedSum(front, d, size, ks);
  }

  lemma OffsetInBlocks(index: int, frontBlock: int, b: nat)
    requires b > 0
    ensures BlockBase(index, b) - b * frontBlock == b * (index / b - frontBlock)
  {
    assert BlockBase(index, b) == b * (index / b);
  }

  /** The signed offset in blocks that is computed from the words. */
  lemma OffsetFromWords(index: int, frontBlock: int, b: nat, kb: nat)
    requires b > 0 && WORD == b * kb && -HALF < BlockBase(index, b) - b * frontBlock < HALF
    ensures TruncDiv(Signed(Wrap(BlockBase(Wrap(index), b) - Wrap(b * frontBlock))), b) == index / b - frontBlock
  {
    hide *;
    BlockBaseWords(index, b, kb);
    SignedDifference(BlockBase(index, b), b * frontBlock);
    OffsetInBlocks(index, frontBlock, b);
    TruncDivExact(index / b - frontBlock, b);
  }

  lemma SlotOfOffset(front: nat, index: nat, frontBase: nat, b: nat, size: nat, d: int)
    requires b > 0 && size > 0 && TruncDiv(Signed(Wrap(BlockBase(index, b) - frontBase)), b) == d
    ensures SlotFromWords(front, index, frontBase, b, size) == Wrap(front + Wrap(d)) % size
  {
  }

  lemma MaskedSum(front: nat, d: int, size: nat, ks: nat)
    requires size > 0 && WORD == size * ks
    ensures Wrap(front + Wrap(d)) % size == (front + d) % size
  {
    WrapMod(front + Wrap(d), size, ks);
    var q := d / WORD;
    assert front + d == front + Wrap(d) + WORD * q;
    assert WORD * q == size * (ks * q) by { assert (size * ks) * q == size * (ks * q); }
    ModShift(front + Wrap(d), size, ks * q);
  }

  // ---------------------------------------------------------------- how many blocks a bulk enqueue needs

  /** The number of block starts among the indices `[start, start + count)`. */
  function BlockStarts(start: nat, count: nat, b: nat): nat
    requires b > 0
  {
    if count == 0 then 0
    else BlockStarts(start, count - 1, b) + if (start + count - 1) % b == 0 then 1 else 0
  }

  /** `blockBaseDiff` of 2068 and 2644, in words. */
  function BlockBaseDiff(start: nat, count: nat, b: nat): nat
    requires b > 0
  {
    Wrap(BlockBase(Wrap(start + count - 1), b) - BlockBase(Wrap(start - 1), b))
  }

  lemma BlockBaseNext(x: int, b: nat)
    requires b > 0
    ensures BlockBase(x, b) == BlockBase(x - 1, b) + if x % b == 0 then b else 0
  {
    var q, r := x / b, x % b;
    assert x == b * q + r;
    if r > 0 {
      DivModUnique(x - 1, b, q, r - 1);
    } else {
      assert x - 1 == b * (q - 1) + (b - 1) by { assert b * (q - 1) == b * q - b; }
      DivModUnique(x - 1, b, q - 1, b - 1);
    }
  }

  lemma {:induction false} BlockBasesApart(start: nat, count: nat, b: nat)
    requires b > 0
    ensures BlockBase(start + count - 1, b) - BlockBase(start - 1, b) == b * BlockStarts(start, count, b)
  {
    hide BlockBase;
    if count > 0 {
      BlockBasesApart(start, count - 1, b);
      BlockBaseNext(start + count - 1, b);
      MulNext(b, BlockStarts(start, count - 1, b));
    }
  }

  lemma MulNext(b: nat, n: int)
    ensures b * (n + 1) == b * n + b
  {
  }

  /** The words of `blockBaseDiff` are the block size times the number of blocks to start, even when
      the start index is zero or the indices wrap. */
  lemma BlockBaseDiffCounts(start: nat, count: nat, b: nat, k: nat)
    requires b > 0 && WORD == b * k && b * BlockStarts(start, count, b) < WORD
    ensures BlockBaseDiff(start, count, b) == b * BlockStarts(start, count, b)
  {
    var hi, lo := start + count - 1, start - 1;
    BlockBaseWords(hi, b, k);
    BlockBaseWords(lo, b, k);
    BlockBasesApart(start, count, b);
    WrapOfDifference(BlockBase(hi, b), BlockBase(lo, b), b * BlockStarts(start, count, b));
  }

  lemma WrapOfDifference(hi: int, lo: int, n: int)
    requires hi - lo == n && 0 <= n < WORD
    ensures Wrap(Wrap(hi) - Wrap(lo)) == n
  {
    WrapDifference(hi, lo);
    WrapSmall(n);
  }

  lemma WrapSmall(x: int)
    requires 0 <= x < WORD
    ensures Wrap(x) == x
  {
  }

  // ---------------------------------------------------------------- what the guard keeps

  /** The first index past the block that `tail` is being filled in. */
  function BlockEnd(tail: nat, b: nat): nat
    requires b > 0
  {
    if tail % b == 0 then tail else BlockBase(tail, b) + b
  }

  /** `MAX_SUBQUEUE_SIZE`, a multiple of the block size by its definition (787). */
  datatype Limit = Unlimited | AtMost(n: nat)

  /** No room for another block (1874-1880, 2494): the words say the tail could get half a word range
      ahead of the head, or a configured maximum would be passed. */
  predicate Refused(tail: nat, head: nat, b: nat, limit: Limit) {
    || !CircularLessThan(Wrap(head), Wrap(tail + b))
    || (limit.AtMost? && (limit.n == 0 || limit.n - b < Wrap(Wrap(tail) - Wrap(head))))
  }

  datatype Step = Enqueue | Dequeue(n: nat)

  datatype Subqueue = Subqueue(tail: nat, head: nat)

  /** A producer that asks the guard at every block start, as the implicit producer does (2488-2537). */
  function Do(q: Subqueue, s: Step, b: nat, limit: Limit): Subqueue
    requires b > 0
  {
    match s
    case Enqueue => if q.tail % b == 0 && Refused(q.tail, q.head, b, limit) then q else q.(tail := q.tail + 1)
    case Dequeue(n) => if q.head + n <= q.tail then q.(head := q.head + n) else q
  }

  function After(q: Subqueue, steps: seq<Step>, b: nat, limit: Limit): Subqueue
    requires b > 0
  {
    if steps == [] then q else Do(After(q, steps[..|steps| - 1], b, limit), steps[|steps| - 1], b, limit)
  }

  predicate Within(q: Subqueue, b: nat, limit: Limit)
    requires b > 0
  {
    && q.head <= q.tail
    && BlockEnd(q.tail, b) - q.head < HALF
    && (limit.AtMost? ==> BlockEnd(q.tail, b) - q.head <= limit.n)
  }

  /** Enqueueing one element moves the block end only when it starts a block. */
  lemma BlockEndNext(tail: nat, b: nat)
    requires b > 0
    ensures BlockEnd(tail + 1, b) == if tail % b == 0 then tail + b else BlockEnd(tail, b)
  {
    BlockBaseNext(tail + 1, b);
    if (tail + 1) % b == 0 {
      assert BlockBase(tail + 1, b) == tail + 1;
    }
  }

  lemma MultipleAtLeast(n: nat, b: nat)
    requires b > 0 && n > 0 && n % b == 0
    ensures n >= b
  {
  }

  /** The guard refuses a block exactly when its end would be half a word range ahead of the head, or
      further ahead than the configured maximum. */
  lemma RefusedExactly(tail: nat, head: nat, b: nat, limit: Limit)
    requires 0 < b < HALF && (limit.AtMost? ==> limit.n % b == 0)
    requires 0 <= tail - head < HALF
    ensures Refused(tail, head, b, limit)
       <==> tail + b - head >= HALF || (limit.AtMost? && tail + b - head > limit.n)
  {
    CircularLessThanExact(head, tail + b);
    WrapDifference(tail, head);
    WrapSmall(tail - head);
    if limit.AtMost? && limit.n > 0 {
      MultipleAtLeast(limit.n, b);
    }
  }

  lemma GuardStep(q: Subqueue, s: Step, b: nat, limit: Limit)
    requires 0 < b < HALF && (limit.AtMost? ==> limit.n % b == 0) && Within(q, b, limit)
    ensures Within(Do(q, s, b, limit), b, limit)
  {
    assert q.tail <= BlockEnd(q.tail, b);
    if s.Enqueue? {
      BlockEndNext(q.tail, b);
      if q.tail % b == 0 && !Refused(q.tail, q.head, b, limit) {
        RefusedExactly(q.tail, q.head, b, limit);
      }
    }
  }

  /** In every run the guarded producer keeps the tail less than half a word range ahead of the head,
      which is what the comparisons and offsets above need, and never holds more than its maximum. */
  lemma {:induction false} GuardKeepsDistance(steps: seq<Step>, b: nat, limit: Limit)
    requires 0 < b < HALF && (limit.AtMost? ==> limit.n % b == 0)
    ensures var q := After(Subqueue(0, 0), steps, b, limit);
            && Within(q, b, limit)
            && q.tail - q.head < HALF
            && (limit.AtMost? ==> q.tail - q.head <= limit.n)
  {
    if steps != [] {
      GuardKeepsDistance(steps[..|steps| - 1], b, limit);
      GuardStep(After(Subqueue(0, 0), steps[..|steps| - 1], b, limit), steps[|steps| - 1], b, limit);
    }
    var q := After(Subqueue(0, 0), steps, b, limit);
    assert q.tail <= BlockEnd(q.tail, b);
  }
}
