/** Arithmetic of block numbers and circular slots. */
module Indices {
  import WrapAround

  function Slot(m: int, shift: int, size: nat): (r: nat)
    requires size > 0
    ensures r < size
  {
    (m + shift) % size
  }

  /** Different numbers of one window are in different slots. */
  lemma SlotsDiffer(m: int, k: int, shift: int, size: nat)
    requires size > 0 && m < k < m + size
    ensures Slot(m, shift, size) != Slot(k, shift, size)
  {
    var x, y := k + shift, m + shift;
    var q := x / size - y / size;
    assert x == size * (x / size) + x % size && y == size * (y / size) + y % size;
    assert size * (x / size) - size * (y / size) == size * q;
    if q <= 0 {
      WrapAround.MulMonotone(size, q, 0);
    } else {
      WrapAround.MulMonotone(size, 1, q);
    }
  }

  /** `(i + k) & (n - 1)` for a slot `i` of `n` and at most one turn. */
  function Ahead(i: nat, k: nat, n: nat): (r: nat)
    requires i < n && k <= n
    ensures r < n
  {
    if i + k < n then i + k else i + k - n
  }

  /** `(i - k) & (n - 1)` */
  function Behind(i: nat, k: nat, n: nat): (r: nat)
    requires i < n && k <= n
    ensures r < n && Ahead(r, k, n) == i
  {
    if i >= k then i - k else i + n - k
  }

  lemma SlotZero(m: int, lo: int, size: nat)
    requires 0 <= m - lo < size
    ensures Slot(m, 0 - lo, size) == m - lo
  {
    WrapAround.DivModUnique(m - lo, size, 0, m - lo);
  }

  lemma SlotAhead(m: int, k: nat, shift: int, size: nat)
    requires size > 0 && k <= size
    ensures Slot(m + k, shift, size) == Ahead(Slot(m, shift, size), k, size)
  {
    var q, r := (m + shift) / size, Slot(m, shift, size);
    if r + k < size {
      WrapAround.DivModUnique(m + k + shift, size, q, r + k);
    } else {
      assert size * (q + 1) == size * q + size;
      WrapAround.DivModUnique(m + k + shift, size, q + 1, r + k - size);
    }
  }

  /** Moving a slot by `d` is moving the number by `d`. */
  lemma SlotMove(m: int, d: int, shift: int, size: nat)
    requires size > 0
    ensures (Slot(m, shift, size) + d) % size == Slot(m + d, shift, size)
  {
    var q := (m + shift) / size;
    assert m + d + shift == Slot(m, shift, size) + d + size * q;
    WrapAround.ModShift(Slot(m, shift, size) + d, size, q);
  }

  /** Two indices in one place are one index. */
  lemma SamePlace(i: nat, j: nat, b: nat)
    requires b > 0 && i / b == j / b && i % b == j % b
    ensures i == j
  {
    assert i == b * (i / b) + i % b && j == b * (j / b) + j % b;
  }

  /** How many blocks hold `tail` elements. */
  function Blocks(tail: nat, b: nat): nat
    requires b > 0
  {
    tail / b + if tail % b == 0 then 0 else 1
  }

  lemma DivMonotone(i: nat, j: nat, b: nat)
    requires b > 0 && i <= j
    ensures i / b <= j / b
  {
    assert b * (j / b + 1) == b * (j / b) + b;
    if i / b > j / b {
      WrapAround.MulMonotone(b, j / b + 1, i / b);
    }
  }

  /** An index lies in one of the blocks exactly when it is below their common end. */
  lemma IndexInBlocks(i: nat, tail: nat, b: nat)
    requires b > 0
    ensures i < tail ==> i / b < Blocks(tail, b)
    ensures tail % b == 0 && i / b >= Blocks(tail, b) ==> i >= tail
    ensures tail % b == 0 && i >= tail ==> i / b >= Blocks(tail, b)
  {
    if i <= tail {
      DivMonotone(i, tail, b);
    } else {
      DivMonotone(tail, i, b);
    }
  }

  lemma BlocksNext(tail: nat, b: nat)
    requires b > 0
    ensures Blocks(tail + 1, b) == Blocks(tail, b) + if tail % b == 0 then 1 else 0
    ensures tail / b == Blocks(tail + 1, b) - 1
  {
    var q, r := tail / b, tail % b;
    if r + 1 == b {
      assert b * (q + 1) == b * q + b;
      WrapAround.DivModUnique(tail + 1, b, q + 1, 0);
    } else {
      WrapAround.DivModUnique(tail + 1, b, q, r + 1);
    }
  }

  function Base(b: nat, m: int): int { b * m }

  lemma AtBlockStart(tail: nat, b: nat)
    requires b > 0 && tail % b == 0
    ensures tail == Base(b, Blocks(tail, b))
  {
  }

  /** The offset a consumer computes from an element index and the base of the front entry. */
  lemma OffsetExact(i: nat, k: nat, b: nat)
    requires b > 0
    ensures WrapAround.TruncDiv(WrapAround.BlockBase(i, b) - Base(b, k), b) == i / b - k
  {
    assert WrapAround.BlockBase(i, b) == b * (i / b);
    assert b * (i / b) - b * k == b * (i / b - k);
    WrapAround.TruncDivExact(i / b - k, b);
  }

  // ---------------------------------------------------------------- ranges

  function Range(start: nat, n: nat): (r: set<nat>)
    ensures forall i :: i in r <==> start <= i < start + n
  {
    if n == 0 then {} else Range(start, n - 1) + {start + n - 1}
  }

  lemma {:induction false} RangeCard(s: set<nat>, start: nat, n: nat)
    requires forall i :: i in s ==> start <= i < start + n
    ensures |s| <= n && (|s| == n <==> s == Range(start, n))
    decreases n
  {
    if n == 0 {
      assert s == {};
    } else {
      var last := start + n - 1;
      var rest := s - {last};
      RangeCard(rest, start, n - 1);
      if last in s {
        assert s == rest + {last} && |s| == |rest| + 1;
        assert s == Range(start, n) ==> rest == Range(start, n - 1);
      } else {
        assert s == rest && last in Range(start, n);
      }
    }
  }

  lemma {:induction false} RangeSize(start: nat, n: nat)
    ensures |Range(start, n)| == n
  {
    RangeCard(Range(start, n), start, n);
  }
}
