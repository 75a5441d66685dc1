/**
 The implicit producer (shared/queue_internal/concurrentqueue.h:2421-2876): blocks come from a shared pool,
 are found through the block index, and go back to the pool when the last of their elements has been
 dequeued. A bulk enqueue first gets all the blocks it needs, or undoes what it did.
 */
module ImplicitProducer {
  import opened Basics
  import WrapAround
  import opened Indices
  import opened ImplicitIndex

  /** The elements and blocks of a producer with their history: `items` is everything ever enqueued,
      `done` the indices completely dequeued, `blocks` the block of each block number in use. */
  datatype Core<T> = Core(
    b: nat,
    tail: nat,
    head: nat,
    cells: map<BlockId, seq<Option<T>>>,
    counts: map<BlockId, nat>,
    blocks: map<nat, BlockId>,
    pool: set<BlockId>,
    items: seq<T>,
    done: set<nat>)
  {
    /** A block number is in use from its first element until all its elements are done, and the block's
        counter says how many are. */
    ghost predicate NumberOk(m: nat)
      requires b > 0
    {
      && (m in blocks <==> m < Blocks(tail, b) && |InBlock(done, m, b)| < b)
      && (m in blocks ==>
            && blocks[m] !in pool
            && blocks[m] in counts && counts[blocks[m]] == |InBlock(done, m, b)|
            && blocks[m] in cells && |cells[blocks[m]]| == b)
    }

    ghost predicate ItemOk(i: nat)
      requires b > 0 && |items| == tail
    {
      i < tail && i !in done ==>
        && i / b in blocks && blocks[i / b] in cells && |cells[blocks[i / b]]| == b
        && cells[blocks[i / b]][i % b] == Some(items[i])
    }

    ghost predicate Valid() {
      && b > 1 && head <= tail == |items|
      && (forall i :: i in done ==> i < head)
      && (forall m: nat :: NumberOk(m))
      && (forall i: nat :: ItemOk(i))
      && Injective(blocks)
    }
  }

  ghost predicate Injective(blocks: map<nat, BlockId>) {
    forall m, k :: Apart(blocks, m, k)
  }

  predicate Apart(blocks: map<nat, BlockId>, m: nat, k: nat) {
    m in blocks && k in blocks && m != k ==> blocks[m] != blocks[k]
  }

  lemma InjectivePart(blocks: map<nat, BlockId>, part: map<nat, BlockId>)
    requires Injective(blocks) && forall m :: m in part ==> m in blocks && part[m] == blocks[m]
    ensures Injective(part)
  {
    forall m, k
      ensures Apart(part, m, k)
    {
      assert Apart(blocks, m, k);
    }
  }

  lemma InjectiveMore(blocks: map<nat, BlockId>, m: nat, block: BlockId)
    requires Injective(blocks) && forall k :: k in blocks ==> blocks[k] != block
    ensures Injective(blocks[m := block])
  {
    var more := blocks[m := block];
    forall j, k
      ensures Apart(more, j, k)
    {
      assert Apart(blocks, j, k);
    }
  }

  /** The elements of block number `m` among `done`. */
  ghost function InBlock(done: set<nat>, m: nat, b: nat): set<nat>
    requires b > 0
  {
    set i | i in done && i / b == m
  }

  lemma BlockRange(i: nat, m: nat, b: nat)
    requires b > 0
    ensures i / b == m <==> b * m <= i < b * m + b
  {
    if b * m <= i < b * m + b {
      WrapAround.DivModUnique(i, b, m, i - b * m);
    }
  }

  /** A block has at most `b` done elements, and exactly `b` when all are. */
  lemma InBlockCard(done: set<nat>, m: nat, b: nat)
    requires b > 0
    ensures |InBlock(done, m, b)| <= b
    ensures |InBlock(done, m, b)| == b <==> forall i: nat :: i / b == m ==> i in done
  {
    forall i: nat
      ensures i / b == m <==> i in Range(b * m, b)
    {
      BlockRange(i, m, b);
    }
    RangeCard(InBlock(done, m, b), b * m, b);
    if |InBlock(done, m, b)| == b {
      forall i: nat | i / b == m
        ensures i in done
      {
        assert i in Range(b * m, b);
      }
    }
  }

  // ---------------------------------------------------------------- consumers

  /** `n` elements from `start`, in one block, completely dequeued (2602-2612, 2857-2867). */
  ghost function Taken<T>(c: Core<T>, start: nat, n: nat): Core<T>
    requires c.b > 0 && start / c.b in c.blocks && c.blocks[start / c.b] in c.counts
  {
    var m := start / c.b;
    var block := c.blocks[m];
    var count := c.counts[block] + n;
    c.(done := c.done + Range(start, n),
       counts := c.counts[block := count],
       blocks := if count == c.b then c.blocks - {m} else c.blocks,
       pool := if count == c.b then c.pool + {block} else c.pool)
  }

  /** A consumer owns these elements, in one block, and has not finished them. */
  ghost predicate Owned<T>(c: Core<T>, start: nat, n: nat) {
    && c.b > 0 && n > 0 && start % c.b + n <= c.b && start + n <= c.head
    && c.done !! Range(start, n)
  }

  lemma SameBlock(start: nat, k: nat, b: nat)
    requires b > 0 && start % b + k < b
    ensures (start + k) / b == start / b && (start + k) % b == start % b + k
  {
    WrapAround.DivModUnique(start + k, b, start / b, start % b + k);
  }

  lemma RangeInBlock(start: nat, n: nat, b: nat, i: nat)
    requires b > 0 && start % b + n <= b && start <= i < start + n
    ensures i / b == start / b
  {
    SameBlock(start, i - start, b);
  }

  lemma {:induction false} RangeHome(start: nat, n: nat, b: nat)
    requires b > 0 && start % b + n <= b
    ensures forall i :: i in Range(start, n) ==> i / b == start / b
  {
    forall i | i in Range(start, n)
      ensures i / b == start / b
    {
      RangeInBlock(start, n, b, i);
    }
  }

  lemma {:induction false} TakenCount(done: set<nat>, start: nat, n: nat, m: nat, b: nat)
    requires b > 0 && start % b + n <= b && done !! Range(start, n)
    ensures |InBlock(done + Range(start, n), m, b)| == |InBlock(done, m, b)| + if m == start / b then n else 0
  {
    RangeHome(start, n, b);
    RangeCount(done, start, n, start / b, m, b);
  }

  lemma {:induction false} RangeCount(done: set<nat>, start: nat, n: nat, home: nat, m: nat, b: nat)
    requires b > 0 && done !! Range(start, n) && forall i :: i in Range(start, n) ==> i / b == home
    ensures |InBlock(done + Range(start, n), m, b)| == |InBlock(done, m, b)| + if m == home then n else 0
  {
    RangeSize(start, n);
    UnionCount(done, Range(start, n), home, m, b);
  }

  lemma {:induction false} UnionCount(done: set<nat>, more: set<nat>, home: nat, m: nat, b: nat)
    requires b > 0 && done !! more && forall i :: i in more ==> i / b == home
    ensures |InBlock(done + more, m, b)| == |InBlock(done, m, b)| + if m == home then |more| else 0
  {
    if m == home {
      assert InBlock(done + more, m, b) == InBlock(done, m, b) + more;
    } else {
      assert InBlock(done + more, m, b) == InBlock(done, m, b);
    }
  }

  lemma {:induction false} TakenNumber<T>(c: Core<T>, start: nat, n: nat, m: nat)
    requires c.b > 0 && Owned(c, start, n) && Injective(c.blocks) && c.NumberOk(m) && c.NumberOk(start / c.b)
    requires start / c.b in c.blocks
    ensures Taken(c, start, n).NumberOk(m)
  {
    assert Apart(c.blocks, m, start / c.b);
    TakenCount(c.done, start, n, m, c.b);
    assert Taken(c, start, n).done == c.done + Range(start, n);
    InBlockCard(Taken(c, start, n).done, m, c.b);
  }

  lemma {:induction false} TakenItem<T>(c: Core<T>, start: nat, n: nat, i: nat)
    requires c.Valid() && Owned(c, start, n) && start / c.b in c.blocks && c.NumberOk(start / c.b)
    ensures Taken(c, start, n).ItemOk(i)
  {
    var c' := Taken(c, start, n);
    assert c.ItemOk(i);
    if i < c.tail && i !in c'.done {
      TakenCount(c.done, start, n, i / c.b, c.b);
      assert c'.done == c.done + Range(start, n);
      InBlockCard(c'.done, i / c.b, c.b);
    }
  }

  lemma {:induction false} TakenValid<T>(c: Core<T>, start: nat, n: nat)
    requires c.Valid() && Owned(c, start, n)
    ensures start / c.b in c.blocks && c.NumberOk(start / c.b) && Taken(c, start, n).Valid()
    ensures Consumed(c, Taken(c, start, n))
  {
    assert c.ItemOk(start) && c.NumberOk(start / c.b);
    var c' := Taken(c, start, n);
    forall m: nat
      ensures c'.NumberOk(m)
    {
      assert c.NumberOk(m);
      TakenNumber(c, start, n, m);
    }
    forall i: nat
      ensures c'.ItemOk(i)
    {
      TakenItem(c, start, n, i);
    }
    InjectivePart(c.blocks, c'.blocks);
    TakenTotal(c, start, n);
  }

  /** Whatever the order of the dequeues, the one that finishes the last element of a block gives it back,
      and no other does; it was not in the pool before. */
  lemma {:induction false} ReturnedWhenDone<T>(c: Core<T>, start: nat, n: nat)
    requires c.Valid() && Owned(c, start, n)
    ensures start / c.b in c.blocks && c.blocks[start / c.b] in c.counts && c.blocks[start / c.b] !in c.pool
    ensures c.blocks[start / c.b] in Taken(c, start, n).pool
       <==> forall i: nat :: i / c.b == start / c.b ==> i in Taken(c, start, n).done
  {
    TakenValid(c, start, n);
    var m, c' := start / c.b, Taken(c, start, n);
    assert c.NumberOk(m) && c'.NumberOk(m);
    InBlockCard(c.done, m, c.b);
    InBlockCard(c'.done, m, c.b);
    TakenCount(c.done, start, n, m, c.b);
    assert c'.done == c.done + Range(start, n);
  }

  /** A tail block with room is in use. */
  lemma TailInUse<T>(c: Core<T>)
    requires c.Valid() && c.tail % c.b != 0
    ensures c.tail / c.b in c.blocks
  {
    assert c.NumberOk(c.tail / c.b);
    InBlockCard(c.done, c.tail / c.b, c.b);
    BlocksNext(c.tail, c.b);
    assert c.tail !in c.done;
  }

  lemma TakenTotal<T>(c: Core<T>, start: nat, n: nat)
    requires c.b > 0 && start / c.b in c.blocks && c.blocks[start / c.b] in c.counts && Injective(c.blocks)
    ensures Total(Taken(c, start, n)) == Total(c)
  {
    var m := start / c.b;
    var rest := c.blocks - {m};
    assert c.blocks.Values == rest.Values + {c.blocks[m]} by {
      forall x | x in c.blocks.Values
        ensures x in rest.Values + {c.blocks[m]}
      {
        var k :| k in c.blocks && c.blocks[k] == x;
        assert k != m ==> k in rest && rest[k] == x;
      }
    }
  }

  /** All blocks that the producer and the pool have between them. */
  function Total<T>(c: Core<T>): set<BlockId> { c.pool + c.blocks.Values }

  /** The elements are the same in `c'` as in `c`, except that consumers finished some. */
  ghost predicate Progressed<T>(c: Core<T>, c': Core<T>) {
    && c'.b == c.b && c'.tail == c.tail && c'.items == c.items
    && c.head <= c'.head && c.done <= c'.done
    && (forall m :: m in c'.blocks ==> m in c.blocks && c'.blocks[m] == c.blocks[m])
  }

  /** `c'` comes from `c` by what consumers do: they give back the blocks they finish. */
  ghost predicate Consumed<T>(c: Core<T>, c': Core<T>) { Progressed(c, c') && Total(c') == Total(c) }

  /** Where no element was finished, all blocks are where they were. */
  lemma NothingConsumed<T>(c: Core<T>, c': Core<T>)
    requires c.Valid() && c'.Valid() && Consumed(c, c') && c'.done == c.done
    ensures c'.blocks == c.blocks && c'.pool == c.pool
  {
    forall m | m in c.blocks
      ensures m in c'.blocks
    {
      assert c.NumberOk(m) && c'.NumberOk(m);
    }
    assert c'.blocks == c.blocks;
    forall x
      ensures x in c.pool <==> x in c'.pool
    {
      if x in c.blocks.Values {
        var m :| m in c.blocks && c.blocks[m] == x;
        assert c.NumberOk(m) && c'.NumberOk(m);
      }
      assert x in Total(c) <==> x in Total(c');
    }
  }

  // ---------------------------------------------------------------- the producer

  function CellAt<T>(cells: map<BlockId, seq<Option<T>>>, plan: map<nat, BlockId>, b: nat, i: nat): Option<T> {
    if b > 0 && i / b in plan && plan[i / b] in cells && |cells[plan[i / b]]| == b then cells[plan[i / b]][i % b] else None
  }

  /** `plan` adds a block for each block number that `n` more elements need. */
  ghost predicate Plans<T>(c: Core<T>, plan: map<nat, BlockId>, n: nat)
    requires c.b > 0
  {
    && (forall m :: m in c.blocks ==> m in plan && plan[m] == c.blocks[m])
    && (forall m :: m in plan <==> m in c.blocks || Blocks(c.tail, c.b) <= m < Blocks(c.tail + n, c.b))
    && Injective(plan)
    && forall m :: m in plan && m !in c.blocks ==> plan[m] !in c.pool && plan[m] in c.counts && c.counts[plan[m]] == 0
  }

  /** `cells` has the elements `xs` from index `start` in the blocks of `plan`, and is otherwise as `was`. */
  ghost predicate Filled<T>(cells: map<BlockId, seq<Option<T>>>, was: map<BlockId, seq<Option<T>>>, plan: map<nat, BlockId>, b: nat, start: nat, xs: seq<T>)
    requires b > 0
  {
    && (forall m :: m in plan ==> plan[m] in cells && |cells[plan[m]]| == b)
    && forall i: nat :: CellAt(cells, plan, b, i) == if start <= i < start + |xs| && i / b in plan then Some(xs[i - start]) else CellAt(was, plan, b, i)
  }

  /** The elements `xs` enqueued. */
  function Extended<T>(c: Core<T>, xs: seq<T>, plan: map<nat, BlockId>, cells: map<BlockId, seq<Option<T>>>): Core<T> {
    c.(tail := c.tail + |xs|, items := c.items + xs, blocks := plan, cells := cells)
  }

  lemma BlocksMonotone(x: nat, y: nat, b: nat)
    requires b > 0 && x <= y
    ensures Blocks(x, b) <= Blocks(y, b)
  {
    DivMonotone(x, y, b);
    assert x == b * (x / b) + x % b && y == b * (y / b) + y % b;
    if x / b == y / b {
      assert x % b <= y % b;
    }
  }

  lemma ExtendedNumber<T>(c: Core<T>, xs: seq<T>, plan: map<nat, BlockId>, cells: map<BlockId, seq<Option<T>>>, m: nat)
    requires c.Valid() && Plans(c, plan, |xs|) && Filled(cells, c.cells, plan, c.b, c.tail, xs)
    ensures Extended(c, xs, plan, cells).NumberOk(m)
  {
    assert c.NumberOk(m);
    BlocksMonotone(c.tail, c.tail + |xs|, c.b);
    InBlockCard(c.done, m, c.b);
    if Blocks(c.tail, c.b) <= m {
      forall i | i in c.done
        ensures i / c.b != m
      {
        IndexInBlocks(i, c.tail, c.b);
      }
      assert InBlock(c.done, m, c.b) == {};
    }
  }

  lemma ExtendedItem<T>(c: Core<T>, xs: seq<T>, plan: map<nat, BlockId>, cells: map<BlockId, seq<Option<T>>>, i: nat)
    requires c.Valid() && Plans(c, plan, |xs|) && Filled(cells, c.cells, plan, c.b, c.tail, xs)
    ensures Extended(c, xs, plan, cells).ItemOk(i)
  {
    var c' := Extended(c, xs, plan, cells);
    if i < c'.tail && i !in c.done {
      assert c.ItemOk(i);
      assert c.NumberOk(i / c.b);
      InBlockCard(c.done, i / c.b, c.b);
      IndexInBlocks(i, c'.tail, c.b);
      assert i / c.b in plan;
      assert CellAt(cells, plan, c.b, i) == Some(c'.items[i]);
    }
  }

  lemma ExtendedValid<T>(c: Core<T>, xs: seq<T>, plan: map<nat, BlockId>, cells: map<BlockId, seq<Option<T>>>)
    requires c.Valid() && Plans(c, plan, |xs|) && Filled(cells, c.cells, plan, c.b, c.tail, xs)
    ensures Extended(c, xs, plan, cells).Valid()
  {
    var c' := Extended(c, xs, plan, cells);
    forall m: nat
      ensures c'.NumberOk(m)
    {
      ExtendedNumber(c, xs, plan, cells, m);
    }
    forall i: nat
      ensures c'.ItemOk(i)
    {
      ExtendedItem(c, xs, plan, cells, i);
    }
  }

  // ---------------------------------------------------------------- blocks and the index

  /** The index has the blocks of `plan`. */
  ghost predicate Holds(plan: map<nat, BlockId>, ix: Ix)
    requires ix.Valid()
  {
    forall m :: m in plan ==>
      && ix.lo <= m < ix.hi && ix.HeaderOk(ix.Last())
      && ix.values[ix.EntryAt(ix.Last(), m)] == Some(plan[m])
  }

  /** The slots of the numbers from `from` up to `to` that are not of `plan` have no block. */
  ghost predicate FreeElsewhere(plan: map<nat, BlockId>, ix: Ix, from: int, to: int)
    requires ix.Valid() && ix.headers != []
  {
    forall m: int :: from <= m < to && m !in plan ==> ix.HeaderOk(ix.Last()) && ix.Free(ix.EntryAt(ix.Last(), m))
  }

  /** The index has exactly the blocks of `plan`. */
  ghost predicate Tight(plan: map<nat, BlockId>, ix: Ix)
    requires ix.Valid()
  {
    && Holds(plan, ix)
    && (ix.headers != [] ==> FreeElsewhere(plan, ix, ix.hi - ix.Capacity(ix.Last()), ix.hi))
  }

  /** The slot for the next block number is taken only if the index is full. */
  lemma TightFits(plan: map<nat, BlockId>, ix: Ix)
    requires ix.Valid() && Tight(plan, ix) && ix.headers != []
    ensures Fits(ix) || Crowded(ix)
  {
    var n := ix.Last();
    var c := ix.Capacity(n);
    assert ix.HeaderOk(n);
    SlotAhead(ix.hi - c, c, ix.places[n].shift, c);
    assert ix.EntryAt(n, ix.hi - c) == ix.EntryAt(n, ix.hi);
  }

  /** The slot for the next number is free exactly when the number one turn below has no block. */
  lemma FitsExactly(plan: map<nat, BlockId>, ix: Ix)
    requires ix.Valid() && Tight(plan, ix) && ix.headers != []
    ensures Fits(ix) <==> ix.hi - ix.Capacity(ix.Last()) !in plan
  {
    var n := ix.Last();
    var c := ix.Capacity(n);
    assert ix.HeaderOk(n);
    SlotAhead(ix.hi - c, c, ix.places[n].shift, c);
    assert ix.EntryAt(n, ix.hi - c) == ix.EntryAt(n, ix.hi);
    if ix.hi - c in plan {
      assert ix.nums[ix.EntryAt(n, ix.hi - c)] == ix.hi - c;
    }
  }

  lemma AddedHolds(plan: map<nat, BlockId>, ix: Ix, garbage: seq<Option<BlockId>>)
    requires ix.Valid() && Tight(plan, ix) && ix.headers != [] && (Fits(ix) || Crowded(ix))
    ensures Added(ix, garbage).Valid() && Holds(plan, Added(ix, garbage))
  {
    AddedKeeps(ix, garbage);
    var ix', n := Added(ix, garbage), ix.Last();
    var c := ix.Capacity(n);
    assert ix.HeaderOk(n) && ix'.HeaderOk(ix'.Last());
    SlotAhead(ix.hi - c, c, ix.places[n].shift, c);
    assert ix.EntryAt(n, ix.hi - c) == ix.EntryAt(n, ix.hi);
    forall m | m in plan
      ensures ix'.lo <= m < ix'.hi && ix'.values[ix'.EntryAt(ix'.Last(), m)] == Some(plan[m])
    {
      assert ix.nums[ix.EntryAt(n, m)] == m;
      AddedEntry(ix, garbage, m);
    }
  }

  lemma AddedFree(plan: map<nat, BlockId>, ix: Ix, garbage: seq<Option<BlockId>>)
    requires ix.Valid() && Tight(plan, ix) && ix.headers != [] && (Fits(ix) || Crowded(ix))
    requires Added(ix, garbage).Valid()
    ensures var ix' := Added(ix, garbage); FreeElsewhere(plan, ix', ix'.hi - ix'.Capacity(ix'.Last()), ix.hi)
  {
    var ix' := Added(ix, garbage);
    assert ix'.HeaderOk(ix'.Last());
    forall m: int | ix'.hi - ix'.Capacity(ix'.Last()) <= m < ix.hi && m !in plan
      ensures ix'.Free(ix'.EntryAt(ix'.Last(), m))
    {
      AddedEntry(ix, garbage, m);
    }
  }

  /** Storing a block for the newest number. */
  lemma StoredTight(plan: map<nat, BlockId>, ix: Ix, ix': Ix, block: BlockId)
    requires ix.Valid() && ix'.Valid() && ix.headers != [] && ix.lo < ix.hi && Holds(plan, ix) && ix.hi - 1 !in plan
    requires ix.HeaderOk(ix.Last()) && FreeElsewhere(plan, ix, ix.hi - ix.Capacity(ix.Last()), ix.hi - 1)
    requires ix' == ix.(values := ix.values[ix.EntryAt(ix.Last(), ix.hi - 1) := Some(block)])
    ensures Tight(plan[ix.hi - 1 := block], ix')
  {
    var n, top := ix.Last(), ix.hi - 1;
    assert ix'.HeaderOk(n);
    forall m: int | ix.hi - ix.Capacity(n) <= m < top
      ensures ix.EntryAt(n, m) != ix.EntryAt(n, top)
    {
      ix.EntriesDiffer(n, m, top);
    }
  }

  /** Taking the newest number back. */
  lemma WithdrawnTight(plan: map<nat, BlockId>, ix: Ix, ix': Ix)
    requires ix.Valid() && ix'.Valid() && ix.headers != [] && ix.lo < ix.hi && Holds(plan, ix) && ix.hi - 1 !in plan
    requires ix.HeaderOk(ix.Last()) && FreeElsewhere(plan, ix, ix.hi - ix.Capacity(ix.Last()), ix.hi - 1)
    requires ix' == Rewound(ix).(values := ix.values[ix.EntryAt(ix.Last(), ix.hi - 1) := None])
    ensures Tight(plan, ix')
  {
    var n, top := ix.Last(), ix.hi - 1;
    var c := ix.Capacity(n);
    assert ix'.HeaderOk(n);
    forall m: int | ix.hi - c <= m < top
      ensures ix.EntryAt(n, m) != ix.EntryAt(n, top)
    {
      ix.EntriesDiffer(n, m, top);
    }
    SlotAhead(top - c, c, ix.places[n].shift, c);
    assert ix'.EntryAt(n, top - c) == ix.EntryAt(n, top);
    forall m: int | ix'.hi - c <= m < ix'.hi && m !in plan
      ensures ix'.Free(ix'.EntryAt(n, m))
    {
      if m != top - c {
        assert ix.Free(ix.EntryAt(n, m));
      }
    }
  }

  /** Removing the block of a number from its entry. */
  lemma ReleasedTight(plan: map<nat, BlockId>, ix: Ix, ix': Ix, m: nat)
    requires ix.Valid() && ix'.Valid() && Tight(plan, ix) && m in plan
    requires ix.HeaderOk(ix.Last()) && ix' == ix.(values := ix.values[ix.EntryAt(ix.Last(), m) := None])
    ensures Tight(plan - {m}, ix')
  {
    var n := ix.Last();
    assert ix'.HeaderOk(n);
    forall k | k in plan && k != m
      ensures ix.EntryAt(n, k) != ix.EntryAt(n, m)
    {
      assert ix.nums[ix.EntryAt(n, k)] == k && ix.nums[ix.EntryAt(n, m)] == m;
    }
  }

  // ---------------------------------------------------------------- undoing

  /** `j` of the numbers from `n` up to `top` are withdrawn from the index tail, and the lowest `j` of them
      have lost their blocks; `blocks` are as they were. */
  ghost predicate Undone(blocks: map<nat, BlockId>, ix: Ix, n: nat, top: nat, j: nat) {
    && ix.Valid() && ix.headers != [] && ix.HeaderOk(ix.Last()) && j <= top - n
    && ix.hi == top - j && ix.lo <= n && top - ix.lo <= ix.Capacity(ix.Last())
    && (forall m :: m in blocks ==> m < n) && Holds(blocks, ix)
    && FreeElsewhere(blocks, ix, top - ix.Capacity(ix.Last()), n)
    && FreeElsewhere(map[], ix, n, n + j)
  }

  lemma UndoStart(blocks: map<nat, BlockId>, extra: map<nat, BlockId>, ix: Ix, n: nat)
    requires ix.Valid() && Tight(blocks + extra, ix) && n < ix.hi
    requires (forall m :: m in blocks ==> m < n) && forall m :: m in extra <==> n <= m < ix.hi
    ensures Undone(blocks, ix, n, ix.hi, 0)
  {
    var plan := blocks + extra;
    assert n in plan && ix.HeaderOk(ix.Last());
    forall m | m in blocks
      ensures m in plan && plan[m] == blocks[m]
    {
    }
    forall m: int | ix.hi - ix.Capacity(ix.Last()) <= m < n && m !in blocks
      ensures ix.Free(ix.EntryAt(ix.Last(), m))
    {
      assert m !in plan;
    }
  }

  lemma UndoStep(blocks: map<nat, BlockId>, ix: Ix, ix': Ix, n: nat, top: nat, j: nat)
    requires Undone(blocks, ix, n, top, j) && j < top - n && ix'.Valid()
    requires ix' == Rewound(ix).(values := ix.values[ix.EntryAt(ix.Last(), n + j) := None])
    ensures Undone(blocks, ix', n, top, j + 1)
  {
    var last := ix.Last();
    assert ix'.HeaderOk(last);
    forall m | m in blocks
      ensures ix.EntryAt(last, m) != ix.EntryAt(last, n + j)
    {
      ix.EntriesDiffer(last, m, n + j);
    }
  }

  /** Undoing all the numbers leaves the index with exactly the blocks it had before. */
  lemma UndoEnd(blocks: map<nat, BlockId>, ix: Ix, n: nat, top: nat)
    requires n <= top && Undone(blocks, ix, n, top, top - n)
    ensures Tight(blocks, ix) && ix.hi == n
  {
    var last := ix.Last();
    var c := ix.Capacity(last);
    forall m: int | n - c <= m < n && m !in blocks
      ensures ix.Free(ix.EntryAt(last, m))
    {
      if m < top - c {
        SlotAhead(m, c, ix.places[last].shift, c);
        assert ix.EntryAt(last, m) == ix.EntryAt(last, m + c);
        assert ix.Free(ix.EntryAt(last, m + c));
      }
    }
  }

  // ---------------------------------------------------------------- the object

  /** Slot `s` of header `k`, loaded at any earlier time, is that of index `i`, and the header has the blocks of
      all indices from there up to `end`. */
  ghost predicate OnWalk(ix: Ix, b: nat, k: nat, s: nat, i: nat, end: nat)
    requires b > 0 && i <= end
  {
    && ix.Shaped() && k < |ix.headers| && ix.HeaderOk(k)
    && (i < end ==> s == ix.SlotOf(k, i / b) && ix.Reaches(k, (end - 1) / b))
  }

  /** Nothing that the producer or other consumers do disturbs a walk from slot to slot: the header keeps its
      slots, and is not outgrown before it has all the blocks there are. */
  lemma WalkKept(ix: Ix, ix': Ix, n: nat, b: nat, k: nat, s: nat, i: nat, end: nat)
    requires ix.Valid() && ix'.Valid() && Keeps(ix, ix', n)
    requires b > 0 && i <= end && OnWalk(ix, b, k, s, i, end) && (i < end ==> (end - 1) / b < n)
    ensures OnWalk(ix', b, k, s, i, end)
  {
    assert HeaderKept(ix, ix', k, n) && ix'.HeaderOk(k);
  }

  lemma WalkOn(ix: Ix, ix': Ix, b: nat, k: nat, s: nat, i: nat, n: nat, end: nat, s': nat)
    requires ix'.Valid() && ix' == ix.(values := ix'.values)
    requires b > 0 && i < end && n <= end - i && OnWalk(ix, b, k, s, i, end)
    requires n < end - i ==> s' == ix.SlotOf(k, (i + n) / b)
    ensures OnWalk(ix', b, k, s', i + n, end)
  {
    assert ix'.HeaderOk(k);
  }

  /** What consumers do between two steps of the producer: claim `n` more indices, or finish `n` elements. */
  datatype Act = Claim(n: nat) | Finish(start: nat, n: nat)

  /** What others do between two steps of a bulk dequeue. */
  datatype Other<T> =
    | Consumer(act: Act)
    | Single(x: T, canAlloc: bool, supply: Supply)
    | Bulk(xs: seq<T>, canAlloc: bool, supplies: seq<Supply>)

  /** What the surroundings do for the next block: consumers' acts, then whether memory for a larger index
      is granted and what is in it, and the block from the pool, if any. */
  datatype Supply = Supply(acts: seq<Act>, granted: bool, garbage: seq<Option<BlockId>>, choice: Option<BlockId>)

  /** What is supplied for the `j`-th block: no block when nothing more is said. */
  function At(supply: seq<Supply>, j: nat): Supply {
    if j < |supply| then supply[j] else Supply([], false, [], None)
  }

  predicate NoActs(supply: seq<Supply>) { forall j :: 0 <= j < |supply| ==> supply[j].acts == [] }

  /** The guard allows a block with this base, and the pool gives one. */
  predicate CanHave(base: int, supply: Supply, head: nat, b: nat, limit: WrapAround.Limit, pool: set<BlockId>) {
    base >= 0 && !WrapAround.Refused(base, head, b, limit) && supply.choice.Some? && supply.choice.value in pool
  }

  /** The slot of the `j`-th new number, counting from `n`, has a block already: with `capacity` slots it is that
      of the number one turn below. */
  predicate SlotTaken(blocks: map<nat, BlockId>, n: nat, j: nat, capacity: nat) {
    capacity <= j || n + j - capacity in blocks
  }

  /** How many slots the index has when the `j`-th new number is put in: it is doubled when one is taken. */
  function CapacityAt(blocks: map<nat, BlockId>, n: nat, capacity: nat, j: nat): nat {
    if j == 0 then capacity
    else
      var c := CapacityAt(blocks, n, capacity, j - 1);
      if SlotTaken(blocks, n, j - 1, c) then 2 * c else c
  }

  /** Where all slots are free the index need not grow. */
  lemma {:induction false} NoGrowth(blocks: map<nat, BlockId>, n: nat, capacity: nat, j: nat)
    requires forall i :: 0 <= i < j ==> !SlotTaken(blocks, n, i, capacity)
    ensures CapacityAt(blocks, n, capacity, j) == capacity
  {
    if j > 0 {
      NoGrowth(blocks, n, capacity, j - 1);
    }
  }

  /** The `i`-th block is the one supplied for it. */
  ghost predicate Chose(supply: seq<Supply>, n: nat, i: nat, extra: map<nat, BlockId>) {
    n + i in extra && At(supply, i).choice == Some(extra[n + i])
  }

  /** The blocks supplied before the `j`-th. */
  ghost function Chosen(supply: seq<Supply>, j: nat): set<BlockId> {
    set i | 0 <= i < j && At(supply, i).choice.Some? :: At(supply, i).choice.value
  }

  /** With head, blocks and pool as in `c`, something stands in the way of the `j`-th block of a bulk enqueue that
      starts with number `n`: the guard, a pool without the block, or a taken slot and an index that may not grow. */
  ghost predicate Stopped<T>(c: Core<T>, limit: WrapAround.Limit, capacity: nat, canAlloc: bool, supply: seq<Supply>, n: nat, j: nat) {
    || !CanHave(Base(c.b, n + j), At(supply, j), c.head, c.b, limit, c.pool - Chosen(supply, j))
    || (SlotTaken(c.blocks, n, j, capacity) && !(canAlloc && At(supply, j).granted))
  }

  /** Undisturbed, the `j`-th block is stopped in an index that has grown for those before it as needed. */
  ghost predicate StoppedAt<T>(c: Core<T>, limit: WrapAround.Limit, capacity: nat, canAlloc: bool, supply: seq<Supply>, n: nat, j: nat) {
    Stopped(c, limit, CapacityAt(c.blocks, n, capacity, j), canAlloc, supply, n, j)
  }

  lemma ChosenAre(supply: seq<Supply>, n: nat, j: nat, extra: map<nat, BlockId>)
    requires forall m :: m in extra <==> n <= m < n + j
    requires forall i :: 0 <= i < j ==> Chose(supply, n, i, extra)
    ensures Chosen(supply, j) == extra.Values
  {
    forall x | x in extra.Values
      ensures x in Chosen(supply, j)
    {
      var m :| m in extra && extra[m] == x;
      assert Chose(supply, n, m - n, extra);
    }
    forall x | x in Chosen(supply, j)
      ensures x in extra.Values
    {
      var i :| 0 <= i < j && At(supply, i).choice == Some(x);
      assert Chose(supply, n, i, extra);
    }
  }

  /** A block taken from the pool and cleared. */
  function Reserved<T>(c: Core<T>, block: BlockId): Core<T> {
    c.(pool := c.pool - {block}, counts := c.counts[block := 0], cells := c.cells[block := seq(c.b, _ => None)])
  }

  lemma ReservedValid<T>(c: Core<T>, block: BlockId)
    requires c.Valid() && block in c.pool
    ensures Reserved(c, block).Valid() && Progressed(c, Reserved(c, block))
    ensures forall m :: m in c.blocks ==> c.blocks[m] != block
  {
    var c' := Reserved(c, block);
    forall m: nat
      ensures c'.NumberOk(m) && (m in c.blocks ==> c.blocks[m] != block)
    {
      assert c.NumberOk(m);
    }
    forall i: nat
      ensures c'.ItemOk(i)
    {
      assert c.ItemOk(i);
      assert c.NumberOk(i / c.b);
    }
  }

  /** `extra` has a block, taken from the pool and cleared, for each number from the tail up to `hi`. */
  ghost predicate ExtraOk<T>(c: Core<T>, extra: map<nat, BlockId>, hi: nat)
    requires c.b > 0
  {
    && (forall m :: m in extra <==> Blocks(c.tail, c.b) <= m < hi)
    && Injective(c.blocks + extra)
    && forall m :: m in extra ==>
         && extra[m] !in c.pool && extra[m] in c.counts && c.counts[extra[m]] == 0
         && extra[m] in c.cells && |c.cells[extra[m]]| == c.b
  }

  /** Numbers in use and numbers of a bulk enqueue under way do not overlap. */
  lemma ExtraApart<T>(c: Core<T>, extra: map<nat, BlockId>, hi: nat, m: nat)
    requires c.Valid() && ExtraOk(c, extra, hi) && m in c.blocks
    ensures m !in extra && m in c.blocks + extra && (c.blocks + extra)[m] == c.blocks[m]
    ensures forall k :: k in extra ==> extra[k] != c.blocks[m]
  {
    assert c.NumberOk(m);
    forall k | k in extra
      ensures extra[k] != c.blocks[m]
    {
      assert Apart(c.blocks + extra, m, k);
    }
  }

  lemma {:induction false} TakenExtra<T>(c: Core<T>, extra: map<nat, BlockId>, hi: nat, start: nat, n: nat)
    requires c.Valid() && ExtraOk(c, extra, hi) && start / c.b in c.blocks && c.blocks[start / c.b] in c.counts
    ensures ExtraOk(Taken(c, start, n), extra, hi)
    ensures (c.blocks - {start / c.b}) + extra == (c.blocks + extra) - {start / c.b}
  {
    ExtraApart(c, extra, hi, start / c.b);
    InjectivePart(c.blocks + extra, (c.blocks + extra) - {start / c.b});
    assert (c.blocks - {start / c.b}) + extra == (c.blocks + extra) - {start / c.b};
  }

  lemma EmptyValid<T>(c: Core<T>)
    requires c.b > 1 && c.tail == c.head == 0 && c.items == [] && c.done == {} && c.blocks == map[]
    ensures c.Valid()
  {
  }

  lemma FirstTight(capacity: nat, garbage: seq<Option<BlockId>>)
    requires capacity > 0
    ensures First(capacity, garbage).Valid() && Tight(map[], First(capacity, garbage))
  {
    FirstValid(capacity, garbage);
    assert First(capacity, garbage).HeaderOk(0);
  }

  // ---------------------------------------------------------------- filling blocks

  lemma FilledMore<T>(cells: map<BlockId, seq<Option<T>>>, was: map<BlockId, seq<Option<T>>>, plan: map<nat, BlockId>, b: nat, start: nat, xs: seq<T>, x: T)
    requires b > 0 && Filled(cells, was, plan, b, start, xs) && Injective(plan) && (start + |xs|) / b in plan
    ensures var i := start + |xs|; var block := plan[i / b];
            Filled(cells[block := cells[block][i % b := Some(x)]], was, plan, b, start, xs + [x])
  {
    var i := start + |xs|;
    var block := plan[i / b];
    var cells' := cells[block := cells[block][i % b := Some(x)]];
    forall j: nat
      ensures CellAt(cells', plan, b, j) == if start <= j < i + 1 && j / b in plan then Some((xs + [x])[j - start]) else CellAt(was, plan, b, j)
    {
      assert CellAt(cells, plan, b, j) == if start <= j < i && j / b in plan then Some(xs[j - start]) else CellAt(was, plan, b, j);
      if j / b in plan && plan[j / b] == block && j % b == i % b {
        assert Apart(plan, i / b, j / b);
        SamePlace(i, j, b);
      }
    }
  }

  /** The last of the blocks that hold `end` elements. */
  lemma BlocksBound(end: nat, b: nat)
    requires b > 0 && end > 0
    ensures Blocks(end, b) > 0 && b * (Blocks(end, b) - 1) < end <= b * (Blocks(end, b) - 1) + b
  {
    var q, r := end / b, end % b;
    assert end == b * q + r;
    if r == 0 {
      assert b * (q - 1) == b * q - b;
    }
  }

  /** The blocks of the numbers from `n` up to `hi` hang together by their `next` links. */
  ghost predicate Linked(next: map<BlockId, Option<BlockId>>, extra: map<nat, BlockId>, n: nat, hi: nat) {
    && (forall m :: n <= m < hi ==> m in extra && extra[m] in next)
    && (forall m :: n <= m < hi - 1 ==> Follows(next, extra, m))
  }

  ghost predicate Follows(next: map<BlockId, Option<BlockId>>, extra: map<nat, BlockId>, m: nat) {
    m in extra && m + 1 in extra && extra[m] in next && next[extra[m]] == Some(extra[m + 1])
  }

  /** Where the filling of a block stops, and which block comes next (2711-2714). */
  lemma StopIndex(i: nat, end: nat, b: nat)
    requires b > 0 && i < end
    ensures i / b < Blocks(end, b)
    ensures var stop := WrapAround.BlockBase(i, b) + b;
            && i < stop == Base(b, i / b) + b
            && (i / b == Blocks(end, b) - 1 ==> end <= stop)
            && (i / b < Blocks(end, b) - 1 ==> stop < end && stop / b == i / b + 1)
  {
    var q, n := i / b, Blocks(end, b);
    BlocksBound(end, b);
    IndexInBlocks(i, end, b);
    assert i == b * q + i % b;
    if q < n - 1 {
      WrapAround.MulMonotone(b, q + 1, n - 1);
      assert b * (q + 1) == b * q + b;
      WrapAround.DivModUnique(b * (q + 1), b, q + 1, 0);
    }
  }

  class Producer<T> {
    const b: nat                          // BLOCK_SIZE
    const limit: WrapAround.Limit         // MAX_SUBQUEUE_SIZE
    const index: BlockIndex
    var tailIndex: nat
    var headIndex: nat
    var tailBlock: Option<BlockId>
    var cells: map<BlockId, seq<Option<T>>>
    var counts: map<BlockId, nat>         // elementsCompletelyDequeued
    var next: map<BlockId, Option<BlockId>>
    var pool: set<BlockId>                // the parent's blocks that no producer has
    ghost var blocks: map<nat, BlockId>
    ghost var extra: map<nat, BlockId>    // blocks got by a bulk enqueue that is still under way
    var done: set<nat>                    // consumers know which elements are theirs
    ghost var items: seq<T>

    ghost function View(): Core<T>
      reads this`headIndex, this`tailIndex, this`cells, this`counts, this`blocks, this`pool, this`items, this`done
    {
      Core(b, tailIndex, headIndex, cells, counts, blocks, pool, items, done)
    }

    /** Holds between any two steps, also within a bulk enqueue. */
    ghost predicate Valid()
      reads this`headIndex, this`tailIndex, this`cells, this`counts, this`blocks, this`pool, this`items, this`done, this`extra, index
    {
      && View().Valid() && index.Valid() && index.b == b && Blocks(tailIndex, b) <= index.hi
      && ExtraOk(View(), extra, index.hi) && Tight(blocks + extra, index.View())
    }

    predicate AtBlockEnd()
      reads this`tailIndex
    {
      b > 0 && tailIndex % b == 0
    }

    /** `block` is the one being filled, if that is not full. */
    ghost predicate IsTail(block: Option<BlockId>)
      reads this`tailIndex, this`blocks
    {
      b > 0 && (!AtBlockEnd() ==> tailIndex / b in blocks && block == Some(blocks[tailIndex / b]))
    }

    /** No enqueue is under way. */
    ghost predicate Quiet()
      reads this, index
    {
      && Valid() && extra == map[] && index.hi == Blocks(tailIndex, b)
      && IsTail(tailBlock)
    }

    constructor (blockSize: nat, limit: WrapAround.Limit, initialCapacity: nat, granted: bool, garbage: seq<Option<BlockId>>, pool: set<BlockId>)
      requires blockSize > 1 && initialCapacity > 0
      ensures Quiet() && fresh(index) && items == [] && headIndex == 0 && this.pool == pool && b == blockSize && this.limit == limit
    {
      b, this.limit := blockSize, limit;
      var ix := new BlockIndex(blockSize, initialCapacity, granted, garbage);
      index := ix;
      tailIndex, headIndex, tailBlock := 0, 0, None;
      cells, counts, next, this.pool := map[], map[], map[], pool;
      blocks, extra, items, done := map[], map[], [], {};
      new;
      EmptyValid(View());
      if granted {
        FirstTight(initialCapacity, garbage);
      }
      assert blocks + extra == map[];
    }

    // -------------------------------------------------------------- consumers

    method ClaimNext(n: nat) returns (first: nat)
      requires Valid() && headIndex + n <= tailIndex
      modifies this`headIndex
      ensures Valid() && first == old(headIndex) && View() == old(View()).(head := first + n)
    {
      first := headIndex;
      headIndex := headIndex + n;
      ghost var c := View();
      forall m: nat
        ensures c.NumberOk(m)
      {
        assert old(View()).NumberOk(m);
      }
      forall i: nat
        ensures c.ItemOk(i)
      {
        assert old(View()).ItemOk(i);
      }
    }

    /** A consumer moves out `n` elements of one block, found through slot `s` of header `k`, and marks
        them; the last to do so empties the entry and gives the block back (2566-2609, 2812-2867). */
    method Take(k: nat, s: nat, start: nat, n: nat) returns (xs: seq<T>)
      requires Valid() && Owned(View(), start, n)
      requires index.View().Reaches(k, start / b) && index.View().HeaderOk(k) && s == index.View().SlotOf(k, start / b)
      modifies this`counts, this`pool, this`blocks, this`done, index`values
      ensures xs == items[start..start + n]
      ensures old(View()).NumberOk(start / b) && start / b in old(blocks) && View() == Taken(old(View()), start, n)
      ensures done == old(done) + Range(start, n) && Consumed(old(View()), View())
      ensures Valid() && index.View() == old(index.View()).(values := index.values)
    {
      TakenValid(View(), start, n);
      var entry, block := Locate(k, s, start / b);
      xs := Read(block, start, n);
      Mark(entry, block, start, n);
    }

    /** The dequeues of `dequeue_bulk` (2803-2871): one search, then slot after slot of the same header, which
        may long be outgrown. After each block everybody else may act as in `others`. */
    method TakeAll(first: nat, count: nat, others: seq<seq<Other<T>>>) returns (xs: seq<T>)
      requires Quiet() && count > 0 && first + count <= headIndex && done !! Range(first, count)
      modifies this, index
      ensures Quiet() && xs == old(items)[first..first + count]
      ensures old(items) <= items && old(done) + Range(first, count) <= done && Total(View()) == Total(old(View()))
      ensures others == [] ==> done == old(done) + Range(first, count) && Consumed(old(View()), View())
    {
      hide Walked;
      ghost var c := View();
      HeadBelowTail();
      var end := first + count;
      var k, s := StartWalk(first, end, others == []);
      var i, j := first, 0;
      xs := [];
      while i != end
        invariant first <= i <= end && xs == c.items[first..i]
        invariant Walked(c, others == [], first, i, end, k, s)
        decreases end - i
      {
        var part;
        part, s := TakeNext(k, s, i, end, first, c, others == []);
        xs := xs + part;
        i := i + |part|;
        if j < |others| {
          Meanwhile(others[j], k, s, i, end, first, c);
        }
        j := j + 1;
      }
      WalkDone(c, others == [], first, end, k, s);
    }

    /** The consumer, which began in `c`, has the elements from `first` up to `i`. */
    ghost predicate Walked(c: Core<T>, alone: bool, first: nat, i: nat, end: nat, k: nat, s: nat)
      requires first <= i <= end
      reads this, index
    {
      && Quiet() && Walking(k, s, i, end) && c.items <= items && end <= |c.items|
      && c.done + Range(first, i - first) <= done && Total(View()) == Total(c)
      && (alone ==> done == c.done + Range(first, i - first) && Consumed(c, View()))
    }

    lemma WalkDone(c: Core<T>, alone: bool, first: nat, end: nat, k: nat, s: nat)
      requires first <= end && Walked(c, alone, first, end, end, k, s)
      ensures Quiet() && c.items <= items && c.done + Range(first, end - first) <= done && Total(View()) == Total(c)
      ensures alone ==> done == c.done + Range(first, end - first) && Consumed(c, View())
    {
    }

    lemma HeadBelowTail()
      requires View().Valid()
      ensures headIndex <= tailIndex == |items|
    {
    }

    /** A consumer that has claimed the elements from `i` up to `end` goes on. */
    ghost predicate Walking(k: nat, s: nat, i: nat, end: nat)
      requires i <= end
      reads this`headIndex, this`done, index
    {
      b > 0 && end <= headIndex && done !! Range(i, end - i) && OnWalk(index.View(), b, k, s, i, end)
    }

    method StartWalk(first: nat, end: nat, ghost alone: bool) returns (k: nat, s: nat)
      requires Quiet() && first < end <= headIndex && done !! Range(first, end - first)
      ensures Walked(View(), alone, first, first, end, k, s)
    {
      assert first in Range(first, end - first);
      k, s := Search(first);
    }

    /** Nothing is under way after consumers acted, if nothing was before. */
    twostate lemma StillQuiet()
      requires old(Quiet()) && Valid() && Consumed(old(View()), View())
      requires extra == old(extra) && tailBlock == old(tailBlock) && index.hi == old(index.hi)
      ensures Quiet()
    {
      if !AtBlockEnd() {
        TailInUse(View());
      }
    }

    method TakeNext(k: nat, s: nat, i: nat, end: nat, ghost first: nat, ghost c: Core<T>, ghost alone: bool) returns (part: seq<T>, s': nat)
      requires first <= i < end && Walked(c, alone, first, i, end, k, s)
      modifies this`counts, this`pool, this`blocks, this`done, index`values
      ensures 0 < |part| <= end - i && end <= |c.items| && part == c.items[i..i + |part|]
      ensures Walked(c, alone, first, i + |part|, end, k, s')
    {
      hide Core.Valid, Ix.Valid, Ix.HeaderOk, Tight, ExtraOk, Walking;
      part, s' := TakePart(k, s, i, end);
      StillQuiet();
      RangesMeet(c.done, first, i - first, |part|);
    }

    method Meanwhile(acts: seq<Other<T>>, ghost k: nat, ghost s: nat, i: nat, end: nat, ghost first: nat, ghost c: Core<T>)
      requires first <= i <= end && Walked(c, false, first, i, end, k, s)
      modifies this, index
      ensures Walked(c, false, first, i, end, k, s)
    {
      hide Walked;
      for j := 0 to |acts|
        invariant Walked(c, false, first, i, end, k, s)
      {
        ElseWhile(acts[j], k, s, i, end, first, c);
      }
    }

    method ElseWhile(o: Other<T>, ghost k: nat, ghost s: nat, i: nat, end: nat, ghost first: nat, ghost c: Core<T>)
      requires first <= i <= end && Walked(c, false, first, i, end, k, s)
      modifies this, index
      ensures Walked(c, false, first, i, end, k, s)
    {
      hide Core.Valid, Total, Keeps, OnWalk;
      ghost var ix := index.View();
      HeadBelowTail();
      if i < end {
        IndexInBlocks(end - 1, tailIndex, b);
      }
      Else(o, i, end - i);
      WalkKept(ix, index.View(), ix.hi, b, k, s, i, end);
    }

    /** What somebody else does, leaving alone the `n` elements from `i` on. */
    method Else(o: Other<T>, i: nat, n: nat)
      requires Quiet() && done !! Range(i, n)
      modifies this, index
      ensures Quiet() && Keeps(old(index.View()), index.View(), old(index.hi)) && done !! Range(i, n)
      ensures old(items) <= items && old(headIndex) <= headIndex && old(done) <= done && Total(View()) == Total(old(View()))
    {
      hide Core.Valid, Ix.Valid, Ix.HeaderOk, Tight, ExtraOk, Total, Keeps;
      KeepsSame(index.View(), index.hi);
      match o
      case Consumer(act) =>
        if act.Claim? || Range(act.start, act.n) !! Range(i, n) {
          ghost var ix := index.View();
          One(act);
          KeepsValues(ix, index.View(), ix.hi);
          StillQuiet();
        }
      case Single(x, canAlloc, supply) =>
        var ok := Enqueue(x, canAlloc, supply);
      case Bulk(xs, canAlloc, supplies) =>
        if NoActs(supplies) {
          var ok := EnqueueBulk(xs, canAlloc, supplies);
        }
    }

    /** `get_block_index_index_for_index` (2948-2964), starting with the newest header. */
    method Search(i: nat) returns (k: nat, s: nat)
      requires Valid() && i < headIndex && i !in done
      ensures k == index.View().Last() && index.View().HeaderOk(k) && s == index.View().SlotOf(k, i / b)
    {
      InUse(i);
      k := |index.headers| - 1;
      var t := index.LoadTail(k, i / b);
      s := index.FindSlot(k, t, i);
    }

    /** As many of the elements up to `end` as are in one block, and the slot of the next block. */
    method TakePart(k: nat, s: nat, i: nat, end: nat) returns (part: seq<T>, s': nat)
      requires Valid() && i < end && Walking(k, s, i, end)
      modifies this`counts, this`pool, this`blocks, this`done, index`values
      ensures Valid() && 0 < |part| <= end - i && part == items[i..i + |part|] && done == old(done) + Range(i, |part|)
      ensures Consumed(old(View()), View()) && headIndex == old(headIndex)
      ensures index.View() == old(index.View()).(values := index.values)
      ensures Walking(k, s', i + |part|, end)
    {
      hide Core.Valid, Ix.Valid, Ix.HeaderOk, Tight, ExtraOk, OnWalk, Owned, Injective, Progressed, Total, Taken;
      ghost var ix := index.View();
      PartReady(k, s, i, end);
      var n;
      n, s' := NextPart(k, s, i, end - i);
      PartOwned(i, n, end);
      part := Take(k, s, i, n);
      RangeRest(old(done), i, n, end - i);
      WalkOn(ix, index.View(), b, k, s, i, n, end, s');
    }

    lemma PartReady(k: nat, s: nat, i: nat, end: nat)
      requires Valid() && i < end && Walking(k, s, i, end)
      ensures index.View().Reaches(k, i / b) && index.View().HeaderOk(k) && s == index.View().SlotOf(k, i / b)
      ensures end <= |items|
    {
      hide Core.NumberOk, Core.ItemOk;
      DivMonotone(i, end - 1, b);
    }

    lemma PartOwned(i: nat, n: nat, end: nat)
      requires b > 0 && 0 < n <= end - i && i % b + n <= b && end <= headIndex && done !! Range(i, end - i)
      ensures Owned(View(), i, n)
    {
      RangePart(i, n, end - i);
    }

    /** The size of the part of the block of `i`, and the slot of the block after it. */
    method NextPart(k: nat, s: nat, i: nat, count: nat) returns (n: nat, s': nat)
      requires b > 0 && count > 0 && index.Valid()
      requires k < |index.headers| && index.View().HeaderOk(k) && s == index.View().SlotOf(k, i / b)
      ensures 0 < n <= count && i % b + n <= b && (n < count ==> s' == index.View().SlotOf(k, (i + n) / b))
    {
      n := PartSize(i, count);
      s' := NextSlot(k, s, i / b);
    }

    /** How many of the next `count` elements are in the block of `i` (2808-2810). */
    method PartSize(i: nat, count: nat) returns (n: nat)
      requires b > 0 && count > 0
      ensures 0 < n <= count && i % b + n <= b && (n < count ==> (i + n) / b == i / b + 1)
    {
      var endIndex: int := WrapAround.BlockBase(i, b) + b;
      EndOfBlock(i, b);
      if i + count < endIndex {
        endIndex := i + count;
      }
      n := endIndex - i;
    }

    method NextSlot(k: nat, s: nat, ghost m: nat) returns (s': nat)
      requires index.Valid() && k < |index.headers| && index.View().HeaderOk(k) && s == index.View().SlotOf(k, m)
      ensures s' == index.View().SlotOf(k, m + 1)
    {
      SlotAhead(m, 1, index.places[k].shift, |index.headers[k].index|);
      s' := Ahead(s, 1, |index.headers[k].index|);
    }

    /** An element that is claimed and not done is in a block that the index has. */
    lemma InUse(i: nat)
      requires Valid() && i < headIndex && i !in done
      ensures i / b in blocks && index.lo <= i / b < index.hi && index.headers != [] && index.View().HeaderOk(index.View().Last())
    {
      assert View().ItemOk(i);
      ExtraApart(View(), extra, index.hi, i / b);
    }

    method Locate(k: nat, s: nat, ghost m: nat) returns (entry: EntryId, block: BlockId)
      requires Valid() && m in blocks
      requires index.View().Reaches(k, m) && index.View().HeaderOk(k) && s == index.View().SlotOf(k, m)
      ensures index.headers != [] && index.View().HeaderOk(index.View().Last()) && entry == index.View().EntryAt(index.View().Last(), m)
      ensures block == blocks[m]
    {
      ExtraApart(View(), extra, index.hi, m);
      FoundEntry(index.View(), k, m);
      entry := index.headers[k].index[s];
      block := index.values[entry].value;
    }

    method Mark(entry: EntryId, block: BlockId, start: nat, n: nat)
      requires Valid() && Owned(View(), start, n) && start / b in blocks && block == blocks[start / b]
      requires index.headers != [] && index.View().HeaderOk(index.View().Last()) && entry == index.View().EntryAt(index.View().Last(), start / b)
      modifies this`counts, this`pool, this`blocks, this`done, index`values
      ensures old(View()).NumberOk(start / b) && View() == Taken(old(View()), start, n)
      ensures Valid() && index.View() == old(index.View()).(values := index.values)
    {
      hide Core.Valid, Tight, ExtraOk, Owned, Consumed, Injective;
      ghost var c, ix := View(), index.View();
      TakenValid(c, start, n);
      TakenExtra(c, extra, index.hi, start, n);
      ExtraApart(c, extra, index.hi, start / b);
      counts := counts[block := counts[block] + n];
      done := done + Range(start, n);
      if counts[block] == b {
        index.SetValue(entry, None);
        pool := pool + {block};
        blocks := blocks - {start / b};
        ReleasedTight(c.blocks + extra, ix, index.View(), start / b);
      }
    }

    method Read(block: BlockId, start: nat, n: nat) returns (xs: seq<T>)
      requires Valid() && Owned(View(), start, n) && start / b in blocks && block == blocks[start / b]
      ensures xs == items[start..start + n]
    {
      xs := [];
      var i := start;
      while i != start + n
        invariant start <= i <= start + n && xs == items[start..i]
      {
        RangeInBlock(start, n, b, i);
        assert i in Range(start, n);
        assert View().ItemOk(i);
        xs := xs + [cells[block][i % b].value];
        i := i + 1;
      }
    }

    /** Any consumers' acts, as far as they are possible: each search starts with the newest header. */
    method Consumers(acts: seq<Act>)
      requires Valid()
      modifies this`headIndex, this`counts, this`pool, this`blocks, this`done, index`values
      ensures Valid() && Consumed(old(View()), View())
      ensures index.View() == old(index.View()).(values := index.values)
      ensures acts == [] ==> View() == old(View())
    {
      ghost var c := View();
      for j := 0 to |acts|
        invariant Valid() && Consumed(c, View()) && index.View() == old(index.View()).(values := index.values)
        invariant j == 0 ==> View() == c
      {
        One(acts[j]);
      }
    }

    method One(act: Act)
      requires Valid()
      modifies this`headIndex, this`counts, this`pool, this`blocks, this`done, index`values
      ensures Valid() && Consumed(old(View()), View())
      ensures index.View() == old(index.View()).(values := index.values)
      ensures done <= old(done) + if act.Claim? then {} else Range(act.start, act.n)
    {
      ghost var c := View();
      match act
      case Claim(n) =>
        if headIndex + n <= tailIndex {
          var first := ClaimNext(n);
        }
      case Finish(start, n) =>
        if n > 0 && start % b + n <= b && start + n <= headIndex && done !! Range(start, n) {
          TakenValid(c, start, n);
          assert start in Range(start, n);
          var k, s := Search(start);
          var xs := Take(k, s, start, n);
        }
    }

    // -------------------------------------------------------------- the producer

    /** Gets a block for the next block number and puts it into the index (2493-2533, 2654-2688). Fails
        exactly when the guard refuses, the index has no room and cannot grow, or the pool has no block;
        then the number is withdrawn from the index again. */
    method AddBlock(blockStart: int, canAlloc: bool, supply: Supply) returns (ok: bool, block: BlockId)
      requires Valid() && blockStart == Base(b, index.hi)
      modifies this`pool, this`counts, this`cells, this`extra, index
      ensures Valid() && Keeps(old(index.View()), index.View(), old(index.hi))
      ensures ok <==>
        && CanHave(blockStart, supply, headIndex, b, limit, old(pool))
        && old(index.headers != [] && (Fits(index.View()) || (canAlloc && supply.granted)))
      ensures index.headers == [] <==> old(index.headers) == []
      ensures ok ==> index.Cap() == if old(index.headers != [] && Fits(index.View())) then old(index.Cap()) else 2 * old(index.Cap())
      ensures !ok && CanHave(blockStart, supply, headIndex, b, limit, old(pool)) ==> index.Cap() == old(index.Cap())
      ensures ok ==>
        && block == supply.choice.value && View() == Reserved(old(View()), block)
        && index.hi == old(index.hi) + 1 && extra == old(extra)[old(index.hi) := block]
      ensures !ok ==> View() == old(View()) && extra == old(extra) && index.hi == old(index.hi)
    {
      hide Core.Valid, Ix.Valid, Tight, ExtraOk;
      ghost var ix := index.View();
      KeepsSame(ix, ix.hi);
      if WrapAround.Refused(blockStart, headIndex, b, limit) {
        return false, 0;
      }
      if index.headers != [] {
        TightFits(blocks + extra, ix);
      }
      var inserted, e := index.InsertEntry(blockStart, canAlloc, supply.granted, supply.garbage);
      if !inserted {
        return false, 0;
      }
      NowPending(ix, supply.garbage);
      if supply.choice.None? || supply.choice.value !in pool {
        Withdraw(e, ix);
        return false, 0;
      }
      block := supply.choice.value;
      Install(e, block, ix);
      ok := true;
    }

    /** The new number is in the index, but has no block yet. */
    ghost predicate Pending(ix: Ix)
      requires ix.Valid()
      reads this, index
    {
      && index.Valid() && index.b == b && View().Valid()
      && index.hi == ix.hi + 1 && index.headers != [] && index.View().HeaderOk(index.View().Last())
      && Blocks(tailIndex, b) <= ix.hi && ExtraOk(View(), extra, ix.hi)
      && Holds(blocks + extra, index.View())
      && FreeElsewhere(blocks + extra, index.View(), index.hi - index.View().Capacity(index.View().Last()), ix.hi)
      && Keeps(ix, index.View(), ix.hi)
    }

    lemma NowPending(ix: Ix, garbage: seq<Option<BlockId>>)
      requires View().Valid() && Blocks(tailIndex, b) <= ix.hi && ExtraOk(View(), extra, ix.hi)
      requires ix.Valid() && Tight(blocks + extra, ix) && ix.headers != [] && (Fits(ix) || Crowded(ix))
      requires index.Valid() && index.b == b && index.View() == Added(ix, garbage)
      ensures Pending(ix) && index.lo < index.hi
    {
      AddedHolds(blocks + extra, ix, garbage);
      AddedFree(blocks + extra, ix, garbage);
      AddedKeeps(ix, garbage);
      assert index.View().HeaderOk(index.View().Last());
    }

    method Withdraw(e: EntryId, ghost ix: Ix)
      requires ix.Valid() && Pending(ix) && index.lo < index.hi
      requires e == index.View().EntryAt(index.View().Last(), index.hi - 1)
      modifies index
      ensures Valid() && index.hi == ix.hi && Keeps(ix, index.View(), ix.hi)
      ensures index.headers != [] && index.Cap() == old(index.Cap())
    {
      ghost var ix1 := index.View();
      PlanBelow(View(), extra, ix.hi);
      RewoundKeeps(ix1, ix.hi);
      index.Rewind();
      ghost var ix2 := index.View();
      index.SetValue(e, None);
      SameIndex(ix2, index.View());
      KeepsTrans(ix, ix1, ix2, ix.hi);
      KeepsTrans(ix, ix2, index.View(), ix.hi);
      WithdrawnTight(blocks + extra, ix1, index.View());
    }

    method Install(e: EntryId, block: BlockId, ghost ix: Ix)
      requires ix.Valid() && Pending(ix) && index.lo < index.hi && block in pool
      requires e == index.View().EntryAt(index.View().Last(), index.hi - 1)
      modifies this`pool, this`counts, this`cells, this`extra, index`values
      ensures Valid() && View() == Reserved(old(View()), block) && index.hi == old(index.hi)
      ensures extra == old(extra)[ix.hi := block] && Keeps(ix, index.View(), ix.hi)
    {
      ghost var ix1 := index.View();
      PlanBelow(View(), extra, ix.hi);
      ReservedValid(View(), block);
      ReservedExtra(View(), extra, ix.hi, block);
      pool := pool - {block};
      counts := counts[block := 0];
      cells := cells[block := seq(b, _ => None)];
      index.SetValue(e, Some(block));
      SameIndex(ix1, index.View());
      KeepsTrans(ix, ix1, index.View(), ix.hi);
      StoredTight(blocks + extra, ix1, index.View(), block);
      extra := extra[ix.hi := block];
    }

    /** Publishes the elements in the cells (2546, 2772): the blocks got for them are in use now. */
    method Commit(xs: seq<T>, ghost c: Core<T>)
      requires c.Valid() && View() == c.(cells := cells) && index.Valid() && index.b == b
      requires ExtraOk(c, extra, index.hi) && Tight(blocks + extra, index.View())
      requires index.hi == Blocks(c.tail + |xs|, b) && Blocks(c.tail, b) <= index.hi
      requires Filled(cells, c.cells, blocks + extra, b, c.tail, xs)
      requires var t := c.tail + |xs|; t % b != 0 && t / b in blocks + extra ==> tailBlock == Some((blocks + extra)[t / b])
      modifies this`tailIndex, this`items, this`blocks, this`extra
      ensures Quiet() && View() == Extended(c, xs, c.blocks + old(extra), cells)
      ensures Total(View()) == Total(c) + old(extra).Values
    {
      hide Core.Valid, Ix.Valid, Tight, ExtraOk, Filled, Total;
      CommitReady(c, extra, index.hi, xs, cells);
      tailIndex := tailIndex + |xs|;
      items := items + xs;
      blocks, extra := blocks + extra, map[];
      NowQuiet();
    }

    lemma NowQuiet()
      requires View().Valid() && index.Valid() && index.b == b && extra == map[] && index.hi == Blocks(tailIndex, b)
      requires Tight(blocks, index.View()) && IsTail(tailBlock)
      ensures Quiet()
    {
      assert blocks + extra == blocks;
    }

    /** `enqueue` (2486-2548). */
    method Enqueue(x: T, canAlloc: bool, supply: Supply) returns (ok: bool)
      requires Quiet()
      modifies this`tailIndex, this`tailBlock, this`cells, this`counts, this`pool, this`blocks, this`extra, this`items, index
      ensures Quiet() && Keeps(old(index.View()), index.View(), old(index.hi))
      ensures headIndex == old(headIndex) && done == old(done) && Total(View()) == Total(old(View()))
      ensures !ok ==> View() == old(View()) && tailBlock == old(tailBlock)
      ensures ok ==> items == old(items) + [x]
      ensures !ok <==> old(
        && tailIndex % b == 0
        && (|| !CanHave(tailIndex, supply, headIndex, b, limit, pool)
            || index.headers == []
            || (!Fits(index.View()) && !(canAlloc && supply.granted))))
    {
      hide Core.Valid, Ix.Valid, Tight, ExtraOk, Total;
      if tailIndex % b == 0 {
        ok := StartBlock(canAlloc, supply);
        if !ok {
          return;
        }
      } else {
        TailReady();
      }
      PutLast(x);
      return true;
    }

    /** A tail block for the next element (2492-2535). */
    method StartBlock(canAlloc: bool, supply: Supply) returns (ok: bool)
      requires Quiet() && tailIndex % b == 0
      modifies this`tailBlock, this`cells, this`counts, this`pool, this`extra, index
      ensures if ok then HasTail() else Quiet() && View() == old(View()) && tailBlock == old(tailBlock)
      ensures ok ==> Total(View()) + extra.Values == Total(old(View()))
      ensures Keeps(old(index.View()), index.View(), old(index.hi))
      ensures ok <==>
        && CanHave(tailIndex, supply, headIndex, b, limit, old(pool))
        && old(index.headers != [] && (Fits(index.View()) || (canAlloc && supply.granted)))
    {
      hide Core.Valid, Tight, Keeps;
      ghost var c := View();
      BlocksNext(tailIndex, b);
      var block;
      ok, block := AddBlock(tailIndex, canAlloc, supply);
      if ok {
        tailBlock := Some(block);
        ReservedTotal(c, block);
        NewExtra(map[], old(index.hi), block);
      }
    }

    /** The next element has a place in the tail block. */
    ghost predicate HasTail()
      reads this, index
    {
      && Valid() && index.hi == Blocks(tailIndex + 1, b)
      && tailIndex / b in blocks + extra && tailBlock == Some((blocks + extra)[tailIndex / b])
    }

    lemma TailReady()
      requires Quiet() && tailIndex % b != 0
      ensures HasTail() && Total(View()) + extra.Values == Total(View())
      ensures Keeps(index.View(), index.View(), index.hi)
    {
      BlocksNext(tailIndex, b);
      assert blocks + extra == blocks;
    }

    method PutLast(x: T)
      requires HasTail()
      modifies this`tailIndex, this`cells, this`blocks, this`extra, this`items
      ensures Quiet() && items == old(items) + [x]
      ensures Total(View()) == Total(old(View())) + old(extra).Values
    {
      ghost var c, plan := View(), blocks + extra;
      PlanSized(c, extra, index.hi);
      FilledNone(c, plan);
      FilledMore(cells, cells, plan, b, tailIndex, [], x);
      var block := tailBlock.value;
      cells := cells[block := cells[block][tailIndex % b := Some(x)]];
      NextInBlock(tailIndex, b);
      Commit([x], c);
    }

    // -------------------------------------------------------------- bulk enqueue

    ghost predicate Chained(startBlock: Option<BlockId>, first: Option<BlockId>, n: nat, hi: nat)
      reads this
    {
      && n <= hi && Linked(next, extra, n, hi)
      && (if n == hi then first == None && tailBlock == startBlock
          else first == Some(extra[n]) && tailBlock == Some(extra[hi - 1]) && next[extra[hi - 1]] == None)
      && (n < hi && !AtBlockEnd() ==> startBlock.Some? && startBlock.value in next && next[startBlock.value] == Some(extra[n]))
    }

    /** The undo loop of 2668-2676: while it rewinds the tail it looks up entries relative to it, from the
        first number to the last. */
    method Undo(startBlock: Option<BlockId>, first: Option<BlockId>)
      requires Valid() && Chained(startBlock, first, Blocks(tailIndex, b), index.hi) && IsTail(startBlock)
      modifies this`tailBlock, this`extra, this`pool, index`headers, index`hi, index`values
      ensures Quiet() && tailBlock == startBlock
      ensures View() == old(View()).(pool := old(pool) + old(extra).Values)
      ensures index.Cap() == old(index.Cap())
      ensures Keeps(old(index.View()), index.View(), Blocks(tailIndex, b))
    {
      hide Core.Valid, Ix.Valid, Ix.HeaderOk, Tight, Injective, Keeps;
      ghost var c, n, top := View(), Blocks(tailIndex, b), index.hi;
      LastBase(tailIndex, b);
      BlocksBelow(c);
      if first.Some? {
        UndoIndex(WrapAround.BlockBase(tailIndex - 1, b), first.value, n, top);
      } else {
        KeepsSame(index.View(), n);
        assert blocks + extra == blocks;
      }
      Discard(startBlock, first, n, top);
      NowQuiet();
    }

    /** The blocks got go back to the pool (2675-2677). */
    method Discard(startBlock: Option<BlockId>, first: Option<BlockId>, ghost n: nat, ghost top: nat)
      requires View().Valid() && ExtraOk(View(), extra, top) && n == Blocks(tailIndex, b) <= top && Linked(next, extra, n, top)
      requires if n == top then first == None else first == Some(extra[n]) && next[extra[top - 1]] == None
      modifies this`tailBlock, this`extra, this`pool
      ensures View() == old(View()).(pool := old(pool) + old(extra).Values) && View().Valid()
      ensures extra == map[] && tailBlock == startBlock
    {
      hide Core.Valid;
      ReturnedValid(View(), extra, top);
      AddBlocks(first, n, top);
      extra := map[];
      tailBlock := startBlock;
    }

    method UndoIndex(base: int, first: BlockId, ghost n: nat, ghost top: nat)
      requires index.Valid() && index.b == b && base == Base(b, n - 1) && n < top == index.hi
      requires Tight(blocks + extra, index.View())
      requires (forall m :: m in blocks ==> m < n) && forall m :: m in extra <==> n <= m < top
      requires Linked(next, extra, n, top)
      requires first == extra[n] && next[extra[top - 1]] == None
      modifies index`headers, index`hi, index`values
      ensures index.Valid() && index.hi == n && Tight(blocks, index.View()) && index.Cap() == old(index.Cap())
      ensures Keeps(old(index.View()), index.View(), n)
    {
      hide Ix.Valid, Ix.HeaderOk, Tight, Keeps, Undone, Base;
      ghost var ix0 := index.View();
      KeepsSame(ix0, n);
      UndoStart(blocks, extra, ix0, n);
      var currentTailIndex, block := base, Some(first);
      ghost var j: nat := 0;
      while block.Some?
        invariant 0 <= j <= top - n && currentTailIndex == Base(b, n + j - 1)
        invariant block == if j < top - n then Some(extra[n + j]) else None
        invariant index.Cap() == old(index.Cap())
        invariant index.Valid() && Keeps(ix0, index.View(), n) && Undone(blocks, index.View(), n, top, j)
        decreases top - n - j
      {
        currentTailIndex := currentTailIndex + b;
        NextBase(b, n + j);
        UndoOne(currentTailIndex, n, top, j, ix0);
        assert n + j < top - 1 ==> Follows(next, extra, n + j);
        block := next[block.value];
        j := j + 1;
      }
      UndoEnd(blocks, index.View(), n, top);
    }

    method UndoOne(base: int, ghost n: nat, ghost top: nat, ghost j: nat, ghost ix0: Ix)
      requires index.Valid() && index.b == b && Undone(blocks, index.View(), n, top, j) && j < top - n && base == Base(b, n + j)
      requires ix0.Valid() && Keeps(ix0, index.View(), n)
      modifies index`headers, index`hi, index`values
      ensures index.Valid() && Undone(blocks, index.View(), n, top, j + 1) && Keeps(ix0, index.View(), n)
      ensures index.Cap() == old(index.Cap())
    {
      ghost var ix := index.View();
      var k := |index.headers| - 1;
      var t := index.LoadTail(k, index.hi - 1);
      var s := index.FindSlot(k, t, base);
      WrapAround.DivModUnique(base, b, n + j, 0);
      var e := index.headers[k].index[s];
      index.SetValue(e, None);
      ghost var ix1 := index.View();
      SameIndex(ix, ix1);
      RewoundKeeps(ix1, n);
      index.Rewind();
      KeepsTrans(ix0, ix, ix1, n);
      KeepsTrans(ix0, ix1, index.View(), n);
      UndoStep(blocks, ix, index.View(), n, top, j);
    }

    /** `add_blocks_to_free_list`: the blocks from `first` on go back to the pool (2675). */
    method AddBlocks(first: Option<BlockId>, ghost n: nat, ghost top: nat)
      requires n <= top && (forall m :: m in extra <==> n <= m < top)
      requires Linked(next, extra, n, top)
      requires if n == top then first == None else first == Some(extra[n]) && next[extra[top - 1]] == None
      modifies this`pool
      ensures pool == old(pool) + extra.Values
    {
      var block := first;
      ghost var j := 0;
      while block.Some?
        invariant j <= top - n && block == if j < top - n then Some(extra[n + j]) else None
        invariant pool == old(pool) + Part(extra, n, j)
        decreases top - n - j
      {
        pool := pool + {block.value};
        assert n + j < top - 1 ==> Follows(next, extra, n + j);
        assert Part(extra, n, j + 1) == Part(extra, n, j) + {extra[n + j]};
        block := next[block.value];
        j := j + 1;
      }
      assert Part(extra, n, top - n) == extra.Values;
    }

    /** What a bulk enqueue keeps while it gets blocks; it began with the elements of `c` and the index `ix`. */
    ghost predicate Allocating(c: Core<T>, ix: Ix, startBlock: Option<BlockId>, first: Option<BlockId>)
      requires c.b > 0 && ix.Valid()
      reads this, index
    {
      && Valid() && Progressed(c, View()) && Total(View()) + extra.Values == Total(c)
      && Keeps(ix, index.View(), Blocks(c.tail, c.b))
      && Chained(startBlock, first, Blocks(c.tail, c.b), index.hi) && IsTail(startBlock)
    }

    /** Gets all blocks that `count` more elements need, while consumers go on, or undoes it all (2637-2700). */
    method Allocate(count: nat, canAlloc: bool, supply: seq<Supply>) returns (ok: bool, first: Option<BlockId>)
      requires Quiet()
      modifies this`tailBlock, this`next, this`headIndex, this`counts, this`cells, this`pool, this`blocks, this`extra, this`done, index
      ensures ok ==> Allocating(old(View()), old(index.View()), old(tailBlock), first) && index.hi == Blocks(tailIndex + count, b)
      ensures !ok ==> Quiet() && tailBlock == old(tailBlock) && Consumed(old(View()), View())
      ensures Keeps(old(index.View()), index.View(), old(index.hi))
      ensures NoActs(supply) ==> done == old(done) && headIndex == old(headIndex)
      ensures ok ==> GotSoFar(old(View()), old(index.Cap()), canAlloc, supply, index.hi - old(index.hi))
      ensures ok ==> index.hi == old(index.hi) || old(index.headers) != []
      ensures !ok ==> Blocks(tailIndex + count, b) > old(index.hi)
      ensures !ok && old(index.headers) != [] ==>
        exists j :: 0 <= j < Blocks(tailIndex + count, b) - old(index.hi) && Stopped(View(), limit, index.Cap(), canAlloc, supply, old(index.hi), j)
      ensures !ok && old(index.headers) != [] && NoActs(supply) ==>
        exists j :: 0 <= j < Blocks(tailIndex + count, b) - old(index.hi) && StoppedAt(old(View()), limit, old(index.Cap()), canAlloc, supply, old(index.hi), j)
    {
      hide Core.Valid, Ix.Valid, Tight, Consumed, Keeps, Chained, Total, Progressed, Stopped, StoppedAt, CapacityAt;
      ghost var c, ix := View(), index.View();
      var blockBaseDiff, currentTailIndex := FirstBases(count);
      AllocatingStart();
      StartAsPlanned(canAlloc, supply);
      ok, first := AllocateLoop(blockBaseDiff, currentTailIndex, index.Cap(), canAlloc, supply, tailBlock, c, ix, Blocks(tailIndex + count, b));
    }

    lemma AllocatingStart()
      requires Quiet()
      ensures Allocating(View(), index.View(), tailBlock, None)
    {
    }

    lemma StartAsPlanned(canAlloc: bool, supply: seq<Supply>)
      requires b > 0 && extra == map[]
      ensures GotSoFar(View(), index.Cap(), canAlloc, supply, 0)
    {
    }

    /** The loop of 2649-2699. */
    method AllocateLoop(blockBaseDiff: int, currentTailIndex: int, ghost capacity: nat, canAlloc: bool, supply: seq<Supply>, startBlock: Option<BlockId>, ghost c: Core<T>, ghost ix: Ix, ghost top: nat)
        returns (ok: bool, first: Option<BlockId>)
      requires c.b > 0 && ix.Valid() && Allocating(c, ix, startBlock, None) && GotSoFar(c, capacity, canAlloc, supply, 0) && index.hi == Blocks(c.tail, c.b)
      requires index.hi <= top && blockBaseDiff == Base(b, top - index.hi) && currentTailIndex == Base(b, index.hi - 1)
      modifies this`tailBlock, this`next, this`headIndex, this`counts, this`cells, this`pool, this`blocks, this`extra, this`done, index
      ensures ok ==> Allocating(c, ix, startBlock, first) && index.hi == top
      ensures !ok ==> Quiet() && tailBlock == startBlock && Consumed(c, View())
      ensures Keeps(ix, index.View(), Blocks(c.tail, c.b))
      ensures ok ==> GotSoFar(c, capacity, canAlloc, supply, top - Blocks(c.tail, c.b))
      ensures NoActs(supply) ==> headIndex == c.head && done == c.done
      ensures ok ==> top == Blocks(c.tail, c.b) || old(index.headers) != []
      ensures !ok && old(index.headers) != [] ==>
        exists j :: 0 <= j < top - Blocks(c.tail, c.b) && Stopped(View(), limit, index.Cap(), canAlloc, supply, Blocks(c.tail, c.b), j)
      ensures !ok && old(index.headers) != [] && NoActs(supply) ==>
        exists j :: 0 <= j < top - Blocks(c.tail, c.b) && StoppedAt(c, limit, capacity, canAlloc, supply, Blocks(c.tail, c.b), j)
      ensures !ok ==> top > Blocks(c.tail, c.b)
    {
      hide Core.Valid, Ix.Valid, Tight, Consumed, Keeps, Chained, Total, Progressed, Stopped, StoppedAt, CanHave, CapacityAt, Lacks, Chose;
      first := None;
      var diff, current, j: nat := blockBaseDiff, currentTailIndex, 0;
      while diff > 0
        invariant index.hi <= top && diff == Base(b, top - index.hi) && current == Base(b, index.hi - 1)
        invariant Allocating(c, ix, startBlock, first)
        invariant GotSoFar(c, capacity, canAlloc, supply, j) && j == index.hi - Blocks(c.tail, c.b)
        invariant (index.headers == [] <==> old(index.headers) == []) && (j > 0 ==> index.headers != [])
        decreases top - index.hi
      {
        NextBase(b, index.hi);
        NextBase(b, top - index.hi);
        diff := diff - b;
        current := current + b;
        ok, first := Round(current, capacity, canAlloc, supply, j, startBlock, first, c, ix);
        if !ok {
          Abandon(capacity, canAlloc, supply, j, startBlock, first, c, ix);
          return;
        }
        j := j + 1;
      }
      NextBase(b, top - index.hi);
      ok := true;
    }

    /** A failed round: everything is undone, and what stood in its way still would. */
    method Abandon(ghost capacity: nat, ghost canAlloc: bool, ghost supply: seq<Supply>, ghost j: nat, startBlock: Option<BlockId>, first: Option<BlockId>, ghost c: Core<T>, ghost ix: Ix)
      requires c.b > 0 && ix.Valid() && Allocating(c, ix, startBlock, first)
      requires j == index.hi - Blocks(c.tail, c.b) && forall i :: 0 <= i < j ==> Chose(supply, Blocks(c.tail, c.b), i, extra)
      requires index.headers != [] ==> Lacks(Base(b, index.hi), canAlloc, supply, Blocks(c.tail, c.b), j)
      requires NoActs(supply) ==> headIndex == c.head && done == c.done && blocks == c.blocks && pool == c.pool - extra.Values
      requires NoActs(supply) && CanHave(Base(b, index.hi), At(supply, j), headIndex, b, limit, pool) ==>
        index.Cap() == CapacityAt(c.blocks, Blocks(c.tail, c.b), capacity, j)
      modifies this`tailBlock, this`extra, this`pool, index`headers, index`hi, index`values
      ensures Quiet() && tailBlock == startBlock && Consumed(c, View()) && Keeps(ix, index.View(), Blocks(c.tail, c.b))
      ensures NoActs(supply) ==> headIndex == c.head && done == c.done
      ensures old(index.headers) != [] ==> Stopped(View(), limit, index.Cap(), canAlloc, supply, Blocks(c.tail, c.b), j)
      ensures old(index.headers) != [] && NoActs(supply) ==> StoppedAt(c, limit, capacity, canAlloc, supply, Blocks(c.tail, c.b), j)
    {
      hide Core.Valid, Ix.Valid, Tight, Keeps, Chained, Total, WrapAround.Refused, CapacityAt, SlotTaken;
      ghost var n := Blocks(c.tail, c.b);
      if NoActs(supply) {
        ChosenAre(supply, n, j, extra);
        assert c.pool - Chosen(supply, j) == pool;
      }
      UndoAll(canAlloc, supply, j, startBlock, first, c, ix);
    }

    /** The blocks got so far are those supplied. Without acts of consumers nothing else has changed, none of
        the blocks was stopped, and the index has grown as needed; it began with `capacity` slots. */
    ghost predicate GotSoFar(c: Core<T>, capacity: nat, canAlloc: bool, supply: seq<Supply>, j: nat)
      requires c.b > 0
      reads this`headIndex, this`done, this`extra, this`pool, this`blocks, index`headers
    {
      && (forall i :: 0 <= i < j ==> Chose(supply, Blocks(c.tail, c.b), i, extra))
      && (NoActs(supply) ==> AsPlanned(c, capacity, canAlloc, supply, j))
    }

    ghost predicate AsPlanned(c: Core<T>, capacity: nat, canAlloc: bool, supply: seq<Supply>, j: nat)
      requires c.b > 0
      reads this`headIndex, this`done, this`extra, this`pool, this`blocks, index`headers
    {
      && headIndex == c.head && done == c.done && blocks == c.blocks && pool == c.pool - extra.Values
      && index.Cap() == CapacityAt(c.blocks, Blocks(c.tail, c.b), capacity, j)
      && forall i :: 0 <= i < j ==> !StoppedAt(c, limit, capacity, canAlloc, supply, Blocks(c.tail, c.b), i)
    }

    lemma ExtraRange()
      requires Valid()
      ensures forall m :: m in extra <==> Blocks(tailIndex, b) <= m < index.hi
    {
    }

    /** Whether the slot for the next number is free. */
    lemma FitsNow(n: nat, j: nat)
      requires Valid() && index.headers != [] && n == Blocks(tailIndex, b) && index.hi == n + j
      ensures Fits(index.View()) <==> !SlotTaken(blocks, n, j, index.Cap())
    {
      FitsExactly(blocks + extra, index.View());
      assert index.View().HeaderOk(index.View().Last());
      BlocksBelow(View());
    }

    method Round(base: int, ghost capacity: nat, canAlloc: bool, supply: seq<Supply>, j: nat, startBlock: Option<BlockId>, first: Option<BlockId>, ghost c: Core<T>, ghost ix: Ix)
        returns (ok: bool, first': Option<BlockId>)
      requires c.b > 0 && ix.Valid() && Allocating(c, ix, startBlock, first) && base == Base(b, index.hi)
      requires j == index.hi - Blocks(c.tail, c.b) && GotSoFar(c, capacity, canAlloc, supply, j)
      modifies this`tailBlock, this`next, this`headIndex, this`counts, this`cells, this`pool, this`blocks, this`extra, this`done, index
      ensures Allocating(c, ix, startBlock, first')
      ensures index.hi == old(index.hi) + if ok then 1 else 0
      ensures index.headers == [] <==> old(index.headers) == []
      ensures ok ==> index.headers != [] && GotSoFar(c, capacity, canAlloc, supply, j + 1)
      ensures !ok ==> extra == old(extra) && (forall i :: 0 <= i < j ==> Chose(supply, Blocks(c.tail, c.b), i, extra))
      ensures !ok && index.headers != [] ==> Lacks(base, canAlloc, supply, Blocks(c.tail, c.b), j)
      ensures !ok && NoActs(supply) ==> headIndex == c.head && done == c.done && blocks == c.blocks && pool == c.pool - extra.Values
      ensures !ok && NoActs(supply) && CanHave(base, At(supply, j), headIndex, b, limit, pool) ==>
        index.Cap() == CapacityAt(c.blocks, Blocks(c.tail, c.b), capacity, j)
    {
      hide Core.Valid, Ix.Valid, Tight, Keeps, Total, Chained, ExtraOk, WrapAround.Refused, CapacityAt, StoppedAt, SlotTaken, Fits;
      ghost var n, extra0, pool0 := Blocks(c.tail, c.b), extra, pool;
      LetConsumers(At(supply, j).acts, startBlock, first, c, ix);
      ghost var capacity0, taken, pool1 := index.Cap(), SlotTaken(blocks, n, j, index.Cap()), pool;
      ExtraRange();
      if index.headers != [] {
        FitsNow(n, j);
      }
      ok, first' := AllocateOne(base, canAlloc, At(supply, j), startBlock, first, c, ix);
      if ok {
        forall i | 0 <= i < j + 1
          ensures Chose(supply, n, i, extra)
        {
          assert i < j ==> Chose(supply, n, i, extra0);
        }
        if NoActs(supply) {
          NextAsPlanned(c, capacity, canAlloc, supply, j, extra0, pool1, taken);
        }
      }
    }

    /** Something is missing for the next block. */
    ghost predicate Lacks(base: int, canAlloc: bool, supply: seq<Supply>, n: nat, j: nat)
      reads this`headIndex, this`pool, this`blocks, index`headers
    {
      || !CanHave(base, At(supply, j), headIndex, b, limit, pool)
      || (SlotTaken(blocks, n, j, index.Cap()) && !(canAlloc && At(supply, j).granted))
    }

    /** One more block as planned. */
    lemma NextAsPlanned(c: Core<T>, capacity: nat, canAlloc: bool, supply: seq<Supply>, j: nat, extra0: map<nat, BlockId>, pool0: set<BlockId>, taken: bool)
      requires c.b > 0 && b == c.b && headIndex == c.head && done == c.done && blocks == c.blocks && pool0 == c.pool - extra0.Values
      requires var n := Blocks(c.tail, c.b);
        && (forall m :: m in extra0 <==> n <= m < n + j) && (forall i :: 0 <= i < j ==> Chose(supply, n, i, extra0))
        && CanHave(Base(b, n + j), At(supply, j), headIndex, b, limit, pool0)
        && extra == extra0[n + j := At(supply, j).choice.value] && pool == pool0 - {At(supply, j).choice.value}
        && taken == SlotTaken(blocks, n, j, CapacityAt(c.blocks, n, capacity, j)) && (taken ==> canAlloc && At(supply, j).granted)
        && index.Cap() == (if taken then 2 else 1) * CapacityAt(c.blocks, n, capacity, j)
        && forall i :: 0 <= i < j ==> !StoppedAt(c, limit, capacity, canAlloc, supply, n, i)
      ensures AsPlanned(c, capacity, canAlloc, supply, j + 1)
    {
      hide WrapAround.Refused;
      var n := Blocks(c.tail, c.b);
      ChosenAre(supply, n, j, extra0);
      NewExtra(extra0, n + j, At(supply, j).choice.value);
      assert !StoppedAt(c, limit, capacity, canAlloc, supply, n, j);
    }

    /** The blocks got go back, and the pool is then the one that the failed round found together with them. */
    method UndoAll(ghost canAlloc: bool, ghost supply: seq<Supply>, ghost j: nat, startBlock: Option<BlockId>, first: Option<BlockId>, ghost c: Core<T>, ghost ix: Ix)
      requires c.b > 0 && ix.Valid() && Allocating(c, ix, startBlock, first)
      requires j == index.hi - Blocks(c.tail, c.b) && forall i :: 0 <= i < j ==> Chose(supply, Blocks(c.tail, c.b), i, extra)
      requires index.headers != [] ==> Lacks(Base(b, index.hi), canAlloc, supply, Blocks(c.tail, c.b), j)
      modifies this`tailBlock, this`extra, this`pool, index`headers, index`hi, index`values
      ensures Quiet() && tailBlock == startBlock && Consumed(c, View()) && Keeps(ix, index.View(), Blocks(c.tail, c.b))
      ensures headIndex == old(headIndex) && done == old(done) && index.Cap() == old(index.Cap())
      ensures pool - Chosen(supply, j) == old(pool)
      ensures old(index.headers) != [] ==> Stopped(View(), limit, index.Cap(), canAlloc, supply, Blocks(c.tail, c.b), j)
    {
      hide Core.Valid, Ix.Valid, Tight, Keeps, Chained;
      ghost var ix1 := index.View();
      ChosenAre(supply, Blocks(c.tail, c.b), j, extra);
      assert old(pool) !! extra.Values;
      Undo(startBlock, first);
      assert pool - Chosen(supply, j) == old(pool);
      KeepsTrans(ix, ix1, index.View(), Blocks(c.tail, c.b));
    }

    /** `blockBaseDiff` and `currentTailIndex` (2643-2644). */
    method FirstBases(count: nat) returns (blockBaseDiff: int, currentTailIndex: int)
      requires b > 0
      ensures blockBaseDiff == Base(b, Blocks(tailIndex + count, b) - Blocks(tailIndex, b))
      ensures Blocks(tailIndex, b) <= Blocks(tailIndex + count, b)
      ensures currentTailIndex == Base(b, Blocks(tailIndex, b) - 1)
    {
      hide Base, Blocks, WrapAround.BlockBase;
      LastBase(tailIndex, b);
      LastBase(tailIndex + count, b);
      BlocksMonotone(tailIndex, tailIndex + count, b);
      blockBaseDiff := WrapAround.BlockBase(tailIndex + count - 1, b) - WrapAround.BlockBase(tailIndex - 1, b);
      currentTailIndex := WrapAround.BlockBase(tailIndex - 1, b);
      BaseDifference(b, Blocks(tailIndex + count, b) - 1, Blocks(tailIndex, b) - 1);
    }

    method LetConsumers(acts: seq<Act>, ghost startBlock: Option<BlockId>, ghost first: Option<BlockId>, ghost c: Core<T>, ghost ix: Ix)
      requires c.b > 0 && ix.Valid() && Allocating(c, ix, startBlock, first)
      modifies this`headIndex, this`counts, this`pool, this`blocks, this`done, index`values
      ensures Allocating(c, ix, startBlock, first) && index.hi == old(index.hi)
      ensures acts == [] ==> done == old(done) && headIndex == old(headIndex) && pool == old(pool) && blocks == old(blocks)
    {
      ghost var ix1 := index.View();
      Consumers(acts);
      SameIndex(ix1, index.View());
      KeepsTrans(ix, ix1, index.View(), Blocks(c.tail, c.b));
      if !AtBlockEnd() {
        TailInUse(View());
      }
    }

    /** One round of the loop of 2649-2699. */
    method AllocateOne(base: int, canAlloc: bool, supply: Supply, startBlock: Option<BlockId>, first: Option<BlockId>, ghost c: Core<T>, ghost ix: Ix)
        returns (ok: bool, first': Option<BlockId>)
      requires c.b > 0 && ix.Valid() && Allocating(c, ix, startBlock, first) && base == Base(b, index.hi)
      modifies this`tailBlock, this`next, this`counts, this`cells, this`pool, this`extra, index
      ensures Allocating(c, ix, startBlock, first')
      ensures index.hi == old(index.hi) + if ok then 1 else 0
      ensures ok ==> supply.choice.Some? && pool == old(pool) - {supply.choice.value}
      ensures ok ==> old(index.hi) !in old(extra) && extra == old(extra)[old(index.hi) := supply.choice.value]
      ensures !ok ==> extra == old(extra) && pool == old(pool)
      ensures index.headers == [] <==> old(index.headers) == []
      ensures ok <==>
        && CanHave(base, supply, headIndex, b, limit, old(pool))
        && old(index.headers != [] && (Fits(index.View()) || (canAlloc && supply.granted)))
      ensures ok ==> index.Cap() == if old(index.headers != [] && Fits(index.View())) then old(index.Cap()) else 2 * old(index.Cap())
      ensures !ok && CanHave(base, supply, headIndex, b, limit, old(pool)) ==> index.Cap() == old(index.Cap())
    {
      hide Core.Valid, Ix.Valid, Tight, ExtraOk, Keeps, Progressed, Total, CanHave;
      ghost var n, hi := Blocks(c.tail, c.b), index.hi;
      var block;
      ok, block := Gain(base, canAlloc, supply, c, ix, n);
      if !ok {
        return false, first;
      }
      LinkReady(startBlock);
      LinkedKept(next, old(extra), n, hi, block);
      first' := Link(block, startBlock, first, n, hi + 1);
    }

    method Gain(base: int, canAlloc: bool, supply: Supply, ghost c: Core<T>, ghost ix: Ix, ghost n: nat) returns (ok: bool, block: BlockId)
      requires Valid() && base == Base(b, index.hi) && n <= index.hi && ix.Valid() && Keeps(ix, index.View(), n)
      requires Progressed(c, View()) && Total(View()) + extra.Values == Total(c)
      modifies this`pool, this`counts, this`cells, this`extra, index
      ensures Valid() && Keeps(ix, index.View(), n)
      ensures Progressed(c, View()) && Total(View()) + extra.Values == Total(c)
      ensures ok ==> index.hi == old(index.hi) + 1 && old(index.hi) !in old(extra) && extra == old(extra)[old(index.hi) := block]
      ensures ok ==> supply.choice == Some(block) && pool == old(pool) - {block}
      ensures !ok ==> index.hi == old(index.hi) && extra == old(extra) && pool == old(pool)
      ensures index.headers == [] <==> old(index.headers) == []
      ensures ok <==>
        && CanHave(base, supply, headIndex, b, limit, old(pool))
        && old(index.headers != [] && (Fits(index.View()) || (canAlloc && supply.granted)))
      ensures ok ==> index.Cap() == if old(index.headers != [] && Fits(index.View())) then old(index.Cap()) else 2 * old(index.Cap())
      ensures !ok && CanHave(base, supply, headIndex, b, limit, old(pool)) ==> index.Cap() == old(index.Cap())
    {
      ghost var c2, extra2, ix1 := View(), extra, index.View();
      ok, block := AddBlock(base, canAlloc, supply);
      KeepsLess(ix1, index.View(), ix1.hi, n);
      KeepsTrans(ix, ix1, index.View(), n);
      if ok {
        ReservedProgress(c, c2, extra2, ix1.hi, block);
      }
    }

    lemma LinkReady(startBlock: Option<BlockId>)
      requires Valid() && IsTail(startBlock)
      ensures Injective(extra)
      ensures !AtBlockEnd() ==> startBlock.Some? && startBlock.value !in extra.Values
    {
      InjectivePart(blocks + extra, extra);
      if !AtBlockEnd() {
        ExtraApart(View(), extra, index.hi, tailIndex / b);
      }
    }

    /** Appends a block to the chain (2685, 2690-2698). */
    method Link(block: BlockId, ghost startBlock: Option<BlockId>, first: Option<BlockId>, ghost n: nat, ghost hi: nat) returns (first': Option<BlockId>)
      requires n < hi && hi - 1 in extra && extra[hi - 1] == block && Injective(extra)
      requires Chained(startBlock, first, n, hi - 1)
      requires !AtBlockEnd() ==> startBlock.Some? && startBlock.value !in extra.Values
      modifies this`tailBlock, this`next
      ensures Chained(startBlock, first', n, hi)
    {
      ghost var before, t := next, tailBlock;
      next := next[block := None];
      if !AtBlockEnd() || first.Some? {
        assert n < hi - 1 ==> Apart(extra, hi - 2, hi - 1);
        next := next[tailBlock.value := Some(block)];
      }
      LinkedMore(before, next, extra, n, hi, t);
      tailBlock := Some(block);
      first' := if first.None? then Some(block) else first;
    }

    // -------------------------------------------------------------- filling the blocks

    /** Elements go into consecutive cells of one block (2716-2718). */
    method FillBlock(xs: seq<T>, from: nat, stop: nat, ghost plan: map<nat, BlockId>, ghost was: map<BlockId, seq<Option<T>>>)
      requires b > 0 && tailIndex <= from <= stop <= tailIndex + |xs| && Injective(plan)
      requires Filled(cells, was, plan, b, tailIndex, xs[..from - tailIndex])
      requires from < stop ==> from / b in plan && tailBlock == Some(plan[from / b]) && stop <= Base(b, from / b) + b
      modifies this`cells
      ensures Filled(cells, was, plan, b, tailIndex, xs[..stop - tailIndex])
    {
      var i := from;
      while i != stop
        invariant from <= i <= stop && Filled(cells, was, plan, b, tailIndex, xs[..i - tailIndex])
      {
        WithinBlock(from, i, b);
        FilledMore(cells, was, plan, b, tailIndex, xs[..i - tailIndex], xs[i - tailIndex]);
        assert xs[..i + 1 - tailIndex] == xs[..i - tailIndex] + [xs[i - tailIndex]];
        var block := tailBlock.value;
        cells := cells[block := cells[block][i % b := Some(xs[i - tailIndex])]];
        i := i + 1;
      }
    }

    /** All blocks are filled in turn, along their links (2702-2771). */
    method FillBlocks(xs: seq<T>, endBlock: Option<BlockId>, ghost plan: map<nat, BlockId>, ghost hi: nat)
      requires b > 0 && Injective(plan) && Filled(cells, cells, plan, b, tailIndex, [])
      requires xs == [] ==> tailBlock == endBlock
      requires xs != [] ==>
        && hi == Blocks(tailIndex + |xs|, b) && (forall m :: tailIndex / b <= m < hi ==> m in plan)
        && (forall m :: tailIndex / b <= m < hi - 1 ==> Follows(next, plan, m))
        && tailIndex / b < hi && tailBlock == Some(plan[tailIndex / b]) && endBlock == Some(plan[hi - 1])
      modifies this`cells, this`tailBlock
      ensures Filled(cells, old(cells), plan, b, tailIndex, xs) && tailBlock == endBlock
    {
      var newTailIndex, currentTailIndex := tailIndex + |xs|, tailIndex;
      ghost var was := cells;
      assert xs[..0] == [];
      while true
        invariant tailIndex <= currentTailIndex <= newTailIndex
        invariant Filled(cells, was, plan, b, tailIndex, xs[..currentTailIndex - tailIndex])
        invariant xs == [] ==> tailBlock == endBlock
        invariant xs != [] ==>
          && currentTailIndex < newTailIndex && tailIndex / b <= currentTailIndex / b < hi
          && tailBlock == Some(plan[currentTailIndex / b])
        decreases hi - currentTailIndex / b
      {
        var stopIndex: int := WrapAround.BlockBase(currentTailIndex, b) + b;
        if xs != [] {
          StopIndex(currentTailIndex, newTailIndex, b);
        }
        if newTailIndex < stopIndex {
          stopIndex := newTailIndex;
        }
        FillBlock(xs, currentTailIndex, stopIndex, plan, was);
        ghost var q := currentTailIndex / b;
        currentTailIndex := stopIndex;
        if tailBlock == endBlock {
          if xs != [] {
            assert Apart(plan, q, hi - 1);
          }
          break;
        }
        assert Follows(next, plan, q);
        tailBlock := next[tailBlock.value];
      }
      assert xs[..|xs|] == xs;
    }

    /** `enqueue_bulk` (2626-2774): all the elements in order, or none. While it gets its blocks consumers may
        go on. It fails only where, with head, blocks and pool as they then are, something stands in the way of
        one of the blocks; and if consumers do nothing, exactly when there is such a block. */
    method EnqueueBulk(xs: seq<T>, canAlloc: bool, supply: seq<Supply>) returns (ok: bool)
      requires Quiet()
      modifies this`tailIndex, this`tailBlock, this`next, this`headIndex, this`counts, this`cells, this`pool, this`blocks, this`extra, this`items, this`done, index
      ensures Quiet() && Keeps(old(index.View()), index.View(), old(index.hi))
      ensures Total(View()) == Total(old(View())) && old(headIndex) <= headIndex && old(done) <= done
      ensures NoActs(supply) ==> headIndex == old(headIndex) && done == old(done)
      ensures ok ==> items == old(items) + xs
      ensures !ok ==> Consumed(old(View()), View()) && tailBlock == old(tailBlock)
      ensures !ok && NoActs(supply) ==> blocks == old(blocks) && pool == old(pool)
      ensures ok ==> forall i :: 0 <= i < index.hi - old(index.hi) ==> Chose(supply, old(index.hi), i, blocks)
      ensures !ok && old(index.headers) != [] ==>
        exists j :: 0 <= j < old(Blocks(tailIndex + |xs|, b) - index.hi) && Stopped(View(), limit, index.Cap(), canAlloc, supply, old(index.hi), j)
      ensures NoActs(supply) ==> (ok <==>
        && (old(Blocks(tailIndex + |xs|, b) == index.hi || index.headers != []))
        && forall j :: 0 <= j < old(Blocks(tailIndex + |xs|, b) - index.hi) ==>
             !StoppedAt(old(View()), limit, old(index.Cap()), canAlloc, supply, old(index.hi), j))
    {
      hide Core.Valid, Ix.Valid, Tight, ExtraOk, Keeps, Stopped, Chained, Total;
      var startBlock := tailBlock;
      var first;
      ok, first := Allocate(|xs|, canAlloc, supply);
      if ok {
        ChoseAll(supply, old(index.hi), Blocks(tailIndex + |xs|, b) - old(index.hi));
        FillAndCommit(xs, startBlock, first);
      } else if NoActs(supply) {
        NothingConsumed(old(View()), View());
      }
    }

    /** What was supplied is what the plan has. */
    lemma ChoseAll(supply: seq<Supply>, n: nat, count: nat)
      requires forall i :: 0 <= i < count ==> Chose(supply, n, i, extra)
      ensures forall i :: 0 <= i < count ==> Chose(supply, n, i, blocks + extra)
    {
      forall i | 0 <= i < count
        ensures Chose(supply, n, i, blocks + extra)
      {
        assert Chose(supply, n, i, extra);
      }
    }

    method FillAndCommit(xs: seq<T>, startBlock: Option<BlockId>, first: Option<BlockId>)
      requires Valid() && index.hi == Blocks(tailIndex + |xs|, b)
      requires Chained(startBlock, first, Blocks(tailIndex, b), index.hi) && IsTail(startBlock)
      modifies this`tailIndex, this`tailBlock, this`cells, this`blocks, this`extra, this`items
      ensures Quiet() && items == old(items) + xs && Total(View()) == Total(old(View())) + old(extra).Values
      ensures blocks == old(blocks) + old(extra)
    {
      hide Core.Valid, Ix.Valid, Tight, Filled, Injective;
      ghost var c := View();
      TailBlockAfter(|xs|, startBlock, first);
      Fill(xs, startBlock, first);
      Commit(xs, c);
    }

    method Fill(xs: seq<T>, startBlock: Option<BlockId>, first: Option<BlockId>)
      requires Valid() && index.hi == Blocks(tailIndex + |xs|, b)
      requires Chained(startBlock, first, Blocks(tailIndex, b), index.hi) && IsTail(startBlock)
      modifies this`tailBlock, this`cells
      ensures Filled(cells, old(cells), blocks + extra, b, tailIndex, xs) && tailBlock == old(tailBlock)
    {
      hide Core.Valid, Ix.Valid, Tight, ExtraOk, Linked, Filled;
      ghost var plan, hi := blocks + extra, index.hi;
      FillReady(|xs|, startBlock, first);
      var endBlock := tailBlock;
      tailBlock := if AtBlockEnd() && first.Some? then first else startBlock;
      FillBlocks(xs, endBlock, plan, hi);
    }

    /** The blocks to fill: those in use or got, from the one that the tail index is in. */
    ghost predicate Fillable(count: nat, start: Option<BlockId>)
      requires b > 0
      reads this
    {
      var plan, f, hi := blocks + extra, tailIndex / b, Blocks(tailIndex + count, b);
      && (count == 0 ==> start == tailBlock)
      && (count > 0 ==>
            && (forall m :: f <= m < hi ==> m in plan)
            && (forall m :: f <= m < hi - 1 ==> Follows(next, plan, m))
            && f < hi && start == Some(plan[f]) && tailBlock == Some(plan[hi - 1]))
    }

    lemma TailBlockAfter(count: nat, startBlock: Option<BlockId>, first: Option<BlockId>)
      requires Valid() && index.hi == Blocks(tailIndex + count, b)
      requires Chained(startBlock, first, Blocks(tailIndex, b), index.hi) && IsTail(startBlock)
      ensures var t := tailIndex + count; t % b != 0 && t / b in blocks + extra ==> tailBlock == Some((blocks + extra)[t / b])
      ensures blocks.Keys !! extra.Keys
    {
      PlanSized(View(), extra, index.hi);
      BlockNumbers(tailIndex, count, b);
      SameTail(tailIndex, count, b);
    }

    lemma FillReady(count: nat, startBlock: Option<BlockId>, first: Option<BlockId>)
      requires Valid() && index.hi == Blocks(tailIndex + count, b)
      requires Chained(startBlock, first, Blocks(tailIndex, b), index.hi) && IsTail(startBlock)
      ensures Injective(blocks + extra) && Filled(cells, cells, blocks + extra, b, tailIndex, [])
      ensures Fillable(count, if AtBlockEnd() && first.Some? then first else startBlock)
    {
      hide Core.Valid, Ix.Valid, Tight;
      PlanSized(View(), extra, index.hi);
      FilledNone(View(), blocks + extra);
      BlockNumbers(tailIndex, count, b);
      if !AtBlockEnd() {
        ExtraApart(View(), extra, index.hi, tailIndex / b);
      }
      FollowPlan(next, blocks, extra, tailIndex / b, Blocks(tailIndex, b), index.hi);
    }
  }

  /** Where no new block is needed, the tail index stays in the same block. */
  lemma SameTail(tail: nat, count: nat, b: nat)
    requires b > 0
    ensures (tail + count) % b != 0 && Blocks(tail + count, b) == Blocks(tail, b) ==> tail % b != 0 && (tail + count) / b == tail / b
    ensures Blocks(tail, b) <= Blocks(tail + count, b)
  {
    DivMonotone(tail, tail + count, b);
    BlocksMonotone(tail, tail + count, b);
  }

  lemma BlockNumbers(tail: nat, count: nat, b: nat)
    requires b > 0
    ensures Blocks(tail, b) == tail / b + if tail % b == 0 then 0 else 1
    ensures count > 0 ==> Blocks(tail + count, b) > tail / b
    ensures (tail + count) % b != 0 ==> (tail + count) / b == Blocks(tail + count, b) - 1
  {
    IndexInBlocks(tail, tail + count, b);
  }

  /** Number `f` is that of the tail block if this has room, and the first of the new ones otherwise. */
  lemma FollowPlan(next: map<BlockId, Option<BlockId>>, blocks: map<nat, BlockId>, extra: map<nat, BlockId>, f: nat, n: nat, hi: nat)
    requires n <= hi && Linked(next, extra, n, hi) && (f == n || f == n - 1)
    requires f < n ==> f in blocks && f !in extra
    requires f < n < hi ==> blocks[f] in next && next[blocks[f]] == Some(extra[n])
    ensures forall m :: f <= m < hi ==> m in blocks + extra
    ensures forall m :: f <= m < hi - 1 ==> Follows(next, blocks + extra, m)
  {
    forall m | f <= m < hi - 1
      ensures Follows(next, blocks + extra, m)
    {
      assert n <= m ==> Follows(next, extra, m);
    }
  }

  lemma EndOfBlock(i: nat, b: nat)
    requires b > 0
    ensures var end := WrapAround.BlockBase(i, b) + b; i < end && i % b + (end - i) == b && end / b == i / b + 1
  {
    assert i == b * (i / b) + i % b;
    assert b * (i / b + 1) == b * (i / b) + b;
    WrapAround.DivModUnique(b * (i / b + 1), b, i / b + 1, 0);
  }

  lemma {:induction false} RangePart(start: nat, n: nat, count: nat)
    requires n <= count
    ensures Range(start, n) <= Range(start, count)
  {
  }

  /** After the first `n` elements the next `m` are done. */
  lemma {:induction false} RangesMeet(done: set<nat>, first: nat, n: nat, m: nat)
    ensures done + Range(first, n) + Range(first + n, m) == done + Range(first, n + m)
  {
  }

  lemma {:induction false} RangeRest(done: set<nat>, i: nat, n: nat, count: nat)
    requires n <= count && done !! Range(i, count)
    ensures (done + Range(i, n)) !! Range(i + n, count - n)
  {
  }

  lemma WithinBlock(from: nat, i: nat, b: nat)
    requires b > 0 && from <= i < Base(b, from / b) + b
    ensures i / b == from / b
  {
    assert from == b * (from / b) + from % b;
    WrapAround.DivModUnique(i, b, from / b, i - b * (from / b));
  }

  lemma LinkedKept(next: map<BlockId, Option<BlockId>>, extra: map<nat, BlockId>, n: nat, hi: nat, block: BlockId)
    requires Linked(next, extra, n, hi) && hi !in extra
    ensures Linked(next, extra[hi := block], n, hi)
  {
    var more := extra[hi := block];
    forall m | n <= m < hi - 1
      ensures Follows(next, more, m)
    {
      assert Follows(next, extra, m);
    }
  }

  /** One more block linked behind the last one, `t`. */
  lemma LinkedMore(next: map<BlockId, Option<BlockId>>, next': map<BlockId, Option<BlockId>>, extra: map<nat, BlockId>, n: nat, hi: nat, t: Option<BlockId>)
    requires n < hi && Linked(next, extra, n, hi - 1) && Injective(extra) && hi - 1 in extra && extra[hi - 1] in next'
    requires forall x :: x in next && Some(x) != t && x != extra[hi - 1] ==> x in next' && next'[x] == next[x]
    requires n < hi - 1 ==> t == Some(extra[hi - 2]) && t.value in next' && next'[t.value] == Some(extra[hi - 1])
    ensures Linked(next', extra, n, hi)
  {
    forall m | n <= m < hi - 1
      ensures extra[m] in next' && Follows(next', extra, m)
    {
      assert Apart(extra, m, hi - 1) && Apart(extra, m, hi - 2);
      assert m < hi - 2 ==> Follows(next, extra, m);
    }
  }

  ghost function Part(extra: map<nat, BlockId>, n: nat, j: nat): set<BlockId> {
    set m | m in extra && n <= m < n + j :: extra[m]
  }

  /** The base of the block before the next one (2644). */
  lemma LastBase(tail: nat, b: nat)
    requires b > 0
    ensures WrapAround.BlockBase(tail - 1, b) == Base(b, Blocks(tail, b) - 1)
  {
    var q, r := tail / b, tail % b;
    assert tail == b * q + r;
    if r == 0 {
      assert b * (q - 1) == b * q - b;
      WrapAround.DivModUnique(tail - 1, b, q - 1, b - 1);
    } else {
      WrapAround.DivModUnique(tail - 1, b, q, r - 1);
    }
  }

  lemma NewExtra(extra: map<nat, BlockId>, m: nat, block: BlockId)
    requires m !in extra
    ensures extra[m := block].Values == extra.Values + {block}
  {
    var extra' := extra[m := block];
    assert extra'[m] == block;
    forall x | x in extra.Values
      ensures x in extra'.Values
    {
      var k :| k in extra && extra[k] == x;
      assert extra'[k] == x;
    }
  }

  lemma ReservedProgress<T>(c: Core<T>, c2: Core<T>, extra: map<nat, BlockId>, m: nat, block: BlockId)
    requires c2.Valid() && Progressed(c, c2) && Total(c2) + extra.Values == Total(c) && block in c2.pool && m !in extra
    ensures Progressed(c, Reserved(c2, block)) && Total(Reserved(c2, block)) + extra[m := block].Values == Total(c)
  {
    ReservedTotal(c2, block);
    NewExtra(extra, m, block);
  }

  lemma NextBase(b: nat, m: int)
    ensures Base(b, m - 1) == Base(b, m) - b
    ensures b > 0 ==> (Base(b, m) > 0 <==> m > 0)
  {
  }

  lemma BaseDifference(b: nat, m: int, k: int)
    ensures Base(b, m) - Base(b, k) == Base(b, m - k)
  {
  }

  lemma BlocksBelow<T>(c: Core<T>)
    requires c.Valid()
    ensures forall m :: m in c.blocks ==> m < Blocks(c.tail, c.b)
  {
    forall m | m in c.blocks
      ensures m < Blocks(c.tail, c.b)
    {
      assert c.NumberOk(m);
    }
  }

  /** Blocks that nobody has may be put back. */
  lemma ReturnedValid<T>(c: Core<T>, extra: map<nat, BlockId>, hi: nat)
    requires c.Valid() && ExtraOk(c, extra, hi)
    ensures c.(pool := c.pool + extra.Values).Valid()
    ensures Injective(c.blocks)
  {
    var c' := c.(pool := c.pool + extra.Values);
    forall m: nat
      ensures c'.NumberOk(m)
    {
      assert c.NumberOk(m);
      if m in c.blocks {
        ExtraApart(c, extra, hi, m);
      }
    }
    forall i: nat
      ensures c'.ItemOk(i)
    {
      assert c.ItemOk(i);
    }
  }

  lemma PlanSized<T>(c: Core<T>, extra: map<nat, BlockId>, hi: nat)
    requires c.Valid() && ExtraOk(c, extra, hi)
    ensures c.blocks.Keys !! extra.Keys
    ensures forall m :: m in c.blocks + extra ==> (c.blocks + extra)[m] in c.cells && |c.cells[(c.blocks + extra)[m]]| == c.b
  {
    forall m | m in c.blocks
      ensures m !in extra
    {
      ExtraApart(c, extra, hi, m);
    }
    forall m | m in c.blocks + extra
      ensures (c.blocks + extra)[m] in c.cells && |c.cells[(c.blocks + extra)[m]]| == c.b
    {
      assert c.NumberOk(m);
    }
  }

  lemma PlanBelow<T>(c: Core<T>, extra: map<nat, BlockId>, hi: nat)
    requires c.Valid() && ExtraOk(c, extra, hi) && Blocks(c.tail, c.b) <= hi
    ensures hi !in c.blocks + extra
  {
    assert c.NumberOk(hi);
  }

  lemma ReservedExtra<T>(c: Core<T>, extra: map<nat, BlockId>, hi: nat, block: BlockId)
    requires c.Valid() && ExtraOk(c, extra, hi) && Blocks(c.tail, c.b) <= hi && block in c.pool
    ensures ExtraOk(Reserved(c, block), extra[hi := block], hi + 1)
    ensures c.blocks + extra[hi := block] == (c.blocks + extra)[hi := block]
  {
    ReservedValid(c, block);
    assert c.blocks + extra[hi := block] == (c.blocks + extra)[hi := block];
    InjectiveMore(c.blocks + extra, hi, block);
  }

  lemma CommitReady<T>(c: Core<T>, extra: map<nat, BlockId>, hi: nat, xs: seq<T>, cells: map<BlockId, seq<Option<T>>>)
    requires c.Valid() && ExtraOk(c, extra, hi) && hi == Blocks(c.tail + |xs|, c.b)
    requires Filled(cells, c.cells, c.blocks + extra, c.b, c.tail, xs)
    ensures var c' := Extended(c, xs, c.blocks + extra, cells);
            && c'.Valid() && Total(c') == Total(c) + extra.Values
            && (c'.tail % c.b != 0 ==> c'.tail / c.b in c'.blocks)
  {
    PlanSized(c, extra, hi);
    ExtraTotal(c, extra, xs, cells);
    ExtraPlans(c, extra, |xs|);
    ExtendedValid(c, xs, c.blocks + extra, cells);
    if (c.tail + |xs|) % c.b != 0 {
      TailInUse(Extended(c, xs, c.blocks + extra, cells));
    }
  }

  lemma ExtraPlans<T>(c: Core<T>, extra: map<nat, BlockId>, n: nat)
    requires c.Valid() && ExtraOk(c, extra, Blocks(c.tail + n, c.b))
    ensures Plans(c, c.blocks + extra, n)
  {
    forall m | m in c.blocks
      ensures (c.blocks + extra)[m] == c.blocks[m]
    {
      ExtraApart(c, extra, Blocks(c.tail + n, c.b), m);
    }
  }

  lemma ExtraTotal<T>(c: Core<T>, extra: map<nat, BlockId>, xs: seq<T>, cells: map<BlockId, seq<Option<T>>>)
    requires c.Valid() && c.blocks.Keys !! extra.Keys
    ensures Total(Extended(c, xs, c.blocks + extra, cells)) == Total(c) + extra.Values
  {
    var plan := c.blocks + extra;
    forall x | x in c.blocks.Values + extra.Values
      ensures x in plan.Values
    {
      if x in c.blocks.Values {
        var m :| m in c.blocks && c.blocks[m] == x;
        assert m in plan && plan[m] == x;
      } else {
        var m :| m in extra && extra[m] == x;
        assert m in plan && plan[m] == x;
      }
    }
    assert plan.Values == c.blocks.Values + extra.Values;
  }

  lemma ReservedTotal<T>(c: Core<T>, block: BlockId)
    requires c.Valid() && block in c.pool
    ensures Total(Reserved(c, block)) + {block} == Total(c)
  {
  }

  lemma FilledNone<T>(c: Core<T>, plan: map<nat, BlockId>)
    requires c.b > 0
    requires forall m :: m in plan ==> plan[m] in c.cells && |c.cells[plan[m]]| == c.b
    ensures Filled(c.cells, c.cells, plan, c.b, c.tail, [])
  {
  }

  lemma NextInBlock(i: nat, b: nat)
    requires b > 0
    ensures (i + 1) % b != 0 ==> (i + 1) / b == i / b
  {
    if i % b + 1 == b {
      assert b * (i / b + 1) == b * (i / b) + b;
      WrapAround.DivModUnique(i + 1, b, i / b + 1, 0);
    } else {
      WrapAround.DivModUnique(i + 1, b, i / b, i % b + 1);
    }
  }
}
