/**
 The explicit producer: a ring of blocks that are reused once all their elements are dequeued, and a
 circular index from block bases to blocks that consumers search without a lock
 (shared/queue_internal/concurrentqueue.h:1765-2411).

 A producer operation or a consumer's completion of one element is one method call. A consumer's
 search is spread over several: it loads the index header, later its front slot, later the entries;
 any number of other calls may come in between.
 */
module ExplicitProducer {
  import opened Basics
  import WrapAround
  import Block
  import opened Indices

  type BlockId = nat

  datatype Entry = Entry(base: nat, block: BlockId)

  /** The window of block numbers an index holds, and where: number `m` is in slot `(m + shift) % size`. */
  class Header {
    const size: nat
    const entries: array<Entry>
    var front: nat
    ghost const shift: int
    ghost var lo: nat
    ghost var hi: nat

    constructor (size: nat, ghost shift: int, ghost lo: nat)
      requires size > 0
      ensures this.size == size && this.shift == shift && this.lo == lo && this.hi == lo && front == 0
      ensures fresh(entries) && entries.Length == size
    {
      this.size := size;
      entries := new Entry[size](_ => Entry(0, 0));
      front := 0;
      this.shift := shift;
      this.lo, this.hi := lo, lo;
    }

    /** `all` lists the entries of all block numbers so far. */
    ghost predicate Valid(all: seq<Entry>)
      reads this, entries
    {
      && size > 0 && entries.Length == size
      && lo <= hi <= |all| && hi - lo <= size
      && (lo < hi ==> front == Slot(hi - 1, shift, size))
      && forall m :: lo <= m < hi ==> entries[Slot(m, shift, size)] == all[m]
    }

    /** Writes the entry of the next block number into its slot, then publishes the slot (1938-1941). The
        window moves on to start at `lo'`. */
    method Push(slot: nat, e: Entry, ghost lo': nat, ghost all: seq<Entry>)
      requires Valid(all) && hi == |all| && slot == Slot(|all|, shift, size)
      requires lo <= lo' <= |all| && |all| - lo' < size
      modifies this`front, this`lo, this`hi, entries
      ensures Valid(all + [e]) && lo == lo' && hi == |all| + 1
    {
      entries[slot] := e;
      front := slot;
      forall m | lo' <= m < |all|
        ensures entries[Slot(m, shift, size)] == all[m]
      {
        SlotsDiffer(m, |all|, shift, size);
      }
      lo, hi := lo', |all| + 1;
    }

    /** The header holds the block of element index `i`. */
    ghost predicate Holds(b: nat, i: nat)
      requires b > 0
      reads this
    {
      lo <= i / b < hi
    }

    /** `f` is a front slot from which the block of `i` can be found. */
    ghost predicate Finds(b: nat, f: nat, i: nat)
      requires b > 0 && size > 0
      reads this
    {
      exists k :: lo <= i / b <= k < hi && f == Slot(k, shift, size)
    }
  }

  /** The blocks and elements of a producer, with their history: `items` is everything ever enqueued,
      `done` the indices of elements completely dequeued, `placed` the block of each block number. */
  datatype Core<T> = Core(
    b: nat,
    tail: nat,
    head: nat,
    tailBlock: Option<BlockId>,
    next: map<BlockId, BlockId>,
    flags: map<BlockId, seq<bool>>,
    cells: map<BlockId, seq<Option<T>>>,
    used: nat,
    items: seq<T>,
    done: set<nat>,
    placed: seq<BlockId>)
  {
    /** The oldest block number still in the ring. */
    function Lo(): int { |placed| - used }

    /** The blocks from the oldest to the tail block form a ring through their `next` links. */
    ghost predicate RingOk() {
      && b > 0 && used <= |placed|
      && (used == 0 ==> placed == [] && tailBlock.None?)
      && (used > 0 ==>
            tailBlock == Some(placed[|placed| - 1]) && tailBlock.value in next && next[tailBlock.value] == placed[Lo()])
      && (forall m :: Lo() <= m < |placed| ==> placed[m] in next)
      && (forall m, k :: Lo() <= m < k < |placed| ==> placed[m] != placed[k])
      && (forall m :: Lo() <= m < |placed| - 1 ==> next[placed[m]] == placed[m + 1])
    }

    ghost predicate HasBlock(m: int)
      requires 0 <= m < |placed|
    {
      && placed[m] in flags && |flags[placed[m]]| == b
      && placed[m] in cells && |cells[placed[m]]| == b
    }

    /** Index `i` is in a block of the ring, its flag says whether it is done, and if it is enqueued and
        not done its cell holds it. */
    ghost predicate IndexOk(i: nat)
      requires b > 0 && used <= |placed| && |items| == tail
    {
      && (i < tail && i !in done ==> Lo() <= i / b < |placed|)
      && (Lo() <= i / b < |placed| ==>
            && HasBlock(i / b)
            && (Block.IsReleased(flags[placed[i / b]], i % b) <==> i in done)
            && (i < tail && i !in done ==> cells[placed[i / b]][i % b] == Some(items[i])))
    }

    ghost predicate Valid() {
      && RingOk()
      && head <= tail == |items| && |placed| == Blocks(tail, b)
      && (forall i :: i in done ==> i < head)
      && (forall m :: Lo() <= m < |placed| ==> HasBlock(m))
      && (forall i: nat :: IndexOk(i))
    }
  }

  function Blank(b: nat): seq<bool> { seq(b, _ => false) }

  function WithCell<T>(cells: map<BlockId, seq<Option<T>>>, block: BlockId, b: nat, k: nat, x: T): map<BlockId, seq<Option<T>>> {
    var before := if block in cells && |cells[block]| == b then cells[block] else seq(b, _ => None);
    if k < b then cells[block := before[k := Some(x)]] else cells
  }

  /** One more element in the tail block. */
  function Appended<T>(c: Core<T>, x: T): Core<T>
    requires c.b > 0 && c.tailBlock.Some?
  {
    c.(tail := c.tail + 1, items := c.items + [x],
       cells := WithCell(c.cells, c.tailBlock.value, c.b, c.tail % c.b, x))
  }

  /** The `next` links with `block` put behind the tail block. */
  function Linked<T>(c: Core<T>, block: BlockId): map<BlockId, BlockId> {
    if c.tailBlock.None? || c.tailBlock.value !in c.next then c.next[block := block]
    else c.next[block := c.next[c.tailBlock.value]][c.tailBlock.value := block]
  }

  /** A new block started with `x`: the one ahead in the ring, or one from the pool. */
  function Started<T>(c: Core<T>, x: T, reuse: bool, block: BlockId): Core<T> {
    c.(tail := c.tail + 1, items := c.items + [x],
       tailBlock := Some(block),
       next := if reuse then c.next else Linked(c, block),
       used := if reuse then c.used else c.used + 1,
       flags := c.flags[block := Blank(c.b)],
       cells := WithCell(c.cells, block, c.b, 0, x),
       placed := c.placed + [block])
  }

  /** The element at `i` is completely dequeued. */
  function Completed<T>(c: Core<T>, i: nat): Core<T>
    requires c.b > 0 && i / c.b < |c.placed| && c.placed[i / c.b] in c.flags
    requires |c.flags[c.placed[i / c.b]]| == c.b
  {
    var block := c.placed[i / c.b];
    c.(done := c.done + {i}, flags := c.flags[block := Block.MarkOne(c.flags[block], i)])
  }

  predicate AllSet(flags: seq<bool>) { forall k :: 0 <= k < |flags| ==> flags[k] }

  lemma AppendedIndex<T>(c: Core<T>, x: T, i: nat)
    requires c.RingOk() && c.used > 0 && |c.items| == c.tail && c.tail !in c.done
    requires c.tail / c.b == |c.placed| - 1 && c.HasBlock(|c.placed| - 1)
    requires c.IndexOk(i)
    ensures Appended(c, x).IndexOk(i)
  {
    var n := |c.placed|;
    if i != c.tail && c.Lo() <= i / c.b < n && c.placed[i / c.b] == c.placed[n - 1] {
      assert i / c.b == n - 1;
      if i % c.b == c.tail % c.b {
        SamePlace(i, c.tail, c.b);
      }
    }
  }

  lemma AppendedValid<T>(c: Core<T>, x: T)
    requires c.Valid() && c.tail % c.b != 0
    ensures c.tailBlock.Some? && Appended(c, x).Valid()
  {
    BlocksNext(c.tail, c.b);
    var c', n := Appended(c, x), |c.placed|;
    assert c.used > 0 && c.HasBlock(n - 1);
    forall m | c'.Lo() <= m < n
      ensures c'.HasBlock(m)
    {
      assert c.HasBlock(m);
    }
    forall i: nat
      ensures c'.IndexOk(i)
    {
      assert c.IndexOk(i);
      AppendedIndex(c, x, i);
    }
  }

  lemma BlocksPlaced<T>(c: Core<T>)
    requires c.Valid()
    ensures c.b > 0 && |c.placed| == Blocks(c.tail, c.b) && c.used <= |c.placed|
    ensures c.tailBlock.Some? ==> c.tailBlock.value in c.next
  {
  }

  lemma StartedRing<T>(c: Core<T>, x: T, reuse: bool, block: BlockId)
    requires c.RingOk()
    requires reuse ==> c.used > 0 && block == c.placed[c.Lo()]
    requires !reuse ==> forall m :: c.Lo() <= m < |c.placed| ==> c.placed[m] != block
    ensures Started(c, x, reuse, block).RingOk()
  {
    var c', n := Started(c, x, reuse, block), |c.placed|;
    assert forall m :: 0 <= m < n ==> c'.placed[m] == c.placed[m];
    if c.used > 0 {
      assert c.placed[n - 1] == c.tailBlock.value;
    }
  }

  lemma StartedValid<T>(c: Core<T>, x: T, reuse: bool, block: BlockId)
    requires c.Valid() && c.tail % c.b == 0
    requires reuse ==> c.used > 0 && block == c.placed[c.Lo()] && block in c.flags && AllSet(c.flags[block])
    requires !reuse ==> forall m :: c.Lo() <= m < |c.placed| ==> c.placed[m] != block
    ensures Started(c, x, reuse, block).Valid()
  {
    BlocksNext(c.tail, c.b);
    StartedRing(c, x, reuse, block);
    var c', n := Started(c, x, reuse, block), |c.placed|;
    forall m | c'.Lo() <= m < |c'.placed|
      ensures c'.HasBlock(m)
    {
      if m < n {
        assert c.HasBlock(m);
      }
    }
    forall i: nat
      ensures c'.IndexOk(i)
    {
      assert c.IndexOk(i);
      IndexInBlocks(i, c.tail, c.b);
      if i == c.tail {
        assert i % c.b == 0 && i / c.b == n;
      } else if i / c.b == n {
        assert i > c.tail;
      } else if c.Lo() <= i / c.b < n {
        if reuse && i / c.b == c.Lo() {
          assert c.HasBlock(c.Lo());
          assert Block.IsReleased(c.flags[block], i % c.b);
        } else {
          assert c.placed[i / c.b] != block;
        }
      }
    }
  }

  lemma CompletedValid<T>(c: Core<T>, i: nat)
    requires c.Valid() && i < c.head && i !in c.done
    ensures c.IndexOk(i) && Completed(c, i).Valid()
  {
    assert c.IndexOk(i);
    var c' := Completed(c, i);
    forall m | c'.Lo() <= m < |c'.placed|
      ensures c'.HasBlock(m)
    {
      assert c.HasBlock(m);
    }
    forall j: nat
      ensures c'.IndexOk(j)
    {
      assert c.IndexOk(j);
      if j != i && c.Lo() <= j / c.b < |c.placed| {
        if j / c.b == i / c.b && j % c.b == i % c.b {
          SamePlace(i, j, c.b);
        }
        assert c.placed[j / c.b] == c.placed[i / c.b] ==> j / c.b == i / c.b;
      }
    }
  }

  /** The block ahead of the tail block has been emptied completely. */
  predicate CanReuse<T>(c: Core<T>) {
    && c.tailBlock.Some? && c.tailBlock.value in c.next
    && c.next[c.tailBlock.value] in c.flags && AllSet(c.flags[c.next[c.tailBlock.value]])
  }

  /** The next block is reused exactly when all elements of the oldest block in the ring are dequeued, in
      whatever order that happened. */
  lemma ReusedExactly<T>(c: Core<T>)
    requires c.Valid()
    ensures CanReuse(c) <==> c.used > 0 && forall i: nat :: i / c.b == c.Lo() ==> i in c.done
  {
    if c.used > 0 {
      var block := c.placed[c.Lo()];
      assert c.HasBlock(c.Lo());
      forall i: nat | i / c.b == c.Lo()
        ensures Block.IsReleased(c.flags[block], i % c.b) <==> i in c.done
      {
        assert c.IndexOk(i);
      }
      if forall i: nat :: i / c.b == c.Lo() ==> i in c.done {
        forall k | 0 <= k < c.b
          ensures c.flags[block][k]
        {
          var i := c.b * c.Lo() + (c.b - 1 - k);
          WrapAround.DivModUnique(i, c.b, c.Lo(), c.b - 1 - k);
          assert i / c.b == c.Lo() && i % c.b == c.b - 1 - k;
          assert Block.IsReleased(c.flags[block], i % c.b);
        }
      }
    }
  }

  /** The enqueue of one element with room in the index (1849-1952); `pool` is what the block pool gives. */
  function Enqueued<T>(c: Core<T>, x: T, limit: WrapAround.Limit, pool: Option<BlockId>): Core<T>
    requires c.b > 0
  {
    if c.tail % c.b != 0 then if c.tailBlock.Some? then Appended(c, x) else c
    else if CanReuse(c) then Started(c, x, true, c.next[c.tailBlock.value])
    else if WrapAround.Refused(c.tail, c.head, c.b, limit) || pool.None? then c
    else Started(c, x, false, pool.value)
  }

  /** The block of a pool is not one of the ring's. */
  ghost predicate FromPool<T>(c: Core<T>, pool: Option<BlockId>) {
    pool.Some? ==> forall m :: 0 <= c.Lo() <= m < |c.placed| ==> c.placed[m] != pool.value
  }

  lemma EnqueuedValid<T>(c: Core<T>, x: T, limit: WrapAround.Limit, pool: Option<BlockId>)
    requires c.Valid() && FromPool(c, pool)
    ensures Enqueued(c, x, limit, pool).Valid()
    ensures c.tail % c.b != 0 ==> c.tailBlock.Some?
    ensures CanReuse(c) ==> c.used > 0 && c.next[c.tailBlock.value] == c.placed[c.Lo()]
  {
    if c.tail % c.b != 0 {
      AppendedValid(c, x);
    } else if CanReuse(c) {
      StartedValid(c, x, true, c.next[c.tailBlock.value]);
    } else if pool.Some? {
      StartedValid(c, x, false, pool.value);
    }
  }

  // ---------------------------------------------------------------- the size limit

  /** No room is left beyond the configured maximum, counting the tail block as full. */
  predicate WithinLimit<T>(c: Core<T>, n: nat)
    requires c.b > 0
  {
    WrapAround.BlockEnd(c.tail, c.b) - c.head <= n
  }

  /** `MAX_SUBQUEUE_SIZE` is not enforced when a block is reused: an enqueue keeps the maximum if and
      only if it does not reuse a block with more than the maximum less one block enqueued. */
  lemma LimitKeptExactly<T>(c: Core<T>, x: T, n: nat, pool: Option<BlockId>)
    requires c.Valid() && FromPool(c, pool) && c.b < WrapAround.HALF && n % c.b == 0
    requires WithinLimit(c, n) && c.tail - c.head < WrapAround.HALF
    ensures WithinLimit(Enqueued(c, x, WrapAround.AtMost(n), pool), n)
       <==> !(c.tail % c.b == 0 && CanReuse(c) && c.tail - c.head > n - c.b)
  {
    EnqueuedValid(c, x, WrapAround.AtMost(n), pool);
    WrapAround.BlockEndNext(c.tail, c.b);
    if c.tail % c.b == 0 && !CanReuse(c) && !WrapAround.Refused(c.tail, c.head, c.b, WrapAround.AtMost(n)) {
      WrapAround.RefusedExactly(c.tail, c.head, c.b, WrapAround.AtMost(n));
    }
  }

  /** Consumers claim the indices up to `head`. */
  lemma HeadMovedValid<T>(c: Core<T>, head: nat)
    requires c.Valid() && c.head <= head <= c.tail
    ensures c.(head := head).Valid() && c.head !in c.done
  {
    var c' := c.(head := head);
    forall m | c'.Lo() <= m < |c'.placed|
      ensures c'.HasBlock(m)
    {
      assert c.HasBlock(m);
    }
    forall i: nat
      ensures c'.IndexOk(i)
    {
      assert c.IndexOk(i);
    }
  }

  class Producer<T> {
    const b: nat                        // BLOCK_SIZE
    const limit: WrapAround.Limit       // MAX_SUBQUEUE_SIZE
    var tailIndex: nat
    var headIndex: nat
    var tailBlock: Option<BlockId>
    var next: map<BlockId, BlockId>
    var emptyFlags: map<BlockId, seq<bool>>
    var cells: map<BlockId, seq<Option<T>>>
    var blockIndex: Header?
    var slotsUsed: nat                  // pr_blockIndexSlotsUsed
    var indexSize: nat                  // pr_blockIndexSize
    var front: nat                      // pr_blockIndexFront, the next slot
    ghost var items: seq<T>
    ghost var done: set<nat>
    ghost var placed: seq<BlockId>
    ghost var headers: set<Header>      // every index header so far
    ghost var all: seq<Entry>           // the index entry of each block number so far

    ghost function View(): Core<T>
      reads this`tailIndex, this`headIndex, this`tailBlock, this`next, this`emptyFlags, this`cells, this`slotsUsed, this`items, this`done, this`placed
    {
      Core(b, tailIndex, headIndex, tailBlock, next, emptyFlags, cells, slotsUsed, items, done, placed)
    }

    /** The header in use, which is the only one that still changes. */
    ghost function Current(): set<object>
      reads this`blockIndex
    {
      if blockIndex == null then {} else {blockIndex, blockIndex.entries}
    }

    /** The current index ends at the next block number and reaches back over `used` of them; older
        headers are left as they were. */
    ghost predicate IndexOk(used: nat)
      reads this`headers, this`all, this`indexSize, this`blockIndex, this`front
      reads headers, set h | h in headers :: h.entries
    {
      && used <= |all| && used <= indexSize && indexSize > 0
      && (forall h :: h in headers ==> h.Valid(all))
      && (forall h, g :: h in headers && g in headers && h != g ==> h.entries != g.entries)
      && (used > 0 ==> blockIndex != null)
      && (blockIndex != null ==>
            && blockIndex in headers && blockIndex.size == indexSize
            && blockIndex.hi == |all| && blockIndex.lo == |all| - used
            && front == Slot(|all|, blockIndex.shift, indexSize))
    }

    ghost predicate Listed()
      reads this`all, this`placed
    {
      |all| == |placed| && forall m :: 0 <= m < |all| ==> all[m] == Entry(Base(b, m), placed[m])
    }

    ghost predicate Valid()
      reads this`tailIndex, this`headIndex, this`tailBlock, this`next, this`emptyFlags, this`cells, this`slotsUsed, this`items, this`done, this`placed
      reads this`headers, this`all, this`indexSize, this`blockIndex, this`front
      reads headers, set h | h in headers :: h.entries
    {
      b > 0 && View().Valid() && IndexOk(slotsUsed) && Listed()
    }

    constructor (blockSize: nat, limit: WrapAround.Limit, initialIndexSize: nat)
      requires blockSize > 1 && initialIndexSize > 1
      ensures Valid() && b == blockSize && this.limit == limit
      ensures items == [] && headIndex == 0 && done == {} && headers == {} && fresh(Current())
    {
      b := blockSize;
      this.limit := limit;
      tailIndex, headIndex := 0, 0;
      tailBlock, next, emptyFlags, cells := None, map[], map[], map[];
      blockIndex, slotsUsed, indexSize, front := null, 0, initialIndexSize / 2, 0;
      items, done, placed, headers, all := [], {}, [], {}, [];
      new;
      ghost var c := View();
      forall i: nat
        ensures c.IndexOk(i)
      {
      }
    }

    /** `new_block_index` (2356-2393): an index of twice the size holding the old entries in order. */
    method NewBlockIndex(granted: bool) returns (ok: bool)
      requires Valid() && (blockIndex == null || slotsUsed == indexSize)
      modifies this`blockIndex, this`indexSize, this`front, this`headers
      ensures Valid() && ok == granted && View() == old(View())
      ensures if ok then headers == old(headers) + {blockIndex} && fresh(Current()) && slotsUsed < indexSize == 2 * old(indexSize)
              else blockIndex == old(blockIndex) && headers == old(headers) && indexSize == old(indexSize)
    {
      hide Core.Valid, Header.Valid;
      if !granted {
        return false;
      }
      var header := LargerIndex();
      front := slotsUsed;
      indexSize := 2 * indexSize;
      blockIndex := header;
      headers := headers + {header};
      ok := true;
    }

    /** Its header, still to be published (2364-2389). */
    method LargerIndex() returns (header: Header)
      requires Valid() && (blockIndex == null || slotsUsed == indexSize)
      ensures fresh(header) && fresh(header.entries) && header.size == 2 * indexSize
      ensures header.Valid(all) && header.lo == |all| - slotsUsed && header.hi == |all|
      ensures Slot(|all|, header.shift, header.size) == slotsUsed
    {
      hide Core.Valid;
      SlotZero(|all|, |all| - slotsUsed, 2 * indexSize);
      if slotsUsed == 0 {
        header := new Header(2 * indexSize, 0 - |all|, |all|);
      } else {
        header := Grow(blockIndex, front, slotsUsed, all);
      }
    }

    /** Adds the tail block to the index (1938-1942). */
    method IndexBlock(block: BlockId, ghost used: nat, ghost used': nat)
      requires IndexOk(used) && blockIndex != null
      requires used' == used || used' == used + 1
      requires 0 < used' <= indexSize
      modifies this`front, this`all, blockIndex, blockIndex.entries
      ensures IndexOk(used') && all == old(all) + [Entry(tailIndex, block)]
      ensures blockIndex.lo == |all| - used' && blockIndex.hi == |all|
      ensures forall h :: h in headers && h != blockIndex ==> h.lo == old(h.lo) && h.hi == old(h.hi)
    {
      blockIndex.Push(front, Entry(tailIndex, block), |all| + 1 - used', all);
      SlotAhead(|all|, 1, blockIndex.shift, indexSize);
      front := Ahead(front, 1, indexSize);
      all := all + [Entry(tailIndex, block)];
    }

    /** Links the block into the ring and stores the element in it (1859-1864, 1904-1916, 1948-1951). */
    method PlaceBlock(x: T, reuse: bool, block: BlockId)
      requires tailBlock.Some? ==> tailBlock.value in next
      modifies this`tailBlock, this`next, this`slotsUsed, this`emptyFlags, this`cells, this`tailIndex, this`items, this`placed
      ensures View() == Started(old(View()), x, reuse, block)
      ensures placed == old(placed) + [block] && slotsUsed == old(slotsUsed) + if reuse then 0 else 1
    {
      hide WithCell, Blank;
      if reuse {
        tailBlock := Some(block);
      } else {
        if tailBlock.None? {
          next := next[block := block];
        } else {
          next := next[block := next[tailBlock.value]];
          next := next[tailBlock.value := block];
        }
        tailBlock := Some(block);
        slotsUsed := slotsUsed + 1;
      }
      emptyFlags := emptyFlags[block := Blank(b)];
      cells := WithCell(cells, block, b, 0, x);
      tailIndex := tailIndex + 1;
      items := items + [x];
      placed := placed + [block];
    }

    /** Searches of consumers are not disturbed: a header's window only moves up, and never past the oldest
        block of the ring, where every element not yet dequeued is. */
    twostate predicate KeepsSearches(was: set<Header>)
      reads this, was
    {
      && was <= headers
      && forall h :: h in was ==> h.hi >= old(h.hi) && (h.lo == old(h.lo) || h.lo <= |placed| - slotsUsed)
    }

    method StartBlock(x: T, reuse: bool, block: BlockId)
      requires Valid() && tailIndex % b == 0 && blockIndex != null
      requires reuse ==> slotsUsed > 0 && block == placed[|placed| - slotsUsed] && block in emptyFlags && AllSet(emptyFlags[block])
      requires !reuse ==> slotsUsed < indexSize && forall m :: |placed| - slotsUsed <= m < |placed| ==> placed[m] != block
      modifies this, blockIndex, blockIndex.entries
      ensures Valid() && View() == Started(old(View()), x, reuse, block)
      ensures blockIndex == old(blockIndex) && headers == old(headers) && KeepsSearches(old(headers))
    {
      hide Core.Valid, AllSet, Started, Header.Valid;
      ghost var c := View();
      BlocksPlaced(c);
      StartedValid(c, x, reuse, block);
      AtBlockStart(tailIndex, b);
      IndexBlock(block, slotsUsed, if reuse then slotsUsed else slotsUsed + 1);
      PlaceBlock(x, reuse, block);
    }

    /** The enqueue when the tail block has room (1946-1952). */
    method AppendToTail(x: T)
      requires Valid() && tailIndex % b != 0
      modifies this`cells, this`tailIndex, this`items
      ensures Valid() && old(tailBlock).Some? && View() == Appended(old(View()), x)
    {
      AppendedValid(View(), x);
      cells := WithCell(cells, tailBlock.value, b, tailIndex % b, x);
      tailIndex := tailIndex + 1;
      items := items + [x];
    }

    /** Whether the block ahead can be reused (1857). */
    method NextIsEmpty() returns (reuse: bool)
      requires Valid()
      ensures reuse == CanReuse(View())
    {
      if tailBlock.None? {
        return false;
      }
      assert View().HasBlock(View().Lo());
      reuse := AllSet(emptyFlags[next[tailBlock.value]]);
    }

    /** `enqueue` (1849-1952). It fails exactly when a new block is needed and the guard refuses it, the
        index cannot grow, or the pool has none; it then leaves all elements as they were. */
    method Enqueue(x: T, canAlloc: bool, indexGranted: bool, pool: Option<BlockId>) returns (ok: bool)
      requires Valid() && FromPool(View(), pool)
      modifies this, Current()
      ensures Valid() && KeepsSearches(old(headers)) && fresh(Current() - old(Current()))
      ensures ok ==> View() == Enqueued(old(View()), x, limit, pool) && items == old(items) + [x]
      ensures !ok ==> View() == old(View())
      ensures !ok <==>
        && old(tailIndex) % b == 0 && !CanReuse(old(View()))
        && (WrapAround.Refused(old(tailIndex), old(headIndex), b, limit)
            || (old(blockIndex == null || slotsUsed == indexSize) && !(canAlloc && indexGranted))
            || pool.None?)
    {
      hide Core.Valid, Header.Valid, WrapAround.Refused, AllSet;
      EnqueuedValid(View(), x, limit, pool);
      if tailIndex % b != 0 {
        AppendToTail(x);
        return true;
      }
      var reuse := NextIsEmpty();
      if reuse {
        StartBlock(x, true, next[tailBlock.value]);
        return true;
      }
      if WrapAround.Refused(tailIndex, headIndex, b, limit) {
        return false;
      }
      ok := StartFromPool(x, canAlloc, indexGranted, pool);
    }

    /** A new block from the pool, with a larger index if need be (1883-1916). */
    method StartFromPool(x: T, canAlloc: bool, indexGranted: bool, pool: Option<BlockId>) returns (ok: bool)
      requires Valid() && FromPool(View(), pool) && tailIndex % b == 0
      modifies this, Current()
      ensures Valid() && KeepsSearches(old(headers)) && fresh(Current() - old(Current()))
      ensures ok ==> pool.Some? && View() == Started(old(View()), x, false, pool.value)
      ensures !ok ==> View() == old(View())
      ensures !ok <==> pool.None? || (old(blockIndex == null || slotsUsed == indexSize) && !(canAlloc && indexGranted))
    {
      hide Core.Valid, Started, Header.Valid;
      var room := MakeRoom(canAlloc, indexGranted);
      if !room || pool.None? {
        return false;
      }
      StartBlock(x, false, pool.value);
      return true;
    }

    method MakeRoom(canAlloc: bool, indexGranted: bool) returns (ok: bool)
      requires Valid()
      modifies this`blockIndex, this`indexSize, this`front, this`headers
      ensures Valid() && View() == old(View()) && old(headers) <= headers && fresh(Current() - old(Current()))
      ensures ok <==> !old(blockIndex == null || slotsUsed == indexSize) || (canAlloc && indexGranted)
      ensures ok ==> blockIndex != null && slotsUsed < indexSize
    {
      if blockIndex != null && slotsUsed < indexSize {
        return true;
      }
      if !canAlloc {
        return false;
      }
      ok := NewBlockIndex(indexGranted);
    }

    /** A search begun before a call of the producer goes on undisturbed after it, as long as its element is
        not dequeued: the header still holds the block, and a front slot loaded from it still leads there. */
    twostate lemma SearchKept(h: Header, f: nat, i: nat)
      requires old(Valid()) && Valid() && KeepsSearches(old(headers)) && h in old(headers)
      requires i < tailIndex && i !in done
      ensures old(h.Holds(b, i)) ==> h.Holds(b, i)
      ensures old(h.Finds(b, f, i)) ==> h.Finds(b, f, i)
    {
      assert View().IndexOk(i);
      if old(h.Finds(b, f, i)) {
        var k :| old(h.lo) <= i / b <= k < old(h.hi) && f == Slot(k, h.shift, h.size);
        assert h.lo <= i / b <= k < h.hi;
      }
    }

    /** A consumer takes the next index; the ticket protocol sees to it that there is one (2003). */
    method Claim() returns (i: nat)
      requires Valid() && headIndex < tailIndex
      modifies this`headIndex
      ensures Valid() && i == old(headIndex) && i !in done && View() == old(View()).(head := i + 1)
    {
      HeadMovedValid(View(), headIndex + 1);
      i := headIndex;
      headIndex := headIndex + 1;
    }

    /** A consumer loads the index header (2008). */
    method LoadIndex(ghost i: nat) returns (h: Header)
      requires Valid() && i < tailIndex && i !in done
      ensures h in headers && h.Holds(b, i)
    {
      assert View().IndexOk(i);
      h := blockIndex;
    }

    /** A consumer loads the front slot of a header it loaded earlier (2009). */
    method LoadFront(h: Header, ghost i: nat) returns (f: nat)
      requires Valid() && h in headers && h.Holds(b, i)
      ensures h.Finds(b, f, i)
    {
      f := h.front;
      assert f == Slot(h.hi - 1, h.shift, h.size);
    }

    /** The search from a front slot loaded earlier (2014-2017) finds the block the element is in. */
    method Find(h: Header, f: nat, i: nat) returns (block: BlockId)
      requires Valid() && h in headers && h.Finds(b, f, i)
      ensures i / b < |placed| && block == placed[i / b]
    {
      ghost var k :| h.lo <= i / b <= k < h.hi && f == Slot(k, h.shift, h.size);
      assert h.entries[Slot(k, h.shift, h.size)] == all[k];
      var headBase := h.entries[f].base;
      OffsetExact(i, k, b);
      var offset := WrapAround.TruncDiv(WrapAround.BlockBase(i, b) - headBase, b);
      SlotMove(k, i / b - k, h.shift, h.size);
      block := h.entries[(f + offset) % h.size].block;
      assert h.entries[Slot(i / b, h.shift, h.size)] == all[i / b];
    }

    /** A consumer moves its element out and marks it (2020-2044): it gets the element that was enqueued
        at its index. */
    method Complete(i: nat, h: Header, f: nat) returns (x: T)
      requires Valid() && i < headIndex && i !in done
      requires h in headers && h.Finds(b, f, i)
      modifies this`emptyFlags, this`done
      ensures x == items[i]
      ensures Valid() && headers == old(headers)
      ensures i / b < |placed| && old(View()).HasBlock(i / b) && View() == Completed(old(View()), i)
    {
      hide Header.Valid;
      CompletedValid(View(), i);
      var block := Find(h, f, i);
      x := cells[block][i % b].value;
      emptyFlags := emptyFlags[block := Block.MarkOne(emptyFlags[block], i)];
      done := done + {i};
    }
  }

  /** The entries of `h` in order at the start of an index of twice the size (2372-2384). */
  method Grow(h: Header, front: nat, used: nat, ghost all: seq<Entry>) returns (g: Header)
    requires h.Valid(all) && h.hi == |all| && h.lo == |all| - used && 0 < used <= h.size
    requires front == Slot(|all|, h.shift, h.size)
    ensures fresh(g) && fresh(g.entries) && g.size == 2 * h.size && g.shift == 0 - h.lo
    ensures g.lo == h.lo && g.hi == h.hi && g.Valid(all)
  {
    g := new Header(2 * h.size, 0 - h.lo, h.lo);
    SlotAhead(h.lo, used, h.shift, h.size);
    var first := Behind(front, used, h.size);
    var j := CopyEntries(h.entries, g.entries, first, front, used);
    g.front := used - 1;
    g.hi := |all|;
    forall m | g.lo <= m < g.hi
      ensures g.entries[Slot(m, g.shift, g.size)] == all[m]
    {
      SlotZero(m, g.lo, g.size);
      SlotAhead(h.lo, m - h.lo, h.shift, h.size);
      assert h.entries[Slot(m, h.shift, h.size)] == all[m];
      assert g.entries[m - h.lo] == h.entries[Ahead(first, m - h.lo, h.size)];
    }
    SlotZero(|all| - 1, g.lo, g.size);
  }

  /** The copying loop of 2373-2378, from slot `first` around to slot `stop`. */
  method CopyEntries(from: array<Entry>, into: array<Entry>, first: nat, stop: nat, ghost count: nat) returns (j: nat)
    requires from != into && 1 <= count <= from.Length <= into.Length
    requires first < from.Length && stop == Ahead(first, count, from.Length)
    modifies into
    ensures j == count && forall k :: 0 <= k < count ==> into[k] == from[Ahead(first, k, from.Length)]
  {
    var i := first;
    into[0] := from[i];
    i := Ahead(i, 1, from.Length);
    j := 1;
    while i != stop
      invariant 1 <= j <= count && i == Ahead(first, j, from.Length)
      invariant forall k :: 0 <= k < j ==> into[k] == from[Ahead(first, k, from.Length)]
      decreases count - j
    {
      into[j] := from[i];
      i := Ahead(i, 1, from.Length);
      j := j + 1;
    }
  }
}
