/**
 The block index of an implicit producer (shared/queue_internal/concurrentqueue.h:2880-3008): circular
 tables of pointers to entries that map the base of a block to the block. Growing makes a table of twice
 the size which shares the entries of the old one, and consumers may go on searching the old table
 while entries are reused through the new one.
 */
module ImplicitIndex {
  import opened Basics
  import WrapAround
  import opened Indices

  type BlockId = nat
  type EntryId = nat

  /** `BlockIndexHeader`: the entry in each slot, and the slot of the newest block. */
  datatype Header = Header(index: seq<EntryId>, tail: nat)

  ghost predicate NoDuplicates(index: seq<EntryId>) { forall s: nat, r: nat :: Distinct(index, s, r) }

  predicate Distinct(index: seq<EntryId>, s: nat, r: nat) { s < r < |index| ==> index[s] != index[r] }

  /** History of a header: block number `m` belongs in slot `(m + shift) % capacity`, and `top` is the
      block number for which the header was replaced by a larger one. */
  datatype Place = Place(shift: int, top: nat)

  /** The index in terms of block numbers: `nums` is the number whose base is an entry's key, or -1 for
      `INVALID_BLOCK_BASE`; `lo` up to `hi` are the numbers that the newest header holds. */
  datatype Ix = Ix(headers: seq<Header>, places: seq<Place>, nums: seq<int>, values: seq<Option<BlockId>>, lo: nat, hi: nat)
  {
    function Last(): int { |headers| - 1 }

    function Capacity(k: nat): nat
      requires k < |headers|
    {
      |headers[k].index|
    }

    ghost predicate Shaped() { |places| == |headers| && |values| == |nums| }

    /** The slot of block number `m` in header `k`. */
    function SlotOf(k: nat, m: int): (s: nat)
      requires k < |headers| == |places| && Capacity(k) > 0
      ensures s < Capacity(k)
    {
      Slot(m, places[k].shift, Capacity(k))
    }

    function EntryAt(k: nat, m: int): EntryId
      requires k < |headers| == |places| && Capacity(k) > 0
    {
      headers[k].index[SlotOf(k, m)]
    }

    /** Slots have different entries, and a key is only ever in its own slot. */
    ghost predicate HeaderOk(k: nat)
      requires Shaped() && k < |headers|
    {
      && Capacity(k) > 0 && headers[k].tail < Capacity(k)
      && (forall s :: 0 <= s < Capacity(k) ==> headers[k].index[s] < |nums|)
      && NoDuplicates(headers[k].index)
      && (forall s :: 0 <= s < Capacity(k) ==> KeyOk(k, s))
    }

    /** Different numbers of one window have different entries. */
    lemma EntriesDiffer(k: nat, m: int, n: int)
      requires Shaped() && k < |headers| && HeaderOk(k) && m < n < m + Capacity(k)
      ensures EntryAt(k, m) != EntryAt(k, n)
    {
      SlotsDiffer(m, n, places[k].shift, Capacity(k));
      var s, r := SlotOf(k, m), SlotOf(k, n);
      assert Distinct(headers[k].index, s, r) && Distinct(headers[k].index, r, s);
    }

    ghost predicate KeyOk(k: nat, s: nat)
      requires Shaped() && k < |headers| && s < Capacity(k) && headers[k].index[s] < |nums|
    {
      var m := nums[headers[k].index[s]];
      m >= -1 && (m >= 0 ==> SlotOf(k, m) == s)
    }

    /** Going back from the tail, keys fall by one block per slot, over the whole window. */
    ghost predicate WindowOk()
      requires Shaped() && headers != [] && HeaderOk(Last())
    {
      && lo <= hi && hi - lo <= Capacity(Last())
      && headers[Last()].tail == SlotOf(Last(), hi - 1)
      && forall m: int :: lo <= m < hi ==> nums[EntryAt(Last(), m)] == m
    }

    /** An outgrown header leads to the entries of the newest one. */
    ghost predicate OldOk(k: nat)
      requires Shaped() && k < |headers| && HeaderOk(k) && HeaderOk(Last())
    {
      && places[k].top - Capacity(k) <= lo && Capacity(k) <= Capacity(Last())
      && Capacity(Last()) % Capacity(k) == 0
      && (forall s :: 0 <= s < Capacity(k) ==> nums[headers[k].index[s]] >= 0)
      && (forall m: int :: lo <= m < places[k].top ==> EntryAt(k, m) == EntryAt(Last(), m))
    }

    ghost predicate Valid() {
      && Shaped()
      && (headers == [] ==> lo == hi == 0 && nums == [])
      && (forall k :: 0 <= k < |headers| ==> HeaderOk(k))
      && (headers != [] ==> WindowOk())
      && (forall k :: 0 <= k < Last() ==> OldOk(k))
    }

    /** The slot has no block: the next one may be put there. */
    predicate Free(e: EntryId)
      requires e < |nums| == |values|
    {
      nums[e] == -1 || values[e].None?
    }

    /** Header `k` can be searched for block number `m`. */
    predicate Reaches(k: nat, m: int)
      requires |places| == |headers|
    {
      k < |headers| && (k == Last() || m < places[k].top)
    }
  }

  /** `index` and `tail` after the next block number went into its slot (2912-2913, 2929-2930). */
  function Inserted(ix: Ix): (r: Ix)
    requires ix.Valid() && ix.headers != []
    ensures r.Shaped() && |r.headers| == |ix.headers|
  {
    var n := ix.Last();
    assert ix.HeaderOk(n);
    ix.(nums := ix.nums[ix.EntryAt(n, ix.hi) := ix.hi],
        headers := ix.headers[n := ix.headers[n].(tail := ix.SlotOf(n, ix.hi))],
        hi := ix.hi + 1,
        lo := if ix.hi + 1 - ix.Capacity(n) > ix.lo then ix.hi + 1 - ix.Capacity(n) else ix.lo)
  }

  lemma InsertedKeys(ix: Ix, k: nat)
    requires ix.Valid() && k < |ix.headers|
    ensures Inserted(ix).HeaderOk(k)
    ensures forall s :: 0 <= s < ix.Capacity(k) && ix.nums[ix.headers[k].index[s]] >= 0 ==> Inserted(ix).nums[ix.headers[k].index[s]] >= 0
  {
    var n, ix' := ix.Last(), Inserted(ix);
    assert ix.HeaderOk(k) && ix.HeaderOk(n);
    assert k < n ==> ix.OldOk(k);
    var e := ix.EntryAt(n, ix.hi);
    forall s | 0 <= s < ix.Capacity(k)
      ensures ix'.KeyOk(k, s)
    {
      assert ix.KeyOk(k, s);
      if ix.headers[k].index[s] == e && k == n {
        var r := ix.SlotOf(n, ix.hi);
        assert Distinct(ix.headers[n].index, s, r) && Distinct(ix.headers[n].index, r, s);
      } else if ix.headers[k].index[s] == e {
        var m := ix.nums[e];
        assert ix.KeyOk(n, ix.SlotOf(n, ix.hi));
        CoarserSlot(m, ix.hi, ix.places[n].shift, ix.Capacity(n), ix.places[k].shift, ix.Capacity(k));
      }
    }
  }

  lemma InsertedWindow(ix: Ix)
    requires ix.Valid() && ix.headers != [] && Inserted(ix).HeaderOk(ix.Last())
    ensures Inserted(ix).WindowOk()
  {
    var n, ix' := ix.Last(), Inserted(ix);
    assert ix.HeaderOk(n);
    forall m: int | ix'.lo <= m < ix'.hi
      ensures ix'.nums[ix'.EntryAt(n, m)] == m
    {
      if m < ix.hi {
        ix.EntriesDiffer(n, m, ix.hi);
      }
    }
  }

  lemma InsertedValid(ix: Ix)
    requires ix.Valid() && ix.headers != []
    ensures Inserted(ix).Valid()
  {
    var n, ix' := ix.Last(), Inserted(ix);
    forall k | 0 <= k < |ix'.headers|
      ensures ix'.HeaderOk(k)
    {
      InsertedKeys(ix, k);
    }
    InsertedWindow(ix);
    forall k | 0 <= k < n
      ensures ix'.OldOk(k)
    {
      InsertedKeys(ix, k);
      InsertedKeys(ix, n);
      InsertedOld(ix, k);
    }
  }

  lemma InsertedOld(ix: Ix, k: nat)
    requires ix.Valid() && k < ix.Last() && Inserted(ix).HeaderOk(k) && Inserted(ix).HeaderOk(ix.Last())
    ensures Inserted(ix).OldOk(k)
  {
    var n, ix' := ix.Last(), Inserted(ix);
    assert ix.HeaderOk(k) && ix.HeaderOk(n) && ix.OldOk(k);
    InsertedKeys(ix, k);
    forall m: int | ix'.lo <= m < ix'.places[k].top
      ensures ix'.EntryAt(k, m) == ix'.EntryAt(n, m)
    {
      assert ix.EntryAt(k, m) == ix.EntryAt(n, m);
    }
  }

  /** `rewind_block_index_tail` (2935-2939). */
  function Rewound(ix: Ix): (r: Ix)
    requires ix.Valid() && ix.lo < ix.hi
    ensures r.Shaped() && |r.headers| == |ix.headers|
  {
    var n := ix.Last();
    assert ix.HeaderOk(n);
    ix.(headers := ix.headers[n := ix.headers[n].(tail := ix.SlotOf(n, ix.hi - 2))], hi := ix.hi - 1)
  }

  lemma RewoundValid(ix: Ix)
    requires ix.Valid() && ix.lo < ix.hi
    ensures Rewound(ix).Valid()
  {
    var n, ix' := ix.Last(), Rewound(ix);
    assert ix.HeaderOk(n);
    forall k | 0 <= k < |ix'.headers|
      ensures ix'.HeaderOk(k)
    {
      assert ix.HeaderOk(k);
      forall s | 0 <= s < ix.Capacity(k)
        ensures ix'.KeyOk(k, s)
      {
        assert ix.KeyOk(k, s);
      }
    }
    forall m: int | ix'.lo <= m < ix'.hi
      ensures ix'.nums[ix'.EntryAt(n, m)] == m
    {
      assert ix.nums[ix.EntryAt(n, m)] == m;
    }
    forall k | 0 <= k < n
      ensures ix'.OldOk(k)
    {
      assert ix.OldOk(k);
      forall m: int | ix'.lo <= m < ix'.places[k].top
        ensures ix'.EntryAt(k, m) == ix'.EntryAt(n, m)
      {
        assert ix.EntryAt(k, m) == ix.EntryAt(n, m);
      }
    }
  }

  /** The entries of a full header in order of their block numbers, then as many new ones. */
  function Doubled(ix: Ix): seq<EntryId>
    requires ix.Valid() && ix.headers != []
  {
    var n := ix.Last();
    assert ix.HeaderOk(n);
    var c := ix.Capacity(n);
    seq<EntryId>(c, s => ix.EntryAt(n, ix.hi - c + s)) + seq<EntryId>(c, s => |ix.nums| + s)
  }

  /** What is in the values of `n` entries that have just been allocated: anything. */
  function Memory(garbage: seq<Option<BlockId>>, n: nat): (r: seq<Option<BlockId>>)
    ensures |r| == n
  {
    if n <= |garbage| then garbage[..n] else garbage + seq(n - |garbage|, _ => None)
  }

  /** `new_block_index` (2966-3008) with the contents `garbage` in the new entries' values. */
  function Grown(ix: Ix, garbage: seq<Option<BlockId>>): Ix
    requires ix.Valid() && ix.headers != []
  {
    var n := ix.Last();
    var c := ix.Capacity(n);
    ix.(headers := ix.headers + [Header(Doubled(ix), c - 1)],
        places := ix.places[n := ix.places[n].(top := ix.hi)] + [Place(c - ix.hi, 0)],
        nums := ix.nums + seq(c, _ => -1),
        values := ix.values + Memory(garbage, c))
  }

  /** The window is full: no block number can be added without giving up another. */
  predicate Crowded(ix: Ix)
    requires ix.headers != []
  {
    ix.hi - ix.lo == ix.Capacity(ix.Last())
  }

  lemma GrownSlot(ix: Ix, garbage: seq<Option<BlockId>>, m: int)
    requires ix.Valid() && ix.headers != []
    requires Crowded(ix) && ix.lo <= m < ix.hi
    ensures var ix' := Grown(ix, garbage);
            ix'.SlotOf(ix'.Last(), m) == m - ix.lo && ix'.EntryAt(ix'.Last(), m) == ix.EntryAt(ix.Last(), m)
  {
    SlotZero(m, ix.lo, 2 * ix.Capacity(ix.Last()));
    assert ix.HeaderOk(ix.Last());
    assert Doubled(ix)[m - ix.lo] == ix.EntryAt(ix.Last(), m);
  }

  lemma GrownKeys(ix: Ix, garbage: seq<Option<BlockId>>, s: nat)
    requires ix.Valid() && ix.headers != [] && Crowded(ix) && s < 2 * ix.Capacity(ix.Last())
    ensures Doubled(ix)[s] < |Grown(ix, garbage).nums| && Grown(ix, garbage).KeyOk(ix.Last() + 1, s)
  {
    var n, c := ix.Last(), ix.Capacity(ix.Last());
    assert ix.HeaderOk(n);
    if s < c {
      GrownSlot(ix, garbage, ix.lo + s);
      assert ix.nums[ix.EntryAt(n, ix.lo + s)] == ix.lo + s;
    }
  }

  lemma DoubledDistinct(ix: Ix)
    requires ix.Valid() && ix.headers != [] && Crowded(ix)
    ensures NoDuplicates(Doubled(ix))
  {
    var n, c := ix.Last(), ix.Capacity(ix.Last());
    assert ix.HeaderOk(n);
    var index := Doubled(ix);
    forall s | 0 <= s < c
      ensures index[s] < |ix.nums| && ix.nums[index[s]] == ix.lo + s
    {
      assert index[s] == ix.EntryAt(n, ix.lo + s);
    }
    forall s: nat, r: nat
      ensures Distinct(index, s, r)
    {
      if s < r < c {
        assert ix.nums[index[s]] != ix.nums[index[r]];
      }
    }
  }

  lemma GrownNew(ix: Ix, garbage: seq<Option<BlockId>>)
    requires ix.Valid() && ix.headers != [] && Crowded(ix)
    ensures var ix' := Grown(ix, garbage); ix'.HeaderOk(ix'.Last()) && ix'.WindowOk()
  {
    hide NoDuplicates;
    var n, ix' := ix.Last(), Grown(ix, garbage);
    var last := n + 1;
    assert ix.HeaderOk(n);
    DoubledDistinct(ix);
    forall s | 0 <= s < 2 * ix.Capacity(n)
      ensures Doubled(ix)[s] < |ix'.nums| && ix'.KeyOk(last, s)
    {
      GrownKeys(ix, garbage, s);
    }
    forall m: int | ix'.lo <= m < ix'.hi
      ensures ix'.nums[ix'.EntryAt(last, m)] == m
    {
      GrownSlot(ix, garbage, m);
      assert ix.nums[ix.EntryAt(n, m)] == m;
    }
    SlotZero(ix.hi - 1, ix.lo, 2 * ix.Capacity(n));
  }

  lemma GrownHeader(ix: Ix, garbage: seq<Option<BlockId>>, k: nat)
    requires ix.Valid() && ix.headers != [] && Crowded(ix)
    requires k <= ix.Last()
    ensures Grown(ix, garbage).HeaderOk(k)
  {
    var ix' := Grown(ix, garbage);
    assert ix.HeaderOk(k);
    forall s | 0 <= s < ix.Capacity(k)
      ensures ix'.KeyOk(k, s)
    {
      assert ix.KeyOk(k, s);
    }
  }

  lemma GrownOld(ix: Ix, garbage: seq<Option<BlockId>>, k: nat)
    requires ix.Valid() && ix.headers != [] && Crowded(ix)
    requires k <= ix.Last() && Grown(ix, garbage).HeaderOk(k) && Grown(ix, garbage).HeaderOk(ix.Last() + 1)
    ensures Grown(ix, garbage).OldOk(k)
  {
    var n, ix' := ix.Last(), Grown(ix, garbage);
    var c := ix.Capacity(n);
    assert ix.HeaderOk(k) && ix.HeaderOk(n);
    assert k < n ==> ix.OldOk(k);
    DoubleMultiple(c, ix.Capacity(k), k == n);
    forall s | 0 <= s < ix.Capacity(k)
      ensures ix'.nums[ix'.headers[k].index[s]] >= 0
    {
      if k == n {
        assert ix.KeyOk(n, s);
        AllNumbered(ix, s);
      }
    }
    forall m: int | ix'.lo <= m < ix'.places[k].top
      ensures ix'.EntryAt(k, m) == ix'.EntryAt(n + 1, m)
    {
      assert m < ix.hi;
      GrownSlot(ix, garbage, m);
      assert ix.EntryAt(k, m) == ix.EntryAt(n, m);
    }
  }

  /** In a full header every slot has a key. */
  lemma AllNumbered(ix: Ix, s: nat)
    requires ix.Valid() && ix.headers != [] && Crowded(ix) && s < ix.Capacity(ix.Last())
    ensures ix.HeaderOk(ix.Last()) && ix.nums[ix.headers[ix.Last()].index[s]] >= 0
  {
    var n := ix.Last();
    assert ix.HeaderOk(n);
    var d := s - ix.SlotOf(n, ix.lo);
    var m := if d >= 0 then ix.lo + d else ix.lo + d + ix.Capacity(n);
    SlotAhead(ix.lo, m - ix.lo, ix.places[n].shift, ix.Capacity(n));
    assert ix.nums[ix.EntryAt(n, m)] == m;
  }

  lemma GrownValid(ix: Ix, garbage: seq<Option<BlockId>>)
    requires ix.Valid() && ix.headers != [] && Crowded(ix)
    ensures Grown(ix, garbage).Valid()
  {
    var n, ix' := ix.Last(), Grown(ix, garbage);
    GrownNew(ix, garbage);
    forall k | 0 <= k < |ix'.headers|
      ensures ix'.HeaderOk(k)
    {
      if k <= n {
        GrownHeader(ix, garbage, k);
      }
    }
    forall k | 0 <= k < ix'.Last()
      ensures ix'.OldOk(k)
    {
      GrownOld(ix, garbage, k);
    }
  }

  /** The first header, made by the constructor. */
  function First(capacity: nat, garbage: seq<Option<BlockId>>): Ix
    requires capacity > 0
  {
    Ix([Header(seq(capacity, s => s), capacity - 1)], [Place(0, 0)], seq(capacity, _ => -1), Memory(garbage, capacity), 0, 0)
  }

  lemma FirstValid(capacity: nat, garbage: seq<Option<BlockId>>)
    requires capacity > 0
    ensures First(capacity, garbage).Valid()
  {
    WrapAround.DivModUnique(-1, capacity, -1, capacity - 1);
    assert NoDuplicates(First(capacity, garbage).headers[0].index);
  }

  /** The slot for the next block number has no block. */
  predicate Fits(ix: Ix)
    requires ix.Valid() && ix.headers != []
  {
    assert ix.HeaderOk(ix.Last());
    ix.Free(ix.EntryAt(ix.Last(), ix.hi))
  }

  /** `insert_block_index_entry` when it succeeds (2907-2932). */
  function Added(ix: Ix, garbage: seq<Option<BlockId>>): Ix
    requires ix.Valid() && ix.headers != [] && (Fits(ix) || Crowded(ix))
  {
    if Fits(ix) then Inserted(ix) else GrownValid(ix, garbage); Inserted(Grown(ix, garbage))
  }

  /** Adding a block number leaves the earlier numbers' entries where they were; what else the newest
      header then has is unused. */
  lemma AddedEntry(ix: Ix, garbage: seq<Option<BlockId>>, m: int)
    requires ix.Valid() && ix.headers != [] && (Fits(ix) || Crowded(ix))
    requires Added(ix, garbage).Valid()
    requires ix.hi + 1 - Added(ix, garbage).Capacity(Added(ix, garbage).Last()) <= m < ix.hi
    ensures var ix' := Added(ix, garbage);
            && ix.HeaderOk(ix.Last()) && ix'.HeaderOk(ix'.Last())
            && var e := ix'.EntryAt(ix'.Last(), m);
            if m >= ix.hi - ix.Capacity(ix.Last())
            then e == ix.EntryAt(ix.Last(), m) && ix'.nums[e] == ix.nums[e] && ix'.values[e] == ix.values[e]
            else ix'.nums[e] == -1
  {
    assert ix.HeaderOk(ix.Last());
    var ix' := Added(ix, garbage);
    var n := ix'.Last();
    assert ix'.HeaderOk(n);
    ix'.EntriesDiffer(n, m, ix.hi);
    if !Fits(ix) {
      var c := ix.Capacity(ix.Last());
      if m >= ix.hi - c {
        GrownSlot(ix, garbage, m);
      } else {
        SlotAhead(m, 2 * c, ix'.places[n].shift, 2 * c);
        SlotZero(m + 2 * c, ix.lo, 2 * c);
        assert Doubled(ix)[m + 2 * c - ix.lo] == |ix.nums| + m + 2 * c - ix.lo - c;
      }
    }
  }

  // ---------------------------------------------------------------- searches

  /** A tail slot from which a search of header `k` can start. */
  ghost predicate Starts(ix: Ix, k: nat, t: nat)
    requires ix.Valid()
  {
    && k < |ix.headers| && t < ix.Capacity(k)
    && ix.HeaderOk(k) && ix.nums[ix.headers[k].index[t]] >= 0
  }

  /** Searches for block numbers below `n` that are under way in `ix` go on undisturbed in `ix'`. */
  ghost predicate Keeps(ix: Ix, ix': Ix, n: nat) {
    && |ix.places| == |ix.headers| <= |ix'.headers| == |ix'.places| && |ix.nums| <= |ix'.nums|
    && (forall k :: 0 <= k < |ix.headers| ==> HeaderKept(ix, ix', k, n))
    && (forall e :: 0 <= e < |ix.nums| ==> NumberKept(ix, ix', e))
  }

  /** A header still leads to the same entries, and still has the block numbers below `n`. */
  ghost predicate HeaderKept(ix: Ix, ix': Ix, k: nat, n: nat)
    requires |ix.places| == |ix.headers| && |ix'.headers| == |ix'.places| && k < |ix.headers| && k < |ix'.headers|
  {
    && ix'.headers[k].index == ix.headers[k].index && ix'.places[k].shift == ix.places[k].shift
    && (k < ix'.Last() ==> if k < ix.Last() then ix'.places[k].top == ix.places[k].top else ix'.places[k].top >= n)
  }

  ghost predicate NumberKept(ix: Ix, ix': Ix, e: nat)
    requires e < |ix.nums| && e < |ix'.nums|
  {
    ix.nums[e] >= 0 ==> ix'.nums[e] >= 0
  }

  lemma KeepsSame(ix: Ix, n: nat)
    requires ix.Valid()
    ensures Keeps(ix, ix, n)
  {
  }

  lemma KeepsValues(ix: Ix, ix': Ix, n: nat)
    requires ix.Valid() && ix'.Valid() && ix' == ix.(values := ix'.values)
    ensures Keeps(ix, ix', n)
  {
  }

  lemma KeepsLess(ix: Ix, ix': Ix, n: nat, n': nat)
    requires Keeps(ix, ix', n) && n' <= n
    ensures Keeps(ix, ix', n')
  {
    forall k | 0 <= k < |ix.headers|
      ensures HeaderKept(ix, ix', k, n')
    {
      assert HeaderKept(ix, ix', k, n);
    }
  }

  lemma KeepsTrans(ix: Ix, ix': Ix, ix'': Ix, n: nat)
    requires Keeps(ix, ix', n) && Keeps(ix', ix'', n)
    ensures Keeps(ix, ix'', n)
  {
    forall k | 0 <= k < |ix.headers|
      ensures HeaderKept(ix, ix'', k, n)
    {
      assert HeaderKept(ix, ix', k, n) && HeaderKept(ix', ix'', k, n);
    }
    forall e | 0 <= e < |ix.nums|
      ensures NumberKept(ix, ix'', e)
    {
      assert NumberKept(ix, ix', e) && NumberKept(ix', ix'', e);
    }
  }

  /** What a consumer has loaded stays good: its tail slot is one to start from, and its header leads to the
      same entry for its block number. */
  lemma SearchKept(ix: Ix, ix': Ix, n: nat, k: nat, t: nat, m: nat)
    requires ix.Valid() && ix'.Valid() && Keeps(ix, ix', n)
    requires ix.Reaches(k, m) && m < n && Starts(ix, k, t)
    ensures ix'.Reaches(k, m) && Starts(ix', k, t) && ix'.EntryAt(k, m) == ix.EntryAt(k, m)
  {
    assert HeaderKept(ix, ix', k, n) && ix'.HeaderOk(k);
    assert NumberKept(ix, ix', ix.headers[k].index[t]);
  }

  lemma InsertedKeeps(ix: Ix)
    requires ix.Valid() && ix.headers != []
    ensures Inserted(ix).Valid() && Keeps(ix, Inserted(ix), ix.hi)
  {
    InsertedValid(ix);
    assert ix.HeaderOk(ix.Last());
  }

  lemma RewoundKeeps(ix: Ix, n: nat)
    requires ix.Valid() && ix.lo < ix.hi
    ensures Rewound(ix).Valid() && Keeps(ix, Rewound(ix), n)
  {
    RewoundValid(ix);
  }

  lemma GrownKeeps(ix: Ix, garbage: seq<Option<BlockId>>)
    requires ix.Valid() && ix.headers != [] && Crowded(ix)
    ensures Grown(ix, garbage).Valid() && Keeps(ix, Grown(ix, garbage), ix.hi)
  {
    GrownValid(ix, garbage);
  }

  lemma AddedKeeps(ix: Ix, garbage: seq<Option<BlockId>>)
    requires ix.Valid() && ix.headers != [] && (Fits(ix) || Crowded(ix))
    ensures Added(ix, garbage).Valid() && Keeps(ix, Added(ix, garbage), ix.hi)
  {
    if Fits(ix) {
      InsertedKeeps(ix);
    } else {
      GrownKeeps(ix, garbage);
      InsertedKeeps(Grown(ix, garbage));
      KeepsTrans(ix, Grown(ix, garbage), Inserted(Grown(ix, garbage)), ix.hi);
    }
  }

  /** Whichever header a search uses, it comes to the entry in the newest one, and the key there is the
      one searched for. */
  lemma FoundEntry(ix: Ix, k: nat, m: nat)
    requires ix.Valid() && ix.Reaches(k, m) && ix.lo <= m < ix.hi
    ensures ix.HeaderOk(k) && ix.HeaderOk(ix.Last())
    ensures ix.EntryAt(k, m) == ix.EntryAt(ix.Last(), m) && ix.nums[ix.EntryAt(k, m)] == m
  {
    assert ix.HeaderOk(k) && ix.HeaderOk(ix.Last());
    assert k < ix.Last() ==> ix.OldOk(k);
  }

  class BlockIndex {
    const b: nat                          // BLOCK_SIZE
    var keys: seq<nat>                    // of all entries ever allocated
    var values: seq<Option<BlockId>>
    var headers: seq<Header>              // the newest, `blockIndex`, comes last
    var nextCapacity: nat                 // nextBlockIndexCapacity
    ghost var places: seq<Place>
    ghost var nums: seq<int>
    ghost var lo: nat
    ghost var hi: nat

    ghost function View(): Ix
      reads this
    {
      Ix(headers, places, nums, values, lo, hi)
    }

    /** The size of the newest header; without one there is no room at all. */
    function Cap(): nat
      reads this`headers
    {
      if headers == [] then 0 else |headers[|headers| - 1].index|
    }

    ghost predicate Valid()
      reads this
    {
      && b > 1 && View().Valid() && nextCapacity > 0
      && (headers != [] ==> nextCapacity == 2 * |headers[|headers| - 1].index|)
      && |keys| == |nums| && forall e :: 0 <= e < |keys| ==> keys[e] == KeyOf(nums[e], b)
    }

    constructor (blockSize: nat, initialCapacity: nat, granted: bool, garbage: seq<Option<BlockId>>)
      requires blockSize > 1 && initialCapacity > 0
      ensures Valid() && b == blockSize && (headers != [] <==> granted)
      ensures View() == if granted then First(initialCapacity, garbage) else Ix([], [], [], [], 0, 0)
    {
      b := blockSize;
      keys, values, headers, nextCapacity := [], [], [], initialCapacity;
      places, nums, lo, hi := [], [], 0, 0;
      new;
      if granted {
        FirstValid(initialCapacity, garbage);
        keys, values := seq(initialCapacity, _ => 1), Memory(garbage, initialCapacity);
        headers := [Header(seq(initialCapacity, s => s), initialCapacity - 1)];
        places, nums := [Place(0, 0)], seq(initialCapacity, _ => -1);
        nextCapacity := 2 * nextCapacity;
      }
    }

    /** `new_block_index` when there is a header already (2966-3008). */
    method NewBlockIndex(granted: bool, garbage: seq<Option<BlockId>>) returns (ok: bool)
      requires Valid() && headers != [] && Crowded(View())
      modifies this
      ensures Valid() && ok == granted
      ensures View() == if ok then Grown(old(View()), garbage) else old(View())
      ensures headers != [] && hi == old(hi) && Cap() == if ok then 2 * old(Cap()) else old(Cap())
    {
      if !granted {
        return false;
      }
      ghost var ix := View();
      var prev := headers[|headers| - 1];
      var n := |prev.index|;
      assert ix.HeaderOk(ix.Last());
      var copied := CopyIndex(prev);
      var count := |keys|;
      var index := copied + seq(n, s => count + s);
      assert forall s :: 0 <= s < n ==> index[s] == copied[s];
      DoubledIs(ix, index);
      GrownValid(ix, garbage);
      headers := headers + [Header(index, n - 1)];
      places := places[|places| - 1 := places[|places| - 1].(top := hi)] + [Place(n - hi, 0)];
      keys, values := keys + seq(n, _ => 1), values + Memory(garbage, n);
      nums := nums + seq(n, _ => -1);
      nextCapacity := 2 * nextCapacity;
      return true;
    }

    /** `insert_block_index_entry` (2900-2933): it fails exactly when there is no index, or none of twice
        the size can be had where the next slot is taken, and then changes nothing. */
    method InsertEntry(blockStart: nat, canAlloc: bool, granted: bool, garbage: seq<Option<BlockId>>) returns (ok: bool, e: EntryId)
      requires Valid() && blockStart == b * hi
      requires headers != [] ==> Fits(View()) || Crowded(View())
      modifies this
      ensures Valid()
      ensures ok <==> old(headers != [] && (Fits(View()) || (canAlloc && granted)))
      ensures if ok then View() == Added(old(View()), garbage) else View() == old(View())
      ensures (headers == [] <==> old(headers) == [])
      ensures Cap() == if ok && !old(headers != [] && Fits(View())) then 2 * old(Cap()) else old(Cap())
      ensures ok ==> headers != [] && View().HeaderOk(View().Last()) && e == View().EntryAt(View().Last(), hi - 1) && hi == old(hi) + 1
    {
      hide Grown, Inserted, Crowded, Ix.Valid;
      if headers == [] {
        return false, 0;
      }
      ghost var ix := View();
      var fits := Room();
      if !fits {
        if !canAlloc {
          return false, 0;
        }
        var grown := NewBlockIndex(granted, garbage);
        if !grown {
          return false, 0;
        }
      }
      assert Valid() && View() == (if fits then ix else Grown(ix, garbage));
      e := PutKey(blockStart);
      ok := true;
    }

    /** Whether the slot after the tail is free (2907-2910). */
    method Room() returns (fits: bool)
      requires Valid() && headers != []
      ensures fits == Fits(View())
    {
      var newTail := NextTail();
      var e := headers[|headers| - 1].index[newTail];
      assert View().KeyOk(View().Last(), newTail);
      KeyInvalid(nums[e], b);
      fits := keys[e] == 1 || values[e].None?;
    }

    /** The slot after the tail (2907, 2926). */
    method NextTail() returns (newTail: nat)
      requires Valid() && headers != []
      ensures View().HeaderOk(View().Last()) && newTail == View().SlotOf(View().Last(), hi)
    {
      assert View().HeaderOk(View().Last());
      var h := headers[|headers| - 1];
      SlotAhead(hi - 1, 1, places[|places| - 1].shift, |h.index|);
      newTail := Ahead(h.tail, 1, |h.index|);
    }

    /** Puts the key into the slot after the tail and moves the tail there (2912-2913, 2929-2930). */
    method PutKey(blockStart: nat) returns (e: EntryId)
      requires Valid() && headers != [] && blockStart == b * hi
      modifies this`keys, this`headers, this`nums, this`lo, this`hi
      ensures Valid() && View() == Inserted(old(View())) && headers != [] && View().HeaderOk(View().Last())
      ensures e == View().EntryAt(View().Last(), hi - 1) && hi == old(hi) + 1 && Cap() == old(Cap())
    {
      var newTail := NextTail();
      InsertedValid(View());
      var last := |headers| - 1;
      var n := |headers[last].index|;
      e := headers[last].index[newTail];
      keys := keys[e := blockStart];
      headers := headers[last := headers[last].(tail := newTail)];
      nums := nums[e := hi];
      hi := hi + 1;
      lo := if hi - n > lo then hi - n else lo;
    }

    /** `rewind_block_index_tail` (2935-2939). */
    method Rewind()
      requires Valid() && lo < hi
      modifies this`headers, this`hi
      ensures Valid() && View() == Rewound(old(View())) && headers != [] && Cap() == old(Cap())
    {
      hide Slot, Ix.OldOk, NoDuplicates, KeyOf;
      RewoundValid(View());
      assert View().HeaderOk(View().Last());
      var last := |headers| - 1;
      var h := headers[last];
      SlotAhead(hi - 2, 1, places[last].shift, |h.index|);
      headers := headers[last := h.(tail := Behind(h.tail, 1, |h.index|))];
      hi := hi - 1;
    }

    method SetValue(e: EntryId, v: Option<BlockId>)
      requires Valid() && e < |values|
      modifies this`values
      ensures Valid() && View() == old(View()).(values := old(values)[e := v])
    {
      ghost var ix := View();
      values := values[e := v];
      SameIndex(ix, View());
    }

    /** Loading the tail of a header (2955): a consumer of block number `m` can start there. */
    method LoadTail(k: nat, ghost m: nat) returns (t: nat)
      requires Valid() && View().Reaches(k, m) && lo <= m < hi
      ensures Starts(View(), k, t)
    {
      assert View().HeaderOk(k);
      assert k < View().Last() ==> View().OldOk(k);
      assert k == View().Last() ==> View().nums[View().EntryAt(k, hi - 1)] == hi - 1;
      t := headers[k].tail;
    }

    /** `get_block_index_index_for_index` (2948-2964) from a tail slot loaded earlier: the slot is that of
        the index's block, even if the tail has been moved or its entry reused since. */
    method FindSlot(k: nat, t: nat, i: nat) returns (s: nat)
      requires Valid() && Starts(View(), k, t)
      ensures View().HeaderOk(k) && s == View().SlotOf(k, i / b)
    {
      hide WrapAround.TruncDiv, WrapAround.BlockBase, Slot, Ix.OldOk, NoDuplicates;
      assert View().HeaderOk(k);
      var h := headers[k];
      ghost var m := nums[h.index[t]];
      assert View().KeyOk(k, t);
      var tailBase := keys[h.index[t]];
      OffsetExact(i, m, b);
      SlotMove(m, i / b - m, places[k].shift, |h.index|);
      s := (t + WrapAround.TruncDiv(WrapAround.BlockBase(i, b) - tailBase, b)) % |h.index|;
    }
  }

  /** `INVALID_BLOCK_BASE` is 1, which is no multiple of a block size above 1. */
  function KeyOf(m: int, b: nat): int { if m < 0 then 1 else b * m }

  lemma KeyInvalid(m: int, b: nat)
    requires b > 1 && m >= -1
    ensures KeyOf(m, b) == 1 <==> m == -1
  {
    if m >= 1 {
      WrapAround.MulMonotone(b, 1, m);
    }
  }

  /** The copying loop of 2983-2989: all entries, from the oldest to the newest. */
  method CopyIndex(prev: Header) returns (index: seq<EntryId>)
    requires prev.tail < |prev.index|
    ensures |index| == |prev.index|
    ensures forall s :: 0 <= s < |index| ==> index[s] == prev.index[Ahead(prev.tail, s + 1, |prev.index|)]
  {
    var n := |prev.index|;
    var prevPos := Ahead(prev.tail, 1, n);
    index := [prev.index[prevPos]];
    while prevPos != prev.tail
      invariant 1 <= |index| <= n && prevPos == Ahead(prev.tail, |index|, n)
      invariant forall s :: 0 <= s < |index| ==> index[s] == prev.index[Ahead(prev.tail, s + 1, n)]
      decreases n - |index|
    {
      prevPos := Ahead(prevPos, 1, n);
      index := index + [prev.index[prevPos]];
    }
  }

  lemma DoubledIs(ix: Ix, index: seq<EntryId>)
    requires ix.Valid() && ix.headers != [] && ix.HeaderOk(ix.Last())
    requires var c := ix.Capacity(ix.Last()); var h := ix.headers[ix.Last()];
             && |index| == 2 * c
             && (forall s :: 0 <= s < c ==> index[s] == h.index[Ahead(h.tail, s + 1, c)])
             && (forall s :: c <= s < 2 * c ==> index[s] == |ix.nums| + s - c)
    ensures index == Doubled(ix)
  {
    var n, c := ix.Last(), ix.Capacity(ix.Last());
    forall s | 0 <= s < c
      ensures index[s] == ix.EntryAt(n, ix.hi - c + s)
    {
      SlotAhead(ix.hi - 1 - c, c, ix.places[n].shift, c);
      SlotAhead(ix.hi - 1 - c, s + 1, ix.places[n].shift, c);
    }
  }

  /** Values play no part in the shape of the index. */
  lemma SameIndex(ix: Ix, ix': Ix)
    requires ix.Valid() && |ix'.values| == |ix.values| && ix' == ix.(values := ix'.values)
    ensures ix'.Valid() && forall n: nat :: Keeps(ix, ix', n)
  {
    forall k | 0 <= k < |ix'.headers|
      ensures ix'.HeaderOk(k)
    {
      assert ix.HeaderOk(k);
      forall s | 0 <= s < ix.Capacity(k)
        ensures ix'.KeyOk(k, s)
      {
        assert ix.KeyOk(k, s);
      }
    }
    if ix.headers != [] {
      assert ix.HeaderOk(ix.Last());
      forall m: int | ix'.lo <= m < ix'.hi
        ensures ix'.nums[ix'.EntryAt(ix'.Last(), m)] == m
      {
        assert ix.nums[ix.EntryAt(ix.Last(), m)] == m;
      }
    }
    forall k | 0 <= k < ix'.Last()
      ensures ix'.OldOk(k)
    {
      assert ix.OldOk(k);
      forall m: int | ix'.lo <= m < ix'.places[k].top
        ensures ix'.EntryAt(k, m) == ix'.EntryAt(ix'.Last(), m)
      {
        assert ix.EntryAt(k, m) == ix.EntryAt(ix.Last(), m);
      }
    }
  }

  /** Numbers in the same slot of a header are in the same slot of one whose capacity divides it. */
  lemma CoarserSlot(x: int, y: int, shift: int, size: nat, shift': int, size': nat)
    requires size > 0 && size' > 0 && size % size' == 0
    requires Slot(x, shift, size) == Slot(y, shift, size)
    ensures Slot(x, shift', size') == Slot(y, shift', size')
  {
    var q := (y + shift) / size - (x + shift) / size;
    var c := size / size';
    assert size == size' * c;
    assert y - x == size * q by {
      assert y + shift == size * ((y + shift) / size) + Slot(y, shift, size);
      assert x + shift == size * ((x + shift) / size) + Slot(x, shift, size);
      assert size * ((y + shift) / size) - size * ((x + shift) / size) == size * q;
    }
    assert size * q == size' * (c * q) by { assert (size' * c) * q == size' * (c * q); }
    WrapAround.ModShift(x + shift', size', c * q);
  }

  lemma DoubleMultiple(c: nat, d: nat, same: bool)
    requires c > 0 && d > 0 && (if same then c == d else c % d == 0)
    ensures (2 * c) % d == 0
  {
    var q := if same then 1 else c / d;
    assert c == d * q;
    assert 2 * c == d * (2 * q);
    WrapAround.DivModUnique(2 * c, d, 2 * q, 0);
  }
}
