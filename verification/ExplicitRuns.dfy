/**
 Runs of an explicit producer's queue: enqueues by its owner, the atomic steps of any number of
 consumers up to their claims (module Tickets), and consumers moving out the elements they claimed
 (shared/queue_internal/concurrentqueue.h:1849-2052). The queue is first in, first out.
 */
module ExplicitRuns {
  import opened Basics
  import opened ExplicitProducer
  import Tickets
  import Block
  import WrapAround

  datatype State<T> = State(core: Core<T>, tickets: Tickets.State)

  /** `pool` is what the block pool would give; `t` moves out the element at `i`. */
  datatype Op<T> =
    | Put(x: T, pool: Option<BlockId>)
    | Consume(a: Tickets.Action)
    | Finish(t: Tickets.Thread, i: nat)

  /** The element's block is there. */
  predicate Placed<T>(c: Core<T>, i: nat) {
    && c.b > 0 && i / c.b < |c.placed|
    && c.placed[i / c.b] in c.flags && |c.flags[c.placed[i / c.b]]| == c.b
    && c.placed[i / c.b] in c.cells && |c.cells[c.placed[i / c.b]]| == c.b
  }

  /** What its consumer moves out. */
  function Moved<T>(c: Core<T>, i: nat): Option<T>
    requires Placed(c, i)
  {
    c.cells[c.placed[i / c.b]][i % c.b]
  }

  /** A consumer finishes an index it claimed, once. That the block is there then is no restriction:
      `ClaimedIsThere`. */
  ghost predicate Enabled<T>(s: State<T>, op: Op<T>) {
    match op
    case Put(_, pool) => s.core.b > 0 && FromPool(s.core, pool)
    case Consume(a) => !a.Enqueue? && Tickets.Enabled(s.tickets, a)
    case Finish(t, i) =>
      i < |s.tickets.claimed| && s.tickets.claimed[i] == t && i !in s.core.done && Placed(s.core, i)
  }

  /** Whether an enqueue succeeded. */
  predicate Grew<T>(c: Core<T>, c': Core<T>) { c'.tail > c.tail }

  ghost function Do<T>(s: State<T>, op: Op<T>, limit: WrapAround.Limit): State<T>
    requires Enabled(s, op)
  {
    match op
    case Put(x, pool) =>
      var c := Enqueued(s.core, x, limit, pool);
      State(c, Tickets.Do(s.tickets, Tickets.Enqueue(if Grew(s.core, c) then 1 else 0)))
    case Consume(a) =>
      var tickets := Tickets.Do(s.tickets, a);
      State(s.core.(head := tickets.head), tickets)
    case Finish(_, i) => s.(core := Completed(s.core, i))
  }

  function Empty<T>(b: nat): Core<T> { Core(b, 0, 0, None, map[], map[], map[], 0, [], {}, []) }

  ghost predicate Init<T>(s: State<T>, b: nat) { s.core == Empty(b) && Tickets.Init(s.tickets) }

  ghost predicate IsRun<T(!new)>(run: seq<State<T>>, ops: seq<Op<T>>, b: nat, limit: WrapAround.Limit) {
    && b > 0 && |run| == |ops| + 1 && Init(run[0], b)
    && forall k :: 0 <= k < |ops| ==> Enabled(run[k], ops[k]) && run[k + 1] == Do(run[k], ops[k], limit)
  }

  // ---------------------------------------------------------------- the invariant

  /** Queue and counters agree, and the counters have a history of tickets. */
  ghost predicate Good<T(!new)>(s: State<T>) {
    && s.core.Valid() && s.core.tail == s.tickets.tail && s.core.head == s.tickets.head == |s.tickets.claimed|
    && exists h :: Tickets.Inv(s.tickets, h)
  }

  lemma InitGood<T(!new)>(s: State<T>, b: nat)
    requires b > 0 && Init(s, b)
    ensures Good(s)
  {
    hide Core.Valid, Tickets.Inv;
    EmptyValid<T>(b);
    var h := NoTickets(s.tickets);
  }

  lemma EmptyValid<T>(b: nat)
    requires b > 0
    ensures Empty<T>(b).Valid()
  {
    forall i: nat
      ensures Empty<T>(b).IndexOk(i)
    {
    }
  }

  lemma NoTickets(k: Tickets.State) returns (h: seq<Tickets.Outcome>)
    requires Tickets.Init(k)
    ensures Tickets.Inv(k, h)
  {
    assert Tickets.IsRun([k], []);
    h := Tickets.RunInv([k], []);
  }

  /** The counters after a step have a history, by which no more is claimed than there is. */
  lemma TicketsStep(k: Tickets.State, h: seq<Tickets.Outcome>, a: Tickets.Action)
    requires Tickets.Inv(k, h) && Tickets.Enabled(k, a)
    ensures Tickets.Inv(Tickets.Do(k, a), Tickets.Follow(k, h, a))
    ensures var k' := Tickets.Do(k, a); k.head <= k'.head <= k'.tail && |k'.claimed| == k'.head && k.claimed <= k'.claimed
    ensures Tickets.Do(k, a).tail == k.tail + if a.Enqueue? then a.count else 0
    ensures a.Enqueue? ==> Tickets.Do(k, a).head == k.head
  {
    Tickets.InvStep(k, h, a);
    Tickets.CoveredBound(Tickets.Follow(k, h, a), Tickets.Do(k, a).tail);
  }

  /** An enqueue adds its element at the end, or changes nothing. */
  lemma PutAppends<T>(c: Core<T>, x: T, limit: WrapAround.Limit, pool: Option<BlockId>)
    requires c.Valid() && FromPool(c, pool)
    ensures var c' := Enqueued(c, x, limit, pool);
            && c'.b == c.b && c'.head == c.head && c'.done == c.done
            && (if Grew(c, c') then c'.tail == c.tail + 1 && c'.items == c.items + [x] else c' == c)
  {
    EnqueuedValid(c, x, limit, pool);
  }

  lemma {:induction false} GoodStep<T(!new)>(s: State<T>, op: Op<T>, limit: WrapAround.Limit)
    requires Good(s) && Enabled(s, op)
    ensures Good(Do(s, op, limit))
  {
    hide Core.Valid, Tickets.Inv, Enqueued;
    var h :| Tickets.Inv(s.tickets, h);
    match op
    case Put(x, pool) =>
      EnqueuedValid(s.core, x, limit, pool);
      PutAppends(s.core, x, limit, pool);
      var c := Enqueued(s.core, x, limit, pool);
      TailIsLength(s.core);
      TailIsLength(c);
      TicketsStep(s.tickets, h, Tickets.Enqueue(if Grew(s.core, c) then 1 else 0));
    case Consume(a) =>
      TicketsStep(s.tickets, h, a);
      HeadMovedValid(s.core, Tickets.Do(s.tickets, a).head);
    case Finish(t, i) =>
      CompletedValid(s.core, i);
  }

  lemma TailIsLength<T>(c: Core<T>)
    requires c.Valid()
    ensures c.tail == |c.items|
  {
  }

  lemma {:induction false} RunGood<T(!new)>(run: seq<State<T>>, ops: seq<Op<T>>, b: nat, limit: WrapAround.Limit, n: nat)
    requires IsRun(run, ops, b, limit) && n <= |ops|
    ensures Good(run[n]) && run[n].core.b == b
  {
    hide Good, Do;
    if n == 0 {
      InitGood(run[0], b);
    } else {
      RunGood(run, ops, b, limit, n - 1);
      GoodStep(run[n - 1], ops[n - 1], limit);
      SizeKept(run[n - 1], ops[n - 1], limit);
    }
  }

  lemma SizeKept<T(!new)>(s: State<T>, op: Op<T>, limit: WrapAround.Limit)
    requires Enabled(s, op)
    ensures Do(s, op, limit).core.b == s.core.b
  {
  }

  /** The block of a claimed element is there until the element is finished. */
  lemma ClaimedIsThere<T(!new)>(run: seq<State<T>>, ops: seq<Op<T>>, b: nat, limit: WrapAround.Limit, n: nat, i: nat)
    requires IsRun(run, ops, b, limit) && n <= |ops|
    requires i < |run[n].tickets.claimed| && i !in run[n].core.done
    ensures Enabled(run[n], Finish(run[n].tickets.claimed[i], i))
  {
    RunGood(run, ops, b, limit, n);
    assert run[n].core.IndexOk(i);
  }

  // ---------------------------------------------------------------- first in, first out

  /** The elements put by the first `n` operations, in order. */
  ghost function Sent<T>(run: seq<State<T>>, ops: seq<Op<T>>, n: nat): seq<T>
    requires n <= |ops| < |run|
  {
    if n == 0 then []
    else Sent(run, ops, n - 1) + if ops[n - 1].Put? && Grew(run[n - 1].core, run[n].core) then [ops[n - 1].x] else []
  }

  lemma {:induction false} SentMore<T>(run: seq<State<T>>, ops: seq<Op<T>>, m: nat, n: nat)
    requires m <= n <= |ops| < |run|
    ensures Sent(run, ops, m) <= Sent(run, ops, n)
  {
    if m < n {
      SentMore(run, ops, m, n - 1);
    }
  }

  lemma {:induction false} ItemsAreSent<T(!new)>(run: seq<State<T>>, ops: seq<Op<T>>, b: nat, limit: WrapAround.Limit, n: nat)
    requires IsRun(run, ops, b, limit) && n <= |ops|
    ensures run[n].core.items == Sent(run, ops, n)
  {
    hide Good, Enqueued;
    if n > 0 {
      ItemsAreSent(run, ops, b, limit, n - 1);
      RunGood(run, ops, b, limit, n - 1);
      PutKeepsOrder(run[n - 1], ops[n - 1], limit);
    }
  }

  lemma PutKeepsOrder<T(!new)>(s: State<T>, op: Op<T>, limit: WrapAround.Limit)
    requires Good(s) && Enabled(s, op)
    ensures var s' := Do(s, op, limit);
            s'.core.items == s.core.items + if op.Put? && Grew(s.core, s'.core) then [op.x] else []
    ensures Do(s, op, limit).core.done == s.core.done + if op.Finish? then {op.i} else {}
  {
    hide Core.Valid, Enqueued, Tickets.Inv;
    if op.Put? {
      PutAppends(s.core, op.x, limit, op.pool);
    }
  }

  lemma {:induction false} DoneGrows<T(!new)>(run: seq<State<T>>, ops: seq<Op<T>>, b: nat, limit: WrapAround.Limit, m: nat, n: nat)
    requires IsRun(run, ops, b, limit) && m <= n <= |ops|
    ensures run[m].core.done <= run[n].core.done
    ensures m < n && ops[m].Finish? ==> ops[m].i in run[n].core.done
  {
    hide Good, Do;
    if m < n {
      DoneGrows(run, ops, b, limit, m, n - 1);
      RunGood(run, ops, b, limit, n - 1);
      PutKeepsOrder(run[n - 1], ops[n - 1], limit);
    }
  }

  /** In every run, whatever enqueues and consumers do meanwhile, the consumer that claimed index `i` moves
      out the `i`-th of the elements put, and nobody else ever does. */
  lemma FirstInFirstOut<T(!new)>(run: seq<State<T>>, ops: seq<Op<T>>, b: nat, limit: WrapAround.Limit, k: nat)
    requires IsRun(run, ops, b, limit) && k < |ops| && ops[k].Finish?
    ensures var sent, i := Sent(run, ops, |ops|), ops[k].i;
            i < |sent| && Moved(run[k].core, i) == Some(sent[i])
    ensures forall l :: 0 <= l < |ops| && ops[l].Finish? && ops[l].i == ops[k].i ==> l == k
  {
    var i := ops[k].i;
    RunGood(run, ops, b, limit, k);
    assert run[k].core.IndexOk(i);
    ItemsAreSent(run, ops, b, limit, k);
    SentMore(run, ops, k, |ops|);
    forall l | 0 <= l < |ops| && ops[l].Finish? && ops[l].i == i
      ensures l == k
    {
      if l < k {
        DoneGrows(run, ops, b, limit, l, k);
      } else if k < l {
        DoneGrows(run, ops, b, limit, k, l);
      }
    }
  }

  /** No element is lost: each one put was moved out or is still in the cell of its index. */
  lemma NothingLost<T(!new)>(run: seq<State<T>>, ops: seq<Op<T>>, b: nat, limit: WrapAround.Limit, i: nat)
    requires IsRun(run, ops, b, limit) && i < |Sent(run, ops, |ops|)|
    ensures var c := run[|ops|].core;
            if i in c.done then exists k :: 0 <= k < |ops| && ops[k].Finish? && ops[k].i == i
            else Placed(c, i) && Moved(c, i) == Some(Sent(run, ops, |ops|)[i])
  {
    RunGood(run, ops, b, limit, |ops|);
    ItemsAreSent(run, ops, b, limit, |ops|);
    assert run[|ops|].core.IndexOk(i);
    if i in run[|ops|].core.done {
      var k := WhoFinished(run, ops, b, limit, |ops|, i);
    }
  }

  lemma {:induction false} WhoFinished<T(!new)>(run: seq<State<T>>, ops: seq<Op<T>>, b: nat, limit: WrapAround.Limit, n: nat, i: nat) returns (k: nat)
    requires IsRun(run, ops, b, limit) && n <= |ops| && i in run[n].core.done
    ensures k < n && ops[k].Finish? && ops[k].i == i
  {
    hide Good, Do;
    assert n > 0;
    RunGood(run, ops, b, limit, n - 1);
    PutKeepsOrder(run[n - 1], ops[n - 1], limit);
    if i in run[n - 1].core.done {
      k := WhoFinished(run, ops, b, limit, n - 1, i);
    } else {
      k := n - 1;
    }
  }

  // ---------------------------------------------------------------- the size limit

  /** The one kind of enqueue that breaks the maximum: it reuses a block, which asks no guard. */
  predicate Overshoots<T>(c: Core<T>, n: nat) {
    c.b > 0 && c.tail % c.b == 0 && CanReuse(c) && c.tail - c.head > n - c.b
  }

  lemma {:induction false} WithinUpTo<T(!new)>(run: seq<State<T>>, ops: seq<Op<T>>, b: nat, n: nat, m: nat)
    requires IsRun(run, ops, b, WrapAround.AtMost(n)) && m <= |ops| && n % b == 0 && n < WrapAround.HALF && b < WrapAround.HALF
    requires forall k :: 0 <= k < m && ops[k].Put? ==> !Overshoots(run[k].core, n)
    ensures run[m].core.b == b && WithinLimit(run[m].core, n)
  {
    hide Good, Do, Enabled, WithinLimit, Overshoots;
    RunGood(run, ops, b, WrapAround.AtMost(n), m);
    if m == 0 {
      EmptyWithin(run[0], b, n);
    } else {
      WithinUpTo(run, ops, b, n, m - 1);
      RunGood(run, ops, b, WrapAround.AtMost(n), m - 1);
      WithinStep(run[m - 1], ops[m - 1], n);
    }
  }

  lemma EmptyWithin<T>(s: State<T>, b: nat, n: nat)
    requires b > 0 && Init(s, b)
    ensures s.core.b == b && WithinLimit(s.core, n)
  {
  }

  lemma WithinStep<T(!new)>(s: State<T>, op: Op<T>, n: nat)
    requires Good(s) && Enabled(s, op) && s.core.b > 0 && n % s.core.b == 0 && n < WrapAround.HALF && s.core.b < WrapAround.HALF
    requires WithinLimit(s.core, n)
    ensures Do(s, op, WrapAround.AtMost(n)).core.b > 0
    ensures WithinLimit(Do(s, op, WrapAround.AtMost(n)).core, n) <==> !(op.Put? && Overshoots(s.core, n))
  {
    hide Core.Valid, Enqueued, Tickets.Inv, CanReuse, WrapAround.Refused;
    SizeKept(s, op, WrapAround.AtMost(n));
    BlocksPlaced(s.core);
    match op
    case Put(x, pool) =>
      TailBelowEnd(s.core);
      LimitKeptExactly(s.core, x, n, pool);
    case Consume(a) =>
      var h :| Tickets.Inv(s.tickets, h);
      TicketsStep(s.tickets, h, a);
    case Finish(_, _) =>
  }

  lemma TailBelowEnd<T>(c: Core<T>)
    requires c.b > 0
    ensures c.tail <= WrapAround.BlockEnd(c.tail, c.b)
  {
    assert c.tail == c.b * (c.tail / c.b) + c.tail % c.b;
  }

  /** A run stays within the configured maximum if and only if no enqueue in it reuses a block with more
      than the maximum less one block enqueued. */
  lemma LimitHoldsExactly<T(!new)>(run: seq<State<T>>, ops: seq<Op<T>>, b: nat, n: nat)
    requires IsRun(run, ops, b, WrapAround.AtMost(n)) && n % b == 0 && n < WrapAround.HALF && b < WrapAround.HALF
    ensures forall k :: 0 <= k < |run| ==> run[k].core.b == b
    ensures (forall k :: 0 <= k < |run| ==> WithinLimit(run[k].core, n))
       <==> (forall k :: 0 <= k < |ops| && ops[k].Put? ==> !Overshoots(run[k].core, n))
  {
    hide Good, Do, Enabled, WithinLimit, Overshoots;
    forall k | 0 <= k < |run|
      ensures run[k].core.b == b && Good(run[k])
    {
      RunGood(run, ops, b, WrapAround.AtMost(n), k);
    }
    if forall k :: 0 <= k < |ops| && ops[k].Put? ==> !Overshoots(run[k].core, n) {
      forall k | 0 <= k < |run|
        ensures WithinLimit(run[k].core, n)
      {
        WithinUpTo(run, ops, b, n, k);
      }
    } else {
      var k :| 0 <= k < |ops| && ops[k].Put? && Overshoots(run[k].core, n);
      if WithinLimit(run[k].core, n) {
        WithinStep(run[k], ops[k], n);
        assert !WithinLimit(run[k + 1].core, n);
      }
    }
  }

  // ---------------------------------------------------------------- a run beyond it

  ghost predicate Reached(s: State<int>) {
    exists run, ops :: IsRun(run, ops, 2, WrapAround.AtMost(2)) && run[|ops|] == s
  }

  lemma Go(s: State<int>, op: Op<int>)
    requires Reached(s) && Enabled(s, op)
    ensures Reached(Do(s, op, WrapAround.AtMost(2)))
  {
    hide Do, Enabled, Init;
    var limit := WrapAround.AtMost(2);
    var run, ops :| IsRun(run, ops, 2, limit) && run[|ops|] == s;
    var run', ops' := run + [Do(s, op, limit)], ops + [op];
    assert IsRun(run', ops', 2, limit) && run'[|ops'|] == Do(s, op, limit);
  }

  /** Nobody is in a dequeue. */
  function Counters(tail: nat, head: nat, claimed: seq<nat>): Tickets.State {
    Tickets.State(tail, head, head, 0, claimed, map[0 := Tickets.Idle])
  }

  /** Two blocks of two elements; `flags` are those of the block ahead, block 0. */
  ghost predicate Shape(c: Core<int>, tail: nat, head: nat, placed: seq<BlockId>, flags: seq<bool>, done: set<nat>) {
    && c.b == 2 && c.tail == tail && c.head == head && c.placed == placed && placed != []
    && |c.placed| == c.used && c.tailBlock == Some(placed[|placed| - 1])
    && c.tailBlock.value in c.next && c.next[c.tailBlock.value] == 0
    && 0 in c.flags && c.flags[0] == flags && c.done == done && 0 in c.cells && |c.cells[0]| == 2
  }

  lemma Begin(s: State<int>)
    requires s == State(Empty(2), Counters(0, 0, []))
    ensures Reached(s)
  {
    assert IsRun([s], [], 2, WrapAround.AtMost(2));
  }

  /** A block started. */
  lemma FillFirst() returns (s: State<int>)
    ensures Reached(s) && Shape(s.core, 1, 0, [0], [false, false], {}) && s.tickets == Counters(1, 0, [])
  {
    hide Reached;
    var c: Core<int> := Empty(2);
    Begin(State(c, Counters(0, 0, [])));
    assert !CanReuse(c) && !WrapAround.Refused(0, 0, 2, WrapAround.AtMost(2));
    assert Enqueued(c, 0, WrapAround.AtMost(2), Some(0)) == Started(c, 0, false, 0);
    Go(State(c, Counters(0, 0, [])), Put(0, Some(0)));
    s := State(Started(c, 0, false, 0), Counters(1, 0, []));
    assert Blank(2) == [false, false];
  }

  /** And filled. */
  lemma FillOne() returns (s: State<int>)
    ensures Reached(s) && Shape(s.core, 2, 0, [0], [false, false], {}) && s.tickets == Counters(2, 0, [])
  {
    hide Reached;
    s := FillFirst();
    Go(s, Put(0, None));
    s := State(Appended(s.core, 0), Counters(2, 0, []));
  }

  /** A consumer claims both, by a bulk dequeue with nothing in between. */
  lemma ClaimBoth(s: State<int>) returns (e: State<int>)
    requires Reached(s) && s.tickets == Counters(2, 0, []) && s.core.head == 0
    ensures Reached(e) && e == State(s.core.(head := 2), Counters(2, 2, [0, 0]))
  {
    hide Reached;
    e := TakeTickets(s);
    e := ClaimStep(e, Tickets.Run(0), s.tickets.(opt := 2, pc := map[0 := Tickets.Recheck(0, 2, 0)]));
    e := ClaimStep(e, Tickets.Run(0), s.tickets.(opt := 2, pc := map[0 := Tickets.Claim(2)]));
    e := ClaimStep(e, Tickets.Run(0), Counters(2, 2, [0, 0]));
  }

  lemma TakeTickets(s: State<int>) returns (e: State<int>)
    requires Reached(s) && s.tickets == Counters(2, 0, []) && s.core.head == 0
    ensures Reached(e) && e == s.(tickets := s.tickets.(pc := map[0 := Tickets.Take(0, 2)]))
  {
    hide Reached;
    e := ClaimStep(s, Tickets.Call(0, 2), s.tickets.(pc := map[0 := Tickets.LoadTail(2)]));
    e := ClaimStep(e, Tickets.Run(0), s.tickets.(pc := map[0 := Tickets.LoadOver(2, 2)]));
    e := ClaimStep(e, Tickets.Run(0), s.tickets.(pc := map[0 := Tickets.LoadOpt(2, 2, 0)]));
    e := ClaimStep(e, Tickets.Run(0), s.tickets.(pc := map[0 := Tickets.Take(0, 2)]));
  }

  lemma ClaimStep(s: State<int>, a: Tickets.Action, k: Tickets.State) returns (e: State<int>)
    requires Reached(s) && !a.Enqueue? && Tickets.Enabled(s.tickets, a) && k == Tickets.Do(s.tickets, a)
    ensures Reached(e) && e == State(s.core.(head := k.head), k)
  {
    hide Reached, Tickets.Do, Tickets.Enabled;
    Go(s, Consume(a));
    e := State(s.core.(head := k.head), k);
  }

  /** Another block filled. */
  lemma FillAnother() returns (s: State<int>)
    ensures Reached(s) && Shape(s.core, 4, 2, [0, 1], [false, false], {}) && s.tickets == Counters(4, 2, [0, 0])
  {
    hide Reached;
    s := FillOne();
    s := ClaimBoth(s);
    assert !AllSet([false, false]) by { assert ![false, false][0]; }
    Go(s, Put(0, Some(1)));
    s := State(Started(s.core, 0, false, 1), Counters(3, 2, [0, 0]));
    assert Shape(s.core, 3, 2, [0, 1], [false, false], {});
    Go(s, Put(0, None));
    s := State(Appended(s.core, 0), Counters(4, 2, [0, 0]));
  }

  /** With a maximum of two, three elements are enqueued: the first block is reused as soon as it is empty,
      and nothing asks how many there are in the second. */
  lemma LimitExceeded() returns (s: State<int>)
    ensures Reached(s) && s.core.b == 2 && s.core.tail - s.core.head == 3
  {
    hide Reached;
    s := FillAnother();
    Go(s, Finish(0, 0));
    s := s.(core := Completed(s.core, 0));
    assert Shape(s.core, 4, 2, [0, 1], [false, true], {0});
    Go(s, Finish(0, 1));
    s := s.(core := Completed(s.core, 1));
    assert Shape(s.core, 4, 2, [0, 1], [true, true], {0, 1});
    Go(s, Put(0, None));
    s := Do(s, Put(0, None), WrapAround.AtMost(2));
  }
}
