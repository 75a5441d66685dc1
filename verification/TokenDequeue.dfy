/**
 Dequeueing with a consumer token: the walk around the ring of producers and the rotation of
 consumers over producers. Producers are numbered from the list's tail, so `next_prod` of `p` is
 `p + 1`, and of the last one it is null, from where the walk continues at the tail.
 */
module TokenDequeue {
  import WrapAround
  import opened Basics

  function NextProd(p: nat, n: nat): nat
    requires p < n
  {
    if p + 1 == n then 0 else p + 1
  }

  const WORD32: int := 0x1_0000_0000

  /** One call of a producer's `dequeue_bulk`. */
  datatype Visit = Visit(producer: nat, asked: nat, got: nat)

  function Collected(visits: seq<Visit>): nat {
    if visits == [] then 0 else Collected(visits[..|visits| - 1]) + visits[|visits| - 1].got
  }

  /** How far the walk at `ptr` is behind `current` on the ring. */
  function Distance(ptr: nat, current: nat, n: nat): nat
    requires ptr < n && current < n
  {
    if ptr <= current then current - ptr else current + n - ptr
  }

  function RingAt(p: int, n: nat): int { if p < n then p else p - n }

  /** The last `k` visits go once around: consecutive producers, the first of them `current`, and each
      gave less than it was asked for. */
  ghost predicate AllShort(visits: seq<Visit>, k: nat, current: nat, n: nat)
    requires n > 0
  {
    && k <= |visits|
    && forall j :: |visits| - k <= j < |visits| ==>
         visits[j].producer == RingAt(current + (j - (|visits| - k)), n) && visits[j].got < visits[j].asked
  }

  /** The last visit that gave something, or the first. */
  function LastGiving(visits: seq<Visit>): Visit
    requires visits != []
  {
    var v := visits[|visits| - 1];
    if |visits| == 1 || v.got != 0 then v else LastGiving(visits[..|visits| - 1])
  }

  /** Every later visit gave nothing. */
  predicate OnlyFirst(visits: seq<Visit>) { forall i :: 1 <= i < |visits| ==> visits[i].got == 0 }

  lemma {:induction false} OnlyFirstGives(visits: seq<Visit>)
    requires visits != [] && OnlyFirst(visits)
    ensures LastGiving(visits) == visits[0]
  {
    if |visits| > 1 {
      OnlyFirstGives(visits[..|visits| - 1]);
    }
  }

  /** The token's `itemsConsumedFromCurrent`, a 32-bit number: what it took since it came to its producer. */
  function Consumed(before: nat, visits: seq<Visit>): nat
    requires visits != []
  {
    (LastGiving(visits).got + if OnlyFirst(visits) then before else 0) % WORD32
  }

  lemma OneVisit(consumed0: nat, v: Visit)
    ensures Collected([v]) == v.got && LastGiving([v]) == v && Consumed(consumed0, [v]) == (v.got + consumed0) % WORD32
  {
    assert [v][..0] == [];
  }

  lemma MoreVisits(consumed0: nat, visits: seq<Visit>, v: Visit)
    requires visits != []
    ensures Collected(visits + [v]) == Collected(visits) + v.got
    ensures LastGiving(visits + [v]) == if v.got != 0 then v else LastGiving(visits)
    ensures Consumed(consumed0, visits + [v]) == if v.got != 0 then v.got % WORD32 else Consumed(consumed0, visits)
  {
    var visits' := visits + [v];
    assert visits'[..|visits'| - 1] == visits;
    if v.got != 0 {
      assert visits'[|visits|].got != 0;
    } else {
      assert OnlyFirst(visits') <==> OnlyFirst(visits);
    }
  }

  lemma MoreShort(visits: seq<Visit>, k: nat, current: nat, n: nat, v: Visit)
    requires current < n && 1 <= k < n && AllShort(visits, k, current, n) && v.got < v.asked && v.producer < n
    requires k + Distance(v.producer, current, n) == n && v.producer != current
    ensures v.got == 0 ==> AllShort(visits + [v], k + 1, current, n)
    ensures AllShort(visits + [v], 1, v.producer, n)
  {
  }

  /** Each producer is asked for all that is still missing, and gives what it has of that. */
  ghost predicate AsksForRest(visits: seq<Visit>, n: nat, max: nat, available: (nat, nat) -> nat) {
    forall i :: 0 <= i < |visits| ==> AskedWell(visits, n, max, available, i)
  }

  ghost predicate AskedWell(visits: seq<Visit>, n: nat, max: nat, available: (nat, nat) -> nat, i: nat)
    requires i < |visits|
  {
    && visits[i].producer < n && visits[i].asked == max - Collected(visits[..i])
    && visits[i].got == Min(available(i, visits[i].producer), visits[i].asked)
  }

  lemma AsksOn(visits: seq<Visit>, n: nat, max: nat, available: (nat, nat) -> nat, v: Visit)
    requires AsksForRest(visits, n, max, available) && v.asked == max - Collected(visits)
    requires v.producer < n && v.got == Min(available(|visits|, v.producer), v.asked)
    ensures AsksForRest(visits + [v], n, max, available)
  {
    assert visits[..|visits|] == visits;
    forall i | 0 <= i < |visits| + 1
      ensures AskedWell(visits + [v], n, max, available, i)
    {
      assert (visits + [v])[..i] == visits[..i];
      assert i < |visits| ==> AskedWell(visits, n, max, available, i);
    }
  }

  /** The walk of `try_dequeue_bulk` with a token (1257-1288) over `n` producers. What a producer has at the
      moment it is asked is up to the other threads: `available(i, p)` for the `i`-th visit, made to producer
      `p`. The walk ends although it moves the producer it is to stop at; the quota is looked at only if the
      first producer gave everything. */
  method DequeueAround(n: nat, current0: nat, consumed0: nat, quota: nat, max0: nat, available: (nat, nat) -> nat)
      returns (count: nat, current: nat, consumed: nat, rotate: bool, visits: seq<Visit>)
    requires current0 < n && consumed0 < WORD32
    ensures count == Collected(visits) <= max0 && visits != []
    ensures visits[0].producer == current0 && visits[0].asked == max0
    ensures AsksForRest(visits, n, max0, available)
    ensures current == LastGiving(visits).producer && consumed == Consumed(consumed0, visits)
    ensures count < max0 ==> AllShort(visits, n, current, n)
    ensures rotate <==> visits[0].got == max0 && consumed >= quota
  {
    AsksOn([], n, max0, available, Visit(current0, max0, Min(available(0, current0), max0)));
    hide Collected, LastGiving, Consumed, AllShort, AsksForRest;
    current := current0;
    count := Min(available(0, current), max0);
    visits := [Visit(current, max0, count)];
    assert visits == [] + visits;
    OneVisit(consumed0, visits[0]);
    consumed := (consumed0 + count) % WORD32;
    if count == max0 {
      rotate := consumed >= quota;
      return;
    }
    rotate := false;
    var max := max0 - count;
    var ptr: nat := NextProd(current, n);
    ghost var k: nat := 1;
    FirstShort(visits[0], n);
    while ptr != current
      invariant ptr < n && current < n && max > 0 && count + max == max0
      invariant visits != [] && count == Collected(visits)
      invariant visits[0] == Visit(current0, max0, Min(available(0, current0), max0)) && visits[0].got < max0
      invariant AsksForRest(visits, n, max0, available)
      invariant 1 <= k <= n && AllShort(visits, k, current, n)
      invariant k + Distance(ptr, current, n) == n
      invariant current == LastGiving(visits).producer && consumed == Consumed(consumed0, visits)
      decreases max, Distance(ptr, current, n)
    {
      var dequeued: nat := Min(available(|visits|, ptr), max);
      var visit := Visit(ptr, max, dequeued);
      MoreVisits(consumed0, visits, visit);
      AsksOn(visits, n, max0, available, visit);
      if dequeued < max {
        MoreShort(visits, k, current, n, visit);
      }
      visits := visits + [visit];
      count := count + dequeued;
      if dequeued != 0 {
        current := ptr;
        consumed := dequeued % WORD32;
      }
      if dequeued == max {
        break;
      }
      k := if dequeued != 0 then 1 else k + 1;
      max := max - dequeued;
      ptr := NextProd(ptr, n);
    }
  }

  lemma FirstShort(v: Visit, n: nat)
    requires v.producer < n && v.got < v.asked
    ensures AllShort([v], 1, v.producer, n)
  {
  }

  /** So the walk comes back with less than it was asked for only after every producer has, at its
      latest visit, given less than it was asked for. */
  lemma EveryProducerShort(visits: seq<Visit>, current: nat, n: nat, p: nat)
    requires current < n && p < n && AllShort(visits, n, current, n)
    ensures exists i :: 0 <= i < |visits| && visits[i].producer == p && visits[i].got < visits[i].asked
  {
    var i := if p >= current then p - current else p + n - current;
    var j := |visits| - n + i;
    assert visits[j].producer == p && visits[j].got < visits[j].asked;
  }

  // ---------------------------------------------------------------- rotation

  /** `steps` moves along the ring. */
  function Walk(p: nat, steps: nat, n: nat): (r: nat)
    requires p < n
    ensures r < n
  {
    if steps == 0 then p else NextProd(Walk(p, steps - 1, n), n)
  }

  method Advance(p: nat, steps: nat, n: nat) returns (r: nat)
    requires p < n
    ensures r == Walk(p, steps, n)
  {
    r := p;
    var i := 0;
    while i != steps
      invariant 0 <= i <= steps && r == Walk(p, i, n)
    {
      r := NextProd(r, n);
      i := i + 1;
    }
  }

  /** The producer a token with `initialOffset` is on after `turns` rotations. */
  function Home(initialOffset: nat, turns: nat, n: nat): nat
    requires n > 0
  {
    (n - 1 - initialOffset % n + turns) % n
  }

  /** Where a rotation takes a token: on from its desired producer, or if it has none from its place in the
      list, by what the global offset has changed in 32 bits. */
  function Turned(desired: Option<nat>, lastKnown: nat, initialOffset: nat, globalOffset: nat, n: nat): nat
    requires n > 0
  {
    ((if desired.None? then n - 1 - initialOffset % n else desired.value) + (globalOffset - lastKnown) % WORD32) % n
  }

  /** A new token's place, counted from the other end of the list (1402-1412). */
  method Place(initialOffset: nat, n: nat) returns (producer: nat)
    requires n > 0
    ensures producer == n - 1 - initialOffset % n
  {
    var offset := n - 1 - initialOffset % n;
    producer := Advance(0, offset, n);
    WalkIs(0, offset, n);
    WrapAround.DivModUnique(offset, n, 0, offset);
  }

  /** Moves on, without whole turns (1415-1424). */
  method AdvanceTurns(p: nat, turns: nat, n: nat) returns (r: nat)
    requires p < n
    ensures r == (p + turns) % n && r < n
  {
    var delta := turns;
    if delta >= n {
      delta := delta % n;
    }
    r := Advance(p, delta, n);
    WalkIs(p, delta, n);
    SameTurn(p, turns, n);
  }

  class Token {
    const initialOffset: nat
    var desired: Option<nat>
    var current: nat
    var lastKnown: nat
    var consumed: nat

    constructor (initialOffset: nat)
      ensures this.initialOffset == initialOffset && desired.None? && lastKnown == WORD32 - 1 && consumed == 0
    {
      this.initialOffset := initialOffset;
      desired, current, lastKnown, consumed := None, 0, WORD32 - 1, 0;
    }

    /** Among `n` producers. */
    predicate Valid(n: nat)
      reads this
    {
      lastKnown < WORD32 && consumed < WORD32 && (desired.Some? ==> desired.value < n && current < n)
    }

    /** `update_current_producer_after_rotation` (1392-1430) with producers present. */
    method Rotate(globalOffset: nat, n: nat)
      requires Valid(n) && n > 0 && globalOffset < WORD32
      modifies this
      ensures Valid(n) && desired == Some(Turned(old(desired), old(lastKnown), initialOffset, globalOffset, n))
      ensures current == desired.value && lastKnown == globalOffset && consumed == 0
    {
      var producer: nat;
      if desired.None? {
        producer := Place(initialOffset, n);
      } else {
        producer := desired.value;
      }
      var delta: nat := (globalOffset - lastKnown) % WORD32;
      producer := AdvanceTurns(producer, delta, n);
      desired, current, lastKnown, consumed := Some(producer), producer, globalOffset, 0;
    }

    /** `try_dequeue_bulk` with a token (1249-1289): rotates first if the token is new or the global offset
        has changed, and asks for a rotation of all tokens once it has had its quota from one producer. */
    method TryDequeueBulk(n: nat, max: nat, globalOffset: nat, quota: nat, available: (nat, nat) -> nat)
        returns (count: nat, rotate: bool, visits: seq<Visit>)
      requires Valid(n) && globalOffset < WORD32
      modifies this
      ensures Valid(n) && count == Collected(visits) <= max
      ensures visits == [] <==> n == 0
      ensures n == 0 ==> !rotate && unchanged(this)
      ensures n > 0 ==>
        && lastKnown == globalOffset && desired.Some?
        && var turned := old(desired).None? || old(lastKnown) != globalOffset;
           var start := if turned then Turned(old(desired), old(lastKnown), initialOffset, globalOffset, n) else old(current);
           && desired == (if turned then Some(start) else old(desired))
           && visits[0].producer == start && visits[0].asked == max && current == LastGiving(visits).producer
           && consumed == Consumed(if turned then 0 else old(consumed), visits)
      ensures AsksForRest(visits, n, max, available)
      ensures n > 0 && count < max ==> AllShort(visits, n, current, n)
      ensures n > 0 ==> (rotate <==> visits[0].got == max && consumed >= quota)
    {
      if desired.None? || lastKnown != globalOffset {
        if n == 0 {
          return 0, false, [];
        }
        Rotate(globalOffset, n);
      }
      var newCurrent, newConsumed;
      count, newCurrent, newConsumed, rotate, visits := DequeueAround(n, current, consumed, quota, max, available);
      forall i | 0 <= i < |visits|
        ensures visits[i].producer < n
      {
        assert AskedWell(visits, n, max, available, i);
      }
      GivingBounded(visits, n);
      current, consumed := newCurrent, newConsumed;
    }
  }

  lemma {:induction false} GivingBounded(visits: seq<Visit>, n: nat)
    requires visits != [] && forall i :: 0 <= i < |visits| ==> visits[i].producer < n
    ensures LastGiving(visits).producer < n
  {
    if |visits| > 1 && visits[|visits| - 1].got == 0 {
      GivingBounded(visits[..|visits| - 1], n);
    }
  }

  /** Let `g` be how often all tokens were asked to rotate. A token that is where it belongs stays there
      across rotations, whether or not the 32-bit global offset has wrapped around in between. */
  lemma StaysHome(initialOffset: nat, g0: nat, g: nat, n: nat)
    requires n > 0 && g0 <= g < g0 + WORD32
    ensures Turned(Some(Home(initialOffset, g0 + 1, n)), g0 % WORD32, initialOffset, g % WORD32, n) == Home(initialOffset, g + 1, n)
  {
    var d := g - g0;
    WordDifference(g0, g);
    SameTurn(d, n - 1 - initialOffset % n + g0 + 1, n);
  }

  lemma WordDifference(g0: nat, g: nat)
    requires g0 <= g < g0 + WORD32
    ensures (g % WORD32 - g0 % WORD32) % WORD32 == g - g0
  {
    var q := g0 / WORD32 - g / WORD32;
    assert g % WORD32 - g0 % WORD32 == g - g0 + WORD32 * q by {
      assert g == WORD32 * (g / WORD32) + g % WORD32 && g0 == WORD32 * (g0 / WORD32) + g0 % WORD32;
    }
    WrapAround.ModShift(g - g0, WORD32, q);
    WrapAround.DivModUnique(g - g0, WORD32, 0, g - g0);
  }

  /** A new token is put where the 32-bit offset says. That is where it belongs if and only if the ring is
      back at its start whenever the offset is, which it always is before the offset first wraps around and
      for numbers of producers that divide `2^32`. */
  lemma FreshHome(initialOffset: nat, g: nat, n: nat)
    requires n > 0
    ensures var placed := Turned(None, WORD32 - 1, initialOffset, g % WORD32, n);
            && placed == Home(initialOffset, (g + 1) % WORD32, n)
            && (placed == Home(initialOffset, g + 1, n) <==> (WORD32 * ((g + 1) / WORD32)) % n == 0)
  {
    FreshTurns(g);
    var x, t := n - 1 - initialOffset % n + (g + 1) % WORD32, WORD32 * ((g + 1) / WORD32);
    assert g + 1 == (g + 1) % WORD32 + t;
    SameRest(x, t, n);
  }

  /** With three producers, a token that is new when the offset has just wrapped around is put on the producer
      of the token before the last, and the producer that was its own is left to nobody. */
  lemma FreshAstray()
    ensures var g := WORD32 - 1;
            && Turned(None, WORD32 - 1, 3, g % WORD32, 3) == Home(1, g + 1, 3) == 2
            && Home(2, g + 1, 3) == 1 && Home(3, g + 1, 3) == 0
  {
  }

  lemma FreshTurns(g: nat)
    ensures (g % WORD32 - (WORD32 - 1)) % WORD32 == (g + 1) % WORD32
  {
    var q, r := g / WORD32, g % WORD32;
    if r == WORD32 - 1 {
      WrapAround.DivModUnique(g + 1, WORD32, q + 1, 0);
    } else {
      WrapAround.DivModUnique(g + 1, WORD32, q, r + 1);
      WrapAround.DivModUnique(r - (WORD32 - 1), WORD32, -1, r + 1);
    }
  }

  /** Adding a number changes the rest unless it is a multiple. */
  lemma SameRest(x: nat, t: nat, n: nat)
    requires n > 0
    ensures (x + t) % n == x % n <==> t % n == 0
  {
    SameTurn(x, t, n);
    var r := t % n;
    if r == 0 {
      assert x + t % n == x;
    } else {
      ModDiffer(x + r, x, n);
    }
  }

  lemma NextMod(x: nat, n: nat)
    requires n > 0
    ensures (x + 1) % n == NextProd(x % n, n)
  {
    var q, r := x / n, x % n;
    if r + 1 == n {
      assert n * (q + 1) == n * q + n;
      WrapAround.DivModUnique(x + 1, n, q + 1, 0);
    } else {
      WrapAround.DivModUnique(x + 1, n, q, r + 1);
    }
  }

  lemma {:induction false} WalkIs(p: nat, steps: nat, n: nat)
    requires p < n
    ensures Walk(p, steps, n) == (p + steps) % n
  {
    if steps == 0 {
      WrapAround.DivModUnique(p, n, 0, p);
    } else {
      WalkIs(p, steps - 1, n);
      NextMod(p + steps - 1, n);
    }
  }

  /** Whole turns of the ring change nothing. */
  lemma SameTurn(p: nat, d: nat, n: nat)
    requires n > 0
    ensures (p + d % n) % n == (p + d) % n
  {
    assert p + d == p + d % n + n * (d / n);
    WrapAround.ModShift(p + d % n, n, d / n);
  }

  /** Numbers less than `n` apart differ modulo `n`. */
  lemma ModDiffer(x: int, y: int, n: nat)
    requires 0 < x - y < n
    ensures x % n != y % n
  {
    if x % n == y % n {
      var q := x / n - y / n;
      assert x - y == n * q by { assert n * (x / n) - n * (y / n) == n * q; }
      if q <= 0 {
        WrapAround.MulMonotone(n, q, 0);
      } else {
        WrapAround.MulMonotone(n, 1, q);
      }
    }
  }

  /** Consumers with consecutive initial offsets are, after the same number of rotations, on as many different
      producers as there are. */
  lemma HomesDiffer(initialOffset: nat, i: nat, j: nat, turns: nat, n: nat)
    requires n > 0 && i < j < n
    ensures Home(initialOffset + i, turns, n) != Home(initialOffset + j, turns, n)
  {
    var a, b := (initialOffset + i) % n, (initialOffset + j) % n;
    ModDiffer(initialOffset + j, initialOffset + i, n);
    var x, y := n - 1 - a + turns, n - 1 - b + turns;
    if a < b {
      ModDiffer(x, y, n);
    } else {
      ModDiffer(y, x, n);
    }
  }
}
