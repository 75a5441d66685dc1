/**
 The per-producer dequeue protocol: consumers draw tickets from `dequeueOptimisticCount`,
 re-check the tail against a possibly stale `dequeueOvercommit`, and then either claim element
 indices from `headIndex` or give their tickets back by raising the overcommit.

 `dequeue` is `dequeue_bulk` with a maximum of one: it tests the same differences and changes
 the same counters in the same order. Indices are unbounded here; module WrapAround relates
 them to the wrapping words of the program.
 */
module Tickets {
  import opened Basics
  import opened Counting

  type Thread = nat

  datatype Pc =
    | Idle
    | LoadTail(max: nat)
    | LoadOver(max: nat, tail: nat)
    | LoadOpt(max: nat, tail: nat, over: nat)
    | Take(over: nat, desired: nat)
    | Recheck(over: nat, desired: nat, ticket: nat)
    | GiveBack(excess: nat, claim: nat, claims: bool)
    | Claim(claim: nat)

  /** `claimed[i]` is the consumer that claimed element index `i`. */
  datatype State = State(
    tail: nat,
    head: nat,
    opt: nat,
    over: nat,
    claimed: seq<Thread>,
    pc: map<Thread, Pc>)

  datatype Action = Enqueue(count: nat) | Call(t: Thread, max: nat) | Run(t: Thread)

  predicate Enabled(s: State, a: Action) {
    match a
    case Enqueue(_) => true
    case Call(t, _) => t in s.pc && s.pc[t].Idle?
    case Run(t) => t in s.pc && !s.pc[t].Idle?
  }

  function Copies<T>(n: nat, x: T): seq<T> { seq(n, _ => x) }

  /** One atomic operation. Lines refer to shared/queue_internal/concurrentqueue.h. */
  function Do(s: State, a: Action): State
    requires Enabled(s, a)
  {
    match a
    case Enqueue(count) => s.(tail := s.tail + count)  // 1951, 2243
    case Call(t, max) => s.(pc := s.pc[t := LoadTail(max)])
    case Run(t) =>
      match s.pc[t]
      case Idle => s
      case LoadTail(max) => s.(pc := s.pc[t := LoadOver(max, s.tail)])  // 1957, 2250
      case LoadOver(max, tail) => s.(pc := s.pc[t := LoadOpt(max, tail, s.over)])  // 1958, 2251
      case LoadOpt(max, tail, over) =>  // 1959, 2252-2254
        var desired := tail - (s.opt - over);
        s.(pc := s.pc[t := if 0 < desired then Take(over, Min(desired, max)) else Idle])
      case Take(over, desired) =>  // 1979, 2257
        s.(opt := s.opt + desired, pc := s.pc[t := Recheck(over, desired, s.opt)])
      case Recheck(over, desired, ticket) =>  // 1991-1992, 2259-2265, 2047, 2333
        var actual := s.tail - (ticket - over);
        if 0 < actual then
          var claim := Min(desired, actual);
          s.(pc := s.pc[t := if claim < desired then GiveBack(desired - claim, claim, true) else Claim(claim)])
        else s.(pc := s.pc[t := GiveBack(desired, 0, false)])
      case GiveBack(excess, claim, claims) =>
        s.(over := s.over + excess, pc := s.pc[t := if claims then Claim(claim) else Idle])
      case Claim(claim) =>  // 2003, 2269
        s.(head := s.head + claim, claimed := s.claimed + Copies(claim, t), pc := s.pc[t := Idle])
  }

  ghost predicate Init(s: State) {
    && s.tail == s.head == s.opt == s.over == 0
    && s.claimed == []
    && forall t :: t in s.pc ==> s.pc[t].Idle?
  }

  ghost predicate IsRun(run: seq<State>, actions: seq<Action>) {
    && |run| == |actions| + 1
    && Init(run[0])
    && forall i :: 0 <= i < |actions| ==> Enabled(run[i], actions[i]) && run[i + 1] == Do(run[i], actions[i])
  }

  // ---------------------------------------------------------------- the ticket history

  /** What became of a ticket. */
  datatype Outcome = Undecided(t: Thread) | Granted | Failed

  ghost function Failures(h: seq<Outcome>): nat {
    if h == [] then 0 else Failures(h[..|h| - 1]) + if h[|h| - 1].Failed? then 1 else 0
  }

  ghost function Grants(h: seq<Outcome>): nat {
    if h == [] then 0 else Grants(h[..|h| - 1]) + if h[|h| - 1].Granted? then 1 else 0
  }

  ghost function Open(h: seq<Outcome>): nat {
    if h == [] then 0 else Open(h[..|h| - 1]) + if h[|h| - 1].Undecided? then 1 else 0
  }

  lemma {:induction false} CountsAppend(h: seq<Outcome>, k: seq<Outcome>)
    ensures Failures(h + k) == Failures(h) + Failures(k)
    ensures Grants(h + k) == Grants(h) + Grants(k)
    ensures Open(h + k) == Open(h) + Open(k)
  {
    if k == [] {
      assert h + k == h;
    } else {
      var k' := k[..|k| - 1];
      assert (h + k)[..|h + k| - 1] == h + k';
      CountsAppend(h, k');
    }
  }

  lemma {:induction false} CountsTotal(h: seq<Outcome>)
    ensures Failures(h) + Grants(h) + Open(h) == |h|
  {
    if h != [] {
      CountsTotal(h[..|h| - 1]);
    }
  }

  lemma {:induction false} CountsCopies(n: nat, o: Outcome)
    ensures Failures(Copies(n, o)) == (if o.Failed? then n else 0)
    ensures Grants(Copies(n, o)) == (if o.Granted? then n else 0)
    ensures Open(Copies(n, o)) == (if o.Undecided? then n else 0)
  {
    if n > 0 {
      assert Copies(n, o)[..n - 1] == Copies(n - 1, o);
      CountsCopies(n - 1, o);
    }
  }

  /** Tickets are only ever decided, never undecided again, so failures only accumulate. */
  lemma {:induction false} FailuresGrow(h: seq<Outcome>, k: seq<Outcome>)
    requires |h| == |k|
    requires forall i :: 0 <= i < |h| && h[i].Failed? ==> k[i].Failed?
    ensures Failures(h) <= Failures(k)
  {
    if h != [] {
      FailuresGrow(h[..|h| - 1], k[..|k| - 1]);
    }
  }

  /** Every granted ticket, less the failures among the tickets up to it, lies below the tail. */
  ghost predicate Covered(h: seq<Outcome>, tail: nat) {
    forall i :: 0 <= i < |h| && h[i].Granted? ==> i + 1 - Failures(h[..i + 1]) <= tail
  }

  /** The key counting argument: the last granted ticket bounds them all. */
  lemma {:induction false} CoveredBound(h: seq<Outcome>, tail: nat)
    requires Covered(h, tail)
    ensures Grants(h) <= tail
  {
    if h != [] {
      if h[|h| - 1].Granted? {
        assert h[..|h|] == h;
        CountsTotal(h);
      } else {
        var k := h[..|h| - 1];
        forall i | 0 <= i < |k| && k[i].Granted?
          ensures i + 1 - Failures(k[..i + 1]) <= tail
        {
          assert k[..i + 1] == h[..i + 1];
        }
        CoveredBound(k, tail);
      }
    }
  }

  // ---------------------------------------------------------------- the invariant

  ghost function Excess(): Pc -> nat { (l: Pc) => if l.GiveBack? then l.excess else 0 }

  ghost function Claims(): Pc -> nat { (l: Pc) => if l.GiveBack? || l.Claim? then l.claim else 0 }

  /** A consumer's stale overcommit counts only failures of tickets drawn before its own. */
  ghost predicate PcOk(s: State, h: seq<Outcome>, t: Thread, l: Pc)
    requires |h| == s.opt
  {
    match l
    case LoadOpt(_, _, over) => over <= s.over
    case Take(over, _) => over <= s.over
    case Recheck(over, desired, ticket) =>
      && ticket + desired <= s.opt
      && h[ticket..ticket + desired] == Copies(desired, Undecided(t))
      && over <= Failures(h[..ticket])
    case GiveBack(excess, claim, claims) => !claims ==> claim == 0
    case _ => true
  }

  /** The counters are the outcomes of the tickets, up to what the threads have yet to book. */
  ghost predicate Booked(s: State, h: seq<Outcome>) {
    && |h| == s.opt
    && |s.claimed| == s.head
    && s.over + Sum(s.pc, Excess()) == Failures(h)
    && s.head + Sum(s.pc, Claims()) == Grants(h)
  }

  ghost predicate ThreadsOk(s: State, h: seq<Outcome>)
    requires |h| == s.opt
  {
    forall t :: t in s.pc ==> PcOk(s, h, t, s.pc[t])
  }

  /** An undecided ticket is in the hands of a thread about to decide it. */
  ghost predicate Held(s: State, h: seq<Outcome>) {
    forall i :: 0 <= i < |h| && h[i].Undecided? ==>
      var t := h[i].t;
      t in s.pc && s.pc[t].Recheck? && s.pc[t].ticket <= i < s.pc[t].ticket + s.pc[t].desired
  }

  ghost predicate Inv(s: State, h: seq<Outcome>) {
    Booked(s, h) && Covered(h, s.tail) && ThreadsOk(s, h) && Held(s, h)
  }

  /** Deciding the tickets `[ticket, ticket + desired)`: the first `claim` are granted, the rest fail. */
  ghost function Decide(h: seq<Outcome>, ticket: nat, desired: nat, claim: nat): seq<Outcome>
    requires ticket + desired <= |h| && claim <= desired
  {
    h[..ticket] + Copies(claim, Granted) + Copies(desired - claim, Failed) + h[ticket + desired..]
  }

  ghost function ClaimOf(s: State, l: Pc): nat
    requires l.Recheck?
  {
    var actual := s.tail - (l.ticket - l.over);
    if 0 < actual then Min(l.desired, actual) else 0
  }

  ghost function Follow(s: State, h: seq<Outcome>, a: Action): seq<Outcome>
    requires Enabled(s, a)
  {
    if !a.Run? then h
    else
      match s.pc[a.t]
      case Take(_, desired) => h + Copies(desired, Undecided(a.t))
      case Recheck(over, desired, ticket) =>
        if ticket + desired <= |h| then Decide(h, ticket, desired, ClaimOf(s, s.pc[a.t])) else h
      case _ => h
  }

  lemma CountsSplice(pre: seq<Outcome>, mid: seq<Outcome>, post: seq<Outcome>)
    ensures Failures(pre + mid + post) == Failures(pre) + Failures(mid) + Failures(post)
    ensures Grants(pre + mid + post) == Grants(pre) + Grants(mid) + Grants(post)
  {
    hide *;
    CountsAppend(pre + mid, post);
    CountsAppend(pre, mid);
  }

  lemma DecideCounts(h: seq<Outcome>, ticket: nat, desired: nat, claim: nat, t: Thread)
    requires ticket + desired <= |h| && claim <= desired
    requires h[ticket..ticket + desired] == Copies(desired, Undecided(t))
    ensures Failures(Decide(h, ticket, desired, claim)) == Failures(h) + desired - claim
    ensures Grants(Decide(h, ticket, desired, claim)) == Grants(h) + claim
  {
    hide Failures, Grants, Copies;
    var pre, mid, post := h[..ticket], Copies(desired, Undecided(t)), h[ticket + desired..];
    assert h == pre + mid + post;
    OpenCounts(pre, desired, t, post);
    DecidedCounts(pre, claim, desired - claim, post);
  }

  lemma OpenCounts(pre: seq<Outcome>, n: nat, t: Thread, post: seq<Outcome>)
    ensures Failures(pre + Copies(n, Undecided(t)) + post) == Failures(pre) + Failures(post)
    ensures Grants(pre + Copies(n, Undecided(t)) + post) == Grants(pre) + Grants(post)
  {
    hide *;
    CountsSplice(pre, Copies(n, Undecided(t)), post);
    CountsCopies(n, Undecided(t));
  }

  lemma DecidedCounts(pre: seq<Outcome>, granted: nat, failed: nat, post: seq<Outcome>)
    ensures Failures(pre + Copies(granted, Granted) + Copies(failed, Failed) + post) == Failures(pre) + failed + Failures(post)
    ensures Grants(pre + Copies(granted, Granted) + Copies(failed, Failed) + post) == Grants(pre) + granted + Grants(post)
  {
    hide *;
    CountsSplice(pre + Copies(granted, Granted), Copies(failed, Failed), post);
    CountsAppend(pre, Copies(granted, Granted));
    CountsCopies(granted, Granted);
    CountsCopies(failed, Failed);
  }

  lemma TakenBy(h: seq<Outcome>, first: nat, count: nat, t: Thread)
    requires first + count <= |h| && h[first..first + count] == Copies(count, Undecided(t))
    ensures forall i :: first <= i < first + count ==> h[i] == Undecided(t)
  {
    forall i | first <= i < first + count
      ensures h[i] == Undecided(t)
    {
      assert h[i] == h[first..first + count][i - first];
    }
  }

  /** Deciding tickets keeps every prefix's failures at least as many. */
  lemma DecideFailures(h: seq<Outcome>, ticket: nat, desired: nat, claim: nat, t: Thread, n: nat)
    requires ticket + desired <= |h| && claim <= desired && n <= |h|
    requires h[ticket..ticket + desired] == Copies(desired, Undecided(t))
    ensures Failures(h[..n]) <= Failures(Decide(h, ticket, desired, claim)[..n])
  {
    hide Failures;
    var k := Decide(h, ticket, desired, claim);
    TakenBy(h, ticket, desired, t);
    assert forall i :: 0 <= i < n && h[i].Failed? ==> k[i].Failed?;
    FailuresGrow(h[..n], k[..n]);
  }

  /** Failures of a prefix only grow with the prefix. */
  lemma PrefixFailures(h: seq<Outcome>, m: nat, n: nat)
    requires m <= n <= |h|
    ensures Failures(h[..m]) <= Failures(h[..n])
  {
    hide *;
    assert h[..n] == h[..m] + h[m..n];
    CountsAppend(h[..m], h[m..n]);
  }

  lemma DecideCovered(h: seq<Outcome>, ticket: nat, desired: nat, claim: nat, t: Thread, tail: nat, over: nat)
    requires ticket + desired <= |h| && claim <= desired
    requires h[ticket..ticket + desired] == Copies(desired, Undecided(t))
    requires Covered(h, tail) && over <= Failures(h[..ticket])
    requires claim > 0 ==> ticket + claim - over <= tail
    ensures Covered(Decide(h, ticket, desired, claim), tail)
  {
    hide Failures, Grants;
    var k := Decide(h, ticket, desired, claim);
    forall i | 0 <= i < |k| && k[i].Granted?
      ensures i + 1 - Failures(k[..i + 1]) <= tail
    {
      DecideFailures(h, ticket, desired, claim, t, i + 1);
      if ticket <= i < ticket + desired {
        assert i < ticket + claim;
        PrefixFailures(h, ticket, i + 1);
      } else {
        assert h[i] == k[i];
      }
    }
  }

  /** Another consumer's assertion does not notice the decision. */
  lemma DecideOther(h: seq<Outcome>, ticket: nat, desired: nat, claim: nat, t: Thread, u: Thread, first: nat, count: nat)
    requires ticket + desired <= |h| && claim <= desired && first + count <= |h| && u != t
    requires h[ticket..ticket + desired] == Copies(desired, Undecided(t))
    requires h[first..first + count] == Copies(count, Undecided(u))
    ensures Decide(h, ticket, desired, claim)[first..first + count] == Copies(count, Undecided(u))
  {
    var k := Decide(h, ticket, desired, claim);
    TakenBy(h, ticket, desired, t);
    TakenBy(h, first, count, u);
    forall i | first <= i < first + count
      ensures k[i] == Undecided(u)
    {
      assert h[i] == Undecided(u);
    }
  }

  lemma TakeStep(s: State, h: seq<Outcome>, t: Thread)
    requires Inv(s, h) && Enabled(s, Run(t)) && s.pc[t].Take?
    ensures Inv(Do(s, Run(t)), Follow(s, h, Run(t)))
  {
    hide Failures, Grants;
    var s', h' := Do(s, Run(t)), Follow(s, h, Run(t));
    var desired := s.pc[t].desired;
    assert PcOk(s, h, t, s.pc[t]);
    assert Booked(s', h') by {
      SumUpdate(s.pc, Excess(), t, s'.pc[t]);
      SumUpdate(s.pc, Claims(), t, s'.pc[t]);
      CountsAppend(h, Copies(desired, Undecided(t)));
      CountsCopies(desired, Undecided(t));
    }
    assert Covered(h', s'.tail) by {
      forall i | 0 <= i < |h'| && h'[i].Granted?
        ensures i + 1 - Failures(h'[..i + 1]) <= s.tail
      {
        assert h'[..i + 1] == h[..i + 1];
      }
    }
    TakeThreads(s, h, t);
  }

  lemma TakeThreads(s: State, h: seq<Outcome>, t: Thread)
    requires |h| == s.opt && ThreadsOk(s, h) && Enabled(s, Run(t)) && s.pc[t].Take?
    requires s.over <= Failures(h)
    ensures |Follow(s, h, Run(t))| == Do(s, Run(t)).opt && ThreadsOk(Do(s, Run(t)), Follow(s, h, Run(t)))
  {
    var s', h' := Do(s, Run(t)), Follow(s, h, Run(t));
    forall u | u in s'.pc
      ensures PcOk(s', h', u, s'.pc[u])
    {
      var l := s.pc[u];
      assert PcOk(s, h, u, l);
      if u == t {
        assert h'[..s.opt] == h && h'[s.opt..s.opt + l.desired] == Copies(l.desired, Undecided(t));
      } else if l.Recheck? {
        assert h'[..l.ticket] == h[..l.ticket];
        assert h'[l.ticket..l.ticket + l.desired] == h[l.ticket..l.ticket + l.desired];
      }
    }
  }

  lemma RecheckStep(s: State, h: seq<Outcome>, t: Thread)
    requires Inv(s, h) && Enabled(s, Run(t)) && s.pc[t].Recheck?
    ensures Inv(Do(s, Run(t)), Follow(s, h, Run(t)))
  {
    hide Held, Covered, Failures, Grants;
    var s', h' := Do(s, Run(t)), Follow(s, h, Run(t));
    var l := s.pc[t];
    assert PcOk(s, h, t, l);
    var claim := ClaimOf(s, l);
    assert Booked(s', h') by {
      SumUpdate(s.pc, Excess(), t, s'.pc[t]);
      SumUpdate(s.pc, Claims(), t, s'.pc[t]);
      DecideCounts(h, l.ticket, l.desired, claim, t);
    }
    DecideCovered(h, l.ticket, l.desired, claim, t, s.tail, l.over);
    RecheckThreads(s, h, t);
    RecheckHeld(s, h, t);
  }

  lemma RecheckHeld(s: State, h: seq<Outcome>, t: Thread)
    requires |h| == s.opt && Held(s, h) && Enabled(s, Run(t)) && s.pc[t].Recheck?
    requires s.pc[t].ticket + s.pc[t].desired <= |h|
    ensures Held(Do(s, Run(t)), Follow(s, h, Run(t)))
  {
    var l, h' := s.pc[t], Follow(s, h, Run(t));
    assert forall i :: 0 <= i < |h| && h[i].Undecided? && h[i].t == t ==> l.ticket <= i < l.ticket + l.desired;
    assert forall i :: 0 <= i < |h'| && h'[i].Undecided? ==> h'[i] == h[i] && h[i].t != t;
  }

  lemma RecheckThreads(s: State, h: seq<Outcome>, t: Thread)
    requires |h| == s.opt && ThreadsOk(s, h) && Enabled(s, Run(t)) && s.pc[t].Recheck?
    ensures |Follow(s, h, Run(t))| == Do(s, Run(t)).opt && ThreadsOk(Do(s, Run(t)), Follow(s, h, Run(t)))
  {
    var s', h' := Do(s, Run(t)), Follow(s, h, Run(t));
    var l := s.pc[t];
    assert PcOk(s, h, t, l);
    forall u | u in s'.pc
      ensures PcOk(s', h', u, s'.pc[u])
    {
      var m := s.pc[u];
      assert PcOk(s, h, u, m);
      if u != t && m.Recheck? {
        DecideOther(h, l.ticket, l.desired, ClaimOf(s, l), t, u, m.ticket, m.desired);
        DecideFailures(h, l.ticket, l.desired, ClaimOf(s, l), t, m.ticket);
      }
    }
  }

  lemma OtherStep(s: State, h: seq<Outcome>, a: Action)
    requires Inv(s, h) && Enabled(s, a) && !a.Enqueue?
    requires a.Run? ==> !s.pc[a.t].Take? && !s.pc[a.t].Recheck?
    ensures Inv(Do(s, a), h)
  {
    var s' := Do(s, a);
    assert PcOk(s, h, a.t, s.pc[a.t]);
    assert Booked(s', h) by {
      SumUpdate(s.pc, Excess(), a.t, s'.pc[a.t]);
      SumUpdate(s.pc, Claims(), a.t, s'.pc[a.t]);
    }
    OtherThreads(s, h, a);
  }

  lemma OtherThreads(s: State, h: seq<Outcome>, a: Action)
    requires |h| == s.opt && ThreadsOk(s, h) && Enabled(s, a) && !a.Enqueue?
    requires a.Run? ==> !s.pc[a.t].Take? && !s.pc[a.t].Recheck?
    ensures |h| == Do(s, a).opt && ThreadsOk(Do(s, a), h)
  {
    var s' := Do(s, a);
    forall u | u in s'.pc
      ensures PcOk(s', h, u, s'.pc[u])
    {
      assert PcOk(s, h, u, s.pc[u]);
      assert PcOk(s, h, a.t, s.pc[a.t]);
    }
  }

  lemma InvStep(s: State, h: seq<Outcome>, a: Action)
    requires Inv(s, h) && Enabled(s, a)
    ensures Inv(Do(s, a), Follow(s, h, a))
  {
    if a.Run? && s.pc[a.t].Take? {
      TakeStep(s, h, a.t);
    } else if a.Run? && s.pc[a.t].Recheck? {
      RecheckStep(s, h, a.t);
    } else if !a.Enqueue? {
      OtherStep(s, h, a);
    } else {
      forall u | u in s.pc
        ensures PcOk(Do(s, a), h, u, s.pc[u])
      {
        assert PcOk(s, h, u, s.pc[u]);
      }
    }
  }

  // ---------------------------------------------------------------- the theorems

  lemma {:induction false} RunInv(run: seq<State>, actions: seq<Action>) returns (h: seq<Outcome>)
    requires IsRun(run, actions)
    ensures Inv(run[|actions|], h)
  {
    var n := |actions|;
    if n == 0 {
      h := [];
      SumZero(run[0].pc, Excess());
      SumZero(run[0].pc, Claims());
    } else {
      var k := RunInv(run[..n], actions[..n - 1]);
      assert run[..n][n - 1] == run[n - 1];
      InvStep(run[n - 1], k, actions[n - 1]);
      h := Follow(run[n - 1], k, actions[n - 1]);
    }
  }

  /** In every run the claims granted so far, executed or still to come, fit below the tail: the
      head never passes the tail, and a consumer about to claim `n` indices finds them all enqueued. */
  lemma HeadNeverPassesTail(run: seq<State>, actions: seq<Action>, t: Thread)
    requires IsRun(run, actions)
    ensures var s := run[|actions|];
            && |s.claimed| == s.head
            && s.head + Sum(s.pc, Claims()) <= s.tail
            && (t in s.pc && s.pc[t].Claim? ==> s.head + s.pc[t].claim <= s.tail)
  {
    var h := RunInv(run, actions);
    var s := run[|actions|];
    CoveredBound(h, s.tail);
    if t in s.pc && s.pc[t].Claim? {
      SumUpdate(s.pc, Claims(), t, s.pc[t]);
    }
  }

  /** Element indices are claimed in order and for good: what is claimed at one time is a prefix of
      what is claimed later, so no index changes hands or is claimed twice. */
  lemma {:induction false} ClaimsAreFinal(run: seq<State>, actions: seq<Action>, i: nat, j: nat)
    requires IsRun(run, actions) && i <= j < |run|
    ensures run[i].claimed <= run[j].claimed && run[i].tail <= run[j].tail
    decreases j - i
  {
    if i < j {
      assert run[i + 1] == Do(run[i], actions[i]);
      ClaimsAreFinal(run, actions, i + 1, j);
    }
  }

  /** Whenever no dequeue is in flight, failed attempts have left no drift. */
  lemma QuiescentCounters(run: seq<State>, actions: seq<Action>)
    requires IsRun(run, actions)
    requires forall t :: t in run[|actions|].pc ==> run[|actions|].pc[t].Idle?
    ensures var s := run[|actions|]; s.opt - s.over == s.head <= s.tail
  {
    var h := RunInv(run, actions);
    var s := run[|actions|];
    SumZero(s.pc, Excess());
    SumZero(s.pc, Claims());
    CountsTotal(h);
    CoveredBound(h, s.tail);
    NothingOpen(h);
  }

  lemma {:induction false} NothingOpen(h: seq<Outcome>)
    requires forall i :: 0 <= i < |h| ==> !h[i].Undecided?
    ensures Open(h) == 0
  {
    if h != [] {
      NothingOpen(h[..|h| - 1]);
    }
  }

  /** A dequeue by `t` with nothing interleaved. */
  ghost function Finish(s: State, t: Thread, steps: nat): (e: State)
    ensures e.pc.Keys >= s.pc.Keys
    decreases steps
  {
    if steps > 0 && Enabled(s, Run(t)) then Finish(Do(s, Run(t)), t, steps - 1) else s
  }

  /** One step to `s'`, with `steps` more to come. */
  lemma Next(s: State, t: Thread, s': State, steps: nat) returns (r: State)
    requires Enabled(s, Run(t)) && s' == Do(s, Run(t))
    ensures r == s' && Finish(s, t, steps + 1) == Finish(s', t, steps)
  {
    r := s';
  }

  /** Up to the ticket. */
  lemma LoneTicket(s: State, t: Thread, max: nat)
    requires t in s.pc && s.pc[t].Idle? && s.opt - s.over == s.head < s.tail
    ensures var e := Do(s, Call(t, max));
            Finish(e, t, 6) == Finish(s.(opt := s.opt + Min(max, s.tail - s.head), pc := s.pc[t := Recheck(s.over, Min(max, s.tail - s.head), s.opt)]), t, 2)
  {
    hide Finish;
    var n: nat := Min(max, s.tail - s.head);
    var s1 := Do(s, Call(t, max));
    var s2 := Next(s1, t, s.(pc := s.pc[t := LoadOver(max, s.tail)]), 5);
    var s3 := Next(s2, t, s.(pc := s.pc[t := LoadOpt(max, s.tail, s.over)]), 4);
    var s4 := Next(s3, t, s.(pc := s.pc[t := Take(s.over, n)]), 3);
    var s5 := Next(s4, t, s.(opt := s.opt + n, pc := s.pc[t := Recheck(s.over, n, s.opt)]), 2);
  }

  /** From the ticket on. */
  lemma LoneClaim(s: State, t: Thread, n: nat, ticket: nat)
    requires t in s.pc && s.pc[t] == Recheck(s.over, n, ticket) && ticket - s.over + n <= s.tail && ticket - s.over < s.tail
    ensures Finish(s, t, 2) == s.(head := s.head + n, claimed := s.claimed + Copies(n, t), pc := s.pc[t := Idle])
  {
    var s1 := Do(s, Run(t));
    assert s1.pc == s.pc[t := Claim(n)];
    var s2 := Do(s1, Run(t));
    assert s2.pc == s.pc[t := Idle];
    assert Finish(s, t, 2) == Finish(s1, t, 1) == Finish(s2, t, 0);
  }

  /** With nothing there. */
  lemma LoneFailure(s: State, t: Thread, max: nat)
    requires t in s.pc && s.pc[t].Idle? && s.opt - s.over == s.head == s.tail
    ensures Finish(Do(s, Call(t, max)), t, 6) == s
  {
    var s1 := Do(s, Call(t, max));
    var s2 := Do(s1, Run(t));
    var s3 := Do(s2, Run(t));
    var s4 := if s3.pc[t].Idle? then s3 else Do(s3, Run(t));
    assert Finish(s1, t, 6) == Finish(s2, t, 5) == Finish(s3, t, 4) == s4;
    assert s4.pc == s.pc[t := Idle] == s.pc;
  }

  /** A dequeue that meets no other dequeue takes exactly what there is, up to its maximum: it
      fails only if the producer's queue is empty. */
  lemma LoneDequeue(run: seq<State>, actions: seq<Action>, t: Thread, max: nat)
    requires IsRun(run, actions)
    requires forall u :: u in run[|actions|].pc ==> run[|actions|].pc[u].Idle?
    requires t in run[|actions|].pc
    ensures var s := run[|actions|];
            var e := Finish(Do(s, Call(t, max)), t, 6);
            var n := Min(max, s.tail - s.head);
            && e.pc[t].Idle?
            && n >= 0 && e.head == s.head + n && e.claimed == s.claimed + Copies(n, t)
            && e.tail == s.tail && e.over == s.over
  {
    hide Finish;
    QuiescentCounters(run, actions);
    var s := run[|actions|];
    if s.tail > s.head {
      var n: nat := Min(max, s.tail - s.head);
      LoneTicket(s, t, max);
      LoneClaim(s.(opt := s.opt + n, pc := s.pc[t := Recheck(s.over, n, s.opt)]), t, n, s.opt);
    } else {
      LoneFailure(s, t, max);
    }
  }

  // ---------------------------------------------------------------- what a consumer gets

  /** The smaller of its tickets and what is left, and the other tickets given back. */
  function Getting(desired: nat, left: nat): Pc {
    if 0 < left && desired <= left then Claim(desired) else GiveBack(desired - Min(desired, left), Min(desired, left), 0 < left)
  }

  /** A consumer about to re-check gets, when all earlier tickets are decided and the overcommit it works with
      counts exactly those of them that failed, the smaller of its tickets and what the earlier ones leave
      below the tail. The others of its tickets it gives back. */
  lemma RecheckGets(s: State, h: seq<Outcome>, t: Thread)
    requires Inv(s, h) && t in s.pc && s.pc[t].Recheck?
    requires var l := s.pc[t]; l.ticket <= |h| && Open(h[..l.ticket]) == 0 && l.over == Failures(h[..l.ticket])
    ensures var l := s.pc[t];
            var left := s.tail - Grants(h[..l.ticket]);
            left >= 0 && Do(s, Run(t)).pc[t] == Getting(l.desired, left)
  {
    var l := s.pc[t];
    assert PcOk(s, h, t, l);
    var g := h[..l.ticket];
    CountsTotal(g);
    assert Covered(g, s.tail) by {
      forall i | 0 <= i < |g| && g[i].Granted?
        ensures i + 1 - Failures(g[..i + 1]) <= s.tail
      {
        assert g[..i + 1] == h[..i + 1] && h[i].Granted?;
      }
    }
    CoveredBound(g, s.tail);
  }

  /** In every run: with all others idle, a consumer that drew the last tickets with the overcommit as it still
      is gets the smaller of its tickets and what is left below the tail, which others may have taken since
      it looked. */
  lemma LastTicketGets(run: seq<State>, actions: seq<Action>, t: Thread)
    requires IsRun(run, actions)
    requires var s := run[|actions|];
      && t in s.pc && s.pc[t].Recheck? && (forall u :: u in s.pc && u != t ==> s.pc[u].Idle?)
      && s.pc[t].over == s.over && s.pc[t].ticket + s.pc[t].desired == s.opt
    ensures var s, l := run[|actions|], run[|actions|].pc[t];
            s.head <= s.tail && Do(s, Run(t)).pc[t] == Getting(l.desired, s.tail - s.head)
  {
    var h := RunInv(run, actions);
    var s := run[|actions|];
    LastTicketAlone(s, h, t);
    RecheckGets(s, h, t);
  }

  lemma LastTicketAlone(s: State, h: seq<Outcome>, t: Thread)
    requires Inv(s, h) && t in s.pc && s.pc[t].Recheck? && forall u :: u in s.pc && u != t ==> s.pc[u].Idle?
    requires s.pc[t].over == s.over && s.pc[t].ticket + s.pc[t].desired == s.opt
    ensures var l := s.pc[t]; l.ticket <= |h| && Open(h[..l.ticket]) == 0
    ensures var l := s.pc[t]; l.over == Failures(h[..l.ticket]) && s.head == Grants(h[..l.ticket])
  {
    hide Covered, Do;
    var l := s.pc[t];
    assert PcOk(s, h, t, l);
    var g, own := h[..l.ticket], h[l.ticket..];
    assert h == g + own && own == h[l.ticket..l.ticket + l.desired];
    EarlierDecided(s, h, t);
    hide Held, ThreadsOk, PcOk;
    CountsAppend(g, own);
    CountsCopies(l.desired, Undecided(t));
    SumZero(s.pc, Excess());
    SumZero(s.pc, Claims());
  }

  lemma EarlierDecided(s: State, h: seq<Outcome>, t: Thread)
    requires Held(s, h) && t in s.pc && s.pc[t].Recheck? && s.pc[t].ticket <= |h| && forall u :: u in s.pc && u != t ==> s.pc[u].Idle?
    ensures Open(h[..s.pc[t].ticket]) == 0
  {
    var g := h[..s.pc[t].ticket];
    forall i | 0 <= i < |g|
      ensures !g[i].Undecided?
    {
      assert g[i] == h[i];
    }
    NothingOpen(g);
  }

  // ---------------------------------------------------------------- when a consumer does not try

  /** From step `i` up to state `j` thread `t` is in the dequeue it starts at `i`, and has drawn no ticket. */
  ghost predicate Drawless(run: seq<State>, actions: seq<Action>, t: Thread, i: nat, j: nat) {
    && i < j <= |actions| < |run| && actions[i].Call? && actions[i].t == t
    && forall m :: i < m < j && actions[m] == Run(t) ==> t in run[m].pc && !run[m].pc[t].Take?
  }

  /** What it has loaded so far is what there was at these times. */
  predicate Looked(run: seq<State>, j: nat, l: Pc, x: nat, y: nat)
    requires x <= y <= j < |run|
  {
    match l
    case LoadTail(_) => true
    case LoadOver(_, tail) => x < j && tail == run[x].tail
    case LoadOpt(_, tail, over) => x < y < j && tail == run[x].tail && over == run[y].over
    case Take(_, _) => true
    case _ => false
  }

  /** A dequeue comes back without having drawn a ticket only if the tickets drawn until then, less the overcommit
      that it saw, were as many as the elements that it saw before. */
  lemma {:induction false} GivesUpOnlyIfTaken(run: seq<State>, actions: seq<Action>, t: Thread, i: nat, j: nat) returns (x: nat, y: nat, z: nat)
    requires IsRun(run, actions) && Drawless(run, actions, t, i, j)
    requires forall m :: i < m < j && !actions[m].Enqueue? && actions[m].t == t ==> actions[m].Run?
    ensures t in run[j].pc && i <= x <= y <= z <= j
    ensures Looked(run, j, run[j].pc[t], x, y) || (x < y < z < j && run[z].opt - run[y].over >= run[x].tail)
    decreases j
  {
    assert run[j] == Do(run[j - 1], actions[j - 1]);
    if j == i + 1 {
      x, y, z := i, i, i;
    } else {
      x, y, z := GivesUpOnlyIfTaken(run, actions, t, i, j - 1);
      var l := run[j - 1].pc[t];
      if actions[j - 1] == Run(t) && Looked(run, j - 1, l, x, y) {
        if l.LoadTail? {
          x, y, z := j - 1, j - 1, j - 1;
        } else if l.LoadOver? {
          y, z := j - 1, j - 1;
        } else {
          z := j - 1;
        }
      }
    }
  }
}
