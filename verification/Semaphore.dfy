/**
 `LightweightSemaphore`: a user-space count over a kernel semaphore.

 `tryWait` is `tryWaitMany(1)` and `waitWithPartialSpinning` is `waitManyWithPartialSpinning(1)`:
 with a maximum of one the two pairs perform the same operations. The kernel semaphore is a
 number of tokens; a wait on it may fail at any time (timeout or error).
 */
module Semaphore {
  import opened Basics
  import opened Counting

  type Thread = nat

  /** What a caller of `tryWaitMany` does with a result of zero. */
  datatype Then = Return | Block(timeout: int, spins: nat)

  datatype Pc =
    | Idle(result: nat)
    | TryLoad(max: nat, got: nat, k: Then)
    | TryCas(max: nat, got: nat, seen: int, k: Then)
    | SpinLoad(max: nat, timeout: int, spins: nat)
    | SpinCas(max: nat, timeout: int, spins: nat, seen: int)
    | Decrement(max: nat, timeout: int)
    | Sleep(max: nat, timeout: int)
    | Adjust(max: nat)
    | AdjustTake(max: nat)
    | AdjustUndo(max: nat, seen: int)
    | Post(tokens: nat)

  /** `signalled`, `granted` and `returned` are ledgers: permits signalled, permits acquired, and
      the sum of the results of finished calls. */
  datatype State = State(
    count: int,
    kernel: nat,
    pc: map<Thread, Pc>,
    initial: nat,
    signalled: nat,
    granted: nat,
    returned: nat)

  /** In `Run`, `ok` decides what the program leaves open: whether a kernel wait succeeds and
      whether a weak exchange avoids a spurious failure. */
  datatype Action =
    | CallTry(t: Thread, max: nat)
    | CallWait(t: Thread, max: nat, timeout: int, spins: nat)
    | CallSignal(t: Thread, count: nat)
    | Run(t: Thread, ok: bool)

  predicate Enabled(s: State, a: Action) {
    && a.t in s.pc
    && (!a.Run? ==> s.pc[a.t].Idle?)
    && (a.Run? ==> !s.pc[a.t].Idle?)
    && (a.Run? && s.pc[a.t].Sleep? && a.ok ==> s.kernel > 0 && s.pc[a.t].timeout != 0)
  }

  function Pos(x: int): nat { if x > 0 then x else 0 }

  /** What a greedy acquisition of at most `max` leaves of `seen`. */
  function Rest(seen: int, max: nat): int { if seen > max then seen - max else 0 }

  function Set(s: State, t: Thread, l: Pc): State
    requires t in s.pc
  {
    s.(pc := s.pc[t := l])
  }

  /** A call of `t` returns `result`. */
  function Finish(s: State, t: Thread, result: nat): State
    requires t in s.pc
  {
    Set(s, t, Idle(result)).(returned := s.returned + result)
  }

  /** `tryWaitMany` failed to acquire anything beyond `got`. */
  function Failed(s: State, t: Thread, max: nat, got: nat, k: Then): State
    requires t in s.pc
  {
    if k.Block? && max > 0 then Set(s, t, SpinLoad(max, k.timeout, k.spins)) else Finish(s, t, got)
  }

  /** One permit is in hand; a bulk wait then tries for more (345-347). */
  function TakeOne(s: State, t: Thread, max: nat): State
    requires t in s.pc
  {
    var s' := s.(granted := s.granted + 1);
    if max > 1 then Set(s', t, TryLoad(max - 1, 1, Return)) else Finish(s', t, 1)
  }

  /** A successful exchange of `seen` by what an acquisition of at most `max` leaves. */
  function Acquire(s: State, t: Thread, max: nat, got: nat, seen: int): State
    requires t in s.pc && seen > 0
  {
    Finish(s.(count := Rest(seen, max), granted := s.granted + (seen - Rest(seen, max))), t,
           got + (seen - Rest(seen, max)))
  }

  /** One atomic operation. Lines refer to shared/queue_internal/lightweightsemaphore.h. */
  function Do(s: State, a: Action): State
    requires Enabled(s, a)
  {
    var t := a.t;
    match a
    case CallTry(_, max) => Set(s, t, TryLoad(max, 0, Return))
    case CallWait(_, max, timeout, spins) => Set(s, t, TryLoad(max, 0, Block(timeout, spins)))
    case CallSignal(_, n) =>  // 412-417
      var s' := s.(count := s.count + n, signalled := s.signalled + n);
      var toRelease := Min(-s.count, n);
      if toRelease > 0 then Set(s', t, Post(toRelease)) else Finish(s', t, 0)
    case Run(_, ok) =>
      match s.pc[t]
      case Idle(_) => s
      case TryLoad(max, got, k) =>  // 359, 382
        if s.count > 0 then Set(s, t, TryCas(max, got, s.count, k)) else Failed(s, t, max, got, k)
      case TryCas(max, got, seen, k) =>  // 362, 386
        if ok && s.count == seen && seen > 0 then Acquire(s, t, max, got, seen)
        else if s.count > 0 then Set(s, t, TryCas(max, got, s.count, k))
        else Failed(s, t, max, got, k)
      case SpinLoad(max, timeout, spins) =>  // 282-285, 319-322
        if spins == 0 then Set(s, t, Decrement(max, timeout))
        else if s.count > 0 then Set(s, t, SpinCas(max, timeout, spins - 1, s.count))
        else Set(s, t, SpinLoad(max, timeout, spins - 1))
      case SpinCas(max, timeout, spins, seen) =>  // 285, 325
        if s.count == seen && seen > 0 then Acquire(s, t, max, 0, seen)
        else Set(s, t, SpinLoad(max, timeout, spins))
      case Decrement(max, timeout) =>  // 289-291, 330-331
        var s' := s.(count := s.count - 1);
        if s.count > 0 then TakeOne(s', t, max) else Set(s', t, Sleep(max, timeout))
      case Sleep(max, timeout) =>  // 292-298, 333
        if ok && s.kernel > 0 then TakeOne(s.(kernel := s.kernel - 1), t, max) else Set(s, t, Adjust(max))
      case Adjust(max) =>  // 306, 337
        Set(s, t, if s.count >= 0 then AdjustTake(max) else AdjustUndo(max, s.count))
      case AdjustTake(max) =>  // 307, 338
        if s.kernel > 0 then TakeOne(s.(kernel := s.kernel - 1), t, max) else Set(s, t, Adjust(max))
      case AdjustUndo(max, seen) =>  // 309, 340
        if s.count == seen then Finish(s.(count := s.count + 1), t, 0) else Set(s, t, Adjust(max))
      case Post(tokens) => Finish(s.(kernel := s.kernel + tokens), t, 0)  // 416
  }

  ghost predicate Init(s: State) {
    && s.count == s.initial && s.kernel == 0
    && s.signalled == s.granted == s.returned == 0
    && forall t :: t in s.pc ==> s.pc[t] == Idle(0)
  }

  ghost predicate IsRun(run: seq<State>, actions: seq<Action>) {
    && |run| == |actions| + 1
    && Init(run[0])
    && forall i :: 0 <= i < |actions| ==> Enabled(run[i], actions[i]) && run[i + 1] == Do(run[i], actions[i])
  }

  // ---------------------------------------------------------------- the invariant

  /** A waiter has lowered the count below its permits and is neither served nor rolled back. */
  predicate IsWaiter(l: Pc) { l.Sleep? || l.Adjust? || l.AdjustTake? || l.AdjustUndo? }

  function WaiterOf(l: Pc): nat { if IsWaiter(l) then 1 else 0 }
  function PostingOf(l: Pc): nat { if l.Post? then l.tokens else 0 }
  /** Permits acquired by a bulk wait that has not returned yet. */
  function GotOf(l: Pc): nat { if l.TryLoad? || l.TryCas? then l.got else 0 }

  ghost function Waiter(): Pc -> nat { (l: Pc) => WaiterOf(l) }
  ghost function Posting(): Pc -> nat { (l: Pc) => PostingOf(l) }
  ghost function Got(): Pc -> nat { (l: Pc) => GotOf(l) }

  /** The books, given the number of waiters, of tokens being posted and of permits in hand. */
  predicate Balanced(s: State, waiters: nat, posting: nat, got: nat) {
    && waiters == s.kernel + posting + Pos(-s.count)
    && s.initial + s.signalled == s.granted + s.count + waiters
    && s.granted == s.returned + got
  }

  ghost predicate Inv(s: State) {
    && Balanced(s, Sum(s.pc, Waiter()), Sum(s.pc, Posting()), Sum(s.pc, Got()))
    && forall t :: t in s.pc ==> PcOk(s.pc[t])
  }

  predicate PcOk(l: Pc) {
    && (l.AdjustUndo? ==> l.seen < 0)
    && (l.TryCas? ==> l.seen > 0)
    && (l.SpinCas? ==> l.seen > 0)
    && ((l.TryLoad? || l.TryCas?) && l.k.Block? ==> l.got == 0)
  }

  lemma LocalPc(s: State, a: Action)
    requires Enabled(s, a) && PcOk(s.pc[a.t])
    ensures Do(s, a).pc.Keys == s.pc.Keys && Do(s, a).pc == s.pc[a.t := Do(s, a).pc[a.t]]
    ensures PcOk(Do(s, a).pc[a.t])
  {
  }

  /** The count and the kernel change together with the waiters and the tokens being posted. */
  lemma LocalWaiters(s: State, a: Action, waiters: nat, posting: nat)
    requires Enabled(s, a) && PcOk(s.pc[a.t]) && a.t in Do(s, a).pc
    requires var l := s.pc[a.t]; waiters + WaiterOf(l) == s.kernel + posting + PostingOf(l) + Pos(-s.count)
    ensures var s', l := Do(s, a), Do(s, a).pc[a.t];
            waiters + WaiterOf(l) == s'.kernel + posting + PostingOf(l) + Pos(-s'.count)
  {
  }

  lemma LocalPermits(s: State, a: Action, waiters: nat)
    requires Enabled(s, a) && PcOk(s.pc[a.t]) && a.t in Do(s, a).pc
    requires s.initial + s.signalled == s.granted + s.count + waiters + WaiterOf(s.pc[a.t])
    ensures var s' := Do(s, a); s'.initial + s'.signalled == s'.granted + s'.count + waiters + WaiterOf(s'.pc[a.t])
  {
  }

  lemma LocalResults(s: State, a: Action, got: nat)
    requires Enabled(s, a) && PcOk(s.pc[a.t]) && a.t in Do(s, a).pc
    requires s.granted == s.returned + got + GotOf(s.pc[a.t])
    ensures var s' := Do(s, a); s'.granted == s'.returned + got + GotOf(s'.pc[a.t])
  {
  }

  /** An action keeps the books, whatever the other threads contribute to them. */
  lemma LocalStep(s: State, a: Action, waiters: nat, posting: nat, got: nat)
    requires Enabled(s, a) && PcOk(s.pc[a.t])
    requires var l := s.pc[a.t]; Balanced(s, waiters + WaiterOf(l), posting + PostingOf(l), got + GotOf(l))
    ensures Do(s, a).pc.Keys == s.pc.Keys && Do(s, a).pc == s.pc[a.t := Do(s, a).pc[a.t]]
    ensures PcOk(Do(s, a).pc[a.t])
    ensures var l := Do(s, a).pc[a.t];
            Balanced(Do(s, a), waiters + WaiterOf(l), posting + PostingOf(l), got + GotOf(l))
  {
    hide Do, WaiterOf, PostingOf, GotOf, PcOk, Enabled;
    LocalPc(s, a);
    LocalWaiters(s, a, waiters, posting);
    LocalPermits(s, a, waiters);
    LocalResults(s, a, got);
  }

  lemma InvStep(s: State, a: Action)
    requires Inv(s) && Enabled(s, a)
    ensures Inv(Do(s, a))
  {
    hide Do;
    var l, s' := s.pc[a.t], Do(s, a);
    SumUpdate(s.pc, Waiter(), a.t, l);
    SumUpdate(s.pc, Posting(), a.t, l);
    SumUpdate(s.pc, Got(), a.t, l);
    LocalStep(s, a, Sum(s.pc, Waiter()) - WaiterOf(l), Sum(s.pc, Posting()) - PostingOf(l), Sum(s.pc, Got()) - GotOf(l));
    SumUpdate(s.pc, Waiter(), a.t, s'.pc[a.t]);
    SumUpdate(s.pc, Posting(), a.t, s'.pc[a.t]);
    SumUpdate(s.pc, Got(), a.t, s'.pc[a.t]);
  }

  lemma {:induction false} RunInv(run: seq<State>, actions: seq<Action>)
    requires IsRun(run, actions)
    ensures forall i :: 0 <= i < |run| ==> Inv(run[i])
  {
    SumZero(run[0].pc, Waiter());
    SumZero(run[0].pc, Posting());
    SumZero(run[0].pc, Got());
    var n := 0;
    while n < |actions|
      invariant 0 <= n <= |actions|
      invariant forall i :: 0 <= i <= n ==> Inv(run[i])
    {
      InvStep(run[n], actions[n]);
      n := n + 1;
    }
  }

  // ---------------------------------------------------------------- the theorems

  /** Permits are neither made nor lost, whatever times out and rolls back: what was put in is what
      callers hold, plus the free count, plus tokens in the kernel or on their way there. */
  lemma PermitsConserved(run: seq<State>, actions: seq<Action>, i: nat)
    requires IsRun(run, actions) && i < |run|
    ensures var s := run[i];
            && s.initial + s.signalled == s.granted + Pos(s.count) + s.kernel + Sum(s.pc, Posting())
            && s.granted == s.returned + Sum(s.pc, Got())
  {
    RunInv(run, actions);
    assert Inv(run[i]);
  }

  /** Whenever the count is not negative, every waiter in flight has its own token posted or about
      to be posted; so a timed-out waiter that sees such a count while nobody is mid-post succeeds. */
  lemma NeverStranded(run: seq<State>, actions: seq<Action>, i: nat, t: Thread)
    requires IsRun(run, actions) && i < |run| && t in run[i].pc && IsWaiter(run[i].pc[t])
    ensures var s := run[i];
            && (s.count >= 0 ==> 1 <= Sum(s.pc, Waiter()) == s.kernel + Sum(s.pc, Posting()))
            && (s.count >= 0 && (forall u :: u in s.pc ==> !s.pc[u].Post?) && s.pc[t].AdjustTake? ==>
                  Do(s, Run(t, true)).granted == s.granted + 1 && !IsWaiter(Do(s, Run(t, true)).pc[t]))
  {
    RunInv(run, actions);
    var s := run[i];
    assert Inv(s);
    SumUpdate(s.pc, Waiter(), t, s.pc[t]);
    if forall u :: u in s.pc ==> !s.pc[u].Post? {
      SumZero(s.pc, Posting());
    }
  }

  /** A signal never releases more tokens than there are threads waiting, so the narrowing cast of
      line 416 loses nothing while there are fewer than 2^31 threads. */
  lemma PostFits(run: seq<State>, actions: seq<Action>, i: nat, t: Thread)
    requires IsRun(run, actions) && i < |run| && t in run[i].pc && run[i].pc[t].Post?
    ensures run[i].pc[t].tokens <= |run[i].pc|
  {
    RunInv(run, actions);
    var s := run[i];
    assert Inv(s);
    SumUpdate(s.pc, Posting(), t, s.pc[t]);
    SumBound(s.pc, Waiter(), 1);
  }

  /** When no call is in flight, nothing is left in the kernel and the count is what remains. */
  lemma QuiescentCount(run: seq<State>, actions: seq<Action>, i: nat)
    requires IsRun(run, actions) && i < |run|
    requires forall t :: t in run[i].pc ==> run[i].pc[t].Idle?
    ensures var s := run[i];
            s.kernel == 0 && s.count >= 0 && s.count == s.initial + s.signalled - s.returned
  {
    RunInv(run, actions);
    var s := run[i];
    assert Inv(s);
    SumZero(s.pc, Waiter());
    SumZero(s.pc, Posting());
    SumZero(s.pc, Got());
  }

  // ---------------------------------------------------------------- what a call returns

  /** From step `i` up to state `j` thread `t` is in the call it starts at `i`, or has returned from it. */
  ghost predicate OneCall(actions: seq<Action>, t: Thread, i: nat, j: nat) {
    i < j <= |actions| && actions[i].t == t && forall m :: i < m < j && actions[m].t == t ==> actions[m].Run?
  }

  predicate Consumes(a: Action) { a.CallTry? || a.CallWait? }

  /** The kernel wait of a thread fails: an error, or its time is up. */
  predicate WaitFails(s: State, a: Action) { a.Run? && a.t in s.pc && s.pc[a.t].Sleep? && !a.ok }

  /** A call with maximum `max` has acquired so much that the rest of it is what it may still acquire. */
  predicate Within(l: Pc, max: nat) {
    match l
    case Idle(result) => result <= max
    case TryLoad(rest, got, _) => got + rest == max
    case TryCas(rest, got, _, _) => got + rest == max
    case Post(_) => false
    case _ => l.max == max > 0
  }

  lemma WithinStep(s: State, a: Action, t: Thread, max: nat)
    requires Enabled(s, a) && PcOk(s.pc[a.t]) && t in s.pc && (a.t == t ==> a.Run?)
    requires Within(s.pc[t], max)
    ensures t in Do(s, a).pc && Within(Do(s, a).pc[t], max)
  {
  }

  lemma {:induction false} CallWithin(run: seq<State>, actions: seq<Action>, t: Thread, i: nat, j: nat)
    requires IsRun(run, actions) && OneCall(actions, t, i, j) && Consumes(actions[i])
    ensures t in run[j].pc && Within(run[j].pc[t], actions[i].max)
    decreases j
  {
    hide Do, Inv, Within;
    if j == i + 1 {
      CallStarts(run[i], actions[i]);
    } else {
      CallWithin(run, actions, t, i, j - 1);
      InvAt(run, actions, j - 1, actions[j - 1].t);
      WithinStep(run[j - 1], actions[j - 1], t, actions[i].max);
    }
  }

  lemma InvAt(run: seq<State>, actions: seq<Action>, i: nat, t: Thread)
    requires IsRun(run, actions) && i < |run| && t in run[i].pc
    ensures PcOk(run[i].pc[t])
  {
    hide Do, PcOk;
    RunInv(run, actions);
    assert Inv(run[i]);
  }

  lemma CallStarts(s: State, a: Action)
    requires Enabled(s, a) && Consumes(a)
    ensures a.t in Do(s, a).pc && Within(Do(s, a).pc[a.t], a.max) && (a.CallTry? ==> Trying(Do(s, a).pc[a.t], a.max))
    ensures a.CallWait? && a.max > 0 ==> Served(Do(s, a).pc[a.t])
  {
  }

  /** No call acquires more than it was asked to. */
  lemma ReturnsAtMost(run: seq<State>, actions: seq<Action>, t: Thread, i: nat, j: nat)
    requires IsRun(run, actions) && OneCall(actions, t, i, j) && Consumes(actions[i])
    requires t in run[j].pc && run[j].pc[t].Idle?
    ensures run[j].pc[t].result <= actions[i].max
  {
    CallWithin(run, actions, t, i, j);
  }

  /** A call of `tryWaitMany` has found nothing yet, or has acquired something. */
  predicate Trying(l: Pc, max: nat) {
    match l
    case Idle(result) => result >= 1
    case TryLoad(rest, _, k) => rest == max && k.Return?
    case TryCas(rest, _, seen, k) => rest == max && k.Return? && seen > 0
    case _ => false
  }

  lemma TryingStep(s: State, a: Action, t: Thread, max: nat)
    requires Enabled(s, a) && t in s.pc && (a.t == t ==> a.Run?)
    requires max > 0 && Trying(s.pc[t], max) && s.count > 0
    ensures t in Do(s, a).pc && Trying(Do(s, a).pc[t], max)
  {
  }

  /** `tryWaitMany` returns nothing only if it was asked for nothing, or the count was not positive at some
      time during the call. */
  lemma {:induction false} NothingOnlyIfNone(run: seq<State>, actions: seq<Action>, t: Thread, i: nat, j: nat) returns (m: nat)
    requires IsRun(run, actions) && OneCall(actions, t, i, j) && actions[i].CallTry? && actions[i].max > 0
    requires t in run[j].pc && !Trying(run[j].pc[t], actions[i].max)
    ensures i < m < j && run[m].count <= 0
    decreases j
  {
    hide Do, Trying;
    if j == i + 1 {
      CallStarts(run[i], actions[i]);
    } else {
      CallWithin(run, actions, t, i, j - 1);
      if run[j - 1].count <= 0 {
        m := j - 1;
      } else {
        if Trying(run[j - 1].pc[t], actions[i].max) {
          TryingStep(run[j - 1], actions[j - 1], t, actions[i].max);
        }
        m := NothingOnlyIfNone(run, actions, t, i, j - 1);
      }
    }
  }

  /** A waiting call has acquired something, or still waits for it. */
  predicate Served(l: Pc) {
    match l
    case Idle(result) => result >= 1
    case TryLoad(rest, got, k) => rest >= 1 && (got >= 1 || k.Block?)
    case TryCas(rest, got, seen, k) => rest >= 1 && seen > 0 && (got >= 1 || k.Block?)
    case SpinLoad(max, _, _) => max >= 1
    case SpinCas(max, _, _, seen) => max >= 1 && seen > 0
    case Decrement(max, _) => max >= 1
    case Sleep(max, _) => max >= 1
    case _ => false
  }

  lemma ServedStep(s: State, a: Action, t: Thread)
    requires Enabled(s, a) && PcOk(s.pc[a.t]) && t in s.pc && (a.t == t ==> a.Run? && !WaitFails(s, a))
    requires Served(s.pc[t])
    ensures t in Do(s, a).pc && Served(Do(s, a).pc[t])
  {
  }

  lemma {:induction false} CallServed(run: seq<State>, actions: seq<Action>, t: Thread, i: nat, j: nat)
    requires IsRun(run, actions) && OneCall(actions, t, i, j) && actions[i].CallWait? && actions[i].max > 0
    requires forall m :: i < m < j && actions[m].t == t ==> !WaitFails(run[m], actions[m])
    ensures t in run[j].pc && Served(run[j].pc[t])
    decreases j
  {
    hide Do, Inv, Served;
    if j == i + 1 {
      CallStarts(run[i], actions[i]);
    } else {
      CallServed(run, actions, t, i, j - 1);
      InvAt(run, actions, j - 1, actions[j - 1].t);
      ServedStep(run[j - 1], actions[j - 1], t);
    }
  }

  /** A waiting call comes back with something, unless its wait on the kernel failed. */
  lemma WaitReturnsSome(run: seq<State>, actions: seq<Action>, t: Thread, i: nat, j: nat)
    requires IsRun(run, actions) && OneCall(actions, t, i, j) && actions[i].CallWait? && actions[i].max > 0
    requires t in run[j].pc && run[j].pc[t].Idle?
    ensures run[j].pc[t].result >= 1 || exists m :: i < m < j && actions[m].t == t && WaitFails(run[m], actions[m])
  {
    if forall m :: i < m < j && actions[m].t == t ==> !WaitFails(run[m], actions[m]) {
      CallServed(run, actions, t, i, j);
    }
  }

  /** With nothing interleaved and no spurious failures. */
  ghost function Alone(s: State, t: Thread, steps: nat): State
    decreases steps
  {
    if steps > 0 && Enabled(s, Run(t, true)) then Alone(Do(s, Run(t, true)), t, steps - 1) else s
  }

  lemma TakesRest(s: State, t: Thread, rest: nat, got: nat, k: Then)
    requires t in s.pc && s.pc[t] == TryLoad(rest, got, k) && (k.Block? ==> s.count > 0)
    ensures var n := Min(rest, Pos(s.count));
            n >= 0 && Alone(s, t, 2) ==
              s.(count := s.count - n, granted := s.granted + n, returned := s.returned + got + n, pc := s.pc[t := Idle(got + n)])
  {
    var s1 := Do(s, Run(t, true));
    if s.count > 0 {
      var s2 := Do(s1, Run(t, true));
      assert Alone(s, t, 2) == Alone(s1, t, 1) == Alone(s2, t, 0);
      assert s2.pc == s.pc[t := s2.pc[t]];
    } else {
      assert Alone(s, t, 2) == Alone(s1, t, 1) == s1;
    }
  }

  /** Undisturbed, a call takes all it may: the smaller of its maximum and the count. Only a waiting call that
      finds nothing goes on. */
  lemma TakesGreedily(s: State, a: Action)
    requires Enabled(s, a) && Consumes(a)
    requires a.CallWait? ==> s.count > 0
    ensures var n := Min(a.max, Pos(s.count));
            n >= 0 && Alone(Do(s, a), a.t, 2) ==
              s.(count := s.count - n, granted := s.granted + n, returned := s.returned + n, pc := s.pc[a.t := Idle(n)])
  {
    hide Alone;
    var e := Do(s, a);
    TakesRest(e, a.t, a.max, 0, e.pc[a.t].k);
    assert e.pc[a.t := Idle(Min(a.max, Pos(s.count)))] == s.pc[a.t := Idle(Min(a.max, Pos(s.count)))];
  }

  /** A spinning call that finds permits takes all it may, without waiting. */
  lemma SpinTakes(s: State, t: Thread)
    requires t in s.pc && s.pc[t].SpinLoad? && s.pc[t].spins > 0 && s.count > 0
    ensures var n := Min(s.pc[t].max, s.count);
            Alone(s, t, 2) ==
              s.(count := s.count - n, granted := s.granted + n, returned := s.returned + n, pc := s.pc[t := Idle(n)])
  {
    var s1 := Do(s, Run(t, true));
    var s2 := Do(s1, Run(t, true));
    assert Alone(s, t, 2) == Alone(s1, t, 1) == Alone(s2, t, 0);
    assert s2.pc == s.pc[t := s2.pc[t]];
  }

  /** The permit that a waiting call is about to get, and what the count is then. */
  predicate Gets(s: State, l: Pc, count: int) {
    match l
    case Decrement(max, _) => max > 0 && s.count > 0 && count == s.count - 1
    case Sleep(max, timeout) => max > 0 && s.kernel > 0 && timeout != 0 && count == s.count
    case AdjustTake(max) => max > 0 && s.kernel > 0 && count == s.count
    case _ => false
  }

  /** Having got one permit, a bulk wait undisturbed takes all others it may. */
  lemma TakesMore(s: State, t: Thread, count: int)
    requires t in s.pc && Gets(s, s.pc[t], count)
    ensures var more, e := Min(s.pc[t].max - 1, Pos(count)), Alone(s, t, 3);
            && t in e.pc && e.pc[t] == Idle(1 + more) && e.count == count - more && e.granted == s.granted + 1 + more
  {
    var s1 := Do(s, Run(t, true));
    assert Alone(s, t, 3) == Alone(s1, t, 2);
    if s.pc[t].max == 1 {
      assert Alone(s1, t, 2) == s1;
    } else {
      hide Alone;
      TakesRest(s1, t, s.pc[t].max - 1, 1, Return);
    }
  }
}
