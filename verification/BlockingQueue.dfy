/**
 `BlockingConcurrentQueue`: an inner queue whose elements are announced through a
 `LightweightSemaphore`. The semaphore here is the whole transition system of module Semaphore,
 so every interleaving inside its calls is covered.

 The inner queue is its number of elements. `try_dequeue` and `try_dequeue_bulk` on it may come
 back with fewer elements than asked for, even none, although elements are there.
 */
module BlockingQueue {
  import opened Counting
  import Sem = Semaphore

  type Thread = Sem.Thread

  datatype Phase =
    | Free
    | Enqueued(count: nat)   // the elements are in the inner queue, the signal is still to come
    | Signalling
    | Waiting
    | Draining(left: nat)    // permits in hand, not yet turned into elements

  datatype State = State(
    stored: nat,
    sema: Sem.State,
    phase: map<Thread, Phase>,
    enqueued: nat,
    dequeued: nat)

  datatype Action =
    | Enqueue(t: Thread, count: nat)
    | Signal(t: Thread)
    | TryDequeue(t: Thread, max: nat)
    | WaitDequeue(t: Thread, max: nat, timeout: int, spins: nat)
    | SemaStep(t: Thread, ok: bool)
    | Drain(t: Thread, count: nat)
    | Leave(t: Thread)

  predicate Enabled(s: State, a: Action) {
    && a.t in s.phase && a.t in s.sema.pc
    && match a
       case Enqueue(t, _) => s.phase[t].Free?
       case Signal(t) => s.phase[t].Enqueued? && s.sema.pc[t].Idle?
       case TryDequeue(t, _) => s.phase[t].Free? && s.sema.pc[t].Idle?
       case WaitDequeue(t, _, _, _) => s.phase[t].Free? && s.sema.pc[t].Idle?
       case SemaStep(t, ok) => (s.phase[t].Signalling? || s.phase[t].Waiting?) && Sem.Enabled(s.sema, Sem.Run(t, ok))
       case Drain(t, count) => s.phase[t].Draining? && count <= s.phase[t].left && count <= s.stored
       case Leave(t) => s.phase[t] == Draining(0)
  }

  /** After an operation on the semaphore: a finished call hands its result to the caller. */
  function Settle(s: State, t: Thread, sema: Sem.State, during: Phase): State
    requires t in s.phase && t in sema.pc
  {
    var phase := if !sema.pc[t].Idle? then during else if during.Waiting? then Draining(sema.pc[t].result) else Free;
    s.(sema := sema, phase := s.phase[t := phase])
  }

  /** Lines refer to shared/queue_internal/blockingconcurrentqueue.h. */
  function Do(s: State, a: Action): State
    requires Enabled(s, a)
  {
    match a
    case Enqueue(t, count) =>  // 125, 181
      s.(stored := s.stored + count, enqueued := s.enqueued + count, phase := s.phase[t := Enqueued(count)])
    case Signal(t) =>  // 126, 182
      Settle(s, t, Sem.Do(s.sema, Sem.CallSignal(t, s.phase[t].count)), Signalling)
    case TryDequeue(t, max) =>  // 296, 330
      Settle(s, t, Sem.Do(s.sema, Sem.CallTry(t, max)), Waiting)
    case WaitDequeue(t, max, timeout, spins) =>  // 361, 450, 468
      Settle(s, t, Sem.Do(s.sema, Sem.CallWait(t, max, timeout, spins)), Waiting)
    case SemaStep(t, ok) => Settle(s, t, Sem.Do(s.sema, Sem.Run(t, ok)), s.phase[t])
    case Drain(t, count) =>  // 297, 332, 470, 515
      s.(stored := s.stored - count, dequeued := s.dequeued + count,
         phase := s.phase[t := Draining(s.phase[t].left - count)])
    case Leave(t) => s.(phase := s.phase[t := Free])
  }

  ghost predicate Init(s: State) {
    && s.stored == s.enqueued == s.dequeued == 0
    && Sem.Init(s.sema) && s.sema.initial == 0
    && s.phase.Keys == s.sema.pc.Keys
    && forall t :: t in s.phase ==> s.phase[t].Free?
  }

  ghost predicate IsRun(run: seq<State>, actions: seq<Action>) {
    && |run| == |actions| + 1
    && Init(run[0])
    && forall i :: 0 <= i < |actions| ==> Enabled(run[i], actions[i]) && run[i + 1] == Do(run[i], actions[i])
  }

  ghost function Unsignalled(): Phase -> nat { (p: Phase) => if p.Enqueued? then p.count else 0 }

  ghost function Reserved(): Phase -> nat { (p: Phase) => if p.Draining? then p.left else 0 }

  ghost predicate Inv(s: State) {
    && Sem.Inv(s.sema) && s.sema.initial == 0
    && s.phase.Keys == s.sema.pc.Keys
    && s.stored + s.dequeued == s.enqueued
    && s.enqueued == Sum(s.phase, Unsignalled()) + s.sema.signalled
    && s.dequeued + Sum(s.phase, Reserved()) == s.sema.returned
    && forall t :: t in s.phase ==> InStep(s.phase[t], s.sema.pc[t])
  }

  /** A thread signalling never collects permits, and one outside a call has none in flight. */
  predicate InStep(p: Phase, l: Sem.Pc) {
    && (p.Signalling? ==> l.Post?)
    && (p.Waiting? ==> !l.Post? && !l.Idle?)
    && (!p.Signalling? && !p.Waiting? ==> l.Idle?)
  }

  /** What one operation on the semaphore adds to its ledgers. */
  lemma SemaLedger(sema: Sem.State, a: Sem.Action)
    requires Sem.Enabled(sema, a)
    ensures var e := Sem.Do(sema, a);
            && a.t in e.pc && e.pc == sema.pc[a.t := e.pc[a.t]] && e.initial == sema.initial
            && e.signalled == sema.signalled + (if a.CallSignal? then a.count else 0)
            && e.returned == sema.returned + (if e.pc[a.t].Idle? then e.pc[a.t].result else 0)
            && (a.CallSignal? || (a.Run? && sema.pc[a.t].Post?) ==>
                  e.pc[a.t] == Sem.Idle(0) || (a.CallSignal? && e.pc[a.t].Post?))
            && (!a.CallSignal? ==> !e.pc[a.t].Post?)
            && (a.CallTry? || a.CallWait? ==> !e.pc[a.t].Idle?)
  {
  }

  lemma SettleStep(s: State, a: Sem.Action, during: Phase)
    requires Inv(s) && Sem.Enabled(s.sema, a) && a.t in s.phase
    requires a.CallSignal? ==> s.phase[a.t] == Enqueued(a.count) && during == Signalling
    requires a.CallTry? || a.CallWait? ==> s.phase[a.t].Free? && during == Waiting
    requires a.Run? ==> during == s.phase[a.t] && (during.Signalling? || during.Waiting?)
    ensures a.t in Sem.Do(s.sema, a).pc
    ensures Inv(Settle(s, a.t, Sem.Do(s.sema, a), during))
  {
    hide Sem.Do, Sem.Inv, Sem.Enabled;
    Sem.InvStep(s.sema, a);
    SemaLedger(s.sema, a);
    assert InStep(s.phase[a.t], s.sema.pc[a.t]);
    var s' := Settle(s, a.t, Sem.Do(s.sema, a), during);
    SumUpdate(s.phase, Unsignalled(), a.t, s'.phase[a.t]);
    SumUpdate(s.phase, Reserved(), a.t, s'.phase[a.t]);
  }

  /** Steps that do not touch the semaphore. */
  lemma PlainStep(s: State, a: Action)
    requires Inv(s) && Enabled(s, a) && (a.Enqueue? || a.Drain? || a.Leave?)
    ensures Inv(Do(s, a))
  {
    hide Sem.Inv;
    SumUpdate(s.phase, Unsignalled(), a.t, Do(s, a).phase[a.t]);
    SumUpdate(s.phase, Reserved(), a.t, Do(s, a).phase[a.t]);
  }

  lemma InvStep(s: State, a: Action)
    requires Inv(s) && Enabled(s, a)
    ensures Inv(Do(s, a))
  {
    hide Settle, Inv, Sem.Do;
    match a
    case Signal(t) => SettleStep(s, Sem.CallSignal(t, s.phase[t].count), Signalling);
    case TryDequeue(t, max) => SettleStep(s, Sem.CallTry(t, max), Waiting);
    case WaitDequeue(t, max, timeout, spins) => SettleStep(s, Sem.CallWait(t, max, timeout, spins), Waiting);
    case SemaStep(t, ok) => SettleStep(s, Sem.Run(t, ok), s.phase[t]);
    case _ => PlainStep(s, a);
  }

  lemma {:induction false} RunInv(run: seq<State>, actions: seq<Action>)
    requires IsRun(run, actions)
    ensures forall i :: 0 <= i < |run| ==> Inv(run[i])
  {
    var s := run[0];
    Sem.RunInv([s.sema], []);
    assert Sem.Inv([s.sema][0]);
    SumZero(s.phase, Unsignalled());
    SumZero(s.phase, Reserved());
    var n := 0;
    while n < |actions|
      invariant 0 <= n <= |actions|
      invariant forall i :: 0 <= i <= n ==> Inv(run[i])
    {
      InvStep(run[n], actions[n]);
      n := n + 1;
    }
  }

  /** Every stored element is accounted for: not yet signalled, covered by a free permit or a kernel
      token, or reserved for a consumer that holds its permit. */
  lemma StoredAccounted(run: seq<State>, actions: seq<Action>, i: nat)
    requires IsRun(run, actions) && i < |run|
    ensures var s := run[i];
            s.stored == Sum(s.phase, Unsignalled())
                        + (Sem.Pos(s.sema.count) + s.sema.kernel + Sum(s.sema.pc, Sem.Posting()))
                        + Sum(s.sema.pc, Sem.Got()) + Sum(s.phase, Reserved())
  {
    RunInv(run, actions);
    assert Inv(run[i]);
  }

  /** A consumer in one of the unguarded loops always has its elements in the inner queue, besides
      those of all other consumers: the loop waits for its own elements, never for new ones. */
  lemma ReservedElements(run: seq<State>, actions: seq<Action>, i: nat, t: Thread)
    requires IsRun(run, actions) && i < |run| && t in run[i].phase && run[i].phase[t].Draining?
    ensures var s := run[i];
            && s.phase[t].left <= Sum(s.phase, Reserved()) <= s.stored
            && Enabled(s, Drain(t, s.phase[t].left))
  {
    RunInv(run, actions);
    var s := run[i];
    assert Inv(s);
    SumUpdate(s.phase, Reserved(), t, s.phase[t]);
  }

  /** With no call in flight, `size_approx`, which reads the semaphore's count, is exact. */
  lemma QuiescentSize(run: seq<State>, actions: seq<Action>, i: nat)
    requires IsRun(run, actions) && i < |run|
    requires forall t :: t in run[i].phase ==> run[i].phase[t].Free?
    ensures run[i].sema.count == run[i].stored
  {
    RunInv(run, actions);
    var s := run[i];
    assert Inv(s);
    SumZero(s.phase, Unsignalled());
    SumZero(s.phase, Reserved());
    forall t | t in s.sema.pc
      ensures s.sema.pc[t].Idle?
    {
      assert InStep(s.phase[t], s.sema.pc[t]);
    }
    SumZero(s.sema.pc, Sem.Waiter());
    SumZero(s.sema.pc, Sem.Posting());
    SumZero(s.sema.pc, Sem.Got());
  }

  // ---------------------------------------------------------------- what a dequeue gets

  predicate Dequeues(a: Action) { a.TryDequeue? || a.WaitDequeue? }

  /** From step `i` up to state `j` thread `t` is in the dequeue it starts at `i`, or has left it. */
  ghost predicate OneDequeue(actions: seq<Action>, t: Thread, i: nat, j: nat) {
    && i < j <= |actions| && actions[i].t == t && Dequeues(actions[i])
    && forall m :: i < m < j && actions[m].t == t ==> actions[m].SemaStep? || actions[m].Drain? || actions[m].Leave?
  }

  /** How many elements `t` takes out from step `i` up to state `j`. */
  function Drained(actions: seq<Action>, t: Thread, i: nat, j: nat): nat
    requires i <= j <= |actions|
    decreases j
  {
    if i == j then 0
    else
      var a := actions[j - 1];
      Drained(actions, t, i, j - 1) + if a.Drain? && a.t == t then a.count else 0
  }

  /** The wait on the kernel fails in one of these steps. */
  ghost predicate WaitFailed(run: seq<State>, actions: seq<Action>, t: Thread, i: nat, j: nat)
    requires j <= |actions| < |run|
  {
    exists m :: i < m < j && FailsAt(run[m], actions[m], t)
  }

  predicate FailsAt(s: State, a: Action, t: Thread) {
    a.SemaStep? && a.t == t && Sem.WaitFails(s.sema, Sem.Run(t, a.ok))
  }

  /** A dequeue of at most `max` with `drained` elements so far. */
  predicate Getting(s: State, t: Thread, max: nat, drained: nat)
    requires t in s.phase && t in s.sema.pc
  {
    match s.phase[t]
    case Waiting => drained == 0 && Sem.Within(s.sema.pc[t], max)
    case Draining(left) => drained + left <= max
    case Free => drained <= max
    case _ => false
  }

  /** It is waiting in order, or has permits for one element at least. */
  predicate GettingSome(s: State, t: Thread, drained: nat)
    requires t in s.phase && t in s.sema.pc
  {
    match s.phase[t]
    case Waiting => Sem.Served(s.sema.pc[t])
    case Draining(left) => drained + left >= 1
    case Free => drained >= 1
    case _ => false
  }

  lemma StartsGetting(s: State, a: Action)
    requires Inv(s) && Enabled(s, a) && Dequeues(a)
    ensures a.t in Do(s, a).phase && a.t in Do(s, a).sema.pc && Getting(Do(s, a), a.t, a.max, 0)
    ensures a.WaitDequeue? && a.max > 0 ==> GettingSome(Do(s, a), a.t, 0)
  {
    hide Inv, Sem.Do;
    var c := if a.TryDequeue? then Sem.CallTry(a.t, a.max) else Sem.CallWait(a.t, a.max, a.timeout, a.spins);
    Sem.CallStarts(s.sema, c);
    SemaLedger(s.sema, c);
  }

  /** Another thread's step does not touch the call. */
  lemma OthersGet(s: State, a: Action, t: Thread, max: nat, drained: nat)
    requires Inv(s) && Enabled(s, a) && a.t != t && t in s.phase && t in s.sema.pc
    ensures t in Do(s, a).phase && t in Do(s, a).sema.pc
    ensures Getting(s, t, max, drained) ==> Getting(Do(s, a), t, max, drained)
    ensures GettingSome(s, t, drained) ==> GettingSome(Do(s, a), t, drained)
  {
    hide Inv, Sem.Do, Sem.Within, Sem.Served;
    match a
    case Signal(u) => SemaLedger(s.sema, Sem.CallSignal(u, s.phase[u].count));
    case TryDequeue(u, m) => SemaLedger(s.sema, Sem.CallTry(u, m));
    case WaitDequeue(u, m, timeout, spins) => SemaLedger(s.sema, Sem.CallWait(u, m, timeout, spins));
    case SemaStep(u, ok) => SemaLedger(s.sema, Sem.Run(u, ok));
    case _ =>
  }

  /** A step of the call itself. */
  lemma GetsOn(s: State, a: Action, max: nat, drained: nat)
    requires Inv(s) && Enabled(s, a) && (a.SemaStep? || a.Drain? || a.Leave?)
    requires a.t in s.phase && a.t in s.sema.pc && Getting(s, a.t, max, drained)
    ensures a.t in Do(s, a).phase && a.t in Do(s, a).sema.pc
    ensures Getting(Do(s, a), a.t, max, drained + if a.Drain? then a.count else 0)
    ensures GettingSome(s, a.t, drained) && !FailsAt(s, a, a.t) ==>
      GettingSome(Do(s, a), a.t, drained + if a.Drain? then a.count else 0)
  {
    if a.SemaStep? {
      var c := Sem.Run(a.t, a.ok);
      assert Sem.PcOk(s.sema.pc[a.t]);
      hide Inv, Sem.Do, Sem.Enabled, Sem.Within, Sem.Served;
      SemaLedger(s.sema, c);
      Sem.WithinStep(s.sema, c, a.t, max);
      assert Sem.Do(s.sema, c).pc[a.t].Idle? ==> Sem.Do(s.sema, c).pc[a.t].result <= max by { WithinMeans(Sem.Do(s.sema, c).pc[a.t], max); }
      if Sem.Served(s.sema.pc[a.t]) && !FailsAt(s, a, a.t) {
        Sem.ServedStep(s.sema, c, a.t);
        WithinMeans(Sem.Do(s.sema, c).pc[a.t], max);
      }
    } else {
      hide Inv;
    }
  }

  lemma WithinMeans(l: Sem.Pc, max: nat)
    ensures l.Idle? && Sem.Within(l, max) ==> l.result <= max
    ensures l.Idle? && Sem.Served(l) ==> l.result >= 1
  {
  }

  lemma {:induction false} DequeueGets(run: seq<State>, actions: seq<Action>, t: Thread, i: nat, j: nat)
    requires IsRun(run, actions) && OneDequeue(actions, t, i, j)
    ensures t in run[j].phase && t in run[j].sema.pc && Getting(run[j], t, actions[i].max, Drained(actions, t, i, j))
    ensures actions[i].WaitDequeue? && actions[i].max > 0 && !WaitFailed(run, actions, t, i, j) ==>
      GettingSome(run[j], t, Drained(actions, t, i, j))
    decreases j
  {
    hide Do, Inv, Getting, GettingSome;
    RunInv(run, actions);
    if j == i + 1 {
      StartsGetting(run[i], actions[i]);
      assert Drained(actions, t, i, i) == 0;
    } else {
      DequeueGets(run, actions, t, i, j - 1);
      var s, a := run[j - 1], actions[j - 1];
      if a.t == t {
        GetsOn(s, a, actions[i].max, Drained(actions, t, i, j - 1));
      } else {
        OthersGet(s, a, t, actions[i].max, Drained(actions, t, i, j - 1));
      }
    }
  }

  /** A dequeue never takes more elements than it was asked for. One that waits comes back with an element,
      unless its wait on the kernel failed. */
  lemma DequeuesAtMost(run: seq<State>, actions: seq<Action>, t: Thread, i: nat, j: nat)
    requires IsRun(run, actions) && OneDequeue(actions, t, i, j)
    ensures Drained(actions, t, i, j) <= actions[i].max
    ensures t in run[j].phase && (run[j].phase[t].Free? && actions[i].WaitDequeue? && actions[i].max > 0 ==>
      Drained(actions, t, i, j) >= 1 || WaitFailed(run, actions, t, i, j))
  {
    DequeueGets(run, actions, t, i, j);
  }
}
