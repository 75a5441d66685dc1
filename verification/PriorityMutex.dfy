/**
 `ExclusivePrioritySharedMutex` as a transition system over its atomic fields, its inner mutex and
 its two condition variables. A waiter on a condition variable may wake spuriously.
 */
module PriorityMutex {
  import opened Counting

  type Thread = nat

  datatype Pc =
    | Out
      // lock_shared
    | FastCheck
    | FastAdd
    | SharedLock
    | SharedTestRequests
    | SharedTestExclusive
    | SharedAsleep
    | SharedAdd
    | SharedLeave
    | Reading
      // unlock_shared
    | DropShared
    | DropLock
    | DropNotify
      // lock
    | Request
    | ExclusiveLock
    | ExclusiveTestShared
    | ExclusiveTestExclusive
    | ExclusiveAsleep
    | Unrequest
    | ExclusiveAdd
    | ExclusiveLeave
    | Writing
      // unlock
    | UnlockLock
    | UnlockSub
    | UnlockNotify

  datatype Owner = Nobody | By(t: Thread)

  datatype State = State(
    shared: int,
    requests: int,
    waiting: int,
    exclusive: int,
    mutex: Owner,
    pc: map<Thread, Pc>)

  datatype Action =
    | CallLockShared(t: Thread)
    | CallUnlockShared(t: Thread)
    | CallLock(t: Thread)
    | CallUnlock(t: Thread)
    | Run(t: Thread, pick: Thread)   // `pick` is whom a notify_one wakes
    | Spurious(t: Thread)

  predicate WantsMutex(l: Pc) { l.SharedLock? || l.DropLock? || l.ExclusiveLock? || l.UnlockLock? }

  predicate Notifies(l: Pc) { l.DropNotify? || l.UnlockNotify? }

  /** The condition variable a notification goes to (43-50, 67-74). */
  function Target(s: State): Pc { if s.waiting > 0 then ExclusiveAsleep else SharedAsleep }

  predicate Sleeps(s: State, t: Thread, cv: Pc) { t in s.pc && s.pc[t] == cv }

  ghost predicate Enabled(s: State, a: Action) {
    && a.t in s.pc
    && match a
       case CallLockShared(t) => s.pc[t].Out?
       case CallUnlockShared(t) => s.pc[t].Reading?
       case CallLock(t) => s.pc[t].Out?
       case CallUnlock(t) => s.pc[t].Writing?
       case Spurious(t) => s.pc[t].SharedAsleep? || s.pc[t].ExclusiveAsleep?
       case Run(t, pick) =>
         && !s.pc[t].Out? && !s.pc[t].Reading? && !s.pc[t].Writing?
         && !s.pc[t].SharedAsleep? && !s.pc[t].ExclusiveAsleep?
         && (WantsMutex(s.pc[t]) ==> s.mutex == Nobody)
         && (Notifies(s.pc[t]) && (exists u :: Sleeps(s, u, Target(s))) ==> Sleeps(s, pick, Target(s)))
  }

  /** Where the acting thread goes. Lines refer to shared/ExclusiveSharedMutex.h. */
  function PcOf(s: State, a: Action): Pc
    requires a.t in s.pc
  {
    match a
    case CallLockShared(_) => FastCheck
    case CallUnlockShared(_) => DropShared
    case CallLock(_) => Request
    case CallUnlock(_) => UnlockLock
    case Spurious(t) => if s.pc[t].SharedAsleep? then SharedLock else ExclusiveLock
    case Run(t, _) =>
      match s.pc[t]
      case FastCheck => if s.requests == 0 then FastAdd else SharedLock  // 21
      case FastAdd => if s.shared >= 0 then Reading else SharedLock  // 22
      case SharedLock => SharedTestRequests  // 28
      case SharedTestRequests => if s.requests == 0 then SharedTestExclusive else SharedAsleep  // 29
      case SharedTestExclusive => if s.exclusive == 0 then SharedAdd else SharedAsleep  // 29
      case SharedAdd => SharedLeave  // 30
      case SharedLeave => Reading
      case DropShared => if s.shared == 1 then DropLock else Out  // 36
      case DropLock => DropNotify  // 38
      case DropNotify => Out  // 39-46
      case Request => ExclusiveLock  // 53
      case ExclusiveLock => ExclusiveTestShared  // 55
      case ExclusiveTestShared => if s.shared == 0 then ExclusiveTestExclusive else ExclusiveAsleep  // 56
      case ExclusiveTestExclusive => if s.exclusive == 0 then Unrequest else ExclusiveAsleep  // 56
      case Unrequest => ExclusiveAdd  // 57
      case ExclusiveAdd => ExclusiveLeave  // 58
      case ExclusiveLeave => Writing
      case UnlockLock => UnlockSub  // 63
      case UnlockSub => UnlockNotify  // 64
      case UnlockNotify => Out  // 65-72
      case l => l
  }

  /** What the action adds to the counters. */
  function SharedDelta(l: Pc): int { if l.FastAdd? || l.SharedAdd? then 1 else if l.DropShared? then -1 else 0 }
  function RequestDelta(l: Pc): int { if l.Request? then 1 else if l.Unrequest? then -1 else 0 }
  function ExclusiveDelta(l: Pc): int { if l.ExclusiveAdd? then 1 else if l.UnlockSub? then -1 else 0 }

  /** The thread is between acquiring and releasing the inner mutex. */
  predicate HasMutex(l: Pc) {
    || l.SharedTestRequests? || l.SharedTestExclusive? || l.SharedAdd? || l.SharedLeave?
    || l.DropNotify?
    || l.ExclusiveTestShared? || l.ExclusiveTestExclusive? || l.Unrequest? || l.ExclusiveAdd? || l.ExclusiveLeave?
    || l.UnlockSub? || l.UnlockNotify?
  }

  /** Taking the mutex, and giving it back on leaving or on falling asleep. */
  function MutexOf(s: State, a: Action): Owner
    requires a.t in s.pc
  {
    if !a.Run? then s.mutex
    else if WantsMutex(s.pc[a.t]) then By(a.t)
    else if HasMutex(s.pc[a.t]) && !HasMutex(PcOf(s, a)) then Nobody
    else s.mutex
  }

  /** The acting thread moves, and so does the sleeper it notifies. */
  function PcsOf(s: State, a: Action): map<Thread, Pc>
    requires a.t in s.pc
  {
    var pc := s.pc[a.t := PcOf(s, a)];
    if a.Run? && Notifies(s.pc[a.t]) && Sleeps(s, a.pick, Target(s)) then
      pc[a.pick := if s.waiting > 0 then ExclusiveLock else SharedLock]
    else pc
  }

  function Do(s: State, a: Action): State
    requires a.t in s.pc
  {
    var l := if a.Run? then s.pc[a.t] else Out;
    State(s.shared + SharedDelta(l), s.requests + RequestDelta(l), s.waiting,
          s.exclusive + ExclusiveDelta(l), MutexOf(s, a), PcsOf(s, a))
  }

  ghost predicate Init(s: State) {
    && s.shared == s.requests == s.waiting == s.exclusive == 0
    && s.mutex == Nobody
    && forall t :: t in s.pc ==> s.pc[t].Out?
  }

  ghost predicate IsRun(run: seq<State>, actions: seq<Action>) {
    && |run| == |actions| + 1
    && Init(run[0])
    && forall i :: 0 <= i < |actions| ==> Enabled(run[i], actions[i]) && run[i + 1] == Do(run[i], actions[i])
  }

  // ---------------------------------------------------------------- who is inside

  /** Counted in `sharedCount_`: admitted by `lock_shared` and not yet gone. */
  predicate ReaderIn(l: Pc) { l.SharedLeave? || l.Reading? || l.DropShared? }

  /** Counted in `exclusiveCount_`. */
  predicate Counted(l: Pc) { l.ExclusiveLeave? || l.Writing? || l.UnlockLock? || l.UnlockSub? }

  /** Has passed both tests of `lock` and not yet left `unlock`. */
  predicate WriterIn(l: Pc) { l.Unrequest? || l.ExclusiveAdd? || Counted(l) }

  /** From the moment `lock` has seen no reader. */
  predicate InWindow(l: Pc) { l.ExclusiveTestExclusive? || WriterIn(l) }

  predicate Requesting(l: Pc) {
    l.ExclusiveLock? || l.ExclusiveTestShared? || l.ExclusiveTestExclusive? || l.ExclusiveAsleep? || l.Unrequest?
  }

  function One(b: bool): nat { if b then 1 else 0 }

  ghost function Readers(): Pc -> nat { (l: Pc) => One(ReaderIn(l)) }
  ghost function Writers(): Pc -> nat { (l: Pc) => One(Counted(l)) }
  ghost function Requests(): Pc -> nat { (l: Pc) => One(Requesting(l)) }

  ghost predicate Counters(s: State) {
    && s.shared == Sum(s.pc, Readers())
    && s.requests == Sum(s.pc, Requests())
    && s.exclusive == Sum(s.pc, Writers())
    && s.waiting == 0
  }

  predicate PcOk(s: State, t: Thread, l: Pc) {
    && (HasMutex(l) <==> s.mutex == By(t))
    && (l.Unrequest? || l.ExclusiveAdd? || l.SharedAdd? ==> s.exclusive == 0)
  }

  ghost predicate Inv(s: State) {
    && Counters(s)
    && s.exclusive <= 1
    && forall t :: t in s.pc ==> PcOk(s, t, s.pc[t])
  }

  /** The counters move exactly as the acting thread enters and leaves what they count. */
  lemma LocalCounters(s: State, a: Action)
    requires Enabled(s, a) && s.shared >= 0
    ensures One(ReaderIn(PcOf(s, a))) - One(ReaderIn(s.pc[a.t])) == Do(s, a).shared - s.shared
    ensures One(Requesting(PcOf(s, a))) - One(Requesting(s.pc[a.t])) == Do(s, a).requests - s.requests
    ensures One(Counted(PcOf(s, a))) - One(Counted(s.pc[a.t])) == Do(s, a).exclusive - s.exclusive
  {
  }

  lemma CountersStep(s: State, a: Action)
    requires Counters(s) && Enabled(s, a)
    ensures Counters(Do(s, a))
  {
    LocalCounters(s, a);
    var l := PcOf(s, a);
    var pc := s.pc[a.t := l];
    SumUpdate(s.pc, Readers(), a.t, l);
    SumUpdate(s.pc, Requests(), a.t, l);
    SumUpdate(s.pc, Writers(), a.t, l);
    if a.Run? && Notifies(s.pc[a.t]) && Sleeps(s, a.pick, Target(s)) {
      SumUpdate(pc, Readers(), a.pick, SharedLock);
      SumUpdate(pc, Requests(), a.pick, SharedLock);
      SumUpdate(pc, Writers(), a.pick, SharedLock);
    }
  }

  lemma PcStep(s: State, a: Action, u: Thread)
    requires Enabled(s, a) && s.waiting == 0 && u in s.pc
    requires PcOk(s, u, s.pc[u]) && PcOk(s, a.t, s.pc[a.t])
    ensures u in Do(s, a).pc && PcOk(Do(s, a), u, Do(s, a).pc[u])
  {
  }

  lemma InvStep(s: State, a: Action)
    requires Inv(s) && Enabled(s, a)
    ensures Inv(Do(s, a))
  {
    CountersStep(s, a);
    assert PcOk(s, a.t, s.pc[a.t]);
    forall u | u in Do(s, a).pc
      ensures PcOk(Do(s, a), u, Do(s, a).pc[u])
    {
      assert PcOk(s, u, s.pc[u]);
      PcStep(s, a, u);
    }
  }

  lemma {:induction false} RunInv(run: seq<State>, actions: seq<Action>)
    requires IsRun(run, actions)
    ensures forall i :: 0 <= i < |run| ==> Inv(run[i])
  {
    SumZero(run[0].pc, Readers());
    SumZero(run[0].pc, Requests());
    SumZero(run[0].pc, Writers());
    var n := 0;
    while n < |actions|
      invariant 0 <= n <= |actions|
      invariant forall i :: 0 <= i <= n ==> Inv(run[i])
    {
      InvStep(run[n], actions[n]);
      n := n + 1;
    }
  }

  // ---------------------------------------------------------------- writers exclude each other

  lemma TwoWriters(s: State, t: Thread, u: Thread)
    requires Inv(s) && t in s.pc && u in s.pc && WriterIn(s.pc[t]) && WriterIn(s.pc[u])
    ensures t == u
  {
    assert PcOk(s, t, s.pc[t]) && PcOk(s, u, s.pc[u]);
    SumUpdate(s.pc, Writers(), t, Out);
    SumUpdate(s.pc, Writers(), u, Out);
    if t != u && Counted(s.pc[t]) && Counted(s.pc[u]) {
      SumUpdate(s.pc[t := Out], Writers(), u, Out);
      assert false;
    }
  }

  /** In every run, fast path or not, at most one thread is past the tests of `lock`. */
  lemma OneExclusiveHolder(run: seq<State>, actions: seq<Action>, i: nat, t: Thread, u: Thread)
    requires IsRun(run, actions) && i < |run| && t in run[i].pc && u in run[i].pc
    requires WriterIn(run[i].pc[t]) && WriterIn(run[i].pc[u])
    ensures t == u
  {
    RunInv(run, actions);
    assert Inv(run[i]);
    TwoWriters(run[i], t, u);
  }

  // ---------------------------------------------------------------- readers and writers

  /** No reader is in from the moment a writer has seen none. */
  ghost predicate Exclusion(s: State) {
    forall t, u :: t in s.pc && u in s.pc && InWindow(s.pc[t]) ==> !ReaderIn(s.pc[u])
  }

  ghost predicate WindowOpen(s: State) { exists t :: t in s.pc && InWindow(s.pc[t]) }

  predicate IsFastAdmission(s: State, a: Action) { a.Run? && a.t in s.pc && s.pc[a.t].FastAdd? }

  lemma NoReadersCounted(s: State)
    requires Inv(s) && s.shared == 0
    ensures forall u :: u in s.pc ==> !ReaderIn(s.pc[u])
  {
    SumZero(s.pc, Readers());
    forall u | u in s.pc
      ensures !ReaderIn(s.pc[u])
    {
      assert Readers()(s.pc[u]) == 0;
    }
  }

  /** A reader admitted under the mutex with no writer counted meets no open window. */
  lemma SlowAdmission(s: State, t: Thread, u: Thread)
    requires Inv(s) && t in s.pc && u in s.pc && s.pc[t].SharedAdd?
    ensures !InWindow(s.pc[u])
  {
    assert PcOk(s, t, s.pc[t]) && PcOk(s, u, s.pc[u]);
    if Counted(s.pc[u]) {
      SumUpdate(s.pc, Writers(), u, s.pc[u]);
      assert false;
    }
  }

  /** How a thread comes to be in a window, or in as a reader. */
  lemma EntryStep(s: State, a: Action, u: Thread)
    requires Enabled(s, a) && s.waiting == 0 && u in Do(s, a).pc
    ensures u in s.pc
    ensures InWindow(Do(s, a).pc[u]) ==> InWindow(s.pc[u]) || (u == a.t && a.Run? && s.pc[u].ExclusiveTestShared? && s.shared == 0)
    ensures ReaderIn(Do(s, a).pc[u]) ==>
      ReaderIn(s.pc[u]) || (u == a.t && a.Run? && (s.pc[u].SharedAdd? || (s.pc[u].FastAdd? && s.shared >= 0)))
  {
  }

  /** Any other step keeps them apart. */
  lemma OtherStep(s: State, a: Action, t: Thread, u: Thread)
    requires Inv(s) && Exclusion(s) && Enabled(s, a) && !(IsFastAdmission(s, a) && WindowOpen(s))
    requires t in Do(s, a).pc && u in Do(s, a).pc && InWindow(Do(s, a).pc[t])
    ensures !ReaderIn(Do(s, a).pc[u])
  {
    hide Do, PcOk;
    EntryStep(s, a, t);
    EntryStep(s, a, u);
    if a.Run? && s.pc[a.t].ExclusiveTestShared? && s.shared == 0 {
      NoReadersCounted(s);
    }
    if a.Run? && s.pc[a.t].SharedAdd? {
      SlowAdmission(s, a.t, t);
    }
  }

  /** A fast-path admission is one whatever the writers do. */
  lemma FastAdmission(s: State, a: Action)
    requires Enabled(s, a) && IsFastAdmission(s, a) && s.shared >= 0
    ensures Do(s, a).pc == s.pc[a.t := Reading]
  {
  }

  /** The exact condition: a step keeps readers and writers apart if and only if it is not a
      fast-path admission while a writer's window is open. */
  lemma ExclusionStep(s: State, a: Action)
    requires Inv(s) && Exclusion(s) && Enabled(s, a)
    ensures Exclusion(Do(s, a)) <==> !(IsFastAdmission(s, a) && WindowOpen(s))
  {
    hide Do, PcOk;
    var s' := Do(s, a);
    if IsFastAdmission(s, a) && WindowOpen(s) {
      FastAdmission(s, a);
      var t :| t in s.pc && InWindow(s.pc[t]);
      assert InWindow(s'.pc[t]) && ReaderIn(s'.pc[a.t]);
    } else {
      forall t, u | t in s'.pc && u in s'.pc && InWindow(s'.pc[t])
        ensures !ReaderIn(s'.pc[u])
      {
        OtherStep(s, a, t, u);
      }
    }
  }

  /** Readers and writers never coexist in any run in which no fast-path admission meets an open
      window; in particular in any run whose shared entries all take the slow path. */
  lemma {:induction false} ExclusionHolds(run: seq<State>, actions: seq<Action>, i: nat)
    requires IsRun(run, actions) && i < |run|
    requires forall j :: 0 <= j < |actions| ==> !(IsFastAdmission(run[j], actions[j]) && WindowOpen(run[j]))
    ensures Exclusion(run[i])
  {
    RunInv(run, actions);
    if i > 0 {
      ExclusionHolds(run, actions, i - 1);
      assert Inv(run[i - 1]);
      ExclusionStep(run[i - 1], actions[i - 1]);
    }
  }

  // ---------------------------------------------------------------- waking and entering

  /** One reader asleep before the step, if there is any, is awake after it. */
  ghost predicate WakesReader(s: State, s': State) {
    (exists u :: Sleeps(s, u, SharedAsleep)) ==>
      exists u :: Sleeps(s, u, SharedAsleep) && u in s'.pc && s'.pc[u].SharedLock?
  }

  predicate Releasing(l: Pc) { l.UnlockLock? || l.UnlockSub? || l.UnlockNotify? || l.DropLock? || l.DropNotify? }

  lemma ReleaseStep(s: State, a: Action, t: Thread)
    requires Enabled(s, a) && s.waiting == 0 && t in s.pc && Releasing(s.pc[t])
    ensures t in Do(s, a).pc
    ensures Releasing(Do(s, a).pc[t]) || (a.t == t && a.Run? && WakesReader(s, Do(s, a)))
  {
    if a.t == t && Notifies(s.pc[t]) {
      if u :| Sleeps(s, u, SharedAsleep) {
        assert Sleeps(s, u, Target(s));
        assert Sleeps(s, a.pick, SharedAsleep) && Do(s, a).pc[a.pick].SharedLock?;
      }
    }
  }

  lemma {:induction false} ReleaseWakes(run: seq<State>, actions: seq<Action>, t: Thread, i: nat, j: nat) returns (m: nat)
    requires IsRun(run, actions) && i <= j < |run| && t in run[i].pc && Releasing(run[i].pc[t])
    requires t in run[j].pc && !Releasing(run[j].pc[t])
    ensures i <= m < j && actions[m].t == t && actions[m].Run? && WakesReader(run[m], run[m + 1])
    decreases j - i
  {
    hide Do, WakesReader, Releasing, Enabled, PcOk;
    RunInv(run, actions);
    assert Inv(run[i]) && i < j;
    ReleaseStep(run[i], actions[i], t);
    if Releasing(run[i + 1].pc[t]) {
      m := ReleaseWakes(run, actions, t, i + 1, j);
    } else {
      m := i;
    }
  }

  /** When `unlock` returns it has woken one of the readers that were asleep, if any were; and so has an
      `unlock_shared` that gave back the last shared access. */
  lemma UnlockWakes(run: seq<State>, actions: seq<Action>, t: Thread, i: nat, j: nat) returns (m: nat)
    requires IsRun(run, actions) && i < j < |run| && t in run[j].pc && run[j].pc[t].Out?
    requires actions[i] == CallUnlock(t) || (actions[i].Run? && actions[i].t == t && run[i].pc[t].DropShared? && run[i].shared == 1)
    ensures i < m < j && actions[m].t == t && actions[m].Run? && WakesReader(run[m], run[m + 1])
  {
    assert run[i + 1] == Do(run[i], actions[i]);
    m := ReleaseWakes(run, actions, t, i + 1, j);
  }

  /** With nothing interleaved. */
  ghost function Alone(s: State, t: Thread, steps: nat): State
    decreases steps
  {
    if steps > 0 && Enabled(s, Run(t, t)) then Alone(Do(s, Run(t, t)), t, steps - 1) else s
  }

  /** One step to `s'`, with `steps` more to come. */
  lemma Next(s: State, t: Thread, s': State, steps: nat) returns (r: State)
    requires t in s.pc && Enabled(s, Run(t, t)) && s' == Do(s, Run(t, t))
    ensures r == s' && Alone(s, t, steps + 1) == Alone(s', t, steps)
  {
    r := s';
  }

  lemma Stops(s: State, t: Thread, steps: nat)
    requires t in s.pc && (steps == 0 || !Enabled(s, Run(t, t)))
    ensures Alone(s, t, steps) == s
  {
  }

  lemma ReaderTests(s: State, t: Thread)
    requires t in s.pc && s.pc[t].SharedTestExclusive? && s.mutex == By(t)
    ensures Alone(s, t, 3) ==
      if s.exclusive == 0 then s.(shared := s.shared + 1, mutex := Nobody, pc := s.pc[t := Reading])
      else s.(mutex := Nobody, pc := s.pc[t := SharedAsleep])
  {
    hide Alone;
    if s.exclusive != 0 {
      var e := Next(s, t, s.(mutex := Nobody, pc := s.pc[t := SharedAsleep]), 2);
      Stops(e, t, 2);
    } else {
      var s1 := Next(s, t, s.(pc := s.pc[t := SharedAdd]), 2);
      ReaderAdded(s1, t);
    }
  }

  /** A reader that comes to the inner mutex, newly or woken up, gets in if and only if nobody asks for or has
      exclusive access; otherwise it sleeps and nothing else changes. */
  lemma ReaderAtMutex(s: State, t: Thread)
    requires t in s.pc && s.pc[t].SharedLock? && s.mutex == Nobody
    ensures Alone(s, t, 5) ==
      if s.requests == 0 && s.exclusive == 0 then s.(shared := s.shared + 1, pc := s.pc[t := Reading])
      else s.(pc := s.pc[t := SharedAsleep])
  {
    hide Alone;
    var s1 := Next(s, t, s.(mutex := By(t), pc := s.pc[t := SharedTestRequests]), 4);
    if s.requests != 0 {
      var e := Next(s1, t, s.(pc := s.pc[t := SharedAsleep]), 3);
      Stops(e, t, 3);
    } else {
      var s2 := Next(s1, t, s1.(pc := s.pc[t := SharedTestExclusive]), 3);
      ReaderTests(s2, t);
    }
  }

  lemma ReaderAdded(s: State, t: Thread)
    requires t in s.pc && s.pc[t].SharedAdd? && s.mutex == By(t)
    ensures Alone(s, t, 2) == s.(shared := s.shared + 1, mutex := Nobody, pc := s.pc[t := Reading])
  {
    hide Alone;
    var s1 := Next(s, t, s.(shared := s.shared + 1, pc := s.pc[t := SharedLeave]), 1);
    var s2 := Next(s1, t, s1.(mutex := Nobody, pc := s.pc[t := Reading]), 0);
    Stops(s2, t, 0);
  }

  lemma WriterTestsAgain(s: State, t: Thread)
    requires t in s.pc && s.pc[t].ExclusiveTestExclusive? && s.mutex == By(t)
    ensures Alone(s, t, 4) ==
      if s.exclusive == 0 then s.(requests := s.requests - 1, exclusive := 1, mutex := Nobody, pc := s.pc[t := Writing])
      else s.(mutex := Nobody, pc := s.pc[t := ExclusiveAsleep])
  {
    hide Alone;
    if s.exclusive != 0 {
      var e := Next(s, t, s.(mutex := Nobody, pc := s.pc[t := ExclusiveAsleep]), 3);
      Stops(e, t, 3);
    } else {
      var s1 := Next(s, t, s.(pc := s.pc[t := Unrequest]), 3);
      WriterAdded(s1, t);
    }
  }

  /** A writer that comes to the inner mutex, newly or woken up, gets in if and only if nobody is in; otherwise it
      sleeps with its request standing. */
  lemma WriterAtMutex(s: State, t: Thread)
    requires t in s.pc && s.pc[t].ExclusiveLock? && s.mutex == Nobody
    ensures Alone(s, t, 6) ==
      if s.shared == 0 && s.exclusive == 0 then s.(requests := s.requests - 1, exclusive := 1, pc := s.pc[t := Writing])
      else s.(pc := s.pc[t := ExclusiveAsleep])
  {
    hide Alone;
    var s1 := Next(s, t, s.(mutex := By(t), pc := s.pc[t := ExclusiveTestShared]), 5);
    if s.shared != 0 {
      var e := Next(s1, t, s.(pc := s.pc[t := ExclusiveAsleep]), 4);
      Stops(e, t, 4);
    } else {
      var s2 := Next(s1, t, s1.(pc := s.pc[t := ExclusiveTestExclusive]), 4);
      WriterTestsAgain(s2, t);
    }
  }

  lemma WriterAdded(s: State, t: Thread)
    requires t in s.pc && s.pc[t].Unrequest? && s.mutex == By(t)
    ensures Alone(s, t, 3) == s.(requests := s.requests - 1, exclusive := s.exclusive + 1, mutex := Nobody, pc := s.pc[t := Writing])
  {
    hide Alone;
    var s1 := Next(s, t, s.(requests := s.requests - 1, pc := s.pc[t := ExclusiveAdd]), 2);
    var s2 := Next(s1, t, s1.(exclusive := s.exclusive + 1, pc := s.pc[t := ExclusiveLeave]), 1);
    var s3 := Next(s2, t, s2.(mutex := Nobody, pc := s.pc[t := Writing]), 0);
    Stops(s3, t, 0);
  }

  // ---------------------------------------------------------------- where the intent is missed

  function Two(x: Pc, y: Pc): map<Thread, Pc> { map[0 := x, 1 := y] }

  lemma StartRun(s: State)
    requires Init(s)
    ensures IsRun([s], [])
  {
  }

  /** Extends a run by one action. */
  lemma Link(run: seq<State>, actions: seq<Action>, a: Action, s': State) returns (run': seq<State>, actions': seq<Action>)
    requires IsRun(run, actions) && Enabled(run[|actions|], a) && s' == Do(run[|actions|], a)
    ensures IsRun(run', actions') && actions' == actions + [a]
    ensures run'[|actions'|] == s'
    ensures (forall i :: 0 <= i < |actions| ==> !actions[i].Spurious?) && !a.Spurious? ==> forall i :: 0 <= i < |actions'| ==> !actions'[i].Spurious?
  {
    run', actions' := run + [s'], actions + [a];
  }

  /** Thread 0 has passed the first test of `lock`. */
  lemma WriterTests() returns (run: seq<State>, actions: seq<Action>)
    ensures IsRun(run, actions)
    ensures run[|actions|] == State(0, 1, 0, 0, By(0), Two(ExclusiveTestExclusive, Out))
  {
    hide IsRun;
    run, actions := [State(0, 0, 0, 0, Nobody, Two(Out, Out))], [];
    StartRun(run[0]);
    run, actions := Link(run, actions, CallLock(0), State(0, 0, 0, 0, Nobody, Two(Request, Out)));
    run, actions := Link(run, actions, Run(0, 0), State(0, 1, 0, 0, Nobody, Two(ExclusiveLock, Out)));
    run, actions := Link(run, actions, Run(0, 0), State(0, 1, 0, 0, By(0), Two(ExclusiveTestShared, Out)));
    run, actions := Link(run, actions, Run(0, 0), State(0, 1, 0, 0, By(0), Two(ExclusiveTestExclusive, Out)));
  }

  /** It is past both tests. */
  lemma WriterPasses() returns (run: seq<State>, actions: seq<Action>)
    ensures IsRun(run, actions)
    ensures run[|actions|] == State(0, 0, 0, 0, By(0), Two(ExclusiveAdd, Out))
  {
    hide IsRun;
    run, actions := WriterTests();
    run, actions := Link(run, actions, Run(0, 0), State(0, 1, 0, 0, By(0), Two(Unrequest, Out)));
    run, actions := Link(run, actions, Run(0, 0), State(0, 0, 0, 0, By(0), Two(ExclusiveAdd, Out)));
  }

  /** Thread 0 holds the mutex exclusively. */
  lemma WriterHolds() returns (run: seq<State>, actions: seq<Action>)
    ensures IsRun(run, actions)
    ensures run[|actions|] == State(0, 0, 0, 1, Nobody, Two(Writing, Out))
  {
    hide IsRun;
    run, actions := WriterPasses();
    run, actions := Link(run, actions, Run(0, 0), State(0, 0, 0, 1, By(0), Two(ExclusiveLeave, Out)));
    run, actions := Link(run, actions, Run(0, 0), State(0, 0, 0, 1, Nobody, Two(Writing, Out)));
  }

  /** A reader (thread 1) is admitted through the fast path while thread 0 holds the mutex exclusively. */
  lemma ReaderDuringExclusiveHold() returns (run: seq<State>, actions: seq<Action>)
    ensures IsRun(run, actions)
    ensures run[|actions|] == State(1, 0, 0, 1, Nobody, Two(Writing, Reading))
  {
    hide IsRun;
    run, actions := WriterHolds();
    run, actions := Link(run, actions, CallLockShared(1), State(0, 0, 0, 1, Nobody, Two(Writing, FastCheck)));
    run, actions := Link(run, actions, Run(1, 1), State(0, 0, 0, 1, Nobody, Two(Writing, FastAdd)));
    run, actions := Link(run, actions, Run(1, 1), State(1, 0, 0, 1, Nobody, Two(Writing, Reading)));
  }

  /** Thread 1 holds the mutex shared and thread 0 has called `lock`. */
  lemma ReaderHolds() returns (run: seq<State>, actions: seq<Action>)
    ensures IsRun(run, actions)
    ensures run[|actions|] == State(1, 0, 0, 0, Nobody, Two(Request, Reading))
    ensures forall i :: 0 <= i < |actions| ==> !actions[i].Spurious?
  {
    hide IsRun;
    run, actions := [State(0, 0, 0, 0, Nobody, Two(Out, Out))], [];
    StartRun(run[0]);
    run, actions := Link(run, actions, CallLockShared(1), State(0, 0, 0, 0, Nobody, Two(Out, FastCheck)));
    run, actions := Link(run, actions, Run(1, 1), State(0, 0, 0, 0, Nobody, Two(Out, FastAdd)));
    run, actions := Link(run, actions, Run(1, 1), State(1, 0, 0, 0, Nobody, Two(Out, Reading)));
    run, actions := Link(run, actions, CallLock(0), State(1, 0, 0, 0, Nobody, Two(Request, Reading)));
  }

  /** Thread 0 waits for thread 1 to leave. */
  lemma WriterAsleep() returns (run: seq<State>, actions: seq<Action>)
    ensures IsRun(run, actions)
    ensures run[|actions|] == State(1, 1, 0, 0, Nobody, Two(ExclusiveAsleep, Reading))
    ensures forall i :: 0 <= i < |actions| ==> !actions[i].Spurious?
  {
    hide IsRun;
    run, actions := ReaderHolds();
    run, actions := Link(run, actions, Run(0, 0), State(1, 1, 0, 0, Nobody, Two(ExclusiveLock, Reading)));
    run, actions := Link(run, actions, Run(0, 0), State(1, 1, 0, 0, By(0), Two(ExclusiveTestShared, Reading)));
    run, actions := Link(run, actions, Run(0, 0), State(1, 1, 0, 0, Nobody, Two(ExclusiveAsleep, Reading)));
  }

  /** A writer can fall asleep and stay asleep although the mutex is entirely free: thread 1 reads,
      thread 0 asks for exclusive access and sleeps, and thread 1's release wakes nobody. */
  lemma WriterSleepsOnFreeMutex() returns (run: seq<State>, actions: seq<Action>)
    ensures IsRun(run, actions)
    ensures run[|actions|] == State(0, 1, 0, 0, Nobody, Two(ExclusiveAsleep, Out))
    ensures forall i :: 0 <= i < |actions| ==> !actions[i].Spurious?
  {
    hide IsRun;
    run, actions := WriterAsleep();
    run, actions := Link(run, actions, CallUnlockShared(1), State(1, 1, 0, 0, Nobody, Two(ExclusiveAsleep, DropShared)));
    run, actions := Link(run, actions, Run(1, 1), State(0, 1, 0, 0, Nobody, Two(ExclusiveAsleep, DropLock)));
    run, actions := Link(run, actions, Run(1, 1), State(0, 1, 0, 0, By(1), Two(ExclusiveAsleep, DropNotify)));
    run, actions := Link(run, actions, Run(1, 1), State(0, 1, 0, 0, Nobody, Two(ExclusiveAsleep, Out)));
  }

  /** The thread has not been let past the request test of `lock_shared`. */
  predicate Outside(l: Pc) {
    !l.FastAdd? && !l.SharedTestExclusive? && !l.SharedAdd? && !ReaderIn(l)
  }

  /** Without a spurious wake-up, and with a request pending. */
  lemma StaysOut(s: State, a: Action, w: Thread, u: Thread)
    requires Enabled(s, a) && !a.Spurious? && s.waiting == 0 && s.requests > 0
    requires w in s.pc && s.pc[w].ExclusiveAsleep? && u in s.pc && Outside(s.pc[u])
    ensures w in Do(s, a).pc && Do(s, a).pc[w].ExclusiveAsleep?
    ensures u in Do(s, a).pc && Outside(Do(s, a).pc[u])
  {
  }

  lemma AsleepStep(s: State, a: Action, w: Thread, u: Thread)
    requires Inv(s) && Enabled(s, a) && !a.Spurious?
    requires w in s.pc && s.pc[w].ExclusiveAsleep? && u in s.pc && Outside(s.pc[u])
    ensures w in Do(s, a).pc && Do(s, a).pc[w].ExclusiveAsleep?
    ensures u in Do(s, a).pc && Outside(Do(s, a).pc[u])
  {
    hide Do, PcOk, Enabled, Outside;
    SumUpdate(s.pc, Requests(), w, s.pc[w]);
    StaysOut(s, a, w, u);
  }

  /** `exclusiveWaiting_` is never raised, so no notification reaches a writer: without a spurious
      wake-up a sleeping writer sleeps for ever, and while it does its request is never taken back,
      so no thread that is outside the shared section ever gets into it again. */
  lemma {:induction false} SleepingWriterBlocksReaders(
      run: seq<State>, actions: seq<Action>, i: nat, j: nat, w: Thread, u: Thread)
    requires IsRun(run, actions) && i <= j < |run|
    requires forall k :: 0 <= k < |actions| ==> !actions[k].Spurious?
    requires w in run[i].pc && run[i].pc[w].ExclusiveAsleep?
    requires u in run[i].pc && Outside(run[i].pc[u])
    ensures w in run[j].pc && run[j].pc[w].ExclusiveAsleep?
    ensures u in run[j].pc && !run[j].pc[u].Reading?
    ensures Outside(run[j].pc[u])
    decreases j
  {
    RunInv(run, actions);
    if i < j {
      SleepingWriterBlocksReaders(run, actions, i, j - 1, w, u);
      assert Inv(run[j - 1]);
      AsleepStep(run[j - 1], actions[j - 1], w, u);
    }
  }
}
