/**
 The hash of implicit producers: a chain of linear-probing tables from thread to producer, with
 tombstones for threads that have exited, lazy migration into the newest table, and one counter of used
 slots shared by all tables (shared/queue_internal/concurrentqueue.h:3227-3244, 3388-3564).

 This module has the protocol and who gets which producer; module HashRoom has the counter.
 */
module ProducerHash {
  import opened Basics
  import WrapAround
  import Indices

  /** A thread id and its hash, on which nothing is assumed. */
  datatype Thread = Thread(id: nat, hash: nat)

  type Producer = nat

  /** An entry: `invalid_thread_id`, `invalid_thread_id2`, or a thread's id and its producer. */
  datatype Slot = Empty | Tomb | Used(owner: Thread, producer: Producer)

  type Table = seq<Slot>

  /** `main` is a thread's own copy of the newest table at some time; `probes` is how often it has gone on
      to the next slot; `n` is its `newCount`. */
  datatype Pc =
    | Idle
    | Find(main: nat, table: nat, probes: nat)
    | Migrate(main: nat, producer: Producer, probes: nat)
    | Count(main: nat)
    | Check(main: nat, n: int)
    | Locked(n: int)
    | Grow(main: nat, n: int)
    | Unlock(main: nat, n: int, failed: bool)
    | Fit(main: nat, n: int)
    | Refund
    | Place(main: nat, producer: Producer, n: int, probes: nat)
    | Credit
    | Leave(table: nat, probes: nat)
    | Retire

  /** A thread: where it is, the result of its last call, and as history the producer it owns, its newest
      table while it has not begun to exit, and for each table with its id how many probes away it is. */
  datatype Local = Local(pc: Pc, got: Option<Producer>, owns: Option<Producer>, top: int, at: map<nat, nat>)

  datatype State = State(
    tables: seq<Table>,             // a table's `prev` is the one before it
    count: int,                     // implicitProducerHashCount
    lock: set<Thread>,              // implicitProducerHashResizeInProgress, and who holds it
    inactive: set<Producer>,
    made: nat,
    threads: map<Thread, Local>)

  /** What the allocator and the list of producers do in a step. */
  datatype Env = Env(granted: bool, recycled: Option<Producer>)

  datatype Action = Call(t: Thread) | Exit(t: Thread) | Run(t: Thread, env: Env)

  /** The slot after `probes` moves, `(hashedId + probes) & (capacity - 1)`. */
  function SlotOf(t: Thread, probes: nat, capacity: nat): (i: nat)
    requires capacity > 0
    ensures i < capacity
  {
    (t.hash + probes) % capacity
  }

  function Last(s: State): int { |s.tables| - 1 }

  predicate Enabled(s: State, a: Action) {
    && a.t in s.threads && s.tables != [] && (forall j :: 0 <= j < |s.tables| ==> |s.tables[j]| > 0)
    && var l := s.threads[a.t];
       match a
       case Call(t) => l.pc.Idle?
       case Exit(t) => l.pc.Idle? && l.owns.Some?
       case Run(t, env) => !l.pc.Idle? && InRange(s, l.pc)
  }

  /** Table numbers are within the chain. */
  predicate InRange(s: State, pc: Pc) {
    match pc
    case Find(main, table, _) => table <= main < |s.tables|
    case Migrate(main, _, _) => main < |s.tables|
    case Count(main) => main < |s.tables|
    case Check(main, _) => main < |s.tables|
    case Grow(main, _) => main < |s.tables|
    case Unlock(main, _, _) => main < |s.tables|
    case Fit(main, _) => main < |s.tables|
    case Place(main, _, _, _) => main < |s.tables|
    case Leave(table, _) => table < |s.tables|
    case _ => true
  }

  /** The capacity for a new table (3462-3465). */
  function NewCapacity(capacity: nat, n: int): (c: nat)
    requires capacity > 0
    ensures c >= capacity && n < c / 2
    decreases if n >= capacity / 2 then n - capacity / 2 + 1 else 0
  {
    if n >= capacity / 2 then NewCapacity(2 * capacity, n) else capacity
  }

  function Blank(capacity: nat): Table { seq(capacity, _ => Empty) }

  /** Three quarters of a table, `(capacity >> 1) + (capacity >> 2)`. */
  function Quota(t: Table): nat { |t| / 2 + |t| / 4 }

  function Put(s: State, j: nat, i: nat, slot: Slot): seq<Table>
    requires j < |s.tables| && i < |s.tables[j]|
  {
    s.tables[j := s.tables[j][i := slot]]
  }

  function At(s: State, t: Thread, l: Local): State { s.(threads := s.threads[t := l]) }

  function Goto(s: State, t: Thread, pc: Pc): State
    requires t in s.threads
  {
    At(s, t, s.threads[t].(pc := pc))
  }

  /** One atomic operation. Lines refer to shared/queue_internal/concurrentqueue.h. */
  function Do(s: State, a: Action): State
    requires Enabled(s, a)
  {
    var t := a.t;
    var l := s.threads[t];
    match a
    case Call(_) => Goto(s, t, Find(Last(s), Last(s), 0))  // 3407
    case Exit(_) => At(s, t, l.(pc := Leave(Last(s), 0), top := -1))  // 3542
    case Run(_, env) =>
      match l.pc
      case Idle => s
      case Find(main, j, k) =>  // 3412-3448
        (match s.tables[j][SlotOf(t, k, |s.tables[j]|)]
         case Used(owner, p) =>
           if owner != t then Goto(s, t, Find(main, j, k + 1))
           else if j == main then At(s, t, l.(pc := Idle, got := Some(p)))
           else Goto(s, t, Migrate(main, p, 0))
         case Empty => Goto(s, t, if j == 0 then Count(main) else Find(main, j - 1, 0))
         case Tomb => Goto(s, t, Find(main, j, k + 1)))
      case Migrate(main, p, k) =>  // 3424-3442
        var i := SlotOf(t, k, |s.tables[main]|);
        if s.tables[main][i].Used? then Goto(s, t, Migrate(main, p, k + 1))
        else At(s, t, l.(pc := Idle, got := Some(p), top := main, at := l.at[main := k % |s.tables[main]|])).(tables := Put(s, main, i, Used(t, p)))
      case Count(main) => Goto(s, t, Check(main, s.count + 1)).(count := s.count + 1)  // 3452
      case Check(main, n) =>  // 3455
        if n >= |s.tables[main]| / 2 && s.lock == {} then Goto(s, t, Locked(n)).(lock := {t})
        else Goto(s, t, Fit(main, n))
      case Locked(n) =>  // 3460-3461
        Goto(s, t, if n >= |s.tables[Last(s)]| / 2 then Grow(Last(s), n) else Unlock(Last(s), n, false))
      case Grow(main, n) =>  // 3462-3484
        if !env.granted then Goto(s, t, Unlock(main, n, true)).(count := s.count - 1)
        else Goto(s, t, Unlock(main + 1, n, false)).(tables := s.tables[..main + 1] + [Blank(NewCapacity(2 * |s.tables[main]|, n))])
      case Unlock(main, n, failed) =>  // 3470, 3483, 3487
        if failed then At(s, t, l.(pc := Idle, got := None)).(lock := {})
        else Goto(s, t, Fit(main, n)).(lock := {})
      case Fit(main, n) =>  // 3494-3498, 3227-3244, 3531
        if n >= Quota(s.tables[main]) then Goto(s, t, Check(Last(s), n))
        else if env.recycled.Some? && env.recycled.value in s.inactive then
          var p := env.recycled.value;
          At(s, t, l.(pc := Place(main, p, n, 0), owns := Some(p))).(inactive := s.inactive - {p})
        else if env.granted then At(s, t, l.(pc := Place(main, s.made, n, 0), owns := Some(s.made))).(made := s.made + 1)
        else Goto(s, t, Refund)
      case Refund => At(s, t, l.(pc := Idle, got := None)).(count := s.count - 1)  // 3497
      case Place(main, p, n, k) =>  // 3507-3525
        var i := SlotOf(t, k, |s.tables[main]|);
        if s.tables[main][i].Used? then Goto(s, t, Place(main, p, n, k + 1))
        else
          At(s, t, l.(pc := if s.tables[main][i].Tomb? then Credit else Idle, got := Some(p), top := main, at := l.at[main := k % |s.tables[main]|]))
            .(tables := Put(s, main, i, Used(t, p)))
      case Credit => Goto(s, t, Idle).(count := s.count - 1)  // 3514
      case Leave(j, k) =>  // 3550-3560
        var i := SlotOf(t, k, |s.tables[j]|);
        var next := if j == 0 then Retire else Leave(j - 1, 0);
        (match s.tables[j][i]
         case Used(owner, _) =>
           if owner == t then At(s, t, l.(pc := next, at := l.at - {j})).(tables := Put(s, j, i, Tomb))
           else Goto(s, t, Leave(j, k + 1))
         case Empty => Goto(s, t, next)
         case Tomb => Goto(s, t, Leave(j, k + 1)))
      case Retire =>  // 3563
        At(s, t, l.(pc := Idle, got := None, owns := None))
          .(inactive := if l.owns.Some? then s.inactive + {l.owns.value} else s.inactive)
  }

  ghost predicate Init(s: State) {
    && |s.tables| == 1 && |s.tables[0]| > 0 && s.tables[0] == Blank(|s.tables[0]|)
    && s.count == 0 && s.lock == {} && s.inactive == {} && s.made == 0
    && forall t :: t in s.threads ==> s.threads[t] == Local(Idle, None, None, -1, map[])
  }

  ghost predicate IsRun(run: seq<State>, actions: seq<Action>) {
    && |run| == |actions| + 1 && Init(run[0])
    && forall i :: 0 <= i < |actions| ==> Enabled(run[i], actions[i]) && run[i + 1] == Do(run[i], actions[i])
  }

  // ---------------------------------------------------------------- the invariant

  /** The first `n` slots that `t` probes in a table hold something, and not its own id. */
  ghost predicate Passed(table: Table, t: Thread, n: nat) {
    |table| > 0 && forall k :: 0 <= k < n ==> PassedOne(table, t, k)
  }

  predicate PassedOne(table: Table, t: Thread, k: nat)
    requires |table| > 0
  {
    var slot := table[SlotOf(t, k, |table|)];
    !slot.Empty? && (slot.Used? ==> slot.owner != t)
  }

  /** The id is where the thread's own probing comes to it. */
  ghost predicate Lodged(table: Table, t: Thread, p: Producer, k: nat) {
    Passed(table, t, k) && table[SlotOf(t, k, |table|)] == Used(t, p)
  }

  /** A used slot belongs to a thread that knows of it. */
  ghost predicate SlotOk(s: State, j: nat, i: nat)
    requires j < |s.tables| && i < |s.tables[j]|
  {
    var slot := s.tables[j][i];
    slot.Used? ==>
      && slot.owner in s.threads && j in s.threads[slot.owner].at
      && SlotOf(slot.owner, s.threads[slot.owner].at[j], |s.tables[j]|) == i
  }

  ghost predicate TableOk(s: State, j: nat)
    requires j < |s.tables|
  {
    |s.tables[j]| > 0 && forall i :: 0 <= i < |s.tables[j]| ==> SlotOk(s, j, i)
  }

  /** Where the thread's id is. */
  ghost predicate AtOk(s: State, t: Thread, l: Local) {
    forall j :: j in l.at ==> LodgedIn(s, t, l, j)
  }

  ghost predicate LodgedIn(s: State, t: Thread, l: Local, j: nat)
    requires j in l.at
  {
    l.owns.Some? && j < |s.tables| && Lodged(s.tables[j], t, l.owns.value, l.at[j])
  }

  /** `top` is the newest table that has the id. */
  predicate TopOk(l: Local) { l.top == -1 || (l.top >= 0 && l.top in l.at && forall j :: j in l.at ==> j <= l.top) }

  /** The thread has a producer that can be found. */
  predicate Settled(l: Local) { l.owns.Some? && l.top >= 0 && l.at != map[] }

  predicate Unknown(l: Local) { l.owns.None? && l.top == -1 && l.at == map[] }

  ghost predicate PcOk(s: State, t: Thread, l: Local) {
    InRange(s, l.pc) &&
    match l.pc
    case Idle => Unknown(l) || (Settled(l) && l.got == l.owns)
    case Find(main, j, k) =>
      (Unknown(l) || Settled(l)) && Passed(s.tables[j], t, k) && forall i :: i in l.at ==> i <= j
    case Migrate(main, p, k) =>
      Settled(l) && l.owns == Some(p) && l.top < main && Passed(s.tables[main], t, k)
    case Place(main, p, n, k) =>
      l.owns == Some(p) && l.top == -1 && l.at == map[] && n < Quota(s.tables[main]) && Passed(s.tables[main], t, k)
    case Credit => Settled(l) && l.got == l.owns
    case Leave(j, k) =>
      l.owns.Some? && l.top == -1 && Passed(s.tables[j], t, k) && forall i :: i in l.at ==> i <= j
    case Retire => l.owns.Some? && l.top == -1 && l.at == map[]
    case Grow(main, n) => Unknown(l) && main == Last(s)
    case _ => Unknown(l)
  }

  predicate Holds(l: Local) { l.pc.Locked? || l.pc.Grow? || l.pc.Unlock? }

  /** Nobody else has the thread's producer. */
  ghost predicate OwnOk(s: State, t: Thread, l: Local) {
    l.owns.Some? ==>
      l.owns.value < s.made && l.owns.value !in s.inactive
  }

  ghost predicate Alone(s: State, t: Thread, u: Thread) {
    t in s.threads && u in s.threads && t != u && s.threads[t].owns.Some? ==> s.threads[t].owns != s.threads[u].owns
  }

  ghost predicate LocalOk(s: State, t: Thread, l: Local) {
    && PcOk(s, t, l) && TopOk(l) && AtOk(s, t, l) && OwnOk(s, t, l)
    && (Holds(l) <==> t in s.lock)
  }

  ghost predicate Inv(s: State) {
    && s.tables != [] && (forall j :: 0 <= j < |s.tables| ==> TableOk(s, j))
    && (forall t :: t in s.threads ==> LocalOk(s, t, s.threads[t]))
    && (forall t, u :: Alone(s, t, u))
    && (forall p :: p in s.inactive ==> p < s.made)
    && |s.lock| <= 1
  }

  // ---------------------------------------------------------------- steps keep it

  /** What a step of `t` may do to a table: fill a slot with its id, or bury its id. */
  ghost predicate Later(table: Table, table': Table, t: Thread) {
    |table'| == |table| && forall i :: 0 <= i < |table| ==> SlotLater(table, table', t, i)
  }

  predicate SlotLater(table: Table, table': Table, t: Thread, i: nat)
    requires i < |table| == |table'|
  {
    table'[i] == table[i] ||
      ((table[i].Used? ==> table[i].owner == t) && !table'[i].Empty? && (table'[i].Used? ==> table'[i].owner == t))
  }

  ghost predicate AllLater(s: State, s': State, t: Thread) {
    |s.tables| <= |s'.tables| && forall j :: 0 <= j < |s.tables| ==> Later(s.tables[j], s'.tables[j], t)
  }

  lemma PassedLater(table: Table, table': Table, t: Thread, u: Thread, n: nat)
    requires Later(table, table', t) && Passed(table, u, n) && u != t
    ensures Passed(table', u, n)
  {
    forall k | 0 <= k < n
      ensures PassedOne(table', u, k)
    {
      assert PassedOne(table, u, k) && SlotLater(table, table', t, SlotOf(u, k, |table|));
    }
  }

  lemma LodgedLater(table: Table, table': Table, t: Thread, u: Thread, p: Producer, k: nat)
    requires Later(table, table', t) && Lodged(table, u, p, k) && u != t
    ensures Lodged(table', u, p, k)
  {
    PassedLater(table, table', t, u, k);
    assert SlotLater(table, table', t, SlotOf(u, k, |table|));
  }

  lemma AtLater(s: State, s': State, t: Thread, u: Thread, l: Local)
    requires AllLater(s, s', t) && AtOk(s, u, l) && u != t
    ensures AtOk(s', u, l)
  {
    forall j | j in l.at
      ensures LodgedIn(s', u, l, j)
    {
      assert LodgedIn(s, u, l, j);
      LodgedLater(s.tables[j], s'.tables[j], t, u, l.owns.value, l.at[j]);
    }
  }

  lemma PcLater(s: State, s': State, t: Thread, u: Thread, l: Local)
    requires AllLater(s, s', t) && PcOk(s, u, l) && u != t && (l.pc.Grow? ==> |s'.tables| == |s.tables|)
    ensures PcOk(s', u, l)
  {
    match l.pc
    case Find(main, j, k) => PassedLater(s.tables[j], s'.tables[j], t, u, k);
    case Migrate(main, p, k) => PassedLater(s.tables[main], s'.tables[main], t, u, k);
    case Place(main, p, n, k) => PassedLater(s.tables[main], s'.tables[main], t, u, k);
    case Leave(j, k) => PassedLater(s.tables[j], s'.tables[j], t, u, k);
    case _ =>
  }

  /** A thread that has its id in a table meets it before any empty slot. */
  lemma MeetsOwn(s: State, t: Thread, l: Local, j: nat, k: nat)
    requires AtOk(s, t, l) && j in l.at && j < |s.tables| && Passed(s.tables[j], t, k)
    ensures k <= l.at[j]
    ensures !s.tables[j][SlotOf(t, k, |s.tables[j]|)].Empty?
  {
    var d := l.at[j];
    assert d < k ==> PassedOne(s.tables[j], t, d);
    assert LodgedIn(s, t, l, j);
    assert k < d ==> PassedOne(s.tables[j], t, k);
  }

  /** An id found is the thread's own, with its own producer, where its history says. */
  lemma FoundOwn(s: State, t: Thread, l: Local, j: nat, k: nat)
    requires t in s.threads && s.threads[t] == l && j < |s.tables| && TableOk(s, j) && AtOk(s, t, l) && Passed(s.tables[j], t, k)
    requires var slot := s.tables[j][SlotOf(t, k, |s.tables[j]|)]; slot.Used? && slot.owner == t
    ensures j in l.at && l.owns == Some(s.tables[j][SlotOf(t, k, |s.tables[j]|)].producer)
  {
    assert SlotOk(s, j, SlotOf(t, k, |s.tables[j]|));
    assert LodgedIn(s, t, l, j);
  }

  lemma PassedMore(table: Table, t: Thread, k: nat)
    requires Passed(table, t, k) && PassedOne(table, t, k)
    ensures Passed(table, t, k + 1)
  {
  }

  /** The tables after a step: one slot changed, or one table added. */
  lemma TablesLater(s: State, a: Action)
    requires Inv(s) && Enabled(s, a)
    ensures AllLater(s, Do(s, a), a.t)
    ensures |Do(s, a).tables| > |s.tables| ==> a.t in s.lock
  {
    var s', l := Do(s, a), s.threads[a.t];
    assert LocalOk(s, a.t, l);
    forall j | 0 <= j < |s.tables|
      ensures j < |s'.tables| && Later(s.tables[j], s'.tables[j], a.t)
    {
    }
  }

  // ---------------------------------------------------------------- the thread's own part

  lemma OwnFind(s: State, a: Action)
    requires Inv(s) && Enabled(s, a) && a.Run? && s.threads[a.t].pc.Find?
    ensures PcOk(Do(s, a), a.t, Do(s, a).threads[a.t])
  {
    var t, l := a.t, s.threads[a.t];
    assert LocalOk(s, t, l);
    var j, k := l.pc.table, l.pc.probes;
    assert TableOk(s, j);
    var slot := s.tables[j][SlotOf(t, k, |s.tables[j]|)];
    if slot.Used? && slot.owner == t {
      FoundOwn(s, t, l, j, k);
    } else if slot.Empty? {
      if j in l.at {
        MeetsOwn(s, t, l, j, k);
      }
    } else {
      PassedMore(s.tables[j], t, k);
    }
  }

  lemma OwnLeave(s: State, a: Action)
    requires Inv(s) && Enabled(s, a) && a.Run? && s.threads[a.t].pc.Leave?
    ensures PcOk(Do(s, a), a.t, Do(s, a).threads[a.t])
  {
    var t, l := a.t, s.threads[a.t];
    assert LocalOk(s, t, l);
    var j, k := l.pc.table, l.pc.probes;
    var slot := s.tables[j][SlotOf(t, k, |s.tables[j]|)];
    if slot.Empty? {
      if j in l.at {
        MeetsOwn(s, t, l, j, k);
      }
    } else if !(slot.Used? && slot.owner == t) {
      PassedMore(s.tables[j], t, k);
    }
  }

  lemma OwnPut(s: State, a: Action)
    requires Inv(s) && Enabled(s, a) && a.Run? && (s.threads[a.t].pc.Migrate? || s.threads[a.t].pc.Place?)
    ensures PcOk(Do(s, a), a.t, Do(s, a).threads[a.t])
  {
    var l := s.threads[a.t];
    assert LocalOk(s, a.t, l) && TableOk(s, l.pc.main);
    OtherOwner(s, a.t, l, l.pc.main, l.pc.probes);
  }

  /** Between the loops. */
  lemma OwnOther(s: State, a: Action)
    requires Inv(s) && Enabled(s, a) && a.Run?
    requires var pc := s.threads[a.t].pc; !pc.Find? && !pc.Leave? && !pc.Migrate? && !pc.Place?
    ensures PcOk(Do(s, a), a.t, Do(s, a).threads[a.t])
  {
    assert LocalOk(s, a.t, s.threads[a.t]);
  }

  lemma OwnCall(s: State, a: Action)
    requires Inv(s) && Enabled(s, a) && !a.Run?
    ensures PcOk(Do(s, a), a.t, Do(s, a).threads[a.t])
  {
    assert LocalOk(s, a.t, s.threads[a.t]);
  }

  lemma OwnPc(s: State, a: Action)
    requires Inv(s) && Enabled(s, a)
    ensures a.t in Do(s, a).threads && PcOk(Do(s, a), a.t, Do(s, a).threads[a.t])
  {
    hide Do, Inv, PcOk;
    OwnStays(s, a);
    if !a.Run? {
      OwnCall(s, a);
    } else if s.threads[a.t].pc.Find? {
      OwnFind(s, a);
    } else if s.threads[a.t].pc.Leave? {
      OwnLeave(s, a);
    } else if s.threads[a.t].pc.Migrate? || s.threads[a.t].pc.Place? {
      OwnPut(s, a);
    } else {
      OwnOther(s, a);
    }
  }

  lemma OwnStays(s: State, a: Action)
    requires Enabled(s, a)
    ensures a.t in Do(s, a).threads
  {
  }

  /** A table in which the thread is not yet does not have its id. */
  lemma OtherOwner(s: State, t: Thread, l: Local, j: nat, k: nat)
    requires t in s.threads && s.threads[t] == l && j < |s.tables| && TableOk(s, j) && AtOk(s, t, l) && Passed(s.tables[j], t, k)
    requires j !in l.at
    ensures var slot := s.tables[j][SlotOf(t, k, |s.tables[j]|)]; slot.Used? ==> slot.owner != t && Passed(s.tables[j], t, k + 1)
  {
    var slot := s.tables[j][SlotOf(t, k, |s.tables[j]|)];
    if slot.Used? && slot.owner == t {
      FoundOwn(s, t, l, j, k);
    } else if slot.Used? {
      PassedMore(s.tables[j], t, k);
    }
  }

  /** Going once around a table comes back to the same slot; within one turn all slots are different. */
  lemma OneTurn(t: Thread, k: nat, e: nat, capacity: nat)
    requires capacity > 0
    ensures k % capacity <= k && SlotOf(t, k % capacity, capacity) == SlotOf(t, k, capacity)
    ensures e < k % capacity ==> SlotOf(t, e, capacity) != SlotOf(t, k, capacity)
  {
    var d := k % capacity;
    assert k == capacity * (k / capacity) + d;
    WrapAround.MulMonotone(capacity, 0, k / capacity);
    WrapAround.ModShift(t.hash + d, capacity, k / capacity);
    if e < d {
      Indices.SlotsDiffer(e, d, t.hash, capacity);
    }
  }

  lemma NewlyLodged(table: Table, t: Thread, p: Producer, k: nat)
    requires Passed(table, t, k)
    ensures Lodged(table[SlotOf(t, k, |table|) := Used(t, p)], t, p, k % |table|)
  {
    var table' := table[SlotOf(t, k, |table|) := Used(t, p)];
    OneTurn(t, k, 0, |table|);
    forall e | 0 <= e < k % |table|
      ensures PassedOne(table', t, e)
    {
      OneTurn(t, k, e, |table|);
      assert PassedOne(table, t, e);
    }
  }

  /** Ids that are and stay in a table, and the one that was put there. */
  lemma OwnLodged(s: State, a: Action, j: nat)
    requires Inv(s) && Enabled(s, a) && a.t in Do(s, a).threads && j in Do(s, a).threads[a.t].at
    ensures var l, l' := s.threads[a.t], Do(s, a).threads[a.t];
            if j in l.at && !(a.Run? && (l.pc.Migrate? || l.pc.Place?) && l.pc.main == j) then
              j < |s.tables| && j < |Do(s, a).tables| && l'.at[j] == l.at[j] && l'.owns == l.owns && Do(s, a).tables[j] == s.tables[j]
            else
              && a.Run? && (l.pc.Migrate? || l.pc.Place?) && l.pc.main == j < |s.tables| && j < |Do(s, a).tables| && |s.tables[j]| > 0
              && l'.owns == Some(l.pc.producer) && Passed(s.tables[j], a.t, l.pc.probes)
              && l'.at[j] == l.pc.probes % |s.tables[j]|
              && Do(s, a).tables[j] == s.tables[j][SlotOf(a.t, l.pc.probes, |s.tables[j]|) := Used(a.t, l.pc.producer)]
  {
    var l := s.threads[a.t];
    assert LocalOk(s, a.t, l);
    assert j in l.at ==> LodgedIn(s, a.t, l, j);
  }

  lemma OwnAt(s: State, a: Action)
    requires Inv(s) && Enabled(s, a)
    ensures a.t in Do(s, a).threads && AtOk(Do(s, a), a.t, Do(s, a).threads[a.t])
  {
    hide Do, PcOk;
    OwnStays(s, a);
    var t := a.t;
    var s', l := Do(s, a), s.threads[t];
    var l' := s'.threads[t];
    assert LocalOk(s, t, l);
    forall j | j in l'.at
      ensures LodgedIn(s', t, l', j)
    {
      OwnLodged(s, a, j);
      if j in l.at && !(a.Run? && (l.pc.Migrate? || l.pc.Place?) && l.pc.main == j) {
        assert LodgedIn(s, t, l, j);
      } else {
        NewlyLodged(s.tables[j], t, l.pc.producer, l.pc.probes);
      }
    }
  }

  lemma OwnTop(s: State, a: Action)
    requires Inv(s) && Enabled(s, a)
    ensures a.t in Do(s, a).threads && TopOk(Do(s, a).threads[a.t])
  {
    assert LocalOk(s, a.t, s.threads[a.t]);
  }

  lemma OwnOwns(s: State, a: Action)
    requires Inv(s) && Enabled(s, a)
    ensures a.t in Do(s, a).threads && OwnOk(Do(s, a), a.t, Do(s, a).threads[a.t])
  {
    assert LocalOk(s, a.t, s.threads[a.t]);
  }

  lemma OwnHolds(s: State, a: Action)
    requires Inv(s) && Enabled(s, a)
    ensures a.t in Do(s, a).threads && (Holds(Do(s, a).threads[a.t]) <==> a.t in Do(s, a).lock)
  {
    assert LocalOk(s, a.t, s.threads[a.t]);
  }

  // ---------------------------------------------------------------- the rest of the state

  /** A slot that stays as it was, of a thread whose entry in that table stays. */
  lemma SlotSame(s: State, s': State, j: nat, i: nat)
    requires j < |s.tables| && i < |s.tables[j]| && SlotOk(s, j, i)
    requires j < |s'.tables| && |s'.tables[j]| == |s.tables[j]| && s'.tables[j][i] == s.tables[j][i]
    requires var slot := s.tables[j][i]; slot.Used? && slot.owner in s.threads && j in s.threads[slot.owner].at ==>
      && slot.owner in s'.threads && j in s'.threads[slot.owner].at
      && s'.threads[slot.owner].at[j] == s.threads[slot.owner].at[j]
    ensures SlotOk(s', j, i)
  {
  }

  /** The id put into a table. */
  lemma SlotPlaced(s: State, a: Action, j: nat, i: nat)
    requires Inv(s) && Enabled(s, a) && a.Run? && (s.threads[a.t].pc.Migrate? || s.threads[a.t].pc.Place?)
    requires j < |s.tables| && i < |s.tables[j]| && j < |Do(s, a).tables| && i < |Do(s, a).tables[j]|
    ensures SlotOk(Do(s, a), j, i)
  {
    var t, s' := a.t, Do(s, a);
    var l := s.threads[t];
    assert LocalOk(s, t, l) && TableOk(s, j) && SlotOk(s, j, i);
    if j == l.pc.main && i == SlotOf(t, l.pc.probes, |s.tables[j]|) && !s.tables[j][i].Used? {
      OneTurn(t, l.pc.probes, 0, |s.tables[j]|);
    } else {
      assert s'.tables[j][i] == s.tables[j][i];
      SlotSame(s, s', j, i);
    }
  }

  /** The id taken out of a table. */
  lemma SlotLeft(s: State, a: Action, j: nat, i: nat)
    requires Inv(s) && Enabled(s, a) && a.Run? && s.threads[a.t].pc.Leave?
    requires j < |s.tables| && i < |s.tables[j]| && j < |Do(s, a).tables| && i < |Do(s, a).tables[j]|
    ensures SlotOk(Do(s, a), j, i)
  {
    var t, s' := a.t, Do(s, a);
    var l := s.threads[t];
    assert LocalOk(s, t, l) && TableOk(s, j) && SlotOk(s, j, i);
    if s'.tables[j][i] == s.tables[j][i] {
      if j == l.pc.table {
        assert SlotOk(s, j, SlotOf(t, l.pc.probes, |s.tables[j]|));
      }
      SlotSame(s, s', j, i);
    }
  }

  /** Any other step leaves the tables and everybody's place in them as they are. */
  lemma SlotsKept(s: State, a: Action, j: nat, u: Thread)
    requires Inv(s) && Enabled(s, a) && j < |s.tables|
    requires !(a.Run? && (s.threads[a.t].pc.Migrate? || s.threads[a.t].pc.Place? || s.threads[a.t].pc.Leave?))
    ensures j < |Do(s, a).tables| && Do(s, a).tables[j] == s.tables[j]
    ensures u in s.threads ==> u in Do(s, a).threads && Do(s, a).threads[u].at == s.threads[u].at
  {
    hide TopOk, AtOk, OwnOk, Passed, TableOk, Alone, Put;
    assert LocalOk(s, a.t, s.threads[a.t]);
  }

  lemma SlotStep(s: State, a: Action, j: nat, i: nat)
    requires Inv(s) && Enabled(s, a) && j < |s.tables| && i < |s.tables[j]|
    requires j < |Do(s, a).tables| && i < |Do(s, a).tables[j]|
    ensures SlotOk(Do(s, a), j, i)
  {
    hide Do, LocalOk;
    assert TableOk(s, j) && SlotOk(s, j, i);
    if a.Run? && (s.threads[a.t].pc.Migrate? || s.threads[a.t].pc.Place?) {
      SlotPlaced(s, a, j, i);
    } else if a.Run? && s.threads[a.t].pc.Leave? {
      SlotLeft(s, a, j, i);
    } else {
      var slot := s.tables[j][i];
      SlotsKept(s, a, j, if slot.Used? then slot.owner else a.t);
      SlotSame(s, Do(s, a), j, i);
    }
  }

  lemma TableStep(s: State, a: Action, j: nat)
    requires Inv(s) && Enabled(s, a) && j < |Do(s, a).tables|
    ensures TableOk(Do(s, a), j)
  {
    var s' := Do(s, a);
    TablesLater(s, a);
    assert LocalOk(s, a.t, s.threads[a.t]);
    if j < |s.tables| {
      assert TableOk(s, j);
      assert Later(s.tables[j], s'.tables[j], a.t);
      forall i | 0 <= i < |s'.tables[j]|
        ensures SlotOk(s', j, i)
      {
        SlotStep(s, a, j, i);
      }
    }
  }

  /** A step is one of its own thread only, and gives away no producer that another owns. */
  lemma OtherFrame(s: State, a: Action, u: Thread)
    requires Inv(s) && Enabled(s, a) && u in s.threads && u != a.t
    ensures u in Do(s, a).threads && Do(s, a).threads[u] == s.threads[u] && OwnOk(Do(s, a), u, s.threads[u])
  {
    assert LocalOk(s, u, s.threads[u]) && LocalOk(s, a.t, s.threads[a.t]) && Alone(s, a.t, u);
  }

  lemma OtherStep(s: State, a: Action, u: Thread)
    requires Inv(s) && Enabled(s, a) && u in s.threads && u != a.t
    ensures u in Do(s, a).threads && LocalOk(Do(s, a), u, Do(s, a).threads[u])
  {
    hide Do, PcOk, AtOk, OwnOk, AllLater, Enabled;
    assert LocalOk(s, u, s.threads[u]);
    TablesLater(s, a);
    LockStep(s, a, u);
    OtherFrame(s, a, u);
    PcLater(s, Do(s, a), a.t, u, s.threads[u]);
    AtLater(s, Do(s, a), a.t, u, s.threads[u]);
  }

  /** Only one thread holds the lock, and only that one makes tables. */
  lemma LockStep(s: State, a: Action, u: Thread)
    requires Inv(s) && Enabled(s, a) && u in s.threads && u != a.t
    ensures u in Do(s, a).lock <==> u in s.lock
    ensures |Do(s, a).lock| <= 1
    ensures s.threads[u].pc.Grow? ==> |Do(s, a).tables| == |s.tables|
  {
    var t := a.t;
    assert LocalOk(s, u, s.threads[u]) && LocalOk(s, t, s.threads[t]);
    TablesLater(s, a);
    if t in s.lock && u in s.lock {
      assert {t, u} <= s.lock;
      Subsets({t, u}, s.lock);
    }
  }

  lemma Subsets(a: set<Thread>, b: set<Thread>)
    requires a <= b
    ensures |a| <= |b|
  {
    assert b == a + (b - a);
  }

  lemma AloneStep(s: State, a: Action, t: Thread, u: Thread)
    requires Inv(s) && Enabled(s, a)
    ensures Alone(Do(s, a), t, u)
  {
    assert Alone(s, t, u) && Alone(s, u, t);
    OwnsStep(s, a);
    if t in s.threads && u in s.threads && t != u {
      assert LocalOk(s, t, s.threads[t]) && LocalOk(s, u, s.threads[u]);
    }
  }

  /** A thread gets only a producer that nobody owns. */
  lemma OwnsStep(s: State, a: Action)
    requires Inv(s) && Enabled(s, a)
    ensures var s', owns := Do(s, a), s.threads[a.t].owns;
            && s'.threads == s.threads[a.t := s'.threads[a.t]]
            && var owns' := s'.threads[a.t].owns;
               owns' == owns || owns'.None? || owns'.value in s.inactive || owns'.value == s.made
  {
    assert LocalOk(s, a.t, s.threads[a.t]);
  }

  lemma ThreadsStay(s: State, a: Action)
    requires Inv(s) && Enabled(s, a)
    ensures Do(s, a).threads.Keys == s.threads.Keys && Do(s, a).tables != []
  {
    TablesLater(s, a);
  }

  lemma InvStep(s: State, a: Action)
    requires Inv(s) && Enabled(s, a)
    ensures Inv(Do(s, a))
  {
    hide Do, TableOk, Alone, PcOk, AtOk, TopOk, OwnOk, Holds;
    var s' := Do(s, a);
    ThreadsStay(s, a);
    forall j | 0 <= j < |s'.tables|
      ensures TableOk(s', j)
    {
      TableStep(s, a, j);
    }
    forall t | t in s'.threads
      ensures LocalOk(s', t, s'.threads[t])
    {
      if t == a.t {
        OwnPc(s, a);
        OwnAt(s, a);
        OwnTop(s, a);
        OwnOwns(s, a);
        OwnHolds(s, a);
      } else {
        OtherStep(s, a, t);
      }
    }
    forall t, u
      ensures Alone(s', t, u)
    {
      AloneStep(s, a, t, u);
    }
    RestStep(s, a);
  }

  lemma RestStep(s: State, a: Action)
    requires Inv(s) && Enabled(s, a)
    ensures |Do(s, a).lock| <= 1
    ensures forall p :: p in Do(s, a).inactive ==> p < Do(s, a).made
  {
    assert LocalOk(s, a.t, s.threads[a.t]);
  }

  lemma InvInit(s: State)
    requires Init(s)
    ensures Inv(s)
  {
    forall t | t in s.threads
      ensures LocalOk(s, t, s.threads[t])
    {
    }
  }

  lemma {:induction false} RunInv(run: seq<State>, actions: seq<Action>)
    requires IsRun(run, actions)
    ensures Inv(run[|actions|])
    decreases |actions|
  {
    var n := |actions|;
    if n == 0 {
      InvInit(run[0]);
    } else {
      RunInv(run[..n], actions[..n - 1]);
      assert run[..n][n - 1] == run[n - 1];
      InvStep(run[n - 1], actions[n - 1]);
    }
  }

  // ---------------------------------------------------------------- who gets which producer

  /** Whenever a call has returned to a thread that owns a producer, it has returned that one; no other
      thread owns it, and it is not up for recycling. */
  lemma OwnProducer(run: seq<State>, actions: seq<Action>, t: Thread, u: Thread)
    requires IsRun(run, actions)
    ensures var s := run[|actions|];
      t in s.threads && s.threads[t].owns.Some? ==>
        && (s.threads[t].pc.Idle? ==> s.threads[t].got == s.threads[t].owns)
        && s.threads[t].owns.value !in s.inactive
        && (u in s.threads && u != t ==> s.threads[u].owns != s.threads[t].owns)
  {
    RunInv(run, actions);
    var s := run[|actions|];
    assert Alone(s, t, u);
    assert t in s.threads ==> LocalOk(s, t, s.threads[t]);
  }

  /** A thread keeps the producer it was first given, in every step until the end of its exit. */
  lemma OwnershipLasts(run: seq<State>, actions: seq<Action>, a: Action, t: Thread)
    requires IsRun(run, actions) && Enabled(run[|actions|], a)
    requires t in run[|actions|].threads && run[|actions|].threads[t].owns.Some?
    ensures t in Do(run[|actions|], a).threads
    ensures Do(run[|actions|], a).threads[t].owns == run[|actions|].threads[t].owns
         || (a.t == t && run[|actions|].threads[t].pc.Retire?)
  {
    hide Do;
    RunInv(run, actions);
    if a.t == t {
      OwnsLast(run[|actions|], a);
    } else {
      OtherFrame(run[|actions|], a, t);
    }
  }

  lemma OwnsLast(s: State, a: Action)
    requires Inv(s) && Enabled(s, a) && s.threads[a.t].owns.Some?
    ensures a.t in Do(s, a).threads && (Do(s, a).threads[a.t].owns == s.threads[a.t].owns || s.threads[a.t].pc.Retire?)
  {
    assert LocalOk(s, a.t, s.threads[a.t]);
  }

  /** In no table is there an id of a thread that has no producer, and none has an id twice. */
  lemma OneEntryEach(run: seq<State>, actions: seq<Action>, j: nat, i: nat, k: nat)
    requires IsRun(run, actions)
    ensures var s := run[|actions|];
      j < |s.tables| && i < |s.tables[j]| && k < |s.tables[j]| && s.tables[j][i].Used? ==>
        && var t := s.tables[j][i].owner;
        && t in s.threads && s.threads[t].owns == Some(s.tables[j][i].producer)
        && (s.tables[j][k].Used? && s.tables[j][k].owner == t ==> i == k)
  {
    RunInv(run, actions);
    var s := run[|actions|];
    if j < |s.tables| && i < |s.tables[j]| && k < |s.tables[j]| && s.tables[j][i].Used? {
      var t := s.tables[j][i].owner;
      assert TableOk(s, j) && SlotOk(s, j, i) && SlotOk(s, j, k);
      assert LocalOk(s, t, s.threads[t]);
      assert LodgedIn(s, t, s.threads[t], j);
    }
  }
}
