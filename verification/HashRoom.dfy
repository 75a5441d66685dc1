/**
 Room in the tables of the producer hash. One counter, `implicitProducerHashCount`, is meant to bound what
 every table has or must still take in: its slots in use, the ids that only older tables have, and the
 threads on their way to insert one. It does, until a thread with an outdated `mainHash` reuses a tombstone
 of an older table: the counter goes down for a slot that a newer table has yet to find.
 (shared/queue_internal/concurrentqueue.h:3412-3443, 3452-3531)
 */
module HashRoom {
  import opened Counting
  import opened ProducerHash
  import Indices

  // ---------------------------------------------------------------- counting slots

  ghost function Tally(table: Table, weight: Slot -> nat): nat {
    if table == [] then 0 else Tally(table[..|table| - 1], weight) + weight(table[|table| - 1])
  }

  lemma {:induction false} TallyUpdate(table: Table, weight: Slot -> nat, i: nat, slot: Slot)
    requires i < |table|
    ensures Tally(table[i := slot], weight) + weight(table[i]) == Tally(table, weight) + weight(slot)
  {
    var n := |table| - 1;
    var table' := table[i := slot];
    if i == n {
      assert table'[..n] == table[..n];
    } else {
      assert table'[..n] == table[..n][i := slot];
      TallyUpdate(table[..n], weight, i, slot);
    }
  }

  lemma {:induction false} TallyFull(table: Table, weight: Slot -> nat)
    requires forall i :: 0 <= i < |table| ==> weight(table[i]) >= 1
    ensures Tally(table, weight) >= |table|
  {
    if table != [] {
      TallyFull(table[..|table| - 1], weight);
    }
  }

  lemma {:induction false} TallyLess(table: Table, low: Slot -> nat, high: Slot -> nat)
    requires forall slot :: low(slot) <= high(slot)
    ensures Tally(table, low) <= Tally(table, high)
  {
    if table != [] {
      TallyLess(table[..|table| - 1], low, high);
    }
  }

  lemma {:induction false} TallyBlank(n: nat, weight: Slot -> nat)
    requires weight(Empty) == 0
    ensures Tally(Blank(n), weight) == 0
  {
    if n > 0 {
      assert Blank(n)[..n - 1] == Blank(n - 1);
      TallyBlank(n - 1, weight);
    }
  }

  ghost function NotEmpty(): Slot -> nat { (slot: Slot) => if slot.Empty? then 0 else 1 }

  ghost function Taken(): Slot -> nat { (slot: Slot) => if slot.Used? then 1 else 0 }

  // ---------------------------------------------------------------- counting threads

  /** Counted in `implicitProducerHashCount`, and neither inserted nor taken off again. */
  predicate InFlight(pc: Pc) {
    match pc
    case Check(_, _) => true
    case Locked(_) => true
    case Grow(_, _) => true
    case Unlock(_, _, failed) => !failed
    case Fit(_, _) => true
    case Refund => true
    case Place(_, _, _, _) => true
    case Credit => true
    case _ => false
  }

  /** May still insert, with a `newCount` below `x`. */
  predicate Below(pc: Pc, x: int) {
    match pc
    case Check(_, n) => n < x
    case Locked(n) => n < x
    case Grow(_, n) => n < x
    case Unlock(_, n, failed) => !failed && n < x
    case Fit(_, n) => n < x
    case Place(_, _, n, _) => n < x
    case _ => false
  }

  /** Settled, but not yet in table `j` or a newer one. */
  predicate Unmigrated(l: Local, j: nat) { 0 <= l.top < j }

  ghost function Coming(j: nat): Local -> nat {
    (l: Local) => (if InFlight(l.pc) then 1 else 0) + if Unmigrated(l, j) then 1 else 0
  }

  ghost function ComingBelow(j: nat, x: int): Local -> nat {
    (l: Local) => (if Below(l.pc, x) then 1 else 0) + if Unmigrated(l, j) then 1 else 0
  }

  ghost function Present(j: nat): Local -> nat { (l: Local) => if j in l.at then 1 else 0 }

  lemma {:induction false} SumLess<K, V>(m: map<K, V>, low: V -> nat, high: V -> nat, more: V -> nat)
    requires forall k :: k in m ==> low(m[k]) <= high(m[k]) + more(m[k])
    ensures Sum(m, low) <= Sum(m, high) + Sum(m, more)
    decreases |m|
  {
    if m != map[] {
      var k :| k in m;
      SumSplit(m, low, k);
      SumSplit(m, high, k);
      SumSplit(m, more, k);
      SumLess(m - {k}, low, high, more);
    }
  }

  // ---------------------------------------------------------------- what the counter bounds

  /** Slots in use in table `j`, ids it has yet to take over, and threads that may come to insert. */
  ghost function Load(s: State, j: nat): nat
    requires j < |s.tables|
  {
    Tally(s.tables[j], NotEmpty()) + Sum(s.threads, Coming(j))
  }

  ghost function LoadBelow(s: State, j: nat, x: int): nat
    requires j < |s.tables|
  {
    Tally(s.tables[j], NotEmpty()) + Sum(s.threads, ComingBelow(j, x))
  }

  /** A thread reuses a tombstone of an older table than `j`. */
  predicate ReusesBefore(s: State, a: Action, j: nat)
    requires Enabled(s, a)
  {
    && a.Run? && s.threads[a.t].pc.Place?
    && var pc := s.threads[a.t].pc;
       pc.main < j && s.tables[pc.main][SlotOf(a.t, pc.probes, |s.tables[pc.main]|)].Tomb?
  }

  lemma ThreadStep(s: State, a: Action, weight: Local -> nat)
    requires Enabled(s, a)
    ensures var s' := Do(s, a);
            && a.t in s'.threads
            && Sum(s'.threads, weight) + weight(s.threads[a.t]) == Sum(s.threads, weight) + weight(s'.threads[a.t])
  {
    var s' := Do(s, a);
    assert s'.threads == s.threads[a.t := s'.threads[a.t]];
    SumUpdate(s.threads, weight, a.t, s'.threads[a.t]);
  }

  /** The thread puts its id into an empty slot of table `j`. */
  predicate FillsEmpty(s: State, a: Action, j: nat)
    requires Enabled(s, a)
  {
    && a.Run? && j < |s.tables|
    && var pc := s.threads[a.t].pc;
       (pc.Migrate? || pc.Place?) && pc.main == j && s.tables[j][SlotOf(a.t, pc.probes, |s.tables[j]|)].Empty?
  }

  /** Slots in use are never freed; one more is in use exactly after an id went into an empty one. */
  lemma TallyStep(s: State, a: Action, j: nat)
    requires Inv(s) && Enabled(s, a) && j < |s.tables| && j < |Do(s, a).tables|
    ensures Tally(Do(s, a).tables[j], NotEmpty()) == Tally(s.tables[j], NotEmpty()) + if FillsEmpty(s, a, j) then 1 else 0
  {
    var s', l := Do(s, a), s.threads[a.t];
    assert LocalOk(s, a.t, l) && TableOk(s, j);
    if a.Run? && (l.pc.Migrate? || l.pc.Place?) && l.pc.main == j {
      TallyUpdate(s.tables[j], NotEmpty(), SlotOf(a.t, l.pc.probes, |s.tables[j]|), Used(a.t, l.pc.producer));
    } else if a.Run? && l.pc.Leave? && l.pc.table == j {
      TallyUpdate(s.tables[j], NotEmpty(), SlotOf(a.t, l.pc.probes, |s.tables[j]|), Tomb);
    }
  }

  /** What a step does to the part of its own thread, the counter, and the slots in use together. */
  lemma OwnComing(s: State, a: Action, j: nat)
    requires Enabled(s, a) && LocalOk(s, a.t, s.threads[a.t]) && j < |s.tables|
    ensures var change := Coming(j)(Do(s, a).threads[a.t]) - Coming(j)(s.threads[a.t]) + if FillsEmpty(s, a, j) then 1 else 0;
            if ReusesBefore(s, a, j) then change == Do(s, a).count - s.count + 1
            else change <= Do(s, a).count - s.count
  {
    hide AtOk, OwnOk, Passed;
  }

  /** The margin between the counter and what it is to bound shrinks in exactly one kind of step: a
      tombstone reused in an older table, which costs one. */
  lemma MarginStep(s: State, a: Action, j: nat)
    requires Inv(s) && Enabled(s, a) && j < |s.tables| && j < |Do(s, a).tables|
    ensures Do(s, a).count - Load(Do(s, a), j) < s.count - Load(s, j) <==> ReusesBefore(s, a, j)
    ensures Do(s, a).count - Load(Do(s, a), j) >= s.count - Load(s, j) - 1
  {
    assert LocalOk(s, a.t, s.threads[a.t]);
    TallyStep(s, a, j);
    ThreadStep(s, a, Coming(j));
    OwnComing(s, a, j);
  }

  // ---------------------------------------------------------------- room in every table

  /** What `newCount` stays below in a thread that puts its id into the table. */
  function Bound(table: Table): nat { if Quota(table) > 1 then Quota(table) else 1 }

  /** The bounds on table `j` when tombstones of older tables were reused `r` times. */
  ghost predicate TableRoom(s: State, j: nat, r: nat)
    requires j < |s.tables|
  {
    && Load(s, j) <= s.count + r
    && Sum(s.threads, Present(j)) <= Tally(s.tables[j], Taken())
    && forall x: int :: x >= Bound(s.tables[j]) ==> LoadBelow(s, j, x) < x + r
  }

  ghost predicate Growing(s: State) {
    forall i, j :: 0 <= i <= j < |s.tables| ==> |s.tables[i]| <= |s.tables[j]|
  }

  lemma BelowIsComing(s: State, j: nat, x: int)
    requires j < |s.tables|
    ensures LoadBelow(s, j, x) <= Load(s, j)
  {
    var none := (l: Local) => 0;
    SumLess(s.threads, ComingBelow(j, x), Coming(j), none);
    SumZero(s.threads, none);
  }

  lemma OwnBelow(s: State, a: Action, j: nat, x: int)
    requires Enabled(s, a) && LocalOk(s, a.t, s.threads[a.t]) && j < |s.tables|
    requires a.Run? && s.threads[a.t].pc.Place? && s.threads[a.t].pc.main <= j ==> s.threads[a.t].pc.n < x
    ensures var l := s.threads[a.t];
            ComingBelow(j, x)(Do(s, a).threads[a.t]) + (if FillsEmpty(s, a, j) then 1 else 0)
              <= ComingBelow(j, x)(l) + if a.Run? && l.pc.Count? && s.count + 1 < x then 1 else 0
  {
  }

  /** The quota keeps `newCount` low in a thread about to insert into this table or an older one. */
  lemma PlaceBelow(s: State, a: Action, j: nat, x: int)
    requires Inv(s) && Enabled(s, a) && Growing(s) && j < |s.tables| && x >= Bound(s.tables[j])
    ensures a.Run? && s.threads[a.t].pc.Place? && s.threads[a.t].pc.main <= j ==> s.threads[a.t].pc.n < x
  {
    var l := s.threads[a.t];
    assert LocalOk(s, a.t, l);
    if a.Run? && l.pc.Place? && l.pc.main <= j {
      assert |s.tables[l.pc.main]| <= |s.tables[j]|;
    }
  }

  /** Threads with a low `newCount` only insert, or give up; a new one gets a `newCount` above all loads. */
  lemma BelowStep(s: State, a: Action, j: nat, x: int, r: nat)
    requires Inv(s) && Enabled(s, a) && Growing(s) && j < |s.tables| && j < |Do(s, a).tables|
    requires Load(s, j) <= s.count + r && LoadBelow(s, j, x) < x + r && x >= Bound(s.tables[j])
    ensures LoadBelow(Do(s, a), j, x) < x + r
  {
    assert LocalOk(s, a.t, s.threads[a.t]);
    TallyStep(s, a, j);
    ThreadStep(s, a, ComingBelow(j, x));
    PlaceBelow(s, a, j, x);
    OwnBelow(s, a, j, x);
    BelowIsComing(s, j, x);
  }

  /** The slots taken after a step: one more where an id was put, one less where one was buried. */
  lemma TakenStep(s: State, a: Action, j: nat)
    requires Inv(s) && Enabled(s, a) && j < |s.tables| && j < |Do(s, a).tables|
    ensures var l := s.threads[a.t];
            var before, after := Tally(s.tables[j], Taken()), Tally(Do(s, a).tables[j], Taken());
            if a.Run? && (l.pc.Migrate? || l.pc.Place?) && l.pc.main == j then
              after == before + if s.tables[j][SlotOf(a.t, l.pc.probes, |s.tables[j]|)].Used? then 0 else 1
            else if a.Run? && l.pc.Leave? && l.pc.table == j then
              var slot := s.tables[j][SlotOf(a.t, l.pc.probes, |s.tables[j]|)];
              after == before - if slot.Used? && slot.owner == a.t then 1 else 0
            else after == before
  {
    var l := s.threads[a.t];
    assert LocalOk(s, a.t, l) && TableOk(s, j);
    if a.Run? && (l.pc.Migrate? || l.pc.Place?) && l.pc.main == j {
      TallyUpdate(s.tables[j], Taken(), SlotOf(a.t, l.pc.probes, |s.tables[j]|), Used(a.t, l.pc.producer));
    } else if a.Run? && l.pc.Leave? && l.pc.table == j {
      TallyUpdate(s.tables[j], Taken(), SlotOf(a.t, l.pc.probes, |s.tables[j]|), Tomb);
    }
  }

  /** What the step does to its own thread's entry in table `j`. */
  lemma OwnPresent(s: State, a: Action, j: nat)
    requires Inv(s) && Enabled(s, a) && j < |s.tables|
    ensures var l := s.threads[a.t];
            var before, after := Present(j)(l), Present(j)(Do(s, a).threads[a.t]);
            if a.Run? && (l.pc.Migrate? || l.pc.Place?) && l.pc.main == j then
              after <= before + if s.tables[j][SlotOf(a.t, l.pc.probes, |s.tables[j]|)].Used? then 0 else 1
            else if a.Run? && l.pc.Leave? && l.pc.table == j then
              var slot := s.tables[j][SlotOf(a.t, l.pc.probes, |s.tables[j]|)];
              after == before - if slot.Used? && slot.owner == a.t then 1 else 0
            else after == before
  {
    var l := s.threads[a.t];
    assert LocalOk(s, a.t, l) && TableOk(s, j);
    if a.Run? && l.pc.Leave? && l.pc.table == j {
      var slot := s.tables[j][SlotOf(a.t, l.pc.probes, |s.tables[j]|)];
      if slot.Used? && slot.owner == a.t {
        FoundOwn(s, a.t, l, j, l.pc.probes);
      }
    }
  }

  /** An id's slot counts as taken as long as the id is in it. */
  lemma PresentStep(s: State, a: Action, j: nat)
    requires Inv(s) && Enabled(s, a) && j < |s.tables| && j < |Do(s, a).tables|
    requires Sum(s.threads, Present(j)) <= Tally(s.tables[j], Taken())
    ensures Sum(Do(s, a).threads, Present(j)) <= Tally(Do(s, a).tables[j], Taken())
  {
    ThreadStep(s, a, Present(j));
    TakenStep(s, a, j);
    OwnPresent(s, a, j);
  }

  /** A step keeps the bounds on a table it finds; a tombstone reused in an older one loosens them by one. */
  lemma RoomStep(s: State, a: Action, j: nat, r: nat)
    requires Inv(s) && Growing(s) && Enabled(s, a) && j < |s.tables| && TableRoom(s, j, r)
    ensures j < |Do(s, a).tables| && TableRoom(Do(s, a), j, r + if ReusesBefore(s, a, j) then 1 else 0)
  {
    var s' := Do(s, a);
    TablesLater(s, a);
    assert Later(s.tables[j], s'.tables[j], a.t);
    MarginStep(s, a, j);
    PresentStep(s, a, j);
    forall x: int | x >= Bound(s'.tables[j])
      ensures LoadBelow(s', j, x) < x + r
    {
      assert LoadBelow(s, j, x) < x + r;
      BelowStep(s, a, j, x, r);
    }
  }

  /** What a new table may have to take in, the one before it has or may have to take in. */
  lemma NewLoad(s: State, m: nat, low: Local -> nat, high: Local -> nat)
    requires m < |s.tables| && Sum(s.threads, Present(m)) <= Tally(s.tables[m], Taken())
    requires forall t :: t in s.threads ==> low(s.threads[t]) <= high(s.threads[t]) + Present(m)(s.threads[t])
    ensures Sum(s.threads, low) <= Tally(s.tables[m], NotEmpty()) + Sum(s.threads, high)
  {
    SumLess(s.threads, low, high, Present(m));
    TallyLess(s.tables[m], Taken(), NotEmpty());
  }

  /** A new table starts with the bounds of the one before it. */
  lemma NewTableStep(s: State, a: Action, r: nat)
    requires Inv(s) && Enabled(s, a) && |Do(s, a).tables| > |s.tables| && Inv(Do(s, a))
    requires |s.tables| > 0 && TableRoom(Do(s, a), Last(s), r)
    ensures |Do(s, a).tables| == |s.tables| + 1 && TableRoom(Do(s, a), |s.tables|, r)
  {
    hide Inv, Do;
    var s', m := Do(s, a), Last(s);
    NewTable(s, a);
    TallyBlank(|s'.tables[m + 1]|, NotEmpty());
    TallyBlank(|s'.tables[m + 1]|, Taken());
    NobodyYet(s', m + 1);
    NewCount(s', m);
    var last := |s.tables|;
    forall x: int | x >= Bound(s'.tables[last])
      ensures LoadBelow(s', last, x) < x + r
    {
      NewCountBelow(s', m, x);
      assert LoadBelow(s', m, x) < x + r;
    }
  }

  lemma NewTable(s: State, a: Action)
    requires Inv(s) && Enabled(s, a) && |Do(s, a).tables| > |s.tables| > 0
    ensures var s', m := Do(s, a), Last(s);
            && s'.tables == s.tables + [s'.tables[m + 1]] && a.Run? && s.threads[a.t].pc.Grow?
            && s'.tables[m + 1] == Blank(|s'.tables[m + 1]|) && |s'.tables[m + 1]| >= |s.tables[m]|
  {
    assert LocalOk(s, a.t, s.threads[a.t]);
  }

  lemma GrowingStep(s: State, a: Action)
    requires Inv(s) && Growing(s) && Enabled(s, a)
    ensures Growing(Do(s, a))
  {
    var s' := Do(s, a);
    TablesLater(s, a);
    forall i, j | 0 <= i <= j < |s'.tables|
      ensures |s'.tables[i]| <= |s'.tables[j]|
    {
      assert i < |s.tables| ==> Later(s.tables[i], s'.tables[i], a.t);
      assert j < |s.tables| ==> Later(s.tables[j], s'.tables[j], a.t);
      if j >= |s.tables| {
        NewTable(s, a);
      }
    }
  }

  lemma NotLodged(s: State, t: Thread, j: nat)
    requires t in s.threads && AtOk(s, t, s.threads[t]) && j < |s.tables| && s.tables[j] == Blank(|s.tables[j]|)
    ensures j !in s.threads[t].at
  {
    assert forall i: nat :: i in s.threads[t].at ==> LodgedIn(s, t, s.threads[t], i);
  }

  lemma NobodyYet(s: State, j: nat)
    requires Inv(s) && j < |s.tables| && s.tables[j] == Blank(|s.tables[j]|)
    ensures Sum(s.threads, Present(j)) == 0
  {
    forall t | t in s.threads
      ensures Present(j)(s.threads[t]) == 0
    {
      assert LocalOk(s, t, s.threads[t]);
      NotLodged(s, t, j);
    }
    SumZero(s.threads, Present(j));
  }

  lemma NewCount(s: State, m: nat)
    requires Inv(s) && m < |s.tables| && Sum(s.threads, Present(m)) <= Tally(s.tables[m], Taken())
    ensures Sum(s.threads, Coming(m + 1)) <= Tally(s.tables[m], NotEmpty()) + Sum(s.threads, Coming(m))
  {
    forall t | t in s.threads
      ensures Coming(m + 1)(s.threads[t]) <= Coming(m)(s.threads[t]) + Present(m)(s.threads[t])
    {
      assert LocalOk(s, t, s.threads[t]);
    }
    NewLoad(s, m, Coming(m + 1), Coming(m));
  }

  lemma NewCountBelow(s: State, m: nat, x: int)
    requires Inv(s) && m < |s.tables| && Sum(s.threads, Present(m)) <= Tally(s.tables[m], Taken())
    ensures Sum(s.threads, ComingBelow(m + 1, x)) <= Tally(s.tables[m], NotEmpty()) + Sum(s.threads, ComingBelow(m, x))
  {
    forall t | t in s.threads
      ensures ComingBelow(m + 1, x)(s.threads[t]) <= ComingBelow(m, x)(s.threads[t]) + Present(m)(s.threads[t])
    {
      assert LocalOk(s, t, s.threads[t]);
    }
    NewLoad(s, m, ComingBelow(m + 1, x), ComingBelow(m, x));
  }

  lemma RoomInit(s: State)
    requires Init(s)
    ensures Growing(s) && TableRoom(s, 0, 0)
  {
    TallyBlank(|s.tables[0]|, NotEmpty());
    TallyBlank(|s.tables[0]|, Taken());
    SumZero(s.threads, Coming(0));
    SumZero(s.threads, Present(0));
    forall x: int | x >= Bound(s.tables[0])
      ensures LoadBelow(s, 0, x) < x
    {
      SumZero(s.threads, ComingBelow(0, x));
    }
  }

  // ---------------------------------------------------------------- runs

  /** A thread with an outdated `mainHash` reuses a tombstone that table `j`, or the newest one while
      there is no table `j`, does not have. */
  predicate Outdated(s: State, a: Action, j: nat)
    requires Enabled(s, a)
  {
    ReusesBefore(s, a, if j < |s.tables| then j else |s.tables| - 1)
  }

  /** How many steps of the run were such reuses. */
  ghost function Reuses(run: seq<State>, actions: seq<Action>, j: nat): nat
    requires IsRun(run, actions)
    decreases |actions|
  {
    var n := |actions|;
    if n == 0 then 0
    else Reuses(run[..n], actions[..n - 1], j) + if Outdated(run[n - 1], actions[n - 1], j) then 1 else 0
  }

  /** A run without its last step. */
  lemma Shorter(run: seq<State>, actions: seq<Action>)
    requires IsRun(run, actions) && actions != []
    ensures var n := |actions|; IsRun(run[..n], actions[..n - 1]) && run[..n][n - 1] == run[n - 1]
  {
  }

  /** No table has had a part in its own history before it was there. */
  lemma {:induction false} ReusesBeforeTable(run: seq<State>, actions: seq<Action>, j: nat)
    requires IsRun(run, actions) && |run[|actions|].tables| <= j + 1
    ensures Reuses(run, actions, j + 1) == Reuses(run, actions, j)
    decreases |actions|
  {
    var n := |actions|;
    if n > 0 {
      Shorter(run, actions);
      RunInv(run[..n], actions[..n - 1]);
      TablesLater(run[n - 1], actions[n - 1]);
      ReusesBeforeTable(run[..n], actions[..n - 1], j);
    }
  }

  lemma {:induction false} RunGrowing(run: seq<State>, actions: seq<Action>)
    requires IsRun(run, actions)
    ensures Inv(run[|actions|]) && Growing(run[|actions|])
    decreases |actions|
  {
    var n := |actions|;
    RunInv(run, actions);
    if n == 0 {
      RoomInit(run[0]);
    } else {
      Shorter(run, actions);
      RunGrowing(run[..n], actions[..n - 1]);
      GrowingStep(run[n - 1], actions[n - 1]);
    }
  }

  lemma {:induction false} RunRoom(run: seq<State>, actions: seq<Action>, j: nat)
    requires IsRun(run, actions) && j < |run[|actions|].tables|
    ensures TableRoom(run[|actions|], j, Reuses(run, actions, j))
    decreases |actions|, j
  {
    hide TableRoom, Inv, Growing, Do, Enabled;
    var n := |actions|;
    if n == 0 {
      RoomInit(run[0]);
    } else {
      var s, a := run[n - 1], actions[n - 1];
      Shorter(run, actions);
      RunGrowing(run[..n], actions[..n - 1]);
      if j < |s.tables| {
        RunRoom(run[..n], actions[..n - 1], j);
        RoomStep(s, a, j, Reuses(run[..n], actions[..n - 1], j));
      } else {
        RunInv(run, actions);
        HasTables(s);
        NewTable(s, a);
        RunRoom(run, actions, j - 1);
        SameReuses(run, actions, j - 1);
        NewTableStep(s, a, Reuses(run, actions, j));
      }
    }
  }

  lemma HasTables(s: State)
    requires Inv(s)
    ensures |s.tables| > 0
  {
  }

  /** The step that makes a table reuses nothing. */
  lemma SameReuses(run: seq<State>, actions: seq<Action>, j: nat)
    requires IsRun(run, actions) && actions != [] && |run[|actions| - 1].tables| == j + 1
    requires var s, a := run[|actions| - 1], actions[|actions| - 1]; a.Run? && s.threads[a.t].pc.Grow?
    ensures Reuses(run, actions, j) == Reuses(run, actions, j + 1)
  {
    var n := |actions|;
    Shorter(run, actions);
    ReusesBeforeTable(run[..n], actions[..n - 1], j);
  }

  // ---------------------------------------------------------------- main results

  /** In every run, for every table: the counter falls behind what the table has and has yet to take in by at
      most one for each tombstone reused in an older table, and the slots in use exceed what the quota
      of three quarters allows by at most as many. */
  lemma RoomForAll(run: seq<State>, actions: seq<Action>, j: nat)
    requires IsRun(run, actions)
    ensures var s := run[|actions|]; j < |s.tables| ==>
      && Load(s, j) <= s.count + Reuses(run, actions, j)
      && Tally(s.tables[j], NotEmpty()) < Bound(s.tables[j]) + Reuses(run, actions, j)
      && Bound(s.tables[j]) <= |s.tables[j]|
  {
    RunInv(run, actions);
    var s := run[|actions|];
    if j < |s.tables| {
      RunRoom(run, actions, j);
      assert TableOk(s, j);
      var x: int := Bound(s.tables[j]);
      assert LoadBelow(s, j, x) < x + Reuses(run, actions, j);
    }
  }

  /** How many slots a thread has gone past in its current table. */
  function Probes(pc: Pc): nat {
    match pc
    case Find(_, _, k) => k
    case Migrate(_, _, k) => k
    case Place(_, _, _, k) => k
    case Leave(_, k) => k
    case _ => 0
  }

  function Probed(pc: Pc): nat {
    match pc
    case Find(_, j, _) => j
    case Migrate(main, _, _) => main
    case Place(main, _, _, _) => main
    case Leave(j, _) => j
    case _ => 0
  }

  lemma PassedAll(table: Table, t: Thread)
    requires Passed(table, t, |table|)
    ensures Tally(table, NotEmpty()) >= |table|
  {
    forall i | 0 <= i < |table|
      ensures NotEmpty()(table[i]) >= 1
    {
      var k := EveryOffset(t, i, |table|);
      assert PassedOne(table, t, k);
    }
    TallyFull(table, NotEmpty());
  }

  lemma EveryOffset(t: Thread, i: nat, capacity: nat) returns (k: nat)
    requires i < capacity
    ensures k < capacity && SlotOf(t, k, capacity) == i
  {
    var h := t.hash % capacity;
    k := if i >= h then i - h else i + capacity - h;
    Indices.SlotAhead(0, k, t.hash, capacity);
  }

  /** In every run, as long as no more tombstones of older tables were reused than the quota leaves free of
      a table, no thread gets once around that table: every probing loop in it ends. */
  lemma ProbingEnds(run: seq<State>, actions: seq<Action>, t: Thread)
    requires IsRun(run, actions)
    ensures var s := run[|actions|]; t in s.threads && Probed(s.threads[t].pc) < |s.tables| ==>
      var j := Probed(s.threads[t].pc);
      Reuses(run, actions, j) <= |s.tables[j]| - Bound(s.tables[j]) ==> Probes(s.threads[t].pc) < |s.tables[j]|
  {
    RunInv(run, actions);
    var s := run[|actions|];
    if t in s.threads && Probed(s.threads[t].pc) < |s.tables| {
      var pc, j := s.threads[t].pc, Probed(s.threads[t].pc);
      assert LocalOk(s, t, s.threads[t]) && TableOk(s, j);
      RoomForAll(run, actions, j);
      if Probes(pc) >= |s.tables[j]| {
        assert Passed(s.tables[j], t, |s.tables[j]|) by {
          forall k | 0 <= k < |s.tables[j]|
            ensures PassedOne(s.tables[j], t, k)
          {
          }
        }
        PassedAll(s.tables[j], t);
      }
    }
  }
}
