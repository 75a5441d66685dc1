/**
 The producer hash with one tombstone too many reused in an outdated table. `HashRoom.ProbingEnds` allows
 as many such reuses as the quota leaves slots free; here is a run, for every first table of sixteen slots or
 more, with one reuse more, at whose end the newest table is full. A thread that looks itself up then
 goes round that table for ever, whatever the others do.
 (shared/queue_internal/concurrentqueue.h:3412-3448, 3452-3531, 3550-3560)
 */
module HashTrap {
  import opened Basics
  import opened Counting
  import opened ProducerHash
  import opened HashRoom

  // ---------------------------------------------------------------- loops that look for an id

  /** The two loops that stop only at an empty slot or at the thread's own id. */
  predicate Looking(pc: Pc, j: nat) { (pc.Find? || pc.Leave?) && Probed(pc) == j }

  ghost predicate Continues(s: State, run: seq<State>, actions: seq<Action>) {
    && |run| == |actions| + 1 && run[0] == s
    && forall i :: 0 <= i < |actions| ==> Enabled(run[i], actions[i]) && run[i + 1] == Do(run[i], actions[i])
  }

  ghost predicate HasEmpty(table: Table) { exists i :: 0 <= i < |table| && table[i].Empty? }

  /** The thread looks through a table that has neither what would stop it. */
  ghost predicate Trapped(s: State, t: Thread, j: nat) {
    && t in s.threads && Looking(s.threads[t].pc, j) && j < |s.tables|
    && !HasEmpty(s.tables[j]) && j !in s.threads[t].at
  }

  lemma StaysFull(table: Table, table': Table, t: Thread)
    requires Later(table, table', t) && !HasEmpty(table)
    ensures !HasEmpty(table')
  {
    forall i | 0 <= i < |table'|
      ensures !table'[i].Empty?
    {
      assert SlotLater(table, table', t, i) && !table[i].Empty?;
    }
  }

  /** It looks on. */
  lemma LooksOn(s: State, a: Action, t: Thread, j: nat)
    requires Inv(s) && Enabled(s, a) && Trapped(s, t, j)
    ensures t in Do(s, a).threads && Looking(Do(s, a).threads[t].pc, j) && j !in Do(s, a).threads[t].at
  {
    var l := s.threads[t];
    if a.t == t && a.Run? {
      assert LocalOk(s, t, l) && TableOk(s, j);
      hide TopOk, AtOk, OwnOk, Passed, TableOk;
      var slot := s.tables[j][SlotOf(t, l.pc.probes, |s.tables[j]|)];
      assert !slot.Empty?;
      if slot.Used? && slot.owner == t {
        FoundOwn(s, t, l, j, l.pc.probes);
      }
    } else {
      hide Inv, HasEmpty;
    }
  }

  lemma TrappedStep(s: State, a: Action, t: Thread, j: nat)
    requires Inv(s) && Enabled(s, a) && Trapped(s, t, j)
    ensures Trapped(Do(s, a), t, j)
  {
    hide Do, Inv, Enabled, Later;
    LooksOn(s, a, t, j);
    TablesLater(s, a);
    assert Later(s.tables[j], Do(s, a).tables[j], a.t);
    StaysFull(s.tables[j], Do(s, a).tables[j], a.t);
  }

  lemma {:induction false} StaysTrapped(s: State, run: seq<State>, actions: seq<Action>, t: Thread, j: nat)
    requires Inv(s) && Trapped(s, t, j) && Continues(s, run, actions)
    ensures Inv(run[|actions|]) && Trapped(run[|actions|], t, j)
    decreases |actions|
  {
    var n := |actions|;
    if n > 0 {
      StaysTrapped(s, run[..n], actions[..n - 1], t, j);
      assert run[..n][n - 1] == run[n - 1];
      InvStep(run[n - 1], actions[n - 1]);
      TrappedStep(run[n - 1], actions[n - 1], t, j);
    }
  }

  lemma Ready(s: State, t: Thread, j: nat)
    requires Inv(s) && t in s.threads && Looking(s.threads[t].pc, j)
    ensures j < |s.tables| && Enabled(s, Run(t, Env(true, None)))
  {
    assert LocalOk(s, t, s.threads[t]);
    forall i | 0 <= i < |s.tables|
      ensures |s.tables[i]| > 0
    {
      assert TableOk(s, i);
    }
  }

  /** One step of such a loop. */
  lemma LookingStep(s: State, t: Thread, j: nat)
    requires InLoop(s, t, j) && Enabled(s, Run(t, Env(true, None)))
    ensures var s', k := Do(s, Run(t, Env(true, None))), Probes(s.threads[t].pc);
            if PassedOne(s.tables[j], t, k) then InLoop(s', t, j) && Probes(s'.threads[t].pc) == k + 1 && s'.tables == s.tables
            else t in s'.threads && !Looking(s'.threads[t].pc, j)
  {
  }

  predicate InLoop(s: State, t: Thread, j: nat) {
    t in s.threads && Looking(s.threads[t].pc, j) && j < |s.tables| && |s.tables[j]| > 0
  }

  lemma Prepend(s: State, a: Action, run: seq<State>, actions: seq<Action>)
    requires Enabled(s, a) && Continues(Do(s, a), run, actions)
    ensures Continues(s, [s] + run, [a] + actions) && ([s] + run)[|[a] + actions|] == run[|actions|]
  {
  }

  /** Run alone, the thread leaves the table once it comes to slot number `d`, where it stops. */
  lemma {:induction false} LeavesAlone(s: State, t: Thread, j: nat, d: nat) returns (run: seq<State>, actions: seq<Action>)
    requires Inv(s) && InLoop(s, t, j) && Probes(s.threads[t].pc) <= d && !PassedOne(s.tables[j], t, d)
    ensures Continues(s, run, actions) && t in run[|actions|].threads && !Looking(run[|actions|].threads[t].pc, j)
    decreases d - Probes(s.threads[t].pc)
  {
    hide Inv, Do;
    var a := Run(t, Env(true, None));
    Ready(s, t, j);
    LookingStep(s, t, j);
    var s' := Do(s, a);
    if PassedOne(s.tables[j], t, Probes(s.threads[t].pc)) {
      InvStep(s, a);
      run, actions := LeavesAlone(s', t, j, d);
      Prepend(s, a, run, actions);
      run, actions := [s] + run, [a] + actions;
    } else {
      run, actions := [s, s'], [a];
    }
  }

  /** In some continuation the thread is done with the table. */
  ghost predicate GetsThrough(s: State, t: Thread, j: nat) {
    exists run: seq<State>, actions: seq<Action> ::
      Continues(s, run, actions) && t in run[|actions|].threads && !Looking(run[|actions|].threads[t].pc, j)
  }

  /** The exact condition for a lookup, or an exit, to get through a table: there is an empty slot, or
      the thread's id. */
  lemma LookingEndsExactly(s: State, t: Thread, j: nat)
    requires Inv(s) && t in s.threads && Looking(s.threads[t].pc, j)
    ensures GetsThrough(s, t, j) <==> HasEmpty(s.tables[j]) || j in s.threads[t].at
  {
    var l := s.threads[t];
    assert LocalOk(s, t, l) && TableOk(s, j);
    var table := s.tables[j];
    if j in l.at {
      MeetsOwn(s, t, l, j, Probes(l.pc));
      assert LodgedIn(s, t, l, j);
      var run, actions := LeavesAlone(s, t, j, l.at[j]);
    } else if HasEmpty(table) {
      var i :| 0 <= i < |table| && table[i].Empty?;
      var d := EveryOffset(t, i, |table|);
      assert !PassedOne(table, t, d);
      var run, actions := LeavesAlone(s, t, j, d);
    } else {
      forall run: seq<State>, actions: seq<Action> | Continues(s, run, actions) && t in run[|actions|].threads
        ensures Looking(run[|actions|].threads[t].pc, j)
      {
        StaysTrapped(s, run, actions, t, j);
      }
    }
  }

  // ---------------------------------------------------------------- single steps

  /** `s` can be reached from `s0` with `r` tombstones reused before table 1. */
  ghost predicate Reach(s0: State, s: State, r: nat) {
    exists run, actions :: IsRun(run, actions) && run[0] == s0 && run[|actions|] == s && Reuses(run, actions, 1) == r
  }

  lemma TheRun(s0: State, s: State, r: nat) returns (run: seq<State>, actions: seq<Action>)
    requires Reach(s0, s, r)
    ensures IsRun(run, actions) && run[0] == s0 && run[|actions|] == s && Reuses(run, actions, 1) == r
  {
    run, actions :| IsRun(run, actions) && run[0] == s0 && run[|actions|] == s && Reuses(run, actions, 1) == r;
  }

  lemma Go(s0: State, s: State, r: nat, a: Action)
    requires Reach(s0, s, r) && Enabled(s, a)
    ensures Reach(s0, Do(s, a), r + if Outdated(s, a, 1) then 1 else 0)
  {
    var run, actions := TheRun(s0, s, r);
    var run', actions' := run + [Do(s, a)], actions + [a];
    assert run'[..|actions'|] == run && actions'[..|actions'| - 1] == actions;
    assert IsRun(run', actions') && run'[|actions'|] == Do(s, a);
  }

  const New: Env := Env(true, None)

  ghost predicate Sized(s: State) {
    && 1 <= |s.tables| <= 2 && forall j :: 0 <= j < |s.tables| ==> |s.tables[j]| > 0
  }

  /** The thread is there, and next to do `pc`. */
  ghost predicate Next(s0: State, s: State, r: nat, t: Thread, pc: Pc) {
    Reach(s0, s, r) && Sized(s) && t in s.threads && s.threads[t].pc == pc && InRange(s, pc)
  }

  /** The slot a thread tries first. */
  function Home(s: State, t: Thread, j: nat): Slot
    requires j < |s.tables| && |s.tables[j]| > 0
  {
    s.tables[j][SlotOf(t, 0, |s.tables[j]|)]
  }

  function PutHome(s: State, t: Thread, j: nat, slot: Slot): seq<Table>
    requires j < |s.tables| && |s.tables[j]| > 0
  {
    Put(s, j, SlotOf(t, 0, |s.tables[j]|), slot)
  }

  lemma Start(s0: State, s: State, r: nat, t: Thread)
    requires Next(s0, s, r, t, Idle)
    ensures Reach(s0, Goto(s, t, Find(Last(s), Last(s), 0)), r)
  {
    hide Reach;
    Go(s0, s, r, Call(t));
  }

  lemma SeeEmpty(s0: State, s: State, r: nat, t: Thread, main: nat, j: nat)
    requires Next(s0, s, r, t, Find(main, j, 0)) && Home(s, t, j).Empty?
    ensures Reach(s0, Goto(s, t, if j == 0 then Count(main) else Find(main, j - 1, 0)), r)
  {
    hide Reach;
    Go(s0, s, r, Run(t, New));
  }

  lemma SeeOther(s0: State, s: State, r: nat, t: Thread, main: nat, j: nat, k: nat)
    requires Next(s0, s, r, t, Find(main, j, k)) && PassedOne(s.tables[j], t, k)
    ensures Reach(s0, Goto(s, t, Find(main, j, k + 1)), r)
  {
    hide Reach;
    Go(s0, s, r, Run(t, New));
  }

  lemma SeeOwn(s0: State, s: State, r: nat, t: Thread, main: nat, j: nat, p: Producer)
    requires Next(s0, s, r, t, Find(main, j, 0)) && j < main && Home(s, t, j) == Used(t, p)
    ensures Reach(s0, Goto(s, t, Migrate(main, p, 0)), r)
  {
    hide Reach;
    Go(s0, s, r, Run(t, New));
  }

  lemma TakeOver(s0: State, s: State, r: nat, t: Thread, main: nat, p: Producer)
    requires Next(s0, s, r, t, Migrate(main, p, 0)) && !Home(s, t, main).Used?
    ensures var l := s.threads[t].(pc := Idle, got := Some(p), top := main, at := s.threads[t].at[main := 0]);
            Reach(s0, At(s, t, l).(tables := PutHome(s, t, main, Used(t, p))), r)
  {
    hide Reach;
    Go(s0, s, r, Run(t, New));
  }

  lemma BeCounted(s0: State, s: State, r: nat, t: Thread, main: nat)
    requires Next(s0, s, r, t, Count(main))
    ensures Reach(s0, Goto(s, t, Check(main, s.count + 1)).(count := s.count + 1), r)
  {
    hide Reach;
    Go(s0, s, r, Run(t, New));
  }

  lemma GoOn(s0: State, s: State, r: nat, t: Thread, main: nat, n: int)
    requires Next(s0, s, r, t, Check(main, n)) && (n < |s.tables[main]| / 2 || s.lock != {})
    ensures Reach(s0, Goto(s, t, Fit(main, n)), r)
  {
    hide Reach;
    Go(s0, s, r, Run(t, New));
  }

  lemma TakeLock(s0: State, s: State, r: nat, t: Thread, main: nat, n: int)
    requires Next(s0, s, r, t, Check(main, n)) && n >= |s.tables[main]| / 2 && s.lock == {}
    ensures Reach(s0, Goto(s, t, Locked(n)).(lock := {t}), r)
  {
    hide Reach;
    Go(s0, s, r, Run(t, New));
  }

  lemma SeeLast(s0: State, s: State, r: nat, t: Thread, n: int)
    requires Next(s0, s, r, t, Locked(n)) && n >= |s.tables[Last(s)]| / 2
    ensures Reach(s0, Goto(s, t, Grow(Last(s), n)), r)
  {
    hide Reach;
    Go(s0, s, r, Run(t, New));
  }

  lemma Double(s0: State, s: State, r: nat, t: Thread, n: int)
    requires Next(s0, s, r, t, Grow(0, n)) && |s.tables| == 1 && n < |s.tables[0]|
    ensures Reach(s0, Goto(s, t, Unlock(1, n, false)).(tables := s.tables + [Blank(2 * |s.tables[0]|)]), r)
  {
    hide Reach;
    Go(s0, s, r, Run(t, New));
    assert s.tables[..1] == s.tables;
  }

  lemma FailToGrow(s0: State, s: State, r: nat, t: Thread, main: nat, n: int)
    requires Next(s0, s, r, t, Grow(main, n))
    ensures Reach(s0, Goto(s, t, Unlock(main, n, true)).(count := s.count - 1), r)
  {
    hide Reach;
    Go(s0, s, r, Run(t, Env(false, None)));
  }

  lemma GiveLock(s0: State, s: State, r: nat, t: Thread, main: nat, n: int)
    requires Next(s0, s, r, t, Unlock(main, n, false))
    ensures Reach(s0, Goto(s, t, Fit(main, n)).(lock := {}), r)
  {
    hide Reach;
    Go(s0, s, r, Run(t, New));
  }

  lemma GetProducer(s0: State, s: State, r: nat, t: Thread, main: nat, n: int)
    requires Next(s0, s, r, t, Fit(main, n)) && n < Quota(s.tables[main])
    ensures var l := s.threads[t].(pc := Place(main, s.made, n, 0), owns := Some(s.made));
            Reach(s0, At(s, t, l).(made := s.made + 1), r)
  {
    hide Reach;
    Go(s0, s, r, Run(t, New));
  }

  lemma PutDown(s0: State, s: State, r: nat, t: Thread, main: nat, p: Producer, n: int)
    requires Next(s0, s, r, t, Place(main, p, n, 0)) && !Home(s, t, main).Used?
    ensures var reused := Home(s, t, main).Tomb?;
            var l := s.threads[t].(pc := if reused then Credit else Idle, got := Some(p), top := main, at := s.threads[t].at[main := 0]);
            Reach(s0, At(s, t, l).(tables := PutHome(s, t, main, Used(t, p))), r + if reused && main < Last(s) then 1 else 0)
  {
    hide Reach;
    Go(s0, s, r, Run(t, New));
  }

  lemma TakeOff(s0: State, s: State, r: nat, t: Thread)
    requires Next(s0, s, r, t, Credit)
    ensures Reach(s0, Goto(s, t, Idle).(count := s.count - 1), r)
  {
    hide Reach;
    Go(s0, s, r, Run(t, New));
  }

  lemma Bury(s0: State, s: State, r: nat, t: Thread, j: nat, p: Producer)
    requires Next(s0, s, r, t, Leave(j, 0)) && Home(s, t, j) == Used(t, p)
    ensures var l := s.threads[t].(pc := if j == 0 then Retire else Leave(j - 1, 0), at := s.threads[t].at - {j});
            Reach(s0, At(s, t, l).(tables := PutHome(s, t, j, Tomb)), r)
  {
    hide Reach;
    Go(s0, s, r, Run(t, New));
  }

  lemma BeginExit(s0: State, s: State, r: nat, t: Thread)
    requires Next(s0, s, r, t, Idle) && s.threads[t].owns.Some?
    ensures Reach(s0, At(s, t, s.threads[t].(pc := Leave(Last(s), 0), top := -1)), r)
  {
    hide Reach;
    Go(s0, s, r, Exit(t));
  }

  lemma EndExit(s0: State, s: State, r: nat, t: Thread, p: Producer)
    requires Next(s0, s, r, t, Retire) && s.threads[t].owns == Some(p)
    ensures Reach(s0, At(s, t, s.threads[t].(pc := Idle, got := None, owns := None)).(inactive := s.inactive + {p}), r)
  {
    hide Reach;
    Go(s0, s, r, Run(t, New));
  }

  // ---------------------------------------------------------------- walks of one thread

  /** Only the last local state matters. */
  lemma Again(s: State, t: Thread, l: Local, l': Local)
    ensures At(At(s, t, l), t, l') == At(s, t, l')
  {
    assert s.threads[t := l][t := l'] == s.threads[t := l'];
  }

  /** A thread without a producer. */
  function Bare(pc: Pc): Local { Local(pc, None, None, -1, map[]) }

  /** A thread whose id is in its home slot of the first table, and of the second if it has moved. */
  function Settled0(p: Producer): Local { Local(Idle, Some(p), Some(p), 0, map[0 := 0]) }

  function Settled1(p: Producer): Local { Local(Idle, Some(p), Some(p), 1, map[0 := 0, 1 := 0]) }

  /** A thread finds itself in no table. */
  lemma ComeFirst(s0: State, s: State, r: nat, t: Thread)
    requires Next(s0, s, r, t, Idle) && s.threads[t] == Bare(Idle) && |s.tables| == 1 && Home(s, t, 0).Empty?
    ensures Reach(s0, At(s, t, Bare(Count(0))), r)
  {
    hide Reach;
    Start(s0, s, r, t);
    var s1 := At(s, t, Bare(Find(0, 0, 0)));
    SeeEmpty(s0, s1, r, t, 0, 0);
    Again(s, t, s1.threads[t], Bare(Count(0)));
  }

  lemma ComeSecond(s0: State, s: State, r: nat, t: Thread)
    requires Next(s0, s, r, t, Idle) && s.threads[t] == Bare(Idle) && |s.tables| == 2 && Home(s, t, 0).Empty? && Home(s, t, 1).Empty?
    ensures Reach(s0, At(s, t, Bare(Count(1))), r)
  {
    hide Reach;
    Start(s0, s, r, t);
    var s1 := At(s, t, Bare(Find(1, 1, 0)));
    SeeEmpty(s0, s1, r, t, 1, 1);
    var s2 := At(s, t, Bare(Find(1, 0, 0)));
    Again(s, t, s1.threads[t], s2.threads[t]);
    SeeEmpty(s0, s2, r, t, 1, 0);
    Again(s, t, s2.threads[t], Bare(Count(1)));
  }

  /** After it was counted and was given a producer in its home slot of table `m`. */
  function Registered(s: State, t: Thread, m: nat): State
    requires m < |s.tables| && |s.tables[m]| > 0
  {
    At(s, t, Local(Idle, Some(s.made), Some(s.made), m, map[m := 0]))
      .(tables := PutHome(s, t, m, Used(t, s.made)), made := s.made + 1, count := if Home(s, t, m).Tomb? then s.count else s.count + 1)
  }

  lemma Register(s0: State, s: State, r: nat, t: Thread, m: nat)
    requires Next(s0, s, r, t, Count(m)) && s.threads[t] == Bare(Count(m))
    requires !Home(s, t, m).Used? && s.count + 1 < Quota(s.tables[m]) && (s.count + 1 < |s.tables[m]| / 2 || s.lock != {})
    ensures Reach(s0, Registered(s, t, m), r + if m < Last(s) && Home(s, t, m).Tomb? then 1 else 0)
  {
    hide Reach;
    var n := s.count + 1;
    BeCounted(s0, s, r, t, m);
    var c := s.(count := n);
    var s1 := At(c, t, Bare(Check(m, n)));
    GoOn(s0, s1, r, t, m, n);
    var s2 := At(c, t, Bare(Fit(m, n)));
    Again(c, t, s1.threads[t], s2.threads[t]);
    Settle(s0, s2, r, t, m, n);
    Again(c, t, s2.threads[t], Local(Idle, Some(s.made), Some(s.made), m, map[m := 0]));
  }

  /** The part from line 3494 on. */
  lemma Settle(s0: State, s: State, r: nat, t: Thread, m: nat, n: int)
    requires Next(s0, s, r, t, Fit(m, n)) && s.threads[t] == Bare(Fit(m, n)) && n < Quota(s.tables[m]) && !Home(s, t, m).Used?
    ensures Reach(s0, Registered(s.(count := s.count - 1), t, m), r + if m < Last(s) && Home(s, t, m).Tomb? then 1 else 0)
  {
    hide Reach;
    GetProducer(s0, s, r, t, m, n);
    var c := s.(made := s.made + 1);
    var s1 := At(c, t, Local(Place(m, s.made, n, 0), None, Some(s.made), -1, map[]));
    PutDown(s0, s1, r, t, m, s.made, n);
    assert map[][m := 0] == map[m := 0];
    var d := c.(tables := PutHome(s, t, m, Used(t, s.made)));
    var l := Local(Idle, Some(s.made), Some(s.made), m, map[m := 0]);
    if Home(s, t, m).Tomb? {
      var s2 := At(d, t, l.(pc := Credit));
      Again(d, t, s1.threads[t], s2.threads[t]);
      TakeOff(s0, s2, r + if m < Last(s) then 1 else 0, t);
      Again(d, t, s2.threads[t], l);
    } else {
      Again(d, t, s1.threads[t], l);
    }
  }

  /** A thread of the first table is taken over into the second. */
  function Moved(s: State, t: Thread, p: Producer): State
    requires |s.tables| == 2 && |s.tables[1]| > 0
  {
    At(s, t, Settled1(p)).(tables := PutHome(s, t, 1, Used(t, p)))
  }

  lemma Move(s0: State, s: State, r: nat, t: Thread, p: Producer)
    requires Next(s0, s, r, t, Idle) && |s.tables| == 2 && s.threads[t] == Settled0(p)
    requires Home(s, t, 0) == Used(t, p) && Home(s, t, 1).Empty?
    ensures Reach(s0, Moved(s, t, p), r)
  {
    hide Reach;
    var l := Settled0(p);
    Start(s0, s, r, t);
    var s1 := At(s, t, l.(pc := Find(1, 1, 0)));
    SeeEmpty(s0, s1, r, t, 1, 1);
    var s2 := At(s, t, l.(pc := Find(1, 0, 0)));
    Again(s, t, s1.threads[t], s2.threads[t]);
    SeeOwn(s0, s2, r, t, 1, 0, p);
    var s3 := At(s, t, l.(pc := Migrate(1, p, 0)));
    Again(s, t, s2.threads[t], s3.threads[t]);
    TakeOver(s0, s3, r, t, 1, p);
    assert map[0 := 0][1 := 0] == map[0 := 0, 1 := 0];
    Again(s.(tables := PutHome(s, t, 1, Used(t, p))), t, s3.threads[t], Settled1(p));
  }

  /** A thread exits and leaves a tombstone in each table. */
  function Departed(s: State, t: Thread, p: Producer): State
    requires |s.tables| == 2 && |s.tables[0]| > 0 && |s.tables[1]| > 0
  {
    var s' := s.(tables := PutHome(s, t, 1, Tomb));
    At(s, t, Bare(Idle)).(tables := PutHome(s', t, 0, Tomb), inactive := s.inactive + {p})
  }

  lemma Depart(s0: State, s: State, r: nat, t: Thread, p: Producer)
    requires Next(s0, s, r, t, Idle) && |s.tables| == 2 && s.threads[t] == Settled1(p)
    requires Home(s, t, 0) == Used(t, p) && Home(s, t, 1) == Used(t, p)
    ensures Reach(s0, Departed(s, t, p), r)
  {
    hide Reach;
    var l := Settled1(p).(top := -1);
    BeginExit(s0, s, r, t);
    var s1 := At(s, t, l.(pc := Leave(1, 0)));
    Bury(s0, s1, r, t, 1, p);
    assert map[0 := 0, 1 := 0] - {1} == map[0 := 0] && map[0 := 0] - {0} == map[];
    var c := s.(tables := PutHome(s, t, 1, Tomb));
    var s2 := At(c, t, l.(pc := Leave(0, 0), at := map[0 := 0]));
    Again(c, t, s1.threads[t], s2.threads[t]);
    Bury(s0, s2, r, t, 0, p);
    var d := c.(tables := PutHome(c, t, 0, Tomb));
    var s3 := At(d, t, l.(pc := Retire, at := map[]));
    Again(d, t, s2.threads[t], s3.threads[t]);
    EndExit(s0, s3, r, t, p);
    Again(d, t, s3.threads[t], Bare(Idle));
  }

  /** A thread makes the second table, and is interrupted before it gives the lock back. */
  function Expanded(s: State, t: Thread): State
    requires |s.tables| == 1
  {
    At(s, t, Bare(Unlock(1, s.count + 1, false)))
      .(tables := s.tables + [Blank(2 * |s.tables[0]|)], count := s.count + 1, lock := {t})
  }

  /** As far as the lock. */
  lemma Lock(s0: State, s: State, r: nat, t: Thread, m: nat)
    requires Next(s0, s, r, t, Count(m)) && m == Last(s) && s.threads[t] == Bare(Count(m)) && s.lock == {}
    requires |s.tables[m]| / 2 <= s.count + 1
    ensures Reach(s0, At(s, t, Bare(Grow(m, s.count + 1))).(count := s.count + 1, lock := {t}), r)
  {
    hide Reach;
    var n := s.count + 1;
    BeCounted(s0, s, r, t, m);
    var c, d := s.(count := n), s.(count := n, lock := {t});
    var s1 := At(c, t, Bare(Check(m, n)));
    TakeLock(s0, s1, r, t, m, n);
    var s2 := At(d, t, Bare(Locked(n)));
    Again(d, t, s1.threads[t], s2.threads[t]);
    SeeLast(s0, s2, r, t, n);
    Again(d, t, s2.threads[t], Bare(Grow(m, n)));
  }

  lemma Expand(s0: State, s: State, r: nat, t: Thread)
    requires Next(s0, s, r, t, Count(0)) && |s.tables| == 1 && s.threads[t] == Bare(Count(0)) && s.lock == {}
    requires |s.tables[0]| / 2 <= s.count + 1 < |s.tables[0]|
    ensures Reach(s0, Expanded(s, t), r)
  {
    hide Reach;
    var n := s.count + 1;
    Lock(s0, s, r, t, 0);
    var c := s.(count := n, lock := {t});
    var s1 := At(c, t, Bare(Grow(0, n)));
    Double(s0, s1, r, t, n);
    Again(c, t, s1.threads[t], Bare(Unlock(1, n, false)));
  }

  /** It goes on, and gets its producer in the second table. */
  function Finished(s: State, t: Thread): State
    requires |s.tables| == 2 && |s.tables[1]| > 0
  {
    At(s, t, Local(Idle, Some(s.made), Some(s.made), 1, map[1 := 0]))
      .(tables := PutHome(s, t, 1, Used(t, s.made)), made := s.made + 1, lock := {})
  }

  lemma Finish(s0: State, s: State, r: nat, t: Thread, n: int)
    requires Next(s0, s, r, t, Unlock(1, n, false)) && s.threads[t] == Bare(Unlock(1, n, false))
    requires n < Quota(s.tables[1]) && Home(s, t, 1).Empty?
    ensures Reach(s0, Finished(s, t), r)
  {
    hide Reach;
    GiveLock(s0, s, r, t, 1, n);
    var c := s.(lock := {});
    var s1 := At(c, t, Bare(Fit(1, n)));
    Settle(s0, s1, r, t, 1, n);
    Again(c, t, s1.threads[t], Local(Idle, Some(s.made), Some(s.made), 1, map[1 := 0]));
  }

  /** A thread fails to make a third table, and is interrupted before it gives the lock back. */
  function Stalled(s: State, t: Thread): State {
    At(s, t, Bare(Unlock(1, s.count + 1, true))).(lock := {t})
  }

  lemma Stall(s0: State, s: State, r: nat, t: Thread)
    requires Next(s0, s, r, t, Count(1)) && |s.tables| == 2 && s.threads[t] == Bare(Count(1)) && s.lock == {}
    requires |s.tables[1]| / 2 <= s.count + 1
    ensures Reach(s0, Stalled(s, t), r)
  {
    hide Reach;
    var n := s.count + 1;
    Lock(s0, s, r, t, 1);
    var c := s.(count := n, lock := {t});
    var s1 := At(c, t, Bare(Grow(1, n)));
    FailToGrow(s0, s1, r, t, 1, n);
    Again(c, t, s1.threads[t], Bare(Unlock(1, n, true)));
  }

  // ---------------------------------------------------------------- the run

  /** A first table of `4 * q` slots, and later one of `8 * q`. */
  const SMALLEST: nat := 4

  /** The thread with home slot `i` in the table of `8 * q`, and `i` or `i - 4 * q` in the one of `4 * q`. */
  function T(i: nat): Thread { Thread(i, i) }

  /** One that will fail to make a third table, and one that will be trapped. */
  function Failing(q: nat): Thread
    requires q > 0
  {
    Thread(8 * q, 8 * q - 1)
  }

  function Late(q: nat): Thread { Thread(8 * q + 1, 0) }

  /** How many slots of the first table get a tombstone. */
  function Tombs(q: nat): nat { 2 * q + 1 }

  function Crew(q: nat): set<Thread>
    requires q > 0
  {
    (set i | 0 <= i < 8 * q :: T(i)) + {Failing(q), Late(q)}
  }

  function Begin(q: nat): State
    requires q > 0
  {
    State([Blank(4 * q)], 0, {}, {}, 0, map t | t in Crew(q) :: Bare(Idle))
  }

  /** Threads that look themselves up before anyone is in the table, and so go on with the first one. */
  predicate Early(q: nat, i: nat) { i <= Tombs(q) || 4 * q <= i < 4 * q + Tombs(q) }

  /** Where such a thread waits, and where the others are. */
  function Waits(q: nat, i: nat): Local { Bare(if Early(q, i) then Count(0) else Idle) }

  predicate Is(s: State, i: nat, l: Local) { T(i) in s.threads && s.threads[T(i)] == l }

  /** The two extra threads have not begun. */
  predicate ExtrasIdle(s: State, q: nat)
    requires q > 0
  {
    && Failing(q) in s.threads && s.threads[Failing(q)] == Bare(Idle)
    && Late(q) in s.threads && s.threads[Late(q)] == Bare(Idle)
  }

  lemma HomeSlots(q: nat, i: nat)
    requires q > 0 && i < 8 * q
    ensures SlotOf(T(i), 0, 8 * q) == i
    ensures SlotOf(T(i), 0, 4 * q) == if i < 4 * q then i else i - 4 * q
  {
    Indices.SlotAhead(0, i, 0, 8 * q);
  }

  function WaitsBelow(q: nat, i: nat, k: nat): Local { if k < i then Waits(q, k) else Bare(Idle) }

  /** The early threads below `i` found nothing. */
  predicate Waiting(s: State, q: nat, i: nat)
    requires q > 0
  {
    && s.tables == [Blank(4 * q)] && s.count == 0 && s.lock == {} && ExtrasIdle(s, q)
    && forall k :: 0 <= k < 8 * q ==> Is(s, k, WaitsBelow(q, i, k))
  }

  lemma {:induction false} Wait(q: nat, i: nat) returns (s: State)
    requires q >= SMALLEST && i <= 8 * q
    ensures Reach(Begin(q), s, 0) && Waiting(s, q, i) && Quiet(s, q, 0, 0)
  {
    hide Reach;
    if i == 0 {
      s := Begin(q);
      BeginReached(q);
    } else {
      var s1 := Wait(q, i - 1);
      s := s1;
      assert Is(s1, i - 1, WaitsBelow(q, i - 1, i - 1));
      if Early(q, i - 1) {
        ComeFirst(Begin(q), s1, 0, T(i - 1));
        s := At(s1, T(i - 1), Bare(Count(0)));
      }
      forall k | 0 <= k < 8 * q
        ensures Is(s, k, WaitsBelow(q, i, k))
      {
        assert Is(s1, k, WaitsBelow(q, i - 1, k));
      }
    }
  }

  lemma BeginReached(q: nat)
    requires q > 0
    ensures Reach(Begin(q), Begin(q), 0) && Waiting(Begin(q), q, 0) && Quiet(Begin(q), q, 0, 0)
  {
    var s := Begin(q);
    assert IsRun([s], []) && Reuses([s], [], 1) == 0;
    forall k | 0 <= k < 8 * q
      ensures Is(s, k, WaitsBelow(q, 0, k))
    {
      assert T(k) in Crew(q);
    }
  }

  predicate Pending(q: nat, i: nat, b: nat, k: nat) { i <= k <= Tombs(q) || 4 * q + b <= k < 4 * q + Tombs(q) }

  /** Nobody is in a call but the early threads whose turn has not come. */
  predicate Quiet(s: State, q: nat, i: nat, b: nat) {
    forall t :: t in s.threads && !(t == T(t.id) && Pending(q, i, b, t.id)) ==> s.threads[t].pc.Idle?
  }

  /** The thread is in slot `j` of the first table. */
  predicate InFirst(s: State, i: nat, j: nat) {
    && T(i) in s.threads && s.threads[T(i)].owns.Some? && s.threads[T(i)] == Settled0(s.threads[T(i)].owns.value)
    && |s.tables| > 0 && j < |s.tables[0]| && s.tables[0][j] == Used(T(i), s.threads[T(i)].owns.value)
  }

  /** The first `i` threads are in the first table. */
  predicate Filled(s: State, q: nat, i: nat)
    requires q > 0
  {
    && s.tables != [] && |s.tables[0]| == 4 * q && ExtrasIdle(s, q)
    && (forall k :: 0 <= k < i ==> InFirst(s, k, k))
    && (forall k :: i <= k < 4 * q ==> s.tables[0][k].Empty?)
    && (forall k :: i <= k < 8 * q && k != Tombs(q) ==> Is(s, k, Waits(q, k)))
  }

  /** Up to here nobody needs the lock. */
  lemma {:induction false} FillFirst(q: nat, i: nat) returns (s: State)
    requires q >= SMALLEST && i <= 2 * q - 1
    ensures Reach(Begin(q), s, 0) && Filled(s, q, i) && |s.tables| == 1
    ensures s.count == i && s.lock == {} && Is(s, Tombs(q), Bare(Count(0))) && Quiet(s, q, i, 0)
  {
    hide Reach;
    if i == 0 {
      s := Wait(q, 8 * q);
      FilledNone(q, s);
    } else {
      var s1 := FillFirst(q, i - 1);
      FilledReady(s1, q, i - 1);
      Register(Begin(q), s1, 0, T(i - 1), 0);
      s := Registered(s1, T(i - 1), 0);
      FilledMore(s1, q, i - 1);
    }
  }

  lemma FilledNone(q: nat, s: State)
    requires q >= SMALLEST && Waiting(s, q, 8 * q)
    ensures Filled(s, q, 0) && Is(s, Tombs(q), Bare(Count(0)))
  {
    forall k | 0 <= k < 8 * q
      ensures Is(s, k, Waits(q, k))
    {
      assert Is(s, k, WaitsBelow(q, 8 * q, k));
    }
    assert Is(s, Tombs(q), Waits(q, Tombs(q)));
  }

  lemma FilledMore(s: State, q: nat, i: nat)
    requires q >= SMALLEST && i < Tombs(q) && Filled(s, q, i)
    ensures Filled(Registered(s, T(i), 0), q, i + 1)
  {
    HomeSlots(q, i);
    var s' := Registered(s, T(i), 0);
    forall k | 0 <= k < i + 1
      ensures InFirst(s', k, k)
    {
      assert k < i ==> InFirst(s, k, k);
    }
  }

  lemma FilledReady(s: State, q: nat, i: nat)
    requires q >= SMALLEST && i < Tombs(q) && Filled(s, q, i)
    ensures T(i) in s.threads && s.threads[T(i)] == Bare(Count(0)) && Home(s, T(i), 0).Empty?
    ensures Quota(s.tables[0]) == 3 * q && |s.tables[0]| / 2 == 2 * q
  {
    assert Is(s, i, Waits(q, i));
    HomeSlots(q, i);
    Quarters(q);
  }

  /** The thread that holds the lock while it makes the second table. */
  predicate Locker(s: State, q: nat) {
    s.lock == {T(Tombs(q))} && Is(s, Tombs(q), Bare(Unlock(1, 2 * q, false)))
  }

  lemma Doubling(q: nat) returns (s: State)
    requires q >= SMALLEST
    ensures Reach(Begin(q), s, 0) && Filled(s, q, 2 * q - 1) && |s.tables| == 2 && s.tables[1] == Blank(8 * q)
    ensures s.count == 2 * q && Locker(s, q) && Quiet(s, q, 2 * q - 1, 0)
  {
    hide Reach;
    var s1 := FillFirst(q, 2 * q - 1);
    Expand(Begin(q), s1, 0, T(Tombs(q)));
    s := Expanded(s1, T(Tombs(q)));
    forall k | 0 <= k < 2 * q - 1
      ensures InFirst(s, k, k)
    {
      assert InFirst(s1, k, k);
    }
  }

  /** From here the lock is taken, and the first table is used up to its quota. */
  lemma {:induction false} FillRest(q: nat, i: nat) returns (s: State)
    requires q >= SMALLEST && 2 * q - 1 <= i <= Tombs(q)
    ensures Reach(Begin(q), s, 0) && Filled(s, q, i) && |s.tables| == 2 && s.tables[1] == Blank(8 * q)
    ensures s.count == i + 1 && Locker(s, q) && Quiet(s, q, i, 0)
  {
    hide Reach;
    if i == 2 * q - 1 {
      s := Doubling(q);
    } else {
      var s1 := FillRest(q, i - 1);
      FilledReady(s1, q, i - 1);
      Register(Begin(q), s1, 0, T(i - 1), 0);
      s := Registered(s1, T(i - 1), 0);
      FilledMore(s1, q, i - 1);
    }
  }

  /** What stays the same until the lock is given back. */
  predicate Frame(s: State, q: nat)
    requires q > 0
  {
    && |s.tables| == 2 && |s.tables[0]| == 4 * q && |s.tables[1]| == 8 * q
    && s.count == 2 * q + 2 && Locker(s, q) && ExtrasIdle(s, q)
    && forall k :: Tombs(q) <= k < 4 * q ==> s.tables[0][k].Empty?
  }

  /** Slot `k` has a tombstone in both tables. */
  predicate Buried(s: State, k: nat) {
    |s.tables| == 2 && k < |s.tables[0]| && k < |s.tables[1]| && s.tables[0][k].Tomb? && s.tables[1][k].Tomb?
  }

  /** The first `d` threads were taken over and have exited. */
  predicate Cleared(s: State, q: nat, d: nat)
    requires q > 0
  {
    && Frame(s, q)
    && (forall k :: 0 <= k < d ==> Buried(s, k))
    && (forall k :: d <= k < Tombs(q) ==> InFirst(s, k, k))
    && (forall k :: d <= k < 8 * q ==> s.tables[1][k].Empty?)
    && (forall k :: Tombs(q) < k < 8 * q ==> Is(s, k, Waits(q, k)))
  }

  lemma {:induction false} Clear(q: nat, d: nat) returns (s: State)
    requires q >= SMALLEST && d <= Tombs(q)
    ensures Reach(Begin(q), s, 0) && Cleared(s, q, d) && Quiet(s, q, Tombs(q), 0)
  {
    hide Reach;
    if d == 0 {
      s := FillRest(q, Tombs(q));
    } else {
      var s1 := Clear(q, d - 1);
      s := ClearOne(q, s1, d - 1);
    }
  }

  lemma ClearOne(q: nat, s: State, d: nat) returns (s': State)
    requires q >= SMALLEST && d < Tombs(q) && Reach(Begin(q), s, 0) && Cleared(s, q, d) && Quiet(s, q, Tombs(q), 0)
    ensures Reach(Begin(q), s', 0) && Cleared(s', q, d + 1) && Quiet(s', q, Tombs(q), 0)
  {
    hide Reach, Tombs;
    var t := T(d);
    assert InFirst(s, d, d);
    var p := s.threads[t].owns.value;
    HomeSlots(q, d);
    Move(Begin(q), s, 0, t, p);
    var s1 := Moved(s, t, p);
    Depart(Begin(q), s1, 0, t, p);
    s' := Departed(s1, t, p);
    ClearedMore(s, q, d, p);
  }

  lemma ClearedMore(s: State, q: nat, d: nat, p: Producer)
    requires q >= SMALLEST && d < Tombs(q) && Cleared(s, q, d)
    ensures Cleared(Departed(Moved(s, T(d), p), T(d), p), q, d + 1)
  {
    HomeSlots(q, d);
    var s' := Departed(Moved(s, T(d), p), T(d), p);
    forall k | 0 <= k < d + 1
      ensures Buried(s', k)
    {
      assert k < d ==> Buried(s, k);
    }
    forall k | d + 1 <= k < Tombs(q)
      ensures InFirst(s', k, k)
    {
      assert InFirst(s, k, k);
    }
  }

  /** The threads with home slots `4 * q` to `4 * q + b - 1` have reused the first tombstones and were taken over. */
  predicate Reused(s: State, q: nat, b: nat)
    requires q > 0
  {
    && Frame(s, q)
    && (forall k :: b <= k < Tombs(q) ==> s.tables[0][k].Tomb?)
    && (forall k :: 0 <= k < 8 * q ==> (s.tables[1][k].Empty? <==> Tombs(q) <= k < 4 * q || 4 * q + b <= k))
    && (forall k :: Tombs(q) < k < 8 * q && !(4 * q <= k < 4 * q + b) ==> Is(s, k, Waits(q, k)))
  }

  lemma ReusedNone(q: nat, s: State)
    requires q >= SMALLEST && Cleared(s, q, Tombs(q))
    ensures Reused(s, q, 0)
  {
    forall k | 0 <= k < Tombs(q)
      ensures s.tables[0][k].Tomb? && !s.tables[1][k].Empty?
    {
      assert Buried(s, k);
    }
  }

  lemma ReusedMore(q: nat, s: State, b: nat)
    requires q >= SMALLEST && b < Tombs(q) && Reused(s, q, b)
    ensures |s.tables| == 2 && Sized(s) && Reused(Moved(Registered(s, T(4 * q + b), 0), T(4 * q + b), s.made), q, b + 1)
  {
    HomeSlots(q, 4 * q + b);
  }

  lemma ReuseReady(q: nat, s: State, b: nat)
    requires q >= SMALLEST && b < Tombs(q) && Reused(s, q, b)
    ensures var t := T(4 * q + b);
            && |s.tables| == 2 && Sized(s) && t in s.threads && s.threads[t] == Bare(Count(0))
            && Home(s, t, 0).Tomb? && Home(s, t, 1).Empty? && s.count + 1 < Quota(s.tables[0]) && s.lock != {}
  {
    assert Is(s, 4 * q + b, Waits(q, 4 * q + b));
    HomeSlots(q, 4 * q + b);
    Quarters(q);
  }

  lemma {:induction false} Reuse(q: nat, b: nat) returns (s: State)
    requires q >= SMALLEST && b <= Tombs(q)
    ensures Reach(Begin(q), s, b) && Reused(s, q, b) && Quiet(s, q, Tombs(q), b)
  {
    hide Reach, Reused, Quota;
    if b == 0 {
      s := Clear(q, Tombs(q));
      ReusedNone(q, s);
    } else {
      var s1 := Reuse(q, b - 1);
      var t, p := T(4 * q + b - 1), s1.made;
      ReuseReady(q, s1, b - 1);
      ReusedMore(q, s1, b - 1);
      Register(Begin(q), s1, b - 1, t, 0);
      var s2 := Registered(s1, t, 0);
      Move(Begin(q), s2, b, t, p);
      s := Moved(s2, t, p);
    }
  }

  /** Slots of the second table that are empty when those below `i` are in use. */
  predicate Open(q: nat, i: nat, k: nat) { k >= i && !(4 * q <= k < 4 * q + Tombs(q)) }

  /** What the counter says then. */
  function Counted(q: nat, i: nat): int {
    if i <= 4 * q then i else if i <= 4 * q + Tombs(q) then 4 * q else i - Tombs(q)
  }

  predicate Filling(s: State, q: nat, i: nat)
    requires q > 0
  {
    && |s.tables| == 2 && |s.tables[0]| == 4 * q && |s.tables[1]| == 8 * q && s.count == Counted(q, i)
    && Late(q) in s.threads && s.threads[Late(q)] == Bare(Idle)
    && (forall k :: Tombs(q) <= k < 4 * q ==> s.tables[0][k].Empty?)
    && (forall k :: 0 <= k < 8 * q ==> (s.tables[1][k].Empty? <==> Open(q, i, k)))
    && (forall k :: 0 <= k < 8 * q && Open(q, i, k) ==> Is(s, k, Bare(Idle)))
  }

  /** Nobody holds the lock, and the thread that will fail has not begun. */
  predicate Unlocked(s: State, q: nat)
    requires q > 0
  {
    s.lock == {} && Failing(q) in s.threads && s.threads[Failing(q)] == Bare(Idle)
  }

  lemma Resume(q: nat) returns (s: State)
    requires q >= SMALLEST
    ensures Reach(Begin(q), s, Tombs(q)) && Filling(s, q, Tombs(q) + 1) && Unlocked(s, q)
    ensures forall t :: t in s.threads ==> s.threads[t].pc.Idle?
  {
    hide Reach;
    var s1 := Reuse(q, Tombs(q));
    var t := T(Tombs(q));
    HomeSlots(q, Tombs(q));
    Finish(Begin(q), s1, Tombs(q), t, 2 * q);
    s := Finished(s1, t);
    forall k | 0 <= k < 8 * q && Open(q, Tombs(q) + 1, k)
      ensures Is(s, k, Bare(Idle))
    {
      assert Is(s1, k, Waits(q, k));
    }
  }

  lemma FillingMore(q: nat, s: State, i: nat)
    requires q >= SMALLEST && Tombs(q) < i < 8 * q && Filling(s, q, i) && Open(q, i, i)
    ensures T(i) in s.threads && Filling(Registered(At(s, T(i), Bare(Count(1))), T(i), 1), q, i + 1)
  {
    var t := T(i);
    HomeSlots(q, i);
    assert Is(s, i, Bare(Idle));
    var s' := Registered(At(s, t, Bare(Count(1))), t, 1);
    forall k | 0 <= k < 8 * q && Open(q, i + 1, k)
      ensures Is(s', k, Bare(Idle))
    {
      assert Is(s, k, Bare(Idle));
    }
  }

  lemma Quarters(q: nat)
    ensures 4 * q / 2 == 2 * q && 4 * q / 4 == q && 8 * q / 2 == 4 * q && 8 * q / 4 == 2 * q
  {
  }

  lemma BoundEight(q: nat, table: Table)
    requires q > 0 && |table| == 8 * q
    ensures Bound(table) == 6 * q
  {
    Quarters(q);
  }

  /** What the thread whose home slot is next finds. */
  lemma FillReady(q: nat, s: State, i: nat)
    requires q >= SMALLEST && Tombs(q) < i < 8 * q && Filling(s, q, i) && Open(q, i, i)
    ensures |s.tables| == 2 && Sized(s) && T(i) in s.threads && s.threads[T(i)] == Bare(Idle)
    ensures Home(s, T(i), 0).Empty? && Home(s, T(i), 1).Empty?
    ensures s.count + 1 < Quota(s.tables[1]) && (i + 1 < 4 * q ==> s.count + 1 < |s.tables[1]| / 2)
  {
    assert Is(s, i, Bare(Idle));
    HomeSlots(q, i);
    Quarters(q);
  }

  /** It registers in it. */
  lemma FillOne(q: nat, s: State, i: nat) returns (s': State)
    requires q >= SMALLEST && Reach(Begin(q), s, Tombs(q)) && Tombs(q) < i < 8 * q && Filling(s, q, i) && Open(q, i, i)
    requires i + 1 < 4 * q || s.lock != {}
    ensures Reach(Begin(q), s', Tombs(q)) && Filling(s', q, i + 1) && s'.lock == s.lock
    ensures forall t :: t in s.threads && t != T(i) ==> t in s'.threads && s'.threads[t] == s.threads[t]
  {
    hide Reach, Filling, Quota, Tombs;
    var t := T(i);
    FillReady(q, s, i);
    FillingMore(q, s, i);
    ComeSecond(Begin(q), s, Tombs(q), t);
    var s1 := At(s, t, Bare(Count(1)));
    Register(Begin(q), s1, Tombs(q), t, 1);
    s' := Registered(s1, t, 1);
  }

  lemma {:induction false} FillUnlocked(q: nat, i: nat) returns (s: State)
    requires q >= SMALLEST && Tombs(q) < i < 4 * q
    ensures Reach(Begin(q), s, Tombs(q)) && Filling(s, q, i) && Unlocked(s, q)
  {
    if i == Tombs(q) + 1 {
      s := Resume(q);
    } else {
      var s1 := FillUnlocked(q, i - 1);
      s := FillOne(q, s1, i - 1);
    }
  }

  /** One thread takes the lock, is refused the memory, and is interrupted. */
  lemma Refuse(q: nat) returns (s: State)
    requires q >= SMALLEST
    ensures Reach(Begin(q), s, Tombs(q)) && Filling(s, q, 4 * q - 1) && s.lock != {}
  {
    hide Reach;
    var s1 := FillUnlocked(q, 4 * q - 1);
    var t := Failing(q);
    Indices.SlotAhead(0, 8 * q - 1, 0, 8 * q);
    HomeSlots(q, 8 * q - 1);
    assert SlotOf(t, 0, 8 * q) == 8 * q - 1 && SlotOf(t, 0, 4 * q) == 4 * q - 1;
    ComeSecond(Begin(q), s1, Tombs(q), t);
    var s2 := At(s1, t, Bare(Count(1)));
    Stall(Begin(q), s2, Tombs(q), t);
    s := Stalled(s2, t);
  }

  lemma {:induction false} FillLocked(q: nat, i: nat) returns (s: State)
    requires q >= SMALLEST && 4 * q - 1 <= i <= 8 * q
    ensures Reach(Begin(q), s, Tombs(q)) && Filling(s, q, i) && s.lock != {}
  {
    if i == 4 * q - 1 {
      s := Refuse(q);
    } else {
      var s1 := FillLocked(q, i - 1);
      if Open(q, i - 1, i - 1) {
        s := FillOne(q, s1, i - 1);
      } else {
        s := s1;
      }
    }
  }

  // ---------------------------------------------------------------- what the run shows

  /** One by one past the slots of a full table. */
  lemma {:induction false} GoRound(q: nat, k: nat) returns (s: State)
    requires q >= SMALLEST
    ensures Reach(Begin(q), s, Tombs(q)) && |s.tables| == 2 && |s.tables[0]| > 0 && |s.tables[1]| == 8 * q && !HasEmpty(s.tables[1])
    ensures Late(q) in s.threads && s.threads[Late(q)] == Bare(Find(1, 1, k))
  {
    hide Reach;
    if k == 0 {
      var s1 := FillLocked(q, 8 * q);
      Start(Begin(q), s1, Tombs(q), Late(q));
      s := At(s1, Late(q), Bare(Find(1, 1, 0)));
    } else {
      var s1 := GoRound(q, k - 1);
      ReachedInv(q, s1, Tombs(q));
      NotThere(s1, Late(q), 1, k - 1);
      SeeOther(Begin(q), s1, Tombs(q), Late(q), 1, 1, k - 1);
      s := At(s1, Late(q), Bare(Find(1, 1, k)));
      Again(s1, Late(q), s1.threads[Late(q)], Bare(Find(1, 1, k)));
    }
  }

  lemma ReachedInv(q: nat, s: State, r: nat)
    requires q > 0 && Reach(Begin(q), s, r)
    ensures Inv(s)
  {
    var run, actions := TheRun(Begin(q), s, r);
    RunInv(run, actions);
  }

  /** A full table stops nobody whose id is not in it. */
  lemma NotThere(s: State, t: Thread, j: nat, k: nat)
    requires Inv(s) && t in s.threads && j < |s.tables| && j !in s.threads[t].at && |s.tables[j]| > 0 && !HasEmpty(s.tables[j])
    ensures PassedOne(s.tables[j], t, k)
  {
    assert TableOk(s, j) && SlotOk(s, j, SlotOf(t, k, |s.tables[j]|));
    assert !s.tables[j][SlotOf(t, k, |s.tables[j]|)].Empty?;
  }

  /** One reuse more than `ProbingEnds` allows, and for any `k` a thread that has gone past `k` slots; it never
      gets through the table, whatever anybody does from here on. */
  lemma EndlessProbe(q: nat, k: nat) returns (run: seq<State>, actions: seq<Action>)
    requires q >= SMALLEST
    ensures IsRun(run, actions) && run[0].tables == [Blank(4 * q)] && |run[|actions|].tables| == 2
    ensures var s := run[|actions|];
            && Reuses(run, actions, 1) == |s.tables[1]| - Bound(s.tables[1]) + 1
            && Late(q) in s.threads && s.threads[Late(q)].pc == Find(1, 1, k)
            && !GetsThrough(s, Late(q), 1)
  {
    hide GetsThrough, Reach, IsRun, Reuses, Bound, HasEmpty;
    var s := GoRound(q, k);
    BoundEight(q, s.tables[1]);
    run, actions := TheRun(Begin(q), s, Tombs(q));
    NeverThrough(q, s);
  }

  lemma NeverThrough(q: nat, s: State)
    requires q > 0 && Reach(Begin(q), s, Tombs(q)) && |s.tables| == 2 && !HasEmpty(s.tables[1])
    requires Late(q) in s.threads && Looking(s.threads[Late(q)].pc, 1) && 1 !in s.threads[Late(q)].at
    ensures !GetsThrough(s, Late(q), 1)
  {
    hide GetsThrough, Reach, Continues;
    ReachedInv(q, s, Tombs(q));
    LookingEndsExactly(s, Late(q), 1);
  }

  /** The slots in two stretches of a table, if all are in use. */
  lemma {:induction false} TallyStretches(table: Table, a: nat, b: nat, c: nat)
    requires a <= b <= c
    requires forall k :: 0 <= k < |table| && (k < a || b <= k < c) ==> !table[k].Empty?
    ensures Tally(table, NotEmpty()) >= if |table| <= a then |table| else if |table| <= b then a else if |table| <= c then a + |table| - b else a + c - b
  {
    if table != [] {
      TallyStretches(table[..|table| - 1], a, b, c);
    }
  }

  /** A state without a call in flight in which the counter is behind what the newest table has and has yet to
      take in by as much as `RoomForAll` allows, one for each reuse. */
  lemma CounterDrifts(q: nat) returns (run: seq<State>, actions: seq<Action>)
    requires q >= SMALLEST
    ensures IsRun(run, actions) && run[0].tables == [Blank(4 * q)] && |run[|actions|].tables| == 2
    ensures var s := run[|actions|];
            && (forall t :: t in s.threads ==> s.threads[t].pc.Idle?)
            && Reuses(run, actions, 1) == 2 * q + 1 && Load(s, 1) == s.count + Reuses(run, actions, 1)
  {
    hide Reach, IsRun, Reuses;
    var s := Resume(q);
    run, actions := TheRun(Begin(q), s, Tombs(q));
    TallyStretches(s.tables[1], Tombs(q) + 1, 4 * q, 4 * q + Tombs(q));
    RoomForAll(run, actions, 1);
  }
}
