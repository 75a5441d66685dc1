/**
 What calls on the hash of implicit producers come back with: a lookup returns nothing exactly when memory was
 refused to it, producers are never lost, and the counter is the number of slots first filled
 (shared/queue_internal/concurrentqueue.h:3227-3244, 3388-3564).
 */
module HashCalls {
  import opened Basics
  import opened Counting
  import opened ProducerHash
  import HashRoom

  // ---------------------------------------------------------------- lookups

  /** From step `i` up to state `j` thread `t` is in the lookup it starts at `i`, or has returned from it. */
  ghost predicate OneLookup(actions: seq<Action>, t: Thread, i: nat, j: nat) {
    i < j <= |actions| && actions[i] == Call(t) && forall m :: i < m < j && actions[m].t == t ==> actions[m].Run?
  }

  /** Memory is refused: for a larger table, or for a producer when there is none to be recycled. */
  predicate Denied(s: State, a: Action) {
    && a.Run? && a.t in s.threads && !a.env.granted && InRange(s, s.threads[a.t].pc)
    && match s.threads[a.t].pc
       case Grow(_, _) => true
       case Fit(main, n) => n < Quota(s.tables[main]) && !(a.env.recycled.Some? && a.env.recycled.value in s.inactive)
       case _ => false
  }

  /** The call returns nothing, or is about to. */
  predicate Failing(l: Local) {
    l.pc.Refund? || (l.pc.Unlock? && l.pc.failed) || (l.pc.Idle? && l.got.None?)
  }

  predicate Exiting(pc: Pc) { pc.Leave? || pc.Retire? }

  lemma LookupStep(s: State, a: Action, t: Thread)
    requires Inv(s) && Enabled(s, a) && t in s.threads && (a.t == t ==> a.Run?) && !Exiting(s.threads[t].pc)
    ensures t in Do(s, a).threads && !Exiting(Do(s, a).threads[t].pc)
    ensures Failing(Do(s, a).threads[t]) <==> Failing(s.threads[t]) || (a.t == t && Denied(s, a))
  {
    hide Do, Inv, Denied;
    if a.t != t {
      OtherFrame(s, a, t);
    } else if a.Run? && (s.threads[t].pc.Find? || s.threads[t].pc.Migrate? || s.threads[t].pc.Place?) {
      LookupProbes(s, a, t);
    } else {
      LookupCounts(s, a, t);
    }
  }

  lemma LookupProbes(s: State, a: Action, t: Thread)
    requires Inv(s) && Enabled(s, a) && t in s.threads && (a.t == t ==> a.Run?) && !Exiting(s.threads[t].pc)
    requires a.t == t && a.Run? && (s.threads[t].pc.Find? || s.threads[t].pc.Migrate? || s.threads[t].pc.Place?)
    ensures t in Do(s, a).threads && !Exiting(Do(s, a).threads[t].pc)
    ensures Failing(Do(s, a).threads[t]) <==> Failing(s.threads[t]) || (a.t == t && Denied(s, a))
  {
    assert LocalOk(s, t, s.threads[t]);
    hide AtOk, OwnOk, TopOk, Passed, Alone, TableOk;
  }

  lemma LookupCounts(s: State, a: Action, t: Thread)
    requires Inv(s) && Enabled(s, a) && t in s.threads && (a.t == t ==> a.Run?) && !Exiting(s.threads[t].pc)
    requires a.t == t && !(a.Run? && (s.threads[t].pc.Find? || s.threads[t].pc.Migrate? || s.threads[t].pc.Place?))
    ensures t in Do(s, a).threads && !Exiting(Do(s, a).threads[t].pc)
    ensures Failing(Do(s, a).threads[t]) <==> Failing(s.threads[t]) || (a.t == t && Denied(s, a))
  {
    assert LocalOk(s, t, s.threads[t]);
    hide AtOk, OwnOk, TopOk, Passed, Alone, TableOk;
  }

  /** A result is a producer that the thread owns. */
  predicate Returns(l: Local) { l.pc.Idle? && l.got.Some? ==> l.owns.Some? }

  lemma ReturnsStep(s: State, a: Action, t: Thread)
    requires Inv(s) && Enabled(s, a) && t in s.threads && (a.t == t ==> a.Run?) && !Exiting(s.threads[t].pc)
    requires Returns(s.threads[t])
    ensures t in Do(s, a).threads && Returns(Do(s, a).threads[t])
  {
    if a.t == t {
      var l := s.threads[t];
      assert LocalOk(s, t, l);
      if l.pc.Find? {
        var i := SlotOf(t, l.pc.probes, |s.tables[l.pc.table]|);
        assert TableOk(s, l.pc.table) && SlotOk(s, l.pc.table, i);
        assert s.tables[l.pc.table][i].Used? && s.tables[l.pc.table][i].owner == t ==> LodgedIn(s, t, l, l.pc.table);
      }
      hide AtOk, OwnOk, TopOk, Passed, Alone, TableOk;
    } else {
      hide Do;
      OtherFrame(s, a, t);
    }
  }

  ghost predicate DeniedTo(run: seq<State>, actions: seq<Action>, t: Thread, i: nat, j: nat)
    requires j <= |actions| < |run|
  {
    exists m :: i < m < j && actions[m].t == t && Denied(run[m], actions[m])
  }

  lemma {:induction false} LookupFails(run: seq<State>, actions: seq<Action>, t: Thread, i: nat, j: nat)
    requires IsRun(run, actions) && OneLookup(actions, t, i, j)
    ensures t in run[j].threads && !Exiting(run[j].threads[t].pc)
    ensures Failing(run[j].threads[t]) <==> DeniedTo(run, actions, t, i, j)
    ensures Returns(run[j].threads[t])
    decreases j
  {
    hide Inv, Enabled, Failing, Denied, Init, Returns;
    if j == i + 1 {
      Starts(run[i], actions[i]);
    } else {
      LookupFails(run, actions, t, i, j - 1);
      assert IsRun(run[..j], actions[..j - 1]);
      RunInv(run[..j], actions[..j - 1]);
      assert run[..j][j - 1] == run[j - 1];
      LookupStep(run[j - 1], actions[j - 1], t);
      ReturnsStep(run[j - 1], actions[j - 1], t);
    }
  }

  lemma Starts(s: State, a: Action)
    requires Enabled(s, a) && a.Call?
    ensures a.t in Do(s, a).threads && !Exiting(Do(s, a).threads[a.t].pc) && !Failing(Do(s, a).threads[a.t])
    ensures Returns(Do(s, a).threads[a.t])
  {
  }

  /** In every run a lookup comes back without a producer if and only if memory for one, or for a larger
      table, was refused to it. Otherwise it returns the one producer that the thread owns. */
  lemma NothingOnlyIfDenied(run: seq<State>, actions: seq<Action>, t: Thread, i: nat, j: nat)
    requires IsRun(run, actions) && OneLookup(actions, t, i, j)
    requires t in run[j].threads && run[j].threads[t].pc.Idle?
    ensures run[j].threads[t].got.None? <==> DeniedTo(run, actions, t, i, j)
    ensures run[j].threads[t].got == run[j].threads[t].owns
  {
    LookupFails(run, actions, t, i, j);
    assert IsRun(run[..j + 1], actions[..j]);
    RunInv(run[..j + 1], actions[..j]);
    assert LocalOk(run[j], t, run[j].threads[t]);
  }

  // ---------------------------------------------------------------- producers

  /** Somebody owns the producer, or it is up for recycling. */
  ghost predicate Kept(s: State, p: Producer) {
    p in s.inactive || exists t :: t in s.threads && s.threads[t].owns == Some(p)
  }

  lemma KeptStep(s: State, a: Action, p: Producer)
    requires Inv(s) && Enabled(s, a) && (p < s.made ==> Kept(s, p)) && p < Do(s, a).made
    ensures Kept(Do(s, a), p)
  {
    var s' := Do(s, a);
    OwnsChange(s, a);
    if p < s.made && p !in s.inactive {
      var t :| t in s.threads && s.threads[t].owns == Some(p);
      if t != a.t {
        assert s'.threads[t].owns == Some(p);
      }
    }
    assert a.t in s'.threads;
  }

  /** A producer changes hands only by recycling, creation and the end of an exit. */
  lemma OwnsChange(s: State, a: Action)
    requires Inv(s) && Enabled(s, a)
    ensures var s', owns := Do(s, a), s.threads[a.t].owns;
            && s'.threads == s.threads[a.t := s'.threads[a.t]]
            && var owns' := s'.threads[a.t].owns;
               || (owns' == owns && s'.inactive == s.inactive && s'.made == s.made)
               || (owns.Some? && owns'.None? && s'.inactive == s.inactive + {owns.value} && s'.made == s.made)
               || (owns.None? && owns'.Some? && owns'.value in s.inactive && s'.inactive == s.inactive - {owns'.value} && s'.made == s.made)
               || (owns.None? && owns' == Some(s.made) && s'.inactive == s.inactive && s'.made == s.made + 1)
  {
    hide Do, Inv;
    if a.Run? && (s.threads[a.t].pc.Find? || s.threads[a.t].pc.Migrate? || Exiting(s.threads[a.t].pc)) {
      OwnsChangeFound(s, a);
    } else {
      OwnsChangeNew(s, a);
    }
  }

  lemma OwnsChangeFound(s: State, a: Action)
    requires Inv(s) && Enabled(s, a) && a.Run? && (s.threads[a.t].pc.Find? || s.threads[a.t].pc.Migrate? || Exiting(s.threads[a.t].pc))
    ensures var s', owns := Do(s, a), s.threads[a.t].owns;
            && s'.threads == s.threads[a.t := s'.threads[a.t]]
            && var owns' := s'.threads[a.t].owns;
               || (owns' == owns && s'.inactive == s.inactive && s'.made == s.made)
               || (owns.Some? && owns'.None? && s'.inactive == s.inactive + {owns.value} && s'.made == s.made)
               || (owns.None? && owns'.Some? && owns'.value in s.inactive && s'.inactive == s.inactive - {owns'.value} && s'.made == s.made)
               || (owns.None? && owns' == Some(s.made) && s'.inactive == s.inactive && s'.made == s.made + 1)
  {
    assert LocalOk(s, a.t, s.threads[a.t]);
    hide AtOk, OwnOk, TopOk, Passed, Alone, TableOk;
  }

  lemma OwnsChangeNew(s: State, a: Action)
    requires Inv(s) && Enabled(s, a) && !(a.Run? && (s.threads[a.t].pc.Find? || s.threads[a.t].pc.Migrate? || Exiting(s.threads[a.t].pc)))
    ensures var s', owns := Do(s, a), s.threads[a.t].owns;
            && s'.threads == s.threads[a.t := s'.threads[a.t]]
            && var owns' := s'.threads[a.t].owns;
               || (owns' == owns && s'.inactive == s.inactive && s'.made == s.made)
               || (owns.Some? && owns'.None? && s'.inactive == s.inactive + {owns.value} && s'.made == s.made)
               || (owns.None? && owns'.Some? && owns'.value in s.inactive && s'.inactive == s.inactive - {owns'.value} && s'.made == s.made)
               || (owns.None? && owns' == Some(s.made) && s'.inactive == s.inactive && s'.made == s.made + 1)
  {
    assert LocalOk(s, a.t, s.threads[a.t]);
    hide AtOk, OwnOk, TopOk, Passed, Alone, TableOk;
  }

  /** In every run, each producer ever made is owned by a thread, or was given back and can be recycled. */
  lemma {:induction false} ProducersKept(run: seq<State>, actions: seq<Action>, p: Producer)
    requires IsRun(run, actions) && p < run[|actions|].made
    ensures Kept(run[|actions|], p)
    decreases |actions|
  {
    hide Do, Inv, Kept;
    var n := |actions|;
    if n > 0 {
      assert run[..n][n - 1] == run[n - 1];
      RunInv(run[..n], actions[..n - 1]);
      if p < run[n - 1].made {
        ProducersKept(run[..n], actions[..n - 1], p);
      }
      KeptStep(run[n - 1], actions[n - 1], p);
    }
  }

  // ---------------------------------------------------------------- the counter

  ghost function Flying(): Local -> nat { (l: Local) => if HashRoom.InFlight(l.pc) then 1 else 0 }

  /** A newcomer puts its id into a slot that was never used. */
  predicate FillsFirst(s: State, a: Action) {
    && a.Run? && a.t in s.threads && s.threads[a.t].pc.Place? && InRange(s, s.threads[a.t].pc)
    && var pc := s.threads[a.t].pc;
       |s.tables[pc.main]| > 0 && s.tables[pc.main][SlotOf(a.t, pc.probes, |s.tables[pc.main]|)].Empty?
  }

  lemma CountStep(s: State, a: Action)
    requires Inv(s) && Enabled(s, a)
    ensures Do(s, a).count - Sum(Do(s, a).threads, Flying()) == s.count - Sum(s.threads, Flying()) + if FillsFirst(s, a) then 1 else 0
  {
    HashRoom.ThreadStep(s, a, Flying());
    OwnCount(s, a);
  }

  lemma OwnCount(s: State, a: Action)
    requires Inv(s) && Enabled(s, a)
    ensures a.t in Do(s, a).threads
    ensures Do(s, a).count - s.count ==
      Flying()(Do(s, a).threads[a.t]) - Flying()(s.threads[a.t]) + if FillsFirst(s, a) then 1 else 0
  {
    hide Do, Inv, FillsFirst;
    if a.Run? && (s.threads[a.t].pc.Find? || s.threads[a.t].pc.Migrate? || Exiting(s.threads[a.t].pc)) {
      OwnCountFound(s, a);
    } else if a.Run? && s.threads[a.t].pc.Place? {
      OwnCountPlaced(s, a);
    } else {
      OwnCountNew(s, a);
    }
  }

  lemma OwnCountFound(s: State, a: Action)
    requires Inv(s) && Enabled(s, a) && a.Run? && (s.threads[a.t].pc.Find? || s.threads[a.t].pc.Migrate? || Exiting(s.threads[a.t].pc))
    ensures a.t in Do(s, a).threads
    ensures Do(s, a).count - s.count ==
      Flying()(Do(s, a).threads[a.t]) - Flying()(s.threads[a.t]) + if FillsFirst(s, a) then 1 else 0
  {
    assert LocalOk(s, a.t, s.threads[a.t]);
    hide AtOk, OwnOk, TopOk, Passed, Alone, TableOk;
  }

  lemma OwnCountPlaced(s: State, a: Action)
    requires Inv(s) && Enabled(s, a) && a.Run? && s.threads[a.t].pc.Place?
    ensures a.t in Do(s, a).threads
    ensures Do(s, a).count - s.count ==
      Flying()(Do(s, a).threads[a.t]) - Flying()(s.threads[a.t]) + if FillsFirst(s, a) then 1 else 0
  {
    assert LocalOk(s, a.t, s.threads[a.t]);
    hide AtOk, OwnOk, TopOk, Passed, Alone, TableOk;
  }

  lemma OwnCountNew(s: State, a: Action)
    requires Inv(s) && Enabled(s, a) && !(a.Run? && (s.threads[a.t].pc.Find? || s.threads[a.t].pc.Migrate? || Exiting(s.threads[a.t].pc))) && !(a.Run? && s.threads[a.t].pc.Place?)
    ensures a.t in Do(s, a).threads
    ensures Do(s, a).count - s.count ==
      Flying()(Do(s, a).threads[a.t]) - Flying()(s.threads[a.t]) + if FillsFirst(s, a) then 1 else 0
  {
    hide Inv;
  }

  /** How many steps of a run fill a slot that was never used. */
  ghost function FirstFills(run: seq<State>, actions: seq<Action>): nat
    requires |run| == |actions| + 1
  {
    if actions == [] then 0
    else
      var n := |actions| - 1;
      FirstFills(run[..n + 1], actions[..n]) + if FillsFirst(run[n], actions[n]) then 1 else 0
  }

  /** In every run the counter is the number of newcomers that did not reuse a tombstone, and of those still
      on their way: nobody is counted twice, and whoever gives up is taken off again. */
  lemma {:induction false} CounterExact(run: seq<State>, actions: seq<Action>)
    requires IsRun(run, actions)
    ensures run[|actions|].count == FirstFills(run, actions) + Sum(run[|actions|].threads, Flying())
    decreases |actions|
  {
    hide Do, Inv, FillsFirst;
    var n := |actions|;
    if n == 0 {
      SumZero(run[0].threads, Flying());
    } else {
      assert run[..n][n - 1] == run[n - 1];
      RunInv(run[..n], actions[..n - 1]);
      CounterExact(run[..n], actions[..n - 1]);
      CountStep(run[n - 1], actions[n - 1]);
    }
  }
}
