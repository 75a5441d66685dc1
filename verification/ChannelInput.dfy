/**
 `Channel::readData` with any number of read workers: one holds `readLock` at a time, receives a
 chunk from the kernel, queues it and runs the listeners, which may take bytes from the queue.
 */
module ChannelInput {
  import opened Basics
  import opened StreamQueue

  type Thread = nat

  datatype Pc = Idle | Locking | Receiving | Checking(chunk: seq<Byte>) | Queueing(chunk: seq<Byte>) | Listening

  datatype Owner = Nobody | By(t: Thread)

  /** `received` is everything the kernel handed out, `taken` everything listeners dequeued. */
  datatype State = State(
    active: bool,
    socketActive: bool,
    lock: Owner,
    received: seq<Byte>,
    queue: seq<Byte>,
    taken: seq<Byte>,
    pc: map<Thread, Pc>)

  /** `chunk` is what `recv` delivers: empty at the end of the stream, on an error, or when there is
      nothing to read. */
  datatype Action =
    | Call(t: Thread)
    | Run(t: Thread, chunk: seq<Byte>)
    | Take(t: Thread, maxCount: nat)
    | Shutdown       // Channel::queueShutdown, by any thread at any time
    | StopSocket     // Socket::notifyStop
    | StartSocket    // ServerSocket::bindAndListen sets Socket::active again and keeps the channels

  predicate Enabled(s: State, a: Action) {
    match a
    case Call(t) => t in s.pc && s.pc[t].Idle?
    case Run(t, _) => t in s.pc && !s.pc[t].Idle?
    case Take(t, _) => t in s.pc && s.pc[t].Listening?
    case Shutdown => true
    case StopSocket => true
    case StartSocket => true
  }

  predicate IsActive(s: State) { s.active && s.socketActive }

  /** One operation. Lines refer to src/Socket.cpp. */
  function Do(s: State, a: Action): State
    requires Enabled(s, a)
  {
    match a
    case Shutdown => s.(active := false)
    case StopSocket => s.(socketActive := false)
    case StartSocket => s.(socketActive := true)
    case Call(t) => s.(pc := s.pc[t := if s.active then Locking else Idle])  // 104
    case Take(t, maxCount) =>  // a listener of 153 dequeues
      var n := Min(maxCount, |s.queue|);
      s.(taken := s.taken + s.queue[..n], queue := s.queue[n..])
    case Run(t, chunk) =>
      match s.pc[t]
      case Idle => s
      case Locking =>  // 107
        if s.lock.Nobody? then s.(lock := By(t), pc := s.pc[t := Receiving]) else s.(pc := s.pc[t := Idle])
      case Receiving =>  // 114
        s.(received := s.received + chunk, pc := s.pc[t := Checking(chunk)])
      case Checking(c) =>  // 118-145
        if !IsActive(s) || c == [] then s.(lock := Nobody, pc := s.pc[t := Idle])
        else s.(pc := s.pc[t := Queueing(c)])
      case Queueing(c) => s.(queue := s.queue + c, pc := s.pc[t := Listening])  // 150
      case Listening => s.(lock := Nobody, pc := s.pc[t := Idle])  // 161
  }

  ghost predicate Init(s: State) {
    && s.active && s.socketActive && s.lock.Nobody?
    && s.received == s.queue == s.taken == []
    && forall t :: t in s.pc ==> s.pc[t].Idle?
  }

  ghost predicate IsRun(run: seq<State>, actions: seq<Action>) {
    && |run| == |actions| + 1
    && Init(run[0])
    && forall i :: 0 <= i < |actions| ==> Enabled(run[i], actions[i]) && run[i + 1] == Do(run[i], actions[i])
  }

  predicate InLock(l: Pc) { l.Receiving? || l.Checking? || l.Queueing? || l.Listening? }

  /** Bytes received by the worker in the lock and not queued yet. */
  function InFlight(s: State): seq<Byte> {
    if s.lock.By? && s.lock.t in s.pc && (s.pc[s.lock.t].Checking? || s.pc[s.lock.t].Queueing?)
    then s.pc[s.lock.t].chunk
    else []
  }

  /** Everything received is accounted for, in order. */
  predicate Aligned(s: State) { s.taken + s.queue + InFlight(s) == s.received }

  /** The action throws away a chunk because the channel or its socket has become inactive (118). */
  predicate Drops(s: State, a: Action) {
    a.Run? && a.t in s.pc && s.pc[a.t].Checking? && s.pc[a.t].chunk != [] && !IsActive(s)
  }

  /** The action queues a chunk (150). */
  predicate Queues(s: State, a: Action) {
    a.Run? && a.t in s.pc && s.pc[a.t].Queueing? && s.pc[a.t].chunk != []
  }

  ghost predicate LockOk(s: State) {
    && (forall t :: t in s.pc ==> (InLock(s.pc[t]) <==> s.lock == By(t)))
    && (s.lock.By? ==> s.lock.t in s.pc)
  }

  /** The exact condition: an action keeps received, queued and taken bytes aligned if and only if
      it does not drop a chunk. */
  lemma AlignedStep(s: State, a: Action)
    requires LockOk(s) && Aligned(s) && Enabled(s, a)
    ensures LockOk(Do(s, a))
    ensures Aligned(Do(s, a)) <==> !Drops(s, a)
  {
    var s' := Do(s, a);
    if a.Take? {
      assert s'.taken + s'.queue == s.taken + s.queue;
    } else if a.Run? && s.pc[a.t].Queueing? {
      assert s'.taken + s'.queue + [] == s.taken + s.queue + s.pc[a.t].chunk;
    } else if a.Run? && s.pc[a.t].Receiving? {
      assert InFlight(s) == [] && InFlight(s') == a.chunk;
      assert s.taken + s.queue + [] == s.taken + s.queue;
    } else if a.Run? && s.pc[a.t].Checking? {
      assert |s'.taken + s'.queue + InFlight(s')| == |s.taken + s.queue| + |InFlight(s')|;
      assert s.taken + s.queue + [] == s.taken + s.queue;
    } else {
      assert InFlight(s') == InFlight(s);
    }
  }

  /** Nothing is queued behind a dropped chunk. */
  ghost predicate StopsAfterDrop(run: seq<State>, actions: seq<Action>)
    requires IsRun(run, actions)
  {
    forall i, j :: 0 <= i < j < |actions| && Drops(run[i], actions[i]) ==> !Queues(run[j], actions[j])
  }

  ghost predicate NoDrops(run: seq<State>, actions: seq<Action>)
    requires IsRun(run, actions)
  {
    forall i :: 0 <= i < |actions| ==> !Drops(run[i], actions[i])
  }

  lemma {:induction false} RunLock(run: seq<State>, actions: seq<Action>, i: nat)
    requires IsRun(run, actions) && i < |run|
    ensures LockOk(run[i])
  {
    if i > 0 {
      RunLock(run, actions, i - 1);
      LockStep(run[i - 1], actions[i - 1]);
    }
  }

  lemma LockStep(s: State, a: Action)
    requires LockOk(s) && Enabled(s, a)
    ensures LockOk(Do(s, a))
  {
  }

  lemma {:induction false} RunAligned(run: seq<State>, actions: seq<Action>, i: nat)
    requires IsRun(run, actions) && i < |run|
    requires forall k :: 0 <= k < i ==> !Drops(run[k], actions[k])
    ensures Aligned(run[i])
  {
    if i > 0 {
      RunLock(run, actions, i - 1);
      RunAligned(run, actions, i - 1);
      AlignedStep(run[i - 1], actions[i - 1]);
    }
  }

  /** All states of a run are aligned if and only if no step drops a chunk. */
  lemma AlignedExactly(run: seq<State>, actions: seq<Action>)
    requires IsRun(run, actions)
    ensures (forall i :: 0 <= i < |run| ==> Aligned(run[i])) <==> NoDrops(run, actions)
  {
    if NoDrops(run, actions) {
      forall i | 0 <= i < |run|
        ensures Aligned(run[i])
      {
        RunAligned(run, actions, i);
      }
    } else {
      var i :| 0 <= i < |actions| && Drops(run[i], actions[i]);
      RunLock(run, actions, i);
      if Aligned(run[i]) {
        AlignedStep(run[i], actions[i]);
        assert !Aligned(run[i + 1]);
      }
    }
  }

  /** After a chunk was dropped: what is taken and queued can only stay, as nothing more is queued. */
  lemma FrozenStep(s: State, a: Action)
    requires Enabled(s, a) && s.taken + s.queue <= s.received && !Queues(s, a)
    ensures Do(s, a).taken + Do(s, a).queue <= Do(s, a).received
  {
    var s' := Do(s, a);
    assert a.Take? ==> s'.taken + s'.queue == s.taken + s.queue;
    assert a.Run? && s.pc[a.t].Queueing? ==> s'.queue == s.queue;
  }

  /** With `d` the first drop. */
  lemma {:induction false} RunFrozen(run: seq<State>, actions: seq<Action>, d: nat, i: nat)
    requires IsRun(run, actions) && StopsAfterDrop(run, actions) && d < i < |run|
    requires Drops(run[d], actions[d]) && forall k :: 0 <= k < d ==> !Drops(run[k], actions[k])
    ensures run[i].taken + run[i].queue <= run[i].received
  {
    if i == d + 1 {
      RunAligned(run, actions, d);
      PrefixOfAligned(run[d]);
    } else {
      RunFrozen(run, actions, d, i - 1);
      FrozenStep(run[i - 1], actions[i - 1]);
    }
  }

  lemma PrefixOfAligned(s: State)
    requires Aligned(s)
    ensures s.taken + s.queue <= s.received
  {
    assert s.taken + s.queue <= s.taken + s.queue + InFlight(s);
  }

  lemma {:induction false} FirstDrop(run: seq<State>, actions: seq<Action>, i: nat) returns (d: nat)
    requires IsRun(run, actions) && i < |run|
    ensures d <= i && (forall k :: 0 <= k < d ==> !Drops(run[k], actions[k]))
    ensures d < i ==> Drops(run[d], actions[d])
  {
    if i == 0 {
      d := 0;
    } else {
      d := FirstDrop(run, actions, i - 1);
      if d == i - 1 && !Drops(run[d], actions[d]) {
        d := i;
      }
    }
  }

  /** However many workers read, and however often the socket is stopped and started under the channel,
      the bytes listeners took followed by the bytes still queued are a prefix of the received stream, as
      long as nothing is queued behind a dropped chunk; if no chunk was dropped they are all of it when no read
      is in flight. */
  lemma StreamInOrder(run: seq<State>, actions: seq<Action>, i: nat)
    requires IsRun(run, actions) && i < |run| && StopsAfterDrop(run, actions)
    ensures var s := run[i];
            && s.taken + s.queue <= s.received
            && (NoDrops(run, actions) && (forall t :: t in s.pc ==> s.pc[t].Idle?) ==> s.taken + s.queue == s.received)
  {
    var s := run[i];
    var d := FirstDrop(run, actions, i);
    if d < i {
      RunFrozen(run, actions, d, i);
    } else {
      RunAligned(run, actions, i);
      PrefixOfAligned(s);
      if forall t :: t in s.pc ==> s.pc[t].Idle? {
        assert InFlight(s) == [];
        assert s.taken + s.queue + [] == s.taken + s.queue;
      }
    }
  }

  /** What `recv` delivered in the first `i` steps. */
  ghost function Delivered(run: seq<State>, actions: seq<Action>, i: nat): seq<Byte>
    requires i <= |actions| < |run|
  {
    if i == 0 then []
    else
      var s, a := run[i - 1], actions[i - 1];
      Delivered(run, actions, i - 1) + if a.Run? && a.t in s.pc && s.pc[a.t].Receiving? then a.chunk else []
  }

  /** The received stream is everything `recv` ever delivered, in order. */
  lemma {:induction false} ReceivedAll(run: seq<State>, actions: seq<Action>, i: nat)
    requires IsRun(run, actions) && i < |run|
    ensures run[i].received == Delivered(run, actions, i)
  {
    if i > 0 {
      ReceivedAll(run, actions, i - 1);
      assert run[i] == Do(run[i - 1], actions[i - 1]);
    }
  }

  /** One step to `s'`. */
  lemma Step(s: State, a: Action, s': State) returns (r: State)
    requires Enabled(s, a) && s' == Do(s, a)
    ensures r == s'
  {
    r := s';
  }

  /** A call of `readData` that nobody disturbs: with the lock free it queues the whole chunk, unless the
      channel or its socket is stopped; with the lock taken, or the channel shut down, it does nothing. */
  lemma LoneRead(s: State, t: Thread, chunk: seq<Byte>) returns (run: seq<State>, actions: seq<Action>)
    requires t in s.pc && s.pc[t].Idle?
    ensures |run| == |actions| + 1 && run[0] == s
    ensures forall i :: 0 <= i < |actions| ==> Enabled(run[i], actions[i]) && run[i + 1] == Do(run[i], actions[i])
    ensures forall i :: 0 <= i < |actions| ==> actions[i] == Call(t) || actions[i] == Run(t, chunk)
    ensures run[|actions|] ==
      if !s.active || s.lock.By? then s
      else if !s.socketActive || chunk == [] then s.(received := s.received + chunk)
      else s.(received := s.received + chunk, queue := s.queue + chunk)
  {
    var r := Run(t, chunk);
    assert s.pc[t := Idle] == s.pc;
    var s1 := Step(s, Call(t), s.(pc := s.pc[t := if s.active then Locking else Idle]));
    if !s.active {
      run, actions := [s, s1], [Call(t)];
    } else if s.lock.By? {
      var s2 := Step(s1, r, s);
      run, actions := [s, s1, s2], [Call(t), r];
    } else {
      var s2 := Step(s1, r, s.(lock := By(t), pc := s.pc[t := Receiving]));
      var s3 := Step(s2, r, s2.(received := s.received + chunk, pc := s.pc[t := Checking(chunk)]));
      if !s.socketActive || chunk == [] {
        var s4 := Step(s3, r, s3.(lock := Nobody, pc := s.pc));
        run, actions := [s, s1, s2, s3, s4], [Call(t), r, r, r];
      } else {
        var s4 := Step(s3, r, s3.(pc := s.pc[t := Queueing(chunk)]));
        var s5 := Step(s4, r, s4.(queue := s.queue + chunk, pc := s.pc[t := Listening]));
        var s6 := Step(s5, r, s5.(lock := Nobody, pc := s.pc));
        run, actions := [s, s1, s2, s3, s4, s5, s6], [Call(t), r, r, r, r, r];
      }
    }
  }

  /** A listener gets the first bytes of the queue, as many as it asks for if there are so many. */
  lemma ListenerGets(s: State, t: Thread, maxCount: nat)
    requires Enabled(s, Take(t, maxCount))
    ensures var s' := Do(s, Take(t, maxCount));
            && s.taken <= s'.taken && s'.taken + s'.queue == s.taken + s.queue
            && (s'.queue == [] || |s'.taken| - |s.taken| == maxCount) && |s'.taken| - |s.taken| <= maxCount
  {
  }

  // ---------------------------------------------------------------- a channel that is never started again

  /** Nobody is about to queue anything, and nobody will be. */
  ghost predicate Stopped(s: State) {
    !IsActive(s) && forall t :: t in s.pc ==> !s.pc[t].Queueing?
  }

  lemma {:induction false} RunStopped(run: seq<State>, actions: seq<Action>, d: nat, i: nat)
    requires IsRun(run, actions) && d < i < |run| && Drops(run[d], actions[d])
    requires forall j :: 0 <= j < |actions| ==> !actions[j].StartSocket?
    ensures Stopped(run[i])
  {
    RunLock(run, actions, i - 1);
    if i == d + 1 {
      assert forall t :: t in run[d].pc && t != actions[d].t ==> !InLock(run[d].pc[t]);
    } else {
      RunStopped(run, actions, d, i - 1);
    }
  }

  /** Without a restart nothing is queued behind a dropped chunk. */
  lemma NoRestart(run: seq<State>, actions: seq<Action>)
    requires IsRun(run, actions)
    requires forall j :: 0 <= j < |actions| ==> !actions[j].StartSocket?
    ensures StopsAfterDrop(run, actions)
  {
    forall i, j | 0 <= i < j < |actions| && Drops(run[i], actions[i])
      ensures !Queues(run[j], actions[j])
    {
      RunStopped(run, actions, i, j);
    }
  }

  lemma Link(run: seq<State>, actions: seq<Action>, a: Action) returns (run': seq<State>, actions': seq<Action>)
    requires IsRun(run, actions) && Enabled(run[|actions|], a)
    ensures IsRun(run', actions') && run'[|actions'|] == Do(run[|actions|], a)
  {
    run', actions' := run + [Do(run[|actions|], a)], actions + [a];
  }

  /** With a restart it can fail: a chunk received while the socket is stopped is dropped (118),
      and once the socket is started again the next chunk is queued behind the gap. */
  lemma RestartLeavesGap() returns (run: seq<State>, actions: seq<Action>)
    ensures IsRun(run, actions)
    ensures var s := run[|actions|]; s.received == [1, 2] && s.queue == [2] && s.taken == []
    ensures !(run[|actions|].taken + run[|actions|].queue <= run[|actions|].received)
  {
    run, actions := [State(true, true, Nobody, [], [], [], map[0 := Idle])], [];
    run, actions := Link(run, actions, Call(0));
    run, actions := Link(run, actions, Run(0, []));
    run, actions := Link(run, actions, StopSocket);
    run, actions := Link(run, actions, Run(0, [1]));
    run, actions := Link(run, actions, Run(0, []));
    run, actions := Link(run, actions, StartSocket);
    run, actions := Link(run, actions, Call(0));
    run, actions := Link(run, actions, Run(0, []));
    run, actions := Link(run, actions, Run(0, [2]));
    run, actions := Link(run, actions, Run(0, []));
    run, actions := Link(run, actions, Run(0, []));
    assert run[|actions|].received == [1, 2];
    assert run[|actions|].queue == [2];
    assert (run[|actions|].taken + run[|actions|].queue)[0] == 2;
  }
}
