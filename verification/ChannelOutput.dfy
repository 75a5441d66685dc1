/**
 The write side of a channel: `queueWrite`, `handleWriteQueue` and `sendBytes` of src/Socket.cpp,
 with the kernel's `send` free to accept any part of what it is given.
 */
module ChannelOutput {
  import opened Basics
  import opened StreamQueue
  import WrapAround

  // ---------------------------------------------------------------- one message

  /** What one round of the send loop meets. */
  datatype Event = Inactive | Accepted(n: nat) | WouldBlock | Failure

  /** `sent_bytes` compared with a `size_t` is first converted to unsigned. */
  function AsUnsigned(x: int): int { if x < 0 then x + WrapAround.WORD else x }

  /** How many of `n` bytes the loop hands to the kernel. */
  function Sent(n: nat, events: seq<Event>): nat
    decreases |events|
  {
    if n == 0 || events == [] || !events[0].Accepted? then 0
    else
      var k := Min(events[0].n, n);
      if k < n - k then k + Sent(n - k, events[1..]) else k
  }

  /** Whether the loop meets an error of the kernel. */
  function Fails(n: nat, events: seq<Event>): bool
    decreases |events|
  {
    if n == 0 || events == [] then false
    else if !events[0].Accepted? then events[0].Failure?
    else
      var k := Min(events[0].n, n);
      k < n - k && Fails(n - k, events[1..])
  }

  /** The send loop (225-255). `events` is what the channel's state and the kernel answer, round by
      round; a channel found inactive after the last of them ends the loop. */
  method SendBytes(bytes: seq<Byte>, events: seq<Event>) returns (wire: seq<Byte>, shutdown: bool)
    requires |bytes| < WrapAround.WORD
    ensures wire <= bytes
    ensures |wire| == Sent(|bytes|, events)
    ensures shutdown <==> Fails(|bytes|, events)
  {
    wire, shutdown := [], false;
    var rest := bytes;
    var sentBytes: int := 0;
    var next := 0;
    while AsUnsigned(sentBytes) < |rest|
      invariant 0 <= next <= |events| && |rest| < WrapAround.WORD
      invariant wire + rest == bytes || (wire == bytes && AsUnsigned(sentBytes) >= |rest|)
      invariant -1 <= sentBytes < WrapAround.WORD
      invariant |bytes| > 0 ==>
        (Sent(|bytes|, events) == |wire| + if AsUnsigned(sentBytes) < |rest| then Sent(|rest|, events[next..]) else 0)
      invariant !shutdown && (Fails(|bytes|, events) <==> AsUnsigned(sentBytes) < |rest| && Fails(|rest|, events[next..]))
      decreases |events| - next, AsUnsigned(sentBytes) < |rest|
    {
      if next == |events| || events[next].Inactive? {
        break;
      }
      var e := events[next];
      next := next + 1;
      assert events[next - 1..][1..] == events[next..];
      if e.WouldBlock? {
        sentBytes := -1;
        continue;
      }
      if e.Failure? {
        shutdown := true;
        break;
      }
      sentBytes := Min(e.n, |rest|);
      wire := wire + rest[..sentBytes];
      if sentBytes < |rest| {
        rest := rest[sentBytes..];
      }
    }
  }

  /** What is left to send after `j` rounds that all accepted something. */
  function Left(n: nat, events: seq<Event>, j: nat): int
    requires j <= |events| && forall i :: 0 <= i < j ==> events[i].Accepted?
  {
    if j == 0 then n else Left(n, events, j - 1) - events[j - 1].n
  }

  /** Every round before round `m` accepted something, but less than half of what was left to it. */
  ghost predicate Reaches(n: nat, events: seq<Event>, m: nat) {
    && m <= |events|
    && (forall i :: 0 <= i < m ==> events[i].Accepted?)
    && (forall j :: 0 <= j < m ==> 2 * events[j].n < Left(n, events, j))
  }

  /** The loop comes to round `m`, which accepts all that is left. */
  ghost predicate FinishesAt(n: nat, events: seq<Event>, m: nat) {
    m < |events| && Reaches(n, events, m) && events[m].Accepted? && events[m].n >= Left(n, events, m)
  }

  /** The kernel reports an error in round `m`. */
  ghost predicate FailsAt(n: nat, events: seq<Event>, m: nat) {
    m < |events| && Reaches(n, events, m) && events[m].Failure?
  }

  lemma {:induction false} LeftShift(n: nat, events: seq<Event>, j: nat)
    requires 0 < j <= |events| && forall i :: 0 <= i < j ==> events[i].Accepted?
    requires events[0].n <= n
    ensures Left(n, events, j) == Left(n - events[0].n, events[1..], j - 1)
  {
    if j > 1 {
      LeftShift(n, events, j - 1);
      assert events[1..][j - 2] == events[j - 1];
    }
  }

  lemma ReachesShift(n: nat, events: seq<Event>, m: nat)
    requires events != [] && events[0].Accepted? && 2 * events[0].n < n
    ensures Reaches(n, events, m + 1) <==> Reaches(n - events[0].n, events[1..], m)
    ensures Reaches(n, events, m + 1) ==> Left(n, events, m + 1) == Left(n - events[0].n, events[1..], m)
  {
    var n', events' := n - events[0].n, events[1..];
    if Reaches(n, events, m + 1) {
      LeftShift(n, events, m + 1);
      forall j | 0 <= j < m
        ensures events'[j].Accepted? && 2 * events'[j].n < Left(n', events', j)
      {
        assert events'[j] == events[j + 1];
        LeftShift(n, events, j + 1);
      }
    }
    if Reaches(n', events', m) {
      AcceptedShift(events, m);
      forall j | 0 <= j < m + 1
        ensures 2 * events[j].n < Left(n, events, j)
      {
        if j > 0 {
          assert events[j] == events'[j - 1];
          LeftShift(n, events, j);
        }
      }
    }
  }

  lemma EndShift(n: nat, events: seq<Event>, m: nat)
    requires events != [] && events[0].Accepted? && 2 * events[0].n < n
    ensures FinishesAt(n, events, m + 1) <==> FinishesAt(n - events[0].n, events[1..], m)
    ensures FailsAt(n, events, m + 1) <==> FailsAt(n - events[0].n, events[1..], m)
    ensures !FinishesAt(n, events, 0) && !FailsAt(n, events, 0)
  {
    hide Reaches;
    ReachesShift(n, events, m);
    assert m + 1 < |events| ==> events[m + 1] == events[1..][m];
    assert Left(n, events, 0) == n;
  }

  lemma AcceptedShift(events: seq<Event>, m: nat)
    requires m < |events| && events[0].Accepted? && forall i :: 0 <= i < m ==> events[1..][i].Accepted?
    ensures forall i :: 0 <= i < m + 1 ==> events[i].Accepted?
  {
    forall i | 0 < i < m + 1
      ensures events[i].Accepted?
    {
      assert events[i] == events[1..][i - 1];
    }
  }

  /** Only the first round can end a message of which it takes half, or of which it takes nothing. */
  lemma OnlyFirst(n: nat, events: seq<Event>, m: nat)
    requires events != [] && Reaches(n, events, m) && !(events[0].Accepted? && 2 * events[0].n < n)
    ensures m == 0
  {
    assert Left(n, events, 0) == n;
  }

  /** A message reaches the wire whole if and only if some round accepts everything that is left while
      every earlier round took less than half: a round that takes half or more, or that would block,
      ends the loop early because of the comparison of line 233. */
  lemma {:induction false} CompleteExactly(n: nat, events: seq<Event>)
    requires n > 0
    ensures Sent(n, events) == n <==> exists m: nat :: FinishesAt(n, events, m)
    decreases |events|
  {
    if events == [] {
    } else if events[0].Accepted? && 2 * events[0].n < n {
      hide FinishesAt, Left, Reaches;
      var k := events[0].n;
      CompleteExactly(n - k, events[1..]);
      if Sent(n, events) == n {
        var m: nat :| FinishesAt(n - k, events[1..], m);
        EndShift(n, events, m);
        assert FinishesAt(n, events, m + 1);
      }
      if m: nat :| FinishesAt(n, events, m) {
        EndShift(n, events, 0);
        EndShift(n, events, m - 1);
        assert FinishesAt(n - k, events[1..], m - 1);
      }
    } else {
      assert Left(n, events, 0) == n;
      assert Sent(n, events) == n <==> FinishesAt(n, events, 0);
      forall m: nat | FinishesAt(n, events, m)
        ensures m == 0
      {
        OnlyFirst(n, events, m);
      }
    }
  }

  /** The send loop shuts the channel down if and only if the kernel reports an error in a round that is
      reached. */
  lemma {:induction false} FailsExactly(n: nat, events: seq<Event>)
    requires n > 0
    ensures Fails(n, events) <==> exists m: nat :: FailsAt(n, events, m)
    decreases |events|
  {
    if events == [] {
    } else if events[0].Accepted? && 2 * events[0].n < n {
      hide FailsAt, Left, Reaches;
      var k := events[0].n;
      FailsExactly(n - k, events[1..]);
      if Fails(n, events) {
        var m: nat :| FailsAt(n - k, events[1..], m);
        EndShift(n, events, m);
        assert FailsAt(n, events, m + 1);
      }
      if m: nat :| FailsAt(n, events, m) {
        EndShift(n, events, 0);
        EndShift(n, events, m - 1);
        assert FailsAt(n - k, events[1..], m - 1);
      }
    } else {
      assert Fails(n, events) <==> FailsAt(n, events, 0);
      forall m: nat | FailsAt(n, events, m)
        ensures m == 0
      {
        OnlyFirst(n, events, m);
      }
    }
  }

  lemma {:induction false} LeftSame(n: nat, events: seq<Event>, e: Event, j: nat)
    requires j <= |events| && forall i :: 0 <= i < j ==> events[i].Accepted?
    ensures (forall i :: 0 <= i < j ==> (events + [e])[i].Accepted?) && Left(n, events + [e], j) == Left(n, events, j)
  {
    if j > 0 {
      LeftSame(n, events, e, j - 1);
    }
  }

  /** Every round so far accepted something, but less than half of what was left. */
  ghost predicate GoingOn(n: nat, events: seq<Event>) { Reaches(n, events, |events|) }

  lemma FirstRound(n: nat, events: seq<Event>)
    requires GoingOn(n, events) && events != []
    ensures events[0].Accepted? && 2 * events[0].n < n
    ensures GoingOn(n - events[0].n, events[1..])
    ensures Left(n, events, |events|) == Left(n - events[0].n, events[1..], |events| - 1)
  {
    assert Left(n, events, 0) == n;
    ReachesShift(n, events, |events| - 1);
  }

  lemma {:induction false} SentSoFar(n: nat, events: seq<Event>)
    requires GoingOn(n, events)
    ensures Left(n, events, |events|) >= 0 && Sent(n, events) == n - Left(n, events, |events|) && !Fails(n, events)
    decreases |events|
  {
    hide GoingOn;
    if events != [] {
      FirstRound(n, events);
      SentSoFar(n - events[0].n, events[1..]);
    }
  }

  /** One more round that the loop comes to. */
  lemma {:induction false} SentNext(n: nat, events: seq<Event>, e: Event)
    requires GoingOn(n, events)
    ensures var left := Left(n, events, |events|);
            left >= 0 && Sent(n, events + [e]) == n - left + if e.Accepted? then Min(e.n, left) else 0
    decreases |events|
  {
    hide GoingOn;
    if events == [] {
      assert [e][1..] == [];
    } else {
      FirstRound(n, events);
      SentNext(n - events[0].n, events[1..], e);
      assert (events + [e])[1..] == events[1..] + [e];
    }
  }

  lemma {:induction false} FailsNext(n: nat, events: seq<Event>, e: Event)
    requires GoingOn(n, events)
    ensures Fails(n, events + [e]) <==> Left(n, events, |events|) > 0 && e.Failure?
    decreases |events|
  {
    hide GoingOn;
    if events == [] {
      assert [e][1..] == [];
    } else {
      FirstRound(n, events);
      FailsNext(n - events[0].n, events[1..], e);
      assert (events + [e])[1..] == events[1..] + [e];
    }
  }

  lemma GoesOn(n: nat, events: seq<Event>, e: Event)
    requires GoingOn(n, events) && e.Accepted? && 2 * e.n < Left(n, events, |events|)
    ensures GoingOn(n, events + [e])
    ensures Left(n, events + [e], |events| + 1) == Left(n, events, |events|) - e.n
  {
    LeftNext(n, events, e);
    hide Left;
    forall j | 0 <= j < |events| + 1
      ensures (events + [e])[j].Accepted? && 2 * (events + [e])[j].n < Left(n, events + [e], j)
    {
      LeftSame(n, events, e, j);
    }
  }

  lemma LeftNext(n: nat, events: seq<Event>, e: Event)
    requires GoingOn(n, events) && e.Accepted?
    ensures (forall i :: 0 <= i < |events| + 1 ==> (events + [e])[i].Accepted?)
    ensures Left(n, events + [e], |events| + 1) == Left(n, events, |events|) - e.n
  {
    LeftSame(n, events, e, |events|);
  }

  // ---------------------------------------------------------------- the channel

  type Sender = nat
  type Worker = nat
  type Message = m: seq<Byte> | |m| < 0x1_0000_0000_0000_0000

  datatype Job = Job(sender: Sender, message: Message)

  const MESSAGE_RESERVE: nat := 10

  datatype Pc =
    | Idle
    | Locking
    | Fetching(batch: seq<Job>)
    | Between(batch: seq<Job>)
    | Sending(batch: seq<Job>, rest: seq<Byte>, last: int)

  datatype Owner = Nobody | By(w: Worker)

  /** `queued` remembers every message ever queued by a sender, `log` every message a worker has
      started on (or abandoned after a failure), `parts` what of each went to the wire, and `met` what
      the rounds of its send loop met. */
  datatype State = State(
    active: bool,
    socketActive: bool,
    lock: Owner,
    queues: map<Sender, seq<Message>>,
    queued: map<Sender, seq<Message>>,
    log: seq<Job>,
    parts: seq<seq<Byte>>,
    met: seq<seq<Event>>,
    wire: seq<Byte>,
    pc: map<Worker, Pc>)

  datatype Action =
    | QueueWrite(sender: Sender, message: Message)
    | Call(w: Worker)
    | Fetch(w: Worker, sender: Sender)
    | Run(w: Worker, event: Event)
    | Shutdown
    | SetSocket(on: bool)

  predicate Enabled(s: State, a: Action) {
    match a
    case QueueWrite(sender, message) => sender in s.queues && sender in s.queued
    case Call(w) => w in s.pc && s.pc[w].Idle?
    case Fetch(w, sender) =>
      && w in s.pc && s.pc[w].Fetching? && |s.pc[w].batch| < MESSAGE_RESERVE
      && sender in s.queues && s.queues[sender] != []
    case Run(w, _) => w in s.pc && !s.pc[w].Idle? && (s.pc[w].Sending? ==> |s.log| == |s.parts| == |s.met| > 0)
    case Shutdown => true
    case SetSocket(_) => true
  }

  predicate IsActive(s: State) { s.active && s.socketActive }

  function Set(s: State, w: Worker, l: Pc): State { s.(pc := s.pc[w := l]) }

  /** The worker leaves `handleWriteQueue` and its lock. */
  function Release(s: State, w: Worker): State { Set(s, w, Idle).(lock := Nobody) }

  function Nothings(n: nat): seq<seq<Byte>> { seq(n, _ => []) }

  function NoRounds(n: nat): seq<seq<Event>> { seq(n, _ => []) }

  /** The message being sent has one more round. */
  function Meet(s: State, e: Event): State
    requires s.met != []
  {
    var i := |s.met| - 1;
    s.(met := s.met[i := s.met[i] + [e]])
  }

  /** The kernel takes the first `k` bytes of what the worker is sending. */
  function Transmit(s: State, w: Worker, k: nat): State
    requires w in s.pc && s.pc[w].Sending? && k <= |s.pc[w].rest| && s.parts != []
  {
    var l := s.pc[w];
    var sent := l.rest[..k];
    var i := |s.parts| - 1;
    Set(s, w, Sending(l.batch, if k < |l.rest| then l.rest[k..] else l.rest, k))
      .(wire := s.wire + sent, parts := s.parts[i := s.parts[i] + sent])
  }

  /** After an error the channel is shut down, and the rest of the batch is never sent. */
  function Abandon(s: State, batch: seq<Job>): State {
    s.(active := false, log := s.log + batch, parts := s.parts + Nothings(|batch|), met := s.met + NoRounds(|batch|))
  }

  /** Only the worker's own place and what it sends may change. */
  predicate OwnOnly(s: State, s': State, w: Worker) {
    && s'.queues == s.queues && s'.queued == s.queued && w in s.pc
    && s'.pc.Keys == s.pc.Keys && forall u :: u in s.pc && u != w ==> s'.pc[u] == s.pc[u]
  }

  /** On to the next message of the batch, if there is one (202, 227). */
  function Begin(s: State, w: Worker, batch: seq<Job>): (s': State)
    requires w in s.pc
    ensures OwnOnly(s, s', w)
  {
    if batch == [] then Release(s, w)
    else
      var s' := s.(log := s.log + [batch[0]], parts := s.parts + [[]]);
      if IsActive(s) then Set(s', w, Sending(batch[1..], batch[0].message, 0)).(met := s.met + [[]])
      else Set(s', w, Between(batch[1..])).(met := s.met + [[Inactive]])
  }

  /** One round of the send loop (233-254). */
  function Round(s: State, w: Worker, event: Event): (s': State)
    requires w in s.pc && s.pc[w].Sending? && |s.log| == |s.parts| == |s.met| > 0
    ensures OwnOnly(s, s', w)
  {
    var l := s.pc[w];
    if AsUnsigned(l.last) >= |l.rest| then Set(s, w, Between(l.batch))
    else if !IsActive(s) || event.Inactive? then Set(Meet(s, Inactive), w, Between(l.batch))
    else if event.WouldBlock? then Set(Meet(s, event), w, Sending(l.batch, l.rest, -1))
    else if event.Accepted? then Transmit(Meet(s, event), w, Min(event.n, |l.rest|))
    else Release(Abandon(Meet(s, event), l.batch), w)
  }

  /** The next operation of a worker. */
  function Work(s: State, w: Worker, event: Event): (s': State)
    requires w in s.pc && (s.pc[w].Sending? ==> |s.log| == |s.parts| == |s.met| > 0)
    ensures OwnOnly(s, s', w)
  {
    match s.pc[w]
    case Idle => s
    case Locking =>  // 185-189
      if s.lock.Nobody? then Set(s, w, Fetching([])).(lock := By(w)) else Set(s, w, Idle)
    case Fetching(batch) => Set(s, w, Between(batch))
    case Between(batch) => Begin(s, w, batch)
    case Sending(_, _, _) => Round(s, w, event)
  }

  /** One operation. Lines refer to src/Socket.cpp. */
  function Do(s: State, a: Action): State
    requires Enabled(s, a)
  {
    match a
    case Shutdown => s.(active := false)
    case SetSocket(on) => s.(socketActive := on)
    case QueueWrite(sender, message) =>  // 85-96
      if !s.active || message == [] then s
      else s.(queues := s.queues[sender := s.queues[sender] + [message]],
              queued := s.queued[sender := s.queued[sender] + [message]])
    case Call(w) => Set(s, w, if s.active then Locking else Idle)  // 177
    case Fetch(w, sender) =>  // 196
      var m := s.queues[sender];
      Set(s, w, Fetching(s.pc[w].batch + [Job(sender, m[0])])).(queues := s.queues[sender := m[1..]])
    case Run(w, event) => Work(s, w, event)
  }

  ghost predicate Init(s: State) {
    && s.lock.Nobody?
    && s.queues.Keys == s.queued.Keys
    && (forall n :: n in s.queues ==> s.queues[n] == s.queued[n] == [])
    && s.log == [] && s.parts == [] && s.met == [] && s.wire == []
    && forall w :: w in s.pc ==> s.pc[w].Idle?
  }

  ghost predicate IsRun(run: seq<State>, actions: seq<Action>) {
    && |run| == |actions| + 1
    && Init(run[0])
    && forall i :: 0 <= i < |actions| ==> Enabled(run[i], actions[i]) && run[i + 1] == Do(run[i], actions[i])
  }

  // ---------------------------------------------------------------- the invariant

  ghost function Concat(parts: seq<seq<Byte>>): seq<Byte> {
    if parts == [] then [] else Concat(parts[..|parts| - 1]) + parts[|parts| - 1]
  }

  /** The messages of one sender, in order. */
  ghost function Of(jobs: seq<Job>, sender: Sender): seq<Message> {
    if jobs == [] then []
    else Of(jobs[..|jobs| - 1], sender) +
         if jobs[|jobs| - 1].sender == sender then [jobs[|jobs| - 1].message] else []
  }

  lemma {:induction false} OfAppend(x: seq<Job>, y: seq<Job>, sender: Sender)
    ensures Of(x + y, sender) == Of(x, sender) + Of(y, sender)
  {
    if y == [] {
      assert x + y == x;
    } else {
      assert (x + y)[..|x + y| - 1] == x + y[..|y| - 1];
      OfAppend(x, y[..|y| - 1], sender);
    }
  }

  lemma ConcatUpdate(parts: seq<seq<Byte>>, sent: seq<Byte>)
    requires parts != []
    ensures Concat(parts[|parts| - 1 := parts[|parts| - 1] + sent]) == Concat(parts) + sent
  {
    var n := |parts| - 1;
    var parts' := parts[n := parts[n] + sent];
    assert parts'[..n] == parts[..n];
  }

  lemma {:induction false} ConcatNothings(parts: seq<seq<Byte>>, n: nat)
    ensures Concat(parts + Nothings(n)) == Concat(parts)
  {
    if n == 0 {
      assert parts + Nothings(n) == parts;
    } else {
      var p := parts + Nothings(n);
      assert p[..|p| - 1] == parts + Nothings(n - 1);
      ConcatNothings(parts, n - 1);
    }
  }

  predicate InLock(l: Pc) { l.Fetching? || l.Between? || l.Sending? }

  /** Messages fetched by the worker in the lock and not started yet. */
  function Batch(s: State): seq<Job> {
    if s.lock.By? && s.lock.w in s.pc && InLock(s.pc[s.lock.w]) then s.pc[s.lock.w].batch else []
  }

  ghost predicate LockOk(s: State) {
    && (forall w :: w in s.pc ==> (InLock(s.pc[w]) <==> s.lock == By(w)))
    && (s.lock.By? ==> s.lock.w in s.pc)
  }

  /** The wire is the concatenation of one prefix per message. */
  ghost predicate WireOk(s: State) {
    && |s.parts| == |s.log|
    && s.wire == Concat(s.parts)
    && forall i :: 0 <= i < |s.log| ==> s.parts[i] <= s.log[i].message
  }

  /** The worker sending has put on the wire what is missing from `rest`, or all of its message. */
  predicate SendingOk(s: State, l: Pc) {
    l.Sending? ==>
      && |s.log| == |s.parts| == |s.met| > 0
      && -1 <= l.last && |l.rest| < WrapAround.WORD
      && var i := |s.log| - 1;
         s.parts[i] + l.rest == s.log[i].message || (s.parts[i] == s.log[i].message && l.last >= |l.rest|)
  }

  /** How much of a message is on the wire is what the send loop is to send of it after these rounds, and
      if it met an error the channel is shut down. */
  predicate EntryOk(s: State, j: nat)
    requires j < |s.log| == |s.parts| == |s.met|
  {
    var n := |s.log[j].message|;
    |s.parts[j]| == Sent(n, s.met[j]) && (Fails(n, s.met[j]) ==> !s.active)
  }

  ghost predicate MetOk(s: State) {
    |s.log| == |s.parts| == |s.met| && forall j :: 0 <= j < |s.log| ==> EntryOk(s, j)
  }

  /** A worker whose loop goes on has come to this round. */
  ghost predicate RoundOk(s: State, l: Pc) {
    l.Sending? ==>
      && |s.log| == |s.parts| == |s.met| > 0
      && var i := |s.log| - 1;
         var n := |s.log[i].message|;
         (AsUnsigned(l.last) < |l.rest| ==> GoingOn(n, s.met[i]) && |l.rest| == Left(n, s.met[i], |s.met[i]|))
  }

  ghost predicate OrderOk(s: State, sender: Sender) {
    sender in s.queues && sender in s.queued ==>
      Line(s.log, Batch(s), s.queues[sender], sender) == s.queued[sender]
  }

  ghost predicate Inv(s: State) {
    && LockOk(s) && WireOk(s) && MetOk(s)
    && (forall w :: w in s.pc ==> SendingOk(s, s.pc[w]) && RoundOk(s, s.pc[w]))
    && (forall sender :: OrderOk(s, sender))
  }

  lemma OfOne(job: Job, sender: Sender)
    ensures Of([job], sender) == if job.sender == sender then [job.message] else []
  {
    assert [job][..0] == [];
  }

  /** Starting on the first message of the batch moves it from the batch to the log. */
  lemma OfStart(log: seq<Job>, batch: seq<Job>, sender: Sender)
    requires batch != []
    ensures Of(log + [batch[0]], sender) + Of(batch[1..], sender) == Of(log, sender) + Of(batch, sender)
  {
    assert batch == [batch[0]] + batch[1..];
    OfAppend([batch[0]], batch[1..], sender);
    OfAppend(log, [batch[0]], sender);
  }

  /** Fetching moves a sender's first queued message to the end of the batch. */
  lemma OfFetch(batch: seq<Job>, n: Sender, q: seq<Message>, sender: Sender)
    requires q != []
    ensures n == sender ==> Of(batch + [Job(n, q[0])], sender) + q[1..] == Of(batch, sender) + q
    ensures n != sender ==> Of(batch + [Job(n, q[0])], sender) == Of(batch, sender)
  {
    OfAppend(batch, [Job(n, q[0])], sender);
    OfOne(Job(n, q[0]), sender);
    assert q == [q[0]] + q[1..];
  }

  /** The messages of one sender: started, fetched and still queued. */
  ghost function Line(log: seq<Job>, batch: seq<Job>, q: seq<Message>, sender: Sender): seq<Message> {
    Of(log, sender) + Of(batch, sender) + q
  }

  lemma LineFetch(log: seq<Job>, batch: seq<Job>, q: seq<Message>, sender: Sender)
    requires q != []
    ensures Line(log, batch + [Job(sender, q[0])], q[1..], sender) == Line(log, batch, q, sender)
  {
    OfFetch(batch, sender, q, sender);
    assert Of(log, sender) + Of(batch + [Job(sender, q[0])], sender) + q[1..]
        == Of(log, sender) + (Of(batch + [Job(sender, q[0])], sender) + q[1..]);
  }

  lemma LineAbandon(log: seq<Job>, batch: seq<Job>, q: seq<Message>, sender: Sender)
    ensures Line(log + batch, [], q, sender) == Line(log, batch, q, sender)
  {
    OfAppend(log, batch, sender);
    assert Of(log + batch, sender) + [] == Of(log + batch, sender);
  }

  /** The parts of the state a sender's order depends on. */
  lemma OrderFetch(s: State, a: Action, sender: Sender)
    requires LockOk(s) && OrderOk(s, sender) && Enabled(s, a) && a.Fetch?
    requires sender in s.queues && sender in s.queued
    ensures OrderOk(Do(s, a), sender)
  {
    var batch, q := Batch(s), s.queues[a.sender];
    assert Batch(Do(s, a)) == batch + [Job(a.sender, q[0])];
    if a.sender == sender {
      LineFetch(s.log, batch, q, sender);
    } else {
      OfFetch(batch, a.sender, q, sender);
    }
  }

  lemma LineStart(log: seq<Job>, batch: seq<Job>, q: seq<Message>, sender: Sender)
    requires batch != []
    ensures Line(log + [batch[0]], batch[1..], q, sender) == Line(log, batch, q, sender)
  {
    OfStart(log, batch, sender);
  }

  /** Steps inside `handleWriteQueue` move messages only from the batch to the log: one that is started,
      or all that are abandoned after a failure. */
  predicate MovesBatch(s: State, s': State) {
    var batch := Batch(s);
    || (batch != [] && s'.log == s.log + [batch[0]] && Batch(s') == batch[1..])
    || (s'.log == s.log + batch && Batch(s') == [])
    || (s'.log == s.log && Batch(s') == batch)
  }

  lemma RunBatch(s: State, a: Action)
    requires LockOk(s) && Enabled(s, a) && a.Run?
    ensures MovesBatch(s, Do(s, a))
  {
    var s', w := Do(s, a), a.w;
    assert InLock(s.pc[w]) ==> Batch(s) == s.pc[w].batch;
    if s.pc[w].Between? && s.pc[w].batch != [] {
      assert s'.lock == By(w) && Batch(s') == s.pc[w].batch[1..];
    } else if s.pc[w].Sending? && s'.lock.Nobody? {
      assert Batch(s') == [];
    } else {
      assert s'.log == s.log;
    }
  }

  lemma OrderRun(s: State, a: Action, sender: Sender)
    requires LockOk(s) && OrderOk(s, sender) && Enabled(s, a) && a.Run?
    requires sender in s.queues && sender in s.queued
    ensures OrderOk(Do(s, a), sender)
  {
    var s', batch, q := Do(s, a), Batch(s), s.queues[sender];
    assert s'.queues == s.queues && s'.queued == s.queued;
    RunBatch(s, a);
    if batch != [] {
      LineStart(s.log, batch, q, sender);
    }
    LineAbandon(s.log, batch, q, sender);
  }

  lemma OrderStep(s: State, a: Action, sender: Sender)
    requires LockOk(s) && OrderOk(s, sender) && Enabled(s, a)
    requires sender in s.queues && sender in s.queued
    ensures OrderOk(Do(s, a), sender)
  {
    if a.Fetch? {
      OrderFetch(s, a, sender);
    } else if a.Run? {
      OrderRun(s, a, sender);
    } else {
      assert Do(s, a).log == s.log && Batch(Do(s, a)) == Batch(s);
      if a.QueueWrite? {
        var q := s.queues[sender];
        assert Line(s.log, Batch(s), q + [a.message], sender) == Line(s.log, Batch(s), q, sender) + [a.message];
      }
    }
  }

  /** A transmission extends the last part by what it puts on the wire. */
  lemma TransmitWire(s: State, w: Worker, k: nat)
    requires WireOk(s) && w in s.pc && s.pc[w].Sending? && k <= |s.pc[w].rest| && s.parts != []
    requires s.parts[|s.parts| - 1] + s.pc[w].rest == s.log[|s.log| - 1].message
    ensures WireOk(Transmit(s, w, k))
  {
    ConcatUpdate(s.parts, s.pc[w].rest[..k]);
    var i := |s.parts| - 1;
    assert s.parts[i] + s.pc[w].rest[..k] <= s.parts[i] + s.pc[w].rest;
  }

  /** What is abandoned adds nothing to the wire. */
  lemma AbandonWire(s: State, s': State, batch: seq<Job>)
    requires WireOk(s) && s'.log == s.log + batch && s'.parts == s.parts + Nothings(|batch|) && s'.wire == s.wire
    ensures WireOk(s')
  {
    ConcatNothings(s.parts, |batch|);
  }

  /** A message begins with an empty part. */
  lemma BeginWire(s: State, s': State, job: Job)
    requires WireOk(s) && s'.log == s.log + [job] && s'.parts == s.parts + [[]] && s'.wire == s.wire
    ensures WireOk(s')
  {
    assert s'.parts[..|s.parts|] == s.parts;
  }

  lemma WireStep(s: State, a: Action)
    requires WireOk(s) && Enabled(s, a) && (a.Run? ==> SendingOk(s, s.pc[a.w]))
    ensures WireOk(Do(s, a))
  {
    hide WireOk, SendingOk;
    if a.Run? && s.pc[a.w].Sending? {
      SendingWire(s, a);
    } else if a.Run? && s.pc[a.w].Between? && s.pc[a.w].batch != [] {
      BeginWire(s, Do(s, a), s.pc[a.w].batch[0]);
    } else {
      hide Round;
      SameWire(s, Do(s, a));
    }
  }

  lemma SameWire(s: State, s': State)
    requires WireOk(s) && s'.log == s.log && s'.parts == s.parts && s'.wire == s.wire
    ensures WireOk(s')
  {
  }

  lemma SendingWire(s: State, a: Action)
    requires WireOk(s) && Enabled(s, a) && a.Run? && s.pc[a.w].Sending? && SendingOk(s, s.pc[a.w])
    ensures WireOk(Do(s, a))
  {
    var l, s' := s.pc[a.w], Do(s, a);
    if AsUnsigned(l.last) >= |l.rest| || !IsActive(s) || a.event.Inactive? || a.event.WouldBlock? {
    } else if a.event.Accepted? {
      TransmitWire(Meet(s, a.event), a.w, Min(a.event.n, |l.rest|));
    } else {
      AbandonWire(s, s', l.batch);
    }
  }

  /** The worker that acts, if any. */
  predicate Acts(a: Action, w: Worker) { (a.Call? || a.Fetch? || a.Run?) && a.w == w }

  /** A worker outside the lock, or anybody else, sends nothing. */
  lemma OutsideLock(s: State, a: Action)
    requires Enabled(s, a) && (a.Run? ==> !InLock(s.pc[a.w]))
    ensures Do(s, a).log == s.log && Do(s, a).parts == s.parts && Do(s, a).met == s.met
  {
  }

  /** A step is one of its own worker only. */
  lemma OtherWorker(s: State, a: Action, w: Worker)
    requires Enabled(s, a) && w in s.pc && !Acts(a, w)
    ensures w in Do(s, a).pc && Do(s, a).pc[w] == s.pc[w]
  {
    hide Work;
  }

  lemma SendingStep(s: State, a: Action)
    requires Enabled(s, a) && a.Run? && s.pc[a.w].Sending? && SendingOk(s, s.pc[a.w])
    ensures a.w in Do(s, a).pc && SendingOk(Do(s, a), Do(s, a).pc[a.w])
  {
    var l := s.pc[a.w];
    if a.event.Accepted? && AsUnsigned(l.last) < |l.rest| {
      var k, i := Min(a.event.n, |l.rest|), |s.log| - 1;
      assert l.rest == l.rest[..k] + l.rest[k..];
      assert s.parts[i] + l.rest[..k] + l.rest[k..] == s.parts[i] + l.rest;
    }
  }

  lemma StartStep(s: State, a: Action, w: Worker)
    requires Enabled(s, a) && Acts(a, w) && !(a.Run? && s.pc[a.w].Sending?) && |s.log| == |s.parts| == |s.met|
    ensures w in Do(s, a).pc && SendingOk(Do(s, a), Do(s, a).pc[w])
  {
    if a.Run? && s.pc[a.w].Between? && s.pc[a.w].batch != [] {
      assert [] + s.pc[a.w].batch[0].message == s.pc[a.w].batch[0].message;
    }
  }

  /** A worker that is sending has the lock to itself. */
  lemma OthersWait(s: State, a: Action, w: Worker)
    requires LockOk(s) && Enabled(s, a) && w in s.pc && s.pc[w].Sending? && !Acts(a, w)
    ensures w in Do(s, a).pc && Do(s, a).pc[w] == s.pc[w]
    ensures Do(s, a).log == s.log && Do(s, a).parts == s.parts && Do(s, a).met == s.met
  {
    hide Do;
    OtherWorker(s, a, w);
    assert a.Run? ==> !InLock(s.pc[a.w]);
    OutsideLock(s, a);
  }

  lemma ThreadStep(s: State, a: Action, w: Worker)
    requires LockOk(s) && Enabled(s, a) && w in s.pc && SendingOk(s, s.pc[w]) && |s.log| == |s.parts| == |s.met|
    ensures w in Do(s, a).pc && SendingOk(Do(s, a), Do(s, a).pc[w])
  {
    hide Do;
    if Acts(a, w) {
      if a.Run? && s.pc[w].Sending? {
        SendingStep(s, a);
      } else {
        StartStep(s, a, w);
      }
    } else {
      OtherWorker(s, a, w);
      if s.pc[w].Sending? {
        OthersWait(s, a, w);
      }
    }
  }

  /** What a worker's step does to the lock. */
  lemma OwnLock(s: State, a: Action, w: Worker)
    requires LockOk(s) && Enabled(s, a) && Acts(a, w)
    ensures var s' := Do(s, a);
            && w in s'.pc && (InLock(s'.pc[w]) <==> s'.lock == By(w))
            && (s'.lock == s.lock || (s.lock.Nobody? && s'.lock == By(w)) || (s.lock == By(w) && s'.lock.Nobody?))
  {
  }

  lemma NoWorker(s: State, a: Action)
    requires Enabled(s, a) && !a.Call? && !a.Fetch? && !a.Run?
    ensures Do(s, a).pc == s.pc && Do(s, a).lock == s.lock
  {
  }

  lemma SameSenders(s: State, a: Action)
    requires Enabled(s, a)
    ensures Do(s, a).queues.Keys == s.queues.Keys && Do(s, a).queued.Keys == s.queued.Keys
  {
    hide Work;
  }

  lemma LockStep(s: State, a: Action)
    requires LockOk(s) && Enabled(s, a)
    ensures LockOk(Do(s, a))
  {
    hide Do;
    var s' := Do(s, a);
    if a.Call? || a.Fetch? || a.Run? {
      OwnLock(s, a, a.w);
    } else {
      NoWorker(s, a);
    }
    forall w | w in s'.pc
      ensures InLock(s'.pc[w]) <==> s'.lock == By(w)
    {
      WorkersStay(s, a, w);
      if !Acts(a, w) {
        OtherWorker(s, a, w);
      }
    }
    if s'.lock.By? && s'.lock == s.lock && !Acts(a, s'.lock.w) {
      OtherWorker(s, a, s'.lock.w);
    }
  }

  // ---------------------------------------------------------------- what the rounds met

  /** The round the sending worker is in. */
  lemma SendingEntry(s: State, a: Action)
    requires Enabled(s, a) && a.Run? && s.pc[a.w].Sending? && MetOk(s) && SendingOk(s, s.pc[a.w]) && RoundOk(s, s.pc[a.w])
    ensures var s', i := Do(s, a), |s.log| - 1;
            && i < |s'.log| == |s'.parts| == |s'.met| && EntryOk(s', i)
            && (s'.pc[a.w].Sending? ==> |s'.log| == |s.log| && RoundOk(s', s'.pc[a.w]))
  {
    hide Sent, Fails, GoingOn, Left;
    var l, i := s.pc[a.w], |s.log| - 1;
    var n, events := |s.log[i].message|, s.met[i];
    assert EntryOk(s, i);
    if AsUnsigned(l.last) < |l.rest| {
      var e := if IsActive(s) then a.event else Inactive;
      SentSoFar(n, events);
      SentNext(n, events, e);
      FailsNext(n, events, e);
      if e.Accepted? && 2 * e.n < |l.rest| {
        GoesOn(n, events, e);
      }
    }
  }

  lemma EntryKept(s: State, s': State, j: nat)
    requires j < |s.log| == |s.parts| == |s.met| && j < |s'.log| == |s'.parts| == |s'.met| && EntryOk(s, j)
    requires s'.log[j] == s.log[j] && s'.parts[j] == s.parts[j] && s'.met[j] == s.met[j] && (s'.active ==> s.active)
    ensures EntryOk(s', j)
  {
  }

  lemma EntryFresh(s: State, j: nat)
    requires j < |s.log| == |s.parts| == |s.met| && s.parts[j] == [] && (s.met[j] == [] || s.met[j] == [Inactive])
    ensures EntryOk(s, j)
  {
  }

  /** Actions that leave the entries alone, or add one. */
  lemma OtherEntries(s: State, a: Action)
    requires Enabled(s, a) && MetOk(s) && !(a.Run? && s.pc[a.w].Sending?)
    ensures MetOk(Do(s, a))
  {
    hide EntryOk;
    var s' := Do(s, a);
    assert s'.active ==> s.active;
    if a.Run? && s.pc[a.w].Between? && s.pc[a.w].batch != [] {
      EntryFresh(s', |s.log|);
    } else {
      assert s'.log == s.log && s'.parts == s.parts && s'.met == s.met;
    }
    forall j | 0 <= j < |s'.log|
      ensures EntryOk(s', j)
    {
      if j < |s.log| {
        assert EntryOk(s, j);
        EntryKept(s, s', j);
      }
    }
  }

  /** After a round, the entries before the one being sent are as they were, and those after it are new. */
  lemma RoundFrame(s: State, a: Action, j: nat)
    requires Enabled(s, a) && a.Run? && s.pc[a.w].Sending?
    ensures var s', i := Do(s, a), |s.log| - 1;
            && |s.log| <= |s'.log| == |s'.parts| == |s'.met| && (s'.active ==> s.active)
            && (j < i ==> s'.log[j] == s.log[j] && s'.parts[j] == s.parts[j] && s'.met[j] == s.met[j])
            && (i < j < |s'.log| ==> s'.parts[j] == [] && s'.met[j] == [])
  {
  }

  lemma SendingEntries(s: State, a: Action)
    requires Enabled(s, a) && a.Run? && s.pc[a.w].Sending? && MetOk(s) && SendingOk(s, s.pc[a.w]) && RoundOk(s, s.pc[a.w])
    ensures MetOk(Do(s, a))
  {
    hide EntryOk, Do, SendingOk, RoundOk;
    var s' := Do(s, a);
    SendingEntry(s, a);
    forall j | 0 <= j < |s'.log|
      ensures EntryOk(s', j)
    {
      RoundFrame(s, a, j);
      if j < |s.log| - 1 {
        assert EntryOk(s, j);
        EntryKept(s, s', j);
      } else if j >= |s.log| {
        EntryFresh(s', j);
      }
    }
  }

  lemma MetStep(s: State, a: Action)
    requires Inv(s) && Enabled(s, a)
    ensures MetOk(Do(s, a))
  {
    hide Do;
    if a.Run? && s.pc[a.w].Sending? {
      SendingEntries(s, a);
    } else {
      OtherEntries(s, a);
    }
  }

  lemma StartRound(s: State, a: Action, w: Worker)
    requires Enabled(s, a) && Acts(a, w) && !(a.Run? && s.pc[a.w].Sending?) && |s.log| == |s.parts| == |s.met|
    ensures w in Do(s, a).pc && RoundOk(Do(s, a), Do(s, a).pc[w])
  {
  }

  lemma RoundStep(s: State, a: Action, w: Worker)
    requires Inv(s) && Enabled(s, a) && w in s.pc
    ensures w in Do(s, a).pc && RoundOk(Do(s, a), Do(s, a).pc[w])
  {
    hide Do, EntryOk, WireOk, Left, GoingOn;
    if Acts(a, w) {
      if a.Run? && s.pc[w].Sending? {
        SendingEntry(s, a);
        ThreadStep(s, a, w);
      } else {
        StartRound(s, a, w);
      }
    } else {
      OtherWorker(s, a, w);
      if s.pc[w].Sending? {
        OthersWait(s, a, w);
      }
    }
  }

  lemma InvStep(s: State, a: Action)
    requires Inv(s) && Enabled(s, a)
    ensures Inv(Do(s, a))
  {
    hide Do, WireOk, MetOk, RoundOk, SendingOk, OrderOk;
    assert |s.log| == |s.parts| == |s.met| by { Lengths(s); }
    LockStep(s, a);
    WireStep(s, a);
    MetStep(s, a);
    forall sender
      ensures OrderOk(Do(s, a), sender)
    {
      OrderAny(s, a, sender);
    }
    forall w | w in Do(s, a).pc
      ensures SendingOk(Do(s, a), Do(s, a).pc[w]) && RoundOk(Do(s, a), Do(s, a).pc[w])
    {
      WorkersStay(s, a, w);
      ThreadStep(s, a, w);
      RoundStep(s, a, w);
    }
  }

  lemma Lengths(s: State)
    requires MetOk(s)
    ensures |s.log| == |s.parts| == |s.met|
  {
  }

  lemma WorkersStay(s: State, a: Action, w: Worker)
    requires Enabled(s, a) && w in Do(s, a).pc
    ensures w in s.pc
  {
    hide Work;
  }

  lemma OrderAny(s: State, a: Action, sender: Sender)
    requires LockOk(s) && OrderOk(s, sender) && Enabled(s, a)
    ensures OrderOk(Do(s, a), sender)
  {
    hide Do;
    SameSenders(s, a);
    if sender in s.queues && sender in s.queued {
      OrderStep(s, a, sender);
    }
  }

  lemma {:induction false} RunInv(run: seq<State>, actions: seq<Action>, i: nat)
    requires IsRun(run, actions) && i < |run|
    ensures Inv(run[i])
  {
    if i > 0 {
      RunInv(run, actions, i - 1);
      InvStep(run[i - 1], actions[i - 1]);
    }
  }

  /** For all answers of the kernel and all interleavings of write workers, the wire is one prefix of
      each message after the other, no byte twice or out of place; each prefix is as long as the send loop
      makes it for what its rounds met; and the messages of each sender are started in the order in which
      they were queued. */
  lemma WireInOrder(run: seq<State>, actions: seq<Action>, i: nat, sender: Sender)
    requires IsRun(run, actions) && i < |run|
    ensures var s := run[i];
            && |s.parts| == |s.log| == |s.met| && s.wire == Concat(s.parts)
            && (forall j :: 0 <= j < |s.log| ==> s.parts[j] <= s.log[j].message && |s.parts[j]| == Sent(|s.log[j].message|, s.met[j]))
            && (sender in s.queued && sender in s.queues ==> Of(s.log, sender) <= s.queued[sender])
  {
    RunInv(run, actions, i);
    var s := run[i];
    assert OrderOk(s, sender);
    forall j | 0 <= j < |s.log|
      ensures s.parts[j] <= s.log[j].message && |s.parts[j]| == Sent(|s.log[j].message|, s.met[j])
    {
      assert EntryOk(s, j);
    }
  }

  /** In every run, a message is on the wire whole if and only if some round of its loop accepted all that was
      left while each before it took less than half; and a message whose loop met an error in a round it
      came to has shut the channel down. */
  lemma CompleteInRun(run: seq<State>, actions: seq<Action>, i: nat, j: nat)
    requires IsRun(run, actions) && i < |run| && j < |run[i].log| && run[i].log[j].message != []
    ensures var s := run[i];
            && |s.parts| == |s.log| == |s.met|
            && (s.parts[j] == s.log[j].message <==> exists m: nat :: FinishesAt(|s.log[j].message|, s.met[j], m))
            && ((exists m: nat :: FailsAt(|s.log[j].message|, s.met[j], m)) ==> !s.active)
  {
    RunInv(run, actions, i);
    var s := run[i];
    var n := |s.log[j].message|;
    assert EntryOk(s, j) && s.parts[j] <= s.log[j].message;
    CompleteExactly(n, s.met[j]);
    FailsExactly(n, s.met[j]);
  }

  /** The non-empty messages queued by a sender in the first `i` steps, while the channel was active. */
  ghost function TakenIn(run: seq<State>, actions: seq<Action>, sender: Sender, i: nat): seq<Message>
    requires i <= |actions| < |run|
  {
    if i == 0 then []
    else
      var a := actions[i - 1];
      TakenIn(run, actions, sender, i - 1) +
        if a.QueueWrite? && a.sender == sender && a.message != [] && run[i - 1].active then [a.message] else []
  }

  lemma QueuedStep(s: State, a: Action, sender: Sender)
    requires Enabled(s, a) && s.queues.Keys == s.queued.Keys && sender in s.queued
    ensures Do(s, a).queues.Keys == Do(s, a).queued.Keys && sender in Do(s, a).queued
    ensures Do(s, a).queued[sender] == s.queued[sender] +
      if a.QueueWrite? && a.sender == sender && a.message != [] && s.active then [a.message] else []
  {
    hide Work;
  }

  lemma {:induction false} QueuedTaken(run: seq<State>, actions: seq<Action>, sender: Sender, i: nat)
    requires IsRun(run, actions) && i < |run| && sender in run[0].queued
    ensures run[i].queues.Keys == run[i].queued.Keys && sender in run[i].queued
    ensures run[i].queued[sender] == TakenIn(run, actions, sender, i)
  {
    hide Do, Enabled;
    if i > 0 {
      QueuedTaken(run, actions, sender, i - 1);
      QueuedStep(run[i - 1], actions[i - 1], sender);
    }
  }

  /** No message is lost or doubled before it is sent: in every run, what a sender queued while the channel was
      active is what workers have started on, what the worker in the lock has fetched, and what still waits, in
      that order. */
  lemma NothingDropped(run: seq<State>, actions: seq<Action>, sender: Sender, i: nat)
    requires IsRun(run, actions) && i < |run| && sender in run[0].queued
    ensures var s := run[i];
            sender in s.queues && Of(s.log, sender) + Of(Batch(s), sender) + s.queues[sender] == TakenIn(run, actions, sender, i)
  {
    RunInv(run, actions, i);
    QueuedTaken(run, actions, sender, i);
    assert OrderOk(run[i], sender);
  }

  /** A call of `handleWriteQueue` on an active channel with the lock free gets to fetch from any queue that has a
      message; otherwise it does nothing. */
  lemma LoneCall(s: State, w: Worker, e: Event, sender: Sender)
    requires Enabled(s, Call(w))
    ensures s.active <==> Enabled(Do(s, Call(w)), Run(w, e))
    ensures !s.active ==> Do(s, Call(w)) == s
    ensures s.active && s.lock.By? ==> Do(Do(s, Call(w)), Run(w, e)) == s
    ensures s.active && s.lock.Nobody? ==>
      var s' := Do(Do(s, Call(w)), Run(w, e));
      && s' == s.(lock := By(w), pc := s.pc[w := Fetching([])])
      && (sender in s.queues && s.queues[sender] != [] ==> Enabled(s', Fetch(w, sender)))
  {
    assert s.pc[w := Idle] == s.pc;
  }

  lemma Link(run: seq<State>, actions: seq<Action>, a: Action, s: State) returns (run': seq<State>, actions': seq<Action>)
    requires IsRun(run, actions) && Enabled(run[|actions|], a) && Do(run[|actions|], a) == s
    ensures IsRun(run', actions') && run'[|actions'|] == s
  {
    run', actions' := run + [Do(run[|actions|], a)], actions + [a];
  }

  lemma OneKey<V>(x: V, y: V)
    ensures map[0 := x][0 := y] == map[0 := y]
  {
  }

  /** One worker and one sender. */
  function Scene(queued: seq<Message>, queue: seq<Message>, log: seq<Job>, parts: seq<seq<Byte>>, met: seq<seq<Event>>, wire: seq<Byte>, pc: Pc): State {
    State(true, true, if InLock(pc) then By(0) else Nobody, map[0 := queue], map[0 := queued], log, parts, met, wire, map[0 := pc])
  }

  const First: Message := [1, 2]
  const Second: Message := [3]
  const Both: seq<Message> := [First, Second]
  const Jobs: seq<Job> := [Job(0, First), Job(0, Second)]

  /** Two messages are queued. */
  lemma Queued() returns (run: seq<State>, actions: seq<Action>)
    ensures IsRun(run, actions) && run[|actions|] == Scene(Both, Both, [], [], [], [], Idle)
  {
    hide IsRun;
    run, actions := [Scene([], [], [], [], [], [], Idle)], [];
    assert IsRun(run, actions) by { StartRun(run[0]); }
    OneKey<seq<Message>>([], [First]);
    assert [] + [First] == [First] && [First] + [Second] == Both;
    run, actions := Link(run, actions, QueueWrite(0, First), Scene([First], [First], [], [], [], [], Idle));
    OneKey([First], Both);
    run, actions := Link(run, actions, QueueWrite(0, Second), Scene(Both, Both, [], [], [], [], Idle));
  }

  lemma StartRun(s: State)
    requires Init(s)
    ensures IsRun([s], [])
  {
  }

  /** They are fetched. */
  lemma Fetched() returns (run: seq<State>, actions: seq<Action>)
    ensures IsRun(run, actions) && run[|actions|] == Scene(Both, [], [], [], [], [], Between(Jobs))
  {
    hide IsRun;
    run, actions := Queued();
    OneKey(Idle, Locking);
    run, actions := Link(run, actions, Call(0), Scene(Both, Both, [], [], [], [], Locking));
    OneKey(Locking, Fetching([]));
    run, actions := Link(run, actions, Run(0, Inactive), Scene(Both, Both, [], [], [], [], Fetching([])));
    OneKey(Both, Both[1..]);
    assert [] + [Jobs[0]] == Jobs[..1];
    OneKey(Fetching([]), Fetching(Jobs[..1]));
    run, actions := Link(run, actions, Fetch(0, 0), Scene(Both, Both[1..], [], [], [], [], Fetching(Jobs[..1])));
    OneKey(Both[1..], []);
    OneKey(Fetching(Jobs[..1]), Fetching(Jobs));
    assert Jobs[..1] + [Jobs[1]] == Jobs && Both[1..][1..] == [];
    run, actions := Link(run, actions, Fetch(0, 0), Scene(Both, [], [], [], [], [], Fetching(Jobs)));
    OneKey(Fetching(Jobs), Between(Jobs));
    run, actions := Link(run, actions, Run(0, Inactive), Scene(Both, [], [], [], [], [], Between(Jobs)));
  }

  /** The first is cut short. */
  lemma FirstCut(e: Event, sent: seq<Byte>) returns (run: seq<State>, actions: seq<Action>)
    requires (e.WouldBlock? && sent == []) || (e == Accepted(1) && sent == [1])
    ensures IsRun(run, actions) && run[|actions|] == Scene(Both, [], Jobs[..1], [sent], [[e]], sent, Between(Jobs[1..]))
  {
    hide IsRun;
    run, actions := Fetched();
    var pc1 := Sending(Jobs[1..], First, 0);
    OneKey(Between(Jobs), pc1);
    assert [] + [Jobs[0]] == Jobs[..1];
    run, actions := Link(run, actions, Run(0, Inactive), Scene(Both, [], Jobs[..1], [[]], [[]], [], pc1));
    var pc2 := if e.WouldBlock? then Sending(Jobs[1..], First, -1) else Sending(Jobs[1..], First[1..], 1);
    OneKey(pc1, pc2);
    assert [] + [e] == [e] && [] + First[..1] == [1];
    run, actions := Link(run, actions, Run(0, e), Scene(Both, [], Jobs[..1], [sent], [[e]], sent, pc2));
    OneKey(pc2, Between(Jobs[1..]));
    run, actions := Link(run, actions, Run(0, Inactive), Scene(Both, [], Jobs[..1], [sent], [[e]], sent, Between(Jobs[1..])));
  }

  /** The second is started on. */
  lemma SecondStarted(e: Event, sent: seq<Byte>) returns (run: seq<State>, actions: seq<Action>)
    requires (e.WouldBlock? && sent == []) || (e == Accepted(1) && sent == [1])
    ensures IsRun(run, actions)
    ensures run[|actions|] == Scene(Both, [], Jobs, [sent, []], [[e], []], sent, Sending([], Second, 0))
  {
    hide IsRun;
    run, actions := FirstCut(e, sent);
    OneKey(Between(Jobs[1..]), Sending([], Second, 0));
    assert Jobs[1..][1..] == [] && Jobs[..1] + [Jobs[1..][0]] == Jobs && [sent] + [[]] == [sent, []] && [[e]] + [[]] == [[e], []];
    run, actions := Link(run, actions, Run(0, Inactive), Scene(Both, [], Jobs, [sent, []], [[e], []], sent, Sending([], Second, 0)));
  }

  /** It is sent. */
  lemma SecondSent(e: Event, sent: seq<Byte>) returns (run: seq<State>, actions: seq<Action>)
    requires (e.WouldBlock? && sent == []) || (e == Accepted(1) && sent == [1])
    ensures IsRun(run, actions)
    ensures run[|actions|] == Scene(Both, [], Jobs, [sent, [3]], [[e], [Accepted(1)]], sent + [3], Sending([], Second, 1))
  {
    hide IsRun;
    run, actions := SecondStarted(e, sent);
    var pc, f := Sending([], Second, 1), Accepted(1);
    OneKey(Sending([], Second, 0), pc);
    assert [] + [f] == [f] && [] + Second[..1] == [3];
    assert [sent, []][1 := [3]] == [sent, [3]] && [[e], []][1 := [f]] == [[e], [f]];
    run, actions := Link(run, actions, Run(0, f), Scene(Both, [], Jobs, [sent, [3]], [[e], [f]], sent + [3], pc));
  }

  /** A message cut short while the channel stays active: after a round that would block, or one that takes
      half, the loop ends, and the next message follows on the wire. */
  lemma CutShort(e: Event) returns (run: seq<State>, actions: seq<Action>)
    requires e.WouldBlock? || e == Accepted(1)
    ensures IsRun(run, actions)
    ensures var s := run[|actions|];
            && IsActive(s) && s.pc == map[0 := Idle] && s.queues == map[0 := []] && s.queued == map[0 := [[1, 2], [3]]]
            && s.wire == if e.WouldBlock? then [3] else [1, 3]
  {
    hide IsRun;
    var sent: seq<Byte> := if e.WouldBlock? then [] else [1];
    var parts, met := [sent, [3]], [[e], [Accepted(1)]];
    run, actions := SecondSent(e, sent);
    OneKey(Sending([], Second, 1), Between([]));
    run, actions := Link(run, actions, Run(0, Inactive), Scene(Both, [], Jobs, parts, met, sent + [3], Between([])));
    OneKey(Between([]), Idle);
    run, actions := Link(run, actions, Run(0, Inactive), Scene(Both, [], Jobs, parts, met, sent + [3], Idle));
  }
}
