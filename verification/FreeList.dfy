/**
 The lock-free free list of blocks: a CAS stack whose nodes carry a 31-bit reference count
 and a should-be-on-free-list bit.

 One action is one atomic operation of one thread (or the start of a call); actions of any
 number of threads interleave arbitrarily on sequentially consistent memory.
 */
module FreeList {
  import opened Counting

  type Node = nat
  type Thread = nat

  datatype Ptr = Null | At(node: Node)

  type Word = w: nat | w < 0x1_0000_0000

  const SHOULD_BE_ON_FREELIST: nat := 0x8000_0000
  /** Each thread adds at most two references to one node, so this many threads fit into 31 bits. */
  const MAX_THREADS: nat := 0x3FFF_FFFE

  /** Where `add_knowing_refcount_is_zero` returns to: out of `add`, or into the loop of
      `try_get`, whose local `head` still holds what the failed exchange saw. */
  datatype Cont = Return | Resume(head: Ptr)

  datatype Pc =
    | Idle
    | AddFetch(node: Node)
    | LoadHead
    | LoadRefs(head: Node)
    | IncRefs(head: Node, refs: Word)
    | LoadNext(head: Node)
    | SwingHead(head: Node, next: Ptr)
    | DropTwo(head: Node)
    | DropOne(prev: Node, seen: Ptr)
    | PutLoadHead(node: Node, k: Cont)
    | PutStoreNext(node: Node, seen: Ptr, k: Cont)
    | PutStoreRefs(node: Node, seen: Ptr, k: Cont)
    | PutSwing(node: Node, seen: Ptr, k: Cont)
    | PutRetract(node: Node, seen: Ptr, k: Cont)

  /** `owned` holds the nodes in the hands of the list's clients: never added, or handed out
      by `try_get` and not added since. */
  datatype State = State(
    head: Ptr,
    next: map<Node, Ptr>,
    refs: map<Node, Word>,
    owned: set<Node>,
    pc: map<Thread, Pc>)

  datatype Action = CallAdd(t: Thread, node: Node) | CallTryGet(t: Thread) | Run(t: Thread)

  /** 32-bit addition with wrap-around. */
  function Plus(x: Word, d: int): Word
    requires -0x1_0000_0000 <= d < 0x1_0000_0000
  {
    if x + d < 0 then x + d + 0x1_0000_0000
    else if x + d >= 0x1_0000_0000 then x + d - 0x1_0000_0000
    else x + d
  }

  /** `r & REFS_MASK` */
  function Low(r: Word): nat { if r >= SHOULD_BE_ON_FREELIST then r - SHOULD_BE_ON_FREELIST else r }

  predicate NodePtr(s: State, p: Ptr) { p.At? ==> p.node in s.next && p.node in s.refs }

  /** Entering the body of the `while (head != nullptr)` loop, or leaving it with `nullptr`. */
  function Enter(p: Ptr): Pc { if p.Null? then Idle else LoadRefs(p.node) }

  function After(k: Cont): Pc { if k.Return? then Idle else Enter(k.head) }

  /** The node a thread's next operation dereferences, if any. */
  function Touches(l: Pc): Ptr {
    match l
    case Idle => Null
    case LoadHead => Null
    case AddFetch(n) => At(n)
    case LoadRefs(n) => At(n)
    case IncRefs(n, _) => At(n)
    case LoadNext(n) => At(n)
    case SwingHead(n, _) => At(n)
    case DropTwo(n) => At(n)
    case DropOne(n, _) => At(n)
    case PutLoadHead(n, _) => At(n)
    case PutStoreNext(n, _, _) => At(n)
    case PutStoreRefs(n, _, _) => At(n)
    case PutSwing(n, _, _) => At(n)
    case PutRetract(n, _, _) => At(n)
  }

  predicate Enabled(s: State, a: Action) {
    && a.t in s.pc
    && match a
       case CallAdd(t, n) => s.pc[t].Idle? && n in s.owned
       case CallTryGet(t) => s.pc[t].Idle?
       case Run(t) => !s.pc[t].Idle? && NodePtr(s, Touches(s.pc[t]))
  }

  /** An atomic operation writes at most one shared location. */
  datatype Write = Nothing | Head(p: Ptr) | Next(n: Node, p: Ptr) | Refs(n: Node, r: Word)

  /** The shared location an action writes. Lines refer to shared/queue_internal/concurrentqueue.h. */
  function WriteOf(s: State, a: Action): Write
    requires Enabled(s, a)
  {
    if !a.Run? then Nothing
    else
      match s.pc[a.t]
      case AddFetch(n) => Refs(n, Plus(s.refs[n], SHOULD_BE_ON_FREELIST))  // 1466
      case IncRefs(h, r) => if s.refs[h] == r then Refs(h, Plus(r, 1)) else Nothing  // 1482
      case SwingHead(h, nx) => if s.head == At(h) then Head(nx) else Nothing  // 1490
      case DropTwo(h) => Refs(h, Plus(s.refs[h], -2))  // 1496
      case DropOne(h, _) => Refs(h, Plus(s.refs[h], -1))  // 1503
      case PutStoreNext(n, seen, _) => Next(n, seen)  // 1528
      case PutStoreRefs(n, _, _) => Refs(n, 1)  // 1529
      case PutSwing(n, seen, _) => if s.head == seen then Head(At(n)) else Nothing  // 1530
      case PutRetract(n, _, _) => Refs(n, Plus(s.refs[n], SHOULD_BE_ON_FREELIST - 1))  // 1532
      case _ => Nothing
  }

  /** Where the acting thread goes. */
  function PcOf(s: State, a: Action): Pc
    requires Enabled(s, a)
  {
    match a
    case CallAdd(_, n) => AddFetch(n)
    case CallTryGet(_) => LoadHead
    case Run(t) =>
      match s.pc[t]
      case Idle => Idle
      case AddFetch(n) => if s.refs[n] == 0 then PutLoadHead(n, Return) else Idle  // 1466
      case LoadHead => Enter(s.head)  // 1478, 1483
      case LoadRefs(h) => if Low(s.refs[h]) == 0 then LoadHead else IncRefs(h, s.refs[h])  // 1481, 1482
      case IncRefs(h, r) => if s.refs[h] == r then LoadNext(h) else LoadHead  // 1482
      case LoadNext(h) => SwingHead(h, s.next[h])  // 1489
      case SwingHead(h, _) => if s.head == At(h) then DropTwo(h) else DropOne(h, s.head)  // 1490
      case DropTwo(_) => Idle  // 1497
      case DropOne(h, seen) =>  // 1504
        if s.refs[h] == SHOULD_BE_ON_FREELIST + 1 then PutLoadHead(h, Resume(seen)) else Enter(seen)
      case PutLoadHead(n, k) => PutStoreNext(n, s.head, k)  // 1526
      case PutStoreNext(n, seen, k) => PutStoreRefs(n, seen, k)
      case PutStoreRefs(n, seen, k) => PutSwing(n, seen, k)
      case PutSwing(n, seen, k) => if s.head == seen then After(k) else PutRetract(n, s.head, k)  // 1530
      case PutRetract(n, seen, k) => if s.refs[n] == 1 then PutStoreNext(n, seen, k) else After(k)  // 1532
  }

  /** `add` takes a node from its client, `try_get` gives one back when it returns. */
  function OwnedOf(s: State, a: Action): set<Node>
    requires Enabled(s, a)
  {
    if a.CallAdd? then s.owned - {a.node}
    else if a.Run? && s.pc[a.t].DropTwo? then s.owned + {s.pc[a.t].head}
    else s.owned
  }

  function Do(s: State, a: Action): State
    requires Enabled(s, a)
  {
    var w := WriteOf(s, a);
    State(
      if w.Head? then w.p else s.head,
      if w.Next? then s.next[w.n := w.p] else s.next,
      if w.Refs? then s.refs[w.n := w.r] else s.refs,
      OwnedOf(s, a),
      s.pc[a.t := PcOf(s, a)])
  }

  ghost predicate Init(s: State) {
    && s.head == Null
    && s.next.Keys == s.refs.Keys == s.owned
    && (forall n :: n in s.next ==> s.next[n] == Null && s.refs[n] == 0)
    && (forall t :: t in s.pc ==> s.pc[t] == Idle)
    && |s.pc| <= MAX_THREADS
  }

  /** The states of a run: any interleaving of enabled actions from an initial state. */
  ghost predicate IsRun(run: seq<State>, actions: seq<Action>) {
    && |run| == |actions| + 1
    && Init(run[0])
    && forall i :: 0 <= i < |actions| ==> Enabled(run[i], actions[i]) && run[i + 1] == Do(run[i], actions[i])
  }

  // ---------------------------------------------------------------- what is promised

  /** `list` is the chain of nodes reachable from the head, each exactly once. */
  ghost predicate IsList(head: Ptr, next: map<Node, Ptr>, list: seq<Node>) {
    && head == First(list)
    && (forall i :: 0 <= i < |list| ==> list[i] in next && next[list[i]] == First(list[i + 1..]))
    && (forall i, j :: 0 <= i < j < |list| ==> list[i] != list[j])
  }

  function First(list: seq<Node>): Ptr { if list == [] then Null else At(list[0]) }

  /** The references a thread contributes to the count of node `n`. */
  function RefsOf(l: Pc, n: Node): nat {
    match l
    case LoadNext(h) => if h == n then 1 else 0
    case SwingHead(h, _) => if h == n then 1 else 0
    case DropOne(h, _) => if h == n then 1 else 0
    case DropTwo(h) => if h == n then 2 else 0
    case PutSwing(h, _, _) => if h == n then 1 else 0
    case PutRetract(h, _, _) => if h == n then 1 else 0
    case _ => 0
  }

  function Held(n: Node): Pc -> nat { (l: Pc) => RefsOf(l, n) }

  /** The thread is inside `add_knowing_refcount_is_zero(n)`. */
  predicate Putting(l: Pc, n: Node) {
    (l.PutLoadHead? || l.PutStoreNext? || l.PutStoreRefs? || l.PutSwing? || l.PutRetract?) && l.node == n
  }

  /** The thread is bound to bring `n` back to the list or to its client: it is adding it,
      publishing it, about to hand it out, or holds a reference while the bit is set. */
  ghost predicate Obliged(s: State, t: Thread, n: Node)
    requires t in s.pc && n in s.refs
  {
    var l := s.pc[t];
    l == AddFetch(n) || Putting(l, n) || l == DropTwo(n)
    || (s.refs[n] >= SHOULD_BE_ON_FREELIST && RefsOf(l, n) > 0)
  }

  /** The thread alone decides the fate of `n`. */
  predicate Exclusive(l: Pc, n: Node) { l == AddFetch(n) || Putting(l, n) || l == DropTwo(n) }

  /** The low 31 bits count the list's reference and those of the threads in flight. */
  ghost predicate Counted(s: State, list: seq<Node>) {
    forall n :: n in s.refs ==> Low(s.refs[n]) == (if n in list then 1 else 0) + Sum(s.pc, Held(n))
  }

  /** At most one thread adds, publishes or hands out a node, and only while it is neither listed nor owned. */
  ghost predicate SoleDecider(s: State, list: seq<Node>) {
    && (forall t, u, n :: t in s.pc && u in s.pc && Exclusive(s.pc[t], n) && Exclusive(s.pc[u], n) ==> t == u)
    && (forall t, n :: t in s.pc && Exclusive(s.pc[t], n) ==> n !in list && n !in s.owned)
  }

  /** An exchange of the head that is about to succeed installs the true successor (no ABA),
      the assertion of line 1493 holds, and no thread dereferences anything but a node. */
  ghost predicate ExchangeOk(s: State, list: seq<Node>, t: Thread)
    requires t in s.pc
  {
    && (s.pc[t].SwingHead? && s.head == At(s.pc[t].head) ==>
          list != [] && s.pc[t].head == list[0] && s.pc[t].next == First(list[1..]))
    && (s.pc[t].DropTwo? ==> s.pc[t].head in s.refs && s.refs[s.pc[t].head] < SHOULD_BE_ON_FREELIST)
    && (!s.pc[t].Idle? ==> Enabled(s, Run(t)))
  }

  /** No node is lost and none is in two places. */
  ghost predicate Conserved(s: State, list: seq<Node>) {
    && (forall n :: n in s.owned ==> n in s.refs && n !in list)
    && (forall n :: n in s.refs && n !in s.owned && n !in list ==> exists t :: t in s.pc && Obliged(s, t, n))
  }

  ghost predicate Safe(s: State, list: seq<Node>) {
    && IsList(s.head, s.next, list)
    && Counted(s, list)
    && SoleDecider(s, list)
    && (forall t :: t in s.pc ==> ExchangeOk(s, list, t))
    && Conserved(s, list)
  }

  // ---------------------------------------------------------------- the invariant

  datatype Role =
    | Owned
    | Listed
    | Pending            // bit set; whoever drops the last reference must put it back
    | Entering(t: Thread)
    | Taken(t: Thread)
    | Adder(t: Thread)   // inside add_knowing_refcount_is_zero, count zero
    | Publishing(t: Thread)

  datatype Ghost = Ghost(list: seq<Node>, role: map<Node, Role>)

  predicate Flagged(r: Role) { r.Pending? || r.Adder? }

  ghost predicate ShapeInv(s: State, g: Ghost) {
    && s.next.Keys == s.refs.Keys == g.role.Keys
    && |s.pc| <= MAX_THREADS
    && InRole(g.role, s.head)
    && (forall n :: n in s.next ==> InRole(g.role, s.next[n]))
    && IsList(s.head, s.next, g.list)
    && (forall n :: n in g.role ==> (n in g.list <==> g.role[n].Listed?))
    && (forall n :: n in s.owned <==> n in g.role && g.role[n].Owned?)
  }

  predicate InRole(role: map<Node, Role>, p: Ptr) { p.At? ==> p.node in role }

  predicate ContOk(role: map<Node, Role>, k: Cont) { k.Resume? ==> InRole(role, k.head) }

  /** What one thread's local state says about the shared state. */
  predicate PcOk(s: State, role: map<Node, Role>, t: Thread, l: Pc) {
    && s.next.Keys == role.Keys && InRole(role, Touches(l))
    && match l
       case Idle => true
       case LoadHead => true
       case AddFetch(n) => role[n] == Entering(t)
       case LoadRefs(_) => true
       case IncRefs(_, r) => Low(r) != 0
       case LoadNext(_) => true
       case SwingHead(h, nx) => s.next[h] == nx
       case DropTwo(h) => role[h] == Taken(t)
       case DropOne(_, seen) => InRole(role, seen)
       case PutLoadHead(n, k) => role[n] == Adder(t) && ContOk(role, k)
       case PutStoreNext(n, seen, k) => role[n] == Adder(t) && ContOk(role, k) && InRole(role, seen)
       case PutStoreRefs(n, seen, k) => role[n] == Adder(t) && ContOk(role, k) && s.next[n] == seen
       case PutSwing(n, seen, k) => role[n] == Publishing(t) && ContOk(role, k) && s.next[n] == seen
       case PutRetract(n, seen, k) => role[n] == Publishing(t) && ContOk(role, k) && InRole(role, seen)
  }

  ghost predicate ThreadInv(s: State, g: Ghost) {
    forall t :: t in s.pc ==> PcOk(s, g.role, t, s.pc[t])
  }

  /** The thread a role names is where the role says. */
  predicate RoleOk(s: State, n: Node, r: Role) {
    match r
    case Owned => true
    case Listed => true
    case Pending => true
    case Entering(t) => t in s.pc && s.pc[t] == AddFetch(n)
    case Taken(t) => t in s.pc && s.pc[t] == DropTwo(n)
    case Adder(t) => t in s.pc && (s.pc[t].PutLoadHead? || s.pc[t].PutStoreNext? || s.pc[t].PutStoreRefs?) && s.pc[t].node == n
    case Publishing(t) => t in s.pc && (s.pc[t].PutSwing? || s.pc[t].PutRetract?) && s.pc[t].node == n
  }

  /** `refs` is the word a node must hold given its role and the references held on it. */
  predicate Balanced(refs: Word, r: Role, held: nat) {
    && refs == (if Flagged(r) then SHOULD_BE_ON_FREELIST else 0) + (if r.Listed? then 1 else 0) + held
    && (r.Adder? ==> held == 0)
    && (r.Pending? ==> held > 0)
  }

  ghost predicate CountOk(s: State, n: Node, r: Role)
    requires n in s.refs
  {
    Balanced(s.refs[n], r, Sum(s.pc, Held(n)))
  }

  ghost predicate NodeInv(s: State, g: Ghost)
    requires s.refs.Keys == g.role.Keys
  {
    forall n :: n in g.role ==> RoleOk(s, n, g.role[n]) && CountOk(s, n, g.role[n])
  }

  ghost predicate Inv(s: State, g: Ghost) {
    ShapeInv(s, g) && ThreadInv(s, g) && NodeInv(s, g)
  }

  /** The node whose role an action changes, and its new role. */
  datatype Turn = NoTurn | Turn(n: Node, r: Role)

  function TurnOf(s: State, a: Action): Turn
    requires Enabled(s, a)
  {
    var t := a.t;
    match a
    case CallAdd(_, n) => Turn(n, Entering(t))
    case CallTryGet(_) => NoTurn
    case Run(_) =>
      match s.pc[t]
      case AddFetch(n) => Turn(n, if s.refs[n] == 0 then Adder(t) else Pending)
      case SwingHead(h, nx) => if s.head == At(h) then Turn(h, Taken(t)) else NoTurn
      case DropTwo(h) => Turn(h, Owned)
      case DropOne(h, _) => if s.refs[h] == SHOULD_BE_ON_FREELIST + 1 then Turn(h, Adder(t)) else NoTurn
      case PutStoreRefs(n, _, _) => Turn(n, Publishing(t))
      case PutSwing(n, seen, _) => if s.head == seen then Turn(n, Listed) else NoTurn
      case PutRetract(n, _, _) => Turn(n, if s.refs[n] == 1 then Adder(t) else Pending)
      case _ => NoTurn
  }

  function FollowRole(s: State, role: map<Node, Role>, a: Action): map<Node, Role>
    requires Enabled(s, a)
  {
    var u := TurnOf(s, a);
    if u.NoTurn? then role else role[u.n := u.r]
  }

  /** How the list follows an action. */
  ghost function FollowList(s: State, list: seq<Node>, a: Action): seq<Node>
    requires Enabled(s, a)
  {
    if !a.Run? then list
    else
      match s.pc[a.t]
      case SwingHead(h, _) => if s.head == At(h) && list != [] then list[1..] else list
      case PutSwing(n, seen, _) => if s.head == seen then [n] + list else list
      case _ => list
  }

  ghost function Follow(s: State, g: Ghost, a: Action): Ghost
    requires Enabled(s, a)
  {
    Ghost(FollowList(s, g.list, a), FollowRole(s, g.role, a))
  }

  /** What the node an action is about to change is doing, derived from the invariant. */
  ghost predicate Sane(s: State, role: map<Node, Role>, a: Action)
    requires Enabled(s, a)
  {
    && s.next.Keys == s.refs.Keys == role.Keys
    && PcOk(s, role, a.t, s.pc[a.t])
    && (a.CallAdd? ==> a.node in role && role[a.node].Owned?)
    && (a.Run? ==>
          var l := s.pc[a.t];
          && (l.SwingHead? && s.head == At(l.head) ==> role[l.head].Listed?)
          && (l.DropOne? && s.refs[l.prev] == SHOULD_BE_ON_FREELIST + 1 ==> role[l.prev].Pending?)
          && (l.DropOne? ==> !role[l.prev].Adder?)
          && (l.IncRefs? && s.refs[l.head] == l.refs ==> !role[l.head].Adder?))
  }

  lemma HeldBound(s: State, n: Node)
    requires |s.pc| <= MAX_THREADS
    ensures Sum(s.pc, Held(n)) < SHOULD_BE_ON_FREELIST - 3
  {
    SumBound(s.pc, Held(n), 2);
  }

  lemma SaneFromInv(s: State, g: Ghost, a: Action)
    requires Inv(s, g) && Enabled(s, a)
    ensures Sane(s, g.role, a)
  {
    var l := s.pc[a.t];
    assert PcOk(s, g.role, a.t, l);
    if a.Run? && Touches(l).At? {
      var n := Touches(l).node;
      assert RoleOk(s, n, g.role[n]) && CountOk(s, n, g.role[n]);
      SumUpdate(s.pc, Held(n), a.t, l);
      HeldBound(s, n);
      if l.SwingHead? && s.head == At(n) {
        assert g.list[0] == n;
      }
    }
  }

  /** A thread's assertion holds after its own action. */
  lemma OwnPcStep(s: State, role: map<Node, Role>, a: Action)
    requires Enabled(s, a) && Sane(s, role, a)
    requires InRole(role, s.head)
    requires Touches(s.pc[a.t]).At? ==> InRole(role, s.next[Touches(s.pc[a.t]).node])
    ensures PcOk(Do(s, a), FollowRole(s, role, a), a.t, PcOf(s, a))
  {
    hide Do, FollowRole, PcOk, Sane, PcOf;
    if !a.Run? || s.pc[a.t].AddFetch? || s.pc[a.t].DropOne? {
      OwnPcEnter(s, role, a);
    } else if s.pc[a.t].LoadHead? || s.pc[a.t].LoadRefs? || s.pc[a.t].IncRefs? || s.pc[a.t].LoadNext? || s.pc[a.t].SwingHead? || s.pc[a.t].DropTwo? {
      OwnPcGet(s, role, a);
    } else {
      OwnPcPut(s, role, a);
    }
  }

  lemma OwnPcEnter(s: State, role: map<Node, Role>, a: Action)
    requires Enabled(s, a) && Sane(s, role, a) && InRole(role, s.head)
    requires Touches(s.pc[a.t]).At? ==> InRole(role, s.next[Touches(s.pc[a.t]).node])
    requires !a.Run? || s.pc[a.t].AddFetch? || s.pc[a.t].DropOne?
    ensures PcOk(Do(s, a), FollowRole(s, role, a), a.t, PcOf(s, a))
  {
  }

  lemma OwnPcGet(s: State, role: map<Node, Role>, a: Action)
    requires Enabled(s, a) && Sane(s, role, a) && InRole(role, s.head) && a.Run?
    requires Touches(s.pc[a.t]).At? ==> InRole(role, s.next[Touches(s.pc[a.t]).node])
    requires s.pc[a.t].LoadHead? || s.pc[a.t].LoadRefs? || s.pc[a.t].IncRefs? || s.pc[a.t].LoadNext? || s.pc[a.t].SwingHead? || s.pc[a.t].DropTwo?
    ensures PcOk(Do(s, a), FollowRole(s, role, a), a.t, PcOf(s, a))
  {
  }

  lemma OwnPcPut(s: State, role: map<Node, Role>, a: Action)
    requires Enabled(s, a) && Sane(s, role, a) && InRole(role, s.head) && a.Run?
    requires s.pc[a.t].PutLoadHead? || s.pc[a.t].PutStoreNext? || s.pc[a.t].PutStoreRefs? || s.pc[a.t].PutSwing? || s.pc[a.t].PutRetract?
    ensures PcOk(Do(s, a), FollowRole(s, role, a), a.t, PcOf(s, a))
  {
  }

  /** A thread's assertion survives the action of another thread. */
  lemma OtherPcStep(s: State, role: map<Node, Role>, a: Action, u: Thread)
    requires Enabled(s, a) && u in s.pc && u != a.t
    requires Sane(s, role, a) && PcOk(s, role, u, s.pc[u])
    requires a.Run? && s.pc[a.t].PutStoreNext? ==> RefsOf(s.pc[u], s.pc[a.t].node) == 0
    ensures PcOk(Do(s, a), FollowRole(s, role, a), u, s.pc[u])
  {
    var s' := Do(s, a);
    assert s'.next.Keys == s.next.Keys && s'.refs.Keys == s.refs.Keys;
  }

  /** One node's role stays in step with an action of any thread. */
  lemma RoleStep(s: State, role: map<Node, Role>, a: Action, n: Node)
    requires Enabled(s, a) && n in role
    requires Sane(s, role, a) && RoleOk(s, n, role[n])
    ensures n in FollowRole(s, role, a)
    ensures RoleOk(Do(s, a), n, FollowRole(s, role, a)[n])
  {
  }

  /** The change to one node's count, role and references held by the acting thread agree. */
  lemma LocalCount(s: State, role: map<Node, Role>, a: Action, n: Node, others: nat)
    requires Enabled(s, a) && Sane(s, role, a) && n in role
    requires others < SHOULD_BE_ON_FREELIST - 3
    requires Balanced(s.refs[n], role[n], others + RefsOf(s.pc[a.t], n))
    ensures n in Do(s, a).refs && n in FollowRole(s, role, a)
    ensures Balanced(Do(s, a).refs[n], FollowRole(s, role, a)[n], others + RefsOf(Do(s, a).pc[a.t], n))
  {
    hide Do, FollowRole, Balanced, Sane, RefsOf;
    if a.Run? && (s.pc[a.t].LoadHead? || s.pc[a.t].LoadRefs? || s.pc[a.t].IncRefs? || s.pc[a.t].LoadNext? || s.pc[a.t].SwingHead? || s.pc[a.t].DropTwo?) {
      LocalCountGet(s, role, a, n, others);
    } else {
      LocalCountPut(s, role, a, n, others);
    }
  }

  lemma LocalCountGet(s: State, role: map<Node, Role>, a: Action, n: Node, others: nat)
    requires Enabled(s, a) && Sane(s, role, a) && n in role
    requires others < SHOULD_BE_ON_FREELIST - 3
    requires Balanced(s.refs[n], role[n], others + RefsOf(s.pc[a.t], n))
    requires a.Run? && (s.pc[a.t].LoadHead? || s.pc[a.t].LoadRefs? || s.pc[a.t].IncRefs? || s.pc[a.t].LoadNext? || s.pc[a.t].SwingHead? || s.pc[a.t].DropTwo?)
    ensures n in Do(s, a).refs && n in FollowRole(s, role, a)
    ensures Balanced(Do(s, a).refs[n], FollowRole(s, role, a)[n], others + RefsOf(Do(s, a).pc[a.t], n))
  {
  }

  lemma LocalCountPut(s: State, role: map<Node, Role>, a: Action, n: Node, others: nat)
    requires Enabled(s, a) && Sane(s, role, a) && n in role
    requires others < SHOULD_BE_ON_FREELIST - 3
    requires Balanced(s.refs[n], role[n], others + RefsOf(s.pc[a.t], n))
    requires !(a.Run? && (s.pc[a.t].LoadHead? || s.pc[a.t].LoadRefs? || s.pc[a.t].IncRefs? || s.pc[a.t].LoadNext? || s.pc[a.t].SwingHead? || s.pc[a.t].DropTwo?))
    ensures n in Do(s, a).refs && n in FollowRole(s, role, a)
    ensures Balanced(Do(s, a).refs[n], FollowRole(s, role, a)[n], others + RefsOf(Do(s, a).pc[a.t], n))
  {
  }

  /** One node's count stays in step with an action of any thread. */
  lemma CountStep(s: State, role: map<Node, Role>, a: Action, n: Node)
    requires Enabled(s, a) && n in role
    requires Sane(s, role, a) && |s.pc| <= MAX_THREADS
    requires CountOk(s, n, role[n])
    ensures n in Do(s, a).refs && n in FollowRole(s, role, a)
    ensures CountOk(Do(s, a), n, FollowRole(s, role, a)[n])
  {
    var l' := Do(s, a).pc[a.t];
    assert Do(s, a).pc == s.pc[a.t := l'];
    SumUpdate(s.pc, Held(n), a.t, l');
    HeldBound(s, n);
    LocalCount(s, role, a, n, Sum(s.pc, Held(n)) - RefsOf(s.pc[a.t], n));
  }

  lemma PopKeepsList(head: Ptr, next: map<Node, Ptr>, list: seq<Node>)
    requires IsList(head, next, list) && list != []
    ensures IsList(next[list[0]], next, list[1..])
  {
    forall i | 0 <= i < |list[1..]|
      ensures next[list[1..][i]] == First(list[1..][i + 1..])
    {
      assert list[1..][i + 1..] == list[i + 2..];
    }
  }

  lemma PushKeepsList(head: Ptr, next: map<Node, Ptr>, list: seq<Node>, n: Node)
    requires IsList(head, next, list) && n in next && n !in list && next[n] == head
    ensures IsList(At(n), next, [n] + list)
  {
    var list' := [n] + list;
    forall i | 0 <= i < |list'|
      ensures next[list'[i]] == First(list'[i + 1..])
    {
      assert list'[i + 1..] == list[i..];
    }
  }

  /** The chain from the head stays a list without repetitions. */
  lemma ListStep(s: State, g: Ghost, a: Action)
    requires Enabled(s, a) && ShapeInv(s, g) && Sane(s, g.role, a)
    ensures IsList(Do(s, a).head, Do(s, a).next, FollowList(s, g.list, a))
  {
    var l := s.pc[a.t];
    if a.Run? && l.SwingHead? && s.head == At(l.head) {
      PopKeepsList(s.head, s.next, g.list);
    } else if a.Run? && l.PutSwing? && s.head == l.seen {
      PushKeepsList(s.head, s.next, g.list, l.node);
    } else if a.Run? && l.PutStoreNext? {
      assert l.node !in g.list;
    } else {
      assert Do(s, a).head == s.head && Do(s, a).next == s.next;
    }
  }

  lemma PopMembers(head: Ptr, next: map<Node, Ptr>, list: seq<Node>, n: Node)
    requires IsList(head, next, list) && list != []
    ensures n in list[1..] <==> n in list && n != list[0]
  {
    assert list == [list[0]] + list[1..];
  }

  /** A node is on the list exactly when its role says so. */
  lemma ListedStep(s: State, list: seq<Node>, role: map<Node, Role>, a: Action, n: Node)
    requires Enabled(s, a) && Sane(s, role, a) && IsList(s.head, s.next, list)
    requires n in role && (n in list <==> role[n].Listed?)
    ensures n in FollowRole(s, role, a)
    ensures n in FollowList(s, list, a) <==> FollowRole(s, role, a)[n].Listed?
  {
    var l := s.pc[a.t];
    if a.Run? && l.SwingHead? && s.head == At(l.head) {
      PopMembers(s.head, s.next, list, n);
    } else if a.Run? && l.PutSwing? && s.head == l.seen {
    } else {
      assert FollowList(s, list, a) == list;
    }
  }

  lemma PointerStep(s: State, role: map<Node, Role>, a: Action)
    requires Enabled(s, a) && Sane(s, role, a)
    requires InRole(role, s.head)
    requires forall n :: n in s.next ==> InRole(role, s.next[n])
    ensures Do(s, a).next.Keys == Do(s, a).refs.Keys == FollowRole(s, role, a).Keys == role.Keys
    ensures InRole(role, Do(s, a).head)
    ensures forall n :: n in Do(s, a).next ==> InRole(role, Do(s, a).next[n])
  {
  }

  lemma OwnedStep(s: State, role: map<Node, Role>, a: Action, n: Node)
    requires Enabled(s, a) && Sane(s, role, a)
    requires n in s.owned <==> n in role && role[n].Owned?
    ensures n in OwnedOf(s, a) <==> n in FollowRole(s, role, a) && FollowRole(s, role, a)[n].Owned?
  {
  }

  lemma ShapeStep(s: State, g: Ghost, a: Action)
    requires Enabled(s, a) && ShapeInv(s, g) && Sane(s, g.role, a)
    ensures ShapeInv(Do(s, a), Follow(s, g, a))
  {
    ListStep(s, g, a);
    PointerStep(s, g.role, a);
    forall n | n in g.role
      ensures n in FollowList(s, g.list, a) <==> FollowRole(s, g.role, a)[n].Listed?
    {
      ListedStep(s, g.list, g.role, a, n);
    }
    forall n
      ensures n in OwnedOf(s, a) <==> n in FollowRole(s, g.role, a) && FollowRole(s, g.role, a)[n].Owned?
    {
      OwnedStep(s, g.role, a, n);
    }
    var s' := Do(s, a);
    assert s'.pc.Keys == s.pc.Keys && |s'.pc| == |s'.pc.Keys|;
  }

  lemma ThreadStep(s: State, g: Ghost, a: Action)
    requires Enabled(s, a) && Sane(s, g.role, a) && Inv(s, g)
    ensures ThreadInv(Do(s, a), Follow(s, g, a))
  {
    if a.Run? && s.pc[a.t].PutStoreNext? {
      var n := s.pc[a.t].node;
      assert CountOk(s, n, g.role[n]);
      SumZero(s.pc, Held(n));
    }
    forall u | u in s.pc
      ensures PcOk(Do(s, a), Follow(s, g, a).role, u, Do(s, a).pc[u])
    {
      if u == a.t {
        OwnPcStep(s, g.role, a);
      } else {
        OtherPcStep(s, g.role, a, u);
      }
    }
  }

  lemma InvStep(s: State, g: Ghost, a: Action)
    requires Inv(s, g) && Enabled(s, a)
    ensures Inv(Do(s, a), Follow(s, g, a))
  {
    SaneFromInv(s, g, a);
    ShapeStep(s, g, a);
    ThreadStep(s, g, a);
    forall n | n in Follow(s, g, a).role
      ensures RoleOk(Do(s, a), n, Follow(s, g, a).role[n]) && CountOk(Do(s, a), n, Follow(s, g, a).role[n])
    {
      RoleStep(s, g.role, a, n);
      CountStep(s, g.role, a, n);
    }
  }

  // ---------------------------------------------------------------- the theorems

  lemma NodeSafe(s: State, g: Ghost, n: Node)
    requires Inv(s, g) && n in s.refs
    ensures Low(s.refs[n]) == (if n in g.list then 1 else 0) + Sum(s.pc, Held(n))
    ensures n !in s.owned && n !in g.list ==> exists t :: t in s.pc && Obliged(s, t, n)
  {
    assert RoleOk(s, n, g.role[n]) && CountOk(s, n, g.role[n]);
    HeldBound(s, n);
    match g.role[n]
    case Pending =>
      SumZero(s.pc, Held(n));
      var t :| t in s.pc && Held(n)(s.pc[t]) != 0;
      assert Obliged(s, t, n);
    case Entering(t) => assert Obliged(s, t, n);
    case Taken(t) => assert Obliged(s, t, n);
    case Adder(t) => assert Obliged(s, t, n);
    case Publishing(t) => assert Obliged(s, t, n);
    case _ =>
  }

  /** A thread with exclusive power over a node is named by the node's role. */
  lemma ExclusiveRole(s: State, g: Ghost, t: Thread, n: Node)
    requires Inv(s, g) && t in s.pc && Exclusive(s.pc[t], n)
    ensures n in g.role && n !in g.list && n !in s.owned
    ensures g.role[n] in {Entering(t), Taken(t), Adder(t), Publishing(t)}
  {
    assert PcOk(s, g.role, t, s.pc[t]);
  }

  lemma ExchangeSafe(s: State, g: Ghost, t: Thread)
    requires Inv(s, g) && t in s.pc
    ensures ExchangeOk(s, g.list, t)
  {
    assert PcOk(s, g.role, t, s.pc[t]);
    if s.pc[t].DropTwo? {
      var n := s.pc[t].head;
      assert CountOk(s, n, g.role[n]);
      HeldBound(s, n);
    }
  }

  lemma SoleDeciderSafe(s: State, g: Ghost)
    requires Inv(s, g)
    ensures SoleDecider(s, g.list)
  {
    forall t, u, n | t in s.pc && u in s.pc && Exclusive(s.pc[t], n) && Exclusive(s.pc[u], n)
      ensures t == u
    {
      ExclusiveRole(s, g, t, n);
      ExclusiveRole(s, g, u, n);
    }
    forall t, n | t in s.pc && Exclusive(s.pc[t], n)
      ensures n !in g.list && n !in s.owned
    {
      ExclusiveRole(s, g, t, n);
    }
  }

  lemma InvIsSafe(s: State, g: Ghost)
    requires Inv(s, g)
    ensures Safe(s, g.list)
  {
    SoleDeciderSafe(s, g);
    forall t | t in s.pc
      ensures ExchangeOk(s, g.list, t)
    {
      ExchangeSafe(s, g, t);
    }
    assert Counted(s, g.list) && Conserved(s, g.list) by {
      forall n | n in s.refs
        ensures Low(s.refs[n]) == (if n in g.list then 1 else 0) + Sum(s.pc, Held(n))
        ensures n !in s.owned && n !in g.list ==> exists t :: t in s.pc && Obliged(s, t, n)
      {
        NodeSafe(s, g, n);
      }
    }
  }

  lemma InitInv(s: State)
    requires Init(s)
    ensures Inv(s, Ghost([], map n | n in s.next :: Owned))
  {
    forall n | n in s.next
      ensures Sum(s.pc, Held(n)) == 0
    {
      SumZero(s.pc, Held(n));
    }
  }

  /** The invariant along a run, with the ghost views it goes through. */
  lemma {:induction false} RunInv(run: seq<State>, actions: seq<Action>) returns (views: seq<Ghost>)
    requires IsRun(run, actions)
    ensures |views| == |run| && views[0].list == []
    ensures forall i :: 0 <= i < |run| ==> Inv(run[i], views[i])
    ensures forall i :: 0 <= i < |actions| ==> views[i + 1].list == FollowList(run[i], views[i].list, actions[i])
  {
    hide Inv, FollowList, FollowRole, Do, Enabled;
    views := [Ghost([], map n | n in run[0].next :: Owned)];
    InitInv(run[0]);
    while |views| < |run|
      invariant 1 <= |views| <= |run|
      invariant views[0].list == []
      invariant forall i :: 0 <= i < |views| ==> Inv(run[i], views[i])
      invariant forall i :: 0 <= i < |views| - 1 ==> views[i + 1].list == FollowList(run[i], views[i].list, actions[i])
    {
      var i := |views| - 1;
      InvStep(run[i], views[i], actions[i]);
      views := views + [Follow(run[i], views[i], actions[i])];
    }
  }

  /** Safety and conservation in every state of every run. `lists` is the free list over time:
      a successful exchange in `try_get` removes exactly the first node, a successful exchange in
      `add_knowing_refcount_is_zero` puts exactly its node in front, and nothing else changes it. */
  lemma RunIsSafe(run: seq<State>, actions: seq<Action>) returns (lists: seq<seq<Node>>)
    requires IsRun(run, actions)
    ensures |lists| == |run| && lists[0] == []
    ensures forall i :: 0 <= i < |run| ==> Safe(run[i], lists[i])
    ensures forall i :: 0 <= i < |actions| ==> lists[i + 1] == FollowList(run[i], lists[i], actions[i])
  {
    var views := RunInv(run, actions);
    lists := seq(|run|, i requires 0 <= i < |views| => views[i].list);
    forall i | 0 <= i < |run|
      ensures Safe(run[i], lists[i])
    {
      InvIsSafe(run[i], views[i]);
    }
  }

  /** When no call is in flight, the free list is exactly the nodes added and not since taken,
      every listed node carries the list's one reference and every other node none. */
  lemma QuiescentList(run: seq<State>, actions: seq<Action>) returns (list: seq<Node>)
    requires IsRun(run, actions)
    requires forall t :: t in run[|actions|].pc ==> run[|actions|].pc[t].Idle?
    ensures var s := run[|actions|];
            IsList(s.head, s.next, list)
            && (set n | n in list) == s.refs.Keys - s.owned
            && forall n :: n in s.refs ==> s.refs[n] == if n in s.owned then 0 else 1
  {
    var views := RunInv(run, actions);
    var s, g := run[|actions|], views[|actions|];
    list := g.list;
    forall n | n in s.refs
      ensures n in s.owned <==> n !in list
      ensures s.refs[n] == if n in s.owned then 0 else 1
    {
      assert RoleOk(s, n, g.role[n]) && CountOk(s, n, g.role[n]);
      SumZero(s.pc, Held(n));
    }
  }

  /** `try_get` never hands a node to a second owner: at the moment it returns `n`, no client owns
      `n`, it is off the list, and no other thread is returning, adding or publishing it. */
  lemma HandedOutOnce(run: seq<State>, actions: seq<Action>, t: Thread, u: Thread)
    requires IsRun(run, actions)
    requires t in run[|actions|].pc && u in run[|actions|].pc && run[|actions|].pc[t].DropTwo?
    ensures var s := run[|actions|];
            var n := s.pc[t].head;
            && n !in s.owned
            && Enabled(s, Run(t)) && Do(s, Run(t)).owned == s.owned + {n}
            && (u != t ==> !Exclusive(s.pc[u], n))
  {
    var lists := RunIsSafe(run, actions);
    var s := run[|actions|];
    assert Safe(s, lists[|actions|]);
    assert Exclusive(s.pc[t], s.pc[t].head);
  }

  // ---------------------------------------------------------------- when there is nothing to hand out

  /** The free list over time, as in `RunIsSafe`. */
  ghost predicate History(run: seq<State>, actions: seq<Action>, lists: seq<seq<Node>>) {
    && |lists| == |run| == |actions| + 1 && lists[0] == []
    && forall i :: 0 <= i < |actions| ==> Enabled(run[i], actions[i]) && lists[i + 1] == FollowList(run[i], lists[i], actions[i])
  }

  lemma {:induction false} OneHistory(run: seq<State>, actions: seq<Action>, lists: seq<seq<Node>>, others: seq<seq<Node>>, i: nat)
    requires History(run, actions, lists) && History(run, actions, others) && i < |run|
    ensures lists[i] == others[i]
  {
    hide FollowList, Enabled;
    if i > 0 {
      OneHistory(run, actions, lists, others, i - 1);
    }
  }

  lemma HistoryIsList(run: seq<State>, actions: seq<Action>, lists: seq<seq<Node>>, i: nat)
    requires IsRun(run, actions) && History(run, actions, lists) && i < |run|
    ensures IsList(run[i].head, run[i].next, lists[i])
  {
    hide IsList, Do, FollowList;
    var others := RunIsSafe(run, actions);
    OneHistory(run, actions, lists, others, i);
    assert Safe(run[i], others[i]);
  }

  /** A call of `try_get` that has not seen the list empty. */
  predicate Seeking(l: Pc) {
    match l
    case Idle => false
    case AddFetch(_) => false
    case DropOne(_, seen) => seen.At?
    case PutLoadHead(_, k) => k.Resume? && k.head.At?
    case PutStoreNext(_, _, k) => k.Resume? && k.head.At?
    case PutStoreRefs(_, _, k) => k.Resume? && k.head.At?
    case PutSwing(_, _, k) => k.Resume? && k.head.At?
    case PutRetract(_, _, k) => k.Resume? && k.head.At?
    case _ => true
  }

  lemma SeekingStep(s: State, a: Action, t: Thread)
    requires Enabled(s, a) && t in s.pc && (a.t == t ==> a.Run? && !s.pc[t].DropTwo?)
    requires Seeking(s.pc[t]) && s.head.At?
    ensures t in Do(s, a).pc && Seeking(Do(s, a).pc[t])
  {
  }

  /** `try_get` comes back without a node only if the list was empty at some time during the call. */
  lemma {:induction false} NothingOnlyIfEmpty(run: seq<State>, actions: seq<Action>, lists: seq<seq<Node>>, t: Thread, i: nat, j: nat) returns (k: nat)
    requires IsRun(run, actions) && History(run, actions, lists) && i < j <= |actions| && actions[i] == CallTryGet(t)
    requires forall m :: i < m < j && actions[m].t == t ==> actions[m].Run? && t in run[m].pc && !run[m].pc[t].DropTwo?
    requires t in run[j].pc && !Seeking(run[j].pc[t])
    ensures i < k < j && lists[k] == []
    decreases j
  {
    hide Seeking;
    if j == i + 1 {
      assert run[j] == Do(run[i], actions[i]);
      SeekingHead();
    } else {
      var s := run[j - 1];
      assert run[j] == Do(s, actions[j - 1]) && t in s.pc;
      if s.head == Null {
        k := j - 1;
        HistoryIsList(run, actions, lists, k);
      } else {
        if Seeking(s.pc[t]) {
          SeekingStep(s, actions[j - 1], t);
        }
        k := NothingOnlyIfEmpty(run, actions, lists, t, i, j - 1);
      }
    }
  }

  lemma SeekingHead()
    ensures Seeking(LoadHead)
  {
  }

  /** With nothing interleaved. */
  ghost function Alone(s: State, t: Thread, steps: nat): State
    decreases steps
  {
    if steps > 0 && Enabled(s, Run(t)) then Alone(Do(s, Run(t)), t, steps - 1) else s
  }

  /** With no call in flight, nodes are on the list with one reference, or owned with none. */
  lemma QuietNodes(run: seq<State>, actions: seq<Action>) returns (list: seq<Node>)
    requires IsRun(run, actions)
    requires forall t :: t in run[|actions|].pc ==> run[|actions|].pc[t].Idle?
    ensures var s := run[|actions|];
            && IsList(s.head, s.next, list)
            && (forall n :: n in list ==> n in s.next && n in s.refs && s.refs[n] == 1)
            && (forall n :: n in s.owned ==> n in s.next && n in s.refs && s.refs[n] == 0 && n !in list)
  {
    var views := RunInv(run, actions);
    var s, g := run[|actions|], views[|actions|];
    list := g.list;
    forall n | n in s.refs
      ensures s.refs[n] == if n in list then 1 else 0
    {
      assert RoleOk(s, n, g.role[n]) && CountOk(s, n, g.role[n]);
      SumZero(s.pc, Held(n));
    }
  }

  /** With no other call in flight, `try_get` hands out the first node of the list, or nothing if there is none. */
  lemma LoneTryGet(run: seq<State>, actions: seq<Action>, t: Thread) returns (list: seq<Node>)
    requires IsRun(run, actions) && t in run[|actions|].pc
    requires forall u :: u in run[|actions|].pc ==> run[|actions|].pc[u].Idle?
    ensures var s, e := run[|actions|], Alone(Do(run[|actions|], CallTryGet(t)), t, 6);
            && IsList(s.head, s.next, list)
            && (list == [] ==> e == s)
            && (list != [] ==>
                  && e == s.(head := First(list[1..]), refs := s.refs[list[0] := 0], owned := s.owned + {list[0]})
                  && IsList(e.head, e.next, list[1..]))
  {
    list := QuietNodes(run, actions);
    hide IsRun;
    var s := run[|actions|];
    var s1 := Do(s, CallTryGet(t));
    var s2 := Do(s1, Run(t));
    assert s2.pc == s.pc[t := s2.pc[t]];
    if list == [] {
      assert Alone(s1, t, 6) == Alone(s2, t, 5) == s2 == s;
    } else {
      var n := list[0];
      assert n in list;
      PopKeepsList(s.head, s.next, list);
      LoneGet(s2, t, n);
      assert Alone(s1, t, 6) == Alone(s2, t, 5);
      assert s.pc[t := Idle] == s.pc;
    }
  }

  lemma LoneGet(s: State, t: Thread, n: Node)
    requires t in s.pc && s.pc[t] == LoadRefs(n) && s.head == At(n) && n in s.next && n in s.refs && s.refs[n] == 1
    ensures Alone(s, t, 5) == s.(head := s.next[n], refs := s.refs[n := 0], owned := s.owned + {n}, pc := s.pc[t := Idle])
  {
    var s1 := Do(s, Run(t));
    var s2 := Do(s1, Run(t));
    var s3 := Do(s2, Run(t));
    assert s3 == s.(refs := s.refs[n := 2], pc := s.pc[t := SwingHead(n, s.next[n])]);
    var s4 := Do(s3, Run(t));
    var s5 := Do(s4, Run(t));
    assert s5 == s.(head := s.next[n], refs := s.refs[n := 0], owned := s.owned + {n}, pc := s.pc[t := Idle]);
    assert Alone(s, t, 5) == Alone(s1, t, 4) == Alone(s2, t, 3) == Alone(s3, t, 2) == Alone(s4, t, 1) == Alone(s5, t, 0);
  }

  /** With no other call in flight, `add` puts its node in front. */
  lemma LoneAdd(run: seq<State>, actions: seq<Action>, t: Thread, n: Node) returns (list: seq<Node>)
    requires IsRun(run, actions) && t in run[|actions|].pc && n in run[|actions|].owned
    requires forall u :: u in run[|actions|].pc ==> run[|actions|].pc[u].Idle?
    ensures var s, e := run[|actions|], Alone(Do(run[|actions|], CallAdd(t, n)), t, 5);
            && IsList(s.head, s.next, list) && IsList(e.head, e.next, [n] + list)
            && n in s.next && n in s.refs
            && e == s.(head := At(n), next := s.next[n := s.head], refs := s.refs[n := 1], owned := s.owned - {n})
  {
    list := QuietNodes(run, actions);
    var s := run[|actions|];
    hide IsRun;
    LonePut(Do(s, CallAdd(t, n)), t, n);
    var next := s.next[n := s.head];
    PushKeepsList(s.head, next, list, n);
    assert s.pc[t := Idle] == s.pc;
  }

  lemma LonePut(s: State, t: Thread, n: Node)
    requires t in s.pc && s.pc[t] == AddFetch(n) && n in s.next && n in s.refs && s.refs[n] == 0
    ensures Alone(s, t, 5) == s.(head := At(n), next := s.next[n := s.head], refs := s.refs[n := 1], pc := s.pc[t := Idle])
  {
    var s1 := Do(s, Run(t));
    var s2 := Do(s1, Run(t));
    var s3 := Do(s2, Run(t));
    assert s3 == s.(next := s.next[n := s.head], refs := s.refs[n := SHOULD_BE_ON_FREELIST], pc := s.pc[t := PutStoreRefs(n, s.head, Return)]);
    var s4 := Do(s3, Run(t));
    var s5 := Do(s4, Run(t));
    assert s5 == s.(head := At(n), next := s.next[n := s.head], refs := s.refs[n := 1], pc := s.pc[t := Idle]);
    assert Alone(s, t, 5) == Alone(s1, t, 4) == Alone(s2, t, 3) == Alone(s3, t, 2) == Alone(s4, t, 1) == Alone(s5, t, 0);
  }
}
