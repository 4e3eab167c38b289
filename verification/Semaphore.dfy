/**
 The counting semaphore of the sthread library, as interleaved steps of any number of threads.
 A thread's wake pipe is a count of unread tokens.  The wait queue is the linked list of the
 source: a head pointer, a next pointer per node, and a tail pointer to the link to write next.
 `enq` and `deq` record which nodes were linked in and which left the queue, oldest first; `nodes` is
 the memory in use.
 */
module Semaphore {
  import opened Seqs
  import opened Options

  type Tid = int
  type Ptr = int

  datatype Node = Node(thread: Tid, next: Option<Ptr>)

  /** The pointer `nextqtail` addresses either `queuehead` or the `next` field of a node. */
  datatype Link = HeadLink | NextOf(node: Ptr)

  datatype PC =
    | Idle
    | TryLock(down: bool)             // sthread_sem_try_down, alone or as the start of sem_down
    | TryIn(down: bool)
    | Alloc                           // _make_queue_elem
    | DownLock(q: Ptr)
    | DownIn(q: Ptr)
    | Enq1(q: Ptr)                    // *(nextqtail) = q
    | Enq2(q: Ptr)                    // nextqtail = &q->next
    | Release(q: Ptr)                 // top of the wait loop: unlock
    | Sleep(q: Ptr)                   // sthread_suspend
    | Relock(q: Ptr)
    | Recheck(q: Ptr)
    | Take(q: Ptr)                    // --semaphore
    | Unlink(q: Ptr)                  // queuehead = queuehead->next
    | Fix(q: Ptr)                     // reset the tail or wake the next waiter
    | UpLock
    | UpIn
    | UpWake
    | DestroyLock
    | DestroyIn
    | Leave(alloc: bool)              // unlock; go on to Alloc or return
    | LeaveFree(q: Ptr)               // unlock; go on to free the node
    | FreeNode(q: Ptr)                // free(q)
    | Wedged                          // a failed destroy has returned with the lock held

  datatype State = State(
    lock: Option<Tid>, initial: int, count: int, destroyed: bool,
    head: Option<Ptr>, tail: Link, nodes: map<Ptr, Node>,
    tokens: map<Tid, int>, pc: map<Tid, PC>,
    ups: int, downs: int, enq: seq<Ptr>, deq: seq<Ptr>)

  predicate Holds(p: PC) {
    match p
    case TryIn(_) => true
    case DownIn(_) => true
    case Enq1(_) => true
    case Enq2(_) => true
    case Release(_) => true
    case Recheck(_) => true
    case Take(_) => true
    case Unlink(_) => true
    case Fix(_) => true
    case UpIn => true
    case UpWake => true
    case DestroyIn => true
    case Leave(_) => true
    case LeaveFree(_) => true
    case Wedged => true
    case _ => false
  }

  // ---------------------------------------------------------------- steps

  function To(s: State, t: Tid, p: PC): State { s.(pc := s.pc[t := p]) }

  /** `_sem_avail` */
  predicate Avail(s: State) { s.count > 0 && s.head == None }

  function Wake(s: State, t: Tid): State {
    s.(tokens := s.tokens[t := (if t in s.tokens then s.tokens[t] else 0) + 1])
  }

  function ThreadOf(s: State, q: Ptr): Tid { if q in s.nodes then s.nodes[q].thread else -1 }

  function NextOfNode(s: State, q: Ptr): Option<Ptr> { if q in s.nodes then s.nodes[q].next else None }

  /** The store `*l = q`, which changes the head pointer or the `next` field of a node. */
  function StoreHead(s: State, l: Link, q: Ptr): Option<Ptr> { if l == HeadLink then Some(q) else s.head }

  function StoreNext(s: State, l: Link, q: Ptr): map<Ptr, Node> {
    if l.NextOf? && l.node in s.nodes then s.nodes[l.node := s.nodes[l.node].(next := Some(q))] else s.nodes
  }

  /** Take the spin lock; the test-and-set loop does not move on while it is held. */
  ghost predicate Acquire(s: State, t: Tid, s': State, p: PC) {
    s.lock == None && s' == To(s, t, p).(lock := Some(t))
  }

  ghost predicate Call(s: State, t: Tid, s': State)
    requires t in s.pc
  {
    s.pc[t] == Idle && exists p: PC :: (p.TryLock? || p == UpLock || p == DestroyLock) && s' == To(s, t, p)
  }

  ghost predicate Lock(s: State, t: Tid, s': State)
    requires t in s.pc
  {
    match s.pc[t]
    case TryLock(down) => Acquire(s, t, s', TryIn(down))
    case DownLock(q) => Acquire(s, t, s', DownIn(q))
    case Relock(q) => Acquire(s, t, s', Recheck(q))
    case UpLock => Acquire(s, t, s', UpIn)
    case DestroyLock => Acquire(s, t, s', DestroyIn)
    case _ => false
  }

  /** A body that finds the semaphore destroyed, or not available, changes nothing. */
  ghost predicate GiveUp(s: State, t: Tid, s': State)
    requires t in s.pc
  {
    match s.pc[t]
    case TryIn(down) => (s.destroyed || !Avail(s)) && s' == To(s, t, Leave(down))
    case DownIn(q) => if s.destroyed then s' == To(s, t, Leave(false)) else !Avail(s) && s' == To(s, t, Enq1(q))
    case Recheck(q) =>
      if s.destroyed then s' == To(s, t, Leave(false))
      else if s.count > 0 && s.head == Some(q) then s' == To(s, t, Take(q))
      else s' == To(s, t, Release(q))
    case UpIn => s.destroyed && s' == To(s, t, Leave(false))
    case UpWake => s.head == None && s' == To(s, t, Leave(false))
    case DestroyIn => s.destroyed && s' == To(s, t, Leave(false))
    case _ => false
  }

  ghost predicate Unlock(s: State, t: Tid, s': State)
    requires t in s.pc
  {
    match s.pc[t]
    case Release(q) => s' == To(s, t, Sleep(q)).(lock := None)
    case Leave(alloc) => s' == To(s, t, if alloc then Alloc else Idle).(lock := None)
    case LeaveFree(q) => s' == To(s, t, FreeNode(q)).(lock := None)
    case _ => false
  }

  /** A `down` that has made a node frees it after the unlock. */
  function Served(p: PC): PC { if p.DownIn? || p.Fix? then LeaveFree(p.q) else Leave(false) }

  /** The fast path of `try_down` and `down`: available, so no queueing. */
  ghost predicate Grab(s: State, t: Tid, s': State)
    requires t in s.pc
  {
    && (s.pc[t].TryIn? || s.pc[t].DownIn?) && !s.destroyed && Avail(s)
    && s' == To(s, t, Served(s.pc[t])).(count := s.count - 1, downs := s.downs + 1)
  }

  /** A freed address may be handed out again. */
  ghost predicate MakeNode(s: State, t: Tid, s': State)
    requires t in s.pc
  {
    s.pc[t] == Alloc &&
    (s' == To(s, t, Idle) ||
     exists q :: q !in s.nodes && s' == To(s, t, DownLock(q)).(nodes := s.nodes[q := Node(t, None)]))
  }

  ghost predicate Dispose(s: State, t: Tid, s': State)
    requires t in s.pc
  {
    s.pc[t].FreeNode? && s' == To(s, t, Idle).(nodes := s.nodes - {s.pc[t].q})
  }

  ghost predicate LinkIn(s: State, t: Tid, s': State)
    requires t in s.pc
  {
    s.pc[t].Enq1? &&
    var q := s.pc[t].q;
    s' == To(s, t, Enq2(q)).(head := StoreHead(s, s.tail, q), nodes := StoreNext(s, s.tail, q), enq := s.enq + [q])
  }

  ghost predicate MoveTail(s: State, t: Tid, s': State)
    requires t in s.pc
  {
    s.pc[t].Enq2? && s' == To(s, t, Release(s.pc[t].q)).(tail := NextOf(s.pc[t].q))
  }

  ghost predicate WakeUp(s: State, t: Tid, s': State)
    requires t in s.pc
  {
    && s.pc[t].Sleep? && t in s.tokens && s.tokens[t] > 0
    && s' == To(s, t, Relock(s.pc[t].q)).(tokens := s.tokens[t := s.tokens[t] - 1])
  }

  ghost predicate Decrement(s: State, t: Tid, s': State)
    requires t in s.pc
  {
    s.pc[t].Take? && s' == To(s, t, Unlink(s.pc[t].q)).(count := s.count - 1, downs := s.downs + 1)
  }

  ghost predicate LinkOut(s: State, t: Tid, s': State)
    requires t in s.pc
  {
    && s.pc[t].Unlink? && s.head.Some?
    && s' == To(s, t, Fix(s.pc[t].q)).(head := NextOfNode(s, s.head.value), deq := s.deq + [s.head.value])
  }

  ghost predicate PassOn(s: State, t: Tid, s': State)
    requires t in s.pc
  {
    && (s.pc[t].Fix? || (s.pc[t].UpWake? && s.head.Some?))
    && if s.head == None then s' == To(s, t, Served(s.pc[t])).(tail := HeadLink)
       else s' == Wake(To(s, t, Served(s.pc[t])), ThreadOf(s, s.head.value))
  }

  ghost predicate Increment(s: State, t: Tid, s': State)
    requires t in s.pc
  {
    s.pc[t] == UpIn && !s.destroyed && s' == To(s, t, UpWake).(count := s.count + 1, ups := s.ups + 1)
  }

  /** A destroy at a count other than the initial one returns without unlocking. */
  ghost predicate Destroy(s: State, t: Tid, s': State)
    requires t in s.pc
  {
    && s.pc[t] == DestroyIn && !s.destroyed
    && s' == To(s, t, if s.count != s.initial then Wedged else Leave(false)).(destroyed := true)
  }

  ghost predicate Step(s: State, t: Tid, s': State) {
    && t in s.pc
    && (Call(s, t, s') || Lock(s, t, s') || GiveUp(s, t, s') || Unlock(s, t, s') || Grab(s, t, s') || MakeNode(s, t, s')
        || LinkIn(s, t, s') || MoveTail(s, t, s') || WakeUp(s, t, s') || Decrement(s, t, s') || LinkOut(s, t, s')
        || PassOn(s, t, s') || Increment(s, t, s') || Destroy(s, t, s') || Dispose(s, t, s'))
  }

  /** `sthread_sem_init` with a positive count; a count that is not positive is refused. */
  ghost predicate Init(s: State) {
    && s.count == s.initial > 0 && !s.destroyed && s.lock == None
    && s.head == None && s.tail == HeadLink && s.nodes == map[] && s.tokens == map[]
    && s.ups == s.downs == 0 && s.enq == s.deq == []
    && forall t :: t in s.pc ==> s.pc[t] == Idle
  }

  // ---------------------------------------------------------------- invariant

  /** The nodes in the queue, head first. */
  ghost function Queue(s: State): seq<Ptr> {
    if |s.deq| <= |s.enq| then s.enq[|s.deq|..] else []
  }

  /** The node a thread has linked in and not yet unlinked. */
  function Waiting(p: PC): Option<Ptr> {
    match p
    case Enq2(q) => Some(q)
    case Release(q) => Some(q)
    case Sleep(q) => Some(q)
    case Relock(q) => Some(q)
    case Recheck(q) => Some(q)
    case Take(q) => Some(q)
    case Unlink(q) => Some(q)
    case _ => None
  }

  /** The node a thread has allocated and not yet linked in. */
  function Private(p: PC): Option<Ptr> {
    match p
    case DownLock(q) => Some(q)
    case DownIn(q) => Some(q)
    case Enq1(q) => Some(q)
    case _ => None
  }

  /** The node a thread has done with and not yet freed. */
  function Spent(p: PC): Option<Ptr> {
    match p
    case Fix(q) => Some(q)
    case LeaveFree(q) => Some(q)
    case FreeNode(q) => Some(q)
    case _ => None
  }

  /** Inside a critical section that has passed the `destroyed` check. */
  predicate Checked(p: PC) {
    p.Enq1? || p.Enq2? || p.Release? || p.Take? || p.Unlink? || p.Fix? || p.UpWake?
  }

  function Following(Q: seq<Ptr>, i: nat): Option<Ptr> { if i + 1 < |Q| then Some(Q[i + 1]) else None }

  ghost predicate Linked(s: State, Q: seq<Ptr>) {
    && s.head == (if Q == [] then None else Some(Q[0]))
    && NoDup(Q)
    && forall i :: 0 <= i < |Q| ==> Q[i] in s.nodes && s.nodes[Q[i]].next == Following(Q, i)
  }

  function LastLink(Q: seq<Ptr>): Link { if Q == [] then HeadLink else NextOf(Q[|Q| - 1]) }

  /** Where the thread that holds the spin lock is. */
  function HolderPC(s: State): PC {
    if s.lock.Some? && s.lock.value in s.pc then s.pc[s.lock.value] else Idle
  }

  /** The tail pointer addresses the last link, except between the two stores that move it. */
  ghost predicate TailOk(s: State, Q: seq<Ptr>) {
    if HolderPC(s).Enq2? then Q != [] && s.tail == LastLink(Q[..|Q| - 1])
    else if HolderPC(s).Fix? && Q == [] then s.tail == NextOf(HolderPC(s).q)
    else s.tail == LastLink(Q)
  }

  /** If the head could go ahead, it has been told, is on its way, or is about to be told. */
  ghost predicate WakeOk(s: State, Q: seq<Ptr>) {
    !s.destroyed && s.count > 0 && Q != [] ==>
      var h, t := Q[0], ThreadOf(s, Q[0]);
      || (t in s.tokens && s.tokens[t] > 0)
      || (t in s.pc && (s.pc[t] == Relock(h) || s.pc[t] == Recheck(h) || s.pc[t] == Take(h) || s.pc[t] == Unlink(h)))
      || HolderPC(s).UpWake? || HolderPC(s).Fix?
  }

  ghost predicate ThreadOk(s: State, t: Tid)
    requires t in s.pc
  {
    var p, Q := s.pc[t], Queue(s);
    && (s.lock == Some(t) <==> Holds(p))
    && (Checked(p) ==> !s.destroyed)
    && (Waiting(p).Some? ==> Waiting(p).value in Q && ThreadOf(s, Waiting(p).value) == t)
    && (Private(p).Some? ==>
          var q := Private(p).value; q !in Q && q in s.nodes && s.nodes[q] == Node(t, None))
    && (Spent(p).Some? ==> var q := Spent(p).value; q !in Q && q in s.nodes && s.nodes[q].thread == t)
    && (p.Enq2? ==> Q[|Q| - 1] == p.q)
    && (p.Enq1? && Q == [] ==> s.count == 0)
    && (p.Enq2? && |Q| == 1 ==> s.count == 0)
    && (p.Release? && Q[0] == p.q ==> s.count == 0)
    && (p.Take? || p.Unlink? ==> Q[0] == p.q)
    && (p.Take? ==> s.count > 0)
  }

  ghost predicate Inv(s: State) {
    var Q := Queue(s);
    && s.count >= 0 && s.count == s.initial + s.ups - s.downs
    && s.deq <= s.enq
    && Linked(s, Q) && TailOk(s, Q) && WakeOk(s, Q)
    && (s.lock.Some? ==> s.lock.value in s.pc)
    && (forall t :: t in s.pc ==> ThreadOk(s, t))
    && (forall t :: t in s.tokens ==> s.tokens[t] >= 0)
    && (!s.destroyed ==> forall q :: q in Q ==> ThreadOf(s, q) in s.pc && Waiting(s.pc[ThreadOf(s, q)]) == Some(q))
  }

  lemma InitInv(s: State)
    requires Init(s)
    ensures Inv(s)
  {
  }

  /** A thread other than `t` keeps its facts when the queue keeps its node and it holds no lock. */
  lemma OthersOk(s: State, t: Tid, s': State, u: Tid)
    requires u != t && u in s.pc && u in s'.pc && s'.pc[u] == s.pc[u] && ThreadOk(s, u)
    requires s'.lock == s.lock || (s'.lock == Some(t) && s.lock == None) || (s.lock == Some(t) && s'.lock == None)
    requires s.lock == Some(u) ==> s'.count == s.count && Queue(s') == Queue(s) && s'.destroyed == s.destroyed
    requires Waiting(s.pc[u]).Some? ==>
               var q := Waiting(s.pc[u]).value; q in Queue(s') && ThreadOf(s', q) == ThreadOf(s, q)
    requires Private(s.pc[u]).Some? ==>
               var q := Private(s.pc[u]).value; q !in Queue(s') && q in s'.nodes && s'.nodes[q] == s.nodes[q]
    requires Spent(s.pc[u]).Some? ==>
               var q := Spent(s.pc[u]).value; q !in Queue(s') && q in s'.nodes && s'.nodes[q].thread == s.nodes[q].thread
    ensures ThreadOk(s', u)
  {
  }

  /** A thread makes and frees only nodes of its own that are not in the queue. */
  ghost predicate NodesKept(s: State, t: Tid, s': State) {
    forall q {:trigger q in s'.nodes} {:trigger s'.nodes[q]} ::
      q in s.nodes && (s.nodes[q].thread != t || q in Queue(s)) ==> q in s'.nodes && s'.nodes[q] == s.nodes[q]
  }

  /** The head pointer addresses the first node; every queued node is allocated. */
  lemma HeadFacts(s: State)
    requires Inv(s)
    ensures var Q := Queue(s); s.head == (if Q == [] then None else Some(Q[0])) && NoDup(Q) && forall q :: q in Q ==> q in s.nodes
  {
  }

  /**
   Steps that leave the queue alone, given the facts about the moving thread and the two
   pointers-and-wakes clauses.
   */
  lemma SameQueue(s: State, t: Tid, s': State)
    requires Inv(s) && t in s.pc && t in s'.pc && s'.pc == s.pc[t := s'.pc[t]] && ThreadOk(s', t)
    requires s'.enq == s.enq && s'.deq == s.deq && s'.head == s.head && s'.initial == s.initial
    requires NodesKept(s, t, s')
    requires s'.lock == s.lock || (s'.lock == Some(t) && s.lock == None) || (s.lock == Some(t) && s'.lock == None)
    requires s.lock != Some(t) ==> s'.count == s.count && s'.destroyed == s.destroyed
    requires s'.count >= 0 && s'.count == s'.initial + s'.ups - s'.downs && (s.destroyed ==> s'.destroyed)
    requires forall u :: u in s'.tokens ==> s'.tokens[u] >= 0
    requires TailOk(s', Queue(s)) && WakeOk(s', Queue(s))
    requires s'.destroyed || Waiting(s'.pc[t]) == Waiting(s.pc[t])
    ensures Inv(s')
  {
    var Q := Queue(s);
    assert Queue(s') == Q;
    forall i | 0 <= i < |Q|
      ensures Q[i] in s'.nodes && s'.nodes[Q[i]].next == Following(Q, i)
    {
      var q: Ptr := Q[i];
      assert s.nodes[Q[i]].next == Following(Q, i);
      assert q in s.nodes && q in s'.nodes && s'.nodes[q] == s.nodes[q];
    }
    forall q | q in Q ensures ThreadOf(s', q) == ThreadOf(s, q) {}
    forall u | u in s'.pc ensures ThreadOk(s', u) {
      if u != t {
        assert ThreadOk(s, u);
        OthersOk(s, t, s', u);
      }
    }
  }

  lemma QueueSame(s: State, s': State)
    requires s'.enq == s.enq && s'.deq == s.deq
    ensures Queue(s') == Queue(s)
  {
  }

  /** What each kind of step may do besides keeping the invariant. */
  ghost predicate Effects(s: State, t: Tid, s': State)
    requires t in s.pc
  {
    && s'.initial == s.initial
    && (s'.downs != s.downs ==> Grab(s, t, s') || Decrement(s, t, s'))
    && (!Holds(s.pc[t]) ==> s'.downs == s.downs && s'.ups == s.ups && (s.lock.Some? ==> s'.lock == s.lock))
    && (s'.destroyed != s.destroyed ==> s'.destroyed && Holds(s.pc[t]))
    && (s'.tokens == s.tokens || WakeUp(s, t, s') || PassOn(s, t, s'))
    && (forall u :: u in s.pc && u != t ==> u in s'.pc && s'.pc[u] == s.pc[u])
  }

  lemma CallOk(s: State, t: Tid, s': State)
    requires Inv(s) && t in s.pc && Call(s, t, s')
    ensures Inv(s') && Effects(s, t, s')
  {
    hide Linked, Queue;
    assert ThreadOk(s, t);
    HeadFacts(s);
    QueueSame(s, s');
    SameQueue(s, t, s');
  }

  lemma AcquireOk(s: State, t: Tid, s': State, p: PC)
    requires Inv(s) && t in s.pc && Acquire(s, t, s', p) && Holds(p) && !Holds(s.pc[t])
    requires p.TryIn? || p.DownIn? || p.Recheck? || p.UpIn? || p.DestroyIn?
    requires Waiting(p) == Waiting(s.pc[t]) && Private(p) == Private(s.pc[t])
    ensures Inv(s') && Effects(s, t, s')
  {
    hide Linked, Queue;
    assert ThreadOk(s, t);
    HeadFacts(s);
    QueueSame(s, s');
    SameQueue(s, t, s');
  }

  lemma LockOk(s: State, t: Tid, s': State)
    requires Inv(s) && t in s.pc && Lock(s, t, s')
    ensures Inv(s') && Effects(s, t, s')
  {
    hide Inv;
    match s.pc[t] {
      case TryLock(down) => AcquireOk(s, t, s', TryIn(down));
      case DownLock(q) => AcquireOk(s, t, s', DownIn(q));
      case Relock(q) => AcquireOk(s, t, s', Recheck(q));
      case UpLock => AcquireOk(s, t, s', UpIn);
      case DestroyLock => AcquireOk(s, t, s', DestroyIn);
    }
  }

  /** Inside the critical section: move on to `p` without touching the semaphore. */
  lemma StayOk(s: State, t: Tid, p: PC)
    requires Inv(s) && t in s.pc && Holds(s.pc[t]) && Holds(p) && ThreadOk(To(s, t, p), t)
    requires !s.pc[t].Enq2? && !s.pc[t].Fix? && !p.Enq2? && !p.Fix?
    requires s.destroyed || Waiting(p) == Waiting(s.pc[t])
    requires WakeOk(To(s, t, p), Queue(s))
    ensures Inv(To(s, t, p))
  {
    hide Linked, Queue;
    assert ThreadOk(s, t);
    QueueSame(s, To(s, t, p));
    SameQueue(s, t, To(s, t, p));
  }

  lemma GiveUpOk(s: State, t: Tid, s': State)
    requires Inv(s) && t in s.pc && GiveUp(s, t, s')
    ensures Inv(s') && Effects(s, t, s')
  {
    hide Linked, Queue, TailOk;
    GiveUpThread(s, t, s');
    GiveUpWake(s, t, s');
    hide GiveUp, ThreadOk, WakeOk, Inv;
    StayOk(s, t, s'.pc[t]);
  }

  lemma GiveUpThread(s: State, t: Tid, s': State)
    requires Inv(s) && t in s.pc && GiveUp(s, t, s')
    ensures t in s'.pc && s' == To(s, t, s'.pc[t]) && Holds(s.pc[t]) && Holds(s'.pc[t]) && ThreadOk(s', t)
    ensures !s.pc[t].Enq2? && !s.pc[t].Fix? && !s'.pc[t].Enq2? && !s'.pc[t].Fix?
    ensures s.destroyed || Waiting(s'.pc[t]) == Waiting(s.pc[t])
  {
    hide Linked, Queue, TailOk, WakeOk;
    assert ThreadOk(s, t);
    GiveUpShape(s, t, s');
    HeadFacts(s);
    QueueSame(s, s');
  }

  lemma GiveUpShape(s: State, t: Tid, s': State)
    requires t in s.pc && GiveUp(s, t, s')
    ensures t in s'.pc && s' == To(s, t, s'.pc[t]) && Holds(s.pc[t]) && Holds(s'.pc[t])
    ensures !s.pc[t].Enq2? && !s.pc[t].Fix? && !s'.pc[t].Enq2? && !s'.pc[t].Fix?
    ensures s.destroyed || Waiting(s'.pc[t]) == Waiting(s.pc[t])
  {
  }

  lemma GiveUpWake(s: State, t: Tid, s': State)
    requires Inv(s) && t in s.pc && GiveUp(s, t, s')
    ensures WakeOk(s', Queue(s))
  {
    hide Linked, Queue, TailOk;
    assert ThreadOk(s, t);
    HeadFacts(s);
  }

  /** The holder goes on to `p` and frees the lock. */
  lemma ReleaseOk(s: State, t: Tid, s': State, p: PC)
    requires Inv(s) && t in s.pc && Holds(s.pc[t]) && !Holds(p) && s' == To(s, t, p).(lock := None)
    requires Waiting(p) == Waiting(s.pc[t]) && Spent(p) == Spent(s.pc[t]) && Private(p) == None
    requires s.pc[t].Release? || s.pc[t].Leave? || s.pc[t].LeaveFree?
    ensures Inv(s') && Effects(s, t, s')
  {
    hide Linked, Queue;
    assert ThreadOk(s, t);
    HeadFacts(s);
    QueueSame(s, s');
    SameQueue(s, t, s');
  }

  lemma UnlockOk(s: State, t: Tid, s': State)
    requires Inv(s) && t in s.pc && Unlock(s, t, s')
    ensures Inv(s') && Effects(s, t, s')
  {
    hide Inv, Effects;
    match s.pc[t] {
      case Release(q) => ReleaseOk(s, t, s', Sleep(q));
      case Leave(alloc) => ReleaseOk(s, t, s', if alloc then Alloc else Idle);
      case LeaveFree(q) => ReleaseOk(s, t, s', FreeNode(q));
    }
  }

  lemma GrabOk(s: State, t: Tid, s': State)
    requires Inv(s) && t in s.pc && Grab(s, t, s')
    ensures Inv(s') && Effects(s, t, s')
  {
    hide Linked, Queue;
    assert ThreadOk(s, t);
    HeadFacts(s);
    QueueSame(s, s');
    SameQueue(s, t, s');
  }

  lemma MakeNodeOk(s: State, t: Tid, s': State)
    requires Inv(s) && t in s.pc && MakeNode(s, t, s')
    ensures Inv(s') && Effects(s, t, s')
  {
    hide Linked, Queue;
    assert ThreadOk(s, t);
    HeadFacts(s);
    QueueSame(s, s');
    if s' == To(s, t, Idle) {
      SameQueue(s, t, s');
    } else {
      NodeMade(s, t, s');
    }
  }

  lemma NodeMadeShape(s: State, t: Tid, s': State)
    requires Inv(s) && t in s.pc && MakeNode(s, t, s') && s' != To(s, t, Idle)
    ensures t in s'.pc && s'.pc[t].DownLock? && s' == s.(pc := s.pc[t := s'.pc[t]], nodes := s'.nodes)
    ensures NodesKept(s, t, s') && ThreadOk(s', t) && s.pc[t] == Alloc
  {
    hide Linked, Queue, TailOk, WakeOk;
    assert ThreadOk(s, t);
    HeadFacts(s);
    QueueSame(s, s');
    var q :| q !in s.nodes && s' == To(s, t, DownLock(q)).(nodes := s.nodes[q := Node(t, None)]);
  }

  lemma NodeMadeParts(s: State, t: Tid, s': State)
    requires Inv(s) && t in s.pc && s.pc[t] == Alloc && t in s'.pc && s'.pc[t].DownLock?
    requires s' == s.(pc := s.pc[t := s'.pc[t]], nodes := s'.nodes) && NodesKept(s, t, s')
    ensures TailOk(s', Queue(s)) && WakeOk(s', Queue(s))
  {
    hide Linked, Queue;
    assert ThreadOk(s, t);
    HeadFacts(s);
    if Queue(s) != [] { assert Queue(s)[0] in Queue(s); }
  }

  /** There was memory for the node. */
  lemma NodeMade(s: State, t: Tid, s': State)
    requires Inv(s) && t in s.pc && MakeNode(s, t, s') && s' != To(s, t, Idle)
    ensures Inv(s')
  {
    hide Linked, Queue;
    assert ThreadOk(s, t);
    HeadFacts(s);
    QueueSame(s, s');
    NodeMadeShape(s, t, s');
    NodeMadeParts(s, t, s');
    hide WakeOk, TailOk, ThreadOk, MakeNode;
    SameQueue(s, t, s');
  }

  lemma WakeUpOk(s: State, t: Tid, s': State)
    requires Inv(s) && t in s.pc && WakeUp(s, t, s')
    ensures Inv(s') && Effects(s, t, s')
  {
    hide Linked, Queue;
    assert ThreadOk(s, t);
    HeadFacts(s);
    QueueSame(s, s');
    SameQueue(s, t, s');
  }

  lemma DecrementOk(s: State, t: Tid, s': State)
    requires Inv(s) && t in s.pc && Decrement(s, t, s')
    ensures Inv(s') && Effects(s, t, s')
  {
    hide Linked, Queue;
    assert ThreadOk(s, t);
    HeadFacts(s);
    QueueSame(s, s');
    SameQueue(s, t, s');
  }

  lemma PassOnOk(s: State, t: Tid, s': State)
    requires Inv(s) && t in s.pc && PassOn(s, t, s')
    ensures Inv(s') && Effects(s, t, s')
  {
    hide Linked, Queue;
    assert ThreadOk(s, t);
    HeadFacts(s);
    QueueSame(s, s');
    SameQueue(s, t, s');
  }

  lemma IncrementOk(s: State, t: Tid, s': State)
    requires Inv(s) && t in s.pc && Increment(s, t, s')
    ensures Inv(s') && Effects(s, t, s')
  {
    hide Linked, Queue;
    assert ThreadOk(s, t);
    HeadFacts(s);
    QueueSame(s, s');
    SameQueue(s, t, s');
  }

  lemma DestroyOk(s: State, t: Tid, s': State)
    requires Inv(s) && t in s.pc && Destroy(s, t, s')
    ensures Inv(s') && Effects(s, t, s')
  {
    hide Linked, Queue;
    assert ThreadOk(s, t);
    HeadFacts(s);
    QueueSame(s, s');
    SameQueue(s, t, s');
  }

  lemma DisposeOk(s: State, t: Tid, s': State)
    requires Inv(s) && t in s.pc && Dispose(s, t, s')
    ensures Inv(s') && Effects(s, t, s') && s.pc[t].q in s.nodes
  {
    hide Linked, Queue;
    assert ThreadOk(s, t);
    HeadFacts(s);
    QueueSame(s, s');
    SameQueue(s, t, s');
  }

  lemma MoveTailOk(s: State, t: Tid, s': State)
    requires Inv(s) && t in s.pc && MoveTail(s, t, s')
    ensures Inv(s') && Effects(s, t, s')
  {
    hide Linked, Queue;
    assert ThreadOk(s, t);
    HeadFacts(s);
    QueueSame(s, s');
    SameQueue(s, t, s');
  }

  /** A store through the last link extends the chain. */
  lemma StoreLinks(s: State, Q: seq<Ptr>, q: Ptr, s': State)
    requires Linked(s, Q) && s.tail == LastLink(Q) && q !in Q && q in s.nodes && s.nodes[q].next == None
    requires s'.head == StoreHead(s, s.tail, q) && s'.nodes == StoreNext(s, s.tail, q)
    ensures Linked(s', Q + [q])
    ensures forall x {:trigger x in s'.nodes} {:trigger s'.nodes[x]} :: x in s.nodes ==> x in s'.nodes && s'.nodes[x].thread == s.nodes[x].thread
    ensures forall x {:trigger s'.nodes[x]} :: x in s.nodes && x !in Q ==> x in s'.nodes && s'.nodes[x] == s.nodes[x]
  {
    var Q' := Q + [q];
    forall i | 0 <= i < |Q'| ensures Q'[i] in s'.nodes && s'.nodes[Q'[i]].next == Following(Q', i) {
      if i < |Q| { assert s.nodes[Q[i]].next == Following(Q, i); }
    }
    assert NoDup(Q');
  }

  lemma LinkInQueue(s: State, t: Tid, s': State)
    requires Inv(s) && t in s.pc && LinkIn(s, t, s')
    ensures var q, Q := s.pc[t].q, Queue(s);
            Queue(s') == Q + [q] && s'.deq <= s'.enq && TailOk(s', Q + [q]) && s.tail == LastLink(Q)
  {
    hide Linked, WakeOk, StoreHead, StoreNext, Queue;
    var q, Q := s.pc[t].q, Queue(s);
    assert ThreadOk(s, t);
    QueueGrows(s, s', q);
    assert (Q + [q])[..|Q|] == Q;
  }

  lemma QueueGrows(s: State, s': State, q: Ptr)
    requires s.deq <= s.enq && s'.deq == s.deq && s'.enq == s.enq + [q]
    ensures Queue(s') == Queue(s) + [q] && s'.deq <= s'.enq
  {
  }

  lemma QueueShrinks(s: State, s': State)
    requires s.deq <= s.enq && Queue(s) != [] && s'.deq == s.deq + [Queue(s)[0]] && s'.enq == s.enq
    ensures Queue(s') == Queue(s)[1..] && s'.deq <= s'.enq
  {
  }

  lemma LinkInWake(s: State, t: Tid, s': State)
    requires Inv(s) && t in s.pc && LinkIn(s, t, s')
    requires forall x :: x in s.nodes ==> x in s'.nodes && s'.nodes[x].thread == s.nodes[x].thread
    ensures WakeOk(s', Queue(s) + [s.pc[t].q])
  {
    hide Linked, TailOk, StoreHead, StoreNext;
    assert ThreadOk(s, t);
    HeadFacts(s);
    var Q := Queue(s);
    if Q != [] { assert Q[0] in Q && (Q + [s.pc[t].q])[0] == Q[0]; }
  }

  lemma LinkInOk(s: State, t: Tid, s': State)
    requires Inv(s) && t in s.pc && LinkIn(s, t, s')
    ensures Inv(s') && Effects(s, t, s')
  {
    hide Linked, TailOk, WakeOk, StoreHead, StoreNext, ThreadOk, Queue, ThreadOf, Waiting;
    LinkInQueue(s, t, s');
    LinkInNodes(s, t, s');
    LinkInWake(s, t, s');
    LinkInSelf(s, t, s');
    LinkInWaiters(s, t, s');
    forall u | u in s'.pc ensures ThreadOk(s', u) {
      if u != t { LinkInOthers(s, t, s', u); }
    }
  }

  lemma LinkInNodes(s: State, t: Tid, s': State)
    requires Inv(s) && t in s.pc && LinkIn(s, t, s')
    ensures Linked(s', Queue(s) + [s.pc[t].q])
    ensures forall x :: x in s.nodes ==> x in s'.nodes && s'.nodes[x].thread == s.nodes[x].thread
  {
    hide Linked, TailOk, WakeOk, StoreHead, StoreNext, Queue;
    LinkInQueue(s, t, s');
    assert ThreadOk(s, t);
    StoreLinks(s, Queue(s), s.pc[t].q, s');
  }

  lemma LinkInWaiters(s: State, t: Tid, s': State)
    requires Inv(s) && t in s.pc && LinkIn(s, t, s')
    ensures !s'.destroyed ==> forall q :: q in Queue(s') ==> ThreadOf(s', q) in s'.pc && Waiting(s'.pc[ThreadOf(s', q)]) == Some(q)
  {
    hide Linked, TailOk, WakeOk, StoreHead, StoreNext, Queue;
    LinkInQueue(s, t, s');
    LinkInNodes(s, t, s');
    assert ThreadOk(s, t);
    HeadFacts(s);
  }

  lemma LinkInSelf(s: State, t: Tid, s': State)
    requires Inv(s) && t in s.pc && LinkIn(s, t, s')
    ensures t in s'.pc && ThreadOk(s', t)
  {
    hide Linked, TailOk, WakeOk, StoreHead, StoreNext;
    LinkInQueue(s, t, s');
    assert ThreadOk(s, t);
    StoreLinks(s, Queue(s), s.pc[t].q, s');
  }

  lemma LinkInOthers(s: State, t: Tid, s': State, u: Tid)
    requires Inv(s) && t in s.pc && LinkIn(s, t, s') && u in s.pc && u != t
    ensures u in s'.pc && ThreadOk(s', u)
  {
    hide Linked, TailOk, WakeOk, StoreHead, StoreNext, Queue;
    LinkInQueue(s, t, s');
    assert ThreadOk(s, t) && ThreadOk(s, u);
    HeadFacts(s);
    StoreLinks(s, Queue(s), s.pc[t].q, s');
    OthersOk(s, t, s', u);
  }

  /** Dropping the head leaves the rest of the list. */
  lemma LinkOutQueue(s: State, t: Tid, s': State)
    requires Inv(s) && t in s.pc && LinkOut(s, t, s')
    ensures var q, Q := s.pc[t].q, Queue(s);
            Q != [] && Q[0] == q && s'.deq == s.deq + [q] && s'.deq <= s'.enq &&
            Queue(s') == Q[1..] && Linked(s', Q[1..]) && TailOk(s', Q[1..]) && WakeOk(s', Q[1..])
  {
    var q, Q := s.pc[t].q, Queue(s);
    LinkOutShape(s, t, s');
    hide Queue;
    assert Linked(s, Q) && WakeOk(s, Q);
    assert ThreadOk(s, t);
    LinkedRest(s, Q, s');
    hide Linked;
  }

  lemma LinkOutShape(s: State, t: Tid, s': State)
    requires Inv(s) && t in s.pc && LinkOut(s, t, s')
    ensures var q, Q := s.pc[t].q, Queue(s);
            Q != [] && Q[0] == q && s'.deq == s.deq + [q] && s'.deq <= s'.enq && Queue(s') == Q[1..]
  {
    hide WakeOk, TailOk, Queue;
    assert ThreadOk(s, t);
    HeadFacts(s);
    QueueShrinks(s, s');
  }

  lemma LinkedRest(s: State, Q: seq<Ptr>, s': State)
    requires Linked(s, Q) && Q != [] && s'.nodes == s.nodes && s'.head == s.nodes[Q[0]].next
    ensures Linked(s', Q[1..])
  {
    var Q' := Q[1..];
    assert s.nodes[Q[0]].next == Following(Q, 0);
    forall i | 0 <= i < |Q'| ensures Q'[i] in s'.nodes && s'.nodes[Q'[i]].next == Following(Q', i) {
      assert s.nodes[Q[i + 1]].next == Following(Q, i + 1);
    }
  }

  lemma LinkOutOk(s: State, t: Tid, s': State)
    requires Inv(s) && t in s.pc && LinkOut(s, t, s')
    ensures Inv(s') && Effects(s, t, s')
  {
    hide Linked, TailOk, WakeOk, Queue;
    LinkOutQueue(s, t, s');
    assert ThreadOk(s, t);
    HeadFacts(s);
    var q, Q := s.pc[t].q, Queue(s);
    assert q !in Q[1..] && forall x :: x in Q[1..] ==> x in Q;
    forall u | u in s'.pc ensures ThreadOk(s', u) {
      if u != t { LinkOutOthers(s, t, s', u); }
    }
  }

  lemma LinkOutOthers(s: State, t: Tid, s': State, u: Tid)
    requires Inv(s) && t in s.pc && LinkOut(s, t, s') && u in s.pc && u != t
    ensures u in s'.pc && ThreadOk(s', u)
  {
    hide Linked, TailOk, WakeOk, Queue;
    LinkOutQueue(s, t, s');
    assert ThreadOk(s, t) && ThreadOk(s, u);
    var q, Q := s.pc[t].q, Queue(s);
    assert Q == [q] + Q[1..];
    OthersOk(s, t, s', u);
  }

  lemma StepKeepsInv(s: State, t: Tid, s': State)
    requires Inv(s) && Step(s, t, s')
    ensures Inv(s') && Effects(s, t, s')
  {
    hide Inv, Effects, Call, Lock, GiveUp, Unlock, Grab, MakeNode, LinkIn, MoveTail, WakeUp, Decrement, LinkOut, PassOn, Increment, Destroy, Dispose;
    if Call(s, t, s') { CallOk(s, t, s'); }
    else if Lock(s, t, s') { LockOk(s, t, s'); }
    else if GiveUp(s, t, s') { GiveUpOk(s, t, s'); }
    else if Unlock(s, t, s') { UnlockOk(s, t, s'); }
    else if Grab(s, t, s') { GrabOk(s, t, s'); }
    else if MakeNode(s, t, s') { MakeNodeOk(s, t, s'); }
    else if LinkIn(s, t, s') { LinkInOk(s, t, s'); }
    else if MoveTail(s, t, s') { MoveTailOk(s, t, s'); }
    else if WakeUp(s, t, s') { WakeUpOk(s, t, s'); }
    else if Decrement(s, t, s') { DecrementOk(s, t, s'); }
    else if LinkOut(s, t, s') { LinkOutOk(s, t, s'); }
    else if PassOn(s, t, s') { PassOnOk(s, t, s'); }
    else if Increment(s, t, s') { IncrementOk(s, t, s'); }
    else if Destroy(s, t, s') { DestroyOk(s, t, s'); }
    else { DisposeOk(s, t, s'); }
  }

  // ---------------------------------------------------------------- what one step counts

  function Tokens(s: State, u: Tid): int { if u in s.tokens then s.tokens[u] else 0 }

  /** Thread `t` is about to wake the thread of the head node, and that is `u`. */
  ghost predicate Wakes(s: State, t: Tid, u: Tid)
    requires t in s.pc
  {
    (s.pc[t].Fix? || s.pc[t].UpWake?) && s.head.Some? && ThreadOf(s, s.head.value) == u
  }

  /** One `up` done, one unit taken, or neither; the count follows. */
  ghost predicate CountsBy(s: State, s': State, up: int, down: int) {
    s'.ups == s.ups + up && s'.downs == s.downs + down && s'.count == s.count + up - down
  }

  /**
   A step completes one `up`, or takes one unit, or leaves the count alone.  It is an `up` exactly past
   the lock of a semaphore that is not destroyed; a unit is taken by the head past its recheck, or, on an
   available semaphore, without queueing.
   */
  lemma StepCounts(s: State, t: Tid, s': State)
    requires t in s.pc && Step(s, t, s')
    ensures if s.pc[t] == UpIn && !s.destroyed then CountsBy(s, s', 1, 0)
            else if s.pc[t].Take? then CountsBy(s, s', 0, 1)
            else CountsBy(s, s', 0, 0) || (CountsBy(s, s', 0, 1) && (s.pc[t].TryIn? || s.pc[t].DownIn?) && Avail(s) && !s.destroyed)
  {
    if Grab(s, t, s') || Decrement(s, t, s') || Increment(s, t, s') {
    } else {
      IdleCounts(s, t, s');
    }
  }

  lemma IdleCounts(s: State, t: Tid, s': State)
    requires t in s.pc && Step(s, t, s') && !Grab(s, t, s') && !Decrement(s, t, s') && !Increment(s, t, s')
    ensures CountsBy(s, s', 0, 0) && !s.pc[t].Take? && !(s.pc[t] == UpIn && !s.destroyed)
  {
    hide Call, Lock, GiveUp, Unlock, Grab, MakeNode, LinkIn, MoveTail, WakeUp, Decrement, LinkOut, PassOn, Increment, Destroy, Dispose;
    if PassOn(s, t, s') {
      PassCounts(s, t, s');
    } else if WakeUp(s, t, s') || LinkOut(s, t, s') || Destroy(s, t, s') {
      QueueEndCounts(s, t, s');
    } else if MakeNode(s, t, s') || Dispose(s, t, s') || LinkIn(s, t, s') || MoveTail(s, t, s') {
      NodeCounts(s, t, s');
    } else {
      LockCounts(s, t, s');
    }
  }

  lemma LockCounts(s: State, t: Tid, s': State)
    requires t in s.pc && (Call(s, t, s') || Lock(s, t, s') || GiveUp(s, t, s') || Unlock(s, t, s'))
    ensures CountsBy(s, s', 0, 0) && !s.pc[t].Take? && !(s.pc[t] == UpIn && !s.destroyed)
    ensures s'.tokens == s.tokens && !s.pc[t].Sleep? && forall u :: !Wakes(s, t, u)
  {
    hide Avail;
  }

  lemma NodeCounts(s: State, t: Tid, s': State)
    requires t in s.pc && (MakeNode(s, t, s') || Dispose(s, t, s') || LinkIn(s, t, s') || MoveTail(s, t, s'))
    ensures CountsBy(s, s', 0, 0) && !s.pc[t].Take? && !(s.pc[t] == UpIn && !s.destroyed)
    ensures s'.tokens == s.tokens && !s.pc[t].Sleep? && forall u :: !Wakes(s, t, u)
  {
    hide StoreHead, StoreNext;
  }

  lemma QueueEndCounts(s: State, t: Tid, s': State)
    requires t in s.pc && (WakeUp(s, t, s') || LinkOut(s, t, s') || Destroy(s, t, s'))
    ensures CountsBy(s, s', 0, 0) && !s.pc[t].Take? && !(s.pc[t] == UpIn && !s.destroyed)
    ensures forall u :: !Wakes(s, t, u) && Tokens(s', u) == Tokens(s, u) - if u == t && s.pc[t].Sleep? then 1 else 0
  {
    hide NextOfNode;
  }

  lemma PassCounts(s: State, t: Tid, s': State)
    requires t in s.pc && PassOn(s, t, s')
    ensures CountsBy(s, s', 0, 0) && !s.pc[t].Take? && !(s.pc[t] == UpIn && !s.destroyed)
  {
  }

  /** Exactly one wake token for each wake-up passed on, to the thread of the head; exactly one is read by a sleeper that wakes. */
  lemma StepTokens(s: State, t: Tid, s': State, u: Tid)
    requires t in s.pc && Step(s, t, s')
    ensures Tokens(s', u) == Tokens(s, u) + (if Wakes(s, t, u) then 1 else 0) - (if u == t && s.pc[t].Sleep? then 1 else 0)
  {
    if PassOn(s, t, s') {
      PassTokens(s, t, s', u);
    } else {
      TokensKept(s, t, s', u);
    }
  }

  lemma PassTokens(s: State, t: Tid, s': State, u: Tid)
    requires t in s.pc && PassOn(s, t, s')
    ensures Tokens(s', u) == Tokens(s, u) + if Wakes(s, t, u) then 1 else 0
  {
    hide ThreadOf;
  }

  lemma TokensKept(s: State, t: Tid, s': State, u: Tid)
    requires t in s.pc && Step(s, t, s') && !PassOn(s, t, s')
    ensures Tokens(s', u) == Tokens(s, u) - (if u == t && s.pc[t].Sleep? then 1 else 0) && !Wakes(s, t, u)
  {
    hide Call, Lock, GiveUp, Unlock, MakeNode, LinkIn, MoveTail, WakeUp, LinkOut, Destroy, Dispose, Wakes;
    if Grab(s, t, s') || Decrement(s, t, s') || Increment(s, t, s') {
      TakenTokens(s, t, s', u);
    } else if WakeUp(s, t, s') || LinkOut(s, t, s') || Destroy(s, t, s') {
      QueueEndCounts(s, t, s');
    } else if MakeNode(s, t, s') || Dispose(s, t, s') || LinkIn(s, t, s') || MoveTail(s, t, s') {
      NodeCounts(s, t, s');
    } else {
      LockCounts(s, t, s');
    }
  }

  lemma TakenTokens(s: State, t: Tid, s': State, u: Tid)
    requires t in s.pc && (Grab(s, t, s') || Decrement(s, t, s') || Increment(s, t, s'))
    ensures s'.tokens == s.tokens && !s.pc[t].Sleep? && !Wakes(s, t, u)
  {
  }

  // ---------------------------------------------------------------- no node is lost

  /** The node a thread has made and not yet freed. */
  function Mine(p: PC): Option<Ptr> {
    if Waiting(p).Some? then Waiting(p) else if Private(p).Some? then Private(p) else Spent(p)
  }

  /** Until a destroy, every node in memory belongs to a `down` under way that still knows it. */
  ghost predicate NoLeak(s: State) {
    !s.destroyed ==> forall q :: q in s.nodes ==> s.nodes[q].thread in s.pc && Mine(s.pc[s.nodes[q].thread]) == Some(q)
  }

  /** The nodes are the same ones, of the same threads. */
  ghost predicate SameNodes(s: State, s': State) {
    s'.nodes.Keys == s.nodes.Keys && forall q :: q in s.nodes ==> s'.nodes[q].thread == s.nodes[q].thread
  }

  lemma LockKeepsMine(s: State, t: Tid, s': State)
    requires t in s.pc && !s.destroyed && (Call(s, t, s') || Lock(s, t, s') || Unlock(s, t, s'))
    ensures SameNodes(s, s') && t in s'.pc && s'.pc == s.pc[t := s'.pc[t]] && Mine(s'.pc[t]) == Mine(s.pc[t])
  {
  }

  lemma GiveUpKeepsMine(s: State, t: Tid, s': State)
    requires t in s.pc && !s.destroyed && GiveUp(s, t, s')
    ensures SameNodes(s, s') && t in s'.pc && s'.pc == s.pc[t := s'.pc[t]] && Mine(s'.pc[t]) == Mine(s.pc[t])
  {
    hide Avail;
  }

  lemma QueueKeepsMine(s: State, t: Tid, s': State)
    requires t in s.pc && !s.destroyed && (LinkIn(s, t, s') || MoveTail(s, t, s') || WakeUp(s, t, s') || LinkOut(s, t, s') || Destroy(s, t, s'))
    ensures SameNodes(s, s') && t in s'.pc && s'.pc == s.pc[t := s'.pc[t]] && Mine(s'.pc[t]) == Mine(s.pc[t])
  {
    hide NextOfNode, StoreHead;
  }

  lemma CountKeepsMine(s: State, t: Tid, s': State)
    requires t in s.pc && !s.destroyed && (Grab(s, t, s') || Decrement(s, t, s') || Increment(s, t, s') || PassOn(s, t, s'))
    ensures SameNodes(s, s') && t in s'.pc && s'.pc == s.pc[t := s'.pc[t]] && Mine(s'.pc[t]) == Mine(s.pc[t])
  {
    hide ThreadOf, Avail;
  }

  lemma MakeOrDispose(s: State, t: Tid, s': State)
    requires Inv(s) && t in s.pc && !s.destroyed && NoLeak(s) && (MakeNode(s, t, s') || Dispose(s, t, s'))
    ensures NoLeak(s')
  {
    assert ThreadOk(s, t);
    hide Linked, TailOk, WakeOk, Queue;
  }

  lemma KeptNoLeak(s: State, t: Tid, s': State)
    requires NoLeak(s) && !s.destroyed && SameNodes(s, s') && t in s.pc && t in s'.pc && s'.pc == s.pc[t := s'.pc[t]] && Mine(s'.pc[t]) == Mine(s.pc[t])
    ensures NoLeak(s')
  {
  }

  lemma StepNoLeak(s: State, t: Tid, s': State)
    requires Inv(s) && NoLeak(s) && Step(s, t, s')
    ensures NoLeak(s')
  {
    hide Inv, Call, Lock, GiveUp, Unlock, Grab, MakeNode, LinkIn, MoveTail, WakeUp, Decrement, LinkOut, PassOn, Increment, Destroy, Dispose;
    if s.destroyed {
      StepKeepsInv(s, t, s');
    } else if MakeNode(s, t, s') || Dispose(s, t, s') {
      MakeOrDispose(s, t, s');
    } else {
      hide NoLeak;
      if Call(s, t, s') || Lock(s, t, s') || Unlock(s, t, s') {
        LockKeepsMine(s, t, s');
      } else if GiveUp(s, t, s') {
        GiveUpKeepsMine(s, t, s');
      } else if Grab(s, t, s') || Decrement(s, t, s') || Increment(s, t, s') || PassOn(s, t, s') {
        CountKeepsMine(s, t, s');
      } else {
        QueueKeepsMine(s, t, s');
      }
      KeptNoLeak(s, t, s');
    }
  }

  // ---------------------------------------------------------------- runs

  ghost predicate Moves(s: State, s': State) {
    exists t :: t in s.pc && Step(s, t, s')
  }

  ghost predicate Run(ss: seq<State>) {
    |ss| > 0 && Init(ss[0]) && forall i :: 0 <= i < |ss| - 1 ==> Moves(ss[i], ss[i + 1])
  }

  lemma {:induction false} RunKeepsInv(ss: seq<State>)
    requires Run(ss)
    ensures Inv(ss[|ss| - 1]) && ss[|ss| - 1].initial == ss[0].initial
  {
    hide Inv, Step;
    var n := |ss| - 1;
    if n == 0 {
      InitInv(ss[0]);
    } else {
      var init := ss[..n];
      assert forall i :: 0 <= i < n ==> init[i] == ss[i];
      RunKeepsInv(init);
      assert Moves(ss[n - 1], ss[n - 1 + 1]);
      var t :| t in ss[n - 1].pc && Step(ss[n - 1], t, ss[n]);
      StepKeepsInv(ss[n - 1], t, ss[n]);
    }
  }

  /**
   In every interleaving: the count is the initial one plus ups minus completed downs and never
   negative; nodes leave the queue in the order in which they entered it; between critical
   sections the tail pointer addresses the last link; and a head that could go ahead has an unread
   wake token or is already on its way to recheck.
   */
  lemma SemaphoreSafety(ss: seq<State>)
    requires Run(ss)
    ensures var s := ss[|ss| - 1];
            && s.count == ss[0].initial + s.ups - s.downs && s.count >= 0
            && s.deq <= s.enq
            && (s.lock == None ==> s.tail == LastLink(Queue(s)))
            && (s.lock == None && !s.destroyed && s.count > 0 && Queue(s) != [] ==>
                  var t := ThreadOf(s, Queue(s)[0]);
                  (t in s.tokens && s.tokens[t] > 0) || (t in s.pc && s.pc[t] == Relock(Queue(s)[0])))
  {
    RunKeepsInv(ss);
    var s := ss[|ss| - 1];
    if s.lock == None && Queue(s) != [] {
      var t := ThreadOf(s, Queue(s)[0]);
      if t in s.pc { assert ThreadOk(s, t); }
    }
  }

  /** The next step of thread `t` reads, writes or frees node `q`. */
  ghost predicate Uses(s: State, t: Tid, q: Ptr)
    requires t in s.pc
  {
    match s.pc[t]
    case Enq1(_) => s.tail == NextOf(q)
    case Unlink(_) => s.head == Some(q)
    case Fix(_) => s.head == Some(q)
    case UpWake => s.head == Some(q)
    case FreeNode(p) => q == p
    case _ => false
  }

  /** The tail pointer addresses the head pointer or a node in memory. */
  lemma TailLive(s: State)
    requires Inv(s)
    ensures s.tail.NextOf? ==> s.tail.node in s.nodes
  {
    hide Linked, WakeOk, Queue;
    HeadFacts(s);
    var Q := Queue(s);
    if s.lock.Some? { assert ThreadOk(s, s.lock.value); }
    if HolderPC(s).Enq2? && |Q| > 1 {
      assert Q[..|Q| - 1][|Q| - 2] == Q[|Q| - 2];
      assert Q[|Q| - 2] in Q;
    }
  }

  /** In every interleaving no node is lost before a destroy, and at most one is in use for each thread. */
  lemma {:induction false} NothingLeaks(ss: seq<State>)
    requires Run(ss)
    ensures NoLeak(ss[|ss| - 1])
  {
    hide Inv, Step, NoLeak;
    var n := |ss| - 1;
    if n == 0 {
      NoNodes(ss[0]);
    } else {
      var init := ss[..n];
      assert forall i :: 0 <= i < n ==> init[i] == ss[i];
      NothingLeaks(init);
      RunKeepsInv(init);
      assert Moves(ss[n - 1], ss[n - 1 + 1]);
      var t :| t in ss[n - 1].pc && Step(ss[n - 1], t, ss[n]);
      StepNoLeak(ss[n - 1], t, ss[n]);
    }
  }

  lemma NoNodes(s: State)
    requires Init(s)
    ensures NoLeak(s)
  {
  }

  /** Whatever a thread holds on to is in memory. */
  lemma HeldLive(s: State, t: Tid, q: Ptr)
    requires Inv(s) && t in s.pc && (Waiting(s.pc[t]) == Some(q) || Private(s.pc[t]) == Some(q) || Spent(s.pc[t]) == Some(q))
    ensures q in s.nodes && s.nodes[q].thread == t
  {
    hide Linked, WakeOk, TailOk, Queue;
    assert ThreadOk(s, t);
    HeadFacts(s);
  }

  /**
   In every interleaving, with freed addresses handed out again: no thread reads, writes or frees a
   node that is not in memory, whether it gets there through the head, the tail or its own pointer;
   and a node that is freed is neither queued nor addressed by head, tail or a `next` field in the queue.
   */
  lemma NoUseAfterFree(ss: seq<State>, t: Tid)
    requires Run(ss) && t in ss[|ss| - 1].pc
    ensures var s := ss[|ss| - 1];
            && (forall q :: Uses(s, t, q) ==> q in s.nodes)
            && (s.pc[t].FreeNode? ==>
                  var q := s.pc[t].q;
                  && s.nodes[q].thread == t && s.head != Some(q) && s.tail != NextOf(q)
                  && forall x :: x in Queue(s) ==> x in s.nodes && x != q && s.nodes[x].next != Some(q))
  {
    RunKeepsInv(ss);
    var s := ss[|ss| - 1];
    hide Run;
    TailLive(s);
    HeadFacts(s);
    forall q | Uses(s, t, q) ensures q in s.nodes {
      if s.pc[t].FreeNode? {
        HeldLive(s, t, q);
      } else if s.head == Some(q) {
        assert q in Queue(s);
      }
    }
    if s.pc[t].FreeNode? { FreedIsLoose(s, t); }
  }

  lemma FreedIsLoose(s: State, t: Tid)
    requires Inv(s) && t in s.pc && s.pc[t].FreeNode?
    ensures var q := s.pc[t].q;
            && q in s.nodes && s.nodes[q].thread == t && s.head != Some(q) && s.tail != NextOf(q)
            && forall x :: x in Queue(s) ==> x in s.nodes && x != q && s.nodes[x].next != Some(q)
  {
    var q, Q := s.pc[t].q, Queue(s);
    HeldLive(s, t, q);
    assert ThreadOk(s, t);
    assert q !in Q;
    NextsQueued(s, Q, q);
    var s' := To(s, t, Idle).(nodes := s.nodes - {q});
    DisposeOk(s, t, s');
    TailLive(s');
    HeadFacts(s);
  }

  lemma NextsQueued(s: State, Q: seq<Ptr>, q: Ptr)
    requires Linked(s, Q) && q !in Q
    ensures forall x :: x in Q ==> x in s.nodes && s.nodes[x].next != Some(q)
  {
    forall x | x in Q ensures x in s.nodes && s.nodes[x].next != Some(q) {
      var i :| 0 <= i < |Q| && Q[i] == x;
      assert s.nodes[Q[i]].next == Following(Q, i);
    }
  }

  /** No overtaking: the count goes down only on an empty queue, or for the head of the queue. */
  lemma NoOvertaking(s: State, t: Tid, s': State)
    requires Inv(s) && t in s.pc && Step(s, t, s') && s'.downs != s.downs
    ensures s'.downs == s.downs + 1 && !s.destroyed
    ensures Queue(s) == [] || (s.pc[t].Take? && Queue(s)[0] == s.pc[t].q && ThreadOf(s, Queue(s)[0]) == t)
  {
    hide Step, Linked, TailOk, WakeOk;
    StepKeepsInv(s, t, s');
    assert ThreadOk(s, t);
    HeadFacts(s);
  }

  /** Whoever waits, the head thread alone can carry its own `down` through. */
  lemma HeadCanFinish(s: State) returns (t: Tid, ss: seq<State>)
    requires Inv(s) && s.lock == None && !s.destroyed && s.count > 0 && Queue(s) != []
    ensures |ss| > 0 && ss[0] == s && forall i :: 0 <= i < |ss| - 1 ==> Step(ss[i], t, ss[i + 1])
    ensures var e := ss[|ss| - 1]; e.deq == s.deq + [Queue(s)[0]] && e.count == s.count - 1 && e.downs == s.downs + 1
  {
    hide Inv, ThreadOk, Queue, Step, NoDup;
    var h := Queue(s)[0];
    t := ThreadOf(s, h);
    HeadAwake(s);
    HeadFacts(s);
    if s.pc[t] == Relock(h) {
      ss := AwakeCanFinish(s, t, h);
    } else {
      var s1 := WakeStep(s, t, h);
      var rest := AwakeCanFinish(s1, t, h);
      ss := [s] + rest;
    }
  }

  /** With the lock free and a unit to take, the head is awake or has a wake token. */
  lemma HeadAwake(s: State)
    requires Inv(s) && s.lock == None && !s.destroyed && s.count > 0 && Queue(s) != []
    ensures var h := Queue(s)[0]; var t := ThreadOf(s, h);
            t in s.pc && (s.pc[t] == Relock(h) || (s.pc[t] == Sleep(h) && t in s.tokens && s.tokens[t] > 0))
  {
    hide Linked, TailOk;
    var h := Queue(s)[0];
    assert h in Queue(s);
    assert ThreadOk(s, ThreadOf(s, h));
  }

  lemma WakeStep(s: State, t: Tid, h: Ptr) returns (s1: State)
    requires t in s.pc && s.pc[t] == Sleep(h) && t in s.tokens && s.tokens[t] > 0
    ensures Step(s, t, s1) && t in s1.pc && s1.pc[t] == Relock(h) && s1 == s.(pc := s1.pc, tokens := s1.tokens)
  {
    s1 := To(s, t, Relock(h)).(tokens := s.tokens[t := s.tokens[t] - 1]);
    assert WakeUp(s, t, s1);
  }

  /** Awake, with the lock free and a unit to take, the head needs four steps. */
  lemma AwakeCanFinish(s: State, t: Tid, h: Ptr) returns (ss: seq<State>)
    requires t in s.pc && s.pc[t] == Relock(h) && s.lock == None && !s.destroyed && s.count > 0 && s.head == Some(h)
    ensures |ss| > 0 && ss[0] == s && forall i :: 0 <= i < |ss| - 1 ==> Step(ss[i], t, ss[i + 1])
    ensures var e := ss[|ss| - 1]; e.deq == s.deq + [h] && e.count == s.count - 1 && e.downs == s.downs + 1
  {
    var s2 := To(s, t, Recheck(h)).(lock := Some(t));
    var s3 := To(s2, t, Take(h));
    var s4 := To(s3, t, Unlink(h)).(count := s.count - 1, downs := s.downs + 1);
    var s5 := To(s4, t, Fix(h)).(head := NextOfNode(s4, h), deq := s.deq + [h]);
    assert Lock(s, t, s2);
    assert GiveUp(s2, t, s3);
    assert Decrement(s3, t, s4);
    assert LinkOut(s4, t, s5);
    hide Step, NextOfNode, Lock, GiveUp, Decrement, LinkOut;
    ss := FourSteps(t, s, s2, s3, s4, s5);
  }

  lemma FourSteps(t: Tid, a: State, b: State, c: State, d: State, e: State) returns (ss: seq<State>)
    requires Step(a, t, b) && Step(b, t, c) && Step(c, t, d) && Step(d, t, e)
    ensures |ss| > 0 && ss[0] == a && ss[|ss| - 1] == e && forall i :: 0 <= i < |ss| - 1 ==> Step(ss[i], t, ss[i + 1])
  {
    hide Step;
    ss := [a, b, c, d, e];
  }

  /** After a destroy that fails, the lock is never free again, and no `down` or `up` completes. */
  lemma FailedDestroyWedges(s: State, u: Tid, t: Tid, s': State)
    requires Inv(s) && t in s.pc && u in s.pc && s.pc[u] == Wedged && Step(s, t, s')
    ensures s'.lock == Some(u) && u in s'.pc && s'.pc[u] == Wedged && s'.downs == s.downs && s'.ups == s.ups
  {
    if t == u { WedgedStays(s, t, s'); }
    assert (s.lock == Some(u) <==> Holds(s.pc[u])) && (s.lock == Some(t) <==> Holds(s.pc[t])) by { assert ThreadOk(s, u) && ThreadOk(s, t); }
    hide Step, Inv, Grab, Decrement, WakeUp, PassOn;
    StepKeepsInv(s, t, s');
  }

  lemma WedgedStays(s: State, t: Tid, s': State)
    requires t in s.pc && s.pc[t] == Wedged
    ensures !Step(s, t, s')
  {
  }
}
