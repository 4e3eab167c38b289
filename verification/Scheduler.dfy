/**
 The scheduler entry points that move tasks between queues: wake-up, sleep, fork, tick, yield,
 policy change, change of owner, and the choice of the next task.  Interactivity decisions are
 parameters: an ordinary task's new priority is any value of the ordinary range.
 */
module Scheduler {
  import opened Seqs
  import opened Options
  import opened PrioArrays
  import opened Runqueues

  const EPERM: int := 1
  const EINVAL: int := 22

  // ---------------------------------------------------------------- specification functions

  /** The array `__activate_task` chooses. */
  function Home(s: Rq, t: Tid): Ref
    requires t in s.tasks
  {
    if s.tasks[t].policy == Uwrr then OfUser(s.tasks[t].user) else Main(s.active)
  }

  ghost predicate Startable(s: Rq, t: Tid) {
    && t in s.tasks && ValidRef(s, Home(s, t)) && 0 <= s.tasks[t].prio < |Arr(s, Home(s, t)).queue|
  }

  /** `__activate_task` */
  function Activated(s: Rq, t: Tid): Rq
    requires Startable(s, t)
  {
    Put(s, t, Home(s, t), Enqueue(Arr(s, Home(s, t)), t, s.tasks[t].prio))
  }

  ghost predicate Stoppable(s: Rq, t: Tid) {
    && t in s.tasks && s.tasks[t].arr.Some? && ValidRef(s, s.tasks[t].arr.value)
    && 0 <= s.tasks[t].prio < |Arr(s, s.tasks[t].arr.value).queue|
  }

  /** `deactivate_task`: the user taken off the list is the owner, whatever array the task is in. */
  function Deactivated(s: Rq, t: Tid): Rq
    requires Stoppable(s, t)
  {
    var p, r := s.tasks[t], s.tasks[t].arr.value;
    var n := Arr(s, r).nr;
    Change(s, r, Dequeue(Arr(s, r), t, p.prio), t, p.(arr := None)).(
      nrRunning := s.nrRunning - 1,
      uwrrRunning := if p.policy == Uwrr then s.uwrrRunning - 1 else s.uwrrRunning,
      userlist := if p.policy == Uwrr && n == 1 then Without(s.userlist, p.user) else s.userlist)
  }

  /** `__setscheduler` on the task alone. */
  function Repoliced(p: Task, policy: Policy, prio: int): Task {
    match policy
    case Normal => p.(policy := policy, prio := p.staticPrio)
    case Uwrr => p.(policy := policy, prio := UWRR_TASK_PRIO, staticPrio := UWRR_TASK_PRIO)
    case _ => p.(policy := policy, prio := MAX_RT_PRIO - 1 - prio)
  }

  /** What a change of policy makes of a task's record. */
  ghost predicate PolicySet(o: Task, p: Task, policy: Policy, arg: int) {
    && p.policy == policy && p.user == o.user && p.slice == o.slice && p.leaving == o.leaving
    && (policy == Normal ==> p.prio == o.staticPrio && p.staticPrio == o.staticPrio)
    && (policy == Uwrr ==> p.prio == 120 && p.staticPrio == 120)
    && (policy == Fifo || policy == RoundRobin ==> p.prio == 99 - arg && p.staticPrio == o.staticPrio)
  }

  function PolicyOf(code: int): Option<Policy> {
    if code == 0 then Some(Normal) else if code == 1 then Some(Fifo) else if code == 2 then Some(RoundRobin)
    else if code == 4 then Some(Uwrr) else None
  }

  lemma ActivatedOk(s: Rq, t: Tid)
    requires Inv(s) && t in s.tasks && s.tasks[t].arr == None
    ensures Startable(s, t) && Inv(Activated(s, t))
  {
    assert TaskOk(s, s.tasks[t]);
    EnqueuedOk(s, t, Home(s, t));
  }

  /** The task is queued, if at all, where its policy and owner say. */
  predicate InPlace(p: Task) { p.policy == Uwrr && p.arr.Some? ==> p.arr == Some(OfUser(p.user)) }

  lemma DeactivatedOk(s: Rq, t: Tid)
    requires Inv(s) && t in s.tasks && s.tasks[t].arr.Some? && InPlace(s.tasks[t])
    ensures Stoppable(s, t) && Deactivated(s, t) == Taken(s, t) && Inv(Deactivated(s, t))
  {
    assert TaskOk(s, s.tasks[t]);
    TakenOk(s, t);
  }

  /** Where a queued UWRR task is: in the array of its owner or, while that changes, of the previous one. */
  lemma UwrrFacts(s: Rq, t: Tid) returns (u: Uid)
    requires Inv(s) && t in s.tasks && s.tasks[t].policy == Uwrr && s.tasks[t].arr.Some?
    ensures s.tasks[t].arr == Some(OfUser(u)) && Busy(s, u) && u in s.userlist
    ensures u == s.tasks[t].user || (s.tasks[t].leaving.Some? && u == s.tasks[t].leaving.value.prev)
    ensures 0 <= s.tasks[t].prio < |s.users[u].tasks.queue|
  {
    assert TaskOk(s, s.tasks[t]);
    QueuedAt(s, t);
    u := s.tasks[t].arr.value.u;
  }

  // ---------------------------------------------------------------- off the queue and on again

  /** `deactivate_task`, a change of the task, `__activate_task`, under one hold of the lock. */
  function Bounced(s: Rq, t: Tid, p: Task): Rq
    requires Inv(s) && Queued(s, t) && p.arr == None && TaskOk(s, p)
  {
    BounceSteps(s, t, p);
    var b := Deactivated(s, t);
    Activated(b.(tasks := b.tasks[t := p]), t)
  }

  lemma BounceSteps(s: Rq, t: Tid, p: Task)
    requires Inv(s) && Queued(s, t) && p.arr == None && TaskOk(s, p)
    ensures Stoppable(s, t)
    ensures var b := Deactivated(s, t); Startable(b.(tasks := b.tasks[t := p]), t)
  {
    QueuedAt(s, t);
    assert TaskOk(s, s.tasks[t]);
    assert ArrayOk(Arr(s, Main(s.active))) && ArrayOk(Arr(s, OfUser(p.user)));
  }

  /** The list after `deactivate_task`: with the last task of an array it is the task's owner that goes. */
  function ListOff(s: Rq, t: Tid): seq<Uid>
    requires Stoppable(s, t)
  {
    var p := s.tasks[t];
    if p.policy == Uwrr && Arr(s, p.arr.value).nr == 1 then Without(s.userlist, p.user) else s.userlist
  }

  function HomeOf(s: Rq, p: Task): Ref { if p.policy == Uwrr then OfUser(p.user) else Main(s.active) }

  /** The proper way: the user that leaves the list is the one whose array is empty. */
  function Proper(s: Rq, t: Tid, p: Task): Rq
    requires Inv(s) && Queued(s, t) && p.arr == None && TaskOk(s, p)
  {
    ProperSteps(s, t, p);
    var b := Taken(s, t);
    Activated(b.(tasks := b.tasks[t := p]), t)
  }

  lemma ProperSteps(s: Rq, t: Tid, p: Task)
    requires Inv(s) && Queued(s, t) && p.arr == None && TaskOk(s, p)
    ensures Stoppable(s, t) && t in Taken(s, t).tasks
    ensures var b := Taken(s, t); var c := b.(tasks := b.tasks[t := p]); Inv(c) && Startable(c, t) && Inv(Activated(c, t))
  {
    TakenOk(s, t);
    var b := Taken(s, t);
    assert TaskOk(b, p);
    RetagOk(b, t, p);
    ActivatedOk(b.(tasks := b.tasks[t := p]), t);
  }

  /** The code ends where the proper way ends, except perhaps for the list of users. */
  lemma BouncedForm(s: Rq, t: Tid, p: Task)
    requires Inv(s) && Queued(s, t) && p.arr == None && TaskOk(s, p)
    ensures Stoppable(s, t) && Inv(Proper(s, t, p))
    ensures Bounced(s, t, p) == Proper(s, t, p).(userlist := ListAfterPut(ListOff(s, t), HomeOf(s, p)))
  {
    ProperSteps(s, t, p);
    BounceSteps(s, t, p);
    assert TaskOk(s, s.tasks[t]);
    hide Inv, Without, Dequeue, Enqueue;
    var b, c := Deactivated(s, t), Taken(s, t);
    assert b.(tasks := b.tasks[t := p]) == c.(tasks := c.tasks[t := p], userlist := b.userlist);
    ActivateAnyList(c.(tasks := c.tasks[t := p]), b.userlist, t);
  }

  /** Putting a task on an array looks at the list of users only to extend it. */
  lemma ActivateAnyList(c: Rq, l: seq<Uid>, t: Tid)
    requires Startable(c, t)
    ensures var d := c.(userlist := l);
            Startable(d, t) && Activated(d, t) == Activated(c, t).(userlist := ListAfterPut(l, Home(c, t)))
  {
    hide Enqueue;
  }

  /** How many tasks each user has afterwards. */
  lemma BouncedNr(s: Rq, t: Tid, p: Task, u: Uid)
    requires Inv(s) && Queued(s, t) && p.arr == None && TaskOk(s, p)
    ensures var q := Proper(s, t, p);
            && q.users.Keys == s.users.Keys && t in q.tasks && q.tasks[t] == p.(arr := Some(HomeOf(s, p)))
            && NrOf(q.users, u) == NrOf(s.users, u) - (if s.tasks[t].arr == Some(OfUser(u)) then 1 else 0)
                                   + (if p.policy == Uwrr && p.user == u then 1 else 0)
  {
    ProperSteps(s, t, p);
    assert TaskOk(s, s.tasks[t]);
    var b := Taken(s, t);
    hide Inv, Without, TaskOk;
    TakenNr(s, t, u);
    ActivatedNr(b.(tasks := b.tasks[t := p]), t, u);
    hide Taken, Activated;
  }

  lemma TakenNr(s: Rq, t: Tid, u: Uid)
    requires Stoppable(s, t)
    ensures var b := Taken(s, t);
            && b.users.Keys == s.users.Keys && b.active == s.active && t in b.tasks
            && NrOf(b.users, u) == NrOf(s.users, u) - if s.tasks[t].arr == Some(OfUser(u)) then 1 else 0
  {
    hide Without;
  }

  lemma ActivatedNr(c: Rq, t: Tid, u: Uid)
    requires Startable(c, t)
    ensures var q, p := Activated(c, t), c.tasks[t];
            && q.users.Keys == c.users.Keys && t in q.tasks && q.tasks[t] == p.(arr := Some(HomeOf(c, p)))
            && NrOf(q.users, u) == NrOf(c.users, u) + if p.policy == Uwrr && p.user == u then 1 else 0
  {
  }

  /** The list keeps every busy user unless the owner, with tasks of its own, goes for another user's last task. */
  predicate KeepsList(s: Rq, t: Tid, policy: Policy)
    requires Stoppable(s, t)
  {
    var p := s.tasks[t];
    || policy == Uwrr || p.policy != Uwrr || Arr(s, p.arr.value).nr > 1
    || p.arr == Some(OfUser(p.user)) || !Busy(s, p.user)
  }

  /** Exactly then the bounce keeps the runqueue consistent. */
  lemma BouncedExact(s: Rq, t: Tid, p: Task)
    requires Inv(s) && Queued(s, t) && p.arr == None && TaskOk(s, p) && p.user == s.tasks[t].user
    ensures Stoppable(s, t) && (Inv(Bounced(s, t, p)) <==> KeepsList(s, t, p.policy))
  {
    BouncedForm(s, t, p);
    var q, l := Proper(s, t, p), ListAfterPut(ListOff(s, t), HomeOf(s, p));
    forall u ensures q.users.Keys == s.users.Keys && (Busy(q, u) <==> NrOf(q.users, u) > 0) { BouncedNr(s, t, p, u); }
    BouncedCovers(s, t, p, q, l);
    hide Bounced, Proper;
    if KeepsList(s, t, p.policy) { RelistOk(q, l); }
  }

  /** What the invariant says about the list. */
  lemma ListFacts(s: Rq)
    requires Inv(s)
    ensures ListCovers(s, s.userlist) && forall u :: NrOf(s.users, u) >= 0
  {
    ArraysNonNeg(s);
    forall u ensures NrOf(s.users, u) >= 0 { if u in s.users { assert Arr(s, OfUser(u)).nr >= 0; } }
  }

  lemma BouncedCovers(s: Rq, t: Tid, p: Task, q: Rq, l: seq<Uid>)
    requires Inv(s) && Queued(s, t) && p.arr == None && TaskOk(s, p) && p.user == s.tasks[t].user && Stoppable(s, t)
    requires q == Proper(s, t, p) && l == ListAfterPut(ListOff(s, t), HomeOf(s, p))
    ensures ListCovers(q, l) <==> KeepsList(s, t, p.policy)
  {
    var was, w := s.tasks[t], p.user;
    ListFacts(s);
    WithoutIsDelete(s.userlist, w);
    forall u ensures q.users.Keys == s.users.Keys
                     && NrOf(q.users, u) == NrOf(s.users, u) - (if was.arr == Some(OfUser(u)) then 1 else 0) + (if p.policy == Uwrr && w == u then 1 else 0)
    {
      BouncedNr(s, t, p, u);
    }
    assert TaskOk(s, was) && w in s.users;
    QueuedAt(s, t);
    ArrayNr(s, was.arr.value);
    hide Proper, Inv, TaskOk, Without, Arr, NoDup, Stoppable;
    assert Arr(s, was.arr.value).nr >= 1;
    if KeepsList(s, t, p.policy) {
      CoverKept(s, was, p, q, l, Arr(s, was.arr.value).nr);
    } else {
      assert NrOf(q.users, w) == NrOf(s.users, w) > 0;
      assert w !in l;
    }
  }

  lemma CoverKept(s: Rq, was: Task, p: Task, q: Rq, l: seq<Uid>, n: int)
    requires was.arr.Some? && (was.arr.value.OfUser? ==> was.policy == Uwrr && n == NrOf(s.users, was.arr.value.u)) && n >= 1 && p.user == was.user
    requires ListCovers(s, s.userlist) && (forall u :: NrOf(s.users, u) >= 0) && p.user in s.users && q.users.Keys == s.users.Keys
    requires forall u :: NrOf(q.users, u) == NrOf(s.users, u) - (if was.arr == Some(OfUser(u)) then 1 else 0) + (if p.policy == Uwrr && p.user == u then 1 else 0)
    requires l == ListAfterPut(if was.policy == Uwrr && n == 1 then Without(s.userlist, p.user) else s.userlist, HomeOf(s, p))
    requires p.policy == Uwrr || was.policy != Uwrr || n > 1 || was.arr == Some(OfUser(was.user)) || !Busy(s, p.user)
    ensures ListCovers(q, l)
  {
    WithoutIsDelete(s.userlist, p.user);
    hide Without;
    forall u | Busy(q, u) ensures u in l {
      assert NrOf(q.users, u) > 0;
      if u != p.user { assert Busy(s, u); }
    }
  }

  lemma ArrayNr(s: Rq, r: Ref)
    requires ValidRef(s, r)
    ensures r.OfUser? ==> Arr(s, r).nr == NrOf(s.users, r.u)
  {
  }

  // ---------------------------------------------------------------- a change of owner

  /** `switch_uid` assigns the owner without a lock. */
  function Assigned(s: Rq, t: Tid, owner: Uid): Rq
    requires t in s.tasks
  {
    s.(tasks := s.tasks[t := s.tasks[t].(user := owner, leaving := Some(Leaving(s.tasks[t].user, false)))])
  }

  lemma AssignedOk(s: Rq, t: Tid, owner: Uid)
    requires Inv(s) && t in s.tasks && s.tasks[t].leaving == None && owner in s.users
    ensures Inv(Assigned(s, t, owner))
  {
    assert TaskOk(s, s.tasks[t]);
    KeepOk(s, t, s.tasks[t].(user := owner, leaving := Some(Leaving(s.tasks[t].user, false))));
  }

  /** `uwrr_switch_user` looks at the policy, still without a lock, and does nothing for another class. */
  function PolicyTested(s: Rq, t: Tid): Rq
    requires t in s.tasks && s.tasks[t].leaving.Some?
  {
    var p := s.tasks[t];
    s.(tasks := s.tasks[t := p.(leaving := if p.policy == Uwrr then Some(p.leaving.value.(tested := true)) else None)])
  }

  lemma PolicyTestedOk(s: Rq, t: Tid)
    requires Inv(s) && t in s.tasks && s.tasks[t].leaving.Some?
    ensures Inv(PolicyTested(s, t))
  {
    assert TaskOk(s, s.tasks[t]);
    KeepOk(s, t, PolicyTested(s, t).tasks[t]);
  }

  /**
   The locked section of `uwrr_switch_user`: the task already belongs to its new owner when it is
   taken off the old one's array, so the wrong user may leave the list; putting the task on again and
   dropping the old owner when it has nothing left repairs it.
   */
  function Repaired(s: Rq, t: Tid): Rq
    requires Inv(s) && t in s.tasks && s.tasks[t].leaving.Some?
  {
    assert TaskOk(s, s.tasks[t]);
    var prev := s.tasks[t].leaving.value.prev;
    var s1 := if s.tasks[t].arr.Some? then Bounced(s, t, s.tasks[t].(arr := None)) else s;
    var s2 := if NrOf(s1.users, prev) != 0 then s1 else s1.(userlist := Without(s1.userlist, prev));
    s2.(tasks := s2.tasks[t := (if t in s2.tasks then s2.tasks[t] else s.tasks[t]).(leaving := None)])
  }

  /** The repair always succeeds, whatever happened since the assignment. */
  lemma RepairedOk(s: Rq, t: Tid)
    requires Inv(s) && t in s.tasks && s.tasks[t].leaving.Some?
    ensures Inv(Repaired(s, t))
  {
    assert TaskOk(s, s.tasks[t]);
    var p := s.tasks[t].(arr := None);
    var prev := s.tasks[t].leaving.value.prev;
    if s.tasks[t].arr.Some? {
      BouncedExact(s, t, p);
      BouncedTask(s, t, p);
      hide Inv, Bounced;
      RepairEnds(Bounced(s, t, p), t, prev);
    } else {
      RepairEnds(s, t, prev);
    }
  }

  /** An idle previous owner off the list, the change of owner over. */
  lemma RepairEnds(s: Rq, t: Tid, prev: Uid)
    requires Inv(s) && t in s.tasks && InPlace(s.tasks[t])
    ensures var s2 := if NrOf(s.users, prev) != 0 then s else s.(userlist := Without(s.userlist, prev));
            Inv(s2.(tasks := s2.tasks[t := s2.tasks[t].(leaving := None)]))
  {
    ListFacts(s);
    WithoutIsDelete(s.userlist, prev);
    var s2 := if NrOf(s.users, prev) != 0 then s else s.(userlist := Without(s.userlist, prev));
    if NrOf(s.users, prev) == 0 { RelistOk(s, s2.userlist); }
    assert TaskOk(s2, s2.tasks[t]);
    hide Inv;
    KeepOk(s2, t, s2.tasks[t].(leaving := None));
  }

  /** The three steps of `switch_uid` in a row. */
  function Switched(s: Rq, t: Tid, owner: Uid): Rq
    requires Inv(s) && t in s.tasks && s.tasks[t].leaving == None && owner in s.users
  {
    AssignedOk(s, t, owner);
    var a := Assigned(s, t, owner);
    PolicyTestedOk(a, t);
    var b := PolicyTested(a, t);
    if b.tasks[t].leaving.Some? then Repaired(b, t) else b
  }

  lemma RepairedTask(s: Rq, t: Tid)
    requires Inv(s) && t in s.tasks && s.tasks[t].leaving.Some?
    ensures var r := Repaired(s, t);
            && r.tasks.Keys == s.tasks.Keys && r.users.Keys == s.users.Keys
            && r.tasks[t] == s.tasks[t].(leaving := None, arr := r.tasks[t].arr)
            && (r.tasks[t].arr.Some? <==> s.tasks[t].arr.Some?)
            && (forall x :: x in s.tasks && x != t ==> r.tasks[x] == s.tasks[x])
  {
    assert TaskOk(s, s.tasks[t]);
    if s.tasks[t].arr.Some? { BouncedTask(s, t, s.tasks[t].(arr := None)); }
    hide Inv, Bounced;
  }

  lemma BouncedTask(s: Rq, t: Tid, p: Task)
    requires Inv(s) && Queued(s, t) && p.arr == None && TaskOk(s, p)
    ensures var b := Bounced(s, t, p);
            t in b.tasks && b.tasks[t] == p.(arr := Some(HomeOf(s, p))) && b.tasks.Keys == s.tasks.Keys && b.users.Keys == s.users.Keys
            && forall x :: x in s.tasks && x != t ==> b.tasks[x] == s.tasks[x]
  {
    BounceSteps(s, t, p);
    hide Inv;
  }

  // ---------------------------------------------------------------- fork, yield, tick, policy

  /** A not-yet-queued task set to `p`, then put at the end of its queue in array `r`. */
  function Moved(s: Rq, t: Tid, p: Task, r: Ref): Rq
    requires Stoppable(s, t) && ValidRef(s, r) && 0 <= p.prio < MAX_PRIO && Inv(s)
  {
    TakenOk(s, t);
    var b := Taken(s, t);
    var c := b.(tasks := b.tasks[t := p.(arr := None)]);
    assert ArrayOk(Arr(b, r));
    Put(c, t, r, Enqueue(Arr(c, r), t, p.prio))
  }

  lemma MovedOk(s: Rq, t: Tid, p: Task, r: Ref)
    requires Inv(s) && Stoppable(s, t) && ValidRef(s, r) && 0 <= p.prio < MAX_PRIO
    requires TaskOk(s, p.(arr := Some(r)))
    ensures Inv(Moved(s, t, p, r)) && Moved(s, t, p, r).tasks[t] == p.(arr := Some(r))
  {
    TakenOk(s, t);
    var b := Taken(s, t);
    RetagOk(b, t, p.(arr := None));
    EnqueuedOk(b.(tasks := b.tasks[t := p.(arr := None)]), t, r);
  }

  /** The task at the end of its own queue, with a new slice. */
  function Rotated(s: Rq, t: Tid, slice: int): Rq
    requires Stoppable(s, t)
  {
    var p, r := s.tasks[t], s.tasks[t].arr.value;
    Change(s, r, Requeue(Arr(s, r), t, p.prio), t, p.(slice := slice))
  }

  ghost predicate Queued(s: Rq, t: Tid) { t in s.tasks && s.tasks[t].arr.Some? }

  /** The fast path: the child joins the queue its parent is on, with the parent's priority. */
  function Joined(s: Rq, child: Tid, parent: Tid): Rq
    requires child in s.tasks && Stoppable(s, parent)
  {
    var r, q := s.tasks[parent].arr.value, s.tasks[parent].prio;
    SetArr(s, r, Join(Arr(s, r), child, parent, q)).(
      tasks := s.tasks[child := s.tasks[child].(prio := q, arr := Some(r))],
      nrRunning := s.nrRunning + 1,
      uwrrRunning := s.uwrrRunning + if s.tasks[child].policy == Uwrr then 1 else 0)
  }

  /** `wake_up_new_task` for a child of its parent's owner; `prio` is its own priority. */
  function Forked(s: Rq, child: Tid, parent: Tid, prio: int, cloneVm: bool): Rq
    requires Inv(s) && ForkOk(s, child, parent, prio)
  {
    var c := s.tasks[child].(prio := prio);
    var s1 := s.(tasks := s.tasks[child := c]);
    RetagOk(s, child, c);
    if cloneVm || s.tasks[parent].arr == None then
      ActivatedOk(s1, child);
      Activated(s1, child)
    else
      QueuedAt(s, parent);
      Joined(s1, child, parent)
  }

  /**
   The child is not queued and has its parent's owner; its policy is a copy that may be out of date.
   The parent is inside fork, so its own owner does not change meanwhile.
   */
  ghost predicate ForkOk(s: Rq, child: Tid, parent: Tid, prio: int) {
    && child in s.tasks && parent in s.tasks && child != parent && s.tasks[child].arr == None
    && s.tasks[child].user == s.tasks[parent].user && s.tasks[child].leaving == None && s.tasks[parent].leaving == None
    && TaskOk(s, s.tasks[child].(prio := prio))
  }

  /** On the fast path the child is a UWRR task exactly when its parent is. */
  ghost predicate SameClass(s: Rq, child: Tid, parent: Tid, cloneVm: bool)
    requires child in s.tasks && parent in s.tasks
  {
    cloneVm || s.tasks[parent].arr == None || (s.tasks[child].policy == Uwrr <==> s.tasks[parent].policy == Uwrr)
  }

  /** On the fast path with the classes agreeing, joining is putting the child on the parent's array. */
  lemma JoinedOk(s: Rq, child: Tid, parent: Tid)
    requires Inv(s) && child in s.tasks && s.tasks[child].arr == None && parent in s.tasks && s.tasks[parent].arr.Some?
    requires s.tasks[child].user == s.tasks[parent].user && s.tasks[parent].leaving == None && SameClass(s, child, parent, false)
    ensures Stoppable(s, parent) && Inv(Joined(s, child, parent))
  {
    var r, q := s.tasks[parent].arr.value, s.tasks[parent].prio;
    assert TaskOk(s, s.tasks[parent]) && TaskOk(s, s.tasks[child]);
    QueuedAt(s, parent);
    var c2 := s.tasks[child].(prio := q);
    var s2 := s.(tasks := s.tasks[child := c2]);
    RetagOk(s, child, c2);
    forall x | 0 <= x < MAX_PRIO ensures child !in Arr(s2, r).queue[x] { NotQueued(s2, child, r, x); }
    JoinOk(Arr(s, r), child, parent, q);
    assert OnlyMoves(s2, r, Join(Arr(s, r), child, parent, q), child, c2.(arr := Some(r)));
    PutOk(s2, child, r, Join(Arr(s, r), child, parent, q));
    ForkListed(s, parent);
    assert Joined(s, child, parent) == Put(s2, child, r, Join(Arr(s, r), child, parent, q));
  }

  /** With the classes at odds, the UWRR count is off by one. */
  lemma JoinedBad(s: Rq, child: Tid, parent: Tid)
    requires Inv(s) && child in s.tasks && s.tasks[child].arr == None && parent in s.tasks && s.tasks[parent].arr.Some?
    requires !SameClass(s, child, parent, false)
    ensures Stoppable(s, parent) && !CountsOk(Joined(s, child, parent))
  {
    QueuedAt(s, parent);
    assert TaskOk(s, s.tasks[parent]);
    var r, q := s.tasks[parent].arr.value, s.tasks[parent].prio;
    if r.OfUser? {
      SumAfterPut(s, r.u, Join(Arr(s, r), child, parent, q));
    }
  }

  /**
   Waking a new task keeps the runqueue consistent exactly when, on the fast path, the copy of the
   policy in the child and the present policy of the parent are both UWRR or both not.
   */
  lemma ForkedExact(s: Rq, child: Tid, parent: Tid, prio: int, cloneVm: bool)
    requires Inv(s) && ForkOk(s, child, parent, prio)
    ensures Inv(Forked(s, child, parent, prio, cloneVm)) <==> SameClass(s, child, parent, cloneVm)
  {
    var c := s.tasks[child].(prio := prio);
    var s1 := s.(tasks := s.tasks[child := c]);
    RetagOk(s, child, c);
    hide Joined;
    if cloneVm || s.tasks[parent].arr == None {
      ActivatedOk(s1, child);
    } else if SameClass(s, child, parent, cloneVm) {
      JoinedOk(s1, child, parent);
    } else {
      JoinedBad(s1, child, parent);
    }
  }

  /** `sys_sched_yield` */
  function Yielded(s: Rq, t: Tid): Rq
    requires Inv(s) && Queued(s, t)
  {
    QueuedAt(s, t);
    var p := s.tasks[t];
    var target := if p.policy == Uwrr then p.arr.value else if p.Rt() then Main(s.active) else Main(1 - s.active);
    if p.arr.value == target then Rotated(s, t, p.slice) else Moved(s, t, p, target)
  }

  lemma YieldedOk(s: Rq, t: Tid)
    requires Inv(s) && Queued(s, t)
    ensures Inv(Yielded(s, t))
  {
    QueuedAt(s, t);
    var p := s.tasks[t];
    assert TaskOk(s, p);
    RequeuedOk(s, t, p.slice);
    if p.policy != Uwrr && !p.Rt() { MovedOk(s, t, p, Main(1 - s.active)); }
  }

  /** One less, in an unsigned field. */
  function Decremented(slice: int): int { if slice == 0 then SLICE_WORD - 1 else slice - 1 }

  /** What the tick does to the owner of a UWRR task: a used-up slice is renewed and the owner goes last. */
  function OwnerTick(s: Rq, u: Uid): (Rq, bool)
    requires u in s.users
  {
    var v := s.users[u];
    if Decremented(v.slice) == 0 then
      (s.(users := s.users[u := v.(slice := NewSlice(v.weight))], userlist := Without(s.userlist, u) + [u]), true)
    else (s.(users := s.users[u := v.(slice := Decremented(v.slice))]), false)
  }

  /** What the tick does to the slice of a task in its round-robin queue. */
  function SliceTick(s: Rq, t: Tid): (Rq, bool)
    requires Stoppable(s, t)
  {
    var p := s.tasks[t];
    if p.slice - 1 == 0 then (Rotated(s, t, Timeslice(p.staticPrio)), true)
    else (s.(tasks := s.tasks[t := p.(slice := p.slice - 1)]), false)
  }

  /** The decisions the tick takes from the interactivity estimate. */
  datatype Tuning = Tuning(newPrio: int, stayActive: bool, granule: bool)

  /** `scheduler_tick` for the running task; the flag is need_resched. */
  function Ticked(s: Rq, t: Tid, d: Tuning): (Rq, bool)
    requires Inv(s) && Queued(s, t) && MAX_RT_PRIO <= d.newPrio < MAX_PRIO
  {
    QueuedAt(s, t);
    var p := s.tasks[t];
    assert TaskOk(s, p);
    if p.arr.value != Main(s.active) && p.policy != Uwrr then (s, true)
    else if p.Rt() then
      if p.policy == RoundRobin then SliceTick(s, t) else (s, false)
    else if p.policy == Uwrr then UwrrTick(s, t)
    else NormalTick(s, t, d)
  }

  function UwrrTick(s: Rq, t: Tid): (Rq, bool)
    requires Stoppable(s, t) && s.tasks[t].user in s.users
  {
    var (s1, a) := SliceTick(s, t);
    var (s2, b) := OwnerTick(s1, s.tasks[t].user);
    (s2, a || b)
  }

  function NormalTick(s: Rq, t: Tid, d: Tuning): (Rq, bool)
    requires Inv(s) && Stoppable(s, t) && MAX_RT_PRIO <= d.newPrio < MAX_PRIO
  {
    var p := s.tasks[t];
    if p.slice - 1 == 0 then
      var q := p.(prio := d.newPrio, slice := Timeslice(p.staticPrio));
      (Moved(s, t, q, Main(if d.stayActive then s.active else 1 - s.active)), true)
    else if d.granule then (Rotated(s, t, p.slice - 1), true)
    else (s.(tasks := s.tasks[t := p.(slice := p.slice - 1)]), false)
  }

  lemma SliceTickOk(s: Rq, t: Tid)
    requires Inv(s) && Queued(s, t)
    ensures Stoppable(s, t) && Inv(SliceTick(s, t).0)
    ensures SliceTick(s, t).0.userlist == s.userlist && SliceTick(s, t).0.users.Keys == s.users.Keys
  {
    QueuedAt(s, t);
    var p := s.tasks[t];
    assert TaskOk(s, p);
    RequeuedOk(s, t, if p.slice - 1 == 0 then Timeslice(p.staticPrio) else p.slice - 1);
  }

  lemma OwnerTickOk(s: Rq, u: Uid)
    requires Inv(s) && u in s.users
    ensures Inv(OwnerTick(s, u).0)
  {
    var v := s.users[u];
    WithoutIsDelete(s.userlist, u);
    if Decremented(v.slice) == 0 {
      UserOk(s, u, NewSlice(v.weight), Without(s.userlist, u) + [u]);
    } else {
      UserOk(s, u, Decremented(v.slice), s.userlist);
      assert s.(users := s.users[u := v.(slice := Decremented(v.slice))], userlist := s.userlist) == s.(users := s.users[u := v.(slice := Decremented(v.slice))]);
    }
  }

  lemma TickedOk(s: Rq, t: Tid, d: Tuning)
    requires Inv(s) && Queued(s, t) && MAX_RT_PRIO <= d.newPrio < MAX_PRIO
    ensures Inv(Ticked(s, t, d).0)
  {
    QueuedAt(s, t);
    var p := s.tasks[t];
    assert TaskOk(s, p);
    SliceTickOk(s, t);
    if p.policy == Uwrr {
      OwnerTickOk(SliceTick(s, t).0, p.user);
    } else if !p.Rt() && p.slice - 1 == 0 {
      MovedOk(s, t, p.(prio := d.newPrio, slice := Timeslice(p.staticPrio)), Main(if d.stayActive then s.active else 1 - s.active));
    } else if p.slice - 1 != 0 {
      RequeuedOk(s, t, p.slice - 1);
    }
  }

  /** `sched_setscheduler` after its checks: off the queue, new policy, back on. */
  function Rescheduled(s: Rq, t: Tid, policy: Policy, prio: int): Rq
    requires Inv(s) && t in s.tasks && PrioOk(policy, prio)
  {
    assert TaskOk(s, s.tasks[t]);
    var p := Repoliced(s.tasks[t], policy, prio);
    if s.tasks[t].arr == None then s.(tasks := s.tasks[t := p]) else Bounced(s, t, p.(arr := None))
  }

  /** The priority argument the checks let through. */
  predicate PrioOk(policy: Policy, prio: int) { 0 <= prio < MAX_RT_PRIO && (policy == Normal <==> prio == 0) }

  /**
   A change of policy keeps the runqueue consistent exactly when it does not take a busy new owner
   off the list for the last task of the previous one.
   */
  lemma RescheduledExact(s: Rq, t: Tid, policy: Policy, prio: int)
    requires Inv(s) && t in s.tasks && PrioOk(policy, prio)
    ensures s.tasks[t].arr == None ==> Inv(Rescheduled(s, t, policy, prio))
    ensures s.tasks[t].arr.Some? ==> Stoppable(s, t) && (Inv(Rescheduled(s, t, policy, prio)) <==> KeepsList(s, t, policy))
  {
    assert TaskOk(s, s.tasks[t]);
    var p := Repoliced(s.tasks[t], policy, prio);
    if s.tasks[t].arr == None {
      RetagOk(s, t, p);
    } else {
      BouncedExact(s, t, p.(arr := None));
    }
  }

  // ---------------------------------------------------------------- boot, wake-up, weights

  function Boot(users: map<Uid, User>, tasks: map<Tid, Task>): Rq {
    Rq(0, 0, 0, [Empty(), Empty()], users, [], tasks)
  }

  ghost predicate NothingQueued(s: Rq) {
    && (forall u :: u in s.users ==> s.users[u].tasks == Empty() && s.users[u].weight >= 1 && 0 <= s.users[u].slice < SLICE_WORD)
    && (forall t :: t in s.tasks ==> s.tasks[t].arr == None && TaskOk(s, s.tasks[t]))
  }

  lemma BootOk(users: map<Uid, User>, tasks: map<Tid, Task>)
    requires NothingQueued(Boot(users, tasks))
    ensures Inv(Boot(users, tasks))
  {
    EmptyOk();
    var s := Boot(users, tasks);
    assert forall r :: ValidRef(s, r) ==> Arr(s, r) == Empty();
  }

  /** `activate_task`: a new priority, then `__activate_task`. */
  function Woken(s: Rq, t: Tid, prio: int): Rq
    requires Inv(s) && t in s.tasks && s.tasks[t].arr == None && TaskOk(s, s.tasks[t].(prio := prio))
  {
    var s1 := s.(tasks := s.tasks[t := s.tasks[t].(prio := prio)]);
    RetagOk(s, t, s.tasks[t].(prio := prio));
    ActivatedOk(s1, t);
    Activated(s1, t)
  }

  lemma WeightOk(s: Rq, u: Uid, weight: int)
    requires Inv(s) && u in s.users && weight >= 1
    ensures Inv(s.(users := s.users[u := s.users[u].(weight := weight)]))
  {
    var s' := s.(users := s.users[u := s.users[u].(weight := weight)]);
    assert forall r :: ValidRef(s', r) <==> ValidRef(s, r);
    assert forall r :: ValidRef(s, r) ==> Arr(s', r) == Arr(s, r);
    forall x, y, q | ValidRef(s', x) && 0 <= q < |Arr(s', x).queue|
      ensures y in Arr(s', x).queue[q] <==> y in s'.tasks && s'.tasks[y].arr == Some(x) && s'.tasks[y].prio == q
    {
      assert y in Arr(s, x).queue[q] <==> y in s.tasks && s.tasks[y].arr == Some(x) && s.tasks[y].prio == q;
    }
    forall x | x in s'.tasks ensures TaskOk(s', s'.tasks[x]) { assert TaskOk(s, s.tasks[x]); }
    ListSumSame(s.users, s'.users, s.userlist);
  }

  // ---------------------------------------------------------------- choosing the next task

  /** The list once the user loop of `schedule` has dropped the users without tasks in front. */
  function DropIdle(us: map<Uid, User>, l: seq<Uid>): seq<Uid> {
    if l == [] then [] else if NrOf(us, l[0]) == 0 then DropIdle(us, l[1..]) else l
  }

  lemma {:induction false} DropIdleOk(us: map<Uid, User>, l: seq<Uid>)
    ensures var m := DropIdle(us, l);
            && (m != [] ==> NrOf(us, m[0]) != 0)
            && (forall u :: u in m ==> u in l) && (forall u :: u in l && NrOf(us, u) != 0 ==> u in m)
            && (NoDup(l) ==> NoDup(m))
            && |m| <= |l| && m == l[|l| - |m|..] && forall i :: 0 <= i < |l| - |m| ==> NrOf(us, l[i]) == 0
  {
    if l != [] {
      assert l == [l[0]] + l[1..];
      DropIdleOk(us, l[1..]);
    }
  }

  /** The first user with queued tasks, in the order of the list; what is dropped is the idle users before it. */
  lemma FirstBusy(s: Rq) returns (u: Uid)
    requires Inv(s) && s.uwrrRunning > 0
    ensures var n := |s.userlist| - |DropIdle(s.users, s.userlist)|;
            && 0 <= n < |s.userlist| && s.userlist[n] == u && DropIdle(s.users, s.userlist) == s.userlist[n..]
            && forall i :: 0 <= i < n ==> !Busy(s, s.userlist[i])
    ensures var m := DropIdle(s.users, s.userlist); m != [] && m[0] == u && Busy(s, u) && ListCovers(s, m)
  {
    DropIdleOk(s.users, s.userlist);
    ArraysNonNeg(s);
    var m := DropIdle(s.users, s.userlist);
    if m == [] { ListSumZero(s.users, s.userlist); }
    u := m[0];
    assert u in m && u in s.userlist && u in s.users;
    assert Arr(s, OfUser(u)).nr >= 0;
  }

  /** What `schedule` leaves behind: the arrays swapped when nothing is active, or idle users dropped in front. */
  ghost function Scheduled(s: Rq): Rq {
    if |s.arrays| == 2 && 0 <= s.active < 2 && s.arrays[s.active].nr == 0 && s.uwrrRunning == 0 then s.(active := 1 - s.active)
    else if s.uwrrRunning > 0 && !RtQueued(s) then s.(userlist := DropIdle(s.users, s.userlist))
    else s
  }

  lemma ScheduledOk(s: Rq)
    requires Inv(s) && s.nrRunning > 0
    ensures Inv(Scheduled(s))
  {
    if s.arrays[s.active].nr == 0 && s.uwrrRunning == 0 {
      SwapOk(s);
    } else if s.uwrrRunning > 0 && !RtQueued(s) {
      var u := FirstBusy(s);
      RelistOk(s, DropIdle(s.users, s.userlist));
    }
  }

  ghost predicate FirstInQueue(s: Rq, t: Tid) {
    && Stoppable(s, t)
    && var l := Arr(s, s.tasks[t].arr.value).queue[s.tasks[t].prio]; l != [] && l[0] == t
  }

  ghost predicate RtQueued(s: Rq) { exists x :: Queued(s, x) && s.tasks[x].Rt() }

  ghost predicate InMain(s: Rq, x: Tid, i: int) { x in s.tasks && s.tasks[x].arr == Some(Main(i)) }

  /**
   The choice as a user would state it: the best real-time task; without one, the first task of the
   first user with UWRR tasks; without those, the best ordinary task of the active array, and of
   the expired one only when the active array is empty.  Among equals, the longest queued.
   */
  ghost predicate GoodChoice(s: Rq, t: Tid) {
    && FirstInQueue(s, t)
    && (if RtQueued(s) then
          s.tasks[t].Rt() && forall x :: Queued(s, x) && s.tasks[x].Rt() ==> s.tasks[t].prio <= s.tasks[x].prio
        else if s.uwrrRunning > 0 then
          var m := DropIdle(s.users, s.userlist); m != [] && s.tasks[t].arr == Some(OfUser(m[0]))
        else
          var i := if exists x :: InMain(s, x, s.active) then s.active else 1 - s.active;
          InMain(s, t, i) && forall x :: InMain(s, x, i) ==> s.tasks[t].prio <= s.tasks[x].prio)
  }

  /** The head of the lowest non-empty queue of an array is its best task. */
  lemma BestOf(s: Rq, i: int, idx: int)
    requires Inv(s) && 0 <= i < 2 && 0 <= idx < MAX_PRIO && idx in s.arrays[i].bitmap
    requires forall q :: 0 <= q < idx ==> q !in s.arrays[i].bitmap
    ensures |s.arrays[i].queue| == MAX_PRIO && s.arrays[i].queue[idx] != []
    ensures var t := s.arrays[i].queue[idx][0];
            FirstInQueue(s, t) && InMain(s, t, i) && s.tasks[t].prio == idx &&
            forall x :: InMain(s, x, i) ==> idx <= s.tasks[x].prio
  {
    var r := Main(i);
    assert ArrayOk(Arr(s, r));
    var t := s.arrays[i].queue[idx][0];
    assert t in Arr(s, r).queue[idx];
    forall x | InMain(s, x, i) ensures idx <= s.tasks[x].prio {
      QueuedAt(s, x);
      var q := s.tasks[x].prio;
      assert Arr(s, r).queue[q] != [];
    }
  }

  /** No bit below MAX_PRIO: the array is empty, and so is its count. */
  lemma NoBit(s: Rq, i: int)
    requires Inv(s) && 0 <= i < 2
    ensures s.arrays[i].nr > 0 <==> exists q :: 0 <= q < MAX_PRIO && q in s.arrays[i].bitmap
    ensures s.arrays[i].nr > 0 <==> exists x :: InMain(s, x, i)
  {
    var r := Main(i);
    assert ArrayOk(Arr(s, r));
    SomeQueue(s.arrays[i].queue);
    if q :| 0 <= q < MAX_PRIO && s.arrays[i].queue[q] != [] {
      assert q in s.arrays[i].bitmap;
      var t := s.arrays[i].queue[q][0];
      assert t in Arr(s, r).queue[q];
      assert InMain(s, t, i);
    }
    if x :| InMain(s, x, i) { QueuedAt(s, x); }
  }

  lemma NoBitBelow(s: Rq, i: int)
    requires Inv(s) && 0 <= i < 2 && s.arrays[i].nr <= 0
    ensures forall q :: 0 <= q < MAX_PRIO ==> q !in s.arrays[i].bitmap
  {
    NoBit(s, i);
  }

  /** Real-time tasks are never in the expired array. */
  lemma RtIsActive(s: Rq, x: Tid)
    requires Inv(s) && Queued(s, x) && s.tasks[x].Rt()
    ensures InMain(s, x, s.active)
  {
    assert TaskOk(s, s.tasks[x]);
  }

  /** A user with tasks has them all in the queue of the UWRR priority. */
  lemma BusyUser(s: Rq, u: Uid)
    requires Inv(s) && Busy(s, u)
    ensures var l := s.users[u].tasks.queue;
            |l| == MAX_PRIO && l[UWRR_TASK_PRIO] != [] && FirstInQueue(s, l[UWRR_TASK_PRIO][0]) &&
            s.tasks[l[UWRR_TASK_PRIO][0]].arr == Some(OfUser(u))
  {
    var r := OfUser(u);
    assert ArrayOk(Arr(s, r));
    SomeQueue(Arr(s, r).queue);
    var q :| 0 <= q < MAX_PRIO && Arr(s, r).queue[q] != [];
    var x := Arr(s, r).queue[q][0];
    assert x in Arr(s, r).queue[q];
    assert TaskOk(s, s.tasks[x]);
    var t := Arr(s, r).queue[UWRR_TASK_PRIO][0];
    assert t in Arr(s, r).queue[UWRR_TASK_PRIO];
  }

  /** Swapping the arrays when the active one is empty. */
  lemma SwapOk(s: Rq)
    requires Inv(s) && s.arrays[s.active].nr == 0
    ensures Inv(s.(active := 1 - s.active))
  {
    var s' := s.(active := 1 - s.active);
    assert forall r :: ValidRef(s', r) <==> ValidRef(s, r);
    assert forall r :: ValidRef(s, r) ==> Arr(s', r) == Arr(s, r);
    NoBit(s, s.active);
    forall x, y, q | ValidRef(s', x) && 0 <= q < |Arr(s', x).queue|
      ensures y in Arr(s', x).queue[q] <==> y in s'.tasks && s'.tasks[y].arr == Some(x) && s'.tasks[y].prio == q
    {
      assert y in Arr(s, x).queue[q] <==> y in s.tasks && s.tasks[y].arr == Some(x) && s.tasks[y].prio == q;
    }
    forall x | x in s'.tasks ensures TaskOk(s', s'.tasks[x]) {
      assert TaskOk(s, s.tasks[x]);
      assert !InMain(s, x, s.active);
    }
  }

  // ---------------------------------------------------------------- links between methods and functions

  lemma ForkForm(s: Rq, child: Tid, parent: Tid, prio: int)
    requires Inv(s) && ForkOk(s, child, parent, prio) && s.tasks[parent].arr.Some?
    ensures var q, r := s.tasks[parent].prio, s.tasks[parent].arr.value;
            && ValidRef(s, r) && 0 <= q < |Arr(s, r).queue|
            && Forked(s, child, parent, prio, false) ==
               SetArr(s, r, Join(Arr(s, r), child, parent, q)).(
                 tasks := s.tasks[child := s.tasks[child].(prio := q, arr := Some(r))],
                 nrRunning := s.nrRunning + 1,
                 uwrrRunning := s.uwrrRunning + if s.tasks[child].policy == Uwrr then 1 else 0)
  {
    QueuedAt(s, parent);
    var s1 := s.(tasks := s.tasks[child := s.tasks[child].(prio := prio)]);
    assert s1.tasks[child := s.tasks[child].(prio := s.tasks[parent].prio, arr := s.tasks[parent].arr)]
        == s.tasks[child := s.tasks[child].(prio := s.tasks[parent].prio, arr := s.tasks[parent].arr)];
  }

  lemma ForkListed(s: Rq, parent: Tid)
    requires Inv(s) && parent in s.tasks && s.tasks[parent].arr.Some?
    ensures var r := s.tasks[parent].arr.value;
            ListAfterPut(s.userlist, r) == s.userlist && Share(r) == if s.tasks[parent].policy == Uwrr then 1 else 0
  {
    assert TaskOk(s, s.tasks[parent]);
    if s.tasks[parent].policy == Uwrr { var u := UwrrFacts(s, parent); }
  }

  /** Between the two arrays of the runqueue no count changes. */
  lemma MovedForm(s: Rq, t: Tid, p: Task, i: int)
    requires Inv(s) && Stoppable(s, t) && s.tasks[t].arr.value.Main? && 0 <= i < 2 && 0 <= p.prio < MAX_PRIO
    ensures var r := s.tasks[t].arr.value;
            var b := SetArr(s, r, Dequeue(Arr(s, r), t, s.tasks[t].prio));
            && ValidRef(b, Main(i)) && p.prio < |Arr(b, Main(i)).queue|
            && Moved(s, t, p, Main(i)) == Change(b, Main(i), Enqueue(Arr(b, Main(i)), t, p.prio), t, p.(arr := Some(Main(i))))
  {
    TakenOk(s, t);
    assert ArrayOk(Arr(Taken(s, t), Main(i)));
  }

  /** The UWRR branch is taken exactly when the plain rule says so. */
  lemma UserChoice(s: Rq, idx: int)
    requires Inv(s) && s.uwrrRunning > 0 && MAX_RT_PRIO <= idx <= MAX_PRIO
    requires s.arrays[s.active].nr > 0 ==> forall q :: 0 <= q < idx ==> q !in s.arrays[s.active].bitmap
    ensures var m := DropIdle(s.users, s.userlist);
            && m != [] && Busy(s, m[0]) && |s.users[m[0]].tasks.queue| == MAX_PRIO
            && s.users[m[0]].tasks.queue[UWRR_TASK_PRIO] != []
            && GoodChoice(s, s.users[m[0]].tasks.queue[UWRR_TASK_PRIO][0])
    ensures !RtQueued(s)
  {
    var u := FirstBusy(s);
    BusyUser(s, u);
    NoBit(s, s.active);
    forall x | Queued(s, x) && s.tasks[x].Rt() ensures false {
      RtBit(s, x);
    }
  }

  lemma RtBit(s: Rq, x: Tid)
    requires Inv(s) && Queued(s, x) && s.tasks[x].Rt()
    ensures 0 <= s.tasks[x].prio < MAX_RT_PRIO && s.tasks[x].prio in s.arrays[s.active].bitmap && s.arrays[s.active].nr > 0
  {
    RtIsActive(s, x);
    QueuedAt(s, x);
    assert ArrayOk(Arr(s, Main(s.active)));
  }

  /** Otherwise the best task of the array in use is the best by the plain rule. */
  lemma MainChoice(s: Rq, s1: Rq, idx: int)
    requires Inv(s) && Inv(s1) && s.nrRunning > 0
    requires s1 == if s.arrays[s.active].nr == 0 && s.uwrrRunning == 0 then s.(active := 1 - s.active) else s
    requires 0 <= idx <= MAX_PRIO && (forall q :: 0 <= q < idx ==> q !in s1.arrays[s1.active].bitmap)
    requires idx < MAX_PRIO ==> idx in s1.arrays[s1.active].bitmap
    requires idx < MAX_RT_PRIO || s.uwrrRunning == 0
    ensures idx < MAX_PRIO && |s.arrays[s1.active].queue| == MAX_PRIO && s.arrays[s1.active].queue[idx] != []
    ensures GoodChoice(s, s.arrays[s1.active].queue[idx][0]) && (idx < MAX_RT_PRIO ==> RtQueued(s))
  {
    NoBit(s, 0);
    NoBit(s, 1);
    ArraysNonNeg(s);
    assert s.uwrrRunning >= 0 by { UwrrNonNeg(s); }
    assert Arr(s, Main(0)).nr >= 0 && Arr(s, Main(1)).nr >= 0;
    assert s1.arrays[s1.active].nr > 0;
    BestOf(s, s1.active, idx);
    var t := s.arrays[s1.active].queue[idx][0];
    forall x | Queued(s, x) && s.tasks[x].Rt() ensures InMain(s, x, s.active) { RtIsActive(s, x); }
    if RtQueued(s) {
      var x :| Queued(s, x) && s.tasks[x].Rt();
      assert InMain(s, x, s.active);
    } else {
      assert Queued(s, t);
    }
  }

  lemma UwrrNonNeg(s: Rq)
    requires Inv(s)
    ensures s.uwrrRunning >= 0
  {
    ArraysNonNeg(s);
    forall u | u in s.userlist ensures NrOf(s.users, u) >= 0 { assert Arr(s, OfUser(u)).nr >= 0; }
    SumNonNeg(s.users, s.userlist);
  }

  lemma {:induction false} SumNonNeg(us: map<Uid, User>, l: seq<Uid>)
    requires forall u :: u in l ==> NrOf(us, u) >= 0
    ensures ListSum(us, l) >= 0
  {
    if l != [] {
      var u: Uid := l[|l| - 1];
      assert u in l;
      SumNonNeg(us, l[..|l| - 1]);
    }
  }

  // ---------------------------------------------------------------- the runqueue

  class Runqueue {
    var nrRunning: int
    var uwrrRunning: int
    var active: int
    var arrays: seq<PrioArray>
    var users: map<Uid, User>
    var userlist: seq<Uid>
    var tasks: map<Tid, Task>

    function Snap(): Rq
      reads this
    {
      Rq(nrRunning, uwrrRunning, active, arrays, users, userlist, tasks)
    }

    ghost predicate Valid()
      reads this
    {
      Inv(Snap())
    }

    /** `sched_init`, for users and tasks that have nothing queued. */
    constructor (users: map<Uid, User>, tasks: map<Tid, Task>)
      requires NothingQueued(Boot(users, tasks))
      ensures Valid() && Snap() == Boot(users, tasks)
    {
      nrRunning, uwrrRunning, active := 0, 0, 0;
      arrays := [Empty(), Empty()];
      this.users, userlist, this.tasks := users, [], tasks;
      new;
      BootOk(users, tasks);
    }

    method SetArray(r: Ref, a: PrioArray)
      requires ValidRef(Snap(), r)
      modifies this`arrays, this`users
      ensures Snap() == SetArr(old(Snap()), r, a)
    {
      match r {
        case Main(i) => arrays := arrays[i := a];
        case OfUser(u) => users := users[u := users[u].(tasks := a)];
      }
    }

    method EnqueueTask(t: Tid, r: Ref)
      requires t in tasks && ValidRef(Snap(), r) && 0 <= tasks[t].prio < |Arr(Snap(), r).queue|
      modifies this`arrays, this`users, this`tasks
      ensures Snap() == Change(old(Snap()), r, Enqueue(Arr(old(Snap()), r), t, old(tasks[t].prio)), t, old(tasks[t]).(arr := Some(r)))
    {
      SetArray(r, Enqueue(Arr(Snap(), r), t, tasks[t].prio));
      tasks := tasks[t := tasks[t].(arr := Some(r))];
    }

    method DequeueTask(t: Tid)
      requires Stoppable(Snap(), t)
      modifies this`arrays, this`users
      ensures var s := old(Snap()); var r := s.tasks[t].arr.value;
              Snap() == SetArr(s, r, Dequeue(Arr(s, r), t, s.tasks[t].prio))
    {
      var r := tasks[t].arr.value;
      SetArray(r, Dequeue(Arr(Snap(), r), t, tasks[t].prio));
    }

    method RequeueTask(t: Tid)
      requires Stoppable(Snap(), t)
      modifies this`arrays, this`users
      ensures var s := old(Snap()); var r := s.tasks[t].arr.value;
              Snap() == SetArr(s, r, Requeue(Arr(s, r), t, s.tasks[t].prio))
    {
      var r := tasks[t].arr.value;
      SetArray(r, Requeue(Arr(Snap(), r), t, tasks[t].prio));
    }

    /** `__activate_task` */
    method ActivateTask(t: Tid)
      requires Startable(Snap(), t)
      modifies this
      ensures Snap() == Activated(old(Snap()), t)
    {
      var p := tasks[t];
      if p.policy == Uwrr {
        uwrrRunning := uwrrRunning + 1;
        EnqueueTask(t, OfUser(p.user));
        if p.user !in userlist {
          userlist := userlist + [p.user];
        }
      } else {
        EnqueueTask(t, Main(active));
      }
      nrRunning := nrRunning + 1;
    }

    /** `deactivate_task` */
    method DeactivateTask(t: Tid)
      requires Stoppable(Snap(), t)
      modifies this
      ensures Snap() == Deactivated(old(Snap()), t)
    {
      nrRunning := nrRunning - 1;
      var p := tasks[t];
      if p.policy == Uwrr {
        uwrrRunning := uwrrRunning - 1;
        if Arr(Snap(), p.arr.value).nr == 1 {
          userlist := Without(userlist, p.user);
        }
      }
      DequeueTask(t);
      tasks := tasks[t := p.(arr := None)];
    }

    /** The fast path of `wake_up_new_task`: the child joins the queue of its parent, in front of it. */
    method JoinParent(child: Tid, parent: Tid, prio: int)
      requires Valid() && ForkOk(Snap(), child, parent, prio) && tasks[parent].arr.Some?
      modifies this
      ensures Snap() == Forked(old(Snap()), child, parent, prio, false)
    {
      ghost var s := Snap();
      ForkForm(s, child, parent, prio);
      hide Inv, Forked;
      var q := tasks[parent];
      var r := q.arr.value;
      tasks := tasks[child := tasks[child].(prio := q.prio, arr := Some(r))];
      SetArray(r, Join(Arr(Snap(), r), child, parent, q.prio));
      nrRunning := nrRunning + 1;
      if tasks[child].policy == Uwrr {
        uwrrRunning := uwrrRunning + 1;
      }
    }

    /** `wake_up_new_task` on the CPU of the parent. */
    method WakeUpNewTask(child: Tid, parent: Tid, prio: int, cloneVm: bool)
      requires Valid() && ForkOk(Snap(), child, parent, prio)
      modifies this
      ensures Snap() == Forked(old(Snap()), child, parent, prio, cloneVm)
      ensures Valid() <==> SameClass(old(Snap()), child, parent, cloneVm)
    {
      ghost var s := Snap();
      ForkedExact(s, child, parent, prio, cloneVm);
      hide Inv;
      if !cloneVm && tasks[parent].arr.Some? {
        JoinParent(child, parent, prio);
      } else {
        tasks := tasks[child := tasks[child].(prio := prio)];
        RetagOk(s, child, s.tasks[child].(prio := prio));
        ActivatedOk(Snap(), child);
        ActivateTask(child);
      }
    }

    /** `scheduler_tick` */
    method Tick(t: Tid, d: Tuning) returns (resched: bool)
      requires Valid() && Queued(Snap(), t) && MAX_RT_PRIO <= d.newPrio < MAX_PRIO
      modifies this
      ensures Valid() && (Snap(), resched) == Ticked(old(Snap()), t, d)
    {
      ghost var s := Snap();
      TickedOk(s, t, d);
      QueuedAt(s, t);
      SliceTickOk(s, t);
      assert TaskOk(s, tasks[t]);
      hide Inv;
      resched := false;
      var p := tasks[t];
      if p.arr.value != Main(active) && p.policy != Uwrr {
        return true;
      }
      if p.Rt() {
        if p.policy == RoundRobin {
          resched := SpendSlice(t);
        }
        return;
      }
      if p.policy == Uwrr {
        resched := TickUwrr(t);
      } else {
        resched := TickNormal(t, d);
      }
    }

    /** The UWRR part: the task's slice, then its owner's. */
    method TickUwrr(t: Tid) returns (resched: bool)
      requires Stoppable(Snap(), t) && tasks[t].user in users
      modifies this
      ensures (Snap(), resched) == UwrrTick(old(Snap()), t)
    {
      var u := tasks[t].user;
      resched := SpendSlice(t);
      if Decremented(users[u].slice) == 0 {
        users := users[u := users[u].(slice := NewSlice(users[u].weight))];
        userlist := Without(userlist, u) + [u];
        resched := true;
      } else {
        users := users[u := users[u].(slice := Decremented(users[u].slice))];
      }
    }

    /** The ordinary part: a used-up slice sends the task to the expired or back to the active array. */
    method TickNormal(t: Tid, d: Tuning) returns (resched: bool)
      requires Valid() && Stoppable(Snap(), t) && tasks[t].arr.value.Main? && MAX_RT_PRIO <= d.newPrio < MAX_PRIO
      modifies this
      ensures (Snap(), resched) == NormalTick(old(Snap()), t, d)
    {
      ghost var s := Snap();
      assert 0 <= active < 2;
      hide Inv;
      var p := tasks[t];
      resched := true;
      if p.slice - 1 == 0 {
        var i := if d.stayActive then active else 1 - active;
        MovedForm(s, t, p.(prio := d.newPrio, slice := Timeslice(p.staticPrio)), i);
        hide Moved;
        DequeueTask(t);
        tasks := tasks[t := p.(prio := d.newPrio, slice := Timeslice(p.staticPrio))];
        EnqueueTask(t, Main(i));
        assert tasks == s.tasks[t := tasks[t]];
      } else {
        tasks := tasks[t := p.(slice := p.slice - 1)];
        if d.granule {
          RequeueTask(t);
        } else {
          resched := false;
        }
      }
    }

    /** One tick off the task's slice; a used-up slice is renewed and the task goes to the end of its queue. */
    method SpendSlice(t: Tid) returns (spent: bool)
      requires Stoppable(Snap(), t)
      modifies this`tasks, this`arrays, this`users
      ensures (Snap(), spent) == SliceTick(old(Snap()), t)
    {
      var p := tasks[t];
      spent := p.slice - 1 == 0;
      if spent {
        tasks := tasks[t := p.(slice := Timeslice(p.staticPrio))];
        RequeueTask(t);
      } else {
        tasks := tasks[t := p.(slice := p.slice - 1)];
      }
    }

    /** `sys_sched_yield`, up to the call of `schedule` */
    method Yield(t: Tid)
      requires Valid() && Queued(Snap(), t)
      modifies this
      ensures Valid() && Snap() == Yielded(old(Snap()), t)
    {
      ghost var s := Snap();
      YieldedOk(s, t);
      QueuedAt(s, t);
      assert TaskOk(s, tasks[t]);
      hide Inv, Dequeue, Enqueue, Requeue, TaskOk;
      var p := tasks[t];
      var target := Main(1 - active);
      if p.Rt() {
        target := Main(active);
      }
      if p.policy == Uwrr {
        target := p.arr.value;
      }
      if p.arr.value != target {
        MoveToExpired(t);
      } else {
        RequeueTask(t);
        assert tasks == s.tasks[t := p.(slice := p.slice)];
      }
    }

    /** A task of the runqueue's own arrays goes to the end of its queue in the expired one. */
    method MoveToExpired(t: Tid)
      requires Valid() && Stoppable(Snap(), t) && tasks[t].arr.value.Main? && tasks[t].prio < MAX_PRIO
      modifies this
      ensures Snap() == Moved(old(Snap()), t, old(tasks[t]), Main(1 - old(active)))
    {
      ghost var s := Snap();
      assert 0 <= active < 2;
      MovedForm(s, t, tasks[t], 1 - active);
      hide Inv, Moved, Dequeue, Enqueue;
      DequeueTask(t);
      EnqueueTask(t, Main(1 - active));
    }

    /** `sched_setscheduler`; a negative policy keeps the present one. */
    method SetScheduler(t: Tid, policy: int, prio: int, mayAct: bool, capNice: bool) returns (ret: int)
      requires Valid() && t in tasks
      modifies this
      ensures ret in {0, -EINVAL, -EPERM}
      ensures ret != 0 ==> Snap() == old(Snap())
      ensures ret == 0 ==>
                var want := if policy < 0 then Some(old(tasks[t].policy)) else PolicyOf(policy);
                want.Some? && PrioOk(want.value, prio) && Snap() == Rescheduled(old(Snap()), t, want.value, prio)
                && (Valid() <==> old(tasks[t].arr) == None || (Stoppable(old(Snap()), t) && KeepsList(old(Snap()), t, want.value)))
      ensures ret == 0 ==> t in tasks && PolicySet(old(tasks[t]), tasks[t], tasks[t].policy, prio)
      ensures ret == 0 && policy < 0 ==> tasks[t].policy == old(tasks[t].policy)
      ensures ret == 0 && policy >= 0 ==>
                && (tasks[t].policy == Normal <==> policy == 0) && (tasks[t].policy == Fifo <==> policy == 1)
                && (tasks[t].policy == RoundRobin <==> policy == 2) && (tasks[t].policy == Uwrr <==> policy == 4)
      ensures ret == -EINVAL <==>
                var want := if policy < 0 then Some(old(tasks[t].policy)) else PolicyOf(policy);
                want == None || !PrioOk(want.value, prio)
      ensures ret == -EINVAL <==>
                || (policy >= 0 && policy !in {0, 1, 2, 4}) || prio < 0 || prio > 99
                || ((if policy < 0 then old(tasks[t].policy) == Normal else policy == 0) != (prio == 0))
      ensures ret == -EPERM <==>
                && ret != -EINVAL && !capNice
                && (!mayAct || var want := if policy < 0 then Some(old(tasks[t].policy)) else PolicyOf(policy);
                               want == Some(Fifo) || want == Some(RoundRobin))
    {
      var want := if policy < 0 then Some(tasks[t].policy) else PolicyOf(policy);
      if want == None || prio < 0 || prio > MAX_RT_PRIO - 1 || (want.value == Normal) != (prio == 0) {
        return -EINVAL;
      }
      if (want.value == Fifo || want.value == RoundRobin) && !capNice {
        return -EPERM;
      }
      if !mayAct && !capNice {
        return -EPERM;
      }
      ChangePolicy(t, want.value, prio);
      return 0;
    }

    /** The part of `sched_setscheduler` under the runqueue lock. */
    method ChangePolicy(t: Tid, policy: Policy, prio: int)
      requires Valid() && t in tasks && PrioOk(policy, prio)
      modifies this
      ensures Snap() == Rescheduled(old(Snap()), t, policy, prio)
      ensures t in tasks && PolicySet(old(tasks[t]), tasks[t], policy, prio)
      ensures Valid() <==> old(tasks[t].arr) == None || (Stoppable(old(Snap()), t) && KeepsList(old(Snap()), t, policy))
    {
      ghost var s := Snap();
      RescheduledExact(s, t, policy, prio);
      assert TaskOk(s, tasks[t]);
      if tasks[t].arr.Some? {
        BouncedTask(s, t, Repoliced(tasks[t], policy, prio).(arr := None));
        Bounce(t, Repoliced(tasks[t], policy, prio).(arr := None));
      } else {
        hide Inv;
        tasks := tasks[t := Repoliced(tasks[t], policy, prio)];
      }
    }

    /** `deactivate_task`, a change of the task, `__activate_task`. */
    method Bounce(t: Tid, p: Task)
      requires Valid() && Queued(Snap(), t) && p.arr == None && TaskOk(Snap(), p)
      modifies this
      ensures Snap() == Bounced(old(Snap()), t, p)
    {
      BounceSteps(Snap(), t, p);
      hide Inv;
      DeactivateTask(t);
      tasks := tasks[t := p];
      ActivateTask(t);
    }

    /** The assignment in `switch_uid`. */
    method AssignOwner(t: Tid, owner: Uid)
      requires Valid() && t in tasks && tasks[t].leaving == None && owner in users
      modifies this`tasks
      ensures Valid() && Snap() == Assigned(old(Snap()), t, owner)
    {
      AssignedOk(Snap(), t, owner);
      tasks := tasks[t := tasks[t].(user := owner, leaving := Some(Leaving(tasks[t].user, false)))];
    }

    /** The unlocked policy test of `uwrr_switch_user`; whether the locked section follows. */
    method TestPolicy(t: Tid) returns (more: bool)
      requires Valid() && t in tasks && tasks[t].leaving.Some?
      modifies this`tasks
      ensures Valid() && Snap() == PolicyTested(old(Snap()), t) && (more <==> old(tasks[t].policy) == Uwrr)
    {
      PolicyTestedOk(Snap(), t);
      more := tasks[t].policy == Uwrr;
      tasks := tasks[t := tasks[t].(leaving := if more then Some(tasks[t].leaving.value.(tested := true)) else None)];
    }

    /** The locked section of `uwrr_switch_user`. */
    method RepairOwner(t: Tid)
      requires Valid() && t in tasks && tasks[t].leaving.Some?
      modifies this
      ensures Valid() && Snap() == Repaired(old(Snap()), t)
    {
      ghost var s := Snap();
      RepairedOk(s, t);
      assert TaskOk(s, tasks[t]);
      var prev := tasks[t].leaving.value.prev;
      if tasks[t].arr.Some? {
        BouncedTask(s, t, tasks[t].(arr := None));
        Bounce(t, tasks[t].(arr := None));
      }
      hide Inv, Bounced;
      if users[prev].tasks.nr == 0 {
        userlist := Without(userlist, prev);
      }
      tasks := tasks[t := tasks[t].(leaving := None)];
    }

    /** `switch_uid` when nothing comes between its steps. */
    method SwitchUser(t: Tid, owner: Uid)
      requires Valid() && t in tasks && tasks[t].leaving == None && owner in users
      modifies this
      ensures Valid() && Snap() == Switched(old(Snap()), t, owner)
      ensures t in tasks && tasks[t].user == owner && tasks[t].leaving == None && (tasks[t].arr.Some? <==> old(tasks[t].arr.Some?))
    {
      hide Inv, Repaired;
      AssignOwner(t, owner);
      var more := TestPolicy(t);
      if more {
        RepairedTask(Snap(), t);
        RepairOwner(t);
      }
    }

    /** The user loop of `schedule`: listed users without tasks are taken off. */
    method DropIdleUsers()
      requires Valid() && uwrrRunning > 0
      modifies this`userlist
      ensures userlist == DropIdle(users, old(userlist)) && userlist != [] && Busy(Snap(), userlist[0])
      ensures var n := |old(userlist)| - |userlist|;
              0 <= n && userlist == old(userlist)[n..] && forall i :: 0 <= i < n ==> !Busy(Snap(), old(userlist)[i])
    {
      ghost var s := Snap();
      var f := FirstBusy(s);
      hide Inv;
      while NrOf(users, userlist[0]) == 0
        invariant DropIdle(users, userlist) == DropIdle(users, s.userlist) && DropIdle(users, userlist) != []
        invariant userlist != []
        decreases |userlist|
      {
        userlist := userlist[1..];
      }
    }

    /** The choice of the next task in `schedule`. */
    method PickNext() returns (next: Tid)
      requires Valid() && nrRunning > 0
      modifies this
      ensures Valid() && GoodChoice(old(Snap()), next)
      ensures Snap() == Scheduled(old(Snap()))
      ensures active != old(active) <==> old(arrays[active].nr) == 0 && uwrrRunning == 0
    {
      ghost var s := Snap();
      assert |arrays| == 2 && 0 <= active < 2;
      ScheduledOk(s);
      UwrrNonNeg(s);
      if arrays[active].nr == 0 && uwrrRunning == 0 {
        SwapOk(s);
        active := 1 - active;
      }
      hide Inv, GoodChoice, RtQueued;
      ghost var s1 := Snap();
      var idx := MAX_PRIO;
      if arrays[active].nr > 0 {
        idx := FindFirstBit(arrays[active].bitmap);
      } else {
        NoBitBelow(s1, active);
      }
      if MAX_RT_PRIO <= idx && 0 < uwrrRunning {
        UserChoice(s, idx);
        DropIdleUsers();
        next := users[userlist[0]].tasks.queue[UWRR_TASK_PRIO][0];
      } else {
        MainChoice(s, s1, idx);
        next := arrays[active].queue[idx][0];
      }
    }
  }
}
