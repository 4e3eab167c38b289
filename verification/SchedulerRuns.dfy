/**
 Runs of a runqueue from boot: every interleaving of wake-ups, sleeps, forks, ticks, yields, policy
 changes, weight changes, choices of the next task and the separate steps of owner changes; and the
 two races that break it.
 */
module SchedulerRuns {
  import opened Seqs
  import opened Options
  import opened PrioArrays
  import opened Runqueues
  import opened Scheduler

  datatype Op =
    | DoActivate(t: Tid, prio: int)
    | DoDeactivate(t: Tid)
    | DoFork(child: Tid, parent: Tid, prio: int, cloneVm: bool)
    | DoTick(t: Tid, d: Tuning)
    | DoYield(t: Tid)
    | DoSetScheduler(t: Tid, policy: Policy, prio: int)
    | DoAssignOwner(t: Tid, owner: Uid)
    | DoTestPolicy(t: Tid)
    | DoRepairOwner(t: Tid)
    | DoSchedule
    | DoSetWeight(u: Uid, weight: int)

  /** A change of owner of another task will see to user `u`. */
  ghost predicate ExcusedByOther(s: Rq, t: Tid, u: Uid) {
    exists x :: x in s.tasks && x != t && Excuses(s.tasks[x], u)
  }

  /** After the task has left the class, who stays listed has tasks left or is still seen to. */
  ghost predicate KeepsTidy(s: Rq, t: Tid)
    requires Stoppable(s, t) && s.tasks[t].leaving.Some?
  {
    var p, v := s.tasks[t], s.tasks[t].leaving.value.prev;
    forall u :: (u == v || u == p.user) && u in ListOff(s, t) ==>
      || NrOf(s.users, u) > (if p.arr == Some(OfUser(u)) then 1 else 0)
      || ExcusedByOther(s, t, u) || (u == v && p.leaving.value.tested)
  }

  /** A change of policy that comes between the steps of the task's own change of owner does no harm. */
  ghost predicate WindowSafe(s: Rq, t: Tid, policy: Policy)
    requires t in s.tasks
  {
    || s.tasks[t].leaving == None || s.tasks[t].policy != Uwrr || policy == Uwrr
    || (Stoppable(s, t) && KeepsList(s, t, policy) && KeepsTidy(s, t))
  }

  /**
   Sleeping tasks are woken, queued tasks run, sleep or yield.  A task inside `switch_uid` is running or
   preempted, so it does none of these itself, but ticks and policy changes can come to it.  The two
   races are left out: a change into or out of the UWRR class of a parent during the fast path of fork,
   and an unsafe change of policy between the steps of a change of owner.
   */
  ghost predicate Enabled(s: Rq, op: Op) {
    match op
    case DoActivate(t, prio) => t in s.tasks && s.tasks[t].arr == None && TaskOk(s, s.tasks[t].(prio := prio))
    case DoDeactivate(t) => Queued(s, t) && s.tasks[t].leaving == None
    case DoFork(child, parent, prio, cloneVm) => ForkOk(s, child, parent, prio) && SameClass(s, child, parent, cloneVm)
    case DoTick(t, d) => Queued(s, t) && MAX_RT_PRIO <= d.newPrio < MAX_PRIO
    case DoYield(t) => Queued(s, t)
    case DoSetScheduler(t, policy, prio) => t in s.tasks && PrioOk(policy, prio) && WindowSafe(s, t, policy)
    case DoAssignOwner(t, owner) => Queued(s, t) && s.tasks[t].leaving == None && owner in s.users
    case DoTestPolicy(t) => t in s.tasks && s.tasks[t].leaving.Some? && !s.tasks[t].leaving.value.tested
    case DoRepairOwner(t) => t in s.tasks && s.tasks[t].leaving.Some? && s.tasks[t].leaving.value.tested
    case DoSchedule => s.nrRunning > 0
    case DoSetWeight(u, weight) => u in s.users && weight > 0
  }

  ghost function Apply(s: Rq, op: Op): Rq
    requires Inv(s) && Enabled(s, op)
  {
    match op
    case DoActivate(t, prio) => Woken(s, t, prio)
    case DoDeactivate(t) => assert TaskOk(s, s.tasks[t]); DeactivatedOk(s, t); Deactivated(s, t)
    case DoFork(child, parent, prio, cloneVm) => Forked(s, child, parent, prio, cloneVm)
    case DoTick(t, d) => Ticked(s, t, d).0
    case DoYield(t) => Yielded(s, t)
    case DoSetScheduler(t, policy, prio) => Rescheduled(s, t, policy, prio)
    case DoAssignOwner(t, owner) => Assigned(s, t, owner)
    case DoTestPolicy(t) => PolicyTested(s, t)
    case DoRepairOwner(t) => Repaired(s, t)
    case DoSchedule => Scheduled(s)
    case DoSetWeight(u, weight) => s.(users := s.users[u := s.users[u].(weight := weight)])
  }

  lemma ApplyOk(s: Rq, op: Op)
    requires Inv(s) && Enabled(s, op)
    ensures Inv(Apply(s, op))
  {
    hide Inv, Repaired, Rescheduled, Ticked, Yielded, Forked, Deactivated, Scheduled, SameClass, WindowSafe, Assigned;
    match op {
      case DoActivate(t, prio) =>
        RetagOk(s, t, s.tasks[t].(prio := prio));
        ActivatedOk(s.(tasks := s.tasks[t := s.tasks[t].(prio := prio)]), t);
      case DoDeactivate(t) => SettledInPlace(s, t); DeactivatedOk(s, t);
      case DoFork(child, parent, prio, cloneVm) => ForkedExact(s, child, parent, prio, cloneVm);
      case DoTick(t, d) => TickedOk(s, t, d);
      case DoYield(t) => YieldedOk(s, t);
      case DoSetScheduler(t, policy, prio) => SafePolicyOk(s, t, policy, prio);
      case DoAssignOwner(t, owner) => AssignedOk(s, t, owner);
      case DoTestPolicy(t) => PolicyTestedOk(s, t);
      case DoRepairOwner(t) => RepairedOk(s, t);
      case DoSchedule => ScheduledOk(s);
      case DoSetWeight(u, weight) => WeightOk(s, u, weight);
    }
  }

  lemma SettledInPlace(s: Rq, t: Tid)
    requires Inv(s) && t in s.tasks && s.tasks[t].leaving == None
    ensures InPlace(s.tasks[t])
  {
    assert TaskOk(s, s.tasks[t]);
  }

  lemma SafePolicyOk(s: Rq, t: Tid, policy: Policy, prio: int)
    requires Inv(s) && t in s.tasks && PrioOk(policy, prio) && WindowSafe(s, t, policy)
    ensures Inv(Rescheduled(s, t, policy, prio))
  {
    RescheduledExact(s, t, policy, prio);
    assert TaskOk(s, s.tasks[t]);
    hide Inv, Rescheduled, KeepsTidy;
  }

  // ---------------------------------------------------------------- the list stays tidy

  /** Nobody's excuse is lost, and who is newly listed, or was busy, has tasks or an excuse. */
  lemma TidyKept(s: Rq, s': Rq)
    requires Tidy(s)
    requires forall x :: x in s.tasks ==> x in s'.tasks && forall u :: Excuses(s.tasks[x], u) ==> Excuses(s'.tasks[x], u)
    requires forall x :: x in s'.tasks && s'.tasks[x].leaving.Some? ==> s'.tasks[x].arr.Some?
    requires forall u :: u in s'.userlist ==> Busy(s', u) || Excused(s', u) || (u in s.userlist && !Busy(s, u))
    ensures Tidy(s')
  {
    forall u | u in s'.userlist ensures Busy(s', u) || Excused(s', u) {
      if u in s.userlist && !Busy(s, u) {
        var x :| x in s.tasks && Excuses(s.tasks[x], u);
        assert x in s'.tasks && Excuses(s'.tasks[x], u);
      }
    }
  }

  /** The records that matter to the list are unchanged. */
  ghost predicate SameClaims(s: Rq, s': Rq) {
    && s'.tasks.Keys == s.tasks.Keys
    && forall x :: x in s.tasks ==>
         s'.tasks[x].leaving == s.tasks[x].leaving && s'.tasks[x].policy == s.tasks[x].policy && s'.tasks[x].user == s.tasks[x].user
         && (s.tasks[x].arr.Some? ==> s'.tasks[x].arr.Some?)
  }

  lemma TidySameClaims(s: Rq, s': Rq)
    requires Tidy(s) && SameClaims(s, s')
    requires forall u :: u in s'.userlist ==> Busy(s', u) || Excused(s', u) || (u in s.userlist && !Busy(s, u))
    ensures Tidy(s')
  {
    TidyKept(s, s');
  }

  lemma WokenTidy(s: Rq, t: Tid, prio: int)
    requires Inv(s) && Tidy(s) && Enabled(s, DoActivate(t, prio))
    ensures Tidy(Woken(s, t, prio))
  {
    var s1 := s.(tasks := s.tasks[t := s.tasks[t].(prio := prio)]);
    RetagOk(s, t, s.tasks[t].(prio := prio));
    ActivatedOk(s1, t);
    ListFacts(s);
    hide Inv, TaskOk;
    TidySameClaims(s, Woken(s, t, prio));
  }

  lemma DeactivatedTidy(s: Rq, t: Tid)
    requires Inv(s) && Tidy(s) && Enabled(s, DoDeactivate(t))
    ensures Stoppable(s, t) && Tidy(Deactivated(s, t))
  {
    SettledInPlace(s, t);
    DeactivatedOk(s, t);
    assert TaskOk(s, s.tasks[t]);
    WithoutIsDelete(s.userlist, s.tasks[t].user);
    ListFacts(s);
    QueuedAt(s, t);
    hide Inv, TaskOk, Without;
    TidyKept(s, Deactivated(s, t));
  }

  lemma ForkedTidy(s: Rq, child: Tid, parent: Tid, prio: int, cloneVm: bool)
    requires Inv(s) && Tidy(s) && ForkOk(s, child, parent, prio)
    ensures Tidy(Forked(s, child, parent, prio, cloneVm))
  {
    var s1 := s.(tasks := s.tasks[child := s.tasks[child].(prio := prio)]);
    RetagOk(s, child, s.tasks[child].(prio := prio));
    assert SameClaims(s, s1);
    TidySameClaims(s, s1);
    hide Inv, Tidy, Activated, Joined;
    if cloneVm || s.tasks[parent].arr == None {
      ActivatedTidy(s1, child);
    } else {
      JoinedTidy(s1, child, parent);
    }
  }

  lemma ActivatedTidy(s: Rq, t: Tid)
    requires Inv(s) && Tidy(s) && t in s.tasks && s.tasks[t].arr == None
    ensures Startable(s, t) && Tidy(Activated(s, t))
  {
    ActivatedOk(s, t);
    ListFacts(s);
    hide Inv, TaskOk;
    TidySameClaims(s, Activated(s, t));
  }

  lemma JoinedTidy(s: Rq, child: Tid, parent: Tid)
    requires Inv(s) && Tidy(s) && child in s.tasks && parent in s.tasks && s.tasks[parent].arr.Some?
    ensures Stoppable(s, parent) && Tidy(Joined(s, child, parent))
  {
    QueuedAt(s, parent);
    hide Inv, Before;
    TidySameClaims(s, Joined(s, child, parent));
  }

  lemma YieldedTidy(s: Rq, t: Tid)
    requires Inv(s) && Tidy(s) && Queued(s, t)
    ensures Tidy(Yielded(s, t))
  {
    QueuedAt(s, t);
    ListFacts(s);
    assert TaskOk(s, s.tasks[t]);
    TakenOk(s, t);
    hide Inv, TaskOk, Without;
    TidySameClaims(s, Yielded(s, t));
  }

  /** A task's slice moves nobody between users. */
  lemma SliceTickTidy(s: Rq, t: Tid)
    requires Inv(s) && Tidy(s) && Queued(s, t)
    ensures Stoppable(s, t) && Tidy(SliceTick(s, t).0) && SameClaims(s, SliceTick(s, t).0)
  {
    SliceTickOk(s, t);
    hide Inv, Without;
    TidySameClaims(s, SliceTick(s, t).0);
  }

  /** The owner of a UWRR task has tasks, or is excused by the task itself. */
  lemma OwnerTickTidy(s: Rq, t: Tid)
    requires Inv(s) && Tidy(s) && Queued(s, t) && s.tasks[t].policy == Uwrr
    ensures s.tasks[t].user in s.users && Tidy(OwnerTick(s, s.tasks[t].user).0)
  {
    assert TaskOk(s, s.tasks[t]);
    var w := s.tasks[t].user;
    var a := UwrrFacts(s, t);
    WithoutIsDelete(s.userlist, w);
    hide Inv, TaskOk, Without;
    var s' := OwnerTick(s, w).0;
    assert forall u :: Busy(s', u) <==> Busy(s, u);
    assert a == w || Excuses(s.tasks[t], w);
    assert a == w || Excused(s', w) by { if a != w { assert t in s'.tasks && Excuses(s'.tasks[t], w); } }
    TidySameClaims(s, s');
  }

  lemma TickedTidy(s: Rq, t: Tid, d: Tuning)
    requires Inv(s) && Tidy(s) && Enabled(s, DoTick(t, d))
    ensures Tidy(Ticked(s, t, d).0)
  {
    var p := s.tasks[t];
    assert TaskOk(s, p);
    QueuedAt(s, t);
    SliceTickOk(s, t);
    SliceTickTidy(s, t);
    if p.policy == Uwrr {
      hide Inv;
      OwnerTickTidy(SliceTick(s, t).0, t);
    } else if !p.Rt() && p.arr.value == Main(s.active) {
      NormalTickTidy(s, t, d);
    }
  }

  lemma NormalTickTidy(s: Rq, t: Tid, d: Tuning)
    requires Inv(s) && Tidy(s) && Enabled(s, DoTick(t, d)) && s.tasks[t].arr.value == Main(s.active)
    ensures Stoppable(s, t) && Tidy(NormalTick(s, t, d).0)
  {
    QueuedAt(s, t);
    TakenOk(s, t);
    hide Inv, Without;
    TidySameClaims(s, NormalTick(s, t, d).0);
  }

  lemma ScheduledTidy(s: Rq)
    requires Inv(s) && Tidy(s)
    ensures Tidy(Scheduled(s))
  {
    DropIdleOk(s.users, s.userlist);
    hide Inv;
    TidySameClaims(s, Scheduled(s));
  }

  lemma AssignedTidy(s: Rq, t: Tid, owner: Uid)
    requires Tidy(s) && Enabled(s, DoAssignOwner(t, owner))
    ensures Tidy(Assigned(s, t, owner))
  {
    TidyKept(s, Assigned(s, t, owner));
  }

  lemma PolicyTestedTidy(s: Rq, t: Tid)
    requires Tidy(s) && Enabled(s, DoTestPolicy(t))
    ensures Tidy(PolicyTested(s, t))
  {
    TidyKept(s, PolicyTested(s, t));
  }

  lemma WeightTidy(s: Rq, u: Uid, weight: int)
    requires Tidy(s) && u in s.users
    ensures Tidy(s.(users := s.users[u := s.users[u].(weight := weight)]))
  {
    TidySameClaims(s, s.(users := s.users[u := s.users[u].(weight := weight)]));
  }

  /** The list and the busy users after a bounce. */
  lemma BouncedLists(s: Rq, t: Tid, p: Task)
    requires Inv(s) && Queued(s, t) && p.arr == None && TaskOk(s, p) && p.user == s.tasks[t].user
    ensures Stoppable(s, t)
    ensures var b := Bounced(s, t, p);
            && b.userlist == ListAfterPut(ListOff(s, t), HomeOf(s, p))
            && (forall u :: u in b.userlist ==> u in s.userlist || (p.policy == Uwrr && u == p.user))
            && (forall u :: Busy(b, u) <==> NrOf(s.users, u) - (if s.tasks[t].arr == Some(OfUser(u)) then 1 else 0)
                                                             + (if p.policy == Uwrr && p.user == u then 1 else 0) > 0)
  {
    BouncedForm(s, t, p);
    ListFacts(s);
    WithoutIsDelete(s.userlist, p.user);
    var q := Proper(s, t, p);
    forall u ensures q.users.Keys == s.users.Keys && NrOf(q.users, u) == NrOf(s.users, u) - (if s.tasks[t].arr == Some(OfUser(u)) then 1 else 0) + (if p.policy == Uwrr && p.user == u then 1 else 0)
    {
      BouncedNr(s, t, p, u);
    }
    hide Inv, Proper, Bounced, Without, TaskOk;
  }

  /** What a bounce does to the list, the busy users and the records. */
  ghost predicate BounceEffect(s: Rq, t: Tid, p: Task, b: Rq) {
    && t in s.tasks && s.tasks[t].arr.Some?
    && (forall u :: u in b.userlist ==> u in s.userlist || (p.policy == Uwrr && u == p.user))
    && (s.tasks[t].arr == Some(OfUser(p.user)) && p.policy != Uwrr && NrOf(s.users, p.user) == 1 ==> p.user !in b.userlist)
    && (forall u :: Busy(s, u) <==> NrOf(s.users, u) > 0)
    && (forall u :: NrOf(s.users, u) >= if s.tasks[t].arr == Some(OfUser(u)) then 1 else 0)
    && (forall u :: Busy(b, u) <==> NrOf(s.users, u) - (if s.tasks[t].arr == Some(OfUser(u)) then 1 else 0)
                                                     + (if p.policy == Uwrr && p.user == u then 1 else 0) > 0)
    && b.tasks.Keys == s.tasks.Keys && b.tasks[t] == p.(arr := b.tasks[t].arr) && b.tasks[t].arr.Some?
    && (forall x :: x in s.tasks && x != t ==> b.tasks[x] == s.tasks[x])
  }

  lemma BounceHasEffect(s: Rq, t: Tid, p: Task)
    requires Inv(s) && Queued(s, t) && p.arr == None && TaskOk(s, p) && p.user == s.tasks[t].user
    ensures BounceEffect(s, t, p, Bounced(s, t, p))
  {
    BouncedLists(s, t, p);
    BouncedTask(s, t, p);
    ListFacts(s);
    WithoutIsDelete(s.userlist, p.user);
    ArrayNr(s, s.tasks[t].arr.value);
    QueuedAt(s, t);
    assert TaskOk(s, s.tasks[t]);
    hide Inv, Bounced, Without, TaskOk;
  }

  /** The repair leaves no idle user behind that only this change of owner excused. */
  lemma RepairedTidy(s: Rq, t: Tid)
    requires Inv(s) && Tidy(s) && Enabled(s, DoRepairOwner(t))
    ensures Tidy(Repaired(s, t))
  {
    var was := s.tasks[t];
    assert TaskOk(s, was);
    var p, v := was.(arr := None), was.leaving.value.prev;
    BounceHasEffect(s, t, p);
    BouncedExact(s, t, p);
    RepairedTask(s, t);
    var b, r := Bounced(s, t, p), Repaired(s, t);
    ListFacts(b);
    WithoutIsDelete(b.userlist, v);
    assert r.userlist == if NrOf(b.users, v) != 0 then b.userlist else Without(b.userlist, v);
    assert r.users == b.users && was.policy != Uwrr ==> was.arr.value.Main?;
    var a := if was.policy == Uwrr then was.arr.value.u else v;
    assert was.policy == Uwrr ==> was.arr == Some(OfUser(a)) && (a == was.user || a == v);
    hide Inv, Bounced, Repaired, Without, TaskOk, KeepsList;
    RepairClears(s, t, b, r);
  }

  lemma RepairClears(s: Rq, t: Tid, b: Rq, r: Rq)
    requires Tidy(s) && t in s.tasks && s.tasks[t].leaving.Some? && BounceEffect(s, t, s.tasks[t].(arr := None), b)
    requires s.tasks[t].policy != Uwrr ==> s.tasks[t].arr.value.Main?
    requires s.tasks[t].policy == Uwrr ==>
               s.tasks[t].arr == Some(OfUser(s.tasks[t].user)) || s.tasks[t].arr == Some(OfUser(s.tasks[t].leaving.value.prev))
    requires r.users == b.users && (forall u :: u in r.userlist ==> u in b.userlist && (u == s.tasks[t].leaving.value.prev ==> Busy(b, u)))
    requires r.tasks.Keys == s.tasks.Keys && r.tasks[t].leaving == None && forall x :: x in s.tasks && x != t ==> r.tasks[x] == s.tasks[x]
    ensures Tidy(r)
  {
    forall u | u in r.userlist ensures Busy(r, u) || Excused(r, u) {
      if !Busy(r, u) {
        assert u in s.userlist && !Busy(s, u);
        var x :| x in s.tasks && Excuses(s.tasks[x], u);
        assert x in r.tasks && r.tasks[x] == s.tasks[x];
      }
    }
  }

  /** Staying in, or entering, the class, or leaving it with the owner settled. */
  lemma IntoClassTidy(s: Rq, t: Tid, policy: Policy, prio: int)
    requires Inv(s) && Tidy(s) && t in s.tasks && PrioOk(policy, prio) && (policy == Uwrr || s.tasks[t].policy != Uwrr || s.tasks[t].leaving == None)
    ensures Tidy(Rescheduled(s, t, policy, prio))
  {
    var was := s.tasks[t];
    var p := Repoliced(was, policy, prio);
    RepolicedTask(s, t, policy, prio);
    hide Inv, TaskOk, Tidy, Repoliced, Bounced, BounceEffect;
    if was.arr == None {
      SleeperTidy(s, t, p);
    } else {
      BounceHasEffect(s, t, p.(arr := None));
      BouncedStaysTidy(s, t, p.(arr := None), Bounced(s, t, p.(arr := None)));
    }
  }

  /** What a change of policy keeps of a task, and where the task is queued before it. */
  lemma RepolicedTask(s: Rq, t: Tid, policy: Policy, prio: int)
    requires Inv(s) && t in s.tasks && PrioOk(policy, prio)
    ensures var was, p := s.tasks[t], Repoliced(s.tasks[t], policy, prio);
            && p.user == was.user && p.leaving == was.leaving && p.policy == policy && p.arr == was.arr && TaskOk(s, p.(arr := None))
            && (was.arr.Some? && was.policy != Uwrr ==> was.arr.value.Main?)
            && (was.arr.Some? && was.policy == Uwrr ==>
                  was.arr == Some(OfUser(was.user)) || (was.leaving.Some? && was.arr == Some(OfUser(was.leaving.value.prev))))
  {
    assert TaskOk(s, s.tasks[t]);
  }

  /** A task that is not queued is in the middle of no change of owner. */
  lemma SleeperTidy(s: Rq, t: Tid, p: Task)
    requires Tidy(s) && t in s.tasks && s.tasks[t].arr == None && p.leaving == s.tasks[t].leaving
    ensures Tidy(s.(tasks := s.tasks[t := p]))
  {
    TidyKept(s, s.(tasks := s.tasks[t := p]));
  }

  lemma BouncedStaysTidy(s: Rq, t: Tid, p: Task, b: Rq)
    requires Tidy(s) && BounceEffect(s, t, p, b) && p.user == s.tasks[t].user && p.leaving == s.tasks[t].leaving
    requires p.policy == Uwrr || s.tasks[t].policy != Uwrr || p.leaving == None
    requires s.tasks[t].policy != Uwrr ==> s.tasks[t].arr.value.Main?
    requires s.tasks[t].policy == Uwrr ==>
               s.tasks[t].arr == Some(OfUser(p.user)) || (p.leaving.Some? && s.tasks[t].arr == Some(OfUser(p.leaving.value.prev)))
    ensures Tidy(b)
  {
    forall u | u in b.userlist ensures Busy(b, u) || Excused(b, u) || (u in s.userlist && !Busy(s, u)) {
      if Busy(s, u) && !Busy(b, u) {
        assert s.tasks[t].arr == Some(OfUser(u)) && u != p.user;
        assert t in b.tasks && Excuses(b.tasks[t], u);
      }
    }
    TidyKept(s, b);
  }

  /**
   A change of policy away from UWRR between the steps of the task's change of owner: the runqueue
   stays consistent and the list tidy exactly under the two conditions of `WindowSafe`.
   */
  lemma WindowExact(s: Rq, t: Tid, policy: Policy, prio: int)
    requires Inv(s) && Tidy(s) && t in s.tasks && PrioOk(policy, prio)
    requires s.tasks[t].leaving.Some? && s.tasks[t].policy == Uwrr && policy != Uwrr
    ensures var r := Rescheduled(s, t, policy, prio);
            Inv(r) && Tidy(r) <==> WindowSafe(s, t, policy)
  {
    RescheduledExact(s, t, policy, prio);
    var was := s.tasks[t];
    assert TaskOk(s, was);
    var o := Repoliced(was, policy, prio).(arr := None);
    BouncedLists(s, t, o);
    BouncedTask(s, t, o);
    var b := Bounced(s, t, o);
    var a := UwrrFacts(s, t);
    WithoutIsDelete(s.userlist, was.user);
    hide Inv, Bounced, Without, TaskOk, KeepsList;
    if KeepsTidy(s, t) { StaysTidy(s, t, b); } else { LosesTidy(s, t, b); }
  }

  /** The runqueue after the task left the class inside the window. */
  ghost predicate LeftClass(s: Rq, t: Tid, b: Rq) {
    && Stoppable(s, t) && s.tasks[t].leaving.Some? && s.tasks[t].policy == Uwrr
    && (exists a :: s.tasks[t].arr == Some(OfUser(a)) && (a == s.tasks[t].user || a == s.tasks[t].leaving.value.prev))
    && b.userlist == ListOff(s, t) && (forall u :: u in b.userlist ==> u in s.userlist)
    && (forall u :: Busy(b, u) <==> NrOf(s.users, u) > if s.tasks[t].arr == Some(OfUser(u)) then 1 else 0)
    && b.tasks.Keys == s.tasks.Keys && (forall x :: x in s.tasks && x != t ==> b.tasks[x] == s.tasks[x])
    && b.tasks[t].leaving == s.tasks[t].leaving && b.tasks[t].policy != Uwrr && b.tasks[t].arr.Some?
  }

  lemma StaysTidy(s: Rq, t: Tid, b: Rq)
    requires Tidy(s) && LeftClass(s, t, b) && KeepsTidy(s, t)
    ensures Tidy(b)
  {
    forall u | u in b.userlist ensures Busy(b, u) || Excused(b, u) {
      if u == s.tasks[t].leaving.value.prev || u == s.tasks[t].user {
        if ExcusedByOther(s, t, u) {
          var x :| x in s.tasks && x != t && Excuses(s.tasks[x], u);
          assert x in b.tasks && Excuses(b.tasks[x], u);
        } else if !Busy(b, u) {
          assert t in b.tasks && Excuses(b.tasks[t], u);
        }
      } else if !Busy(b, u) {
        var x :| x in s.tasks && Excuses(s.tasks[x], u);
        assert x in b.tasks && Excuses(b.tasks[x], u);
      }
    }
  }

  lemma LosesTidy(s: Rq, t: Tid, b: Rq)
    requires Tidy(s) && LeftClass(s, t, b) && !KeepsTidy(s, t)
    ensures !Tidy(b)
  {
    var v := s.tasks[t].leaving.value.prev;
    var u :| (u == v || u == s.tasks[t].user) && u in ListOff(s, t)
             && !(NrOf(s.users, u) > (if s.tasks[t].arr == Some(OfUser(u)) then 1 else 0))
             && !ExcusedByOther(s, t, u) && !(u == v && s.tasks[t].leaving.value.tested);
    forall x | x in b.tasks ensures !Excuses(b.tasks[x], u) {
      if x != t { assert b.tasks[x] == s.tasks[x]; }
    }
  }

  lemma RescheduledTidy(s: Rq, t: Tid, policy: Policy, prio: int)
    requires Inv(s) && Tidy(s) && Enabled(s, DoSetScheduler(t, policy, prio))
    ensures Tidy(Rescheduled(s, t, policy, prio))
  {
    hide Inv, Tidy, Rescheduled;
    if policy == Uwrr || s.tasks[t].policy != Uwrr || s.tasks[t].leaving == None {
      IntoClassTidy(s, t, policy, prio);
    } else {
      WindowExact(s, t, policy, prio);
    }
  }

  lemma ApplyTidy(s: Rq, op: Op)
    requires Inv(s) && Tidy(s) && Enabled(s, op)
    ensures Tidy(Apply(s, op))
  {
    hide Inv, Tidy, Repaired, Rescheduled, Ticked, Yielded, Forked, Deactivated, Scheduled, SameClass, WindowSafe, Assigned, Woken, PolicyTested;
    match op {
      case DoActivate(t, prio) => WokenTidy(s, t, prio);
      case DoDeactivate(t) => DeactivatedTidy(s, t);
      case DoFork(child, parent, prio, cloneVm) => ForkedTidy(s, child, parent, prio, cloneVm);
      case DoTick(t, d) => TickedTidy(s, t, d);
      case DoYield(t) => YieldedTidy(s, t);
      case DoSetScheduler(t, policy, prio) => RescheduledTidy(s, t, policy, prio);
      case DoAssignOwner(t, owner) => AssignedTidy(s, t, owner);
      case DoTestPolicy(t) => PolicyTestedTidy(s, t);
      case DoRepairOwner(t) => RepairedTidy(s, t);
      case DoSchedule => ScheduledTidy(s);
      case DoSetWeight(u, weight) => WeightTidy(s, u, weight);
    }
  }

  // ---------------------------------------------------------------- runs

  /** `ss` are the runqueues met on a run; the operations are defined on consistent runqueues only. */
  ghost predicate Run(ss: seq<Rq>, ops: seq<Op>) {
    && |ss| == |ops| + 1
    && forall i :: 0 <= i < |ops| ==> Enabled(ss[i], ops[i]) && (Inv(ss[i]) ==> ss[i + 1] == Apply(ss[i], ops[i]))
  }

  /**
   Every run keeps bitmaps, counts, sums and queue membership in agreement and every busy user listed;
   and an idle user is listed only while a change of owner under way will see to it.
   */
  lemma {:induction false} RunKeepsInv(ss: seq<Rq>, ops: seq<Op>, i: nat)
    requires Run(ss, ops) && Inv(ss[0]) && Tidy(ss[0]) && i < |ss|
    ensures Inv(ss[i]) && Tidy(ss[i])
    decreases i
  {
    hide Inv, Tidy, Apply, Enabled;
    if i > 0 {
      RunKeepsInv(ss, ops, i - 1);
      ApplyOk(ss[i - 1], ops[i - 1]);
      ApplyTidy(ss[i - 1], ops[i - 1]);
    }
  }

  /** From a runqueue with nothing queued; whenever no change of owner is under way, a user is listed exactly when it has tasks. */
  lemma BootedRunKeepsInv(ss: seq<Rq>, ops: seq<Op>, i: nat)
    requires Run(ss, ops) && ss[0] == Boot(ss[0].users, ss[0].tasks) && NothingQueued(ss[0]) && Quiet(ss[0]) && i < |ss|
    ensures Inv(ss[i]) && Tidy(ss[i]) && (Quiet(ss[i]) ==> forall u :: u in ss[i].userlist <==> Busy(ss[i], u))
  {
    BootOk(ss[0].users, ss[0].tasks);
    hide Inv;
    RunKeepsInv(ss, ops, i);
    if Quiet(ss[i]) { QuietLists(ss[i]); }
  }

  // ---------------------------------------------------------------- the race of fork with a policy change

  /**
   The race: a parent turns UWRR after its policy was copied to the child and before the child is
   woken on the fast path.  The counts are wrong afterwards.
   */
  lemma ForkRace(s: Rq, child: Tid, parent: Tid, prio: int)
    requires Inv(s) && ForkOk(s, child, parent, prio) && s.tasks[child].policy != Uwrr && s.tasks[parent].arr.Some?
    ensures var s' := Rescheduled(s, parent, Uwrr, 1);
            Inv(s') && ForkOk(s', child, parent, prio) && !Inv(Forked(s', child, parent, prio, false))
  {
    RescheduledExact(s, parent, Uwrr, 1);
    assert TaskOk(s, s.tasks[parent]);
    BouncedTask(s, parent, Repoliced(s.tasks[parent], Uwrr, 1).(arr := None));
    var s' := Rescheduled(s, parent, Uwrr, 1);
    hide Inv, Bounced;
    ForkedExact(s', child, parent, prio, false);
  }

  const DEFAULT_USER: User := User(10, 1000, Empty())
  const ORDINARY: Task := Task(Normal, 120, 120, 100, 0, None, None)

  /** An idle runqueue with one user and two ordinary tasks. */
  function TwoOrdinary(): Rq { Boot(map[0 := DEFAULT_USER], map[1 := ORDINARY, 2 := ORDINARY]) }

  /** The race is met from boot: task 1 forks task 2, both ordinary. */
  lemma ForkRaceHappens() returns (ss: seq<Rq>, ops: seq<Op>)
    ensures Run(ss, ops) && ss[0] == TwoOrdinary() && (forall i :: 0 <= i < |ss| ==> Inv(ss[i]))
    ensures var s := ss[|ss| - 1];
            Inv(s) && ForkOk(s, 2, 1, 120) && !Inv(Forked(s, 2, 1, 120, false))
  {
    hide Inv, Apply, Forked, Rescheduled, Enabled, WindowSafe;
    var o1, o2 := DoActivate(1, 120), DoSetScheduler(1, Uwrr, 1);
    var s1 := ParentRuns();
    ApplyOk(TwoOrdinary(), o1);
    ForkRace(s1, 2, 1, 120);
    var s2 := PolicyApplied(s1, 1);
    ss, ops := [TwoOrdinary(), s1, s2], [o1, o2];
  }

  lemma PolicyApplied(s: Rq, t: Tid) returns (s': Rq)
    requires Inv(s) && t in s.tasks
    ensures Enabled(s, DoSetScheduler(t, Uwrr, 1)) && s' == Apply(s, DoSetScheduler(t, Uwrr, 1)) == Rescheduled(s, t, Uwrr, 1)
  {
    s' := Rescheduled(s, t, Uwrr, 1);
  }

  lemma ParentRuns() returns (s: Rq)
    ensures Inv(TwoOrdinary()) && Enabled(TwoOrdinary(), DoActivate(1, 120)) && s == Apply(TwoOrdinary(), DoActivate(1, 120))
    ensures Inv(s) && ForkOk(s, 2, 1, 120) && s.tasks[2].policy == Normal && s.tasks[1].arr.Some?
  {
    var s0 := TwoOrdinary();
    hide Inv, Empty, Enqueue;
    assert TaskOk(s0, ORDINARY);
    assert NothingQueued(Boot(s0.users, s0.tasks));
    BootOk(s0.users, s0.tasks);
    RetagOk(s0, 1, ORDINARY);
    ActivatedOk(s0.(tasks := s0.tasks[1 := ORDINARY]), 1);
    s := Woken(s0, 1, 120);
    assert s.tasks[2] == ORDINARY && s.users.Keys == s0.users.Keys;
  }

  // ---------------------------------------------------------------- the race of an owner change with a policy change

  /**
   A UWRR task has just been given a new owner and not yet moved: a change of its policy to another
   class does no harm exactly when the owner is the same or the previous owner has another queued task.
   */
  lemma JustAssigned(s: Rq, t: Tid, owner: Uid, policy: Policy, prio: int)
    requires Inv(s) && Tidy(s) && Quiet(s) && Queued(s, t) && s.tasks[t].policy == Uwrr && owner in s.users && policy != Uwrr && PrioOk(policy, prio)
    ensures var a := Assigned(s, t, owner); var prev := s.tasks[t].user;
            && Inv(a) && Tidy(a)
            && (Inv(Rescheduled(a, t, policy, prio)) && Tidy(Rescheduled(a, t, policy, prio)) <==> owner == prev || NrOf(s.users, prev) > 1)
  {
    AssignedOk(s, t, owner);
    AssignedTidy(s, t, owner);
    var a, prev := Assigned(s, t, owner), s.tasks[t].user;
    WindowExact(a, t, policy, prio);
    var u := UwrrFacts(s, t);
    QuietLists(s);
    QueuedAt(a, t);
    ArrayNr(a, OfUser(prev));
    ListFacts(s);
    hide Inv, Tidy, Rescheduled;
    AssignedSafe(s, t, owner, policy);
  }

  lemma AssignedSafe(s: Rq, t: Tid, owner: Uid, policy: Policy)
    requires t in s.tasks && s.tasks[t].policy == Uwrr && policy != Uwrr && Quiet(s) && owner in s.users
    requires NoDup(s.userlist) && (forall u :: u in s.userlist <==> Busy(s, u)) && (forall u :: Busy(s, u) <==> NrOf(s.users, u) > 0)
    requires s.tasks[t].arr == Some(OfUser(s.tasks[t].user)) && Busy(s, s.tasks[t].user) && Stoppable(Assigned(s, t, owner), t)
    ensures WindowSafe(Assigned(s, t, owner), t, policy) <==> owner == s.tasks[t].user || NrOf(s.users, s.tasks[t].user) > 1
  {
    var a, prev := Assigned(s, t, owner), s.tasks[t].user;
    ArrayNr(a, OfUser(prev));
    WithoutIsDelete(s.userlist, owner);
    hide Without, Stoppable;
    assert forall v :: !ExcusedByOther(a, t, v);
    if owner != prev && NrOf(s.users, prev) <= 1 { assert prev in ListOff(a, t); }
  }

  /**
   The race: the previous owner has no other task and the new one has: the policy change takes the
   wrong user off the list, and if nobody else is listed the loop of `schedule` runs out of users.
   */
  lemma OwnerRace(s: Rq, t: Tid, policy: Policy, prio: int)
    requires Inv(s) && t in s.tasks && s.tasks[t].leaving.Some? && s.tasks[t].policy == Uwrr && policy != Uwrr && PrioOk(policy, prio)
    requires var v, w := s.tasks[t].leaving.value.prev, s.tasks[t].user;
             v != w && s.tasks[t].arr == Some(OfUser(v)) && NrOf(s.users, v) == 1 && NrOf(s.users, w) > 0 && s.userlist == [v, w]
    ensures var r := Rescheduled(s, t, policy, prio);
            !Inv(r) && r.uwrrRunning > 0 && DropIdle(r.users, r.userlist) == []
  {
    RescheduledExact(s, t, policy, prio);
    assert TaskOk(s, s.tasks[t]);
    var v, w := s.tasks[t].leaving.value.prev, s.tasks[t].user;
    var o := Repoliced(s.tasks[t], policy, prio).(arr := None);
    BouncedLists(s, t, o);
    BouncedNr(s, t, o, v);
    BouncedForm(s, t, o);
    ArrayNr(s, OfUser(v));
    var r := Rescheduled(s, t, policy, prio);
    BouncedRunning(s, t, o);
    TwoUsers(s.users, v, w);
    assert Without([v, w], w) == [v];
    hide Inv, Bounced, Proper;
    assert r.userlist == [v] && [v][1..] == [];
  }

  lemma TwoUsers(us: map<Uid, User>, v: Uid, w: Uid)
    ensures ListSum(us, [v, w]) == NrOf(us, v) + NrOf(us, w)
  {
    assert [v, w] == [v] + [w];
    ListSumConcat(us, [v], [w]);
    ListSumOne(us, v);
    ListSumOne(us, w);
  }

  lemma BouncedRunning(s: Rq, t: Tid, p: Task)
    requires Inv(s) && Queued(s, t) && p.arr == None && TaskOk(s, p)
    ensures Bounced(s, t, p).uwrrRunning == s.uwrrRunning - (if s.tasks[t].policy == Uwrr then 1 else 0) + (if p.policy == Uwrr then 1 else 0)
    ensures s.uwrrRunning == ListSum(s.users, s.userlist)
  {
    BounceSteps(s, t, p);
  }

  /** A UWRR task of a user. */
  function UwrrTask(u: Uid): Task { Task(Uwrr, UWRR_TASK_PRIO, UWRR_TASK_PRIO, 100, u, None, None) }

  /** An idle runqueue with two users that have one UWRR task each. */
  function TwoUwrr(): Rq { Boot(map[0 := DEFAULT_USER, 1 := DEFAULT_USER], map[1 := UwrrTask(0), 2 := UwrrTask(1)]) }

  /** The first wake-up of a user's only task lists the user last. */
  lemma WokenFirst(s: Rq, t: Tid, u: Uid)
    requires Inv(s) && t in s.tasks && s.tasks[t] == UwrrTask(u) && u in s.users && u !in s.userlist
    ensures Enabled(s, DoActivate(t, UWRR_TASK_PRIO))
    ensures var r := Apply(s, DoActivate(t, UWRR_TASK_PRIO));
            && Inv(r) && r.userlist == s.userlist + [u] && r.users.Keys == s.users.Keys
            && NrOf(r.users, u) == NrOf(s.users, u) + 1 && (forall v :: v != u ==> NrOf(r.users, v) == NrOf(s.users, v))
            && r.tasks == s.tasks[t := s.tasks[t].(arr := Some(OfUser(u)))]
  {
    assert TaskOk(s, s.tasks[t]);
    RetagOk(s, t, s.tasks[t]);
    assert s.tasks[t := s.tasks[t]] == s.tasks;
    ActivatedOk(s, t);
    hide Inv;
  }

  lemma TwoUwrrBoots()
    ensures var s := TwoUwrr();
            && Inv(s) && s.userlist == [] && s.users.Keys == {0, 1} && NrOf(s.users, 0) == NrOf(s.users, 1) == 0
            && s.tasks == map[1 := UwrrTask(0), 2 := UwrrTask(1)]
  {
    hide Inv, Empty;
    var s := TwoUwrr();
    assert Empty().nr == 0 by { EmptyNr(); }
    assert NothingQueued(Boot(s.users, s.tasks));
    BootOk(s.users, s.tasks);
  }

  lemma EmptyNr()
    ensures Empty().nr == 0
  {
  }

  lemma FirstRuns() returns (s1: Rq)
    ensures Inv(TwoUwrr()) && Enabled(TwoUwrr(), DoActivate(1, UWRR_TASK_PRIO)) && s1 == Apply(TwoUwrr(), DoActivate(1, UWRR_TASK_PRIO))
    ensures Inv(s1) && s1.userlist == [0] && NrOf(s1.users, 0) == 1 && NrOf(s1.users, 1) == 0 && 1 in s1.users
    ensures s1.tasks == map[1 := UwrrTask(0).(arr := Some(OfUser(0))), 2 := UwrrTask(1)]
  {
    var s0 := TwoUwrr();
    TwoUwrrBoots();
    hide Inv, Apply, TwoUwrr, Enabled;
    WokenFirst(s0, 1, 0);
    s1 := Apply(s0, DoActivate(1, UWRR_TASK_PRIO));
  }

  /** Both tasks awake, and the first one given to the second user. */
  lemma BothRun(s1: Rq) returns (s2: Rq, s3: Rq)
    requires Inv(s1) && s1.userlist == [0] && NrOf(s1.users, 0) == 1 && NrOf(s1.users, 1) == 0 && 1 in s1.users
    requires s1.tasks == map[1 := UwrrTask(0).(arr := Some(OfUser(0))), 2 := UwrrTask(1)]
    ensures Enabled(s1, DoActivate(2, UWRR_TASK_PRIO)) && s2 == Apply(s1, DoActivate(2, UWRR_TASK_PRIO))
    ensures Inv(s2) && Enabled(s2, DoAssignOwner(1, 1)) && s3 == Apply(s2, DoAssignOwner(1, 1)) && Inv(s3)
    ensures s3.userlist == [0, 1] && NrOf(s3.users, 0) == 1 && NrOf(s3.users, 1) == 1
    ensures s3.tasks == map[1 := UwrrTask(1).(arr := Some(OfUser(0)), leaving := Some(Leaving(0, false))), 2 := UwrrTask(1).(arr := Some(OfUser(1)))]
  {
    hide Inv, Apply, Assigned;
    WokenFirst(s1, 2, 1);
    s2 := Apply(s1, DoActivate(2, UWRR_TASK_PRIO));
    ApplyOk(s2, DoAssignOwner(1, 1));
    s3 := Apply(s2, DoAssignOwner(1, 1));
    AssignApplied(s2, 1, 1);
  }

  /** The race is met from boot: task 1 leaves user 0 for user 1, and turns ordinary before it is moved. */
  lemma OwnerRaceHappens() returns (ss: seq<Rq>, ops: seq<Op>)
    ensures Run(ss, ops) && ss[0] == TwoUwrr() && (forall i :: 0 <= i < |ss| ==> Inv(ss[i]))
    ensures var s := ss[|ss| - 1];
            && 1 in s.tasks && Inv(s) && PrioOk(Normal, 0)
            && var r := Rescheduled(s, 1, Normal, 0);
               !Inv(r) && r.uwrrRunning > 0 && DropIdle(r.users, r.userlist) == [] && !RtQueued(r)
  {
    hide Inv, Apply, Rescheduled, DropIdle, Enabled;
    var s1 := FirstRuns();
    var s2, s3 := BothRun(s1);
    OwnerRace(s3, 1, Normal, 0);
    NoRealTime(s3);
    ss := [TwoUwrr(), s1, s2, s3];
    ops := [DoActivate(1, UWRR_TASK_PRIO), DoActivate(2, UWRR_TASK_PRIO), DoAssignOwner(1, 1)];
  }

  lemma NoRealTime(s: Rq)
    requires Inv(s) && 1 in s.tasks && s.tasks[1].arr.Some? && forall x :: x in s.tasks ==> s.tasks[x].prio >= MAX_RT_PRIO
    ensures PrioOk(Normal, 0) && !RtQueued(Rescheduled(s, 1, Normal, 0))
  {
    assert TaskOk(s, s.tasks[1]);
    BouncedTask(s, 1, Repoliced(s.tasks[1], Normal, 0).(arr := None));
    hide Inv, Bounced;
  }

  lemma AssignApplied(s: Rq, t: Tid, owner: Uid)
    requires Inv(s) && Enabled(s, DoAssignOwner(t, owner))
    ensures Apply(s, DoAssignOwner(t, owner)) ==
            s.(tasks := s.tasks[t := s.tasks[t].(user := owner, leaving := Some(Leaving(s.tasks[t].user, false)))])
  {
  }
}
