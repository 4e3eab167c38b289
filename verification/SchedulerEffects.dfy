/**
 What the operations of the scheduler do, seen from the queues: which task leaves which place, where it
 goes, and what becomes of its record.  Queues are compared one by one, priority by priority.
 */
module SchedulerEffects {
  import opened Seqs
  import opened Options
  import opened PrioArrays
  import opened Runqueues
  import opened Scheduler

  /** A queue: the array and the priority. */
  datatype Place = Place(r: Ref, q: int)

  /** Task `t` leaves the queue it is on, if any, and is appended to queue `to`, if there is one; no other task moves. */
  ghost predicate Lines(s: Rq, s': Rq, t: Tid, to: Option<Place>) {
    && SameShape(s, s')
    && forall r, q {:trigger Arr(s', r).queue[q]} {:trigger Arr(s, r).queue[q]} :: ValidRef(s, r) && 0 <= q < MAX_PRIO ==>
         Arr(s', r).queue[q] == Without(Arr(s, r).queue[q], t) + if to == Some(Place(r, q)) then [t] else []
  }

  /** The same arrays, each with a queue for every priority. */
  ghost predicate SameShape(s: Rq, s': Rq) {
    && (forall r :: ValidRef(s', r) <==> ValidRef(s, r))
    && (forall r :: ValidRef(s, r) ==> |Arr(s, r).queue| == MAX_PRIO)
    && (forall r :: ValidRef(s', r) ==> |Arr(s', r).queue| == MAX_PRIO)
  }

  /** The users keep weight and slice, the arrays their roles, the other tasks their records. */
  ghost predicate OnlyRecord(s: Rq, s': Rq, t: Tid, p: Task) {
    && s'.tasks == s.tasks[t := p] && s'.active == s.active && |s'.arrays| == |s.arrays| && s'.users.Keys == s.users.Keys
    && forall u :: u in s.users ==> s'.users[u].weight == s.users[u].weight && s'.users[u].slice == s.users[u].slice
  }

  /** Task `t` goes to the end of the queue that its new record `p` names. */
  ghost predicate ToTail(s: Rq, s': Rq, t: Tid, p: Task) {
    p.arr.Some? && OnlyRecord(s, s', t, p) && Lines(s, s', t, Some(Place(p.arr.value, p.prio)))
  }

  /** Task `t` leaves its queue. */
  ghost predicate OffQueue(s: Rq, s': Rq, t: Tid, p: Task) {
    p.arr == None && OnlyRecord(s, s', t, p) && Lines(s, s', t, None)
  }

  /** Nobody moves; the record of `t` becomes `p`. */
  ghost predicate InPlaceAs(s: Rq, s': Rq, t: Tid, p: Task) {
    s' == s.(tasks := s.tasks[t := p])
  }

  // ---------------------------------------------------------------- single moves

  /** A task is on one queue at most. */
  lemma ElsewhereNot(s: Rq, t: Tid, r: Ref, q: int)
    requires Inv(s) && ValidRef(s, r) && 0 <= q < MAX_PRIO && t in s.tasks && !(s.tasks[t].arr == Some(r) && s.tasks[t].prio == q)
    ensures |Arr(s, r).queue| == MAX_PRIO && Without(Arr(s, r).queue[q], t) == Arr(s, r).queue[q]
  {
    assert ArrayOk(Arr(s, r));
    WithoutMissing(Arr(s, r).queue[q], t);
  }

  lemma QueueSizes(s: Rq)
    requires Inv(s)
    ensures forall r :: ValidRef(s, r) ==> |Arr(s, r).queue| == MAX_PRIO
  {
    forall r | ValidRef(s, r) ensures |Arr(s, r).queue| == MAX_PRIO { assert ArrayOk(Arr(s, r)); }
  }

  lemma TakenDoes(s: Rq, t: Tid)
    requires Inv(s) && Queued(s, t)
    ensures Stoppable(s, t) && OffQueue(s, Taken(s, t), t, s.tasks[t].(arr := None))
  {
    QueuedAt(s, t);
    QueueSizes(s);
    var b, p := Taken(s, t), s.tasks[t];
    SetArrFacts(s, p.arr.value, Dequeue(Arr(s, p.arr.value), t, p.prio));
    forall r, q | ValidRef(s, r) && 0 <= q < MAX_PRIO
      ensures ValidRef(b, r) && |Arr(b, r).queue| == MAX_PRIO && Arr(b, r).queue[q] == Without(Arr(s, r).queue[q], t) + []
    {
      if Some(r) != p.arr || q != p.prio { ElsewhereNot(s, t, r, q); }
    }
  }

  /** What `deactivate_task` does to the queues. */
  lemma DeactivatedDoes(s: Rq, t: Tid)
    requires Inv(s) && Queued(s, t)
    ensures Stoppable(s, t) && OffQueue(s, Deactivated(s, t), t, s.tasks[t].(arr := None))
    ensures var s', p := Deactivated(s, t), s.tasks[t];
            && s'.nrRunning == s.nrRunning - 1 && s'.uwrrRunning == s.uwrrRunning - (if p.policy == Uwrr then 1 else 0)
            && s'.userlist == if p.policy == Uwrr && Arr(s, p.arr.value).nr == 1 then Without(s.userlist, p.user) else s.userlist
  {
    TakenDoes(s, t);
    var a, b := Taken(s, t), Deactivated(s, t);
    assert b == a.(uwrrRunning := b.uwrrRunning, userlist := b.userlist);
    SameLines(s, a, b, t, None);
  }

  lemma SameLines(s: Rq, a: Rq, b: Rq, t: Tid, to: Option<Place>)
    requires Lines(s, a, t, to) && b.arrays == a.arrays && b.users == a.users
    ensures Lines(s, b, t, to)
  {
    ShapeByFields(a, b);
    forall r, q | ValidRef(s, r) && 0 <= q < MAX_PRIO
      ensures ValidRef(b, r) && |Arr(b, r).queue| == MAX_PRIO == |Arr(s, r).queue|
      ensures Arr(b, r).queue[q] == Without(Arr(s, r).queue[q], t) + if to == Some(Place(r, q)) then [t] else []
    {
      assert ValidRef(a, r) && Arr(b, r) == Arr(a, r);
      assert Arr(a, r).queue[q] == Without(Arr(s, r).queue[q], t) + if to == Some(Place(r, q)) then [t] else [];
    }
  }

  lemma ShapeByFields(a: Rq, b: Rq)
    requires b.arrays == a.arrays && b.users == a.users
    ensures forall r :: ValidRef(b, r) <==> ValidRef(a, r)
    ensures forall r :: ValidRef(a, r) ==> Arr(b, r) == Arr(a, r)
  {
  }

  /** A task that is not queued is appended to a queue. */
  lemma PutDoes(s: Rq, t: Tid, r: Ref)
    requires Inv(s) && t in s.tasks && s.tasks[t].arr == None && ValidRef(s, r) && 0 <= s.tasks[t].prio < MAX_PRIO
    ensures |Arr(s, r).queue| == MAX_PRIO
    ensures ToTail(s, Put(s, t, r, Enqueue(Arr(s, r), t, s.tasks[t].prio)), t, s.tasks[t].(arr := Some(r)))
  {
    QueueSizes(s);
    var p := s.tasks[t];
    var b := Put(s, t, r, Enqueue(Arr(s, r), t, p.prio));
    SetArrFacts(s, r, Enqueue(Arr(s, r), t, p.prio));
    forall x, q | ValidRef(s, x) && 0 <= q < MAX_PRIO
      ensures ValidRef(b, x) && |Arr(b, x).queue| == MAX_PRIO
      ensures Arr(b, x).queue[q] == Without(Arr(s, x).queue[q], t) + if Place(r, p.prio) == Place(x, q) then [t] else []
    {
      ElsewhereNot(s, t, x, q);
    }
  }

  /** What `__activate_task` does: a UWRR task joins its owner's queue, another the active array. */
  lemma ActivatedDoes(s: Rq, t: Tid)
    requires Inv(s) && t in s.tasks && s.tasks[t].arr == None
    ensures Startable(s, t)
    ensures ToTail(s, Activated(s, t), t, s.tasks[t].(arr := Some(HomeOf(s, s.tasks[t]))))
    ensures var s', p := Activated(s, t), s.tasks[t];
            && s'.nrRunning == s.nrRunning + 1 && s'.uwrrRunning == s.uwrrRunning + (if p.policy == Uwrr then 1 else 0)
            && s'.userlist == s.userlist + if p.policy == Uwrr && p.user !in s.userlist then [p.user] else []
  {
    ActivatedOk(s, t);
    assert TaskOk(s, s.tasks[t]);
    PutDoes(s, t, Home(s, t));
  }

  /** Off one queue, a new record, to the end of another. */
  lemma OffThenOn(s: Rq, b: Rq, c: Rq, d: Rq, t: Tid, o: Task, p: Task)
    requires Inv(s) && OffQueue(s, b, t, o) && c.arrays == b.arrays && c.users == b.users && c.active == b.active
    requires t in s.tasks && t in c.tasks && c.tasks == b.tasks[t := c.tasks[t]] && ToTail(c, d, t, p)
    ensures ToTail(s, d, t, p)
  {
    QueueSizes(s);
    assert s.tasks[t := o][t := c.tasks[t]][t := p] == s.tasks[t := p];
    forall r, q | ValidRef(s, r) && 0 <= q < MAX_PRIO
      ensures ValidRef(d, r) && |Arr(d, r).queue| == MAX_PRIO
      ensures Arr(d, r).queue[q] == Without(Arr(s, r).queue[q], t) + if p.arr == Some(r) && p.prio == q then [t] else []
    {
      LineTwice(s, b, c, d, t, Place(p.arr.value, p.prio), r, q);
    }
  }

  lemma LineTwice(s: Rq, b: Rq, c: Rq, d: Rq, t: Tid, to: Place, r: Ref, q: int)
    requires Inv(s) && Lines(s, b, t, None) && c.arrays == b.arrays && c.users == b.users && Lines(c, d, t, Some(to))
    requires ValidRef(s, r) && 0 <= q < MAX_PRIO
    ensures ValidRef(d, r) && |Arr(d, r).queue| == MAX_PRIO == |Arr(s, r).queue|
    ensures Arr(d, r).queue[q] == Without(Arr(s, r).queue[q], t) + if to == Place(r, q) then [t] else []
  {
    assert ArrayOk(Arr(s, r));
    var l := Arr(s, r).queue[q];
    WithoutIsDelete(l, t);
    WithoutMissing(Without(l, t), t);
    ShapeByFields(b, c);
    assert Arr(b, r).queue[q] == Without(l, t) + [] == Without(l, t);
    assert Arr(c, r).queue[q] == Without(l, t);
    assert Arr(d, r).queue[q] == Without(Arr(c, r).queue[q], t) + if Some(to) == Some(Place(r, q)) then [t] else [];
  }

  lemma MovedDoes(s: Rq, t: Tid, p: Task, r: Ref)
    requires Inv(s) && Queued(s, t) && ValidRef(s, r) && 0 <= p.prio < MAX_PRIO && TaskOk(s, p.(arr := Some(r)))
    ensures Stoppable(s, t) && ToTail(s, Moved(s, t, p, r), t, p.(arr := Some(r)))
  {
    QueuedAt(s, t);
    TakenOk(s, t);
    TakenDoes(s, t);
    var b := Taken(s, t);
    var c := b.(tasks := b.tasks[t := p.(arr := None)]);
    RetagOk(b, t, p.(arr := None));
    PutDoes(c, t, r);
    hide Inv, Lines;
    OffThenOn(s, b, c, Moved(s, t, p, r), t, s.tasks[t].(arr := None), p.(arr := Some(r)));
  }

  lemma RotatedDoes(s: Rq, t: Tid, slice: int)
    requires Inv(s) && Queued(s, t)
    ensures Stoppable(s, t) && ToTail(s, Rotated(s, t, slice), t, s.tasks[t].(slice := slice))
  {
    QueuedAt(s, t);
    QueueSizes(s);
    var b, p := Rotated(s, t, slice), s.tasks[t];
    SetArrFacts(s, p.arr.value, Requeue(Arr(s, p.arr.value), t, p.prio));
    forall r, q | ValidRef(s, r) && 0 <= q < MAX_PRIO
      ensures ValidRef(b, r) && |Arr(b, r).queue| == MAX_PRIO
      ensures Arr(b, r).queue[q] == Without(Arr(s, r).queue[q], t) + if p.arr == Some(r) && p.prio == q then [t] else []
    {
      if Some(r) != p.arr || q != p.prio { ElsewhereNot(s, t, r, q); }
    }
  }

  lemma ProperIs(s: Rq, t: Tid, p: Task) returns (c: Rq)
    requires Inv(s) && Queued(s, t) && p.arr == None && TaskOk(s, p)
    ensures Stoppable(s, t) && t in Taken(s, t).tasks && c == Taken(s, t).(tasks := Taken(s, t).tasks[t := p])
    ensures Inv(c) && Startable(c, t) && Proper(s, t, p) == Activated(c, t) && c.active == s.active
  {
    ProperSteps(s, t, p);
    c := Taken(s, t).(tasks := Taken(s, t).tasks[t := p]);
    hide Inv;
  }

  lemma ProperDoes(s: Rq, t: Tid, p: Task)
    requires Inv(s) && Queued(s, t) && p.arr == None && TaskOk(s, p)
    ensures ToTail(s, Proper(s, t, p), t, p.(arr := Some(HomeOf(s, p))))
  {
    hide Inv, Proper, Lines, Activated, TaskOk;
    var c := ProperIs(s, t, p);
    TakenDoes(s, t);
    ActivatedDoes(c, t);
    assert c.arrays == Taken(s, t).arrays && c.users == Taken(s, t).users;
    hide Taken;
    OffThenOn(s, Taken(s, t), c, Proper(s, t, p), t, s.tasks[t].(arr := None), p.(arr := Some(HomeOf(s, p))));
  }

  /** Off and on again under a new record. */
  lemma BouncedDoes(s: Rq, t: Tid, p: Task)
    requires Inv(s) && Queued(s, t) && p.arr == None && TaskOk(s, p)
    ensures ToTail(s, Bounced(s, t, p), t, p.(arr := Some(HomeOf(s, p))))
  {
    hide Inv, Proper, Bounced, Lines, TaskOk;
    ProperDoes(s, t, p);
    BouncedForm(s, t, p);
    SameLines(s, Proper(s, t, p), Bounced(s, t, p), t, Some(Place(HomeOf(s, p), p.prio)));
  }

  // ---------------------------------------------------------------- yield

  /** A real-time or UWRR task goes to the end of its own queue; another one to the expired array. */
  lemma YieldedDoes(s: Rq, t: Tid)
    requires Inv(s) && Queued(s, t)
    ensures var p := s.tasks[t];
            && ToTail(s, Yielded(s, t), t, if p.policy == Uwrr || p.Rt() then p else p.(arr := Some(Main(1 - s.active))))
            && Yielded(s, t).userlist == s.userlist
  {
    var p := s.tasks[t];
    YieldKeepsList(s, t);
    QueuedAt(s, t);
    assert TaskOk(s, p);
    hide Inv, Moved, Rotated, ToTail;
    if p.policy == Uwrr || p.Rt() || p.arr == Some(Main(1 - s.active)) {
      RotatedDoes(s, t, p.slice);
      assert p.(slice := p.slice) == p && p.arr == Some(p.arr.value);
    } else {
      MovedDoes(s, t, p, Main(1 - s.active));
    }
  }

  lemma YieldKeepsList(s: Rq, t: Tid)
    requires Inv(s) && Queued(s, t)
    ensures Yielded(s, t).userlist == s.userlist
  {
    QueuedAt(s, t);
    assert TaskOk(s, s.tasks[t]);
  }

  // ---------------------------------------------------------------- tick

  /** The tick of a task with a slice to spend: one less, or a new slice and the end of its queue. */
  ghost predicate Spends(s: Rq, s': Rq, t: Tid, spent: bool)
    requires t in s.tasks
  {
    var p := s.tasks[t];
    && (spent <==> p.slice == 1)
    && if spent then ToTail(s, s', t, p.(slice := Timeslice(p.staticPrio)))
       else InPlaceAs(s, s', t, p.(slice := p.slice - 1))
  }

  /** The owner's part: one less, wrapping at zero, or a new slice and the end of the list. */
  ghost predicate Charges(s: Rq, s': Rq, u: Uid, spent: bool)
    requires u in s.users
  {
    var v := s.users[u];
    && s' == s.(users := s.users[u := v.(slice := NrSlice(s', u))], userlist := s'.userlist)
    && (spent <==> v.slice == 1)
    && (spent ==> NrSlice(s', u) == UWRR_SLICE_UNIT * v.weight % SLICE_WORD && s'.userlist == Without(s.userlist, u) + [u])
    && (!spent ==> NrSlice(s', u) == (if v.slice == 0 then SLICE_WORD else v.slice) - 1 && s'.userlist == s.userlist)
  }

  function NrSlice(s: Rq, u: Uid): int { if u in s.users then s.users[u].slice else 0 }

  lemma SliceTickDoes(s: Rq, t: Tid)
    requires Inv(s) && Queued(s, t)
    ensures Stoppable(s, t) && Spends(s, SliceTick(s, t).0, t, SliceTick(s, t).1)
  {
    QueuedAt(s, t);
    hide Inv, Rotated, ToTail;
    RotatedDoes(s, t, Timeslice(s.tasks[t].staticPrio));
  }

  lemma OwnerTickDoes(s: Rq, u: Uid)
    requires Inv(s) && u in s.users
    ensures Charges(s, OwnerTick(s, u).0, u, OwnerTick(s, u).1)
  {
    hide Without;
  }

  /**
   `scheduler_tick`.  Of the real-time tasks a round-robin one spends its slice and goes to the end of its
   queue with the last of it, and a FIFO one is left alone.  A UWRR task spends its own slice and its
   owner's.  Another task spends its slice, and with the last of it gets its new priority and goes to the
   end of the expired array, or of the active one when it is interactive enough; before that it is
   requeued at most.  A task that has already left the active array is only asked to reschedule.
   */
  ghost predicate TickDone(s: Rq, t: Tid, d: Tuning, s': Rq, resched: bool)
    requires t in s.tasks
  {
    var p := s.tasks[t];
    if p.policy == Uwrr then
      p.user in s.users &&
      exists s1, a, b :: Spends(s, s1, t, a) && p.user in s1.users && Charges(s1, s', p.user, b) && (resched <==> a || b)
    else if p.arr != Some(Main(s.active)) then s' == s && resched
    else if p.Rt() then
      if p.policy == RoundRobin then Spends(s, s', t, resched) else s' == s && !resched
    else if p.slice == 1 then
      resched && ToTail(s, s', t, p.(prio := d.newPrio, slice := Timeslice(p.staticPrio),
                                     arr := Some(Main(if d.stayActive then s.active else 1 - s.active))))
    else if d.granule then resched && ToTail(s, s', t, p.(slice := p.slice - 1))
    else !resched && InPlaceAs(s, s', t, p.(slice := p.slice - 1))
  }

  lemma TickedDoes(s: Rq, t: Tid, d: Tuning)
    requires Inv(s) && Queued(s, t) && MAX_RT_PRIO <= d.newPrio < MAX_PRIO
    ensures TickDone(s, t, d, Ticked(s, t, d).0, Ticked(s, t, d).1)
  {
    var p := s.tasks[t];
    QueuedAt(s, t);
    assert TaskOk(s, p);
    SliceTickDoes(s, t);
    hide Inv, Spends, ToTail, SliceTick, NormalTick, Charges, OwnerTick;
    if p.policy == Uwrr {
      UwrrTickDoes(s, t);
    } else if p.arr == Some(Main(s.active)) && !p.Rt() {
      NormalTickDoes(s, t, d);
    }
  }

  lemma UwrrTickDoes(s: Rq, t: Tid)
    requires Inv(s) && Queued(s, t) && s.tasks[t].policy == Uwrr
    ensures s.tasks[t].user in s.users && Stoppable(s, t)
    ensures exists s1, a, b :: Spends(s, s1, t, a) && s.tasks[t].user in s1.users
                               && Charges(s1, UwrrTick(s, t).0, s.tasks[t].user, b) && (UwrrTick(s, t).1 <==> a || b)
  {
    assert TaskOk(s, s.tasks[t]);
    SliceTickOk(s, t);
    SliceTickDoes(s, t);
    hide Inv, Spends, SliceTick, OwnerTick, Charges;
    var (s1, a) := SliceTick(s, t);
    OwnerTickDoes(s1, s.tasks[t].user);
    assert Spends(s, s1, t, a) && Charges(s1, UwrrTick(s, t).0, s.tasks[t].user, OwnerTick(s1, s.tasks[t].user).1);
  }

  lemma NormalTickDoes(s: Rq, t: Tid, d: Tuning)
    requires Inv(s) && Queued(s, t) && MAX_RT_PRIO <= d.newPrio < MAX_PRIO
    requires s.tasks[t].policy != Uwrr && !s.tasks[t].Rt() && s.tasks[t].arr == Some(Main(s.active))
    ensures Stoppable(s, t) && TickDone(s, t, d, NormalTick(s, t, d).0, NormalTick(s, t, d).1)
  {
    var p := s.tasks[t];
    var q := p.(prio := d.newPrio, slice := Timeslice(p.staticPrio));
    var r := Main(if d.stayActive then s.active else 1 - s.active);
    hide Inv, Moved, Rotated, ToTail, TaskOk, Spends, Charges, InPlaceAs;
    RotatedDoes(s, t, p.slice - 1);
    ActiveIndex(s);
    NewPrioOk(s, t, d.newPrio, r);
    MovedDoes(s, t, q, r);
  }

  lemma NewPrioOk(s: Rq, t: Tid, newPrio: int, r: Ref)
    requires Inv(s) && Queued(s, t) && MAX_RT_PRIO <= newPrio < MAX_PRIO && s.tasks[t].policy != Uwrr && r in {Main(0), Main(1)}
    ensures ValidRef(s, r) && TaskOk(s, s.tasks[t].(prio := newPrio, slice := Timeslice(s.tasks[t].staticPrio), arr := Some(r)))
  {
    assert TaskOk(s, s.tasks[t]);
  }

  lemma ActiveIndex(s: Rq)
    requires Inv(s)
    ensures 0 <= s.active < 2
  {
  }

  /** The slices of the documentation: 800 ms at nice -20, 100 ms at nice 0, 5 ms at nice 19, and never more for a worse nice value. */
  lemma TimesliceScale(a: int, b: int)
    requires 100 <= a <= b < MAX_PRIO
    ensures Timeslice(100) == 800 && Timeslice(120) == 100 && Timeslice(139) == 5
    ensures Timeslice(b) <= Timeslice(a) && 5 <= Timeslice(b) && Timeslice(a) <= 800
    ensures Timeslice(a) == if a < 120 then 20 * (MAX_PRIO - a) else 5 * (MAX_PRIO - a)
  {
  }

  // ---------------------------------------------------------------- fork

  /** Task `x` is put in directly before task `y`; no other queue changes. */
  ghost predicate InFrontOf(s: Rq, s': Rq, x: Tid, y: Tid, r: Ref, q: int) {
    && SameShape(s, s') && ValidRef(s, r) && 0 <= q < MAX_PRIO
    && (exists i :: 0 <= i < |Arr(s, r).queue[q]| && Arr(s, r).queue[q][i] == y
                    && Arr(s', r).queue[q] == Arr(s, r).queue[q][..i] + [x] + Arr(s, r).queue[q][i..])
    && forall z, p {:trigger Arr(s', z).queue[p]} :: ValidRef(s, z) && 0 <= p < MAX_PRIO && !(z == r && p == q) ==>
         Arr(s', z).queue[p] == Arr(s, z).queue[p]
  }

  lemma {:induction false} BeforeAt(l: seq<Tid>, x: Tid, y: Tid) returns (i: nat)
    requires y in l
    ensures i < |l| && l[i] == y && Before(l, x, y) == l[..i] + [x] + l[i..]
  {
    if l[0] == y {
      i := 0;
    } else {
      assert l == [l[0]] + l[1..];
      var k := BeforeAt(l[1..], x, y);
      i := k + 1;
      assert l[..i] == [l[0]] + l[1..][..k] && l[i..] == l[1..][k..];
    }
  }

  /**
   `wake_up_new_task`: on the fast path the child gets its parent's priority and queue and comes directly
   before it; otherwise it is activated with its own priority.
   */
  lemma ForkedDoes(s: Rq, child: Tid, parent: Tid, prio: int, cloneVm: bool)
    requires Inv(s) && ForkOk(s, child, parent, prio)
    ensures var s', c, p := Forked(s, child, parent, prio, cloneVm), s.tasks[child], s.tasks[parent];
            if cloneVm || p.arr == None then
              ToTail(s, s', child, c.(prio := prio, arr := Some(if c.policy == Uwrr then OfUser(c.user) else Main(s.active))))
            else
              OnlyRecord(s, s', child, c.(prio := p.prio, arr := p.arr)) && InFrontOf(s, s', child, parent, p.arr.value, p.prio)
  {
    var c := s.tasks[child].(prio := prio);
    var s1 := s.(tasks := s.tasks[child := c]);
    RetagOk(s, child, c);
    if cloneVm || s.tasks[parent].arr == None {
      ActivatedDoes(s1, child);
      hide Inv, Activated, Lines;
      RelineFrom(s, s1, Activated(s1, child), child, Some(Place(HomeOf(s1, c), c.prio)));
    } else {
      QueuedAt(s, parent);
      hide Inv, Joined;
      JoinedDoes(s, s1, child, parent);
    }
  }

  lemma RelineFrom(s: Rq, s1: Rq, s': Rq, t: Tid, to: Option<Place>)
    requires Lines(s1, s', t, to) && s1.arrays == s.arrays && s1.users == s.users
    ensures Lines(s, s', t, to)
  {
    ShapeByFields(s, s1);
    forall r, q | ValidRef(s, r) && 0 <= q < MAX_PRIO
      ensures ValidRef(s', r) && Arr(s', r).queue[q] == Without(Arr(s, r).queue[q], t) + if to == Some(Place(r, q)) then [t] else []
    {
      assert Arr(s1, r) == Arr(s, r);
      assert Arr(s', r).queue[q] == Without(Arr(s1, r).queue[q], t) + if to == Some(Place(r, q)) then [t] else [];
    }
  }

  lemma JoinedDoes(s: Rq, s1: Rq, child: Tid, parent: Tid)
    requires Inv(s) && Queued(s, parent) && child in s.tasks && child != parent && child in s1.tasks
    requires s1 == s.(tasks := s.tasks[child := s1.tasks[child]]) && s1.tasks[child].(prio := 0) == s.tasks[child].(prio := 0)
    ensures Stoppable(s1, parent)
    ensures var s', c, p := Joined(s1, child, parent), s.tasks[child], s.tasks[parent];
            OnlyRecord(s, s', child, c.(prio := p.prio, arr := p.arr)) && InFrontOf(s, s', child, parent, p.arr.value, p.prio)
  {
    QueuedAt(s, parent);
    QueueSizes(s);
    ShapeByFields(s, s1);
    var r, q := s.tasks[parent].arr.value, s.tasks[parent].prio;
    var s' := Joined(s1, child, parent);
    SetArrFacts(s1, r, Join(Arr(s1, r), child, parent, q));
    var i := BeforeAt(Arr(s, r).queue[q], child, parent);
    ShapeByFields(SetArr(s1, r, Join(Arr(s1, r), child, parent, q)), s');
    hide Inv, Before, Sizes;
    forall z, p | ValidRef(s, z) && 0 <= p < MAX_PRIO && !(z == r && p == q) ensures Arr(s', z).queue[p] == Arr(s, z).queue[p] {}
    assert Arr(s', r).queue[q] == Arr(s, r).queue[q][..i] + [child] + Arr(s, r).queue[q][i..];
  }

  // ---------------------------------------------------------------- change of policy

  /** A queued task goes to the end of the queue its new class and priority name, another one stays unqueued. */
  lemma RescheduledDoes(s: Rq, t: Tid, policy: Policy, arg: int)
    requires Inv(s) && t in s.tasks && PrioOk(policy, arg)
    ensures var s' := Rescheduled(s, t, policy, arg);
            && t in s'.tasks && PolicySet(s.tasks[t], s'.tasks[t], policy, arg)
            && if s.tasks[t].arr == None then InPlaceAs(s, s', t, s'.tasks[t]) && s'.tasks[t].arr == None
               else ToTail(s, s', t, s'.tasks[t])
                    && s'.tasks[t].arr == Some(if policy == Uwrr then OfUser(s.tasks[t].user) else Main(s.active))
  {
    assert TaskOk(s, s.tasks[t]);
    var p := Repoliced(s.tasks[t], policy, arg).(arr := None);
    if s.tasks[t].arr.Some? {
      assert TaskOk(s, p);
      hide Inv, Bounced, TaskOk, Lines;
      BouncedDoes(s, t, p);
    }
  }

  /** The list of users: the owner leaves it with the last task of the array, and is appended for a UWRR task when it is not there. */
  lemma RescheduledList(s: Rq, t: Tid, policy: Policy, arg: int)
    requires Inv(s) && Queued(s, t) && PrioOk(policy, arg)
    ensures Stoppable(s, t)
    ensures var o, u := s.tasks[t], s.tasks[t].user;
            var off := if o.policy == Uwrr && Arr(s, o.arr.value).nr == 1 then Without(s.userlist, u) else s.userlist;
            Rescheduled(s, t, policy, arg).userlist == off + if policy == Uwrr && u !in off then [u] else []
  {
    assert TaskOk(s, s.tasks[t]);
    var p := Repoliced(s.tasks[t], policy, arg).(arr := None);
    assert TaskOk(s, p) && p.user == s.tasks[t].user && p.policy == policy;
    hide Inv, TaskOk, Without, Proper, Bounced;
    BouncedForm(s, t, p);
  }

  /** Of two queued real-time tasks the one set with the larger argument is better: the other is not chosen. */
  lemma LargerIsBetter(s: Rq, t: Tid, u: Tid, a: int, b: int)
    requires Inv(s) && Queued(s, t) && Queued(s, u) && s.tasks[t].prio == 99 - a && s.tasks[u].prio == 99 - b && 0 <= b < a <= 99
    ensures !GoodChoice(s, u)
    ensures (forall x :: Queued(s, x) && s.tasks[x].Rt() ==> x == t || x == u) ==> GoodChoice(s, t)
  {
    assert s.tasks[t].Rt() && s.tasks[u].Rt();
    assert RtQueued(s);
    if forall x :: Queued(s, x) && s.tasks[x].Rt() ==> x == t || x == u {
      QueuedAt(s, t);
      var r, q := s.tasks[t].arr.value, s.tasks[t].prio;
      var x: Tid := Arr(s, r).queue[q][0];
      assert x in Arr(s, r).queue[q];
      assert Queued(s, x) && s.tasks[x].prio == q;
    }
  }

  /**
   Two queued tasks are given real-time policies with arguments `a > b`, one after the other.  Then the
   second is not the next choice, and the first is if no other real-time task is queued.
   */
  lemma LargerArgumentWins(s: Rq, t: Tid, u: Tid, pt: Policy, pu: Policy, a: int, b: int)
    requires Inv(s) && Queued(s, t) && Queued(s, u) && t != u && {pt, pu} <= {Fifo, RoundRobin} && 1 <= b < a <= 99
    requires Inv(Rescheduled(s, t, pt, a)) && Inv(Rescheduled(Rescheduled(s, t, pt, a), u, pu, b))
    ensures u in Rescheduled(s, t, pt, a).tasks
    ensures var e := Rescheduled(Rescheduled(s, t, pt, a), u, pu, b);
            && !GoodChoice(e, u)
            && ((forall x :: Queued(s, x) && s.tasks[x].Rt() ==> x == t || x == u) ==> GoodChoice(e, t))
  {
    hide Inv, Rescheduled, GoodChoice;
    RescheduledRecord(s, t, pt, a);
    var m := Rescheduled(s, t, pt, a);
    RescheduledRecord(m, u, pu, b);
    var e := Rescheduled(m, u, pu, b);
    LargerIsBetter(e, t, u, a, b);
  }

  /** The records after a change of policy. */
  lemma RescheduledRecord(s: Rq, t: Tid, policy: Policy, arg: int)
    requires Inv(s) && Queued(s, t) && PrioOk(policy, arg)
    ensures var s' := Rescheduled(s, t, policy, arg);
            && t in s'.tasks && s'.tasks == s.tasks[t := s'.tasks[t]] && s'.tasks[t].arr.Some? && PolicySet(s.tasks[t], s'.tasks[t], policy, arg)
  {
    hide Inv, Rescheduled;
    RescheduledDoes(s, t, policy, arg);
  }
}
