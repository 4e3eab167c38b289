/**
 The runqueue of one CPU with the user-weighted round-robin class between the real-time and the
 ordinary tasks.  `Rq` is a snapshot of the runqueue, its tasks and the users.
 */
module Runqueues {
  import opened Seqs
  import opened Options
  import opened PrioArrays

  type Uid = int

  const UWRR_TASK_PRIO: int := 120
  const UWRR_SLICE_UNIT: int := 100

  /** A user's slice is a 32-bit unsigned field. */
  const SLICE_WORD: int := 0x1_0000_0000

  /** The slice a user of this weight gets: the product may wrap. */
  function NewSlice(weight: int): (n: int)
    ensures 0 <= n < SLICE_WORD
  {
    (UWRR_SLICE_UNIT * weight) % SLICE_WORD
  }

  datatype Policy = Normal | Fifo | RoundRobin | Uwrr

  /** A task's array: one of the two arrays of the runqueue, or the array of a user. */
  datatype Ref = Main(i: int) | OfUser(u: Uid)

  /** A task inside `switch_uid`, past the assignment of its owner: who it was, and whether the policy test is done. */
  datatype Leaving = Leaving(prev: Uid, tested: bool)

  datatype Task = Task(policy: Policy, prio: int, staticPrio: int, slice: int, user: Uid, arr: Option<Ref>, leaving: Option<Leaving>) {
    predicate Rt() { prio < MAX_RT_PRIO }
  }

  datatype User = User(weight: int, slice: int, tasks: PrioArray)

  datatype Rq = Rq(
    nrRunning: int, uwrrRunning: int, active: int, arrays: seq<PrioArray>,
    users: map<Uid, User>, userlist: seq<Uid>, tasks: map<Tid, Task>)

  /** `task_timeslice` with a tick of one millisecond. */
  function Timeslice(staticPrio: int): (n: int)
    ensures n >= 5
  {
    var base := if staticPrio < 120 then 400 else 100;
    var n := base * (MAX_PRIO - staticPrio) / 20;
    if n < 5 then 5 else n
  }

  // ---------------------------------------------------------------- arrays by reference

  predicate ValidRef(s: Rq, r: Ref) {
    match r
    case Main(i) => 0 <= i < 2 && |s.arrays| == 2
    case OfUser(u) => u in s.users
  }

  function Arr(s: Rq, r: Ref): PrioArray
    requires ValidRef(s, r)
  {
    match r
    case Main(i) => s.arrays[i]
    case OfUser(u) => s.users[u].tasks
  }

  function SetArr(s: Rq, r: Ref, a: PrioArray): Rq
    requires ValidRef(s, r)
  {
    match r
    case Main(i) => s.(arrays := s.arrays[i := a])
    case OfUser(u) => s.(users := s.users[u := s.users[u].(tasks := a)])
  }

  lemma SetArrFacts(s: Rq, r: Ref, a: PrioArray)
    requires ValidRef(s, r)
    ensures var s' := SetArr(s, r, a);
            && ValidRef(s', r) && Arr(s', r) == a
            && (forall x :: ValidRef(s', x) <==> ValidRef(s, x))
            && (forall x :: ValidRef(s, x) && x != r ==> ValidRef(s', x) && Arr(s', x) == Arr(s, x))
            && s'.userlist == s.userlist && s'.users.Keys == s.users.Keys
  {
  }

  /** Sum of the users' task counts along a list. */
  function ListSum(users: map<Uid, User>, l: seq<Uid>): int {
    if l == [] then 0 else ListSum(users, l[..|l| - 1]) + if l[|l| - 1] in users then users[l[|l| - 1]].tasks.nr else 0
  }

  // ---------------------------------------------------------------- invariant

  ghost predicate ArraysOk(s: Rq) {
    && |s.arrays| == 2 && 0 <= s.active < 2
    && (forall r :: ValidRef(s, r) ==> ArrayOk(Arr(s, r)))
  }

  /** A task is queued exactly where its `array` and `prio` say. */
  ghost predicate MembersOk(s: Rq) {
    forall r, t, q {:trigger t in Arr(s, r).queue[q]} :: ValidRef(s, r) && 0 <= q < |Arr(s, r).queue| ==>
      (t in Arr(s, r).queue[q] <==> t in s.tasks && s.tasks[t].arr == Some(r) && s.tasks[t].prio == q)
  }

  /**
   A UWRR task has the UWRR priority and is queued in its owner's array, or still in that of its
   previous owner while it changes.  For the others the priority, not the policy, tells a real-time
   task: a child can have the policy of one class and the priority of another when its parent's policy
   changes during the fork.
   */
  ghost predicate TaskOk(s: Rq, p: Task) {
    && p.user in s.users && (p.leaving.Some? ==> p.leaving.value.prev in s.users) && p.slice >= 1 && MAX_RT_PRIO <= p.staticPrio < MAX_PRIO && 0 <= p.prio < MAX_PRIO
    && (p.policy == Uwrr ==> p.prio == UWRR_TASK_PRIO && p.staticPrio == UWRR_TASK_PRIO)
    && match p.arr
       case None => true
       case Some(Main(i)) => 0 <= i < 2 && p.policy != Uwrr && (p.Rt() ==> i == s.active)
       case Some(OfUser(u)) => p.policy == Uwrr && (u == p.user || (p.leaving.Some? && u == p.leaving.value.prev))
  }

  ghost predicate TasksOk(s: Rq) {
    forall t :: t in s.tasks ==> TaskOk(s, s.tasks[t])
  }

  /** A user with queued tasks. */
  predicate Busy(s: Rq, u: Uid) { u in s.users && s.users[u].tasks.nr > 0 }

  /** Every user with queued tasks is listed. */
  ghost predicate UsersOk(s: Rq) {
    && NoDup(s.userlist)
    && (forall u :: u in s.userlist ==> u in s.users)
    && (forall u :: Busy(s, u) ==> u in s.userlist)
    && (forall u :: u in s.users ==> s.users[u].weight >= 1 && 0 <= s.users[u].slice < SLICE_WORD)
  }

  ghost predicate CountsOk(s: Rq) {
    && |s.arrays| == 2
    && s.nrRunning == s.arrays[0].nr + s.arrays[1].nr + s.uwrrRunning
    && s.uwrrRunning == ListSum(s.users, s.userlist)
  }

  ghost predicate Inv(s: Rq) {
    ArraysOk(s) && MembersOk(s) && TasksOk(s) && UsersOk(s) && CountsOk(s)
  }

  /** A change of owner under way that will still see to user `u`. */
  predicate Excuses(p: Task, u: Uid) {
    && p.leaving.Some?
    && ((p.leaving.value.prev == u && (p.leaving.value.tested || p.policy == Uwrr)) || (p.user == u && p.policy == Uwrr))
  }

  ghost predicate Excused(s: Rq, u: Uid) { exists t :: t in s.tasks && Excuses(s.tasks[t], u) }

  /** A listed user has queued tasks, except for users that a change of owner under way will see to. */
  ghost predicate Tidy(s: Rq) {
    && (forall u :: u in s.userlist ==> Busy(s, u) || Excused(s, u))
    && (forall t :: t in s.tasks && s.tasks[t].leaving.Some? ==> s.tasks[t].arr.Some?)
  }

  /** No change of owner is under way. */
  ghost predicate Quiet(s: Rq) { forall t :: t in s.tasks ==> s.tasks[t].leaving == None }

  /** Then a user is listed exactly when it has queued tasks. */
  lemma QuietLists(s: Rq)
    requires Inv(s) && Tidy(s) && Quiet(s)
    ensures forall u :: u in s.userlist <==> Busy(s, u)
  {
    forall u | u in s.userlist ensures Busy(s, u) { }
  }

  // ---------------------------------------------------------------- sums along the user list

  lemma {:induction false} ListSumSame(us: map<Uid, User>, vs: map<Uid, User>, l: seq<Uid>)
    requires forall u :: u in l ==> (u in us <==> u in vs) && (u in us ==> us[u].tasks.nr == vs[u].tasks.nr)
    ensures ListSum(us, l) == ListSum(vs, l)
  {
    if l != [] {
      var u: Uid := l[|l| - 1];
      assert u in l;
      ListSumSame(us, vs, l[..|l| - 1]);
    }
  }

  lemma {:induction false} ListSumConcat(us: map<Uid, User>, l: seq<Uid>, m: seq<Uid>)
    ensures ListSum(us, l + m) == ListSum(us, l) + ListSum(us, m)
  {
    if m == [] {
      assert l + m == l;
    } else {
      var n := |m| - 1;
      ListSumConcat(us, l, m[..n]);
      assert (l + m)[..|l + m| - 1] == l + m[..n];
    }
  }

  function NrOf(us: map<Uid, User>, u: Uid): int { if u in us then us[u].tasks.nr else 0 }

  lemma ListSumOne(us: map<Uid, User>, u: Uid)
    ensures ListSum(us, [u]) == NrOf(us, u)
  {
    assert [u][..0] == [];
  }

  lemma {:induction false} ListSumWithout(us: map<Uid, User>, l: seq<Uid>, u: Uid)
    requires NoDup(l)
    ensures ListSum(us, Without(l, u)) == ListSum(us, l) - if u in l then NrOf(us, u) else 0
  {
    if u in l {
      var i :| 0 <= i < |l| && l[i] == u;
      WithoutAt(l, i);
      assert l == l[..i] + ([u] + l[i + 1..]);
      ListSumConcat(us, l[..i], [u] + l[i + 1..]);
      ListSumConcat(us, [u], l[i + 1..]);
      ListSumConcat(us, l[..i], l[i + 1..]);
      ListSumOne(us, u);
    } else {
      WithoutMissing(l, u);
    }
  }

  lemma {:induction false} ListSumZero(us: map<Uid, User>, l: seq<Uid>)
    requires forall u :: u in l ==> NrOf(us, u) == 0
    ensures ListSum(us, l) == 0
  {
    if l != [] {
      var u: Uid := l[|l| - 1];
      assert u in l;
      ListSumZero(us, l[..|l| - 1]);
    }
  }

  /** The sum depends only on which users with tasks are listed. */
  lemma {:induction false} ListSumCover(us: map<Uid, User>, l: seq<Uid>, m: seq<Uid>)
    requires NoDup(l) && NoDup(m)
    requires forall u :: u in l && u !in m ==> NrOf(us, u) == 0
    requires forall u :: u in m && u !in l ==> NrOf(us, u) == 0
    ensures ListSum(us, l) == ListSum(us, m)
    decreases |l|
  {
    if l == [] {
      ListSumZero(us, m);
    } else {
      var u: Uid := l[0];
      assert u in l;
      WithoutIsDelete(l, u);
      WithoutIsDelete(m, u);
      ListSumWithout(us, l, u);
      ListSumWithout(us, m, u);
      ListSumCover(us, Without(l, u), Without(m, u));
    }
  }

  lemma {:induction false} ListSumUpdate(us: map<Uid, User>, l: seq<Uid>, u: Uid, v: User)
    requires NoDup(l) && u in l && u in us
    ensures ListSum(us[u := v], l) == ListSum(us, l) + v.tasks.nr - us[u].tasks.nr
  {
    ListSumWithout(us, l, u);
    ListSumWithout(us[u := v], l, u);
    WithoutIsDelete(l, u);
    ListSumSame(us, us[u := v], Without(l, u));
  }

  // ---------------------------------------------------------------- changing one array

  /** The runqueue after array `r` became `a` and task `t` became `p`. */
  function Change(s: Rq, r: Ref, a: PrioArray, t: Tid, p: Task): Rq
    requires ValidRef(s, r)
  {
    SetArr(s, r, a).(tasks := s.tasks[t := p])
  }

  /** `a` is the array `r` of `s`, with task `t` queued as `p` says and everybody else as before. */
  ghost predicate OnlyMoves(s: Rq, r: Ref, a: PrioArray, t: Tid, p: Task) {
    && ValidRef(s, r) && ArrayOk(a) && ArrayOk(Arr(s, r)) && t in s.tasks
    && (s.tasks[t].arr == None || s.tasks[t].arr == Some(r)) && (p.arr == None || p.arr == Some(r))
    && (forall x, q {:trigger x in a.queue[q]} :: 0 <= q < MAX_PRIO ==>
          (x in a.queue[q] <==> if x == t then p.arr == Some(r) && p.prio == q else x in Arr(s, r).queue[q]))
  }

  lemma ChangeOk(s: Rq, r: Ref, a: PrioArray, t: Tid, p: Task)
    requires ArraysOk(s) && MembersOk(s) && TasksOk(s) && OnlyMoves(s, r, a, t, p) && TaskOk(s, p)
    ensures var s' := Change(s, r, a, t, p); ArraysOk(s') && MembersOk(s') && TasksOk(s')
  {
    var s' := Change(s, r, a, t, p);
    SetArrFacts(s, r, a);
    forall x | ValidRef(s', x) ensures ArrayOk(Arr(s', x)) {
      if x != r { assert ArrayOk(Arr(s, x)); }
    }
    forall x, y, q | ValidRef(s', x) && 0 <= q < |Arr(s', x).queue|
      ensures y in Arr(s', x).queue[q] <==> y in s'.tasks && s'.tasks[y].arr == Some(x) && s'.tasks[y].prio == q
    {
      if x != r {
        assert y in Arr(s, x).queue[q] <==> y in s.tasks && s.tasks[y].arr == Some(x) && s.tasks[y].prio == q;
      } else if y != t {
        assert y in Arr(s, r).queue[q] <==> y in s.tasks && s.tasks[y].arr == Some(r) && s.tasks[y].prio == q;
      }
    }
    forall x | x in s'.tasks ensures TaskOk(s', s'.tasks[x]) {
      if x != t { assert TaskOk(s, s.tasks[x]); }
    }
  }

  /** The clauses of the invariant read only some of the fields. */
  lemma SameFields(s: Rq, s': Rq)
    requires s'.arrays == s.arrays && s'.users == s.users && s'.tasks == s.tasks && s'.active == s.active
    ensures ArraysOk(s) && MembersOk(s) && TasksOk(s) ==> ArraysOk(s') && MembersOk(s') && TasksOk(s')
  {
    assert forall r :: ValidRef(s', r) <==> ValidRef(s, r);
    assert forall r :: ValidRef(s, r) ==> Arr(s', r) == Arr(s, r);
    if ArraysOk(s) && MembersOk(s) && TasksOk(s) {
      forall x, y, q | ValidRef(s', x) && 0 <= q < |Arr(s', x).queue|
        ensures y in Arr(s', x).queue[q] <==> y in s'.tasks && s'.tasks[y].arr == Some(x) && s'.tasks[y].prio == q
      {
        assert y in Arr(s, x).queue[q] <==> y in s.tasks && s.tasks[y].arr == Some(x) && s.tasks[y].prio == q;
      }
      forall x | x in s'.tasks ensures TaskOk(s', s'.tasks[x]) { assert TaskOk(s, s.tasks[x]); }
    }
  }

  lemma FromParts(s: Rq, m: Rq, c: Rq)
    requires ArraysOk(m) && MembersOk(m) && TasksOk(m) && UsersOk(c) && CountsOk(c)
    requires s.arrays == m.arrays == c.arrays && s.users == m.users == c.users && s.tasks == m.tasks && s.active == m.active
    requires s.userlist == c.userlist && s.nrRunning == c.nrRunning && s.uwrrRunning == c.uwrrRunning
    ensures Inv(s)
  {
    SameFields(m, s);
  }

  /** Where a queued task is. */
  lemma QueuedAt(s: Rq, t: Tid)
    requires Inv(s) && t in s.tasks && s.tasks[t].arr.Some?
    ensures var p := s.tasks[t];
            0 <= p.prio < MAX_PRIO && ValidRef(s, p.arr.value) && ArrayOk(Arr(s, p.arr.value)) &&
            t in Arr(s, p.arr.value).queue[p.prio] && Arr(s, p.arr.value).nr > 0
  {
    var p := s.tasks[t];
    assert TaskOk(s, p);
    var r := p.arr.value;
    assert ArrayOk(Arr(s, r));
    assert t in Arr(s, r).queue[p.prio];
    SizeAtLeast(Arr(s, r).queue, p.prio);
  }

  /** A task that is not queued is on no queue at all. */
  lemma NotQueued(s: Rq, t: Tid, r: Ref, q: int)
    requires Inv(s) && t in s.tasks && s.tasks[t].arr == None && ValidRef(s, r) && 0 <= q < |Arr(s, r).queue|
    ensures t !in Arr(s, r).queue[q]
  {
  }

  lemma ArraysNonNeg(s: Rq)
    requires ArraysOk(s)
    ensures forall r :: ValidRef(s, r) ==> Arr(s, r).nr >= 0
  {
    forall r | ValidRef(s, r) ensures Arr(s, r).nr >= 0 { assert ArrayOk(Arr(s, r)); }
  }

  // ---------------------------------------------------------------- take off, put on

  /** The userlist once the array of `r` has `left` tasks. */
  function ListAfterTake(l: seq<Uid>, r: Ref, left: int): seq<Uid> {
    if r.OfUser? && left == 0 then Without(l, r.u) else l
  }

  function ListAfterPut(l: seq<Uid>, r: Ref): seq<Uid> {
    if r.OfUser? && r.u !in l then l + [r.u] else l
  }

  function Share(r: Ref): int { if r.OfUser? then 1 else 0 }

  /** Task `t` is taken off its array, which becomes `a`. */
  function Taken(s: Rq, t: Tid): Rq
    requires t in s.tasks && s.tasks[t].arr.Some? && ValidRef(s, s.tasks[t].arr.value)
    requires 0 <= s.tasks[t].prio < |Arr(s, s.tasks[t].arr.value).queue|
  {
    var p, r := s.tasks[t], s.tasks[t].arr.value;
    var a := Dequeue(Arr(s, r), t, p.prio);
    Change(s, r, a, t, p.(arr := None)).(
      nrRunning := s.nrRunning - 1, uwrrRunning := s.uwrrRunning - Share(r), userlist := ListAfterTake(s.userlist, r, a.nr))
  }

  /** Task `t` is put on array `r`, which becomes `a`. */
  function Put(s: Rq, t: Tid, r: Ref, a: PrioArray): Rq
    requires t in s.tasks && ValidRef(s, r)
  {
    Change(s, r, a, t, s.tasks[t].(arr := Some(r))).(
      nrRunning := s.nrRunning + 1, uwrrRunning := s.uwrrRunning + Share(r), userlist := ListAfterPut(s.userlist, r))
  }

  lemma TakenOk(s: Rq, t: Tid)
    requires Inv(s) && t in s.tasks && s.tasks[t].arr.Some?
    ensures ValidRef(s, s.tasks[t].arr.value) && 0 <= s.tasks[t].prio < |Arr(s, s.tasks[t].arr.value).queue|
    ensures Inv(Taken(s, t))
  {
    hide ListSum, Sizes;
    QueuedAt(s, t);
    var p, r := s.tasks[t], s.tasks[t].arr.value;
    assert TaskOk(s, p);
    var a := Dequeue(Arr(s, r), t, p.prio);
    DequeueOk(Arr(s, r), t, p.prio);
    assert OnlyMoves(s, r, a, t, p.(arr := None)) by { MovesTake(s, r, t); }
    ChangeOk(s, r, a, t, p.(arr := None));
    TakeCounts(s, t, r, a);
    FromParts(Taken(s, t), Change(s, r, a, t, p.(arr := None)),
      SetArr(s, r, a).(userlist := ListAfterTake(s.userlist, r, a.nr), nrRunning := s.nrRunning - 1, uwrrRunning := s.uwrrRunning - Share(r)));
  }

  lemma MovesTake(s: Rq, r: Ref, t: Tid)
    requires Inv(s) && t in s.tasks && s.tasks[t].arr == Some(r) && ValidRef(s, r) && ArrayOk(Arr(s, r))
    requires 0 <= s.tasks[t].prio < MAX_PRIO && t in Arr(s, r).queue[s.tasks[t].prio]
    ensures OnlyMoves(s, r, Dequeue(Arr(s, r), t, s.tasks[t].prio), t, s.tasks[t].(arr := None))
  {
    var p := s.tasks[t];
    DequeueOk(Arr(s, r), t, p.prio);
    forall q | 0 <= q < MAX_PRIO && q != p.prio ensures t !in Arr(s, r).queue[q] {}
  }

  lemma TakeCounts(s: Rq, t: Tid, r: Ref, a: PrioArray)
    requires Inv(s) && ValidRef(s, r) && t in s.tasks && a.nr == Arr(s, r).nr - 1 >= 0
    ensures var l := ListAfterTake(s.userlist, r, a.nr);
            var s' := SetArr(s, r, a).(userlist := l, nrRunning := s.nrRunning - 1, uwrrRunning := s.uwrrRunning - Share(r));
            UsersOk(s') && CountsOk(s')
  {
    if r.OfUser? {
      var u, us := r.u, s.users[r.u := s.users[r.u].(tasks := a)];
      WithoutIsDelete(s.userlist, u);
      ListSumUpdate(s.users, s.userlist, u, us[u]);
      ListSumWithout(us, s.userlist, u);
    }
  }

  lemma PutOk(s: Rq, t: Tid, r: Ref, a: PrioArray)
    requires Inv(s) && t in s.tasks && s.tasks[t].arr == None && TaskOk(s, s.tasks[t].(arr := Some(r)))
    requires OnlyMoves(s, r, a, t, s.tasks[t].(arr := Some(r))) && a.nr == Arr(s, r).nr + 1
    ensures Inv(Put(s, t, r, a))
  {
    hide ListSum, Sizes, MembersOk, TasksOk, UsersOk, CountsOk;
    ChangeOk(s, r, a, t, s.tasks[t].(arr := Some(r)));
    PutCounts(s, r, a);
    FromParts(Put(s, t, r, a), Change(s, r, a, t, s.tasks[t].(arr := Some(r))),
      SetArr(s, r, a).(userlist := ListAfterPut(s.userlist, r), nrRunning := s.nrRunning + 1, uwrrRunning := s.uwrrRunning + Share(r)));
  }

  lemma PutCounts(s: Rq, r: Ref, a: PrioArray)
    requires Inv(s) && ValidRef(s, r) && a.nr == Arr(s, r).nr + 1
    ensures var s' := SetArr(s, r, a).(userlist := ListAfterPut(s.userlist, r), nrRunning := s.nrRunning + 1, uwrrRunning := s.uwrrRunning + Share(r));
            UsersOk(s') && CountsOk(s')
  {
    if r.OfUser? {
      UsersAfterPut(s, r.u, a);
      SumAfterPut(s, r.u, a);
      hide ListSum, UsersOk, ArraysOk, MembersOk, TasksOk;
    } else {
      MainAfterPut(s, r.i, a);
    }
  }

  lemma MainAfterPut(s: Rq, i: int, a: PrioArray)
    requires Inv(s) && 0 <= i < 2 && |s.arrays| == 2 && a.nr == s.arrays[i].nr + 1
    ensures var s' := s.(arrays := s.arrays[i := a], nrRunning := s.nrRunning + 1);
            UsersOk(s') && CountsOk(s')
  {
    hide ListSum, ArraysOk, MembersOk, TasksOk;
  }

  lemma UsersAfterPut(s: Rq, u: Uid, a: PrioArray)
    requires Inv(s) && u in s.users && a.nr == s.users[u].tasks.nr + 1
    ensures UsersOk(SetArr(s, OfUser(u), a).(userlist := ListAfterPut(s.userlist, OfUser(u)), nrRunning := s.nrRunning + 1, uwrrRunning := s.uwrrRunning + 1))
  {
    ArraysNonNeg(s);
    assert Arr(s, OfUser(u)).nr >= 0;
    hide ListSum, MembersOk, TasksOk;
  }

  lemma SumAfterPut(s: Rq, u: Uid, a: PrioArray)
    requires Inv(s) && u in s.users && a.nr == s.users[u].tasks.nr + 1
    ensures ListSum(s.users[u := s.users[u].(tasks := a)], ListAfterPut(s.userlist, OfUser(u))) == ListSum(s.users, s.userlist) + 1
  {
    var us := s.users[u := s.users[u].(tasks := a)];
    ArraysNonNeg(s);
    assert Arr(s, OfUser(u)).nr >= 0;
    assert NoDup(s.userlist) && (u !in s.userlist ==> s.users[u].tasks.nr == 0);
    hide Inv;
    if u in s.userlist {
      ListSumUpdate(s.users, s.userlist, u, us[u]);
    } else {
      ListSumConcat(us, s.userlist, [u]);
      ListSumOne(us, u);
      ListSumSame(s.users, us, s.userlist);
    }
  }

  /** `enqueue_task` of a task that is not queued. */
  lemma EnqueuedOk(s: Rq, t: Tid, r: Ref)
    requires Inv(s) && t in s.tasks && s.tasks[t].arr == None && ValidRef(s, r)
    requires TaskOk(s, s.tasks[t].(arr := Some(r)))
    ensures 0 <= s.tasks[t].prio < |Arr(s, r).queue|
    ensures Inv(Put(s, t, r, Enqueue(Arr(s, r), t, s.tasks[t].prio)))
  {
    assert ArrayOk(Arr(s, r));
    var prio := s.tasks[t].prio;
    NotQueued(s, t, r, prio);
    EnqueueOk(Arr(s, r), t, prio);
    MovesPut(s, t, r);
    PutOk(s, t, r, Enqueue(Arr(s, r), t, prio));
  }

  lemma MovesPut(s: Rq, t: Tid, r: Ref)
    requires Inv(s) && t in s.tasks && s.tasks[t].arr == None && ValidRef(s, r) && ArrayOk(Arr(s, r))
    requires 0 <= s.tasks[t].prio < MAX_PRIO && ArrayOk(Enqueue(Arr(s, r), t, s.tasks[t].prio))
    ensures OnlyMoves(s, r, Enqueue(Arr(s, r), t, s.tasks[t].prio), t, s.tasks[t].(arr := Some(r)))
  {
    forall q | 0 <= q < MAX_PRIO ensures t !in Arr(s, r).queue[q] { NotQueued(s, t, r, q); }
  }

  // ---------------------------------------------------------------- changes that move nobody

  /** A task that is not queued may change priority, policy, slice and owner. */
  lemma RetagOk(s: Rq, t: Tid, p: Task)
    requires Inv(s) && t in s.tasks && s.tasks[t].arr == None && p.arr == None && TaskOk(s, p)
    ensures Inv(s.(tasks := s.tasks[t := p]))
  {
    var s' := s.(tasks := s.tasks[t := p]);
    forall x | ValidRef(s', x) ensures ArrayOk(Arr(s', x)) { assert ArrayOk(Arr(s, x)); }
    forall x, y, q | ValidRef(s', x) && 0 <= q < |Arr(s', x).queue|
      ensures y in Arr(s', x).queue[q] <==> y in s'.tasks && s'.tasks[y].arr == Some(x) && s'.tasks[y].prio == q
    {
      assert y in Arr(s, x).queue[q] <==> y in s.tasks && s.tasks[y].arr == Some(x) && s.tasks[y].prio == q;
    }
    forall x | x in s'.tasks ensures TaskOk(s', s'.tasks[x]) {
      if x != t { assert TaskOk(s, s.tasks[x]); }
    }
  }

  /** A queued task may change its slice, and move to the end of its queue. */
  lemma RequeuedOk(s: Rq, t: Tid, slice: int)
    requires Inv(s) && t in s.tasks && s.tasks[t].arr.Some? && slice >= 1
    ensures ValidRef(s, s.tasks[t].arr.value) && 0 <= s.tasks[t].prio < |Arr(s, s.tasks[t].arr.value).queue|
    ensures Inv(Change(s, s.tasks[t].arr.value, Requeue(Arr(s, s.tasks[t].arr.value), t, s.tasks[t].prio), t, s.tasks[t].(slice := slice)))
    ensures Inv(s.(tasks := s.tasks[t := s.tasks[t].(slice := slice)]))
  {
    hide ListSum, Sizes;
    QueuedAt(s, t);
    var p, r := s.tasks[t], s.tasks[t].arr.value;
    assert TaskOk(s, p);
    var p' := p.(slice := slice);
    var a := Requeue(Arr(s, r), t, p.prio);
    RequeueOk(Arr(s, r), t, p.prio);
    MovesSame(s, r, t, a, p');
    ChangeOk(s, r, a, t, p');
    SameCounts(s, r, a);
    MovesSame(s, r, t, Arr(s, r), p');
    ChangeOk(s, r, Arr(s, r), t, p');
    SameCounts(s, r, Arr(s, r));
    SetSame(s, r);
  }

  lemma SetSame(s: Rq, r: Ref)
    requires ValidRef(s, r)
    ensures SetArr(s, r, Arr(s, r)) == s
  {
  }

  lemma MovesSame(s: Rq, r: Ref, t: Tid, a: PrioArray, p: Task)
    requires Inv(s) && t in s.tasks && s.tasks[t].arr == Some(r) && ValidRef(s, r) && ArrayOk(a) && ArrayOk(Arr(s, r))
    requires p.arr == Some(r) && p.prio == s.tasks[t].prio && 0 <= p.prio < MAX_PRIO
    requires forall q :: 0 <= q < MAX_PRIO && q != p.prio ==> a.queue[q] == Arr(s, r).queue[q]
    requires forall x :: x in a.queue[p.prio] <==> x in Arr(s, r).queue[p.prio]
    ensures OnlyMoves(s, r, a, t, p)
  {
    forall q | 0 <= q < MAX_PRIO ensures t in Arr(s, r).queue[q] <==> q == p.prio {}
    forall x, q | 0 <= q < MAX_PRIO
      ensures x in a.queue[q] <==> if x == t then p.arr == Some(r) && p.prio == q else x in Arr(s, r).queue[q]
    {
      if q != p.prio { assert a.queue[q] == Arr(s, r).queue[q]; }
    }
  }

  lemma SameCounts(s: Rq, r: Ref, a: PrioArray)
    requires Inv(s) && ValidRef(s, r) && a.nr == Arr(s, r).nr
    ensures UsersOk(SetArr(s, r, a)) && CountsOk(SetArr(s, r, a))
  {
    if r.OfUser? {
      ListSumSame(s.users, SetArr(s, r, a).users, s.userlist);
    }
  }

  /** A user's slice, and the order of the user list, may change. */
  lemma UserOk(s: Rq, u: Uid, slice: int, l: seq<Uid>)
    requires Inv(s) && u in s.users && 0 <= slice < SLICE_WORD && ListCovers(s, l)
    ensures Inv(s.(users := s.users[u := s.users[u].(slice := slice)], userlist := l))
  {
    hide Sizes;
    var s' := s.(users := s.users[u := s.users[u].(slice := slice)], userlist := l);
    assert forall x :: ValidRef(s', x) <==> ValidRef(s, x);
    assert forall x :: ValidRef(s, x) ==> Arr(s', x) == Arr(s, x);
    forall x | ValidRef(s', x) ensures ArrayOk(Arr(s', x)) { assert ArrayOk(Arr(s, x)); }
    forall x, y, q | ValidRef(s', x) && 0 <= q < |Arr(s', x).queue|
      ensures y in Arr(s', x).queue[q] <==> y in s'.tasks && s'.tasks[y].arr == Some(x) && s'.tasks[y].prio == q
    {
      assert y in Arr(s, x).queue[q] <==> y in s.tasks && s.tasks[y].arr == Some(x) && s.tasks[y].prio == q;
    }
    forall x | x in s'.tasks ensures TaskOk(s', s'.tasks[x]) { assert TaskOk(s, s.tasks[x]); }
    CoverSum(s, l);
    ListSumSame(s.users, s'.users, l);
  }

  /** A list of users that has every user with queued tasks once. */
  ghost predicate ListCovers(s: Rq, l: seq<Uid>) {
    NoDup(l) && (forall u :: u in l ==> u in s.users) && (forall u :: Busy(s, u) ==> u in l)
  }

  lemma CoverSum(s: Rq, l: seq<Uid>)
    requires Inv(s) && ListCovers(s, l)
    ensures ListSum(s.users, l) == s.uwrrRunning
  {
    ArraysNonNeg(s);
    forall u | u in s.users ensures s.users[u].tasks.nr >= 0 { assert Arr(s, OfUser(u)).nr >= 0; }
    ListSumCover(s.users, s.userlist, l);
  }

  /** Any such list will do. */
  lemma RelistOk(s: Rq, l: seq<Uid>)
    requires Inv(s) && ListCovers(s, l)
    ensures Inv(s.(userlist := l))
  {
    CoverSum(s, l);
    SameFields(s, s.(userlist := l));
  }

  /** A task may change what does not concern its place in the queues. */
  lemma KeepOk(s: Rq, t: Tid, p: Task)
    requires Inv(s) && t in s.tasks && p.arr == s.tasks[t].arr && p.prio == s.tasks[t].prio && TaskOk(s, p)
    ensures Inv(s.(tasks := s.tasks[t := p]))
  {
    if p.arr == None {
      RetagOk(s, t, p);
    } else {
      QueuedAt(s, t);
      var r := p.arr.value;
      MovesSame(s, r, t, Arr(s, r), p);
      ChangeOk(s, r, Arr(s, r), t, p);
      SetSame(s, r);
      FromParts(s.(tasks := s.tasks[t := p]), s.(tasks := s.tasks[t := p]), s);
    }
  }
}
