/**
 Pulling tasks from a busy runqueue to another one, both locked: `move_tasks` and `pull_task`.
 Expired tasks are offered before active ones, low priority indices before high ones, and each queue
 from its tail; the first tasks on offer that may migrate are moved.
 */
module TaskMoves {
  import opened Seqs
  import opened PrioArrays

  /** What `can_migrate_task` asks about a task, and its priority. */
  datatype Candidate = Candidate(prio: int, running: bool, allowed: bool, hot: bool)

  type Candidates = map<Tid, Candidate>

  predicate CanMigrate(c: Candidate, aggressive: bool) { !c.running && c.allowed && (aggressive || !c.hot) }

  ghost function Movable(tasks: Candidates, aggressive: bool): set<Tid> {
    set t | t in tasks && CanMigrate(tasks[t], aggressive)
  }

  // ---------------------------------------------------------------- which tasks move

  /** The tasks in the order in which they are looked at, from queue `from` on. */
  ghost function Offers(queue: seq<seq<Tid>>, from: nat): seq<Tid>
    decreases |queue| - from
  {
    if from >= |queue| then [] else Rev(queue[from]) + Offers(queue, from + 1)
  }

  /** The tasks of the list that are in `ok`. */
  ghost function Only(ts: seq<Tid>, ok: set<Tid>): seq<Tid> {
    if ts == [] then [] else (if ts[0] in ok then [ts[0]] else []) + Only(ts[1..], ok)
  }

  /** The first `n` tasks, or all. */
  ghost function First(ts: seq<Tid>, n: int): seq<Tid> {
    if n <= 0 then [] else if n <= |ts| then ts[..n] else ts
  }

  /** The tasks that leave an array with these queues when up to `n` may. */
  ghost function Taken(queue: seq<seq<Tid>>, ok: set<Tid>, n: int): seq<Tid> {
    First(Only(Offers(queue, 0), ok), n)
  }

  lemma {:induction false} OnlyElems(ts: seq<Tid>, ok: set<Tid>)
    ensures forall t :: t in Only(ts, ok) <==> t in ts && t in ok
  {
    if ts != [] {
      OnlyElems(ts[1..], ok);
      assert ts == [ts[0]] + ts[1..];
    }
  }

  lemma {:induction false} OfferElems(queue: seq<seq<Tid>>, from: nat)
    ensures forall t :: t in Offers(queue, from) <==> exists q :: from <= q < |queue| && t in queue[q]
    decreases |queue| - from
  {
    if from < |queue| {
      OfferElems(queue, from + 1);
      RevElems(queue[from]);
      forall t ensures t in Offers(queue, from) <==> exists q :: from <= q < |queue| && t in queue[q] {
        assert t in Offers(queue, from) <==> t in queue[from] || t in Offers(queue, from + 1);
      }
    }
  }

  /** At most `n` tasks leave, all of them queued and movable, and fewer only when no movable one is left. */
  lemma TakenExact(queue: seq<seq<Tid>>, ok: set<Tid>, n: nat)
    ensures |Taken(queue, ok, n)| <= n
    ensures forall t :: t in Taken(queue, ok, n) ==> t in ok && exists q :: 0 <= q < |queue| && t in queue[q]
    ensures |Taken(queue, ok, n)| < n ==>
              forall q, t :: 0 <= q < |queue| && t in queue[q] && t in ok ==> t in Taken(queue, ok, n)
  {
    OfferElems(queue, 0);
    OnlyElems(Offers(queue, 0), ok);
    var all := Only(Offers(queue, 0), ok);
    assert forall t :: t in First(all, n) ==> t in all;
  }

  lemma {:induction false} OnlyConcat(s: seq<Tid>, t: seq<Tid>, ok: set<Tid>)
    ensures Only(s + t, ok) == Only(s, ok) + Only(t, ok)
  {
    if s == [] {
      assert s + t == t && Only(s, ok) == [];
    } else {
      hide Only;
      OnlyConcat(s[1..], t, ok);
      assert (s + t)[1..] == s[1..] + t;
      OnlyNext(s + t, ok);
      OnlyNext(s, ok);
    }
  }

  lemma OnlyNext(s: seq<Tid>, ok: set<Tid>)
    requires s != []
    ensures Only(s, ok) == (if s[0] in ok then [s[0]] else []) + Only(s[1..], ok)
  {
  }

  lemma StopsBefore(ts: seq<Tid>, n: int, k: nat)
    requires k < |ts| && ts[k] !in First(ts, n)
    ensures |First(ts, n)| <= k && First(ts, n) == ts[..|First(ts, n)|]
  {
  }

  /** A movable task that is passed over has everything that was taken before it on offer. */
  lemma TakenBefore(s: seq<Tid>, x: Tid, t: seq<Tid>, ok: set<Tid>, n: int)
    requires x in ok && x !in First(Only(s + [x] + t, ok), n)
    ensures forall y :: y in First(Only(s + [x] + t, ok), n) ==> y in s
  {
    var head, taken := Only(s, ok), First(Only(s + [x] + t, ok), n);
    OnlyConcat(s + [x], t, ok);
    OnlyConcat(s, [x], ok);
    assert Only([x], ok) == [x];
    assert Only(s + [x] + t, ok) == head + [x] + Only(t, ok);
    assert (head + [x] + Only(t, ok))[|head|] == x;
    StopsBefore(head + [x] + Only(t, ok), n, |head|);
    OnlyElems(s, ok);
    assert forall y :: y in taken ==> y in head;
  }

  lemma RevAround(l: seq<Tid>, i: nat)
    requires i < |l|
    ensures Rev(l) == Rev(l[i + 1..]) + [l[i]] + Rev(l[..i])
  {
    hide Rev;
    SplitAt(l, i);
    RevThree(l[..i], l[i], l[i + 1..]);
  }

  lemma SplitAt(l: seq<Tid>, i: nat)
    requires i < |l|
    ensures l == l[..i] + ([l[i]] + l[i + 1..])
  {
  }

  lemma RevThree(a: seq<Tid>, x: Tid, b: seq<Tid>)
    ensures Rev(a + ([x] + b)) == Rev(b) + [x] + Rev(a)
  {
    hide Rev;
    RevConcat(a, [x] + b);
    RevConcat([x], b);
    RevOne(x);
  }

  lemma RevOne(x: Tid)
    ensures Rev([x]) == [x]
  {
    assert [x][..0] == [];
  }

  /** What is on offer before the task at place `i` of queue `p`: the queues before, and the rest of its own behind it. */
  lemma {:induction false} OffersAround(queue: seq<seq<Tid>>, from: nat, p: nat, i: nat) returns (s: seq<Tid>, t: seq<Tid>)
    requires from <= p < |queue| && i < |queue[p]|
    ensures Offers(queue, from) == s + [queue[p][i]] + t
    ensures forall y :: y in s <==> y in queue[p][i + 1..] || exists q :: from <= q < p && y in queue[q]
    decreases p - from
  {
    if from == p {
      var l := queue[p];
      s, t := Rev(l[i + 1..]), Rev(l[..i]) + Offers(queue, p + 1);
      RevElems(l[i + 1..]);
      RevAround(l, i);
      hide Rev;
      assert Offers(queue, from) == s + [l[i]] + t;
    } else {
      var s1, t1 := OffersAround(queue, from + 1, p, i);
      s, t := Rev(queue[from]) + s1, t1;
      RevElems(queue[from]);
      hide Rev;
      assert Offers(queue, from) == Rev(queue[from]) + Offers(queue, from + 1);
      assert Offers(queue, from) == s + [queue[p][i]] + t;
      hide Offers;
      forall y ensures y in s <==> y in queue[p][i + 1..] || exists q :: from <= q < p && y in queue[q] {
        assert y in s <==> y in queue[from] || y in s1;
      }
    }
  }

  /**
   The order of the offer: while a movable task stays, only tasks of queues before its own, or nearer
   the tail of its own, are taken.
   */
  lemma TakenInOrder(queue: seq<seq<Tid>>, ok: set<Tid>, n: int, p: nat, i: nat)
    requires p < |queue| && i < |queue[p]| && queue[p][i] in ok && queue[p][i] !in Taken(queue, ok, n)
    ensures forall y :: y in Taken(queue, ok, n) ==> y in queue[p][i + 1..] || exists q :: 0 <= q < p && y in queue[q]
  {
    var s, t := OffersAround(queue, 0, p, i);
    TakenBefore(s, queue[p][i], t, ok, n);
  }

  lemma TakenLength(queue: seq<seq<Tid>>, ok: set<Tid>, n: nat)
    ensures |Taken(queue, ok, n)| <= n
  {
  }

  lemma {:induction false} SameOffers(a: seq<seq<Tid>>, b: seq<seq<Tid>>, from: nat)
    requires |a| == |b| && forall q :: from <= q < |a| ==> a[q] == b[q]
    ensures Offers(a, from) == Offers(b, from)
    decreases |a| - from
  {
    if from < |a| {
      hide Rev;
      SameOffers(a, b, from + 1);
      assert Offers(a, from) == Rev(a[from]) + Offers(a, from + 1);
    }
  }

  /** Empty queues offer nothing. */
  lemma {:induction false} SkipEmpty(queue: seq<seq<Tid>>, from: nat, to: nat)
    requires from <= to <= |queue| && forall q :: from <= q < to ==> queue[q] == []
    ensures Offers(queue, from) == Offers(queue, to)
    decreases |queue| - from
  {
    if from < to { SkipEmpty(queue, from + 1, to); }
  }

  lemma SkipBits(a: PrioArray, from: nat, to: nat)
    requires ArrayOk(a) && from <= to <= MAX_PRIO && forall q :: from <= q < to ==> q !in a.bitmap
    ensures Offers(a.queue, from) == Offers(a.queue, to)
  {
    SkipEmpty(a.queue, from, to);
  }

  lemma NothingOffered(a: PrioArray, ok: set<Tid>, n: int)
    requires ArrayOk(a) && a.nr == 0
    ensures Taken(a.queue, ok, n) == []
  {
    SomeQueue(a.queue);
    SkipEmpty(a.queue, 0, |a.queue|);
  }

  // ---------------------------------------------------------------- what is left and what is gained

  /** The list without the tasks in `gone`; the others keep their order. */
  ghost function Except(s: seq<Tid>, gone: seq<Tid>): seq<Tid> {
    if s == [] then [] else (if s[0] in gone then [] else [s[0]]) + Except(s[1..], gone)
  }

  /** The tasks of priority `q`, in order. */
  ghost function OfPrio(ts: seq<Tid>, tasks: Candidates, q: int): seq<Tid> {
    if ts == [] then [] else
      var t := ts[|ts| - 1];
      OfPrio(ts[..|ts| - 1], tasks, q) + if t in tasks && tasks[t].prio == q then [t] else []
  }

  /** The array `a` after the tasks in `gone` have left it. */
  ghost predicate Drained(a: PrioArray, gone: seq<Tid>, a': PrioArray) {
    && ArrayOk(a') && a'.nr == a.nr - |gone| && |a'.queue| == |a.queue|
    && forall q :: 0 <= q < |a.queue| ==> a'.queue[q] == Except(a.queue[q], gone)
  }

  /** The array `b` after the tasks in `come` have joined, each at the end of the queue of its priority. */
  ghost predicate Filled(b: PrioArray, come: seq<Tid>, tasks: Candidates, b': PrioArray) {
    && ArrayOk(b') && b'.nr == b.nr + |come| && |b'.queue| == |b.queue|
    && forall q :: 0 <= q < |b.queue| ==> b'.queue[q] == b.queue[q] + OfPrio(come, tasks, q)
  }

  /** Tasks are queued at their priority. */
  ghost predicate Placed(a: PrioArray, tasks: Candidates) {
    forall q, t :: 0 <= q < |a.queue| && t in a.queue[q] ==> t in tasks && tasks[t].prio == q
  }

  /** No task is in both arrays. */
  ghost predicate Apart(a: PrioArray, b: PrioArray) {
    forall q, t :: 0 <= q < |a.queue| && q < |b.queue| && t in a.queue[q] ==> t !in b.queue[q]
  }

  lemma {:induction false} ExceptElems(s: seq<Tid>, gone: seq<Tid>)
    ensures forall t :: t in Except(s, gone) <==> t in s && t !in gone
  {
    if s != [] {
      ExceptElems(s[1..], gone);
      assert s == [s[0]] + s[1..];
    }
  }

  lemma {:induction false} ExceptNone(s: seq<Tid>)
    ensures Except(s, []) == s
  {
    if s != [] { ExceptNone(s[1..]); }
  }

  lemma {:induction false} ExceptMore(s: seq<Tid>, gone: seq<Tid>, t: Tid)
    requires NoDup(s)
    ensures Except(s, gone + [t]) == Without(Except(s, gone), t)
  {
    if s != [] {
      ExceptMore(s[1..], gone, t);
      var r := Except(s[1..], gone);
      assert Except(s, gone) == (if s[0] in gone then [] else [s[0]]) + r;
      if s[0] in gone {
        assert Except(s, gone) == r;
      } else {
        assert ([s[0]] + r)[1..] == r;
        if s[0] == t {
          ExceptElems(s[1..], gone);
          assert t !in s[1..];
          WithoutMissing(r, t);
        }
      }
    }
  }

  lemma {:induction false} OfPrioElems(ts: seq<Tid>, tasks: Candidates, q: int)
    ensures forall t :: t in OfPrio(ts, tasks, q) <==> t in ts && t in tasks && tasks[t].prio == q
  {
    if ts != [] {
      OfPrioElems(ts[..|ts| - 1], tasks, q);
      assert ts == ts[..|ts| - 1] + [ts[|ts| - 1]];
    }
  }

  lemma OfPrioMore(ts: seq<Tid>, tasks: Candidates, q: int, t: Tid)
    requires t in tasks
    ensures OfPrio(ts + [t], tasks, q) == OfPrio(ts, tasks, q) + if tasks[t].prio == q then [t] else []
  {
    assert (ts + [t])[..|ts|] == ts;
  }

  /** `dequeue_task` of one more task. */
  lemma DrainOne(a: PrioArray, gone: seq<Tid>, a': PrioArray, t: Tid, q: int)
    requires ArrayOk(a) && Drained(a, gone, a') && 0 <= q < MAX_PRIO && t in a'.queue[q]
    requires forall p :: 0 <= p < MAX_PRIO && p != q ==> t !in a.queue[p]
    ensures Drained(a, gone + [t], Dequeue(a', t, q)) && t !in gone && t in a.queue[q]
  {
    var d := Dequeue(a', t, q);
    DequeueOk(a', t, q);
    ExceptElems(a.queue[q], gone);
    forall p | 0 <= p < |a.queue| ensures d.queue[p] == Except(a.queue[p], gone + [t]) {
      ExceptMore(a.queue[p], gone, t);
      if p != q {
        ExceptElems(a.queue[p], gone);
        WithoutMissing(Except(a.queue[p], gone), t);
      }
    }
  }

  /** `enqueue_task` of one more task. */
  lemma FillOne(b: PrioArray, come: seq<Tid>, tasks: Candidates, b': PrioArray, t: Tid)
    requires ArrayOk(b) && Filled(b, come, tasks, b') && t in tasks && 0 <= tasks[t].prio < MAX_PRIO
    requires t !in come && t !in b.queue[tasks[t].prio]
    ensures Filled(b, come + [t], tasks, Enqueue(b', t, tasks[t].prio))
  {
    var q := tasks[t].prio;
    OfPrioElems(come, tasks, q);
    EnqueueOk(b', t, q);
    forall p | 0 <= p < |b.queue| ensures Enqueue(b', t, q).queue[p] == b.queue[p] + OfPrio(come + [t], tasks, p) {
      OfPrioMore(come, tasks, p, t);
    }
  }

  // ---------------------------------------------------------------- the scan

  /** What is still on offer: queue `idx` below position `j`, then the queues behind. */
  ghost function Left(queue: seq<seq<Tid>>, idx: nat, j: nat): seq<Tid>
    requires idx < |queue| && j <= |queue[idx]|
  {
    Rev(queue[idx][..j]) + Offers(queue, idx + 1)
  }

  lemma LeftAll(queue: seq<seq<Tid>>, idx: nat)
    requires idx < |queue|
    ensures Left(queue, idx, |queue[idx]|) == Offers(queue, idx) && Left(queue, idx, 0) == Offers(queue, idx + 1)
  {
    assert queue[idx][..|queue[idx]|] == queue[idx];
    assert queue[idx][..0] == [];
  }

  lemma LeftNext(queue: seq<seq<Tid>>, idx: nat, j: nat, ok: set<Tid>)
    requires idx < |queue| && 0 < j <= |queue[idx]|
    ensures var t := queue[idx][j - 1];
            Only(Left(queue, idx, j), ok) == (if t in ok then [t] else []) + Only(Left(queue, idx, j - 1), ok)
  {
    var s := queue[idx];
    assert s[..j][..j - 1] == s[..j - 1];
    assert Rev(s[..j]) == [s[j - 1]] + Rev(s[..j - 1]);
    assert Left(queue, idx, j) == [s[j - 1]] + Left(queue, idx, j - 1);
    assert ([s[j - 1]] + Left(queue, idx, j - 1))[1..] == Left(queue, idx, j - 1);
  }

  /** Taking out the task just looked at leaves the rest on offer. */
  lemma LeftDequeued(a: PrioArray, idx: nat, j: nat)
    requires ArrayOk(a) && idx < |a.queue| && 0 < j <= |a.queue[idx]|
    ensures var d := Dequeue(a, a.queue[idx][j - 1], idx);
            j - 1 <= |d.queue[idx]| && Left(d.queue, idx, j - 1) == Left(a.queue, idx, j - 1)
  {
    var s := a.queue[idx];
    var d := Dequeue(a, s[j - 1], idx);
    WithoutAt(s, j - 1);
    assert d.queue[idx] == s[..j - 1] + s[j..];
    assert d.queue[idx][..j - 1] == s[..j - 1];
    SameOffers(d.queue, a.queue, idx + 1);
  }

  /** The tasks taken so far, and those that `rest` still yields, are the tasks to take. */
  ghost predicate OnTrack(goal: seq<Tid>, done: seq<Tid>, rest: seq<Tid>, ok: set<Tid>, n: int) {
    |done| <= n && goal == done + First(Only(rest, ok), n - |done|)
  }

  lemma TrackNext(goal: seq<Tid>, done: seq<Tid>, rest: seq<Tid>, t: Tid, rest': seq<Tid>, ok: set<Tid>, n: int)
    requires OnTrack(goal, done, rest, ok, n) && |done| < n
    requires Only(rest, ok) == (if t in ok then [t] else []) + Only(rest', ok)
    ensures OnTrack(goal, if t in ok then done + [t] else done, rest', ok, n)
  {
    hide Only, First;
    if t in ok {
      var m, tail := n - |done|, Only(rest', ok);
      FirstNext(t, tail, m);
      assert done + ([t] + First(tail, m - 1)) == done + [t] + First(tail, m - 1);
    } else {
      assert [] + Only(rest', ok) == Only(rest', ok);
    }
  }

  lemma FirstNext(t: Tid, tail: seq<Tid>, m: int)
    requires m > 0
    ensures First([t] + tail, m) == [t] + First(tail, m - 1)
  {
  }

  // ---------------------------------------------------------------- the runqueues

  class ArrayBox {
    var a: PrioArray
    constructor (a: PrioArray)
      ensures this.a == a
    {
      this.a := a;
    }
  }

  /** The part of a runqueue that a pull touches; `uwrrRunning` counts tasks that are in neither array. */
  class CpuQueue {
    var nrRunning: int
    var uwrrRunning: int
    var active: ArrayBox
    var expired: ArrayBox

    ghost predicate Valid()
      reads this, active, expired
    {
      && active != expired && ArrayOk(active.a) && ArrayOk(expired.a)
      && nrRunning == active.a.nr + expired.a.nr + uwrrRunning && uwrrRunning >= 0
    }

    constructor (active: ArrayBox, expired: ArrayBox, uwrrRunning: nat)
      requires active != expired && ArrayOk(active.a) && ArrayOk(expired.a)
      ensures Valid() && this.active == active && this.expired == expired && this.uwrrRunning == uwrrRunning
    {
      this.active, this.expired, this.uwrrRunning := active, expired, uwrrRunning;
      nrRunning := active.a.nr + expired.a.nr + uwrrRunning;
    }
  }

  /** `find_next_bit` below MAX_PRIO. */
  method FindNextBit(bitmap: set<int>, from: nat) returns (idx: nat)
    requires from <= MAX_PRIO
    ensures from <= idx <= MAX_PRIO && (idx < MAX_PRIO ==> idx in bitmap)
    ensures forall q :: from <= q < idx ==> q !in bitmap
  {
    idx := from;
    while idx < MAX_PRIO && idx !in bitmap
      invariant from <= idx <= MAX_PRIO && forall q :: from <= q < idx ==> q !in bitmap
    {
      idx := idx + 1;
    }
  }

  /** What the scan of one array keeps: both arrays and counters account for the tasks taken so far. */
  ghost predicate Moving(a0: PrioArray, b0: PrioArray, tasks: Candidates, taken: seq<Tid>, a: PrioArray, b: PrioArray) {
    && ArrayOk(a0) && ArrayOk(b0) && Placed(a0, tasks) && Apart(a0, b0)
    && Drained(a0, taken, a) && Filled(b0, taken, tasks, b)
  }

  lemma MovingStart(a: PrioArray, b: PrioArray, tasks: Candidates)
    requires ArrayOk(a) && ArrayOk(b) && Placed(a, tasks) && Apart(a, b)
    ensures Moving(a, b, tasks, [], a, b)
  {
    forall q | 0 <= q < |a.queue| ensures a.queue[q] == Except(a.queue[q], []) { ExceptNone(a.queue[q]); }
  }

  lemma MovingOne(a0: PrioArray, b0: PrioArray, tasks: Candidates, taken: seq<Tid>, a: PrioArray, b: PrioArray, t: Tid, q: int)
    requires Moving(a0, b0, tasks, taken, a, b) && 0 <= q < MAX_PRIO && t in a.queue[q]
    ensures t in tasks && tasks[t].prio == q
    ensures Moving(a0, b0, tasks, taken + [t], Dequeue(a, t, q), Enqueue(b, t, q))
  {
    MovingFacts(a0, b0, tasks, taken, a, b, t, q);
    hide Drained, Filled, Placed, Apart, ArrayOk;
    DrainOne(a0, taken, a, t, q);
    FillOne(b0, taken, tasks, b, t);
  }

  /** A task still in its array is where it was, is not taken and is not on the other side. */
  lemma MovingFacts(a0: PrioArray, b0: PrioArray, tasks: Candidates, taken: seq<Tid>, a: PrioArray, b: PrioArray, t: Tid, q: int)
    requires Moving(a0, b0, tasks, taken, a, b) && 0 <= q < MAX_PRIO && |a.queue| == MAX_PRIO && t in a.queue[q]
    ensures |a0.queue| == |b0.queue| == MAX_PRIO && t in a0.queue[q] && t !in taken && t in tasks && tasks[t].prio == q && t !in b0.queue[q]
    ensures forall p :: 0 <= p < MAX_PRIO && p != q ==> t !in a0.queue[p]
  {
    ExceptElems(a0.queue[q], taken);
    hide Except, OfPrio;
    assert a.queue[q] == Except(a0.queue[q], taken);
  }

  /** `pull_task` */
  method PullTask(src: CpuQueue, srcArray: ArrayBox, t: Tid, dst: CpuQueue, dstArray: ArrayBox, tasks: Candidates)
    requires src != dst && srcArray != dstArray && t in tasks
    requires 0 <= tasks[t].prio < |srcArray.a.queue| && tasks[t].prio < |dstArray.a.queue|
    modifies src`nrRunning, dst`nrRunning, srcArray, dstArray
    ensures srcArray.a == Dequeue(old(srcArray.a), t, tasks[t].prio) && dstArray.a == Enqueue(old(dstArray.a), t, tasks[t].prio)
    ensures src.nrRunning == old(src.nrRunning) - 1 && dst.nrRunning == old(dst.nrRunning) + 1
  {
    srcArray.a := Dequeue(srcArray.a, t, tasks[t].prio);
    src.nrRunning := src.nrRunning - 1;
    dst.nrRunning := dst.nrRunning + 1;
    dstArray.a := Enqueue(dstArray.a, t, tasks[t].prio);
  }

  /** One queue, from its tail, until it or the allowance is used up. */
  method PullQueue(src: CpuQueue, srcArray: ArrayBox, dst: CpuQueue, dstArray: ArrayBox, tasks: Candidates, aggressive: bool,
                   idx: nat, sofar: nat, max: nat,
                   ghost n: nat, ghost a0: PrioArray, ghost b0: PrioArray, ghost done: seq<Tid>, ghost goal: seq<Tid>)
    returns (pulled: nat, ghost taken: seq<Tid>)
    requires src != dst && srcArray != dstArray && idx < MAX_PRIO && |done| < n && max - sofar == n - |done|
    requires Moving(a0, b0, tasks, done, srcArray.a, dstArray.a)
    requires OnTrack(goal, done, Offers(srcArray.a.queue, idx), Movable(tasks, aggressive), n)
    modifies src`nrRunning, dst`nrRunning, srcArray, dstArray
    ensures Moving(a0, b0, tasks, taken, srcArray.a, dstArray.a) && |taken| <= n
    ensures if |taken| < n then OnTrack(goal, taken, Offers(srcArray.a.queue, idx + 1), Movable(tasks, aggressive), n) else taken == goal
    ensures pulled == sofar + |taken| - |done|
    ensures src.nrRunning == old(src.nrRunning) - (|taken| - |done|) && dst.nrRunning == old(dst.nrRunning) + (|taken| - |done|)
  {
    hide ArrayOk, Drained, Filled, Placed, Apart, Offers, Only, First, CanMigrate;
    ghost var ok := Movable(tasks, aggressive);
    QueueShape(a0, b0, tasks, done, srcArray.a, dstArray.a);
    var j: nat := |srcArray.a.queue[idx]|;
    LeftAll(srcArray.a.queue, idx);
    pulled, taken := sofar, done;
    while j > 0
      invariant |srcArray.a.queue| == |dstArray.a.queue| == MAX_PRIO && j <= |srcArray.a.queue[idx]| && |taken| < n
      invariant Moving(a0, b0, tasks, taken, srcArray.a, dstArray.a)
      invariant OnTrack(goal, taken, Left(srcArray.a.queue, idx, j), ok, n)
      invariant pulled == sofar + |taken| - |done|
      invariant src.nrRunning == old(src.nrRunning) - (|taken| - |done|) && dst.nrRunning == old(dst.nrRunning) + (|taken| - |done|)
    {
      ghost var a, b := srcArray.a, dstArray.a;
      var t: Tid := srcArray.a.queue[idx][j - 1];
      assert t in srcArray.a.queue[idx];
      QueueShape(a0, b0, tasks, taken, a, b);
      LeftNext(a.queue, idx, j, ok);
      TrackNext(goal, taken, Left(a.queue, idx, j), t, Left(a.queue, idx, j - 1), ok, n);
      MovingOne(a0, b0, tasks, taken, a, b, t, idx);
      j := j - 1;
      if CanMigrate(tasks[t], aggressive) {
        LeftDequeued(a, idx, j + 1);
        PullTask(src, srcArray, t, dst, dstArray, tasks);
        pulled, taken := pulled + 1, taken + [t];
        QueueShape(a0, b0, tasks, taken, srcArray.a, dstArray.a);
        if pulled == max {
          TrackEnd(goal, taken, Left(srcArray.a.queue, idx, j), ok, n);
          return;
        }
      }
    }
    LeftAll(srcArray.a.queue, idx);
  }

  lemma QueueShape(a0: PrioArray, b0: PrioArray, tasks: Candidates, taken: seq<Tid>, a: PrioArray, b: PrioArray)
    requires Moving(a0, b0, tasks, taken, a, b)
    ensures |a.queue| == |b.queue| == MAX_PRIO && ArrayOk(a)
  {
  }

  lemma TrackStart(queue: seq<seq<Tid>>, ok: set<Tid>, n: nat)
    ensures OnTrack(Taken(queue, ok, n), [], Offers(queue, 0), ok, n)
  {
  }

  lemma TrackEnd(goal: seq<Tid>, done: seq<Tid>, rest: seq<Tid>, ok: set<Tid>, n: int)
    requires OnTrack(goal, done, rest, ok, n) && (|done| == n || rest == [])
    ensures done == goal
  {
  }

  /** One srcArray, from the lowest set bit on. */
  method PullArray(src: CpuQueue, srcArray: ArrayBox, dst: CpuQueue, dstArray: ArrayBox, tasks: Candidates, aggressive: bool,
                   sofar: nat, max: nat)
    returns (pulled: nat)
    requires src != dst && srcArray != dstArray && sofar < max
    requires ArrayOk(srcArray.a) && ArrayOk(dstArray.a) && Placed(srcArray.a, tasks) && Apart(srcArray.a, dstArray.a)
    modifies src`nrRunning, dst`nrRunning, srcArray, dstArray
    ensures Moving(old(srcArray.a), old(dstArray.a), tasks, Taken(old(srcArray.a.queue), Movable(tasks, aggressive), max - sofar), srcArray.a, dstArray.a)
    ensures pulled == sofar + |Taken(old(srcArray.a.queue), Movable(tasks, aggressive), max - sofar)|
    ensures src.nrRunning == old(src.nrRunning) - (pulled - sofar) && dst.nrRunning == old(dst.nrRunning) + (pulled - sofar)
  {
    hide ArrayOk, Moving, Placed, Apart, OnTrack, Offers, Taken, Movable;
    ghost var ok := Movable(tasks, aggressive);
    ghost var n := max - sofar;
    ghost var a0, b0, goal := srcArray.a, dstArray.a, Taken(srcArray.a.queue, ok, n);
    MovingStart(a0, b0, tasks);
    TrackStart(a0.queue, ok, n);
    ghost var taken := [];
    var idx: nat := 0;
    pulled := sofar;
    while idx < MAX_PRIO
      invariant idx <= MAX_PRIO && |taken| < n && Moving(a0, b0, tasks, taken, srcArray.a, dstArray.a)
      invariant OnTrack(goal, taken, Offers(srcArray.a.queue, idx), ok, n)
      invariant pulled == sofar + |taken|
      invariant src.nrRunning == old(src.nrRunning) - |taken| && dst.nrRunning == old(dst.nrRunning) + |taken|
      decreases MAX_PRIO - idx
    {
      ghost var from := idx;
      QueueShape(a0, b0, tasks, taken, srcArray.a, dstArray.a);
      if idx == 0 {
        idx := FindFirstBit(srcArray.a.bitmap);
      } else {
        idx := FindNextBit(srcArray.a.bitmap, idx);
      }
      SkipBits(srcArray.a, from, idx);
      if idx >= MAX_PRIO {
        break;
      }
      pulled, taken := PullQueue(src, srcArray, dst, dstArray, tasks, aggressive, idx, pulled, max, n, a0, b0, taken, goal);
      if pulled == max {
        return;
      }
      idx := idx + 1;
    }
    QueueShape(a0, b0, tasks, taken, srcArray.a, dstArray.a);
    NoOffers(srcArray.a.queue);
    TrackEnd(goal, taken, Offers(srcArray.a.queue, idx), ok, n);
  }

  lemma NoOffers(queue: seq<seq<Tid>>)
    ensures Offers(queue, |queue|) == []
  {
  }

  // ---------------------------------------------------------------- move_tasks

  /**
   Between the two runqueues a task of `a0` stays or goes over to `b0`, and nothing else happens: the
   queues of each priority hold the same tasks together, none twice.
   */
  ghost predicate Handed(a0: PrioArray, b0: PrioArray, a: PrioArray, b: PrioArray) {
    && |a0.queue| == |b0.queue| == |a.queue| == |b.queue| && a.nr + b.nr == a0.nr + b0.nr && Apart(a, b)
    && forall q, t {:trigger t in a.queue[q]} {:trigger t in b.queue[q]} :: 0 <= q < |a0.queue| ==>
         && (t in a.queue[q] || t in b.queue[q] <==> t in a0.queue[q] || t in b0.queue[q])
         && (t in b0.queue[q] ==> t in b.queue[q])
  }

  lemma HandedOver(a0: PrioArray, b0: PrioArray, tasks: Candidates, taken: seq<Tid>, a: PrioArray, b: PrioArray)
    requires Moving(a0, b0, tasks, taken, a, b)
    requires forall t :: t in taken ==> exists q :: 0 <= q < |a0.queue| && t in a0.queue[q]
    ensures Handed(a0, b0, a, b)
  {
    MovingSizes(a0, b0, tasks, taken, a, b);
    hide Moving, Placed;
    forall q, t | 0 <= q < |a.queue| && q < |b.queue| && t in a.queue[q] ensures t !in b.queue[q] {
      Whereabouts(a0, b0, tasks, taken, a, b, q, t);
    }
    assert Apart(a, b);
    forall q, t | 0 <= q < |a0.queue|
      ensures t in a.queue[q] || t in b.queue[q] <==> t in a0.queue[q] || t in b0.queue[q]
      ensures t in b0.queue[q] ==> t in b.queue[q]
    {
      Whereabouts(a0, b0, tasks, taken, a, b, q, t);
    }
  }

  /** Where one task is afterwards. */
  lemma Whereabouts(a0: PrioArray, b0: PrioArray, tasks: Candidates, taken: seq<Tid>, a: PrioArray, b: PrioArray, q: int, t: Tid)
    requires Moving(a0, b0, tasks, taken, a, b) && 0 <= q < |a0.queue| == |b0.queue| == |a.queue| == |b.queue|
    requires t in taken ==> exists p :: 0 <= p < |a0.queue| && t in a0.queue[p]
    ensures t in a.queue[q] <==> t in a0.queue[q] && t !in taken
    ensures t in b.queue[q] <==> t in b0.queue[q] || (t in taken && t in a0.queue[q])
    ensures t in a0.queue[q] ==> t !in b0.queue[q]
  {
    ExceptElems(a0.queue[q], taken);
    OfPrioElems(taken, tasks, q);
    LinesAt(a0, b0, tasks, taken, a, b, q);
    PlacedAt(a0, b0, tasks, q, t);
    hide Moving, Except, OfPrio;
    if t in taken {
      var p :| 0 <= p < |a0.queue| && t in a0.queue[p];
      PlacedAt(a0, b0, tasks, p, t);
    }
  }

  /** The queues of one priority afterwards. */
  lemma LinesAt(a0: PrioArray, b0: PrioArray, tasks: Candidates, taken: seq<Tid>, a: PrioArray, b: PrioArray, q: int)
    requires Moving(a0, b0, tasks, taken, a, b) && 0 <= q < |a0.queue| == |b0.queue| == |a.queue| == |b.queue|
    ensures a.queue[q] == Except(a0.queue[q], taken) && b.queue[q] == b0.queue[q] + OfPrio(taken, tasks, q)
    ensures Placed(a0, tasks) && Apart(a0, b0)
  {
    hide ArrayOk, Except, OfPrio;
  }

  lemma PlacedAt(a: PrioArray, b: PrioArray, tasks: Candidates, q: int, t: Tid)
    requires Placed(a, tasks) && Apart(a, b) && 0 <= q < |a.queue| == |b.queue|
    ensures t in a.queue[q] ==> t in tasks && tasks[t].prio == q && t !in b.queue[q]
  {
  }

  lemma MovingSizes(a0: PrioArray, b0: PrioArray, tasks: Candidates, taken: seq<Tid>, a: PrioArray, b: PrioArray)
    requires Moving(a0, b0, tasks, taken, a, b)
    ensures |a0.queue| == |b0.queue| == |a.queue| == |b.queue| == MAX_PRIO
    ensures ArrayOk(a) && ArrayOk(b) && a.nr == a0.nr - |taken| && b.nr == b0.nr + |taken|
    ensures Drained(a0, taken, a) && Filled(b0, taken, tasks, b)
  {
  }

  /** Nothing in the array may migrate. */
  ghost predicate Settled(a: PrioArray, ok: set<Tid>) {
    forall q, t :: 0 <= q < |a.queue| && t in a.queue[q] ==> t !in ok
  }

  /** An array from which fewer tasks than allowed were taken has no movable task left; a task that may not move is left. */
  lemma ScanSettles(a0: PrioArray, b0: PrioArray, tasks: Candidates, ok: set<Tid>, n: nat, a: PrioArray, b: PrioArray)
    requires Moving(a0, b0, tasks, Taken(a0.queue, ok, n), a, b)
    ensures Handed(a0, b0, a, b)
    ensures Placed(a, tasks) && (|Taken(a0.queue, ok, n)| < n ==> Settled(a, ok))
    ensures forall q, t {:trigger t in a.queue[q]} :: 0 <= q < |a0.queue| && t in a0.queue[q] && t !in ok ==> t in a.queue[q]
  {
    var taken := Taken(a0.queue, ok, n);
    TakenExact(a0.queue, ok, n);
    MovingSizes(a0, b0, tasks, taken, a, b);
    HandedOver(a0, b0, tasks, taken, a, b);
    StillPlaced(a0, b0, tasks, taken, a, b);
    hide Taken, Moving, Handed, Placed, ArrayOk;
    forall q, t | 0 <= q < |a0.queue| ensures t in a.queue[q] <==> t in a0.queue[q] && t !in taken {
      Whereabouts(a0, b0, tasks, taken, a, b, q, t);
    }
  }

  lemma StillPlaced(a0: PrioArray, b0: PrioArray, tasks: Candidates, taken: seq<Tid>, a: PrioArray, b: PrioArray)
    requires Moving(a0, b0, tasks, taken, a, b)
    ensures Placed(a, tasks)
  {
    MovingSizes(a0, b0, tasks, taken, a, b);
    hide Moving, Drained, Filled, ArrayOk, Except;
    forall q, t | 0 <= q < |a.queue| && t in a.queue[q] ensures t in tasks && tasks[t].prio == q {
      LinesAt(a0, b0, tasks, taken, a, b, q);
      ExceptElems(a0.queue[q], taken);
      WasPlaced(a0, b0, tasks, taken, a, b, q, t);
    }
  }

  /** A task that was not in the array before may be there: it is not running, may use this CPU, and is cold unless the balancing is aggressive. */
  ghost predicate NewcomersMayBeHere(b0: PrioArray, b: PrioArray, tasks: Candidates, aggressive: bool) {
    forall q, t {:trigger t in b.queue[q]} :: 0 <= q < |b0.queue| && q < |b.queue| && t in b.queue[q] && t !in b0.queue[q] ==>
      t in tasks && tasks[t].prio == q && !tasks[t].running && tasks[t].allowed && (tasks[t].hot ==> aggressive)
  }

  /** Every task in the array has a reason to stay: it is running, may not use the other CPU, or is hot with the balancing not aggressive. */
  ghost predicate AllMustStay(a: PrioArray, tasks: Candidates, aggressive: bool) {
    forall q, t {:trigger t in a.queue[q]} :: 0 <= q < |a.queue| && t in a.queue[q] ==>
      t in tasks && (tasks[t].running || !tasks[t].allowed || (tasks[t].hot && !aggressive))
  }

  /** While a task that could have moved is left, those that left were in queues before its own or nearer the tail of its own. */
  ghost predicate TailFirst(a0: PrioArray, a: PrioArray, tasks: Candidates, aggressive: bool) {
    && |a.queue| == |a0.queue|
    && forall p, i, q, j {:trigger a0.queue[p][i], a0.queue[q][j]} ::
         (&& 0 <= p < |a0.queue| && 0 <= i < |a0.queue[p]| && 0 <= q < |a0.queue| && 0 <= j < |a0.queue[q]|
          && a0.queue[p][i] in tasks && CanMigrate(tasks[a0.queue[p][i]], aggressive)
          && a0.queue[p][i] in a.queue[p] && a0.queue[q][j] !in a.queue[q])
         ==> q < p || (q == p && j > i)
  }

  /** What the fields say about the scan of one array. */
  lemma ScanMeaning(a0: PrioArray, b0: PrioArray, tasks: Candidates, aggressive: bool, n: nat, a: PrioArray, b: PrioArray)
    requires Moving(a0, b0, tasks, Taken(a0.queue, Movable(tasks, aggressive), n), a, b)
    ensures NewcomersMayBeHere(b0, b, tasks, aggressive)
    ensures |Taken(a0.queue, Movable(tasks, aggressive), n)| < n ==> AllMustStay(a, tasks, aggressive)
    ensures TailFirst(a0, a, tasks, aggressive)
  {
    var ok := Movable(tasks, aggressive);
    hide Taken, Moving, Handed, ArrayOk, AllMustStay, Settled, Movable;
    ScanSettles(a0, b0, tasks, ok, n, a, b);
    if |Taken(a0.queue, ok, n)| < n { SettledMustStay(a, tasks, aggressive); }
    NewcomersOk(a0, b0, tasks, aggressive, n, a, b);
    OrderOk(a0, b0, tasks, aggressive, n, a, b);
  }

  lemma SettledMustStay(a: PrioArray, tasks: Candidates, aggressive: bool)
    requires Placed(a, tasks) && Settled(a, Movable(tasks, aggressive))
    ensures AllMustStay(a, tasks, aggressive)
  {
    forall q, t | 0 <= q < |a.queue| && t in a.queue[q]
      ensures t in tasks && (tasks[t].running || !tasks[t].allowed || (tasks[t].hot && !aggressive))
    {
      assert t !in Movable(tasks, aggressive);
    }
  }

  lemma NewcomersOk(a0: PrioArray, b0: PrioArray, tasks: Candidates, aggressive: bool, n: nat, a: PrioArray, b: PrioArray)
    requires Moving(a0, b0, tasks, Taken(a0.queue, Movable(tasks, aggressive), n), a, b)
    ensures NewcomersMayBeHere(b0, b, tasks, aggressive)
  {
    var ok := Movable(tasks, aggressive);
    var taken := Taken(a0.queue, ok, n);
    TakenExact(a0.queue, ok, n);
    MovingSizes(a0, b0, tasks, taken, a, b);
    hide Taken, Moving, ArrayOk, Drained, Filled;
    forall q, t | 0 <= q < |b0.queue| && t in b.queue[q] && t !in b0.queue[q]
      ensures t in tasks && tasks[t].prio == q && !tasks[t].running && tasks[t].allowed && (tasks[t].hot ==> aggressive)
    {
      Whereabouts(a0, b0, tasks, taken, a, b, q, t);
      WasPlaced(a0, b0, tasks, taken, a, b, q, t);
    }
  }

  lemma OrderOk(a0: PrioArray, b0: PrioArray, tasks: Candidates, aggressive: bool, n: nat, a: PrioArray, b: PrioArray)
    requires Moving(a0, b0, tasks, Taken(a0.queue, Movable(tasks, aggressive), n), a, b)
    ensures TailFirst(a0, a, tasks, aggressive)
  {
    var ok := Movable(tasks, aggressive);
    MovingSizes(a0, b0, tasks, Taken(a0.queue, ok, n), a, b);
    hide Taken, Moving, ArrayOk, Drained, Filled, CanMigrate;
    forall p, i, q, j | 0 <= p < |a0.queue| && 0 <= i < |a0.queue[p]| && 0 <= q < |a0.queue| && 0 <= j < |a0.queue[q]|
                        && a0.queue[p][i] in ok && a0.queue[p][i] in a.queue[p] && a0.queue[q][j] !in a.queue[q]
      ensures q < p || (q == p && j > i)
    {
      StayOrder(a0, b0, tasks, ok, n, a, b, p, i, q, j);
    }
  }

  lemma WasPlaced(a0: PrioArray, b0: PrioArray, tasks: Candidates, taken: seq<Tid>, a: PrioArray, b: PrioArray, q: int, t: Tid)
    requires Moving(a0, b0, tasks, taken, a, b) && 0 <= q < |a0.queue| && t in a0.queue[q]
    ensures t in tasks && tasks[t].prio == q
  {
  }

  lemma StayOrder(a0: PrioArray, b0: PrioArray, tasks: Candidates, ok: set<Tid>, n: nat, a: PrioArray, b: PrioArray, p: int, i: int, q: int, j: int)
    requires Moving(a0, b0, tasks, Taken(a0.queue, ok, n), a, b) && |a.queue| == |a0.queue| == |b.queue| == |b0.queue|
    requires 0 <= p < |a0.queue| && 0 <= i < |a0.queue[p]| && 0 <= q < |a0.queue| && 0 <= j < |a0.queue[q]|
    requires a0.queue[p][i] in ok && a0.queue[p][i] in a.queue[p] && a0.queue[q][j] !in a.queue[q]
    ensures q < p || (q == p && j > i)
  {
    var taken, x, y := Taken(a0.queue, ok, n), a0.queue[p][i], a0.queue[q][j];
    TakenExact(a0.queue, ok, n);
    Whereabouts(a0, b0, tasks, taken, a, b, p, x);
    Whereabouts(a0, b0, tasks, taken, a, b, q, y);
    TakenInOrder(a0.queue, ok, n, p, i);
    WasPlaced(a0, b0, tasks, taken, a, b, q, y);
    if y in a0.queue[p][i + 1..] {
      WasPlaced(a0, b0, tasks, taken, a, b, p, y);
      OnceThere(a0, b0, tasks, taken, a, b, p);
    } else {
      var r :| 0 <= r < p && y in a0.queue[r];
      WasPlaced(a0, b0, tasks, taken, a, b, r, y);
    }
  }

  lemma OnceThere(a0: PrioArray, b0: PrioArray, tasks: Candidates, taken: seq<Tid>, a: PrioArray, b: PrioArray, p: int)
    requires Moving(a0, b0, tasks, taken, a, b) && 0 <= p < |a0.queue|
    ensures NoDup(a0.queue[p])
  {
  }

  /** Both runqueues, their arrays distinct and their tasks where their priorities say, none on both. */
  ghost predicate Paired(src: CpuQueue, dst: CpuQueue, tasks: Candidates)
    reads src, dst, src.active, src.expired, dst.active, dst.expired
  {
    && src != dst && src.Valid() && dst.Valid()
    && {src.active, src.expired} !! {dst.active, dst.expired}
    && Placed(src.active.a, tasks) && Placed(src.expired.a, tasks)
    && Apart(src.active.a, dst.active.a) && Apart(src.expired.a, dst.expired.a)
  }

  /**
   `move_tasks`: with two or more tasks running there, the first `max` movable tasks on offer go over, in
   the order of the offer, or all of them when there are fewer.  The arrays, bitmaps and counts of both
   runqueues agree afterwards.  Who comes may run here, who stays although more were allowed may not, and
   no active task comes while an expired one could.
   */
  method MoveTasks(src: CpuQueue, dst: CpuQueue, tasks: Candidates, aggressive: bool, max: nat) returns (pulled: nat)
    requires Paired(src, dst, tasks)
    modifies src`nrRunning, dst`nrRunning, src.active, src.expired, dst.active, dst.expired
    ensures Paired(src, dst, tasks) && pulled <= max
    ensures src.nrRunning == old(src.nrRunning) - pulled && dst.nrRunning == old(dst.nrRunning) + pulled
    ensures var ok, n := Movable(tasks, aggressive), if old(src.nrRunning) <= 1 then 0 else max;
            var e := Taken(old(src.expired.a.queue), ok, n);
            var a := Taken(old(src.active.a.queue), ok, n - |e|);
            && pulled == |e| + |a|
            && Drained(old(src.expired.a), e, src.expired.a) && Filled(old(dst.expired.a), e, tasks, dst.expired.a)
            && Drained(old(src.active.a), a, src.active.a) && Filled(old(dst.active.a), a, tasks, dst.active.a)
            && (pulled < n ==> Settled(src.expired.a, ok) && Settled(src.active.a, ok))
    ensures Handed(old(src.expired.a), old(dst.expired.a), src.expired.a, dst.expired.a)
    ensures Handed(old(src.active.a), old(dst.active.a), src.active.a, dst.active.a)
    ensures old(src.nrRunning) <= 1 ==> pulled == 0
    ensures NewcomersMayBeHere(old(dst.expired.a), dst.expired.a, tasks, aggressive)
    ensures NewcomersMayBeHere(old(dst.active.a), dst.active.a, tasks, aggressive)
    ensures pulled < max && old(src.nrRunning) > 1 ==>
              AllMustStay(src.expired.a, tasks, aggressive) && AllMustStay(src.active.a, tasks, aggressive)
    ensures TailFirst(old(src.expired.a), src.expired.a, tasks, aggressive) && TailFirst(old(src.active.a), src.active.a, tasks, aggressive)
    ensures src.active.a.nr < old(src.active.a.nr) ==> AllMustStay(src.expired.a, tasks, aggressive)
    ensures forall q, t :: 0 <= q < MAX_PRIO && t in tasks && tasks[t].running ==>
              && (t in old(src.expired.a.queue)[q] ==> t in src.expired.a.queue[q])
              && (t in old(src.active.a.queue)[q] ==> t in src.active.a.queue[q])
  {
    hide ArrayOk, Drained, Filled, Placed, Apart, Taken, Handed, Settled, CanMigrate, Movable, Moving, NewcomersMayBeHere, AllMustStay, TailFirst;
    ghost var ok, n := Movable(tasks, aggressive), if src.nrRunning <= 1 then 0 else max;
    ghost var e0, a0, f0, b0 := src.expired.a, src.active.a, dst.expired.a, dst.active.a;
    ghost var e := Taken(e0.queue, ok, n);
    TakenLength(e0.queue, ok, n);
    ghost var a := Taken(a0.queue, ok, n - |e|);
    TakenLength(a0.queue, ok, n - |e|);
    pulled := PullBoth(src, dst, tasks, aggressive, max);
    ScanSettles(e0, f0, tasks, ok, n, src.expired.a, dst.expired.a);
    ScanSettles(a0, b0, tasks, ok, n - |e|, src.active.a, dst.active.a);
    ScanMeaning(e0, f0, tasks, aggressive, n, src.expired.a, dst.expired.a);
    ScanMeaning(a0, b0, tasks, aggressive, n - |e|, src.active.a, dst.active.a);
    MovingSizes(e0, f0, tasks, e, src.expired.a, dst.expired.a);
    MovingSizes(a0, b0, tasks, a, src.active.a, dst.active.a);
    HandedApart(e0, f0, src.expired.a, dst.expired.a);
    HandedApart(a0, b0, src.active.a, dst.active.a);
    NoRunning(tasks, aggressive);
  }

  lemma NoRunning(tasks: Candidates, aggressive: bool)
    ensures forall t :: t in tasks && tasks[t].running ==> t !in Movable(tasks, aggressive)
  {
  }

  lemma HandedApart(a0: PrioArray, b0: PrioArray, a: PrioArray, b: PrioArray)
    requires Handed(a0, b0, a, b)
    ensures Apart(a, b)
  {
  }

  /** First the expired tasks, then the active ones. */
  method PullBoth(src: CpuQueue, dst: CpuQueue, tasks: Candidates, aggressive: bool, max: nat) returns (pulled: nat)
    requires Paired(src, dst, tasks)
    modifies src`nrRunning, dst`nrRunning, src.active, src.expired, dst.active, dst.expired
    ensures src.nrRunning == old(src.nrRunning) - pulled && dst.nrRunning == old(dst.nrRunning) + pulled
    ensures var ok, n := Movable(tasks, aggressive), if old(src.nrRunning) <= 1 then 0 else max;
            var e := Taken(old(src.expired.a.queue), ok, n);
            var a := Taken(old(src.active.a.queue), ok, n - |e|);
            && pulled == |e| + |a|
            && Moving(old(src.expired.a), old(dst.expired.a), tasks, e, src.expired.a, dst.expired.a)
            && Moving(old(src.active.a), old(dst.active.a), tasks, a, src.active.a, dst.active.a)
  {
    hide ArrayOk, Drained, Filled, Placed, Apart, Taken, CanMigrate, Movable, Moving;
    ghost var ok, n := Movable(tasks, aggressive), if src.nrRunning <= 1 then 0 else max;
    ghost var e0, a0, f0, b0 := src.expired.a, src.active.a, dst.expired.a, dst.active.a;
    ghost var e := Taken(e0.queue, ok, n);
    TakenLength(e0.queue, ok, n);
    MovingStart(e0, f0, tasks);
    MovingStart(a0, b0, tasks);
    pulled := 0;
    if max > 0 && src.nrRunning > 1 {
      if src.expired.a.nr != 0 {
        pulled := PullArray(src, src.expired, dst, dst.expired, tasks, aggressive, pulled, max);
      } else {
        NothingOffered(e0, ok, n);
      }
      if pulled < max {
        if src.active.a.nr != 0 {
          pulled := PullArray(src, src.active, dst, dst.active, tasks, aggressive, pulled, max);
        } else {
          NothingOffered(a0, ok, n - |e|);
        }
      } else {
        NoneAllowed(a0.queue, ok);
      }
    } else {
      NoneAllowed(e0.queue, ok);
      NoneAllowed(a0.queue, ok);
    }
  }

  lemma NoneAllowed(queue: seq<seq<Tid>>, ok: set<Tid>)
    ensures Taken(queue, ok, 0) == []
  {
  }
}
