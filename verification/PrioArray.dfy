/** `prio_array_t`: one FIFO queue per priority, a bitmap of the non-empty ones and a count. */
module PrioArrays {
  import opened Seqs

  const MAX_RT_PRIO: int := 100
  const MAX_PRIO: int := 140

  type Tid = int

  datatype PrioArray = PrioArray(nr: int, bitmap: set<int>, queue: seq<seq<Tid>>)

  function Sizes(queue: seq<seq<Tid>>): (n: int)
    ensures n >= 0
  {
    if queue == [] then 0 else Sizes(queue[..|queue| - 1]) + |queue[|queue| - 1]|
  }

  /** Bits mark exactly the non-empty queues, and the count is the number of queued tasks. */
  ghost predicate ArrayOk(a: PrioArray) {
    && |a.queue| == MAX_PRIO && a.nr == Sizes(a.queue)
    && (forall q :: q in a.bitmap <==> 0 <= q < MAX_PRIO && a.queue[q] != [])
    && (forall q :: 0 <= q < MAX_PRIO ==> NoDup(a.queue[q]))
  }

  function Empty(): PrioArray { PrioArray(0, {}, seq(MAX_PRIO, _ => [])) }

  /** `enqueue_task` */
  function Enqueue(a: PrioArray, t: Tid, prio: int): PrioArray
    requires 0 <= prio < |a.queue|
  {
    PrioArray(a.nr + 1, a.bitmap + {prio}, a.queue[prio := a.queue[prio] + [t]])
  }

  /** `dequeue_task` */
  function Dequeue(a: PrioArray, t: Tid, prio: int): PrioArray
    requires 0 <= prio < |a.queue|
  {
    var l := Without(a.queue[prio], t);
    PrioArray(a.nr - 1, if l == [] then a.bitmap - {prio} else a.bitmap, a.queue[prio := l])
  }

  /** `requeue_task` */
  function Requeue(a: PrioArray, t: Tid, prio: int): PrioArray
    requires 0 <= prio < |a.queue|
  {
    a.(queue := a.queue[prio := Without(a.queue[prio], t) + [t]])
  }

  /** The list with `x` put in front of `y`. */
  function Before(l: seq<Tid>, x: Tid, y: Tid): seq<Tid> {
    if l == [] then [x] else if l[0] == y then [x] + l else [l[0]] + Before(l[1..], x, y)
  }

  /** A new child joins the queue of its parent, in front of it; the bit is already set. */
  function Join(a: PrioArray, x: Tid, parent: Tid, prio: int): PrioArray
    requires 0 <= prio < |a.queue|
  {
    a.(nr := a.nr + 1, queue := a.queue[prio := Before(a.queue[prio], x, parent)])
  }

  lemma {:induction false} SizesUpdate(queue: seq<seq<Tid>>, q: int, l: seq<Tid>)
    requires 0 <= q < |queue|
    ensures Sizes(queue[q := l]) == Sizes(queue) + |l| - |queue[q]|
  {
    var n := |queue| - 1;
    if q < n {
      SizesUpdate(queue[..n], q, l);
      assert queue[q := l][..n] == queue[..n][q := l];
    } else {
      assert queue[q := l][..n] == queue[..n];
    }
  }

  lemma {:induction false} SizeAtLeast(queue: seq<seq<Tid>>, q: int)
    requires 0 <= q < |queue|
    ensures |queue[q]| <= Sizes(queue)
  {
    var n := |queue| - 1;
    if q < n { SizeAtLeast(queue[..n], q); }
  }

  /** A positive count means that some queue, hence some bit, is there; zero means none is. */
  lemma {:induction false} SomeQueue(queue: seq<seq<Tid>>)
    ensures Sizes(queue) > 0 <==> exists q :: 0 <= q < |queue| && queue[q] != []
  {
    if queue != [] {
      var n := |queue| - 1;
      SomeQueue(queue[..n]);
      if q :| 0 <= q < n && queue[..n][q] != [] { assert queue[q] != []; }
      if q :| 0 <= q < |queue| && queue[q] != [] {
        SizeAtLeast(queue, q);
        if q < n { assert queue[..n][q] != []; }
      }
    }
  }

  lemma EmptyOk()
    ensures ArrayOk(Empty())
  {
    NoSizes(Empty().queue);
  }

  lemma {:induction false} NoSizes(queue: seq<seq<Tid>>)
    requires forall q :: 0 <= q < |queue| ==> queue[q] == []
    ensures Sizes(queue) == 0
  {
    if queue != [] { NoSizes(queue[..|queue| - 1]); }
  }

  lemma EnqueueOk(a: PrioArray, t: Tid, prio: int)
    requires ArrayOk(a) && 0 <= prio < MAX_PRIO && t !in a.queue[prio]
    ensures ArrayOk(Enqueue(a, t, prio))
  {
    SizesUpdate(a.queue, prio, a.queue[prio] + [t]);
  }

  lemma DequeueOk(a: PrioArray, t: Tid, prio: int)
    requires ArrayOk(a) && 0 <= prio < MAX_PRIO && t in a.queue[prio]
    ensures ArrayOk(Dequeue(a, t, prio)) && a.nr > 0
    ensures forall x :: x in Dequeue(a, t, prio).queue[prio] <==> x in a.queue[prio] && x != t
  {
    WithoutIsDelete(a.queue[prio], t);
    SizesUpdate(a.queue, prio, Without(a.queue[prio], t));
    SizeAtLeast(a.queue, prio);
  }

  lemma RequeueOk(a: PrioArray, t: Tid, prio: int)
    requires ArrayOk(a) && 0 <= prio < MAX_PRIO && t in a.queue[prio]
    ensures ArrayOk(Requeue(a, t, prio))
    ensures forall x :: x in Requeue(a, t, prio).queue[prio] <==> x in a.queue[prio]
  {
    WithoutIsDelete(a.queue[prio], t);
    SizesUpdate(a.queue, prio, Without(a.queue[prio], t) + [t]);
  }

  lemma {:induction false} BeforeIsInsert(l: seq<Tid>, x: Tid, y: Tid)
    requires NoDup(l) && x !in l
    ensures NoDup(Before(l, x, y)) && |Before(l, x, y)| == |l| + 1
    ensures forall z :: z in Before(l, x, y) <==> z in l || z == x
  {
    if l != [] {
      assert l == [l[0]] + l[1..];
      if l[0] != y {
        var r := Before(l[1..], x, y);
        BeforeIsInsert(l[1..], x, y);
        forall i, j | 0 <= i < j < |r| + 1 ensures ([l[0]] + r)[i] != ([l[0]] + r)[j] {
          assert r[j - 1] in r;
        }
      }
    }
  }

  lemma JoinOk(a: PrioArray, x: Tid, parent: Tid, prio: int)
    requires ArrayOk(a) && 0 <= prio < MAX_PRIO && parent in a.queue[prio] && x !in a.queue[prio]
    ensures ArrayOk(Join(a, x, parent, prio))
    ensures forall z :: z in Join(a, x, parent, prio).queue[prio] <==> z in a.queue[prio] || z == x
  {
    BeforeIsInsert(a.queue[prio], x, parent);
    SizesUpdate(a.queue, prio, Before(a.queue[prio], x, parent));
  }

  /** `sched_find_first_bit`: the lowest set bit, or MAX_PRIO. */
  method FindFirstBit(bitmap: set<int>) returns (idx: int)
    ensures 0 <= idx <= MAX_PRIO && (idx < MAX_PRIO ==> idx in bitmap)
    ensures forall q :: 0 <= q < idx ==> q !in bitmap
  {
    idx := 0;
    while idx < MAX_PRIO && idx !in bitmap
      invariant 0 <= idx <= MAX_PRIO && forall q :: 0 <= q < idx ==> q !in bitmap
    {
      idx := idx + 1;
    }
  }
}
