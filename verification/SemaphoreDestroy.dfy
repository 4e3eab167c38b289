/**
 What `sthread_sem_destroy` does to the others: it keeps the lock for ever exactly when units are out,
 and, when it succeeds, it strands exactly the sleepers that have no unread wake token.
 */
module SemaphoreDestroy {
  import opened Options
  import opened Semaphore

  /** States that follow each other by steps of any threads. */
  ghost predicate Path(ss: seq<State>) {
    |ss| > 0 && forall i :: 0 <= i < |ss| - 1 ==> Moves(ss[i], ss[i + 1])
  }

  ghost predicate Reaches(s: State, s': State) {
    exists ss :: Path(ss) && ss[0] == s && ss[|ss| - 1] == s'
  }

  lemma ReachSelf(s: State)
    ensures Reaches(s, s)
  {
    assert Path([s]);
  }

  /** One more step. */
  lemma ReachNext(a: State, b: State, t: Tid, c: State)
    requires Reaches(a, b) && Step(b, t, c)
    ensures Reaches(a, c)
  {
    hide Step;
    var ss :| Path(ss) && ss[0] == a && ss[|ss| - 1] == b;
    assert Moves(b, c) by { StepMoves(b, t, c); }
    var all := ss + [c];
    forall i | 0 <= i < |all| - 1 ensures Moves(all[i], all[i + 1]) {
      if i < |ss| - 1 { assert Moves(ss[i], ss[i + 1]); }
    }
    assert Path(all);
  }

  lemma StepMoves(b: State, t: Tid, c: State)
    requires Step(b, t, c)
    ensures Moves(b, c)
  {
    assert t in b.pc;
  }

  lemma {:induction false} PathKeepsInv(ss: seq<State>, i: nat)
    requires Path(ss) && Inv(ss[0]) && i < |ss|
    ensures Inv(ss[i])
    decreases i
  {
    hide Inv, Step;
    if i > 0 {
      PathKeepsInv(ss, i - 1);
      assert Moves(ss[i - 1], ss[i - 1 + 1]);
      var t :| t in ss[i - 1].pc && Step(ss[i - 1], t, ss[i]);
      StepKeepsInv(ss[i - 1], t, ss[i]);
    }
  }

  // ---------------------------------------------------------------- a failing destroy

  /** From then on the lock is held for ever, and no `down` or `up` completes. */
  lemma {:induction false} WedgedForever(ss: seq<State>, u: Tid, i: nat)
    requires Path(ss) && Inv(ss[0]) && u in ss[0].pc && ss[0].pc[u] == Wedged && i < |ss|
    ensures ss[i].lock == Some(u) && u in ss[i].pc && ss[i].pc[u] == Wedged
    ensures ss[i].downs == ss[0].downs && ss[i].ups == ss[0].ups
    decreases i
  {
    hide Step;
    if i == 0 {
      assert ThreadOk(ss[0], u);
    } else {
      hide Inv;
      WedgedForever(ss, u, i - 1);
      PathKeepsInv(ss, i - 1);
      assert Moves(ss[i - 1], ss[i - 1 + 1]);
      var t :| t in ss[i - 1].pc && Step(ss[i - 1], t, ss[i]);
      FailedDestroyWedges(ss[i - 1], u, t, ss[i]);
    }
  }

  /** Thread `u` is in, or past, a destroy that finds units out. */
  ghost predicate Doomed(s: State, u: Tid) {
    && s.lock == Some(u) && u in s.pc
    && (s.pc[u] == Wedged || (s.pc[u] == DestroyIn && !s.destroyed && s.count != s.initial))
  }

  lemma DoomedStep(s: State, u: Tid, t: Tid, s': State)
    requires Inv(s) && Doomed(s, u) && Step(s, t, s')
    ensures Doomed(s', u)
  {
    if t != u {
      hide Step, Linked, TailOk, WakeOk;
      assert ThreadOk(s, t);
      StepKeepsInv(s, t, s');
    } else {
      OwnDoomedStep(s, u, s');
    }
  }

  lemma OwnDoomedStep(s: State, u: Tid, s': State)
    requires Doomed(s, u) && Step(s, u, s')
    ensures Doomed(s', u)
  {
    if s.pc[u] == Wedged { WedgedStays(s, u, s'); }
  }

  lemma {:induction false} DoomedForever(ss: seq<State>, u: Tid, i: nat)
    requires Path(ss) && Inv(ss[0]) && Doomed(ss[0], u) && i < |ss|
    ensures Doomed(ss[i], u)
    decreases i
  {
    hide Step, Inv, Doomed;
    if i > 0 {
      DoomedForever(ss, u, i - 1);
      PathKeepsInv(ss, i - 1);
      assert Moves(ss[i - 1], ss[i - 1 + 1]);
      var t :| t in ss[i - 1].pc && Step(ss[i - 1], t, ss[i]);
      DoomedStep(ss[i - 1], u, t, ss[i]);
    }
  }

  /** A destroy at the initial count unlocks. */
  lemma DestroyReleases(s: State, u: Tid) returns (s': State)
    requires u in s.pc && s.pc[u] == DestroyIn && !s.destroyed && s.count == s.initial
    ensures Reaches(s, s') && s' == s.(pc := s.pc[u := Idle], lock := None, destroyed := true)
  {
    var s1 := To(s, u, Leave(false)).(destroyed := true);
    s' := To(s1, u, Idle).(lock := None);
    assert Destroy(s, u, s1);
    assert Unlock(s1, u, s');
    ReachSelf(s);
    hide Reaches;
    ReachNext(s, s, u, s1);
    ReachNext(s, s1, u, s');
    assert s'.pc == s.pc[u := Idle];
  }

  /**
   A destroy under way ever releases the lock exactly when the count is back at its initial value,
   that is, when every completed `down` has been answered by an `up`.
   */
  lemma DestroyExact(s: State, u: Tid)
    requires Inv(s) && u in s.pc && s.pc[u] == DestroyIn && !s.destroyed
    ensures s.count == s.initial <==> s.ups == s.downs
    ensures (exists s' :: Reaches(s, s') && s'.lock == None) <==> s.count == s.initial
  {
    if s.count == s.initial {
      var s' := DestroyReleases(s, u);
      assert Reaches(s, s') && s'.lock == None;
    } else {
      assert ThreadOk(s, u);
      assert Doomed(s, u);
      hide Inv;
      forall s' | Reaches(s, s') ensures s'.lock != None {
        var ss :| Path(ss) && ss[0] == s && ss[|ss| - 1] == s';
        DoomedForever(ss, u, |ss| - 1);
      }
    }
  }

  // ---------------------------------------------------------------- paths of single calls

  /** `try_down` on an available semaphore. */
  lemma TryDownPath(s: State, t: Tid) returns (s': State)
    requires t in s.pc && s.pc[t] == Idle && s.lock == None && !s.destroyed && Avail(s)
    ensures Reaches(s, s') && s' == s.(count := s.count - 1, downs := s.downs + 1)
  {
    var s1 := To(s, t, TryLock(false));
    var s2 := To(s1, t, TryIn(false)).(lock := Some(t));
    var s3 := To(s2, t, Leave(false)).(count := s.count - 1, downs := s.downs + 1);
    s' := To(s3, t, Idle).(lock := None);
    assert Call(s, t, s1) && Lock(s1, t, s2) && Grab(s2, t, s3) && Unlock(s3, t, s');
    FourMoves(t, s, s1, s2, s3, s');
    assert s'.pc == s.pc;
  }

  lemma FourMoves(t: Tid, a: State, b: State, c: State, d: State, e: State)
    requires Step(a, t, b) && Step(b, t, c) && Step(c, t, d) && Step(d, t, e)
    ensures Reaches(a, e)
  {
    hide Step, Reaches;
    ReachSelf(a);
    ReachNext(a, a, t, b);
    ReachNext(a, b, t, c);
    ReachNext(a, c, t, d);
    ReachNext(a, d, t, e);
  }

  lemma ReachTrans(a: State, b: State, c: State)
    requires Reaches(a, b) && Reaches(b, c)
    ensures Reaches(a, c)
  {
    var ss :| Path(ss) && ss[0] == a && ss[|ss| - 1] == b;
    var us :| Path(us) && us[0] == b && us[|us| - 1] == c;
    var all := ss + us[1..];
    hide Moves;
    forall i | 0 <= i < |all| - 1 ensures Moves(all[i], all[i + 1]) {
      if i < |ss| - 1 {
        assert Moves(ss[i], ss[i + 1]);
      } else {
        assert Moves(us[i - |ss| + 1], us[i - |ss| + 2]);
      }
    }
    assert Path(all);
  }

  /** The call of destroy, up to the test of the count. */
  lemma DestroyEnters(s: State, u: Tid) returns (s': State)
    requires u in s.pc && s.pc[u] == Idle && s.lock == None
    ensures Reaches(s, s') && s' == s.(pc := s.pc[u := DestroyIn], lock := Some(u))
  {
    var s1 := To(s, u, DestroyLock);
    s' := To(s1, u, DestroyIn).(lock := Some(u));
    assert Call(s, u, s1) && Lock(s1, u, s');
    ReachSelf(s);
    hide Reaches, Step;
    ReachNext(s, s, u, s1);
    ReachNext(s, s1, u, s');
    assert s'.pc == s.pc[u := DestroyIn];
  }

  /** On every fresh semaphore: one thread takes a unit, another one destroys, and the lock is lost. */
  lemma WedgeHappens(s0: State, t: Tid, u: Tid) returns (s: State)
    requires Init(s0) && t in s0.pc && u in s0.pc && t != u
    ensures Reaches(s0, s) && u in s.pc && s.pc[u] == Wedged && s.lock == Some(u)
  {
    var s1 := TryDownPath(s0, t);
    var s2 := DestroyEnters(s1, u);
    s := To(s2, u, Wedged).(destroyed := true);
    assert Destroy(s2, u, s);
    hide Reaches, Step;
    ReachTrans(s0, s1, s2);
    ReachNext(s0, s2, u, s);
  }

  // ---------------------------------------------------------------- a destroy that succeeds

  /** Once destroyed, nobody is about to wake a waiter. */
  lemma NoWaker(s: State, t: Tid)
    requires Inv(s) && s.destroyed && t in s.pc
    ensures !s.pc[t].UpWake? && !s.pc[t].Fix? && !s.pc[t].Take? && !s.pc[t].Unlink? && !s.pc[t].Enq2? && !s.pc[t].Release?
  {
    assert ThreadOk(s, t);
  }

  /** Asleep without a wake token on a destroyed semaphore. */
  ghost predicate Stranded(s: State, w: Tid) {
    s.destroyed && w in s.pc && s.pc[w].Sleep? && (w in s.tokens ==> s.tokens[w] == 0)
  }

  lemma StrandedStep(s: State, w: Tid, t: Tid, s': State)
    requires Inv(s) && Stranded(s, w) && Step(s, t, s')
    ensures Stranded(s', w)
  {
    NoWaker(s, t);
    hide Inv, Step;
    StepKeepsInv(s, t, s');
    if t == w { SleeperStays(s, w, s'); }
  }

  lemma SleeperStays(s: State, w: Tid, s': State)
    requires w in s.pc && s.pc[w].Sleep? && (w in s.tokens ==> s.tokens[w] == 0)
    ensures !Step(s, w, s')
  {
  }

  lemma {:induction false} StrandedForever(ss: seq<State>, w: Tid, i: nat)
    requires Path(ss) && Inv(ss[0]) && Stranded(ss[0], w) && i < |ss|
    ensures Stranded(ss[i], w)
    decreases i
  {
    hide Step, Inv, Stranded;
    if i > 0 {
      StrandedForever(ss, w, i - 1);
      PathKeepsInv(ss, i - 1);
      assert Moves(ss[i - 1], ss[i - 1 + 1]);
      var t :| t in ss[i - 1].pc && Step(ss[i - 1], t, ss[i]);
      StrandedStep(ss[i - 1], w, t, ss[i]);
    }
  }

  /** A sleeper with a token wakes, finds the semaphore destroyed and returns. */
  lemma WokenReturns(s: State, w: Tid) returns (s': State)
    requires s.destroyed && s.lock == None && w in s.pc && s.pc[w].Sleep? && w in s.tokens && s.tokens[w] > 0
    ensures Reaches(s, s') && w in s'.pc && s'.pc[w] == Idle
  {
    var q := s.pc[w].q;
    var s1 := To(s, w, Relock(q)).(tokens := s.tokens[w := s.tokens[w] - 1]);
    var s2 := To(s1, w, Recheck(q)).(lock := Some(w));
    var s3 := To(s2, w, Leave(false));
    s' := To(s3, w, Idle).(lock := None);
    assert WakeUp(s, w, s1) && Lock(s1, w, s2) && GiveUp(s2, w, s3) && Unlock(s3, w, s');
    FourMoves(w, s, s1, s2, s3, s');
  }

  /** After a successful destroy a sleeping waiter can ever return exactly when it has an unread wake token. */
  lemma StrandedExact(s: State, w: Tid)
    requires Inv(s) && s.destroyed && s.lock == None && w in s.pc && s.pc[w].Sleep?
    ensures (exists s' :: Reaches(s, s') && w in s'.pc && s'.pc[w] == Idle) <==> w in s.tokens && s.tokens[w] > 0
  {
    if w in s.tokens && s.tokens[w] > 0 {
      var s' := WokenReturns(s, w);
      assert Reaches(s, s') && w in s'.pc && s'.pc[w] == Idle;
    } else {
      assert Stranded(s, w);
      hide Inv;
      forall s' | Reaches(s, s') ensures w in s'.pc && s'.pc[w].Sleep? {
        var ss :| Path(ss) && ss[0] == s && ss[|ss| - 1] == s';
        StrandedForever(ss, w, |ss| - 1);
      }
    }
  }

  /** `down` on a semaphore that is not available, until the caller sleeps; `q` is its node. */
  lemma DownSleeps(s: State, t: Tid, q: Ptr) returns (s': State)
    requires t in s.pc && s.pc[t] == Idle && s.lock == None && !s.destroyed && !Avail(s) && q !in s.nodes
    ensures Reaches(s, s')
    ensures s' == s.(pc := s.pc[t := Sleep(q)], head := StoreHead(s, s.tail, q), tail := NextOf(q), nodes := s'.nodes, enq := s.enq + [q])
    ensures s'.nodes.Keys == s.nodes.Keys + {q} && s'.nodes[q].thread == t && forall x :: x in s.nodes ==> x in s'.nodes && s'.nodes[x].thread == s.nodes[x].thread
  {
    var s1 := DownAllocates(s, t, q);
    s' := DownEnqueues(s1, t, q);
    hide Reaches;
    ReachTrans(s, s1, s');
    assert s1.pc[t := Sleep(q)] == s.pc[t := Sleep(q)];
  }

  lemma DownAllocates(s: State, t: Tid, q: Ptr) returns (s': State)
    requires t in s.pc && s.pc[t] == Idle && s.lock == None && !s.destroyed && !Avail(s) && q !in s.nodes
    ensures Reaches(s, s') && s' == s.(pc := s.pc[t := DownLock(q)], nodes := s.nodes[q := Node(t, None)])
  {
    var s1 := DownTries(s, t);
    s' := To(s1, t, DownLock(q)).(nodes := s.nodes[q := Node(t, None)]);
    assert MakeNode(s1, t, s');
    hide Reaches, Step;
    ReachNext(s, s1, t, s');
    assert s'.pc == s.pc[t := DownLock(q)];
  }

  /** The attempt without blocking fails. */
  lemma DownTries(s: State, t: Tid) returns (s': State)
    requires t in s.pc && s.pc[t] == Idle && s.lock == None && !s.destroyed && !Avail(s)
    ensures Reaches(s, s') && s' == s.(pc := s.pc[t := Alloc])
  {
    var s1 := To(s, t, TryLock(true));
    var s2 := To(s1, t, TryIn(true)).(lock := Some(t));
    var s3 := To(s2, t, Leave(true));
    s' := To(s3, t, Alloc).(lock := None);
    assert Call(s, t, s1) && Lock(s1, t, s2) && GiveUp(s2, t, s3) && Unlock(s3, t, s');
    FourMoves(t, s, s1, s2, s3, s');
    assert s'.pc == s.pc[t := Alloc];
  }

  lemma DownEnqueues(s: State, t: Tid, q: Ptr) returns (s': State)
    requires t in s.pc && s.pc[t] == DownLock(q) && s.lock == None && !s.destroyed && !Avail(s)
    ensures Reaches(s, s')
    ensures s' == s.(pc := s.pc[t := Sleep(q)], head := StoreHead(s, s.tail, q), tail := NextOf(q), nodes := StoreNext(s, s.tail, q), enq := s.enq + [q])
  {
    var s1 := To(s, t, DownIn(q)).(lock := Some(t));
    var s2 := To(s1, t, Enq1(q));
    assert Lock(s, t, s1) && GiveUp(s1, t, s2);
    s' := LinksAndSleeps(s2, t, q);
    ReachSelf(s);
    hide Reaches, Step;
    ReachNext(s, s, t, s1);
    ReachNext(s, s1, t, s2);
    ReachTrans(s, s2, s');
    assert s2.pc[t := Sleep(q)] == s.pc[t := Sleep(q)];
  }

  lemma LinksAndSleeps(s: State, t: Tid, q: Ptr) returns (s': State)
    requires t in s.pc && s.pc[t] == Enq1(q)
    ensures Reaches(s, s')
    ensures s' == s.(pc := s.pc[t := Sleep(q)], lock := None, head := StoreHead(s, s.tail, q), tail := NextOf(q),
                     nodes := StoreNext(s, s.tail, q), enq := s.enq + [q])
  {
    hide StoreHead, StoreNext;
    var s1 := To(s, t, Enq2(q)).(head := StoreHead(s, s.tail, q), nodes := StoreNext(s, s.tail, q), enq := s.enq + [q]);
    var s2 := To(s1, t, Release(q)).(tail := NextOf(q));
    s' := To(s2, t, Sleep(q)).(lock := None);
    assert LinkIn(s, t, s1) && MoveTail(s1, t, s2) && Unlock(s2, t, s');
    ReachSelf(s);
    hide Reaches, Step;
    ReachNext(s, s, t, s1);
    ReachNext(s, s1, t, s2);
    ReachNext(s, s2, t, s');
    assert s'.pc == s.pc[t := Sleep(q)];
  }

  /** `up` with a waiter at the head of the queue. */
  lemma UpWakes(s: State, t: Tid) returns (s': State)
    requires t in s.pc && s.pc[t] == Idle && s.lock == None && !s.destroyed && s.head.Some?
    ensures Reaches(s, s') && s' == Wake(s, ThreadOf(s, s.head.value)).(count := s.count + 1, ups := s.ups + 1)
  {
    var s1 := UpEnters(s, t);
    s' := UpPasses(s1, t);
    hide Reaches;
    ReachTrans(s, s1, s');
    assert s1.pc[t := Idle] == s.pc;
  }

  lemma UpEnters(s: State, t: Tid) returns (s': State)
    requires t in s.pc && s.pc[t] == Idle && s.lock == None && !s.destroyed
    ensures Reaches(s, s') && s' == s.(pc := s.pc[t := UpWake], lock := Some(t), count := s.count + 1, ups := s.ups + 1)
  {
    var s1 := To(s, t, UpLock);
    var s2 := To(s1, t, UpIn).(lock := Some(t));
    s' := To(s2, t, UpWake).(count := s.count + 1, ups := s.ups + 1);
    assert Call(s, t, s1) && Lock(s1, t, s2) && Increment(s2, t, s');
    ReachSelf(s);
    hide Reaches, Step;
    ReachNext(s, s, t, s1);
    ReachNext(s, s1, t, s2);
    ReachNext(s, s2, t, s');
    assert s'.pc == s.pc[t := UpWake];
  }

  lemma UpPasses(s: State, t: Tid) returns (s': State)
    requires t in s.pc && s.pc[t] == UpWake && s.head.Some?
    ensures Reaches(s, s') && s' == Wake(s, ThreadOf(s, s.head.value)).(pc := s.pc[t := Idle], lock := None)
  {
    var s1 := Wake(To(s, t, Leave(false)), ThreadOf(s, s.head.value));
    s' := To(s1, t, Idle).(lock := None);
    assert PassOn(s, t, s1) && Unlock(s1, t, s');
    ReachSelf(s);
    hide Reaches, Step;
    ReachNext(s, s, t, s1);
    ReachNext(s, s1, t, s');
    assert s'.pc == s.pc[t := Idle];
  }

  /**
   The input for which a successful destroy strands a waiter: one unit; `t` takes it, `v` and `w` queue
   up, `t` gives the unit back, which wakes `v`, and `u` destroys before `v` runs.
   */
  lemma StrandHappens(s0: State, t: Tid, u: Tid, v: Tid, w: Tid) returns (s: State)
    requires Init(s0) && s0.initial == 1 && {t, u, v, w} <= s0.pc.Keys && t != u && t != v && t != w && u != v && u != w && v != w
    ensures Reaches(s0, s) && s.lock == None && Stranded(s, w)
  {
    hide Reaches;
    var s1 := TryDownPath(s0, t);
    var s2 := DownSleeps(s1, v, 1);
    var s3 := DownSleeps(s2, w, 2);
    var s4 := UpWakes(s3, t);
    var s5 := DestroyEnters(s4, u);
    s := DestroyReleases(s5, u);
    ReachTrans(s0, s1, s2);
    ReachTrans(s0, s2, s3);
    ReachTrans(s0, s3, s4);
    ReachTrans(s0, s4, s5);
    ReachTrans(s0, s5, s);
  }
}
