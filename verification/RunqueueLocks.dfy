/**
 Runqueue spin locks on any number of CPUs.  A lock is identified by the address of its runqueue.
 The paths: one lock (`task_rq_lock`, `load_balance`), two locks in ascending order
 (`double_rq_lock`), and a second lock taken while holding one (`double_lock_balance`: trylock,
 and on failure either wait upwards or let go and start again in order).
 */
module RunqueueLocks {
  import opened Options
  import opened WaitGraph

  type Rq = int
  type Cpu = int

  datatype PC =
    | Idle
    | Want(a: Rq)
    | One(a: Rq)
    | Try(a: Rq, b: Rq)       // holds a, about to trylock b
    | Above(a: Rq, b: Rq)     // holds a, the trylock failed, b is above a
    | Restart(a: Rq, b: Rq)   // has let a go, b is below a
    | Ordered(a: Rq, b: Rq)   // holds a, waits for b
    | LowFirst(a: Rq, b: Rq)  // waits for a, then b
    | Both(a: Rq, b: Rq)

  type State = map<Cpu, PC>

  function Held(p: PC): set<Rq> {
    match p
    case Idle => {}
    case Want(_) => {}
    case One(a) => {a}
    case Try(a, _) => {a}
    case Above(a, _) => {a}
    case Restart(_, _) => {}
    case Ordered(a, _) => {a}
    case LowFirst(_, _) => {}
    case Both(a, b) => {a, b}
  }

  function Waits(p: PC): Option<Rq> {
    match p
    case Want(a) => Some(a)
    case Above(_, b) => Some(b)
    case Restart(_, b) => Some(b)
    case Ordered(_, b) => Some(b)
    case LowFirst(a, _) => Some(a)
    case _ => None
  }

  ghost predicate Free(s: State, l: Rq) {
    forall c :: c in s ==> l !in Held(s[c])
  }

  ghost predicate Act(s: State, p: PC, q: PC) {
    match p
    case Idle =>
      || q.Want?
      || (q.LowFirst? && q.a < q.b)                                  // double_rq_lock(rq1, rq2), rq1 != rq2
    case Want(a) => Free(s, a) && q == One(a)
    case One(a) => q == Idle || (q.Try? && q.a == a && q.b != a)     // unlock, or double_lock_balance(a, b)
    case Try(a, b) =>
      if Free(s, b) then q == Both(a, b)
      else if b < a then q == Restart(a, b)
      else q == Above(a, b)
    case Above(a, b) => Free(s, b) && q == Both(a, b)
    case Restart(a, b) => Free(s, b) && q == Ordered(b, a)
    case Ordered(a, b) => Free(s, b) && q == Both(a, b)
    case LowFirst(a, b) => Free(s, a) && q == Ordered(a, b)
    case Both(a, b) => q == One(a) || q == One(b)
  }

  ghost predicate Step(s: State, c: Cpu, s': State) {
    c in s && c in s' && Act(s, s[c], s'[c]) && s' == s[c := s'[c]]
  }

  /** Locks are exclusive, and a waiting CPU waits above everything it holds. */
  ghost predicate Inv(s: State) {
    && (forall c, d :: c in s && d in s && c != d ==> Held(s[c]) !! Held(s[d]))
    && (forall c :: c in s ==> CpuOk(s[c]))
  }

  ghost predicate CpuOk(p: PC) {
    && (Waits(p).Some? ==> forall h :: h in Held(p) ==> h < Waits(p).value)
    && (p.Try? ==> p.a != p.b) && (p.Restart? ==> p.b < p.a) && (p.LowFirst? ==> p.a < p.b)
  }

  lemma StepKeepsInv(s: State, c: Cpu, s': State)
    requires Inv(s) && Step(s, c, s')
    ensures Inv(s')
  {
    assert CpuOk(s[c]);
    forall d | d in s && d != c ensures Held(s'[c]) !! Held(s[d]) {
      assert forall l :: l in Held(s'[c]) ==> l in Held(s[c]) || Free(s, l);
    }
  }

  /**
   A CPU that waits goes on with exactly the lock it waited for, which was free.  Of the other steps only
   a successful try takes a lock, the one tried; a failed try lets everything go exactly when the other
   runqueue is the lower one.
   */
  lemma StepLocks(s: State, c: Cpu, s': State)
    requires Inv(s) && Step(s, c, s')
    ensures match Waits(s[c])
            case Some(l) => Free(s, l) && Held(s'[c]) == Held(s[c]) + {l}
            case None =>
              if s[c].Try? then
                var a, b := s[c].a, s[c].b;
                if Free(s, b) then Held(s'[c]) == {a, b}
                else Waits(s'[c]) == Some(b) && Held(s'[c]) == if b < a then {} else {a}
              else Held(s'[c]) <= Held(s[c])
  {
    assert CpuOk(s[c]);
  }

  ghost predicate Moves(s: State, s': State) {
    exists c :: c in s && Step(s, c, s')
  }

  ghost predicate Run(ss: seq<State>) {
    && |ss| > 0 && (forall c :: c in ss[0] ==> ss[0][c] == Idle)
    && forall i :: 0 <= i < |ss| - 1 ==> Moves(ss[i], ss[i + 1])
  }

  lemma {:induction false} RunKeepsInv(ss: seq<State>)
    requires Run(ss)
    ensures Inv(ss[|ss| - 1])
  {
    var n := |ss| - 1;
    if n > 0 {
      var init := ss[..n];
      assert forall i :: 0 <= i < n ==> init[i] == ss[i];
      RunKeepsInv(init);
      assert Moves(ss[n - 1], ss[n - 1 + 1]);
      var c :| c in ss[n - 1] && Step(ss[n - 1], c, ss[n]);
      StepKeepsInv(ss[n - 1], c, ss[n]);
    }
  }

  /** CPU `c` waits for a lock that `d` holds. */
  ghost predicate Blocks(s: State, c: Cpu, d: Cpu) {
    c in s && d in s && Waits(s[c]).Some? && Waits(s[c]).value in Held(s[d])
  }

  ghost predicate WaitCycle(s: State, cs: seq<Cpu>) {
    |cs| > 0 && forall i :: 0 <= i < |cs| ==> Blocks(s, cs[i], cs[After(i, |cs|)])
  }

  /** Along a chain of waiters the wanted locks ascend. */
  lemma {:induction false} Ascend(s: State, cs: seq<Cpu>, m: int)
    requires Inv(s) && WaitCycle(s, cs) && 0 <= m < |cs|
    ensures cs[0] in s && cs[m] in s && Waits(s[cs[0]]).Some? && Waits(s[cs[m]]).Some?
    ensures Waits(s[cs[0]]).value + m <= Waits(s[cs[m]]).value
  {
    assert Blocks(s, cs[m], cs[After(m, |cs|)]);
    if m > 0 {
      Ascend(s, cs, m - 1);
      assert Blocks(s, cs[m - 1], cs[After(m - 1, |cs|)]);
      assert CpuOk(s[cs[m]]);
    }
  }

  lemma NoWaitCycle(s: State, cs: seq<Cpu>)
    requires Inv(s)
    ensures !WaitCycle(s, cs)
  {
    if WaitCycle(s, cs) {
      assert Blocks(s, cs[|cs| - 1], cs[After(|cs| - 1, |cs|)]);
      Ascend(s, cs, |cs| - 1);
    }
  }

  /** A CPU whose next action is not a wait on a held lock can take it. */
  lemma CanMove(s: State, c: Cpu) returns (s': State)
    requires Inv(s) && c in s && s[c] != Idle && (Waits(s[c]).Some? ==> Free(s, Waits(s[c]).value))
    ensures Step(s, c, s')
  {
    assert CpuOk(s[c]);
    var q := match s[c]
      case Want(a) => One(a)
      case One(a) => Idle
      case Try(a, b) => if Free(s, b) then Both(a, b) else if b < a then Restart(a, b) else Above(a, b)
      case Above(a, b) => Both(a, b)
      case Restart(a, b) => Ordered(b, a)
      case Ordered(a, b) => Both(a, b)
      case LowFirst(a, b) => Ordered(a, b)
      case Both(a, b) => One(a)
      case Idle => Idle;
    s' := s[c := q];
  }

  ghost predicate Stuck(s: State, c: Cpu) {
    c in s && Waits(s[c]).Some? && exists d :: Blocks(s, c, d)
  }

  ghost function Blocker(s: State, c: Cpu): (d: Cpu)
    requires Stuck(s, c)
    ensures Blocks(s, c, d)
  {
    var d :| Blocks(s, c, d);
    d
  }

  lemma Progress(s: State)
    requires Inv(s) && exists c :: c in s && s[c] != Idle
    ensures exists c, s' :: c in s && s[c] != Idle && Step(s, c, s')
  {
    var busy := set c | c in s && s[c] != Idle;
    if c :| c in busy && !Stuck(s, c) {
      if Waits(s[c]).Some? {
        forall d | d in s ensures Waits(s[c]).value !in Held(s[d]) { assert !Blocks(s, c, d); }
      }
      var s' := CanMove(s, c);
    } else {
      var next := map c | c in busy :: Blocker(s, c);
      var c0 :| c0 in s && s[c0] != Idle;
      assert c0 in next;
      forall c | c in next ensures next[c] in next {
        assert Blocks(s, c, next[c]) && Held(s[next[c]]) != {};
      }
      var cs := ClosedWaitHasCycle(next);
      NoWaitCycle(s, cs);
      LiftCycle(s, next, cs);
    }
  }

  lemma LiftCycle(s: State, next: map<Cpu, Cpu>, cs: seq<Cpu>)
    requires Cycle(next, cs) && forall c :: c in next ==> Blocks(s, c, next[c])
    ensures WaitCycle(s, cs)
  {
    forall i | 0 <= i < |cs| ensures Blocks(s, cs[i], cs[After(i, |cs|)]) {
      assert next[cs[i]] == cs[After(i, |cs|)];
    }
  }

  /**
   Every run on any number of CPUs: a blocked CPU waits above every lock it holds, no CPUs wait
   for each other in a circle, and unless all are idle one of them can move on.
   */
  lemma RunqueueLocksNeverDeadlock(ss: seq<State>)
    requires Run(ss)
    ensures var s := ss[|ss| - 1];
            && (forall c :: c in s && Waits(s[c]).Some? ==> forall h :: h in Held(s[c]) ==> h < Waits(s[c]).value)
            && (forall cs: seq<Cpu> :: !WaitCycle(s, cs))
            && ((exists c :: c in s && s[c] != Idle) ==> exists c, s' :: c in s && s[c] != Idle && Step(s, c, s'))
  {
    RunKeepsInv(ss);
    var s := ss[|ss| - 1];
    forall c | c in s && Waits(s[c]).Some? ensures forall h :: h in Held(s[c]) ==> h < Waits(s[c]).value {
      assert CpuOk(s[c]);
    }
    forall cs: seq<Cpu> ensures !WaitCycle(s, cs) { NoWaitCycle(s, cs); }
    if exists c :: c in s && s[c] != Idle { Progress(s); }
  }
}
