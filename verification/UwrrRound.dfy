/**
 Weighted fairness of the UWRR class: with a fixed set of runnable UWRR tasks and no real-time
 task, every tick is charged to the first user of the list, and a whole round gives every user
 exactly its slice.
 */
module UwrrRound {
  import opened Seqs
  import opened Options
  import opened PrioArrays
  import opened Runqueues
  import opened Scheduler

  /** UWRR tasks are running: some are queued, no real-time task is, and nobody changes owner. */
  ghost predicate Turning(s: Rq) {
    Inv(s) && s.uwrrRunning > 0 && !RtQueued(s) && Quiet(s) && forall u :: u in s.userlist ==> Busy(s, u)
  }

  /** Ticks until a slice is renewed: one that is zero wraps around first. */
  function Ticks(slice: int): int { if slice == 0 then SLICE_WORD else slice }

  /** The largest weight whose slice fits the field. */
  const MAX_WEIGHT: int := 42949672

  /** A user of weight `w` gets its due exactly when the weight is not over that. */
  lemma SliceFits(w: int)
    requires w >= 1
    ensures Ticks(NewSlice(w)) == UWRR_SLICE_UNIT * w <==> w <= MAX_WEIGHT
  {
    if w > MAX_WEIGHT { assert UWRR_SLICE_UNIT * w > SLICE_WORD; }
  }

  /** A weight that setuserweight accepts, for which the slice is zero and the turn takes 2^32 ticks. */
  lemma SliceWraps()
    ensures NewSlice(0x4000_0000) == 0 && Ticks(NewSlice(0x4000_0000)) == SLICE_WORD < UWRR_SLICE_UNIT * 0x4000_0000
  {
  }

  lemma FirstIsBusy(s: Rq)
    requires Turning(s)
    ensures s.userlist != [] && Busy(s, s.userlist[0]) && DropIdle(s.users, s.userlist) == s.userlist
  {
    var f := FirstBusy(s);
    var u: Uid := s.userlist[0];
    assert u in s.userlist;
  }

  /** The task that runs: the first one of the first user. */
  ghost function Head(s: Rq): Tid
    requires Turning(s)
  {
    FirstIsBusy(s);
    BusyUser(s, s.userlist[0]);
    s.users[s.userlist[0]].tasks.queue[UWRR_TASK_PRIO][0]
  }

  lemma HeadFacts(s: Rq)
    requires Turning(s)
    ensures s.userlist != [] && NoDup(s.userlist) && Queued(s, Head(s)) && Stoppable(s, Head(s)) && GoodChoice(s, Head(s))
    ensures s.tasks[Head(s)].user == s.userlist[0] && s.tasks[Head(s)].policy == Uwrr
    ensures s.tasks[Head(s)].arr == Some(OfUser(s.userlist[0])) && s.tasks[Head(s)].prio == UWRR_TASK_PRIO
    ensures forall u :: u in s.userlist ==> u in s.users && 0 <= s.users[u].slice < SLICE_WORD && s.users[u].weight >= 1
  {
    FirstIsBusy(s);
    BusyUser(s, s.userlist[0]);
    var t := Head(s);
    assert TaskOk(s, s.tasks[t]);
  }

  /** One tick while the head task runs. */
  ghost function Next(s: Rq): Rq
    requires Turning(s)
  {
    HeadFacts(s);
    assert TaskOk(s, s.tasks[Head(s)]);
    UwrrTick(s, Head(s)).0
  }

  /** What the tick does to the list and the slices. */
  ghost predicate Charged(s: Rq, s': Rq) {
    && s.userlist != [] && s.userlist[0] in s.users
    && s'.users.Keys == s.users.Keys
    && (forall u :: u in s.users ==> s'.users[u].weight == s.users[u].weight)
    && var u := s.userlist[0];
       && (forall v :: v in s.users && v != u ==> s'.users[v].slice == s.users[v].slice)
       && if s.users[u].slice == 1 then
            s'.users[u].slice == NewSlice(s.users[u].weight) && s'.userlist == s.userlist[1..] + [u]
          else Ticks(s'.users[u].slice) == Ticks(s.users[u].slice) - 1 && s'.userlist == s.userlist
  }

  lemma SliceTickUsers(s: Rq, t: Tid, u: Uid)
    requires Stoppable(s, t) && s.tasks[t].arr.value == OfUser(u)
    ensures var s1 := SliceTick(s, t).0;
            && s1.userlist == s.userlist && s1.users.Keys == s.users.Keys && s1.uwrrRunning == s.uwrrRunning
            && (forall v :: v in s.users ==> s1.users[v].slice == s.users[v].slice && s1.users[v].weight == s.users[v].weight)
            && s1.tasks.Keys == s.tasks.Keys
            && (forall x :: x in s.tasks ==> s1.tasks[x].prio == s.tasks[x].prio && s1.tasks[x].arr == s.tasks[x].arr && s1.tasks[x].leaving == s.tasks[x].leaving)
            && (forall v :: Busy(s1, v) <==> Busy(s, v))
  {
  }

  lemma NextOk(s: Rq)
    requires Turning(s)
    ensures Turning(Next(s)) && Charged(s, Next(s))
  {
    HeadFacts(s);
    var t, u := Head(s), s.userlist[0];
    assert TaskOk(s, s.tasks[t]);
    SliceTickOk(s, t);
    SliceTickUsers(s, t, u);
    var s1 := SliceTick(s, t).0;
    assert u in s1.userlist;
    OwnerTickOk(s1, u);
    var s2 := Next(s);
    assert s2 == OwnerTick(s1, u).0;
    hide Inv, Next, SliceTick;
    OwnerCharged(s1, u);
    forall x ensures !(Queued(s2, x) && s2.tasks[x].Rt()) { assert Queued(s2, x) <==> Queued(s, x); }
  }

  lemma OwnerCharged(s: Rq, u: Uid)
    requires s.userlist != [] && s.userlist[0] == u && u in s.users && 0 <= s.users[u].slice < SLICE_WORD
    ensures var s' := OwnerTick(s, u).0;
            && Charged(s, s') && s'.tasks == s.tasks && s'.uwrrRunning == s.uwrrRunning
            && (forall v :: v in s'.userlist ==> v in s.userlist) && (forall v :: Busy(s', v) <==> Busy(s, v))
  {
    assert Without(s.userlist, u) == s.userlist[1..];
  }

  /** Without a call of the scheduler the running task is still the one it would choose. */
  lemma NoReschedNeeded(s: Rq)
    requires Turning(s)
    ensures Stoppable(s, Head(s)) && s.tasks[Head(s)].user in s.users
    ensures !UwrrTick(s, Head(s)).1 ==> Turning(Next(s)) && Head(Next(s)) == Head(s)
  {
    HeadFacts(s);
    assert TaskOk(s, s.tasks[Head(s)]);
    NextOk(s);
  }

  // ---------------------------------------------------------------- many ticks

  ghost function After(s: Rq, n: nat): (s': Rq)
    requires Turning(s)
    ensures Turning(s')
    decreases n
  {
    if n == 0 then s else
      var s1 := After(s, n - 1);
      NextOk(s1);
      Next(s1)
  }

  /** How many of the first `n` ticks are charged to user `u`. */
  ghost function Served(s: Rq, n: nat, u: Uid): (k: int)
    requires Turning(s)
    decreases n
  {
    if n == 0 then 0 else
      HeadFacts(After(s, n - 1));
      Served(s, n - 1, u) + if After(s, n - 1).userlist[0] == u then 1 else 0
  }

  lemma {:induction false} AfterAdd(s: Rq, m: nat, n: nat)
    requires Turning(s)
    ensures After(s, m + n) == After(After(s, m), n)
    decreases n
  {
    hide Inv, Next, GoodChoice, RtQueued, Queued, Stoppable;
    if n > 0 { AfterAdd(s, m, n - 1); }
  }

  lemma {:induction false} ServedAdd(s: Rq, m: nat, n: nat, u: Uid)
    requires Turning(s)
    ensures Served(s, m + n, u) == Served(s, m, u) + Served(After(s, m), n, u)
    decreases n
  {
    hide Inv, Next, GoodChoice, RtQueued, Queued, Stoppable;
    if n > 0 {
      ServedAdd(s, m, n - 1, u);
      AfterAdd(s, m, n - 1);
    }
  }

  /** `s'` has the weights of `s`; the slices of users other than `u` agree. */
  ghost predicate SameBut(s: Rq, s': Rq, u: Uid) {
    && s'.users.Keys == s.users.Keys
    && (forall v :: v in s.users ==> s'.users[v].weight == s.users[v].weight && (v != u ==> s'.users[v].slice == s.users[v].slice))
  }

  /** Within its slice the first user stays first and pays for every tick. */
  lemma {:induction false} Within(s: Rq, n: nat, v: Uid)
    requires Turning(s) && s.userlist != [] && s.userlist[0] in s.users && n < Ticks(s.users[s.userlist[0]].slice)
    ensures var s' := After(s, n);
            && s'.userlist == s.userlist && SameBut(s, s', s.userlist[0])
            && Ticks(s'.users[s.userlist[0]].slice) == Ticks(s.users[s.userlist[0]].slice) - n
    ensures Served(s, n, v) == if v == s.userlist[0] then n else 0
    decreases n
  {
    hide Inv, Next, GoodChoice, RtQueued, Queued, Stoppable;
    if n > 0 {
      Within(s, n - 1, v);
      NextOk(After(s, n - 1));
    }
  }

  /** A full turn: the first user has used its slice up, gets a new one and goes last. */
  lemma Turn(s: Rq, v: Uid)
    requires Turning(s)
    ensures s.userlist != [] && s.userlist[0] in s.users && Ticks(s.users[s.userlist[0]].slice) >= 1
    ensures var u := s.userlist[0];
            var n := Ticks(s.users[u].slice); var s' := After(s, n);
            && s'.userlist == s.userlist[1..] + [u] && SameBut(s, s', u)
            && s'.users[u].slice == NewSlice(s.users[u].weight)
            && Served(s, n, v) == if v == u then n else 0
  {
    hide Inv, Next, GoodChoice, RtQueued, Queued, Stoppable;
    HeadFacts(s);
    var u: Uid := s.userlist[0];
    assert u in s.userlist;
    var n := Ticks(s.users[u].slice);
    Within(s, n - 1, v);
    NextOk(After(s, n - 1));
  }

  // ---------------------------------------------------------------- rounds

  function SliceOf(s: Rq, u: Uid): int { if u in s.users then Ticks(s.users[u].slice) else 0 }

  /** Sum of the slices along a list of users. */
  function SliceSum(s: Rq, l: seq<Uid>): (n: int) {
    if l == [] then 0 else SliceSum(s, l[..|l| - 1]) + SliceOf(s, l[|l| - 1])
  }

  lemma {:induction false} SliceSumNonNeg(s: Rq, l: seq<Uid>)
    requires forall u :: u in l ==> SliceOf(s, u) >= 0
    ensures SliceSum(s, l) >= 0
  {
    if l != [] {
      var u: Uid := l[|l| - 1];
      assert u in l;
      SliceSumNonNeg(s, l[..|l| - 1]);
    }
  }

  /** The first `j` users of `l` have had their turn since `s`. */
  ghost predicate Turned(s: Rq, s': Rq, l: seq<Uid>, j: nat) {
    && j <= |l| && s'.userlist == l[j..] + l[..j] && s'.users.Keys == s.users.Keys
    && (forall v :: v in s.users ==> s'.users[v].weight == s.users[v].weight)
    && (forall v :: v in s.users && v in l[..j] ==> s'.users[v].slice == NewSlice(s.users[v].weight))
    && (forall v :: v in s.users && v !in l[..j] ==> s'.users[v].slice == s.users[v].slice)
  }

  /** After the slices of the first `j` users, these have run exactly that long and user `j` is first. */
  lemma {:induction false} Turns(s: Rq, j: nat, v: Uid)
    requires Turning(s) && j <= |s.userlist| && v in s.users
    ensures SliceSum(s, s.userlist[..j]) >= 0
    ensures var n: nat := SliceSum(s, s.userlist[..j]);
            && Turned(s, After(s, n), s.userlist, j)
            && Served(s, n, v) == if v in s.userlist[..j] then Ticks(s.users[v].slice) else 0
    decreases j
  {
    hide Inv, Next, After, Served, GoodChoice, RtQueued, Queued, Stoppable, SliceSum, Turned, NoDup;
    if j == 0 {
      StartTurn(s, v);
    } else {
      var l := s.userlist;
      Turns(s, j - 1, v);
      HeadFacts(s);
      TurnPrefix(s, l, j);
      var m: nat := SliceSum(s, l[..j - 1]);
      var s1 := After(s, m);
      TurnedHead(s, s1, l, j);
      Turn(s1, v);
      var k: nat := SliceOf(s, l[j - 1]);
      TurnedStep(s, s1, After(s1, k), l, j);
      AfterAdd(s, m, k);
      ServedAdd(s, m, k, v);
    }
  }

  /** The next user is first, with its own slice. */
  lemma TurnedHead(s: Rq, s1: Rq, l: seq<Uid>, j: nat)
    requires 0 < j <= |l| && Turned(s, s1, l, j - 1) && l[j - 1] in s.users && l[j - 1] !in l[..j - 1]
    ensures s1.userlist != [] && s1.userlist[0] == l[j - 1] && l[j - 1] in s1.users && SliceOf(s1, l[j - 1]) == SliceOf(s, l[j - 1])
  {
  }

  /** How the first `j` users extend the first `j - 1`. */
  lemma TurnPrefix(s: Rq, l: seq<Uid>, j: nat)
    requires 0 < j <= |l| && NoDup(l)
    requires forall u :: u in l ==> u in s.users && 0 <= s.users[u].slice < SLICE_WORD
    ensures l[j - 1] in s.users && SliceOf(s, l[j - 1]) >= 1 && l[j - 1] !in l[..j - 1]
    ensures SliceSum(s, l[..j]) == SliceSum(s, l[..j - 1]) + SliceOf(s, l[j - 1])
    ensures forall x :: x in l[..j] <==> x in l[..j - 1] || x == l[j - 1]
  {
    var u: Uid := l[j - 1];
    assert u in l;
    assert l[..j][..j - 1] == l[..j - 1];
    assert l[..j] == l[..j - 1] + [u];
  }

  /** The turn of the next user adds it to those that have had one. */
  lemma TurnedStep(s: Rq, s1: Rq, s2: Rq, l: seq<Uid>, j: nat)
    requires 0 < j <= |l| && NoDup(l) && Turned(s, s1, l, j - 1)
    requires forall u :: u in l ==> u in s.users && 0 <= s.users[u].slice < SLICE_WORD
    requires SameBut(s1, s2, l[j - 1]) && s2.userlist == s1.userlist[1..] + [l[j - 1]]
    requires l[j - 1] in s2.users && l[j - 1] in s1.users
    requires s2.users[l[j - 1]].slice == NewSlice(s1.users[l[j - 1]].weight)
    ensures Turned(s, s2, l, j)
  {
    TurnPrefix(s, l, j);
    Rotation(l, j);
  }

  lemma StartTurn(s: Rq, v: Uid)
    requires Turning(s)
    ensures After(s, 0) == s && Served(s, 0, v) == 0 && Turned(s, s, s.userlist, 0) && SliceSum(s, s.userlist[..0]) == 0
  {
    assert s.userlist[0..] + s.userlist[..0] == s.userlist;
  }

  lemma Rotation(l: seq<Uid>, j: nat)
    requires 0 < j <= |l|
    ensures (l[j - 1..] + l[..j - 1])[1..] + [l[j - 1]] == l[j..] + l[..j]
  {
  }

  ghost predicate Fresh(s: Rq) {
    forall u :: u in s.userlist && u in s.users ==> s.users[u].slice == NewSlice(s.users[u].weight)
  }

  /**
   A whole round of as many ticks as all slices together: every user has run exactly its slice, which
   is 100 ticks per unit of weight if and only if that fits the slice field, and the list and all
   slices are back where they were.
   */
  lemma RoundIsFair(s: Rq, v: Uid)
    requires Turning(s) && Fresh(s) && v in s.userlist
    ensures SliceSum(s, s.userlist) >= 0 && v in s.users
    ensures var n: nat := SliceSum(s, s.userlist); var s' := After(s, n);
            && Served(s, n, v) == Ticks(NewSlice(s.users[v].weight))
            && (Served(s, n, v) == UWRR_SLICE_UNIT * s.users[v].weight <==> s.users[v].weight <= MAX_WEIGHT)
            && s'.userlist == s.userlist && Fresh(s') && s'.users.Keys == s.users.Keys
            && (forall u :: u in s.users ==> s'.users[u].slice == s.users[u].slice && s'.users[u].weight == s.users[u].weight)
  {
    hide Inv, Next, After, Served, GoodChoice, RtQueued, Queued, Stoppable;
    HeadFacts(s);
    var l := s.userlist;
    assert l[..|l|] == l && l[|l|..] + l == l;
    Turns(s, |l|, v);
    SliceFits(s.users[v].weight);
  }

  /**
   No user waits longer than the slices of the others: user `j` of the list is first after exactly
   the slices before it, which are at most all slices less its own.
   */
  lemma WaitIsBounded(s: Rq, j: nat)
    requires Turning(s) && j < |s.userlist|
    ensures var n := SliceSum(s, s.userlist[..j]);
            && 0 <= n <= SliceSum(s, s.userlist) - SliceOf(s, s.userlist[j])
            && After(s, n).userlist != [] && After(s, n).userlist[0] == s.userlist[j]
  {
    hide Inv, Next, After, Served, GoodChoice, RtQueued, Queued, Stoppable;
    HeadFacts(s);
    var u: Uid := s.userlist[j];
    assert u in s.userlist;
    Turns(s, j, u);
    PartialSum(s, s.userlist, j);
  }

  lemma PartialSum(s: Rq, l: seq<Uid>, j: nat)
    requires j < |l| && forall u :: u in l ==> u in s.users && 0 <= s.users[u].slice < SLICE_WORD
    ensures SliceSum(s, l[..j]) <= SliceSum(s, l) - SliceOf(s, l[j])
  {
    RestNonNeg(s, l, j + 1);
    hide SliceOf, SliceSum;
    SplitSum(s, l, j + 1);
    SliceSumNext(s, l, j);
  }

  lemma SplitSum(s: Rq, l: seq<Uid>, j: nat)
    requires j <= |l|
    ensures SliceSum(s, l) == SliceSum(s, l[..j]) + SliceSum(s, l[j..])
  {
    hide SliceSum;
    SliceSumConcat(s, l[..j], l[j..]);
    assert l == l[..j] + l[j..];
  }

  lemma SliceSumNext(s: Rq, l: seq<Uid>, j: nat)
    requires j < |l|
    ensures SliceSum(s, l[..j + 1]) == SliceSum(s, l[..j]) + SliceOf(s, l[j])
  {
    assert l[..j + 1][..j] == l[..j];
  }

  lemma RestNonNeg(s: Rq, l: seq<Uid>, j: nat)
    requires j <= |l| && forall u :: u in l ==> u in s.users && 0 <= s.users[u].slice < SLICE_WORD
    ensures SliceSum(s, l[j..]) >= 0
  {
    forall x | x in l[j..] ensures SliceOf(s, x) >= 0 { assert x in l; }
    SliceSumNonNeg(s, l[j..]);
  }

  lemma {:induction false} SliceSumConcat(s: Rq, l: seq<Uid>, m: seq<Uid>)
    ensures SliceSum(s, l + m) == SliceSum(s, l) + SliceSum(s, m)
  {
    if m == [] {
      assert l + m == l;
    } else {
      var n := |m| - 1;
      SliceSumConcat(s, l, m[..n]);
      assert (l + m)[..|l + m| - 1] == l + m[..n];
    }
  }
}
