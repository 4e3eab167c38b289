/**
 `find_busiest_group`: the fixed-point load comparison between the CPU groups of a scheduling
 domain and the number of tasks it asks to move.  Loads are in units of SCHED_LOAD_SCALE per task.
 */
module Balance {
  import opened Options

  const SCALE: int := 128  // SCHED_LOAD_SCALE

  datatype Idle = NotIdle | SchedIdle | NewlyIdle

  /** The loads of the CPUs of a group, as `target_load` or `source_load` give them. */
  datatype Group = Group(loads: seq<int>, power: int, local: bool)

  function Sum(s: seq<int>): (n: int)
    ensures (forall i :: 0 <= i < |s| ==> s[i] >= 0) ==> n >= 0
  {
    if s == [] then 0 else Sum(s[..|s| - 1]) + s[|s| - 1]
  }

  /** CPUs that are loaded alike. */
  lemma {:induction false} SumOfEqual(s: seq<int>, x: int)
    requires forall i :: 0 <= i < |s| ==> s[i] == x
    ensures Sum(s) == |s| * x
  {
    if s != [] { SumOfEqual(s[..|s| - 1], x); }
  }

  /** Load relative to the CPU power of the group. */
  function Scaled(load: int, power: int): int
    requires power > 0
  {
    load * SCALE / power
  }

  ghost predicate GroupOk(g: Group) {
    g.power > 0 && forall i :: 0 <= i < |g.loads| ==> g.loads[i] >= 0
  }

  /** The load of a group relative to its power. */
  function GroupLoad(g: Group): int { if g.power > 0 then Scaled(Sum(g.loads), g.power) else 0 }

  /** A group of `n` CPUs with one CPU's power each has the load of one of them when they are loaded alike. */
  lemma EvenGroup(g: Group, x: int)
    requires g.loads != [] && g.power == SCALE * |g.loads| && forall i :: 0 <= i < |g.loads| ==> g.loads[i] == x
    ensures GroupLoad(g) == x
  {
    SumOfEqual(g.loads, x);
    var n := |g.loads|;
    assert n * x * SCALE == x * (SCALE * n);
    QuotientExact(x, SCALE * n);
  }

  lemma QuotientExact(x: int, y: int)
    requires y > 0
    ensures x * y / y == x
  {
    DivBounds(x * y, y);
    var q := x * y / y;
    if q < x { MulMono(q + 1, x, y); }
    if x < q { MulMono(x + 1, q, y); }
  }

  /** Exactly one group, with at least one CPU, holds the balancing CPU. */
  ghost predicate DomainOk(gs: seq<Group>, mine: int) {
    && 0 <= mine < |gs| && gs[mine].local && gs[mine].loads != []
    && (forall i :: 0 <= i < |gs| ==> GroupOk(gs[i]) && (gs[i].local ==> i == mine))
  }

  /** A group the balancing CPU may pull from. */
  ghost predicate Other(gs: seq<Group>, i: int) {
    0 <= i < |gs| && !gs[i].local && gs[i].loads != []
  }

  function LoadSum(gs: seq<Group>): int {
    if gs == [] then 0 else LoadSum(gs[..|gs| - 1]) + Sum(gs[|gs| - 1].loads)
  }

  /** Groups without CPUs are skipped. */
  function PowerSum(gs: seq<Group>): int {
    if gs == [] then 0 else PowerSum(gs[..|gs| - 1]) + if gs[|gs| - 1].loads == [] then 0 else gs[|gs| - 1].power
  }

  // ---------------------------------------------------------------- arithmetic

  lemma DivBounds(x: int, y: int)
    requires y > 0
    ensures (x / y) * y <= x < (x / y) * y + y
  {
  }

  lemma MulMono(a: int, b: int, y: int)
    requires a <= b && y >= 0
    ensures a * y <= b * y
  {
  }

  lemma DivAtMost(x: int, y: int, q: int)
    requires y > 0 && x < (q + 1) * y
    ensures x / y <= q
  {
    DivBounds(x, y);
    if q + 1 <= x / y { MulMono(q + 1, x / y, y); }
  }

  lemma DivAtLeast(x: int, y: int, q: int)
    requires y > 0 && q * y <= x
    ensures q <= x / y
  {
    DivBounds(x, y);
    if x / y + 1 <= q { MulMono(x / y + 1, q, y); }
  }

  /** Scaled loads of at most `m` in every group bound the total. */
  lemma {:induction false} TotalBelow(gs: seq<Group>, m: int)
    requires m >= 0
    requires forall i :: 0 <= i < |gs| ==> GroupOk(gs[i]) && (gs[i].loads != [] ==> GroupLoad(gs[i]) <= m)
    ensures PowerSum(gs) >= 0
    ensures LoadSum(gs) * SCALE <= (m + 1) * PowerSum(gs)
    ensures PowerSum(gs) > 0 ==> LoadSum(gs) * SCALE < (m + 1) * PowerSum(gs)
  {
    if gs != [] {
      var n := |gs| - 1;
      assert forall i :: 0 <= i < n ==> gs[..n][i] == gs[i];
      TotalBelow(gs[..n], m);
      if gs[n].loads != [] {
        GroupBelow(Sum(gs[n].loads), gs[n].power, m);
        AddBounds(LoadSum(gs[..n]), Sum(gs[n].loads), PowerSum(gs[..n]), gs[n].power, m);
      }
    }
  }

  lemma AddBounds(a: int, b: int, p: int, q: int, m: int)
    requires a * SCALE <= (m + 1) * p && b * SCALE < (m + 1) * q
    ensures (a + b) * SCALE < (m + 1) * (p + q)
  {
  }

  lemma GroupBelow(load: int, power: int, m: int)
    requires power > 0 && Scaled(load, power) <= m
    ensures load * SCALE < (m + 1) * power
  {
    DivBounds(load * SCALE, power);
    MulMono(Scaled(load, power), m, power);
  }

  /** The domain average does not exceed the largest group load, floors notwithstanding. */
  lemma AverageAtMostMax(gs: seq<Group>, m: int)
    requires m >= 0 && PowerSum(gs) > 0
    requires forall i :: 0 <= i < |gs| ==> GroupOk(gs[i]) && (gs[i].loads != [] ==> GroupLoad(gs[i]) <= m)
    ensures Scaled(LoadSum(gs), PowerSum(gs)) <= m
  {
    TotalBelow(gs, m);
    DivAtMost(LoadSum(gs) * SCALE, PowerSum(gs), m);
  }

  /** Nor is it below the smallest load of a group with CPUs: groups without any do not count. */
  lemma AverageAtLeastMin(gs: seq<Group>, m: int)
    requires m >= 0 && PowerSum(gs) > 0
    requires forall i :: 0 <= i < |gs| ==> GroupOk(gs[i]) && (gs[i].loads != [] ==> GroupLoad(gs[i]) >= m)
    ensures Scaled(LoadSum(gs), PowerSum(gs)) >= m
  {
    TotalAbove(gs, m);
    DivAtLeast(LoadSum(gs) * SCALE, PowerSum(gs), m);
  }

  lemma {:induction false} TotalAbove(gs: seq<Group>, m: int)
    requires m >= 0
    requires forall i :: 0 <= i < |gs| ==> GroupOk(gs[i]) && (gs[i].loads != [] ==> GroupLoad(gs[i]) >= m)
    ensures LoadSum(gs) * SCALE >= m * PowerSum(gs)
  {
    if gs != [] {
      var n := |gs| - 1;
      assert forall i :: 0 <= i < n ==> gs[..n][i] == gs[i];
      TotalAbove(gs[..n], m);
      if gs[n].loads != [] {
        var load, power := Sum(gs[n].loads), gs[n].power;
        DivBounds(load * SCALE, power);
        MulMono(m, Scaled(load, power), power);
        AddFloors(LoadSum(gs[..n]), load, PowerSum(gs[..n]), power, m);
      }
    }
  }

  lemma AddFloors(a: int, b: int, p: int, q: int, m: int)
    requires a * SCALE >= m * p && b * SCALE >= m * q
    ensures (a + b) * SCALE >= m * (p + q)
  {
  }

  /** Tasks to move on the proportional path. */
  function Tasks(gap: int, power: int): int { (gap * power / SCALE + 1) / SCALE }

  /** Moving them adds at most the gap, plus one, to a group of at least this power ... */
  lemma PullKeepsBelow(load: int, power: int, gap: int, share: int, n: int)
    requires SCALE <= power && 0 <= share <= power && load >= 0 && gap >= 0 && n == Tasks(gap, share)
    ensures n >= 0 && Scaled(load + SCALE * n, power) <= Scaled(load, power) + gap + 1
  {
    TasksBound(gap, share, power, n);
    var t := Scaled(load, power);
    DivBounds(load * SCALE, power);
    assert (t + gap + 2) * power == t * power + gap * power + 2 * power;
    DivAtMost((load + SCALE * n) * SCALE, power, t + gap + 1);
  }

  /** ... and takes at most the gap, plus one, away from such a group. */
  lemma PushKeepsAbove(load: int, power: int, gap: int, share: int, n: int)
    requires SCALE <= power && 0 <= share <= power && gap >= 0 && n == Tasks(gap, share)
    requires Scaled(load, power) >= gap + 1
    ensures load >= SCALE * n && Scaled(load - SCALE * n, power) >= Scaled(load, power) - gap - 1
  {
    TasksBound(gap, share, power, n);
    var t := Scaled(load, power);
    DivBounds(load * SCALE, power);
    assert (t - gap - 1) * power == t * power - gap * power - power;
    assert (t - gap) * power >= power by { assert t - gap >= 1; }
    assert (t - gap) * power == t * power - gap * power;
    DivAtLeast((load - SCALE * n) * SCALE, power, t - gap - 1);
  }

  lemma TasksBound(gap: int, share: int, power: int, n: int)
    requires 0 <= share <= power && gap >= 0 && n == Tasks(gap, share)
    ensures n >= 0 && SCALE * SCALE * n <= gap * power + SCALE
  {
    assert 0 <= gap * share <= gap * power;
    DivBounds(gap * share, SCALE);
    DivBounds(gap * share / SCALE + 1, SCALE);
  }

  // ---------------------------------------------------------------- the search

  method Total(loads: seq<int>) returns (sum: int, n: int)
    ensures sum == Sum(loads) && n == |loads|
  {
    sum, n := 0, 0;
    while n < |loads|
      invariant 0 <= n <= |loads| && sum == Sum(loads[..n])
    {
      assert loads[..n + 1][..n] == loads[..n];
      sum := sum + loads[n];
      n := n + 1;
    }
    assert loads[..n] == loads;
  }

  function Min(a: int, b: int): int { if a < b then a else b }

  /** What the scan over the groups has found in the first `k`. */
  ghost predicate Scanned(gs: seq<Group>, mine: int, k: int, totalLoad: int, totalPwr: int, thisLoad: int, busiest: Option<int>, maxLoad: int) {
    && 0 <= k <= |gs| && 0 <= mine < |gs|
    && totalLoad == LoadSum(gs[..k]) && totalPwr == PowerSum(gs[..k])
    && (if mine < k then thisLoad == GroupLoad(gs[mine]) else thisLoad == 0)
    && maxLoad >= 0
    && (forall i :: 0 <= i < k && Other(gs, i) ==> GroupLoad(gs[i]) <= maxLoad)
    && match busiest
       case None => maxLoad == 0
       case Some(b) =>
         && b < k && Other(gs, b) && maxLoad == GroupLoad(gs[b]) > 0
         && forall i :: 0 <= i < b && Other(gs, i) ==> GroupLoad(gs[i]) < maxLoad
  }

  /** The first of the most loaded other groups. */
  ghost predicate Busiest(gs: seq<Group>, b: int) {
    && Other(gs, b) && GroupLoad(gs[b]) > 0
    && (forall i :: Other(gs, i) ==> GroupLoad(gs[i]) <= GroupLoad(gs[b]) && (i < b ==> GroupLoad(gs[i]) < GroupLoad(gs[b])))
  }

  /** CPU power in use: a group is used up to one task's worth of load. */
  function Used(busiestLoad: int, busiestPower: int, thisLoad: int, thisPower: int): int {
    (busiestPower * Min(SCALE, busiestLoad) + thisPower * Min(SCALE, thisLoad)) / SCALE
  }

  /** A large gap, or a gain of an eighth of a CPU from moving one task, justifies one task. */
  predicate Worth(maxLoad: int, busiestPower: int, thisLoad: int, thisPower: int)
    requires busiestPower > 0 && thisPower > 0
  {
    var lost, gained := Min(maxLoad, SCALE * SCALE / busiestPower), Min(maxLoad, SCALE * SCALE / thisPower);
    || maxLoad - thisLoad >= 2 * SCALE
    || Used(maxLoad - lost, busiestPower, thisLoad + gained, thisPower)
         >= Used(maxLoad, busiestPower, thisLoad, thisPower) + SCALE / 8
  }

  /** The gap is worth at least one task: the request is proportional to it. */
  predicate Proportional(maxLoad: int, busiestPower: int, thisLoad: int, thisPower: int, avg: int, pct: int) {
    && thisLoad < maxLoad && thisLoad < avg && 100 * maxLoad > pct * thisLoad
    && Min(maxLoad - avg, avg - thisLoad) * Min(busiestPower, thisPower) / SCALE >= SCALE - 1
  }

  /** How many tasks to ask for, given the loads of the two groups and the average. */
  function Request(maxLoad: int, busiestPower: int, thisLoad: int, thisPower: int, avg: int, pct: int, idle: Idle): (n: int)
    requires busiestPower > 0 && thisPower > 0
  {
    var forced := if idle == NewlyIdle || (idle == SchedIdle && maxLoad > SCALE) then 1 else 0;
    var gap, share := Min(maxLoad - avg, avg - thisLoad), Min(busiestPower, thisPower);
    if thisLoad >= maxLoad || thisLoad >= avg || 100 * maxLoad <= pct * thisLoad then forced
    else if Proportional(maxLoad, busiestPower, thisLoad, thisPower, avg, pct) then Tasks(gap, share)
    else if Worth(maxLoad, busiestPower, thisLoad, thisPower) then 1
    else forced
  }

  /**
   The answer as a reader of the loads and powers would give it.  Balanced groups: one task, and only for
   an idle CPU, one that was idle before only against more than one task.  Otherwise, when the smaller
   gap on the weaker group is worth a task: as many tasks as fit, one unit of rounding granted, and no
   fewer.  Otherwise one task, if the gap is two tasks or moving one puts an eighth of a CPU more to use.
   */
  ghost predicate Answer(maxLoad: int, busiestPower: int, thisLoad: int, thisPower: int, avg: int, pct: int, idle: Idle, n: int)
    requires busiestPower > 0 && thisPower > 0
  {
    var forced := idle == NewlyIdle || (idle == SchedIdle && maxLoad > SCALE);
    var gap := if maxLoad - avg < avg - thisLoad then maxLoad - avg else avg - thisLoad;
    var share := if busiestPower < thisPower then busiestPower else thisPower;
    if maxLoad <= thisLoad || avg <= thisLoad || 100 * maxLoad <= pct * thisLoad then
      n == if forced then 1 else 0
    else if gap * share >= (SCALE - 1) * SCALE then
      n * SCALE * SCALE <= gap * share + SCALE && gap * share + SCALE < (n + 1) * SCALE * SCALE
    else
      n == if maxLoad - thisLoad >= 2 * SCALE || Gains(maxLoad, busiestPower, thisLoad, thisPower) || forced then 1 else 0
  }

  /** One task's load, relative to each power, goes over: the power in use grows by an eighth of a CPU. */
  ghost predicate Gains(maxLoad: int, busiestPower: int, thisLoad: int, thisPower: int)
    requires busiestPower > 0 && thisPower > 0
  {
    var less := if Scaled(SCALE, busiestPower) < maxLoad then maxLoad - Scaled(SCALE, busiestPower) else 0;
    var more := thisLoad + if Scaled(SCALE, thisPower) < maxLoad then Scaled(SCALE, thisPower) else maxLoad;
    var before := busiestPower * Capped(maxLoad) + thisPower * Capped(thisLoad);
    var after := busiestPower * Capped(less) + thisPower * Capped(more);
    after / SCALE >= before / SCALE + SCALE / 8
  }

  /** No group uses more than its power. */
  function Capped(load: int): (c: int)
    ensures c <= SCALE && c <= load && (c == SCALE || c == load)
  {
    if load < SCALE then load else SCALE
  }

  /** That answer and no other is the one the code computes. */
  lemma AnswerExact(maxLoad: int, busiestPower: int, thisLoad: int, thisPower: int, avg: int, pct: int, idle: Idle, n: int)
    requires busiestPower > 0 && thisPower > 0
    ensures Answer(maxLoad, busiestPower, thisLoad, thisPower, avg, pct, idle, n)
            <==> n == Request(maxLoad, busiestPower, thisLoad, thisPower, avg, pct, idle)
  {
    var gap, share := Min(maxLoad - avg, avg - thisLoad), Min(busiestPower, thisPower);
    ThresholdExact(gap * share);
    TasksExact(gap, share, n);
    GainsExact(maxLoad, busiestPower, thisLoad, thisPower);
    hide Gains, Tasks, Used, Scaled;
  }

  lemma AnswersExact(maxLoad: int, busiestPower: int, thisLoad: int, thisPower: int, avg: int, pct: int, idle: Idle)
    requires busiestPower > 0 && thisPower > 0
    ensures forall n :: Answer(maxLoad, busiestPower, thisLoad, thisPower, avg, pct, idle, n)
                        <==> n == Request(maxLoad, busiestPower, thisLoad, thisPower, avg, pct, idle)
  {
    forall n
      ensures Answer(maxLoad, busiestPower, thisLoad, thisPower, avg, pct, idle, n)
              <==> n == Request(maxLoad, busiestPower, thisLoad, thisPower, avg, pct, idle)
    {
      AnswerExact(maxLoad, busiestPower, thisLoad, thisPower, avg, pct, idle, n);
    }
  }

  lemma ThresholdExact(x: int)
    ensures x / SCALE >= SCALE - 1 <==> x >= (SCALE - 1) * SCALE
  {
  }

  /** The request is the largest number of tasks that fits. */
  lemma TasksExact(gap: int, share: int, n: int)
    ensures n == Tasks(gap, share) <==> n * SCALE * SCALE <= gap * share + SCALE && gap * share + SCALE < (n + 1) * SCALE * SCALE
  {
    var x := gap * share;
  }

  lemma GainsExact(maxLoad: int, busiestPower: int, thisLoad: int, thisPower: int)
    requires busiestPower > 0 && thisPower > 0
    ensures Worth(maxLoad, busiestPower, thisLoad, thisPower) <==>
            maxLoad - thisLoad >= 2 * SCALE || Gains(maxLoad, busiestPower, thisLoad, thisPower)
  {
  }

  method Scan(gs: seq<Group>, mine: int)
    returns (totalLoad: int, totalPwr: int, thisLoad: int, busiest: Option<int>, maxLoad: int)
    requires DomainOk(gs, mine)
    ensures Scanned(gs, mine, |gs|, totalLoad, totalPwr, thisLoad, busiest, maxLoad)
  {
    hide Scaled;
    totalLoad, totalPwr, thisLoad, busiest, maxLoad := 0, 0, 0, None, 0;
    var k := 0;
    while k < |gs|
      invariant Scanned(gs, mine, k, totalLoad, totalPwr, thisLoad, busiest, maxLoad)
    {
      var g := gs[k];
      assert gs[..k + 1][..k] == gs[..k];
      assert GroupOk(g);
      var avgLoad, cpus := Total(g.loads);
      if cpus > 0 {
        totalLoad := totalLoad + avgLoad;
        totalPwr := totalPwr + g.power;
        avgLoad := Scaled(avgLoad, g.power);
        if g.local {
          thisLoad := avgLoad;
        } else if avgLoad > maxLoad {
          maxLoad := avgLoad;
          busiest := Some(k);
        }
      }
      k := k + 1;
    }
  }

  /** Loads after `n` tasks have moved from group `b` to group `mine`. */
  ghost predicate SafeMove(gs: seq<Group>, mine: int, b: int, n: int, avg: int)
    requires 0 <= mine < |gs| && 0 <= b < |gs| && gs[mine].power > 0 && gs[b].power > 0
  {
    var lt, lb := Sum(gs[mine].loads), Sum(gs[b].loads);
    && lb >= SCALE * n
    && Scaled(lt + SCALE * n, gs[mine].power) <= avg + 1
    && Scaled(lb - SCALE * n, gs[b].power) >= avg - 1
  }

  /** Facts at the point where the averages are subtracted: no difference is negative. */
  lemma AverageBetween(gs: seq<Group>, mine: int, totalLoad: int, totalPwr: int, thisLoad: int, busiest: Option<int>, maxLoad: int)
    requires DomainOk(gs, mine) && Scanned(gs, mine, |gs|, totalLoad, totalPwr, thisLoad, busiest, maxLoad)
    requires thisLoad <= maxLoad
    ensures totalPwr > 0 && Scaled(totalLoad, totalPwr) <= maxLoad && thisLoad >= 0
  {
    assert gs[..|gs|] == gs;
    PowerPositive(gs, mine);
    forall i | 0 <= i < |gs| ensures GroupOk(gs[i]) && (gs[i].loads != [] ==> GroupLoad(gs[i]) <= maxLoad) {
      assert gs[i].loads != [] && !gs[i].local ==> Other(gs, i);
    }
    AverageAtMostMax(gs, maxLoad);
    assert GroupOk(gs[mine]);
    DivAtLeast(Sum(gs[mine].loads) * SCALE, gs[mine].power, 0);
  }

  lemma {:induction false} PowerPositive(gs: seq<Group>, i: int)
    requires 0 <= i < |gs| && gs[i].loads != [] && forall j :: 0 <= j < |gs| ==> GroupOk(gs[j])
    ensures PowerSum(gs) > 0
  {
    var n := |gs| - 1;
    assert forall j :: 0 <= j < n ==> gs[..n][j] == gs[j];
    assert GroupOk(gs[n]);
    if i < n { PowerPositive(gs[..n], i); } else { PowerNonNeg(gs[..n]); }
  }

  lemma {:induction false} PowerNonNeg(gs: seq<Group>)
    requires forall j :: 0 <= j < |gs| ==> GroupOk(gs[j])
    ensures PowerSum(gs) >= 0
  {
    if gs != [] {
      var n := |gs| - 1;
      assert forall j :: 0 <= j < n ==> gs[..n][j] == gs[j];
      assert GroupOk(gs[n]);
      PowerNonNeg(gs[..n]);
    }
  }

  lemma ProportionalIsSafe(gs: seq<Group>, mine: int, b: int, thisLoad: int, maxLoad: int, avg: int, gap: int, n: int)
    requires 0 <= mine < |gs| && 0 <= b < |gs| && GroupOk(gs[mine]) && GroupOk(gs[b])
    requires thisLoad == GroupLoad(gs[mine]) && maxLoad == GroupLoad(gs[b]) && 0 <= thisLoad < avg <= maxLoad
    requires gap == Min(maxLoad - avg, avg - thisLoad) && n == Tasks(gap, Min(gs[b].power, gs[mine].power))
    requires gs[mine].power >= SCALE && gs[b].power >= SCALE
    ensures SafeMove(gs, mine, b, n, avg)
  {
    var share := Min(gs[b].power, gs[mine].power);
    PullKeepsBelow(Sum(gs[mine].loads), gs[mine].power, gap, share, n);
    PushKeepsAbove(Sum(gs[b].loads), gs[b].power, gap, share, n);
  }

  /** The small-imbalance test: would a move raise the used CPU power by an eighth of a CPU? */
  method WorthOne(maxLoad: int, thisLoad: int, busiestPower: int, thisPower: int) returns (ok: bool)
    requires busiestPower > 0 && thisPower > 0
    ensures maxLoad > 0 ==> (ok <==> Worth(maxLoad, busiestPower, thisLoad, thisPower))
  {
    if maxLoad - thisLoad >= SCALE * 2 {
      return true;
    }
    var pwrNow := busiestPower * Min(SCALE, maxLoad) + thisPower * Min(SCALE, thisLoad);
    pwrNow := pwrNow / SCALE;
    var tmp := SCALE * SCALE / busiestPower;
    var pwrMove := 0;
    if maxLoad > tmp {
      pwrMove := busiestPower * Min(SCALE, maxLoad - tmp);
    }
    tmp := SCALE * SCALE / thisPower;
    if maxLoad < tmp {
      tmp := maxLoad;
    }
    pwrMove := (pwrMove + thisPower * Min(SCALE, thisLoad + tmp)) / SCALE;
    ok := !(pwrMove < pwrNow + SCALE / 8);
  }

  /**
   `find_busiest_group`.  The group returned carries the largest load among the others; a request
   from the proportional path, as every request for two or more tasks is, pushes neither side across
   the average by more than one, with powers of at least one CPU.
   */
  method FindBusiestGroup(gs: seq<Group>, mine: int, imbalancePct: int, idle: Idle)
    returns (busiest: Option<int>, imbalance: nat)
    requires DomainOk(gs, mine)
    ensures busiest == None <==> imbalance == 0
    ensures busiest.Some? ==> Busiest(gs, busiest.value)
    ensures PowerSum(gs) > 0
    ensures forall b :: Busiest(gs, b) && gs[b].power > 0 && gs[mine].power > 0 ==>
              imbalance == Request(GroupLoad(gs[b]), gs[b].power, GroupLoad(gs[mine]), gs[mine].power,
                                   Scaled(LoadSum(gs), PowerSum(gs)), imbalancePct, idle)
    ensures forall b :: Busiest(gs, b) && gs[b].power > 0 && gs[mine].power > 0 ==>
              Answer(GroupLoad(gs[b]), gs[b].power, GroupLoad(gs[mine]), gs[mine].power,
                     Scaled(LoadSum(gs), PowerSum(gs)), imbalancePct, idle, imbalance)
    ensures forall b :: Busiest(gs, b) && gs[mine].power >= SCALE && gs[b].power >= SCALE
                        && (imbalance >= 2 || Proportional(GroupLoad(gs[b]), gs[b].power, GroupLoad(gs[mine]), gs[mine].power,
                                                           Scaled(LoadSum(gs), PowerSum(gs)), imbalancePct)) ==>
              busiest == Some(b) && SafeMove(gs, mine, b, imbalance, Scaled(LoadSum(gs), PowerSum(gs)))
    ensures idle == NewlyIdle ==> (busiest == None <==> forall i :: Other(gs, i) ==> GroupLoad(gs[i]) <= 0)
  {
    hide Scaled, Sum, LoadSum, PowerSum, Answer;
    var totalLoad, totalPwr, thisLoad, b, maxLoad := Scan(gs, mine);
    assert gs[..|gs|] == gs;
    busiest, imbalance := None, 0;
    PowerPositive(gs, mine);
    if b == None {
      return;
    }
    assert GroupOk(gs[mine]) && GroupOk(gs[b.value]) && Busiest(gs, b.value);
    assert forall c :: Busiest(gs, c) ==> c == b.value;
    AnswersExact(maxLoad, gs[b.value].power, thisLoad, gs[mine].power, Scaled(totalLoad, totalPwr), imbalancePct, idle);
    if thisLoad < maxLoad {
      AverageBetween(gs, mine, totalLoad, totalPwr, thisLoad, b, maxLoad);
      var avgLoad := Scaled(totalLoad, totalPwr);
      if thisLoad < avgLoad && imbalancePct * thisLoad < 100 * maxLoad {
        var gap: nat := Min(maxLoad - avgLoad, avgLoad - thisLoad);
        var share := Min(gs[b.value].power, gs[mine].power);
        TasksBound(gap, share, share, Tasks(gap, share));
        var amount := gap * share / SCALE;
        if amount < SCALE - 1 {
          var one := WorthOne(maxLoad, thisLoad, gs[b.value].power, gs[mine].power);
          if one {
            return b, 1;
          }
        } else {
          if gs[mine].power >= SCALE && gs[b.value].power >= SCALE {
            ProportionalIsSafe(gs, mine, b.value, thisLoad, maxLoad, avgLoad, gap, Tasks(gap, share));
          }
          return b, (amount + 1) / SCALE;
        }
      }
    }
    if idle == NewlyIdle || (idle == SchedIdle && maxLoad > SCALE) {
      return b, 1;
    }
  }
}
