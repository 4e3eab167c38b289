/**
 Any number of CPUs using the page lists of one zone at once.  A step is what one of them does under
 one hold of `lru_lock`, or an atomic change of a reference count outside it.
 */
module Reclaim {
  import opened Seqs
  import opened PageLists
  import opened LruZones

  type Cpu = int

  /**
   Where a page is: free; in use but on no list; on a list; in a page vector waiting to be added; on
   the private list of a shrinker, judged or not yet; on the private list of a refill.
   */
  datatype Place = Free | Loose | OnLru | InVec(cpu: Cpu, toActive: bool) | Cand(cpu: Cpu, judged: bool) | Held(cpu: Cpu)

  /** `users` counts the references other than the private lists'; `dying` the CPU that will free the page. */
  datatype World = World(z: Lists, place: map<Page, Place>, users: map<Page, int>, dying: map<Page, Cpu>)

  predicate Private(pl: Place) { pl.InVec? || pl.Cand? || pl.Held? }

  ghost predicate PageOk(pl: Place, users: int, count: int, lru: bool, act: bool, dying: bool) {
    && (lru <==> pl.OnLru?)
    && (pl.Free? || pl.Loose? || pl.InVec? || (pl.Cand? && !pl.judged) ==> !act)
    && (pl.Held? ==> act)
    && users >= 0 && count == users + (if Private(pl) then 1 else 0)
    && (pl.Free? ==> users == 0)
    && (dying <==> count == 0 && !pl.Free?)
  }

  ghost predicate WorldOk(w: World) {
    && Inv(w.z)
    && w.users.Keys == w.place.Keys && w.z.count.Keys == w.place.Keys && w.dying.Keys <= w.place.Keys
    && w.z.lru <= w.place.Keys && w.z.act <= w.place.Keys
    && forall p :: p in w.place ==> PageOk(w.place[p], w.users[p], w.z.count[p], p in w.z.lru, p in w.z.act, p in w.dying)
  }

  datatype Step =
    | Alloc(p: Page)
    | Get(p: Page)
    | Drop(cpu: Cpu, p: Page)
    | Finish(p: Page)
    | VecAdd(cpu: Cpu, p: Page, toActive: bool)
    | VecFlush(cpu: Cpu, ps: seq<Page>, toActive: bool)
    | Isolate(cpu: Cpu, w: Which, n: nat)
    | Judge(cpu: Cpu, p: Page, outcome: Outcome)
    | PutBack(cpu: Cpu, ps: seq<Page>)
    | Refile(cpu: Cpu, ps: seq<Page>, toActive: bool)
    | Activate(p: Page)
    | Rotate(p: Page)
    | MruScan(target: nat)

  function UsersOf(w: World, p: Page): int { if p in w.users then w.users[p] else 0 }

  ghost predicate AllAt(w: World, ps: seq<Page>, pl: Place) {
    NoDup(ps) && forall p :: p in ps ==> p in w.place && w.place[p] == pl
  }

  /** What the code doing the step knows: it uses pages it holds a reference on, or its own private lists. */
  ghost predicate Enabled(w: World, s: Step) {
    match s
    case Alloc(p) => p in w.place && w.place[p] == Free
    case Get(p) => UsersOf(w, p) >= 1
    case Drop(_, p) => UsersOf(w, p) >= 1
    case Finish(p) => p in w.dying
    case VecAdd(_, p, _) => p in w.place && w.place[p] == Loose && UsersOf(w, p) >= 1
    case VecFlush(c, ps, a) => AllAt(w, ps, InVec(c, a))
    case Isolate(_, _, _) => true
    case Judge(c, p, o) => p in w.place && w.place[p] == Cand(c, false) && (o == Freed ==> UsersOf(w, p) <= 1)
    case PutBack(c, ps) => AllAt(w, ps, Cand(c, true))
    case Refile(c, ps, _) => AllAt(w, ps, Held(c))
    case Activate(_) => true
    case Rotate(_) => true
    case MruScan(_) => true
  }

  ghost function Places(m: map<Page, Place>, ps: seq<Page>, pl: Place): map<Page, Place> {
    map p | p in m :: if p in ps then pl else m[p]
  }

  ghost function OneMore(m: map<Page, int>, ps: seq<Page>): map<Page, int> {
    map p | p in m :: if p in ps then m[p] + 1 else m[p]
  }

  /** The pages `ps` of a private list go to the lists; their private references become ordinary ones. */
  ghost function Back(w: World, ps: seq<Page>, d: Dest): World {
    w.(z := AddEach(w.z, ps, d), place := Places(w.place, ps, OnLru), users := OneMore(w.users, ps))
  }

  ghost function Counted(z: Lists, p: Page, delta: int): Lists { z.(count := z.count[p := Count(z, p) + delta]) }

  ghost function Apply(w: World, s: Step): World
    requires Enabled(w, s)
  {
    match s
    case Alloc(p) => w.(z := Counted(w.z, p, 1), place := w.place[p := Loose], users := w.users[p := 1])
    case Get(p) => w.(z := Counted(w.z, p, 1), users := w.users[p := UsersOf(w, p) + 1])
    case Drop(c, p) =>
      var y := w.(z := Counted(w.z, p, -1), users := w.users[p := UsersOf(w, p) - 1]);
      if Count(y.z, p) == 0 then y.(dying := y.dying[p := c]) else y
    case Finish(p) =>
      var y := w.(z := Dropped(w.z, p), dying := w.dying - {p});
      y.(place := y.place[p := if Count(y.z, p) == 0 then Free else Loose])
    case VecAdd(c, p, a) => w.(z := Counted(w.z, p, 1), place := w.place[p := InVec(c, a)])
    case VecFlush(c, ps, a) => Back(w, ps, To(if a then Active else Inactive))
    case Isolate(c, k, n) =>
      var r := Scan(w.z, k, n);
      w.(z := r.0, place := Places(w.place, r.1, if k == Active then Held(c) else Cand(c, false)))
    case Judge(c, p, o) =>
      (match o
       case Kept => w.(place := w.place[p := Cand(c, true)])
       case MadeActive => w.(z := w.z.(act := w.z.act + {p}), place := w.place[p := Cand(c, true)])
       case Freed => w.(z := Counted(w.z, p, -Count(w.z, p)), place := w.place[p := Free], users := w.users[p := 0]))
    case PutBack(c, ps) => Back(w, ps, ByFlag)
    case Refile(c, ps, a) => Back(w, ps, To(if a then Active else Inactive))
    case Activate(p) => w.(z := Activated(w.z, p))
    case Rotate(p) => w.(z := Rotated(w.z, p))
    case MruScan(target) => w.(z := MruScanned(w.z, target))
  }

  /** How many references a step adds to a page. */
  ghost function NewReferences(w: World, s: Step, p: Page): int {
    match s
    case Alloc(q) => if q == p then 1 else 0
    case Get(q) => if q == p then 1 else 0
    case VecAdd(_, q, _) => if q == p then 1 else 0
    case Drop(_, q) => if q == p then -1 else 0
    case Judge(_, q, o) => if q == p && o == Freed then -Count(w.z, p) else 0
    case Isolate(_, k, n) => if p in Scan(w.z, k, n).1 then 1 else 0
    case _ => 0
  }

  /** Nothing else changes a reference count. */
  lemma StepReferences(w: World, s: Step, p: Page)
    requires WorldOk(w) && Enabled(w, s)
    ensures Count(Apply(w, s).z, p) == Count(w.z, p) + NewReferences(w, s, p)
  {
    hide Inv, Places, OneMore;
    match s {
      case Finish(q) => DroppedOk(w.z, q);
      case VecFlush(c, ps, a) => BackReferences(w, ps, To(if a then Active else Inactive));
      case PutBack(c, ps) => BackReferences(w, ps, ByFlag);
      case Refile(c, ps, a) => BackReferences(w, ps, To(if a then Active else Inactive));
      case Isolate(c, k, n) => ScanOk(w.z, k, n);
      case Activate(q) => ActivatedOk(w.z, q);
      case Rotate(q) => RotatedOk(w.z, q);
      case _ =>
    }
  }

  lemma {:induction false} BackReferences(w: World, ps: seq<Page>, d: Dest)
    ensures Back(w, ps, d).z.count == w.z.count
  {
    EachReferences(w.z, ps, d);
  }

  lemma {:induction false} EachReferences(z: Lists, ps: seq<Page>, d: Dest)
    ensures AddEach(z, ps, d).count == z.count
  {
    if ps != [] { EachReferences(z, ps[..|ps| - 1], d); }
  }

  /** A page that reclaim keeps goes to the active list exactly when it was marked on the way, else to the inactive one. */
  lemma MarkedGoesActive(w: World, c: Cpu, o: Outcome, p: Page)
    requires WorldOk(w) && Enabled(w, Judge(c, p, o)) && o != Freed
    ensures var y := Apply(w, Judge(c, p, o));
            && p !in w.z.lru
            && Enabled(y, PutBack(c, [p]))
            && var x := Apply(y, PutBack(c, [p]));
               (p in x.z.active <==> o == MadeActive) && (p in x.z.inactive <==> o == Kept)
  {
    var y := Apply(w, Judge(c, p, o));
    assert [p][..0] == [];
    assert AddEach(y.z, [p], ByFlag) == Added(AddEach(y.z, [], ByFlag), p, DestOf(y.z, p, ByFlag));
    assert PageOk(w.place[p], UsersOf(w, p), Count(w.z, p), p in w.z.lru, p in w.z.act, p in w.dying);
    assert p !in w.z.lru;
    OneList(w.z, p);
  }

  /** The conditions the code guards with BUG, WARN_ON or a repeated test: they hold at every step. */
  ghost predicate NoBug(w: World, s: Step) {
    match s
    case Finish(p) => Count(w.z, p) == 0 && !(p in w.z.act && p in w.z.victim)
    case VecFlush(_, ps, _) => forall p :: p in ps ==> p !in w.z.lru && p !in w.z.act && p !in w.z.victim
    case Isolate(_, k, _) => forall p :: p in ListOf(w.z, k) ==> p in w.z.lru
    case Judge(_, p, _) => p !in w.z.act && p !in w.z.lru
    case PutBack(_, ps) => forall p :: p in ps ==> p !in w.z.lru
    case Refile(_, ps, _) => forall p :: p in ps ==> p !in w.z.lru && p in w.z.act
    case MruScan(_) => w.z.nrActive == |w.z.active|
    case _ => true
  }

  lemma StepHasNoBug(w: World, s: Step)
    requires WorldOk(w) && Enabled(w, s)
    ensures NoBug(w, s)
  {
  }

  // ---------------------------------------------------------------- every step keeps the invariant

  /** `y` differs from `w` only at page `p`, which is on no list or keeps its flag. */
  lemma OneChanged(w: World, y: World, p: Page)
    requires WorldOk(w) && p in w.place && Inv(y.z)
    requires y.z.lru == w.z.lru && y.place.Keys == w.place.Keys && y.users.Keys == w.users.Keys && y.z.count.Keys == w.z.count.Keys
    requires y.dying.Keys <= w.dying.Keys + {p} && w.dying.Keys <= y.dying.Keys + {p} && y.z.act <= w.z.act + {p} && w.z.act <= y.z.act + {p}
    requires forall q :: q in w.place && q != p ==> y.place[q] == w.place[q] && y.users[q] == w.users[q] && y.z.count[q] == w.z.count[q]
    requires PageOk(y.place[p], y.users[p], y.z.count[p], p in y.z.lru, p in y.z.act, p in y.dying)
    ensures WorldOk(y)
  {
    hide Inv, PageOk;
    forall q | q in y.place
      ensures PageOk(y.place[q], y.users[q], y.z.count[q], q in y.z.lru, q in y.z.act, q in y.dying)
    {
      if q != p {
        assert q in y.z.act <==> q in w.z.act;
        assert q in y.dying.Keys <==> q in w.dying.Keys;
      }
    }
  }

  lemma OneCount(w: World, s: Step)
    requires WorldOk(w) && Enabled(w, s) && (s.Alloc? || s.Get? || s.Drop? || s.VecAdd?)
    ensures WorldOk(Apply(w, s))
  {
    hide Inv;
    var p := s.p;
    assert p in w.place;
    var y := Apply(w, s);
    SameInv(w.z, y.z);
    OneChanged(w, y, p);
  }

  lemma JudgeOk(w: World, s: Step)
    requires WorldOk(w) && Enabled(w, s) && s.Judge?
    ensures WorldOk(Apply(w, s))
  {
    hide Inv;
    var p := s.p;
    assert p !in w.z.lru;
    var y := Apply(w, s);
    SameInv(w.z, y.z);
    OneChanged(w, y, p);
  }

  lemma FinishOk(w: World, p: Page)
    requires WorldOk(w) && Enabled(w, Finish(p))
    ensures WorldOk(Apply(w, Finish(p))) && Apply(w, Finish(p)).place[p] == Free
  {
    assert p in w.place;
    DroppedOk(w.z, p);
    hide Inv, Dropped;
    var y := Apply(w, Finish(p));
    assert y.place[p] == Free;
  }

  lemma BackKeepsOk(w: World, ps: seq<Page>, pl: Place, d: Dest)
    requires WorldOk(w) && AllAt(w, ps, pl) && Private(pl) && d != To(Safety)
    ensures WorldOk(Back(w, ps, d))
  {
    hide Inv, AddEach;
    assert forall p :: p in ps ==> p !in w.z.lru;
    AddEachOk(w.z, ps, d);
    var y := Back(w, ps, d);
    assert y.place.Keys == w.place.Keys && y.users.Keys == w.users.Keys;
    forall p | p in y.z.lru ensures p in w.place.Keys { }
    forall p | p in y.z.act ensures p in w.place.Keys { }
    forall p | p in y.place
      ensures PageOk(y.place[p], y.users[p], y.z.count[p], p in y.z.lru, p in y.z.act, p in y.dying)
    {
      assert PageOk(w.place[p], w.users[p], w.z.count[p], p in w.z.lru, p in w.z.act, p in w.dying);
    }
  }

  lemma IsolateOk(w: World, c: Cpu, k: Which, n: nat)
    requires WorldOk(w)
    ensures WorldOk(Apply(w, Isolate(c, k, n)))
  {
    hide Inv, Scan;
    ScanOk(w.z, k, n);
    OnList(w.z, k);
    var y, t := Apply(w, Isolate(c, k, n)), Scan(w.z, k, n).1;
    assert forall p :: p in t ==> p in w.place;
    assert y.place.Keys == w.place.Keys;
    forall p ensures p in y.z.count.Keys <==> p in w.place.Keys { assert p in y.z.count <==> p in w.z.count || p in t; }
    forall p | p in y.z.lru ensures p in w.place.Keys { }
    forall p | p in y.place
      ensures PageOk(y.place[p], y.users[p], y.z.count[p], p in y.z.lru, p in y.z.act, p in y.dying)
    {
      assert PageOk(w.place[p], w.users[p], w.z.count[p], p in w.z.lru, p in w.z.act, p in w.dying);
      assert Count(y.z, p) == Count(w.z, p) + if p in t then 1 else 0;
    }
  }

  lemma OnList(z: Lists, k: Which)
    requires Inv(z)
    ensures forall p :: p in ListOf(z, k) ==> p in z.lru && (p in z.act <==> k == Active)
  {
  }

  lemma StepKeepsOk(w: World, s: Step)
    requires WorldOk(w) && Enabled(w, s)
    ensures WorldOk(Apply(w, s))
  {
    match s
    case Finish(p) => FinishOk(w, p);
    case VecFlush(c, ps, a) => BackKeepsOk(w, ps, InVec(c, a), To(if a then Active else Inactive));
    case PutBack(c, ps) => BackKeepsOk(w, ps, Cand(c, true), ByFlag);
    case Refile(c, ps, a) => BackKeepsOk(w, ps, Held(c), To(if a then Active else Inactive));
    case Isolate(c, k, n) => IsolateOk(w, c, k, n);
    case Activate(p) => ActivatedOk(w.z, p);
    case Rotate(p) => RotatedOk(w.z, p);
    case MruScan(target) =>
      MovedOk(w.z, Min(|w.z.active|, Max(0, target - |w.z.safety|)));
    case Judge(_, _, _) => JudgeOk(w, s);
    case _ => OneCount(w, s);
  }

  // ---------------------------------------------------------------- runs

  /** The zone after boot: every page is free, the lists are empty. */
  ghost function Boot(pages: set<Page>): World {
    World(Lists([], [], [], 0, 0, 0, {}, {}, {}, map p | p in pages :: 0),
          map p | p in pages :: Free, map p | p in pages :: 0, map[])
  }

  lemma BootOk(pages: set<Page>)
    ensures WorldOk(Boot(pages))
  {
  }

  ghost predicate Run(ws: seq<World>, ss: seq<Step>) {
    && |ws| == |ss| + 1
    && forall i :: 0 <= i < |ss| ==> Enabled(ws[i], ss[i]) && ws[i + 1] == Apply(ws[i], ss[i])
  }

  lemma {:induction false} RunKeepsOk(ws: seq<World>, ss: seq<Step>, i: nat)
    requires Run(ws, ss) && WorldOk(ws[0]) && i < |ws|
    ensures WorldOk(ws[i])
    decreases i
  {
    hide WorldOk, Apply, Enabled;
    if i > 0 {
      RunKeepsOk(ws, ss, i - 1);
      StepKeepsOk(ws[i - 1], ss[i - 1]);
    }
  }

  /**
   In every interleaving from boot, whenever the lock is free: flags, lists and counters agree; no
   BUG has a chance to fire; and a free page is referenced by nobody and has no list flag.
   */
  lemma PageListsStayConsistent(pages: set<Page>, ws: seq<World>, ss: seq<Step>, i: nat, p: Page)
    requires Run(ws, ss) && ws[0] == Boot(pages) && i < |ws|
    ensures Inv(ws[i].z) && (i < |ss| ==> NoBug(ws[i], ss[i]))
    ensures p in ws[i].z.lru ==> forall k :: p in ListOf(ws[i].z, k) <==> k == Home(ws[i].z, p)
    ensures p in ws[i].place && ws[i].place[p] == Free ==>
              Count(ws[i].z, p) == 0 && p !in ws[i].z.lru && p !in ws[i].z.act && p !in ws[i].z.victim
    ensures p in ws[i].place && Private(ws[i].place[p]) ==> Count(ws[i].z, p) >= 1 && forall k :: p !in ListOf(ws[i].z, k)
  {
    hide Apply, Enabled;
    BootOk(pages);
    RunKeepsOk(ws, ss, i);
    OneList(ws[i].z, p);
    if i < |ss| { StepHasNoBug(ws[i], ss[i]); }
  }

  /**
   In every interleaving each batch of shrink_cache_mru is taken in most-recently-used-first order: it
   is exactly the pages not being freed elsewhere among the `n` nearest the tail of the safety list at
   that moment, nearest first.
   */
  lemma EveryBatchFromTheTail(pages: set<Page>, ws: seq<World>, ss: seq<Step>, i: nat)
    requires Run(ws, ss) && ws[0] == Boot(pages) && i < |ss| && ss[i].Isolate?
    ensures var z := ws[i].z; var r := Scan(z, ss[i].w, ss[i].n); var l := ListOf(z, ss[i].w);
            && ws[i + 1].z == r.0 && Rev(r.1) == Offer(z, Nearest(l, ss[i].n))
            && Offer(z, l) == Rev(r.1) + Offer(r.0, ListOf(r.0, ss[i].w))
  {
    hide Inv, Scan, Offer, Rev;
    BootOk(pages);
    RunKeepsOk(ws, ss, i);
    ScanTakesTail(ws[i].z, ss[i].w, ss[i].n);
    ScanOffers(ws[i].z, ss[i].w, ss[i].n);
  }
}
