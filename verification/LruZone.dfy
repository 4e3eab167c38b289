/** The locked sections that move pages between the lists, updating flags, lists and counters in place. */
module LruZones {
  import opened Seqs
  import opened PageLists

  const PAGEVEC_SIZE := 14

  /** What reclaim makes of one page; the inside of shrink_list is not modelled. */
  datatype Outcome = Kept | MadeActive | Freed

  /** The page vector awaiting release: each page in it is referenced by it, and none is on the safety list. */
  ghost predicate PvecOk(z: Lists, vec: seq<Page>) {
    |vec| < PAGEVEC_SIZE && VecOk(z, vec)
  }

  ghost predicate VecOk(z: Lists, vec: seq<Page>) {
    && NoDup(vec)
    && (forall p :: p in vec ==> Count(z, p) >= 1 && p !in z.victim)
    && (forall p :: p in z.safety ==> Count(z, p) >= 0)
  }

  /** Isolated pages ready to go back: referenced, on no list and not in the page vector. */
  ghost predicate BackReady(z: Lists, l: seq<Page>, vec: seq<Page>) {
    NoDup(l) && forall p :: p in l ==> p !in z.lru && p !in vec && Count(z, p) >= 1
  }

  /** The page is on a list, or nobody refers to it any more. */
  ghost predicate NotLost(z: Lists, p: Page) { p in z.lru || Count(z, p) == 0 }

  lemma BackFacts(z: Lists, l: seq<Page>, vec: seq<Page>)
    requires PvecOk(z, vec) && BackReady(z, l, vec)
    ensures |vec| < PAGEVEC_SIZE && NoDup(l) && forall p :: p in l ==> p !in z.lru
  {
  }

  lemma BackStep(z: Lists, y: Lists, l: seq<Page>, rest: seq<Page>, added: seq<Page>, vec: seq<Page>)
    requires Inv(z) && PvecOk(z, vec) && BackReady(z, l, vec) && l == rest + Rev(added)
    requires AddedAll(z, y, added, ByFlag) && |added| <= PAGEVEC_SIZE - |vec| && (rest == [] || |added| == PAGEVEC_SIZE - |vec|)
    ensures l != [] ==> |rest| < |l|
    ensures |vec + added| < PAGEVEC_SIZE ==> PvecOk(y, vec + added)
    ensures VecOk(y, vec + added) && |vec + added| <= PAGEVEC_SIZE && BackReady(y, rest, vec + added)
    ensures y.safety == z.safety && y.victim == z.victim && y.count == z.count
    ensures NoDup(vec + added) && forall p :: p in vec + added ==> Count(y, p) >= 1 && p !in y.victim
    ensures forall p :: p in l || NotLost(z, p) ==> p in rest || NotLost(y, p)
  {
    BackParts(l, rest, added);
    forall p | p in added ensures p in l && p !in z.victim && p !in vec { }
    assert forall p :: p in vec + added <==> p in vec || p in added;
    assert forall p :: Count(y, p) == Count(z, p);
    NoDupConcat(vec, added);
  }

  lemma BackReleased(z: Lists, y: Lists, rest: seq<Page>, vec: seq<Page>)
    requires BackReady(z, rest, vec) && VecOk(z, vec) && y.safety == z.safety && y.victim == z.victim
    requires Inv(z)
    requires forall p :: p !in vec ==> Count(y, p) == Count(z, p) && (p in y.lru <==> p in z.lru)
    requires forall p :: p in vec ==> Count(y, p) == Count(z, p) - 1 && (p in y.lru <==> p in z.lru && Count(y, p) > 0)
    ensures PvecOk(y, []) && BackReady(y, rest, []) && forall p :: p in y.safety ==> Count(y, p) == Count(z, p)
    ensures forall p :: NotLost(z, p) ==> NotLost(y, p)
  {
    assert forall p :: p in z.safety ==> p !in vec;
  }

  /**
   Each occurrence of a page in `vec` took a reference of it; a page without references left its list;
   pages not in `vec`, and the safety list if `vec` has no page of it, are as before.
   */
  ghost predicate ReleasedFrom(z: Lists, y: Lists, vec: seq<Page>) {
    && (forall p :: Count(y, p) == Count(z, p) - multiset(vec)[p])
    && (forall p :: p in y.lru <==> p in z.lru && !(p in vec && Count(y, p) == 0))
    && (forall p :: p in y.victim <==> p in z.victim && p in y.lru)
    && (forall p :: p in y.lru ==> (p in y.act <==> p in z.act))
    && ((forall p :: p in vec ==> p !in z.victim) ==> y.safety == z.safety)
  }

  lemma ReleasedNone(z: Lists)
    requires Inv(z)
    ensures ReleasedFrom(z, z, [])
  {
  }

  lemma PrefixTimes(vec: seq<Page>, i: nat)
    requires i < |vec|
    ensures multiset(vec[..i + 1]) == multiset(vec[..i]) + multiset{vec[i]}
    ensures multiset(vec[..i])[vec[i]] < multiset(vec)[vec[i]]
    ensures forall p :: p in vec[..i + 1] <==> p in vec[..i] || p == vec[i]
  {
    assert vec[..i + 1] == vec[..i] + [vec[i]];
    assert vec == vec[..i + 1] + vec[i + 1..];
  }

  lemma StillReferenced(z: Lists, y: Lists, vec: seq<Page>, i: nat)
    requires i < |vec| && ReleasedFrom(z, y, vec[..i]) && forall p :: p in vec ==> Count(z, p) >= multiset(vec)[p]
    ensures Count(y, vec[i]) >= 1
  {
    PrefixTimes(vec, i);
    assert vec[i] in vec;
  }

  lemma AddInFront(t: seq<Page>, p: Page, list: seq<Page>)
    ensures t + [p] + list == t + ([p] + list)
  {
  }

  /** One reference of page `p` went. */
  ghost predicate OneReleased(y: Lists, x: Lists, p: Page) {
    && (forall q :: Count(x, q) == Count(y, q) - if q == p then 1 else 0)
    && (forall q :: q in x.lru <==> q in y.lru && !(q == p && Count(x, q) == 0))
    && (forall q :: q in x.victim <==> q in y.victim && q in x.lru)
    && (forall q :: q in x.lru ==> (q in x.act <==> q in y.act))
    && (p !in y.victim ==> x.safety == y.safety)
  }

  function AfterRelease(y: Lists, p: Page): Lists {
    if Count(y, p) == 1 then Dropped(y.(count := y.count[p := 0]), p)
    else y.(count := y.count[p := Count(y, p) - 1])
  }

  lemma ReleaseOk(y: Lists, p: Page)
    requires Inv(y) && Count(y, p) >= 1
    ensures OneReleased(y, AfterRelease(y, p), p)
  {
    var c := y.(count := y.count[p := Count(y, p) - 1]);
    SameInv(y, c);
    DroppedOk(c, p);
    assert y.victim <= y.lru;
    hide Inv, Dropped;
    assert forall q :: Count(c, q) == Count(y, q) - if q == p then 1 else 0;
    assert forall q :: Count(Dropped(c, p), q) == Count(c, q);
  }

  lemma ReleasedMore(z: Lists, y: Lists, x: Lists, vec: seq<Page>, i: nat)
    requires i < |vec| && ReleasedFrom(z, y, vec[..i]) && OneReleased(y, x, vec[i])
    requires forall q :: q in vec[..i] && Count(y, q) == 0 ==> q != vec[i]
    ensures ReleasedFrom(z, x, vec[..i + 1])
  {
    PrefixTimes(vec, i);
  }

  /** The next page of the vector. */
  lemma ReleaseOne(z: Lists, y: Lists, vec: seq<Page>, i: nat)
    requires Inv(y) && i < |vec| && ReleasedFrom(z, y, vec[..i]) && Count(y, vec[i]) >= 1
    ensures ReleasedFrom(z, AfterRelease(y, vec[i]), vec[..i + 1])
  {
    hide Inv, AfterRelease, ReleasedFrom, OneReleased;
    ReleaseOk(y, vec[i]);
    ReleasedMore(z, y, AfterRelease(y, vec[i]), vec, i);
  }

  /** The same for a vector without repetitions and without safety pages. */
  lemma ReleasedOnce(z: Lists, y: Lists, vec: seq<Page>)
    requires ReleasedFrom(z, y, vec) && NoDup(vec) && Inv(z) && Inv(y) && forall p :: p in vec ==> Count(z, p) >= 1 && p !in z.victim
    ensures y.safety == z.safety && y.victim == z.victim
    ensures forall p :: p !in vec ==> Count(y, p) == Count(z, p) && (p in y.lru <==> p in z.lru)
    ensures forall p :: p in vec ==> Count(y, p) == Count(z, p) - 1 && (p in y.lru <==> p in z.lru && Count(y, p) > 0)
  {
    forall p | p in vec ensures multiset(vec)[p] == 1 { OnceEach(vec, p); }
    assert forall p :: p in y.victim <==> p in z.victim;
  }

  lemma {:induction false} OnceEach(vec: seq<Page>, p: Page)
    requires NoDup(vec) && p in vec
    ensures multiset(vec)[p] == 1
  {
    var n := |vec| - 1;
    assert vec == vec[..n] + [vec[n]];
    if vec[n] == p {
      assert p !in vec[..n];
    } else {
      OnceEach(vec[..n], p);
    }
  }

  lemma PvecFacts(z: Lists, vec: seq<Page>)
    requires VecOk(z, vec)
    ensures NoDup(vec) && (forall p :: p in vec ==> Count(z, p) >= 1 && p !in z.victim)
    ensures forall p :: p in vec ==> Count(z, p) >= multiset(vec)[p]
  {
    forall p | p in vec ensures multiset(vec)[p] == 1 { OnceEach(vec, p); }
  }

  lemma PvecReady(z: Lists, vec: seq<Page>)
    requires PvecOk(z, vec)
    ensures NoDup(vec) && (forall p :: p in vec ==> Count(z, p) >= 1 && p !in z.victim)
    ensures forall p :: p in vec ==> Count(z, p) >= multiset(vec)[p]
  {
    PvecFacts(z, vec);
  }

  lemma ReleasedKept(z: Lists, y: Lists, vec: seq<Page>)
    requires PvecOk(z, vec)
    requires forall p :: p !in vec ==> Count(y, p) == Count(z, p) && (p in y.lru <==> p in z.lru)
    requires forall p :: p in vec ==> Count(y, p) == Count(z, p) - 1 && (p in y.lru <==> p in z.lru && Count(y, p) > 0)
    ensures forall p :: NotLost(z, p) ==> NotLost(y, p)
  {
  }

  lemma ShrinkStart(z: Lists)
    requires forall p :: p in z.safety ==> Count(z, p) >= 0
    ensures PvecOk(z, []) && forall p :: p in z.lru ==> NotLost(z, p)
  {
  }

  /** A page that is not lost is isolated or still not lost. */
  lemma TakenNotLost(z: Lists, y: Lists, l: seq<Page>)
    requires TookFrom(z, y, Safety, l)
    ensures forall p :: NotLost(z, p) ==> p in l || NotLost(y, p)
  {
  }

  /** Isolated pages that shrink_list did not keep are free; the others are untouched. */
  lemma NoneLost(y: Lists, x: Lists, l: seq<Page>, kept: seq<Page>)
    requires x.lru == y.lru
    requires forall p :: p in l && p !in kept ==> Count(x, p) == 0
    requires forall p :: p !in l ==> Count(x, p) == Count(y, p)
    ensures forall p :: p in l || NotLost(y, p) ==> p in kept || NotLost(x, p)
  {
  }

  lemma NoDupConcat(s: seq<Page>, t: seq<Page>)
    requires NoDup(s) && NoDup(t) && forall p :: p in t ==> p !in s
    ensures NoDup(s + t)
  {
    forall i, j | 0 <= i < j < |s + t| ensures (s + t)[i] != (s + t)[j] {
      if i < |s| <= j { assert t[j - |s|] in t; }
    }
  }

  /** Of the pages `all` those in `todo` are untried; of the others those in `kept` are kept, the rest freed. */
  ghost predicate Judged(z: Lists, y: Lists, all: set<Page>, todo: set<Page>, kept: seq<Page>) {
    && todo <= all && NoDup(kept)
    && (forall p :: p in kept ==> p in all && p !in todo && Count(y, p) >= 1)
    && (forall p :: p in all && p !in todo && p !in kept ==> Count(y, p) == 0 && p !in y.act)
    && (forall p :: p in todo ==> p !in y.act && Count(y, p) >= 1)
    && (forall p :: p !in all ==> (p in y.act <==> p in z.act) && Count(y, p) == Count(z, p))
  }

  lemma JudgedOne(z: Lists, y: Lists, x: Lists, all: set<Page>, todo: set<Page>, p: Page, kept: seq<Page>, kept': seq<Page>, outcome: Outcome)
    requires p in todo && Judged(z, y, all, todo, kept)
    requires x == match outcome
                  case Freed => y.(count := y.count[p := 0])
                  case MadeActive => y.(act := y.act + {p})
                  case Kept => y
    requires kept' == if outcome == Freed then kept else [p] + kept
    ensures Judged(z, x, all, todo - {p}, kept')
  {
    NoDupHead(kept, p);
    hide NoDup;
    assert forall q :: q != p ==> Count(x, q) == Count(y, q);
  }

  /** The untried pages when the last one of them is tried. */
  lemma TryLast(l: seq<Page>, i: nat)
    requires NoDup(l) && i < |l|
    ensures l[i] in Elems(l[..i + 1]) && Elems(l[..i]) == Elems(l[..i + 1]) - {l[i]}
  {
    PrefixFacts(l, i);
  }

  /** Only flags and counts of pages on no list differ. */
  lemma SameInv(z: Lists, y: Lists)
    requires Inv(z) && y == z.(act := y.act, count := y.count)
    requires forall p :: p in z.lru ==> (p in y.act <==> p in z.act)
    ensures Inv(y)
  {
    forall p | p in y.victim ensures p !in y.act { assert p in z.lru; }
  }

  lemma PvecAfterTake(z: Lists, y: Lists, vec: seq<Page>, l: seq<Page>)
    requires Inv(z) && Inv(y) && PvecOk(z, vec) && TookFrom(z, y, Safety, l)
    ensures PvecOk(y, vec) && BackReady(y, l, vec) && forall p :: p in l ==> p !in y.act && Count(y, p) >= 1
  {
    forall p | p in l ensures p in z.victim && p !in vec && p !in y.act && Count(y, p) >= 1 { }
    forall p | p in y.safety ensures Count(y, p) >= 0 { assert p in z.safety; }
  }

  lemma AfterShrink(z: Lists, y: Lists, l: seq<Page>, kept: seq<Page>, vec: seq<Page>)
    requires Inv(z) && PvecOk(z, vec) && BackReady(z, l, vec) && y == z.(act := y.act, count := y.count)
    requires NoDup(kept) && forall p :: p in kept ==> p in l && Count(y, p) >= 1
    requires forall p :: p !in l ==> (p in y.act <==> p in z.act) && Count(y, p) == Count(z, p)
    ensures Inv(y) && PvecOk(y, vec) && BackReady(y, kept, vec)
    ensures forall p :: p in z.safety ==> Count(y, p) == Count(z, p)
  {
    SameInv(z, y);
    assert forall p :: p in z.safety ==> p !in l;
    assert forall p :: p in vec ==> p !in l;
  }

  /** Adjusting the counter once at the end is as good as adjusting it page by page. */
  lemma CounterLater(v: Lists, z: Lists, w: Which, taken: int)
    requires SetList(v, w, ListOf(v, w), -taken) == z && ListOf(v, w) != []
    ensures var l := ListOf(v, w); var k := l[..|l| - 1]; var p := l[|l| - 1];
            && ListOf(z, w) == l && v.lru == z.lru && Count(v, p) == Count(z, p)
            && (var y := SetList(Isolated(v, w), w, k, 1); SetList(y, w, ListOf(y, w), -(taken + 1)) == Isolated(z, w))
            && (var y := Skipped(v, w); SetList(y, w, ListOf(y, w), -taken) == Skipped(z, w))
  {
    match w
    case Active =>
    case Inactive =>
    case Safety =>
  }

  class LruZone {
    var active: seq<Page>
    var inactive: seq<Page>
    var safety: seq<Page>
    var nrActive: int
    var nrInactive: int
    var nrSafety: int
    var lru: set<Page>
    var act: set<Page>
    var victim: set<Page>
    var count: map<Page, int>
    var referenced: set<Page>

    ghost function Value(): Lists
      reads this
    {
      Lists(active, inactive, safety, nrActive, nrInactive, nrSafety, lru, act, victim, count)
    }

    /** free_area_init_core, with the safety counter at zero. */
    constructor ()
      ensures Value() == Lists([], [], [], 0, 0, 0, {}, {}, {}, map[]) && Inv(Value())
    {
      active, inactive, safety := [], [], [];
      nrActive, nrInactive, nrSafety := 0, 0, 0;
      lru, act, victim, count, referenced := {}, {}, {}, map[], {};
    }

    method ListDel(p: Page)
      modifies this`active, this`inactive, this`safety
      ensures Value() == Unlinked(old(Value()), p)
    {
      active, inactive, safety := Without(active, p), Without(inactive, p), Without(safety, p);
    }

    method AddPageToSafetyList(p: Page)
      modifies this`safety, this`nrSafety, this`victim
      ensures Value() == old(Value()).(safety := [p] + old(safety), nrSafety := old(nrSafety) + 1, victim := old(victim) + {p})
    {
      safety, nrSafety, victim := [p] + safety, nrSafety + 1, victim + {p};
    }

    method DelPageFromSafetyList(p: Page)
      modifies this`active, this`inactive, this`safety, this`nrSafety, this`victim
      ensures Value() == Unlinked(old(Value()), p).(nrSafety := old(nrSafety) - 1, victim := old(victim) - {p})
    {
      ListDel(p);
      nrSafety, victim := nrSafety - 1, victim - {p};
    }

    method AddPageToActiveList(p: Page)
      modifies this`active, this`nrActive
      ensures Value() == old(Value()).(active := [p] + old(active), nrActive := old(nrActive) + 1)
    {
      active, nrActive := [p] + active, nrActive + 1;
    }

    method AddPageToInactiveList(p: Page)
      modifies this`inactive, this`nrInactive
      ensures Value() == old(Value()).(inactive := [p] + old(inactive), nrInactive := old(nrInactive) + 1)
    {
      inactive, nrInactive := [p] + inactive, nrInactive + 1;
    }

    method DelPageFromActiveList(p: Page)
      modifies this`active, this`inactive, this`safety, this`nrActive
      ensures Value() == Unlinked(old(Value()), p).(nrActive := old(nrActive) - 1)
    {
      ListDel(p);
      nrActive := nrActive - 1;
    }

    method DelPageFromInactiveList(p: Page)
      modifies this`active, this`inactive, this`safety, this`nrInactive
      ensures Value() == Unlinked(old(Value()), p).(nrInactive := old(nrInactive) - 1)
    {
      ListDel(p);
      nrInactive := nrInactive - 1;
    }

    /** del_page_from_lru, called just after PG_lru was cleared; its warning never fires. */
    method DelPageFromLru(p: Page)
      requires p !in victim || p !in act
      modifies this
      ensures Value() == Taken(old(Value()), p).(lru := old(lru), act := old(act) - {p})
    {
      ListDel(p);
      if p in act {
        act := act - {p};
        assert p !in victim;
        assert victim - {p} == victim;
        nrActive := nrActive - 1;
      } else if p in victim {
        victim := victim - {p};
        nrSafety := nrSafety - 1;
      } else {
        assert victim - {p} == victim;
        nrInactive := nrInactive - 1;
      }
      assert p !in old(act) ==> old(act) - {p} == act;
    }

    /** activate_page: the page ends up at the head of the active list if it was on another. */
    method ActivatePage(p: Page)
      requires Inv(Value())
      modifies this
      ensures Value() == Activated(old(Value()), p) && Inv(Value()) && referenced == old(referenced)
    {
      ActivatedOk(Value(), p);
      if p in lru && p !in act {
        if p in victim {
          DelPageFromSafetyList(p);
        } else {
          DelPageFromInactiveList(p);
          assert old(victim) - {p} == victim;
        }
        act := act + {p};
        AddPageToActiveList(p);
        assert old(lru) - {p} + {p} == lru;
      }
    }

    /** rotate_reclaimable_page under the lock; the unlocked tests before it only skip it. */
    method RotateReclaimablePage(p: Page)
      requires Inv(Value())
      modifies this`active, this`inactive, this`safety
      ensures Value() == Rotated(old(Value()), p) && Inv(Value())
    {
      RotatedOk(Value(), p);
      if p in lru && p !in act {
        ListDel(p);
        if p in victim {
          safety := safety + [p];
        } else {
          inactive := inactive + [p];
        }
      }
    }

    /**
     One page of release_pages: the reference goes; at zero the page leaves its list and, the count
     being still zero under the lock, is freed with no list flag set.
     */
    method ReleasePage(p: Page) returns (freed: bool)
      requires Inv(Value()) && Count(Value(), p) >= 1
      modifies this
      ensures Inv(Value())
      ensures Value() == if freed then Dropped(old(Value()).(count := old(count)[p := 0]), p)
                         else old(Value()).(count := old(count)[p := Count(old(Value()), p) - 1])
      ensures freed <==> Count(old(Value()), p) == 1
      ensures freed ==> p !in lru && p !in victim && (p in old(lru) ==> p !in act)
    {
      count := count[p := count[p] - 1];
      if count[p] != 0 { return false; }
      ghost var z := Value();
      DroppedOk(z, p);
      if p in lru {
        lru := lru - {p};
        DelPageFromLru(p);
      }
      freed := count[p] == 0;
    }

    /**
     The isolating loop of shrink_cache (inactive), shrink_cache_mru (safety) and
     refill_inactive_zone (active): the counter is adjusted once, after the loop.
     */
    method IsolatePages(w: Which, max: nat) returns (pageList: seq<Page>, scanned: nat)
      requires Inv(Value())
      modifies this
      ensures Value() == Scan(old(Value()), w, max).0 && pageList == Scan(old(Value()), w, max).1
      ensures Inv(Value()) && TookFrom(old(Value()), Value(), w, pageList)
      ensures scanned <= max && (scanned < max ==> ListOf(Value(), w) == [])
    {
      hide Inv, TookFrom, Scan, Isolated, Skipped;
      ghost var z0 := Value();
      ScanOk(z0, w, max);
      var taken := 0;
      scanned := 0;
      pageList := [];
      ghost var z := z0;
      assert Scan(z0, w, max).1 + pageList == Scan(z0, w, max).1;
      while scanned < max && ListOf(Lists(active, inactive, safety, 0, 0, 0, {}, {}, {}, map[]), w) != []
        invariant 0 <= scanned <= max && taken == |pageList|
        invariant Inv(z) && SetList(Value(), w, ListOf(Value(), w), -taken) == z
        invariant Scan(z0, w, max).0 == Scan(z, w, max - scanned).0
        invariant Scan(z0, w, max).1 == Scan(z, w, max - scanned).1 + pageList
        decreases max - scanned
      {
        ScanNext(z, w, max - scanned);
        CounterLater(Value(), z, w, taken);
        ghost var list := pageList;
        var p, took := ScanTail(w);
        z := if took then Isolated(z, w) else Skipped(z, w);
        if took {
          pageList := [p] + pageList;
          AddInFront(Scan(z, w, max - scanned - 1).1, p, list);
          taken := taken + 1;
        }
        scanned := scanned + 1;
      }
      ScanEnd(z, w, max - scanned);
      match w {
        case Active => nrActive := nrActive - taken;
        case Inactive => nrInactive := nrInactive - taken;
        case Safety => nrSafety := nrSafety - taken;
      }
    }

    /** One page of the loop: taken with a new reference, or back to the head when its count was zero. */
    method ScanTail(w: Which) returns (p: Page, took: bool)
      requires var l := ListOf(Value(), w); l != [] && l[|l| - 1] in lru
      modifies this
      ensures var z := old(Value()); var l := ListOf(z, w);
              && p == l[|l| - 1] && (took <==> Count(z, p) != 0)
              && Value() == if took then SetList(Isolated(z, w), w, l[..|l| - 1], 1) else Skipped(z, w)
    {
      var l := match w case Active => active case Inactive => inactive case Safety => safety;
      p := l[|l| - 1];
      assert p in lru;
      took := p in count && count[p] != 0;
      if took {
        count := count[p := count[p] + 1];
        lru, victim := lru - {p}, victim - {p};
        SetOnly(w, l[..|l| - 1]);
      } else {
        SetOnly(w, [p] + l[..|l| - 1]);
      }
    }

    method SetOnly(w: Which, l: seq<Page>)
      modifies this`active, this`inactive, this`safety
      ensures Value() == SetList(old(Value()), w, l, 0)
    {
      match w {
        case Active => active := l;
        case Inactive => inactive := l;
        case Safety => safety := l;
      }
    }

    /**
     Part of the put-back loop of shrink_cache and shrink_cache_mru that runs under one hold of the
     lock: until the list is empty or the page vector is full.
     */
    method PutBackSome(pageList: seq<Page>, room: nat) returns (rest: seq<Page>, vec: seq<Page>)
      requires Inv(Value()) && NoDup(pageList) && forall p :: p in pageList ==> p !in lru
      modifies this
      ensures pageList == rest + Rev(vec) && |vec| <= room && (rest == [] || |vec| == room)
      ensures Value() == AddEach(old(Value()), vec, ByFlag) && Inv(Value()) && AddedAll(old(Value()), Value(), vec, ByFlag)
    {
      rest, vec := pageList, [];
      while rest != [] && |vec| < room
        invariant pageList == rest + Rev(vec) && |vec| <= room
        invariant Value() == AddEach(old(Value()), vec, ByFlag)
        decreases |rest|
      {
        var p := rest[|rest| - 1];
        NextBack(old(Value()), pageList, rest, vec, ByFlag);
        assert p !in lru;
        lru := lru + {p};
        if p in act {
          AddPageToActiveList(p);
          assert act + {p} == act;
        } else {
          AddPageToInactiveList(p);
          assert act - {p} == act;
        }
        rest, vec := rest[..|rest| - 1], vec + [p];
      }
      BackOk(old(Value()), pageList, rest, vec, ByFlag);
    }

    /** mark_page_accessed: the second touch of an inactive page activates it. */
    method MarkPageAccessed(p: Page)
      requires Inv(Value())
      modifies this
      ensures Inv(Value())
      ensures if p in old(lru) && p !in old(act) && p in old(referenced)
              then Value() == Activated(old(Value()), p) && p in active && referenced == old(referenced) - {p}
              else Value() == old(Value()) && referenced == old(referenced) + {p}
    {
      if p !in act && p in referenced && p in lru {
        ActivatedOk(Value(), p);
        ActivatePage(p);
        referenced := referenced - {p};
      } else if p !in referenced {
        referenced := referenced + {p};
      }
    }

    /** The part of the first put-back loop of refill_inactive_zone under one hold of the lock. */
    method DeactivateSome(held: seq<Page>, room: nat) returns (rest: seq<Page>, vec: seq<Page>)
      requires Inv(Value()) && NoDup(held) && forall p :: p in held ==> p !in lru && p in act
      modifies this
      ensures held == rest + Rev(vec) && |vec| <= room && (rest == [] || |vec| == room)
      ensures Value() == AddEach(old(Value()), vec, To(Inactive)) && Inv(Value()) && AddedAll(old(Value()), Value(), vec, To(Inactive))
    {
      ghost var z := Value();
      var moved := 0;
      rest, vec := held, [];
      while rest != [] && |vec| < room
        invariant held == rest + Rev(vec) && |vec| <= room
        invariant SetList(Value(), Inactive, inactive, moved) == AddEach(z, vec, To(Inactive))
        decreases |rest|
      {
        var p := rest[|rest| - 1];
        NextBack(z, held, rest, vec, To(Inactive));
        assert p !in lru && p in act;
        lru, act := lru + {p}, act - {p};
        inactive := [p] + inactive;
        moved := moved + 1;
        rest, vec := rest[..|rest| - 1], vec + [p];
      }
      nrInactive := nrInactive + moved;
      BackOk(z, held, rest, vec, To(Inactive));
    }

    /** The part of the second put-back loop of refill_inactive_zone under one hold of the lock. */
    method ReactivateSome(held: seq<Page>, room: nat) returns (rest: seq<Page>, vec: seq<Page>)
      requires Inv(Value()) && NoDup(held) && forall p :: p in held ==> p !in lru && p in act
      modifies this
      ensures held == rest + Rev(vec) && |vec| <= room && (rest == [] || |vec| == room)
      ensures Value() == AddEach(old(Value()), vec, To(Active)) && Inv(Value()) && AddedAll(old(Value()), Value(), vec, To(Active))
    {
      ghost var z := Value();
      var moved := 0;
      rest, vec := held, [];
      while rest != [] && |vec| < room
        invariant held == rest + Rev(vec) && |vec| <= room
        invariant SetList(Value(), Active, active, moved) == AddEach(z, vec, To(Active))
        decreases |rest|
      {
        var p := rest[|rest| - 1];
        NextBack(z, held, rest, vec, To(Active));
        assert p !in lru && p in act;
        assert act + {p} == act;
        lru := lru + {p};
        active := [p] + active;
        moved := moved + 1;
        rest, vec := rest[..|rest| - 1], vec + [p];
      }
      nrActive := nrActive + moved;
      BackOk(z, held, rest, vec, To(Active));
    }

    /** The list part of __pagevec_lru_add and __pagevec_lru_add_active: none of their BUGs fires. */
    method PagevecLruAdd(vec: seq<Page>, toActive: bool)
      requires Inv(Value()) && NoDup(vec) && forall p :: p in vec ==> p !in lru && p !in act
      modifies this
      ensures Inv(Value()) && AddedAll(old(Value()), Value(), vec, To(if toActive then Active else Inactive))
      ensures Value() == AddEach(old(Value()), vec, To(if toActive then Active else Inactive))
    {
      hide Inv;
      ghost var z := Value();
      ghost var d := To(if toActive then Active else Inactive);
      for i := 0 to |vec|
        invariant Value() == AddEach(z, vec[..i], d)
      {
        var p := vec[i];
        NextAdd(z, vec, i, d);
        assert p !in lru && p !in act && p !in victim;
        lru := lru + {p};
        if toActive {
          act := act + {p};
          AddPageToActiveList(p);
        } else {
          assert act - {p} == act;
          AddPageToInactiveList(p);
        }
      }
      assert vec[..|vec|] == vec;
      AddEachOk(z, vec, d);
    }

    /**
     scan_active_for_mru.  The walk reads the head of the active list while the counter is positive,
     without looking at the list; then inactive pages are activated, each under its own lock.
     */
    method ScanActiveForMru(nrToScan: nat)
      requires Inv(Value())
      modifies this
      ensures Value() == MruFilled(old(Value()), nrToScan + SWAP_CLUSTER_MAX) && Inv(Value())
    {
      hide Inv, MovedToSafety, PulledIn;
      ghost var z := Value();
      var target := nrToScan + SWAP_CLUSTER_MAX;
      FillSafety(target);
      ghost var y := Value();
      LengthsOk(y);
      PulledNone(y);
      if target > nrActive {
        PullIn(target);
      }
    }

    /** The locked walk along the active list. */
    method FillSafety(target: nat)
      requires Inv(Value())
      modifies this
      ensures Inv(Value()) && Value() == MruScanned(old(Value()), target)
    {
      hide Inv, MovedToSafety;
      ghost var z := Value();
      ghost var k := 0;
      MovedZero(z);
      while nrSafety < target && nrActive > 0
        invariant 0 <= k <= |z.active| && Value() == MovedToSafety(z, k) && Inv(Value())
        invariant nrSafety == |z.safety| + k && nrActive == |z.active| - k
        invariant k == 0 || nrSafety <= target
        decreases |z.active| - k
      {
        MovedStep(z, k);
        var page := active[0];
        WalkHead(Value());
        DelPageFromActiveList(page);
        act := act - {page};
        AddPageToSafetyList(page);
        k := k + 1;
      }
      assert k == Min(|z.active|, Max(0, target - |z.safety|));
    }

    /** The first inactive page is activated `total` times over, each time under its own lock. */
    method PullIn(total: nat)
      requires Inv(Value())
      modifies this
      ensures Inv(Value()) && Value() == PulledIn(old(Value()), Min(total, |old(inactive)|))
    {
      hide Inv, PulledIn;
      ghost var y := Value();
      ghost var g := 0;
      PulledNone(y);
      var grab := total;
      while grab > 0
        invariant 0 <= grab <= total && 0 <= g <= |y.inactive| && Value() == PulledIn(y, g) && Inv(Value())
        invariant g == Min(total - grab, |y.inactive|)
        invariant inactive == y.inactive[g..]
      {
        if inactive != [] {
          PulledNext(y, g);
          PulledOk(y, g + 1);
          PulledRest(y, g + 1);
          ActivatePage(inactive[0]);
          g := g + 1;
        }
        grab := grab - 1;
      }
    }

    /** clear_safety_list: a walk over the list that has read the next page before each activation. */
    method ClearSafetyList()
      requires Inv(Value())
      modifies this
      ensures Value() == Cleared(old(Value()), |old(safety)|) && Inv(Value()) && safety == []
    {
      hide Inv, Cleared;
      ghost var z := Value();
      ghost var k := 0;
      ClearedNone(z);
      var next := safety;
      while next != []
        invariant 0 <= k <= |z.safety| && next == z.safety[k..] && Value() == Cleared(z, k) && Inv(Value()) && next == safety
        decreases |next|
      {
        var page := next[0];
        next := next[1..];
        ClearedNext(z, k);
        ClearedOk(z, k + 1);
        ClearedRest(z, k + 1);
        ActivatePage(page);
        k := k + 1;
      }
    }

    /** release_pages: a page that occurs in the vector several times loses that many references. */
    method ReleasePages(vec: seq<Page>)
      requires Inv(Value()) && forall p :: p in vec ==> Count(Value(), p) >= multiset(vec)[p]
      modifies this
      ensures Inv(Value()) && ReleasedFrom(old(Value()), Value(), vec)
    {
      hide Inv, ReleasedFrom;
      ghost var z := Value();
      ReleasedNone(z);
      for i := 0 to |vec|
        invariant Inv(Value()) && ReleasedFrom(z, Value(), vec[..i])
      {
        ghost var y := Value();
        StillReferenced(z, y, vec, i);
        ReleaseOne(z, y, vec, i);
        var freed := ReleasePage(vec[i]);
      }
      assert vec[..|vec|] == vec;
    }

    /**
     shrink_list as seen from outside: the pages are tried from the tail of the list; each is freed,
     kept or kept and marked active.  No page is lost.
     */
    method ShrinkList(pageList: seq<Page>) returns (kept: seq<Page>)
      requires NoDup(pageList) && forall p :: p in pageList ==> p !in act && Count(Value(), p) >= 1
      modifies this`act, this`count
      ensures NoDup(kept) && forall p :: p in kept ==> p in pageList && Count(Value(), p) >= 1
      ensures forall p :: p in pageList && p !in kept ==> Count(Value(), p) == 0 && p !in act
      ensures forall p :: p !in pageList ==> (p in act <==> p in old(act)) && Count(Value(), p) == Count(old(Value()), p)
    {
      kept := [];
      var i := |pageList|;
      ghost var z, all := Value(), Elems(pageList);
      assert pageList[..i] == pageList;
      while i > 0
        invariant 0 <= i <= |pageList| && Judged(z, Value(), all, Elems(pageList[..i]), kept)
      {
        i := i - 1;
        var p := pageList[i];
        ghost var y, before := Value(), kept;
        TryLast(pageList, i);
        hide NoDup, Judged, Elems;
        var outcome: Outcome := *;
        match outcome {
          case Freed => count := count[p := 0];
          case MadeActive => act := act + {p}; kept := [p] + kept;
          case Kept => kept := [p] + kept;
        }
        JudgedOne(z, y, Value(), all, Elems(pageList[..i + 1]), p, before, kept, outcome);
      }
    }

    /** The whole put-back loop: each time the page vector is full its references are dropped. */
    method PutBack(pageList: seq<Page>, vec: seq<Page>) returns (pvec: seq<Page>)
      requires Inv(Value()) && PvecOk(Value(), vec) && BackReady(Value(), pageList, vec)
      modifies this
      ensures Inv(Value()) && PvecOk(Value(), pvec) && safety == old(safety) && victim == old(victim)
      ensures forall p :: p in safety ==> Count(Value(), p) == Count(old(Value()), p)
      ensures forall p :: p in pageList || NotLost(old(Value()), p) ==> NotLost(Value(), p)
    {
      hide Inv, PvecOk, BackReady, AddedAll, VecOk, NotLost, ReleasedFrom, NoDup;
      var rest := pageList;
      pvec := vec;
      while rest != []
        invariant Inv(Value()) && PvecOk(Value(), pvec) && BackReady(Value(), rest, pvec)
        invariant safety == old(safety) && victim == old(victim)
        invariant forall p :: p in safety ==> Count(Value(), p) == Count(old(Value()), p)
        invariant forall p :: p in pageList || NotLost(old(Value()), p) ==> p in rest || NotLost(Value(), p)
        decreases |rest|
      {
        ghost var z, list := Value(), rest;
        BackFacts(z, rest, pvec);
        var added;
        rest, added := PutBackSome(rest, PAGEVEC_SIZE - |pvec|);
        BackStep(z, Value(), list, rest, added, pvec);
        pvec := pvec + added;
        if |pvec| == PAGEVEC_SIZE {
          ghost var y := Value();
          PvecFacts(y, pvec);
          ReleasePages(pvec);
          ReleasedOnce(y, Value(), pvec);
          BackReleased(y, Value(), rest, pvec);
          pvec := [];
        }
      }
    }

    /**
     shrink_cache_mru, run with no other activity on the zone: the pages it offers to shrink_list, in
     that order, are the first of the safety list's pages that are not being freed elsewhere.
     */
    method ShrinkCacheMru(nrToScan: nat) returns (offered: seq<Page>)
      requires Inv(Value()) && forall p :: p in safety ==> Count(Value(), p) >= 0
      modifies this
      ensures Inv(Value())
      ensures offered <= Offer(old(Value()), old(safety))
      ensures nrToScan > 0 ==> Offer(old(Value()), Nearest(old(safety), SWAP_CLUSTER_MAX)) <= offered
      ensures forall p :: p in old(lru) ==> NotLost(Value(), p)
    {
      hide Inv, Offer, Rev, Scan, Nearest, TookFrom, PvecOk, BackReady, NotLost, Count, NoDup, ReleasedFrom;
      var maxScan: int := nrToScan;
      var pvec: seq<Page> := [];
      offered := [];
      ghost var z := Value();
      ghost var first := Offer(z, Nearest(z.safety, SWAP_CLUSTER_MAX));
      assert [] + Offer(z, z.safety) == Offer(z, z.safety);
      ShrinkStart(z);
      while maxScan > 0
        invariant Inv(Value()) && PvecOk(Value(), pvec)
        invariant Offer(z, z.safety) == offered + Offer(Value(), safety)
        invariant forall p :: p in z.lru ==> NotLost(Value(), p)
        invariant (Value() == z && offered == [] && maxScan == nrToScan) || first <= offered
        decreases maxScan
      {
        ghost var y := Value();
        ScanOffers(y, Safety, SWAP_CLUSTER_MAX);
        ScanTakesTail(y, Safety, SWAP_CLUSTER_MAX);
        var pageList, scanned := IsolatePages(Safety, SWAP_CLUSTER_MAX);
        var nrScan := scanned + 1;
        PvecAfterTake(y, Value(), pvec, pageList);
        TakenNotLost(y, Value(), pageList);
        var batch := Rev(pageList);
        assert offered + (batch + Offer(Value(), safety)) == (offered + batch) + Offer(Value(), safety);
        offered := offered + batch;
        if pageList == [] { break; }
        maxScan := maxScan - nrScan;
        ghost var y1 := Value();
        var kept := ShrinkList(pageList);
        AfterShrink(y1, Value(), pageList, kept, pvec);
        NoneLost(y1, Value(), pageList, kept);
        OfferSame(y1, Value(), safety);
        ghost var y2 := Value();
        pvec := PutBack(kept, pvec);
        OfferSame(y2, Value(), safety);
      }
      ghost var last := Value();
      PvecReady(last, pvec);
      ReleasePages(pvec);
      ReleasedOnce(last, Value(), pvec);
      ReleasedKept(last, Value(), pvec);
    }
  }
}
