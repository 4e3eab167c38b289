/**
 The page lists of a zone: active, inactive and, for the most-recently-used policy, the safety
 list.  Which list a page is on is told by its flags alone; the list operations rely on it.
 */
module PageLists {
  import opened Seqs

  type Page = int

  datatype Which = Active | Inactive | Safety

  /**
   Index 0 of a list is its head, where `list_add` puts a page; `lru_to_page` reads the last entry.
   A flag is the set of the pages that have it: `lru` PG_lru, `act` PG_active, `victim` the safety mark.
   `count` is the reference count.
   */
  datatype Lists = Lists(
    active: seq<Page>, inactive: seq<Page>, safety: seq<Page>,
    nrActive: int, nrInactive: int, nrSafety: int,
    lru: set<Page>, act: set<Page>, victim: set<Page>, count: map<Page, int>)

  function ListOf(z: Lists, w: Which): seq<Page> {
    match w case Active => z.active case Inactive => z.inactive case Safety => z.safety
  }

  function Count(z: Lists, p: Page): int { if p in z.count then z.count[p] else 0 }

  /** The list the flags of a page name. */
  function Home(z: Lists, p: Page): Which {
    if p in z.act then Active else if p in z.victim then Safety else Inactive
  }

  /**
   What holds whenever `lru_lock` is free: a page with PG_lru is on exactly the list its flags
   name, only safety pages carry the safety mark, and the counters are the lengths.
   */
  ghost predicate Inv(z: Lists) {
    && NoDup(z.active) && NoDup(z.inactive) && NoDup(z.safety)
    && (forall p :: p in z.active <==> p in z.lru && p in z.act)
    && (forall p :: p in z.safety <==> p in z.victim)
    && (forall p :: p in z.inactive <==> p in z.lru && p !in z.act && p !in z.victim)
    && z.victim <= z.lru && z.victim !! z.act
    && z.nrActive == |z.active| && z.nrInactive == |z.inactive| && z.nrSafety == |z.safety|
  }

  /** The same said page by page: one list exactly for a page with PG_lru, none for the others. */
  lemma OneList(z: Lists, p: Page)
    requires Inv(z)
    ensures p in z.lru ==> forall w :: p in ListOf(z, w) <==> w == Home(z, p)
    ensures p !in z.lru ==> forall w :: p !in ListOf(z, w)
    ensures p in z.victim ==> p in z.safety
  {
  }

  // ---------------------------------------------------------------- one page

  /** `list_del`: the page leaves whichever list it is on. */
  function Unlinked(z: Lists, p: Page): Lists {
    z.(active := Without(z.active, p), inactive := Without(z.inactive, p), safety := Without(z.safety, p))
  }

  /** A page leaves its list, the counter its flags name goes down, PG_lru and the safety mark go. */
  function Taken(z: Lists, p: Page): Lists {
    var u := Unlinked(z, p).(lru := z.lru - {p}, victim := z.victim - {p});
    match Home(z, p)
    case Active => u.(nrActive := z.nrActive - 1)
    case Inactive => u.(nrInactive := z.nrInactive - 1)
    case Safety => u.(nrSafety := z.nrSafety - 1)
  }

  /** A page without PG_lru joins a list at the head. */
  function Added(z: Lists, p: Page, w: Which): Lists {
    var u := z.(lru := z.lru + {p});
    match w
    case Active => u.(active := [p] + z.active, nrActive := z.nrActive + 1, act := z.act + {p})
    case Inactive => u.(inactive := [p] + z.inactive, nrInactive := z.nrInactive + 1, act := z.act - {p})
    case Safety => u.(safety := [p] + z.safety, nrSafety := z.nrSafety + 1, act := z.act - {p}, victim := z.victim + {p})
  }

  /** Other pages keep their flags, and all pages their references. */
  ghost predicate SameFlagsBut(z: Lists, y: Lists, p: Page) {
    && (forall x :: x != p ==> (x in y.lru <==> x in z.lru) && (x in y.act <==> x in z.act) && (x in y.victim <==> x in z.victim))
    && y.count == z.count
  }

  lemma TakenOk(z: Lists, p: Page)
    requires Inv(z) && p in z.lru
    ensures Inv(Taken(z, p)) && p !in Taken(z, p).lru && p !in Taken(z, p).victim
    ensures forall w :: ListOf(Taken(z, p), w) == if w == Home(z, p) then Without(ListOf(z, w), p) else ListOf(z, w)
    ensures SameFlagsBut(z, Taken(z, p), p) && (p in Taken(z, p).act <==> p in z.act)
  {
    OneList(z, p);
    WithoutIsDelete(z.active, p);
    WithoutIsDelete(z.inactive, p);
    WithoutIsDelete(z.safety, p);
    if p !in z.active { WithoutMissing(z.active, p); }
    if p !in z.inactive { WithoutMissing(z.inactive, p); }
    if p !in z.safety { WithoutMissing(z.safety, p); }
  }

  lemma AddedOk(z: Lists, p: Page, w: Which)
    requires Inv(z) && p !in z.lru
    ensures Inv(Added(z, p, w)) && Home(Added(z, p, w), p) == w && p in Added(z, p, w).lru
    ensures forall v :: ListOf(Added(z, p, w), v) == if v == w then [p] + ListOf(z, v) else ListOf(z, v)
    ensures SameFlagsBut(z, Added(z, p, w), p)
  {
    OneList(z, p);
    NoDupHead(z.active, p);
    NoDupHead(z.inactive, p);
    NoDupHead(z.safety, p);
  }

  lemma NoDupHead(s: seq<Page>, p: Page)
    requires NoDup(s) && p !in s
    ensures NoDup([p] + s) && NoDup(s + [p])
    ensures forall x :: x in [p] + s <==> x == p || x in s
    ensures forall x :: x in s + [p] <==> x == p || x in s
  {
  }

  /** activate_page */
  function Activated(z: Lists, p: Page): Lists {
    if p in z.lru && p !in z.act then Added(Taken(z, p), p, Active) else z
  }

  lemma ActivatedOk(z: Lists, p: Page)
    requires Inv(z)
    ensures Inv(Activated(z, p)) && Activated(z, p).lru == z.lru && Activated(z, p).count == z.count
    ensures Activated(z, p).act == if p in z.lru then z.act + {p} else z.act
    ensures p in z.lru ==> p in Activated(z, p).active
    ensures p in z.lru && p !in z.act ==>
              && SameFlagsBut(z, Activated(z, p), p) && Activated(z, p).active == [p] + z.active
              && forall w :: w != Active ==>
                   ListOf(Activated(z, p), w) == if w == Home(z, p) then Without(ListOf(z, w), p) else ListOf(z, w)
    ensures !(p in z.lru && p !in z.act) ==> Activated(z, p) == z
  {
    hide Without;
    if p in z.lru && p !in z.act {
      TakenOk(z, p);
      AddedOk(Taken(z, p), p, Active);
      assert ListOf(Taken(z, p), Active) == z.active;
    }
  }

  /** rotate_reclaimable_page: to the tail of the list the page is on. */
  function Rotated(z: Lists, p: Page): Lists {
    if p !in z.lru || p in z.act then z
    else
      var u := Unlinked(z, p);
      if p in z.victim then u.(safety := u.safety + [p]) else u.(inactive := u.inactive + [p])
  }

  /** A page without a list flag joins the safety or the inactive list at the tail. */
  function AddedTail(z: Lists, p: Page, marked: bool): Lists {
    var u := z.(lru := z.lru + {p}, act := z.act - {p});
    if marked then u.(safety := z.safety + [p], nrSafety := z.nrSafety + 1, victim := z.victim + {p})
    else u.(inactive := z.inactive + [p], nrInactive := z.nrInactive + 1)
  }

  lemma TailOk(z: Lists, p: Page, marked: bool)
    requires Inv(z) && p !in z.lru
    ensures Inv(AddedTail(z, p, marked))
  {
    OneList(z, p);
    NoDupHead(z.inactive, p);
    NoDupHead(z.safety, p);
  }

  lemma RotatedOk(z: Lists, p: Page)
    requires Inv(z)
    ensures Inv(Rotated(z, p)) && Rotated(z, p).lru == z.lru && Rotated(z, p).act == z.act
    ensures Rotated(z, p).victim == z.victim && Rotated(z, p).count == z.count
    ensures p in z.lru && p !in z.act ==>
              forall w :: ListOf(Rotated(z, p), w) == if w == Home(z, p) then Without(ListOf(z, w), p) + [p] else ListOf(z, w)
    ensures !(p in z.lru && p !in z.act) ==> Rotated(z, p) == z
  {
    if p in z.lru && p !in z.act {
      hide Inv, Without;
      TakenOk(z, p);
      var u := Taken(z, p);
      assert ListOf(u, Home(z, p)) == Without(ListOf(z, Home(z, p)), p);
      TailOk(u, p, p in z.victim);
      assert p !in z.victim ==> u.victim == z.victim;
      assert p in z.victim ==> u.victim + {p} == z.victim;
      assert u.lru + {p} == z.lru && u.act - {p} == z.act;
      assert Rotated(z, p) == AddedTail(u, p, p in z.victim);
    }
  }

  /** The locked part of releasing a page whose count fell to zero. */
  function Dropped(z: Lists, p: Page): Lists {
    if p in z.lru then Taken(z, p).(act := z.act - {p}) else z
  }

  lemma DroppedOk(z: Lists, p: Page)
    requires Inv(z)
    ensures Inv(Dropped(z, p)) && Dropped(z, p).lru == z.lru - {p} && Dropped(z, p).count == z.count
    ensures Dropped(z, p).act == (if p in z.lru then z.act - {p} else z.act)
    ensures Dropped(z, p).victim == z.victim - {p}
    ensures p !in z.victim ==> Dropped(z, p).safety == z.safety
    ensures SameFlagsBut(z, Dropped(z, p), p)
    ensures forall w :: ListOf(Dropped(z, p), w) == if p in z.lru && w == Home(z, p) then Without(ListOf(z, w), p) else ListOf(z, w)
  {
    if p in z.lru {
      TakenOk(z, p);
      assert ListOf(Taken(z, p), Safety) == Taken(z, p).safety;
    }
  }

  // ---------------------------------------------------------------- isolating a batch

  /** List `w` and its counter replaced. */
  function SetList(z: Lists, w: Which, l: seq<Page>, delta: int): Lists {
    match w
    case Active => z.(active := l, nrActive := z.nrActive + delta)
    case Inactive => z.(inactive := l, nrInactive := z.nrInactive + delta)
    case Safety => z.(safety := l, nrSafety := z.nrSafety + delta)
  }

  /** The tail page of list `w` isolated, with a reference taken on it. */
  function Isolated(z: Lists, w: Which): Lists
    requires ListOf(z, w) != []
  {
    var l := ListOf(z, w);
    var p := l[|l| - 1];
    SetList(z, w, l[..|l| - 1], -1).(lru := z.lru - {p}, victim := z.victim - {p}, count := z.count[p := Count(z, p) + 1])
  }

  /** The tail page of list `w` put back at the head: its count was zero, it is being freed elsewhere. */
  function Skipped(z: Lists, w: Which): Lists
    requires ListOf(z, w) != []
  {
    var l := ListOf(z, w);
    SetList(z, w, [l[|l| - 1]] + l[..|l| - 1], 0)
  }

  /** Scan up to `n` pages from the tail of list `w`, with the private list of pages taken, last taken first. */
  function Scan(z: Lists, w: Which, n: nat): (Lists, seq<Page>)
    decreases n
  {
    var l := ListOf(z, w);
    if n == 0 || l == [] then (z, [])
    else if Count(z, l[|l| - 1]) == 0 then Scan(Skipped(z, w), w, n - 1)
    else
      var r := Scan(Isolated(z, w), w, n - 1);
      (r.0, r.1 + [l[|l| - 1]])
  }

  lemma IsolatedOk(z: Lists, w: Which)
    requires Inv(z) && ListOf(z, w) != []
    ensures var p := ListOf(z, w)[|ListOf(z, w)| - 1];
            && p in z.lru && Home(z, p) == w && Inv(Isolated(z, w)) && p !in Isolated(z, w).lru
  {
    hide NoDup, Without;
    var l := ListOf(z, w);
    var p: Page := l[|l| - 1];
    assert p in l;
    OneList(z, p);
    TakenOk(z, p);
    WithoutLast(l);
    hide Inv;
    var u := Taken(z, p);
    assert ListOf(u, Active) == u.active && ListOf(u, Inactive) == u.inactive && ListOf(u, Safety) == u.safety;
    assert Isolated(z, w) == u.(count := Isolated(z, w).count);
    CountIrrelevant(u, Isolated(z, w).count);
  }

  lemma WithoutLast(l: seq<Page>)
    requires NoDup(l) && l != []
    ensures Without(l, l[|l| - 1]) == l[..|l| - 1]
  {
    WithoutAt(l, |l| - 1);
    assert l[..|l| - 1] + l[|l|..] == l[..|l| - 1];
  }

  lemma CountIrrelevant(z: Lists, count: map<Page, int>)
    requires Inv(z)
    ensures Inv(z.(count := count))
  {
  }

  lemma SkippedOk(z: Lists, w: Which)
    requires Inv(z) && ListOf(z, w) != []
    ensures Inv(Skipped(z, w))
  {
    var l := ListOf(z, w);
    var n := |l| - 1;
    assert l == l[..n] + [l[n]];
    NoDupHead(l[..n], l[n]);
  }

  /** One page scanned. */
  lemma ScanNext(z: Lists, w: Which, n: nat)
    requires Inv(z) && n > 0 && ListOf(z, w) != []
    ensures var l := ListOf(z, w); var p := l[|l| - 1];
            var y := if Count(z, p) == 0 then Skipped(z, w) else Isolated(z, w);
            && p in z.lru && Inv(y) && Scan(z, w, n).0 == Scan(y, w, n - 1).0
            && Scan(z, w, n).1 == Scan(y, w, n - 1).1 + if Count(z, p) == 0 then [] else [p]
  {
    hide Inv, Skipped, Isolated;
    IsolatedOk(z, w);
    SkippedOk(z, w);
  }

  lemma ScanEnd(z: Lists, w: Which, n: nat)
    requires n == 0 || ListOf(z, w) == []
    ensures Scan(z, w, n) == (z, [])
  {
  }

  /** What a scan may change: the pages it takes, and nothing of the others. */
  ghost predicate TookFrom(z: Lists, z': Lists, w: Which, k: seq<Page>) {
    && NoDup(k)
    && (forall p :: p in k ==> p in ListOf(z, w) && Count(z, p) != 0)
    && (forall p :: p in z'.lru <==> p in z.lru && p !in k)
    && z'.act == z.act
    && (forall p :: p in z'.victim <==> p in z.victim && p !in k)
    && (forall p :: p in z'.count <==> p in z.count || p in k)
    && (forall p :: Count(z', p) == Count(z, p) + if p in k then 1 else 0)
  }

  lemma {:induction false} ScanOk(z: Lists, w: Which, n: nat)
    requires Inv(z)
    ensures Inv(Scan(z, w, n).0) && TookFrom(z, Scan(z, w, n).0, w, Scan(z, w, n).1)
    decreases n
  {
    hide Inv, TookFrom, Skipped, Isolated;
    var l := ListOf(z, w);
    if n == 0 || l == [] {
      TookNone(z, w);
    } else {
      var m := |l| - 1;
      if Count(z, l[m]) == 0 {
        SkippedOk(z, w);
        ScanOk(Skipped(z, w), w, n - 1);
        TookAfterSkip(z, w, Scan(z, w, n).0, Scan(z, w, n).1);
      } else {
        IsolatedOk(z, w);
        ScanOk(Isolated(z, w), w, n - 1);
        TookOneMore(z, w, Scan(z, w, n).0, Scan(Isolated(z, w), w, n - 1).1);
      }
    }
  }

  lemma TookNone(z: Lists, w: Which)
    ensures TookFrom(z, z, w, [])
  {
  }

  lemma TookAfterSkip(z: Lists, w: Which, z': Lists, k: seq<Page>)
    requires ListOf(z, w) != [] && TookFrom(Skipped(z, w), z', w, k)
    ensures TookFrom(z, z', w, k)
  {
    var l := ListOf(z, w);
    assert forall p :: p in ListOf(Skipped(z, w), w) ==> p in l;
    assert forall p :: Count(Skipped(z, w), p) == Count(z, p);
  }

  lemma TookOneMore(z: Lists, w: Which, z': Lists, k: seq<Page>)
    requires Inv(z)
    requires var l := ListOf(z, w); l != [] && Count(z, l[|l| - 1]) != 0
    requires TookFrom(Isolated(z, w), z', w, k)
    ensures TookFrom(z, z', w, k + [ListOf(z, w)[|ListOf(z, w)| - 1]])
  {
    var p := LastIsolated(z, w);
    hide Inv, Isolated, Count;
    NoDupHead(k, p);
    assert forall x :: x in k + [p] <==> x in k || x == p;
  }

  /** What isolating the last page changes. */
  lemma LastIsolated(z: Lists, w: Which) returns (p: Page)
    requires Inv(z) && ListOf(z, w) != []
    ensures p == ListOf(z, w)[|ListOf(z, w)| - 1] && p in ListOf(z, w)
    ensures var y := Isolated(z, w);
            && (forall q :: q in ListOf(y, w) ==> q in ListOf(z, w) && q != p)
            && y.lru == z.lru - {p} && y.act == z.act && y.victim == z.victim - {p}
            && (forall q :: q in y.count <==> q in z.count || q == p)
            && (forall q :: Count(y, q) == Count(z, q) + if q == p then 1 else 0)
  {
    var l := ListOf(z, w);
    var n := |l| - 1;
    p := l[n];
    assert l == l[..n] + [p];
    assert p !in l[..n] && ListOf(Isolated(z, w), w) == l[..n];
  }

  // ---------------------------------------------------------------- the order of reclaim

  /** The pages of a list that are not being freed elsewhere, from the tail on. */
  function Offer(z: Lists, l: seq<Page>): seq<Page> {
    if l == [] then []
    else
      var n := |l| - 1;
      (if Count(z, l[n]) == 0 then [] else [l[n]]) + Offer(z, l[..n])
  }

  lemma {:induction false} OfferConcat(z: Lists, k: seq<Page>, l: seq<Page>)
    ensures Offer(z, k + l) == Offer(z, l) + Offer(z, k)
  {
    if l == [] {
      assert k + l == k;
    } else {
      var n := |l| - 1;
      OfferConcat(z, k, l[..n]);
      assert (k + l)[..|k + l| - 1] == k + l[..n];
    }
  }

  lemma {:induction false} OfferSame(z: Lists, z': Lists, l: seq<Page>)
    requires forall p :: p in l ==> Count(z', p) == Count(z, p)
    ensures Offer(z', l) == Offer(z, l)
  {
    if l != [] {
      var p: Page := l[|l| - 1];
      assert p in l;
      OfferSame(z, z', l[..|l| - 1]);
    }
  }

  lemma OfferOne(z: Lists, p: Page)
    ensures Offer(z, [p]) == if Count(z, p) == 0 then [] else [p]
  {
    assert [p][..0] == [];
  }

  /** One isolated page is the first one on offer; a skipped page changes nothing. */
  lemma OfferStep(z: Lists, w: Which)
    requires Inv(z) && ListOf(z, w) != []
    ensures var l := ListOf(z, w); var p := l[|l| - 1];
            if Count(z, p) == 0 then Offer(Skipped(z, w), ListOf(Skipped(z, w), w)) == Offer(z, l)
            else Offer(z, l) == [p] + Offer(Isolated(z, w), ListOf(Isolated(z, w), w))
  {
    var l := ListOf(z, w);
    if Count(z, l[|l| - 1]) == 0 {
      OfferSkipped(z, w);
    } else {
      var p := LastIsolated(z, w);
      assert ListOf(Isolated(z, w), w) == l[..|l| - 1];
      hide Inv, Isolated;
      OfferSame(z, Isolated(z, w), l[..|l| - 1]);
    }
  }

  lemma OfferSkipped(z: Lists, w: Which)
    requires var l := ListOf(z, w); l != [] && Count(z, l[|l| - 1]) == 0
    ensures Offer(Skipped(z, w), ListOf(Skipped(z, w), w)) == Offer(z, ListOf(z, w))
  {
    var l := ListOf(z, w);
    var n := |l| - 1;
    OfferConcat(z, [l[n]], l[..n]);
    OfferOne(z, l[n]);
    OfferSame(z, Skipped(z, w), [l[n]] + l[..n]);
  }

  /** A scan takes the first pages on offer, in order, and leaves the others on offer. */
  lemma {:induction false} ScanOffers(z: Lists, w: Which, n: nat)
    requires Inv(z)
    ensures var r := Scan(z, w, n); Offer(z, ListOf(z, w)) == Rev(r.1) + Offer(r.0, ListOf(r.0, w))
    decreases n
  {
    hide Inv, Skipped, Isolated;
    var l := ListOf(z, w);
    if n > 0 && l != [] {
      var p := l[|l| - 1];
      OfferStep(z, w);
      if Count(z, p) == 0 {
        SkippedOk(z, w);
        ScanOffers(Skipped(z, w), w, n - 1);
      } else {
        IsolatedOk(z, w);
        ScanOffers(Isolated(z, w), w, n - 1);
        var t := Scan(Isolated(z, w), w, n - 1).1;
        assert (t + [p])[..|t|] == t;
      }
    }
  }

  /** The `n` pages nearest the tail, or all. */
  function Nearest(m: seq<Page>, n: nat): seq<Page> { if n <= |m| then m[|m| - n..] else m }

  lemma NearestNext(m: seq<Page>, n: nat)
    requires m != [] && n > 0
    ensures Nearest(m, n) == Nearest(m[..|m| - 1], n - 1) + [m[|m| - 1]]
    ensures var k := m[..|m| - 1]; forall p :: p in Nearest(k, n - 1) ==> p in k
  {
  }

  /**
   How far a scan gets: with `b` already skipped, it takes exactly the pages on offer among the `n`
   nearest the tail of `m`, or all of them.
   */
  lemma {:induction false} ScanReach(z: Lists, w: Which, n: nat, b: seq<Page>, m: seq<Page>)
    requires Inv(z) && ListOf(z, w) == b + m
    requires forall p :: p in b ==> Count(z, p) == 0
    ensures Rev(Scan(z, w, n).1) == Offer(z, Nearest(m, n))
    decreases n
  {
    hide Inv, Skipped, Isolated, Scan, Offer, Rev, Nearest;
    if m == [] || n == 0 {
      ReachNone(z, w, n, b, m);
    } else {
      var k := |m| - 1;
      var p: Page := m[k];
      var rest := Nearest(m[..k], n - 1);
      NearestNext(m, n);
      ScanUnfold(z, w, n);
      OfferConcat(z, rest, [p]);
      OfferOne(z, p);
      if Count(z, p) == 0 {
        ReachSkipped(z, w, b, m, rest);
        ScanReach(Skipped(z, w), w, n - 1, [p] + b, m[..k]);
      } else {
        ReachTaken(z, w, b, m, rest);
        ScanReach(Isolated(z, w), w, n - 1, b, m[..k]);
      }
    }
  }

  lemma ScanUnfold(z: Lists, w: Which, n: nat)
    requires n > 0 && ListOf(z, w) != []
    ensures var l := ListOf(z, w); var p := l[|l| - 1];
            if Count(z, p) == 0 then Scan(z, w, n) == Scan(Skipped(z, w), w, n - 1)
            else Rev(Scan(z, w, n).1) == [p] + Rev(Scan(Isolated(z, w), w, n - 1).1)
  {
    hide Skipped, Isolated;
    var l := ListOf(z, w);
    if Count(z, l[|l| - 1]) != 0 { RevLast(Scan(Isolated(z, w), w, n - 1).1, l[|l| - 1]); }
  }

  lemma RevLast(t: seq<Page>, p: Page)
    ensures Rev(t + [p]) == [p] + Rev(t)
  {
    assert (t + [p])[..|t|] == t;
  }

  lemma ReachNone(z: Lists, w: Which, n: nat, b: seq<Page>, m: seq<Page>)
    requires Inv(z) && ListOf(z, w) == b + m && (m == [] || n == 0)
    requires forall p :: p in b ==> Count(z, p) == 0
    ensures Scan(z, w, n).1 == [] && Rev(Scan(z, w, n).1) == Offer(z, Nearest(m, n))
  {
    hide Inv, Skipped, Isolated;
    if n > 0 { AllBusy(z, w, n); }
  }

  /** Scanning pages that are all being freed elsewhere takes none. */
  lemma {:induction false} AllBusy(z: Lists, w: Which, n: nat)
    requires Inv(z) && forall p :: p in ListOf(z, w) ==> Count(z, p) == 0
    ensures Scan(z, w, n).1 == []
    decreases n
  {
    hide Inv, Skipped, Isolated;
    var l := ListOf(z, w);
    if n > 0 && l != [] {
      var p: Page := l[|l| - 1];
      assert p in l;
      SkippedOk(z, w);
      ReachStep(z, w);
      AllBusy(Skipped(z, w), w, n - 1);
    }
  }

  lemma ReachStep(z: Lists, w: Which)
    requires ListOf(z, w) != [] && forall p :: p in ListOf(z, w) ==> Count(z, p) == 0
    ensures forall p :: p in ListOf(Skipped(z, w), w) ==> Count(Skipped(z, w), p) == 0
  {
    var l := ListOf(z, w);
    assert forall p :: p in ListOf(Skipped(z, w), w) ==> p in l;
  }

  lemma ReachSkipped(z: Lists, w: Which, b: seq<Page>, m: seq<Page>, rest: seq<Page>)
    requires Inv(z) && ListOf(z, w) == b + m && m != []
    requires forall p :: p in b ==> Count(z, p) == 0
    requires Count(z, m[|m| - 1]) == 0
    ensures Inv(Skipped(z, w)) && ListOf(Skipped(z, w), w) == ([m[|m| - 1]] + b) + m[..|m| - 1]
    ensures forall p :: p in [m[|m| - 1]] + b ==> Count(Skipped(z, w), p) == 0
    ensures Offer(Skipped(z, w), rest) == Offer(z, rest)
  {
    hide Inv;
    SkippedOk(z, w);
    OfferSame(z, Skipped(z, w), rest);
  }

  lemma ReachTaken(z: Lists, w: Which, b: seq<Page>, m: seq<Page>, rest: seq<Page>)
    requires Inv(z) && ListOf(z, w) == b + m && m != []
    requires forall p :: p in b ==> Count(z, p) == 0
    requires Count(z, m[|m| - 1]) != 0 && forall p :: p in rest ==> p in m[..|m| - 1]
    ensures Inv(Isolated(z, w)) && ListOf(Isolated(z, w), w) == b + m[..|m| - 1]
    ensures forall p :: p in b ==> Count(Isolated(z, w), p) == 0
    ensures Offer(Isolated(z, w), rest) == Offer(z, rest)
  {
    var l := ListOf(z, w);
    var k := |m| - 1;
    IsolatedOk(z, w);
    assert l == (b + m[..k]) + [m[k]];
    assert forall q :: q in m[..k] ==> q != m[k];
    OfferSame(z, Isolated(z, w), rest);
  }

  /** A scan of `n` pages takes exactly those on offer among the `n` pages nearest the tail, nearest first. */
  lemma ScanTakesTail(z: Lists, w: Which, n: nat)
    requires Inv(z)
    ensures var l := ListOf(z, w);
            Rev(Scan(z, w, n).1) == Offer(z, Nearest(l, n))
  {
    hide Inv, Scan, Rev, Offer;
    assert [] + ListOf(z, w) == ListOf(z, w);
    ScanReach(z, w, n, [], ListOf(z, w));
  }

  // ---------------------------------------------------------------- putting pages back

  datatype Dest = To(w: Which) | ByFlag

  function DestOf(z: Lists, p: Page, d: Dest): Which {
    match d case To(w) => w case ByFlag => if p in z.act then Active else Inactive
  }

  /** The pages of `ps` join the lists one after the other. */
  function AddEach(z: Lists, ps: seq<Page>, d: Dest): Lists {
    if ps == [] then z
    else
      var y := AddEach(z, ps[..|ps| - 1], d);
      Added(y, ps[|ps| - 1], DestOf(y, ps[|ps| - 1], d))
  }

  /** `z'` is `z` with the pages of `ps` on the lists `d` names, and nothing else changed. */
  ghost predicate AddedAll(z: Lists, z': Lists, ps: seq<Page>, d: Dest) {
    && (forall p :: p in z'.lru <==> p in z.lru || p in ps)
    && (match d
        case ByFlag => z'.act == z.act
        case To(Active) => forall p :: p in z'.act <==> p in z.act || p in ps
        case To(_) => forall p :: p in z'.act <==> p in z.act && p !in ps)
    && (d != To(Safety) ==> z'.victim == z.victim && z'.safety == z.safety)
    && z'.count == z.count
  }

  lemma {:induction false} AddEachOk(z: Lists, ps: seq<Page>, d: Dest)
    requires Inv(z) && NoDup(ps) && forall p :: p in ps ==> p !in z.lru
    ensures Inv(AddEach(z, ps, d)) && AddedAll(z, AddEach(z, ps, d), ps, d)
  {
    hide Inv;
    if ps != [] {
      var n := |ps| - 1;
      var p: Page := ps[n];
      PrefixFacts(ps, n);
      AddEachOk(z, ps[..n], d);
      var y := AddEach(z, ps[..n], d);
      AddedOk(y, p, DestOf(y, p, d));
      AddedOneMore(z, y, ps, d);
    }
  }

  /** The pages of `ps` that go to list `w`, in order. */
  function Chosen(z: Lists, ps: seq<Page>, d: Dest, w: Which): seq<Page> {
    if ps == [] then [] else Chosen(z, ps[..|ps| - 1], d, w) + if DestOf(z, ps[|ps| - 1], d) == w then [ps[|ps| - 1]] else []
  }

  /** Each list gets its pages at the head, so the last one put back comes first. */
  lemma {:induction false} AddEachLists(z: Lists, ps: seq<Page>, d: Dest, w: Which)
    requires Inv(z) && NoDup(ps) && forall p :: p in ps ==> p !in z.lru
    ensures ListOf(AddEach(z, ps, d), w) == Rev(Chosen(z, ps, d, w)) + ListOf(z, w)
  {
    if ps != [] {
      hide Inv, Rev, Chosen, Added, NoDup;
      var n := |ps| - 1;
      var p: Page := ps[n];
      PrefixFacts(ps, n);
      AddEachLists(z, ps[..n], d, w);
      AddEachOk(z, ps[..n], d);
      var y := AddEach(z, ps[..n], d);
      assert DestOf(y, p, d) == DestOf(z, p, d);
      AddedOk(y, p, DestOf(y, p, d));
      hide AddedAll, DestOf, SameFlagsBut, ListOf;
      ChosenNext(z, ps, d, w);
      HeadNext(Chosen(z, ps[..n], d, w), p, ListOf(z, w));
    }
  }

  lemma HeadNext(c: seq<Page>, p: Page, l: seq<Page>)
    ensures Rev(c + [p]) + l == [p] + (Rev(c) + l)
  {
    assert (c + [p])[..|c|] == c;
  }

  lemma ChosenNext(z: Lists, ps: seq<Page>, d: Dest, w: Which)
    requires ps != []
    ensures Chosen(z, ps, d, w) == if DestOf(z, ps[|ps| - 1], d) == w then Chosen(z, ps[..|ps| - 1], d, w) + [ps[|ps| - 1]] else Chosen(z, ps[..|ps| - 1], d, w)
  {
  }

  lemma PrefixFacts(ps: seq<Page>, n: nat)
    requires n < |ps| && NoDup(ps)
    ensures ps[n] in ps && ps[n] !in ps[..n] && NoDup(ps[..n]) && ps[..n + 1][..n] == ps[..n]
    ensures forall p :: p in ps[..n] ==> p in ps
    ensures forall p :: p in ps[..n + 1] <==> p in ps[..n] || p == ps[n]
  {
    assert ps[..n + 1] == ps[..n] + [ps[n]];
  }

  lemma AddedOneMore(z: Lists, y: Lists, ps: seq<Page>, d: Dest)
    requires ps != [] && NoDup(ps) && AddedAll(z, y, ps[..|ps| - 1], d) && ps[|ps| - 1] !in y.lru
    ensures var p := ps[|ps| - 1]; AddedAll(z, Added(y, p, DestOf(y, p, d)), ps, d)
  {
    var n := |ps| - 1;
    PrefixFacts(ps, n);
    assert ps[..n + 1] == ps;
    hide NoDup;
    var p := ps[n];
    assert d == ByFlag ==> (if p in y.act then y.act + {p} else y.act - {p}) == y.act;
  }

  /** A page still to be put back is on no list, and putting it back extends the pages put back. */
  lemma NextBack(z: Lists, l: seq<Page>, rest: seq<Page>, vec: seq<Page>, d: Dest)
    requires Inv(z) && NoDup(l) && (forall p :: p in l ==> p !in z.lru) && l == rest + Rev(vec) && rest != []
    ensures var n := |rest| - 1; var p := rest[n]; var y := AddEach(z, vec, d);
            && p !in y.lru && l == rest[..n] + Rev(vec + [p])
            && (p in y.act <==> p in z.act)
            && AddEach(z, vec + [p], d) == Added(y, p, DestOf(y, p, d))
  {
    hide Inv, Rev, Added;
    var p: Page := rest[|rest| - 1];
    RestFacts(l, rest, vec);
    AddEachOk(z, vec, d);
    assert (vec + [p])[..|vec|] == vec;
  }

  lemma BackParts(l: seq<Page>, rest: seq<Page>, vec: seq<Page>)
    requires NoDup(l) && l == rest + Rev(vec)
    ensures NoDup(rest) && NoDup(vec) && |l| == |rest| + |vec|
    ensures forall p :: p in rest ==> p in l && p !in vec
    ensures forall p :: p in vec ==> p in l
    ensures forall p :: p in l ==> p in rest || p in vec
  {
    hide Rev;
    var r := Rev(vec);
    assert NoDup(rest) by { assert forall i :: 0 <= i < |rest| ==> rest[i] == l[i]; }
    assert NoDup(r) by { assert forall i :: 0 <= i < |r| ==> r[i] == l[|rest| + i]; }
    forall p | p in rest && p in r ensures false { Apart(l, rest, r, p); }
    RevNoDup(vec);
    RevElems(vec);
  }

  lemma Apart(l: seq<Page>, s: seq<Page>, t: seq<Page>, p: Page)
    requires NoDup(l) && l == s + t
    ensures !(p in s && p in t)
  {
    forall i, j | 0 <= i < |s| && 0 <= j < |t| ensures s[i] != t[j] {
      assert l[i] == s[i] && l[|s| + j] == t[j];
    }
  }

  lemma BackOk(z: Lists, l: seq<Page>, rest: seq<Page>, vec: seq<Page>, d: Dest)
    requires Inv(z) && NoDup(l) && (forall p :: p in l ==> p !in z.lru) && l == rest + Rev(vec)
    ensures Inv(AddEach(z, vec, d)) && AddedAll(z, AddEach(z, vec, d), vec, d)
  {
    hide Inv;
    BackParts(l, rest, vec);
    AddEachOk(z, vec, d);
  }

  /** The same for pages added from the front of a page vector. */
  lemma NextAdd(z: Lists, vec: seq<Page>, i: nat, d: Dest)
    requires Inv(z) && NoDup(vec) && (forall p :: p in vec ==> p !in z.lru && p !in z.act) && i < |vec| && d != To(Safety)
    ensures var p := vec[i]; var y := AddEach(z, vec[..i], d);
            && p !in y.lru && p !in y.act && p !in y.victim
            && AddEach(z, vec[..i + 1], d) == Added(y, p, DestOf(y, p, d))
  {
    PrefixFacts(vec, i);
    hide NoDup;
    AddEachOk(z, vec[..i], d);
  }

  lemma RestFacts(l: seq<Page>, rest: seq<Page>, vec: seq<Page>)
    requires NoDup(l) && l == rest + Rev(vec) && rest != []
    ensures var n := |rest| - 1; var p := rest[n];
            p in l && p !in vec && NoDup(vec) && (forall q :: q in vec ==> q in l) && l == rest[..n] + Rev(vec + [p])
  {
    hide Rev, NoDup;
    var n := |rest| - 1;
    var p: Page := rest[n];
    assert p in rest;
    BackParts(l, rest, vec);
    RevLast(vec, p);
    assert rest == rest[..n] + [p];
  }

  // ---------------------------------------------------------------- the most-recently-used policy

  /** The first `k` active pages moved to the safety list one by one. */
  ghost function MovedToSafety(z: Lists, k: nat): Lists
    requires k <= |z.active|
  {
    var ps := z.active[..k];
    z.(active := z.active[k..], nrActive := z.nrActive - k, safety := Rev(ps) + z.safety, nrSafety := z.nrSafety + k,
       act := z.act - Elems(ps), victim := z.victim + Elems(ps))
  }

  /** The first `k` inactive pages activated one by one. */
  ghost function PulledIn(z: Lists, k: nat): Lists
    requires k <= |z.inactive|
  {
    var ps := z.inactive[..k];
    z.(inactive := z.inactive[k..], nrInactive := z.nrInactive - k, active := Rev(ps) + z.active, nrActive := z.nrActive + k,
       act := z.act + Elems(ps))
  }

  /** The first `k` pages of the safety list activated one by one. */
  ghost function Cleared(z: Lists, k: nat): Lists
    requires k <= |z.safety|
  {
    var ps := z.safety[..k];
    z.(safety := z.safety[k..], nrSafety := z.nrSafety - k, active := Rev(ps) + z.active, nrActive := z.nrActive + k,
       act := z.act + Elems(ps), victim := z.victim - Elems(ps))
  }

  lemma RevNext(l: seq<Page>, k: nat)
    requires k < |l|
    ensures l[..k + 1] == l[..k] + [l[k]] && Rev(l[..k + 1]) == [l[k]] + Rev(l[..k])
    ensures l[k..][1..] == l[k + 1..] && l[k..][0] == l[k]
  {
    assert l[..k + 1][..k] == l[..k];
  }

  /** One more page of the scan of the active list. */
  function MoveHead(z: Lists): Lists
    requires z.active != []
  {
    var p := z.active[0];
    Added(z.(active := z.active[1..], nrActive := z.nrActive - 1), p, Safety)
  }

  lemma MovedNext(z: Lists, k: nat)
    requires Inv(z) && k < |z.active|
    ensures MovedToSafety(z, k + 1) == MoveHead(MovedToSafety(z, k))
  {
    RevNext(z.active, k);
    assert forall p :: p in z.active[..k + 1] <==> p in z.active[..k] || p == z.active[k];
    var p: Page := z.active[k];
    assert p in z.active && p in z.lru;
    var a, b := MovedToSafety(z, k + 1), MoveHead(MovedToSafety(z, k));
    assert a.safety == b.safety && a.act == b.act && a.victim == b.victim;
  }

  lemma {:induction false} MovedOk(z: Lists, k: nat)
    requires Inv(z) && k <= |z.active|
    ensures Inv(MovedToSafety(z, k))
    decreases k
  {
    if k == 0 {
      assert [] + z.safety == z.safety && z.active[0..] == z.active && z.active[..0] == [];
      assert MovedToSafety(z, 0) == z;
    } else {
      MovedOk(z, k - 1);
      MovedNext(z, k - 1);
      var y := MovedToSafety(z, k - 1);
      MoveHeadOk(y);
    }
  }

  lemma MoveHeadOk(z: Lists)
    requires Inv(z) && z.active != []
    ensures Inv(MoveHead(z))
  {
    var p: Page := z.active[0];
    assert p in z.active;
    TakenOk(z, p);
    var u := Taken(z, p);
    assert ListOf(u, Active) == u.active && ListOf(u, Inactive) == u.inactive && ListOf(u, Safety) == u.safety;
    AddedOk(u, p, Safety);
    assert MoveHead(z) == Added(u, p, Safety);
  }

  /** Activating the head of the inactive or the safety list. */
  lemma ActivateHead(z: Lists, w: Which)
    requires Inv(z) && w != Active && ListOf(z, w) != []
    ensures var p := ListOf(z, w)[0];
            && p in z.lru && (p in z.victim <==> w == Safety)
            && Activated(z, p) ==
                 SetList(z, w, ListOf(z, w)[1..], -1).(active := [p] + z.active, nrActive := z.nrActive + 1, act := z.act + {p}, victim := z.victim - {p})
  {
    var p: Page := ListOf(z, w)[0];
    assert p in ListOf(z, w);
    TakenOk(z, p);
    var u := Taken(z, p);
    assert ListOf(u, Active) == u.active && ListOf(u, Inactive) == u.inactive && ListOf(u, Safety) == u.safety;
    assert u.lru + {p} == z.lru;
  }

  lemma PulledNext(z: Lists, k: nat)
    requires k < |z.inactive| && Inv(PulledIn(z, k))
    ensures PulledIn(z, k + 1) == Activated(PulledIn(z, k), z.inactive[k])
  {
    hide Inv, Activated;
    RevNext(z.inactive, k);
    var y := PulledIn(z, k);
    ActivateHead(y, Inactive);
    var a, b := PulledIn(z, k + 1), Activated(y, z.inactive[k]);
    assert a.active == b.active && a.act == b.act && a.victim == b.victim;
  }

  lemma ClearedNext(z: Lists, k: nat)
    requires k < |z.safety| && Inv(Cleared(z, k))
    ensures Cleared(z, k + 1) == Activated(Cleared(z, k), z.safety[k])
  {
    hide Inv, Activated;
    RevNext(z.safety, k);
    var y := Cleared(z, k);
    ActivateHead(y, Safety);
    var a, b := Cleared(z, k + 1), Activated(y, z.safety[k]);
    assert a.active == b.active && a.act == b.act && a.victim == b.victim;
  }

  lemma {:induction false} PulledOk(z: Lists, k: nat)
    requires Inv(z) && k <= |z.inactive|
    ensures Inv(PulledIn(z, k))
    decreases k
  {
    hide Inv;
    if k == 0 {
      assert PulledIn(z, 0) == z;
    } else {
      PulledOk(z, k - 1);
      PulledNext(z, k - 1);
      ActivatedOk(PulledIn(z, k - 1), z.inactive[k - 1]);
    }
  }

  lemma {:induction false} ClearedOk(z: Lists, k: nat)
    requires Inv(z) && k <= |z.safety|
    ensures Inv(Cleared(z, k))
    decreases k
  {
    hide Inv;
    if k == 0 {
      assert Cleared(z, 0) == z;
    } else {
      ClearedOk(z, k - 1);
      ClearedNext(z, k - 1);
      ActivatedOk(Cleared(z, k - 1), z.safety[k - 1]);
    }
  }

  lemma MovedZero(z: Lists)
    requires Inv(z)
    ensures MovedToSafety(z, 0) == z && z.nrSafety == |z.safety| && z.nrActive == |z.active|
  {
    assert z.active[..0] == [] && [] + z.safety == z.safety && z.act - {} == z.act && z.victim + {} == z.victim;
  }

  /** While the counter of the active list is positive the list has a head, and the walk may move it. */
  lemma MovedStep(z: Lists, k: nat)
    requires Inv(z) && k < |z.active|
    ensures var y := MovedToSafety(z, k);
            && Inv(y) && y.active != [] && y.active == z.active[k..]
            && MovedToSafety(z, k + 1) == MoveHead(y) && Inv(MoveHead(y))
            && MovedToSafety(z, k + 1).nrSafety == y.nrSafety + 1 && MovedToSafety(z, k + 1).nrActive == y.nrActive - 1
  {
    MovedOk(z, k);
    MovedOk(z, k + 1);
    MovedNext(z, k);
  }

  /** Taking the head off the active list with `list_del` is dropping the first entry. */
  lemma WalkHead(z: Lists)
    requires Inv(z) && z.active != []
    ensures var p := z.active[0]; Unlinked(z, p) == z.(active := z.active[1..]) && z.lru + {p} == z.lru
  {
    var p: Page := z.active[0];
    assert p in z.active;
    TakenOk(z, p);
    var u := Taken(z, p);
    assert ListOf(u, Active) == u.active && ListOf(u, Inactive) == u.inactive && ListOf(u, Safety) == u.safety;
  }

  lemma LengthsOk(z: Lists)
    requires Inv(z)
    ensures z.nrActive == |z.active| && z.nrInactive == |z.inactive| && z.nrSafety == |z.safety|
  {
  }

  lemma PulledRest(z: Lists, k: nat)
    requires k <= |z.inactive|
    ensures PulledIn(z, k).inactive == z.inactive[k..]
  {
  }

  lemma ClearedRest(z: Lists, k: nat)
    requires k <= |z.safety|
    ensures Cleared(z, k).safety == z.safety[k..]
  {
  }

  lemma ClearedNone(z: Lists)
    ensures Cleared(z, 0) == z
  {
    assert z.safety[..0] == [] && [] + z.active == z.active && z.act + {} == z.act && z.victim - {} == z.victim;
  }

  const SWAP_CLUSTER_MAX := 32

  function Min(a: int, b: int): int { if a <= b then a else b }
  function Max(a: int, b: int): int { if a <= b then b else a }

  /** scan_active_for_mru with the given size target. */
  ghost function MruScanned(z: Lists, target: nat): Lists
  {
    MovedToSafety(z, Min(|z.active|, Max(0, target - |z.safety|)))
  }

  ghost function MruFilled(z: Lists, target: nat): Lists
  {
    var y := MruScanned(z, target);
    if target > |y.active| then PulledIn(y, Min(target, |y.inactive|)) else y
  }

  /**
   Filling an empty safety list and clearing it again: the active list comes back as it was, except
   that the inactive pages pulled in by the scan stand where the scan stopped.
   */
  lemma FillThenClear(z: Lists, target: nat)
    requires Inv(z) && z.safety == []
    ensures Inv(MruFilled(z, target))
    ensures var y := MruFilled(z, target); var x := Cleared(y, |y.safety|);
            var k := Min(|z.active|, target);
            var g := if target > |z.active| - k then Min(target, |z.inactive|) else 0;
            && Inv(x) && x.safety == [] && x.lru == z.lru && x.count == z.count
            && x.active == z.active[..k] + Rev(z.inactive[..g]) + z.active[k..]
            && x.inactive == z.inactive[g..]
            && (x == z <==> g == 0)
  {
    hide Inv, Rev, MruFilled;
    var k := Min(|z.active|, target);
    var g := if target > |z.active| - k then Min(target, |z.inactive|) else 0;
    MovedOk(z, k);
    PulledOk(MovedToSafety(z, k), g);
    FilledShape(z, target);
    var y := MruFilled(z, target);
    ClearedOk(y, |y.safety|);
    ClearedShape(y, z.active[..k]);
    hide Cleared;
    assert z.active[..k] + (Rev(z.inactive[..g]) + z.active[k..]) == z.active[..k] + Rev(z.inactive[..g]) + z.active[k..];
    if g == 0 { ClearedMoved(z, k); } else { assert Cleared(y, |y.safety|).inactive != z.inactive; }
  }

  lemma FilledShape(z: Lists, target: nat)
    requires Inv(z) && z.safety == []
    ensures var k := Min(|z.active|, target);
            var g := if target > |z.active| - k then Min(target, |z.inactive|) else 0;
            && MruFilled(z, target) == PulledIn(MovedToSafety(z, k), g)
            && MruFilled(z, target).safety == Rev(z.active[..k])
  {
    hide Inv, Rev, Elems;
    var y := MovedToSafety(z, Min(|z.active|, target));
    assert y.safety == Rev(z.active[..Min(|z.active|, target)]);
    PulledNone(y);
  }

  lemma ClearedShape(y: Lists, a: seq<Page>)
    requires y.safety == Rev(a)
    ensures var x := Cleared(y, |y.safety|);
            && x.active == a + y.active && x.safety == [] && x.inactive == y.inactive && x.lru == y.lru && x.count == y.count
            && x.act == y.act + Elems(a) && x.victim == y.victim - Elems(a)
            && x.nrActive == y.nrActive + |a| && x.nrSafety == y.nrSafety - |a| && x.nrInactive == y.nrInactive
  {
    hide Elems, Rev;
    RevTwice(a);
    RevElems(a);
    assert y.safety[..|y.safety|] == y.safety;
  }

  lemma ClearedMoved(z: Lists, k: nat)
    requires Inv(z) && z.safety == [] && k <= |z.active|
    ensures PulledIn(MovedToSafety(z, k), 0) == MovedToSafety(z, k)
    ensures Cleared(MovedToSafety(z, k), |MovedToSafety(z, k).safety|) == z
  {
    hide Inv, Rev, Cleared;
    var y := MovedToSafety(z, k);
    assert y.safety == Rev(z.active[..k]);
    PulledNone(y);
    ClearedShape(y, z.active[..k]);
    ActivePages(z, k);
    hide Elems;
    assert z.active[..k] + z.active[k..] == z.active;
  }

  lemma PulledNone(y: Lists)
    ensures PulledIn(y, 0) == y
  {
    assert y.inactive[..0] == [] && [] + y.active == y.active && y.act + {} == y.act;
  }

  lemma ActivePages(z: Lists, k: nat)
    requires Inv(z) && z.safety == [] && k <= |z.active|
    ensures var e := Elems(z.active[..k]); z.act - e + e == z.act && z.victim + e - e == z.victim
  {
    var e := Elems(z.active[..k]);
    forall p | p in e ensures p in z.act && p !in z.victim { assert p in z.active; }
    assert z.act - e + e == z.act;
  }

  /** The exact case in which the active list, and everything else, is restored. */
  lemma FillThenClearIsIdentity(z: Lists, n: nat)
    requires Inv(z) && z.safety == []
    ensures var target := n + SWAP_CLUSTER_MAX;
            && Inv(MruFilled(z, target))
            && (Cleared(MruFilled(z, target), |MruFilled(z, target).safety|) == z <==> z.inactive == [] || |z.active| >= 2 * target)
  {
    hide Inv, MruFilled, Cleared;
    FillThenClear(z, n + SWAP_CLUSTER_MAX);
  }

  /** The pages of a list that are not being freed elsewhere, in the order of the list. */
  function Live(z: Lists, l: seq<Page>): seq<Page> {
    if l == [] then []
    else Live(z, l[..|l| - 1]) + if Count(z, l[|l| - 1]) == 0 then [] else [l[|l| - 1]]
  }

  lemma {:induction false} OfferReversed(z: Lists, l: seq<Page>)
    ensures Offer(z, Rev(l)) == Live(z, l)
  {
    if l != [] {
      var n := |l| - 1;
      OfferReversed(z, l[..n]);
      OfferConcat(z, [l[n]], Rev(l[..n]));
      OfferOne(z, l[n]);
    }
  }

  /** Pages are offered in the order of the active list, head (most recently used) first. */
  lemma MruFirst(z: Lists, target: nat)
    requires Inv(z) && z.safety == []
    ensures Inv(MruFilled(z, target))
    ensures var y := MruFilled(z, target);
            Offer(y, y.safety) == Live(z, z.active[..Min(|z.active|, target)])
  {
    hide Inv;
    FillThenClear(z, target);
    FilledShape(z, target);
    var y := MruFilled(z, target);
    OfferReversed(z, z.active[..Min(|z.active|, target)]);
    OfferSame(z, y, y.safety);
  }
}
