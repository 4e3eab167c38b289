/**
 A memory zone: the page structs, the free areas of the buddy allocator and the per-CPU hot and
 cold page lists in front of it.  The buddy test reads page flags; the invariant ties the flags
 to the free lists, and the free lists to the set of free pages.
 */
module BuddyZone {
  import opened Seqs
  import opened Dyadic
  import opened BuddyLists
  import opened Options

  const MAX_ORDER: nat := 11

  /** `priv` is PG_private and `order` is `page->private`. */
  datatype PageStruct = PageStruct(priv: bool, order: nat, reserved: bool, count: nat) {
    predicate IsBuddy(k: nat) { priv && order == k && !reserved && count == 0 }
    predicate Clean() { !priv && !reserved && count == 0 }
    function SetOrder(k: nat): PageStruct { this.(priv := true, order := k) }
    function RmvOrder(): PageStruct { this.(priv := false, order := 0) }
  }

  datatype FreeArea = FreeArea(list: seq<nat>, nrFree: int)

  datatype PerCpuPages = PerCpuPages(count: int, low: nat, high: nat, batch: nat, list: seq<nat>)

  type Pages = seq<PageStruct>

  // ---------------------------------------------------------------- buddy invariant on values

  ghost predicate FlagsOk(m: Pages, a: Lists, F: set<nat>) {
    && (forall p :: p in F ==> p < |m| && m[p].count == 0 && !m[p].reserved && (m[p].priv ==> m[p].order < |a|))
    && (forall p: nat, k: nat {:trigger m[p].IsBuddy(k)} {:trigger p in a[k]} ::
          p < |m| && k < |a| ==> (m[p].IsBuddy(k) <==> p in a[k]))
  }

  ghost predicate BuddyInv(m: Pages, a: Lists, F: set<nat>) {
    |a| == MAX_ORDER && Canon(a, F) && FlagsOk(m, a, F)
  }

  ghost predicate AllClean(m: Pages, s: set<nat>) {
    forall p :: p in s ==> p < |m| && m[p].Clean()
  }

  /** A block as it is handed out: the first page has one reference, the others none. */
  ghost predicate HandedOut(m: Pages, p: nat, k: nat) {
    && p < |m| && m[p] == PageStruct(false, 0, false, 1)
    && TailClean(m, p, k)
  }

  ghost predicate TailClean(m: Pages, p: nat, k: nat) {
    forall q :: q in Block(p, k) && q != p ==> q < |m| && m[q].Clean()
  }

  /** Only the head of a listed block carries PG_private. */
  lemma OnlyHeads(m: Pages, a: Lists, F: set<nat>, i: nat, k: nat, p: nat)
    requires BuddyInv(m, a, F) && k < |a| && i in a[k] && InBlock(p, i, k) && p != i
    ensures p in F && m[p].Clean()
  {
    assert Maximal(i, k, |a|, F) && p in F;
    if m[p].priv {
      var q := m[p].order;
      assert m[p].IsBuddy(q);
      assert Maximal(p, q, |a|, F) && InBlock(p, p, q);
      MaximalDisjoint(i, k, p, q, |a|, F, p);
    }
  }

  /** Take the listed block `i` of order `k` off its list. */
  lemma TakeKeepsInv(m: Pages, a: Lists, F: set<nat>, i: nat, k: nat, m': Pages, a': Lists)
    requires BuddyInv(m, a, F) && k < |a| && i in a[k]
    requires i < |m| && m' == m[i := m[i].RmvOrder()] && a' == a[k := Without(a[k], i)]
    ensures BuddyInv(m', a', F - Block(i, k)) && Block(i, k) <= F && AllClean(m', Block(i, k))
  {
    RemoveKeepsCanon(a, F, i, k);
    WithoutIsDelete(a[k], i);
    assert InBlock(i, i, k);
    forall p | p in Block(i, k) ensures p < |m'| && m'[p].Clean() {
      if p != i { OnlyHeads(m, a, F, i, k, p); }
    }
    forall p: nat, q: nat | p < |m'| && q < |a'| ensures m'[p].IsBuddy(q) <==> p in a'[q] {
      assert p in a'[q] ==> Maximal(p, q, |a'|, F - Block(i, k));
      assert InBlock(p, p, q);
    }
  }

  /** Put the free-standing block `i` of order `k` on its list. */
  lemma PutKeepsInv(m: Pages, a: Lists, F: set<nat>, i: nat, k: nat, m': Pages, a': Lists)
    requires BuddyInv(m, a, F) && k < |a| && Aligned(i, k) && Block(i, k) !! F && AllClean(m, Block(i, k))
    requires k + 1 < |a| ==> Buddy(i, k) !in a[k]
    requires i < |m| && m' == m[i := m[i].SetOrder(k)] && a' == a[k := [i] + a[k]]
    ensures BuddyInv(m', a', F + Block(i, k))
  {
    AddKeepsCanon(a, F, i, k);
    assert InBlock(i, i, k) && i in Block(i, k);
    forall p: nat, q: nat | p < |m'| && q < |a'| ensures m'[p].IsBuddy(q) <==> p in a'[q] {
      assert p in a[q] ==> Maximal(p, q, |a|, F);
      assert InBlock(p, p, q);
    }
  }

  /** An index out of the zone, or without the buddy mark, is not listed. */
  lemma NotListed(m: Pages, a: Lists, F: set<nat>, b: nat, k: nat)
    requires BuddyInv(m, a, F) && k < |a| && (b < |m| ==> !m[b].IsBuddy(k))
    ensures b !in a[k]
  {
    assert b in a[k] ==> Maximal(b, k, |a|, F);
    assert InBlock(b, b, k);
  }

  /**
   What the merging loop has achieved: block `i` of order `k` is in hand, the lists `a` stand for
   the other free pages `F`, and freeing the block in hand ends as freeing the original one would.
   */
  ghost predicate Merging(m: Pages, a: Lists, F: set<nat>, i: nat, k: nat, goal: Lists, all: set<nat>) {
    && k < MAX_ORDER && Aligned(i, k) && BuddyInv(m, a, F)
    && Block(i, k) !! F && F + Block(i, k) == all && AllClean(m, Block(i, k))
    && FreeBlock(a, i, k) == goal
  }

  /** Pages outside `all` are as they were. */
  ghost predicate SameOutside(m: Pages, m': Pages, all: set<nat>) {
    |m| == |m'| && forall p :: 0 <= p < |m| && p !in all ==> m'[p] == m[p]
  }

  lemma MergeStep(m0: Pages, m: Pages, a: Lists, F: set<nat>, i: nat, k: nat, goal: Lists, all: set<nat>, b: nat, m': Pages, a': Lists)
    requires Merging(m, a, F, i, k, goal, all) && k + 1 < MAX_ORDER && SameOutside(m0, m, all)
    requires b == Buddy(i, k) && b < |m| && m[b].IsBuddy(k)
    requires m' == m[b := m[b].RmvOrder()] && a' == a[k := Without(a[k], b)]
    ensures Merging(m', a', F - Block(b, k), Parent(i, k), k + 1, goal, all) && SameOutside(m0, m', all)
  {
    assert b in a[k];
    TakeKeepsInv(m, a, F, b, k, m', a');
    FreeStep(a, F, i, k, a', F - Block(b, k));
    ParentSplits(i, k);
    assert InBlock(b, b, k) && b in Block(b, k);
    assert Block(Parent(i, k), k + 1) == Block(i, k) + Block(b, k);
  }

  lemma TakenUnavailable(p: nat, k: nat, before: set<nat>, after: set<nat>)
    requires after == before - Block(p, k)
    ensures p !in after
  {
    assert InBlock(p, p, k);
  }

  lemma MoreSame(m: Pages, m': Pages, F: set<nat>, G: set<nat>)
    requires SameOutside(m, m', F) && F <= G
    ensures SameOutside(m, m', G)
  {
  }

  lemma SameTwice(m0: Pages, m: Pages, m': Pages, F: set<nat>)
    requires SameOutside(m0, m, F) && SameOutside(m, m', F)
    ensures SameOutside(m0, m', F)
  {
  }

  lemma SameFrom(m0: Pages, m: Pages, p: nat, F: set<nat>, m': Pages)
    requires p < |m0| == |m| && m == m0[p := m[p]] && p in F && SameOutside(m, m', F)
    ensures SameOutside(m0, m', F)
  {
  }

  lemma SameBut(m0: Pages, m: Pages, F: set<nat>, p: nat, m': Pages)
    requires SameOutside(m0, m, F) && p in F && p < |m| == |m'| && m' == m[p := m'[p]]
    ensures SameOutside(m0, m', F)
  {
  }

  lemma OneClean(m: Pages, p: nat)
    requires p < |m| && m[p].Clean()
    ensures AllClean(m, Block(p, 0))
  {
    OnePage(p);
  }

  lemma PrepHandsOut(m: Pages, p: nat, k: nat, m': Pages)
    requires AllClean(m, Block(p, k)) && p < |m| && m' == m[p := PageStruct(false, 0, false, 1)]
    ensures HandedOut(m', p, k)
  {
  }

  /** A block of clean pages off the per-CPU lists becomes free. */
  lemma GrowFree(cs: seq<PerCpuPages>, m: Pages, F: set<nat>, p: nat, k: nat, m': Pages)
    requires PcpsOk(cs, m, F) && Block(p, k) !! Cached(cs) && SameOutside(m, m', F + Block(p, k))
    ensures PcpsOk(cs, m', F + Block(p, k))
  {
    InCached(cs);
    forall c | 0 <= c < |cs| ensures PcpOk(cs[c], m', F + Block(p, k)) {
      assert PcpOk(cs[c], m, F);
      forall x | x in cs[c].list ensures x !in Block(p, k) { assert x in Cached(cs); }
    }
  }

  /** One block on its own, without its last reference. */
  lemma SoleBlock(m: Pages, p: nat, k: nat, F: set<nat>)
    requires p < |m| && m[p].Clean() && TailClean(m, p, k) && Aligned(p, k) && Block(p, k) !! F
    ensures UnusedBlocks([p], k, m, F) && Pool([p], k) == Block(p, k)
  {
    PoolOne(p, k);
    assert AllClean(m, Block(p, k));
  }

  lemma HeadInRange(m: Pages, i: nat, k: nat)
    requires AllClean(m, Block(i, k))
    ensures i < |m| && m[i].Clean()
  {
    assert InBlock(i, i, k) && i in Block(i, k);
  }

  lemma MergeEnd(m0: Pages, m: Pages, a: Lists, F: set<nat>, i: nat, k: nat, goal: Lists, all: set<nat>, m': Pages, a': Lists)
    requires Merging(m, a, F, i, k, goal, all) && SameOutside(m0, m, all)
    requires k + 1 < MAX_ORDER ==> var b := Buddy(i, k); b < |m| ==> !m[b].IsBuddy(k)
    requires i < |m| && m' == m[i := m[i].SetOrder(k)] && a' == a[k := [i] + a[k]]
    ensures BuddyInv(m', a', all) && a' == goal && SameOutside(m0, m', all)
  {
    if k + 1 < MAX_ORDER { NotListed(m, a, F, Buddy(i, k), k); }
    PutKeepsInv(m, a, F, i, k, m', a');
    assert InBlock(i, i, k);
  }

  /**
   What the splitting loop has left to do: block `p` of order `high` is in hand, its lowest block
   of order `low` is wanted, and the rest goes back to the lists.
   */
  ghost predicate Splitting(m: Pages, a: Lists, F: set<nat>, p: nat, low: nat, high: nat, goal: Lists, rest: set<nat>) {
    && low <= high < MAX_ORDER && Aligned(p, high) && BuddyInv(m, a, F)
    && Block(p, high) !! F && F + (Block(p, high) - Block(p, low)) == rest && AllClean(m, Block(p, high))
    && Expand(a, p, low, high) == goal
  }

  lemma SplitStart(m: Pages, a: Lists, F: set<nat>, order: nat, c: nat, p: nat, m': Pages, a': Lists)
    requires BuddyInv(m, a, F) && order <= c < MAX_ORDER && c == FirstOrder(a, order) && p == a[c][0]
    requires p < |m| && m' == m[p := m[p].RmvOrder()] && a' == a[c := a[c][1..]]
    ensures Splitting(m', a', F - Block(p, c), p, order, c, BuddyLists.Rmqueue(a, order).0, F - Block(p, order))
    ensures Block(p, order) <= Block(p, c) <= F && Aligned(p, order) && SameOutside(m, m', F)
  {
    assert p in a[c] && Without(a[c], p) == a[c][1..];
    TakeKeepsInv(m, a, F, p, c, m', a');
    assert Maximal(p, c, |a|, F);
    assert InBlock(p, p, c) && p in Block(p, c);
    AlignedBelow(p, order, c);
    Pow2Mono(order, c);
    assert F - Block(p, c) + (Block(p, c) - Block(p, order)) == F - Block(p, order);
  }

  lemma SplitStep(m0: Pages, F0: set<nat>, m: Pages, a: Lists, F: set<nat>, p: nat, low: nat, high: nat, goal: Lists, rest: set<nat>, u: nat, m': Pages, a': Lists)
    requires Splitting(m, a, F, p, low, high, goal, rest) && low < high && u == p + Pow2(high - 1)
    requires SameOutside(m0, m, F0) && rest <= F0
    requires u < |m| && m' == m[u := m[u].SetOrder(high - 1)] && a' == a[high - 1 := [u] + a[high - 1]]
    ensures Splitting(m', a', F + Block(u, high - 1), p, low, high - 1, goal, rest) && SameOutside(m0, m', F0)
  {
    var h := high - 1;
    SplitHalves(p, h);
    Pow2Mono(low, h);
    assert Block(p, low) <= Block(p, h);
    LowerNotListed(m, a, F, p, h);
    CleanHalf(m, p, u, h);
    hide BuddyInv, AllClean, Block, SameOutside, Aligned;
    PutKeepsInv(m, a, F, u, h, m', a');
    GrowSet(F, Block(p, high), Block(p, h), Block(u, h), Block(p, low));
    SplitFrame(m0, F0, m, F + Block(u, h), p, low, h, rest, u, m');
  }

  lemma LowerNotListed(m: Pages, a: Lists, F: set<nat>, p: nat, h: nat)
    requires BuddyInv(m, a, F) && h < |a| && AllClean(m, Block(p, h + 1))
    ensures p !in a[h]
  {
    assert InBlock(p, p, h + 1) && p in Block(p, h + 1);
    NotListed(m, a, F, p, h);
  }

  lemma CleanHalf(m: Pages, p: nat, u: nat, h: nat)
    requires AllClean(m, Block(p, h + 1)) && Block(p, h + 1) == Block(p, h) + Block(u, h)
    ensures AllClean(m, Block(p, h)) && AllClean(m, Block(u, h))
  {
  }

  /** The upper half goes on a list: the lower one stays clean, the pages outside stay as they are. */
  lemma SplitFrame(m0: Pages, F0: set<nat>, m: Pages, F: set<nat>, p: nat, low: nat, h: nat, rest: set<nat>, u: nat, m': Pages)
    requires AllClean(m, Block(p, h)) && Block(p, h) !! Block(u, h) && u < |m| && m' == m[u := m[u].SetOrder(h)]
    requires SameOutside(m0, m, F0) && rest <= F0 && F + (Block(p, h) - Block(p, low)) == rest && Block(u, h) <= F
    ensures AllClean(m', Block(p, h)) && SameOutside(m0, m', F0)
  {
    assert InBlock(u, u, h) && u in Block(u, h);
  }

  lemma SplitEnd(m: Pages, a: Lists, F: set<nat>, p: nat, low: nat, goal: Lists, rest: set<nat>)
    requires Splitting(m, a, F, p, low, low, goal, rest)
    ensures F == rest && a == goal && AllClean(m, Block(p, low))
  {
  }

  lemma UpperInRange(m: Pages, p: nat, high: nat)
    requires high > 0 && AllClean(m, Block(p, high))
    ensures p + Pow2(high - 1) < |m|
  {
    assert InBlock(p + Pow2(high - 1), p, high) && p + Pow2(high - 1) in Block(p, high);
  }

  lemma ListedInRange(m: Pages, a: Lists, F: set<nat>, k: nat, p: nat)
    requires BuddyInv(m, a, F) && k < |a| && p in a[k]
    ensures p < |m|
  {
    assert Maximal(p, k, |a|, F) && InBlock(p, p, k);
  }

  // ---------------------------------------------------------------- per-CPU lists on values

  ghost predicate PcpOk(c: PerCpuPages, m: Pages, F: set<nat>) {
    && c.count == |c.list| && NoDup(c.list)
    && 1 <= c.batch && c.low + c.batch <= c.high && c.count <= c.high
    && (forall x :: x in c.list ==> x < |m| && x !in F && m[x].Clean())
  }

  ghost predicate PcpsOk(cs: seq<PerCpuPages>, m: Pages, F: set<nat>) {
    && (forall c :: 0 <= c < |cs| ==> PcpOk(cs[c], m, F))
    && (forall c, d, x :: 0 <= c < d < |cs| && x in cs[c].list ==> x !in cs[d].list)
  }

  /** Pages on some per-CPU list. */
  ghost function Cached(cs: seq<PerCpuPages>): (s: set<nat>) {
    if cs == [] then {} else Cached(cs[..|cs| - 1]) + Elems(cs[|cs| - 1].list)
  }

  lemma {:induction false} InCached(cs: seq<PerCpuPages>)
    ensures forall x :: x in Cached(cs) <==> exists c :: 0 <= c < |cs| && x in cs[c].list
  {
    if cs != [] {
      var ds := cs[..|cs| - 1];
      InCached(ds);
      assert forall c :: 0 <= c < |ds| ==> cs[c] == ds[c];
      forall x | x in Cached(cs) ensures exists c :: 0 <= c < |cs| && x in cs[c].list {
        if x in Cached(ds) {
          var c :| 0 <= c < |ds| && x in ds[c].list;
          assert x in cs[c].list;
        } else {
          assert x in cs[|cs| - 1].list;
        }
      }
      forall x, c | 0 <= c < |cs| && x in cs[c].list ensures x in Cached(cs) {
        if c < |ds| { assert x in ds[c].list; }
      }
    }
  }

  function CountSum(cs: seq<PerCpuPages>): (n: int) {
    if cs == [] then 0 else CountSum(cs[..|cs| - 1]) + cs[|cs| - 1].count
  }

  lemma {:induction false} CachedCard(cs: seq<PerCpuPages>, m: Pages, F: set<nat>)
    requires PcpsOk(cs, m, F)
    ensures |Cached(cs)| == CountSum(cs)
  {
    if cs != [] {
      var n := |cs| - 1;
      var ds := cs[..n];
      assert forall c :: 0 <= c < n ==> ds[c] == cs[c];
      CachedCard(ds, m, F);
      NoDupCard(cs[n].list);
      InCached(ds);
      forall x | x in Cached(ds) ensures x !in cs[n].list {
        var c :| 0 <= c < n && x in ds[c].list;
        assert x in cs[c].list;
      }
    }
  }

  /** Free, cached and used pages add up to the zone. */
  lemma Accounting(cs: seq<PerCpuPages>, m: Pages, a: Lists, F: set<nat>)
    requires BuddyInv(m, a, F) && PcpsOk(cs, m, F)
    ensures PagesFrom(a, 0) == |F| && Cached(cs) !! F
    ensures var used := Dyadic.Range(0, |m|) - F - Cached(cs); |F| + CountSum(cs) + |used| == |m|
  {
    FreePagesAreListed(a, F);
    CachedCard(cs, m, F);
    CachedInZone(cs, m, F);
    RangeCard(0, |m|);
    hide BuddyInv, PcpsOk, Cached, CountSum;
    ThreeParts(Dyadic.Range(0, |m|), F, Cached(cs));
  }

  lemma CachedInZone(cs: seq<PerCpuPages>, m: Pages, F: set<nat>)
    requires PcpsOk(cs, m, F)
    ensures Cached(cs) !! F && Cached(cs) <= Dyadic.Range(0, |m|)
  {
    InCached(cs);
    forall x | x in Cached(cs) ensures x !in F && x < |m| {
      var c :| 0 <= c < |cs| && x in cs[c].list;
      assert PcpOk(cs[c], m, F);
    }
  }

  lemma ThreeParts(all: set<nat>, F: set<nat>, C: set<nat>)
    requires F <= all && C <= all && F !! C
    ensures |F| + |C| + |all - F - C| == |all|
  {
    assert all == F + C + (all - F - C);
  }

  function ListsOf(s: seq<FreeArea>): (a: Lists)
    ensures |a| == |s| && forall k :: 0 <= k < |s| ==> a[k] == s[k].list
  {
    seq(|s|, k requires 0 <= k < |s| => s[k].list)
  }

  lemma ListsOfUpdate(s: seq<FreeArea>, o: nat, f: FreeArea)
    requires o < |s|
    ensures ListsOf(s[o := f]) == ListsOf(s)[o := f.list]
  {
  }

  lemma RemoveBlockCard(F: set<nat>, i: nat, k: nat)
    requires Block(i, k) <= F
    ensures |F - Block(i, k)| == |F| - Pow2(k)
  {
    RangeCard(i, Pow2(k));
  }

  lemma CountsAfterPop(s: seq<FreeArea>, o: nat)
    requires CountsOk(s) && o < |s| && s[o].list != []
    ensures CountsOk(s[o := FreeArea(s[o].list[1..], s[o].nrFree - 1)])
  {
  }

  lemma AddBlockCard(F: set<nat>, i: nat, k: nat)
    requires Block(i, k) !! F
    ensures |F + Block(i, k)| == |F| + Pow2(k)
  {
    RangeCard(i, Pow2(k));
  }

  lemma OnePage(x: nat)
    ensures Block(x, 0) == {x} && Aligned(x, 0) && Pow2(0) == 1
  {
    assert forall p: nat :: InBlock(p, x, 0) <==> p == x;
  }

  // ---------------------------------------------------------------- several blocks of one order

  /** The pages of the blocks of order `k` in a list. */
  ghost function Pool(list: seq<nat>, k: nat): (s: set<nat>) {
    if list == [] then {} else Block(list[0], k) + Pool(list[1..], k)
  }

  lemma {:induction false} InPool(list: seq<nat>, k: nat)
    ensures forall p: nat :: p in Pool(list, k) <==> exists x :: x in list && InBlock(p, x, k)
  {
    if list != [] {
      InPool(list[1..], k);
      assert list == [list[0]] + list[1..];
    }
  }

  lemma {:induction false} PoolConcat(s: seq<nat>, t: seq<nat>, k: nat)
    ensures Pool(s + t, k) == Pool(s, k) + Pool(t, k)
  {
    if s == [] {
      assert s + t == t;
    } else {
      PoolConcat(s[1..], t, k);
      assert (s + t)[1..] == s[1..] + t;
    }
  }

  lemma PoolOne(x: nat, k: nat)
    ensures Pool([x], k) == Block(x, k)
  {
    assert [x][1..] == [];
  }

  /** At order 0 the blocks are the pages. */
  lemma {:induction false} PoolPages(list: seq<nat>)
    ensures Pool(list, 0) == Elems(list)
  {
    if list != [] {
      PoolPages(list[1..]);
      OnePage(list[0]);
      assert list == [list[0]] + list[1..];
      assert Elems(list) == {list[0]} + Elems(list[1..]);
    }
  }

  /** A block of the order that is not in the list shares no page with those in it. */
  lemma PoolApart(list: seq<nat>, x: nat, k: nat)
    requires x !in list && Aligned(x, k) && forall y :: y in list ==> Aligned(y, k)
    ensures Pool(list, k) !! Block(x, k)
  {
    InPool(list, k);
    forall p: nat | p in Pool(list, k) && p in Block(x, k) ensures false {
      var y :| y in list && InBlock(p, y, k);
      SameOrderEqual(x, y, k, p);
    }
  }

  /** Distinct unused clean blocks of one order. */
  ghost predicate UnusedBlocks(list: seq<nat>, k: nat, m: Pages, F: set<nat>) {
    && NoDup(list)
    && forall x :: x in list ==> Aligned(x, k) && Block(x, k) !! F && AllClean(m, Block(x, k))
  }

  lemma BulkStart(list: seq<nat>, k: nat, m: Pages, F: set<nat>)
    ensures F == F + Pool(list[|list|..], k) && SameOutside(m, m, F)
  {
    assert list[|list|..] == [];
  }

  /** The next block from the tail is still unused and clean. */
  lemma BulkPick(list: seq<nat>, k: nat, ret: nat, m0: Pages, F0: set<nat>, m: Pages, F: set<nat>)
    requires UnusedBlocks(list, k, m0, F0) && ret < |list| && F == F0 + Pool(list[|list| - ret..], k) && SameOutside(m0, m, F)
    ensures var x := list[|list| - ret - 1];
            Block(x, k) !! F && Aligned(x, k) && AllClean(m, Block(x, k)) &&
            F + Block(x, k) == F0 + Pool(list[|list| - (ret + 1)..], k)
  {
    var n := |list| - ret - 1;
    var x := list[n];
    var done := list[n + 1..];
    assert x in list;
    assert list[n..] == [x] + done;
    assert x !in done && forall y :: y in done ==> y in list;
    PoolApart(done, x, k);
    assert list[n..][1..] == done;
    assert AllClean(m0, Block(x, k));
  }

  lemma UnusedPages(q: PerCpuPages, m: Pages, F: set<nat>)
    requires PcpOk(q, m, F)
    ensures UnusedBlocks(q.list, 0, m, F)
  {
    forall x | x in q.list ensures Aligned(x, 0) && Block(x, 0) !! F && AllClean(m, Block(x, 0)) { OnePage(x); }
  }

  lemma BulkNext(m0: Pages, m: Pages, F: set<nat>, m': Pages, F': set<nat>)
    requires SameOutside(m0, m, F) && SameOutside(m, m', F') && F <= F'
    ensures SameOutside(m0, m', F')
  {
  }

  /** `pages` have been taken from the free pages `F0`, which leaves `F`. */
  ghost predicate Refilled(pages: seq<nat>, m0: Pages, F0: set<nat>, m: Pages, F: set<nat>) {
    && NoDup(pages) && Elems(pages) <= F0 && F == F0 - Elems(pages)
    && SameOutside(m0, m, F0) && AllClean(m, Elems(pages))
  }

  /** The same for blocks of order `k`. */
  ghost predicate RefilledBy(pages: seq<nat>, k: nat, m0: Pages, F0: set<nat>, m: Pages, F: set<nat>) {
    && NoDup(pages) && (forall x :: x in pages ==> Aligned(x, k)) && Pool(pages, k) <= F0 && F == F0 - Pool(pages, k)
    && SameOutside(m0, m, F0) && AllClean(m, Pool(pages, k))
  }

  lemma RefillPages(pages: seq<nat>, m0: Pages, F0: set<nat>, m: Pages, F: set<nat>)
    requires RefilledBy(pages, 0, m0, F0, m, F)
    ensures Refilled(pages, m0, F0, m, F)
  {
    PoolPages(pages);
  }

  lemma RefillStart(k: nat, m: Pages, F: set<nat>)
    ensures RefilledBy([], k, m, F, m, F) && Refilled([], m, F, m, F)
  {
  }

  lemma RefillStep(pages: seq<nat>, k: nat, m0: Pages, F0: set<nat>, m: Pages, F: set<nat>, p: nat, m': Pages, F': set<nat>)
    requires RefilledBy(pages, k, m0, F0, m, F) && Aligned(p, k) && Block(p, k) <= F && F' == F - Block(p, k)
    requires SameOutside(m, m', F) && AllClean(m', Block(p, k))
    ensures RefilledBy(pages + [p], k, m0, F0, m', F')
  {
    assert InBlock(p, p, k) && p in F;
    InPool(pages, k);
    assert p !in pages by { assert p in pages ==> InBlock(p, p, k); }
    PoolConcat(pages, [p], k);
    PoolOne(p, k);
    NoDupTail(pages, p);
  }

  lemma NoElems(s: seq<nat>)
    ensures s == [] ==> Elems(s) == {}
  {
  }

  lemma NoDupTail(s: seq<nat>, p: nat)
    requires NoDup(s) && p !in s
    ensures NoDup(s + [p]) && forall x :: x in s + [p] <==> x in s || x == p
  {
  }

  lemma NoneLeft(F: set<nat>)
    requires NoBlock(0, F)
    ensures F == {}
  {
    forall x | x in F ensures false {
      assert forall p: nat :: InBlock(p, x, 0) <==> p == x;
      OnePage(x);
    }
  }

  /** Replacing one per-CPU list by one made of its own pages, free pages and some unused ones. */
  lemma PcpReplace(cs: seq<PerCpuPages>, m: Pages, F: set<nat>, c: nat, q: PerCpuPages, m': Pages, F': set<nat>, extra: set<nat>)
    requires PcpsOk(cs, m, F) && c < |cs| && PcpOk(q, m', F')
    requires F' <= F + Elems(cs[c].list) && extra !! F && extra !! Cached(cs)
    requires SameOutside(m, m', F + Elems(cs[c].list))
    requires Elems(q.list) <= F + Elems(cs[c].list) + extra
    ensures PcpsOk(cs[c := q], m', F')
    ensures Cached(cs[c := q]) == Cached(cs) - Elems(cs[c].list) + Elems(q.list)
  {
    var ds := cs[c := q];
    InCached(cs);
    InCached(ds);
    forall d, x | 0 <= d < |cs| && d != c && x in cs[d].list
      ensures x !in cs[c].list && x !in F && x in Cached(cs) && x !in q.list
    {
      assert PcpOk(cs[d], m, F);
      assert x in q.list ==> x in Elems(q.list);
    }
    forall d | 0 <= d < |ds| ensures PcpOk(ds[d], m', F') {
      if d != c { assert PcpOk(cs[d], m, F); }
    }
    forall x ensures x in Cached(ds) <==> x in Cached(cs) - Elems(cs[c].list) + Elems(q.list) {
      if x in Cached(ds) {
        var d :| 0 <= d < |ds| && x in ds[d].list;
        if d != c { assert x in cs[d].list; }
      }
      if x in Cached(cs) - Elems(cs[c].list) {
        var d :| 0 <= d < |cs| && x in cs[d].list;
        assert x in ds[d].list;
      }
      if x in Elems(q.list) { assert x in ds[c].list; }
    }
  }

  lemma CachedApart(cs: seq<PerCpuPages>, m: Pages, F: set<nat>)
    requires PcpsOk(cs, m, F)
    ensures Cached(cs) !! F
  {
    CachedInZone(cs, m, F);
  }

  lemma PcpFacts(cs: seq<PerCpuPages>, m: Pages, F: set<nat>, c: nat)
    requires PcpsOk(cs, m, F) && c < |cs|
    ensures PcpOk(cs[c], m, F) && Elems(cs[c].list) <= Cached(cs) && Cached(cs) !! F
  {
    InCached(cs);
    forall x | x in Cached(cs) ensures x !in F {
      var d :| 0 <= d < |cs| && x in cs[d].list;
      assert PcpOk(cs[d], m, F);
    }
  }

  /** The page goes to the head of list `c`, whose tail may have gone back to the buddy lists. */
  lemma HotColdEnd(cs: seq<PerCpuPages>, m: Pages, F: set<nat>, c: nat, rest: seq<nat>, page: nat, q: PerCpuPages, m': Pages, F': set<nat>)
    requires PcpsOk(cs, m, F) && c < |cs| && page < |m| && page !in F && page !in Cached(cs) && m[page].Clean()
    requires rest <= cs[c].list && F' == F + Elems(cs[c].list[|rest|..]) && SameOutside(m, m', F')
    requires q == cs[c].(list := [page] + rest, count := |rest| + 1) && q.count <= q.high
    ensures PcpsOk(cs[c := q], m', F') && F' + Cached(cs[c := q]) == F + Cached(cs) + {page}
  {
    PcpFacts(cs, m, F, c);
    var l := cs[c].list;
    assert l == rest + l[|rest|..];
    assert Elems(l) == Elems(rest) + Elems(l[|rest|..]);
    assert page !in l by { assert page in l ==> page in Elems(l); }
    forall x | x in q.list ensures x < |m'| && x !in F' && m'[x].Clean() {
      if x in rest { assert x in l; assert forall i :: |rest| <= i < |l| ==> l[i] != x; }
    }
    assert Elems(q.list) == {page} + Elems(rest);
    PcpReplace(cs, m, F, c, q, m', F', {page});
  }

  /** List `c` is refilled at its tail with `pages` and loses its head, if it has one. */
  lemma TakeEnd(cs: seq<PerCpuPages>, m: Pages, F: set<nat>, c: nat, pages: seq<nat>, q: PerCpuPages, m': Pages, F': set<nat>)
    requires PcpsOk(cs, m, F) && c < |cs| && Refilled(pages, m, F, m', F')
    requires |cs[c].list| + |pages| <= cs[c].high
    requires var l := cs[c].list + pages;
             q == if l == [] then cs[c] else cs[c].(list := l[1..], count := |l| - 1)
    ensures PcpsOk(cs[c := q], m', F')
    ensures var l := cs[c].list + pages;
            && (l == [] ==> F' + Cached(cs[c := q]) == F + Cached(cs) && F' == F && q.list == [])
            && (l != [] ==> F' + Cached(cs[c := q]) == F + Cached(cs) - {l[0]} && l[0] in F + Cached(cs)
                            && l[0] < |m'| && m'[l[0]].Clean())
  {
    PcpFacts(cs, m, F, c);
    var l := cs[c].list + pages;
    RefilledList(cs[c], m, F, pages, m', F');
    hide PcpsOk, Cached, NoDup, AllClean, Elems, SameOutside;
    if l != [] { PopNoDup(l); }
    NewPcp(cs[c], m', F', l, q);
    PcpReplace(cs, m, F, c, q, m', F', {});
    SetsAfterTake(F, Cached(cs), Elems(cs[c].list), Elems(pages), Elems(q.list));
  }

  /**
   The per-CPU list loses its head.  A list over its low mark loses nothing else and no free page is
   touched; another one is first filled up at its tail, by a batch or with all free pages there are.
   */
  ghost predicate ListTaken(p: PerCpuPages, q: PerCpuPages, r: Option<nat>, F: set<nat>, F': set<nat>) {
    && q == p.(list := q.list, count := |q.list|)
    && (r == None ==> q.list == p.list == [])
    && (r.Some? ==> p.list <= [r.value] + q.list)
    && (p.count > p.low ==> r.Some? && [r.value] + q.list == p.list && F' == F)
    && (p.count <= p.low && r.Some? ==> F' == {} || |q.list| + 1 == |p.list| + p.batch)
  }

  lemma HeadTaken(p: PerCpuPages, pages: seq<nat>, q: PerCpuPages, F: set<nat>, F': set<nat>)
    requires p.count == |p.list| && (p.count > p.low ==> pages == [] && F' == F)
    requires p.count <= p.low ==> |pages| == p.batch || F' == {}
    requires var l := p.list + pages; q == if l == [] then p else p.(list := l[1..], count := |l| - 1)
    ensures var l := p.list + pages; ListTaken(p, q, if l == [] then None else Some(l[0]), F, F')
  {
    var l := p.list + pages;
    if l != [] { assert l == [l[0]] + l[1..]; }
    assert p.list + [] == p.list;
  }

  lemma PcpBatch(cs: seq<PerCpuPages>, m: Pages, F: set<nat>, c: nat)
    requires PcpsOk(cs, m, F) && c < |cs|
    ensures cs[c].count == |cs[c].list| && 1 <= cs[c].batch && cs[c].low + cs[c].batch <= cs[c].high && cs[c].count <= cs[c].high
  {
    assert PcpOk(cs[c], m, F);
  }

  /** What taking from list `c` comes to: what `TakeEnd` and `HeadTaken` say. */
  lemma TakeFacts(cs: seq<PerCpuPages>, m: Pages, F: set<nat>, c: nat, pages: seq<nat>, q: PerCpuPages, m': Pages, F': set<nat>)
    requires PcpsOk(cs, m, F) && c < |cs| && Refilled(pages, m, F, m', F')
    requires |pages| <= cs[c].batch && (cs[c].count > cs[c].low ==> pages == [] && F' == F)
    requires cs[c].count <= cs[c].low ==> |pages| == cs[c].batch || F' == {}
    requires cs[c].count <= cs[c].low && pages == [] ==> F' == {} == F
    requires var l := cs[c].list + pages;
             q == if l == [] then cs[c] else cs[c].(list := l[1..], count := |l| - 1)
    ensures PcpsOk(cs[c := q], m', F') && (cs[c].list != [] ==> (cs[c].list + pages)[0] == cs[c].list[0])
    ensures var l := cs[c].list + pages;
            var r := if l == [] then None else Some(l[0]);
            && ListTaken(cs[c], q, r, F, F')
            && (r == None ==> F' + Cached(cs[c := q]) == F + Cached(cs) && F' == {} && q.list == [])
            && (r.Some? ==> F' + Cached(cs[c := q]) == F + Cached(cs) - {r.value} && r.value in F + Cached(cs)
                            && r.value < |m'| && m'[r.value].Clean())
  {
    hide PcpsOk, Cached, NoDup, AllClean, Elems, SameOutside, Refilled, ListTaken;
    PcpBatch(cs, m, F, c);
    HeadTaken(cs[c], pages, q, F, F');
    TakeEnd(cs, m, F, c, pages, q, m', F');
  }

  /** Pages `P` move from the free ones to list `E`, which then is `Q`. */
  lemma SetsAfterTake(F: set<nat>, C: set<nat>, E: set<nat>, P: set<nat>, Q: set<nat>)
    requires C !! F && E <= C && P <= F && Q <= E + P
    ensures F - P + (C - E + Q) == F + C - (E + P - Q)
  {
  }

  /** The refilled list: its old pages and the new ones, all clean and no longer free. */
  lemma RefilledList(p: PerCpuPages, m: Pages, F: set<nat>, pages: seq<nat>, m': Pages, F': set<nat>)
    requires PcpOk(p, m, F) && Refilled(pages, m, F, m', F')
    ensures var l := p.list + pages;
            && NoDup(l) && Elems(l) == Elems(p.list) + Elems(pages) && (l != [] ==> l[0] in Elems(l))
            && (forall x :: x in l ==> x < |m'| && x !in F' && m'[x].Clean())
    ensures Elems(p.list) !! F && SameOutside(m, m', F + Elems(p.list))
  {
    var l := p.list + pages;
    JoinNoDup(p.list, pages, F);
    hide NoDup;
    forall x | x in l ensures x < |m'| && x !in F' && m'[x].Clean() {
      if x in p.list { OldClean(p, m, F, pages, m', F', x); } else { NewClean(pages, m, F, m', F', x); }
    }
    if l != [] { assert l[0] in l; }
    hide Refilled;
    OldStay(p, m, F, pages, m', F');
  }

  lemma OldClean(p: PerCpuPages, m: Pages, F: set<nat>, pages: seq<nat>, m': Pages, F': set<nat>, x: nat)
    requires PcpOk(p, m, F) && Refilled(pages, m, F, m', F') && x in p.list
    ensures x < |m'| && x !in F' && m'[x].Clean()
  {
  }

  lemma NewClean(pages: seq<nat>, m: Pages, F: set<nat>, m': Pages, F': set<nat>, x: nat)
    requires Refilled(pages, m, F, m', F') && x in pages
    ensures x < |m'| && x !in F' && m'[x].Clean()
  {
    assert x in Elems(pages);
  }

  lemma OldStay(p: PerCpuPages, m: Pages, F: set<nat>, pages: seq<nat>, m': Pages, F': set<nat>)
    requires PcpOk(p, m, F) && Refilled(pages, m, F, m', F')
    ensures Elems(p.list) !! F && SameOutside(m, m', F + Elems(p.list))
  {
  }

  /** The list without its head, if it has one, is as good. */
  lemma NewPcp(p: PerCpuPages, m: Pages, F: set<nat>, l: seq<nat>, q: PerCpuPages)
    requires 1 <= p.batch && p.low + p.batch <= p.high && |l| <= p.high && NoDup(l)
    requires forall x :: x in l ==> x < |m| && x !in F && m[x].Clean()
    requires p.count == |p.list| && (l == [] ==> p.list == [])
    requires q == if l == [] then p else p.(list := l[1..], count := |l| - 1)
    ensures PcpOk(q, m, F) && Elems(q.list) <= Elems(l)
  {
    if l != [] { PopNoDup(l); }
    assert Elems(q.list) <= Elems(l);
    forall i | 0 <= i < |q.list| ensures q.list[i] in l { }
  }

  lemma JoinNoDup(s: seq<nat>, t: seq<nat>, F: set<nat>)
    requires NoDup(s) && NoDup(t) && Elems(t) <= F && Elems(s) !! F
    ensures NoDup(s + t) && Elems(s + t) == Elems(s) + Elems(t)
  {
    assert forall i :: 0 <= i < |t| ==> t[i] in Elems(t);
    assert forall i :: 0 <= i < |s| ==> s[i] in Elems(s);
  }

  lemma PopNoDup(s: seq<nat>)
    requires NoDup(s) && s != []
    ensures NoDup(s[1..]) && Elems(s[1..]) == Elems(s) - {s[0]}
  {
    assert s == [s[0]] + s[1..];
  }

  lemma ShrinkFree(cs: seq<PerCpuPages>, m: Pages, F: set<nat>, m': Pages, F': set<nat>)
    requires PcpsOk(cs, m, F) && F' <= F && SameOutside(m, m', F)
    ensures PcpsOk(cs, m', F')
  {
    forall c | 0 <= c < |cs| ensures PcpOk(cs[c], m', F') {
      assert PcpOk(cs[c], m, F);
    }
  }

  /**
   The owner of a page may write anything to its struct but the mark of a free block: exactly that
   keeps the zone consistent.
   */
  lemma OwnerWriteExact(m: Pages, a: Lists, F: set<nat>, cs: seq<PerCpuPages>, p: nat, x: PageStruct)
    requires BuddyInv(m, a, F) && PcpsOk(cs, m, F) && p < |m| && p !in F && p !in Cached(cs)
    ensures BuddyInv(m[p := x], a, F) && PcpsOk(cs, m[p := x], F) <==> forall k: nat :: k < |a| ==> !x.IsBuddy(k)
  {
    var m' := m[p := x];
    forall k: nat | k < |a| ensures p !in a[k] { assert p in a[k] ==> Maximal(p, k, |a|, F) && InBlock(p, p, k); }
    if forall k: nat :: k < |a| ==> !x.IsBuddy(k) {
      forall q: nat, k: nat | q < |m'| && k < |a| ensures m'[q].IsBuddy(k) <==> q in a[k] {
        assert m[q].IsBuddy(k) <==> q in a[k];
      }
      InCached(cs);
      forall c | 0 <= c < |cs| ensures PcpOk(cs[c], m', F) {
        assert PcpOk(cs[c], m, F);
        assert p !in cs[c].list;
      }
    } else {
      var k: nat :| k < |a| && x.IsBuddy(k);
      assert m'[p].IsBuddy(k);
    }
  }

  ghost predicate CountsOk(s: seq<FreeArea>) {
    forall k :: 0 <= k < |s| ==> s[k].nrFree == |s[k].list|
  }

  /** Lists with exact counters are determined by the lists. */
  lemma SameArea(s: seq<FreeArea>, t: seq<FreeArea>)
    requires CountsOk(s) && CountsOk(t) && ListsOf(s) == ListsOf(t)
    ensures s == t
  {
    forall k | 0 <= k < |s| ensures s[k] == t[k] {
      assert s[k].list == ListsOf(s)[k] == t[k].list;
    }
  }

  /** All that any reader of a page struct looks at; the order counts under PG_private only. */
  ghost predicate SameMark(x: PageStruct, y: PageStruct) {
    x.reserved == y.reserved && x.count == y.count && x.priv == y.priv && (x.priv ==> x.order == y.order)
  }

  /** The marks of the free pages are determined by the lists. */
  lemma MarksFollowLists(m: Pages, m': Pages, a: Lists, F: set<nat>)
    requires BuddyInv(m, a, F) && BuddyInv(m', a, F) && SameOutside(m, m', F)
    ensures forall p :: 0 <= p < |m| ==> SameMark(m[p], m'[p])
  {
    forall p | 0 <= p < |m| ensures SameMark(m[p], m'[p]) {
      if p in F {
        assert m[p].priv ==> m[p].IsBuddy(m[p].order) && p in a[m[p].order];
        assert m'[p].priv ==> m'[p].IsBuddy(m'[p].order) && p in a[m'[p].order];
      }
    }
  }

  lemma CountsAfterDel(m: Pages, a: Lists, F: set<nat>, s: seq<FreeArea>, b: nat, o: nat)
    requires CountsOk(s) && a == ListsOf(s) && BuddyInv(m, a, F) && o < |s| && b < |m| && m[b].IsBuddy(o)
    ensures CountsOk(s[o := FreeArea(Without(s[o].list, b), s[o].nrFree - 1)])
  {
    assert b in a[o];
    WithoutIsDelete(s[o].list, b);
  }

  lemma CountsAfterAdd(s: seq<FreeArea>, i: nat, o: nat)
    requires CountsOk(s) && o < |s|
    ensures CountsOk(s[o := FreeArea([i] + s[o].list, s[o].nrFree + 1)])
  {
  }

  /** Pages per refill, from the size of the zone (4 KB pages). */
  function Batch(presentPages: nat): (b: nat)
    ensures 1 <= b <= 16 && (b > 1 ==> 4096 * b <= presentPages) && (b < 16 ==> presentPages < 4096 * (b + 1))
  {
    var b := presentPages / 1024;
    var b := if b * 4096 > 256 * 1024 then (256 * 1024) / 4096 else b;
    if b / 4 < 1 then 1 else b / 4
  }

  function HotPages(batch: nat): PerCpuPages { PerCpuPages(0, 2 * batch, 6 * batch, batch, []) }
  function ColdPages(batch: nat): PerCpuPages { PerCpuPages(0, 0, 2 * batch, batch, []) }

  // ---------------------------------------------------------------- the zone

  class Zone {
    var mem: seq<PageStruct>       // zone_mem_map, one entry per spanned page
    var area: seq<FreeArea>        // free_area, MAX_ORDER entries
    var pcp: seq<PerCpuPages>      // entry 2 * cpu is hot, 2 * cpu + 1 is cold
    var freePages: int
    ghost var free: set<nat>

    ghost function Lists(): Lists
      reads this`area
    {
      ListsOf(area)
    }

    ghost predicate BuddyValid()
      reads this`mem, this`area, this`freePages, this`free
    {
      CountsOk(area) && BuddyInv(mem, Lists(), free) && freePages == |free|
    }

    ghost predicate Valid()
      reads this
    {
      BuddyValid() && PcpsOk(pcp, mem, free)
    }

    /** Pages the allocator may hand out: in a free block or on a per-CPU list. */
    ghost function Avail(): set<nat>
      reads this
    {
      free + Cached(pcp)
    }

    /** All pages start reserved, all lists empty. */
    constructor (spannedPages: nat, presentPages: nat, cpus: nat)
      ensures Valid() && Avail() == {} && Lists() == Boot(MAX_ORDER).a
      ensures |mem| == spannedPages && |pcp| == 2 * cpus && forall p :: 0 <= p < |mem| ==> mem[p].reserved && mem[p].count == 0
      ensures forall c :: 0 <= c < |pcp| ==>
                var b := Batch(presentPages);
                pcp[c].batch == b && pcp[c].list == [] && (if c % 2 == 0 then pcp[c].low == 2 * b && pcp[c].high == 6 * b else pcp[c].low == 0 && pcp[c].high == 2 * b)
    {
      mem := seq(spannedPages, _ => PageStruct(false, 0, true, 0));
      area := seq(MAX_ORDER, _ => FreeArea([], 0));
      var b := Batch(presentPages);
      pcp := seq(2 * cpus, c => if c % 2 == 0 then HotPages(b) else ColdPages(b));
      freePages := 0;
      free := {};
      new;
      BootIsCanon(MAX_ORDER);
      assert Lists() == Boot(MAX_ORDER).a;
      InCached(pcp);
      assert Cached(pcp) == {};
    }

    /** The merging loop of `__free_pages_bulk`. */
    method Coalesce(i: nat, order: nat, ghost goal: Lists, ghost all: set<nat>)
      returns (idx: nat, o: nat, ghost F: set<nat>)
      requires Merging(mem, ListsOf(area), free, i, order, goal, all) && CountsOk(area)
      modifies this`mem, this`area
      ensures Merging(mem, ListsOf(area), F, idx, o, goal, all) && CountsOk(area)
      ensures o + 1 < MAX_ORDER ==> var b := Buddy(idx, o); b < |mem| ==> !mem[b].IsBuddy(o)
      ensures SameOutside(old(mem), mem, all)
    {
      hide Canon, FlagsOk, FreeBlock, AllClean, CountsOk, Without, Pow2, Aligned, BitXor, BitAnd;
      idx, o, F := i, order, free;
      while o < MAX_ORDER - 1
        invariant Merging(mem, ListsOf(area), F, idx, o, goal, all)
        invariant CountsOk(area)
        invariant SameOutside(old(mem), mem, all)
        decreases MAX_ORDER - o
      {
        BuddyBits(idx, o);
        var b: nat := BitXor(idx, Pow2(o));
        if b >= |mem| || !mem[b].IsBuddy(o) {
          break;
        }
        ghost var m, s := mem, area;
        area := area[o := FreeArea(Without<nat>(area[o].list, b), area[o].nrFree - 1)];
        mem := mem[b := mem[b].RmvOrder()];
        ListsOfUpdate(s, o, area[o]);
        MergeStep(old(mem), m, ListsOf(s), F, idx, o, goal, all, b, mem, ListsOf(area));
        CountsAfterDel(m, ListsOf(s), F, s, b, o);
        F := F - Block(b, o);
        idx := BitAnd(idx, b);
        o := o + 1;
      }
    }

    /** `__free_pages_bulk` */
    method FreeToBuddy(i: nat, order: nat)
      requires BuddyValid() && order < MAX_ORDER && Aligned(i, order)
      requires Block(i, order) !! free && AllClean(mem, Block(i, order))
      modifies this`mem, this`area, this`freePages, this`free
      ensures BuddyValid() && Lists() == FreeBlock(old(Lists()), i, order)
      ensures free == old(free) + Block(i, order) && freePages == old(freePages) + Pow2(order)
      ensures SameOutside(old(mem), mem, free)
    {
      hide Canon, FlagsOk, FreeBlock, AllClean, CountsOk, SameOutside, Block, Pow2, Aligned;
      freePages := freePages + Pow2(order);
      ghost var goal, all := FreeBlock(ListsOf(area), i, order), free + Block(i, order);
      AddBlockCard(free, i, order);
      var idx, o, F := Coalesce(i, order, goal, all);
      HeadInRange(mem, idx, o);
      ghost var m, s := mem, area;
      mem := mem[idx := mem[idx].SetOrder(o)];
      area := area[o := FreeArea([idx] + area[o].list, area[o].nrFree + 1)];
      ListsOfUpdate(s, o, area[o]);
      MergeEnd(old(mem), m, ListsOf(s), F, idx, o, goal, all, mem, ListsOf(area));
      CountsAfterAdd(s, idx, o);
      free := all;
    }
 
    /** `expand`: the block in hand is split, upper halves go back to the lists. */
    method ExpandBlock(p: nat, low: nat, high: nat, ghost F: set<nat>, ghost goal: Lists, ghost rest: set<nat>,
                       ghost m0: Pages, ghost F0: set<nat>)
      requires Splitting(mem, ListsOf(area), F, p, low, high, goal, rest) && CountsOk(area)
      requires SameOutside(m0, mem, F0) && rest <= F0
      modifies this`mem, this`area
      ensures BuddyInv(mem, ListsOf(area), rest) && ListsOf(area) == goal && AllClean(mem, Block(p, low))
      ensures CountsOk(area) && SameOutside(m0, mem, F0)
    {
      hide Canon, FlagsOk, Expand, AllClean, CountsOk, SameOutside, Pow2, Aligned;
      var h: nat := high;
      ghost var G := F;
      while h > low
        invariant Splitting(mem, ListsOf(area), G, p, low, h, goal, rest) && CountsOk(area)
        invariant SameOutside(m0, mem, F0)
      {
        UpperInRange(mem, p, h);
        ghost var m, s := mem, area;
        var u: nat := p + Pow2(h - 1);
        area := area[h - 1 := FreeArea([u] + area[h - 1].list, area[h - 1].nrFree + 1)];
        mem := mem[u := mem[u].SetOrder(h - 1)];
        ListsOfUpdate(s, h - 1, area[h - 1]);
        SplitStep(m0, F0, m, ListsOf(s), G, p, low, h, goal, rest, u, mem, ListsOf(area));
        CountsAfterAdd(s, u, h - 1);
        G := G + Block(u, h - 1);
        h := h - 1;
      }
      SplitEnd(mem, ListsOf(area), G, p, low, goal, rest);
    }

    /** `__rmqueue` */
    method Rmqueue(order: nat) returns (r: Option<nat>)
      requires BuddyValid() && order < MAX_ORDER
      modifies this`mem, this`area, this`freePages, this`free
      ensures BuddyValid() && (Lists(), r) == BuddyLists.Rmqueue(old(Lists()), order)
      ensures r == None ==> free == old(free) && mem == old(mem) && NoBlock(order, free)
      ensures r.Some? ==> Aligned(r.value, order) && Block(r.value, order) <= old(free)
      ensures r.Some? ==> free == old(free) - Block(r.value, order) && AllClean(mem, Block(r.value, order))
      ensures freePages == old(freePages) - if r.Some? then Pow2(order) else 0
      ensures SameOutside(old(mem), mem, old(free))
    {
      hide Canon, FlagsOk, Expand, AllClean, CountsOk, Pow2, Aligned;
      var c: nat := order;
      while c < MAX_ORDER && area[c].list == []
        invariant order <= c <= MAX_ORDER && FirstOrder(ListsOf(area), c) == FirstOrder(ListsOf(area), order)
      {
        c := c + 1;
      }
      RmqueueKeepsCanon(ListsOf(area), free, order);
      if c == MAX_ORDER {
        return None;
      }
      var p := area[c].list[0];
      ListedInRange(mem, ListsOf(area), free, c, p);
      ghost var m, s, goal, rest := mem, area, BuddyLists.Rmqueue(ListsOf(area), order).0, free - Block(p, order);
      mem := mem[p := mem[p].RmvOrder()];
      area := area[c := FreeArea(area[c].list[1..], area[c].nrFree - 1)];
      freePages := freePages - Pow2(order);
      ListsOfUpdate(s, c, area[c]);
      CountsAfterPop(s, c);
      SplitStart(m, ListsOf(s), free, order, c, p, mem, ListsOf(area));
      ExpandBlock(p, order, c, free - Block(p, c), goal, rest, old(mem), old(free));
      RemoveBlockCard(free, p, order);
      free := rest;
      return Some(p);
    }
 
    /**
     `free_pages_bulk`: frees `count` blocks of one order from the tail of the list, or all of them
     when there are fewer.  A count of zero frees none.
     */
    method FreePagesBulk(count: nat, list: seq<nat>, order: nat) returns (rest: seq<nat>, ret: nat)
      requires BuddyValid() && order < MAX_ORDER && UnusedBlocks(list, order, mem, free)
      modifies this`mem, this`area, this`freePages, this`free
      ensures BuddyValid()
      ensures ret == (if count <= |list| then count else |list|) && rest == list[..|list| - ret]
      ensures free == old(free) + Pool(list[|list| - ret..], order)
      ensures SameOutside(old(mem), mem, free)
    {
      hide Canon, FlagsOk, CountsOk, FreeBlock, BuddyInv, UnusedBlocks, Pool, SameOutside, Block;
      rest, ret := list, 0;
      var n := count;
      BulkStart(list, order, mem, free);
      while rest != [] && n > 0
        invariant BuddyValid() && ret + n == count && ret <= |list| && rest == list[..|list| - ret]
        invariant free == old(free) + Pool(list[|list| - ret..], order)
        invariant SameOutside(old(mem), mem, free)
        decreases n
      {
        var x := rest[|rest| - 1];
        BulkPick(list, order, ret, old(mem), old(free), mem, free);
        ghost var m, F := mem, free;
        FreeToBuddy(x, order);
        BulkNext(old(mem), m, F, mem, free);
        rest := rest[..|rest| - 1];
        ret, n := ret + 1, n - 1;
      }
    }

    /** `rmqueue_bulk`: up to `count` blocks of one order, fewer only when no such block is left. */
    method RmqueueBulk(order: nat, count: nat) returns (pages: seq<nat>)
      requires BuddyValid() && order < MAX_ORDER
      modifies this`mem, this`area, this`freePages, this`free
      ensures BuddyValid() && RefilledBy(pages, order, old(mem), old(free), mem, free)
      ensures |pages| <= count && (|pages| < count ==> NoBlock(order, free))
    {
      hide Canon, FlagsOk, CountsOk, BuddyInv, BuddyLists.Rmqueue, RefilledBy, SameOutside, AllClean, Block, Aligned;
      pages := [];
      var i := 0;
      RefillStart(order, mem, free);
      while i < count
        invariant BuddyValid() && RefilledBy(pages, order, old(mem), old(free), mem, free)
        invariant |pages| == i <= count
      {
        ghost var m, F := mem, free;
        var r := Rmqueue(order);
        if r == None {
          break;
        }
        RefillStep(pages, order, old(mem), old(free), m, F, r.value, mem, free);
        pages := pages + [r.value];
        i := i + 1;
      }
    }

    /** `free_hot_cold_page` on the per-CPU list `c`. */
    method FreeHotColdPage(page: nat, c: nat)
      requires Valid() && c < |pcp| && page < |mem| && page !in Avail() && mem[page].Clean()
      modifies this
      ensures Valid() && Avail() == old(Avail()) + {page} && SameOutside(old(mem), mem, Avail())
      ensures |pcp| == old(|pcp|) && forall d :: 0 <= d < |pcp| && d != c ==> pcp[d] == old(pcp[d])
      ensures pcp[c].list != [] && pcp[c].list[0] == page
      ensures old(pcp[c].count < pcp[c].high) ==> pcp[c].list == [page] + old(pcp[c].list) && free == old(free)
      ensures old(pcp[c].count >= pcp[c].high) ==>
                var l, n := old(pcp[c].list), old(pcp[c].high - pcp[c].batch);
                0 <= n < |l| && pcp[c].list == [page] + l[..n] && free == old(free) + Elems(l[n..])
      ensures pcp[c] == old(pcp[c]).(list := pcp[c].list, count := |pcp[c].list|)
    {
      hide Canon, FlagsOk, CountsOk, BuddyInv, PcpsOk, Cached, Elems, NoDup, AllClean, SameOutside, Block, Pool, UnusedBlocks;
      PcpFacts(pcp, mem, free, c);
      ghost var m, F := mem, free;
      var q := pcp[c];
      BulkStart(q.list, 0, mem, free);
      UnusedPages(q, mem, free);
      if q.count >= q.high {
        var rest, ret := FreePagesBulk(q.batch, q.list, 0);
        q := q.(list := rest, count := q.count - ret);
      }
      PoolPages(pcp[c].list[|q.list|..]);
      assert free == F + Elems(pcp[c].list[|q.list|..]);
      ghost var rest := q.list;
      q := q.(list := [page] + q.list, count := q.count + 1);
      HotColdEnd(pcp, m, F, c, rest, page, q, mem, free);
      pcp := pcp[c := q];
      MoreSame(m, mem, free, Avail());
    }

    /** Pages to add to a per-CPU list that is low. */
    method Refill(q: PerCpuPages) returns (pages: seq<nat>)
      requires BuddyValid() && 1 <= q.batch
      modifies this`mem, this`area, this`freePages, this`free
      ensures BuddyValid() && Refilled(pages, old(mem), old(free), mem, free) && SameOutside(old(mem), mem, old(free))
      ensures |pages| <= q.batch && (q.count > q.low ==> pages == [] && free == old(free))
      ensures q.count <= q.low && pages == [] ==> free == {} == old(free)
      ensures q.count <= q.low ==> |pages| == q.batch || free == {}
    {
      hide Canon, FlagsOk, CountsOk, BuddyInv, RefilledBy, SameOutside, AllClean, Block, NoBlock, NoDup, Elems;
      pages := [];
      RefillStart(0, mem, free);
      if q.count <= q.low {
        pages := RmqueueBulk(0, q.batch);
        RefillPages(pages, old(mem), old(free), mem, free);
        if |pages| < q.batch { NoneLeft(free); }
      }
      assert pages == [] ==> free == old(free) by { NoElems(pages); }
    }

    /** The order-0 path of `buffered_rmqueue`: refill when low, then take the head. */
    method TakeCached(c: nat) returns (r: Option<nat>)
      requires Valid() && c < |pcp|
      modifies this
      ensures Valid() && SameOutside(old(mem), mem, old(Avail()))
      ensures |pcp| == old(|pcp|) && forall d :: 0 <= d < |pcp| && d != c ==> pcp[d] == old(pcp[d])
      ensures r == None ==> Avail() == old(Avail()) && free == {} && pcp[c].list == []
      ensures r.Some? ==> r.value in old(Avail()) && Avail() == old(Avail()) - {r.value}
      ensures r.Some? ==> r.value < |mem| && mem[r.value].Clean()
      ensures old(pcp[c].list) != [] ==> r == Some(old(pcp[c].list[0]))
      ensures ListTaken(old(pcp[c]), pcp[c], r, old(free), free)
    {
      hide Canon, FlagsOk, CountsOk, BuddyInv, PcpsOk, Cached, Elems, NoDup, AllClean, SameOutside, Block, Refilled, ListTaken;
      ghost var cs, m, F := pcp, mem, free;
      PcpBatch(pcp, mem, free, c);
      var q := pcp[c];
      var pages := Refill(q);
      r, q := PopHead(q.(list := q.list + pages, count := q.count + |pages|));
      TakeFacts(cs, m, F, c, pages, q, mem, free);
      pcp := pcp[c := q];
      MoreSame(m, mem, F, old(Avail()));
    }

    /** The head of the list, if there is one. */
    method PopHead(p: PerCpuPages) returns (r: Option<nat>, q: PerCpuPages)
      requires p.count == |p.list|
      ensures if p.list == [] then r == None && q == p else r == Some(p.list[0]) && q == p.(list := p.list[1..], count := |p.list| - 1)
    {
      r, q := None, p;
      if q.count > 0 {
        r := Some(q.list[0]);
        q := q.(list := q.list[1..], count := q.count - 1);
      }
    }

    /** A write by the owner of a page to its struct, anything but the mark of a free block. */
    method OwnerWrite(p: nat, x: PageStruct)
      requires Valid() && p < |mem| && p !in Avail() && forall k: nat :: k < MAX_ORDER ==> !x.IsBuddy(k)
      modifies this`mem
      ensures Valid() && mem == old(mem)[p := x]
    {
      assert |ListsOf(area)| == MAX_ORDER;
      hide Canon, FlagsOk, CountsOk, BuddyInv, PcpsOk, Cached;
      OwnerWriteExact(mem, ListsOf(area), free, pcp, p, x);
      mem := mem[p := x];
    }

    /** `prep_new_page`, as far as the page struct is modelled: one reference, no private data. */
    method PrepNewPage(p: nat)
      requires Valid() && p < |mem| && p !in Avail() && mem[p].Clean()
      modifies this`mem
      ensures Valid() && mem == old(mem)[p := PageStruct(false, 0, false, 1)]
    {
      OwnerWrite(p, PageStruct(mem[p].priv, 0, mem[p].reserved, 1));
    }

    /** `__free_pages`: a reference goes; with the last one the block goes back, a single page through list `c`. */
    method FreePages(p: nat, order: nat, c: nat) returns (freed: bool)
      requires Valid() && order < MAX_ORDER && c < |pcp| && Aligned(p, order) && p < |mem| && Block(p, order) !! Avail()
      requires !mem[p].reserved ==> mem[p].count >= 1
      requires !mem[p].reserved && mem[p].count == 1 ==> !mem[p].priv && TailClean(mem, p, order)
      modifies this
      ensures Valid() && |mem| == old(|mem|) && |pcp| == old(|pcp|)
      ensures freed <==> !old(mem[p].reserved) && old(mem[p].count) == 1
      ensures freed ==> Avail() == old(Avail()) + Block(p, order) && SameOutside(old(mem), mem, Avail())
      ensures freed && order == 0 ==> pcp[c].list != [] && pcp[c].list[0] == p
      ensures !freed ==> Avail() == old(Avail()) && pcp == old(pcp) && area == old(area) && free == old(free)
      ensures !freed ==> mem == if old(mem[p].reserved) then old(mem) else old(mem)[p := old(mem[p]).(count := old(mem[p].count) - 1)]
    {
      hide Canon, FlagsOk, CountsOk, BuddyInv, PcpsOk, Cached, Pool, UnusedBlocks, SameOutside, Aligned;
      freed := false;
      if !mem[p].reserved {
        assert InBlock(p, p, order);
        ghost var m := mem;
        OwnerWrite(p, mem[p].(count := mem[p].count - 1));
        if mem[p].count == 0 {
          freed := true;
          if order == 0 {
            OnePage(p);
            ghost var m1 := mem;
            FreeHotColdPage(p, c);
            SameFrom(m, m1, p, Avail(), mem);
          } else {
            SoleBlock(mem, p, order, free);
            ghost var m1, F := mem, free;
            var rest, ret := FreePagesBulk(1, [p], order);
            assert [p][0..] == [p];
            GrowFree(pcp, m1, F, p, order, mem);
            MoreSame(m1, mem, free, Avail());
            SameFrom(m, m1, p, Avail(), mem);
          }
        }
      }
    }

    /** A block straight from the buddy lists, past the per-CPU lists. */
    method TakeBlock(order: nat) returns (r: Option<nat>)
      requires Valid() && order < MAX_ORDER
      modifies this`mem, this`area, this`freePages, this`free
      ensures Valid() && (r == None ==> free == old(free) && NoBlock(order, free)) && SameOutside(old(mem), mem, old(Avail()))
      ensures r.Some? ==> Aligned(r.value, order) && Block(r.value, order) <= old(free) && free == old(free) - Block(r.value, order)
      ensures r.Some? ==> Avail() == old(Avail()) - Block(r.value, order) && r.value < |mem| && AllClean(mem, Block(r.value, order))
    {
      hide Canon, FlagsOk, CountsOk, BuddyInv, PcpsOk, Cached, BuddyLists.Rmqueue, AllClean, SameOutside, Elems, NoDup, Aligned, Block;
      ghost var m, F := mem, free;
      CachedApart(pcp, mem, free);
      r := Rmqueue(order);
      ShrinkFree(pcp, m, F, mem, free);
      MoreSame(m, mem, F, old(Avail()));
      if r.Some? { HeadInRange(mem, r.value, order); }
    }

    /** `buffered_rmqueue` through the per-CPU list `c`. */
    method BufferedRmqueue(order: nat, c: nat) returns (r: Option<nat>)
      requires Valid() && c < |pcp| && order < MAX_ORDER
      modifies this
      ensures Valid() && SameOutside(old(mem), mem, old(Avail()))
      ensures |pcp| == old(|pcp|) && forall d :: 0 <= d < |pcp| && (d != c || order > 0) ==> pcp[d] == old(pcp[d])
      ensures r == None ==> Avail() == old(Avail()) && NoBlock(order, free)
      ensures r == None && order == 0 ==> free == {} && pcp[c].list == []
      ensures r.Some? ==> Aligned(r.value, order) && Block(r.value, order) <= old(Avail())
      ensures r.Some? ==> Avail() == old(Avail()) - Block(r.value, order)
      ensures r.Some? ==> HandedOut(mem, r.value, order)
      ensures order == 0 && old(pcp[c].list) != [] ==> r == Some(old(pcp[c].list[0]))
    {
      hide Canon, FlagsOk, CountsOk, BuddyInv, PcpsOk, Cached, BuddyLists.Rmqueue, AllClean, SameOutside, Elems, NoDup, Aligned, HandedOut;
      r := None;
      if order == 0 {
        r := TakeCached(c);
        if r.Some? {
          OnePage(r.value);
          OneClean(mem, r.value);
        }
      }
      if r == None {
        ghost var m, A := mem, Avail();
        r := TakeBlock(order);
        if order == 0 { SameTwice(old(mem), m, mem, A); }
      }
      if r.Some? {
        TakenUnavailable(r.value, order, old(Avail()), Avail());
        HeadInRange(mem, r.value, order);
        ghost var m := mem;
        PrepNewPage(r.value);
        PrepHandsOut(m, r.value, order, mem);
        SameBut(old(mem), m, old(Avail()), r.value, mem);
      }
    }
  }
}
