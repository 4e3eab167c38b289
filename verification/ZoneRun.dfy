/**
 Runs of a zone: whoever owns pages writes to their structs, drops references and asks for blocks, in
 any order, from boot on.
 */
module ZoneRuns {
  import opened Options
  import opened Dyadic
  import opened BuddyLists
  import opened BuddyZone

  datatype Request =
    | Write(page: nat, x: PageStruct)
    | Release(page: nat, order: nat, list: nat)
    | Allocate(order: nat, list: nat)

  /** The pages of a block, as a set to compute with. */
  function PagesOf(p: nat, k: nat): (s: set<nat>)
    ensures s == Block(p, k)
  {
    set q: nat | p <= q < p + Pow2(k) && InBlock(q, p, k)
  }

  function PagesBelow(n: nat): (s: set<nat>)
    ensures s == Dyadic.Range(0, n)
  {
    if n == 0 then {} else PagesBelow(n - 1) + {n - 1}
  }

  /** A write that does not forge the mark of a free block. */
  predicate Harmless(x: PageStruct) { !(x.priv && x.order < MAX_ORDER && !x.reserved && x.count == 0) }

  /** A block that its owner may release: all of it is owned, and the last reference leaves it clean. */
  predicate Releasable(m: Pages, owned: set<nat>, p: nat, k: nat) {
    && k < MAX_ORDER && Aligned(p, k) && p + Pow2(k) <= |m| && PagesOf(p, k) <= owned
    && (!m[p].reserved ==> m[p].count >= 1)
    && (!m[p].reserved && m[p].count == 1 ==> !m[p].priv && forall q :: p < q < p + Pow2(k) ==> m[q].Clean())
  }

  /** The refused writes are exactly those that would make the page pass for a free block of some order. */
  lemma HarmlessExact(x: PageStruct)
    ensures Harmless(x) <==> forall k: nat :: k < MAX_ORDER ==> !x.IsBuddy(k)
  {
    if !Harmless(x) { assert x.IsBuddy(x.order); }
  }

  /**
   The releases that are served are exactly those of whole aligned blocks of the caller's: with a
   reference to give up, unless the page is reserved, and with no private data and clean pages behind
   the first one when it is the last.
   */
  lemma ReleasableExact(m: Pages, owned: set<nat>, p: nat, k: nat)
    requires owned <= Dyadic.Range(0, |m|)
    ensures Releasable(m, owned, p, k) <==>
            && k < MAX_ORDER && Aligned(p, k) && Block(p, k) <= owned && p < |m|
            && (m[p].reserved || m[p].count >= 2 || (m[p].count == 1 && !m[p].priv && TailClean(m, p, k)))
  {
    if k < MAX_ORDER && Aligned(p, k) && Block(p, k) <= owned {
      assert InBlock(p + Pow2(k) - 1, p, k) && p + Pow2(k) - 1 in Block(p, k);
      assert InBlock(p, p, k) && p in Block(p, k);
      assert p + Pow2(k) <= |m|;
      TailIsRange(m, p, k);
    }
  }

  lemma TailIsRange(m: Pages, p: nat, k: nat)
    requires p + Pow2(k) <= |m|
    ensures TailClean(m, p, k) <==> forall q :: p < q < p + Pow2(k) ==> m[q].Clean()
  {
    forall q: nat | p < q < p + Pow2(k) ensures q in Block(p, k) { assert InBlock(q, p, k); }
  }

  /** Every page is owned, free or cached, and in one of the three only. */
  ghost predicate Partition(z: Zone, owned: set<nat>)
    reads z
  {
    && owned !! z.Avail() && z.free !! Cached(z.pcp)
    && owned + z.Avail() == Dyadic.Range(0, |z.mem|)
  }

  /** The books of a zone: counters are sizes, no list is over its mark, and the sizes add up. */
  ghost predicate Balanced(z: Zone, owned: set<nat>)
    reads z
  {
    && z.freePages == |z.free| == PagesFrom(z.Lists(), 0)
    && (forall c :: 0 <= c < |z.pcp| ==> z.pcp[c].count == |z.pcp[c].list| <= z.pcp[c].high)
    && z.freePages + CountSum(z.pcp) + |owned| == |z.mem|
  }

  lemma PartitionBalances(z: Zone, owned: set<nat>)
    requires z.Valid() && Partition(z, owned)
    ensures Balanced(z, owned)
  {
    Accounting(z.pcp, z.mem, z.Lists(), z.free);
    assert owned == Dyadic.Range(0, |z.mem|) - z.free - Cached(z.pcp);
    forall c | 0 <= c < |z.pcp| ensures z.pcp[c].count == |z.pcp[c].list| <= z.pcp[c].high {
      assert PcpOk(z.pcp[c], z.mem, z.free);
    }
  }

  lemma CachedIsNotFree(z: Zone)
    requires z.Valid()
    ensures z.free !! Cached(z.pcp) && z.Avail() <= Dyadic.Range(0, |z.mem|)
  {
    CachedInZone(z.pcp, z.mem, z.free);
  }

  /** A block of the order has come to the owners. */
  ghost predicate Gained(m: Pages, owned: set<nat>, now: set<nat>, k: nat) {
    exists p: nat :: HandedOut(m, p, k) && Aligned(p, k) && Block(p, k) !! owned && now == owned + Block(p, k)
  }

  lemma MoveToOwner(A: set<nat>, A': set<nat>, B: set<nat>, owned: set<nat>, all: set<nat>)
    requires owned !! A && owned + A == all && B <= A && A' == A - B
    ensures owned + B !! A' && owned + B + A' == all
  {
  }

  lemma MoveToZone(A: set<nat>, A': set<nat>, B: set<nat>, owned: set<nat>, all: set<nat>)
    requires owned !! A && owned + A == all && B <= owned && A' == A + B
    ensures owned - B !! A' && owned - B + A' == all
  {
  }

  lemma ReleasableBlock(m: Pages, owned: set<nat>, p: nat, k: nat)
    requires Releasable(m, owned, p, k)
    ensures p < |m| && Block(p, k) <= owned && (!m[p].reserved && m[p].count == 1 ==> TailClean(m, p, k))
  {
    assert InBlock(p, p, k);
  }

  /** A write is refused when the page is not owned or the mark would forge a free block. */
  method ServeWrite(z: Zone, owned: set<nat>, p: nat, x: PageStruct)
    requires z.Valid() && Partition(z, owned)
    modifies z`mem
    ensures z.Valid() && Partition(z, owned) && |z.mem| == old(|z.mem|)
    ensures z.mem == if p in owned && Harmless(x) then old(z.mem)[p := x] else old(z.mem)
  {
    if p in owned && Harmless(x) {
      assert p < |z.mem|;
      z.OwnerWrite(p, x);
    }
  }

  /** A release is refused when part of the block is not owned, or when its last reference would leave it dirty. */
  method ServeRelease(z: Zone, owned: set<nat>, p: nat, k: nat, c: nat) returns (now: set<nat>)
    requires z.Valid() && Partition(z, owned)
    modifies z
    ensures z.Valid() && Partition(z, now) && |z.mem| == old(|z.mem|) && |z.pcp| == old(|z.pcp|)
    ensures now == if c < |z.pcp| && Releasable(old(z.mem), owned, p, k) && !old(z.mem)[p].reserved && old(z.mem)[p].count == 1
                   then owned - Block(p, k) else owned
    ensures forall q :: q in now && q != p ==> q < |z.mem| && z.mem[q] == old(z.mem)[q]
  {
    now := owned;
    if c < |z.pcp| && Releasable(z.mem, owned, p, k) {
      ReleasableBlock(z.mem, owned, p, k);
      ghost var A := z.Avail();
      hide Zone.Valid, Releasable;
      var freed := z.FreePages(p, k, c);
      CachedIsNotFree(z);
      if freed {
        now := owned - PagesOf(p, k);
        MoveToZone(A, z.Avail(), Block(p, k), owned, Dyadic.Range(0, |z.mem|));
      }
    }
  }

  method ServeAllocate(z: Zone, owned: set<nat>, k: nat, c: nat) returns (now: set<nat>)
    requires z.Valid() && Partition(z, owned) && c < |z.pcp| && k < MAX_ORDER
    modifies z
    ensures z.Valid() && Partition(z, now) && |z.mem| == old(|z.mem|) && |z.pcp| == old(|z.pcp|)
    ensures (now == owned && NoBlock(k, z.free)) || Gained(z.mem, owned, now, k)
    ensures forall q :: q in owned ==> q < |z.mem| && z.mem[q] == old(z.mem)[q]
  {
    now := owned;
    ghost var A := z.Avail();
    hide Zone.Valid, Zone.Avail, Block, HandedOut, NoBlock, Aligned, Dyadic.Range, Cached;
    var got := z.BufferedRmqueue(k, c);
    CachedIsNotFree(z);
    if got.Some? {
      now := owned + PagesOf(got.value, k);
      GainedBlock(z.mem, owned, got.value, k);
      MoveToOwner(A, z.Avail(), Block(got.value, k), owned, Dyadic.Range(0, |z.mem|));
    }
  }

  lemma GainedBlock(m: Pages, owned: set<nat>, p: nat, k: nat)
    requires HandedOut(m, p, k) && Aligned(p, k) && Block(p, k) !! owned
    ensures Gained(m, owned, owned + Block(p, k), k)
  {
  }

  /** One request. */
  method Serve(z: Zone, owned: set<nat>, r: Request) returns (now: set<nat>)
    requires z.Valid() && Partition(z, owned)
    modifies z
    ensures z.Valid() && Partition(z, now)
    ensures |z.mem| == old(|z.mem|) && |z.pcp| == old(|z.pcp|)
  {
    hide Zone.Valid, Partition;
    now := owned;
    match r {
      case Write(p, x) => ServeWrite(z, owned, p, x);
      case Release(p, k, c) => now := ServeRelease(z, owned, p, k, c);
      case Allocate(k, c) =>
        if c < |z.pcp| && k < MAX_ORDER {
          now := ServeAllocate(z, owned, k, c);
        }
    }
  }

  /** A block allocated from the buddy lists and freed at once leaves the zone as it was. */
  method AllocateThenFree(z: Zone, order: nat) returns (r: Option<nat>)
    requires z.Valid() && order < MAX_ORDER
    modifies z`mem, z`area, z`freePages, z`free
    ensures z.Valid() && z.area == old(z.area) && z.freePages == old(z.freePages) && z.free == old(z.free)
    ensures |z.mem| == old(|z.mem|) && forall p :: 0 <= p < |z.mem| ==> SameMark(old(z.mem)[p], z.mem[p])
    ensures r == None <==> NoBlock(order, z.free)
    ensures r.Some? ==> Aligned(r.value, order) && Block(r.value, order) <= z.free
  {
    ghost var m, s, F := z.mem, z.area, z.free;
    hide Canon, FlagsOk, AllClean, FreeBlock, SameOutside, PcpsOk, Pow2, CountsOk, Block, Aligned;
    r := z.Rmqueue(order);
    if r.Some? {
      BlockInside(r.value, order, F);
      AllocFreeRoundTrip(ListsOf(s), F, order);
      ghost var m1 := z.mem;
      z.FreeToBuddy(r.value, order);
      assert z.free == F;
      SameTwice(m, m1, z.mem, F);
    }
    SameArea(s, z.area);
    MarksFollowLists(m, z.mem, ListsOf(s), F);
    ShrinkFree(z.pcp, m, F, z.mem, F);
  }

  lemma BlockInside(p: nat, k: nat, F: set<nat>)
    requires Block(p, k) <= F && Aligned(p, k)
    ensures F - Block(p, k) + Block(p, k) == F && Block(p, k) !! F - Block(p, k) && !NoBlock(k, F)
  {
    assert Inside(p, k, F);
  }

  /** A page given up on a list and asked for again on the same list comes back. */
  method Cycle(z: Zone, owned: set<nat>, p: nat, c: nat)
    requires z.Valid() && Partition(z, owned) && p in owned && c < |z.pcp|
    modifies z
    ensures z.Valid() && Partition(z, owned) && HandedOut(z.mem, p, 0)
  {
    assert p < |z.mem|;
    OnePage(p);
    ghost var A := z.Avail();
    z.OwnerWrite(p, PageStruct(false, 0, false, 1));
    var freed := z.FreePages(p, 0, c);
    var got := z.BufferedRmqueue(0, c);
    CachedIsNotFree(z);
    assert got == Some(p) && z.Avail() == A;
  }

  /**
   Any run from boot: the owners start with all pages, and after any sequence of requests every page
   is in exactly one place and the books balance.
   */
  method RunFromBoot(spannedPages: nat, presentPages: nat, cpus: nat, requests: seq<Request>) returns (z: Zone, owned: set<nat>)
    ensures z.Valid() && Partition(z, owned) && Balanced(z, owned) && |z.mem| == spannedPages
  {
    z := new Zone(spannedPages, presentPages, cpus);
    owned := PagesBelow(spannedPages);
    for i := 0 to |requests|
      invariant z.Valid() && Partition(z, owned) && |z.mem| == spannedPages
    {
      owned := Serve(z, owned, requests[i]);
    }
    PartitionBalances(z, owned);
  }
}
