/**
 The free lists of the buddy allocator as values: `a[k]` is the free list of order `k`, head
 first, and `|a|` is MAX_ORDER.  `FreeBlock` is what `__free_pages_bulk` does to the lists and
 `Rmqueue` what `__rmqueue` does.  The lists are canonical when they are exactly the maximal
 aligned blocks of the set of free pages.
 */
module BuddyLists {
  import opened Seqs
  import opened Dyadic
  import opened Options

  type Lists = seq<seq<nat>>

  // ---------------------------------------------------------------- operations

  /** Give back block `i` of order `k`: merge with the buddy while it is on the list of its order. */
  function FreeBlock(a: Lists, i: nat, k: nat): (r: Lists)
    requires k < |a| && Aligned(i, k)
    ensures |r| == |a|
    decreases |a| - k
  {
    if k + 1 < |a| && Buddy(i, k) in a[k] then
      ParentSplits(i, k);
      FreeBlock(a[k := Without(a[k], Buddy(i, k))], Parent(i, k), k + 1)
    else
      a[k := [i] + a[k]]
  }

  /** Split block `p` of order `high` down to `low`, giving back each upper half. */
  function Expand(a: Lists, p: nat, low: nat, high: nat): (r: Lists)
    requires low <= high <= |a|
    ensures |r| == |a|
    decreases high
  {
    if low < high then
      Expand(a[high - 1 := [p + Pow2(high - 1)] + a[high - 1]], p, low, high - 1)
    else a
  }

  /** First order from `k` up whose list is not empty, or `|a|`. */
  function FirstOrder(a: Lists, k: nat): (r: nat)
    requires k <= |a|
    ensures k <= r <= |a|
    ensures r < |a| ==> a[r] != []
    ensures forall o :: k <= o < r ==> a[o] == []
    decreases |a| - k
  {
    if k == |a| || a[k] != [] then k else FirstOrder(a, k + 1)
  }

  function Rmqueue(a: Lists, order: nat): (r: (Lists, Option<nat>))
    requires order < |a|
    ensures |r.0| == |a|
  {
    var c := FirstOrder(a, order);
    if c == |a| then (a, None)
    else (Expand(a[c := a[c][1..]], a[c][0], order, c), Some(a[c][0]))
  }

  // ---------------------------------------------------------------- canonical form

  ghost predicate Inside(i: nat, k: nat, F: set<nat>) {
    forall p: nat :: InBlock(p, i, k) ==> p in F
  }

  /** No aligned block of order `k` is wholly free. */
  ghost predicate NoBlock(k: nat, F: set<nat>) {
    forall i: nat :: Aligned(i, k) ==> !Inside(i, k, F)
  }

  /** An aligned free block whose parent, if there is an order for it, is not wholly free. */
  ghost predicate Maximal(i: nat, k: nat, orders: nat, F: set<nat>) {
    Aligned(i, k) && Inside(i, k, F) && (k + 1 < orders ==> !Inside(Parent(i, k), k + 1, F))
  }

  ghost predicate Canon(a: Lists, F: set<nat>) {
    && (forall k :: 0 <= k < |a| ==> NoDup(a[k]))
    && (forall i: nat, k: nat {:trigger i in a[k]} {:trigger Maximal(i, k, |a|, F)} ::
          k < |a| ==> (i in a[k] <==> Maximal(i, k, |a|, F)))
  }

  /** Two different maximal blocks share no page. */
  lemma MaximalDisjoint(i: nat, k: nat, j: nat, q: nat, orders: nat, F: set<nat>, p: nat)
    requires k < orders && q < orders
    requires Maximal(i, k, orders, F) && Maximal(j, q, orders, F)
    requires InBlock(p, i, k) && InBlock(p, j, q)
    ensures i == j && k == q
  {
    if k < q {
      NestedParent(i, k, j, q, p);
    } else if q < k {
      NestedParent(j, q, i, k, p);
    } else {
      SameOrderEqual(i, j, k, p);
    }
  }

  /** Every aligned free block lies in a maximal one of at least its order. */
  lemma {:induction false} MaximalAbove(i: nat, k: nat, orders: nat, F: set<nat>) returns (j: nat, q: nat)
    requires k < orders && Aligned(i, k) && Inside(i, k, F)
    ensures k <= q < orders && Maximal(j, q, orders, F)
    ensures j <= i && i + Pow2(k) <= j + Pow2(q)
    decreases orders - k
  {
    if k + 1 < orders && Inside(Parent(i, k), k + 1, F) {
      ParentSplits(i, k);
      j, q := MaximalAbove(Parent(i, k), k + 1, orders, F);
      assert InBlock(i, i, k);
      assert InBlock(i + Pow2(k) - 1, i, k);
    } else {
      j, q := i, k;
    }
  }

  /** Taking a listed block off its list and its pages off the free set keeps the form. */
  lemma RemoveKeepsCanon(a: Lists, F: set<nat>, i: nat, k: nat)
    requires Canon(a, F) && k < |a| && i in a[k]
    ensures Canon(a[k := Without(a[k], i)], F - Block(i, k))
    ensures Block(i, k) <= F && Aligned(i, k)
  {
    var a', F' := a[k := Without(a[k], i)], F - Block(i, k);
    WithoutIsDelete(a[k], i);
    forall j: nat, q: nat | q < |a'|
      ensures j in a'[q] <==> Maximal(j, q, |a'|, F')
    {
      if j in a'[q] {
        assert Maximal(j, q, |a|, F);
        forall p: nat | InBlock(p, j, q) ensures p in F' {
          if InBlock(p, i, k) { MaximalDisjoint(i, k, j, q, |a|, F, p); }
        }
      }
      if Maximal(j, q, |a'|, F') {
        if q + 1 < |a| { RemoveOpensNoParent(a, F, i, k, j, q); }
        assert Maximal(j, q, |a|, F);
        assert InBlock(j, j, q);
      }
    }
  }

  /** A block that is maximal once `i` is gone was maximal before: its parent was not free either. */
  lemma RemoveOpensNoParent(a: Lists, F: set<nat>, i: nat, k: nat, j: nat, q: nat)
    requires k < |a| && q + 1 < |a|
    requires Maximal(i, k, |a|, F) && Maximal(j, q, |a|, F - Block(i, k))
    ensures !Inside(Parent(j, q), q + 1, F)
  {
    var P := Parent(j, q);
    var p: nat :| InBlock(p, P, q + 1) && p !in F - Block(i, k);
    ParentSplits(j, q);
    assert InBlock(j, j, q) && InBlock(j, P, q + 1);
    if InBlock(p, i, k) {
      if k <= q {
        NestedParent(i, k, P, q + 1, p);
      } else {
        assert !InBlock(j, i, k);
        Nested(P, q + 1, i, k, p);
      }
    }
  }

  /** Listing a free-standing block whose buddy is not listed keeps the form. */
  lemma AddKeepsCanon(a: Lists, F: set<nat>, i: nat, k: nat)
    requires Canon(a, F) && k < |a| && Aligned(i, k)
    requires Block(i, k) !! F
    requires k + 1 < |a| ==> Buddy(i, k) !in a[k]
    ensures Canon(a[k := [i] + a[k]], F + Block(i, k))
  {
    var a', F' := a[k := [i] + a[k]], F + Block(i, k);
    assert InBlock(i, i, k);
    assert i !in F;
    assert i in a[k] ==> Maximal(i, k, |a|, F);
    ParentStaysOpen(a, F, i, k);
    assert Maximal(i, k, |a'|, F');
    forall j: nat, q: nat | q < |a'|
      ensures j in a'[q] <==> Maximal(j, q, |a'|, F')
    {
      if j in a[q] {
        assert Maximal(j, q, |a|, F);
        if q + 1 < |a| { AddClosesNoParent(|a|, F, i, k, j, q); }
      }
      if Maximal(j, q, |a'|, F') && !(j == i && q == k) {
        forall p: nat | InBlock(p, j, q) ensures p in F {
          if InBlock(p, i, k) { MaximalDisjoint(i, k, j, q, |a'|, F', p); }
        }
        assert Maximal(j, q, |a|, F);
      }
    }
  }

  /** The parent of the added block is not wholly free afterwards. */
  lemma ParentStaysOpen(a: Lists, F: set<nat>, i: nat, k: nat)
    requires Canon(a, F) && k + 1 <= |a| && Aligned(i, k)
    requires Block(i, k) !! F
    requires k + 1 < |a| ==> Buddy(i, k) !in a[k]
    ensures k + 1 < |a| ==> !Inside(Parent(i, k), k + 1, F + Block(i, k))
  {
    if k + 1 < |a| {
      ParentSplits(i, k);
      assert InBlock(i, i, k) && InBlock(i, Parent(i, k), k + 1);
      if Inside(Parent(i, k), k + 1, F + Block(i, k)) {
        assert Inside(Buddy(i, k), k, F);
      }
      assert Buddy(i, k) in a[k] <==> Maximal(Buddy(i, k), k, |a|, F);
    }
  }

  /** No other block gets a wholly free parent. */
  lemma AddClosesNoParent(orders: nat, F: set<nat>, i: nat, k: nat, j: nat, q: nat)
    requires k < orders && Aligned(i, k) && Block(i, k) !! F
    requires k + 1 < orders ==> !Inside(Parent(i, k), k + 1, F + Block(i, k))
    requires q + 1 < orders && Maximal(j, q, orders, F)
    ensures !Inside(Parent(j, q), q + 1, F + Block(i, k))
  {
    var P := Parent(j, q);
    var p := MaximalGap(orders, F, j, q);
    if q < k {
      NotWithin(F, i, k, P, q + 1, j, p);
    } else if InBlock(p, i, k) {
      NestedParent(i, k, P, q + 1, p);
    }
  }

  /** The parent of a maximal block is aligned, contains the block and has a page that is not free. */
  lemma MaximalGap(orders: nat, F: set<nat>, j: nat, q: nat) returns (p: nat)
    requires q + 1 < orders && Maximal(j, q, orders, F)
    ensures InBlock(p, Parent(j, q), q + 1) && p !in F && Aligned(Parent(j, q), q + 1) && j in F && InBlock(j, Parent(j, q), q + 1)
  {
    p :| InBlock(p, Parent(j, q), q + 1) && p !in F;
    ParentSplits(j, q);
    assert InBlock(j, j, q);
  }

  /** A block that meets `F` is not within a block off `F`, so no page of it is in that block. */
  lemma NotWithin(F: set<nat>, i: nat, k: nat, P: nat, o: nat, j: nat, p: nat)
    requires Aligned(i, k) && Block(i, k) !! F && Aligned(P, o) && o <= k && j in F && InBlock(j, P, o) && InBlock(p, P, o)
    ensures !InBlock(p, i, k)
  {
    assert !InBlock(j, i, k);
    if InBlock(p, i, k) { Nested(P, o, i, k, p); }
  }

  // ---------------------------------------------------------------- the operations keep the form

  lemma {:induction false} FreeKeepsCanon(a: Lists, F: set<nat>, i: nat, k: nat)
    requires Canon(a, F) && k < |a| && Aligned(i, k) && Block(i, k) !! F
    ensures Canon(FreeBlock(a, i, k), F + Block(i, k))
    decreases |a| - k
  {
    if k + 1 < |a| && Buddy(i, k) in a[k] {
      var b: Lists, F1 := a[k := Without(a[k], Buddy(i, k))], F - Block(Buddy(i, k), k);
      FreeStep(a, F, i, k, b, F1);
      FreeKeepsCanon(b, F1, Parent(i, k), k + 1);
    } else {
      AddKeepsCanon(a, F, i, k);
    }
  }

  /** One round of the merging loop. */
  lemma FreeStep(a: Lists, F: set<nat>, i: nat, k: nat, b: Lists, F1: set<nat>)
    requires Canon(a, F) && k < |a| && Aligned(i, k) && Block(i, k) !! F && Buddy(i, k) in a[k]
    requires b == a[k := Without(a[k], Buddy(i, k))] && F1 == F - Block(Buddy(i, k), k)
    ensures Canon(b, F1) && Aligned(Parent(i, k), k + 1) && Block(Parent(i, k), k + 1) !! F1
    ensures F1 + Block(Parent(i, k), k + 1) == F + Block(i, k)
  {
    ParentSplits(i, k);
    RemoveKeepsCanon(a, F, Buddy(i, k), k);
    assert Block(Parent(i, k), k + 1) == Block(i, k) + Block(Buddy(i, k), k);
  }

  /** Splitting off the upper halves leaves exactly the lowest block of order `low` taken. */
  lemma {:induction false} ExpandKeepsCanon(a: Lists, F: set<nat>, p: nat, low: nat, high: nat)
    requires Canon(a, F) && low <= high < |a| && Aligned(p, high) && Block(p, high) !! F
    ensures Canon(Expand(a, p, low, high), F + (Block(p, high) - Block(p, low)))
    decreases high
  {
    if low < high {
      var h := high - 1;
      var u := p + Pow2(h);
      var b: Lists, F1 := a[h := [u] + a[h]], F + Block(u, h);
      SplitHalves(p, h);
      ExpandStep(a, F, p, h, b, F1);
      ExpandKeepsCanon(b, F1, p, low, h);
      Pow2Mono(low, h);
      GrowSet(F, Block(p, high), Block(p, h), Block(u, h), Block(p, low));
    } else {
      assert F + (Block(p, high) - Block(p, low)) == F;
    }
  }

  /** One round of the splitting loop. */
  lemma ExpandStep(a: Lists, F: set<nat>, p: nat, h: nat, b: Lists, F1: set<nat>)
    requires Canon(a, F) && h < |a| && Aligned(p, h + 1) && Block(p, h + 1) !! F
    requires b == a[h := [p + Pow2(h)] + a[h]] && F1 == F + Block(p + Pow2(h), h)
    ensures Canon(b, F1)
  {
    SplitHalves(p, h);
    assert InBlock(p, p, h);
    assert p in Block(p, h + 1);
    assert p !in F && (p in a[h] ==> Maximal(p, h, |a|, F));
    AddKeepsCanon(a, F, p + Pow2(h), h);
  }

  lemma GrowSet(F: set<nat>, whole: set<nat>, lower: set<nat>, upper: set<nat>, kept: set<nat>)
    requires whole == lower + upper && lower !! upper && kept <= lower
    ensures F + upper + (lower - kept) == F + (whole - kept)
  {
  }

  /** Block `p` of order `h + 1` is the disjoint union of its halves, which are buddies. */
  lemma SplitHalves(p: nat, h: nat)
    requires Aligned(p, h + 1)
    ensures var u := p + Pow2(h);
            Aligned(p, h) && Aligned(u, h) && Buddy(p, h) == u && Buddy(u, h) == p &&
            Block(p, h) !! Block(u, h) && Block(p, h + 1) == Block(p, h) + Block(u, h)
  {
    AlignedDown(p, h);
    HalfFacts(p, h);
    ParentSplits(p, h);
  }

  /**
   Allocation: it fails exactly when no aligned block of the wanted order is wholly free;
   otherwise it hands out one such block and keeps the form for the rest.
   */
  lemma RmqueueKeepsCanon(a: Lists, F: set<nat>, order: nat)
    requires Canon(a, F) && order < |a|
    ensures var (a', r) := Rmqueue(a, order);
            match r
            case None => a' == a && NoBlock(order, F)
            case Some(p) => Aligned(p, order) && Block(p, order) <= F && Canon(a', F - Block(p, order))
  {
    var c := FirstOrder(a, order);
    if c == |a| {
      forall i: nat | Aligned(i, order) ensures !Inside(i, order, F) {
        if Inside(i, order, F) {
          var j, q := MaximalAbove(i, order, |a|, F);
        }
      }
    } else {
      var p := a[c][0];
      assert p in a[c];
      assert Without(a[c], p) == a[c][1..];
      RemoveKeepsCanon(a, F, p, c);
      var F0 := F - Block(p, c);
      ExpandKeepsCanon(a[c := a[c][1..]], F0, p, order, c);
      AlignedBelow(p, order, c);
      Pow2Mono(order, c);
      assert F0 + (Block(p, c) - Block(p, order)) == F - Block(p, order);
    }
  }

  // ---------------------------------------------------------------- which lists change, and where

  /**
   Best fit: the block comes from the head of the lowest list that has one; each order below it, down to
   the wanted one, was empty and gets the one upper half; no other list changes.
   */
  lemma RmqueueBestFit(a: Lists, order: nat) returns (c: nat)
    requires order < |a| && Rmqueue(a, order).1.Some?
    ensures var (a', r) := Rmqueue(a, order);
            && order <= c < |a| && a[c] != [] && r == Some(a[c][0]) && a'[c] == a[c][1..]
            && (forall q :: order <= q < c ==> a[q] == [] && a'[q] == [a[c][0] + Pow2(q)])
            && (forall q :: (0 <= q < order || c < q < |a|) ==> a'[q] == a[q])
  {
    c := FirstOrder(a, order);
    ExpandShape(a[c := a[c][1..]], a[c][0], order, c);
  }

  lemma {:induction false} ExpandShape(a: Lists, p: nat, low: nat, high: nat)
    requires low <= high <= |a|
    ensures var r := Expand(a, p, low, high);
            && (forall q :: low <= q < high ==> r[q] == [p + Pow2(q)] + a[q])
            && (forall q :: (0 <= q < low || high <= q < |a|) ==> r[q] == a[q])
    decreases high
  {
    if low < high { ExpandShape(a[high - 1 := [p + Pow2(high - 1)] + a[high - 1]], p, low, high - 1); }
  }

  /**
   A free merges exactly while the buddy is listed: it ends at the first order whose list does not have
   the buddy, with the merged block at the head there; the lists on the way lose the buddy and nothing
   else, and no other list changes.
   */
  lemma {:induction false} FreeBlockShape(a: Lists, i: nat, k: nat) returns (top: nat, starts: seq<nat>)
    requires k < |a| && Aligned(i, k)
    ensures k <= top < |a| && |starts| == top - k + 1 && starts[0] == i
    ensures forall q :: 0 <= q < |starts| ==> Aligned(starts[q], k + q)
    ensures forall q :: 0 <= q < |starts| - 1 ==> starts[q + 1] == Parent(starts[q], k + q)
    ensures forall q :: 0 <= q < |starts| - 1 ==> Buddy(starts[q], k + q) in a[k + q]
    ensures top + 1 < |a| ==> Buddy(starts[top - k], top) !in a[top]
    ensures var r := FreeBlock(a, i, k);
            && r[top] == [starts[top - k]] + a[top]
            && (forall q :: 0 <= q < |starts| - 1 ==> r[k + q] == Without(a[k + q], Buddy(starts[q], k + q)))
            && (forall q :: (0 <= q < k || top < q < |a|) ==> r[q] == a[q])
    decreases |a| - k
  {
    hide Without, Aligned, Buddy, Parent, Pow2, Block, InBlock;
    if k + 1 < |a| && Buddy(i, k) in a[k] {
      ParentSplits(i, k);
      var b := a[k := Without(a[k], Buddy(i, k))];
      var rest: seq<nat>;
      top, rest := FreeBlockShape(b, Parent(i, k), k + 1);
      starts := [i] + rest;
      ShapeUp(a, b, i, k, top, rest, FreeBlock(b, Parent(i, k), k + 1));
    } else {
      top, starts := k, [i];
    }
  }

  lemma ShapeUp(a: Lists, b: Lists, i: nat, k: nat, top: nat, rest: seq<nat>, r: Lists)
    requires k + 1 < |a| == |b| == |r| && Aligned(i, k) && b == a[k := Without(a[k], Buddy(i, k))] && Buddy(i, k) in a[k]
    requires k + 1 <= top < |a| && |rest| == top - k && rest[0] == Parent(i, k)
    requires forall q :: 0 <= q < |rest| ==> Aligned(rest[q], k + 1 + q)
    requires forall q :: 0 <= q < |rest| - 1 ==> rest[q + 1] == Parent(rest[q], k + 1 + q)
    requires forall q :: 0 <= q < |rest| - 1 ==> Buddy(rest[q], k + 1 + q) in b[k + 1 + q]
    requires r[top] == [rest[top - k - 1]] + b[top]
    requires forall q :: 0 <= q < |rest| - 1 ==> r[k + 1 + q] == Without(b[k + 1 + q], Buddy(rest[q], k + 1 + q))
    requires forall q :: (0 <= q < k + 1 || top < q < |a|) ==> r[q] == b[q]
    ensures var starts := [i] + rest;
            && (forall q :: 0 <= q < |starts| ==> Aligned(starts[q], k + q))
            && (forall q :: 0 <= q < |starts| - 1 ==> starts[q + 1] == Parent(starts[q], k + q))
            && (forall q :: 0 <= q < |starts| - 1 ==> Buddy(starts[q], k + q) in a[k + q])
            && r[top] == [starts[top - k]] + a[top]
            && (forall q :: 0 <= q < |starts| - 1 ==> r[k + q] == Without(a[k + q], Buddy(starts[q], k + q)))
            && (forall q :: (0 <= q < k || top < q < |a|) ==> r[q] == a[q])
  {
    var starts := [i] + rest;
    forall q | 0 <= q < |starts| ensures Aligned(starts[q], k + q) {
      if q > 0 { assert starts[q] == rest[q - 1]; }
    }
    forall q | 0 <= q < |starts| - 1
      ensures starts[q + 1] == Parent(starts[q], k + q) && Buddy(starts[q], k + q) in a[k + q]
      ensures r[k + q] == Without(a[k + q], Buddy(starts[q], k + q))
    {
      if q > 0 { assert starts[q] == rest[q - 1] && starts[q + 1] == rest[q] && b[k + q] == a[k + q]; }
    }
  }

  // ---------------------------------------------------------------- round trip

  /** Freeing the lowest piece undoes a split, whatever was on the lists. */
  lemma {:induction false} FreeUndoesExpand(a: Lists, p: nat, low: nat, high: nat)
    requires low <= high < |a| && Aligned(p, high)
    ensures Aligned(p, low)
    ensures FreeBlock(Expand(a, p, low, high), p, low) == FreeBlock(a, p, high)
    decreases high
  {
    AlignedBelow(p, low, high);
    if low < high {
      var h := high - 1;
      AlignedDown(p, h);
      HalfFacts(p, h);
      var u := p + Pow2(h);
      var b := a[h := [u] + a[h]];
      FreeUndoesExpand(b, p, low, h);
      assert Buddy(p, h) == u && Parent(p, h) == p;
      assert Without(b[h], u) == a[h] by { assert ([u] + a[h])[1..] == a[h]; }
      assert b[h := a[h]] == a;
    }
  }

  /** Allocating a block and freeing it at once restores every list, element for element. */
  lemma AllocFreeRoundTrip(a: Lists, F: set<nat>, order: nat)
    requires Canon(a, F) && order < |a|
    ensures var (a', r) := Rmqueue(a, order);
            r.Some? ==> Aligned(r.value, order) && FreeBlock(a', r.value, order) == a
  {
    var c := FirstOrder(a, order);
    if c < |a| {
      var p := a[c][0];
      assert p in a[c];
      assert Maximal(p, c, |a|, F);
      var b := a[c := a[c][1..]];
      FreeUndoesExpand(b, p, order, c);
      ParentSplits(p, c);
      assert Buddy(p, c) in a[c] ==> Maximal(Buddy(p, c), c, |a|, F);
      assert [p] + a[c][1..] == a[c];
      assert b[c := a[c]] == a;
    }
  }

  // ---------------------------------------------------------------- runs

  datatype Op = Alloc(order: nat) | Free(start: nat, order: nat)

  /** Lists and free pages; `F` is the set the lists stand for. */
  datatype State = State(a: Lists, F: set<nat>)

  /** Any order below MAX_ORDER may be asked for; only a block in use may be freed. */
  ghost predicate Legal(s: State, op: Op) {
    op.order < |s.a| && (op.Free? ==> Aligned(op.start, op.order) && Block(op.start, op.order) !! s.F)
  }

  ghost function Apply(s: State, op: Op): (t: State)
    requires Legal(s, op)
  {
    match op
    case Alloc(order) =>
      var (a', r) := Rmqueue(s.a, order);
      State(a', if r.Some? then s.F - Block(r.value, order) else s.F)
    case Free(start, order) => State(FreeBlock(s.a, start, order), s.F + Block(start, order))
  }

  ghost predicate LegalRun(s: State, ops: seq<Op>)
    decreases |ops|
  {
    ops == [] || (Legal(s, ops[0]) && LegalRun(Apply(s, ops[0]), ops[1..]))
  }

  ghost function Run(s: State, ops: seq<Op>): (t: State)
    requires LegalRun(s, ops)
    decreases |ops|
  {
    if ops == [] then s else Run(Apply(s, ops[0]), ops[1..])
  }

  /** The lists at boot: all empty, no page free. */
  function Boot(orders: nat): (s: State) { State(seq(orders, _ => []), {}) }

  /** Every run keeps the lists equal to the maximal aligned blocks of the free pages. */
  lemma {:induction false} RunKeepsCanon(s: State, ops: seq<Op>)
    requires Canon(s.a, s.F) && LegalRun(s, ops)
    ensures Canon(Run(s, ops).a, Run(s, ops).F) && |Run(s, ops).a| == |s.a|
    decreases |ops|
  {
    if ops != [] {
      match ops[0] {
        case Alloc(order) => RmqueueKeepsCanon(s.a, s.F, order);
        case Free(start, order) => FreeKeepsCanon(s.a, s.F, start, order);
      }
      RunKeepsCanon(Apply(s, ops[0]), ops[1..]);
    }
  }

  lemma BootIsCanon(orders: nat)
    ensures Canon(Boot(orders).a, {})
  {
    forall i: nat, k: nat | k < orders ensures !Maximal(i, k, orders, {}) {
      assert InBlock(i, i, k);
    }
  }

  /** Two histories that leave the same pages free leave the same blocks on every list. */
  lemma HistoryIrrelevant(orders: nat, ops1: seq<Op>, ops2: seq<Op>)
    requires LegalRun(Boot(orders), ops1) && LegalRun(Boot(orders), ops2)
    requires Run(Boot(orders), ops1).F == Run(Boot(orders), ops2).F
    ensures var a1, a2 := Run(Boot(orders), ops1).a, Run(Boot(orders), ops2).a;
            |a1| == |a2| == orders &&
            forall k :: 0 <= k < orders ==> |a1[k]| == |a2[k]| && forall i :: i in a1[k] <==> i in a2[k]
  {
    BootIsCanon(orders);
    RunKeepsCanon(Boot(orders), ops1);
    RunKeepsCanon(Boot(orders), ops2);
    var a1, a2, F := Run(Boot(orders), ops1).a, Run(Boot(orders), ops2).a, Run(Boot(orders), ops1).F;
    forall k: nat | k < orders ensures |a1[k]| == |a2[k]| && forall i :: i in a1[k] <==> i in a2[k] {
      forall i ensures i in a1[k] <==> i in a2[k] {
        assert i in a1[k] <==> Maximal(i, k, orders, F);
      }
      SameElemsSameLength(a1[k], a2[k]);
    }
  }

  // ---------------------------------------------------------------- counting pages

  /** Sum of `nr_free << order` over the orders from `k` up. */
  function PagesFrom(a: Lists, k: nat): (n: nat)
    requires k <= |a|
    decreases |a| - k
  {
    if k == |a| then 0 else |a[k]| * Pow2(k) + PagesFrom(a, k + 1)
  }

  lemma {:induction false} PagesFromUpdate(a: Lists, k: nat, o: nat, l: seq<nat>)
    requires k <= |a| && o < |a|
    ensures PagesFrom(a[o := l], k) == PagesFrom(a, k) + if k <= o then (|l| - |a[o]|) * Pow2(o) else 0
    decreases |a| - k
  {
    if k < |a| {
      PagesFromUpdate(a, k + 1, o, l);
      if k == o {
        assert |l| * Pow2(o) == |a[o]| * Pow2(o) + (|l| - |a[o]|) * Pow2(o);
      }
    }
  }

  /** The canonical lists account for every free page exactly once. */
  lemma {:induction false} FreePagesAreListed(a: Lists, F: set<nat>)
    requires Canon(a, F) && |a| > 0
    ensures PagesFrom(a, 0) == |F|
    decreases |F|
  {
    if F == {} {
      NothingFree(a);
      AllEmpty(a, 0);
    } else {
      hide Canon, PagesFrom, Block, Without;
      var i, k := SomeBlock(a, F);
      RemoveKeepsCanon(a, F, i, k);
      ListedBlock(a, F, i, k);
      FreePagesAreListed(a[k := Without(a[k], i)], F - Block(i, k));
    }
  }

  /** Taking a listed block away takes its pages away, in the lists and in the set. */
  lemma ListedBlock(a: Lists, F: set<nat>, i: nat, k: nat)
    requires Canon(a, F) && k < |a| && i in a[k]
    ensures |F - Block(i, k)| == |F| - Pow2(k) < |F|
    ensures PagesFrom(a[k := Without(a[k], i)], 0) == PagesFrom(a, 0) - Pow2(k)
  {
    assert Maximal(i, k, |a|, F);
    WithoutIsDelete(a[k], i);
    hide Canon, PagesFrom, Without;
    PagesFromUpdate(a, 0, k, Without(a[k], i));
    var n: int := Pow2(k);
    assert (|Without(a[k], i)| - |a[k]|) * n == -n;
    RangeCard(i, Pow2(k));
    assert Block(i, k) <= F;
  }

  lemma NothingFree(a: Lists)
    requires Canon(a, {})
    ensures forall k :: 0 <= k < |a| ==> a[k] == []
  {
    forall k: nat | k < |a| ensures a[k] == [] {
      if a[k] != [] {
        assert Maximal(a[k][0], k, |a|, {}) && InBlock(a[k][0], a[k][0], k);
      }
    }
  }

  lemma SomeBlock(a: Lists, F: set<nat>) returns (i: nat, k: nat)
    requires Canon(a, F) && |a| > 0 && F != {}
    ensures k < |a| && i in a[k]
  {
    var x :| x in F;
    assert Aligned(x, 0) && Inside(x, 0, F);
    i, k := MaximalAbove(x, 0, |a|, F);
  }

  lemma {:induction false} AllEmpty(a: Lists, k: nat)
    requires k <= |a| && forall o :: 0 <= o < |a| ==> a[o] == []
    ensures PagesFrom(a, k) == 0
    decreases |a| - k
  {
    if k < |a| { AllEmpty(a, k + 1); }
  }
}
