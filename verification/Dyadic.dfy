/** Power-of-two blocks of page indices, and the bit operations that navigate them. */
module Dyadic {

  function Pow2(k: nat): (r: nat)
    ensures r >= 1
  {
    if k == 0 then 1 else 2 * Pow2(k - 1)
  }

  lemma {:induction false} Pow2Mono(k: nat, q: nat)
    requires k <= q
    ensures Pow2(k) <= Pow2(q)
  {
    if k < q { Pow2Mono(k, q - 1); }
  }

  /** The lowest `k` bits of `i` are zero. */
  predicate Aligned(i: nat, k: nat) {
    k == 0 || (i % 2 == 0 && Aligned(i / 2, k - 1))
  }

  /** Page `p` lies in the block of order `k` that starts at `i`. */
  predicate InBlock(p: int, i: nat, k: nat) { i <= p < i + Pow2(k) }

  /** The pages `i .. i + n`. */
  ghost function Range(i: nat, n: nat): (s: set<nat>)
    ensures forall p: nat :: p in s <==> i <= p < i + n
  {
    if n == 0 then {} else Range(i, n - 1) + {i + n - 1}
  }

  ghost function Block(i: nat, k: nat): (b: set<nat>)
    ensures forall p: nat :: p in b <==> InBlock(p, i, k)
  {
    Range(i, Pow2(k))
  }

  lemma {:induction false} RangeCard(i: nat, n: nat)
    ensures |Range(i, n)| == n
  {
    if n > 0 { RangeCard(i, n - 1); }
  }

  /** Start of the other half of the enclosing block of order `k + 1`. */
  function Buddy(i: nat, k: nat): (b: nat)
    requires Aligned(i, k)
  {
    HalfFacts(i, k);
    if Aligned(i, k + 1) then i + Pow2(k) else i - Pow2(k)
  }

  /** Start of the enclosing block of order `k + 1`. */
  function Parent(i: nat, k: nat): (b: nat)
    requires Aligned(i, k)
  {
    HalfFacts(i, k);
    if Aligned(i, k + 1) then i else i - Pow2(k)
  }

  lemma {:induction false} AlignedDown(i: nat, k: nat)
    requires Aligned(i, k + 1)
    ensures Aligned(i, k)
  {
    if k > 0 { AlignedDown(i / 2, k - 1); }
  }

  lemma {:induction false} AlignedBelow(i: nat, k: nat, q: nat)
    requires Aligned(i, q) && k <= q
    ensures Aligned(i, k)
    decreases q
  {
    if k < q {
      AlignedDown(i, q - 1);
      AlignedBelow(i, k, q - 1);
    }
  }

  /** A block is exactly one of the two halves of its parent. */
  lemma {:induction false} HalfFacts(i: nat, k: nat)
    requires Aligned(i, k)
    ensures Aligned(i, k + 1) ==> Aligned(i + Pow2(k), k) && !Aligned(i + Pow2(k), k + 1)
    ensures !Aligned(i, k + 1) ==> i >= Pow2(k) && Aligned(i - Pow2(k), k + 1)
  {
    if k > 0 {
      HalfFacts(i / 2, k - 1);
      assert (i + Pow2(k)) / 2 == i / 2 + Pow2(k - 1);
      assert i >= Pow2(k) ==> (i - Pow2(k)) / 2 == i / 2 - Pow2(k - 1);
    } else {
      assert Aligned(i, 1) <==> i % 2 == 0;
      assert i > 0 ==> (Aligned(i - 1, 1) <==> (i - 1) % 2 == 0);
    }
  }

  /** The parent is aligned, and is the disjoint union of the block and its buddy. */
  lemma ParentSplits(i: nat, k: nat)
    requires Aligned(i, k)
    ensures Aligned(Buddy(i, k), k) && Aligned(Parent(i, k), k + 1)
    ensures Parent(Buddy(i, k), k) == Parent(i, k) && Buddy(Buddy(i, k), k) == i
    ensures forall p: int :: InBlock(p, Parent(i, k), k + 1) <==> InBlock(p, i, k) || InBlock(p, Buddy(i, k), k)
    ensures forall p: int :: !(InBlock(p, i, k) && InBlock(p, Buddy(i, k), k))
  {
    HalfFacts(i, k);
    if !Aligned(i, k + 1) {
      AlignedDown(i - Pow2(k), k);
    }
  }

  lemma {:induction false} SameOrderEqual(i: nat, j: nat, k: nat, p: nat)
    requires Aligned(i, k) && Aligned(j, k) && InBlock(p, i, k) && InBlock(p, j, k)
    ensures i == j
  {
    if k > 0 {
      SameOrderEqual(i / 2, j / 2, k - 1, p / 2);
    }
  }

  /** Aligned blocks that share a page are nested. */
  lemma {:induction false} Nested(i: nat, k: nat, j: nat, q: nat, p: nat)
    requires Aligned(i, k) && Aligned(j, q) && k <= q
    requires InBlock(p, i, k) && InBlock(p, j, q)
    ensures j <= i && i + Pow2(k) <= j + Pow2(q)
    decreases q - k
  {
    if k == q {
      SameOrderEqual(i, j, k, p);
    } else {
      NestedParent(i, k, j, q, p);
    }
  }

  /** ... and so is the parent of the smaller one. */
  lemma {:induction false} NestedParent(i: nat, k: nat, j: nat, q: nat, p: nat)
    requires Aligned(i, k) && Aligned(j, q) && k < q
    requires InBlock(p, i, k) && InBlock(p, j, q)
    ensures j <= Parent(i, k) && Parent(i, k) + Pow2(k + 1) <= j + Pow2(q)
    decreases q - k, 0
  {
    ParentSplits(i, k);
    assert InBlock(p, Parent(i, k), k + 1);
    Nested(Parent(i, k), k + 1, j, q, p);
  }

  // ---------------------------------------------------------------- bit forms

  /** `x ^ y`, bit by bit. */
  function BitXor(x: nat, y: nat): (r: nat)
    decreases x + y
  {
    if x == 0 && y == 0 then 0 else (x % 2 + y % 2) % 2 + 2 * BitXor(x / 2, y / 2)
  }

  /** `x & y`, bit by bit. */
  function BitAnd(x: nat, y: nat): (r: nat) {
    if x == 0 || y == 0 then 0 else (if x % 2 == 1 && y % 2 == 1 then 1 else 0) + 2 * BitAnd(x / 2, y / 2)
  }

  lemma {:induction false} XorZero(x: nat)
    ensures BitXor(x, 0) == x
  {
    if x > 0 { XorZero(x / 2); }
  }

  lemma {:induction false} AndSelf(x: nat)
    ensures BitAnd(x, x) == x
  {
    if x > 0 { AndSelf(x / 2); }
  }

  /** `page_idx ^ (1 << order)` is the buddy and `page_idx & buddy_idx` the parent. */
  lemma {:induction false} BuddyBits(i: nat, k: nat)
    requires Aligned(i, k)
    ensures BitXor(i, Pow2(k)) == Buddy(i, k)
    ensures BitAnd(i, Buddy(i, k)) == Parent(i, k)
    decreases k
  {
    if k == 0 {
      BuddyBit(i);
    } else {
      var h := i / 2;
      BuddyBits(h, k - 1);
      HalfBuddy(i, k);
      hide BitXor, BitAnd, Aligned, Buddy, Parent;
      XorEven(h, Pow2(k - 1));
      AndEven(h, Buddy(h, k - 1));
    }
  }

  lemma BuddyBit(i: nat)
    ensures BitXor(i, Pow2(0)) == Buddy(i, 0) && BitAnd(i, Buddy(i, 0)) == Parent(i, 0)
  {
    var h := i / 2;
    XorZero(h);
    AndSelf(h);
    assert Aligned(i, 1) <==> i % 2 == 0;
    assert Buddy(i, 0) / 2 == h;
  }

  /** Buddies and parents above order 0 are twice those of the half indices. */
  lemma HalfBuddy(i: nat, k: nat)
    requires k > 0 && Aligned(i, k)
    ensures i == 2 * (i / 2) && Aligned(i / 2, k - 1) && Pow2(k) == 2 * Pow2(k - 1)
    ensures Buddy(i, k) == 2 * Buddy(i / 2, k - 1) && Parent(i, k) == 2 * Parent(i / 2, k - 1)
  {
    HalfFacts(i, k);
    HalfFacts(i / 2, k - 1);
  }

  lemma XorEven(x: nat, y: nat)
    ensures BitXor(2 * x, 2 * y) == 2 * BitXor(x, y)
  {
    assert (2 * x) % 2 == 0 && (2 * y) % 2 == 0 && (2 * x) / 2 == x && (2 * y) / 2 == y;
  }

  lemma AndEven(x: nat, y: nat)
    ensures BitAnd(2 * x, 2 * y) == 2 * BitAnd(x, y)
  {
    assert (2 * x) % 2 == 0 && (2 * x) / 2 == x && (2 * y) / 2 == y;
  }

  /** `page_idx & (order_size - 1)` is zero exactly on aligned indices. */
  lemma {:induction false} AlignBits(i: nat, k: nat)
    ensures BitAnd(i, Pow2(k) - 1) == 0 <==> Aligned(i, k)
    decreases k
  {
    if k > 0 {
      var y := Pow2(k - 1) - 1;
      AlignBits(i / 2, k - 1);
      assert Pow2(k) - 1 == 2 * y + 1;
      assert (2 * y + 1) % 2 == 1 && (2 * y + 1) / 2 == y;
      if i == 0 { AlignedZero(k); }
    }
  }

  lemma {:induction false} AlignedZero(k: nat)
    ensures Aligned(0, k)
  {
    if k > 0 { AlignedZero(k - 1); }
  }
}
