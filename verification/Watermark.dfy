/**
 `zone_watermark_ok` in 32-bit machine arithmetic: `long` and `unsigned long` operands mixed as
 in C, against the same test over unbounded integers and against what `__rmqueue` can do.
 */
module Watermark {
  import opened Dyadic
  import opened BuddyLists
  import opened BuddyZone

  const WORD: int := 0x1_0000_0000
  const HALF: int := 0x8000_0000

  function ULong(x: int): (r: int) { x % WORD }
  function Long(x: int): (r: int) { if x % WORD < HALF then x % WORD else x % WORD - WORD }

  /** The mark after the two allowances. */
  function Minimum(mark: nat, gfpHigh: bool, canTryHarder: bool): (min: nat) {
    var m := if gfpHigh then mark - mark / 2 else mark;
    if canTryHarder then m - m / 4 else m
  }

  /** `m` is the least number that is at least `num / den` of `whole`. */
  ghost predicate LeastPart(m: int, num: int, den: int, whole: int) {
    den * (m - 1) < num * whole <= den * m
  }

  /**
   What an allocation must leave free: the mark; half of it, rounded up, for one that cannot wait;
   three quarters, rounded up, of either for one that may dip into the reserves.
   */
  ghost predicate Floor(m: int, mark: int, gfpHigh: bool, canTryHarder: bool) {
    exists half :: (if gfpHigh then LeastPart(half, 1, 2, mark) else half == mark)
                   && (if canTryHarder then LeastPart(m, 3, 4, half) else m == half)
  }

  /** The allowances as the code computes them give that floor and no other number. */
  lemma FloorExact(mark: nat, gfpHigh: bool, canTryHarder: bool, m: int)
    ensures Floor(m, mark, gfpHigh, canTryHarder) <==> m == Minimum(mark, gfpHigh, canTryHarder)
  {
    var half := if gfpHigh then mark - mark / 2 else mark;
    HalfExact(mark, half);
    if Floor(m, mark, gfpHigh, canTryHarder) {
      var h :| (if gfpHigh then LeastPart(h, 1, 2, mark) else h == mark)
               && (if canTryHarder then LeastPart(m, 3, 4, h) else m == h);
      assert h == half;
    } else if m == Minimum(mark, gfpHigh, canTryHarder) {
      assert (if gfpHigh then LeastPart(half, 1, 2, mark) else half == mark)
             && (if canTryHarder then LeastPart(m, 3, 4, half) else m == half);
    }
  }

  lemma HalfExact(mark: nat, half: int)
    ensures LeastPart(half, 1, 2, mark) <==> half == mark - mark / 2
  {
  }

  /** The rounds for orders `o .. order` over unbounded integers. */
  function Rounds(a: Lists, free: int, min: int, o: nat, order: nat): (ok: bool)
    requires o <= order < |a|
    decreases order - o
  {
    if o == order then true
    else
      var free', min' := free - |a[o]| * Pow2(o), min / 2;
      free' > min' && Rounds(a, free', min', o + 1, order)
  }

  /** The whole test over unbounded integers. */
  function Intended(a: Lists, order: nat, mark: nat, reserve: nat, canTryHarder: bool, gfpHigh: bool): (ok: bool)
    requires order < |a|
  {
    var min := Minimum(mark, gfpHigh, canTryHarder);
    var free := PagesFrom(a, 0) - Pow2(order) + 1;
    free > min + reserve && Rounds(a, free, min, 0, order)
  }

  /**
   The lists from `p` up hold more than the floor halved once for every order from `o` on, all but one
   page of the block in hand put aside.
   */
  ghost predicate EnoughFrom(a: Lists, order: nat, floor: int, o: nat, p: nat)
    requires order < |a| && o <= p <= order
  {
    PagesFrom(a, p) - (Pow2(order) - 1) > floor / Pow2(p - o)
  }

  /** Halving `k` times is dividing by two to the power `k`. */
  lemma HalveMore(min: int, k: nat)
    requires min >= 0
    ensures (min / 2) / Pow2(k) == min / Pow2(k + 1)
  {
    var q, y := min / Pow2(k + 1), Pow2(k);
    var h := min / 2;
    var d := h / y;
    assert d * y <= h < d * y + y by { QuotientBounds(h, y); }
    assert d * (2 * y) == 2 * (d * y);
    assert q * (2 * y) <= min < q * (2 * y) + 2 * y by { QuotientBounds(min, 2 * y); }
    QuotientUnique(min, 2 * y, d, q);
  }

  lemma QuotientBounds(x: int, y: int)
    requires y > 0
    ensures (x / y) * y <= x < (x / y) * y + y
  {
  }

  lemma Apart(p: int, q: int, y: int)
    requires y > 0
    ensures p < q ==> p * y + y <= q * y
  {
    if p < q {
      var d := q - p - 1;
      assert d * y >= 0;
      assert q * y == p * y + y + d * y;
    }
  }

  lemma QuotientUnique(x: int, y: int, p: int, q: int)
    requires y > 0 && p * y <= x < p * y + y && q * y <= x < q * y + y
    ensures p == q
  {
    Apart(p, q, y);
    Apart(q, p, y);
  }

  /** Every order above `o` has its share. */
  ghost predicate EnoughAbove(a: Lists, order: nat, floor: int, o: nat)
    requires o <= order < |a|
  {
    forall p: nat :: o < p <= order ==> EnoughFrom(a, order, floor, o, p)
  }

  lemma ShareNext(a: Lists, order: nat, min: int, o: nat, p: nat)
    requires o < p <= order < |a| && min >= 0
    ensures EnoughFrom(a, order, min, o, p) <==> EnoughFrom(a, order, min / 2, o + 1, p)
  {
    HalveMore(min, p - (o + 1));
  }

  /** The order next above `o`, and the ones above that with the floor halved. */
  lemma AboveNext(a: Lists, order: nat, min: int, o: nat)
    requires o < order < |a| && min >= 0
    ensures EnoughAbove(a, order, min, o) <==>
            PagesFrom(a, o + 1) - Pow2(order) + 1 > min / 2 && EnoughAbove(a, order, min / 2, o + 1)
  {
    hide EnoughFrom, Pow2, PagesFrom;
    FirstShare(a, order, min, o);
    if EnoughAbove(a, order, min, o) {
      var half, next := min / 2, o + 1;
      forall p: nat | next < p <= order ensures EnoughFrom(a, order, half, next, p) { ShareNext(a, order, min, o, p); }
    } else {
      var p: nat :| o < p <= order && !EnoughFrom(a, order, min, o, p);
      ShareNext(a, order, min, o, p);
    }
  }

  lemma FirstShare(a: Lists, order: nat, min: int, o: nat)
    requires o < order < |a| && min >= 0
    ensures EnoughFrom(a, order, min, o, o + 1) <==> PagesFrom(a, o + 1) - Pow2(order) + 1 > min / 2
  {
    FirstPowers();
  }

  /** The rounds ask every order above `o` for its share of the floor, halved once an order. */
  lemma {:induction false} RoundsExact(a: Lists, free: int, min: int, o: nat, order: nat)
    requires o <= order < |a| && min >= 0 && free == PagesFrom(a, o) - Pow2(order) + 1
    ensures Rounds(a, free, min, o, order) <==> EnoughAbove(a, order, min, o)
    decreases order - o
  {
    if o < order {
      assert free - |a[o]| * Pow2(o) == PagesFrom(a, o + 1) - Pow2(order) + 1;
      RoundStep(a, free, min, o, order);
      AboveNext(a, order, min, o);
      hide Pow2, PagesFrom, EnoughAbove, Rounds;
      RoundsExact(a, free - |a[o]| * Pow2(o), min / 2, o + 1, order);
    }
  }

  lemma FirstPowers()
    ensures Pow2(0) == 1 && Pow2(1) == 2
  {
  }

  /** The whole test, order by order: the reserve counts at order zero only. */
  lemma IntendedExact(a: Lists, order: nat, mark: nat, reserve: nat, canTryHarder: bool, gfpHigh: bool, floor: int)
    requires order < |a| && Floor(floor, mark, gfpHigh, canTryHarder)
    ensures Intended(a, order, mark, reserve, canTryHarder, gfpHigh) <==>
            PagesFrom(a, 0) - (Pow2(order) - 1) > floor + reserve && EnoughAbove(a, order, floor, 0)
  {
    FloorExact(mark, gfpHigh, canTryHarder, floor);
    RoundsExact(a, PagesFrom(a, 0) - Pow2(order) + 1, floor, 0, order);
    hide PagesFrom, Pow2, Floor, Minimum, Rounds, EnoughAbove;
  }

  /** Pages on the lists from `k` up mean that one of these lists has a block. */
  lemma {:induction false} PagesMeanBlock(a: Lists, k: nat)
    requires k <= |a| && PagesFrom(a, k) > 0
    ensures FirstOrder(a, k) < |a|
    decreases |a| - k
  {
    if a[k] == [] { PagesMeanBlock(a, k + 1); }
  }

  lemma {:induction false} PagesNonNeg(a: Lists, k: nat)
    requires k <= |a|
    ensures PagesFrom(a, k) >= 0
    decreases |a| - k
  {
    if k < |a| { PagesNonNeg(a, k + 1); }
  }

  /** `free` negative fails the first round, as every list holds a non-negative number of pages. */
  lemma NegativeFails(a: Lists, free: int, min: int, order: nat)
    requires 0 < order < |a| && free <= 0 && min >= 0
    ensures !Rounds(a, free, min, 0, order)
  {
    assert |a[0]| * Pow2(0) == |a[0]|;
  }

  /**
   The unsigned first comparison agrees with the intended one on every possible count exactly
   when `min + reserve` does not wrap.
   */
  lemma FirstTestExact(min: nat, reserve: nat)
    requires min < HALF && reserve < WORD
    ensures (forall free: int :: 0 <= free < HALF ==> (ULong(free) <= ULong(min + reserve) <==> free <= min + reserve))
            <==> min + reserve < WORD
  {
    if min + reserve >= WORD {
      var free := HALF - 1;
      assert ULong(free) == free && ULong(min + reserve) == min + reserve - WORD;
    }
  }

  lemma LongExact(x: int)
    requires -HALF <= x < HALF
    ensures Long(x) == x
  {
  }

  lemma SubExact(x: int, y: int)
    requires -HALF <= x - y < HALF
    ensures Long(ULong(x) - ULong(y)) == x - y
  {
    assert x == WORD * (x / WORD) + ULong(x) && y == WORD * (y / WORD) + ULong(y);
    ModShift(ULong(x) - ULong(y), x / WORD - y / WORD);
  }

  lemma ModShift(z: int, k: int)
    ensures (z + WORD * k) % WORD == z % WORD
  {
  }

  lemma FirstTest(free: int, min: nat, reserve: nat)
    requires free < HALF && min < HALF && reserve < WORD && min + reserve < WORD && free >= 0
    ensures ULong(free) <= ULong(ULong(min) + reserve) <==> free <= min + reserve
  {
  }

  /** One round, before the machine subtraction: it is exact. */
  lemma RoundExact(a: Lists, free: int, o: nat, order: nat)
    requires o < order < |a| && Pow2(order) <= 1024 && free == PagesFrom(a, o) - Pow2(order) + 1 < HALF
    ensures Long(ULong(free) - ULong(|a[o]| * Pow2(o))) == free - |a[o]| * Pow2(o) == PagesFrom(a, o + 1) - Pow2(order) + 1 <= free
  {
    PagesNonNeg(a, o + 1);
    assert |a[o]| * Pow2(o) >= 0;
    SubExact(free, |a[o]| * Pow2(o));
  }

  lemma RoundStep(a: Lists, free: int, min: int, o: nat, order: nat)
    requires o < order < |a|
    ensures Rounds(a, free, min, o, order)
            == (free - |a[o]| * Pow2(o) > min / 2 && Rounds(a, free - |a[o]| * Pow2(o), min / 2, o + 1, order))
  {
  }

  lemma RoundsEnd(a: Lists, free: int, min: int, order: nat)
    requires order < |a|
    ensures Rounds(a, free, min, order, order)
  {
  }

  /** The facts about the zone the test relies on. */
  lemma ZoneFacts(a: Lists, F: set<nat>, m: Pages, order: nat)
    requires BuddyInv(m, a, F) && order < MAX_ORDER
    ensures |a| == MAX_ORDER && PagesFrom(a, 0) == |F| && 1 <= Pow2(order) <= 1024 && (order == 0 ==> Pow2(order) == 1)
  {
    FreePagesAreListed(a, F);
    Pow2Mono(order, 10);
    assert Pow2(10) == 1024;
  }

  /** The loop of `zone_watermark_ok`; a yes leaves pages on the lists from `order` up. */
  method HigherOrdersOk(z: Zone, free0: int, min0: int, order: nat) returns (ok: bool)
    requires z.BuddyValid() && order < MAX_ORDER && z.freePages < HALF && 0 <= min0 < HALF
    requires free0 == PagesFrom(z.Lists(), 0) - Pow2(order) + 1
    ensures ok == Rounds(z.Lists(), free0, min0, 0, order)
    ensures ok && (order == 0 ==> free0 > 0) ==> FirstOrder(z.Lists(), order) < |z.Lists()|
  {
    hide Canon, FlagsOk, BuddyInv, Pow2, PagesFrom, Long, ULong, Rounds;
    ghost var a := z.Lists();
    ZoneFacts(a, z.free, z.mem, order);
    var min, free, o: nat := min0, free0, 0;
    while o < order
      invariant 0 <= o <= order && 0 <= min < HALF
      invariant free == PagesFrom(a, o) - Pow2(order) + 1 <= free0
      invariant (o > 0 ==> free > min) && Rounds(a, free, min, o, order) == Rounds(a, free0, min0, 0, order)
    {
      assert z.area[o].nrFree == |a[o]|;
      RoundExact(a, free, o, order);
      RoundStep(a, free, min, o, order);
      free := Long(ULong(free) - ULong(z.area[o].nrFree * Pow2(o)));
      min := min / 2;
      o := o + 1;
      if free <= min {
        return false;
      }
    }
    RoundsEnd(a, free, min, order);
    if order > 0 || free0 > 0 { PagesMeanBlock(a, order); }
    return true;
  }

  /**
   `zone_watermark_ok`: a yes means `__rmqueue` will find a block of at least the wanted order; and
   unless the floor plus the reserve wraps, it is given exactly when, for every order up to the wanted
   one, the lists from there up keep more than the floor halved once an order, and at order zero more
   than floor and reserve.
   */
  method ZoneWatermarkOk(z: Zone, order: nat, mark: nat, reserve: nat, canTryHarder: bool, gfpHigh: bool)
    returns (ok: bool)
    requires z.BuddyValid() && order < MAX_ORDER
    requires z.freePages < HALF && mark < HALF && reserve < WORD
    ensures ok ==> BuddyLists.Rmqueue(z.Lists(), order).1.Some?
    ensures forall floor :: Floor(floor, mark, gfpHigh, canTryHarder) && floor + reserve < WORD ==>
              (ok <==> PagesFrom(z.Lists(), 0) - (Pow2(order) - 1) > floor + reserve
                       && EnoughAbove(z.Lists(), order, floor, 0))
  {
    hide Canon, FlagsOk, BuddyInv, Pow2, PagesFrom, Long, Rounds, Floor, EnoughAbove;
    ghost var a := z.Lists();
    ZoneFacts(a, z.free, z.mem, order);
    forall m ensures Floor(m, mark, gfpHigh, canTryHarder) <==> m == Minimum(mark, gfpHigh, canTryHarder) {
      FloorExact(mark, gfpHigh, canTryHarder, m);
    }
    IntendedExact(a, order, mark, reserve, canTryHarder, gfpHigh, Minimum(mark, gfpHigh, canTryHarder));
    LongExact(z.freePages - Pow2(order) + 1);
    var min, free := mark, Long(z.freePages - Pow2(order) + 1);
    LongExact(min - min / 2);
    if gfpHigh { min := Long(min - min / 2); }
    LongExact(min - min / 4);
    if canTryHarder { min := Long(min - min / 4); }
    assert min == Minimum(mark, gfpHigh, canTryHarder) && free == PagesFrom(a, 0) - Pow2(order) + 1;
    ghost var free0, min0, want := free, min, Intended(a, order, mark, reserve, canTryHarder, gfpHigh);
    assert want <==> free0 > min0 + reserve && Rounds(a, free0, min0, 0, order);
    if free < 0 {
      NegativeFails(a, free0, min0, order);
    } else if min0 + reserve < WORD {
      FirstTest(free, min, reserve);
    }
    if ULong(free) <= ULong(ULong(min) + reserve) {
      return false;
    }
    ok := HigherOrdersOk(z, free, min, order);
  }
}
