/**
 clear_safety_list walks the safety list without `lru_lock`: it reads the next page before it activates
 the present one, and follows whatever list that page is on when the walk resumes.
 */
module PageWalks {
  import opened Seqs
  import opened Options
  import opened PageLists

  /** Where the walk stands: at a page, at the head of a list, or at a page that is on no list any more. */
  datatype Cursor = At(p: Page) | HeadOf(w: Which) | Astray

  /** The entry after `p` in a list. */
  function Following(l: seq<Page>, p: Page): Option<Page> {
    if l == [] then None
    else if l[0] == p then (if |l| > 1 then Some(l[1]) else None)
    else Following(l[1..], p)
  }

  /** The next pointer of a page: it leads along the list the page is on now. */
  function Next(z: Lists, p: Page): Cursor {
    if p !in z.lru then Astray
    else
      match Following(ListOf(z, Home(z, p)), p)
      case Some(q) => At(q)
      case None => HeadOf(Home(z, p))
  }

  /** Up to `n` rounds of the walk with nobody else at work. */
  function Walk(z: Lists, c: Cursor, n: nat): (Lists, Cursor)
    decreases n
  {
    if n == 0 || !c.At? then (z, c) else Walk(Activated(z, c.p), Next(z, c.p), n - 1)
  }

  function CursorAt(l: seq<Page>, w: Which, i: nat): Cursor { if i < |l| then At(l[i]) else HeadOf(w) }

  lemma {:induction false} FollowingAt(l: seq<Page>, i: nat)
    requires NoDup(l) && i < |l|
    ensures Following(l, l[i]) == if i + 1 < |l| then Some(l[i + 1]) else None
    decreases i
  {
    if i > 0 {
      assert l[0] != l[i] && l[1..][i - 1] == l[i];
      FollowingAt(l[1..], i - 1);
    }
  }

  /** One round at entry `i` of list `w`. */
  lemma RoundAt(z: Lists, w: Which, i: nat)
    requires Inv(z) && i < |ListOf(z, w)|
    ensures var l := ListOf(z, w); var y := Activated(z, l[i]);
            && Inv(y) && Next(z, l[i]) == CursorAt(l, w, i + 1)
            && (if w == Active then y == z else ListOf(y, w) == l[..i] + l[i + 1..])
  {
    var l := ListOf(z, w);
    var p: Page := l[i];
    assert p in l;
    OneList(z, p);
    ActivatedOk(z, p);
    FollowingAt(l, i);
    if w != Active {
      TakenOk(z, p);
      WithoutAt(l, i);
      assert ListOf(Activated(z, p), w) == ListOf(Taken(z, p), w);
    }
  }

  /**
   Left alone, the walk from entry `i` of a list ends at the head of that list; off the active list
   it has activated exactly the entries from `i` on.
   */
  lemma {:induction false} WalkEnds(z: Lists, w: Which, i: nat, n: nat)
    requires Inv(z) && i + n == |ListOf(z, w)|
    ensures var r := Walk(z, CursorAt(ListOf(z, w), w, i), n);
            && r.1 == HeadOf(w) && Inv(r.0)
            && ListOf(r.0, w) == if w == Active then ListOf(z, w) else ListOf(z, w)[..i]
    decreases n
  {
    hide Inv, Activated, Next;
    var l := ListOf(z, w);
    if n == 0 {
      assert l[..i] == l;
    } else {
      RoundAt(z, w, i);
      var y := Activated(z, l[i]);
      if w == Active {
        WalkEnds(z, w, i + 1, n - 1);
      } else {
        var k := ListOf(y, w);
        WalkEnds(y, w, i, n - 1);
        assert CursorAt(k, w, i) == CursorAt(l, w, i + 1) && k[..i] == l[..i];
      }
    }
  }

  /** Once at the head of a list, or astray, the walk stays there. */
  lemma {:induction false} WalkLonger(z: Lists, c: Cursor, n: nat, m: nat)
    requires n <= m && !Walk(z, c, n).1.At?
    ensures Walk(z, c, m) == Walk(z, c, n)
    decreases n
  {
    if n > 0 && c.At? { WalkLonger(Activated(z, c.p), Next(z, c.p), n - 1, m - 1); }
  }

  /**
   Whatever happened meanwhile, a walk that resumes at page `p` and is then left alone meets the head
   of the safety list exactly when `p` is on the safety list at that moment.
   */
  lemma WalkMeetsHead(z: Lists, p: Page)
    requires Inv(z)
    ensures (exists n: nat :: Walk(z, At(p), n).1 == HeadOf(Safety)) <==> p in z.victim
  {
    if p in z.lru {
      var w := Home(z, p);
      OneList(z, p);
      assert p in ListOf(z, w);
      var i: nat :| i < |ListOf(z, w)| && ListOf(z, w)[i] == p;
      var n: nat := |ListOf(z, w)| - i;
      WalkEnds(z, w, i, n);
      assert Walk(z, At(p), n).1 == HeadOf(w);
      forall m: nat ensures Walk(z, At(p), m).1 == HeadOf(Safety) ==> w == Safety {
        if Walk(z, At(p), m).1 == HeadOf(Safety) {
          if n <= m { WalkLonger(z, At(p), n, m); } else { WalkLonger(z, At(p), m, n); }
        }
      }
      VictimsListed(z, p);
    } else {
      forall m: nat ensures Walk(z, At(p), m).1 != HeadOf(Safety) { LostWalk(z, p, m); }
      VictimsListed(z, p);
    }
  }

  lemma VictimsListed(z: Lists, p: Page)
    requires Inv(z)
    ensures p in z.victim <==> p in z.lru && Home(z, p) == Safety
  {
  }

  lemma LostWalk(z: Lists, p: Page, m: nat)
    requires p !in z.lru
    ensures Walk(z, At(p), m).1 != HeadOf(Safety)
  {
    if m > 0 { WalkLonger(Activated(z, p), Astray, 0, m - 1); }
  }

  /** And it clears the whole list exactly when `p` is still the first page of it. */
  lemma WalkClears(z: Lists, i: nat)
    requires Inv(z) && i < |z.safety|
    ensures var r := Walk(z, At(z.safety[i]), |z.safety| - i);
            && r.1 == HeadOf(Safety) && r.0.safety == z.safety[..i] && (r.0.safety == [] <==> i == 0)
  {
    hide Inv, Walk;
    assert CursorAt(z.safety, Safety, i) == At(z.safety[i]) && ListOf(z, Safety) == z.safety;
    WalkEnds(z, Safety, i, |z.safety| - i);
    assert ListOf(Walk(z, At(z.safety[i]), |z.safety| - i).0, Safety) == Walk(z, At(z.safety[i]), |z.safety| - i).0.safety;
  }

  /** The interference that leads the walk away: another CPU activates the page it has read ahead. */
  lemma StrayWalk(z: Lists)
    requires Inv(z) && |z.safety| >= 2
    ensures var p, q := z.safety[0], z.safety[1];
            var y := Activated(Activated(z, p), q);
            Next(z, p) == At(q) && Inv(y) && forall n: nat :: Walk(y, At(q), n).1 != HeadOf(Safety)
  {
    var p: Page, q: Page := z.safety[0], z.safety[1];
    assert ListOf(z, Safety) == z.safety;
    RoundAt(z, Safety, 0);
    var x := Activated(z, p);
    assert q in z.safety;
    OneList(z, q);
    ActivatedOk(z, p);
    ActivatedOk(x, q);
    var y := Activated(x, q);
    VictimsListed(y, q);
    WalkMeetsHead(y, q);
  }

  /** The interference that ends it early: the page it has read ahead is rotated to the tail. */
  lemma EarlyEnd(z: Lists, p: Page)
    requires Inv(z) && p in z.safety
    ensures var y := Rotated(z, p);
            Inv(y) && Walk(y, At(p), 1).1 == HeadOf(Safety) && Walk(y, At(p), 1).0.safety == Without(z.safety, p)
  {
    RotatedOk(z, p);
    var y := Rotated(z, p);
    var n := |y.safety| - 1;
    assert ListOf(y, Safety) == y.safety && ListOf(z, Safety) == z.safety;
    assert y.safety == Without(z.safety, p) + [p];
    WalkClears(y, n);
  }
}
