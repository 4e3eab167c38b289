/** The kernel's nullable results. */
module Options {
  datatype Option<+T> = None | Some(value: T)
}

/** Doubly linked lists of the kernel, seen as duplicate-free sequences. */
module Seqs {

  ghost predicate NoDup<T>(s: seq<T>) {
    forall i, j :: 0 <= i < j < |s| ==> s[i] != s[j]
  }

  /** The list after `list_del` of the (first) entry `x`; unchanged when `x` is not there. */
  function Without<T(==)>(s: seq<T>, x: T): (r: seq<T>) {
    if s == [] then [] else if s[0] == x then s[1..] else [s[0]] + Without(s[1..], x)
  }

  lemma {:induction false} WithoutIsDelete<T>(s: seq<T>, x: T)
    requires NoDup(s)
    ensures NoDup(Without(s, x))
    ensures forall y :: y in Without(s, x) <==> y in s && y != x
    ensures |Without(s, x)| == if x in s then |s| - 1 else |s|
  {
    if s == [] {
    } else {
      assert s == [s[0]] + s[1..];
      assert forall y :: y in s <==> y == s[0] || y in s[1..];
      if s[0] == x {
      } else {
        var t := Without(s[1..], x);
        WithoutIsDelete(s[1..], x);
        forall i, j | 0 <= i < j < |t| + 1 ensures ([s[0]] + t)[i] != ([s[0]] + t)[j] {
          assert t[j - 1] in t;
        }
      }
    }
  }

  /** A missing entry leaves the list as it is. */
  lemma {:induction false} WithoutMissing<T>(s: seq<T>, x: T)
    requires x !in s
    ensures Without(s, x) == s
  {
    if s != [] {
      WithoutMissing(s[1..], x);
    }
  }

  /** Deleting at a known position. */
  lemma {:induction false} WithoutAt<T>(s: seq<T>, i: nat)
    requires NoDup(s) && i < |s|
    ensures Without(s, s[i]) == s[..i] + s[i + 1..]
  {
    if i > 0 {
      assert s[0] != s[i];
      assert s[1..][i - 1] == s[i];
      WithoutAt(s[1..], i - 1);
      assert s == [s[0]] + s[1..];
      assert s[..i] == [s[0]] + s[1..][..i - 1];
    }
  }

  ghost function Elems<T>(s: seq<T>): set<T> { set x | x in s }

  lemma {:induction false} NoDupCard<T>(s: seq<T>)
    requires NoDup(s)
    ensures |Elems(s)| == |s|
  {
    if s != [] {
      var t := s[1..];
      NoDupCard(t);
      assert s == [s[0]] + t;
      assert Elems(s) == {s[0]} + Elems(t);
    }
  }

  /** Two duplicate-free lists of the same elements have the same length. */
  lemma SameElemsSameLength<T>(s: seq<T>, t: seq<T>)
    requires NoDup(s) && NoDup(t)
    requires forall x :: x in s <==> x in t
    ensures |s| == |t|
  {
    NoDupCard(s);
    NoDupCard(t);
    assert Elems(s) == Elems(t);
  }

  /** The list read from its tail. */
  function Rev<T>(s: seq<T>): (r: seq<T>)
    ensures |r| == |s|
  {
    if s == [] then [] else [s[|s| - 1]] + Rev(s[..|s| - 1])
  }

  lemma {:induction false} RevElems<T>(s: seq<T>)
    ensures forall x :: x in Rev(s) <==> x in s
    ensures Elems(Rev(s)) == Elems(s)
  {
    if s != [] {
      var n := |s| - 1;
      RevElems(s[..n]);
      assert s == s[..n] + [s[n]];
    }
    assert forall x :: x in Rev(s) <==> x in s;
    assert Elems(Rev(s)) == Elems(s);
  }

  lemma {:induction false} RevConcat<T>(s: seq<T>, t: seq<T>)
    ensures Rev(s + t) == Rev(t) + Rev(s)
  {
    if t == [] {
      assert s + t == s && Rev(t) + Rev(s) == Rev(s);
    } else {
      var n := |t| - 1;
      RevConcat(s, t[..n]);
      assert (s + t)[..|s + t| - 1] == s + t[..n];
    }
  }

  lemma {:induction false} RevTwice<T>(s: seq<T>)
    ensures Rev(Rev(s)) == s
  {
    if s != [] {
      var n := |s| - 1;
      RevTwice(s[..n]);
      RevConcat([s[n]], Rev(s[..n]));
      assert [s[n]][..0] == [] && Rev([s[n]]) == [s[n]];
      assert s == s[..n] + [s[n]];
    }
  }

  lemma {:induction false} RevAt<T>(s: seq<T>, i: nat)
    requires i < |s|
    ensures Rev(s)[i] == s[|s| - 1 - i]
  {
    if i > 0 { RevAt(s[..|s| - 1], i - 1); }
  }

  lemma RevNoDup<T>(s: seq<T>)
    requires NoDup(Rev(s))
    ensures NoDup(s)
  {
    forall i, j | 0 <= i < j < |s| ensures s[i] != s[j] {
      RevAt(s, |s| - 1 - i);
      RevAt(s, |s| - 1 - j);
    }
  }
}
