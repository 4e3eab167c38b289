/** Waiting threads and the threads they wait for. */
module WaitGraph {
  import opened Seqs

  /** The position after `i` on a circle of `n`. */
  function After(i: int, n: int): (j: int)
    requires 0 <= i < n
    ensures 0 <= j < n
  {
    if i + 1 < n then i + 1 else 0
  }

  /** Each thread of the cycle waits for the next one, the last for the first. */
  ghost predicate Cycle<T>(next: map<T, T>, ts: seq<T>) {
    |ts| > 0 && forall i :: 0 <= i < |ts| ==> ts[i] in next && next[ts[i]] == ts[After(i, |ts|)]
  }

  /** Every waiter waits for a waiter. */
  ghost predicate Total<T>(next: map<T, T>) {
    forall u {:trigger next[u]} :: u in next ==> next[u] in next
  }

  ghost function Follow<T>(next: map<T, T>, t: T, n: nat): (ts: seq<T>)
    requires t in next && Total(next)
    ensures |ts| == n + 1 && ts[0] == t && forall i :: 0 <= i <= n ==> ts[i] in next
    ensures forall i :: 0 <= i < n ==> ts[i + 1] == next[ts[i]]
  {
    if n == 0 then [t] else
      var ts := Follow(next, t, n - 1);
      ts + [next[ts[n - 1]]]
  }

  lemma {:induction false} SubsetCard<T>(a: set<T>, b: set<T>)
    requires a <= b
    ensures |a| <= |b|
  {
    if x :| x in a {
      SubsetCard(a - {x}, b - {x});
    }
  }

  /** If every waiter waits for a waiter, and there is one, then some of them wait in a circle. */
  lemma ClosedWaitHasCycle<T>(next: map<T, T>) returns (ts: seq<T>)
    requires next != map[] && Total(next)
    ensures Cycle(next, ts)
  {
    var t :| t in next;
    var path := Follow(next, t, |next.Keys|);
    Repeats(path, next.Keys);
    var i, j :| 0 <= i < j < |path| && path[i] == path[j];
    ts := path[i..j];
    forall k | 0 <= k < |ts| ensures ts[k] in next && next[ts[k]] == ts[After(k, |ts|)] {
      assert ts[k] == path[i + k] && path[i + k + 1] == next[path[i + k]];
    }
  }

  /** A list longer than the set it is drawn from repeats an element. */
  lemma Repeats<T>(path: seq<T>, s: set<T>)
    requires |path| > |s| && forall i :: 0 <= i < |path| ==> path[i] in s
    ensures !NoDup(path)
  {
    SubsetCard(Elems(path), s);
    if NoDup(path) { NoDupCard(path); }
  }
}
