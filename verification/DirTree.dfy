/**
 The directory tree and `lock_rename`.  `parent` maps every directory to its parent; the root is
 its own parent, as `d_parent` is in the dentry cache.
 */
module DirTree {
  import opened Options

  type Node = int
  type Tree = map<Node, Node>

  /** Every directory has a depth: 0 for the root alone, one more than the parent's elsewhere. */
  ghost predicate Ranked(parent: Tree, root: Node, d: map<Node, int>) {
    && root in parent && d.Keys == parent.Keys
    && forall x {:trigger parent[x]} :: x in parent ==>
         parent[x] in parent && (if x == root then parent[x] == x && d[x] == 0 else 0 < d[x] == d[parent[x]] + 1)
  }

  ghost predicate IsTree(parent: Tree, root: Node) {
    exists d: map<Node, int> :: Ranked(parent, root, d)
  }

  ghost predicate Closed(parent: Tree) {
    forall x {:trigger parent[x]} :: x in parent ==> parent[x] in parent
  }

  lemma RootInTree(parent: Tree, root: Node)
    requires IsTree(parent, root)
    ensures root in parent && Closed(parent)
  {
  }

  /** The `k`-fold parent. */
  ghost function Up(parent: Tree, x: Node, k: nat): (y: Node)
    requires Closed(parent) && x in parent
    ensures y in parent
    decreases k
  {
    if k == 0 then x else Up(parent, parent[x], k - 1)
  }

  /** `a` is `x` or one of its ancestors. */
  ghost predicate Anc(parent: Tree, a: Node, x: Node)
    requires Closed(parent) && x in parent
  {
    exists k: nat :: Up(parent, x, k) == a
  }

  lemma AncSelf(parent: Tree, x: Node)
    requires Closed(parent) && x in parent
    ensures Anc(parent, x, x)
  {
    assert Up(parent, x, 0) == x;
  }

  /** Ancestors of the parent are ancestors; proper ancestors are ancestors of the parent. */
  lemma AncParent(parent: Tree, a: Node, x: Node)
    requires Closed(parent) && x in parent
    ensures Anc(parent, a, x) <==> a == x || Anc(parent, a, parent[x])
  {
    AncSelf(parent, x);
    if Anc(parent, a, x) && a != x {
      var k: nat :| Up(parent, x, k) == a;
      assert Up(parent, parent[x], k - 1) == a;
    }
    if Anc(parent, a, parent[x]) {
      var k: nat :| Up(parent, parent[x], k) == a;
      assert Up(parent, x, k + 1) == a;
    }
  }

  lemma {:induction false} UpDepth(parent: Tree, root: Node, d: map<Node, int>, x: Node, k: nat)
    requires Ranked(parent, root, d) && x in parent
    ensures d[Up(parent, x, k)] == if k <= d[x] then d[x] - k else 0
    decreases k
  {
    if k > 0 {
      UpDepth(parent, root, d, parent[x], k - 1);
    }
  }

  /** A proper ancestor is strictly less deep. */
  lemma AncDepth(parent: Tree, root: Node, d: map<Node, int>, a: Node, x: Node)
    requires Ranked(parent, root, d) && x in parent && Anc(parent, a, x)
    ensures a in parent && (a == x || d[a] < d[x])
  {
    var k: nat :| Up(parent, x, k) == a;
    UpDepth(parent, root, d, x, k);
    if k > 0 && d[x] == 0 { UpRoot(parent, root, d, k); }
  }

  lemma {:induction false} UpRoot(parent: Tree, root: Node, d: map<Node, int>, k: nat)
    requires Ranked(parent, root, d)
    ensures Up(parent, root, k) == root
  {
    if k > 0 { UpRoot(parent, root, d, k - 1); }
  }

  /** A directory is not above its parent. */
  lemma ParentBelow(parent: Tree, root: Node, x: Node)
    requires IsTree(parent, root) && Closed(parent) && x in parent && x != root
    ensures !Anc(parent, x, parent[x])
  {
    var d: map<Node, int> :| Ranked(parent, root, d);
    if Anc(parent, x, parent[x]) { AncDepth(parent, root, d, x, parent[x]); }
  }

  /** Ancestors of one directory at the same depth are equal. */
  lemma {:induction false} AncUnique(parent: Tree, root: Node, d: map<Node, int>, a: Node, b: Node, x: Node)
    requires Ranked(parent, root, d) && x in parent && Anc(parent, a, x) && Anc(parent, b, x)
    requires a in parent && b in parent && d[a] == d[b]
    ensures a == b
    decreases d[x]
  {
    AncDepth(parent, root, d, a, x);
    AncDepth(parent, root, d, b, x);
    AncParent(parent, a, x);
    AncParent(parent, b, x);
    if a != x && b != x {
      if x == root { UpAtRoot(parent, root, d, a); } else { AncUnique(parent, root, d, a, b, parent[x]); }
    }
  }

  lemma UpAtRoot(parent: Tree, root: Node, d: map<Node, int>, a: Node)
    requires Ranked(parent, root, d) && Anc(parent, a, root)
    ensures a == root
  {
    var k: nat :| Up(parent, root, k) == a;
    UpRoot(parent, root, d, k);
  }

  lemma {:induction false} UpAdd(parent: Tree, x: Node, j: nat, k: nat)
    requires Closed(parent) && x in parent
    ensures Up(parent, Up(parent, x, j), k) == Up(parent, x, j + k)
    decreases j
  {
    if j > 0 { UpAdd(parent, parent[x], j - 1, k); }
  }

  lemma AncTrans(parent: Tree, a: Node, b: Node, x: Node)
    requires Closed(parent) && x in parent && b in parent && Anc(parent, a, b) && Anc(parent, b, x)
    ensures Anc(parent, a, x)
  {
    var j: nat :| Up(parent, x, j) == b;
    var k: nat :| Up(parent, b, k) == a;
    UpAdd(parent, x, j, k);
  }

  // ---------------------------------------------------------------- lock_rename

  /**
   What `lock_rename(p1, p2)` decides for different directories: the lock order, and the trap,
   which is the child of one of them on the way to the other.
   */
  ghost predicate Plan(parent: Tree, p1: Node, p2: Node, first: Node, second: Node, trap: Option<Node>) {
    && Closed(parent) && p1 in parent && p2 in parent && p1 != p2
    && ((first == p1 && second == p2) || (first == p2 && second == p1))
    && !Anc(parent, second, first)
    && match trap
       case None => !Anc(parent, p1, p2) && !Anc(parent, p2, p1)
       case Some(x) =>
         x in parent && parent[x] != x &&
         ((parent[x] == p2 && Anc(parent, x, p1)) || (parent[x] == p1 && Anc(parent, x, p2)))
  }

  /** The trap for two directories that may be equal, in which case there is none. */
  ghost predicate TrapFor(parent: Tree, p1: Node, p2: Node, trap: Option<Node>) {
    if p1 == p2 then trap == None else exists first, second :: Plan(parent, p1, p2, first, second, trap)
  }

  /**
   The trap is exact on one side: a subdirectory `c` of `p2` is the trap exactly when `p1` is `c`
   or below it.
   */
  lemma TrapExactFor(parent: Tree, root: Node, p1: Node, p2: Node, trap: Option<Node>, c: Node)
    requires IsTree(parent, root) && p1 in parent && p2 in parent && Closed(parent)
    requires TrapFor(parent, p1, p2, trap) || TrapFor(parent, p2, p1, trap)
    requires c in parent && c != root && parent[c] == p2
    ensures trap == Some(c) <==> Anc(parent, c, p1)
  {
    var d: map<Node, int> :| Ranked(parent, root, d);
    AncSelf(parent, p2);
    AncParent(parent, p2, c);
    if Anc(parent, c, p1) {
      AncDepth(parent, root, d, c, p1);
      AncTrans(parent, p2, c, p1);
      if Anc(parent, p1, p2) { AncDepth(parent, root, d, p1, p2); }
      if trap.Some? {
        var x := trap.value;
        if parent[x] == p1 && Anc(parent, x, p2) { AncDepth(parent, root, d, x, p2); }
        if parent[x] == p2 && Anc(parent, x, p1) { AncUnique(parent, root, d, c, x, p1); }
      }
    }
    if trap == Some(c) && Anc(parent, c, p2) {
      AncDepth(parent, root, d, c, p2);
    }
  }

  /**
   For `trap = lock_rename(new_dir, old_dir)`: a source directory is the trap exactly when the
   move would put it inside itself, a target directory exactly when it is above the source.
   */
  lemma TrapExact(parent: Tree, root: Node, newDir: Node, oldDir: Node, trap: Option<Node>, child: Node)
    requires IsTree(parent, root) && newDir in parent && oldDir in parent && Closed(parent)
    requires TrapFor(parent, newDir, oldDir, trap)
    requires child in parent && child != root
    ensures parent[child] == oldDir ==> (trap == Some(child) <==> Anc(parent, child, newDir))
    ensures parent[child] == newDir ==> (trap == Some(child) <==> Anc(parent, child, oldDir))
  {
    if parent[child] == oldDir { TrapExactFor(parent, root, newDir, oldDir, trap, child); }
    if parent[child] == newDir { TrapExactFor(parent, root, oldDir, newDir, trap, child); }
  }

  /** One of the two upward walks: the child of `a` on the way from `x`, if there is one. */
  method FindBelow(parent: Tree, root: Node, x: Node, a: Node, ghost d: map<Node, int>) returns (child: Option<Node>)
    requires Ranked(parent, root, d) && x in parent && a in parent && x != a
    ensures child == None <==> !Anc(parent, a, x)
    ensures child.Some? ==> child.value in parent && child.value != a && parent[child.value] == a && Anc(parent, child.value, x)
  {
    var p := x;
    AncSelf(parent, x);
    while parent[p] != p
      invariant p in parent && p != a && Anc(parent, p, x)
      invariant Anc(parent, a, x) <==> Anc(parent, a, p)
      decreases d[p]
    {
      AncParent(parent, a, p);
      if parent[p] == a {
        AncSelf(parent, a);
        return Some(p);
      }
      AncSelf(parent, parent[p]);
      AncParent(parent, parent[p], p);
      AncTrans(parent, parent[p], p, x);
      p := parent[p];
    }
    if Anc(parent, a, p) { UpAtRoot(parent, root, d, a); }
    return None;
  }

  /** `lock_rename`: which of the two directories is locked first, and the trap. */
  method LockRename(parent: Tree, root: Node, p1: Node, p2: Node, ghost d: map<Node, int>)
    returns (first: Node, second: Node, trap: Option<Node>)
    requires Ranked(parent, root, d) && p1 in parent && p2 in parent
    ensures p1 == p2 ==> first == second == p1 && trap == None
    ensures p1 != p2 ==> Plan(parent, p1, p2, first, second, trap)
    ensures TrapFor(parent, p1, p2, trap)
  {
    if p1 == p2 {
      return p1, p1, None;
    }
    trap := FindBelow(parent, root, p1, p2, d);
    if trap.Some? {
      if Anc(parent, p1, p2) { AncDepth(parent, root, d, p1, p2); AncDepth(parent, root, d, p2, p1); }
      first, second := p2, p1;
      assert Plan(parent, p1, p2, first, second, trap);
      return;
    }
    trap := FindBelow(parent, root, p2, p1, d);
    first, second := p1, p2;
    assert Plan(parent, p1, p2, first, second, trap);
  }

  // ---------------------------------------------------------------- changes of the tree

  /** A fresh subdirectory keeps the tree. */
  lemma AddKeepsTree(parent: Tree, root: Node, x: Node, p: Node)
    requires IsTree(parent, root) && x !in parent && p in parent
    ensures IsTree(parent[x := p], root)
  {
    var d: map<Node, int> :| Ranked(parent, root, d);
    var parent', d' := parent[x := p], d[x := d[p] + 1];
    forall y | y in parent'
      ensures parent'[y] in parent' && (if y == root then parent'[y] == y && d'[y] == 0 else 0 < d'[y] == d'[parent'[y]] + 1)
    {
      if y != x { assert parent[y] in parent; }
    }
    assert Ranked(parent', root, d');
  }

  /** The way up to `c` does not use the link above `c`. */
  lemma {:induction false} AncAvoids(parent: Tree, root: Node, d: map<Node, int>, c: Node, p: Node, x: Node)
    requires Ranked(parent, root, d) && c in parent && p in parent && x in parent
    requires Anc(parent, c, x)
    ensures Closed(parent[c := p]) && Anc(parent[c := p], c, x)
    decreases d[x]
  {
    AncParent(parent, c, x);
    assert Closed(parent[c := p]);
    AncSelf(parent[c := p], c);
    if x != c {
      if x == root { UpAtRoot(parent, root, d, c); }
      AncAvoids(parent, root, d, c, p, parent[x]);
      AncParent(parent[c := p], c, x);
    }
  }

  /** Depths after moving `c` under `p`. */
  ghost function MovedDepth(parent: Tree, d: map<Node, int>, c: Node, p: Node, x: Node): int
    requires d.Keys == parent.Keys && Closed(parent) && c in parent && p in parent && x in parent
  {
    if Anc(parent, c, x) && d[x] >= d[c] then d[x] - d[c] + d[p] + 1 else d[x]
  }

  lemma MovedDepthStep(parent: Tree, root: Node, d: map<Node, int>, c: Node, p: Node, x: Node)
    requires Ranked(parent, root, d) && c in parent && c != root && p in parent && x in parent && !Anc(parent, c, p)
    ensures MovedDepth(parent, d, c, p, x) >= 0
    ensures x == root ==> MovedDepth(parent, d, c, p, x) == 0
    ensures x == c ==> MovedDepth(parent, d, c, p, x) == MovedDepth(parent, d, c, p, p) + 1
    ensures x != c && x != root ==> MovedDepth(parent, d, c, p, x) == MovedDepth(parent, d, c, p, parent[x]) + 1
  {
    AncSelf(parent, c);
    AncParent(parent, c, x);
    if Anc(parent, c, x) { AncDepth(parent, root, d, c, x); }
    if x != root && Anc(parent, c, parent[x]) { AncDepth(parent, root, d, c, parent[x]); }
    if x == root && Anc(parent, c, root) { UpAtRoot(parent, root, d, c); }
  }

  /** Moving a directory keeps the tree exactly when the new parent is not inside it. */
  lemma MoveKeepsTree(parent: Tree, root: Node, c: Node, p: Node)
    requires IsTree(parent, root) && Closed(parent) && c in parent && c != root && p in parent
    ensures IsTree(parent[c := p], root) <==> !Anc(parent, c, p)
  {
    var d: map<Node, int> :| Ranked(parent, root, d);
    hide Ranked;
    if Anc(parent, c, p) {
      var parent' := parent[c := p];
      AncAvoids(parent, root, d, c, p, p);
      forall d': map<Node, int> | Ranked(parent', root, d') ensures false {
        LoopHasNoRank(parent', root, d', c, p);
      }
    } else {
      var d' := MovedRank(parent, root, d, c, p);
    }
  }

  /** A directory whose parent is inside it has no depth. */
  lemma LoopHasNoRank(parent: Tree, root: Node, d: map<Node, int>, c: Node, p: Node)
    requires Closed(parent) && c in parent && c != root && p in parent && parent[c] == p && Anc(parent, c, p)
    ensures !Ranked(parent, root, d)
  {
    if Ranked(parent, root, d) { AncDepth(parent, root, d, c, p); }
  }

  lemma MovedRank(parent: Tree, root: Node, d: map<Node, int>, c: Node, p: Node) returns (d': map<Node, int>)
    requires Ranked(parent, root, d) && c in parent && c != root && p in parent && !Anc(parent, c, p)
    ensures Ranked(parent[c := p], root, d')
  {
    hide Anc;
    var parent' := parent[c := p];
    d' := map x | x in parent :: MovedDepth(parent, d, c, p, x);
    forall x | x in parent'
      ensures parent'[x] in parent' && (if x == root then parent'[x] == x && d'[x] == 0 else 0 < d'[x] == d'[parent'[x]] + 1)
    {
      RankStep(parent, root, d, c, p, x);
    }
  }

  lemma RankStep(parent: Tree, root: Node, d: map<Node, int>, c: Node, p: Node, x: Node)
    requires Ranked(parent, root, d) && c in parent && c != root && p in parent && !Anc(parent, c, p) && x in parent
    ensures var q := parent[c := p][x];
            && q in parent
            && if x == root then q == x && MovedDepth(parent, d, c, p, x) == 0
               else 0 < MovedDepth(parent, d, c, p, x) == MovedDepth(parent, d, c, p, q) + 1
  {
    hide Anc;
    MovedDepthStep(parent, root, d, c, p, x);
    var q := parent[c := p][x];
    MovedDepthStep(parent, root, d, c, p, q);
    hide MovedDepth;
  }

  /** `parent'` knows at least the directories of `parent`, with the same parents. */
  ghost predicate Extends(parent: Tree, parent': Tree) {
    forall x {:trigger parent'[x]} {:trigger x in parent'} :: x in parent ==> x in parent' && parent'[x] == parent[x]
  }

  lemma {:induction false} UpExtends(parent: Tree, parent': Tree, x: Node, k: nat)
    requires Closed(parent) && Closed(parent') && Extends(parent, parent') && x in parent
    ensures x in parent' && Up(parent', x, k) == Up(parent, x, k)
    decreases k
  {
    assert parent'[x] == parent[x];
    if k > 0 { UpExtends(parent, parent', parent[x], k - 1); }
  }

  lemma AncExtends(parent: Tree, parent': Tree, a: Node, x: Node)
    requires Closed(parent) && Closed(parent') && Extends(parent, parent') && x in parent
    ensures x in parent' && (Anc(parent', a, x) <==> Anc(parent, a, x))
  {
    forall k: nat ensures x in parent' && Up(parent', x, k) == Up(parent, x, k) { UpExtends(parent, parent', x, k); }
    if Anc(parent, a, x) {
      var k: nat :| Up(parent, x, k) == a;
      assert Up(parent', x, k) == a;
    }
  }

  /** What `lock_rename` found stays true while existing directories keep their parents. */
  lemma PlanExtends(parent: Tree, parent': Tree, p1: Node, p2: Node, first: Node, second: Node, trap: Option<Node>)
    requires Plan(parent, p1, p2, first, second, trap) && Closed(parent') && Extends(parent, parent')
    ensures Plan(parent', p1, p2, first, second, trap)
  {
    AncExtends(parent, parent', p1, p2);
    AncExtends(parent, parent', p2, p1);
    if trap.Some? {
      AncExtends(parent, parent', trap.value, p1);
      AncExtends(parent, parent', trap.value, p2);
      assert parent'[trap.value] == parent[trap.value];
    }
  }

  /** The way up to a proper ancestor passes one of its children. */
  lemma {:induction false} ChildBelow(parent: Tree, root: Node, d: map<Node, int>, a: Node, x: Node) returns (c: Node)
    requires Ranked(parent, root, d) && x in parent && Anc(parent, a, x) && a != x
    ensures c in parent && c != root && parent[c] == a && Anc(parent, c, x)
    decreases d[x]
  {
    AncDepth(parent, root, d, a, x);
    AncParent(parent, a, x);
    if parent[x] == a {
      AncSelf(parent, x);
      c := x;
    } else {
      c := ChildBelow(parent, root, d, a, parent[x]);
      AncParent(parent, c, x);
    }
  }

  lemma PlanExists(parent: Tree, root: Node, p1: Node, p2: Node) returns (first: Node, second: Node, trap: Option<Node>)
    requires IsTree(parent, root) && p1 in parent && p2 in parent && p1 != p2
    ensures Plan(parent, p1, p2, first, second, trap)
  {
    var d: map<Node, int> :| Ranked(parent, root, d);
    first, second, trap := p1, p2, None;
    if Anc(parent, p2, p1) {
      AncDepth(parent, root, d, p2, p1);
      if Anc(parent, p1, p2) { AncDepth(parent, root, d, p1, p2); }
      first, second := p2, p1;
      var c := ChildBelow(parent, root, d, p2, p1);
      trap := Some(c);
    } else if Anc(parent, p1, p2) {
      var c := ChildBelow(parent, root, d, p1, p2);
      trap := Some(c);
    }
  }
}
