/**
 What a directory operation achieves when nobody is in its way: it takes effect whenever it may, and every
 lock is free again afterwards.
 */
module RenameCompletes {
  import opened Options
  import opened DirTree
  import opened RenameLocks

  /** No other thread is inside an operation. */
  ghost predicate Alone(s: State, t: Tid) {
    t in s.procs && forall u :: u in s.procs && u != t ==> s.procs[u] == Idle
  }

  /** States that follow each other by steps of thread `t`. */
  ghost predicate Path(t: Tid, ss: seq<State>) {
    |ss| > 0 && forall i :: 0 <= i < |ss| - 1 ==> Step(ss[i], t, ss[i + 1])
  }

  ghost predicate Gets(s: State, t: Tid, e: State) {
    exists ss :: Path(t, ss) && ss[0] == s && ss[|ss| - 1] == e
  }

  lemma GetsSelf(s: State, t: Tid)
    ensures Gets(s, t, s)
  {
    assert Path(t, [s]);
  }

  lemma GetsNext(a: State, t: Tid, b: State, c: State)
    requires Gets(a, t, b) && Step(b, t, c)
    ensures Gets(a, t, c)
  {
    hide Step;
    var ss :| Path(t, ss) && ss[0] == a && ss[|ss| - 1] == b;
    var all := ss + [c];
    forall i | 0 <= i < |all| - 1 ensures Step(all[i], t, all[i + 1]) {
      if i < |ss| - 1 { assert Step(ss[i], t, ss[i + 1]); }
    }
    assert Path(t, all);
  }

  /** Thread `t` alone goes on to `q`, and the file system becomes `g`. */
  lemma Go(a: State, t: Tid, b: State, g: Fs, q: Proc) returns (c: State)
    requires Gets(a, t, b) && Inv(b) && Alone(b, t) && Act(b, t, g, q)
    ensures c == State(g, b.procs[t := q]) && Gets(a, t, c) && Inv(c) && Alone(c, t) && c.procs[t] == q
  {
    c := State(g, b.procs[t := q]);
    assert Step(b, t, c);
    hide Step, Act, Inv, Gets;
    StepKeepsInv(b, t, c);
    GetsNext(a, t, b, c);
  }

  /** Where a waiting thread goes with its lock. */
  function Acquired(p: Proc): Proc {
    match p
    case WantSem(r) => HasSem(r)
    case WantFirst(r, o) => WantSecond(r, o)
    case WantSecond(r, o) => HasBoth(r, o)
    case WantTarget(r, o, c, x) => HasTarget(r, o, c, x)
    case WantDir(d, op) => InDir(d, op)
    case WantChild(d, op, c) => InChild(d, op, c)
    case _ => p
  }

  /** A thread alone gets any lock it does not hold. */
  lemma TakeLock(a: State, t: Tid, b: State) returns (c: State)
    requires Gets(a, t, b) && Inv(b) && Alone(b, t)
    requires Waits(b.procs[t]).Some?
    requires Waits(b.procs[t]).value !in Held(b.procs[t])
    ensures c == State(b.fs, b.procs[t := Acquired(b.procs[t])]) && Gets(a, t, c) && Inv(c) && Alone(c, t)
  {
    FreeAlone(b, t, Waits(b.procs[t]).value);
    ActTake(b, t);
    hide Act, Inv, Gets;
    c := Go(a, t, b, b.fs, Acquired(b.procs[t]));
  }

  lemma ActTake(s: State, t: Tid)
    requires t in s.procs && Waits(s.procs[t]).Some?
    requires Free(s, Waits(s.procs[t]).value)
    ensures Act(s, t, s.fs, Acquired(s.procs[t]))
  {
    hide Free;
  }

  lemma ActStart(s: State, t: Tid, r: Req)
    requires t in s.procs && s.procs[t] == Idle && ReqOk(s.fs, r)
    ensures Act(s, t, s.fs, WantSem(r))
  {
  }

  lemma ActPlan(s: State, t: Tid, r: Req, o: Order)
    requires t in s.procs && s.procs[t] == HasSem(r) && Plan(s.fs.parent, r.newDir, r.oldDir, o.first, o.second, o.trap)
    ensures Act(s, t, s.fs, WantFirst(r, o))
  {
  }

  lemma ActLook(s: State, t: Tid, r: Req, o: Order, q: Proc)
    requires t in s.procs && s.procs[t] == HasBoth(r, o) && RenameLookup(s.fs, r, o, q)
    ensures Act(s, t, s.fs, q)
  {
  }

  lemma ActTarget(s: State, t: Tid, r: Req, o: Order, c: Node, x: Node)
    requires t in s.procs && s.procs[t] == HasTarget(r, o, c, x)
    ensures if c in s.fs.parent then Act(s, t, s.fs, Ready(r, o, c)) else Act(s, t, Moved(s.fs, r, c), TargetDone(r, x))
  {
  }

  lemma ActMove(s: State, t: Tid, r: Req, o: Order, c: Node)
    requires t in s.procs && s.procs[t] == Ready(r, o, c)
    ensures Act(s, t, Moved(s.fs, r, c), BothDone(r))
  {
  }

  /** The unlocks need nothing. */
  function Unlocked(p: Proc): Proc {
    match p
    case TargetDone(r, _) => BothDone(r)
    case BothDone(r) => OldLeft(r)
    case OldLeft(_) => SemLeft
    case ChildDone(d, _) => DirDone(d)
    case _ => Idle
  }

  lemma ActUnlock(s: State, t: Tid)
    requires t in s.procs && (s.procs[t].TargetDone? || s.procs[t].BothDone? || s.procs[t].OldLeft? || s.procs[t].SemLeft?
                               || s.procs[t].ChildDone? || s.procs[t].DirDone?)
    ensures Act(s, t, s.fs, Unlocked(s.procs[t]))
  {
  }

  lemma FreeAlone(s: State, t: Tid, l: Lock)
    requires Alone(s, t) && l !in Held(s.procs[t])
    ensures Free(s, l)
  {
  }

  /**
   The source name exists, and a directory is not moved into itself; the target name is free, or belongs
   to another inode of the same kind that, as a directory, is not above the source.
   */
  ghost predicate MayRename(f: Fs, r: Req)
    requires Closed(f.parent) && r.oldDir in f.parent && r.newDir in f.parent
  {
    && r.Src() in f.entries
    && (f.entries[r.Src()] in f.parent ==> !Anc(f.parent, f.entries[r.Src()], r.newDir))
    && (r.Dst() in f.entries ==>
          && f.entries[r.Dst()] != f.entries[r.Src()] && SameKind(f, f.entries[r.Dst()], f.entries[r.Src()])
          && (f.entries[r.Dst()] in f.parent ==> !Anc(f.parent, f.entries[r.Dst()], r.oldDir)))
  }

  /** The trap test stops exactly the entries above the other directory. */
  lemma TrapMeans(f: Fs, r: Req, o: Order, k: Slot)
    requires FsOk(f) && PlanOk(f, r, o) && k in f.entries && (k == r.Src() || k == r.Dst())
    ensures var c := f.entries[k];
            o.trap == Some(c) <==> c in f.parent && Anc(f.parent, c, if k == r.Src() then r.newDir else r.oldDir)
  {
    var c := f.entries[k];
    assert Child(f, f.entries[k], k.0);
    if c in f.parent { TrapExact(f.parent, f.root, r.newDir, r.oldDir, o.trap, c); }
  }

  /** With both directories locked the look-ups let a rename through exactly when it may happen. */
  lemma LookupExact(f: Fs, r: Req, o: Order)
    requires FsOk(f) && PlanOk(f, r, o)
    ensures (exists q :: q != BothDone(r) && RenameLookup(f, r, o, q)) <==> MayRename(f, r)
  {
    if r.Src() in f.entries { TrapMeans(f, r, o, r.Src()); }
    if r.Dst() in f.entries { TrapMeans(f, r, o, r.Dst()); }
    hide FsOk, PlanOk, Anc;
    if MayRename(f, r) {
      var c := f.entries[r.Src()];
      var q := if r.Dst() in f.entries then WantTarget(r, o, c, f.entries[r.Dst()]) else Ready(r, o, c);
      assert RenameLookup(f, r, o, q);
    }
  }

  /** Up to the look-ups: the three locks are taken one after the other. */
  lemma LocksBoth(s: State, t: Tid, r: Req) returns (b: State, o: Order)
    requires Inv(s) && Alone(s, t) && s.procs[t] == Idle && ReqOk(s.fs, r)
    ensures Gets(s, t, b) && Inv(b) && Alone(b, t) && b == State(s.fs, s.procs[t := HasBoth(r, o)])
  {
    assert FsOk(s.fs);
    hide Act, Inv, Gets, Plan, FsOk;
    GetsSelf(s, t);
    ActStart(s, t, r);
    var s1 := Go(s, t, s, s.fs, WantSem(r));
    var s2 := TakeLock(s, t, s1);
    o := SomePlan(s.fs, r);
    ActPlan(s2, t, r, o);
    var s3 := Go(s, t, s2, s.fs, WantFirst(r, o));
    var s4 := TakeLock(s, t, s3);
    OrderApart(s.fs.parent, r, o);
    b := TakeLock(s, t, s4);
    assert b.procs == s.procs[t := HasBoth(r, o)];
  }

  lemma SomePlan(f: Fs, r: Req) returns (o: Order)
    requires FsOk(f) && ReqOk(f, r)
    ensures Plan(f.parent, r.newDir, r.oldDir, o.first, o.second, o.trap)
  {
    var first, second, trap := PlanExists(f.parent, f.root, r.newDir, r.oldDir);
    o := Order(first, second, trap);
  }

  lemma OrderApart(parent: Tree, r: Req, o: Order)
    requires Plan(parent, r.newDir, r.oldDir, o.first, o.second, o.trap)
    ensures o.first != o.second
  {
  }

  /** From the look-ups to the changed file system. */
  lemma Renames(s: State, t: Tid, b: State, r: Req, o: Order) returns (e: State)
    requires Gets(s, t, b) && Inv(b) && Alone(b, t) && b.procs[t] == HasBoth(r, o) && PlanOk(b.fs, r, o) && MayRename(b.fs, r)
    ensures Gets(s, t, e) && Inv(e) && Alone(e, t) && r.Src() in b.fs.entries
    ensures e == State(Moved(b.fs, r, b.fs.entries[r.Src()]), b.procs[t := BothDone(r)])
  {
    assert FsOk(b.fs);
    var f := b.fs;
    var q := Passed(f, r, o);
    var c := f.entries[r.Src()];
    hide Act, Inv, Gets, PlanOk, Moved, RenameLookup, FsOk, Anc;
    ActLook(b, t, r, o, q);
    var s1 := Go(s, t, b, f, q);
    if q.WantTarget? {
      e := OverTarget(s, t, s1, r, o, c, q.x);
    } else {
      ActMove(s1, t, r, o, c);
      e := Go(s, t, s1, Moved(f, r, c), BothDone(r));
    }
    assert e.procs == b.procs[t := BothDone(r)];
  }

  /** Where a rename that may happen goes from the look-ups. */
  lemma Passed(f: Fs, r: Req, o: Order) returns (q: Proc)
    requires FsOk(f) && PlanOk(f, r, o) && MayRename(f, r)
    ensures RenameLookup(f, r, o, q)
    ensures r.Src() in f.entries
    ensures var c := f.entries[r.Src()];
            q == Ready(r, o, c) || (r.Dst() in f.entries && f.entries[r.Dst()] !in {r.oldDir, r.newDir} && q == WantTarget(r, o, c, f.entries[r.Dst()]))
  {
    TrapMeans(f, r, o, r.Src());
    var c := f.entries[r.Src()];
    q := Ready(r, o, c);
    if r.Dst() in f.entries {
      TrapMeans(f, r, o, r.Dst());
      TargetFree(f, r);
      q := WantTarget(r, o, c, f.entries[r.Dst()]);
    }
    hide FsOk, PlanOk, Anc;
  }

  /** With a target in the way: a directory is moved after the target is unlocked, another inode before. */
  lemma OverTarget(s: State, t: Tid, b: State, r: Req, o: Order, c: Node, x: Node) returns (e: State)
    requires Gets(s, t, b) && Inv(b) && Alone(b, t) && b.procs[t] == WantTarget(r, o, c, x) && x !in {r.oldDir, r.newDir}
    ensures Gets(s, t, e) && Inv(e) && Alone(e, t) && e == State(Moved(b.fs, r, c), b.procs[t := BothDone(r)])
  {
    hide Act, Inv, Gets, Moved;
    var s2 := TakeLock(s, t, b);
    ActTarget(s2, t, r, o, c, x);
    if c in b.fs.parent {
      var s3 := Go(s, t, s2, b.fs, Ready(r, o, c));
      ActMove(s3, t, r, o, c);
      e := Go(s, t, s3, Moved(b.fs, r, c), BothDone(r));
    } else {
      var s3 := Go(s, t, s2, Moved(b.fs, r, c), TargetDone(r, x));
      ActUnlock(s3, t);
      e := Go(s, t, s3, s3.fs, BothDone(r));
    }
    assert e.procs == b.procs[t := BothDone(r)];
  }

  /** The target is none of the two directories, which the thread holds. */
  lemma TargetFree(f: Fs, r: Req)
    requires FsOk(f) && r.oldDir in f.parent && r.newDir in f.parent && r.Dst() in f.entries && MayRename(f, r)
    ensures f.entries[r.Dst()] != r.oldDir && f.entries[r.Dst()] != r.newDir
  {
    var x := f.entries[r.Dst()];
    assert Child(f, f.entries[r.Dst()], r.newDir);
    AncSelf(f.parent, r.oldDir);
    if x in f.parent { ParentBelow(f.parent, f.root, x); }
    AncSelf(f.parent, r.newDir);
  }

  /** The unlocks. */
  lemma Unlocks(s: State, t: Tid, b: State, r: Req) returns (e: State)
    requires Gets(s, t, b) && Inv(b) && Alone(b, t) && b.procs[t] == BothDone(r)
    ensures Gets(s, t, e) && e == State(b.fs, b.procs[t := Idle])
  {
    hide Act, Inv, Gets;
    ActUnlock(b, t);
    var s1 := Go(s, t, b, b.fs, OldLeft(r));
    ActUnlock(s1, t);
    var s2 := Go(s, t, s1, b.fs, SemLeft);
    ActUnlock(s2, t);
    e := Go(s, t, s2, b.fs, Idle);
    assert e.procs == b.procs[t := Idle];
  }

  /**
   A rename that may happen can be carried through by its thread alone: the name has moved, a directory
   has its new parent, and all locks are free again.
   */
  lemma RenameCompletes(s: State, t: Tid, r: Req) returns (e: State)
    requires Inv(s) && Alone(s, t) && s.procs[t] == Idle && ReqOk(s.fs, r) && MayRename(s.fs, r)
    ensures Gets(s, t, e) && e.procs == s.procs && r.Src() in s.fs.entries && RenameDone(s.fs, e.fs, r, s.fs.entries[r.Src()])
    ensures forall l :: Free(e, l)
  {
    hide Inv, Gets, PlanOk, MayRename, Moved, RenameDone, ReqOk, Free, Anc, FsOk;
    FsFacts(s);
    MovedWhere(s.fs, r);
    AllFree(s, t);
    var b, o := LocksBoth(s, t, r);
    BothPlanned(b, t, r, o);
    hide Alone;
    var d := Renames(s, t, b, r, o);
    e := Unlocks(s, t, d, r);
    assert e.procs == s.procs;
    SameFree(s, e);
  }

  lemma FsFacts(s: State)
    requires Inv(s)
    ensures FsOk(s.fs)
  {
  }

  lemma SameFree(s: State, e: State)
    requires e.procs == s.procs && forall l :: Free(s, l)
    ensures forall l :: Free(e, l)
  {
    forall l ensures Free(e, l) { assert Free(s, l); }
  }

  lemma BothPlanned(b: State, t: Tid, r: Req, o: Order)
    requires Inv(b) && t in b.procs && b.procs[t] == HasBoth(r, o)
    ensures PlanOk(b.fs, r, o)
  {
    assert ProcOk(b.fs, b.procs[t]);
  }

  lemma MovedWhere(f: Fs, r: Req)
    requires FsOk(f) && ReqOk(f, r) && MayRename(f, r)
    ensures r.Src() in f.entries && RenameDone(f, Moved(f, r, f.entries[r.Src()]), r, f.entries[r.Src()])
  {
    hide FsOk, Anc;
    MovedDoes(f, r, f.entries[r.Src()]);
  }

  lemma AllFree(s: State, t: Tid)
    requires Alone(s, t) && s.procs[t] == Idle
    ensures forall l :: Free(s, l)
  {
  }

  // ---------------------------------------------------------------- operations inside one directory

  /** A name to make is free, a name to take away or to move is there, and a target is another inode of the same kind. */
  ghost predicate MayDo(f: Fs, d: Node, op: DirOp) {
    match op
    case Create(n, _) => (d, n) !in f.entries
    case Remove(n, isDir) => (d, n) in f.entries && (f.entries[(d, n)] in f.parent <==> isDir)
    case Link(n, file) => (d, n) !in f.entries && file in f.files
    case RenameSame(src, dst) =>
      && (d, src) in f.entries
      && ((d, dst) in f.entries ==> f.entries[(d, dst)] != f.entries[(d, src)] && SameKind(f, f.entries[(d, dst)], f.entries[(d, src)]))
  }

  lemma FreshNode(s: set<Node>) returns (x: Node)
    ensures x !in s
  {
    x := Above(s);
  }

  /** A number above all of a finite set. */
  ghost function Above(s: set<Node>): (x: Node)
    ensures forall y :: y in s ==> y < x
  {
    if exists y :: y in s then
      var y :| y in s;
      var x := Above(s - {y});
      assert s == s - {y} + {y};
      if x <= y then y + 1 else x
    else 0
  }

  /** With the directory locked: the operation takes effect, or goes for the child. */
  lemma DirGoesOn(f: Fs, d: Node, op: DirOp) returns (g: Fs, q: Proc)
    requires FsOk(f) && d in f.parent && MayDo(f, d, op)
    ensures DirStep(f, d, op, g, q)
    ensures (q == DirDone(d) && OpDone(f, g, d, op)) || (g == f && q.WantChild? && q.d == d && q.op == op && q.c != d && Looked(f, d, op))
  {
    match op {
      case Create(n, isDir) =>
        var x := FreshNode(f.parent.Keys + f.files);
        g, q := Created(f, d, n, isDir, x), DirDone(d);
        CreatedDoes(f, d, n, isDir, x);
      case Remove(n, isDir) =>
        g, q := f, WantChild(d, op, f.entries[(d, n)]);
        NotItself(f, (d, n));
      case Link(n, file) =>
        g, q := f, WantChild(d, op, file);
      case RenameSame(src, dst) =>
        if (d, dst) in f.entries {
          g, q := f, WantChild(d, op, f.entries[(d, dst)]);
          NotItself(f, (d, dst));
        } else {
          g, q := Renamed(f, d, src, dst), DirDone(d);
          RenamedDoes(f, d, src, dst);
        }
    }
  }

  /** A directory is no child of its own. */
  lemma NotItself(f: Fs, k: Slot)
    requires FsOk(f) && k in f.entries
    ensures f.entries[k] != k.0
  {
    assert Child(f, f.entries[k], k.0);
    var c := f.entries[k];
    if c in f.parent {
      AncSelf(f.parent, c);
      ParentBelow(f.parent, f.root, c);
    }
  }

  lemma ActDir(s: State, t: Tid, d: Node, op: DirOp, g: Fs, q: Proc)
    requires t in s.procs && s.procs[t] == InDir(d, op) && DirStep(s.fs, d, op, g, q)
    ensures Act(s, t, g, q)
  {
  }

  lemma ActEnter(s: State, t: Tid, d: Node, op: DirOp)
    requires t in s.procs && s.procs[t] == Idle && d in s.fs.parent && OpOk(s.fs, op)
    ensures Act(s, t, s.fs, WantDir(d, op))
  {
  }

  lemma ActChild(s: State, t: Tid, d: Node, op: DirOp, c: Node)
    requires t in s.procs && s.procs[t] == InChild(d, op, c)
    ensures if Late(s.fs, d, op) then Act(s, t, s.fs, ChildLeft(d, op, c)) else Act(s, t, Applied(s.fs, d, op), ChildDone(d, c))
  {
  }

  lemma ActLate(s: State, t: Tid, d: Node, op: DirOp, c: Node)
    requires t in s.procs && s.procs[t] == ChildLeft(d, op, c)
    ensures Act(s, t, Applied(s.fs, d, op), DirDone(d))
  {
  }

  /** Over the child: before it is unlocked or after. */
  lemma OverChild(s: State, t: Tid, b: State, d: Node, op: DirOp, c: Node) returns (e: State)
    requires Gets(s, t, b) && Inv(b) && Alone(b, t) && b.procs[t] == WantChild(d, op, c) && c != d
    ensures Gets(s, t, e) && Inv(e) && Alone(e, t) && e == State(Applied(b.fs, d, op), b.procs[t := DirDone(d)])
  {
    hide Act, Inv, Gets, Applied, Late;
    var s2 := TakeLock(s, t, b);
    ActChild(s2, t, d, op, c);
    if Late(b.fs, d, op) {
      var s3 := Go(s, t, s2, b.fs, ChildLeft(d, op, c));
      ActLate(s3, t, d, op, c);
      e := Go(s, t, s3, Applied(b.fs, d, op), DirDone(d));
    } else {
      var s3 := Go(s, t, s2, Applied(b.fs, d, op), ChildDone(d, c));
      ActUnlock(s3, t);
      e := Go(s, t, s3, s3.fs, DirDone(d));
    }
    assert e.procs == b.procs[t := DirDone(d)];
  }

  lemma Entered(s: State, t: Tid, d: Node, op: DirOp) returns (b: State)
    requires Inv(s) && Alone(s, t) && s.procs[t] == Idle && d in s.fs.parent && OpOk(s.fs, op)
    ensures Gets(s, t, b) && Inv(b) && Alone(b, t) && b == State(s.fs, s.procs[t := InDir(d, op)])
  {
    hide Act, Inv, Gets;
    GetsSelf(s, t);
    ActEnter(s, t, d, op);
    var s1 := Go(s, t, s, s.fs, WantDir(d, op));
    b := TakeLock(s, t, s1);
    assert b.procs == s.procs[t := InDir(d, op)];
  }

  lemma DirLeft(s: State, t: Tid, b: State, d: Node) returns (e: State)
    requires Gets(s, t, b) && Inv(b) && Alone(b, t) && b.procs[t] == DirDone(d)
    ensures Gets(s, t, e) && e == State(b.fs, b.procs[t := Idle])
  {
    hide Act, Inv, Gets;
    ActUnlock(b, t);
    e := Go(s, t, b, b.fs, Idle);
  }

  /** An operation inside a directory that may happen can be carried through by its thread alone. */
  lemma OperationCompletes(s: State, t: Tid, d: Node, op: DirOp) returns (e: State)
    requires Inv(s) && Alone(s, t) && s.procs[t] == Idle && d in s.fs.parent && MayDo(s.fs, d, op)
    ensures Gets(s, t, e) && e.procs == s.procs && OpDone(s.fs, e.fs, d, op)
    ensures forall l :: Free(e, l)
  {
    hide Inv, Gets, Act, FsOk, Free, OpDone, DirStep, Applied;
    FsFacts(s);
    AllFree(s, t);
    var b := Entered(s, t, d, op);
    var g, q := DirGoesOn(s.fs, d, op);
    ActDir(b, t, d, op, g, q);
    var m := Go(s, t, b, g, q);
    if q.WantChild? {
      AppliedDoes(s.fs, d, op);
      m := OverChild(s, t, m, d, op, q.c);
    }
    e := DirLeft(s, t, m, d);
    assert e.procs == s.procs;
    SameFree(s, e);
  }
}
