/**
 Directory operations running concurrently: create, unlink, rmdir, link and rename inside one
 directory take the parent's semaphore and then the child's; a rename across directories takes the
 file-system-wide rename semaphore, then both parents in the order of `lock_rename`, then the
 target.  One program counter per thread; every `down` is a separate step.
 */
module RenameLocks {
  import opened Options
  import opened DirTree
  import opened WaitGraph

  type Name = int
  type Tid = int
  type Slot = (Node, Name)

  datatype Lock = RenameSem | ISem(node: Node)

  datatype DirOp =
    | Create(n: Name, isDir: bool)
    | Remove(n: Name, isDir: bool)
    | Link(n: Name, file: Node)
    | RenameSame(src: Name, dst: Name)

  datatype Req = Req(oldDir: Node, oldName: Name, newDir: Node, newName: Name) {
    function Src(): Slot { (oldDir, oldName) }
    function Dst(): Slot { (newDir, newName) }
  }

  datatype Order = Order(first: Node, second: Node, trap: Option<Node>)

  datatype Proc =
    | Idle
    | WantDir(d: Node, op: DirOp)
    | InDir(d: Node, op: DirOp)
    | WantChild(d: Node, op: DirOp, c: Node)
    | InChild(d: Node, op: DirOp, c: Node)
    | ChildDone(d: Node, c: Node)
    | ChildLeft(d: Node, op: DirOp, c: Node)
    | DirDone(d: Node)
    | WantSem(r: Req)
    | HasSem(r: Req)
    | WantFirst(r: Req, o: Order)
    | WantSecond(r: Req, o: Order)
    | HasBoth(r: Req, o: Order)
    | WantTarget(r: Req, o: Order, c: Node, x: Node)
    | HasTarget(r: Req, o: Order, c: Node, x: Node)
    | TargetDone(r: Req, x: Node)
    | Ready(r: Req, o: Order, c: Node)
    | BothDone(r: Req)
    | OldLeft(r: Req)
    | SemLeft

  /** `parent` holds the directories, dead ones included; `entries` what a lookup finds. */
  datatype Fs = Fs(root: Node, parent: Tree, files: set<Node>, entries: map<Slot, Node>)

  datatype State = State(fs: Fs, procs: map<Tid, Proc>)

  function Held(p: Proc): set<Lock> {
    match p
    case Idle => {}
    case WantDir(_, _) => {}
    case InDir(d, _) => {ISem(d)}
    case WantChild(d, _, _) => {ISem(d)}
    case InChild(d, _, c) => {ISem(d), ISem(c)}
    case ChildDone(d, c) => {ISem(d), ISem(c)}
    case ChildLeft(d, _, _) => {ISem(d)}
    case DirDone(d) => {ISem(d)}
    case WantSem(_) => {}
    case HasSem(_) => {RenameSem}
    case WantFirst(_, _) => {RenameSem}
    case WantSecond(_, o) => {RenameSem, ISem(o.first)}
    case HasBoth(r, _) => {RenameSem, ISem(r.oldDir), ISem(r.newDir)}
    case WantTarget(r, _, _, _) => {RenameSem, ISem(r.oldDir), ISem(r.newDir)}
    case HasTarget(r, _, _, x) => {RenameSem, ISem(r.oldDir), ISem(r.newDir), ISem(x)}
    case TargetDone(r, x) => {RenameSem, ISem(r.oldDir), ISem(r.newDir), ISem(x)}
    case Ready(r, _, _) => {RenameSem, ISem(r.oldDir), ISem(r.newDir)}
    case BothDone(r) => {RenameSem, ISem(r.oldDir), ISem(r.newDir)}
    case OldLeft(r) => {RenameSem, ISem(r.oldDir)}
    case SemLeft => {RenameSem}
  }

  function Waits(p: Proc): Option<Lock> {
    match p
    case WantDir(d, _) => Some(ISem(d))
    case WantChild(_, _, c) => Some(ISem(c))
    case WantSem(_) => Some(RenameSem)
    case WantFirst(_, o) => Some(ISem(o.first))
    case WantSecond(_, o) => Some(ISem(o.second))
    case WantTarget(_, _, _, x) => Some(ISem(x))
    case _ => None
  }

  ghost predicate Free(s: State, l: Lock) {
    forall u :: u in s.procs ==> l !in Held(s.procs[u])
  }

  // ---------------------------------------------------------------- effects on the tree

  function Created(f: Fs, d: Node, n: Name, isDir: bool, x: Node): Fs {
    var g := f.(entries := f.entries[(d, n) := x]);
    if isDir then g.(parent := f.parent[x := d]) else g.(files := f.files + {x})
  }

  /** `d_move` inside one directory. */
  function Renamed(f: Fs, d: Node, src: Name, dst: Name): Fs {
    if (d, src) in f.entries then
      f.(entries := (f.entries - {(d, src)})[(d, dst) := f.entries[(d, src)]])
    else f
  }

  function Applied(f: Fs, d: Node, op: DirOp): Fs {
    match op
    case Create(_, _) => f
    case Remove(n, _) => f.(entries := f.entries - {(d, n)})
    case Link(n, file) => f.(entries := f.entries[(d, n) := file])
    case RenameSame(src, dst) => Renamed(f, d, src, dst)
  }

  /**
   A removal takes the name away, and a directory is moved, only after the child is unlocked; a
   link and the rename of another inode take effect before.
   */
  ghost predicate Late(f: Fs, d: Node, op: DirOp) {
    op.Remove? || (op.RenameSame? && (d, op.src) in f.entries && f.entries[(d, op.src)] in f.parent)
  }

  /** `d_move` across directories: the source takes the target's parent and name. */
  function Moved(f: Fs, r: Req, c: Node): Fs {
    var g := f.(entries := (f.entries - {r.Src()})[r.Dst() := c]);
    if c in f.parent then g.(parent := f.parent[c := r.newDir]) else g
  }

  // ---------------------------------------------------------------- steps

  ghost predicate OpOk(f: Fs, op: DirOp) { op.Link? ==> op.file in f.files }

  ghost predicate ReqOk(f: Fs, r: Req) {
    r.oldDir in f.parent && r.newDir in f.parent && r.oldDir != r.newDir
  }

  ghost predicate SameKind(f: Fs, x: Node, c: Node) { x in f.parent <==> c in f.parent }

  /** With the directory locked: look the name up, then act, go for the child, or give up. */
  ghost predicate DirStep(f: Fs, d: Node, op: DirOp, g: Fs, q: Proc) {
    || (g == f && q == DirDone(d))
    || match op
       case Create(n, isDir) =>
         && q == DirDone(d) && (d, n) !in f.entries
         && exists x :: x !in f.parent && x !in f.files && g == Created(f, d, n, isDir, x)
       case Remove(n, isDir) =>
         && g == f && (d, n) in f.entries && (f.entries[(d, n)] in f.parent <==> isDir)
         && q == WantChild(d, op, f.entries[(d, n)])
       case Link(n, file) => g == f && (d, n) !in f.entries && q == WantChild(d, op, file)
       case RenameSame(src, dst) =>
         && (d, src) in f.entries
         && if (d, dst) in f.entries then
              && g == f && f.entries[(d, dst)] != f.entries[(d, src)]
              && SameKind(f, f.entries[(d, dst)], f.entries[(d, src)])
              && q == WantChild(d, op, f.entries[(d, dst)])
            else q == DirDone(d) && g == Renamed(f, d, src, dst)
  }

  /** With both parents locked: look both names up and check them against the trap. */
  ghost predicate RenameLookup(f: Fs, r: Req, o: Order, q: Proc) {
    || q == BothDone(r)
    || (&& r.Src() in f.entries && o.trap != Some(f.entries[r.Src()])
        && var c := f.entries[r.Src()];
           if r.Dst() in f.entries then
             var x := f.entries[r.Dst()];
             x != c && o.trap != Some(x) && SameKind(f, x, c) && q == WantTarget(r, o, c, x)
           else q == Ready(r, o, c))
  }

  /** Thread `t` moves on: the file system becomes `g`, its program counter `q`. */
  ghost predicate Act(s: State, t: Tid, g: Fs, q: Proc)
    requires t in s.procs
  {
    var f := s.fs;
    match s.procs[t]
    case Idle => g == f && ((q.WantDir? && q.d in f.parent && OpOk(f, q.op)) || (q.WantSem? && ReqOk(f, q.r)))
    case WantDir(d, op) => g == f && Free(s, ISem(d)) && q == InDir(d, op)
    case InDir(d, op) => DirStep(f, d, op, g, q)
    case WantChild(d, op, c) => g == f && Free(s, ISem(c)) && q == InChild(d, op, c)
    case InChild(d, op, c) =>
      if Late(f, d, op) then g == f && (q == ChildLeft(d, op, c) || q == ChildDone(d, c))
      else (g == f || g == Applied(f, d, op)) && q == ChildDone(d, c)
    case ChildDone(d, c) => g == f && q == DirDone(d)
    case ChildLeft(d, op, c) => g == Applied(f, d, op) && q == DirDone(d)
    case DirDone(d) => g == f && q == Idle
    case WantSem(r) => g == f && Free(s, RenameSem) && q == HasSem(r)
    case HasSem(r) => g == f && q.WantFirst? && q.r == r && Plan(f.parent, r.newDir, r.oldDir, q.o.first, q.o.second, q.o.trap)
    case WantFirst(r, o) => g == f && Free(s, ISem(o.first)) && q == WantSecond(r, o)
    case WantSecond(r, o) => g == f && Free(s, ISem(o.second)) && q == HasBoth(r, o)
    case HasBoth(r, o) => g == f && RenameLookup(f, r, o, q)
    case WantTarget(r, o, c, x) => g == f && Free(s, ISem(x)) && q == HasTarget(r, o, c, x)
    case HasTarget(r, o, c, x) =>
      // a directory is moved after its target is unlocked, another inode before
      if c in f.parent then g == f && (q == Ready(r, o, c) || q == BothDone(r))
      else (g == f || g == Moved(f, r, c)) && q == TargetDone(r, x)
    case TargetDone(r, x) => g == f && q == BothDone(r)
    case Ready(r, o, c) => (g == f || g == Moved(f, r, c)) && q == BothDone(r)
    case BothDone(r) => g == f && q == OldLeft(r)
    case OldLeft(r) => g == f && q == SemLeft
    case SemLeft => g == f && q == Idle
  }

  ghost predicate Step(s: State, t: Tid, s': State) {
    && t in s.procs && t in s'.procs
    && Act(s, t, s'.fs, s'.procs[t]) && s'.procs == s.procs[t := s'.procs[t]]
  }

  // ---------------------------------------------------------------- invariant

  /** `c` may be found in directory `d`. */
  ghost predicate Child(f: Fs, c: Node, d: Node) {
    c in f.files || (c in f.parent && c != f.root && f.parent[c] == d)
  }

  ghost predicate Unlisted(E: map<Slot, Node>, c: Node) {
    forall k: Slot {:trigger E[k]} :: k in E ==> E[k] != c
  }

  /** Entries lead to children, and a directory is found under one name only. */
  ghost predicate EntriesOk(f: Fs) {
    && (forall k: Slot {:trigger f.entries[k]} :: k in f.entries ==> k.0 in f.parent && Child(f, f.entries[k], k.0))
    && (forall k: Slot, l: Slot {:trigger f.entries[k], f.entries[l]} ::
          k in f.entries && l in f.entries && f.entries[k] == f.entries[l] && f.entries[k] in f.parent ==> k == l)
  }

  ghost predicate FsOk(f: Fs) {
    IsTree(f.parent, f.root) && Closed(f.parent) && f.files !! f.parent.Keys && EntriesOk(f)
  }

  lemma DropOk(f: Fs, k: Slot)
    requires EntriesOk(f)
    ensures EntriesOk(f.(entries := f.entries - {k}))
    ensures k in f.entries && f.entries[k] in f.parent ==> Unlisted(f.entries - {k}, f.entries[k])
  {
  }

  lemma PutOk(f: Fs, k: Slot, c: Node)
    requires EntriesOk(f) && k.0 in f.parent && Child(f, c, k.0)
    requires c in f.parent ==> Unlisted(f.entries, c)
    ensures EntriesOk(f.(entries := f.entries[k := c]))
  {
  }

  /** New directories and files disturb no entry; a directory without an entry may move. */
  lemma GrowOk(f: Fs, g: Fs, x: Node)
    requires EntriesOk(f) && f.files !! f.parent.Keys && g.entries == f.entries && g.root == f.root
    requires forall y :: y in f.parent ==> y in g.parent && (y != x ==> g.parent[y] == f.parent[y])
    requires forall y :: y in g.parent ==> y in f.parent || y == x
    requires f.files <= g.files && Unlisted(f.entries, x)
    ensures EntriesOk(g)
  {
    forall k: Slot | k in g.entries ensures k.0 in g.parent && Child(g, g.entries[k], k.0) {
      assert Child(f, f.entries[k], k.0);
    }
  }

  ghost predicate At(f: Fs, k: Slot, c: Node) { k in f.entries && f.entries[k] == c }

  /** What a thread that has looked up `c` relies on while it waits for it or holds it. */
  ghost predicate Pending(f: Fs, d: Node, op: DirOp, c: Node) {
    match op
    case Create(_, _) => false
    case Remove(n, isDir) => At(f, (d, n), c) && (c in f.parent <==> isDir)
    case Link(n, file) => c == file && file in f.files && (d, n) !in f.entries
    case RenameSame(src, dst) => (d, src) in f.entries && At(f, (d, dst), c) && f.entries[(d, src)] != c
  }

  ghost predicate PlanOk(f: Fs, r: Req, o: Order) {
    ReqOk(f, r) && Plan(f.parent, r.newDir, r.oldDir, o.first, o.second, o.trap)
  }

  ghost predicate ProcOk(f: Fs, p: Proc) {
    match p
    case WantDir(d, op) => d in f.parent && OpOk(f, op)
    case InDir(d, op) => d in f.parent && OpOk(f, op)
    case WantChild(d, op, c) => d in f.parent && Child(f, c, d) && Pending(f, d, op, c)
    case InChild(d, op, c) => d in f.parent && Child(f, c, d) && Pending(f, d, op, c)
    case ChildLeft(d, op, c) => d in f.parent && Child(f, c, d) && Pending(f, d, op, c) && !op.Link?
    case WantSem(r) => ReqOk(f, r)
    case HasSem(r) => ReqOk(f, r)
    case WantFirst(r, o) => PlanOk(f, r, o)
    case WantSecond(r, o) => PlanOk(f, r, o)
    case HasBoth(r, o) => PlanOk(f, r, o)
    case WantTarget(r, o, c, x) => PlanOk(f, r, o) && At(f, r.Src(), c) && At(f, r.Dst(), x) && o.trap != Some(c) && o.trap != Some(x)
    case HasTarget(r, o, c, x) => PlanOk(f, r, o) && At(f, r.Src(), c) && At(f, r.Dst(), x) && o.trap != Some(c)
    case Ready(r, o, c) => PlanOk(f, r, o) && At(f, r.Src(), c) && o.trap != Some(c)
    case _ => true
  }

  ghost predicate Mutex(s: State) {
    forall t, u :: t in s.procs && u in s.procs && t != u ==> Held(s.procs[t]) !! Held(s.procs[u])
  }

  ghost predicate Inv(s: State) {
    && FsOk(s.fs) && Mutex(s)
    && forall t :: t in s.procs ==> ProcOk(s.fs, s.procs[t])
  }

  // ---------------------------------------------------------------- what a step may change

  /**
   Directories are never forgotten; only the holder of the rename semaphore and of a directory's
   semaphore moves its children; only the holder of a directory's semaphore changes its entries.
   */
  ghost predicate Frame(f: Fs, g: Fs, held: set<Lock>) {
    && g.root == f.root && f.files <= g.files
    && (forall x :: x in f.parent ==> x in g.parent)
    && (forall x {:trigger g.parent[x]} ::
          x in f.parent && g.parent[x] != f.parent[x] ==> RenameSem in held && ISem(f.parent[x]) in held)
    && (forall k: Slot {:trigger k in g.entries} {:trigger k in f.entries} :: ISem(k.0) !in held ==>
          ((k in f.entries <==> k in g.entries) && (k in f.entries ==> f.entries[k] == g.entries[k])))
  }

  lemma FrameRefl(f: Fs, held: set<Lock>)
    ensures Frame(f, f, held)
  {
  }

  lemma FreshUnlisted(f: Fs, x: Node)
    requires EntriesOk(f) && x !in f.parent && x !in f.files
    ensures Unlisted(f.entries, x)
  {
    forall k: Slot | k in f.entries ensures f.entries[k] != x {
      assert Child(f, f.entries[k], k.0);
    }
  }

  lemma CreatedOk(f: Fs, d: Node, n: Name, isDir: bool, x: Node)
    requires FsOk(f) && d in f.parent && (d, n) !in f.entries && x !in f.parent && x !in f.files
    ensures var g := Created(f, d, n, isDir, x); FsOk(g) && Frame(f, g, {ISem(d)})
  {
    var h := Grown(f, d, isDir, x);
    GrownOk(f, d, isDir, x);
    hide FsOk, Frame;
    NamedOk(h, (d, n), x);
    CreatedFrame(f, d, n, isDir, x);
    assert Created(f, d, n, isDir, x) == h.(entries := h.entries[(d, n) := x]);
  }

  /** The new inode, without its name. */
  function Grown(f: Fs, d: Node, isDir: bool, x: Node): Fs {
    if isDir then f.(parent := f.parent[x := d]) else f.(files := f.files + {x})
  }

  lemma GrownOk(f: Fs, d: Node, isDir: bool, x: Node)
    requires FsOk(f) && d in f.parent && x !in f.parent && x !in f.files
    ensures var h := Grown(f, d, isDir, x);
            FsOk(h) && d in h.parent && Unlisted(h.entries, x) && Child(h, x, d)
  {
    if isDir { GrownDir(f, d, x); } else { GrownFile(f, d, x); }
  }

  lemma GrownDir(f: Fs, d: Node, x: Node)
    requires FsOk(f) && d in f.parent && x !in f.parent && x !in f.files
    ensures var h := Grown(f, d, true, x);
            FsOk(h) && d in h.parent && Unlisted(h.entries, x) && Child(h, x, d)
  {
    hide IsTree, Unlisted, EntriesOk;
    RootInTree(f.parent, f.root);
    FreshUnlisted(f, x);
    AddKeepsTree(f.parent, f.root, x, d);
    GrowOk(f, Grown(f, d, true, x), x);
    ClosedMore(f.parent, x, d);
  }

  lemma ClosedMore(parent: Tree, x: Node, d: Node)
    requires Closed(parent) && d in parent
    ensures Closed(parent[x := d])
  {
  }

  lemma GrownFile(f: Fs, d: Node, x: Node)
    requires FsOk(f) && d in f.parent && x !in f.parent && x !in f.files
    ensures var h := Grown(f, d, false, x);
            FsOk(h) && d in h.parent && Unlisted(h.entries, x) && Child(h, x, d)
  {
    FreshUnlisted(f, x);
    hide IsTree, Unlisted;
    GrowOk(f, Grown(f, d, false, x), x);
    hide EntriesOk;
  }

  lemma NamedOk(h: Fs, k: Slot, x: Node)
    requires FsOk(h) && k.0 in h.parent && Child(h, x, k.0) && Unlisted(h.entries, x)
    ensures FsOk(h.(entries := h.entries[k := x]))
  {
    PutOk(h, k, x);
    hide EntriesOk, IsTree;
  }

  lemma CreatedFrame(f: Fs, d: Node, n: Name, isDir: bool, x: Node)
    requires d in f.parent && x !in f.parent
    ensures Frame(f, Created(f, d, n, isDir, x), {ISem(d)})
  {
  }

  lemma RenamedOk(f: Fs, d: Node, src: Name, dst: Name)
    requires FsOk(f) && d in f.parent && (d, src) in f.entries
    ensures var g := Renamed(f, d, src, dst); FsOk(g) && Frame(f, g, {ISem(d)})
  {
    var c := f.entries[(d, src)];
    assert Child(f, c, d);
    DropOk(f, (d, src));
    PutOk(f.(entries := f.entries - {(d, src)}), (d, dst), c);
  }

  lemma AppliedOk(f: Fs, d: Node, op: DirOp, c: Node)
    requires FsOk(f) && d in f.parent && Pending(f, d, op, c)
    ensures var g := Applied(f, d, op); FsOk(g) && Frame(f, g, {ISem(d)})
  {
    match op {
      case Remove(n, _) => DropOk(f, (d, n));
      case Link(n, file) => PutOk(f, (d, n), file);
      case RenameSame(src, dst) => RenamedOk(f, d, src, dst);
    }
  }

  /** The move of a source that is not the trap keeps the tree. */
  lemma MovedOk(f: Fs, r: Req, o: Order, c: Node)
    requires FsOk(f) && PlanOk(f, r, o) && At(f, r.Src(), c) && o.trap != Some(c)
    ensures var g := Moved(f, r, c); FsOk(g) && Frame(f, g, {RenameSem, ISem(r.oldDir), ISem(r.newDir)})
  {
    assert Child(f, f.entries[r.Src()], r.oldDir);
    DropOk(f, r.Src());
    var h := f.(entries := f.entries - {r.Src()});
    if c in f.parent {
      TrapExact(f.parent, f.root, r.newDir, r.oldDir, o.trap, c);
      MoveKeepsTree(f.parent, f.root, c, r.newDir);
      var m := h.(parent := f.parent[c := r.newDir]);
      GrowOk(h, m, c);
      PutOk(m, r.Dst(), c);
    } else {
      PutOk(h, r.Dst(), c);
    }
  }

  // ---------------------------------------------------------------- steps keep the invariant

  lemma FrameMore(f: Fs, g: Fs, held: set<Lock>, more: set<Lock>)
    requires Frame(f, g, held) && held <= more
    ensures Frame(f, g, more)
  {
  }

  lemma DirStepOk(f: Fs, d: Node, op: DirOp, g: Fs, q: Proc)
    requires FsOk(f) && d in f.parent && OpOk(f, op) && DirStep(f, d, op, g, q)
    ensures FsOk(g) && Frame(f, g, {ISem(d)}) && ProcOk(g, q) && Held(q) == {ISem(d)}
  {
    hide IsTree, Closed;
    if g == f {
      FrameRefl(f, {ISem(d)});
      if q.WantChild? && op.Remove? { assert Child(f, f.entries[(d, op.n)], d); }
      if q.WantChild? && op.RenameSame? { assert Child(f, f.entries[(d, op.dst)], d); }
    } else if op.Create? {
      var x :| x !in f.parent && x !in f.files && g == Created(f, d, op.n, op.isDir, x);
      CreatedOk(f, d, op.n, op.isDir, x);
    } else {
      RenamedOk(f, d, op.src, op.dst);
    }
  }

  /** The acting thread keeps the file system and changes only what its locks cover. */
  lemma ActFs(s: State, t: Tid, g: Fs, q: Proc)
    requires Inv(s) && t in s.procs && Act(s, t, g, q)
    ensures FsOk(g) && Frame(s.fs, g, Held(s.procs[t]))
  {
    hide FsOk, Plan;
    var f, p := s.fs, s.procs[t];
    assert ProcOk(f, p);
    if g == f {
      FrameRefl(f, Held(p));
    } else {
      match p {
        case InDir(d, op) => DirStepOk(f, d, op, g, q);
        case InChild(d, op, c) =>
          AppliedOk(f, d, op, c);
          FrameMore(f, g, {ISem(d)}, Held(p));
        case ChildLeft(d, op, c) => AppliedOk(f, d, op, c);
        case HasTarget(r, o, c, x) =>
          MovedOk(f, r, o, c);
          FrameMore(f, g, {RenameSem, ISem(r.oldDir), ISem(r.newDir)}, Held(p));
        case Ready(r, o, c) => MovedOk(f, r, o, c);
      }
    }
  }

  /** ... has what its next program counter relies on ... */
  lemma ActProc(s: State, t: Tid, g: Fs, q: Proc)
    requires Inv(s) && t in s.procs && Act(s, t, g, q)
    ensures ProcOk(g, q)
  {
    hide FsOk, Plan;
    var f, p := s.fs, s.procs[t];
    assert ProcOk(f, p);
    if p.InDir? { DirStepOk(f, p.d, p.op, g, q); }
  }

  /** ... and acquires only locks that were free. */
  lemma ActLocks(s: State, t: Tid, g: Fs, q: Proc)
    requires Inv(s) && t in s.procs && Act(s, t, g, q)
    ensures forall l :: l in Held(q) ==> l in Held(s.procs[t]) || Free(s, l)
  {
    var p := s.procs[t];
    if p.InDir? {
      assert ProcOk(s.fs, p);
      hide FsOk, Free, DirStep;
      DirStepOk(s.fs, p.d, p.op, g, q);
    } else if p.HasBoth? || p.HasTarget? || p.HasSem? {
      RenameActLocks(s, t, g, q);
    } else {
      assert ProcOk(s.fs, p);
      PlainActLocks(s, t, g, q);
    }
  }

  lemma PlainActLocks(s: State, t: Tid, g: Fs, q: Proc)
    requires t in s.procs && Act(s, t, g, q) && ProcOk(s.fs, s.procs[t]) && !s.procs[t].InDir? && !s.procs[t].HasBoth? && !s.procs[t].HasTarget? && !s.procs[t].HasSem?
    ensures forall l :: l in Held(q) ==> l in Held(s.procs[t]) || Free(s, l)
  {
    hide Free, Moved, Applied, Late, Child, Pending, OpOk, ReqOk, Anc, TrapFor;
  }

  lemma RenameActLocks(s: State, t: Tid, g: Fs, q: Proc)
    requires t in s.procs && Act(s, t, g, q) && (s.procs[t].HasBoth? || s.procs[t].HasTarget? || s.procs[t].HasSem?)
    ensures forall l :: l in Held(q) ==> l in Held(s.procs[t]) || Free(s, l)
  {
    hide Free, Moved, Plan;
  }

  lemma PlanFrame(f: Fs, g: Fs, held: set<Lock>, r: Req, o: Order)
    requires FsOk(f) && FsOk(g) && Frame(f, g, held) && RenameSem !in held && PlanOk(f, r, o)
    ensures PlanOk(g, r, o)
  {
    PlanExtends(f.parent, g.parent, r.newDir, r.oldDir, o.first, o.second, o.trap);
  }

  /** What a thread knows survives the steps of threads that hold none of its locks. */
  lemma ProcFrame(f: Fs, g: Fs, held: set<Lock>, p: Proc)
    requires FsOk(f) && FsOk(g) && Frame(f, g, held) && held !! Held(p) && ProcOk(f, p)
    ensures ProcOk(g, p)
  {
    if p.WantFirst? || p.WantSecond? || p.HasBoth? || p.WantTarget? || p.HasTarget? || p.Ready? {
      RenameFrame(f, g, held, p);
    } else {
      DirFrame(f, g, held, p);
    }
  }

  lemma DirFrame(f: Fs, g: Fs, held: set<Lock>, p: Proc)
    requires FsOk(f) && FsOk(g) && Frame(f, g, held) && held !! Held(p) && ProcOk(f, p)
    requires !(p.WantFirst? || p.WantSecond? || p.HasBoth? || p.WantTarget? || p.HasTarget? || p.Ready?)
    ensures ProcOk(g, p)
  {
    hide Plan, EntriesOk, IsTree, PlanOk;
    match p {
      case WantChild(d, op, c) => assert c in f.parent ==> c in g.parent;
      case InChild(d, op, c) => assert c in f.parent ==> c in g.parent;
      case ChildLeft(d, op, c) => assert c in f.parent ==> c in g.parent;
      case _ =>
    }
  }

  lemma RenameFrame(f: Fs, g: Fs, held: set<Lock>, p: Proc)
    requires FsOk(f) && FsOk(g) && Frame(f, g, held) && held !! Held(p) && ProcOk(f, p)
    requires p.WantFirst? || p.WantSecond? || p.HasBoth? || p.WantTarget? || p.HasTarget? || p.Ready?
    ensures ProcOk(g, p)
  {
    assert RenameSem in Held(p);
    PlanFrame(f, g, held, p.r, p.o);
    hide PlanOk, FsOk, Frame, At;
    if p.WantTarget? || p.HasTarget? || p.Ready? {
      RenameSlots(f, p);
      SlotFrame(f, g, held, p.r.Src());
      SlotFrame(f, g, held, p.r.Dst());
    }
  }

  lemma SlotFrame(f: Fs, g: Fs, held: set<Lock>, k: Slot)
    requires Frame(f, g, held) && ISem(k.0) !in held
    ensures forall c :: At(f, k, c) ==> At(g, k, c)
  {
  }

  /** Past the look-ups both directories are held. */
  lemma RenameSlots(f: Fs, p: Proc)
    requires ProcOk(f, p) && (p.WantTarget? || p.HasTarget? || p.Ready?)
    ensures ISem(p.r.Src().0) in Held(p) && ISem(p.r.Dst().0) in Held(p)
  {
  }

  // ---------------------------------------------------------------- what the operations do to the names

  /** Outside these two names nothing is entered, dropped or changed. */
  ghost predicate SameNames(f: Fs, g: Fs, a: Slot, b: Slot) {
    forall k: Slot {:trigger k in f.entries} {:trigger k in g.entries} :: k != a && k != b ==>
      (k in g.entries <==> k in f.entries) && (k in f.entries ==> g.entries[k] == f.entries[k])
  }

  /** Inode `c` has the name `dst` and no longer the name `src`; whatever had the name `dst` has lost it. */
  ghost predicate NameMoved(f: Fs, g: Fs, src: Slot, dst: Slot, c: Node) {
    At(f, src, c) && At(g, dst, c) && src !in g.entries && SameNames(f, g, src, dst)
  }

  /** A rename across directories: the name moves, and a directory gets its new parent; nothing else changes. */
  ghost predicate RenameDone(f: Fs, g: Fs, r: Req, c: Node) {
    && NameMoved(f, g, r.Src(), r.Dst(), c)
    && g.root == f.root && g.files == f.files && g.parent.Keys == f.parent.Keys
    && (forall x :: x in f.parent && x != c ==> g.parent[x] == f.parent[x])
    && (c in f.parent ==> g.parent[c] == r.newDir)
  }

  /** A new inode, a directory below `d` or a file, that has this name. */
  ghost predicate CreateDone(f: Fs, g: Fs, k: Slot, isDir: bool, x: Node) {
    && k !in f.entries && At(g, k, x) && SameNames(f, g, k, k) && x !in f.parent && x !in f.files
    && g.root == f.root && (forall y :: y in f.parent ==> y in g.parent && g.parent[y] == f.parent[y])
    && g.parent.Keys == f.parent.Keys + (if isDir then {x} else {}) && (isDir ==> g.parent[x] == k.0)
    && g.files == f.files + if isDir then {} else {x}
  }

  /** What an operation inside directory `d` does once it succeeds. */
  ghost predicate OpDone(f: Fs, g: Fs, d: Node, op: DirOp) {
    match op
    case Create(n, isDir) => exists x :: CreateDone(f, g, (d, n), isDir, x)
    case Remove(n, isDir) =>
      && g == f.(entries := g.entries) && (d, n) in f.entries && (f.entries[(d, n)] in f.parent <==> isDir)
      && (d, n) !in g.entries && SameNames(f, g, (d, n), (d, n))
    case Link(n, file) =>
      && g == f.(entries := g.entries) && (d, n) !in f.entries && file in f.files
      && At(g, (d, n), file) && SameNames(f, g, (d, n), (d, n))
    case RenameSame(src, dst) =>
      g == f.(entries := g.entries) && (d, src) in f.entries && NameMoved(f, g, (d, src), (d, dst), f.entries[(d, src)])
  }

  lemma MovedDoes(f: Fs, r: Req, c: Node)
    requires At(f, r.Src(), c) && r.oldDir != r.newDir
    ensures RenameDone(f, Moved(f, r, c), r, c)
  {
  }

  lemma CreatedDoes(f: Fs, d: Node, n: Name, isDir: bool, x: Node)
    requires (d, n) !in f.entries && x !in f.parent && x !in f.files
    ensures CreateDone(f, Created(f, d, n, isDir, x), (d, n), isDir, x)
  {
  }

  lemma RenamedDoes(f: Fs, d: Node, src: Name, dst: Name)
    requires (d, src) in f.entries && src != dst
    ensures OpDone(f, Renamed(f, d, src, dst), d, RenameSame(src, dst))
  {
  }

  /** What a thread that waits for a child, or holds it, knows of the names. */
  ghost predicate Looked(f: Fs, d: Node, op: DirOp) {
    match op
    case Create(_, _) => false
    case Remove(n, isDir) => (d, n) in f.entries && (f.entries[(d, n)] in f.parent <==> isDir)
    case Link(n, file) => (d, n) !in f.entries && file in f.files
    case RenameSame(src, dst) => (d, src) in f.entries && src != dst
  }

  lemma AppliedDoes(f: Fs, d: Node, op: DirOp)
    requires Looked(f, d, op)
    ensures OpDone(f, Applied(f, d, op), d, op)
  {
    if op.RenameSame? { RenamedDoes(f, d, op.src, op.dst); }
  }

  /** The file-system change a step of a thread that is here may make. */
  ghost predicate Change(f: Fs, g: Fs, p: Proc) {
    match p
    case InDir(d, op) => (op.Create? || op.RenameSame?) && ISem(d) in Held(p) && OpDone(f, g, d, op)
    case InChild(d, op, c) => (op.Link? || op.RenameSame?) && ISem(d) in Held(p) && ISem(c) in Held(p) && OpDone(f, g, d, op)
    case ChildLeft(d, op, c) => (op.Remove? || op.RenameSame?) && ISem(d) in Held(p) && OpDone(f, g, d, op)
    case HasTarget(r, o, c, x) =>
      && {RenameSem, ISem(r.oldDir), ISem(r.newDir), ISem(x)} <= Held(p) && At(f, r.Dst(), x) && c !in f.parent && RenameDone(f, g, r, c)
    case Ready(r, o, c) => {RenameSem, ISem(r.oldDir), ISem(r.newDir)} <= Held(p) && RenameDone(f, g, r, c)
    case _ => false
  }

  /** A step that changes the file system does exactly what the operation of its thread asks for, under the locks for it. */
  lemma StepDoes(s: State, t: Tid, s': State)
    requires Inv(s) && Step(s, t, s') && s'.fs != s.fs
    ensures Change(s.fs, s'.fs, s.procs[t])
  {
    var f, p, g := s.fs, s.procs[t], s'.fs;
    assert ProcOk(f, p);
    hide IsTree, Closed, EntriesOk, Plan, OpDone, RenameDone, Applied, Moved, Created, Renamed;
    match p {
      case InDir(d, op) => DirStepDoes(f, d, op, g, s'.procs[t]);
      case InChild(d, op, c) => AppliedDoes(f, d, op);
      case ChildLeft(d, op, c) => AppliedDoes(f, d, op);
      case HasTarget(r, o, c, x) => MovedDoes(f, r, c);
      case Ready(r, o, c) => MovedDoes(f, r, c);
      case _ =>
    }
  }

  lemma DirStepDoes(f: Fs, d: Node, op: DirOp, g: Fs, q: Proc)
    requires DirStep(f, d, op, g, q) && g != f
    ensures (op.Create? || op.RenameSame?) && OpDone(f, g, d, op)
  {
    hide Created, Renamed, CreateDone, SameNames, NameMoved;
    if op.Create? {
      var x :| x !in f.parent && x !in f.files && g == Created(f, d, op.n, op.isDir, x);
      CreatedDoes(f, d, op.n, op.isDir, x);
    } else {
      RenamedDoes(f, d, op.src, op.dst);
    }
  }

  /** A thread that waits goes on with exactly the lock it waited for, which was free; no other step takes one. */
  lemma StepLocks(s: State, t: Tid, s': State)
    requires Inv(s) && Step(s, t, s')
    ensures match Waits(s.procs[t])
            case Some(l) => Free(s, l) && Held(s'.procs[t]) == Held(s.procs[t]) + {l} && s'.fs == s.fs
            case None => Held(s'.procs[t]) <= Held(s.procs[t])
  {
    var f, p, g, q := s.fs, s.procs[t], s'.fs, s'.procs[t];
    assert ProcOk(f, p);
    hide FsOk, Moved, Applied, Anc, TrapFor;
    if p.InDir? { DirStepOk(f, p.d, p.op, g, q); }
  }

  lemma StepKeepsInv(s: State, t: Tid, s': State)
    requires Inv(s) && Step(s, t, s')
    ensures Inv(s')
  {
    var g, q := s'.fs, s'.procs[t];
    ActFs(s, t, g, q);
    ActProc(s, t, g, q);
    ActLocks(s, t, g, q);
    forall u | u in s'.procs ensures ProcOk(g, s'.procs[u]) {
      if u != t { ProcFrame(s.fs, g, Held(s.procs[t]), s.procs[u]); }
    }
    forall u | u in s.procs && u != t ensures Held(q) !! Held(s.procs[u]) {
      forall l | l in Held(q) ensures l !in Held(s.procs[u]) {}
    }
  }

  ghost predicate Init(s: State) {
    FsOk(s.fs) && forall t :: t in s.procs ==> s.procs[t] == Idle
  }

  ghost predicate Run(ss: seq<State>) {
    && |ss| > 0 && Init(ss[0])
    && forall i :: 0 <= i < |ss| - 1 ==> Moves(ss[i], ss[i + 1])
  }

  ghost predicate Moves(s: State, s': State) {
    exists t :: t in s.procs && Step(s, t, s')
  }

  lemma {:induction false} RunKeepsInv(ss: seq<State>)
    requires Run(ss)
    ensures Inv(ss[|ss| - 1])
  {
    var n := |ss| - 1;
    if n > 0 {
      var init := ss[..n];
      assert forall i :: 0 <= i < n ==> init[i] == ss[i];
      RunKeepsInv(init);
      assert Moves(ss[n - 1], ss[n - 1 + 1]);
      var t :| t in ss[n - 1].procs && Step(ss[n - 1], t, ss[n]);
      StepKeepsInv(ss[n - 1], t, ss[n]);
    }
  }

  /** In every run the file system changes only by what some thread's operation asks for. */
  lemma RunDoes(ss: seq<State>, i: nat)
    requires Run(ss) && i + 1 < |ss| && ss[i + 1].fs != ss[i].fs
    ensures exists t :: t in ss[i].procs && Change(ss[i].fs, ss[i + 1].fs, ss[i].procs[t])
  {
    hide Inv, Step, Init, Change;
    var before := ss[..i + 1];
    assert forall j :: 0 <= j < |before| ==> before[j] == ss[j];
    RunKeepsInv(before);
    assert Moves(ss[i], ss[i + 1]);
    var t :| t in ss[i].procs && Step(ss[i], t, ss[i + 1]);
    StepDoes(ss[i], t, ss[i + 1]);
  }

  // ---------------------------------------------------------------- no cycle of waiters

  /** `t` waits for a lock that `u` holds. */
  ghost predicate Blocks(s: State, t: Tid, u: Tid) {
    && t in s.procs && u in s.procs
    && Waits(s.procs[t]).Some? && Waits(s.procs[t]).value in Held(s.procs[u])
  }

  ghost predicate Renaming(s: State, t: Tid) { t in s.procs && RenameSem in Held(s.procs[t]) }

  /** A thread inside the circle waits for a directory and holds only directories it depends on. */
  ghost predicate OnCircle(s: State, t: Tid) {
    && t in s.procs && Held(s.procs[t]) != {}
    && Waits(s.procs[t]).Some? && Waits(s.procs[t]).value.ISem? && Waits(s.procs[t]).value.node in s.fs.parent
  }

  ghost function Wanted(s: State, t: Tid): Node
    requires OnCircle(s, t)
  {
    Waits(s.procs[t]).value.node
  }

  /** What a waiting thread holds is a directory or the rename semaphore. */
  lemma WaitersHoldDirs(s: State, t: Tid, l: Lock)
    requires Inv(s) && t in s.procs && Waits(s.procs[t]).Some? && l in Held(s.procs[t])
    ensures l.ISem? ==> l.node in s.fs.parent
  {
    assert ProcOk(s.fs, s.procs[t]);
  }

  /** Outside a cross-directory rename the wanted directory is a child of the held one. */
  lemma PlainWaiter(s: State, t: Tid, h: Node)
    requires Inv(s) && OnCircle(s, t) && !Renaming(s, t) && ISem(h) in Held(s.procs[t])
    ensures Wanted(s, t) != s.fs.root && s.fs.parent[Wanted(s, t)] == h
  {
    assert ProcOk(s.fs, s.procs[t]);
  }

  /** The wanted directory of a cross-directory rename is not above, nor equal to, a held one. */
  lemma RenameWaiter(s: State, t: Tid, h: Node)
    requires Inv(s) && OnCircle(s, t) && Renaming(s, t) && ISem(h) in Held(s.procs[t])
    ensures h in s.fs.parent && !Anc(s.fs.parent, Wanted(s, t), h)
  {
    var f, p := s.fs, s.procs[t];
    assert ProcOk(f, p);
    if p.WantTarget? {
      var r, x := p.r, p.x;
      assert Child(f, f.entries[r.Dst()], r.newDir);
      TrapExact(f.parent, f.root, r.newDir, r.oldDir, p.o.trap, x);
      ParentBelow(f.parent, f.root, x);
    }
  }

  ghost predicate WaitCycle(s: State, ts: seq<Tid>) {
    |ts| > 0 && forall i :: 0 <= i < |ts| ==> Blocks(s, ts[i], ts[After(i, |ts|)])
  }

  lemma AllOnCircle(s: State, ts: seq<Tid>, i: int)
    requires Inv(s) && WaitCycle(s, ts) && 0 <= i < |ts|
    ensures OnCircle(s, ts[i])
  {
    var before := if i == 0 then |ts| - 1 else i - 1;
    assert After(before, |ts|) == i;
    assert Blocks(s, ts[before], ts[i]) && Blocks(s, ts[i], ts[After(i, |ts|)]);
    var j := After(i, |ts|);
    assert Blocks(s, ts[j], ts[After(j, |ts|)]);
    WaitersHoldDirs(s, ts[j], Waits(s.procs[ts[i]]).value);
  }

  /** Between renaming threads the wanted directories descend, one level at a time. */
  lemma {:induction false} Descend(s: State, d: map<Node, int>, ts: seq<Tid>, m: int)
    requires Inv(s) && WaitCycle(s, ts) && 0 <= m < |ts| && Ranked(s.fs.parent, s.fs.root, d)
    requires forall i :: 0 < i <= m ==> !Renaming(s, ts[i])
    ensures OnCircle(s, ts[0]) && OnCircle(s, ts[m])
    ensures Anc(s.fs.parent, Wanted(s, ts[0]), Wanted(s, ts[m]))
    ensures d[Wanted(s, ts[m])] == d[Wanted(s, ts[0])] + m
  {
    AllOnCircle(s, ts, 0);
    AllOnCircle(s, ts, m);
    if m == 0 {
      AncSelf(s.fs.parent, Wanted(s, ts[0]));
    } else {
      Descend(s, d, ts, m - 1);
      assert Blocks(s, ts[m - 1], ts[After(m - 1, |ts|)]);
      DescendOne(s, d, ts[m - 1], ts[m]);
      RankedClosed(s.fs.parent, s.fs.root, d);
      hide Inv, Ranked, Blocks, OnCircle, WaitCycle;
      AncParent(s.fs.parent, Wanted(s, ts[0]), Wanted(s, ts[m]));
    }
  }

  lemma RankedClosed(parent: Tree, root: Node, d: map<Node, int>)
    requires Ranked(parent, root, d)
    ensures Closed(parent)
  {
  }

  /** The thread that blocks another wants a child of what the other wants. */
  lemma DescendOne(s: State, d: map<Node, int>, t: Tid, u: Tid)
    requires Inv(s) && OnCircle(s, t) && OnCircle(s, u) && Blocks(s, t, u) && !Renaming(s, u) && Ranked(s.fs.parent, s.fs.root, d)
    ensures Wanted(s, u) in s.fs.parent && s.fs.parent[Wanted(s, u)] == Wanted(s, t) && d[Wanted(s, u)] == d[Wanted(s, t)] + 1
  {
    PlainWaiter(s, u, Wanted(s, t));
  }

  /** A circle that starts at the renaming thread would come back to it from below. */
  lemma NoCycleFromRename(s: State, ts: seq<Tid>)
    requires Inv(s) && |ts| > 0 && Renaming(s, ts[0])
    ensures !WaitCycle(s, ts)
  {
    if WaitCycle(s, ts) {
      var d: map<Node, int> :| Ranked(s.fs.parent, s.fs.root, d);
      var m := 0;
      while m + 1 < |ts| && !Renaming(s, ts[m + 1])
        invariant 0 <= m < |ts| && forall i :: 0 < i <= m ==> !Renaming(s, ts[i])
      {
        m := m + 1;
      }
      Descend(s, d, ts, m);
      var next := ts[After(m, |ts|)];
      assert Blocks(s, ts[m], next) && Renaming(s, next);
      assert Mutex(s) && next == ts[0];
      RenameWaiter(s, ts[0], Wanted(s, ts[m]));
    }
  }

  lemma NoPlainCycle(s: State, ts: seq<Tid>)
    requires Inv(s) && |ts| > 0 && forall i :: 0 <= i < |ts| ==> !Renaming(s, ts[i])
    ensures !WaitCycle(s, ts)
  {
    if WaitCycle(s, ts) {
      var d: map<Node, int> :| Ranked(s.fs.parent, s.fs.root, d);
      var m := |ts| - 1;
      Descend(s, d, ts, m);
      assert Blocks(s, ts[m], ts[After(m, |ts|)]);
      PlainWaiter(s, ts[0], Wanted(s, ts[m]));
    }
  }

  lemma RotateCycle(s: State, ts: seq<Tid>, j: int)
    requires WaitCycle(s, ts) && 0 <= j < |ts|
    ensures WaitCycle(s, ts[j..] + ts[..j])
  {
    var us := ts[j..] + ts[..j];
    forall i | 0 <= i < |us| ensures Blocks(s, us[i], us[After(i, |us|)]) {
      var k := if i < |ts| - j then i + j else i + j - |ts|;
      assert us[i] == ts[k] && us[After(i, |us|)] == ts[After(k, |ts|)];
    }
  }

  /** No state that keeps the invariant has threads waiting for each other in a circle. */
  lemma NoWaitCycle(s: State, ts: seq<Tid>)
    requires Inv(s)
    ensures !WaitCycle(s, ts)
  {
    if WaitCycle(s, ts) {
      if j :| 0 <= j < |ts| && Renaming(s, ts[j]) {
        RotateCycle(s, ts, j);
        NoCycleFromRename(s, ts[j..] + ts[..j]);
      } else {
        NoPlainCycle(s, ts);
      }
    }
  }

  /** A thread that is not waiting can always move on. */
  lemma NonWaiterMoves(s: State, t: Tid) returns (s': State)
    requires Inv(s) && t in s.procs && s.procs[t] != Idle && Waits(s.procs[t]) == None
    ensures Step(s, t, s')
  {
    var f, p := s.fs, s.procs[t];
    assert ProcOk(f, p);
    var q, g := Idle, f;
    match p {
      case InDir(d, op) => q := DirDone(d);
      case InChild(d, op, c) => q := ChildDone(d, c);
      case ChildDone(d, c) => q := DirDone(d);
      case ChildLeft(d, op, c) => q, g := DirDone(d), Applied(f, d, op);
      case DirDone(d) =>
      case HasSem(r) =>
        var first, second, trap := PlanExists(f.parent, f.root, r.newDir, r.oldDir);
        q := WantFirst(r, Order(first, second, trap));
      case HasBoth(r, o) => q := BothDone(r);
      case HasTarget(r, o, c, x) => q := if c in f.parent then Ready(r, o, c) else TargetDone(r, x);
      case TargetDone(r, x) => q := BothDone(r);
      case Ready(r, o, c) => q := BothDone(r);
      case BothDone(r) => q := OldLeft(r);
      case OldLeft(r) => q := SemLeft;
      case SemLeft =>
    }
    s' := State(g, s.procs[t := q]);
  }

  /** A waiting thread moves on once its lock is free. */
  lemma WaiterMoves(s: State, t: Tid) returns (s': State)
    requires t in s.procs && Waits(s.procs[t]).Some? && Free(s, Waits(s.procs[t]).value)
    ensures Step(s, t, s')
  {
    var q := match s.procs[t]
      case WantDir(d, op) => InDir(d, op)
      case WantChild(d, op, c) => InChild(d, op, c)
      case WantSem(r) => HasSem(r)
      case WantFirst(r, o) => WantSecond(r, o)
      case WantSecond(r, o) => HasBoth(r, o)
      case WantTarget(r, o, c, x) => HasTarget(r, o, c, x)
      case _ => Idle;
    s' := State(s.fs, s.procs[t := q]);
  }

  ghost predicate Stuck(s: State, t: Tid) {
    && t in s.procs && s.procs[t] != Idle && Waits(s.procs[t]).Some?
    && exists u :: Blocks(s, t, u)
  }

  /** While some operation is under way, some thread in the middle of one can move on. */
  lemma Progress(s: State)
    requires Inv(s) && exists t :: t in s.procs && s.procs[t] != Idle
    ensures exists t, s' :: t in s.procs && s.procs[t] != Idle && Step(s, t, s')
  {
    hide Inv, Step, WaitCycle;
    var busy := set t | t in s.procs && s.procs[t] != Idle;
    if t :| t in busy && !Stuck(s, t) {
      if Waits(s.procs[t]) == None {
        var s' := NonWaiterMoves(s, t);
      } else {
        forall u | u in s.procs ensures Waits(s.procs[t]).value !in Held(s.procs[u]) {
          assert !Blocks(s, t, u);
        }
        var s' := WaiterMoves(s, t);
      }
    } else {
      var next := map t | t in busy :: Blocker(s, t);
      var t0 :| t0 in s.procs && s.procs[t0] != Idle;
      assert t0 in next;
      forall t | t in next ensures next[t] in next {
        assert Blocks(s, t, next[t]) && Held(s.procs[next[t]]) != {};
      }
      var ts := ClosedWaitHasCycle(next);
      NoWaitCycle(s, ts);
      LiftCycle(s, next, ts);
    }
  }

  lemma LiftCycle(s: State, next: map<Tid, Tid>, ts: seq<Tid>)
    requires Cycle(next, ts) && forall t :: t in next ==> Blocks(s, t, next[t])
    ensures WaitCycle(s, ts)
  {
    forall i | 0 <= i < |ts| ensures Blocks(s, ts[i], ts[After(i, |ts|)]) {
      assert next[ts[i]] == ts[After(i, |ts|)];
    }
  }

  ghost function Blocker(s: State, t: Tid): (u: Tid)
    requires Stuck(s, t)
    ensures Blocks(s, t, u)
  {
    var u :| Blocks(s, t, u);
    u
  }

  /**
   Every run of concurrent directory operations: the directories stay a tree, no threads wait for
   each other in a circle, and an unfinished operation never blocks them all.
   */
  lemma DirectoryOperationsNeverDeadlock(ss: seq<State>)
    requires Run(ss)
    ensures var s := ss[|ss| - 1];
            && IsTree(s.fs.parent, s.fs.root)
            && (forall ts: seq<Tid> :: !WaitCycle(s, ts))
            && ((exists t :: t in s.procs && s.procs[t] != Idle) ==>
                  exists t, s' :: t in s.procs && s.procs[t] != Idle && Step(s, t, s'))
  {
    RunKeepsInv(ss);
    var s := ss[|ss| - 1];
    forall ts: seq<Tid> ensures !WaitCycle(s, ts) { NoWaitCycle(s, ts); }
    if exists t :: t in s.procs && s.procs[t] != Idle { Progress(s); }
  }
}
