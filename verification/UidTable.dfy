/**
 The reference-counted table of users with its hash chains, and any number of threads that look
 users up, add missing ones and drop them.  Seen from outside it is a total map from user id to
 weight and slice.
 */
module UidTables {
  import opened Seqs
  import opened Options

  type Ptr = int
  type Thread = int

  const UIDHASH_SZ: int := 256
  const DEFAULT_WEIGHT: int := 10
  const START_SLICE: int := 100 * DEFAULT_WEIGHT

  datatype User = User(uid: int, count: int, weight: int, slice: int)

  /** The user structures by address, and the hash chains. */
  datatype Table = Table(heap: map<Ptr, User>, chain: seq<seq<Ptr>>)

  /** `(((uid >> 8) + uid) & 255)`; user ids are unsigned. */
  function Hash(uid: int): (h: int)
    ensures 0 <= h < UIDHASH_SZ
  {
    (uid / 256 + uid) % 256
  }

  /** Ids that differ in one of their two bytes only never share a chain. */
  lemma HashSpreads(high: int, low: int, byte: int)
    requires 0 <= high < 256 && 0 <= low < 256 && 0 <= byte < 256
    ensures Hash(256 * high + low) == Hash(256 * high + byte) <==> low == byte
    ensures Hash(256 * high + low) == Hash(256 * byte + low) <==> high == byte
  {
    assert (256 * high + low) / 256 == high && (256 * high + byte) / 256 == high && (256 * byte + low) / 256 == byte;
    SumByte(high, low);
    SumByte(high, byte);
    SumByte(byte, low);
  }

  lemma SumByte(high: int, low: int)
    requires 0 <= high < 256 && 0 <= low < 256
    ensures (high + (256 * high + low)) % 256 == if high + low < 256 then high + low else high + low - 256
  {
  }

  function NewUser(uid: int): User { User(uid, 1, DEFAULT_WEIGHT, START_SLICE) }

  predicate Untouched(u: User) { u.weight == DEFAULT_WEIGHT && u.slice == START_SLICE }

  /** A user that look-up can reach. */
  predicate Listed(t: Table, p: Ptr) {
    p in t.heap && |t.chain| == UIDHASH_SZ && p in t.chain[Hash(t.heap[p].uid)]
  }

  ghost predicate TableOk(t: Table) {
    && |t.chain| == UIDHASH_SZ
    && (forall k :: 0 <= k < UIDHASH_SZ ==> NoDup(t.chain[k]))
    && (forall k, p :: 0 <= k < UIDHASH_SZ && p in t.chain[k] ==> p in t.heap && Hash(t.heap[p].uid) == k)
    && (forall p, q :: Listed(t, p) && Listed(t, q) && t.heap[p].uid == t.heap[q].uid ==> p == q)
  }

  /** The walk of uid_hash_find along a chain. */
  function FindIn(t: Table, c: seq<Ptr>, uid: int): (r: Option<Ptr>) {
    if c == [] then None
    else if c[0] in t.heap && t.heap[c[0]].uid == uid then Some(c[0])
    else FindIn(t, c[1..], uid)
  }

  function Find(t: Table, uid: int): Option<Ptr> {
    if |t.chain| == UIDHASH_SZ then FindIn(t, t.chain[Hash(uid)], uid) else None
  }

  lemma {:induction false} FindInOk(t: Table, c: seq<Ptr>, uid: int)
    ensures match FindIn(t, c, uid)
            case Some(p) => p in c && p in t.heap && t.heap[p].uid == uid
            case None => forall p :: p in c && p in t.heap ==> t.heap[p].uid != uid
  {
    if c != [] {
      FindInOk(t, c[1..], uid);
      assert c == [c[0]] + c[1..];
    }
  }

  /** Look-up finds the one listed user of the id, and fails only if there is none. */
  lemma FindOk(t: Table, uid: int)
    requires TableOk(t)
    ensures forall p :: Find(t, uid) == Some(p) <==> Listed(t, p) && t.heap[p].uid == uid
    ensures Find(t, uid) == None <==> forall p :: Listed(t, p) ==> t.heap[p].uid != uid
  {
    FindInOk(t, t.chain[Hash(uid)], uid);
  }

  /** What the outside sees of a user id. */
  function View(t: Table, uid: int): (int, int) {
    match Find(t, uid)
    case Some(p) => if p in t.heap then (t.heap[p].weight, t.heap[p].slice) else (0, 0)
    case None => (DEFAULT_WEIGHT, START_SLICE)
  }

  // ---------------------------------------------------------------- changes of the table

  function Counted(t: Table, p: Ptr, d: int): Table
    requires p in t.heap
  {
    t.(heap := t.heap[p := t.heap[p].(count := t.heap[p].count + d)])
  }

  /** The user with one reference more, or the new user. */
  function WithRef(heap: map<Ptr, User>, p: Ptr, uid: int, rival: Option<Ptr>): User {
    if p in heap then heap[p].(count := heap[p].count + 1)
    else if rival == Some(p) then NewUser(uid).(count := 2)
    else NewUser(uid)
  }

  /** The users that survive have the references they had; new ones have none. */
  ghost predicate SameRefs(before: map<Ptr, User>, after: map<Ptr, User>) {
    forall p :: p in after ==> after[p].count == if p in before then before[p].count else 0
  }

  /** uid_hash_insert */
  function Inserted(t: Table, p: Ptr): Table
    requires p in t.heap && |t.chain| == UIDHASH_SZ
  {
    var k := Hash(t.heap[p].uid);
    t.(chain := t.chain[k := [p] + t.chain[k]])
  }

  /** uid_hash_remove and the release of the structure. */
  function Removed(t: Table, p: Ptr): Table
    requires p in t.heap && |t.chain| == UIDHASH_SZ
  {
    var k := Hash(t.heap[p].uid);
    Table(t.heap - {p}, t.chain[k := Without(t.chain[k], p)])
  }

  /** free_uid */
  function Released(t: Table, p: Ptr): Table
    requires p in t.heap && |t.chain| == UIDHASH_SZ
  {
    if t.heap[p].count == 1 && Untouched(t.heap[p]) then Removed(t, p) else Counted(t, p, -1)
  }

  /** Two tables that list the same users with the same ids look the same but for the user at `p`. */
  ghost predicate SameListed(t: Table, t': Table, p: Ptr) {
    && (forall q :: Listed(t', q) <==> Listed(t, q))
    && (forall q :: Listed(t, q) ==> t'.heap[q].uid == t.heap[q].uid)
    && (forall q :: Listed(t, q) && q != p ==> t'.heap[q].weight == t.heap[q].weight && t'.heap[q].slice == t.heap[q].slice)
  }

  lemma SameView(t: Table, t': Table, p: Ptr, uid: int)
    requires TableOk(t) && TableOk(t') && SameListed(t, t', p)
    ensures Find(t', uid) == Find(t, uid)
    ensures !(Listed(t, p) && t.heap[p].uid == uid) ==> View(t', uid) == View(t, uid)
    ensures Listed(t, p) && t.heap[p].uid == uid ==> View(t', uid) == (t'.heap[p].weight, t'.heap[p].slice)
  {
    hide TableOk;
    FindOk(t, uid);
    FindOk(t', uid);
  }

  /** Changing the structure of a user but not its id. */
  lemma UpdatedOk(t: Table, p: Ptr, u: User)
    requires TableOk(t) && p in t.heap && u.uid == t.heap[p].uid
    ensures var t' := t.(heap := t.heap[p := u]); TableOk(t') && SameListed(t, t', p)
  {
  }

  lemma InsertedOk(t: Table, p: Ptr)
    requires TableOk(t) && p in t.heap && !Listed(t, p) && Find(t, t.heap[p].uid) == None
    ensures TableOk(Inserted(t, p))
    ensures forall q :: Listed(Inserted(t, p), q) <==> Listed(t, q) || q == p
  {
    FindOk(t, t.heap[p].uid);
    var t' := Inserted(t, p);
    forall q ensures Listed(t', q) <==> Listed(t, q) || q == p { }
  }

  lemma RemovedOk(t: Table, p: Ptr)
    requires TableOk(t) && Listed(t, p)
    ensures TableOk(Removed(t, p))
    ensures forall q :: Listed(Removed(t, p), q) <==> Listed(t, q) && q != p
  {
    var k := Hash(t.heap[p].uid);
    WithoutIsDelete(t.chain[k], p);
    var t' := Removed(t, p);
    forall q ensures Listed(t', q) <==> Listed(t, q) && q != p { }
  }

  /** Adding a user with default values is not seen from outside. */
  lemma InsertUnseen(t: Table, p: Ptr, uid: int)
    requires TableOk(t) && p in t.heap && !Listed(t, p) && Find(t, t.heap[p].uid) == None && Untouched(t.heap[p])
    ensures View(Inserted(t, p), uid) == View(t, uid)
  {
    InsertedOk(t, p);
    hide TableOk, Listed;
    FindOk(t, uid);
    FindOk(Inserted(t, p), uid);
  }

  /** Nor is removing one. */
  lemma RemoveUnseen(t: Table, p: Ptr, uid: int)
    requires TableOk(t) && Listed(t, p) && Untouched(t.heap[p])
    ensures View(Removed(t, p), uid) == View(t, uid)
  {
    RemovedOk(t, p);
    assert p in t.heap;
    hide TableOk, Listed;
    FindOk(t, uid);
    FindOk(Removed(t, p), uid);
  }

  /** Dropping a reference is never seen from outside, whether or not it frees the user. */
  lemma ReleaseUnseen(t: Table, p: Ptr, uid: int)
    requires TableOk(t) && Listed(t, p)
    ensures TableOk(Released(t, p)) && View(Released(t, p), uid) == View(t, uid)
    ensures forall q :: Listed(Released(t, p), q) <==> Listed(t, q) && (q != p || !(t.heap[p].count == 1 && Untouched(t.heap[p])))
  {
    if t.heap[p].count == 1 && Untouched(t.heap[p]) {
      RemovedOk(t, p);
      RemoveUnseen(t, p, uid);
    } else {
      CountUnseen(t, p, -1, uid);
    }
  }

  lemma CountUnseen(t: Table, p: Ptr, d: int, uid: int)
    requires TableOk(t) && p in t.heap
    ensures TableOk(Counted(t, p, d)) && SameListed(t, Counted(t, p, d), p) && View(Counted(t, p, d), uid) == View(t, uid)
  {
    UpdatedOk(t, p, Counted(t, p, d).heap[p]);
    SameView(t, Counted(t, p, d), p, uid);
    hide TableOk;
    FindOk(t, uid);
  }

  /** A new structure that is not in the table yet. */
  lemma MadeUnseen(t: Table, p: Ptr, u: User, uid: int)
    requires TableOk(t) && p !in t.heap
    ensures var t' := t.(heap := t.heap[p := u]);
            TableOk(t') && SameListed(t, t', p) && !Listed(t', p) && View(t', uid) == View(t, uid) && Find(t', uid) == Find(t, uid)
  {
    var t' := t.(heap := t.heap[p := u]);
    assert !Listed(t', p);
    SameView(t, t', p, uid);
  }

  /** And its release when another thread was faster. */
  lemma UnmadeUnseen(t: Table, p: Ptr, uid: int)
    requires TableOk(t) && p in t.heap && !Listed(t, p)
    ensures var t' := t.(heap := t.heap - {p});
            TableOk(t') && SameListed(t, t', p) && View(t', uid) == View(t, uid)
  {
    var t' := t.(heap := t.heap - {p});
    SameView(t, t', p, uid);
  }

  /** A change of weight or slice is seen at that user and nowhere else. */
  lemma ChangeSeen(t: Table, p: Ptr, u: User, uid: int)
    requires TableOk(t) && Listed(t, p) && u.uid == t.heap[p].uid
    ensures var t' := t.(heap := t.heap[p := u]);
            && TableOk(t') && SameListed(t, t', p)
            && View(t', uid) == if uid == u.uid then (u.weight, u.slice) else View(t, uid)
    ensures View(t, u.uid) == (t.heap[p].weight, t.heap[p].slice)
  {
    UpdatedOk(t, p, u);
    SameView(t, t.(heap := t.heap[p := u]), p, uid);
    FindOk(t, u.uid);
  }

  // ---------------------------------------------------------------- interleaved threads

  /** A thread in alloc_uid: between the two look-ups it has seen none, then it has a new structure. */
  datatype Phase = Idle | Missed(uid: int) | Made(p: Ptr)

  /** `refs` counts the references that tasks and system calls hold on a listed user. */
  datatype World = World(t: Table, phase: map<Thread, Phase>, refs: map<Ptr, int>)

  datatype Step =
    | LookUp(th: Thread, uid: int)
    | Make(th: Thread, p: Ptr)
    | Fail(th: Thread)
    | Insert(th: Thread)
    | Share(p: Ptr)
    | Free(p: Ptr)
    | SetWeight(p: Ptr, weight: int)
    | SetSlice(p: Ptr, slice: int)

  ghost predicate Enabled(w: World, s: Step) {
    match s
    case LookUp(th, uid) => th in w.phase && w.phase[th].Idle?
    case Make(th, p) => th in w.phase && w.phase[th].Missed? && p !in w.t.heap
    case Fail(th) => th in w.phase && w.phase[th].Missed?
    case Insert(th) => th in w.phase && w.phase[th].Made?
    case Share(p) => p in w.refs && w.refs[p] >= 1
    case Free(p) => p in w.refs && w.refs[p] >= 1
    case SetWeight(p, weight) => p in w.refs && w.refs[p] >= 1 && weight > 0
    case SetSlice(p, _) => p in w.refs && w.refs[p] >= 1
  }

  /** A reference more on a listed user. */
  ghost function Acquired(w: World, p: Ptr): World {
    if p in w.t.heap && p in w.refs then w.(t := Counted(w.t, p, 1), refs := w.refs[p := w.refs[p] + 1]) else w
  }

  ghost function Apply(w: World, s: Step): World
    requires Enabled(w, s)
  {
    match s
    case LookUp(th, uid) =>
      (match Find(w.t, uid)
       case Some(p) => Acquired(w, p)
       case None => w.(phase := w.phase[th := Missed(uid)]))
    case Make(th, p) =>
      w.(t := w.t.(heap := w.t.heap[p := NewUser(w.phase[th].uid)]), phase := w.phase[th := Made(p)])
    case Fail(th) => w.(phase := w.phase[th := Idle])
    case Insert(th) =>
      var p := w.phase[th].p;
      var y := w.(phase := w.phase[th := Idle]);
      if p !in w.t.heap || |w.t.chain| != UIDHASH_SZ then y
      else
        (match Find(w.t, w.t.heap[p].uid)
         case Some(q) => Acquired(y.(t := w.t.(heap := w.t.heap - {p})), q)
         case None => y.(t := Inserted(w.t, p), refs := w.refs[p := 1]))
    case Share(p) => Acquired(w, p)
    case Free(p) =>
      if p !in w.t.heap || |w.t.chain| != UIDHASH_SZ then w
      else
        var t := Released(w.t, p);
        w.(t := t, refs := if p in t.heap then w.refs[p := w.refs[p] - 1] else w.refs - {p})
    case SetWeight(p, weight) =>
      if p in w.t.heap then w.(t := w.t.(heap := w.t.heap[p := w.t.heap[p].(weight := weight)])) else w
    case SetSlice(p, slice) =>
      if p in w.t.heap then w.(t := w.t.(heap := w.t.heap[p := w.t.heap[p].(slice := slice)])) else w
  }

  /** A structure some thread has made and not yet added. */
  ghost predicate Pending(w: World, p: Ptr) {
    exists th :: th in w.phase && w.phase[th] == Made(p)
  }

  ghost predicate RefOk(u: User, refs: int) { refs >= 0 && u.count == refs && (refs == 0 ==> !Untouched(u)) }

  /**
   No id has two users; a counted reference is always to the listed user; an unreferenced user is
   kept only while it has something to remember; no structure is lost.
   */
  ghost predicate WorldOk(w: World) {
    && TableOk(w.t)
    && (forall p :: Listed(w.t, p) <==> p in w.refs)
    && (forall p :: p in w.refs ==> p in w.t.heap && RefOk(w.t.heap[p], w.refs[p]))
    && (forall p :: p in w.t.heap ==> p in w.refs || Pending(w, p))
    && (forall th :: th in w.phase && w.phase[th].Made? ==> MadeOk(w, w.phase[th].p))
    && (forall th, th' :: th in w.phase && th' in w.phase && w.phase[th].Made? && w.phase[th] == w.phase[th'] ==> th == th')
  }

  ghost predicate MadeOk(w: World, p: Ptr) {
    p in w.t.heap && p !in w.refs && w.t.heap[p] == NewUser(w.t.heap[p].uid)
  }

  /** References on a user. */
  function Refs(w: World, p: Ptr): int { if p in w.refs then w.refs[p] else 0 }

  /** How many references a step takes on a user; dropping one is the only step that gives one back. */
  ghost function NewReferences(w: World, s: Step, p: Ptr): int
    requires Enabled(w, s)
  {
    match s
    case LookUp(_, uid) => if Find(w.t, uid) == Some(p) then 1 else 0
    case Insert(th) =>
      var made := w.phase[th].p;
      if made in w.t.heap && (match Find(w.t, w.t.heap[made].uid) case Some(q) => p == q case None => p == made) then 1 else 0
    case Share(q) => if p == q then 1 else 0
    case Free(q) => if p == q then -1 else 0
    case _ => 0
  }

  /** A user found, added or shared is referenced once more, also after a lost race. */
  lemma StepReferences(w: World, s: Step, p: Ptr)
    requires WorldOk(w) && Enabled(w, s)
    ensures Refs(Apply(w, s), p) == Refs(w, p) + NewReferences(w, s, p)
  {
    match s {
      case LookUp(_, uid) => FindOk(w.t, uid);
      case Insert(th) =>
        assert MadeOk(w, w.phase[th].p);
        FindOk(w.t, w.t.heap[w.phase[th].p].uid);
      case Free(q) => assert RefOk(w.t.heap[q], w.refs[q]);
      case _ =>
    }
  }

  /** The abstract effect of a step on the view: only the two settings are seen. */
  ghost function Effect(w: World, s: Step, uid: int): (int, int) {
    var v := View(w.t, uid);
    match s
    case SetWeight(p, weight) => if p in w.t.heap && w.t.heap[p].uid == uid then (weight, v.1) else v
    case SetSlice(p, slice) => if p in w.t.heap && w.t.heap[p].uid == uid then (v.0, slice) else v
    case _ => v
  }

  /** One listed user changed, and the references on it. */
  lemma ChangedOk(w: World, p: Ptr, u: User, refs: int)
    requires WorldOk(w) && p in w.refs && u.uid == w.t.heap[p].uid && RefOk(u, refs)
    ensures WorldOk(w.(t := w.t.(heap := w.t.heap[p := u]), refs := w.refs[p := refs]))
  {
    var y := w.(t := w.t.(heap := w.t.heap[p := u]), refs := w.refs[p := refs]);
    UpdatedOk(w.t, p, u);
    hide TableOk, Listed, RefOk;
    assert forall q :: Pending(w, q) ==> Pending(y, q);
  }

  lemma AcquireOk(w: World, p: Ptr, uid: int)
    requires WorldOk(w) && p in w.refs
    ensures WorldOk(Acquired(w, p)) && View(Acquired(w, p).t, uid) == View(w.t, uid)
  {
    hide TableOk, Listed, View;
    assert RefOk(w.t.heap[p], w.refs[p]);
    CountUnseen(w.t, p, 1, uid);
    ChangedOk(w, p, Counted(w.t, p, 1).heap[p], w.refs[p] + 1);
  }

  lemma LookUpOk(w: World, th: Thread, u: int, uid: int)
    requires WorldOk(w) && Enabled(w, LookUp(th, u))
    ensures var y := Apply(w, LookUp(th, u)); WorldOk(y) && View(y.t, uid) == View(w.t, uid)
  {
    FindOk(w.t, u);
    hide TableOk, Listed, View, Find;
    match Find(w.t, u)
    case Some(p) => AcquireOk(w, p, uid);
    case None =>
      var y := Apply(w, LookUp(th, u));
      forall q | Pending(w, q) ensures Pending(y, q) {
        var o :| o in w.phase && w.phase[o] == Made(q);
        assert y.phase[o] == Made(q);
      }
  }

  lemma FailOk(w: World, th: Thread)
    requires WorldOk(w) && Enabled(w, Fail(th))
    ensures WorldOk(Apply(w, Fail(th)))
  {
    hide TableOk, Listed;
    var y := Apply(w, Fail(th));
    forall q | Pending(w, q) ensures Pending(y, q) {
      var o :| o in w.phase && w.phase[o] == Made(q);
      assert y.phase[o] == Made(q);
    }
  }

  lemma MakeOk(w: World, th: Thread, p: Ptr, uid: int)
    requires WorldOk(w) && Enabled(w, Make(th, p))
    ensures var y := Apply(w, Make(th, p)); WorldOk(y) && View(y.t, uid) == View(w.t, uid)
  {
    MadeUnseen(w.t, p, NewUser(w.phase[th].uid), uid);
    hide TableOk, Listed, View, RefOk;
    var y := Apply(w, Make(th, p));
    assert y.phase[th] == Made(p);
    PendingStays(w, y, th);
    MadeStays(w, y, th, p);
    hide MadeOk;
  }

  /** What the threads have made is theirs alone. */
  lemma MadeStays(w: World, y: World, th: Thread, p: Ptr)
    requires WorldOk(w) && th in w.phase && w.phase[th].Missed? && p !in w.t.heap && y.refs == w.refs
    requires y.t.heap == w.t.heap[p := NewUser(w.phase[th].uid)] && y.phase == w.phase[th := Made(p)]
    ensures forall o :: o in y.phase && y.phase[o].Made? ==> MadeOk(y, y.phase[o].p)
    ensures forall o, o' :: o in y.phase && o' in y.phase && y.phase[o].Made? && y.phase[o] == y.phase[o'] ==> o == o'
  {
    hide TableOk, Listed, RefOk;
    forall o | o in w.phase && w.phase[o].Made? ensures w.phase[o].p != p && MadeOk(w, w.phase[o].p) { }
  }

  /** What the other threads have made is still pending. */
  lemma PendingStays(w: World, y: World, th: Thread)
    requires th in w.phase && th in y.phase && y.phase == w.phase[th := y.phase[th]]
    ensures forall q :: Pending(w, q) && w.phase[th] != Made(q) ==> Pending(y, q)
  {
    forall q | Pending(w, q) && w.phase[th] != Made(q) ensures Pending(y, q) {
      var o :| o in w.phase && w.phase[o] == Made(q);
      assert y.phase[o] == Made(q);
    }
  }

  /** A thread gives up the structure it made. */
  lemma UnmakeOk(w: World, th: Thread, uid: int)
    requires WorldOk(w) && Enabled(w, Insert(th))
    ensures var p := w.phase[th].p; var t := w.t.(heap := w.t.heap - {p});
            var y := World(t, w.phase[th := Idle], w.refs);
            WorldOk(y) && View(t, uid) == View(w.t, uid)
  {
    var p := w.phase[th].p;
    assert MadeOk(w, p);
    UnmadeUnseen(w.t, p, uid);
    hide TableOk, Listed, View;
    var y := World(w.t.(heap := w.t.heap - {p}), w.phase[th := Idle], w.refs);
    forall q | q != p && Pending(w, q) ensures Pending(y, q) {
      var o :| o in w.phase && w.phase[o] == Made(q);
      assert y.phase[o] == Made(q);
    }
  }

  lemma InsertOk(w: World, th: Thread, uid: int)
    requires WorldOk(w) && Enabled(w, Insert(th))
    ensures var y := Apply(w, Insert(th)); WorldOk(y) && View(y.t, uid) == View(w.t, uid)
  {
    var p := w.phase[th].p;
    assert MadeOk(w, p);
    var u := w.t.heap[p].uid;
    FindOk(w.t, u);
    match Find(w.t, u)
    case Some(q) =>
      hide TableOk, Listed, View, Find;
      UnmakeOk(w, th, uid);
      AcquireOk(World(w.t.(heap := w.t.heap - {p}), w.phase[th := Idle], w.refs), q, uid);
    case None =>
      InsertUnseen(w.t, p, uid);
      hide TableOk, Listed, View, Find;
      InsertNew(w, th, p);
  }

  lemma InsertNew(w: World, th: Thread, p: Ptr)
    requires WorldOk(w) && th in w.phase && w.phase[th] == Made(p) && p in w.t.heap && Find(w.t, w.t.heap[p].uid) == None
    ensures WorldOk(World(Inserted(w.t, p), w.phase[th := Idle], w.refs[p := 1]))
  {
    assert MadeOk(w, p) && !Listed(w.t, p);
    InsertedOk(w.t, p);
    hide TableOk, Listed, Find;
    var y := World(Inserted(w.t, p), w.phase[th := Idle], w.refs[p := 1]);
    PendingStays(w, y, th);
  }

  lemma FreeOk(w: World, p: Ptr, uid: int)
    requires WorldOk(w) && Enabled(w, Free(p))
    ensures var y := Apply(w, Free(p)); WorldOk(y) && View(y.t, uid) == View(w.t, uid)
  {
    hide View;
    assert Listed(w.t, p) && RefOk(w.t.heap[p], w.refs[p]);
    ReleaseUnseen(w.t, p, uid);
    hide TableOk, Listed;
    if w.t.heap[p].count == 1 && Untouched(w.t.heap[p]) {
      LastOk(w, p);
    } else {
      ChangedOk(w, p, Counted(w.t, p, -1).heap[p], w.refs[p] - 1);
    }
  }

  lemma LastOk(w: World, p: Ptr)
    requires WorldOk(w) && p in w.refs && Listed(w.t, p)
    ensures WorldOk(w.(t := Removed(w.t, p), refs := w.refs - {p}))
  {
    RemovedOk(w.t, p);
    hide TableOk, Listed, RefOk;
    var y := w.(t := Removed(w.t, p), refs := w.refs - {p});
    assert forall q :: Pending(w, q) ==> Pending(y, q);
  }

  lemma SetOk(w: World, s: Step, uid: int)
    requires WorldOk(w) && Enabled(w, s) && (s.SetWeight? || s.SetSlice?)
    ensures WorldOk(Apply(w, s)) && View(Apply(w, s).t, uid) == Effect(w, s, uid)
  {
    hide TableOk, View;
    var p := s.p;
    assert Listed(w.t, p) && RefOk(w.t.heap[p], w.refs[p]);
    var y := Apply(w, s);
    ChangeSeen(w.t, p, y.t.heap[p], uid);
    ChangedOk(w, p, y.t.heap[p], w.refs[p]);
    assert w.refs[p := w.refs[p]] == w.refs;
  }

  /** Every step keeps the invariant, and only the two settings can be seen. */
  lemma StepRefines(w: World, s: Step, uid: int)
    requires WorldOk(w) && Enabled(w, s)
    ensures WorldOk(Apply(w, s)) && View(Apply(w, s).t, uid) == Effect(w, s, uid)
  {
    hide WorldOk, View, Find;
    match s
    case LookUp(th, u) => LookUpOk(w, th, u, uid);
    case Make(th, p) => MakeOk(w, th, p, uid);
    case Fail(th) => FailOk(w, th);
    case Insert(th) => InsertOk(w, th, uid);
    case Share(p) => AcquireOk(w, p, uid);
    case Free(p) => FreeOk(w, p, uid);
    case _ => SetOk(w, s, uid);
  }

  // ---------------------------------------------------------------- runs

  ghost predicate Run(ws: seq<World>, ss: seq<Step>) {
    && |ws| == |ss| + 1
    && forall i :: 0 <= i < |ss| ==> Enabled(ws[i], ss[i]) && ws[i + 1] == Apply(ws[i], ss[i])
  }

  /** The table after uid_cache_init: the root user, referenced by the first process. */
  ghost function Boot(root: Ptr, threads: set<Thread>): World {
    World(Table(map[root := NewUser(0)], seq(UIDHASH_SZ, k => if k == 0 then [root] else [])),
          map th | th in threads :: Idle, map[root := 1])
  }

  lemma BootTableOk(root: Ptr, threads: set<Thread>)
    ensures var t := Boot(root, threads).t; TableOk(t) && forall p :: Listed(t, p) <==> p == root
  {
    var t := Boot(root, threads).t;
    assert t.chain[0] == [root];
    assert forall k :: 0 < k < UIDHASH_SZ ==> t.chain[k] == [];
  }

  lemma BootOk(root: Ptr, threads: set<Thread>)
    ensures WorldOk(Boot(root, threads)) && forall uid :: View(Boot(root, threads).t, uid) == (DEFAULT_WEIGHT, START_SLICE)
  {
    BootTableOk(root, threads);
    hide TableOk;
    var t := Boot(root, threads).t;
    forall uid ensures View(t, uid) == (DEFAULT_WEIGHT, START_SLICE) { FindOk(t, uid); }
  }

  lemma {:induction false} RunKeepsOk(ws: seq<World>, ss: seq<Step>, i: nat)
    requires Run(ws, ss) && WorldOk(ws[0]) && i < |ws|
    ensures WorldOk(ws[i])
    decreases i
  {
    hide WorldOk, Apply, Enabled;
    if i > 0 {
      RunKeepsOk(ws, ss, i - 1);
      StepRefines(ws[i - 1], ss[i - 1], 0);
    }
  }

  /** The step sets the weight of user `uid`. */
  ghost predicate Reweighs(w: World, s: Step, uid: int) {
    s.SetWeight? && s.p in w.t.heap && w.t.heap[s.p].uid == uid
  }

  /**
   A weight survives any number of acquisitions, releases, races and frees: between two moments of a
   run with no call that sets the weight of `uid`, what is seen of it is the same.
   */
  lemma {:induction false} WeightSurvives(ws: seq<World>, ss: seq<Step>, i: nat, j: nat, uid: int)
    requires Run(ws, ss) && WorldOk(ws[0]) && i <= j < |ws|
    requires forall k :: i <= k < j ==> !Reweighs(ws[k], ss[k], uid)
    ensures View(ws[j].t, uid).0 == View(ws[i].t, uid).0
    decreases j
  {
    hide WorldOk, Apply, Enabled, View;
    if i < j {
      WeightSurvives(ws, ss, i, j - 1, uid);
      RunKeepsOk(ws, ss, j - 1);
      StepRefines(ws[j - 1], ss[j - 1], uid);
    }
  }

  /**
   In every run from boot: no two listed users have one id, and whoever holds a reference holds the
   listed user of its id, so it sees the weight and slice everybody sees.
   */
  lemma HoldersAgree(root: Ptr, threads: set<Thread>, ws: seq<World>, ss: seq<Step>, i: nat, p: Ptr)
    requires Run(ws, ss) && ws[0] == Boot(root, threads) && i < |ws| && p in ws[i].refs && ws[i].refs[p] >= 1
    ensures p in ws[i].t.heap
    ensures var u := ws[i].t.heap[p];
            && Find(ws[i].t, u.uid) == Some(p) && View(ws[i].t, u.uid) == (u.weight, u.slice)
            && (forall q :: Listed(ws[i].t, q) && ws[i].t.heap[q].uid == u.uid ==> q == p)
  {
    hide Apply, Enabled;
    BootOk(root, threads);
    RunKeepsOk(ws, ss, i);
    assert Listed(ws[i].t, p);
    FindOk(ws[i].t, ws[i].t.heap[p].uid);
  }

  // ---------------------------------------------------------------- the system calls

  datatype Errno = EINVAL | EACCES
  datatype Answer = Weight(weight: int) | Done | Error(error: Errno)

  class UidTable {
    var heap: map<Ptr, User>
    var chain: seq<seq<Ptr>>

    ghost function Value(): Table
      reads this
    {
      Table(heap, chain)
    }

    /** uid_cache_init */
    constructor (root: Ptr)
      ensures Value() == Boot(root, {}).t && TableOk(Value())
    {
      heap := map[root := NewUser(0)];
      chain := seq(UIDHASH_SZ, k => if k == 0 then [root] else []);
      new;
      BootOk(root, {});
      assert chain == Boot(root, {}).t.chain;
    }

    /** uid_hash_find: the walk along one chain; a user found is referenced. */
    method UidHashFind(uid: int) returns (r: Option<Ptr>)
      requires TableOk(Value())
      modifies this`heap
      ensures r == Find(old(Value()), uid)
      ensures match r case None => Value() == old(Value()) case Some(p) => p in old(heap) && Value() == Counted(old(Value()), p, 1)
    {
      FindOk(Value(), uid);
      var c := chain[Hash(uid)];
      var i := 0;
      while i < |c|
        invariant 0 <= i <= |c| && heap == old(heap)
        invariant FindIn(Value(), c, uid) == FindIn(Value(), c[i..], uid)
      {
        var p: Ptr := c[i];
        assert p in c;
        if heap[p].uid == uid {
          heap := heap[p := heap[p].(count := heap[p].count + 1)];
          return Some(p);
        }
        assert c[i..][1..] == c[i + 1..];
        i := i + 1;
      }
      r := None;
    }

    /** free_uid; a null pointer is accepted.  Nobody can see the difference. */
    method FreeUid(up: Option<Ptr>)
      requires TableOk(Value()) && (up.Some? ==> Listed(Value(), up.value))
      modifies this
      ensures Value() == if up.Some? then Released(old(Value()), up.value) else old(Value())
      ensures TableOk(Value()) && forall uid :: View(Value(), uid) == View(old(Value()), uid)
    {
      if up.Some? {
        var p := up.value;
        forall uid ensures TableOk(Released(Value(), p)) && View(Released(Value(), p), uid) == View(Value(), uid) {
          ReleaseUnseen(Value(), p, uid);
        }
        assert TableOk(Released(Value(), p)) by { ReleaseUnseen(Value(), p, 0); }
        var u := heap[p];
        if u.count == 1 && u.weight == DEFAULT_WEIGHT && u.slice == START_SLICE {
          var k := Hash(u.uid);
          chain := chain[k := Without(chain[k], p)];
          heap := heap - {p};
        } else {
          heap := heap[p := u.(count := u.count - 1)];
        }
      }
    }

    /**
     alloc_uid.  `spare` is the address of a new structure, if there is memory; `rival` is one that
     another thread adds for the same id between the two look-ups, if one does.
     */
    method AllocUid(uid: int, spare: Option<Ptr>, rival: Option<Ptr>) returns (r: Option<Ptr>)
      requires TableOk(Value()) && (spare.Some? ==> spare.value !in heap)
      requires rival.Some? ==> rival.value !in heap && rival != spare
      modifies this
      ensures TableOk(Value()) && forall v :: View(Value(), v) == View(old(Value()), v)
      ensures r == None <==> spare == None && Find(old(Value()), uid) == None
      ensures r.Some? ==> r == Find(Value(), uid) && Listed(Value(), r.value) && heap[r.value].uid == uid
      ensures r.Some? ==> r == match Find(old(Value()), uid) case Some(p) => Some(p) case None => if rival.Some? then rival else spare
      ensures r.Some? ==> heap == old(heap)[r.value := WithRef(old(heap), r.value, uid, rival)]
      ensures r == None ==> Value() == old(Value())
    {
      ghost var t := Value();
      FindOk(t, uid);
      r := UidHashFind(uid);
      if r.Some? {
        FoundUnseen(t, r.value, uid);
      } else if spare.Some? {
        if rival.Some? { AddRival(rival.value, uid); }
        r := AddOrFind(uid, spare.value);
      }
    }

    /** Another thread adds a user of its own for an id that has none. */
    method AddRival(p: Ptr, uid: int)
      requires TableOk(Value()) && p !in heap && Find(Value(), uid) == None
      modifies this
      ensures TableOk(Value()) && heap == old(heap)[p := NewUser(uid)] && Find(Value(), uid) == Some(p) && Listed(Value(), p)
      ensures forall v :: View(Value(), v) == View(old(Value()), v)
    {
      ghost var t := Value();
      heap := heap[p := NewUser(uid)];
      var k := Hash(uid);
      chain := chain[k := [p] + chain[k]];
      AddedUnseen(t, p, uid);
    }

    /** The second half of alloc_uid: the new structure is added, or given up when the id has a user by now. */
    method AddOrFind(uid: int, spare: Ptr) returns (r: Option<Ptr>)
      requires TableOk(Value()) && spare !in heap
      modifies this
      ensures TableOk(Value()) && (forall v :: View(Value(), v) == View(old(Value()), v))
      ensures r.Some? && r == Find(Value(), uid) && Listed(Value(), r.value) && heap[r.value].uid == uid
      ensures match Find(old(Value()), uid)
              case Some(p) => r == Some(p) && p in old(heap) && Value() == Counted(old(Value()), p, 1)
              case None => r == Some(spare) && heap == old(heap)[spare := NewUser(uid)]
    {
      ghost var t := Value();
      FindOk(t, uid);
      heap := heap[spare := NewUser(uid)];
      MadeUnseen(t, spare, NewUser(uid), uid);
      var up := UidHashFind(uid);
      if up.Some? {
        heap := heap - {spare};
        assert heap == Counted(t, up.value, 1).heap;
        FoundUnseen(t, up.value, uid);
        r := up;
      } else {
        var k := Hash(uid);
        chain := chain[k := [spare] + chain[k]];
        AddedUnseen(t, spare, uid);
        r := Some(spare);
      }
    }

    /**
     sys_setuserweight.  `me` is the caller's own user.  Without an error exactly the weight of the
     named user changes, as everybody sees it.
     */
    method SetUserWeight(me: Ptr, uid: int, weight: int, spare: Option<Ptr>) returns (r: Answer)
      requires TableOk(Value()) && Listed(Value(), me) && (spare.Some? ==> spare.value !in heap)
      modifies this
      ensures TableOk(Value()) && SameRefs(old(heap), heap)
      ensures var target := if uid == -1 then old(heap[me].uid) else uid;
              if weight <= 0 || uid < -1 || uid > 65535 then r == Error(EINVAL) && Value() == old(Value())
              else if old(heap[me].uid) != 0 then r == Error(EACCES) && Value() == old(Value())
              else if uid != -1 && spare == None && Find(old(Value()), uid) == None then r == Error(EINVAL) && forall v :: View(Value(), v) == View(old(Value()), v)
              else r == Done && forall v :: View(Value(), v) == if v == target then (weight, View(old(Value()), v).1) else View(old(Value()), v)
    {
      hide TableOk, View, Find, Listed;
      if weight <= 0 { return Error(EINVAL); }
      if uid < -1 || uid > 65535 { return Error(EINVAL); }
      assert me in heap by { ListedInHeap(Value(), me); }
      if heap[me].uid != 0 { return Error(EACCES); }
      var up := Some(me);
      if uid != -1 {
        up := AllocUid(uid, spare, None);
      }
      if up == None { return Error(EINVAL); }
      ghost var t := Value();
      var p := up.value;
      ListedInHeap(t, p);
      heap := heap[p := heap[p].(weight := weight)];
      ghost var u := heap[p];
      forall v ensures View(Value(), v) == if v == u.uid then (weight, View(t, v).1) else View(t, v) {
        ChangeSeen(t, p, u, v);
      }
      StillListed(t, p, u);
      if uid != -1 { FreeUid(up); }
      r := Done;
    }

    /** sys_getuserweight: the weight everybody sees; asking changes nothing. */
    method GetUserWeight(me: Ptr, uid: int, spare: Option<Ptr>) returns (r: Answer)
      requires TableOk(Value()) && Listed(Value(), me) && (spare.Some? ==> spare.value !in heap)
      modifies this
      ensures TableOk(Value()) && SameRefs(old(heap), heap) && forall v :: View(Value(), v) == View(old(Value()), v)
      ensures var target := if uid == -1 then old(heap[me].uid) else uid;
              if uid < -1 || uid > 65535 || (uid != -1 && spare == None && Find(old(Value()), uid) == None) then r == Error(EINVAL)
              else r == Weight(View(old(Value()), target).0)
    {
      hide TableOk, View, Find, Listed;
      if uid == -1 {
        ListedInHeap(Value(), me);
        return Weight(heap[me].weight);
      } else if 0 > uid || 65535 < uid {
        return Error(EINVAL);
      }
      var up := AllocUid(uid, spare, None);
      if up == None { return Error(EINVAL); }
      ListedInHeap(Value(), up.value);
      r := Weight(heap[up.value].weight);
      FreeUid(up);
    }
  }

  /** A user found and referenced: nothing is seen of it. */
  lemma FoundUnseen(t: Table, p: Ptr, uid: int)
    requires TableOk(t) && Find(t, uid) == Some(p)
    ensures p in t.heap && TableOk(Counted(t, p, 1)) && (forall v :: View(Counted(t, p, 1), v) == View(t, v))
    ensures Find(Counted(t, p, 1), uid) == Some(p) && Listed(Counted(t, p, 1), p) && t.heap[p].uid == uid
  {
    FindOk(t, uid);
    forall v ensures View(Counted(t, p, 1), v) == View(t, v) { CountUnseen(t, p, 1, v); }
    CountUnseen(t, p, 1, uid);
    FindOk(Counted(t, p, 1), uid);
  }

  /** A new user made and added: nothing is seen of it. */
  lemma AddedUnseen(t: Table, p: Ptr, uid: int)
    requires TableOk(t) && p !in t.heap && Find(t, uid) == None
    ensures var t1 := t.(heap := t.heap[p := NewUser(uid)]); var t2 := Inserted(t1, p);
            && TableOk(t2) && (forall v :: View(t2, v) == View(t, v)) && Find(t2, uid) == Some(p) && Listed(t2, p)
  {
    var t1 := t.(heap := t.heap[p := NewUser(uid)]);
    var t2 := Inserted(t1, p);
    MadeUnseen(t, p, NewUser(uid), uid);
    InsertedOk(t1, p);
    forall v ensures View(t2, v) == View(t, v) {
      MadeUnseen(t, p, NewUser(uid), v);
      InsertUnseen(t1, p, v);
    }
    FindOk(t2, uid);
  }

  lemma ListedInHeap(t: Table, p: Ptr)
    requires TableOk(t) && Listed(t, p)
    ensures p in t.heap && View(t, t.heap[p].uid) == (t.heap[p].weight, t.heap[p].slice)
  {
    FindOk(t, t.heap[p].uid);
  }

  lemma StillListed(t: Table, p: Ptr, u: User)
    requires TableOk(t) && Listed(t, p) && u.uid == t.heap[p].uid
    ensures var t' := t.(heap := t.heap[p := u]); TableOk(t') && Listed(t', p)
  {
    UpdatedOk(t, p, u);
  }
}
