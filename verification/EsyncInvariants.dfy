/** What every step of the protocol keeps.

    A unit of a semaphore, or the single token of a mutex, is at any moment in
    the eventfd, in the hands of one thread that is between two accesses, or
    (for a mutex) held by its recorded owner.  The invariant says that these
    places account for every unit, and that what each thread believes about a
    mutex at its place in the code is true of the shared record. */
module EsyncInvariants {
  import opened EsyncModel

  // ----- Units in a thread's hands -----

  /** How often object x is read by a grab of these references. */
  function Mult(refs: seq<Ref>, x: nat): nat {
    if refs == [] then 0
    else Mult(refs[..|refs| - 1], x) + One(refs[|refs| - 1], x)
  }

  function One(r: Ref, x: nat): nat {
    if r.o == x && Consumable(r.kind) then 1 else 0
  }

  /** Units of x that were read, or are owed by a write still to come, by a thread at pc,
      and are not accounted for in the shared record. */
  function InHand(pc: Pc, x: nat): nat
    requires InRange(pc)
  {
    match pc
    case Releasing(o, n, sem) => if o == x && sem.SemWrite? then n else 0
    case Unlocking(o, mtx) => if o == x && mtx.MtxWrite? then 1 else 0
    case InAll(w, i, all) => Mult(w.refs[..Taken(i, all)], x)
    case Updating(w, k, n, _, upd) =>
      if upd.UpdFirst? || upd.UpdTid? then Mult(w.refs[k..n], x) else Mult(w.refs[k + 1..n], x)
    case Dying(o, dy) => if o == x && (dy.DyCount? || dy.DyWrite?) then 1 else 0
    case _ => 0
  }

  /** How many leading references a wait-all at position i has taken. */
  function Taken(i: nat, all: AllPc): (n: nat)
    ensures n <= i + 1
  {
    match all
    case GrabTid => i
    case GrabRead => i
    case BackTid => i + 1
    case BackWrite => i + 1
    case _ => 0
  }

  predicate AllInRange(threads: seq<Pc>) {
    forall t :: 0 <= t < |threads| ==> InRange(threads[t])
  }

  function Hand(threads: seq<Pc>, x: nat): nat
    requires AllInRange(threads)
  {
    if threads == [] then 0
    else Hand(threads[..|threads| - 1], x) + InHand(threads[|threads| - 1], x)
  }

  /** Units of an object that must be in some thread's hands. */
  function Owed(obj: Object): int {
    match obj
    case Semaphore(fd, _, count) => count - fd
    case Mutex(fd, tid, _) => 1 - fd - (if tid.Thread? then 1 else 0)
    case Event(_, _, _, _) => 0
  }

  // ----- What a thread at a place knows about an object -----

  predicate At(w: Wait, i: nat, x: nat) { i < |w.refs| && w.refs[i].o == x }

  predicate Names(refs: seq<Ref>, x: nat) { exists i :: 0 <= i < |refs| && refs[i].o == x }

  /** The code at pc relies on owning mutex x. */
  predicate Claims(pc: Pc, x: nat) {
    match pc
    case Unlocking(o, mtx) => o == x && (mtx.MtxLoad? || mtx.MtxStore? || mtx.MtxClear?)
    case InAny(w, i, any) => At(w, i, x) && (any.RecLoad? || any.RecStore?)
    case Updating(w, k, _, _, upd) => At(w, k, x) && (upd.UpdLoad? || upd.UpdStore?)
    case Dying(o, dy) => o == x && dy.DyTid?
    case _ => false
  }

  /** The code at pc relies on not owning mutex x. */
  predicate Denies(pc: Pc, x: nat) {
    match pc
    case InAll(w, i, all) => Names(w.refs[..Denied(w, i, all)], x)
    case Dying(o, dy) => x < o || (x == o && (dy.DyCount? || dy.DyWrite?))
    case Dead => true
    case _ => false
  }

  /** How many leading references a wait-all at position i knows not to own. */
  function Denied(w: Wait, i: nat, all: AllPc): (n: nat)
    ensures n <= |w.refs|
  {
    match all
    case AllTid => 0
    case AllPoll => 0
    case Check(ok) => if ok && i <= |w.refs| then i else 0
    case _ => |w.refs|
  }

  /** The recursion count of a mutex owned by a thread at pc. */
  predicate DepthOk(pc: Pc, depth: int, x: nat) {
    match pc
    case Unlocking(o, mtx) =>
      if o == x && mtx.MtxClear? then depth == 0
      else depth >= 1 && (o == x && mtx.MtxStore? ==> mtx.c == depth)
    case InAny(w, i, any) => depth >= 1 && (At(w, i, x) && any.RecStore? ==> any.c == depth)
    case Updating(w, k, _, _, upd) =>
      if At(w, k, x) && (upd.UpdLoad? || upd.UpdStore?) then depth == 0 && (upd.UpdStore? ==> upd.c == 0)
      else depth >= 1
    case _ => depth >= 1
  }

  predicate AgreeMutex(pc: Pc, t: nat, tid: Owner, depth: int, x: nat)
    requires InRange(pc)
  {
    && (InHand(pc, x) >= 1 && !(pc.Dying? && pc.dy.DyCount?) ==> depth == 0)
    && (Claims(pc, x) ==> tid == Thread(t))
    && (Denies(pc, x) ==> tid != Thread(t))
    && (tid == Thread(t) ==> DepthOk(pc, depth, x))
    && (pc == Dying(x, DyCount) || pc == Dying(x, DyWrite) ==> tid.Abandoned?)
    && (pc == Dying(x, DyCount) ==> depth >= 1)
  }

  /** A release in progress stays within the limit, and its ULONG sums do not wrap. */
  predicate AgreeSemaphore(pc: Pc, max: nat, x: nat) {
    pc.Releasing? && pc.o == x ==>
      match pc.sem
      case SemLoad => pc.n + max < ULONG_RANGE
      case SemCas(cur) => pc.n + cur <= max && pc.n + max < ULONG_RANGE
      case SemWrite => true
  }

  predicate Agree(pc: Pc, t: nat, obj: Object, x: nat)
    requires InRange(pc)
  {
    match obj
    case Semaphore(_, max, _) => AgreeSemaphore(pc, max, x)
    case Mutex(_, tid, depth) => AgreeMutex(pc, t, tid, depth, x)
    case Event(_, _, _, _) => true
  }

  predicate ObjOk(obj: Object, total: nat) {
    match obj
    case Semaphore(_, max, count) => count <= max <= INT_MAX
    case Mutex(fd, tid, depth) =>
      (fd > 0 ==> depth == 0) && (tid.Thread? ==> tid.id < total)
    case Event(_, _, _, _) => true
  }

  predicate Accounted(s: State, x: nat)
    requires x < |s.objs| && AllInRange(s.threads)
  {
    !s.objs[x].Event? ==> Owed(s.objs[x]) == Hand(s.threads, x)
  }

  /** Objects about which nothing is claimed: semaphores that someone may release by too much. */
  predicate Wilds(wild: set<nat>, objs: seq<Object>) {
    forall x :: 0 <= x < |objs| && x in wild ==> objs[x].Semaphore?
  }

  /** The invariant of all other objects. */
  predicate Inv(s: State, wild: set<nat>) {
    && Wf(s)
    && AllInRange(s.threads)
    && Wilds(wild, s.objs)
    && (forall x :: 0 <= x < |s.objs| && x !in wild ==> ObjOk(s.objs[x], |s.threads|) && Accounted(s, x))
    && (forall t, x :: 0 <= t < |s.threads| && 0 <= x < |s.objs| && x !in wild ==>
          Agree(s.threads[t], t, s.objs[x], x))
  }

  // ----- Counting -----

  lemma {:induction false} MultSplit(a: seq<Ref>, b: seq<Ref>, x: nat)
    ensures Mult(a + b, x) == Mult(a, x) + Mult(b, x)
  {
    if b == [] {
      assert a + b == a;
    } else {
      assert (a + b)[..|a + b| - 1] == a + b[..|b| - 1];
      MultSplit(a, b[..|b| - 1], x);
    }
  }

  lemma {:induction false} MultOne(r: Ref, x: nat)
    ensures Mult([r], x) == One(r, x)
  {
    assert [r][..0] == [];
  }

  lemma {:induction false} MultNext(refs: seq<Ref>, i: nat, x: nat)
    requires i < |refs|
    ensures Mult(refs[..i + 1], x) == Mult(refs[..i], x) + One(refs[i], x)
  {
    assert refs[..i + 1][..i] == refs[..i];
  }

  lemma {:induction false} MultFirst(refs: seq<Ref>, k: nat, n: nat, x: nat)
    requires k < n <= |refs|
    ensures Mult(refs[k..n], x) == One(refs[k], x) + Mult(refs[k + 1..n], x)
  {
    assert refs[k..n] == [refs[k]] + refs[k + 1..n];
    MultSplit([refs[k]], refs[k + 1..n], x);
    MultOne(refs[k], x);
  }

  lemma {:induction false} MultNames(refs: seq<Ref>, x: nat)
    ensures Mult(refs, x) >= 1 ==> Names(refs, x)
  {
    if refs != [] {
      var front := refs[..|refs| - 1];
      MultNames(front, x);
      if Names(front, x) {
        var i :| 0 <= i < |front| && front[i].o == x;
        assert refs[i].o == x;
      } else if Mult(refs, x) >= 1 {
        assert refs[|refs| - 1].o == x;
      }
    }
  }

  lemma {:induction false} HandUpdate(threads: seq<Pc>, t: nat, pc: Pc, x: nat)
    requires AllInRange(threads) && t < |threads| && InRange(pc)
    ensures AllInRange(threads[t := pc])
    ensures Hand(threads[t := pc], x) - InHand(pc, x) == Hand(threads, x) - InHand(threads[t], x)
  {
    var n := |threads| - 1;
    if t == n {
      assert threads[t := pc][..n] == threads[..n];
    } else {
      HandUpdate(threads[..n], t, pc, x);
      assert threads[t := pc][..n] == threads[..n][t := pc];
    }
  }

  lemma {:induction false} HandAtLeast(threads: seq<Pc>, t: nat, x: nat)
    requires AllInRange(threads) && t < |threads|
    ensures InHand(threads[t], x) <= Hand(threads, x)
  {
    if t < |threads| - 1 {
      HandAtLeast(threads[..|threads| - 1], t, x);
    }
  }

  lemma {:induction false} HandAtLeastTwo(threads: seq<Pc>, t: nat, u: nat, x: nat)
    requires AllInRange(threads) && t < |threads| && u < |threads| && t != u
    ensures InHand(threads[t], x) + InHand(threads[u], x) <= Hand(threads, x)
  {
    var n := |threads| - 1;
    if t == n {
      HandAtLeast(threads[..n], u, x);
    } else if u == n {
      HandAtLeast(threads[..n], t, x);
    } else {
      HandAtLeastTwo(threads[..n], t, u, x);
    }
  }

  // ----- The control-flow functions -----

  lemma {:induction false} UpdNextOk(w: Wait, k: nat, n: nat, ab: bool, kinds: seq<Kind>)
    requires 0 < n <= |w.refs| && k <= n && RefsOk(w.refs, kinds)
    requires if w.TakesAll() then n == |w.refs| else k == n || n == k + 1
    ensures WfPc(UpdNext(w, k, n, ab), kinds)
    decreases n - k
  {
    if k < n && !Consumable(w.refs[k].kind) {
      UpdNextOk(w, k + 1, n, ab, kinds);
    }
  }

  /** A place from which a thread relies on nothing about mutex x but its recursion count. */
  ghost predicate Neutral(pc: Pc, x: nat) {
    && !pc.Dying? && !pc.Releasing? && !Claims(pc, x) && !Denies(pc, x)
    && forall d: int :: DepthOk(pc, d, x) == (d >= 1)
  }

  lemma {:induction false} UpdNextAt(w: Wait, k: nat, n: nat, ab: bool, x: nat)
    requires 0 < n <= |w.refs| && k <= n
    ensures var pc := UpdNext(w, k, n, ab);
            (pc.Idle? || pc.Updating?) && InRange(pc) &&
            InHand(pc, x) == Mult(w.refs[k..n], x) && Neutral(pc, x)
    decreases n - k
  {
    if k < n && !Consumable(w.refs[k].kind) {
      MultFirst(w.refs, k, n, x);
      UpdNextAt(w, k + 1, n, ab, x);
    }
  }

  lemma {:induction false} GrabNextOk(w: Wait, i: nat, kinds: seq<Kind>)
    requires i <= |w.refs| && w.TakesAll() && RefsOk(w.refs, kinds)
    ensures WfPc(GrabNext(w, i), kinds)
    decreases |w.refs| - i
  {
    if i == |w.refs| {
      UpdNextOk(w, 0, |w.refs|, false, kinds);
    } else if !Consumable(w.refs[i].kind) {
      GrabNextOk(w, i + 1, kinds);
    }
  }

  /** Where the grab loop goes keeps the units taken so far. */
  lemma {:induction false} GrabNextAt(w: Wait, i: nat, x: nat)
    requires i <= |w.refs| && w.TakesAll()
    ensures var pc := GrabNext(w, i);
            InRange(pc) && InHand(pc, x) == Mult(w.refs[..i], x) &&
            (Neutral(pc, x) || (Names(w.refs, x) && pc.InAll? && pc.w == w && Denied(w, pc.i, pc.all) == |w.refs|))
    decreases |w.refs| - i
  {
    if i == |w.refs| {
      UpdNextAt(w, 0, |w.refs|, false, x);
      assert w.refs[0..|w.refs|] == w.refs[..i];
    } else if !Consumable(w.refs[i].kind) {
      MultNext(w.refs, i, x);
      GrabNextAt(w, i + 1, x);
    } else {
      assert w.refs[..|w.refs|] == w.refs;
    }
  }
}
