/** What the protocol promises its callers in every reachable state and over every run. */
module EsyncGuarantees {
  import opened EsyncModel
  import opened EsyncInvariants
  import opened EsyncSteps
  import opened EsyncRuns
  import opened EsyncSpec

  // ----- Semaphores: no unit is lost or made -----

  function Released(acts: seq<Label>, x: nat): int {
    if acts == [] then 0
    else Released(acts[..|acts| - 1], x) + ReleaseCount(acts[|acts| - 1], x)
  }

  function Grabbed(acts: seq<Label>, x: nat): int {
    if acts == [] then 0
    else Grabbed(acts[..|acts| - 1], x) + GrabCount(acts[|acts| - 1], x)
  }

  lemma {:induction false} SpecTally(a: Spec, acts: seq<Label>, x: nat)
    requires |a.avail| == |a.holder| && x < |a.avail|
    ensures SpecExec(a, acts).avail[x] == a.avail[x] + Released(acts, x) - Grabbed(acts, x)
  {
    if acts != [] {
      SpecTally(a, acts[..|acts| - 1], x);
    }
  }

  /** Units read by an unfinished wait-all, or released and not yet written. */
  function InFlight(s: State, x: nat): int
    requires AllInRange(s.threads)
  {
    Hand(s.threads, x) - Lags(s.threads, x)
  }

  /** In every reachable state: eventfd counter, plus units in flight, plus units grabbed by
      successful waits, is the initial count plus everything released; and neither the counter
      nor the count in shared memory ever leaves the range from zero to the maximum.  It takes a
      release of this very semaphore by too much to break that. */
  lemma {:induction false} SemaphoreConservation(s: State, sched: seq<Move>, x: nat)
    requires Init(s) && Schedules(sched, |s.threads|)
    requires x < |s.objs| && s.objs[x].Semaphore? && x !in Wild(sched, s.objs)
    ensures Wf(s)
    ensures var r := Exec(s, sched);
            && x < |r.state.objs| && r.state.objs[x].Semaphore? && AllInRange(r.state.threads)
            && r.state.objs[x].fd + InFlight(r.state, x) + Grabbed(r.acts, x)
               == s.objs[x].count + Released(r.acts, x)
            && InFlight(r.state, x) >= 0
            && r.state.objs[x].fd <= r.state.objs[x].count <= s.objs[x].max
  {
    RunRefines(s, sched);
    var r := Exec(s, sched);
    SpecTally(SpecInit(s.objs), r.acts, x);
    LagsInHand(r.state.threads, x);
    assert KindOf(s.objs[x]) == KindOf(r.state.objs[x]);
    assert SemaphoreRel(r.state, SpecExec(SpecInit(s.objs), r.acts).avail[x], x);
    assert Accounted(r.state, x) && ObjOk(r.state.objs[x], |s.threads|);
  }

  lemma {:induction false} RefusedByCount(s: State, t: nat, c: Choice, wild: set<nat>, x: nat, n: nat)
    requires Inv(s, wild) && t < |s.threads| && x < |s.objs| && x !in wild && s.objs[x].Semaphore?
    requires s.threads[t] == Releasing(x, n, SemLoad)
    ensures var pc := Step(s, t, c).state.threads[t];
            pc == Idle(Returned(ReleaseSemaphore(x, n), LimitExceeded)) <==> s.objs[x].count + n > s.objs[x].max
  {
    StepReady(s, t, wild);
    LagsInHand(s.threads, x);
    assert Accounted(s, x) && ObjOk(s.objs[x], |s.threads|);
    SmallUlong(s.objs[x].count);
    SmallUlong(n + s.objs[x].count);
  }

  /** Whether a release is refused depends on the count in shared memory, which lags behind: it is
      refused exactly if the units available, those released and the grabs not yet recorded
      exceed the maximum.  So a refusal is spurious only while some grab is not yet recorded. */
  lemma {:induction false} RefusalExactly(s: State, sched: seq<Move>, t: nat, c: Choice, x: nat, n: nat)
    requires Init(s) && Wf(s) && Schedules(sched, |s.threads|) && t < |s.threads|
    requires x < |s.objs| && s.objs[x].Semaphore? && x !in Wild(sched, s.objs)
    requires Exec(s, sched).state.threads[t] == Releasing(x, n, SemLoad)
    ensures var r := Exec(s, sched);
            var avail := SpecExec(SpecInit(s.objs), r.acts).avail[x];
            var pc := Step(r.state, t, c).state.threads[t];
            var refused := pc == Idle(Returned(ReleaseSemaphore(x, n), LimitExceeded));
            && AllInRange(r.state.threads)
            && (refused <==> avail + n + Lags(r.state.threads, x) > s.objs[x].max)
            && (refused && avail + n <= s.objs[x].max ==> Lags(r.state.threads, x) > 0)
  {
    RunRefines(s, sched);
    var r := Exec(s, sched).state;
    assert KindOf(s.objs[x]) == KindOf(r.objs[x]);
    assert SemaphoreRel(r, SpecExec(SpecInit(s.objs), Exec(s, sched).acts).avail[x], x);
    RefusedByCount(r, t, c, Wild(sched, s.objs), x, n);
  }

  // ----- Mutexes -----

  /** Thread t owns mutex x or is the one that has its token. */
  predicate Has(s: State, t: nat, x: nat)
    requires t < |s.threads| && x < |s.objs| && s.objs[x].Mutex? && InRange(s.threads[t])
  {
    s.objs[x].tid == Thread(t) || InHand(s.threads[t], x) >= 1
  }

  lemma {:induction false} MutexExclusion(s: State, t: nat, u: nat, wild: set<nat>, x: nat)
    requires Inv(s, wild) && t < |s.threads| && u < |s.threads| && t != u
    requires x < |s.objs| && s.objs[x].Mutex?
    ensures s.objs[x].fd <= 1
    ensures !(Has(s, t, x) && Has(s, u, x))
    ensures Has(s, t, x) ==> s.objs[x].fd == 0
  {
    HandAtLeastTwo(s.threads, t, u, x);
    assert Accounted(s, x);
  }

  lemma {:induction false} SomeHand(threads: seq<Pc>, x: nat) returns (t: nat)
    requires AllInRange(threads) && Hand(threads, x) > 0
    ensures t < |threads| && InHand(threads[t], x) > 0
  {
    var n := |threads| - 1;
    if InHand(threads[n], x) > 0 {
      t := n;
    } else {
      t := SomeHand(threads[..n], x);
    }
  }

  /** The eventfd of a mutex is readable exactly when no thread has it. */
  lemma {:induction false} MutexFreeExactly(s: State, wild: set<nat>, x: nat)
    requires Inv(s, wild) && x < |s.objs| && s.objs[x].Mutex?
    ensures s.objs[x].fd == 1 <==> forall t :: 0 <= t < |s.threads| ==> !Has(s, t, x)
  {
    assert Accounted(s, x) && ObjOk(s.objs[x], |s.threads|);
    if s.objs[x].fd == 1 {
      forall t | 0 <= t < |s.threads| ensures !Has(s, t, x) {
        HandAtLeast(s.threads, t, x);
      }
    } else if s.objs[x].tid.Thread? {
      assert Has(s, s.objs[x].tid.id, x);
    } else {
      var t := SomeHand(s.threads, x);
      assert Has(s, t, x);
    }
  }

  /** Between the store of the owner and the store of the recursion count, in either order. */
  predicate HalfWritten(pc: Pc, x: nat) {
    match pc
    case Unlocking(o, mtx) => o == x && mtx.MtxClear?
    case Updating(w, k, _, _, upd) => At(w, k, x) && (upd.UpdLoad? || upd.UpdStore?)
    case Dying(o, dy) => o == x && dy.DyCount?
    case _ => false
  }

  lemma {:induction false} HalfWrittenDepth(pc: Pc, t: nat, tid: Owner, depth: int, x: nat)
    requires InRange(pc) && AgreeMutex(pc, t, tid, depth, x) && HalfWritten(pc, x)
    ensures tid.Thread? <==> depth < 1
  {
  }

  /** The recursion count of a mutex is positive exactly when it is owned, in every state except
      those in which some thread has written one half of its record and not yet the other. */
  lemma {:induction false} DepthExactly(s: State, wild: set<nat>, x: nat)
    requires Inv(s, wild) && x < |s.objs| && s.objs[x].Mutex?
    ensures (s.objs[x].tid.Thread? <==> s.objs[x].depth >= 1) <==>
            forall t :: 0 <= t < |s.threads| ==> !HalfWritten(s.threads[t], x)
  {
    var Mutex(fd, tid, depth) := s.objs[x];
    assert Accounted(s, x) && ObjOk(s.objs[x], |s.threads|);
    forall t | 0 <= t < |s.threads| && HalfWritten(s.threads[t], x) ensures tid.Thread? <==> depth < 1 {
      assert Agree(s.threads[t], t, s.objs[x], x);
      HalfWrittenDepth(s.threads[t], t, tid, depth, x);
    }
    if tid.Thread? {
      assert Agree(s.threads[tid.id], tid.id, s.objs[x], x);
    } else if fd == 0 {
      var t := SomeHand(s.threads, x);
      assert Agree(s.threads[t], t, s.objs[x], x);
    }
  }

  /** The places where the code asks "is it mine", and, between calls, the query. */
  predicate AsksOwner(pc: Pc, x: nat) {
    match pc
    case Idle(_) => true
    case Unlocking(o, mtx) => o == x && mtx.MtxTid?
    case InAny(w, i, any) => At(w, i, x) && any.Hint?
    case InAll(w, i, all) => At(w, i, x) && (all.AllTid? || all.GrabTid? || all.BackTid?)
    case Dying(o, dy) => o == x && dy.DyTest?
    case _ => false
  }

  /** "Is it mine" is answered exactly, in every run, although other threads write the same
      record without a lock. */
  lemma {:induction false} OwnershipTestExact(s: State, sched: seq<Move>, t: nat, x: nat)
    requires Init(s) && Wf(s) && Schedules(sched, |s.threads|)
    requires t < |s.threads| && x < |s.objs| && s.objs[x].Mutex?
    requires AsksOwner(Exec(s, sched).state.threads[t], x)
    ensures var r := Exec(s, sched);
            var h := SpecExec(SpecInit(s.objs), r.acts).holder[x];
            && r.state.objs[x].Mutex?
            && (r.state.objs[x].tid == Thread(t) <==> h.Held? && h.t == t)
            && (h.Held? && h.t == t ==> r.state.objs[x].depth == h.depth >= 1)
  {
    RunRefines(s, sched);
    var r := Exec(s, sched).state;
    assert KindOf(s.objs[x]) == KindOf(r.objs[x]);
    var h := SpecExec(SpecInit(s.objs), Exec(s, sched).acts).holder[x];
    assert MutexRel(r, h, x);
    assert Agree(r.threads[t], t, r.objs[x], x);
    if h.Held? && h.t != t && r.objs[x].tid == Thread(t) {
      NobodyElse(r, t, Wild(sched, s.objs), x, h.t);
    } else if h.Free? {
      assert Unheld(r.threads[t], t, r.objs[x].tid, x);
    }
  }

  /** A thread that has exited, and whose mutexes the server has gone through, owns nothing. */
  lemma {:induction false} DeadOwnNothing(s: State, t: nat, wild: set<nat>, x: nat)
    requires Inv(s, wild) && t < |s.threads| && s.threads[t].Dead?
    requires x < |s.objs| && s.objs[x].Mutex?
    ensures !Has(s, t, x)
  {
    assert Agree(s.threads[t], t, s.objs[x], x);
  }

  // ----- One object's share of the invariant -----

  /** All semaphores but x. */
  function AllBut(objs: seq<Object>, x: nat): (wild: set<nat>)
    ensures Wilds(wild, objs) && x !in wild
  {
    set y: nat | 0 <= y < |objs| && y != x && objs[y].Semaphore? :: y
  }

  /** The invariant as far as it concerns x. */
  predicate InvAt(s: State, x: nat) { Inv(s, AllBut(s.objs, x)) }

  /** The schedule does not release x, if it is a semaphore, by too much. */
  predicate Measured(sched: seq<Move>, objs: seq<Object>, x: nat) {
    x < |objs| && objs[x].Semaphore? ==> forall i :: 0 <= i < |sched| ==> !Excessive(sched[i].c, x, objs[x].max)
  }

  lemma {:induction false} MeasuredTame(sched: seq<Move>, objs: seq<Object>, x: nat)
    requires Measured(sched, objs, x)
    ensures Tame(sched, objs, AllBut(objs, x))
  {
  }

  lemma {:induction false} InvShrinks(s: State, wild: set<nat>, x: nat)
    requires Inv(s, wild) && x !in wild
    ensures InvAt(s, x)
  {
  }

  lemma {:induction false} ExecKeepsInvAt(s: State, sched: seq<Move>, x: nat)
    requires InvAt(s, x) && Schedules(sched, |s.threads|) && Measured(sched, s.objs, x)
    ensures Inv(Exec(s, sched).state, AllBut(s.objs, x)) && InvAt(Exec(s, sched).state, x)
  {
    MeasuredTame(sched, s.objs, x);
    ExecKeepsInv(s, sched, AllBut(s.objs, x));
    InvShrinks(Exec(s, sched).state, AllBut(s.objs, x), x);
  }

  /** In every run the invariant of a mutex holds, and that of a semaphore unless it was released by
      too much. */
  lemma {:induction false} ReachableInvAt(s: State, sched: seq<Move>, x: nat)
    requires Init(s) && Schedules(sched, |s.threads|) && Measured(sched, s.objs, x)
    ensures Wf(s) && InvAt(Exec(s, sched).state, x)
  {
    InitInv(s, AllBut(s.objs, x));
    ExecKeepsInvAt(s, sched, x);
  }

  // ----- A wait-all that fails gives back what it took -----

  /** What the other threads' steps did to the eventfd counter of x. */
  function OthersChange(s: State, sched: seq<Move>, t: nat, x: nat): int
    requires Wf(s) && Schedules(sched, |s.threads|) && x < |s.objs|
  {
    if sched == [] then 0
    else
      var n := |sched| - 1;
      var before := Exec(s, sched[..n]).state;
      var after := Step(before, sched[n].t, sched[n].c).state;
      StepWf(before, sched[n].t, sched[n].c);
      OthersChange(s, sched[..n], t, x) +
      (if sched[n].t == t then 0 else after.objs[x].fd - before.objs[x].fd)
  }

  /** In a wait-all that has not succeeded yet, what leaves the eventfd is in the thread's hands. */
  lemma {:induction false} AttemptStep(s: State, t: nat, c: Choice, wild: set<nat>, x: nat)
    requires Inv(s, wild) && t < |s.threads| && s.threads[t].InAll?
    requires x < |s.objs| && x !in wild && !s.objs[x].Event?
    requires Step(s, t, c).state.threads[t].InAll?
    ensures var s' := Step(s, t, c).state;
            && |s'.objs| == |s.objs| && InRange(s'.threads[t])
            && s'.objs[x].fd + InHand(s'.threads[t], x) == s.objs[x].fd + InHand(s.threads[t], x)
  {
    var pc := s.threads[t];
    var o := Focus(pc);
    StepReady(s, t, wild);
    if x == o {
      TouchSound(pc, s.objs[o], t, |s.threads|, c, |s.objs|);
    } else {
      TouchIndifferent(pc, s.objs[o], t, c, |s.objs|, x, 0);
    }
  }

  ghost predicate StaysInAll(s: State, sched: seq<Move>, t: nat)
    requires Wf(s) && Schedules(sched, |s.threads|) && t < |s.threads|
  {
    && Exec(s, sched).state.threads[t].InAll?
    && (sched != [] ==> StaysInAll(s, sched[..|sched| - 1], t))
  }

  lemma {:induction false} AttemptAccount(s: State, sched: seq<Move>, t: nat, x: nat)
    requires InvAt(s, x) && Schedules(sched, |s.threads|) && Measured(sched, s.objs, x)
    requires t < |s.threads| && x < |s.objs| && !s.objs[x].Event? && StaysInAll(s, sched, t)
    ensures var s' := Exec(s, sched).state;
            && InvAt(s', x) && x < |s'.objs|
            && s'.objs[x].fd + InHand(s'.threads[t], x)
               == s.objs[x].fd + InHand(s.threads[t], x) + OthersChange(s, sched, t, x)
  {
    ExecKeepsInvAt(s, sched, x);
    if sched != [] {
      var n := |sched| - 1;
      AttemptAccount(s, sched[..n], t, x);
      var before := Exec(s, sched[..n]).state;
      assert KindOf(s.objs[x]) == KindOf(before.objs[x]);
      if sched[n].t == t {
        AttemptStep(before, t, sched[n].c, AllBut(before.objs, x), x);
      }
    }
  }

  /** From one round of polling to the next, a wait-all that failed in between has changed no
      semaphore's or mutex's counter: what changed is what the others did. */
  lemma {:induction false} FailedAttemptChangesNothing(s: State, sched: seq<Move>, t: nat, w: Wait, x: nat)
    requires InvAt(s, x) && Schedules(sched, |s.threads|) && Measured(sched, s.objs, x)
    requires t < |s.threads| && x < |s.objs| && !s.objs[x].Event? && StaysInAll(s, sched, t)
    requires s.threads[t] == AllNext(w, 0) == Exec(s, sched).state.threads[t]
    ensures Exec(s, sched).state.objs[x].fd == s.objs[x].fd + OthersChange(s, sched, t, x)
  {
    AttemptAccount(s, sched, t, x);
  }

  // ----- What the put-back loop really writes -----

  /** How often x occurs in a list, whatever its kind. */
  function Occ(refs: seq<Ref>, x: nat): nat {
    if refs == [] then 0
    else Occ(refs[..|refs| - 1], x) + (if refs[|refs| - 1].o == x then 1 else 0)
  }

  predicate PuttingBack(pc: Pc) { pc.InAll? && (pc.all.BackTid? || pc.all.BackWrite?) }

  /** Writes to x that the put-back loop still has to do. */
  function Debt(pc: Pc, x: nat): nat
    requires InRange(pc)
  {
    if PuttingBack(pc) then Occ(pc.w.refs[..pc.i + 1], x) else 0
  }

  lemma {:induction false} OccNext(refs: seq<Ref>, i: nat, x: nat)
    requires i < |refs|
    ensures Occ(refs[..i + 1], x) == Occ(refs[..i], x) + (if refs[i].o == x then 1 else 0)
  {
    assert refs[..i + 1][..i] == refs[..i];
  }

  lemma {:induction false} PutBackTouch(pc: Pc, obj: Object, t: nat, c: Choice, x: nat)
    requires CanTouch(pc, obj) && PuttingBack(pc) && !(pc.all.BackTid? && obj.tid == Thread(t))
    ensures var r := TouchAll(pc, obj, t, c);
            && InRange(r.pc)
            && Debt(r.pc, x) + (if x == Focus(pc) then r.obj.fd - obj.fd else 0) == Debt(pc, x)
  {
    OccNext(pc.w.refs, pc.i, x);
    if pc.i == 0 {
      assert pc.w.refs[..0] == [];
    } else {
      assert pc.w.refs[..pc.i] == pc.w.refs[..pc.i - 1 + 1];
    }
  }

  lemma {:induction false} PutBackStep(s: State, t: nat, c: Choice, wild: set<nat>, x: nat)
    requires Inv(s, wild) && t < |s.threads| && PuttingBack(s.threads[t]) && x < |s.objs|
    ensures var s' := Step(s, t, c).state;
            && |s'.objs| == |s.objs| && InRange(s'.threads[t])
            && s'.objs[x].fd + Debt(s'.threads[t], x) == s.objs[x].fd + Debt(s.threads[t], x)
  {
    var pc := s.threads[t];
    StepReady(s, t, wild);
    NamesAt(pc.w.refs, pc.i);
    if pc.all.BackTid? {
      assert Denies(pc, Focus(pc));
    }
    PutBackTouch(pc, s.objs[Focus(pc)], t, c, x);
  }

  /** Thread t is in the put-back loop up to the last state, which may be just past it. */
  ghost predicate StaysPuttingBack(s: State, sched: seq<Move>, t: nat)
    requires Wf(s) && Schedules(sched, |s.threads|) && t < |s.threads|
  {
    sched != [] ==>
      var front := sched[..|sched| - 1];
      PuttingBack(Exec(s, front).state.threads[t]) && StaysPuttingBack(s, front, t)
  }

  /** However the others interfere, the put-back loop writes once for every entry of the list
      that it goes over: not only for those that were read. */
  lemma {:induction false} PutBackWrites(s: State, sched: seq<Move>, t: nat, x: nat)
    requires InvAt(s, x) && Schedules(sched, |s.threads|) && Measured(sched, s.objs, x)
    requires t < |s.threads| && x < |s.objs| && StaysPuttingBack(s, sched, t)
    ensures var s' := Exec(s, sched).state;
            && InvAt(s', x) && x < |s'.objs|
            && s'.objs[x].fd + Debt(s'.threads[t], x)
               == s.objs[x].fd + Debt(s.threads[t], x) + OthersChange(s, sched, t, x)
  {
    ExecKeepsInvAt(s, sched, x);
    if sched != [] {
      var n := |sched| - 1;
      PutBackWrites(s, sched[..n], t, x);
      var before := Exec(s, sched[..n]).state;
      if sched[n].t == t {
        PutBackStep(before, t, sched[n].c, AllBut(before.objs, x), x);
      }
    }
  }

  /** Entries that were read and entries that are written agree except at manual-reset events. */
  lemma {:induction false} TakenAndWritten(refs: seq<Ref>, x: nat)
    ensures Mult(refs, x) <= Occ(refs, x)
    ensures Mult(refs, x) == Occ(refs, x) <==>
            forall i :: 0 <= i < |refs| && refs[i].o == x ==> Consumable(refs[i].kind)
  {
    if refs != [] {
      var n := |refs| - 1;
      var front := refs[..n];
      TakenAndWritten(front, x);
      if forall i :: 0 <= i < |front| && front[i].o == x ==> Consumable(front[i].kind) {
        assert forall i :: 0 <= i < |refs| && refs[i].o == x && i != n ==> front[i].o == x && Consumable(front[i].kind);
      } else {
        var i :| 0 <= i < |front| && front[i].o == x && !Consumable(front[i].kind);
        assert refs[i].o == x && !Consumable(refs[i].kind);
      }
    }
  }

  // ----- A wait-all on a mutex one already owns -----

  /** Still polling for w, or given up on it. */
  predicate NotGranted(pc: Pc, w: Wait) {
    match pc
    case InAll(w', _, all) => w' == w && (all.AllTid? || all.AllPoll? || all.Check?)
    case Idle(last) => last == Returned(WaitFor(w), TimedOut) || last == Returned(WaitFor(w), UserApc)
    case _ => false
  }

  lemma {:induction false} OwnedStep(s: State, t: nat, c: Choice, wild: set<nat>, w: Wait, m: nat)
    requires Inv(s, wild) && t < |s.threads| && NotGranted(s.threads[t], w) && s.threads[t].InAll?
    requires m < |w.refs| && w.refs[m].o < |s.objs| && s.objs[w.refs[m].o].Mutex?
    requires s.objs[w.refs[m].o].tid == Thread(t)
    ensures NotGranted(Step(s, t, c).state.threads[t], w)
  {
    var pc := s.threads[t];
    var x := w.refs[m].o;
    StepReady(s, t, wild);
    HandAtLeast(s.threads, t, x);
    assert Accounted(s, x) && Agree(pc, t, s.objs[x], x);
  }

  /** The recorded owner of a mutex stays its owner while its thread is in a wait. */
  lemma {:induction false} OwnerStays(s: State, t: nat, u: nat, c: Choice, wild: set<nat>, x: nat)
    requires Inv(s, wild) && t < |s.threads| && u < |s.threads|
    requires x < |s.objs| && s.objs[x].Mutex? && s.objs[x].tid == Thread(t)
    requires u == t ==> s.threads[t].InAll? || s.threads[t].Idle?
    ensures var s' := Step(s, u, c).state;
            |s'.objs| == |s.objs| && s'.objs[x].Mutex? && s'.objs[x].tid == Thread(t)
  {
    StepWf(s, u, c);
    assert KindOf(s.objs[x]) == KindOf(Step(s, u, c).state.objs[x]);
    if Focused(s.threads[u]) && Focus(s.threads[u]) == x && u != t {
      StepReady(s, u, wild);
      TouchSound(s.threads[u], s.objs[x], u, |s.threads|, c, |s.objs|);
      HandAtLeast(s.threads, u, x);
      assert Accounted(s, x);
    }
  }

  /** Thread t starts no other call. */
  predicate StartsNothing(sched: seq<Move>, t: nat) {
    forall i :: 0 <= i < |sched| && sched[i].t == t ==> !sched[i].c.Start?
  }

  /** A wait-all whose list contains a mutex the caller owns is never granted, whatever the
      other objects and threads do: it can only time out or be broken off. */
  lemma {:induction false} OwnedMutexNeverGranted(s: State, sched: seq<Move>, t: nat, w: Wait, m: nat)
    requires Schedules(sched, |s.threads|) && t < |s.threads| && w.TakesAll() && s.threads[t] == AllNext(w, 0)
    requires m < |w.refs| && w.refs[m].o < |s.objs| && s.objs[w.refs[m].o].Mutex? && InvAt(s, w.refs[m].o)
    requires s.objs[w.refs[m].o].tid == Thread(t)
    requires StartsNothing(sched, t)
    ensures var s' := Exec(s, sched).state;
            && InvAt(s', w.refs[m].o) && |s'.objs| == |s.objs| && NotGranted(s'.threads[t], w)
            && s'.objs[w.refs[m].o].Mutex? && s'.objs[w.refs[m].o].tid == Thread(t)
  {
    var x := w.refs[m].o;
    ExecKeepsInvAt(s, sched, x);
    if sched != [] {
      var n := |sched| - 1;
      OwnedMutexNeverGranted(s, sched[..n], t, w, m);
      var before := Exec(s, sched[..n]).state;
      OwnerStays(before, t, sched[n].t, sched[n].c, AllBut(before.objs, x), x);
      if sched[n].t == t && before.threads[t].InAll? {
        OwnedStep(before, t, sched[n].c, AllBut(before.objs, x), w, m);
      }
    }
  }
}
