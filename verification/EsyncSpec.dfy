/** The atomic specification of semaphores and mutexes, and the proof that the protocol
    refines it: a wait-all takes all its semaphores and mutexes in one atomic step. */
module EsyncSpec {
  import opened EsyncModel
  import opened EsyncInvariants
  import opened EsyncSteps
  import opened EsyncRuns

  // ----- The specification -----

  /** A free mutex remembers whether its last holder abandoned it, a held one whether it was so
      when it was grabbed. */
  datatype Holder = Free(abandoned: bool) | Held(t: nat, depth: int, inherited: bool)

  /** For each object, the units available (semaphores) and the holder (mutexes). */
  datatype Spec = Spec(avail: seq<int>, holder: seq<Holder>)

  function Count(os: seq<nat>, x: nat): nat {
    if os == [] then 0
    else Count(os[..|os| - 1], x) + (if os[|os| - 1] == x then 1 else 0)
  }

  function GrabCount(act: Label, x: nat): nat {
    if act.Grab? then Count(act.os, x) else 0
  }

  function ReleaseCount(act: Label, x: nat): nat {
    if act.Release? && act.o == x then act.n else 0
  }

  /** A semaphore never goes below zero or above its maximum. */
  predicate SemaphoreEnabled(avail: int, max: int, act: Label, x: nat) {
    && GrabCount(act, x) <= avail
    && (act.Release? && act.o == x ==> avail + act.n <= max)
  }

  function SemaphoreAfter(avail: int, act: Label, x: nat): int {
    avail + ReleaseCount(act, x) - GrabCount(act, x)
  }

  /** Only a free mutex is grabbed; only its holder locks it again, unlocks it or abandons it. */
  predicate MutexEnabled(h: Holder, act: Label, x: nat) {
    match act
    case Grab(_, os) => Count(os, x) == 0 || (Count(os, x) == 1 && h.Free?)
    case Recur(t, o) => o == x ==> h.Held? && h.t == t
    case Unlock(t, o) => o == x ==> h.Held? && h.t == t
    case Abandon(t, o) => o == x ==> h.Held? && h.t == t
    case _ => true
  }

  function MutexAfter(h: Holder, act: Label, x: nat): Holder {
    match act
    case Grab(t, os) => if Count(os, x) > 0 then Held(t, 1, h.Free? && h.abandoned) else h
    case Recur(_, o) => if o == x && h.Held? then h.(depth := h.depth + 1) else h
    case Unlock(_, o) =>
      if o == x && h.Held? then (if h.depth - 1 == 0 then Free(false) else h.(depth := h.depth - 1)) else h
    case Abandon(_, o) => if o == x then Free(true) else h
    case _ => h
  }

  ghost predicate Sized(a: Spec, objs: seq<Object>) { |a.avail| == |a.holder| == |objs| }

  /** All objects of one action are enabled at once. */
  ghost predicate Enabled(a: Spec, act: Label, objs: seq<Object>, wild: set<nat>)
    requires Sized(a, objs)
  {
    forall x :: 0 <= x < |objs| && x !in wild ==>
      (objs[x].Semaphore? ==> SemaphoreEnabled(a.avail[x], objs[x].max, act, x)) &&
      (objs[x].Mutex? ==> MutexEnabled(a.holder[x], act, x))
  }

  function After(a: Spec, act: Label): (r: Spec)
    requires |a.avail| == |a.holder|
    ensures |r.avail| == |r.holder| == |a.avail|
  {
    Spec(seq(|a.avail|, x requires 0 <= x < |a.avail| => SemaphoreAfter(a.avail[x], act, x)),
         seq(|a.holder|, x requires 0 <= x < |a.holder| => MutexAfter(a.holder[x], act, x)))
  }

  // ----- Grabs that are not yet recorded in shared memory -----

  function Lag(pc: Pc, x: nat): nat
    requires InRange(pc)
  {
    if pc.Updating? then InHand(pc, x) else 0
  }

  function Lags(threads: seq<Pc>, x: nat): nat
    requires AllInRange(threads)
  {
    if threads == [] then 0
    else Lags(threads[..|threads| - 1], x) + Lag(threads[|threads| - 1], x)
  }

  lemma {:induction false} LagsUpdate(threads: seq<Pc>, t: nat, pc: Pc, x: nat)
    requires AllInRange(threads) && t < |threads| && InRange(pc)
    ensures AllInRange(threads[t := pc])
    ensures Lags(threads[t := pc], x) - Lag(pc, x) == Lags(threads, x) - Lag(threads[t], x)
  {
    var n := |threads| - 1;
    if t == n {
      assert threads[t := pc][..n] == threads[..n];
    } else {
      LagsUpdate(threads[..n], t, pc, x);
      assert threads[t := pc][..n] == threads[..n][t := pc];
    }
  }

  lemma {:induction false} LagsInHand(threads: seq<Pc>, x: nat)
    requires AllInRange(threads)
    ensures Lags(threads, x) <= Hand(threads, x)
  {
    if threads != [] {
      LagsInHand(threads[..|threads| - 1], x);
    }
  }

  // ----- The refinement relation -----

  /** Thread t at pc is the holder, at the given depth, of the mutex record (tid, d) of x. */
  ghost predicate HolderAt(pc: Pc, t: nat, tid: Owner, d: int, x: nat, depth: int)
    requires InRange(pc)
  {
    if Lag(pc, x) >= 1 then depth == 1
    else
      && tid == Thread(t) && pc != Unlocking(x, MtxClear)
      && depth == d + (if pc.Updating? && At(pc.w, pc.k, x) && !pc.upd.UpdFirst? && !pc.upd.UpdTid? then 1 else 0)
  }

  ghost predicate Unheld(pc: Pc, t: nat, tid: Owner, x: nat)
    requires InRange(pc)
  {
    Lag(pc, x) == 0 && (tid == Thread(t) ==> pc == Unlocking(x, MtxClear))
  }

  /** Until a grab is recorded, the record still tells whether the mutex was abandoned. */
  ghost predicate Bequest(pc: Pc, tid: Owner, x: nat, inherited: bool)
    requires InRange(pc)
  {
    Lag(pc, x) >= 1 ==> (tid.Abandoned? <==> inherited)
  }

  ghost predicate MutexRel(s: State, h: Holder, x: nat)
    requires x < |s.objs| && s.objs[x].Mutex? && AllInRange(s.threads)
  {
    match h
    case Free(abandoned) =>
      && (forall t :: 0 <= t < |s.threads| ==> Unheld(s.threads[t], t, s.objs[x].tid, x))
      && (s.objs[x].tid.Abandoned? <==> abandoned)
    case Held(t, depth, inherited) =>
      && t < |s.threads| && HolderAt(s.threads[t], t, s.objs[x].tid, s.objs[x].depth, x, depth)
      && Bequest(s.threads[t], s.objs[x].tid, x, inherited)
  }

  /** What a semaphore has available is its count less the grabs not yet recorded. */
  ghost predicate SemaphoreRel(s: State, avail: int, x: nat)
    requires x < |s.objs| && s.objs[x].Semaphore? && AllInRange(s.threads)
  {
    avail == s.objs[x].count - Lags(s.threads, x)
  }

  ghost predicate Rel(s: State, a: Spec, wild: set<nat>)
    requires AllInRange(s.threads)
  {
    && Sized(a, s.objs)
    && forall x :: 0 <= x < |s.objs| && x !in wild ==>
         (s.objs[x].Semaphore? ==> SemaphoreRel(s, a.avail[x], x)) &&
         (s.objs[x].Mutex? ==> MutexRel(s, a.holder[x], x))
  }

  // ----- What one access means -----

  lemma {:induction false} CountReads(refs: seq<Ref>, x: nat)
    ensures Count(Reads(refs), x) == Mult(refs, x)
  {
    if refs != [] {
      var n := |refs| - 1;
      CountReads(refs[..n], x);
      var os := Reads(refs[..n]);
      if Consumable(refs[n].kind) {
        assert (os + [refs[n].o])[..|os|] == os;
      } else {
        assert os + [] == os;
      }
    }
  }

  lemma {:induction false} CountOne(o: nat, x: nat)
    ensures Count([o], x) == if o == x then 1 else 0
  {
    assert [o][..0] == [];
  }

  /** The grab loop leaves for the update loop exactly when nothing is left to read. */
  lemma {:induction false} GrabNextLag(w: Wait, i: nat, x: nat)
    requires i <= |w.refs| && w.TakesAll()
    ensures InRange(GrabNext(w, i))
    ensures Lag(GrabNext(w, i), x) == if NothingLeft(w, i) then Mult(w.refs, x) else 0
    decreases |w.refs| - i
  {
    if i == |w.refs| {
      UpdNextAt(w, 0, |w.refs|, false, x);
      assert w.refs[0..|w.refs|] == w.refs;
    } else if !Consumable(w.refs[i].kind) {
      GrabNextLag(w, i + 1, x);
    }
  }

  /** Whether this access records a grab of x in shared memory. */
  function Records(pc: Pc, mutex: bool, x: nat): nat
    requires InRange(pc)
  {
    if pc.Updating? && pc.w.refs[pc.k].o == x && (if mutex then pc.upd.UpdTid? else pc.upd.UpdFirst?)
    then 1 else 0
  }

  lemma {:induction false} AnyLag(pc: Pc, obj: Object, t: nat, x: nat)
    requires CanTouch(pc, obj) && pc.InAny?
    ensures var r := TouchAny(pc, obj, t); InRange(r.pc) && Lag(r.pc, x) == GrabCount(r.act, x)
  {
    var InAny(w, i, _) := pc;
    MultFirst(w.refs, i, i + 1, x);
    assert w.refs[i + 1..i + 1] == [];
    CountOne(w.refs[i].o, x);
  }

  lemma {:induction false} GrabLag(pc: Pc, obj: Object, t: nat, c: Choice, x: nat)
    requires CanTouch(pc, obj) && pc.InAll? && pc.w.TakesAll() && (obj.Mutex? ==> Agree(pc, t, obj, Focus(pc)))
    requires pc.all.Check? || pc.all.GrabTid? || pc.all.GrabRead?
    ensures var r := TouchAll(pc, obj, t, c); InRange(r.pc) && Lag(r.pc, x) == GrabCount(r.act, x)
  {
    var InAll(w, i, all) := pc;
    CountReads(w.refs, x);
    if all.Check? {
      GrabNextLag(w, 0, x);
    } else if all.GrabTid? {
      NamesAt(w.refs, i);
      assert Denies(pc, w.refs[i].o);
    } else {
      GrabNextLag(w, i + 1, x);
    }
  }

  lemma {:induction false} UpdateLag(pc: Pc, obj: Object, t: nat, x: nat)
    requires CanTouch(pc, obj) && pc.Updating?
    ensures var r := TouchUpdate(pc, obj, t);
            r.act.Tau? && InRange(r.pc) && Lag(r.pc, x) == Lag(pc, x) - Records(pc, obj.Mutex?, x)
  {
    if !obj.Mutex? || pc.upd.UpdStore? {
      LastUpdateLag(pc, obj, t, x);
    } else {
      MultFirst(pc.w.refs, pc.k, pc.n, x);
    }
  }

  lemma {:induction false} LastUpdateLag(pc: Pc, obj: Object, t: nat, x: nat)
    requires CanTouch(pc, obj) && pc.Updating? && (!obj.Mutex? || pc.upd.UpdStore?)
    ensures var r := TouchUpdate(pc, obj, t);
            r.act.Tau? && InRange(r.pc) && Lag(r.pc, x) == Lag(pc, x) - Records(pc, obj.Mutex?, x)
  {
    MultFirst(pc.w.refs, pc.k, pc.n, x);
    UpdNextAt(pc.w, pc.k + 1, pc.n, pc.ab, x);
  }

  /** A thread's unrecorded grabs grow by what the action grabs and shrink by what it records. */
  lemma {:induction false} TouchLag(pc: Pc, obj: Object, t: nat, c: Choice, objects: nat, x: nat)
    requires CanTouch(pc, obj) && (pc.InAll? ==> pc.w.TakesAll())
    requires obj.Mutex? ==> Agree(pc, t, obj, Focus(pc))
    ensures var r := Touch(pc, obj, t, c, objects);
            InRange(r.pc) && Lag(r.pc, x) == Lag(pc, x) + GrabCount(r.act, x) - Records(pc, obj.Mutex?, x)
  {
    match pc {
      case InAny(_, _, _) => AnyLag(pc, obj, t, x);
      case InAll(_, _, all) =>
        if all.Check? || all.GrabTid? || all.GrabRead? {
          GrabLag(pc, obj, t, c, x);
        } else {
          QuietLag(pc, obj, t, c, x);
        }
      case Updating(_, _, _, _, _) => UpdateLag(pc, obj, t, x);
      case _ => NoLag(pc, obj, t, c, objects, x);
    }
  }

  lemma {:induction false} QuietLag(pc: Pc, obj: Object, t: nat, c: Choice, x: nat)
    requires CanTouch(pc, obj) && pc.InAll? && pc.w.TakesAll()
    requires !pc.all.Check? && !pc.all.GrabTid? && !pc.all.GrabRead?
    ensures var r := TouchAll(pc, obj, t, c);
            InRange(r.pc) && Lag(r.pc, x) == 0 && GrabCount(r.act, x) == 0
  {
  }

  /** The other calls grab nothing. */
  lemma {:induction false} NoLag(pc: Pc, obj: Object, t: nat, c: Choice, objects: nat, x: nat)
    requires CanTouch(pc, obj) && !pc.InAny? && !pc.InAll? && !pc.Updating?
    ensures var r := Touch(pc, obj, t, c, objects);
            InRange(r.pc) && Lag(r.pc, x) == 0 && GrabCount(r.act, x) == 0
  {
  }

  // ----- Semaphores -----

  /** The count moves by releases and by recorded grabs only. */
  lemma {:induction false} SemaphoreCount(pc: Pc, obj: Object, t: nat, c: Choice, total: nat, objects: nat)
    requires Ready(pc, obj, t, total) && obj.Semaphore?
    ensures var r := Touch(pc, obj, t, c, objects);
            r.obj.Semaphore? &&
            r.obj.count == obj.count + ReleaseCount(r.act, Focus(pc)) - Records(pc, false, Focus(pc))
  {
    if pc.Releasing? && pc.sem.SemCas? {
      SmallUlong(pc.sem.cur);
      SmallUlong(pc.n + pc.sem.cur);
    }
  }

  /** Only a grab acts on an object other than the one touched. */
  lemma {:induction false} ForeignActs(pc: Pc, obj: Object, t: nat, c: Choice, objects: nat, x: nat)
    requires CanTouch(pc, obj) && x != Focus(pc)
    ensures var act := Touch(pc, obj, t, c, objects).act;
            ReleaseCount(act, x) == 0 && (act.Recur? || act.Unlock? || act.Abandon? ==> act.o != x)
    ensures Records(pc, true, x) == Records(pc, false, x) == 0
  {
  }

  lemma {:induction false} SemaphoreMoves(s: State, t: nat, c: Choice, wild: set<nat>, x: nat)
    requires Inv(s, wild) && t < |s.threads| && x < |s.objs| && x !in wild && s.objs[x].Semaphore?
    ensures var r := Step(s, t, c);
            && |r.state.objs| == |s.objs| && r.state.objs[x].Semaphore? && AllInRange(r.state.threads)
            && r.state.objs[x].count - Lags(r.state.threads, x)
               == s.objs[x].count - Lags(s.threads, x) + ReleaseCount(r.act, x) - GrabCount(r.act, x)
  {
    var pc := s.threads[t];
    StepWf(s, t, c);
    LagsUpdate(s.threads, t, Step(s, t, c).state.threads[t], x);
    if Focused(pc) {
      StepReady(s, t, wild);
      var obj := s.objs[Focus(pc)];
      TouchLag(pc, obj, t, c, |s.objs|, x);
      if x == Focus(pc) {
        SemaphoreCount(pc, obj, t, c, |s.threads|, |s.objs|);
      } else {
        ForeignActs(pc, obj, t, c, |s.objs|, x);
      }
    }
  }

  lemma {:induction false} SemaphoreRefines(s: State, t: nat, c: Choice, wild: set<nat>, avail: int, x: nat)
    requires Inv(s, wild) && t < |s.threads| && TameChoice(c, s.objs, wild)
    requires x < |s.objs| && x !in wild && s.objs[x].Semaphore? && SemaphoreRel(s, avail, x)
    ensures var r := Step(s, t, c);
            && Inv(r.state, wild) && |r.state.objs| == |s.objs| && r.state.objs[x].Semaphore?
            && SemaphoreEnabled(avail, s.objs[x].max, r.act, x)
            && SemaphoreRel(r.state, SemaphoreAfter(avail, r.act, x), x)
  {
    var r := Step(s, t, c);
    StepKeepsInv(s, t, c, wild);
    StepWf(s, t, c);
    SemaphoreMoves(s, t, c, wild, x);
    LagsInHand(r.state.threads, x);
    LagsInHand(s.threads, x);
    assert Accounted(s, x) && Accounted(r.state, x) && ObjOk(r.state.objs[x], |s.threads|);
  }

  // ----- Mutexes -----

  /** The holder's own access to the mutex it holds. */
  lemma {:induction false} HolderSteps(pc: Pc, obj: Object, t: nat, c: Choice, total: nat, objects: nat, h: Holder)
    requires Ready(pc, obj, t, total) && obj.Mutex? && h.Held? && h.t == t
    requires HolderAt(pc, t, obj.tid, obj.depth, Focus(pc), h.depth) && Bequest(pc, obj.tid, Focus(pc), h.inherited)
    requires GrabCount(Touch(pc, obj, t, c, objects).act, Focus(pc)) == 0
    ensures var r := Touch(pc, obj, t, c, objects);
            var h' := MutexAfter(h, r.act, Focus(pc));
            && InRange(r.pc) && r.obj.Mutex?
            && MutexEnabled(h, r.act, Focus(pc))
            && (h'.Held? ==> h'.t == t && h'.inherited == h.inherited &&
                             HolderAt(r.pc, t, r.obj.tid, r.obj.depth, Focus(pc), h'.depth) &&
                             Bequest(r.pc, r.obj.tid, Focus(pc), h'.inherited))
            && (h'.Free? ==> obj.tid == Thread(t) && Unheld(r.pc, t, r.obj.tid, Focus(pc)) &&
                             (r.obj.tid == Thread(t) || !r.obj.tid.Thread?) && (r.obj.tid.Abandoned? <==> h'.abandoned))
  {
    TouchLag(pc, obj, t, c, objects, Focus(pc));
    if pc.InAll? {
      NamesAt(pc.w.refs, pc.i);
    } else if pc.Updating? && pc.upd.UpdStore? {
      UpdNextAt(pc.w, pc.k + 1, pc.n, pc.ab, Focus(pc));
    }
  }

  lemma {:induction false} ClaimsFocus(pc: Pc, x: nat)
    requires InRange(pc) && Claims(pc, x)
    ensures Focused(pc) && Focus(pc) == x
  {
  }

  /** A grab changes no record; recording comes later. */
  lemma {:induction false} GrabKeepsRecord(pc: Pc, obj: Object, t: nat, c: Choice, objects: nat)
    requires CanTouch(pc, obj) && obj.Mutex? && Touch(pc, obj, t, c, objects).act.Grab?
    ensures var r := Touch(pc, obj, t, c, objects);
            r.obj.Mutex? && r.obj.tid == obj.tid && r.obj.depth == obj.depth && r.act.t == t && !pc.Updating?
  {
  }

  /** An action on a mutex by a thread that does not own it is at most a grab. */
  lemma {:induction false} OnlyOwnersAct(pc: Pc, obj: Object, t: nat, c: Choice, objects: nat)
    requires CanTouch(pc, obj) && obj.Mutex? && Agree(pc, t, obj, Focus(pc)) && obj.tid != Thread(t)
    ensures var act := Touch(pc, obj, t, c, objects).act;
            !act.Recur? && !act.Unlock? && !act.Abandon?
  {
  }

  /** What a step means at mutex x, and what it does to x and to its own place. */
  lemma {:induction false} StepAt(s: State, t: nat, c: Choice, wild: set<nat>, x: nat)
    requires Inv(s, wild) && t < |s.threads| && TameChoice(c, s.objs, wild) && x < |s.objs| && s.objs[x].Mutex?
    ensures var r := Step(s, t, c);
            var pc, pc' := s.threads[t], r.state.threads[t];
            && Inv(r.state, wild) && |r.state.objs| == |s.objs| && r.state.objs[x].Mutex?
            && Lag(pc', x) == Lag(pc, x) + GrabCount(r.act, x) - Records(pc, true, x)
            && Discreet(pc, s.objs[x], t, x, r.state.objs[x])
            && (r.act.Grab? && GrabCount(r.act, x) > 0 ==>
                  r.act.t == t && Lag(pc, x) == 0 && r.state.objs[x].tid == s.objs[x].tid)
            && (s.objs[x].tid != Thread(t) && (r.act.Recur? || r.act.Unlock? || r.act.Abandon?) ==> r.act.o != x)
  {
    StepKeepsInv(s, t, c, wild);
    StepWf(s, t, c);
    StepLag(s, t, c, wild, x);
    StepActs(s, t, c, wild, x);
  }

  lemma {:induction false} StepLag(s: State, t: nat, c: Choice, wild: set<nat>, x: nat)
    requires Inv(s, wild) && t < |s.threads| && x < |s.objs| && s.objs[x].Mutex? && Wf(Step(s, t, c).state)
    requires t < |Step(s, t, c).state.threads|
    ensures var r := Step(s, t, c);
            var pc, pc' := s.threads[t], r.state.threads[t];
            InRange(pc') && Lag(pc', x) == Lag(pc, x) + GrabCount(r.act, x) - Records(pc, true, x)
  {
    var pc := s.threads[t];
    if Focused(pc) {
      StepReady(s, t, wild);
      TouchLag(pc, s.objs[Focus(pc)], t, c, |s.objs|, x);
    }
  }

  lemma {:induction false} StepActs(s: State, t: nat, c: Choice, wild: set<nat>, x: nat)
    requires Inv(s, wild) && t < |s.threads| && x < |s.objs| && s.objs[x].Mutex?
    requires |Step(s, t, c).state.objs| == |s.objs| && Step(s, t, c).state.objs[x].Mutex?
    ensures var r := Step(s, t, c);
            var pc := s.threads[t];
            && Discreet(pc, s.objs[x], t, x, r.state.objs[x])
            && (r.act.Grab? && GrabCount(r.act, x) > 0 ==>
                  r.act.t == t && Lag(pc, x) == 0 && r.state.objs[x].tid == s.objs[x].tid)
            && (s.objs[x].tid != Thread(t) && (r.act.Recur? || r.act.Unlock? || r.act.Abandon?) ==> r.act.o != x)
  {
    var pc := s.threads[t];
    var r := Step(s, t, c);
    if Focused(pc) {
      StepReady(s, t, wild);
      var o := Focus(pc);
      if x == o {
        TouchSound(pc, s.objs[o], t, |s.threads|, c, |s.objs|);
        if s.objs[x].tid != Thread(t) {
          OnlyOwnersAct(pc, s.objs[o], t, c, |s.objs|);
        }
        if r.act.Grab? {
          GrabKeepsRecord(pc, s.objs[o], t, c, |s.objs|);
        }
      } else {
        ForeignActs(pc, s.objs[o], t, c, |s.objs|, x);
        GrabbersGrab(pc, s.objs[o], t, c, |s.objs|);
      }
    }
  }

  lemma {:induction false} GrabbersGrab(pc: Pc, obj: Object, t: nat, c: Choice, objects: nat)
    requires CanTouch(pc, obj)
    ensures var act := Touch(pc, obj, t, c, objects).act; act.Grab? ==> act.t == t && !pc.Updating?
  {
  }

  /** A grab finds the mutex free: its token came out of the eventfd. */
  lemma {:induction false} MutexGrabbed(s: State, t: nat, c: Choice, wild: set<nat>, h: Holder, x: nat)
    requires Inv(s, wild) && t < |s.threads| && TameChoice(c, s.objs, wild)
    requires x < |s.objs| && s.objs[x].Mutex? && MutexRel(s, h, x)
    requires GrabCount(Step(s, t, c).act, x) > 0
    ensures var r := Step(s, t, c);
            && Inv(r.state, wild) && |r.state.objs| == |s.objs| && r.state.objs[x].Mutex?
            && MutexEnabled(h, r.act, x) && MutexRel(r.state, MutexAfter(h, r.act, x), x)
  {
    var r := Step(s, t, c);
    StepAt(s, t, c, wild, x);
    StepWf(s, t, c);
    HandAtLeast(r.state.threads, t, x);
    assert Accounted(r.state, x);
    if h.Held? && h.t != t {
      HandAtLeastTwo(r.state.threads, t, h.t, x);
    }
  }

  lemma {:induction false} MutexStaysFree(s: State, t: nat, c: Choice, wild: set<nat>, h: Holder, x: nat)
    requires Inv(s, wild) && t < |s.threads| && TameChoice(c, s.objs, wild)
    requires x < |s.objs| && s.objs[x].Mutex? && MutexRel(s, h, x) && h.Free?
    requires GrabCount(Step(s, t, c).act, x) == 0
    ensures var r := Step(s, t, c);
            && Inv(r.state, wild) && |r.state.objs| == |s.objs| && r.state.objs[x].Mutex?
            && MutexEnabled(h, r.act, x) && MutexRel(r.state, MutexAfter(h, r.act, x), x)
  {
    var r := Step(s, t, c);
    var pc := s.threads[t];
    var tid := s.objs[x].tid;
    StepAt(s, t, c, wild, x);
    StepWf(s, t, c);
    assert Unheld(pc, t, tid, x) && Agree(pc, t, s.objs[x], x);
    FreeStep(s, t, c, wild, x);
    forall u | 0 <= u < |s.threads| ensures Unheld(r.state.threads[u], u, r.state.objs[x].tid, x) {
      assert Unheld(s.threads[u], u, tid, x);
    }
  }

  /** A thread that holds nothing of x at most lets go of a mutex it has already unlocked. */
  lemma {:induction false} FreeStep(s: State, t: nat, c: Choice, wild: set<nat>, x: nat)
    requires Inv(s, wild) && t < |s.threads| && x < |s.objs| && s.objs[x].Mutex?
    requires Unheld(s.threads[t], t, s.objs[x].tid, x)
    ensures var r := Step(s, t, c);
            && |r.state.objs| == |s.objs| && r.state.objs[x].Mutex?
            && (r.state.objs[x].tid == s.objs[x].tid || !r.state.objs[x].tid.Thread?)
            && (r.state.objs[x].tid.Abandoned? <==> s.objs[x].tid.Abandoned?)
            && r.state.objs[x].tid != Thread(t)
            && (r.act.Recur? || r.act.Unlock? || r.act.Abandon? ==> r.act.o != x)
  {
    var pc := s.threads[t];
    StepWf(s, t, c);
    assert Agree(pc, t, s.objs[x], x);
    if Focused(pc) {
      StepReady(s, t, wild);
      if Focus(pc) == x {
        if pc.Updating? {
          MultFirst(pc.w.refs, pc.k, pc.n, x);
        }
      } else {
        ForeignActs(pc, s.objs[Focus(pc)], t, c, |s.objs|, x);
      }
    }
  }

  /** Another thread's step leaves the holder its mutex. */
  lemma {:induction false} MutexStaysHeld(s: State, t: nat, c: Choice, wild: set<nat>, h: Holder, x: nat)
    requires Inv(s, wild) && t < |s.threads| && TameChoice(c, s.objs, wild)
    requires x < |s.objs| && s.objs[x].Mutex? && MutexRel(s, h, x) && h.Held? && h.t != t
    requires GrabCount(Step(s, t, c).act, x) == 0
    ensures var r := Step(s, t, c);
            && Inv(r.state, wild) && |r.state.objs| == |s.objs| && r.state.objs[x].Mutex?
            && MutexEnabled(h, r.act, x) && MutexRel(r.state, MutexAfter(h, r.act, x), x)
  {
    StepAt(s, t, c, wild, x);
    StepWf(s, t, c);
    HandAtLeastTwo(s.threads, t, h.t, x);
    assert Accounted(s, x);
  }

  /** The holder's own step. */
  lemma {:induction false} MutexHolderMoves(s: State, t: nat, c: Choice, wild: set<nat>, h: Holder, x: nat)
    requires Inv(s, wild) && t < |s.threads| && TameChoice(c, s.objs, wild)
    requires x < |s.objs| && s.objs[x].Mutex? && MutexRel(s, h, x) && h.Held? && h.t == t
    requires GrabCount(Step(s, t, c).act, x) == 0
    ensures var r := Step(s, t, c);
            && Inv(r.state, wild) && |r.state.objs| == |s.objs| && r.state.objs[x].Mutex?
            && MutexEnabled(h, r.act, x) && MutexRel(r.state, MutexAfter(h, r.act, x), x)
  {
    var r := Step(s, t, c);
    var pc := s.threads[t];
    StepAt(s, t, c, wild, x);
    StepWf(s, t, c);
    if Focused(pc) && Focus(pc) == x {
      StepReady(s, t, wild);
      HolderSteps(pc, s.objs[x], t, c, |s.threads|, |s.objs|, h);
      if MutexAfter(h, r.act, x).Free? {
        forall u | 0 <= u < |s.threads| ensures Unheld(r.state.threads[u], u, r.state.objs[x].tid, x) {
          NobodyElse(s, t, wild, x, u);
        }
      }
    } else {
      HolderElsewhere(s, t, c, wild, h, x);
    }
  }

  /** While t owns x, no other thread has anything of it. */
  lemma {:induction false} NobodyElse(s: State, t: nat, wild: set<nat>, x: nat, u: nat)
    requires Inv(s, wild) && x < |s.objs| && s.objs[x].Mutex? && s.objs[x].tid == Thread(t)
    requires u < |s.threads|
    ensures InHand(s.threads[u], x) == 0
  {
    HandAtLeast(s.threads, u, x);
    assert Accounted(s, x);
  }

  lemma {:induction false} HolderElsewhere(s: State, t: nat, c: Choice, wild: set<nat>, h: Holder, x: nat)
    requires Inv(s, wild) && t < |s.threads| && TameChoice(c, s.objs, wild)
    requires x < |s.objs| && s.objs[x].Mutex? && MutexRel(s, h, x) && h.Held? && h.t == t
    requires GrabCount(Step(s, t, c).act, x) == 0
    requires Focused(s.threads[t]) ==> Focus(s.threads[t]) != x
    ensures var r := Step(s, t, c);
            && |r.state.objs| == |s.objs| && r.state.objs[x] == s.objs[x]
            && MutexEnabled(h, r.act, x) && MutexAfter(h, r.act, x) == h
            && InRange(r.state.threads[t])
            && HolderAt(r.state.threads[t], t, s.objs[x].tid, s.objs[x].depth, x, h.depth)
            && Bequest(r.state.threads[t], s.objs[x].tid, x, h.inherited)
  {
    var pc := s.threads[t];
    var pc' := Step(s, t, c).state.threads[t];
    StepAt(s, t, c, wild, x);
    assert Agree(pc, t, s.objs[x], x);
    if Focused(pc) {
      StepReady(s, t, wild);
      ForeignActs(pc, s.objs[Focus(pc)], t, c, |s.objs|, x);
      TouchIndifferent(pc, s.objs[Focus(pc)], t, c, |s.objs|, x, 0);
      if Claims(pc', x) {
        ClaimsFocus(pc, x);
      }
    } else if Claims(pc', x) {
      ClaimsFocus(pc', x);
    }
  }

  lemma {:induction false} MutexRefines(s: State, t: nat, c: Choice, wild: set<nat>, h: Holder, x: nat)
    requires Inv(s, wild) && t < |s.threads| && TameChoice(c, s.objs, wild)
    requires x < |s.objs| && s.objs[x].Mutex? && MutexRel(s, h, x)
    ensures var r := Step(s, t, c);
            && Inv(r.state, wild) && |r.state.objs| == |s.objs| && r.state.objs[x].Mutex?
            && MutexEnabled(h, r.act, x) && MutexRel(r.state, MutexAfter(h, r.act, x), x)
  {
    if GrabCount(Step(s, t, c).act, x) > 0 {
      MutexGrabbed(s, t, c, wild, h, x);
    } else if h.Free? {
      MutexStaysFree(s, t, c, wild, h, x);
    } else if h.t != t {
      MutexStaysHeld(s, t, c, wild, h, x);
    } else {
      MutexHolderMoves(s, t, c, wild, h, x);
    }
  }

  // ----- Runs of the specification -----

  function SpecExec(a: Spec, acts: seq<Label>): (r: Spec)
    requires |a.avail| == |a.holder|
    ensures |r.avail| == |r.holder| == |a.avail|
  {
    if acts == [] then a else After(SpecExec(a, acts[..|acts| - 1]), acts[|acts| - 1])
  }

  /** Every action of the sequence is enabled when its turn comes. */
  ghost predicate SpecAllows(a: Spec, acts: seq<Label>, objs: seq<Object>, wild: set<nat>)
    requires Sized(a, objs)
  {
    acts != [] ==>
      var n := |acts| - 1;
      SpecAllows(a, acts[..n], objs, wild) && Enabled(SpecExec(a, acts[..n]), acts[n], objs, wild)
  }

  function SpecInit(objs: seq<Object>): (a: Spec)
    ensures |a.avail| == |a.holder| == |objs|
  {
    Spec(seq(|objs|, x requires 0 <= x < |objs| => if objs[x].Semaphore? then objs[x].count else 0),
         seq(|objs|, x requires 0 <= x < |objs| =>
           if objs[x].Mutex? && objs[x].tid.Thread? then Held(objs[x].tid.id, 1, false) else Free(false)))
  }

  lemma {:induction false} IdleLags(threads: seq<Pc>, x: nat)
    requires forall t :: 0 <= t < |threads| ==> threads[t].Idle?
    ensures AllInRange(threads) && Lags(threads, x) == 0
  {
    if threads != [] {
      IdleLags(threads[..|threads| - 1], x);
    }
  }

  lemma {:induction false} InitRel(s: State, wild: set<nat>)
    requires Init(s) && Wilds(wild, s.objs)
    ensures Inv(s, wild) && Rel(s, SpecInit(s.objs), wild)
  {
    InitInv(s, wild);
    forall x | 0 <= x < |s.objs| ensures Lags(s.threads, x) == 0 {
      IdleLags(s.threads, x);
    }
  }

  lemma {:induction false} StepRefines(s: State, t: nat, c: Choice, wild: set<nat>, a: Spec)
    requires Inv(s, wild) && t < |s.threads| && TameChoice(c, s.objs, wild) && Rel(s, a, wild)
    ensures var r := Step(s, t, c);
            Inv(r.state, wild) && Enabled(a, r.act, s.objs, wild) && Rel(r.state, After(a, r.act), wild)
  {
    var r := Step(s, t, c);
    StepKeepsInv(s, t, c, wild);
    StepWf(s, t, c);
    forall x | 0 <= x < |s.objs| && x !in wild
      ensures s.objs[x].Semaphore? ==>
                (r.state.objs[x].Semaphore? &&
                 SemaphoreEnabled(a.avail[x], s.objs[x].max, r.act, x) &&
                 SemaphoreRel(r.state, After(a, r.act).avail[x], x))
      ensures s.objs[x].Mutex? ==>
                (r.state.objs[x].Mutex? &&
                 MutexEnabled(a.holder[x], r.act, x) &&
                 MutexRel(r.state, After(a, r.act).holder[x], x))
    {
      if s.objs[x].Semaphore? {
        SemaphoreRefines(s, t, c, wild, a.avail[x], x);
      } else if s.objs[x].Mutex? {
        MutexRefines(s, t, c, wild, a.holder[x], x);
      }
    }
  }

  lemma {:induction false} EnabledSameShape(a: Spec, act: Label, objs: seq<Object>, objs': seq<Object>, wild: set<nat>)
    requires SameShape(objs, objs') && Sized(a, objs') && Enabled(a, act, objs', wild)
    ensures Enabled(a, act, objs, wild)
  {
    forall x | 0 <= x < |objs| && x !in wild
      ensures objs[x].Semaphore? ==> SemaphoreEnabled(a.avail[x], objs[x].max, act, x)
      ensures objs[x].Mutex? ==> MutexEnabled(a.holder[x], act, x)
    {
      assert KindOf(objs[x]) == KindOf(objs'[x]);
    }
  }

  /** A run as far as the objects outside a set go. */
  lemma {:induction false} TameRunRefines(s: State, sched: seq<Move>, wild: set<nat>)
    requires Init(s) && Schedules(sched, |s.threads|) && Wilds(wild, s.objs) && Tame(sched, s.objs, wild)
    ensures Inv(s, wild)
    ensures var r := Exec(s, sched); var a := SpecInit(s.objs);
            Inv(r.state, wild) && SpecAllows(a, r.acts, s.objs, wild) && Rel(r.state, SpecExec(a, r.acts), wild)
  {
    InitRel(s, wild);
    if sched != [] {
      var n := |sched| - 1;
      var a := SpecInit(s.objs);
      TameRunRefines(s, sched[..n], wild);
      var before := Exec(s, sched[..n]);
      var mid := SpecExec(a, before.acts);
      assert TameChoice(sched[n].c, s.objs, wild);
      StepRefines(before.state, sched[n].t, sched[n].c, wild, mid);
      var r := Exec(s, sched);
      assert r.acts[..n] == before.acts;
      EnabledSameShape(mid, r.acts[n], s.objs, before.state.objs, wild);
    }
  }

  /** Every run, under every schedule, is a run of the atomic specification: each wait-all that
      succeeds takes everything it waits for at the one step that carries its Grab, and a
      wait-all that is still in progress, or fails, has taken nothing.  Only semaphores that the
      schedule releases by too much are left out of account. */
  lemma {:induction false} RunRefines(s: State, sched: seq<Move>)
    requires Init(s) && Schedules(sched, |s.threads|)
    ensures var wild := Wild(sched, s.objs);
            && Inv(s, wild)
            && var r := Exec(s, sched); var a := SpecInit(s.objs);
               Inv(r.state, wild) && SpecAllows(a, r.acts, s.objs, wild) && Rel(r.state, SpecExec(a, r.acts), wild)
  {
    AlwaysTame(sched, s.objs);
    TameRunRefines(s, sched, Wild(sched, s.objs));
  }
}
