/** A whole wait-all, from its call to its return: what it has done to the counters of semaphores and
    mutexes, whatever the others did meanwhile. */
module EsyncCalls {
  import opened EsyncModel
  import opened EsyncInvariants
  import opened EsyncSteps
  import opened EsyncRuns
  import opened EsyncSpec
  import opened EsyncGuarantees

  predicate Succeeded(status: Status) { status.AllSignaled? || status.AllSignaledAbandoned? }

  /** In the wait-all w, or returned from it. */
  predicate InCall(pc: Pc, w: Wait) {
    match pc
    case InAll(w', _, _) => w' == w
    case Updating(w', _, n, _, _) => w' == w && n == |w.refs|
    case Idle(last) =>
      && last.Returned? && last.call == WaitFor(w)
      && (Succeeded(last.status) || last.status.TimedOut? || last.status.UserApc?)
    case _ => false
  }

  /** What the call has taken out of the eventfd of x and not put back. */
  function Spent(pc: Pc, w: Wait, x: nat): nat
    requires InRange(pc) && InCall(pc, w)
  {
    match pc
    case InAll(_, _, _) => InHand(pc, x)
    case Updating(_, _, _, _, _) => Mult(w.refs, x)
    case Idle(last) => if Succeeded(last.status) then Mult(w.refs, x) else 0
  }

  lemma {:induction false} UpdNextSpent(w: Wait, k: nat, ab: bool, x: nat)
    requires w.TakesAll() && k <= |w.refs|
    ensures var pc := UpdNext(w, k, |w.refs|, ab);
            InRange(pc) && InCall(pc, w) && Spent(pc, w, x) == Mult(w.refs, x)
    decreases |w.refs| - k
  {
    if k < |w.refs| && !Consumable(w.refs[k].kind) {
      UpdNextSpent(w, k + 1, ab, x);
    }
  }

  lemma {:induction false} GrabNextSpent(w: Wait, i: nat, x: nat)
    requires w.TakesAll() && i <= |w.refs|
    ensures var pc := GrabNext(w, i);
            InRange(pc) && InCall(pc, w) && Spent(pc, w, x) == Mult(w.refs[..i], x)
    decreases |w.refs| - i
  {
    if i == |w.refs| {
      UpdNextSpent(w, 0, false, x);
      assert w.refs[..i] == w.refs;
    } else if !Consumable(w.refs[i].kind) {
      MultNext(w.refs, i, x);
      GrabNextSpent(w, i + 1, x);
    }
  }

  lemma {:induction false} BackNextSpent(w: Wait, n: nat, x: nat)
    requires w.TakesAll() && n <= |w.refs|
    ensures var pc := BackNext(w, n);
            InRange(pc) && InCall(pc, w) && Spent(pc, w, x) == Mult(w.refs[..n], x)
  {
    assert w.refs[..0] == [];
  }

  /** The change that an access makes to the counter of x. */
  function Change(pc: Pc, obj: Object, r: Touched, x: nat): int
    requires Focused(pc) && InRange(pc)
  {
    if x == Focus(pc) then r.obj.fd - obj.fd else 0
  }

  lemma {:induction false} PollSpent(pc: Pc, obj: Object, t: nat, c: Choice, x: nat)
    requires CanTouch(pc, obj) && pc.InAll? && pc.w.TakesAll() && (pc.all.AllTid? || pc.all.AllPoll? || pc.all.Check?)
    ensures var r := TouchAll(pc, obj, t, c);
            && InRange(r.pc) && InCall(r.pc, pc.w) && Change(pc, obj, r, x) == 0
            && Spent(r.pc, pc.w, x) == InHand(pc, x) == 0
  {
    assert pc.w.refs[..0] == [];
    GrabNextSpent(pc.w, 0, x);
  }

  lemma {:induction false} GrabSpent(pc: Pc, obj: Object, t: nat, c: Choice, total: nat, x: nat)
    requires CanTouch(pc, obj) && pc.InAll? && pc.w.TakesAll() && (pc.all.GrabTid? || pc.all.GrabRead?)
    requires obj.Mutex? || x == Focus(pc) ==> Ready(pc, obj, t, total)
    requires x == Focus(pc) ==> !obj.Event?
    ensures var r := TouchAll(pc, obj, t, c);
            && InRange(r.pc) && InCall(r.pc, pc.w)
            && Spent(r.pc, pc.w, x) + Change(pc, obj, r, x) == InHand(pc, x)
  {
    var InAll(w, i, all) := pc;
    NamesAt(w.refs, i);
    MultNext(w.refs, i, x);
    if all.GrabRead? {
      GrabNextSpent(w, i + 1, x);
      BackNextSpent(w, i, x);
    } else {
      assert Denies(pc, Focus(pc));
    }
  }

  lemma {:induction false} BackSpent(pc: Pc, obj: Object, t: nat, c: Choice, total: nat, x: nat)
    requires CanTouch(pc, obj) && pc.InAll? && pc.w.TakesAll() && (pc.all.BackTid? || pc.all.BackWrite?)
    requires obj.Mutex? || x == Focus(pc) ==> Ready(pc, obj, t, total)
    requires x == Focus(pc) ==> !obj.Event?
    ensures var r := TouchAll(pc, obj, t, c);
            && InRange(r.pc) && InCall(r.pc, pc.w)
            && Spent(r.pc, pc.w, x) + Change(pc, obj, r, x) == InHand(pc, x)
  {
    var InAll(w, i, all) := pc;
    NamesAt(w.refs, i);
    MultNext(w.refs, i, x);
    BackNextSpent(w, i, x);
    if all.BackTid? {
      assert Denies(pc, Focus(pc));
    }
  }

  lemma {:induction false} UpdateSpent(pc: Pc, obj: Object, t: nat, x: nat)
    requires CanTouch(pc, obj) && pc.Updating? && pc.w.TakesAll() && pc.n == |pc.w.refs|
    ensures var r := TouchUpdate(pc, obj, t);
            && InRange(r.pc) && InCall(r.pc, pc.w) && Change(pc, obj, r, x) == 0
            && Spent(r.pc, pc.w, x) == Mult(pc.w.refs, x)
  {
    UpdNextSpent(pc.w, pc.k + 1, pc.ab, x);
  }

  /** One step of the call. */
  lemma {:induction false} CallStep(s: State, t: nat, c: Choice, wild: set<nat>, w: Wait, x: nat)
    requires Inv(s, wild) && t < |s.threads| && w.TakesAll() && InCall(s.threads[t], w) && !s.threads[t].Idle?
    requires x < |s.objs| && x !in wild && !s.objs[x].Event?
    ensures var s' := Step(s, t, c).state;
            && |s'.objs| == |s.objs| && InRange(s'.threads[t]) && InCall(s'.threads[t], w)
            && s'.objs[x].fd + Spent(s'.threads[t], w, x) == s.objs[x].fd + Spent(s.threads[t], w, x)
  {
    var pc := s.threads[t];
    StepReady(s, t, wild);
    var obj := s.objs[Focus(pc)];
    if pc.Updating? {
      UpdateSpent(pc, obj, t, x);
    } else if pc.all.GrabTid? || pc.all.GrabRead? {
      GrabSpent(pc, obj, t, c, |s.threads|, x);
    } else if pc.all.BackTid? || pc.all.BackWrite? {
      BackSpent(pc, obj, t, c, |s.threads|, x);
    } else {
      PollSpent(pc, obj, t, c, x);
    }
  }

  /** The counter of x and what the call has taken out of it make up this sum. */
  predicate Balanced(s: State, t: nat, w: Wait, x: nat, sum: int) {
    && InvAt(s, x) && x < |s.objs| && t < |s.threads| && InRange(s.threads[t]) && InCall(s.threads[t], w)
    && s.objs[x].fd + Spent(s.threads[t], w, x) == sum
  }

  lemma {:induction false} BalancedStep(s: State, m: Move, t: nat, w: Wait, x: nat, sum: int)
    requires Balanced(s, t, w, x, sum) && w.TakesAll() && !s.objs[x].Event?
    requires m.t < |s.threads| && (m.t == t ==> !m.c.Start?) && InvAt(Step(s, m.t, m.c).state, x)
    ensures var s' := Step(s, m.t, m.c).state;
            && |s'.objs| == |s.objs|
            && Balanced(s', t, w, x, sum + (if m.t == t then 0 else s'.objs[x].fd - s.objs[x].fd))
  {
    StepWf(s, m.t, m.c);
    if m.t == t && !s.threads[t].Idle? {
      CallStep(s, t, m.c, AllBut(s.objs, x), w, x);
    }
  }

  /** However a wait-all ends, and whatever the others do: at every moment from its call on, the
      counter of a semaphore or mutex differs from what the others made of it by exactly what the
      call has in its hands, and after its return by exactly what its status says it took. */
  lemma {:induction false} WaitAllAccount(s: State, sched: seq<Move>, t: nat, w: Wait, x: nat)
    requires InvAt(s, x) && Schedules(sched, |s.threads|) && Measured(sched, s.objs, x)
    requires t < |s.threads| && w.TakesAll() && s.threads[t] == AllNext(w, 0) && StartsNothing(sched, t)
    requires x < |s.objs| && !s.objs[x].Event?
    ensures Balanced(Exec(s, sched).state, t, w, x, s.objs[x].fd + OthersChange(s, sched, t, x))
  {
    if sched == [] {
      assert w.refs[..0] == [];
    } else {
      WaitAllAccount(s, sched[..|sched| - 1], t, w, x);
      BalancedMore(s, sched, t, w, x);
    }
  }

  lemma {:induction false} BalancedMore(s: State, sched: seq<Move>, t: nat, w: Wait, x: nat)
    requires InvAt(s, x) && Schedules(sched, |s.threads|) && Measured(sched, s.objs, x) && sched != []
    requires w.TakesAll() && StartsNothing(sched, t) && x < |s.objs| && !s.objs[x].Event?
    requires var front := sched[..|sched| - 1];
             Balanced(Exec(s, front).state, t, w, x, s.objs[x].fd + OthersChange(s, front, t, x))
    ensures Balanced(Exec(s, sched).state, t, w, x, s.objs[x].fd + OthersChange(s, sched, t, x))
  {
    var n := |sched| - 1;
    var before := Exec(s, sched[..n]).state;
    ExecKeepsInvAt(s, sched, x);
    assert KindOf(s.objs[x]) == KindOf(before.objs[x]);
    BalancedStep(before, sched[n], t, w, x, s.objs[x].fd + OthersChange(s, sched[..n], t, x));
  }

  /** A wait-all that times out or is broken off has changed no counter of a semaphore or mutex, and
      one that succeeds has taken one unit for each time the object is listed. */
  lemma {:induction false} WaitAllTakesAllOrNothing(s: State, sched: seq<Move>, t: nat, w: Wait, status: Status, x: nat)
    requires InvAt(s, x) && Schedules(sched, |s.threads|) && Measured(sched, s.objs, x)
    requires t < |s.threads| && w.TakesAll() && s.threads[t] == AllNext(w, 0) && StartsNothing(sched, t)
    requires x < |s.objs| && !s.objs[x].Event?
    requires Exec(s, sched).state.threads[t] == Idle(Returned(WaitFor(w), status))
    ensures Succeeded(status) || status.TimedOut? || status.UserApc?
    ensures var taken := if Succeeded(status) then Mult(w.refs, x) else 0;
            x < |Exec(s, sched).state.objs| &&
            Exec(s, sched).state.objs[x].fd == s.objs[x].fd + OthersChange(s, sched, t, x) - taken
  {
    WaitAllAccount(s, sched, t, w, x);
  }

  /** So does every wait-all of every run, whatever happened before it was called. */
  lemma {:induction false} EveryWaitAll(s: State, before: seq<Move>, sched: seq<Move>, t: nat, w: Wait,
                                        status: Status, x: nat)
    requires Init(s) && Wf(s) && Schedules(before, |s.threads|) && Schedules(sched, |s.threads|)
    requires t < |s.threads| && x < |s.objs| && !s.objs[x].Event?
    requires Measured(before, s.objs, x) && Measured(sched, s.objs, x)
    requires w.TakesAll() && Exec(s, before).state.threads[t] == AllNext(w, 0) && StartsNothing(sched, t)
    requires Exec(Exec(s, before).state, sched).state.threads[t] == Idle(Returned(WaitFor(w), status))
    ensures Succeeded(status) || status.TimedOut? || status.UserApc?
    ensures var called := Exec(s, before).state;
            var taken := if Succeeded(status) then Mult(w.refs, x) else 0;
            && x < |called.objs| && x < |Exec(called, sched).state.objs|
            && Exec(called, sched).state.objs[x].fd == called.objs[x].fd + OthersChange(called, sched, t, x) - taken
  {
    var called := Exec(s, before).state;
    ReachableInvAt(s, before, x);
    assert KindOf(s.objs[x]) == KindOf(called.objs[x]);
    WaitAllTakesAllOrNothing(called, sched, t, w, status, x);
  }
}
