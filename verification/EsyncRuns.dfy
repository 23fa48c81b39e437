/** Runs under arbitrary schedules, and the safety of every reachable state. */
module EsyncRuns {
  import opened EsyncModel
  import opened EsyncInvariants
  import opened EsyncSteps

  // ----- One step -----

  /** Steps change no object's kind and no semaphore's maximum. */
  ghost predicate SameShape(a: seq<Object>, b: seq<Object>) {
    && |a| == |b|
    && forall x :: 0 <= x < |a| ==>
         KindOf(a[x]) == KindOf(b[x]) && (a[x].Semaphore? && b[x].Semaphore? ==> a[x].max == b[x].max)
  }

  lemma {:induction false} SameShapeKinds(a: seq<Object>, b: seq<Object>)
    requires SameShape(a, b)
    ensures KindsOf(a) == KindsOf(b)
  {
  }

  lemma {:induction false} BeginWf(call: Call, kinds: seq<Kind>)
    requires Legal(call, kinds)
    ensures WfPc(Begin(call, kinds), kinds)
  {
  }

  lemma {:induction false} ThinkWf(pc: Pc, c: Choice, kinds: seq<Kind>)
    requires WfPc(pc, kinds) && !Focused(pc)
    ensures WfPc(Think(pc, c, kinds), kinds)
  {
    if pc.Idle? && c.Start? && Legal(c.call, kinds) {
      BeginWf(c.call, kinds);
    }
  }

  lemma {:induction false} TouchMax(pc: Pc, obj: Object, t: nat, c: Choice, total: nat)
    requires CanTouch(pc, obj) && obj.Semaphore?
    ensures var r := Touch(pc, obj, t, c, total).obj; r.Semaphore? && r.max == obj.max
  {
  }

  lemma {:induction false} StepWf(s: State, t: nat, c: Choice)
    requires Wf(s) && t < |s.threads|
    ensures var s' := Step(s, t, c).state;
            Wf(s') && |s'.threads| == |s.threads| && SameShape(s.objs, s'.objs)
  {
    var pc := s.threads[t];
    var kinds := KindsOf(s.objs);
    var s' := Step(s, t, c).state;
    if Focused(pc) {
      var o := Focus(pc);
      TouchWf(pc, s.objs[o], t, c, kinds);
      if s.objs[o].Semaphore? {
        TouchMax(pc, s.objs[o], t, c, |s.objs|);
      }
    } else {
      ThinkWf(pc, c, kinds);
    }
    SameShapeKinds(s.objs, s'.objs);
  }

  /** A release, of a semaphore that matters, whose ULONG sum with the maximum does not wrap. */
  ghost predicate TameChoice(c: Choice, objs: seq<Object>, wild: set<nat>) {
    c.Start? && c.call.ReleaseSemaphore? && c.call.o < |objs| && objs[c.call.o].Semaphore? && c.call.o !in wild ==>
      c.call.n + objs[c.call.o].max < ULONG_RANGE
  }

  lemma {:induction false} ThinkIndifferent(pc: Pc, c: Choice, kinds: seq<Kind>, x: nat, d: int)
    requires InRange(pc) && !Focused(pc) && x < |kinds|
    requires !Think(pc, c, kinds).Releasing?
    ensures Indifferent(pc, Think(pc, c, kinds), x, d)
  {
  }

  lemma {:induction false} ThinkAgrees(pc: Pc, c: Choice, t: nat, objs: seq<Object>, wild: set<nat>, x: nat)
    requires InRange(pc) && !Focused(pc) && x < |objs| && x !in wild && TameChoice(c, objs, wild)
    requires Agree(pc, t, objs[x], x)
    ensures InRange(Think(pc, c, KindsOf(objs)))
    ensures InHand(Think(pc, c, KindsOf(objs)), x) == InHand(pc, x)
    ensures Agree(Think(pc, c, KindsOf(objs)), t, objs[x], x)
  {
    var pc' := Think(pc, c, KindsOf(objs));
    if !pc'.Releasing? {
      var d := if objs[x].Mutex? then objs[x].depth else 1;
      ThinkIndifferent(pc, c, KindsOf(objs), x, d);
      IndifferentAgrees(pc, pc', t, x, objs[x]);
    }
  }

  lemma {:induction false} ThinkKeepsInv(s: State, t: nat, c: Choice, wild: set<nat>)
    requires Inv(s, wild) && t < |s.threads| && !Focused(s.threads[t]) && TameChoice(c, s.objs, wild)
    ensures Inv(Step(s, t, c).state, wild)
  {
    var s' := Step(s, t, c).state;
    StepWf(s, t, c);
    forall x | 0 <= x < |s.objs| && x !in wild
      ensures Accounted(s', x) && Agree(s'.threads[t], t, s.objs[x], x)
    {
      assert Accounted(s, x) && Agree(s.threads[t], t, s.objs[x], x);
      ThinkAgrees(s.threads[t], c, t, s.objs, wild, x);
      HandUpdate(s.threads, t, s'.threads[t], x);
    }
  }

  /** The facts about the touched object that a step starts from. */
  lemma {:induction false} StepReady(s: State, t: nat, wild: set<nat>)
    requires Inv(s, wild) && t < |s.threads| && Focused(s.threads[t])
    ensures var pc := s.threads[t];
            && Focus(pc) < |s.objs| && CanTouch(pc, s.objs[Focus(pc)])
            && (pc.InAll? ==> pc.w.TakesAll())
            && (s.objs[Focus(pc)].Mutex? ==> Focus(pc) !in wild)
            && (Focus(pc) !in wild ==> Ready(pc, s.objs[Focus(pc)], t, |s.threads|))
  {
    var pc := s.threads[t];
    var o := Focus(pc);
    assert WfPc(pc, KindsOf(s.objs));
    if o !in wild {
      assert Accounted(s, o) && ObjOk(s.objs[o], |s.threads|) && Agree(pc, t, s.objs[o], o);
      HandAtLeast(s.threads, t, o);
    }
  }

  lemma {:induction false} TouchKeepsAccount(s: State, t: nat, c: Choice, wild: set<nat>, x: nat)
    requires Inv(s, wild) && t < |s.threads| && Focused(s.threads[t]) && x < |s.objs| && x !in wild
    ensures var s' := Step(s, t, c).state;
            AllInRange(s'.threads) && x < |s'.objs| && Accounted(s', x) && ObjOk(s'.objs[x], |s.threads|)
  {
    var pc := s.threads[t];
    var o := Focus(pc);
    StepReady(s, t, wild);
    var r := Touch(pc, s.objs[o], t, c, |s.objs|);
    assert Accounted(s, x) && ObjOk(s.objs[x], |s.threads|);
    if x != o {
      TouchIndifferent(pc, s.objs[o], t, c, |s.objs|, x, 0);
    } else {
      TouchSound(pc, s.objs[o], t, |s.threads|, c, |s.objs|);
    }
    HandUpdate(s.threads, t, r.pc, x);
  }

  lemma {:induction false} TouchKeepsAgreement(s: State, t: nat, c: Choice, wild: set<nat>, u: nat, x: nat)
    requires Inv(s, wild) && t < |s.threads| && Focused(s.threads[t]) && u < |s.threads|
    requires x < |s.objs| && x !in wild
    ensures var s' := Step(s, t, c).state;
            x < |s'.objs| && InRange(s'.threads[u]) && Agree(s'.threads[u], u, s'.objs[x], x)
  {
    var pc := s.threads[t];
    var o := Focus(pc);
    StepReady(s, t, wild);
    StepWf(s, t, c);
    var r := Touch(pc, s.objs[o], t, c, |s.objs|);
    assert Agree(s.threads[u], u, s.objs[x], x);
    if u == t {
      OwnAgreement(s, t, c, wild, x);
    } else if x == o {
      TouchSound(pc, s.objs[o], t, |s.threads|, c, |s.objs|);
      HandAtLeastTwo(s.threads, t, u, o);
      assert Accounted(s, o);
      PeerKeeps(pc, s.objs[o], t, o, r.obj, s.threads[u], u);
    }
  }

  lemma {:induction false} OwnAgreement(s: State, t: nat, c: Choice, wild: set<nat>, x: nat)
    requires Inv(s, wild) && t < |s.threads| && Focused(s.threads[t]) && x < |s.objs| && x !in wild
    ensures var s' := Step(s, t, c).state;
            x < |s'.objs| && InRange(s'.threads[t]) && Agree(s'.threads[t], t, s'.objs[x], x)
  {
    var pc := s.threads[t];
    var o := Focus(pc);
    StepReady(s, t, wild);
    if x == o {
      TouchSound(pc, s.objs[o], t, |s.threads|, c, |s.objs|);
    } else {
      var d := if s.objs[x].Mutex? then s.objs[x].depth else 1;
      assert Agree(pc, t, s.objs[x], x);
      TouchIndifferent(pc, s.objs[o], t, c, |s.objs|, x, d);
      IndifferentAgrees(pc, Touch(pc, s.objs[o], t, c, |s.objs|).pc, t, x, s.objs[x]);
    }
  }

  lemma {:induction false} StepKeepsInv(s: State, t: nat, c: Choice, wild: set<nat>)
    requires Inv(s, wild) && t < |s.threads| && TameChoice(c, s.objs, wild)
    ensures Inv(Step(s, t, c).state, wild)
  {
    if !Focused(s.threads[t]) {
      ThinkKeepsInv(s, t, c, wild);
    } else {
      var s' := Step(s, t, c).state;
      StepWf(s, t, c);
      forall x | 0 <= x < |s'.objs|
        ensures AllInRange(s'.threads)
        ensures x in wild ==> s'.objs[x].Semaphore?
        ensures x !in wild ==> ObjOk(s'.objs[x], |s'.threads|) && Accounted(s', x)
      {
        if x !in wild {
          TouchKeepsAccount(s, t, c, wild, x);
        } else {
          assert KindOf(s.objs[x]) == KindOf(s'.objs[x]);
        }
      }
      forall u, x | 0 <= u < |s'.threads| && 0 <= x < |s'.objs| && x !in wild
        ensures Agree(s'.threads[u], u, s'.objs[x], x)
      {
        TouchKeepsAgreement(s, t, c, wild, u, x);
      }
    }
  }

  // ----- Runs -----

  datatype Move = Move(t: nat, c: Choice)

  /** A final state and what the steps to it meant. */
  datatype Ran = Ran(state: State, acts: seq<Label>)

  predicate Schedules(sched: seq<Move>, total: nat) {
    forall i :: 0 <= i < |sched| ==> sched[i].t < total
  }

  function Exec(s: State, sched: seq<Move>): (r: Ran)
    requires Wf(s) && Schedules(sched, |s.threads|)
    ensures Wf(r.state) && |r.state.threads| == |s.threads| && SameShape(s.objs, r.state.objs)
    ensures |r.acts| == |sched|
  {
    if sched == [] then Ran(s, [])
    else
      var n := |sched| - 1;
      var before := Exec(s, sched[..n]);
      StepWf(before.state, sched[n].t, sched[n].c);
      var next := Step(before.state, sched[n].t, sched[n].c);
      Ran(next.state, before.acts + [next.act])
  }

  ghost predicate Tame(sched: seq<Move>, objs: seq<Object>, wild: set<nat>) {
    forall i :: 0 <= i < |sched| ==> TameChoice(sched[i].c, objs, wild)
  }

  /** A release by so much that, with the maximum, the ULONG sum wraps. */
  predicate Excessive(c: Choice, x: nat, max: nat) {
    c.Start? && c.call.ReleaseSemaphore? && c.call.o == x && c.call.n + max >= ULONG_RANGE
  }

  /** The semaphores of which a schedule contains such a release. */
  function Wild(sched: seq<Move>, objs: seq<Object>): (wild: set<nat>)
    ensures Wilds(wild, objs)
  {
    set x: nat | 0 <= x < |objs| && objs[x].Semaphore? &&
                 exists i :: 0 <= i < |sched| && Excessive(sched[i].c, x, objs[x].max) :: x
  }

  /** Every schedule is tame apart from those. */
  lemma {:induction false} AlwaysTame(sched: seq<Move>, objs: seq<Object>)
    ensures Tame(sched, objs, Wild(sched, objs))
  {
    forall i | 0 <= i < |sched| ensures TameChoice(sched[i].c, objs, Wild(sched, objs)) {
      var c := sched[i].c;
      if c.Start? && c.call.ReleaseSemaphore? && c.call.o < |objs| && objs[c.call.o].Semaphore? {
        assert Excessive(sched[i].c, c.call.o, objs[c.call.o].max) ==> c.call.o in Wild(sched, objs);
      }
    }
  }

  /** An object as the server creates it. */
  predicate Fresh(obj: Object, total: nat) {
    match obj
    case Semaphore(fd, max, count) => fd == count <= max <= INT_MAX
    case Mutex(fd, tid, depth) =>
      (fd == 1 && tid == NoOne && depth == 0) || (fd == 0 && tid.Thread? && tid.id < total && depth == 1)
    case Event(fd, _, signaled, locked) => fd == (if signaled then 1 else 0) && !locked
  }

  predicate Init(s: State) {
    && (forall t :: 0 <= t < |s.threads| ==> s.threads[t] == Idle(Nothing))
    && (forall x :: 0 <= x < |s.objs| ==> Fresh(s.objs[x], |s.threads|))
  }

  lemma {:induction false} IdleHand(threads: seq<Pc>, x: nat)
    requires forall t :: 0 <= t < |threads| ==> threads[t].Idle?
    ensures AllInRange(threads) && Hand(threads, x) == 0
  {
    if threads != [] {
      IdleHand(threads[..|threads| - 1], x);
    }
  }

  lemma {:induction false} InitInv(s: State, wild: set<nat>)
    requires Init(s) && Wilds(wild, s.objs)
    ensures Inv(s, wild)
  {
    forall x | 0 <= x < |s.objs| ensures AllInRange(s.threads) && Accounted(s, x) {
      IdleHand(s.threads, x);
    }
  }

  lemma {:induction false} ExecKeepsInv(s: State, sched: seq<Move>, wild: set<nat>)
    requires Inv(s, wild) && Schedules(sched, |s.threads|) && Tame(sched, s.objs, wild)
    ensures Inv(Exec(s, sched).state, wild)
  {
    if sched != [] {
      var n := |sched| - 1;
      ExecKeepsInv(s, sched[..n], wild);
      assert TameChoice(sched[n].c, s.objs, wild);
      StepKeepsInv(Exec(s, sched[..n]).state, sched[n].t, sched[n].c, wild);
    }
  }
}
