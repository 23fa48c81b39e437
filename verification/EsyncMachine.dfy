/** The protocol run in place: shared objects and threads' places are overwritten step by
    step, as the processes overwrite them. */
module EsyncMachine {
  import opened EsyncModel
  import opened EsyncInvariants
  import opened EsyncSteps
  import opened EsyncRuns
  import opened EsyncSpec

  lemma {:induction false} ExecNext(s: State, sched: seq<Move>, i: nat)
    requires Wf(s) && Schedules(sched, |s.threads|) && i < |sched|
    ensures Schedules(sched[..i], |s.threads|) && Schedules(sched[..i + 1], |s.threads|)
    ensures var before := Exec(s, sched[..i]);
            var next := Step(before.state, sched[i].t, sched[i].c);
            var r := Exec(s, sched[..i + 1]);
            r.state == next.state && r.acts == before.acts + [next.act]
  {
    assert sched[..i + 1][..i] == sched[..i];
  }

  class Machine {
    const objs: array<Object>
    const threads: array<Pc>

    ghost function Snapshot(): State
      reads objs, threads
    {
      State(objs[..], threads[..])
    }

    /** Objects as the server created them, and threads that have not called yet. */
    constructor (created: seq<Object>, count: nat)
      requires forall x :: 0 <= x < |created| ==> Fresh(created[x], count)
      ensures fresh(objs) && fresh(threads)
      ensures Init(Snapshot()) && objs[..] == created && threads.Length == count
    {
      objs := new Object[|created|](x requires 0 <= x < |created| => created[x]);
      threads := new Pc[count](_ => Idle(Nothing));
    }

    /** One access, or one call started, by thread t. */
    method Advance(t: nat, c: Choice) returns (act: Label)
      requires Wf(Snapshot()) && t < threads.Length
      modifies objs, threads
      ensures Wf(Snapshot())
      ensures Snapshot() == Step(old(Snapshot()), t, c).state && act == Step(old(Snapshot()), t, c).act
    {
      ghost var before := Snapshot();
      StepWf(before, t, c);
      var pc := threads[t];
      assert WfPc(before.threads[t], KindsOf(before.objs));
      if Focused(pc) {
        var o := Focus(pc);
        assert KindOf(before.objs[o]) == KindsOf(before.objs)[o];
        var r := Touch(pc, objs[o], t, c, objs.Length);
        objs[o] := r.obj;
        threads[t] := r.pc;
        act := r.act;
        assert objs[..] == before.objs[o := r.obj];
      } else {
        threads[t] := Think(pc, c, KindsOf(objs[..]));
        act := Tau;
      }
      assert threads[..] == before.threads[t := threads[t]];
    }

    /** A whole schedule.  The labels are a run of the atomic specification. */
    method Run(sched: seq<Move>) returns (acts: seq<Label>)
      requires Init(Snapshot()) && Schedules(sched, threads.Length)
      modifies objs, threads
      ensures var s, wild := old(Snapshot()), Wild(sched, old(objs[..]));
              && Inv(s, wild) && Inv(Snapshot(), wild)
              && Snapshot() == Exec(s, sched).state && acts == Exec(s, sched).acts
              && SpecAllows(SpecInit(s.objs), acts, s.objs, wild)
              && Rel(Snapshot(), SpecExec(SpecInit(s.objs), acts), wild)
    {
      ghost var start := Snapshot();
      InitInv(start, {});
      acts := [];
      var i := 0;
      while i < |sched|
        invariant 0 <= i <= |sched|
        invariant Wf(start) && Schedules(sched[..i], |start.threads|)
        invariant Snapshot() == Exec(start, sched[..i]).state && acts == Exec(start, sched[..i]).acts
      {
        ExecNext(start, sched, i);
        var act := Advance(sched[i].t, sched[i].c);
        acts := acts + [act];
        i := i + 1;
      }
      assert sched[..i] == sched;
      RunRefines(start, sched);
    }
  }
}
