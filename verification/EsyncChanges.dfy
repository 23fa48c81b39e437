/** Setting and resetting events: what the one access to the eventfd depends on, in every run, and what
    an undisturbed change of a manual-reset event comes to. */
module EsyncChanges {
  import opened EsyncModel
  import opened EsyncInvariants
  import opened EsyncSteps
  import opened EsyncRuns
  import opened EsyncSolo
  import opened EsyncOutcomes
  import opened EsyncAny

  // ----- In every run -----

  datatype Found = NotYet | Found(on: bool)

  /** The hint that thread t found when it exchanged it in its current, or last, call. */
  function HintFound(s: State, sched: seq<Move>, t: nat): Found
    requires Wf(s) && Schedules(sched, |s.threads|) && t < |s.threads|
  {
    if sched == [] then NotYet
    else
      var n := |sched| - 1;
      var before := Exec(s, sched[..n]).state;
      var found := HintFound(s, sched[..n], t);
      var pc := before.threads[t];
      if sched[n].t != t then found
      else if pc.Changing? && pc.ev.EvSwap? then
        assert WfPc(pc, KindsOf(before.objs));
        Found(before.objs[pc.o].signaled)
      else if pc.Idle? && Step(before, t, sched[n].c).state.threads[t] != pc then NotYet
      else found
  }

  /** The actions of a change: the eventfd is written or read, unless the hint was found as it should be
      and the event is manual-reset or it is the server that changes it. */
  function Deeds(o: nat, op: EventOp, manual: bool, found: bool): seq<Label> {
    if found == op.on && (manual || op.server) then [] else [if op.on then SetFd(o) else ClearFd(o)]
  }

  /** How far a change has come. */
  predicate Changed(pc: Pc, kinds: seq<Kind>, story: seq<Label>, found: Found) {
    match pc
    case Changing(o, op, manual, ev) => (
      match ev
      case EvLock => story == []
      case EvSwap => story == []
      case EvFd => story == [] && found.Found? && Deeds(o, op, manual, found.on) != []
      case EvUnlock => found.Found? && story == Deeds(o, op, manual, found.on))
    case Idle(Returned(ChangeEvent(o, op), Success)) =>
      o < |kinds| && found.Found? && story == Deeds(o, op, kinds[o].ManualKind?, found.on)
    case _ => true
  }

  lemma {:induction false} ChangeGoesOn(pc: Pc, obj: Object, kinds: seq<Kind>, story: seq<Label>, found: Found)
    requires CanTouch(pc, obj) && pc.Changing? && pc.o < |kinds| && kinds[pc.o] == KindOf(obj)
    requires Changed(pc, kinds, story, found)
    ensures var r := TouchEvent(pc, obj);
            Changed(r.pc, kinds, story + Visible(r.act), if pc.ev.EvSwap? then Found(obj.signaled) else found)
  {
    assert story + [] == story;
    assert story == [] ==> story + Visible(TouchEvent(pc, obj).act) == Visible(TouchEvent(pc, obj).act);
  }

  lemma {:induction false} OtherCalls(pc: Pc, obj: Object, t: nat, c: Choice, kinds: seq<Kind>, story: seq<Label>,
                                      found: Found)
    requires WfPc(pc, kinds) && CanTouch(pc, obj) && !pc.Changing?
    ensures var r := Touch(pc, obj, t, c, |kinds|);
            !r.pc.Changing? && Changed(r.pc, kinds, story, found)
  {
    match pc {
      case InAll(w, i, all) => AllElsewhere(pc, obj, t, c);
      case Updating(w, k, n, ab, _) => UpdElsewhere(w, k + 1, n, ab);
      case _ =>
    }
  }

  /** Neither changing an event nor back from that. */
  predicate Elsewhere(pc: Pc) {
    !pc.Changing? && (pc.Idle? ==> pc.last.Returned? && pc.last.call.WaitFor?)
  }

  lemma {:induction false} UpdElsewhere(w: Wait, k: nat, n: nat, ab: bool)
    requires 0 < n <= |w.refs|
    ensures Elsewhere(UpdNext(w, k, n, ab))
    decreases n - k
  {
    if k < n && !Consumable(w.refs[k].kind) {
      UpdElsewhere(w, k + 1, n, ab);
    }
  }

  lemma {:induction false} GrabElsewhere(w: Wait, i: nat)
    requires |w.refs| > 0
    ensures Elsewhere(GrabNext(w, i))
    decreases |w.refs| - i
  {
    if i >= |w.refs| {
      UpdElsewhere(w, 0, |w.refs|, false);
    } else if w.refs[i].kind.ManualKind? {
      GrabElsewhere(w, i + 1);
    }
  }

  lemma {:induction false} AllElsewhere(pc: Pc, obj: Object, t: nat, c: Choice)
    requires CanTouch(pc, obj) && pc.InAll?
    ensures Elsewhere(TouchAll(pc, obj, t, c).pc)
  {
    GrabElsewhere(pc.w, 0);
    GrabElsewhere(pc.w, pc.i + 1);
  }

  /** In every run, under every schedule: a change of an event that has returned has written or read the
      eventfd exactly if the hint was the other way when it exchanged it, or if it is a client that
      changes an auto-reset event. */
  lemma {:induction false} ChangesExactly(s: State, sched: seq<Move>, t: nat)
    requires Wf(s) && Schedules(sched, |s.threads|) && t < |s.threads| && s.threads[t] == Idle(Nothing)
    ensures Changed(Exec(s, sched).state.threads[t], KindsOf(s.objs), Story(s, sched, t), HintFound(s, sched, t))
  {
    if sched != [] {
      var n := |sched| - 1;
      ChangesExactly(s, sched[..n], t);
      ChangesNext(s, sched, t);
    }
  }

  lemma {:induction false} ChangesNext(s: State, sched: seq<Move>, t: nat)
    requires Wf(s) && Schedules(sched, |s.threads|) && t < |s.threads| && sched != []
    requires var front := sched[..|sched| - 1];
             Changed(Exec(s, front).state.threads[t], KindsOf(s.objs), Story(s, front, t), HintFound(s, front, t))
    ensures Changed(Exec(s, sched).state.threads[t], KindsOf(s.objs), Story(s, sched, t), HintFound(s, sched, t))
  {
    var n := |sched| - 1;
    var before := Exec(s, sched[..n]).state;
    assert KindsOf(before.objs) == KindsOf(s.objs);
    if sched[n].t == t {
      StepChanges(before, t, sched[n].c, Story(s, sched[..n], t), HintFound(s, sched[..n], t));
    }
  }

  lemma {:induction false} StepChanges(s: State, t: nat, c: Choice, story: seq<Label>, found: Found)
    requires Wf(s) && t < |s.threads| && Changed(s.threads[t], KindsOf(s.objs), story, found)
    ensures var pc, r := s.threads[t], Step(s, t, c);
            var story' := if pc.Idle? then (if r.state.threads[t] == pc then story else []) else story + Visible(r.act);
            var found' := if pc.Changing? && pc.ev.EvSwap? && pc.o < |s.objs| && s.objs[pc.o].Event?
                          then Found(s.objs[pc.o].signaled)
                          else if pc.Idle? && r.state.threads[t] != pc then NotYet else found;
            Changed(r.state.threads[t], KindsOf(s.objs), story', found')
  {
    var pc, kinds := s.threads[t], KindsOf(s.objs);
    assert WfPc(pc, kinds);
    if Focused(pc) {
      if pc.Changing? {
        ChangeGoesOn(pc, s.objs[pc.o], kinds, story, found);
      } else {
        OtherCalls(pc, s.objs[Focus(pc)], t, c, kinds, story + Visible(Step(s, t, c).act), found);
      }
    }
  }

  // ----- Undisturbed -----

  /** A manual-reset event after a change that nobody disturbs. */
  function ManualAlone(obj: Object, op: EventOp): Object
    requires obj.Event?
  {
    if obj.signaled == op.on then obj
    else Event(if op.on then obj.fd + 1 else 0, obj.manual, op.on, obj.locked)
  }

  /** With the lock taken by nobody: lock, exchange, write or read if the hint was the other way, unlock. */
  lemma {:induction false} ManualChanges(s: State, t: nat, x: nat, op: EventOp) returns (sched: seq<Move>)
    requires Wf(s) && t < |s.threads| && s.threads[t].Idle?
    requires x < |s.objs| && s.objs[x].Event? && s.objs[x].manual && !s.objs[x].locked
    ensures Alone(sched, t)
    ensures Leads(s, [Move(t, Start(ChangeEvent(x, op)))] + sched,
                  Put(s, t, Idle(Returned(ChangeEvent(x, op), Success)), x, ManualAlone(s.objs[x], op)))
  {
    var begin := [Move(t, Start(ChangeEvent(x, op)))];
    var obj, pc := s.objs[x], Changing(x, op, true, EvLock);
    LeadsStep(s, t, Start(ChangeEvent(x, op)), MoveTo(s, t, pc));
    var s1 := MoveTo(s, t, pc);
    assert WfPc(s1.threads[t], KindsOf(s1.objs));
    TouchStep(s1, t, x, Changing(x, op, true, EvSwap), obj.(locked := true));
    var s2 := Put(s1, t, Changing(x, op, true, EvSwap), x, obj.(locked := true));
    var done, last := Idle(Returned(ChangeEvent(x, op), Success)), ManualAlone(obj, op);
    var rest := LockedChanges(s2, t, x, op, done, last);
    LeadsPut(s1, t, x, [Move(t, Go)], Changing(x, op, true, EvSwap), obj.(locked := true), rest, done, last);
    PutAgain(s, t, x, pc, obj, done, last);
    sched := [Move(t, Go)] + rest;
    LeadsThen(s, begin, s1, sched, Put(s, t, done, x, last));
  }

  lemma {:induction false} LockedChanges(s: State, t: nat, x: nat, op: EventOp, done: Pc, last: Object)
      returns (sched: seq<Move>)
    requires Wf(s) && t < |s.threads| && s.threads[t] == Changing(x, op, true, EvSwap)
    requires x < |s.objs| && s.objs[x].Event? && s.objs[x].manual && s.objs[x].locked
    requires done == Idle(Returned(ChangeEvent(x, op), Success))
    requires last == ManualAlone(s.objs[x].(locked := false), op)
    ensures Alone(sched, t) && Leads(s, sched, Put(s, t, done, x, last))
  {
    var obj := s.objs[x];
    assert WfPc(s.threads[t], KindsOf(s.objs));
    var locked := last.(locked := true);
    if obj.signaled == op.on {
      TouchStep(s, t, x, Changing(x, op, true, EvUnlock), locked);
      var rest := Unlocks(Put(s, t, Changing(x, op, true, EvUnlock), x, locked), t, x, op, done, last);
      LeadsPut(s, t, x, [Move(t, Go)], Changing(x, op, true, EvUnlock), locked, rest, done, last);
      sched := [Move(t, Go)] + rest;
    } else {
      TouchStep(s, t, x, Changing(x, op, true, EvFd), obj.(signaled := op.on));
      var s1 := Put(s, t, Changing(x, op, true, EvFd), x, obj.(signaled := op.on));
      var rest := FdChanges(s1, t, x, op, done, last);
      LeadsPut(s, t, x, [Move(t, Go)], Changing(x, op, true, EvFd), obj.(signaled := op.on), rest, done, last);
      sched := [Move(t, Go)] + rest;
    }
  }

  lemma {:induction false} FdChanges(s: State, t: nat, x: nat, op: EventOp, done: Pc, last: Object)
      returns (sched: seq<Move>)
    requires Wf(s) && t < |s.threads| && s.threads[t] == Changing(x, op, true, EvFd)
    requires x < |s.objs| && s.objs[x].Event? && s.objs[x].manual && s.objs[x].locked
    requires done == Idle(Returned(ChangeEvent(x, op), Success))
    requires last == Event(if op.on then s.objs[x].fd + 1 else 0, true, s.objs[x].signaled, false)
    ensures Alone(sched, t) && Leads(s, sched, Put(s, t, done, x, last))
  {
    assert WfPc(s.threads[t], KindsOf(s.objs));
    var locked, pc := last.(locked := true), Changing(x, op, true, EvUnlock);
    TouchStep(s, t, x, pc, locked);
    var rest := Unlocks(Put(s, t, pc, x, locked), t, x, op, done, last);
    LeadsPut(s, t, x, [Move(t, Go)], pc, locked, rest, done, last);
    sched := [Move(t, Go)] + rest;
  }

  lemma {:induction false} Unlocks(s: State, t: nat, x: nat, op: EventOp, done: Pc, last: Object)
      returns (sched: seq<Move>)
    requires Wf(s) && t < |s.threads| && s.threads[t] == Changing(x, op, true, EvUnlock)
    requires x < |s.objs| && s.objs[x].Event? && s.objs[x].manual
    requires done == Idle(Returned(ChangeEvent(x, op), Success)) && last == s.objs[x].(locked := false)
    ensures Alone(sched, t) && Leads(s, sched, Put(s, t, done, x, last))
  {
    assert WfPc(s.threads[t], KindsOf(s.objs));
    TouchStep(s, t, x, done, last);
    sched := [Move(t, Go)];
  }

  /** Undisturbed, with the lock free, setting or resetting a manual-reset event succeeds, leaves the lock
      free and the hint as asked for; and the eventfd too, unless it was the hint alone that was so
      already.  If hint and eventfd agreed before, they agree in what was asked for. */
  lemma {:induction false} ManualTakesEffectExactly(s: State, t: nat, x: nat, op: EventOp) returns (sched: seq<Move>)
    requires Wf(s) && t < |s.threads| && s.threads[t].Idle?
    requires x < |s.objs| && s.objs[x].Event? && s.objs[x].manual && !s.objs[x].locked
    ensures Alone(sched, t) && Schedules([Move(t, Start(ChangeEvent(x, op)))] + sched, |s.threads|)
    ensures var s' := Exec(s, [Move(t, Start(ChangeEvent(x, op)))] + sched).state;
            && s'.threads == s.threads[t := Idle(Returned(ChangeEvent(x, op), Success))] && |s'.objs| == |s.objs|
            && s'.objs[x].Event? && s'.objs[x].signaled == op.on && !s'.objs[x].locked
            && ((s'.objs[x].fd > 0 <==> op.on) <==>
                !(s.objs[x].signaled == op.on && (s.objs[x].fd > 0 <==> !op.on)))
            && forall y :: 0 <= y < |s.objs| && y != x ==> s'.objs[y] == s.objs[y]
  {
    sched := ManualChanges(s, t, x, op);
  }

  /** While another thread has the lock, the call waits for it and does nothing. */
  lemma {:induction false} LockWaits(s: State, t: nat, sched: seq<Move>)
    requires Wf(s) && t < |s.threads| && s.threads[t].Changing? && s.threads[t].ev.EvLock? && Alone(sched, t)
    requires s.threads[t].o < |s.objs| && s.objs[s.threads[t].o].Event? && s.objs[s.threads[t].o].locked
    ensures Schedules(sched, |s.threads|) && Exec(s, sched).state == s
  {
    if sched != [] {
      var n := |sched| - 1;
      LockWaits(s, t, sched[..n]);
      ExecLast(s, sched);
      assert WfPc(s.threads[t], KindsOf(s.objs));
      var o := s.threads[t].o;
      assert s.objs[o := s.objs[o]] == s.objs && s.threads[t := s.threads[t]] == s.threads;
    }
  }
}
