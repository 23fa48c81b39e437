/** Events: when they are the booleans they should be, and what their eventfd and their hint in
    shared memory say about each other. */
module EsyncEvents {
  import opened EsyncModel
  import opened EsyncInvariants
  import opened EsyncSteps
  import opened EsyncRuns
  import opened EsyncSpec
  import opened EsyncGuarantees

  // ----- The specification: a boolean -----

  predicate EventEnabled(b: bool, act: Label, x: nat) {
    GrabCount(act, x) == 0 || (GrabCount(act, x) == 1 && b)
  }

  function EventAfter(b: bool, act: Label, x: nat): bool {
    if act == SetFd(x) then true
    else if act == ClearFd(x) then false
    else b && GrabCount(act, x) == 0
  }

  function EventExec(b: bool, acts: seq<Label>, x: nat): bool {
    if acts == [] then b else EventAfter(EventExec(b, acts[..|acts| - 1], x), acts[|acts| - 1], x)
  }

  predicate EventAllows(b: bool, acts: seq<Label>, x: nat) {
    acts != [] ==>
      var n := |acts| - 1;
      EventAllows(b, acts[..n], x) && EventEnabled(EventExec(b, acts[..n], x), acts[n], x)
  }

  // ----- Lists in which an event comes last -----

  /** After x, nothing is read. */
  predicate LastRead(refs: seq<Ref>, x: nat) {
    forall j, k :: 0 <= j < k < |refs| && refs[j].o == x ==> !Consumable(refs[k].kind)
  }

  /** No wait-all in progress has to put x back. */
  predicate Orderly(pc: Pc, x: nat) {
    match pc
    case InAll(w, i, all) =>
      && LastRead(w.refs, x) && i < |w.refs|
      && (all.BackTid? || all.BackWrite? ==> forall j :: 0 <= j <= i ==> w.refs[j].o != x)
    case _ => true
  }

  predicate OrderlyChoice(c: Choice, x: nat) {
    c.Start? && c.call.WaitFor? && c.call.w.TakesAll() ==> LastRead(c.call.w.refs, x)
  }

  lemma {:induction false} UpdNextPlace(w: Wait, k: nat, n: nat, ab: bool)
    requires 0 < n <= |w.refs|
    ensures var pc := UpdNext(w, k, n, ab); pc.Idle? || pc.Updating?
    decreases n - k
  {
    if k < n && !Consumable(w.refs[k].kind) {
      UpdNextPlace(w, k + 1, n, ab);
    }
  }

  lemma {:induction false} GrabNextOrderly(w: Wait, i: nat, x: nat)
    requires |w.refs| > 0 && LastRead(w.refs, x)
    ensures Orderly(GrabNext(w, i), x)
    ensures var pc := GrabNext(w, i); pc.Idle? || pc.Updating? || pc.InAll?
    decreases |w.refs| - i
  {
    if i >= |w.refs| {
      UpdNextPlace(w, 0, |w.refs|, false);
    } else if !Consumable(w.refs[i].kind) {
      GrabNextOrderly(w, i + 1, x);
    }
  }

  /** The put-back loop after a read that failed at position n does not meet x. */
  lemma {:induction false} BackNextOrderly(w: Wait, n: nat, x: nat)
    requires n < |w.refs| && LastRead(w.refs, x)
    requires Consumable(w.refs[n].kind) || forall j :: 0 <= j < n ==> w.refs[j].o != x
    ensures Orderly(BackNext(w, n), x) && BackNext(w, n).InAll?
  {
  }

  lemma {:induction false} GrabOrderly(pc: Pc, obj: Object, t: nat, c: Choice, x: nat)
    requires CanTouch(pc, obj) && pc.InAll? && Orderly(pc, x)
    requires pc.all.Check? || pc.all.GrabTid? || pc.all.GrabRead?
    ensures var pc' := TouchAll(pc, obj, t, c).pc; Orderly(pc', x) && (pc'.Idle? || pc'.Updating? || pc'.InAll?)
  {
    var InAll(w, i, all) := pc;
    if all.Check? {
      GrabNextOrderly(w, 0, x);
    } else {
      GrabNextOrderly(w, i + 1, x);
      BackNextOrderly(w, i, x);
    }
  }

  lemma {:induction false} AllOrderly(pc: Pc, obj: Object, t: nat, c: Choice, x: nat)
    requires CanTouch(pc, obj) && pc.InAll? && Orderly(pc, x)
    ensures var pc' := TouchAll(pc, obj, t, c).pc; Orderly(pc', x) && (pc'.Idle? || pc'.Updating? || pc'.InAll?)
  {
    var InAll(w, i, all) := pc;
    if all.Check? || all.GrabTid? || all.GrabRead? {
      GrabOrderly(pc, obj, t, c, x);
    } else if all.BackTid? || all.BackWrite? {
      BackNextOrderly(w, i, x);
    }
  }

  lemma {:induction false} TouchOrderly(pc: Pc, obj: Object, t: nat, c: Choice, objects: nat, x: nat)
    requires CanTouch(pc, obj) && Orderly(pc, x)
    ensures var pc' := Touch(pc, obj, t, c, objects).pc;
            && Orderly(pc', x)
            && (pc'.Changing? ==> pc.Changing? && pc'.o == pc.o) && (pc'.Pulsing? ==> pc.Pulsing? && pc'.o == pc.o)
  {
    match pc {
      case InAll(_, _, _) => AllOrderly(pc, obj, t, c, x);
      case Updating(w, k, n, ab, _) => UpdNextPlace(w, k + 1, n, ab);
      case _ =>
    }
  }

  lemma {:induction false} ThinkOrderly(pc: Pc, c: Choice, kinds: seq<Kind>, x: nat)
    requires InRange(pc) && !Focused(pc) && Orderly(pc, x) && OrderlyChoice(c, x)
    ensures Orderly(Think(pc, c, kinds), x)
  {
  }

  // ----- What a grab takes of x -----

  lemma {:induction false} NothingLeftMult(w: Wait, i: nat, x: nat)
    requires i <= |w.refs| && NothingLeft(w, i)
    ensures Mult(w.refs[i..], x) == 0
    decreases |w.refs| - i
  {
    if i < |w.refs| {
      NothingLeftMult(w, i + 1, x);
      assert w.refs[i..|w.refs|] == w.refs[i..] && w.refs[i + 1..|w.refs|] == w.refs[i + 1..];
      MultFirst(w.refs, i, |w.refs|, x);
    } else {
      assert w.refs[i..] == [];
    }
  }

  lemma {:induction false} NoneBefore(refs: seq<Ref>, i: nat, x: nat)
    requires i < |refs| && LastRead(refs, x) && Consumable(refs[i].kind)
    ensures Mult(refs[..i], x) == 0
  {
    MultNames(refs[..i], x);
  }

  /** The read at i that completes a wait-all takes x exactly if it reads x. */
  lemma {:induction false} MultLast(w: Wait, i: nat, x: nat)
    requires i < |w.refs| && LastRead(w.refs, x) && Consumable(w.refs[i].kind) && NothingLeft(w, i + 1)
    ensures Mult(w.refs, x) == if w.refs[i].o == x then 1 else 0
  {
    NoneBefore(w.refs, i, x);
    NothingLeftMult(w, i + 1, x);
    MultNext(w.refs, i, x);
    MultSplit(w.refs[..i + 1], w.refs[i + 1..], x);
    assert w.refs[..i + 1] + w.refs[i + 1..] == w.refs;
  }

  /** If x is read at i, that read completes the wait-all. */
  lemma {:induction false} LastReadLast(w: Wait, i: nat, k: nat, x: nat)
    requires i < k && i < |w.refs| && LastRead(w.refs, x) && w.refs[i].o == x
    ensures NothingLeft(w, k)
    decreases |w.refs| - k
  {
    if k < |w.refs| {
      LastReadLast(w, i, k + 1, x);
    }
  }

  lemma {:induction false} GrabTakes(w: Wait, i: nat, t: nat, x: nat)
    requires i < |w.refs| && LastRead(w.refs, x) && Consumable(w.refs[i].kind)
    ensures var act := GrabLabel(w, i + 1, t);
            && GrabCount(act, x) == (if w.refs[i].o == x then 1 else 0) && !act.SetFd? && !act.ClearFd?
  {
    CountReads(w.refs, x);
    if NothingLeft(w, i + 1) {
      MultLast(w, i, x);
    }
    if w.refs[i].o == x {
      LastReadLast(w, i, i + 1, x);
    }
  }

  lemma {:induction false} EmptyGrabTakes(w: Wait, t: nat, x: nat)
    ensures var act := GrabLabel(w, 0, t); GrabCount(act, x) == 0 && !act.SetFd? && !act.ClearFd?
  {
    CountReads(w.refs, x);
    if NothingLeft(w, 0) {
      NothingLeftMult(w, 0, x);
      assert w.refs[0..] == w.refs;
    }
  }

  // ----- A step at the event, and elsewhere -----

  /** The eventfd moved as the boolean does. */
  ghost predicate Follows(b: bool, act: Label, x: nat, b': bool) {
    EventEnabled(b, act, x) && b' == EventAfter(b, act, x)
  }

  lemma {:induction false} AllFollows(pc: Pc, obj: Object, t: nat, c: Choice, x: nat)
    requires CanTouch(pc, obj) && pc.InAll? && Orderly(pc, x) && Focus(pc) == x && obj.Event?
    ensures var r := TouchAll(pc, obj, t, c);
            Follows(obj.fd > 0, r.act, x, r.obj.fd > 0) && (obj.manual ==> r.obj == obj)
  {
    var InAll(w, i, all) := pc;
    if all.Check? {
      EmptyGrabTakes(w, t, x);
    } else if all.GrabRead? {
      GrabTakes(w, i, t, x);
    }
  }

  lemma {:induction false} EventFollows(pc: Pc, obj: Object, t: nat, c: Choice, objects: nat, x: nat)
    requires CanTouch(pc, obj) && Orderly(pc, x) && Focus(pc) == x && obj.Event?
    ensures var r := Touch(pc, obj, t, c, objects);
            Follows(obj.fd > 0, r.act, x, r.obj.fd > 0)
  {
    match pc {
      case InAny(w, i, _) => CountOne(w.refs[i].o, x);
      case InAll(_, _, _) => AllFollows(pc, obj, t, c, x);
      case _ =>
    }
  }

  /** A step at another object does nothing to x. */
  lemma {:induction false} ForeignTouch(pc: Pc, obj: Object, t: nat, c: Choice, objects: nat, x: nat)
    requires CanTouch(pc, obj) && Orderly(pc, x) && Focus(pc) != x
    ensures var act := Touch(pc, obj, t, c, objects).act;
            GrabCount(act, x) == 0 && act != SetFd(x) && act != ClearFd(x)
  {
    match pc {
      case InAny(w, i, _) => CountOne(w.refs[i].o, x);
      case InAll(w, i, all) =>
        if all.Check? {
          EmptyGrabTakes(w, t, x);
        } else if all.GrabTid? || all.GrabRead? {
          GrabTakes(w, i, t, x);
        }
      case _ =>
    }
  }

  lemma {:induction false} EventStep(s: State, t: nat, c: Choice, x: nat)
    requires Wf(s) && t < |s.threads| && Orderly(s.threads[t], x) && OrderlyChoice(c, x)
    requires x < |s.objs| && s.objs[x].Event?
    ensures var r := Step(s, t, c);
            && |r.state.objs| == |s.objs| && |r.state.threads| == |s.threads| && Orderly(r.state.threads[t], x)
            && r.state.objs[x].Event? && r.state.objs[x].manual == s.objs[x].manual
            && Follows(s.objs[x].fd > 0, r.act, x, r.state.objs[x].fd > 0)
  {
    var pc := s.threads[t];
    assert WfPc(pc, KindsOf(s.objs));
    StepWf(s, t, c);
    assert KindOf(Step(s, t, c).state.objs[x]) == KindOf(s.objs[x]);
    if Focused(pc) {
      var obj := s.objs[Focus(pc)];
      TouchOrderly(pc, obj, t, c, |s.objs|, x);
      if Focus(pc) == x {
        EventFollows(pc, obj, t, c, |s.objs|, x);
      } else {
        ForeignTouch(pc, obj, t, c, |s.objs|, x);
      }
    } else {
      ThinkOrderly(pc, c, KindsOf(s.objs), x);
    }
  }

  lemma {:induction false} OrderlyAlways(s: State, sched: seq<Move>, x: nat)
    requires Init(s) && Wf(s) && Schedules(sched, |s.threads|) && x < |s.objs| && s.objs[x].Event?
    requires forall i :: 0 <= i < |sched| ==> OrderlyChoice(sched[i].c, x)
    ensures var r := Exec(s, sched).state;
            && (forall t :: 0 <= t < |r.threads| ==> Orderly(r.threads[t], x))
            && x < |r.objs| && r.objs[x].Event? && r.objs[x].manual == s.objs[x].manual
  {
    if sched != [] {
      var n := |sched| - 1;
      OrderlyAlways(s, sched[..n], x);
      EventStep(Exec(s, sched[..n]).state, sched[n].t, sched[n].c, x);
    }
  }

  /** In every run in which wait-alls that name an event read nothing after it, the event is a
      boolean, in every state: sets collapse, and a wait takes an auto-reset event only when it is
      set and leaves it reset.  Pulses and whatever the hint says are without consequence. */
  lemma {:induction false} EventIsABoolean(s: State, sched: seq<Move>, x: nat)
    requires Init(s) && Schedules(sched, |s.threads|)
    requires x < |s.objs| && s.objs[x].Event?
    requires forall i :: 0 <= i < |sched| ==> OrderlyChoice(sched[i].c, x)
    ensures Wf(s)
    ensures var r := Exec(s, sched);
            && x < |r.state.objs| && EventAllows(s.objs[x].fd > 0, r.acts, x)
            && (r.state.objs[x].fd > 0) == EventExec(s.objs[x].fd > 0, r.acts, x)
  {
    if sched != [] {
      var n := |sched| - 1;
      EventIsABoolean(s, sched[..n], x);
      OrderlyAlways(s, sched[..n], x);
      var before := Exec(s, sched[..n]);
      EventStep(before.state, sched[n].t, sched[n].c, x);
      assert Exec(s, sched).acts[..n] == before.acts;
    }
  }

  predicate NeverTaken(acts: seq<Label>, x: nat) {
    forall i :: 0 <= i < |acts| ==> GrabCount(acts[i], x) == 0
  }

  /** No wait takes a manual-reset event, in any run. */
  lemma {:induction false} ManualNeverTaken(s: State, sched: seq<Move>, x: nat)
    requires Init(s) && Wf(s) && Schedules(sched, |s.threads|)
    requires x < |s.objs| && s.objs[x].Event? && s.objs[x].manual
    ensures NeverTaken(Exec(s, sched).acts, x)
  {
    if sched != [] {
      var n := |sched| - 1;
      ManualNeverTaken(s, sched[..n], x);
      var before := Exec(s, sched[..n]);
      assert KindOf(before.state.objs[x]) == KindOf(s.objs[x]);
      NotTaken(before.state, sched[n].t, sched[n].c, x);
      assert Exec(s, sched).acts == before.acts + [Step(before.state, sched[n].t, sched[n].c).act];
    }
  }

  lemma {:induction false} NotTaken(s: State, t: nat, c: Choice, x: nat)
    requires Wf(s) && t < |s.threads| && x < |s.objs| && s.objs[x].Event? && s.objs[x].manual
    ensures GrabCount(Step(s, t, c).act, x) == 0
  {
    var pc := s.threads[t];
    var kinds := KindsOf(s.objs);
    assert WfPc(pc, kinds);
    if Focused(pc) {
      var obj := s.objs[Focus(pc)];
      assert KindOf(obj) == kinds[Focus(pc)];
      if pc.InAny? {
        CountOne(pc.w.refs[pc.i].o, x);
        AnyNotTaken(pc, obj, t, x);
      } else if pc.InAll? {
        CountReads(pc.w.refs, x);
        MultManual(pc.w.refs, kinds, x);
      }
    }
  }

  lemma {:induction false} AnyNotTaken(pc: Pc, obj: Object, t: nat, x: nat)
    requires CanTouch(pc, obj) && pc.InAny? && (Focus(pc) == x ==> KindOf(obj).ManualKind?)
    ensures GrabCount(TouchAny(pc, obj, t).act, x) == 0
  {
    CountOne(pc.w.refs[pc.i].o, x);
  }

  lemma {:induction false} MultManual(refs: seq<Ref>, kinds: seq<Kind>, x: nat)
    requires RefsOk(refs, kinds) && x < |kinds| && kinds[x].ManualKind?
    ensures Mult(refs, x) == 0
  {
    if refs != [] {
      MultManual(refs[..|refs| - 1], kinds, x);
    }
  }

  // ----- Hint and eventfd of a manual-reset event -----

  /** Nobody pulses x either. */
  predicate Gentle(pc: Pc, x: nat) {
    Orderly(pc, x) && !(pc.Pulsing? && pc.o == x)
  }

  predicate GentleChoice(c: Choice, x: nat) {
    OrderlyChoice(c, x) && !(c.Start? && c.call == PulseEvent(x))
  }

  /** Inside the spinlock of x. */
  predicate Inside(pc: Pc, x: nat) {
    pc.Changing? && pc.manual && pc.o == x && !pc.ev.EvLock?
  }

  function Bit(b: bool): nat { if b then 1 else 0 }

  /** What a thread inside the lock knows. */
  predicate InsideOk(ev: EvPc, on: bool, fd: nat, signaled: bool) {
    match ev
    case EvLock => true
    case EvSwap => fd == Bit(signaled)
    case EvFd => signaled == on && fd == Bit(!on)
    case EvUnlock => signaled == on && fd == Bit(on)
  }

  ghost predicate ManualOk(s: State, x: nat)
    requires x < |s.objs| && s.objs[x].Event?
  {
    var obj := s.objs[x];
    && (!obj.locked ==> obj.fd == Bit(obj.signaled))
    && (forall t :: 0 <= t < |s.threads| && Inside(s.threads[t], x) ==>
          obj.locked && InsideOk(s.threads[t].ev, s.threads[t].op.on, obj.fd, obj.signaled))
    && (forall t, u :: 0 <= t < u < |s.threads| ==> !(Inside(s.threads[t], x) && Inside(s.threads[u], x)))
  }

  /** Only set and reset touch the record or the counter of a manual-reset event. */
  lemma {:induction false} ManualTouch(pc: Pc, obj: Object, t: nat, c: Choice, objects: nat, x: nat)
    requires CanTouch(pc, obj) && Gentle(pc, x) && Focus(pc) == x && obj.Event? && obj.manual && !pc.Changing?
    ensures var r := Touch(pc, obj, t, c, objects); r.obj == obj && !r.pc.Changing?
  {
    TouchOrderly(pc, obj, t, c, objects, x);
    if pc.InAll? {
      AllFollows(pc, obj, t, c, x);
    }
  }

  /** An access inside the lock, or to the lock. */
  lemma {:induction false} ChangeTouch(pc: Pc, obj: Object, x: nat)
    requires CanTouch(pc, obj) && pc.Changing? && pc.manual && pc.o == x
    requires !obj.locked ==> obj.fd == Bit(obj.signaled)
    requires Inside(pc, x) ==> obj.locked && InsideOk(pc.ev, pc.op.on, obj.fd, obj.signaled)
    ensures var r := TouchEvent(pc, obj);
            && r.obj.Event? && r.obj.manual
            && (!r.obj.locked ==> r.obj.fd == Bit(r.obj.signaled))
            && (Inside(r.pc, x) ==> r.obj.locked && InsideOk(r.pc.ev, r.pc.op.on, r.obj.fd, r.obj.signaled))
            && (r.obj == obj || Inside(pc, x) || !obj.locked)
            && (Inside(r.pc, x) && !Inside(pc, x) ==> !obj.locked)
  {
  }

  lemma {:induction false} ManualStep(s: State, t: nat, c: Choice, x: nat)
    requires Wf(s) && t < |s.threads| && Gentle(s.threads[t], x)
    requires x < |s.objs| && s.objs[x].Event? && s.objs[x].manual && ManualOk(s, x)
    ensures var s' := Step(s, t, c).state;
            |s'.objs| == |s.objs| && s'.objs[x].Event? && s'.objs[x].manual && ManualOk(s', x)
  {
    var pc := s.threads[t];
    assert WfPc(pc, KindsOf(s.objs));
    if Focused(pc) {
      var o := Focus(pc);
      if pc.Changing? && o == x {
        ChangeTouch(pc, s.objs[o], x);
      } else if o == x {
        ManualTouch(pc, s.objs[o], t, c, |s.objs|, x);
      } else {
        TouchOrderly(pc, s.objs[o], t, c, |s.objs|, x);
      }
    }
  }

  lemma {:induction false} StepGentle(s: State, t: nat, c: Choice, x: nat)
    requires Wf(s) && t < |s.threads| && Gentle(s.threads[t], x) && GentleChoice(c, x)
    ensures Gentle(Step(s, t, c).state.threads[t], x)
  {
    var pc := s.threads[t];
    assert WfPc(pc, KindsOf(s.objs));
    if Focused(pc) {
      TouchOrderly(pc, s.objs[Focus(pc)], t, c, |s.objs|, x);
    } else {
      ThinkOrderly(pc, c, KindsOf(s.objs), x);
    }
  }

  /** If nobody pulses it, and wait-alls that name it read nothing after it, then in every
      reachable state a manual-reset event whose lock is free says the same in shared memory
      and in its eventfd, so that a wait gets the same answer by either way.  What is done to
      other events does not matter. */
  lemma {:induction false} ManualEventAgrees(s: State, sched: seq<Move>, x: nat)
    requires Init(s) && Schedules(sched, |s.threads|)
    requires x < |s.objs| && s.objs[x].Event? && s.objs[x].manual
    requires forall i :: 0 <= i < |sched| ==> GentleChoice(sched[i].c, x)
    ensures Wf(s)
    ensures var r := Exec(s, sched).state;
            && (forall t :: 0 <= t < |r.threads| ==> Gentle(r.threads[t], x))
            && x < |r.objs| && r.objs[x].Event? && r.objs[x].manual && ManualOk(r, x)
            && (!r.objs[x].locked ==> (r.objs[x].signaled <==> r.objs[x].fd > 0))
  {
    if sched != [] {
      var n := |sched| - 1;
      ManualEventAgrees(s, sched[..n], x);
      var before := Exec(s, sched[..n]).state;
      ManualStep(before, sched[n].t, sched[n].c, x);
      StepGentle(before, sched[n].t, sched[n].c, x);
    }
  }
}
