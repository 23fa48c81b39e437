/** Which object a wait for any of several takes, when nobody disturbs it. */
module EsyncAny {
  import opened EsyncModel
  import opened EsyncInvariants
  import opened EsyncSteps
  import opened EsyncRuns
  import opened EsyncSolo

  // ----- What should happen -----

  /** The object is to be had without blocking: a mutex of the thread's own, or one that nobody has
      recorded and whose eventfd is readable; a semaphore or auto-reset event whose record and eventfd
      both say so; a manual-reset event whose record says so. */
  predicate AtOnce(obj: Object, t: nat) {
    match obj
    case Mutex(fd, tid, depth) => tid == Thread(t) || (depth == 0 && fd > 0)
    case Semaphore(fd, _, count) => count != 0 && fd > 0
    case Event(fd, manual, signaled, _) => signaled && (manual || fd > 0)
  }

  /** The object after thread t has got it. */
  function Gained(obj: Object, t: nat): Object {
    match obj
    case Mutex(fd, tid, depth) => Mutex(if tid == Thread(t) then fd else 0, Thread(t), depth + 1)
    case Semaphore(fd, max, count) => Semaphore(if fd > 0 then fd - 1 else 0, max, count - 1)
    case Event(fd, manual, signaled, locked) => if manual then obj else Event(0, manual, false, locked)
  }

  /** The status for entry i of the list. */
  function Answer(obj: Object, i: nat): Status {
    if obj.Mutex? && obj.tid.Abandoned? then AbandonedIndex(i) else Index(i)
  }

  /** The state in which the call has returned with entry i. */
  function AnyEnds(s: State, t: nat, w: Wait, i: nat): State
    requires t < |s.threads| && i < |w.refs| && w.refs[i].o < |s.objs|
  {
    var o := w.refs[i].o;
    Put(s, t, Return(w, Answer(s.objs[o], i)), o, Gained(s.objs[o], t))
  }

  // ----- One step -----

  lemma {:induction false} FocusStep(s: State, t: nat)
    requires Wf(s) && t < |s.threads| && Focused(s.threads[t])
    ensures var pc := s.threads[t];
            && InRange(pc) && Focus(pc) < |s.objs| && CanTouch(pc, s.objs[Focus(pc)])
            && var r := Touch(pc, s.objs[Focus(pc)], t, Go, |s.objs|);
               Leads(s, [Move(t, Go)], Put(s, t, r.pc, Focus(pc), r.obj)) && Wf(Put(s, t, r.pc, Focus(pc), r.obj))
  {
    assert WfPc(s.threads[t], KindsOf(s.objs));
    LeadsStep(s, t, Go, Step(s, t, Go).state);
  }

  /** One step of thread t, and then more of its steps. */
  lemma {:induction false} StepThen(s: State, t: nat, s1: State, rest: seq<Move>, s2: State) returns (sched: seq<Move>)
    requires t < |s.threads| && Leads(s, [Move(t, Go)], s1) && Alone(rest, t) && Leads(s1, rest, s2)
    ensures Alone(sched, t) && Leads(s, sched, s2)
  {
    LeadsThen(s, [Move(t, Go)], s1, rest, s2);
    sched := [Move(t, Go)] + rest;
  }

  /** An access that changes nothing but the thread's place. */
  lemma {:induction false} QuietStep(s: State, t: nat, pc': Pc)
    requires Wf(s) && t < |s.threads| && Focused(s.threads[t])
    requires InRange(s.threads[t]) && Focus(s.threads[t]) < |s.objs|
    requires CanTouch(s.threads[t], s.objs[Focus(s.threads[t])])
    requires var obj := s.objs[Focus(s.threads[t])]; Touch(s.threads[t], obj, t, Go, |s.objs|) == Quiet(obj, pc')
    ensures Leads(s, [Move(t, Go)], MoveTo(s, t, pc')) && Wf(MoveTo(s, t, pc'))
  {
    FocusStep(s, t);
    var o := Focus(s.threads[t]);
    assert s.objs[o := s.objs[o]] == s.objs;
  }

  /** An access that leaves the object and the thread so. */
  lemma {:induction false} TouchStep(s: State, t: nat, o: nat, pc': Pc, obj': Object)
    requires Wf(s) && t < |s.threads| && Focused(s.threads[t]) && InRange(s.threads[t])
    requires o == Focus(s.threads[t]) < |s.objs| && CanTouch(s.threads[t], s.objs[o])
    requires var r := Touch(s.threads[t], s.objs[o], t, Go, |s.objs|); r.pc == pc' && r.obj == obj'
    ensures Leads(s, [Move(t, Go)], Put(s, t, pc', o, obj')) && Wf(Put(s, t, pc', o, obj'))
  {
    FocusStep(s, t);
  }

  lemma {:induction false} PutAgain(s: State, t: nat, o: nat, pc: Pc, obj: Object, pc': Pc, obj': Object)
    requires t < |s.threads| && o < |s.objs|
    ensures Put(Put(s, t, pc, o, obj), t, pc', o, obj') == Put(s, t, pc', o, obj')
    ensures Put(MoveTo(s, t, pc), t, pc', o, obj') == Put(s, t, pc', o, obj')
  {
    assert s.objs[o := obj][o := obj'] == s.objs[o := obj'];
    assert s.threads[t := pc][t := pc'] == s.threads[t := pc'];
  }

  // ----- update_grabbed_object -----

  /** What has been read, with its record brought up to date. */
  function Entered(obj: Object, t: nat): Object {
    match obj
    case Mutex(fd, tid, depth) => Mutex(fd, Thread(t), depth + 1)
    case Semaphore(fd, max, count) => Semaphore(fd, max, count - 1)
    case Event(fd, manual, _, locked) => Event(fd, manual, false, locked)
  }

  lemma {:induction false} UpdatesAlone(s: State, t: nat, w: Wait, i: nat) returns (sched: seq<Move>)
    requires Wf(s) && t < |s.threads| && s.threads[t] == Updating(w, i, i + 1, false, UpdFirst) && !w.TakesAll()
    ensures i < |w.refs| && w.refs[i].o < |s.objs|
    ensures var o := w.refs[i].o;
            Alone(sched, t) && Leads(s, sched, Put(s, t, Return(w, Answer(s.objs[o], i)), o, Entered(s.objs[o], t)))
  {
    assert WfPc(s.threads[t], KindsOf(s.objs));
    var o := w.refs[i].o;
    if s.objs[o].Mutex? {
      sched := MutexUpdates(s, t, w, i);
    } else {
      TouchStep(s, t, o, Return(w, Index(i)), Entered(s.objs[o], t));
      sched := [Move(t, Go)];
    }
  }

  lemma {:induction false} MutexUpdates(s: State, t: nat, w: Wait, i: nat) returns (sched: seq<Move>)
    requires Wf(s) && t < |s.threads| && s.threads[t] == Updating(w, i, i + 1, false, UpdFirst) && !w.TakesAll()
    requires i < |w.refs| && w.refs[i].o < |s.objs| && s.objs[w.refs[i].o].Mutex?
    ensures var o := w.refs[i].o;
            Alone(sched, t) && Leads(s, sched, Put(s, t, Return(w, Answer(s.objs[o], i)), o, Entered(s.objs[o], t)))
  {
    var o := w.refs[i].o;
    var obj, ab := s.objs[o], s.objs[o].tid.Abandoned?;
    var first := OwnerUpdates(s, t, w, i);
    var pc, obj' := Updating(w, i, i + 1, ab, UpdLoad), obj.(tid := Thread(t));
    var done, last := Return(w, Answer(obj, i)), Entered(obj, t);
    var rest := DepthUpdates(Put(s, t, pc, o, obj'), t, w, i, ab, done, last);
    LeadsPut(s, t, o, first, pc, obj', rest, done, last);
    sched := first + rest;
  }

  lemma {:induction false} LeadsPut(s: State, t: nat, o: nat, first: seq<Move>, pc: Pc, obj: Object, rest: seq<Move>,
                                    pc': Pc, obj': Object)
    requires t < |s.threads| && o < |s.objs| && Leads(s, first, Put(s, t, pc, o, obj))
    requires Leads(Put(s, t, pc, o, obj), rest, Put(Put(s, t, pc, o, obj), t, pc', o, obj'))
    ensures Leads(s, first + rest, Put(s, t, pc', o, obj'))
  {
    PutAgain(s, t, o, pc, obj, pc', obj');
    LeadsThen(s, first, Put(s, t, pc, o, obj), rest, Put(s, t, pc', o, obj'));
  }

  lemma {:induction false} OwnerUpdates(s: State, t: nat, w: Wait, i: nat) returns (sched: seq<Move>)
    requires Wf(s) && t < |s.threads| && s.threads[t] == Updating(w, i, i + 1, false, UpdFirst)
    requires i < |w.refs| && w.refs[i].o < |s.objs| && s.objs[w.refs[i].o].Mutex?
    ensures var o := w.refs[i].o;
            var obj := s.objs[o];
            var s' := Put(s, t, Updating(w, i, i + 1, obj.tid.Abandoned?, UpdLoad), o, obj.(tid := Thread(t)));
            Alone(sched, t) && Leads(s, sched, s') && Wf(s')
  {
    var o := w.refs[i].o;
    var obj, ab := s.objs[o], s.objs[o].tid.Abandoned?;
    var pc, pc' := Updating(w, i, i + 1, ab, UpdTid), Updating(w, i, i + 1, ab, UpdLoad);
    assert WfPc(s.threads[t], KindsOf(s.objs));
    QuietStep(s, t, pc);
    TouchStep(MoveTo(s, t, pc), t, o, pc', obj.(tid := Thread(t)));
    PutAgain(s, t, o, pc, obj, pc', obj.(tid := Thread(t)));
    sched := StepThen(s, t, MoveTo(s, t, pc), [Move(t, Go)], Put(s, t, pc', o, obj.(tid := Thread(t))));
  }

  lemma {:induction false} DepthUpdates(s: State, t: nat, w: Wait, i: nat, ab: bool, done: Pc, last: Object)
      returns (sched: seq<Move>)
    requires Wf(s) && t < |s.threads| && s.threads[t] == Updating(w, i, i + 1, ab, UpdLoad) && !w.TakesAll()
    requires i < |w.refs| && w.refs[i].o < |s.objs| && s.objs[w.refs[i].o].Mutex?
    requires done == Return(w, if ab then AbandonedIndex(i) else Index(i))
    requires last == s.objs[w.refs[i].o].(depth := s.objs[w.refs[i].o].depth + 1)
    ensures Alone(sched, t) && Leads(s, sched, Put(s, t, done, w.refs[i].o, last))
  {
    var o := w.refs[i].o;
    var obj := s.objs[o];
    assert WfPc(s.threads[t], KindsOf(s.objs));
    QuietStep(s, t, Updating(w, i, i + 1, ab, UpdStore(obj.depth)));
    var s1 := MoveTo(s, t, Updating(w, i, i + 1, ab, UpdStore(obj.depth)));
    TouchStep(s1, t, o, done, last);
    PutAgain(s, t, o, Updating(w, i, i + 1, ab, UpdStore(obj.depth)), obj, done, last);
    sched := StepThen(s, t, s1, [Move(t, Go)], Put(s, t, done, o, last));
  }

  // ----- The first look -----

  /** At an object that is not to be had, the loop goes on to the next. */
  lemma {:induction false} LooksOn(s: State, t: nat, w: Wait, i: nat) returns (sched: seq<Move>)
    requires Wf(s) && t < |s.threads| && i < |w.refs| && s.threads[t] == InAny(w, i, Hint)
    requires w.refs[i].o < |s.objs| && !AtOnce(s.objs[w.refs[i].o], t)
    ensures Alone(sched, t) && Leads(s, sched, MoveTo(s, t, AnyNext(w, i + 1)))
  {
    assert WfPc(s.threads[t], KindsOf(s.objs));
    var obj, next := s.objs[w.refs[i].o], AnyNext(w, i + 1);
    match obj {
      case Mutex(fd, tid, depth) => sched := MutexLooksOn(s, t, w, i);
      case Semaphore(fd, _, count) =>
        if count == 0 {
          QuietStep(s, t, next);
          sched := [Move(t, Go)];
        } else {
          QuietStep(s, t, InAny(w, i, TryRead));
          sched := ReadFails(MoveTo(s, t, InAny(w, i, TryRead)), t, w, i);
          sched := StepThen(s, t, MoveTo(s, t, InAny(w, i, TryRead)), sched, MoveTo(s, t, next));
        }
      case Event(fd, manual, signaled, _) =>
        if !signaled {
          QuietStep(s, t, next);
          sched := [Move(t, Go)];
        } else {
          QuietStep(s, t, InAny(w, i, TryRead));
          sched := ReadFails(MoveTo(s, t, InAny(w, i, TryRead)), t, w, i);
          sched := StepThen(s, t, MoveTo(s, t, InAny(w, i, TryRead)), sched, MoveTo(s, t, next));
        }
    }
  }

  lemma {:induction false} ReadFails(s: State, t: nat, w: Wait, i: nat) returns (sched: seq<Move>)
    requires Wf(s) && t < |s.threads| && i < |w.refs| && s.threads[t] == InAny(w, i, TryRead)
    requires w.refs[i].o < |s.objs| && s.objs[w.refs[i].o].fd == 0
    ensures Alone(sched, t) && Leads(s, sched, MoveTo(s, t, AnyNext(w, i + 1)))
  {
    assert WfPc(s.threads[t], KindsOf(s.objs));
    QuietStep(s, t, AnyNext(w, i + 1));
    sched := [Move(t, Go)];
  }

  lemma {:induction false} MutexLooksOn(s: State, t: nat, w: Wait, i: nat) returns (sched: seq<Move>)
    requires Wf(s) && t < |s.threads| && i < |w.refs| && s.threads[t] == InAny(w, i, Hint)
    requires w.refs[i].o < |s.objs| && s.objs[w.refs[i].o].Mutex? && !AtOnce(s.objs[w.refs[i].o], t)
    ensures Alone(sched, t) && Leads(s, sched, MoveTo(s, t, AnyNext(w, i + 1)))
  {
    assert WfPc(s.threads[t], KindsOf(s.objs));
    QuietStep(s, t, InAny(w, i, HintCount));
    var s1 := MoveTo(s, t, InAny(w, i, HintCount));
    assert WfPc(s1.threads[t], KindsOf(s1.objs));
    if s.objs[w.refs[i].o].depth == 0 {
      QuietStep(s1, t, InAny(w, i, TryRead));
      var s2 := MoveTo(s, t, InAny(w, i, TryRead));
      sched := ReadFails(s2, t, w, i);
      sched := StepThen(s1, t, s2, sched, MoveTo(s, t, AnyNext(w, i + 1)));
    } else {
      QuietStep(s1, t, AnyNext(w, i + 1));
      sched := [Move(t, Go)];
    }
    sched := StepThen(s, t, s1, sched, MoveTo(s, t, AnyNext(w, i + 1)));
  }

  /** At one that is, the call ends. */
  lemma {:induction false} TakesHere(s: State, t: nat, w: Wait, i: nat) returns (sched: seq<Move>)
    requires Wf(s) && t < |s.threads| && i < |w.refs| && s.threads[t] == InAny(w, i, Hint)
    requires w.refs[i].o < |s.objs| && AtOnce(s.objs[w.refs[i].o], t)
    ensures Alone(sched, t) && Leads(s, sched, AnyEnds(s, t, w, i))
  {
    assert WfPc(s.threads[t], KindsOf(s.objs));
    var o := w.refs[i].o;
    var obj := s.objs[o];
    if obj.Mutex? && obj.tid == Thread(t) {
      sched := Recurs(s, t, w, i);
    } else if obj.Event? && obj.manual {
      TouchStep(s, t, o, Return(w, Index(i)), obj);
      sched := [Move(t, Go)];
    } else {
      var first := HintsRead(s, t, w, i);
      var s1 := MoveTo(s, t, InAny(w, i, TryRead));
      var rest := ReadsHere(s1, t, w, i);
      PutAgain(s, t, o, InAny(w, i, TryRead), obj, Return(w, Answer(obj, i)), Gained(obj, t));
      LeadsThen(s, first, s1, rest, AnyEnds(s, t, w, i));
      sched := first + rest;
    }
  }

  lemma {:induction false} HintsRead(s: State, t: nat, w: Wait, i: nat) returns (sched: seq<Move>)
    requires Wf(s) && t < |s.threads| && i < |w.refs| && s.threads[t] == InAny(w, i, Hint)
    requires w.refs[i].o < |s.objs| && AtOnce(s.objs[w.refs[i].o], t) && Consumable(w.refs[i].kind)
    requires s.objs[w.refs[i].o].Mutex? ==> s.objs[w.refs[i].o].tid != Thread(t)
    ensures var s' := MoveTo(s, t, InAny(w, i, TryRead)); Alone(sched, t) && Leads(s, sched, s') && Wf(s')
  {
    assert WfPc(s.threads[t], KindsOf(s.objs));
    var obj, s' := s.objs[w.refs[i].o], MoveTo(s, t, InAny(w, i, TryRead));
    if obj.Mutex? {
      QuietStep(s, t, InAny(w, i, HintCount));
      var s1 := MoveTo(s, t, InAny(w, i, HintCount));
      assert WfPc(s1.threads[t], KindsOf(s1.objs));
      QuietStep(s1, t, InAny(w, i, TryRead));
      sched := StepThen(s, t, s1, [Move(t, Go)], s');
    } else {
      QuietStep(s, t, InAny(w, i, TryRead));
      sched := [Move(t, Go)];
    }
  }

  /** A read that succeeds, and the record of it. */
  lemma {:induction false} ReadsHere(s: State, t: nat, w: Wait, i: nat) returns (sched: seq<Move>)
    requires Wf(s) && t < |s.threads| && i < |w.refs|
    requires s.threads[t].InAny? && s.threads[t].w == w && s.threads[t].i == i
    requires s.threads[t].any.TryRead? || (s.threads[t].any.Take? && Consumable(w.refs[i].kind))
    requires w.refs[i].o < |s.objs| && s.objs[w.refs[i].o].fd > 0
    requires s.objs[w.refs[i].o].Mutex? ==> s.objs[w.refs[i].o].tid != Thread(t)
    ensures Alone(sched, t) && Leads(s, sched, AnyEnds(s, t, w, i))
  {
    ReadStep(s, t, w, i);
    var o := w.refs[i].o;
    var obj, pc := s.objs[o], Updating(w, i, i + 1, false, UpdFirst);
    var s1 := Put(s, t, pc, o, AfterRead(obj));
    var rest := UpdatesAlone(s1, t, w, i);
    GainedIs(obj, t, i);
    PutAgain(s, t, o, pc, AfterRead(obj), Return(w, Answer(obj, i)), Gained(obj, t));
    sched := StepThen(s, t, s1, rest, AnyEnds(s, t, w, i));
  }

  lemma {:induction false} ReadStep(s: State, t: nat, w: Wait, i: nat)
    requires Wf(s) && t < |s.threads| && i < |w.refs|
    requires s.threads[t].InAny? && s.threads[t].w == w && s.threads[t].i == i
    requires s.threads[t].any.TryRead? || (s.threads[t].any.Take? && Consumable(w.refs[i].kind))
    requires w.refs[i].o < |s.objs| && s.objs[w.refs[i].o].fd > 0
    ensures var o := w.refs[i].o;
            var s' := Put(s, t, Updating(w, i, i + 1, false, UpdFirst), o, AfterRead(s.objs[o]));
            Leads(s, [Move(t, Go)], s') && Wf(s') && !w.TakesAll() && (s.objs[o].Event? ==> !s.objs[o].manual)
  {
    assert WfPc(s.threads[t], KindsOf(s.objs));
    var o := w.refs[i].o;
    TouchStep(s, t, o, Updating(w, i, i + 1, false, UpdFirst), AfterRead(s.objs[o]));
  }

  lemma {:induction false} GainedIs(obj: Object, t: nat, i: nat)
    requires obj.fd > 0 && (obj.Mutex? ==> obj.tid != Thread(t)) && (obj.Event? ==> !obj.manual)
    ensures Entered(AfterRead(obj), t) == Gained(obj, t) && Answer(AfterRead(obj), i) == Answer(obj, i)
  {
  }

  lemma {:induction false} Recurs(s: State, t: nat, w: Wait, i: nat) returns (sched: seq<Move>)
    requires Wf(s) && t < |s.threads| && i < |w.refs| && s.threads[t] == InAny(w, i, Hint)
    requires w.refs[i].o < |s.objs| && s.objs[w.refs[i].o].Mutex? && s.objs[w.refs[i].o].tid == Thread(t)
    ensures Alone(sched, t) && Leads(s, sched, AnyEnds(s, t, w, i))
  {
    assert WfPc(s.threads[t], KindsOf(s.objs));
    var o := w.refs[i].o;
    var obj := s.objs[o];
    QuietStep(s, t, InAny(w, i, RecLoad));
    var s1 := MoveTo(s, t, InAny(w, i, RecLoad));
    assert WfPc(s1.threads[t], KindsOf(s1.objs));
    QuietStep(s1, t, InAny(w, i, RecStore(obj.depth)));
    var s2 := MoveTo(s, t, InAny(w, i, RecStore(obj.depth)));
    assert WfPc(s2.threads[t], KindsOf(s2.objs));
    TouchStep(s2, t, o, Return(w, Index(i)), Gained(obj, t));
    PutAgain(s, t, o, InAny(w, i, RecStore(obj.depth)), obj, Return(w, Index(i)), Gained(obj, t));
    sched := StepThen(s1, t, s2, [Move(t, Go)], AnyEnds(s, t, w, i));
    sched := StepThen(s, t, s1, sched, AnyEnds(s, t, w, i));
  }

  /** The first look, from entry i on, finds the first entry that is to be had, or none. */
  lemma {:induction false} FirstLook(s: State, t: nat, w: Wait, i: nat, m: nat) returns (sched: seq<Move>)
    requires Wf(s) && t < |s.threads| && i <= m <= |w.refs| && s.threads[t] == AnyNext(w, i)
    requires RefsOk(w.refs, KindsOf(s.objs))
    requires forall j :: i <= j < m ==> !AtOnce(s.objs[w.refs[j].o], t)
    ensures Alone(sched, t) && Leads(s, sched, MoveTo(s, t, AnyNext(w, m)))
    decreases m - i
  {
    if i == m {
      sched := [];
    } else {
      var first := LooksOn(s, t, w, i);
      var s1 := MoveTo(s, t, AnyNext(w, i + 1));
      var rest := FirstLook(s1, t, w, i + 1, m);
      LeadsThen(s, first, s1, rest, MoveTo(s, t, AnyNext(w, m)));
      sched := first + rest;
    }
  }

  // ----- poll() and the search after it -----

  /** What poll() reports. */
  function ReadyOf(objs: seq<Object>, refs: seq<Ref>): (ready: seq<bool>)
    requires forall j :: 0 <= j < |refs| ==> refs[j].o < |objs|
    ensures |ready| == |refs| && forall j :: 0 <= j < |refs| ==> ready[j] == (objs[refs[j].o].fd > 0)
  {
    seq(|refs|, j requires 0 <= j < |refs| => objs[refs[j].o].fd > 0)
  }

  lemma {:induction false} PollsOn(s: State, t: nat, w: Wait, k: nat) returns (sched: seq<Move>)
    requires Wf(s) && t < |s.threads| && RefsOk(w.refs, KindsOf(s.objs)) && k <= |w.refs|
    requires s.threads[t] == Polling(w, ReadyOf(s.objs, w.refs)[..k])
    ensures var s' := MoveTo(s, t, Polling(w, ReadyOf(s.objs, w.refs)));
            Alone(sched, t) && Leads(s, sched, s') && Wf(s')
    decreases |w.refs| - k
  {
    var ready := ReadyOf(s.objs, w.refs);
    assert WfPc(s.threads[t], KindsOf(s.objs));
    if k == |w.refs| {
      assert ready[..k] == ready;
      sched := [];
    } else {
      assert ready[..k] + [ready[k]] == ready[..k + 1];
      QuietStep(s, t, Polling(w, ready[..k + 1]));
      var s1 := MoveTo(s, t, Polling(w, ready[..k + 1]));
      var rest := PollsOn(s1, t, w, k + 1);
      sched := StepThen(s, t, s1, rest, MoveTo(s, t, Polling(w, ready)));
    }
  }

  /** The search passes over what is not readable. */
  lemma {:induction false} SearchesOn(s: State, t: nat, w: Wait, i: nat, m: nat) returns (sched: seq<Move>)
    requires Wf(s) && t < |s.threads| && RefsOk(w.refs, KindsOf(s.objs)) && i <= m < |w.refs|
    requires s.threads[t] == InAny(w, i, Take(ReadyOf(s.objs, w.refs)))
    requires forall j :: i <= j < m ==> s.objs[w.refs[j].o].fd == 0
    ensures var s' := MoveTo(s, t, InAny(w, m, Take(ReadyOf(s.objs, w.refs))));
            Alone(sched, t) && Leads(s, sched, s') && Wf(s')
    decreases m - i
  {
    var ready := ReadyOf(s.objs, w.refs);
    assert WfPc(s.threads[t], KindsOf(s.objs));
    if i == m {
      sched := [];
    } else {
      QuietStep(s, t, InAny(w, i + 1, Take(ready)));
      var s1 := MoveTo(s, t, InAny(w, i + 1, Take(ready)));
      var rest := SearchesOn(s1, t, w, i + 1, m);
      sched := StepThen(s, t, s1, rest, MoveTo(s, t, InAny(w, m, Take(ready))));
    }
  }

  lemma {:induction false} FindsReady(s: State, t: nat, w: Wait, i: nat) returns (sched: seq<Move>)
    requires Wf(s) && t < |s.threads| && RefsOk(w.refs, KindsOf(s.objs)) && i < |w.refs|
    requires s.threads[t] == InAny(w, i, Take(ReadyOf(s.objs, w.refs)))
    requires s.objs[w.refs[i].o].fd > 0 && !AtOnce(s.objs[w.refs[i].o], t)
    ensures Alone(sched, t) && Leads(s, sched, AnyEnds(s, t, w, i))
  {
    assert WfPc(s.threads[t], KindsOf(s.objs));
    if Consumable(w.refs[i].kind) {
      sched := ReadsHere(s, t, w, i);
    } else {
      TouchStep(s, t, w.refs[i].o, Return(w, Index(i)), s.objs[w.refs[i].o]);
      sched := [Move(t, Go)];
    }
  }

  lemma {:induction false} PollFinds(s: State, t: nat, w: Wait, i: nat) returns (sched: seq<Move>)
    requires Wf(s) && t < |s.threads| && RefsOk(w.refs, KindsOf(s.objs)) && s.threads[t] == Polling(w, [])
    requires i < |w.refs| && s.objs[w.refs[i].o].fd > 0 && !AtOnce(s.objs[w.refs[i].o], t)
    requires forall j :: 0 <= j < i ==> s.objs[w.refs[j].o].fd == 0
    ensures Alone(sched, t) && Leads(s, sched, AnyEnds(s, t, w, i))
  {
    var ready := ReadyOf(s.objs, w.refs);
    assert ready[..0] == [] && ready[i];
    var first := PollsOn(s, t, w, 0);
    var s1, s2 := MoveTo(s, t, Polling(w, ready)), MoveTo(s, t, InAny(w, 0, Take(ready)));
    LeadsStep(s1, t, Go, s2);
    var rest := SearchFinds(s2, t, w, i);
    SameEnd(s, t, w, i, InAny(w, 0, Take(ready)));
    rest := StepThen(s1, t, s2, rest, AnyEnds(s, t, w, i));
    LeadsThen(s, first, s1, rest, AnyEnds(s, t, w, i));
    sched := first + rest;
  }

  lemma {:induction false} SearchFinds(s: State, t: nat, w: Wait, i: nat) returns (sched: seq<Move>)
    requires Wf(s) && t < |s.threads| && RefsOk(w.refs, KindsOf(s.objs)) && i < |w.refs|
    requires s.threads[t] == InAny(w, 0, Take(ReadyOf(s.objs, w.refs)))
    requires s.objs[w.refs[i].o].fd > 0 && !AtOnce(s.objs[w.refs[i].o], t)
    requires forall j :: 0 <= j < i ==> s.objs[w.refs[j].o].fd == 0
    ensures Alone(sched, t) && Leads(s, sched, AnyEnds(s, t, w, i))
  {
    var pc := InAny(w, i, Take(ReadyOf(s.objs, w.refs)));
    var search := SearchesOn(s, t, w, 0, i);
    var last := FindsReady(MoveTo(s, t, pc), t, w, i);
    SameEnd(s, t, w, i, pc);
    LeadsThen(s, search, MoveTo(s, t, pc), last, AnyEnds(s, t, w, i));
    sched := search + last;
  }

  lemma {:induction false} SameEnd(s: State, t: nat, w: Wait, i: nat, pc: Pc)
    requires t < |s.threads| && i < |w.refs| && w.refs[i].o < |s.objs|
    ensures AnyEnds(MoveTo(s, t, pc), t, w, i) == AnyEnds(s, t, w, i)
  {
    var o := w.refs[i].o;
    PutAgain(s, t, o, pc, s.objs[o], Return(w, Answer(s.objs[o], i)), Gained(s.objs[o], t));
  }

  // ----- The whole call -----

  /** The entry that the call should return with: the first that is to be had at once; if there is
      none, the first that is readable. */
  ghost predicate FirstChoice(objs: seq<Object>, refs: seq<Ref>, t: nat, i: nat)
    requires forall j :: 0 <= j < |refs| ==> refs[j].o < |objs|
  {
    && i < |refs|
    && if exists j :: 0 <= j < |refs| && AtOnce(objs[refs[j].o], t)
       then AtOnce(objs[refs[i].o], t) && forall j :: 0 <= j < i ==> !AtOnce(objs[refs[j].o], t)
       else objs[refs[i].o].fd > 0 && forall j :: 0 <= j < i ==> objs[refs[j].o].fd == 0
  }

  lemma {:induction false} LookFinds(s: State, t: nat, w: Wait, i: nat) returns (sched: seq<Move>)
    requires Wf(s) && t < |s.threads| && s.threads[t] == AnyNext(w, 0) && RefsOk(w.refs, KindsOf(s.objs))
    requires i < |w.refs| && AtOnce(s.objs[w.refs[i].o], t)
    requires forall j :: 0 <= j < i ==> !AtOnce(s.objs[w.refs[j].o], t)
    ensures Alone(sched, t) && Leads(s, sched, AnyEnds(s, t, w, i))
  {
    var first := FirstLook(s, t, w, 0, i);
    var s1 := MoveTo(s, t, AnyNext(w, i));
    SameEnd(s, t, w, i, AnyNext(w, i));
    var rest := TakesHere(s1, t, w, i);
    LeadsThen(s, first, s1, rest, AnyEnds(s, t, w, i));
    sched := first + rest;
  }

  lemma {:induction false} LookFindsNone(s: State, t: nat, w: Wait, i: nat) returns (sched: seq<Move>)
    requires Wf(s) && t < |s.threads| && s.threads[t] == AnyNext(w, 0) && RefsOk(w.refs, KindsOf(s.objs))
    requires i < |w.refs| && s.objs[w.refs[i].o].fd > 0 && forall j :: 0 <= j < i ==> s.objs[w.refs[j].o].fd == 0
    requires forall j :: 0 <= j < |w.refs| ==> !AtOnce(s.objs[w.refs[j].o], t)
    ensures Alone(sched, t) && Leads(s, sched, AnyEnds(s, t, w, i))
  {
    var first := FirstLook(s, t, w, 0, |w.refs|);
    var s1 := MoveTo(s, t, AnyNext(w, |w.refs|));
    SameEnd(s, t, w, i, AnyNext(w, |w.refs|));
    var rest := PollFinds(s1, t, w, i);
    LeadsThen(s, first, s1, rest, AnyEnds(s, t, w, i));
    sched := first + rest;
  }

  /** Undisturbed, the call returns with that entry, and has changed that object only. */
  lemma {:induction false} AnyTakesFirst(s: State, t: nat, w: Wait, i: nat) returns (sched: seq<Move>)
    requires Wf(s) && t < |s.threads| && s.threads[t].Idle? && !w.TakesAll()
    requires RefsOk(w.refs, KindsOf(s.objs)) && FirstChoice(s.objs, w.refs, t, i)
    ensures Alone(sched, t) && Leads(s, [Move(t, Start(WaitFor(w)))] + sched, AnyEnds(s, t, w, i))
  {
    var begin := [Move(t, Start(WaitFor(w)))];
    var s1 := MoveTo(s, t, AnyNext(w, 0));
    LeadsStep(s, t, Start(WaitFor(w)), s1);
    SameEnd(s, t, w, i, AnyNext(w, 0));
    if AtOnce(s.objs[w.refs[i].o], t) {
      sched := LookFinds(s1, t, w, i);
    } else {
      sched := LookFindsNone(s1, t, w, i);
    }
    LeadsThen(s, begin, s1, sched, AnyEnds(s, t, w, i));
  }

  // ----- When nothing is to be had -----

  /** Still looking, or polling and having found nothing. */
  predicate Searching(pc: Pc, w: Wait) {
    match pc
    case InAny(w', _, any) => w' == w && (any.Hint? || any.HintCount? || any.TryRead?)
    case Polling(w', ready) => w' == w && true !in ready
    case _ => false
  }

  ghost predicate NothingThere(objs: seq<Object>, refs: seq<Ref>, t: nat)
    requires forall j :: 0 <= j < |refs| ==> refs[j].o < |objs|
  {
    forall j :: 0 <= j < |refs| ==> !AtOnce(objs[refs[j].o], t) && objs[refs[j].o].fd == 0
  }

  lemma {:induction false} SearchingStep(s: State, t: nat, w: Wait)
    requires Wf(s) && t < |s.threads| && RefsOk(w.refs, KindsOf(s.objs)) && Searching(s.threads[t], w)
    requires NothingThere(s.objs, w.refs, t)
    ensures var s' := Step(s, t, Go).state; s'.objs == s.objs && Searching(s'.threads[t], w)
  {
    var pc := s.threads[t];
    assert WfPc(pc, KindsOf(s.objs));
    if Focused(pc) {
      var o := Focus(pc);
      var j := if pc.InAny? then pc.i else |pc.ready|;
      assert w.refs[j].o == o;
      assert !AtOnce(s.objs[w.refs[j].o], t) && s.objs[w.refs[j].o].fd == 0;
      assert s.objs[o := s.objs[o]] == s.objs;
    }
  }

  /** Then the call goes on for ever, and changes nothing. */
  lemma {:induction false} AnyWaits(s: State, t: nat, w: Wait, sched: seq<Move>)
    requires Wf(s) && t < |s.threads| && s.threads[t].Idle? && !w.TakesAll()
    requires RefsOk(w.refs, KindsOf(s.objs)) && NothingThere(s.objs, w.refs, t) && Alone(sched, t)
    ensures Schedules([Move(t, Start(WaitFor(w)))] + sched, |s.threads|)
    ensures var s' := Exec(s, [Move(t, Start(WaitFor(w)))] + sched).state;
            s'.objs == s.objs && Searching(s'.threads[t], w)
  {
    var begin := [Move(t, Start(WaitFor(w)))];
    if sched == [] {
      assert begin + sched == begin;
      ExecOne(s, t, Start(WaitFor(w)));
    } else {
      var n := |sched| - 1;
      AnyWaits(s, t, w, sched[..n]);
      assert (begin + sched)[..n + 1] == begin + sched[..n];
      ExecLast(s, begin + sched);
      SearchingStep(Exec(s, begin + sched[..n]).state, t, w);
    }
  }

  // ----- Exactly -----

  lemma {:induction false} SomeChoice(objs: seq<Object>, refs: seq<Ref>, t: nat) returns (i: nat)
    requires forall j :: 0 <= j < |refs| ==> refs[j].o < |objs|
    requires !NothingThere(objs, refs, t)
    ensures FirstChoice(objs, refs, t, i)
  {
    i := 0;
    if exists j :: 0 <= j < |refs| && AtOnce(objs[refs[j].o], t) {
      while !AtOnce(objs[refs[i].o], t)
        invariant i < |refs| && forall j :: 0 <= j < i ==> !AtOnce(objs[refs[j].o], t)
        decreases |refs| - i
      {
        i := i + 1;
      }
    } else {
      while objs[refs[i].o].fd == 0
        invariant i < |refs| && forall j :: 0 <= j < i ==> objs[refs[j].o].fd == 0
        decreases |refs| - i
      {
        i := i + 1;
      }
    }
  }

  /** Undisturbed, a wait for any of several objects returns if and only if one of them is to be had
      at once or readable. */
  lemma {:induction false} AnyReturnsExactly(s: State, t: nat, w: Wait)
    requires Wf(s) && t < |s.threads| && s.threads[t].Idle? && !w.TakesAll() && RefsOk(w.refs, KindsOf(s.objs))
    ensures (exists sched, status :: Alone(sched, t) && EndsWith(s, t, w, sched, status))
            <==> !NothingThere(s.objs, w.refs, t)
  {
    if NothingThere(s.objs, w.refs, t) {
      forall sched, status | Alone(sched, t) ensures !EndsWith(s, t, w, sched, status) {
        AnyWaits(s, t, w, sched);
      }
    } else {
      var i := SomeChoice(s.objs, w.refs, t);
      var sched := AnyTakesFirst(s, t, w, i);
      assert EndsWith(s, t, w, sched, Answer(s.objs[w.refs[i].o], i));
    }
  }

  ghost predicate EndsWith(s: State, t: nat, w: Wait, sched: seq<Move>, status: Status)
    requires Wf(s) && t < |s.threads|
  {
    && Schedules([Move(t, Start(WaitFor(w)))] + sched, |s.threads|)
    && Exec(s, [Move(t, Start(WaitFor(w)))] + sched).state.threads[t] == Return(w, status)
  }

  /** And then with no other status: what a thread does alone is determined. */
  lemma {:induction false} AnyAnswersOnly(s: State, t: nat, w: Wait, i: nat, sched: seq<Move>, status: Status)
    requires Wf(s) && t < |s.threads| && s.threads[t].Idle? && !w.TakesAll() && RefsOk(w.refs, KindsOf(s.objs))
    requires FirstChoice(s.objs, w.refs, t, i) && Alone(sched, t) && EndsWith(s, t, w, sched, status)
    ensures Exec(s, [Move(t, Start(WaitFor(w)))] + sched).state == AnyEnds(s, t, w, i)
  {
    var begin := [Move(t, Start(WaitFor(w)))];
    var mine := AnyTakesFirst(s, t, w, i);
    var n, m := |sched|, |mine|;
    if n <= m {
      assert mine == sched + mine[n..];
      assert begin + mine == begin + sched + mine[n..];
      IdleStays(s, begin + sched, mine[n..], t);
    } else {
      assert sched == mine + sched[m..];
      assert begin + sched == begin + mine + sched[m..];
      IdleStays(s, begin + mine, sched[m..], t);
    }
  }

  lemma {:induction false} IdleStays(s: State, a: seq<Move>, b: seq<Move>, t: nat)
    requires Wf(s) && t < |s.threads| && Schedules(a, |s.threads|) && Alone(b, t) && Exec(s, a).state.threads[t].Idle?
    ensures Schedules(a + b, |s.threads|) && Exec(s, a + b).state == Exec(s, a).state
  {
    ExecAppend(s, a, b);
    IdleAlone(Exec(s, a).state, b, t);
  }

  lemma {:induction false} IdleAlone(s: State, sched: seq<Move>, t: nat)
    requires Wf(s) && t < |s.threads| && Alone(sched, t) && s.threads[t].Idle?
    ensures Schedules(sched, |s.threads|) && Exec(s, sched).state == s
  {
    if sched != [] {
      var n := |sched| - 1;
      IdleAlone(s, sched[..n], t);
      ExecLast(s, sched);
      assert s.threads[t := s.threads[t]] == s.threads;
    }
  }
}
