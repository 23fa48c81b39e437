/** What the other calls come to when nobody disturbs them: each returns, and with this result. */
module EsyncAlone {
  import opened EsyncModel
  import opened EsyncInvariants
  import opened EsyncSteps
  import opened EsyncRuns
  import opened EsyncSolo
  import opened EsyncAny

  /** From its call on, going on alone, thread t comes back with this status and has left object x so. */
  ghost predicate Ends(s: State, t: nat, call: Call, sched: seq<Move>, status: Status, x: nat, obj: Object)
    requires t < |s.threads| && x < |s.objs|
  {
    && Alone(sched, t)
    && Leads(s, [Move(t, Start(call))] + sched, Put(s, t, Idle(Returned(call, status)), x, obj))
  }

  /** A call whose code starts at pc, and ends as the steps from there do. */
  lemma {:induction false} CallEnds(s: State, t: nat, call: Call, pc: Pc, sched: seq<Move>, status: Status, x: nat,
                                    obj: Object)
    requires Wf(s) && t < |s.threads| && s.threads[t].Idle? && x < |s.objs|
    requires Legal(call, KindsOf(s.objs)) && Begin(call, KindsOf(s.objs)) == pc
    requires Alone(sched, t) && Leads(MoveTo(s, t, pc), sched, Put(s, t, Idle(Returned(call, status)), x, obj))
    ensures Ends(s, t, call, sched, status, x, obj)
  {
    LeadsStep(s, t, Start(call), MoveTo(s, t, pc));
    LeadsThen(s, [Move(t, Start(call))], MoveTo(s, t, pc), sched, Put(s, t, Idle(Returned(call, status)), x, obj));
  }

  lemma {:induction false} BegunWf(s: State, t: nat, call: Call)
    requires Wf(s) && t < |s.threads| && s.threads[t].Idle? && Legal(call, KindsOf(s.objs))
    ensures Wf(MoveTo(s, t, Begin(call, KindsOf(s.objs))))
  {
    LeadsStep(s, t, Start(call), MoveTo(s, t, Begin(call, KindsOf(s.objs))));
  }

  /** The last step but for more of the thread's own. */
  lemma {:induction false} PutThen(s: State, t: nat, x: nat, pc: Pc, obj: Object, rest: seq<Move>, pc': Pc,
                                   obj': Object) returns (sched: seq<Move>)
    requires t < |s.threads| && x < |s.objs| && Leads(s, [Move(t, Go)], Put(s, t, pc, x, obj)) && Alone(rest, t)
    requires Leads(Put(s, t, pc, x, obj), rest, Put(Put(s, t, pc, x, obj), t, pc', x, obj'))
    ensures Alone(sched, t) && Leads(s, sched, Put(s, t, pc', x, obj'))
  {
    LeadsPut(s, t, x, [Move(t, Go)], pc, obj, rest, pc', obj');
    sched := [Move(t, Go)] + rest;
  }

  // ----- ReleaseMutex -----

  /** A mutex after its owner has released it once. */
  function HoldLess(obj: Object): Object
    requires obj.Mutex?
  {
    if obj.depth == 1 then Mutex(obj.fd + 1, NoOne, 0) else obj.(depth := obj.depth - 1)
  }

  /** Releasing a mutex: the owner gives up one of its holds, and the last of them makes the mutex free;
      anybody else is refused. */
  lemma {:induction false} MutexReleases(s: State, t: nat, x: nat) returns (sched: seq<Move>)
    requires Wf(s) && t < |s.threads| && s.threads[t].Idle? && x < |s.objs| && s.objs[x].Mutex?
    ensures var obj, call := s.objs[x], ReleaseMutex(x);
            if obj.tid == Thread(t) then Ends(s, t, call, sched, Success, x, HoldLess(obj))
            else Ends(s, t, call, sched, NotOwned, x, obj)
  {
    var obj, call, pc := s.objs[x], ReleaseMutex(x), Unlocking(x, MtxTid);
    BegunWf(s, t, call);
    var s1 := MoveTo(s, t, pc);
    assert WfPc(s1.threads[t], KindsOf(s1.objs));
    if obj.tid == Thread(t) {
      var done, last := Idle(Returned(call, Success)), HoldLess(obj);
      QuietStep(s1, t, Unlocking(x, MtxLoad));
      var rest := HoldReleases(MoveTo(s, t, Unlocking(x, MtxLoad)), t, x, done, last);
      PutAgain(s, t, x, Unlocking(x, MtxLoad), obj, done, last);
      sched := StepThen(s1, t, MoveTo(s, t, Unlocking(x, MtxLoad)), rest, Put(s, t, done, x, last));
      CallEnds(s, t, call, pc, sched, Success, x, last);
    } else {
      TouchStep(s1, t, x, Idle(Returned(call, NotOwned)), obj);
      PutAgain(s, t, x, pc, obj, Idle(Returned(call, NotOwned)), obj);
      sched := [Move(t, Go)];
      CallEnds(s, t, call, pc, sched, NotOwned, x, obj);
    }
  }

  lemma {:induction false} HoldReleases(s: State, t: nat, x: nat, done: Pc, last: Object) returns (sched: seq<Move>)
    requires Wf(s) && t < |s.threads| && x < |s.objs| && s.objs[x].Mutex? && s.threads[t] == Unlocking(x, MtxLoad)
    requires done == Idle(Returned(ReleaseMutex(x), Success)) && last == HoldLess(s.objs[x])
    ensures Alone(sched, t) && Leads(s, sched, Put(s, t, done, x, last))
  {
    var obj, pc := s.objs[x], Unlocking(x, MtxStore(s.objs[x].depth));
    assert WfPc(s.threads[t], KindsOf(s.objs));
    QuietStep(s, t, pc);
    var s1 := MoveTo(s, t, pc);
    assert WfPc(s1.threads[t], KindsOf(s1.objs));
    var rest;
    if obj.depth == 1 {
      var freed := Mutex(obj.fd, obj.tid, 0);
      TouchStep(s1, t, x, Unlocking(x, MtxClear), freed);
      var last2 := TokenReleases(Put(s1, t, Unlocking(x, MtxClear), x, freed), t, x, done, last);
      rest := PutThen(s1, t, x, Unlocking(x, MtxClear), freed, last2, done, last);
    } else {
      TouchStep(s1, t, x, done, last);
      rest := [Move(t, Go)];
    }
    PutAgain(s, t, x, pc, obj, done, last);
    sched := StepThen(s, t, s1, rest, Put(s, t, done, x, last));
  }

  lemma {:induction false} TokenReleases(s: State, t: nat, x: nat, done: Pc, last: Object) returns (sched: seq<Move>)
    requires Wf(s) && t < |s.threads| && x < |s.objs| && s.objs[x].Mutex? && s.threads[t] == Unlocking(x, MtxClear)
    requires done == Idle(Returned(ReleaseMutex(x), Success))
    requires last == Mutex(s.objs[x].fd + 1, NoOne, s.objs[x].depth)
    ensures Alone(sched, t) && Leads(s, sched, Put(s, t, done, x, last))
  {
    var obj, pc := s.objs[x].(tid := NoOne), Unlocking(x, MtxWrite);
    assert WfPc(s.threads[t], KindsOf(s.objs));
    TouchStep(s, t, x, pc, obj);
    var s1 := Put(s, t, pc, x, obj);
    assert WfPc(s1.threads[t], KindsOf(s1.objs));
    TouchStep(s1, t, x, done, last);
    sched := PutThen(s, t, x, pc, obj, [Move(t, Go)], done, last);
  }

  // ----- ReleaseSemaphore -----

  /** Releasing a semaphore by an amount that does not make the sum leave 32 bits: it is granted if the
      maximum allows, and adds to record and eventfd; otherwise nothing changes. */
  lemma {:induction false} SemaphoreReleases(s: State, t: nat, x: nat, n: nat) returns (sched: seq<Move>)
    requires Wf(s) && t < |s.threads| && s.threads[t].Idle? && x < |s.objs| && s.objs[x].Semaphore?
    requires 0 <= s.objs[x].count && s.objs[x].max <= INT_MAX && s.objs[x].count <= INT_MAX
    requires n + s.objs[x].count < ULONG_RANGE
    ensures var obj, call := s.objs[x], ReleaseSemaphore(x, n);
            if obj.count + n <= obj.max
            then Ends(s, t, call, sched, Success, x, Semaphore(obj.fd + n, obj.max, obj.count + n))
            else Ends(s, t, call, sched, LimitExceeded, x, obj)
  {
    var obj, call, pc := s.objs[x], ReleaseSemaphore(x, n), Releasing(x, n, SemLoad);
    SmallUlong(obj.count);
    BegunWf(s, t, call);
    var s1 := MoveTo(s, t, pc);
    assert WfPc(s1.threads[t], KindsOf(s1.objs));
    if obj.count + n <= obj.max {
      var done, last := Idle(Returned(call, Success)), Semaphore(obj.fd + n, obj.max, obj.count + n);
      QuietStep(s1, t, Releasing(x, n, SemCas(obj.count)));
      var s2 := MoveTo(s, t, Releasing(x, n, SemCas(obj.count)));
      var rest := CountReleases(s2, t, x, n, done, last);
      PutAgain(s, t, x, Releasing(x, n, SemCas(obj.count)), obj, done, last);
      sched := StepThen(s1, t, s2, rest, Put(s, t, done, x, last));
      CallEnds(s, t, call, pc, sched, Success, x, last);
    } else {
      TouchStep(s1, t, x, Idle(Returned(call, LimitExceeded)), obj);
      PutAgain(s, t, x, pc, obj, Idle(Returned(call, LimitExceeded)), obj);
      sched := [Move(t, Go)];
      CallEnds(s, t, call, pc, sched, LimitExceeded, x, obj);
    }
  }

  lemma {:induction false} CountReleases(s: State, t: nat, x: nat, n: nat, done: Pc, last: Object)
      returns (sched: seq<Move>)
    requires Wf(s) && t < |s.threads| && x < |s.objs| && s.objs[x].Semaphore? && 0 <= s.objs[x].count
    requires s.threads[t] == Releasing(x, n, SemCas(s.objs[x].count)) && s.objs[x].count + n <= s.objs[x].max <= INT_MAX
    requires done == Idle(Returned(ReleaseSemaphore(x, n), Success))
    requires last == Semaphore(s.objs[x].fd + n, s.objs[x].max, s.objs[x].count + n)
    ensures Alone(sched, t) && Leads(s, sched, Put(s, t, done, x, last))
  {
    var obj, pc := s.objs[x].(count := s.objs[x].count + n), Releasing(x, n, SemWrite);
    SmallUlong(s.objs[x].count);
    SmallUlong(s.objs[x].count + n);
    assert WfPc(s.threads[t], KindsOf(s.objs));
    TouchStep(s, t, x, pc, obj);
    var s1 := Put(s, t, pc, x, obj);
    assert WfPc(s1.threads[t], KindsOf(s1.objs));
    TouchStep(s1, t, x, done, last);
    sched := PutThen(s, t, x, pc, obj, [Move(t, Go)], done, last);
  }

  // ----- PulseEvent -----

  /** A pulse leaves the eventfd empty and the record as it was; of anything but an event it is refused,
      and so are setting and resetting. */
  lemma {:induction false} EventPulses(s: State, t: nat, x: nat) returns (sched: seq<Move>)
    requires Wf(s) && t < |s.threads| && s.threads[t].Idle? && x < |s.objs| && s.objs[x].Event?
    ensures var obj := s.objs[x];
            Ends(s, t, PulseEvent(x), sched, Success, x, Event(0, obj.manual, obj.signaled, obj.locked))
  {
    var obj, call := s.objs[x], PulseEvent(x);
    var pc, pc' := Pulsing(x, obj.manual, false), Pulsing(x, obj.manual, true);
    var done, last := Idle(Returned(call, Success)), Event(0, obj.manual, obj.signaled, obj.locked);
    BegunWf(s, t, call);
    var s1 := MoveTo(s, t, pc);
    assert WfPc(s1.threads[t], KindsOf(s1.objs));
    TouchStep(s1, t, x, pc', AfterWrite(obj, 1));
    var s2 := Put(s1, t, pc', x, AfterWrite(obj, 1));
    assert WfPc(s2.threads[t], KindsOf(s2.objs));
    TouchStep(s2, t, x, done, last);
    sched := PutThen(s1, t, x, pc', AfterWrite(obj, 1), [Move(t, Go)], done, last);
    PutAgain(s, t, x, pc, obj, done, last);
    CallEnds(s, t, call, pc, sched, Success, x, last);
  }

  lemma {:induction false} OthersRefused(s: State, t: nat, x: nat, call: Call)
    requires Wf(s) && t < |s.threads| && s.threads[t].Idle? && x < |s.objs| && !s.objs[x].Event?
    requires call == PulseEvent(x) || (call.ChangeEvent? && call.o == x)
    ensures Ends(s, t, call, [], TypeMismatch, x, s.objs[x])
  {
    var pc := Idle(Returned(call, TypeMismatch));
    assert s.objs[x := s.objs[x]] == s.objs;
    CallEnds(s, t, call, pc, [], TypeMismatch, x, s.objs[x]);
  }

  // ----- Exit -----

  /** An object after thread t has gone. */
  function LeftBehind(obj: Object, t: nat): Object {
    if obj.Mutex? && obj.tid == Thread(t) then Mutex(obj.fd + 1, Abandoned, 0) else obj
  }

  function AllLeft(objs: seq<Object>, t: nat, k: nat): (r: seq<Object>)
    ensures |r| == |objs|
    ensures forall o :: 0 <= o < |objs| ==> r[o] == if o < k then objs[o] else LeftBehind(objs[o], t)
  {
    seq(|objs|, o requires 0 <= o < |objs| => if o < k then objs[o] else LeftBehind(objs[o], t))
  }

  /** The server goes through the objects from k on. */
  lemma {:induction false} ExitsFrom(s: State, t: nat, k: nat) returns (sched: seq<Move>)
    requires Wf(s) && t < |s.threads| && k <= |s.objs| && s.threads[t] == DyingNext(k, |s.objs|)
    ensures Alone(sched, t) && Leads(s, sched, State(AllLeft(s.objs, t, k), s.threads[t := Dead]))
    decreases |s.objs| - k
  {
    var end := State(AllLeft(s.objs, t, k), s.threads[t := Dead]);
    if k == |s.objs| {
      assert AllLeft(s.objs, t, k) == s.objs && s.threads[t := Dead] == s.threads;
      sched := [];
    } else {
      var pc, obj := DyingNext(k + 1, |s.objs|), LeftBehind(s.objs[k], t);
      var first := ExitsAt(s, t, k);
      var s1 := Put(s, t, pc, k, obj);
      var rest := ExitsFrom(s1, t, k + 1);
      assert AllLeft(s1.objs, t, k + 1) == AllLeft(s.objs, t, k);
      assert s1.threads[t := Dead] == s.threads[t := Dead];
      LeadsThen(s, first, s1, rest, end);
      sched := first + rest;
    }
  }

  lemma {:induction false} ExitsAt(s: State, t: nat, k: nat) returns (sched: seq<Move>)
    requires Wf(s) && t < |s.threads| && k < |s.objs| && s.threads[t] == Dying(k, DyTest)
    ensures var s' := Put(s, t, DyingNext(k + 1, |s.objs|), k, LeftBehind(s.objs[k], t));
            Alone(sched, t) && Leads(s, sched, s') && Wf(s')
  {
    var obj, next := s.objs[k], DyingNext(k + 1, |s.objs|);
    assert WfPc(s.threads[t], KindsOf(s.objs));
    if obj.Mutex? && obj.tid == Thread(t) {
      QuietStep(s, t, Dying(k, DyTid));
      var s1 := MoveTo(s, t, Dying(k, DyTid));
      var rest := AbandonsAt(s1, t, k, next, LeftBehind(obj, t));
      PutAgain(s, t, k, Dying(k, DyTid), obj, next, LeftBehind(obj, t));
      sched := StepThen(s, t, s1, rest, Put(s, t, next, k, LeftBehind(obj, t)));
    } else {
      TouchStep(s, t, k, next, obj);
      sched := [Move(t, Go)];
    }
  }

  lemma {:induction false} AbandonsAt(s: State, t: nat, k: nat, next: Pc, last: Object) returns (sched: seq<Move>)
    requires Wf(s) && t < |s.threads| && k < |s.objs| && s.threads[t] == Dying(k, DyTid) && s.objs[k].Mutex?
    requires next == DyingNext(k + 1, |s.objs|) && last == Mutex(s.objs[k].fd + 1, Abandoned, 0)
    ensures Alone(sched, t) && Leads(s, sched, Put(s, t, next, k, last))
  {
    var obj := s.objs[k].(tid := Abandoned);
    assert WfPc(s.threads[t], KindsOf(s.objs));
    TouchStep(s, t, k, Dying(k, DyCount), obj);
    var rest := DepthCleared(Put(s, t, Dying(k, DyCount), k, obj), t, k, next, last);
    sched := PutThen(s, t, k, Dying(k, DyCount), obj, rest, next, last);
  }

  lemma {:induction false} DepthCleared(s: State, t: nat, k: nat, next: Pc, last: Object) returns (sched: seq<Move>)
    requires Wf(s) && t < |s.threads| && k < |s.objs| && s.threads[t] == Dying(k, DyCount) && s.objs[k].Mutex?
    requires next == DyingNext(k + 1, |s.objs|) && last == Mutex(s.objs[k].fd + 1, s.objs[k].tid, 0)
    ensures Alone(sched, t) && Leads(s, sched, Put(s, t, next, k, last))
  {
    var obj, pc := s.objs[k].(depth := 0), Dying(k, DyWrite);
    assert WfPc(s.threads[t], KindsOf(s.objs));
    TouchStep(s, t, k, pc, obj);
    var s1 := Put(s, t, pc, k, obj);
    assert WfPc(s1.threads[t], KindsOf(s1.objs));
    TouchStep(s1, t, k, next, last);
    sched := PutThen(s, t, k, pc, obj, [Move(t, Go)], next, last);
  }

  /** A thread that exits leaves exactly the mutexes it owned free and abandoned. */
  lemma {:induction false} ThreadExits(s: State, t: nat) returns (sched: seq<Move>)
    requires Wf(s) && t < |s.threads| && s.threads[t].Idle?
    ensures Alone(sched, t)
    ensures Leads(s, [Move(t, Start(ExitThread))] + sched, State(AllLeft(s.objs, t, 0), s.threads[t := Dead]))
  {
    BegunWf(s, t, ExitThread);
    var s1 := MoveTo(s, t, DyingNext(0, |s.objs|));
    LeadsStep(s, t, Start(ExitThread), s1);
    sched := ExitsFrom(s1, t, 0);
    assert s1.threads[t := Dead] == s.threads[t := Dead];
    LeadsThen(s, [Move(t, Start(ExitThread))], s1, sched, State(AllLeft(s.objs, t, 0), s.threads[t := Dead]));
  }

  // ----- Waits that are given up -----

  function GaveUp(w: Wait, apc: bool): Pc { Return(w, if apc then UserApc else TimedOut) }

  function GiveUp(apc: bool): Choice { if apc then Apc else Timeout }

  /** In a wait for any of several objects of which none is to be had at once, a user APC is reported,
      if the wait is alertable, whatever poll() found besides; and a timeout, if it found nothing.
      Everything is left as it was. */
  lemma {:induction false} AnyGivesUp(s: State, t: nat, w: Wait, apc: bool) returns (sched: seq<Move>)
    requires Wf(s) && t < |s.threads| && s.threads[t].Idle? && !w.TakesAll() && RefsOk(w.refs, KindsOf(s.objs))
    requires forall j :: 0 <= j < |w.refs| ==> !AtOnce(s.objs[w.refs[j].o], t)
    requires if apc then w.alertable else NothingThere(s.objs, w.refs, t)
    ensures Alone(sched, t)
    ensures Leads(s, [Move(t, Start(WaitFor(w)))] + sched + [Move(t, GiveUp(apc))], MoveTo(s, t, GaveUp(w, apc)))
  {
    var s1 := MoveTo(s, t, Polling(w, ReadyOf(s.objs, w.refs)));
    sched := AnyPolls(s, t, w);
    GivesUpStep(s1, t, w, apc);
    assert MoveTo(s1, t, GaveUp(w, apc)) == MoveTo(s, t, GaveUp(w, apc));
    LeadsThen(s, [Move(t, Start(WaitFor(w)))] + sched, s1, [Move(t, GiveUp(apc))], MoveTo(s, t, GaveUp(w, apc)));
  }

  lemma {:induction false} GivesUpStep(s: State, t: nat, w: Wait, apc: bool)
    requires Wf(s) && t < |s.threads| && RefsOk(w.refs, KindsOf(s.objs))
    requires s.threads[t] == Polling(w, ReadyOf(s.objs, w.refs))
    requires if apc then w.alertable else NothingThere(s.objs, w.refs, t)
    ensures Leads(s, [Move(t, GiveUp(apc))], MoveTo(s, t, GaveUp(w, apc)))
  {
    LeadsStep(s, t, GiveUp(apc), MoveTo(s, t, GaveUp(w, apc)));
  }

  /** The call comes to the end of its first poll(). */
  lemma {:induction false} AnyPolls(s: State, t: nat, w: Wait) returns (sched: seq<Move>)
    requires Wf(s) && t < |s.threads| && s.threads[t].Idle? && !w.TakesAll() && RefsOk(w.refs, KindsOf(s.objs))
    requires forall j :: 0 <= j < |w.refs| ==> !AtOnce(s.objs[w.refs[j].o], t)
    ensures Alone(sched, t)
    ensures var s' := MoveTo(s, t, Polling(w, ReadyOf(s.objs, w.refs)));
            Leads(s, [Move(t, Start(WaitFor(w)))] + sched, s') && Wf(s')
  {
    var ready := ReadyOf(s.objs, w.refs);
    var s1, s2 := MoveTo(s, t, AnyNext(w, 0)), MoveTo(s, t, Polling(w, []));
    LeadsStep(s, t, Start(WaitFor(w)), s1);
    var look := FirstLook(s1, t, w, 0, |w.refs|);
    assert ready[..0] == [];
    var polls := PollsOn(s2, t, w, 0);
    LeadsThen(s1, look, s2, polls, MoveTo(s, t, Polling(w, ready)));
    sched := look + polls;
    LeadsThen(s, [Move(t, Start(WaitFor(w)))], s1, sched, MoveTo(s, t, Polling(w, ready)));
  }

  /** A wait for all of several objects does not wait at this one. */
  predicate Passable(obj: Object, t: nat) { obj.fd > 0 || (obj.Mutex? && obj.tid == Thread(t)) }

  lemma {:induction false} PassesOne(s: State, t: nat, w: Wait, i: nat) returns (sched: seq<Move>)
    requires Wf(s) && t < |s.threads| && w.TakesAll() && i < |w.refs| && s.threads[t] == AllNext(w, i)
    requires w.refs[i].o < |s.objs| && Passable(s.objs[w.refs[i].o], t)
    ensures var s' := MoveTo(s, t, AllNext(w, i + 1)); Alone(sched, t) && Leads(s, sched, s') && Wf(s')
  {
    assert WfPc(s.threads[t], KindsOf(s.objs));
    var obj, next := s.objs[w.refs[i].o], AllNext(w, i + 1);
    if obj.Mutex? && obj.tid != Thread(t) {
      QuietStep(s, t, InAll(w, i, AllPoll));
      var s1 := MoveTo(s, t, InAll(w, i, AllPoll));
      assert WfPc(s1.threads[t], KindsOf(s1.objs));
      QuietStep(s1, t, next);
      sched := StepThen(s, t, s1, [Move(t, Go)], MoveTo(s, t, next));
    } else {
      QuietStep(s, t, next);
      sched := [Move(t, Go)];
    }
  }

  lemma {:induction false} PassesUpTo(s: State, t: nat, w: Wait, i: nat, m: nat) returns (sched: seq<Move>)
    requires Wf(s) && t < |s.threads| && w.TakesAll() && i <= m < |w.refs| && s.threads[t] == AllNext(w, i)
    requires RefsOk(w.refs, KindsOf(s.objs)) && forall j :: i <= j < m ==> Passable(s.objs[w.refs[j].o], t)
    ensures var s' := MoveTo(s, t, AllNext(w, m)); Alone(sched, t) && Leads(s, sched, s') && Wf(s')
    decreases m - i
  {
    if i == m {
      sched := [];
    } else {
      var first := PassesOne(s, t, w, i);
      var s1 := MoveTo(s, t, AllNext(w, i + 1));
      var rest := PassesUpTo(s1, t, w, i + 1, m);
      LeadsThen(s, first, s1, rest, MoveTo(s, t, AllNext(w, m)));
      sched := first + rest;
    }
  }

  /** At the first object that it has to wait for, it polls. */
  lemma {:induction false} WaitsAt(s: State, t: nat, w: Wait, m: nat) returns (sched: seq<Move>)
    requires Wf(s) && t < |s.threads| && w.TakesAll() && m < |w.refs| && s.threads[t] == AllNext(w, m)
    requires w.refs[m].o < |s.objs| && !Passable(s.objs[w.refs[m].o], t)
    ensures var s' := MoveTo(s, t, InAll(w, m, AllPoll)); Alone(sched, t) && Leads(s, sched, s') && Wf(s')
  {
    assert WfPc(s.threads[t], KindsOf(s.objs));
    if s.objs[w.refs[m].o].Mutex? {
      QuietStep(s, t, InAll(w, m, AllPoll));
      sched := [Move(t, Go)];
    } else {
      assert MoveTo(s, t, InAll(w, m, AllPoll)) == s;
      sched := [];
    }
  }

  lemma {:induction false} AllGivesUpStep(s: State, t: nat, w: Wait, m: nat, apc: bool)
    requires Wf(s) && t < |s.threads| && m < |w.refs| && s.threads[t] == InAll(w, m, AllPoll)
    requires w.refs[m].o < |s.objs| && s.objs[w.refs[m].o].fd == 0 && (apc ==> w.alertable)
    ensures Leads(s, [Move(t, GiveUp(apc))], MoveTo(s, t, GaveUp(w, apc)))
  {
    assert WfPc(s.threads[t], KindsOf(s.objs));
    var o := w.refs[m].o;
    assert s.objs[o := s.objs[o]] == s.objs;
    LeadsStep(s, t, GiveUp(apc), MoveTo(s, t, GaveUp(w, apc)));
  }

  /** And there a timeout, or in an alertable wait a user APC, ends the call, with everything as it was. */
  lemma {:induction false} AllGivesUp(s: State, t: nat, w: Wait, m: nat, apc: bool) returns (sched: seq<Move>)
    requires Wf(s) && t < |s.threads| && s.threads[t].Idle? && w.TakesAll() && RefsOk(w.refs, KindsOf(s.objs))
    requires m < |w.refs| && !Passable(s.objs[w.refs[m].o], t) && (apc ==> w.alertable)
    requires forall j :: 0 <= j < m ==> Passable(s.objs[w.refs[j].o], t)
    ensures Alone(sched, t)
    ensures Leads(s, [Move(t, Start(WaitFor(w)))] + sched + [Move(t, GiveUp(apc))], MoveTo(s, t, GaveUp(w, apc)))
  {
    var s1 := MoveTo(s, t, InAll(w, m, AllPoll));
    sched := AllPolls(s, t, w, m);
    AllGivesUpStep(s1, t, w, m, apc);
    assert MoveTo(s1, t, GaveUp(w, apc)) == MoveTo(s, t, GaveUp(w, apc));
    LeadsThen(s, [Move(t, Start(WaitFor(w)))] + sched, s1, [Move(t, GiveUp(apc))], MoveTo(s, t, GaveUp(w, apc)));
  }

  lemma {:induction false} AllPolls(s: State, t: nat, w: Wait, m: nat) returns (sched: seq<Move>)
    requires Wf(s) && t < |s.threads| && s.threads[t].Idle? && w.TakesAll() && RefsOk(w.refs, KindsOf(s.objs))
    requires m < |w.refs| && !Passable(s.objs[w.refs[m].o], t)
    requires forall j :: 0 <= j < m ==> Passable(s.objs[w.refs[j].o], t)
    ensures Alone(sched, t)
    ensures var s' := MoveTo(s, t, InAll(w, m, AllPoll));
            Leads(s, [Move(t, Start(WaitFor(w)))] + sched, s') && Wf(s')
  {
    var s1, s2 := MoveTo(s, t, AllNext(w, 0)), MoveTo(s, t, AllNext(w, m));
    LeadsStep(s, t, Start(WaitFor(w)), s1);
    var first := PassesUpTo(s1, t, w, 0, m);
    var rest := WaitsAt(s2, t, w, m);
    LeadsThen(s1, first, s2, rest, MoveTo(s, t, InAll(w, m, AllPoll)));
    sched := first + rest;
    LeadsThen(s, [Move(t, Start(WaitFor(w)))], s1, sched, MoveTo(s, t, InAll(w, m, AllPoll)));
  }
}
