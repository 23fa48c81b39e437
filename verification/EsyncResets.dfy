/** Resets that a wait-all undoes when it puts back what it has read. */
module EsyncResets {
  import opened EsyncModel
  import opened EsyncInvariants
  import opened EsyncSteps
  import opened EsyncRuns
  import opened EsyncGuarantees
  import opened EsyncEvents
  import opened EsyncSolo
  import opened EsyncLimits

  /** Calls are waits for w, waits on single objects or for any of several, sets and resets. */
  predicate Plays(sched: seq<Move>, w: Wait) {
    forall i :: 0 <= i < |sched| && sched[i].c.Start? ==>
      match sched[i].c.call
      case WaitFor(w') => w' == w || !w'.TakesAll()
      case ChangeEvent(_, _) => true
      case _ => false
  }

  predicate AllIdle(s: State) { forall t :: 0 <= t < |s.threads| ==> s.threads[t].Idle? }

  /** All calls are finished; the last thing done to event x was a reset, or a wait that took it;
      and yet x is signaled. */
  ghost predicate LosingRun(s: State, sched: seq<Move>, w: Wait, kinds: seq<Kind>, x: nat) {
    && Init(s) && Wf(s) && KindsOf(s.objs) == kinds && Schedules(sched, |s.threads|) && Plays(sched, w)
    && var r := Exec(s, sched);
       && AllIdle(r.state) && x < |r.state.objs| == |s.objs| && r.state.objs[x].fd > 0
       && !EventExec(s.objs[x].fd > 0, r.acts, x)
  }

  ghost predicate CanLoseReset(w: Wait, kinds: seq<Kind>, x: nat) {
    exists s, sched :: LosingRun(s, sched, w, kinds, x)
  }

  function FullObject(k: Kind): (obj: Object)
    ensures KindOf(obj) == k && obj.fd == 1 && Fresh(obj, 0)
    ensures obj.Event? ==> obj.signaled && !obj.locked
  {
    match k
    case SemaphoreKind => Semaphore(1, 1, 1)
    case MutexKind => Mutex(1, NoOne, 0)
    case AutoKind => Event(1, false, true, false)
    case ManualKind => Event(1, true, true, false)
  }

  /** All objects signaled, three idle threads. */
  function FullState(kinds: seq<Kind>): (s: State)
    ensures Init(s) && KindsOf(s.objs) == kinds && |s.threads| == 3
    ensures forall x :: 0 <= x < |kinds| ==> s.objs[x] == FullObject(kinds[x])
  {
    State(seq(|kinds|, x requires 0 <= x < |kinds| => FullObject(kinds[x])),
          [Idle(Nothing), Idle(Nothing), Idle(Nothing)])
  }

  lemma {:induction false} AnyStep(s: State, u: nat)
    requires Wf(s) && u < |s.threads| && s.threads[u].InAny?
    ensures InRange(s.threads[u]) && Focus(s.threads[u]) < |s.objs|
    ensures CanTouch(s.threads[u], s.objs[Focus(s.threads[u])])
    ensures var pc := s.threads[u];
            var r := TouchAny(pc, s.objs[Focus(pc)], u);
            Step(s, u, Go).state == Put(s, u, r.pc, Focus(pc), r.obj)
    ensures Wf(Step(s, u, Go).state)
  {
    assert WfPc(s.threads[u], KindsOf(s.objs));
    StepWf(s, u, Go);
  }

  /** Thread u starts a wait on one signaled object and comes to read it. */
  lemma {:induction false} ReachRead(s: State, u: nat, r: Ref, main: Wait) returns (sched: seq<Move>)
    requires Wf(s) && u < |s.threads| && s.threads[u].Idle?
    requires r.o < |s.objs| && s.objs[r.o] == FullObject(r.kind) && Consumable(r.kind)
    ensures Leads(s, sched, MoveTo(s, u, InAny(Wait([r], false, false), 0, TryRead)))
    ensures Plays(sched, main)
  {
    var w := Wait([r], false, false);
    var s1 := MoveTo(s, u, InAny(w, 0, Hint));
    LeadsStep(s, u, Start(WaitFor(w)), s1);
    AnyStep(s1, u);
    sched := [Move(u, Start(WaitFor(w)))];
    if r.kind.MutexKind? {
      var s2 := MoveTo(s, u, InAny(w, 0, HintCount));
      LeadsStep(s1, u, Go, s2);
      LeadsThen(s, sched, s1, [Move(u, Go)], s2);
      AnyStep(s2, u);
      LeadsStep(s2, u, Go, MoveTo(s, u, InAny(w, 0, TryRead)));
      LeadsThen(s, sched + [Move(u, Go)], s2, [Move(u, Go)], MoveTo(s, u, InAny(w, 0, TryRead)));
      sched := sched + [Move(u, Go)] + [Move(u, Go)];
    } else {
      LeadsStep(s1, u, Go, MoveTo(s, u, InAny(w, 0, TryRead)));
      LeadsThen(s, sched, s1, [Move(u, Go)], MoveTo(s, u, InAny(w, 0, TryRead)));
      sched := sched + [Move(u, Go)];
    }
  }

  /** A wait on one object records its grab and returns. */
  lemma {:induction false} RecordsGrab(s: State, u: nat, r: Ref) returns (sched: seq<Move>, s': State)
    requires Wf(s) && u < |s.threads| && s.threads[u].Updating? && s.threads[u].w == Wait([r], false, false)
    requires r.o < |s.objs|
    ensures Alone(sched, u) && Leads(s, sched, s') && s'.threads[u].Idle?
    ensures |s'.threads| == |s.threads| && forall v :: 0 <= v < |s.threads| && v != u ==> s'.threads[v] == s.threads[v]
    ensures Restored(s.objs, s'.objs, r.o, u)
    decreases UpdRank(s.threads[u].upd)
  {
    assert WfPc(s.threads[u], KindsOf(s.objs));
    UpdateStep(s, u);
    var s1 := Step(s, u, Go).state;
    assert s1.objs == s.objs[r.o := s1.objs[r.o]];
    assert Restored(s.objs, s1.objs, r.o, u);
    if s1.threads[u].Idle? {
      LeadsStep(s, u, Go, s1);
      sched, s' := [Move(u, Go)], s1;
    } else {
      var rest;
      rest, s' := RecordsGrab(s1, u, r);
      GoOn(s, u, rest);
      sched := [Move(u, Go)] + rest;
    }
  }

  /** Only the record of o differs; a mutex has at most a new owner u. */
  ghost predicate Restored(a: seq<Object>, b: seq<Object>, o: nat, u: nat) {
    && o < |a| == |b| && b == a[o := b[o]] && KindOf(b[o]) == KindOf(a[o]) && b[o].fd == a[o].fd
    && (a[o].Mutex? && b[o].Mutex? ==> b[o].tid == a[o].tid || b[o].tid == Thread(u))
  }

  /** Thread u takes a signaled object by a wait on it alone. */
  lemma {:induction false} Steal(s: State, u: nat, r: Ref, main: Wait) returns (sched: seq<Move>, s': State)
    requires Wf(s) && u < |s.threads| && s.threads[u].Idle?
    requires r.o < |s.objs| && s.objs[r.o] == FullObject(r.kind) && Consumable(r.kind)
    ensures Plays(sched, main) && Leads(s, sched, s') && Wf(s') && s'.threads[u].Idle?
    ensures |s'.threads| == |s.threads| && forall v :: 0 <= v < |s.threads| && v != u ==> s'.threads[v] == s.threads[v]
    ensures Restored(s.objs[r.o := AfterRead(s.objs[r.o])], s'.objs, r.o, u)
  {
    var w := Wait([r], false, false);
    var reach := ReachRead(s, u, r, main);
    var s1 := MoveTo(s, u, InAny(w, 0, TryRead));
    assert Wf(s1);
    AnyStep(s1, u);
    var s2 := Put(s, u, Updating(w, 0, 1, false, UpdFirst), r.o, AfterRead(s.objs[r.o]));
    LeadsStep(s1, u, Go, s2);
    LeadsThen(s, reach, s1, [Move(u, Go)], s2);
    var rest;
    rest, s' := RecordsGrab(s2, u, r);
    LeadsThen(s, reach + [Move(u, Go)], s2, rest, s');
    sched := reach + [Move(u, Go)] + rest;
  }

  /** Thread u begins to reset an event and comes to its eventfd. */
  lemma {:induction false} ResetBegins(s: State, u: nat, e: nat, main: Wait) returns (sched: seq<Move>, s': State)
    requires Wf(s) && u < |s.threads| && s.threads[u].Idle?
    requires e < |s.objs| && s.objs[e].Event? && s.objs[e].signaled && !s.objs[e].locked
    ensures Plays(sched, main) && Leads(s, sched, s') && Wf(s')
    ensures var m := s.objs[e].manual;
            s' == Put(s, u, Changing(e, EventOp(false, false), m, EvFd), e, Event(s.objs[e].fd, m, false, m))
  {
    var op, m, fd := EventOp(false, false), s.objs[e].manual, s.objs[e].fd;
    var go := [Move(u, Go)];
    sched := [Move(u, Start(ChangeEvent(e, op)))];
    var s1 := MoveTo(s, u, Changing(e, op, m, if m then EvLock else EvSwap));
    LeadsStep(s, u, Start(ChangeEvent(e, op)), s1);
    var s2 := s1;
    if m {
      s2 := Put(s, u, Changing(e, op, true, EvSwap), e, Event(fd, true, true, true));
      ChangeStep(s1, u);
      LeadsStep(s1, u, Go, s2);
      LeadsThen(s, sched, s1, go, s2);
      sched := sched + go;
    }
    s' := Put(s, u, Changing(e, op, m, EvFd), e, Event(fd, m, false, m));
    ChangeStep(s2, u);
    LeadsStep(s2, u, Go, s');
    LeadsThen(s, sched, s2, go, s');
    sched := sched + go;
  }

  /** It empties the eventfd and returns. */
  lemma {:induction false} ResetEnds(s: State, u: nat, e: nat)
    returns (rest: seq<Move>, pc: Pc, obj: Object, s': State)
    requires Wf(s) && u < |s.threads| && e < |s.objs| && s.objs[e].Event? && s.objs[e].locked == s.objs[e].manual
    requires s.threads[u] == Changing(e, EventOp(false, false), s.objs[e].manual, EvFd)
    ensures Step(s, u, Go).act == ClearFd(e) && Step(s, u, Go).state == Put(s, u, pc, e, obj) && Harmless(pc)
    ensures Alone(rest, u) && Leads(Step(s, u, Go).state, rest, s') && Wf(s')
    ensures s' == Put(s, u, Idle(Returned(ChangeEvent(e, EventOp(false, false)), Success)), e,
                      Event(0, s.objs[e].manual, s.objs[e].signaled, false))
  {
    ChangeStep(s, u);
    s', rest := Step(s, u, Go).state, [];
    pc, obj := s'.threads[u], s'.objs[e];
    if s.objs[e].manual {
      ChangeStep(s', u);
      LeadsStep(s', u, Go, Step(s', u, Go).state);
      s', rest := Step(s', u, Go).state, [Move(u, Go)];
    }
  }

  lemma {:induction false} PlaysThen(a: seq<Move>, b: seq<Move>, w: Wait)
    requires Plays(a, w) && Plays(b, w)
    ensures Plays(a + b, w)
  {
  }

  /** With position k unreadable and what comes before readable, the grab loop fails at k and
      puts everything before it back. */
  lemma {:induction false} FailAt(s: State, t: nat, w: Wait, k: nat) returns (sched: seq<Move>)
    requires Wf(s) && t < |s.threads| && w.TakesAll() && k < |w.refs| && Consumable(w.refs[k].kind)
    requires s.threads[t] == GrabNext(w, k) && NoneOwned(s, t, w.refs) && s.objs[w.refs[k].o].fd == 0
    ensures Alone(sched, t) && Schedules(sched, |s.threads|)
    ensures var s' := Exec(s, sched).state;
            && s'.threads == s.threads[t := AllNext(w, 0)] && SameRecords(s.objs, s'.objs)
            && forall x :: 0 <= x < |s.objs| ==> s'.objs[x].fd == s.objs[x].fd + Occ(w.refs[..k], x)
  {
    if w.refs[k].kind.MutexKind? {
      AllStep(s, t);
      var s1 := Step(s, t, Go).state;
      assert s1 == MoveTo(s, t, InAll(w, k, GrabRead));
      var back := FailRead(s1, t, w, k);
      GoOn(s, t, back);
      sched := [Move(t, Go)] + back;
    } else {
      sched := FailRead(s, t, w, k);
    }
  }

  lemma {:induction false} FailRead(s: State, t: nat, w: Wait, k: nat) returns (sched: seq<Move>)
    requires Wf(s) && t < |s.threads| && w.TakesAll() && k < |w.refs|
    requires s.threads[t] == InAll(w, k, GrabRead) && NoneOwned(s, t, w.refs) && s.objs[w.refs[k].o].fd == 0
    ensures Alone(sched, t) && Schedules(sched, |s.threads|)
    ensures var s' := Exec(s, sched).state;
            && s'.threads == s.threads[t := AllNext(w, 0)] && SameRecords(s.objs, s'.objs)
            && forall x :: 0 <= x < |s.objs| ==> s'.objs[x].fd == s.objs[x].fd + Occ(w.refs[..k], x)
  {
    AllStep(s, t);
    var s1 := Step(s, t, Go).state;
    assert s1 == MoveTo(s, t, BackNext(w, k));
    var back := BackPhase(s1, t, w, k);
    GoOn(s, t, back);
    sched := [Move(t, Go)] + back;
  }

  lemma {:induction false} OccAt(refs: seq<Ref>, j: nat)
    requires j < |refs|
    ensures Occ(refs, refs[j].o) >= 1
  {
    if j < |refs| - 1 {
      OccAt(refs[..|refs| - 1], j);
    }
  }

  /** A wait-all one of whose objects is not readable times out, leaving everything as it is. */
  lemma {:induction false} TimesOut(s: State, t: nat, w: Wait, i: nat, m: nat) returns (sched: seq<Move>)
    requires Wf(s) && t < |s.threads| && w.TakesAll() && i <= m < |w.refs| && s.threads[t] == AllNext(w, i)
    requires NoneOwned(s, t, w.refs) && s.objs[w.refs[m].o].fd == 0
    ensures StartsNone(sched) && Leads(s, sched, MoveTo(s, t, Return(w, TimedOut)))
    decreases m - i, 1
  {
    var s1 := s;
    if w.refs[i].kind.MutexKind? {
      AllStep(s, t);
      s1 := MoveTo(s, t, InAll(w, i, AllPoll));
      LeadsStep(s, t, Go, s1);
    }
    var rest := PollTimesOut(s1, t, w, i, m);
    sched := rest;
    if w.refs[i].kind.MutexKind? {
      LeadsThen(s, [Move(t, Go)], s1, rest, MoveTo(s, t, Return(w, TimedOut)));
      sched := [Move(t, Go)] + rest;
    }
  }

  lemma {:induction false} PollTimesOut(s: State, t: nat, w: Wait, i: nat, m: nat) returns (sched: seq<Move>)
    requires Wf(s) && t < |s.threads| && w.TakesAll() && i <= m < |w.refs| && s.threads[t] == InAll(w, i, AllPoll)
    requires NoneOwned(s, t, w.refs) && s.objs[w.refs[m].o].fd == 0
    ensures StartsNone(sched) && Leads(s, sched, MoveTo(s, t, Return(w, TimedOut)))
    decreases m - i, 0
  {
    assert WfPc(s.threads[t], KindsOf(s.objs));
    if s.objs[w.refs[i].o].fd == 0 {
      LeadsStep(s, t, Timeout, MoveTo(s, t, Return(w, TimedOut)));
      sched := [Move(t, Timeout)];
    } else {
      AllStep(s, t);
      var s1 := MoveTo(s, t, AllNext(w, i + 1));
      LeadsStep(s, t, Go, s1);
      var rest := TimesOut(s1, t, w, i + 1, m);
      LeadsThen(s, [Move(t, Go)], s1, rest, MoveTo(s, t, Return(w, TimedOut)));
      sched := [Move(t, Go)] + rest;
    }
  }

  predicate StartsNone(sched: seq<Move>) {
    forall i :: 0 <= i < |sched| ==> !sched[i].c.Start?
  }

  /** No set, reset or pulse is in progress, or it has only its lock to give up. */
  predicate Harmless(pc: Pc) {
    !pc.Pulsing? && (pc.Changing? ==> pc.ev.EvUnlock?)
  }

  predicate NoSetters(s: State) { forall t :: 0 <= t < |s.threads| ==> Harmless(s.threads[t]) }

  lemma {:induction false} NoSetterStep(s: State, t: nat, c: Choice, x: nat)
    requires Wf(s) && t < |s.threads| && NoSetters(s) && !c.Start?
    ensures NoSetters(Step(s, t, c).state) && Step(s, t, c).act != SetFd(x)
  {
    var pc := s.threads[t];
    assert WfPc(pc, KindsOf(s.objs));
    if Focused(pc) {
      NoSetterTouch(pc, s.objs[Focus(pc)], t, c, |s.objs|, x);
    }
  }

  lemma {:induction false} NoSetterTouch(pc: Pc, obj: Object, t: nat, c: Choice, objects: nat, x: nat)
    requires CanTouch(pc, obj) && Harmless(pc)
    ensures var r := Touch(pc, obj, t, c, objects); Harmless(r.pc) && r.act != SetFd(x)
  {
    match pc {
      case InAll(w, i, _) => AllNoSetter(pc, obj, t, c);
      case Updating(w, k, n, ab, _) => UpdNextPlace(w, k + 1, n, ab);
      case _ =>
    }
  }

  lemma {:induction false} AllNoSetter(pc: Pc, obj: Object, t: nat, c: Choice)
    requires CanTouch(pc, obj) && pc.InAll?
    ensures var r := TouchAll(pc, obj, t, c);
            Harmless(r.pc) && !r.act.SetFd?
  {
    GrabNextPlace(pc.w, 0);
    GrabNextPlace(pc.w, pc.i + 1);
  }

  lemma {:induction false} GrabNextPlace(w: Wait, i: nat)
    requires |w.refs| > 0
    ensures var pc := GrabNext(w, i); pc.Idle? || pc.Updating? || pc.InAll?
    decreases |w.refs| - i
  {
    if i >= |w.refs| {
      UpdNextPlace(w, 0, |w.refs|, false);
    } else if !Consumable(w.refs[i].kind) {
      GrabNextPlace(w, i + 1);
    }
  }

  lemma {:induction false} ActsLast(s: State, sched: seq<Move>)
    requires Wf(s) && Schedules(sched, |s.threads|) && sched != []
    ensures var n := |sched| - 1;
            var before := Exec(s, sched[..n]);
            var next := Step(before.state, sched[n].t, sched[n].c);
            && Exec(s, sched).state == next.state && Exec(s, sched).acts[|sched| - 1] == next.act
            && Exec(s, sched).acts[..n] == before.acts
  {
  }

  /** The run leaves the event reset, for its specification, and nobody about to set it. */
  ghost predicate LeavesReset(s: State, sched: seq<Move>, x: nat, on: bool) {
    && Wf(s) && Schedules(sched, |s.threads|)
    && NoSetters(Exec(s, sched).state) && !EventExec(on, Exec(s, sched).acts, x)
  }

  lemma {:induction false} StaysResetOne(s: State, sched: seq<Move>, m: Move, x: nat, on: bool)
    requires LeavesReset(s, sched, x, on) && m.t < |s.threads| && !m.c.Start?
    ensures LeavesReset(s, sched + [m], x, on)
  {
    assert (sched + [m])[..|sched|] == sched;
    ActsLast(s, sched + [m]);
    NoSetterStep(Exec(s, sched).state, m.t, m.c, x);
  }

  /** An event that is reset stays so while nobody sets it. */
  lemma {:induction false} StaysReset(s: State, sched: seq<Move>, n: nat, x: nat, on: bool)
    requires n <= |sched| && Schedules(sched, |s.threads|) && LeavesReset(s, sched[..n], x, on)
    requires forall i :: n <= i < |sched| ==> !sched[i].c.Start?
    ensures LeavesReset(s, sched, x, on)
    decreases |sched| - n
  {
    if n == |sched| {
      assert sched[..n] == sched;
    } else {
      StaysResetOne(s, sched[..n], sched[n], x, on);
      assert sched[..n] + [sched[n]] == sched[..n + 1];
      StaysReset(s, sched, n + 1, x, on);
    }
  }

  /** From the start, with every object signaled, to the grab loop of w. */
  lemma {:induction false} ReachLoop(w: Wait, kinds: seq<Kind>) returns (sched: seq<Move>, s: State)
    requires w.TakesAll() && RefsOk(w.refs, kinds)
    ensures Plays(sched, w) && Leads(FullState(kinds), sched, s)
    ensures s == MoveTo(FullState(kinds), 0, GrabNext(w, 0)) && Wf(s)
  {
    var full := FullState(kinds);
    InitInv(full, {});
    var call := [Move(0, Start(WaitFor(w)))];
    var s1 := MoveTo(full, 0, AllNext(w, 0));
    LeadsStep(full, 0, Start(WaitFor(w)), s1);
    var reach := ReachGrab(s1, 0, w);
    s := MoveTo(s1, 0, GrabNext(w, 0));
    LeadsThen(full, call, s1, reach, s);
    sched := call + reach;
    assert s == MoveTo(full, 0, GrabNext(w, 0));
  }

  lemma {:induction false} OccNone(refs: seq<Ref>, x: nat)
    requires !Names(refs, x)
    ensures Occ(refs, x) == 0
  {
    if refs != [] {
      var n := |refs| - 1;
      assert refs[n].o != x;
      assert forall j :: 0 <= j < n ==> refs[..n][j] == refs[j];
      OccNone(refs[..n], x);
    }
  }

  /** Thread 0 has read all that comes before position k of its list, and somebody has taken the
      object at k; event x, signaled, is at position j. */
  ghost predicate Doomed(s: State, w: Wait, j: nat, k: nat) {
    && Wf(s) && |s.threads| == 3 && w.TakesAll() && j < k < |w.refs| && Distinct(w.refs)
    && Consumable(w.refs[k].kind) && s.threads[0] == GrabNext(w, k) && s.threads[1].Idle? && s.threads[2].Idle?
    && NoneOwned(s, 0, w.refs) && s.objs[w.refs[k].o].fd == 0
    && var obj := s.objs[w.refs[j].o]; obj.Event? && !obj.locked
  }

  lemma {:induction false} Robbed(s: State, s1: State, w: Wait, kinds: seq<Kind>, k: nat)
    requires RefsOk(w.refs, kinds) && Distinct(w.refs) && k < |w.refs|
    requires |s.objs| == |kinds| && forall x :: 0 <= x < |kinds| ==> s.objs[x] == FullObject(kinds[x])
    requires s.objs[w.refs[k].o].fd > 0
    requires Restored(s.objs[w.refs[k].o := AfterRead(s.objs[w.refs[k].o])], s1.objs, w.refs[k].o, 1)
    ensures KindsOf(s1.objs) == kinds && NoneOwned(s1, 0, w.refs)
    ensures Consumable(w.refs[k].kind) ==> s1.objs[w.refs[k].o].fd == 0
    ensures forall j :: 0 <= j < |w.refs| && j != k ==> s1.objs[w.refs[j].o] == FullObject(w.refs[j].kind)
  {
  }

  lemma {:induction false} BecomesDoomed(s: State, s': State, w: Wait, kinds: seq<Kind>, j: nat, k: nat)
    requires Wf(s) && Wf(s') && |s.threads| == 3 && s.threads[1].Idle? && s.threads[2].Idle?
    requires w.TakesAll() && j < k < |w.refs| && Distinct(w.refs) && Consumable(w.refs[k].kind)
    requires NoneOwned(s, 0, w.refs) && s.objs[w.refs[k].o].fd == 0
    requires s.objs[w.refs[j].o] == FullObject(w.refs[j].kind)
    requires w.refs[j].kind.AutoKind? || w.refs[j].kind.ManualKind?
    requires Moved(s, s', 0, GrabNext(w, k), w.refs[0..k])
    ensures Doomed(s', w, j, k) && s'.objs[w.refs[j].o].signaled
  {
    SameRecordsNoneOwned(s, s', 0, w.refs);
    assert !Names(w.refs[0..k], w.refs[k].o);
  }

  lemma {:induction false} GrabsRest(s: State, s1: State, w: Wait, kinds: seq<Kind>, j: nat, k: nat)
    returns (grab: seq<Move>, s': State)
    requires w.TakesAll() && RefsOk(w.refs, kinds) && Distinct(w.refs) && j < k < |w.refs|
    requires Consumable(w.refs[k].kind) && (kinds[w.refs[j].o].AutoKind? || kinds[w.refs[j].o].ManualKind?)
    requires |s.objs| == |kinds| && forall x :: 0 <= x < |kinds| ==> s.objs[x] == FullObject(kinds[x])
    requires s.objs[w.refs[k].o].fd > 0
    requires Restored(s.objs[w.refs[k].o := AfterRead(s.objs[w.refs[k].o])], s1.objs, w.refs[k].o, 1)
    requires Wf(s1) && |s1.threads| == 3 && s1.threads[0] == GrabNext(w, 0)
    requires s1.threads[1].Idle? && s1.threads[2].Idle?
    ensures Alone(grab, 0) && Leads(s1, grab, s') && Doomed(s', w, j, k) && s'.objs[w.refs[j].o].signaled
  {
    Robbed(s, s1, w, kinds, k);
    grab := GrabPhase(s1, 0, w, 0, k);
    s' := Exec(s1, grab).state;
    BecomesDoomed(s1, s', w, kinds, j, k);
  }

  lemma {:induction false} ReachDoomed(w: Wait, kinds: seq<Kind>, j: nat, k: nat)
    returns (s: State, sched: seq<Move>, s': State)
    requires w.TakesAll() && RefsOk(w.refs, kinds) && Distinct(w.refs) && j < k < |w.refs|
    requires Consumable(w.refs[k].kind) && (kinds[w.refs[j].o].AutoKind? || kinds[w.refs[j].o].ManualKind?)
    ensures Init(s) && KindsOf(s.objs) == kinds && |s.threads| == 3
    ensures Plays(sched, w) && Leads(s, sched, s') && Doomed(s', w, j, k) && s'.objs[w.refs[j].o].signaled
  {
    s := FullState(kinds);
    var reach, s1 := ReachLoop(w, kinds);
    var steal, s2 := Steal(s1, 1, w.refs[k], w);
    LeadsThen(s, reach, s1, steal, s2);
    var grab;
    grab, s' := GrabsRest(s1, s2, w, kinds, j, k);
    LeadsThen(s, reach + steal, s2, grab, s');
    sched := reach + steal + grab;
  }

  /** Thread 0 fails and writes x back. */
  lemma {:induction false} Fails(s: State, w: Wait, j: nat, k: nat) returns (fail: seq<Move>, s': State)
    requires Doomed(s, w, j, k)
    ensures Alone(fail, 0) && Leads(s, fail, s') && Wf(s') && s'.threads == s.threads[0 := AllNext(w, 0)]
    ensures NoneOwned(s', 0, w.refs) && |s'.objs| == |s.objs|
    ensures s'.objs[w.refs[k].o].fd == 0 < s'.objs[w.refs[j].o].fd
  {
    fail := FailAt(s, 0, w, k);
    s' := Exec(s, fail).state;
    OccAt(w.refs[..k], j);
    OccNone(w.refs[..k], w.refs[k].o);
    SameRecordsNoneOwned(s, s', 0, w.refs);
  }

  /** Then it times out. */
  lemma {:induction false} GivesUp(s: State, w: Wait, k: nat) returns (leave: seq<Move>, s': State)
    requires Wf(s) && |s.threads| == 3 && s.threads[1].Idle? && s.threads[2].Idle?
    requires w.TakesAll() && k < |w.refs| && s.threads[0] == AllNext(w, 0)
    requires NoneOwned(s, 0, w.refs) && s.objs[w.refs[k].o].fd == 0
    ensures StartsNone(leave) && Leads(s, leave, s') && AllIdle(s') && s'.objs == s.objs
  {
    leave := TimesOut(s, 0, w, 0, k);
    s' := MoveTo(s, 0, Return(w, TimedOut));
  }

  lemma {:induction false} FailsAndLeaves(s: State, w: Wait, j: nat, k: nat) returns (sched: seq<Move>, s': State)
    requires Doomed(s, w, j, k)
    ensures StartsNone(sched) && Leads(s, sched, s') && AllIdle(s')
    ensures |s'.objs| == |s.objs| && s'.objs[w.refs[j].o].fd > 0
  {
    var fail, s1 := Fails(s, w, j, k);
    var leave;
    leave, s' := GivesUp(s1, w, k);
    LeadsThen(s, fail, s1, leave, s');
    sched := fail + leave;
  }

  lemma {:induction false} LeavesLater(s: State, s1: State, w: Wait, j: nat, k: nat, pc: Pc, obj: Object)
    returns (leave: seq<Move>, s': State)
    requires Doomed(s, w, j, k) && Wf(s1) && pc.Idle? && obj.Event? && !obj.locked
    requires s1 == Put(s, 2, pc, w.refs[j].o, obj) && KindOf(obj) == KindOf(s.objs[w.refs[j].o])
    ensures StartsNone(leave) && Leads(s1, leave, s') && AllIdle(s')
    ensures |s'.objs| == |s.objs| && s'.objs[w.refs[j].o].fd > 0
  {
    assert KindsOf(s1.objs) == KindsOf(s.objs);
    leave, s' := FailsAndLeaves(s1, w, j, k);
  }

  lemma {:induction false} ClearingHarmless(s: State, w: Wait, j: nat, k: nat, pc: Pc, obj: Object)
    requires Doomed(s, w, j, k) && Harmless(pc)
    ensures NoSetters(Put(s, 2, pc, w.refs[j].o, obj))
  {
    GrabNextPlace(w, k);
  }

  /** Between, thread 2 resets x. */
  lemma {:induction false} ResetBetween(s: State, w: Wait, j: nat, k: nat)
    returns (before: seq<Move>, s1: State, unlock: seq<Move>, pc: Pc, obj: Object, s': State)
    requires Doomed(s, w, j, k) && s.objs[w.refs[j].o].signaled
    ensures Plays(before, w) && Leads(s, before, s1) && Wf(s1) && |s1.threads| == 3
    ensures Step(s1, 2, Go).act == ClearFd(w.refs[j].o) && NoSetters(Step(s1, 2, Go).state)
    ensures StartsNone(unlock) && Leads(Step(s1, 2, Go).state, unlock, s') && Wf(s')
    ensures pc.Idle? && obj.Event? && !obj.locked && KindOf(obj) == KindOf(s.objs[w.refs[j].o])
    ensures s' == Put(s, 2, pc, w.refs[j].o, obj)
  {
    var x := w.refs[j].o;
    before, s1 := ResetBegins(s, 2, x, w);
    unlock, pc, obj, s' := ResetEnds(s1, 2, x);
    ClearingHarmless(s, w, j, k, pc, obj);
    pc, obj := Idle(Returned(ChangeEvent(x, EventOp(false, false)), Success)), Event(0, s.objs[x].manual, false, false);
  }

  lemma {:induction false} ResetUndone(s: State, w: Wait, j: nat, k: nat)
    returns (before: seq<Move>, s1: State, after: seq<Move>, s': State)
    requires Doomed(s, w, j, k) && s.objs[w.refs[j].o].signaled
    ensures Plays(before, w) && Leads(s, before, s1) && Wf(s1) && |s1.threads| == 3
    ensures Step(s1, 2, Go).act == ClearFd(w.refs[j].o) && NoSetters(Step(s1, 2, Go).state)
    ensures StartsNone(after) && Leads(Step(s1, 2, Go).state, after, s')
    ensures AllIdle(s') && |s'.objs| == |s.objs| && s'.objs[w.refs[j].o].fd > 0
  {
    var unlock, pc, obj, s2, leave;
    before, s1, unlock, pc, obj, s2 := ResetBetween(s, w, j, k);
    leave, s' := LeavesLater(s, s2, w, j, k, pc, obj);
    LeadsThen(Step(s1, 2, Go).state, unlock, s2, leave, s');
    after := unlock + leave;
  }

  lemma {:induction false} LosesReset(w: Wait, kinds: seq<Kind>, j: nat, k: nat)
    requires w.TakesAll() && RefsOk(w.refs, kinds) && Distinct(w.refs) && j < k < |w.refs|
    requires Consumable(w.refs[k].kind) && (kinds[w.refs[j].o].AutoKind? || kinds[w.refs[j].o].ManualKind?)
    ensures CanLoseReset(w, kinds, w.refs[j].o)
  {
    var s, reach, s1 := ReachDoomed(w, kinds, j, k);
    DoomedLoses(s, reach, s1, w, j, k);
  }

  lemma {:induction false} DoomedLoses(s: State, reach: seq<Move>, s1: State, w: Wait, j: nat, k: nat)
    requires Init(s) && |s.threads| == 3 && Plays(reach, w) && Leads(s, reach, s1) && |s1.objs| == |s.objs|
    requires Doomed(s1, w, j, k) && s1.objs[w.refs[j].o].signaled
    ensures CanLoseReset(w, KindsOf(s.objs), w.refs[j].o)
  {
    var before, s2, after, s' := ResetUndone(s1, w, j, k);
    LeadsThen(s, reach, s1, before, s2);
    PlaysThen(reach, before, w);
    Concludes(s, w, reach + before, s2, after, s', w.refs[j].o);
  }

  lemma {:induction false} Concludes(s: State, w: Wait, begin: seq<Move>, s1: State, after: seq<Move>,
                                     s': State, x: nat)
    requires Init(s) && Leads(s, begin, s1) && |s1.threads| == 3 == |s.threads| && Wf(s1) && Plays(begin, w)
    requires Step(s1, 2, Go).act == ClearFd(x) && NoSetters(Step(s1, 2, Go).state)
    requires StartsNone(after) && Leads(Step(s1, 2, Go).state, after, s')
    requires AllIdle(s') && x < |s'.objs| == |s.objs| && s'.objs[x].fd > 0
    ensures LosingRun(s, begin + [Move(2, Go)] + after, w, KindsOf(s.objs), x)
  {
    var a := begin + [Move(2, Go)];
    ClearsLast(s, begin, s1, x, s.objs[x].fd > 0);
    LeadsThen(s, a, Step(s1, 2, Go).state, after, s');
    assert (a + after)[..|a|] == a;
    StaysReset(s, a + after, |a|, x, s.objs[x].fd > 0);
  }

  lemma {:induction false} ClearsLast(s: State, begin: seq<Move>, s1: State, x: nat, on: bool)
    requires Wf(s) && Leads(s, begin, s1) && |s1.threads| == 3 == |s.threads| && Wf(s1)
    requires Step(s1, 2, Go).act == ClearFd(x) && NoSetters(Step(s1, 2, Go).state)
    ensures LeavesReset(s, begin + [Move(2, Go)], x, on)
    ensures Leads(s, begin + [Move(2, Go)], Step(s1, 2, Go).state)
  {
    var a := begin + [Move(2, Go)];
    assert a[..|a| - 1] == begin;
    ActsLast(s, a);
  }

  /** Whether a wait-all can make an event, auto-reset or manual-reset, forget that it was reset or
      taken: exactly if something is read after the event in its list. */
  lemma {:induction false} ResetLostExactly(w: Wait, kinds: seq<Kind>, x: nat)
    requires w.TakesAll() && RefsOk(w.refs, kinds) && Distinct(w.refs)
    requires x < |kinds| && (kinds[x].AutoKind? || kinds[x].ManualKind?)
    ensures CanLoseReset(w, kinds, x) <==> !LastRead(w.refs, x)
  {
    if !LastRead(w.refs, x) {
      var j, k :| 0 <= j < k < |w.refs| && w.refs[j].o == x && Consumable(w.refs[k].kind);
      LosesReset(w, kinds, j, k);
    } else if CanLoseReset(w, kinds, x) {
      var s, sched :| LosingRun(s, sched, w, kinds, x);
      assert KindOf(s.objs[x]) == kinds[x];
      EventIsABoolean(s, sched, x);
    }
  }
}
