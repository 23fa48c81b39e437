/** Where the code does less than its interface promises: for each such case the exact
    condition under which it does meet it. */
module EsyncLimits {
  import opened EsyncModel
  import opened EsyncInvariants
  import opened EsyncSteps
  import opened EsyncRuns
  import opened EsyncGuarantees
  import opened EsyncEvents
  import opened EsyncSolo

  // ----- A wait-all on objects that are all available -----

  /** The state after thread t has called for w. */
  function Called(s: State, t: nat, w: Wait): State
    requires t < |s.threads|
  {
    MoveTo(s, t, AllNext(w, 0))
  }

  lemma {:induction false} CalledIsAStep(s: State, t: nat, w: Wait, wild: set<nat>)
    requires Inv(s, wild) && t < |s.threads| && s.threads[t].Idle?
    requires w.TakesAll() && RefsOk(w.refs, KindsOf(s.objs))
    ensures Called(s, t, w) == Step(s, t, Start(WaitFor(w))).state && Inv(Called(s, t, w), wild)
  {
    StepKeepsInv(s, t, Start(WaitFor(w)), wild);
  }

  ghost predicate GrantingRun(s: State, sched: seq<Move>, t: nat, w: Wait) {
    && Wf(s) && t < |s.threads| && Schedules(sched, |s.threads|)
    && StartsNothing(sched, t) && Granted(Exec(s, sched).state.threads[t], w)
  }

  ghost predicate CanBeGranted(s: State, t: nat, w: Wait) {
    exists sched :: GrantingRun(s, sched, t, w)
  }

  /** Signaled, or a mutex of the caller's own. */
  ghost predicate Available(s: State, t: nat, refs: seq<Ref>) {
    && RefsOk(refs, KindsOf(s.objs))
    && forall i :: 0 <= i < |refs| ==>
         s.objs[refs[i].o].fd > 0 || (s.objs[refs[i].o].Mutex? && s.objs[refs[i].o].tid == Thread(t))
  }

  /** Undisturbed, a wait-all on readable objects gets to its grab loop. */
  lemma {:induction false} ReachGrab(s: State, t: nat, w: Wait) returns (sched: seq<Move>)
    requires Wf(s) && t < |s.threads| && w.TakesAll() && s.threads[t] == AllNext(w, 0)
    requires NoneOwned(s, t, w.refs) && Readable(s, w.refs)
    ensures Alone(sched, t) && Leads(s, sched, MoveTo(s, t, GrabNext(w, 0)))
  {
    var poll := PollPhase(s, t, w, 0);
    var s1 := MoveTo(s, t, InAll(w, 0, Check(true)));
    assert Leads(s, poll, s1);
    var check := CheckPhase(s1, t, w, 0);
    LeadsThen(s, poll, s1, check, MoveTo(s1, t, GrabNext(w, 0)));
    assert MoveTo(s1, t, GrabNext(w, 0)) == MoveTo(s, t, GrabNext(w, 0));
    sched := poll + check;
  }

  lemma {:induction false} FinishGrab(s: State, t: nat, w: Wait) returns (sched: seq<Move>)
    requires Wf(s) && t < |s.threads| && w.TakesAll() && s.threads[t] == GrabNext(w, 0)
    requires NoneOwned(s, t, w.refs) && Readable(s, w.refs) && Distinct(w.refs)
    ensures Alone(sched, t) && Schedules(sched, |s.threads|)
    ensures Granted(Exec(s, sched).state.threads[t], w)
  {
    var grab := GrabPhase(s, t, w, 0, |w.refs|);
    var s1 := Exec(s, grab).state;
    UpdNextGoesOn(w, 0, |w.refs|, false);
    var update := UpdatePhase(s1, t, w);
    LeadsThen(s, grab, s1, update, Exec(s1, update).state);
    sched := grab + update;
  }

  lemma {:induction false} GrantedAlone(s: State, t: nat, w: Wait)
    requires Wf(s) && t < |s.threads| && w.TakesAll() && s.threads[t] == AllNext(w, 0)
    requires NoneOwned(s, t, w.refs) && Readable(s, w.refs) && Distinct(w.refs)
    ensures CanBeGranted(s, t, w)
  {
    var reach := ReachGrab(s, t, w);
    var s1 := MoveTo(s, t, GrabNext(w, 0));
    var finish := FinishGrab(s1, t, w);
    LeadsThen(s, reach, s1, finish, Exec(s1, finish).state);
    assert GrantingRun(s, reach + finish, t, w);
  }

  /** Of wait-alls on objects that are all available to the caller, those can succeed whose
      list contains no mutex the caller already owns, and no others. */
  lemma {:induction false} GrantedExactlyIfNoneOwned(s: State, t: nat, w: Wait, wild: set<nat>)
    requires Inv(s, wild) && t < |s.threads| && s.threads[t].Idle?
    requires w.TakesAll() && Distinct(w.refs) && Available(s, t, w.refs)
    ensures CanBeGranted(Called(s, t, w), t, w) <==> NoneOwned(s, t, w.refs)
  {
    CalledIsAStep(s, t, w, wild);
    var s1 := Called(s, t, w);
    if NoneOwned(s, t, w.refs) {
      GrantedAlone(s1, t, w);
    } else {
      var m :| 0 <= m < |w.refs| && w.refs[m].kind.MutexKind? && s.objs[w.refs[m].o].tid == Thread(t);
      assert KindOf(s.objs[w.refs[m].o]) == MutexKind;
      InvShrinks(s1, wild, w.refs[m].o);
      forall sched ensures !GrantingRun(s1, sched, t, w) {
        if GrantingRun(s1, sched, t, w) {
          OwnedMutexNeverGranted(s1, sched, t, w, m);
        }
      }
    }
  }

  // ----- Releasing a semaphore by a count near 2^32 -----

  /** The sum of count and current count wraps round to something within the limit. */
  predicate WrapsWithin(n: nat, count: int, max: nat) {
    ULONG_RANGE <= n + count <= ULONG_RANGE + max
  }

  function ReleaseMoves(t: nat, x: nat, n: nat): seq<Move> {
    [Move(t, Start(ReleaseSemaphore(x, n)))] + [Move(t, Go)] + [Move(t, Go)] + [Move(t, Go)]
  }

  /** The semaphore after an undisturbed release. */
  function ReleasedAlone(obj: Object, n: nat): Object
    requires obj.Semaphore?
  {
    if ToUlong(n + obj.count) > obj.max then obj
    else AfterWrite(obj.(count := ToLong(n + obj.count)), n)
  }

  lemma {:induction false} ReleaseStep(s: State, t: nat)
    requires Wf(s) && t < |s.threads| && s.threads[t].Releasing?
    ensures Focus(s.threads[t]) < |s.objs|
    ensures CanTouch(s.threads[t], s.objs[Focus(s.threads[t])])
    ensures var pc := s.threads[t];
            var r := TouchSemaphore(pc, s.objs[Focus(pc)]);
            Step(s, t, Go).state == Put(s, t, r.pc, Focus(pc), r.obj)
    ensures Wf(Step(s, t, Go).state)
  {
    assert WfPc(s.threads[t], KindsOf(s.objs));
    StepWf(s, t, Go);
  }

  lemma {:induction false} ReleaseLeads(s: State, t: nat) returns (s': State)
    requires Wf(s) && t < |s.threads| && s.threads[t].Releasing?
    ensures Focus(s.threads[t]) < |s.objs|
    ensures CanTouch(s.threads[t], s.objs[Focus(s.threads[t])])
    ensures var pc := s.threads[t];
            var r := TouchSemaphore(pc, s.objs[Focus(pc)]);
            s' == Put(s, t, r.pc, Focus(pc), r.obj)
    ensures Wf(s') && Leads(s, [Move(t, Go)], s')
  {
    ReleaseStep(s, t);
    s' := Step(s, t, Go).state;
    LeadsStep(s, t, Go, s');
  }

  lemma {:induction false} ReleaseGranted(s: State, t: nat, x: nat, n: nat) returns (s2: State, s3: State, s4: State)
    requires Wf(s) && t < |s.threads| && s.threads[t] == Releasing(x, n, SemLoad)
    requires x < |s.objs| && s.objs[x].Semaphore? && 0 <= s.objs[x].count <= INT_MAX
    requires ToUlong(n + s.objs[x].count) <= s.objs[x].max
    ensures Leads(s, [Move(t, Go)], s2) && Leads(s2, [Move(t, Go)], s3) && Leads(s3, [Move(t, Go)], s4)
    ensures s4 == Put(s, t, Idle(Returned(ReleaseSemaphore(x, n), Success)), x, ReleasedAlone(s.objs[x], n))
  {
    s2 := ReleaseLoads(s, t, x, n);
    s3, s4 := ReleaseSwaps(s2, t, x, n);
  }

  lemma {:induction false} ReleaseLoads(s: State, t: nat, x: nat, n: nat) returns (s': State)
    requires Wf(s) && t < |s.threads| && s.threads[t] == Releasing(x, n, SemLoad)
    requires x < |s.objs| && s.objs[x].Semaphore? && 0 <= s.objs[x].count <= INT_MAX
    requires ToUlong(n + s.objs[x].count) <= s.objs[x].max
    ensures Wf(s') && Leads(s, [Move(t, Go)], s')
    ensures s' == Put(s, t, Releasing(x, n, SemCas(s.objs[x].count)), x, s.objs[x])
  {
    SmallUlong(s.objs[x].count);
    s' := ReleaseLeads(s, t);
  }

  lemma {:induction false} ReleaseSwaps(s: State, t: nat, x: nat, n: nat) returns (s1: State, s2: State)
    requires Wf(s) && t < |s.threads| && x < |s.objs| && s.objs[x].Semaphore?
    requires 0 <= s.objs[x].count <= INT_MAX && s.threads[t] == Releasing(x, n, SemCas(s.objs[x].count))
    ensures Leads(s, [Move(t, Go)], s1) && Leads(s1, [Move(t, Go)], s2)
    ensures var obj := s.objs[x].(count := ToLong(n + s.objs[x].count));
            s2 == Put(s, t, Idle(Returned(ReleaseSemaphore(x, n), Success)), x, AfterWrite(obj, n))
  {
    var obj := s.objs[x];
    SmallUlong(obj.count);
    s1 := ReleaseLeads(s, t);
    assert s1 == Put(s, t, Releasing(x, n, SemWrite), x, obj.(count := ToLong(n + obj.count)));
    s2 := ReleaseLeads(s1, t);
  }

  lemma {:induction false} ReleaseRefused(s: State, t: nat, x: nat, n: nat) returns (s2: State)
    requires Wf(s) && t < |s.threads| && s.threads[t] == Releasing(x, n, SemLoad)
    requires x < |s.objs| && s.objs[x].Semaphore? && 0 <= s.objs[x].count <= INT_MAX
    requires ToUlong(n + s.objs[x].count) > s.objs[x].max
    ensures Leads(s, [Move(t, Go)], s2) && Leads(s2, [Move(t, Go)], s2)
    ensures s2 == Put(s, t, Idle(Returned(ReleaseSemaphore(x, n), LimitExceeded)), x, s.objs[x])
  {
    SmallUlong(s.objs[x].count);
    ReleaseStep(s, t);
    s2 := Put(s, t, Idle(Returned(ReleaseSemaphore(x, n), LimitExceeded)), x, s.objs[x]);
    LeadsStep(s, t, Go, s2);
    LeadsStep(s2, t, Go, s2);
  }

  lemma {:induction false} ReleaseAlone(s: State, t: nat, x: nat, n: nat) returns (pc: Pc)
    requires Wf(s) && t < |s.threads| && s.threads[t].Idle?
    requires x < |s.objs| && s.objs[x].Semaphore? && 0 <= s.objs[x].count <= INT_MAX && n < ULONG_RANGE
    ensures pc.Idle? && Leads(s, ReleaseMoves(t, x, n), Put(s, t, pc, x, ReleasedAlone(s.objs[x], n)))
  {
    var s1 := MoveTo(s, t, Releasing(x, n, SemLoad));
    LeadsStep(s, t, Start(ReleaseSemaphore(x, n)), s1);
    var s2, s3, s4;
    pc, s2, s3, s4 := ReleaseGoesOn(s1, t, x, n);
    ThreeMore(s, t, x, n, s1, s2, s3, s4);
    assert s4 == Put(s, t, pc, x, ReleasedAlone(s.objs[x], n));
  }

  lemma {:induction false} ReleaseGoesOn(s: State, t: nat, x: nat, n: nat)
    returns (pc: Pc, s2: State, s3: State, s4: State)
    requires Wf(s) && t < |s.threads| && s.threads[t] == Releasing(x, n, SemLoad)
    requires x < |s.objs| && s.objs[x].Semaphore? && 0 <= s.objs[x].count <= INT_MAX
    ensures Leads(s, [Move(t, Go)], s2) && Leads(s2, [Move(t, Go)], s3) && Leads(s3, [Move(t, Go)], s4)
    ensures pc.Idle? && s4 == Put(s, t, pc, x, ReleasedAlone(s.objs[x], n))
  {
    if ToUlong(n + s.objs[x].count) > s.objs[x].max {
      pc := Idle(Returned(ReleaseSemaphore(x, n), LimitExceeded));
      s2 := ReleaseRefused(s, t, x, n);
      s3, s4 := s2, s2;
    } else {
      pc := Idle(Returned(ReleaseSemaphore(x, n), Success));
      s2, s3, s4 := ReleaseGranted(s, t, x, n);
    }
  }

  lemma {:induction false} ThreeMore(s: State, t: nat, x: nat, n: nat, s1: State, s2: State, s3: State, s4: State)
    requires Leads(s, [Move(t, Start(ReleaseSemaphore(x, n)))], s1)
    requires Leads(s1, [Move(t, Go)], s2) && Leads(s2, [Move(t, Go)], s3) && Leads(s3, [Move(t, Go)], s4)
    ensures Leads(s, ReleaseMoves(t, x, n), s4)
  {
    var a, go := [Move(t, Start(ReleaseSemaphore(x, n)))], [Move(t, Go)];
    LeadsThen(s, a, s1, go, s2);
    LeadsThen(s, a + go, s2, go, s3);
    LeadsThen(s, a + go + go, s3, go, s4);
  }

  /** An undisturbed release keeps the semaphore's account, whether it is granted or refused,
      exactly if its ULONG sum does not wrap round to a value within the limit. */
  lemma {:induction false} ReleaseKeepsAccountExactly(s: State, t: nat, x: nat, n: nat)
    requires InvAt(s, x) && t < |s.threads| && s.threads[t].Idle?
    requires x < |s.objs| && s.objs[x].Semaphore? && n < ULONG_RANGE
    ensures Schedules(ReleaseMoves(t, x, n), |s.threads|)
    ensures var s' := Exec(s, ReleaseMoves(t, x, n)).state;
            && AllInRange(s'.threads) && x < |s'.objs|
            && (Accounted(s', x) <==> !WrapsWithin(n, s.objs[x].count, s.objs[x].max))
  {
    assert Accounted(s, x) && ObjOk(s.objs[x], |s.threads|);
    var pc := ReleaseAlone(s, t, x, n);
    HandUpdate(s.threads, t, pc, x);
    ReleasedOwed(s.objs[x], n);
  }

  /** A release by n of an idle thread's keeps the account of every semaphore with this maximum. */
  ghost predicate AlwaysKeepsAccount(n: nat, max: nat) {
    forall s, t: nat, x: nat :: ReleaseBegins(s, t, x, max) ==> KeepsAccount(s, t, x, n)
  }

  ghost predicate ReleaseBegins(s: State, t: nat, x: nat, max: nat) {
    InvAt(s, x) && t < |s.threads| && s.threads[t].Idle? && x < |s.objs| && s.objs[x].Semaphore? && s.objs[x].max == max
  }

  ghost predicate KeepsAccount(s: State, t: nat, x: nat, n: nat) {
    && Wf(s) && Schedules(ReleaseMoves(t, x, n), |s.threads|)
    && var s' := Exec(s, ReleaseMoves(t, x, n)).state;
       AllInRange(s'.threads) && x < |s'.objs| && Accounted(s', x)
  }

  /** The condition under which runs are shown to keep the account, that the count asked for and
      the maximum do not add up to 2^32, is one a caller can test, and none weaker will do. */
  lemma {:induction false} TameExactly(n: nat, max: nat)
    requires n < ULONG_RANGE && max <= INT_MAX
    ensures AlwaysKeepsAccount(n, max) <==> n + max < ULONG_RANGE
  {
    if n + max < ULONG_RANGE {
      forall s, t: nat, x: nat | ReleaseBegins(s, t, x, max) ensures KeepsAccount(s, t, x, n) {
        ReleaseKeepsAccountExactly(s, t, x, n);
        assert ObjOk(s.objs[x], |s.threads|);
      }
    } else {
      var s := State([Semaphore(max, max, max)], [Idle(Nothing)]);
      InitInv(s, AllBut(s.objs, 0));
      ReleaseKeepsAccountExactly(s, 0, 0, n);
      assert ReleaseBegins(s, 0, 0, max) && !KeepsAccount(s, 0, 0, n);
    }
  }

  lemma {:induction false} ReleasedOwed(obj: Object, n: nat)
    requires obj.Semaphore? && 0 <= obj.count <= obj.max <= INT_MAX && n < ULONG_RANGE
    ensures Owed(ReleasedAlone(obj, n)) == Owed(obj) <==> !WrapsWithin(n, obj.count, obj.max)
    ensures ReleasedAlone(obj, n).Semaphore?
  {
    var sum := n + obj.count;
    if sum < ULONG_RANGE {
      SmallUlong(sum);
    } else {
      assert ToUlong(sum) == sum - ULONG_RANGE && sum - ULONG_RANGE <= INT_MAX;
      assert ToLong(sum) == sum - ULONG_RANGE;
    }
  }

  // ----- Setting an auto-reset event from the server -----

  lemma {:induction false} ChangeStep(s: State, u: nat)
    requires Wf(s) && u < |s.threads| && s.threads[u].Changing?
    ensures Focus(s.threads[u]) < |s.objs|
    ensures CanTouch(s.threads[u], s.objs[Focus(s.threads[u])])
    ensures var pc := s.threads[u];
            var r := TouchEvent(pc, s.objs[Focus(pc)]);
            Step(s, u, Go).state == Put(s, u, r.pc, Focus(pc), r.obj)
    ensures Wf(Step(s, u, Go).state)
  {
    assert WfPc(s.threads[u], KindsOf(s.objs));
    StepWf(s, u, Go);
  }

  /** An event after an undisturbed set. */
  function SetAlone(obj: Object, op: EventOp): Object
    requires obj.Event? && !obj.manual && op.on
  {
    if obj.signaled && op.server then obj else AfterWrite(obj.(signaled := true), 1)
  }

  function SetMoves(t: nat, x: nat, op: EventOp): seq<Move> {
    [Move(t, Start(ChangeEvent(x, op)))] + [Move(t, Go)] + [Move(t, Go)]
  }

  lemma {:induction false} SetsAlone(s: State, t: nat, x: nat, op: EventOp)
    requires Wf(s) && t < |s.threads| && s.threads[t].Idle?
    requires x < |s.objs| && s.objs[x].Event? && !s.objs[x].manual && op.on
    ensures Leads(s, SetMoves(t, x, op),
                  Put(s, t, Idle(Returned(ChangeEvent(x, op), Success)), x, SetAlone(s.objs[x], op)))
  {
    var go := [Move(t, Go)];
    var obj := s.objs[x];
    var done := Put(s, t, Idle(Returned(ChangeEvent(x, op), Success)), x, SetAlone(obj, op));
    var s1 := MoveTo(s, t, Changing(x, op, false, EvSwap));
    LeadsStep(s, t, Start(ChangeEvent(x, op)), s1);
    ChangeStep(s1, t);
    if obj.signaled && op.server {
      LeadsStep(s1, t, Go, done);
      LeadsThen(s, [Move(t, Start(ChangeEvent(x, op)))], s1, go, done);
      LeadsStep(done, t, Go, done);
      LeadsThen(s, [Move(t, Start(ChangeEvent(x, op)))] + go, done, go, done);
    } else {
      var s2 := Put(s, t, Changing(x, op, false, EvFd), x, obj.(signaled := true));
      LeadsStep(s1, t, Go, s2);
      LeadsThen(s, [Move(t, Start(ChangeEvent(x, op)))], s1, go, s2);
      ChangeStep(s2, t);
      LeadsStep(s2, t, Go, done);
      LeadsThen(s, [Move(t, Start(ChangeEvent(x, op)))] + go, s2, go, done);
    }
  }

  /** After an undisturbed set the event is signaled, unless the server did it and the hint was
      already on while the eventfd was not. */
  lemma {:induction false} SetTakesEffectExactly(s: State, t: nat, x: nat, op: EventOp)
    requires Wf(s) && t < |s.threads| && s.threads[t].Idle?
    requires x < |s.objs| && s.objs[x].Event? && !s.objs[x].manual && op.on
    ensures Schedules(SetMoves(t, x, op), |s.threads|)
    ensures var s' := Exec(s, SetMoves(t, x, op)).state;
            && x < |s'.objs|
            && (s'.objs[x].fd > 0 <==> !(op.server && s.objs[x].signaled && s.objs[x].fd == 0))
  {
    SetsAlone(s, t, x, op);
  }

  /** Two clients, one resetting and one setting an event, can leave the hint on and the
      eventfd empty with every call finished, so the case above does arise. */
  lemma {:induction false} HintCanBeStale() returns (s: State, sched: seq<Move>, s': State)
    ensures Init(s) && Leads(s, sched, s')
    ensures s'.objs == [Event(0, false, true, false)]
    ensures |s'.threads| == 2 && s'.threads[0].Idle? && s'.threads[1].Idle?
  {
    s := State([Event(0, false, false, false)], [Idle(Nothing), Idle(Nothing)]);
    var off, on := EventOp(false, false), EventOp(true, false);
    var begin := [Move(0, Start(ChangeEvent(0, off)))] + [Move(0, Go)];
    var s2 := RaceBegins(s, off);
    var set_ := SetMoves(1, 0, on);
    var s3 := RaceOvertakes(s2, off, on);
    LeadsThen(s, begin, s2, set_, s3);
    s' := RaceEnds(s3, off);
    LeadsThen(s, begin + set_, s3, [Move(0, Go)], s');
    sched := begin + set_ + [Move(0, Go)];
  }

  lemma {:induction false} RaceOvertakes(s: State, off: EventOp, on: EventOp) returns (s': State)
    requires Wf(s) && s.objs == [Event(0, false, false, false)] && on == EventOp(true, false)
    requires s.threads == [Changing(0, off, false, EvFd), Idle(Nothing)]
    ensures Leads(s, SetMoves(1, 0, on), s') && Wf(s') && s'.objs == [Event(1, false, true, false)]
    ensures |s'.threads| == 2 && s'.threads[0] == s.threads[0] && s'.threads[1].Idle?
  {
    SetsAlone(s, 1, 0, on);
    s' := Put(s, 1, Idle(Returned(ChangeEvent(0, on), Success)), 0, Event(1, false, true, false));
  }

  lemma {:induction false} RaceBegins(s: State, off: EventOp) returns (s2: State)
    requires s == State([Event(0, false, false, false)], [Idle(Nothing), Idle(Nothing)])
    requires off == EventOp(false, false)
    ensures Leads(s, [Move(0, Start(ChangeEvent(0, off)))] + [Move(0, Go)], s2) && Wf(s2)
    ensures s2 == MoveTo(s, 0, Changing(0, off, false, EvFd))
  {
    var s1 := MoveTo(s, 0, Changing(0, off, false, EvSwap));
    LeadsStep(s, 0, Start(ChangeEvent(0, off)), s1);
    s2 := MoveTo(s, 0, Changing(0, off, false, EvFd));
    ChangeStep(s1, 0);
    LeadsStep(s1, 0, Go, s2);
    LeadsThen(s, [Move(0, Start(ChangeEvent(0, off)))], s1, [Move(0, Go)], s2);
  }

  lemma {:induction false} RaceEnds(s: State, off: EventOp) returns (s': State)
    requires Wf(s) && |s.threads| == 2 && s.objs == [Event(1, false, true, false)]
    requires s.threads[0] == Changing(0, off, false, EvFd) && off == EventOp(false, false)
    ensures Leads(s, [Move(0, Go)], s')
    ensures s'.objs == [Event(0, false, true, false)] && |s'.threads| == 2
    ensures s'.threads[0].Idle? && s'.threads[1] == s.threads[1]
  {
    s' := Put(s, 0, Idle(Returned(ChangeEvent(0, off), Success)), 0, Event(0, false, true, false));
    ChangeStep(s, 0);
    LeadsStep(s, 0, Go, s');
  }

  // ----- Resetting an auto-reset event from the server -----

  /** An event after an undisturbed reset. */
  function ResetAlone(obj: Object, op: EventOp): Object
    requires obj.Event? && !obj.manual && !op.on
  {
    if !obj.signaled && op.server then obj else Drained(obj.(signaled := false))
  }

  lemma {:induction false} ResetsAlone(s: State, t: nat, x: nat, op: EventOp)
    requires Wf(s) && t < |s.threads| && s.threads[t].Idle?
    requires x < |s.objs| && s.objs[x].Event? && !s.objs[x].manual && !op.on
    ensures Leads(s, SetMoves(t, x, op),
                  Put(s, t, Idle(Returned(ChangeEvent(x, op), Success)), x, ResetAlone(s.objs[x], op)))
  {
    var go := [Move(t, Go)];
    var obj := s.objs[x];
    var done := Put(s, t, Idle(Returned(ChangeEvent(x, op), Success)), x, ResetAlone(obj, op));
    var s1 := MoveTo(s, t, Changing(x, op, false, EvSwap));
    LeadsStep(s, t, Start(ChangeEvent(x, op)), s1);
    ChangeStep(s1, t);
    if !obj.signaled && op.server {
      LeadsStep(s1, t, Go, done);
      LeadsThen(s, [Move(t, Start(ChangeEvent(x, op)))], s1, go, done);
      LeadsStep(done, t, Go, done);
      LeadsThen(s, [Move(t, Start(ChangeEvent(x, op)))] + go, done, go, done);
    } else {
      var s2 := Put(s, t, Changing(x, op, false, EvFd), x, obj.(signaled := false));
      LeadsStep(s1, t, Go, s2);
      LeadsThen(s, [Move(t, Start(ChangeEvent(x, op)))], s1, go, s2);
      ChangeStep(s2, t);
      LeadsStep(s2, t, Go, done);
      LeadsThen(s, [Move(t, Start(ChangeEvent(x, op)))] + go, s2, go, done);
    }
  }

  /** After an undisturbed reset the event is not signaled, unless the server did it and the hint was
      off while the eventfd was not. */
  lemma {:induction false} ResetTakesEffectExactly(s: State, t: nat, x: nat, op: EventOp)
    requires Wf(s) && t < |s.threads| && s.threads[t].Idle?
    requires x < |s.objs| && s.objs[x].Event? && !s.objs[x].manual && !op.on
    ensures Schedules(SetMoves(t, x, op), |s.threads|)
    ensures var s' := Exec(s, SetMoves(t, x, op)).state;
            && x < |s'.objs| && s'.threads[t] == Idle(Returned(ChangeEvent(x, op), Success))
            && (s'.objs[x].fd == 0 <==> !(op.server && !s.objs[x].signaled && s.objs[x].fd > 0))
  {
    ResetsAlone(s, t, x, op);
  }

  /** A wait that takes the event, and a set before it has recorded that, leave the hint off and the
      eventfd readable with every call finished, so this case arises as well. */
  lemma {:induction false} HintCanBeOff() returns (s: State, sched: seq<Move>, s': State)
    ensures Init(s) && Leads(s, sched, s')
    ensures s'.objs == [Event(1, false, false, false)]
    ensures |s'.threads| == 2 && s'.threads[0].Idle? && s'.threads[1].Idle?
  {
    s := State([Event(1, false, true, false)], [Idle(Nothing), Idle(Nothing)]);
    var w := Wait([Ref(0, AutoKind)], false, false);
    var begin, s1 := SetInBetween(s, w);
    s' := RecordsLate(s1, w);
    LeadsThen(s, begin, s1, [Move(0, Go)], s');
    sched := begin + [Move(0, Go)];
  }

  lemma {:induction false} SetInBetween(s: State, w: Wait) returns (sched: seq<Move>, s': State)
    requires s == State([Event(1, false, true, false)], [Idle(Nothing), Idle(Nothing)])
    requires w == Wait([Ref(0, AutoKind)], false, false)
    ensures Leads(s, sched, s') && Wf(s') && |s'.threads| == 2 && s'.objs == [Event(1, false, true, false)]
    ensures s'.threads[0] == Updating(w, 0, 1, false, UpdFirst) && s'.threads[1].Idle?
  {
    var on := EventOp(true, false);
    var take, s1 := TakesFirst(s, w);
    SetsAlone(s1, 1, 0, on);
    s' := Put(s1, 1, Idle(Returned(ChangeEvent(0, on), Success)), 0, Event(1, false, true, false));
    LeadsThen(s, take, s1, SetMoves(1, 0, on), s');
    sched := take + SetMoves(1, 0, on);
  }

  lemma {:induction false} TakesFirst(s: State, w: Wait) returns (sched: seq<Move>, s': State)
    requires s == State([Event(1, false, true, false)], [Idle(Nothing), Idle(Nothing)])
    requires w == Wait([Ref(0, AutoKind)], false, false)
    ensures Leads(s, sched, s') && Wf(s')
    ensures s' == Put(s, 0, Updating(w, 0, 1, false, UpdFirst), 0, Event(0, false, true, false))
  {
    var go := [Move(0, Go)];
    var s1 := MoveTo(s, 0, InAny(w, 0, Hint));
    LeadsStep(s, 0, Start(WaitFor(w)), s1);
    var s2 := MoveTo(s, 0, InAny(w, 0, TryRead));
    assert WfPc(s1.threads[0], KindsOf(s1.objs));
    LeadsStep(s1, 0, Go, s2);
    assert WfPc(s2.threads[0], KindsOf(s2.objs));
    s' := Put(s, 0, Updating(w, 0, 1, false, UpdFirst), 0, Event(0, false, true, false));
    LeadsStep(s2, 0, Go, s');
    sched := [Move(0, Start(WaitFor(w)))] + go + go;
    LeadsThen(s, [Move(0, Start(WaitFor(w)))], s1, go, s2);
    LeadsThen(s, [Move(0, Start(WaitFor(w)))] + go, s2, go, s');
  }

  lemma {:induction false} RecordsLate(s: State, w: Wait) returns (s': State)
    requires Wf(s) && |s.threads| == 2 && s.objs == [Event(1, false, true, false)]
    requires s.threads[0] == Updating(w, 0, 1, false, UpdFirst) && w == Wait([Ref(0, AutoKind)], false, false)
    ensures Leads(s, [Move(0, Go)], s') && s'.objs == [Event(1, false, false, false)]
    ensures |s'.threads| == 2 && s'.threads[0].Idle? && s'.threads[1] == s.threads[1]
  {
    s' := Put(s, 0, Return(w, Index(0)), 0, Event(1, false, false, false));
    assert WfPc(s.threads[0], KindsOf(s.objs));
    LeadsStep(s, 0, Go, s');
  }

  // ----- Pulsing a manual-reset event -----

  function PulseMoves(t: nat, x: nat): seq<Move> {
    [Move(t, Start(PulseEvent(x)))] + [Move(t, Go)] + [Move(t, Go)]
  }

  /** An undisturbed pulse leaves hint and eventfd in agreement exactly if the event was not
      signaled. */
  lemma {:induction false} PulseAgreesExactly(s: State, t: nat, x: nat)
    requires Wf(s) && t < |s.threads| && s.threads[t].Idle?
    requires x < |s.objs| && s.objs[x].Event? && s.objs[x].manual
    ensures Schedules(PulseMoves(t, x), |s.threads|)
    ensures var s' := Exec(s, PulseMoves(t, x)).state;
            && x < |s'.objs| && s'.objs[x].Event?
            && ((s'.objs[x].signaled <==> s'.objs[x].fd > 0) <==> !s.objs[x].signaled)
  {
    var go := [Move(t, Go)];
    var a := [Move(t, Start(PulseEvent(x)))];
    var obj := s.objs[x];
    var s1 := MoveTo(s, t, Pulsing(x, true, false));
    LeadsStep(s, t, Start(PulseEvent(x)), s1);
    assert WfPc(s1.threads[t], KindsOf(s1.objs));
    var s2 := Put(s, t, Pulsing(x, true, true), x, AfterWrite(obj, 1));
    LeadsStep(s1, t, Go, s2);
    LeadsThen(s, a, s1, go, s2);
    assert WfPc(s2.threads[t], KindsOf(s2.objs));
    var s3 := Put(s, t, Idle(Returned(PulseEvent(x), Success)), x, Event(0, true, obj.signaled, obj.locked));
    LeadsStep(s2, t, Go, s3);
    LeadsThen(s, a + go, s2, go, s3);
  }
}
