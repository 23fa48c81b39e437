/** What an empty eventfd, and with it a timeout, means to the atomic specification. */
module EsyncTimeouts {
  import opened EsyncModel
  import opened EsyncInvariants
  import opened EsyncSteps
  import opened EsyncRuns
  import opened EsyncSpec
  import opened EsyncGuarantees
  import opened EsyncAnswers
  import opened EsyncAbandon

  // ----- An empty eventfd -----

  /** The counter of a semaphore is what is available less what is in flight: released and not yet
      written, or read by a wait-all that may put it back. */
  lemma {:induction false} SemaphoreReadable(s: State, sched: seq<Move>, x: nat)
    requires Init(s) && Schedules(sched, |s.threads|)
    requires x < |s.objs| && s.objs[x].Semaphore? && x !in Wild(sched, s.objs)
    ensures Wf(s)
    ensures var r := Exec(s, sched);
            && x < |r.state.objs| && AllInRange(r.state.threads)
            && r.state.objs[x].fd + InFlight(r.state, x) == SpecExec(SpecInit(s.objs), r.acts).avail[x]
  {
    SemaphoreConservation(s, sched, x);
    SpecTally(SpecInit(s.objs), Exec(s, sched).acts, x);
  }

  /** A mutex that is free, but whose token is still with the thread that let it go, or with a wait-all
      that may put it back. */
  ghost predicate InTransit(s: State, x: nat)
    requires x < |s.objs| && s.objs[x].Mutex? && AllInRange(s.threads)
  {
    InFlight(s, x) > 0 || exists t :: 0 <= t < |s.threads| && s.threads[t] == Unlocking(x, MtxClear)
  }

  lemma {:induction false} NoLags(threads: seq<Pc>, x: nat)
    requires AllInRange(threads) && forall t :: 0 <= t < |threads| ==> Lag(threads[t], x) == 0
    ensures Lags(threads, x) == 0
  {
    if threads != [] {
      var n := |threads| - 1;
      assert forall t :: 0 <= t < n ==> threads[..n][t] == threads[t];
      NoLags(threads[..n], x);
    }
  }

  /** At any place, the token of a mutex is with the thread between unlocking and clearing the owner,
      or in the eventfd, or in somebody's hands. */
  lemma {:induction false} MutexEmptyExactly(s: State, wild: set<nat>, h: Holder, x: nat)
    requires Inv(s, wild) && x < |s.objs| && s.objs[x].Mutex? && MutexRel(s, h, x)
    ensures s.objs[x].fd == 0 <==> h.Held? || InTransit(s, x)
  {
    assert Accounted(s, x) && ObjOk(s.objs[x], |s.threads|);
    if h.Held? {
      HeldEmpty(s, wild, h, x);
    } else {
      forall t | 0 <= t < |s.threads| ensures Lag(s.threads[t], x) == 0 {
        assert Unheld(s.threads[t], t, s.objs[x].tid, x);
      }
      NoLags(s.threads, x);
      forall t: nat | t < |s.threads| && s.threads[t] == Unlocking(x, MtxClear)
        ensures s.objs[x].tid.Thread?
      {
        assert Agree(s.threads[t], t, s.objs[x], x);
      }
      if s.objs[x].tid.Thread? {
        var t := s.objs[x].tid.id;
        assert Unheld(s.threads[t], t, s.objs[x].tid, x);
      }
    }
  }

  lemma {:induction false} HeldEmpty(s: State, wild: set<nat>, h: Holder, x: nat)
    requires Inv(s, wild) && x < |s.objs| && s.objs[x].Mutex? && MutexRel(s, h, x) && h.Held?
    ensures s.objs[x].fd == 0
  {
    assert Accounted(s, x) && ObjOk(s.objs[x], |s.threads|);
    if Lag(s.threads[h.t], x) >= 1 {
      HandAtLeast(s.threads, h.t, x);
    }
  }

  // ----- In runs -----

  /** What the specification says when the eventfd of x is empty: no units but those in flight, a mutex
      held or in transit. */
  ghost predicate Unavailable(s: State, sched: seq<Move>, x: nat)
    requires Init(s) && Wf(s) && Schedules(sched, |s.threads|) && x < |s.objs|
  {
    var r := Exec(s, sched);
    var a := SpecExec(SpecInit(s.objs), r.acts);
    && x < |r.state.objs| && x < |a.holder| && AllInRange(r.state.threads)
    && match r.state.objs[x]
       case Semaphore(_, _, _) => a.avail[x] == InFlight(r.state, x)
       case Mutex(_, _, _) => a.holder[x].Held? || InTransit(r.state, x)
       case Event(fd, _, _, _) => fd == 0
  }

  /** In every reachable state an eventfd is empty exactly if the specification says so. */
  lemma {:induction false} EmptyExactly(s: State, sched: seq<Move>, x: nat)
    requires Init(s) && Wf(s) && Schedules(sched, |s.threads|) && x < |s.objs| && x !in Wild(sched, s.objs)
    ensures x < |Exec(s, sched).state.objs|
    ensures Exec(s, sched).state.objs[x].fd == 0 <==> Unavailable(s, sched, x)
  {
    RunRefines(s, sched);
    var r := Exec(s, sched);
    assert KindOf(s.objs[x]) == KindOf(r.state.objs[x]);
    if s.objs[x].Semaphore? {
      SemaphoreReadable(s, sched, x);
    } else if s.objs[x].Mutex? {
      MutexEmptyExactly(r.state, Wild(sched, s.objs), SpecExec(SpecInit(s.objs), r.acts).holder[x], x);
    }
  }

  // ----- Moments of a call -----

  /** How many steps there were when thread t's current, or last, call began. */
  function Began(s: State, sched: seq<Move>, t: nat): (m: nat)
    requires Wf(s) && Schedules(sched, |s.threads|) && t < |s.threads|
    ensures m <= |sched|
  {
    if sched == [] then 0
    else
      var n := |sched| - 1;
      var before := Exec(s, sched[..n]).state;
      var pc := before.threads[t];
      if sched[n].t == t && pc.Idle? && Think(pc, sched[n].c, KindsOf(before.objs)) != pc then |sched|
      else Began(s, sched[..n], t)
  }

  /** What a thread saw in its call was so at a moment of the call. */
  lemma {:induction false} LookMoment(s: State, sched: seq<Move>, t: nat, k: nat) returns (m: nat)
    requires Wf(s) && Schedules(sched, |s.threads|) && t < |s.threads| && k < |Looks(s, sched, t)|
    ensures Began(s, sched, t) <= m <= |sched|
    ensures var l, objs := Looks(s, sched, t)[k], Exec(s, sched[..m]).state.objs; l.o < |objs| && objs[l.o] == l.obj
  {
    var n := |sched| - 1;
    var before := Exec(s, sched[..n]).state;
    assert WfPc(before.threads[t], KindsOf(before.objs));
    if k < |Looks(s, sched[..n], t)| {
      m := LookMoment(s, sched[..n], t, k);
      assert sched[..n][..m] == sched[..m];
    } else {
      m := n;
    }
  }

  lemma {:induction false} WildGrows(sched: seq<Move>, m: nat, objs: seq<Object>)
    requires m <= |sched|
    ensures Wild(sched[..m], objs) <= Wild(sched, objs)
  {
  }

  /** At a moment of the call, the specification had x unavailable. */
  ghost predicate WasUnavailable(s: State, sched: seq<Move>, t: nat, x: nat)
    requires Init(s) && Wf(s) && Schedules(sched, |s.threads|) && t < |s.threads|
  {
    exists m :: Began(s, sched, t) <= m <= |sched| && x < |s.objs| && Unavailable(s, sched[..m], x)
  }

  lemma {:induction false} SawEmpty(s: State, sched: seq<Move>, t: nat, x: nat)
    requires Init(s) && Wf(s) && Schedules(sched, |s.threads|) && t < |s.threads|
    requires Saw(Looks(s, sched, t), x, CannotRead) && x < |s.objs| && x !in Wild(sched, s.objs)
    ensures WasUnavailable(s, sched, t, x)
  {
    var looks := Looks(s, sched, t);
    var k :| 0 <= k < |looks| && looks[k].o == x && Shows(CannotRead, looks[k].obj);
    var m := LookMoment(s, sched, t, k);
    WildGrows(sched, m, s.objs);
    EmptyExactly(s, sched[..m], x);
  }

  lemma {:induction false} WaitNames(s: State, sched: seq<Move>, t: nat, w: Wait)
    requires Init(s) && Wf(s) && Schedules(sched, |s.threads|) && t < |s.threads|
    requires Exec(s, sched).state.threads[t] == Return(w, TimedOut)
    ensures RefsOk(w.refs, KindsOf(s.objs))
  {
    AbandonedExactly(s, sched, t);
  }

  /** A wait-any that times out found each of its objects unavailable, to the specification, at a moment
      of the call, or a unit of it in flight; a wait-all found one of them so.  Only about semaphores
      that the run releases by too much nothing is said. */
  lemma {:induction false} TimeoutMeans(s: State, sched: seq<Move>, t: nat, w: Wait)
    requires Init(s) && Wf(s) && Schedules(sched, |s.threads|) && t < |s.threads|
    requires Exec(s, sched).state.threads[t] == Return(w, TimedOut)
    requires forall j :: 0 <= j < |w.refs| ==> w.refs[j].o !in Wild(sched, s.objs)
    ensures if w.TakesAll() then exists j :: 0 <= j < |w.refs| && WasUnavailable(s, sched, t, w.refs[j].o)
            else forall j :: 0 <= j < |w.refs| ==> WasUnavailable(s, sched, t, w.refs[j].o)
  {
    AnswersAreJust(s, sched, t);
    WaitNames(s, sched, t, w);
    var looks := Looks(s, sched, t);
    if w.TakesAll() {
      var j :| 0 <= j < |w.refs| && Saw(looks, w.refs[j].o, CannotRead);
      SawEmpty(s, sched, t, w.refs[j].o);
    } else {
      forall j | 0 <= j < |w.refs| ensures WasUnavailable(s, sched, t, w.refs[j].o) {
        assert Saw(looks, w.refs[j].o, CannotRead);
        SawEmpty(s, sched, t, w.refs[j].o);
      }
    }
  }
}
