/** Runs in which one thread goes on alone: the phases of a wait-all, one after the other. */
module EsyncSolo {
  import opened EsyncModel
  import opened EsyncInvariants
  import opened EsyncSteps
  import opened EsyncRuns
  import opened EsyncGuarantees

  // ----- Runs one after the other -----

  lemma {:induction false} ExecAppend(s: State, a: seq<Move>, b: seq<Move>)
    requires Wf(s) && Schedules(a, |s.threads|) && Schedules(b, |s.threads|)
    ensures Schedules(a + b, |s.threads|)
    ensures Exec(s, a + b).state == Exec(Exec(s, a).state, b).state
  {
    if b == [] {
      assert a + b == a;
    } else {
      var n := |b| - 1;
      ExecAppend(s, a, b[..n]);
      assert (a + b)[..|a + b| - 1] == a + b[..n] && (a + b)[|a + b| - 1] == b[n];
      ExecLast(s, a + b);
      ExecLast(Exec(s, a).state, b);
    }
  }

  lemma {:induction false} ExecLast(s: State, sched: seq<Move>)
    requires Wf(s) && Schedules(sched, |s.threads|) && sched != []
    ensures var n := |sched| - 1;
            Exec(s, sched).state == Step(Exec(s, sched[..n]).state, sched[n].t, sched[n].c).state
  {
  }

  lemma {:induction false} ExecOne(s: State, t: nat, c: Choice)
    requires Wf(s) && t < |s.threads|
    ensures Schedules([Move(t, c)], |s.threads|)
    ensures Exec(s, [Move(t, c)]).state == Step(s, t, c).state
  {
    assert [Move(t, c)][..0] == [];
  }

  ghost predicate Leads(s: State, sched: seq<Move>, s': State) {
    Wf(s) && Schedules(sched, |s.threads|) && Exec(s, sched).state == s'
  }

  lemma {:induction false} LeadsThen(s: State, a: seq<Move>, s1: State, b: seq<Move>, s2: State)
    requires Leads(s, a, s1) && Leads(s1, b, s2)
    ensures Leads(s, a + b, s2)
  {
    ExecAppend(s, a, b);
  }

  lemma {:induction false} LeadsStep(s: State, t: nat, c: Choice, s': State)
    requires Wf(s) && t < |s.threads| && Step(s, t, c).state == s'
    ensures Leads(s, [Move(t, c)], s') && Wf(s')
  {
    ExecOne(s, t, c);
    StepWf(s, t, c);
  }

  /** Only thread t moves, and it starts nothing. */
  predicate Alone(sched: seq<Move>, t: nat) {
    forall i :: 0 <= i < |sched| ==> sched[i] == Move(t, Go)
  }

  /** One step of thread t, and then the rest. */
  lemma {:induction false} GoOn(s: State, t: nat, rest: seq<Move>)
    requires Wf(s) && t < |s.threads| && Alone(rest, t)
    ensures Alone([Move(t, Go)] + rest, t) && Schedules([Move(t, Go)] + rest, |s.threads|)
    ensures Schedules(rest, |s.threads|) && Wf(Step(s, t, Go).state)
    ensures Exec(s, [Move(t, Go)] + rest).state == Exec(Step(s, t, Go).state, rest).state
  {
    StepWf(s, t, Go);
    ExecOne(s, t, Go);
    ExecAppend(s, [Move(t, Go)], rest);
  }

  // ----- The phases of a wait-all -----

  /** The same state with thread t at pc. */
  function MoveTo(s: State, t: nat, pc: Pc): State
    requires t < |s.threads|
  {
    s.(threads := s.threads[t := pc])
  }

  /** The listed objects exist and thread t owns none of the mutexes among them. */
  ghost predicate NoneOwned(s: State, t: nat, refs: seq<Ref>) {
    && RefsOk(refs, KindsOf(s.objs))
    && forall i :: 0 <= i < |refs| && refs[i].kind.MutexKind? ==> s.objs[refs[i].o].tid != Thread(t)
  }

  ghost predicate Readable(s: State, refs: seq<Ref>) {
    && RefsOk(refs, KindsOf(s.objs))
    && forall i :: 0 <= i < |refs| ==> s.objs[refs[i].o].fd > 0
  }

  predicate Distinct(refs: seq<Ref>) {
    forall i, j :: 0 <= i < j < |refs| ==> refs[i].o != refs[j].o
  }

  /** A state with thread t at pc and object o replaced by obj. */
  function Put(s: State, t: nat, pc: Pc, o: nat, obj: Object): State
    requires t < |s.threads| && o < |s.objs|
  {
    State(s.objs[o := obj], s.threads[t := pc])
  }

  lemma {:induction false} AllStep(s: State, t: nat)
    requires Wf(s) && t < |s.threads| && s.threads[t].InAll?
    ensures InRange(s.threads[t]) && Focus(s.threads[t]) < |s.objs|
    ensures CanTouch(s.threads[t], s.objs[Focus(s.threads[t])])
    ensures var pc := s.threads[t];
            var r := TouchAll(pc, s.objs[Focus(pc)], t, Go);
            Step(s, t, Go).state == Put(s, t, r.pc, Focus(pc), r.obj)
    ensures Wf(Step(s, t, Go).state)
  {
    assert WfPc(s.threads[t], KindsOf(s.objs));
    StepWf(s, t, Go);
  }

  lemma {:induction false} PollPhase(s: State, t: nat, w: Wait, i: nat) returns (sched: seq<Move>)
    requires Wf(s) && t < |s.threads| && w.TakesAll() && i <= |w.refs| && s.threads[t] == AllNext(w, i)
    requires NoneOwned(s, t, w.refs) && Readable(s, w.refs)
    ensures Alone(sched, t) && Schedules(sched, |s.threads|)
    ensures Exec(s, sched).state == MoveTo(s, t, InAll(w, 0, Check(true)))
    decreases |w.refs| - i, 1
  {
    if i == |w.refs| {
      sched := [];
      assert s == MoveTo(s, t, s.threads[t]);
    } else {
      var s1 := s;
      if w.refs[i].kind.MutexKind? {
        AllStep(s, t);
        s1 := Step(s, t, Go).state;
        assert s1 == MoveTo(s, t, InAll(w, i, AllPoll));
      }
      var rest := PollOne(s1, t, w, i);
      sched := rest;
      if w.refs[i].kind.MutexKind? {
        GoOn(s, t, rest);
        sched := [Move(t, Go)] + rest;
      }
    }
  }

  lemma {:induction false} PollOne(s: State, t: nat, w: Wait, i: nat) returns (sched: seq<Move>)
    requires Wf(s) && t < |s.threads| && w.TakesAll() && i < |w.refs| && s.threads[t] == InAll(w, i, AllPoll)
    requires NoneOwned(s, t, w.refs) && Readable(s, w.refs)
    ensures Alone(sched, t) && Schedules(sched, |s.threads|)
    ensures Exec(s, sched).state == MoveTo(s, t, InAll(w, 0, Check(true)))
    decreases |w.refs| - i, 0
  {
    AllStep(s, t);
    var s1 := Step(s, t, Go).state;
    assert s1 == MoveTo(s, t, AllNext(w, i + 1));
    var rest := PollPhase(s1, t, w, i + 1);
    GoOn(s, t, rest);
    sched := [Move(t, Go)] + rest;
  }

  lemma {:induction false} CheckPhase(s: State, t: nat, w: Wait, i: nat) returns (sched: seq<Move>)
    requires Wf(s) && t < |s.threads| && w.TakesAll() && i < |w.refs|
    requires s.threads[t] == InAll(w, i, Check(true)) && Readable(s, w.refs)
    ensures Alone(sched, t) && Schedules(sched, |s.threads|)
    ensures Exec(s, sched).state == MoveTo(s, t, GrabNext(w, 0))
    decreases |w.refs| - i
  {
    AllStep(s, t);
    var s1 := Step(s, t, Go).state;
    var rest := [];
    if i + 1 < |w.refs| {
      assert s1 == MoveTo(s, t, InAll(w, i + 1, Check(true)));
      rest := CheckPhase(s1, t, w, i + 1);
    } else {
      assert s1 == MoveTo(s, t, GrabNext(w, 0));
    }
    GoOn(s, t, rest);
    sched := [Move(t, Go)] + rest;
  }

  /** Nothing but eventfd counters differs. */
  ghost predicate SameRecords(a: seq<Object>, b: seq<Object>) {
    |a| == |b| && forall x :: 0 <= x < |a| ==> b[x] == a[x].(fd := b[x].fd)
  }

  lemma {:induction false} SameRecordsNoneOwned(s: State, s': State, t: nat, refs: seq<Ref>)
    requires NoneOwned(s, t, refs) && SameRecords(s.objs, s'.objs)
    ensures NoneOwned(s', t, refs)
  {
    assert KindsOf(s.objs) == KindsOf(s'.objs);
  }

  /** Thread t has moved alone; of the objects only counters of the listed ones changed. */
  ghost predicate Moved(s: State, s': State, t: nat, pc: Pc, refs: seq<Ref>)
    requires t < |s.threads|
  {
    && s'.threads == s.threads[t := pc]
    && SameRecords(s.objs, s'.objs)
    && forall x :: 0 <= x < |s.objs| && !Names(refs, x) ==> s'.objs[x] == s.objs[x]
  }

  /** The grab loop goes on to position k if all it reads until there is readable. */
  lemma {:induction false} GrabPhase(s: State, t: nat, w: Wait, i: nat, k: nat) returns (sched: seq<Move>)
    requires Wf(s) && t < |s.threads| && w.TakesAll() && i <= k <= |w.refs|
    requires s.threads[t] == GrabNext(w, i) && NoneOwned(s, t, w.refs) && Distinct(w.refs)
    requires forall j :: i <= j < k && Consumable(w.refs[j].kind) ==> s.objs[w.refs[j].o].fd > 0
    ensures Alone(sched, t) && Schedules(sched, |s.threads|)
    ensures Moved(s, Exec(s, sched).state, t, GrabNext(w, k), w.refs[i..k])
    decreases k - i, 2
  {
    if i == k {
      sched := [];
    } else if !Consumable(w.refs[i].kind) {
      sched := GrabPhase(s, t, w, i + 1, k);
      NamesTail(w.refs, i, k);
    } else if w.refs[i].kind.MutexKind? {
      AllStep(s, t);
      var s1 := Step(s, t, Go).state;
      assert s1 == MoveTo(s, t, InAll(w, i, GrabRead));
      var rest := GrabOne(s1, t, w, i, k);
      GoOn(s, t, rest);
      sched := [Move(t, Go)] + rest;
    } else {
      sched := GrabOne(s, t, w, i, k);
    }
  }

  lemma {:induction false} NamesTail(refs: seq<Ref>, i: nat, k: nat)
    requires i < k <= |refs|
    ensures forall x :: Names(refs[i + 1..k], x) ==> Names(refs[i..k], x)
    ensures Names(refs[i..k], refs[i].o)
  {
    forall x | Names(refs[i + 1..k], x) ensures Names(refs[i..k], x) {
      var j :| 0 <= j < |refs[i + 1..k]| && refs[i + 1..k][j].o == x;
      assert refs[i..k][j + 1].o == x;
    }
    assert refs[i..k][0].o == refs[i].o;
  }

  lemma {:induction false} GrabOne(s: State, t: nat, w: Wait, i: nat, k: nat) returns (sched: seq<Move>)
    requires Wf(s) && t < |s.threads| && w.TakesAll() && i < k <= |w.refs|
    requires s.threads[t] == InAll(w, i, GrabRead) && NoneOwned(s, t, w.refs) && Distinct(w.refs)
    requires forall j :: i <= j < k && Consumable(w.refs[j].kind) ==> s.objs[w.refs[j].o].fd > 0
    requires Consumable(w.refs[i].kind)
    ensures Alone(sched, t) && Schedules(sched, |s.threads|)
    ensures Moved(s, Exec(s, sched).state, t, GrabNext(w, k), w.refs[i..k])
    decreases k - i, 1
  {
    var o := w.refs[i].o;
    AllStep(s, t);
    var s1 := Step(s, t, Go).state;
    assert s1 == Put(s, t, GrabNext(w, i + 1), o, AfterRead(s.objs[o]));
    SameRecordsNoneOwned(s, s1, t, w.refs);
    var rest := GrabPhase(s1, t, w, i + 1, k);
    GoOn(s, t, rest);
    sched := [Move(t, Go)] + rest;
    NamesTail(w.refs, i, k);
    MovedAfter(s, s1, Exec(s, sched).state, t, GrabNext(w, k), w.refs[i + 1..k], w.refs[i..k], o);
  }

  lemma {:induction false} MovedAfter(s: State, s1: State, s': State, t: nat, pc: Pc,
                                      some: seq<Ref>, refs: seq<Ref>, o: nat)
    requires t < |s.threads| && o < |s.objs| && s.objs[o].fd > 0 && |s1.threads| == |s.threads|
    requires s1.objs == s.objs[o := AfterRead(s.objs[o])] && s1.threads == s.threads[t := s1.threads[t]]
    requires Moved(s1, s', t, pc, some)
    requires Names(refs, o) && forall x :: Names(some, x) ==> Names(refs, x)
    ensures Moved(s, s', t, pc, refs)
  {
  }

  /** Only counters differ, each by one write for every entry of the list. */
  ghost predicate WrittenBack(a: seq<Object>, b: seq<Object>, refs: seq<Ref>) {
    SameRecords(a, b) && forall x :: 0 <= x < |a| ==> b[x].fd == a[x].fd + Occ(refs, x)
  }

  /** The put-back loop writes once for every entry. */
  lemma {:induction false} BackPhase(s: State, t: nat, w: Wait, n: nat) returns (sched: seq<Move>)
    requires Wf(s) && t < |s.threads| && w.TakesAll() && n <= |w.refs|
    requires s.threads[t] == BackNext(w, n) && NoneOwned(s, t, w.refs)
    ensures Alone(sched, t) && Schedules(sched, |s.threads|)
    ensures var s' := Exec(s, sched).state;
            s'.threads == s.threads[t := AllNext(w, 0)] && WrittenBack(s.objs, s'.objs, w.refs[..n])
    decreases n, 2
  {
    if n == 0 {
      sched := [];
    } else if w.refs[n - 1].kind.MutexKind? {
      AllStep(s, t);
      var s1 := Step(s, t, Go).state;
      assert s1 == MoveTo(s, t, InAll(w, n - 1, BackWrite));
      var rest := BackOne(s1, t, w, n);
      GoOn(s, t, rest);
      sched := [Move(t, Go)] + rest;
    } else {
      sched := BackOne(s, t, w, n);
    }
  }

  lemma {:induction false} BackOne(s: State, t: nat, w: Wait, n: nat) returns (sched: seq<Move>)
    requires Wf(s) && t < |s.threads| && w.TakesAll() && 0 < n <= |w.refs|
    requires s.threads[t] == InAll(w, n - 1, BackWrite) && NoneOwned(s, t, w.refs)
    ensures Alone(sched, t) && Schedules(sched, |s.threads|)
    ensures var s' := Exec(s, sched).state;
            s'.threads == s.threads[t := AllNext(w, 0)] && WrittenBack(s.objs, s'.objs, w.refs[..n])
    decreases n, 1
  {
    var o := w.refs[n - 1].o;
    AllStep(s, t);
    var s1 := Step(s, t, Go).state;
    assert s1 == Put(s, t, BackNext(w, n - 1), o, AfterWrite(s.objs[o], 1));
    SameRecordsNoneOwned(s, s1, t, w.refs);
    var rest := BackPhase(s1, t, w, n - 1);
    GoOn(s, t, rest);
    sched := [Move(t, Go)] + rest;
    assert w.refs[..n][..n - 1] == w.refs[..n - 1];
    WrittenBackAfter(s.objs, s1.objs, Exec(s, sched).state.objs, w.refs[..n]);
  }

  lemma {:induction false} WrittenBackAfter(a: seq<Object>, b: seq<Object>, c: seq<Object>, refs: seq<Ref>)
    requires refs != [] && refs[|refs| - 1].o < |a|
    requires var o := refs[|refs| - 1].o; b == a[o := AfterWrite(a[o], 1)]
    requires WrittenBack(b, c, refs[..|refs| - 1])
    ensures WrittenBack(a, c, refs)
  {
  }

  lemma {:induction false} UpdateStep(s: State, t: nat)
    requires Wf(s) && t < |s.threads| && s.threads[t].Updating?
    ensures var pc := s.threads[t];
            var s' := Step(s, t, Go).state;
            && Focused(pc) && Focus(pc) < |s.objs| && Wf(s') && |s'.threads| == |s.threads|
            && CanTouch(pc, s.objs[Focus(pc)])
            && s'.threads[t] == TouchUpdate(pc, s.objs[Focus(pc)], t).pc
  {
    assert WfPc(s.threads[t], KindsOf(s.objs));
    StepWf(s, t, Go);
  }

  predicate Granted(pc: Pc, w: Wait) {
    pc == Return(w, AllSignaled) || pc == Return(w, AllSignaledAbandoned)
  }

  function UpdRank(upd: UpdPc): nat {
    match upd
    case UpdFirst => 3
    case UpdTid => 2
    case UpdLoad => 1
    case UpdStore(_) => 0
  }

  /** The update loop of a wait-all runs to its end. */
  lemma {:induction false} UpdatePhase(s: State, t: nat, w: Wait) returns (sched: seq<Move>)
    requires Wf(s) && t < |s.threads| && w.TakesAll()
    requires var pc := s.threads[t]; Granted(pc, w) || (pc.Updating? && pc.w == w)
    ensures Alone(sched, t) && Schedules(sched, |s.threads|)
    ensures Granted(Exec(s, sched).state.threads[t], w)
    decreases if s.threads[t].Updating? then |w.refs| - s.threads[t].k else -1,
              if s.threads[t].Updating? then UpdRank(s.threads[t].upd) else 0
  {
    var pc := s.threads[t];
    if Granted(pc, w) {
      sched := [];
    } else {
      UpdateStep(s, t);
      UpdNextGoesOn(w, pc.k + 1, pc.n, pc.ab);
      assert WfPc(pc, KindsOf(s.objs));
      var rest := UpdatePhase(Step(s, t, Go).state, t, w);
      GoOn(s, t, rest);
      sched := [Move(t, Go)] + rest;
    }
  }

  lemma {:induction false} UpdNextGoesOn(w: Wait, k: nat, n: nat, ab: bool)
    requires w.TakesAll() && 0 < n <= |w.refs|
    ensures var pc := UpdNext(w, k, n, ab); Granted(pc, w) || (pc.Updating? && pc.w == w && pc.k >= k)
    decreases n - k
  {
    if k < n && !Consumable(w.refs[k].kind) {
      UpdNextGoesOn(w, k + 1, n, ab);
    }
  }
}
