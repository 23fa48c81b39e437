/** The visible actions of a call by the time it returns, whatever the other threads did meanwhile.
    Reads that a wait-all puts back are not among them: they cancel out on semaphores and mutexes
    (EsyncCalls), and may show on an event that is not the last thing read (EsyncResets). */
module EsyncOutcomes {
  import opened EsyncModel
  import opened EsyncInvariants
  import opened EsyncSteps
  import opened EsyncRuns

  function Visible(act: Label): seq<Label> {
    if act.Tau? then [] else [act]
  }

  /** The visible actions of thread t since it last started a call. */
  function Story(s: State, sched: seq<Move>, t: nat): seq<Label>
    requires Wf(s) && Schedules(sched, |s.threads|) && t < |s.threads|
  {
    if sched == [] then []
    else
      var n := |sched| - 1;
      var before := Exec(s, sched[..n]).state;
      var told := Story(s, sched[..n], t);
      var r := Step(before, sched[n].t, sched[n].c);
      if sched[n].t != t then told
      else if before.threads[t].Idle? then (if r.state.threads[t] == before.threads[t] then told else [])
      else told + Visible(r.act)
  }

  /** A wait-any takes the one object it reports, a wait-all all it reads in one action, and a
      wait that times out or is broken off by an APC has no action. */
  predicate WaitStory(w: Wait, status: Status, t: nat, story: seq<Label>) {
    match status
    case Index(i) =>
      && i < |w.refs| && !w.TakesAll()
      && (match w.refs[i].kind
          case ManualKind => story == []
          case MutexKind => story == [Grab(t, [w.refs[i].o])] || story == [Recur(t, w.refs[i].o)]
          case _ => story == [Grab(t, [w.refs[i].o])])
    case AbandonedIndex(i) =>
      i < |w.refs| && !w.TakesAll() && w.refs[i].kind.MutexKind? && story == [Grab(t, [w.refs[i].o])]
    case AllSignaled => w.TakesAll() && story == [Grab(t, Reads(w.refs))]
    case AllSignaledAbandoned => w.TakesAll() && story == [Grab(t, Reads(w.refs))]
    case TimedOut => story == []
    case UserApc => w.alertable && story == []
    case _ => false
  }

  /** A client that changes an auto-reset event always gets through to the eventfd; in the
      other cases the hint may have made that unnecessary, or seem so. */
  predicate EventStory(o: nat, op: EventOp, auto: bool, story: seq<Label>) {
    story == [if op.on then SetFd(o) else ClearFd(o)] || (story == [] && !(auto && !op.server))
  }

  predicate ReturnStory(call: Call, status: Status, t: nat, kinds: seq<Kind>, story: seq<Label>) {
    match call
    case WaitFor(w) => WaitStory(w, status, t, story)
    case ReleaseSemaphore(o, n) =>
      if status.Success? then story == [Release(o, n)] else status.LimitExceeded? && story == []
    case ReleaseMutex(o) =>
      if status.Success? then story == [Unlock(t, o)] else status.NotOwned? && story == []
    case ChangeEvent(o, op) =>
      if status.Success? then EventStory(o, op, o < |kinds| && kinds[o].AutoKind?, story)
      else status.TypeMismatch? && story == []
    case PulseEvent(o) =>
      if status.Success? then story == [SetFd(o), ClearFd(o)] else status.TypeMismatch? && story == []
    case ExitThread => false
  }

  /** What a thread has done so far, at each place in the code. */
  predicate Told(pc: Pc, t: nat, kinds: seq<Kind>, story: seq<Label>) {
    match pc
    case Idle(last) => last.Nothing? || ReturnStory(last.call, last.status, t, kinds, story)
    case Releasing(o, n, sem) => story == if sem.SemWrite? then [Release(o, n)] else []
    case Unlocking(o, mtx) => story == if mtx.MtxClear? || mtx.MtxWrite? then [Unlock(t, o)] else []
    case Changing(o, op, manual, ev) =>
      if ev.EvUnlock? then EventStory(o, op, !manual, story) else story == []
    case Pulsing(o, _, wrote) => story == if wrote then [SetFd(o)] else []
    case Polling(_, _) => story == []
    case InAny(_, _, _) => story == []
    case InAll(_, _, _) => story == []
    case Updating(w, _, n, ab, _) =>
      && 0 < n <= |w.refs|
      && (if w.TakesAll() then story == [Grab(t, Reads(w.refs))]
          else story == [Grab(t, [w.refs[n - 1].o])] && Consumable(w.refs[n - 1].kind) &&
               (ab ==> w.refs[n - 1].kind.MutexKind?))
    case Dying(_, _) => true
    case Dead => true
  }

  lemma {:induction false} UpdNextTold(w: Wait, k: nat, n: nat, ab: bool, t: nat, kinds: seq<Kind>, story: seq<Label>)
    requires 0 < n <= |w.refs| && k <= n
    requires if w.TakesAll() then story == [Grab(t, Reads(w.refs))]
             else story == [Grab(t, [w.refs[n - 1].o])] && Consumable(w.refs[n - 1].kind) &&
                  (ab ==> w.refs[n - 1].kind.MutexKind?)
    ensures Told(UpdNext(w, k, n, ab), t, kinds, story)
    decreases n - k
  {
    if k < n && !Consumable(w.refs[k].kind) {
      UpdNextTold(w, k + 1, n, ab, t, kinds, story);
    }
  }

  lemma {:induction false} GrabNextTold(w: Wait, i: nat, t: nat, kinds: seq<Kind>)
    requires i <= |w.refs| && w.TakesAll()
    ensures Told(GrabNext(w, i), t, kinds, Visible(GrabLabel(w, i, t)))
    decreases |w.refs| - i
  {
    if i == |w.refs| {
      UpdNextTold(w, 0, |w.refs|, false, t, kinds, [Grab(t, Reads(w.refs))]);
    } else if !Consumable(w.refs[i].kind) {
      GrabNextTold(w, i + 1, t, kinds);
    }
  }

  lemma {:induction false} AllTold(pc: Pc, obj: Object, t: nat, c: Choice, kinds: seq<Kind>)
    requires CanTouch(pc, obj) && pc.InAll? && pc.w.TakesAll()
    ensures var r := TouchAll(pc, obj, t, c); Told(r.pc, t, kinds, Visible(r.act))
  {
    if pc.all.Check? {
      GrabNextTold(pc.w, 0, t, kinds);
    } else if pc.all.GrabTid? || pc.all.GrabRead? {
      GrabNextTold(pc.w, pc.i + 1, t, kinds);
    }
  }

  lemma {:induction false} UpdateTold(pc: Pc, obj: Object, t: nat, kinds: seq<Kind>, story: seq<Label>)
    requires CanTouch(pc, obj) && pc.Updating? && Told(pc, t, kinds, story)
    requires !pc.w.TakesAll() ==> pc.n == pc.k + 1
    ensures var r := TouchUpdate(pc, obj, t); r.act.Tau? && Told(r.pc, t, kinds, story)
  {
    if !obj.Mutex? || pc.upd.UpdStore? {
      UpdNextTold(pc.w, pc.k + 1, pc.n, pc.ab, t, kinds, story);
    }
  }

  lemma {:induction false} AnyTold(pc: Pc, obj: Object, t: nat, kinds: seq<Kind>)
    requires CanTouch(pc, obj) && pc.InAny? && !pc.w.TakesAll()
    ensures var r := TouchAny(pc, obj, t); Told(r.pc, t, kinds, Visible(r.act))
  {
  }

  lemma {:induction false} TouchTold(pc: Pc, obj: Object, t: nat, c: Choice, kinds: seq<Kind>, story: seq<Label>)
    requires WfPc(pc, kinds) && CanTouch(pc, obj) && KindOf(obj) == kinds[Focus(pc)] && Told(pc, t, kinds, story)
    ensures var r := Touch(pc, obj, t, c, |kinds|); Told(r.pc, t, kinds, story + Visible(r.act))
  {
    var r := Touch(pc, obj, t, c, |kinds|);
    assert story + [] == story;
    assert story == [] ==> story + Visible(r.act) == Visible(r.act);
    match pc {
      case InAny(_, _, _) => AnyTold(pc, obj, t, kinds);
      case InAll(_, _, _) => AllTold(pc, obj, t, c, kinds);
      case Updating(_, _, _, _, _) => UpdateTold(pc, obj, t, kinds, story);
      case _ =>
    }
  }

  lemma {:induction false} ThinkTold(pc: Pc, t: nat, c: Choice, kinds: seq<Kind>, story: seq<Label>)
    requires InRange(pc) && !Focused(pc) && Told(pc, t, kinds, story)
    ensures var pc' := Think(pc, c, kinds);
            Told(pc', t, kinds, if pc.Idle? && pc' != pc then [] else story)
  {
  }

  /** Outside wait-alls, nothing happens to the eventfd of an event but by a visible action. */
  lemma {:induction false} EventsHaveNoSecrets(s: State, t: nat, c: Choice, x: nat)
    requires Wf(s) && t < |s.threads| && x < |s.objs| && s.objs[x].Event? && !s.threads[t].InAll?
    requires Step(s, t, c).act.Tau?
    ensures |Step(s, t, c).state.objs| == |s.objs| && Step(s, t, c).state.objs[x].fd == s.objs[x].fd
  {
    assert WfPc(s.threads[t], KindsOf(s.objs));
  }

  /** Every call of every thread, under every schedule, has taken exactly the visible actions that
      its place in the code, and at last its return value, stands for. */
  lemma {:induction false} CallsDoWhatTheyReturn(s: State, sched: seq<Move>, t: nat)
    requires Init(s) && Schedules(sched, |s.threads|) && t < |s.threads|
    ensures Wf(s)
    ensures Told(Exec(s, sched).state.threads[t], t, KindsOf(s.objs), Story(s, sched, t))
  {
    if sched != [] {
      var n := |sched| - 1;
      CallsDoWhatTheyReturn(s, sched[..n], t);
      var before := Exec(s, sched[..n]).state;
      var pc := before.threads[t];
      SameShapeKinds(s.objs, before.objs);
      if sched[n].t == t {
        if Focused(pc) {
          TouchTold(pc, before.objs[Focus(pc)], t, sched[n].c, KindsOf(before.objs), Story(s, sched[..n], t));
        } else {
          ThinkTold(pc, t, sched[n].c, KindsOf(before.objs), Story(s, sched[..n], t));
          assert Story(s, sched[..n], t) + [] == Story(s, sched[..n], t);
        }
      }
    }
  }
}
