/** Whether a call's answer is true: each status a call returns is backed by something its
    thread saw in a shared object during that call. */
module EsyncAnswers {
  import opened EsyncModel
  import opened EsyncInvariants
  import opened EsyncSteps
  import opened EsyncRuns

  /** What a thread saw when it touched an object. */
  datatype Look = Look(o: nat, obj: Object)

  datatype Fact =
    | CanRead | CannotRead | HintOn
    | Mine(t: nat) | NotMine(t: nat) | WasAbandoned | NotAbandoned
    | Room(n: nat) | NoRoom(n: nat)

  predicate Shows(fact: Fact, obj: Object) {
    match fact
    case CanRead => obj.fd > 0
    case CannotRead => obj.fd == 0
    case HintOn => obj.Event? && obj.signaled
    case Mine(t) => obj.Mutex? && obj.tid == Thread(t)
    case NotMine(t) => obj.Mutex? && obj.tid != Thread(t)
    case WasAbandoned => obj.Mutex? && obj.tid.Abandoned?
    case NotAbandoned => obj.Mutex? && !obj.tid.Abandoned?
    case Room(n) => obj.Semaphore? && ToUlong(n + ToUlong(obj.count)) <= obj.max
    case NoRoom(n) => obj.Semaphore? && ToUlong(n + ToUlong(obj.count)) > obj.max
  }

  ghost predicate Saw(looks: seq<Look>, o: nat, fact: Fact) {
    exists k :: 0 <= k < |looks| && looks[k].o == o && Shows(fact, looks[k].obj)
  }

  ghost predicate SawAll(looks: seq<Look>, refs: seq<Ref>, fact: Fact) {
    forall j :: 0 <= j < |refs| ==> Saw(looks, refs[j].o, fact)
  }

  /** Some listed mutex was found abandoned. */
  ghost predicate SawAbandoned(looks: seq<Look>, refs: seq<Ref>) {
    exists j :: 0 <= j < |refs| && refs[j].kind.MutexKind? && Saw(looks, refs[j].o, WasAbandoned)
  }

  /** Every listed mutex was found not abandoned. */
  ghost predicate SawNoneAbandoned(looks: seq<Look>, refs: seq<Ref>) {
    forall j :: 0 <= j < |refs| && refs[j].kind.MutexKind? ==> Saw(looks, refs[j].o, NotAbandoned)
  }

  /** What thread t has seen since its current, or last, call began. */
  function Looks(s: State, sched: seq<Move>, t: nat): seq<Look>
    requires Wf(s) && Schedules(sched, |s.threads|) && t < |s.threads|
  {
    if sched == [] then []
    else
      var n := |sched| - 1;
      var before := Exec(s, sched[..n]).state;
      var seen := Looks(s, sched[..n], t);
      var pc := before.threads[t];
      if sched[n].t != t then seen
      else if Focused(pc) then
        assert WfPc(pc, KindsOf(before.objs));
        seen + [Look(Focus(pc), before.objs[Focus(pc)])]
      else if pc.Idle? && Think(pc, sched[n].c, KindsOf(before.objs)) != pc then []
      else seen
  }

  // ----- What backs an answer -----

  ghost predicate JustWait(w: Wait, status: Status, t: nat, looks: seq<Look>) {
    match status
    case Index(i) =>
      && i < |w.refs|
      && (var o := w.refs[i].o;
          match w.refs[i].kind
          case ManualKind => Saw(looks, o, CanRead) || Saw(looks, o, HintOn)
          case MutexKind => Saw(looks, o, Mine(t)) || (Saw(looks, o, CanRead) && Saw(looks, o, NotAbandoned))
          case _ => Saw(looks, o, CanRead))
    case AbandonedIndex(i) =>
      i < |w.refs| && Saw(looks, w.refs[i].o, CanRead) && Saw(looks, w.refs[i].o, WasAbandoned)
    case AllSignaled => SawAll(looks, w.refs, CanRead) && SawNoneAbandoned(looks, w.refs)
    case AllSignaledAbandoned => SawAll(looks, w.refs, CanRead) && SawAbandoned(looks, w.refs)
    case TimedOut =>
      if w.TakesAll() then exists j :: 0 <= j < |w.refs| && Saw(looks, w.refs[j].o, CannotRead)
      else SawAll(looks, w.refs, CannotRead)
    case _ => true
  }

  ghost predicate JustReturn(call: Call, status: Status, t: nat, looks: seq<Look>) {
    match call
    case WaitFor(w) => JustWait(w, status, t, looks)
    case ReleaseSemaphore(o, n) => Saw(looks, o, if status.Success? then Room(n) else NoRoom(n))
    case ReleaseMutex(o) => Saw(looks, o, if status.Success? then Mine(t) else NotMine(t))
    case _ => true
  }

  /** What the update loop at position k has to show. */
  ghost predicate JustUpdate(w: Wait, k: nat, n: nat, ab: bool, looks: seq<Look>) {
    && 0 < n <= |w.refs| && k <= n
    && (if w.TakesAll() then
          && n == |w.refs| && SawAll(looks, w.refs, CanRead)
          && (if ab then SawAbandoned(looks, w.refs[..k]) else SawNoneAbandoned(looks, w.refs[..k]))
        else
          && n <= k + 1 && Saw(looks, w.refs[n - 1].o, CanRead)
          && (if ab then k == n && Saw(looks, w.refs[n - 1].o, WasAbandoned)
              else k == n && w.refs[n - 1].kind.MutexKind? ==> Saw(looks, w.refs[n - 1].o, NotAbandoned)))
  }

  ghost predicate Just(pc: Pc, t: nat, looks: seq<Look>) {
    match pc
    case Idle(last) => last.Nothing? || JustReturn(last.call, last.status, t, looks)
    case Releasing(o, n, sem) => sem.SemLoad? || Saw(looks, o, Room(n))
    case Unlocking(o, mtx) => mtx.MtxTid? || Saw(looks, o, Mine(t))
    case Polling(w, ready) =>
      |ready| <= |w.refs| &&
      forall j :: 0 <= j < |ready| ==> Saw(looks, w.refs[j].o, if ready[j] then CanRead else CannotRead)
    case InAny(w, i, any) => i < |w.refs| && (
      match any
      case Take(ready) =>
        |ready| == |w.refs| && forall j :: 0 <= j < |ready| && ready[j] ==> Saw(looks, w.refs[j].o, CanRead)
      case RecLoad => Saw(looks, w.refs[i].o, Mine(t))
      case RecStore(_) => Saw(looks, w.refs[i].o, Mine(t))
      case _ => true)
    case InAll(w, i, all) => i < |w.refs| && (
      match all
      case AllTid => true
      case AllPoll => true
      case Check(ok) => ok ==> SawAll(looks, w.refs[..i], CanRead)
      case _ => SawAll(looks, w.refs, CanRead))
    case Updating(w, k, n, ab, upd) => k < n && JustUpdate(w, if upd.UpdFirst? then k else k + 1, n, ab, looks)
    case _ => true
  }

  // ----- Seeing more -----

  lemma {:induction false} SawMore(looks: seq<Look>, l: Look, o: nat, fact: Fact)
    requires Saw(looks, o, fact)
    ensures Saw(looks + [l], o, fact)
  {
    var k :| 0 <= k < |looks| && looks[k].o == o && Shows(fact, looks[k].obj);
    assert (looks + [l])[k] == looks[k];
  }

  lemma {:induction false} SawLast(looks: seq<Look>, l: Look, fact: Fact)
    requires Shows(fact, l.obj)
    ensures Saw(looks + [l], l.o, fact)
  {
    assert (looks + [l])[|looks|] == l;
  }

  lemma {:induction false} SawAllMore(looks: seq<Look>, l: Look, refs: seq<Ref>, fact: Fact)
    requires SawAll(looks, refs, fact)
    ensures SawAll(looks + [l], refs, fact)
  {
    forall j | 0 <= j < |refs| ensures Saw(looks + [l], refs[j].o, fact) {
      SawMore(looks, l, refs[j].o, fact);
    }
  }

  lemma {:induction false} AbandonedMore(looks: seq<Look>, l: Look, refs: seq<Ref>)
    ensures SawAbandoned(looks, refs) ==> SawAbandoned(looks + [l], refs)
    ensures SawNoneAbandoned(looks, refs) ==> SawNoneAbandoned(looks + [l], refs)
  {
    if SawAbandoned(looks, refs) {
      var j :| 0 <= j < |refs| && refs[j].kind.MutexKind? && Saw(looks, refs[j].o, WasAbandoned);
      SawMore(looks, l, refs[j].o, WasAbandoned);
    }
    if SawNoneAbandoned(looks, refs) {
      forall j | 0 <= j < |refs| && refs[j].kind.MutexKind? ensures Saw(looks + [l], refs[j].o, NotAbandoned) {
        SawMore(looks, l, refs[j].o, NotAbandoned);
      }
    }
  }

  lemma {:induction false} JustUpdateMore(w: Wait, k: nat, n: nat, ab: bool, looks: seq<Look>, l: Look)
    requires JustUpdate(w, k, n, ab, looks)
    ensures JustUpdate(w, k, n, ab, looks + [l])
  {
    if w.TakesAll() {
      SawAllMore(looks, l, w.refs, CanRead);
      AbandonedMore(looks, l, w.refs[..k]);
    } else {
      var o := w.refs[n - 1].o;
      SawMore(looks, l, o, CanRead);
      if Saw(looks, o, WasAbandoned) {
        SawMore(looks, l, o, WasAbandoned);
      }
      if Saw(looks, o, NotAbandoned) {
        SawMore(looks, l, o, NotAbandoned);
      }
    }
  }

  // ----- The update loop -----

  /** What a finished update loop returns is backed. */
  lemma {:induction false} UpdatedJust(w: Wait, n: nat, ab: bool, t: nat, looks: seq<Look>)
    requires JustUpdate(w, n, n, ab, looks) && Consumable(w.refs[n - 1].kind)
    ensures Just(UpdNext(w, n, n, ab), t, looks)
  {
    assert w.refs[..|w.refs|] == w.refs;
  }

  lemma {:induction false} SkipAbandoned(looks: seq<Look>, refs: seq<Ref>, k: nat)
    requires k < |refs|
    ensures SawAbandoned(looks, refs[..k]) ==> SawAbandoned(looks, refs[..k + 1])
    ensures SawNoneAbandoned(looks, refs[..k]) && !refs[k].kind.MutexKind? ==> SawNoneAbandoned(looks, refs[..k + 1])
    ensures SawNoneAbandoned(looks, refs[..k]) && Saw(looks, refs[k].o, NotAbandoned) ==>
            SawNoneAbandoned(looks, refs[..k + 1])
  {
    if SawAbandoned(looks, refs[..k]) {
      var j :| 0 <= j < k && refs[..k][j].kind.MutexKind? && Saw(looks, refs[..k][j].o, WasAbandoned);
      assert refs[..k + 1][j] == refs[j];
    }
    if SawNoneAbandoned(looks, refs[..k]) {
      assert forall j :: 0 <= j < k ==> refs[..k + 1][j] == refs[..k][j];
    }
  }

  /** The loop goes on from k, skipping what is not updated. */
  lemma {:induction false} UpdNextJust(w: Wait, k: nat, n: nat, ab: bool, t: nat, looks: seq<Look>)
    requires JustUpdate(w, k, n, ab, looks) && w.TakesAll()
    ensures Just(UpdNext(w, k, n, ab), t, looks)
    decreases n - k
  {
    if k == n {
      assert w.refs[..|w.refs|] == w.refs;
    } else if !Consumable(w.refs[k].kind) {
      SkipAbandoned(looks, w.refs, k);
      UpdNextJust(w, k + 1, n, ab, t, looks);
    }
  }

  // ----- One access -----

  lemma {:induction false} SemaphoreJust(pc: Pc, obj: Object, t: nat, looks: seq<Look>)
    requires CanTouch(pc, obj) && pc.Releasing? && Just(pc, t, looks)
    ensures Just(TouchSemaphore(pc, obj).pc, t, looks + [Look(pc.o, obj)])
  {
    var l := Look(pc.o, obj);
    if pc.sem.SemLoad? {
      SawLast(looks, l, if Shows(Room(pc.n), obj) then Room(pc.n) else NoRoom(pc.n));
    } else {
      SawMore(looks, l, pc.o, Room(pc.n));
    }
  }

  lemma {:induction false} MutexJust(pc: Pc, obj: Object, t: nat, looks: seq<Look>)
    requires CanTouch(pc, obj) && pc.Unlocking? && Just(pc, t, looks)
    ensures Just(TouchMutex(pc, obj, t).pc, t, looks + [Look(pc.o, obj)])
  {
    var l := Look(pc.o, obj);
    if pc.mtx.MtxTid? {
      SawLast(looks, l, if obj.tid == Thread(t) then Mine(t) else NotMine(t));
    } else {
      SawMore(looks, l, pc.o, Mine(t));
    }
  }

  lemma {:induction false} PollJust(pc: Pc, obj: Object, t: nat, looks: seq<Look>)
    requires CanTouch(pc, obj) && pc.Polling? && Just(pc, t, looks)
    ensures Just(Polling(pc.w, pc.ready + [obj.fd > 0]), t, looks + [Look(Focus(pc), obj)])
  {
    var l := Look(Focus(pc), obj);
    var ready := pc.ready + [obj.fd > 0];
    forall j | 0 <= j < |ready|
      ensures Saw(looks + [l], pc.w.refs[j].o, if ready[j] then CanRead else CannotRead)
    {
      if j < |pc.ready| {
        SawMore(looks, l, pc.w.refs[j].o, if ready[j] then CanRead else CannotRead);
      } else {
        SawLast(looks, l, if ready[j] then CanRead else CannotRead);
      }
    }
  }

  lemma {:induction false} HintJust(pc: Pc, obj: Object, t: nat, looks: seq<Look>)
    requires CanTouch(pc, obj) && pc.InAny? && (pc.any.Hint? || pc.any.HintCount?)
    ensures Just(TouchAny(pc, obj, t).pc, t, looks + [Look(Focus(pc), obj)])
  {
    var l := Look(Focus(pc), obj);
    if Shows(Mine(t), obj) {
      SawLast(looks, l, Mine(t));
    } else if Shows(HintOn, obj) {
      SawLast(looks, l, HintOn);
    }
  }

  /** A read that succeeds, or the recursion of a mutex already owned. */
  lemma {:induction false} ReadJust(pc: Pc, obj: Object, t: nat, looks: seq<Look>)
    requires CanTouch(pc, obj) && pc.InAny? && !pc.w.TakesAll() && Just(pc, t, looks)
    requires pc.any.TryRead? || pc.any.RecLoad? || pc.any.RecStore?
    ensures Just(TouchAny(pc, obj, t).pc, t, looks + [Look(Focus(pc), obj)])
  {
    var l := Look(Focus(pc), obj);
    if pc.any.TryRead? {
      if obj.fd > 0 {
        SawLast(looks, l, CanRead);
      }
    } else {
      SawMore(looks, l, Focus(pc), Mine(t));
    }
  }

  lemma {:induction false} TakeJust(pc: Pc, obj: Object, t: nat, looks: seq<Look>)
    requires CanTouch(pc, obj) && pc.InAny? && !pc.w.TakesAll() && Just(pc, t, looks) && pc.any.Take?
    ensures Just(TouchAny(pc, obj, t).pc, t, looks + [Look(Focus(pc), obj)])
  {
    var l := Look(Focus(pc), obj);
    var InAny(w, i, any) := pc;
    forall j | 0 <= j < |any.ready| && any.ready[j] ensures Saw(looks + [l], w.refs[j].o, CanRead) {
      SawMore(looks, l, w.refs[j].o, CanRead);
    }
    if obj.fd > 0 {
      SawLast(looks, l, CanRead);
    }
  }

  lemma {:induction false} GrabNextJust(w: Wait, i: nat, t: nat, looks: seq<Look>)
    requires w.TakesAll() && SawAll(looks, w.refs, CanRead)
    ensures Just(GrabNext(w, i), t, looks)
    decreases |w.refs| - i
  {
    if i >= |w.refs| {
      assert w.refs[..0] == [];
      UpdNextJust(w, 0, |w.refs|, false, t, looks);
    } else if !Consumable(w.refs[i].kind) {
      GrabNextJust(w, i + 1, t, looks);
    }
  }

  lemma {:induction false} AllNextJust(w: Wait, i: nat, t: nat, looks: seq<Look>)
    requires |w.refs| > 0
    ensures Just(AllNext(w, i), t, looks)
  {
    assert w.refs[..0] == [];
  }

  lemma {:induction false} WaitAllPollJust(pc: Pc, obj: Object, t: nat, c: Choice, looks: seq<Look>)
    requires CanTouch(pc, obj) && pc.InAll? && pc.w.TakesAll() && (pc.all.AllTid? || pc.all.AllPoll?)
    ensures Just(TouchAll(pc, obj, t, c).pc, t, looks + [Look(Focus(pc), obj)])
  {
    var l := Look(Focus(pc), obj);
    AllNextJust(pc.w, pc.i + 1, t, looks + [l]);
    if obj.fd == 0 {
      SawLast(looks, l, CannotRead);
      assert Saw(looks + [l], pc.w.refs[pc.i].o, CannotRead);
    }
  }

  lemma {:induction false} CheckJust(pc: Pc, obj: Object, t: nat, c: Choice, looks: seq<Look>)
    requires CanTouch(pc, obj) && pc.InAll? && pc.w.TakesAll() && pc.all.Check? && Just(pc, t, looks)
    ensures Just(TouchAll(pc, obj, t, c).pc, t, looks + [Look(Focus(pc), obj)])
  {
    var l := Look(Focus(pc), obj);
    var InAll(w, i, all) := pc;
    AllNextJust(w, 0, t, looks + [l]);
    if all.ok && obj.fd > 0 {
      SawAllMore(looks, l, w.refs[..i], CanRead);
      SawLast(looks, l, CanRead);
      SawAllNext(looks + [l], w.refs, i, CanRead);
      if i + 1 == |w.refs| {
        assert w.refs[..i + 1] == w.refs;
        GrabNextJust(w, 0, t, looks + [l]);
      }
    }
  }

  lemma {:induction false} SawAllNext(looks: seq<Look>, refs: seq<Ref>, i: nat, fact: Fact)
    requires i < |refs| && SawAll(looks, refs[..i], fact) && Saw(looks, refs[i].o, fact)
    ensures SawAll(looks, refs[..i + 1], fact)
  {
    var front := refs[..i + 1];
    forall j | 0 <= j < |front| ensures Saw(looks, front[j].o, fact) {
      assert j < i ==> front[j] == refs[..i][j];
    }
  }

  lemma {:induction false} GrabJust(pc: Pc, obj: Object, t: nat, c: Choice, looks: seq<Look>)
    requires CanTouch(pc, obj) && pc.InAll? && pc.w.TakesAll() && Just(pc, t, looks)
    requires !pc.all.AllTid? && !pc.all.AllPoll? && !pc.all.Check?
    ensures Just(TouchAll(pc, obj, t, c).pc, t, looks + [Look(Focus(pc), obj)])
  {
    var looks' := looks + [Look(Focus(pc), obj)];
    SawAllMore(looks, Look(Focus(pc), obj), pc.w.refs, CanRead);
    GrabNextJust(pc.w, pc.i + 1, t, looks');
    AllNextJust(pc.w, 0, t, looks');
  }

  /** A mutex is asked whether it was abandoned before its owner is overwritten. */
  lemma {:induction false} AskedJust(w: Wait, k: nat, n: nat, ab: bool, obj: Object, looks: seq<Look>)
    requires JustUpdate(w, k, n, ab, looks) && k < n && w.refs[k].kind.MutexKind? && obj.Mutex?
    ensures JustUpdate(w, k + 1, n, ab || obj.tid.Abandoned?, looks + [Look(w.refs[k].o, obj)])
  {
    var l := Look(w.refs[k].o, obj);
    var looks' := looks + [l];
    JustUpdateMore(w, k, n, ab, looks, l);
    SkipAbandoned(looks', w.refs, k);
    if obj.tid.Abandoned? {
      SawLast(looks, l, WasAbandoned);
      assert w.refs[..k + 1][k] == w.refs[k];
    } else {
      SawLast(looks, l, NotAbandoned);
    }
  }

  /** The last access for one entry. */
  lemma {:induction false} EntryDoneJust(w: Wait, k: nat, n: nat, ab: bool, t: nat, looks: seq<Look>)
    requires JustUpdate(w, k + 1, n, ab, looks) && Consumable(w.refs[k].kind) && (!w.TakesAll() ==> n == k + 1)
    ensures Just(UpdNext(w, k + 1, n, ab), t, looks)
  {
    if w.TakesAll() {
      UpdNextJust(w, k + 1, n, ab, t, looks);
    } else {
      UpdatedJust(w, n, ab, t, looks);
    }
  }

  lemma {:induction false} PlainEntryJust(w: Wait, k: nat, n: nat, ab: bool, looks: seq<Look>)
    requires JustUpdate(w, k, n, ab, looks) && k < n && !w.refs[k].kind.MutexKind?
    ensures JustUpdate(w, k + 1, n, ab, looks)
  {
    SkipAbandoned(looks, w.refs, k);
  }

  lemma {:induction false} UpdateJust(pc: Pc, obj: Object, t: nat, looks: seq<Look>)
    requires CanTouch(pc, obj) && pc.Updating? && Just(pc, t, looks) && (!pc.w.TakesAll() ==> pc.n == pc.k + 1)
    ensures Just(TouchUpdate(pc, obj, t).pc, t, looks + [Look(Focus(pc), obj)])
  {
    var l := Look(Focus(pc), obj);
    var Updating(w, k, n, ab, upd) := pc;
    if upd.UpdFirst? && obj.Mutex? {
      AskedJust(w, k, n, ab, obj, looks);
    } else if upd.UpdFirst? {
      JustUpdateMore(w, k, n, ab, looks, l);
      PlainEntryJust(w, k, n, ab, looks + [l]);
      EntryDoneJust(w, k, n, ab, t, looks + [l]);
    } else {
      JustUpdateMore(w, k + 1, n, ab, looks, l);
      EntryDoneJust(w, k, n, ab, t, looks + [l]);
    }
  }

  lemma {:induction false} TouchJust(pc: Pc, obj: Object, t: nat, c: Choice, kinds: seq<Kind>, looks: seq<Look>)
    requires WfPc(pc, kinds) && CanTouch(pc, obj) && Just(pc, t, looks)
    ensures Just(Touch(pc, obj, t, c, |kinds|).pc, t, looks + [Look(Focus(pc), obj)])
  {
    match pc {
      case Releasing(_, _, _) => SemaphoreJust(pc, obj, t, looks);
      case Unlocking(_, _) => MutexJust(pc, obj, t, looks);
      case Polling(_, _) => PollJust(pc, obj, t, looks);
      case InAny(_, _, any) =>
        if any.Hint? || any.HintCount? {
          HintJust(pc, obj, t, looks);
        } else if any.Take? {
          TakeJust(pc, obj, t, looks);
        } else {
          ReadJust(pc, obj, t, looks);
        }
      case InAll(_, _, all) =>
        if all.AllTid? || all.AllPoll? {
          WaitAllPollJust(pc, obj, t, c, looks);
        } else if all.Check? {
          CheckJust(pc, obj, t, c, looks);
        } else {
          GrabJust(pc, obj, t, c, looks);
        }
      case Updating(_, _, _, _, _) => UpdateJust(pc, obj, t, looks);
      case _ =>
    }
  }

  // ----- Steps that touch nothing -----

  lemma {:induction false} ThinkJust(pc: Pc, t: nat, c: Choice, kinds: seq<Kind>, looks: seq<Look>)
    requires InRange(pc) && !Focused(pc) && WaitOk(pc, kinds) && Just(pc, t, looks)
    ensures var pc' := Think(pc, c, kinds);
            Just(pc', t, if pc.Idle? && pc' != pc then [] else looks)
  {
    if pc.Polling? && true !in pc.ready {
      forall j | 0 <= j < |pc.w.refs| ensures Saw(looks, pc.w.refs[j].o, CannotRead) {
        assert !pc.ready[j];
      }
    } else if pc.Idle? && c.Start? && c.call.WaitFor? && c.call.w.TakesAll() {
      AllNextJust(c.call.w, 0, t, []);
    }
  }

  /** Every answer of every call, under every schedule, is backed by what the calling thread saw
      during the call: success by every reported object having been signaled when it looked, or
      owned; "abandoned" by a mutex found abandoned, and its absence by none; a timeout by
      objects found unsignaled; a refused release by no room, or by another owner. */
  lemma {:induction false} AnswersAreJust(s: State, sched: seq<Move>, t: nat)
    requires Init(s) && Schedules(sched, |s.threads|) && t < |s.threads|
    ensures Wf(s)
    ensures Just(Exec(s, sched).state.threads[t], t, Looks(s, sched, t))
  {
    if sched != [] {
      var n := |sched| - 1;
      AnswersAreJust(s, sched[..n], t);
      var before := Exec(s, sched[..n]).state;
      var pc := before.threads[t];
      var kinds := KindsOf(before.objs);
      assert WfPc(pc, kinds);
      if sched[n].t == t {
        if Focused(pc) {
          TouchJust(pc, before.objs[Focus(pc)], t, sched[n].c, kinds, Looks(s, sched[..n], t));
        } else {
          ThinkJust(pc, t, sched[n].c, kinds, Looks(s, sched[..n], t));
        }
      }
    }
  }
}
