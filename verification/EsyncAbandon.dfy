/** Abandoned mutexes: a wait that succeeds says "abandoned" exactly if, of the mutexes it
    grabbed, one had been abandoned by its last holder and not been grabbed since. */
module EsyncAbandon {
  import opened EsyncModel
  import opened EsyncInvariants
  import opened EsyncSteps
  import opened EsyncRuns
  import opened EsyncSpec

  // ----- The history of a mutex -----

  predicate Concerns(act: Label, x: nat) {
    match act
    case Grab(_, os) => Count(os, x) > 0
    case Recur(_, o) => o == x
    case Unlock(_, o) => o == x
    case Abandon(_, o) => o == x
    case _ => false
  }

  /** The last thing that happened to mutex x, Tau if nothing did. */
  function Latest(acts: seq<Label>, x: nat): Label {
    if acts == [] then Tau
    else if Concerns(acts[|acts| - 1], x) then acts[|acts| - 1]
    else Latest(acts[..|acts| - 1], x)
  }

  /** The last grab of x was the first thing to happen to it after it was abandoned. */
  predicate Bequeathed(acts: seq<Label>, x: nat) {
    acts != [] &&
      var n := |acts| - 1;
      if Concerns(acts[n], x) && acts[n].Grab? then Latest(acts[..n], x).Abandon? else Bequeathed(acts[..n], x)
  }

  /** What the history says about the holder. */
  predicate Remembers(h: Holder, latest: Label, bequeathed: bool) {
    match latest
    case Grab(t, _) => h == Held(t, 1, bequeathed)
    case Recur(t, _) => h.Held? && h.t == t
    case Abandon(_, _) => h == Free(true)
    case _ => h.Free? ==> !h.abandoned
  }

  lemma {:induction false} HistoryTells(objs: seq<Object>, acts: seq<Label>, wild: set<nat>, x: nat)
    requires x < |objs| && objs[x].Mutex? && x !in wild && SpecAllows(SpecInit(objs), acts, objs, wild)
    ensures Remembers(SpecExec(SpecInit(objs), acts).holder[x], Latest(acts, x), Bequeathed(acts, x))
  {
    if acts != [] {
      var n := |acts| - 1;
      HistoryTells(objs, acts[..n], wild, x);
      assert MutexEnabled(SpecExec(SpecInit(objs), acts[..n]).holder[x], acts[n], x);
    }
  }

  lemma {:induction false} HistoryGrows(acts: seq<Label>, act: Label, x: nat)
    ensures Latest(acts + [act], x) == if Concerns(act, x) then act else Latest(acts, x)
    ensures Bequeathed(acts + [act], x) ==
            if Concerns(act, x) && act.Grab? then Latest(acts, x).Abandon? else Bequeathed(acts, x)
  {
    assert (acts + [act])[..|acts|] == acts;
  }

  // ----- What a wait knows -----

  /** Thread t grabbed x, and nothing has happened to x since. */
  predicate Got(acts: seq<Label>, x: nat, t: nat) {
    Latest(acts, x).Grab? && Latest(acts, x).t == t
  }

  predicate AllGot(refs: seq<Ref>, lo: nat, hi: nat, acts: seq<Label>, t: nat) {
    forall j :: lo <= j < hi && j < |refs| && refs[j].kind.MutexKind? ==> Got(acts, refs[j].o, t)
  }

  predicate SomeBequeathed(refs: seq<Ref>, lo: nat, hi: nat, acts: seq<Label>) {
    exists j :: lo <= j < hi && j < |refs| && refs[j].kind.MutexKind? && Bequeathed(acts, refs[j].o)
  }

  function First(w: Wait, n: nat): nat
    requires 0 < n
  {
    if w.TakesAll() then 0 else n - 1
  }

  /** What a wait's answer says about the mutexes it names. */
  predicate Reports(w: Wait, status: Status, t: nat, acts: seq<Label>) {
    var all := |w.refs|;
    match status
    case AllSignaled => AllGot(w.refs, 0, all, acts, t) && !SomeBequeathed(w.refs, 0, all, acts)
    case AllSignaledAbandoned => AllGot(w.refs, 0, all, acts, t) && SomeBequeathed(w.refs, 0, all, acts)
    case AbandonedIndex(i) =>
      i < all && w.refs[i].kind.MutexKind? && Got(acts, w.refs[i].o, t) && Bequeathed(acts, w.refs[i].o)
    case Index(i) =>
      i < all && (w.refs[i].kind.MutexKind? ==>
        || (Got(acts, w.refs[i].o, t) && !Bequeathed(acts, w.refs[i].o))
        || Latest(acts, w.refs[i].o) == Recur(t, w.refs[i].o))
    case _ => true
  }

  predicate Updates(w: Wait, k: nat, n: nat, ab: bool, t: nat, acts: seq<Label>) {
    && 0 < n <= |w.refs| && First(w, n) <= k <= n && (w.TakesAll() ==> n == |w.refs|)
    && AllGot(w.refs, First(w, n), n, acts, t)
    && (ab <==> SomeBequeathed(w.refs, First(w, n), k, acts))
  }

  /** Inside the update loop, and after a wait. */
  predicate Flagged(pc: Pc, t: nat, kinds: seq<Kind>, acts: seq<Label>) {
    match pc
    case Updating(w, k, n, ab, upd) =>
      RefsOk(w.refs, kinds) && k < n && Updates(w, if upd.UpdFirst? then k else k + 1, n, ab, t, acts)
    case Idle(Returned(WaitFor(w), status)) => RefsOk(w.refs, kinds) && Reports(w, status, t, acts)
    case _ => true
  }

  lemma {:induction false} UpdNextFlagged(w: Wait, k: nat, n: nat, ab: bool, t: nat, kinds: seq<Kind>, acts: seq<Label>)
    requires RefsOk(w.refs, kinds) && Updates(w, k, n, ab, t, acts) && (!w.TakesAll() ==> k == n)
    ensures Flagged(UpdNext(w, k, n, ab), t, kinds, acts)
    decreases n - k
  {
    if k < n && !Consumable(w.refs[k].kind) {
      UpdNextFlagged(w, k + 1, n, ab, t, kinds, acts);
    }
  }

  // ----- Steps -----

  /** Another thread's action leaves alone what t has locked. */
  lemma {:induction false} OthersKeep(pc: Pc, t: nat, kinds: seq<Kind>, acts: seq<Label>, act: Label)
    requires Flagged(pc, t, kinds, acts)
    requires forall x :: 0 <= x < |kinds| && kinds[x].MutexKind? && Concerns(act, x) ==>
               !Got(acts, x, t) && Latest(acts, x) != Recur(t, x)
    ensures Flagged(pc, t, kinds, acts + [act])
  {
    forall x
      ensures !Concerns(act, x) ==>
                Latest(acts + [act], x) == Latest(acts, x) && Bequeathed(acts + [act], x) == Bequeathed(acts, x)
    {
      HistoryGrows(acts, act, x);
    }
  }

  lemma {:induction false} MultAt(refs: seq<Ref>, j: nat)
    requires j < |refs| && Consumable(refs[j].kind)
    ensures Mult(refs, refs[j].o) >= 1
  {
    if j < |refs| - 1 {
      MultAt(refs[..|refs| - 1], j);
    }
  }

  /** A grab takes every mutex of the list, and is the latest thing to happen to each. */
  lemma {:induction false} GrabGets(w: Wait, t: nat, acts: seq<Label>)
    ensures AllGot(w.refs, 0, |w.refs|, acts + [Grab(t, Reads(w.refs))], t)
  {
    var acts' := acts + [Grab(t, Reads(w.refs))];
    forall j | 0 <= j < |w.refs| && w.refs[j].kind.MutexKind? ensures Got(acts', w.refs[j].o, t) {
      MultAt(w.refs, j);
      CountReads(w.refs, w.refs[j].o);
      HistoryGrows(acts, Grab(t, Reads(w.refs)), w.refs[j].o);
    }
  }

  lemma {:induction false} GrabNextFlagged(w: Wait, i: nat, t: nat, kinds: seq<Kind>, acts: seq<Label>)
    requires i <= |w.refs| && w.TakesAll() && RefsOk(w.refs, kinds)
    ensures Flagged(GrabNext(w, i), t, kinds, acts + [GrabLabel(w, i, t)])
    decreases |w.refs| - i
  {
    if i == |w.refs| {
      GrabGets(w, t, acts);
      UpdNextFlagged(w, 0, |w.refs|, false, t, kinds, acts + [Grab(t, Reads(w.refs))]);
    } else if !Consumable(w.refs[i].kind) {
      GrabNextFlagged(w, i + 1, t, kinds, acts);
    }
  }

  lemma {:induction false} AllFlagged(pc: Pc, obj: Object, t: nat, c: Choice, kinds: seq<Kind>, acts: seq<Label>)
    requires CanTouch(pc, obj) && pc.InAll? && WaitOk(pc, kinds)
    ensures var r := TouchAll(pc, obj, t, c); Flagged(r.pc, t, kinds, acts + [r.act])
  {
    if pc.all.Check? {
      GrabNextFlagged(pc.w, 0, t, kinds, acts);
    } else if pc.all.GrabTid? || pc.all.GrabRead? {
      GrabNextFlagged(pc.w, pc.i + 1, t, kinds, acts);
    }
  }

  lemma {:induction false} AnyFlagged(pc: Pc, obj: Object, t: nat, kinds: seq<Kind>, acts: seq<Label>)
    requires CanTouch(pc, obj) && pc.InAny? && WaitOk(pc, kinds)
    ensures var r := TouchAny(pc, obj, t); Flagged(r.pc, t, kinds, acts + [r.act])
  {
    if pc.any.TryRead? || pc.any.Take? {
      TakeFlagged(pc, obj, t, kinds, acts);
    } else {
      HintFlagged(pc, obj, t, kinds, acts);
    }
  }

  lemma {:induction false} TakeFlagged(pc: Pc, obj: Object, t: nat, kinds: seq<Kind>, acts: seq<Label>)
    requires CanTouch(pc, obj) && pc.InAny? && WaitOk(pc, kinds) && (pc.any.TryRead? || pc.any.Take?)
    ensures var r := TouchAny(pc, obj, t); Flagged(r.pc, t, kinds, acts + [r.act])
  {
    var o := pc.w.refs[pc.i].o;
    CountOne(o, o);
    HistoryGrows(acts, TouchAny(pc, obj, t).act, o);
  }

  lemma {:induction false} HintFlagged(pc: Pc, obj: Object, t: nat, kinds: seq<Kind>, acts: seq<Label>)
    requires CanTouch(pc, obj) && pc.InAny? && WaitOk(pc, kinds) && !pc.any.TryRead? && !pc.any.Take?
    ensures var r := TouchAny(pc, obj, t); Flagged(r.pc, t, kinds, acts + [r.act])
  {
    HistoryGrows(acts, TouchAny(pc, obj, t).act, pc.w.refs[pc.i].o);
  }

  /** The entry asked about is the next to count. */
  lemma {:induction false} AskedFlagged(w: Wait, k: nat, n: nat, ab: bool, t: nat, acts: seq<Label>)
    requires Updates(w, k, n, ab, t, acts) && k < n
    ensures Updates(w, k + 1, n, ab || (w.refs[k].kind.MutexKind? && Bequeathed(acts, w.refs[k].o)), t, acts)
  {
  }

  lemma {:induction false} UpdateFlagged(pc: Pc, obj: Object, t: nat, kinds: seq<Kind>, acts: seq<Label>)
    requires CanTouch(pc, obj) && pc.Updating? && WaitOk(pc, kinds) && Flagged(pc, t, kinds, acts)
    requires pc.upd.UpdFirst? && obj.Mutex? ==> (obj.tid.Abandoned? <==> Bequeathed(acts, Focus(pc)))
    ensures var r := TouchUpdate(pc, obj, t); r.act.Tau? && Flagged(r.pc, t, kinds, acts)
  {
    var Updating(w, k, n, ab, upd) := pc;
    if upd.UpdFirst? {
      AskedFlagged(w, k, n, ab, t, acts);
      if !obj.Mutex? {
        UpdNextFlagged(w, k + 1, n, ab, t, kinds, acts);
      }
    } else if upd.UpdStore? {
      UpdNextFlagged(w, k + 1, n, ab, t, kinds, acts);
    }
  }

  lemma {:induction false} TouchFlagged(pc: Pc, obj: Object, t: nat, c: Choice, kinds: seq<Kind>, acts: seq<Label>)
    requires CanTouch(pc, obj) && WaitOk(pc, kinds) && Flagged(pc, t, kinds, acts)
    requires pc.Updating? && pc.upd.UpdFirst? && obj.Mutex? ==> (obj.tid.Abandoned? <==> Bequeathed(acts, Focus(pc)))
    ensures var r := Touch(pc, obj, t, c, |kinds|); Flagged(r.pc, t, kinds, acts + [r.act])
  {
    match pc {
      case InAny(_, _, _) => AnyFlagged(pc, obj, t, kinds, acts);
      case InAll(_, _, _) => AllFlagged(pc, obj, t, c, kinds, acts);
      case Updating(_, _, _, _, _) =>
        UpdateFlagged(pc, obj, t, kinds, acts);
        OthersKeep(TouchUpdate(pc, obj, t).pc, t, kinds, acts, Tau);
      case _ =>
    }
  }

  lemma {:induction false} ThinkFlagged(pc: Pc, t: nat, c: Choice, kinds: seq<Kind>, acts: seq<Label>)
    requires InRange(pc) && !Focused(pc) && WaitOk(pc, kinds) && Flagged(pc, t, kinds, acts)
    ensures Flagged(Think(pc, c, kinds), t, kinds, acts + [Tau])
  {
    OthersKeep(pc, t, kinds, acts, Tau);
  }

  lemma {:induction false} LabelsOwn(pc: Pc, obj: Object, t: nat, c: Choice, objects: nat)
    requires CanTouch(pc, obj)
    ensures var act := Touch(pc, obj, t, c, objects).act;
            act.Grab? || act.Recur? || act.Unlock? || act.Abandon? ==> act.t == t
  {
  }

  /** While the last thing that happened to x was t's, nobody else can do anything to it. */
  lemma {:induction false} NobodyConcerned(h: Holder, acts: seq<Label>, act: Label, x: nat, t: nat)
    requires Remembers(h, Latest(acts, x), Bequeathed(acts, x)) && MutexEnabled(h, act, x)
    requires Concerns(act, x) && act.t != t
    ensures !Got(acts, x, t) && Latest(acts, x) != Recur(t, x)
  {
  }

  /** Until t has recorded its grab of x, the owner word says whether x was abandoned. */
  lemma {:induction false} RecordTells(s: State, a: Spec, wild: set<nat>, acts: seq<Label>, t: nat)
    requires AllInRange(s.threads) && Rel(s, a, wild) && t < |s.threads| && Wf(s)
    requires var pc := s.threads[t];
             && pc.Updating? && pc.upd.UpdFirst? && Focus(pc) < |s.objs| && s.objs[Focus(pc)].Mutex?
             && Focus(pc) !in wild && Got(acts, Focus(pc), t)
             && Remembers(a.holder[Focus(pc)], Latest(acts, Focus(pc)), Bequeathed(acts, Focus(pc)))
    ensures var x := Focus(s.threads[t]); s.objs[x].tid.Abandoned? <==> Bequeathed(acts, x)
  {
    var pc := s.threads[t];
    assert WfPc(pc, KindsOf(s.objs));
    MultFirst(pc.w.refs, pc.k, pc.n, Focus(pc));
    assert MutexRel(s, a.holder[Focus(pc)], Focus(pc));
  }

  /** The specification's state a describes s, and the history tells a's holders. */
  ghost predicate Knows(s: State, a: Spec, wild: set<nat>, acts: seq<Label>) {
    && Inv(s, wild) && Wf(s) && Rel(s, a, wild)
    && forall x :: 0 <= x < |s.objs| && s.objs[x].Mutex? ==>
         x !in wild && Remembers(a.holder[x], Latest(acts, x), Bequeathed(acts, x))
  }

  lemma {:induction false} OwnStep(s: State, a: Spec, wild: set<nat>, acts: seq<Label>, t: nat, c: Choice)
    requires Knows(s, a, wild, acts) && t < |s.threads|
    requires Flagged(s.threads[t], t, KindsOf(s.objs), acts)
    ensures var r := Step(s, t, c);
            t < |r.state.threads| && Flagged(r.state.threads[t], t, KindsOf(s.objs), acts + [r.act])
  {
    var pc := s.threads[t];
    var kinds := KindsOf(s.objs);
    assert WfPc(pc, kinds);
    if Focused(pc) {
      var obj := s.objs[Focus(pc)];
      if pc.Updating? && pc.upd.UpdFirst? && obj.Mutex? {
        assert Got(acts, pc.w.refs[pc.k].o, t);
        RecordTells(s, a, wild, acts, t);
      }
      TouchFlagged(pc, obj, t, c, kinds, acts);
    } else {
      ThinkFlagged(pc, t, c, kinds, acts);
    }
  }

  lemma {:induction false} OtherStep(s: State, a: Spec, wild: set<nat>, acts: seq<Label>, u: nat, c: Choice, t: nat)
    requires Knows(s, a, wild, acts) && u < |s.threads| && t < |s.threads| && t != u
    requires Flagged(s.threads[t], t, KindsOf(s.objs), acts) && Enabled(a, Step(s, u, c).act, s.objs, wild)
    ensures Flagged(s.threads[t], t, KindsOf(s.objs), acts + [Step(s, u, c).act])
  {
    var kinds, act := KindsOf(s.objs), Step(s, u, c).act;
    assert WfPc(s.threads[u], kinds);
    if Focused(s.threads[u]) {
      LabelsOwn(s.threads[u], s.objs[Focus(s.threads[u])], u, c, |s.objs|);
    }
    forall x | 0 <= x < |kinds| && kinds[x].MutexKind? && Concerns(act, x)
      ensures !Got(acts, x, t) && Latest(acts, x) != Recur(t, x)
    {
      NobodyConcerned(a.holder[x], acts, act, x, t);
    }
    OthersKeep(s.threads[t], t, kinds, acts, act);
  }

  lemma {:induction false} RunKnows(s: State, sched: seq<Move>, wild: set<nat>)
    requires Init(s) && Wf(s) && Schedules(sched, |s.threads|) && Wilds(wild, s.objs) && Tame(sched, s.objs, wild)
    ensures var r := Exec(s, sched); Knows(r.state, SpecExec(SpecInit(s.objs), r.acts), wild, r.acts)
  {
    var r := Exec(s, sched);
    var a := SpecExec(SpecInit(s.objs), r.acts);
    TameRunRefines(s, sched, wild);
    forall x | 0 <= x < |r.state.objs| && r.state.objs[x].Mutex?
      ensures x !in wild && Remembers(a.holder[x], Latest(r.acts, x), Bequeathed(r.acts, x))
    {
      assert KindOf(s.objs[x]) == KindOf(r.state.objs[x]);
      HistoryTells(s.objs, r.acts, wild, x);
    }
  }

  lemma {:induction false} StepFlagged(s: State, a: Spec, wild: set<nat>, acts: seq<Label>, u: nat, c: Choice, t: nat)
    requires Knows(s, a, wild, acts) && u < |s.threads| && t < |s.threads| && TameChoice(c, s.objs, wild)
    requires Flagged(s.threads[t], t, KindsOf(s.objs), acts)
    ensures var r := Step(s, u, c);
            t < |r.state.threads| && Flagged(r.state.threads[t], t, KindsOf(s.objs), acts + [r.act])
  {
    if u == t {
      OwnStep(s, a, wild, acts, t, c);
    } else {
      StepRefines(s, u, c, wild, a);
      OtherStep(s, a, wild, acts, u, c, t);
    }
  }

  lemma {:induction false} LastFlagged(s: State, sched: seq<Move>, t: nat, wild: set<nat>)
    requires Wf(s) && Schedules(sched, |s.threads|) && t < |s.threads| && sched != [] && Tame(sched, s.objs, wild)
    requires var before := Exec(s, sched[..|sched| - 1]);
             && Knows(before.state, SpecExec(SpecInit(s.objs), before.acts), wild, before.acts)
             && Flagged(before.state.threads[t], t, KindsOf(s.objs), before.acts)
    ensures var r := Exec(s, sched); Flagged(r.state.threads[t], t, KindsOf(s.objs), r.acts)
  {
    var n := |sched| - 1;
    var before := Exec(s, sched[..n]);
    assert KindsOf(before.state.objs) == KindsOf(s.objs);
    assert TameChoice(sched[n].c, s.objs, wild);
    StepFlagged(before.state, SpecExec(SpecInit(s.objs), before.acts), wild, before.acts, sched[n].t, sched[n].c, t);
    assert Exec(s, sched).acts == before.acts + [Step(before.state, sched[n].t, sched[n].c).act];
  }

  /** In every run, a wait that succeeded and reports an abandoned mutex holds one, grabbed by
      that wait, that had been abandoned and not been grabbed by anyone since; a wait that
      succeeded and does not report one holds none such.  Wait-alls that failed in between,
      having read the abandoned mutex and put it back, do not matter. */
  lemma {:induction false} AbandonedExactly(s: State, sched: seq<Move>, t: nat)
    requires Init(s) && Schedules(sched, |s.threads|) && t < |s.threads|
    ensures Wf(s)
    ensures var r := Exec(s, sched); Flagged(r.state.threads[t], t, KindsOf(s.objs), r.acts)
  {
    if sched != [] {
      var n := |sched| - 1;
      AbandonedExactly(s, sched[..n], t);
      var wild := Wild(sched, s.objs);
      AlwaysTame(sched, s.objs);
      RunKnows(s, sched[..n], wild);
      LastFlagged(s, sched, t, wild);
    }
  }
}
