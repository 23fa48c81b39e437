/** Where a mutex's owner is recorded.

    Several handles may stand for one mutex, in one process or in several.  Each handle leads
    to a cell that holds the owner and the recursion count; the design first had one cell per
    handle and now has one per mutex, in shared memory.  Here the code of the main model works
    on handles instead of objects, access by access. */
module EsyncHandles {
  import opened EsyncModel
  import opened EsyncInvariants
  import opened EsyncSteps
  import opened EsyncRuns
  import opened EsyncSpec
  import opened EsyncGuarantees

  datatype Cell = Cell(tid: Owner, depth: int)

  /** For each handle, the mutex it stands for and the cell it leads to. */
  datatype Table = Table(mutexOf: seq<nat>, cellOf: seq<nat>, mutexes: nat, cells: nat) {
    predicate Valid() {
      && |mutexOf| == |cellOf|
      && (forall h :: 0 <= h < |mutexOf| ==> mutexOf[h] < mutexes && cellOf[h] < cells)
    }

    predicate IsHandle(h: nat) { h < |mutexOf| }

    function Kinds(): (ks: seq<Kind>)
      ensures |ks| == |mutexOf| && forall h :: 0 <= h < |ks| ==> ks[h] == MutexKind
    {
      seq(|mutexOf|, _ => MutexKind)
    }
  }

  /** The eventfd of each mutex, the cells, and the threads, whose places refer to handles. */
  datatype Desk = Desk(fds: seq<nat>, cells: seq<Cell>, threads: seq<Pc>)

  /** A thread's exit is the server's business, which does not use handles. */
  predicate Local(pc: Pc) { !pc.Dying? && !pc.Dead? }

  predicate Permitted(c: Choice) { c.Start? ==> !c.call.ExitThread? }

  ghost predicate DeskOk(tab: Table, s: Desk) {
    && tab.Valid() && |s.fds| == tab.mutexes && |s.cells| == tab.cells
    && forall t :: 0 <= t < |s.threads| ==> WfPc(s.threads[t], tab.Kinds()) && Local(s.threads[t])
  }

  /** The mutex as it looks through a handle. */
  function View(tab: Table, s: Desk, h: nat): (obj: Object)
    requires tab.Valid() && tab.IsHandle(h) && |s.fds| == tab.mutexes && |s.cells| == tab.cells
    ensures obj.Mutex?
  {
    var cell := s.cells[tab.cellOf[h]];
    Mutex(s.fds[tab.mutexOf[h]], cell.tid, cell.depth)
  }

  datatype DeskStepped = DeskStepped(desk: Desk, act: Label)

  function DeskStep(tab: Table, s: Desk, t: nat, c: Choice): DeskStepped
    requires DeskOk(tab, s) && t < |s.threads|
  {
    var pc := s.threads[t];
    if Focused(pc) then
      var h := Focus(pc);
      var r := Touch(pc, View(tab, s, h), t, c, |tab.mutexOf|);
      var cell := if r.obj.Mutex? then Cell(r.obj.tid, r.obj.depth) else s.cells[tab.cellOf[h]];
      DeskStepped(Desk(s.fds[tab.mutexOf[h] := r.obj.fd], s.cells[tab.cellOf[h] := cell], s.threads[t := r.pc]), r.act)
    else
      DeskStepped(s.(threads := s.threads[t := Think(pc, c, tab.Kinds())]), Tau)
  }

  lemma {:induction false} TouchLocal(pc: Pc, obj: Object, t: nat, c: Choice, kinds: seq<Kind>)
    requires WfPc(pc, kinds) && Focused(pc) && CanTouch(pc, obj) && Local(pc) && obj.Mutex?
    requires forall h :: 0 <= h < |kinds| ==> kinds[h] == MutexKind
    ensures var r := Touch(pc, obj, t, c, |kinds|); r.obj.Mutex? && WfPc(r.pc, kinds) && Local(r.pc)
  {
    TouchWf(pc, obj, t, c, kinds);
    LocalNext(pc, obj, t, c, |kinds|);
  }

  lemma {:induction false} LocalNext(pc: Pc, obj: Object, t: nat, c: Choice, total: nat)
    requires CanTouch(pc, obj) && Local(pc)
    ensures Local(Touch(pc, obj, t, c, total).pc)
  {
    match pc {
      case InAll(w, i, _) =>
        LocalGrab(w, 0);
        LocalGrab(w, i + 1);
      case Updating(w, k, n, ab, _) => LocalUpdate(w, k + 1, n, ab);
      case _ =>
    }
  }

  lemma {:induction false} LocalGrab(w: Wait, i: nat)
    requires |w.refs| > 0
    ensures Local(GrabNext(w, i))
    decreases |w.refs| - i
  {
    if i >= |w.refs| {
      LocalUpdate(w, 0, |w.refs|, false);
    } else if !Consumable(w.refs[i].kind) {
      LocalGrab(w, i + 1);
    }
  }

  lemma {:induction false} LocalUpdate(w: Wait, k: nat, n: nat, ab: bool)
    requires 0 < n <= |w.refs|
    ensures Local(UpdNext(w, k, n, ab))
    decreases n - k
  {
    if k < n && !Consumable(w.refs[k].kind) {
      LocalUpdate(w, k + 1, n, ab);
    }
  }

  lemma {:induction false} DeskStepOk(tab: Table, s: Desk, t: nat, c: Choice)
    requires DeskOk(tab, s) && t < |s.threads| && Permitted(c)
    ensures DeskOk(tab, DeskStep(tab, s, t, c).desk) && |DeskStep(tab, s, t, c).desk.threads| == |s.threads|
  {
    var pc := s.threads[t];
    if Focused(pc) {
      TouchLocal(pc, View(tab, s, Focus(pc)), t, c, tab.Kinds());
    } else {
      ThinkWf(pc, c, tab.Kinds());
    }
  }

  // ----- Runs -----

  datatype DeskRan = DeskRan(desk: Desk, acts: seq<Label>)

  predicate DeskSchedules(sched: seq<Move>, total: nat) {
    forall i :: 0 <= i < |sched| ==> sched[i].t < total && Permitted(sched[i].c)
  }

  function DeskExec(tab: Table, s: Desk, sched: seq<Move>): (r: DeskRan)
    requires DeskOk(tab, s) && DeskSchedules(sched, |s.threads|)
    ensures DeskOk(tab, r.desk) && |r.desk.threads| == |s.threads| && |r.acts| == |sched|
  {
    if sched == [] then DeskRan(s, [])
    else
      var n := |sched| - 1;
      var before := DeskExec(tab, s, sched[..n]);
      DeskStepOk(tab, before.desk, sched[n].t, sched[n].c);
      var next := DeskStep(tab, before.desk, sched[n].t, sched[n].c);
      DeskRan(next.desk, before.acts + [next.act])
  }

  /** Free mutexes and threads that have made no call. */
  function Unused(tab: Table, threads: nat): (s: Desk)
    requires tab.Valid()
    ensures DeskOk(tab, s) && |s.threads| == threads
  {
    Desk(seq(tab.mutexes, _ => 1), seq(tab.cells, _ => Cell(NoOne, 0)), seq(threads, _ => Idle(Nothing)))
  }

  // ----- From handles to mutexes -----

  function MapRef(tab: Table, r: Ref): Ref {
    if r.o < |tab.mutexOf| then r.(o := tab.mutexOf[r.o]) else r
  }

  function MapRefs(tab: Table, refs: seq<Ref>): (m: seq<Ref>)
    ensures |m| == |refs| && forall i :: 0 <= i < |refs| ==> m[i] == MapRef(tab, refs[i])
  {
    seq(|refs|, i requires 0 <= i < |refs| => MapRef(tab, refs[i]))
  }

  function MapWait(tab: Table, w: Wait): Wait { w.(refs := MapRefs(tab, w.refs)) }

  function MapHandle(tab: Table, h: nat): nat { if h < |tab.mutexOf| then tab.mutexOf[h] else h }

  function MapCall(tab: Table, call: Call): Call {
    match call
    case ReleaseSemaphore(o, n) => ReleaseSemaphore(MapHandle(tab, o), n)
    case ReleaseMutex(o) => ReleaseMutex(MapHandle(tab, o))
    case ChangeEvent(o, op) => ChangeEvent(MapHandle(tab, o), op)
    case PulseEvent(o) => PulseEvent(MapHandle(tab, o))
    case WaitFor(w) => WaitFor(MapWait(tab, w))
    case ExitThread => ExitThread
  }

  function MapPc(tab: Table, pc: Pc): Pc {
    match pc
    case Idle(Returned(call, status)) => Idle(Returned(MapCall(tab, call), status))
    case Releasing(o, n, sem) => Releasing(MapHandle(tab, o), n, sem)
    case Unlocking(o, mtx) => Unlocking(MapHandle(tab, o), mtx)
    case Changing(o, op, manual, ev) => Changing(MapHandle(tab, o), op, manual, ev)
    case Pulsing(o, manual, wrote) => Pulsing(MapHandle(tab, o), manual, wrote)
    case Polling(w, ready) => Polling(MapWait(tab, w), ready)
    case InAny(w, i, any) => InAny(MapWait(tab, w), i, any)
    case InAll(w, i, all) => InAll(MapWait(tab, w), i, all)
    case Updating(w, k, n, ab, upd) => Updating(MapWait(tab, w), k, n, ab, upd)
    case _ => pc
  }

  function MapHandles(tab: Table, hs: seq<nat>): (ms: seq<nat>)
    ensures |ms| == |hs| && forall i :: 0 <= i < |hs| ==> ms[i] == MapHandle(tab, hs[i])
  {
    seq(|hs|, i requires 0 <= i < |hs| => MapHandle(tab, hs[i]))
  }

  function MapLabel(tab: Table, act: Label): Label {
    match act
    case Release(o, n) => Release(MapHandle(tab, o), n)
    case Grab(t, os) => Grab(t, MapHandles(tab, os))
    case Recur(t, o) => Recur(t, MapHandle(tab, o))
    case Unlock(t, o) => Unlock(t, MapHandle(tab, o))
    case Abandon(t, o) => Abandon(t, MapHandle(tab, o))
    case SetFd(o) => SetFd(MapHandle(tab, o))
    case ClearFd(o) => ClearFd(MapHandle(tab, o))
    case Tau => Tau
  }

  // ----- The code does with handles what it does with mutexes -----

  lemma {:induction false} MapUpdNext(tab: Table, w: Wait, k: nat, n: nat, ab: bool)
    requires 0 < n <= |w.refs|
    ensures UpdNext(MapWait(tab, w), k, n, ab) == MapPc(tab, UpdNext(w, k, n, ab))
    decreases n - k
  {
    if k < n && !Consumable(w.refs[k].kind) {
      MapUpdNext(tab, w, k + 1, n, ab);
    }
  }

  lemma {:induction false} MapGrabNext(tab: Table, w: Wait, i: nat)
    requires |w.refs| > 0
    ensures GrabNext(MapWait(tab, w), i) == MapPc(tab, GrabNext(w, i))
    ensures NothingLeft(MapWait(tab, w), i) == NothingLeft(w, i)
    decreases |w.refs| - i
  {
    if i >= |w.refs| {
      MapUpdNext(tab, w, 0, |w.refs|, false);
    } else if !Consumable(w.refs[i].kind) {
      MapGrabNext(tab, w, i + 1);
    }
  }

  lemma {:induction false} MapReads(tab: Table, refs: seq<Ref>)
    ensures Reads(MapRefs(tab, refs)) == MapHandles(tab, Reads(refs))
  {
    if refs != [] {
      var n := |refs| - 1;
      MapReads(tab, refs[..n]);
      assert MapRefs(tab, refs)[..n] == MapRefs(tab, refs[..n]);
    }
  }

  lemma {:induction false} MapGrabLabel(tab: Table, w: Wait, i: nat, t: nat)
    requires |w.refs| > 0
    ensures GrabLabel(MapWait(tab, w), i, t) == MapLabel(tab, GrabLabel(w, i, t))
  {
    MapGrabNext(tab, w, i);
    MapReads(tab, w.refs);
  }

  /** What an access to a mutex gives, mapped. */
  ghost predicate Mapped(tab: Table, r: Touched, m: Touched) {
    m.obj == r.obj && m.pc == MapPc(tab, r.pc) && m.act == MapLabel(tab, r.act)
  }

  lemma {:induction false} MapAny(tab: Table, pc: Pc, obj: Object, t: nat)
    requires CanTouch(pc, obj) && pc.InAny? && obj.Mutex?
    ensures CanTouch(MapPc(tab, pc), obj) && Mapped(tab, TouchAny(pc, obj, t), TouchAny(MapPc(tab, pc), obj, t))
  {
    var o := pc.w.refs[pc.i].o;
    assert MapHandles(tab, [o]) == [MapHandle(tab, o)];
  }

  lemma {:induction false} MapGrab(tab: Table, pc: Pc, obj: Object, t: nat, c: Choice)
    requires CanTouch(pc, obj) && pc.InAll? && obj.Mutex? && (pc.all.Check? || pc.all.GrabTid? || pc.all.GrabRead?)
    ensures CanTouch(MapPc(tab, pc), obj) && Mapped(tab, TouchAll(pc, obj, t, c), TouchAll(MapPc(tab, pc), obj, t, c))
  {
    if pc.all.Check? {
      MapCheck(tab, pc, obj, t, c);
    } else {
      MapGrabNext(tab, pc.w, pc.i + 1);
      MapGrabLabel(tab, pc.w, pc.i + 1, t);
    }
  }

  lemma {:induction false} MapCheck(tab: Table, pc: Pc, obj: Object, t: nat, c: Choice)
    requires CanTouch(pc, obj) && pc.InAll? && obj.Mutex? && pc.all.Check?
    ensures CanTouch(MapPc(tab, pc), obj) && Mapped(tab, TouchAll(pc, obj, t, c), TouchAll(MapPc(tab, pc), obj, t, c))
  {
    MapGrabNext(tab, pc.w, 0);
    MapGrabLabel(tab, pc.w, 0, t);
  }

  lemma {:induction false} MapAll(tab: Table, pc: Pc, obj: Object, t: nat, c: Choice)
    requires CanTouch(pc, obj) && pc.InAll? && obj.Mutex?
    ensures CanTouch(MapPc(tab, pc), obj) && Mapped(tab, TouchAll(pc, obj, t, c), TouchAll(MapPc(tab, pc), obj, t, c))
  {
    if pc.all.Check? || pc.all.GrabTid? || pc.all.GrabRead? {
      MapGrab(tab, pc, obj, t, c);
    }
  }

  lemma {:induction false} MapUpdate(tab: Table, pc: Pc, obj: Object, t: nat)
    requires CanTouch(pc, obj) && pc.Updating? && obj.Mutex?
    ensures CanTouch(MapPc(tab, pc), obj) && Mapped(tab, TouchUpdate(pc, obj, t), TouchUpdate(MapPc(tab, pc), obj, t))
  {
    MapUpdNext(tab, pc.w, pc.k + 1, pc.n, pc.ab);
  }

  lemma {:induction false} MapTouch(tab: Table, pc: Pc, obj: Object, t: nat, c: Choice, n: nat, m: nat)
    requires CanTouch(pc, obj) && Local(pc) && obj.Mutex?
    ensures CanTouch(MapPc(tab, pc), obj)
    ensures Mapped(tab, Touch(pc, obj, t, c, n), Touch(MapPc(tab, pc), obj, t, c, m))
    ensures Focus(MapPc(tab, pc)) == MapHandle(tab, Focus(pc))
  {
    match pc {
      case InAny(_, _, _) => MapAny(tab, pc, obj, t);
      case InAll(_, _, _) => MapAll(tab, pc, obj, t, c);
      case Updating(_, _, _, _, _) => MapUpdate(tab, pc, obj, t);
      case _ =>
    }
  }

  function MapChoice(tab: Table, c: Choice): Choice {
    if c.Start? then (if Legal(c.call, tab.Kinds()) then Start(MapCall(tab, c.call)) else Go) else c
  }

  lemma {:induction false} MapLegal(tab: Table, call: Call, kinds: seq<Kind>)
    requires tab.Valid() && Legal(call, tab.Kinds()) && !call.ExitThread?
    requires |kinds| == tab.mutexes && forall m :: 0 <= m < |kinds| ==> kinds[m] == MutexKind
    ensures Legal(MapCall(tab, call), kinds)
    ensures Begin(MapCall(tab, call), kinds) == MapPc(tab, Begin(call, tab.Kinds()))
  {
  }

  lemma {:induction false} MapThink(tab: Table, pc: Pc, c: Choice, kinds: seq<Kind>)
    requires tab.Valid() && InRange(pc) && !Focused(pc) && Local(pc) && Permitted(c)
    requires |kinds| == tab.mutexes && forall m :: 0 <= m < |kinds| ==> kinds[m] == MutexKind
    ensures InRange(MapPc(tab, pc)) && !Focused(MapPc(tab, pc))
    ensures Think(MapPc(tab, pc), MapChoice(tab, c), kinds) == MapPc(tab, Think(pc, c, tab.Kinds()))
  {
    if pc.Idle? && c.Start? && Legal(c.call, tab.Kinds()) {
      MapLegal(tab, c.call, kinds);
    }
  }

  // ----- One cell per mutex: the main model -----

  /** Handles lead to the same cell exactly when they stand for the same mutex. */
  predicate OneCellPerMutex(tab: Table)
    requires tab.Valid()
  {
    forall h, g :: 0 <= h < |tab.mutexOf| && 0 <= g < |tab.mutexOf| ==>
      (tab.mutexOf[h] == tab.mutexOf[g] <==> tab.cellOf[h] == tab.cellOf[g])
  }

  /** Some handle of mutex m, if there is one. */
  ghost function HandleOf(tab: Table, m: nat): (h: nat)
    ensures m in tab.mutexOf ==> h < |tab.mutexOf| && tab.mutexOf[h] == m
  {
    if m in tab.mutexOf then var h :| 0 <= h < |tab.mutexOf| && tab.mutexOf[h] == m; h else 0
  }

  /** A mutex with the cell its handles lead to. */
  ghost function Merged(tab: Table, s: Desk, m: nat): (obj: Object)
    requires tab.Valid() && |s.fds| == tab.mutexes && |s.cells| == tab.cells && m < tab.mutexes
    ensures obj.Mutex?
  {
    if m in tab.mutexOf then View(tab, s, HandleOf(tab, m)) else Mutex(s.fds[m], NoOne, 0)
  }

  ghost function Merge(tab: Table, s: Desk): (r: State)
    requires DeskOk(tab, s)
    ensures |r.objs| == tab.mutexes && forall m :: 0 <= m < tab.mutexes ==> r.objs[m] == Merged(tab, s, m)
    ensures |r.threads| == |s.threads| && forall t :: 0 <= t < |s.threads| ==> r.threads[t] == MapPc(tab, s.threads[t])
  {
    State(seq(tab.mutexes, m requires 0 <= m < tab.mutexes => Merged(tab, s, m)),
          seq(|s.threads|, t requires 0 <= t < |s.threads| => MapPc(tab, s.threads[t])))
  }

  lemma {:induction false} MapPcWf(tab: Table, pc: Pc, kinds: seq<Kind>)
    requires tab.Valid() && WfPc(pc, tab.Kinds()) && Local(pc)
    requires |kinds| == tab.mutexes && forall m :: 0 <= m < |kinds| ==> kinds[m] == MutexKind
    ensures WfPc(MapPc(tab, pc), kinds)
  {
  }

  lemma {:induction false} MergeWf(tab: Table, s: Desk)
    requires DeskOk(tab, s)
    ensures Wf(Merge(tab, s))
  {
    var r := Merge(tab, s);
    forall t | 0 <= t < |r.threads| ensures WfPc(r.threads[t], KindsOf(r.objs)) {
      MapPcWf(tab, s.threads[t], KindsOf(r.objs));
    }
  }

  /** Through every handle the mutex looks the same. */
  lemma {:induction false} ViewMerged(tab: Table, s: Desk, h: nat)
    requires DeskOk(tab, s) && OneCellPerMutex(tab) && tab.IsHandle(h)
    ensures View(tab, s, h) == Merged(tab, s, tab.mutexOf[h])
  {
    assert tab.mutexOf[h] in tab.mutexOf;
  }

  /** A write through handle h changes one mutex. */
  lemma {:induction false} WriteMerged(tab: Table, s: Desk, s': Desk, h: nat, obj: Object, m: nat)
    requires DeskOk(tab, s) && OneCellPerMutex(tab) && tab.IsHandle(h) && obj.Mutex? && m < tab.mutexes
    requires s'.fds == s.fds[tab.mutexOf[h] := obj.fd] && s'.cells == s.cells[tab.cellOf[h] := Cell(obj.tid, obj.depth)]
    ensures Merged(tab, s', m) == if m == tab.mutexOf[h] then obj else Merged(tab, s, m)
  {
    assert tab.mutexOf[h] in tab.mutexOf;
  }

  /** With one cell per mutex, a step on handles is a step of the main model. */
  lemma {:induction false} MergeStep(tab: Table, s: Desk, t: nat, c: Choice)
    requires DeskOk(tab, s) && OneCellPerMutex(tab) && t < |s.threads| && Permitted(c)
    ensures Wf(Merge(tab, s)) && DeskOk(tab, DeskStep(tab, s, t, c).desk)
    ensures var r, m := DeskStep(tab, s, t, c), Step(Merge(tab, s), t, MapChoice(tab, c));
            Merge(tab, r.desk) == m.state && MapLabel(tab, r.act) == m.act
  {
    MergeWf(tab, s);
    DeskStepOk(tab, s, t, c);
    var pc := s.threads[t];
    if Focused(pc) {
      MergeTouch(tab, s, t, c);
    } else {
      MergeThink(tab, s, t, c);
    }
  }

  lemma {:induction false} MergeThink(tab: Table, s: Desk, t: nat, c: Choice)
    requires DeskOk(tab, s) && t < |s.threads| && Permitted(c) && !Focused(s.threads[t])
    requires Wf(Merge(tab, s)) && DeskOk(tab, DeskStep(tab, s, t, c).desk)
    ensures var r, m := DeskStep(tab, s, t, c), Step(Merge(tab, s), t, MapChoice(tab, c));
            Merge(tab, r.desk) == m.state && MapLabel(tab, r.act) == m.act
  {
    var merged := Merge(tab, s);
    var s' := DeskStep(tab, s, t, c).desk;
    MapThink(tab, s.threads[t], c, KindsOf(merged.objs));
    var m := Step(merged, t, MapChoice(tab, c)).state;
    assert Merge(tab, s').objs == m.objs;
    assert Merge(tab, s').threads == m.threads;
  }

  lemma {:induction false} MergeTouch(tab: Table, s: Desk, t: nat, c: Choice)
    requires DeskOk(tab, s) && OneCellPerMutex(tab) && t < |s.threads| && Permitted(c) && Focused(s.threads[t])
    requires Wf(Merge(tab, s)) && DeskOk(tab, DeskStep(tab, s, t, c).desk)
    ensures var r, m := DeskStep(tab, s, t, c), Step(Merge(tab, s), t, MapChoice(tab, c));
            Merge(tab, r.desk) == m.state && MapLabel(tab, r.act) == m.act
  {
    var pc, merged := s.threads[t], Merge(tab, s);
    var h := Focus(pc);
    var r := DeskStep(tab, s, t, c);
    ViewMerged(tab, s, h);
    TouchLocal(pc, View(tab, s, h), t, c, tab.Kinds());
    TouchChoice(pc, View(tab, s, h), t, c, MapChoice(tab, c), |tab.mutexOf|);
    MapTouch(tab, pc, View(tab, s, h), t, MapChoice(tab, c), |tab.mutexOf|, |merged.objs|);
    var obj := Touch(pc, View(tab, s, h), t, c, |tab.mutexOf|).obj;
    var m := Step(merged, t, MapChoice(tab, c)).state;
    forall x | 0 <= x < tab.mutexes ensures Merge(tab, r.desk).objs[x] == m.objs[x] {
      WriteMerged(tab, s, r.desk, h, obj, x);
    }
    assert Merge(tab, r.desk).objs == m.objs;
    assert Merge(tab, r.desk).threads == m.threads;
  }

  /** An access does not look at a call that was to be started. */
  lemma {:induction false} TouchChoice(pc: Pc, obj: Object, t: nat, c: Choice, c': Choice, total: nat)
    requires CanTouch(pc, obj) && (c == c' || (c.Start? && (c'.Start? || c'.Go?)))
    ensures Touch(pc, obj, t, c, total) == Touch(pc, obj, t, c', total)
  {
  }

  function MapSched(tab: Table, sched: seq<Move>): (m: seq<Move>)
    ensures |m| == |sched| && forall i :: 0 <= i < |sched| ==> m[i] == Move(sched[i].t, MapChoice(tab, sched[i].c))
  {
    seq(|sched|, i requires 0 <= i < |sched| => Move(sched[i].t, MapChoice(tab, sched[i].c)))
  }

  function MapLabels(tab: Table, acts: seq<Label>): (m: seq<Label>)
    ensures |m| == |acts| && forall i :: 0 <= i < |acts| ==> m[i] == MapLabel(tab, acts[i])
  {
    seq(|acts|, i requires 0 <= i < |acts| => MapLabel(tab, acts[i]))
  }

  lemma {:induction false} MapSchedules(tab: Table, sched: seq<Move>, total: nat)
    requires DeskSchedules(sched, total)
    ensures Schedules(MapSched(tab, sched), total)
  {
  }

  /** With one cell per mutex, a run on handles is a run of the main model. */
  lemma {:induction false} MergeRun(tab: Table, s: Desk, sched: seq<Move>)
    requires DeskOk(tab, s) && OneCellPerMutex(tab) && DeskSchedules(sched, |s.threads|)
    ensures Wf(Merge(tab, s)) && Schedules(MapSched(tab, sched), |s.threads|)
    ensures var r, m := DeskExec(tab, s, sched), Exec(Merge(tab, s), MapSched(tab, sched));
            Merge(tab, r.desk) == m.state && MapLabels(tab, r.acts) == m.acts
  {
    MergeWf(tab, s);
    MapSchedules(tab, sched, |s.threads|);
    if sched != [] {
      var n := |sched| - 1;
      MergeRun(tab, s, sched[..n]);
      MergeLast(tab, s, sched);
    }
  }

  lemma {:induction false} MergeLast(tab: Table, s: Desk, sched: seq<Move>)
    requires DeskOk(tab, s) && OneCellPerMutex(tab) && DeskSchedules(sched, |s.threads|) && sched != []
    requires Wf(Merge(tab, s)) && Schedules(MapSched(tab, sched), |s.threads|)
    requires var front := sched[..|sched| - 1];
             && Schedules(MapSched(tab, front), |s.threads|)
             && var r, m := DeskExec(tab, s, front), Exec(Merge(tab, s), MapSched(tab, front));
                Merge(tab, r.desk) == m.state && MapLabels(tab, r.acts) == m.acts
    ensures var r, m := DeskExec(tab, s, sched), Exec(Merge(tab, s), MapSched(tab, sched));
            Merge(tab, r.desk) == m.state && MapLabels(tab, r.acts) == m.acts
  {
    var n := |sched| - 1;
    var before := DeskExec(tab, s, sched[..n]);
    MapSchedFront(tab, sched);
    MergeStep(tab, before.desk, sched[n].t, sched[n].c);
    LabelsSnoc(tab, before.acts, DeskStep(tab, before.desk, sched[n].t, sched[n].c).act);
  }

  lemma {:induction false} MapSchedFront(tab: Table, sched: seq<Move>)
    requires sched != []
    ensures var n := |sched| - 1;
            |MapSched(tab, sched)| == n + 1 && MapSched(tab, sched)[..n] == MapSched(tab, sched[..n])
  {
  }

  lemma {:induction false} LabelsSnoc(tab: Table, acts: seq<Label>, act: Label)
    ensures MapLabels(tab, acts + [act]) == MapLabels(tab, acts) + [MapLabel(tab, act)]
  {
  }

  // ----- Whether the answer is right -----

  /** The mutexes as the specification sees them at first. */
  function FreeMutexes(n: nat): (objs: seq<Object>)
    ensures |objs| == n && forall m :: 0 <= m < n ==> objs[m] == Mutex(1, NoOne, 0)
  {
    seq(n, _ => Mutex(1, NoOne, 0))
  }

  /** Who holds mutex m after these actions. */
  function HolderAfter(tab: Table, acts: seq<Label>, m: nat): Holder
    requires m < tab.mutexes
  {
    SpecExec(SpecInit(FreeMutexes(tab.mutexes)), MapLabels(tab, acts)).holder[m]
  }

  /** Where thread t asks through handle h, it gets the right answer. */
  ghost predicate AnswersRight(tab: Table, total: nat, sched: seq<Move>, t: nat, h: nat)
    requires tab.Valid() && DeskSchedules(sched, total) && t < total && tab.IsHandle(h)
  {
    var r := DeskExec(tab, Unused(tab, total), sched);
    var holder := HolderAfter(tab, r.acts, tab.mutexOf[h]);
    AsksOwner(r.desk.threads[t], h) ==> (View(tab, r.desk, h).tid == Thread(t) <==> holder.Held? && holder.t == t)
  }

  /** In every run, wherever a thread asks through a handle. */
  ghost predicate AlwaysRight(tab: Table)
    requires tab.Valid()
  {
    forall total: nat, sched, t: nat, h: nat ::
      DeskSchedules(sched, total) && t < total && tab.IsHandle(h) ==> AnswersRight(tab, total, sched, t, h)
  }

  lemma {:induction false} AsksMapped(tab: Table, pc: Pc, h: nat)
    requires tab.Valid() && WfPc(pc, tab.Kinds()) && Local(pc) && AsksOwner(pc, h) && tab.IsHandle(h)
    ensures AsksOwner(MapPc(tab, pc), tab.mutexOf[h])
  {
  }

  lemma {:induction false} FreshMerged(tab: Table, total: nat)
    requires tab.Valid()
    ensures Merge(tab, Unused(tab, total)).objs == FreeMutexes(tab.mutexes) && Init(Merge(tab, Unused(tab, total)))
  {
    var r := Merge(tab, Unused(tab, total));
    forall m | 0 <= m < tab.mutexes ensures r.objs[m] == Mutex(1, NoOne, 0) {
      assert r.objs[m] == Merged(tab, Unused(tab, total), m);
    }
  }

  /** With one cell per mutex, "is it mine" is answered exactly through every handle, at every place
      where the code asks, under every interleaving of single accesses. */
  lemma {:induction false} SharedCellsExact(tab: Table, total: nat, sched: seq<Move>, t: nat, h: nat)
    requires tab.Valid() && OneCellPerMutex(tab) && DeskSchedules(sched, total) && t < total && tab.IsHandle(h)
    ensures AnswersRight(tab, total, sched, t, h)
  {
    var s := Unused(tab, total);
    var r := DeskExec(tab, s, sched);
    if AsksOwner(r.desk.threads[t], h) {
      FreshMerged(tab, total);
      MergeRun(tab, s, sched);
      AsksMapped(tab, r.desk.threads[t], h);
      OwnershipTestExact(Merge(tab, s), MapSched(tab, sched), t, tab.mutexOf[h]);
      ViewMerged(tab, r.desk, h);
    }
  }

  // ----- Any other assignment of cells -----

  /** A run leads to a state by some actions. */
  ghost predicate DeskLeads(tab: Table, s: Desk, sched: seq<Move>, s': Desk, acts: seq<Label>) {
    DeskOk(tab, s) && DeskSchedules(sched, |s.threads|) && DeskExec(tab, s, sched) == DeskRan(s', acts)
  }

  lemma {:induction false} DeskMore(tab: Table, s: Desk, sched: seq<Move>, s1: Desk, acts: seq<Label>, c: Choice,
                                    s2: Desk, act: Label)
    requires DeskLeads(tab, s, sched, s1, acts) && |s.threads| == 1 && Permitted(c)
    requires DeskOk(tab, s1) && |s1.threads| == 1 && DeskStep(tab, s1, 0, c) == DeskStepped(s2, act)
    ensures DeskLeads(tab, s, sched + [Move(0, c)], s2, acts + [act])
    ensures DeskOk(tab, s2) && |s2.threads| == 1
  {
    assert (sched + [Move(0, c)])[..|sched|] == sched;
    DeskStepOk(tab, s1, 0, c);
  }

  /** Places on the way of a wait on handle h alone, with what its cell and its eventfd say there. */
  function WayPc(w: Wait, i: nat): Pc {
    match i
    case 0 => Idle(Nothing)
    case 1 => InAny(w, 0, Hint)
    case 2 => InAny(w, 0, HintCount)
    case 3 => InAny(w, 0, TryRead)
    case 4 => Updating(w, 0, 1, false, UpdFirst)
    case 5 => Updating(w, 0, 1, false, UpdTid)
    case 6 => Updating(w, 0, 1, false, UpdLoad)
    case 7 => Updating(w, 0, 1, false, UpdStore(0))
    case _ => Return(w, Index(0))
  }

  function WayCell(i: nat): Cell {
    if i <= 5 then Cell(NoOne, 0) else if i <= 7 then Cell(Thread(0), 0) else Cell(Thread(0), 1)
  }

  function Way(tab: Table, h: nat, i: nat): Desk
    requires tab.Valid() && tab.IsHandle(h)
  {
    var s := Unused(tab, 1);
    Desk(s.fds[tab.mutexOf[h] := if i <= 3 then 1 else 0], s.cells[tab.cellOf[h] := WayCell(i)],
         [WayPc(Wait([Ref(h, MutexKind)], false, false), i)])
  }

  function WayChoice(h: nat, i: nat): Choice {
    if i == 0 then Start(WaitFor(Wait([Ref(h, MutexKind)], false, false))) else Go
  }

  function WayAct(h: nat, i: nat): Label { if i == 3 then Grab(0, [h]) else Tau }

  lemma {:induction false} WayBegins(tab: Table, h: nat)
    requires tab.Valid() && tab.IsHandle(h)
    ensures Way(tab, h, 0) == Unused(tab, 1)
  {
    var s := Unused(tab, 1);
    assert s.fds[tab.mutexOf[h] := 1] == s.fds && s.cells[tab.cellOf[h] := Cell(NoOne, 0)] == s.cells;
  }

  lemma {:induction false} WayStep(tab: Table, h: nat, i: nat)
    requires tab.Valid() && tab.IsHandle(h) && i < 8 && DeskOk(tab, Way(tab, h, i))
    ensures Permitted(WayChoice(h, i))
    ensures DeskStep(tab, Way(tab, h, i), 0, WayChoice(h, i)) == DeskStepped(Way(tab, h, i + 1), WayAct(h, i))
  {
    var s := Way(tab, h, i);
    var w := Wait([Ref(h, MutexKind)], false, false);
    assert WfPc(s.threads[0], tab.Kinds());
    if i == 0 {
      assert s.threads[0 := WayPc(w, 1)] == [WayPc(w, 1)];
    } else {
      WayTouch(tab, h, i);
    }
  }

  lemma {:induction false} WayTouch(tab: Table, h: nat, i: nat)
    requires tab.Valid() && tab.IsHandle(h) && 0 < i < 8 && DeskOk(tab, Way(tab, h, i))
    ensures DeskStep(tab, Way(tab, h, i), 0, Go) == DeskStepped(Way(tab, h, i + 1), WayAct(h, i))
  {
    var s, s' := Way(tab, h, i), Way(tab, h, i + 1);
    var r := DeskStep(tab, s, 0, Go);
    assert r.desk.fds == s'.fds;
    assert r.desk.cells == s'.cells;
    assert r.desk.threads == s'.threads;
  }

  function WayMoves(h: nat, n: nat): (sched: seq<Move>)
    ensures |sched| == n
  {
    if n == 0 then [] else WayMoves(h, n - 1) + [Move(0, WayChoice(h, n - 1))]
  }

  function WayActs(h: nat, n: nat): (acts: seq<Label>)
    ensures |acts| == n
  {
    if n == 0 then [] else WayActs(h, n - 1) + [WayAct(h, n - 1)]
  }

  lemma {:induction false} WayLeads(tab: Table, h: nat, n: nat)
    requires tab.Valid() && tab.IsHandle(h) && n <= 8
    ensures DeskLeads(tab, Unused(tab, 1), WayMoves(h, n), Way(tab, h, n), WayActs(h, n)) && DeskOk(tab, Way(tab, h, n))
  {
    if n == 0 {
      WayBegins(tab, h);
    } else {
      var m := n - 1;
      WayLeads(tab, h, m);
      WayStep(tab, h, m);
      DeskMore(tab, Unused(tab, 1), WayMoves(h, m), Way(tab, h, m), WayActs(h, m),
               WayChoice(h, m), Way(tab, h, n), WayAct(h, m));
    }
  }

  /** After that wait, thread 0 holds the mutex of h and no other. */
  lemma {:induction false} WayHolder(tab: Table, h: nat, n: nat, m: nat)
    requires tab.Valid() && tab.IsHandle(h) && m < tab.mutexes
    ensures HolderAfter(tab, WayActs(h, n), m)
            == if n > 3 && m == tab.mutexOf[h] then Held(0, 1, false) else Free(false)
  {
    if n > 0 {
      WayHolder(tab, h, n - 1, m);
      LabelsSnoc(tab, WayActs(h, n - 1), WayAct(h, n - 1));
      var mapped := MapLabels(tab, WayActs(h, n - 1));
      assert (mapped + [MapLabel(tab, WayAct(h, n - 1))])[..n - 1] == mapped;
      assert MapHandles(tab, [h]) == [tab.mutexOf[h]];
      CountOne(tab.mutexOf[h], m);
    }
  }

  /** The answer is right in every run exactly if there is one cell per mutex; two handles with a cell
      each to one mutex, or one cell between two mutexes, are enough for a wrong one. */
  lemma {:induction false} RightExactlyIfShared(tab: Table)
    requires tab.Valid()
    ensures AlwaysRight(tab) <==> OneCellPerMutex(tab)
  {
    if OneCellPerMutex(tab) {
      forall total: nat, sched, t: nat, h: nat | DeskSchedules(sched, total) && t < total && tab.IsHandle(h)
        ensures AnswersRight(tab, total, sched, t, h)
      {
        SharedCellsExact(tab, total, sched, t, h);
      }
    } else {
      var h: nat, g: nat :| h < |tab.mutexOf| && g < |tab.mutexOf| &&
        (tab.mutexOf[h] == tab.mutexOf[g]) != (tab.cellOf[h] == tab.cellOf[g]);
      WayLeads(tab, h, 8);
      WayHolder(tab, h, 8, tab.mutexOf[g]);
      assert !AnswersRight(tab, 1, WayMoves(h, 8), 0, g);
    }
  }
}
