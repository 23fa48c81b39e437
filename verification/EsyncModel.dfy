/** The esync protocol as a state machine.

    A state holds the shared objects (an eventfd counter plus eight bytes of
    shared memory each) and, for every thread, the place it has reached in the
    client code.  One step is one access to one shared object by one thread, so
    a schedule, which is any sequence of (thread, choice) pairs, is an arbitrary
    interleaving at the granularity of single loads, stores, interlocked
    operations and eventfd calls. */
module EsyncModel {

  // ----- Integer widths -----

  const ULONG_RANGE: int := 0x1_0000_0000
  const INT_MAX: int := 0x7FFF_FFFF

  /** Conversion of an `int` to ULONG. */
  function ToUlong(x: int): (r: int)
    ensures 0 <= r < ULONG_RANGE
  {
    x % ULONG_RANGE
  }

  /** Conversion of an integer to LONG. */
  function ToLong(x: int): (r: int)
    ensures -INT_MAX - 1 <= r <= INT_MAX
  {
    var u := x % ULONG_RANGE;
    if u <= INT_MAX then u else u - ULONG_RANGE
  }

  // ----- Shared objects -----

  datatype Kind = SemaphoreKind | MutexKind | AutoKind | ManualKind

  /** The `tid` word of a mutex: 0, ~0, or the id of a thread. */
  datatype Owner = NoOne | Abandoned | Thread(id: nat)

  /** The eventfd counter and the shared-memory record of one object. */
  datatype Object =
    | Semaphore(fd: nat, max: nat, count: int)
    | Mutex(fd: nat, tid: Owner, depth: int)
    | Event(fd: nat, manual: bool, signaled: bool, locked: bool)

  function KindOf(obj: Object): Kind {
    match obj
    case Semaphore(_, _, _) => SemaphoreKind
    case Mutex(_, _, _) => MutexKind
    case Event(_, manual, _, _) => if manual then ManualKind else AutoKind
  }

  /** A kind whose grab reads the eventfd; a manual-reset event is only looked at. */
  predicate Consumable(k: Kind) {
    !k.ManualKind?
  }

  /** What a successful read() leaves: one unit less in EFD_SEMAPHORE mode, nothing otherwise. */
  function AfterRead(obj: Object): (r: Object)
    requires obj.fd > 0
    ensures KindOf(r) == KindOf(obj)
  {
    obj.(fd := if obj.Semaphore? then obj.fd - 1 else 0)
  }

  function AfterWrite(obj: Object, v: nat): (r: Object)
    ensures KindOf(r) == KindOf(obj)
  {
    obj.(fd := obj.fd + v)
  }

  // ----- Calls and results -----

  datatype Ref = Ref(o: nat, kind: Kind)

  datatype Wait = Wait(refs: seq<Ref>, all: bool, alertable: bool) {
    /** Waits on at most one object take the wait-any path. */
    predicate TakesAll() { all && |refs| > 1 }
  }

  /** Setting or resetting an event, from a client or from the server. */
  datatype EventOp = EventOp(on: bool, server: bool)

  datatype Call =
    | ReleaseSemaphore(o: nat, n: nat)
    | ReleaseMutex(o: nat)
    | ChangeEvent(o: nat, op: EventOp)
    | PulseEvent(o: nat)
    | WaitFor(w: Wait)
    | ExitThread

  datatype Status =
    | Success
    | LimitExceeded
    | NotOwned
    | TypeMismatch
    | Index(i: nat)
    | AbandonedIndex(i: nat)
    | AllSignaled
    | AllSignaledAbandoned
    | TimedOut
    | UserApc

  // ----- Places in the code -----

  datatype Last = Nothing | Returned(call: Call, status: Status)

  /** esync_release_semaphore: load, compare-and-swap, write. */
  datatype SemPc = SemLoad | SemCas(cur: int) | SemWrite

  /** esync_release_mutex: test the owner, decrement (load, store), clear the owner, write. */
  datatype MtxPc = MtxTid | MtxLoad | MtxStore(c: int) | MtxClear | MtxWrite

  /** esync_set_event and esync_reset_event: lock, exchange the hint, read or write, unlock. */
  datatype EvPc = EvLock | EvSwap | EvFd | EvUnlock

  /** wait-any: the look at the hints, recursive locking, and the search after poll(). */
  datatype AnyPc = Hint | HintCount | TryRead | RecLoad | RecStore(c: int) | Take(ready: seq<bool>)

  /** wait-all: poll each, check all, grab all, put back. */
  datatype AllPc = AllTid | AllPoll | Check(ok: bool) | GrabTid | GrabRead | BackTid | BackWrite

  /** update_grabbed_object; a mutex takes four accesses. */
  datatype UpdPc = UpdFirst | UpdTid | UpdLoad | UpdStore(c: int)

  /** esync_abandon_mutexes, which the server runs for a thread that has exited. */
  datatype DyPc = DyTest | DyTid | DyCount | DyWrite

  datatype Pc =
    | Idle(last: Last)
    | Releasing(o: nat, n: nat, sem: SemPc)
    | Unlocking(o: nat, mtx: MtxPc)
    | Changing(o: nat, op: EventOp, manual: bool, ev: EvPc)
    | Pulsing(o: nat, manual: bool, wrote: bool)
    | Polling(w: Wait, ready: seq<bool>)
    | InAny(w: Wait, i: nat, any: AnyPc)
    | InAll(w: Wait, i: nat, all: AllPc)
    | Updating(w: Wait, k: nat, n: nat, ab: bool, upd: UpdPc)
    | Dying(o: nat, dy: DyPc)
    | Dead

  /** What a scheduler decides: start a call, go on, or let the poll() in progress
      report a user APC or a timeout. */
  datatype Choice = Go | Start(call: Call) | Apc | Timeout

  /** What a step means to a caller of the API. */
  datatype Label =
    | Tau
    | Release(o: nat, n: nat)
    | Grab(t: nat, os: seq<nat>)
    | Recur(t: nat, o: nat)
    | Unlock(t: nat, o: nat)
    | Abandon(t: nat, o: nat)
    | SetFd(o: nat)
    | ClearFd(o: nat)

  datatype State = State(objs: seq<Object>, threads: seq<Pc>)

  // ----- Local control flow -----

  function Return(w: Wait, s: Status): Pc { Idle(Returned(WaitFor(w), s)) }

  function AnyNext(w: Wait, i: nat): Pc {
    if i < |w.refs| then InAny(w, i, Hint) else Polling(w, [])
  }

  function TakeNext(w: Wait, ready: seq<bool>, i: nat): Pc {
    if i < |w.refs| then InAny(w, i, Take(ready)) else Polling(w, [])
  }

  function AllNext(w: Wait, i: nat): Pc {
    if i >= |w.refs| then InAll(w, 0, Check(true))
    else InAll(w, i, if w.refs[i].kind.MutexKind? then AllTid else AllPoll)
  }

  /** The grab loop skips what it does not read. */
  function GrabNext(w: Wait, i: nat): Pc
    requires |w.refs| > 0
    decreases |w.refs| - i
  {
    if i >= |w.refs| then UpdNext(w, 0, |w.refs|, false)
    else match w.refs[i].kind
      case MutexKind => InAll(w, i, GrabTid)
      case ManualKind => GrabNext(w, i + 1)
      case _ => InAll(w, i, GrabRead)
  }

  /** refs[..n] are still to be put back. */
  function BackNext(w: Wait, n: nat): Pc
    requires n <= |w.refs|
  {
    if n == 0 then AllNext(w, 0)
    else InAll(w, n - 1, if w.refs[n - 1].kind.MutexKind? then BackTid else BackWrite)
  }

  /** refs[k..n] are still to be updated. */
  function UpdNext(w: Wait, k: nat, n: nat, ab: bool): Pc
    requires 0 < n <= |w.refs|
    decreases n - k
  {
    if k >= n then
      Return(w, if w.TakesAll() then (if ab then AllSignaledAbandoned else AllSignaled)
                else if ab then AbandonedIndex(n - 1) else Index(n - 1))
    else if Consumable(w.refs[k].kind) then Updating(w, k, n, ab, UpdFirst)
    else UpdNext(w, k + 1, n, ab)
  }

  function EventDone(o: nat, op: EventOp, manual: bool): Pc {
    if manual then Changing(o, op, manual, EvUnlock) else Idle(Returned(ChangeEvent(o, op), Success))
  }

  function DyingNext(o: nat, total: nat): Pc { if o < total then Dying(o, DyTest) else Dead }

  /** The objects a successful wait-all reads. */
  function Reads(refs: seq<Ref>): (os: seq<nat>) {
    if refs == [] then []
    else Reads(refs[..|refs| - 1]) +
         (var r := refs[|refs| - 1]; if Consumable(r.kind) then [r.o] else [])
  }

  /** Whether nothing is left to read from position i on. */
  predicate NothingLeft(w: Wait, i: nat)
    decreases |w.refs| - i
  {
    i >= |w.refs| || (!Consumable(w.refs[i].kind) && NothingLeft(w, i + 1))
  }

  /** The label of moving the grab loop on to position i. */
  function GrabLabel(w: Wait, i: nat, t: nat): Label {
    if NothingLeft(w, i) then Grab(t, Reads(w.refs)) else Tau
  }

  // ----- The object a step touches -----

  predicate Focused(pc: Pc) {
    match pc
    case Idle(_) => false
    case Dead => false
    case Polling(w, ready) => |ready| < |w.refs|
    case _ => true
  }

  /** Positions inside a wait lie inside its list. */
  predicate InRange(pc: Pc) {
    match pc
    case Polling(w, ready) => |ready| <= |w.refs|
    case InAny(w, i, any) => i < |w.refs| && (any.Take? ==> |any.ready| == |w.refs|)
    case InAll(w, i, _) => i < |w.refs|
    case Updating(w, k, n, _, _) => k < n <= |w.refs|
    case _ => true
  }

  /** The object a focused place is about to touch. */
  function Focus(pc: Pc): nat
    requires Focused(pc) && InRange(pc)
  {
    match pc
    case Releasing(o, _, _) => o
    case Unlocking(o, _) => o
    case Changing(o, _, _, _) => o
    case Pulsing(o, _, _) => o
    case Polling(w, ready) => w.refs[|ready|].o
    case InAny(w, i, _) => w.refs[i].o
    case InAll(w, i, _) => w.refs[i].o
    case Updating(w, k, _, _, _) => w.refs[k].o
    case Dying(o, _) => o
  }

  predicate AnyFits(any: AnyPc, k: Kind) {
    match any
    case HintCount => k.MutexKind?
    case TryRead => Consumable(k)
    case RecLoad => k.MutexKind?
    case RecStore(_) => k.MutexKind?
    case _ => true
  }

  predicate AllFits(all: AllPc, k: Kind) {
    match all
    case AllTid => k.MutexKind?
    case GrabTid => k.MutexKind?
    case GrabRead => Consumable(k)
    case BackTid => k.MutexKind?
    case _ => true
  }

  /** The kind of object a place expects to touch. */
  predicate Fits(pc: Pc, k: Kind)
    requires Focused(pc) && InRange(pc)
  {
    match pc
    case Releasing(_, _, _) => k.SemaphoreKind?
    case Unlocking(_, _) => k.MutexKind?
    case Changing(_, _, m, ev) => if m then k.ManualKind? else k.AutoKind? && (ev.EvSwap? || ev.EvFd?)
    case Pulsing(_, m, _) => if m then k.ManualKind? else k.AutoKind?
    case Polling(w, ready) => k == w.refs[|ready|].kind
    case InAny(w, i, any) => k == w.refs[i].kind && AnyFits(any, k)
    case InAll(w, i, all) => k == w.refs[i].kind && AllFits(all, k)
    case Updating(w, i, _, _, upd) =>
      k == w.refs[i].kind && (if upd.UpdFirst? then Consumable(k) else k.MutexKind?)
    case Dying(_, dy) => dy.DyTest? || k.MutexKind?
  }

  // ----- One access -----

  datatype Touched = Touched(obj: Object, pc: Pc, act: Label)

  function Quiet(obj: Object, pc: Pc): Touched { Touched(obj, pc, Tau) }

  predicate CanTouch(pc: Pc, obj: Object) {
    Focused(pc) && InRange(pc) && Fits(pc, KindOf(obj))
  }

  /** esync_release_semaphore: the limit test and the addition are done in ULONG. */
  function TouchSemaphore(pc: Pc, obj: Object): Touched
    requires CanTouch(pc, obj) && pc.Releasing?
  {
    var Releasing(o, n, sem) := pc;
    match sem
    case SemLoad =>
      var cur := ToUlong(obj.count);
      if ToUlong(n + cur) > obj.max
      then Quiet(obj, Idle(Returned(ReleaseSemaphore(o, n), LimitExceeded)))
      else Quiet(obj, Releasing(o, n, SemCas(cur)))
    case SemCas(cur) =>
      if obj.count == ToLong(cur)
      then Touched(obj.(count := ToLong(n + cur)), Releasing(o, n, SemWrite), Release(o, n))
      else Quiet(obj, Releasing(o, n, SemLoad))
    case SemWrite =>
      Quiet(AfterWrite(obj, n), Idle(Returned(ReleaseSemaphore(o, n), Success)))
  }

  /** esync_release_mutex. */
  function TouchMutex(pc: Pc, obj: Object, t: nat): Touched
    requires CanTouch(pc, obj) && pc.Unlocking?
  {
    var o := pc.o;
    match pc.mtx
    case MtxTid =>
      Quiet(obj, if obj.tid == Thread(t) then Unlocking(o, MtxLoad)
                 else Idle(Returned(ReleaseMutex(o), NotOwned)))
    case MtxLoad => Quiet(obj, Unlocking(o, MtxStore(obj.depth)))
    case MtxStore(c) =>
      Touched(obj.(depth := c - 1),
              if c - 1 == 0 then Unlocking(o, MtxClear) else Idle(Returned(ReleaseMutex(o), Success)),
              Unlock(t, o))
    case MtxClear => Quiet(obj.(tid := NoOne), Unlocking(o, MtxWrite))
    case MtxWrite => Quiet(AfterWrite(obj, 1), Idle(Returned(ReleaseMutex(o), Success)))
  }

  /** A non-blocking read() whose outcome nobody looks at. */
  function Drained(obj: Object): Object { if obj.fd > 0 then AfterRead(obj) else obj }

  /** esync_set_event and esync_reset_event.  A client changing an auto-reset event always
      goes on to the eventfd; the server, and anyone changing a manual-reset event, only
      when the hint was the other way. */
  function TouchEvent(pc: Pc, obj: Object): Touched
    requires CanTouch(pc, obj) && pc.Changing?
  {
    var Changing(o, op, m, ev) := pc;
    match ev
    case EvLock =>
      if obj.locked then Quiet(obj, pc) else Quiet(obj.(locked := true), Changing(o, op, m, EvSwap))
    case EvSwap =>
      Quiet(obj.(signaled := op.on),
            if obj.signaled != op.on || (!m && !op.server) then Changing(o, op, m, EvFd)
            else EventDone(o, op, m))
    case EvFd =>
      if op.on then Touched(AfterWrite(obj, 1), EventDone(o, op, m), SetFd(o))
      else Touched(Drained(obj), EventDone(o, op, m), ClearFd(o))
    case EvUnlock =>
      Quiet(obj.(locked := false), Idle(Returned(ChangeEvent(o, op), Success)))
  }

  /** esync_pulse_event, which takes neither the lock nor the hint. */
  function TouchPulse(pc: Pc, obj: Object): Touched
    requires CanTouch(pc, obj) && pc.Pulsing?
  {
    if pc.wrote
    then Touched(Drained(obj), Idle(Returned(PulseEvent(pc.o), Success)), ClearFd(pc.o))
    else Touched(AfterWrite(obj, 1), Pulsing(pc.o, pc.manual, true), SetFd(pc.o))
  }

  /** The wait-any half of esync_wait_objects. */
  function TouchAny(pc: Pc, obj: Object, t: nat): Touched
    requires CanTouch(pc, obj) && pc.InAny?
  {
    var InAny(w, i, any) := pc;
    match any
    case Hint => (
      match obj
      case Mutex(_, tid, _) => Quiet(obj, InAny(w, i, if tid == Thread(t) then RecLoad else HintCount))
      case Semaphore(_, _, count) =>
        Quiet(obj, if count != 0 then InAny(w, i, TryRead) else AnyNext(w, i + 1))
      case Event(_, manual, signaled, _) =>
        Quiet(obj, if !signaled then AnyNext(w, i + 1)
                   else if manual then Return(w, Index(i))
                   else InAny(w, i, TryRead)))
    case HintCount => Quiet(obj, if obj.depth == 0 then InAny(w, i, TryRead) else AnyNext(w, i + 1))
    case TryRead =>
      if obj.fd > 0
      then Touched(AfterRead(obj), Updating(w, i, i + 1, false, UpdFirst), Grab(t, [w.refs[i].o]))
      else Quiet(obj, AnyNext(w, i + 1))
    case RecLoad => Quiet(obj, InAny(w, i, RecStore(obj.depth)))
    case RecStore(c) => Touched(obj.(depth := c + 1), Return(w, Index(i)), Recur(t, w.refs[i].o))
    case Take(ready) =>
      if !Consumable(w.refs[i].kind) then
        Quiet(obj, if ready[i] then Return(w, Index(i)) else TakeNext(w, ready, i + 1))
      else if obj.fd > 0 then
        Touched(AfterRead(obj), Updating(w, i, i + 1, false, UpdFirst), Grab(t, [w.refs[i].o]))
      else Quiet(obj, TakeNext(w, ready, i + 1))
  }

  /** The wait-all half of esync_wait_objects, up to the put-back loop. */
  function TouchAll(pc: Pc, obj: Object, t: nat, c: Choice): Touched
    requires CanTouch(pc, obj) && pc.InAll?
  {
    var InAll(w, i, all) := pc;
    match all
    case AllTid => Quiet(obj, if obj.tid == Thread(t) then AllNext(w, i + 1) else InAll(w, i, AllPoll))
    case AllPoll =>
      Quiet(obj, if c.Apc? && w.alertable then Return(w, UserApc)
                 else if obj.fd > 0 then AllNext(w, i + 1)
                 else if c.Timeout? then Return(w, TimedOut)
                 else pc)
    case Check(ok) =>
      var ok' := ok && obj.fd > 0;
      if i + 1 < |w.refs| then Quiet(obj, InAll(w, i + 1, Check(ok')))
      else if ok' then Touched(obj, GrabNext(w, 0), GrabLabel(w, 0, t))
      else Quiet(obj, AllNext(w, 0))
    case GrabTid =>
      if obj.tid == Thread(t) then Touched(obj, GrabNext(w, i + 1), GrabLabel(w, i + 1, t))
      else Quiet(obj, InAll(w, i, GrabRead))
    case GrabRead =>
      if obj.fd > 0 then Touched(AfterRead(obj), GrabNext(w, i + 1), GrabLabel(w, i + 1, t))
      else Quiet(obj, BackNext(w, i))
    case BackTid => Quiet(obj, if obj.tid == Thread(t) then BackNext(w, i) else InAll(w, i, BackWrite))
    case BackWrite => Quiet(AfterWrite(obj, 1), BackNext(w, i))
  }

  /** update_grabbed_object. */
  function TouchUpdate(pc: Pc, obj: Object, t: nat): Touched
    requires CanTouch(pc, obj) && pc.Updating?
  {
    var Updating(w, k, n, ab, upd) := pc;
    match upd
    case UpdFirst => (
      match obj
      case Mutex(_, tid, _) => Quiet(obj, Updating(w, k, n, ab || tid.Abandoned?, UpdTid))
      case Semaphore(_, _, count) => Quiet(obj.(count := count - 1), UpdNext(w, k + 1, n, ab))
      case Event(_, _, _, _) => Quiet(obj.(signaled := false), UpdNext(w, k + 1, n, ab)))
    case UpdTid => Quiet(obj.(tid := Thread(t)), Updating(w, k, n, ab, UpdLoad))
    case UpdLoad => Quiet(obj, Updating(w, k, n, ab, UpdStore(obj.depth)))
    case UpdStore(c) => Quiet(obj.(depth := c + 1), UpdNext(w, k + 1, n, ab))
  }

  /** esync_abandon_mutexes, over `total` objects. */
  function TouchDying(pc: Pc, obj: Object, t: nat, total: nat): Touched
    requires CanTouch(pc, obj) && pc.Dying?
  {
    var o := pc.o;
    match pc.dy
    case DyTest =>
      Quiet(obj, if obj.Mutex? && obj.tid == Thread(t) then Dying(o, DyTid) else DyingNext(o + 1, total))
    case DyTid => Touched(obj.(tid := Abandoned), Dying(o, DyCount), Abandon(t, o))
    case DyCount => Quiet(obj.(depth := 0), Dying(o, DyWrite))
    case DyWrite => Quiet(AfterWrite(obj, 1), DyingNext(o + 1, total))
  }

  function Touch(pc: Pc, obj: Object, t: nat, c: Choice, total: nat): Touched
    requires CanTouch(pc, obj)
  {
    match pc
    case Releasing(_, _, _) => TouchSemaphore(pc, obj)
    case Unlocking(_, _) => TouchMutex(pc, obj, t)
    case Changing(_, _, _, _) => TouchEvent(pc, obj)
    case Pulsing(_, _, _) => TouchPulse(pc, obj)
    case Polling(w, ready) => Quiet(obj, Polling(w, ready + [obj.fd > 0]))
    case InAny(_, _, _) => TouchAny(pc, obj, t)
    case InAll(_, _, _) => TouchAll(pc, obj, t, c)
    case Updating(_, _, _, _, _) => TouchUpdate(pc, obj, t)
    case Dying(_, _) => TouchDying(pc, obj, t, total)
  }

  // ----- Steps that touch nothing -----

  function KindsOf(objs: seq<Object>): (ks: seq<Kind>)
    ensures |ks| == |objs| && forall o :: 0 <= o < |ks| ==> ks[o] == KindOf(objs[o])
  {
    seq(|objs|, o requires 0 <= o < |objs| => KindOf(objs[o]))
  }

  predicate RefsOk(refs: seq<Ref>, kinds: seq<Kind>) {
    forall i :: 0 <= i < |refs| ==> refs[i].o < |kinds| && kinds[refs[i].o] == refs[i].kind
  }

  /** A call names existing objects; the semaphore and mutex calls do not check the type. */
  predicate Legal(call: Call, kinds: seq<Kind>) {
    match call
    case ReleaseSemaphore(o, n) => o < |kinds| && kinds[o].SemaphoreKind? && n < ULONG_RANGE
    case ReleaseMutex(o) => o < |kinds| && kinds[o].MutexKind?
    case ChangeEvent(o, _) => o < |kinds|
    case PulseEvent(o) => o < |kinds|
    case WaitFor(w) => RefsOk(w.refs, kinds)
    case ExitThread => true
  }

  function Begin(call: Call, kinds: seq<Kind>): Pc
    requires Legal(call, kinds)
  {
    match call
    case ReleaseSemaphore(o, n) => Releasing(o, n, SemLoad)
    case ReleaseMutex(o) => Unlocking(o, MtxTid)
    case ChangeEvent(o, op) =>
      if kinds[o].ManualKind? then Changing(o, op, true, EvLock)
      else if kinds[o].AutoKind? then Changing(o, op, false, EvSwap)
      else Idle(Returned(call, TypeMismatch))
    case PulseEvent(o) =>
      if kinds[o].ManualKind? || kinds[o].AutoKind? then Pulsing(o, kinds[o].ManualKind?, false)
      else Idle(Returned(call, TypeMismatch))
    case WaitFor(w) => if w.TakesAll() then AllNext(w, 0) else AnyNext(w, 0)
    case ExitThread => DyingNext(0, |kinds|)
  }

  /** Starting a call, and what follows a poll() of a wait-any that looked at every object. */
  function Think(pc: Pc, c: Choice, kinds: seq<Kind>): Pc
    requires !Focused(pc) && InRange(pc)
  {
    match pc
    case Idle(_) => if c.Start? && Legal(c.call, kinds) then Begin(c.call, kinds) else pc
    case Polling(w, ready) =>
      if c.Apc? && w.alertable then Return(w, UserApc)
      else if true in ready then TakeNext(w, ready, 0)
      else if c.Timeout? then Return(w, TimedOut)
      else Polling(w, [])
    case Dead => pc
  }

  // ----- Steps and runs -----

  /** A place fits the objects it refers to. */
  predicate WfPc(pc: Pc, kinds: seq<Kind>) {
    && InRange(pc)
    && (Focused(pc) ==> Focus(pc) < |kinds| && Fits(pc, kinds[Focus(pc)]))
    && WaitOk(pc, kinds)
  }

  predicate WaitOk(pc: Pc, kinds: seq<Kind>) {
    match pc
    case Polling(w, _) => RefsOk(w.refs, kinds) && !w.TakesAll()
    case InAny(w, _, _) => RefsOk(w.refs, kinds) && !w.TakesAll()
    case InAll(w, _, _) => RefsOk(w.refs, kinds) && w.TakesAll()
    case Updating(w, k, n, _, _) =>
      RefsOk(w.refs, kinds) && (if w.TakesAll() then n == |w.refs| else n == k + 1)
    case Releasing(_, n, sem) => n < ULONG_RANGE && (sem.SemCas? ==> 0 <= sem.cur < ULONG_RANGE)
    case _ => true
  }

  predicate Wf(s: State) {
    forall t :: 0 <= t < |s.threads| ==> WfPc(s.threads[t], KindsOf(s.objs))
  }

  datatype Stepped = Stepped(state: State, act: Label)

  function Step(s: State, t: nat, c: Choice): Stepped
    requires Wf(s) && t < |s.threads|
  {
    var pc := s.threads[t];
    if Focused(pc) then
      var o := Focus(pc);
      var r := Touch(pc, s.objs[o], t, c, |s.objs|);
      Stepped(State(s.objs[o := r.obj], s.threads[t := r.pc]), r.act)
    else
      Stepped(s.(threads := s.threads[t := Think(pc, c, KindsOf(s.objs))]), Tau)
  }
}
