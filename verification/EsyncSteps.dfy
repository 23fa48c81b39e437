/** Every step keeps the invariant, under every schedule. */
module EsyncSteps {
  import opened EsyncModel
  import opened EsyncInvariants

  // ----- One access by thread t, seen from the object it touches -----

  /** What is known of the touched object before the access. */
  ghost predicate Ready(pc: Pc, obj: Object, t: nat, total: nat) {
    && CanTouch(pc, obj)
    && (pc.InAll? ==> pc.w.TakesAll())
    && (pc.Releasing? && pc.sem.SemCas? ==> 0 <= pc.sem.cur)
    && t < total
    && ObjOk(obj, total)
    && Agree(pc, t, obj, Focus(pc))
    && (!obj.Event? ==> InHand(pc, Focus(pc)) <= Owed(obj))
  }

  /** Only the owner of a mutex, or the thread with its token, changes its record, and
      only to or from its own id. */
  ghost predicate Discreet(pc: Pc, obj: Object, t: nat, o: nat, obj': Object)
    requires InRange(pc)
  {
    match obj
    case Semaphore(_, max, _) => obj'.Semaphore? && obj'.max == max
    case Mutex(_, tid, depth) =>
      && obj'.Mutex?
      && ((obj'.tid == tid && obj'.depth == depth) ||
          ((tid == Thread(t) || InHand(pc, o) >= 1) &&
           (obj'.tid == tid || obj'.tid == Thread(t) || !obj'.tid.Thread?)))
    case Event(_, manual, _, _) => obj'.Event? && obj'.manual == manual
  }

  /** The access moves units between the object and the thread's hands without gain or
      loss, and leaves the thread and the object in agreement. */
  ghost predicate Sound(pc: Pc, obj: Object, t: nat, total: nat, r: Touched)
    requires InRange(pc) && Focused(pc)
  {
    var o := Focus(pc);
    && InRange(r.pc)
    && ObjOk(r.obj, total)
    && (!obj.Event? ==> Owed(r.obj) - Owed(obj) == InHand(r.pc, o) - InHand(pc, o))
    && Agree(r.pc, t, r.obj, o)
    && Discreet(pc, obj, t, o, r.obj)
  }

  /** Going from pc to pc', a thread's hands and its knowledge of object x stay as they
      were, when x has recursion count d. */
  ghost predicate Indifferent(pc: Pc, pc': Pc, x: nat, d: int)
    requires InRange(pc)
  {
    && InRange(pc')
    && InHand(pc', x) == InHand(pc, x)
    && (Claims(pc', x) ==> Claims(pc, x))
    && (Denies(pc', x) ==> Denies(pc, x))
    && (DepthOk(pc, d, x) ==> DepthOk(pc', d, x))
    && (pc'.Dying? ==> pc'.o != x || pc'.dy.DyTest?)
    && (pc.Dying? ==> pc.o != x)
    && (pc'.Releasing? ==> pc'.o != x)
  }

  lemma {:induction false} IndifferentAgrees(pc: Pc, pc': Pc, t: nat, x: nat, other: Object)
    requires InRange(pc) && Indifferent(pc, pc', x, if other.Mutex? then other.depth else 1)
    requires Agree(pc, t, other, x)
    ensures Agree(pc', t, other, x)
  {
  }

  lemma {:induction false} SmallUlong(x: int)
    requires 0 <= x < ULONG_RANGE
    ensures ToUlong(x) == x && (x <= INT_MAX ==> ToLong(x) == x)
  {
  }

  lemma {:induction false} SemaphoreSound(pc: Pc, obj: Object, t: nat, total: nat)
    requires Ready(pc, obj, t, total) && pc.Releasing?
    ensures Sound(pc, obj, t, total, TouchSemaphore(pc, obj))
  {
    if pc.sem.SemLoad? {
      SmallUlong(obj.count);
      SmallUlong(pc.n + obj.count);
    } else if pc.sem.SemCas? {
      SwapSound(pc, obj, t, total);
    }
  }

  lemma {:induction false} SwapSound(pc: Pc, obj: Object, t: nat, total: nat)
    requires Ready(pc, obj, t, total) && pc.Releasing? && pc.sem.SemCas?
    ensures Sound(pc, obj, t, total, TouchSemaphore(pc, obj))
  {
    SmallUlong(pc.sem.cur);
    SmallUlong(pc.n + pc.sem.cur);
  }

  lemma {:induction false} MutexSound(pc: Pc, obj: Object, t: nat, total: nat)
    requires Ready(pc, obj, t, total) && pc.Unlocking?
    ensures Sound(pc, obj, t, total, TouchMutex(pc, obj, t))
  {
  }

  lemma {:induction false} HintSound(pc: Pc, obj: Object, t: nat, total: nat)
    requires Ready(pc, obj, t, total) && pc.InAny? && (pc.any.Hint? || pc.any.HintCount?)
    ensures Sound(pc, obj, t, total, TouchAny(pc, obj, t))
  {
  }

  lemma {:induction false} RecursionSound(pc: Pc, obj: Object, t: nat, total: nat)
    requires Ready(pc, obj, t, total) && pc.InAny? && (pc.any.RecLoad? || pc.any.RecStore?)
    ensures Sound(pc, obj, t, total, TouchAny(pc, obj, t))
  {
  }

  lemma {:induction false} TakeSound(pc: Pc, obj: Object, t: nat, total: nat)
    requires Ready(pc, obj, t, total) && pc.InAny? && (pc.any.TryRead? || pc.any.Take?)
    ensures Sound(pc, obj, t, total, TouchAny(pc, obj, t))
  {
    MultFirst(pc.w.refs, pc.i, pc.i + 1, Focus(pc));
    assert pc.w.refs[pc.i + 1..pc.i + 1] == [];
  }

  lemma {:induction false} NamesAt(refs: seq<Ref>, i: nat)
    requires i < |refs|
    ensures Names(refs, refs[i].o)
    ensures refs[..|refs|] == refs
  {
  }

  lemma {:induction false} NamesSplit(refs: seq<Ref>, i: nat, x: nat)
    requires i < |refs|
    ensures Names(refs[..i + 1], x) <==> Names(refs[..i], x) || x == refs[i].o
  {
    if Names(refs[..i], x) {
      var j :| 0 <= j < i && refs[..i][j].o == x;
      assert refs[..i + 1][j].o == x;
    }
    if x == refs[i].o {
      assert refs[..i + 1][i].o == x;
    }
    if Names(refs[..i + 1], x) {
      var j :| 0 <= j < i + 1 && refs[..i + 1][j].o == x;
      assert j < i ==> refs[..i][j].o == x;
    }
  }

  lemma {:induction false} PollSound(pc: Pc, obj: Object, t: nat, total: nat, c: Choice)
    requires Ready(pc, obj, t, total) && pc.InAll? && (pc.all.AllTid? || pc.all.AllPoll?)
    ensures Sound(pc, obj, t, total, TouchAll(pc, obj, t, c))
  {
  }

  /** A mutex whose eventfd is readable is not owned by this thread. */
  lemma {:induction false} CheckSound(pc: Pc, obj: Object, t: nat, total: nat, c: Choice)
    requires Ready(pc, obj, t, total) && pc.InAll? && pc.all.Check?
    ensures Sound(pc, obj, t, total, TouchAll(pc, obj, t, c))
  {
    GrabNextAt(pc.w, 0, Focus(pc));
    NamesAt(pc.w.refs, pc.i);
  }

  lemma {:induction false} GrabTidSound(pc: Pc, obj: Object, t: nat, total: nat, c: Choice)
    requires Ready(pc, obj, t, total) && pc.InAll? && pc.all.GrabTid?
    ensures Sound(pc, obj, t, total, TouchAll(pc, obj, t, c))
  {
    NamesAt(pc.w.refs, pc.i);
    assert Denies(pc, Focus(pc));
  }

  lemma {:induction false} GrabReadSound(pc: Pc, obj: Object, t: nat, total: nat, c: Choice)
    requires Ready(pc, obj, t, total) && pc.InAll? && pc.all.GrabRead?
    ensures Sound(pc, obj, t, total, TouchAll(pc, obj, t, c))
  {
    if obj.fd > 0 {
      GrabHitSound(pc, obj, t, total, c);
    } else {
      GrabMissSound(pc, obj, t, total, c);
    }
  }

  lemma {:induction false} GrabHitSound(pc: Pc, obj: Object, t: nat, total: nat, c: Choice)
    requires Ready(pc, obj, t, total) && pc.InAll? && pc.all.GrabRead? && obj.fd > 0
    ensures Sound(pc, obj, t, total, TouchAll(pc, obj, t, c))
  {
    NamesAt(pc.w.refs, pc.i);
    GrabNextAt(pc.w, pc.i + 1, Focus(pc));
    MultNext(pc.w.refs, pc.i, Focus(pc));
  }

  lemma {:induction false} GrabMissSound(pc: Pc, obj: Object, t: nat, total: nat, c: Choice)
    requires Ready(pc, obj, t, total) && pc.InAll? && pc.all.GrabRead? && obj.fd == 0
    ensures Sound(pc, obj, t, total, TouchAll(pc, obj, t, c))
  {
    NamesAt(pc.w.refs, pc.i);
    MultNext(pc.w.refs, pc.i, Focus(pc));
  }

  lemma {:induction false} BackSound(pc: Pc, obj: Object, t: nat, total: nat, c: Choice)
    requires Ready(pc, obj, t, total) && pc.InAll? && (pc.all.BackTid? || pc.all.BackWrite?)
    ensures Sound(pc, obj, t, total, TouchAll(pc, obj, t, c))
  {
    NamesAt(pc.w.refs, pc.i);
    MultNext(pc.w.refs, pc.i, Focus(pc));
  }

  /** The last access of an update. */
  lemma {:induction false} UpdateLastSound(pc: Pc, obj: Object, t: nat, total: nat)
    requires Ready(pc, obj, t, total) && pc.Updating?
    requires if obj.Mutex? then pc.upd.UpdStore? else pc.upd.UpdFirst?
    ensures Sound(pc, obj, t, total, TouchUpdate(pc, obj, t))
  {
    UpdNextAt(pc.w, pc.k + 1, pc.n, pc.ab, Focus(pc));
    MultFirst(pc.w.refs, pc.k, pc.n, Focus(pc));
  }

  lemma {:induction false} UpdateMutexSound(pc: Pc, obj: Object, t: nat, total: nat)
    requires Ready(pc, obj, t, total) && pc.Updating? && obj.Mutex? && !pc.upd.UpdStore?
    ensures Sound(pc, obj, t, total, TouchUpdate(pc, obj, t))
  {
    MultFirst(pc.w.refs, pc.k, pc.n, Focus(pc));
  }

  lemma {:induction false} DyingSound(pc: Pc, obj: Object, t: nat, total: nat, objects: nat)
    requires Ready(pc, obj, t, total) && pc.Dying?
    ensures Sound(pc, obj, t, total, TouchDying(pc, obj, t, objects))
  {
  }

  lemma {:induction false} TouchSound(pc: Pc, obj: Object, t: nat, total: nat, c: Choice, objects: nat)
    requires Ready(pc, obj, t, total)
    ensures Sound(pc, obj, t, total, Touch(pc, obj, t, c, objects))
  {
    match pc {
      case Releasing(_, _, _) => SemaphoreSound(pc, obj, t, total);
      case Unlocking(_, _) => MutexSound(pc, obj, t, total);
      case Changing(_, _, _, _) =>
      case Pulsing(_, _, _) =>
      case Polling(_, _) =>
      case InAny(_, _, any) =>
        if any.Hint? || any.HintCount? {
          HintSound(pc, obj, t, total);
        } else if any.RecLoad? || any.RecStore? {
          RecursionSound(pc, obj, t, total);
        } else {
          TakeSound(pc, obj, t, total);
        }
      case InAll(_, _, all) =>
        match all {
          case AllTid => PollSound(pc, obj, t, total, c);
          case AllPoll => PollSound(pc, obj, t, total, c);
          case Check(_) => CheckSound(pc, obj, t, total, c);
          case GrabTid => GrabTidSound(pc, obj, t, total, c);
          case GrabRead => GrabReadSound(pc, obj, t, total, c);
          case _ => BackSound(pc, obj, t, total, c);
        }
      case Updating(_, _, _, _, upd) =>
        if obj.Mutex? && !upd.UpdStore? {
          UpdateMutexSound(pc, obj, t, total);
        } else {
          UpdateLastSound(pc, obj, t, total);
        }
      case Dying(_, _) => DyingSound(pc, obj, t, total, objects);
    }
  }

  lemma {:induction false} AnyWf(pc: Pc, obj: Object, t: nat, kinds: seq<Kind>)
    requires WfPc(pc, kinds) && pc.InAny? && KindOf(obj) == kinds[Focus(pc)]
    ensures WfPc(TouchAny(pc, obj, t).pc, kinds)
    ensures KindOf(TouchAny(pc, obj, t).obj) == KindOf(obj)
  {
    if pc.any.Take? {
      TakeWf(pc, obj, t, kinds);
    } else {
      TryWf(pc, obj, t, kinds);
    }
  }

  lemma {:induction false} TakeWf(pc: Pc, obj: Object, t: nat, kinds: seq<Kind>)
    requires WfPc(pc, kinds) && pc.InAny? && KindOf(obj) == kinds[Focus(pc)] && pc.any.Take?
    ensures WfPc(TouchAny(pc, obj, t).pc, kinds)
    ensures KindOf(TouchAny(pc, obj, t).obj) == KindOf(obj)
  {
  }

  lemma {:induction false} TryWf(pc: Pc, obj: Object, t: nat, kinds: seq<Kind>)
    requires WfPc(pc, kinds) && pc.InAny? && KindOf(obj) == kinds[Focus(pc)] && !pc.any.Take?
    ensures WfPc(TouchAny(pc, obj, t).pc, kinds)
    ensures KindOf(TouchAny(pc, obj, t).obj) == KindOf(obj)
  {
  }

  lemma {:induction false} PollWf(pc: Pc, obj: Object, t: nat, c: Choice, kinds: seq<Kind>)
    requires WfPc(pc, kinds) && pc.InAll? && KindOf(obj) == kinds[Focus(pc)]
    requires pc.all.AllTid? || pc.all.AllPoll? || pc.all.Check?
    ensures WfPc(TouchAll(pc, obj, t, c).pc, kinds)
    ensures KindOf(TouchAll(pc, obj, t, c).obj) == KindOf(obj)
  {
    GrabNextOk(pc.w, 0, kinds);
  }

  lemma {:induction false} GrabWf(pc: Pc, obj: Object, t: nat, c: Choice, kinds: seq<Kind>)
    requires WfPc(pc, kinds) && pc.InAll? && KindOf(obj) == kinds[Focus(pc)]
    requires pc.all.GrabTid? || pc.all.GrabRead?
    ensures WfPc(TouchAll(pc, obj, t, c).pc, kinds)
    ensures KindOf(TouchAll(pc, obj, t, c).obj) == KindOf(obj)
  {
    GrabNextOk(pc.w, pc.i + 1, kinds);
  }

  lemma {:induction false} BackWf(pc: Pc, obj: Object, t: nat, c: Choice, kinds: seq<Kind>)
    requires WfPc(pc, kinds) && pc.InAll? && KindOf(obj) == kinds[Focus(pc)]
    requires pc.all.BackTid? || pc.all.BackWrite?
    ensures WfPc(TouchAll(pc, obj, t, c).pc, kinds)
    ensures KindOf(TouchAll(pc, obj, t, c).obj) == KindOf(obj)
  {
  }

  lemma {:induction false} UpdateWf(pc: Pc, obj: Object, t: nat, kinds: seq<Kind>)
    requires WfPc(pc, kinds) && pc.Updating? && KindOf(obj) == kinds[Focus(pc)]
    ensures WfPc(TouchUpdate(pc, obj, t).pc, kinds)
    ensures KindOf(TouchUpdate(pc, obj, t).obj) == KindOf(obj)
  {
    UpdNextOk(pc.w, pc.k + 1, pc.n, pc.ab, kinds);
  }

  lemma {:induction false} TouchWf(pc: Pc, obj: Object, t: nat, c: Choice, kinds: seq<Kind>)
    requires WfPc(pc, kinds) && Focused(pc) && KindOf(obj) == kinds[Focus(pc)]
    ensures WfPc(Touch(pc, obj, t, c, |kinds|).pc, kinds)
    ensures KindOf(Touch(pc, obj, t, c, |kinds|).obj) == KindOf(obj)
  {
    match pc {
      case InAny(_, _, _) => AnyWf(pc, obj, t, kinds);
      case InAll(_, _, all) =>
        if all.GrabTid? || all.GrabRead? {
          GrabWf(pc, obj, t, c, kinds);
        } else if all.BackTid? || all.BackWrite? {
          BackWf(pc, obj, t, c, kinds);
        } else {
          PollWf(pc, obj, t, c, kinds);
        }
      case Updating(_, _, _, _, _) => UpdateWf(pc, obj, t, kinds);
      case _ =>
    }
  }

  // ----- The same access, seen from another object or another thread -----

  lemma {:induction false} AnyIndifferent(pc: Pc, obj: Object, t: nat, x: nat, d: int)
    requires CanTouch(pc, obj) && pc.InAny? && x != Focus(pc)
    ensures Indifferent(pc, TouchAny(pc, obj, t).pc, x, d)
  {
    MultFirst(pc.w.refs, pc.i, pc.i + 1, x);
    assert pc.w.refs[pc.i + 1..pc.i + 1] == [];
  }

  lemma {:induction false} GrabIndifferent(pc: Pc, obj: Object, t: nat, c: Choice, x: nat, d: int)
    requires CanTouch(pc, obj) && pc.InAll? && pc.w.TakesAll() && x != Focus(pc)
    requires pc.all.Check? || pc.all.GrabRead?
    ensures Indifferent(pc, TouchAll(pc, obj, t, c).pc, x, d)
  {
    var InAll(w, i, all) := pc;
    NamesAt(w.refs, i);
    if all.Check? {
      GrabNextAt(w, 0, x);
      NamesSplit(w.refs, i, x);
    } else {
      ReadIndifferent(pc, obj, t, c, x, d);
    }
  }

  lemma {:induction false} ReadIndifferent(pc: Pc, obj: Object, t: nat, c: Choice, x: nat, d: int)
    requires CanTouch(pc, obj) && pc.InAll? && pc.w.TakesAll() && x != Focus(pc) && pc.all.GrabRead?
    ensures Indifferent(pc, TouchAll(pc, obj, t, c).pc, x, d)
  {
    NamesAt(pc.w.refs, pc.i);
    GrabNextAt(pc.w, pc.i + 1, x);
    MultNext(pc.w.refs, pc.i, x);
  }

  lemma {:induction false} PollIndifferent(pc: Pc, obj: Object, t: nat, c: Choice, x: nat, d: int)
    requires CanTouch(pc, obj) && pc.InAll? && x != Focus(pc)
    requires pc.all.AllTid? || pc.all.AllPoll?
    ensures Indifferent(pc, TouchAll(pc, obj, t, c).pc, x, d)
  {
  }

  lemma {:induction false} BackIndifferent(pc: Pc, obj: Object, t: nat, c: Choice, x: nat, d: int)
    requires CanTouch(pc, obj) && pc.InAll? && x != Focus(pc)
    requires pc.all.GrabTid? || pc.all.BackTid? || pc.all.BackWrite?
    requires Agree(pc, t, obj, Focus(pc))
    ensures Indifferent(pc, TouchAll(pc, obj, t, c).pc, x, d)
  {
    NamesAt(pc.w.refs, pc.i);
    if pc.all.GrabTid? || pc.all.BackTid? {
      assert Denies(pc, pc.w.refs[pc.i].o);
    } else {
      MultNext(pc.w.refs, pc.i, x);
    }
  }

  lemma {:induction false} UpdateLastIndifferent(pc: Pc, obj: Object, t: nat, x: nat, d: int)
    requires CanTouch(pc, obj) && pc.Updating? && x != Focus(pc)
    requires if obj.Mutex? then pc.upd.UpdStore? else pc.upd.UpdFirst?
    ensures Indifferent(pc, TouchUpdate(pc, obj, t).pc, x, d)
  {
    UpdNextAt(pc.w, pc.k + 1, pc.n, pc.ab, x);
    MultFirst(pc.w.refs, pc.k, pc.n, x);
  }

  lemma {:induction false} UpdateMutexIndifferent(pc: Pc, obj: Object, t: nat, x: nat, d: int)
    requires CanTouch(pc, obj) && pc.Updating? && obj.Mutex? && !pc.upd.UpdStore? && x != Focus(pc)
    ensures Indifferent(pc, TouchUpdate(pc, obj, t).pc, x, d)
  {
    MultFirst(pc.w.refs, pc.k, pc.n, x);
  }

  lemma {:induction false} TouchIndifferent(pc: Pc, obj: Object, t: nat, c: Choice, objects: nat, x: nat, d: int)
    requires CanTouch(pc, obj) && (pc.InAll? ==> pc.w.TakesAll())
    requires x != Focus(pc) && x < objects && (obj.Mutex? ==> Agree(pc, t, obj, Focus(pc)))
    ensures Indifferent(pc, Touch(pc, obj, t, c, objects).pc, x, d)
  {
    match pc {
      case InAny(_, _, _) => AnyIndifferent(pc, obj, t, x, d);
      case InAll(_, _, all) =>
        if all.Check? || all.GrabRead? {
          GrabIndifferent(pc, obj, t, c, x, d);
        } else if all.AllTid? || all.AllPoll? {
          PollIndifferent(pc, obj, t, c, x, d);
        } else {
          BackIndifferent(pc, obj, t, c, x, d);
        }
      case Updating(_, _, _, _, upd) =>
        if obj.Mutex? && !upd.UpdStore? {
          UpdateMutexIndifferent(pc, obj, t, x, d);
        } else {
          UpdateLastIndifferent(pc, obj, t, x, d);
        }
      case _ =>
    }
  }

  /** What another thread u knows of the touched object still holds. */
  lemma {:induction false} PeerKeeps(pc: Pc, obj: Object, t: nat, o: nat, obj': Object, pcu: Pc, u: nat)
    requires InRange(pc) && InRange(pcu) && u != t
    requires Discreet(pc, obj, t, o, obj') && Agree(pcu, u, obj, o)
    requires !obj.Event? ==> InHand(pc, o) + InHand(pcu, o) <= Owed(obj)
    ensures Agree(pcu, u, obj', o)
  {
  }
}
