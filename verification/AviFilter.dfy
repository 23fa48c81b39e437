/** The multiplexer as a filter: samples are received, queued and handled when they are due, and a
    filter can record again after it was stopped. */
module AviFilter {
  import opened Riff
  import opened AviIndex
  import opened AviLayout
  import opened AviFile
  import opened AviClose
  import opened AviRead
  import opened AviSuper
  import opened AviHeader
  import opened AviTurns
  import opened AviMux

  lemma {:induction false} NextIs(total: seq<Event>, j: nat, end: nat, e: Event, rest: seq<Event>)
    requires j <= end <= |total| && total[j..end] == [e] + rest
    ensures j < end && total[j] == e && total[j + 1..end] == rest
  {
    assert total[j..end][0] == total[j];
    assert total[j..end][1..] == total[j + 1..end];
  }

  lemma {:induction false} PrefixParts(all: seq<Event>, a: seq<Event>, b: seq<Event>)
    requires a + b <= all
    ensures |a| + |b| <= |all| && all[0..|a|] == a && all[|a|..|a| + |b|] == b
  {
    assert |a + b| == |a| + |b| && (a + b)[0..|a|] == a && (a + b)[|a|..] == b;
    assert all[0..|a|] == (a + b)[0..|a|];
    assert all[|a|..|a| + |b|] == (a + b)[|a|..];
  }

  lemma {:induction false} SlicePart(total: seq<Event>, i: nat, end: nat, n: nat, m: nat)
    requires n <= m && i + m <= end <= |total|
    ensures total[i..end][n..m] == total[i + n..i + m]
  {
    forall k | 0 <= k < m - n ensures total[i..end][n..m][k] == total[i + n..i + m][k] {
      assert total[i..end][n..m][k] == total[i..end][n + k];
    }
  }

  /** Where in a history a stage of it ends. */
  lemma {:induction false} StageEnds(total: seq<Event>, i: nat, end: nat, a: seq<Event>, b: seq<Event>)
    requires i <= end <= |total| && a + b <= total[i..end]
    ensures i + |a| + |b| <= end && total[i..i + |a|] == a && total[i + |a|..i + |a| + |b|] == b
  {
    var all, n, m := total[i..end], |a|, |a| + |b|;
    PrefixParts(all, a, b);
    SlicePart(total, i, end, 0, n);
    SlicePart(total, i, end, n, m);
  }

  lemma {:induction false} NextTurnsPlanned(pace: Pace, t: Turns, from: nat, m: nat, events: seq<Event>, i: nat)
    requires Fit(pace, t) && from < |pace.scale| && m + 1 < |pace.scale| && i <= |events|
    requires LastTurns(pace, t, from, |pace.scale| - 1).events <= events[i..]
    ensures var before, r := LastTurns(pace, t, from, m), LastTurns(pace, t, from, m + 1);
            var j, end := i + |before.events|, i + |r.events|;
            && j <= end <= |events|
            && Flush(pace, before.turns.(cur := Following(from, m + 1, |pace.scale|)), true)
               == Flushed(r.turns, events[j..end])
  {
    var before := LastTurns(pace, t, from, m);
    var more := Flush(pace, before.turns.(cur := Following(from, m + 1, |pace.scale|)), true);
    TurnsPrefix(pace, t, from, m + 1, |pace.scale| - 1);
    NextStage(events, i, before, more, LastTurns(pace, t, from, m + 1));
  }

  /** A stage of a history, and the one after it. */
  lemma {:induction false} NextStage(events: seq<Event>, i: nat, before: Flushed, more: Flushed, r: Flushed)
    requires i <= |events| && r.events <= events[i..]
    requires r == Flushed(more.turns, before.events + more.events)
    ensures var j, end := i + |before.events|, i + |r.events|;
            j <= end <= |events| && more == Flushed(r.turns, events[j..end])
  {
    assert events[i..|events|] == events[i..];
    StageEnds(events, i, |events|, before.events, more.events);
  }

  lemma {:induction false} NextGapPlanned(pace: Pace, t: Turns, s: nat, m: nat, n: nat, events: seq<Event>, i: nat)
    requires Fit(pace, t) && s < |pace.scale| && m < n && i <= |events| && Gaps(pace, t, s, n).events <= events[i..]
    ensures var before, r := Gaps(pace, t, s, m), Gaps(pace, t, s, m + 1);
            var j, end := i + |before.events|, i + |r.events|;
            && j <= end <= |events| && QueueSample(pace, before.turns, s, GAP) == Flushed(r.turns, events[j..end])
  {
    var before := Gaps(pace, t, s, m);
    GapsPrefix(pace, t, s, m + 1, n);
    assert events[i..|events|] == events[i..];
    StageEnds(events, i, |events|, before.events, QueueSample(pace, before.turns, s, GAP).events);
  }

  lemma {:induction false} ReceivePlanned(pace: Pace, t: Turns, a: Arrival, events: seq<Event>, i: nat, end: nat)
    requires Fit(pace, t) && a.s < |pace.scale| && i <= end <= |events|
    requires AviTurns.Receive(pace, t, a).events == events[i..end]
    ensures var before := Gaps(pace, t, a.s, a.gaps);
            var j := i + |before.events|;
            && before.events <= events[i..] && j <= end
            && QueueSample(pace, before.turns, a.s, a.sample)
               == Flushed(AviTurns.Receive(pace, t, a).turns, events[j..end])
  {
    var before := Gaps(pace, t, a.s, a.gaps);
    StageEnds(events, i, end, before.events, QueueSample(pace, before.turns, a.s, a.sample).events);
    assert events[i..][..|before.events|] == events[i..i + |before.events|];
  }

  lemma {:induction false} NextCallPlanned(pace: Pace, t: Turns, calls: seq<Arrival>, m: nat, events: seq<Event>)
    requires Fit(pace, t) && CallsOk(pace, calls) && m < |calls|
    requires AviTurns.ReceiveAll(pace, t, calls).events <= events
    ensures var before, r := AviTurns.ReceiveAll(pace, t, calls[..m]), AviTurns.ReceiveAll(pace, t, calls[..m + 1]);
            && |before.events| <= |r.events| <= |events|
            && AviTurns.Receive(pace, before.turns, calls[m])
               == Flushed(r.turns, events[|before.events|..|r.events|])
  {
    var before := AviTurns.ReceiveAll(pace, t, calls[..m]);
    var more := AviTurns.Receive(pace, before.turns, calls[m]);
    CallsPrefix(pace, t, calls, m + 1);
    CallsNext(pace, t, calls[..m + 1], calls[..m], before, more);
    assert events[0..] == events;
    NextStage(events, 0, before, more, AviTurns.ReceiveAll(pace, t, calls[..m + 1]));
  }

  lemma {:induction false} SessionPlanned(pace: Pace, t: Turns, calls: seq<Arrival>)
    requires Fit(pace, t) && CallsOk(pace, calls)
    ensures var before := AviTurns.ReceiveAll(pace, t, calls);
            var r := LastTurns(pace, before.turns, before.turns.cur, |pace.scale| - 1);
            var all := Session(pace, t, calls);
            && before.events <= all.events && all.events[|before.events|..] == r.events && all.turns == r.turns
  {
  }

  /** With one stream the file is always as it should be: every history is settled. */
  lemma {:induction false} OneStreamSettles(left: seq<Stream>, pace: Pace, t: Turns, calls: seq<Arrival>)
    requires Fit(pace, t) && |pace.scale| == 1 && t.queues == [[]] && CallsOk(pace, calls) && calls != []
    ensures Settled(left, Session(pace, t, calls).events)
  {
    OneStreamEndsWithData(pace, t, calls);
  }

  // ----- Histories with what they lead to -----

  /** Events, and the plan and the output before and after each. */
  datatype History = History(events: seq<Event>, plans: seq<Plan>, disks: seq<Output>)

  /** A mark by which one event of a history is called to mind. */
  predicate Stage(i: int) { true }

  ghost predicate Advances(h: History, i: nat)
    requires |h.plans| == |h.disks| == |h.events| + 1 && i < |h.events|
  {
    && CanTake(h.plans[i], h.events[i])
    && h.plans[i].streams[h.events[i].s].ixOff + IX_BYTES <= h.plans[i].size
    && h.plans[i + 1] == Take(h.plans[i], h.events[i])
    && h.disks[i + 1] == TakeOut(h.disks[i], h.plans[i], h.events[i])
  }

  ghost predicate Traced(h: History) {
    && |h.plans| == |h.disks| == |h.events| + 1
    && forall i {:trigger Stage(i)} :: 0 <= i < |h.events| && Stage(i) ==> Advances(h, i)
  }

  /** One more event. */
  lemma {:induction false} TraceMore(h: History, e: Event) returns (h': History)
    requires Traced(h)
    requires var p := h.plans[|h.events|]; CanTake(p, e) && p.streams[e.s].ixOff + IX_BYTES <= p.size
    ensures Traced(h') && h'.events == h.events + [e] && h'.plans[0] == h.plans[0] && h'.disks[0] == h.disks[0]
    ensures var p, o := h.plans[|h.events|], h.disks[|h.events|];
            h'.plans[|h.events| + 1] == Take(p, e) && h'.disks[|h.events| + 1] == TakeOut(o, p, e)
  {
    var n := |h.events|;
    h' := History(h.events + [e], h.plans + [Take(h.plans[n], e)], h.disks + [TakeOut(h.disks[n], h.plans[n], e)]);
    forall i | 0 <= i < |h'.events| && Stage(i) ensures Advances(h', i) {
      assert i < n ==> Advances(h, i);
    }
  }

  /** The history of a recording. */
  lemma {:induction false} Trace(left: seq<Stream>, base: nat, events: seq<Event>) returns (h: History)
    requires LeftOk(left) && EventsOk(|left|, events) && 0 < base && Planned(left, base, events).size <= INT_MAX
    ensures Traced(h) && h.events == events
    ensures h.plans[0] == Opened(left, base) && h.disks[0] == Output([], 0)
    ensures h.plans[|events|] == Planned(left, base, events) && h.disks[|events|] == Written(left, base, events)
  {
    if events == [] {
      h := History([], [Opened(left, base)], [Output([], 0)]);
    } else {
      var n := |events| - 1;
      TakeGrows(Planned(left, base, events[..n]), events[n]);
      ActiveInside(left, base, events[..n], events[n].s);
      var before := Trace(left, base, events[..n]);
      h := TraceMore(before, events[n]);
    }
  }

  class Filter {
    const mux: Mux
    const pace: Pace
    var queues: seq<seq<Sample>>
    var times: seq<int>
    var cur: nat
    var now: int

    ghost function Now(): Turns
      reads this
    {
      Turns(queues, times, cur, now)
    }

    ghost predicate Valid()
      reads this, mux, mux.out, mux.out.buf
    {
      Fit(pace, Now()) && mux.Valid() && |mux.streams| == |pace.scale|
    }

    constructor (pace: Pace)
      requires 0 < |pace.scale| && pace.interleave > 0
      ensures Valid() && fresh(mux) && fresh(mux.out) && fresh(mux.out.buf) && this.pace == pace
      ensures forall s :: 0 <= s < |pace.scale| ==> queues[s] == [] && mux.streams[s] == Blank()
    {
      mux := new Mux(|pace.scale|);
      this.pace := pace;
      queues, times := seq(|pace.scale|, _ => []), seq(|pace.scale|, _ => 0);
      cur, now := 0, 0;
    }

    /** i events of the history have been handled. */
    ghost predicate Placed(h: History, i: nat)
      reads this, mux, mux.out, mux.out.buf
    {
      Valid() && Traced(h) && i <= |h.events| && mux.Now() == h.plans[i] && mux.Disk() == h.disks[i]
    }

    /** The loop is about to handle the events up to end. */
    ghost predicate Plans(closing: bool, h: History, j: nat, end: nat, goal: Turns)
      reads this
    {
      Fit(pace, Now()) && j <= end <= |h.events| && Flush(pace, Now(), closing) == Flushed(goal, h.events[j..end])
    }

    /** What the multiplexer does with a sample that is due. */
    method HandOver(e: Event, ghost h: History, ghost j: nat)
      requires Placed(h, j) && j < |h.events| && h.events[j] == e
      modifies mux, mux.out, mux.out.buf
      ensures Placed(h, j + 1)
    {
      assert Stage(j) && Advances(h, j);
      mux.Handle(e);
    }

    /** It leaves its queue. */
    method Unqueue(closing: bool, ghost h: History, ghost j: nat, ghost end: nat, ghost goal: Turns)
      requires Plans(closing, h, j, end, goal) && queues[cur] != [] && Due(pace, Now(), closing)
      modifies this`queues, this`times
      ensures j < end && h.events[j] == old(Event(cur, queues[cur][0]))
      ensures Plans(closing, h, j + 1, end, goal) && Queued(queues) < Queued(old(queues))
    {
      FlushServed(pace, Now(), closing);
      NextIs(h.events, j, end, Event(cur, queues[cur][0]), Flush(pace, Served(pace, Now()), closing).events);
      QueuedLess(queues, cur, queues[cur][1..]);
      queues := queues[cur := queues[cur][1..]];
      times := times[cur := times[cur] + pace.scale[cur]];
      assert Now() == Served(pace, old(Now()));
    }

    /** The next stream's turn. */
    method Pass(ghost h: History, ghost j: nat, ghost end: nat, ghost goal: Turns)
      requires Plans(false, h, j, end, goal) && queues[cur] != [] && !Due(pace, Now(), false)
      modifies this`cur, this`now
      ensures Plans(false, h, j, end, goal) && Now() == Passed(pace, old(Now()))
    {
      cur := cur + 1;
      if cur >= |pace.scale| {
        now := now + pace.interleave;
        cur := 0;
      }
      assert Now() == Passed(pace, old(Now()));
    }

    /** One turn of the loop. */
    method Turn(closing: bool, ghost h: History, ghost j: nat,
                ghost end: nat, ghost goal: Turns)
      requires Placed(h, j) && Plans(closing, h, j, end, goal)
      requires queues[cur] != [] && Due(pace, Now(), closing)
      modifies this`queues, this`times, mux, mux.out, mux.out.buf
      ensures j < end && Placed(h, j + 1) && Plans(closing, h, j + 1, end, goal)
      ensures Queued(queues) < Queued(old(queues))
    {
      var e := Event(cur, queues[cur][0]);
      Unqueue(closing, h, j, end, goal);
      HandOver(e, h, j);
    }

    /** The loop of flush_queue. */
    method FlushLoop(closing: bool, ghost h: History, ghost i: nat,
                     ghost end: nat, ghost goal: Turns)
      requires Placed(h, i) && Plans(closing, h, i, end, goal)
      modifies this, mux, mux.out, mux.out.buf
      ensures Placed(h, end) && Now() == goal
    {
      ghost var j := i;
      while queues[cur] != []
        invariant Placed(h, j) && Plans(closing, h, j, end, goal)
        decreases Queued(queues), Ahead(pace, Now()), |pace.scale| - cur
      {
        if times[cur] + (if closing then 0 else pace.scale[cur]) > now && !queues[cur][0].dropped {
          if closing {
            break;
          }
          HorizonCovers(times, pace.scale, cur);
          Pass(h, j, end, goal);
        } else {
          Turn(closing, h, j, end, goal);
          j := j + 1;
        }
      }
    }

    /** queue_sample. */
    method Queue(s: nat, smp: Sample, ghost h: History, ghost i: nat,
                 ghost end: nat)
      requires s < |pace.scale| && Placed(h, i) && i <= end <= |h.events|
      requires QueueSample(pace, Now(), s, smp).events == h.events[i..end]
      modifies this, mux, mux.out, mux.out.buf
      ensures Placed(h, end) && Now() == QueueSample(pace, old(Now()), s, smp).turns
    {
      queues := queues[s := queues[s] + [smp]];
      if cur == s {
        FlushLoop(false, h, i, end, QueueSample(pace, old(Now()), s, smp).turns);
      }
    }

    /** m gaps have been queued. */
    ghost predicate AfterGaps(t: Turns, s: nat, m: nat, h: History, i: nat)
      requires Fit(pace, t) && s < |pace.scale|
      reads this, mux, mux.out, mux.out.buf
    {
      Now() == Gaps(pace, t, s, m).turns && Placed(h, i + |Gaps(pace, t, s, m).events|)
    }

    method QueueGaps(s: nat, n: nat, ghost h: History, ghost i: nat)
      requires s < |pace.scale| && Placed(h, i) && Gaps(pace, Now(), s, n).events <= h.events[i..]
      modifies this, mux, mux.out, mux.out.buf
      ensures AfterGaps(old(Now()), s, n, h, i)
    {
      ghost var t := Now();
      var m := 0;
      while m < n
        invariant m <= n && AfterGaps(t, s, m, h, i)
      {
        QueueGap(s, m, n, t, h, i);
        m := m + 1;
      }
    }

    method QueueGap(s: nat, ghost m: nat, ghost n: nat, ghost t: Turns, ghost h: History, ghost i: nat)
      requires Fit(pace, t) && s < |pace.scale| && m < n && AfterGaps(t, s, m, h, i)
      requires i <= |h.events| && Gaps(pace, t, s, n).events <= h.events[i..]
      modifies this, mux, mux.out, mux.out.buf
      ensures AfterGaps(t, s, m + 1, h, i)
    {
      NextGapPlanned(pace, t, s, m, n, h.events, i);
      ghost var before, r := Gaps(pace, t, s, m), Gaps(pace, t, s, m + 1);
      Queue(s, GAP, h, i + |before.events|, i + |r.events|);
    }

    /** AviMuxIn_Receive. */
    method Receive(a: Arrival, ghost h: History, ghost i: nat, ghost end: nat)
      requires a.s < |pace.scale| && Placed(h, i) && i <= end <= |h.events|
      requires AviTurns.Receive(pace, Now(), a).events == h.events[i..end]
      modifies this, mux, mux.out, mux.out.buf
      ensures Placed(h, end) && Now() == AviTurns.Receive(pace, old(Now()), a).turns
    {
      ghost var t := Now();
      ReceivePlanned(pace, t, a, h.events, i, end);
      QueueGaps(a.s, a.gaps, h, i);
      Queue(a.s, a.sample, h, i + |Gaps(pace, t, a.s, a.gaps).events|, end);
    }

    /** m calls have been dealt with. */
    ghost predicate AfterCalls(t: Turns, calls: seq<Arrival>, m: nat, h: History)
      requires Fit(pace, t) && CallsOk(pace, calls) && m <= |calls|
      reads this, mux, mux.out, mux.out.buf
    {
      && Now() == AviTurns.ReceiveAll(pace, t, calls[..m]).turns
      && Placed(h, |AviTurns.ReceiveAll(pace, t, calls[..m]).events|)
    }

    method ReceiveAll(calls: seq<Arrival>, ghost h: History)
      requires CallsOk(pace, calls) && Placed(h, 0) && AviTurns.ReceiveAll(pace, Now(), calls).events <= h.events
      modifies this, mux, mux.out, mux.out.buf
      ensures Now() == AviTurns.ReceiveAll(pace, old(Now()), calls).turns
      ensures Placed(h, |AviTurns.ReceiveAll(pace, old(Now()), calls).events|)
    {
      ghost var t := Now();
      var m := 0;
      assert calls[..0] == [];
      while m < |calls|
        invariant m <= |calls| && AfterCalls(t, calls, m, h)
      {
        NextCallPlanned(pace, t, calls, m, h.events);
        Receive(calls[m], h, |AviTurns.ReceiveAll(pace, t, calls[..m]).events|,
                |AviTurns.ReceiveAll(pace, t, calls[..m + 1]).events|);
        m := m + 1;
      }
      assert calls[..m] == calls;
    }

    /** m other streams have had their last turn. */
    ghost predicate AfterTurns(t: Turns, from: nat, m: nat, h: History, i: nat)
      requires Fit(pace, t) && from < |pace.scale| && m < |pace.scale|
      reads this, mux, mux.out, mux.out.buf
    {
      && Now() == LastTurns(pace, t, from, m).turns
      && Placed(h, i + |LastTurns(pace, t, from, m).events|)
    }

    /** A last turn for one stream. */
    method FlushOne(s: nat, ghost h: History, ghost j: nat, ghost end: nat, ghost goal: Turns)
      requires s < |pace.scale| && Placed(h, j) && j <= end <= |h.events|
      requires Flush(pace, Now().(cur := s), true) == Flushed(goal, h.events[j..end])
      modifies this, mux, mux.out, mux.out.buf
      ensures Placed(h, end) && Now() == goal
    {
      cur := s;
      FlushLoop(true, h, j, end, goal);
    }

    /** The last turns of the other streams. */
    method FlushOthers(ghost h: History, ghost i: nat, ghost r: Flushed)
      requires Placed(h, i) && r == LastTurns(pace, Now(), cur, |pace.scale| - 1) && r.events == h.events[i..]
      modifies this, mux, mux.out, mux.out.buf
      ensures Now() == r.turns && Placed(h, |h.events|)
    {
      ghost var t := Now();
      var from, m := cur, 0;
      while m < |pace.scale| - 1
        invariant m <= |pace.scale| - 1 && AfterTurns(t, from, m, h, i)
      {
        FlushNext(from, m, t, h, i);
        m := m + 1;
      }
    }

    method FlushNext(from: nat, m: nat, ghost t: Turns, ghost h: History, ghost i: nat)
      requires Fit(pace, t) && from < |pace.scale| && m + 1 < |pace.scale| && AfterTurns(t, from, m, h, i)
      requires i <= |h.events| && LastTurns(pace, t, from, |pace.scale| - 1).events <= h.events[i..]
      modifies this, mux, mux.out, mux.out.buf
      ensures AfterTurns(t, from, m + 1, h, i)
    {
      NextTurnsPlanned(pace, t, from, m, h.events, i);
      ghost var before, r := LastTurns(pace, t, from, m), LastTurns(pace, t, from, m + 1);
      FlushOne(Following(from, m + 1, |pace.scale|), h, i + |before.events|, i + |r.events|, r.turns);
    }

    /** All samples of a recording: those that become due as samples arrive, and those that closing
        lets through. */
    method HandleSession(calls: seq<Arrival>, ghost h: History)
      requires CallsOk(pace, calls) && Placed(h, 0) && h.events == Session(pace, Now(), calls).events
      modifies this, mux, mux.out, mux.out.buf
      ensures Placed(h, |h.events|) && Now() == Session(pace, old(Now()), calls).turns
    {
      ghost var before := AviTurns.ReceiveAll(pace, Now(), calls);
      ghost var last := LastTurns(pace, before.turns, before.turns.cur, |pace.scale| - 1);
      SessionPlanned(pace, Now(), calls);
      ReceiveAll(calls, h);
      FlushOthers(h, |before.events|, last);
    }

    /** Up to closing. */
    method Film(base: nat, calls: seq<Arrival>, ghost left: seq<Stream>, ghost events: seq<Event>)
      requires Valid() && CallsOk(pace, calls) && left == mux.streams && events == Session(pace, Now(), calls).events
      requires LeftOk(left) && EventsOk(|left|, events) && 0 < base && Planned(left, base, events).size <= INT_MAX
      modifies this, mux, mux.out, mux.out.buf
      ensures Valid() && Now() == Session(pace, old(Now()), calls).turns && Tracks(mux, left, base, events)
    {
      ghost var h := Trace(left, base, events);
      mux.Open(base);
      HandleSession(calls, h);
    }

    /** A recording, from init_stream to cleanup_stream, of a filter that may have recorded before. */
    method Run(base: nat, calls: seq<Arrival>, d: Descr, ghost left: seq<Stream>, ghost r: Flushed)
        returns (file: seq<byte>)
      requires Valid() && CallsOk(pace, calls) && left == mux.streams && r == Session(pace, Now(), calls)
      requires Recordable(left, base, r.events, d)
      modifies this, mux, mux.out, mux.out.buf
      ensures Valid() && Now() == r.turns && mux.streams == Leaves(left, base, r.events)
      ensures file == Recorded(left, base, r.events, d)
      ensures Settled(left, r.events) ==> AllAgree(left, base, r.events, file)
    {
      BasesBelow(left, base, r.events);
      Film(base, calls, left, r.events);
      file := Finish(mux, left, base, r.events, d);
      if Settled(left, r.events) {
        RecordedAgrees(left, base, r.events, d);
      }
    }
  }
}
