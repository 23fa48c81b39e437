/** Whose sample is due: how the AVI multiplexer takes turns between the queues of its streams, and in
    which order samples therefore come to be handled. */
module AviTurns {
  import opened AviIndex
  import opened AviLayout

  /** The interleave, and the duration of a sample (dwScale) of each stream. */
  datatype Pace = Pace(interleave: int, scale: seq<nat>)

  /** Samples that wait, how far each stream has come, whose turn it is and until what time. */
  datatype Turns = Turns(queues: seq<seq<Sample>>, times: seq<int>, cur: nat, now: int)

  predicate Fit(pace: Pace, t: Turns) {
    |t.queues| == |t.times| == |pace.scale| && t.cur < |pace.scale| && pace.interleave > 0
  }

  /** What a loop has left, and what it has handled. */
  datatype Flushed = Flushed(turns: Turns, events: seq<Event>)

  // ----- The loop of flush_queue -----

  /** A discontinuity is always due, another sample when the stream has not run ahead. */
  predicate Due(pace: Pace, t: Turns, closing: bool)
    requires Fit(pace, t) && t.queues[t.cur] != []
  {
    t.queues[t.cur][0].dropped || t.times[t.cur] + (if closing then 0 else pace.scale[t.cur]) <= t.now
  }

  function Served(pace: Pace, t: Turns): (r: Turns)
    requires Fit(pace, t) && t.queues[t.cur] != []
    ensures Fit(pace, r)
  {
    t.(queues := t.queues[t.cur := t.queues[t.cur][1..]],
       times := t.times[t.cur := t.times[t.cur] + pace.scale[t.cur]])
  }

  /** The next stream's turn; after the last stream time goes on. */
  function Passed(pace: Pace, t: Turns): (r: Turns)
    requires Fit(pace, t)
    ensures Fit(pace, r)
  {
    if t.cur + 1 < |pace.scale| then t.(cur := t.cur + 1) else t.(cur := 0, now := t.now + pace.interleave)
  }

  function Queued(queues: seq<seq<Sample>>): nat {
    if queues == [] then 0 else Queued(queues[..|queues| - 1]) + |queues[|queues| - 1]|
  }

  lemma {:induction false} QueuedLess(queues: seq<seq<Sample>>, s: nat, q: seq<Sample>)
    requires s < |queues|
    ensures Queued(queues[s := q]) == Queued(queues) - |queues[s]| + |q|
  {
    var n := |queues| - 1;
    if s == n {
      assert queues[s := q][..n] == queues[..n];
    } else {
      QueuedLess(queues[..n], s, q);
      assert queues[s := q][..n] == queues[..n][s := q];
    }
  }

  /** By when every stream would be due. */
  function Horizon(times: seq<int>, scale: seq<nat>): int
    requires |times| == |scale|
  {
    if times == [] then 0
    else
      var n := |times| - 1;
      var h, here := Horizon(times[..n], scale[..n]), times[n] + scale[n];
      if here > h then here else h
  }

  lemma {:induction false} HorizonCovers(times: seq<int>, scale: seq<nat>, s: nat)
    requires s < |times| == |scale|
    ensures times[s] + scale[s] <= Horizon(times, scale)
  {
    if s < |times| - 1 {
      HorizonCovers(times[..|times| - 1], scale[..|times| - 1], s);
    }
  }

  function Ahead(pace: Pace, t: Turns): nat
    requires Fit(pace, t)
  {
    var h := Horizon(t.times, pace.scale);
    if h > t.now then h - t.now else 0
  }

  /** The loop, from the stream whose turn it is. */
  function Flush(pace: Pace, t: Turns, closing: bool): (r: Flushed)
    requires Fit(pace, t)
    ensures Fit(pace, r.turns)
    decreases Queued(t.queues), Ahead(pace, t), |pace.scale| - t.cur
  {
    if t.queues[t.cur] == [] then Flushed(t, [])
    else if Due(pace, t, closing) then
      QueuedLess(t.queues, t.cur, t.queues[t.cur][1..]);
      var r := Flush(pace, Served(pace, t), closing);
      Flushed(r.turns, [Event(t.cur, t.queues[t.cur][0])] + r.events)
    else if closing then Flushed(t, [])
    else
      HorizonCovers(t.times, pace.scale, t.cur);
      Flush(pace, Passed(pace, t), closing)
  }

  /** flush_queue returns at once if it is another stream's turn. */
  function FlushQueue(pace: Pace, t: Turns, s: nat, closing: bool): (r: Flushed)
    requires Fit(pace, t)
    ensures Fit(pace, r.turns)
  {
    if t.cur != s then Flushed(t, []) else Flush(pace, t, closing)
  }

  // ----- Samples coming in -----

  /** queue_sample. */
  function QueueSample(pace: Pace, t: Turns, s: nat, smp: Sample): (r: Flushed)
    requires Fit(pace, t) && s < |pace.scale|
    ensures Fit(pace, r.turns)
  {
    FlushQueue(pace, t.(queues := t.queues[s := t.queues[s] + [smp]]), s, false)
  }

  /** The sample that stands for a frame missing before the one received. */
  const GAP := Sample([], false, true)

  /** A call of Receive for stream s that finds so many frames missing. */
  datatype Arrival = Arrival(s: nat, gaps: nat, sample: Sample)

  function Gaps(pace: Pace, t: Turns, s: nat, n: nat): (r: Flushed)
    requires Fit(pace, t) && s < |pace.scale|
    ensures Fit(pace, r.turns)
  {
    if n == 0 then Flushed(t, [])
    else
      var before := Gaps(pace, t, s, n - 1);
      var r := QueueSample(pace, before.turns, s, GAP);
      Flushed(r.turns, before.events + r.events)
  }

  /** AviMuxIn_Receive: a gap for each missing frame, and then the sample, which has data. */
  function Receive(pace: Pace, t: Turns, a: Arrival): (r: Flushed)
    requires Fit(pace, t) && a.s < |pace.scale|
    ensures Fit(pace, r.turns)
  {
    var before := Gaps(pace, t, a.s, a.gaps);
    var r := QueueSample(pace, before.turns, a.s, a.sample);
    Flushed(r.turns, before.events + r.events)
  }

  predicate CallsOk(pace: Pace, calls: seq<Arrival>) {
    forall i :: 0 <= i < |calls| ==>
      calls[i].s < |pace.scale| && !calls[i].sample.dropped && SampleOk(calls[i].sample)
  }

  function ReceiveAll(pace: Pace, t: Turns, calls: seq<Arrival>): (r: Flushed)
    requires Fit(pace, t) && CallsOk(pace, calls)
    ensures Fit(pace, r.turns)
  {
    if calls == [] then Flushed(t, [])
    else
      var n := |calls| - 1;
      var before := ReceiveAll(pace, t, calls[..n]);
      var r := Receive(pace, before.turns, calls[n]);
      Flushed(r.turns, before.events + r.events)
  }

  // ----- Closing -----

  /** The m-th stream after the one whose turn it was. */
  function Following(from: nat, m: nat, k: nat): (s: nat)
    requires from < k && m < k
    ensures s < k && (m > 0 ==> s != from)
  {
    if from + m < k then from + m else from + m - k
  }

  /** avi_mux_cleanup_stream gives m other streams, one after the other, a last turn. */
  function LastTurns(pace: Pace, t: Turns, from: nat, m: nat): (r: Flushed)
    requires Fit(pace, t) && from < |pace.scale| && m < |pace.scale|
    ensures Fit(pace, r.turns)
  {
    if m == 0 then Flushed(t, [])
    else
      var before := LastTurns(pace, t, from, m - 1);
      var r := Flush(pace, before.turns.(cur := Following(from, m, |pace.scale|)), true);
      Flushed(r.turns, before.events + r.events)
  }

  /** All that a recording handles: what becomes due as samples arrive, and what closing lets through. */
  function Session(pace: Pace, t: Turns, calls: seq<Arrival>): (r: Flushed)
    requires Fit(pace, t) && CallsOk(pace, calls)
    ensures Fit(pace, r.turns)
  {
    var before := ReceiveAll(pace, t, calls);
    var r := LastTurns(pace, before.turns, before.turns.cur, |pace.scale| - 1);
    Flushed(r.turns, before.events + r.events)
  }

  // ----- Nothing is lost and nothing overtakes within a stream -----

  lemma {:induction false} SubAppend(a: seq<Event>, b: seq<Event>, s: nat)
    ensures Sub(a + b, s) == Sub(a, s) + Sub(b, s)
  {
    if b == [] {
      assert a + b == a;
    } else {
      var n := |b| - 1;
      SubAppend(a, b[..n], s);
      assert (a + b)[..|a + b| - 1] == a + b[..n];
    }
  }

  lemma {:induction false} SubOne(e: Event, s: nat)
    ensures Sub([e], s) == if e.s == s then [e.sample] else []
  {
    assert [e][..0] == [];
  }

  /** What has been handled of each stream, followed by what still waits, is all there was. */
  ghost predicate Carries(queues: seq<seq<Sample>>, r: Flushed) {
    && |r.turns.queues| == |queues|
    && (forall i :: 0 <= i < |r.events| ==> r.events[i].s < |queues|)
    && forall s :: 0 <= s < |queues| ==> Sub(r.events, s) + r.turns.queues[s] == queues[s]
  }

  lemma {:induction false} FlushCarries(pace: Pace, t: Turns, closing: bool)
    requires Fit(pace, t)
    ensures Carries(t.queues, Flush(pace, t, closing))
    decreases Queued(t.queues), Ahead(pace, t), |pace.scale| - t.cur
  {
    if t.queues[t.cur] != [] {
      if Due(pace, t, closing) {
        QueuedLess(t.queues, t.cur, t.queues[t.cur][1..]);
        FlushCarries(pace, Served(pace, t), closing);
        ServedCarries(pace, t, Flush(pace, Served(pace, t), closing));
      } else if !closing {
        HorizonCovers(t.times, pace.scale, t.cur);
        FlushCarries(pace, Passed(pace, t), closing);
      }
    }
  }

  lemma {:induction false} ServedCarries(pace: Pace, t: Turns, r: Flushed)
    requires Fit(pace, t) && t.queues[t.cur] != [] && Carries(Served(pace, t).queues, r)
    ensures Carries(t.queues, Flushed(r.turns, [Event(t.cur, t.queues[t.cur][0])] + r.events))
  {
    var first := Event(t.cur, t.queues[t.cur][0]);
    forall s | 0 <= s < |t.queues| ensures Sub([first] + r.events, s) + r.turns.queues[s] == t.queues[s] {
      SubAppend([first], r.events, s);
      SubOne(first, s);
      if s == t.cur {
        assert [first.sample] + (Sub(r.events, s) + r.turns.queues[s]) == t.queues[s];
      }
      assert Sub([first], s) + Sub(r.events, s) + r.turns.queues[s]
          == Sub([first], s) + (Sub(r.events, s) + r.turns.queues[s]);
    }
  }

  /** One loop after another, with more samples of stream a coming in between. */
  lemma {:induction false} ThenCarries(queues: seq<seq<Sample>>, r: Flushed, a: nat, more: seq<Sample>, r': Flushed)
    requires Carries(queues, r) && a < |queues|
    requires Carries(r.turns.queues[a := r.turns.queues[a] + more], r')
    ensures Carries(queues[a := queues[a] + more], Flushed(r'.turns, r.events + r'.events))
  {
    forall s | 0 <= s < |queues|
      ensures Sub(r.events + r'.events, s) + r'.turns.queues[s] == queues[a := queues[a] + more][s]
    {
      SubAppend(r.events, r'.events, s);
      var x, y, q := Sub(r.events, s), Sub(r'.events, s), r.turns.queues[s];
      assert x + y + r'.turns.queues[s] == x + (y + r'.turns.queues[s]);
      assert x + (q + more) == x + q + more;
    }
  }

  lemma {:induction false} QueueCarries(pace: Pace, t: Turns, s: nat, smp: Sample)
    requires Fit(pace, t) && s < |pace.scale|
    ensures Carries(t.queues[s := t.queues[s] + [smp]], QueueSample(pace, t, s, smp))
  {
    var t' := t.(queues := t.queues[s := t.queues[s] + [smp]]);
    if t.cur == s {
      FlushCarries(pace, t', false);
    }
  }

  function Copies(smp: Sample, n: nat): (q: seq<Sample>)
    ensures |q| == n && forall i :: 0 <= i < n ==> q[i] == smp
  {
    seq(n, _ => smp)
  }

  lemma {:induction false} GapsCarry(pace: Pace, t: Turns, s: nat, n: nat)
    requires Fit(pace, t) && s < |pace.scale|
    ensures Carries(t.queues[s := t.queues[s] + Copies(GAP, n)], Gaps(pace, t, s, n))
  {
    if n == 0 {
      assert t.queues[s] + Copies(GAP, 0) == t.queues[s];
    } else {
      GapsCarry(pace, t, s, n - 1);
      var before := Gaps(pace, t, s, n - 1);
      QueueCarries(pace, before.turns, s, GAP);
      ThenCarries(t.queues[s := t.queues[s] + Copies(GAP, n - 1)], before, s, [GAP],
                  QueueSample(pace, before.turns, s, GAP));
      assert t.queues[s] + Copies(GAP, n - 1) + [GAP] == t.queues[s] + Copies(GAP, n);
    }
  }

  /** The samples that a call brings. */
  function Brought(a: Arrival): seq<Sample> { Copies(GAP, a.gaps) + [a.sample] }

  lemma {:induction false} ReceiveCarries(pace: Pace, t: Turns, a: Arrival)
    requires Fit(pace, t) && a.s < |pace.scale|
    ensures Carries(t.queues[a.s := t.queues[a.s] + Brought(a)], Receive(pace, t, a))
  {
    GapsCarry(pace, t, a.s, a.gaps);
    var before := Gaps(pace, t, a.s, a.gaps);
    QueueCarries(pace, before.turns, a.s, a.sample);
    ThenCarries(t.queues[a.s := t.queues[a.s] + Copies(GAP, a.gaps)], before, a.s, [a.sample],
                QueueSample(pace, before.turns, a.s, a.sample));
    assert t.queues[a.s] + Copies(GAP, a.gaps) + [a.sample] == t.queues[a.s] + Brought(a);
  }

  /** All samples of stream s, in the order in which they came. */
  function Arrived(calls: seq<Arrival>, s: nat): seq<Sample> {
    if calls == [] then []
    else
      var n := |calls| - 1;
      Arrived(calls[..n], s) + (if calls[n].s == s then Brought(calls[n]) else [])
  }

  function AllArrived(queues: seq<seq<Sample>>, calls: seq<Arrival>): (r: seq<seq<Sample>>)
    ensures |r| == |queues| && forall s :: 0 <= s < |queues| ==> r[s] == queues[s] + Arrived(calls, s)
  {
    seq(|queues|, s requires 0 <= s < |queues| => queues[s] + Arrived(calls, s))
  }

  lemma {:induction false} NoneArrived(queues: seq<seq<Sample>>)
    ensures AllArrived(queues, []) == queues
  {
    var r := AllArrived(queues, []);
    forall s | 0 <= s < |queues| ensures r[s] == queues[s] {
      assert queues[s] + [] == queues[s];
    }
  }

  lemma {:induction false} MoreArrived(queues: seq<seq<Sample>>, calls: seq<Arrival>)
    requires calls != [] && calls[|calls| - 1].s < |queues|
    ensures var n := |calls| - 1;
            var q := AllArrived(queues, calls[..n]);
            AllArrived(queues, calls) == q[calls[n].s := q[calls[n].s] + Brought(calls[n])]
  {
    var n := |calls| - 1;
    var a := calls[n];
    var q, r := AllArrived(queues, calls[..n]), AllArrived(queues, calls);
    var q' := q[a.s := q[a.s] + Brought(a)];
    forall s | 0 <= s < |queues| ensures r[s] == q'[s] {
      if s == a.s {
        assert queues[s] + (Arrived(calls[..n], s) + Brought(a)) == queues[s] + Arrived(calls[..n], s) + Brought(a);
      } else {
        assert Arrived(calls[..n], s) + [] == Arrived(calls[..n], s);
      }
    }
  }

  lemma {:induction false} ReceiveAllCarries(pace: Pace, t: Turns, calls: seq<Arrival>)
    requires Fit(pace, t) && CallsOk(pace, calls)
    ensures Carries(AllArrived(t.queues, calls), ReceiveAll(pace, t, calls))
  {
    if calls == [] {
      NoneArrived(t.queues);
    } else {
      var n := |calls| - 1;
      var a := calls[n];
      ReceiveAllCarries(pace, t, calls[..n]);
      var before := ReceiveAll(pace, t, calls[..n]);
      ReceiveCarries(pace, before.turns, a);
      var queues := AllArrived(t.queues, calls[..n]);
      ThenCarries(queues, before, a.s, Brought(a), Receive(pace, before.turns, a));
      MoreArrived(t.queues, calls);
    }
  }

  lemma {:induction false} LastTurnsCarry(pace: Pace, t: Turns, from: nat, m: nat)
    requires Fit(pace, t) && from < |pace.scale| && m < |pace.scale|
    ensures Carries(t.queues, LastTurns(pace, t, from, m))
  {
    if m > 0 {
      LastTurnsCarry(pace, t, from, m - 1);
      var before := LastTurns(pace, t, from, m - 1);
      TurnCarries(pace, t.queues, before, before.turns.(cur := Following(from, m, |pace.scale|)));
    }
  }

  lemma {:induction false} TurnCarries(pace: Pace, queues: seq<seq<Sample>>, before: Flushed, t: Turns)
    requires Fit(pace, t) && Carries(queues, before) && t.queues == before.turns.queues
    ensures var r := Flush(pace, t, true); Carries(queues, Flushed(r.turns, before.events + r.events))
  {
    FlushCarries(pace, t, true);
    JoinCarries(queues, before, Flush(pace, t, true));
  }

  lemma {:induction false} JoinCarries(queues: seq<seq<Sample>>, r: Flushed, r': Flushed)
    requires Carries(queues, r) && Carries(r.turns.queues, r')
    ensures Carries(queues, Flushed(r'.turns, r.events + r'.events))
  {
    if queues != [] {
      assert r.turns.queues[0] + [] == r.turns.queues[0] && queues[0] + [] == queues[0];
      assert r.turns.queues[0 := r.turns.queues[0] + []] == r.turns.queues && queues[0 := queues[0] + []] == queues;
      ThenCarries(queues, r, 0, [], r');
    }
  }

  /** Of every stream, what a recording handles and what it leaves in the queue are together the
      samples that waited before and those that came, gaps included, in order. */
  lemma {:induction false} SessionCarries(pace: Pace, t: Turns, calls: seq<Arrival>)
    requires Fit(pace, t) && CallsOk(pace, calls)
    ensures Carries(AllArrived(t.queues, calls), Session(pace, t, calls))
  {
    ReceiveAllCarries(pace, t, calls);
    var before := ReceiveAll(pace, t, calls);
    LastTurnsCarry(pace, before.turns, before.turns.cur, |pace.scale| - 1);
    JoinCarries(AllArrived(t.queues, calls), before,
                LastTurns(pace, before.turns, before.turns.cur, |pace.scale| - 1));
  }

  // ----- One stream -----

  /** With one stream nothing waits for others. */
  lemma {:induction false} OneEmpties(pace: Pace, t: Turns)
    requires Fit(pace, t) && |pace.scale| == 1
    ensures Flush(pace, t, false).turns.queues == [[]]
    decreases Queued(t.queues), Ahead(pace, t)
  {
    if t.queues[0] == [] {
      assert t.queues == [[]];
    } else if Due(pace, t, false) {
      QueuedLess(t.queues, 0, t.queues[0][1..]);
      OneEmpties(pace, Served(pace, t));
    } else {
      HorizonCovers(t.times, pace.scale, 0);
      OneEmpties(pace, Passed(pace, t));
    }
  }

  lemma {:induction false} SubOfOne(events: seq<Event>)
    requires forall i :: 0 <= i < |events| ==> events[i].s == 0
    ensures |Sub(events, 0)| == |events| && forall i :: 0 <= i < |events| ==> Sub(events, 0)[i] == events[i].sample
  {
    if events != [] {
      SubOfOne(events[..|events| - 1]);
    }
  }

  /** A recording of one stream handles everything that came, so that its last sample has data. */
  lemma {:induction false} OneStreamEndsWithData(pace: Pace, t: Turns, calls: seq<Arrival>)
    requires Fit(pace, t) && |pace.scale| == 1 && t.queues == [[]] && CallsOk(pace, calls)
    ensures var r := Session(pace, t, calls);
            && r.turns.queues == [[]] && Sub(r.events, 0) == Arrived(calls, 0)
            && (calls != [] ==> r.events != [] && !r.events[|r.events| - 1].sample.dropped)
  {
    var r := Session(pace, t, calls);
    SessionCarries(pace, t, calls);
    assert LastTurns(pace, ReceiveAll(pace, t, calls).turns, 0, 0).events == [];
    OneAllEmpties(pace, t, calls);
    assert Sub(r.events, 0) + [] == Sub(r.events, 0) && t.queues[0] + Arrived(calls, 0) == Arrived(calls, 0);
    SubOfOne(r.events);
    if calls != [] {
      assert Arrived(calls, 0)[|Arrived(calls, 0)| - 1] == calls[|calls| - 1].sample;
    }
  }

  lemma {:induction false} OneAllEmpties(pace: Pace, t: Turns, calls: seq<Arrival>)
    requires Fit(pace, t) && |pace.scale| == 1 && t.queues == [[]] && CallsOk(pace, calls)
    ensures ReceiveAll(pace, t, calls).turns.queues == [[]]
  {
    if calls != [] {
      var n := |calls| - 1;
      var a := calls[n];
      var before := Gaps(pace, ReceiveAll(pace, t, calls[..n]).turns, a.s, a.gaps).turns;
      OneEmpties(pace, before.(queues := before.queues[0 := before.queues[0] + [a.sample]]));
    }
  }

  // ----- Stages of a recording -----

  lemma {:induction false} FlushServed(pace: Pace, t: Turns, closing: bool)
    requires Fit(pace, t) && t.queues[t.cur] != [] && Due(pace, t, closing)
    ensures var r := Flush(pace, Served(pace, t), closing);
            Flush(pace, t, closing) == Flushed(r.turns, [Event(t.cur, t.queues[t.cur][0])] + r.events)
  {
  }

  lemma {:induction false} GapsPrefix(pace: Pace, t: Turns, s: nat, m: nat, n: nat)
    requires Fit(pace, t) && s < |pace.scale| && m <= n
    ensures Gaps(pace, t, s, m).events <= Gaps(pace, t, s, n).events
    decreases n - m
  {
    if m < n {
      GapsPrefix(pace, t, s, m, n - 1);
    }
  }

  lemma {:induction false} CallsPrefix(pace: Pace, t: Turns, calls: seq<Arrival>, m: nat)
    requires Fit(pace, t) && CallsOk(pace, calls) && m <= |calls|
    ensures CallsOk(pace, calls[..m]) && ReceiveAll(pace, t, calls[..m]).events <= ReceiveAll(pace, t, calls).events
    decreases |calls| - m
  {
    if m == |calls| {
      assert calls[..m] == calls;
    } else {
      CallsPrefix(pace, t, calls, m + 1);
      assert calls[..m + 1][..m] == calls[..m];
    }
  }

  lemma {:induction false} CallsNext(pace: Pace, t: Turns, calls: seq<Arrival>, front: seq<Arrival>,
                                     before: Flushed, more: Flushed)
    requires Fit(pace, t) && CallsOk(pace, calls) && calls != [] && front == calls[..|calls| - 1]
    requires before == ReceiveAll(pace, t, front) && more == Receive(pace, before.turns, calls[|calls| - 1])
    ensures ReceiveAll(pace, t, calls) == Flushed(more.turns, before.events + more.events)
  {
  }

  lemma {:induction false} TurnsPrefix(pace: Pace, t: Turns, from: nat, m: nat, n: nat)
    requires Fit(pace, t) && from < |pace.scale| && m <= n < |pace.scale|
    ensures LastTurns(pace, t, from, m).events <= LastTurns(pace, t, from, n).events
    decreases n - m
  {
    if m < n {
      TurnsPrefix(pace, t, from, m, n - 1);
    }
  }
}
