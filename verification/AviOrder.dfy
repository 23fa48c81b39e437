/** The order in which the samples of all streams are handled, told by counting: without the queues,
    the clocks and the loop that bring it about. */
module AviOrder {
  import opened AviIndex
  import opened AviLayout
  import opened AviTurns

  // ----- Logs -----

  /** In its turn, at the time reached, a stream has its next sample handled, or is passed over. */
  datatype Deed = Deed(s: nat, time: int, sample: Sample, handled: bool)

  /** How many samples of a stream have been handled. */
  function Done(log: seq<Deed>, s: nat): nat {
    if log == [] then 0
    else
      var n := |log| - 1;
      Done(log[..n], s) + (if log[n].s == s && log[n].handled then 1 else 0)
  }

  /** The samples handled, in order. */
  function Chosen(log: seq<Deed>): seq<Event> {
    if log == [] then []
    else
      var n := |log| - 1;
      Chosen(log[..n]) + (if log[n].handled then [Event(log[n].s, log[n].sample)] else [])
  }

  /** Whose turn it is next: a stream keeps its turn while its samples are handled, then the next
      stream has it; after the last one the time goes on by the interleave. */
  predicate IsTurn(pace: Pace, t: Turns, log: seq<Deed>, s: nat, time: int) {
    if log == [] then s == t.cur && time == t.now
    else
      var d := log[|log| - 1];
      if d.handled then s == d.s && time == d.time
      else if d.s + 1 < |pace.scale| then s == d.s + 1 && time == d.time
      else s == 0 && time == d.time + pace.interleave
  }

  /** Deed j is about the next sample of the stream whose turn it is.  That is handled if it is a
      discontinuity or if, with all samples of the stream so far and itself, the stream does not run
      ahead of the time; otherwise the stream is passed over. */
  ghost predicate LawfulAt(pace: Pace, t: Turns, all: seq<seq<Sample>>, log: seq<Deed>, j: nat)
    requires j < |log| && |all| == |pace.scale| == |t.times|
  {
    var d, n := log[j], Done(log[..j], log[j].s);
    && IsTurn(pace, t, log[..j], d.s, d.time) && d.s < |all| && n < |all[d.s]| && d.sample == all[d.s][n]
    && (d.handled <==> d.sample.dropped || t.times[d.s] + pace.scale[d.s] * (n + 1) <= d.time)
  }

  /** A log of the samples of all streams, from given times and a given turn on. */
  ghost predicate Lawful(pace: Pace, t: Turns, all: seq<seq<Sample>>, log: seq<Deed>) {
    && |all| == |pace.scale| == |t.times|
    && forall j :: 0 <= j < |log| ==> LawfulAt(pace, t, all, log, j)
  }

  /** There is no choice: of two such logs one is the beginning of the other. */
  lemma {:induction false} LawfulUnique(pace: Pace, t: Turns, all: seq<seq<Sample>>, a: seq<Deed>, b: seq<Deed>)
    requires Lawful(pace, t, all, a) && Lawful(pace, t, all, b) && |a| <= |b|
    ensures a == b[..|a|]
  {
    if a != [] {
      var n := |a| - 1;
      LawfulFront(pace, t, all, a, n);
      LawfulUnique(pace, t, all, a[..n], b);
      assert LawfulAt(pace, t, all, a, n) && LawfulAt(pace, t, all, b, n);
      assert a[..n] == b[..n];
      assert a[n] == b[n];
    }
  }

  lemma {:induction false} LawfulFront(pace: Pace, t: Turns, all: seq<seq<Sample>>, log: seq<Deed>, n: nat)
    requires Lawful(pace, t, all, log) && n <= |log|
    ensures Lawful(pace, t, all, log[..n])
  {
    forall j | 0 <= j < n ensures LawfulAt(pace, t, all, log[..n], j) {
      assert LawfulAt(pace, t, all, log, j) && log[..n][..j] == log[..j];
    }
  }

  lemma {:induction false} LawfulSnoc(pace: Pace, t: Turns, all: seq<seq<Sample>>, log: seq<Deed>, d: Deed)
    requires Lawful(pace, t, all, log) && IsTurn(pace, t, log, d.s, d.time) && d.s < |all|
    requires Done(log, d.s) < |all[d.s]| && d.sample == all[d.s][Done(log, d.s)]
    requires d.handled <==> d.sample.dropped || t.times[d.s] + pace.scale[d.s] * (Done(log, d.s) + 1) <= d.time
    ensures Lawful(pace, t, all, log + [d])
  {
    forall j | 0 <= j < |log| + 1 ensures LawfulAt(pace, t, all, log + [d], j) {
      if j < |log| {
        assert LawfulAt(pace, t, all, log, j) && (log + [d])[..j] == log[..j];
      } else {
        assert (log + [d])[..j] == log;
      }
    }
  }

  /** More samples behind the others change nothing that has been done. */
  lemma {:induction false} LawfulMore(pace: Pace, t: Turns, all: seq<seq<Sample>>, log: seq<Deed>, s: nat, smp: Sample)
    requires Lawful(pace, t, all, log) && s < |all|
    ensures Lawful(pace, t, all[s := all[s] + [smp]], log)
  {
    var all' := all[s := all[s] + [smp]];
    forall j | 0 <= j < |log| ensures LawfulAt(pace, t, all', log, j) {
      assert LawfulAt(pace, t, all, log, j);
    }
  }

  lemma {:induction false} DoneIsSub(log: seq<Deed>, s: nat)
    ensures Done(log, s) == |Sub(Chosen(log), s)|
  {
    if log != [] {
      var n := |log| - 1;
      DoneIsSub(log[..n], s);
      if log[n].handled {
        SubAppend(Chosen(log[..n]), [Event(log[n].s, log[n].sample)], s);
        SubOne(Event(log[n].s, log[n].sample), s);
      } else {
        assert Chosen(log) == Chosen(log[..n]);
      }
    }
  }

  lemma {:induction false} DoneSnoc(log: seq<Deed>, d: Deed, s: nat)
    ensures Done(log + [d], s) == Done(log, s) + (if d.s == s && d.handled then 1 else 0)
    ensures Chosen(log + [d]) == Chosen(log) + (if d.handled then [Event(d.s, d.sample)] else [])
  {
    assert (log + [d])[..|log|] == log;
  }

  // ----- The loop keeps to the law -----

  /** Queues, clocks and turn are what the log makes of all samples and the clocks before. */
  ghost predicate Matches(pace: Pace, t: Turns, all: seq<seq<Sample>>, log: seq<Deed>, now: Turns) {
    && Lawful(pace, t, all, log) && Fit(pace, now) && IsTurn(pace, t, log, now.cur, now.now)
    && forall s :: 0 <= s < |all| ==> InStep(pace, t, all, log, now, s)
  }

  ghost predicate InStep(pace: Pace, t: Turns, all: seq<seq<Sample>>, log: seq<Deed>, now: Turns, s: nat)
    requires s < |all| == |pace.scale| == |t.times| && Fit(pace, now)
  {
    && Done(log, s) <= |all[s]| && now.queues[s] == all[s][Done(log, s)..]
    && now.times[s] == t.times[s] + pace.scale[s] * Done(log, s)
  }

  /** The decision that the loop takes. */
  lemma {:induction false} MatchesNext(pace: Pace, t: Turns, all: seq<seq<Sample>>, log: seq<Deed>, now: Turns)
      returns (d: Deed)
    requires Matches(pace, t, all, log, now) && now.queues[now.cur] != []
    ensures d == Deed(now.cur, now.now, now.queues[now.cur][0], Due(pace, now, false))
    ensures Matches(pace, t, all, log + [d], if d.handled then Served(pace, now) else Passed(pace, now))
  {
    var s := now.cur;
    d := Deed(s, now.now, now.queues[s][0], Due(pace, now, false));
    assert InStep(pace, t, all, log, now, s);
    NextClock(pace.scale[s], Done(log, s));
    LawfulSnoc(pace, t, all, log, d);
    assert (log + [d])[|log + [d]| - 1] == d;
    var next := if d.handled then Served(pace, now) else Passed(pace, now);
    forall x | 0 <= x < |all| ensures InStep(pace, t, all, log + [d], next, x) {
      assert InStep(pace, t, all, log, now, x);
      DoneSnoc(log, d, x);
    }
  }

  lemma {:induction false} NextClock(scale: nat, n: nat)
    ensures scale * (n + 1) == scale * n + scale
  {
  }

  /** The loop has gone from one log to another. */
  ghost predicate Loops(pace: Pace, t: Turns, all: seq<seq<Sample>>, log: seq<Deed>, more: seq<Deed>, r: Flushed) {
    && Matches(pace, t, all, more, r.turns) && Chosen(more) == Chosen(log) + r.events
    && r.turns.queues[r.turns.cur] == []
  }

  lemma {:induction false} FlushLawful(pace: Pace, t: Turns, all: seq<seq<Sample>>, log: seq<Deed>, now: Turns)
      returns (more: seq<Deed>)
    requires Matches(pace, t, all, log, now)
    ensures Loops(pace, t, all, log, more, Flush(pace, now, false))
    decreases Queued(now.queues), Ahead(pace, now), |pace.scale| - now.cur
  {
    if now.queues[now.cur] == [] {
      more := log;
    } else {
      var d := MatchesNext(pace, t, all, log, now);
      if d.handled {
        QueuedLess(now.queues, now.cur, now.queues[now.cur][1..]);
        more := FlushLawful(pace, t, all, log + [d], Served(pace, now));
        LoopsServed(pace, t, all, log, now, d, more);
      } else {
        HorizonCovers(now.times, pace.scale, now.cur);
        more := FlushLawful(pace, t, all, log + [d], Passed(pace, now));
        LoopsPassed(pace, t, all, log, now, d, more);
      }
    }
  }

  lemma {:induction false} LoopsPassed(pace: Pace, t: Turns, all: seq<seq<Sample>>, log: seq<Deed>, now: Turns, d: Deed,
                                       more: seq<Deed>)
    requires Fit(pace, now) && now.queues[now.cur] != [] && !Due(pace, now, false) && !d.handled
    requires Loops(pace, t, all, log + [d], more, Flush(pace, Passed(pace, now), false))
    ensures Loops(pace, t, all, log, more, Flush(pace, now, false))
  {
    FlushPassed(pace, now);
    DoneSnoc(log, d, d.s);
    assert Chosen(log + [d]) == Chosen(log);
  }

  lemma {:induction false} LoopsServed(pace: Pace, t: Turns, all: seq<seq<Sample>>, log: seq<Deed>, now: Turns, d: Deed,
                                       more: seq<Deed>)
    requires Fit(pace, now) && now.queues[now.cur] != [] && Due(pace, now, false)
    requires d == Deed(now.cur, now.now, now.queues[now.cur][0], true)
    requires Loops(pace, t, all, log + [d], more, Flush(pace, Served(pace, now), false))
    ensures Loops(pace, t, all, log, more, Flush(pace, now, false))
  {
    FlushServed(pace, now, false);
    ChosenNext(log, d, Flush(pace, Served(pace, now), false).events);
  }

  lemma {:induction false} FlushPassed(pace: Pace, t: Turns)
    requires Fit(pace, t) && t.queues[t.cur] != [] && !Due(pace, t, false)
    ensures Flush(pace, t, false) == Flush(pace, Passed(pace, t), false)
  {
  }

  lemma {:induction false} ChosenNext(log: seq<Deed>, d: Deed, events: seq<Event>)
    requires d.handled
    ensures Chosen(log + [d]) + events == Chosen(log) + ([Event(d.s, d.sample)] + events)
  {
    DoneSnoc(log, d, d.s);
    assert Chosen(log) + [Event(d.s, d.sample)] + events == Chosen(log) + ([Event(d.s, d.sample)] + events);
  }

  // ----- Samples coming in -----

  lemma {:induction false} MatchesMore(pace: Pace, t: Turns, all: seq<seq<Sample>>, log: seq<Deed>, now: Turns, s: nat,
                                       smp: Sample)
    requires Matches(pace, t, all, log, now) && s < |all|
    ensures var now' := now.(queues := now.queues[s := now.queues[s] + [smp]]);
            Matches(pace, t, all[s := all[s] + [smp]], log, now')
  {
    LawfulMore(pace, t, all, log, s, smp);
    var all', now' := all[s := all[s] + [smp]], now.(queues := now.queues[s := now.queues[s] + [smp]]);
    forall x | 0 <= x < |all'| ensures InStep(pace, t, all', log, now', x) {
      assert InStep(pace, t, all, log, now, x);
    }
  }

  /** After a call the stream whose turn it is has nothing left, if that was so before. */
  ghost predicate Proceeds(pace: Pace, t: Turns, all: seq<seq<Sample>>, log: seq<Deed>, more: seq<Deed>, now: Turns,
                          r: Flushed)
    requires Fit(pace, now)
  {
    && Matches(pace, t, all, more, r.turns) && Chosen(more) == Chosen(log) + r.events
    && (now.queues[now.cur] == [] ==> r.turns.queues[r.turns.cur] == [])
  }

  lemma {:induction false} QueueLawful(pace: Pace, t: Turns, all: seq<seq<Sample>>, log: seq<Deed>, now: Turns, s: nat,
                                       smp: Sample) returns (more: seq<Deed>)
    requires Matches(pace, t, all, log, now) && s < |all|
    ensures Proceeds(pace, t, all[s := all[s] + [smp]], log, more, now, QueueSample(pace, now, s, smp))
  {
    MatchesMore(pace, t, all, log, now, s, smp);
    var all', now' := all[s := all[s] + [smp]], now.(queues := now.queues[s := now.queues[s] + [smp]]);
    if now.cur == s {
      more := FlushLawful(pace, t, all', log, now');
    } else {
      more := log;
    }
  }

  lemma {:induction false} GapsLawful(pace: Pace, t: Turns, all: seq<seq<Sample>>, log: seq<Deed>, now: Turns, s: nat,
                                      n: nat) returns (more: seq<Deed>)
    requires Matches(pace, t, all, log, now) && s < |all|
    ensures Proceeds(pace, t, all[s := all[s] + Copies(GAP, n)], log, more, now, Gaps(pace, now, s, n))
  {
    if n == 0 {
      assert all[s] + Copies(GAP, n) == all[s];
      assert all[s := all[s]] == all;
      more := log;
    } else {
      var before := Gaps(pace, now, s, n - 1);
      var first := GapsLawful(pace, t, all, log, now, s, n - 1);
      var all' := all[s := all[s] + Copies(GAP, n - 1)];
      more := QueueLawful(pace, t, all', first, before.turns, s, GAP);
      assert all'[s] + [GAP] == all[s] + Copies(GAP, n);
      assert all'[s := all'[s] + [GAP]] == all[s := all[s] + Copies(GAP, n)];
    }
  }

  lemma {:induction false} ReceiveLawful(pace: Pace, t: Turns, all: seq<seq<Sample>>, log: seq<Deed>, now: Turns,
                                         a: Arrival) returns (more: seq<Deed>)
    requires Matches(pace, t, all, log, now) && a.s < |all|
    ensures Proceeds(pace, t, all[a.s := all[a.s] + Brought(a)], log, more, now, Receive(pace, now, a))
  {
    var before := Gaps(pace, now, a.s, a.gaps);
    var first := GapsLawful(pace, t, all, log, now, a.s, a.gaps);
    var all' := all[a.s := all[a.s] + Copies(GAP, a.gaps)];
    more := QueueLawful(pace, t, all', first, before.turns, a.s, a.sample);
    assert all'[a.s] + [a.sample] == all[a.s] + Brought(a);
    assert all'[a.s := all'[a.s] + [a.sample]] == all[a.s := all[a.s] + Brought(a)];
  }

  lemma {:induction false} CallsLawful(pace: Pace, t: Turns, calls: seq<Arrival>) returns (log: seq<Deed>)
    requires Fit(pace, t) && CallsOk(pace, calls)
    ensures Proceeds(pace, t, AllArrived(t.queues, calls), [], log, t, ReceiveAll(pace, t, calls))
  {
    if calls == [] {
      log := [];
      NothingYet(pace, t);
    } else {
      var n := |calls| - 1;
      var first := CallsLawful(pace, t, calls[..n]);
      var before, all := ReceiveAll(pace, t, calls[..n]), AllArrived(t.queues, calls[..n]);
      MoreArrived(t.queues, calls);
      log := ThenReceive(pace, t, all, first, before, calls[n]);
    }
  }

  lemma {:induction false} ThenReceive(pace: Pace, t: Turns, all: seq<seq<Sample>>, first: seq<Deed>, before: Flushed,
                                       a: Arrival) returns (log: seq<Deed>)
    requires Fit(pace, t) && Proceeds(pace, t, all, [], first, t, before) && a.s < |all|
    ensures var r := Receive(pace, before.turns, a);
            Proceeds(pace, t, all[a.s := all[a.s] + Brought(a)], [], log, t, Flushed(r.turns, before.events + r.events))
  {
    log := ReceiveLawful(pace, t, all, first, before.turns, a);
    var r := Receive(pace, before.turns, a);
    assert [] + before.events + r.events == [] + (before.events + r.events);
  }

  lemma {:induction false} NothingYet(pace: Pace, t: Turns)
    requires Fit(pace, t)
    ensures Matches(pace, t, AllArrived(t.queues, []), [], t)
  {
    NoneArrived(t.queues);
    forall s | 0 <= s < |t.queues| ensures InStep(pace, t, t.queues, [], t, s) {
      assert pace.scale[s] * 0 == 0;
    }
  }

  /** Whatever calls bring, and in whatever order, the samples of the streams are handled in the one
      order that the law allows, until the stream whose turn it is has no more. */
  lemma {:induction false} CallsInOrder(pace: Pace, t: Turns, calls: seq<Arrival>) returns (log: seq<Deed>)
    requires Fit(pace, t) && CallsOk(pace, calls)
    ensures var all, r := AllArrived(t.queues, calls), ReceiveAll(pace, t, calls);
            && Lawful(pace, t, all, log) && Chosen(log) == r.events
            && IsTurn(pace, t, log, r.turns.cur, r.turns.now)
            && (t.queues[t.cur] == [] ==> |Sub(r.events, r.turns.cur)| == |all[r.turns.cur]|)
            && forall s :: 0 <= s < |all| ==> r.turns.times[s] == t.times[s] + pace.scale[s] * |Sub(r.events, s)|
  {
    log := CallsLawful(pace, t, calls);
    var all, r := AllArrived(t.queues, calls), ReceiveAll(pace, t, calls);
    assert [] + r.events == r.events;
    forall s | 0 <= s < |all|
      ensures r.turns.times[s] == t.times[s] + pace.scale[s] * |Sub(r.events, s)|
      ensures |Sub(r.events, s)| + |r.turns.queues[s]| == |all[s]|
    {
      assert InStep(pace, t, all, log, r.turns, s);
      DoneIsSub(log, s);
    }
  }

  /** So only what each stream brings matters, and not how the calls of the streams alternate. */
  lemma {:induction false} CallsMayAlternate(pace: Pace, t: Turns, a: seq<Arrival>, b: seq<Arrival>)
    requires Fit(pace, t) && CallsOk(pace, a) && CallsOk(pace, b) && t.queues[t.cur] == []
    requires AllArrived(t.queues, a) == AllArrived(t.queues, b)
    ensures ReceiveAll(pace, t, a).events == ReceiveAll(pace, t, b).events
  {
    var x := CallsInOrder(pace, t, a);
    var y := CallsInOrder(pace, t, b);
    var all := AllArrived(t.queues, a);
    var p, q := ReceiveAll(pace, t, a).turns, ReceiveAll(pace, t, b).turns;
    DoneIsSub(x, p.cur);
    DoneIsSub(y, q.cur);
    if |x| <= |y| {
      SameLength(pace, t, all, x, y, p.cur, p.now);
    } else {
      SameLength(pace, t, all, y, x, q.cur, q.now);
    }
  }

  lemma {:induction false} TurnHasMore(pace: Pace, t: Turns, all: seq<seq<Sample>>, log: seq<Deed>, n: nat, s: nat,
                                       time: int)
    requires Lawful(pace, t, all, log) && n < |log| && IsTurn(pace, t, log[..n], s, time)
    ensures s < |all| && Done(log[..n], s) < |all[s]|
  {
    assert LawfulAt(pace, t, all, log, n);
  }

  /** A log at whose end the stream whose turn it is has no more cannot go on. */
  lemma {:induction false} SameLength(pace: Pace, t: Turns, all: seq<seq<Sample>>, a: seq<Deed>, b: seq<Deed>, s: nat,
                                      time: int)
    requires Lawful(pace, t, all, a) && Lawful(pace, t, all, b) && |a| <= |b|
    requires s < |all| && IsTurn(pace, t, a, s, time) && Done(a, s) == |all[s]|
    ensures a == b
  {
    LawfulUnique(pace, t, all, a, b);
    if |a| < |b| {
      TurnHasMore(pace, t, all, b, |a|, s, time);
      assert false;
    }
    assert b[..|a|] == b;
  }

  // ----- Closing -----

  /** Of a queue, closing lets so many samples through: those up to the first with data whose stream
      has come further than the time reached. */
  ghost predicate LetsThrough(q: seq<Sample>, start: int, scale: nat, now: int, c: nat) {
    && c <= |q| && (forall i :: 0 <= i < c ==> q[i].dropped || start + scale * i <= now)
    && (c < |q| ==> !q[c].dropped && start + scale * c > now)
  }

  function Batch(s: nat, q: seq<Sample>): (events: seq<Event>)
    ensures |events| == |q| && forall i :: 0 <= i < |q| ==> events[i] == Event(s, q[i])
  {
    seq(|q|, i requires 0 <= i < |q| => Event(s, q[i]))
  }

  lemma {:induction false} FlushCloses(pace: Pace, t: Turns) returns (c: nat)
    requires Fit(pace, t)
    ensures LetsThrough(t.queues[t.cur], t.times[t.cur], pace.scale[t.cur], t.now, c)
    ensures var q := t.queues[t.cur];
            Flush(pace, t, true) ==
            Flushed(t.(queues := t.queues[t.cur := q[c..]],
                       times := t.times[t.cur := t.times[t.cur] + pace.scale[t.cur] * c]), Batch(t.cur, q[..c]))
    decreases |t.queues[t.cur]|
  {
    var s := t.cur;
    var q, scale := t.queues[s], pace.scale[s];
    if q == [] || !Due(pace, t, true) {
      c := 0;
      assert scale * 0 == 0;
      assert t.queues[s := q[0..]] == t.queues && t.times[s := t.times[s] + 0] == t.times;
    } else {
      var next := Served(pace, t);
      var c' := FlushCloses(pace, next);
      c := c' + 1;
      NextClock(scale, c');
      LetsOneMore(q, t.times[s], scale, t.now, c');
      FlushServed(pace, t, true);
      assert [Event(s, q[0])] + Batch(s, q[1..][..c']) == Batch(s, q[..c]);
      assert q[1..][c'..] == q[c..];
      assert next.queues[s := q[c..]] == t.queues[s := q[c..]];
      assert next.times[s := next.times[s] + scale * c'] == t.times[s := t.times[s] + scale * c];
    }
  }

  lemma {:induction false} LetsOneMore(q: seq<Sample>, start: int, scale: nat, now: int, c: nat)
    requires q != [] && (q[0].dropped || start <= now) && LetsThrough(q[1..], start + scale, scale, now, c)
    ensures LetsThrough(q, start, scale, now, c + 1)
  {
    assert scale * 0 == 0;
    forall i | 0 <= i < c + 1 ensures q[i].dropped || start + scale * i <= now {
      if i > 0 {
        NextClock(scale, i - 1);
        assert q[1..][i - 1] == q[i];
      }
    }
    NextClock(scale, c);
  }

  predicate CountsFit(queues: seq<seq<Sample>>, counts: seq<nat>) {
    |counts| == |queues| && forall s :: 0 <= s < |queues| ==> counts[s] <= |queues[s]|
  }

  /** What m streams, one after the other, have let through. */
  function Batches(queues: seq<seq<Sample>>, from: nat, m: nat, counts: seq<nat>): seq<Event>
    requires CountsFit(queues, counts) && queues != []
  {
    if m == 0 then []
    else
      var s := (from + m) % |queues|;
      Batches(queues, from, m - 1, counts) + Batch(s, queues[s][..counts[s]])
  }

  lemma {:induction false} FollowingIs(from: nat, m: nat, k: nat)
    requires from < k && m < k
    ensures Following(from, m, k) == (from + m) % k
  {
  }

  lemma {:induction false} FollowingDiffer(from: nat, m: nat, n: nat, k: nat)
    requires from < k && m < k && n < k && m != n
    ensures Following(from, m, k) != Following(from, n, k)
  {
  }

  lemma {:induction false} BatchesSame(queues: seq<seq<Sample>>, from: nat, m: nat, counts: seq<nat>, n: nat, c: nat)
    requires CountsFit(queues, counts) && from < |queues| && m < n < |queues|
    requires c <= |queues[Following(from, n, |queues|)]|
    ensures Batches(queues, from, m, counts) == Batches(queues, from, m, counts[Following(from, n, |queues|) := c])
  {
    if m > 0 {
      BatchesSame(queues, from, m - 1, counts, n, c);
      FollowingIs(from, m, |queues|);
      FollowingDiffer(from, m, n, |queues|);
    }
  }

  /** A stream has let so many samples through, and its clock has gone on accordingly. */
  predicate LetThrough(pace: Pace, t: Turns, now: Turns, s: nat, c: nat)
    requires Fit(pace, t) && Fit(pace, now) && s < |pace.scale|
  {
    && c <= |t.queues[s]| && now.queues[s] == t.queues[s][c..]
    && now.times[s] == t.times[s] + pace.scale[s] * c
  }

  /** After m last turns: those streams have let through what they may, the others nothing. */
  ghost predicate ClosedSoFar(pace: Pace, t: Turns, from: nat, m: nat, counts: seq<nat>, r: Flushed)
    requires Fit(pace, t) && from < |pace.scale| && m < |pace.scale|
  {
    && Fit(pace, r.turns) && r.turns.now == t.now && CountsFit(t.queues, counts)
    && (forall s :: 0 <= s < |pace.scale| ==> LetThrough(pace, t, r.turns, s, counts[s]))
    && (forall j :: 1 <= j <= m ==> Mayed(pace, t, Following(from, j, |pace.scale|), counts))
    && (forall j :: m < j < |pace.scale| ==> counts[Following(from, j, |pace.scale|)] == 0)
    && counts[from] == 0 && r.events == Batches(t.queues, from, m, counts)
  }

  /** That is what it may. */
  ghost predicate Mayed(pace: Pace, t: Turns, s: nat, counts: seq<nat>)
    requires Fit(pace, t) && s < |pace.scale| == |counts|
  {
    LetsThrough(t.queues[s], t.times[s], pace.scale[s], t.now, counts[s])
  }

  lemma {:induction false} ClosesNext(pace: Pace, t: Turns, from: nat, m: nat, counts: seq<nat>, r: Flushed)
      returns (counts': seq<nat>)
    requires Fit(pace, t) && from < |pace.scale| && m + 1 < |pace.scale| && ClosedSoFar(pace, t, from, m, counts, r)
    ensures var f := Flush(pace, r.turns.(cur := Following(from, m + 1, |pace.scale|)), true);
            ClosedSoFar(pace, t, from, m + 1, counts', Flushed(f.turns, r.events + f.events))
  {
    var k := |pace.scale|;
    var x := Following(from, m + 1, k);
    assert LetThrough(pace, t, r.turns, x, counts[x]) && counts[x] == 0;
    assert pace.scale[x] * 0 == 0 && t.queues[x][0..] == t.queues[x];
    var c := FlushCloses(pace, r.turns.(cur := x));
    counts' := counts[x := c];
    var f := Flush(pace, r.turns.(cur := x), true);
    CountsNext(pace, t, from, m, counts, c);
    forall s | 0 <= s < k ensures LetThrough(pace, t, f.turns, s, counts'[s]) {
      assert LetThrough(pace, t, r.turns, s, counts[s]);
    }
  }

  lemma {:induction false} CountsNext(pace: Pace, t: Turns, from: nat, m: nat, counts: seq<nat>, c: nat)
    requires Fit(pace, t) && from < |pace.scale| && m + 1 < |pace.scale| && CountsFit(t.queues, counts)
    requires forall j :: 1 <= j <= m ==> Mayed(pace, t, Following(from, j, |pace.scale|), counts)
    requires forall j :: m < j < |pace.scale| ==> counts[Following(from, j, |pace.scale|)] == 0
    requires var x := Following(from, m + 1, |pace.scale|);
             LetsThrough(t.queues[x], t.times[x], pace.scale[x], t.now, c)
    ensures var x := Following(from, m + 1, |pace.scale|);
            var counts' := counts[x := c];
            && CountsFit(t.queues, counts') && counts'[from] == counts[from]
            && (forall j :: 1 <= j <= m + 1 ==> Mayed(pace, t, Following(from, j, |pace.scale|), counts'))
            && (forall j :: m + 1 < j < |pace.scale| ==> counts'[Following(from, j, |pace.scale|)] == 0)
            && Batches(t.queues, from, m + 1, counts')
               == Batches(t.queues, from, m, counts) + Batch(x, t.queues[x][..c])
  {
    var k := |pace.scale|;
    var x := Following(from, m + 1, k);
    var counts' := counts[x := c];
    forall j | 1 <= j < k && j != m + 1 ensures Following(from, j, k) != x {
      FollowingDiffer(from, j, m + 1, k);
    }
    forall j | 1 <= j <= m + 1 ensures Mayed(pace, t, Following(from, j, k), counts') {
      if j <= m {
        assert Mayed(pace, t, Following(from, j, k), counts);
      }
    }
    BatchesSame(t.queues, from, m, counts, m + 1, c);
    FollowingIs(from, m + 1, k);
  }

  /** The other streams, in their order from the one whose turn it was, let through what they may. */
  lemma {:induction false} LastTurnsClose(pace: Pace, t: Turns, from: nat, m: nat) returns (counts: seq<nat>)
    requires Fit(pace, t) && from < |pace.scale| && m < |pace.scale|
    ensures ClosedSoFar(pace, t, from, m, counts, LastTurns(pace, t, from, m))
  {
    if m == 0 {
      counts := seq(|pace.scale|, _ => 0);
      forall s | 0 <= s < |pace.scale| ensures LetThrough(pace, t, t, s, 0) {
        assert pace.scale[s] * 0 == 0;
      }
    } else {
      var before := LastTurnsClose(pace, t, from, m - 1);
      counts := ClosesNext(pace, t, from, m - 1, before, LastTurns(pace, t, from, m - 1));
    }
  }

  // ----- A whole recording -----

  /** A log, whose turn it is at its end and at what time, what is then left of each stream, and how
      much of that is let through in closing. */
  datatype Course = Course(log: seq<Deed>, turn: nat, time: int, rest: seq<seq<Sample>>, counts: seq<nat>)

  /** What a stream has left when the calls are over; and, unless it has the turn, how many samples
      of that it lets through with its clock where all samples so far have brought it. */
  ghost predicate EndsRight(pace: Pace, t: Turns, all: seq<seq<Sample>>, c: Course, s: nat)
    requires s < |all| == |pace.scale| == |t.times| == |c.rest| == |c.counts|
  {
    var n := Done(c.log, s);
    && n <= |all[s]| && c.rest[s] == all[s][n..]
    && (s == c.turn ==> c.counts[s] == 0)
    && (s != c.turn ==>
          LetsThrough(c.rest[s], t.times[s] + pace.scale[s] * n, pace.scale[s], c.time, c.counts[s]))
  }

  /** The course of a recording, told from the samples that came, the durations of samples, the
      interleave and where clocks and turn stood. */
  ghost predicate RunsRight(pace: Pace, t: Turns, all: seq<seq<Sample>>, c: Course) {
    && Lawful(pace, t, all, c.log) && IsTurn(pace, t, c.log, c.turn, c.time) && c.turn < |all|
    && |c.rest| == |all| && CountsFit(c.rest, c.counts)
    && forall s :: 0 <= s < |all| ==> EndsRight(pace, t, all, c, s)
  }

  lemma {:induction false} OtherFollows(from: nat, s: nat, k: nat) returns (j: nat)
    requires from < k && s < k && s != from
    ensures 1 <= j < k && Following(from, j, k) == s
  {
    j := if s > from then s - from else s + k - from;
  }

  lemma {:induction false} StreamEnds(pace: Pace, t: Turns, all: seq<seq<Sample>>, log: seq<Deed>, now: Turns,
                                      counts: seq<nat>, s: nat)
    requires Matches(pace, t, all, log, now) && |counts| == |all| && s < |all|
    requires s == now.cur ==> counts[s] == 0
    requires s != now.cur ==> Mayed(pace, now, s, counts)
    ensures EndsRight(pace, t, all, Course(log, now.cur, now.now, now.queues, counts), s)
  {
    assert InStep(pace, t, all, log, now, s);
  }

  lemma {:induction false} OtherMayed(pace: Pace, t: Turns, counts: seq<nat>, r: Flushed, s: nat)
    requires Fit(pace, t) && ClosedSoFar(pace, t, t.cur, |pace.scale| - 1, counts, r)
    requires s < |pace.scale| && s != t.cur
    ensures Mayed(pace, t, s, counts)
  {
    var j := OtherFollows(t.cur, s, |pace.scale|);
    assert Mayed(pace, t, Following(t.cur, j, |pace.scale|), counts);
  }

  lemma {:induction false} ClosesRight(pace: Pace, t: Turns, all: seq<seq<Sample>>, log: seq<Deed>, now: Turns)
      returns (c: Course)
    requires Matches(pace, t, all, log, now)
    ensures c.log == log && c.turn == now.cur && RunsRight(pace, t, all, c)
    ensures var r := LastTurns(pace, now, now.cur, |pace.scale| - 1);
            && ClosedSoFar(pace, now, now.cur, |pace.scale| - 1, c.counts, r)
            && r.events == Batches(c.rest, c.turn, |all| - 1, c.counts)
  {
    var k := |pace.scale|;
    var counts := LastTurnsClose(pace, now, now.cur, k - 1);
    c := Course(log, now.cur, now.now, now.queues, counts);
    var r := LastTurns(pace, now, now.cur, k - 1);
    forall s | 0 <= s < |all| ensures EndsRight(pace, t, all, c, s) {
      if s != now.cur {
        OtherMayed(pace, now, counts, r, s);
      }
      StreamEnds(pace, t, all, log, now, counts, s);
    }
  }

  /** The events of a recording are those of the one log that the law allows, which ends when the
      stream whose turn it is has no more, and then what the other streams let through, in turn. */
  lemma {:induction false} SessionInOrder(pace: Pace, t: Turns, calls: seq<Arrival>) returns (c: Course)
    requires Fit(pace, t) && CallsOk(pace, calls)
    ensures var all := AllArrived(t.queues, calls);
            && RunsRight(pace, t, all, c)
            && (t.queues[t.cur] == [] ==> c.rest[c.turn] == [])
            && Session(pace, t, calls).events == Chosen(c.log) + Batches(c.rest, c.turn, |all| - 1, c.counts)
  {
    var log := CallsLawful(pace, t, calls);
    var all, before := AllArrived(t.queues, calls), ReceiveAll(pace, t, calls);
    assert [] + before.events == before.events;
    c := ClosesRight(pace, t, all, log, before.turns);
    assert EndsRight(pace, t, all, c, c.turn) && InStep(pace, t, all, log, before.turns, c.turn);
  }

  /** A stream's clock has gone on by the duration of a sample for each of its samples handled, gaps
      included. */
  lemma {:induction false} ClockCounts(pace: Pace, t: Turns, calls: seq<Arrival>, s: nat)
    requires Fit(pace, t) && CallsOk(pace, calls) && s < |pace.scale|
    ensures var r := Session(pace, t, calls);
            r.turns.times[s] == t.times[s] + pace.scale[s] * |Sub(r.events, s)|
  {
    var n := CallsClock(pace, t, calls, s);
    var m := CloseClock(pace, ReceiveAll(pace, t, calls).turns, s);
    SessionCarries(pace, t, calls);
    CarriedCount(AllArrived(t.queues, calls), Session(pace, t, calls), s);
    ClockAdds(pace.scale[s], n, m, |Sub(Session(pace, t, calls).events, s)|);
  }

  lemma {:induction false} CarriedCount(queues: seq<seq<Sample>>, r: Flushed, s: nat)
    requires Carries(queues, r) && s < |queues|
    ensures |Sub(r.events, s)| + |r.turns.queues[s]| == |queues[s]|
  {
    assert Sub(r.events, s) + r.turns.queues[s] == queues[s];
  }

  lemma {:induction false} ClockAdds(scale: nat, n: nat, m: nat, k: nat)
    requires k == n + m
    ensures scale * k == scale * n + scale * m
  {
  }

  lemma {:induction false} CallsClock(pace: Pace, t: Turns, calls: seq<Arrival>, s: nat) returns (n: nat)
    requires Fit(pace, t) && CallsOk(pace, calls) && s < |pace.scale|
    ensures var r, all := ReceiveAll(pace, t, calls).turns, AllArrived(t.queues, calls);
            r.times[s] == t.times[s] + pace.scale[s] * n && |r.queues[s]| + n == |all[s]|
  {
    var log := CallsLawful(pace, t, calls);
    n := Done(log, s);
    assert InStep(pace, t, AllArrived(t.queues, calls), log, ReceiveAll(pace, t, calls).turns, s);
  }

  lemma {:induction false} CloseClock(pace: Pace, t: Turns, s: nat) returns (m: nat)
    requires Fit(pace, t) && s < |pace.scale|
    ensures var r := LastTurns(pace, t, t.cur, |pace.scale| - 1).turns;
            r.times[s] == t.times[s] + pace.scale[s] * m && |r.queues[s]| + m == |t.queues[s]|
  {
    var counts := LastTurnsClose(pace, t, t.cur, |pace.scale| - 1);
    m := counts[s];
    assert LetThrough(pace, t, LastTurns(pace, t, t.cur, |pace.scale| - 1).turns, s, m);
  }
}
