/** Two streams whose recording destroys its own first sample, call by call. */
module AviOverwrite {
  import opened Riff
  import opened AviOut
  import opened AviIndex
  import opened AviLayout
  import opened AviFile
  import opened AviClose
  import opened AviRead
  import opened AviSuper
  import opened AviHeader
  import opened AviTurns
  import opened AviAgain
  import opened AviLimits

  // ----- The calls -----

  /** The interleave a filter begins with, and two streams of one frame a second. */
  const SECOND := 10_000_000
  const PACE := Pace(SECOND, [SECOND, SECOND])
  const START := Turns([[], []], [0, 0], 0, 0)

  /** n samples of each stream handled; stream 0 has one waiting. */
  function Even(n: nat): Turns { Turns([[REAL], []], [SECOND * n, SECOND * n], 1, SECOND * n) }

  /** Stream 0 is one ahead; stream 1 has one waiting. */
  function Odd(n: nat): Turns { Turns([[], [REAL]], [SECOND * (n + 1), SECOND * n], 0, SECOND * (n + 1)) }

  const FIRST := Arrival(0, 0, REAL)
  const SECONDLY := Arrival(1, 0, REAL)

  /** A frame is missing before this sample of stream 1. */
  const LATE := Arrival(1, 1, REAL)

  /** The two streams receive in turn. */
  function Calls(n: nat): (calls: seq<Arrival>)
    ensures |calls| == 2 * n + 1 && CallsOk(PACE, calls)
  {
    if n == 0 then [FIRST] else Calls(n - 1) + [SECONDLY, FIRST]
  }

  function Pairs(n: nat): (events: seq<Event>)
    ensures |events| == 2 * n && forall i :: 0 <= i < |events| ==> events[i].s < 2 && events[i].sample == REAL
    ensures n > 0 ==> events[0].s == 0
  {
    if n == 0 then [] else Pairs(n - 1) + [Event(0, REAL), Event(1, REAL)]
  }

  lemma {:induction false} Updated<T>(a: T, b: T, c: T)
    ensures [a, b][0 := c] == [c, b] && [a, b][1 := c] == [a, c]
  {
  }

  lemma {:induction false} ReceiveWhole(t: Turns, s: nat)
    requires Fit(PACE, t) && s < 2
    ensures Receive(PACE, t, Arrival(s, 0, REAL)) == QueueSample(PACE, t, s, REAL)
  {
    var r := QueueSample(PACE, t, s, REAL);
    assert [] + r.events == r.events;
  }

  lemma {:induction false} StartStep()
    ensures Receive(PACE, START, FIRST) == Flushed(Even(0), [])
  {
    ReceiveWhole(START, 0);
    var t := START.(queues := [[REAL], []]);
    Updated<seq<Sample>>([], [], [REAL]);
    assert [] + [REAL] == [REAL];
    assert Passed(PACE, t) == Even(0);
    assert Flush(PACE, Even(0), false) == Flushed(Even(0), []);
  }

  lemma {:induction false} EvenStep(n: nat)
    ensures Receive(PACE, Even(n), SECONDLY) == Flushed(Odd(n), [Event(0, REAL)])
  {
    ReceiveWhole(Even(n), 1);
    var t := Even(n).(queues := [[REAL], [REAL]]);
    Updated([REAL], [], [REAL]);
    Updated([REAL], [REAL], []);
    Updated(SECOND * n, SECOND * n, SECOND * (n + 1));
    assert [] + [REAL] == [REAL] && [REAL][1..] == [];
    var t' := t.(cur := 0, now := SECOND * (n + 1));
    assert Passed(PACE, t) == t';
    assert Served(PACE, t') == Odd(n);
    assert Flush(PACE, Odd(n), false) == Flushed(Odd(n), []);
    assert Flush(PACE, t', false) == Flushed(Odd(n), [Event(0, REAL)]);
  }

  lemma {:induction false} OddStep(n: nat)
    ensures Receive(PACE, Odd(n), FIRST) == Flushed(Even(n + 1), [Event(1, REAL)])
  {
    ReceiveWhole(Odd(n), 0);
    var t := Odd(n).(queues := [[REAL], [REAL]]);
    Updated([], [REAL], [REAL]);
    Updated([REAL], [REAL], []);
    Updated(SECOND * (n + 1), SECOND * n, SECOND * (n + 1));
    assert [] + [REAL] == [REAL] && [REAL][1..] == [];
    var t' := t.(cur := 1);
    assert Passed(PACE, t) == t';
    assert Served(PACE, t') == Even(n + 1);
    assert Flush(PACE, Even(n + 1), false) == Flushed(Even(n + 1), []);
    assert Flush(PACE, t', false) == Flushed(Even(n + 1), [Event(1, REAL)]);
  }

  predicate CallOk(a: Arrival) { a.s < 2 && !a.sample.dropped && SampleOk(a.sample) }

  lemma {:induction false} TwoCalls(t: Turns, calls: seq<Arrival>, a: Arrival, b: Arrival)
    requires Fit(PACE, t) && CallsOk(PACE, calls) && CallOk(a) && CallOk(b)
    ensures CallsOk(PACE, calls + [a, b])
    ensures var r := ReceiveAll(PACE, t, calls);
            var ra := Receive(PACE, r.turns, a);
            var rb := Receive(PACE, ra.turns, b);
            ReceiveAll(PACE, t, calls + [a, b]) == Flushed(rb.turns, r.events + ra.events + rb.events)
  {
    assert (calls + [a, b])[..|calls| + 1] == calls + [a] && (calls + [a])[..|calls|] == calls;
  }

  lemma {:induction false} Steady(n: nat)
    ensures ReceiveAll(PACE, START, Calls(n)) == Flushed(Even(n), Pairs(n))
  {
    if n == 0 {
      FirstCall();
    } else {
      var m := n - 1;
      Steady(m);
      TwoMore(m);
    }
  }

  lemma {:induction false} FirstCall()
    ensures ReceiveAll(PACE, START, Calls(0)) == Flushed(Even(0), [])
  {
    StartStep();
    assert Calls(0)[..0] == [];
    assert ReceiveAll(PACE, START, []) == Flushed(START, []);
  }

  lemma {:induction false} TwoMore(n: nat)
    requires ReceiveAll(PACE, START, Calls(n)) == Flushed(Even(n), Pairs(n))
    ensures ReceiveAll(PACE, START, Calls(n + 1)) == Flushed(Even(n + 1), Pairs(n + 1))
  {
    TwoCalls(START, Calls(n), SECONDLY, FIRST);
    EvenStep(n);
    OddStep(n);
    assert Pairs(n) + [Event(0, REAL)] + [Event(1, REAL)] == Pairs(n + 1);
  }

  /** The last two calls find it stream 0's turn, so that stream 1 only queues. */
  lemma {:induction false} LateStep(n: nat)
    ensures Receive(PACE, Odd(n), LATE) == Flushed(Odd(n).(queues := [[], [REAL, GAP, REAL]]), [])
  {
    var t := Odd(n).(queues := [[], [REAL, GAP]]);
    Updated([], [REAL], [REAL, GAP]);
    Updated([], [REAL, GAP], [REAL, GAP, REAL]);
    assert [REAL] + [GAP] == [REAL, GAP] && [REAL, GAP] + [REAL] == [REAL, GAP, REAL];
    assert Gaps(PACE, Odd(n), 1, 0) == Flushed(Odd(n), []);
    assert Gaps(PACE, Odd(n), 1, 1) == Flushed(t, []);
  }

  /** Closing lets stream 1's waiting sample and the gap through, and not the sample after. */
  lemma {:induction false} ClosingStep(n: nat)
    ensures var t := Odd(n).(queues := [[], [REAL, GAP, REAL]]);
            LastTurns(PACE, t, 0, 1).events == [Event(1, REAL), Event(1, GAP)]
  {
    var t := Odd(n).(queues := [[], [REAL, GAP, REAL]]);
    var t1 := t.(cur := 1);
    var t2 := t1.(queues := [[], [GAP, REAL]], times := [SECOND * (n + 1), SECOND * (n + 1)]);
    var t3 := t2.(queues := [[], [REAL]], times := [SECOND * (n + 1), SECOND * (n + 2)]);
    assert LastTurns(PACE, t, 0, 0) == Flushed(t, []);
    assert Served(PACE, t1) == t2 && Served(PACE, t2) == t3;
    assert Flush(PACE, t3, true) == Flushed(t3, []);
    assert Flush(PACE, t2, true) == Flushed(t3, [Event(1, GAP)]);
    assert Flush(PACE, t1, true) == Flushed(t3, [Event(1, REAL), Event(1, GAP)]);
  }

  /** All the calls of the recording. */
  function AllCalls(n: nat): (calls: seq<Arrival>)
    ensures CallsOk(PACE, calls)
  {
    Calls(n) + [SECONDLY, LATE]
  }

  /** What the loop handles: pairs of samples, and a gap of stream 1. */
  lemma {:induction false} SessionIs(n: nat)
    ensures Session(PACE, START, AllCalls(n)).events == Pairs(n + 1) + [Event(1, GAP)]
  {
    CallsEnd(n);
    ClosingStep(n);
    SessionOf(AllCalls(n), Flushed(Odd(n).(queues := [[], [REAL, GAP, REAL]]), Pairs(n) + [Event(0, REAL)]),
              [Event(1, REAL), Event(1, GAP)]);
    Regrouped(Pairs(n), Event(0, REAL), Event(1, REAL), Event(1, GAP));
  }

  lemma {:induction false} SessionOf(calls: seq<Arrival>, before: Flushed, more: seq<Event>)
    requires CallsOk(PACE, calls) && ReceiveAll(PACE, START, calls) == before && before.turns.cur == 0
    requires LastTurns(PACE, before.turns, 0, 1).events == more
    ensures Session(PACE, START, calls).events == before.events + more
  {
  }

  lemma {:induction false} Regrouped(events: seq<Event>, a: Event, b: Event, c: Event)
    ensures events + [a] + [b, c] == events + [a, b] + [c]
  {
  }

  lemma {:induction false} CallsEnd(n: nat)
    ensures ReceiveAll(PACE, START, AllCalls(n))
            == Flushed(Odd(n).(queues := [[], [REAL, GAP, REAL]]), Pairs(n) + [Event(0, REAL)])
  {
    Steady(n);
    TwoCalls(START, Calls(n), SECONDLY, LATE);
    EvenStep(n);
    LateStep(n);
    assert Pairs(n) + [Event(0, REAL)] + [] == Pairs(n) + [Event(0, REAL)];
  }

  // ----- What it does to the file -----

  /** The history: n samples of each stream, and a gap of stream 1. */
  function Fatal(n: nat): (events: seq<Event>)
    ensures |events| == 2 * n + 1
  {
    Pairs(n) + [Event(1, GAP)]
  }

  lemma {:induction false} SubPairs(n: nat, s: nat)
    requires s < 2
    ensures |Sub(Pairs(n), s)| == n && forall i :: 0 <= i < n ==> Sub(Pairs(n), s)[i] == REAL
  {
    if n > 0 {
      SubPairs(n - 1, s);
      SubAppend(Pairs(n - 1), [Event(0, REAL), Event(1, REAL)], s);
      SubTwo(Event(0, REAL), Event(1, REAL), s);
    }
  }

  lemma {:induction false} SubTwo(a: Event, b: Event, s: nat)
    ensures Sub([a, b], s) == (if a.s == s then [a.sample] else []) + (if b.s == s then [b.sample] else [])
  {
    SubAppend([a], [b], s);
    SubOne(a, s);
    SubOne(b, s);
    assert [a] + [b] == [a, b];
  }

  /** Behind the two standard indexes comes the first sample's chunk. */
  lemma {:induction false} ThirdPlace(base: nat, events: seq<Event>)
    requires EventsOk(2, events) && events != [] && events[0] == Event(0, REAL)
    ensures var slots := Planned(Blanks(2), base, events).slots;
            && |slots| > 2 && slots[1] == IndexSlot(1, 0) && slots[2] == DataSlot(0, 0, 0, REAL)
  {
    var n := |events| - 1;
    if n == 0 {
      assert events[..0] == [];
    } else {
      ThirdPlace(base, events[..n]);
      TakeGrows(Planned(Blanks(2), base, events[..n]), events[n]);
    }
  }

  lemma {:induction false} FatalFacts(base: nat, n: nat)
    requires n == 4000 && 24 <= base <= 1_000_000
    ensures RoomFor(Blanks(2), base, Fatal(n)) && !Settled(Blanks(2), Fatal(n))
    ensures |Sub(Fatal(n)[..2 * n], 1)| == n && Sub(Fatal(n), 0) != [] && Sub(Fatal(n), 0)[0] == REAL
  {
    var events := Fatal(n);
    SlimHasRoom(Blanks(2), base, events);
    assert events[..2 * n] == Pairs(n);
    SubPairs(n, 1);
    SubPairs(n, 0);
    SubAppend(Pairs(n), [Event(1, GAP)], 0);
    SubOne(Event(1, GAP), 0);
  }

  /** The output ends up right behind stream 1's first standard index. */
  lemma {:induction false} FatalPos(base: nat, n: nat)
    requires n == 4000 && 24 <= base <= 1_000_000
    ensures RoomFor(Blanks(2), base, Fatal(n))
    ensures var p := Planned(Blanks(2), base, Fatal(n));
            |p.slots| > 2 && Written(Blanks(2), base, Fatal(n)).pos == Offset(base, p.slots, 2)
  {
    var left, events := Blanks(2), Fatal(n);
    FatalFacts(base, n);
    ThirdPlace(base, events);
    var a := RollPos(left, base, events);
    StreamGrown(left, base, events[..2 * n], 1);
    if a != 1 {
      IndexSlotOnce(left, base, events, a, 1);
    }
  }

  /** The place of the first sample is the third. */
  lemma {:induction false} FirstIsThird(base: nat, n: nat)
    requires n == 4000 && 24 <= base <= 1_000_000
    ensures EventsOk(2, Fatal(n)) && Sub(Fatal(n), 0) != [] && !Sub(Fatal(n), 0)[0].dropped
    ensures SlotOf(Blanks(2), base, Fatal(n), 0, 0) == 2
  {
    var left, events := Blanks(2), Fatal(n);
    FatalFacts(base, n);
    ThirdPlace(base, events);
    SlotOfRight(left, base, events, 0, 0);
    var i := SlotOf(left, base, events, 0, 0);
    DataSlotOnce(left, base, events, 2, i);
  }

  /** No two places are of the same entry. */
  lemma {:induction false} DataSlotOnce(left: seq<Stream>, base: nat, events: seq<Event>, i: nat, i': nat)
    requires LeftOk(left) && EventsOk(|left|, events) && 0 < base && Planned(left, base, events).size <= INT_MAX
    requires var slots := Planned(left, base, events).slots;
             i < |slots| && i' < |slots| && slots[i].DataSlot? && slots[i'].DataSlot?
             && slots[i].s == slots[i'].s && slots[i].k == slots[i'].k && slots[i].j == slots[i'].j
    ensures i == i'
  {
    var slots := Planned(left, base, events).slots;
    EverySlotRight(left, base, events, i);
    EverySlotRight(left, base, events, i');
    if i < i' {
      AtOrdered(base, slots, i, i');
    } else if i' < i {
      AtOrdered(base, slots, i', i);
    }
  }

  /** Two streams of one frame a second each, with the interleave a filter begins with, that receive
      in turn, and a frame missing at the 4001st of one: stopping then makes the filter write the old
      index over the very first sample. */
  lemma {:induction false} OldIndexOverwrites(base: nat, d: Descr) returns (n: nat)
    requires Ordinary(2, base, d)
    ensures n == 4000 && Session(PACE, START, AllCalls(n - 1)).events == Fatal(n)
    ensures Recordable(Blanks(2), base, Fatal(n), d) && !Settled(Blanks(2), Fatal(n))
    ensures Sub(Fatal(n), 0) != [] && !Sub(Fatal(n), 0)[0].dropped
    ensures var slots := Planned(Blanks(2), base, Fatal(n)).slots;
            var first := Offset(base, slots, SlotOf(Blanks(2), base, Fatal(n), 0, 0));
            IdAt(Recorded(Blanks(2), base, Fatal(n), d), first, FCC_IDX1)
  {
    n := 4000;
    SessionIs(n - 1);
    FatalFacts(base, n);
    FatalPos(base, n);
    FirstIsThird(base, n);
    ThirdPlace(base, Fatal(n));
    Describes(Blanks(2), base, Fatal(n), d);
    ChunkOverwritten(Blanks(2), base, Fatal(n), Middle(d, Supers(Blanks(2), base, Fatal(n))), 2);
  }
}
