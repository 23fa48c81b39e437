/** The old index, idx1: what it says about every sample, and what a reader finds of it in the file. */
module AviOld {
  import opened Riff
  import opened AviOut
  import opened AviIndex
  import opened AviLayout
  import opened AviFile
  import opened AviClose
  import opened AviRead

  // ----- What the entries say -----

  /** Identifier, key-frame flag and size of a sample. */
  predicate OldSays(o: OldEntry, e: Event)
    requires e.s < MAX_STREAMS
  {
    && o.ckid == DataFcc(e.s, e.sample.sync) && o.flags == (if e.sample.sync then KEYFRAME else 0)
    && o.length == |e.sample.data|
  }

  /** The number of event i among the samples of its stream. */
  function NumberOf(events: seq<Event>, i: nat): (n: nat)
    requires i < |events|
    ensures n < |Sub(events, events[i].s)| && Sub(events, events[i].s)[n] == events[i].sample
  {
    NumberFits(events, i);
    |Sub(events[..i], events[i].s)|
  }

  lemma {:induction false} NumberFits(events: seq<Event>, i: nat)
    requires i < |events|
    ensures var n, subs := |Sub(events[..i], events[i].s)|, Sub(events, events[i].s);
            n < |subs| && subs[n] == events[i].sample
  {
    var m := |events| - 1;
    SubSnoc(events, events[i].s);
    if i < m {
      NumberFits(events[..m], i);
      assert events[..m][..i] == events[..i];
    }
  }

  /** A place that a sample with data claims begins at the end of the file. */
  lemma {:induction false} TakeOffset(p: Plan, base: nat, e: Event)
    requires CanTake(p, e) && p.size == base + Total(p.slots) && !e.sample.dropped
    ensures var r := Take(p, e);
            |r.slots| > 0 && r.idx1[|p.idx1|].offset == Offset(base, r.slots, |r.slots| - 1)
  {
    ReadyTotal(p, base, e.s);
    var r := Take(p, e);
    assert r.slots[..|r.slots| - 1] == Prepared(p, e.s).slots;
  }

  lemma {:induction false} TakeKeepsOffset(p: Plan, base: nat, e: Event, i: nat)
    requires CanTake(p, e) && i < |p.slots|
    ensures i < |Take(p, e).slots| && Offset(base, Take(p, e).slots, i) == Offset(base, p.slots, i)
  {
    TakeGrows(p, e);
    assert Take(p, e).slots[..i] == p.slots[..i];
  }

  lemma {:induction false} TakeIdx1(p: Plan, e: Event)
    requires CanTake(p, e)
    ensures Take(p, e).idx1[..|p.idx1|] == p.idx1 && OldSays(Take(p, e).idx1[|p.idx1|], e)
  {
  }

  lemma {:induction false} OldEntrySays(left: seq<Stream>, base: nat, events: seq<Event>, i: nat)
    requires LeftOk(left) && EventsOk(|left|, events) && i < |events|
    ensures OldSays(Planned(left, base, events).idx1[i + 1], events[i])
  {
    var m := |events| - 1;
    TakeIdx1(Planned(left, base, events[..m]), events[m]);
    if i < m {
      OldEntrySays(left, base, events[..m], i);
    }
  }

  /** Entry j of the old index has the position of place k. */
  predicate OldPoints(p: Plan, base: nat, j: nat, k: nat) {
    j < |p.idx1| && k < |p.slots| && p.idx1[j].offset == Offset(base, p.slots, k)
  }

  lemma {:induction false} PointsKept(p: Plan, base: nat, e: Event, j: nat, k: nat)
    requires CanTake(p, e) && OldPoints(p, base, j, k)
    ensures OldPoints(Take(p, e), base, j, k)
  {
    TakeIdx1(p, e);
    assert Take(p, e).idx1[..|p.idx1|][j] == p.idx1[j];
    TakeKeepsOffset(p, base, e, k);
  }

  lemma {:induction false} OldOffsetRight(left: seq<Stream>, base: nat, events: seq<Event>, i: nat)
    requires LeftOk(left) && EventsOk(|left|, events) && i < |events| && !events[i].sample.dropped
    ensures var k := SlotOf(left, base, events, events[i].s, NumberOf(events, i));
            OldPoints(Planned(left, base, events), base, i + 1, k)
  {
    if i == |events| - 1 {
      LastSlot(left, base, events);
      LastPoints(left, base, events);
    } else {
      OldOffsetRight(left, base, events[..|events| - 1], i);
      EarlierSlot(left, base, events, i);
      EarlierPoints(left, base, events, i, SlotOf(left, base, events, events[i].s, NumberOf(events, i)));
    }
  }

  lemma {:induction false} LastPoints(left: seq<Stream>, base: nat, events: seq<Event>)
    requires LeftOk(left) && EventsOk(|left|, events) && events != [] && !events[|events| - 1].sample.dropped
    ensures var p := Planned(left, base, events); |p.slots| > 0 && OldPoints(p, base, |events|, |p.slots| - 1)
  {
    var m := |events| - 1;
    PlanSize(left, base, events[..m]);
    TakeOffset(Planned(left, base, events[..m]), base, events[m]);
  }

  lemma {:induction false} EarlierPoints(left: seq<Stream>, base: nat, events: seq<Event>, i: nat, k: nat)
    requires LeftOk(left) && EventsOk(|left|, events) && i < |events| - 1
    requires OldPoints(Planned(left, base, events[..|events| - 1]), base, i + 1, k)
    ensures OldPoints(Planned(left, base, events), base, i + 1, k)
  {
    var m := |events| - 1;
    PointsKept(Planned(left, base, events[..m]), base, events[m], i + 1, k);
  }

  lemma {:induction false} LastSlot(left: seq<Stream>, base: nat, events: seq<Event>)
    requires LeftOk(left) && EventsOk(|left|, events) && events != [] && !events[|events| - 1].sample.dropped
    ensures var m := |events| - 1;
            SlotOf(left, base, events, events[m].s, NumberOf(events, m)) == |Planned(left, base, events).slots| - 1
  {
  }

  lemma {:induction false} EarlierSlot(left: seq<Stream>, base: nat, events: seq<Event>, i: nat)
    requires LeftOk(left) && EventsOk(|left|, events) && i < |events| - 1 && !events[i].sample.dropped
    ensures var m, e, n := |events| - 1, events[i], NumberOf(events, i);
            && NumberOf(events[..m], i) == n
            && SlotOf(left, base, events, e.s, n) == SlotOf(left, base, events[..m], e.s, n)
  {
    var m := |events| - 1;
    assert events[..m][..i] == events[..i];
  }

  /** Behind its first entry the old index has one for every sample, in order, and that of a sample
      with data is right about the position of its chunk. */
  lemma {:induction false} OldEntryRight(left: seq<Stream>, base: nat, events: seq<Event>, i: nat)
    requires LeftOk(left) && EventsOk(|left|, events) && i < |events|
    ensures var p, e := Planned(left, base, events), events[i];
            && OldSays(p.idx1[i + 1], e)
            && (!e.sample.dropped ==>
                  p.idx1[i + 1].offset == Offset(base, p.slots, SlotOf(left, base, events, e.s, NumberOf(events, i))))
  {
    OldEntrySays(left, base, events, i);
    if !events[i].sample.dropped {
      OldOffsetRight(left, base, events, i);
    }
  }

  // ----- Reading it -----

  predicate OldFits(o: OldEntry) { o.ckid < U32 && o.flags < U32 && o.offset < U32 && o.length < U32 }

  /** AVIINDEXENTRY at an offset. */
  function ReadOld(b: seq<byte>, at: nat): OldEntry
    requires at + 16 <= |b|
  {
    OldEntry(Dword(b[at..at + 4]), Dword(b[at + 4..at + 8]), Dword(b[at + 8..at + 12]), Dword(b[at + 12..at + 16]))
  }

  lemma {:induction false} FourFields(front: seq<byte>, a: seq<byte>, b: seq<byte>, c: seq<byte>, d: seq<byte>,
                                      more: seq<byte>)
    requires |a| == |b| == |c| == |d| == 4
    ensures ReadOld(front + (a + b + c + d + more), |front|) == OldEntry(Dword(a), Dword(b), Dword(c), Dword(d))
  {
    var all, at := front + (a + b + c + d + more), |front|;
    assert all[at..at + 4] == a && all[at + 4..at + 8] == b;
    assert all[at + 8..at + 12] == c && all[at + 12..at + 16] == d;
  }

  lemma {:induction false} OldReads(idx1: seq<OldEntry>, more: seq<byte>, j: nat)
    requires j < |idx1| && OldFits(idx1[j])
    ensures ReadOld(OldBytes(idx1) + more, 16 * j) == idx1[j]
  {
    var n := |idx1| - 1;
    var e := idx1[n];
    var front := OldBytes(idx1[..n]);
    var a, b, c, d := Le(e.ckid, 4), Le(e.flags, 4), Le(e.offset, 4), Le(e.length, 4);
    assert OldBytes(idx1) + more == front + (a + b + c + d + more);
    if j < n {
      OldReads(idx1[..n], a + b + c + d + more, j);
    } else {
      FourFields(front, a, b, c, d, more);
      DwordRoundTrip(e.ckid);
      DwordRoundTrip(e.flags);
      DwordRoundTrip(e.offset);
      DwordRoundTrip(e.length);
    }
  }

  lemma {:induction false} OldInside(left: seq<Stream>, base: nat, events: seq<Event>, j: nat)
    requires LeftOk(left) && EventsOk(|left|, events) && j <= |events|
    ensures var p := Planned(left, base, events); base <= p.size && p.idx1[j].offset <= p.size
  {
    if events != [] {
      var m := |events| - 1;
      var before := Planned(left, base, events[..m]);
      TakeGrows(before, events[m]);
      TakeIdx1(before, events[m]);
      OldInside(left, base, events[..m], if j <= m then j else m);
    }
  }

  /** Every entry fits its fields. */
  lemma {:induction false} OldEntryFits(left: seq<Stream>, base: nat, events: seq<Event>, j: nat)
    requires LeftOk(left) && EventsOk(|left|, events) && j <= |events| && Planned(left, base, events).size <= INT_MAX
    ensures OldFits(Planned(left, base, events).idx1[j])
  {
    OldInside(left, base, events, j);
    if j > 0 {
      OldEntryRight(left, base, events, j - 1);
    } else {
      FirstOldEntry(left, base, events);
    }
  }

  lemma {:induction false} FirstOldEntry(left: seq<Stream>, base: nat, events: seq<Event>)
    requires LeftOk(left) && EventsOk(|left|, events)
    ensures Planned(left, base, events).idx1[0] == OldEntry(FCC_7FXX, 0, base, 0)
  {
    if events != [] {
      var m := |events| - 1;
      FirstOldEntry(left, base, events[..m]);
      TakeIdx1(Planned(left, base, events[..m]), events[m]);
    }
  }

  /** The tail as a chunk in the file. */
  lemma {:induction false} TailIn(f: seq<byte>, at: nat, idx1: seq<OldEntry>, tail: seq<byte>)
    requires 16 * |idx1| < U32 - 1 && tail == Print(Leaf(FCC_IDX1, OldBytes(idx1))) + Zeros(8) && FileHas(f, at, tail)
    ensures at + HEADER + 16 * |idx1| <= |f| && Dword(f[at..at + 4]) == FCC_IDX1 && SizeAt(f, at) == 16 * |idx1|
    ensures FileHas(f, at + HEADER, OldBytes(idx1))
  {
    var c := Leaf(FCC_IDX1, OldBytes(idx1));
    SubFile(f, at, tail, 0, |Print(c)|);
    assert tail[0..|Print(c)|] == Print(c);
    ChunkReads(f, at, c);
  }

  lemma {:induction false} OldIn(f: seq<byte>, at: nat, idx1: seq<OldEntry>, j: nat)
    requires FileHas(f, at, OldBytes(idx1)) && j < |idx1| && OldFits(idx1[j])
    ensures at + 16 * j + 16 <= |f| && ReadOld(f, at + 16 * j) == idx1[j]
  {
    var b := OldBytes(idx1);
    assert b + [] == b;
    OldReads(idx1, [], j);
    SubFile(f, at, b, 16 * j, 16 * j + 4);
    SubFile(f, at, b, 16 * j + 4, 16 * j + 8);
    SubFile(f, at, b, 16 * j + 8, 16 * j + 12);
    SubFile(f, at, b, 16 * j + 12, 16 * j + 16);
  }

  lemma {:induction false} MuxedTail(left: seq<Stream>, base: nat, events: seq<Event>, mid: seq<byte>)
    requires Allowed(left, base, events, mid) && Settled(left, events)
    ensures FileHas(Muxed(left, base, events, mid), Planned(left, base, events).size, Tail(Planned(left, base, events)))
  {
    var p, o := Planned(left, base, events), Written(left, base, events);
    MuxedReady(left, base, events, mid);
    PosExactly(left, base, events);
    ShutTail(p, o, HeadFor(p, o, base, mid), Tail(p));
  }

  /** The old index of n entries begins at this offset, and this is entry j of it. */
  ghost predicate OldAt(f: seq<byte>, at: nat, n: nat, j: nat, o: OldEntry) {
    && at + HEADER + 16 * j + 16 <= |f| && Dword(f[at..at + 4]) == FCC_IDX1 && SizeAt(f, at) == 16 * n
    && ReadOld(f, at + HEADER + 16 * j) == o
  }

  lemma {:induction false} OldEntryIn(left: seq<Stream>, base: nat, events: seq<Event>, f: seq<byte>, j: nat)
    requires Bounded(left, base, events) && j <= |events| && 16 * (|events| + 1) < U32 - 1
    requires FileHas(f, Planned(left, base, events).size, Tail(Planned(left, base, events)))
    ensures var p := Planned(left, base, events); OldAt(f, p.size, |events| + 1, j, p.idx1[j])
  {
    OldEntryFits(left, base, events, j);
    var p := Planned(left, base, events);
    TailEntryIn(f, p.size, p.idx1, Tail(p), j);
  }

  lemma {:induction false} TailEntryIn(f: seq<byte>, at: nat, idx1: seq<OldEntry>, tail: seq<byte>, j: nat)
    requires 16 * |idx1| < U32 - 1 && tail == Print(Leaf(FCC_IDX1, OldBytes(idx1))) + Zeros(8) && FileHas(f, at, tail)
    requires j < |idx1| && OldFits(idx1[j])
    ensures OldAt(f, at, |idx1|, j, idx1[j])
  {
    TailIn(f, at, idx1, tail);
    OldIn(f, at + HEADER, idx1, j);
  }

  /** What an entry read from the file says of an event, and where the walk is. */
  ghost predicate OldAgrees(o: OldEntry, e: Event, at: seq<nat>, k: nat)
    requires e.s < MAX_STREAMS
  {
    OldSays(o, e) && (!e.sample.dropped ==> k < |at| && at[k] == o.offset)
  }

  lemma {:induction false} OldEntryAgrees(left: seq<Stream>, base: nat, events: seq<Event>, f: seq<byte>, i: nat,
                                          k: nat)
    requires Sealed(left, base, events, f) && i < |events|
    requires !events[i].sample.dropped ==> k == SlotOf(left, base, events, events[i].s, NumberOf(events, i))
    ensures OldAgrees(Planned(left, base, events).idx1[i + 1], events[i], Walk(f, base, Next(f, base - 12)), k)
  {
    OldEntryRight(left, base, events, i);
    WalkOfBody(Planned(left, base, events), base, f);
  }

  /** A file with the old index behind the movi list, of which entry i + 1 agrees with event i. */
  ghost predicate OldInFile(left: seq<Stream>, base: nat, events: seq<Event>, f: seq<byte>, i: nat, k: nat)
    requires LeftOk(left) && EventsOk(|left|, events) && i < |events|
  {
    && 24 <= base <= |f| && Next(f, base - 12) <= |f|
    && var at := Next(f, base - 12);
       OldTells(f, at, |events| + 1, i + 1, events[i], Walk(f, base, at), k)
  }

  /** The same, and the entry agrees with an event. */
  ghost predicate OldTells(f: seq<byte>, at: nat, n: nat, j: nat, e: Event, places: seq<nat>, k: nat)
    requires e.s < MAX_STREAMS
  {
    && at + HEADER + 16 * j + 16 <= |f| && Dword(f[at..at + 4]) == FCC_IDX1 && SizeAt(f, at) == 16 * n
    && OldAgrees(ReadOld(f, at + HEADER + 16 * j), e, places, k)
  }

  lemma {:induction false} MuxedOld(left: seq<Stream>, base: nat, events: seq<Event>, mid: seq<byte>, j: nat)
    requires Allowed(left, base, events, mid) && Settled(left, events) && j <= |events|
    ensures var p := Planned(left, base, events);
            OldAt(Muxed(left, base, events, mid), p.size, |events| + 1, j, p.idx1[j])
  {
    MuxedTail(left, base, events, mid);
    OldEntryIn(left, base, events, Muxed(left, base, events, mid), j);
  }

  lemma {:induction false} SealedNext(left: seq<Stream>, base: nat, events: seq<Event>, f: seq<byte>)
    requires Sealed(left, base, events, f)
    ensures 24 <= base <= Planned(left, base, events).size <= |f|
    ensures Next(f, base - 12) == Planned(left, base, events).size
  {
  }

  lemma {:induction false} OldIndexIn(left: seq<Stream>, base: nat, events: seq<Event>, f: seq<byte>, i: nat, k: nat,
                                      o: OldEntry)
    requires LeftOk(left) && EventsOk(|left|, events) && i < |events| && |left| <= MAX_STREAMS
    requires 24 <= base <= |f| && Next(f, base - 12) <= |f|
    requires var at := Next(f, base - 12);
             OldAt(f, at, |events| + 1, i + 1, o) && OldAgrees(o, events[i], Walk(f, base, at), k)
    ensures OldInFile(left, base, events, f, i, k)
  {
    var at := Next(f, base - 12);
    OldFound(f, at, |events| + 1, i + 1, o, events[i], Walk(f, base, at), k);
  }

  lemma {:induction false} OldFound(f: seq<byte>, at: nat, n: nat, j: nat, o: OldEntry, e: Event, places: seq<nat>,
                                    k: nat)
    requires e.s < MAX_STREAMS && OldAt(f, at, n, j, o) && OldAgrees(o, e, places, k)
    ensures OldTells(f, at, n, j, e, places, k)
  {
  }

  /** The chunk behind the movi list of a settled recording is the old index.  It has an entry more
      than there were samples; entry i + 1 has identifier, flag and size of sample i, and if that has
      data, the offset of its chunk, which a walk over the movi list visits. */
  lemma {:induction false} OldIndexRight(left: seq<Stream>, base: nat, events: seq<Event>, mid: seq<byte>, i: nat,
                                         k: nat)
    requires Allowed(left, base, events, mid) && Settled(left, events) && i < |events|
    requires !events[i].sample.dropped ==> k == SlotOf(left, base, events, events[i].s, NumberOf(events, i))
    ensures OldInFile(left, base, events, Muxed(left, base, events, mid), i, k)
  {
    var f := Muxed(left, base, events, mid);
    MuxedSealed(left, base, events, mid);
    SealedNext(left, base, events, f);
    MuxedOld(left, base, events, mid, i + 1);
    OldEntryAgrees(left, base, events, f, i, k);
    OldIndexIn(left, base, events, f, i, k, Planned(left, base, events).idx1[i + 1]);
  }

  // ----- The other entries -----

  /** The entry of a discontinuity repeats the offset before it. */
  lemma {:induction false} GapRepeats(left: seq<Stream>, base: nat, events: seq<Event>, i: nat)
    requires LeftOk(left) && EventsOk(|left|, events) && i < |events| && events[i].sample.dropped
    ensures var idx1 := Planned(left, base, events).idx1; idx1[i + 1].offset == idx1[i].offset
  {
    var m := |events| - 1;
    var before := Planned(left, base, events[..m]);
    TakeIdx1(before, events[m]);
    assert Planned(left, base, events).idx1[..m + 1] == before.idx1;
    if i < m {
      GapRepeats(left, base, events[..m], i);
    } else {
      GapEntry(before, events[m]);
    }
  }

  lemma {:induction false} GapEntry(p: Plan, e: Event)
    requires CanTake(p, e) && e.sample.dropped
    ensures var idx1, n := Take(p, e).idx1, |p.idx1|; idx1[n].offset == p.idx1[n - 1].offset
  {
  }

  /** Of the old index at an offset, the first entry is about the movi list itself, which begins at
      base, and entry i, if it is of a discontinuity, has the offset of the entry before it. */
  ghost predicate OldRest(f: seq<byte>, base: nat, at: nat, events: seq<Event>, i: nat)
    requires i < |events|
  {
    && at + HEADER + 16 * (i + 2) <= |f| && ReadOld(f, at + HEADER) == OldEntry(FCC_7FXX, 0, base, 0)
    && (events[i].sample.dropped ==>
          ReadOld(f, at + HEADER + 16 * (i + 1)).offset == ReadOld(f, at + HEADER + 16 * i).offset)
  }

  lemma {:induction false} OldRestIn(f: seq<byte>, base: nat, at: nat, events: seq<Event>, i: nat, idx1: seq<OldEntry>)
    requires i < |events| && |idx1| == |events| + 1 && OldAt(f, at, |idx1|, 0, idx1[0])
    requires OldAt(f, at, |idx1|, i, idx1[i]) && OldAt(f, at, |idx1|, i + 1, idx1[i + 1])
    requires idx1[0] == OldEntry(FCC_7FXX, 0, base, 0)
    requires events[i].sample.dropped ==> idx1[i + 1].offset == idx1[i].offset
    ensures OldRest(f, base, at, events, i)
  {
  }

  /** That is so behind the movi list of a settled recording. */
  lemma {:induction false} OldRestRight(left: seq<Stream>, base: nat, events: seq<Event>, mid: seq<byte>, i: nat)
    requires Allowed(left, base, events, mid) && Settled(left, events) && i < |events|
    ensures var f := Muxed(left, base, events, mid);
            24 <= base <= |f| && OldRest(f, base, Next(f, base - 12), events, i)
  {
    MuxedSealed(left, base, events, mid);
    SealedNext(left, base, events, Muxed(left, base, events, mid));
    OldRestMuxed(left, base, events, mid, i);
  }

  lemma {:induction false} OldRestMuxed(left: seq<Stream>, base: nat, events: seq<Event>, mid: seq<byte>, i: nat)
    requires Allowed(left, base, events, mid) && Settled(left, events) && i < |events|
    ensures OldRest(Muxed(left, base, events, mid), base, Planned(left, base, events).size, events, i)
  {
    MuxedOld(left, base, events, mid, 0);
    MuxedOld(left, base, events, mid, i);
    MuxedOld(left, base, events, mid, i + 1);
    FirstOldEntry(left, base, events);
    if events[i].sample.dropped {
      GapRepeats(left, base, events, i);
    }
    var p := Planned(left, base, events);
    OldRestIn(Muxed(left, base, events, mid), base, p.size, events, i, p.idx1);
  }
}
