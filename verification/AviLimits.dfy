/** Where the AVI multiplexer's file is not what it should be, with what brings it about. */
module AviLimits {
  import opened Riff
  import opened AviOut
  import opened AviIndex
  import opened AviLayout
  import opened AviFile
  import opened AviClose
  import opened AviRead
  import opened AviSuper
  import opened AviHeader
  import opened AviTurns
  import opened AviAgain

  // ----- Durations -----

  /** In any interleaving, the durations in the finished super-index of a stream that had no samples
      before add up to its number of samples exactly if that is at most 8000. */
  lemma {:induction false} DurationsAddUpExactly(left: seq<Stream>, base: nat, events: seq<Event>, s: nat)
    requires LeftOk(left) && EventsOk(|left|, events) && s < |left| && left[s].length == 0
    ensures TotalDuration(Finished(Planned(left, base, events).streams[s]).super) == |Sub(events, s)|
            <==> |Sub(events, s)| <= 2 * STD_ENTRIES
  {
    StreamGrown(left, base, events, s);
    FinishedDurations(Planned(left, base, events).streams[s], left[s], |Sub(events, s)|);
  }

  // ----- Histories of small samples -----

  /** Samples of at most two bytes, on few streams. */
  predicate Slim(left: seq<Stream>, events: seq<Event>) {
    |left| <= 2 && forall i :: 0 <= i < |events| ==> events[i].s < |left| && |events[i].sample.data| <= 2
  }

  lemma {:induction false} SlimSize(left: seq<Stream>, base: nat, events: seq<Event>)
    requires LeftOk(left) && Slim(left, events)
    ensures EventsOk(|left|, events)
    ensures Planned(left, base, events).size <= base + 2 * IX_BYTES + |events| * (IX_BYTES + HEADER + 2)
  {
    if events != [] {
      var n := |events| - 1;
      SlimSize(left, base, events[..n]);
      TakeSize(Planned(left, base, events[..n]), events[n]);
    }
  }

  lemma {:induction false} TakeSize(p: Plan, e: Event)
    requires CanTake(p, e) && |e.sample.data| <= 2
    ensures Take(p, e).size <= p.size + IX_BYTES + HEADER + 2
  {
  }

  lemma {:induction false} SubShorter(events: seq<Event>, s: nat)
    ensures |Sub(events, s)| <= |events|
  {
    if events != [] {
      SubShorter(events[..|events| - 1], s);
    }
  }

  /** Streams with little behind them. */
  predicate Young(left: seq<Stream>) {
    LeftOk(left) && forall s :: 0 <= s < |left| ==> |left[s].super| <= 10 && left[s].length <= 20000
  }

  /** Up to 20000 such samples are a history the multiplexer has room for, behind headers of up to
      a million bytes. */
  lemma {:induction false} SlimHasRoom(left: seq<Stream>, base: nat, events: seq<Event>)
    requires Young(left) && Slim(left, events) && |events| <= 20000 && base <= 1_000_000
    ensures RoomFor(left, base, events)
  {
    SlimSize(left, base, events);
    assert |events| * (IX_BYTES + HEADER + 2) <= 20000 * (IX_BYTES + HEADER + 2);
    forall s | 0 <= s < |left| ensures SuperRoom(left[s], |Sub(events, s)|) {
      SubShorter(events, s);
    }
  }

  /** A new filter. */
  function Blanks(k: nat): (left: seq<Stream>)
    requires k <= 2
    ensures |left| == k && Young(left) && forall s :: 0 <= s < k ==> left[s] == Blank()
  {
    seq(k, _ => Blank())
  }

  /** Headers of up to a million bytes for so many streams. */
  predicate Ordinary(k: nat, base: nat, d: Descr) {
    DescrOk(d) && |d.streams| == k && MiddleSize(d) + 24 == base <= 1_000_000
  }

  lemma {:induction false} SlimRecordable(left: seq<Stream>, base: nat, events: seq<Event>, d: Descr)
    requires Young(left) && Slim(left, events) && |events| <= 20000 && Ordinary(|left|, base, d)
    ensures Recordable(left, base, events, d)
  {
    SlimHasRoom(left, base, events);
  }

  const REAL := Sample([], true, false)

  /** So many samples of stream 0 of no bytes. */
  function Repeated(n: nat): (events: seq<Event>)
    ensures |events| == n && forall i :: 0 <= i < n ==> events[i] == Event(0, REAL)
  {
    seq(n, _ => Event(0, REAL))
  }

  lemma {:induction false} SubRepeated(n: nat)
    ensures |Sub(Repeated(n), 0)| == n
  {
    if n > 0 {
      SubRepeated(n - 1);
      assert Repeated(n)[..n - 1] == Repeated(n - 1);
    }
  }

  /** 8001 samples are enough for the durations in the file to go wrong, whatever else the headers
      say. */
  lemma {:induction false} DurationsGoWrong(base: nat, d: Descr) returns (events: seq<Event>)
    requires Ordinary(1, base, d)
    ensures Recordable(Blanks(1), base, events, d) && Settled(Blanks(1), events) && |Sub(events, 0)| == 8001
    ensures var f := Recorded(Blanks(1), base, events, d);
            SuperIn(f, 0).Some? && TotalDuration(ReadSuper(f, SuperIn(f, 0).value)) != 8001
  {
    events := Repeated(8001);
    SlimRecordable(Blanks(1), base, events, d);
    SubRepeated(8001);
    DurationsAddUpExactly(Blanks(1), base, events, 0);
    HeadersLeadOn(Blanks(1), base, events, d, 0);
  }

  // ----- A second recording -----

  /** One recording of one sample is enough for the next file to mislead, whatever the headers. */
  lemma {:induction false} SecondRecordingMisleads(base: nat, d: Descr)
    requires Ordinary(1, base, d)
    ensures RecordingsOk(1, base, [Repeated(1)]) && CanMislead(LeftAfter(1, base, [Repeated(1)]), base, d, 0)
  {
    var recs := [Repeated(1)];
    YoungAfterOne(base);
    var left := LeftAfter(1, base, recs);
    SlimRecordable(left, base, [Event(0, Sample([], true, false))], d);
    SlimRecordable(left, base, [Event(0, Sample([0, 0], true, false))], d);
    MisleadsExactly(1, base, recs, d, 0);
  }

  lemma {:induction false} YoungAfterOne(base: nat)
    requires 24 <= base <= 1_000_000
    ensures RecordingsOk(1, base, [Repeated(1)]) && Young(LeftAfter(1, base, [Repeated(1)]))
    ensures SamplesBefore([Repeated(1)], 0) == 1
  {
    var recs := [Repeated(1)];
    assert recs[..0] == [] && recs[0] == Repeated(1);
    assert RecordingsOk(1, base, []) && LeftAfter(1, base, []) == Blanks(1);
    SlimHasRoom(Blanks(1), base, Repeated(1));
    StreamGrown(Blanks(1), base, Repeated(1), 0);
    SubRepeated(1);
    assert SamplesBefore([], 0) == 0;
  }

  // ----- The old index on top of a chunk -----

  lemma {:induction false} RolledOut(o: Output, p: Plan, e: Event)
    requires CanTake(p, e) && e.sample.dropped && Full(p.streams[e.s])
    ensures TakeOut(o, p, e).pos == p.streams[e.s].ixOff + IX_BYTES
    ensures Take(p, e).slots == p.slots + [IndexSlot(e.s, |p.streams[e.s].segs| + 1)]
  {
    NotLists(e.s, true);
  }

  /** A discontinuity that makes a full standard index go out leaves the output right behind it. */
  lemma {:induction false} RollPos(left: seq<Stream>, base: nat, events: seq<Event>) returns (a: nat)
    requires LeftOk(left) && EventsOk(|left|, events) && 0 < base && Planned(left, base, events).size <= INT_MAX
    requires events != []
    requires var n := |events| - 1;
             && events[n].sample.dropped
             && Fills(|left[events[n].s].ix.entries| + |Sub(events[..n], events[n].s)|)
    ensures var n, p := |events| - 1, Planned(left, base, events);
            var s := events[n].s;
            && a + 1 < |p.slots| && p.slots[a] == IndexSlot(s, |Planned(left, base, events[..n]).streams[s].segs|)
            && Written(left, base, events).pos == Offset(base, p.slots, a + 1)
  {
    var n := |events| - 1;
    RolledOutReady(left, base, events);
    a := ActivePlace(left, base, events[..n], events[n].s);
    BehindPlace(base, Planned(left, base, events[..n]).slots, Planned(left, base, events).slots, a);
  }

  /** The place of the standard index in use. */
  lemma {:induction false} ActivePlace(left: seq<Stream>, base: nat, events: seq<Event>, s: nat) returns (a: nat)
    requires Bounded(left, base, events) && s < |left|
    ensures var p := Planned(left, base, events);
            && a < |p.slots| && p.slots[a] == IndexSlot(s, |p.streams[s].segs|)
            && p.streams[s].ixOff == Offset(base, p.slots, a)
  {
    StreamSize(left, base, events, s);
    a := IndexSlotOf(left, base, events, s, |Planned(left, base, events).streams[s].segs|);
    EverySlotRight(left, base, events, a);
  }

  lemma {:induction false} BehindPlace(base: nat, slots: seq<Slot>, all: seq<Slot>, a: nat)
    requires a < |slots| && slots <= all && slots[a].IndexSlot?
    ensures Offset(base, all, a + 1) == Offset(base, slots, a) + IX_BYTES
  {
    AtNext(base, slots, a);
    assert all[..a + 1] == slots[..a + 1];
  }

  lemma {:induction false} RolledOutReady(left: seq<Stream>, base: nat, events: seq<Event>)
    requires LeftOk(left) && EventsOk(|left|, events) && events != []
    requires var n := |events| - 1;
             && events[n].sample.dropped
             && Fills(|left[events[n].s].ix.entries| + |Sub(events[..n], events[n].s)|)
    ensures var n := |events| - 1;
            var s, before, p := events[n].s, Planned(left, base, events[..n]), Planned(left, base, events);
            && before.size <= p.size && Written(left, base, events).pos == before.streams[s].ixOff + IX_BYTES
            && p.slots == before.slots + [IndexSlot(s, |before.streams[s].segs| + 1)]
  {
    var n := |events| - 1;
    var before := Planned(left, base, events[..n]);
    TakeGrows(before, events[n]);
    StreamFull(left, base, events[..n], events[n].s);
    RolledOut(Written(left, base, events[..n]), before, events[n]);
  }

  /** The identifier of the chunk at an offset. */
  ghost predicate IdAt(f: seq<byte>, at: nat, fcc: nat) {
    at + 4 <= |f| && Dword(f[at..at + 4]) == fcc
  }

  /** If the place where the output stands is a sample's, closing puts the old index there. */
  lemma {:induction false} ShutOver(p: Plan, o: Output, head: seq<byte>, tail: seq<byte>, i: nat)
    requires Laid(p, |head|) && Filled(p, o, |head|) && |tail| >= 4
    requires i < |p.slots| && p.slots[i].DataSlot? && o.pos == Offset(|head|, p.slots, i)
    ensures IdAt(Shut(p, o, head, tail).file, Offset(|head|, p.slots, i), Dword(tail[..4]))
  {
    var base, at := |head|, Offset(|head|, p.slots, i);
    var o1 := WriteAt(o, o.pos, tail);
    OverlayHas(o.file, o.pos, tail);
    SubFile(o1.file, at, tail, 0, 4);
    PlaceInside(p, base, i);
    IndexesKeep(o1, p, base, |p.streams|, i, tail[..4]);
    OverlayKeeps(WriteIndexes(o1, p, |p.streams|).file, at, tail[..4], 0, head);
    HasId(Shut(p, o, head, tail).file, at, tail[..4]);
  }

  lemma {:induction false} HasId(f: seq<byte>, at: nat, bytes: seq<byte>)
    requires FileHas(f, at, bytes) && |bytes| == 4
    ensures IdAt(f, at, Dword(bytes))
  {
  }

  lemma {:induction false} OverTail(p: Plan, o: Output, base: nat, head: seq<byte>, tail: seq<byte>, i: nat, fcc: nat)
    requires |head| == base && Laid(p, base) && Filled(p, o, base) && |tail| >= 4 && Dword(tail[..4]) == fcc
    requires i < |p.slots| && p.slots[i].DataSlot? && o.pos == Offset(base, p.slots, i)
    ensures IdAt(Shut(p, o, head, tail).file, Offset(base, p.slots, i), fcc)
  {
    ShutOver(p, o, head, tail, i);
  }

  lemma {:induction false} TailBegins(p: Plan)
    requires 16 * |p.idx1| < U32 - 1
    ensures Dword(Tail(p)[..4]) == FCC_IDX1
  {
    var data := OldBytes(p.idx1);
    LeafLayout(FCC_IDX1, data, Zeros(8));
  }

  /** An unsettled history whose last sample made an index go out: the chunk that was claimed next
      after that index, if it is a sample's, is overwritten by the old index. */
  lemma {:induction false} ChunkOverwritten(left: seq<Stream>, base: nat, events: seq<Event>, mid: seq<byte>, i: nat)
    requires Allowed(left, base, events, mid)
    requires var p := Planned(left, base, events);
             i < |p.slots| && p.slots[i].DataSlot? && Written(left, base, events).pos == Offset(base, p.slots, i)
    ensures IdAt(Muxed(left, base, events, mid), Offset(base, Planned(left, base, events).slots, i), FCC_IDX1)
  {
    var p := Planned(left, base, events);
    MuxedReady(left, base, events, mid);
    TailBegins(p);
    var o := Written(left, base, events);
    OverTail(p, o, base, HeadFor(p, o, base, mid), Tail(p), i, FCC_IDX1);
  }
}
