/** The bytes that the AVI multiplexer writes: after any interleaving of samples of several streams
    every claimed place holds its chunk, so that a walk over the file and a look-up through the
    indexes find the same samples. */
module AviFile {
  import opened Riff
  import opened AviOut
  import opened AviIndex
  import opened AviLayout

  // ----- Writing at a position -----

  predicate FileHas(file: seq<byte>, at: nat, bytes: seq<byte>) {
    at + |bytes| <= |file| && file[at..at + |bytes|] == bytes
  }

  lemma {:induction false} OverlayHas(file: seq<byte>, at: nat, bytes: seq<byte>)
    requires bytes != []
    ensures FileHas(Overlay(file, at, bytes), at, bytes)
  {
    var r := Overlay(file, at, bytes);
    var part := r[at..at + |bytes|];
    forall i | 0 <= i < |bytes| ensures part[i] == bytes[i] {
      assert r[at + i] == ByteAt(file, at, bytes, at + i);
    }
  }

  lemma {:induction false} OverlayKeeps(file: seq<byte>, at: nat, bytes: seq<byte>, to: nat, data: seq<byte>)
    requires FileHas(file, at, bytes) && (at + |bytes| <= to || to + |data| <= at)
    ensures FileHas(Overlay(file, to, data), at, bytes)
  {
    var r := Overlay(file, to, data);
    var part, was := r[at..at + |bytes|], file[at..at + |bytes|];
    forall i | 0 <= i < |bytes| ensures part[i] == was[i] {
      assert r[at + i] == ByteAt(file, to, data, at + i);
    }
  }

  // ----- Chunks of places -----

  predicate SlotFits(p: Plan, slot: Slot) {
    && slot.s < |p.streams| <= MAX_STREAMS
    && match slot
       case IndexSlot(s, k) => k <= |p.streams[s].segs| && |Seg(p.streams[s], k).entries| <= STD_ENTRIES
       case DataSlot(_, _, _, smp) => SampleOk(smp)
  }

  function SlotChunk(p: Plan, slot: Slot): (c: Chunk)
    requires SlotFits(p, slot)
    ensures Good(c) && SizeOf(c) == SlotSize(slot)
  {
    NotLists(slot.s, true);
    NotLists(slot.s, false);
    match slot
    case IndexSlot(s, k) => IxChunk(s, Seg(p.streams[s], k))
    case DataSlot(s, _, _, smp) => DataChunk(s, smp)
  }

  /** A place that has been written: all but the standard indexes still in use. */
  predicate Closed(p: Plan, slot: Slot)
    requires SlotFits(p, slot)
  {
    slot.IndexSlot? ==> slot.k < |p.streams[slot.s].segs|
  }

  /** All places are of chunks that can be printed. */
  lemma {:induction false} EverySlotFits(left: seq<Stream>, base: nat, events: seq<Event>, i: nat)
    requires LeftOk(left) && EventsOk(|left|, events) && i < |Planned(left, base, events).slots|
    ensures var p := Planned(left, base, events); SlotFits(p, p.slots[i])
  {
    if events != [] {
      var m := |events| - 1;
      var before := Planned(left, base, events[..m]);
      var p := Planned(left, base, events);
      TakeGrows(before, events[m]);
      SlotStream(left, base, events, i);
      StreamSize(left, base, events, p.slots[i].s);
      if i < |before.slots| {
        EverySlotFits(left, base, events[..m], i);
      }
    }
  }

  lemma {:induction false} SlotStream(left: seq<Stream>, base: nat, events: seq<Event>, i: nat)
    requires LeftOk(left) && EventsOk(|left|, events) && i < |Planned(left, base, events).slots|
    ensures Planned(left, base, events).slots[i].s < |left|
  {
    if events != [] {
      var m := |events| - 1;
      var before := Planned(left, base, events[..m]);
      TakeGrows(before, events[m]);
      if i < |before.slots| {
        SlotStream(left, base, events[..m], i);
      }
    }
  }

  // ----- The file while samples come in -----

  /** What has been written, and where the next byte goes unless there is a seek. */
  datatype Output = Output(file: seq<byte>, pos: nat)

  function WriteAt(o: Output, at: nat, bytes: seq<byte>): Output {
    Output(Overlay(o.file, at, bytes), at + |bytes|)
  }

  /** A full standard index goes to its place. */
  function ReadyOut(o: Output, p: Plan, s: nat): Output
    requires s < |p.streams| <= MAX_STREAMS
  {
    var st := p.streams[s];
    if Full(st) then NotLists(s, true); WriteAt(o, st.ixOff, Print(IxChunk(s, st.ix))) else o
  }

  /** A sample with data goes to the end of the file. */
  function NoteOut(o: Output, p: Plan, s: nat, smp: Sample): Output
    requires s < |p.streams| <= MAX_STREAMS && SampleOk(smp)
  {
    NotLists(s, smp.sync);
    if smp.dropped then o else WriteAt(o, p.size, Print(DataChunk(s, smp)))
  }

  function TakeOut(o: Output, p: Plan, e: Event): Output
    requires CanTake(p, e)
  {
    NoteOut(ReadyOut(o, p, e.s), Prepared(p, e.s), e.s, e.sample)
  }

  function Written(left: seq<Stream>, base: nat, events: seq<Event>): Output
    requires LeftOk(left) && EventsOk(|left|, events)
  {
    if events == [] then Output([], 0)
    else
      var n := |events| - 1;
      TakeOut(Written(left, base, events[..n]), Planned(left, base, events[..n]), events[n])
  }

  /** If the i-th place has been written, it holds its chunk. */
  ghost predicate Holds(o: Output, p: Plan, base: nat, i: nat)
    requires i < |p.slots| && SlotFits(p, p.slots[i])
  {
    Closed(p, p.slots[i]) ==> FileHas(o.file, Offset(base, p.slots, i), Print(SlotChunk(p, p.slots[i])))
  }

  /** Writing a full index closes its place and leaves the others. */
  lemma {:induction false} ReadyHolds(o: Output, p: Plan, base: nat, s: nat, a: nat, i: nat)
    requires s < |p.streams| <= MAX_STREAMS && a < |p.slots| && i < |p.slots| && SlotFits(p, p.slots[i])
    requires p.slots[a] == IndexSlot(s, |p.streams[s].segs|) && p.streams[s].ixOff == Offset(base, p.slots, a)
    requires Holds(o, p, base, i)
    requires i != a ==> p.slots[i] != p.slots[a]
    ensures var r := Prepared(p, s);
            i < |r.slots| && r.slots[i] == p.slots[i] && SlotFits(r, r.slots[i]) && Holds(ReadyOut(o, p, s), r, base, i)
  {
    if Full(p.streams[s]) {
      RollHolds(o, p, base, s, a, i);
    }
  }

  lemma {:induction false} RollHolds(o: Output, p: Plan, base: nat, s: nat, a: nat, i: nat)
    requires s < |p.streams| <= MAX_STREAMS && a < |p.slots| && i < |p.slots| && SlotFits(p, p.slots[i])
    requires p.slots[a] == IndexSlot(s, |p.streams[s].segs|) && p.streams[s].ixOff == Offset(base, p.slots, a)
    requires Holds(o, p, base, i) && Full(p.streams[s])
    requires i != a ==> p.slots[i] != p.slots[a]
    ensures var r := Prepared(p, s);
            i < |r.slots| && r.slots[i] == p.slots[i] && SlotFits(r, r.slots[i]) && Holds(ReadyOut(o, p, s), r, base, i)
  {
    var st := p.streams[s];
    NotLists(s, true);
    AtPrefix(base, p.slots, [IndexSlot(s, |st.segs| + 1)], i);
    var bytes := Print(IxChunk(s, st.ix));
    if i == a {
      OverlayHas(o.file, st.ixOff, bytes);
    } else if Closed(p, p.slots[i]) {
      if i < a {
        AtOrdered(base, p.slots, i, a);
      } else {
        AtOrdered(base, p.slots, a, i);
      }
      OverlayKeeps(o.file, Offset(base, p.slots, i), Print(SlotChunk(p, p.slots[i])), st.ixOff, bytes);
    }
  }

  lemma {:induction false} NoteHolds(o: Output, p: Plan, base: nat, s: nat, smp: Sample, i: nat)
    requires s < |p.streams| <= MAX_STREAMS && SampleOk(smp) && p.idx1 != []
    requires p.size == base + Total(p.slots) && !Full(p.streams[s])
    requires i < |p.slots| ==> SlotFits(p, p.slots[i]) && Holds(o, p, base, i)
    requires i < |Note(p, s, smp).slots|
    ensures var r := Note(p, s, smp); SlotFits(r, r.slots[i]) && Holds(NoteOut(o, p, s, smp), r, base, i)
  {
    var r := Note(p, s, smp);
    NotLists(s, smp.sync);
    var bytes := Print(DataChunk(s, smp));
    if i < |p.slots| {
      assert r.slots[..i] == p.slots[..i];
      if Closed(p, p.slots[i]) && !smp.dropped {
        AtOrdered(base, p.slots, i, |p.slots|);
        assert p.slots[..|p.slots|] == p.slots;
        OverlayKeeps(o.file, Offset(base, p.slots, i), Print(SlotChunk(p, p.slots[i])), p.size, bytes);
      }
    } else {
      assert r.slots[..i] == p.slots;
      OverlayHas(o.file, p.size, bytes);
    }
  }

  /** No two places belong to the same standard index. */
  lemma {:induction false} IndexSlotOnce(left: seq<Stream>, base: nat, events: seq<Event>, i: nat, a: nat)
    requires LeftOk(left) && EventsOk(|left|, events) && 0 < base && Planned(left, base, events).size <= INT_MAX
    requires i < |Planned(left, base, events).slots| && a < |Planned(left, base, events).slots| && i != a
    ensures var p := Planned(left, base, events); p.slots[a].IndexSlot? ==> p.slots[i] != p.slots[a]
  {
    var p := Planned(left, base, events);
    EverySlotRight(left, base, events, i);
    EverySlotRight(left, base, events, a);
    if i < a {
      AtOrdered(base, p.slots, i, a);
    } else {
      AtOrdered(base, p.slots, a, i);
    }
  }

  /** After any interleaving of samples, every place that has been written holds its chunk. */
  lemma {:induction false} WrittenHolds(left: seq<Stream>, base: nat, events: seq<Event>, i: nat)
    requires LeftOk(left) && EventsOk(|left|, events) && 0 < base && Planned(left, base, events).size <= INT_MAX
    requires i < |Planned(left, base, events).slots|
    ensures SlotFits(Planned(left, base, events), Planned(left, base, events).slots[i])
    ensures Holds(Written(left, base, events), Planned(left, base, events), base, i)
  {
    if events == [] {
      EverySlotFits(left, base, events, i);
    } else {
      var m := |events| - 1;
      var before := Planned(left, base, events[..m]);
      TakeGrows(before, events[m]);
      if i < |before.slots| {
        WrittenHolds(left, base, events[..m], i);
      }
      HoldsNext(left, base, events, i);
    }
  }

  lemma {:induction false} HoldsNext(left: seq<Stream>, base: nat, events: seq<Event>, i: nat)
    requires LeftOk(left) && EventsOk(|left|, events) && 0 < base && events != []
    requires Planned(left, base, events[..|events| - 1]).size <= INT_MAX && i < |Planned(left, base, events).slots|
    requires var front := events[..|events| - 1];
             var p := Planned(left, base, front);
             i < |p.slots| ==> SlotFits(p, p.slots[i]) && Holds(Written(left, base, front), p, base, i)
    ensures SlotFits(Planned(left, base, events), Planned(left, base, events).slots[i])
    ensures Holds(Written(left, base, events), Planned(left, base, events), base, i)
  {
    var m := |events| - 1;
    NextWritten(left, base, events[..m], events[m], i);
  }

  lemma {:induction false} NextWritten(left: seq<Stream>, base: nat, events: seq<Event>, e: Event, i: nat)
    requires LeftOk(left) && EventsOk(|left|, events) && 0 < base && Planned(left, base, events).size <= INT_MAX
    requires CanTake(Planned(left, base, events), e) && i < |Take(Planned(left, base, events), e).slots|
    requires var p := Planned(left, base, events);
             i < |p.slots| ==> SlotFits(p, p.slots[i]) && Holds(Written(left, base, events), p, base, i)
    ensures var p := Planned(left, base, events);
            var r := Take(p, e);
            SlotFits(r, r.slots[i]) && Holds(TakeOut(Written(left, base, events), p, e), r, base, i)
  {
    var p := Planned(left, base, events);
    PlanSize(left, base, events);
    ReadyTotal(p, base, e.s);
    ReadyWritten(left, base, events, e.s, i);
    NoteHolds(ReadyOut(Written(left, base, events), p, e.s), Prepared(p, e.s), base, e.s, e.sample, i);
  }

  lemma {:induction false} ReadyWritten(left: seq<Stream>, base: nat, events: seq<Event>, s: nat, i: nat)
    requires LeftOk(left) && EventsOk(|left|, events) && s < |left|
    requires 0 < base && Planned(left, base, events).size <= INT_MAX
    requires var p := Planned(left, base, events);
             i < |p.slots| ==> SlotFits(p, p.slots[i]) && Holds(Written(left, base, events), p, base, i)
    ensures var p := Planned(left, base, events);
            var r := Prepared(p, s);
            i < |r.slots| ==> SlotFits(r, r.slots[i]) && Holds(ReadyOut(Written(left, base, events), p, s), r, base, i)
  {
    var p := Planned(left, base, events);
    if i < |p.slots| {
      StreamSize(left, base, events, s);
      var a := IndexSlotOf(left, base, events, s, |p.streams[s].segs|);
      EverySlotRight(left, base, events, a);
      if i != a {
        IndexSlotOnce(left, base, events, i, a);
      }
      ReadyHolds(Written(left, base, events), p, base, s, a, i);
    } else if Full(p.streams[s]) {
      NewIndexOpen(p, s);
    }
  }

  lemma {:induction false} NewIndexOpen(p: Plan, s: nat)
    requires s < |p.streams| <= MAX_STREAMS && Full(p.streams[s])
    ensures var r := Prepared(p, s);
            var slot := r.slots[|p.slots|];
            |r.slots| == |p.slots| + 1 && SlotFits(r, slot) && !Closed(r, slot)
  {
  }

  // ----- Where the next byte would go -----

  /** There is a sample with data, and no sample since has made a standard index go out. */
  predicate Settled(left: seq<Stream>, events: seq<Event>) {
    && events != []
    && var n := |events| - 1;
       events[n].sample.dropped ==>
         && events[n].s < |left|
         && !Fills(|left[events[n].s].ix.entries| + |Sub(events[..n], events[n].s)|) && Settled(left, events[..n])
  }

  lemma {:induction false} ReadyPos(o: Output, p: Plan, s: nat)
    requires s < |p.streams| <= MAX_STREAMS && |o.file| <= p.size && p.streams[s].ixOff + IX_BYTES <= p.size
    ensures var o', r := ReadyOut(o, p, s), Prepared(p, s);
            && |o'.file| <= p.size <= r.size
            && (if Full(p.streams[s]) then o'.pos < r.size else o' == o && r == p)
  {
    NotLists(s, true);
  }

  lemma {:induction false} NotePos(o: Output, p: Plan, s: nat, smp: Sample)
    requires s < |p.streams| <= MAX_STREAMS && SampleOk(smp) && p.idx1 != [] && |o.file| <= p.size
    ensures var o', r := NoteOut(o, p, s, smp), Note(p, s, smp);
            && |o'.file| <= r.size
            && (if smp.dropped then o' == o && r.size == p.size else o'.pos == r.size)
  {
    NotLists(s, smp.sync);
  }

  lemma {:induction false} TakePos(o: Output, p: Plan, e: Event)
    requires CanTake(p, e) && |o.file| <= p.size && o.pos <= p.size && p.streams[e.s].ixOff + IX_BYTES <= p.size
    ensures var o', r := TakeOut(o, p, e), Take(p, e);
            && |o'.file| <= r.size && o'.pos <= r.size
            && (o'.pos == r.size <==> (e.sample.dropped ==> !Full(p.streams[e.s]) && o.pos == p.size))
  {
    ReadyPos(o, p, e.s);
    NotePos(ReadyOut(o, p, e.s), Prepared(p, e.s), e.s, e.sample);
  }

  /** The output stands at the end of the file exactly if the history is settled, and before it
      otherwise. */
  lemma {:induction false} PosExactly(left: seq<Stream>, base: nat, events: seq<Event>)
    requires LeftOk(left) && EventsOk(|left|, events) && 0 < base && Planned(left, base, events).size <= INT_MAX
    ensures var o, p := Written(left, base, events), Planned(left, base, events);
            && |o.file| <= p.size && o.pos <= p.size
            && (o.pos == p.size <==> Settled(left, events))
  {
    if events != [] {
      var m := |events| - 1;
      var e := events[m];
      TakeGrows(Planned(left, base, events[..m]), e);
      PosExactly(left, base, events[..m]);
      ActiveInside(left, base, events[..m], e.s);
      StreamFull(left, base, events[..m], e.s);
      TakePos(Written(left, base, events[..m]), Planned(left, base, events[..m]), e);
    }
  }

  /** The place of the standard index in use lies inside the file. */
  lemma {:induction false} ActiveInside(left: seq<Stream>, base: nat, events: seq<Event>, s: nat)
    requires LeftOk(left) && EventsOk(|left|, events) && s < |left|
    requires 0 < base && Planned(left, base, events).size <= INT_MAX
    ensures var p := Planned(left, base, events); p.streams[s].ixOff + IX_BYTES <= p.size
  {
    var p := Planned(left, base, events);
    StreamSize(left, base, events, s);
    var a := IndexSlotOf(left, base, events, s, |p.streams[s].segs|);
    EverySlotRight(left, base, events, a);
    AtOrdered(base, p.slots, a, |p.slots|);
    assert p.slots[..|p.slots|] == p.slots;
    PlanSize(left, base, events);
  }
}
