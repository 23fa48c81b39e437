/** Where the AVI multiplexer puts what, for any interleaving of samples of several streams: the
    chunks of the movi list in the order in which their places are claimed, and what the indexes
    say about them. */
module AviLayout {
  import opened Riff
  import opened AviIndex

  /** A sample of stream s whose turn has come. */
  datatype Event = Event(s: nat, sample: Sample)

  predicate EventsOk(k: nat, events: seq<Event>) {
    forall i :: 0 <= i < |events| ==> events[i].s < k && SampleOk(events[i].sample)
  }

  /** The samples of one stream. */
  function Sub(events: seq<Event>, s: nat): seq<Sample> {
    if events == [] then []
    else
      var n := |events| - 1;
      Sub(events[..n], s) + (if events[n].s == s then [events[n].sample] else [])
  }

  lemma {:induction false} SubSnoc(events: seq<Event>, s: nat)
    requires events != []
    ensures var n := |events| - 1;
            Sub(events, s) == if events[n].s == s then Sub(events[..n], s) + [events[n].sample] else Sub(events[..n], s)
  {
  }

  // ----- Places -----

  /** The place of the k-th standard index of a stream, or of the sample at entry j of it. */
  datatype Slot = IndexSlot(s: nat, k: nat) | DataSlot(s: nat, k: nat, j: nat, sample: Sample)

  function SlotSize(slot: Slot): nat {
    match slot
    case IndexSlot(_, _) => IX_BYTES
    case DataSlot(_, _, _, smp) => HEADER + |smp.data| + |smp.data| % 2
  }

  function Total(slots: seq<Slot>): nat {
    if slots == [] then 0 else Total(slots[..|slots| - 1]) + SlotSize(slots[|slots| - 1])
  }

  /** Where the i-th place begins. */
  function Offset(base: nat, slots: seq<Slot>, i: nat): nat
    requires i <= |slots|
  {
    base + Total(slots[..i])
  }

  lemma {:induction false} TotalSnoc(slots: seq<Slot>, slot: Slot)
    ensures Total(slots + [slot]) == Total(slots) + SlotSize(slot)
  {
    assert (slots + [slot])[..|slots|] == slots;
  }

  lemma {:induction false} AtNext(base: nat, slots: seq<Slot>, i: nat)
    requires i < |slots|
    ensures Offset(base, slots, i + 1) == Offset(base, slots, i) + SlotSize(slots[i])
  {
    assert slots[..i + 1][..i] == slots[..i];
  }

  lemma {:induction false} AtPrefix(base: nat, slots: seq<Slot>, more: seq<Slot>, i: nat)
    requires i <= |slots|
    ensures Offset(base, slots + more, i) == Offset(base, slots, i)
  {
    assert (slots + more)[..i] == slots[..i];
  }

  /** Places do not overlap. */
  lemma {:induction false} AtOrdered(base: nat, slots: seq<Slot>, i: nat, j: nat)
    requires i < j <= |slots|
    ensures Offset(base, slots, i) + SlotSize(slots[i]) <= Offset(base, slots, j)
    decreases j - i
  {
    AtNext(base, slots, i);
    if i + 1 < j {
      AtOrdered(base, slots, i + 1, j);
    }
  }

  // ----- The plan -----

  /** An entry of the old index. */
  datatype OldEntry = OldEntry(ckid: nat, flags: nat, offset: nat, length: nat)

  const FCC_7FXX: nat := 0x7878_4637
  const KEYFRAME: nat := 0x10

  /** Streams, places, old index and the size of the file. */
  datatype Plan = Plan(streams: seq<Stream>, slots: seq<Slot>, idx1: seq<OldEntry>, size: nat)

  /** The streams as the recordings before have left them. */
  predicate LeftOk(left: seq<Stream>) {
    |left| <= MAX_STREAMS && forall s :: 0 <= s < |left| ==> Resumable(left[s])
  }

  /** Every stream reserves its first standard index; the movi list begins at base. */
  function Opened(left: seq<Stream>, base: nat): Plan {
    Plan(seq(|left|, s requires 0 <= s < |left| => Reopened(left[s], base + IX_BYTES * s)),
         seq(|left|, s requires 0 <= s < |left| => IndexSlot(s, |left[s].super|)),
         [OldEntry(FCC_7FXX, 0, base, 0)], base + IX_BYTES * |left|)
  }

  function Roll(p: Plan, s: nat): Plan
    requires s < |p.streams|
  {
    var st := p.streams[s];
    Plan(p.streams[s := Rolled(st, p.size)], p.slots + [IndexSlot(s, |st.segs| + 1)], p.idx1, p.size + IX_BYTES)
  }

  function Note(p: Plan, s: nat, smp: Sample): Plan
    requires s < |p.streams| && s < MAX_STREAMS && SampleOk(smp) && p.idx1 != []
  {
    var st := p.streams[s];
    var slot := DataSlot(s, |st.segs|, |st.ix.entries|, smp);
    var offset := if smp.dropped then p.idx1[|p.idx1| - 1].offset else p.size;
    var entry := OldEntry(DataFcc(s, smp.sync), if smp.sync then KEYFRAME else 0, offset, |smp.data|);
    Plan(p.streams[s := Noted(st, p.size, smp)], if smp.dropped then p.slots else p.slots + [slot],
         p.idx1 + [entry], if smp.dropped then p.size else p.size + SlotSize(slot))
  }

  function Prepared(p: Plan, s: nat): (r: Plan)
    requires s < |p.streams|
    ensures |r.streams| == |p.streams| && r.idx1 == p.idx1
  {
    if Full(p.streams[s]) then Roll(p, s) else p
  }

  predicate CanTake(p: Plan, e: Event) {
    e.s < |p.streams| <= MAX_STREAMS && SampleOk(e.sample) && p.idx1 != []
  }

  /** One turn of the loop of flush_queue for a sample that is due. */
  function Take(p: Plan, e: Event): (r: Plan)
    requires CanTake(p, e)
    ensures |r.streams| == |p.streams| && |r.idx1| == |p.idx1| + 1
  {
    Note(Prepared(p, e.s), e.s, e.sample)
  }

  function Planned(left: seq<Stream>, base: nat, events: seq<Event>): (p: Plan)
    requires LeftOk(left) && EventsOk(|left|, events)
    ensures |p.streams| == |left| && |p.idx1| == |events| + 1
  {
    if events == [] then Opened(left, base)
    else
      var n := |events| - 1;
      Take(Planned(left, base, events[..n]), events[n])
  }

  lemma {:induction false} OpenedTotal(left: seq<Stream>, base: nat)
    ensures Total(Opened(left, base).slots) == IX_BYTES * |left|
  {
    if left != [] {
      var k := |left| - 1;
      OpenedTotal(left[..k], base);
      assert Opened(left, base).slots[..k] == Opened(left[..k], base).slots;
    }
  }

  lemma {:induction false} OpenedAt(left: seq<Stream>, base: nat, s: nat)
    requires s <= |left|
    ensures Offset(base, Opened(left, base).slots, s) == base + IX_BYTES * s
  {
    OpenedTotal(left[..s], base);
    assert Opened(left, base).slots[..s] == Opened(left[..s], base).slots;
  }

  /** Places fill the movi list without gaps. */
  lemma {:induction false} PlanSize(left: seq<Stream>, base: nat, events: seq<Event>)
    requires LeftOk(left) && EventsOk(|left|, events)
    ensures var p := Planned(left, base, events); p.size == base + Total(p.slots)
  {
    if events == [] {
      OpenedTotal(left, base);
    } else {
      var n := |events| - 1;
      var e := events[n];
      PlanSize(left, base, events[..n]);
      var p := Planned(left, base, events[..n]);
      ReadyTotal(p, base, e.s);
      NoteTotal(Prepared(p, e.s), base, e.s, e.sample);
    }
  }

  /** Standard indexes closed in this recording are full, and the entries number the samples. */
  lemma {:induction false} StreamGrown(left: seq<Stream>, base: nat, events: seq<Event>, s: nat)
    requires LeftOk(left) && EventsOk(|left|, events) && s < |left|
    ensures Grown(Planned(left, base, events).streams[s], left[s], |Sub(events, s)|)
  {
    if events == [] {
      ReopenedGrown(left[s], base + IX_BYTES * s);
    } else {
      var n := |events| - 1;
      var e := events[n];
      StreamGrown(left, base, events[..n], s);
      var p := Planned(left, base, events[..n]);
      if e.s == s {
        NotedGrown(p.streams[s], left[s], |Sub(events[..n], s)|, p.size, Prepared(p, s).size, e.sample);
      }
    }
  }

  lemma {:induction false} StreamSize(left: seq<Stream>, base: nat, events: seq<Event>, s: nat)
    requires LeftOk(left) && EventsOk(|left|, events) && s < |left|
    ensures var st := Planned(left, base, events).streams[s];
            |left[s].super| <= |st.segs| == |st.super| && |st.ix.entries| <= STD_ENTRIES
  {
    StreamGrown(left, base, events, s);
  }

  lemma {:induction false} StreamFull(left: seq<Stream>, base: nat, events: seq<Event>, s: nat)
    requires LeftOk(left) && EventsOk(|left|, events) && s < |left|
    ensures Full(Planned(left, base, events).streams[s]) <==> Fills(|left[s].ix.entries| + |Sub(events, s)|)
  {
    StreamGrown(left, base, events, s);
    FullExactly(Planned(left, base, events).streams[s], left[s], |Sub(events, s)|);
  }

  lemma {:induction false} ReadyTotal(p: Plan, base: nat, s: nat)
    requires s < |p.streams| && p.size == base + Total(p.slots)
    ensures Prepared(p, s).size == base + Total(Prepared(p, s).slots)
  {
    TotalSnoc(p.slots, IndexSlot(s, |p.streams[s].segs| + 1));
  }

  lemma {:induction false} NoteTotal(p: Plan, base: nat, s: nat, smp: Sample)
    requires s < |p.streams| && s < MAX_STREAMS && SampleOk(smp) && p.idx1 != []
    requires p.size == base + Total(p.slots)
    ensures Note(p, s, smp).size == base + Total(Note(p, s, smp).slots)
  {
    TotalSnoc(p.slots, DataSlot(s, |p.streams[s].segs|, |p.streams[s].ix.entries|, smp));
  }

  // ----- What the indexes say about a place -----

  /** Entry j of the k-th standard index of a stream tells where the data are, their size and flag. */
  predicate EntryRight(st: Stream, k: nat, j: nat, at: nat, smp: Sample) {
    && k <= |st.segs| && j < |Seg(st, k).entries| && 0 < Seg(st, k).base
    && Seg(st, k).base + Seg(st, k).entries[j].dwOffset == at + HEADER
    && SizeOfEntry(Seg(st, k).entries[j]) == |smp.data|
    && IsDelta(Seg(st, k).entries[j]) == !smp.sync
  }

  predicate SlotRight(p: Plan, slot: Slot, at: nat) {
    && slot.s < |p.streams|
    && match slot
       case IndexSlot(s, k) => k <= |p.streams[s].super| && IndexAt(p.streams[s], k) == at
       case DataSlot(s, k, j, smp) => EntryRight(p.streams[s], k, j, at, smp)
  }

  lemma {:induction false} RollKeeps(p: Plan, s: nat, slot: Slot, at: nat)
    requires s < |p.streams| && SlotRight(p, slot, at)
    ensures SlotRight(Roll(p, s), slot, at)
  {
  }

  lemma {:induction false} NoteKeeps(p: Plan, s: nat, smp: Sample, slot: Slot, at: nat)
    requires s < |p.streams| && s < MAX_STREAMS && SampleOk(smp) && p.idx1 != [] && SlotRight(p, slot, at)
    ensures SlotRight(Note(p, s, smp), slot, at)
  {
  }

  lemma {:induction false} NoteRight(p: Plan, s: nat, smp: Sample)
    requires s < |p.streams| && s < MAX_STREAMS && SampleOk(smp) && p.idx1 != [] && !smp.dropped
    requires 0 < p.size && p.streams[s].ix.base <= p.size && p.size + HEADER < U32
    ensures var st := p.streams[s];
            SlotRight(Note(p, s, smp), DataSlot(s, |st.segs|, |st.ix.entries|, smp), p.size)
  {
    var e := Noted(p.streams[s], p.size, smp).ix.entries[|p.streams[s].ix.entries|];
    PackedSizeReads(smp, e.dwOffset);
  }

  /** Base offsets lie inside the file. */
  lemma {:induction false} BasesInside(left: seq<Stream>, base: nat, events: seq<Event>, s: nat)
    requires LeftOk(left) && EventsOk(|left|, events) && s < |left|
    ensures var p := Planned(left, base, events); p.streams[s].ix.base <= p.size && base <= p.size
  {
    if events != [] {
      BasesInside(left, base, events[..|events| - 1], s);
    }
  }

  lemma {:induction false} TakeGrows(p: Plan, e: Event)
    requires CanTake(p, e)
    ensures p.size <= Prepared(p, e.s).size <= Take(p, e).size
    ensures p.slots <= Prepared(p, e.s).slots <= Take(p, e).slots
  {
  }

  /** Whatever the other streams do in between, every place is where the indexes of its stream say. */
  lemma {:induction false} EverySlotRight(left: seq<Stream>, base: nat, events: seq<Event>, i: nat)
    requires LeftOk(left) && EventsOk(|left|, events) && 0 < base
    requires Planned(left, base, events).size <= INT_MAX && i < |Planned(left, base, events).slots|
    ensures var p := Planned(left, base, events); SlotRight(p, p.slots[i], Offset(base, p.slots, i))
  {
    if events == [] {
      OpenedAt(left, base, i);
    } else {
      var n := |events| - 1;
      var e := events[n];
      var before := Planned(left, base, events[..n]);
      TakeGrows(before, e);
      if i < |before.slots| {
        EverySlotRight(left, base, events[..n], i);
      }
      PlanSize(left, base, events[..n]);
      StreamSize(left, base, events[..n], e.s);
      BasesInside(left, base, events[..n], e.s);
      TakeSlotRight(before, base, e, i);
    }
  }

  lemma {:induction false} TakeSlotRight(p: Plan, base: nat, e: Event, i: nat)
    requires CanTake(p, e) && 0 < p.size == base + Total(p.slots) && Take(p, e).size <= INT_MAX
    requires |p.streams[e.s].segs| == |p.streams[e.s].super| && p.streams[e.s].ix.base <= p.size
    requires i < |p.slots| ==> SlotRight(p, p.slots[i], Offset(base, p.slots, i))
    ensures var r := Take(p, e); i < |r.slots| ==> SlotRight(r, r.slots[i], Offset(base, r.slots, i))
  {
    TakeGrows(p, e);
    ReadySlotRight(p, base, e.s, i);
    NoteSlotRight(Prepared(p, e.s), base, e.s, e.sample, i);
  }

  lemma {:induction false} ReadySlotRight(p: Plan, base: nat, s: nat, i: nat)
    requires s < |p.streams| && p.size == base + Total(p.slots)
    requires |p.streams[s].segs| == |p.streams[s].super|
    requires i < |p.slots| ==> SlotRight(p, p.slots[i], Offset(base, p.slots, i))
    ensures var r := Prepared(p, s);
            && r.size == base + Total(r.slots)
            && (i < |r.slots| ==> SlotRight(r, r.slots[i], Offset(base, r.slots, i)))
  {
    ReadyTotal(p, base, s);
    if Full(p.streams[s]) {
      var new_ := [IndexSlot(s, |p.streams[s].segs| + 1)];
      if i < |p.slots| {
        AtPrefix(base, p.slots, new_, i);
        RollKeeps(p, s, p.slots[i], Offset(base, p.slots, i));
      } else if i == |p.slots| {
        AtPrefix(base, p.slots, new_, i);
        assert p.slots[..i] == p.slots;
      }
    }
  }

  lemma {:induction false} NoteSlotRight(p: Plan, base: nat, s: nat, smp: Sample, i: nat)
    requires s < |p.streams| && s < MAX_STREAMS && SampleOk(smp) && p.idx1 != []
    requires 0 < p.size == base + Total(p.slots) && p.streams[s].ix.base <= p.size && p.size <= INT_MAX
    requires i < |p.slots| ==> SlotRight(p, p.slots[i], Offset(base, p.slots, i))
    ensures var r := Note(p, s, smp);
            i < |r.slots| ==> SlotRight(r, r.slots[i], Offset(base, r.slots, i))
  {
    var r := Note(p, s, smp);
    if i < |p.slots| {
      NoteKeeps(p, s, smp, p.slots[i], Offset(base, p.slots, i));
      assert r.slots[..i] == p.slots[..i];
    } else if i < |r.slots| {
      NoteRight(p, s, smp);
      assert r.slots[..i] == p.slots;
    }
  }

  // ----- Which place belongs to which sample -----

  /** How many samples have data. */
  function Rank(samples: seq<Sample>): nat {
    if samples == [] then 0
    else Rank(samples[..|samples| - 1]) + (if samples[|samples| - 1].dropped then 0 else 1)
  }

  /** How many places hold samples of a stream. */
  function DataSlots(slots: seq<Slot>, s: nat): nat {
    if slots == [] then 0
    else
      var last := slots[|slots| - 1];
      DataSlots(slots[..|slots| - 1], s) + (if last.DataSlot? && last.s == s then 1 else 0)
  }

  lemma {:induction false} CountSnoc(slots: seq<Slot>, slot: Slot, s: nat)
    ensures DataSlots(slots + [slot], s) == DataSlots(slots, s) + (if slot.DataSlot? && slot.s == s then 1 else 0)
  {
    assert (slots + [slot])[..|slots|] == slots;
  }

  lemma {:induction false} RankSnoc(samples: seq<Sample>, smp: Sample)
    ensures Rank(samples + [smp]) == Rank(samples) + (if smp.dropped then 0 else 1)
  {
    assert (samples + [smp])[..|samples|] == samples;
  }

  lemma {:induction false} ReadyCount(p: Plan, t: nat, s: nat)
    requires t < |p.streams|
    ensures DataSlots(Prepared(p, t).slots, s) == DataSlots(p.slots, s)
  {
    CountSnoc(p.slots, IndexSlot(t, |p.streams[t].segs| + 1), s);
  }

  lemma {:induction false} TakeCount(p: Plan, e: Event, s: nat)
    requires CanTake(p, e)
    ensures DataSlots(Take(p, e).slots, s) == DataSlots(p.slots, s) + (if e.s == s && !e.sample.dropped then 1 else 0)
  {
    ReadyCount(p, e.s, s);
    var st := Prepared(p, e.s).streams[e.s];
    CountSnoc(Prepared(p, e.s).slots, DataSlot(e.s, |st.segs|, |st.ix.entries|, e.sample), s);
  }

  lemma {:induction false} OpenedCount(left: seq<Stream>, base: nat, s: nat)
    ensures DataSlots(Opened(left, base).slots, s) == 0
  {
    if left != [] {
      var k := |left| - 1;
      OpenedCount(left[..k], base, s);
      assert Opened(left, base).slots[..k] == Opened(left[..k], base).slots;
    }
  }

  /** Every sample with data has one place. */
  lemma {:induction false} CountAll(left: seq<Stream>, base: nat, events: seq<Event>, s: nat)
    requires LeftOk(left) && EventsOk(|left|, events)
    ensures DataSlots(Planned(left, base, events).slots, s) == Rank(Sub(events, s))
  {
    if events == [] {
      OpenedCount(left, base, s);
    } else {
      var n := |events| - 1;
      CountAll(left, base, events[..n], s);
      TakeCount(Planned(left, base, events[..n]), events[n], s);
      SubSnoc(events, s);
      RankSnoc(Sub(events[..n], s), events[n].sample);
    }
  }

  /** The place of the n-th sample of stream s. */
  function SlotOf(left: seq<Stream>, base: nat, events: seq<Event>, s: nat, n: nat): (i: nat)
    requires LeftOk(left) && EventsOk(|left|, events) && n < |Sub(events, s)| && !Sub(events, s)[n].dropped
    ensures i < |Planned(left, base, events).slots|
  {
    var m := |events| - 1;
    if n < |Sub(events[..m], s)| then
      TakeGrows(Planned(left, base, events[..m]), events[m]);
      SlotOf(left, base, events[..m], s, n)
    else |Planned(left, base, events).slots| - 1
  }

  lemma {:induction false} ReadyLength(st: Stream, was: Stream, size: nat, len: nat)
    requires Grown(st, was, len)
    ensures var r := if Full(st) then Rolled(st, size) else st;
            && |was.super| <= |r.segs| && |r.ix.entries| < STD_ENTRIES
            && STD_ENTRIES * (|r.segs| - |was.super|) + |r.ix.entries| == |was.ix.entries| + len
  {
    if Full(st) {
      RolledNumber(|st.segs| - |was.super|, |was.ix.entries| + len);
    }
  }

  /** The place that a sample with data gets. */
  lemma {:induction false} NewSlot(p: Plan, was: Stream, e: Event, n: nat)
    requires CanTake(p, e) && !e.sample.dropped && Grown(p.streams[e.s], was, n)
    ensures var slots := Take(p, e).slots;
            var i := |slots| - 1;
            && i >= 0 && slots[i].DataSlot? && slots[i].s == e.s && slots[i].sample == e.sample
            && |was.super| <= slots[i].k && slots[i].j < STD_ENTRIES
            && STD_ENTRIES * (slots[i].k - |was.super|) + slots[i].j == |was.ix.entries| + n
            && DataSlots(slots[..i], e.s) == DataSlots(p.slots, e.s)
  {
    ReadyCount(p, e.s, e.s);
    ReadyLength(p.streams[e.s], was, p.size, n);
    var slots := Take(p, e).slots;
    assert slots[..|slots| - 1] == Prepared(p, e.s).slots;
  }

  /** It is a place for that sample, and as many places of samples of s come before as samples
      with data. */
  lemma {:induction false} SlotOfRight(left: seq<Stream>, base: nat, events: seq<Event>, s: nat, n: nat)
    requires LeftOk(left) && EventsOk(|left|, events) && n < |Sub(events, s)| && !Sub(events, s)[n].dropped
    ensures var p := Planned(left, base, events);
            s < |left| && PlaceOf(p.slots, SlotOf(left, base, events, s, n), left[s], s, n, Sub(events, s))
  {
    var m := |events| - 1;
    var before := Planned(left, base, events[..m]);
    SubSnoc(events, s);
    if n < |Sub(events[..m], s)| {
      TakeGrows(before, events[m]);
      SlotOfRight(left, base, events[..m], s, n);
      PlaceKept(before.slots, Take(before, events[m]).slots, SlotOf(left, base, events[..m], s, n), left[s], s, n,
                Sub(events[..m], s), Sub(events, s));
    } else {
      NewPlace(left, base, events, n);
    }
  }

  /** Place i is that of the n-th sample of a stream. */
  predicate PlaceOf(slots: seq<Slot>, i: nat, was: Stream, s: nat, n: nat, subs: seq<Sample>) {
    && i < |slots| && n < |subs|
    && slots[i].DataSlot? && slots[i].s == s && slots[i].sample == subs[n]
    && |was.super| <= slots[i].k && slots[i].j < STD_ENTRIES
    && STD_ENTRIES * (slots[i].k - |was.super|) + slots[i].j == |was.ix.entries| + n
    && DataSlots(slots[..i], s) == Rank(subs[..n])
  }

  lemma {:induction false} PlaceKept(slots: seq<Slot>, slots': seq<Slot>, i: nat, was: Stream, s: nat, n: nat,
                                     subs: seq<Sample>, subs': seq<Sample>)
    requires PlaceOf(slots, i, was, s, n, subs) && slots <= slots' && subs <= subs'
    ensures PlaceOf(slots', i, was, s, n, subs')
  {
    assert slots'[..i] == slots[..i] && subs'[..n] == subs[..n];
  }

  lemma {:induction false} NewPlace(left: seq<Stream>, base: nat, events: seq<Event>, n: nat)
    requires LeftOk(left) && EventsOk(|left|, events) && events != [] && !events[|events| - 1].sample.dropped
    requires n == |Sub(events[..|events| - 1], events[|events| - 1].s)|
    ensures var slots, s := Planned(left, base, events).slots, events[|events| - 1].s;
            |slots| > 0 && PlaceOf(slots, |slots| - 1, left[s], s, n, Sub(events, s))
  {
    var m := |events| - 1;
    var e := events[m];
    SubSnoc(events, e.s);
    CountAll(left, base, events[..m], e.s);
    StreamGrown(left, base, events[..m], e.s);
    NewSlot(Planned(left, base, events[..m]), left[e.s], e, n);
    assert Sub(events, e.s)[..n] == Sub(events[..m], e.s);
  }

  /** The place of the q-th standard index of stream s, if it is of this recording. */
  lemma {:induction false} IndexSlotOf(left: seq<Stream>, base: nat, events: seq<Event>, s: nat,
                                       q: nat) returns (i: nat)
    requires LeftOk(left) && EventsOk(|left|, events) && s < |left|
    requires |left[s].super| <= q <= |Planned(left, base, events).streams[s].segs|
    ensures var p := Planned(left, base, events); i < |p.slots| && p.slots[i] == IndexSlot(s, q)
  {
    if events == [] {
      i := s;
    } else {
      var m := |events| - 1;
      var before := Planned(left, base, events[..m]);
      TakeGrows(before, events[m]);
      if q <= |before.streams[s].segs| {
        i := IndexSlotOf(left, base, events[..m], s, q);
      } else {
        i := |before.slots|;
      }
    }
  }

  // ----- What an entry says -----

  predicate EntrySays(e: Entry, smp: Sample) {
    && SizeOfEntry(e) == |smp.data| && IsDelta(e) == !smp.sync
    && e.dwOffset < U32 && e.dwSize < U32 && (smp.dropped ==> e.dwOffset == 0)
  }

  lemma {:induction false} NotedSays(st: Stream, size: nat, smp: Sample)
    requires SampleOk(smp)
    ensures EntrySays(Noted(st, size, smp).ix.entries[|st.ix.entries|], smp)
  {
    PackedSizeReads(smp, Noted(st, size, smp).ix.entries[|st.ix.entries|].dwOffset);
  }

  /** Every entry made in this recording, in a standard index written or still open, is right about
      the size and the key-frame flag of its sample, discontinuities included. */
  lemma {:induction false} EveryEntrySays(left: seq<Stream>, base: nat, events: seq<Event>, s: nat, q: nat, j: nat)
    requires LeftOk(left) && EventsOk(|left|, events) && s < |left| && |left[s].super| <= q
    requires var st := Planned(left, base, events).streams[s]; q <= |st.segs| && j < |Seg(st, q).entries|
    requires STD_ENTRIES * (q - |left[s].super|) + j >= |left[s].ix.entries|
    ensures var st := Planned(left, base, events).streams[s];
            var n := STD_ENTRIES * (q - |left[s].super|) + j - |left[s].ix.entries|;
            n < |Sub(events, s)| && EntrySays(Seg(st, q).entries[j], Sub(events, s)[n])
  {
    if events == [] {
      ReopenedGrown(left[s], base + IX_BYTES * s);
    } else {
      var m := |events| - 1;
      var e := events[m];
      var before := Planned(left, base, events[..m]);
      var st := before.streams[s];
      if q <= |st.segs| && j < |Seg(st, q).entries| {
        EveryEntrySays(left, base, events[..m], s, q, j);
      } else {
        StreamGrown(left, base, events[..m], s);
        LastEntry(before, left[s], e, q, j, |Sub(events[..m], s)|);
        NotedSays(Prepared(before, s).streams[s], Prepared(before, s).size, e.sample);
      }
      SubSnoc(events, s);
    }
  }

  /** The entry that a sample adds. */
  lemma {:induction false} LastEntry(p: Plan, was: Stream, e: Event, q: nat, j: nat, len: nat)
    requires CanTake(p, e) && Grown(p.streams[e.s], was, len) && |was.super| <= q
    requires var st := Take(p, e).streams[e.s]; q <= |st.segs| && j < |Seg(st, q).entries|
    requires var st := p.streams[e.s]; !(q <= |st.segs| && j < |Seg(st, q).entries|)
    ensures var r := Prepared(p, e.s).streams[e.s];
            && q == |r.segs| && j == |r.ix.entries|
            && Seg(Take(p, e).streams[e.s], q) == Noted(r, Prepared(p, e.s).size, e.sample).ix
            && STD_ENTRIES * (q - |was.super|) + j == |was.ix.entries| + len
  {
    ReadyLength(p.streams[e.s], was, p.size, len);
  }
}
