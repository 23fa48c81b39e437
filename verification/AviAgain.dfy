/** A filter that records again: entries, super-index and length of a stream are not cleared between
    recordings, so that look-up in a later file can go wrong. */
module AviAgain {
  import opened Riff
  import opened AviOut
  import opened AviIndex
  import opened AviLayout
  import opened AviFile
  import opened AviClose
  import opened AviRead
  import opened AviSuper
  import opened AviHeader

  // ----- What recordings leave -----

  lemma {:induction false} LeavesResumable(left: seq<Stream>, base: nat, events: seq<Event>, s: nat)
    requires RoomFor(left, base, events) && 24 <= base && s < |left|
    ensures Resumable(Leaves(left, base, events)[s])
  {
    var st := Planned(left, base, events).streams[s];
    StreamGrown(left, base, events, s);
    EntriesAllFit(left, base, events, s, |st.segs|);
    HistorySuperFits(left, base, events, s);
    forall i | 0 <= i < |Finished(st).super| ensures 0 <= Finished(st).super[i].dwDuration <= st.length {
      DurationsInside(st, left[s], |Sub(events, s)|, i);
    }
  }

  /** A filter can record again after every recording it had room for. */
  lemma {:induction false} LeavesOk(left: seq<Stream>, base: nat, events: seq<Event>)
    requires RoomFor(left, base, events) && 24 <= base
    ensures LeftOk(Leaves(left, base, events))
  {
    forall s | 0 <= s < |left| ensures Resumable(Leaves(left, base, events)[s]) {
      LeavesResumable(left, base, events, s);
    }
  }

  /** Recordings with the same headers, each of which finds room. */
  ghost predicate RecordingsOk(k: nat, base: nat, recs: seq<seq<Event>>)
    decreases |recs|, 1
  {
    && k <= MAX_STREAMS && 24 <= base
    && (recs != [] ==>
          var n := |recs| - 1;
          RecordingsOk(k, base, recs[..n]) && RoomFor(LeftAfter(k, base, recs[..n]), base, recs[n]))
  }

  /** The streams after some recordings. */
  ghost function LeftAfter(k: nat, base: nat, recs: seq<seq<Event>>): (left: seq<Stream>)
    requires RecordingsOk(k, base, recs)
    ensures |left| == k && LeftOk(left)
    decreases |recs|, 2
  {
    if recs == [] then seq(k, _ => Blank())
    else
      var n := |recs| - 1;
      var before := LeftAfter(k, base, recs[..n]);
      LeavesOk(before, base, recs[n]);
      Leaves(before, base, recs[n])
  }

  /** All samples of a stream so far. */
  function SamplesBefore(recs: seq<seq<Event>>, s: nat): nat {
    if recs == [] then 0 else SamplesBefore(recs[..|recs| - 1], s) + |Sub(recs[|recs| - 1], s)|
  }

  lemma {:induction false} LengthsAdd(k: nat, base: nat, recs: seq<seq<Event>>, s: nat)
    requires RecordingsOk(k, base, recs) && s < k
    ensures LeftAfter(k, base, recs)[s].length == SamplesBefore(recs, s)
  {
    if recs != [] {
      var n := |recs| - 1;
      LengthsAdd(k, base, recs[..n], s);
      StreamGrown(LeftAfter(k, base, recs[..n]), base, recs[n], s);
    }
  }

  // ----- The first stale entry -----

  /** The super-index leads sample number 0 to an index at this position. */
  ghost predicate LeadsTo(super: seq<SuperEntry>, q: nat, at: nat) {
    && q < |super| && super[q].dwDuration > 0 && super[q].qwOffset == at
    && forall i :: 0 <= i < q ==> super[i].dwDuration == 0
  }

  /** A stream that has had samples has old entries, and its super-index begins with a position. */
  ghost predicate Stale(st: Stream, at: nat) {
    st.length > 0 ==> |st.ix.entries| > 0 && exists q: nat :: LeadsTo(st.super, q, at)
  }

  /** The first standard index of a recording is at the same place each time. */
  lemma {:induction false} FirstPlace(left: seq<Stream>, base: nat, events: seq<Event>, s: nat)
    requires Bounded(left, base, events) && s < |left|
    ensures var st := Planned(left, base, events).streams[s];
            |left[s].super| <= |st.super| && IndexAt(st, |left[s].super|) == base + IX_BYTES * s
  {
    var p := Planned(left, base, events);
    StreamSize(left, base, events, s);
    FirstSlots(left, base, events);
    EverySlotRight(left, base, events, s);
    OpenedAt(left, base, s);
    assert p.slots[..s] == Opened(left, base).slots[..s];
  }

  lemma {:induction false} FirstSlots(left: seq<Stream>, base: nat, events: seq<Event>)
    requires LeftOk(left) && EventsOk(|left|, events)
    ensures Opened(left, base).slots <= Planned(left, base, events).slots
  {
    if events != [] {
      var n := |events| - 1;
      FirstSlots(left, base, events[..n]);
      TakeGrows(Planned(left, base, events[..n]), events[n]);
    }
  }

  lemma {:induction false} GrownStale(st: Stream, was: Stream, len: nat, at: nat)
    requires Resumable(was) && Grown(st, was, len) && Stale(was, at) && IndexAt(st, |was.super|) == at
    ensures Stale(Finished(st), at)
  {
    var super, m := Finished(st).super, |was.super|;
    if was.length > 0 {
      var q: nat :| LeadsTo(was.super, q, at);
      assert forall i :: 0 <= i < m ==> super[i] == was.super[i];
      assert LeadsTo(super, q, at);
    } else if st.length > 0 {
      assert forall i :: 0 <= i < m ==> super[i] == was.super[i];
      assert LeadsTo(super, m, at);
    }
  }

  lemma {:induction false} LeavesStale(left: seq<Stream>, base: nat, events: seq<Event>, s: nat)
    requires Bounded(left, base, events) && s < |left| && Stale(left[s], base + IX_BYTES * s)
    ensures Stale(Leaves(left, base, events)[s], base + IX_BYTES * s)
  {
    StreamGrown(left, base, events, s);
    FirstPlace(left, base, events, s);
    GrownStale(Planned(left, base, events).streams[s], left[s], |Sub(events, s)|, base + IX_BYTES * s);
  }

  lemma {:induction false} LeftStale(k: nat, base: nat, recs: seq<seq<Event>>, s: nat)
    requires RecordingsOk(k, base, recs) && s < k
    ensures Stale(LeftAfter(k, base, recs)[s], base + IX_BYTES * s)
  {
    if recs != [] {
      var n := |recs| - 1;
      var left := LeftAfter(k, base, recs[..n]);
      LeftStale(k, base, recs[..n], s);
      LeavesStale(left, base, recs[n], s);
    }
  }

  // ----- When look-up goes wrong -----

  /** Look-up of sample n does not give what a walk finds. */
  ghost predicate Misled(left: seq<Stream>, base: nat, events: seq<Event>, d: Descr, s: nat, n: nat) {
    && Recordable(left, base, events, d) && Settled(left, events) && s < |left|
    && n < |Sub(events, s)| && !Sub(events, s)[n].dropped
    && var f := Recorded(left, base, events, d);
       var r := FindSample(f, s, n);
       !(r.Some? && Agrees(f, base, s, Rank(Sub(events, s)[..n]), SlotOf(left, base, events, s, n), r.value,
                           Sub(events, s)[n]))
  }

  ghost predicate CanMislead(left: seq<Stream>, base: nat, d: Descr, s: nat) {
    exists events, n: nat :: Misled(left, base, events, d, s, n)
  }

  /** Sample number 0 is looked up in the first standard index, at its first entry, which is old. */
  lemma {:induction false} FindsOld(left: seq<Stream>, base: nat, events: seq<Event>, d: Descr, s: nat)
    requires Recordable(left, base, events, d) && Settled(left, events) && s < |left|
    requires left[s].length > 0 && Stale(left[s], base + IX_BYTES * s)
    ensures var r := FindSample(Recorded(left, base, events, d), s, 0);
            r.Some? && r.value.size == SizeOfEntry(left[s].ix.entries[0])
  {
    Describes(left, base, events, d);
    HeadersLeadOn(left, base, events, d, s);
    MuxedSealed(left, base, events, Middle(d, Supers(left, base, events)));
    FindsOldIn(left, base, events, Recorded(left, base, events, d), s);
  }

  lemma {:induction false} FindsOldIn(left: seq<Stream>, base: nat, events: seq<Event>, f: seq<byte>, s: nat)
    requires Sealed(left, base, events, f) && s < |left|
    requires left[s].length > 0 && Stale(left[s], base + IX_BYTES * s)
    ensures var r := Find(f, Supers(left, base, events)[s], 0);
            r.Some? && r.value.size == SizeOfEntry(left[s].ix.entries[0])
  {
    var st := Planned(left, base, events).streams[s];
    StreamGrown(left, base, events, s);
    FindsFirst(f, st, left[s], |Sub(events, s)|, base + IX_BYTES * s);
    FirstEntry(st, left[s], |Sub(events, s)|);
    FirstIndexSays(left, base, events, f, s);
  }

  lemma {:induction false} FirstIndexSays(left: seq<Stream>, base: nat, events: seq<Event>, f: seq<byte>, s: nat)
    requires Sealed(left, base, events, f) && s < |left|
    requires var st := Planned(left, base, events).streams[s];
             |left[s].super| <= |st.segs| && Seg(st, |left[s].super|).entries != []
    ensures var ix := Seg(Planned(left, base, events).streams[s], |left[s].super|);
            ReadIndex(f, base + IX_BYTES * s, 0) == Some(Said(ix, 0))
  {
    FirstPlace(left, base, events, s);
    IndexSays(left, base, events, f, s, |left[s].super|, 0);
  }

  lemma {:induction false} FindsFirst(f: seq<byte>, st: Stream, was: Stream, len: nat, at: nat)
    requires Resumable(was) && Grown(st, was, len) && was.length > 0 && Stale(was, at)
    ensures Find(f, Finished(st).super, 0) == ReadIndex(f, at, 0)
  {
    var super := Finished(st).super;
    var q: nat :| LeadsTo(was.super, q, at);
    assert forall i :: 0 <= i < |was.super| ==> super[i] == was.super[i];
    FindSkips(f, super, q, 0);
    assert super[q..][0] == super[q];
  }

  lemma {:induction false} FirstEntry(st: Stream, was: Stream, len: nat)
    requires Grown(st, was, len) && was.ix.entries != []
    ensures var ix := Seg(st, |was.super|); ix.entries != [] && ix.entries[0] == was.ix.entries[0]
  {
  }

  /** There is room to record one small sample more, of no bytes or of two. */
  ghost predicate RoomForOne(left: seq<Stream>, base: nat, d: Descr, s: nat) {
    && Recordable(left, base, [Event(s, Sample([], true, false))], d)
    && Recordable(left, base, [Event(s, Sample([0, 0], true, false))], d)
  }

  lemma {:induction false} OldEntryMisleads(left: seq<Stream>, base: nat, d: Descr, s: nat)
    requires RoomForOne(left, base, d, s) && s < |left| && left[s].length > 0 && Stale(left[s], base + IX_BYTES * s)
    ensures CanMislead(left, base, d, s)
  {
    if SizeOfEntry(left[s].ix.entries[0]) == 0 {
      OldEntryMisleadsAbout(left, base, d, s, [0, 0]);
    } else {
      OldEntryMisleadsAbout(left, base, d, s, []);
    }
  }

  lemma {:induction false} OldEntryMisleadsAbout(left: seq<Stream>, base: nat, d: Descr, s: nat, data: seq<byte>)
    requires Recordable(left, base, [Event(s, Sample(data, true, false))], d)
    requires s < |left| && left[s].length > 0 && Stale(left[s], base + IX_BYTES * s)
    requires |data| != SizeOfEntry(left[s].ix.entries[0])
    ensures Misled(left, base, [Event(s, Sample(data, true, false))], d, s, 0)
  {
    var events := [Event(s, Sample(data, true, false))];
    SubOfSingle(events[0]);
    FindsOld(left, base, events, d, s);
  }

  lemma {:induction false} SubOfSingle(e: Event)
    ensures Sub([e], e.s) == [e.sample]
  {
    assert [e][..0] == [];
  }

  /** After any number of recordings, the next file can mislead a reader about a stream exactly if the
      stream has had a sample in one of them. */
  lemma {:induction false} MisleadsExactly(k: nat, base: nat, recs: seq<seq<Event>>, d: Descr, s: nat)
    requires RecordingsOk(k, base, recs) && s < k && RoomForOne(LeftAfter(k, base, recs), base, d, s)
    ensures CanMislead(LeftAfter(k, base, recs), base, d, s) <==> SamplesBefore(recs, s) > 0
  {
    var left := LeftAfter(k, base, recs);
    LengthsAdd(k, base, recs, s);
    if SamplesBefore(recs, s) > 0 {
      LeftStale(k, base, recs, s);
      OldEntryMisleads(left, base, d, s);
    } else if CanMislead(left, base, d, s) {
      var events, n: nat :| Misled(left, base, events, d, s, n);
      FileTellsTheSame(left, base, events, d, s, n);
    }
  }
}
