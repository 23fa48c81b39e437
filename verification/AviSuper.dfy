/** The super-indexes as they lie in the headers of the file, and what a history makes of them. */
module AviSuper {
  import opened Riff
  import opened AviOut
  import opened AviIndex
  import opened AviLayout
  import opened AviFile
  import opened AviClose
  import opened AviRead

  // ----- A super-index as bytes -----

  /** Bytes of a super-index: a 32-byte head and 2000 entries of sixteen bytes. */
  const INDX_BYTES: nat := 32032
  const FCC_INDX: nat := 0x7864_6E69

  predicate SuperFits(super: seq<SuperEntry>) {
    && |super| <= SUPER_ENTRIES
    && forall i :: 0 <= i < |super| ==> super[i].qwOffset < U32 && 0 <= super[i].dwDuration < U32
  }

  function SuperBytes(super: seq<SuperEntry>): (b: seq<byte>)
    requires SuperFits(super)
    ensures |b| == 16 * |super|
  {
    if super == [] then []
    else
      var e := super[|super| - 1];
      SuperBytes(super[..|super| - 1]) + (Le(e.qwOffset, 8) + Le(IX_BYTES, 4) + Le(e.dwDuration, 4))
  }

  /** Everything up to the entries, the number of those in use at offset 12. */
  function SuperHead(s: nat, n: nat): (b: seq<byte>)
    requires s < MAX_STREAMS
    ensures |b| == 32
  {
    Header(FCC_INDX, INDX_BYTES - HEADER) + (Le(4, 2) + [0, 0])
    + Le(n, 4) + (Le(DataFcc(s, true), 4) + Zeros(12))
  }

  /** AVISUPERINDEX. */
  function IndxBytes(s: nat, super: seq<SuperEntry>): (b: seq<byte>)
    requires s < MAX_STREAMS && SuperFits(super)
    ensures |b| == INDX_BYTES
  {
    SuperHead(s, |super|) + SuperBytes(super) + Zeros(16 * (SUPER_ENTRIES - |super|))
  }

  // ----- Reading it -----

  function ReadSuperEntry(b: seq<byte>, at: nat): SuperEntry
    requires at + 16 <= |b|
  {
    SuperEntry(ReadLe(b[at..at + 8]), Dword(b[at + 12..at + 16]))
  }

  /** The entries in use of the super-index at an offset of the file. */
  function ReadSuper(b: seq<byte>, at: nat): (super: seq<SuperEntry>) {
    if at + INDX_BYTES > |b| || Dword(b[at + 12..at + 16]) > SUPER_ENTRIES then []
    else
      var n := Dword(b[at + 12..at + 16]);
      seq(n, i requires 0 <= i < n => ReadSuperEntry(b, at + 32 + 16 * i))
  }

  lemma {:induction false} SuperHeadReads(s: nat, n: nat)
    requires s < MAX_STREAMS && n < U32
    ensures Dword(SuperHead(s, n)[12..16]) == n
  {
    var a := Header(FCC_INDX, INDX_BYTES - HEADER) + (Le(4, 2) + [0, 0]);
    ThreeParts(a, Le(n, 4), Le(DataFcc(s, true), 4) + Zeros(12));
    DwordRoundTrip(n);
  }

  lemma {:induction false} SuperEntryReads(super: seq<SuperEntry>, more: seq<byte>, i: nat)
    requires SuperFits(super) && i < |super|
    ensures ReadSuperEntry(SuperBytes(super) + more, 16 * i) == super[i]
  {
    var n := |super| - 1;
    var e := super[n];
    var front, off, size, dur := SuperBytes(super[..n]), Le(e.qwOffset, 8), Le(IX_BYTES, 4), Le(e.dwDuration, 4);
    assert SuperBytes(super) + more == front + (off + size + dur + more);
    if i < n {
      SuperEntryReads(super[..n], off + size + dur + more, i);
    } else {
      LastEntryReads(front, off, size, dur, more);
      LongRoundTrip(e.qwOffset);
      DwordRoundTrip(e.dwDuration);
    }
  }

  lemma {:induction false} LastEntryReads(front: seq<byte>, off: seq<byte>, size: seq<byte>, dur: seq<byte>,
                                          more: seq<byte>)
    requires |off| == 8 && |size| == 4 && |dur| == 4
    ensures ReadSuperEntry(front + (off + size + dur + more), |front|) == SuperEntry(ReadLe(off), Dword(dur))
  {
    var all := front + (off + size + dur + more);
    assert all == front + off + (size + dur + more);
    ThreeParts(front, off, size + dur + more);
    assert all == (front + off + size) + dur + more;
    ThreeParts(front + off + size, dur, more);
  }

  lemma {:induction false} SuperParts(b: seq<byte>, at: nat, s: nat, super: seq<SuperEntry>,
                                      head: seq<byte>, bytes: seq<byte>)
    requires s < MAX_STREAMS && SuperFits(super) && FileHas(b, at, IndxBytes(s, super))
    requires head == SuperHead(s, |super|) && bytes == SuperBytes(super) + Zeros(16 * (SUPER_ENTRIES - |super|))
    ensures at + INDX_BYTES <= |b| && FileHas(b, at, head) && FileHas(b, at + 32, bytes)
  {
    var all := IndxBytes(s, super);
    assert all == head + bytes;
    SubFile(b, at, all, 0, 32);
    SubFile(b, at, all, 32, INDX_BYTES);
    assert all[0..32] == head && all[32..INDX_BYTES] == bytes;
  }

  lemma {:induction false} EntryHere(f: seq<byte>, at: nat, bytes: seq<byte>, n: nat)
    requires FileHas(f, at, bytes) && n + 16 <= |bytes|
    ensures at + n + 16 <= |f| && ReadSuperEntry(f, at + n) == ReadSuperEntry(bytes, n)
  {
    SubFile(f, at, bytes, n, n + 8);
    SubFile(f, at, bytes, n + 12, n + 16);
  }

  lemma {:induction false} EntryRead(b: seq<byte>, at: nat, super: seq<SuperEntry>, more: seq<byte>, i: nat)
    requires SuperFits(super) && i < |super| && FileHas(b, at + 32, SuperBytes(super) + more)
    ensures at + 32 + 16 * i + 16 <= |b| && ReadSuperEntry(b, at + 32 + 16 * i) == super[i]
  {
    SuperEntryReads(super, more, i);
    EntryHere(b, at + 32, SuperBytes(super) + more, 16 * i);
  }

  lemma {:induction false} EntriesRead(b: seq<byte>, at: nat, head: seq<byte>, super: seq<SuperEntry>, more: seq<byte>)
    requires SuperFits(super) && at + INDX_BYTES <= |b| && |head| == 32 && Dword(head[12..16]) == |super|
    requires FileHas(b, at, head) && FileHas(b, at + 32, SuperBytes(super) + more)
    ensures ReadSuper(b, at) == super
  {
    SubFile(b, at, head, 12, 16);
    assert |ReadSuper(b, at)| == |super|;
    forall i | 0 <= i < |super| ensures ReadSuper(b, at)[i] == super[i] {
      EntryRead(b, at, super, more, i);
    }
  }

  /** A super-index found in a file says what it was made of. */
  lemma {:induction false} SuperReads(b: seq<byte>, at: nat, s: nat, super: seq<SuperEntry>)
    requires s < MAX_STREAMS && SuperFits(super) && FileHas(b, at, IndxBytes(s, super))
    ensures ReadSuper(b, at) == super
  {
    var more := Zeros(16 * (SUPER_ENTRIES - |super|));
    SuperParts(b, at, s, super, SuperHead(s, |super|), SuperBytes(super) + more);
    SuperHeadReads(s, |super|);
    EntriesRead(b, at, SuperHead(s, |super|), super, more);
  }

  // ----- The super-indexes that a history leaves -----

  predicate AllSupersFit(supers: seq<seq<SuperEntry>>) {
    |supers| <= MAX_STREAMS && forall s :: 0 <= s < |supers| ==> SuperFits(supers[s])
  }

  /** The super-indexes of finished streams. */
  function SupersOf(streams: seq<Stream>): (supers: seq<seq<SuperEntry>>)
    ensures |supers| == |streams|
    ensures forall s :: 0 <= s < |streams| ==> supers[s] == Finished(streams[s]).super
  {
    seq(|streams|, s requires 0 <= s < |streams| => Finished(streams[s]).super)
  }

  function Supers(left: seq<Stream>, base: nat, events: seq<Event>): (supers: seq<seq<SuperEntry>>)
    requires LeftOk(left) && EventsOk(|left|, events)
    ensures |supers| == |left|
  {
    SupersOf(Planned(left, base, events).streams)
  }

  /** Every entry made in this recording is the position of a standard index inside the file. */
  lemma {:induction false} SuperInside(left: seq<Stream>, base: nat, events: seq<Event>, s: nat, q: nat)
    requires Bounded(left, base, events) && s < |left|
    requires |left[s].super| <= q <= |Planned(left, base, events).streams[s].segs|
    ensures var p := Planned(left, base, events);
            q <= |p.streams[s].super| && IndexAt(p.streams[s], q) + IX_BYTES <= p.size
  {
    var p := Planned(left, base, events);
    StreamSize(left, base, events, s);
    var a := IndexSlotOf(left, base, events, s, q);
    EverySlotRight(left, base, events, a);
    AtOrdered(base, p.slots, a, |p.slots|);
    assert p.slots[..|p.slots|] == p.slots;
    PlanSize(left, base, events);
  }

  /** Durations are not negative and not longer than the stream. */
  lemma {:induction false} DurationsInside(st: Stream, was: Stream, len: nat, i: nat)
    requires Resumable(was) && Grown(st, was, len) && i < |Finished(st).super|
    ensures 0 <= Finished(st).super[i].dwDuration <= st.length
  {
    if i < |was.super| {
      assert st.super[i] == was.super[i];
    } else if |st.super| == |was.super| > 0 {
      assert st.super[|was.super| - 1] == was.super[|was.super| - 1];
    }
  }

  lemma {:induction false} HistorySuperFits(left: seq<Stream>, base: nat, events: seq<Event>, s: nat)
    requires Bounded(left, base, events) && s < |left| && SuperRoom(left[s], |Sub(events, s)|)
    ensures SuperFits(Supers(left, base, events)[s])
  {
    var st := Planned(left, base, events).streams[s];
    StreamGrown(left, base, events, s);
    var super := Finished(st).super;
    forall i | 0 <= i < |super| ensures super[i].qwOffset < U32 && 0 <= super[i].dwDuration < U32 {
      DurationsInside(st, left[s], |Sub(events, s)|, i);
      if i >= |left[s].super| {
        SuperInside(left, base, events, s, i);
      } else {
        assert st.super[i] == left[s].super[i];
      }
    }
  }

  /** The super-indexes fit into the places left for them. */
  lemma {:induction false} HistoryFits(left: seq<Stream>, base: nat, events: seq<Event>)
    requires RoomFor(left, base, events) && 24 <= base
    ensures AllSupersFit(Supers(left, base, events))
  {
    forall s | 0 <= s < |left| ensures SuperFits(Supers(left, base, events)[s]) {
      HistorySuperFits(left, base, events, s);
    }
  }

  /** The streams as a recording leaves them. */
  function Leaves(left: seq<Stream>, base: nat, events: seq<Event>): (streams: seq<Stream>)
    requires LeftOk(left) && EventsOk(|left|, events)
    ensures |streams| == |left|
  {
    var p := Planned(left, base, events);
    seq(|left|, s requires 0 <= s < |left| => Finished(p.streams[s]))
  }
}
