/** The two-level index that the AVI multiplexer keeps for each stream: standard indexes of up to
    4000 entries, and a super-index over them. */
module AviIndex {
  import opened Riff

  const STD_ENTRIES: nat := 4000
  /** Bytes of a standard index: a 32-byte head and 4000 entries of eight bytes. */
  const IX_BYTES: nat := 32032
  const SUPER_ENTRIES: nat := 2000
  const DELTAFRAME: nat := 0x8000_0000
  const INT_MAX: nat := 0x7FFF_FFFF
  const MAX_STREAMS: nat := 127

  /** A media sample; a time discontinuity gets an index entry and no chunk. */
  datatype Sample = Sample(data: seq<byte>, sync: bool, dropped: bool)

  predicate SampleOk(s: Sample) { |s.data| < DELTAFRAME }

  /** AVISTDINDEX_ENTRY. */
  datatype Entry = Entry(dwOffset: nat, dwSize: nat)

  /** AVISTDINDEX: entries are relative to qwBaseOffset, which is zero while unset. */
  datatype StdIndex = StdIndex(base: nat, entries: seq<Entry>)

  /** An entry of AVISUPERINDEX. */
  datatype SuperEntry = SuperEntry(qwOffset: nat, dwDuration: int)

  /** AVISTDINDEX_SIZEMASK and AVISTDINDEX_DELTAFRAME in one DWORD. */
  function PackSize(s: Sample): (r: nat)
    requires SampleOk(s)
    ensures r < U32
  {
    |s.data| + (if s.sync then 0 else DELTAFRAME)
  }

  function SizeOfEntry(e: Entry): nat { e.dwSize % DELTAFRAME }

  predicate IsDelta(e: Entry) { e.dwSize / DELTAFRAME % 2 == 1 }

  lemma {:induction false} PackedSizeReads(s: Sample, off: nat)
    requires SampleOk(s)
    ensures SizeOfEntry(Entry(off, PackSize(s))) == |s.data|
    ensures IsDelta(Entry(off, PackSize(s))) == !s.sync
  {
  }

  // ----- One stream -----

  /** What the multiplexer keeps for a stream: where the current standard index goes, that index,
      those already written, and the super-index. */
  datatype Stream = Stream(ixOff: nat, ix: StdIndex, segs: seq<StdIndex>, super: seq<SuperEntry>, length: nat)

  predicate Full(st: Stream) { |st.ix.entries| == STD_ENTRIES }

  /** A full standard index is put away and a new one begun at the end of the file. */
  function Rolled(st: Stream, size: nat): Stream {
    Stream(size, StdIndex(0, []), st.segs + [st.ix], st.super + [SuperEntry(st.ixOff, STD_ENTRIES)], st.length)
  }

  /** A sample noted when the file has the given size. */
  function Noted(st: Stream, size: nat, s: Sample): Stream
    requires SampleOk(s)
  {
    var ix := st.ix;
    var base := if !s.dropped && ix.base == 0 then size else ix.base;
    var off := if s.dropped then 0 else (size + HEADER - base) % U32;
    st.(ix := StdIndex(base, ix.entries + [Entry(off, PackSize(s))]), length := st.length + 1)
  }

  /** The last standard index; its duration is taken as the length less the entry before. */
  function Finished(st: Stream): Stream {
    var n := |st.super|;
    var last := st.length - (if n > 0 then st.super[n - 1].dwDuration else 0);
    st.(segs := st.segs + [st.ix], super := st.super + [SuperEntry(st.ixOff, last)])
  }

  /** The k-th standard index, written or still open, and where it goes. */
  function Seg(st: Stream, k: nat): StdIndex
    requires k <= |st.segs|
  {
    if k < |st.segs| then st.segs[k] else st.ix
  }

  function IndexAt(st: Stream, k: nat): nat
    requires k <= |st.super|
  {
    if k < |st.super| then st.super[k].qwOffset else st.ixOff
  }

  // ----- A stream as a recording finds it -----

  /** What the recordings before have left, which is not cleared. */
  predicate Resumable(st: Stream) {
    && |st.segs| == |st.super| && |st.ix.entries| <= STD_ENTRIES && |st.ix.entries| <= st.length
    && EntriesFit(st.ix.entries)
    && forall i :: 0 <= i < |st.super| ==> st.super[i].qwOffset < U32 && 0 <= st.super[i].dwDuration <= st.length
  }

  /** A stream before the first recording. */
  function Blank(): (st: Stream)
    ensures Resumable(st)
  {
    Stream(0, StdIndex(0, []), [], [], 0)
  }

  /** avi_mux_init_stream gives the standard index a place and resets its base, and that is all. */
  function Reopened(st: Stream, at: nat): Stream {
    st.(ixOff := at, ix := StdIndex(0, st.ix.entries))
  }

  /** What len samples make of a stream. */
  predicate Grown(st: Stream, was: Stream, len: nat) {
    && |was.super| <= |st.segs| == |st.super| && st.super[..|was.super|] == was.super
    && (forall k :: |was.super| <= k < |st.segs| ==> |st.segs[k].entries| == STD_ENTRIES)
    && (forall k :: |was.super| <= k < |st.super| ==> st.super[k].dwDuration == STD_ENTRIES)
    && |st.ix.entries| <= STD_ENTRIES
    && (|st.segs| > |was.super| ==> |st.ix.entries| > 0)
    && STD_ENTRIES * (|st.segs| - |was.super|) + |st.ix.entries| == |was.ix.entries| + len
    && st.length == was.length + len
    && was.ix.entries <= Seg(st, |was.super|).entries
  }

  lemma {:induction false} ReopenedGrown(st: Stream, at: nat)
    requires Resumable(st)
    ensures Grown(Reopened(st, at), st, 0)
  {
  }

  lemma {:induction false} NotedGrown(st: Stream, was: Stream, len: nat, at: nat, size: nat, s: Sample)
    requires Grown(st, was, len) && SampleOk(s)
    ensures Grown(Noted(if Full(st) then Rolled(st, at) else st, size, s), was, len + 1)
  {
    if Full(st) {
      RolledNumber(|st.segs| - |was.super|, |was.ix.entries| + len);
    }
  }

  lemma {:induction false} RolledNumber(n: int, total: int)
    requires STD_ENTRIES * n + STD_ENTRIES == total
    ensures STD_ENTRIES * (n + 1) == total
  {
  }

  /** A stream rolls exactly when the entries it found and those it got are a positive multiple of
      4000. */
  lemma {:induction false} FullExactly(st: Stream, was: Stream, len: nat)
    requires Grown(st, was, len)
    ensures Full(st) <==> Fills(|was.ix.entries| + len)
  {
    var n, total := |st.segs| - |was.super|, |was.ix.entries| + len;
    if |st.ix.entries| < STD_ENTRIES {
      assert total / STD_ENTRIES == n && total % STD_ENTRIES == |st.ix.entries|;
    } else {
      RolledNumber(n, total);
    }
  }

  /** So many entries fill standard indexes. */
  predicate Fills(len: nat) { len > 0 && len % STD_ENTRIES == 0 }

  // ----- Durations -----

  function TotalDuration(super: seq<SuperEntry>): int {
    if super == [] then 0
    else TotalDuration(super[..|super| - 1]) + super[|super| - 1].dwDuration
  }

  lemma {:induction false} FullDurations(super: seq<SuperEntry>)
    requires forall k :: 0 <= k < |super| ==> super[k].dwDuration == STD_ENTRIES
    ensures TotalDuration(super) == STD_ENTRIES * |super|
  {
    if super != [] {
      FullDurations(super[..|super| - 1]);
    }
  }

  lemma {:induction false} NoDuration(super: seq<SuperEntry>)
    requires forall k :: 0 <= k < |super| ==> super[k].dwDuration == 0
    ensures TotalDuration(super) == 0
  {
    if super != [] {
      NoDuration(super[..|super| - 1]);
    }
  }

  lemma {:induction false} DurationsAdd(a: seq<SuperEntry>, b: seq<SuperEntry>)
    ensures TotalDuration(a + b) == TotalDuration(a) + TotalDuration(b)
  {
    if b == [] {
      assert a + b == a;
    } else {
      var n := |b| - 1;
      DurationsAdd(a, b[..n]);
      assert (a + b)[..|a + b| - 1] == a + b[..n];
    }
  }

  /** The durations in the super-index of a finished stream that had no samples before add up to its
      length exactly if it has no more than two standard indexes' worth of samples. */
  lemma {:induction false} FinishedDurations(st: Stream, was: Stream, len: nat)
    requires Resumable(was) && was.length == 0 && Grown(st, was, len)
    ensures TotalDuration(Finished(st).super) == len <==> len <= 2 * STD_ENTRIES
  {
    var old_, new_ := st.super[..|was.super|], st.super[|was.super|..];
    NoDuration(old_);
    FullDurations(new_);
    DurationsAdd(old_, new_);
    assert st.super == old_ + new_;
    assert Finished(st).super[..|st.super|] == st.super;
  }

  // ----- A standard index in the file -----

  function Tens(s: nat): byte
    requires s < MAX_STREAMS
  {
    0x30 + s / 10
  }

  function Units(s: nat): byte
    requires s < MAX_STREAMS
  {
    0x30 + s % 10
  }

  /** The identifiers "00dc", "00db" and "ix00", with the number of the stream. */
  function DataFcc(s: nat, sync: bool): (f: nat)
    requires s < MAX_STREAMS
    ensures f < U32
  {
    Fcc(Tens(s), Units(s), 0x64, if sync then 0x62 else 0x63)
  }

  function IxFcc(s: nat): (f: nat)
    requires s < MAX_STREAMS
    ensures f < U32
  {
    Fcc(0x69, 0x78, Tens(s), Units(s))
  }

  function EntryBytes(entries: seq<Entry>): (b: seq<byte>)
    ensures |b| == 8 * |entries|
  {
    if entries == [] then []
    else
      var e := entries[|entries| - 1];
      EntryBytes(entries[..|entries| - 1]) + (Le(e.dwOffset, 4) + Le(e.dwSize, 4))
  }

  function Zeros(n: nat): (b: seq<byte>)
    ensures |b| == n
  {
    seq(n, _ => 0)
  }

  /** The fields between the chunk header and the entries. */
  function IxHead(s: nat, ix: StdIndex): (b: seq<byte>)
    requires s < MAX_STREAMS
    ensures |b| == 24
  {
    Le(2, 2) + [0, 1] + Le(|ix.entries|, 4) + Le(DataFcc(s, true), 4) + Le(ix.base, 8) + Le(0, 4)
  }

  /** An AVISTDINDEX as a chunk; entries not in use are zero. */
  function IxChunk(s: nat, ix: StdIndex): (c: Chunk)
    requires s < MAX_STREAMS && |ix.entries| <= STD_ENTRIES
    ensures c.Leaf? && |c.data| == IX_BYTES - HEADER && SizeOf(c) == IX_BYTES
  {
    Leaf(IxFcc(s), IxHead(s, ix) + EntryBytes(ix.entries) + Zeros(8 * (STD_ENTRIES - |ix.entries|)))
  }

  function DataChunk(s: nat, smp: Sample): (c: Chunk)
    requires s < MAX_STREAMS
    ensures c.Leaf?
  {
    Leaf(DataFcc(s, smp.sync), smp.data)
  }

  // ----- Identifiers tell chunks apart -----

  lemma {:induction false} FccSame(a: byte, b: byte, c: byte, d: byte, a': byte, b': byte, c': byte, d': byte)
    ensures Fcc(a, b, c, d) == Fcc(a', b', c', d') <==> a == a' && b == b' && c == c' && d == d'
  {
    assert Le(Fcc(a, b, c, d), 4) == [a, b, c, d];
    assert Le(Fcc(a', b', c', d'), 4) == [a', b', c', d'];
    if Fcc(a, b, c, d) == Fcc(a', b', c', d') {
      assert [a, b, c, d] == [a', b', c', d'];
      assert [a, b, c, d][0] == a' && [a, b, c, d][1] == b' && [a, b, c, d][2] == c' && [a, b, c, d][3] == d';
    }
  }

  /** The identifier of a sample's chunk. */
  predicate IsData(fcc: nat, s: nat)
    requires s < MAX_STREAMS
  {
    fcc == DataFcc(s, true) || fcc == DataFcc(s, false)
  }

  lemma {:induction false} DataFccs(s: nat, t: nat, sync: bool)
    requires s < MAX_STREAMS && t < MAX_STREAMS
    ensures IsData(DataFcc(t, sync), s) <==> s == t
    ensures DataFcc(t, sync) == DataFcc(t, true) <==> sync
    ensures !IsData(IxFcc(t), s)
  {
    var last := if sync then 0x62 else 0x63;
    FccSame(Tens(t), Units(t), 0x64, last, Tens(s), Units(s), 0x64, 0x62);
    FccSame(Tens(t), Units(t), 0x64, last, Tens(s), Units(s), 0x64, 0x63);
    FccSame(Tens(t), Units(t), 0x64, last, Tens(t), Units(t), 0x64, 0x62);
    FccSame(0x69, 0x78, Tens(t), Units(t), Tens(s), Units(s), 0x64, 0x62);
    FccSame(0x69, 0x78, Tens(t), Units(t), Tens(s), Units(s), 0x64, 0x63);
  }

  lemma {:induction false} NotLists(s: nat, sync: bool)
    requires s < MAX_STREAMS
    ensures !IsList(DataFcc(s, sync)) && !IsList(IxFcc(s))
  {
    FccNames();
    var last := if sync then 0x62 else 0x63;
    FccSame(Tens(s), Units(s), 0x64, last, 0x4C, 0x49, 0x53, 0x54);
    FccSame(Tens(s), Units(s), 0x64, last, 0x52, 0x49, 0x46, 0x46);
    FccSame(0x69, 0x78, Tens(s), Units(s), 0x4C, 0x49, 0x53, 0x54);
    FccSame(0x69, 0x78, Tens(s), Units(s), 0x52, 0x49, 0x46, 0x46);
  }

  // ----- Reading a standard index -----

  /** Entries with offset and size of 32 bits. */
  predicate EntriesFit(entries: seq<Entry>) {
    forall j :: 0 <= j < |entries| ==> entries[j].dwOffset < U32 && entries[j].dwSize < U32
  }

  function ReadEntry(b: seq<byte>, at: nat): Entry
    requires at + 8 <= |b|
  {
    Entry(Dword(b[at..at + 4]), Dword(b[at + 4..at + 8]))
  }

  lemma {:induction false} EntryReads(entries: seq<Entry>, more: seq<byte>, j: nat)
    requires EntriesFit(entries) && j < |entries|
    ensures ReadEntry(EntryBytes(entries) + more, 8 * j) == entries[j]
  {
    var n := |entries| - 1;
    var e := entries[n];
    var front, off, size := EntryBytes(entries[..n]), Le(e.dwOffset, 4), Le(e.dwSize, 4);
    assert EntryBytes(entries) + more == front + (off + size + more);
    if j < n {
      EntryReads(entries[..n], off + size + more, j);
    } else {
      ThreeParts(front, off, size + more);
      ThreeParts(front + off, size, more);
      assert front + (off + size + more) == front + off + (size + more) == (front + off) + size + more;
      DwordRoundTrip(e.dwOffset);
      DwordRoundTrip(e.dwSize);
    }
  }
}
