/** What a reader finds in a file that the AVI multiplexer has closed: by walking over the movi
    list, and by looking samples up in the indexes. */
module AviRead {
  import opened Riff
  import opened AviOut
  import opened AviIndex
  import opened AviLayout
  import opened AviFile
  import opened AviClose

  // ----- Bytes at a place -----

  lemma {:induction false} SubFile(f: seq<byte>, at: nat, bytes: seq<byte>, a: nat, b: nat)
    requires FileHas(f, at, bytes) && a <= b <= |bytes|
    ensures at + b <= |f| && f[at + a..at + b] == bytes[a..b]
  {
    var x, y := f[at + a..at + b], bytes[a..b];
    forall i | 0 <= i < b - a ensures x[i] == y[i] {
      assert f[at..at + |bytes|][a + i] == f[at + a + i];
    }
  }

  /** A chunk in a file, read at its place. */
  lemma {:induction false} ChunkReads(f: seq<byte>, at: nat, c: Chunk)
    requires c.Leaf? && Good(c) && FileHas(f, at, Print(c))
    ensures at + HEADER + |c.data| <= |f|
    ensures Dword(f[at..at + 4]) == c.fcc && SizeAt(f, at) == |c.data| && FileHas(f, at + HEADER, c.data)
  {
    var bytes := Print(c);
    LeafLayout(c.fcc, c.data, []);
    assert bytes + [] == bytes;
    SubFile(f, at, bytes, 0, 4);
    SubFile(f, at, bytes, 4, 8);
    SubFile(f, at, bytes, HEADER, HEADER + |c.data|);
  }

  // ----- A standard index in the file -----

  datatype Location = Location(offset: nat, size: nat, delta: bool)

  /** Entry n of the standard index at an offset of the file. */
  function ReadIndex(b: seq<byte>, at: nat, n: nat): Option<Location> {
    if at + IX_BYTES > |b| || n >= STD_ENTRIES || n >= Dword(b[at + 12..at + 16]) then None
    else
      var e := ReadEntry(b, at + 32 + 8 * n);
      Some(Location(ReadLe(b[at + 20..at + 28]) + e.dwOffset, SizeOfEntry(e), IsDelta(e)))
  }

  /** What entry n of a standard index says. */
  function Said(ix: StdIndex, n: nat): Location
    requires n < |ix.entries|
  {
    var e := ix.entries[n];
    Location(ix.base + e.dwOffset, SizeOfEntry(e), IsDelta(e))
  }

  /** A DWORDLONG field that holds a position. */
  lemma {:induction false} LongRoundTrip(n: nat)
    requires n < U32
    ensures ReadLe(Le(n, 8)) == n
  {
    Power256Four();
    assert Power256(8) >= Power256(4) by {
      assert Power256(8) == 256 * Power256(7) && Power256(7) == 256 * Power256(6);
      assert Power256(6) == 256 * Power256(5) && Power256(5) == 256 * Power256(4);
    }
    LeRoundTrip(n, 8);
  }

  lemma {:induction false} HeadParts(s: nat, ix: StdIndex)
    requires s < MAX_STREAMS && |ix.entries| < U32 && ix.base < U32
    ensures Dword(IxHead(s, ix)[4..8]) == |ix.entries| && ReadLe(IxHead(s, ix)[12..20]) == ix.base
  {
    var a, count := Le(2, 2) + [0, 1], Le(|ix.entries|, 4);
    var id, base, rest := Le(DataFcc(s, true), 4), Le(ix.base, 8), Le(0, 4);
    assert IxHead(s, ix) == a + count + (id + base + rest);
    ThreeParts(a, count, id + base + rest);
    assert IxHead(s, ix) == (a + count + id) + base + rest;
    ThreeParts(a + count + id, base, rest);
    DwordRoundTrip(|ix.entries|);
    LongRoundTrip(ix.base);
  }

  /** The fields of a standard index as bytes of its chunk. */
  lemma {:induction false} IxParts(s: nat, ix: StdIndex)
    requires s < MAX_STREAMS && |ix.entries| <= STD_ENTRIES
    ensures Good(IxChunk(s, ix)) && |Print(IxChunk(s, ix))| == IX_BYTES
    ensures var b := Print(IxChunk(s, ix));
            && b[8..32] == IxHead(s, ix)
            && b[32..] == EntryBytes(ix.entries) + Zeros(8 * (STD_ENTRIES - |ix.entries|))
  {
    NotLists(s, true);
    var c := IxChunk(s, ix);
    var h, head, rest := Header(c.fcc, |c.data|), IxHead(s, ix),
        EntryBytes(ix.entries) + Zeros(8 * (STD_ENTRIES - |ix.entries|));
    assert c.data == head + rest;
    assert Print(c) == h + c.data + [];
    assert Print(c) == h + head + rest;
    ThreeParts(h, head, rest);
  }

  /** Looking an entry up in the file gives the entry. */
  lemma {:induction false} IndexReads(b: seq<byte>, at: nat, s: nat, ix: StdIndex, n: nat)
    requires s < MAX_STREAMS && |ix.entries| <= STD_ENTRIES && EntriesFit(ix.entries) && ix.base < U32
    requires Good(IxChunk(s, ix)) && FileHas(b, at, Print(IxChunk(s, ix))) && n < |ix.entries|
    ensures ReadIndex(b, at, n) == Some(Said(ix, n))
  {
    IndexHeadReads(b, at, s, ix);
    IndexEntryReads(b, at, s, ix, n);
  }

  lemma {:induction false} IndexHeadReads(b: seq<byte>, at: nat, s: nat, ix: StdIndex)
    requires s < MAX_STREAMS && |ix.entries| <= STD_ENTRIES && ix.base < U32
    requires Good(IxChunk(s, ix)) && FileHas(b, at, Print(IxChunk(s, ix)))
    ensures at + IX_BYTES <= |b|
    ensures Dword(b[at + 12..at + 16]) == |ix.entries| && ReadLe(b[at + 20..at + 28]) == ix.base
  {
    IxInFile(b, at, s, ix);
    HeadParts(s, ix);
    SubFile(b, at + 8, IxHead(s, ix), 4, 8);
    SubFile(b, at + 8, IxHead(s, ix), 12, 20);
  }

  lemma {:induction false} IndexEntryReads(b: seq<byte>, at: nat, s: nat, ix: StdIndex, n: nat)
    requires s < MAX_STREAMS && |ix.entries| <= STD_ENTRIES && EntriesFit(ix.entries) && n < |ix.entries|
    requires Good(IxChunk(s, ix)) && FileHas(b, at, Print(IxChunk(s, ix)))
    ensures at + IX_BYTES <= |b| && ReadEntry(b, at + 32 + 8 * n) == ix.entries[n]
  {
    IxInFile(b, at, s, ix);
    EntryFound(b, at + 32, ix.entries, Zeros(8 * (STD_ENTRIES - |ix.entries|)), n);
  }

  lemma {:induction false} EntryFound(b: seq<byte>, at: nat, es: seq<Entry>, rest: seq<byte>, n: nat)
    requires EntriesFit(es) && n < |es| && FileHas(b, at, EntryBytes(es) + rest)
    ensures at + 8 * n + 8 <= |b| && ReadEntry(b, at + 8 * n) == es[n]
  {
    EntryReads(es, rest, n);
    EntryInFile(b, at, EntryBytes(es) + rest, 8 * n);
  }

  lemma {:induction false} IxInFile(b: seq<byte>, at: nat, s: nat, ix: StdIndex)
    requires s < MAX_STREAMS && |ix.entries| <= STD_ENTRIES
    requires Good(IxChunk(s, ix)) && FileHas(b, at, Print(IxChunk(s, ix)))
    ensures at + IX_BYTES <= |b| && FileHas(b, at + 8, IxHead(s, ix))
    ensures FileHas(b, at + 32, EntryBytes(ix.entries) + Zeros(8 * (STD_ENTRIES - |ix.entries|)))
  {
    IxParts(s, ix);
    SubFile(b, at, Print(IxChunk(s, ix)), 8, 32);
    SubFile(b, at, Print(IxChunk(s, ix)), 32, IX_BYTES);
  }

  lemma {:induction false} EntryInFile(f: seq<byte>, at: nat, bytes: seq<byte>, n: nat)
    requires FileHas(f, at, bytes) && n + 8 <= |bytes|
    ensures ReadEntry(f, at + n) == ReadEntry(bytes, n)
  {
    SubFile(f, at, bytes, n, n + 4);
    SubFile(f, at, bytes, n + 4, n + 8);
  }

  // ----- Looking a sample up -----

  /** A reader goes along the super-index, counting durations, and then into one index. */
  function Find(b: seq<byte>, super: seq<SuperEntry>, n: int): Option<Location>
    decreases |super|
  {
    if super == [] || n < 0 then None
    else if n < super[0].dwDuration then ReadIndex(b, super[0].qwOffset, n)
    else Find(b, super[1..], n - super[0].dwDuration)
  }

  lemma {:induction false} FindGoes(b: seq<byte>, super: seq<SuperEntry>, q: nat, j: nat)
    requires q < |super| && j < super[q].dwDuration
    requires forall i :: 0 <= i < q ==> super[i].dwDuration == STD_ENTRIES
    ensures Find(b, super, STD_ENTRIES * q + j) == ReadIndex(b, super[q].qwOffset, j)
  {
    if q > 0 {
      FindGoes(b, super[1..], q - 1, j);
    }
  }

  /** Entries of no duration are passed over. */
  lemma {:induction false} FindSkips(b: seq<byte>, super: seq<SuperEntry>, q: nat, n: nat)
    requires q <= |super| && forall i :: 0 <= i < q ==> super[i].dwDuration == 0
    ensures Find(b, super, n) == Find(b, super[q..], n)
  {
    if q > 0 {
      FindSkips(b, super[1..], q - 1, n);
      assert super[1..][q - 1..] == super[q..];
    }
  }

  /** The super-index of a finished stream that had no samples before leads to the right standard
      index. */
  lemma {:induction false} FindIndex(b: seq<byte>, st: Stream, was: Stream, len: nat, q: nat, j: nat)
    requires Resumable(was) && was.length == 0 && Grown(st, was, len)
    requires |was.super| <= q <= |st.segs| && j < |Seg(st, q).entries|
    ensures Find(b, Finished(st).super, STD_ENTRIES * (q - |was.super|) + j) == ReadIndex(b, IndexAt(st, q), j)
  {
    var super, m := Finished(st).super, |was.super|;
    OldDurations(st, was, len);
    NewDurations(st, was, len, q, j);
    FindPast(b, super, m, q, j);
  }

  lemma {:induction false} FindPast(b: seq<byte>, super: seq<SuperEntry>, m: nat, q: nat, j: nat)
    requires m <= q < |super| && j < super[q].dwDuration
    requires forall i :: 0 <= i < m ==> super[i].dwDuration == 0
    requires forall i :: m <= i < q ==> super[i].dwDuration == STD_ENTRIES
    ensures Find(b, super, STD_ENTRIES * (q - m) + j) == ReadIndex(b, super[q].qwOffset, j)
  {
    FindSkips(b, super, m, STD_ENTRIES * (q - m) + j);
    FindGoes(b, super[m..], q - m, j);
  }

  lemma {:induction false} OldDurations(st: Stream, was: Stream, len: nat)
    requires Resumable(was) && was.length == 0 && Grown(st, was, len)
    ensures |Finished(st).super| == |st.segs| + 1 > |was.super|
    ensures forall i :: 0 <= i < |was.super| ==> Finished(st).super[i].dwDuration == 0
  {
    forall i | 0 <= i < |was.super| ensures Finished(st).super[i].dwDuration == 0 {
      assert st.super[..|was.super|][i] == was.super[i];
    }
  }

  lemma {:induction false} NewDurations(st: Stream, was: Stream, len: nat, q: nat, j: nat)
    requires Resumable(was) && was.length == 0 && Grown(st, was, len)
    requires |was.super| <= q <= |st.segs| && j < |Seg(st, q).entries|
    ensures |Finished(st).super| == |st.segs| + 1
    ensures var super := Finished(st).super;
            && (forall i :: |was.super| <= i < q ==> super[i].dwDuration == STD_ENTRIES)
            && j < super[q].dwDuration && super[q].qwOffset == IndexAt(st, q)
  {
    if q == |st.super| {
      OldDurations(st, was, len);
    }
  }

  /** The standard index and the entry of a sample number. */
  lemma {:induction false} Divided(st: Stream, was: Stream, len: nat, n: nat) returns (q: nat, j: nat)
    requires Grown(st, was, len) && n < |was.ix.entries| + len
    ensures |was.super| <= q <= |st.segs| && j < |Seg(st, q).entries| && STD_ENTRIES * (q - |was.super|) + j == n
  {
    var last := STD_ENTRIES * (|st.segs| - |was.super|);
    if n < last {
      q := |was.super| + n / STD_ENTRIES;
      j := n % STD_ENTRIES;
      assert q < |st.segs|;
    } else {
      q := |st.segs|;
      j := n - last;
    }
  }

  /** Entries found from before fit, and so do those made in this recording. */
  lemma {:induction false} EntryFits(left: seq<Stream>, base: nat, events: seq<Event>, s: nat, q: nat, j: nat)
    requires LeftOk(left) && EventsOk(|left|, events) && s < |left|
    requires |left[s].super| <= q <= |Planned(left, base, events).streams[s].segs|
    requires j < |Seg(Planned(left, base, events).streams[s], q).entries|
    ensures var e := Seg(Planned(left, base, events).streams[s], q).entries[j]; e.dwOffset < U32 && e.dwSize < U32
  {
    if STD_ENTRIES * (q - |left[s].super|) + j >= |left[s].ix.entries| {
      EveryEntrySays(left, base, events, s, q, j);
    } else {
      StreamGrown(left, base, events, s);
      assert q == |left[s].super|;
    }
  }

  lemma {:induction false} EntriesAllFit(left: seq<Stream>, base: nat, events: seq<Event>, s: nat, q: nat)
    requires LeftOk(left) && EventsOk(|left|, events) && s < |left|
    requires |left[s].super| <= q <= |Planned(left, base, events).streams[s].segs|
    ensures EntriesFit(Seg(Planned(left, base, events).streams[s], q).entries)
  {
    var entries := Seg(Planned(left, base, events).streams[s], q).entries;
    forall j | 0 <= j < |entries| ensures entries[j].dwOffset < U32 && entries[j].dwSize < U32 {
      EntryFits(left, base, events, s, q, j);
    }
  }

  lemma {:induction false} SegBases(left: seq<Stream>, base: nat, events: seq<Event>, s: nat, q: nat)
    requires LeftOk(left) && EventsOk(|left|, events) && s < |left|
    requires |left[s].super| <= q <= |Planned(left, base, events).streams[s].segs|
    ensures var p := Planned(left, base, events); Seg(p.streams[s], q).base <= p.size
  {
    BasesInside(left, base, events, s);
    if q < |Planned(left, base, events).streams[s].segs| {
      if events == [] {
        ReopenedGrown(left[s], base + IX_BYTES * s);
      } else {
        var m := |events| - 1;
        var before := Planned(left, base, events[..m]);
        SegStays(before, events[m], s, q);
        SegBases(left, base, events[..m], s, q);
      }
    }
  }

  lemma {:induction false} SegStays(p: Plan, e: Event, s: nat, q: nat)
    requires CanTake(p, e) && s < |p.streams| && q < |Take(p, e).streams[s].segs|
    ensures q <= |p.streams[s].segs| && Take(p, e).streams[s].segs[q].base == Seg(p.streams[s], q).base
    ensures p.size <= Take(p, e).size
  {
    TakeGrows(p, e);
  }

  // ----- A closed file -----

  /** A history whose positions are ints. */
  ghost predicate Bounded(left: seq<Stream>, base: nat, events: seq<Event>) {
    LeftOk(left) && EventsOk(|left|, events) && 0 < base && Planned(left, base, events).size <= INT_MAX
  }

  /** Every standard index is where the super-index says. */
  lemma {:induction false} IndexStands(left: seq<Stream>, base: nat, events: seq<Event>, f: seq<byte>, s: nat, q: nat)
    requires Bounded(left, base, events) && s < |left|
    requires |left[s].super| <= q <= |Planned(left, base, events).streams[s].segs|
    requires Laid(Planned(left, base, events), base) && AllStand(Planned(left, base, events), base, f)
    ensures var st := Planned(left, base, events).streams[s];
            && q <= |st.super| && |Seg(st, q).entries| <= STD_ENTRIES && Good(IxChunk(s, Seg(st, q)))
            && FileHas(f, IndexAt(st, q), Print(IxChunk(s, Seg(st, q))))
  {
    StreamSize(left, base, events, s);
    var i := IndexSlotOf(left, base, events, s, q);
    EverySlotRight(left, base, events, i);
    assert Stands(Planned(left, base, events), base, f, i);
  }

  /** Looked up through super-index and standard indexes, every sample number of a stream that had no
      samples before gives what the stream's entry for it says. */
  lemma {:induction false} IndexFinds(left: seq<Stream>, base: nat, events: seq<Event>, f: seq<byte>, s: nat, q: nat,
                                      j: nat)
    requires Bounded(left, base, events) && s < |left| && left[s].length == 0
    requires Laid(Planned(left, base, events), base) && AllStand(Planned(left, base, events), base, f)
    requires var st := Planned(left, base, events).streams[s];
             |left[s].super| <= q <= |st.segs| && j < |Seg(st, q).entries|
    ensures var st := Planned(left, base, events).streams[s];
            Find(f, Finished(st).super, STD_ENTRIES * (q - |left[s].super|) + j) == Some(Said(Seg(st, q), j))
  {
    StreamGrown(left, base, events, s);
    FindIndex(f, Planned(left, base, events).streams[s], left[s], |Sub(events, s)|, q, j);
    IndexSays(left, base, events, f, s, q, j);
  }

  lemma {:induction false} IndexSays(left: seq<Stream>, base: nat, events: seq<Event>, f: seq<byte>, s: nat, q: nat,
                                     j: nat)
    requires Bounded(left, base, events) && s < |left|
    requires Laid(Planned(left, base, events), base) && AllStand(Planned(left, base, events), base, f)
    requires var st := Planned(left, base, events).streams[s];
             |left[s].super| <= q <= |st.segs| && j < |Seg(st, q).entries|
    ensures var st := Planned(left, base, events).streams[s];
            q <= |st.super| && ReadIndex(f, IndexAt(st, q), j) == Some(Said(Seg(st, q), j))
  {
    var st := Planned(left, base, events).streams[s];
    IndexStands(left, base, events, f, s, q);
    EntriesAllFit(left, base, events, s, q);
    SegBases(left, base, events, s, q);
    IndexReads(f, IndexAt(st, q), s, Seg(st, q), j);
  }

  // ----- Walking -----

  /** The identifiers of the chunks at some offsets. */
  function Ids(b: seq<byte>, at: seq<nat>): (ids: seq<nat>)
    requires forall i :: 0 <= i < |at| ==> at[i] + 4 <= |b|
    ensures |ids| == |at| && forall i :: 0 <= i < |at| ==> ids[i] == Dword(b[at[i]..at[i] + 4])
  {
    seq(|at|, i requires 0 <= i < |at| => Dword(b[at[i]..at[i] + 4]))
  }

  /** How many of some chunks are samples of stream s. */
  function Met(ids: seq<nat>, s: nat): nat
    requires s < MAX_STREAMS
  {
    if ids == [] then 0
    else Met(ids[..|ids| - 1], s) + (if IsData(ids[|ids| - 1], s) then 1 else 0)
  }

  lemma {:induction false} MetCount(ids: seq<nat>, slots: seq<Slot>, s: nat)
    requires |ids| == |slots| && s < MAX_STREAMS
    requires forall i :: 0 <= i < |ids| ==> (IsData(ids[i], s) <==> slots[i].DataSlot? && slots[i].s == s)
    ensures Met(ids, s) == DataSlots(slots, s)
  {
    if ids != [] {
      MetCount(ids[..|ids| - 1], slots[..|ids| - 1], s);
    }
  }

  lemma {:induction false} StartsNth(cs: seq<Chunk>, p: nat, i: nat)
    requires i < |cs|
    ensures Starts(cs, p)[i] == p + Size(cs[..i])
    decreases i
  {
    if i > 0 {
      StartsNth(cs[1..], p + SizeOf(cs[0]), i - 1);
      assert cs[..i][1..] == cs[1..][..i - 1];
    }
  }

  lemma {:induction false} SizeSnoc(cs: seq<Chunk>, c: Chunk)
    ensures Size(cs + [c]) == Size(cs) + SizeOf(c)
    decreases |cs|
  {
    if cs == [] {
      assert cs + [c] == [c] && [c][1..] == [];
    } else {
      SizeSnoc(cs[1..], c);
      assert (cs + [c])[1..] == cs[1..] + [c];
    }
  }

  lemma {:induction false} SizesAgree(cs: seq<Chunk>, slots: seq<Slot>)
    requires |cs| == |slots| && forall i :: 0 <= i < |cs| ==> SizeOf(cs[i]) == SlotSize(slots[i])
    ensures Size(cs) == Total(slots)
  {
    if cs != [] {
      var n := |cs| - 1;
      SizesAgree(cs[..n], slots[..n]);
      SizeSnoc(cs[..n], cs[n]);
      assert cs[..n] + [cs[n]] == cs;
    }
  }

  /** The chunks begin at their places. */
  lemma {:induction false} StartsAt(p: Plan, base: nat, i: nat)
    requires AllFit(p) && i < |p.slots|
    ensures Starts(Chunks(p, |p.slots|), base)[i] == Offset(base, p.slots, i)
  {
    var cs := Chunks(p, |p.slots|);
    StartsNth(cs, base, i);
    SizesAgree(cs[..i], p.slots[..i]);
  }

  /** Two headers with something between them and something after. */
  lemma {:induction false} TwoHeaders(fcc: nat, cb: nat, a: seq<byte>, fcc': nat, cb': nat, b: seq<byte>)
    requires fcc < U32 && cb < U32 && fcc' < U32 && cb' < U32
    ensures var f := Header(fcc, cb) + a + Header(fcc', cb') + b;
            var at := HEADER + |a|;
            && Dword(f[0..4]) == fcc && SizeAt(f, 0) == cb
            && Dword(f[at..at + 4]) == fcc' && SizeAt(f, at) == cb'
  {
    var h, h' := Header(fcc, cb), Header(fcc', cb');
    HeaderAt([], fcc, cb, a + h' + b);
    assert [] + h + (a + h' + b) == h + a + h' + b;
    HeaderAt(h + a, fcc', cb', b);
  }

  lemma {:induction false} HeadIsHeaders(base: nat, end: nat, size: nat, mid: seq<byte>, rest: seq<byte>)
    requires |mid| + 24 == base <= end <= size <= INT_MAX && 16 <= size
    ensures Head(base, end, size, mid) + rest
            == Header(FCC_RIFF, size - 16) + (Le(FCC_AVI, 4) + mid)
               + Header(FCC_LIST, end - base + 4) + (Le(FCC_MOVI, 4) + rest)
  {
    var riff, avi := Header(FCC_RIFF, size - 16), Le(FCC_AVI, 4);
    var movi, m := Header(FCC_LIST, end - base + 4), Le(FCC_MOVI, 4);
    Reassociate(riff, avi, mid, movi, m, rest);
  }

  lemma {:induction false} Reassociate(a: seq<byte>, b: seq<byte>, c: seq<byte>,
                                       d: seq<byte>, e: seq<byte>, f: seq<byte>)
    ensures a + b + c + d + e + f == a + (b + c) + d + (e + f)
  {
    assert a + b + c == a + (b + c);
  }

  lemma {:induction false} HeadersSay(base: nat, end: nat, size: nat, mid: seq<byte>, rest: seq<byte>)
    requires |mid| + 24 == base <= end <= size <= INT_MAX
    ensures var f := Head(base, end, size, mid) + rest;
            && Dword(f[base - 12..base - 8]) == FCC_LIST && SizeAt(f, base - 12) == end - base + 4
            && Dword(f[0..4]) == FCC_RIFF && SizeAt(f, 0) == size - 16
  {
    HeadIsHeaders(base, end, size, mid, rest);
    TwoHeaders(FCC_RIFF, size - 16, Le(FCC_AVI, 4) + mid, FCC_LIST, end - base + 4, Le(FCC_MOVI, 4) + rest);
  }

  /** The movi list's own header leads from it to the old index; the RIFF chunk's leads to the eight
      zeros, exactly if the movi list begins at an even offset. */
  lemma {:induction false} HeadersLead(f: seq<byte>, base: nat, end: nat, m: nat, h: nat)
    requires 24 <= base <= |f| <= INT_MAX && end == base + 2 * m && |f| == end + 2 * h
    requires SizeAt(f, base - 12) == end - base + 4 && SizeAt(f, 0) == |f| - 16
    ensures Next(f, base - 12) == end && (Next(f, 0) == |f| - 8 <==> base % 2 == 0)
  {
    RoundSmall(|f| - 16);
    ShiftedParity(base - 24, m + h + 4);
    ShiftedParity(base - 24, 12);
    ShiftedParity(0, m);
    RoundEven(2 * m);
  }

  /** Places are an even number of bytes. */
  lemma {:induction false} TotalHalf(slots: seq<Slot>) returns (m: nat)
    ensures Total(slots) == 2 * m
  {
    m := 0;
    if slots != [] {
      var half := SlotHalf(slots[|slots| - 1]);
      var front := TotalHalf(slots[..|slots| - 1]);
      m := front + half;
    }
  }

  lemma {:induction false} SlotHalf(slot: Slot) returns (m: nat)
    ensures SlotSize(slot) == 2 * m
  {
    m := if slot.DataSlot? then HEADER / 2 + (|slot.sample.data| + 1) / 2 else IX_BYTES / 2;
  }

  lemma {:induction false} HeaderAt(before: seq<byte>, fcc: nat, cb: nat, more: seq<byte>)
    requires fcc < U32 && cb < U32
    ensures var f := before + Header(fcc, cb) + more;
            Dword(f[|before|..|before| + 4]) == fcc && SizeAt(f, |before|) == cb
  {
    var f := before + Header(fcc, cb) + more;
    HeaderRead(fcc, cb, more);
    var rest := Header(fcc, cb) + more;
    assert f == before + rest;
    assert f[|before|..|before| + 4] == rest[..4] && f[|before| + 4..|before| + 8] == rest[4..8];
  }

  /** What the headers of a file say. */
  ghost predicate Headed(f: seq<byte>, base: nat, end: nat)
    requires 24 <= base <= end <= |f|
  {
    && Dword(f[base - 12..base - 8]) == FCC_LIST && Next(f, base - 12) == end
    && Dword(f[0..4]) == FCC_RIFF && (Next(f, 0) == |f| - 8 <==> base % 2 == 0)
  }

  lemma {:induction false} HeadedBy(f: seq<byte>, base: nat, end: nat, size: nat, mid: seq<byte>, m: nat, h: nat)
    requires |mid| + 24 == base <= end <= size == |f| <= INT_MAX && end == base + 2 * m && size == end + 2 * h
    requires FileHas(f, 0, Head(base, end, size, mid))
    ensures Headed(f, base, end)
  {
    assert f == f[..base] + f[base..];
    HeadersSay(base, end, size, mid, f[base..]);
    HeadersLead(f, base, end, m, h);
  }

  lemma {:induction false} BodyWalk(p: Plan, base: nat, f: seq<byte>)
    requires Laid(p, base) && AllStand(p, base, f)
    ensures Walk(f, base, p.size) == Starts(Chunks(p, |p.slots|), base)
  {
    var n := |p.slots|;
    Stretch(p, base, f, n);
    BodySize(p, base);
    BodyIsPrinted(p, n);
    WalkOver(f, base, p.size, Chunks(p, n), Body(p, n));
  }

  lemma {:induction false} WalkOver(f: seq<byte>, base: nat, end: nat, cs: seq<Chunk>, body: seq<byte>)
    requires GoodAll(cs) && PrintAll(cs) == body && FileHas(f, base, body) && end == base + |body|
    ensures Walk(f, base, end) == Starts(cs, base)
  {
    WalkVisits(f, base, end, cs);
  }

  /** A walk over a stretch of chunks visits their places, in order. */
  lemma {:induction false} WalkOfBody(p: Plan, base: nat, f: seq<byte>)
    requires Laid(p, base) && AllStand(p, base, f)
    ensures |Walk(f, base, p.size)| == |p.slots|
    ensures forall i :: 0 <= i < |p.slots| ==> Walk(f, base, p.size)[i] == Offset(base, p.slots, i)
  {
    BodyWalk(p, base, f);
    forall i | 0 <= i < |p.slots| ensures Walk(f, base, p.size)[i] == Offset(base, p.slots, i) {
      StartsAt(p, base, i);
    }
  }

  lemma {:induction false} PlaceReads(p: Plan, base: nat, f: seq<byte>, i: nat, s: nat)
    requires i < |p.slots| && SlotFits(p, p.slots[i]) && Stands(p, base, f, i) && s < MAX_STREAMS
    ensures var at, slot := Offset(base, p.slots, i), p.slots[i];
            && at + HEADER <= |f|
            && (IsData(Dword(f[at..at + 4]), s) <==> slot.DataSlot? && slot.s == s)
            && (slot.DataSlot? ==>
                  && Dword(f[at..at + 4]) == DataFcc(slot.s, slot.sample.sync)
                  && SizeAt(f, at) == |slot.sample.data|
                  && FileHas(f, at + HEADER, slot.sample.data))
  {
    var slot := p.slots[i];
    ChunkReads(f, Offset(base, p.slots, i), SlotChunk(p, slot));
    DataFccs(s, slot.s, if slot.DataSlot? then slot.sample.sync else true);
  }

  // ----- Both find the same -----

  /** The i-th of the chunks at some offsets is the m-th sample chunk of stream s, is where the
      indexes say, and is this sample. */
  ghost predicate Meets(f: seq<byte>, at: seq<nat>, s: nat, m: nat, i: nat, loc: Location, smp: Sample)
    requires s < MAX_STREAMS && forall q :: 0 <= q < |at| ==> at[q] + HEADER <= |f|
  {
    && i < |at| && Met(Ids(f, at)[..i], s) == m && IsData(Ids(f, at)[i], s)
    && at[i] + HEADER == loc.offset && SizeAt(f, at[i]) == loc.size == |smp.data|
    && FileHas(f, loc.offset, smp.data)
    && (Ids(f, at)[i] == DataFcc(s, true) <==> !loc.delta) && (smp.sync <==> !loc.delta)
  }

  /** The same of the chunks that a walk from the head of the movi list visits. */
  ghost predicate Agrees(f: seq<byte>, base: nat, s: nat, m: nat, i: nat, loc: Location, smp: Sample)
    requires s < MAX_STREAMS
  {
    && 24 <= base && base - 4 <= |f| && Next(f, base - 12) <= |f|
    && var at := Walk(f, base, Next(f, base - 12));
       (forall q :: 0 <= q < |at| ==> at[q] + HEADER <= |f|) && Meets(f, at, s, m, i, loc, smp)
  }

  /** Looking sample n of stream s up. */
  function Lookup(left: seq<Stream>, base: nat, events: seq<Event>, f: seq<byte>, s: nat, n: nat): Option<Location>
    requires LeftOk(left) && EventsOk(|left|, events) && s < |left|
  {
    Find(f, Finished(Planned(left, base, events).streams[s]).super, n)
  }

  /** Every place holds its chunk, and the headers lead to the movi list and over it. */
  ghost predicate Sealed(left: seq<Stream>, base: nat, events: seq<Event>, f: seq<byte>) {
    && Bounded(left, base, events) && 24 <= base && Laid(Planned(left, base, events), base)
    && AllStand(Planned(left, base, events), base, f)
    && base <= Planned(left, base, events).size && Headed(f, base, Planned(left, base, events).size)
  }

  /** Every sample number, discontinuities included, leads to the size and the key-frame flag of its
      sample. */
  lemma {:induction false} SampleFound(left: seq<Stream>, base: nat, events: seq<Event>, f: seq<byte>, s: nat, n: nat)
    requires Sealed(left, base, events, f) && s < |left| && left[s].length == 0 && n < |Sub(events, s)|
    ensures var r, smp := Lookup(left, base, events, f, s, n), Sub(events, s)[n];
            r.Some? && r.value.size == |smp.data| && r.value.delta == !smp.sync
  {
    var q, j := EntryOf(left, base, events, s, n);
    IndexFinds(left, base, events, f, s, q, j);
  }

  lemma {:induction false} EntryOf(left: seq<Stream>, base: nat, events: seq<Event>, s: nat, n: nat)
      returns (q: nat, j: nat)
    requires LeftOk(left) && EventsOk(|left|, events) && s < |left| && left[s].length == 0 && n < |Sub(events, s)|
    ensures var st := Planned(left, base, events).streams[s];
            && |left[s].super| <= q <= |st.segs| && j < |Seg(st, q).entries|
            && STD_ENTRIES * (q - |left[s].super|) + j == n && EntrySays(Seg(st, q).entries[j], Sub(events, s)[n])
  {
    StreamGrown(left, base, events, s);
    q, j := Divided(Planned(left, base, events).streams[s], left[s], |Sub(events, s)|, n);
    EveryEntrySays(left, base, events, s, q, j);
  }

  /** And, if it has data, to the place of its chunk. */
  lemma {:induction false} SamplePlace(left: seq<Stream>, base: nat, events: seq<Event>, f: seq<byte>, s: nat, n: nat)
    requires Sealed(left, base, events, f) && s < |left| && left[s].length == 0
    requires n < |Sub(events, s)| && !Sub(events, s)[n].dropped
    ensures var r, p := Lookup(left, base, events, f, s, n), Planned(left, base, events);
            r.Some? && r.value.offset == Offset(base, p.slots, SlotOf(left, base, events, s, n)) + HEADER
  {
    var k, j := PlaceSays(left, base, events, s, n);
    IndexFinds(left, base, events, f, s, k, j);
  }

  lemma {:induction false} PlaceSays(left: seq<Stream>, base: nat, events: seq<Event>, s: nat, n: nat)
      returns (k: nat, j: nat)
    requires Bounded(left, base, events) && 0 < base && s < |left| && left[s].length == 0
    requires n < |Sub(events, s)| && !Sub(events, s)[n].dropped
    ensures var p := Planned(left, base, events);
            var st := p.streams[s];
            && |left[s].super| <= k <= |st.segs| && j < |Seg(st, k).entries|
            && STD_ENTRIES * (k - |left[s].super|) + j == n
            && Said(Seg(st, k), j).offset == Offset(base, p.slots, SlotOf(left, base, events, s, n)) + HEADER
  {
    var p, i := Planned(left, base, events), SlotOf(left, base, events, s, n);
    SlotOfRight(left, base, events, s, n);
    EverySlotRight(left, base, events, i);
    k, j := p.slots[i].k, p.slots[i].j;
  }

  lemma {:induction false} WalkIds(p: Plan, base: nat, f: seq<byte>, at: seq<nat>, s: nat, n: nat)
    requires Laid(p, base) && AllStand(p, base, f) && s < MAX_STREAMS && n <= |at| == |p.slots|
    requires forall i :: 0 <= i < |at| ==> at[i] == Offset(base, p.slots, i)
    ensures forall i :: 0 <= i < |at| ==> at[i] + HEADER <= |f|
    ensures Met(Ids(f, at)[..n], s) == DataSlots(p.slots[..n], s)
  {
    forall i | 0 <= i < |at|
      ensures at[i] + HEADER <= |f|
      ensures IsData(Dword(f[at[i]..at[i] + 4]), s) <==> p.slots[i].DataSlot? && p.slots[i].s == s
    {
      assert Stands(p, base, f, i);
      PlaceReads(p, base, f, i, s);
    }
    MetCount(Ids(f, at)[..n], p.slots[..n], s);
  }

  /** What the walk meets at the place of a sample. */
  lemma {:induction false} SampleMet(p: Plan, base: nat, f: seq<byte>, at: seq<nat>, s: nat, i: nat, loc: Location)
    requires Laid(p, base) && AllStand(p, base, f) && |at| == |p.slots|
    requires forall i :: 0 <= i < |at| ==> at[i] == Offset(base, p.slots, i)
    requires i < |p.slots| && p.slots[i].DataSlot? && p.slots[i].s == s && s < MAX_STREAMS
    requires loc == Location(Offset(base, p.slots, i) + HEADER, |p.slots[i].sample.data|, !p.slots[i].sample.sync)
    ensures forall q :: 0 <= q < |at| ==> at[q] + HEADER <= |f|
    ensures Meets(f, at, s, DataSlots(p.slots[..i], s), i, loc, p.slots[i].sample)
  {
    WalkIds(p, base, f, at, s, i);
    assert Stands(p, base, f, i);
    PlaceReads(p, base, f, i, s);
    DataFccs(s, s, p.slots[i].sample.sync);
  }

  lemma {:induction false} SampleAgrees(p: Plan, base: nat, f: seq<byte>, s: nat, i: nat, loc: Location)
    requires Laid(p, base) && AllStand(p, base, f) && 24 <= base <= p.size && Headed(f, base, p.size)
    requires i < |p.slots| && p.slots[i].DataSlot? && p.slots[i].s == s && s < MAX_STREAMS
    requires loc == Location(Offset(base, p.slots, i) + HEADER, |p.slots[i].sample.data|, !p.slots[i].sample.sync)
    ensures Agrees(f, base, s, DataSlots(p.slots[..i], s), i, loc, p.slots[i].sample)
  {
    WalkOfBody(p, base, f);
    SampleMet(p, base, f, Walk(f, base, p.size), s, i, loc);
  }

  /** What the indexes say about the n-th sample of a stream is what a walk over the movi list finds,
      which meets it after as many chunks of that stream as there were samples with data before. */
  lemma {:induction false} SealedAgrees(left: seq<Stream>, base: nat, events: seq<Event>, f: seq<byte>, s: nat, n: nat)
    requires Sealed(left, base, events, f) && s < |left| && left[s].length == 0
    requires n < |Sub(events, s)| && !Sub(events, s)[n].dropped
    ensures Lookup(left, base, events, f, s, n).Some?
    ensures Agrees(f, base, s, Rank(Sub(events, s)[..n]), SlotOf(left, base, events, s, n),
                   Lookup(left, base, events, f, s, n).value, Sub(events, s)[n])
  {
    SampleFound(left, base, events, f, s, n);
    SamplePlace(left, base, events, f, s, n);
    SlotOfRight(left, base, events, s, n);
    SampleAgrees(Planned(left, base, events), base, f, s, SlotOf(left, base, events, s, n),
                 Lookup(left, base, events, f, s, n).value);
  }

  /** And the walk meets no other chunks: as many of each stream as it has samples with data. */
  lemma {:induction false} WalkMeetsAll(left: seq<Stream>, base: nat, events: seq<Event>, f: seq<byte>, s: nat)
    requires Sealed(left, base, events, f) && s < |left|
    ensures var at := Walk(f, base, Next(f, base - 12));
            && (forall q :: 0 <= q < |at| ==> at[q] + HEADER <= |f|)
            && Met(Ids(f, at), s) == Rank(Sub(events, s))
  {
    var p := Planned(left, base, events);
    WalkOfBody(p, base, f);
    var at := Walk(f, base, p.size);
    WalkIds(p, base, f, at, s, |at|);
    assert Ids(f, at)[..|at|] == Ids(f, at) && p.slots[..|at|] == p.slots;
    CountAll(left, base, events, s);
  }

  // ----- The multiplexer's file -----

  lemma {:induction false} HeadedByShut(p: Plan, o: Output, base: nat, mid: seq<byte>, tail: seq<byte>, size: nat,
                                        m: nat, h: nat)
    requires Laid(p, base) && Filled(p, o, base) && o.pos == p.size && |tail| == 2 * h > 0
    requires |mid| + 24 == base && p.size == base + 2 * m && size == p.size + |tail| <= INT_MAX
    ensures var f := Shut(p, o, Head(base, p.size, size, mid), tail).file;
            AllStand(p, base, f) && Headed(f, base, p.size)
  {
    var head := Head(base, p.size, size, mid);
    ShutLength(p, o, head, tail);
    ShutStands(p, o, head, tail);
    OverlayHas(WriteIndexes(WriteAt(o, o.pos, tail), p, |p.streams|).file, 0, head);
    HeadedBy(Shut(p, o, head, tail).file, base, p.size, size, mid, m, h);
  }

  /** A settled history leaves a file in which every place holds its chunk. */
  lemma {:induction false} MuxedSealed(left: seq<Stream>, base: nat, events: seq<Event>, mid: seq<byte>)
    requires Allowed(left, base, events, mid) && Settled(left, events)
    ensures Sealed(left, base, events, Muxed(left, base, events, mid))
  {
    var p, o := Planned(left, base, events), Written(left, base, events);
    MuxedReady(left, base, events, mid);
    PosExactly(left, base, events);
    PlanSize(left, base, events);
    var m := TotalHalf(p.slots);
    HeadedByShut(p, o, base, mid, Tail(p), EndOf(p, o), m, 8 * |p.idx1| + 8);
  }

  /** For every interleaving of samples of any number of streams that leaves the output at the end of
      the file: in the file that results, look-up and walk agree about every sample with data. */
  lemma {:induction false} WalkAndIndexAgree(left: seq<Stream>, base: nat, events: seq<Event>, mid: seq<byte>,
                                             s: nat, n: nat)
    requires Allowed(left, base, events, mid) && Settled(left, events) && s < |left| && left[s].length == 0
    requires n < |Sub(events, s)| && !Sub(events, s)[n].dropped
    ensures var f := Muxed(left, base, events, mid);
            var r := Lookup(left, base, events, f, s, n);
            && r.Some?
            && Agrees(f, base, s, Rank(Sub(events, s)[..n]), SlotOf(left, base, events, s, n), r.value,
                      Sub(events, s)[n])
  {
    MuxedSealed(left, base, events, mid);
    SealedAgrees(left, base, events, Muxed(left, base, events, mid), s, n);
  }
}
