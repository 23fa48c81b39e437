/** Closing the file: the old index, the standard indexes still in use and the headers; and what a
    reader then finds. */
module AviClose {
  import opened Riff
  import opened AviOut
  import opened AviIndex
  import opened AviLayout
  import opened AviFile

  // ----- Closing -----

  /** The k first streams' standard indexes still in use. */
  function WriteIndexes(o: Output, p: Plan, k: nat): Output
    requires k <= |p.streams| <= MAX_STREAMS && IndexesFit(p)
  {
    if k == 0 then o
    else
      NotLists(k - 1, true);
      WriteAt(WriteIndexes(o, p, k - 1), p.streams[k - 1].ixOff, Print(IxChunk(k - 1, p.streams[k - 1].ix)))
  }

  predicate IndexesFit(p: Plan) {
    forall s :: 0 <= s < |p.streams| ==> |p.streams[s].ix.entries| <= STD_ENTRIES
  }

  /** avi_mux_cleanup_stream: the old index and what follows it go where the output stands, the
      indexes in use to their places, and the headers to the beginning of the file. */
  function Shut(p: Plan, o: Output, head: seq<byte>, tail: seq<byte>): Output
    requires |p.streams| <= MAX_STREAMS && IndexesFit(p)
  {
    WriteAt(WriteIndexes(WriteAt(o, o.pos, tail), p, |p.streams|), 0, head)
  }

  // ----- What should be in the file -----

  ghost predicate AllFit(p: Plan) {
    forall i :: 0 <= i < |p.slots| ==> SlotFits(p, p.slots[i])
  }

  /** The chunks of the first n places. */
  ghost function Chunks(p: Plan, n: nat): (cs: seq<Chunk>)
    requires AllFit(p) && n <= |p.slots|
    ensures |cs| == n && forall i :: 0 <= i < n ==> cs[i] == SlotChunk(p, p.slots[i])
  {
    if n == 0 then []
    else
      assert SlotFits(p, p.slots[n - 1]);
      Chunks(p, n - 1) + [SlotChunk(p, p.slots[n - 1])]
  }

  lemma {:induction false} GoodSnoc(cs: seq<Chunk>, c: Chunk)
    requires GoodAll(cs) && Good(c)
    ensures GoodAll(cs + [c]) && PrintAll(cs + [c]) == PrintAll(cs) + Print(c)
    decreases |cs|
  {
    if cs == [] {
      assert [c][1..] == [] && cs + [c] == [c];
    } else {
      GoodSnoc(cs[1..], c);
      assert (cs + [c])[1..] == cs[1..] + [c];
      assert Print(cs[0]) + (PrintAll(cs[1..]) + Print(c)) == Print(cs[0]) + PrintAll(cs[1..]) + Print(c);
    }
  }

  /** Their bytes, one after the other. */
  ghost function Body(p: Plan, n: nat): (b: seq<byte>)
    requires AllFit(p) && n <= |p.slots|
    ensures |b| == Total(p.slots[..n])
  {
    if n == 0 then []
    else
      assert p.slots[..n][..n - 1] == p.slots[..n - 1];
      Body(p, n - 1) + Print(SlotChunk(p, p.slots[n - 1]))
  }

  lemma {:induction false} BodyIsPrinted(p: Plan, n: nat)
    requires AllFit(p) && n <= |p.slots|
    ensures GoodAll(Chunks(p, n)) && PrintAll(Chunks(p, n)) == Body(p, n)
  {
    if n > 0 {
      BodyIsPrinted(p, n - 1);
      GoodSnoc(Chunks(p, n - 1), SlotChunk(p, p.slots[n - 1]));
    }
  }

  // ----- What closing does -----

  /** Place a is that of the standard index in use of stream s. */
  predicate Active(p: Plan, base: nat, s: nat, a: nat)
    requires s < |p.streams|
  {
    && a < |p.slots| && p.slots[a] == IndexSlot(s, |p.streams[s].segs|)
    && p.streams[s].ixOff == Offset(base, p.slots, a)
  }

  ghost predicate HasActive(p: Plan, base: nat, s: nat)
    requires s < |p.streams|
  {
    exists a: nat :: Active(p, base, s, a)
  }

  /** What holds of the places after any interleaving of samples. */
  ghost predicate Laid(p: Plan, base: nat) {
    && |p.streams| <= MAX_STREAMS && p.size == base + Total(p.slots) && AllFit(p) && IndexesFit(p)
    && (forall s :: 0 <= s < |p.streams| ==> HasActive(p, base, s))
    && (forall i, j :: 0 <= i < |p.slots| && 0 <= j < |p.slots| && i != j && p.slots[i].IndexSlot? ==>
          p.slots[i] != p.slots[j])
  }

  /** And of the bytes. */
  ghost predicate Filled(p: Plan, o: Output, base: nat)
    requires Laid(p, base)
  {
    && |o.file| <= p.size && o.pos <= p.size
    && forall i :: 0 <= i < |p.slots| ==> Holds(o, p, base, i)
  }

  lemma {:induction false} PlaceInside(p: Plan, base: nat, i: nat)
    requires Laid(p, base) && i < |p.slots|
    ensures base <= Offset(base, p.slots, i) && Offset(base, p.slots, i) + SlotSize(p.slots[i]) <= p.size
  {
    AtOrdered(base, p.slots, i, |p.slots|);
    assert p.slots[..|p.slots|] == p.slots;
  }

  lemma {:induction false} PlacesApart(p: Plan, base: nat, i: nat, j: nat)
    requires Laid(p, base) && i < |p.slots| && j < |p.slots| && i != j
    ensures var a, b := Offset(base, p.slots, i), Offset(base, p.slots, j);
            a + SlotSize(p.slots[i]) <= b || b + SlotSize(p.slots[j]) <= a
  {
    if i < j {
      AtOrdered(base, p.slots, i, j);
    } else {
      AtOrdered(base, p.slots, j, i);
    }
  }

  /** The write of one index in use: where it goes and how much it is. */
  lemma {:induction false} OneIndex(p: Plan, base: nat, s: nat) returns (a: nat, bytes: seq<byte>)
    requires Laid(p, base) && s < |p.streams|
    ensures Active(p, base, s, a)
    ensures Good(IxChunk(s, p.streams[s].ix)) && bytes == Print(IxChunk(s, p.streams[s].ix)) && |bytes| == IX_BYTES
    ensures base <= p.streams[s].ixOff && p.streams[s].ixOff + IX_BYTES <= p.size
  {
    assert HasActive(p, base, s);
    a :| Active(p, base, s, a);
    PlaceInside(p, base, a);
    NotLists(s, true);
    bytes := Print(IxChunk(s, p.streams[s].ix));
  }

  lemma {:induction false} IndexesLength(o: Output, p: Plan, base: nat, k: nat)
    requires Laid(p, base) && k <= |p.streams|
    ensures |o.file| <= |WriteIndexes(o, p, k).file| <= Max(|o.file|, p.size)
  {
    if k > 0 {
      IndexesLength(o, p, base, k - 1);
      var a, written := OneIndex(p, base, k - 1);
    }
  }

  /** Bytes beyond the places stay. */
  lemma {:induction false} IndexesKeepTail(o: Output, p: Plan, base: nat, k: nat, at: nat, bytes: seq<byte>)
    requires Laid(p, base) && k <= |p.streams| && p.size <= at && FileHas(o.file, at, bytes)
    ensures FileHas(WriteIndexes(o, p, k).file, at, bytes)
  {
    if k > 0 {
      IndexesKeepTail(o, p, base, k - 1, at, bytes);
      var a, written := OneIndex(p, base, k - 1);
      OverlayKeeps(WriteIndexes(o, p, k - 1).file, at, bytes, p.streams[k - 1].ixOff, written);
    }
  }

  /** Writing the indexes in use leaves every other place. */
  lemma {:induction false} IndexesKeep(o: Output, p: Plan, base: nat, k: nat, i: nat, bytes: seq<byte>)
    requires Laid(p, base) && k <= |p.streams| && i < |p.slots| && |bytes| <= SlotSize(p.slots[i])
    requires forall s :: 0 <= s < k ==> p.slots[i] != IndexSlot(s, |p.streams[s].segs|)
    requires FileHas(o.file, Offset(base, p.slots, i), bytes)
    ensures FileHas(WriteIndexes(o, p, k).file, Offset(base, p.slots, i), bytes)
  {
    if k > 0 {
      IndexesKeep(o, p, base, k - 1, i, bytes);
      var a, written := OneIndex(p, base, k - 1);
      PlacesApart(p, base, i, a);
      OverlayKeeps(WriteIndexes(o, p, k - 1).file, Offset(base, p.slots, i), bytes, p.streams[k - 1].ixOff, written);
    }
  }

  /** And fills those of the indexes in use. */
  lemma {:induction false} IndexesFill(o: Output, p: Plan, base: nat, k: nat, s: nat, i: nat)
    requires Laid(p, base) && s < k <= |p.streams| && i < |p.slots|
    requires p.slots[i] == IndexSlot(s, |p.streams[s].segs|)
    ensures FileHas(WriteIndexes(o, p, k).file, Offset(base, p.slots, i), Print(SlotChunk(p, p.slots[i])))
  {
    var t := k - 1;
    var a, bytes := OneIndex(p, base, t);
    var before := WriteIndexes(o, p, t);
    if t == s {
      assert i == a;
      OverlayHas(before.file, p.streams[t].ixOff, bytes);
    } else {
      IndexesFill(o, p, base, t, s, i);
      PlacesApart(p, base, i, a);
      OverlayKeeps(before.file, Offset(base, p.slots, i), Print(SlotChunk(p, p.slots[i])), p.streams[t].ixOff, bytes);
    }
  }

  /** The i-th place holds its chunk. */
  ghost predicate Stands(p: Plan, base: nat, f: seq<byte>, i: nat)
    requires i < |p.slots| && SlotFits(p, p.slots[i])
  {
    FileHas(f, Offset(base, p.slots, i), Print(SlotChunk(p, p.slots[i])))
  }

  ghost predicate AllStand(p: Plan, base: nat, f: seq<byte>)
    requires Laid(p, base)
  {
    p.size <= |f| && forall i :: 0 <= i < |p.slots| ==> Stands(p, base, f, i)
  }

  /** Closing with the output at the end of the file leaves every place with its chunk. */
  lemma {:induction false} ShutHas(p: Plan, o: Output, head: seq<byte>, tail: seq<byte>, i: nat)
    requires Laid(p, |head|) && Filled(p, o, |head|) && o.pos == p.size && i < |p.slots|
    ensures Stands(p, |head|, Shut(p, o, head, tail).file, i)
  {
    var base := |head|;
    var at, slot := Offset(base, p.slots, i), p.slots[i];
    var bytes := Print(SlotChunk(p, slot));
    var o1 := WriteAt(o, o.pos, tail);
    PlaceInside(p, base, i);
    if Closed(p, slot) {
      assert Holds(o, p, base, i);
      OverlayKeeps(o.file, at, bytes, o.pos, tail);
      IndexesKeep(o1, p, base, |p.streams|, i, bytes);
    } else {
      IndexesFill(o1, p, base, |p.streams|, slot.s, i);
    }
    OverlayKeeps(WriteIndexes(o1, p, |p.streams|).file, at, bytes, 0, head);
  }

  lemma {:induction false} ShutLength(p: Plan, o: Output, head: seq<byte>, tail: seq<byte>)
    requires Laid(p, |head|) && Filled(p, o, |head|) && tail != []
    ensures |Shut(p, o, head, tail).file| <= Max(p.size, o.pos + |tail|)
    ensures o.pos == p.size ==> |Shut(p, o, head, tail).file| == p.size + |tail|
  {
    IndexesLength(WriteAt(o, o.pos, tail), p, |head|, |p.streams|);
  }

  lemma {:induction false} ShutTail(p: Plan, o: Output, head: seq<byte>, tail: seq<byte>)
    requires Laid(p, |head|) && Filled(p, o, |head|) && tail != [] && o.pos == p.size
    ensures FileHas(Shut(p, o, head, tail).file, p.size, tail)
  {
    var o1 := WriteAt(o, o.pos, tail);
    OverlayHas(o.file, o.pos, tail);
    IndexesKeepTail(o1, p, |head|, |p.streams|, p.size, tail);
    OverlayKeeps(WriteIndexes(o1, p, |p.streams|).file, p.size, tail, 0, head);
  }

  lemma {:induction false} Adjoin(f: seq<byte>, base: nat, a: nat, left: seq<byte>, right: seq<byte>)
    requires base <= a <= |f| && f[base..a] == left && FileHas(f, a, right)
    ensures f[base..a + |right|] == left + right
  {
    assert f[base..a + |right|] == f[base..a] + f[a..a + |right|];
  }

  /** Chunks in neighbouring places are one stretch of the file. */
  lemma {:induction false} Stretch(p: Plan, base: nat, f: seq<byte>, n: nat)
    requires Laid(p, base) && n <= |p.slots| && AllStand(p, base, f)
    ensures FileHas(f, base, Body(p, n))
  {
    if n > 0 {
      Stretch(p, base, f, n - 1);
      assert Stands(p, base, f, n - 1);
      Adjoin(f, base, Offset(base, p.slots, n - 1), Body(p, n - 1), Print(SlotChunk(p, p.slots[n - 1])));
    } else {
      PlaceZero(p, base);
    }
  }

  lemma {:induction false} PlaceZero(p: Plan, base: nat)
    requires Laid(p, base)
    ensures base <= p.size
  {
  }

  lemma {:induction false} Assemble(f: seq<byte>, head: seq<byte>, body: seq<byte>, b: nat, tail: seq<byte>)
    requires FileHas(f, 0, head) && FileHas(f, |head|, body) && |head| + |body| == b
    requires FileHas(f, b, tail) && |f| == b + |tail|
    ensures f == head + body + tail
  {
    var a := |head|;
    assert f == f[0..a] + f[a..b] + f[b..|f|];
  }

  lemma {:induction false} ShutStands(p: Plan, o: Output, head: seq<byte>, tail: seq<byte>)
    requires Laid(p, |head|) && Filled(p, o, |head|) && tail != [] && o.pos == p.size
    ensures AllStand(p, |head|, Shut(p, o, head, tail).file)
  {
    var f := Shut(p, o, head, tail).file;
    ShutLength(p, o, head, tail);
    forall i | 0 <= i < |p.slots| ensures Stands(p, |head|, f, i) {
      ShutHas(p, o, head, tail, i);
    }
  }

  lemma {:induction false} BodySize(p: Plan, base: nat)
    requires Laid(p, base)
    ensures base + |Body(p, |p.slots|)| == p.size
  {
    assert p.slots[..|p.slots|] == p.slots;
  }

  /** Closing gives the headers, the chunks in the order of their places and the rest, exactly if the
      output stands at the end of the file. */
  lemma {:induction false} ShutExactly(p: Plan, o: Output, head: seq<byte>, tail: seq<byte>)
    requires Laid(p, |head|) && Filled(p, o, |head|) && head != [] && tail != []
    ensures Shut(p, o, head, tail).file == head + Body(p, |p.slots|) + tail <==> o.pos == p.size
  {
    if o.pos == p.size {
      ShutWhole(p, o, head, tail, Shut(p, o, head, tail).file, Body(p, |p.slots|));
    } else {
      ShutLength(p, o, head, tail);
      BodySize(p, |head|);
    }
  }

  lemma {:induction false} ShutWhole(p: Plan, o: Output, head: seq<byte>, tail: seq<byte>, f: seq<byte>,
                                     body: seq<byte>)
    requires Laid(p, |head|) && Filled(p, o, |head|) && head != [] && tail != [] && o.pos == p.size
    requires f == Shut(p, o, head, tail).file && body == Body(p, |p.slots|)
    ensures f == head + body + tail
  {
    ShutLength(p, o, head, tail);
    ShutBody(p, o, head, tail);
    ShutTail(p, o, head, tail);
    ShutHead(p, o, head, tail);
    Assemble(f, head, body, p.size, tail);
  }

  lemma {:induction false} ShutHead(p: Plan, o: Output, head: seq<byte>, tail: seq<byte>)
    requires |p.streams| <= MAX_STREAMS && IndexesFit(p) && head != []
    ensures FileHas(Shut(p, o, head, tail).file, 0, head)
  {
    OverlayHas(WriteIndexes(WriteAt(o, o.pos, tail), p, |p.streams|).file, 0, head);
  }

  lemma {:induction false} ShutBody(p: Plan, o: Output, head: seq<byte>, tail: seq<byte>)
    requires Laid(p, |head|) && Filled(p, o, |head|) && tail != [] && o.pos == p.size
    ensures |head| + |Body(p, |p.slots|)| == p.size
    ensures FileHas(Shut(p, o, head, tail).file, |head|, Body(p, |p.slots|))
  {
    BodySize(p, |head|);
    ShutStands(p, o, head, tail);
    Stretch(p, |head|, Shut(p, o, head, tail).file, |p.slots|);
  }

  // ----- The old index -----

  const FCC_IDX1: nat := 0x3178_6469
  const FCC_AVI: nat := 0x2049_5641
  const FCC_MOVI: nat := 0x6976_6F6D

  function OldBytes(idx1: seq<OldEntry>): (b: seq<byte>)
    ensures |b| == 16 * |idx1|
  {
    if idx1 == [] then []
    else
      var e := idx1[|idx1| - 1];
      OldBytes(idx1[..|idx1| - 1]) + (Le(e.ckid, 4) + Le(e.flags, 4) + Le(e.offset, 4) + Le(e.length, 4))
  }

  /** The old index, and the eight zero bytes after the RIFF chunk. */
  function Tail(p: Plan): (b: seq<byte>)
    requires 16 * |p.idx1| < U32 - 1
    ensures |b| == 16 * |p.idx1| + 16
  {
    Print(Leaf(FCC_IDX1, OldBytes(p.idx1))) + Zeros(8)
  }

  // ----- The headers -----

  /** The headers up to the first place of the movi list: the RIFF list, whatever describes the
      streams, and the head of the movi list, with the sizes that the code takes for them. */
  function Head(base: nat, end: nat, size: nat, mid: seq<byte>): (b: seq<byte>)
    requires |mid| + 24 == base <= end && end - base + 4 < U32 && 16 <= size && size - 16 < U32
    ensures |b| == base
  {
    Header(FCC_RIFF, size - 16) + Le(FCC_AVI, 4) + mid + Header(FCC_LIST, end - base + 4) + Le(FCC_MOVI, 4)
  }

  // ----- Histories -----

  /** A history that the multiplexer has room for: sizes are ints, and a super-index has 2000
      entries. */
  ghost predicate RoomFor(left: seq<Stream>, base: nat, events: seq<Event>) {
    && LeftOk(left) && EventsOk(|left|, events)
    && Planned(left, base, events).size + 16 * (|events| + 1) + 16 <= INT_MAX
    && forall s :: 0 <= s < |left| ==> SuperRoom(left[s], |Sub(events, s)|)
  }

  /** The super-index has room for so many samples more: at most eight million in all. */
  predicate SuperRoom(st: Stream, n: nat) {
    && |st.super| < SUPER_ENTRIES && st.length + n < U32
    && STD_ENTRIES * |st.super| + |st.ix.entries| + n <= STD_ENTRIES * SUPER_ENTRIES
  }

  /** Likewise, when what describes the streams ends where the movi list begins. */
  ghost predicate Allowed(left: seq<Stream>, base: nat, events: seq<Event>, mid: seq<byte>) {
    RoomFor(left, base, events) && |mid| + 24 == base
  }

  lemma {:induction false} PlanLaid(left: seq<Stream>, base: nat, events: seq<Event>)
    requires LeftOk(left) && EventsOk(|left|, events) && 0 < base && Planned(left, base, events).size <= INT_MAX
    ensures Laid(Planned(left, base, events), base)
  {
    var p := Planned(left, base, events);
    PlanSize(left, base, events);
    forall i | 0 <= i < |p.slots| ensures SlotFits(p, p.slots[i]) {
      EverySlotFits(left, base, events, i);
    }
    forall s | 0 <= s < |left| ensures |p.streams[s].ix.entries| <= STD_ENTRIES && HasActive(p, base, s) {
      StreamSize(left, base, events, s);
      var a := IndexSlotOf(left, base, events, s, |p.streams[s].segs|);
      EverySlotRight(left, base, events, a);
      assert Active(p, base, s, a);
    }
    forall i, j | 0 <= i < |p.slots| && 0 <= j < |p.slots| && i != j && p.slots[i].IndexSlot?
      ensures p.slots[i] != p.slots[j]
    {
      IndexSlotOnce(left, base, events, j, i);
    }
  }

  lemma {:induction false} PlanFilled(left: seq<Stream>, base: nat, events: seq<Event>)
    requires LeftOk(left) && EventsOk(|left|, events) && 0 < base && Planned(left, base, events).size <= INT_MAX
    ensures Laid(Planned(left, base, events), base)
    ensures Filled(Planned(left, base, events), Written(left, base, events), base)
  {
    var p := Planned(left, base, events);
    PlanLaid(left, base, events);
    PosExactly(left, base, events);
    forall i | 0 <= i < |p.slots| ensures Holds(Written(left, base, events), p, base, i) {
      WrittenHolds(left, base, events, i);
    }
  }

  /** Room for the tail, so that all positions are ints. */
  predicate FileFits(p: Plan, base: nat, mid: seq<byte>) {
    |mid| + 24 == base <= p.size && p.size + 16 * |p.idx1| + 16 <= INT_MAX
  }

  /** The size of the file when the headers are written: the tail may have enlarged it. */
  function EndOf(p: Plan, o: Output): (size: nat)
    ensures p.size <= size && (o.pos <= p.size ==> size == o.pos + 16 * |p.idx1| + 16 || size == p.size)
  {
    Max(p.size, o.pos + 16 * |p.idx1| + 16)
  }

  /** The headers, given that size. */
  function HeadFor(p: Plan, o: Output, base: nat, mid: seq<byte>): (b: seq<byte>)
    requires FileFits(p, base, mid) && o.pos <= p.size
    ensures |b| == base
  {
    Head(base, p.size, EndOf(p, o), mid)
  }

  lemma {:induction false} MuxedReady(left: seq<Stream>, base: nat, events: seq<Event>, mid: seq<byte>)
    requires Allowed(left, base, events, mid)
    ensures var p, o := Planned(left, base, events), Written(left, base, events);
            Laid(p, base) && Filled(p, o, base) && FileFits(p, base, mid)
  {
    PlanFilled(left, base, events);
    PlanSize(left, base, events);
  }

  /** The file that the multiplexer leaves. */
  function Muxed(left: seq<Stream>, base: nat, events: seq<Event>, mid: seq<byte>): seq<byte>
    requires Allowed(left, base, events, mid)
  {
    MuxedReady(left, base, events, mid);
    var p, o := Planned(left, base, events), Written(left, base, events);
    Shut(p, o, HeadFor(p, o, base, mid), Tail(p)).file
  }

  /** The file is headers, every chunk in the order of its claim, the old index and eight zeros,
      exactly if the history is settled: otherwise the old index goes to an earlier position than
      the headers say. */
  lemma {:induction false} MuxedExactly(left: seq<Stream>, base: nat, events: seq<Event>, mid: seq<byte>)
    requires Allowed(left, base, events, mid)
    ensures var p, o := Planned(left, base, events), Written(left, base, events);
            && AllFit(p) && FileFits(p, base, mid) && o.pos <= p.size
            && GoodAll(Chunks(p, |p.slots|))
            && (Muxed(left, base, events, mid)
                  == HeadFor(p, o, base, mid) + PrintAll(Chunks(p, |p.slots|)) + Tail(p)
                <==> Settled(left, events))
  {
    var p, o := Planned(left, base, events), Written(left, base, events);
    MuxedReady(left, base, events, mid);
    PosExactly(left, base, events);
    BodyIsPrinted(p, |p.slots|);
    ShutExactly(p, o, HeadFor(p, o, base, mid), Tail(p));
  }
}
