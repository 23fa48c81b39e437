/** The AVI multiplexer in its own form: streams, old index and output are overwritten as samples
    come in. */
module AviMux {
  import opened Riff
  import opened AviOut
  import opened AviIndex
  import opened AviLayout
  import opened AviFile
  import opened AviClose
  import opened AviRead
  import opened AviSuper
  import opened AviHeader

  class Mux {
    const out: OutStream
    var streams: seq<Stream>
    var idx1: seq<OldEntry>
    ghost var slots: seq<Slot>

    ghost predicate Valid()
      reads this, out, out.buf
    {
      out.Valid()
    }

    ghost function Now(): Plan
      reads this, out
    {
      Plan(streams, slots, idx1, out.size)
    }

    ghost function Disk(): Output
      requires Valid()
      reads this, out, out.buf
    {
      Output(out.Contents(), out.outPos)
    }

    /** A new filter: its pins have empty indexes. */
    constructor (k: nat)
      ensures Valid() && fresh(out) && fresh(out.buf)
      ensures |streams| == k && forall s :: 0 <= s < k ==> streams[s] == Blank()
    {
      out := new OutStream();
      streams := seq(k, _ => Stream(0, StdIndex(0, []), [], [], 0));
      idx1, slots := [], [];
    }

    /** avi_mux_init_stream, which leaves entries, super-indexes and lengths as they are. */
    method Open(base: nat)
      requires Valid()
      modifies this, out
      ensures Valid() && Now() == Opened(old(streams), base) && Disk() == Output([], 0)
    {
      ghost var left := streams;
      slots := Opened(left, base).slots;
      out.Open(base + IX_BYTES * |streams|);
      idx1 := [OldEntry(FCC_7FXX, 0, base, 0)];
      var s := 0;
      while s < |streams|
        invariant s <= |streams| == |left|
        invariant forall t :: 0 <= t < s ==> streams[t] == Reopened(left[t], base + IX_BYTES * t)
        invariant forall t :: s <= t < |streams| ==> streams[t] == left[t]
        modifies this`streams
      {
        var st := streams[s];
        streams := streams[s := st.(ixOff := base + IX_BYTES * s, ix := st.ix.(base := 0))];
        s := s + 1;
      }
      assert streams == Opened(left, base).streams;
    }

    /** Bytes at a position. */
    method PutAt(at: nat, bytes: seq<byte>)
      requires Valid() && at + |bytes| <= out.size
      modifies out, out.buf
      ensures Valid() && out.size == old(out.size)
      ensures Disk() == WriteAt(old(Disk()), at, bytes)
    {
      out.Seek(at);
      out.Write(bytes);
    }

    /** A full standard index is written and a new one begun. */
    method Roll(s: nat)
      requires Valid() && s < |streams| <= MAX_STREAMS && streams[s].ixOff + IX_BYTES <= out.size
      modifies this, out, out.buf
      ensures Valid()
      ensures Now() == Prepared(old(Now()), s) && Disk() == ReadyOut(old(Disk()), old(Now()), s)
    {
      var st := streams[s];
      if |st.ix.entries| == STD_ENTRIES {
        NotLists(s, true);
        PutAt(st.ixOff, Print(IxChunk(s, st.ix)));
        streams := streams[s := Stream(out.size, StdIndex(0, []), st.segs + [st.ix],
                                       st.super + [SuperEntry(st.ixOff, STD_ENTRIES)], st.length)];
        slots := slots + [IndexSlot(s, |st.segs| + 1)];
        out.Reserve(IX_BYTES);
      }
    }

    /** Three pieces one after the other, from where the output stands. */
    method WriteThree(a: seq<byte>, b: seq<byte>, c: seq<byte>)
      requires Valid()
      modifies out, out.buf
      ensures Valid() && Disk() == WriteAt(old(Disk()), old(out.outPos), a + b + c)
      ensures out.size == Max(old(out.size), out.outPos)
    {
      ghost var file, at := out.Contents(), out.outPos;
      out.Write(a);
      out.Write(b);
      OverlayTwice(file, at, a, b);
      out.Write(c);
      OverlayTwice(file, at, a + b, c);
    }

    /** A chunk at the end of the file: header, data and a zero if the size is odd. */
    method WriteChunk(s: nat, smp: Sample)
      requires Valid() && s < MAX_STREAMS && SampleOk(smp)
      modifies out, out.buf
      ensures Valid() && Good(DataChunk(s, smp))
      ensures Disk() == WriteAt(old(Disk()), old(out.size), Print(DataChunk(s, smp)))
      ensures out.size == old(out.size) + SizeOf(DataChunk(s, smp))
    {
      NotLists(s, smp.sync);
      out.Seek(out.size);
      WriteThree(Header(DataFcc(s, smp.sync), |smp.data|), smp.data, Pad(|smp.data|));
    }

    /** One turn of flush_queue's loop for a sample that is due. */
    method Handle(e: Event)
      requires Valid() && CanTake(Now(), e) && streams[e.s].ixOff + IX_BYTES <= out.size
      modifies this, out, out.buf
      ensures Valid()
      ensures Now() == Take(old(Now()), e) && Disk() == TakeOut(old(Disk()), old(Now()), e)
    {
      var s, smp := e.s, e.sample;
      Roll(s);
      var st := streams[s];
      var base, off := st.ix.base, 0;
      var offset := idx1[|idx1| - 1].offset;
      if !smp.dropped {
        if base == 0 {
          base := out.size;
        }
        off := (out.size + HEADER - base) % U32;
        offset := out.size;
      }
      var entries := st.ix.entries + [Entry(off, PackSize(smp))];
      streams := streams[s := st.(ix := StdIndex(base, entries), length := st.length + 1)];
      idx1 := idx1 + [OldEntry(DataFcc(s, smp.sync), if smp.sync then KEYFRAME else 0, offset, |smp.data|)];
      if !smp.dropped {
        slots := slots + [DataSlot(s, |st.segs|, |st.ix.entries|, smp)];
        WriteChunk(s, smp);
      }
    }

    /** The old index and eight zeros, from where the output stands. */
    method WriteTail(ghost p: Plan)
      requires Valid() && 16 * |idx1| < U32 - 1 && p.idx1 == idx1
      modifies out, out.buf
      ensures Valid() && Disk() == WriteAt(old(Disk()), old(out.outPos), Tail(p))
      ensures out.size == Max(old(out.size), old(out.outPos) + |Tail(p)|)
    {
      var header, entries := Header(FCC_IDX1, 16 * |idx1|), OldBytes(idx1);
      TailParts(p, header, entries);
      WriteThree(header, entries, Zeros(8));
    }

    /** The standard indexes still in use, each to its place. */
    method WriteLastIndexes(ghost p: Plan)
      requires Valid() && |streams| <= MAX_STREAMS && p.streams == streams && IndexesFit(p)
      requires forall s :: 0 <= s < |streams| ==> streams[s].ixOff + IX_BYTES <= out.size
      modifies out, out.buf
      ensures Valid() && out.size == old(out.size)
      ensures Disk() == WriteIndexes(old(Disk()), p, |streams|)
    {
      var s := 0;
      while s < |streams|
        invariant s <= |streams| && Valid() && out.size == old(out.size)
        invariant Disk() == WriteIndexes(old(Disk()), p, s)
      {
        WriteLastIndex(s, p, old(Disk()));
        s := s + 1;
      }
    }

    method WriteLastIndex(s: nat, ghost p: Plan, ghost o: Output)
      requires Valid() && s < |streams| <= MAX_STREAMS && p.streams == streams && IndexesFit(p)
      requires streams[s].ixOff + IX_BYTES <= out.size && Disk() == WriteIndexes(o, p, s)
      modifies out, out.buf
      ensures Valid() && out.size == old(out.size) && Disk() == WriteIndexes(o, p, s + 1)
    {
      NotLists(s, true);
      PutAt(streams[s].ixOff, Print(IxChunk(s, streams[s].ix)));
    }

    /** Super-index entries for the last standard indexes. */
    method FinishStreams()
      modifies this`streams
      ensures |streams| == old(|streams|)
      ensures forall s :: 0 <= s < |streams| ==> streams[s] == Finished(old(streams)[s])
    {
      var s := 0;
      while s < |streams|
        invariant s <= |streams| == old(|streams|)
        invariant forall t :: 0 <= t < s ==> streams[t] == Finished(old(streams)[t])
        invariant forall t :: s <= t < |streams| ==> streams[t] == old(streams)[t]
      {
        var st := streams[s];
        var last: int := st.length;
        if |st.super| > 0 {
          last := last - st.super[|st.super| - 1].dwDuration;
        }
        streams := streams[s := st.(segs := st.segs + [st.ix], super := st.super + [SuperEntry(st.ixOff, last)])];
        s := s + 1;
      }
    }

    /** More bytes behind those written since the beginning of the file. */
    method Emit(bytes: seq<byte>, ghost start: Output, ghost done: seq<byte>)
      requires Valid() && Disk() == WriteAt(start, 0, done)
      modifies out, out.buf
      ensures Valid() && Disk() == WriteAt(start, 0, done + bytes)
      ensures out.size == Max(old(out.size), |done + bytes|)
    {
      OverlayTwice(start.file, 0, done, bytes);
      out.Write(bytes);
    }

    /** The list of one stream: header, format and super-index. */
    method EmitStream(s: nat, info: StreamInfo, ghost super: seq<SuperEntry>, ghost start: Output,
                      ghost done: seq<byte>)
      requires Valid() && s < |streams| <= MAX_STREAMS && streams[s].super == super && SuperFits(super)
      requires |info.strh| == 56 && |info.strf| % 2 == 0 && 84 + |info.strf| + INDX_BYTES < U32
      requires Disk() == WriteAt(start, 0, done)
      modifies out, out.buf
      ensures Valid() && Good(Strl(info, IndxChunk(s, super)))
      ensures Disk() == WriteAt(start, 0, done + Print(Strl(info, IndxChunk(s, super))))
      ensures out.size == Max(old(out.size), |done + Print(Strl(info, IndxChunk(s, super)))|)
    {
      StrlGood(info, IndxChunk(s, super));
      var head := Header(FCC_LIST, 76 + |info.strf| + INDX_BYTES) + Le(FCC_STRL, 4);
      var strh, strf := Header(FCC_STRH, 56) + info.strh, Header(FCC_STRF, |info.strf|) + info.strf;
      Emit(head, start, done);
      Emit(strh, start, done + head);
      Emit(strf, start, done + head + strh);
      Emit(IndxBytes(s, streams[s].super), start, done + head + strh + strf);
      StrlPrinted(info, s, super, head, strh, strf, IndxBytes(s, super));
      Regroup4(done, head, strh, strf, IndxBytes(s, super));
    }

    /** The lists of all streams, behind the main header. */
    method EmitStreams(d: Descr, ghost supers: seq<seq<SuperEntry>>, ghost start: Output, ghost done: seq<byte>,
                       ghost avih: seq<byte>)
      requires Valid() && Describable(d, supers) && |streams| == |supers|
      requires forall s :: 0 <= s < |streams| ==> streams[s].super == supers[s]
      requires avih == Header(FCC_AVIH, 56) + d.avih && Disk() == WriteAt(start, 0, done + avih)
      modifies out, out.buf
      ensures Valid() && GoodAll(Kids(d, supers, |supers|))
      ensures Disk() == WriteAt(start, 0, done + PrintAll(Kids(d, supers, |supers|)))
      ensures out.size == Max(old(out.size), |done + PrintAll(Kids(d, supers, |supers|))|)
    {
      ghost var size := out.size;
      AvihPrinted(d, supers, avih);
      var n := 0;
      while n < |d.streams|
        invariant n <= |d.streams| && Emitted(d, n, supers, start, done, size)
      {
        EmitKid(d, n, supers, start, done, size);
        n := n + 1;
      }
    }

    /** The main header and the lists of n streams have been written. */
    ghost predicate Emitted(d: Descr, n: nat, supers: seq<seq<SuperEntry>>, start: Output, done: seq<byte>, size: nat)
      requires Describable(d, supers) && n <= |d.streams|
      reads this, out, out.buf
    {
      && Valid() && GoodAll(Kids(d, supers, n)) && Disk() == WriteAt(start, 0, done + PrintAll(Kids(d, supers, n)))
      && out.size == Max(size, |done + PrintAll(Kids(d, supers, n))|)
    }

    /** The next one. */
    method EmitKid(d: Descr, n: nat, ghost supers: seq<seq<SuperEntry>>, ghost start: Output, ghost done: seq<byte>,
                   ghost size: nat)
      requires Describable(d, supers) && n < |d.streams| == |streams| && streams[n].super == supers[n]
      requires Emitted(d, n, supers, start, done, size)
      modifies out, out.buf
      ensures Emitted(d, n + 1, supers, start, done, size)
    {
      BeforeGrows(d, n + 1, |d.streams|);
      EmitStream(n, d.streams[n], supers[n], start, done + PrintAll(Kids(d, supers, n)));
      NextKid(d, supers, n, done);
    }

    /** The header list, behind the head of the file. */
    method EmitHeaders(d: Descr, ghost supers: seq<seq<SuperEntry>>, ghost start: Output, ghost first: seq<byte>)
      requires Valid() && Describable(d, supers) && |streams| == |supers|
      requires forall s :: 0 <= s < |streams| ==> streams[s].super == supers[s]
      requires Disk() == WriteAt(start, 0, first)
      modifies out, out.buf
      ensures Valid() && Disk() == WriteAt(start, 0, first + Middle(d, supers))
      ensures out.size == Max(old(out.size), |first + Middle(d, supers)|)
    {
      var hdrl := Header(FCC_LIST, MiddleSize(d) - 8) + Le(FCC_HDRL, 4);
      var avih := Header(FCC_AVIH, 56) + d.avih;
      Emit(hdrl, start, first);
      Emit(avih, start, first + hdrl);
      EmitStreams(d, supers, start, first + hdrl, avih);
      ghost var lists := PrintAll(Kids(d, supers, |supers|));
      var odml := Header(FCC_LIST, 260) + Le(FCC_ODML, 4) + (Header(FCC_DMLH, 248) + d.dmlh);
      Emit(odml, start, first + hdrl + lists);
      MiddlePieces(d, supers, hdrl, odml);
      Regroup3(first, hdrl, lists, odml);
    }

    /** The headers, with the size of the file as it is now, one after the other. */
    method WriteHead(base: nat, end: nat, d: Descr, ghost supers: seq<seq<SuperEntry>>, ghost size: nat,
                     ghost mid: seq<byte>)
      requires Valid() && |mid| + 24 == base <= end <= out.size <= INT_MAX && size == out.size
      requires Describable(d, supers) && |streams| == |supers| && mid == Middle(d, supers)
      requires forall s :: 0 <= s < |streams| ==> streams[s].super == supers[s]
      modifies out, out.buf
      ensures Valid() && out.size == old(out.size)
      ensures Disk() == WriteAt(old(Disk()), 0, Head(base, end, size, mid))
    {
      out.Seek(0);
      ghost var start := Disk();
      OverlayNone(start.file, 0);
      var first := Header(FCC_RIFF, out.size - 16) + Le(FCC_AVI, 4);
      Emit(first, start, []);
      assert [] + first == first;
      EmitHeaders(d, supers, start, first);
      var last := Header(FCC_LIST, end - base + 4) + Le(FCC_MOVI, 4);
      Emit(last, start, first + mid);
      HeadPieces(base, end, size, mid, first, last);
    }

    /** Everything but the headers. */
    method CloseLists(ghost p: Plan, ghost o: Output)
      requires Valid() && |streams| <= MAX_STREAMS && p == Now() && o == Disk() && IndexesFit(p)
      requires 16 * |idx1| < U32 - 1
      requires forall s :: 0 <= s < |streams| ==> streams[s].ixOff + IX_BYTES <= out.size
      modifies this, out, out.buf
      ensures Valid() && |streams| == |p.streams| && out.size == EndOf(p, o)
      ensures forall s :: 0 <= s < |streams| ==> streams[s] == Finished(p.streams[s])
      ensures Disk() == WriteIndexes(WriteAt(o, o.pos, Tail(p)), p, |p.streams|)
    {
      WriteTail(p);
      WriteLastIndexes(p);
      FinishStreams();
    }

    /** avi_mux_cleanup_stream after the queues; d is what the headers say besides the super-indexes. */
    method Close(base: nat, d: Descr, ghost supers: seq<seq<SuperEntry>>, ghost mid: seq<byte>)
      requires Valid() && |streams| <= MAX_STREAMS && IndexesFit(Now()) && FileFits(Now(), base, mid)
      requires supers == SupersOf(streams) && Describable(d, supers) && mid == Middle(d, supers)
      requires forall s :: 0 <= s < |streams| ==> streams[s].ixOff + IX_BYTES <= out.size
      modifies this, out, out.buf
      ensures Valid() && |streams| == old(|streams|)
      ensures forall s :: 0 <= s < |streams| ==> streams[s] == Finished(old(streams)[s])
      ensures var p, o := old(Now()), old(Disk());
              Disk() == Shut(p, o, HeadFor(p, o, base, mid), Tail(p))
    {
      ghost var p, o := Now(), Disk();
      var end := out.size;
      CloseLists(p, o);
      HeadReady(p, o, base, mid, supers, streams);
      WriteHead(base, end, d, supers, EndOf(p, o), mid);
    }

    /** What is still in the buffer reaches the file. */
    method Save() returns (file: seq<byte>)
      requires Valid()
      modifies out, out.buf
      ensures Valid() && Disk() == old(Disk()) && file == Disk().file
    {
      out.Flush();
      file := out.file;
      OverlayNone(file, out.pos);
      assert out.buf[..0] == [];
    }
  }

  // ----- A whole recording -----

  lemma {:induction false} SmallerBefore(left: seq<Stream>, base: nat, events: seq<Event>, i: nat)
    requires LeftOk(left) && EventsOk(|left|, events) && i <= |events|
    ensures Planned(left, base, events[..i]).size <= Planned(left, base, events).size
  {
    var m := |events| - 1;
    if i > m {
      assert events[..i] == events;
    } else {
      SmallerBefore(left, base, events[..m], i);
      assert events[..m][..i] == events[..i];
      TakeGrows(Planned(left, base, events[..m]), events[m]);
    }
  }

  lemma {:induction false} NextTurn(left: seq<Stream>, base: nat, events: seq<Event>, i: nat)
    requires LeftOk(left) && EventsOk(|left|, events) && 0 < base && Planned(left, base, events).size <= INT_MAX
    requires i < |events|
    ensures var p, e := Planned(left, base, events[..i]), events[i];
            && CanTake(p, e) && p.streams[e.s].ixOff + IX_BYTES <= p.size
            && Planned(left, base, events[..i + 1]) == Take(p, e)
            && Written(left, base, events[..i + 1]) == TakeOut(Written(left, base, events[..i]), p, e)
  {
    assert events[..i + 1][..i] == events[..i];
    SmallerBefore(left, base, events, i);
    ActiveInside(left, base, events[..i], events[i].s);
  }

  /** The multiplexer is where the first events have brought it. */
  ghost predicate Tracks(mux: Mux, left: seq<Stream>, base: nat, events: seq<Event>)
    requires LeftOk(left) && EventsOk(|left|, events)
    reads mux, mux.out, mux.out.buf
  {
    mux.Valid() && mux.Now() == Planned(left, base, events) && mux.Disk() == Written(left, base, events)
  }

  /** The next event of a history. */
  method HandleNext(mux: Mux, e: Event, ghost left: seq<Stream>, ghost base: nat, ghost events: seq<Event>,
                    ghost i: nat)
    requires LeftOk(left) && EventsOk(|left|, events) && 0 < base && Planned(left, base, events).size <= INT_MAX
    requires i < |events| && events[i] == e && Tracks(mux, left, base, events[..i])
    modifies mux, mux.out, mux.out.buf
    ensures Tracks(mux, left, base, events[..i + 1])
  {
    NextTurn(left, base, events, i);
    mux.Handle(e);
  }

  /** A reader of the file alone finds every sample with data of a stream that had none in earlier
      recordings through the indexes, and finds there what a walk over the movi list finds. */
  ghost predicate AllAgree(left: seq<Stream>, base: nat, events: seq<Event>, file: seq<byte>)
    requires LeftOk(left) && EventsOk(|left|, events)
  {
    forall s, n :: 0 <= s < |left| && left[s].length == 0 && 0 <= n < |Sub(events, s)| && !Sub(events, s)[n].dropped ==>
      var r := FindSample(file, s, n);
      && MoviIn(file) == Some(base) && r.Some?
      && Agrees(file, base, s, Rank(Sub(events, s)[..n]), SlotOf(left, base, events, s, n), r.value, Sub(events, s)[n])
  }

  lemma {:induction false} RecordedAgrees(left: seq<Stream>, base: nat, events: seq<Event>, d: Descr)
    requires Recordable(left, base, events, d) && Settled(left, events)
    ensures AllAgree(left, base, events, Recorded(left, base, events, d))
  {
    var file := Recorded(left, base, events, d);
    forall s, n | 0 <= s < |left| && left[s].length == 0 && 0 <= n < |Sub(events, s)| && !Sub(events, s)[n].dropped
      ensures var r := FindSample(file, s, n);
              && MoviIn(file) == Some(base) && r.Some?
              && Agrees(file, base, s, Rank(Sub(events, s)[..n]), SlotOf(left, base, events, s, n), r.value,
                        Sub(events, s)[n])
    {
      FileTellsTheSame(left, base, events, d, s, n);
    }
  }

  /** Closing after all samples. */
  method Finish(mux: Mux, ghost left: seq<Stream>, base: nat, ghost events: seq<Event>, d: Descr)
      returns (file: seq<byte>)
    requires Recordable(left, base, events, d) && Tracks(mux, left, base, events)
    modifies mux, mux.out, mux.out.buf
    ensures mux.Valid() && mux.streams == Leaves(left, base, events)
    ensures file == Recorded(left, base, events, d)
  {
    CloseHistory(mux, left, base, events, d);
    file := mux.Save();
  }

  method CloseHistory(mux: Mux, ghost left: seq<Stream>, base: nat, ghost events: seq<Event>, d: Descr)
    requires Recordable(left, base, events, d) && Tracks(mux, left, base, events)
    modifies mux, mux.out, mux.out.buf
    ensures mux.Valid() && mux.streams == Leaves(left, base, events)
    ensures mux.Disk().file == Recorded(left, base, events, d)
  {
    ghost var supers := Supers(left, base, events);
    ReadyToClose(left, base, events, d);
    mux.Close(base, d, supers, Middle(d, supers));
    AllLeave(left, base, events, mux.streams);
  }

  lemma {:induction false} ReadyToClose(left: seq<Stream>, base: nat, events: seq<Event>, d: Descr)
    requires Recordable(left, base, events, d)
    ensures var p, supers := Planned(left, base, events), Supers(left, base, events);
            && |p.streams| <= MAX_STREAMS && IndexesFit(p) && Describable(d, supers)
            && FileFits(p, base, Middle(d, supers)) && supers == SupersOf(p.streams)
            && forall s :: 0 <= s < |p.streams| ==> p.streams[s].ixOff + IX_BYTES <= p.size
  {
    Describes(left, base, events, d);
    MuxedReady(left, base, events, Middle(d, Supers(left, base, events)));
    forall s | 0 <= s < |left| ensures Planned(left, base, events).streams[s].ixOff + IX_BYTES
                                       <= Planned(left, base, events).size {
      ActiveInside(left, base, events, s);
    }
  }

  lemma {:induction false} AllLeave(left: seq<Stream>, base: nat, events: seq<Event>, streams: seq<Stream>)
    requires LeftOk(left) && EventsOk(|left|, events) && |streams| == |left|
    requires forall s :: 0 <= s < |left| ==> streams[s] == Finished(Planned(left, base, events).streams[s])
    ensures streams == Leaves(left, base, events)
  {
  }

  // ----- Pieces -----

  lemma {:induction false} HeadReady(p: Plan, o: Output, base: nat, mid: seq<byte>, supers: seq<seq<SuperEntry>>,
                                     streams: seq<Stream>)
    requires FileFits(p, base, mid) && supers == SupersOf(p.streams) && |streams| == |p.streams|
    requires o.pos <= p.size
    requires forall s :: 0 <= s < |streams| ==> streams[s] == Finished(p.streams[s])
    ensures |mid| + 24 == base <= p.size <= EndOf(p, o) <= INT_MAX
    ensures forall s :: 0 <= s < |streams| ==> streams[s].super == supers[s]
    ensures HeadFor(p, o, base, mid) == Head(base, p.size, EndOf(p, o), mid)
  {
  }

  lemma {:induction false} OverlayNone(file: seq<byte>, at: nat)
    ensures Overlay(file, at, []) == file
  {
  }

  lemma {:induction false} Regroup4(z: seq<byte>, a: seq<byte>, b: seq<byte>, c: seq<byte>, d: seq<byte>)
    ensures z + a + b + c + d == z + (a + b + c + d)
  {
    assert z + a + b + c + d == z + (a + (b + (c + d)));
    assert a + b + c + d == a + (b + (c + d));
  }

  /** Chunks of even size printed one after the other. */
  lemma {:induction false} ThreePrinted(a: Chunk, b: Chunk, c: Chunk)
    requires Good(a) && Good(b) && Good(c)
    ensures GoodAll([a, b, c]) && PrintAll([a, b, c]) == Print(a) + Print(b) + Print(c)
  {
    GoodSnoc([], a);
    GoodSnoc([a], b);
    GoodSnoc([a, b], c);
    assert [] + [a] == [a] && [a] + [b] == [a, b] && [a, b] + [c] == [a, b, c];
  }

  lemma {:induction false} EvenLeaf(fcc: nat, data: seq<byte>)
    requires Good(Leaf(fcc, data)) && |data| % 2 == 0
    ensures Print(Leaf(fcc, data)) == Header(fcc, |data|) + data
  {
    assert Pad(|data|) == [];
  }

  lemma {:induction false} StrlPrinted(info: StreamInfo, s: nat, super: seq<SuperEntry>, head: seq<byte>,
                                       strh: seq<byte>, strf: seq<byte>, indx: seq<byte>)
    requires s < MAX_STREAMS && SuperFits(super) && indx == IndxBytes(s, super)
    requires |info.strh| == 56 && |info.strf| % 2 == 0 && 84 + |info.strf| + INDX_BYTES < U32
    requires head == Header(FCC_LIST, 76 + |info.strf| + INDX_BYTES) + Le(FCC_STRL, 4)
    requires strh == Header(FCC_STRH, 56) + info.strh && strf == Header(FCC_STRF, |info.strf|) + info.strf
    ensures Good(Strl(info, IndxChunk(s, super)))
    ensures Print(Strl(info, IndxChunk(s, super))) == head + strh + strf + indx
  {
    IndxPrinted(s, super);
    var n := 76 + |info.strf| + INDX_BYTES;
    StrlIsThree(info, IndxChunk(s, super), n, strh, strf, indx);
    ListOfThree(Strl(info, IndxChunk(s, super)), n, head, strh, strf, indx);
  }

  /** A list of a stream: three chunks, which are printed so, and so many bytes. */
  ghost predicate IsThree(list: Chunk, n: nat, x: seq<byte>, y: seq<byte>, z: seq<byte>) {
    && Good(list) && list.List? && list.fcc == FCC_LIST && list.form == FCC_STRL && 4 + Size(list.kids) == n
    && |list.kids| == 3 && Good(list.kids[0]) && Good(list.kids[1]) && Good(list.kids[2])
    && Print(list.kids[0]) == x && Print(list.kids[1]) == y && Print(list.kids[2]) == z
  }

  lemma {:induction false} StrlIsThree(info: StreamInfo, c: Chunk, n: nat, strh: seq<byte>, strf: seq<byte>,
                                       indx: seq<byte>)
    requires Good(c) && SizeOf(c) == INDX_BYTES && Print(c) == indx && n == 76 + |info.strf| + INDX_BYTES
    requires |info.strh| == 56 && |info.strf| % 2 == 0 && 84 + |info.strf| + INDX_BYTES < U32
    requires strh == Header(FCC_STRH, 56) + info.strh && strf == Header(FCC_STRF, |info.strf|) + info.strf
    ensures IsThree(Strl(info, c), n, strh, strf, indx)
  {
    LeavesPrinted(info, strh, strf);
    StrlSize(info, c);
  }

  lemma {:induction false} LeavesPrinted(info: StreamInfo, strh: seq<byte>, strf: seq<byte>)
    requires |info.strh| == 56 && |info.strf| % 2 == 0 && |info.strf| < U32 - 1
    requires strh == Header(FCC_STRH, 56) + info.strh && strf == Header(FCC_STRF, |info.strf|) + info.strf
    ensures var a, b := Leaf(FCC_STRH, info.strh), Leaf(FCC_STRF, info.strf);
            Good(a) && Good(b) && Print(a) == strh && Print(b) == strf
  {
    EvenLeaf(FCC_STRH, info.strh);
    EvenLeaf(FCC_STRF, info.strf);
  }

  lemma {:induction false} ListOfThree(list: Chunk, n: nat, head: seq<byte>, x: seq<byte>, y: seq<byte>, z: seq<byte>)
    requires IsThree(list, n, x, y, z) && head == Header(FCC_LIST, n) + Le(FCC_STRL, 4)
    ensures Print(list) == head + x + y + z
  {
    var kids := list.kids;
    ThreePrinted(kids[0], kids[1], kids[2]);
    assert kids == [kids[0], kids[1], kids[2]];
    ThreeInList(FCC_STRL, kids, n, head, x, y, z);
  }

  lemma {:induction false} StrlSize(info: StreamInfo, c: Chunk)
    requires Good(c) && SizeOf(c) == INDX_BYTES && |info.strh| == 56 && |info.strf| % 2 == 0
    requires 84 + |info.strf| + INDX_BYTES < U32
    ensures Good(Strl(info, c)) && 4 + Size(Strl(info, c).kids) == 76 + |info.strf| + INDX_BYTES
  {
    StrlGood(info, c);
  }

  lemma {:induction false} ThreeInList(form: nat, kids: seq<Chunk>, n: nat, head: seq<byte>,
                                       a: seq<byte>, b: seq<byte>, c: seq<byte>)
    requires Good(List(FCC_LIST, form, kids)) && 4 + Size(kids) == n && PrintAll(kids) == a + b + c
    requires head == Header(FCC_LIST, n) + Le(form, 4)
    ensures Print(List(FCC_LIST, form, kids)) == head + a + b + c
  {
    Regroup3(head, a, b, c);
  }

  lemma {:induction false} Regroup3(a: seq<byte>, b: seq<byte>, c: seq<byte>, d: seq<byte>)
    ensures a + (b + c + d) == a + b + c + d
    ensures a + b + c + d == a + (b + (c + d))
  {
    assert a + (b + c + d) == a + (b + (c + d));
  }

  lemma {:induction false} AvihPrinted(d: Descr, supers: seq<seq<SuperEntry>>, avih: seq<byte>)
    requires Describable(d, supers) && avih == Header(FCC_AVIH, 56) + d.avih
    ensures GoodAll(Kids(d, supers, 0)) && PrintAll(Kids(d, supers, 0)) == avih
  {
    var c := Leaf(FCC_AVIH, d.avih);
    EvenLeaf(FCC_AVIH, d.avih);
    GoodSnoc([], c);
    assert [] + [c] == [c] && PrintAll([]) + Print(c) == Print(c);
  }

  lemma {:induction false} NextKid(d: Descr, supers: seq<seq<SuperEntry>>, n: nat, done: seq<byte>)
    requires Describable(d, supers) && n < |d.streams| && GoodAll(Kids(d, supers, n))
    requires Good(Strl(d.streams[n], IndxChunk(n, supers[n])))
    ensures GoodAll(Kids(d, supers, n + 1))
    ensures done + PrintAll(Kids(d, supers, n)) + Print(Strl(d.streams[n], IndxChunk(n, supers[n])))
            == done + PrintAll(Kids(d, supers, n + 1))
  {
    GoodSnoc(Kids(d, supers, n), Strl(d.streams[n], IndxChunk(n, supers[n])));
  }

  lemma {:induction false} OdmlPrinted(d: Descr, odml: seq<byte>)
    requires |d.dmlh| == 248
    requires odml == Header(FCC_LIST, 260) + Le(FCC_ODML, 4) + (Header(FCC_DMLH, 248) + d.dmlh)
    ensures Good(Odml(d)) && Print(Odml(d)) == odml
  {
    var c := Leaf(FCC_DMLH, d.dmlh);
    OdmlGood(d);
    EvenLeaf(FCC_DMLH, d.dmlh);
    GoodSnoc([], c);
    SizeSnoc([], c);
    assert [] + [c] == [c] && PrintAll([]) + Print(c) == Print(c);
  }

  lemma {:induction false} MiddlePieces(d: Descr, supers: seq<seq<SuperEntry>>, hdrl: seq<byte>, odml: seq<byte>)
    requires Describable(d, supers)
    requires hdrl == Header(FCC_LIST, MiddleSize(d) - 8) + Le(FCC_HDRL, 4)
    requires odml == Header(FCC_LIST, 260) + Le(FCC_ODML, 4) + (Header(FCC_DMLH, 248) + d.dmlh)
    ensures GoodAll(Kids(d, supers, |supers|))
    ensures Middle(d, supers) == hdrl + (PrintAll(Kids(d, supers, |supers|)) + odml)
  {
    HdrlGood(d, supers);
    KidsGood(d, supers, |supers|);
    OdmlPrinted(d, odml);
    ListPieces(FCC_HDRL, Kids(d, supers, |supers|), Odml(d));
  }

  lemma {:induction false} ListPieces(form: nat, kids: seq<Chunk>, c: Chunk)
    requires GoodAll(kids) && Good(c) && form < U32 && 4 + Size(kids) + SizeOf(c) < U32
    ensures Good(List(FCC_LIST, form, kids + [c]))
    ensures Print(List(FCC_LIST, form, kids + [c]))
            == Header(FCC_LIST, 4 + Size(kids) + SizeOf(c)) + Le(form, 4) + (PrintAll(kids) + Print(c))
  {
    GoodSnoc(kids, c);
    SizeSnoc(kids, c);
  }

  lemma {:induction false} HeadPieces(base: nat, end: nat, size: nat, mid: seq<byte>, first: seq<byte>, last: seq<byte>)
    requires |mid| + 24 == base <= end <= size <= INT_MAX
    requires first == Header(FCC_RIFF, size - 16) + Le(FCC_AVI, 4)
    requires last == Header(FCC_LIST, end - base + 4) + Le(FCC_MOVI, 4)
    ensures first + mid + last == Head(base, end, size, mid)
  {
    Regroup(first + mid, Header(FCC_LIST, end - base + 4), Le(FCC_MOVI, 4));
  }

  lemma {:induction false} Regroup(a: seq<byte>, b: seq<byte>, c: seq<byte>)
    ensures a + (b + c) == a + b + c
  {
  }

  lemma {:induction false} TailParts(p: Plan, header: seq<byte>, entries: seq<byte>)
    requires 16 * |p.idx1| < U32 - 1 && entries == OldBytes(p.idx1) && header == Header(FCC_IDX1, |entries|)
    ensures Tail(p) == header + entries + Zeros(8)
  {
    assert Pad(|entries|) == [];
  }
}
