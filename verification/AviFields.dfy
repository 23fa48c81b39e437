/** What the fields of the indexes and lists of a recorded file say, besides what a look-up needs. */
module AviFields {
  import opened Riff
  import opened AviIndex
  import opened AviLayout
  import opened AviFile
  import opened AviClose
  import opened AviRead
  import opened AviSuper
  import opened AviHeader
  import opened AviOld

  // ----- Identifiers -----

  lemma {:induction false} FccValue(c0: byte, c1: byte, c2: byte, c3: byte)
    ensures Fcc(c0, c1, c2, c3) == c0 + 0x100 * c1 + 0x1_0000 * c2 + 0x100_0000 * c3
  {
    assert [c0, c1, c2, c3][1..] == [c1, c2, c3] && [c1, c2, c3][1..] == [c2, c3] && [c2, c3][1..] == [c3];
    assert ReadLe([c3]) == c3;
    assert ReadLe([c2, c3]) == c2 + 256 * c3;
    assert ReadLe([c1, c2, c3]) == c1 + 256 * (c2 + 256 * c3);
  }

  /** A name of four characters. */
  function Named(c0: char, c1: char, c2: char, c3: char): nat
    requires c0 <= 'z' && c1 <= 'z' && c2 <= 'z' && c3 <= 'z'
  {
    Fcc(c0 as int, c1 as int, c2 as int, c3 as int)
  }

  lemma {:induction false} ListNames()
    ensures FCC_RIFF == Named('R', 'I', 'F', 'F') && FCC_AVI == Named('A', 'V', 'I', ' ')
    ensures FCC_HDRL == Named('h', 'd', 'r', 'l') && FCC_STRL == Named('s', 't', 'r', 'l')
    ensures FCC_ODML == Named('o', 'd', 'm', 'l') && FCC_MOVI == Named('m', 'o', 'v', 'i')
  {
    FccNames();
    FccValue(0x41, 0x56, 0x49, 0x20);
    FccValue(0x68, 0x64, 0x72, 0x6C);
    FccValue(0x73, 0x74, 0x72, 0x6C);
    FccValue(0x6F, 0x64, 0x6D, 0x6C);
    FccValue(0x6D, 0x6F, 0x76, 0x69);
  }

  lemma {:induction false} ChunkNames()
    ensures FCC_AVIH == Named('a', 'v', 'i', 'h') && FCC_DMLH == Named('d', 'm', 'l', 'h')
    ensures FCC_STRH == Named('s', 't', 'r', 'h') && FCC_STRF == Named('s', 't', 'r', 'f')
    ensures FCC_INDX == Named('i', 'n', 'd', 'x') && FCC_IDX1 == Named('i', 'd', 'x', '1')
    ensures FCC_7FXX == Named('7', 'F', 'x', 'x')
  {
    FccValue(0x61, 0x76, 0x69, 0x68);
    FccValue(0x73, 0x74, 0x72, 0x68);
    FccValue(0x73, 0x74, 0x72, 0x66);
    FccValue(0x69, 0x6E, 0x64, 0x78);
    FccValue(0x64, 0x6D, 0x6C, 0x68);
    FccValue(0x69, 0x64, 0x78, 0x31);
    FccValue(0x37, 0x46, 0x78, 0x78);
  }

  // ----- What both kinds of index begin with -----

  const INDEX_OF_INDEXES: nat := 0
  const INDEX_OF_CHUNKS: nat := 1

  /** The fields between a chunk header and what is particular to one kind of index. */
  datatype Meta = Meta(longs: nat, subType: nat, kind: nat, inUse: nat, id: nat)

  function ReadMeta(b: seq<byte>, at: nat): Meta
    requires at + 20 <= |b|
  {
    Meta(ReadLe(b[at + 8..at + 10]), b[at + 10], b[at + 11], Dword(b[at + 12..at + 16]), Dword(b[at + 16..at + 20]))
  }

  lemma {:induction false} WordRoundTrip(n: nat)
    requires n < 256
    ensures ReadLe(Le(n, 2)) == n
  {
    assert Power256(2) == 256 * Power256(1) && Power256(1) == 256;
    LeRoundTrip(n, 2);
  }

  lemma {:induction false} MetaReads(b: seq<byte>, at: nat, longs: nat, kind: byte, inUse: nat, id: nat,
                                     rest: seq<byte>)
    requires longs < 256 && inUse < U32 && id < U32
    requires FileHas(b, at + 8, Le(longs, 2) + [0, kind] + Le(inUse, 4) + (Le(id, 4) + rest))
    ensures at + 20 <= |b| && ReadMeta(b, at) == Meta(longs, 0, kind, inUse, id)
  {
    var x, y, z, w := Le(longs, 2), [0, kind], Le(inUse, 4), Le(id, 4);
    var all := x + y + z + (w + rest);
    MetaParts(x, y, z, w, rest);
    SubFile(b, at + 8, all, 0, 2);
    SubFile(b, at + 8, all, 2, 4);
    SubFile(b, at + 8, all, 4, 8);
    SubFile(b, at + 8, all, 8, 12);
    assert b[at + 10] == b[at + 10..at + 12][0] && b[at + 11] == b[at + 10..at + 12][1];
    WordRoundTrip(longs);
    DwordRoundTrip(inUse);
    DwordRoundTrip(id);
  }

  lemma {:induction false} MetaParts(x: seq<byte>, y: seq<byte>, z: seq<byte>, w: seq<byte>, rest: seq<byte>)
    requires |x| == 2 && |y| == 2 && |z| == 4 && |w| == 4
    ensures var all := x + y + z + (w + rest);
            |all| >= 12 && all[0..2] == x && all[2..4] == y && all[4..8] == z && all[8..12] == w
  {
    var all := x + y + z + (w + rest);
    assert all[0..2] == x && all[2..4] == y;
    assert all[4..8] == z && all[8..12] == w;
  }

  /** A standard index. */
  lemma {:induction false} StdMeta(b: seq<byte>, at: nat, s: nat, ix: StdIndex)
    requires s < MAX_STREAMS && |ix.entries| <= STD_ENTRIES
    requires Good(IxChunk(s, ix)) && FileHas(b, at, Print(IxChunk(s, ix)))
    ensures at + IX_BYTES <= |b| && HEADER + SizeAt(b, at) == IX_BYTES && Dword(b[at..at + 4]) == IxFcc(s)
    ensures ReadMeta(b, at) == Meta(2, 0, INDEX_OF_CHUNKS, |ix.entries|, DataFcc(s, true))
  {
    IxInFile(b, at, s, ix);
    ChunkReads(b, at, IxChunk(s, ix));
    var rest := Le(ix.base, 8) + Le(0, 4);
    assert IxHead(s, ix) == Le(2, 2) + [0, 1] + Le(|ix.entries|, 4) + (Le(DataFcc(s, true), 4) + rest);
    MetaReads(b, at, 2, 1, |ix.entries|, DataFcc(s, true), rest);
  }

  /** A super-index. */
  lemma {:induction false} SuperMeta(b: seq<byte>, at: nat, s: nat, super: seq<SuperEntry>)
    requires s < MAX_STREAMS && SuperFits(super) && FileHas(b, at, IndxBytes(s, super))
    ensures at + INDX_BYTES <= |b|
    ensures ReadMeta(b, at) == Meta(4, 0, INDEX_OF_INDEXES, |super|, DataFcc(s, true))
  {
    var head := SuperHead(s, |super|);
    SuperParts(b, at, s, super, head, SuperBytes(super) + Zeros(16 * (SUPER_ENTRIES - |super|)));
    var h, fields := Header(FCC_INDX, INDX_BYTES - HEADER),
        Le(4, 2) + [0, 0] + Le(|super|, 4) + (Le(DataFcc(s, true), 4) + Zeros(12));
    assert head == h + fields;
    SubFile(b, at, head, 8, 32);
    assert head[8..32] == fields;
    MetaReads(b, at, 4, 0, |super|, DataFcc(s, true), Zeros(12));
  }

  // ----- Sizes -----

  /** dwSize of entry i of the super-index at an offset. */
  function EntrySize(b: seq<byte>, at: nat, i: nat): nat
    requires at + 32 + 16 * i + 16 <= |b|
  {
    Dword(b[at + 32 + 16 * i + 8..at + 32 + 16 * i + 12])
  }

  lemma {:induction false} SizeInEntry(front: seq<byte>, off: seq<byte>, size: seq<byte>, dur: seq<byte>,
                                       more: seq<byte>)
    requires |off| == 8 && |size| == 4 && |dur| == 4
    ensures var all, n := front + (off + size + dur + more), |front|; all[n + 8..n + 12] == size
  {
    var all := front + (off + size + dur + more);
    assert all == (front + off) + size + (dur + more);
    ThreeParts(front + off, size, dur + more);
  }

  lemma {:induction false} SizeReads(super: seq<SuperEntry>, more: seq<byte>, i: nat)
    requires SuperFits(super) && i < |super|
    ensures Dword((SuperBytes(super) + more)[16 * i + 8..16 * i + 12]) == IX_BYTES
  {
    var n := |super| - 1;
    var e := super[n];
    var front, off, size, dur := SuperBytes(super[..n]), Le(e.qwOffset, 8), Le(IX_BYTES, 4), Le(e.dwDuration, 4);
    assert SuperBytes(super) + more == front + (off + size + dur + more);
    if i < n {
      SizeReads(super[..n], off + size + dur + more, i);
    } else {
      SizeInEntry(front, off, size, dur, more);
      DwordRoundTrip(IX_BYTES);
    }
  }

  lemma {:induction false} SizeRead(b: seq<byte>, at: nat, s: nat, super: seq<SuperEntry>, i: nat)
    requires s < MAX_STREAMS && SuperFits(super) && FileHas(b, at, IndxBytes(s, super)) && i < |super|
    ensures at + INDX_BYTES <= |b| && EntrySize(b, at, i) == IX_BYTES
  {
    var more := Zeros(16 * (SUPER_ENTRIES - |super|));
    SuperParts(b, at, s, super, SuperHead(s, |super|), SuperBytes(super) + more);
    SizeHere(b, at + 32, super, more, i);
  }

  lemma {:induction false} SizeHere(b: seq<byte>, at: nat, super: seq<SuperEntry>, more: seq<byte>, i: nat)
    requires SuperFits(super) && i < |super| && FileHas(b, at, SuperBytes(super) + more)
    ensures at + 16 * i + 12 <= |b| && Dword(b[at + 16 * i + 8..at + 16 * i + 12]) == IX_BYTES
  {
    SizeReads(super, more, i);
    SubFile(b, at, SuperBytes(super) + more, 16 * i + 8, 16 * i + 12);
  }

  // ----- In the file -----

  /** Entry n of the standard index at an offset, with entries that many bytes apart. */
  function LocationAt(b: seq<byte>, at: nat, stride: nat, n: nat): Location
    requires at + 32 <= |b| && at + 32 + stride * n + 8 <= |b|
  {
    var e := ReadEntry(b, at + 32 + stride * n);
    Location(ReadLe(b[at + 20..at + 28]) + e.dwOffset, SizeOfEntry(e), IsDelta(e))
  }

  /** The super-index at an offset: its kind, that its entries are as far apart as there are DWORDs in
      one, and that it names the key-frame chunks of the stream. */
  ghost predicate SuperRight(f: seq<byte>, at: nat, s: nat, q: nat)
    requires s < MAX_STREAMS
  {
    && at + INDX_BYTES <= |f| && q < |ReadSuper(f, at)|
    && var meta := ReadMeta(f, at);
       && meta.kind == INDEX_OF_INDEXES && meta.subType == 0 && meta.id == DataFcc(s, true)
       && meta.inUse == |ReadSuper(f, at)| && meta.longs == 4
       && ReadSuper(f, at)[q] == ReadSuperEntry(f, at + 32 + 4 * meta.longs * q)
  }

  /** Likewise for the standard index at an offset. */
  ghost predicate StdRight(f: seq<byte>, at: nat, s: nat, n: nat)
    requires s < MAX_STREAMS
  {
    && at + IX_BYTES <= |f| && Dword(f[at..at + 4]) == IxFcc(s)
    && var meta := ReadMeta(f, at);
       && meta.kind == INDEX_OF_CHUNKS && meta.subType == 0 && meta.id == DataFcc(s, true)
       && meta.inUse <= STD_ENTRIES && meta.longs == 2
       && (n < meta.inUse ==> ReadIndex(f, at, n) == Some(LocationAt(f, at, 4 * meta.longs, n)))
  }

  /** Both, for entry q of a super-index and entry n of the standard index it leads to; and the entry
      has the size of the chunk it leads to. */
  ghost predicate FieldsRight(f: seq<byte>, at: nat, s: nat, q: nat, n: nat)
    requires s < MAX_STREAMS
  {
    && SuperRight(f, at, s, q) && StdRight(f, ReadSuper(f, at)[q].qwOffset, s, n)
    && EntrySize(f, at, q) == HEADER + SizeAt(f, ReadSuper(f, at)[q].qwOffset)
  }

  lemma {:induction false} SuperIsRight(f: seq<byte>, at: nat, s: nat, super: seq<SuperEntry>, q: nat)
    requires s < MAX_STREAMS && SuperFits(super) && FileHas(f, at, IndxBytes(s, super)) && q < |super|
    ensures SuperRight(f, at, s, q)
  {
    SuperReads(f, at, s, super);
    SuperMeta(f, at, s, super);
  }

  lemma {:induction false} StdIsRight(f: seq<byte>, at: nat, s: nat, ix: StdIndex, n: nat)
    requires s < MAX_STREAMS && |ix.entries| <= STD_ENTRIES
    requires Good(IxChunk(s, ix)) && FileHas(f, at, Print(IxChunk(s, ix)))
    ensures StdRight(f, at, s, n) && HEADER + SizeAt(f, at) == IX_BYTES
  {
    StdMeta(f, at, s, ix);
    if n < |ix.entries| {
      StdStride(f, at, n);
    }
  }

  lemma {:induction false} StdStride(f: seq<byte>, at: nat, n: nat)
    requires at + IX_BYTES <= |f| && ReadMeta(f, at).longs == 2 && n < ReadMeta(f, at).inUse <= STD_ENTRIES
    ensures ReadIndex(f, at, n) == Some(LocationAt(f, at, 4 * ReadMeta(f, at).longs, n))
  {
  }

  lemma {:induction false} FieldsIn(f: seq<byte>, at: nat, s: nat, super: seq<SuperEntry>, q: nat, ix: StdIndex, n: nat)
    requires s < MAX_STREAMS && SuperFits(super) && FileHas(f, at, IndxBytes(s, super)) && q < |super|
    requires |ix.entries| <= STD_ENTRIES && Good(IxChunk(s, ix)) && FileHas(f, super[q].qwOffset, Print(IxChunk(s, ix)))
    ensures FieldsRight(f, at, s, q, n)
  {
    SuperReads(f, at, s, super);
    SuperIsRight(f, at, s, super, q);
    SizeRead(f, at, s, super, q);
    StdIsRight(f, super[q].qwOffset, s, ix, n);
  }

  /** In a settled recording the fields of every stream's super-index, and of the standard indexes of
      this recording, are right. */
  lemma {:induction false} FieldsTell(left: seq<Stream>, base: nat, events: seq<Event>, d: Descr, s: nat, q: nat,
                                      n: nat)
    requires Recordable(left, base, events, d) && Settled(left, events) && s < |left|
    requires |left[s].super| <= q < |Supers(left, base, events)[s]|
    ensures var f := Recorded(left, base, events, d);
            SuperIn(f, s).Some? && FieldsRight(f, SuperIn(f, s).value, s, q, n)
  {
    Describes(left, base, events, d);
    var f, supers := Recorded(left, base, events, d), Supers(left, base, events);
    var mid := Middle(d, supers);
    MuxedHas(left, base, events, mid);
    MuxedSealed(left, base, events, mid);
    var at := IndxFound(f, d, supers, s);
    var ix := StdFound(left, base, events, f, s, q);
    FieldsIn(f, at, s, supers[s], q, ix, n);
  }

  lemma {:induction false} StdFound(left: seq<Stream>, base: nat, events: seq<Event>, f: seq<byte>, s: nat, q: nat)
      returns (ix: StdIndex)
    requires Sealed(left, base, events, f) && s < |left| && |left[s].super| <= q < |Supers(left, base, events)[s]|
    ensures |ix.entries| <= STD_ENTRIES && s < MAX_STREAMS && Good(IxChunk(s, ix))
    ensures FileHas(f, Supers(left, base, events)[s][q].qwOffset, Print(IxChunk(s, ix)))
  {
    StreamSize(left, base, events, s);
    IndexStands(left, base, events, f, s, q);
    ix := Seg(Planned(left, base, events).streams[s], q);
  }

  /** The file says that it is one of this kind. */
  predicate IsAvi(f: seq<byte>) { |f| >= 12 && Dword(f[0..4]) == FCC_RIFF && Dword(f[8..12]) == FCC_AVI }

  lemma {:induction false} FileNamed(left: seq<Stream>, base: nat, events: seq<Event>, d: Descr)
    requires Recordable(left, base, events, d)
    ensures IsAvi(Recorded(left, base, events, d))
  {
    Describes(left, base, events, d);
    MuxedNamed(left, base, events, Middle(d, Supers(left, base, events)));
  }

  lemma {:induction false} MuxedNamed(left: seq<Stream>, base: nat, events: seq<Event>, mid: seq<byte>)
    requires Allowed(left, base, events, mid)
    ensures IsAvi(Muxed(left, base, events, mid))
  {
    var p, o := Planned(left, base, events), Written(left, base, events);
    MuxedReady(left, base, events, mid);
    ShutHead(p, o, HeadFor(p, o, base, mid), Tail(p));
    HeadNamed(Muxed(left, base, events, mid), base, p.size, EndOf(p, o), mid);
  }

  lemma {:induction false} HeadNamed(f: seq<byte>, base: nat, end: nat, size: nat, mid: seq<byte>)
    requires |mid| + 24 == base <= end && end - base + 4 < U32 && 16 <= size && size - 16 < U32
    requires FileHas(f, 0, Head(base, end, size, mid))
    ensures IsAvi(f)
  {
    HeadBegins(f, Le(FCC_RIFF, 4), Le(size - 16, 4), Le(FCC_AVI, 4),
               mid + (Header(FCC_LIST, end - base + 4) + Le(FCC_MOVI, 4)), Head(base, end, size, mid));
    DwordRoundTrip(FCC_RIFF);
    DwordRoundTrip(FCC_AVI);
  }

  lemma {:induction false} HeadBegins(f: seq<byte>, a: seq<byte>, b: seq<byte>, c: seq<byte>, rest: seq<byte>,
                                      head: seq<byte>)
    requires |a| == |b| == |c| == 4 && head == a + b + c + rest && FileHas(f, 0, head)
    ensures |f| >= 12 && f[0..4] == a && f[8..12] == c
  {
    assert head == (a + b) + c + rest;
    SubFile(f, 0, head, 0, 4);
    SubFile(f, 0, head, 8, 12);
  }

  // ----- The headers -----

  lemma {:induction false} FoundAt(f: seq<byte>, at: seq<nat>, fcc: nat, i: nat)
    requires i < |at| && IsChunk(f, at[i], fcc) && forall j :: 0 <= j < i ==> !IsChunk(f, at[j], fcc)
    ensures FirstChunk(f, at, fcc) == Some(at[i])
  {
    if i > 0 {
      assert !IsChunk(f, at[0], fcc);
      FoundAt(f, at[1..], fcc, i - 1);
    }
  }

  lemma {:induction false} FormAt(f: seq<byte>, at: seq<nat>, form: nat, i: nat)
    requires i < |at| && IsForm(f, at[i], form) && forall j :: 0 <= j < i ==> !IsForm(f, at[j], form)
    ensures NthForm(f, at, form, 0) == Some(at[i])
  {
    if i > 0 {
      assert !IsForm(f, at[0], form);
      FormAt(f, at[1..], form, i - 1);
    }
  }

  /** The first chunk with this identifier in the list at an offset has these data. */
  ghost predicate ListHas(f: seq<byte>, list: nat, fcc: nat, data: seq<byte>) {
    var at := FirstChunk(f, KidsAt(f, list), fcc);
    at.Some? && at.value + HEADER <= |f| && SizeAt(f, at.value) == |data| && FileHas(f, at.value + HEADER, data)
  }

  lemma {:induction false} LeafFound(f: seq<byte>, a: nat, form: nat, kids: seq<Chunk>, i: nat)
    requires Good(List(FCC_LIST, form, kids)) && FileHas(f, a, Print(List(FCC_LIST, form, kids)))
    requires i < |kids| && kids[i].Leaf? && forall j :: 0 <= j < i ==> kids[j].Leaf? && kids[j].fcc != kids[i].fcc
    ensures FirstChunk(f, KidsAt(f, a), kids[i].fcc) == Some(Starts(kids, a + 12)[i])
    ensures ListHas(f, a, kids[i].fcc, kids[i].data)
  {
    ListIn(f, a, form, kids);
    var at := Starts(kids, a + 12);
    forall j | 0 <= j <= i ensures IsChunk(f, at[j], kids[i].fcc) <==> j == i {
      KidIn(f, a + 12, kids, j);
      LeafIn(f, at[j], kids[j], kids[i].fcc, 0);
    }
    FoundAt(f, at, kids[i].fcc, i);
    KidIn(f, a + 12, kids, i);
    ChunkReads(f, at[i], kids[i]);
  }

  /** The list of stream s has the stream's header and then its format. */
  ghost predicate StreamTold(f: seq<byte>, info: StreamInfo, s: nat) {
    var strl := NthForm(f, KidsAt(f, 12), FCC_STRL, s);
    && strl.Some? && ListHas(f, strl.value, FCC_STRH, info.strh) && ListHas(f, strl.value, FCC_STRF, info.strf)
    && FirstChunk(f, KidsAt(f, strl.value), FCC_STRH).value < FirstChunk(f, KidsAt(f, strl.value), FCC_STRF).value
  }

  lemma {:induction false} StreamFound(f: seq<byte>, d: Descr, supers: seq<seq<SuperEntry>>, s: nat)
    requires Describable(d, supers) && s < |supers| && FileHas(f, 12, Middle(d, supers))
    ensures StreamTold(f, d.streams[s], s)
  {
    var a := StrlFound(f, d, supers, s);
    var kids := Strl(d.streams[s], IndxChunk(s, supers[s])).kids;
    LeafFound(f, a, FCC_STRL, kids, 0);
    LeafFound(f, a, FCC_STRL, kids, 1);
  }

  /** The header list begins with the main header, and ends with a list that has the extended one. */
  ghost predicate MainTold(f: seq<byte>, d: Descr) {
    var odml := NthForm(f, KidsAt(f, 12), FCC_ODML, 0);
    ListHas(f, 12, FCC_AVIH, d.avih) && odml.Some? && ListHas(f, odml.value, FCC_DMLH, d.dmlh)
  }

  lemma {:induction false} MainFound(f: seq<byte>, d: Descr, supers: seq<seq<SuperEntry>>)
    requires Describable(d, supers) && FileHas(f, 12, Middle(d, supers))
    ensures MainTold(f, d)
  {
    HdrlGood(d, supers);
    KidsGood(d, supers, |supers|);
    var kids := AllKids(d, supers);
    assert kids[0] == Leaf(FCC_AVIH, d.avih);
    LeafFound(f, 12, FCC_HDRL, kids, 0);
    var a := OdmlFound(f, d, supers);
    LeafFound(f, a, FCC_ODML, Odml(d).kids, 0);
  }

  lemma {:induction false} OdmlFound(f: seq<byte>, d: Descr, supers: seq<seq<SuperEntry>>) returns (a: nat)
    requires Describable(d, supers) && FileHas(f, 12, Middle(d, supers))
    ensures NthForm(f, KidsAt(f, 12), FCC_ODML, 0) == Some(a) && Good(Odml(d)) && FileHas(f, a, Print(Odml(d)))
  {
    HdrlIn(f, d, supers);
    KidKinds(d, supers);
    var kids, n := AllKids(d, supers), |supers| + 1;
    var at := Starts(kids, 24);
    forall j | 0 <= j < n ensures !IsForm(f, at[j], FCC_ODML) {
      if j == 0 {
        KidIn(f, 24, kids, 0);
        LeafIn(f, at[0], kids[0], 0, FCC_ODML);
      } else {
        FormIn(f, 24, kids, j, FCC_STRL);
      }
    }
    assert kids[n] == Odml(d);
    FormIn(f, 24, kids, n, FCC_ODML);
    FormAt(f, at, FCC_ODML, n);
    a := at[n];
  }

  /** Whatever the history, the headers a recording was given are found in the file. */
  lemma {:induction false} HeadersTold(left: seq<Stream>, base: nat, events: seq<Event>, d: Descr, s: nat)
    requires Recordable(left, base, events, d) && s < |left|
    ensures var f := Recorded(left, base, events, d); MainTold(f, d) && StreamTold(f, d.streams[s], s)
  {
    Describes(left, base, events, d);
    var f, supers := Recorded(left, base, events, d), Supers(left, base, events);
    MuxedHas(left, base, events, Middle(d, supers));
    MainFound(f, d, supers);
    StreamFound(f, d, supers, s);
  }

  /** The last eight bytes are zeros. */
  predicate ZerosLast(f: seq<byte>) { |f| >= 8 && f[|f| - 8..] == [0, 0, 0, 0, 0, 0, 0, 0] }

  lemma {:induction false} EndsInZeros(a: seq<byte>, b: seq<byte>, c: seq<byte>, tail: seq<byte>, f: seq<byte>)
    requires f == a + b + tail && tail == c + Zeros(8)
    ensures ZerosLast(f)
  {
    assert f == a + b + c + Zeros(8);
    assert f[|f| - 8..] == Zeros(8);
  }

  lemma {:induction false} MuxedZeros(left: seq<Stream>, base: nat, events: seq<Event>, mid: seq<byte>)
    requires Allowed(left, base, events, mid) && Settled(left, events)
    ensures ZerosLast(Muxed(left, base, events, mid))
  {
    var p, o := Planned(left, base, events), Written(left, base, events);
    MuxedExactly(left, base, events, mid);
    EndsInZeros(HeadFor(p, o, base, mid), PrintAll(Chunks(p, |p.slots|)), Print(Leaf(FCC_IDX1, OldBytes(p.idx1))),
                Tail(p), Muxed(left, base, events, mid));
  }

  lemma {:induction false} SealedRiff(left: seq<Stream>, base: nat, events: seq<Event>, f: seq<byte>)
    requires Sealed(left, base, events, f)
    ensures 24 <= |f| && (Next(f, 0) == |f| - 8 <==> base % 2 == 0)
  {
  }

  /** A settled recording ends with eight zeros, which the RIFF list does not count. */
  lemma {:induction false} ZerosBehind(left: seq<Stream>, base: nat, events: seq<Event>, mid: seq<byte>)
    requires Allowed(left, base, events, mid) && Settled(left, events)
    ensures var f := Muxed(left, base, events, mid);
            ZerosLast(f) && (Next(f, 0) == |f| - 8 <==> base % 2 == 0)
  {
    MuxedZeros(left, base, events, mid);
    MuxedSealed(left, base, events, mid);
    SealedRiff(left, base, events, Muxed(left, base, events, mid));
  }
}
