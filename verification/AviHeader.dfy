/** The headers of the file: their chunks, and how a reader who has nothing but the file gets through
    them to the super-indexes and to the movi list. */
module AviHeader {
  import opened Riff
  import opened AviOut
  import opened AviIndex
  import opened AviLayout
  import opened AviFile
  import opened AviClose
  import opened AviRead
  import opened AviSuper

  const FCC_HDRL: nat := 0x6C72_6468
  const FCC_AVIH: nat := 0x6869_7661
  const FCC_STRL: nat := 0x6C72_7473
  const FCC_STRH: nat := 0x6872_7473
  const FCC_STRF: nat := 0x6672_7473
  const FCC_ODML: nat := 0x6C6D_646F
  const FCC_DMLH: nat := 0x686C_6D64

  // ----- The chunks -----

  /** The data of a stream's header and of its format. */
  datatype StreamInfo = StreamInfo(strh: seq<byte>, strf: seq<byte>)

  /** What the headers say besides the super-indexes. */
  datatype Descr = Descr(avih: seq<byte>, streams: seq<StreamInfo>, dmlh: seq<byte>)

  /** Sizes are those of the structures; formats have an even size. */
  predicate DescrOk(d: Descr) {
    && |d.avih| == 56 && |d.dmlh| == 248 && |d.streams| <= MAX_STREAMS
    && forall s :: 0 <= s < |d.streams| ==> |d.streams[s].strh| == 56 && |d.streams[s].strf| % 2 == 0
  }

  /** Bytes of the lists of the first n streams. */
  function Before(d: Descr, n: nat): nat
    requires n <= |d.streams|
  {
    if n == 0 then 0 else Before(d, n - 1) + 84 + |d.streams[n - 1].strf| + INDX_BYTES
  }

  /** Bytes of the whole header list. */
  function MiddleSize(d: Descr): nat { 12 + 64 + Before(d, |d.streams|) + 268 }

  lemma {:induction false} BeforeGrows(d: Descr, m: nat, n: nat)
    requires m <= n <= |d.streams|
    ensures Before(d, m) <= Before(d, n)
    decreases n - m
  {
    if m < n {
      BeforeGrows(d, m, n - 1);
    }
  }

  function IndxChunk(s: nat, super: seq<SuperEntry>): (c: Chunk)
    requires s < MAX_STREAMS && SuperFits(super)
    ensures Good(c) && SizeOf(c) == INDX_BYTES
  {
    Leaf(FCC_INDX, IndxBytes(s, super)[HEADER..])
  }

  lemma {:induction false} IndxPrinted(s: nat, super: seq<SuperEntry>)
    requires s < MAX_STREAMS && SuperFits(super)
    ensures Print(IndxChunk(s, super)) == IndxBytes(s, super)
  {
    var b, h := IndxBytes(s, super), Header(FCC_INDX, INDX_BYTES - HEADER);
    IndxBegins(h, Le(4, 2) + [0, 0] , Le(|super|, 4), Le(DataFcc(s, true), 4) + Zeros(12), SuperBytes(super),
               Zeros(16 * (SUPER_ENTRIES - |super|)), b);
    assert Print(IndxChunk(s, super)) == h + b[HEADER..] + [];
  }

  lemma {:induction false} IndxBegins(h: seq<byte>, a: seq<byte>, n: seq<byte>, c: seq<byte>, e: seq<byte>,
                                      z: seq<byte>, b: seq<byte>)
    requires b == h + a + n + c + e + z && |h| == HEADER
    ensures b[..HEADER] == h && b == h + b[HEADER..]
  {
    assert b == h + (a + n + c + e + z);
  }

  /** The list of one stream. */
  function Strl(info: StreamInfo, indx: Chunk): Chunk {
    List(FCC_LIST, FCC_STRL, [Leaf(FCC_STRH, info.strh), Leaf(FCC_STRF, info.strf), indx])
  }

  lemma {:induction false} StrlGood(info: StreamInfo, indx: Chunk)
    requires Good(indx) && SizeOf(indx) == INDX_BYTES && |info.strh| == 56 && |info.strf| % 2 == 0
    requires 84 + |info.strf| + INDX_BYTES < U32
    ensures Good(Strl(info, indx)) && SizeOf(Strl(info, indx)) == 84 + |info.strf| + INDX_BYTES
  {
    var a, b := Leaf(FCC_STRH, info.strh), Leaf(FCC_STRF, info.strf);
    GoodSnoc([], a);
    GoodSnoc([a], b);
    GoodSnoc([a, b], indx);
    SizeSnoc([], a);
    SizeSnoc([a], b);
    SizeSnoc([a, b], indx);
    assert [] + [a] == [a] && [a] + [b] == [a, b] && [a, b] + [indx] == [a, b, indx];
  }

  function Odml(d: Descr): Chunk { List(FCC_LIST, FCC_ODML, [Leaf(FCC_DMLH, d.dmlh)]) }

  lemma {:induction false} OdmlGood(d: Descr)
    requires |d.dmlh| == 248
    ensures Good(Odml(d)) && SizeOf(Odml(d)) == 268
  {
    var a := Leaf(FCC_DMLH, d.dmlh);
    GoodSnoc([], a);
    SizeSnoc([], a);
    assert [] + [a] == [a];
  }

  predicate Describable(d: Descr, supers: seq<seq<SuperEntry>>) {
    DescrOk(d) && |d.streams| == |supers| && AllSupersFit(supers) && MiddleSize(d) < U32
  }

  /** The main header and the lists of the first n streams. */
  function Kids(d: Descr, supers: seq<seq<SuperEntry>>, n: nat): (cs: seq<Chunk>)
    requires n <= |d.streams| == |supers| && AllSupersFit(supers)
    ensures |cs| == n + 1
    ensures forall s :: 0 <= s < n ==> cs[s + 1] == Strl(d.streams[s], IndxChunk(s, supers[s]))
  {
    if n == 0 then [Leaf(FCC_AVIH, d.avih)]
    else Kids(d, supers, n - 1) + [Strl(d.streams[n - 1], IndxChunk(n - 1, supers[n - 1]))]
  }

  lemma {:induction false} KidsGood(d: Descr, supers: seq<seq<SuperEntry>>, n: nat)
    requires Describable(d, supers) && n <= |d.streams|
    ensures GoodAll(Kids(d, supers, n)) && Size(Kids(d, supers, n)) == 64 + Before(d, n)
    ensures Kids(d, supers, n)[0] == Leaf(FCC_AVIH, d.avih)
  {
    if n == 0 {
      var avih := Leaf(FCC_AVIH, d.avih);
      OneMoreGood([], avih);
      assert [] + [avih] == [avih];
    } else {
      KidsGood(d, supers, n - 1);
      var strl := Strl(d.streams[n - 1], IndxChunk(n - 1, supers[n - 1]));
      NthGood(d, supers, n - 1);
      OneMoreGood(Kids(d, supers, n - 1), strl);
    }
  }

  lemma {:induction false} OneMoreGood(kids: seq<Chunk>, c: Chunk)
    requires GoodAll(kids) && Good(c)
    ensures GoodAll(kids + [c]) && Size(kids + [c]) == Size(kids) + SizeOf(c)
  {
    GoodSnoc(kids, c);
    SizeSnoc(kids, c);
  }

  lemma {:induction false} NthGood(d: Descr, supers: seq<seq<SuperEntry>>, n: nat)
    requires Describable(d, supers) && n < |d.streams|
    ensures var c := Strl(d.streams[n], IndxChunk(n, supers[n]));
            Good(c) && SizeOf(c) == 84 + |d.streams[n].strf| + INDX_BYTES
  {
    BeforeGrows(d, n + 1, |d.streams|);
    StrlGood(d.streams[n], IndxChunk(n, supers[n]));
  }

  function AllKids(d: Descr, supers: seq<seq<SuperEntry>>): (cs: seq<Chunk>)
    requires |d.streams| == |supers| && AllSupersFit(supers)
    ensures |cs| == |supers| + 2
  {
    Kids(d, supers, |supers|) + [Odml(d)]
  }

  function Hdrl(d: Descr, supers: seq<seq<SuperEntry>>): Chunk
    requires |d.streams| == |supers| && AllSupersFit(supers)
  {
    List(FCC_LIST, FCC_HDRL, AllKids(d, supers))
  }

  lemma {:induction false} HdrlGood(d: Descr, supers: seq<seq<SuperEntry>>)
    requires Describable(d, supers)
    ensures GoodAll(AllKids(d, supers)) && Good(Hdrl(d, supers)) && SizeOf(Hdrl(d, supers)) == MiddleSize(d)
  {
    KidsGood(d, supers, |supers|);
    OdmlGood(d);
    GoodSnoc(Kids(d, supers, |supers|), Odml(d));
    SizeSnoc(Kids(d, supers, |supers|), Odml(d));
  }

  /** What lies between the head of the file and the head of the movi list. */
  function Middle(d: Descr, supers: seq<seq<SuperEntry>>): (b: seq<byte>)
    requires Describable(d, supers)
    ensures |b| == MiddleSize(d)
  {
    HdrlGood(d, supers);
    Print(Hdrl(d, supers))
  }

  // ----- The reader -----

  /** At this offset there is a list of this form. */
  predicate IsForm(f: seq<byte>, a: nat, form: nat) {
    a + 12 <= |f| && Dword(f[a..a + 4]) == FCC_LIST && Dword(f[a + 8..a + 12]) == form
  }

  predicate IsChunk(f: seq<byte>, a: nat, fcc: nat) { a + 4 <= |f| && Dword(f[a..a + 4]) == fcc }

  /** The n-th list of a form among the chunks at some offsets. */
  function NthForm(f: seq<byte>, at: seq<nat>, form: nat, n: nat): Option<nat> {
    if at == [] then None
    else if !IsForm(f, at[0], form) then NthForm(f, at[1..], form, n)
    else if n == 0 then Some(at[0])
    else NthForm(f, at[1..], form, n - 1)
  }

  /** The first chunk with an identifier. */
  function FirstChunk(f: seq<byte>, at: seq<nat>, fcc: nat): Option<nat> {
    if at == [] then None
    else if IsChunk(f, at[0], fcc) then Some(at[0])
    else FirstChunk(f, at[1..], fcc)
  }

  /** What RIFFNEXT visits inside the list at an offset. */
  function KidsAt(f: seq<byte>, a: nat): seq<nat> {
    if a + 12 <= |f| && Next(f, a) <= |f| then Walk(f, a + 12, Next(f, a)) else []
  }

  /** The super-index of stream s: the header list comes first in the file, in it the s-th list of a
      stream is found, and in that the index. */
  function SuperIn(f: seq<byte>, s: nat): Option<nat> {
    var strl := NthForm(f, KidsAt(f, 12), FCC_STRL, s);
    if strl.None? then None else FirstChunk(f, KidsAt(f, strl.value), FCC_INDX)
  }

  /** Where the chunks of the movi list begin. */
  function MoviIn(f: seq<byte>): Option<nat> {
    var movi := NthForm(f, if |f| < 12 then [] else Walk(f, 12, |f|), FCC_MOVI, 0);
    if movi.None? then None else Some(movi.value + 12)
  }

  /** Sample n of stream s: the headers lead to a super-index, that to a standard index, and that to
      the sample. */
  function FindSample(f: seq<byte>, s: nat, n: nat): Option<Location> {
    var at := SuperIn(f, s);
    if at.None? then None else Find(f, ReadSuper(f, at.value), n)
  }

  // ----- It finds its way -----

  lemma {:induction false} Within(f: seq<byte>, at: nat, x: seq<byte>, to: nat, y: seq<byte>)
    requires FileHas(f, at, x) && FileHas(x, to, y)
    ensures FileHas(f, at + to, y)
  {
    SubFile(f, at, x, to, to + |y|);
  }

  lemma {:induction false} TwoIn(f: seq<byte>, at: nat, x: seq<byte>, y: seq<byte>)
    requires FileHas(f, at, x + y)
    ensures FileHas(f, at, x) && FileHas(f, at + |x|, y)
  {
    SubFile(f, at, x + y, 0, |x|);
    SubFile(f, at, x + y, |x|, |x| + |y|);
    assert (x + y)[0..|x|] == x && (x + y)[|x|..|x| + |y|] == y;
  }

  /** The head of a list read in the file, and on its own. */
  lemma {:induction false} HeadIn(f: seq<byte>, a: nat, b: seq<byte>, form: nat)
    requires FileHas(f, a, b) && 12 <= |b| && Dword(b[..4]) == FCC_LIST && Dword(b[8..12]) == form
    ensures IsForm(f, a, form) && Next(f, a) == a + Next(b, 0)
  {
    SubFile(f, a, b, 0, 4);
    SubFile(f, a, b, 8, 12);
    SizeAtSlice(f, a, a + |b|);
  }

  lemma {:induction false} ListPrinted(form: nat, kids: seq<Chunk>)
    requires Good(List(FCC_LIST, form, kids))
    ensures var b := Print(List(FCC_LIST, form, kids));
            && Dword(b[..4]) == FCC_LIST && Dword(b[8..12]) == form && Next(b, 0) == |b|
            && b == b[..12] + PrintAll(kids)
  {
    var b := Print(List(FCC_LIST, form, kids));
    assert b + [] == b;
    ListHeader(FCC_LIST, form, kids, []);
    ListBody(FCC_LIST, form, kids, []);
  }

  lemma {:induction false} WalkIn(f: seq<byte>, p: nat, kids: seq<Chunk>)
    requires GoodAll(kids) && FileHas(f, p, PrintAll(kids))
    ensures Walk(f, p, p + Size(kids)) == Starts(kids, p)
  {
    WalkVisits(f, p, p + Size(kids), kids);
  }

  lemma {:induction false} ListAt(f: seq<byte>, a: nat, form: nat, kids: seq<Chunk>, b: seq<byte>)
    requires Good(List(FCC_LIST, form, kids)) && b == Print(List(FCC_LIST, form, kids)) && FileHas(f, a, b)
    ensures IsForm(f, a, form) && Next(f, a) == a + 12 + Size(kids) <= |f|
    ensures FileHas(f, a + 12, PrintAll(kids))
  {
    ListPrinted(form, kids);
    HeadIn(f, a, b, form);
    TwoIn(f, a, b[..12], PrintAll(kids));
  }

  /** A list in a file: its head, and what a walk inside visits. */
  lemma {:induction false} ListIn(f: seq<byte>, a: nat, form: nat, kids: seq<Chunk>)
    requires Good(List(FCC_LIST, form, kids)) && FileHas(f, a, Print(List(FCC_LIST, form, kids)))
    ensures IsForm(f, a, form) && Next(f, a) == a + 12 + Size(kids) <= |f|
    ensures FileHas(f, a + 12, PrintAll(kids)) && KidsAt(f, a) == Starts(kids, a + 12)
  {
    ListAt(f, a, form, kids, Print(List(FCC_LIST, form, kids)));
    WalkIn(f, a + 12, kids);
  }

  /** Each of the chunks printed one after the other is at its start. */
  lemma {:induction false} KidIn(f: seq<byte>, p: nat, kids: seq<Chunk>, i: nat)
    requires GoodAll(kids) && FileHas(f, p, PrintAll(kids)) && i < |kids|
    ensures Good(kids[i]) && FileHas(f, Starts(kids, p)[i], Print(kids[i]))
    decreases kids
  {
    TwoIn(f, p, Print(kids[0]), PrintAll(kids[1..]));
    if i > 0 {
      KidIn(f, p + SizeOf(kids[0]), kids[1..], i - 1);
    }
  }

  lemma {:induction false} LeafIn(f: seq<byte>, a: nat, c: Chunk, fcc: nat, form: nat)
    requires Good(c) && c.Leaf? && FileHas(f, a, Print(c))
    ensures IsChunk(f, a, fcc) <==> c.fcc == fcc
    ensures !IsForm(f, a, form)
  {
    ChunkReads(f, a, c);
  }

  lemma {:induction false} FormsNth(f: seq<byte>, at: seq<nat>, form: nat, n: nat)
    requires n < |at| && forall i :: 0 <= i <= n ==> IsForm(f, at[i], form)
    ensures NthForm(f, at, form, n) == Some(at[n])
  {
    if n > 0 {
      assert forall i :: 0 <= i <= n - 1 ==> at[1..][i] == at[i + 1];
      FormsNth(f, at[1..], form, n - 1);
    }
  }

  /** One of the lists of streams. */
  lemma {:induction false} FormIn(f: seq<byte>, p: nat, kids: seq<Chunk>, i: nat, form: nat)
    requires GoodAll(kids) && FileHas(f, p, PrintAll(kids)) && i < |kids|
    requires kids[i].List? && kids[i].fcc == FCC_LIST && kids[i].form == form
    ensures Good(kids[i]) && FileHas(f, Starts(kids, p)[i], Print(kids[i])) && IsForm(f, Starts(kids, p)[i], form)
  {
    KidIn(f, p, kids, i);
    ListIn(f, Starts(kids, p)[i], form, kids[i].kids);
  }

  /** Behind a first chunk that is no list, the lists are counted. */
  lemma {:induction false} FormFound(f: seq<byte>, p: nat, kids: seq<Chunk>, n: nat, form: nat)
    requires GoodAll(kids) && FileHas(f, p, PrintAll(kids)) && n + 1 < |kids| && kids[0].Leaf?
    requires forall i :: 1 <= i <= n + 1 ==> kids[i].List? && kids[i].fcc == FCC_LIST && kids[i].form == form
    ensures NthForm(f, Starts(kids, p), form, n) == Some(Starts(kids, p)[n + 1])
    ensures Good(kids[n + 1]) && FileHas(f, Starts(kids, p)[n + 1], Print(kids[n + 1]))
  {
    var at := Starts(kids, p);
    KidIn(f, p, kids, 0);
    LeafIn(f, at[0], kids[0], 0, form);
    forall i | 0 <= i <= n ensures IsForm(f, at[1..][i], form) {
      FormIn(f, p, kids, i + 1, form);
    }
    FormsNth(f, at[1..], form, n);
    FormIn(f, p, kids, n + 1, form);
  }

  lemma {:induction false} HdrlIn(f: seq<byte>, d: Descr, supers: seq<seq<SuperEntry>>)
    requires Describable(d, supers) && FileHas(f, 12, Middle(d, supers))
    ensures IsForm(f, 12, FCC_HDRL) && Next(f, 12) == 12 + MiddleSize(d)
    ensures GoodAll(AllKids(d, supers)) && FileHas(f, 24, PrintAll(AllKids(d, supers)))
    ensures KidsAt(f, 12) == Starts(AllKids(d, supers), 24)
  {
    HdrlGood(d, supers);
    ListIn(f, 12, FCC_HDRL, AllKids(d, supers));
  }

  lemma {:induction false} KidKinds(d: Descr, supers: seq<seq<SuperEntry>>)
    requires Describable(d, supers)
    ensures AllKids(d, supers)[0].Leaf?
    ensures forall i :: 1 <= i <= |supers| ==>
              AllKids(d, supers)[i] == Strl(d.streams[i - 1], IndxChunk(i - 1, supers[i - 1]))
  {
    KidsGood(d, supers, |supers|);
    var kids := Kids(d, supers, |supers|);
    forall i | 1 <= i <= |supers|
      ensures AllKids(d, supers)[i] == Strl(d.streams[i - 1], IndxChunk(i - 1, supers[i - 1]))
    {
      assert kids[i - 1 + 1] == kids[i];
    }
  }

  /** The list of stream s is found. */
  lemma {:induction false} StrlFound(f: seq<byte>, d: Descr, supers: seq<seq<SuperEntry>>, s: nat) returns (a: nat)
    requires Describable(d, supers) && s < |supers| && FileHas(f, 12, Middle(d, supers))
    ensures NthForm(f, KidsAt(f, 12), FCC_STRL, s) == Some(a)
    ensures var c := Strl(d.streams[s], IndxChunk(s, supers[s])); Good(c) && FileHas(f, a, Print(c))
  {
    var kids := AllKids(d, supers);
    HdrlIn(f, d, supers);
    KidKinds(d, supers);
    FormFound(f, 24, kids, s, FCC_STRL);
    a := Starts(kids, 24)[s + 1];
  }

  lemma {:induction false} FirstOfThree(f: seq<byte>, at: seq<nat>, fcc: nat)
    requires |at| == 3 && !IsChunk(f, at[0], fcc) && !IsChunk(f, at[1], fcc) && IsChunk(f, at[2], fcc)
    ensures FirstChunk(f, at, fcc) == Some(at[2])
  {
    assert at[1..][0] == at[1] && at[1..][1..][0] == at[2];
    assert FirstChunk(f, at[1..][1..], fcc) == Some(at[2]);
  }

  /** In a list of three chunks the third is found by its identifier. */
  lemma {:induction false} ThirdFound(f: seq<byte>, a: nat, form: nat, kids: seq<Chunk>) returns (at: nat)
    requires |kids| == 3 && kids[0].Leaf? && kids[1].Leaf? && kids[2].Leaf?
    requires kids[0].fcc != kids[2].fcc && kids[1].fcc != kids[2].fcc
    requires Good(List(FCC_LIST, form, kids)) && FileHas(f, a, Print(List(FCC_LIST, form, kids)))
    ensures FirstChunk(f, KidsAt(f, a), kids[2].fcc) == Some(at) && Good(kids[2]) && FileHas(f, at, Print(kids[2]))
  {
    ListIn(f, a, form, kids);
    var starts := Starts(kids, a + 12);
    KidIn(f, a + 12, kids, 0);
    KidIn(f, a + 12, kids, 1);
    KidIn(f, a + 12, kids, 2);
    LeafIn(f, starts[0], kids[0], kids[2].fcc, 0);
    LeafIn(f, starts[1], kids[1], kids[2].fcc, 0);
    LeafIn(f, starts[2], kids[2], kids[2].fcc, 0);
    FirstOfThree(f, starts, kids[2].fcc);
    at := starts[2];
  }

  lemma {:induction false} IndxFound(f: seq<byte>, d: Descr, supers: seq<seq<SuperEntry>>, s: nat) returns (at: nat)
    requires Describable(d, supers) && s < |supers| && FileHas(f, 12, Middle(d, supers))
    ensures SuperIn(f, s) == Some(at) && FileHas(f, at, IndxBytes(s, supers[s]))
  {
    var a := StrlFound(f, d, supers, s);
    at := ThirdFound(f, a, FCC_STRL, Strl(d.streams[s], IndxChunk(s, supers[s])).kids);
    IndxPrinted(s, supers[s]);
  }

  /** Through the headers RIFFNEXT leads to the super-index of every stream. */
  lemma {:induction false} SuperFound(f: seq<byte>, d: Descr, supers: seq<seq<SuperEntry>>, s: nat)
    requires Describable(d, supers) && s < |supers| && FileHas(f, 12, Middle(d, supers))
    ensures SuperIn(f, s).Some? && ReadSuper(f, SuperIn(f, s).value) == supers[s]
  {
    var at := IndxFound(f, d, supers, s);
    SuperReads(f, at, s, supers[s]);
  }

  // ----- The file that a history leaves -----

  /** A history that the multiplexer has room for, and headers that end where the movi list begins. */
  ghost predicate Recordable(left: seq<Stream>, base: nat, events: seq<Event>, d: Descr) {
    RoomFor(left, base, events) && DescrOk(d) && |d.streams| == |left| && MiddleSize(d) + 24 == base
  }

  lemma {:induction false} Describes(left: seq<Stream>, base: nat, events: seq<Event>, d: Descr)
    requires Recordable(left, base, events, d)
    ensures Describable(d, Supers(left, base, events))
    ensures Allowed(left, base, events, Middle(d, Supers(left, base, events)))
  {
    HistoryFits(left, base, events);
    BasesBelow(left, base, events);
  }

  lemma {:induction false} BasesBelow(left: seq<Stream>, base: nat, events: seq<Event>)
    requires LeftOk(left) && EventsOk(|left|, events)
    ensures base <= Planned(left, base, events).size
  {
    PlanSize(left, base, events);
  }

  /** The whole file, super-indexes included. */
  ghost function Recorded(left: seq<Stream>, base: nat, events: seq<Event>, d: Descr): seq<byte>
    requires Recordable(left, base, events, d)
  {
    Describes(left, base, events, d);
    Muxed(left, base, events, Middle(d, Supers(left, base, events)))
  }

  lemma {:induction false} HeadHolds(base: nat, end: nat, size: nat, mid: seq<byte>)
    requires |mid| + 24 == base <= end && end - base + 4 < U32 && 16 <= size && size - 16 < U32
    ensures FileHas(Head(base, end, size, mid), 12, mid)
    ensures FileHas(Head(base, end, size, mid), base - 12, Header(FCC_LIST, end - base + 4))
    ensures FileHas(Head(base, end, size, mid), base - 4, Le(FCC_MOVI, 4))
  {
    HeadSplits(Header(FCC_RIFF, size - 16) + Le(FCC_AVI, 4), mid, Header(FCC_LIST, end - base + 4), Le(FCC_MOVI, 4));
  }

  lemma {:induction false} HeadSplits(a: seq<byte>, b: seq<byte>, c: seq<byte>, d: seq<byte>)
    ensures var f := a + b + c + d;
            FileHas(f, |a|, b) && FileHas(f, |a| + |b|, c) && FileHas(f, |a| + |b| + |c|, d)
  {
    var f := a + b + c + d;
    assert f == a + (b + (c + d));
    TwoIn(f, 0, a, b + (c + d));
    TwoIn(f, |a|, b, c + d);
    TwoIn(f, |a| + |b|, c, d);
  }

  /** Whatever the history, the headers are at the beginning of the file. */
  lemma {:induction false} MuxedHas(left: seq<Stream>, base: nat, events: seq<Event>, mid: seq<byte>)
    requires Allowed(left, base, events, mid)
    ensures var f := Muxed(left, base, events, mid);
            FileHas(f, 12, mid) && base <= |f| && IsForm(f, base - 12, FCC_MOVI)
  {
    var p, o := Planned(left, base, events), Written(left, base, events);
    MuxedReady(left, base, events, mid);
    ShutHead(p, o, HeadFor(p, o, base, mid), Tail(p));
    HeadLeads(Muxed(left, base, events, mid), base, p.size, EndOf(p, o), mid);
  }

  lemma {:induction false} HeadLeads(f: seq<byte>, base: nat, end: nat, size: nat, mid: seq<byte>)
    requires |mid| + 24 == base <= end && end - base + 4 < U32 && 16 <= size && size - 16 < U32
    requires FileHas(f, 0, Head(base, end, size, mid))
    ensures FileHas(f, 12, mid) && base <= |f| && IsForm(f, base - 12, FCC_MOVI)
  {
    HeadHolds(base, end, size, mid);
    MoviHead(f, Head(base, end, size, mid), base, end - base + 4, mid);
  }

  lemma {:induction false} MoviHead(f: seq<byte>, head: seq<byte>, base: nat, cb: nat, mid: seq<byte>)
    requires FileHas(f, 0, head) && |head| == base && 24 <= base && cb < U32 && FileHas(head, 12, mid)
    requires FileHas(head, base - 12, Header(FCC_LIST, cb)) && FileHas(head, base - 4, Le(FCC_MOVI, 4))
    ensures FileHas(f, 12, mid) && base <= |f| && IsForm(f, base - 12, FCC_MOVI)
  {
    Within(f, 0, head, 12, mid);
    Within(f, 0, head, base - 12, Header(FCC_LIST, cb));
    Within(f, 0, head, base - 4, Le(FCC_MOVI, 4));
    FormHere(f, base - 12, cb, FCC_MOVI, Le(FCC_MOVI, 4));
  }

  lemma {:induction false} FormHere(f: seq<byte>, at: nat, cb: nat, form: nat, bytes: seq<byte>)
    requires cb < U32 && form < U32 && bytes == Le(form, 4)
    requires FileHas(f, at, Header(FCC_LIST, cb)) && FileHas(f, at + 8, bytes)
    ensures IsForm(f, at, form)
  {
    TwoIn(f, at, Le(FCC_LIST, 4), Le(cb, 4));
    DwordRoundTrip(FCC_LIST);
    DwordRoundTrip(form);
  }

  /** The movi list is found behind the header list. */
  lemma {:induction false} MoviFound(f: seq<byte>, d: Descr, supers: seq<seq<SuperEntry>>, base: nat)
    requires Describable(d, supers) && FileHas(f, 12, Middle(d, supers)) && MiddleSize(d) + 24 == base <= |f|
    requires IsForm(f, base - 12, FCC_MOVI)
    ensures MoviIn(f) == Some(base)
  {
    HdrlIn(f, d, supers);
    SecondFound(f, base);
  }

  lemma {:induction false} SecondFound(f: seq<byte>, base: nat)
    requires 24 <= base <= |f| && IsForm(f, 12, FCC_HDRL) && Next(f, 12) == base - 12 && IsForm(f, base - 12, FCC_MOVI)
    ensures MoviIn(f) == Some(base)
  {
    var rest := Walk(f, base - 12, |f|);
    assert Walk(f, 12, |f|) == [12] + rest;
    assert NthForm(f, rest, FCC_MOVI, 0) == Some(base - 12);
    assert !IsForm(f, 12, FCC_MOVI) && ([12] + rest)[1..] == rest;
    assert NthForm(f, [12] + rest, FCC_MOVI, 0) == Some(base - 12);
  }

  /** Whatever the history, a reader gets from the file to the movi list and to the super-indexes. */
  lemma {:induction false} HeadersLeadOn(left: seq<Stream>, base: nat, events: seq<Event>, d: Descr, s: nat)
    requires Recordable(left, base, events, d) && s < |left|
    ensures var f := Recorded(left, base, events, d);
            && MoviIn(f) == Some(base)
            && SuperIn(f, s).Some? && ReadSuper(f, SuperIn(f, s).value) == Supers(left, base, events)[s]
  {
    Describes(left, base, events, d);
    var f, supers := Recorded(left, base, events, d), Supers(left, base, events);
    MuxedHas(left, base, events, Middle(d, supers));
    MoviFound(f, d, supers, base);
    SuperFound(f, d, supers, s);
  }

  /** For every interleaving of samples of any number of streams that leaves the output at the end of
      the file, and for every stream that had no samples in earlier recordings: a reader of the file
      alone, whom RIFFNEXT leads through the headers to the stream's super-index, and the indexes to
      the sample, finds what a walk over the movi list finds, for every sample with data. */
  lemma {:induction false} FileTellsTheSame(left: seq<Stream>, base: nat, events: seq<Event>, d: Descr, s: nat, n: nat)
    requires Recordable(left, base, events, d) && Settled(left, events) && s < |left| && left[s].length == 0
    requires n < |Sub(events, s)| && !Sub(events, s)[n].dropped
    ensures var f := Recorded(left, base, events, d);
            var r := FindSample(f, s, n);
            && MoviIn(f) == Some(base) && r.Some?
            && Agrees(f, base, s, Rank(Sub(events, s)[..n]), SlotOf(left, base, events, s, n), r.value,
                      Sub(events, s)[n])
  {
    Describes(left, base, events, d);
    HeadersLeadOn(left, base, events, d, s);
    WalkAndIndexAgree(left, base, events, Middle(d, Supers(left, base, events)), s, n);
  }
}
