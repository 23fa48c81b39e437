/** RIFF chunks: their layout, and walking over them with RIFFNEXT. */
module Riff {

  type byte = x: int | 0 <= x < 256
  const U32: int := 0x1_0000_0000

  datatype Option<+T> = None | Some(value: T)

  // ----- 32-bit numbers -----

  /** The k low bytes of a number as they lie in the file, lowest first. */
  function Le(n: nat, k: nat): (b: seq<byte>)
    ensures |b| == k
  {
    if k == 0 then [] else [n % 256] + Le(n / 256, k - 1)
  }

  function ReadLe(b: seq<byte>): nat {
    if b == [] then 0 else b[0] + 256 * ReadLe(b[1..])
  }

  function Power256(k: nat): (r: nat)
    ensures r >= 1
  {
    if k == 0 then 1 else 256 * Power256(k - 1)
  }

  lemma {:induction false} LeRoundTrip(n: nat, k: nat)
    requires n < Power256(k)
    ensures ReadLe(Le(n, k)) == n
  {
    if k > 0 {
      LeRoundTrip(n / 256, k - 1);
      assert Le(n, k)[1..] == Le(n / 256, k - 1);
    }
  }

  lemma {:induction false} ReadLeBound(b: seq<byte>)
    ensures ReadLe(b) < Power256(|b|)
  {
    if b != [] {
      ReadLeBound(b[1..]);
    }
  }

  lemma {:induction false} LowByte(low: byte, high: nat)
    ensures (low + 256 * high) / 256 == high && (low + 256 * high) % 256 == low
  {
  }

  lemma {:induction false} ReadLeRoundTrip(b: seq<byte>)
    ensures Le(ReadLe(b), |b|) == b
  {
    if b != [] {
      var n, high := ReadLe(b), ReadLe(b[1..]);
      LowByte(b[0], high);
      assert Le(n, |b|) == [b[0]] + Le(high, |b[1..]|);
      ReadLeRoundTrip(b[1..]);
    }
  }

  lemma {:induction false} Power256Four()
    ensures Power256(4) == U32
  {
    assert Power256(1) == 256 && Power256(2) == 65536 && Power256(3) == 16777216;
  }

  /** A DWORD field. */
  function Dword(b: seq<byte>): (n: nat)
    requires |b| == 4
    ensures n < U32
  {
    ReadLeBound(b);
    Power256Four();
    ReadLe(b)
  }

  lemma {:induction false} DwordRoundTrip(n: nat)
    requires n < U32
    ensures Dword(Le(n, 4)) == n
  {
    Power256Four();
    LeRoundTrip(n, 4);
  }

  /** FCC. */
  function Fcc(c0: byte, c1: byte, c2: byte, c3: byte): (n: nat)
    ensures n < U32
    ensures Le(n, 4) == [c0, c1, c2, c3]
  {
    ReadLeRoundTrip([c0, c1, c2, c3]);
    Dword([c0, c1, c2, c3])
  }

  const FCC_LIST: nat := 0x5453_494C
  const FCC_RIFF: nat := 0x4646_4952

  /** The two constants are the characters LIST and RIFF. */
  lemma {:induction false} FccNames()
    ensures Fcc(0x4C, 0x49, 0x53, 0x54) == FCC_LIST
    ensures Fcc(0x52, 0x49, 0x46, 0x46) == FCC_RIFF
  {
    assert ReadLe([0x54]) == 0x54 && ReadLe([0x53, 0x54]) == 0x5453 && ReadLe([0x49, 0x53, 0x54]) == 0x545349;
    assert ReadLe([0x46]) == 0x46 && ReadLe([0x46, 0x46]) == 0x4646 && ReadLe([0x49, 0x46, 0x46]) == 0x464649;
  }

  // ----- RIFFROUND and RIFFNEXT -----

  const HEADER := 8

  /** RIFFROUND, in DWORD arithmetic. */
  function Round(cb: nat): (r: nat)
    requires cb < U32
    ensures r % 2 == 0 && r < U32
  {
    (cb + cb % 2) % U32
  }

  /** Rounding gives the least even number not below the size, and fails to exactly for the one
      size that wraps round. */
  lemma {:induction false} RoundExactly(cb: nat)
    requires cb < U32
    ensures (cb <= Round(cb) && forall e: nat :: e % 2 == 0 && cb <= e ==> Round(cb) <= e) <==> cb != 0xFFFF_FFFF
  {
    if cb == 0xFFFF_FFFF {
      assert Round(cb) == 0;
    } else {
      assert Round(cb) == cb + cb % 2;
      forall e: nat | e % 2 == 0 && cb <= e ensures Round(cb) <= e {
        if cb % 2 == 1 {
          assert e != cb;
        }
      }
    }
  }

  /** The size field of the chunk at offset p. */
  function SizeAt(b: seq<byte>, p: nat): (cb: nat)
    requires p + HEADER <= |b|
    ensures cb < U32
  {
    Dword(b[p + 4..p + 8])
  }

  /** RIFFNEXT. */
  function Next(b: seq<byte>, p: nat): (q: nat)
    requires p + HEADER <= |b|
    ensures q >= p + HEADER
  {
    p + HEADER + Round(SizeAt(b, p))
  }

  /** The offsets a loop of RIFFNEXT visits, while a whole header is left before the end. */
  function Walk(b: seq<byte>, p: nat, end: nat): (at: seq<nat>)
    requires end <= |b|
    decreases |b| + HEADER - p
  {
    if p + HEADER > end then [] else [p] + Walk(b, Next(b, p), end)
  }

  /** Over any bytes, a walk from an even offset stays at even offsets inside the bytes, goes
      forward by a header at least, and ends after at most an eighth as many steps as bytes. */
  lemma {:induction false} WalkIsTame(b: seq<byte>, p: nat, end: nat)
    requires end <= |b| && p % 2 == 0
    ensures var at := Walk(b, p, end);
            && (forall i :: 0 <= i < |at| ==> at[i] % 2 == 0 && p <= at[i] && at[i] + HEADER <= end)
            && (forall i :: 0 <= i < |at| - 1 ==> at[i + 1] >= at[i] + HEADER)
            && (at != [] ==> at[0] == p)
            && (p <= end ==> HEADER * |at| <= end - p)
    decreases |b| + HEADER - p
  {
    if p + HEADER <= end {
      WalkIsTame(b, Next(b, p), end);
    }
  }

  // ----- Chunks and lists -----

  datatype Chunk =
    | Leaf(fcc: nat, data: seq<byte>)
    | List(fcc: nat, form: nat, kids: seq<Chunk>)

  /** The two identifiers of a RIFFLIST. */
  predicate IsList(fcc: nat) {
    fcc == FCC_LIST || fcc == FCC_RIFF
  }

  function Pad(n: nat): (b: seq<byte>)
    ensures |b| == n % 2
  {
    if n % 2 == 1 then [0] else []
  }

  /** Sizes fit in 32 bits and are not 0xFFFFFFFF. */
  predicate Good(c: Chunk)
    decreases c, 1
  {
    match c
    case Leaf(fcc, data) => fcc < U32 && !IsList(fcc) && |data| < U32 - 1
    case List(fcc, form, kids) => fcc < U32 && form < U32 && IsList(fcc) && GoodAll(kids) && 4 + Size(kids) < U32
  }

  predicate GoodAll(cs: seq<Chunk>)
    decreases cs, 0
  {
    cs == [] || (Good(cs[0]) && GoodAll(cs[1..]))
  }

  /** Bytes taken by chunks with their headers and padding. */
  function SizeOf(c: Chunk): (n: nat)
    ensures n % 2 == 0 && n >= HEADER
    decreases c, 1
  {
    match c
    case Leaf(_, data) => HEADER + |data| + |data| % 2
    case List(_, _, kids) => HEADER + 4 + Size(kids)
  }

  function Size(cs: seq<Chunk>): (n: nat)
    ensures n % 2 == 0
    decreases cs, 0
  {
    if cs == [] then 0 else SizeOf(cs[0]) + Size(cs[1..])
  }

  /** A RIFFCHUNK has an eight-byte header, a RIFFLIST twelve bytes of which four count as data. */
  function Print(c: Chunk): (b: seq<byte>)
    requires Good(c)
    ensures |b| == SizeOf(c)
    decreases c, 1
  {
    match c
    case Leaf(fcc, data) => Header(fcc, |data|) + data + Pad(|data|)
    case List(fcc, form, kids) => Header(fcc, 4 + Size(kids)) + Le(form, 4) + PrintAll(kids)
  }

  function PrintAll(cs: seq<Chunk>): (b: seq<byte>)
    requires GoodAll(cs)
    ensures |b| == Size(cs)
    decreases cs, 0
  {
    if cs == [] then [] else Print(cs[0]) + PrintAll(cs[1..])
  }

  function Header(fcc: nat, cb: nat): (b: seq<byte>)
    requires fcc < U32 && cb < U32
    ensures |b| == HEADER
  {
    Le(fcc, 4) + Le(cb, 4)
  }

  // ----- Reading back -----

  /** Reads a sequence of chunks that fills the bytes, stepping from each to the next by
      RIFFNEXT and going into lists. */
  function Parse(b: seq<byte>): (r: Option<seq<Chunk>>)
    decreases |b|
  {
    if b == [] then Some([])
    else if |b| < HEADER || HEADER + SizeAt(b, 0) > |b| || Next(b, 0) > |b| then None
    else
      var fcc, cb := Dword(b[..4]), SizeAt(b, 0);
      var rest := Parse(b[Next(b, 0)..]);
      if rest.None? then None
      else if !IsList(fcc) then Some([Leaf(fcc, b[HEADER..HEADER + cb])] + rest.value)
      else if cb < 4 then None
      else
        var kids := Parse(b[HEADER + 4..HEADER + cb]);
        if kids.None? then None
        else Some([List(fcc, Dword(b[HEADER..HEADER + 4]), kids.value)] + rest.value)
  }

  lemma {:induction false} ThreeParts(a: seq<byte>, b: seq<byte>, c: seq<byte>)
    ensures var s := a + b + c;
            && s[..|a|] == a && s[|a|..|a| + |b|] == b && s[|a| + |b|..] == c
            && s == a + (b + c)
  {
  }

  /** What a printed header says when something follows it. */
  lemma {:induction false} HeaderRead(fcc: nat, cb: nat, more: seq<byte>)
    requires fcc < U32 && cb < U32
    ensures var b := Header(fcc, cb) + more; Dword(b[..4]) == fcc && SizeAt(b, 0) == cb
  {
    ThreeParts(Le(fcc, 4), Le(cb, 4), more);
    DwordRoundTrip(fcc);
    DwordRoundTrip(cb);
  }

  lemma {:induction false} RoundSmall(cb: nat)
    requires cb < U32 - 1
    ensures Round(cb) == cb + cb % 2
  {
  }

  lemma {:induction false} LeafLayout(fcc: nat, data: seq<byte>, more: seq<byte>)
    requires Good(Leaf(fcc, data))
    ensures var b := Print(Leaf(fcc, data)) + more;
            && Dword(b[..4]) == fcc && SizeAt(b, 0) == |data| && Next(b, 0) == SizeOf(Leaf(fcc, data))
            && b[HEADER..HEADER + |data|] == data
  {
    var b := Print(Leaf(fcc, data)) + more;
    var tail := Pad(|data|) + more;
    assert b == Header(fcc, |data|) + data + tail;
    ThreeParts(Header(fcc, |data|), data, tail);
    HeaderRead(fcc, |data|, data + tail);
    RoundSmall(|data|);
  }

  lemma {:induction false} ListHeader(fcc: nat, form: nat, kids: seq<Chunk>, more: seq<byte>)
    requires Good(List(fcc, form, kids))
    ensures var b := Print(List(fcc, form, kids)) + more;
            && Dword(b[..4]) == fcc && SizeAt(b, 0) == 4 + Size(kids)
            && Next(b, 0) == SizeOf(List(fcc, form, kids))
  {
    var tail := Le(form, 4) + PrintAll(kids) + more;
    assert Print(List(fcc, form, kids)) + more == Header(fcc, 4 + Size(kids)) + tail;
    EvenHeader(fcc, Size(kids), tail);
  }

  lemma {:induction false} EvenHeader(fcc: nat, n: nat, tail: seq<byte>)
    requires fcc < U32 && n % 2 == 0 && 4 + n < U32
    ensures var b := Header(fcc, 4 + n) + tail;
            Dword(b[..4]) == fcc && SizeAt(b, 0) == 4 + n && Next(b, 0) == HEADER + 4 + n
  {
    HeaderRead(fcc, 4 + n, tail);
    RoundEven(n);
  }

  lemma {:induction false} ShiftedParity(a: nat, m: nat)
    ensures (a + 2 * m) % 2 == a % 2
  {
    if m > 0 {
      ShiftedParity(a, m - 1);
    }
  }

  lemma {:induction false} RoundEven(n: nat)
    requires n % 2 == 0 && 4 + n < U32
    ensures Round(4 + n) == 4 + n
  {
  }

  lemma {:induction false} ListBody(fcc: nat, form: nat, kids: seq<Chunk>, more: seq<byte>)
    requires Good(List(fcc, form, kids))
    ensures var b := Print(List(fcc, form, kids)) + more;
            && Dword(b[HEADER..HEADER + 4]) == form
            && b[HEADER + 4..HEADER + 4 + Size(kids)] == PrintAll(kids)
  {
    var head, f, body := Header(fcc, 4 + Size(kids)), Le(form, 4), PrintAll(kids);
    assert Print(List(fcc, form, kids)) + more == head + f + body + more;
    FourParts(head, f, body, more);
    DwordRoundTrip(form);
  }

  lemma {:induction false} FourParts(a: seq<byte>, b: seq<byte>, c: seq<byte>, d: seq<byte>)
    ensures var s := a + b + c + d; var n := |a| + |b|;
            s[|a|..n] == b && s[n..n + |c|] == c
  {
    ThreeParts(a + b, c, d);
    assert a + b + c + d == a + b + (c + d);
    ThreeParts(a, b, c + d);
  }

  /** RIFFNEXT steps over exactly one printed chunk. */
  lemma {:induction false} NextOverChunk(c: Chunk, more: seq<byte>)
    requires Good(c)
    ensures var b := Print(c) + more; Next(b, 0) == SizeOf(c) && b[SizeOf(c)..] == more
  {
    match c {
      case Leaf(fcc, data) => LeafLayout(fcc, data, more);
      case List(fcc, form, kids) => ListHeader(fcc, form, kids, more);
    }
  }

  /** Printing any trees of chunks and walking the bytes gives back the same trees. */
  lemma {:induction false} ParsePrint(cs: seq<Chunk>)
    requires GoodAll(cs)
    ensures Parse(PrintAll(cs)) == Some(cs)
    decreases cs
  {
    if cs != [] {
      ParsePrint(cs[1..]);
      if cs[0].List? {
        ParsePrint(cs[0].kids);
      }
      ParseFirst(cs[0], cs[1..]);
      assert [cs[0]] + cs[1..] == cs;
    }
  }

  lemma {:induction false} ParseFirst(c: Chunk, cs: seq<Chunk>)
    requires Good(c) && GoodAll(cs) && Parse(PrintAll(cs)) == Some(cs)
    requires c.List? ==> Parse(PrintAll(c.kids)) == Some(c.kids)
    ensures Parse(Print(c) + PrintAll(cs)) == Some([c] + cs)
  {
    if c.Leaf? {
      ParseFirstLeaf(c, cs);
    } else {
      ParseFirstList(c, cs);
    }
  }

  lemma {:induction false} ParseFirstLeaf(c: Chunk, cs: seq<Chunk>)
    requires c.Leaf? && Good(c) && GoodAll(cs) && Parse(PrintAll(cs)) == Some(cs)
    ensures Parse(Print(c) + PrintAll(cs)) == Some([c] + cs)
  {
    NextOverChunk(c, PrintAll(cs));
    LeafLayout(c.fcc, c.data, PrintAll(cs));
  }

  lemma {:induction false} ParseFirstList(c: Chunk, cs: seq<Chunk>)
    requires c.List? && Good(c) && GoodAll(cs) && Parse(PrintAll(cs)) == Some(cs)
    requires Parse(PrintAll(c.kids)) == Some(c.kids)
    ensures Parse(Print(c) + PrintAll(cs)) == Some([c] + cs)
  {
    NextOverChunk(c, PrintAll(cs));
    ListHeader(c.fcc, c.form, c.kids, PrintAll(cs));
    ListBody(c.fcc, c.form, c.kids, PrintAll(cs));
  }

  lemma {:induction false} GoodCons(c: Chunk, cs: seq<Chunk>)
    ensures GoodAll([c] + cs) <==> Good(c) && GoodAll(cs)
    ensures Size([c] + cs) == SizeOf(c) + Size(cs)
  {
    assert ([c] + cs)[1..] == cs;
  }

  /** The first chunk read. */
  lemma {:induction false} ParseFirstOf(b: seq<byte>) returns (c: Chunk)
    requires b != [] && Parse(b).Some?
    ensures HEADER + SizeAt(b, 0) <= |b| && Next(b, 0) <= |b| && Parse(b[Next(b, 0)..]).Some?
    ensures Parse(b).value == [c] + Parse(b[Next(b, 0)..]).value
    ensures if c.Leaf? then !IsList(c.fcc) && |c.data| == SizeAt(b, 0)
            else
              && IsList(c.fcc) && 4 <= SizeAt(b, 0) && c.form < U32
              && Parse(b[HEADER + 4..HEADER + SizeAt(b, 0)]) == Some(c.kids)
    ensures c.fcc < U32
  {
    c := Parse(b).value[0];
  }

  lemma {:induction false} FirstGood(c: Chunk, cb: nat)
    requires HEADER + cb < U32 && c.fcc < U32
    requires if c.Leaf? then !IsList(c.fcc) && |c.data| == cb
             else IsList(c.fcc) && c.form < U32 && GoodAll(c.kids) && 4 + Size(c.kids) == cb
    ensures Good(c) && SizeOf(c) == HEADER + Round(cb)
  {
    RoundSmall(cb);
  }

  /** What was read from fewer than 2^32 bytes can be printed, and takes the same space. */
  lemma {:induction false} ParseGood(b: seq<byte>)
    requires Parse(b).Some? && |b| < U32
    ensures GoodAll(Parse(b).value) && Size(Parse(b).value) == |b|
    decreases |b|
  {
    if b != [] {
      var cb, rest := SizeAt(b, 0), b[Next(b, 0)..];
      var c := ParseFirstOf(b);
      ParseGood(rest);
      if c.List? {
        ParseGood(b[HEADER + 4..HEADER + cb]);
      }
      FirstGood(c, cb);
      GoodCons(c, Parse(rest).value);
    }
  }

  /** Reading, printing and reading again changes nothing but padding bytes. */
  lemma {:induction false} Rewrite(b: seq<byte>)
    requires Parse(b).Some? && |b| < U32
    ensures GoodAll(Parse(b).value)
    ensures Parse(PrintAll(Parse(b).value)) == Parse(b) && |PrintAll(Parse(b).value)| == |b|
  {
    ParseGood(b);
    ParsePrint(Parse(b).value);
  }

  // ----- The offsets of a flat walk -----

  /** Where chunks printed one after the other from offset p begin. */
  function Starts(cs: seq<Chunk>, p: nat): (at: seq<nat>)
    ensures |at| == |cs|
  {
    if cs == [] then [] else [p] + Starts(cs[1..], p + SizeOf(cs[0]))
  }

  lemma {:induction false} SizeAtSlice(b: seq<byte>, p: nat, end: nat)
    requires p + HEADER <= end <= |b|
    ensures SizeAt(b, p) == SizeAt(b[p..end], 0)
    ensures Next(b, p) == p + Next(b[p..end], 0)
  {
    var s := b[p..end];
    assert forall i :: 4 <= i < 8 ==> s[i] == b[p + i];
    assert s[4..8] == b[p + 4..p + 8];
  }

  lemma {:induction false} DropSlice(b: seq<byte>, p: nat, end: nat, k: nat)
    requires p + k <= end <= |b|
    ensures b[p..end][k..] == b[p + k..end]
  {
  }

  lemma {:induction false} StepOver(b: seq<byte>, p: nat, end: nat, c: Chunk, cs: seq<Chunk>)
    requires p <= end <= |b| && Good(c) && GoodAll(cs) && b[p..end] == Print(c) + PrintAll(cs)
    ensures p + HEADER <= end && Next(b, p) == p + SizeOf(c) <= end && b[p + SizeOf(c)..end] == PrintAll(cs)
  {
    NextOverChunk(c, PrintAll(cs));
    SizeAtSlice(b, p, end);
    DropSlice(b, p, end, SizeOf(c));
  }

  /** RIFFNEXT leads from p over each chunk to end. */
  ghost predicate Hops(b: seq<byte>, p: nat, end: nat, cs: seq<Chunk>)
    requires end <= |b|
    decreases cs
  {
    if cs == [] then p == end
    else p + HEADER <= end && Next(b, p) == p + SizeOf(cs[0]) && Hops(b, p + SizeOf(cs[0]), end, cs[1..])
  }

  lemma {:induction false} PrintedHops(b: seq<byte>, p: nat, end: nat, cs: seq<Chunk>)
    requires p <= end <= |b| && GoodAll(cs) && b[p..end] == PrintAll(cs)
    ensures Hops(b, p, end, cs)
    decreases cs
  {
    if cs == [] {
      assert |b[p..end]| == 0;
    } else {
      StepOver(b, p, end, cs[0], cs[1..]);
      PrintedHops(b, p + SizeOf(cs[0]), end, cs[1..]);
    }
  }

  lemma {:induction false} HopsWalk(b: seq<byte>, p: nat, end: nat, cs: seq<Chunk>)
    requires end <= |b| && Hops(b, p, end, cs)
    ensures Walk(b, p, end) == Starts(cs, p)
    decreases cs
  {
    if cs != [] {
      HopsWalk(b, p + SizeOf(cs[0]), end, cs[1..]);
    }
  }

  lemma {:induction false} HopsLast(b: seq<byte>, p: nat, end: nat, cs: seq<Chunk>)
    requires end <= |b| && Hops(b, p, end, cs) && cs != []
    ensures var last := Starts(cs, p)[|cs| - 1]; last + HEADER <= end && Next(b, last) == end
    decreases cs
  {
    var q, rest := p + SizeOf(cs[0]), cs[1..];
    var at := Starts(rest, q);
    assert Starts(cs, p) == [p] + at;
    if rest != [] {
      HopsLast(b, q, end, rest);
      assert Starts(cs, p)[|cs| - 1] == at[|rest| - 1];
    }
  }

  /** Wherever the chunks lie in a file, a loop of RIFFNEXT visits exactly their offsets, in
      order, and stops at the end of the last one. */
  lemma {:induction false} WalkVisits(b: seq<byte>, p: nat, end: nat, cs: seq<Chunk>)
    requires p <= end <= |b| && GoodAll(cs) && b[p..end] == PrintAll(cs)
    ensures Walk(b, p, end) == Starts(cs, p)
    ensures cs == [] ==> p == end
    ensures cs != [] ==> var last := Starts(cs, p)[|cs| - 1]; last + HEADER <= end && Next(b, last) == end
  {
    PrintedHops(b, p, end, cs);
    HopsWalk(b, p, end, cs);
    if cs != [] {
      HopsLast(b, p, end, cs);
    }
  }

  /** For a chunk of any size that a DWORD can hold, RIFFNEXT finds its end exactly if the size
      is not 0xFFFFFFFF. */
  lemma {:induction false} NextFindsEndExactly(fcc: nat, data: seq<byte>)
    requires fcc < U32 && |data| < U32
    ensures var b := Header(fcc, |data|) + data + Pad(|data|);
            Next(b, 0) == |b| <==> |data| != 0xFFFF_FFFF
  {
    var b := Header(fcc, |data|) + data + Pad(|data|);
    HeaderRead(fcc, |data|, data + Pad(|data|));
    assert b == Header(fcc, |data|) + (data + Pad(|data|));
    if |data| != 0xFFFF_FFFF {
      RoundSmall(|data|);
    }
  }
}
