/** The conversions between 64-bit pointers and integers of 32 and 16 bits. */
module BaseTsd {
  const W16 := 0x1_0000
  const W32 := 0x1_0000_0000
  const W64 := 0x1_0000_0000_0000_0000

  /** A pointer, by its 64 bits read as an unsigned number. */
  type Ptr = p: int | 0 <= p < W64

  // ----- C casts -----

  predicate Width(w: int) { w == W16 || w == W32 || w == W64 }

  function Unsigned(w: int, x: int): int
    requires Width(w)
  {
    x % w
  }

  function Signed(w: int, x: int): int
    requires Width(w)
  {
    if x % w < w / 2 then x % w else x % w - w
  }

  /** Equal in the bits of a width. */
  ghost predicate Same(w: int, x: int, y: int)
    requires Width(w)
  {
    x % w == y % w
  }

  /** A cast keeps the bits of every width up to its own. */
  lemma {:induction false} CastKeeps(v: int, w: int, x: int)
    requires Width(v) && Width(w) && v <= w
    ensures Same(v, Unsigned(w, x), x) && Same(v, Signed(w, x), x)
  {
    var k := if v == w then 1 else if w == W32 then W16 else if v == W32 then W32 else W32 * W16;
    assert w == k * v;
    var q := x / w;
    assert x == q * w + x % w;
    assert q * w == q * k * v;
    Shift(v, x % w, q * k);
    assert x % w - w == x % w + (-k) * v;
    Shift(v, x % w, -k);
  }

  /** Adding multiples of a width changes none of its bits. */
  lemma {:induction false} Shift(v: int, x: int, k: int)
    requires Width(v)
    ensures Same(v, x + k * v, x)
  {
    var q, r := x / v, x % v;
    assert x == q * v + r;
    assert x + k * v == (q + k) * v + r;
    Remainder(v, q + k, r);
  }

  lemma {:induction false} Remainder(v: int, q: int, r: int)
    requires Width(v) && 0 <= r < v
    ensures (q * v + r) % v == r
  {
    if v == W16 {
      assert (q * W16 + r) % W16 == r;
    } else if v == W32 {
      assert (q * W32 + r) % W32 == r;
    } else {
      assert (q * W64 + r) % W64 == r;
    }
  }

  // ----- The conversions -----

  datatype Narrow = HandleToULong | HandleToLong | PtrToUlong | PtrToLong | PtrToUint | PtrToInt
  datatype Widen = ULongToHandle | LongToHandle | IntToPtr | UIntToPtr | LongToPtr | ULongToPtr

  /** Pointer to 32 bits: through the integer of pointer width, then cut. */
  function ToWord(n: Narrow, p: Ptr): int {
    match n
    case HandleToULong => Unsigned(W32, Unsigned(W64, p))
    case HandleToLong => Signed(W32, Signed(W64, p))
    case PtrToUlong => Unsigned(W32, Unsigned(W64, p))
    case PtrToLong => Signed(W32, Signed(W64, p))
    case PtrToUint => Unsigned(W32, Unsigned(W64, p))
    case PtrToInt => Signed(W32, Signed(W64, p))
  }

  predicate Zeroing(u: Widen) { u.ULongToHandle? || u.UIntToPtr? || u.ULongToPtr? }

  /** 32 bits to pointer. The argument is first converted to the parameter's type. */
  function ToPtr(u: Widen, x: int): (p: Ptr) {
    match u
    case ULongToHandle => Unsigned(W64, Unsigned(W64, Unsigned(W32, x)))
    case LongToHandle => Unsigned(W64, Signed(W64, Signed(W32, x)))
    case IntToPtr => Unsigned(W64, Signed(W64, Signed(W32, x)))
    case UIntToPtr => Unsigned(W64, Unsigned(W64, Unsigned(W32, x)))
    case LongToPtr => Unsigned(W64, Signed(W64, Signed(W32, x)))
    case ULongToPtr => Unsigned(W64, Unsigned(W64, Unsigned(W32, x)))
  }

  lemma {:induction false} ToWordKeeps(n: Narrow, p: Ptr)
    ensures Same(W32, ToWord(n, p), p)
  {
    CastKeeps(W32, W64, p);
    CastKeeps(W32, W32, Signed(W64, p));
  }

  lemma {:induction false} ToPtrKeeps(u: Widen, x: int)
    ensures Same(W32, ToPtr(u, x), x)
  {
    CastKeeps(W32, W32, x);
    CastKeeps(W32, W64, Signed(W32, x));
    CastKeeps(W32, W64, Signed(W64, Signed(W32, x)));
  }

  /** What a widening gives depends on the low 32 bits only. */
  lemma {:induction false} ToPtrOf(u: Widen, x: int, y: int)
    requires Same(W32, x, y)
    ensures ToPtr(u, x) == ToPtr(u, y)
  {
  }

  // ----- Chains -----

  /** Conversions to 32 bits and back, any number of times. */
  function Chain(p: Ptr, hops: seq<(Narrow, Widen)>): Ptr {
    if hops == [] then p
    else
      var last := hops[|hops| - 1];
      ToPtr(last.1, ToWord(last.0, Chain(p, hops[..|hops| - 1])))
  }

  /** Every chain keeps the low 32 bits, and all else is decided by its last widening alone. */
  lemma {:induction false} ChainKeeps(p: Ptr, hops: seq<(Narrow, Widen)>)
    ensures Same(W32, Chain(p, hops), p)
    ensures hops != [] ==> Chain(p, hops) == ToPtr(hops[|hops| - 1].1, p)
  {
    if hops != [] {
      var before := hops[..|hops| - 1];
      var last := hops[|hops| - 1];
      ChainKeeps(p, before);
      ToWordKeeps(last.0, Chain(p, before));
      ToPtrOf(last.1, ToWord(last.0, Chain(p, before)), p);
      ToPtrKeeps(last.1, p);
    }
  }

  predicate Unsigning(n: Narrow) { n.HandleToULong? || n.PtrToUlong? || n.PtrToUint? }

  /** The values of the 32-bit type a narrowing returns. */
  ghost predicate WordOf(n: Narrow, x: int) {
    if Unsigning(n) then 0 <= x < W32 else -W32 / 2 <= x < W32 / 2
  }

  lemma {:induction false} WordUnique(n: Narrow, p: Ptr, x: int)
    requires WordOf(n, x) && Same(W32, p, x)
    ensures ToWord(n, p) == x
  {
    ToWordKeeps(n, p);
    assert WordOf(n, ToWord(n, p));
  }

  /** A value carried through a pointer, and through any chain on the way, comes back unchanged. */
  lemma {:induction false} WordSurvives(u: Widen, hops: seq<(Narrow, Widen)>, n: Narrow, x: int)
    requires WordOf(n, x)
    ensures ToWord(n, Chain(ToPtr(u, x), hops)) == x
  {
    ToPtrKeeps(u, x);
    ChainKeeps(ToPtr(u, x), hops);
    WordUnique(n, Chain(ToPtr(u, x), hops), x);
  }

  /** Sign and zero extension give the same pointer exactly below 2^31. */
  lemma {:induction false} ExtensionsAgreeExactly(u: Widen, v: Widen, x: int)
    requires Zeroing(u) && !Zeroing(v) && 0 <= x < W32
    ensures ToPtr(u, x) == ToPtr(v, x) <==> x < W32 / 2
  {
  }

  /** The pointers a widening gives. */
  ghost predicate Extended(u: Widen, p: Ptr) {
    p < W32 / 2 || (if Zeroing(u) then p < W32 else W64 - W32 / 2 <= p)
  }

  lemma {:induction false} ToPtrExtends(u: Widen, x: int)
    ensures Extended(u, ToPtr(u, x))
  {
  }

  lemma {:induction false} ExtendedUnique(u: Widen, p: Ptr, q: Ptr)
    requires Extended(u, p) && Extended(u, q) && Same(W32, p, q)
    ensures p == q
  {
  }

  /** A pointer survives any chain exactly if it is one that the last widening gives. */
  lemma {:induction false} PtrSurvivesExactly(p: Ptr, hops: seq<(Narrow, Widen)>)
    requires hops != []
    ensures Chain(p, hops) == p <==> Extended(hops[|hops| - 1].1, p)
  {
    ChainKeeps(p, hops);
    var u := hops[|hops| - 1].1;
    ToPtrExtends(u, p);
    if Extended(u, p) {
      ExtendedUnique(u, Chain(p, hops), p);
    }
  }

  // ----- 16 bits -----

  function PtrToUshort(p: Ptr): int { Unsigned(W16, Unsigned(W64, p)) }

  function PtrToShort(p: Ptr): int { Signed(W16, Signed(W64, p)) }

  /** They are the values of their types that have the pointer's low 16 bits. */
  lemma {:induction false} ShortExactly(p: Ptr, x: int)
    ensures PtrToUshort(p) == x <==> 0 <= x < W16 && Same(W16, x, p)
    ensures PtrToShort(p) == x <==> -W16 / 2 <= x < W16 / 2 && Same(W16, x, p)
  {
    CastKeeps(W16, W64, p);
    CastKeeps(W16, W16, Unsigned(W64, p));
    CastKeeps(W16, W16, Signed(W64, p));
  }

  /** The 16-bit forms see through any chain. */
  lemma {:induction false} ShortKeeps(p: Ptr, hops: seq<(Narrow, Widen)>)
    ensures PtrToUshort(Chain(p, hops)) == PtrToUshort(p)
    ensures PtrToShort(Chain(p, hops)) == PtrToShort(p)
  {
    var q := Chain(p, hops);
    ChainKeeps(p, hops);
    CastKeeps(W16, W32, p);
    CastKeeps(W16, W32, q);
    CastKeeps(W16, W64, p);
    CastKeeps(W16, W64, q);
  }
}
