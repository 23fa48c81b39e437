/** filter_extensions: a space-separated list of extension names without those the bridge does
    not support. */
module ClFilter {
  import opened ClExtensions

  // ----- The list and its names -----

  /** Where the first name of a list ends. */
  function NameEnd(s: string): (n: nat)
    ensures n <= |s| && (n < |s| ==> s[n] == ' ')
    ensures forall i :: 0 <= i < n ==> s[i] != ' '
  {
    if s == "" || s[0] == ' ' then 0 else 1 + NameEnd(s[1..])
  }

  /** What follows the first name and the space after it. */
  function Rest(s: string): (r: string)
    ensures s != "" ==> |r| < |s|
  {
    if NameEnd(s) < |s| then s[NameEnd(s) + 1..] else ""
  }

  /** The supported names, in order. */
  ghost function Kept(table: seq<string>, s: string): (names: seq<string>)
    decreases |s|
  {
    if s == "" then []
    else if Listed(table, s[..NameEnd(s)]) then Kept(table, Rest(s))
    else [s[..NameEnd(s)]] + Kept(table, Rest(s))
  }

  /** Names with a space between each two. */
  function Joined(names: seq<string>): string {
    if names == [] then ""
    else if |names| == 1 then names[0]
    else Joined(names[..|names| - 1]) + " " + names[|names| - 1]
  }

  /** The size the first loop adds up: for each name kept, all that is left of the host's list. */
  ghost function Reported(table: seq<string>, s: string): nat
    decreases |s|
  {
    if s == "" then 0
    else (if Listed(table, s[..NameEnd(s)]) then 0 else |s| + 1) + Reported(table, Rest(s))
  }

  /** The characters of some names, and one more for each. */
  function Extent(names: seq<string>): nat {
    if names == [] then 0 else |names[0]| + 1 + Extent(names[1..])
  }

  /** The room that the filtered list takes: the names joined by spaces, and the terminator that
      is written in any case. */
  ghost function Room(table: seq<string>, s: string): nat {
    |Joined(Kept(table, s))| + 1
  }

  // ----- The names are plain -----

  /** No space inside, not empty, supported. */
  ghost predicate Plain(table: seq<string>, name: string) {
    name != "" && ' ' !in name && !Listed(table, name)
  }

  ghost predicate AllPlain(table: seq<string>, names: seq<string>) {
    forall i :: 0 <= i < |names| ==> Plain(table, names[i])
  }

  lemma {:induction false} KeptPlain(table: seq<string>, s: string)
    requires table != []
    ensures AllPlain(table, Kept(table, s))
    decreases |s|
  {
    if s != "" {
      KeptPlain(table, Rest(s));
      EmptyListed(table);
    }
  }

  lemma {:induction false} ExtentSnoc(names: seq<string>, name: string)
    ensures Extent(names + [name]) == Extent(names) + |name| + 1
  {
    if names != [] {
      ExtentSnoc(names[1..], name);
      assert (names + [name])[1..] == names[1..] + [name];
    }
  }

  lemma {:induction false} JoinedExtent(names: seq<string>)
    requires names != []
    ensures |Joined(names)| + 1 == Extent(names)
  {
    var n := |names| - 1;
    assert names == names[..n] + [names[n]];
    ExtentSnoc(names[..n], names[n]);
    if n > 0 {
      JoinedExtent(names[..n]);
    }
  }

  // ----- The reported size -----

  /** No name is kept except one that reaches to the end of the list. */
  ghost predicate OnlyLastKept(table: seq<string>, s: string)
    decreases |s|
  {
    s == "" || ((Listed(table, s[..NameEnd(s)]) || NameEnd(s) == |s|) && OnlyLastKept(table, Rest(s)))
  }

  lemma {:induction false} ReportedExtent(table: seq<string>, s: string)
    ensures Reported(table, s) >= Extent(Kept(table, s))
    ensures Reported(table, s) == Extent(Kept(table, s)) <==> OnlyLastKept(table, s)
    ensures Reported(table, s) == 0 <==> Kept(table, s) == []
    decreases |s|
  {
    if s != "" {
      ReportedExtent(table, Rest(s));
      var name := s[..NameEnd(s)];
      if !Listed(table, name) {
        assert ([name] + Kept(table, Rest(s)))[1..] == Kept(table, Rest(s));
      }
    }
  }

  /** The size reported to the caller is large enough exactly if some name is kept, since the
      terminator of an empty result is not counted; and it is the room needed exactly if the one
      name kept stands at the very end. */
  lemma {:induction false} ReportedExactly(table: seq<string>, s: string)
    ensures Reported(table, s) >= Room(table, s) <==> Kept(table, s) != []
    ensures Reported(table, s) == Room(table, s) <==> OnlyLastKept(table, s) && Kept(table, s) != []
  {
    ReportedExtent(table, s);
    if Kept(table, s) != [] {
      JoinedExtent(Kept(table, s));
    }
  }

  /** A list of one unsupported name is reported to take no room, and takes a character. */
  lemma {:induction false} ReportedTooSmall(table: seq<string>, name: string)
    requires Listed(table, name) && ' ' !in name
    ensures Reported(table, name) == 0 < Room(table, name)
  {
    NameEndPlain(name, "");
    assert name[..|name|] == name;
  }

  /** A buffer found large enough has room exactly if something is kept or it is not empty. */
  lemma {:induction false} FitsExactly(table: seq<string>, s: string, size: nat)
    requires Reported(table, s) <= size
    ensures Room(table, s) <= size <==> Kept(table, s) != [] || size > 0
  {
    ReportedExactly(table, s);
  }

  // ----- By position -----

  /** A name starts here. */
  predicate NameStarts(s: string, i: nat) { i < |s| && (i == 0 || s[i - 1] == ' ') }

  /** The name that starts here: up to the next space or the end. */
  function NameAt(s: string, i: nat): string
    requires i <= |s|
  {
    s[i..i + NameEnd(s[i..])]
  }

  ghost predicate KeptAt(table: seq<string>, s: string, i: nat) {
    NameStarts(s, i) && !Listed(table, NameAt(s, i))
  }

  /** The supported names that start at a position or behind it. */
  ghost function KeptFrom(table: seq<string>, s: string, i: nat): seq<string>
    requires i <= |s|
    decreases |s| - i
  {
    if i == |s| then []
    else (if KeptAt(table, s, i) then [NameAt(s, i)] else []) + KeptFrom(table, s, i + 1)
  }

  /** For each of them, the characters from its start to the end of the list, and one more. */
  ghost function RoomFrom(table: seq<string>, s: string, i: nat): nat
    requires i <= |s|
    decreases |s| - i
  {
    if i == |s| then 0
    else (if KeptAt(table, s, i) then |s| - i + 1 else 0) + RoomFrom(table, s, i + 1)
  }

  /** Between a name and the next nothing starts. */
  lemma {:induction false} NothingStarts(table: seq<string>, s: string, i: nat, j: nat)
    requires i <= j <= |s| && forall k :: i <= k < j ==> !NameStarts(s, k)
    ensures KeptFrom(table, s, i) == KeptFrom(table, s, j) && RoomFrom(table, s, i) == RoomFrom(table, s, j)
    decreases j - i
  {
    if i < j {
      assert !KeptAt(table, s, i);
      NothingStarts(table, s, i + 1, j);
    }
  }

  lemma {:induction false} KeptByPositionFrom(table: seq<string>, s: string, i: nat)
    requires i <= |s| && (i < |s| ==> NameStarts(s, i))
    ensures Kept(table, s[i..]) == KeptFrom(table, s, i) && Reported(table, s[i..]) == RoomFrom(table, s, i)
    decreases |s| - i
  {
    if i < |s| {
      var next := NextStart(s, i);
      KeptByPositionFrom(table, s, next);
      NothingStarts(table, s, i + 1, next);
      FirstKept(table, s[i..], NameAt(s, i));
    }
  }

  /** Where the loops go from the start of a name. */
  lemma {:induction false} NextStart(s: string, i: nat) returns (next: nat)
    requires i < |s|
    ensures i < next <= |s| && (next < |s| ==> NameStarts(s, next)) && Rest(s[i..]) == s[next..]
    ensures forall k :: i < k < next ==> !NameStarts(s, k)
    ensures next == if NameEnd(s[i..]) < |s[i..]| then i + NameEnd(s[i..]) + 1 else |s|
  {
    var rest := s[i..];
    var end := i + NameEnd(rest);
    next := if end < |s| then end + 1 else end;
    forall k | i < k < next ensures !NameStarts(s, k) {
      assert s[k - 1] == rest[k - 1 - i];
    }
    assert end < |s| ==> s[end] == rest[end - i];
  }

  lemma {:induction false} FirstKept(table: seq<string>, rest: string, name: string)
    requires rest != "" && name == rest[..NameEnd(rest)]
    ensures Kept(table, rest) == (if Listed(table, name) then [] else [name]) + Kept(table, Rest(rest))
    ensures Reported(table, rest) == (if Listed(table, name) then 0 else |rest| + 1) + Reported(table, Rest(rest))
  {
  }

  /** The names kept are those that start at the beginning or behind a space and are supported, in
      order; and the size reported is, for each, what is left of the list from its start and one. */
  lemma {:induction false} KeptByPosition(table: seq<string>, s: string)
    ensures Kept(table, s) == KeptFrom(table, s, 0) && Reported(table, s) == RoomFrom(table, s, 0)
  {
    KeptByPositionFrom(table, s, 0);
    assert s[0..] == s;
  }

  // ----- Filtering twice -----

  lemma {:induction false} NameEndPlain(name: string, more: string)
    requires ' ' !in name
    ensures NameEnd(name) == |name|
    ensures NameEnd(name + " " + more) == |name|
  {
    if name != "" {
      NameEndPlain(name[1..], more);
      assert (name + " " + more)[1..] == name[1..] + " " + more;
      assert ' ' !in name[1..];
    } else {
      assert (name + " " + more)[0] == ' ';
    }
  }

  lemma {:induction false} JoinedFirst(names: seq<string>)
    requires |names| > 1
    ensures Joined(names) == names[0] + " " + Joined(names[1..])
  {
    var n := |names| - 1;
    if n > 1 {
      JoinedFirst(names[..n]);
      assert names[..n][1..] == names[1..][..n - 1];
      assert names[1..][n - 1] == names[n];
    } else {
      assert names[..1] == [names[0]] && names[1..] == [names[1]];
    }
  }

  /** Joining supported names and filtering the result gives the names back. */
  lemma {:induction false} KeptJoined(table: seq<string>, names: seq<string>)
    requires AllPlain(table, names)
    ensures Kept(table, Joined(names)) == names
    decreases |names|
  {
    if names != [] {
      var name, rest := names[0], names[1..];
      assert Plain(table, name);
      var s := Joined(names);
      assert names == [name] + rest;
      if rest == [] {
        NameEndPlain(name, "");
        assert s[..|name|] == name;
      } else {
        JoinedFirst(names);
        NameEndPlain(name, Joined(rest));
        KeptJoined(table, rest);
        assert s[..|name|] == name && s[|name| + 1..] == Joined(rest);
      }
    }
  }

  /** The filter changes nothing in a list it has filtered. */
  lemma {:induction false} FilterIdempotent(table: seq<string>, s: string)
    requires table != []
    ensures Kept(table, Joined(Kept(table, s))) == Kept(table, s)
  {
    KeptPlain(table, s);
    KeptJoined(table, Kept(table, s));
  }

  // ----- The two loops -----

  /** Where the loops go on behind a name. */
  method Skip(exts: string, ext: nat, len: nat) returns (next: nat)
    requires ext < |exts| && len == NameEnd(exts[ext..])
    ensures ext < next <= |exts| && exts[next..] == Rest(exts[ext..])
  {
    next := ext + len;
    if next < |exts| {
      next := next + 1;
    }
  }

  const CL_SUCCESS := 0
  const CL_INVALID_VALUE := -30

  /** A name as it is appended, with a space before it unless it is the first. */
  function Piece(first: bool, name: string): string {
    if first then name else " " + name
  }

  /** What the second loop still appends when it has the rest of the list before it. */
  ghost function Pending(table: seq<string>, first: bool, s: string): string
    decreases |s|
  {
    if s == "" then ""
    else if Listed(table, s[..NameEnd(s)]) then Pending(table, first, Rest(s))
    else Piece(first, s[..NameEnd(s)]) + Pending(table, false, Rest(s))
  }

  /** Names joined, as they are appended. */
  function Line(first: bool, names: seq<string>): string {
    if names == [] then "" else Piece(first, Joined(names))
  }

  lemma {:induction false} LineFirst(first: bool, name: string, names: seq<string>)
    ensures Piece(first, name) + Line(false, names) == Line(first, [name] + names)
  {
    assert ([name] + names)[1..] == names;
    if names != [] {
      JoinedFirst([name] + names);
      assert name + " " + Joined(names) == name + (" " + Joined(names));
    }
  }

  /** In the end it has appended the names kept, joined. */
  lemma {:induction false} PendingJoined(table: seq<string>, first: bool, s: string)
    ensures Pending(table, first, s) == Line(first, Kept(table, s))
    decreases |s|
  {
    if s != "" {
      if Listed(table, s[..NameEnd(s)]) {
        PendingJoined(table, first, Rest(s));
      } else {
        PendingJoined(table, false, Rest(s));
        LineFirst(first, s[..NameEnd(s)], Kept(table, Rest(s)));
      }
    }
  }

  /** The first loop: the size to report. */
  method Measure(table: seq<string>, exts: string) returns (size: nat)
    requires table != [] && CString(exts)
    ensures size == Reported(table, exts)
  {
    size := 0;
    var ext := 0;
    assert exts[0..] == exts;
    while ext < |exts|
      invariant ext <= |exts|
      invariant size + Reported(table, exts[ext..]) == Reported(table, exts)
    {
      var rest := exts[ext..];
      var len := NameEnd(rest);
      var ok := IsSupported(table, rest, len);
      if ok {
        size := size + |rest| + 1;
      }
      ext := Skip(exts, ext, len);
    }
  }

  /** memcpy. */
  method Copy(buffer: array<char>, p: nat, text: string)
    requires p + |text| <= buffer.Length
    modifies buffer
    ensures buffer[..] == old(buffer[..p]) + text + old(buffer[p + |text|..])
  {
    var i := 0;
    while i < |text|
      invariant i <= |text|
      invariant buffer[..] == old(buffer[..p]) + text[..i] + old(buffer[p + i..])
    {
      buffer[p + i] := text[i];
      i := i + 1;
    }
  }

  /** One name of the second loop, with a space before it unless it is the first. */
  method Append(buffer: array<char>, p: nat, name: string) returns (q: nat)
    requires p + |Piece(p == 0, name)| <= buffer.Length
    modifies buffer
    ensures q == p + |Piece(p == 0, name)|
    ensures buffer[..] == old(buffer[..])[..p] + Piece(p == 0, name) + old(buffer[..])[q..]
  {
    if p == 0 {
      Copy(buffer, 0, name);
      q := |name|;
    } else {
      Copy(buffer, p, " ");
      ghost var spaced := buffer[..];
      Copy(buffer, p + 1, name);
      q := p + 1 + |name|;
      SpacedName(old(buffer[..]), spaced, buffer[..], p, name);
    }
  }

  lemma {:induction false} SpacedName(was: string, spaced: string, now: string, p: nat, name: string)
    requires p + 1 + |name| <= |was| && spaced == was[..p] + " " + was[p + 1..]
    requires now == spaced[..p + 1] + name + spaced[p + 1 + |name|..]
    ensures now == was[..p] + (" " + name) + was[p + 1 + |name|..]
  {
    assert spaced[..p + 1] == was[..p] + " ";
    assert spaced[p + 1 + |name|..] == was[p + 1 + |name|..];
  }

  /** The text up to p is written and the rest of the buffer is as it was. */
  ghost predicate Copied(now: string, was: string, text: string, p: nat) {
    p <= |text| <= |was| && now == text[..p] + was[p..]
  }

  lemma {:induction false} CopiedNext(now: string, was: string, text: string, p: nat, piece: string, more: string)
    requires Copied(now, was, text, p) && text[p..] == piece + more
    ensures p + |piece| <= |text| && text[p + |piece|..] == more
    ensures Copied(now[..p] + piece + now[p + |piece|..], was, text, p + |piece|)
  {
    assert text[p..p + |piece|] == text[p..][..|piece|] == piece;
    assert text[p + |piece|..] == text[p..][|piece|..];
    assert text[..p + |piece|] == text[..p] + piece;
  }

  /** It brings the buffer one name nearer to the text. */
  method CopyName(buffer: array<char>, p: nat, name: string, ghost was: string, ghost text: string, ghost more: string)
      returns (q: nat)
    requires Copied(buffer[..], was, text, p) && text[p..] == Piece(p == 0, name) + more
    modifies buffer
    ensures q == p + |Piece(p == 0, name)|
    ensures Copied(buffer[..], was, text, q) && text[q..] == more
  {
    CopiedNext(buffer[..], was, text, p, Piece(p == 0, name), more);
    q := Append(buffer, p, name);
  }

  /** The second loop: the supported names, joined by spaces. */
  method CopyNames(table: seq<string>, exts: string, buffer: array<char>) returns (p: nat)
    requires table != [] && CString(exts)
    requires |Pending(table, true, exts)| <= buffer.Length
    modifies buffer
    ensures p == |Pending(table, true, exts)|
    ensures Copied(buffer[..], old(buffer[..]), Pending(table, true, exts), p)
  {
    p := 0;
    var ext := 0;
    ghost var was, text := buffer[..], Pending(table, true, exts);
    assert exts[0..] == exts;
    while ext < |exts|
      invariant ext <= |exts|
      invariant Copied(buffer[..], was, text, p)
      invariant text[p..] == Pending(table, p == 0, exts[ext..])
    {
      var rest := exts[ext..];
      var len := NameEnd(rest);
      EmptyListed(table);
      var ok := IsSupported(table, rest, len);
      if ok {
        p := CopyName(buffer, p, rest[..len], was, text, Pending(table, false, Rest(rest)));
      }
      ext := Skip(exts, ext, len);
    }
  }

  /** The text and its terminator; the first character is cleared beforehand. */
  method FillBuffer(table: seq<string>, exts: string, buffer: array<char>)
    requires table != [] && CString(exts) && Room(table, exts) <= buffer.Length
    modifies buffer
    ensures var text := Joined(Kept(table, exts));
            buffer[..] == text + "\0" + old(buffer[..])[|text| + 1..]
  {
    PendingJoined(table, true, exts);
    ghost var before := buffer[..];
    buffer[0] := '\0';
    ghost var was := buffer[..];
    var p := CopyNames(table, exts, buffer);
    Terminated(before, was, buffer[..], Joined(Kept(table, exts)));
    buffer[p] := '\0';
  }

  lemma {:induction false} Terminated(before: string, was: string, now: string, text: string)
    requires |text| < |before| && was == before[0 := '\0'] && now == text + was[|text|..]
    ensures now[|text| := '\0'] == text + "\0" + before[|text| + 1..]
  {
  }

  /** filter_extensions. The caller may ask for the size alone by passing no buffer. */
  method FilterExtensions(table: seq<string>, exts: string, size: nat, buffer: array?<char>)
      returns (code: int, reported: nat)
    requires table != [] && CString(exts)
    requires buffer != null ==> size <= buffer.Length && (buffer.Length > 0 || Kept(table, exts) != [])
    modifies if buffer == null then {} else {buffer}
    ensures reported == Reported(table, exts)
    ensures code == (if buffer != null && size < reported then CL_INVALID_VALUE else CL_SUCCESS)
    ensures buffer != null && size < reported ==> buffer[..] == old(buffer[..])
    ensures buffer != null && reported <= size ==>
      var text := Joined(Kept(table, exts));
      |text| < buffer.Length && buffer[..] == text + "\0" + old(buffer[..])[|text| + 1..]
  {
    reported := Measure(table, exts);
    if buffer == null {
      return CL_SUCCESS, reported;
    }
    if size < reported {
      return CL_INVALID_VALUE, reported;
    }
    FitsExactly(table, exts, buffer.Length);
    FillBuffer(table, exts, buffer);
    return CL_SUCCESS, reported;
  }
}
