/** Which OpenCL extensions of the host are shown to Windows programs. */
module ClExtensions {

  // ----- strncasecmp -----

  /** ASCII case folding. */
  function Lower(c: char): char {
    if 'A' <= c <= 'Z' then (c as int + 32) as char else c
  }

  /** The same character, or the two cases of one ASCII letter. */
  predicate SameLetter(a: char, b: char) {
    || a == b
    || ('A' <= a <= 'Z' && b as int - a as int == 32)
    || ('A' <= b <= 'Z' && a as int - b as int == 32)
  }

  /** Folding makes exactly these equal. */
  lemma {:induction false} FoldsExactly(a: char, b: char)
    ensures Lower(a) == Lower(b) <==> SameLetter(a, b)
  {
    assert Lower(a) as int == (if 'A' <= a <= 'Z' then a as int + 32 else a as int);
    assert Lower(b) as int == (if 'A' <= b <= 'Z' then b as int + 32 else b as int);
  }

  /** Equal, ignoring case. */
  predicate Alike(a: string, b: string) {
    |a| == |b| && forall i :: 0 <= i < |a| ==> SameLetter(a[i], b[i])
  }

  /** The entry begins with the name, ignoring case. */
  predicate Begins(name: string, entry: string) {
    |name| <= |entry| && forall i :: 0 <= i < |name| ==> SameLetter(name[i], entry[i])
  }

  /** A C string: the terminator is not part of it and not inside it. */
  predicate CString(s: string) { '\0' !in s }

  function CharAt(s: string): char { if s == "" then '\0' else s[0] }

  /** Whether strncasecmp returns zero. */
  predicate SameN(a: string, b: string, len: nat)
    decreases len
  {
    if len == 0 then true
    else if Lower(CharAt(a)) != Lower(CharAt(b)) then false
    else if a == "" || b == "" then true
    else SameN(a[1..], b[1..], len - 1)
  }

  function Clip(s: string, len: nat): string { if len <= |s| then s[..len] else s }

  /** It compares the first len characters, or less if a string ends before, ignoring case. */
  lemma {:induction false} SameNMeans(a: string, b: string, len: nat)
    requires CString(a) && CString(b)
    ensures SameN(a, b, len) <==> Alike(Clip(a, len), Clip(b, len))
    decreases len
  {
    if len > 0 {
      FoldsExactly(CharAt(a), CharAt(b));
      if a != "" && b != "" {
        SameNMeans(a[1..], b[1..], len - 1);
        ConsAlike(a[0], Clip(a[1..], len - 1), b[0], Clip(b[1..], len - 1));
        assert Clip(a, len) == [a[0]] + Clip(a[1..], len - 1) && Clip(b, len) == [b[0]] + Clip(b[1..], len - 1);
      }
    }
  }

  lemma {:induction false} ConsAlike(a: char, s: string, b: char, t: string)
    ensures Alike([a] + s, [b] + t) <==> SameLetter(a, b) && Alike(s, t)
  {
    if Alike([a] + s, [b] + t) {
      assert SameLetter(([a] + s)[0], ([b] + t)[0]);
      assert forall i :: 0 <= i < |s| ==> s[i] == ([a] + s)[i + 1] && t[i] == ([b] + t)[i + 1];
    }
  }

  // ----- extension_is_supported -----

  /** The table, in the order of the source. */
  const UNSUPPORTED: seq<string> := [
    "cl_apple_contextloggingfunctions", "cl_apple_setmemobjectdestructor",
    "cl_arm_import_memory", "cl_arm_shared_virtual_memory",
    "cl_ext_device_fission", "cl_ext_migrate_memobject",
    "cl_img_generate_mipmap", "cl_img_use_gralloc_ptr",
    "cl_intel_accelerator", "cl_intel_create_buffer_with_properties",
    "cl_intel_d3d11_nv12_media_sharing", "cl_intel_dx9_media_sharing",
    "cl_intel_unified_shared_memory", "cl_intel_va_api_media_sharing",
    "cl_khr_create_command_queue", "cl_khr_d3d10_sharing",
    "cl_khr_d3d11_sharing", "cl_khr_dx9_media_sharing",
    "cl_khr_egl_event", "cl_khr_egl_image",
    "cl_khr_gl_event", "cl_khr_gl_sharing",
    "cl_khr_icd", "cl_khr_il_program",
    "cl_khr_subgroups", "cl_khr_terminate_context",
    "cl_loader_layers", "cl_nv_d3d10_sharing",
    "cl_nv_d3d11_sharing", "cl_nv_d3d9_sharing",
    "cl_qcom_ext_host_ptr"]

  /** Some entry begins, ignoring case, with the given characters. */
  ghost predicate Listed(table: seq<string>, name: string) {
    exists i :: 0 <= i < |table| && Begins(name, table[i])
  }

  /** The loop over a table, as the code has it. */
  method IsSupported(table: seq<string>, name: string, len: nat) returns (ok: bool)
    requires CString(name) && len <= |name|
    ensures ok <==> !Listed(table, name[..len])
  {
    var i := 0;
    while i < |table|
      invariant 0 <= i <= |table|
      invariant forall j :: 0 <= j < i ==> !Begins(name[..len], table[j])
    {
      PrefixMeans(name, table[i], len);
      if SameN(name, table[i], len) {
        return false;
      }
      i := i + 1;
    }
    return true;
  }

  /** With a length no greater than that of the name, the comparison asks for a prefix. */
  lemma {:induction false} PrefixMeans(name: string, entry: string, len: nat)
    requires CString(name) && len <= |name|
    ensures SameN(name, entry, len) <==> Begins(name[..len], entry)
    decreases len
  {
    if len > 0 {
      FoldsExactly(name[0], CharAt(entry));
      if entry != "" {
        PrefixMeans(name[1..], entry[1..], len - 1);
        ConsBegins(name[0], name[1..][..len - 1], entry[0], entry[1..]);
        assert name[..len] == [name[0]] + name[1..][..len - 1] && entry == [entry[0]] + entry[1..];
      }
    }
  }

  lemma {:induction false} ConsBegins(a: char, s: string, b: char, t: string)
    ensures Begins([a] + s, [b] + t) <==> SameLetter(a, b) && Begins(s, t)
  {
    if Begins([a] + s, [b] + t) {
      assert SameLetter(([a] + s)[0], ([b] + t)[0]);
      assert forall i :: 0 <= i < |s| ==> s[i] == ([a] + s)[i + 1] && t[i] == ([b] + t)[i + 1];
    }
  }

  /** extension_is_supported on the table it has. */
  method ExtensionIsSupported(name: string, len: nat) returns (ok: bool)
    requires CString(name) && len <= |name|
    ensures ok <==> !Listed(UNSUPPORTED, name[..len])
  {
    ok := IsSupported(UNSUPPORTED, name, len);
  }

  /** Shortening keeps a name rejected, so lengthening never makes an accepted one rejected. */
  lemma {:induction false} ListedShorter(table: seq<string>, name: string, len: nat)
    requires Listed(table, name) && len <= |name|
    ensures Listed(table, name[..len])
  {
    var i :| 0 <= i < |table| && Begins(name, table[i]);
    assert Begins(name[..len], table[i]);
  }

  /** Names that differ in the case of letters only get the same answer. */
  lemma {:induction false} ListedIgnoresCase(table: seq<string>, a: string, b: string)
    requires Alike(a, b)
    ensures Listed(table, a) <==> Listed(table, b)
  {
    forall i | 0 <= i < |table| ensures Begins(a, table[i]) <==> Begins(b, table[i]) {
      BeginsAlike(a, b, table[i]);
    }
  }

  lemma {:induction false} BeginsAlike(a: string, b: string, entry: string)
    requires Alike(a, b)
    ensures Begins(a, entry) <==> Begins(b, entry)
  {
    if |a| <= |entry| {
      forall i | 0 <= i < |a| ensures SameLetter(a[i], entry[i]) <==> SameLetter(b[i], entry[i]) {
        FoldsExactly(a[i], b[i]);
        FoldsExactly(a[i], entry[i]);
        FoldsExactly(b[i], entry[i]);
      }
    }
  }

  /** The empty name is rejected. */
  lemma {:induction false} EmptyListed(table: seq<string>)
    requires table != []
    ensures Listed(table, "")
  {
    assert Begins("", table[0]);
  }
}
