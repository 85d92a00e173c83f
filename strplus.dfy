/**
 * NUL-terminated string utilities. A C string is a character buffer (an array) holding a NUL
 * somewhere; its text is what comes before the first NUL. Address arithmetic becomes an offset
 * into the buffer, and a destination size is a separate argument that the caller promises is
 * no larger than the buffer.
 */
module StringPlus {
  import opened Common

  const NUL: char := '\0'

  predicate Terminated(buf: seq<char>)
  {
    exists i :: 0 <= i < |buf| && buf[i] == NUL
  }

  /** The index of the first NUL: the length of the text. */
  function CLen(buf: seq<char>): (n: nat)
    requires Terminated(buf)
    ensures n < |buf| && buf[n] == NUL
    ensures forall k :: 0 <= k < n ==> buf[k] != NUL
    decreases |buf|
  {
    if buf[0] == NUL then 0
    else
      assert Terminated(buf[1..]) by {
        var i :| 0 <= i < |buf| && buf[i] == NUL;
        assert buf[1..][i - 1] == NUL;
      }
      1 + CLen(buf[1..])
  }

  /** The text of a C string. */
  function Str(buf: seq<char>): (s: seq<char>)
    requires Terminated(buf)
    ensures NUL !in s && |s| < |buf|
    ensures buf[..|s|] == s && buf[|s|] == NUL
  {
    buf[..CLen(buf)]
  }

  predicate IsPrefix(p: seq<char>, s: seq<char>)
  {
    |p| <= |s| && s[..|p|] == p
  }

  predicate IsSuffix(p: seq<char>, s: seq<char>)
  {
    |p| <= |s| && s[|s| - |p|..] == p
  }

  /** string_length: the characters before the first NUL. */
  method StringLength(s: array<char>) returns (n: nat)
    requires Terminated(s[..])
    ensures n == |Str(s[..])|
  {
    n := 0;
    while s[n] != NUL
      invariant n <= CLen(s[..])
      decreases CLen(s[..]) - n
    {
      n := n + 1;
    }
  }

  /** string_equals: equal lengths and equal characters. */
  method StringEquals(a: array<char>, b: array<char>) returns (eq: bool)
    requires Terminated(a[..]) && Terminated(b[..])
    ensures eq <==> Str(a[..]) == Str(b[..])
  {
    var la := StringLength(a);
    var lb := StringLength(b);
    if la != lb {
      return false;
    }
    var i := 0;
    while i < la
      invariant i <= la
      invariant forall k :: 0 <= k < i ==> a[k] == b[k]
    {
      if a[i] != b[i] {
        assert Str(a[..])[i] != Str(b[..])[i];
        return false;
      }
      i := i + 1;
    }
    assert Str(a[..]) == Str(b[..]);
    return true;
  }

  /** string_starts_with: false when the target is longer. */
  method StringStartsWith(s: array<char>, t: array<char>) returns (r: bool)
    requires Terminated(s[..]) && Terminated(t[..])
    ensures r <==> IsPrefix(Str(t[..]), Str(s[..]))
  {
    var ls := StringLength(s);
    var lt := StringLength(t);
    if ls < lt {
      return false;
    }
    var i := 0;
    while i < lt
      invariant i <= lt
      invariant forall k :: 0 <= k < i ==> s[k] == t[k]
    {
      if s[i] != t[i] {
        assert Str(s[..])[..lt][i] != Str(t[..])[i];
        return false;
      }
      i := i + 1;
    }
    assert Str(s[..])[..lt] == Str(t[..]);
    return true;
  }

  /** string_ends_with: the target's characters sit at the end of the string. */
  method StringEndsWith(s: array<char>, t: array<char>) returns (r: bool)
    requires Terminated(s[..]) && Terminated(t[..])
    ensures r <==> IsSuffix(Str(t[..]), Str(s[..]))
  {
    var ls := StringLength(s);
    var lt := StringLength(t);
    if ls < lt {
      return false;
    }
    var i := 0;
    while i < lt
      invariant i <= lt
      invariant forall k :: 0 <= k < i ==> s[ls - lt + k] == t[k]
    {
      var endOffset := ls - lt;
      if s[endOffset + i] != t[i] {
        assert Str(s[..])[ls - lt..][i] != Str(t[..])[i];
        return false;
      }
      i := i + 1;
    }
    assert Str(s[..])[ls - lt..] == Str(t[..]);
    return true;
  }

  /** The first position at or after p, before the end of s, where t starts. */
  function FindFrom(s: seq<char>, t: seq<char>, p: nat): (r: Option<nat>)
    decreases |s| - p
  {
    if p >= |s| then None
    else if IsPrefix(t, s[p..]) then Some(p)
    else FindFrom(s, t, p + 1)
  }

  /** FindFrom returns the first match at or after p, and None only when there is none. */
  lemma {:induction false} FindFromIsFirst(s: seq<char>, t: seq<char>, p: nat)
    ensures FindFrom(s, t, p).Some? ==>
      var q := FindFrom(s, t, p).value;
      p <= q < |s| && IsPrefix(t, s[q..]) && forall k :: p <= k < q ==> !IsPrefix(t, s[k..])
    ensures FindFrom(s, t, p).None? ==> forall k :: p <= k < |s| ==> !IsPrefix(t, s[k..])
    decreases |s| - p
  {
    if p < |s| && !IsPrefix(t, s[p..]) {
      FindFromIsFirst(s, t, p + 1);
    }
  }

  /**
   * string_find as written: the loop runs while the current character IS a NUL, so it looks only
   * at an empty string, and beyond its terminator while the buffer holds NULs. Reading past the
   * buffer is undefined in C; the model stops there with no result.
   */
  function FindAsWritten(buf: seq<char>, t: seq<char>, p: nat): (r: Option<nat>)
    decreases |buf| - p
  {
    if p >= |buf| || buf[p] != NUL then None
    // the string at buf + p is empty, so it starts with t only when t is empty
    else if IsPrefix(t, []) then Some(p)
    else FindAsWritten(buf, t, p + 1)
  }

  /** As written, string_find never finds anything in a non-empty string. */
  lemma FindAsWrittenMissesNonEmpty(buf: seq<char>, t: seq<char>)
    requires Terminated(buf) && |Str(buf)| > 0
    ensures FindAsWritten(buf, t, 0) == None
  {
    assert buf[0] == Str(buf)[0];
    assert buf[0] in Str(buf);
  }

  /** "ab" contains "a" at 0; as written the search reports nothing, the corrected one finds it. */
  lemma FindAsWrittenCounterexample()
    ensures FindAsWritten(['a', 'b', NUL], ['a'], 0) == None
    ensures FindFrom(['a', 'b'], ['a'], 0) == Some(0)
  {
    assert ['a', 'b'][0..][..1] == ['a'];
  }

  /** string_find with the loop running while the current character is NOT a NUL: the first occurrence's offset. */
  method StringFind(s: array<char>, t: array<char>) returns (r: Option<nat>)
    requires Terminated(s[..]) && Terminated(t[..])
    ensures r == FindFrom(Str(s[..]), Str(t[..]), 0)
  {
    var p := 0;
    ghost var S := Str(s[..]);
    ghost var T := Str(t[..]);
    while s[p] != NUL
      invariant p <= |S|
      invariant FindFrom(S, T, p) == FindFrom(S, T, 0)
      decreases |S| - p
    {
      var starts := StartsWithAt(s, p, t);
      if starts {
        return Some(p);
      }
      p := p + 1;
    }
    r := None;
  }

  /** string_starts_with called on the string that begins at offset p. */
  method StartsWithAt(s: array<char>, p: nat, t: array<char>) returns (r: bool)
    requires Terminated(s[..]) && Terminated(t[..]) && p <= |Str(s[..])|
    ensures r <==> IsPrefix(Str(t[..]), Str(s[..])[p..])
  {
    var ls := StringLength(s);
    var lt := StringLength(t);
    if ls - p < lt {
      return false;
    }
    var i := 0;
    while i < lt
      invariant i <= lt
      invariant forall k :: 0 <= k < i ==> s[p + k] == t[k]
    {
      if s[p + i] != t[i] {
        assert Str(s[..])[p..][..lt][i] != Str(t[..])[i];
        return false;
      }
      i := i + 1;
    }
    assert Str(s[..])[p..][..lt] == Str(t[..]);
    return true;
  }

  /**
   * copy_bytes: count characters from src at from to dst at to; nothing else in dst changes.
   * The buffers may be the same one when the ranges coincide: each character is then copied onto itself.
   */
  method CopyBytes(src: array<char>, from: nat, dst: array<char>, to: nat, count: nat)
    requires (src != dst || from == to) && from + count <= src.Length && to + count <= dst.Length
    modifies dst
    ensures dst[to..to + count] == old(src[from..from + count])
    ensures forall k :: 0 <= k < dst.Length && !(to <= k < to + count) ==> dst[k] == old(dst[k])
  {
    var i := 0;
    while i < count
      invariant i <= count
      invariant src != dst ==> src[..] == old(src[..])
      invariant forall k :: to <= k < to + i ==> dst[k] == old(src[from + (k - to)])
      invariant forall k :: 0 <= k < dst.Length && !(to <= k < to + i) ==> dst[k] == old(dst[k])
    {
      dst[to + i] := src[from + i];
      i := i + 1;
    }
  }

  /** string_heap_copy: a fresh buffer holding the same text and a NUL. */
  method StringHeapCopy(s: array<char>) returns (c: array<char>)
    requires Terminated(s[..])
    ensures fresh(c)
    ensures c[..] == Str(s[..]) + [NUL]
  {
    var length := StringLength(s);
    c := new char[length + 1];
    CopyBytes(s, 0, c, 0, length);
    c[length] := NUL;
    assert c[..] == c[0..length] + [c[length]];
  }

  /** string_heap_concat: a fresh buffer holding A, then B, then a NUL. */
  method StringHeapConcat(a: array<char>, b: array<char>) returns (c: array<char>)
    requires Terminated(a[..]) && Terminated(b[..])
    ensures fresh(c)
    ensures c[..] == Str(a[..]) + Str(b[..]) + [NUL]
  {
    var la := StringLength(a);
    var lb := StringLength(b);
    c := new char[la + lb + 1];
    CopyBytes(a, 0, c, 0, la);
    CopyBytes(b, 0, c, la, lb);
    c[la + lb] := NUL;
    assert c[..] == c[0..la] + c[la..la + lb] + [c[la + lb]];
  }

  /** string_copy_to: refuses, writing nothing, when the text and its NUL do not fit in size. */
  method StringCopyTo(src: array<char>, dst: array<char>, size: nat) returns (ok: bool)
    requires Terminated(src[..]) && src != dst && size <= dst.Length
    modifies dst
    ensures ok <==> |Str(src[..])| + 1 <= size
    ensures !ok ==> dst[..] == old(dst[..])
    ensures ok ==> dst[..|Str(src[..])| + 1] == Str(src[..]) + [NUL]
    ensures ok ==> dst[|Str(src[..])| + 1..] == old(dst[|Str(src[..])| + 1..])
  {
    var length := StringLength(src);
    if size < length + 1 {
      return false;
    }
    CopyBytes(src, 0, dst, 0, length);
    dst[length] := NUL;
    assert dst[..length + 1] == dst[0..length] + [dst[length]];
    return true;
  }

  /** string_concat_to: refuses, writing nothing, when A, B and the NUL do not fit in size; A may be the destination itself, which appends B in place. */
  method StringConcatTo(a: array<char>, b: array<char>, dst: array<char>, size: nat) returns (ok: bool)
    requires Terminated(a[..]) && Terminated(b[..]) && b != dst && size <= dst.Length
    modifies dst
    ensures ok <==> |old(Str(a[..]))| + |Str(b[..])| + 1 <= size
    ensures !ok ==> dst[..] == old(dst[..])
    ensures ok ==> dst[..|old(Str(a[..]))| + |Str(b[..])| + 1] == old(Str(a[..])) + Str(b[..]) + [NUL]
    ensures ok ==> dst[|old(Str(a[..]))| + |Str(b[..])| + 1..] == old(dst[|Str(a[..])| + |Str(b[..])| + 1..])
  {
    var la := StringLength(a);
    var lb := StringLength(b);
    if size < la + lb + 1 {
      return false;
    }
    CopyBytes(a, 0, dst, 0, la);
    CopyBytes(b, 0, dst, la, lb);
    dst[la + lb] := NUL;
    assert dst[..la + lb + 1] == dst[0..la] + dst[la..la + lb] + [dst[la + lb]];
    return true;
  }

  /** string_view_t: a length and an offset into a buffer. */
  datatype StringView = StringView(length: nat, start: nat)

  /** string_extract_string_view: the inclusive interval start..end; the length is computed in size_t. */
  function ExtractView(start: nat, end: nat): (v: StringView)
    requires start < SizeModulus && end < SizeModulus
    ensures v.start == start && v.length < SizeModulus
    ensures start <= end + 1 < SizeModulus ==> v.start + v.length == end + 1
  {
    StringView((end - start + 1) % SizeModulus, start)
  }

  /** The characters a view covers. */
  function ViewChars(buf: seq<char>, v: StringView): seq<char>
    requires v.start + v.length <= |buf|
  {
    buf[v.start..v.start + v.length]
  }

  /** A view of start..end covers exactly the characters at those indices. */
  lemma ExtractViewCovers(buf: seq<char>, start: nat, end: nat)
    requires start <= end < |buf| && end + 1 < SizeModulus
    ensures var v := ExtractView(start, end);
      v.length == end - start + 1 && ViewChars(buf, v) == buf[start..end + 1]
  {
  }

  /** string_view_to_heap_string: a fresh buffer holding the view's characters and a NUL. */
  method StringViewToHeapString(buf: array<char>, v: StringView) returns (c: array<char>)
    requires v.start + v.length <= buf.Length
    ensures fresh(c)
    ensures c[..] == ViewChars(buf[..], v) + [NUL]
  {
    c := new char[v.length + 1];
    CopyBytes(buf, v.start, c, 0, v.length);
    c[v.length] := NUL;
    assert c[..] == c[0..v.length] + [c[v.length]];
  }

  /** string_view_to_string: refuses, writing nothing, when the characters and the NUL do not fit in size. */
  method StringViewToString(buf: array<char>, v: StringView, dst: array<char>, size: nat) returns (ok: bool)
    requires v.start + v.length <= buf.Length && buf != dst && size <= dst.Length
    modifies dst
    ensures ok <==> v.length + 1 <= size
    ensures !ok ==> dst[..] == old(dst[..])
    ensures ok ==> dst[..v.length + 1] == ViewChars(buf[..], v) + [NUL]
    ensures ok ==> dst[v.length + 1..] == old(dst[v.length + 1..])
  {
    if size < v.length + 1 {
      return false;
    }
    CopyBytes(buf, v.start, dst, 0, v.length);
    dst[v.length] := NUL;
    assert dst[..v.length + 1] == dst[0..v.length] + [dst[v.length]];
    return true;
  }
}
