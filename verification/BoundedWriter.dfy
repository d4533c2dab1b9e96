/** snprintf into the rest of a bounded buffer, as the script and the report writer call it
    again and again with a growing offset (ISO/IEC 9899:2011 section 7.21.6.5). */
module BoundedWriter {
  import opened CStrings

  /** What a buffer that held `was` holds when `text` has been printed into its first `len`
      bytes: as much of the text as fits, a NUL, and whatever was there behind it. */
  function Written(was: seq<char>, len: nat, text: string): (b: seq<char>)
    requires 0 < len <= |was|
    ensures |b| == |was|
  {
    var t := Truncate(text, len - 1);
    t + [NUL] + was[|t| + 1..]
  }

  method SNPrintf(buf: array<char>, off: nat, size: nat, text: string) returns (written: nat)
    requires size > 0 && off + size <= buf.Length
    modifies buf
    ensures written == |text|
    ensures buf[..] == old(buf[..off]) + Written(old(buf[off..]), size, text)
  {
    ghost var was := buf[..];
    var m := if |text| < size then |text| else size - 1;
    var i := 0;
    while i < m
      invariant 0 <= i <= m
      invariant forall k | 0 <= k < buf.Length ::
        buf[k] == if off <= k < off + i then text[k - off] else was[k]
    {
      buf[off + i] := text[i];
      i := i + 1;
    }
    buf[off + m] := NUL;
    assert was[off..] == old(buf[off..]) && was[..off] == old(buf[..off]);
    assert buf[..] == was[..off] + Written(was[off..], size, text);
    written := |text|;
  }

  /** One more print after `before`, which fitted. */
  method Print(buf: array<char>, len: nat, off: nat, ghost was: seq<char>, ghost before: string, text: string)
    returns (written: nat)
    requires 0 < len <= buf.Length == |was| && off == |before| < len
    requires buf[..] == Written(was, len, before)
    modifies buf
    ensures written == |text|
    ensures buf[..] == Written(was, len, before + text)
  {
    ghost var now := buf[..];
    assert now[..off] == buf[..off] == before && now[off..] == buf[off..];
    written := SNPrintf(buf, off, len - off, text);
    PrintMore(was, len, before, text);
  }

  lemma PrintMore(was: seq<char>, len: nat, before: string, text: string)
    requires 0 < len <= |was| && |before| < len
    ensures var now := Written(was, len, before);
      now[..|before|] + Written(now[|before|..], len - |before|, text) == Written(was, len, before + text)
  {
    var now := Written(was, len, before);
    var n := |before|;
    var t := Truncate(text, len - n - 1);
    TruncateMore(before, text, len);
    SliceOfSlice(now, n, |t| + 1);
    TailKept(was, len, before, n + |t| + 1);
    assert now[..n] == before;
  }

  lemma TruncateMore(before: string, text: string, len: nat)
    requires |before| < len
    ensures Truncate(before + text, len - 1) == before + Truncate(text, len - |before| - 1)
  {
  }

  lemma SliceOfSlice(s: seq<char>, a: nat, b: nat)
    requires a + b <= |s|
    ensures s[a..][b..] == s[a + b..]
  {
  }

  /** Behind the NUL nothing is touched. */
  lemma TailKept(was: seq<char>, len: nat, text: string, m: nat)
    requires 0 < len <= |was| && |text| < m <= |was| && |text| < len
    ensures Written(was, len, text)[m..] == was[m..]
  {
    var w := text + [NUL];
    assert Written(was, len, text) == w + was[|w|..];
  }

  /** Once the buffer is full, later text makes no difference. */
  lemma FullAlready(was: seq<char>, len: nat, text: string, full: string)
    requires 0 < len <= |was| && text <= full && |text| >= len
    ensures Written(was, len, text) == Written(was, len, full)
  {
    assert text[..len - 1] == full[..len - 1];
  }

  lemma WrittenString(was: seq<char>, len: nat, text: string)
    requires 0 < len <= |was| && Free(text, {NUL})
    ensures CStr(Written(was, len, text)) == Truncate(text, len - 1)
  {
    var t := Truncate(text, len - 1);
    UntilIs(Written(was, len, text), {NUL}, |t|);
    assert Written(was, len, text)[..|t|] == t;
  }
}
