/** The C library and the helpers of the configuration module on char arrays, each proved
    against its function on strings (ISO/IEC 9899:2011 sections 7.21.7.2 and 7.24). */
module CBuffers {
  import opened CStrings
  import opened ConfigModel

  /** strncpy(dst, v, sizeof dst - 1) */
  method StrNCpy(dst: array<char>, v: string)
    requires dst.Length > 0
    modifies dst
    ensures dst[..] == NCopy(old(dst[..]), v)
  {
    ghost var was := dst[..];
    var n := dst.Length - 1;
    var i := 0;
    while i < n
      invariant 0 <= i <= n
      invariant forall j | 0 <= j < i :: dst[j] == if j < |v| then v[j] else NUL
      invariant dst[n] == was[n]
    {
      dst[i] := if i < |v| then v[i] else NUL;
      i := i + 1;
    }
    assert dst[..] == NCopy(was, v);
  }

  /** The C string that starts at `p`. */
  function StringAt(b: seq<char>, p: nat): string
    requires p <= |b|
  {
    CStr(b[p..])
  }

  lemma StringEnds(b: seq<char>, p: nat)
    requires p < |b| && NUL in b[p..]
    ensures var t := StringAt(b, p);
      && p + |t| < |b| && b[p + |t|] == NUL
      && forall k | p <= k < p + |t| :: b[k] == t[k - p] != NUL
  {
    var s := b[p..];
    var t := CStr(s);
    assert forall k | p <= k < |b| :: b[k] == s[k - p];
  }

  lemma StringIs(b: seq<char>, p: nat, n: nat)
    requires p <= n < |b| && b[n] == NUL && forall k | p <= k < n :: b[k] != NUL
    ensures StringAt(b, p) == b[p..n] && NUL in b[p..]
  {
    UntilIs(b[p..], {NUL}, n - p);
    assert b[p..][n - p] == NUL;
  }

  method StrLen(line: array<char>, p: nat) returns (n: nat)
    requires p < line.Length && NUL in line[p..]
    ensures n == |StringAt(line[..], p)|
  {
    hide StringAt;
    StringEnds(line[..], p) by { assert line[p..] == line[..][p..]; }
    ghost var t := StringAt(line[..], p);
    n := 0;
    while line[p + n] != NUL
      invariant 0 <= n <= |t|
      decreases |t| - n
    {
      n := n + 1;
    }
  }

  /** `while (*s && isspace(*s)) s++` */
  method SkipLeading(line: array<char>, s: nat) returns (r: nat)
    requires s < line.Length && NUL in line[s..]
    ensures var t := StringAt(line[..], s);
      && s <= r <= s + |t| < line.Length && line[s + |t|] == NUL
      && t == line[..][s..s + |t|] && NUL !in t
      && Blank(t, 0, r - s) && (r < s + |t| ==> !IsSpace(line[r]))
  {
    hide StringAt, IsSpace;
    ghost var was := line[..];
    ghost var t := StringAt(was, s);
    assert was[s..] == line[s..];
    StringEnds(was, s);
    assert t == was[s..s + |t|];
    r := s;
    while line[r] != NUL && IsSpace(line[r])
      invariant s <= r <= s + |t|
      invariant Blank(t, 0, r - s)
      decreases s + |t| - r
    {
      assert line[r] == was[r];
      r := r + 1;
    }
    assert r < s + |t| ==> line[r] == was[r];
  }

  /** strip: skips leading blanks, overwrites trailing ones with NULs, returns the new start. */
  method StripInPlace(line: array<char>, s: nat) returns (r: nat)
    requires s < line.Length && NUL in line[s..]
    modifies line
    ensures s <= r < line.Length && NUL in line[r..]
    ensures StringAt(line[..], r) == Strip(old(StringAt(line[..], s)))
    ensures r + |StringAt(line[..], r)| <= s + |old(StringAt(line[..], s))|
    ensures forall i | 0 <= i < line.Length && (i < s || s + |old(StringAt(line[..], s))| <= i) ::
      line[i] == old(line[i])
  {
    hide StringAt, Strip, IsSpace;
    ghost var was := line[..];
    ghost var t := StringAt(was, s);
    assert was[s..] == line[s..];
    r := SkipLeading(line, s);
    SuffixString(was, s, r - s);
    assert line[r..] == was[r..];
    var len := StrLen(line, r);
    assert r + len == s + |t|;
    var e := TrimTail(line, r, r + len);
    assert line[..][r..] == line[r..];
    StrippedBuffer(was, line[..], s, t, r, e);
  }

  /** What the buffer holds when blanks are skipped up to `r` and overwritten from `e` on. */
  lemma StrippedBuffer(was: seq<char>, now: seq<char>, s: nat, t: string, r: nat, e: nat)
    requires s <= r <= e <= s + |t| < |was| == |now| && t == was[s..s + |t|] && NUL !in t && was[s + |t|] == NUL
    requires forall k | 0 <= k < |was| :: now[k] == if e <= k < s + |t| then NUL else was[k]
    requires Blank(t, 0, r - s) && forall k | e <= k < s + |t| :: IsSpace(was[k])
    requires r < e ==> !IsSpace(was[r]) && !IsSpace(was[e - 1])
    ensures StringAt(now, r) == Strip(t) && NUL in now[r..]
    ensures |Strip(t)| == e - r
  {
    hide StringAt, Strip, IsSpace, Blank;
    StripMeaning(was, s, t, r, e);
    StringIs(now, r, e);
    assert now[r..e] == was[r..e];
  }

  lemma StripMeaning(was: seq<char>, s: nat, t: string, r: nat, e: nat)
    requires s <= r <= e <= s + |t| <= |was| && t == was[s..s + |t|] && NUL !in t
    requires Blank(t, 0, r - s) && forall k | e <= k < s + |t| :: IsSpace(was[k])
    requires r < e ==> !IsSpace(was[r]) && !IsSpace(was[e - 1])
    ensures Strip(t) == was[r..e]
    ensures forall k | r <= k < e :: was[k] != NUL
  {
    hide Strip, IsSpace;
    TailBlank(was, s, t, e);
    assert forall k | s <= k < s + |t| :: was[k] == t[k - s];
    StripIs(t, r - s, e - s);
    assert t[r - s..e - s] == was[r..e];
  }

  lemma TailBlank(was: seq<char>, s: nat, t: string, e: nat)
    requires s <= e <= s + |t| <= |was| && t == was[s..s + |t|]
    requires forall k | e <= k < s + |t| :: IsSpace(was[k])
    ensures Blank(t, e - s, |t|)
  {
    forall k | e - s <= k < |t|
      ensures IsSpace(t[k])
    {
      assert t[k] == was[s + k];
    }
  }

  /** `while (end > s && isspace(*end)) *end-- = 0` on the string from `r` to `n`. */
  method TrimTail(line: array<char>, r: nat, n: nat) returns (e: nat)
    requires r <= n < line.Length && line[n] == NUL && (r < n ==> !IsSpace(line[r]))
    modifies line
    ensures r <= e <= n && (e == r <==> n == r)
    ensures forall k | e <= k < n :: IsSpace(old(line[k]))
    ensures e > r ==> !IsSpace(old(line[e - 1]))
    ensures forall k | 0 <= k < line.Length :: line[k] == if e <= k < n then NUL else old(line[k])
  {
    hide IsSpace;
    e := n;
    while e > r + 1 && IsSpace(line[e - 1])
      invariant r <= e <= n && (e == r <==> n == r)
      invariant forall k | e <= k < n :: IsSpace(old(line[k]))
      invariant forall k | 0 <= k < line.Length :: line[k] == if e <= k < n then NUL else old(line[k])
    {
      line[e - 1] := NUL;
      e := e - 1;
    }
  }

  /** The string that starts inside another one. */
  lemma SuffixString(b: seq<char>, p: nat, d: nat)
    requires p < |b| && NUL in b[p..] && d <= |StringAt(b, p)|
    ensures p + d < |b| && StringAt(b, p + d) == StringAt(b, p)[d..] && NUL in b[p + d..]
  {
    StringEnds(b, p);
    var t := StringAt(b, p);
    StringIs(b, p + d, p + |t|);
  }

  /** fgets(line, sizeof line, fp) on a file whose unread part is text[pos..]. */
  method FGets(line: array<char>, text: string, pos: nat) returns (n: nat)
    requires line.Length >= 2 && pos < |text|
    modifies line
    ensures n == ChunkLen(text[pos..], line.Length)
    ensures n > 0 && pos + n <= |text| && n < line.Length
    ensures line[..n] == text[pos..][..n] && line[n] == NUL
  {
    ghost var rest := text[pos..];
    ghost var m := |Until(rest, {'\n'})|;
    hide Until;
    assert forall k | pos <= k < |text| :: text[k] == rest[k - pos];
    assert m < |rest| ==> rest[m] == '\n' by { UntilFacts(rest, {'\n'}); }
    assert forall k | 0 <= k < m :: rest[k] != '\n' by { UntilFacts(rest, {'\n'}); }
    n := 0;
    while n < line.Length - 1 && pos + n < |text| && (n == 0 || text[pos + n - 1] != '\n')
      invariant 0 <= n < line.Length && n <= |rest| && n <= m + 1
      invariant forall k | 0 <= k < n :: line[k] == rest[k]
      invariant n > 0 && text[pos + n - 1] != '\n' ==> n <= m
    {
      line[n] := text[pos + n];
      n := n + 1;
    }
    line[n] := NUL;
    assert line[..n] == rest[..n];
  }

  lemma UntilFacts(s: string, stops: set<char>)
    ensures var n := |Until(s, stops)|;
      n <= |s| && (forall k | 0 <= k < n :: s[k] !in stops) && (n < |s| ==> s[n] in stops)
  {
  }

  /** strcspn on the string at `p`, and strchr when `stops` is one character: the distance
      to the first character of `stops` or to the end. */
  method StrCSpn(line: array<char>, p: nat, stops: set<char>) returns (n: nat)
    requires p < line.Length && NUL in line[p..]
    ensures n == |Until(StringAt(line[..], p), stops)|
    ensures p + n < line.Length
  {
    hide StringAt, Until;
    ghost var t := StringAt(line[..], p);
    assert line[p..] == line[..][p..];
    StringEnds(line[..], p);
    UntilFacts(t, stops);
    n := 0;
    while line[p + n] != NUL && line[p + n] !in stops
      invariant 0 <= n <= |Until(t, stops)|
      decreases |t| - n
    {
      n := n + 1;
    }
  }

  /** The end of line or of the string found by strcspn in a freshly read chunk. */
  lemma BodyInBuffer(b: seq<char>, chunk: string, n: nat)
    requires |chunk| < |b| && b[..|chunk|] == chunk && b[|chunk|] == NUL
    requires n == |Until(CStr(b), BREAKS)|
    ensures n < |b| && Body(chunk) == CStr(b[n := NUL])
  {
    var t := CStr(b);
    assert |t| <= |chunk|;
    assert forall k | 0 <= k < |chunk| :: b[k] == chunk[k];
    assert forall k | 0 <= k < n :: t[k] == b[k];
    assert n < |t| ==> t[n] == b[n];
    UntilIs(chunk, ENDS, n);
    UntilIs(b[n := NUL], {NUL}, n);
    assert chunk[..n] == b[n := NUL][..n];
  }

  /** fgets, then `line[strcspn(line, "\r\n")] = '\0'`. */
  method ReadLine(line: array<char>, text: string, pos: nat) returns (n: nat)
    requires line.Length >= 2 && pos < |text|
    modifies line
    ensures n == ChunkLen(text[pos..], line.Length) && n > 0 && pos + n <= |text|
    ensures CStr(line[..]) == Body(text[pos..][..n]) && NUL in line[..]
  {
    hide Until, ChunkLen;
    n := FGets(line, text, pos);
    ghost var was := line[..];
    assert was[..n] == line[..n] && line[0..][n] == NUL;
    WholeString(was);
    var b := StrCSpn(line, 0, BREAKS);
    BodyInBuffer(was, text[pos..][..n], b);
    line[b] := NUL;
    assert line[..] == was[b := NUL] && line[..][b] == NUL;
  }

  /** The body of the reading loop up to apply_kv: what assignment does the line make? */
  method SplitLine(line: array<char>) returns (a: Option<(string, string)>)
    requires NUL in line[..]
    modifies line
    ensures a == Assignment(CStr(old(line[..])))
  {
    hide StringAt, Strip, Until;
    ghost var b := StringAt(line[..], 0);
    assert line[..] == line[..][0..] == line[0..];
    WholeString(line[..]);
    var trimmed := StripInPlace(line, 0);
    ghost var t := StringAt(line[..], trimmed);
    assert t == Strip(b);
    ghost var was := line[..];
    assert was[trimmed..] == line[trimmed..];
    StringEnds(was, trimmed);
    if line[trimmed] == NUL || line[trimmed] == '#' || line[trimmed] == ';' {
      return None;
    }
    var n := StrCSpn(line, trimmed, {'='});
    UntilFacts(t, {'='});
    var eq := trimmed + n;
    assert line[eq] == '=' <==> n < |t|;
    if line[eq] != '=' {
      return None;
    }
    var key, val := CutAt(line, trimmed, n);
    a := if key != [] && val != [] then Some((key, val)) else None;
    SplitMeaning(b, t, n);
  }

  /** `*eq = '\0'`, then strip on both parts. */
  method CutAt(line: array<char>, p: nat, n: nat) returns (key: string, val: string)
    requires p < line.Length && NUL in line[p..]
    requires n < |StringAt(line[..], p)| && p + n < line.Length
    modifies line
    ensures key == Strip(old(StringAt(line[..], p))[..n])
    ensures val == Strip(old(StringAt(line[..], p))[n + 1..])
  {
    hide StringAt, Strip;
    ghost var was := line[..];
    assert was[p..] == line[p..];
    var eq := p + n;
    line[eq] := NUL;
    ghost var cut := line[..];
    SplitAt(was, p, n, cut);
    assert cut[p..] == line[p..] && cut[eq + 1..] == line[eq + 1..];
    var k := StripInPlace(line, p);
    ghost var keyed := line[..];
    assert keyed[k..] == line[k..] && line[eq + 1..] == cut[eq + 1..];
    SameTail(cut, keyed, eq + 1);
    var v := StripInPlace(line, eq + 1);
    KeyKept(keyed, line[..], k, eq);
    key, val := StringAt(line[..], k), StringAt(line[..], v);
  }

  lemma SameTail(a: seq<char>, b: seq<char>, p: nat)
    requires p <= |a| == |b| && a[p..] == b[p..]
    ensures StringAt(a, p) == StringAt(b, p)
  {
  }

  lemma WholeString(b: seq<char>)
    ensures StringAt(b, 0) == CStr(b)
  {
    assert b[0..] == b;
  }

  /** Writing a NUL at the separator leaves two strings. */
  lemma SplitAt(was: seq<char>, p: nat, n: nat, now: seq<char>)
    requires p < |was| && NUL in was[p..]
    requires n < |StringAt(was, p)| && p + n < |was|
    requires now == was[p + n := NUL]
    ensures StringAt(now, p) == StringAt(was, p)[..n] && NUL in now[p..]
    ensures p + n + 1 < |now| && NUL in now[p + n + 1..]
    ensures StringAt(now, p + n + 1) == StringAt(was, p)[n + 1..]
  {
    hide StringAt;
    StringEnds(was, p);
    var t := StringAt(was, p);
    StringIs(now, p, p + n);
    StringIs(now, p + n + 1, p + |t|);
    assert now[p..p + n] == t[..n];
    assert now[p + n + 1..p + |t|] == t[n + 1..];
  }

  /** Stripping the value does not touch the key. */
  lemma KeyKept(was: seq<char>, now: seq<char>, key: nat, eq: nat)
    requires key <= eq < |was| == |now| && was[eq] == NUL && NUL in was[key..]
    requires key + |StringAt(was, key)| <= eq
    requires forall i | 0 <= i <= eq :: now[i] == was[i]
    ensures StringAt(now, key) == StringAt(was, key) && NUL in now[key..]
  {
    hide StringAt;
    StringEnds(was, key);
    var e := key + |StringAt(was, key)|;
    StringIs(now, key, e);
    assert now[key..e] == StringAt(was, key);
  }

  lemma SplitMeaning(b: string, t: string, n: nat)
    requires t == Strip(b) && t != [] && t[0] != '#' && t[0] != ';'
    requires n == |Until(t, {'='})| < |t|
    ensures var key, val := Strip(t[..n]), Strip(t[n + 1..]);
      Assignment(b) == if key == [] || val == [] then None else Some((key, val))
  {
    hide Strip;
    assert Until(t, {'='}) == t[..n];
  }
}
