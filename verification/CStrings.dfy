/** C strings and text lines as the program uses them: the C library pieces of
    ISO/IEC 9899:2011 that the sources call (isspace 7.4.1.10, strncpy 7.24.2.4,
    strcspn 7.24.5.3, fgets 7.21.7.2), in the "C" locale. A `char` stands for one byte. */
module CStrings {

  datatype Option<+T> = None | Some(value: T)

  const NUL: char := '\0'
  const BREAKS: set<char> := {'\r', '\n'}
  const ENDS: set<char> := {NUL, '\r', '\n'}

  /** isspace in the "C" locale: space, \t, \n, \v, \f, \r. */
  predicate IsSpace(c: char) {
    c == ' ' || '\t' <= c <= '\r'
  }

  /** Only white space from position `i` up to position `j`. */
  predicate Blank(s: string, i: nat, j: nat)
    requires i <= j <= |s|
  {
    forall k | i <= k < j :: IsSpace(s[k])
  }

  predicate Free(s: string, stops: set<char>) {
    forall i | 0 <= i < |s| :: s[i] !in stops
  }

  // ---------------------------------------------------------------- spans

  function Stop(s: string, i: nat, stops: set<char>): (n: nat)
    requires i <= |s|
    ensures i <= n <= |s| && (forall k | i <= k < n :: s[k] !in stops)
    ensures n < |s| ==> s[n] in stops
    decreases |s| - i
  {
    if i == |s| || s[i] in stops then i else Stop(s, i + 1, stops)
  }

  /** The longest prefix of `s` without a character of `stops` (strlen, strcspn and strchr
      all measure one of these). */
  function Until(s: string, stops: set<char>): (r: string)
    ensures r <= s && Free(r, stops)
    ensures forall i | 0 <= i < |r| :: s[i] !in stops
    ensures |r| < |s| ==> s[|r|] in stops
  {
    s[..Stop(s, 0, stops)]
  }

  lemma UntilIs(s: string, stops: set<char>, n: nat)
    requires n <= |s| && (forall i | 0 <= i < n :: s[i] !in stops)
    requires n < |s| ==> s[n] in stops
    ensures Until(s, stops) == s[..n]
  {
    var r := Until(s, stops);
    assert r == s[..|r|];
  }

  /** The C string stored at the start of a buffer. */
  function CStr(b: seq<char>): string {
    Until(b, {NUL})
  }

  // ---------------------------------------------------------------- strip

  function SkipBlank(s: string, i: nat): (n: nat)
    requires i <= |s|
    ensures i <= n <= |s| && Blank(s, i, n) && (n < |s| ==> !IsSpace(s[n]))
    decreases |s| - i
  {
    if i < |s| && IsSpace(s[i]) then SkipBlank(s, i + 1) else i
  }

  function DropBlank(s: string, j: nat): (n: nat)
    requires j <= |s|
    ensures n <= j && Blank(s, n, j) && (n > 0 ==> !IsSpace(s[n - 1]))
  {
    if j > 0 && IsSpace(s[j - 1]) then DropBlank(s, j - 1) else j
  }

  function LStrip(s: string): string {
    s[SkipBlank(s, 0)..]
  }

  function RStrip(s: string): string {
    s[..DropBlank(s, |s|)]
  }

  function Strip(s: string): string {
    RStrip(LStrip(s))
  }

  /** A text whose ends are not white space. */
  predicate Trimmed(s: string) {
    s != [] ==> !IsSpace(s[0]) && !IsSpace(s[|s| - 1])
  }

  /** `s[i..j]` is trimmed and has only white space on both sides. */
  predicate Middle(s: string, i: nat, j: nat) {
    && i <= j <= |s|
    && Blank(s, 0, i) && Blank(s, j, |s|)
    && (i < j ==> !IsSpace(s[i]) && !IsSpace(s[j - 1]))
  }

  lemma BlankShift(s: string, d: nat, i: nat, j: nat)
    requires d <= i <= j <= |s|
    ensures Blank(s[d..], i - d, j - d) <==> Blank(s, i, j)
  {
    assert forall k | i <= k < j :: s[k] == s[d..][k - d];
    assert forall k | i - d <= k < j - d :: s[d..][k] == s[k + d];
  }

  /** Where the stripped text sits in the original. */
  lemma StripSpan(s: string) returns (i: nat, j: nat)
    ensures Middle(s, i, j) && Strip(s) == s[i..j]
  {
    i := SkipBlank(s, 0);
    var l := s[i..];
    var n := DropBlank(l, |l|);
    j := i + n;
    BlankShift(s, i, j, |s|);
    assert n > 0 ==> l[0] == s[i] && l[n - 1] == s[j - 1];
  }

  /** Strip is determined by its meaning: there is no other trimmed middle. */
  lemma StripIs(s: string, i: nat, j: nat)
    requires Middle(s, i, j)
    ensures Strip(s) == s[i..j]
  {
    var a, b := StripSpan(s);
    assert i < j ==> a <= i && j <= b;
    assert a < b ==> i <= a && b <= j;
    assert s[a..b] == s[i..j];
  }

  lemma StripTrimmed(s: string)
    ensures Trimmed(Strip(s))
    ensures Trimmed(s) ==> Strip(s) == s
    ensures Strip(s) == [] <==> Blank(s, 0, |s|)
  {
    var i, j := StripSpan(s);
    if Trimmed(s) {
      assert s[0..|s|] == s;
      StripIs(s, 0, |s|);
    }
    if Blank(s, 0, |s|) {
      StripIs(s, |s|, |s|);
    }
  }

  lemma StripKeepsFree(s: string, stops: set<char>)
    requires Free(s, stops)
    ensures Free(Strip(s), stops)
  {
    var i, j := StripSpan(s);
  }

  // ---------------------------------------------------------------- fixed-size buffers

  function Zeros(n: nat): (z: seq<char>)
    ensures |z| == n && forall i | 0 <= i < n :: z[i] == NUL
  {
    seq(n, _ => NUL)
  }

  /** A buffer of `cap` bytes whose last byte is a NUL, as every `char[cap]` of the
      program's records is after `memset` and `strncpy(.., cap - 1)`. */
  predicate Terminated(b: seq<char>) {
    |b| > 0 && b[|b| - 1] == NUL
  }

  function Padded(t: string, cap: nat): seq<char>
    requires |t| <= cap
  {
    t + Zeros(cap - |t|)
  }

  function Truncate(v: string, n: nat): string {
    if |v| <= n then v else v[..n]
  }

  /** strncpy(buf, v, sizeof buf - 1): copy, then pad with NULs up to the last byte. */
  function NCopy(buf: seq<char>, v: string): seq<char>
    requires |buf| > 0
  {
    Padded(Truncate(v, |buf| - 1), |buf| - 1) + [buf[|buf| - 1]]
  }

  function Field(v: string, cap: nat): (b: seq<char>)
    requires cap > 0
    ensures |b| == cap && Terminated(b)
  {
    Padded(Truncate(v, cap - 1), cap)
  }

  /** No residue: what a terminated buffer held before has no influence on the result. */
  lemma NCopyForgets(buf: seq<char>, v: string)
    requires Terminated(buf)
    ensures NCopy(buf, v) == Field(v, |buf|)
  {
  }

  lemma PaddedText(t: string, cap: nat)
    requires |t| < cap && Free(t, {NUL})
    ensures CStr(Padded(t, cap)) == t && Terminated(Padded(t, cap))
  {
    assert Padded(t, cap)[..|t|] == t;
    UntilIs(Padded(t, cap), {NUL}, |t|);
  }

  lemma TerminatedText(b: seq<char>)
    requires Terminated(b)
    ensures |CStr(b)| < |b|
  {
  }

  // ---------------------------------------------------------------- lines

  /** Every line followed by a line feed. */
  function Unlines(lines: seq<string>): string {
    if lines == [] then [] else lines[0] + ['\n'] + Unlines(lines[1..])
  }

  lemma {:induction false} UnlinesConcat(a: seq<string>, b: seq<string>)
    ensures Unlines(a + b) == Unlines(a) + Unlines(b)
  {
    if a == [] {
      assert a + b == b;
    } else {
      UnlinesConcat(a[1..], b);
      assert (a + b)[1..] == a[1..] + b;
      Associative(a[0] + ['\n'], Unlines(a[1..]), Unlines(b));
    }
  }

  lemma Associative(a: string, b: string, c: string)
    ensures (a + b) + c == a + (b + c)
  {
  }

  /** The parts with `c` between neighbours. */
  function Join(parts: seq<string>, c: char): string {
    if parts == [] then ""
    else if |parts| == 1 then parts[0]
    else parts[0] + [c] + Join(parts[1..], c)
  }

  /** The pieces of `s` between occurrences of `c`. */
  function Split(s: string, c: char): (parts: seq<string>)
    ensures parts != []
    decreases |s|
  {
    var n := Stop(s, 0, {c});
    if n == |s| then [s] else [s[..n]] + Split(s[n + 1..], c)
  }

  lemma StopIs(s: string, stops: set<char>, n: nat)
    requires n <= |s| && (forall i | 0 <= i < n :: s[i] !in stops)
    requires n < |s| ==> s[n] in stops
    ensures Stop(s, 0, stops) == n
  {
  }

  lemma SplitCons(a: string, c: char, rest: string)
    requires Free(a, {c})
    ensures Split(a + [c] + rest, c) == [a] + Split(rest, c)
  {
    var s := a + [c] + rest;
    StopIs(s, {c}, |a|);
    assert s[..|a|] == a && s[|a| + 1..] == rest;
  }

  lemma SplitNone(a: string, c: char)
    requires Free(a, {c})
    ensures Split(a, c) == [a]
  {
    StopIs(a, {c}, |a|);
  }

  /** Splitting distributes over a separator. */
  lemma {:induction false} SplitMore(a: string, c: char, rest: string)
    ensures Split(a + [c] + rest, c) == Split(a, c) + Split(rest, c)
    decreases |a|
  {
    hide Split;
    var n := Stop(a, 0, {c});
    var p := a[..n];
    if n == |a| {
      SplitCons(a, c, rest);
      SplitNone(a, c);
    } else {
      var q := a[n + 1..];
      assert a == p + [c] + q && a + [c] + rest == p + [c] + (q + [c] + rest);
      SplitCons(p, c, q);
      SplitCons(p, c, q + [c] + rest);
      SplitMore(q, c, rest);
      assert [p] + (Split(q, c) + Split(rest, c)) == ([p] + Split(q, c)) + Split(rest, c);
    }
  }

  /** Parts without the separator survive joining and splitting. */
  lemma {:induction false} SplitJoin(parts: seq<string>, c: char)
    requires parts != [] && forall p | p in parts :: Free(p, {c})
    ensures Split(Join(parts, c), c) == parts
  {
    hide Split;
    if |parts| == 1 {
      SplitNone(parts[0], c);
      assert parts == [parts[0]];
    } else {
      SplitJoin(parts[1..], c);
      SplitCons(parts[0], c, Join(parts[1..], c));
      assert parts == [parts[0]] + parts[1..];
    }
  }

  /** Every text is the join of such parts. */
  lemma {:induction false} JoinSplit(s: string, c: char)
    ensures Join(Split(s, c), c) == s
    ensures forall p | p in Split(s, c) :: Free(p, {c})
    decreases |s|
  {
    var n := Stop(s, 0, {c});
    if n < |s| {
      JoinSplit(s[n + 1..], c);
      JoinCons(s[..n], Split(s[n + 1..], c), c);
      assert s == s[..n] + [c] + s[n + 1..];
    } else {
      assert Split(s, c) == [s];
    }
  }

  lemma JoinCons(p: string, parts: seq<string>, c: char)
    requires parts != []
    ensures Join([p] + parts, c) == p + [c] + Join(parts, c)
  {
    assert ([p] + parts)[1..] == parts;
  }

  lemma {:induction false} JoinFree(parts: seq<string>, c: char, d: char)
    requires c != d && forall p | p in parts :: Free(p, {d})
    ensures Free(Join(parts, c), {d})
  {
    if |parts| == 1 {
      assert parts[0] in parts;
    } else if |parts| > 1 {
      JoinFree(parts[1..], c, d);
      assert parts[0] in parts;
    }
  }

  /** A text whose last line ends in a line feed. */
  lemma {:induction false} UnlinesJoin(lines: seq<string>)
    ensures Unlines(lines) == Join(lines + [""], '\n')
  {
    if lines != [] {
      UnlinesJoin(lines[1..]);
      JoinCons(lines[0], lines[1..] + [""], '\n');
      assert lines + [""] == [lines[0]] + (lines[1..] + [""]);
    }
  }

  /** How many bytes one fgets(line, size, fp) call takes from the rest of the file. */
  function ChunkLen(text: string, size: nat): (n: nat)
    requires size >= 2
    ensures n <= |text| && n < size && (text != [] ==> n > 0)
  {
    var m := |Until(text, {'\n'})|;
    var k := if m < |text| then m + 1 else m;
    if k < size then k else size - 1
  }

  /** One chunk after `line[strcspn(line, "\r\n")] = '\0'`. */
  function Body(chunk: string): string {
    Until(chunk, ENDS)
  }
}
