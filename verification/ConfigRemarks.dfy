/** Remarks behind values, as the repository's own README writes them: white space, a '#' and
    some text after `key = value`. The reader does not know them. The value becomes the whole
    rest of the line, and this module says for which keys and values that makes a difference. */
module ConfigRemarks {
  import opened CStrings
  import opened Numerals
  import opened ConfigModel
  import opened ConfigMeaning
  import opened ConfigRoundTrip

  /** White space, then a '#'. */
  predicate Remark(x: string) {
    var n := SkipBlank(x, 0);
    0 < n < |x| && x[n] == '#'
  }

  /** A number or an address means the same with a remark behind it; a string only if it
      fills its buffer without the remark; a switch only if it was off already. */
  predicate Withstands(k: Key, v: string) {
    match KindOf(k)
    case Chars(cap) => |v| >= cap - 1
    case Address | Ident | Word | Integer => true
    case Switch => !IsTrue(v)
  }

  // ---------------------------------------------------------------- the readers of numbers

  /** Text at which every reader of numbers stops. */
  predicate Quiet(y: string) {
    y != "" && (IsSpace(y[0]) || y[0] == '#')
  }

  lemma QuietChar(y: string)
    requires Quiet(y)
    ensures DigitVal(y[0]) == 16 && y[0] !in {'+', '-', '.', '0', 'x', 'X'}
  {
  }

  lemma RemarkQuiet(x: string)
    requires Remark(x)
    ensures Quiet(x) && IsSpace(x[0])
  {
  }

  /** Skipping white space goes on into the remark only when there is nothing else. */
  lemma LStripMore(v: string, x: string) returns (y: string)
    requires Remark(x)
    ensures LStrip(v + x) == LStrip(v) + y && Quiet(y)
    ensures LStrip(v) != "" ==> y == x
  {
    var s := v + x;
    var n := SkipBlank(v, 0);
    if n < |v| {
      SkipIs(s, n);
      y := x;
      assert s[n..] == v[n..] + x;
    } else {
      var m := SkipBlank(x, 0);
      assert forall i | |v| <= i < |v| + m :: s[i] == x[i - |v|];
      SkipIs(s, |v| + m);
      y := x[m..];
      assert s[|v| + m..] == y;
    }
  }

  lemma SkipIs(s: string, n: nat)
    requires n < |s| && Blank(s, 0, n) && !IsSpace(s[n])
    ensures SkipBlank(s, 0) == n
  {
  }

  lemma SignMore(t: string, y: string)
    requires Quiet(y)
    ensures Sign(t + y) == (Sign(t).0, Sign(t).1 + y)
  {
    QuietChar(y);
    if t == "" {
      assert t + y == y;
    } else {
      assert (t + y)[1..] == t[1..] + y;
    }
  }

  lemma RadixMore(u: string, y: string, base: nat)
    requires Quiet(y)
    ensures Radix(u + y, base) == (Radix(u, base).0, Radix(u, base).1 + y)
  {
    QuietChar(y);
    var s := u + y;
    if u == "" {
      assert s == y;
    } else if |u| == 1 {
      assert s[1] == y[0];
    } else if |u| == 2 {
      assert s[2] == y[0];
    } else {
      assert s[2..] == u[2..] + y;
    }
  }

  lemma DigitRunMore(d: string, y: string, b: nat)
    requires Quiet(y) && b <= 16
    ensures DigitRun(d + y, b) == DigitRun(d, b)
  {
    hide DigitRun;
    QuietChar(y);
    var r := DigitRun(d, b);
    var rest := d[|r|..];
    assert d + y == r + (rest + y);
    DigitRunIs(r, rest + y, b);
  }

  lemma StrToULMore(v: string, x: string, base: nat)
    requires Remark(x) && base <= 16
    ensures StrToUL(v + x, base) == StrToUL(v, base)
  {
    hide LStrip, Sign, Radix, DigitRun, Numerals.Value, Remark, Quiet;
    var y := LStripMore(v, x);
    SignMore(LStrip(v), y);
    var u := Sign(LStrip(v)).1;
    RadixMore(u, y, base);
    RadixAtMost(u, base);
    DigitRunMore(Radix(u, base).1, y, Radix(u, base).0);
  }

  lemma RadixAtMost(u: string, base: nat)
    requires base <= 16
    ensures Radix(u, base).0 <= 16
  {
  }

  lemma AtoiMore(v: string, x: string)
    requires Remark(x)
    ensures Atoi(v + x) == Atoi(v)
  {
    hide LStrip, Sign, DigitRun, Numerals.Value, Remark, Quiet, ToInt32;
    var y := LStripMore(v, x);
    SignMore(LStrip(v), y);
    DigitRunMore(Sign(LStrip(v)).1, y, 10);
  }

  lemma ScanUIntMore(v: string, x: string)
    requires Remark(x)
    ensures ScanUInt(v + x) == match ScanUInt(v) case None => None case Some((a, rest)) => Some((a, rest + x))
  {
    hide LStrip, Sign, DigitRun, Numerals.Value, Remark, Quiet, StrToUL, Low;
    var y := LStripMore(v, x);
    SignMore(LStrip(v), y);
    var u := Sign(LStrip(v)).1;
    var run := DigitRun(u, 10);
    DigitRunMore(u, y, 10);
    StrToULMore(v, x, 10);
    if run != "" {
      assert LStrip(v) != "" by { SignOfNothing(); }
      assert (u + x)[|run|..] == u[|run|..] + x;
    }
  }

  lemma SignOfNothing()
    ensures Sign("").1 == "" && forall b :: DigitRun("", b) == ""
  {
  }

  lemma {:induction false} ScanDottedMore(v: string, x: string, n: nat)
    requires Remark(x) && n > 0
    ensures ScanDotted(v + x, n) == ScanDotted(v, n)
    decreases n
  {
    hide ScanUInt, Remark;
    ScanUIntMore(v, x);
    RemarkQuiet(x);
    QuietChar(x);
    match ScanUInt(v)
    case None =>
    case Some((a, rest)) =>
      if n > 1 {
        if rest == "" {
          assert rest + x == x;
        } else {
          assert (rest + x)[1..] == rest[1..] + x;
          ScanDottedMore(rest[1..], x, n - 1);
        }
      }
  }

  // ---------------------------------------------------------------- what a remark does to a value

  lemma FieldMore(v: string, x: string, cap: nat)
    requires cap > 0 && x != "" && x[0] != NUL
    ensures Field(v + x, cap) == Field(v, cap) <==> |v| >= cap - 1
  {
    if |v| >= cap - 1 {
      assert Truncate(v + x, cap - 1) == Truncate(v, cap - 1);
    } else {
      assert Field(v, cap)[|v|] == NUL;
      assert Field(v + x, cap)[|v|] == x[0];
    }
  }

  lemma SwitchMore(v: string, x: string)
    requires Remark(x)
    ensures !IsTrue(v + x)
  {
    var n := SkipBlank(x, 0);
    assert (v + x)[|v| + n] == '#';
  }

  /** Exactly the values that withstand a remark mean the same with one. */
  lemma RemarkMeaning(k: Key, v: string, x: string)
    requires Remark(x)
    ensures Meaning(k, v + x) == Meaning(k, v) <==> Withstands(k, v)
  {
    hide ParseIp, StrToUL, Low, Atoi, Field, IsTrue, Remark;
    RemarkQuiet(x);
    match KindOf(k)
    case Chars(cap) => FieldMore(v, x, cap);
    case Address => ParseIpMore(v, x);
    case Ident | Word => StrToULMore(v, x, 0);
    case Integer => AtoiMore(v, x);
    case Switch => SwitchMore(v, x);
  }

  lemma ParseIpMore(v: string, x: string)
    requires Remark(x)
    ensures ParseIp(v + x) == ParseIp(v)
  {
    hide ScanDotted, Remark;
    ScanDottedMore(v, x, 4);
  }

  // ---------------------------------------------------------------- what it does to a line

  /** What a line with the remark `x` behind it adds to the value: blanks at the line's end,
      and the remark without the blanks at its own. */
  function Added(l: string, x: string): string {
    l[DropBlank(l, |l|)..] + RStripped(x)
  }

  lemma AddedRemark(l: string, x: string)
    requires Remark(x)
    ensures Remark(Added(l, x))
  {
    var n := SkipBlank(x, 0);
    var a := l[DropBlank(l, |l|)..];
    var y := Added(l, x);
    var e := DropBlank(x, |x|);
    assert n < e;
    assert forall i | 0 <= i < |a| :: a[i] == l[|l| - |a| + i];
    assert forall i | |a| <= i < |y| :: y[i] == x[i - |a|];
    SkipIs(y, |a| + n);
  }

  lemma DropIs(s: string, n: nat)
    requires 0 < n <= |s| && Blank(s, n, |s|) && !IsSpace(s[n - 1])
    ensures DropBlank(s, |s|) == n
  {
  }

  /** Stripping keeps everything between the text and the remark's last character. */
  lemma StripMore(l: string, x: string)
    requires Strip(l) != "" && Remark(x)
    ensures Strip(l + x) == Strip(l) + Added(l, x)
  {
    hide Strip, Remark, IsSpace;
    var i, j := StripSpan(l);
    var d := DropBlank(x, |x|);
    MiddleMore(l, x, i, j);
    DropIs(l, j);
    StripIs(l + x, i, |l| + d);
    assert (l + x)[i..|l| + d] == l[i..j] + (l[j..] + x[..d]);
  }

  lemma MiddleMore(l: string, x: string, i: nat, j: nat)
    requires Middle(l, i, j) && i < j && Remark(x)
    ensures Middle(l + x, i, |l| + DropBlank(x, |x|))
  {
    var s, d := l + x, DropBlank(x, |x|);
    assert SkipBlank(x, 0) < d;
    hide IsSpace, SkipBlank, DropBlank, Remark;
    assert s[i] == l[i] && s[|l| + d - 1] == x[d - 1];
    BlankShift(s, |l|, |l| + d, |s|);
    assert s[|l|..] == x;
    assert forall m | 0 <= m < i :: s[m] == l[m];
  }

  /** An added remark does not end in white space. */
  lemma AddedEnds(l: string, x: string)
    requires Remark(x)
    ensures Added(l, x) != "" && !IsSpace(Added(l, x)[|Added(l, x)| - 1])
  {
    var d := DropBlank(x, |x|);
    assert SkipBlank(x, 0) < d;
  }

  lemma StripEnded(q: string, z: string)
    requires q != "" && Strip(q) != "" && !IsSpace(q[|q| - 1])
    requires Remark(z) && !IsSpace(z[|z| - 1])
    ensures Strip(q + z) == Strip(q) + z
  {
    hide Strip;
    StripMore(q, z);
    DropIs(q, |q|);
    DropIs(z, |z|);
    assert q[|q|..] + z == z;
  }

  /** The text `t` of a line, cut at its first '='. */
  predicate CutsAt(t: string, n: nat) {
    && n < |t| && t[0] != '#' && t[0] != ';'
    && t[n] == '=' && forall i | 0 <= i < n :: t[i] != '='
  }

  lemma AssignmentOf(body: string, n: nat)
    requires CutsAt(Strip(body), n)
    ensures var t := Strip(body); var key, val := Strip(t[..n]), Strip(t[n + 1..]);
      Assignment(body) == if key == "" || val == "" then None else Some((key, val))
  {
    hide Strip;
    UntilIs(Strip(body), {'='}, n);
  }

  lemma AssignmentCuts(body: string) returns (n: nat)
    requires Assignment(body).Some?
    ensures CutsAt(Strip(body), n)
  {
    hide Strip;
    n := |Until(Strip(body), {'='})|;
  }

  /** The line assigns the same key; its value is the old one with the remark. */
  lemma RemarkAssignment(l: string, x: string)
    requires Assignment(l).Some? && Remark(x)
    ensures Assignment(l + x) == Some((Assignment(l).value.0, Assignment(l).value.1 + Added(l, x)))
  {
    hide Strip, Added, Remark, IsSpace, Assignment;
    var t, z := Strip(l), Added(l, x);
    var n := AssignmentCuts(l);
    AssignmentOf(l, n);
    StripMore(l, x);
    StripTrimmed(l);
    AddedRemark(l, x);
    AddedEnds(l, x);
    var q := t[n + 1..];
    assert (t + z)[..n] == t[..n] && (t + z)[n + 1..] == q + z;
    AssignmentOf(l + x, n);
    StripTrimmed("");
    assert q[|q| - 1] == t[|t| - 1];
    StripEnded(q, z);
  }

  lemma RemarkAssigned(l: string, x: string)
    requires Assigned(l).Some? && Remark(x)
    ensures Assigned(l + x) == Some((Assigned(l).value.0, Assigned(l).value.1 + Added(l, x)))
  {
    hide Assignment, KeyOf, Added, Remark;
    RemarkAssignment(l, x);
  }

  // ---------------------------------------------------------------- what it does to a file

  /** The effect of a remark behind one line of a file: the loaded record is the same if and
      only if the line's value withstands remarks, or a later line assigns the key again. */
  lemma RemarkEffect(lines: seq<string>, i: nat, x: string, path: string)
    requires i < |lines| && FitLines(lines[i := lines[i] + x])
    requires Free(lines[i], ENDS) && Free(x, ENDS) && Remark(x) && Assigned(lines[i]).Some?
    ensures var (k, v) := Assigned(lines[i]).value;
      Load(Join(lines[i := lines[i] + x], '\n'), path) == Load(Join(lines, '\n'), path)
      <==> Withstands(k, v) || exists j | i < j < |lines| :: Assigns(Body(lines[j]), k)
  {
    hide Assigned, Remark, Body, Withstands, Bodies, Run, Start, Get, Meaning, Added, Join, Latest, Mirrored;
    var l, more := lines[i], lines[i := lines[i] + x];
    var (k, v) := Assigned(l).value;
    ShorterFits(lines, i, x);
    var s := Start(path);
    RunLines(s, lines);
    RunLines(s, more);
    BodyOfFree(l);
    BodyOfFree(l + x);
    var a, b := BodiesOf(lines), l + x;
    assert BodiesOf(more) == a[i := b];
    RemarkAssigned(l, x);
    AddedRemark(l, x);
    RemarkMeaning(k, v, Added(l, x));
    var one, two := Run(s, a), Run(s, a[i := b]);
    forall j: Key
      ensures Latest(a[i := b], j) == Latest(a, j) || j == k
      ensures Get(one, j) == match Latest(a, j) case None => Get(s, j) case Some(w) => Meaning(j, w)
      ensures Get(two, j) == match Latest(a[i := b], j) case None => Get(s, j) case Some(w) => Meaning(j, w)
    {
      if j != k { LatestOthers(a, i, b, j); }
      RunLatest(s, a, j);
      RunLatest(s, a[i := b], j);
    }
    LatestReplaced(a, i, b, k);
    SameButOne(one, two, k);
  }

  lemma ShorterFits(lines: seq<string>, i: nat, x: string)
    requires i < |lines| && FitLines(lines[i := lines[i] + x])
    ensures FitLines(lines)
  {
    var more := lines[i := lines[i] + x];
    forall l | l in lines
      ensures |l| < LINE_SIZE && Free(l, {'\n'})
    {
      var j :| 0 <= j < |lines| && lines[j] == l;
      assert more[j] in more;
      assert l <= more[j];
    }
  }

  /** Two records that can differ in one key only are equal if they agree there. */
  lemma SameButOne(s: Settings, t: Settings, k: Key)
    requires forall j :: j == k || Get(s, j) == Get(t, j)
    requires Mirrored(s) && Mirrored(t) && s.configFile == t.configFile
    ensures s == t <==> Get(s, k) == Get(t, k)
  {
    hide Get, Mirrored;
    if Get(s, k) == Get(t, k) { SameSettings(s, t); }
  }

  // ---------------------------------------------------------------- the documented lines

  /** An entry as the documentation writes it. */
  lemma SpacedEntry(k: Key, v: string)
    requires Plain(v)
    ensures Free(KeyName(k) + " = " + v, ENDS) && Assigned(KeyName(k) + " = " + v) == Some((k, v))
  {
    var n := KeyName(k);
    KeyNames(k);
    KeyOfName(k);
    hide KeyName, KeyOf, Strip;
    var t := n + " = " + v;
    StripTrimmed(t);
    assert forall i | 0 <= i <= |n| :: t[i] == (n + " ")[i];
    assert t[|n| + 1] == '=';
    UntilIs(t, {'='}, |n| + 1);
    assert t[..|n| + 1] == n + " " && t[|n| + 2..] == " " + v;
    StripPadded("", n, " ");
    StripPadded(" ", v, "");
  }

  lemma StripPadded(a: string, t: string, b: string)
    requires Blank(a, 0, |a|) && Blank(b, 0, |b|) && Trimmed(t)
    ensures Strip(a + t + b) == t && a + t + "" == a + t && "" + t + b == t + b
  {
    hide Strip, IsSpace;
    var s := a + t + b;
    assert forall i | 0 <= i < |t| :: s[|a| + i] == t[i];
    assert forall i | 0 <= i < |a| :: s[i] == a[i];
    assert forall i | |a| + |t| <= i < |s| :: s[i] == b[i - |a| - |t|];
    StripIs(s, |a|, |a| + |t|);
    assert s[|a|..|a| + |t|] == t;
  }

  /** With a remark a switch is off whatever it said, and a number or an address is what it
      says. */
  lemma RemarkedEntry(k: Key, v: string, x: string, path: string)
    requires Plain(v) && Remark(x) && Free(x, ENDS) && |KeyName(k)| + 3 + |v| + |x| < LINE_SIZE
    ensures var r := Get(Load(KeyName(k) + " = " + v + x, path), k);
      match KindOf(k)
      case Chars(cap) => r == Text(Field(v + x[..DropBlank(x, |x|)], cap))
      case Address | Ident | Word | Integer => r == Meaning(k, v)
      case Switch => r == Flag(false)
  {
    hide Load, KeyName, Assigned, Get, Remark, Body, ParseIp, StrToUL, Atoi, Low, Field, IsTrue, Join, Added;
    var l := KeyName(k) + " = " + v;
    SpacedEntry(k, v);
    RemarkAssigned(l, x);
    AddedToPlain(k, v, x);
    AddedRemark(l, x);
    BodyOfFree(l + x);
    FileLastWriteWins([l + x], path, k, 0);
    assert Join([l + x], '\n') == l + x by { JoinOne(l + x); }
    RemarkMeaning(k, v, Added(l, x));
    SwitchMore(v, Added(l, x));
  }

  lemma JoinOne(l: string)
    ensures Join([l], '\n') == l
  {
  }

  lemma AddedToPlain(k: Key, v: string, x: string)
    requires Plain(v)
    ensures Added(KeyName(k) + " = " + v, x) == x[..DropBlank(x, |x|)]
  {
    hide KeyName;
    var l := KeyName(k) + " = " + v;
    assert l[|l| - 1] == v[|v| - 1];
    DropIs(l, |l|);
  }

  const LOCK_REMARK := "         # mlockall"
  const PRIORITY_REMARK := "        # SCHED_FIFO"

  /** Two lines of the README's example: memory is not locked, the priority is 80. */
  lemma TrailingComment(path: string)
    ensures Get(Load(KeyName(LockMemory) + " = " + "1" + LOCK_REMARK, path), LockMemory) == Flag(false)
    ensures Get(Load(KeyName(RtPriority) + " = " + "80" + PRIORITY_REMARK, path), RtPriority) == Number(80)
  {
    hide Load, Get, Atoi, ShowInt, Remark, KeyName, LOCK_REMARK, PRIORITY_REMARK;
    LockRemark();
    PriorityRemark();
    KeyNames(LockMemory);
    KeyNames(RtPriority);
    RemarkedSwitch(LockMemory, "1", LOCK_REMARK, path);
    var v := ShowInt(80);
    IntShape(80);
    IntRoundTrip(80);
    RemarkedInteger(RtPriority, v, PRIORITY_REMARK, path);
    Eighty();
  }

  lemma RemarkedSwitch(k: Key, v: string, x: string, path: string)
    requires Plain(v) && Remark(x) && Free(x, ENDS) && |KeyName(k)| + 3 + |v| + |x| < LINE_SIZE
    requires KindOf(k).Switch?
    ensures Get(Load(KeyName(k) + " = " + v + x, path), k) == Flag(false)
  {
    hide Load, Get, Remark, KeyName;
    RemarkedEntry(k, v, x, path);
  }

  lemma RemarkedInteger(k: Key, v: string, x: string, path: string)
    requires Plain(v) && Remark(x) && Free(x, ENDS) && |KeyName(k)| + 3 + |v| + |x| < LINE_SIZE
    requires KindOf(k).Integer?
    ensures Get(Load(KeyName(k) + " = " + v + x, path), k) == Number(Atoi(v))
  {
    hide Load, Get, Remark, KeyName, Atoi;
    RemarkedEntry(k, v, x, path);
  }

  lemma LockRemark()
    ensures Remark(LOCK_REMARK) && Free(LOCK_REMARK, ENDS) && |LOCK_REMARK| < 30
  {
    SkipIs(LOCK_REMARK, 9);
  }

  lemma PriorityRemark()
    ensures Remark(PRIORITY_REMARK) && Free(PRIORITY_REMARK, ENDS) && |PRIORITY_REMARK| < 30
  {
    SkipIs(PRIORITY_REMARK, 8);
  }

  lemma Eighty()
    ensures ShowInt(80) == "80"
  {
  }
}
