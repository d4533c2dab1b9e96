/** What a configuration file means line by line: every field is decided by the last line
    that assigns it. */
module ConfigMeaning {
  import opened CStrings
  import opened ConfigModel

  predicate Assigns(body: string, k: Key) {
    Assigned(body).Some? && Assigned(body).value.0 == k
  }

  lemma StepGet(s: Settings, body: string, k: Key)
    requires WellFormed(s)
    ensures WellFormed(Step(s, body))
    ensures Get(Step(s, body), k) == if Assigns(body, k) then Meaning(k, Assigned(body).value.1) else Get(s, k)
    ensures Mirrored(s) ==> Mirrored(Step(s, body))
    ensures Step(s, body).configFile == s.configFile
  {
    hide Assignment, KeyOf, Put, Get, Meaning, WellFormed;
    if Assigned(body).Some? {
      PutGet(s, Assigned(body).value.0, Assigned(body).value.1);
    }
  }

  /** Last write wins: line `i` assigns `k` and no later line does. */
  lemma {:induction false} LastWriteWins(s: Settings, bodies: seq<string>, k: Key, i: nat)
    requires WellFormed(s) && i < |bodies| && Assigns(bodies[i], k)
    requires forall j | i < j < |bodies| :: !Assigns(bodies[j], k)
    ensures Get(Run(s, bodies), k) == Meaning(k, Assigned(bodies[i]).value.1)
  {
    hide Assigns, Assigned, Step, Get, Meaning;
    var n := |bodies| - 1;
    StepGet(Run(s, bodies[..n]), bodies[n], k);
    if i < n {
      LastWriteWins(s, bodies[..n], k, i);
    }
  }

  lemma {:induction false} NeverWritten(s: Settings, bodies: seq<string>, k: Key)
    requires WellFormed(s)
    requires forall j | 0 <= j < |bodies| :: !Assigns(bodies[j], k)
    ensures Get(Run(s, bodies), k) == Get(s, k)
  {
    hide Assigns, Assigned, Step, Get;
    if bodies != [] {
      var n := |bodies| - 1;
      StepGet(Run(s, bodies[..n]), bodies[n], k);
      NeverWritten(s, bodies[..n], k);
    }
  }

  /** The value text of the last body that assigns `k`. */
  function Latest(bodies: seq<string>, k: Key): Option<string> {
    if bodies == [] then None
    else
      var b := bodies[|bodies| - 1];
      if Assigns(b, k) then Some(Assigned(b).value.1) else Latest(bodies[..|bodies| - 1], k)
  }

  /** Both cases at once. */
  lemma {:induction false} RunLatest(s: Settings, bodies: seq<string>, k: Key)
    requires WellFormed(s)
    ensures Get(Run(s, bodies), k) == match Latest(bodies, k) case None => Get(s, k) case Some(v) => Meaning(k, v)
  {
    hide Assigns, Assigned, Step, Get, Meaning, WellFormed;
    if bodies != [] {
      var n := |bodies| - 1;
      StepGet(Run(s, bodies[..n]), bodies[n], k);
      RunLatest(s, bodies[..n], k);
    }
  }

  /** Replacing a line that assigns `k` matters only if no later line assigns `k`. */
  lemma {:induction false} LatestReplaced(bodies: seq<string>, i: nat, b: string, k: Key)
    requires i < |bodies| && Assigns(bodies[i], k) && Assigns(b, k)
    ensures (exists j | i < j < |bodies| :: Assigns(bodies[j], k)) ==> Latest(bodies[i := b], k) == Latest(bodies, k)
    ensures (forall j | i < j < |bodies| :: !Assigns(bodies[j], k)) ==>
      && Latest(bodies[i := b], k) == Some(Assigned(b).value.1)
      && Latest(bodies, k) == Some(Assigned(bodies[i]).value.1)
  {
    hide Assigns, Assigned;
    var n := |bodies| - 1;
    if i < n {
      LatestReplaced(bodies[..n], i, b, k);
      assert bodies[i := b][..n] == bodies[..n][i := b];
    }
  }

  lemma {:induction false} LatestOthers(bodies: seq<string>, i: nat, b: string, k: Key)
    requires i < |bodies| && !Assigns(bodies[i], k) && !Assigns(b, k)
    ensures Latest(bodies[i := b], k) == Latest(bodies, k)
  {
    hide Assigns, Assigned;
    var n := |bodies| - 1;
    if i < n {
      LatestOthers(bodies[..n], i, b, k);
      assert bodies[i := b][..n] == bodies[..n][i := b];
    } else {
      assert bodies[i := b][..n] == bodies[..n];
    }
  }

  lemma TextFields(s: Settings)
    ensures Get(s, ProductName) == Text(s.productName) && Get(s, StationName) == Text(s.stationName)
    ensures Get(s, Interface) == Text(s.interfaceName) && Get(s, FileDirectory) == Text(s.fileDirectory)
    ensures Get(s, LogFile) == Text(s.logFile)
  {
  }

  lemma AddressFields(s: Settings)
    ensures Get(s, IpAddr) == Number(s.ipAddr) && Get(s, Netmask) == Number(s.netmask)
    ensures Get(s, Gateway) == Number(s.gateway)
  {
  }

  lemma NumberFields(s: Settings)
    ensures Get(s, VendorId) == Number(s.vendorId)
    ensures Get(s, DeviceId) == Number(s.deviceId) && Get(s, TickUs) == Number(s.tickUs)
    ensures Get(s, LogLevel) == Number(s.logLevel) && Get(s, RtPriority) == Number(s.rtPriority)
    ensures Get(s, IsolateCpu) == Number(s.isolateCpu)
  {
  }

  lemma FlagFields(s: Settings)
    ensures Get(s, SendHello) == Flag(s.sendHello) && Get(s, SecurityEnabled) == Flag(s.securityEnabled)
    ensures Get(s, RealtimeEnabled) == Flag(s.realtimeEnabled) && Get(s, RtScheduling) == Flag(s.rtScheduling)
    ensures Get(s, LockMemory) == Flag(s.lockMemory)
  {
  }

  /** The keys, the mirror and the path are all there is to a record. */
  lemma SameSettings(s: Settings, t: Settings)
    requires forall k :: Get(s, k) == Get(t, k)
    requires Mirrored(s) && Mirrored(t) && s.configFile == t.configFile
    ensures s == t
  {
    hide Get;
    TextFields(s);
    TextFields(t);
    AddressFields(s);
    AddressFields(t);
    NumberFields(s);
    NumberFields(t);
    FlagFields(s);
    FlagFields(t);
  }

  // ---------------------------------------------------------------- runs

  lemma RunSnoc(s: Settings, bodies: seq<string>, b: string)
    requires WellFormed(s)
    ensures Run(s, bodies + [b]) == Step(Run(s, bodies), b)
  {
    assert (bodies + [b])[..|bodies|] == bodies;
  }

  lemma {:induction false} RunConcat(s: Settings, a: seq<string>, b: seq<string>)
    requires WellFormed(s)
    ensures Run(s, a + b) == Run(Run(s, a), b)
  {
    hide Step, Assigned;
    if b == [] {
      assert a + b == a;
    } else {
      var n := |b| - 1;
      RunConcat(s, a, b[..n]);
      RunSnoc(s, a + b[..n], b[n]);
      assert a + b == (a + b[..n]) + [b[n]];
    }
  }

  lemma RunCons(s: Settings, b: string, rest: seq<string>)
    requires WellFormed(s)
    ensures WellFormed(Step(s, b)) && Run(s, [b] + rest) == Run(Step(s, b), rest)
  {
    RunConcat(s, [b], rest);
    RunSnoc(s, [], b);
    assert [] + [b] == [b];
  }

  /** Lines that do not assign the same key commute. */
  lemma StepsCommute(s: Settings, x: string, y: string)
    requires WellFormed(s) && Mirrored(s)
    requires Assigned(x).Some? && Assigned(y).Some? ==> Assigned(x).value.0 != Assigned(y).value.0
    ensures WellFormed(Step(s, x)) && WellFormed(Step(s, y))
    ensures Step(Step(s, x), y) == Step(Step(s, y), x)
  {
    hide Assigned, Step, Get, Meaning, WellFormed, Mirrored;
    forall k
      ensures WellFormed(Step(s, x)) && WellFormed(Step(s, y))
      ensures Mirrored(Step(Step(s, x), y)) && Mirrored(Step(Step(s, y), x))
      ensures Step(Step(s, x), y).configFile == Step(Step(s, y), x).configFile
      ensures Get(Step(Step(s, x), y), k) == Get(Step(Step(s, y), x), k)
    {
      StepGet(s, x, k);
      StepGet(s, y, k);
      StepGet(Step(s, x), y, k);
      StepGet(Step(s, y), x, k);
    }
    var k := Interface;
    StepGet(s, x, k);
    StepGet(s, y, k);
    StepGet(Step(s, x), y, k);
    StepGet(Step(s, y), x, k);
    SameSettings(Step(Step(s, x), y), Step(Step(s, y), x));
  }

  // ---------------------------------------------------------------- from text to lines

  /** Lines that one fgets call each can hold: at most 511 characters and a line feed. */
  predicate FitLines(lines: seq<string>) {
    forall l | l in lines :: |l| < 512 && Free(l, {'\n'})
  }

  function BodiesOf(lines: seq<string>): (r: seq<string>)
    ensures |r| == |lines| && forall i | 0 <= i < |r| :: r[i] == Body(lines[i])
  {
    seq(|lines|, i requires 0 <= i < |lines| => Body(lines[i]))
  }

  lemma BodyBeforeBreak(l: string, t: string)
    requires t == "" || t[0] in ENDS
    ensures Body(l + t) == Body(l)
  {
    UntilIs(l + t, ENDS, |Body(l)|);
  }

  /** What the first fgets call takes from a file that starts with a short line. */
  lemma ShortChunk(l: string, rest: string)
    requires |l| < LINE_SIZE - 1 && Free(l, {'\n'})
    ensures Bodies(l + ['\n'] + rest) == [Body(l)] + Bodies(rest)
  {
    var text := l + ['\n'] + rest;
    assert text[|l|] == '\n';
    UntilIs(text, {'\n'}, |l|);
    BodyBeforeBreak(l, "\n");
    assert text[..|l| + 1] == l + "\n" && text[|l| + 1..] == rest;
  }

  /** A line of 511 characters takes two calls; the second finds only the line feed. */
  lemma FullChunk(l: string, rest: string)
    requires |l| == LINE_SIZE - 1 && Free(l, {'\n'})
    ensures Bodies(l + ['\n'] + rest) == [Body(l), ""] + Bodies(rest)
  {
    hide Body, Bodies, Until;
    var more := "" + ['\n'] + rest;
    LongLineIsSplit(l, more);
    assert l[..|l|] == l && l[|l|..] + more == more;
    assert l + more == l + ['\n'] + rest;
    ShortChunk("", rest);
    assert Body("") == "" by { EmptyBody(); }
  }

  lemma LongChunk(l: string, rest: string)
    requires |l| >= LINE_SIZE - 1 && Free(l, {'\n'})
    requires rest == "" || rest[0] == '\n'
    ensures ChunkLen(l + rest, LINE_SIZE) == LINE_SIZE - 1
  {
    UntilIs(l + rest, {'\n'}, |l|);
  }

  /** A line of 511 characters or more is split: its first 511 are read as a line of their
      own. `rest` is the rest of the file, from the line's end on. */
  lemma LongLineIsSplit(l: string, rest: string)
    requires |l| >= 511 && Free(l, {'\n'})
    requires rest == "" || rest[0] == '\n'
    ensures Bodies(l + rest) == [Body(l[..511])] + Bodies(l[511..] + rest)
  {
    hide Body, Bodies, Until;
    LongChunk(l, rest);
    TakeChunk(l + rest);
    assert (l + rest)[..LINE_SIZE - 1] == l[..LINE_SIZE - 1];
    assert (l + rest)[LINE_SIZE - 1..] == l[LINE_SIZE - 1..] + rest;
  }

  lemma TakeChunk(text: string)
    requires text != ""
    ensures var n := ChunkLen(text, LINE_SIZE); Bodies(text) == [Body(text[..n])] + Bodies(text[n..])
  {
    hide Body, ChunkLen;
  }

  lemma EmptyBody()
    ensures Body("") == ""
  {
  }

  lemma FirstChunk(l: string, rest: string)
    requires |l| < LINE_SIZE && Free(l, {'\n'})
    ensures Bodies(l + ['\n'] + rest) ==
      (if |l| < LINE_SIZE - 1 then [Body(l)] else [Body(l), ""]) + Bodies(rest)
  {
    hide Body, Bodies;
    if |l| < LINE_SIZE - 1 { ShortChunk(l, rest); } else { FullChunk(l, rest); }
  }

  /** The last line of a file that does not end in a line feed. */
  lemma LastChunk(l: string)
    requires |l| < LINE_SIZE && Free(l, {'\n'})
    ensures Bodies(l) == if l == "" then [] else [Body(l)]
  {
    hide Body;
    UntilIs(l, {'\n'}, |l|);
    if l != "" {
      TakeChunk(l);
      assert l[..|l|] == l && l[|l|..] == "";
    }
  }

  lemma NothingAssigned()
    ensures Assignment("") == None
  {
    StripTrimmed("");
  }

  lemma RunFirstLine(s: Settings, l: string, rest: string)
    requires WellFormed(s) && |l| < LINE_SIZE && Free(l, {'\n'})
    ensures WellFormed(Step(s, Body(l)))
    ensures Run(s, Bodies(l + ['\n'] + rest)) == Run(Step(s, Body(l)), Bodies(rest))
  {
    hide Bodies, Step, Body, WellFormed, Run;
    FirstChunk(l, rest);
    var b, tail := Body(l), Bodies(rest);
    RunCons(s, b, tail);
    if |l| == LINE_SIZE - 1 {
      assert [b, ""] + tail == [b] + ([""] + tail);
      RunCons(s, b, [""] + tail);
      RunCons(Step(s, b), "", tail);
      StepBlank(Step(s, b));
    }
  }

  lemma RunLastLine(s: Settings, l: string)
    requires WellFormed(s) && |l| < LINE_SIZE && Free(l, {'\n'})
    ensures Run(s, Bodies(l)) == Run(s, [Body(l)])
  {
    hide Bodies, Step, WellFormed, Until;
    LastChunk(l);
    if l == "" {
      EmptyBody();
      RunSnoc(s, [], "");
      assert [] + [""] == [""];
      StepBlank(s);
    }
  }

  /** Reading a file of such lines is reading the lines one after the other. Every file is
      a join of lines; the last is empty when the file ends in a line feed. */
  lemma {:induction false} RunLines(s: Settings, lines: seq<string>)
    requires WellFormed(s) && lines != [] && FitLines(lines)
    ensures Run(s, Bodies(Join(lines, '\n'))) == Run(s, BodiesOf(lines))
    decreases |lines|
  {
    hide Bodies, Step, Body, WellFormed, Run;
    var l, rest := lines[0], lines[1..];
    if rest == [] {
      RunLastLine(s, l);
      assert BodiesOf(lines) == [Body(l)];
    } else {
      RunFirstLine(s, l, Join(rest, '\n'));
      assert BodiesOf(lines) == [Body(l)] + BodiesOf(rest);
      RunCons(s, Body(l), BodiesOf(rest));
      RunLines(Step(s, Body(l)), rest);
    }
  }

  lemma StepBlank(s: Settings)
    requires WellFormed(s)
    ensures Step(s, "") == s
  {
    NothingAssigned();
  }

  // ---------------------------------------------------------------- files

  /** The value a file gives to a key is the meaning of the last line that assigns it. */
  lemma FileLastWriteWins(lines: seq<string>, path: string, k: Key, i: nat)
    requires FitLines(lines) && i < |lines| && Assigns(Body(lines[i]), k)
    requires forall j | i < j < |lines| :: !Assigns(Body(lines[j]), k)
    ensures Get(Load(Join(lines, '\n'), path), k) == Meaning(k, Assigned(Body(lines[i])).value.1)
  {
    hide Assigns, Assigned, Get, Meaning, Body;
    RunLines(Start(path), lines);
    LastWriteWins(Start(path), BodiesOf(lines), k, i);
  }

  /** Without such a line the default survives. */
  lemma FileDefaultSurvives(lines: seq<string>, path: string, k: Key)
    requires lines != [] && FitLines(lines)
    requires forall j | 0 <= j < |lines| :: !Assigns(Body(lines[j]), k)
    ensures Get(Load(Join(lines, '\n'), path), k) == Get(Start(path), k)
  {
    hide Assigns, Assigned, Get, Body;
    RunLines(Start(path), lines);
    NeverWritten(Start(path), BodiesOf(lines), k);
  }

  /** Neighbouring lines that assign different keys, or none, may be exchanged. */
  lemma FileLinesCommute(before: seq<string>, x: string, y: string, after: seq<string>, path: string)
    requires FitLines(before + [x, y] + after)
    requires Assigned(Body(x)).Some? && Assigned(Body(y)).Some?
             ==> Assigned(Body(x)).value.0 != Assigned(Body(y)).value.0
    ensures Load(Join(before + [x, y] + after, '\n'), path) == Load(Join(before + [y, x] + after, '\n'), path)
  {
    hide Assigned, Step, Body, Bodies, Run, Start, Join, FitLines, WellFormed;
    var one, two := before + [x, y] + after, before + [y, x] + after;
    FitSwapped(before, x, y, after);
    var s := Start(path);
    RunLines(s, one);
    RunLines(s, two);
    BodiesSwap(before, x, y, after);
    BodiesSwap(before, y, x, after);
    RunPair(s, BodiesOf(before), Body(x), Body(y), BodiesOf(after));
    RunPair(s, BodiesOf(before), Body(y), Body(x), BodiesOf(after));
    StepsCommute(Run(s, BodiesOf(before)), Body(x), Body(y));
  }

  lemma FitSwapped(before: seq<string>, x: string, y: string, after: seq<string>)
    requires FitLines(before + [x, y] + after)
    ensures FitLines(before + [y, x] + after)
  {
    forall l | l in before + [y, x] + after
      ensures |l| < LINE_SIZE && Free(l, {'\n'})
    {
      assert l in before || l in [x, y] || l in after;
      assert l in before + [x, y] + after;
    }
  }

  lemma BodiesSwap(before: seq<string>, x: string, y: string, after: seq<string>)
    ensures BodiesOf(before + [x, y] + after)
         == BodiesOf(before) + ([Body(x)] + ([Body(y)] + BodiesOf(after)))
  {
    hide Body;
  }

  lemma RunPair(s: Settings, a: seq<string>, x: string, y: string, b: seq<string>)
    requires WellFormed(s)
    ensures WellFormed(Step(Run(s, a), x)) && WellFormed(Step(Step(Run(s, a), x), y))
    ensures Run(s, a + ([x] + ([y] + b))) == Run(Step(Step(Run(s, a), x), y), b)
  {
    hide Step;
    RunConcat(s, a, [x] + ([y] + b));
    RunCons(Run(s, a), x, [y] + b);
    RunCons(Step(Run(s, a), x), y, b);
  }
}
