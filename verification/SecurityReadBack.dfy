/** Reading a generated script gives the rules back. */
module SecurityReadBack {
  import opened CStrings
  import opened Numerals
  import opened SecurityModel

  // ---------------------------------------------------------------- splitting

  lemma {:induction false} CommandsConcat(a: seq<string>, b: seq<string>)
    ensures Commands(a + b) == Commands(a) + Commands(b)
  {
    hide CommandIn;
    if a == [] {
      assert a + b == b;
    } else {
      CommandsConcat(a[1..], b);
      assert (a + b)[1..] == a[1..] + b && (a + b)[0] == a[0];
      assert CommandIn(a[0]) + (Commands(a[1..]) + Commands(b)) == (CommandIn(a[0]) + Commands(a[1..])) + Commands(b);
    }
  }

  lemma ReadLines(a: string, rest: string)
    ensures ReadScript(a + "\n" + rest) == ReadScript(a) + ReadScript(rest)
  {
    SplitMore(a, '\n', rest);
    assert a + "\n" + rest == a + ['\n'] + rest;
    CommandsConcat(Split(a, '\n'), Split(rest, '\n'));
  }

  function ReadAll(lines: seq<string>): seq<Command> {
    if lines == [] then [] else ReadScript(lines[0]) + ReadAll(lines[1..])
  }

  lemma {:induction false} ReadUnlines(lines: seq<string>, rest: string)
    ensures ReadScript(Unlines(lines) + rest) == ReadAll(lines) + ReadScript(rest)
  {
    hide ReadScript;
    if lines == [] {
      assert Unlines(lines) + rest == rest;
    } else {
      ReadUnlines(lines[1..], rest);
      ReadLines(lines[0], Unlines(lines[1..]) + rest);
      assert Unlines(lines) + rest == lines[0] + "\n" + (Unlines(lines[1..]) + rest);
      assert ReadScript(lines[0]) + (ReadAll(lines[1..]) + ReadScript(rest))
          == (ReadScript(lines[0]) + ReadAll(lines[1..])) + ReadScript(rest);
    }
  }

  // ---------------------------------------------------------------- lines that are not commands

  /** A line that does not start with an 'i' is no command. */
  lemma NoCommand(line: string)
    requires line == "" || line[0] != 'i'
    ensures ReadCommand(line) == None
  {
    var n := Stop(line, 0, {' '});
    var w := Split(line, ' ');
    assert w[0] == line[..n];
    assert "iptables"[0] == 'i';
  }

  lemma CommandsOne(line: string)
    ensures Commands([line]) == CommandIn(line)
  {
    hide CommandIn;
    assert [line][1..] == [];
  }

  lemma OneLine(line: string)
    requires Free(line, {'\n'}) && (line == "" || line[0] != 'i')
    ensures ReadScript(line) == []
  {
    hide ReadCommand;
    SplitNone(line, '\n');
    NoCommand(line);
    CommandsOne(line);
  }

  /** A comment line followed by a comment text: only later lines can hold commands. */
  lemma CommentLine(prefix: string, comment: string)
    requires prefix != "" && prefix[0] == '#' && Free(prefix, {'\n'})
    ensures ReadScript(prefix + comment) == StrayCommands(comment)
  {
    hide ReadCommand;
    var s := prefix + comment;
    var n := Stop(comment, 0, {'\n'});
    StopIs(s, {'\n'}, |prefix| + n);
    var parts := Split(s, '\n');
    assert parts[0] == s[..|prefix| + n];
    NoCommand(parts[0]);
    assert parts[1..] == Split(comment, '\n')[1..] by {
      if n < |comment| {
        assert s[|prefix| + n + 1..] == comment[n + 1..];
      }
    }
    assert parts == [parts[0]] + parts[1..];
  }

  // ---------------------------------------------------------------- one command

  lemma PlainFree(t: string)
    requires Plain(t)
    ensures Free(t, {' '}) && Free(t, {'\n'})
  {
  }

  lemma NameShapes(c: Chain, p: Proto, v: Verdict)
    ensures Plain(ChainName(c)) && |ChainName(c)| <= 7 && ReadChain(ChainName(c)) == Some(c)
    ensures Plain(ProtoName(p)) && |ProtoName(p)| == 3 && ReadProto(ProtoName(p)) == Some(p)
    ensures Plain(VerdictName(v)) && |VerdictName(v)| <= 6 && ReadVerdict(VerdictName(v)) == Some(v)
  {
  }

  lemma SourceShape(r: Rule)
    ensures Plain(SourceText(r)) && |SourceText(r)| <= 31
    ensures ReadSource(SourceText(r)) == (r.srcIp, r.srcMask)
  {
    hide FormatIp, ParseIp;
    var a, m := FormatIp(r.srcIp), FormatIp(r.srcMask);
    IpShape(r.srcIp);
    IpShape(r.srcMask);
    IpRoundTrip(r.srcIp);
    IpRoundTrip(r.srcMask);
    IpNoSlash(r.srcIp);
    var s := SourceText(r);
    StopIs(s, {'/'}, |a|);
    assert s[..|a|] == a;
    assert r.srcMask != 0 ==> s[|a| + 1..] == m;
  }

  lemma {:induction false} DottedNoSlash(q: seq<u32>)
    requires q != []
    ensures Free(ShowDotted(q), {'/'})
  {
    hide Digits;
    forall i | 0 <= i < |ShowUInt(q[0])|
      ensures ShowUInt(q[0])[i] != '/'
    {
      assert DigitVal(ShowUInt(q[0])[i]) < 10;
    }
    if |q| > 1 { DottedNoSlash(q[1..]); }
  }

  lemma IpNoSlash(ip: u32)
    ensures Free(FormatIp(ip), {'/'})
  {
    DottedNoSlash(Octets(ip));
  }

  lemma PortShape(n: u32)
    ensures Plain(ShowUInt(n)) && |ShowUInt(n)| <= 10 && ReadPort(ShowUInt(n)) == Some(n)
  {
    hide ShowUInt, ScanUInt;
    assert Plain(ShowUInt(n)) by { ShownPort(n); }
    assert |ShowUInt(n)| <= 10 by { ShownPort(n); }
    ScanPrinted(n, "");
    assert ShowUInt(n) + "" == ShowUInt(n);
  }

  lemma ShownPort(n: u32)
    ensures Plain(ShowUInt(n)) && |ShowUInt(n)| <= 10
  {
    ShownPlain(n, 10);
    SmallDigits(n);
  }

  lemma WordShapes(r: Rule)
    ensures forall w | w in RuleWords(r) :: Plain(w)
  {
    hide ChainName, ProtoName, VerdictName, SourceText, ShowUInt, ReadSource, ReadPort, Plain;
    NameShapes(ChainOf(r.chain), ProtoOf(r.protocol), VerdictOf(r.action));
    SourceShape(r);
    PortShape(r.dstPort);
    FixedWords();
  }

  lemma FixedWords()
    ensures Plain("iptables") && Plain("-A") && Plain("-s") && Plain("-p") && Plain("--dport") && Plain("-j")
  {
  }

  /** A printed command is read back as the rule it came from. */
  lemma CommandReadBack(r: Rule)
    ensures ReadCommand(CommandText(r)) == Some(Normalised(r))
  {
    hide Join, Split, ChainName, ProtoName, VerdictName, SourceText, ShowUInt, ReadSource, ReadPort, ReadChain,
      ReadProto, ReadVerdict, ChainOf, ProtoOf, VerdictOf, Plain, Free;
    var w := RuleWords(r);
    WordShapes(r);
    forall x | x in w
      ensures Free(x, {' '})
    {
      PlainFree(x);
    }
    SplitJoin(w, ' ');
    NameShapes(ChainOf(r.chain), ProtoOf(r.protocol), VerdictOf(r.action));
    SourceShape(r);
    PortShape(r.dstPort);
    var p, d, v := ProtoName(ProtoOf(r.protocol)), ShowUInt(r.dstPort), VerdictName(VerdictOf(r.action));
    if r.srcIp != 0 {
      assert w[5..] == ["-p", p, "--dport", d, "-j", v];
    } else {
      assert w[3..] == ["-p", p, "--dport", d, "-j", v];
    }
  }

  // ---------------------------------------------------------------- the whole script

  /** What is read from the part of the script for one rule. */
  function RuleCommands(r: Rule): seq<Command> {
    StrayCommands(r.comment) + if r.active then [Normalised(r)] else StrayCommands(r.comment)
  }

  function AllCommands(rules: seq<Rule>, k: nat): seq<Command>
    requires k <= |rules|
  {
    if k == 0 then [] else AllCommands(rules, k - 1) + RuleCommands(rules[k - 1])
  }

  lemma ReadRuleLine(r: Rule)
    ensures ReadScript(RuleLine(r)) == if r.active then [Normalised(r)] else StrayCommands(r.comment)
  {
    hide Join, RuleWords, ReadCommand, Split, StrayCommands, Normalised, Plain;
    if r.active {
      var w := RuleWords(r);
      WordShapes(r);
      forall x | x in w
        ensures Free(x, {'\n'})
      {
        PlainFree(x);
      }
      JoinFree(w, ' ', '\n');
      CommandReadBack(r);
      SplitNone(CommandText(r), '\n');
      CommandsOne(CommandText(r));
    } else {
      var text := "# [inactive] rule: " + r.comment;
      ReadLines(text, "");
      assert text + "\n" + "" == RuleLine(r);
      CommentLine("# [inactive] rule: ", r.comment);
      OneLine("");
    }
  }

  lemma ReadBlock(i: nat, r: Rule, rest: string)
    ensures ReadScript(Block(i, r, RuleLine(r)) + rest) == RuleCommands(r) + ReadScript(rest)
  {
    hide ReadScript, RuleLine, Unlines, StrayCommands, Normalised, ShowUInt;
    var prefix := "# Rule " + ShowUInt(i) + ": ";
    var lines := [prefix + r.comment, RuleLine(r), ""];
    assert Plain(ShowUInt(i)) by { ShownNat(i); }
    PlainFree(ShowUInt(i));
    CommentLine(prefix, r.comment);
    ReadRuleLine(r);
    OneLine("");
    ReadUnlines(lines, rest);
    ReadThree(lines);
  }

  lemma ShownNat(n: nat)
    ensures Plain(ShowUInt(n))
  {
    ShownPlain(n, 10);
  }

  lemma ReadThree(lines: seq<string>)
    requires |lines| == 3
    ensures ReadAll(lines) == ReadScript(lines[0]) + ReadScript(lines[1]) + ReadScript(lines[2])
  {
    hide ReadScript;
    var t := lines[1..];
    assert ReadAll(t[1..]) == ReadScript(lines[2]) by { assert t[1..][1..] == []; }
    assert ReadAll(t) == ReadScript(lines[1]) + ReadScript(lines[2]);
  }

  lemma {:induction false} ReadBlocks(rules: seq<Rule>, k: nat, rest: string)
    requires k <= |rules|
    ensures ReadScript(Blocks(rules, k) + rest) == AllCommands(rules, k) + ReadScript(rest)
  {
    hide ReadScript, Block, RuleCommands, RuleLine;
    if k == 0 {
      assert "" + rest == rest;
    } else {
      var r := rules[k - 1];
      var b := Block(k - 1, r, RuleLine(r));
      ReadBlocks(rules, k - 1, b + rest);
      ReadBlock(k - 1, r, rest);
      assert Blocks(rules, k) + rest == Blocks(rules, k - 1) + (b + rest);
      assert AllCommands(rules, k) + ReadScript(rest)
          == AllCommands(rules, k - 1) + (RuleCommands(r) + ReadScript(rest));
    }
  }

  lemma {:induction false} ReadQuiet(lines: seq<string>)
    requires forall l | l in lines :: Free(l, {'\n'}) && (l == "" || l[0] != 'i')
    ensures ReadAll(lines) == []
  {
    hide ReadScript;
    if lines != [] {
      OneLine(lines[0]);
      ReadQuiet(lines[1..]);
    }
  }

  lemma ReadHeader(n: nat, rest: string)
    ensures ReadScript(Header(n) + rest) == ReadScript(rest)
  {
    hide ReadScript, ShowUInt, Unlines;
    assert Plain(ShowUInt(n)) by { ShownNat(n); }
    PlainFree(ShowUInt(n));
    var count := "# Rule count: " + ShowUInt(n);
    var lines := ["#!/bin/bash", "# Auto-generated PROFINET security policy", count, "", "set -e", ""];
    HeaderLines();
    ReadQuiet(lines);
    ReadUnlines(lines, rest);
  }

  lemma HeaderLines()
    ensures Free("#!/bin/bash", {'\n'}) && Free("# Auto-generated PROFINET security policy", {'\n'})
    ensures Free("# Rule count: ", {'\n'}) && Free("set -e", {'\n'})
  {
  }

  lemma ReadFooter(n: nat)
    ensures ReadScript(Footer(n)) == []
  {
    hide ReadScript, ShowUInt, Unlines;
    assert Plain(ShowUInt(n)) by { ShownNat(n); }
    PlainFree(ShowUInt(n));
    var line := "echo \"PROFINET security policy applied: " + ShowUInt(n) + " rules\"";
    ReadQuiet([line]);
    ReadUnlines([line], "");
    OneLine("");
    assert Footer(n) + "" == Footer(n);
  }

  /** Reading any script gives, rule by rule, the commands hidden in its comment's later
      lines and, for an active rule, the rule. */
  lemma ReadWholeScript(rules: seq<Rule>)
    ensures ReadScript(Script(rules)) == AllCommands(rules, |rules|)
  {
    hide ReadScript, Header, Blocks, Footer;
    var n := |rules|;
    assert Script(rules) == Header(n) + (Blocks(rules, n) + Footer(n));
    ReadHeader(n, Blocks(rules, n) + Footer(n));
    ReadBlocks(rules, n, Footer(n));
    ReadFooter(n);
  }

  predicate NoStray(rules: seq<Rule>, k: nat)
    requires k <= |rules|
  {
    forall i | 0 <= i < k :: StrayCommands(rules[i].comment) == []
  }

  lemma ActiveStep(rules: seq<Rule>, k: nat)
    requires 0 < k <= |rules|
    ensures var r := rules[k - 1];
      ActiveCommands(rules[..k]) == ActiveCommands(rules[..k - 1]) + if r.active then [Normalised(r)] else []
  {
    hide Normalised;
    assert rules[..k][..k - 1] == rules[..k - 1];
  }

  lemma {:induction false} ActiveOnly(rules: seq<Rule>, k: nat)
    requires k <= |rules|
    ensures NoStray(rules, k) ==> AllCommands(rules, k) == ActiveCommands(rules[..k])
    ensures |AllCommands(rules, k)| >= |ActiveCommands(rules[..k])|
    ensures !NoStray(rules, k) ==> |AllCommands(rules, k)| > |ActiveCommands(rules[..k])|
  {
    hide StrayCommands, Normalised, ActiveCommands;
    if k > 0 {
      ActiveOnly(rules, k - 1);
      ActiveStep(rules, k);
      assert NoStray(rules, k) <==> NoStray(rules, k - 1) && StrayCommands(rules[k - 1].comment) == [];
    } else {
      assert ActiveCommands(rules[..0]) == [] by { NoneActive(); }
    }
  }

  lemma NoneActive()
    ensures ActiveCommands([]) == []
  {
  }

  /** The exact read-back: a script gives back precisely the active rules, in table order,
      if and only if no comment hides a command on a second or later line. */
  lemma ScriptReadBackExactly(rules: seq<Rule>)
    ensures ReadScript(Script(rules)) == ActiveCommands(rules)
            <==> forall i | 0 <= i < |rules| :: StrayCommands(rules[i].comment) == []
  {
    hide ReadScript, Script, StrayCommands;
    ReadWholeScript(rules);
    ActiveOnly(rules, |rules|);
    assert rules[..|rules|] == rules;
  }

  /** In particular when the comments have no line breaks. */
  lemma ScriptReadBack(rules: seq<Rule>)
    requires forall i | 0 <= i < |rules| :: Free(rules[i].comment, {'\n'})
    ensures ReadScript(Script(rules)) == ActiveCommands(rules)
  {
    hide ReadScript, Script, Split, Free, ActiveCommands;
    forall i | 0 <= i < |rules|
      ensures StrayCommands(rules[i].comment) == []
    {
      SplitNone(rules[i].comment, '\n');
      assert [rules[i].comment][1..] == [];
    }
    ScriptReadBackExactly(rules);
  }
}
