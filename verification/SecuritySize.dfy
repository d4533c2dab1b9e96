/** How long scripts get: the line buffer always suffices, and how many rules fit the
    4096-byte buffer of sec_policy_apply. */
module SecuritySize {
  import opened CStrings
  import opened Numerals
  import opened SecurityModel
  import opened SecurityReadBack

  function Total(words: seq<string>): nat {
    if words == [] then 0 else |words[0]| + Total(words[1..])
  }

  lemma {:induction false} TotalConcat(a: seq<string>, b: seq<string>)
    ensures Total(a + b) == Total(a) + Total(b)
  {
    if a == [] {
      assert a + b == b;
    } else {
      TotalConcat(a[1..], b);
      assert (a + b)[1..] == a[1..] + b;
    }
  }

  lemma {:induction false} JoinLength(words: seq<string>, c: char)
    requires words != []
    ensures |Join(words, c)| == Total(words) + |words| - 1
  {
    if |words| > 1 {
      JoinLength(words[1..], c);
    } else {
      assert words[1..] == [];
    }
  }

  lemma {:induction false} UnlinesLength(lines: seq<string>)
    ensures |Unlines(lines)| == Total(lines) + |lines|
  {
    if lines != [] {
      UnlinesLength(lines[1..]);
    }
  }

  lemma TotalCons(w: string, rest: seq<string>)
    ensures Total([w] + rest) == |w| + Total(rest)
  {
    assert ([w] + rest)[1..] == rest;
  }

  lemma TotalOfThree(a: string, b: string, c: string)
    ensures Total([a, b, c]) == |a| + |b| + |c|
  {
    TotalOfTwo(b, c);
    TotalCons(a, [b, c]);
    assert [a] + [b, c] == [a, b, c];
  }

  lemma TotalOfTwo(a: string, b: string)
    ensures Total([a, b]) == |a| + |b|
  {
    TotalCons(b, []);
    TotalCons(a, [b]);
    assert [a] + [b] == [a, b] && [b] + [] == [b];
  }

  /** Length of a printed command, word by word. */
  lemma CommandLength(r: Rule)
    ensures |CommandText(r)| == 29 + |ChainName(ChainOf(r.chain))| + |ProtoName(ProtoOf(r.protocol))|
                                    + |ShowUInt(r.dstPort)| + |VerdictName(VerdictOf(r.action))|
                                    + if r.srcIp != 0 then 4 + |SourceText(r)| else 0
  {
    hide Join, Total, ChainName, ProtoName, VerdictName, ShowUInt, SourceText, ChainOf, ProtoOf, VerdictOf;
    var c, p, d, v := ChainName(ChainOf(r.chain)), ProtoName(ProtoOf(r.protocol)), ShowUInt(r.dstPort),
      VerdictName(VerdictOf(r.action));
    var a, m, e, f := ["iptables", "-A", c], SourceWords(r), ["-p", p, "--dport"], [d, "-j", v];
    assert RuleWords(r) == a + m + (e + f);
    TotalConcat(a + m, e + f);
    TotalConcat(a, m);
    TotalConcat(e, f);
    TotalOfThree("iptables", "-A", c);
    TotalOfThree("-p", p, "--dport");
    TotalOfThree(d, "-j", v);
    if r.srcIp != 0 { TotalOfTwo("-s", SourceText(r)); } else { TotalOfNone(); }
    JoinLength(RuleWords(r), ' ');
  }

  lemma TotalOfNone()
    ensures Total([]) == 0
  {
  }

  /** No line exceeds 90 characters, so `char line[256]` always suffices. */
  lemma LineLength(r: Rule)
    ensures |RuleLine(r)| <= 90
    ensures LineInBuffer(r) == Some(RuleLine(r))
  {
    hide Join, RuleWords, ChainName, ProtoName, VerdictName, ShowUInt, SourceText, ChainOf, ProtoOf, VerdictOf;
    if r.active {
      CommandLength(r);
      NameShapes(ChainOf(r.chain), ProtoOf(r.protocol), VerdictOf(r.action));
      SourceShape(r);
      PortShape(r.dstPort);
    }
  }

  lemma {:induction false} NoRuleSkipped(rules: seq<Rule>, k: nat)
    requires k <= |rules|
    ensures BufferedBlocks(rules, k) == Blocks(rules, k)
  {
    hide Block, LineInBuffer, RuleLine;
    if k > 0 {
      NoRuleSkipped(rules, k - 1);
      LineLength(rules[k - 1]);
    }
  }

  /** The code's printer, which skips rules that do not fit the line buffer, prints every
      rule. */
  lemma BufferedIsSimple(rules: seq<Rule>)
    ensures BufferedScript(rules) == Script(rules)
  {
    NoRuleSkipped(rules, |rules|);
  }

  // ---------------------------------------------------------------- the apply buffer

  lemma BlockLength(i: nat, r: Rule)
    ensures |Block(i, r, RuleLine(r))| == 12 + |ShowUInt(i)| + |r.comment| + |RuleLine(r)|
  {
    hide Unlines, RuleLine, ShowUInt;
    var head := "# Rule " + ShowUInt(i) + ": " + r.comment;
    UnlinesLength([head, RuleLine(r), ""]);
    TotalOfThree(head, RuleLine(r), "");
  }

  lemma FrameLength(n: nat)
    ensures |Header(n)| == 78 + |ShowUInt(n)| && |Footer(n)| == 48 + |ShowUInt(n)|
  {
    hide Unlines, Total, ShowUInt;
    var a, b, c := "#!/bin/bash", "# Auto-generated PROFINET security policy", "# Rule count: " + ShowUInt(n);
    var lines := [a, b, c, "", "set -e", ""];
    UnlinesLength(lines);
    TotalOfThree(a, b, c);
    TotalOfThree("", "set -e", "");
    TotalConcat([a, b, c], ["", "set -e", ""]);
    assert [a, b, c] + ["", "set -e", ""] == lines;
    var f := "echo \"PROFINET security policy applied: " + ShowUInt(n) + " rules\"";
    UnlinesLength([f]);
    TotalCons(f, []);
    TotalOfNone();
    assert [f] + [] == [f];
  }

  lemma {:induction false} BlocksLength(rules: seq<Rule>, k: nat)
    requires k <= |rules| <= 100
    ensures |Blocks(rules, k)| <= 167 * k
  {
    hide Block, RuleLine, ShowUInt;
    if k > 0 {
      BlocksLength(rules, k - 1);
      BlockLength(k - 1, rules[k - 1]);
      LineLength(rules[k - 1]);
      TwoDigits(k - 1);
    }
  }

  lemma TwoDigits(n: nat)
    requires n < 100
    ensures |ShowUInt(n)| <= 2
  {
    SmallDigits(n);
  }

  const SCRIPT_SIZE: nat := 4096

  /** Any 23 rules fit the script buffer of sec_policy_apply. */
  lemma TwentyThreeRulesFit(rules: seq<Rule>)
    requires |rules| <= 23
    ensures |Script(rules)| < 4096
  {
    hide Header, Blocks, Footer, ShowUInt;
    FrameLength(|rules|);
    BlocksLength(rules, |rules|);
    TwoDigits(|rules|);
  }

  /** A rule whose text has the greatest possible length. */
  predicate Longest(r: Rule) {
    |r.comment| == 63 && |RuleLine(r)| == 90
  }

  const LONG_COMMENT: CommentText := seq(63, _ => 'x')
  const LONGEST_RULE: Rule :=
    Rule(2, 0xFFFF_FFFF, 0xFFFF_FFFF, 0xFFFF_FFFF, 0, 2, 0, true, LONG_COMMENT)

  lemma LongestExists()
    ensures Longest(LONGEST_RULE)
  {
    hide Join, RuleWords, SourceText, ShowUInt, FormatIp;
    var r := LONGEST_RULE;
    CommandLength(r);
    BroadcastLength();
    PortLength();
    assert |SourceText(r)| == 31 by { BothAddresses(r); }
  }

  lemma BothAddresses(r: Rule)
    requires r.srcMask != 0
    ensures |SourceText(r)| == |FormatIp(r.srcIp)| + 1 + |FormatIp(r.srcMask)|
  {
  }

  lemma PortLength()
    ensures |ShowUInt(0xFFFF_FFFF)| == 10
  {
    hide Digits;
    assert Pow(10, 3) == 1000;
    assert Pow(10, 6) == 1000 * Pow(10, 3);
    assert Pow(10, 9) == 1000 * Pow(10, 6);
    SmallDigits(0xFFFF_FFFF);
    DigitsAtLeast(0xFFFF_FFFF, 9);
  }

  lemma {:induction false} WideDotted(q: seq<u32>)
    requires q != [] && forall i | 0 <= i < |q| :: 100 <= q[i] < 256
    ensures |ShowDotted(q)| == 4 * |q| - 1
  {
    hide Digits;
    assert Pow(10, 2) == 100;
    SmallDigits(q[0]);
    DigitsAtLeast(q[0], 2);
    if |q| > 1 { WideDotted(q[1..]); }
  }

  lemma BroadcastLength()
    ensures |FormatIp(0xFFFF_FFFF)| == 15
  {
    WideDotted(Octets(0xFFFF_FFFF));
  }

  lemma {:induction false} LongBlocks(rules: seq<Rule>, k: nat)
    requires k <= |rules| && forall i | 0 <= i < k :: Longest(rules[i])
    ensures |Blocks(rules, k)| >= 166 * k
  {
    hide Block, RuleLine, ShowUInt;
    if k > 0 {
      LongBlocks(rules, k - 1);
      BlockLength(k - 1, rules[k - 1]);
      assert Longest(rules[k - 1]) && ShowUInt(k - 1) != "" by { ShownNat(k - 1); }
    }
  }

  /** The bound 23 is sharp: no table of 24 or more longest rules fits. */
  lemma TwentyFourRulesCanFail(rules: seq<Rule>)
    requires |rules| >= 24 && forall i | 0 <= i < |rules| :: Longest(rules[i])
    ensures |Script(rules)| >= 4096
  {
    hide Header, Blocks, Footer, ShowUInt, Longest;
    FrameLength(|rules|);
    LongBlocks(rules, |rules|);
  }

  // ---------------------------------------------------------------- the exact size of a script

  function DigitCount(n: nat): nat {
    if n < 10 then 1 else 1 + DigitCount(n / 10)
  }

  function AddressSize(ip: u32): nat {
    3 + DigitCount(Octet(ip, 0)) + DigitCount(Octet(ip, 1)) + DigitCount(Octet(ip, 2)) + DigitCount(Octet(ip, 3))
  }

  function SourceSize(r: Rule): nat {
    if r.srcIp == 0 then 0
    else 4 + AddressSize(r.srcIp) + if r.srcMask == 0 then 0 else 1 + AddressSize(r.srcMask)
  }

  /** The characters of a rule's line: a shell command or a comment. */
  function LineSize(r: Rule): nat {
    if !r.active then 20 + |r.comment|
    else
      var chain := if r.chain == 1 then 6 else if r.chain == 2 then 7 else 5;
      var verdict := if r.action == 0 || r.action == 2 then 6 else 4;
      32 + chain + verdict + DigitCount(r.dstPort) + SourceSize(r)
  }

  function BlocksSize(rules: seq<Rule>, k: nat): nat
    requires k <= |rules|
  {
    if k == 0 then 0
    else
      var r := rules[k - 1];
      BlocksSize(rules, k - 1) + 12 + DigitCount(k - 1) + |r.comment| + LineSize(r)
  }

  /** The size of the script, counted from the fields of the rules. */
  function ScriptSize(rules: seq<Rule>): nat {
    126 + 2 * DigitCount(|rules|) + BlocksSize(rules, |rules|)
  }

  lemma {:induction false} ShownLength(n: nat)
    ensures |ShowUInt(n)| == DigitCount(n)
  {
    if n >= 10 { ShownLength(n / 10); }
  }

  lemma AddressLength(ip: u32)
    ensures |FormatIp(ip)| == AddressSize(ip)
  {
    hide ShowUInt, Octet, DigitCount;
    var q := Octets(ip);
    ShowDottedCons(q);
    ShowDottedCons(q[1..]);
    ShowDottedCons(q[1..][1..]);
    forall i | 0 <= i < 4
      ensures |ShowUInt(q[i])| == DigitCount(q[i])
    {
      ShownLength(q[i]);
    }
  }

  lemma SourceLength(r: Rule)
    ensures (if r.srcIp != 0 then 4 + |SourceText(r)| else 0) == SourceSize(r)
  {
    hide FormatIp, AddressSize;
    AddressLength(r.srcIp);
    AddressLength(r.srcMask);
  }

  lemma LineExactly(r: Rule)
    ensures |RuleLine(r)| == LineSize(r)
  {
    hide CommandText, ShowUInt, SourceText, SourceSize, DigitCount;
    if r.active {
      CommandLength(r);
      SourceLength(r);
      ShownLength(r.dstPort);
    }
  }

  lemma {:induction false} BlocksExactly(rules: seq<Rule>, k: nat)
    requires k <= |rules|
    ensures |Blocks(rules, k)| == BlocksSize(rules, k)
  {
    hide Block, RuleLine, LineSize, ShowUInt, DigitCount;
    if k > 0 {
      BlocksExactly(rules, k - 1);
      BlockLength(k - 1, rules[k - 1]);
      LineExactly(rules[k - 1]);
      ShownLength(k - 1);
    }
  }

  /** How long the script is, for every table. */
  lemma ScriptLength(rules: seq<Rule>)
    ensures |Script(rules)| == ScriptSize(rules)
  {
    hide Header, Blocks, Footer, BlocksSize, ShowUInt, DigitCount;
    FrameLength(|rules|);
    BlocksExactly(rules, |rules|);
    ShownLength(|rules|);
  }

  // ---------------------------------------------------------------- commands that fit a comment

  function Hiding(q: Rule): string {
    "x\n" + CommandText(q)
  }

  /** A command of at most 61 characters fits behind a line feed in a comment. Then the
      script of any rule with that comment reads back as something else. */
  lemma HiddenCommand(q: Rule, r: Rule)
    requires |CommandText(q)| <= 61
    ensures |Hiding(q)| < 64 && Free(Hiding(q), {NUL})
    ensures StrayCommands(Hiding(q)) == [Normalised(q)]
    ensures var hiding := [r.(comment := Hiding(q))];
      ReadScript(Script(hiding)) != ActiveCommands(hiding)
  {
    hide Script, ActiveCommands, ReadScript, StrayCommands, CommandText, Normalised;
    HiddenText(q);
    HiddenRead(q);
    var hiding := [r.(comment := Hiding(q))];
    assert hiding[0].comment == Hiding(q);
    ScriptReadBackExactly(hiding);
  }

  lemma HiddenText(q: Rule)
    ensures Free(CommandText(q), {NUL}) && Free(CommandText(q), {'\n'})
  {
    hide Join, RuleWords, Plain;
    WordShapes(q);
    forall w | w in RuleWords(q)
      ensures Free(w, {NUL}) && Free(w, {'\n'})
    {
      PlainFree(w);
      PlainText(w);
    }
    JoinFree(RuleWords(q), ' ', NUL);
    JoinFree(RuleWords(q), ' ', '\n');
  }

  lemma HiddenRead(q: Rule)
    ensures StrayCommands(Hiding(q)) == [Normalised(q)]
  {
    hide Commands, Split, CommandText, Normalised, ReadCommand;
    var t := CommandText(q);
    HiddenText(q);
    assert "x" + ['\n'] + t == Hiding(q);
    SplitCons("x", '\n', t);
    SplitNone(t, '\n');
    assert (["x"] + [t])[1..] == [t];
    CommandsOne(t);
    CommandReadBack(q);
  }

  const DROP_ALL: Rule := Rule(0, 0, 0, 0, 0, 1, 0, true, "")

  /** Such commands exist: drop everything on the INPUT chain takes 42 characters. */
  lemma HiddenExists()
    ensures |CommandText(DROP_ALL)| == 42
  {
    hide CommandText, ShowUInt;
    CommandLength(DROP_ALL);
    assert ShowUInt(0) == "0" by { ShowSmall(); }
  }
}
