/** The printed rules and scripts word by word, from the C codes of chain, protocol and
    action. Nothing here goes through the names or the reader of SecurityModel. */
module SecurityText {
  import opened CStrings
  import opened Numerals
  import opened SecurityModel
  import opened SecurityReadBack

  // ---------------------------------------------------------------- one command

  /** The words of a command: those of the iptables call, with the C codes spelled out. */
  lemma CommandWords(r: Rule)
    ensures var w := Split(CommandText(r), ' '); var n := |w|;
      && n == (if r.srcIp == 0 then 9 else 11)
      && w[0] == "iptables" && w[1] == "-A"
      && w[2] == (if r.chain == 1 then "OUTPUT" else if r.chain == 2 then "FORWARD" else "INPUT")
      && (r.srcIp != 0 ==> w[3] == "-s" && w[4] == SourceOf(r))
      && w[n - 6] == "-p" && w[n - 5] == (if r.protocol == 6 then "tcp" else if r.protocol == 17 then "udp" else "all")
      && w[n - 4] == "--dport" && w[n - 3] == ShowUInt(r.dstPort)
      && w[n - 2] == "-j"
      && w[n - 1] == (if r.action == 0 then "ACCEPT" else if r.action == 2 then "REJECT" else "DROP")
  {
    hide Split, Join, ShowUInt, FormatIp, Plain, Free, ChainName, ProtoName, VerdictName;
    Names();
    WordShapes(r);
    forall x | x in RuleWords(r)
      ensures Free(x, {' '})
    {
      PlainFree(x);
    }
    SplitJoin(RuleWords(r), ' ');
  }

  /** The source address, with its mask when there is one. */
  function SourceOf(r: Rule): string {
    if r.srcMask == 0 then FormatIp(r.srcIp) else FormatIp(r.srcIp) + "/" + FormatIp(r.srcMask)
  }

  lemma Names()
    ensures ChainName(INPUT) == "INPUT" && ChainName(OUTPUT) == "OUTPUT" && ChainName(FORWARD) == "FORWARD"
    ensures ProtoName(TCP) == "tcp" && ProtoName(UDP) == "udp" && ProtoName(ALL) == "all"
    ensures VerdictName(ACCEPT) == "ACCEPT" && VerdictName(DROP) == "DROP" && VerdictName(REJECT) == "REJECT"
  {
  }

  predicate Ends(t: string, a: string) {
    |a| <= |t| && t[|t| - |a|..] == a
  }

  predicate Has(t: string, a: string) {
    exists i | 0 <= i <= |t| :: At(t, a, i)
  }

  predicate At(t: string, a: string, i: int) {
    0 <= i <= |t| - |a| && t[i..i + |a|] == a
  }

  /** The format of the three snprintf calls. */
  lemma CommandFormat(r: Rule)
    ensures CommandText(r) == ChainPart(r) + SourcePart(r) + ProtoPart(r) + ShowUInt(r.dstPort) + VerdictPart(r)
  {
    hide Join, ShowUInt, FormatIp, ChainName, ProtoName, VerdictName, SourceText;
    var c, p, v := ChainName(ChainOf(r.chain)), ProtoName(ProtoOf(r.protocol)), VerdictName(VerdictOf(r.action));
    var tail := ["-p", p, "--dport", ShowUInt(r.dstPort), "-j", v];
    JoinTail(p, ShowUInt(r.dstPort), v);
    JoinHead(c, SourceWords(r) + tail);
    assert RuleWords(r) == ["iptables", "-A", c] + (SourceWords(r) + tail);
    PartNames(r);
    SourceIs(r);
    hide ChainPart, ProtoPart, VerdictPart, ChainOf, ProtoOf, VerdictOf, SourceOf;
    if r.srcIp != 0 {
      JoinSource(SourceText(r), tail);
    } else {
      assert SourceWords(r) + tail == tail;
    }
  }

  lemma PartNames(r: Rule)
    ensures ChainPart(r) == "iptables -A " + ChainName(ChainOf(r.chain)) + " "
    ensures ProtoPart(r) == "-p " + ProtoName(ProtoOf(r.protocol)) + " --dport "
    ensures VerdictPart(r) == " -j " + VerdictName(VerdictOf(r.action))
  {
    hide ChainName, ProtoName, VerdictName;
    Names();
  }

  lemma SourceIs(r: Rule)
    ensures SourceText(r) == SourceOf(r)
  {
    hide FormatIp;
  }

  function ChainPart(r: Rule): string {
    if r.chain == 1 then "iptables -A OUTPUT "
    else if r.chain == 2 then "iptables -A FORWARD "
    else "iptables -A INPUT "
  }

  function SourcePart(r: Rule): string {
    if r.srcIp == 0 then "" else "-s " + SourceOf(r) + " "
  }

  function ProtoPart(r: Rule): string {
    if r.protocol == 6 then "-p tcp --dport " else if r.protocol == 17 then "-p udp --dport " else "-p all --dport "
  }

  function VerdictPart(r: Rule): string {
    if r.action == 0 then " -j ACCEPT" else if r.action == 2 then " -j REJECT" else " -j DROP"
  }

  lemma JoinTail(p: string, d: string, v: string)
    ensures Join(["-p", p, "--dport", d, "-j", v], ' ') == "-p " + p + " --dport " + d + " -j " + v
  {
    hide Join;
    JoinCons("-j", [v], ' ');
    JoinOne(v);
    JoinCons(d, ["-j", v], ' ');
    JoinCons("--dport", [d, "-j", v], ' ');
    JoinCons(p, ["--dport", d, "-j", v], ' ');
    JoinCons("-p", [p, "--dport", d, "-j", v], ' ');
    assert ["-j"] + [v] == ["-j", v] && [d] + ["-j", v] == [d, "-j", v];
    assert ["--dport"] + [d, "-j", v] == ["--dport", d, "-j", v];
    assert [p] + ["--dport", d, "-j", v] == [p, "--dport", d, "-j", v];
    assert ["-p"] + [p, "--dport", d, "-j", v] == ["-p", p, "--dport", d, "-j", v];
  }

  lemma JoinOne(v: string)
    ensures Join([v], ' ') == v
  {
  }

  lemma JoinHead(c: string, rest: seq<string>)
    requires rest != []
    ensures Join(["iptables", "-A", c] + rest, ' ') == "iptables -A " + c + " " + Join(rest, ' ')
  {
    hide Join;
    JoinCons(c, rest, ' ');
    JoinCons("-A", [c] + rest, ' ');
    JoinCons("iptables", ["-A"] + ([c] + rest), ' ');
    assert ["iptables"] + (["-A"] + ([c] + rest)) == ["iptables", "-A", c] + rest;
  }

  lemma JoinSource(s: string, rest: seq<string>)
    requires rest != []
    ensures Join(["-s", s] + rest, ' ') == "-s " + s + " " + Join(rest, ' ')
  {
    hide Join;
    JoinCons(s, rest, ' ');
    JoinCons("-s", [s] + rest, ' ');
    assert ["-s"] + ([s] + rest) == ["-s", s] + rest;
  }

  /** Which chain and which verdict a command names depends on the codes alone. */
  lemma CommandEnds(r: Rule)
    ensures var t := CommandText(r);
      && ("iptables -A OUTPUT " <= t <==> r.chain == 1)
      && ("iptables -A FORWARD " <= t <==> r.chain == 2)
      && ("iptables -A INPUT " <= t <==> r.chain != 1 && r.chain != 2)
    ensures var t := CommandText(r);
      && (Ends(t, " -j ACCEPT") <==> r.action == 0)
      && (Ends(t, " -j REJECT") <==> r.action == 2)
      && (Ends(t, " -j DROP") <==> r.action != 0 && r.action != 2)
  {
    hide CommandText, ChainPart, VerdictPart, SourcePart, ProtoPart, ShowUInt;
    CommandFormat(r);
    var a, b := SourcePart(r) + ProtoPart(r) + ShowUInt(r.dstPort) + VerdictPart(r),
      ChainPart(r) + SourcePart(r) + ProtoPart(r) + ShowUInt(r.dstPort);
    assert CommandText(r) == ChainPart(r) + a == b + VerdictPart(r);
    ChainFirst(r, a);
    VerdictLast(r, b);
  }

  lemma ChainFirst(r: Rule, rest: string)
    ensures var t := ChainPart(r) + rest;
      && ("iptables -A OUTPUT " <= t <==> r.chain == 1)
      && ("iptables -A FORWARD " <= t <==> r.chain == 2)
      && ("iptables -A INPUT " <= t <==> r.chain != 1 && r.chain != 2)
  {
    var t := ChainPart(r) + rest;
    assert t[12] == if r.chain == 1 then 'O' else if r.chain == 2 then 'F' else 'I';
  }

  lemma VerdictLast(r: Rule, front: string)
    ensures var t := front + VerdictPart(r);
      && (Ends(t, " -j ACCEPT") <==> r.action == 0)
      && (Ends(t, " -j REJECT") <==> r.action == 2)
      && (Ends(t, " -j DROP") <==> r.action != 0 && r.action != 2)
  {
    var t, v := front + VerdictPart(r), VerdictPart(r);
    assert t[|front|..] == v;
    assert t[|t| - 2] == v[|v| - 2];
    assert v[|v| - 2] == if r.action == 0 then 'P' else if r.action == 2 then 'C' else 'O';
    EndsWith(t, " -j ACCEPT");
    EndsWith(t, " -j REJECT");
    EndsWith(t, " -j DROP");
  }

  lemma EndsWith(t: string, a: string)
    requires |a| > 1
    ensures Ends(t, a) ==> t[|t| - 2] == a[|a| - 2]
  {
  }

  /** So does the protocol, wherever it stands. */
  lemma CommandProtocol(r: Rule)
    ensures var t := CommandText(r);
      && (Has(t, " -p tcp ") <==> r.protocol == 6)
      && (Has(t, " -p udp ") <==> r.protocol == 17)
      && (Has(t, " -p all ") <==> r.protocol != 6 && r.protocol != 17)
  {
    hide CommandText, Has;
    HasProtocol(r);
    OnlyProtocol(r, "tcp", " -p tcp ");
    OnlyProtocol(r, "udp", " -p udp ");
    OnlyProtocol(r, "all", " -p all ");
  }

  function ProtoWord(r: Rule): string {
    if r.protocol == 6 then "tcp" else if r.protocol == 17 then "udp" else "all"
  }

  lemma HasProtocol(r: Rule)
    ensures Has(CommandText(r), " -p " + ProtoWord(r) + " ")
  {
    hide CommandText, ChainPart, VerdictPart, SourcePart, ShowUInt, ProtoWord, ProtoPart, Has;
    CommandFormat(r);
    BlankBefore(r);
    ProtoPartWord(r);
    var a, b := ChainPart(r) + SourcePart(r), ShowUInt(r.dstPort) + VerdictPart(r);
    MarkInside(a, ProtoWord(r), b);
    assert CommandText(r) == a + ProtoPart(r) + b;
  }

  lemma ProtoPartWord(r: Rule)
    ensures ProtoPart(r) == "-p " + ProtoWord(r) + " --dport "
  {
  }

  lemma MarkInside(a: string, p: string, b: string)
    requires a != "" && a[|a| - 1] == ' '
    ensures Has(a + ("-p " + p + " --dport ") + b, " -p " + p + " ")
  {
    var c := a[..|a| - 1];
    var mark, rest := " -p " + p + " ", "--dport " + b;
    assert a == c + " ";
    assert " --dport " == " " + "--dport ";
    var t := a + ("-p " + p + " --dport ") + b;
    assert t == c + mark + rest;
    assert At(t, mark, |c|);
  }

  lemma BlankBefore(r: Rule)
    ensures var a := ChainPart(r) + SourcePart(r); a != "" && a[|a| - 1] == ' '
  {
    hide SourceOf;
  }

  lemma OnlyProtocol(r: Rule, p: string, mark: string)
    requires p in {"tcp", "udp", "all"} && mark == " -p " + p + " "
    ensures Has(CommandText(r), mark) ==> p == ProtoWord(r)
  {
    hide CommandText, Has, Split;
    var t := CommandText(r);
    if Has(t, mark) {
      var j := WordsAround(t, p, mark);
      CommandWords(r);
      OneOption(r, j);
    }
  }

  /** An occurrence in the text is a pair of neighbouring words. */
  lemma WordsAround(t: string, p: string, mark: string) returns (j: nat)
    requires Has(t, mark) && mark == " -p " + p + " " && Free(p, {' '})
    ensures var w := Split(t, ' '); j + 1 < |w| && w[j] == "-p" && w[j + 1] == p
  {
    hide Split;
    var i :| 0 <= i <= |t| && At(t, mark, i);
    var x, y := t[..i], t[i + |mark|..];
    var z := p + [' '] + y;
    var u := "-p" + [' '] + z;
    assert t == x + [' '] + u by {
      assert t == x + mark + y;
      assert mark == [' '] + ("-p" + [' '] + (p + [' ']));
    }
    SplitMore(x, ' ', u);
    SplitCons("-p", ' ', z);
    SplitCons(p, ' ', y);
    j := |Split(x, ' ')|;
  }

  /** "-p" stands at one place only. */
  lemma OneOption(r: Rule, k: nat)
    requires var w := Split(CommandText(r), ' '); k < |w| && w[k] == "-p"
    ensures k == |Split(CommandText(r), ' ')| - 6
  {
    hide Split, CommandText, ShowUInt, SourceOf;
    CommandWords(r);
    NumberStarts(r);
  }

  lemma NumberStarts(r: Rule)
    ensures ShowUInt(r.dstPort) != "" && ShowUInt(r.dstPort)[0] != '-'
    ensures SourceOf(r) != "" && SourceOf(r)[0] != '-'
  {
    DigitFirst(r.dstPort);
    AddressStarts(r.srcIp);
    hide FormatIp, ShowUInt;
  }

  lemma DigitFirst(n: nat)
    ensures ShowUInt(n) != "" && ShowUInt(n)[0] != '-'
  {
    var d := Digits(n, 10);
    assert DigitVal(d[0]) < 10;
  }

  lemma AddressStarts(ip: u32)
    ensures FormatIp(ip) != "" && FormatIp(ip)[0] != '-'
  {
    hide ShowUInt;
    DigitFirst(Octet(ip, 0));
    ShowDottedCons(Octets(ip));
  }

  // ---------------------------------------------------------------- the whole script

  /** The line printed for a rule. */
  function LineOf(r: Rule): string {
    if r.active then CommandText(r) else "# [inactive] rule: " + r.comment + "\n"
  }

  /** Three lines a rule: its number and comment, its line, and an empty one. */
  function BlockLines(rules: seq<Rule>): (lines: seq<string>)
    ensures |lines| == 3 * |rules|
  {
    seq(3 * |rules|, i requires 0 <= i < 3 * |rules| =>
      if i % 3 == 0 then "# Rule " + ShowUInt(i / 3) + ": " + rules[i / 3].comment
      else if i % 3 == 1 then LineOf(rules[i / 3])
      else "")
  }

  /** The script, line by line. */
  lemma ScriptText(rules: seq<Rule>)
    ensures Script(rules) == Unlines(
      ["#!/bin/bash", "# Auto-generated PROFINET security policy", "# Rule count: " + ShowUInt(|rules|), "", "set -e",
       ""]
      + BlockLines(rules)
      + ["echo \"PROFINET security policy applied: " + ShowUInt(|rules|) + " rules\""])
  {
    hide Unlines, Blocks, ShowUInt, BlockLines;
    var n := |rules|;
    var head := ["#!/bin/bash", "# Auto-generated PROFINET security policy", "# Rule count: " + ShowUInt(n), "",
      "set -e", ""];
    var tail := ["echo \"PROFINET security policy applied: " + ShowUInt(n) + " rules\""];
    BlocksText(rules, n);
    assert BlockLines(rules)[..3 * n] == BlockLines(rules);
    UnlinesConcat(head, BlockLines(rules));
    UnlinesConcat(head + BlockLines(rules), tail);
    HeaderText(n);
    FooterText(n);
  }

  lemma HeaderText(n: nat)
    ensures Header(n) == Unlines(
      ["#!/bin/bash", "# Auto-generated PROFINET security policy", "# Rule count: " + ShowUInt(n), "", "set -e", ""])
  {
    hide Unlines, ShowUInt;
  }

  lemma FooterText(n: nat)
    ensures Footer(n) == Unlines(["echo \"PROFINET security policy applied: " + ShowUInt(n) + " rules\""])
  {
    hide Unlines, ShowUInt;
  }

  lemma BlockText(i: nat, r: Rule)
    ensures Block(i, r, RuleLine(r)) == Unlines(["# Rule " + ShowUInt(i) + ": " + r.comment, LineOf(r), ""])
  {
    hide Unlines, ShowUInt, CommandText;
  }

  lemma {:induction false} BlocksText(rules: seq<Rule>, k: nat)
    requires k <= |rules|
    ensures Blocks(rules, k) == Unlines(BlockLines(rules)[..3 * k])
  {
    hide Unlines, Block, RuleLine, LineOf, ShowUInt;
    var lines := BlockLines(rules);
    if k == 0 {
      assert lines[..0] == [];
      NoLines();
    } else {
      BlocksText(rules, k - 1);
      BlockText(k - 1, rules[k - 1]);
      ThreeLines(rules, k - 1);
      var m := 3 * (k - 1);
      assert lines[..3 * k] == lines[..m] + lines[m..m + 3];
      UnlinesConcat(lines[..m], lines[m..m + 3]);
    }
  }

  lemma NoLines()
    ensures Unlines([]) == ""
  {
  }

  lemma ThreeLines(rules: seq<Rule>, i: nat)
    requires i < |rules|
    ensures BlockLines(rules)[3 * i..3 * i + 3] ==
      ["# Rule " + ShowUInt(i) + ": " + rules[i].comment, LineOf(rules[i]), ""]
  {
    hide LineOf, ShowUInt;
    assert (3 * i) / 3 == i && (3 * i + 1) / 3 == i && (3 * i) % 3 == 0 && (3 * i + 1) % 3 == 1 && (3 * i + 2) % 3 == 2;
  }

  // ---------------------------------------------------------------- the rules of the repository's own test

  const ALLOWED: Rule := Rule(0, 0xC0A8_0164, 0, 102, 6, 0, 0, true, "")
  const DENIED: Rule := Rule(0, 0, 0, 102, 6, 1, 0, true, "")

  /** One host is accepted on port 102, everyone else dropped. */
  lemma TestedRules()
    ensures CommandText(ALLOWED) == "iptables -A INPUT -s 192.168.1.100 -p tcp --dport 102 -j ACCEPT"
    ensures CommandText(DENIED) == "iptables -A INPUT -p tcp --dport 102 -j DROP"
  {
    AllowedText();
    DeniedText();
    hide *;
  }

  lemma AllowedText()
    ensures CommandText(ALLOWED) == "iptables -A INPUT -s 192.168.1.100 -p tcp --dport 102 -j ACCEPT"
  {
    hide CommandText, ShowUInt, FormatIp;
    CommandFormat(ALLOWED);
    AllowedParts();
    PortText();
    hide *;
    assert "iptables -A INPUT " + "-s 192.168.1.100 " == "iptables -A INPUT -s 192.168.1.100 ";
    assert "-p tcp --dport " + "102" == "-p tcp --dport 102";
  }

  lemma AllowedParts()
    ensures ChainPart(ALLOWED) == "iptables -A INPUT " && SourcePart(ALLOWED) == "-s 192.168.1.100 "
    ensures ProtoPart(ALLOWED) == "-p tcp --dport " && VerdictPart(ALLOWED) == " -j ACCEPT" && ALLOWED.dstPort == 102
  {
    hide FormatIp;
    TestedAddress();
    assert "-s " + "192.168.1.100" + " " == "-s 192.168.1.100 ";
  }

  lemma DeniedText()
    ensures CommandText(DENIED) == "iptables -A INPUT -p tcp --dport 102 -j DROP"
  {
    hide CommandText, ShowUInt, FormatIp;
    CommandFormat(DENIED);
    PortText();
    assert "iptables -A INPUT " + "" + "-p tcp --dport " == "iptables -A INPUT -p tcp --dport ";
  }

  lemma PortText()
    ensures ShowUInt(102) == "102"
  {
  }

  lemma TestedAddress()
    ensures FormatIp(0xC0A8_0164) == "192.168.1.100"
  {
    hide ShowUInt;
    ShowSmall();
    var q := Octets(0xC0A8_0164);
    assert q == [192, 168, 1, 100];
    assert q[1..] == [168, 1, 100] && q[1..][1..] == [1, 100] && q[1..][1..][1..] == [100];
    ShowDottedCons(q);
    ShowDottedCons(q[1..]);
    ShowDottedCons(q[1..][1..]);
    assert "192" + ("." + ("168" + ("." + ("1" + ("." + "100"))))) == "192.168.1.100";
  }
}
