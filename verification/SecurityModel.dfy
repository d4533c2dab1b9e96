/** Firewall rules: the rule table as a plain sequence, the script that is printed for it,
    and a reader of such scripts. */
module SecurityModel {
  import opened CStrings
  import opened Numerals

  /** The contents of `char comment[64]`. */
  type CommentText = s: string | |s| < 64 && Free(s, {NUL}) witness ""

  /** sec_rule_t. The enumerations are plain ints in C, so any int may stand there. */
  datatype Rule = Rule(
    chain: i32, srcIp: u32, srcMask: u32, dstPort: u32, protocol: u8,
    action: i32, priority: i32, active: bool, comment: CommentText)

  /** What memset leaves in a slot. */
  const ZERO_RULE: Rule := Rule(0, 0, 0, 0, 0, 0, 0, false, "")

  const MAX_RULES: nat := 64
  const EIO: int := 5
  const EINVAL: int := 22
  const ENOSPC: int := 28
  const ERANGE: int := 34

  // ---------------------------------------------------------------- the table as a list

  datatype Op = Init | Add(rule: Rule) | Remove(index: int) | Flush

  /** The abstract effect of one call: the new list of rules and the return code. */
  function Do(rules: seq<Rule>, op: Op): (seq<Rule>, int) {
    match op
    case Init => ([], 0)
    case Flush => ([], 0)
    case Add(r) => if |rules| >= MAX_RULES then (rules, -ENOSPC) else (rules + [r.(active := true)], 0)
    case Remove(i) => if i < 0 || i >= |rules| then (rules, -ERANGE) else (rules[..i] + rules[i + 1..], 0)
  }

  function DoAll(rules: seq<Rule>, ops: seq<Op>): seq<Rule> {
    if ops == [] then rules
    else Do(DoAll(rules, ops[..|ops| - 1]), ops[|ops| - 1]).0
  }

  /** The rules handed to add calls, in call order, marked active. */
  function Offered(ops: seq<Op>): seq<Rule> {
    if ops == [] then []
    else
      var op := ops[|ops| - 1];
      Offered(ops[..|ops| - 1]) + if op.Add? then [op.rule.(active := true)] else []
  }

  /** `pick` lists positions of `from` in increasing order, and `s` is what stands there. */
  predicate Picks<T(==)>(s: seq<T>, from: seq<T>, pick: seq<nat>) {
    && |pick| == |s|
    && (forall i | 0 <= i < |s| :: pick[i] < |from| && s[i] == from[pick[i]])
    && (forall i, j | 0 <= i < j < |s| :: pick[i] < pick[j])
  }

  // ---------------------------------------------------------------- the printed script

  datatype Chain = INPUT | OUTPUT | FORWARD
  datatype Proto = TCP | UDP | ALL
  datatype Verdict = ACCEPT | DROP | REJECT

  function ChainOf(c: int): Chain {
    if c == 1 then OUTPUT else if c == 2 then FORWARD else INPUT
  }

  function ProtoOf(p: int): Proto {
    if p == 6 then TCP else if p == 17 then UDP else ALL
  }

  function VerdictOf(a: int): Verdict {
    if a == 0 then ACCEPT else if a == 2 then REJECT else DROP
  }

  function ChainName(c: Chain): string {
    match c case INPUT => "INPUT" case OUTPUT => "OUTPUT" case FORWARD => "FORWARD"
  }

  function ProtoName(p: Proto): string {
    match p case TCP => "tcp" case UDP => "udp" case ALL => "all"
  }

  function VerdictName(v: Verdict): string {
    match v case ACCEPT => "ACCEPT" case DROP => "DROP" case REJECT => "REJECT"
  }

  function SourceText(r: Rule): string {
    FormatIp(r.srcIp) + if r.srcMask != 0 then "/" + FormatIp(r.srcMask) else ""
  }

  function SourceWords(r: Rule): seq<string> {
    if r.srcIp != 0 then ["-s", SourceText(r)] else []
  }

  function RuleWords(r: Rule): seq<string> {
    ["iptables", "-A", ChainName(ChainOf(r.chain))] + SourceWords(r) +
    ["-p", ProtoName(ProtoOf(r.protocol)), "--dport", ShowUInt(r.dstPort), "-j", VerdictName(VerdictOf(r.action))]
  }

  function CommandText(r: Rule): string {
    Join(RuleWords(r), ' ')
  }

  /** The text generate_rule_line prints, whatever the size of its buffer. */
  function RuleLine(r: Rule): string {
    if r.active then CommandText(r) else "# [inactive] rule: " + r.comment + "\n"
  }

  const RULE_LINE_SIZE: nat := 256

  /** What generate_rule_line leaves in `char line[256]`: nothing usable when a command does
      not fit, a cut comment when an inactive line does not. */
  function LineInBuffer(r: Rule): Option<string> {
    if !r.active then Some(Truncate(RuleLine(r), RULE_LINE_SIZE - 1))
    else if |RuleLine(r)| < RULE_LINE_SIZE then Some(RuleLine(r))
    else None
  }

  function Header(n: nat): string {
    Unlines(["#!/bin/bash", "# Auto-generated PROFINET security policy", "# Rule count: " + ShowUInt(n), "",
      "set -e", ""])
  }

  function Footer(n: nat): string {
    Unlines(["echo \"PROFINET security policy applied: " + ShowUInt(n) + " rules\""])
  }

  /** The part of the script printed for one rule, given its line. */
  function Block(i: nat, r: Rule, line: string): string {
    Unlines(["# Rule " + ShowUInt(i) + ": " + r.comment, line, ""])
  }

  /** The simple printer: every rule in table order. */
  function Blocks(rules: seq<Rule>, k: nat): string
    requires k <= |rules|
  {
    if k == 0 then "" else Blocks(rules, k - 1) + Block(k - 1, rules[k - 1], RuleLine(rules[k - 1]))
  }

  function Script(rules: seq<Rule>): string {
    Header(|rules|) + Blocks(rules, |rules|) + Footer(|rules|)
  }

  /** The printer as the code is written: a rule whose line does not fit is skipped. */
  function BufferedBlocks(rules: seq<Rule>, k: nat): string
    requires k <= |rules|
  {
    if k == 0 then ""
    else
      BufferedBlocks(rules, k - 1) +
      match LineInBuffer(rules[k - 1])
      case None => ""
      case Some(line) => Block(k - 1, rules[k - 1], line)
  }

  function BufferedScript(rules: seq<Rule>): string {
    Header(|rules|) + BufferedBlocks(rules, |rules|) + Footer(|rules|)
  }

  // ---------------------------------------------------------------- reading a script

  datatype Command = Command(chain: Chain, srcIp: u32, srcMask: u32, proto: Proto, dstPort: u32, verdict: Verdict)

  function ReadChain(s: string): Option<Chain> {
    if s == "INPUT" then Some(INPUT)
    else if s == "OUTPUT" then Some(OUTPUT)
    else if s == "FORWARD" then Some(FORWARD)
    else None
  }

  function ReadProto(s: string): Option<Proto> {
    if s == "tcp" then Some(TCP)
    else if s == "udp" then Some(UDP)
    else if s == "all" then Some(ALL)
    else None
  }

  function ReadVerdict(s: string): Option<Verdict> {
    if s == "ACCEPT" then Some(ACCEPT)
    else if s == "DROP" then Some(DROP)
    else if s == "REJECT" then Some(REJECT)
    else None
  }

  function ReadPort(s: string): Option<u32> {
    match ScanUInt(s)
    case Some((n, rest)) => if rest == "" then Some(n) else None
    case None => None
  }

  /** `address` or `address/mask`. */
  function ReadSource(s: string): (u32, u32) {
    var n := Stop(s, 0, {'/'});
    (ParseIp(s[..n]), if n == |s| then 0 else ParseIp(s[n + 1..]))
  }

  /** An `iptables -A chain [-s source] -p proto --dport port -j verdict` line. */
  function ReadCommand(line: string): Option<Command> {
    var w := Split(line, ' ');
    if |w| < 9 || w[0] != "iptables" || w[1] != "-A" then None
    else
      var (source, rest) := if w[3] == "-s" then (ReadSource(w[4]), w[5..]) else ((0, 0), w[3..]);
      if |rest| != 6 || rest[0] != "-p" || rest[2] != "--dport" || rest[4] != "-j" then None
      else
        match (ReadChain(w[2]), ReadProto(rest[1]), ReadPort(rest[3]), ReadVerdict(rest[5]))
        case (Some(c), Some(p), Some(d), Some(v)) => Some(Command(c, source.0, source.1, p, d, v))
        case _ => None
  }

  function CommandIn(line: string): seq<Command> {
    match ReadCommand(line) case None => [] case Some(c) => [c]
  }

  /** The commands among `lines`, in order. */
  function Commands(lines: seq<string>): seq<Command> {
    if lines == [] then []
    else CommandIn(lines[0]) + Commands(lines[1..])
  }

  function ReadScript(text: string): seq<Command> {
    Commands(Split(text, '\n'))
  }

  /** What a rule says: no mask without a source, and unknown codes read as the code's own
      defaults. */
  function Normalised(r: Rule): Command {
    Command(ChainOf(r.chain), r.srcIp, if r.srcIp == 0 then 0 else r.srcMask, ProtoOf(r.protocol), r.dstPort,
      VerdictOf(r.action))
  }

  /** The active rules in table order. */
  function ActiveCommands(rules: seq<Rule>): seq<Command> {
    if rules == [] then []
    else
      var r := rules[|rules| - 1];
      ActiveCommands(rules[..|rules| - 1]) + if r.active then [Normalised(r)] else []
  }

  /** Commands on the second and later lines of a comment. */
  function StrayCommands(comment: string): seq<Command> {
    Commands(Split(comment, '\n')[1..])
  }
}
