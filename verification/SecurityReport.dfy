/** The audit in its own words: how its answers change when a rule is appended, which lines
    the report consists of, and that the result counts its warning lines. */
module SecurityReport {
  import opened CStrings
  import opened Numerals
  import opened SecurityModel
  import opened SecurityReadBack
  import opened SecurityAudit

  // ---------------------------------------------------------------- one more rule

  /** Drops or rejects everything that comes in. */
  predicate CatchAll(r: Rule) {
    r.chain == 0 && r.srcIp == 0 && r.protocol == 0 && r.dstPort == 0 && (r.action == 1 || r.action == 2)
  }

  /** UDP 500 or 4500. */
  predicate KeyExchange(r: Rule) {
    r.protocol == 17 && (r.dstPort == 500 || r.dstPort == 4500)
  }

  lemma DenyAppended(rules: seq<Rule>, r: Rule)
    ensures !HasDefaultDeny([])
    ensures HasDefaultDeny(rules + [r]) <==> HasDefaultDeny(rules) || CatchAll(r)
  {
    var more := rules + [r];
    if HasDefaultDeny(rules) {
      var i :| 0 <= i < |rules| && DeniesInput(rules[i]);
      assert more[i] == rules[i];
    }
    assert more[|rules|] == r;
  }

  lemma IpsecAppended(rules: seq<Rule>, r: Rule)
    ensures !HasIpsec([])
    ensures HasIpsec(rules + [r]) <==> HasIpsec(rules) || KeyExchange(r)
  {
    var more := rules + [r];
    if HasIpsec(rules) {
      var i :| 0 <= i < |rules| && MentionsIpsec(rules[i]);
      assert more[i] == rules[i];
    }
    assert more[|rules|] == r;
  }

  lemma InactiveAppended(rules: seq<Rule>, r: Rule)
    ensures InactiveCount([]) == 0
    ensures InactiveCount(rules + [r]) == InactiveCount(rules) + if r.active then 0 else 1
  {
    assert (rules + [r])[..|rules|] == rules;
  }

  /** How the number of warnings changes: an enabled empty policy has three, a disabled one
      four; the first rule ends one, the first catch-all deny and the first key-exchange
      rule one each, and the 49th rule brings one. */
  lemma WarningsAppended(rules: seq<Rule>, r: Rule, enabled: bool)
    ensures FailedChecks([], enabled) == if enabled then 3 else 4
    ensures FailedChecks(rules + [r], enabled) == FailedChecks(rules, enabled)
      - (if rules == [] then 1 else 0)
      - (if CatchAll(r) && !HasDefaultDeny(rules) then 1 else 0)
      - (if KeyExchange(r) && !HasIpsec(rules) then 1 else 0)
      + (if |rules| == 48 then 1 else 0)
    ensures FailedChecks(rules, false) == FailedChecks(rules, true) + 1
  {
    hide HasDefaultDeny, HasIpsec;
    DenyAppended(rules, r);
    IpsecAppended(rules, r);
  }

  // ---------------------------------------------------------------- the report line by line

  function If(c: bool, line: string): seq<string> {
    if c then [line] else []
  }

  function Banner(): string { "=== PROFINET Security" + " Policy Audit Report ===" }

  function DisabledLine(): string { "[WARN] Policy is disabled" + " - no rules are enforced" }

  function EmptyLine(): string { "[WARN] No firewall rules defined" }

  function DenyLine(): string { "[WARN] No default-deny" + " rule on INPUT chain" }

  function IpsecLine(): string {
    "[WARN] No IPSec (UDP 500/4500)" + " rules found - consider " + "enabling IPSec for encrypted traffic"
  }

  function TitleLines(n: nat, enabled: bool): seq<string> {
    [Banner(), "Total rules: " + ShowUInt(n) + " / " + ShowUInt(64),
     "Policy enabled: " + (if enabled then "yes" else "no"), ""]
  }

  function CheckLines(rules: seq<Rule>, enabled: bool): seq<string> {
    If(!enabled, DisabledLine())
    + If(rules == [], EmptyLine())
    + If(!HasDefaultDeny(rules), DenyLine())
    + If(!HasIpsec(rules), IpsecLine())
  }

  function InfoLines(rules: seq<Rule>): seq<string> {
    If(InactiveCount(rules) > 0, "[INFO] " + ShowUInt(InactiveCount(rules)) + " inactive rule(s) present")
    + If(|rules| > 48, "[WARN] Rule table is " + ShowUInt(|rules| * 100 / 64) + "% full (" + ShowUInt(|rules|)
        + "/" + ShowUInt(64) + ") - consider consolidating rules")
  }

  function SummaryLines(rules: seq<Rule>, enabled: bool): seq<string> {
    ["", "Audit complete: " + ShowUInt(FailedChecks(rules, enabled)) + " warning(s)"]
  }

  function ReportLines(rules: seq<Rule>, enabled: bool): seq<string> {
    TitleLines(|rules|, enabled) + CheckLines(rules, enabled) + InfoLines(rules) + SummaryLines(rules, enabled)
  }

  lemma IfText(c: bool, line: string, text: string)
    requires text == line + "\n"
    ensures When(c, text) == Unlines(If(c, line))
  {
    UnlinesOne(line);
  }

  lemma UnlinesOne(line: string)
    ensures Unlines([line]) == line + "\n" && Unlines([]) == ""
  {
    assert [line][1..] == [];
  }

  lemma TitleText(n: nat, enabled: bool)
    ensures Title(n, enabled) == Unlines(TitleLines(n, enabled))
  {
    hide Unlines, ShowUInt;
    var a, b, c := Banner(),
      "Total rules: " + ShowUInt(n) + " / " + ShowUInt(64), "Policy enabled: " + (if enabled then "yes" else "no");
    FourLines(a, b, c, "");
  }

  lemma FourLines(a: string, b: string, c: string, d: string)
    ensures Unlines([a, b, c, d]) == a + "\n" + b + "\n" + c + "\n" + d + "\n"
  {
    hide Unlines;
    TwoLines(a, b);
    TwoLines(c, d);
    UnlinesConcat([a, b], [c, d]);
    assert [a, b] + [c, d] == [a, b, c, d];
  }

  lemma TwoLines(a: string, b: string)
    ensures Unlines([a, b]) == a + "\n" + b + "\n"
  {
    hide Unlines;
    UnlinesOne(a);
    UnlinesOne(b);
    UnlinesConcat([a], [b]);
    assert [a] + [b] == [a, b];
  }

  lemma SummaryText(rules: seq<Rule>, enabled: bool)
    ensures Summary(FailedChecks(rules, enabled)) == Unlines(SummaryLines(rules, enabled))
  {
    hide Unlines, ShowUInt, FailedChecks;
    TwoLines("", "Audit complete: " + ShowUInt(FailedChecks(rules, enabled)) + " warning(s)");
  }

  lemma WarningTexts()
    ensures Disabled() == DisabledLine() + "\n" && Empty() == EmptyLine() + "\n"
    ensures NoDeny() == DenyLine() + "\n" && NoIpsec() == IpsecLine() + "\n"
  {
  }

  lemma CheckText(rules: seq<Rule>, enabled: bool)
    ensures When(!enabled, Disabled()) + When(rules == [], Empty()) + When(!HasDefaultDeny(rules), NoDeny())
      + When(!HasIpsec(rules), NoIpsec()) == Unlines(CheckLines(rules, enabled))
  {
    hide Unlines, If, When, HasDefaultDeny, HasIpsec, DisabledLine, EmptyLine, DenyLine, IpsecLine, Disabled, Empty,
      NoDeny, NoIpsec;
    WarningTexts();
    var a, b, c, d := DisabledLine(), EmptyLine(),
      DenyLine(),
      IpsecLine();
    IfText(!enabled, a, Disabled());
    IfText(rules == [], b, Empty());
    IfText(!HasDefaultDeny(rules), c, NoDeny());
    IfText(!HasIpsec(rules), d, NoIpsec());
    var l1, l2, l3, l4 := If(!enabled, a), If(rules == [], b), If(!HasDefaultDeny(rules), c), If(!HasIpsec(rules), d);
    UnlinesConcat(l1, l2);
    UnlinesConcat(l1 + l2, l3);
    UnlinesConcat(l1 + l2 + l3, l4);
  }

  lemma InfoText(rules: seq<Rule>)
    ensures When(InactiveCount(rules) > 0, Inactive(InactiveCount(rules))) + When(Crowded(rules), Full(|rules|))
      == Unlines(InfoLines(rules))
  {
    hide Unlines, If, When, InactiveCount, ShowUInt;
    var n := InactiveCount(rules);
    var a, b := "[INFO] " + ShowUInt(n) + " inactive rule(s) present",
      "[WARN] Rule table is " + ShowUInt(|rules| * 100 / 64) + "% full (" + ShowUInt(|rules|) + "/" + ShowUInt(64)
      + ") - consider consolidating rules";
    IfText(n > 0, a, Inactive(n));
    IfText(|rules| > 48, b, Full(|rules|));
    UnlinesConcat(If(n > 0, a), If(|rules| > 48, b));
  }

  /** The report is exactly these lines. */
  lemma ReportText(rules: seq<Rule>, enabled: bool)
    ensures Report(rules, enabled) == Unlines(ReportLines(rules, enabled))
  {
    hide Unlines, TitleLines, CheckLines, InfoLines, SummaryLines, Title, Summary, When, Disabled, Empty, NoDeny,
      NoIpsec, Inactive, Full, FailedChecks, HasDefaultDeny, HasIpsec, InactiveCount, Crowded;
    TitleText(|rules|, enabled);
    CheckText(rules, enabled);
    InfoText(rules);
    SummaryText(rules, enabled);
    var a, b, c, d := TitleLines(|rules|, enabled), CheckLines(rules, enabled), InfoLines(rules),
      SummaryLines(rules, enabled);
    UnlinesConcat(a, b);
    UnlinesConcat(a + b, c);
    UnlinesConcat(a + b + c, d);
  }

  predicate OneLiners(lines: seq<string>) {
    forall l | l in lines :: Free(l, {'\n'})
  }

  lemma OneLinersConcat(a: seq<string>, b: seq<string>)
    requires OneLiners(a) && OneLiners(b)
    ensures OneLiners(a + b)
  {
  }

  lemma OneLinerIf(c: bool, line: string)
    requires Free(line, {'\n'})
    ensures OneLiners(If(c, line))
  {
  }

  lemma LinesFree(rules: seq<Rule>, enabled: bool)
    ensures OneLiners(ReportLines(rules, enabled))
  {
    hide OneLiners, TitleLines, CheckLines, InfoLines, SummaryLines;
    TitleFree(|rules|, enabled);
    CheckFree(rules, enabled);
    InfoFree(rules);
    SummaryFree(rules, enabled);
    var a, b, c, d := TitleLines(|rules|, enabled), CheckLines(rules, enabled), InfoLines(rules),
      SummaryLines(rules, enabled);
    OneLinersConcat(a, b);
    OneLinersConcat(a + b, c);
    OneLinersConcat(a + b + c, d);
  }

  lemma NumberFree(n: nat)
    ensures Free(ShowUInt(n), {'\n'})
  {
    ShownNat(n);
    PlainFree(ShowUInt(n));
  }

  /** A number between two texts. */
  lemma NumberedFree(a: string, n: nat, b: string)
    requires Free(a, {'\n'}) && Free(b, {'\n'})
    ensures Free(a + ShowUInt(n) + b, {'\n'})
  {
    hide ShowUInt;
    NumberFree(n);
  }

  lemma TitleFree(n: nat, enabled: bool)
    ensures OneLiners(TitleLines(n, enabled))
  {
    hide ShowUInt, Free;
    TitleWords();
    NumberedFree("Total rules: ", n, " / ");
    NumberedFree("Total rules: " + ShowUInt(n) + " / ", 64, "");
    assert "Total rules: " + ShowUInt(n) + " / " + ShowUInt(64) + ""
      == "Total rules: " + ShowUInt(n) + " / " + ShowUInt(64);
  }

  lemma FreeParts(a: string, b: string)
    requires Free(a, {'\n'}) && Free(b, {'\n'})
    ensures Free(a + b, {'\n'})
  {
  }

  lemma TitleWords()
    ensures Free(Banner(), {'\n'}) && Free("Total rules: ", {'\n'})
    ensures Free(" / ", {'\n'}) && Free("", {'\n'})
    ensures Free("Policy enabled: " + "yes", {'\n'}) && Free("Policy enabled: " + "no", {'\n'})
  {
    FreeParts("=== PROFINET Security", " Policy Audit Report ===");
  }

  lemma SummaryFree(rules: seq<Rule>, enabled: bool)
    ensures OneLiners(SummaryLines(rules, enabled))
  {
    hide ShowUInt, FailedChecks;
    NumberedFree("Audit complete: ", FailedChecks(rules, enabled), " warning(s)");
  }

  lemma CheckFree(rules: seq<Rule>, enabled: bool)
    ensures OneLiners(CheckLines(rules, enabled))
  {
    hide HasDefaultDeny, HasIpsec, OneLiners, If, Free, DisabledLine, EmptyLine, DenyLine, IpsecLine;
    WarningsFree();
    IpsecFree();
    var a, b := If(!enabled, DisabledLine()),
      If(rules == [], EmptyLine());
    var c, d := If(!HasDefaultDeny(rules), DenyLine()), If(!HasIpsec(rules), IpsecLine());
    OneLinerIf(!enabled, DisabledLine());
    OneLinerIf(rules == [], EmptyLine());
    OneLinerIf(!HasDefaultDeny(rules), DenyLine());
    OneLinerIf(!HasIpsec(rules), IpsecLine());
    OneLinersConcat(a, b);
    OneLinersConcat(a + b, c);
    OneLinersConcat(a + b + c, d);
  }

  lemma WarningsFree()
    ensures Free(DisabledLine(), {'\n'}) && Free(EmptyLine(), {'\n'}) && Free(DenyLine(), {'\n'})
  {
    FreeParts("[WARN] Policy is disabled", " - no rules are enforced");
    FreeParts("[WARN] No default-deny", " rule on INPUT chain");
  }

  lemma IpsecFree()
    ensures Free(IpsecLine(), {'\n'})
  {
    FreeParts("[WARN] No IPSec (UDP 500/4500)", " rules found - consider ");
    FreeParts("[WARN] No IPSec (UDP 500/4500)" + " rules found - consider ", "enabling IPSec for encrypted traffic");
  }

  lemma InfoFree(rules: seq<Rule>)
    ensures OneLiners(InfoLines(rules))
  {
    hide InactiveCount, ShowUInt, OneLiners, If, Free;
    var n, m := InactiveCount(rules), |rules|;
    InfoWords();
    NumberedFree("[INFO] ", n, " inactive rule(s) present");
    OneLinerIf(n > 0, "[INFO] " + ShowUInt(n) + " inactive rule(s) present");
    var a := "[WARN] Rule table is " + ShowUInt(m * 100 / 64) + "% full (";
    NumberedFree("[WARN] Rule table is ", m * 100 / 64, "% full (");
    NumberedFree(a, m, "/");
    NumberedFree(a + ShowUInt(m) + "/", 64, ") - consider consolidating rules");
    OneLinerIf(m > 48, a + ShowUInt(m) + "/" + ShowUInt(64) + ") - consider consolidating rules");
    OneLinersConcat(If(n > 0, "[INFO] " + ShowUInt(n) + " inactive rule(s) present"),
      If(m > 48, a + ShowUInt(m) + "/" + ShowUInt(64) + ") - consider consolidating rules"));
  }

  lemma InfoWords()
    ensures Free("[INFO] ", {'\n'}) && Free(" inactive rule(s) present", {'\n'})
    ensures Free("[WARN] Rule table is ", {'\n'}) && Free("% full (", {'\n'}) && Free("/", {'\n'})
    ensures Free(") - consider consolidating rules", {'\n'})
  {
  }

  lemma ReportSplit(rules: seq<Rule>, enabled: bool)
    ensures Split(Report(rules, enabled), '\n') == ReportLines(rules, enabled) + [""]
  {
    hide Report, ReportLines, Unlines, Split;
    ReportText(rules, enabled);
    LinesFree(rules, enabled);
    UnlinesJoin(ReportLines(rules, enabled));
    SplitJoin(ReportLines(rules, enabled) + [""], '\n');
  }

  // ---------------------------------------------------------------- what the lines say

  predicate Warns(line: string) {
    "[WARN]" <= line
  }

  function Warnings(lines: seq<string>): nat {
    if lines == [] then 0 else (if Warns(lines[0]) then 1 else 0) + Warnings(lines[1..])
  }

  lemma {:induction false} WarningsConcat(a: seq<string>, b: seq<string>)
    ensures Warnings(a + b) == Warnings(a) + Warnings(b)
  {
    hide Warns;
    if a == [] {
      assert a + b == b;
    } else {
      WarningsConcat(a[1..], b);
      assert (a + b)[1..] == a[1..] + b;
    }
  }

  lemma WarningsOf(c: bool, line: string)
    ensures Warnings(If(c, line)) == if c && Warns(line) then 1 else 0
  {
    assert [line][1..] == [];
  }

  lemma {:induction false} NoWarnings(lines: seq<string>)
    requires forall l | l in lines :: !Warns(l)
    ensures Warnings(lines) == 0
  {
    hide Warns;
    if lines != [] {
      assert lines[0] in lines;
      NoWarnings(lines[1..]);
    }
  }

  lemma WarningLines()
    ensures Warns(DisabledLine()) && Warns(EmptyLine()) && Warns(DenyLine()) && Warns(IpsecLine())
    ensures forall t: string :: Warns("[WARN] Rule table is " + t) && !Warns("[INFO] " + t)
  {
    forall t: string
      ensures Warns("[WARN] Rule table is " + t) && !Warns("[INFO] " + t)
    {
      assert ("[INFO] " + t)[1] == 'I';
    }
  }

  lemma CheckWarnings(rules: seq<Rule>, enabled: bool)
    ensures Warnings(CheckLines(rules, enabled)) ==
      (if enabled then 0 else 1) + (if rules == [] then 1 else 0)
      + (if HasDefaultDeny(rules) then 0 else 1) + (if HasIpsec(rules) then 0 else 1)
  {
    hide If, Warnings, Warns, HasDefaultDeny, HasIpsec, DisabledLine, EmptyLine, DenyLine, IpsecLine;
    WarningLines();
    WarningsOf(!enabled, DisabledLine());
    WarningsOf(rules == [], EmptyLine());
    WarningsOf(!HasDefaultDeny(rules), DenyLine());
    WarningsOf(!HasIpsec(rules), IpsecLine());
    var a, b := If(!enabled, DisabledLine()), If(rules == [], EmptyLine());
    var c, d := If(!HasDefaultDeny(rules), DenyLine()), If(!HasIpsec(rules), IpsecLine());
    WarningsConcat(a, b);
    WarningsConcat(a + b, c);
    WarningsConcat(a + b + c, d);
  }

  lemma InfoWarnings(rules: seq<Rule>)
    ensures Warnings(InfoLines(rules)) == if |rules| > 48 then 1 else 0
  {
    hide If, Warnings, Warns, InactiveCount, ShowUInt;
    WarningLines();
    var n, m := InactiveCount(rules), |rules|;
    var info := ShowUInt(n) + " inactive rule(s) present";
    var full := ShowUInt(m * 100 / 64) + "% full (" + ShowUInt(m) + "/" + ShowUInt(64)
      + ") - consider consolidating rules";
    assert "[INFO] " + info == "[INFO] " + ShowUInt(n) + " inactive rule(s) present";
    assert "[WARN] Rule table is " + full == "[WARN] Rule table is " + ShowUInt(m * 100 / 64) + "% full (" + ShowUInt(m)
      + "/" + ShowUInt(64) + ") - consider consolidating rules";
    WarningsOf(n > 0, "[INFO] " + info);
    WarningsOf(m > 48, "[WARN] Rule table is " + full);
    WarningsConcat(If(n > 0, "[INFO] " + info), If(m > 48, "[WARN] Rule table is " + full));
  }

  lemma FrameWarnings(rules: seq<Rule>, enabled: bool)
    ensures Warnings(TitleLines(|rules|, enabled)) == 0
    ensures Warnings(SummaryLines(rules, enabled) + [""]) == 0
  {
    hide ShowUInt, FailedChecks, Warnings;
    var t, s := TitleLines(|rules|, enabled), SummaryLines(rules, enabled) + [""];
    forall l | l in t || l in s
      ensures !Warns(l)
    {
      assert l == "" || l[0] != '[';
    }
    NoWarnings(t);
    NoWarnings(s);
  }

  /** The result of the audit is the number of warning lines in its report. */
  lemma ResultCountsWarnings(rules: seq<Rule>, enabled: bool)
    ensures Warnings(Split(Report(rules, enabled), '\n')) == FailedChecks(rules, enabled)
  {
    hide Warnings, Report, Split, TitleLines, CheckLines, InfoLines, SummaryLines, HasDefaultDeny, HasIpsec;
    ReportSplit(rules, enabled);
    CheckWarnings(rules, enabled);
    InfoWarnings(rules);
    FrameWarnings(rules, enabled);
    var a, b, c, d := TitleLines(|rules|, enabled), CheckLines(rules, enabled), InfoLines(rules),
      SummaryLines(rules, enabled) + [""];
    assert ReportLines(rules, enabled) + [""] == a + b + c + d;
    WarningsConcat(a, b);
    WarningsConcat(a + b, c);
    WarningsConcat(a + b + c, d);
  }

  /** Two letters tell the lines of a report apart. */
  function Tag(line: string): (char, char) {
    if |line| <= 10 then (' ', ' ') else (line[7], line[10])
  }

  lemma WarningTags()
    ensures Tag(DisabledLine()) == ('P', 'i') && Tag(EmptyLine()) == ('N', 'f')
    ensures Tag(DenyLine()) == ('N', 'd') && Tag(IpsecLine()) == ('N', 'I')
    ensures Tag(Banner()) == ('F', 'E')
  {
  }

  lemma TagPrefix(p: string, t: string)
    requires |p| > 10
    ensures Tag(p + t) == Tag(p)
  {
  }

  lemma PrefixTags()
    ensures Tag("Total rules: ") == ('u', 's') && Tag("Policy enabled: ") == ('e', 'b')
    ensures Tag("Audit complete: ") == ('o', 'l') && Tag("[WARN] Rule table is ") == ('R', 'e')
  {
  }

  lemma InfoTag(n: nat)
    ensures Tag("[INFO] " + ShowUInt(n) + " inactive rule(s) present").0 <= '9'
  {
    hide Digits;
    var d := ShowUInt(n);
    assert DigitVal(d[0]) < 10;
    var l := "[INFO] " + d + " inactive rule(s) present";
    assert l[7] == d[0];
  }

  predicate CheckTag(line: string) {
    Tag(line) in {('P', 'i'), ('N', 'f'), ('N', 'd'), ('N', 'I')}
  }

  lemma OnlyInChecks(rules: seq<Rule>, enabled: bool, line: string)
    requires CheckTag(line)
    ensures line !in TitleLines(|rules|, enabled) && line !in InfoLines(rules)
    ensures line !in SummaryLines(rules, enabled) && line != ""
  {
    hide ShowUInt, FailedChecks, InactiveCount, Tag, Banner;
    WarningTags();
    ShortTag();
    TagsOfNumbers(rules, enabled);
  }

  lemma ShortTag()
    ensures Tag("") == (' ', ' ')
  {
  }

  lemma TagsOfNumbers(rules: seq<Rule>, enabled: bool)
    ensures Tag("Total rules: " + ShowUInt(|rules|) + " / " + ShowUInt(64)) == ('u', 's')
    ensures Tag("Policy enabled: " + (if enabled then "yes" else "no")) == ('e', 'b')
    ensures Tag("Audit complete: " + ShowUInt(FailedChecks(rules, enabled)) + " warning(s)") == ('o', 'l')
    ensures Tag("[WARN] Rule table is " + ShowUInt(|rules| * 100 / 64) + "% full (" + ShowUInt(|rules|)
      + "/" + ShowUInt(64) + ") - consider consolidating rules") == ('R', 'e')
    ensures Tag("[INFO] " + ShowUInt(InactiveCount(rules)) + " inactive rule(s) present").0 <= '9'
  {
    hide ShowUInt, FailedChecks, InactiveCount, Tag;
    var m := |rules|;
    PrefixTags();
    InfoTag(InactiveCount(rules));
    TotalTag(m);
    TagPrefix("Policy enabled: ", if enabled then "yes" else "no");
    CompleteTag(FailedChecks(rules, enabled));
    FullTag(m * 100 / 64, m);
  }

  lemma TotalTag(n: nat)
    ensures Tag("Total rules: " + ShowUInt(n) + " / " + ShowUInt(64)) == Tag("Total rules: ")
  {
    hide ShowUInt, Tag;
    var p := "Total rules: ";
    TagPrefix(p, ShowUInt(n));
    TagPrefix(p + ShowUInt(n), " / ");
    TagPrefix(p + ShowUInt(n) + " / ", ShowUInt(64));
  }

  lemma CompleteTag(n: nat)
    ensures Tag("Audit complete: " + ShowUInt(n) + " warning(s)") == Tag("Audit complete: ")
  {
    hide ShowUInt, Tag;
    TagPrefix("Audit complete: ", ShowUInt(n));
    TagPrefix("Audit complete: " + ShowUInt(n), " warning(s)");
  }

  lemma FullTag(p: nat, n: nat)
    ensures Tag("[WARN] Rule table is " + ShowUInt(p) + "% full (" + ShowUInt(n) + "/" + ShowUInt(64)
      + ") - consider consolidating rules") == Tag("[WARN] Rule table is ")
  {
    hide ShowUInt, Tag;
    var a := "[WARN] Rule table is ";
    TagPrefix(a, ShowUInt(p));
    TagPrefix(a + ShowUInt(p), "% full (");
    TagPrefix(a + ShowUInt(p) + "% full (", ShowUInt(n));
    TagPrefix(a + ShowUInt(p) + "% full (" + ShowUInt(n), "/");
    TagPrefix(a + ShowUInt(p) + "% full (" + ShowUInt(n) + "/", ShowUInt(64));
    TagPrefix(a + ShowUInt(p) + "% full (" + ShowUInt(n) + "/" + ShowUInt(64), ") - consider consolidating rules");
  }

  /** Which warnings a report holds. */
  lemma ReportSays(rules: seq<Rule>, enabled: bool)
    ensures var lines := Split(Report(rules, enabled), '\n');
      && (DisabledLine() in lines <==> !enabled)
      && (EmptyLine() in lines <==> rules == [])
      && (DenyLine() in lines <==> !HasDefaultDeny(rules))
      && (IpsecLine() in lines <==> !HasIpsec(rules))
  {
    hide Report, Split, TitleLines, InfoLines, SummaryLines, HasDefaultDeny, HasIpsec, Tag, DisabledLine, EmptyLine,
      DenyLine, IpsecLine;
    ReportSplit(rules, enabled);
    WarningTags();
    OnlyInChecks(rules, enabled, DisabledLine());
    OnlyInChecks(rules, enabled, EmptyLine());
    OnlyInChecks(rules, enabled, DenyLine());
    OnlyInChecks(rules, enabled, IpsecLine());
  }
}
