/** sec_policy_audit: the report and the number of failed conditions. */
module SecurityAudit {
  import opened Numerals
  import opened BoundedWriter
  import opened SecurityModel
  import opened SecuritySize
  import opened SecurityPolicy

  /** A catch-all rule on the INPUT chain that drops or rejects. */
  predicate DeniesInput(r: Rule) {
    r.chain == 0 && r.protocol == 0 && r.dstPort == 0 && r.srcIp == 0 && (r.action == 1 || r.action == 2)
  }

  predicate MentionsIpsec(r: Rule) {
    r.protocol == 17 && (r.dstPort == 500 || r.dstPort == 4500)
  }

  predicate HasDefaultDeny(rules: seq<Rule>) {
    exists i | 0 <= i < |rules| :: DeniesInput(rules[i])
  }

  predicate HasIpsec(rules: seq<Rule>) {
    exists i | 0 <= i < |rules| :: MentionsIpsec(rules[i])
  }

  predicate Crowded(rules: seq<Rule>) {
    |rules| > MAX_RULES * 3 / 4
  }

  function InactiveCount(rules: seq<Rule>): nat {
    if rules == [] then 0
    else InactiveCount(rules[..|rules| - 1]) + if rules[|rules| - 1].active then 0 else 1
  }

  function One(failed: bool): nat {
    if failed then 1 else 0
  }

  /** The number of failed conditions. */
  function FailedChecks(rules: seq<Rule>, enabled: bool): nat {
    One(!enabled) + One(rules == []) + One(!HasDefaultDeny(rules)) + One(!HasIpsec(rules)) + One(Crowded(rules))
  }

  // ---------------------------------------------------------------- the report

  function Title(n: nat, enabled: bool): string {
    ("=== PROFINET Security" + " Policy Audit Report ===") + "\n" +
    ("Total rules: " + ShowUInt(n) + " / " + ShowUInt(MAX_RULES)) + "\n" +
    ("Policy enabled: " + (if enabled then "yes" else "no")) + "\n" + "\n"
  }

  function Disabled(): string { "[WARN] Policy is disabled" + " - no rules are enforced" + "\n" }

  function Empty(): string { "[WARN] No firewall rules defined" + "\n" }

  function NoDeny(): string { "[WARN] No default-deny" + " rule on INPUT chain" + "\n" }

  function NoIpsec(): string {
    "[WARN] No IPSec (UDP 500/4500)" + " rules found - consider " + "enabling IPSec for encrypted traffic" + "\n"
  }

  function Inactive(n: nat): string {
    "[INFO] " + ShowUInt(n) + " inactive rule(s) present" + "\n"
  }

  function Full(n: nat): string {
    "[WARN] Rule table is " + ShowUInt(n * 100 / MAX_RULES) + "% full (" + ShowUInt(n) + "/" + ShowUInt(MAX_RULES) +
    ") - consider consolidating rules" + "\n"
  }

  function Summary(warnings: nat): string {
    "\n" + ("Audit complete: " + ShowUInt(warnings) + " warning(s)") + "\n"
  }

  function When(c: bool, text: string): string {
    if c then text else ""
  }

  /** The title and the first three checks. */
  function EarlyFindings(rules: seq<Rule>, enabled: bool): string {
    Title(|rules|, enabled) + When(!enabled, Disabled()) + When(rules == [], Empty()) +
    When(!HasDefaultDeny(rules), NoDeny())
  }

  function MiddleFindings(rules: seq<Rule>, enabled: bool): string {
    EarlyFindings(rules, enabled) + When(!HasIpsec(rules), NoIpsec()) +
    When(InactiveCount(rules) > 0, Inactive(InactiveCount(rules)))
  }

  function Findings(rules: seq<Rule>, enabled: bool): string {
    MiddleFindings(rules, enabled) + When(Crowded(rules), Full(|rules|))
  }

  function Report(rules: seq<Rule>, enabled: bool): string {
    Findings(rules, enabled) + Summary(FailedChecks(rules, enabled))
  }

  lemma TitleFirst(rules: seq<Rule>, enabled: bool)
    ensures Title(|rules|, enabled) <= Report(rules, enabled)
  {
    hide Title, When, Summary, Findings, MiddleFindings, EarlyFindings, FailedChecks;
    TitleEarly(rules, enabled);
    EarlyMiddle(rules, enabled);
    MiddleAll(rules, enabled);
    ReportParts(rules, enabled);
  }

  lemma TitleEarly(rules: seq<Rule>, enabled: bool)
    ensures Title(|rules|, enabled) <= EarlyFindings(rules, enabled)
  {
    hide Title, When, HasDefaultDeny;
  }

  lemma EarlyMiddle(rules: seq<Rule>, enabled: bool)
    ensures EarlyFindings(rules, enabled) <= MiddleFindings(rules, enabled)
  {
    hide EarlyFindings, When, HasIpsec, InactiveCount;
  }

  lemma MiddleAll(rules: seq<Rule>, enabled: bool)
    ensures MiddleFindings(rules, enabled) <= Findings(rules, enabled)
  {
    hide MiddleFindings, When;
  }

  lemma ReportParts(rules: seq<Rule>, enabled: bool)
    ensures Report(rules, enabled) == Findings(rules, enabled) + Summary(FailedChecks(rules, enabled))
  {
    hide Findings, Summary, FailedChecks;
  }

  lemma InactiveAtMost(rules: seq<Rule>)
    ensures InactiveCount(rules) <= |rules|
  {
  }

  lemma TitleLength(n: nat, enabled: bool)
    requires n <= MAX_RULES
    ensures |Title(n, enabled)| <= 88
  {
    hide ShowUInt;
    TwoDigits(n);
    TwoDigits(MAX_RULES);
  }

  lemma NumberedLengths(n: nat)
    requires n <= MAX_RULES
    ensures |Inactive(n)| <= 35 && |Full(n)| <= 70 && |Summary(n)| <= 31
  {
    hide ShowUInt;
    TwoDigits(n);
    TwoDigits(MAX_RULES);
    SmallDigits(n * 100 / MAX_RULES);
    assert |ShowUInt(n * 100 / MAX_RULES)| <= 3 by { ThreeDigits(n * 100 / MAX_RULES); }
  }

  lemma ThreeDigits(n: nat)
    requires n < 256
    ensures |ShowUInt(n)| <= 3
  {
    SmallDigits(n);
  }

  lemma ShortLengths()
    ensures |Disabled()| == 50 && |Empty()| == 33 && |NoDeny()| == 43
  {
  }

  lemma FixedLengths()
    ensures |Disabled()| == 50 && |Empty()| == 33 && |NoDeny()| == 43 && |NoIpsec()| == 91
  {
    hide Disabled, Empty, NoDeny;
    ShortLengths();
  }

  lemma FindingsLength(rules: seq<Rule>, enabled: bool)
    requires |rules| <= MAX_RULES
    ensures |Findings(rules, enabled)| <= 410
  {
    hide Title, Disabled, Empty, NoDeny, NoIpsec, Inactive, Full, InactiveCount, HasDefaultDeny, HasIpsec, Crowded;
    TitleLength(|rules|, enabled);
    FixedLengths();
    InactiveAtMost(rules);
    NumberedLengths(InactiveCount(rules));
    NumberedLengths(|rules|);
  }

  /** For every table of at most 64 rules the report fits 512 bytes, and between none and
      four conditions fail: an empty table is not crowded. */
  lemma AuditBounds(rules: seq<Rule>, enabled: bool)
    requires |rules| <= MAX_RULES
    ensures |Report(rules, enabled)| < 512
    ensures FailedChecks(rules, enabled) <= 4
  {
    hide Findings, Summary, HasDefaultDeny, HasIpsec;
    FindingsLength(rules, enabled);
    NumberedLengths(FailedChecks(rules, enabled));
  }

  // ---------------------------------------------------------------- the method

  method FindDeny(p: Policy) returns (found: bool)
    requires p.Valid()
    ensures found == HasDefaultDeny(p.Live())
  {
    found := false;
    var i := 0;
    while i < p.count
      invariant 0 <= i <= p.count
      invariant forall k | 0 <= k < i :: !DeniesInput(p.rules[k])
    {
      var r := p.rules[i];
      if r.chain == 0 && r.protocol == 0 && r.dstPort == 0 && r.srcIp == 0 && (r.action == 1 || r.action == 2) {
        assert DeniesInput(p.Live()[i]);
        return true;
      }
      i := i + 1;
    }
  }

  method FindIpsec(p: Policy) returns (found: bool)
    requires p.Valid()
    ensures found == HasIpsec(p.Live())
  {
    found := false;
    var i := 0;
    while i < p.count
      invariant 0 <= i <= p.count
      invariant forall k | 0 <= k < i :: !MentionsIpsec(p.rules[k])
    {
      var r := p.rules[i];
      if r.protocol == 17 && (r.dstPort == 500 || r.dstPort == 4500) {
        assert MentionsIpsec(p.Live()[i]);
        return true;
      }
      i := i + 1;
    }
  }

  method CountInactive(p: Policy) returns (n: nat)
    requires p.Valid()
    ensures n == InactiveCount(p.Live())
  {
    n := 0;
    var i := 0;
    while i < p.count
      invariant 0 <= i <= p.count
      invariant n == InactiveCount(p.Live()[..i])
    {
      assert p.Live()[..i + 1][..i] == p.Live()[..i];
      if !p.rules[i].active {
        n := n + 1;
      }
      i := i + 1;
    }
    assert p.Live()[..i] == p.Live();
  }

  /** One optional line of the report. */
  method Finding(report: array<char>, len: nat, off: nat, ghost was: seq<char>, ghost before: string,
                 failed: bool, text: string) returns (next: nat)
    requires 0 < len <= report.Length == |was| && off == |before| < len
    requires report[..] == Written(was, len, before)
    modifies report
    ensures report[..] == Written(was, len, before + When(failed, text))
    ensures next == |before + When(failed, text)|
  {
    next := off;
    if failed {
      var written := Print(report, len, off, was, before, text);
      next := off + written;
    } else {
      assert before + "" == before;
    }
  }

  /** The three parts of the report between title and summary. The flags come from the
      loops over the table. */
  method EarlyChecks(report: array<char>, len: nat, off: nat, ghost was: seq<char>, ghost live: seq<Rule>,
                     enabled: bool, count: nat, deny: bool) returns (next: nat)
    requires 512 <= len <= report.Length == |was| && |live| == count <= MAX_RULES && deny == HasDefaultDeny(live)
    requires off == |Title(count, enabled)| && report[..] == Written(was, len, Title(count, enabled))
    modifies report
    ensures next == |EarlyFindings(live, enabled)| && report[..] == Written(was, len, EarlyFindings(live, enabled))
  {
    hide Title, Disabled, Empty, NoDeny, HasDefaultDeny, Written;
    TitleLength(count, enabled);
    FixedLengths();
    ghost var t0 := Title(count, enabled);
    next := Finding(report, len, off, was, t0, !enabled, Disabled());
    ghost var t1 := t0 + When(!enabled, Disabled());
    next := Finding(report, len, next, was, t1, count == 0, Empty());
    ghost var t2 := t1 + When(count == 0, Empty());
    next := Finding(report, len, next, was, t2, !deny, NoDeny());
    assert t2 + When(!deny, NoDeny()) == EarlyFindings(live, enabled);
  }

  method MiddleChecks(report: array<char>, len: nat, off: nat, ghost was: seq<char>, ghost live: seq<Rule>,
                      ghost before: string, ghost enabled: bool, ipsec: bool, inactive: nat) returns (next: nat)
    requires 512 <= len <= report.Length == |was| && |live| <= MAX_RULES
    requires ipsec == HasIpsec(live) && inactive == InactiveCount(live)
    requires off == |before| && report[..] == Written(was, len, before) && before == EarlyFindings(live, enabled)
    modifies report
    ensures var text := MiddleFindings(live, enabled); next == |text| && report[..] == Written(was, len, text)
  {
    hide EarlyFindings, NoIpsec, Inactive, InactiveCount, HasIpsec, Written, When;
    FindingsLength(live, enabled);
    next := Finding(report, len, off, was, before, !ipsec, NoIpsec());
    ghost var t4 := before + When(!ipsec, NoIpsec());
    next := Finding(report, len, next, was, t4, inactive > 0, Inactive(inactive));
    assert t4 + When(inactive > 0, Inactive(inactive)) == MiddleFindings(live, enabled);
  }

  /** The audit is exact: the buffer holds the whole report, and the result is the number of
      failed conditions. */
  method Audit(p: Policy, report: array<char>, len: nat) returns (rc: int)
    requires p.Valid() && 512 <= len <= report.Length
    modifies report
    ensures report[..] == Written(old(report[..]), len, Report(old(p.Live()), p.enabled))
    ensures rc == FailedChecks(old(p.Live()), p.enabled) && 0 <= rc <= 4
  {
    hide Report, HasDefaultDeny, HasIpsec, InactiveCount, Written, FailedChecks;
    AuditBounds(p.Live(), p.enabled);
    var deny, ipsec, inactive := Scan(p);
    rc := WriteReport(report, len, p.Live(), p.enabled, p.count, deny, ipsec, inactive);
  }

  method Scan(p: Policy) returns (deny: bool, ipsec: bool, inactive: nat)
    requires p.Valid()
    ensures deny == HasDefaultDeny(p.Live()) && ipsec == HasIpsec(p.Live()) && inactive == InactiveCount(p.Live())
  {
    deny := FindDeny(p);
    ipsec := FindIpsec(p);
    inactive := CountInactive(p);
  }

  method WriteReport(report: array<char>, len: nat, ghost live: seq<Rule>, enabled: bool, count: nat,
                     deny: bool, ipsec: bool, inactive: nat) returns (rc: int)
    requires 512 <= len <= report.Length && |live| == count <= MAX_RULES
    requires deny == HasDefaultDeny(live) && ipsec == HasIpsec(live) && inactive == InactiveCount(live)
    modifies report
    ensures report[..] == Written(old(report[..]), len, Report(live, enabled))
    ensures rc == if |Report(live, enabled)| < len then FailedChecks(live, enabled) else -ENOSPC
  {
    hide Title, EarlyFindings, MiddleFindings, HasDefaultDeny, HasIpsec, InactiveCount, Report, Written, FailedChecks;
    ghost var was := report[..];
    assert report[..0] == [] && report[0..] == was;
    var written := SNPrintf(report, 0, len, Title(count, enabled));
    if written >= len {
      TitleFirst(live, enabled);
      FullAlready(was, len, Title(count, enabled), Report(live, enabled));
      return -ENOSPC;
    }
    var offset := EarlyChecks(report, len, written, was, live, enabled, count, deny);
    offset := MiddleChecks(report, len, offset, was, live, EarlyFindings(live, enabled), enabled, ipsec, inactive);
    rc := LateChecks(report, len, offset, was, live, MiddleFindings(live, enabled), enabled, count, deny, ipsec);
  }

  method LateChecks(report: array<char>, len: nat, off: nat, ghost was: seq<char>, ghost live: seq<Rule>,
                    ghost before: string, enabled: bool, count: nat, deny: bool, ipsec: bool) returns (rc: int)
    requires 512 <= len <= report.Length == |was| && |live| == count <= MAX_RULES
    requires deny == HasDefaultDeny(live) && ipsec == HasIpsec(live)
    requires off == |before| && report[..] == Written(was, len, before) && before == MiddleFindings(live, enabled)
    modifies report
    ensures var text := Report(live, enabled);
      && report[..] == Written(was, len, text)
      && rc == if |text| < len then FailedChecks(live, enabled) else -ENOSPC
  {
    hide Findings, MiddleFindings, HasDefaultDeny, HasIpsec, Report, Summary, Written, Full, When;
    FindingsLength(live, enabled);
    LastFinding(live, enabled);
    var crowded := count > MAX_RULES * 3 / 4;
    var offset := Finding(report, len, off, was, before, crowded, Full(count));
    var warnings := (if !enabled then 1 else 0) + (if count == 0 then 1 else 0) + (if !deny then 1 else 0)
      + (if !ipsec then 1 else 0) + (if crowded then 1 else 0);
    ReportParts(live, enabled);
    var written := Print(report, len, offset, was, Findings(live, enabled), Summary(warnings));
    if offset + written >= len {
      return -ENOSPC;
    }
    return warnings;
  }

  lemma LastFinding(rules: seq<Rule>, enabled: bool)
    ensures Findings(rules, enabled) == MiddleFindings(rules, enabled) + When(Crowded(rules), Full(|rules|))
  {
    hide MiddleFindings, Full, When;
  }
}
