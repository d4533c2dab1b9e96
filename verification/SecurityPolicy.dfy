/** The security policy in its own form: a fixed table that is changed in place, the script
    writer and the audit, each proved against SecurityModel. */
module SecurityPolicy {
  import opened CStrings
  import opened BoundedWriter
  import opened SecurityModel
  import opened SecurityReadBack
  import opened SecuritySize

  // ---------------------------------------------------------------- runs of table calls

  lemma DoBounds(rules: seq<Rule>, op: Op)
    requires |rules| <= MAX_RULES && forall r | r in rules :: r.active
    ensures |Do(rules, op).0| <= MAX_RULES && forall r | r in Do(rules, op).0 :: r.active
  {
  }

  /** Over every run: the table never overflows, and every live rule is active. */
  lemma {:induction false} RunBounds(ops: seq<Op>)
    ensures |DoAll([], ops)| <= 64 && forall r | r in DoAll([], ops) :: r.active
  {
    hide Do;
    if ops != [] {
      RunBounds(ops[..|ops| - 1]);
      DoBounds(DoAll([], ops[..|ops| - 1]), ops[|ops| - 1]);
    }
  }

  /** Over every run: the live rules are some of the rules offered to add calls, in the
      order of those calls. */
  lemma {:induction false} RunKeepsOrder(ops: seq<Op>) returns (pick: seq<nat>)
    ensures Picks(DoAll([], ops), Offered(ops), pick)
  {
    pick := [];
    if ops != [] {
      var n := |ops| - 1;
      pick := RunKeepsOrder(ops[..n]);
      var rules, from := DoAll([], ops[..n]), Offered(ops[..n]);
      match ops[n]
      case Init | Flush => pick := [];
      case Add(r) => if |rules| < MAX_RULES { pick := pick + [|from|]; }
      case Remove(i) =>
        if 0 <= i < |rules| {
          PicksWithout(rules, from, pick, i);
          pick := pick[..i] + pick[i + 1..];
        }
    }
  }

  lemma PicksWithout(s: seq<Rule>, from: seq<Rule>, pick: seq<nat>, i: nat)
    requires Picks(s, from, pick) && i < |s|
    ensures Picks(s[..i] + s[i + 1..], from, pick[..i] + pick[i + 1..])
  {
    var t, p := s[..i] + s[i + 1..], pick[..i] + pick[i + 1..];
    assert forall k | 0 <= k < |t| :: t[k] == s[if k < i then k else k + 1] && p[k] == pick[if k < i then k else k + 1];
  }

  /** `now` is `was` without the rule at `i`: the rules before it stay, those behind it move
      one place down. */
  predicate Without(was: seq<Rule>, now: seq<Rule>, i: int) {
    && 0 <= i < |was| == |now| + 1
    && (forall k | 0 <= k < i :: now[k] == was[k])
    && (forall k | i <= k < |now| :: now[k] == was[k + 1])
  }

  /** What each call does to the list of rules, and what it returns. */
  lemma CallEffects(rules: seq<Rule>, r: Rule, i: int)
    ensures |rules| < 64 ==> Do(rules, Add(r)) == (rules + [r.(active := true)], 0)
    ensures |rules| >= 64 ==> Do(rules, Add(r)) == (rules, -28)
    ensures 0 <= i < |rules| ==> Without(rules, Do(rules, Remove(i)).0, i) && Do(rules, Remove(i)).1 == 0
    ensures i < 0 || i >= |rules| ==> Do(rules, Remove(i)) == (rules, -34)
    ensures Do(rules, Flush) == ([], 0) && Do(rules, Init) == ([], 0)
  {
  }

  /** A rule that was just added can be removed again without a trace. */
  lemma AddThenRemove(rules: seq<Rule>, r: Rule)
    requires |rules| < MAX_RULES
    ensures Do(Do(rules, Add(r)).0, Remove(|rules|)) == (rules, 0)
  {
    var more := rules + [r.(active := true)];
    assert more[..|rules|] + more[|rules| + 1..] == rules;
  }

  // ---------------------------------------------------------------- printed lines as C strings

  lemma RuleLineString(r: Rule)
    ensures Free(RuleLine(r), {NUL})
  {
    hide Join, RuleWords;
    if r.active {
      WordShapes(r);
      JoinFree(RuleWords(r), ' ', NUL);
    }
  }

  lemma {:induction false} BlocksPrefix(rules: seq<Rule>, i: nat, n: nat)
    requires i <= n <= |rules|
    ensures BufferedBlocks(rules, i) <= BufferedBlocks(rules, n)
  {
    hide LineInBuffer, Block;
    if i < n {
      BlocksPrefix(rules, i, n - 1);
    }
  }

  lemma ScriptPrefix(rules: seq<Rule>, i: nat)
    requires i <= |rules|
    ensures Header(|rules|) + BufferedBlocks(rules, i) <= BufferedScript(rules)
    ensures Header(|rules|) <= BufferedScript(rules)
  {
    hide Header, BufferedBlocks, Footer;
    BlocksPrefix(rules, i, |rules|);
  }

  class Policy {
    const rules: array<Rule>
    var count: nat
    var enabled: bool

    /** Slots behind the live ones are all-zero. */
    ghost predicate Valid()
      reads this, rules
    {
      && rules.Length == MAX_RULES && count <= MAX_RULES
      && forall i | count <= i < MAX_RULES :: rules[i] == ZERO_RULE
    }

    ghost function Live(): seq<Rule>
      requires Valid()
      reads this, rules
    {
      rules[..count]
    }

    /** A declared policy, initialised. */
    constructor ()
      ensures Valid() && Live() == [] && !enabled && fresh(rules)
    {
      rules := new Rule[MAX_RULES](_ => ZERO_RULE);
      count := 0;
      enabled := false;
    }

    method Init() returns (rc: int)
      requires rules.Length == MAX_RULES
      modifies this, rules
      ensures Valid() && rc == 0 && Live() == [] && !enabled
    {
      forall i | 0 <= i < rules.Length {
        rules[i] := ZERO_RULE;
      }
      enabled := false;
      count := 0;
      rc := 0;
    }

    method AddRule(rule: Rule) returns (rc: int)
      requires Valid()
      modifies `count, rules
      ensures Valid() && (Live(), rc) == Do(old(Live()), Add(rule))
      ensures |old(Live())| < 64 ==> rc == 0 && Live() == old(Live()) + [rule.(active := true)]
      ensures |old(Live())| == 64 ==> rc == -28 && Live() == old(Live())
    {
      if count >= MAX_RULES {
        return -ENOSPC;
      }
      rules[count] := rule;
      rules[count] := rules[count].(active := true);
      count := count + 1;
      assert Live() == old(Live()) + [rule.(active := true)];
      return 0;
    }

    /** Shifts the rules behind `index` down by one position. */
    method ShiftDown(index: nat)
      requires index < count <= rules.Length
      modifies rules
      ensures forall k | 0 <= k < index || count - 1 <= k < rules.Length :: rules[k] == old(rules[k])
      ensures forall k | index <= k < count - 1 :: rules[k] == old(rules[k + 1])
    {
      ghost var was := rules[..];
      var i := index;
      while i < count - 1
        invariant index <= i <= count - 1
        invariant forall k | 0 <= k < index :: rules[k] == was[k]
        invariant forall k | index <= k < i :: rules[k] == was[k + 1]
        invariant forall k | i <= k < rules.Length :: rules[k] == was[k]
      {
        rules[i] := rules[i + 1];
        i := i + 1;
      }
    }

    method RemoveRule(index: int) returns (rc: int)
      requires Valid()
      modifies `count, rules
      ensures Valid() && (Live(), rc) == Do(old(Live()), Remove(index))
      ensures 0 <= index < |old(Live())| ==> rc == 0 && Without(old(Live()), Live(), index)
      ensures !(0 <= index < |old(Live())|) ==> rc == -34 && Live() == old(Live())
    {
      if index < 0 || index >= count {
        return -ERANGE;
      }
      ghost var was := Live();
      ShiftDown(index);
      rules[count - 1] := ZERO_RULE;
      count := count - 1;
      Closed(was, Live(), index);
      return 0;
    }

    method FlushRules() returns (rc: int)
      requires Valid()
      modifies `count, rules
      ensures Valid() && (Live(), rc) == Do(old(Live()), Flush)
      ensures Live() == [] && rc == 0
    {
      forall i | 0 <= i < rules.Length {
        rules[i] := ZERO_RULE;
      }
      count := 0;
      rc := 0;
    }

    // -------------------------------------------------------------- the script

    /** generate_rule_line into a buffer of 256 bytes; negative when the line does not fit. */
    static method GenerateRuleLine(line: array<char>, r: Rule) returns (n: int)
      requires line.Length == RULE_LINE_SIZE
      modifies line
      ensures match LineInBuffer(r)
        case None => n == -1
        case Some(text) => n == |RuleLine(r)| && CStr(line[..]) == text
    {
      hide RuleLine;
      ghost var was := line[..];
      RuleLineString(r);
      assert line[..0] == [] && line[0..] == was;
      var written := SNPrintf(line, 0, line.Length, RuleLine(r));
      assert line[..] == Written(was, RULE_LINE_SIZE, RuleLine(r));
      WrittenString(was, RULE_LINE_SIZE, RuleLine(r));
      if !r.active {
        return written;
      }
      if written >= line.Length {
        return -1;
      }
      return written;
    }

    /** One round of the loop over the rules: prints the block of rule `i`, unless its line
        did not fit the line buffer. */
    method PrintRule(buf: array<char>, len: nat, off: nat, line: array<char>, i: nat,
                     ghost was: seq<char>, ghost text: string) returns (written: nat)
      requires Valid() && i < count && line.Length == RULE_LINE_SIZE && line != buf
      requires 0 < len <= buf.Length == |was| && off == |text| < len
      requires buf[..] == Written(was, len, text)
      requires text == Header(count) + BufferedBlocks(Live(), i)
      modifies buf, line
      ensures var more := Header(count) + BufferedBlocks(Live(), i + 1);
        off + written == |more| && buf[..] == Written(was, len, more)
    {
      hide Header, Block, LineInBuffer, Written, BufferedBlocks;
      BlocksStep(Live(), i);
      ghost var more := Header(count) + BufferedBlocks(Live(), i + 1);
      ghost var before := buf[..];
      var n := GenerateRuleLine(line, rules[i]);
      assert buf[..] == before;
      if n < 0 {
        assert more == text;
        return 0;
      }
      var block := Block(i, rules[i], CStr(line[..]));
      assert text + block == more;
      written := Print(buf, len, off, was, text, block);
    }

    /** The bounded writer refines the simple printer: the first `len` bytes hold as much of
        the script as fits and a NUL, nothing behind that NUL is touched, and the result
        says whether all of it fitted. */
    method GenerateScript(buf: array<char>, len: nat) returns (rc: int)
      requires Valid() && len <= buf.Length
      modifies buf
      ensures len == 0 ==> rc == -22 && buf[..] == old(buf[..])
      ensures len > 0 ==> buf[..] == Written(old(buf[..]), len, Script(Live()))
      ensures len > 0 ==> rc == if |Script(Live())| < len then 0 else -28
    {
      hide Header, Footer, Block, LineInBuffer, Written, Script, RuleLine, BufferedBlocks, BufferedScript;
      if len == 0 {
        return -EINVAL;
      }
      ghost var live := Live();
      ghost var was := buf[..];
      ghost var full := Script(live);
      BufferedIsSimple(live);
      ghost var text := Header(count);
      ScriptPrefix(live, 0);
      assert buf[..0] == [] && buf[0..] == was;
      var written := SNPrintf(buf, 0, len, Header(count));
      if written >= len {
        FullAlready(was, len, text, full);
        return -ENOSPC;
      }
      var offset := written;
      var line := new char[RULE_LINE_SIZE];
      var i := 0;
      NoBlocks(live);
      assert text + "" == text;
      while i < count
        invariant 0 <= i <= count && live == Live()
        invariant text == Header(count) + BufferedBlocks(live, i)
        invariant offset == |text| < len
        invariant buf[..] == Written(was, len, text)
      {
        written := PrintRule(buf, len, offset, line, i, was, text);
        text := Header(count) + BufferedBlocks(live, i + 1);
        if offset + written >= len {
          ScriptPrefix(live, i + 1);
          FullAlready(was, len, text, full);
          return -ENOSPC;
        }
        offset := offset + written;
        i := i + 1;
      }
      written := Print(buf, len, offset, was, text, Footer(count));
      ScriptWhole(live);
      if offset + written >= len {
        return -ENOSPC;
      }
      return 0;
    }

    /** sec_policy_apply; `exitCode` is what running the script returns. */
    method Apply(exitCode: int) returns (rc: int)
      requires Valid()
      ensures rc == if ScriptSize(Live()) >= 4096 then -28 else if exitCode != 0 then -5 else 0
      ensures count <= 23 && exitCode == 0 ==> rc == 0
    {
      hide Script, ScriptSize;
      ScriptLength(Live());
      if count <= 23 { TwentyThreeRulesFit(Live()); }
      var script := new char[SCRIPT_SIZE];
      rc := GenerateScript(script, SCRIPT_SIZE);
      if rc < 0 {
        return rc;
      }
      if exitCode != 0 {
        return -EIO;
      }
      return 0;
    }
  }

  lemma Closed(was: seq<Rule>, now: seq<Rule>, i: nat)
    requires Without(was, now, i)
    ensures now == was[..i] + was[i + 1..]
  {
  }

  lemma NoBlocks(rules: seq<Rule>)
    ensures BufferedBlocks(rules, 0) == ""
  {
  }

  lemma ScriptWhole(rules: seq<Rule>)
    ensures BufferedScript(rules) == Header(|rules|) + BufferedBlocks(rules, |rules|) + Footer(|rules|)
  {
    hide Header, Footer, BufferedBlocks;
  }

  lemma BlocksStep(rules: seq<Rule>, i: nat)
    requires i < |rules|
    ensures BufferedBlocks(rules, i + 1) == BufferedBlocks(rules, i) +
      match LineInBuffer(rules[i])
      case None => ""
      case Some(line) => Block(i, rules[i], line)
  {
    hide LineInBuffer, Block;
  }
}
