/** The blocks and listings that the unit tests of the manager expect,
    written out line by line with the wrap name `wn` left open, and lemmas
    that the model produces exactly them. */
module Fixtures {
  import opened Wrappers
  import opened ChainNaming
  import opened TableSpec
  import opened Render
  import opened Lines
  import opened TrafficCounters
  import opened IptablesManager

  const FilterHead: seq<string> := ["# Generated by iptables_manager", "*filter", ":neutron-filter-top - [0:0]"]
  const NatHead: seq<string> := ["# Generated by iptables_manager", "*nat", ":neutron-postrouting-bottom - [0:0]"]
  const Tail: seq<string> := ["COMMIT", "# Completed by iptables_manager"]

  /** A block is assembled from its sections. */
  lemma BlockIs(table: string, s: TableState, uo: seq<string>, wo: seq<string>,
                head: seq<string>, decls: seq<string>, rules: seq<string>)
    requires [GeneratedLine, "*" + table] + UnwrappedDecls(uo) == head
    requires WrappedDecls(s.wrapName, wo) == decls
    requires RuleLines(s.wrapName, OrderedRules(s.rules)) == rules
    ensures RenderTable(table, s, uo, wo) == head + decls + rules + Tail
  {
    assert [CommitLine, CompletedLine] == Tail;
    Flatten([GeneratedLine, "*" + table], UnwrappedDecls(uo), decls, rules, Tail);
  }

  lemma Flatten<T>(h: seq<T>, u: seq<T>, w: seq<T>, r: seq<T>, t: seq<T>)
    ensures h + (u + w) + (r + t) == h + u + w + r + t
  {
    assert h + (u + w) == h + u + w;
  }

  lemma Regroup(a: seq<string>, b: seq<string>, c: seq<string>, d: seq<string>, e: seq<string>)
    ensures a + b + (c + d) + e == a + b + c + d + e
  {
  }

  lemma FilterHeadText()
    ensures [GeneratedLine, "*" + "filter"] + UnwrappedDecls([FilterTopChain]) == FilterHead
  {
    assert UnwrappedDecls([FilterTopChain]) == [Decl(FilterTopChain)];
    assert Decl(FilterTopChain) == ":neutron-filter-top - [0:0]";
    assert "*" + "filter" == "*filter";
  }

  lemma NatHeadText()
    ensures [GeneratedLine, "*" + "nat"] + UnwrappedDecls([PostroutingBottomChain]) == NatHead
  {
    assert UnwrappedDecls([PostroutingBottomChain]) == [Decl(PostroutingBottomChain)];
    assert Decl(PostroutingBottomChain) == ":neutron-postrouting-bottom - [0:0]";
    assert "*" + "nat" == "*nat";
  }

  // ---------------------------------------------------------------------
  // One rendered line at a time, for any wrap name.

  lemma WrappedDeclIs(wn: string, c: string, rest: string)
    requires rest == "-" + c + " - [0:0]"
    ensures Decl(WrappedChainName(wn, c)) == ":" + wn + rest
  {
  }

  lemma JumpLineIs(wn: string, parent: string, c: string, top: bool, lead: string, rest: string)
    requires lead == "[0:0] -A " + parent + " -j " && rest == "-" + c
    ensures RuleLine(wn, Rule(parent, "-j " + WrappedChainName(wn, c), false, top)) == lead + wn + rest
  {
  }

  lemma WrappedRuleIs(wn: string, chain: string, body: string, top: bool, rest: string)
    requires rest == "-" + chain + " " + body
    ensures RuleLine(wn, Rule(chain, body, true, top)) == "[0:0] -A " + wn + rest
  {
  }

  lemma WrappedRuleBodyIs(wn: string, chain: string, body: string, top: bool, mid: string)
    requires mid == "-" + chain + " "
    ensures RuleLine(wn, Rule(chain, body, true, top)) == "[0:0] -A " + wn + mid + body
  {
  }

  lemma WrappedRuleNamingIs(wn: string, chain: string, body: string, top: bool, b1: string, b2: string, mid: string)
    requires body == b1 + wn + b2 && mid == "-" + chain + " " + b1
    ensures RuleLine(wn, Rule(chain, body, true, top)) == "[0:0] -A " + wn + mid + wn + b2
  {
  }

  // ---------------------------------------------------------------------
  // The `filter` blocks.

  const FilterWrappedOrder: seq<string> := ["FORWARD", "INPUT", "local", "OUTPUT"]
  const FilterModWrappedOrder: seq<string> := ["FORWARD", "INPUT", "local", "filter", "OUTPUT"]

  function FilterDecls(wn: string): seq<string> {
    [ ":" + wn + "-FORWARD - [0:0]",
      ":" + wn + "-INPUT - [0:0]",
      ":" + wn + "-local - [0:0]",
      ":" + wn + "-OUTPUT - [0:0]" ]
  }

  function FilterModDecls(wn: string): seq<string> {
    [ ":" + wn + "-FORWARD - [0:0]",
      ":" + wn + "-INPUT - [0:0]",
      ":" + wn + "-local - [0:0]",
      ":" + wn + "-filter - [0:0]",
      ":" + wn + "-OUTPUT - [0:0]" ]
  }

  function FilterRules(wn: string): seq<string> {
    [ "[0:0] -A FORWARD -j neutron-filter-top",
      "[0:0] -A OUTPUT -j neutron-filter-top",
      "[0:0] -A neutron-filter-top -j " + wn + "-local",
      "[0:0] -A INPUT -j " + wn + "-INPUT",
      "[0:0] -A OUTPUT -j " + wn + "-OUTPUT",
      "[0:0] -A FORWARD -j " + wn + "-FORWARD" ]
  }

  /** FILTER_DUMP: the `filter` block of a fresh manager. */
  function FilterDump(wn: string): seq<string> {
    FilterHead + FilterDecls(wn) + FilterRules(wn) + Tail
  }

  /** The `filter` block once the wrapped chain `filter` is declared and
      holds no rule. */
  function FilterChainDump(wn: string): seq<string> {
    FilterHead + FilterModDecls(wn) + FilterRules(wn) + Tail
  }

  /** The block test_empty_chain_custom_binary_name expects after a rule
      is added to the `filter` chain. */
  function FilterAddressDump(wn: string): seq<string> {
    FilterHead + FilterModDecls(wn) + FilterRules(wn)
    + ["[0:0] -A " + wn + "-filter -s 0/0 -d 192.168.0.2"]
    + Tail
  }

  /** The block test_add_filter_rule expects after its two rules. */
  function FilterDropDump(wn: string): seq<string> {
    FilterHead + FilterModDecls(wn) + FilterRules(wn)
    + [ "[0:0] -A " + wn + "-filter -j DROP",
        "[0:0] -A " + wn + "-INPUT -s 0/0 -d 192.168.0.2 -j " + wn + "-filter" ]
    + Tail
  }

  lemma FilterDeclsRendered(wn: string)
    ensures WrappedDecls(wn, FilterWrappedOrder) == FilterDecls(wn)
  {
    WrappedDeclIs(wn, "FORWARD", "-FORWARD - [0:0]");
    WrappedDeclIs(wn, "INPUT", "-INPUT - [0:0]");
    WrappedDeclIs(wn, "local", "-local - [0:0]");
    WrappedDeclIs(wn, "OUTPUT", "-OUTPUT - [0:0]");
    assert WrappedDecls(wn, FilterWrappedOrder) ==
      [ Decl(WrappedChainName(wn, "FORWARD")), Decl(WrappedChainName(wn, "INPUT")),
        Decl(WrappedChainName(wn, "local")), Decl(WrappedChainName(wn, "OUTPUT")) ];
  }

  lemma FilterModDeclsRendered(wn: string)
    ensures WrappedDecls(wn, FilterModWrappedOrder) == FilterModDecls(wn)
  {
    WrappedDeclIs(wn, "FORWARD", "-FORWARD - [0:0]");
    WrappedDeclIs(wn, "INPUT", "-INPUT - [0:0]");
    WrappedDeclIs(wn, "local", "-local - [0:0]");
    WrappedDeclIs(wn, "filter", "-filter - [0:0]");
    WrappedDeclIs(wn, "OUTPUT", "-OUTPUT - [0:0]");
    assert WrappedDecls(wn, FilterModWrappedOrder) ==
      [ Decl(WrappedChainName(wn, "FORWARD")), Decl(WrappedChainName(wn, "INPUT")),
        Decl(WrappedChainName(wn, "local")), Decl(WrappedChainName(wn, "filter")),
        Decl(WrappedChainName(wn, "OUTPUT")) ];
  }

  /** Rule lines of unwrapped rules with constant text. */
  lemma PlainRuleIs(wn: string, chain: string, body: string, top: bool, line: string)
    requires line == "[0:0] -A " + chain + " " + body
    ensures RuleLine(wn, Rule(chain, body, false, top)) == line
  {
  }

  lemma ForwardTopText()
    ensures "[0:0] -A FORWARD -j neutron-filter-top" == "[0:0] -A " + "FORWARD" + " " + ("-j " + FilterTopChain)
  {
  }

  lemma OutputTopText()
    ensures "[0:0] -A OUTPUT -j neutron-filter-top" == "[0:0] -A " + "OUTPUT" + " " + ("-j " + FilterTopChain)
  {
  }

  lemma FilterJumpLines(wn: string)
    ensures var rs := DefaultFilter(wn).rules;
            && RuleLine(wn, rs[0]) == "[0:0] -A FORWARD -j neutron-filter-top"
            && RuleLine(wn, rs[1]) == "[0:0] -A OUTPUT -j neutron-filter-top"
            && RuleLine(wn, rs[2]) == "[0:0] -A neutron-filter-top -j " + wn + "-local"
  {
    ForwardTopText();
    OutputTopText();
    PlainRuleIs(wn, "FORWARD", "-j " + FilterTopChain, true, "[0:0] -A FORWARD -j neutron-filter-top");
    PlainRuleIs(wn, "OUTPUT", "-j " + FilterTopChain, true, "[0:0] -A OUTPUT -j neutron-filter-top");
    JumpLineIs(wn, FilterTopChain, "local", false, "[0:0] -A neutron-filter-top -j ", "-local");
  }

  lemma FilterBuiltinLines(wn: string)
    ensures var rs := DefaultFilter(wn).rules;
            && RuleLine(wn, rs[3]) == "[0:0] -A INPUT -j " + wn + "-INPUT"
            && RuleLine(wn, rs[4]) == "[0:0] -A OUTPUT -j " + wn + "-OUTPUT"
            && RuleLine(wn, rs[5]) == "[0:0] -A FORWARD -j " + wn + "-FORWARD"
  {
    JumpLineIs(wn, "INPUT", "INPUT", false, "[0:0] -A INPUT -j ", "-INPUT");
    JumpLineIs(wn, "OUTPUT", "OUTPUT", false, "[0:0] -A OUTPUT -j ", "-OUTPUT");
    JumpLineIs(wn, "FORWARD", "FORWARD", false, "[0:0] -A FORWARD -j ", "-FORWARD");
  }

  lemma FilterRulesRendered(wn: string)
    ensures RuleLines(wn, DefaultFilter(wn).rules) == FilterRules(wn)
  {
    var rs := DefaultFilter(wn).rules;
    FilterJumpLines(wn);
    FilterBuiltinLines(wn);
    assert RuleLines(wn, rs) ==
      [ RuleLine(wn, rs[0]), RuleLine(wn, rs[1]), RuleLine(wn, rs[2]),
        RuleLine(wn, rs[3]), RuleLine(wn, rs[4]), RuleLine(wn, rs[5]) ];
  }

  /** The default `filter` rules are already top-first, and so are they
      with more bottom rules after them. */
  lemma FilterRulesOrdered(wn: string, extra: seq<Rule>)
    requires forall r :: r in extra ==> !r.top
    ensures OrderedRules(DefaultFilter(wn).rules + extra) == DefaultFilter(wn).rules + extra
  {
    var rs := DefaultFilter(wn).rules;
    assert rs + extra == rs[..2] + (rs[2..] + extra);
    TopThenBottomKept(rs[..2], rs[2..] + extra);
  }

  lemma FilterDumpRendered(wn: string)
    ensures RenderTable("filter", DefaultFilter(wn), [FilterTopChain], FilterWrappedOrder) == FilterDump(wn)
  {
    var d := DefaultFilter(wn);
    FilterHeadText();
    FilterDeclsRendered(wn);
    FilterRulesRendered(wn);
    FilterRulesOrdered(wn, []);
    assert d.rules + [] == d.rules;
    BlockIs("filter", d, [FilterTopChain], FilterWrappedOrder, FilterHead, FilterDecls(wn), FilterRules(wn));
  }

  lemma FilterChainDumpRendered(wn: string, s: TableState)
    requires s == DefaultFilter(wn).(chains := DefaultFilter(wn).chains + {"filter"})
    ensures RenderTable("filter", s, [FilterTopChain], FilterModWrappedOrder) == FilterChainDump(wn)
  {
    FilterHeadText();
    FilterModDeclsRendered(wn);
    FilterRulesRendered(wn);
    FilterRulesOrdered(wn, []);
    assert s.rules + [] == s.rules;
    BlockIs("filter", s, [FilterTopChain], FilterModWrappedOrder, FilterHead, FilterModDecls(wn), FilterRules(wn));
  }

  lemma AddressText()
    ensures "-filter -s 0/0 -d 192.168.0.2" == "-" + "filter" + " " + "-s 0/0 -d 192.168.0.2"
  {
  }

  lemma FilterAddressDumpRendered(wn: string, s: TableState)
    requires s == DefaultFilter(wn).(chains := DefaultFilter(wn).chains + {"filter"},
                                     rules := DefaultFilter(wn).rules + [Rule("filter", "-s 0/0 -d 192.168.0.2", true, false)])
    ensures RenderTable("filter", s, [FilterTopChain], FilterModWrappedOrder) == FilterAddressDump(wn)
  {
    var extra := [Rule("filter", "-s 0/0 -d 192.168.0.2", true, false)];
    var line := "[0:0] -A " + wn + "-filter -s 0/0 -d 192.168.0.2";
    FilterHeadText();
    FilterModDeclsRendered(wn);
    FilterRulesRendered(wn);
    FilterRulesOrdered(wn, extra);
    RuleLinesAppend(wn, DefaultFilter(wn).rules, extra);
    AddressText();
    WrappedRuleIs(wn, "filter", "-s 0/0 -d 192.168.0.2", false, "-filter -s 0/0 -d 192.168.0.2");
    assert RuleLines(wn, extra) == [line];
    BlockIs("filter", s, [FilterTopChain], FilterModWrappedOrder, FilterHead, FilterModDecls(wn), FilterRules(wn) + [line]);
    Regroup(FilterHead, FilterModDecls(wn), FilterRules(wn), [line], Tail);
  }

  /** The two rules test_add_filter_rule adds. */
  function DropRules(wn: string): seq<Rule> {
    [ Rule("filter", "-j DROP", true, false),
      Rule("INPUT", "-s 0/0 -d 192.168.0.2 -j " + wn + "-filter", true, false) ]
  }

  lemma DropText()
    ensures "-filter -j DROP" == "-" + "filter" + " " + "-j DROP"
    ensures "-INPUT -s 0/0 -d 192.168.0.2 -j " == "-" + "INPUT" + " " + "-s 0/0 -d 192.168.0.2 -j "
  {
  }

  lemma DropRuleLines(wn: string)
    ensures RuleLines(wn, DropRules(wn)) ==
      [ "[0:0] -A " + wn + "-filter -j DROP",
        "[0:0] -A " + wn + "-INPUT -s 0/0 -d 192.168.0.2 -j " + wn + "-filter" ]
  {
    var rs := DropRules(wn);
    DropText();
    WrappedRuleIs(wn, "filter", "-j DROP", false, "-filter -j DROP");
    WrappedRuleNamingIs(wn, "INPUT", rs[1].body, false, "-s 0/0 -d 192.168.0.2 -j ", "-filter",
                        "-INPUT -s 0/0 -d 192.168.0.2 -j ");
    assert RuleLines(wn, rs) == [RuleLine(wn, rs[0]), RuleLine(wn, rs[1])];
  }

  lemma FilterDropDumpRendered(wn: string, s: TableState)
    requires s == DefaultFilter(wn).(chains := DefaultFilter(wn).chains + {"filter"},
                                     rules := DefaultFilter(wn).rules + DropRules(wn))
    ensures RenderTable("filter", s, [FilterTopChain], FilterModWrappedOrder) == FilterDropDump(wn)
  {
    var extra := DropRules(wn);
    var lines := [ "[0:0] -A " + wn + "-filter -j DROP",
                   "[0:0] -A " + wn + "-INPUT -s 0/0 -d 192.168.0.2 -j " + wn + "-filter" ];
    FilterHeadText();
    FilterModDeclsRendered(wn);
    FilterRulesRendered(wn);
    FilterRulesOrdered(wn, extra);
    RuleLinesAppend(wn, DefaultFilter(wn).rules, extra);
    DropRuleLines(wn);
    BlockIs("filter", s, [FilterTopChain], FilterModWrappedOrder, FilterHead, FilterModDecls(wn), FilterRules(wn) + lines);
    Regroup(FilterHead, FilterModDecls(wn), FilterRules(wn), lines, Tail);
  }

  // ---------------------------------------------------------------------
  // The `nat` blocks.

  const NatWrappedOrder: seq<string> := ["OUTPUT", "snat", "PREROUTING", "float-snat", "POSTROUTING"]
  const NatOtherOrder: seq<string> := ["float-snat", "POSTROUTING", "PREROUTING", "OUTPUT", "snat"]
  const NatModWrappedOrder: seq<string> := ["float-snat", "POSTROUTING", "PREROUTING", "nat", "OUTPUT", "snat"]

  function NatDecls(wn: string): seq<string> {
    [ ":" + wn + "-OUTPUT - [0:0]",
      ":" + wn + "-snat - [0:0]",
      ":" + wn + "-PREROUTING - [0:0]",
      ":" + wn + "-float-snat - [0:0]",
      ":" + wn + "-POSTROUTING - [0:0]" ]
  }

  function NatOtherDecls(wn: string): seq<string> {
    [ ":" + wn + "-float-snat - [0:0]",
      ":" + wn + "-POSTROUTING - [0:0]",
      ":" + wn + "-PREROUTING - [0:0]",
      ":" + wn + "-OUTPUT - [0:0]",
      ":" + wn + "-snat - [0:0]" ]
  }

  function NatModDecls(wn: string): seq<string> {
    [ ":" + wn + "-float-snat - [0:0]",
      ":" + wn + "-POSTROUTING - [0:0]",
      ":" + wn + "-PREROUTING - [0:0]",
      ":" + wn + "-nat - [0:0]",
      ":" + wn + "-OUTPUT - [0:0]",
      ":" + wn + "-snat - [0:0]" ]
  }

  function NatRules(wn: string): seq<string> {
    [ "[0:0] -A PREROUTING -j " + wn + "-PREROUTING",
      "[0:0] -A OUTPUT -j " + wn + "-OUTPUT",
      "[0:0] -A POSTROUTING -j " + wn + "-POSTROUTING",
      "[0:0] -A POSTROUTING -j " + PostroutingBottomChain,
      "[0:0] -A neutron-postrouting-bottom -j " + wn + "-snat",
      "[0:0] -A " + wn + "-snat -j " + wn + "-float-snat" ]
  }

  /** NAT_DUMP: the `nat` block of a fresh manager. */
  function NatDump(wn: string): seq<string> {
    NatHead + NatDecls(wn) + NatRules(wn) + Tail
  }

  /** The same block with the wrapped chains in the order test_add_nat_rule
      expects. */
  function NatOtherDump(wn: string): seq<string> {
    NatHead + NatOtherDecls(wn) + NatRules(wn) + Tail
  }

  const RedirectBody := "-p tcp --dport 8080 -j REDIRECT --to-port 80"

  /** The two rules test_add_nat_rule adds. */
  function RedirectRules(wn: string): seq<Rule> {
    [ Rule("PREROUTING", "-d 192.168.0.3 -j " + wn + "-nat", true, false),
      Rule("nat", RedirectBody, true, false) ]
  }

  /** The `nat` block test_add_nat_rule expects after its two rules. */
  function NatRedirectDump(wn: string): seq<string> {
    NatHead + NatModDecls(wn) + NatRules(wn)
    + [ "[0:0] -A " + wn + "-PREROUTING -d 192.168.0.3 -j " + wn + "-nat",
        "[0:0] -A " + wn + "-nat " + RedirectBody ]
    + Tail
  }

  lemma NatDeclsRendered(wn: string)
    ensures WrappedDecls(wn, NatWrappedOrder) == NatDecls(wn)
  {
    NatDeclLines(wn);
    assert WrappedDecls(wn, NatWrappedOrder) ==
      [ Decl(WrappedChainName(wn, "OUTPUT")), Decl(WrappedChainName(wn, "snat")),
        Decl(WrappedChainName(wn, "PREROUTING")), Decl(WrappedChainName(wn, "float-snat")),
        Decl(WrappedChainName(wn, "POSTROUTING")) ];
  }

  lemma NatOtherDeclsRendered(wn: string)
    ensures WrappedDecls(wn, NatOtherOrder) == NatOtherDecls(wn)
  {
    NatDeclLines(wn);
    assert WrappedDecls(wn, NatOtherOrder) ==
      [ Decl(WrappedChainName(wn, "float-snat")), Decl(WrappedChainName(wn, "POSTROUTING")),
        Decl(WrappedChainName(wn, "PREROUTING")), Decl(WrappedChainName(wn, "OUTPUT")),
        Decl(WrappedChainName(wn, "snat")) ];
  }

  lemma NatModDeclsRendered(wn: string)
    ensures WrappedDecls(wn, NatModWrappedOrder) == NatModDecls(wn)
  {
    NatDeclLines(wn);
    WrappedDeclIs(wn, "nat", "-nat - [0:0]");
    assert WrappedDecls(wn, NatModWrappedOrder) ==
      [ Decl(WrappedChainName(wn, "float-snat")), Decl(WrappedChainName(wn, "POSTROUTING")),
        Decl(WrappedChainName(wn, "PREROUTING")), Decl(WrappedChainName(wn, "nat")),
        Decl(WrappedChainName(wn, "OUTPUT")), Decl(WrappedChainName(wn, "snat")) ];
  }

  lemma NatDeclLines(wn: string)
    ensures Decl(WrappedChainName(wn, "OUTPUT")) == ":" + wn + "-OUTPUT - [0:0]"
    ensures Decl(WrappedChainName(wn, "snat")) == ":" + wn + "-snat - [0:0]"
    ensures Decl(WrappedChainName(wn, "PREROUTING")) == ":" + wn + "-PREROUTING - [0:0]"
    ensures Decl(WrappedChainName(wn, "float-snat")) == ":" + wn + "-float-snat - [0:0]"
    ensures Decl(WrappedChainName(wn, "POSTROUTING")) == ":" + wn + "-POSTROUTING - [0:0]"
  {
    WrappedDeclIs(wn, "OUTPUT", "-OUTPUT - [0:0]");
    WrappedDeclIs(wn, "snat", "-snat - [0:0]");
    WrappedDeclIs(wn, "PREROUTING", "-PREROUTING - [0:0]");
    WrappedDeclIs(wn, "float-snat", "-float-snat - [0:0]");
    WrappedDeclIs(wn, "POSTROUTING", "-POSTROUTING - [0:0]");
  }

  lemma PostroutingText()
    ensures "[0:0] -A POSTROUTING -j " + PostroutingBottomChain == "[0:0] -A " + "POSTROUTING" + " " + ("-j " + PostroutingBottomChain)
  {
    assert "[0:0] -A POSTROUTING -j " == "[0:0] -A " + "POSTROUTING" + " " + "-j ";
  }

  lemma SnatText(wn: string)
    ensures "-j " + WrappedChainName(wn, "float-snat") == "-j " + wn + "-float-snat"
    ensures "-snat -j " == "-" + "snat" + " " + "-j "
  {
  }

  lemma NatJumpLines(wn: string)
    ensures var rs := DefaultNat(wn).rules;
            && RuleLine(wn, rs[0]) == "[0:0] -A PREROUTING -j " + wn + "-PREROUTING"
            && RuleLine(wn, rs[1]) == "[0:0] -A OUTPUT -j " + wn + "-OUTPUT"
            && RuleLine(wn, rs[2]) == "[0:0] -A POSTROUTING -j " + wn + "-POSTROUTING"
  {
    PreroutingJumpLine(wn);
    OutputJumpLine(wn);
    PostroutingJumpLine(wn);
  }

  lemma PreroutingJumpLine(wn: string)
    ensures RuleLine(wn, DefaultNat(wn).rules[0]) == "[0:0] -A PREROUTING -j " + wn + "-PREROUTING"
  {
    JumpLineIs(wn, "PREROUTING", "PREROUTING", false, "[0:0] -A PREROUTING -j ", "-PREROUTING");
  }

  lemma OutputJumpLine(wn: string)
    ensures RuleLine(wn, DefaultNat(wn).rules[1]) == "[0:0] -A OUTPUT -j " + wn + "-OUTPUT"
  {
    JumpLineIs(wn, "OUTPUT", "OUTPUT", false, "[0:0] -A OUTPUT -j ", "-OUTPUT");
  }

  lemma PostroutingJumpLine(wn: string)
    ensures RuleLine(wn, DefaultNat(wn).rules[2]) == "[0:0] -A POSTROUTING -j " + wn + "-POSTROUTING"
  {
    JumpLineIs(wn, "POSTROUTING", "POSTROUTING", false, "[0:0] -A POSTROUTING -j ", "-POSTROUTING");
  }

  lemma NatBottomLines(wn: string)
    ensures var rs := DefaultNat(wn).rules;
            && RuleLine(wn, rs[3]) == "[0:0] -A POSTROUTING -j " + PostroutingBottomChain
            && RuleLine(wn, rs[4]) == "[0:0] -A neutron-postrouting-bottom -j " + wn + "-snat"
  {
    PostroutingText();
    PlainRuleIs(wn, "POSTROUTING", "-j " + PostroutingBottomChain, false, "[0:0] -A POSTROUTING -j " + PostroutingBottomChain);
    JumpLineIs(wn, PostroutingBottomChain, "snat", false, "[0:0] -A neutron-postrouting-bottom -j ", "-snat");
  }

  lemma NatSnatLine(wn: string)
    ensures RuleLine(wn, DefaultNat(wn).rules[5]) == "[0:0] -A " + wn + "-snat -j " + wn + "-float-snat"
  {
    SnatText(wn);
    WrappedRuleNamingIs(wn, "snat", DefaultNat(wn).rules[5].body, false, "-j ", "-float-snat", "-snat -j ");
  }

  lemma NatRulesRendered(wn: string)
    ensures RuleLines(wn, DefaultNat(wn).rules) == NatRules(wn)
  {
    var rs := DefaultNat(wn).rules;
    NatJumpLines(wn);
    NatBottomLines(wn);
    NatSnatLine(wn);
    assert RuleLines(wn, rs) ==
      [ RuleLine(wn, rs[0]), RuleLine(wn, rs[1]), RuleLine(wn, rs[2]),
        RuleLine(wn, rs[3]), RuleLine(wn, rs[4]), RuleLine(wn, rs[5]) ];
  }

  /** The default `nat` rules and any rules appended to them are all bottom
      rules, rendered in the order they are in. */
  lemma NatRulesOrdered(wn: string, extra: seq<Rule>)
    requires forall r :: r in extra ==> !r.top
    ensures RuleLines(wn, OrderedRules(DefaultNat(wn).rules + extra)) == NatRules(wn) + RuleLines(wn, extra)
  {
    var rs := DefaultNat(wn).rules;
    NatRulesRendered(wn);
    TopThenBottomKept([], rs + extra);
    assert [] + (rs + extra) == rs + extra;
    RuleLinesAppend(wn, rs, extra);
  }

  lemma RedirectText()
    ensures "-PREROUTING -d 192.168.0.3 -j " == "-" + "PREROUTING" + " " + "-d 192.168.0.3 -j "
    ensures "-nat " == "-" + "nat" + " "
  {
  }

  lemma RedirectRuleLines(wn: string)
    ensures RuleLines(wn, RedirectRules(wn)) ==
      [ "[0:0] -A " + wn + "-PREROUTING -d 192.168.0.3 -j " + wn + "-nat",
        "[0:0] -A " + wn + "-nat " + RedirectBody ]
  {
    var rs := RedirectRules(wn);
    RedirectText();
    WrappedRuleNamingIs(wn, "PREROUTING", rs[0].body, false, "-d 192.168.0.3 -j ", "-nat", "-PREROUTING -d 192.168.0.3 -j ");
    WrappedRuleBodyIs(wn, "nat", RedirectBody, false, "-nat ");
    assert RuleLines(wn, rs) == [RuleLine(wn, rs[0]), RuleLine(wn, rs[1])];
  }

  lemma NatDumpRendered(wn: string)
    ensures RenderTable("nat", DefaultNat(wn), [PostroutingBottomChain], NatWrappedOrder) == NatDump(wn)
    ensures RenderTable("nat", DefaultNat(wn), [PostroutingBottomChain], NatOtherOrder) == NatOtherDump(wn)
  {
    var d := DefaultNat(wn);
    NatHeadText();
    NatDeclsRendered(wn);
    NatOtherDeclsRendered(wn);
    NatRulesOrdered(wn, []);
    assert d.rules + [] == d.rules;
    assert NatRules(wn) + RuleLines(wn, []) == NatRules(wn);
    BlockIs("nat", d, [PostroutingBottomChain], NatWrappedOrder, NatHead, NatDecls(wn), NatRules(wn));
    BlockIs("nat", d, [PostroutingBottomChain], NatOtherOrder, NatHead, NatOtherDecls(wn), NatRules(wn));
  }

  lemma NatRedirectDumpRendered(wn: string, s: TableState)
    requires s == DefaultNat(wn).(chains := DefaultNat(wn).chains + {"nat"},
                                  rules := DefaultNat(wn).rules + RedirectRules(wn))
    ensures RenderTable("nat", s, [PostroutingBottomChain], NatModWrappedOrder) == NatRedirectDump(wn)
  {
    var lines := [ "[0:0] -A " + wn + "-PREROUTING -d 192.168.0.3 -j " + wn + "-nat",
                   "[0:0] -A " + wn + "-nat " + RedirectBody ];
    NatHeadText();
    NatModDeclsRendered(wn);
    NatRulesOrdered(wn, RedirectRules(wn));
    RedirectRuleLines(wn);
    BlockIs("nat", s, [PostroutingBottomChain], NatModWrappedOrder, NatHead, NatModDecls(wn), NatRules(wn) + lines);
    Regroup(NatHead, NatModDecls(wn), NatRules(wn), lines, Tail);
  }

  // ---------------------------------------------------------------------
  // The orders are enumerations of the chain sets, so the fixtures are
  // blocks the manager may render.

  lemma FilterOrders(wn: string)
    ensures IsEnumeration([FilterTopChain], DefaultFilter(wn).unwrappedChains)
    ensures IsEnumeration(FilterWrappedOrder, DefaultFilter(wn).chains)
    ensures IsEnumeration(FilterModWrappedOrder, DefaultFilter(wn).chains + {"filter"})
  {
    assert DefaultFilter(wn).chains + {"filter"} == {"local", "INPUT", "OUTPUT", "FORWARD", "filter"};
  }

  lemma NatOrders(wn: string)
    ensures IsEnumeration([PostroutingBottomChain], DefaultNat(wn).unwrappedChains)
    ensures IsEnumeration(NatWrappedOrder, DefaultNat(wn).chains)
    ensures IsEnumeration(NatOtherOrder, DefaultNat(wn).chains)
    ensures IsEnumeration(NatModWrappedOrder, DefaultNat(wn).chains + {"nat"})
  {
    assert DefaultNat(wn).chains + {"nat"} == {"PREROUTING", "OUTPUT", "POSTROUTING", "snat", "float-snat", "nat"};
  }

  lemma FilterBlocks(wn: string)
    ensures IsBlock(FilterDump(wn), "filter", DefaultFilter(wn))
    ensures IsBlock(FilterChainDump(wn), "filter", AddChain(DefaultFilter(wn), "filter", true))
  {
    var d := DefaultFilter(wn);
    var s := AddChain(d, "filter", true);
    ShortNameKept("filter", true);
    FilterOrders(wn);
    FilterDumpRendered(wn);
    FilterChainDumpRendered(wn, s);
    assert RenderTable("filter", d, [FilterTopChain], FilterWrappedOrder) == FilterDump(wn);
    assert RenderTable("filter", s, [FilterTopChain], FilterModWrappedOrder) == FilterChainDump(wn);
  }

  lemma NatBlocks(wn: string)
    ensures IsBlock(NatDump(wn), "nat", DefaultNat(wn))
    ensures IsBlock(NatOtherDump(wn), "nat", DefaultNat(wn))
  {
    var d := DefaultNat(wn);
    NatOrders(wn);
    NatDumpRendered(wn);
    assert RenderTable("nat", d, [PostroutingBottomChain], NatWrappedOrder) == NatDump(wn);
    assert RenderTable("nat", d, [PostroutingBottomChain], NatOtherOrder) == NatOtherDump(wn);
  }

  // ---------------------------------------------------------------------
  // The unit tests' scenarios, on the table values.

  /** The default `filter` table with the wrapped chain `filter` declared
      and `extra` appended to its rules. */
  function FilterWith(wn: string, extra: seq<Rule>): TableState {
    DefaultFilter(wn).(chains := DefaultFilter(wn).chains + {"filter"}, rules := DefaultFilter(wn).rules + extra)
  }

  const AddressRule := Rule("filter", "-s 0/0 -d 192.168.0.2", true, false)

  /** No rule of the default `filter` table sits in a chain called `filter`. */
  lemma NoFilterRules(wn: string)
    ensures forall r :: r in DefaultFilter(wn).rules ==> r.chain != "filter"
    ensures "filter" !in DefaultFilter(wn).chains
  {
  }

  lemma FilterWithBlocks(wn: string)
    ensures IsBlock(FilterChainDump(wn), "filter", FilterWith(wn, []))
    ensures IsBlock(FilterAddressDump(wn), "filter", FilterWith(wn, [AddressRule]))
    ensures IsBlock(FilterDropDump(wn), "filter", FilterWith(wn, DropRules(wn)))
  {
    FilterOrders(wn);
    var s0, s1, s2 := FilterWith(wn, []), FilterWith(wn, [AddressRule]), FilterWith(wn, DropRules(wn));
    FilterChainDumpRendered(wn, s0);
    FilterAddressDumpRendered(wn, s1);
    FilterDropDumpRendered(wn, s2);
    assert RenderTable("filter", s0, [FilterTopChain], FilterModWrappedOrder) == FilterChainDump(wn);
    assert RenderTable("filter", s1, [FilterTopChain], FilterModWrappedOrder) == FilterAddressDump(wn);
    assert RenderTable("filter", s2, [FilterTopChain], FilterModWrappedOrder) == FilterDropDump(wn);
  }

  /** The payloads the filter tests expect: the default `nat` block, then
      the `filter` block of the table at that point. */
  lemma FilterPayloads(wn: string)
    ensures IsRestorePayload(Text(NatDump(wn)) + Text(FilterDump(wn)), Some(DefaultNat(wn)), DefaultFilter(wn))
    ensures IsRestorePayload(Text(NatDump(wn)) + Text(FilterChainDump(wn)), Some(DefaultNat(wn)), FilterWith(wn, []))
    ensures IsRestorePayload(Text(NatDump(wn)) + Text(FilterAddressDump(wn)), Some(DefaultNat(wn)), FilterWith(wn, [AddressRule]))
    ensures IsRestorePayload(Text(NatDump(wn)) + Text(FilterDropDump(wn)), Some(DefaultNat(wn)), FilterWith(wn, DropRules(wn)))
  {
    FilterBlocks(wn);
    FilterWithBlocks(wn);
    NatBlocks(wn);
    PayloadOfBlocks(NatDump(wn), FilterDump(wn), DefaultNat(wn), DefaultFilter(wn));
    PayloadOfBlocks(NatDump(wn), FilterChainDump(wn), DefaultNat(wn), FilterWith(wn, []));
    PayloadOfBlocks(NatDump(wn), FilterAddressDump(wn), DefaultNat(wn), FilterWith(wn, [AddressRule]));
    PayloadOfBlocks(NatDump(wn), FilterDropDump(wn), DefaultNat(wn), FilterWith(wn, DropRules(wn)));
  }

  /** Removing the chain `filter` together with rules that all sit in it
      gives back the default table. */
  lemma FilterChainRemoved(wn: string, extra: seq<Rule>)
    requires forall r :: r in extra ==> r.chain == "filter"
    ensures RemoveChain(FilterWith(wn, extra), "filter", true) == (DefaultFilter(wn), None)
  {
    ShortNameKept("filter", true);
    NoFilterRules(wn);
    RemoveChainUndoesAddChain(DefaultFilter(wn), FilterWith(wn, extra), "filter", extra);
  }

  /** test_add_and_remove_chain and test_add_and_remove_chain_custom_binary_name:
      declaring `filter` gives the table whose payload holds the new
      declaration; emptying the chain changes nothing, and removing it
      gives back the fresh table. */
  lemma ChainRoundTrip(wn: string)
    ensures AddChain(DefaultFilter(wn), "filter", true) == FilterWith(wn, [])
    ensures EmptyChain(FilterWith(wn, []), "filter", true) == FilterWith(wn, [])
    ensures RemoveChain(FilterWith(wn, []), "filter", true) == (DefaultFilter(wn), None)
  {
    var d := DefaultFilter(wn);
    ShortNameKept("filter", true);
    assert d.rules + [] == d.rules;
    NoFilterRules(wn);
    FilterKeepsAll(NotInOf("filter", true), d.rules);
    FilterChainRemoved(wn, []);
  }

  /** test_empty_chain_custom_binary_name: declaring `filter` and adding a
      rule to it gives the table whose payload holds both; removing the
      chain drops both. */
  lemma AddressRuleRoundTrip(wn: string)
    ensures var r := AddRule(FilterWith(wn, []), "filter", "-s 0/0 -d 192.168.0.2", true, false);
            && r == Success(FilterWith(wn, [AddressRule]))
            && RemoveChain(r.value, "filter", true) == (DefaultFilter(wn), None)
  {
    ShortNameKept("filter", true);
    assert DefaultFilter(wn).rules + [] + [AddressRule] == DefaultFilter(wn).rules + [AddressRule];
    FilterChainRemoved(wn, [AddressRule]);
  }

  /** test_add_filter_rule, adding: a DROP rule in `filter`, then a wrapped
      INPUT rule jumping to it. */
  lemma DropRulesAdded(wn: string)
    ensures var r1 := AddRule(FilterWith(wn, []), "filter", "-j DROP", true, false);
            && r1 == Success(FilterWith(wn, DropRules(wn)[..1]))
            && AddRule(r1.value, "INPUT", "-s 0/0 -d 192.168.0.2 -j " + wn + "-filter", true, false)
               == Success(FilterWith(wn, DropRules(wn)))
  {
    ShortNameKept("filter", true);
    ShortNameKept("INPUT", true);
    var d := DefaultFilter(wn);
    var rs := DropRules(wn);
    assert d.rules + [] + [rs[0]] == d.rules + rs[..1];
    assert d.rules + rs[..1] + [rs[1]] == d.rules + rs;
  }

  /** test_add_filter_rule, removing: each rule in turn, then the chain,
      gives back the fresh table without a warning. */
  lemma DropRulesRemoved(wn: string)
    ensures var (t1, w1) := RemoveRule(FilterWith(wn, DropRules(wn)), "filter", "-j DROP", true, false);
            && w1 == None && t1 == FilterWith(wn, DropRules(wn)[1..])
            && var (t2, w2) := RemoveRule(t1, "INPUT", "-s 0/0 -d 192.168.0.2 -j " + wn + "-filter", true, false);
            && w2 == None && t2 == FilterWith(wn, [])
            && RemoveChain(t2, "filter", true) == (DefaultFilter(wn), None)
  {
    DropRuleRemovedFirst(wn);
    InputRuleRemoved(wn);
    FilterChainRemoved(wn, []);
  }

  lemma DropRuleRemovedFirst(wn: string)
    ensures RemoveRule(FilterWith(wn, DropRules(wn)), "filter", "-j DROP", true, false)
         == (FilterWith(wn, DropRules(wn)[1..]), None)
  {
    var d := DefaultFilter(wn);
    var rs := DropRules(wn);
    ShortNameKept("filter", true);
    NoFilterRules(wn);
    assert rs == [rs[0]] + rs[1..];
    RemoveFirstTakesFirst(d.rules, rs[0], rs[1..]);
    assert rs[0] in d.rules + rs;
  }

  lemma InputRuleRemoved(wn: string)
    ensures RemoveRule(FilterWith(wn, DropRules(wn)[1..]), "INPUT", "-s 0/0 -d 192.168.0.2 -j " + wn + "-filter", true, false)
         == (FilterWith(wn, []), None)
  {
    var d := DefaultFilter(wn);
    var rs := DropRules(wn);
    ShortNameKept("INPUT", true);
    assert forall r :: r in d.rules ==> !r.wrap;
    RemoveFirstTakesFirst(d.rules, rs[1], []);
    assert [rs[1]] + [] == rs[1..];
    assert d.rules + [] == d.rules;
  }

  /** Removing the first of the rules appended after `base` when it does not
      occur in `base`. */
  lemma RemoveLast(base: seq<Rule>, r: Rule)
    requires r !in base
    ensures RemoveFirst(base + [r], r) == base
  {
    RemoveFirstSkipsPrefix(base, [r], r);
    assert base + [] == base;
  }

  /** `remove_chain` drops only the rules that sit in the chain.  A jump
      into it from another chain stays: removing `filter` while the INPUT
      jump to `<wn>-filter` is still there leaves that jump in a table that
      no longer declares its target. */
  lemma RemoveChainKeepsJumpsIn(wn: string)
    ensures var (t, w) := RemoveChain(FilterWith(wn, DropRules(wn)), "filter", true);
            && w == None
            && "filter" !in t.chains
            && DropRules(wn)[1] in t.rules
            && DropRules(wn)[1].body == "-s 0/0 -d 192.168.0.2 -j " + WrappedChainName(wn, "filter")
  {
    var rs := DropRules(wn);
    var s := FilterWith(wn, rs);
    ShortNameKept("filter", true);
    assert "filter" in s.chains;
    assert s.rules == DefaultFilter(wn).rules + rs;
    assert rs[1] in s.rules by {
      assert s.rules[|s.rules| - 1] == rs[1];
    }
    assert rs[1].chain != "filter" by {
      assert rs[1].chain == "INPUT";
      assert "INPUT"[0] != "filter"[0];
    }
  }

  /** The default `nat` table with the wrapped chain `nat` declared and
      `extra` appended to its rules. */
  function NatWith(wn: string, extra: seq<Rule>): TableState {
    DefaultNat(wn).(chains := DefaultNat(wn).chains + {"nat"}, rules := DefaultNat(wn).rules + extra)
  }

  lemma NatPayloads(wn: string)
    ensures IsRestorePayload(Text(NatRedirectDump(wn)) + Text(FilterDump(wn)), Some(NatWith(wn, RedirectRules(wn))), DefaultFilter(wn))
    ensures IsRestorePayload(Text(NatOtherDump(wn)) + Text(FilterDump(wn)), Some(DefaultNat(wn)), DefaultFilter(wn))
  {
    var t := NatWith(wn, RedirectRules(wn));
    NatOrders(wn);
    NatRedirectDumpRendered(wn, t);
    assert RenderTable("nat", t, [PostroutingBottomChain], NatModWrappedOrder) == NatRedirectDump(wn);
    NatBlocks(wn);
    FilterBlocks(wn);
    PayloadOfBlocks(NatRedirectDump(wn), FilterDump(wn), t, DefaultFilter(wn));
    PayloadOfBlocks(NatOtherDump(wn), FilterDump(wn), DefaultNat(wn), DefaultFilter(wn));
  }

  /** test_add_nat_rule, adding: the chain `nat`, a wrapped PREROUTING rule
      jumping to it, then the redirect rule in it. */
  lemma RedirectRulesAdded(wn: string)
    ensures AddChain(DefaultNat(wn), "nat", true) == NatWith(wn, [])
    ensures var r1 := AddRule(NatWith(wn, []), "PREROUTING", "-d 192.168.0.3 -j " + wn + "-nat", true, false);
            && r1 == Success(NatWith(wn, RedirectRules(wn)[..1]))
            && AddRule(r1.value, "nat", RedirectBody, true, false) == Success(NatWith(wn, RedirectRules(wn)))
  {
    ShortNameKept("nat", true);
    ShortNameKept("PREROUTING", true);
    var d := DefaultNat(wn);
    var rs := RedirectRules(wn);
    assert d.rules + [] == d.rules;
    assert d.rules + [] + [rs[0]] == d.rules + rs[..1];
    assert d.rules + rs[..1] + [rs[1]] == d.rules + rs;
  }

  /** No rule of the default `nat` table sits in a chain called `nat`. */
  lemma NoNatRules(wn: string)
    ensures forall r :: r in DefaultNat(wn).rules ==> r.chain != "nat" && (r.wrap ==> r.chain == "snat")
    ensures "nat" !in DefaultNat(wn).chains
  {
  }

  lemma RedirectRuleRemoved(wn: string)
    ensures RemoveRule(NatWith(wn, RedirectRules(wn)), "nat", RedirectBody, true, false)
         == (NatWith(wn, RedirectRules(wn)[..1]), None)
  {
    ShortNameKept("nat", true);
    RedirectRuleDropped(wn);
  }

  lemma RedirectRuleDropped(wn: string)
    ensures var rs := RedirectRules(wn);
            && rs[1] in NatWith(wn, rs).rules
            && RemoveFirst(NatWith(wn, rs).rules, rs[1]) == NatWith(wn, rs[..1]).rules
  {
    var d := DefaultNat(wn).rules;
    var rs := RedirectRules(wn);
    NoNatRules(wn);
    assert d + rs == (d + rs[..1]) + [rs[1]];
    RemoveLast(d + rs[..1], rs[1]);
  }

  lemma PreroutingRuleRemoved(wn: string)
    ensures RemoveRule(NatWith(wn, RedirectRules(wn)[..1]), "PREROUTING", "-d 192.168.0.3 -j " + wn + "-nat", true, false)
         == (NatWith(wn, []), None)
  {
    ShortNameKept("PREROUTING", true);
    PreroutingRuleDropped(wn);
  }

  lemma PreroutingRuleDropped(wn: string)
    ensures var rs := RedirectRules(wn);
            && rs[0] in NatWith(wn, rs[..1]).rules
            && RemoveFirst(NatWith(wn, rs[..1]).rules, rs[0]) == NatWith(wn, []).rules
  {
    var d := DefaultNat(wn).rules;
    var r := RedirectRules(wn)[0];
    PreroutingRuleNew(wn);
    assert RedirectRules(wn)[..1] == [r];
    RemoveLast(d, r);
    assert d + [] == d;
  }

  /** The PREROUTING rule of the redirect test is not a default rule. */
  lemma PreroutingRuleNew(wn: string)
    ensures RedirectRules(wn)[0] !in DefaultNat(wn).rules
  {
    NoNatRules(wn);
  }

  lemma NatChainRemoved(wn: string)
    ensures RemoveChain(NatWith(wn, []), "nat", true) == (DefaultNat(wn), None)
  {
    var d := DefaultNat(wn);
    ShortNameKept("nat", true);
    NoNatRules(wn);
    assert d.rules + [] == d.rules;
    RemoveChainUndoesAddChain(d, NatWith(wn, []), "nat", []);
  }

  /** test_add_nat_rule, removing: the redirect rule, the PREROUTING rule,
      then the chain, gives back the fresh `nat` table without a warning. */
  lemma RedirectRulesRemoved(wn: string)
    ensures var (t1, w1) := RemoveRule(NatWith(wn, RedirectRules(wn)), "nat", RedirectBody, true, false);
            && w1 == None && t1 == NatWith(wn, RedirectRules(wn)[..1])
            && var (t2, w2) := RemoveRule(t1, "PREROUTING", "-d 192.168.0.3 -j " + wn + "-nat", true, false);
            && w2 == None && t2 == NatWith(wn, [])
            && RemoveChain(t2, "nat", true) == (DefaultNat(wn), None)
  {
    RedirectRuleRemoved(wn);
    PreroutingRuleRemoved(wn);
    NatChainRemoved(wn);
  }

  // ---------------------------------------------------------------------
  // The error paths.

  /** test_add_rule_to_a_nonexistent_chain: `LookupError`, naming the chain. */
  lemma AddRuleToNonexistentChain(wn: string)
    ensures AddRule(DefaultFilter(wn), "nonexistent", "-j DROP", true, false) == Failure(UnknownChain("nonexistent"))
  {
    ShortNameKept("nonexistent", true);
  }

  /** test_remove_nonexistent_chain: a warning naming the chain, and no change. */
  lemma RemoveNonexistentChain(wn: string)
    ensures RemoveChain(DefaultFilter(wn), "nonexistent", true) == (DefaultFilter(wn), Some(ChainMissing("nonexistent")))
  {
    ShortNameKept("nonexistent", true);
  }

  /** test_remove_nonexistent_rule: a warning with the chain, rule, wrap and
      top of the call, and no change. */
  lemma RemoveNonexistentRule(wn: string)
    ensures RemoveRule(DefaultFilter(wn), "nonexistent", "-j DROP", true, false)
         == (DefaultFilter(wn), Some(RuleMissing("nonexistent", "-j DROP", true, false)))
  {
    ShortNameKept("nonexistent", true);
    assert forall r :: r in DefaultFilter(wn).rules ==> !r.wrap;
  }

  // ---------------------------------------------------------------------
  // Traffic counters.

  const CountersHeader := "Chain OUTPUT " + "(policy ACCEPT " + "400 packets, " + "65901 bytes)"
  const CountersColumns := "    pkts      bytes" + " target     prot" + " opt in     out" + "     source    " + "           destination" + "         "

  lemma HeadersOneLine()
    ensures '\n' !in CountersHeader && '\n' !in CountersColumns
  {
  }

  /** The columns of a listed rule after its two counts. */
  function RowTail(target: string): string {
    " " + target + "     all  --  *" + "      *       " + "0.0.0.0/0      " + "      0.0.0.0/0" + "           "
  }

  /** A listed rule that has matched 400 packets of 65901 bytes. */
  function CountersRow(target: string): string {
    "     " + "400" + "   " + "65901" + RowTail(target)
  }

  /** Each piece of a listed rule is free of line breaks. */
  lemma RowPiecesOneLine(target: string)
    requires '\n' !in target
    ensures '\n' !in RowTail(target)
    ensures '\n' !in CountersRow(target)
  {
  }

  /** The listing of `OUTPUT` the counter tests feed back for `filter`. */
  const CountersDump := Text([CountersHeader, CountersColumns] + [CountersRow("chain1"), CountersRow("chain2")])

  /** The command runner of the counter tests: the listing for `filter`,
      nothing for `nat`. */
  function CountersExecute(args: seq<string>): string {
    if |args| > 2 && args[2] == "nat" then "" else CountersDump
  }

  lemma CountersRowRead(target: string)
    requires '\n' !in target
    ensures '\n' !in CountersRow(target)
    ensures LineCounters(CountersRow(target)) == Some(Counters(400, 65901))
  {
    RowPiecesOneLine(target);
    DataLineCounters("     ", "400", "   ", "65901", RowTail(target));
    assert "4"[..0] == "" && "40"[..1] == "4" && "400"[..2] == "40";
    assert DigitsValue("400") == 400;
    assert "6"[..0] == "" && "65"[..1] == "6" && "659"[..2] == "65" && "6590"[..3] == "659" && "65901"[..4] == "6590";
    assert DigitsValue("65901") == 65901;
  }

  lemma TwoRowsTotal(a: string, b: string, c: Counters)
    requires LineCounters(a) == Some(c) && LineCounters(b) == Some(c)
    ensures RowsTotal([a, b]) == Add(c, c)
  {
    assert [a, b][0] == a && [a, b][1..] == [b];
    assert [b][0] == b && [b][1..] == [];
    assert RowsTotal([b]) == Add(c, NoTraffic);
  }

  /** Two listed rules each count 400 packets of 65901 bytes. */
  lemma CountersRowsTotal(t1: string, t2: string)
    requires '\n' !in t1 && '\n' !in t2
    ensures forall r :: r in [CountersRow(t1), CountersRow(t2)] ==> '\n' !in r && LineCounters(r).Some?
    ensures RowsTotal([CountersRow(t1), CountersRow(t2)]) == Counters(800, 131802)
  {
    CountersRowRead(t1);
    CountersRowRead(t2);
    TwoRowsTotal(CountersRow(t1), CountersRow(t2), Counters(400, 65901));
  }

  /** The listing adds up to the two rows' counts; the policy counts in the
      `Chain` header are not counted. */
  lemma CountersDumpTotals()
    ensures ListingTotals(CountersDump) == Counters(800, 131802)
  {
    HeadersOneLine();
    CountersRowsTotal("chain1", "chain2");
    ListingOfRows(CountersHeader, CountersColumns, [CountersRow("chain1"), CountersRow("chain2")]);
  }

  /** test_get_traffic_counters and test_get_traffic_counters_with_zero:
      `OUTPUT` is listed in IPv4 `filter`, IPv4 `nat` and IPv6 `filter`,
      with `-Z` appended when zeroing, and the totals add up to 1600
      packets and 263604 bytes. */
  lemma TrafficCountersOfOutput(wn: string, zero: bool)
    ensures TrafficCountersOf("OUTPUT", true, zero, DefaultFilter(wn), Some(DefaultNat(wn)), DefaultFilter(wn), CountersExecute)
         == Some(Counters(1600, 263604))
    ensures var z := if zero then ["-Z"] else [];
              ListingCalls(CounterTables(GetChainName("OUTPUT", true), true, DefaultFilter(wn), Some(DefaultNat(wn)), DefaultFilter(wn)), "OUTPUT", zero)
              == [["iptables", "-t", "filter", "-L", "OUTPUT", "-n", "-v", "-x"] + z,
                  ["iptables", "-t", "nat", "-L", "OUTPUT", "-n", "-v", "-x"] + z,
                  ["ip6tables", "-t", "filter", "-L", "OUTPUT", "-n", "-v", "-x"] + z]
  {
    ShortNameKept("OUTPUT", true);
    var ls := CounterTables("OUTPUT", true, DefaultFilter(wn), Some(DefaultNat(wn)), DefaultFilter(wn));
    assert ls == [Listing("iptables", "filter"), Listing("iptables", "nat"), Listing("ip6tables", "filter")];
    CountersDumpTotals();
    EmptyListing();
    var run := CountersExecute;
    assert run(ListingArgs(ls[0], "OUTPUT", zero)) == CountersDump;
    assert run(ListingArgs(ls[1], "OUTPUT", zero)) == "";
    assert run(ListingArgs(ls[2], "OUTPUT", zero)) == CountersDump;
    assert ls[..1][..0] == [];
    assert ls[..2][..1] == ls[..1];
    assert ls[..2] == ls[..|ls| - 1];
    assert SumListings(ls[..1], "OUTPUT", zero, run) == Counters(800, 131802);
    assert SumListings(ls[..2], "OUTPUT", zero, run) == Counters(800, 131802);
  }

  /** test_get_traffic_counters_chain_notexists: no managed table declares
      the wrapped chain `chain1`, so there are no counters. */
  lemma TrafficCountersOfUndeclared(wn: string, zero: bool)
    ensures TrafficCountersOf("chain1", true, zero, DefaultFilter(wn), Some(DefaultNat(wn)), DefaultFilter(wn), CountersExecute).None?
  {
    ShortNameKept("chain1", true);
  }
}
