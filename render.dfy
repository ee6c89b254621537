/** Rendering one table into the iptables-save/restore text block:
      # Generated by iptables_manager
      *<table>
      :<chain> - [0:0]          (unwrapped chains, then wrapped chains)
      [0:0] -A <chain> <body>   (top rules, then the others, each in added order)
      COMMIT
      # Completed by iptables_manager
    The chain sets have no order of their own (the source iterates Python
    sets), so rendering takes the order of each set as an argument, and
    the lemmas here say what does not depend on it. */
module Render {
  import opened ChainNaming
  import opened TableSpec

  const GeneratedLine := "# Generated by iptables_manager"
  const CompletedLine := "# Completed by iptables_manager"
  const CommitLine := "COMMIT"

  /** A chain declaration line with zero counters. */
  function Decl(chain: string): string {
    ":" + chain + " - [0:0]"
  }

  /** The chain a rule lands in, as the kernel sees it. */
  function RuleTarget(wrapName: string, r: Rule): string {
    if r.wrap then WrappedChainName(wrapName, r.chain) else r.chain
  }

  /** A rule line with zero counters. */
  function RuleLine(wrapName: string, r: Rule): string {
    "[0:0] -A " + RuleTarget(wrapName, r) + " " + r.body
  }

  function UnwrappedDecls(order: seq<string>): (lines: seq<string>)
    ensures |lines| == |order|
    ensures forall i :: 0 <= i < |order| ==> lines[i] == Decl(order[i])
  {
    if order == [] then [] else [Decl(order[0])] + UnwrappedDecls(order[1..])
  }

  function WrappedDecls(wrapName: string, order: seq<string>): (lines: seq<string>)
    ensures |lines| == |order|
    ensures forall i :: 0 <= i < |order| ==> lines[i] == Decl(WrappedChainName(wrapName, order[i]))
  {
    if order == [] then [] else [Decl(WrappedChainName(wrapName, order[0]))] + WrappedDecls(wrapName, order[1..])
  }

  function RuleLines(wrapName: string, rules: seq<Rule>): (lines: seq<string>)
    ensures |lines| == |rules|
    ensures forall i :: 0 <= i < |rules| ==> lines[i] == RuleLine(wrapName, rules[i])
  {
    if rules == [] then [] else [RuleLine(wrapName, rules[0])] + RuleLines(wrapName, rules[1..])
  }

  function IsTop(r: Rule): bool { r.top }
  function IsBottom(r: Rule): bool { !r.top }

  /** The rules in rendering order: those added with `top` first, the
      others after them, each group in the order it was added. */
  function OrderedRules(rules: seq<Rule>): seq<Rule> {
    Filter(IsTop, rules) + Filter(IsBottom, rules)
  }

  /** `order` lists the members of `s`, each once. */
  ghost predicate IsEnumeration(order: seq<string>, s: set<string>) {
    |order| == |s| && forall x :: x in order <==> x in s
  }

  /** The lines of a table block, for given orders of its chain sets: one
      line per declared chain and per rule between a two-line head and a
      two-line tail. */
  function RenderTable(table: string, s: TableState, unwrappedOrder: seq<string>, wrappedOrder: seq<string>)
    : (lines: seq<string>)
    ensures |lines| == 4 + |unwrappedOrder| + |wrappedOrder| + |s.rules|
    ensures lines[0] == GeneratedLine && lines[1] == "*" + table
    ensures lines[|lines| - 2] == CommitLine && lines[|lines| - 1] == CompletedLine
  {
    FilterPartition(s.rules);
    [GeneratedLine, "*" + table]
    + Declarations(s.wrapName, unwrappedOrder, wrappedOrder)
    + RulesAndCommit(s)
  }

  function Declarations(wrapName: string, unwrappedOrder: seq<string>, wrappedOrder: seq<string>): seq<string> {
    UnwrappedDecls(unwrappedOrder) + WrappedDecls(wrapName, wrappedOrder)
  }

  function RulesAndCommit(s: TableState): seq<string> {
    RuleLines(s.wrapName, OrderedRules(s.rules)) + [CommitLine, CompletedLine]
  }

  /** `lines` is the block of table `s` for some order of its chain sets. */
  ghost predicate IsBlock(lines: seq<string>, table: string, s: TableState) {
    exists uo: seq<string>, wo: seq<string> {:trigger RenderTable(table, s, uo, wo)} ::
      IsEnumeration(uo, s.unwrappedChains) && IsEnumeration(wo, s.chains)
      && lines == RenderTable(table, s, uo, wo)
  }

  /** Lists the members of a set in an order of the set's choosing, as
      iterating a Python set does. */
  method Enumerate(s: set<string>) returns (order: seq<string>)
    ensures IsEnumeration(order, s)
  {
    order := [];
    var rest := s;
    while rest != {}
      invariant rest <= s
      invariant |order| + |rest| == |s|
      invariant forall x :: x in order <==> x in s && x !in rest
      decreases |rest|
    {
      var x :| x in rest;
      order := order + [x];
      rest := rest - {x};
    }
  }

  // ---------------------------------------------------------------------
  // Properties of rendering.

  /** The positions of the sections of a block. */
  lemma BlockLayout(table: string, s: TableState, uo: seq<string>, wo: seq<string>)
    ensures var lines := RenderTable(table, s, uo, wo);
            var d := 2 + |uo| + |wo|;
            var n := |s.rules|;
            && |lines| == d + n + 2
            && lines[0] == GeneratedLine && lines[1] == "*" + table
            && (forall i :: 0 <= i < |uo| ==> lines[2 + i] == Decl(uo[i]))
            && (forall i :: 0 <= i < |wo| ==> lines[2 + |uo| + i] == Decl(WrappedChainName(s.wrapName, wo[i])))
            && lines[d..d + n] == RuleLines(s.wrapName, OrderedRules(s.rules))
            && lines[d + n] == CommitLine && lines[d + n + 1] == CompletedLine
  {
    FilterPartition(s.rules);
  }

  /** Rules already grouped top-first render in the order they are in. */
  lemma TopThenBottomKept(top: seq<Rule>, bottom: seq<Rule>)
    requires forall r :: r in top ==> r.top
    requires forall r :: r in bottom ==> !r.top
    ensures OrderedRules(top + bottom) == top + bottom
  {
    TopsOf(top, bottom);
    BottomsOf(top, bottom);
  }

  lemma TopsOf(top: seq<Rule>, bottom: seq<Rule>)
    requires forall r :: r in top ==> r.top
    requires forall r :: r in bottom ==> !r.top
    ensures Filter(IsTop, top + bottom) == top
  {
    FilterAppend(IsTop, top, bottom);
    FilterKeepsAll(IsTop, top);
    FilterDropsAll(IsTop, bottom);
    assert top + [] == top;
  }

  lemma BottomsOf(top: seq<Rule>, bottom: seq<Rule>)
    requires forall r :: r in top ==> r.top
    requires forall r :: r in bottom ==> !r.top
    ensures Filter(IsBottom, top + bottom) == bottom
  {
    FilterAppend(IsBottom, top, bottom);
    FilterDropsAll(IsBottom, top);
    FilterKeepsAll(IsBottom, bottom);
    assert [] + bottom == bottom;
  }

  /** Splitting the rules into top and bottom keeps every rule exactly once. */
  lemma {:induction false} FilterPartition(rules: seq<Rule>)
    ensures |OrderedRules(rules)| == |rules|
    ensures multiset(OrderedRules(rules)) == multiset(rules)
  {
    if rules != [] {
      FilterPartition(rules[1..]);
      assert rules == [rules[0]] + rules[1..];
      assert multiset(rules) == multiset{rules[0]} + multiset(rules[1..]);
    }
  }

  /** Every rule line names its chain by the rule's kernel name: a wrapped
      rule as `<binary name>-<chain>`, an unwrapped rule as the bare chain,
      and the lines follow the top-then-added order. */
  lemma RuleSection(wrapName: string, rules: seq<Rule>, i: nat)
    requires i < |rules|
    ensures |OrderedRules(rules)| == |rules|
    ensures var r := OrderedRules(rules)[i];
            && r in rules
            && RuleLines(wrapName, OrderedRules(rules))[i] ==
               "[0:0] -A " + (if r.wrap then wrapName + "-" + r.chain else r.chain) + " " + r.body
  {
    FilterPartition(rules);
    var o := OrderedRules(rules);
    assert o[i] in multiset(o);
  }

  /** Rules added without `top` follow the default rules in the order they
      were added: appending a bottom rule appends its line. */
  lemma AppendBottomRule(wrapName: string, rules: seq<Rule>, r: Rule)
    requires !r.top
    ensures RuleLines(wrapName, OrderedRules(rules + [r]))
         == RuleLines(wrapName, OrderedRules(rules)) + [RuleLine(wrapName, r)]
  {
    OrderedAppendBottom(rules, r);
    RuleLinesAppend(wrapName, OrderedRules(rules), [r]);
  }

  lemma OrderedAppendBottom(rules: seq<Rule>, r: Rule)
    requires !r.top
    ensures OrderedRules(rules + [r]) == OrderedRules(rules) + [r]
  {
    FilterAppend(IsTop, rules, [r]);
    FilterAppend(IsBottom, rules, [r]);
    assert Filter(IsTop, [r]) == [];
    assert Filter(IsBottom, [r]) == [r];
    assert Filter(IsTop, rules) + [] == Filter(IsTop, rules);
  }

  lemma RuleLinesAppend(wrapName: string, a: seq<Rule>, b: seq<Rule>)
    ensures RuleLines(wrapName, a + b) == RuleLines(wrapName, a) + RuleLines(wrapName, b)
  {
    var l := RuleLines(wrapName, a + b);
    var m := RuleLines(wrapName, a) + RuleLines(wrapName, b);
    assert |l| == |m|;
    forall i | 0 <= i < |l| ensures l[i] == m[i] {
      if i < |a| { assert (a + b)[i] == a[i]; } else { assert (a + b)[i] == b[i - |a|]; }
    }
  }

  /** Rendering does not depend on the order of the chain sets beyond the
      order of the declaration lines: two renderings of one table have the
      same length, agree on every line outside the declarations, and
      declare the same chains. */
  lemma RenderOrderIrrelevant(table: string, s: TableState,
                              uo1: seq<string>, wo1: seq<string>, uo2: seq<string>, wo2: seq<string>)
    requires IsEnumeration(uo1, s.unwrappedChains) && IsEnumeration(wo1, s.chains)
    requires IsEnumeration(uo2, s.unwrappedChains) && IsEnumeration(wo2, s.chains)
    ensures var a := RenderTable(table, s, uo1, wo1);
            var b := RenderTable(table, s, uo2, wo2);
            var d := 2 + |s.unwrappedChains| + |s.chains|;
            && |a| == |b| && d <= |a|
            && a[..2] == b[..2] && a[d..] == b[d..]
            && (forall l :: l in a[2..d] <==> l in b[2..d])
  {
    var a := RenderTable(table, s, uo1, wo1);
    var b := RenderTable(table, s, uo2, wo2);
    var d := 2 + |s.unwrappedChains| + |s.chains|;
    var da := Declarations(s.wrapName, uo1, wo1);
    var db := Declarations(s.wrapName, uo2, wo2);
    ConcatSlices([GeneratedLine, "*" + table], da, RulesAndCommit(s));
    ConcatSlices([GeneratedLine, "*" + table], db, RulesAndCommit(s));
    forall l ensures l in da ==> l in db {
      DeclsMatch(s, uo1, wo1, uo2, wo2, l);
    }
    forall l ensures l in db ==> l in da {
      DeclsMatch(s, uo2, wo2, uo1, wo1, l);
    }
  }

  lemma ConcatSlices<T>(a: seq<T>, b: seq<T>, c: seq<T>)
    ensures var abc := a + b + c;
            && abc[..|a|] == a
            && abc[|a|..|a| + |b|] == b
            && abc[|a| + |b|..] == c
  {
  }

  lemma DeclsMatch(s: TableState, uo1: seq<string>, wo1: seq<string>, uo2: seq<string>, wo2: seq<string>, l: string)
    requires IsEnumeration(uo1, s.unwrappedChains) && IsEnumeration(wo1, s.chains)
    requires IsEnumeration(uo2, s.unwrappedChains) && IsEnumeration(wo2, s.chains)
    ensures l in UnwrappedDecls(uo1) + WrappedDecls(s.wrapName, wo1)
        ==> l in UnwrappedDecls(uo2) + WrappedDecls(s.wrapName, wo2)
  {
    var a := UnwrappedDecls(uo1) + WrappedDecls(s.wrapName, wo1);
    var b := UnwrappedDecls(uo2) + WrappedDecls(s.wrapName, wo2);
    if l in a {
      var i :| 0 <= i < |a| && a[i] == l;
      if i < |uo1| {
        assert a[i] == Decl(uo1[i]);
        assert uo1[i] in uo1;
        var j :| 0 <= j < |uo2| && uo2[j] == uo1[i];
        assert b[j] == l;
      } else {
        var k := i - |uo1|;
        assert a[i] == WrappedDecls(s.wrapName, wo1)[k];
        assert wo1[k] in wo1;
        var j :| 0 <= j < |wo2| && wo2[j] == wo1[k];
        assert b[|uo2| + j] == l;
      }
    }
  }

  /** In a well-formed table every chain name the block uses fits the
      kernel's limit of 28 characters. */
  lemma RenderedNamesFit(s: TableState, uo: seq<string>, wo: seq<string>)
    requires Wellformed(s)
    requires IsEnumeration(uo, s.unwrappedChains) && IsEnumeration(wo, s.chains)
    ensures forall c :: c in uo ==> |c| <= MaxChainLen
    ensures forall c :: c in wo ==> |WrappedChainName(s.wrapName, c)| <= MaxChainLen
    ensures forall r :: r in s.rules ==> |RuleTarget(s.wrapName, r)| <= MaxChainLen
  {
  }

  /** Every wrapped rule of a well-formed table jumps into a chain that the
      block declares. */
  lemma WrappedRulesDeclared(table: string, s: TableState, uo: seq<string>, wo: seq<string>, r: Rule)
    requires Wellformed(s)
    requires IsEnumeration(uo, s.unwrappedChains) && IsEnumeration(wo, s.chains)
    requires r in s.rules && r.wrap
    ensures Decl(RuleTarget(s.wrapName, r)) in RenderTable(table, s, uo, wo)
  {
    var j :| 0 <= j < |wo| && wo[j] == r.chain;
    BlockLayout(table, s, uo, wo);
    assert RenderTable(table, s, uo, wo)[2 + |uo| + j] == Decl(RuleTarget(s.wrapName, r));
  }
}
