/** The per-table rule model as values: what one filtering table (`filter`
    or `nat`) holds, and what each mutation of the table does to it.  The
    class `IptablesTable.Table` is specified by these functions. */
module TableSpec {
  import opened Wrappers
  import opened ChainNaming

  /** One declared rule.  `chain` is already cut by `GetChainName`; `body`
      is the opaque rule text after `-A <chain>`.  Two rules are the same
      rule when all four fields agree. */
  datatype Rule = Rule(chain: string, body: string, wrap: bool, top: bool)

  /** The desired contents of one table: the binary-name prefix of its
      wrapped chains, the wrapped chains, the unwrapped chains, and the
      rules in the order they were added. */
  datatype TableState = TableState(
    wrapName: string,
    chains: set<string>,
    unwrappedChains: set<string>,
    rules: seq<Rule>)

  /** The warning a removal of something absent emits instead of failing. */
  datatype Warning =
    | ChainMissing(chain: string)
    | RuleMissing(chain: string, body: string, wrap: bool, top: bool)

  /** The `LookupError` raised by adding a rule to an undeclared wrapped chain. */
  datatype LookupError = UnknownChain(chain: string)

  /** A freshly created table. */
  function Empty(binaryName: string): TableState {
    TableState(WrapName(binaryName), {}, {}, [])
  }

  /** The chain set a `wrap` flag selects. */
  function ChainSet(s: TableState, wrap: bool): set<string> {
    if wrap then s.chains else s.unwrappedChains
  }

  /** The invariant every table keeps: names fit their limits, and a wrapped
      rule always refers to a declared wrapped chain. */
  ghost predicate Wellformed(s: TableState) {
    && |s.wrapName| <= MaxBinaryNameLen
    && (forall c :: c in s.chains ==> |c| <= MaxWrappedChainLen)
    && (forall c :: c in s.unwrappedChains ==> |c| <= MaxChainLen)
    && (forall r :: r in s.rules ==> |r.chain| <= ChainLimit(r.wrap))
    && (forall r :: r in s.rules && r.wrap ==> r.chain in s.chains)
  }

  // ---------------------------------------------------------------------
  // Sequence helpers: Python's list comprehension filter and list.remove.

  /** The elements of `s` that satisfy `p`, in their order. */
  function Filter<T(!new)>(p: T -> bool, s: seq<T>): (r: seq<T>)
    ensures |r| <= |s|
    ensures forall x :: x in r <==> x in s && p(x)
  {
    if s == [] then []
    else (if p(s[0]) then [s[0]] else []) + Filter(p, s[1..])
  }

  /** `s` without its first occurrence of `x`. */
  function RemoveFirst<T(==)>(s: seq<T>, x: T): (r: seq<T>)
    ensures x in s ==> |r| == |s| - 1
    ensures x !in s ==> r == s
  {
    if s == [] then []
    else
      assert s == [s[0]] + s[1..];
      if s[0] == x then s[1..]
      else [s[0]] + RemoveFirst(s[1..], x)
  }

  lemma {:induction false} FilterAppend<T(!new)>(p: T -> bool, a: seq<T>, b: seq<T>)
    ensures Filter(p, a + b) == Filter(p, a) + Filter(p, b)
  {
    if a == [] {
      assert a + b == b;
    } else {
      assert (a + b)[0] == a[0];
      assert (a + b)[1..] == a[1..] + b;
      FilterAppend(p, a[1..], b);
    }
  }

  lemma {:induction false} FilterKeepsAll<T(!new)>(p: T -> bool, s: seq<T>)
    requires forall x :: x in s ==> p(x)
    ensures Filter(p, s) == s
  {
    if s != [] {
      FilterKeepsAll(p, s[1..]);
    }
  }

  lemma {:induction false} FilterDropsAll<T(!new)>(p: T -> bool, s: seq<T>)
    requires forall x :: x in s ==> !p(x)
    ensures Filter(p, s) == []
  {
    if s != [] {
      FilterDropsAll(p, s[1..]);
    }
  }

  /** Removing from a list whose head does not hold `x` only touches the tail. */
  lemma {:induction false} RemoveFirstSkipsPrefix<T>(s: seq<T>, tail: seq<T>, x: T)
    requires x !in s
    ensures RemoveFirst(s + tail, x) == s + RemoveFirst(tail, x)
  {
    if s == [] {
      assert s + tail == tail;
    } else {
      assert (s + tail)[0] == s[0];
      assert (s + tail)[1..] == s[1..] + tail;
      RemoveFirstSkipsPrefix(s[1..], tail, x);
    }
  }

  /** `list.remove` takes out the first occurrence of `x` and keeps every
      other element, in order. */
  lemma RemoveFirstTakesFirst<T>(a: seq<T>, x: T, b: seq<T>)
    requires x !in a
    ensures RemoveFirst(a + ([x] + b), x) == a + b
    ensures RemoveFirst(a + [x] + b, x) == a + b
  {
    RemoveFirstSkipsPrefix(a, [x] + b, x);
    assert a + [x] + b == a + ([x] + b);
  }

  /** `list.remove` takes out exactly one occurrence of `x`, when there is one. */
  lemma {:induction false} RemoveFirstMultiset<T>(s: seq<T>, x: T)
    ensures multiset(RemoveFirst(s, x)) == multiset(s) - multiset{x}
  {
    if s != [] {
      RemoveFirstMultiset(s[1..], x);
      assert s == [s[0]] + s[1..];
    }
  }

  lemma RemoveFirstKeepsMembers<T>(s: seq<T>, x: T, y: T)
    requires y in RemoveFirst(s, x)
    ensures y in s
  {
    RemoveFirstMultiset(s, x);
    assert y in multiset(RemoveFirst(s, x));
  }

  // ---------------------------------------------------------------------
  // The mutations.

  /** `add_chain`: declare a chain; declaring it again changes nothing. */
  function AddChain(s: TableState, name: string, wrap: bool): (t: TableState)
    ensures ChainSet(t, wrap) == ChainSet(s, wrap) + {GetChainName(name, wrap)}
    ensures ChainSet(t, !wrap) == ChainSet(s, !wrap)
    ensures t.rules == s.rules && t.wrapName == s.wrapName
  {
    var c := GetChainName(name, wrap);
    if wrap then s.(chains := s.chains + {c})
    else s.(unwrappedChains := s.unwrappedChains + {c})
  }

  /** `add_rule`: fails, naming the chain, exactly when the rule is wrapped
      and its chain was never declared; otherwise appends the rule and
      changes nothing else. */
  function AddRule(s: TableState, chain: string, body: string, wrap: bool, top: bool)
    : (res: Result<TableState, LookupError>)
    ensures var c := GetChainName(chain, wrap);
            && (res.Failure? <==> wrap && c !in s.chains)
            && (res.Failure? ==> res.error == UnknownChain(c))
            && (res.Success? ==> && res.value.rules == s.rules + [Rule(c, body, wrap, top)]
                                 && res.value.chains == s.chains
                                 && res.value.unwrappedChains == s.unwrappedChains
                                 && res.value.wrapName == s.wrapName)
  {
    var c := GetChainName(chain, wrap);
    if wrap && c !in s.chains then Failure(UnknownChain(c))
    else Success(s.(rules := s.rules + [Rule(c, body, wrap, top)]))
  }

  /** `remove_rule`: delete one occurrence of an equal rule, or warn with
      the rule's fields and change nothing when there is none. */
  function RemoveRule(s: TableState, chain: string, body: string, wrap: bool, top: bool)
    : (out: (TableState, Option<Warning>))
    ensures var c := GetChainName(chain, wrap);
            var r := Rule(c, body, wrap, top);
            && (r !in s.rules <==> out.1.Some?)
            && (r !in s.rules ==> out == (s, Some(RuleMissing(c, body, wrap, top))))
            && (r in s.rules ==> && |out.0.rules| == |s.rules| - 1
                                 && out.0.chains == s.chains
                                 && out.0.unwrappedChains == s.unwrappedChains
                                 && out.0.wrapName == s.wrapName)
  {
    var c := GetChainName(chain, wrap);
    var r := Rule(c, body, wrap, top);
    if r in s.rules then (s.(rules := RemoveFirst(s.rules, r)), None)
    else (s, Some(RuleMissing(c, body, wrap, top)))
  }

  /** The rules that do not sit in chain `c`. */
  function RulesOutside(rules: seq<Rule>, c: string): seq<Rule> {
    Filter(NotIn(c), rules)
  }

  function NotIn(c: string): Rule -> bool {
    (r: Rule) => r.chain != c
  }

  /** The rules that do not sit in chain `c` of the kind `wrap`. */
  function RulesOutsideOf(rules: seq<Rule>, c: string, wrap: bool): seq<Rule> {
    Filter(NotInOf(c, wrap), rules)
  }

  function NotInOf(c: string, wrap: bool): Rule -> bool {
    (r: Rule) => !(r.chain == c && r.wrap == wrap)
  }

  /** `remove_chain`: undeclare a chain and drop every rule whose chain has
      that name, wrapped or not; or warn and change nothing when the chain
      is not declared. */
  function RemoveChain(s: TableState, name: string, wrap: bool): (out: (TableState, Option<Warning>))
    ensures var c := GetChainName(name, wrap);
            && (c !in ChainSet(s, wrap) <==> out.1.Some?)
            && (c !in ChainSet(s, wrap) ==> out == (s, Some(ChainMissing(c))))
            && (c in ChainSet(s, wrap) ==>
                  && ChainSet(out.0, wrap) == ChainSet(s, wrap) - {c}
                  && ChainSet(out.0, !wrap) == ChainSet(s, !wrap)
                  && out.0.wrapName == s.wrapName
                  && (forall r :: r in out.0.rules <==> r in s.rules && r.chain != c))
  {
    var c := GetChainName(name, wrap);
    if c !in ChainSet(s, wrap) then (s, Some(ChainMissing(c)))
    else if wrap then (s.(chains := s.chains - {c}, rules := RulesOutside(s.rules, c)), None)
    else (s.(unwrappedChains := s.unwrappedChains - {c}, rules := RulesOutside(s.rules, c)), None)
  }

  /** `empty_chain`: drop the rules of the chain of that name and kind but
      keep it declared. */
  function EmptyChain(s: TableState, name: string, wrap: bool): (t: TableState)
    ensures t.chains == s.chains && t.unwrappedChains == s.unwrappedChains && t.wrapName == s.wrapName
    ensures var c := GetChainName(name, wrap);
            forall r :: r in t.rules <==> r in s.rules && !(r.chain == c && r.wrap == wrap)
  {
    s.(rules := RulesOutsideOf(s.rules, GetChainName(name, wrap), wrap))
  }

  // ---------------------------------------------------------------------
  // Properties of the mutations.

  /** Every mutation keeps the table well formed. */
  lemma MutationsPreserveWellformed(s: TableState, name: string, body: string, wrap: bool, top: bool)
    requires Wellformed(s)
    ensures Wellformed(AddChain(s, name, wrap))
    ensures AddRule(s, name, body, wrap, top).Success? ==> Wellformed(AddRule(s, name, body, wrap, top).value)
    ensures Wellformed(RemoveRule(s, name, body, wrap, top).0)
    ensures Wellformed(RemoveChain(s, name, wrap).0)
    ensures Wellformed(EmptyChain(s, name, wrap))
  {
    var t := RemoveRule(s, name, body, wrap, top).0;
    forall r | r in t.rules ensures r in s.rules {
      if t != s {
        RemoveFirstKeepsMembers(s.rules, Rule(GetChainName(name, wrap), body, wrap, top), r);
      }
    }
  }

  /** Declaring a chain twice is the same as declaring it once. */
  lemma AddChainIdempotent(s: TableState, name: string, wrap: bool)
    ensures AddChain(AddChain(s, name, wrap), name, wrap) == AddChain(s, name, wrap)
  {
  }

  /** Removing a chain keeps every rule outside it, in order and with its
      multiplicity: removal commutes with splitting the rule list. */
  lemma {:induction false} RemoveChainSplits(s: TableState, name: string, wrap: bool, a: seq<Rule>, b: seq<Rule>)
    requires GetChainName(name, wrap) in ChainSet(s, wrap)
    requires s.rules == a + b
    ensures RemoveChain(s, name, wrap).0.rules
         == RemoveChain(s.(rules := a), name, wrap).0.rules + RemoveChain(s.(rules := b), name, wrap).0.rules
  {
    FilterAppend(NotIn(GetChainName(name, wrap)), a, b);
  }

  /** `remove_rule` deletes the first equal rule and keeps every other rule
      in order. */
  lemma RemoveRuleTakesFirst(s: TableState, chain: string, body: string, wrap: bool, top: bool,
                             a: seq<Rule>, b: seq<Rule>)
    requires s.rules == a + [Rule(GetChainName(chain, wrap), body, wrap, top)] + b
    requires Rule(GetChainName(chain, wrap), body, wrap, top) !in a
    ensures RemoveRule(s, chain, body, wrap, top) == (s.(rules := a + b), None)
  {
    RemoveFirstTakesFirst(a, Rule(GetChainName(chain, wrap), body, wrap, top), b);
  }

  /** Emptying a chain keeps every other rule in order and with its
      multiplicity: it maps the two halves of the rule list separately. */
  lemma {:induction false} EmptyChainSplits(s: TableState, name: string, wrap: bool, a: seq<Rule>, b: seq<Rule>)
    requires s.rules == a + b
    ensures EmptyChain(s, name, wrap).rules
         == EmptyChain(s.(rules := a), name, wrap).rules + EmptyChain(s.(rules := b), name, wrap).rules
  {
    FilterAppend(NotInOf(GetChainName(name, wrap), wrap), a, b);
  }

  /** Emptying a chain keeps a rule of another chain or kind and drops a rule
      of that chain and kind. */
  lemma EmptyChainOne(s: TableState, name: string, wrap: bool, r: Rule)
    requires s.rules == [r]
    ensures EmptyChain(s, name, wrap).rules
         == if r.chain == GetChainName(name, wrap) && r.wrap == wrap then [] else [r]
  {
    assert [r][1..] == [];
  }

  /** Removing a rule right after adding it gives back the table, when the
      rule was not there before. */
  lemma RemoveRuleUndoesAddRule(s: TableState, chain: string, body: string, wrap: bool, top: bool)
    requires AddRule(s, chain, body, wrap, top).Success?
    requires Rule(GetChainName(chain, wrap), body, wrap, top) !in s.rules
    ensures RemoveRule(AddRule(s, chain, body, wrap, top).value, chain, body, wrap, top) == (s, None)
  {
    var r := Rule(GetChainName(chain, wrap), body, wrap, top);
    RemoveFirstSkipsPrefix(s.rules, [r], r);
    assert RemoveFirst([r], r) == [];
    assert s.rules + [] == s.rules;
  }

  /** Removing a chain that was added to `s`, together with any rules
      appended to it, gives back `s` exactly: the round trip of adding and
      removing a chain. */
  lemma RemoveChainUndoesAddChain(s: TableState, t: TableState, name: string, extra: seq<Rule>)
    requires GetChainName(name, true) !in s.chains
    requires forall r :: r in s.rules ==> r.chain != GetChainName(name, true)
    requires forall r :: r in extra ==> r.chain == GetChainName(name, true)
    requires t == AddChain(s, name, true).(rules := s.rules + extra)
    ensures RemoveChain(t, name, true) == (s, None)
  {
    var c := GetChainName(name, true);
    var p := NotIn(c);
    FilterAppend(p, s.rules, extra);
    FilterKeepsAll(p, s.rules);
    FilterDropsAll(p, extra);
    assert s.rules + [] == s.rules;
    assert t.chains - {c} == s.chains;
  }
}
