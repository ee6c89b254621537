/** The per-table rule model as an object: `IptablesTable` in the source,
    whose chain sets and rule list are changed in place by the caller
    between two applies.  Each method is specified by the matching
    function of `TableSpec`. */
module IptablesTable {
  import opened Wrappers
  import opened ChainNaming
  import TableSpec

  class Table {
    /** The binary-name prefix of this table's wrapped chains. */
    const wrapName: string
    /** Declared wrapped chains, by stored (cut) name. */
    var chains: set<string>
    /** Declared unwrapped chains, by stored (cut) name. */
    var unwrappedChains: set<string>
    /** Declared rules, in the order they were added. */
    var rules: seq<TableSpec.Rule>

    /** The value the table holds. */
    function State(): TableSpec.TableState
      reads this
    {
      TableSpec.TableState(wrapName, chains, unwrappedChains, rules)
    }

    ghost predicate Valid()
      reads this
    {
      TableSpec.Wellformed(State())
    }

    constructor (binaryName: string)
      ensures Valid() && State() == TableSpec.Empty(binaryName)
    {
      wrapName := WrapName(binaryName);
      chains, unwrappedChains, rules := {}, {}, [];
    }

    method AddChain(name: string, wrap: bool := true)
      requires Valid()
      modifies this
      ensures Valid() && State() == TableSpec.AddChain(old(State()), name, wrap)
    {
      TableSpec.MutationsPreserveWellformed(State(), name, "", wrap, false);
      var c := GetChainName(name, wrap);
      if wrap {
        chains := chains + {c};
      } else {
        unwrappedChains := unwrappedChains + {c};
      }
    }

    /** Returns the `LookupError` the source raises, or None on success. */
    method AddRule(chain: string, body: string, wrap: bool := true, top: bool := false)
      returns (error: Option<TableSpec.LookupError>)
      requires Valid()
      modifies this
      ensures Valid()
      ensures match TableSpec.AddRule(old(State()), chain, body, wrap, top)
              case Success(t) => error == None && State() == t
              case Failure(e) => error == Some(e) && State() == old(State())
    {
      TableSpec.MutationsPreserveWellformed(State(), chain, body, wrap, top);
      var c := GetChainName(chain, wrap);
      if wrap && c !in chains {
        return Some(TableSpec.UnknownChain(c));
      }
      rules := rules + [TableSpec.Rule(c, body, wrap, top)];
      error := None;
    }

    /** Returns the warning the source logs when the rule is not there. */
    method RemoveRule(chain: string, body: string, wrap: bool := true, top: bool := false)
      returns (warning: Option<TableSpec.Warning>)
      requires Valid()
      modifies this
      ensures Valid()
      ensures (State(), warning) == TableSpec.RemoveRule(old(State()), chain, body, wrap, top)
    {
      TableSpec.MutationsPreserveWellformed(State(), chain, body, wrap, top);
      var c := GetChainName(chain, wrap);
      var r := TableSpec.Rule(c, body, wrap, top);
      if r in rules {
        rules := TableSpec.RemoveFirst(rules, r);
        warning := None;
      } else {
        warning := Some(TableSpec.RuleMissing(c, body, wrap, top));
      }
    }

    /** Returns the warning the source logs when the chain is not there. */
    method RemoveChain(name: string, wrap: bool := true) returns (warning: Option<TableSpec.Warning>)
      requires Valid()
      modifies this
      ensures Valid()
      ensures (State(), warning) == TableSpec.RemoveChain(old(State()), name, wrap)
    {
      TableSpec.MutationsPreserveWellformed(State(), name, "", wrap, false);
      var c := GetChainName(name, wrap);
      if wrap {
        if c !in chains {
          return Some(TableSpec.ChainMissing(c));
        }
        chains := chains - {c};
      } else {
        if c !in unwrappedChains {
          return Some(TableSpec.ChainMissing(c));
        }
        unwrappedChains := unwrappedChains - {c};
      }
      rules := TableSpec.RulesOutside(rules, c);
      warning := None;
    }

    method EmptyChain(name: string, wrap: bool := true)
      requires Valid()
      modifies this
      ensures Valid() && State() == TableSpec.EmptyChain(old(State()), name, wrap)
    {
      TableSpec.MutationsPreserveWellformed(State(), name, "", wrap, false);
      rules := TableSpec.RulesOutsideOf(rules, GetChainName(name, wrap), wrap);
    }
  }
}
