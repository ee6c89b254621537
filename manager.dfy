/** The manager: one `Table` per managed table (`filter` and, unless the
    manager is state-less, `nat` for IPv4; `filter` for IPv6), `apply`,
    which renders the IPv4 tables into one restore payload, and
    `get_traffic_counters`.  Calls of the external `execute` helper are
    modelled as returned `Invocation`s and, for listings, as a function
    parameter that gives each listing command its output. */
module IptablesManager {
  import opened Wrappers
  import opened ChainNaming
  import opened TableSpec
  import opened Render
  import opened Lines
  import opened TrafficCounters
  import opened IptablesTable

  /** One call of the external `execute` helper: its arguments and, for a
      restore, the text fed to its standard input. */
  datatype Invocation = Invocation(args: seq<string>, input: Option<string>)

  /** The unwrapped chain shared by all managers at the top of `filter`. */
  const FilterTopChain := "neutron-filter-top"
  /** The unwrapped chain shared by all managers at the bottom of `nat`
      POSTROUTING. */
  const PostroutingBottomChain := "neutron-postrouting-bottom"

  const SaveArgs: seq<string> := ["iptables-save", "-c"]
  const RestoreArgs: seq<string> := ["iptables-restore", "-c"]

  /** Some rule of `s` jumps to the kernel chain `target`. */
  ghost predicate Reached(s: TableState, target: string) {
    exists r :: r in s.rules && r.body == "-j " + target
  }

  /** No declared chain is dead: each has a jump into it. */
  ghost predicate EveryChainReached(s: TableState) {
    && (forall c :: c in s.chains ==> Reached(s, WrappedChainName(s.wrapName, c)))
    && (forall c :: c in s.unwrappedChains ==> Reached(s, c))
  }

  /** The `filter` table a manager starts with: the shared
      `neutron-filter-top` chain at the top of FORWARD and OUTPUT, its jump
      to the wrapped `local` chain, and a wrapped chain for each built-in
      chain with the jump into it. */
  function DefaultFilter(wrapName: string): TableState {
    TableState(
      wrapName,
      {"local", "INPUT", "OUTPUT", "FORWARD"},
      {FilterTopChain},
      [ Rule("FORWARD", "-j " + FilterTopChain, false, true),
        Rule("OUTPUT", "-j " + FilterTopChain, false, true),
        Rule(FilterTopChain, "-j " + WrappedChainName(wrapName, "local"), false, false),
        Rule("INPUT", "-j " + WrappedChainName(wrapName, "INPUT"), false, false),
        Rule("OUTPUT", "-j " + WrappedChainName(wrapName, "OUTPUT"), false, false),
        Rule("FORWARD", "-j " + WrappedChainName(wrapName, "FORWARD"), false, false) ])
  }

  /** The `nat` table a manager starts with: a wrapped chain for each
      built-in chain with the jump into it, the shared
      `neutron-postrouting-bottom` chain last in POSTROUTING, and the
      wrapped `snat` and `float-snat` chains hanging from it. */
  function DefaultNat(wrapName: string): TableState {
    TableState(
      wrapName,
      {"PREROUTING", "OUTPUT", "POSTROUTING", "snat", "float-snat"},
      {PostroutingBottomChain},
      [ Rule("PREROUTING", "-j " + WrappedChainName(wrapName, "PREROUTING"), false, false),
        Rule("OUTPUT", "-j " + WrappedChainName(wrapName, "OUTPUT"), false, false),
        Rule("POSTROUTING", "-j " + WrappedChainName(wrapName, "POSTROUTING"), false, false),
        Rule("POSTROUTING", "-j " + PostroutingBottomChain, false, false),
        Rule(PostroutingBottomChain, "-j " + WrappedChainName(wrapName, "snat"), false, false),
        Rule("snat", "-j " + WrappedChainName(wrapName, "float-snat"), true, false) ])
  }

  /** The restore payload for the IPv4 tables: the `nat` block (when the
      manager has one) followed by the `filter` block, each for some order
      of its chain sets. */
  ghost predicate IsRestorePayload(payload: string, natTable: Option<TableState>, filterTable: TableState) {
    exists natLines: seq<string>, filterLines: seq<string> {:trigger Text(natLines + filterLines)} ::
      && (if natTable.Some? then IsBlock(natLines, "nat", natTable.value) else natLines == [])
      && IsBlock(filterLines, "filter", filterTable)
      && payload == Text(natLines + filterLines)
  }

  /** The text of a `nat` block followed by the text of a `filter` block is
      a restore payload for those two tables. */
  lemma PayloadOfBlocks(natLines: seq<string>, filterLines: seq<string>, natTable: TableState, filterTable: TableState)
    requires IsBlock(natLines, "nat", natTable) && IsBlock(filterLines, "filter", filterTable)
    ensures IsRestorePayload(Text(natLines) + Text(filterLines), Some(natTable), filterTable)
  {
    TextAppend(natLines, filterLines);
    assert Text(natLines + filterLines) == Text(natLines) + Text(filterLines);
  }

  // ---------------------------------------------------------------------
  // Traffic counters.

  /** A listing to run: the tool (`iptables` or `ip6tables`) and the table. */
  datatype Listing = Listing(tool: string, table: string)

  /** The arguments of one listing command. */
  function ListingArgs(l: Listing, chain: string, zero: bool): seq<string> {
    [l.tool, "-t", l.table, "-L", chain, "-n", "-v", "-x"] + (if zero then ["-Z"] else [])
  }

  function ListingCalls(ls: seq<Listing>, chain: string, zero: bool): (calls: seq<seq<string>>)
    ensures |calls| == |ls|
  {
    seq(|ls|, i requires 0 <= i < |ls| => ListingArgs(ls[i], chain, zero))
  }

  /** The tables that declare `chain`: IPv4 `filter`, IPv4 `nat`, then IPv6 `filter`. */
  function CounterTables(chain: string, wrap: bool, filter4: TableState, nat4: Option<TableState>,
                         filter6: TableState): seq<Listing>
  {
    (if chain in ChainSet(filter4, wrap) then [Listing("iptables", "filter")] else [])
    + (if nat4.Some? && chain in ChainSet(nat4.value, wrap) then [Listing("iptables", "nat")] else [])
    + (if chain in ChainSet(filter6, wrap) then [Listing("ip6tables", "filter")] else [])
  }

  /** The sum over the outputs of the listings `ls`. */
  function SumListings(ls: seq<Listing>, chain: string, zero: bool, execute: seq<string> -> string): Counters {
    if ls == [] then NoTraffic
    else Add(SumListings(ls[..|ls| - 1], chain, zero, execute),
             ListingTotals(execute(ListingArgs(ls[|ls| - 1], chain, zero))))
  }

  /** `get_traffic_counters`: None exactly when no managed table declares
      the chain, else the sum over the listings of every table that does. */
  function TrafficCountersOf(chain: string, wrap: bool, zero: bool, filter4: TableState,
                             nat4: Option<TableState>, filter6: TableState,
                             execute: seq<string> -> string): (r: Option<Counters>)
    ensures var name := GetChainName(chain, wrap);
            r.None? <==> (&& name !in ChainSet(filter4, wrap)
                          && (nat4.None? || name !in ChainSet(nat4.value, wrap))
                          && name !in ChainSet(filter6, wrap))
  {
    var name := GetChainName(chain, wrap);
    var ls := CounterTables(name, wrap, filter4, nat4, filter6);
    if ls == [] then None else Some(SumListings(ls, name, zero, execute))
  }

  /** `zero=True` only appends `-Z` to each listing command: the counters
      read are those the same listings give without the flag. */
  lemma ZeroOnlyAddsFlag(chain: string, wrap: bool, filter4: TableState, nat4: Option<TableState>,
                         filter6: TableState, execute: seq<string> -> string)
    ensures TrafficCountersOf(chain, wrap, true, filter4, nat4, filter6, execute)
         == TrafficCountersOf(chain, wrap, false, filter4, nat4, filter6, (a: seq<string>) => execute(a + ["-Z"]))
  {
    var name := GetChainName(chain, wrap);
    SumListingsZero(CounterTables(name, wrap, filter4, nat4, filter6), name, execute);
  }

  lemma {:induction false} SumListingsZero(ls: seq<Listing>, chain: string, execute: seq<string> -> string)
    ensures SumListings(ls, chain, true, execute)
         == SumListings(ls, chain, false, (a: seq<string>) => execute(a + ["-Z"]))
  {
    if ls != [] {
      SumListingsZero(ls[..|ls| - 1], chain, execute);
      assert ListingArgs(ls[|ls| - 1], chain, true) == ListingArgs(ls[|ls| - 1], chain, false) + ["-Z"];
    }
  }

  lemma SumListingsStep(ls: seq<Listing>, i: nat, chain: string, zero: bool, execute: seq<string> -> string)
    requires i < |ls|
    ensures SumListings(ls[..i + 1], chain, zero, execute)
         == Add(SumListings(ls[..i], chain, zero, execute), ListingTotals(execute(ListingArgs(ls[i], chain, zero))))
    ensures ListingCalls(ls[..i + 1], chain, zero) == ListingCalls(ls[..i], chain, zero) + [ListingArgs(ls[i], chain, zero)]
  {
    assert ls[..i + 1][..i] == ls[..i];
  }

  /** The default tables are well formed under a binary name that fits,
      and each chain they declare is reached by a jump. */
  lemma DefaultFilterSound(wn: string)
    requires |wn| <= MaxBinaryNameLen
    ensures Wellformed(DefaultFilter(wn)) && EveryChainReached(DefaultFilter(wn))
  {
    var s := DefaultFilter(wn);
    assert s.rules[0] in s.rules && s.rules[2] in s.rules && s.rules[3] in s.rules;
    assert s.rules[4] in s.rules && s.rules[5] in s.rules;
  }

  lemma DefaultNatSound(wn: string)
    requires |wn| <= MaxBinaryNameLen
    ensures Wellformed(DefaultNat(wn)) && EveryChainReached(DefaultNat(wn))
  {
    var s := DefaultNat(wn);
    assert |PostroutingBottomChain| <= MaxChainLen;
    assert forall c :: c in s.chains ==> |c| <= MaxWrappedChainLen;
    assert forall i :: 0 <= i < |s.rules| ==> |s.rules[i].chain| <= ChainLimit(s.rules[i].wrap);
    DefaultNatReached(wn);
  }

  lemma DefaultNatReached(wn: string)
    ensures EveryChainReached(DefaultNat(wn))
  {
    var s := DefaultNat(wn);
    assert s.rules[0] in s.rules && s.rules[1] in s.rules && s.rules[2] in s.rules;
    assert s.rules[3] in s.rules && s.rules[4] in s.rules && s.rules[5] in s.rules;
  }

  // ---------------------------------------------------------------------
  // Building the default tables.

  /** The state after declaring the wrapped chain `chain` and adding, to
      the chain `parent` (wrapped when `parentWrap`), the jump into it. */
  function HangWrapped(s: TableState, parent: string, parentWrap: bool, chain: string): TableState {
    s.(chains := s.chains + {chain},
       rules := s.rules + [Rule(parent, "-j " + WrappedChainName(s.wrapName, chain), parentWrap, false)])
  }

  /** The state after declaring the unwrapped chain `shared` and adding, to
      the unwrapped chain `parent`, the jump into it. */
  function HangShared(s: TableState, parent: string, shared: string, top: bool): TableState {
    s.(unwrappedChains := s.unwrappedChains + {shared},
       rules := s.rules + [Rule(parent, "-j " + shared, false, top)])
  }

  /** The state after adding one more unwrapped jump rule. */
  function Jump(s: TableState, parent: string, target: string, top: bool): TableState {
    s.(rules := s.rules + [Rule(parent, "-j " + target, false, top)])
  }

  /** The default `filter` table is what the constructor's sequence of
      `add_chain`/`add_rule` calls builds from an empty table. */
  lemma FilterBuiltStepwise(wn: string)
    ensures DefaultFilter(wn) ==
      HangWrapped(HangWrapped(HangWrapped(HangWrapped(
        Jump(HangShared(TableState(wn, {}, {}, []), "FORWARD", FilterTopChain, true), "OUTPUT", FilterTopChain, true),
        FilterTopChain, false, "local"), "INPUT", false, "INPUT"), "OUTPUT", false, "OUTPUT"), "FORWARD", false, "FORWARD")
  {
  }

  /** The default `nat` table is what the constructor's sequence of
      `add_chain`/`add_rule` calls builds from an empty table. */
  lemma NatBuiltStepwise(wn: string)
    ensures DefaultNat(wn) ==
      HangWrapped(HangWrapped(HangShared(
        HangWrapped(HangWrapped(HangWrapped(TableState(wn, {}, {}, []),
          "PREROUTING", false, "PREROUTING"), "OUTPUT", false, "OUTPUT"), "POSTROUTING", false, "POSTROUTING"),
        "POSTROUTING", PostroutingBottomChain, false), PostroutingBottomChain, false, "snat"), "snat", true, "float-snat")
  {
  }

  /** Declares the wrapped chain `chain` and adds, to the chain `parent`
      (wrapped when `parentWrap`), the jump into it. */
  method HangWrappedChain(t: Table, parent: string, parentWrap: bool, chain: string)
    requires t.Valid() && |parent| <= ChainLimit(parentWrap) && |chain| <= MaxWrappedChainLen
    requires parentWrap ==> parent in t.chains
    modifies t
    ensures t.Valid() && t.State() == HangWrapped(old(t.State()), parent, parentWrap, chain)
  {
    ShortNameKept(chain, true);
    ShortNameKept(parent, parentWrap);
    t.AddChain(chain);
    var e := t.AddRule(parent, "-j " + WrappedChainName(t.wrapName, chain), parentWrap);
  }

  /** Declares the unwrapped chain `shared` and adds, to the unwrapped chain
      `parent`, the jump into it. */
  method HangSharedChain(t: Table, parent: string, shared: string, top: bool)
    requires t.Valid() && |parent| <= MaxChainLen && |shared| <= MaxChainLen
    modifies t
    ensures t.Valid() && t.State() == HangShared(old(t.State()), parent, shared, top)
  {
    ShortNameKept(shared, false);
    ShortNameKept(parent, false);
    t.AddChain(shared, false);
    var e := t.AddRule(parent, "-j " + shared, false, top);
  }

  method NewFilterTable(binaryName: string) returns (t: Table)
    ensures fresh(t) && t.Valid() && t.State() == DefaultFilter(WrapName(binaryName))
  {
    t := new Table(binaryName);
    HangSharedChain(t, "FORWARD", FilterTopChain, true);
    ShortNameKept("OUTPUT", false);
    var e := t.AddRule("OUTPUT", "-j " + FilterTopChain, false, true);
    HangWrappedChain(t, FilterTopChain, false, "local");
    HangWrappedChain(t, "INPUT", false, "INPUT");
    HangWrappedChain(t, "OUTPUT", false, "OUTPUT");
    HangWrappedChain(t, "FORWARD", false, "FORWARD");
    FilterBuiltStepwise(t.wrapName);
  }

  method NewNatTable(binaryName: string) returns (t: Table)
    ensures fresh(t) && t.Valid() && t.State() == DefaultNat(WrapName(binaryName))
  {
    t := new Table(binaryName);
    HangWrappedChain(t, "PREROUTING", false, "PREROUTING");
    HangWrappedChain(t, "OUTPUT", false, "OUTPUT");
    HangWrappedChain(t, "POSTROUTING", false, "POSTROUTING");
    HangSharedChain(t, "POSTROUTING", PostroutingBottomChain, false);
    HangWrappedChain(t, PostroutingBottomChain, false, "snat");
    HangWrappedChain(t, "snat", true, "float-snat");
    NatBuiltStepwise(t.wrapName);
  }

  class Manager {
    /** The binary name cut to 16 characters, shared by every table. */
    const wrapName: string
    const filter4: Table
    /** The IPv4 `nat` table; null for a state-less manager. */
    const nat4: Table?
    const filter6: Table

    ghost predicate Valid()
      reads filter4, nat4, filter6
    {
      && filter4 != filter6
      && (nat4 != null ==> nat4 != filter4 && nat4 != filter6)
      && filter4.Valid() && filter6.Valid() && (nat4 != null ==> nat4.Valid())
      && filter4.wrapName == wrapName && filter6.wrapName == wrapName
      && (nat4 != null ==> nat4.wrapName == wrapName)
    }

    /** The IPv4 `nat` table's contents, when there is one. */
    function NatState(): Option<TableState>
      reads nat4
    {
      if nat4 == null then None else Some(nat4.State())
    }

    constructor (binaryName: string, stateLess: bool := false)
      ensures Valid() && fresh(filter4) && fresh(filter6) && (nat4 != null ==> fresh(nat4))
      ensures wrapName == WrapName(binaryName)
      ensures filter4.State() == DefaultFilter(wrapName) && filter6.State() == DefaultFilter(wrapName)
      ensures NatState() == if stateLess then None else Some(DefaultNat(wrapName))
    {
      var f4 := NewFilterTable(binaryName);
      var f6 := NewFilterTable(binaryName);
      var n4: Table? := null;
      if !stateLess {
        n4 := NewNatTable(binaryName);
      }
      wrapName, filter4, nat4, filter6 := WrapName(binaryName), f4, n4, f6;
    }

    /** `apply` with an empty save: one save call, then one restore call whose
        input is the `nat` block followed by the `filter` block. */
    method Apply() returns (calls: seq<Invocation>)
      requires Valid()
      ensures |calls| == 2
      ensures calls[0] == Invocation(SaveArgs, None)
      ensures calls[1].args == RestoreArgs && calls[1].input.Some?
      ensures IsRestorePayload(calls[1].input.value, NatState(), filter4.State())
    {
      var natLines: seq<string> := [];
      if nat4 != null {
        var uo := Enumerate(nat4.unwrappedChains);
        var wo := Enumerate(nat4.chains);
        natLines := RenderTable("nat", nat4.State(), uo, wo);
      }
      var fu := Enumerate(filter4.unwrappedChains);
      var fw := Enumerate(filter4.chains);
      var filterLines := RenderTable("filter", filter4.State(), fu, fw);
      var payload := Text(natLines + filterLines);
      calls := [Invocation(SaveArgs, None), Invocation(RestoreArgs, Some(payload))];
    }

    /** `get_traffic_counters`: lists the chain in every table that declares
        it and adds up the listings; None when no table does. */
    method GetTrafficCounters(chain: string, execute: seq<string> -> string, wrap: bool := true, zero: bool := false)
      returns (acc: Option<Counters>, calls: seq<seq<string>>)
      requires Valid()
      ensures acc == TrafficCountersOf(chain, wrap, zero, filter4.State(), NatState(), filter6.State(), execute)
      ensures calls == ListingCalls(CounterTables(GetChainName(chain, wrap), wrap, filter4.State(), NatState(), filter6.State()),
                                    GetChainName(chain, wrap), zero)
    {
      var name := GetChainName(chain, wrap);
      var tables := CounterTables(name, wrap, filter4.State(), NatState(), filter6.State());
      calls := [];
      if tables == [] {
        return None, calls;
      }
      var total := NoTraffic;
      for i := 0 to |tables|
        invariant total == SumListings(tables[..i], name, zero, execute)
        invariant calls == ListingCalls(tables[..i], name, zero)
      {
        var args := ListingArgs(tables[i], name, zero);
        var c := SumListing(execute(args));
        SumListingsStep(tables, i, name, zero, execute);
        total := Add(total, c);
        calls := calls + [args];
      }
      assert tables[..|tables|] == tables;
      acc := Some(total);
    }
  }
}
