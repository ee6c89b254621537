# iptables manager: chains, tables, restore payloads and traffic counters

This project models the core of neutron's `iptables_manager`. The module
keeps, per filtering table, the chains and rules an agent wants. On `apply`
it renders them into the text that `iptables-restore -c` reads, and on
request it adds up the packet and byte counters of a chain from
`iptables -L <chain> -n -v -x` listings. The behaviour is rebuilt from the
module's unit tests, `neutron/tests/unit/test_iptables_manager.py`, which
fix it through exact expected payloads, exact command lines and exact
counter totals. The implementation file `neutron/agent/linux/iptables_manager.py`
is not part of this model.

The modules follow the parts of the component:

- `ChainNaming` (naming.dfy): `get_chain_name` and the binary-name prefix.
  Unwrapped chain names are cut to 28 characters. Wrapped names are cut to
  11 and prefixed with the binary name cut to 16 and a dash.
- `TableSpec` (table_state.dfy): a table's contents as a value
  (`TableState`: the wrap name, the wrapped and unwrapped chain sets, and
  the rule list in the order the rules were added), with `add_chain`,
  `add_rule`, `remove_rule`, `remove_chain` and `empty_chain` as functions,
  and their properties.
- `IptablesTable` (table.dfy): the class `Table`, whose fields the
  mutation methods change in place. Each method is specified by the
  matching `TableSpec` function and keeps the invariant `Valid`.
- `Render` (render.dfy): one table as a save/restore block. The block is
  `# Generated by iptables_manager`, `*<table>`, the `:<chain> - [0:0]`
  declarations (unwrapped chains first, then wrapped ones as
  `<binary name>-<chain>`), the `[0:0] -A <chain> <body>` rule lines (rules
  added with `top` first, then the others, each group in the order added),
  then `COMMIT` and `# Completed by iptables_manager`. The chain sets are
  Python sets with no order of their own, so rendering takes an
  enumeration of each set as an argument. `IsBlock` says "the block for
  some enumeration".
- `Lines` (lines.dfy): text as newline-terminated lines, and
  `str.split('\n')`.
- `TrafficCounters` (counters.dfy): reading one listing. The two header
  lines are skipped, then the first two columns of the data lines are
  added up, as Python's `str.split()` and `int()` read them, up to the
  first line that is not a data line.
- `IptablesManager` (manager.dfy): the default `filter` and `nat` tables
  built by the constructor's `add_chain`/`add_rule` calls, and the class
  `Manager` with `apply` and `get_traffic_counters`. The external
  `execute` helper appears in two ways. Save and restore calls are
  returned as `Invocation` values. For listings, a function parameter
  gives each listing command its output.
- `Fixtures` (fixtures.dfy): the exact blocks, payloads, command lines
  and totals the unit tests expect, written line by line with the binary
  name `wn` left open, and the lemmas that the model produces exactly
  them.

Three rules of the model are fixed by the tests and stated here on their
own terms:

- `get_traffic_counters(chain)` lists the chain itself
  (`-L <get_chain_name(chain)>`) in every managed table that declares it,
  and returns None exactly when none does. The tests fix both: `chain1`,
  which no table declares, gives None (lines 467-492), and `OUTPUT`, listed
  in IPv4 `filter`, IPv4 `nat` and IPv6 `filter`, gives 1600 packets and
  263604 bytes (lines 494-523). Those totals add up every data row of the
  listing whatever its target column says.
- A listing is read as two header lines followed by data lines, up to the
  first line that is not a data line (empty, fewer than two columns, or
  non-numeric counts). The tests only ever end a listing with the one
  empty piece after its last newline, so they do not decide what happens
  to data lines after a blank or malformed line; the model stops there.
- Every `apply` in the tests follows an empty save. The model's `Apply`
  therefore always issues one save and one restore of the `nat` block
  followed by the `filter` block. There is no diff against earlier
  content.

Three choices the tests do not fix:

- `add_rule` with `top=True` appends the rule and puts it among the top
  rules when rendering. No test passes `top=True` or shows a top flag.
  The model marks the two `neutron-filter-top` jumps of the default
  `filter` table (FORWARD and OUTPUT) as top rules; since they are also
  the first rules added, FILTER_DUMP renders the same either way.
- `remove_chain` drops every rule whose chain has that name, wrapped or
  not, while `empty_chain` drops only the rules of that name and of the
  same kind (wrapped or unwrapped). The tests only empty a chain that has
  no rules (lines 170-174) and remove chains whose rules are all of one
  kind, so nothing in them fixes this asymmetry.
- `remove_chain` drops only the rules that sit in the removed chain. A
  jump into it from another chain stays, so the table can be left with a
  rule whose target it no longer declares (`Fixtures.RemoveChainKeepsJumpsIn`).
  The tests always remove such a jump with `remove_rule` before removing
  the chain (lines 357-360 and 436-438), so they do not decide whether
  `remove_chain` should drop it too.

## Model

| member | source | states |
|---|---|---|
| ChainNaming.GetChainName | neutron/tests/unit/test_iptables_manager.py:81-89 | the stored name is a prefix of the given name, of length min(len, 28) when unwrapped and min(len, 11) when wrapped, so never longer than 28 |
| ChainNaming.WrapName | neutron/tests/unit/test_iptables_manager.py:91-102 | the binary name put in front of wrapped chains is its prefix of length min(len, 16) |
| ChainNaming.GetChainNameExample | neutron/tests/unit/test_iptables_manager.py:81-89 | fifty digits are stored as their first 28 characters unwrapped and their first 11 wrapped |
| ChainNaming.WrapNameExample | neutron/tests/unit/test_iptables_manager.py:91-102 | the thirty-character custom binary name `abcdef`*5 is used as `abcdefabcdefabcd` |
| ChainNaming.ShortNameKept | neutron/tests/unit/test_iptables_manager.py:81-89 | a name within the limit for its kind is stored unchanged |
| ChainNaming.GetChainNameIdempotent | neutron/tests/unit/test_iptables_manager.py:81-89 | cutting a stored name again changes nothing |
| ChainNaming.WrappedChainNameFits | neutron/tests/unit/test_iptables_manager.py:83-89 | `<binary name>-<chain>` is at most 16 + 1 + 11 = 28 characters for every binary name and chain |
| ChainNaming.WrappedChainNameUsesPrefix | neutron/tests/unit/test_iptables_manager.py:91-119 | a wrapped chain's kernel name starts with exactly the binary name's first 16 characters, followed by a dash |
| ChainNaming.WrappedChainNameInjective | neutron/tests/unit/test_iptables_manager.py:104-119 | under one binary name, distinct stored chains get distinct kernel names |
| TableSpec.MutationsPreserveWellformed | neutron/tests/unit/test_iptables_manager.py:83-89 | every mutation keeps names within their limits and keeps every wrapped rule in a declared wrapped chain |
| TableSpec.AddChain | neutron/tests/unit/test_iptables_manager.py:170 | `add_chain` adds the cut name to the chain set of its kind and changes nothing else |
| TableSpec.AddChainIdempotent | neutron/tests/unit/test_iptables_manager.py:170 | declaring a chain a second time changes nothing |
| TableSpec.AddRule | neutron/tests/unit/test_iptables_manager.py:444-446 | `add_rule` fails, with the chain named, exactly when the rule is wrapped and its chain is undeclared; otherwise it appends the rule and changes nothing else |
| TableSpec.RemoveRule | neutron/tests/unit/test_iptables_manager.py:456-465 | `remove_rule` warns, with the chain, rule, wrap and top, exactly when no equal rule is there, and then leaves the table as it was; otherwise it removes one rule and keeps the chain sets |
| TableSpec.RemoveRuleTakesFirst | neutron/tests/unit/test_iptables_manager.py:356-361 | `remove_rule` of a rule whose first occurrence splits the list as `a + [r] + b` leaves exactly `a + b`, with no warning and the chain sets kept |
| TableSpec.RemoveFirst | neutron/tests/unit/test_iptables_manager.py:356-360 | removing an absent element leaves the list as it was; removing a present one shortens it by one |
| TableSpec.RemoveFirstTakesFirst | neutron/tests/unit/test_iptables_manager.py:356-361 | `list.remove` takes out the first occurrence and keeps every other element in order: removing `x` from `a + [x] + b` with `x` not in `a` gives `a + b` |
| TableSpec.RemoveChain | neutron/tests/unit/test_iptables_manager.py:448-454 | `remove_chain` warns, with the chain, exactly when the chain is undeclared, and then leaves the table as it was; otherwise the chain is undeclared, the other chain set is untouched, and the rules left are exactly those outside that chain name |
| TableSpec.RemoveChainSplits | neutron/tests/unit/test_iptables_manager.py:257-263 | removing a chain keeps the other rules in order and with their multiplicity: it maps the two halves of the rule list separately |
| TableSpec.EmptyChain | neutron/tests/unit/test_iptables_manager.py:170-174 | `empty_chain` keeps both chain sets and removes exactly the rules of that chain name and kind |
| TableSpec.EmptyChainSplits | neutron/tests/unit/test_iptables_manager.py:170-174 | emptying a chain maps the two halves of the rule list separately, so the rules kept stay in order and with their multiplicity |
| TableSpec.EmptyChainOne | neutron/tests/unit/test_iptables_manager.py:170-174 | a single rule is dropped exactly when it has the chain name and kind being emptied, and kept otherwise |
| TableSpec.RemoveRuleUndoesAddRule | neutron/tests/unit/test_iptables_manager.py:349-363 | removing a rule just added (and not there before) gives back the table |
| TableSpec.RemoveChainUndoesAddChain | neutron/tests/unit/test_iptables_manager.py:257-263 | removing a chain that was added, with any rules added to it, gives back the table exactly |
| TableSpec.RemoveFirstMultiset | neutron/tests/unit/test_iptables_manager.py:356-360 | `remove_rule` takes out exactly one occurrence of the rule |
| IptablesTable.Table.constructor | neutron/tests/unit/test_iptables_manager.py:68-73 | a new table has the cut binary name, no chains and no rules |
| IptablesTable.Table.AddChain | neutron/tests/unit/test_iptables_manager.py:170 | the new state is `TableSpec.AddChain` of the old one, and `Valid` holds |
| IptablesTable.Table.AddRule | neutron/tests/unit/test_iptables_manager.py:349-353 | on success the new state is the appended table and no error is returned; on an undeclared wrapped chain the `LookupError` is returned and the state is unchanged |
| IptablesTable.Table.RemoveRule | neutron/tests/unit/test_iptables_manager.py:356-360 | the new state and the warning are those of `TableSpec.RemoveRule` |
| IptablesTable.Table.RemoveChain | neutron/tests/unit/test_iptables_manager.py:448-454 | the new state and the warning are those of `TableSpec.RemoveChain` |
| IptablesTable.Table.EmptyChain | neutron/tests/unit/test_iptables_manager.py:173 | the new state is `TableSpec.EmptyChain` of the old one |
| Render.Enumerate | neutron/tests/unit/test_iptables_manager.py:31-47 | returns an order listing each member of a chain set exactly once |
| Render.BlockLayout | neutron/tests/unit/test_iptables_manager.py:49-63 | a block is the two header lines, one declaration per unwrapped chain then per wrapped chain, the rule lines in rendering order, `COMMIT` and the closing comment |
| Render.RenderTable | neutron/tests/unit/test_iptables_manager.py:49-63 | a block has one line per declared chain and per rule, between the two header lines and the `COMMIT` and closing lines |
| Render.RenderOrderIrrelevant | neutron/tests/unit/test_iptables_manager.py:367-383 | two renderings of one table differ only in the order of their declaration lines, which declare the same chains |
| Render.FilterPartition | neutron/tests/unit/test_iptables_manager.py:327-330 | ordering rules top-first renders every rule exactly once |
| Render.RuleSection | neutron/tests/unit/test_iptables_manager.py:400-403 | each rule line is `[0:0] -A <bn>-<chain> <body>` for a wrapped rule and `[0:0] -A <chain> <body>` otherwise |
| Render.AppendBottomRule | neutron/tests/unit/test_iptables_manager.py:349-353 | a rule added without `top` adds its line after all lines already rendered |
| Render.TopThenBottomKept | neutron/tests/unit/test_iptables_manager.py:56-61 | rules already grouped top-first render in the order they were added |
| Render.RenderedNamesFit | neutron/tests/unit/test_iptables_manager.py:83-89 | every chain name in the block of a well-formed table is at most 28 characters |
| Render.WrappedRulesDeclared | neutron/tests/unit/test_iptables_manager.py:324-330 | every wrapped rule's kernel chain is declared in the same block |
| Lines.TextAppend | neutron/tests/unit/test_iptables_manager.py:158 | the text of two blocks one after the other is the concatenation of their texts |
| Lines.SplitText | neutron/tests/unit/test_iptables_manager.py:468-475 | splitting newline-terminated text gives its lines back, then the empty piece after the last newline |
| Lines.SplitLines | neutron/tests/unit/test_iptables_manager.py:468-475 | `str.split('\n')` gives at least one piece and no piece holds a newline |
| TrafficCounters.SumListing | neutron/tests/unit/test_iptables_manager.py:494-523 | the loop's total is the sum over the listing's data lines |
| TrafficCounters.Fields | neutron/tests/unit/test_iptables_manager.py:499-502 | `str.split()` gives non-empty fields none of which holds a space character |
| TrafficCounters.LineCounters | neutron/tests/unit/test_iptables_manager.py:509-512 | a line of spaces only is not a data line |
| TrafficCounters.ListingTotals | neutron/tests/unit/test_iptables_manager.py:509-512 | a listing without a complete first line contributes nothing |
| TrafficCounters.ListingOfRows | neutron/tests/unit/test_iptables_manager.py:495-502 | in a listing made of two header lines and data lines, the headers never count and every data line's first two columns do |
| TrafficCounters.EmptyListing | neutron/tests/unit/test_iptables_manager.py:509-512 | an empty listing contributes zero packets and bytes |
| TrafficCounters.DataLineCounters | neutron/tests/unit/test_iptables_manager.py:499-502 | a line of spaces, digits, spaces, digits, then more columns counts those two numbers |
| IptablesManager.FilterBuiltStepwise | neutron/tests/unit/test_iptables_manager.py:49-63 | the default `filter` table is what the constructor's sequence of chain and jump additions builds |
| IptablesManager.NatBuiltStepwise | neutron/tests/unit/test_iptables_manager.py:31-47 | the default `nat` table is what the constructor's sequence of chain and jump additions builds |
| IptablesManager.DefaultFilterSound | neutron/tests/unit/test_iptables_manager.py:49-63 | the default `filter` table is well formed and every chain it declares is reached by a jump |
| IptablesManager.DefaultNatSound | neutron/tests/unit/test_iptables_manager.py:31-47 | the default `nat` table is well formed and every chain it declares is reached by a jump |
| IptablesManager.HangWrappedChain | neutron/tests/unit/test_iptables_manager.py:31-47 | declares a wrapped chain and appends the jump into it from its parent chain |
| IptablesManager.HangSharedChain | neutron/tests/unit/test_iptables_manager.py:49-58 | declares a shared unwrapped chain and appends the jump into it |
| IptablesManager.NewFilterTable | neutron/tests/unit/test_iptables_manager.py:49-63 | a fresh valid table holding the default `filter` contents |
| IptablesManager.NewNatTable | neutron/tests/unit/test_iptables_manager.py:31-47 | a fresh valid table holding the default `nat` contents |
| IptablesManager.PayloadOfBlocks | neutron/tests/unit/test_iptables_manager.py:158 | a `nat` block's text followed by a `filter` block's text is a restore payload for those tables |
| IptablesManager.TrafficCountersOf | neutron/tests/unit/test_iptables_manager.py:467-492 | the counters are None exactly when neither IPv4 `filter`, IPv4 `nat` nor IPv6 `filter` declares the chain |
| IptablesManager.ZeroOnlyAddsFlag | neutron/tests/unit/test_iptables_manager.py:525-554 | with `zero` the counters are those the same listings give with `-Z` appended to each command |
| IptablesManager.Manager.constructor | neutron/tests/unit/test_iptables_manager.py:557-564 | IPv4 and IPv6 `filter` hold the default contents; IPv4 `nat` holds the default contents, or is absent for a state-less manager |
| IptablesManager.Manager.Apply | neutron/tests/unit/test_iptables_manager.py:157-165 | one `iptables-save -c`, then one `iptables-restore -c` whose input is the `nat` block (when there is one) followed by the `filter` block |
| IptablesManager.Manager.GetTrafficCounters | neutron/tests/unit/test_iptables_manager.py:494-523 | the total and the listing commands are those of `TrafficCountersOf` and `ListingCalls` for the tables that declare the chain |
| Fixtures.FilterDumpRendered | neutron/tests/unit/test_iptables_manager.py:49-63 | the default `filter` table renders to FILTER_DUMP line for line |
| Fixtures.FilterChainDumpRendered | neutron/tests/unit/test_iptables_manager.py:104-119 | with the chain `filter` declared and empty, the block adds its declaration and nothing else |
| Fixtures.FilterAddressDumpRendered | neutron/tests/unit/test_iptables_manager.py:207-224 | the rule added to `filter` renders last, as `[0:0] -A <bn>-filter -s 0/0 -d 192.168.0.2` |
| Fixtures.FilterDropDumpRendered | neutron/tests/unit/test_iptables_manager.py:314-333 | the two rules of the filter-rule test render after the default rules, in the order added |
| Fixtures.NatDumpRendered | neutron/tests/unit/test_iptables_manager.py:31-47 | the default `nat` table renders to NAT_DUMP, and in the other chain order to the block at lines 367-383 |
| Fixtures.NatRedirectDumpRendered | neutron/tests/unit/test_iptables_manager.py:385-406 | the two rules of the nat-rule test render after the default rules, in the order added |
| Fixtures.FilterBlocks | neutron/tests/unit/test_iptables_manager.py:104-137 | FILTER_DUMP is a block of the default table, and the block with `filter` declared is a block of the table after `add_chain` |
| Fixtures.NatBlocks | neutron/tests/unit/test_iptables_manager.py:367-383 | both chain orders the tests show are blocks of the default `nat` table |
| Fixtures.FilterPayloads | neutron/tests/unit/test_iptables_manager.py:157-165 | each restore input the filter tests expect is a restore payload of the tables at that point |
| Fixtures.NatPayloads | neutron/tests/unit/test_iptables_manager.py:410-420 | each restore input the nat-rule test expects is a restore payload of the tables at that point |
| Fixtures.ChainRoundTrip | neutron/tests/unit/test_iptables_manager.py:289-306 | `add_chain('filter')` declares it, `empty_chain` then changes nothing, and `remove_chain` gives back the default table |
| Fixtures.AddressRuleRoundTrip | neutron/tests/unit/test_iptables_manager.py:257-263 | adding a rule to `filter` appends it; removing the chain gives back the default table |
| Fixtures.DropRulesAdded | neutron/tests/unit/test_iptables_manager.py:349-353 | the DROP rule and then the INPUT jump are appended in that order |
| Fixtures.DropRulesRemoved | neutron/tests/unit/test_iptables_manager.py:356-363 | removing both rules, then the chain, gives back the default table with no warning |
| Fixtures.RemoveChainKeepsJumpsIn | neutron/tests/unit/test_iptables_manager.py:357-361 | removing `filter` while the INPUT jump to `<bn>-filter` is still there succeeds, undeclares `filter` and keeps the jump |
| Fixtures.RedirectRulesAdded | neutron/tests/unit/test_iptables_manager.py:423-430 | `add_chain('nat')`, then the PREROUTING jump, then the redirect rule, each appended in turn |
| Fixtures.RedirectRulesRemoved | neutron/tests/unit/test_iptables_manager.py:433-441 | removing both rules, then the chain, gives back the default `nat` table with no warning |
| Fixtures.AddRuleToNonexistentChain | neutron/tests/unit/test_iptables_manager.py:444-446 | `add_rule('nonexistent', '-j DROP')` fails with a lookup error naming the chain |
| Fixtures.RemoveNonexistentChain | neutron/tests/unit/test_iptables_manager.py:448-454 | `remove_chain('nonexistent')` warns with the chain and leaves the table unchanged |
| Fixtures.RemoveNonexistentRule | neutron/tests/unit/test_iptables_manager.py:456-465 | `remove_rule('nonexistent', '-j DROP')` warns with chain, rule, wrap=True and top=False and leaves the table unchanged |
| Fixtures.CountersDumpTotals | neutron/tests/unit/test_iptables_manager.py:495-502 | the test listing adds up to 800 packets and 131802 bytes; the policy counts in its header line do not count |
| Fixtures.TrafficCountersOfOutput | neutron/tests/unit/test_iptables_manager.py:494-554 | `OUTPUT` is listed in IPv4 `filter`, IPv4 `nat` and IPv6 `filter` with exactly the expected commands, with or without `-Z`, and totals 1600 packets and 263604 bytes |
| Fixtures.TrafficCountersOfUndeclared | neutron/tests/unit/test_iptables_manager.py:467-492 | the undeclared chain `chain1` has no counters |

## Left out

- Carrying counters over from a non-empty save and merging foreign chains and rules into the payload are not modelled. Every save in the tests returns nothing, so the tests fix no behaviour for them.
- The diff that skips a restore when nothing changed is not modelled. `Apply` always restores.
- IptablesManager.Manager.Apply: the payload is stated up to the order of the declaration lines (`IsRestorePayload`), because the source lists Python sets. The IPv6 restore and the save output are not modelled.
- The IPv6 `apply` path, network namespaces and the pending-removal lists for shared unwrapped chains are not modelled, because the tests do not exercise them.
- Deriving the binary name from the program path (lines 77-79) is left out. The binary name is a parameter instead.
- The `execute`/`root_helper` process calls are left out as I/O. Save and restore calls become returned `Invocation` values, and listing outputs come from a function parameter. Failures of these calls are not modelled.
- Log message text is left out. A warning is a returned `Warning` value carrying the fields the message names.
- Rule bodies are opaque strings. `$` chain references inside bodies are not expanded.
- The fixture functions spell a few long constant lines through named constants (`FilterTopChain`, `PostroutingBottomChain`, `RedirectBody`) or split literals. The text is the same.
