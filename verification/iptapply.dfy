/** The apply script, the undo script, and what running them leaves on the host. */
module IptApply {
  import opened Wrappers
  import opened Forwards
  import opened NatRules
  import opened NatRender
  import opened IptWorld
  import opened IptScripts

  // ---------------------------------------------------------------- the undo script

  function DeclareRestore(c: OwnedChain, previous: bool, current: bool): seq<Command> {
    if previous || current then [Declare(Owned(c))] else []
  }

  function AnchorRestore(c: OwnedChain, previous: bool, current: bool): seq<Command> {
    if current && !previous then [Delete(Home(c), Bare(c))]
    else if previous && !current then [InsertFirst(Home(c), Bare(c))]
    else []
  }

  function OnlyChain(lines: seq<Line>, c: OwnedChain): seq<Line> {
    if lines == [] then []
    else (if lines[0].chain == c then [lines[0]] else []) + OnlyChain(lines[1..], c)
  }

  function ChainRestore(c: OwnedChain, previous: bool, current: bool, rules: seq<Line>): seq<Command> {
    (if current then [Flush(Owned(c))] else [])
    + (if previous then AppendCommands(OnlyChain(rules, c)) else if current then [DeleteChain(Owned(c))] else [])
  }

  method WriteDeclaration(output: seq<Command>, c: OwnedChain, previous: bool, current: bool) returns (r: seq<Command>)
    ensures r == output + DeclareRestore(c, previous, current)
  {
    r := output;
    if previous || current {
      r := r + [Declare(Owned(c))];
    }
    assert output + [] == output;
  }

  method WriteAnchorRestore(output: seq<Command>, c: OwnedChain, previous: bool, current: bool) returns (r: seq<Command>)
    ensures r == output + AnchorRestore(c, previous, current)
  {
    r := output;
    if current && !previous {
      r := r + [Delete(Home(c), Bare(c))];
    }
    if previous && !current {
      r := r + [InsertFirst(Home(c), Bare(c))];
    }
    assert output + [] == output;
  }

  lemma OnlyChainStep(rules: seq<Line>, i: nat, c: OwnedChain)
    requires i < |rules|
    ensures AppendCommands(OnlyChain(rules[i..], c)) ==
            (if rules[i].chain == c then [Append(Owned(c), Own(rules[i].rule))] else []) + AppendCommands(OnlyChain(rules[i + 1..], c))
  {
    assert rules[i..][0] == rules[i] && rules[i..][1..] == rules[i + 1..];
    var rest := OnlyChain(rules[i + 1..], c);
    if rules[i].chain == c {
      assert AppendCommands([rules[i]] + rest) == [Append(Owned(c), Own(rules[i].rule))] + AppendCommands(rest);
    } else {
      assert OnlyChain(rules[i..], c) == rest;
    }
  }

  lemma Associate(a: seq<Command>, b: seq<Command>, c: seq<Command>)
    ensures (a + b) + c == a + (b + c) && a + [] == a && [] + a == a && [] + b == b
  {
  }

  method WriteRules(output: seq<Command>, c: OwnedChain, rules: seq<Line>) returns (r: seq<Command>)
    ensures r == output + AppendCommands(OnlyChain(rules, c))
  {
    r := output;
    for i := 0 to |rules|
      invariant output + AppendCommands(OnlyChain(rules, c)) == r + AppendCommands(OnlyChain(rules[i..], c))
    {
      OnlyChainStep(rules, i, c);
      ghost var rest := AppendCommands(OnlyChain(rules[i + 1..], c));
      if rules[i].chain == c {
        Associate(r, [Append(Owned(c), Own(rules[i].rule))], rest);
        r := r + [Append(Owned(c), Own(rules[i].rule))];
      } else {
        assert [] + rest == rest;
      }
    }
    Associate(r, [], []);
  }

  method WriteChainRestore(output: seq<Command>, c: OwnedChain, previous: bool, current: bool, rules: seq<Line>) returns (r: seq<Command>)
    ensures r == output + ChainRestore(c, previous, current, rules)
  {
    r := output;
    if current {
      r := r + [Flush(Owned(c))];
    }
    if previous {
      r := WriteRules(r, c, rules);
    } else if current {
      r := r + [DeleteChain(Owned(c))];
    }
    Associate(output, if current then [Flush(Owned(c))] else [],
      if previous then AppendCommands(OnlyChain(rules, c)) else if current then [DeleteChain(Owned(c))] else []);
    Associate(output, [], []);
  }

  function Declares(previous: IptState, current: IptState, cs: seq<OwnedChain>): seq<Command> {
    if cs == [] then []
    else DeclareRestore(cs[0], cs[0] in previous.chains, cs[0] in current.chains) + Declares(previous, current, cs[1..])
  }

  function Anchorings(previous: IptState, current: IptState, cs: seq<OwnedChain>): seq<Command> {
    if cs == [] then []
    else AnchorRestore(cs[0], cs[0] in previous.anchors, cs[0] in current.anchors) + Anchorings(previous, current, cs[1..])
  }

  function Refills(previous: IptState, current: IptState, rules: seq<Line>, cs: seq<OwnedChain>): seq<Command> {
    if cs == [] then []
    else ChainRestore(cs[0], cs[0] in previous.chains, cs[0] in current.chains, rules) + Refills(previous, current, rules, cs[1..])
  }

  function RulesOf(s: IptState, table: IptTable): seq<Line> {
    if table == NatTable then s.natRules else s.filterRules
  }

  /** Declare every chain, then move the anchors, then refill or drop the chains. */
  function TableRollback(table: IptTable, previous: IptState, current: IptState): seq<Command> {
    var cs := OwnedOrder(true, table);
    Declares(previous, current, cs) + Anchorings(previous, current, cs) + Refills(previous, current, RulesOf(previous, table), cs)
  }

  function RollbackOf(previous: IptState, current: IptState): Script {
    Script(TableRollback(NatTable, previous, current), TableRollback(FilterTable, previous, current))
  }

  lemma TwoChains(previous: IptState, current: IptState, rules: seq<Line>, c: OwnedChain, d: OwnedChain)
    ensures Declares(previous, current, [c, d]) ==
            DeclareRestore(c, c in previous.chains, c in current.chains) + DeclareRestore(d, d in previous.chains, d in current.chains)
    ensures Anchorings(previous, current, [c, d]) ==
            AnchorRestore(c, c in previous.anchors, c in current.anchors) + AnchorRestore(d, d in previous.anchors, d in current.anchors)
    ensures Refills(previous, current, rules, [c, d]) ==
            ChainRestore(c, c in previous.chains, c in current.chains, rules) + ChainRestore(d, d in previous.chains, d in current.chains, rules)
  {
    OneChain(previous, current, rules, d);
    assert [c, d][1..] == [d];
  }

  lemma OneChain(previous: IptState, current: IptState, rules: seq<Line>, c: OwnedChain)
    ensures Declares(previous, current, [c]) == DeclareRestore(c, c in previous.chains, c in current.chains)
    ensures Anchorings(previous, current, [c]) == AnchorRestore(c, c in previous.anchors, c in current.anchors)
    ensures Refills(previous, current, rules, [c]) == ChainRestore(c, c in previous.chains, c in current.chains, rules)
  {
    assert [c][1..] == [];
  }

  lemma Regroup(a: seq<Command>, b: seq<Command>, c: seq<Command>, d: seq<Command>, e: seq<Command>, f: seq<Command>)
    ensures [] + a + b + c + d + e + f == (a + b) + (c + d) + (e + f)
  {
  }

  /** The undo script is written step by step from the snapshot and the inspected present. */
  method BuildIPTablesRollback(previous: IptState, current: IptState) returns (s: Script)
    ensures s == RollbackOf(previous, current)
  {
    var nat_ := WriteNatRollback(previous, current);
    var filter := WriteFilterRollback(previous, current);
    s := Script(nat_, filter);
  }

  method WriteNatRollback(previous: IptState, current: IptState) returns (output: seq<Command>)
    ensures output == TableRollback(NatTable, previous, current)
  {
    var c, d := EgmPrerouting, EgmPostrouting;
    output := WriteDeclaration([], c, c in previous.chains, c in current.chains);
    output := WriteDeclaration(output, d, d in previous.chains, d in current.chains);
    output := WriteAnchorRestore(output, c, c in previous.anchors, c in current.anchors);
    output := WriteAnchorRestore(output, d, d in previous.anchors, d in current.anchors);
    output := WriteChainRestore(output, c, c in previous.chains, c in current.chains, previous.natRules);
    output := WriteChainRestore(output, d, d in previous.chains, d in current.chains, previous.natRules);
    TwoChains(previous, current, previous.natRules, c, d);
    Regroup(DeclareRestore(c, c in previous.chains, c in current.chains), DeclareRestore(d, d in previous.chains, d in current.chains),
      AnchorRestore(c, c in previous.anchors, c in current.anchors), AnchorRestore(d, d in previous.anchors, d in current.anchors),
      ChainRestore(c, c in previous.chains, c in current.chains, previous.natRules),
      ChainRestore(d, d in previous.chains, d in current.chains, previous.natRules));
  }

  method WriteFilterRollback(previous: IptState, current: IptState) returns (output: seq<Command>)
    ensures output == TableRollback(FilterTable, previous, current)
  {
    var c := EgmForward;
    output := WriteDeclaration([], c, c in previous.chains, c in current.chains);
    output := WriteAnchorRestore(output, c, c in previous.anchors, c in current.anchors);
    output := WriteChainRestore(output, c, c in previous.chains, c in current.chains, previous.filterRules);
    OneChain(previous, current, previous.filterRules, c);
    Associate([], DeclareRestore(c, c in previous.chains, c in current.chains), AnchorRestore(c, c in previous.anchors, c in current.anchors));
  }

  // ---------------------------------------------------------------- one block at a time

  /** Outside `keys` the tables are the same. */
  ghost predicate OnlyAt(before: Table, after: Table, key: Chain) {
    && (forall k: Chain | k != key :: k in before <==> k in after)
    && (forall k: Chain | k != key && k in before :: after[k] == before[k])
  }

  ghost predicate Succeeds(clears: bool, cmds: seq<Command>, before: Table, after: Table) {
    Run(clears, cmds, before) == Some(after)
  }

  lemma Then(clears: bool, a: seq<Command>, b: seq<Command>, t: Table, u: Table, v: Table)
    requires Succeeds(clears, a, t, u) && Succeeds(clears, b, u, v)
    ensures Succeeds(clears, a + b, t, v)
  {
    RunAppend(clears, a, b, t);
  }

  /** The rules of an owned chain after its declaration. */
  function Declared(clears: bool, t: Table, c: OwnedChain): seq<WorldRule> {
    if clears || Owned(c) !in t then [] else t[Owned(c)]
  }

  lemma DeclareBlock(clears: bool, table: IptTable, c: OwnedChain, previous: bool, t: Table) returns (u: Table)
    requires WellFormed(table, t) && InTable(table, c)
    ensures Succeeds(clears, DeclareRestore(c, previous, Owned(c) in t), t, u)
    ensures WellFormed(table, u) && OnlyAt(t, u, Owned(c))
    ensures Owned(c) in u <==> previous || Owned(c) in t
    ensures Owned(c) in u ==> u[Owned(c)] == Declared(clears, t, c)
  {
    if previous || Owned(c) in t {
      RunOne(clears, Declare(Owned(c)), t);
      u := Exec(clears, Declare(Owned(c)), t).value;
    } else {
      u := t;
    }
  }

  /** The rules of a hook once its anchor is wanted or not. */
  function Hook(rules: seq<WorldRule>, c: OwnedChain, wanted: bool): seq<WorldRule> {
    if AnchorCount(rules, c) > 0 then (if wanted then rules else RemoveFirst(rules, Bare(c)))
    else if wanted then [Bare(c)] + rules
    else rules
  }

  /** Among the chains of others only the hooks of the listed chains changed, and only by their anchors. */
  ghost predicate Hooked(before: Table, after: Table, wanted: set<OwnedChain>, cs: seq<OwnedChain>) {
    && (forall k: Chain | !k.Owned? :: k in before <==> k in after)
    && (forall c | c in cs && Home(c) in before :: after[Home(c)] == Hook(before[Home(c)], c, c in wanted))
    && (forall k: Chain | !k.Owned? && k in before && (forall c | c in cs :: Home(c) != k) :: after[k] == before[k])
  }

  lemma AnchorBlock(clears: bool, table: IptTable, c: OwnedChain, previous: bool, t: Table) returns (u: Table)
    requires WellFormed(table, t) && InTable(table, c) && (previous ==> Owned(c) in t)
    requires AnchoredIn(t, c) && !previous ==> Bare(c) in t[Home(c)]
    ensures Succeeds(clears, AnchorRestore(c, previous, AnchoredIn(t, c)), t, u)
    ensures WellFormed(table, u) && OnlyAt(t, u, Home(c)) && Home(c) in u
    ensures SameStrangers(t, u)
    ensures AnchoredIn(u, c) == previous && u[Home(c)] == Hook(t[Home(c)], c, previous)
    ensures forall d | d != c :: AnchoredIn(u, d) == AnchoredIn(t, d)
  {
    var h := Home(c);
    if AnchoredIn(t, c) && !previous {
      RemoveAnchor(t[h], c);
      RunOne(clears, Delete(h, Bare(c)), t);
      u := t[h := RemoveFirst(t[h], Bare(c))];
      RemovalKeepsForm(table, c, t[h]);
      ReplaceChain(table, t, h, u[h]);
    } else if previous && !AnchoredIn(t, c) {
      PrependAnchor(t[h], c);
      RunOne(clears, InsertFirst(h, Bare(c)), t);
      u := t[h := [Bare(c)] + t[h]];
      InsertionKeepsForm(table, c, t[h]);
      ReplaceChain(table, t, h, u[h]);
    } else {
      u := t;
    }
  }

  lemma RemovalKeepsForm(table: IptTable, c: OwnedChain, rules: seq<WorldRule>)
    requires ChainOk(table, Home(c), rules) && InTable(table, c) && Bare(c) in rules
    ensures ChainOk(table, Home(c), RemoveFirst(rules, Bare(c)))
  {
    RemoveAnchor(rules, c);
    var rest := RemoveFirst(rules, Bare(c));
    assert forall d | InTable(table, d) :: AnchorCount(rest, d) <= AnchorCount(rules, d);
    FewerJumps(table, Home(c), rules, rest);
  }

  lemma FewerJumps(table: IptTable, k: Chain, rules: seq<WorldRule>, rest: seq<WorldRule>)
    requires JumpsAreAnchors(table, k, rules)
    requires forall r | r in rest :: r in rules
    ensures JumpsAreAnchors(table, k, rest)
  {
    forall i | 0 <= i < |rest| && JumpTarget(rest[i]).Some? ensures IsAnchor(table, k, rest[i]) {
      assert rest[i] in rest;
      var j :| 0 <= j < |rules| && rules[j] == rest[i];
    }
  }

  lemma InsertionKeepsForm(table: IptTable, c: OwnedChain, rules: seq<WorldRule>)
    requires ChainOk(table, Home(c), rules) && InTable(table, c) && AnchorCount(rules, c) == 0
    ensures ChainOk(table, Home(c), [Bare(c)] + rules)
  {
    PrependAnchor(rules, c);
    OneMoreJump(table, c, rules);
  }

  lemma OneMoreJump(table: IptTable, c: OwnedChain, rules: seq<WorldRule>)
    requires JumpsAreAnchors(table, Home(c), rules) && InTable(table, c)
    ensures JumpsAreAnchors(table, Home(c), [Bare(c)] + rules)
  {
    var more := [Bare(c)] + rules;
    assert more[0] == Bare(c);
    assert forall i | 0 < i < |more| :: more[i] == rules[i - 1];
  }

  lemma {:induction false} OnlyChainMeaning(lines: seq<Line>, c: OwnedChain)
    ensures InChain(OnlyChain(lines, c), c) == InChain(lines, c)
    ensures forall i | 0 <= i < |OnlyChain(lines, c)| :: OnlyChain(lines, c)[i].chain == c
    ensures forall d | d != c :: InChain(OnlyChain(lines, c), d) == []
  {
    if lines != [] {
      OnlyChainMeaning(lines[1..], c);
      var rest := OnlyChain(lines[1..], c);
      if lines[0].chain == c {
        assert ([lines[0]] + rest)[1..] == rest;
      } else {
        assert OnlyChain(lines, c) == rest && InChain(lines, c) == InChain(lines[1..], c);
      }
    }
  }

  /** No rule of an owned chain leads to this one, those of some chains aside. */
  ghost predicate NoLeads(t: Table, c: OwnedChain, aside: set<OwnedChain>) {
    forall d: OwnedChain | Owned(d) in t && d !in aside :: forall i | 0 <= i < |t[Owned(d)]| :: !JumpsTo(t[Owned(d)][i], c)
  }

  /** Wherever one of the rules leads, the chain is there. */
  predicate LeadsThere(lines: seq<Line>, t: Table) {
    forall i | 0 <= i < |lines| :: TargetExists(t, Own(lines[i].rule))
  }

  lemma ChainBlock(clears: bool, table: IptTable, c: OwnedChain, previous: bool, current: bool, rules: seq<Line>, t: Table) returns (u: Table)
    requires WellFormed(table, t) && InTable(table, c)
    requires Owned(c) in t <==> previous || current
    requires previous && !current ==> t[Owned(c)] == []
    requires !previous ==> !AnchoredIn(t, c) && (current ==> !GoneTo(t, c) && NoLeads(t, c, {c}))
    requires previous ==> LeadsThere(rules, t)
    ensures Succeeds(clears, ChainRestore(c, previous, current, rules), t, u)
    ensures WellFormed(table, u) && OnlyAt(t, u, Owned(c))
    ensures Owned(c) in u <==> previous
    ensures previous ==> u[Owned(c)] == Wrap(InChain(rules, c))
  {
    var k := Owned(c);
    var flush := if current then [Flush(k)] else [];
    var v := if current then t[k := []] else t;
    if current {
      RunOne(clears, Flush(k), t);
      ReplaceChain(table, t, k, []);
    }
    if previous {
      u := v[k := Wrap(InChain(rules, c))];
      assert LeadsThere(rules, v);
      AppendsFill(clears, c, rules, v);
      OwnRulesAreOk(table, c, InChain(rules, c));
      ReplaceChain(table, v, k, u[k]);
      Then(clears, flush, AppendCommands(OnlyChain(rules, c)), t, v, u);
    } else if current {
      UnanchoredIsUnreferenced(table, c, v);
      RunOne(clears, DeleteChain(k), v);
      u := v - {k};
      Then(clears, flush, [DeleteChain(k)], t, v, u);
    } else {
      u := v;
      Then(clears, flush, [], t, v, u);
    }
  }

  lemma OwnRulesAreOk(table: IptTable, c: OwnedChain, rules: seq<Rule>)
    requires InTable(table, c)
    ensures ChainOk(table, Owned(c), Wrap(rules))
  {
    forall d | InTable(table, d) ensures AnchorCount(Wrap(rules), d) <= 1 {
      AnchorCountZero(Wrap(rules), d);
    }
  }

  lemma AppendsFill(clears: bool, c: OwnedChain, rules: seq<Line>, t: Table)
    requires Owned(c) in t && t[Owned(c)] == [] && LeadsThere(rules, t)
    ensures Run(clears, AppendCommands(OnlyChain(rules, c)), t) == Some(t[Owned(c) := Wrap(InChain(rules, c))])
  {
    OnlyChainMeaning(rules, c);
    OnlyChainLeads(rules, c, t);
    RunAppends(clears, OnlyChain(rules, c), t);
    var u := Run(clears, AppendCommands(OnlyChain(rules, c)), t).value;
    assert [] + Wrap(InChain(rules, c)) == Wrap(InChain(rules, c));
    forall d: OwnedChain | d != c && Owned(d) in t ensures u[Owned(d)] == t[Owned(d)] {
      assert Wrap(InChain(OnlyChain(rules, c), d)) == [];
      assert t[Owned(d)] + [] == t[Owned(d)];
    }
    assert u == t[Owned(c) := Wrap(InChain(rules, c))];
  }

  lemma {:induction false} OnlyChainLeads(lines: seq<Line>, c: OwnedChain, t: Table)
    requires LeadsThere(lines, t)
    ensures LeadsThere(OnlyChain(lines, c), t)
  {
    if lines != [] {
      OnlyChainLeads(lines[1..], c, t);
    }
  }

  lemma UnanchoredIsUnreferenced(table: IptTable, c: OwnedChain, t: Table)
    requires WellFormed(table, t) && InTable(table, c) && !AnchoredIn(t, c) && !GoneTo(t, c) && NoLeads(t, c, {})
    ensures !Referenced(t, c)
  {
    AnchorCountZero(t[Home(c)], c);
    forall k: Chain, r | k in t && r in t[k] ensures !JumpsTo(r, c) {
      var i :| 0 <= i < |t[k]| && t[k][i] == r;
      assert !k.Owned? && JumpTarget(r).Some? ==> IsAnchor(table, k, t[k][i]);
    }
  }

  // ---------------------------------------------------------------- the whole undo script

  /** The rule leads to no owned chain but one of these, of its own table. */
  predicate LeadInside(table: IptTable, r: Rule, chains: set<OwnedChain>) {
    Lead(r).Some? && Lead(r).value.Owned? ==> InTable(table, Lead(r).value.chain) && Lead(r).value.chain in chains
  }

  predicate LeadsInside(table: IptTable, lines: seq<Line>, chains: set<OwnedChain>) {
    forall i | 0 <= i < |lines| :: LeadInside(table, lines[i].rule, chains)
  }

  /** An owned state that inspection can produce: on its host, rules led to chains that were there. */
  predicate ValidState(s: IptState) {
    && LeadsInside(NatTable, s.natRules, s.chains) && LeadsInside(FilterTable, s.filterRules, s.chains)
    && s.anchors <= s.chains
    && (forall i | 0 <= i < |s.natRules| :: InTable(NatTable, s.natRules[i].chain) && s.natRules[i].chain in s.chains)
    && (forall i | 0 <= i < |s.filterRules| :: InTable(FilterTable, s.filterRules[i].chain) && s.filterRules[i].chain in s.chains)
  }

  /** Chain by chain, the owned part of the table is the one recorded in the state. */
  ghost predicate Matches(table: IptTable, t: Table, s: IptState) {
    forall c | InTable(table, c) ::
      && (Owned(c) in t <==> c in s.chains)
      && (Owned(c) in t ==> t[Owned(c)] == Wrap(InChain(RulesOf(s, table), c)))
      && (AnchoredIn(t, c) <==> c in s.anchors)
  }

  /** The listed chains are owned chains of this table, each listed once. */
  ghost predicate Listing(table: IptTable, cs: seq<OwnedChain>) {
    && (forall i | 0 <= i < |cs| :: InTable(table, cs[i]))
    && (forall i, j | 0 <= i < j < |cs| :: cs[i] != cs[j])
  }

  lemma ListingTail(table: IptTable, cs: seq<OwnedChain>)
    requires Listing(table, cs) && cs != []
    ensures Listing(table, cs[1..]) && cs[0] !in cs[1..] && InTable(table, cs[0])
    ensures forall c :: c in cs <==> c == cs[0] || c in cs[1..]
  {
    assert cs == [cs[0]] + cs[1..];
  }

  /** The two tables agree on every owned chain outside the list, and on all of them agree about the chains of others. */
  ghost predicate OnlyChains(before: Table, after: Table, cs: seq<OwnedChain>) {
    forall k: Chain | !(k.Owned? && k.chain in cs) :: (k in before <==> k in after) && (k in before ==> after[k] == before[k])
  }

  lemma {:induction false} DeclareBlocks(clears: bool, table: IptTable, previous: IptState, current: IptState, cs: seq<OwnedChain>, t: Table)
    returns (u: Table)
    requires WellFormed(table, t) && Listing(table, cs)
    requires forall c | c in cs :: c in current.chains <==> Owned(c) in t
    ensures Succeeds(clears, Declares(previous, current, cs), t, u)
    ensures WellFormed(table, u) && OnlyChains(t, u, cs)
    ensures forall c | c in cs :: Owned(c) in u <==> c in previous.chains || Owned(c) in t
    ensures forall c | c in cs && Owned(c) in u :: u[Owned(c)] == Declared(clears, t, c)
    decreases |cs|
  {
    if cs == [] {
      u := t;
    } else {
      ListingTail(table, cs);
      var v := DeclareBlock(clears, table, cs[0], cs[0] in previous.chains, t);
      u := DeclareBlocks(clears, table, previous, current, cs[1..], v);
      Then(clears, DeclareRestore(cs[0], cs[0] in previous.chains, cs[0] in current.chains), Declares(previous, current, cs[1..]), t, v, u);
    }
  }

  lemma HookedFirst(t: Table, v: Table, u: Table, wanted: set<OwnedChain>, table: IptTable, cs: seq<OwnedChain>)
    requires Listing(table, cs) && cs != [] && OnlyAt(t, v, Home(cs[0])) && Home(cs[0]) in t && Home(cs[0]) in v
    requires v[Home(cs[0])] == Hook(t[Home(cs[0])], cs[0], cs[0] in wanted)
    requires Hooked(v, u, wanted, cs[1..])
    ensures Hooked(t, u, wanted, cs)
  {
    ListingTail(table, cs);
    var h := Home(cs[0]);
    assert forall c | c in cs[1..] :: Home(c) != h;
    assert u[h] == v[h];
  }

  /** Every anchor that the undo has to remove is as this program writes it. */
  ghost predicate RemovesBare(table: IptTable, previous: IptState, t: Table) {
    forall c | InTable(table, c) && AnchoredIn(t, c) && c !in previous.anchors :: Bare(c) in t[Home(c)]
  }

  lemma {:induction false} AnchorBlocks(clears: bool, table: IptTable, previous: IptState, current: IptState, cs: seq<OwnedChain>, t: Table)
    returns (u: Table)
    requires WellFormed(table, t) && Listing(table, cs)
    requires forall c | c in cs :: (c in current.anchors <==> AnchoredIn(t, c)) && (c in previous.anchors ==> Owned(c) in t)
    requires RemovesBare(table, previous, t)
    ensures Succeeds(clears, Anchorings(previous, current, cs), t, u)
    ensures WellFormed(table, u) && SameStrangers(t, u) && Hooked(t, u, previous.anchors, cs)
    ensures forall c :: Owned(c) in t <==> Owned(c) in u
    ensures forall c | Owned(c) in t :: u[Owned(c)] == t[Owned(c)]
    ensures forall c | c in cs :: AnchoredIn(u, c) <==> c in previous.anchors
    ensures forall c | c !in cs :: AnchoredIn(u, c) <==> AnchoredIn(t, c)
    decreases |cs|
  {
    if cs == [] {
      u := t;
    } else {
      ListingTail(table, cs);
      var c := cs[0];
      var v := AnchorBlock(clears, table, c, c in previous.anchors, t);
      u := AnchorBlocks(clears, table, previous, current, cs[1..], v);
      Then(clears, AnchorRestore(c, c in previous.anchors, c in current.anchors), Anchorings(previous, current, cs[1..]), t, v, u);
      HookedFirst(t, v, u, previous.anchors, table, cs);
      StrangersTwice(t, v, u);
    }
  }

  lemma StrangersTwice(t: Table, v: Table, u: Table)
    requires SameStrangers(t, v) && SameStrangers(v, u)
    ensures SameStrangers(t, u)
  {
  }

  /** Every chain that is not owned is literally the same. */
  ghost predicate SameOthers(t: Table, u: Table) {
    forall k: Chain | !k.Owned? :: (k in t <==> k in u) && (k in t ==> u[k] == t[k])
  }

  lemma HookedAround(t: Table, v: Table, w: Table, u: Table, wanted: set<OwnedChain>, cs: seq<OwnedChain>)
    requires SameOthers(t, v) && Hooked(v, w, wanted, cs) && SameOthers(w, u)
    ensures Hooked(t, u, wanted, cs)
  {
  }

  function Members(cs: seq<OwnedChain>): set<OwnedChain> {
    set c | c in cs
  }

  /** When a chain's turn to be deleted comes, no rule of an owned chain whose own turn has not come leads to it. */
  ghost predicate FreeInTurn(previous: IptState, current: IptState, cs: seq<OwnedChain>, t: Table) {
    forall i | 0 <= i < |cs| && cs[i] in current.chains && cs[i] !in previous.chains :: NoLeads(t, cs[i], Members(cs[..i + 1]))
  }

  lemma {:induction false} InChainLeads(table: IptTable, lines: seq<Line>, chains: set<OwnedChain>, c: OwnedChain)
    requires LeadsInside(table, lines, chains)
    ensures forall i | 0 <= i < |InChain(lines, c)| :: LeadInside(table, InChain(lines, c)[i], chains)
  {
    if lines != [] {
      InChainLeads(table, lines[1..], chains, c);
      assert LeadInside(table, lines[0].rule, chains);
    }
  }

  /** Once the first chain is refilled with recorded rules, or gone, the others are still free in turn. */
  lemma FreeLater(table: IptTable, previous: IptState, current: IptState, rules: seq<Line>, cs: seq<OwnedChain>, t: Table, u: Table)
    requires Listing(table, cs) && cs != [] && FreeInTurn(previous, current, cs, t) && OnlyAt(t, u, Owned(cs[0]))
    requires LeadsInside(table, rules, previous.chains) && (Owned(cs[0]) in u ==> u[Owned(cs[0])] == Wrap(InChain(rules, cs[0])))
    ensures FreeInTurn(previous, current, cs[1..], u)
  {
    InChainLeads(table, rules, previous.chains, cs[0]);
    forall i, d: OwnedChain | 0 <= i < |cs[1..]| && cs[1..][i] in current.chains && cs[1..][i] !in previous.chains
        && Owned(d) in u && d !in Members(cs[1..][..i + 1])
      ensures forall n | 0 <= n < |u[Owned(d)]| :: !JumpsTo(u[Owned(d)][n], cs[1..][i])
    {
      assert cs[..i + 2] == [cs[0]] + cs[1..][..i + 1];
      assert NoLeads(t, cs[i + 1], Members(cs[..i + 2]));
      if d == cs[0] {
        assert forall n | 0 <= n < |u[Owned(d)]| :: LeadInside(table, InChain(rules, cs[0])[n], previous.chains);
      } else {
        assert d !in Members(cs[..i + 2]);
      }
    }
  }

  lemma StillThere(table: IptTable, rules: seq<Line>, chains: set<OwnedChain>, c: OwnedChain, t: Table, u: Table)
    requires LeadsInside(table, rules, chains) && LeadsThere(rules, t) && OnlyAt(t, u, Owned(c)) && (c in chains ==> Owned(c) in u)
    ensures LeadsThere(rules, u)
  {
    forall i | 0 <= i < |rules| ensures TargetExists(u, Own(rules[i].rule)) {
      assert TargetExists(t, Own(rules[i].rule)) && LeadInside(table, rules[i].rule, chains);
    }
  }

  lemma {:induction false} ChainBlocks(clears: bool, table: IptTable, previous: IptState, current: IptState, rules: seq<Line>, cs: seq<OwnedChain>, t: Table)
    returns (u: Table)
    requires WellFormed(table, t) && Listing(table, cs)
    requires forall c | c in cs :: Owned(c) in t <==> c in previous.chains || c in current.chains
    requires forall c | c in cs && c in previous.chains && c !in current.chains :: t[Owned(c)] == []
    requires forall c | c in cs && c !in previous.chains :: !AnchoredIn(t, c) && (c in current.chains ==> !GoneTo(t, c))
    requires LeadsInside(table, rules, previous.chains) && LeadsThere(rules, t) && FreeInTurn(previous, current, cs, t)
    ensures Succeeds(clears, Refills(previous, current, rules, cs), t, u)
    ensures WellFormed(table, u) && OnlyChains(t, u, cs)
    ensures forall c | c in cs :: Owned(c) in u <==> c in previous.chains
    ensures forall c | c in cs && c in previous.chains :: u[Owned(c)] == Wrap(InChain(rules, c))
    decreases |cs|
  {
    if cs == [] {
      u := t;
    } else {
      ListingTail(table, cs);
      var c := cs[0];
      var v := ChainBlock(clears, table, c, c in previous.chains, c in current.chains, rules, t);
      SameGotosAt(t, v, c);
      FreeLater(table, previous, current, rules, cs, t, v);
      StillThere(table, rules, previous.chains, c, t, v);
      u := ChainBlocks(clears, table, previous, current, rules, cs[1..], v);
      Then(clears, ChainRestore(c, c in previous.chains, c in current.chains, rules), Refills(previous, current, rules, cs[1..]), t, v, u);
    }
  }

  lemma SameGotosAt(t: Table, u: Table, c: OwnedChain)
    requires OnlyAt(t, u, Owned(c))
    ensures forall d :: GoneTo(t, d) <==> GoneTo(u, d)
  {
    forall d ensures GoneTo(t, d) <==> GoneTo(u, d) {
      SameGotos(t, u, d);
    }
  }

  /** `current` records which chains and anchors the table has. */
  ghost predicate Records(table: IptTable, t: Table, s: IptState) {
    forall c | InTable(table, c) :: (c in s.chains <==> Owned(c) in t) && (c in s.anchors <==> AnchoredIn(t, c))
  }

  /** No foreign rule goes to a chain that the undo has to delete. */
  ghost predicate Disposable(table: IptTable, previous: IptState, t: Table) {
    forall c | InTable(table, c) && Owned(c) in t && c !in previous.chains :: !GoneTo(t, c)
  }

  /** The chains of others that recorded rules lead to are there. */
  predicate LeadsKnown(table: IptTable, previous: IptState, t: Table) {
    forall i | 0 <= i < |RulesOf(previous, table)| :: LeadKnown(RulesOf(previous, table)[i].rule, t)
  }

  predicate LeadKnown(r: Rule, t: Table) {
    Lead(r).Some? && !Lead(r).value.Owned? ==> Lead(r).value in t
  }

  /** The script is done with the first chain before it flushes the second. */
  predicate Ahead(c: OwnedChain, d: OwnedChain) {
    c == EgmPrerouting && d == EgmPostrouting
  }

  /** Unless declaring clears, no rule of a chain that is flushed later leads to one that is deleted earlier. */
  ghost predicate InTurn(clears: bool, previous: IptState, t: Table) {
    !clears ==> forall c, d | Ahead(c, d) && Owned(c) in t && Owned(d) in t && c !in previous.chains ::
      forall i | 0 <= i < |t[Owned(d)]| :: !JumpsTo(t[Owned(d)][i], c)
  }

  /** When the undo of a table goes through. */
  ghost predicate Undoes(clears: bool, table: IptTable, previous: IptState, t: Table) {
    Disposable(table, previous, t) && RemovesBare(table, previous, t) && LeadsKnown(table, previous, t) && InTurn(clears, previous, t)
  }

  lemma DeclaredIsFree(clears: bool, table: IptTable, previous: IptState, current: IptState, t: Table, u: Table)
    requires WellFormed(table, u) && Records(table, t, current) && InTurn(clears, previous, t)
    requires forall c | InTable(table, c) && Owned(c) in u :: u[Owned(c)] == Declared(clears, t, c)
    ensures FreeInTurn(previous, current, OwnedOrder(true, table), u)
  {
    var cs := OwnedOrder(true, table);
    assert cs[..1] == [cs[0]] && (table == NatTable ==> cs[..2] == [EgmPrerouting, EgmPostrouting]);
    assert table == NatTable ==> [EgmPrerouting, EgmPostrouting][0] == EgmPrerouting && [EgmPrerouting, EgmPostrouting][1] == EgmPostrouting;
    forall i, d: OwnedChain | 0 <= i < |cs| && cs[i] in current.chains && cs[i] !in previous.chains && Owned(d) in u && d !in Members(cs[..i + 1])
      ensures forall n | 0 <= n < |u[Owned(d)]| :: !JumpsTo(u[Owned(d)][n], cs[i])
    {
      assert ChainOk(table, Owned(d), u[Owned(d)]);
    }
  }

  lemma DeclaredIsLed(table: IptTable, previous: IptState, t: Table, u: Table)
    requires ValidState(previous) && LeadsKnown(table, previous, t)
    requires forall k: Chain | !k.Owned? && k in t :: k in u
    requires forall c | InTable(table, c) && c in previous.chains :: Owned(c) in u
    ensures LeadsThere(RulesOf(previous, table), u)
  {
    forall i | 0 <= i < |RulesOf(previous, table)| ensures TargetExists(u, Own(RulesOf(previous, table)[i].rule)) {
      assert LeadKnown(RulesOf(previous, table)[i].rule, t) && LeadInside(table, RulesOf(previous, table)[i].rule, previous.chains);
    }
  }

  lemma RestoreTable(clears: bool, table: IptTable, previous: IptState, current: IptState, t: Table) returns (u: Table)
    requires WellFormed(table, t) && ValidState(previous) && Records(table, t, current) && Undoes(clears, table, previous, t)
    ensures Succeeds(clears, TableRollback(table, previous, current), t, u)
    ensures WellFormed(table, u) && Matches(table, u, previous) && SameStrangers(t, u)
    ensures Hooked(t, u, previous.anchors, OwnedOrder(true, table))
  {
    var cs, rules := OwnedOrder(true, table), RulesOf(previous, table);
    assert forall c :: c in cs <==> InTable(table, c);
    var w := RestoreHooks(clears, table, previous, current, t);
    u := ChainBlocks(clears, table, previous, current, rules, cs, w);
    var a, b, d := Declares(previous, current, cs), Anchorings(previous, current, cs), Refills(previous, current, rules, cs);
    Then(clears, a + b, d, t, w, u);
    SameHooks(w, u, cs);
    StrangersTwice(t, w, u);
    HookedAround(t, t, w, u, previous.anchors, cs);
  }

  /** The first two parts of the script: declarations and anchors. */
  lemma RestoreHooks(clears: bool, table: IptTable, previous: IptState, current: IptState, t: Table) returns (w: Table)
    requires WellFormed(table, t) && ValidState(previous) && Records(table, t, current) && Undoes(clears, table, previous, t)
    ensures var cs := OwnedOrder(true, table); Succeeds(clears, Declares(previous, current, cs) + Anchorings(previous, current, cs), t, w)
    ensures WellFormed(table, w) && SameStrangers(t, w) && Hooked(t, w, previous.anchors, OwnedOrder(true, table))
    ensures forall c | InTable(table, c) :: (Owned(c) in w <==> c in previous.chains || c in current.chains) && (AnchoredIn(w, c) <==> c in previous.anchors)
    ensures forall c | InTable(table, c) && Owned(c) in w && c !in current.chains :: w[Owned(c)] == []
    ensures forall c | InTable(table, c) && Owned(c) in t && c !in previous.chains :: !GoneTo(w, c)
    ensures LeadsThere(RulesOf(previous, table), w) && FreeInTurn(previous, current, OwnedOrder(true, table), w)
  {
    var cs := OwnedOrder(true, table);
    assert forall c :: c in cs <==> InTable(table, c);
    var v := DeclareBlocks(clears, table, previous, current, cs, t);
    SameHooks(t, v, cs);
    w := AnchorBlocks(clears, table, previous, current, cs, v);
    Then(clears, Declares(previous, current, cs), Anchorings(previous, current, cs), t, v, w);
    forall c ensures GoneTo(w, c) <==> GoneTo(t, c) {
      SameGotos(t, v, c);
      SameGotos(v, w, c);
    }
    DeclaredIsFree(clears, table, previous, current, t, w);
    DeclaredIsLed(table, previous, t, w);
    StrangersTwice(t, v, w);
    HookedAround(t, v, w, w, previous.anchors, cs);
  }

  lemma SameHooks(t: Table, u: Table, cs: seq<OwnedChain>)
    requires OnlyChains(t, u, cs)
    ensures SameStrangers(t, u) && SameOthers(t, u)
    ensures forall c :: AnchoredIn(u, c) <==> AnchoredIn(t, c)
  {
  }

  lemma StateRecords(preFirst: bool, w: World)
    ensures Records(NatTable, w.nat_, StateOf(preFirst, w)) && Records(FilterTable, w.filter, StateOf(preFirst, w))
  {
  }

  /**
   * The undo script is an exact inverse: on every host that inspection accepts and for every earlier owned state it
   * runs without error exactly if no foreign rule goes to a chain it has to delete, every anchor it has to remove is
   * bare, the chains of others that recorded rules lead to are there, and, unless declaring clears, no rule of a chain
   * flushed later leads to one deleted earlier. It then rebuilds that state chain by chain, and leaves the rules of
   * others and their order alone.
   */
  lemma RollbackRestores(clears: bool, preFirst: bool, previous: IptState, w: World)
    requires WellFormedWorld(w) && ValidState(previous)
    ensures RunScript(clears, RollbackOf(previous, StateOf(preFirst, w)), w).1 <==>
            Undoes(clears, NatTable, previous, w.nat_) && Undoes(clears, FilterTable, previous, w.filter)
    ensures var (w', ok) := RunScript(clears, RollbackOf(previous, StateOf(preFirst, w)), w);
      ok ==>
        && WellFormedWorld(w')
        && Matches(NatTable, w'.nat_, previous) && Matches(FilterTable, w'.filter, previous)
        && SameStrangers(w.nat_, w'.nat_) && SameStrangers(w.filter, w'.filter)
  {
    StateRecords(preFirst, w);
    var current := StateOf(preFirst, w);
    if !Undoes(clears, NatTable, previous, w.nat_) {
      UndoFails(clears, NatTable, previous, current, w.nat_);
    } else if !Undoes(clears, FilterTable, previous, w.filter) {
      UndoFails(clears, FilterTable, previous, current, w.filter);
    } else {
      var n := RestoreTable(clears, NatTable, previous, current, w.nat_);
      var f := RestoreTable(clears, FilterTable, previous, current, w.filter);
      ScriptOf(clears, RollbackOf(previous, current), w, n, f);
    }
  }

  lemma ScriptOf(clears: bool, s: Script, w: World, n: Table, f: Table)
    requires Succeeds(clears, s.nat_, w.nat_, n) && Succeeds(clears, s.filter, w.filter, f)
    ensures RunScript(clears, s, w) == (World(n, f), true)
  {
  }

  // ---------------------------------------------------------------- what stops the undo

  /**
   * What a command can run into: a foreign rule that goes to the chain to delete, no bare anchor to remove, no chain
   * for a rule to lead to, or a rule of another owned chain that leads to the chain to delete.
   */
  datatype Obstacle = GotoRule(c: OwnedChain) | NoBare(c: OwnedChain) | NoTarget(k: Chain) | LedFrom(c: OwnedChain, d: OwnedChain)

  ghost predicate Present(ob: Obstacle, t: Table) {
    match ob
    case GotoRule(c) => GoneTo(t, c)
    case NoBare(c) => Home(c) in t ==> Bare(c) !in t[Home(c)]
    case NoTarget(k) => !k.Owned? && k !in t
    case LedFrom(c, d) => Owned(d) in t && exists i | 0 <= i < |t[Owned(d)]| :: JumpsTo(t[Owned(d)][i], c)
  }

  predicate Blocks(ob: Obstacle, cmd: Command) {
    match ob
    case GotoRule(c) => cmd == DeleteChain(Owned(c))
    case NoBare(c) => cmd == Delete(Home(c), Bare(c))
    case NoTarget(k) => cmd.Append? && cmd.rule.Own? && Lead(cmd.rule.rule) == Some(k)
    case LedFrom(c, d) => cmd == DeleteChain(Owned(c))
  }

  /** A command that outside the owned chains touches anchors only. */
  predicate Spares(cmd: Command) {
    match cmd
    case Declare(k) => k.Owned?
    case Flush(k) => k.Owned?
    case Append(k, _) => k.Owned?
    case InsertFirst(k, _) => !k.Owned?
    case Delete(k, r) => !k.Owned? && r.Anchor?
    case DeleteChain(k) => k.Owned?
  }

  /** A command that does not clear the obstacle away. */
  predicate Leaves(clears: bool, ob: Obstacle, cmd: Command) {
    && Spares(cmd)
    && (ob.NoBare? ==> cmd != InsertFirst(Home(ob.c), Bare(ob.c)))
    && (ob.LedFrom? ==> !clears && cmd != Flush(Owned(ob.d)) && cmd != DeleteChain(Owned(ob.d)))
  }

  lemma {:induction false} OthersSurvive(rules: seq<WorldRule>, gone: WorldRule, r: WorldRule)
    requires r in rules && r != gone
    ensures r in RemoveFirst(rules, gone)
  {
    if rules[0] != gone && rules[0] != r {
      OthersSurvive(rules[1..], gone, r);
    }
  }

  lemma {:induction false} NoneAdded(rules: seq<WorldRule>, gone: WorldRule, r: WorldRule)
    requires r !in rules
    ensures r !in RemoveFirst(rules, gone)
  {
    if rules != [] && rules[0] != gone {
      NoneAdded(rules[1..], gone, r);
    }
  }

  lemma ObstacleStays(clears: bool, ob: Obstacle, cmd: Command, t: Table)
    requires Present(ob, t) && Leaves(clears, ob, cmd) && Exec(clears, cmd, t).Some?
    ensures Present(ob, Exec(clears, cmd, t).value)
  {
    match ob
    case GotoRule(c) =>
      GotoStays(clears, cmd, t, c);
    case NoBare(c) =>
      if cmd.Delete? && cmd.chain == Home(c) {
        NoneAdded(t[Home(c)], cmd.rule, Bare(c));
      }
    case NoTarget(k) =>
    case LedFrom(c, d) =>
      LeadStays(cmd, t, c, d);
  }

  lemma GotoStays(clears: bool, cmd: Command, t: Table, c: OwnedChain)
    requires Spares(cmd) && GoneTo(t, c) && Exec(clears, cmd, t).Some?
    ensures GoneTo(Exec(clears, cmd, t).value, c)
  {
    var k, r :| k in t && !k.Owned? && r in t[k] && r.Foreign? && r.goto == Some(c);
    var u := Exec(clears, cmd, t).value;
    if cmd.Delete? && cmd.chain == k {
      OthersSurvive(t[k], cmd.rule, r);
    }
    assert k in u && r in u[k];
  }

  lemma LeadStays(cmd: Command, t: Table, c: OwnedChain, d: OwnedChain)
    requires Present(LedFrom(c, d), t) && Leaves(false, LedFrom(c, d), cmd) && Exec(false, cmd, t).Some?
    ensures Present(LedFrom(c, d), Exec(false, cmd, t).value)
  {
    var i :| 0 <= i < |t[Owned(d)]| && JumpsTo(t[Owned(d)][i], c);
    var u := Exec(false, cmd, t).value;
    assert Owned(d) in u && i < |u[Owned(d)]| && u[Owned(d)][i] == t[Owned(d)][i];
  }

  lemma ObstacleBlocks(clears: bool, ob: Obstacle, cmd: Command, t: Table)
    requires Present(ob, t) && Blocks(ob, cmd)
    ensures Exec(clears, cmd, t).None?
  {
    match ob
    case GotoRule(c) =>
      var k, r :| k in t && !k.Owned? && r in t[k] && r.Foreign? && r.goto == Some(c);
      assert JumpsTo(r, c);
    case NoBare(c) =>
    case NoTarget(k) =>
    case LedFrom(c, d) =>
      var i :| 0 <= i < |t[Owned(d)]| && JumpsTo(t[Owned(d)][i], c);
      assert t[Owned(d)][i] in t[Owned(d)];
  }

  /** A script fails if no command before the one that an obstacle blocks clears the obstacle away. */
  lemma {:induction false} ObstacleStops(clears: bool, ob: Obstacle, cmds: seq<Command>, n: nat, t: Table)
    requires n < |cmds| && Blocks(ob, cmds[n]) && Present(ob, t)
    requires forall i | 0 <= i < n :: Leaves(clears, ob, cmds[i])
    ensures Run(clears, cmds, t).None?
    decreases n
  {
    if n == 0 {
      ObstacleBlocks(clears, ob, cmds[0], t);
    } else if Exec(clears, cmds[0], t).Some? {
      ObstacleStays(clears, ob, cmds[0], t);
      ObstacleStops(clears, ob, cmds[1..], n - 1, Exec(clears, cmds[0], t).value);
    }
  }

  lemma {:induction false} UndoSpares(previous: IptState, current: IptState, rules: seq<Line>, cs: seq<OwnedChain>)
    ensures forall i | 0 <= i < |Declares(previous, current, cs)| :: Declares(previous, current, cs)[i].Declare? && Spares(Declares(previous, current, cs)[i])
    ensures forall i | 0 <= i < |Anchorings(previous, current, cs)| ::
      var cmd := Anchorings(previous, current, cs)[i]; Spares(cmd) && (cmd.Delete? || cmd.InsertFirst?) && forall c | c in current.anchors :: cmd != InsertFirst(Home(c), Bare(c))
    ensures forall i | 0 <= i < |Refills(previous, current, rules, cs)| ::
      var cmd := Refills(previous, current, rules, cs)[i]; Spares(cmd) && !cmd.InsertFirst?
  {
    if cs != [] {
      UndoSpares(previous, current, rules, cs[1..]);
    }
  }

  lemma {:induction false} UndoContains(previous: IptState, current: IptState, rules: seq<Line>, cs: seq<OwnedChain>, c: OwnedChain)
    requires c in cs
    ensures c in current.chains && c !in previous.chains ==> DeleteChain(Owned(c)) in Refills(previous, current, rules, cs)
    ensures c in current.anchors && c !in previous.anchors ==> Delete(Home(c), Bare(c)) in Anchorings(previous, current, cs)
    ensures c in previous.chains ==> forall l | l in rules && l.chain == c :: Append(Owned(c), Own(l.rule)) in Refills(previous, current, rules, cs)
  {
    if cs[0] == c {
      forall l | l in rules && l.chain == c ensures Append(Owned(c), Own(l.rule)) in AppendCommands(OnlyChain(rules, c)) {
        OnlyChainHas(rules, c, l);
      }
    } else {
      UndoContains(previous, current, rules, cs[1..], c);
    }
  }

  lemma {:induction false} OnlyChainHas(lines: seq<Line>, c: OwnedChain, l: Line)
    requires l in lines && l.chain == c
    ensures Append(Owned(c), Own(l.rule)) in AppendCommands(OnlyChain(lines, c))
  {
    var rest := OnlyChain(lines[1..], c);
    if lines[0] == l {
      assert AppendCommands(OnlyChain(lines, c))[0] == Append(Owned(c), Own(l.rule));
    } else {
      OnlyChainHas(lines[1..], c, l);
      var n :| 0 <= n < |AppendCommands(rest)| && AppendCommands(rest)[n] == Append(Owned(c), Own(l.rule));
      var m := |OnlyChain(lines, c)| - |rest|;
      assert AppendCommands(OnlyChain(lines, c))[m + n] == AppendCommands(rest)[n];
    }
  }

  /** A command of the undo that an obstacle blocks makes the table's section fail. */
  lemma BlockedUndo(clears: bool, table: IptTable, previous: IptState, current: IptState, t: Table, ob: Obstacle, cmd: Command)
    requires Present(ob, t) && Blocks(ob, cmd) && cmd in TableRollback(table, previous, current)
    requires !ob.LedFrom? && (ob.NoBare? ==> ob.c in current.anchors)
    ensures Run(clears, TableRollback(table, previous, current), t).None?
  {
    var cs := OwnedOrder(true, table);
    var rules := RulesOf(previous, table);
    UndoSpares(previous, current, rules, cs);
    var cmds := TableRollback(table, previous, current);
    var n :| 0 <= n < |cmds| && cmds[n] == cmd;
    var a, b, d := Declares(previous, current, cs), Anchorings(previous, current, cs), Refills(previous, current, rules, cs);
    forall i | 0 <= i < |cmds| ensures Leaves(clears, ob, cmds[i]) {
      assert cmds[i] == if i < |a| then a[i] else if i < |a| + |b| then b[i - |a|] else d[i - |a| - |b|];
    }
    ObstacleStops(clears, ob, cmds, n, t);
  }

  /** Inspection does not see rules that go to an owned chain; the undo cannot delete such a chain and fails. */
  lemma GotoStopsUndo(clears: bool, table: IptTable, previous: IptState, current: IptState, t: Table)
    requires Records(table, t, current) && !Disposable(table, previous, t)
    ensures Run(clears, TableRollback(table, previous, current), t).None?
  {
    var c :| InTable(table, c) && Owned(c) in t && c !in previous.chains && GoneTo(t, c);
    assert c in OwnedOrder(true, table);
    UndoContains(previous, current, RulesOf(previous, table), OwnedOrder(true, table), c);
    BlockedUndo(clears, table, previous, current, t, GotoRule(c), DeleteChain(Owned(c)));
  }

  /** Inspection takes a jump with further conditions for the anchor; the undo looks for the bare one and fails. */
  lemma DecoratedAnchorStopsUndo(clears: bool, table: IptTable, previous: IptState, current: IptState, t: Table)
    requires Records(table, t, current) && !RemovesBare(table, previous, t)
    ensures Run(clears, TableRollback(table, previous, current), t).None?
  {
    var c :| InTable(table, c) && AnchoredIn(t, c) && c !in previous.anchors && Bare(c) !in t[Home(c)];
    assert c in OwnedOrder(true, table);
    UndoContains(previous, current, RulesOf(previous, table), OwnedOrder(true, table), c);
    BlockedUndo(clears, table, previous, current, t, NoBare(c), Delete(Home(c), Bare(c)));
  }

  /** A recorded rule that leads to a chain of others that has gone since cannot be put back. */
  lemma LostTargetStopsUndo(clears: bool, table: IptTable, previous: IptState, current: IptState, t: Table)
    requires ValidState(previous) && !LeadsKnown(table, previous, t)
    ensures Run(clears, TableRollback(table, previous, current), t).None?
  {
    var rules := RulesOf(previous, table);
    var i :| 0 <= i < |rules| && !LeadKnown(rules[i].rule, t);
    var c := rules[i].chain;
    assert InTable(table, c) && c in previous.chains;
    assert c in OwnedOrder(true, table) && rules[i] in rules;
    UndoContains(previous, current, rules, OwnedOrder(true, table), c);
    BlockedUndo(clears, table, previous, current, t, NoTarget(Lead(rules[i].rule).value), Append(Owned(c), Own(rules[i].rule)));
  }

  /** Inspection accepts a rule of one owned chain that jumps to another; the first is deleted before the second is flushed. */
  lemma JumpBetweenOwnedStopsUndo(table: IptTable, previous: IptState, current: IptState, t: Table)
    requires WellFormed(table, t) && Records(table, t, current) && !InTurn(false, previous, t)
    ensures Run(false, TableRollback(table, previous, current), t).None?
  {
    var c, d := EgmPrerouting, EgmPostrouting;
    assert Ahead(c, d);
    assert ChainOk(table, Owned(c), t[Owned(c)]);
    var cs, rules := OwnedOrder(true, table), RulesOf(previous, table);
    UndoSpares(previous, current, rules, cs);
    var a, b, e := Declares(previous, current, cs), Anchorings(previous, current, cs), Refills(previous, current, rules, cs);
    assert e[0] == Flush(Owned(c)) && e[1] == DeleteChain(Owned(c));
    var cmds := TableRollback(table, previous, current);
    forall i | 0 <= i < |a| + |b| + 1 ensures Leaves(false, LedFrom(c, d), cmds[i]) {
      assert cmds[i] == if i < |a| then a[i] else if i < |a| + |b| then b[i - |a|] else e[0];
    }
    ObstacleStops(false, LedFrom(c, d), cmds, |a| + |b| + 1, t);
  }

  /** A host that inspection accepts, with an anchor that has a further condition. */
  function DecoratedHost(): Table {
    map[Prerouting := [Anchor(EgmPrerouting, 1)], Postrouting := [], Owned(EgmPrerouting) := []]
  }

  /** A host that inspection accepts, with a rule of one owned chain that leads to the other. */
  function LinkedHost(rule: Rule): Table {
    map[Prerouting := [], Postrouting := [], Owned(EgmPrerouting) := [], Owned(EgmPostrouting) := [Own(rule)]]
  }

  lemma DecoratedHostIsStuck(clears: bool, current: IptState)
    requires Records(NatTable, DecoratedHost(), current)
    ensures WellFormed(NatTable, DecoratedHost()) && TargetsThere(DecoratedHost()) && ValidState(EMPTY_STATE)
    ensures Run(clears, TableRollback(NatTable, EMPTY_STATE, current), DecoratedHost()).None?
  {
    var t := DecoratedHost();
    forall k: Chain | k in t ensures ChainOk(NatTable, k, t[k]) {
    }
    assert AnchorCount(t[Prerouting], EgmPrerouting) == 1 && Bare(EgmPrerouting) !in t[Prerouting];
    assert AnchoredIn(t, EgmPrerouting);
    DecoratedAnchorStopsUndo(clears, NatTable, EMPTY_STATE, current, t);
  }

  lemma LinkedHostIsAccepted(rule: Rule)
    requires Lead(rule) == Some(Owned(EgmPrerouting))
    ensures WellFormed(NatTable, LinkedHost(rule)) && TargetsThere(LinkedHost(rule)) && ValidState(EMPTY_STATE)
    ensures !InTurn(false, EMPTY_STATE, LinkedHost(rule))
  {
    var u := LinkedHost(rule);
    forall k: Chain | k in u ensures ChainOk(NatTable, k, u[k]) {
    }
    assert u[Owned(EgmPostrouting)][0] == Own(rule) && JumpsTo(Own(rule), EgmPrerouting) && Ahead(EgmPrerouting, EgmPostrouting);
  }

  /** The undo of a first apply cannot restore it where declaring a chain leaves its rules alone. */
  lemma LinkedHostIsStuck(rule: Rule, current: IptState)
    requires Lead(rule) == Some(Owned(EgmPrerouting)) && Records(NatTable, LinkedHost(rule), current)
    ensures WellFormed(NatTable, LinkedHost(rule)) && TargetsThere(LinkedHost(rule)) && ValidState(EMPTY_STATE)
    ensures Run(false, TableRollback(NatTable, EMPTY_STATE, current), LinkedHost(rule)).None?
  {
    LinkedHostIsAccepted(rule);
    JumpBetweenOwnedStopsUndo(NatTable, EMPTY_STATE, current, LinkedHost(rule));
  }

  lemma UndoFails(clears: bool, table: IptTable, previous: IptState, current: IptState, t: Table)
    requires WellFormed(table, t) && ValidState(previous) && Records(table, t, current) && !Undoes(clears, table, previous, t)
    ensures Run(clears, TableRollback(table, previous, current), t).None?
  {
    if !Disposable(table, previous, t) {
      GotoStopsUndo(clears, table, previous, current, t);
    } else if !RemovesBare(table, previous, t) {
      DecoratedAnchorStopsUndo(clears, table, previous, current, t);
    } else if !LeadsKnown(table, previous, t) {
      LostTargetStopsUndo(clears, table, previous, current, t);
    } else {
      JumpBetweenOwnedStopsUndo(table, previous, current, t);
    }
  }
}
