/** Installing rendered forwards with iptables, re-installing them, and predicting the result. */
module IptInstall {
  import opened Wrappers
  import opened Prefixes
  import opened Ports
  import opened Inventory
  import opened Forwards
  import opened NatRules
  import opened NatRender
  import opened IptWorld
  import opened IptScripts
  import opened IptApply

  const EVERY_CHAIN: set<OwnedChain> := {EgmPrerouting, EgmPostrouting, EgmForward}

  /** The state a candidate describes: every chain and anchor, and the rendered rules in rendering order. */
  function Installed(fs: seq<Forward>): IptState {
    IptState(EVERY_CHAIN, EVERY_CHAIN, IptLines(NatTable, fs), IptFilterList(fs))
  }

  function Flushes(state: IptState, cs: seq<OwnedChain>): seq<Command> {
    if cs == [] then []
    else (if cs[0] in state.chains then [Flush(Owned(cs[0]))] else []) + Flushes(state, cs[1..])
  }

  function TableApply(table: IptTable, fs: seq<Forward>, state: IptState): seq<Command> {
    var cs := OwnedOrder(true, table);
    Declares(Installed(fs), state, cs) + Flushes(state, cs) + AppendCommands(RulesOf(Installed(fs), table))
    + Anchorings(Installed(fs), state, cs)
  }

  function ApplyOf(fs: seq<Forward>, state: IptState): Script {
    Script(TableApply(NatTable, fs, state), TableApply(FilterTable, fs, state))
  }

  // ---------------------------------------------------------------- writing the script

  method WriteAppends(output: seq<Command>, lines: seq<Line>) returns (r: seq<Command>)
    ensures r == output + AppendCommands(lines)
  {
    r := output;
    for i := 0 to |lines|
      invariant r == output + AppendCommands(lines[..i])
    {
      r := r + [Append(Owned(lines[i].chain), Own(lines[i].rule))];
      assert AppendCommands(lines[..i + 1]) == AppendCommands(lines[..i]) + [Append(Owned(lines[i].chain), Own(lines[i].rule))];
    }
    assert lines[..|lines|] == lines;
  }

  function FlushOne(state: IptState, c: OwnedChain): seq<Command> {
    if c in state.chains then [Flush(Owned(c))] else []
  }

  function AnchorOne(state: IptState, c: OwnedChain): seq<Command> {
    if c in state.anchors then [] else [InsertFirst(Home(c), Bare(c))]
  }

  lemma TwoFlushes(state: IptState, c: OwnedChain, d: OwnedChain)
    ensures Flushes(state, [c, d]) == FlushOne(state, c) + FlushOne(state, d)
    ensures Flushes(state, [d]) == FlushOne(state, d)
  {
    assert [c, d][1..] == [d] && [d][1..] == [];
    assert Flushes(state, [d]) == FlushOne(state, d) + [] == FlushOne(state, d);
  }

  lemma FullRestores(fs: seq<Forward>, state: IptState, c: OwnedChain)
    ensures DeclareRestore(c, c in Installed(fs).chains, c in state.chains) == [Declare(Owned(c))]
    ensures AnchorRestore(c, c in Installed(fs).anchors, c in state.anchors) == AnchorOne(state, c)
  {
  }

  lemma RegroupApply(a: seq<Command>, b: seq<Command>, c: seq<Command>, d: seq<Command>, e: seq<Command>, f: seq<Command>, g: seq<Command>)
    ensures a + b + c + d + e + f + g == (a + b) + (c + d) + e + (f + g)
  {
  }

  method WriteNatApply(fs: seq<Forward>, lines: seq<Line>, state: IptState) returns (output: seq<Command>)
    requires lines == IptLines(NatTable, fs)
    ensures output == TableApply(NatTable, fs, state)
  {
    var c, d := EgmPrerouting, EgmPostrouting;
    output := [Declare(Owned(c))] + [Declare(Owned(d))] + FlushOne(state, c) + FlushOne(state, d);
    output := WriteAppends(output, lines);
    output := output + AnchorOne(state, c) + AnchorOne(state, d);
    RegroupApply([Declare(Owned(c))], [Declare(Owned(d))], FlushOne(state, c), FlushOne(state, d), AppendCommands(lines),
      AnchorOne(state, c), AnchorOne(state, d));
    TwoFlushes(state, c, d);
    TwoChains(Installed(fs), state, lines, c, d);
    FullRestores(fs, state, c);
    FullRestores(fs, state, d);
  }

  method WriteFilterApply(fs: seq<Forward>, lines: seq<Line>, state: IptState) returns (output: seq<Command>)
    requires lines == IptFilterList(fs)
    ensures output == TableApply(FilterTable, fs, state)
  {
    var c := EgmForward;
    output := [Declare(Owned(c))] + FlushOne(state, c);
    output := WriteAppends(output, lines);
    output := output + AnchorOne(state, c);
    TwoFlushes(state, c, c);
    OneChain(Installed(fs), state, lines, c);
    FullRestores(fs, state, c);
  }

  /** The candidate: rendered rules between fresh declarations and the anchors still missing. */
  method RenderIptables(fs: seq<Forward>, state: IptState) returns (candidate: Script)
    ensures candidate == ApplyOf(fs, state)
  {
    var natLines, filterLines := RenderIptLines(fs);
    var nat_ := WriteNatApply(fs, natLines, state);
    var filter := WriteFilterApply(fs, filterLines, state);
    candidate := Script(nat_, filter);
  }

  // ---------------------------------------------------------------- running it

  lemma {:induction false} FlushBlocks(clears: bool, table: IptTable, state: IptState, cs: seq<OwnedChain>, t: Table) returns (u: Table)
    requires WellFormed(table, t) && Listing(table, cs)
    requires forall c | c in cs :: Owned(c) in t && (c !in state.chains ==> t[Owned(c)] == [])
    ensures Succeeds(clears, Flushes(state, cs), t, u)
    ensures WellFormed(table, u) && OnlyChains(t, u, cs)
    ensures forall c | c in cs :: Owned(c) in u && u[Owned(c)] == []
    decreases |cs|
  {
    if cs == [] {
      u := t;
    } else {
      ListingTail(table, cs);
      var k := Owned(cs[0]);
      var v := t[k := []];
      ReplaceChain(table, t, k, []);
      assert Succeeds(clears, FlushOne(state, cs[0]), t, v) by {
        if cs[0] in state.chains {
          RunOne(clears, Flush(k), t);
        } else {
          assert v == t;
        }
      }
      u := FlushBlocks(clears, table, state, cs[1..], v);
      Then(clears, FlushOne(state, cs[0]), Flushes(state, cs[1..]), t, v, u);
    }
  }

  lemma AppendBlock(clears: bool, table: IptTable, lines: seq<Line>, t: Table) returns (u: Table)
    requires WellFormed(table, t)
    requires forall c | InTable(table, c) :: Owned(c) in t && t[Owned(c)] == []
    requires forall i | 0 <= i < |lines| :: InTable(table, lines[i].chain) && Lead(lines[i].rule).None?
    ensures Succeeds(clears, AppendCommands(lines), t, u)
    ensures WellFormed(table, u) && u.Keys == t.Keys
    ensures forall k: Chain | k in t && !k.Owned? :: u[k] == t[k]
    ensures forall c | InTable(table, c) :: u[Owned(c)] == Wrap(InChain(lines, c))
  {
    RunAppends(clears, lines, t);
    u := Run(clears, AppendCommands(lines), t).value;
    forall c | InTable(table, c) ensures u[Owned(c)] == Wrap(InChain(lines, c)) && ChainOk(table, Owned(c), u[Owned(c)]) {
      assert [] + Wrap(InChain(lines, c)) == Wrap(InChain(lines, c));
      OwnRulesAreOk(table, c, InChain(lines, c));
    }
  }

  lemma {:induction false} AnchoringsOnlyMissing(want: IptState, state: IptState, cs: seq<OwnedChain>)
    requires forall c | c in cs :: c in want.anchors && c in state.anchors
    ensures Anchorings(want, state, cs) == []
    decreases |cs|
  {
    if cs != [] {
      assert cs[0] in cs && forall c | c in cs[1..] :: c in cs;
      AnchoringsOnlyMissing(want, state, cs[1..]);
    }
  }

  lemma ApplyChains(clears: bool, table: IptTable, fs: seq<Forward>, state: IptState, t: Table) returns (u: Table)
    requires WellFormed(table, t) && Records(table, t, state) && Shaped(table, RulesOf(Installed(fs), table))
    ensures var cs := OwnedOrder(true, table);
      Succeeds(clears, Declares(Installed(fs), state, cs) + Flushes(state, cs) + AppendCommands(RulesOf(Installed(fs), table)), t, u)
    ensures WellFormed(table, u) && SameOthers(t, u)
    ensures forall c | InTable(table, c) :: Owned(c) in u && u[Owned(c)] == Wrap(InChain(RulesOf(Installed(fs), table), c)) && (AnchoredIn(u, c) <==> AnchoredIn(t, c))
  {
    var want, cs := Installed(fs), OwnedOrder(true, table);
    var lines := RulesOf(want, table);
    assert forall c :: c in cs <==> InTable(table, c);
    var t1 := DeclareBlocks(clears, table, want, state, cs, t);
    SameHooks(t, t1, cs);
    var t2 := FlushBlocks(clears, table, state, cs, t1);
    SameHooks(t1, t2, cs);
    u := AppendBlock(clears, table, lines, t2);
    OwnedOnly(table, t2, u);
    Then(clears, Declares(want, state, cs), Flushes(state, cs), t, t1, t2);
    Then(clears, Declares(want, state, cs) + Flushes(state, cs), AppendCommands(lines), t, t2, u);
  }

  lemma ApplyTable(clears: bool, table: IptTable, fs: seq<Forward>, state: IptState, t: Table) returns (u: Table)
    requires WellFormed(table, t) && Records(table, t, state) && Shaped(table, RulesOf(Installed(fs), table))
    ensures Succeeds(clears, TableApply(table, fs, state), t, u)
    ensures WellFormed(table, u) && Matches(table, u, Installed(fs)) && SameStrangers(t, u)
    ensures Hooked(t, u, EVERY_CHAIN, OwnedOrder(true, table))
    ensures Matches(table, t, Installed(fs)) ==> u == t
  {
    var want, cs := Installed(fs), OwnedOrder(true, table);
    assert forall c :: c in cs <==> InTable(table, c);
    var v := ApplyChains(clears, table, fs, state, t);
    u := AnchorBlocks(clears, table, want, state, cs, v);
    HookedAround(t, v, u, u, EVERY_CHAIN, cs);
    StrangersTwice(t, v, u);
    Then(clears, Declares(want, state, cs) + Flushes(state, cs) + AppendCommands(RulesOf(want, table)), Anchorings(want, state, cs), t, v, u);
    if Matches(table, t, want) {
      AnchoringsOnlyMissing(want, state, cs);
      assert u == v;
      SameTable(table, want, t, u);
    }
  }

  lemma OwnedOnly(table: IptTable, t: Table, u: Table)
    requires u.Keys == t.Keys && forall k: Chain | k in t && !k.Owned? :: u[k] == t[k]
    ensures SameStrangers(t, u) && SameOthers(t, u)
    ensures forall c :: AnchoredIn(u, c) <==> AnchoredIn(t, c)
  {
  }

  lemma SameTable(table: IptTable, s: IptState, t: Table, u: Table)
    requires WellFormed(table, t) && WellFormed(table, u) && Matches(table, t, s) && Matches(table, u, s)
    requires SameOthers(t, u)
    ensures u == t
  {
    forall k: Chain ensures (k in t <==> k in u) && (k in t ==> u[k] == t[k]) {
    }
  }

  // ---------------------------------------------------------------- the shape of the rendered lists

  /** The nat list alternates between its two chains; the filter list stays in one; nothing leads to another chain. */
  predicate Shaped(table: IptTable, lines: seq<Line>) {
    && (table == NatTable ==> |lines| % 2 == 0)
    && (forall i | 0 <= i < |lines| :: Lead(lines[i].rule).None?)
    && forall i | 0 <= i < |lines| ::
         lines[i].chain == if table == FilterTable then EgmForward else if i % 2 == 0 then EgmPrerouting else EgmPostrouting
  }

  lemma ShapedAppend(table: IptTable, a: seq<Line>, b: seq<Line>)
    requires Shaped(table, a) && Shaped(table, b)
    ensures Shaped(table, a + b)
  {
  }

  lemma {:induction false} SourceLinesShaped(f: Forward, protocol: Protocol, ports: PortRange, sources: seq<Prefix>)
    ensures Shaped(FilterTable, IptSourceLines(f, protocol, ports, sources))
  {
    if sources != [] {
      SourceLinesShaped(f, protocol, ports, sources[1..]);
    }
  }

  lemma {:induction false} RangeLinesShaped(table: IptTable, f: Forward, protocol: Protocol, ranges: seq<PortRange>)
    ensures Shaped(table, IptRangeLines(table, f, protocol, ranges))
  {
    if ranges != [] {
      var head := if table == NatTable then IptNatLines(f, protocol, ranges[0])
                  else IptFilterLines(f, protocol, TranslatedRange(f, ranges[0]));
      SourceLinesShaped(f, protocol, TranslatedRange(f, ranges[0]), f.sources);
      RangeLinesShaped(table, f, protocol, ranges[1..]);
      ShapedAppend(table, head, IptRangeLines(table, f, protocol, ranges[1..]));
    }
  }

  lemma {:induction false} ForwardLinesShaped(table: IptTable, f: Forward, protocols: seq<Protocol>)
    ensures Shaped(table, IptForwardLines(table, f, protocols))
  {
    if protocols != [] {
      RangeLinesShaped(table, f, protocols[0], AllowedRanges(f));
      ForwardLinesShaped(table, f, protocols[1..]);
      ShapedAppend(table, IptRangeLines(table, f, protocols[0], AllowedRanges(f)), IptForwardLines(table, f, protocols[1..]));
    }
  }

  lemma {:induction false} LinesShaped(table: IptTable, fs: seq<Forward>)
    ensures Shaped(table, IptLines(table, fs))
  {
    if fs != [] {
      ForwardLinesShaped(table, fs[0], fs[0].protocols);
      LinesShaped(table, fs[1..]);
      ShapedAppend(table, if fs[0].enabled then IptForwardLines(table, fs[0], fs[0].protocols) else [], IptLines(table, fs[1..]));
    }
  }

  /** Every rendered line names an owned chain of its own table. */
  lemma RenderedInTable(table: IptTable, fs: seq<Forward>)
    ensures Shaped(table, RulesOf(Installed(fs), table))
    ensures forall i | 0 <= i < |RulesOf(Installed(fs), table)| :: InTable(table, RulesOf(Installed(fs), table)[i].chain)
  {
    LinesShaped(table, fs);
    if table == FilterTable {
      ShapedAppend(table, [Line(EgmForward, ESTABLISHED_RULE)], IptLines(table, fs));
    }
  }

  // ---------------------------------------------------------------- applying, and applying again

  /**
   * On every well-formed host the candidate runs without error, leaves exactly the rendered rules in each owned
   * chain and one anchor each, and keeps the rules of others and their order.
   */
  lemma ApplyInstalls(clears: bool, preFirst: bool, fs: seq<Forward>, w: World)
    requires WellFormedWorld(w)
    ensures var (w', ok) := RunScript(clears, ApplyOf(fs, StateOf(preFirst, w)), w);
      && ok
      && WellFormedWorld(w')
      && Matches(NatTable, w'.nat_, Installed(fs)) && Matches(FilterTable, w'.filter, Installed(fs))
      && SameStrangers(w.nat_, w'.nat_) && SameStrangers(w.filter, w'.filter)
  {
    StateRecords(preFirst, w);
    RenderedInTable(NatTable, fs);
    RenderedInTable(FilterTable, fs);
    var state := StateOf(preFirst, w);
    var n := ApplyTable(clears, NatTable, fs, state, w.nat_);
    var f := ApplyTable(clears, FilterTable, fs, state, w.filter);
    ScriptOf(clears, ApplyOf(fs, state), w, n, f);
  }

  /** Planning again from the installed host and applying that changes nothing at all. */
  lemma ReapplyIsFixpoint(clears: bool, preFirst: bool, fs: seq<Forward>, w: World)
    requires WellFormedWorld(w)
    requires Matches(NatTable, w.nat_, Installed(fs)) && Matches(FilterTable, w.filter, Installed(fs))
    ensures RunScript(clears, ApplyOf(fs, StateOf(preFirst, w)), w) == (w, true)
  {
    StateRecords(preFirst, w);
    RenderedInTable(NatTable, fs);
    RenderedInTable(FilterTable, fs);
    var state := StateOf(preFirst, w);
    var n := ApplyTable(clears, NatTable, fs, state, w.nat_);
    var f := ApplyTable(clears, FilterTable, fs, state, w.filter);
    ScriptOf(clears, ApplyOf(fs, state), w, n, f);
  }

  /**
   * An anchor with further conditions counts as the anchor, so none is added: after the apply every hook passes all
   * packets to its chain exactly if none of them had only such an anchor before.
   */
  lemma ApplyAnchorsIff(clears: bool, preFirst: bool, fs: seq<Forward>, w: World)
    requires WellFormedWorld(w)
    ensures var w' := RunScript(clears, ApplyOf(fs, StateOf(preFirst, w)), w).0;
      && (forall c | InTable(NatTable, c) :: Home(c) in w'.nat_ && (Bare(c) in w'.nat_[Home(c)] <==> !AnchoredIn(w.nat_, c) || Bare(c) in w.nat_[Home(c)]))
      && (forall c | InTable(FilterTable, c) :: Home(c) in w'.filter && (Bare(c) in w'.filter[Home(c)] <==> !AnchoredIn(w.filter, c) || Bare(c) in w.filter[Home(c)]))
  {
    StateRecords(preFirst, w);
    RenderedInTable(NatTable, fs);
    RenderedInTable(FilterTable, fs);
    var state := StateOf(preFirst, w);
    var n := ApplyTable(clears, NatTable, fs, state, w.nat_);
    var f := ApplyTable(clears, FilterTable, fs, state, w.filter);
    ScriptOf(clears, ApplyOf(fs, state), w, n, f);
    HookedAnchors(NatTable, w.nat_, n);
    HookedAnchors(FilterTable, w.filter, f);
  }

  lemma HookedAnchors(table: IptTable, t: Table, u: Table)
    requires HooksExist(table, t) && Hooked(t, u, EVERY_CHAIN, OwnedOrder(true, table))
    ensures forall c | InTable(table, c) :: Home(c) in u && (Bare(c) in u[Home(c)] <==> !AnchoredIn(t, c) || Bare(c) in t[Home(c)])
  {
    forall c | InTable(table, c) ensures Home(c) in u && (Bare(c) in u[Home(c)] <==> !AnchoredIn(t, c) || Bare(c) in t[Home(c)]) {
      assert c in OwnedOrder(true, table) && c in EVERY_CHAIN;
      AnchorCountZero(t[Home(c)], c);
    }
  }

  // ---------------------------------------------------------------- applying, then undoing

  lemma {:induction false} InChainOfOne(c: OwnedChain, rules: seq<Rule>, d: OwnedChain)
    ensures InChain(LinesOf(c, rules), d) == if c == d then rules else []
  {
    if rules != [] {
      assert LinesOf(c, rules)[1..] == LinesOf(c, rules[1..]);
      InChainOfOne(c, rules[1..], d);
    }
  }

  lemma InChainOfHead(table: IptTable, t: Table, c: OwnedChain, d: OwnedChain)
    requires WellFormed(table, t)
    ensures c != d ==> InChain(ChainLines(t, c), d) == []
    ensures c == d && Owned(c) in t ==> t[Owned(c)] == Wrap(InChain(ChainLines(t, c), c))
  {
    if Owned(c) in t {
      InChainOfOne(c, OwnRules(t[Owned(c)]), d);
      assert Wrap(OwnRules(t[Owned(c)])) == t[Owned(c)];
    }
  }

  lemma {:induction false} InChainOfGrouped(table: IptTable, t: Table, cs: seq<OwnedChain>, d: OwnedChain)
    requires WellFormed(table, t) && Listing(table, cs)
    ensures d in cs && Owned(d) in t ==> t[Owned(d)] == Wrap(InChain(Grouped(t, cs), d))
    ensures d !in cs ==> InChain(Grouped(t, cs), d) == []
    decreases |cs|
  {
    if cs != [] {
      ListingTail(table, cs);
      var head, tail := InChain(ChainLines(t, cs[0]), d), InChain(Grouped(t, cs[1..]), d);
      InChainOfGrouped(table, t, cs[1..], d);
      InChainAppend(ChainLines(t, cs[0]), Grouped(t, cs[1..]), d);
      InChainOfHead(table, t, cs[0], d);
      assert head + [] == head && [] + tail == tail;
    }
  }

  lemma {:induction false} GroupedChains(t: Table, cs: seq<OwnedChain>)
    ensures forall i | 0 <= i < |Grouped(t, cs)| :: Grouped(t, cs)[i].chain in cs && Owned(Grouped(t, cs)[i].chain) in t
    decreases |cs|
  {
    if cs != [] {
      GroupedChains(t, cs[1..]);
      assert forall c :: c in cs <==> c == cs[0] || c in cs[1..];
    }
  }

  /** A snapshot taken by inspection describes its host exactly, and is a state the undo script can restore. */
  lemma SnapshotDescribes(preFirst: bool, w: World)
    requires WellFormedWorld(w)
    ensures TargetsThere(w.nat_) && TargetsThere(w.filter) ==>
      ValidState(StateOf(preFirst, w)) && LeadsThere(StateOf(preFirst, w).natRules, w.nat_) && LeadsThere(StateOf(preFirst, w).filterRules, w.filter)
    ensures Matches(NatTable, w.nat_, StateOf(preFirst, w)) && Matches(FilterTable, w.filter, StateOf(preFirst, w))
  {
    StateRecords(preFirst, w);
    SnapshotTable(preFirst, NatTable, w.nat_, StateOf(preFirst, w));
    SnapshotTable(preFirst, FilterTable, w.filter, StateOf(preFirst, w));
    AnchorsHaveChains(NatTable, w.nat_);
    AnchorsHaveChains(FilterTable, w.filter);
  }

  lemma ChainLeads(t: Table, c: OwnedChain)
    requires TargetsThere(t)
    ensures LeadsThere(ChainLines(t, c), t)
  {
    if Owned(c) in t && AllOwn(t[Owned(c)]) {
      forall i | 0 <= i < |ChainLines(t, c)| ensures TargetExists(t, Own(ChainLines(t, c)[i].rule)) {
        assert t[Owned(c)][i] in t[Owned(c)];
      }
    }
  }

  lemma {:induction false} GroupedLeads(t: Table, cs: seq<OwnedChain>)
    requires TargetsThere(t)
    ensures LeadsThere(Grouped(t, cs), t)
    decreases |cs|
  {
    if cs != [] {
      ChainLeads(t, cs[0]);
      GroupedLeads(t, cs[1..]);
    }
  }

  lemma SnapshotTable(preFirst: bool, table: IptTable, t: Table, s: IptState)
    requires WellFormed(table, t) && Records(table, t, s) && RulesOf(s, table) == GroupedLines(preFirst, table, t)
    ensures Matches(table, t, s)
    ensures TargetsThere(t) ==> LeadsThere(RulesOf(s, table), t) && LeadsInside(table, RulesOf(s, table), s.chains)
    ensures forall i | 0 <= i < |RulesOf(s, table)| :: InTable(table, RulesOf(s, table)[i].chain) && RulesOf(s, table)[i].chain in s.chains
  {
    var cs := OwnedOrder(preFirst, table);
    assert forall c :: c in cs <==> InTable(table, c);
    GroupedChains(t, cs);
    if TargetsThere(t) {
      GroupedLeads(t, cs);
      OnlyOwnInTable(table, t);
      forall i | 0 <= i < |RulesOf(s, table)| ensures LeadInside(table, RulesOf(s, table)[i].rule, s.chains) {
        assert TargetExists(t, Own(RulesOf(s, table)[i].rule));
      }
    }
    forall c | InTable(table, c) && Owned(c) in t ensures t[Owned(c)] == Wrap(InChain(RulesOf(s, table), c)) {
      InChainOfGrouped(table, t, cs, c);
    }
  }

  lemma HookTwice(rules: seq<WorldRule>, c: OwnedChain, wanted: bool)
    requires wanted <==> AnchorCount(rules, c) > 0
    ensures Hook(Hook(rules, c, true), c, wanted) == rules
  {
    PrependAnchor(rules, c);
    assert ([Bare(c)] + rules)[1..] == rules;
  }

  lemma UndoneTable(table: IptTable, s: IptState, t: Table, u: Table, v: Table)
    requires WellFormed(table, t) && WellFormed(table, v) && Matches(table, t, s) && Matches(table, v, s)
    requires Hooked(t, u, EVERY_CHAIN, OwnedOrder(true, table)) && Hooked(u, v, s.anchors, OwnedOrder(true, table))
    ensures v == t
  {
    var cs := OwnedOrder(true, table);
    assert forall c :: c in cs <==> InTable(table, c);
    forall k: Chain | !k.Owned? && k in t ensures v[k] == t[k] {
      if exists c :: c in cs && Home(c) == k {
        var c :| c in cs && Home(c) == k;
        HookTwice(t[k], c, c in s.anchors);
        assert c in EVERY_CHAIN;
      }
    }
    SameTable(table, s, t, v);
  }

  /** Applying any forwards and then running the undo script built from the snapshot gives back the very same host. */
  lemma ApplyThenUndo(clears: bool, preFirst: bool, fs: seq<Forward>, w: World)
    requires WellFormedWorld(w) && TargetsThere(w.nat_) && TargetsThere(w.filter)
    ensures var before := StateOf(preFirst, w);
      var applied := RunScript(clears, ApplyOf(fs, before), w).0;
      RunScript(clears, RollbackOf(before, StateOf(preFirst, applied)), applied) == (w, true)
  {
    var before := StateOf(preFirst, w);
    StateRecords(preFirst, w);
    SnapshotDescribes(preFirst, w);
    RenderedInTable(NatTable, fs);
    RenderedInTable(FilterTable, fs);
    var n := ApplyTable(clears, NatTable, fs, before, w.nat_);
    var f := ApplyTable(clears, FilterTable, fs, before, w.filter);
    ScriptOf(clears, ApplyOf(fs, before), w, n, f);
    var applied := World(n, f);
    UndoApplied(clears, preFirst, fs, before, w, applied);
  }

  lemma OnlyOwnInTable(table: IptTable, t: Table)
    requires WellFormed(table, t)
    ensures forall k: Chain | k in t && k.Owned? :: InTable(table, k.chain)
  {
    forall k: Chain | k in t && k.Owned? ensures InTable(table, k.chain) {
      assert ChainOk(table, k, t[k]);
    }
  }

  /** Nothing leads to a chain that was not there before, and the anchors that were added are bare. */
  lemma AppliedIsUndoable(clears: bool, table: IptTable, fs: seq<Forward>, before: IptState, t: Table, applied: Table)
    requires Matches(table, t, before) && TargetsThere(t) && LeadsThere(RulesOf(before, table), t)
    requires HooksExist(table, t) && SameStrangers(t, applied) && Matches(table, applied, Installed(fs))
    requires Hooked(t, applied, EVERY_CHAIN, OwnedOrder(true, table)) && Shaped(table, RulesOf(Installed(fs), table))
    requires forall k: Chain | k in applied && k.Owned? :: InTable(table, k.chain)
    ensures Undoes(clears, table, before, applied)
  {
    forall c | InTable(table, c) && Owned(c) in applied && c !in before.chains ensures !GoneTo(applied, c) {
      SameGotos(t, applied, c);
      if GoneTo(t, c) {
        GotosHaveTargets(t, c);
      }
    }
    forall c | InTable(table, c) && AnchoredIn(applied, c) && c !in before.anchors ensures Bare(c) in applied[Home(c)] {
      assert c in OwnedOrder(true, table) && c in EVERY_CHAIN;
      assert applied[Home(c)] == [Bare(c)] + t[Home(c)];
    }
    forall i | 0 <= i < |RulesOf(before, table)| ensures LeadKnown(RulesOf(before, table)[i].rule, applied) {
      assert TargetExists(t, Own(RulesOf(before, table)[i].rule));
    }
    forall d: OwnedChain | Owned(d) in applied ensures forall i, c | 0 <= i < |applied[Owned(d)]| :: !JumpsTo(applied[Owned(d)][i], c) {
      InChainPlain(RulesOf(Installed(fs), table), d);
    }
  }

  lemma {:induction false} InChainPlain(lines: seq<Line>, c: OwnedChain)
    requires forall i | 0 <= i < |lines| :: Lead(lines[i].rule).None?
    ensures forall i | 0 <= i < |InChain(lines, c)| :: Lead(InChain(lines, c)[i]).None?
  {
    if lines != [] {
      InChainPlain(lines[1..], c);
    }
  }

  lemma UndoApplied(clears: bool, preFirst: bool, fs: seq<Forward>, before: IptState, w: World, applied: World)
    requires WellFormedWorld(w) && WellFormedWorld(applied) && ValidState(before)
    requires TargetsThere(w.nat_) && LeadsThere(before.natRules, w.nat_) && SameStrangers(w.nat_, applied.nat_)
    requires TargetsThere(w.filter) && LeadsThere(before.filterRules, w.filter) && SameStrangers(w.filter, applied.filter)
    requires Matches(NatTable, applied.nat_, Installed(fs)) && Matches(FilterTable, applied.filter, Installed(fs))
    requires Matches(NatTable, w.nat_, before) && Matches(FilterTable, w.filter, before)
    requires Hooked(w.nat_, applied.nat_, EVERY_CHAIN, OwnedOrder(true, NatTable))
    requires Hooked(w.filter, applied.filter, EVERY_CHAIN, OwnedOrder(true, FilterTable))
    ensures RunScript(clears, RollbackOf(before, StateOf(preFirst, applied)), applied) == (w, true)
  {
    var current := StateOf(preFirst, applied);
    StateRecords(preFirst, applied);
    RenderedInTable(NatTable, fs);
    RenderedInTable(FilterTable, fs);
    OnlyOwnInTable(NatTable, applied.nat_);
    OnlyOwnInTable(FilterTable, applied.filter);
    AppliedIsUndoable(clears, NatTable, fs, before, w.nat_, applied.nat_);
    AppliedIsUndoable(clears, FilterTable, fs, before, w.filter, applied.filter);
    var n := RestoreTable(clears, NatTable, before, current, applied.nat_);
    var f := RestoreTable(clears, FilterTable, before, current, applied.filter);
    UndoneTable(NatTable, before, w.nat_, applied.nat_, n);
    UndoneTable(FilterTable, before, w.filter, applied.filter, f);
    ScriptOf(clears, RollbackOf(before, current), applied, n, f);
  }

  // ---------------------------------------------------------------- reading the candidate back

  /** The lines of a candidate as its reader takes them: insertions count as rules, everything else is skipped. */
  function Readable(cmds: seq<Command>): seq<SaveLine> {
    if cmds == [] then []
    else
      (match cmds[0]
       case Declare(c) => [ChainLine(c)]
       case Append(c, r) => [RuleLine(c, r)]
       case InsertFirst(c, r) => [RuleLine(c, r)]
       case _ => [])
      + Readable(cmds[1..])
  }

  /** The state a candidate is expected to leave, given the state before it. */
  function CandidateState(candidate: Script, previous: IptState): Option<IptState> {
    var n := ParseTable(NatTable, Readable(candidate.nat_), EMPTY_STATE);
    if n.None? then None
    else
      var f := ParseTable(FilterTable, Readable(candidate.filter), n.value);
      if f.None? then None else Some(f.value.(anchors := f.value.anchors + previous.anchors))
  }

  lemma {:induction false} ReadableAppend(a: seq<Command>, b: seq<Command>)
    ensures Readable(a + b) == Readable(a) + Readable(b)
  {
    if a == [] {
      assert a + b == b;
    } else {
      assert (a + b)[1..] == a[1..] + b;
      ReadableAppend(a[1..], b);
    }
  }

  function Missing(state: IptState, cs: seq<OwnedChain>): set<OwnedChain> {
    set c | c in cs && c !in state.anchors
  }

  lemma {:induction false} ReadDeclares(table: IptTable, want: IptState, state: IptState, cs: seq<OwnedChain>, s: IptState)
    requires Listing(table, cs) && forall c | c in cs :: c in want.chains
    ensures ParseLines(table, Readable(Declares(want, state, cs)), s) == Some(s.(chains := s.chains + Members(cs)))
    decreases |cs|
  {
    if cs == [] {
      assert s.chains + Members(cs) == s.chains;
    } else {
      ListingTail(table, cs);
      var next := s.(chains := s.chains + {cs[0]});
      ReadDeclares(table, want, state, cs[1..], next);
      assert next.chains + Members(cs[1..]) == s.chains + Members(cs);
      assert Declares(want, state, cs)[0] == Declare(Owned(cs[0]));
      assert Declares(want, state, cs)[1..] == Declares(want, state, cs[1..]);
      var rest := Readable(Declares(want, state, cs[1..]));
      assert ([ChainLine(Owned(cs[0]))] + rest)[1..] == rest;
    }
  }

  lemma {:induction false} ReadFlushes(state: IptState, cs: seq<OwnedChain>)
    ensures Readable(Flushes(state, cs)) == []
    decreases |cs|
  {
    if cs != [] {
      ReadFlushes(state, cs[1..]);
      if cs[0] in state.chains {
        assert Flushes(state, cs)[1..] == Flushes(state, cs[1..]);
      } else {
        assert Flushes(state, cs) == Flushes(state, cs[1..]);
      }
    }
  }

  lemma {:induction false} ReadAppends(table: IptTable, lines: seq<Line>, s: IptState)
    requires forall i | 0 <= i < |lines| :: InTable(table, lines[i].chain)
    ensures ParseLines(table, Readable(AppendCommands(lines)), s) == Some(AddRules(table, s, lines))
    decreases |lines|
  {
    if lines == [] {
      AddRulesTwice(table, s, [], []);
    } else {
      assert AppendCommands(lines)[1..] == AppendCommands(lines[1..]);
      var rest := Readable(AppendCommands(lines[1..]));
      var head := RuleLine(Owned(lines[0].chain), Own(lines[0].rule));
      assert ([head] + rest)[1..] == rest;
      ReadAppends(table, lines[1..], AddRules(table, s, [lines[0]]));
      AddRulesTwice(table, s, [lines[0]], lines[1..]);
      assert [lines[0]] + lines[1..] == lines;
    }
  }

  lemma {:induction false} ReadAnchorings(table: IptTable, want: IptState, state: IptState, cs: seq<OwnedChain>, s: IptState)
    requires Listing(table, cs) && forall c | c in cs :: c in want.anchors && c !in s.anchors
    ensures ParseLines(table, Readable(Anchorings(want, state, cs)), s) == Some(s.(anchors := s.anchors + Missing(state, cs)))
    decreases |cs|
  {
    if cs == [] {
      assert s.anchors + Missing(state, cs) == s.anchors;
    } else {
      ListingTail(table, cs);
      var c, rest := cs[0], Anchorings(want, state, cs[1..]);
      if c in state.anchors {
        assert Anchorings(want, state, cs) == rest;
        assert Missing(state, cs) == Missing(state, cs[1..]);
        ReadAnchorings(table, want, state, cs[1..], s);
      } else {
        var next := s.(anchors := s.anchors + {c});
        ReadAnchorings(table, want, state, cs[1..], next);
        assert next.anchors + Missing(state, cs[1..]) == s.anchors + Missing(state, cs);
        assert Anchorings(want, state, cs)[0] == InsertFirst(Home(c), Bare(c)) && Anchorings(want, state, cs)[1..] == rest;
        assert ([RuleLine(Home(c), Bare(c))] + Readable(rest))[1..] == Readable(rest);
      }
    }
  }

  lemma ReadTable(table: IptTable, fs: seq<Forward>, state: IptState, s: IptState)
    requires s.anchors <= s.chains && forall c | InTable(table, c) :: c !in s.anchors
    ensures var cs := OwnedOrder(true, table);
      ParseTable(table, Readable(TableApply(table, fs, state)), s) ==
      Some(AddRules(table, s.(chains := s.chains + Members(cs), anchors := s.anchors + Missing(state, cs)), RulesOf(Installed(fs), table)))
  {
    var want, cs := Installed(fs), OwnedOrder(true, table);
    var lines := RulesOf(want, table);
    RenderedInTable(table, fs);
    assert forall c :: c in cs <==> InTable(table, c);
    var a, b, d, e := Declares(want, state, cs), Flushes(state, cs), AppendCommands(lines), Anchorings(want, state, cs);
    ReadableAppend(a, b);
    ReadableAppend(a + b, d);
    ReadableAppend(a + b + d, e);
    ReadFlushes(state, cs);
    assert Readable(a) + [] == Readable(a);
    var s1 := s.(chains := s.chains + Members(cs));
    var s2 := AddRules(table, s1, lines);
    ReadDeclares(table, want, state, cs, s);
    ReadAppends(table, lines, s1);
    ReadAnchorings(table, want, state, cs, s2);
    ParseAppend(table, Readable(a), Readable(d), s);
    ParseAppend(table, Readable(a) + Readable(d), Readable(e), s);
  }

  /** Reading the candidate back predicts every chain, every anchor, and the rules in rendering order. */
  lemma CandidatePredicts(fs: seq<Forward>, state: IptState)
    ensures CandidateState(ApplyOf(fs, state), state) == Some(Installed(fs))
  {
    var n, f := OwnedOrder(true, NatTable), OwnedOrder(true, FilterTable);
    ReadTable(NatTable, fs, state, EMPTY_STATE);
    var s := IptState({} + Members(n), {} + Missing(state, n), [] + IptLines(NatTable, fs), []);
    ReadTable(FilterTable, fs, state, s);
    forall c: OwnedChain ensures c in EVERY_CHAIN && (c in n || c in f) {
      assert n == [EgmPrerouting, EgmPostrouting] && f == [EgmForward];
      match c { case EgmPrerouting => case EgmPostrouting => case EgmForward => }
    }
    assert {} + Members(n) + Members(f) == EVERY_CHAIN;
    assert {} + Missing(state, n) + Missing(state, f) + state.anchors == EVERY_CHAIN;
    assert [] + IptLines(NatTable, fs) == IptLines(NatTable, fs);
    assert [] + IptFilterList(fs) == IptFilterList(fs);
  }

  // ---------------------------------------------------------------- the operator-rollback guard

  lemma {:induction false} AlternatingChains(lines: seq<Line>)
    requires Shaped(NatTable, lines)
    ensures |InChain(lines, EgmPrerouting)| == |InChain(lines, EgmPostrouting)| == |lines| / 2
    decreases |lines|
  {
    if lines != [] {
      var rest := lines[2..];
      assert lines == [lines[0], lines[1]] + rest;
      assert Shaped(NatTable, rest);
      AlternatingChains(rest);
      InChainAppend([lines[0], lines[1]], rest, EgmPrerouting);
      InChainAppend([lines[0], lines[1]], rest, EgmPostrouting);
      PairChains(lines[0], lines[1]);
    }
  }

  lemma PairChains(a: Line, b: Line)
    requires a.chain == EgmPrerouting && b.chain == EgmPostrouting
    ensures InChain([a, b], EgmPrerouting) == [a.rule] && InChain([a, b], EgmPostrouting) == [b.rule]
  {
    OneLineChain(a, EgmPrerouting);
    OneLineChain(a, EgmPostrouting);
    OneLineChain(b, EgmPrerouting);
    OneLineChain(b, EgmPostrouting);
    InChainAppend([a], [b], EgmPrerouting);
    InChainAppend([a], [b], EgmPostrouting);
    assert [a] + [b] == [a, b];
  }

  lemma OneLineChain(line: Line, c: OwnedChain)
    ensures InChain([line], c) == if line.chain == c then [line.rule] else []
  {
    assert [line][1..] == [] && InChain([], c) == [];
  }

  /** What inspection lists for a table that holds the given lines. */
  function Regrouped(preFirst: bool, lines: seq<Line>): seq<Line> {
    var a, b := LinesOf(EgmPrerouting, InChain(lines, EgmPrerouting)), LinesOf(EgmPostrouting, InChain(lines, EgmPostrouting));
    if preFirst then a + b else b + a
  }

  lemma RegroupedSameIff(preFirst: bool, lines: seq<Line>)
    requires Shaped(NatTable, lines)
    ensures Regrouped(preFirst, lines) == lines <==> |lines| == 0 || (preFirst && |lines| == 2)
  {
    AlternatingChains(lines);
    var g := Regrouped(preFirst, lines);
    if |lines| == 2 {
      PairChains(lines[0], lines[1]);
      assert lines == [lines[0], lines[1]];
      assert g[0].chain == if preFirst then EgmPrerouting else EgmPostrouting;
    } else if |lines| > 2 {
      assert g[0].chain == g[1].chain;
      assert lines[0].chain != lines[1].chain;
    }
  }

  lemma ChainLinesOf(t: Table, c: OwnedChain, rules: seq<Rule>)
    requires Owned(c) in t && t[Owned(c)] == Wrap(rules)
    ensures ChainLines(t, c) == LinesOf(c, rules)
  {
    assert OwnRules(Wrap(rules)) == rules;
  }

  lemma NatListing(preFirst: bool, lines: seq<Line>, t: Table)
    requires forall c | InTable(NatTable, c) :: Owned(c) in t && t[Owned(c)] == Wrap(InChain(lines, c))
    ensures GroupedLines(preFirst, NatTable, t) == Regrouped(preFirst, lines)
  {
    var c, d := if preFirst then EgmPrerouting else EgmPostrouting, if preFirst then EgmPostrouting else EgmPrerouting;
    ChainLinesOf(t, c, InChain(lines, c));
    ChainLinesOf(t, d, InChain(lines, d));
    assert OwnedOrder(preFirst, NatTable) == [c, d] && [c, d][1..] == [d] && [d][1..] == [];
    assert Grouped(t, [d]) == ChainLines(t, d) + [];
  }

  lemma {:induction false} OneChainListing(lines: seq<Line>)
    requires Shaped(FilterTable, lines)
    ensures LinesOf(EgmForward, InChain(lines, EgmForward)) == lines
  {
    if lines != [] {
      assert Shaped(FilterTable, lines[1..]);
      OneChainListing(lines[1..]);
      assert InChain(lines, EgmForward) == [lines[0].rule] + InChain(lines[1..], EgmForward);
      assert lines == [lines[0]] + LinesOf(EgmForward, InChain(lines[1..], EgmForward));
    }
  }

  /**
   * The operator's rollback compares the inspected state with the one read back from the candidate, list against
   * list. Right after a successful apply they are equal exactly when at most one forwarding rule was rendered and
   * the tool lists the prerouting chain first: otherwise one is grouped by chain and the other is interleaved.
   * The comparison is of texts. That the saving tool prints a rule as it was written is taken for granted here; where
   * it does not, the guard refuses those installs as well, and the refusals proved here are unaffected.
   */
  lemma RollbackGuardAcceptsIff(preFirst: bool, fs: seq<Forward>, previous: IptState, w: World)
    requires WellFormedWorld(w)
    requires Matches(NatTable, w.nat_, Installed(fs)) && Matches(FilterTable, w.filter, Installed(fs))
    ensures CandidateState(ApplyOf(fs, previous), previous) == Some(StateOf(preFirst, w)) <==>
            IptLines(NatTable, fs) == [] || (preFirst && |IptLines(NatTable, fs)| == 2)
  {
    CandidatePredicts(fs, previous);
    RenderedInTable(NatTable, fs);
    InspectedAfterApply(preFirst, fs, w);
    RegroupedSameIff(preFirst, IptLines(NatTable, fs));
  }

  /** Inspecting an installed host shows every chain and anchor, and the nat rules regrouped by chain. */
  lemma InspectedAfterApply(preFirst: bool, fs: seq<Forward>, w: World)
    requires Matches(NatTable, w.nat_, Installed(fs)) && Matches(FilterTable, w.filter, Installed(fs))
    ensures StateOf(preFirst, w) == Installed(fs).(natRules := Regrouped(preFirst, IptLines(NatTable, fs)))
  {
    NatListing(preFirst, IptLines(NatTable, fs), w.nat_);
    FilterListing(preFirst, fs, w.filter);
    StateRecords(preFirst, w);
    EveryChainRecorded(StateOf(preFirst, w), w);
  }

  lemma FilterListing(preFirst: bool, fs: seq<Forward>, t: Table)
    requires Matches(FilterTable, t, Installed(fs))
    ensures GroupedLines(preFirst, FilterTable, t) == IptFilterList(fs)
  {
    RenderedInTable(FilterTable, fs);
    OneChainListing(IptFilterList(fs));
    ChainLinesOf(t, EgmForward, InChain(IptFilterList(fs), EgmForward));
    assert [EgmForward][1..] == [];
    assert Grouped(t, [EgmForward]) == ChainLines(t, EgmForward) + [];
  }

  lemma EveryChainRecorded(s: IptState, w: World)
    requires Records(NatTable, w.nat_, s) && Records(FilterTable, w.filter, s)
    requires forall c | InTable(NatTable, c) :: Owned(c) in w.nat_ && AnchoredIn(w.nat_, c)
    requires forall c | InTable(FilterTable, c) :: Owned(c) in w.filter && AnchoredIn(w.filter, c)
    ensures s.chains == EVERY_CHAIN && s.anchors == EVERY_CHAIN
  {
    forall c: OwnedChain ensures c in EVERY_CHAIN && c in s.chains && c in s.anchors {
      assert InTable(NatTable, c) || InTable(FilterTable, c);
      match c { case EgmPrerouting => case EgmPostrouting => case EgmForward => }
    }
  }
}
