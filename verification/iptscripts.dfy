/** Inspection of the owned iptables state, the apply script, and the script that undoes it. */
module IptScripts {
  import opened Wrappers
  import opened Forwards
  import opened NatRules
  import opened NatRender
  import opened IptWorld

  /** The inspected owned state: which owned chains and anchors exist, and the rules in the order listed. */
  datatype IptState = IptState(chains: set<OwnedChain>, anchors: set<OwnedChain>, natRules: seq<Line>, filterRules: seq<Line>)

  const EMPTY_STATE := IptState({}, {}, [], [])

  /** A line of `iptables-save`: a chain declaration or a rule. */
  datatype SaveLine = ChainLine(chain: Chain) | RuleLine(chain: Chain, rule: WorldRule)

  // ---------------------------------------------------------------- parsing a saved table

  function AddRule(table: IptTable, s: IptState, line: Line): IptState {
    if table == NatTable then s.(natRules := s.natRules + [line]) else s.(filterRules := s.filterRules + [line])
  }

  /** One line; `None` is a collision with the owned names. */
  function ParseLine(table: IptTable, line: SaveLine, s: IptState): Option<IptState> {
    match line
    case ChainLine(Owned(c)) => if InTable(table, c) then Some(s.(chains := s.chains + {c})) else None
    case ChainLine(_) => Some(s)
    case RuleLine(Owned(c), r) =>
      if InTable(table, c) && r.Own? then Some(AddRule(table, s, Line(c, r.rule))) else None
    case RuleLine(k, r) =>
      match JumpTarget(r)
      case None => Some(s)
      case Some(c) =>
        if InTable(table, c) && k == Home(c) && r.Anchor? && c !in s.anchors then Some(s.(anchors := s.anchors + {c})) else None
  }

  function ParseLines(table: IptTable, lines: seq<SaveLine>, s: IptState): Option<IptState> {
    if lines == [] then Some(s)
    else
      var next := ParseLine(table, lines[0], s);
      if next.None? then None else ParseLines(table, lines[1..], next.value)
  }

  function ParseTable(table: IptTable, lines: seq<SaveLine>, s: IptState): Option<IptState> {
    var r := ParseLines(table, lines, s);
    if r.Some? && r.value.anchors <= r.value.chains then r else None
  }

  /** The parser updates the state line by line and stops at the first collision. */
  method ParseTableLoop(table: IptTable, lines: seq<SaveLine>, initial: IptState) returns (r: Option<IptState>)
    ensures r == ParseTable(table, lines, initial)
  {
    var s := initial;
    for i := 0 to |lines|
      invariant ParseLines(table, lines, initial) == ParseLines(table, lines[i..], s)
    {
      assert lines[i..][0] == lines[i] && lines[i..][1..] == lines[i + 1..];
      var next := ParseLine(table, lines[i], s);
      if next.None? {
        return None;
      }
      s := next.value;
    }
    if !(s.anchors <= s.chains) {
      return None;
    }
    return Some(s);
  }

  lemma {:induction false} ParseAppend(table: IptTable, a: seq<SaveLine>, b: seq<SaveLine>, s: IptState)
    ensures ParseLines(table, a + b, s) ==
            if ParseLines(table, a, s).None? then None else ParseLines(table, b, ParseLines(table, a, s).value)
    decreases |a|
  {
    if a == [] {
      assert a + b == b;
    } else {
      assert (a + b)[1..] == a[1..] + b;
      var next := ParseLine(table, a[0], s);
      if next.Some? {
        ParseAppend(table, a[1..], b, next.value);
      }
    }
  }

  // ---------------------------------------------------------------- what inspection sees

  function LinesOf(c: OwnedChain, rules: seq<Rule>): seq<Line> {
    seq(|rules|, i requires 0 <= i < |rules| => Line(c, rules[i]))
  }

  /** The saved rules of one owned chain, if it exists. */
  function ChainLines(t: Table, c: OwnedChain): seq<Line> {
    if Owned(c) in t && AllOwn(t[Owned(c)]) then LinesOf(c, OwnRules(t[Owned(c)])) else []
  }

  /** The saving tool lists rules chain by chain; which of the two nat chains comes first depends on the tool. */
  function OwnedOrder(preFirst: bool, table: IptTable): seq<OwnedChain> {
    if table == FilterTable then [EgmForward]
    else if preFirst then [EgmPrerouting, EgmPostrouting] else [EgmPostrouting, EgmPrerouting]
  }

  function Grouped(t: Table, chains: seq<OwnedChain>): seq<Line> {
    if chains == [] then [] else ChainLines(t, chains[0]) + Grouped(t, chains[1..])
  }

  function GroupedLines(preFirst: bool, table: IptTable, t: Table): seq<Line> {
    Grouped(t, OwnedOrder(preFirst, table))
  }

  function OwnedChains(table: IptTable, t: Table): set<OwnedChain> {
    set c: OwnedChain | InTable(table, c) && Owned(c) in t
  }

  function OwnedAnchors(table: IptTable, t: Table): set<OwnedChain> {
    set c: OwnedChain | InTable(table, c) && AnchoredIn(t, c)
  }

  /** The owned state of a host. */
  function StateOf(preFirst: bool, w: World): IptState {
    IptState(
      OwnedChains(NatTable, w.nat_) + OwnedChains(FilterTable, w.filter),
      OwnedAnchors(NatTable, w.nat_) + OwnedAnchors(FilterTable, w.filter),
      GroupedLines(preFirst, NatTable, w.nat_),
      GroupedLines(preFirst, FilterTable, w.filter))
  }

  ghost predicate WellFormedWorld(w: World) {
    WellFormed(NatTable, w.nat_) && WellFormed(FilterTable, w.filter)
  }

  function DeclLines(chains: seq<Chain>): seq<SaveLine> {
    seq(|chains|, i requires 0 <= i < |chains| => ChainLine(chains[i]))
  }

  function RuleLines(chain: Chain, rules: seq<WorldRule>): seq<SaveLine> {
    seq(|rules|, i requires 0 <= i < |rules| => RuleLine(chain, rules[i]))
  }

  function AllRuleLines(t: Table, chains: seq<Chain>): seq<SaveLine> {
    if chains == [] then []
    else (if chains[0] in t then RuleLines(chains[0], t[chains[0]]) else []) + AllRuleLines(t, chains[1..])
  }

  function Present(t: Table, chains: seq<OwnedChain>): seq<Chain> {
    if chains == [] then []
    else (if Owned(chains[0]) in t then [Owned(chains[0])] else []) + Present(t, chains[1..])
  }

  /** What the saving tool prints for a table whose other chains are listed in `others`. */
  function Save(preFirst: bool, table: IptTable, others: seq<Chain>, t: Table): seq<SaveLine> {
    var chains := others + Present(t, OwnedOrder(preFirst, table));
    DeclLines(chains) + AllRuleLines(t, chains)
  }

  /** A chain of another program, or one of this program's that belongs in the other table. */
  predicate Stranger(table: IptTable, k: Chain) {
    k.Owned? ==> !InTable(table, k.chain)
  }

  /** `others` lists each stranger exactly once. */
  ghost predicate ListsOthers(table: IptTable, others: seq<Chain>, t: Table) {
    && (forall k: Chain :: k in others <==> k in t && Stranger(table, k))
    && (forall i, j | 0 <= i < j < |others| :: others[i] != others[j])
  }

  lemma {:induction false} ParseDecls(table: IptTable, chains: seq<Chain>, s: IptState)
    requires forall i | 0 <= i < |chains| && chains[i].Owned? :: InTable(table, chains[i].chain)
    ensures ParseLines(table, DeclLines(chains), s) ==
            Some(s.(chains := s.chains + set c: OwnedChain | InTable(table, c) && Owned(c) in chains))
    decreases |chains|
  {
    var found := set c: OwnedChain | InTable(table, c) && Owned(c) in chains;
    if chains == [] {
      assert s.chains + found == s.chains;
    } else {
      assert DeclLines(chains)[1..] == DeclLines(chains[1..]);
      var next := ParseLine(table, ChainLine(chains[0]), s).value;
      ParseDecls(table, chains[1..], next);
      assert chains == [chains[0]] + chains[1..];
      assert next.chains + (set c: OwnedChain | InTable(table, c) && Owned(c) in chains[1..]) == s.chains + found;
    }
  }

  function AddRules(table: IptTable, s: IptState, lines: seq<Line>): IptState {
    if table == NatTable then s.(natRules := s.natRules + lines) else s.(filterRules := s.filterRules + lines)
  }

  lemma AddRulesTwice(table: IptTable, s: IptState, a: seq<Line>, b: seq<Line>)
    ensures AddRules(table, AddRules(table, s, a), b) == AddRules(table, s, a + b)
    ensures AddRules(table, s, []) == s
  {
    assert (s.natRules + a) + b == s.natRules + (a + b) && s.natRules + [] == s.natRules;
    assert (s.filterRules + a) + b == s.filterRules + (a + b) && s.filterRules + [] == s.filterRules;
  }

  /** The rules of an owned chain are collected in order. */
  lemma {:induction false} ParseOwnedRules(table: IptTable, c: OwnedChain, rules: seq<WorldRule>, s: IptState)
    requires InTable(table, c) && AllOwn(rules)
    ensures ParseLines(table, RuleLines(Owned(c), rules), s) == Some(AddRules(table, s, LinesOf(c, OwnRules(rules))))
    decreases |rules|
  {
    if rules == [] {
      assert LinesOf(c, OwnRules(rules)) == [];
      AddRulesTwice(table, s, [], []);
    } else {
      var head, rest := [Line(c, rules[0].rule)], LinesOf(c, OwnRules(rules[1..]));
      assert RuleLines(Owned(c), rules)[1..] == RuleLines(Owned(c), rules[1..]);
      assert LinesOf(c, OwnRules(rules)) == head + rest;
      AddRulesTwice(table, s, head, rest);
      ParseOwnedRules(table, c, rules[1..], AddRules(table, s, head));
    }
  }

  function AnchorsAmong(table: IptTable, rules: seq<WorldRule>): set<OwnedChain> {
    set c: OwnedChain | InTable(table, c) && AnchorCount(rules, c) > 0
  }

  function AnchorsOfHooks(table: IptTable, hooks: seq<Chain>, t: Table): set<OwnedChain> {
    set c: OwnedChain | InTable(table, c) && Home(c) in hooks && AnchoredIn(t, c)
  }

  /** In a chain of others only anchors matter, and each is accepted once, in its own hook. */
  lemma {:induction false} ParseOtherRules(table: IptTable, k: Chain, rules: seq<WorldRule>, s: IptState)
    requires !k.Owned?
    requires forall i | 0 <= i < |rules| && JumpTarget(rules[i]).Some? :: IsAnchor(table, k, rules[i])
    requires forall c | InTable(table, c) :: AnchorCount(rules, c) + (if c in s.anchors then 1 else 0) <= 1
    ensures ParseLines(table, RuleLines(k, rules), s) ==
            Some(s.(anchors := s.anchors + AnchorsAmong(table, rules)))
    decreases |rules|
  {
    var found := AnchorsAmong(table, rules);
    if rules == [] {
      assert found == {} && s.anchors + found == s.anchors && s == s.(anchors := s.anchors);
    } else {
      assert RuleLines(k, rules)[1..] == RuleLines(k, rules[1..]);
      var next := ParseLine(table, RuleLine(k, rules[0]), s).value;
      ParseOtherRules(table, k, rules[1..], next);
      assert next.anchors + AnchorsAmong(table, rules[1..]) == s.anchors + found;
    }
  }

  lemma {:induction false} ParseAllOthers(table: IptTable, t: Table, others: seq<Chain>, s: IptState)
    requires ChainsOk(table, t)
    requires forall i | 0 <= i < |others| :: others[i] in t && !others[i].Owned?
    requires forall i, j | 0 <= i < j < |others| :: others[i] != others[j]
    requires forall c | InTable(table, c) && Home(c) in others :: c !in s.anchors
    ensures ParseLines(table, AllRuleLines(t, others), s) ==
            Some(s.(anchors := s.anchors + AnchorsOfHooks(table, others, t)))
    decreases |others|
  {
    var found := AnchorsOfHooks(table, others, t);
    if others == [] {
      assert found == {} && s.anchors + found == s.anchors && s == s.(anchors := s.anchors);
    } else {
      var k := others[0];
      forall c | InTable(table, c) ensures AnchorCount(t[k], c) > 0 <==> Home(c) == k && AnchoredIn(t, c) {
        AnchorCountZero(t[k], c);
        if AnchorCount(t[k], c) > 0 {
          var i :| 0 <= i < |t[k]| && t[k][i].Anchor? && t[k][i].target == c;
          assert IsAnchor(table, k, t[k][i]);
        }
      }
      assert others == [k] + others[1..];
      assert forall c | InTable(table, c) :: Home(c) == k ==> Home(c) in others;
      ParseOtherRules(table, k, t[k], s);
      var here := AnchorsAmong(table, t[k]);
      var next := s.(anchors := s.anchors + here);
      ParseAllOthers(table, t, others[1..], next);
      ParseAppend(table, RuleLines(k, t[k]), AllRuleLines(t, others[1..]), s);
      assert next.anchors + AnchorsOfHooks(table, others[1..], t) == s.anchors + found;
    }
  }

  lemma {:induction false} ParseAllOwned(table: IptTable, t: Table, chains: seq<OwnedChain>, s: IptState)
    requires ChainsOk(table, t)
    requires forall i | 0 <= i < |chains| :: InTable(table, chains[i])
    ensures ParseLines(table, AllRuleLines(t, Present(t, chains)), s) == Some(AddRules(table, s, Grouped(t, chains)))
    decreases |chains|
  {
    if chains == [] {
      AddRulesTwice(table, s, [], []);
    } else {
      var c := chains[0];
      var rest := Present(t, chains[1..]);
      var head := ChainLines(t, c);
      AddRulesTwice(table, s, head, Grouped(t, chains[1..]));
      ParseAllOwned(table, t, chains[1..], AddRules(table, s, head));
      if Owned(c) in t {
        ParseOwnedRules(table, c, t[Owned(c)], s);
        assert Present(t, chains) == [Owned(c)] + rest && ([Owned(c)] + rest)[1..] == rest;
        ParseAppend(table, RuleLines(Owned(c), t[Owned(c)]), AllRuleLines(t, rest), s);
      } else {
        assert head == [] && Present(t, chains) == rest;
      }
    }
  }

  lemma {:induction false} AllRuleLinesAppend(t: Table, a: seq<Chain>, b: seq<Chain>)
    ensures AllRuleLines(t, a + b) == AllRuleLines(t, a) + AllRuleLines(t, b)
    decreases |a|
  {
    if a == [] {
      assert a + b == b;
    } else {
      assert (a + b)[1..] == a[1..] + b;
      AllRuleLinesAppend(t, a[1..], b);
    }
  }

  lemma {:induction false} PresentMembers(t: Table, chains: seq<OwnedChain>)
    ensures forall k: Chain :: k in Present(t, chains) <==> k.Owned? && k.chain in chains && k in t
  {
    if chains != [] {
      PresentMembers(t, chains[1..]);
      assert chains == [chains[0]] + chains[1..];
    }
  }

  lemma ParseSavedRules(table: IptTable, others: seq<Chain>, order: seq<OwnedChain>, t: Table, s: IptState)
    requires ChainsOk(table, t) && ListsOthers(table, others, t) && (forall c | c in s.anchors :: !InTable(table, c))
    requires forall i | 0 <= i < |order| :: InTable(table, order[i])
    ensures ParseLines(table, AllRuleLines(t, others + Present(t, order)), s) ==
            Some(AddRules(table, s.(anchors := s.anchors + OwnedAnchors(table, t)), Grouped(t, order)))
  {
    forall i | 0 <= i < |others| ensures others[i] in t && !others[i].Owned? {
      assert others[i] in others && ChainOk(table, others[i], t[others[i]]);
    }
    ParseAllOthers(table, t, others, s);
    assert AnchorsOfHooks(table, others, t) == OwnedAnchors(table, t);
    ParseAllOwned(table, t, order, s.(anchors := s.anchors + OwnedAnchors(table, t)));
    AllRuleLinesAppend(t, others, Present(t, order));
    ParseAppend(table, AllRuleLines(t, others), AllRuleLines(t, Present(t, order)), s);
  }

  lemma ParseSavedDecls(table: IptTable, others: seq<Chain>, order: seq<OwnedChain>, t: Table, s: IptState)
    requires ListsOthers(table, others, t) && forall k: Chain | k in t && k.Owned? :: InTable(table, k.chain)
    requires forall c :: c in order <==> InTable(table, c)
    ensures ParseLines(table, DeclLines(others + Present(t, order)), s) == Some(s.(chains := s.chains + OwnedChains(table, t)))
  {
    var chains := others + Present(t, order);
    PresentMembers(t, order);
    forall i | 0 <= i < |chains| && chains[i].Owned? ensures InTable(table, chains[i].chain) {
      assert chains[i] in others || chains[i] in Present(t, order);
    }
    ParseDecls(table, chains, s);
    assert (set c: OwnedChain | InTable(table, c) && Owned(c) in chains) == OwnedChains(table, t);
  }

  /** Parsing what the saving tool prints for a well-formed table adds exactly its owned part to the state. */
  lemma ParseOfSave(preFirst: bool, table: IptTable, others: seq<Chain>, t: Table, s: IptState)
    requires WellFormed(table, t) && ListsOthers(table, others, t)
    requires s.anchors <= s.chains && (forall c | c in s.anchors :: !InTable(table, c))
    ensures ParseTable(table, Save(preFirst, table, others, t), s) == Some(AddRules(table,
      s.(chains := s.chains + OwnedChains(table, t), anchors := s.anchors + OwnedAnchors(table, t)),
      GroupedLines(preFirst, table, t)))
  {
    ParseLinesOfSave(preFirst, table, others, t, s);
    assert OwnedAnchors(table, t) <= OwnedChains(table, t);
  }

  lemma AnchorsHaveChains(table: IptTable, t: Table)
    requires WellFormed(table, t)
    ensures OwnedAnchors(table, t) <= OwnedChains(table, t)
  {
  }

  lemma ParseLinesOfSave(preFirst: bool, table: IptTable, others: seq<Chain>, t: Table, s: IptState)
    requires ChainsOk(table, t) && ListsOthers(table, others, t) && (forall c | c in s.anchors :: !InTable(table, c))
    ensures ParseLines(table, Save(preFirst, table, others, t), s) == Some(AddRules(table,
      s.(chains := s.chains + OwnedChains(table, t), anchors := s.anchors + OwnedAnchors(table, t)),
      GroupedLines(preFirst, table, t)))
  {
    var order := OwnedOrder(preFirst, table);
    var chains := others + Present(t, order);
    var s1 := s.(chains := s.chains + OwnedChains(table, t));
    forall k: Chain | k in t && k.Owned? ensures InTable(table, k.chain) {
      assert ChainOk(table, k, t[k]);
    }
    ParseSavedDecls(table, others, order, t, s);
    ParseSavedRules(table, others, order, t, s1);
    ParseAppend(table, DeclLines(chains), AllRuleLines(t, chains), s);
  }

  // ---------------------------------------------------------------- what is accepted is well-formed

  lemma {:induction false} AcceptedDecls(table: IptTable, chains: seq<Chain>, s: IptState)
    requires ParseLines(table, DeclLines(chains), s).Some?
    ensures forall i | 0 <= i < |chains| && chains[i].Owned? :: InTable(table, chains[i].chain)
    ensures ParseLines(table, DeclLines(chains), s).value.anchors == s.anchors
    decreases |chains|
  {
    if chains != [] {
      assert DeclLines(chains)[1..] == DeclLines(chains[1..]);
      AcceptedDecls(table, chains[1..], ParseLine(table, ChainLine(chains[0]), s).value);
      assert forall i | 0 < i < |chains| :: chains[1..][i - 1] == chains[i];
    }
  }

  lemma {:induction false} AcceptedOwnedRules(table: IptTable, c: OwnedChain, rules: seq<WorldRule>, s: IptState)
    requires ParseLines(table, RuleLines(Owned(c), rules), s).Some?
    ensures AllOwn(rules)
    decreases |rules|
  {
    if rules != [] {
      assert RuleLines(Owned(c), rules)[1..] == RuleLines(Owned(c), rules[1..]);
      AcceptedOwnedRules(table, c, rules[1..], ParseLine(table, RuleLine(Owned(c), rules[0]), s).value);
      assert forall i | 0 < i < |rules| :: rules[1..][i - 1] == rules[i];
    }
  }

  lemma {:induction false} AcceptedOtherRules(table: IptTable, k: Chain, rules: seq<WorldRule>, s: IptState)
    requires !k.Owned? && ParseLines(table, RuleLines(k, rules), s).Some?
    ensures forall i | 0 <= i < |rules| && JumpTarget(rules[i]).Some? :: IsAnchor(table, k, rules[i])
    ensures forall c | InTable(table, c) :: AnchorCount(rules, c) + (if c in s.anchors then 1 else 0) <= 1
    decreases |rules|
  {
    if rules != [] {
      assert RuleLines(k, rules)[1..] == RuleLines(k, rules[1..]);
      var next := ParseLine(table, RuleLine(k, rules[0]), s).value;
      AcceptedOtherRules(table, k, rules[1..], next);
      assert forall i | 0 < i < |rules| :: rules[1..][i - 1] == rules[i];
    } else {
      assert forall c :: AnchorCount(rules, c) == 0;
    }
  }

  lemma {:induction false} NoAnchorsAmongOwn(rules: seq<WorldRule>, c: OwnedChain)
    requires AllOwn(rules)
    ensures AnchorCount(rules, c) == 0
  {
    if rules != [] {
      NoAnchorsAmongOwn(rules[1..], c);
    }
  }

  lemma AcceptedChain(table: IptTable, k: Chain, rules: seq<WorldRule>, s: IptState)
    requires ParseLines(table, RuleLines(k, rules), s).Some? && (k.Owned? ==> InTable(table, k.chain))
    ensures ChainOk(table, k, rules)
  {
    if k.Owned? {
      AcceptedOwnedRules(table, k.chain, rules, s);
      forall c ensures AnchorCount(rules, c) == 0 {
        NoAnchorsAmongOwn(rules, c);
      }
    } else {
      AcceptedOtherRules(table, k, rules, s);
      forall c | InTable(table, c) ensures AnchorCount(rules, c) <= 1 {
        assert AnchorCount(rules, c) + (if c in s.anchors then 1 else 0) <= 1;
      }
    }
  }

  lemma {:induction false} AcceptedChains(table: IptTable, t: Table, chains: seq<Chain>, s: IptState)
    requires ParseLines(table, AllRuleLines(t, chains), s).Some?
    requires forall i | 0 <= i < |chains| && chains[i].Owned? :: InTable(table, chains[i].chain)
    ensures forall i | 0 <= i < |chains| && chains[i] in t :: ChainOk(table, chains[i], t[chains[i]])
    decreases |chains|
  {
    if chains != [] {
      assert forall i | 0 < i < |chains| :: chains[1..][i - 1] == chains[i];
      assert forall i | 0 <= i < |chains[1..]| :: chains[1..][i] == chains[i + 1];
      var first := if chains[0] in t then RuleLines(chains[0], t[chains[0]]) else [];
      ParseAppend(table, first, AllRuleLines(t, chains[1..]), s);
      if chains[0] in t {
        AcceptedChain(table, chains[0], t[chains[0]], s);
      }
      AcceptedChains(table, t, chains[1..], ParseLines(table, first, s).value);
    }
  }

  lemma SavedChains(preFirst: bool, table: IptTable, others: seq<Chain>, t: Table)
    requires ListsOthers(table, others, t)
    ensures forall k: Chain :: k in others + Present(t, OwnedOrder(preFirst, table)) <==> k in t
  {
    PresentMembers(t, OwnedOrder(preFirst, table));
    forall c ensures c in OwnedOrder(preFirst, table) <==> InTable(table, c) {
    }
  }

  /** A table is accepted exactly if it is well-formed; its hooks always exist. */
  lemma AcceptedIffWellFormed(preFirst: bool, table: IptTable, others: seq<Chain>, t: Table, s: IptState)
    requires HooksExist(table, t) && ListsOthers(table, others, t)
    requires s.anchors <= s.chains && (forall c | c in s.chains :: !InTable(table, c))
    ensures ParseTable(table, Save(preFirst, table, others, t), s).Some? <==> WellFormed(table, t)
  {
    if WellFormed(table, t) {
      ParseOfSave(preFirst, table, others, t, s);
    }
    if ParseTable(table, Save(preFirst, table, others, t), s).Some? {
      var chains := others + Present(t, OwnedOrder(preFirst, table));
      SavedChains(preFirst, table, others, t);
      ParseAppend(table, DeclLines(chains), AllRuleLines(t, chains), s);
      AcceptedDecls(table, chains, s);
      AcceptedChains(table, t, chains, ParseLines(table, DeclLines(chains), s).value);
      forall k: Chain | k in t ensures ChainOk(table, k, t[k]) {
        var i :| 0 <= i < |chains| && chains[i] == k;
      }
      ParseLinesOfSave(preFirst, table, others, t, s);
      forall c | InTable(table, c) && AnchoredIn(t, c) ensures Owned(c) in t {
        assert c in OwnedAnchors(table, t);
      }
    }
  }

  /** Inspecting both tables yields the owned state of exactly the well-formed hosts, and an error for all others. */
  method Inspect(preFirst: bool, natOthers: seq<Chain>, filterOthers: seq<Chain>, w: World) returns (r: Option<IptState>)
    requires HooksExist(NatTable, w.nat_) && HooksExist(FilterTable, w.filter)
    requires ListsOthers(NatTable, natOthers, w.nat_) && ListsOthers(FilterTable, filterOthers, w.filter)
    ensures r == if WellFormedWorld(w) then Some(StateOf(preFirst, w)) else None
  {
    AcceptedIffWellFormed(preFirst, NatTable, natOthers, w.nat_, EMPTY_STATE);
    r := ParseTableLoop(NatTable, Save(preFirst, NatTable, natOthers, w.nat_), EMPTY_STATE);
    if r.None? {
      return;
    }
    InspectNat(preFirst, natOthers, w);
    AcceptedIffWellFormed(preFirst, FilterTable, filterOthers, w.filter, NatPart(preFirst, w));
    if WellFormed(FilterTable, w.filter) {
      InspectFilter(preFirst, filterOthers, w);
    }
    r := ParseTableLoop(FilterTable, Save(preFirst, FilterTable, filterOthers, w.filter), r.value);
  }

  function NatPart(preFirst: bool, w: World): IptState {
    IptState(OwnedChains(NatTable, w.nat_), OwnedAnchors(NatTable, w.nat_), GroupedLines(preFirst, NatTable, w.nat_), [])
  }

  lemma InspectNat(preFirst: bool, others: seq<Chain>, w: World)
    requires WellFormed(NatTable, w.nat_) && ListsOthers(NatTable, others, w.nat_)
    ensures ParseTable(NatTable, Save(preFirst, NatTable, others, w.nat_), EMPTY_STATE) == Some(NatPart(preFirst, w))
    ensures NatPart(preFirst, w).anchors <= NatPart(preFirst, w).chains
  {
    ParseOfSave(preFirst, NatTable, others, w.nat_, EMPTY_STATE);
    NothingAdded(OwnedChains(NatTable, w.nat_), OwnedAnchors(NatTable, w.nat_), GroupedLines(preFirst, NatTable, w.nat_));
  }

  lemma NothingAdded(chains: set<OwnedChain>, anchors: set<OwnedChain>, rules: seq<Line>)
    ensures {} + chains == chains && {} + anchors == anchors && [] + rules == rules
  {
  }

  lemma InspectFilter(preFirst: bool, others: seq<Chain>, w: World)
    requires WellFormedWorld(w) && ListsOthers(FilterTable, others, w.filter)
    ensures ParseTable(FilterTable, Save(preFirst, FilterTable, others, w.filter), NatPart(preFirst, w)) == Some(StateOf(preFirst, w))
  {
    ParseOfSave(preFirst, FilterTable, others, w.filter, NatPart(preFirst, w));
    assert [] + GroupedLines(preFirst, FilterTable, w.filter) == GroupedLines(preFirst, FilterTable, w.filter);
  }
}
