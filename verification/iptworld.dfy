/** Chains of the host, and an interpreter for the scripts fed to `iptables-restore --noflush`. */
module IptWorld {
  import opened Wrappers
  import opened NatRules
  import opened NatRender

  datatype Chain = Prerouting | Postrouting | ForwardHook | Owned(chain: OwnedChain) | Other(name: nat)

  /**
   * A rule under a comment of this program; a jump to an owned chain under the comment of its anchor, with further
   * conditions or (0) without; or anything else, with the chain it jumps to or goes to.
   */
  datatype WorldRule =
    | Own(rule: Rule)
    | Anchor(target: OwnedChain, conditions: nat)
    | Foreign(text: nat, jump: Option<OwnedChain>, goto: Option<OwnedChain>)

  /** The anchor as this program writes it. */
  function Bare(c: OwnedChain): WorldRule {
    Anchor(c, 0)
  }

  type Table = map<Chain, seq<WorldRule>>

  datatype Command =
    | Declare(chain: Chain)
    | Flush(chain: Chain)
    | Append(chain: Chain, rule: WorldRule)
    | InsertFirst(chain: Chain, rule: WorldRule)
    | Delete(chain: Chain, rule: WorldRule)
    | DeleteChain(chain: Chain)

  /** The two table sections of a script; each takes effect as a whole at its COMMIT. */
  datatype Script = Script(nat_: seq<Command>, filter: seq<Command>)

  datatype World = World(nat_: Table, filter: Table)

  /** The built-in chain that an owned chain is hooked into. */
  function Home(c: OwnedChain): Chain {
    match c
    case EgmPrerouting => Prerouting
    case EgmPostrouting => Postrouting
    case EgmForward => ForwardHook
  }

  /** The chain that a rule of an owned chain leads to. */
  function Lead(r: Rule): Option<Chain> {
    if !r.action.Custom? || r.action.leads.None? then None
    else
      match r.action.leads.value
      case Egm(c) => Some(Owned(c))
      case Elsewhere(n) => Some(Other(n))
  }

  /** The jump that inspection looks for outside the owned chains; it does not look for `-g`. */
  function JumpTarget(r: WorldRule): Option<OwnedChain> {
    match r
    case Own(rule) => if Lead(rule).Some? && Lead(rule).value.Owned? then Some(Lead(rule).value.chain) else None
    case Anchor(c, _) => Some(c)
    case Foreign(_, j, _) => j
  }

  predicate JumpsTo(r: WorldRule, c: OwnedChain) {
    JumpTarget(r) == Some(c) || (r.Foreign? && r.goto == Some(c))
  }

  predicate Referenced(t: Table, c: OwnedChain) {
    exists k: Chain | k in t :: exists r | r in t[k] :: JumpsTo(r, c)
  }

  predicate TargetExists(t: Table, r: WorldRule) {
    match r
    case Own(rule) => Lead(rule).Some? ==> Lead(rule).value in t
    case Anchor(c, _) => Owned(c) in t
    case Foreign(_, j, g) => (j.Some? ==> Owned(j.value) in t) && (g.Some? ==> Owned(g.value) in t)
  }

  function RemoveFirst(rules: seq<WorldRule>, r: WorldRule): seq<WorldRule> {
    if rules == [] then [] else if rules[0] == r then rules[1..] else [rules[0]] + RemoveFirst(rules[1..], r)
  }

  /**
   * One command; `None` is an error. Declaring an existing chain clears it in some versions of the tool
   * and leaves it alone in others, so that choice is a parameter.
   */
  function Exec(clears: bool, cmd: Command, t: Table): Option<Table> {
    match cmd
    case Declare(c) => Some(if c !in t || clears then t[c := []] else t)
    case Flush(c) => if c in t then Some(t[c := []]) else None
    case Append(c, r) => if c in t && TargetExists(t, r) then Some(t[c := t[c] + [r]]) else None
    case InsertFirst(c, r) => if c in t && TargetExists(t, r) then Some(t[c := [r] + t[c]]) else None
    case Delete(c, r) => if c in t && r in t[c] then Some(t[c := RemoveFirst(t[c], r)]) else None
    case DeleteChain(c) =>
      if c in t && t[c] == [] && (c.Owned? ==> !Referenced(t, c.chain)) then Some(t - {c}) else None
  }

  function Run(clears: bool, cmds: seq<Command>, t: Table): Option<Table> {
    if cmds == [] then Some(t)
    else
      var next := Exec(clears, cmds[0], t);
      if next.None? then None else Run(clears, cmds[1..], next.value)
  }

  /** A failing section leaves its table alone; a failing filter section leaves the nat section applied. */
  function RunScript(clears: bool, s: Script, w: World): (World, bool) {
    var n := Run(clears, s.nat_, w.nat_);
    if n.None? then (w, false)
    else
      var f := Run(clears, s.filter, w.filter);
      if f.None? then (World(n.value, w.filter), false) else (World(n.value, f.value), true)
  }

  lemma {:induction false} RunAppend(clears: bool, a: seq<Command>, b: seq<Command>, t: Table)
    ensures Run(clears, a + b, t) == if Run(clears, a, t).None? then None else Run(clears, b, Run(clears, a, t).value)
    decreases |a|
  {
    if a == [] {
      assert a + b == b;
    } else {
      assert (a + b)[1..] == a[1..] + b;
      var next := Exec(clears, a[0], t);
      if next.Some? {
        RunAppend(clears, a[1..], b, next.value);
      }
    }
  }

  lemma RunOne(clears: bool, cmd: Command, t: Table)
    ensures Run(clears, [cmd], t) == Exec(clears, cmd, t)
  {
    assert [cmd][1..] == [];
  }

  // ---------------------------------------------------------------- the part of a table this program owns

  predicate InTable(table: IptTable, c: OwnedChain) {
    table == NatTable <==> c != EgmForward
  }

  /** The rules of a chain that are not anchors, in order. */
  function Strangers(rules: seq<WorldRule>): seq<WorldRule> {
    if rules == [] then []
    else (if rules[0].Anchor? then [] else [rules[0]]) + Strangers(rules[1..])
  }

  function AnchorCount(rules: seq<WorldRule>, c: OwnedChain): nat {
    if rules == [] then 0 else (if rules[0].Anchor? && rules[0].target == c then 1 else 0) + AnchorCount(rules[1..], c)
  }

  predicate AllOwn(rules: seq<WorldRule>) {
    forall i | 0 <= i < |rules| :: rules[i].Own?
  }

  function OwnRules(rules: seq<WorldRule>): seq<Rule>
    requires AllOwn(rules)
  {
    seq(|rules|, i requires 0 <= i < |rules| => rules[i].rule)
  }

  /**
   * The rules a chain may hold: an owned chain only such as carry a comment of this program, wherever they lead; any
   * other chain no jump to an owned chain but its anchor, bare or not, in its hook. Going there is not a jump.
   */
  ghost predicate ChainOk(table: IptTable, k: Chain, rules: seq<WorldRule>) {
    && (k.Owned? ==> InTable(table, k.chain) && AllOwn(rules))
    && (!k.Owned? ==> JumpsAreAnchors(table, k, rules))
    && (forall c | InTable(table, c) :: AnchorCount(rules, c) <= 1)
  }

  ghost predicate JumpsAreAnchors(table: IptTable, k: Chain, rules: seq<WorldRule>) {
    forall i | 0 <= i < |rules| && JumpTarget(rules[i]).Some? :: IsAnchor(table, k, rules[i])
  }

  predicate IsAnchor(table: IptTable, k: Chain, r: WorldRule) {
    r.Anchor? && InTable(table, r.target) && k == Home(r.target)
  }

  function AnchoredIn(t: Table, c: OwnedChain): bool {
    Home(c) in t && AnchorCount(t[Home(c)], c) > 0
  }

  /** The built-in chains, which are always there. */
  ghost predicate HooksExist(table: IptTable, t: Table) {
    forall c | InTable(table, c) :: Home(c) in t
  }

  ghost predicate ChainsOk(table: IptTable, t: Table) {
    HooksExist(table, t) && forall k: Chain | k in t :: ChainOk(table, k, t[k])
  }

  /** A table the inspection accepts: each chain holds what it may, and an anchored chain exists. */
  ghost predicate WellFormed(table: IptTable, t: Table) {
    ChainsOk(table, t) && forall c | InTable(table, c) && AnchoredIn(t, c) :: Owned(c) in t
  }

  /** Replacing one chain by rules it may hold keeps the table well-formed, if its anchors keep their targets. */
  lemma ReplaceChain(table: IptTable, t: Table, k: Chain, rules: seq<WorldRule>)
    requires WellFormed(table, t) && ChainOk(table, k, rules)
    requires forall c | InTable(table, c) && Home(c) == k && AnchorCount(rules, c) > 0 :: Owned(c) in t
    ensures WellFormed(table, t[k := rules])
  {
  }

  /** The chains of others are the same apart from anchors: same rules, same order. */
  ghost predicate SameStrangers(before: Table, after: Table) {
    && (forall k: Chain :: !k.Owned? ==> (k in before <==> k in after))
    && (forall k: Chain | k in before && k in after && !k.Owned? :: Strangers(before[k]) == Strangers(after[k]))
  }

  /** Somewhere outside the owned chains a rule goes to this one. */
  ghost predicate GoneTo(t: Table, c: OwnedChain) {
    exists k: Chain, r | k in t && !k.Owned? && r in t[k] :: r.Foreign? && r.goto == Some(c)
  }

  /** The tool never leaves a rule without the chain it jumps to or goes to. */
  ghost predicate TargetsThere(t: Table) {
    forall k: Chain, r | k in t && r in t[k] :: TargetExists(t, r)
  }

  lemma GotosHaveTargets(t: Table, c: OwnedChain)
    requires TargetsThere(t) && GoneTo(t, c)
    ensures Owned(c) in t
  {
    var k, r :| k in t && !k.Owned? && r in t[k] && r.Foreign? && r.goto == Some(c);
    assert TargetExists(t, r);
  }

  lemma {:induction false} StrangerRules(rules: seq<WorldRule>, r: WorldRule)
    requires !r.Anchor?
    ensures r in rules <==> r in Strangers(rules)
  {
    if rules != [] {
      StrangerRules(rules[1..], r);
      assert rules == [rules[0]] + rules[1..];
    }
  }

  lemma SameGotos(before: Table, after: Table, c: OwnedChain)
    requires SameStrangers(before, after)
    ensures GoneTo(before, c) <==> GoneTo(after, c)
  {
    forall k: Chain, r: WorldRule | k in before && !k.Owned? && r.Foreign? ensures k in after && (r in before[k] <==> r in after[k]) {
      StrangerRules(before[k], r);
      StrangerRules(after[k], r);
    }
  }

  lemma {:induction false} AnchorCountAppend(a: seq<WorldRule>, b: seq<WorldRule>, c: OwnedChain)
    ensures AnchorCount(a + b, c) == AnchorCount(a, c) + AnchorCount(b, c)
  {
    if a == [] {
      assert a + b == b;
    } else {
      assert (a + b)[1..] == a[1..] + b;
      AnchorCountAppend(a[1..], b, c);
    }
  }

  lemma {:induction false} AnchorCountZero(rules: seq<WorldRule>, c: OwnedChain)
    ensures AnchorCount(rules, c) == 0 <==> forall r | r in rules :: !(r.Anchor? && r.target == c)
  {
    if rules != [] {
      AnchorCountZero(rules[1..], c);
      assert rules == [rules[0]] + rules[1..];
    }
  }

  /** Removing an anchor lowers its own count by one and disturbs nothing else. */
  lemma {:induction false} RemoveAnchor(rules: seq<WorldRule>, c: OwnedChain)
    requires Bare(c) in rules
    ensures Strangers(RemoveFirst(rules, Bare(c))) == Strangers(rules)
    ensures AnchorCount(RemoveFirst(rules, Bare(c)), c) == AnchorCount(rules, c) - 1
    ensures forall d | d != c :: AnchorCount(RemoveFirst(rules, Bare(c)), d) == AnchorCount(rules, d)
    ensures forall r | r in RemoveFirst(rules, Bare(c)) :: r in rules
  {
    if rules[0] != Bare(c) {
      RemoveAnchor(rules[1..], c);
      var rest := RemoveFirst(rules[1..], Bare(c));
      assert ([rules[0]] + rest)[1..] == rest;
    }
  }

  lemma PrependAnchor(rules: seq<WorldRule>, c: OwnedChain)
    ensures Strangers([Bare(c)] + rules) == Strangers(rules)
    ensures forall d :: AnchorCount([Bare(c)] + rules, d) == AnchorCount(rules, d) + if d == c then 1 else 0
  {
    assert ([Bare(c)] + rules)[1..] == rules;
  }

  function Wrap(rules: seq<Rule>): seq<WorldRule> {
    seq(|rules|, i requires 0 <= i < |rules| => Own(rules[i]))
  }

  function AppendCommands(lines: seq<Line>): seq<Command> {
    seq(|lines|, i requires 0 <= i < |lines| => Append(Owned(lines[i].chain), Own(lines[i].rule)))
  }

  /** Appending lines in any interleaving extends each owned chain by its own lines, in order. */
  lemma {:induction false} RunAppends(clears: bool, lines: seq<Line>, t: Table)
    requires forall i | 0 <= i < |lines| :: Owned(lines[i].chain) in t && TargetExists(t, Own(lines[i].rule))
    ensures Run(clears, AppendCommands(lines), t).Some?
    ensures var t' := Run(clears, AppendCommands(lines), t).value;
      && t'.Keys == t.Keys
      && forall k: Chain | k in t :: t'[k] == if k.Owned? then t[k] + Wrap(InChain(lines, k.chain)) else t[k]
    decreases |lines|
  {
    if lines == [] {
      forall k: Chain | k in t && k.Owned? ensures t[k] + Wrap(InChain(lines, k.chain)) == t[k] {
        assert Wrap(InChain(lines, k.chain)) == [];
      }
    } else {
      var c := Owned(lines[0].chain);
      var next := t[c := t[c] + [Own(lines[0].rule)]];
      assert AppendCommands(lines)[1..] == AppendCommands(lines[1..]);
      assert Exec(clears, AppendCommands(lines)[0], t) == Some(next);
      RunAppends(clears, lines[1..], next);
      forall k: Chain | k in t && k.Owned? ensures next[k] + Wrap(InChain(lines[1..], k.chain)) == t[k] + Wrap(InChain(lines, k.chain)) {
        AppendFirst(lines, k.chain, t[k]);
      }
    }
  }

  lemma AppendFirst(lines: seq<Line>, c: OwnedChain, rules: seq<WorldRule>)
    requires lines != []
    ensures (if lines[0].chain == c then rules + [Own(lines[0].rule)] else rules) + Wrap(InChain(lines[1..], c)) == rules + Wrap(InChain(lines, c))
  {
    var rest := InChain(lines[1..], c);
    if lines[0].chain == c {
      assert Wrap([lines[0].rule] + rest) == [Own(lines[0].rule)] + Wrap(rest);
    } else {
      assert InChain(lines, c) == [] + rest == rest;
    }
  }
}
