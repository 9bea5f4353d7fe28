/** What happens to packets on a host with the candidate installed: the built-in chains are walked, not the owned ones alone. */
module IptPackets {
  import opened Wrappers
  import opened Ports
  import opened Prefixes
  import opened Forwards
  import opened NatRules
  import opened NatRender
  import opened BackEnds
  import opened IptWorld
  import opened IptScripts
  import opened IptApply
  import opened IptInstall

  /** The next rule is looked at, or the walk of the built-in chain is over, with a verdict or with its policy. */
  datatype Outcome = Next | Done(verdict: Option<Action>)

  /** Which packets a rule with unknown conditions meets, and what the rules of others do. */
  datatype Unknown = Unknown(meets: (WorldRule, Packet) -> bool, does: nat -> Outcome)

  predicate Met(u: Unknown, r: WorldRule, p: Packet) {
    match r
    case Own(rule) => rule.cond.Holds(p)
    case Anchor(_, n) => n == 0 || u.meets(r, p)
    case Foreign(_, _, _) => u.meets(r, p)
  }

  /** What an owned chain decides; a packet that leaves it undecided returns. */
  function Enter(t: Table, c: OwnedChain, p: Packet): Option<Action> {
    if Owned(c) in t && AllOwn(t[Owned(c)]) then FirstMatch(OwnRules(t[Owned(c)]), p) else None
  }

  function Jump(t: Table, c: OwnedChain, p: Packet): Outcome {
    if Enter(t, c, p).Some? then Done(Enter(t, c, p)) else Next
  }

  /** What a rule of a built-in chain does with a packet it meets; a rule that goes to a chain does not come back. */
  function Does(t: Table, u: Unknown, r: WorldRule, p: Packet): Outcome {
    match r
    case Own(rule) => if rule.action.Custom? then u.does(rule.action.text) else Done(Some(rule.action))
    case Anchor(c, _) => Jump(t, c, p)
    case Foreign(text, jump, goto) =>
      if goto.Some? then Done(Enter(t, goto.value, p)) else if jump.Some? then Jump(t, jump.value, p) else u.does(text)
  }

  function Walk(t: Table, u: Unknown, rules: seq<WorldRule>, p: Packet): Outcome {
    if rules == [] then Next
    else if Met(u, rules[0], p) && Does(t, u, rules[0], p).Done? then Does(t, u, rules[0], p)
    else Walk(t, u, rules[1..], p)
  }

  function OrElse(first: Outcome, second: Outcome): Outcome {
    if first.Done? then first else second
  }

  function Decided(v: Option<Action>): Outcome {
    if v.Some? then Done(v) else Next
  }

  lemma {:induction false} WalkAppend(t: Table, u: Unknown, a: seq<WorldRule>, b: seq<WorldRule>, p: Packet)
    ensures Walk(t, u, a + b, p) == OrElse(Walk(t, u, a, p), Walk(t, u, b, p))
  {
    if a == [] {
      assert a + b == b;
    } else {
      assert (a + b)[1..] == a[1..] + b;
      WalkAppend(t, u, a[1..], b, p);
    }
  }

  /** A chain that holds the rendered rules decides what the rendered list says. */
  lemma EnterInstalled(table: IptTable, t: Table, fs: seq<Forward>, c: OwnedChain, p: Packet)
    requires InTable(table, c) && Matches(table, t, Installed(fs))
    ensures Owned(c) in t && Enter(t, c, p) == Verdict(RulesOf(Installed(fs), table), c, p)
  {
    assert c in Installed(fs).chains;
    var rules := InChain(RulesOf(Installed(fs), table), c);
    assert OwnRules(t[Owned(c)]) == rules;
  }

  lemma WalkBare(t: Table, u: Unknown, c: OwnedChain, p: Packet)
    ensures Walk(t, u, [Bare(c)], p) == Decided(Enter(t, c, p))
  {
    assert [Bare(c)][1..] == [];
  }

  // ---------------------------------------------------------------- the hooks after an apply

  /** The rules of a hook that come before the anchor, or would if there was one, and those behind it. */
  predicate SplitsAt(rules: seq<WorldRule>, c: OwnedChain, a: seq<WorldRule>, b: seq<WorldRule>) {
    rules == a + [Bare(c)] + b || (a == [] && rules == b && Bare(c) !in rules)
  }

  /** Rules before the anchor have their say first, then the owned chain, then the rules behind. */
  ghost predicate PassesThrough(t: Table, u: Unknown, before: seq<WorldRule>, after: seq<WorldRule>, c: OwnedChain, v: Option<Action>, p: Packet) {
    exists a, b :: PassesBetween(t, u, before, after, c, v, p, a, b)
  }

  predicate PassesBetween(t: Table, u: Unknown, before: seq<WorldRule>, after: seq<WorldRule>, c: OwnedChain, v: Option<Action>, p: Packet, a: seq<WorldRule>, b: seq<WorldRule>) {
    SplitsAt(before, c, a, b) && Walk(t, u, after, p) == OrElse(Walk(t, u, a, p), OrElse(Decided(v), Walk(t, u, b, p)))
  }

  lemma {:induction false} FindBare(rules: seq<WorldRule>, c: OwnedChain) returns (a: seq<WorldRule>, b: seq<WorldRule>)
    requires Bare(c) in rules
    ensures rules == a + [Bare(c)] + b
  {
    if rules[0] == Bare(c) {
      a, b := [], rules[1..];
    } else {
      a, b := FindBare(rules[1..], c);
      a := [rules[0]] + a;
    }
  }

  /** With the anchor in place the hook splits there. */
  lemma WalkAround(t: Table, u: Unknown, before: seq<WorldRule>, after: seq<WorldRule>, c: OwnedChain, v: Option<Action>, p: Packet, a: seq<WorldRule>, b: seq<WorldRule>)
    requires SplitsAt(before, c, a, b) && after == a + ([Bare(c)] + b) && Enter(t, c, p) == v
    ensures PassesBetween(t, u, before, after, c, v, p, a, b)
  {
    WalkBare(t, u, c, p);
    WalkAppend(t, u, a, [Bare(c)] + b, p);
    WalkAppend(t, u, [Bare(c)], b, p);
  }

  lemma HookSplits(before: Table, after: Table, cs: seq<OwnedChain>, c: OwnedChain) returns (a: seq<WorldRule>, b: seq<WorldRule>)
    requires c in cs && Home(c) in before && Hooked(before, after, EVERY_CHAIN, cs) && (AnchoredIn(before, c) ==> Bare(c) in before[Home(c)])
    ensures SplitsAt(before[Home(c)], c, a, b) && Home(c) in after && after[Home(c)] == a + ([Bare(c)] + b)
  {
    var h := before[Home(c)];
    assert c in EVERY_CHAIN;
    a, b := [], h;
    if AnchoredIn(before, c) {
      a, b := FindBare(h, c);
      assert h == a + ([Bare(c)] + b);
    } else {
      AnchorCountZero(h, c);
      assert [Bare(c)] + h == a + ([Bare(c)] + b);
    }
  }

  lemma HookWalk(table: IptTable, before: Table, after: Table, fs: seq<Forward>, c: OwnedChain, u: Unknown, p: Packet)
    returns (a: seq<WorldRule>, b: seq<WorldRule>)
    requires InTable(table, c) && Matches(table, after, Installed(fs)) && Home(c) in before
    requires Hooked(before, after, EVERY_CHAIN, OwnedOrder(true, table)) && (AnchoredIn(before, c) ==> Bare(c) in before[Home(c)])
    ensures Home(c) in after && PassesBetween(after, u, before[Home(c)], after[Home(c)], c, Verdict(RulesOf(Installed(fs), table), c, p), p, a, b)
  {
    assert c in OwnedOrder(true, table);
    EnterInstalled(table, after, fs, c, p);
    a, b := HookSplits(before, after, OwnedOrder(true, table), c);
    WalkAround(after, u, before[Home(c)], after[Home(c)], c, Verdict(RulesOf(Installed(fs), table), c, p), p, a, b);
  }

  /** Every hook that was anchored already was so by the bare anchor. */
  ghost predicate PlainlyAnchored(w: World) {
    && (forall c | InTable(NatTable, c) && AnchoredIn(w.nat_, c) :: Bare(c) in w.nat_[Home(c)])
    && (forall c | InTable(FilterTable, c) && AnchoredIn(w.filter, c) :: Bare(c) in w.filter[Home(c)])
  }

  function RulesIn(t: Table, k: Chain): seq<WorldRule> {
    if k in t then t[k] else []
  }

  /**
   * After an apply PREROUTING and POSTROUTING of the nat table and FORWARD of the filter table hand every packet to the
   * rendered rules, unless a rule of others ahead of the anchor has decided it.
   */
  lemma InstalledHooks(clears: bool, preFirst: bool, fs: seq<Forward>, w: World, u: Unknown, p: Packet)
    requires WellFormedWorld(w) && PlainlyAnchored(w)
    ensures var w' := RunScript(clears, ApplyOf(fs, StateOf(preFirst, w)), w).0;
      && PassesThrough(w'.nat_, u, RulesIn(w.nat_, Prerouting), RulesIn(w'.nat_, Prerouting), EgmPrerouting, Verdict(IptLines(NatTable, fs), EgmPrerouting, p), p)
      && PassesThrough(w'.nat_, u, RulesIn(w.nat_, Postrouting), RulesIn(w'.nat_, Postrouting), EgmPostrouting, Verdict(IptLines(NatTable, fs), EgmPostrouting, p), p)
      && PassesThrough(w'.filter, u, RulesIn(w.filter, ForwardHook), RulesIn(w'.filter, ForwardHook), EgmForward, Verdict(IptFilterList(fs), EgmForward, p), p)
  {
    var n, f := Applied(clears, preFirst, fs, w);
    HooksAreThere(w);
    var a, b := HookWalk(NatTable, w.nat_, n, fs, EgmPrerouting, u, p);
    a, b := HookWalk(NatTable, w.nat_, n, fs, EgmPostrouting, u, p);
    a, b := HookWalk(FilterTable, w.filter, f, fs, EgmForward, u, p);
  }

  lemma Applied(clears: bool, preFirst: bool, fs: seq<Forward>, w: World) returns (n: Table, f: Table)
    requires WellFormedWorld(w)
    ensures RunScript(clears, ApplyOf(fs, StateOf(preFirst, w)), w).0 == World(n, f)
    ensures Matches(NatTable, n, Installed(fs)) && Hooked(w.nat_, n, EVERY_CHAIN, OwnedOrder(true, NatTable))
    ensures Matches(FilterTable, f, Installed(fs)) && Hooked(w.filter, f, EVERY_CHAIN, OwnedOrder(true, FilterTable))
  {
    StateRecords(preFirst, w);
    RenderedInTable(NatTable, fs);
    RenderedInTable(FilterTable, fs);
    var state := StateOf(preFirst, w);
    n := ApplyTable(clears, NatTable, fs, state, w.nat_);
    f := ApplyTable(clears, FilterTable, fs, state, w.filter);
    ScriptOf(clears, ApplyOf(fs, state), w, n, f);
  }

  lemma HooksAreThere(w: World)
    requires WellFormedWorld(w)
    ensures Home(EgmPrerouting) == Prerouting && Home(EgmPostrouting) == Postrouting && Home(EgmForward) == ForwardHook
    ensures Prerouting in w.nat_ && Postrouting in w.nat_ && ForwardHook in w.filter
    ensures ChainOk(NatTable, Prerouting, w.nat_[Prerouting]) && ChainOk(NatTable, Postrouting, w.nat_[Postrouting])
    ensures ChainOk(FilterTable, ForwardHook, w.filter[ForwardHook])
  {
    assert InTable(NatTable, EgmPrerouting) && InTable(NatTable, EgmPostrouting) && InTable(FilterTable, EgmForward);
    assert HooksExist(NatTable, w.nat_) && HooksExist(FilterTable, w.filter);
  }

  // ---------------------------------------------------------------- end to end

  function Final(o: Outcome): Option<Action> {
    if o.Done? then o.verdict else None
  }

  /** What the built-in chains do with the first packet of a connection that is forwarded. */
  function WorldFate(w: World, u: Unknown, p: Packet, choice: Port): Fate {
    FateOf(Final(Walk(w.nat_, u, RulesIn(w.nat_, Prerouting), p)),
      q => Final(Walk(w.filter, u, RulesIn(w.filter, ForwardHook), q)),
      q => Final(Walk(w.nat_, u, RulesIn(w.nat_, Postrouting), q)), p, choice)
  }

  /** No rule but anchors meets any packet. */
  ghost predicate Quiet(u: Unknown, rules: seq<WorldRule>) {
    forall r, p | r in rules && Met(u, r, p) :: r.Anchor? && r.conditions == 0
  }

  lemma {:induction false} QuietWalk(t: Table, u: Unknown, rules: seq<WorldRule>, p: Packet)
    requires Quiet(u, rules) && forall r | r in rules :: !(r.Anchor? && r.conditions == 0)
    ensures Walk(t, u, rules, p) == Next
  {
    if rules != [] {
      assert rules[0] in rules;
      QuietWalk(t, u, rules[1..], p);
    }
  }

  lemma {:induction false} AnchorCountOf(rules: seq<WorldRule>, c: OwnedChain, r: WorldRule)
    requires r in rules && r.Anchor? && r.target == c
    ensures AnchorCount(rules, c) >= 1
  {
    if rules[0] != r {
      AnchorCountOf(rules[1..], c, r);
    }
  }

  /** The only anchor of a hook is the one it splits at. */
  lemma OneAnchor(table: IptTable, rules: seq<WorldRule>, c: OwnedChain, a: seq<WorldRule>, b: seq<WorldRule>)
    requires ChainOk(table, Home(c), rules) && InTable(table, c) && SplitsAt(rules, c, a, b)
    ensures forall r | r in a || r in b :: r in rules && r != Bare(c) && (r.Anchor? ==> r.target == c)
  {
    forall r | r in a || r in b ensures r in rules && r != Bare(c) && (r.Anchor? ==> r.target == c) {
      assert r in rules by {
        assert r in a ==> r in a + [Bare(c)];
      }
      var i :| 0 <= i < |rules| && rules[i] == r;
      assert r.Anchor? ==> IsAnchor(table, Home(c), rules[i]);
      if rules == a + [Bare(c)] + b && r == Bare(c) {
        AnchorCountAppend(a + [Bare(c)], b, c);
        AnchorCountAppend(a, [Bare(c)], c);
        if r in a {
          AnchorCountOf(a, c, r);
        } else {
          AnchorCountOf(b, c, r);
        }
      }
    }
  }

  lemma QuietHook(t: Table, u: Unknown, before: seq<WorldRule>, after: seq<WorldRule>, table: IptTable, c: OwnedChain, v: Option<Action>, p: Packet, a: seq<WorldRule>, b: seq<WorldRule>)
    requires PassesBetween(t, u, before, after, c, v, p, a, b) && Quiet(u, before)
    requires ChainOk(table, Home(c), before) && InTable(table, c)
    ensures Final(Walk(t, u, after, p)) == v
  {
    OneAnchor(table, before, c, a, b);
    QuietWalk(t, u, a, p);
    QuietWalk(t, u, b, p);
  }

  /** A hook whose other rules leave packets alone decides what the rendered rules say. */
  lemma QuietVerdict(table: IptTable, before: Table, after: Table, fs: seq<Forward>, c: OwnedChain, u: Unknown, p: Packet)
    requires InTable(table, c) && Matches(table, after, Installed(fs)) && Home(c) in before
    requires Hooked(before, after, EVERY_CHAIN, OwnedOrder(true, table)) && (AnchoredIn(before, c) ==> Bare(c) in before[Home(c)])
    requires ChainOk(table, Home(c), before[Home(c)]) && Quiet(u, before[Home(c)])
    ensures Home(c) in after && Final(Walk(after, u, after[Home(c)], p)) == Verdict(RulesOf(Installed(fs), table), c, p)
  {
    var a, b := HookWalk(table, before, after, fs, c, u, p);
    QuietHook(after, u, before[Home(c)], after[Home(c)], table, c, Verdict(RulesOf(Installed(fs), table), c, p), p, a, b);
  }

  /**
   * On a host whose other rules leave packets alone the packet fares as the rendered lists say, which is what the two
   * back ends are compared by.
   */
  lemma InstalledFate(clears: bool, preFirst: bool, fs: seq<Forward>, w: World, u: Unknown, p: Packet, choice: Port)
    requires WellFormedWorld(w) && PlainlyAnchored(w)
    requires Quiet(u, RulesIn(w.nat_, Prerouting)) && Quiet(u, RulesIn(w.filter, ForwardHook)) && Quiet(u, RulesIn(w.nat_, Postrouting))
    ensures WorldFate(RunScript(clears, ApplyOf(fs, StateOf(preFirst, w)), w).0, u, p, choice) == IptFate(fs, p, choice)
  {
    var n, f := Applied(clears, preFirst, fs, w);
    var q := Translate(Verdict(IptLines(NatTable, fs), EgmPrerouting, p), p, choice);
    HooksAreThere(w);
    QuietVerdict(NatTable, w.nat_, n, fs, EgmPrerouting, u, p);
    QuietVerdict(FilterTable, w.filter, f, fs, EgmForward, u, q);
    QuietVerdict(NatTable, w.nat_, n, fs, EgmPostrouting, u, q);
  }
}
