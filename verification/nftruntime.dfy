/** The inspection document expected of the leak-control table, and its agreement with what is printed. */
module NftRuntime {
  import opened Wrappers
  import opened Prefixes
  import opened Routes
  import opened LeakControl

  datatype Hook = Input | Forward

  /** One expression of a listed rule. */
  datatype Expr =
    | InterfaceIn(name: Name) | InterfaceOut(name: Name) | SourceIn(subnet: Prefix) | ProtocolFamily(family: Family)
    | DnsTransport | DnsPorts | SynFlag | SegmentSize(size: nat) | Counter | AcceptVerdict | DropVerdict

  datatype Object = TableObject | ChainObject(hook: Hook) | RuleObject(hook: Hook, route: nat, purpose: Purpose, exprs: seq<Expr>)

  // ---------------------------------------------------------------- how the kernel lists a printed rule

  function MatchExprs(r: Rule): seq<Expr> {
    [InterfaceIn(r.ingress)]
    + (if r.source.Some? then [SourceIn(Masked(r.source.value))] else [])
    + (if r.family.Some? then [ProtocolFamily(r.family.value)] else [])
    + (if r.egress.Some? then [InterfaceOut(r.egress.value)] else [])
    + (if r.dns then [DnsTransport, DnsPorts] else [])
  }

  function ActionExprs(a: Action): seq<Expr> {
    match a
    case Accept => [Counter, AcceptVerdict]
    case Drop => [Counter, DropVerdict]
    case SetMss(size) => [SynFlag, SegmentSize(size)]
  }

  function Listed(hook: Hook, r: Rule): Object {
    RuleObject(hook, r.route, r.purpose, MatchExprs(r) + ActionExprs(r.action))
  }

  function ListedAll(hook: Hook, rules: seq<Rule>): seq<Object> {
    seq(|rules|, k requires 0 <= k < |rules| => Listed(hook, rules[k]))
  }

  function ListedTable(t: Table): seq<Object> {
    [TableObject, ChainObject(Input), ChainObject(Forward)] + ListedAll(Input, t.input) + ListedAll(Forward, t.forward)
  }

  lemma ListedAppend(hook: Hook, a: seq<Rule>, b: seq<Rule>)
    ensures ListedAll(hook, a + b) == ListedAll(hook, a) + ListedAll(hook, b)
  {
  }

  // ---------------------------------------------------------------- building the expected document

  /** The selector as objects: the ingress, and the masked subnet in its own family. */
  function SelectorObjects(i: Intent, family: Family): seq<Expr> {
    [InterfaceIn(i.ingress)]
    + if i.source.SubnetSource? && i.source.subnet.addr.family == family then [SourceIn(Masked(i.source.subnet))] else []
  }

  method ExpectedInput(i: Intent) returns (objects: seq<Object>)
    ensures objects == ListedAll(Input, InputRules(i))
  {
    objects := [];
    if i.policy.dns != DnsFollow && i.policy.dns != DnsBlock {
      return;
    }
    for f := 0 to |FAMILIES|
      invariant objects == ListedAll(Input, [InputRule(i, V4), InputRule(i, V6)][..f])
    {
      var exprs := SelectorObjects(i, FAMILIES[f]) + [DnsTransport, DnsPorts];
      exprs := exprs + [Counter, DropVerdict];
      objects := objects + [RuleObject(Input, i.id, DnsInput, exprs)];
      ListedInput(i, FAMILIES[f]);
    }
  }

  lemma ListedInput(i: Intent, family: Family)
    ensures Listed(Input, InputRule(i, family)).exprs == SelectorObjects(i, family) + [DnsTransport, DnsPorts] + [Counter, DropVerdict]
  {
  }

  /** The expressions every forward rule of an intent starts with. */
  function BaseObjects(i: Intent, family: Family): seq<Expr> {
    SelectorObjects(i, family) + [ProtocolFamily(family)]
  }

  lemma ListedForward(i: Intent, family: Family, egress: Option<Name>, dns: bool, action: Action, purpose: Purpose)
    ensures Listed(Forward, ForwardRule(i, family, egress, dns, action, purpose)) ==
            RuleObject(Forward, i.id, purpose, BaseObjects(i, family) + (if egress.Some? then [InterfaceOut(egress.value)] else [])
              + (if dns then [DnsTransport, DnsPorts] else []) + ActionExprs(action))
  {
  }

  method ExpectedDns(i: Intent, family: Family) returns (objects: seq<Object>)
    ensures objects == ListedAll(Forward, DnsRules(i, family))
  {
    objects := [];
    if i.policy.dns == DnsBlock || i.policy.dns == DnsSystem {
      var verdict, purpose := DropVerdict, DnsBlocked;
      if i.policy.dns == DnsSystem {
        verdict, purpose := AcceptVerdict, DnsToSystem;
      }
      var exprs := BaseObjects(i, family) + [DnsTransport, DnsPorts];
      objects := [RuleObject(Forward, i.id, purpose, exprs + [Counter, verdict])];
      ListedForward(i, family, None, true, if i.policy.dns == DnsSystem then Accept else Drop, purpose);
      assert BaseObjects(i, family) + [] == BaseObjects(i, family);
    }
  }

  method ExpectedPolicy(i: Intent, family: Family) returns (objects: seq<Object>)
    ensures objects == ListedAll(Forward, PolicyRules(i, family))
  {
    var base := BaseObjects(i, family);
    assert base + [] + [] == base;
    objects := [];
    if FamilyPolicy(i.policy, family) == Block {
      ListedForward(i, family, None, false, Drop, FamilyBlock);
      objects := [RuleObject(Forward, i.id, FamilyBlock, base + [Counter, DropVerdict])];
      return;
    }
    if FamilyPolicy(i.policy, family) != Follow || !i.policy.killSwitch {
      return;
    }
    var out := base + [InterfaceOut(i.tunnel)];
    assert out + [] == out;
    if i.policy.mss != 0 {
      ListedForward(i, family, Some(i.tunnel), false, SetMss(i.policy.mss), Mss);
      objects := objects + [RuleObject(Forward, i.id, Mss, out + [SynFlag, SegmentSize(i.policy.mss)])];
    }
    ListedForward(i, family, Some(i.tunnel), false, Accept, TunnelAccept);
    objects := objects + [RuleObject(Forward, i.id, TunnelAccept, out + [Counter, AcceptVerdict])];
    ListedForward(i, family, None, false, Drop, Kill);
    objects := objects + [RuleObject(Forward, i.id, Kill, base + [Counter, DropVerdict])];
  }

  method ExpectedFamily(i: Intent, family: Family) returns (objects: seq<Object>)
    ensures objects == ListedAll(Forward, FamilyRules(i, family))
  {
    objects := ExpectedDns(i, family);
    var policy := ExpectedPolicy(i, family);
    ListedAppend(Forward, DnsRules(i, family), PolicyRules(i, family));
    objects := objects + policy;
  }

  method ExpectedIntent(i: Intent) returns (objects: seq<Object>)
    ensures objects == ListedAll(Forward, FamilyRules(i, V4) + FamilyRules(i, V6))
  {
    objects := ExpectedFamily(i, V4);
    var six := ExpectedFamily(i, V6);
    ListedAppend(Forward, FamilyRules(i, V4), FamilyRules(i, V6));
    objects := objects + six;
  }

  /** The expected document lists, rule for rule and in the same order, what the renderer prints. */
  method ExpectedObjects(intents: seq<Intent>) returns (objects: seq<Object>)
    ensures objects == ListedTable(TableOf(intents))
  {
    objects := [TableObject, ChainObject(Input), ChainObject(Forward)];
    ghost var head := objects;
    for k := 0 to |intents|
      invariant head + ListedAll(Input, InputChain(intents)) == objects + ListedAll(Input, InputChain(intents[k..]))
    {
      assert intents[k..][0] == intents[k] && intents[k..][1..] == intents[k + 1..];
      var next := ExpectedInput(intents[k]);
      ListedAppend(Input, InputRules(intents[k]), InputChain(intents[k + 1..]));
      RegroupObjects(objects, next, ListedAll(Input, InputChain(intents[k + 1..])));
      objects := objects + next;
    }
    RegroupObjects(objects, [], []);
    assert objects == head + ListedAll(Input, InputChain(intents));
    objects := ExpectedForward(intents, objects);
  }

  method ExpectedForward(intents: seq<Intent>, before: seq<Object>) returns (objects: seq<Object>)
    ensures objects == before + ListedAll(Forward, ForwardChain(intents))
  {
    objects := before;
    for k := 0 to |intents|
      invariant before + ListedAll(Forward, ForwardChain(intents)) == objects + ListedAll(Forward, ForwardChain(intents[k..]))
    {
      assert intents[k..][0] == intents[k] && intents[k..][1..] == intents[k + 1..];
      var next := ExpectedIntent(intents[k]);
      ListedAppend(Forward, FamilyRules(intents[k], V4) + FamilyRules(intents[k], V6), ForwardChain(intents[k + 1..]));
      RegroupObjects(objects, next, ListedAll(Forward, ForwardChain(intents[k + 1..])));
      objects := objects + next;
    }
    RegroupObjects(objects, [], []);
  }

  lemma RegroupObjects(done: seq<Object>, next: seq<Object>, rest: seq<Object>)
    ensures done + (next + rest) == (done + next) + rest && done + [] == done
  {
  }
}
