/** The leak-control firewall table rendered from intents, and what it does to a packet. */
module LeakControl {
  import opened Wrappers
  import opened Prefixes
  import opened Slots
  import opened Routes
  import opened RoutePlan

  datatype Transport = Tcp | Udp | OtherTransport

  /** A packet as the table sees it, with the interface it entered by and the one it would leave by. */
  datatype Packet = Packet(ingress: Name, egress: Name, src: Addr, transport: Transport, port: nat)

  predicate IsDns(p: Packet) {
    (p.transport == Tcp || p.transport == Udp) && (p.port == 53 || p.port == 853)
  }

  datatype Action = Accept | Drop | SetMss(size: nat)

  datatype Purpose = DnsInput | DnsBlocked | DnsToSystem | FamilyBlock | Mss | TunnelAccept | Kill

  /** One rule as printed: each part that is present narrows it. */
  datatype Rule = Rule(ingress: Name, source: Option<Prefix>, family: Option<Family>, egress: Option<Name>, dns: bool, action: Action,
    route: nat, purpose: Purpose)

  /** A source match also fixes the family; a segment-size rule applies to opening TCP segments and decides nothing. */
  predicate Matches(r: Rule, p: Packet) {
    && p.ingress == r.ingress
    && (r.source.Some? ==> r.source.value.Contains(p.src))
    && (r.family.Some? ==> p.src.family == r.family.value)
    && (r.egress.Some? ==> p.egress == r.egress.value)
    && (r.dns ==> IsDns(p))
  }

  /** The verdict of a chain; `None` is its policy, which accepts. */
  function Verdict(rules: seq<Rule>, p: Packet): Option<Action> {
    if rules == [] then None
    else if Matches(rules[0], p) && !rules[0].action.SetMss? then Some(rules[0].action)
    else Verdict(rules[1..], p)
  }

  lemma {:induction false} VerdictAppend(a: seq<Rule>, b: seq<Rule>, p: Packet)
    ensures Verdict(a + b, p) == if Verdict(a, p).Some? then Verdict(a, p) else Verdict(b, p)
  {
    if a == [] {
      assert a + b == b;
    } else {
      assert (a + b)[1..] == a[1..] + b;
      VerdictAppend(a[1..], b, p);
    }
  }

  // ---------------------------------------------------------------- rendering

  /** The source match: only a subnet, and only in its own family. */
  function SourceMatch(i: Intent, family: Family): Option<Prefix> {
    if i.source.SubnetSource? && i.source.subnet.addr.family == family then Some(i.source.subnet) else None
  }

  const FAMILIES := [V4, V6]

  function InputRule(i: Intent, family: Family): Rule {
    Rule(i.ingress, SourceMatch(i, family), None, None, true, Drop, i.id, DnsInput)
  }

  function InputRules(i: Intent): seq<Rule> {
    if i.policy.dns == DnsSystem then [] else [InputRule(i, V4), InputRule(i, V6)]
  }

  function ForwardRule(i: Intent, family: Family, egress: Option<Name>, dns: bool, action: Action, purpose: Purpose): Rule {
    Rule(i.ingress, SourceMatch(i, family), Some(family), egress, dns, action, i.id, purpose)
  }

  function DnsRules(i: Intent, family: Family): seq<Rule> {
    match i.policy.dns
    case DnsBlock => [ForwardRule(i, family, None, true, Drop, DnsBlocked)]
    case DnsSystem => [ForwardRule(i, family, None, true, Accept, DnsToSystem)]
    case DnsFollow => []
  }

  predicate Guards(i: Intent, family: Family) {
    FamilyPolicy(i.policy, family) == Follow && i.policy.killSwitch
  }

  function PolicyRules(i: Intent, family: Family): seq<Rule> {
    if FamilyPolicy(i.policy, family) == Block then [ForwardRule(i, family, None, false, Drop, FamilyBlock)]
    else if !Guards(i, family) then []
    else
      (if i.policy.mss != 0 then [ForwardRule(i, family, Some(i.tunnel), false, SetMss(i.policy.mss), Mss)] else [])
      + [ForwardRule(i, family, Some(i.tunnel), false, Accept, TunnelAccept), ForwardRule(i, family, None, false, Drop, Kill)]
  }

  function FamilyRules(i: Intent, family: Family): seq<Rule> {
    DnsRules(i, family) + PolicyRules(i, family)
  }

  datatype Table = Table(input: seq<Rule>, forward: seq<Rule>)

  function InputChain(intents: seq<Intent>): seq<Rule> {
    if intents == [] then [] else InputRules(intents[0]) + InputChain(intents[1..])
  }

  function ForwardChain(intents: seq<Intent>): seq<Rule> {
    if intents == [] then [] else FamilyRules(intents[0], V4) + FamilyRules(intents[0], V6) + ForwardChain(intents[1..])
  }

  function TableOf(intents: seq<Intent>): Table {
    Table(InputChain(intents), ForwardChain(intents))
  }

  lemma Regroup(done: seq<Rule>, next: seq<Rule>, rest: seq<Rule>)
    ensures done + (next + rest) == (done + next) + rest && done + [] == done
  {
  }

  method RenderInputOf(i: Intent) returns (rules: seq<Rule>)
    ensures rules == InputRules(i)
  {
    rules := [];
    if i.policy.dns == DnsFollow || i.policy.dns == DnsBlock {
      for f := 0 to |FAMILIES|
        invariant rules == [InputRule(i, V4), InputRule(i, V6)][..f]
      {
        rules := rules + [InputRule(i, FAMILIES[f])];
      }
    }
  }

  method RenderInput(intents: seq<Intent>) returns (rules: seq<Rule>)
    ensures rules == InputChain(intents)
  {
    rules := [];
    for k := 0 to |intents|
      invariant InputChain(intents) == rules + InputChain(intents[k..])
    {
      assert intents[k..][0] == intents[k] && intents[k..][1..] == intents[k + 1..];
      var next := RenderInputOf(intents[k]);
      Regroup(rules, next, InputChain(intents[k + 1..]));
      rules := rules + next;
    }
    Regroup(rules, [], []);
  }

  method RenderFamily(i: Intent, family: Family) returns (rules: seq<Rule>)
    ensures rules == FamilyRules(i, family)
  {
    rules := [];
    if i.policy.dns == DnsBlock {
      rules := rules + [ForwardRule(i, family, None, true, Drop, DnsBlocked)];
    } else if i.policy.dns == DnsSystem {
      rules := rules + [ForwardRule(i, family, None, true, Accept, DnsToSystem)];
    }
    if FamilyPolicy(i.policy, family) == Block {
      rules := rules + [ForwardRule(i, family, None, false, Drop, FamilyBlock)];
      return;
    }
    if FamilyPolicy(i.policy, family) != Follow || !i.policy.killSwitch {
      return;
    }
    if i.policy.mss != 0 {
      rules := rules + [ForwardRule(i, family, Some(i.tunnel), false, SetMss(i.policy.mss), Mss)];
    }
    rules := rules + [ForwardRule(i, family, Some(i.tunnel), false, Accept, TunnelAccept)];
    rules := rules + [ForwardRule(i, family, None, false, Drop, Kill)];
  }

  lemma ForwardStep(intents: seq<Intent>, k: nat)
    requires k < |intents|
    ensures ForwardChain(intents[k..]) == FamilyRules(intents[k], V4) + FamilyRules(intents[k], V6) + ForwardChain(intents[k + 1..])
  {
    assert intents[k..][0] == intents[k] && intents[k..][1..] == intents[k + 1..];
  }

  method RenderForward(intents: seq<Intent>) returns (rules: seq<Rule>)
    ensures rules == ForwardChain(intents)
  {
    rules := [];
    for k := 0 to |intents|
      invariant ForwardChain(intents) == rules + ForwardChain(intents[k..])
    {
      ForwardStep(intents, k);
      var next := RenderIntent(intents[k]);
      Regroup(rules, next, ForwardChain(intents[k + 1..]));
      rules := rules + next;
    }
    Regroup(rules, [], []);
  }

  method RenderIntent(i: Intent) returns (rules: seq<Rule>)
    ensures rules == FamilyRules(i, V4) + FamilyRules(i, V6)
  {
    rules := RenderFamily(i, V4);
    var six := RenderFamily(i, V6);
    rules := rules + six;
  }

  method RenderTable(intents: seq<Intent>) returns (t: Table)
    ensures t == TableOf(intents)
  {
    var input := RenderInput(intents);
    var forward := RenderForward(intents);
    t := Table(input, forward);
  }

  // ---------------------------------------------------------------- what the forward chain decides

  /** The packet is selected: by ingress, and in the subnet's own family also by source. */
  predicate Selects(i: Intent, p: Packet) {
    p.ingress == i.ingress && (SourceMatch(i, p.src.family).Some? ==> i.source.subnet.Contains(p.src))
  }

  /** What one intent decides for a packet; `None` leaves it to the next. */
  function Decides(i: Intent, p: Packet): Option<Action> {
    if !Selects(i, p) then None
    else if IsDns(p) && i.policy.dns == DnsBlock then Some(Drop)
    else if IsDns(p) && i.policy.dns == DnsSystem then Some(Accept)
    else if FamilyPolicy(i.policy, p.src.family) == Block then Some(Drop)
    else if Guards(i, p.src.family) then Some(if p.egress == i.tunnel then Accept else Drop)
    else None
  }

  lemma VerdictOfOne(r: Rule, p: Packet)
    ensures Verdict([r], p) == if Matches(r, p) && !r.action.SetMss? then Some(r.action) else None
  {
    assert [r][1..] == [];
  }

  lemma FamilyRulesMeaning(i: Intent, family: Family, p: Packet)
    ensures Verdict(FamilyRules(i, family), p) == if p.src.family == family then Decides(i, p) else None
  {
    DnsRulesMeaning(i, family, p);
    PolicyRulesMeaning(i, family, p);
    VerdictAppend(DnsRules(i, family), PolicyRules(i, family), p);
  }

  lemma DnsRulesMeaning(i: Intent, family: Family, p: Packet)
    ensures Verdict(DnsRules(i, family), p) ==
            if p.src.family == family && Selects(i, p) && IsDns(p) && i.policy.dns != DnsFollow
            then Some(if i.policy.dns == DnsBlock then Drop else Accept) else None
  {
    VerdictOfOne(ForwardRule(i, family, None, true, Drop, DnsBlocked), p);
    VerdictOfOne(ForwardRule(i, family, None, true, Accept, DnsToSystem), p);
  }

  lemma PolicyRulesMeaning(i: Intent, family: Family, p: Packet)
    ensures Verdict(PolicyRules(i, family), p) ==
            if p.src.family != family || !Selects(i, p) then None
            else if FamilyPolicy(i.policy, family) == Block then Some(Drop)
            else if Guards(i, family) then Some(if p.egress == i.tunnel then Accept else Drop)
            else None
  {
    VerdictOfOne(ForwardRule(i, family, None, false, Drop, FamilyBlock), p);
    var mss := if i.policy.mss != 0 then [ForwardRule(i, family, Some(i.tunnel), false, SetMss(i.policy.mss), Mss)] else [];
    var tun, kill := ForwardRule(i, family, Some(i.tunnel), false, Accept, TunnelAccept), ForwardRule(i, family, None, false, Drop, Kill);
    VerdictOfOne(ForwardRule(i, family, Some(i.tunnel), false, SetMss(i.policy.mss), Mss), p);
    assert [tun, kill] == [tun] + [kill];
    VerdictOfOne(tun, p);
    VerdictOfOne(kill, p);
    VerdictAppend([tun], [kill], p);
    VerdictAppend(mss, [tun, kill], p);
  }

  /** The first intent that decides a packet. */
  function FirstDecider(intents: seq<Intent>, p: Packet): Option<Intent> {
    if intents == [] then None
    else if Decides(intents[0], p).Some? then Some(intents[0])
    else FirstDecider(intents[1..], p)
  }

  /** The forward chain does what the first deciding intent says. */
  lemma {:induction false} ForwardChainMeaning(intents: seq<Intent>, p: Packet)
    ensures Verdict(ForwardChain(intents), p) ==
            if FirstDecider(intents, p).Some? then Decides(FirstDecider(intents, p).value, p) else None
  {
    if intents != [] {
      FamilyRulesMeaning(intents[0], V4, p);
      FamilyRulesMeaning(intents[0], V6, p);
      VerdictAppend(FamilyRules(intents[0], V4), FamilyRules(intents[0], V6), p);
      VerdictAppend(FamilyRules(intents[0], V4) + FamilyRules(intents[0], V6), ForwardChain(intents[1..]), p);
      ForwardChainMeaning(intents[1..], p);
    }
  }

  lemma {:induction false} FirstDeciderMeans(intents: seq<Intent>, p: Packet)
    ensures FirstDecider(intents, p).Some? ==> FirstDecider(intents, p).value in intents && Decides(FirstDecider(intents, p).value, p).Some?
    ensures (exists k | 0 <= k < |intents| :: Decides(intents[k], p).Some?) ==> FirstDecider(intents, p).Some?
  {
    if intents != [] && Decides(intents[0], p).None? {
      FirstDeciderMeans(intents[1..], p);
      assert forall k | 0 < k < |intents| :: intents[1..][k - 1] == intents[k];
    }
  }

  // ---------------------------------------------------------------- the segment size

  /** The segment size the chain gives an opening TCP segment on its way to a verdict. */
  function SegmentSize(rules: seq<Rule>, p: Packet): Option<nat> {
    if rules == [] then None
    else if !Matches(rules[0], p) then SegmentSize(rules[1..], p)
    else if rules[0].action.SetMss? then (if SegmentSize(rules[1..], p).Some? then SegmentSize(rules[1..], p) else Some(rules[0].action.size))
    else None
  }

  lemma {:induction false} SegmentSizeAppend(a: seq<Rule>, b: seq<Rule>, p: Packet)
    ensures SegmentSize(a + b, p) ==
            if Verdict(a, p).None? && SegmentSize(b, p).Some? then SegmentSize(b, p) else SegmentSize(a, p)
  {
    if a == [] {
      assert a + b == b;
    } else {
      assert (a + b)[1..] == a[1..] + b;
      SegmentSizeAppend(a[1..], b, p);
    }
  }

  /** The packet goes into the tunnel of a guarded intent that sets a size, and no DNS rule has decided it before. */
  predicate Resizes(i: Intent, p: Packet) {
    Protects(i, p) && p.egress == i.tunnel && i.policy.mss != 0 && !(IsDns(p) && i.policy.dns != DnsFollow)
  }

  lemma SegmentSizeOfOne(r: Rule, p: Packet)
    ensures SegmentSize([r], p) == if Matches(r, p) && r.action.SetMss? then Some(r.action.size) else None
  {
    assert [r][1..] == [];
  }

  lemma PolicyRulesSize(i: Intent, family: Family, p: Packet)
    ensures SegmentSize(PolicyRules(i, family), p) ==
            if p.src.family == family && Protects(i, p) && p.egress == i.tunnel && i.policy.mss != 0 then Some(i.policy.mss) else None
  {
    var block, mss := ForwardRule(i, family, None, false, Drop, FamilyBlock), ForwardRule(i, family, Some(i.tunnel), false, SetMss(i.policy.mss), Mss);
    var tun, kill := ForwardRule(i, family, Some(i.tunnel), false, Accept, TunnelAccept), ForwardRule(i, family, None, false, Drop, Kill);
    SegmentSizeOfOne(block, p);
    SegmentSizeOfOne(mss, p);
    SegmentSizeOfOne(tun, p);
    SegmentSizeOfOne(kill, p);
    assert [tun, kill] == [tun] + [kill];
    SegmentSizeAppend([tun], [kill], p);
    SegmentSizeAppend([mss], [tun, kill], p);
    VerdictOfOne(mss, p);
    assert [] + [tun, kill] == [tun, kill];
  }

  lemma FamilyRulesSize(i: Intent, family: Family, p: Packet)
    ensures SegmentSize(FamilyRules(i, family), p) == if p.src.family == family && Resizes(i, p) then Some(i.policy.mss) else None
  {
    DnsRulesMeaning(i, family, p);
    PolicyRulesSize(i, family, p);
    SegmentSizeOfOne(ForwardRule(i, family, None, true, Drop, DnsBlocked), p);
    SegmentSizeOfOne(ForwardRule(i, family, None, true, Accept, DnsToSystem), p);
    SegmentSizeAppend(DnsRules(i, family), PolicyRules(i, family), p);
  }

  lemma IntentSize(i: Intent, p: Packet)
    ensures SegmentSize(FamilyRules(i, V4) + FamilyRules(i, V6), p) == if Resizes(i, p) then Some(i.policy.mss) else None
  {
    FamilyRulesSize(i, V4, p);
    FamilyRulesSize(i, V6, p);
    FamilyRulesMeaning(i, V4, p);
    SegmentSizeAppend(FamilyRules(i, V4), FamilyRules(i, V6), p);
  }

  /** A size is set exactly for what the first deciding intent accepts into its own tunnel by its kill switch, and it is that intent's. */
  lemma {:induction false} SegmentSizeMeaning(intents: seq<Intent>, p: Packet)
    ensures SegmentSize(ForwardChain(intents), p) ==
            if FirstDecider(intents, p).Some? && Resizes(FirstDecider(intents, p).value, p) then Some(FirstDecider(intents, p).value.policy.mss) else None
  {
    if intents != [] {
      var own := FamilyRules(intents[0], V4) + FamilyRules(intents[0], V6);
      IntentSize(intents[0], p);
      FamilyRulesMeaning(intents[0], V4, p);
      FamilyRulesMeaning(intents[0], V6, p);
      VerdictAppend(FamilyRules(intents[0], V4), FamilyRules(intents[0], V6), p);
      SegmentSizeAppend(own, ForwardChain(intents[1..]), p);
      SegmentSizeMeaning(intents[1..], p);
    }
  }

  // ---------------------------------------------------------------- what is protected

  /** The intent protects this packet: selected, following the outbound, with the kill switch on. */
  predicate Protects(i: Intent, p: Packet) {
    Selects(i, p) && Guards(i, p.src.family)
  }

  /** A way out that some intent allows a protected packet. */
  predicate LeavesBy(i: Intent, p: Packet) {
    (Protects(i, p) && p.egress == i.tunnel) || (Selects(i, p) && IsDns(p) && i.policy.dns == DnsSystem)
  }

  /**
   * No leak: a packet that some intent protects never falls through to the accepting policy, and is accepted only
   * if it leaves by the tunnel of an intent that protects it, or is DNS that a selecting intent hands to the system.
   */
  lemma NoLeak(intents: seq<Intent>, k: nat, p: Packet)
    requires k < |intents| && Protects(intents[k], p)
    ensures Verdict(ForwardChain(intents), p) == Some(Accept) || Verdict(ForwardChain(intents), p) == Some(Drop)
    ensures Verdict(ForwardChain(intents), p) == Some(Accept) ==> exists i :: i in intents && LeavesBy(i, p)
  {
    ForwardChainMeaning(intents, p);
    FirstDeciderMeans(intents, p);
    assert Decides(intents[k], p).Some?;
    assert Decides(FirstDecider(intents, p).value, p) == Some(Accept) ==> LeavesBy(FirstDecider(intents, p).value, p);
  }

  /** Selecting one packet in the own family, or by interface, makes planned selectors overlap. */
  lemma BothSelectOverlap(i: Intent, j: Intent, p: Packet)
    requires Selects(i, p) && Selects(j, p)
    requires i.source.SubnetSource? && j.source.SubnetSource? ==>
      i.source.subnet.addr.family == j.source.subnet.addr.family == p.src.family
    ensures SelectorsOverlap(SelectorOf(i), SelectorOf(j))
  {
    if i.source.SubnetSource? && j.source.SubnetSource? {
      assert i.source.subnet.Contains(p.src) && j.source.subnet.Contains(p.src);
      OverlapIffShared(i.source.subnet, j.source.subnet);
    }
  }

  /** With planned intents, a packet protected by an interface route is accepted only into that route's own tunnel. */
  lemma InterfaceRouteOwnTunnel(intents: seq<Intent>, k: nat, p: Packet)
    requires k < |intents| && Protects(intents[k], p) && intents[k].source.InterfaceSource?
    requires forall i, j | 0 <= i < j < |intents| :: Apart(intents[i], intents[j])
    ensures Verdict(ForwardChain(intents), p) == Some(
      if (if IsDns(p) && intents[k].policy.dns != DnsFollow then intents[k].policy.dns == DnsSystem else p.egress == intents[k].tunnel)
      then Accept else Drop)
  {
    ForwardChainMeaning(intents, p);
    FirstDeciderMeans(intents, p);
    assert Decides(intents[k], p).Some?;
    var first := FirstDecider(intents, p).value;
    var l :| 0 <= l < |intents| && intents[l] == first;
    ApartAt(intents, l, k);
    BothSelectOverlap(intents[l], intents[k], p);
  }

  lemma ApartAt(intents: seq<Intent>, k: nat, l: nat)
    requires k < |intents| && l < |intents| && forall i, j | 0 <= i < j < |intents| :: Apart(intents[i], intents[j])
    ensures k != l ==> !SelectorsOverlap(SelectorOf(intents[k]), SelectorOf(intents[l]))
  {
    assert k < l ==> Apart(intents[k], intents[l]);
    assert l < k ==> Apart(intents[l], intents[k]);
  }

  /**
   * A subnet route narrows only its own family: ahead of a subnet route of the other family on the same ingress it
   * takes over all of that route's packets, and lets them out by its own tunnel and no other.
   */
  lemma OtherFamilySubnetTakesOver(i: Intent, j: Intent, p: Packet)
    requires i.source.SubnetSource? && j.source.SubnetSource? && i.ingress == j.ingress
    requires i.source.subnet.addr.family != j.source.subnet.addr.family == p.src.family
    requires Protects(j, p) && Guards(i, p.src.family) && !IsDns(p)
    ensures !SelectorsOverlap(SelectorOf(i), SelectorOf(j))
    ensures Verdict(ForwardChain([i, j]), p) == Some(if p.egress == i.tunnel then Accept else Drop)
  {
    ForwardChainMeaning([i, j], p);
    assert FirstDecider([i, j], p) == Some(i);
  }

  /** Ahead of route `k` on its ingress this intent would decide every packet of the family that is not DNS. */
  predicate Claims(i: Intent, k: Intent, family: Family) {
    i == k || (i.ingress == k.ingress && SourceMatch(i, family).None? && (FamilyPolicy(i.policy, family) == Block || Guards(i, family)))
  }

  function Claimant(intents: seq<Intent>, k: Intent, family: Family): Option<Intent> {
    if intents == [] then None else if Claims(intents[0], k, family) then Some(intents[0]) else Claimant(intents[1..], k, family)
  }

  /** Route `k` names a subnet, and this is one of the packets it protects, in the subnet's own family and not DNS. */
  predicate OwnPacket(k: Intent, p: Packet) {
    k.source.SubnetSource? && k.source.subnet.addr.family == p.src.family && Protects(k, p) && !IsDns(p)
  }

  lemma {:induction false} ClaimantDecides(intents: seq<Intent>, k: Intent, p: Packet)
    requires OwnPacket(k, p)
    requires forall i | i in intents && i != k :: !SelectorsOverlap(SelectorOf(i), SelectorOf(k))
    ensures FirstDecider(intents, p) == Claimant(intents, k, p.src.family)
  {
    if intents != [] {
      var i := intents[0];
      assert i in intents && forall j | j in intents[1..] :: j in intents;
      if Decides(i, p).Some? && i.source.SubnetSource? && SourceMatch(i, p.src.family).Some? {
        BothSelectOverlap(i, k, p);
      }
      ClaimantDecides(intents[1..], k, p);
    }
  }

  lemma {:induction false} ClaimantIsOne(intents: seq<Intent>, k: Intent, family: Family)
    requires k in intents
    ensures Claimant(intents, k, family).Some? && Claims(Claimant(intents, k, family).value, k, family)
  {
    if !Claims(intents[0], k, family) {
      ClaimantIsOne(intents[1..], k, family);
    }
  }

  /**
   * With planned intents, a subnet route gets its own packets out by its own tunnel, and no others, exactly when the
   * first intent that claims them protects them and uses the same tunnel: nothing of the other family's subnets that
   * blocks, or that protects with another tunnel, comes before it on the ingress.
   */
  lemma SubnetRouteOwnTunnelIff(intents: seq<Intent>, k: nat)
    requires k < |intents| && (forall i, j | 0 <= i < j < |intents| :: Apart(intents[i], intents[j]))
    requires intents[k].source.SubnetSource? && Guards(intents[k], intents[k].source.subnet.addr.family) && intents[k].source.subnet.Valid()
    ensures (forall p | OwnPacket(intents[k], p) ::
              Verdict(ForwardChain(intents), p) == Some(if p.egress == intents[k].tunnel then Accept else Drop)) <==>
            var c := Claimant(intents, intents[k], intents[k].source.subnet.addr.family);
            c.Some? && Guards(c.value, intents[k].source.subnet.addr.family) && c.value.tunnel == intents[k].tunnel
  {
    var own, family := intents[k], intents[k].source.subnet.addr.family;
    OthersApart(intents, k);
    ClaimantIsOne(intents, own, family);
    var c := Claimant(intents, own, family).value;
    forall p | OwnPacket(own, p)
      ensures Verdict(ForwardChain(intents), p) == Some(if Guards(c, family) && p.egress == c.tunnel then Accept else Drop)
    {
      ForwardChainMeaning(intents, p);
      ClaimantDecides(intents, own, p);
      FirstDeciderMeans(intents, p);
    }
    assert OwnPacket(own, Packet(own.ingress, own.tunnel, own.source.subnet.addr, OtherTransport, 0));
  }

  lemma OthersApart(intents: seq<Intent>, k: nat)
    requires k < |intents| && (forall i, j | 0 <= i < j < |intents| :: Apart(intents[i], intents[j]))
    ensures forall i | i in intents && i != intents[k] :: !SelectorsOverlap(SelectorOf(i), SelectorOf(intents[k]))
  {
    forall i | i in intents && i != intents[k] ensures !SelectorsOverlap(SelectorOf(i), SelectorOf(intents[k])) {
      var l :| 0 <= l < |intents| && intents[l] == i;
      ApartAt(intents, l, k);
    }
  }

  // ---------------------------------------------------------------- what the input chain decides

  lemma {:induction false} InputChainMeaning(intents: seq<Intent>, p: Packet)
    ensures Verdict(InputChain(intents), p) ==
            if IsDns(p) && exists k | 0 <= k < |intents| :: intents[k].ingress == p.ingress && intents[k].policy.dns != DnsSystem
            then Some(Drop) else None
  {
    if intents != [] {
      InputRulesMeaning(intents[0], p);
      InputChainMeaning(intents[1..], p);
      VerdictAppend(InputRules(intents[0]), InputChain(intents[1..]), p);
      assert forall k | 0 < k < |intents| :: intents[1..][k - 1] == intents[k];
      assert forall k | 0 <= k < |intents[1..]| :: intents[1..][k] == intents[k + 1];
    }
  }

  /** DNS to the host itself is dropped for the whole ingress, whatever subnet the route names. */
  lemma InputRulesMeaning(i: Intent, p: Packet)
    ensures Verdict(InputRules(i), p) == if IsDns(p) && i.ingress == p.ingress && i.policy.dns != DnsSystem then Some(Drop) else None
  {
    var a, b := InputRule(i, V4), InputRule(i, V6);
    VerdictOfOne(a, p);
    VerdictOfOne(b, p);
    VerdictAppend([a], [b], p);
    assert [a] + [b] == [a, b];
  }
}
