/** Policy rules are walked by priority, firewall rules by route ID: when what the one routes the other accepts. */
module RuleOrder {
  import opened Wrappers
  import opened Prefixes
  import opened Slots
  import opened Routes
  import opened RoutePlan
  import opened PolicyRuntime
  import Leak = LeakControl

  /** What a table answers: a way out, a dead end, or nothing, so that the next rule is tried. */
  datatype Answer = Leaves(device: Name) | DeadEnd | GoOn

  predicate RuleMatches(r: PolicyRule, p: Leak.Packet) {
    match r.selector
    case Iif(name) => p.ingress == name
    case From(subnet) => subnet.Contains(p.src)
  }

  function AnswerOf(e: Entry): Answer {
    match e.kind
    case Unicast => if e.device.Some? then Leaves(e.device.value) else GoOn
    case Blackhole => DeadEnd
    case Throw => GoOn
  }

  /** The most specific route of a table: the one for the address itself, otherwise the default. */
  function Lookup(entries: seq<Entry>, dst: Addr): Answer {
    if entries == [] then GoOn
    else if entries[0].dest == Host(dst) || (entries[0].dest == Default && forall k | 0 < k < |entries| :: entries[k].dest != Host(dst))
    then AnswerOf(entries[0])
    else Lookup(entries[1..], dst)
  }

  /** What the kernel does with a packet to `dst`: the rules in this order, each asking its table. */
  function Walk(order: seq<Intent>, p: Leak.Packet, dst: Addr): Answer {
    if order == [] then GoOn
    else
      var answer := if RuleMatches(RuleOf(order[0], p.src.family), p) then Lookup(Entries(order[0], p.src.family), dst) else GoOn;
      if answer.GoOn? then Walk(order[1..], p, dst) else answer
  }

  /** The same intents, arranged by the priority of their rules. */
  ghost predicate ByPriority(order: seq<Intent>, intents: seq<Intent>) {
    && (forall i :: i in order <==> i in intents)
    && (forall j, k | 0 <= j < k < |order| :: order[j].priority < order[k].priority)
  }

  lemma {:induction false} LookupBypass(addresses: seq<Addr>, family: Family, last: Entry, dst: Addr)
    requires last.dest == Default && dst.family == family
    ensures Lookup(BypassEntries(addresses, family) + [last], dst) == if dst in addresses then GoOn else AnswerOf(last)
    decreases |addresses|
  {
    var all := BypassEntries(addresses, family) + [last];
    if addresses == [] {
      assert all == [last];
    } else {
      LookupBypass(addresses[1..], family, last, dst);
      assert dst in addresses <==> dst == addresses[0] || dst in addresses[1..];
      if addresses[0].family == family {
        assert all == [Entry(Host(addresses[0]), Throw, None)] + (BypassEntries(addresses[1..], family) + [last]);
        assert all[1..] == BypassEntries(addresses[1..], family) + [last];
      } else {
        assert BypassEntries(addresses, family) == BypassEntries(addresses[1..], family);
      }
    }
  }

  /** The table of an intent sends to its tunnel what follows the outbound and is not one of the outbound's own addresses. */
  lemma TableMeaning(i: Intent, family: Family, dst: Addr)
    requires dst.family == family
    ensures Lookup(Entries(i, family), dst) ==
            match FamilyPolicy(i.policy, family)
            case Follow => if dst in i.bypass then GoOn else Leaves(i.tunnel)
            case Block => DeadEnd
            case Direct => GoOn
  {
    LookupBypass(i.bypass, family, DefaultEntry(i, family), dst);
    LookupBypass([], family, DefaultEntry(i, family), dst);
    assert [] + [DefaultEntry(i, family)] == [DefaultEntry(i, family)];
  }

  /** The intent's rule applies to the packet and its table has an answer. */
  predicate Takes(i: Intent, p: Leak.Packet, dst: Addr) {
    RuleMatches(RuleOf(i, p.src.family), p) && !Lookup(Entries(i, p.src.family), dst).GoOn?
  }

  /** The packet is routed by the intent of the lowest priority among those that take it. */
  lemma {:induction false} WalkMeaning(order: seq<Intent>, p: Leak.Packet, dst: Addr) returns (i: Option<Intent>)
    requires forall j, k | 0 <= j < k < |order| :: order[j].priority < order[k].priority
    ensures if i.None? then Walk(order, p, dst) == GoOn && forall j | j in order :: !Takes(j, p, dst)
            else i.value in order && Takes(i.value, p, dst) && Walk(order, p, dst) == Lookup(Entries(i.value, p.src.family), dst)
                 && forall j | j in order && Takes(j, p, dst) :: i.value.priority <= j.priority
    decreases |order|
  {
    if order == [] {
      i := None;
    } else if Takes(order[0], p, dst) {
      i := Some(order[0]);
    } else {
      i := WalkMeaning(order[1..], p, dst);
      assert forall j | j in order :: j == order[0] || j in order[1..];
    }
  }

  /** The intent routes the packet into its tunnel, and nothing of a lower priority would take it. */
  ghost predicate RoutedBy(i: Intent, intents: seq<Intent>, p: Leak.Packet, dst: Addr) {
    && i in intents && Takes(i, p, dst) && FamilyPolicy(i.policy, p.src.family) == Follow && p.egress == i.tunnel
    && forall j | j in intents && Takes(j, p, dst) :: i.priority <= j.priority
  }

  /** A packet that the walk sends out by its egress was routed there by one of the intents. */
  lemma WalkedIsRouted(intents: seq<Intent>, order: seq<Intent>, p: Leak.Packet, dst: Addr) returns (i: Intent)
    requires ByPriority(order, intents) && dst.family == p.src.family && Walk(order, p, dst) == Leaves(p.egress)
    ensures RoutedBy(i, intents, p, dst)
  {
    var taker := WalkMeaning(order, p, dst);
    i := taker.value;
    TableMeaning(i, p.src.family, dst);
  }

  /**
   * What the rules send into the tunnel of an interface route with its kill switch on is accepted, in whatever order
   * the slots and the IDs come.
   */
  lemma InterfaceRouteIsAccepted(intents: seq<Intent>, k: nat, p: Leak.Packet, dst: Addr)
    requires forall i, j | 0 <= i < j < |intents| :: Apart(intents[i], intents[j])
    requires k < |intents| && RoutedBy(intents[k], intents, p, dst) && intents[k].source.InterfaceSource?
    requires intents[k].policy.killSwitch && !Leak.IsDns(p)
    ensures Leak.Verdict(Leak.ForwardChain(intents), p) == Some(Leak.Accept)
  {
    Leak.InterfaceRouteOwnTunnel(intents, k, p);
  }

  // ---------------------------------------------------------------- when everything that is routed is accepted

  /** Planned routes: apart on each ingress, and their subnets apart on the whole host. */
  ghost predicate PlannedApart(intents: seq<Intent>) {
    && (forall m, n | 0 <= m < n < |intents| :: Apart(intents[m], intents[n]))
    && (forall i, j | i in intents && j in intents && i != j && i.source.SubnetSource? && j.source.SubnetSource? ::
          forall a: Addr :: !(i.source.subnet.Contains(a) && j.source.subnet.Contains(a)))
  }

  lemma PlansAreApart(ctx: Planner, routes: seq<Route>, used: Used)
    requires Plan(ctx, routes, used).Some?
    ensures PlannedApart(Plan(ctx, routes, used).value)
  {
    var intents := Plan(ctx, routes, used).value;
    PlanFacts(ctx, routes, used, {}, []);
    forall i, j, a: Addr | i in intents && j in intents && i != j && i.source.SubnetSource? && j.source.SubnetSource?
      ensures !(i.source.subnet.Contains(a) && j.source.subnet.Contains(a))
    {
      var m :| 0 <= m < |intents| && intents[m] == i;
      var n :| 0 <= n < |intents| && intents[n] == j;
      if m < n {
        EnabledSubnetsAreDisjoint(ctx, routes, used, m, n, a);
      } else {
        EnabledSubnetsAreDisjoint(ctx, routes, used, n, m, a);
      }
    }
  }

  /** Where a packet of a family comes from: a subnet of that family that some route names, or anywhere else. */
  ghost predicate ComesFrom(intents: seq<Intent>, place: Option<Intent>, a: Addr) {
    if place.Some? then place.value in intents && Leak.SourceMatch(place.value, a.family).Some? && place.value.source.subnet.Contains(a)
    else forall i | i in intents && Leak.SourceMatch(i, a.family).Some? :: !i.source.subnet.Contains(a)
  }

  /** On the ingress of `k` the rule of `i` matches what comes from there: it names the ingress only, or that subnet. */
  predicate Contends(i: Intent, k: Intent, family: Family, place: Option<Intent>) {
    if Leak.SourceMatch(i, family).None? then i.ingress == k.ingress else place == Some(i)
  }

  /** The firewall rules of `i` decide what comes from there on the ingress of `k`. */
  predicate Judges(i: Intent, k: Intent, family: Family, place: Option<Intent>) {
    && i.ingress == k.ingress && (Leak.SourceMatch(i, family).None? || place == Some(i))
    && (FamilyPolicy(i.policy, family) == Block || Leak.Guards(i, family))
  }

  function Judge(intents: seq<Intent>, k: Intent, family: Family, place: Option<Intent>): Option<Intent> {
    if intents == [] then None
    else if Judges(intents[0], k, family, place) then Some(intents[0])
    else Judge(intents[1..], k, family, place)
  }

  /** The first judge in the order of IDs guards with the tunnel of `k`. */
  predicate JudgedRight(intents: seq<Intent>, k: Intent, family: Family, place: Option<Intent>) {
    var judge := Judge(intents, k, family, place);
    judge.Some? && Leak.Guards(judge.value, family) && judge.value.tunnel == k.tunnel
  }

  /** The intent's table leaves packets to `dst` to later rules. */
  predicate LetsGo(i: Intent, family: Family, dst: Addr) {
    FamilyPolicy(i.policy, family) == Direct || (FamilyPolicy(i.policy, family) == Follow && dst in i.bypass)
  }

  /** Of what comes from there, packets to `dst` are left to `k` by every contender whose slot is lower. */
  ghost predicate LeftTo(k: Intent, intents: seq<Intent>, family: Family, place: Option<Intent>, dst: Addr) {
    && dst.family == family && dst !in k.bypass && Contends(k, k, family, place)
    && forall i | i in intents && i.priority < k.priority && Contends(i, k, family, place) :: LetsGo(i, family, dst)
  }

  /** A packet that is not DNS, on the ingress of `k`. */
  predicate Arrives(k: Intent, family: Family, p: Leak.Packet) {
    p.ingress == k.ingress && p.src.family == family && !Leak.IsDns(p)
  }

  lemma MatchIsContention(intents: seq<Intent>, i: Intent, k: Intent, place: Option<Intent>, p: Leak.Packet)
    requires PlannedApart(intents) && i in intents && Arrives(k, p.src.family, p) && ComesFrom(intents, place, p.src)
    ensures RuleMatches(RuleOf(i, p.src.family), p) <==> Contends(i, k, p.src.family, place)
  {
    if Leak.SourceMatch(i, p.src.family).Some? && place.Some? && place.value != i {
      var j := place.value;
      assert i in intents && j in intents && i.source.SubnetSource? && j.source.SubnetSource?;
    }
  }

  lemma RoutedIfLeft(intents: seq<Intent>, k: Intent, place: Option<Intent>, p: Leak.Packet, dst: Addr)
    requires PlannedApart(intents) && k in intents && Leak.Guards(k, p.src.family)
    requires Arrives(k, p.src.family, p) && ComesFrom(intents, place, p.src) && dst.family == p.src.family && p.egress == k.tunnel
    ensures RoutedBy(k, intents, p, dst) <==> LeftTo(k, intents, p.src.family, place, dst)
  {
    forall i | i in intents
      ensures Takes(i, p, dst) <==> Contends(i, k, p.src.family, place) && !LetsGo(i, p.src.family, dst)
    {
      MatchIsContention(intents, i, k, place, p);
      TableMeaning(i, p.src.family, dst);
    }
  }

  lemma JudgeOrNone(intents: seq<Intent>, i: Intent, k: Intent, place: Option<Intent>, p: Leak.Packet)
    requires PlannedApart(intents) && i in intents && Arrives(k, p.src.family, p) && ComesFrom(intents, place, p.src)
    ensures Leak.Decides(i, p).Some? <==> Judges(i, k, p.src.family, place)
  {
    if Leak.SourceMatch(i, p.src.family).Some? && place.Some? && place.value != i {
      var j := place.value;
      assert i in intents && j in intents && i.source.SubnetSource? && j.source.SubnetSource?;
    }
  }

  lemma {:induction false} DeciderIsJudge(intents: seq<Intent>, all: seq<Intent>, k: Intent, place: Option<Intent>, p: Leak.Packet)
    requires PlannedApart(all) && (forall i | i in intents :: i in all)
    requires Arrives(k, p.src.family, p) && ComesFrom(all, place, p.src)
    ensures Leak.FirstDecider(intents, p) == Judge(intents, k, p.src.family, place)
    decreases |intents|
  {
    if intents != [] {
      JudgeOrNone(all, intents[0], k, place, p);
      DeciderIsJudge(intents[1..], all, k, place, p);
    }
  }

  lemma AcceptedIfRight(intents: seq<Intent>, k: Intent, place: Option<Intent>, p: Leak.Packet)
    requires PlannedApart(intents) && k in intents && Arrives(k, p.src.family, p) && ComesFrom(intents, place, p.src) && p.egress == k.tunnel
    requires Leak.Guards(k, p.src.family) && Contends(k, k, p.src.family, place)
    ensures Leak.Verdict(Leak.ForwardChain(intents), p) == Some(Leak.Accept) <==> JudgedRight(intents, k, p.src.family, place)
  {
    Leak.ForwardChainMeaning(intents, p);
    Leak.FirstDeciderMeans(intents, p);
    DeciderIsJudge(intents, intents, k, place, p);
  }

  /** Everything that the rules send into the tunnel of `k` from its own ingress, DNS aside, gets through the firewall. */
  ghost predicate AllAccepted(intents: seq<Intent>, k: Intent, family: Family) {
    forall p, dst: Addr | Arrives(k, family, p) && dst.family == family && RoutedBy(k, intents, p, dst) ::
      Leak.Verdict(Leak.ForwardChain(intents), p) == Some(Leak.Accept)
  }

  /**
   * For planned routes: everything the rules send into the tunnel of a guarded route from its own ingress is accepted
   * exactly if, wherever it can come from, either every destination is taken by a route of a lower slot, or the route
   * first in the order of IDs among those that decide there guards with the same tunnel.
   */
  lemma AllAcceptedIff(intents: seq<Intent>, k: Intent, family: Family)
    requires PlannedApart(intents) && k in intents && Leak.Guards(k, family)
    ensures AllAccepted(intents, k, family) <==>
            forall place, a: Addr, dst | a.family == family && ComesFrom(intents, place, a) && LeftTo(k, intents, family, place, dst) ::
              JudgedRight(intents, k, family, place)
  {
    if AllAccepted(intents, k, family) {
      forall place, a: Addr, dst | a.family == family && ComesFrom(intents, place, a) && LeftTo(k, intents, family, place, dst)
        ensures JudgedRight(intents, k, family, place)
      {
        var p := Leak.Packet(k.ingress, k.tunnel, a, Leak.OtherTransport, 0);
        RoutedIfLeft(intents, k, place, p, dst);
        AcceptedIfRight(intents, k, place, p);
      }
    }
    if forall place, a: Addr, dst | a.family == family && ComesFrom(intents, place, a) && LeftTo(k, intents, family, place, dst) ::
         JudgedRight(intents, k, family, place) {
      forall p, dst: Addr | Arrives(k, family, p) && dst.family == family && RoutedBy(k, intents, p, dst)
        ensures Leak.Verdict(Leak.ForwardChain(intents), p) == Some(Leak.Accept)
      {
        var place := PlaceOf(intents, p.src);
        RoutedIfLeft(intents, k, place, p, dst);
        AcceptedIfRight(intents, k, place, p);
      }
    }
  }

  lemma PlaceOf(intents: seq<Intent>, a: Addr) returns (place: Option<Intent>)
    ensures ComesFrom(intents, place, a)
  {
    if i :| i in intents && Leak.SourceMatch(i, a.family).Some? && i.source.subnet.Contains(a) {
      place := Some(i);
    } else {
      place := None;
    }
  }

  /** With no other route that names the whole ingress in this family there is nothing to disagree about. */
  lemma AloneIsAccepted(intents: seq<Intent>, k: Intent, family: Family)
    requires PlannedApart(intents) && k in intents && Leak.Guards(k, family)
    requires forall i | i in intents && i != k && i.ingress == k.ingress :: Leak.SourceMatch(i, family).Some? && Leak.SourceMatch(k, family).Some?
    ensures AllAccepted(intents, k, family)
  {
    forall place, a: Addr, dst | a.family == family && ComesFrom(intents, place, a) && LeftTo(k, intents, family, place, dst)
      ensures JudgedRight(intents, k, family, place)
    {
      OnlyJudge(intents, k, family, place);
    }
    AllAcceptedIff(intents, k, family);
  }

  lemma {:induction false} OnlyJudge(intents: seq<Intent>, k: Intent, family: Family, place: Option<Intent>)
    requires k in intents && Leak.Guards(k, family) && Contends(k, k, family, place)
    requires forall i | i in intents && i != k && i.ingress == k.ingress :: Leak.SourceMatch(i, family).Some? && Leak.SourceMatch(k, family).Some?
    ensures Judge(intents, k, family, place) == Some(k)
  {
    if intents[0] != k {
      OnlyJudge(intents[1..], k, family, place);
    }
  }

  /**
   * Two guarded subnet routes of one family on one ingress: for packets of the other family both rules and both
   * chains name the ingress only. If the slots and the IDs order them differently, the kernel sends such a packet
   * into one tunnel and the firewall, which lets it out by the other only, drops it.
   */
  lemma OrdersDisagree(i: Intent, j: Intent, p: Leak.Packet, dst: Addr)
    requires i.source.SubnetSource? && j.source.SubnetSource? && i.source.subnet.addr.family == j.source.subnet.addr.family != p.src.family
    requires i.ingress == j.ingress == p.ingress && Leak.Guards(i, p.src.family) && Leak.Guards(j, p.src.family)
    requires j.priority < i.priority && i.tunnel != j.tunnel && p.egress == j.tunnel
    requires dst.family == p.src.family && dst !in j.bypass && !Leak.IsDns(p)
    ensures Walk([j, i], p, dst) == Leaves(p.egress) && RoutedBy(j, [i, j], p, dst)
    ensures Leak.Verdict(Leak.ForwardChain([i, j]), p) == Some(Leak.Drop)
  {
    TableMeaning(j, p.src.family, dst);
    TableMeaning(i, p.src.family, dst);
    Leak.ForwardChainMeaning([i, j], p);
    assert Leak.FirstDecider([i, j], p) == Some(i);
  }

  /**
   * Even in the same order: packets of the other family to an address of the first route's own outbound are left to
   * the second route by the first one's table, and the firewall lets them out by the first one's tunnel only.
   */
  lemma BypassDisagrees(i: Intent, j: Intent, p: Leak.Packet, dst: Addr)
    requires i.source.SubnetSource? && j.source.SubnetSource? && i.source.subnet.addr.family == j.source.subnet.addr.family != p.src.family
    requires i.ingress == j.ingress == p.ingress && Leak.Guards(i, p.src.family) && Leak.Guards(j, p.src.family)
    requires i.priority < j.priority && i.tunnel != j.tunnel && p.egress == j.tunnel
    requires dst.family == p.src.family && dst in i.bypass && dst !in j.bypass && !Leak.IsDns(p)
    ensures Walk([i, j], p, dst) == Leaves(p.egress) && RoutedBy(j, [i, j], p, dst)
    ensures Leak.Verdict(Leak.ForwardChain([i, j]), p) == Some(Leak.Drop)
  {
    TableMeaning(j, p.src.family, dst);
    TableMeaning(i, p.src.family, dst);
    assert [i, j][1..] == [j] && [j][1..] == [];
    Leak.ForwardChainMeaning([i, j], p);
    assert Leak.FirstDecider([i, j], p) == Some(i);
  }
}
