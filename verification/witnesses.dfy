/** Hosts and routes the planner accepts, for which the things happen that other modules show to be possible. */
module Witnesses {
  import opened Wrappers
  import opened Prefixes
  import opened Slots
  import opened Routes
  import opened RoutePlan
  import opened Replan
  import Leak = LeakControl
  import Order = RuleOrder
  import Engine = RouteEngine

  // ---------------------------------------------------------------- networks

  /** The network of all addresses that start with `head`, which is followed by so many zeros. */
  function Net(family: Family, head: nat, zeros: nat): Prefix
    requires zeros <= Width(family)
  {
    Prefix(Addr(family, Shl(head, zeros)), Width(family) - zeros)
  }

  /** Its first host. */
  function HostIn(family: Family, head: nat, zeros: nat): Prefix
    requires zeros <= Width(family)
  {
    Prefix(Addr(family, Shl(head, zeros) + 1), Width(family) - zeros)
  }

  lemma NetFacts(family: Family, head: nat, zeros: nat)
    requires 0 < zeros <= Width(family)
    ensures Masked(HostIn(family, head, zeros)) == Net(family, head, zeros) && Canonical(Net(family, head, zeros))
    ensures Drop(Net(family, head, zeros).addr.value, zeros) == head == Drop(HostIn(family, head, zeros).addr.value, zeros)
  {
    DropOfShl(head, zeros);
  }

  lemma {:induction false} SmallDrops(n: nat)
    ensures Drop(0, n) == 0 && (n > 0 ==> Drop(1, n) == 0)
  {
    if n > 0 {
      SmallDrops(n - 1);
    }
  }

  lemma Drop24(v: nat)
    ensures Drop(v, 24) == v / 0x100_0000
  {
    DropTwice(v, 8, 16);
    DropTwice(v / 0x100, 8, 8);
    DropEight(v);
    DropEight(v / 0x100);
    DropEight(v / 0x1_0000);
  }

  /** Prefixes that differ in bits both of them fix do not overlap. */
  lemma ApartAt(p: Prefix, q: Prefix, at: nat)
    requires p.addr.family == q.addr.family && Drop(p.addr.value, at) != Drop(q.addr.value, at)
    requires p.Valid() && q.Valid() && Width(p.addr.family) - p.bits <= at && Width(p.addr.family) - q.bits <= at
    ensures !Overlap(p, q)
  {
    SameAbove(p.addr.value, q.addr.value, Width(p.addr.family) - p.bits, at);
    SameAbove(p.addr.value, q.addr.value, Width(p.addr.family) - q.bits, at);
  }

  lemma SameAbove(x: nat, y: nat, fine: nat, coarse: nat)
    requires fine <= coarse
    ensures Drop(x, fine) == Drop(y, fine) ==> Drop(x, coarse) == Drop(y, coarse)
  {
    if Drop(x, fine) == Drop(y, fine) {
      DropCoarser(x, y, fine, coarse);
    }
  }

  // ---------------------------------------------------------------- the host

  /** 10.0.0.0/8, 2000::/16, 2001::/16 and fd00::/32. */
  function Lans(): seq<Prefix> {
    [Net(V4, 10, 24), Net(V6, 0x2000, 112), Net(V6, 0x2001, 112), Net(V6, 0xfd00_0000, 96)]
  }

  const LAN := OtherName(1)

  function LanLink(): Interface {
    Interface(LAN, Up, [HostIn(V4, 10, 24), HostIn(V6, 0x2000, 112), HostIn(V6, 0x2001, 112), HostIn(V6, 0xfd00_0000, 96)])
  }

  function Host(others: seq<Interface>): Inventory {
    Inventory([LanLink()] + others, [], [])
  }

  lemma HostUses(others: seq<Interface>)
    ensures UsedOn(Host(others)).tables == {} && UsedOn(Host(others)).priorities == {}
    ensures UsedOn(Host(others)).prefixes == Lans() + AllInterfacePrefixes(others)
  {
    NetFacts(V4, 10, 24);
    NetFacts(V6, 0x2000, 112);
    NetFacts(V6, 0x2001, 112);
    NetFacts(V6, 0xfd00_0000, 96);
    assert InterfacePrefixes(LanLink()) == Lans();
    assert Host(others).interfaces[1..] == others;
  }

  lemma LanFacts()
    ensures Drop(Net(V4, 10, 24).addr.value, 24) == 10
    ensures Drop(Net(V6, 0x2000, 112).addr.value, 120) == 0x20 == Drop(Net(V6, 0x2001, 112).addr.value, 120)
    ensures Drop(Net(V6, 0xfd00_0000, 96).addr.value, 96) == 0xfd00_0000
    ensures Drop(Net(V6, 0xfd00_0000, 96).addr.value, 120) == 0xfd == Drop(UniqueLocal().addr.value, 120)
  {
    NetFacts(V4, 10, 24);
    NetFacts(V6, 0x2000, 112);
    NetFacts(V6, 0x2001, 112);
    NetFacts(V6, 0xfd00_0000, 96);
    DropTwice(Net(V6, 0x2000, 112).addr.value, 112, 8);
    DropTwice(Net(V6, 0x2001, 112).addr.value, 112, 8);
    DropTwice(Net(V6, 0xfd00_0000, 96).addr.value, 96, 24);
    DropEight(0x2000);
    DropEight(0x2001);
    Drop24(0xfd00_0000);
    DropOfShl(0xfd, 120);
  }

  /** No tunnel network overlaps one of the host's. */
  lemma TunnelsAvoid(slot: nat)
    requires slot < SLOTS
    ensures !OverlapsAny(SlotNet4(slot), Lans()) && !OverlapsAny(SlotNet6(slot), Lans())
  {
    LanFacts();
    SlotNet4Value(slot);
    Drop24(SlotNet4(slot).addr.value);
    Head6Dropped(slot, 80);
    ApartAt(SlotNet4(slot), Net(V4, 10, 24), 24);
    ApartAt(SlotNet6(slot), Net(V6, 0x2000, 112), 120);
    ApartAt(SlotNet6(slot), Net(V6, 0x2001, 112), 120);
    ApartAt(SlotNet6(slot), Net(V6, 0xfd00_0000, 96), 96);
  }

  // ---------------------------------------------------------------- planning one route

  const SING_BOX: nat := 1
  const NATIVE: nat := 2
  const SECOND: nat := 3

  /** The server of an outbound: 10.0.0.1, 10.0.0.2 or 10.0.0.3. */
  function Endpoint(outbound: nat): Addr {
    Addr(V4, 10 * 0x100_0000 + outbound)
  }

  /** Two healthy outbounds of the sing-box adapter and a native one. */
  function PlannerOn(interfaces: seq<Interface>): Planner {
    Planner(Settings(Bases(1000, 1000), [], map[NATIVE := Native(1)]), interfaces,
      map[SING_BOX := Outbound(SingBoxAdapter, true, OtherHealth, [Endpoint(SING_BOX)]),
          NATIVE := Outbound(NativeAdapter, true, OtherHealth, [Endpoint(NATIVE)]),
          SECOND := Outbound(SingBoxAdapter, true, OtherHealth, [Endpoint(SECOND)])])
  }

  /** A route with its kill switch on, whose search for a slot starts where it is told to. */
  function RouteFor(id: nat, start: nat, source: Source, outbound: nat): Route {
    Route(id, Digest(start, id), source, Policy(outbound, None, FailBlock, DnsSystem, [], Follow, Follow, true, 0, 0), true)
  }

  function ChoiceOf(outbound: nat): Choice {
    Choice(if outbound == NATIVE then NativeAdapter else SingBoxAdapter, [Endpoint(outbound)], Some(outbound), false)
  }

  function IntentFor(interfaces: seq<Interface>, r: Route, slot: nat): Intent {
    IntentOf(PlannerOn(interfaces), r, SelectorFor(r), ChoiceOf(r.policy.outbound),
      if r.policy.outbound == NATIVE then Native(1) else Tunnel(r.digest.name), slot)
  }

  function SelectorFor(r: Route): Selector {
    Selector(LAN, if r.source.SubnetSource? then Some(r.source.subnet) else None)
  }

  predicate Known(outbound: nat) {
    outbound == SING_BOX || outbound == NATIVE || outbound == SECOND
  }

  lemma EndpointIsSafe(outbound: nat)
    requires Known(outbound)
    ensures !Unsafe(Endpoint(outbound))
  {
    var v := Endpoint(outbound).value;
    Drop24(v);
    DropTwice(v, 24, 4);
    DropFour(10);
  }

  lemma Chooses(id: nat, start: nat, source: Source, outbound: nat, interfaces: seq<Interface>)
    requires Known(outbound)
    ensures Choose(RouteFor(id, start, source, outbound).policy, PlannerOn(interfaces).outbounds) == Some(ChoiceOf(outbound))
  {
    EndpointIsSafe(outbound);
    var a := Endpoint(outbound);
    assert [a][1..] == [] && NormalizeAddresses([a]) == [a];
    assert [a] + [] == [a];
  }

  /** The sources used here: the interface, or one of these subnets. */
  predicate LanSource(source: Source) {
    || source == InterfaceSource(LAN)
    || source == SubnetSource(Net(V4, 10, 24)) || source == SubnetSource(Net(V6, 0x2000, 112)) || source == SubnetSource(Net(V6, 0x2001, 112))
    || source == SubnetSource(UniqueLocal())
  }

  lemma RouteIsValid(id: nat, start: nat, source: Source, outbound: nat, interfaces: seq<Interface>)
    requires LanSource(source)
    ensures ValidRoute(RouteFor(id, start, source, outbound)) && ValidSettings(PlannerOn(interfaces).settings)
  {
    NetFacts(V4, 10, 24);
    NetFacts(V6, 0x2000, 112);
    NetFacts(V6, 0x2001, 112);
    NetFacts(V6, 0xfd, 120);
    assert UniqueLocal() == Net(V6, 0xfd, 120);
  }

  lemma SubnetIsSafe(subnet: Prefix)
    requires LanSource(SubnetSource(subnet))
    ensures !Unsafe(subnet.addr)
  {
    LanFacts();
    SmallDrops(24);
    SmallDrops(120);
    if subnet.addr.family == V4 {
      DropTwice(subnet.addr.value, 24, 4);
      DropFour(10);
    }
  }

  lemma CarriedAt(link: Interface, n: nat, subnet: Prefix)
    requires link.state == Up && link.name != Lo && n < |link.addresses| && Overlap(Masked(link.addresses[n]), subnet)
    ensures MatchesSubnet(link, subnet)
  {
  }

  lemma HostNet(family: Family, head: nat, zeros: nat)
    requires 0 < zeros <= Width(family)
    ensures Overlap(Masked(HostIn(family, head, zeros)), Net(family, head, zeros))
  {
    NetFacts(family, head, zeros);
  }

  lemma LanCarries(subnet: Prefix)
    requires LanSource(SubnetSource(subnet))
    ensures MatchesSubnet(LanLink(), subnet)
  {
    if subnet == UniqueLocal() {
      LanFacts();
      NetFacts(V6, 0xfd00_0000, 96);
      CarriedAt(LanLink(), 3, subnet);
    } else {
      HostNet(V4, 10, 24);
      HostNet(V6, 0x2000, 112);
      HostNet(V6, 0x2001, 112);
      CarriedAt(LanLink(), if subnet == Net(V4, 10, 24) then 0 else if subnet == Net(V6, 0x2000, 112) then 1 else 2, subnet);
    }
  }

  /** With no other interface up, every such source resolves to the one interface. */
  lemma Resolves(source: Source, others: seq<Interface>)
    requires LanSource(source) && (source.SubnetSource? ==> others == [])
    ensures ResolveSource(source, [LanLink()] + others, []) ==
            Some(Selector(LAN, if source.SubnetSource? then Some(source.subnet) else None))
  {
    if source.SubnetSource? {
      SubnetIsSafe(source.subnet);
      LanCarries(source.subnet);
      assert ([LanLink()] + others)[1..] == [];
      assert Matching([LanLink()] + others, source.subnet) == [LAN] + [];
    }
  }

  /** The native interface, if it is used, is there. */
  predicate CanLeave(interfaces: seq<Interface>, outbound: nat) {
    outbound == SING_BOX || outbound == SECOND || (outbound == NATIVE && Find(interfaces, Native(1)).Some? && Find(interfaces, Native(1)).value.state != Down)
  }

  lemma PlansIn(id: nat, start: nat, source: Source, outbound: nat, others: seq<Interface>, slot: nat, selectors: seq<Selector>)
    requires LanSource(source) && (source.SubnetSource? ==> others == []) && CanLeave([LanLink()] + others, outbound)
    requires !Clashes(selectors, SelectorFor(RouteFor(id, start, source, outbound)))
    ensures var interfaces, r := [LanLink()] + others, RouteFor(id, start, source, outbound);
      PlanWith(PlannerOn(interfaces), r, Some(slot), selectors) == Some(Step(SelectorFor(r), slot, IntentFor(interfaces, r, slot)))
  {
    Resolves(source, others);
    Chooses(id, start, source, outbound, [LanLink()] + others);
  }

  lemma FreeAmongLans(used: Used, slot: nat)
    requires slot < SLOTS && 1000 + slot !in used.tables && 1000 + slot !in used.priorities
    requires forall p | p in used.prefixes :: p in Lans()
    ensures Free(Bases(1000, 1000), used, slot)
  {
    TunnelsAvoid(slot);
  }

  lemma PicksFree(b: Bases, used: Used, start: nat)
    requires start < SLOTS && Free(b, used, start)
    ensures Pick(b, used, start, 0) == Some(start)
  {
    assert SlotAt(start, 0) == start;
  }

  lemma PlansOne(id: nat, start: nat, source: Source, outbound: nat, others: seq<Interface>, used: Used, selectors: seq<Selector>)
    requires LanSource(source) && (source.SubnetSource? ==> others == []) && CanLeave([LanLink()] + others, outbound)
    requires !Clashes(selectors, SelectorFor(RouteFor(id, start, source, outbound)))
    requires start < SLOTS && 1000 + start !in used.tables && 1000 + start !in used.priorities
    requires forall p | p in used.prefixes :: p in Lans()
    ensures var interfaces, r := [LanLink()] + others, RouteFor(id, start, source, outbound);
      PlanOne(PlannerOn(interfaces), r, used, selectors) == Some(Step(SelectorFor(r), start, IntentFor(interfaces, r, start)))
  {
    FreeAmongLans(used, start);
    PicksFree(Bases(1000, 1000), used, start);
    PlansIn(id, start, source, outbound, others, start, selectors);
  }

  /** One step of the planning loop, for a planner that is not looked into. */
  lemma StepsOn(ctx: Planner, routes: seq<Route>, used: Used, seen: set<nat>, selectors: seq<Selector>, planned: Option<Step>, tail: Option<seq<Intent>>)
    requires routes != [] && ValidRoute(routes[0]) && routes[0].enabled && routes[0].id !in seen
    requires planned == PlanOne(ctx, routes[0], used, selectors) && planned.Some?
    requires tail == PlanFrom(ctx, routes[1..], Take(ctx.settings.bases, used, planned.value.slot), seen + {routes[0].id}, selectors + [planned.value.selector])
    requires tail.Some?
    ensures PlanFrom(ctx, routes, used, seen, selectors) == Some([planned.value.intent] + tail.value)
  {
  }

  lemma OneStep(ctx: Planner, r: Route, used: Used, one: Step)
    requires ValidSettings(ctx.settings) && NamesDistinct(ctx.interfaces) && ValidRoute(r) && r.enabled
    requires PlanOne(ctx, r, used, []) == Some(one)
    ensures Plan(ctx, [r], used) == Some([one.intent])
  {
    assert [r][1..] == [] && [one.intent] + [] == [one.intent];
    StepsOn(ctx, [r], used, {}, [], Some(one), Some([]));
  }

  lemma TwoSteps(ctx: Planner, first: Route, second: Route, used: Used, one: Step, two: Step)
    requires ValidSettings(ctx.settings) && NamesDistinct(ctx.interfaces)
    requires ValidRoute(first) && first.enabled && ValidRoute(second) && second.enabled && first.id != second.id
    requires PlanOne(ctx, first, used, []) == Some(one)
    requires PlanOne(ctx, second, Take(ctx.settings.bases, used, one.slot), [one.selector]) == Some(two)
    ensures Plan(ctx, [first, second], used) == Some([one.intent, two.intent])
  {
    var taken := Take(ctx.settings.bases, used, one.slot);
    assert [first, second][1..] == [second] && [second][1..] == [] && [] + [one.selector] == [one.selector];
    StepsOn(ctx, [second], taken, {} + {first.id}, [one.selector], Some(two), Some([]));
    assert [two.intent] + [] == [two.intent] && [one.intent] + [two.intent] == [one.intent, two.intent];
    StepsOn(ctx, [first, second], used, {}, [], Some(one), Some([two.intent]));
  }

  // ---------------------------------------------------------------- two subnets on one interface

  /** Two of the three networks, in the order of their IDs, each in its own slot. */
  predicate TwoNets(s: Prefix, t: Prefix, m: nat, n: nat, x: nat, y: nat) {
    && m < n && x < SLOTS && y < SLOTS && x != y
    && s in {Net(V4, 10, 24), Net(V6, 0x2000, 112), Net(V6, 0x2001, 112)} && t in {Net(V4, 10, 24), Net(V6, 0x2000, 112), Net(V6, 0x2001, 112)} && s != t
  }

  lemma NetsDiffer()
    ensures Net(V6, 0x2000, 112) != Net(V6, 0x2001, 112)
  {
    NetFacts(V6, 0x2000, 112);
    NetFacts(V6, 0x2001, 112);
  }

  lemma NetsAreApart(s: Prefix, t: Prefix, m: nat, n: nat, x: nat, y: nat)
    requires TwoNets(s, t, m, n, x, y)
    ensures !Overlap(s, t)
  {
    if s.addr.family == V6 == t.addr.family {
      NetFacts(V6, 0x2000, 112);
      NetFacts(V6, 0x2001, 112);
      ApartAt(s, t, 112);
    }
  }

  function IntentOn(id: nat, start: nat, subnet: Prefix, outbound: nat): Intent {
    IntentFor([LanLink()] + [], RouteFor(id, start, SubnetSource(subnet), outbound), start)
  }

  lemma NoClash(s: Prefix, t: Prefix, m: nat, n: nat, x: nat, y: nat)
    requires TwoNets(s, t, m, n, x, y)
    ensures !Clashes([Selector(LAN, Some(s))], Selector(LAN, Some(t)))
  {
    NetsAreApart(s, t, m, n, x, y);
  }

  lemma TakenFirst(x: nat)
    requires x < SLOTS
    ensures var taken := Take(Bases(1000, 1000), UsedOn(Host([])), x);
      taken.tables == {1000 + x} == taken.priorities && forall p | p in taken.prefixes :: p in Lans()
  {
    HostUses([]);
  }

  lemma SecondIsPlanned(s: Prefix, t: Prefix, m: nat, n: nat, x: nat, y: nat, outbound: nat, taken: Used)
    requires TwoNets(s, t, m, n, x, y) && (outbound == SING_BOX || outbound == SECOND)
    requires taken.tables == {1000 + x} == taken.priorities && forall p | p in taken.prefixes :: p in Lans()
    ensures var r := RouteFor(n, y, SubnetSource(t), outbound);
      PlanOne(PlannerOn([LanLink()] + []), r, taken, [Selector(LAN, Some(s))]) == Some(Step(SelectorFor(r), y, IntentOn(n, y, t, outbound)))
  {
    NoClash(s, t, m, n, x, y);
    PlansOne(n, y, SubnetSource(t), outbound, [], taken, [Selector(LAN, Some(s))]);
  }

  lemma FirstIsPlanned(id: nat, start: nat, source: Source)
    requires LanSource(source) && start < SLOTS
    ensures var r := RouteFor(id, start, source, SING_BOX);
      PlanOne(PlannerOn([LanLink()] + []), r, UsedOn(Host([])), []) == Some(Step(SelectorFor(r), start, IntentFor([LanLink()] + [], r, start)))
  {
    HostUses([]);
    PlansOne(id, start, source, SING_BOX, [], UsedOn(Host([])), []);
  }

  lemma BothArePlanned(s: Prefix, t: Prefix, m: nat, n: nat, x: nat, y: nat, outbound: nat)
    requires TwoNets(s, t, m, n, x, y) && (outbound == SING_BOX || outbound == SECOND)
    ensures Plan(PlannerOn(Host([]).interfaces), [RouteFor(m, x, SubnetSource(s), SING_BOX), RouteFor(n, y, SubnetSource(t), outbound)], UsedOn(Host([]))) ==
            Some([IntentOn(m, x, s, SING_BOX), IntentOn(n, y, t, outbound)])
  {
    var first, second := RouteFor(m, x, SubnetSource(s), SING_BOX), RouteFor(n, y, SubnetSource(t), outbound);
    RouteIsValid(m, x, SubnetSource(s), SING_BOX, [LanLink()] + []);
    RouteIsValid(n, y, SubnetSource(t), outbound, [LanLink()] + []);
    FirstIsPlanned(m, x, SubnetSource(s));
    TakenFirst(x);
    SecondIsPlanned(s, t, m, n, x, y, outbound, Take(Bases(1000, 1000), UsedOn(Host([])), x));
    TwoSteps(PlannerOn([LanLink()] + []), first, second, UsedOn(Host([])),
      Step(SelectorFor(first), x, IntentOn(m, x, s, SING_BOX)), Step(SelectorFor(second), y, IntentOn(n, y, t, outbound)));
  }

  /** An IPv6 subnet ahead of an IPv4 one: an IPv4 packet on its way into its own route's tunnel is dropped. */
  lemma PlannedTakeover(m: nat, n: nat, x: nat, y: nat) returns (p: Leak.Packet)
    requires m < n && x < SLOTS && y < SLOTS && x != y
    ensures var s, t := Net(V6, 0x2000, 112), Net(V4, 10, 24);
      var intents := [IntentOn(m, x, s, SING_BOX), IntentOn(n, y, t, SING_BOX)];
      && Plan(PlannerOn(Host([]).interfaces), [RouteFor(m, x, SubnetSource(s), SING_BOX), RouteFor(n, y, SubnetSource(t), SING_BOX)], UsedOn(Host([]))) == Some(intents)
      && Leak.OwnPacket(intents[1], p) && p.egress == intents[1].tunnel
      && Leak.Verdict(Leak.ForwardChain(intents), p) == Some(Leak.Drop)
  {
    var s, t := Net(V6, 0x2000, 112), Net(V4, 10, 24);
    BothArePlanned(s, t, m, n, x, y, SING_BOX);
    NetFacts(V4, 10, 24);
    p := TakenOver(m, n, x, y, s, t);
  }

  lemma IntentFacts(id: nat, start: nat, subnet: Prefix, outbound: nat)
    requires start < SLOTS && (outbound == SING_BOX || outbound == SECOND)
    ensures var i := IntentOn(id, start, subnet, outbound);
      && i.source == SubnetSource(subnet) && i.ingress == LAN && i.tunnel == Tunnel(id) && i.bypass == [Endpoint(outbound)]
      && i.table == i.priority == 1000 + start && Leak.Guards(i, V4)
  {
    SlotArithmeticNeverWraps(Bases(1000, 1000), 0, 0, start);
  }

  lemma TakenOver(m: nat, n: nat, x: nat, y: nat, s: Prefix, t: Prefix) returns (p: Leak.Packet)
    requires m < n && x < SLOTS && y < SLOTS && s.addr.family == V6 && t.addr.family == V4 && t.Contains(t.addr)
    ensures var intents := [IntentOn(m, x, s, SING_BOX), IntentOn(n, y, t, SING_BOX)];
      && Leak.OwnPacket(intents[1], p) && p.egress == intents[1].tunnel
      && Leak.Verdict(Leak.ForwardChain(intents), p) == Some(Leak.Drop)
  {
    IntentFacts(m, x, s, SING_BOX);
    IntentFacts(n, y, t, SING_BOX);
    p := Leak.Packet(LAN, Tunnel(n), t.addr, Leak.OtherTransport, 0);
    Leak.OtherFamilySubnetTakesOver(IntentOn(m, x, s, SING_BOX), IntentOn(n, y, t, SING_BOX), p);
  }

  /** Two IPv6 subnets whose slots are in the opposite order of their IDs: IPv4 packets are routed by one and dropped for the other. */
  lemma PlannedOrdersDisagree(m: nat, n: nat, x: nat, y: nat) returns (p: Leak.Packet, dst: Addr)
    requires m < n && y < x < SLOTS
    ensures var s, t := Net(V6, 0x2000, 112), Net(V6, 0x2001, 112);
      var intents := [IntentOn(m, x, s, SING_BOX), IntentOn(n, y, t, SING_BOX)];
      && Plan(PlannerOn(Host([]).interfaces), [RouteFor(m, x, SubnetSource(s), SING_BOX), RouteFor(n, y, SubnetSource(t), SING_BOX)], UsedOn(Host([]))) == Some(intents)
      && Order.RoutedBy(intents[1], intents, p, dst) && p.ingress == intents[1].ingress && !Leak.IsDns(p)
      && Leak.Verdict(Leak.ForwardChain(intents), p) == Some(Leak.Drop)
  {
    var s, t := Net(V6, 0x2000, 112), Net(V6, 0x2001, 112);
    NetsDiffer();
    BothArePlanned(s, t, m, n, x, y, SING_BOX);
    p, dst := TakenAndDropped(m, n, x, y, s, t);
  }

  lemma TakenAndDropped(m: nat, n: nat, x: nat, y: nat, s: Prefix, t: Prefix) returns (p: Leak.Packet, dst: Addr)
    requires m < n && y < x < SLOTS && s.addr.family == V6 == t.addr.family
    ensures var intents := [IntentOn(m, x, s, SING_BOX), IntentOn(n, y, t, SING_BOX)];
      && Order.RoutedBy(intents[1], intents, p, dst) && p.ingress == intents[1].ingress && !Leak.IsDns(p)
      && Leak.Verdict(Leak.ForwardChain(intents), p) == Some(Leak.Drop)
  {
    IntentFacts(m, x, s, SING_BOX);
    IntentFacts(n, y, t, SING_BOX);
    p, dst := Leak.Packet(LAN, Tunnel(n), Endpoint(SING_BOX), Leak.OtherTransport, 0), Endpoint(NATIVE);
    Order.OrdersDisagree(IntentOn(m, x, s, SING_BOX), IntentOn(n, y, t, SING_BOX), p, dst);
  }

  /** The same subnets with outbounds of their own and slots in the order of their IDs: packets to the first one's server are dropped. */
  lemma PlannedBypassDisagrees(m: nat, n: nat, x: nat, y: nat) returns (p: Leak.Packet, dst: Addr)
    requires m < n && x < y < SLOTS
    ensures var s, t := Net(V6, 0x2000, 112), Net(V6, 0x2001, 112);
      var intents := [IntentOn(m, x, s, SING_BOX), IntentOn(n, y, t, SECOND)];
      && Plan(PlannerOn(Host([]).interfaces), [RouteFor(m, x, SubnetSource(s), SING_BOX), RouteFor(n, y, SubnetSource(t), SECOND)], UsedOn(Host([]))) == Some(intents)
      && Order.RoutedBy(intents[1], intents, p, dst) && p.ingress == intents[1].ingress && !Leak.IsDns(p)
      && Leak.Verdict(Leak.ForwardChain(intents), p) == Some(Leak.Drop)
  {
    var s, t := Net(V6, 0x2000, 112), Net(V6, 0x2001, 112);
    NetsDiffer();
    BothArePlanned(s, t, m, n, x, y, SECOND);
    p, dst := LeftAndDropped(m, n, x, y, s, t);
  }

  lemma LeftAndDropped(m: nat, n: nat, x: nat, y: nat, s: Prefix, t: Prefix) returns (p: Leak.Packet, dst: Addr)
    requires m < n && x < y < SLOTS && s.addr.family == V6 == t.addr.family
    ensures var intents := [IntentOn(m, x, s, SING_BOX), IntentOn(n, y, t, SECOND)];
      && Order.RoutedBy(intents[1], intents, p, dst) && p.ingress == intents[1].ingress && !Leak.IsDns(p)
      && Leak.Verdict(Leak.ForwardChain(intents), p) == Some(Leak.Drop)
  {
    IntentFacts(m, x, s, SING_BOX);
    IntentFacts(n, y, t, SECOND);
    p, dst := Leak.Packet(LAN, Tunnel(n), Endpoint(NATIVE), Leak.OtherTransport, 0), Endpoint(SING_BOX);
    Order.BypassDisagrees(IntentOn(m, x, s, SING_BOX), IntentOn(n, y, t, SECOND), p, dst);
  }

  // ---------------------------------------------------------------- planning again

  /** A route for fd00::/8 on a host with an address in it is planned, and once its tunnel is up it is refused. */
  lemma PlannedUniqueLocal(id: nat, start: nat)
    requires start < SLOTS
    ensures var ctx, r := PlannerOn(Host([]).interfaces), RouteFor(id, start, SubnetSource(UniqueLocal()), SING_BOX);
      var intents := [IntentFor([LanLink()] + [], r, start)];
      && Plan(ctx, [r], UsedOn(Host([]))) == Some(intents)
      && Plan(ctx.(interfaces := Grow(Host([]), intents, Up).interfaces), [r], ReleasedOn(Host([]), intents, Up)).None?
  {
    var r := RouteFor(id, start, SubnetSource(UniqueLocal()), SING_BOX);
    RouteIsValid(id, start, SubnetSource(UniqueLocal()), SING_BOX, [LanLink()] + []);
    FirstIsPlanned(id, start, SubnetSource(UniqueLocal()));
    OneStep(PlannerOn([LanLink()] + []), r, UsedOn(Host([])), Step(SelectorFor(r), start, IntentFor([LanLink()] + [], r, start)));
    UniqueLocalSubnetIsRefused(PlannerOn(Host([]).interfaces), Host([]), [r], 0, 0);
  }

  /** The interface of a native outbound, with an address in the tunnel network of a slot. */
  function NativeLink(slot: nat): Interface {
    Interface(Native(1), Up, [SlotNet4(slot)])
  }

  function Next(start: nat): nat {
    (start + 1) % SLOTS
  }

  lemma NativeUses(start: nat)
    requires start < SLOTS
    ensures Overlap(SlotNet4(start), Masked(SlotNet4(start))) && Masked(SlotNet4(start)) in InterfacePrefixes(NativeLink(start))
    ensures UsedOn(Host([NativeLink(start)])).tables == {} && UsedOn(Host([NativeLink(start)])).priorities == {}
    ensures UsedOn(Host([NativeLink(start)])).prefixes == Lans() + [Masked(SlotNet4(start))]
  {
    HostUses([NativeLink(start)]);
    MaskedContains(SlotNet4(start));
    assert [NativeLink(start)][1..] == [] && [SlotNet4(start)][1..] == [];
    assert InterfacePrefixes(NativeLink(start)) == [Masked(SlotNet4(start))];
  }

  lemma NextIsFree(start: nat, used: Used)
    requires start < SLOTS && used == UsedOn(Host([NativeLink(start)]))
    ensures Free(Bases(1000, 1000), used, Next(start))
  {
    NativeUses(start);
    TunnelsAvoid(Next(start));
    SlotNetsDisjoint(start, Next(start));
    MaskedOverlaps(SlotNet4(start), SlotNet4(Next(start)));
  }

  lemma FirstIsTaken(start: nat, used: Used)
    requires start < SLOTS && used == UsedOn(Host([NativeLink(start)]))
    ensures !Free(Bases(1000, 1000), used, start)
  {
    NativeUses(start);
    assert Masked(SlotNet4(start)) in used.prefixes;
  }

  lemma PicksSecond(b: Bases, used: Used, start: nat, o: nat)
    requires o + 1 < SLOTS && !Free(b, used, SlotAt(start, o)) && Free(b, used, SlotAt(start, o + 1))
    ensures Pick(b, used, start, o) == Some(SlotAt(start, o + 1))
  {
  }

  lemma FirstSlots(start: nat)
    requires start < SLOTS
    ensures SlotAt(start, 0) == start && SlotAt(start, 0 + 1) == Next(start)
  {
  }

  lemma OnlyTheNativeBlocks(start: nat, i: Intent, h: Inventory)
    requires start < SLOTS && i.adapter == NativeAdapter && i.tunnel == Native(1) && h == Host([NativeLink(start)])
    ensures OnlyNativesBlock(Bases(1000, 1000), h, [i], 0, start)
  {
    NativeUses(start);
    TunnelsAvoid(start);
    assert h.interfaces[1] == NativeLink(start) && [i][0] == i;
    assert NativePrefix(h, [i], Masked(SlotNet4(start)));
    assert [i][..0] == [];
    SlotArithmeticNeverWraps(Bases(1000, 1000), 0, 0, start);
  }

  lemma MovesFrom(ctx: Planner, h: Inventory, r: Route, i: Intent, s: nat, state: LinkState)
    requires ctx.interfaces == h.interfaces && Plan(ctx, [r], UsedOn(h)) == Some([i]) && i.adapter == NativeAdapter
    requires r.enabled && s == SlotAt(r.digest.start, 0) && !Free(ctx.settings.bases, UsedOn(h), s)
    requires OnlyNativesBlock(ctx.settings.bases, h, [i], 0, s)
    ensures Plan(ctx.(interfaces := Grow(h, [i], state).interfaces), [r], ReleasedOn(h, [i], state)) != Some([i])
  {
    NativeRouteMoves(ctx, h, r, state);
  }

  lemma PickedNext(b: Bases, used: Used, start: nat)
    requires start < SLOTS && !Free(b, used, start) && Free(b, used, Next(start))
    ensures Pick(b, used, start, 0) == Some(Next(start))
  {
    FirstSlots(start);
    PicksSecond(b, used, start, 0);
  }

  lemma PicksNext(start: nat, used: Used)
    requires start < SLOTS && used == UsedOn(Host([NativeLink(start)]))
    ensures !Free(Bases(1000, 1000), used, start) && Pick(Bases(1000, 1000), used, start, 0) == Some(Next(start))
  {
    FirstIsTaken(start, used);
    NextIsFree(start, used);
    PickedNext(Bases(1000, 1000), used, start);
  }

  lemma PlannedAt(id: nat, start: nat, others: seq<Interface>, used: Used, slot: nat)
    requires Pick(Bases(1000, 1000), used, start, 0) == Some(slot)
    requires NamesDistinct([LanLink()] + others) && CanLeave([LanLink()] + others, NATIVE)
    ensures var r := RouteFor(id, start, InterfaceSource(LAN), NATIVE);
      Plan(PlannerOn([LanLink()] + others), [r], used) == Some([IntentFor([LanLink()] + others, r, slot)])
  {
    var r := RouteFor(id, start, InterfaceSource(LAN), NATIVE);
    RouteIsValid(id, start, InterfaceSource(LAN), NATIVE, [LanLink()] + others);
    PlansIn(id, start, InterfaceSource(LAN), NATIVE, others, slot, []);
    OneStep(PlannerOn([LanLink()] + others), r, used, Step(SelectorFor(r), slot, IntentFor([LanLink()] + others, r, slot)));
  }

  lemma NativeIsPlanned(id: nat, start: nat, h: Inventory, r: Route)
    requires start < SLOTS && h == Host([NativeLink(start)]) && r == RouteFor(id, start, InterfaceSource(LAN), NATIVE)
    ensures Plan(PlannerOn(h.interfaces), [r], UsedOn(h)) == Some([IntentFor(h.interfaces, r, Next(start))])
    ensures !Free(Bases(1000, 1000), UsedOn(h), start) && SlotAt(start, 0) == start
  {
    PicksNext(start, UsedOn(h));
    FirstSlots(start);
    NativeIsThere(start);
    PlannedAt(id, start, [NativeLink(start)], UsedOn(h), Next(start));
  }

  lemma NativeIsThere(start: nat)
    ensures NamesDistinct([LanLink()] + [NativeLink(start)]) && CanLeave([LanLink()] + [NativeLink(start)], NATIVE)
  {
    assert ([LanLink()] + [NativeLink(start)])[1..] == [NativeLink(start)];
  }

  /** A route by a native outbound whose interface holds its first slot is planned in the next one, and moves when planned again. */
  lemma PlannedNativeMove(id: nat, start: nat, state: LinkState)
    requires start < SLOTS
    ensures var h, r := Host([NativeLink(start)]), RouteFor(id, start, InterfaceSource(LAN), NATIVE);
      var intents := [IntentFor(h.interfaces, r, Next(start))];
      && Plan(PlannerOn(h.interfaces), [r], UsedOn(h)) == Some(intents)
      && Plan(PlannerOn(h.interfaces).(interfaces := Grow(h, intents, state).interfaces), [r], ReleasedOn(h, intents, state)) != Some(intents)
  {
    var h, r := Host([NativeLink(start)]), RouteFor(id, start, InterfaceSource(LAN), NATIVE);
    NativeIsPlanned(id, start, h, r);
    OnlyTheNativeBlocks(start, IntentFor(h.interfaces, r, Next(start)), h);
    MovesFrom(PlannerOn(h.interfaces), h, r, IntentFor(h.interfaces, r, Next(start)), start, state);
  }

  // ---------------------------------------------------------------- an operation that cannot be undone

  function OverTunnel(id: nat, start: nat): Route {
    RouteFor(id, start, InterfaceSource(LAN), SING_BOX)
  }

  function OverTunnelIntent(id: nat, start: nat): Intent {
    IntentFor([LanLink()], OverTunnel(id, start), start)
  }

  lemma OverTunnelPriority(id: nat, start: nat)
    requires start < SLOTS
    ensures OverTunnelIntent(id, start).priority == 1000 + start && OverTunnelIntent(id, start).adapter == SingBoxAdapter
  {
    SlotArithmeticNeverWraps(Bases(1000, 1000), 0, 0, start);
  }

  /**
   * One route is installed and recorded, and the next one is planned on the host as it then is. When the first step of
   * removing the recorded rules goes wrong, the undo is impossible.
   */
  lemma PlannedUndo(m: nat, n: nat, x: nat, y: nat, state: LinkState, h: Inventory)
    requires x < SLOTS && y < SLOTS && x != y && h == Host([])
    ensures var was, next := OverTunnelIntent(m, x), OverTunnelIntent(n, y);
      && Plan(PlannerOn(h.interfaces), [OverTunnel(m, x)], UsedOn(h)) == Some([was])
      && Plan(PlannerOn(Grow(h, [was], state).interfaces), [OverTunnel(n, y)], ReleasedOn(h, [was], state)) == Some([next])
      && forall host: Engine.Snapshot | host.recorded == Some([was]) ::
          && Engine.SafeMoment(host, [next], Engine.Moment(host.nft, Engine.AllRules([was])))
          && !Engine.Undoable(host, [next], Engine.AllRules([was]))
  {
    TunnelIsPlanned(m, x, h);
    NextIsPlanned(m, n, x, y, state, h);
    OverTunnelPriority(m, x);
    OverTunnelPriority(n, y);
    NeverUndoable(OverTunnelIntent(m, x), OverTunnelIntent(n, y));
  }

  lemma NeverUndoable(was: Intent, next: Intent)
    requires was.priority != next.priority
    ensures forall host: Engine.Snapshot | host.recorded == Some([was]) ::
      && Engine.SafeMoment(host, [next], Engine.Moment(host.nft, Engine.AllRules([was])))
      && !Engine.Undoable(host, [next], Engine.AllRules([was]))
  {
    forall host: Engine.Snapshot | host.recorded == Some([was])
      ensures Engine.SafeMoment(host, [next], Engine.Moment(host.nft, Engine.AllRules([was]))) && !Engine.Undoable(host, [next], Engine.AllRules([was]))
    {
      Engine.UndoCanFail(host, was, next);
    }
  }

  lemma TunnelIsPlanned(m: nat, x: nat, h: Inventory)
    requires x < SLOTS && h == Host([])
    ensures Plan(PlannerOn(h.interfaces), [OverTunnel(m, x)], UsedOn(h)) == Some([OverTunnelIntent(m, x)])
  {
    assert h.interfaces == [LanLink()] + [] == [LanLink()];
    RouteIsValid(m, x, InterfaceSource(LAN), SING_BOX, h.interfaces);
    FirstIsPlanned(m, x, InterfaceSource(LAN));
    OneStep(PlannerOn(h.interfaces), OverTunnel(m, x), UsedOn(h), Step(SelectorFor(OverTunnel(m, x)), x, OverTunnelIntent(m, x)));
  }

  lemma OneLink(was: Intent, state: LinkState, h: Inventory)
    requires was.adapter != NativeAdapter
    ensures Grow(h, [was], state).interfaces == h.interfaces + [Link(was, state)]
  {
    assert [was][1..] == [] && Dedicated([was]) == [was] && Links([was], state) == [Link(was, state)];
  }

  lemma NothingIsLeft(ctx: Planner, h: Inventory, r: Route, i: Intent, state: LinkState)
    requires Plan(ctx, [r], UsedOn(h)) == Some([i]) && NewNames(h, [i])
    requires UsedOn(h).tables == {} == UsedOn(h).priorities
    ensures ReleasedOn(h, [i], state).tables == {} == ReleasedOn(h, [i], state).priorities
    ensures forall p | p in ReleasedOn(h, [i], state).prefixes :: p in UsedOn(h).prefixes
  {
    ReleaseGivesBack(ctx, h, [r], state);
  }

  lemma NextIsPlanned(m: nat, n: nat, x: nat, y: nat, state: LinkState, h: Inventory)
    requires x < SLOTS && y < SLOTS && h == Host([])
    ensures var was := OverTunnelIntent(m, x);
      Plan(PlannerOn(Grow(h, [was], state).interfaces), [OverTunnel(n, y)], ReleasedOn(h, [was], state)) == Some([OverTunnelIntent(n, y)])
  {
    TunnelIsPlanned(m, x, h);
    OverTunnelPriority(m, x);
    LansAreUsed(h);
    NothingIsLeft(PlannerOn(h.interfaces), h, OverTunnel(m, x), OverTunnelIntent(m, x), state);
    NextOnGrown(OverTunnelIntent(m, x), n, y, state, h, ReleasedOn(h, [OverTunnelIntent(m, x)], state));
  }

  lemma LansAreUsed(h: Inventory)
    requires h == Host([])
    ensures UsedOn(h).tables == {} == UsedOn(h).priorities && UsedOn(h).prefixes == Lans() && |h.interfaces| == 1 && h.interfaces[0] == LanLink()
  {
    HostUses([]);
    assert h.interfaces == [LanLink()] + [];
  }

  lemma NextOnGrown(was: Intent, n: nat, y: nat, state: LinkState, h: Inventory, used: Used)
    requires y < SLOTS && h.interfaces == [LanLink()] && was.adapter == SingBoxAdapter && was.tunnel.Tunnel?
    requires used.tables == {} == used.priorities && forall p | p in used.prefixes :: p in Lans()
    ensures Plan(PlannerOn(Grow(h, [was], state).interfaces), [OverTunnel(n, y)], used) == Some([OverTunnelIntent(n, y)])
  {
    OneLink(was, state, h);
    PlannedBeside(n, y, [Link(was, state)], used);
  }

  /** Beside one more interface, and with no number in use. */
  lemma PlannedBeside(n: nat, y: nat, links: seq<Interface>, used: Used)
    requires y < SLOTS && NamesDistinct([LanLink()] + links)
    requires used.tables == {} == used.priorities && forall p | p in used.prefixes :: p in Lans()
    ensures Plan(PlannerOn([LanLink()] + links), [OverTunnel(n, y)], used) == Some([OverTunnelIntent(n, y)])
  {
    var q := OverTunnel(n, y);
    RouteIsValid(n, y, InterfaceSource(LAN), SING_BOX, [LanLink()] + links);
    PlansOne(n, y, InterfaceSource(LAN), SING_BOX, links, used, []);
    OneStep(PlannerOn([LanLink()] + links), q, used, Step(SelectorFor(q), y, OverTunnelIntent(n, y)));
  }
}
