/** What the host already uses, what earlier routes give back, and planning again on the host they were applied to. */
module Replan {
  import opened Wrappers
  import opened Prefixes
  import opened Slots
  import opened Routes
  import opened RoutePlan

  /** A host route: its numeric table (0 if it is named), whether this program made it, and its destination if a prefix. */
  datatype HostRoute = HostRoute(table: nat, owned: bool, destination: Option<Prefix>)

  datatype PolicyRule = PolicyRule(priority: nat, table: nat, owned: bool)

  datatype Inventory = Inventory(interfaces: seq<Interface>, routes: seq<HostRoute>, rules: seq<PolicyRule>)

  // ---------------------------------------------------------------- what is used

  function RouteTables(routes: seq<HostRoute>): set<nat> {
    set i | 0 <= i < |routes| && routes[i].table > 0 :: routes[i].table
  }

  function RuleTables(rules: seq<PolicyRule>): set<nat> {
    set i | 0 <= i < |rules| && rules[i].table > 0 :: rules[i].table
  }

  function RulePriorities(rules: seq<PolicyRule>): set<nat> {
    set i | 0 <= i < |rules| && rules[i].priority > 0 :: rules[i].priority
  }

  function AllInterfacePrefixes(interfaces: seq<Interface>): seq<Prefix> {
    if interfaces == [] then [] else InterfacePrefixes(interfaces[0]) + AllInterfacePrefixes(interfaces[1..])
  }

  function Destinations(routes: seq<HostRoute>): seq<Prefix> {
    if routes == [] then []
    else (if routes[0].destination.Some? then [Masked(routes[0].destination.value)] else []) + Destinations(routes[1..])
  }

  function UsedOn(h: Inventory): Used {
    Used(RouteTables(h.routes) + RuleTables(h.rules), RulePriorities(h.rules), AllInterfacePrefixes(h.interfaces) + Destinations(h.routes))
  }

  // ---------------------------------------------------------------- what earlier routes give back

  predicate ForeignTable(h: Inventory, t: nat) {
    (exists i | 0 <= i < |h.rules| :: h.rules[i].table == t && !h.rules[i].owned)
    || (exists i | 0 <= i < |h.routes| :: h.routes[i].table == t && !h.routes[i].owned)
  }

  predicate ForeignPriority(h: Inventory, p: nat) {
    exists i | 0 <= i < |h.rules| :: h.rules[i].priority == p && !h.rules[i].owned
  }

  predicate GivesBackTable(previous: seq<Intent>, h: Inventory, t: nat) {
    !ForeignTable(h, t) && exists k | 0 <= k < |previous| :: previous[k].table == t
  }

  predicate GivesBackPriority(previous: seq<Intent>, h: Inventory, p: nat) {
    !ForeignPriority(h, p) && exists k | 0 <= k < |previous| :: previous[k].priority == p
  }

  /** The prefix is an address of an interface that an earlier route used as its tunnel. */
  predicate OwnedPrefix(previous: seq<Intent>, interfaces: seq<Interface>, p: Prefix) {
    exists i, k | 0 <= i < |interfaces| && 0 <= k < |previous| :: interfaces[i].name == previous[k].tunnel && p in InterfacePrefixes(interfaces[i])
  }

  function RemainingTables(previous: seq<Intent>, h: Inventory, tables: set<nat>): set<nat> {
    set t | t in tables && !GivesBackTable(previous, h, t)
  }

  function RemainingPriorities(previous: seq<Intent>, h: Inventory, priorities: set<nat>): set<nat> {
    set p | p in priorities && !GivesBackPriority(previous, h, p)
  }

  function RemainingPrefixes(previous: seq<Intent>, interfaces: seq<Interface>, prefixes: seq<Prefix>): seq<Prefix> {
    if prefixes == [] then []
    else (if OwnedPrefix(previous, interfaces, prefixes[0]) then [] else [prefixes[0]]) + RemainingPrefixes(previous, interfaces, prefixes[1..])
  }

  function Remaining(previous: seq<Intent>, h: Inventory, used: Used): Used {
    Used(RemainingTables(previous, h, used.tables), RemainingPriorities(previous, h, used.priorities),
      RemainingPrefixes(previous, h.interfaces, used.prefixes))
  }

  /** Tables and priorities are deleted route by route, then the prefixes are filtered. */
  method ReleaseOwnedResources(previous: seq<Intent>, h: Inventory, used: Used) returns (r: Used)
    ensures r == Remaining(previous, h, used)
  {
    var tables, priorities := ReleaseNumbers(previous, h, used.tables, used.priorities);
    var prefixes := FilterPrefixes(previous, h.interfaces, used.prefixes);
    r := Used(tables, priorities, prefixes);
  }

  method ReleaseNumbers(previous: seq<Intent>, h: Inventory, usedTables: set<nat>, usedPriorities: set<nat>)
    returns (tables: set<nat>, priorities: set<nat>)
    ensures tables == RemainingTables(previous, h, usedTables)
    ensures priorities == RemainingPriorities(previous, h, usedPriorities)
  {
    tables, priorities := usedTables, usedPriorities;
    for k := 0 to |previous|
      invariant forall t :: t in tables <==> t in usedTables && !GivesBackTable(previous[..k], h, t)
      invariant forall p :: p in priorities <==> p in usedPriorities && !GivesBackPriority(previous[..k], h, p)
    {
      GivenBackSoFar(previous, h, k);
      if !ForeignTable(h, previous[k].table) {
        tables := tables - {previous[k].table};
      }
      if !ForeignPriority(h, previous[k].priority) {
        priorities := priorities - {previous[k].priority};
      }
    }
    assert previous[..|previous|] == previous;
  }

  method FilterPrefixes(previous: seq<Intent>, interfaces: seq<Interface>, used: seq<Prefix>) returns (prefixes: seq<Prefix>)
    ensures prefixes == RemainingPrefixes(previous, interfaces, used)
  {
    prefixes := [];
    for i := 0 to |used|
      invariant RemainingPrefixes(previous, interfaces, used) == prefixes + RemainingPrefixes(previous, interfaces, used[i..])
    {
      assert used[i..][0] == used[i] && used[i..][1..] == used[i + 1..];
      ghost var rest := RemainingPrefixes(previous, interfaces, used[i + 1..]);
      if OwnedPrefix(previous, interfaces, used[i]) {
        assert prefixes + ([] + rest) == prefixes + rest;
      } else {
        assert prefixes + ([used[i]] + rest) == (prefixes + [used[i]]) + rest;
        prefixes := prefixes + [used[i]];
      }
    }
    assert prefixes + [] == prefixes;
  }

  lemma GivenBackSoFar(previous: seq<Intent>, h: Inventory, k: nat)
    requires k < |previous|
    ensures forall t :: GivesBackTable(previous[..k + 1], h, t) <==> GivesBackTable(previous[..k], h, t) || (t == previous[k].table && !ForeignTable(h, t))
    ensures forall p :: GivesBackPriority(previous[..k + 1], h, p) <==> GivesBackPriority(previous[..k], h, p) || (p == previous[k].priority && !ForeignPriority(h, p))
  {
    assert forall i | 0 <= i < k :: previous[..k + 1][i] == previous[..k][i];
    assert previous[..k + 1][k] == previous[k];
  }

  // ---------------------------------------------------------------- what others use is spared

  /**
   * A rule or route of somebody else has the number; an interface carries the prefix, or a route leads to it, and no
   * interface of an earlier route carries it.
   */
  predicate OthersTable(h: Inventory, t: nat) {
    (exists r | r in h.rules :: r.table == t && !r.owned) || (exists r | r in h.routes :: r.table == t && !r.owned)
  }

  predicate OthersPriority(h: Inventory, p: nat) {
    exists r | r in h.rules :: r.priority == p && !r.owned
  }

  predicate OthersPrefix(previous: seq<Intent>, h: Inventory, p: Prefix) {
    && ((exists link | link in h.interfaces :: p in InterfacePrefixes(link)) || exists r | r in h.routes :: r.destination.Some? && p == Masked(r.destination.value))
    && forall link, i | link in h.interfaces && i in previous && link.name == i.tunnel :: p !in InterfacePrefixes(link)
  }

  lemma {:induction false} PrefixIsUsed(interfaces: seq<Interface>, link: Interface, p: Prefix)
    requires link in interfaces && p in InterfacePrefixes(link)
    ensures p in AllInterfacePrefixes(interfaces)
  {
    if interfaces[0] != link {
      PrefixIsUsed(interfaces[1..], link, p);
    }
  }

  lemma {:induction false} DestinationIsUsed(routes: seq<HostRoute>, r: HostRoute)
    requires r in routes && r.destination.Some?
    ensures Masked(r.destination.value) in Destinations(routes)
  {
    if routes[0] != r {
      DestinationIsUsed(routes[1..], r);
    }
  }

  lemma OthersRemain(previous: seq<Intent>, h: Inventory)
    ensures forall t | t > 0 && OthersTable(h, t) :: t in Remaining(previous, h, UsedOn(h)).tables
    ensures forall p | p > 0 && OthersPriority(h, p) :: p in Remaining(previous, h, UsedOn(h)).priorities
    ensures forall p | OthersPrefix(previous, h, p) :: p in Remaining(previous, h, UsedOn(h)).prefixes
  {
    forall p | OthersPrefix(previous, h, p) ensures p in Remaining(previous, h, UsedOn(h)).prefixes {
      if link :| link in h.interfaces && p in InterfacePrefixes(link) {
        PrefixIsUsed(h.interfaces, link, p);
      } else {
        var r :| r in h.routes && r.destination.Some? && p == Masked(r.destination.value);
        DestinationIsUsed(h.routes, r);
      }
      RemainingMembers(previous, h.interfaces, UsedOn(h).prefixes, p);
    }
  }

  /**
   * Whatever earlier routes give back, no route is planned on a table or a priority that a rule or route of somebody
   * else uses, nor on a tunnel network that overlaps a prefix that is in use and not on an interface of an
   * earlier route.
   */
  lemma PlansSpareOthers(ctx: Planner, h: Inventory, previous: seq<Intent>, routes: seq<Route>, k: nat)
    requires Plan(ctx, routes, Remaining(previous, h, UsedOn(h))).Some?
    requires k < |Plan(ctx, routes, Remaining(previous, h, UsedOn(h))).value|
    ensures var i := Plan(ctx, routes, Remaining(previous, h, UsedOn(h))).value[k];
      && !OthersTable(h, i.table) && !OthersPriority(h, i.priority)
      && forall p, n | OthersPrefix(previous, h, p) && 0 <= n < |i.tunnelAddresses| :: !Overlap(i.tunnelAddresses[n], p)
  {
    OthersRemain(previous, h);
    var used := Remaining(previous, h, UsedOn(h));
    AllocationIsFresh(ctx, routes, used, k);
    var i := Plan(ctx, routes, used).value[k];
    forall p, n | OthersPrefix(previous, h, p) && 0 <= n < |i.tunnelAddresses| ensures !Overlap(i.tunnelAddresses[n], p) {
      assert i.tunnelAddresses[n] in i.tunnelAddresses && p in used.prefixes;
    }
  }

  // ---------------------------------------------------------------- the host after an apply

  /** The routes with a tunnel of their own; a native route leaves by an interface that is there already. */
  function Dedicated(intents: seq<Intent>): seq<Intent> {
    if intents == [] then []
    else (if intents[0].adapter == NativeAdapter then [] else [intents[0]]) + Dedicated(intents[1..])
  }

  function Link(i: Intent, state: LinkState): Interface {
    Interface(i.tunnel, state, i.tunnelAddresses)
  }

  function Links(intents: seq<Intent>, state: LinkState): seq<Interface> {
    if intents == [] then [] else [Link(intents[0], state)] + Links(intents[1..], state)
  }

  /** The kernel's own route for an address of an interface, in a named table. */
  function Connected(addresses: seq<Prefix>): seq<HostRoute> {
    if addresses == [] then [] else [HostRoute(0, false, Some(addresses[0]))] + Connected(addresses[1..])
  }

  /** Default routes in the owned table, and the kernel's routes for the tunnel's addresses. */
  function RoutesOf(intents: seq<Intent>): seq<HostRoute> {
    if intents == [] then []
    else [HostRoute(intents[0].table, true, None)] + Connected(intents[0].tunnelAddresses) + RoutesOf(intents[1..])
  }

  function RulesOf(intents: seq<Intent>): seq<PolicyRule> {
    if intents == [] then [] else [PolicyRule(intents[0].priority, intents[0].table, true)] + RulesOf(intents[1..])
  }

  /** The host with exactly the resources of the intents added, its tunnels listed in some state. */
  function Grow(h: Inventory, intents: seq<Intent>, state: LinkState): Inventory {
    Inventory(h.interfaces + Links(Dedicated(intents), state), h.routes + RoutesOf(intents), h.rules + RulesOf(intents))
  }

  lemma {:induction false} PrefixesAppend(a: seq<Interface>, b: seq<Interface>)
    ensures AllInterfacePrefixes(a + b) == AllInterfacePrefixes(a) + AllInterfacePrefixes(b)
  {
    if a == [] {
      assert a + b == b;
    } else {
      assert (a + b)[1..] == a[1..] + b;
      PrefixesAppend(a[1..], b);
    }
  }

  lemma {:induction false} DestinationsAppend(a: seq<HostRoute>, b: seq<HostRoute>)
    ensures Destinations(a + b) == Destinations(a) + Destinations(b)
  {
    if a == [] {
      assert a + b == b;
    } else {
      assert (a + b)[1..] == a[1..] + b;
      DestinationsAppend(a[1..], b);
      var head := if a[0].destination.Some? then [Masked(a[0].destination.value)] else [];
      assert head + (Destinations(a[1..]) + Destinations(b)) == (head + Destinations(a[1..])) + Destinations(b);
    }
  }

  /** A prefix remains exactly when it is not on an interface of an earlier route. */
  lemma {:induction false} RemainingMembers(previous: seq<Intent>, interfaces: seq<Interface>, s: seq<Prefix>, p: Prefix)
    ensures p in RemainingPrefixes(previous, interfaces, s) <==> p in s && !OwnedPrefix(previous, interfaces, p)
  {
    if s != [] {
      RemainingMembers(previous, interfaces, s[1..], p);
      assert p in s <==> p == s[0] || p in s[1..];
    }
  }

  predicate MaskOf(addresses: seq<Prefix>, p: Prefix) {
    exists k | 0 <= k < |addresses| :: Masked(addresses[k]) == p
  }

  lemma InterfaceMasks(i: Interface, p: Prefix)
    ensures p in InterfacePrefixes(i) <==> MaskOf(i.addresses, p)
  {
    if MaskOf(i.addresses, p) {
      var k :| 0 <= k < |i.addresses| && Masked(i.addresses[k]) == p;
      assert InterfacePrefixes(i)[k] == p;
    }
  }

  /** A masked address of one of the intents' tunnels. */
  predicate TunnelPrefix(intents: seq<Intent>, p: Prefix) {
    exists k | 0 <= k < |intents| :: MaskOf(intents[k].tunnelAddresses, p)
  }

  /** A prefix of an interface that a native route uses. */
  predicate NativePrefix(h: Inventory, intents: seq<Intent>, p: Prefix) {
    exists i, k | 0 <= i < |h.interfaces| && 0 <= k < |intents| ::
      intents[k].adapter == NativeAdapter && h.interfaces[i].name == intents[k].tunnel && p in InterfacePrefixes(h.interfaces[i])
  }

  lemma {:induction false} LinksAt(intents: seq<Intent>, state: LinkState, k: nat)
    requires k < |intents|
    ensures |Links(intents, state)| == |intents| && Links(intents, state)[k] == Link(intents[k], state)
  {
    LinksLength(intents, state);
    if k > 0 {
      LinksAt(intents[1..], state, k - 1);
    }
  }

  lemma {:induction false} LinksLength(intents: seq<Intent>, state: LinkState)
    ensures |Links(intents, state)| == |intents|
  {
    if intents != [] {
      LinksLength(intents[1..], state);
    }
  }

  lemma {:induction false} DedicatedMembers(intents: seq<Intent>, i: Intent)
    ensures i in Dedicated(intents) <==> i in intents && i.adapter != NativeAdapter
  {
    if intents != [] {
      DedicatedMembers(intents[1..], i);
      assert i in intents <==> i == intents[0] || i in intents[1..];
    }
  }

  lemma {:induction false} AllPrefixesMembers(interfaces: seq<Interface>, p: Prefix)
    ensures p in AllInterfacePrefixes(interfaces) <==> exists i | 0 <= i < |interfaces| :: p in InterfacePrefixes(interfaces[i])
  {
    if interfaces != [] {
      AllPrefixesMembers(interfaces[1..], p);
      assert forall i | 0 < i < |interfaces| :: interfaces[1..][i - 1] == interfaces[i];
      assert forall i | 0 <= i < |interfaces[1..]| :: interfaces[1..][i] == interfaces[i + 1];
    }
  }

  lemma TunnelOfTail(intents: seq<Intent>, p: Prefix)
    requires intents != []
    ensures TunnelPrefix(intents, p) <==> MaskOf(intents[0].tunnelAddresses, p) || TunnelPrefix(intents[1..], p)
  {
    assert forall k | 0 < k < |intents| :: intents[1..][k - 1] == intents[k];
    assert forall k | 0 <= k < |intents[1..]| :: intents[1..][k] == intents[k + 1];
  }

  /** The added interfaces carry addresses of tunnels only. */
  lemma LinkPrefixes(intents: seq<Intent>, state: LinkState, p: Prefix)
    requires p in AllInterfacePrefixes(Links(Dedicated(intents), state))
    ensures TunnelPrefix(intents, p)
  {
    var all := Links(Dedicated(intents), state);
    AllPrefixesMembers(all, p);
    var i :| 0 <= i < |all| && p in InterfacePrefixes(all[i]);
    LinkPrefix(intents, state, p, i);
  }

  lemma LinkPrefix(intents: seq<Intent>, state: LinkState, p: Prefix, i: nat)
    requires i < |Links(Dedicated(intents), state)| && p in InterfacePrefixes(Links(Dedicated(intents), state)[i])
    ensures TunnelPrefix(intents, p)
  {
    var all, d := Links(Dedicated(intents), state), Dedicated(intents);
    LinksLength(d, state);
    LinksAt(d, state, i);
    InterfaceMasks(all[i], p);
    DedicatedMembers(intents, d[i]);
    var k :| 0 <= k < |intents| && intents[k] == d[i];
    assert MaskOf(intents[k].tunnelAddresses, p);
  }

  lemma {:induction false} ConnectedDestinations(addresses: seq<Prefix>)
    ensures |Destinations(Connected(addresses))| == |addresses|
    ensures forall i | 0 <= i < |addresses| :: Destinations(Connected(addresses))[i] == Masked(addresses[i])
  {
    if addresses != [] {
      ConnectedDestinations(addresses[1..]);
      assert Connected(addresses)[1..] == Connected(addresses[1..]);
    }
  }

  /** The added routes lead to networks of tunnels only. */
  lemma {:induction false} RouteDestinations(intents: seq<Intent>, p: Prefix)
    requires p in Destinations(RoutesOf(intents))
    ensures TunnelPrefix(intents, p)
  {
    if intents != [] {
      var own := Connected(intents[0].tunnelAddresses);
      DestinationsAppend([HostRoute(intents[0].table, true, None)] + own, RoutesOf(intents[1..]));
      DestinationsAppend([HostRoute(intents[0].table, true, None)], own);
      OneDefault(intents[0].table);
      ConnectedDestinations(intents[0].tunnelAddresses);
      TunnelOfTail(intents, p);
      if p in Destinations(own) {
        var i :| 0 <= i < |Destinations(own)| && Destinations(own)[i] == p;
        assert Masked(intents[0].tunnelAddresses[i]) == p;
      } else {
        RouteDestinations(intents[1..], p);
      }
    }
  }

  lemma OneDefault(table: nat)
    ensures Destinations([HostRoute(table, true, None)]) == []
  {
    assert [HostRoute(table, true, None)][1..] == [];
  }

  /** The names of the dedicated tunnels are new on the host. */
  predicate NewNames(h: Inventory, intents: seq<Intent>) {
    forall i, k | 0 <= i < |h.interfaces| && 0 <= k < |intents| && intents[k].adapter != NativeAdapter :: h.interfaces[i].name != intents[k].tunnel
  }

  /** A native route has no addresses of its own, any other a dedicated tunnel; addresses are valid. */
  predicate SoundTunnels(intents: seq<Intent>) {
    && (forall k, n | 0 <= k < |intents| && 0 <= n < |intents[k].tunnelAddresses| :: intents[k].tunnelAddresses[n].Valid())
    && (forall k | 0 <= k < |intents| && intents[k].adapter == NativeAdapter :: intents[k].tunnel.Native? && intents[k].tunnelAddresses == [])
    && (forall k | 0 <= k < |intents| && intents[k].adapter != NativeAdapter :: intents[k].tunnel.Tunnel?)
  }

  /** On the grown host the prefixes of earlier routes are those of their tunnels, and those of native interfaces in use. */
  lemma OwnedOnGrown(h: Inventory, intents: seq<Intent>, state: LinkState, p: Prefix)
    requires NewNames(h, intents) && SoundTunnels(intents)
    ensures OwnedPrefix(intents, Grow(h, intents, state).interfaces, p) <==> TunnelPrefix(intents, p) || NativePrefix(h, intents, p)
  {
    if k :| 0 <= k < |intents| && MaskOf(intents[k].tunnelAddresses, p) {
      TunnelIsOwned(h, intents, state, p, k);
    }
    if NativePrefix(h, intents, p) {
      NativeIsOwned(h, intents, state, p);
    }
    if OwnedPrefix(intents, Grow(h, intents, state).interfaces, p) {
      OwnedIsOneOfThem(h, intents, state, p);
    }
  }

  lemma NativeIsOwned(h: Inventory, intents: seq<Intent>, state: LinkState, p: Prefix)
    requires NativePrefix(h, intents, p)
    ensures OwnedPrefix(intents, Grow(h, intents, state).interfaces, p)
  {
    assert forall i | 0 <= i < |h.interfaces| :: Grow(h, intents, state).interfaces[i] == h.interfaces[i];
  }

  lemma OwnedIsOneOfThem(h: Inventory, intents: seq<Intent>, state: LinkState, p: Prefix)
    requires NewNames(h, intents) && OwnedPrefix(intents, Grow(h, intents, state).interfaces, p)
    ensures TunnelPrefix(intents, p) || NativePrefix(h, intents, p)
  {
    var all := Grow(h, intents, state).interfaces;
    var i, k :| 0 <= i < |all| && 0 <= k < |intents| && all[i].name == intents[k].tunnel && p in InterfacePrefixes(all[i]);
    if i < |h.interfaces| {
      assert all[i] == h.interfaces[i] && intents[k].adapter == NativeAdapter;
    } else {
      LinkPrefix(intents, state, p, i - |h.interfaces|);
    }
  }

  lemma TunnelIsOwned(h: Inventory, intents: seq<Intent>, state: LinkState, p: Prefix, k: nat)
    requires NewNames(h, intents) && SoundTunnels(intents) && k < |intents| && MaskOf(intents[k].tunnelAddresses, p)
    ensures OwnedPrefix(intents, Grow(h, intents, state).interfaces, p)
  {
    var all, n, d := Grow(h, intents, state).interfaces, |h.interfaces|, Dedicated(intents);
    LinksLength(d, state);
    DedicatedMembers(intents, intents[k]);
    var l :| 0 <= l < |d| && d[l] == intents[k];
    LinksAt(d, state, l);
    InterfaceMasks(all[n + l], p);
    assert all[n + l].name == intents[k].tunnel;
  }

  /** Every address of a tunnel is valid and overlaps nothing used. */
  ghost predicate TunnelsAreNew(intents: seq<Intent>, used: seq<Prefix>) {
    forall k, i | 0 <= k < |intents| && 0 <= i < |intents[k].tunnelAddresses| ::
      intents[k].tunnelAddresses[i].Valid() && !OverlapsAny(intents[k].tunnelAddresses[i], used)
  }

  lemma NewTunnelsAreUnused(intents: seq<Intent>, used: seq<Prefix>, p: Prefix)
    requires TunnelsAreNew(intents, used) && p in used
    ensures !TunnelPrefix(intents, p)
  {
    forall k, i | 0 <= k < |intents| && 0 <= i < |intents[k].tunnelAddresses| ensures Masked(intents[k].tunnelAddresses[i]) != p {
      MaskedContains(intents[k].tunnelAddresses[i]);
    }
  }

  /** Releasing on the grown host leaves the prefixes that were used before, less those of native interfaces in use. */
  lemma PrefixesGivenBack(h: Inventory, intents: seq<Intent>, state: LinkState, p: Prefix)
    requires NewNames(h, intents) && SoundTunnels(intents) && TunnelsAreNew(intents, UsedOn(h).prefixes)
    ensures p in RemainingPrefixes(intents, Grow(h, intents, state).interfaces, UsedOn(Grow(h, intents, state)).prefixes) <==>
            p in UsedOn(h).prefixes && !NativePrefix(h, intents, p)
  {
    var g := Grow(h, intents, state);
    PrefixesAppend(h.interfaces, Links(Dedicated(intents), state));
    DestinationsAppend(h.routes, RoutesOf(intents));
    RemainingMembers(intents, g.interfaces, UsedOn(g).prefixes, p);
    OwnedOnGrown(h, intents, state, p);
    if p in UsedOn(h).prefixes {
      NewTunnelsAreUnused(intents, UsedOn(h).prefixes, p);
    } else if p in AllInterfacePrefixes(Links(Dedicated(intents), state)) {
      LinkPrefixes(intents, state, p);
    } else if p in Destinations(RoutesOf(intents)) {
      RouteDestinations(intents, p);
    }
  }

  // ---------------------------------------------------------------- numbers

  /** An added route belongs to an intent's table, or to a named one. */
  predicate OnlyOwned(intents: seq<Intent>, r: HostRoute) {
    r.table == 0 || (r.owned && exists k | 0 <= k < |intents| :: intents[k].table == r.table)
  }

  lemma {:induction false} ConnectedIsNamed(addresses: seq<Prefix>, i: nat)
    requires i < |Connected(addresses)|
    ensures Connected(addresses)[i].table == 0
  {
    if i > 0 {
      ConnectedIsNamed(addresses[1..], i - 1);
    }
  }

  lemma {:induction false} GrownRouteIsOwned(intents: seq<Intent>, i: nat)
    requires i < |RoutesOf(intents)|
    ensures OnlyOwned(intents, RoutesOf(intents)[i])
  {
    var own := Connected(intents[0].tunnelAddresses);
    if i == 0 {
      assert RoutesOf(intents)[0] == HostRoute(intents[0].table, true, None);
    } else if i <= |own| {
      ConnectedIsNamed(intents[0].tunnelAddresses, i - 1);
    } else {
      var rest := i - 1 - |own|;
      GrownRouteIsOwned(intents[1..], rest);
      var r := RoutesOf(intents[1..])[rest];
      if r.table != 0 {
        var k :| 0 <= k < |intents[1..]| && intents[1..][k].table == r.table;
        assert intents[k + 1].table == r.table;
      }
    }
  }

  lemma {:induction false} GrownRuleAt(intents: seq<Intent>, i: nat)
    requires i < |RulesOf(intents)|
    ensures |RulesOf(intents)| == |intents| && RulesOf(intents)[i] == PolicyRule(intents[i].priority, intents[i].table, true)
  {
    RulesLength(intents);
    if i > 0 {
      GrownRuleAt(intents[1..], i - 1);
    }
  }

  lemma {:induction false} RulesLength(intents: seq<Intent>)
    ensures |RulesOf(intents)| == |intents|
  {
    if intents != [] {
      RulesLength(intents[1..]);
    }
  }

  predicate HasTable(intents: seq<Intent>, t: nat) {
    exists k | 0 <= k < |intents| :: intents[k].table == t
  }

  predicate HasPriority(intents: seq<Intent>, p: nat) {
    exists k | 0 <= k < |intents| :: intents[k].priority == p
  }

  /** The numbers of the intents are positive and were not used. */
  ghost predicate NumbersAreNew(intents: seq<Intent>, used: Used) {
    forall k | 0 <= k < |intents| ::
      intents[k].table > 0 && intents[k].priority > 0 && intents[k].table !in used.tables && intents[k].priority !in used.priorities
  }

  lemma GrownTable(h: Inventory, intents: seq<Intent>, state: LinkState, t: nat)
    requires t in UsedOn(Grow(h, intents, state)).tables
    ensures t in UsedOn(h).tables || HasTable(intents, t)
  {
    var g := Grow(h, intents, state);
    if i :| 0 <= i < |g.routes| && g.routes[i].table == t {
      if i >= |h.routes| {
        GrownRouteIsOwned(intents, i - |h.routes|);
      } else {
        assert g.routes[i] == h.routes[i];
      }
    } else {
      var i :| 0 <= i < |g.rules| && g.rules[i].table == t;
      if i >= |h.rules| {
        GrownRuleAt(intents, i - |h.rules|);
      } else {
        assert g.rules[i] == h.rules[i];
      }
    }
  }

  lemma StillUsed(h: Inventory, intents: seq<Intent>, state: LinkState)
    ensures UsedOn(h).tables <= UsedOn(Grow(h, intents, state)).tables && UsedOn(h).priorities <= UsedOn(Grow(h, intents, state)).priorities
  {
    var g := Grow(h, intents, state);
    assert forall i | 0 <= i < |h.routes| :: g.routes[i] == h.routes[i];
    assert forall i | 0 <= i < |h.rules| :: g.rules[i] == h.rules[i];
  }

  lemma NotForeign(h: Inventory, intents: seq<Intent>, state: LinkState, t: nat, p: nat)
    ensures t > 0 && t !in UsedOn(h).tables ==> !ForeignTable(Grow(h, intents, state), t)
    ensures p > 0 && p !in UsedOn(h).priorities ==> !ForeignPriority(Grow(h, intents, state), p)
  {
    var g := Grow(h, intents, state);
    forall i | 0 <= i < |g.routes| ensures g.routes[i].owned || g.routes[i].table == 0 || g.routes[i].table in UsedOn(h).tables {
      if i >= |h.routes| {
        GrownRouteIsOwned(intents, i - |h.routes|);
      } else {
        assert g.routes[i] == h.routes[i];
      }
    }
    forall i | 0 <= i < |g.rules|
      ensures g.rules[i].owned || g.rules[i].table == 0 || g.rules[i].table in UsedOn(h).tables
      ensures g.rules[i].owned || g.rules[i].priority == 0 || g.rules[i].priority in UsedOn(h).priorities
    {
      if i >= |h.rules| {
        GrownRuleAt(intents, i - |h.rules|);
      } else {
        assert g.rules[i] == h.rules[i];
      }
    }
  }

  lemma GrownPriority(h: Inventory, intents: seq<Intent>, state: LinkState, p: nat)
    requires p in UsedOn(Grow(h, intents, state)).priorities
    ensures p in UsedOn(h).priorities || HasPriority(intents, p)
  {
    var g := Grow(h, intents, state);
    var i :| 0 <= i < |g.rules| && g.rules[i].priority == p;
    if i >= |h.rules| {
      GrownRuleAt(intents, i - |h.rules|);
    } else {
      assert g.rules[i] == h.rules[i];
    }
  }

  lemma TablesGivenBack(h: Inventory, intents: seq<Intent>, state: LinkState)
    requires NumbersAreNew(intents, UsedOn(h))
    ensures RemainingTables(intents, Grow(h, intents, state), UsedOn(Grow(h, intents, state)).tables) == UsedOn(h).tables
  {
    StillUsed(h, intents, state);
    forall t: nat ensures t in RemainingTables(intents, Grow(h, intents, state), UsedOn(Grow(h, intents, state)).tables) <==> t in UsedOn(h).tables {
      NotForeign(h, intents, state, t, 0);
      if t in UsedOn(Grow(h, intents, state)).tables {
        GrownTable(h, intents, state, t);
      }
    }
  }

  lemma PrioritiesGivenBack(h: Inventory, intents: seq<Intent>, state: LinkState)
    requires NumbersAreNew(intents, UsedOn(h))
    ensures RemainingPriorities(intents, Grow(h, intents, state), UsedOn(Grow(h, intents, state)).priorities) == UsedOn(h).priorities
  {
    StillUsed(h, intents, state);
    forall p: nat ensures p in RemainingPriorities(intents, Grow(h, intents, state), UsedOn(Grow(h, intents, state)).priorities) <==> p in UsedOn(h).priorities {
      NotForeign(h, intents, state, 0, p);
      if p in UsedOn(Grow(h, intents, state)).priorities {
        GrownPriority(h, intents, state, p);
      }
    }
  }

  // ---------------------------------------------------------------- planning again

  /** Planned intents are new in every respect that releasing looks at. */
  lemma PlannedIsNew(ctx: Planner, routes: seq<Route>, used: Used)
    requires Plan(ctx, routes, used).Some?
    ensures NumbersAreNew(Plan(ctx, routes, used).value, used) && TunnelsAreNew(Plan(ctx, routes, used).value, used.prefixes)
    ensures SoundTunnels(Plan(ctx, routes, used).value)
  {
    PlansAreReadable(ctx, routes, used);
    var intents := Plan(ctx, routes, used).value;
    forall k | 0 <= k < |intents|
      ensures intents[k].table > 0 && intents[k].priority > 0 && intents[k].table !in used.tables && intents[k].priority !in used.priorities
      ensures forall i | 0 <= i < |intents[k].tunnelAddresses| ::
        intents[k].tunnelAddresses[i].Valid() && !OverlapsAny(intents[k].tunnelAddresses[i], used.prefixes)
    {
      AllocationIsFresh(ctx, routes, used, k);
      TunnelsValid(intents[k]);
      forall i | 0 <= i < |intents[k].tunnelAddresses| ensures !OverlapsAny(intents[k].tunnelAddresses[i], used.prefixes) {
        assert intents[k].tunnelAddresses[i] in intents[k].tunnelAddresses;
      }
    }
  }

  lemma TunnelsValid(i: Intent)
    requires ValidIntent(i)
    ensures forall k | 0 <= k < |i.tunnelAddresses| :: i.tunnelAddresses[k].Valid()
    ensures if i.adapter == NativeAdapter then i.tunnel.Native? && i.tunnelAddresses == [] else i.tunnel.Tunnel?
  {
  }

  // ---------------------------------------------------------------- planning again with more prefixes in use

  function WithExtra(used: Used, extra: seq<Prefix>): Used {
    used.(prefixes := used.prefixes + extra)
  }

  predicate SlotClear(slot: nat, extra: seq<Prefix>) {
    !OverlapsAny(SlotNet4(slot), extra) && !OverlapsAny(SlotNet6(slot), extra)
  }

  lemma FreeWithExtra(bases: Bases, used: Used, extra: seq<Prefix>, slot: nat)
    ensures Free(bases, WithExtra(used, extra), slot) <==> Free(bases, used, slot) && SlotClear(slot, extra)
  {
    OverlapsEither(SlotNet4(slot), used.prefixes, extra);
    OverlapsEither(SlotNet6(slot), used.prefixes, extra);
  }

  lemma OverlapsEither(p: Prefix, a: seq<Prefix>, b: seq<Prefix>)
    ensures OverlapsAny(p, a + b) <==> OverlapsAny(p, a) || OverlapsAny(p, b)
  {
    assert forall q :: q in a + b <==> q in a || q in b;
  }

  lemma {:induction false} PickWithExtra(bases: Bases, used: Used, extra: seq<Prefix>, start: nat, offset: nat)
    requires Pick(bases, used, start, offset).Some?
    ensures Pick(bases, WithExtra(used, extra), start, offset) == Pick(bases, used, start, offset) <==>
            SlotClear(Pick(bases, used, start, offset).value, extra)
    decreases SLOTS - offset
  {
    var slot := SlotAt(start, offset);
    FreeWithExtra(bases, used, extra, slot);
    if Free(bases, used, slot) {
      PickFinds(bases, WithExtra(used, extra), start, offset);
      FreeWithExtra(bases, used, extra, slot);
    } else {
      PickWithExtra(bases, used, extra, start, offset + 1);
    }
  }

  /** The slot an intent occupies. */
  function SlotOf(bases: Bases, i: Intent): int {
    i.table - bases.table
  }

  predicate Unmoved(bases: Bases, i: Intent, extra: seq<Prefix>) {
    0 <= SlotOf(bases, i) && SlotClear(SlotOf(bases, i), extra)
  }

  lemma PlanOneWithExtra(ctx: Planner, r: Route, used: Used, extra: seq<Prefix>, selectors: seq<Selector>)
    requires ctx.settings.bases.Valid() && PlanOne(ctx, r, used, selectors).Some?
    ensures var step := PlanOne(ctx, r, used, selectors).value;
      var again := PlanOne(ctx, r, WithExtra(used, extra), selectors);
      && SlotOf(ctx.settings.bases, step.intent) == step.slot
      && (SlotClear(step.slot, extra) ==> again == Some(step))
      && (!SlotClear(step.slot, extra) ==> again.None? || again.value.intent.table != step.intent.table)
  {
    var b := ctx.settings.bases;
    var first, again := Pick(b, used, r.digest.start, 0), Pick(b, WithExtra(used, extra), r.digest.start, 0);
    PickedSlot(b, used, r.digest.start);
    PickedSlot(b, WithExtra(used, extra), r.digest.start);
    PickWithExtra(b, used, extra, r.digest.start, 0);
    SameOrMoved(ctx, r, first, again, selectors);
  }

  lemma PickedSlot(bases: Bases, used: Used, start: nat)
    ensures Pick(bases, used, start, 0).Some? ==> Pick(bases, used, start, 0).value < SLOTS
  {
    PickFinds(bases, used, start, 0);
  }

  lemma SameOrMoved(ctx: Planner, r: Route, first: Option<nat>, again: Option<nat>, selectors: seq<Selector>)
    requires ctx.settings.bases.Valid() && PlanWith(ctx, r, first, selectors).Some?
    requires (first.Some? ==> first.value < SLOTS) && (again.Some? ==> again.value < SLOTS)
    ensures var step := PlanWith(ctx, r, first, selectors).value;
      && first == Some(step.slot) && SlotOf(ctx.settings.bases, step.intent) == step.slot
      && (again != first ==> PlanWith(ctx, r, again, selectors).None? || PlanWith(ctx, r, again, selectors).value.intent.table != step.intent.table)
  {
    PlannedSlot(ctx, r, first, selectors);
    PlannedSlot(ctx, r, again, selectors);
  }

  lemma PlannedSlot(ctx: Planner, r: Route, slot: Option<nat>, selectors: seq<Selector>)
    requires ctx.settings.bases.Valid() && (slot.Some? ==> slot.value < SLOTS)
    ensures PlanWith(ctx, r, slot, selectors).Some? ==>
      slot.Some? && PlanWith(ctx, r, slot, selectors).value.slot == slot.value
      && PlanWith(ctx, r, slot, selectors).value.intent.table == ctx.settings.bases.table + slot.value
  {
    if slot.Some? {
      TableNumber(ctx.settings.bases, slot.value);
    }
  }

  lemma TableNumber(bases: Bases, slot: nat)
    requires bases.Valid() && slot < SLOTS
    ensures Word(bases.table + slot) == bases.table + slot
  {
    SlotArithmeticNeverWraps(bases, 0, 0, slot);
  }

  /**
   * When more prefixes have come into use, planning again gives every route what it had exactly when none of the new
   * ones overlaps a network of a slot in use.
   */
  lemma {:induction false} SamePlanIffSlotsClear(ctx: Planner, routes: seq<Route>, used: Used, extra: seq<Prefix>, seen: set<nat>, selectors: seq<Selector>)
    requires ctx.settings.bases.Valid() && PlanFrom(ctx, routes, used, seen, selectors).Some?
    ensures PlanFrom(ctx, routes, WithExtra(used, extra), seen, selectors) == PlanFrom(ctx, routes, used, seen, selectors) <==>
            forall k | 0 <= k < |PlanFrom(ctx, routes, used, seen, selectors).value| ::
              Unmoved(ctx.settings.bases, PlanFrom(ctx, routes, used, seen, selectors).value[k], extra)
    decreases |routes|
  {
    if routes != [] {
      var r := routes[0];
      if !r.enabled {
        SamePlanIffSlotsClear(ctx, routes[1..], used, extra, seen + {r.id}, selectors);
      } else {
        var step := PlanOne(ctx, r, used, selectors).value;
        PlanOneWithExtra(ctx, r, used, extra, selectors);
        var taken := Take(ctx.settings.bases, used, step.slot);
        SamePlanIffSlotsClear(ctx, routes[1..], taken, extra, seen + {r.id}, selectors + [step.selector]);
        assert Take(ctx.settings.bases, WithExtra(used, extra), step.slot) == WithExtra(taken, extra);
        var rest := PlanFrom(ctx, routes[1..], taken, seen + {r.id}, selectors + [step.selector]).value;
        var all := PlanFrom(ctx, routes, used, seen, selectors).value;
        assert all[0] == step.intent && all[1..] == rest;
        assert forall k | 0 < k < |all| :: all[k] == rest[k - 1];
        HeadAndTail(ctx.settings.bases, all, extra);
      }
    }
  }

  lemma HeadAndTail(bases: Bases, all: seq<Intent>, extra: seq<Prefix>)
    requires all != []
    ensures (forall k | 0 <= k < |all| :: Unmoved(bases, all[k], extra)) <==>
            Unmoved(bases, all[0], extra) && forall k | 0 <= k < |all[1..]| :: Unmoved(bases, all[1..][k], extra)
  {
    assert forall k | 0 <= k < |all| - 1 :: all[1..][k] == all[k + 1];
    if Unmoved(bases, all[0], extra) && forall k | 0 <= k < |all[1..]| :: Unmoved(bases, all[1..][k], extra) {
      forall k | 0 <= k < |all| ensures Unmoved(bases, all[k], extra) {
        assert k > 0 ==> all[1..][k - 1] == all[k];
      }
    }
  }

  // ---------------------------------------------------------------- planning again on the host after an apply

  /** The same numbers are used, and no more prefixes. */
  ghost predicate Fewer(less: Used, used: Used) {
    less.tables == used.tables && less.priorities == used.priorities && forall p | p in less.prefixes :: p in used.prefixes
  }

  lemma FreeWithFewer(bases: Bases, less: Used, used: Used, slot: nat)
    requires Fewer(less, used) && Free(bases, used, slot)
    ensures Free(bases, less, slot)
  {
  }

  /** On its way from an offset to a slot the search meets a free one. */
  predicate UndercutFrom(bases: Bases, used: Used, start: nat, offset: nat, slot: int) {
    exists o: nat | offset <= o < SLOTS :: Free(bases, used, SlotAt(start, o)) && forall p: nat | offset <= p <= o :: SlotAt(start, p) != slot
  }

  lemma {:induction false} PickWithFewer(bases: Bases, less: Used, used: Used, start: nat, offset: nat)
    requires Fewer(less, used) && Pick(bases, used, start, offset).Some?
    ensures Pick(bases, less, start, offset) == Pick(bases, used, start, offset) <==>
            !UndercutFrom(bases, less, start, offset, Pick(bases, used, start, offset).value)
    ensures Pick(bases, less, start, offset).Some?
    decreases SLOTS - offset
  {
    var here, slot := SlotAt(start, offset), Pick(bases, used, start, offset).value;
    if Free(bases, used, here) {
      FreeWithFewer(bases, less, used, here);
    } else if Free(bases, less, here) {
      PickFinds(bases, used, start, offset);
      assert forall p: nat | offset <= p <= offset :: SlotAt(start, p) != slot;
    } else {
      PickFinds(bases, used, start, offset);
      PickWithFewer(bases, less, used, start, offset + 1);
      UndercutLater(bases, less, start, offset, slot);
    }
  }

  lemma UndercutLater(bases: Bases, used: Used, start: nat, offset: nat, slot: int)
    requires SlotAt(start, offset) != slot && !Free(bases, used, SlotAt(start, offset))
    ensures UndercutFrom(bases, used, start, offset, slot) <==> UndercutFrom(bases, used, start, offset + 1, slot)
  {
    if UndercutFrom(bases, used, start, offset, slot) {
      var o: nat :| offset <= o < SLOTS && Free(bases, used, SlotAt(start, o)) && forall p: nat | offset <= p <= o :: SlotAt(start, p) != slot;
      assert o != offset;
    }
    if UndercutFrom(bases, used, start, offset + 1, slot) {
      var o: nat :| offset + 1 <= o < SLOTS && Free(bases, used, SlotAt(start, o)) && forall p: nat | offset + 1 <= p <= o :: SlotAt(start, p) != slot;
      assert forall p: nat | offset <= p <= o :: SlotAt(start, p) != slot;
    }
  }

  function TakeNumbers(used: Used, i: Intent): Used {
    used.(tables := used.tables + {i.table}, priorities := used.priorities + {i.priority})
  }

  predicate KeepsSlot(bases: Bases, used: Used, i: Intent) {
    !UndercutFrom(bases, used, i.digest.start, 0, SlotOf(bases, i))
  }

  /** Each intent keeps its slot: with the numbers of those before it taken, its search meets no free slot earlier. */
  predicate SlotsKept(bases: Bases, used: Used, intents: seq<Intent>)
    decreases |intents|
  {
    intents == [] || (KeepsSlot(bases, used, intents[0]) && SlotsKept(bases, TakeNumbers(used, intents[0]), intents[1..]))
  }

  /** None of the added interfaces is another place where the intent's traffic could enter. */
  predicate KeepsIngress(links: seq<Interface>, i: Intent) {
    i.source.SubnetSource? ==> Matching(links, i.source.subnet) == []
  }

  predicate IngressesKept(links: seq<Interface>, intents: seq<Intent>) {
    intents == [] || (KeepsIngress(links, intents[0]) && IngressesKept(links, intents[1..]))
  }

  lemma {:induction false} FindAppend(a: seq<Interface>, b: seq<Interface>, name: Name)
    requires Find(a, name).Some?
    ensures Find(a + b, name) == Find(a, name)
  {
    assert (a + b)[1..] == a[1..] + b;
    if a[0].name != name {
      FindAppend(a[1..], b, name);
    }
  }

  lemma {:induction false} MatchingAppend(a: seq<Interface>, b: seq<Interface>, subnet: Prefix)
    ensures Matching(a + b, subnet) == Matching(a, subnet) + Matching(b, subnet)
  {
    if a == [] {
      assert a + b == b;
    } else {
      assert (a + b)[1..] == a[1..] + b;
      MatchingAppend(a[1..], b, subnet);
      var head := if MatchesSubnet(a[0], subnet) then [a[0].name] else [];
      assert head + (Matching(a[1..], subnet) + Matching(b, subnet)) == (head + Matching(a[1..], subnet)) + Matching(b, subnet);
    }
  }

  /** More interfaces can only make a subnet ambiguous; what an interface route resolves to stays. */
  lemma ResolveAgain(source: Source, interfaces: seq<Interface>, links: seq<Interface>, protected: seq<Prefix>)
    requires ResolveSource(source, interfaces, protected).Some?
    ensures ResolveSource(source, interfaces + links, protected) ==
            if source.SubnetSource? && Matching(links, source.subnet) != [] then None else ResolveSource(source, interfaces, protected)
  {
    match source {
      case OtherSource =>
      case InterfaceSource(name) =>
        FindAppend(interfaces, links, name);
      case SubnetSource(subnet) =>
        MatchingAppend(interfaces, links, subnet);
        if Matching(links, subnet) == [] {
          assert Matching(interfaces, subnet) + [] == Matching(interfaces, subnet);
        }
    }
  }

  lemma TunnelAgain(ctx: Planner, links: seq<Interface>, r: Route, c: Choice)
    requires TunnelOf(ctx, r, c).Some?
    ensures TunnelOf(ctx.(interfaces := ctx.interfaces + links), r, c) == TunnelOf(ctx, r, c)
  {
    if c.adapter == NativeAdapter {
      FindAppend(ctx.interfaces, links, ctx.settings.natives[c.selected.value]);
    }
  }

  lemma PlanWithAgain(ctx: Planner, again: Planner, links: seq<Interface>, r: Route, slot: Option<nat>, other: Option<nat>, selectors: seq<Selector>)
    requires PlanWith(ctx, r, slot, selectors).Some? && again == ctx.(interfaces := ctx.interfaces + links)
    ensures PlanWith(again, r, other, selectors) ==
            if KeepsIngress(links, PlanWith(ctx, r, slot, selectors).value.intent) then PlanWith(ctx, r, other, selectors) else None
  {
    ResolveAgain(r.source, ctx.interfaces, links, ctx.settings.protected);
    if !KeepsIngress(links, PlanWith(ctx, r, slot, selectors).value.intent) {
      assert ResolveSource(r.source, again.interfaces, again.settings.protected).None?;
    } else {
      TunnelAgain(ctx, links, r, Choose(r.policy, ctx.outbounds).value);
      SameIngress(ctx, again, r, other, selectors);
    }
  }

  lemma SameIngress(ctx: Planner, again: Planner, r: Route, slot: Option<nat>, selectors: seq<Selector>)
    requires again.settings == ctx.settings && again.outbounds == ctx.outbounds && Choose(r.policy, ctx.outbounds).Some?
    requires ResolveSource(r.source, again.interfaces, ctx.settings.protected) == ResolveSource(r.source, ctx.interfaces, ctx.settings.protected)
    requires TunnelOf(again, r, Choose(r.policy, ctx.outbounds).value) == TunnelOf(ctx, r, Choose(r.policy, ctx.outbounds).value)
    ensures PlanWith(again, r, slot, selectors) == PlanWith(ctx, r, slot, selectors)
  {
  }

  lemma PlanOneAgain(ctx: Planner, links: seq<Interface>, r: Route, used: Used, less: Used, selectors: seq<Selector>)
    requires ctx.settings.bases.Valid() && PlanOne(ctx, r, used, selectors).Some? && Fewer(less, used)
    ensures var step := PlanOne(ctx, r, used, selectors).value;
      var again := PlanOne(ctx.(interfaces := ctx.interfaces + links), r, less, selectors);
      var keeps := KeepsIngress(links, step.intent) && KeepsSlot(ctx.settings.bases, less, step.intent);
      (keeps ==> again == Some(step)) && (!keeps ==> again.None? || again.value.intent.table != step.intent.table)
  {
    var b := ctx.settings.bases;
    var first, again := Pick(b, used, r.digest.start, 0), Pick(b, less, r.digest.start, 0);
    PickedSlot(b, used, r.digest.start);
    PickedSlot(b, less, r.digest.start);
    SameOrMoved(ctx, r, first, again, selectors);
    PlanWithAgain(ctx, ctx.(interfaces := ctx.interfaces + links), links, r, first, again, selectors);
    PickWithFewer(b, less, used, r.digest.start, 0);
  }

  /** With more interfaces and fewer used prefixes the plan stays exactly when every route keeps its ingress and its slot. */
  lemma {:induction false} PlanAgainIff(ctx: Planner, links: seq<Interface>, routes: seq<Route>, used: Used, less: Used, seen: set<nat>, selectors: seq<Selector>)
    requires ctx.settings.bases.Valid() && PlanFrom(ctx, routes, used, seen, selectors).Some? && Fewer(less, used)
    ensures var intents := PlanFrom(ctx, routes, used, seen, selectors).value;
      PlanFrom(ctx.(interfaces := ctx.interfaces + links), routes, less, seen, selectors) == Some(intents) <==>
      IngressesKept(links, intents) && SlotsKept(ctx.settings.bases, less, intents)
    decreases |routes|
  {
    if routes != [] {
      var r := routes[0];
      if !r.enabled {
        PlanAgainIff(ctx, links, routes[1..], used, less, seen + {r.id}, selectors);
      } else {
        var step, rest := StepOfPlan(ctx, routes, used, seen, selectors);
        PlanAgainIff(ctx, links, routes[1..], Take(ctx.settings.bases, used, step.slot), Take(ctx.settings.bases, less, step.slot),
          seen + {r.id}, selectors + [step.selector]);
        PlanAgainFirst(ctx, ctx.(interfaces := ctx.interfaces + links), links, routes, used, less, seen, selectors, step, rest);
      }
    }
  }

  lemma PlanAgainFirst(ctx: Planner, again: Planner, links: seq<Interface>, routes: seq<Route>, used: Used, less: Used, seen: set<nat>,
    selectors: seq<Selector>, step: Step, rest: seq<Intent>)
    requires routes != [] && ValidRoute(routes[0]) && routes[0].id !in seen && routes[0].enabled
    requires ctx.settings.bases.Valid() && Fewer(less, used) && PlanOne(ctx, routes[0], used, selectors) == Some(step)
    requires again == ctx.(interfaces := ctx.interfaces + links)
    requires PlanFrom(again, routes[1..], Take(ctx.settings.bases, less, step.slot), seen + {routes[0].id}, selectors + [step.selector]) == Some(rest) <==>
             IngressesKept(links, rest) && SlotsKept(ctx.settings.bases, Take(ctx.settings.bases, less, step.slot), rest)
    ensures PlanFrom(again, routes, less, seen, selectors) == Some([step.intent] + rest) <==>
            IngressesKept(links, [step.intent] + rest) && SlotsKept(ctx.settings.bases, less, [step.intent] + rest)
  {
    var b := ctx.settings.bases;
    AgainHead(ctx, again, links, routes, used, less, seen, selectors, step, rest);
    StepNumbers(ctx, routes[0], used, selectors);
    KeptInTurn(b, links, less, step.intent, rest, PlanFrom(again, routes, less, seen, selectors) == Some([step.intent] + rest),
      PlanFrom(again, routes[1..], Take(b, less, step.slot), seen + {routes[0].id}, selectors + [step.selector]) == Some(rest));
  }

  lemma StepOfPlan(ctx: Planner, routes: seq<Route>, used: Used, seen: set<nat>, selectors: seq<Selector>) returns (step: Step, rest: seq<Intent>)
    requires routes != [] && routes[0].enabled && PlanFrom(ctx, routes, used, seen, selectors).Some?
    ensures ValidRoute(routes[0]) && routes[0].id !in seen && PlanOne(ctx, routes[0], used, selectors) == Some(step)
    ensures PlanFrom(ctx, routes[1..], Take(ctx.settings.bases, used, step.slot), seen + {routes[0].id}, selectors + [step.selector]) == Some(rest)
    ensures PlanFrom(ctx, routes, used, seen, selectors).value == [step.intent] + rest
  {
    step := PlanOne(ctx, routes[0], used, selectors).value;
    rest := PlanFrom(ctx, routes[1..], Take(ctx.settings.bases, used, step.slot), seen + {routes[0].id}, selectors + [step.selector]).value;
  }

  lemma StepNumbers(ctx: Planner, r: Route, used: Used, selectors: seq<Selector>)
    requires PlanOne(ctx, r, used, selectors).Some?
    ensures var step := PlanOne(ctx, r, used, selectors).value;
      forall u :: Take(ctx.settings.bases, u, step.slot) == TakeNumbers(u, step.intent)
  {
  }

  lemma KeptInTurn(bases: Bases, links: seq<Interface>, used: Used, first: Intent, rest: seq<Intent>, planned: bool, restPlanned: bool)
    requires planned <==> KeepsIngress(links, first) && KeepsSlot(bases, used, first) && restPlanned
    requires restPlanned <==> IngressesKept(links, rest) && SlotsKept(bases, TakeNumbers(used, first), rest)
    ensures planned <==> IngressesKept(links, [first] + rest) && SlotsKept(bases, used, [first] + rest)
  {
    assert ([first] + rest)[1..] == rest;
  }

  lemma AgainHead(ctx: Planner, again: Planner, links: seq<Interface>, routes: seq<Route>, used: Used, less: Used, seen: set<nat>,
    selectors: seq<Selector>, step: Step, rest: seq<Intent>)
    requires routes != [] && ValidRoute(routes[0]) && routes[0].id !in seen && routes[0].enabled
    requires ctx.settings.bases.Valid() && Fewer(less, used) && PlanOne(ctx, routes[0], used, selectors) == Some(step)
    requires again == ctx.(interfaces := ctx.interfaces + links)
    ensures PlanFrom(again, routes, less, seen, selectors) == Some([step.intent] + rest) <==>
      && KeepsIngress(links, step.intent) && KeepsSlot(ctx.settings.bases, less, step.intent)
      && PlanFrom(again, routes[1..], Take(ctx.settings.bases, less, step.slot), seen + {routes[0].id}, selectors + [step.selector]) == Some(rest)
  {
    PlanOneAgain(ctx, links, routes[0], used, less, selectors);
    FirstOfPlan(again, routes, less, seen, selectors, step, rest);
  }

  /** A plan starts with a step's intent exactly if the step is planned first, and goes on with the plan of the other routes. */
  lemma FirstOfPlan(ctx: Planner, routes: seq<Route>, used: Used, seen: set<nat>, selectors: seq<Selector>, step: Step, rest: seq<Intent>)
    requires routes != [] && ValidRoute(routes[0]) && routes[0].id !in seen && routes[0].enabled
    requires var again := PlanOne(ctx, routes[0], used, selectors);
      again.None? || again.value.intent.table != step.intent.table || again == Some(step)
    ensures PlanFrom(ctx, routes, used, seen, selectors) == Some([step.intent] + rest) <==>
      && PlanOne(ctx, routes[0], used, selectors) == Some(step)
      && PlanFrom(ctx, routes[1..], Take(ctx.settings.bases, used, step.slot), seen + {routes[0].id}, selectors + [step.selector]) == Some(rest)
  {
    var again := PlanOne(ctx, routes[0], used, selectors);
    if again.Some? {
      var next := PlanFrom(ctx, routes[1..], Take(ctx.settings.bases, used, again.value.slot), seen + {routes[0].id}, selectors + [again.value.selector]);
      if next.Some? && [again.value.intent] + next.value == [step.intent] + rest {
        assert ([again.value.intent] + next.value)[0] == ([step.intent] + rest)[0];
        assert ([again.value.intent] + next.value)[1..] == next.value && ([step.intent] + rest)[1..] == rest;
      }
    }
  }

  // ---------------------------------------------------------------- the fixpoint

  /** No two routes of the plan share a tunnel name. */
  predicate TunnelsDistinct(intents: seq<Intent>) {
    NamesDistinct(Links(Dedicated(intents), Up))
  }

  /** No planned subnet contains, or lies in, a network of a planned tunnel. */
  predicate SubnetsAvoidTunnels(intents: seq<Intent>) {
    forall k, l, n | 0 <= k < |intents| && intents[k].source.SubnetSource? && 0 <= l < |intents| && 0 <= n < |intents[l].tunnelAddresses| ::
      !Overlap(intents[l].tunnelAddresses[n], intents[k].source.subnet)
  }

  lemma MaskedOverlaps(t: Prefix, s: Prefix)
    requires t.Valid()
    ensures Overlap(Masked(t), s) <==> Overlap(t, s)
  {
    MaskedContains(t);
    if Overlap(Masked(t), s) {
      OverlapWidens(Masked(t), t, s);
    }
    if Overlap(t, s) {
      OverlapWidens(t, Masked(t), s);
    }
  }

  /** A tunnel that is up is one more place to enter exactly for subnets that overlap one of its networks. */
  lemma LinkMatches(i: Intent, state: LinkState, subnet: Prefix)
    requires i.tunnel.Tunnel? && forall n | 0 <= n < |i.tunnelAddresses| :: i.tunnelAddresses[n].Valid()
    ensures MatchesSubnet(Link(i, state), subnet) <==>
            state == Up && exists n | 0 <= n < |i.tunnelAddresses| :: Overlap(i.tunnelAddresses[n], subnet)
  {
    forall n | 0 <= n < |i.tunnelAddresses| ensures Overlap(Masked(i.tunnelAddresses[n]), subnet) <==> Overlap(i.tunnelAddresses[n], subnet) {
      MaskedOverlaps(i.tunnelAddresses[n], subnet);
    }
  }

  lemma {:induction false} AllIngressesKept(links: seq<Interface>, intents: seq<Intent>)
    ensures IngressesKept(links, intents) <==> forall k | 0 <= k < |intents| :: KeepsIngress(links, intents[k])
  {
    if intents != [] {
      AllIngressesKept(links, intents[1..]);
      assert forall k | 0 < k < |intents| :: intents[1..][k - 1] == intents[k];
      assert forall k | 0 <= k < |intents[1..]| :: intents[1..][k] == intents[k + 1];
    }
  }

  lemma IngressesKeptIff(intents: seq<Intent>, state: LinkState)
    requires SoundTunnels(intents)
    ensures IngressesKept(Links(Dedicated(intents), state), intents) <==> state != Up || SubnetsAvoidTunnels(intents)
  {
    var d, links := Dedicated(intents), Links(Dedicated(intents), state);
    AllIngressesKept(links, intents);
    LinksLength(d, state);
    forall k | 0 <= k < |intents| && intents[k].source.SubnetSource?
      ensures KeepsIngress(links, intents[k]) <==> state != Up || forall l, n | 0 <= l < |intents| && 0 <= n < |intents[l].tunnelAddresses| ::
        !Overlap(intents[l].tunnelAddresses[n], intents[k].source.subnet)
    {
      var subnet := intents[k].source.subnet;
      NoneMatching(links, subnet);
      forall l | 0 <= l < |d| ensures d[l] in intents && links[l] == Link(d[l], state) &&
        (MatchesSubnet(links[l], subnet) <==> state == Up && exists n | 0 <= n < |d[l].tunnelAddresses| :: Overlap(d[l].tunnelAddresses[n], subnet))
      {
        LinksAt(d, state, l);
        DedicatedMembers(intents, d[l]);
        LinkMatches(d[l], state, subnet);
      }
      forall l | 0 <= l < |intents| && intents[l].tunnelAddresses != [] ensures intents[l] in d {
        DedicatedMembers(intents, intents[l]);
      }
    }
  }

  /** A plan without native routes: no search meets a slot that an interface of a native route had blocked. */
  lemma SameSlotsKept(ctx: Planner, routes: seq<Route>, used: Used, less: Used, seen: set<nat>, selectors: seq<Selector>)
    requires ctx.settings.bases.Valid() && PlanFrom(ctx, routes, used, seen, selectors).Some?
    requires Fewer(less, used) && forall p | p in used.prefixes :: p in less.prefixes
    ensures var intents := PlanFrom(ctx, routes, used, seen, selectors).value;
      SlotsKept(ctx.settings.bases, less, intents)
  {
    SamePrefixesSamePlan(ctx, routes, used, less, seen, selectors);
    assert ctx.interfaces + [] == ctx.interfaces;
    PlanAgainIff(ctx, [], routes, used, less, seen, selectors);
  }

  lemma {:induction false} SamePick(bases: Bases, used: Used, less: Used, start: nat, offset: nat)
    requires Fewer(less, used) && forall p | p in used.prefixes :: p in less.prefixes
    ensures Pick(bases, used, start, offset) == Pick(bases, less, start, offset)
    decreases SLOTS - offset
  {
    if offset < SLOTS && !Free(bases, used, SlotAt(start, offset)) {
      SamePick(bases, used, less, start, offset + 1);
    }
  }

  lemma {:induction false} SamePrefixesSamePlan(ctx: Planner, routes: seq<Route>, used: Used, less: Used, seen: set<nat>, selectors: seq<Selector>)
    requires Fewer(less, used) && forall p | p in used.prefixes :: p in less.prefixes
    ensures PlanFrom(ctx, routes, used, seen, selectors) == PlanFrom(ctx, routes, less, seen, selectors)
    decreases |routes|
  {
    if routes != [] {
      var r, b := routes[0], ctx.settings.bases;
      SamePick(b, used, less, r.digest.start, 0);
      if !r.enabled {
        SamePrefixesSamePlan(ctx, routes[1..], used, less, seen + {r.id}, selectors);
      } else if PlanOne(ctx, r, used, selectors).Some? {
        var step := PlanOne(ctx, r, used, selectors).value;
        SamePrefixesSamePlan(ctx, routes[1..], Take(b, used, step.slot), Take(b, less, step.slot), seen + {r.id}, selectors + [step.selector]);
      }
    }
  }

  lemma GrownNames(h: Inventory, intents: seq<Intent>, state: LinkState)
    requires NamesDistinct(h.interfaces) && NewNames(h, intents) && SoundTunnels(intents)
    ensures NamesDistinct(Grow(h, intents, state).interfaces) <==> TunnelsDistinct(intents)
  {
    var d, n, all := Dedicated(intents), |h.interfaces|, Grow(h, intents, state).interfaces;
    LinksLength(d, state);
    LinksLength(d, Up);
    forall l | 0 <= l < |d|
      ensures all[n + l].name == d[l].tunnel == Links(d, Up)[l].name && forall i | 0 <= i < n :: all[i].name != d[l].tunnel
    {
      LinksAt(d, state, l);
      LinksAt(d, Up, l);
      DedicatedMembers(intents, d[l]);
    }
    if NamesDistinct(all) {
      forall i, j | 0 <= i < j < |d| ensures Links(d, Up)[i].name != Links(d, Up)[j].name {
        assert all[n + i].name != all[n + j].name;
      }
    }
    if TunnelsDistinct(intents) {
      forall i, j | 0 <= i < j < |all| ensures all[i].name != all[j].name {
        if i >= n {
          assert Links(d, Up)[i - n].name != Links(d, Up)[j - n].name;
        } else if j >= n {
          assert all[n + (j - n)].name == d[j - n].tunnel;
        }
      }
    }
  }

  /** What planning again meets on the grown host, once the owned resources are released. */
  function ReleasedOn(h: Inventory, intents: seq<Intent>, state: LinkState): Used {
    Remaining(intents, Grow(h, intents, state), UsedOn(Grow(h, intents, state)))
  }

  /**
   * On the host with exactly the planned resources added, releasing the owned ones gives back the very tables and
   * priorities used before, and the prefixes used before but for those on interfaces of native routes.
   */
  lemma ReleaseGivesBack(ctx: Planner, h: Inventory, routes: seq<Route>, state: LinkState)
    requires Plan(ctx, routes, UsedOn(h)).Some? && NewNames(h, Plan(ctx, routes, UsedOn(h)).value)
    ensures var intents := Plan(ctx, routes, UsedOn(h)).value;
      && ReleasedOn(h, intents, state).tables == UsedOn(h).tables && ReleasedOn(h, intents, state).priorities == UsedOn(h).priorities
      && forall p :: p in ReleasedOn(h, intents, state).prefixes <==> p in UsedOn(h).prefixes && !NativePrefix(h, intents, p)
  {
    var intents := Plan(ctx, routes, UsedOn(h)).value;
    PlannedIsNew(ctx, routes, UsedOn(h));
    TablesGivenBack(h, intents, state);
    PrioritiesGivenBack(h, intents, state);
    forall p ensures p in ReleasedOn(h, intents, state).prefixes <==> p in UsedOn(h).prefixes && !NativePrefix(h, intents, p) {
      PrefixesGivenBack(h, intents, state, p);
    }
  }

  lemma AgainIff(ctx: Planner, h: Inventory, routes: seq<Route>, state: LinkState)
    requires ctx.interfaces == h.interfaces && Plan(ctx, routes, UsedOn(h)).Some?
    requires NewNames(h, Plan(ctx, routes, UsedOn(h)).value)
    ensures var intents := Plan(ctx, routes, UsedOn(h)).value;
      Plan(ctx.(interfaces := Grow(h, intents, state).interfaces), routes, ReleasedOn(h, intents, state)) == Some(intents) <==>
      && TunnelsDistinct(intents) && (state == Up ==> SubnetsAvoidTunnels(intents))
      && SlotsKept(ctx.settings.bases, ReleasedOn(h, intents, state), intents)
  {
    var intents := Plan(ctx, routes, UsedOn(h)).value;
    ReleaseGivesBack(ctx, h, routes, state);
    PlannedIsNew(ctx, routes, UsedOn(h));
    GrownNames(h, intents, state);
    IngressesKeptIff(intents, state);
    PlanAgainIff(ctx, Links(Dedicated(intents), state), routes, UsedOn(h), ReleasedOn(h, intents, state), {}, []);
  }

  // ---------------------------------------------------------------- slots that only native interfaces block

  /** On its way around the slots from where it starts, a search comes by `s` before it comes to `slot`. */
  predicate PassedBy(start: nat, slot: int, s: int) {
    (s - start) % SLOTS < (slot - start) % SLOTS
  }

  lemma SlotAtOffset(start: nat, offset: nat, s: int)
    requires offset < SLOTS && 0 <= s < SLOTS
    ensures SlotAt(start, offset) == s <==> offset == (s - start) % SLOTS
  {
    var x, d := start + offset, (s - start) % SLOTS;
    WholeTurns(x, 0x200_0000 * (x / 0x1_0000_0000));
    WholeTurns(s, (s - start) / SLOTS);
    assert start + d == s - SLOTS * ((s - start) / SLOTS);
    if SlotAt(start, offset) == s {
      WholeTurns(s - start + SLOTS * (x / SLOTS), x / SLOTS);
      assert offset == s - start + SLOTS * (x / SLOTS);
    }
  }

  /** Whole turns around the slots do not change where one is. */
  lemma WholeTurns(x: int, turns: int)
    ensures (x - SLOTS * turns) % SLOTS == x % SLOTS
  {
    var q := x / SLOTS;
    assert x - SLOTS * turns == SLOTS * (q - turns) + x % SLOTS;
    OneTurn(q - turns, x % SLOTS);
  }

  lemma OneTurn(q: int, r: int)
    requires 0 <= r < SLOTS
    ensures (SLOTS * q + r) % SLOTS == r
  {
  }

  lemma UndercutIff(bases: Bases, used: Used, start: nat, slot: int)
    requires 0 <= slot < SLOTS
    ensures UndercutFrom(bases, used, start, 0, slot) <==> exists s: nat | s < SLOTS :: PassedBy(start, slot, s) && Free(bases, used, s)
  {
    if o: nat :| 0 <= o < SLOTS && Free(bases, used, SlotAt(start, o)) && forall p: nat | 0 <= p <= o :: SlotAt(start, p) != slot {
      SlotAtOffset(start, o, SlotAt(start, o));
      SlotAtOffset(start, (slot - start) % SLOTS, slot);
      assert PassedBy(start, slot, SlotAt(start, o));
    }
    if s: nat :| s < SLOTS && PassedBy(start, slot, s) && Free(bases, used, s) {
      var o := (s - start) % SLOTS;
      SlotAtOffset(start, o, s);
      forall p: nat | 0 <= p <= o ensures SlotAt(start, p) != slot {
        SlotAtOffset(start, p, slot);
      }
    }
  }

  function TakeAll(used: Used, intents: seq<Intent>): Used
    decreases |intents|
  {
    if intents == [] then used else TakeAll(TakeNumbers(used, intents[0]), intents[1..])
  }

  lemma {:induction false} TakeAllMeaning(used: Used, intents: seq<Intent>)
    ensures TakeAll(used, intents).prefixes == used.prefixes
    ensures forall t :: t in TakeAll(used, intents).tables <==> t in used.tables || HasTable(intents, t)
    ensures forall p :: p in TakeAll(used, intents).priorities <==> p in used.priorities || HasPriority(intents, p)
    decreases |intents|
  {
    if intents != [] {
      TakeAllMeaning(TakeNumbers(used, intents[0]), intents[1..]);
      assert forall k | 0 < k < |intents| :: intents[1..][k - 1] == intents[k];
      assert forall k | 0 <= k < |intents[1..]| :: intents[1..][k] == intents[k + 1];
    }
  }

  lemma {:induction false} SlotsKeptAt(bases: Bases, used: Used, intents: seq<Intent>)
    ensures SlotsKept(bases, used, intents) <==> forall k | 0 <= k < |intents| :: KeepsSlot(bases, TakeAll(used, intents[..k]), intents[k])
    decreases |intents|
  {
    if intents != [] {
      var next, rest := TakeNumbers(used, intents[0]), intents[1..];
      SlotsKeptAt(bases, next, rest);
      forall k | 0 <= k < |rest|
        ensures KeepsSlot(bases, TakeAll(next, rest[..k]), rest[k]) <==> KeepsSlot(bases, TakeAll(used, intents[..k + 1]), intents[k + 1])
      {
        assert intents[..k + 1][0] == intents[0] && intents[..k + 1][1..] == rest[..k];
      }
      assert intents[..0] == [];
      if SlotsKept(bases, used, intents) {
        forall k | 0 <= k < |intents| ensures KeepsSlot(bases, TakeAll(used, intents[..k]), intents[k]) {
          assert k > 0 ==> KeepsSlot(bases, TakeAll(next, rest[..k - 1]), rest[k - 1]);
        }
      }
      if forall k | 0 <= k < |intents| :: KeepsSlot(bases, TakeAll(used, intents[..k]), intents[k]) {
        assert KeepsSlot(bases, TakeAll(used, intents[..0]), intents[0]);
        forall k | 0 <= k < |rest| ensures KeepsSlot(bases, TakeAll(next, rest[..k]), rest[k]) {
          assert KeepsSlot(bases, TakeAll(used, intents[..k + 1]), intents[k + 1]);
        }
      }
    }
  }

  /**
   * Nothing but prefixes of native interfaces in use blocks the slot for route `k`: its numbers are neither used nor
   * planned for an earlier route, and every used prefix that overlaps its networks is one of those.
   */
  ghost predicate OnlyNativesBlock(bases: Bases, h: Inventory, intents: seq<Intent>, k: nat, s: nat)
    requires k <= |intents|
  {
    && bases.table + s !in UsedOn(h).tables && !HasTable(intents[..k], bases.table + s)
    && bases.priority + s !in UsedOn(h).priorities && !HasPriority(intents[..k], bases.priority + s)
    && forall p | p in UsedOn(h).prefixes && (Overlap(SlotNet4(s), p) || Overlap(SlotNet6(s), p)) :: NativePrefix(h, intents, p)
  }

  lemma FreeAfterRelease(ctx: Planner, h: Inventory, routes: seq<Route>, state: LinkState, k: nat, s: nat)
    requires Plan(ctx, routes, UsedOn(h)).Some? && NewNames(h, Plan(ctx, routes, UsedOn(h)).value)
    requires k <= |Plan(ctx, routes, UsedOn(h)).value| && s < SLOTS
    ensures var intents := Plan(ctx, routes, UsedOn(h)).value;
      Free(ctx.settings.bases, TakeAll(ReleasedOn(h, intents, state), intents[..k]), s) <==> OnlyNativesBlock(ctx.settings.bases, h, intents, k, s)
  {
    var intents := Plan(ctx, routes, UsedOn(h)).value;
    ReleaseGivesBack(ctx, h, routes, state);
    FreeAfterTaking(ctx.settings.bases, h, intents, ReleasedOn(h, intents, state), k, s);
  }

  lemma FreeAfterTaking(bases: Bases, h: Inventory, intents: seq<Intent>, released: Used, k: nat, s: nat)
    requires bases.Valid() && k <= |intents| && s < SLOTS
    requires released.tables == UsedOn(h).tables && released.priorities == UsedOn(h).priorities
    requires forall p :: p in released.prefixes <==> p in UsedOn(h).prefixes && !NativePrefix(h, intents, p)
    ensures Free(bases, TakeAll(released, intents[..k]), s) <==> OnlyNativesBlock(bases, h, intents, k, s)
  {
    TakeAllMeaning(released, intents[..k]);
    SlotArithmeticNeverWraps(bases, 0, 0, s);
    FreeIffOnlyNatives(bases, h, intents, TakeAll(released, intents[..k]), k, s);
  }

  lemma FreeIffOnlyNatives(bases: Bases, h: Inventory, intents: seq<Intent>, used: Used, k: nat, s: nat)
    requires k <= |intents| && Word(bases.table + s) == bases.table + s && Word(bases.priority + s) == bases.priority + s
    requires forall t :: t in used.tables <==> t in UsedOn(h).tables || HasTable(intents[..k], t)
    requires forall p :: p in used.priorities <==> p in UsedOn(h).priorities || HasPriority(intents[..k], p)
    requires forall p :: p in used.prefixes <==> p in UsedOn(h).prefixes && !NativePrefix(h, intents, p)
    ensures Free(bases, used, s) <==> OnlyNativesBlock(bases, h, intents, k, s)
  {
  }

  lemma PlannedSlots(ctx: Planner, routes: seq<Route>, used: Used, k: nat)
    requires Plan(ctx, routes, used).Some? && k < |Plan(ctx, routes, used).value|
    ensures 0 <= SlotOf(ctx.settings.bases, Plan(ctx, routes, used).value[k]) < SLOTS
  {
    AllocationIsFresh(ctx, routes, used, k);
  }

  lemma SlotsKeptIff(ctx: Planner, h: Inventory, routes: seq<Route>, state: LinkState)
    requires Plan(ctx, routes, UsedOn(h)).Some? && NewNames(h, Plan(ctx, routes, UsedOn(h)).value)
    ensures var intents, b := Plan(ctx, routes, UsedOn(h)).value, ctx.settings.bases;
      SlotsKept(b, ReleasedOn(h, intents, state), intents) <==> NothingFreed(b, h, intents)
  {
    var intents, b, used := Plan(ctx, routes, UsedOn(h)).value, ctx.settings.bases, ReleasedOn(h, Plan(ctx, routes, UsedOn(h)).value, state);
    SlotsKeptAt(b, used, intents);
    forall k | 0 <= k < |intents|
      ensures KeepsSlot(b, TakeAll(used, intents[..k]), intents[k]) <==>
        forall s: nat | s < SLOTS && PassedBy(intents[k].digest.start, SlotOf(b, intents[k]), s) :: !OnlyNativesBlock(b, h, intents, k, s)
    {
      PlannedSlots(ctx, routes, UsedOn(h), k);
      UndercutIff(b, TakeAll(used, intents[..k]), intents[k].digest.start, SlotOf(b, intents[k]));
      forall s: nat | s < SLOTS ensures Free(b, TakeAll(used, intents[..k]), s) <==> OnlyNativesBlock(b, h, intents, k, s) {
        FreeAfterRelease(ctx, h, routes, state, k, s);
      }
    }
  }

  /** No route's search comes by a slot that only native interfaces block. */
  ghost predicate NothingFreed(bases: Bases, h: Inventory, intents: seq<Intent>) {
    forall k | 0 <= k < |intents| ::
      forall s: nat | s < SLOTS && PassedBy(intents[k].digest.start, SlotOf(bases, intents[k]), s) :: !OnlyNativesBlock(bases, h, intents, k, s)
  }

  /**
   * Allocation is a fixpoint exactly when no two tunnels share a name, no planned subnet overlaps a planned tunnel
   * network while the tunnels are up, and no search comes by a slot that only interfaces of native routes block.
   */
  lemma AllocationFixpointIff(ctx: Planner, h: Inventory, routes: seq<Route>, state: LinkState)
    requires ctx.interfaces == h.interfaces && Plan(ctx, routes, UsedOn(h)).Some?
    requires NewNames(h, Plan(ctx, routes, UsedOn(h)).value)
    ensures var intents := Plan(ctx, routes, UsedOn(h)).value;
      Plan(ctx.(interfaces := Grow(h, intents, state).interfaces), routes, ReleasedOn(h, intents, state)) == Some(intents) <==>
      TunnelsDistinct(intents) && (state == Up ==> SubnetsAvoidTunnels(intents)) && NothingFreed(ctx.settings.bases, h, intents)
  {
    AgainIff(ctx, h, routes, state);
    SlotsKeptIff(ctx, h, routes, state);
  }

  /** Without native routes nothing else can go wrong: the slots are always kept. */
  lemma AllocationFixpoint(ctx: Planner, h: Inventory, routes: seq<Route>, state: LinkState)
    requires ctx.interfaces == h.interfaces && Plan(ctx, routes, UsedOn(h)).Some?
    requires NewNames(h, Plan(ctx, routes, UsedOn(h)).value)
    requires forall i | i in Plan(ctx, routes, UsedOn(h)).value :: i.adapter != NativeAdapter
    ensures var intents := Plan(ctx, routes, UsedOn(h)).value;
      Plan(ctx.(interfaces := Grow(h, intents, state).interfaces), routes, ReleasedOn(h, intents, state)) == Some(intents) <==>
      TunnelsDistinct(intents) && (state == Up ==> SubnetsAvoidTunnels(intents))
  {
    var intents := Plan(ctx, routes, UsedOn(h)).value;
    ReleaseGivesBack(ctx, h, routes, state);
    AgainIff(ctx, h, routes, state);
    SameSlotsKept(ctx, routes, UsedOn(h), ReleasedOn(h, intents, state), {}, []);
  }

  // ---------------------------------------------------------------- when it is no fixpoint

  /** If an added interface is another way in for some planned subnet, planning again fails altogether. */
  lemma {:induction false} RefusedAgain(ctx: Planner, again: Planner, links: seq<Interface>, routes: seq<Route>, used: Used, less: Used, seen: set<nat>,
    selectors: seq<Selector>)
    requires again == ctx.(interfaces := ctx.interfaces + links) && PlanFrom(ctx, routes, used, seen, selectors).Some?
    requires !IngressesKept(links, PlanFrom(ctx, routes, used, seen, selectors).value)
    ensures PlanFrom(again, routes, less, seen, selectors).None?
    decreases |routes|
  {
    var r := routes[0];
    if !r.enabled {
      RefusedAgain(ctx, again, links, routes[1..], used, less, seen + {r.id}, selectors);
    } else {
      var step, rest := StepOfPlan(ctx, routes, used, seen, selectors);
      assert ([step.intent] + rest)[1..] == rest;
      SelectorAgain(ctx, again, links, r, used, less, selectors);
      if PlanOne(again, r, less, selectors).Some? {
        var other := PlanOne(again, r, less, selectors).value;
        RefusedAgain(ctx, again, links, routes[1..], Take(ctx.settings.bases, used, step.slot), Take(ctx.settings.bases, less, other.slot),
          seen + {r.id}, selectors + [step.selector]);
      }
    }
  }

  lemma SelectorAgain(ctx: Planner, again: Planner, links: seq<Interface>, r: Route, used: Used, less: Used, selectors: seq<Selector>)
    requires again == ctx.(interfaces := ctx.interfaces + links) && PlanOne(ctx, r, used, selectors).Some?
    ensures var step, other := PlanOne(ctx, r, used, selectors).value, PlanOne(again, r, less, selectors);
      && (!KeepsIngress(links, step.intent) ==> other.None?)
      && (other.Some? ==> other.value.selector == step.selector)
  {
    ResolveAgain(r.source, ctx.interfaces, links, ctx.settings.protected);
  }

  /** The unique local addresses of IPv6, fd00::/8. */
  function UniqueLocal(): Prefix {
    Prefix(Addr(V6, Shl(0xfd, 120)), 8)
  }

  lemma UniqueLocalHoldsTunnels(slot: nat)
    requires slot < SLOTS
    ensures Overlap(SlotNet6(slot), UniqueLocal())
  {
    Head6Dropped(slot, 80);
    DropOfShl(0xfd, 120);
    assert UniqueLocal().Contains(SlotNet6(slot).addr);
  }

  /**
   * A route for the subnet fd00::/8 next to any route with a tunnel of its own: once the tunnels are up they carry
   * addresses of that subnet, it no longer maps to one interface, and planning again is refused.
   */
  lemma UniqueLocalSubnetIsRefused(ctx: Planner, h: Inventory, routes: seq<Route>, k: nat, l: nat)
    requires ctx.interfaces == h.interfaces && Plan(ctx, routes, UsedOn(h)).Some?
    requires k < |Plan(ctx, routes, UsedOn(h)).value| && l < |Plan(ctx, routes, UsedOn(h)).value|
    requires Plan(ctx, routes, UsedOn(h)).value[k].source == SubnetSource(UniqueLocal())
    requires Plan(ctx, routes, UsedOn(h)).value[l].adapter != NativeAdapter
    ensures var intents := Plan(ctx, routes, UsedOn(h)).value;
      Plan(ctx.(interfaces := Grow(h, intents, Up).interfaces), routes, ReleasedOn(h, intents, Up)).None?
  {
    var intents := Plan(ctx, routes, UsedOn(h)).value;
    PlannedIsNew(ctx, routes, UsedOn(h));
    PlanFacts(ctx, routes, UsedOn(h), {}, []);
    assert Grounded(ctx, UsedOn(h), {}, [], intents[l]);
    var slot :| Occupies(ctx.settings.bases, intents[l], slot) && Free(ctx.settings.bases, UsedOn(h), slot);
    UniqueLocalHoldsTunnels(slot);
    assert intents[l].tunnelAddresses[1] == SlotNet6(slot);
    IngressesKeptIff(intents, Up);
    var links := Links(Dedicated(intents), Up);
    RefusedAgain(ctx, ctx.(interfaces := ctx.interfaces + links), links, routes, UsedOn(h), ReleasedOn(h, intents, Up), {}, []);
  }

  /**
   * Releasing also gives back the prefixes on the interface of a native route. If they were all that blocked the slot
   * at which a route's search starts, planning again moves that route.
   */
  lemma NativeRouteMoves(ctx: Planner, h: Inventory, r: Route, state: LinkState)
    requires ctx.interfaces == h.interfaces && Plan(ctx, [r], UsedOn(h)).Some? && NewNames(h, Plan(ctx, [r], UsedOn(h)).value)
    requires r.enabled && !Free(ctx.settings.bases, UsedOn(h), SlotAt(r.digest.start, 0))
    requires OnlyNativesBlock(ctx.settings.bases, h, Plan(ctx, [r], UsedOn(h)).value, 0, SlotAt(r.digest.start, 0))
    ensures var intents := Plan(ctx, [r], UsedOn(h)).value;
      Plan(ctx.(interfaces := Grow(h, intents, state).interfaces), [r], ReleasedOn(h, intents, state)) != Some(intents)
  {
    var intents, b, s := Plan(ctx, [r], UsedOn(h)).value, ctx.settings.bases, SlotAt(r.digest.start, 0);
    NotTheFirst(ctx, r, UsedOn(h));
    PlannedSlots(ctx, [r], UsedOn(h), 0);
    FirstIsPassed(r.digest.start, SlotOf(b, intents[0]));
    assert !NothingFreed(b, h, intents) by {
      assert PassedBy(intents[0].digest.start, SlotOf(b, intents[0]), s) && OnlyNativesBlock(b, h, intents, 0, s);
    }
    AllocationFixpointIff(ctx, h, [r], state);
  }

  lemma FirstIsPassed(start: nat, slot: int)
    requires 0 <= slot < SLOTS && slot != SlotAt(start, 0)
    ensures PassedBy(start, slot, SlotAt(start, 0))
  {
    SlotAtOffset(start, 0, SlotAt(start, 0));
    SlotAtOffset(start, 0, slot);
  }

  /** A route whose search starts at a blocked slot is planned in another one. */
  lemma NotTheFirst(ctx: Planner, r: Route, used: Used)
    requires Plan(ctx, [r], used).Some? && r.enabled && !Free(ctx.settings.bases, used, SlotAt(r.digest.start, 0))
    ensures var intents := Plan(ctx, [r], used).value;
      |intents| > 0 && intents[0].digest == r.digest && SlotOf(ctx.settings.bases, intents[0]) != SlotAt(r.digest.start, 0)
  {
    var b, first := ctx.settings.bases, Pick(ctx.settings.bases, used, r.digest.start, 0);
    var step, rest := StepOfPlan(ctx, [r], used, {}, []);
    PickFinds(b, used, r.digest.start, 0);
    SameOrMoved(ctx, r, first, first, []);
  }
}
