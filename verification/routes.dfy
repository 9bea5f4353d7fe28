/** Routes, the intents planned from them, and the parts of planning that look at one route. */
module Routes {
  import opened Wrappers
  import opened Prefixes
  import opened Slots

  /** Interface names: the loopback, a tunnel named after a digest, an interface owned by a native outbound, any other. */
  datatype Name = Lo | Tunnel(digest: nat) | Native(n: nat) | OtherName(n: nat)

  datatype Source = InterfaceSource(name: Name) | SubnetSource(subnet: Prefix) | OtherSource
  datatype IpPolicy = Follow | Block | Direct
  datatype DnsPolicy = DnsFollow | DnsSystem | DnsBlock
  datatype FailurePolicy = FailBlock | FailOver | FailDirect
  datatype Adapter = SingBoxAdapter | NativeAdapter | OtherAdapter
  datatype Health = Unhealthy | HealthDisabled | OtherHealth

  /** The two parts of the digest of a route's ID that planning uses. */
  datatype Digest = Digest(start: nat, name: nat)

  datatype Policy = Policy(
    outbound: nat, fallback: Option<nat>, failure: FailurePolicy, dns: DnsPolicy, dnsServers: seq<Addr>,
    ipv4: IpPolicy, ipv6: IpPolicy, killSwitch: bool, mtu: nat, mss: nat)

  datatype Route = Route(id: nat, digest: Digest, source: Source, policy: Policy, enabled: bool)

  datatype Intent = Intent(
    id: nat, digest: Digest, source: Source, ingress: Name, tunnel: Name, table: nat, priority: nat, adapter: Adapter,
    selected: Option<nat>, useDirect: bool, policy: Policy, bypass: seq<Addr>, tunnelAddresses: seq<Prefix>)

  function FamilyPolicy(p: Policy, family: Family): IpPolicy {
    if family == V4 then p.ipv4 else p.ipv6
  }

  // ---------------------------------------------------------------- validity

  predicate LinkLocal(a: Addr) {
    if a.family == V4 then Drop(a.value, 16) == 0xa9fe else Drop(a.value, 118) == 0x3fa
  }

  predicate Distinct<T(==)>(s: seq<T>) {
    forall i, j | 0 <= i < j < |s| :: s[i] != s[j]
  }

  predicate ValidSource(s: Source) {
    s.SubnetSource? ==> Canonical(s.subnet)
  }

  predicate ValidPolicy(p: Policy) {
    && (if p.failure == FailOver then p.fallback.Some? && p.fallback.value != p.outbound else p.fallback.None?)
    && (p.mtu == 0 || 576 <= p.mtu <= 9000)
    && (p.mss == 0 || (536 <= p.mss <= 8960 && (p.mtu != 0 ==> p.mss < p.mtu)))
    && (p.failure == FailDirect <==> !p.killSwitch)
    && (if p.dns == DnsFollow then
          1 <= |p.dnsServers| <= 4 && Distinct(p.dnsServers)
          && forall i | 0 <= i < |p.dnsServers| :: !Unspecified(p.dnsServers[i]) && !Loopback(p.dnsServers[i]) && !Multicast(p.dnsServers[i]) && !LinkLocal(p.dnsServers[i])
        else p.dnsServers == [])
  }

  predicate ValidRoute(r: Route) {
    ValidSource(r.source) && ValidPolicy(r.policy)
  }

  predicate Unsafe(a: Addr) {
    Unspecified(a) || Loopback(a) || Multicast(a)
  }

  predicate ValidBypass(addresses: seq<Addr>) {
    1 <= |addresses| <= 32 && Distinct(addresses) && forall i | 0 <= i < |addresses| :: !Unsafe(addresses[i])
  }

  predicate ValidSelection(i: Intent) {
    if i.useDirect then i.policy.failure == FailDirect && i.selected.None?
    else i.selected.Some? && (i.selected.value == i.policy.outbound || (i.policy.failure == FailOver && i.selected == i.policy.fallback))
  }

  /** What the reader of the owned state demands of every intent. */
  predicate ValidIntent(i: Intent) {
    && i.table != 0 && i.priority != 0
    && (i.adapter == SingBoxAdapter || i.adapter == NativeAdapter)
    && (if i.adapter == SingBoxAdapter then i.tunnel == Tunnel(i.digest.name) else i.tunnel.Native?)
    && ValidSelection(i)
    && ValidSource(i.source) && ValidPolicy(i.policy)
    && (i.source.InterfaceSource? ==> i.source.name == i.ingress)
    && ValidTunnels(i.adapter, i.tunnelAddresses)
    && ValidBypass(i.bypass)
  }

  /** A sing-box route has one tunnel address of each family, any other none. */
  predicate ValidTunnels(adapter: Adapter, addresses: seq<Prefix>) {
    if adapter == SingBoxAdapter then |addresses| == 2 && ValidTunnelAddress(addresses[0], V4) && ValidTunnelAddress(addresses[1], V6)
    else addresses == []
  }

  // ---------------------------------------------------------------- the host

  datatype LinkState = Up | Down | OtherState

  datatype Interface = Interface(name: Name, state: LinkState, addresses: seq<Prefix>)

  function InterfacePrefixes(i: Interface): seq<Prefix> {
    seq(|i.addresses|, k requires 0 <= k < |i.addresses| => Masked(i.addresses[k]))
  }

  predicate NamesDistinct(interfaces: seq<Interface>) {
    forall i, j | 0 <= i < j < |interfaces| :: interfaces[i].name != interfaces[j].name
  }

  function Find(interfaces: seq<Interface>, name: Name): Option<Interface> {
    if interfaces == [] then None
    else if interfaces[0].name == name then Some(interfaces[0])
    else Find(interfaces[1..], name)
  }

  // ---------------------------------------------------------------- where a route's traffic enters

  datatype Selector = Selector(ingress: Name, subnet: Option<Prefix>)

  predicate SelectorsOverlap(left: Selector, right: Selector) {
    && left.ingress == right.ingress
    && (left.subnet.None? || right.subnet.None? || Overlap(left.subnet.value, right.subnet.value))
  }

  predicate Carries(i: Interface, subnet: Prefix) {
    exists k | 0 <= k < |i.addresses| :: Overlap(Masked(i.addresses[k]), subnet)
  }

  predicate MatchesSubnet(i: Interface, subnet: Prefix) {
    i.state == Up && i.name != Lo && Carries(i, subnet)
  }

  /** The active interfaces that carry some address of the subnet. */
  function Matching(interfaces: seq<Interface>, subnet: Prefix): seq<Name> {
    if interfaces == [] then []
    else (if MatchesSubnet(interfaces[0], subnet) then [interfaces[0].name] else []) + Matching(interfaces[1..], subnet)
  }

  function ResolveSource(source: Source, interfaces: seq<Interface>, protected: seq<Prefix>): Option<Selector> {
    match source
    case OtherSource => None
    case InterfaceSource(name) =>
      var found := Find(interfaces, name);
      if found.None? || found.value.state != Up || name == Lo || AnyProtected(found.value, protected) then None
      else Some(Selector(name, None))
    case SubnetSource(subnet) =>
      var matches := Matching(interfaces, subnet);
      if Unsafe(subnet.addr) || OverlapsAny(subnet, protected) || |matches| != 1 then None
      else Some(Selector(matches[0], Some(subnet)))
  }

  predicate AnyProtected(i: Interface, protected: seq<Prefix>) {
    exists k | 0 <= k < |i.addresses| :: OverlapsAny(Masked(i.addresses[k]), protected)
  }

  /** The search over the interface table collects every match and accepts only one. */
  method FindMatches(interfaces: seq<Interface>, subnet: Prefix) returns (matches: seq<Name>)
    ensures matches == Matching(interfaces, subnet)
  {
    matches := [];
    for i := 0 to |interfaces|
      invariant Matching(interfaces, subnet) == matches + Matching(interfaces[i..], subnet)
    {
      assert interfaces[i..][0] == interfaces[i] && interfaces[i..][1..] == interfaces[i + 1..];
      var rest := Matching(interfaces[i + 1..], subnet);
      var carries := CarriesSubnet(interfaces[i], subnet);
      if interfaces[i].state == Up && interfaces[i].name != Lo && carries {
        assert matches + ([interfaces[i].name] + rest) == (matches + [interfaces[i].name]) + rest;
        matches := matches + [interfaces[i].name];
      } else {
        assert matches + ([] + rest) == matches + rest;
      }
    }
    assert matches + [] == matches;
  }

  /** Interface `i` and no other is active and carries an address of the subnet. */
  predicate OnlyMatch(interfaces: seq<Interface>, subnet: Prefix, i: int) {
    && 0 <= i < |interfaces| && MatchesSubnet(interfaces[i], subnet)
    && forall j | 0 <= j < |interfaces| && j != i :: !MatchesSubnet(interfaces[j], subnet)
  }

  lemma {:induction false} NoneMatching(interfaces: seq<Interface>, subnet: Prefix)
    ensures Matching(interfaces, subnet) == [] <==> forall i | 0 <= i < |interfaces| :: !MatchesSubnet(interfaces[i], subnet)
  {
    if interfaces != [] {
      NoneMatching(interfaces[1..], subnet);
      assert forall i | 0 < i < |interfaces| :: interfaces[1..][i - 1] == interfaces[i];
      assert forall i | 0 <= i < |interfaces[1..]| :: interfaces[1..][i] == interfaces[i + 1];
    }
  }

  lemma {:induction false} OneMatching(interfaces: seq<Interface>, subnet: Prefix)
    ensures |Matching(interfaces, subnet)| == 1 <==> exists i :: OnlyMatch(interfaces, subnet, i)
    ensures forall i | OnlyMatch(interfaces, subnet, i) :: Matching(interfaces, subnet) == [interfaces[i].name]
  {
    if interfaces != [] {
      var rest := interfaces[1..];
      OneMatching(rest, subnet);
      NoneMatching(rest, subnet);
      forall i | 0 <= i < |rest| && !MatchesSubnet(interfaces[0], subnet)
        ensures OnlyMatch(rest, subnet, i) <==> OnlyMatch(interfaces, subnet, i + 1)
      {
        LaterMatch(interfaces, subnet, i);
      }
      if MatchesSubnet(interfaces[0], subnet) {
        assert OnlyMatch(interfaces, subnet, 0) <==> Matching(rest, subnet) == [] by {
          assert forall j | 0 < j < |interfaces| :: rest[j - 1] == interfaces[j];
          assert forall j | 0 <= j < |rest| :: rest[j] == interfaces[j + 1];
        }
        assert forall i | OnlyMatch(interfaces, subnet, i) :: i == 0;
      } else {
        assert Matching(interfaces, subnet) == Matching(rest, subnet);
        forall i | OnlyMatch(interfaces, subnet, i) ensures OnlyMatch(rest, subnet, i - 1) && rest[i - 1] == interfaces[i] {
          LaterMatch(interfaces, subnet, i - 1);
        }
      }
    }
  }

  lemma LaterMatch(interfaces: seq<Interface>, subnet: Prefix, i: nat)
    requires interfaces != [] && i < |interfaces[1..]| && !MatchesSubnet(interfaces[0], subnet)
    ensures OnlyMatch(interfaces[1..], subnet, i) <==> OnlyMatch(interfaces, subnet, i + 1)
  {
    assert forall j | 0 < j < |interfaces| :: interfaces[1..][j - 1] == interfaces[j];
    assert forall j | 0 <= j < |interfaces[1..]| :: interfaces[1..][j] == interfaces[j + 1];
  }

  /** The named interface is active, is not the loopback and carries no protected address. */
  predicate UsableLink(i: Interface, name: Name, protected: seq<Prefix>) {
    i.name == name && i.state == Up && name != Lo && !AnyProtected(i, protected)
  }

  lemma {:induction false} FindMeans(interfaces: seq<Interface>, name: Name)
    requires NamesDistinct(interfaces)
    ensures forall i | 0 <= i < |interfaces| && interfaces[i].name == name :: Find(interfaces, name) == Some(interfaces[i])
    ensures Find(interfaces, name).Some? ==> exists i | 0 <= i < |interfaces| :: interfaces[i] == Find(interfaces, name).value && interfaces[i].name == name
  {
    if interfaces != [] {
      assert forall i | 0 <= i < |interfaces[1..]| :: interfaces[1..][i] == interfaces[i + 1];
      FindMeans(interfaces[1..], name);
      forall i | 0 <= i < |interfaces| && interfaces[i].name == name ensures Find(interfaces, name) == Some(interfaces[i]) {
        assert i > 0 ==> interfaces[1..][i - 1] == interfaces[i] && interfaces[0].name != interfaces[i].name;
      }
    }
  }

  /**
   * Where a route's traffic enters, or nothing if its source is unusable: a safe subnet enters by the one active
   * interface that carries an address of it, a named interface must be usable.
   */
  method ResolveIngress(source: Source, interfaces: seq<Interface>, protected: seq<Prefix>) returns (r: Option<Selector>)
    ensures r == ResolveSource(source, interfaces, protected)
    ensures source.SubnetSource? ==>
      (r.Some? <==> !Unsafe(source.subnet.addr) && !OverlapsAny(source.subnet, protected) && exists i :: OnlyMatch(interfaces, source.subnet, i))
    ensures source.SubnetSource? && r.Some? ==> forall i | OnlyMatch(interfaces, source.subnet, i) :: r.value == Selector(interfaces[i].name, Some(source.subnet))
    ensures source.InterfaceSource? && NamesDistinct(interfaces) ==>
      (r.Some? <==> exists i | 0 <= i < |interfaces| :: UsableLink(interfaces[i], source.name, protected))
    ensures source.InterfaceSource? && r.Some? ==> r.value == Selector(source.name, None)
  {
    if source.SubnetSource? {
      OneMatching(interfaces, source.subnet);
    } else if source.InterfaceSource? && NamesDistinct(interfaces) {
      FindMeans(interfaces, source.name);
    }
    match source {
      case OtherSource =>
        return None;
      case InterfaceSource(name) =>
        var found := Find(interfaces, name);
        if found.None? || found.value.state != Up || name == Lo || AnyProtected(found.value, protected) {
          return None;
        }
        return Some(Selector(name, None));
      case SubnetSource(subnet) =>
        if Unsafe(subnet.addr) || OverlapsAny(subnet, protected) {
          return None;
        }
        var matches := FindMatches(interfaces, subnet);
        if |matches| != 1 {
          return None;
        }
        return Some(Selector(matches[0], Some(subnet)));
    }
  }

  method CarriesSubnet(i: Interface, subnet: Prefix) returns (carries: bool)
    ensures carries == Carries(i, subnet)
  {
    for k := 0 to |i.addresses|
      invariant forall j | 0 <= j < k :: !Overlap(Masked(i.addresses[j]), subnet)
    {
      if Overlap(Masked(i.addresses[k]), subnet) {
        return true;
      }
    }
    return false;
  }

  lemma {:induction false} MatchingMeans(interfaces: seq<Interface>, subnet: Prefix, name: Name)
    ensures name in Matching(interfaces, subnet) <==>
            exists i | 0 <= i < |interfaces| :: interfaces[i].name == name && MatchesSubnet(interfaces[i], subnet)
  {
    if interfaces != [] {
      MatchingMeans(interfaces[1..], subnet, name);
      assert forall i | 0 <= i < |interfaces| - 1 :: interfaces[1..][i] == interfaces[i + 1];
      if i :| 0 <= i < |interfaces| && interfaces[i].name == name && MatchesSubnet(interfaces[i], subnet) {
        if i > 0 {
          assert interfaces[1..][i - 1] == interfaces[i];
        }
      }
    }
  }

  /**
   * Subnets that share an address enter by the same interface: the interface of the smaller one also carries an
   * address of the larger one, and a subnet is only accepted if a single interface does.
   */
  lemma OverlapForcesOneIngress(interfaces: seq<Interface>, protected: seq<Prefix>, s: Prefix, t: Prefix)
    requires Overlap(s, t)
    requires ResolveSource(SubnetSource(s), interfaces, protected).Some? && ResolveSource(SubnetSource(t), interfaces, protected).Some?
    ensures ResolveSource(SubnetSource(s), interfaces, protected).value.ingress == ResolveSource(SubnetSource(t), interfaces, protected).value.ingress
  {
    if t.bits <= s.bits {
      SmallerSharesIngress(interfaces, s, t);
    } else {
      SmallerSharesIngress(interfaces, t, s);
    }
  }

  lemma MatchWidens(i: Interface, inner: Prefix, outer: Prefix)
    requires Overlap(inner, outer) && outer.bits <= inner.bits && MatchesSubnet(i, inner)
    ensures MatchesSubnet(i, outer)
  {
    var k :| 0 <= k < |i.addresses| && Overlap(Masked(i.addresses[k]), inner);
    OverlapWidens(inner, outer, Masked(i.addresses[k]));
  }

  lemma OneName(a: seq<Name>, b: seq<Name>)
    requires |a| == 1 == |b| && a[0] in b
    ensures a == b
  {
  }

  lemma SmallerSharesIngress(interfaces: seq<Interface>, inner: Prefix, outer: Prefix)
    requires Overlap(inner, outer) && outer.bits <= inner.bits
    requires |Matching(interfaces, inner)| == 1 == |Matching(interfaces, outer)|
    ensures Matching(interfaces, inner) == Matching(interfaces, outer)
  {
    var name := Matching(interfaces, inner)[0];
    MatchingMeans(interfaces, inner, name);
    var i :| 0 <= i < |interfaces| && interfaces[i].name == name && MatchesSubnet(interfaces[i], inner);
    MatchWidens(interfaces[i], inner, outer);
    MatchingMeans(interfaces, outer, name);
    OneName(Matching(interfaces, inner), Matching(interfaces, outer));
  }

  // ---------------------------------------------------------------- which outbound carries it

  datatype Outbound = Outbound(adapter: Adapter, enabled: bool, health: Health, endpoints: seq<Addr>)

  predicate Before(a: Addr, b: Addr) {
    if a.family != b.family then a.family == V4 else a.value < b.value
  }

  /** Into a sorted list without duplicates. */
  function InsertAddress(a: Addr, sorted: seq<Addr>): seq<Addr> {
    if sorted == [] then [a]
    else if sorted[0] == a then sorted
    else if Before(a, sorted[0]) then [a] + sorted
    else [sorted[0]] + InsertAddress(a, sorted[1..])
  }

  function NormalizeAddresses(addresses: seq<Addr>): seq<Addr> {
    if addresses == [] then [] else InsertAddress(addresses[0], NormalizeAddresses(addresses[1..]))
  }

  predicate SortedAddresses(s: seq<Addr>) {
    forall i, j | 0 <= i < j < |s| :: Before(s[i], s[j])
  }

  lemma {:induction false} InsertAddressKeeps(a: Addr, sorted: seq<Addr>)
    requires SortedAddresses(sorted)
    ensures SortedAddresses(InsertAddress(a, sorted)) && |InsertAddress(a, sorted)| <= |sorted| + 1
    ensures forall b :: b in InsertAddress(a, sorted) <==> b == a || b in sorted
  {
    if sorted != [] && sorted[0] != a && !Before(a, sorted[0]) {
      InsertAddressKeeps(a, sorted[1..]);
      var rest := InsertAddress(a, sorted[1..]);
      assert forall b :: b in sorted <==> b == sorted[0] || b in sorted[1..];
      forall i | 0 <= i < |rest| ensures Before(sorted[0], rest[i]) {
        assert rest[i] in rest;
      }
    }
  }

  /** Normalizing keeps the addresses and loses only repetitions. */
  lemma {:induction false} NormalizeAddressesMeaning(addresses: seq<Addr>)
    ensures SortedAddresses(NormalizeAddresses(addresses)) && |NormalizeAddresses(addresses)| <= |addresses|
    ensures forall b :: b in NormalizeAddresses(addresses) <==> b in addresses
  {
    if addresses != [] {
      NormalizeAddressesMeaning(addresses[1..]);
      InsertAddressKeeps(addresses[0], NormalizeAddresses(addresses[1..]));
      assert forall b :: b in addresses <==> b == addresses[0] || b in addresses[1..];
    }
  }

  function EndpointAddresses(o: Outbound): Option<seq<Addr>> {
    if |o.endpoints| == 0 || |o.endpoints| > 16 || exists i | 0 <= i < |o.endpoints| :: Unsafe(o.endpoints[i]) then None
    else Some(NormalizeAddresses(o.endpoints))
  }

  /** What a route's outbounds decide: the adapter, the addresses that bypass the tunnel, and the outbound selected now. */
  datatype Choice = Choice(adapter: Adapter, bypass: seq<Addr>, selected: Option<nat>, useDirect: bool)

  function FallbackAddresses(p: Policy, adapter: Adapter, outbounds: map<nat, Outbound>): Option<seq<Addr>> {
    if p.failure != FailOver then Some([])
    else if p.fallback.None? || p.fallback.value !in outbounds then None
    else
      var o := outbounds[p.fallback.value];
      if !o.enabled || o.adapter != adapter then None else EndpointAddresses(o)
  }

  function Choose(p: Policy, outbounds: map<nat, Outbound>): Option<Choice> {
    if p.outbound !in outbounds || !outbounds[p.outbound].enabled then None
    else
      var primary := outbounds[p.outbound];
      if primary.adapter == OtherAdapter || (primary.adapter == NativeAdapter && p.failure == FailDirect) then None
      else
        var own, other := EndpointAddresses(primary), FallbackAddresses(p, primary.adapter, outbounds);
        if own.None? || other.None? then None
        else
          var bypass := NormalizeAddresses(own.value + other.value);
          if primary.health != Unhealthy then Some(Choice(primary.adapter, bypass, Some(p.outbound), false))
          else if p.failure == FailDirect then Some(Choice(primary.adapter, bypass, None, true))
          else if p.failure == FailOver && outbounds[p.fallback.value].health == OtherHealth then Some(Choice(primary.adapter, bypass, p.fallback, false))
          else Some(Choice(primary.adapter, bypass, Some(p.outbound), false))
  }

  lemma SortedIsDistinct(s: seq<Addr>)
    requires SortedAddresses(s)
    ensures Distinct(s)
  {
  }

  lemma EndpointsAreSafe(o: Outbound)
    requires EndpointAddresses(o).Some?
    ensures 1 <= |EndpointAddresses(o).value| <= 16
    ensures forall a | a in EndpointAddresses(o).value :: !Unsafe(a)
  {
    NormalizeAddressesMeaning(o.endpoints);
    assert o.endpoints[0] in EndpointAddresses(o).value;
  }

  /** Whatever is chosen, the bypass set is one the reader of the owned state accepts. */
  lemma ChoiceBypassIsValid(p: Policy, outbounds: map<nat, Outbound>)
    requires Choose(p, outbounds).Some?
    ensures ValidBypass(Choose(p, outbounds).value.bypass)
  {
    var primary := outbounds[p.outbound];
    var own, other := EndpointAddresses(primary).value, FallbackAddresses(p, primary.adapter, outbounds).value;
    EndpointsAreSafe(primary);
    if p.failure == FailOver {
      EndpointsAreSafe(outbounds[p.fallback.value]);
    }
    var bypass := NormalizeAddresses(own + other);
    NormalizeAddressesMeaning(own + other);
    SortedIsDistinct(bypass);
    assert own[0] in bypass;
    forall i | 0 <= i < |bypass| ensures !Unsafe(bypass[i]) {
      assert bypass[i] in bypass;
    }
  }
}
