/** Listening sockets of the host and the clash test between them and requested bindings. */
module Inventory {
  import opened Wrappers
  import opened Prefixes
  import opened Ports

  datatype Protocol = Tcp | Udp

  /** A bind address as text: one of the three wildcard spellings, an address, or neither. */
  datatype BindAddress = Wildcard | Host(addr: Addr) | Unparsed

  /** A protocol name other than tcp and udp is `None`. */
  datatype Binding = Binding(protocol: Option<Protocol>, address: BindAddress, port: Port)

  datatype Listener = Listener(protocol: Option<Protocol>, address: BindAddress, port: Port)

  datatype Conflict = Conflict(requested: Binding, existing: Listener)

  /**
   * The destinations a socket bound to an address gets packets for: all, that one, or, for text that is no address, an
   * unknown one.
   */
  predicate Receives(b: BindAddress, dst: Addr, unknown: Addr) {
    match b
    case Wildcard => true
    case Host(a) => dst == a
    case Unparsed => dst == unknown
  }

  ghost predicate SharesIn(first: BindAddress, second: BindAddress, u: Addr, v: Addr) {
    exists dst :: Receives(first, dst, u) && Receives(second, dst, v)
  }

  /** Some packet is for both, whatever addresses are meant by text that is none. */
  ghost predicate ShareDestination(first: BindAddress, second: BindAddress) {
    forall u, v :: SharesIn(first, second, u, v)
  }

  predicate AddressesOverlap(first: BindAddress, second: BindAddress): (overlap: bool)
    ensures overlap <==> ShareDestination(first, second)
  {
    OverlapIsSharing(first, second);
    first == Wildcard || second == Wildcard || (first.Host? && first == second)
  }

  lemma OverlapIsSharing(first: BindAddress, second: BindAddress)
    ensures first == Wildcard || second == Wildcard || (first.Host? && first == second) <==> ShareDestination(first, second)
  {
    var one, other := Addr(V4, 1), Addr(V4, 2);
    if first == Wildcard || second == Wildcard || (first.Host? && first == second) {
      forall u, v ensures SharesIn(first, second, u, v) {
        var dst := if first.Host? then first.addr else if second.Host? then second.addr else if first.Unparsed? then u else v;
        assert Receives(first, dst, u) && Receives(second, dst, v);
      }
    } else {
      var u := if second.Host? && second.addr == one then other else one;
      var v := if first.Host? && first.addr == other then one else if first.Unparsed? && u == other then one else other;
      assert !SharesIn(first, second, u, v);
    }
  }

  predicate ValidBinding(b: Binding) {
    b.protocol.Some? && b.port != 0 && b.address != Unparsed
  }

  /** Some packet is for both the requested socket and the listening one. */
  ghost predicate Clash(b: Binding, l: Listener) {
    l.protocol == b.protocol && l.port == b.port && ShareDestination(b.address, l.address)
  }

  function ProtocolRank(p: Option<Protocol>): nat {
    if p == Some(Tcp) then 0 else 1
  }

  predicate Ordered(a: Conflict, b: Conflict) {
    || a.requested.port < b.requested.port
    || (a.requested.port == b.requested.port && ProtocolRank(a.requested.protocol) <= ProtocolRank(b.requested.protocol))
  }

  predicate SortedConflicts(cs: seq<Conflict>) {
    forall i, j | 0 <= i < j < |cs| :: Ordered(cs[i], cs[j])
  }

  method InsertConflict(cs: seq<Conflict>, c: Conflict) returns (r: seq<Conflict>)
    requires SortedConflicts(cs)
    ensures SortedConflicts(r)
    ensures forall x :: x in r <==> x in cs || x == c
    ensures |r| == |cs| + 1
  {
    var k := |cs|;
    while k > 0 && !Ordered(cs[k - 1], c)
      invariant 0 <= k <= |cs|
      invariant forall j | k <= j < |cs| :: Ordered(c, cs[j])
    {
      k := k - 1;
    }
    r := cs[..k] + [c] + cs[k..];
    InsertedMembers(cs, k, c);
  }

  lemma InsertedMembers(cs: seq<Conflict>, k: nat, c: Conflict)
    requires k <= |cs|
    ensures forall x :: x in cs[..k] + [c] + cs[k..] <==> x in cs || x == c
  {
    assert cs == cs[..k] + cs[k..];
  }

  /** By port, and at one port those for TCP before those for UDP. */
  predicate TcpFirst(cs: seq<Conflict>) {
    forall i, j | 0 <= i < j < |cs| ::
      && cs[i].requested.port <= cs[j].requested.port
      && (cs[i].requested.port == cs[j].requested.port && cs[j].requested.protocol == Some(Tcp) ==> cs[i].requested.protocol == Some(Tcp))
  }

  /** Every requested binding against every listener; an unusable binding is an error, not a conflict. */
  method DetectConflicts(requested: seq<Binding>, listeners: seq<Listener>) returns (r: Result<seq<Conflict>, Binding>)
    ensures r.Ok? <==> forall b | b in requested :: ValidBinding(b)
    ensures r.Err? ==> r.error in requested && !ValidBinding(r.error)
    ensures r.Ok? ==> SortedConflicts(r.value) && TcpFirst(r.value)
    ensures r.Ok? ==> forall c :: c in r.value <==> c.requested in requested && c.existing in listeners && Clash(c.requested, c.existing)
  {
    var conflicts: seq<Conflict> := [];
    for i := 0 to |requested|
      invariant forall b | b in requested[..i] :: ValidBinding(b)
      invariant SortedConflicts(conflicts)
      invariant forall c :: c in conflicts <==> c.requested in requested[..i] && c.existing in listeners && Clash(c.requested, c.existing)
    {
      var b := requested[i];
      if !ValidBinding(b) {
        return Err(b);
      }
      ghost var before := conflicts;
      for j := 0 to |listeners|
        invariant SortedConflicts(conflicts)
        invariant forall c :: c in conflicts <==> c in before || (c.requested == b && c.existing in listeners[..j] && Clash(b, c.existing))
      {
        assert listeners[..j + 1] == listeners[..j] + [listeners[j]];
        if listeners[j].protocol == b.protocol && listeners[j].port == b.port && AddressesOverlap(b.address, listeners[j].address) {
          conflicts := InsertConflict(conflicts, Conflict(b, listeners[j]));
        }
      }
      assert listeners[..|listeners|] == listeners;
      assert requested[..i + 1] == requested[..i] + [b];
    }
    assert requested[..|requested|] == requested;
    return Ok(conflicts);
  }
}
