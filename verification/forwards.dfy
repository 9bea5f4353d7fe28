/** Port forwards: validation, normalisation, and the conflict and safety planner. */
module Forwards {
  import opened Wrappers
  import opened Ports
  import opened Prefixes
  import opened Inventory

  const MAXIMUM_FORWARDS := 16
  const MAXIMUM_PORT_RANGES := 64
  const MAXIMUM_SOURCE_CIDRS := 64

  /** A forward as stored. Exactly one of `listenPorts` and `except` is used; `remoteStart == 0` means no remapping. */
  datatype Forward = Forward(
    id: nat, protocols: seq<Protocol>, listen: Addr, listenPorts: seq<PortRange>, except: seq<PortRange>,
    remote: Addr, remoteStart: Port, sources: seq<Prefix>, enabled: bool)

  predicate ValidShape(f: Forward) {
    && f.protocols != []
    && (forall i, j | 0 <= i < j < |f.protocols| :: f.protocols[i] != f.protocols[j])
    && f.listen.value != 0 && f.remote.value != 0 && f.listen.family == f.remote.family
    && (f.listenPorts != [] <==> f.except == [])
    && Ports.AllValid(f.listenPorts) && Ports.AllValid(f.except)
    && (f.remoteStart != 0 ==> |f.listenPorts| == 1 && f.remoteStart + (f.listenPorts[0].to - f.listenPorts[0].from) <= MAX_PORT)
    && (forall p | p in f.sources :: Canonical(p) && p.addr.family == f.listen.family)
  }

  predicate ValidForward(f: Forward) {
    && ValidShape(f)
    && |f.listenPorts| <= MAXIMUM_PORT_RANGES && |f.except| <= MAXIMUM_PORT_RANGES && |f.sources| <= MAXIMUM_SOURCE_CIDRS
  }

  /** A valid forward whose port lists are canonical. */
  predicate Prepared(f: Forward) {
    ValidShape(f) && Normal(f.listenPorts) && Normal(f.except)
  }

  predicate MatchesPort(f: Forward, port: int) {
    if f.listenPorts != [] then RangesContain(f.listenPorts, port) else !RangesContain(f.except, port)
  }

  predicate SourceAllowed(f: Forward, src: Addr) {
    f.sources == [] || AnyContains(f.sources, src)
  }

  /** The packets a forward is configured for. */
  predicate Captures(f: Forward, src: Addr, dst: Addr, protocol: Protocol, port: int) {
    f.enabled && f.listen == dst && protocol in f.protocols && MatchesPort(f, port) && SourceAllowed(f, src)
  }

  /** Some packet is configured for both. */
  ghost predicate Conflicting(f: Forward, g: Forward) {
    exists src: Addr, protocol: Protocol, port: int | 1 <= port <= MAX_PORT ::
      Captures(f, src, f.listen, protocol, port) && Captures(g, src, f.listen, protocol, port)
  }

  datatype SafetyPolicy = SafetyPolicy(sshPorts: seq<Port>, panelPort: Port, protectedPrefixes: seq<Prefix>) {
    function ProtectedPorts(): seq<Port> {
      sshPorts + [panelPort]
    }

    predicate Valid() {
      && sshPorts != []
      && (forall p | p in ProtectedPorts() :: p != 0)
      && (forall i, j | 0 <= i < j < |ProtectedPorts()| :: ProtectedPorts()[i] != ProtectedPorts()[j])
      && (forall i | 0 <= i < |protectedPrefixes| :: Canonical(protectedPrefixes[i]))
    }
  }

  /** A listener that this enabled forward would take traffic from, or that cannot be compared with it. */
  ghost predicate Disturbs(f: Forward, l: Listener) {
    && MatchesPort(f, l.port)
    && l.protocol.Some? && l.protocol.value in f.protocols
    && (l.port == 0 || ShareDestination(Host(f.listen), l.address))
  }

  ghost predicate Safe(f: Forward, listeners: seq<Listener>, policy: SafetyPolicy) {
    && !Loopback(f.listen) && !Loopback(f.remote)
    && (forall i | 0 <= i < |policy.protectedPrefixes| :: !policy.protectedPrefixes[i].Contains(f.listen))
    && (forall port | port in policy.ProtectedPorts() :: !MatchesPort(f, port))
    && (f.enabled ==> forall l | l in listeners :: !Disturbs(f, l))
  }

  datatype PlanError = InvalidPolicy | TooManyForwards | InvalidForward(id: nat) | Unsafe(id: nat) | OverlapOn(first: nat, second: nat, port: Port)

  // ---------------------------------------------------------------- normalisation

  /** Everything but the spelling of the port lists and the order of the protocols is kept. */
  ghost predicate SameMeaning(f: Forward, g: Forward) {
    && g == f.(protocols := g.protocols, listenPorts := g.listenPorts, except := g.except)
    && (forall protocol :: protocol in f.protocols <==> protocol in g.protocols)
    && (forall port: int :: RangesContain(f.listenPorts, port) <==> RangesContain(g.listenPorts, port))
    && (forall port: int :: RangesContain(f.except, port) <==> RangesContain(g.except, port))
    && (f.listenPorts == [] <==> g.listenPorts == [])
    && (f.remoteStart != 0 ==> g.listenPorts == f.listenPorts)
  }

  method NormalizeForward(f: Forward) returns (g: Forward)
    requires ValidForward(f)
    ensures Prepared(g) && SameMeaning(f, g)
    ensures forall i, j | 0 <= i < j < |g.protocols| :: g.protocols[i] == Tcp && g.protocols[j] == Udp
  {
    var listenPorts := NormalizeRanges(f.listenPorts);
    var except := NormalizeRanges(f.except);
    if f.remoteStart != 0 {
      NormalIsCanonical(f.listenPorts, listenPorts);
    }
    var protocols := (if Tcp in f.protocols then [Tcp] else []) + (if Udp in f.protocols then [Udp] else []);
    assert Tcp in f.protocols || Udp in f.protocols by {
      assert f.protocols[0] in f.protocols && (f.protocols[0].Tcp? || f.protocols[0].Udp?);
    }
    g := f.(protocols := protocols, listenPorts := listenPorts, except := except);
    StillValid(f, g);
  }

  lemma StillValid(f: Forward, g: Forward)
    requires ValidShape(f) && SameMeaning(f, g)
    requires Normal(g.listenPorts) && Normal(g.except) && (f.except == [] <==> g.except == [])
    requires g.protocols != [] && forall i, j | 0 <= i < j < |g.protocols| :: g.protocols[i] != g.protocols[j]
    ensures Prepared(g)
  {
  }

  lemma MeaningKept(f: Forward, g: Forward)
    requires SameMeaning(f, g)
    ensures forall port: int :: MatchesPort(f, port) <==> MatchesPort(g, port)
    ensures forall src: Addr, dst: Addr, protocol, port: int :: Captures(f, src, dst, protocol, port) <==> Captures(g, src, dst, protocol, port)
  {
  }

  // ---------------------------------------------------------------- the ports a forward allows

  function AllowedRanges(f: Forward): seq<PortRange> {
    if f.listenPorts != [] then f.listenPorts else Complement(1, f.except)
  }

  /** Both port modes: the allowed ranges are canonical and hold exactly the matching ports from 1. */
  lemma AllowedRangesAreMatchingPorts(f: Forward)
    requires Prepared(f)
    ensures Normal(AllowedRanges(f))
    ensures forall port: int :: RangesContain(AllowedRanges(f), port) <==> 1 <= port <= MAX_PORT && MatchesPort(f, port)
  {
    if f.listenPorts == [] {
      ComplementMeaning(f.except);
    }
  }

  /** For a prepared forward the result is canonical and holds exactly the ports from 1 on that the port test accepts. */
  method ComputeAllowedRanges(f: Forward) returns (allowed: seq<PortRange>)
    ensures allowed == AllowedRanges(f)
    ensures Prepared(f) ==> Normal(allowed) && forall port: int :: RangesContain(allowed, port) <==> 1 <= port <= MAX_PORT && MatchesPort(f, port)
  {
    if Prepared(f) {
      AllowedRangesAreMatchingPorts(f);
    }
    if |f.listenPorts| > 0 {
      return f.listenPorts;
    }
    allowed := ComplementLoop(f.except);
  }

  // ---------------------------------------------------------------- the planner's tests

  method RangesOverlap(first: seq<PortRange>, second: seq<PortRange>) returns (r: Option<Port>)
    requires Ports.AllValid(first) && Ports.AllValid(second)
    ensures r.Some? ==> RangesContain(first, r.value) && RangesContain(second, r.value)
    ensures r.None? ==> forall p: int :: !(RangesContain(first, p) && RangesContain(second, p))
  {
    for i := 0 to |first|
      invariant forall k, j | 0 <= k < i && 0 <= j < |second| :: first[k].to < second[j].from || second[j].to < first[k].from
    {
      for j := 0 to |second|
        invariant forall m | 0 <= m < j :: first[i].to < second[m].from || second[m].to < first[i].from
      {
        var start := if second[j].from > first[i].from then second[j].from else first[i].from;
        assert first[i] in first && second[j] in second;
        if start <= first[i].to && start <= second[j].to {
          assert first[i].Contains(start) && second[j].Contains(start);
          return Some(start);
        }
      }
    }
    return None;
  }

  predicate ProtocolsOverlap(first: seq<Protocol>, second: seq<Protocol>) {
    exists p | p in first :: p in second
  }

  predicate SourcesOverlap(first: seq<Prefix>, second: seq<Prefix>) {
    first == [] || second == [] || exists l, r | l in first && r in second :: l.Contains(r.addr) || r.Contains(l.addr)
  }

  /** The source test of the planner decides whether some address satisfies both source lists. */
  lemma SourcesOverlapIffShared(f: Forward, g: Forward)
    requires ValidShape(f) && ValidShape(g) && f.listen == g.listen
    ensures SourcesOverlap(f.sources, g.sources) <==> exists src: Addr :: SourceAllowed(f, src) && SourceAllowed(g, src)
  {
    if SourcesOverlap(f.sources, g.sources) {
      var src :=
        if f.sources == [] && g.sources == [] then f.listen
        else if f.sources == [] then g.sources[0].addr
        else if g.sources == [] then f.sources[0].addr
        else
          var l, r :| l in f.sources && r in g.sources && (l.Contains(r.addr) || r.Contains(l.addr));
          if l.Contains(r.addr) then r.addr else l.addr;
      if f.sources != [] && g.sources != [] {
        var l, r :| l in f.sources && r in g.sources && (l.Contains(r.addr) || r.Contains(l.addr));
        var a := if l.Contains(r.addr) then r.addr else l.addr;
        assert l.Contains(a) && r.Contains(a);
        assert SourceAllowed(f, a) && SourceAllowed(g, a);
      } else {
        assert f.sources != [] ==> f.sources[0] in f.sources && f.sources[0].Contains(f.sources[0].addr);
        assert g.sources != [] ==> g.sources[0] in g.sources && g.sources[0].Contains(g.sources[0].addr);
        assert SourceAllowed(f, src) && SourceAllowed(g, src);
      }
    }
    if src: Addr :| SourceAllowed(f, src) && SourceAllowed(g, src) {
      if f.sources != [] && g.sources != [] {
        var l :| l in f.sources && l.Contains(src);
        var r :| r in g.sources && r.Contains(src);
        OverlapIffShared(l, r);
      }
    }
  }

  method EnforceSafety(f: Forward, listeners: seq<Listener>, policy: SafetyPolicy) returns (ok: bool)
    requires Prepared(f) && policy.Valid()
    ensures ok <==> Safe(f, listeners, policy)
  {
    if Loopback(f.listen) || Loopback(f.remote) {
      return false;
    }
    for i := 0 to |policy.protectedPrefixes|
      invariant forall k | 0 <= k < i :: !policy.protectedPrefixes[k].Contains(f.listen)
    {
      if policy.protectedPrefixes[i].Contains(f.listen) {
        return false;
      }
    }
    var ports := policy.ProtectedPorts();
    for i := 0 to |ports|
      invariant forall k | 0 <= k < i :: !MatchesPort(f, ports[k])
    {
      if MatchesPort(f, ports[i]) {
        assert ports[i] in policy.ProtectedPorts();
        return false;
      }
      if |f.except| > 0 && !RangesContain(f.except, ports[i]) {
        assert false;
      }
    }
    if !f.enabled {
      return true;
    }
    for i := 0 to |listeners|
      invariant forall k | 0 <= k < i :: !Disturbs(f, listeners[k])
    {
      var l := listeners[i];
      if !MatchesPort(f, l.port) {
        continue;
      }
      for j := 0 to |f.protocols|
        invariant forall k | 0 <= k < j && l.protocol == Some(f.protocols[k]) :: l.port != 0 && !ShareDestination(Host(f.listen), l.address)
      {
        if l.protocol != Some(f.protocols[j]) {
          continue;
        }
        var b := Binding(Some(f.protocols[j]), Host(f.listen), l.port);
        var conflicts := DetectConflicts([b], [l]);
        assert b in [b] && l in [l];
        assert conflicts.Ok? ==> (Conflict(b, l) in conflicts.value <==> Clash(b, l));
        if conflicts.Err? || |conflicts.value| > 0 {
          assert conflicts.Ok? ==> conflicts.value[0] in conflicts.value;
          assert Disturbs(f, l);
          return false;
        }
      }
    }
    return true;
  }

  /** Pairwise comparison of the enabled forwards; an error names a port both of them capture. */
  method RejectDuplicates(fs: seq<Forward>) returns (r: Option<PlanError>)
    requires forall i | 0 <= i < |fs| :: Prepared(fs[i])
    ensures r.None? <==> forall i, j | 0 <= i < j < |fs| :: !Conflicting(fs[i], fs[j])
  {
    for i := 0 to |fs|
      invariant forall a, b | 0 <= a < i && a < b < |fs| :: !Conflicting(fs[a], fs[b])
    {
      var first := fs[i];
      if !first.enabled {
        continue;
      }
      for j := i + 1 to |fs|
        invariant forall b | i < b < j :: !Conflicting(first, fs[b])
      {
        var second := fs[j];
        if second.enabled && first.listen == second.listen {
          SourcesOverlapIffShared(first, second);
        }
        if !second.enabled || first.listen != second.listen || !SourcesOverlap(first.sources, second.sources) || !ProtocolsOverlap(first.protocols, second.protocols) {
          continue;
        }
        var a := ComputeAllowedRanges(first);
        var b := ComputeAllowedRanges(second);
        var overlap := RangesOverlap(a, b);
        if overlap.Some? {
          ghost var src: Addr :| SourceAllowed(first, src) && SourceAllowed(second, src);
          ghost var protocol :| protocol in first.protocols && protocol in second.protocols;
          assert Captures(first, src, first.listen, protocol, overlap.value);
          assert Captures(second, src, first.listen, protocol, overlap.value);
          assert Conflicting(first, second);
          return Some(OverlapOn(first.id, second.id, overlap.value));
        }
      }
    }
    return None;
  }

  // ---------------------------------------------------------------- prepareForwards

  ghost predicate PairwiseFree(fs: seq<Forward>) {
    forall i, j | 0 <= i < |fs| && 0 <= j < |fs| && i != j :: !Conflicting(fs[i], fs[j])
  }

  predicate SortedById(fs: seq<Forward>) {
    forall i, j | 0 <= i < j < |fs| :: fs[i].id <= fs[j].id
  }

  method InsertById(fs: seq<Forward>, f: Forward) returns (r: seq<Forward>)
    requires SortedById(fs) && PairwiseFree(fs)
    requires forall i | 0 <= i < |fs| :: !Conflicting(fs[i], f) && !Conflicting(f, fs[i])
    ensures SortedById(r) && PairwiseFree(r) && |r| == |fs| + 1
    ensures forall g :: g in r <==> g in fs || g == f
  {
    var k := |fs|;
    while k > 0 && fs[k - 1].id > f.id
      invariant 0 <= k <= |fs|
      invariant forall j | k <= j < |fs| :: f.id <= fs[j].id
    {
      k := k - 1;
    }
    InsertKeepsPairs(fs, f, k);
    r := fs[..k] + [f] + fs[k..];
  }

  /** The library sort by identifier, which keeps the pairwise property of the list. */
  method SortById(input: seq<Forward>) returns (sorted: seq<Forward>)
    requires PairwiseFree(input)
    ensures SortedById(sorted) && PairwiseFree(sorted) && |sorted| == |input|
    ensures forall f :: f in sorted <==> f in input
  {
    sorted := [];
    for n := 0 to |input|
      invariant SortedById(sorted) && PairwiseFree(sorted) && |sorted| == n
      invariant forall f :: f in sorted <==> f in input[..n]
    {
      forall i | 0 <= i < |sorted| ensures !Conflicting(sorted[i], input[n]) && !Conflicting(input[n], sorted[i]) {
        assert sorted[i] in input[..n];
        var m :| 0 <= m < n && sorted[i] == input[m];
      }
      sorted := InsertById(sorted, input[n]);
      assert input[..n + 1] == input[..n] + [input[n]];
    }
    assert input[..|input|] == input;
  }

  lemma InsertKeepsPairs(fs: seq<Forward>, f: Forward, k: nat)
    requires k <= |fs|
    requires PairwiseFree(fs)
    requires forall i | 0 <= i < |fs| :: !Conflicting(fs[i], f) && !Conflicting(f, fs[i])
    ensures var r := fs[..k] + [f] + fs[k..];
      && (forall g :: g in r <==> g in fs || g == f)
      && PairwiseFree(r)
  {
    var r := fs[..k] + [f] + fs[k..];
    assert fs == fs[..k] + fs[k..];
    forall g ensures g in r <==> g in fs || g == f {}
    forall i, j | 0 <= i < |r| && 0 <= j < |r| && i != j ensures !Conflicting(r[i], r[j]) {
      if i != k && j != k {
        var a, b := if i < k then i else i - 1, if j < k then j else j - 1;
        assert r[i] == fs[a] && r[j] == fs[b];
      }
    }
  }

  function OfFamily(family: Family, fs: seq<Forward>): seq<Forward> {
    if fs == [] then []
    else if fs[0].listen.family == family then [fs[0]] + OfFamily(family, fs[1..])
    else OfFamily(family, fs[1..])
  }

  /** When the planner accepts: every condition is about what the forwards mean, not how they are spelled. */
  ghost predicate Acceptable(family: Family, desired: seq<Forward>, listeners: seq<Listener>, policy: SafetyPolicy) {
    && policy.Valid()
    && |desired| <= MAXIMUM_FORWARDS
    && (forall f | f in desired :: ValidForward(f))
    && (forall f | f in OfFamily(family, desired) :: Safe(f, listeners, policy))
    && (forall i, j | 0 <= i < j < |OfFamily(family, desired)| ::
          !Conflicting(OfFamily(family, desired)[i], OfFamily(family, desired)[j]))
  }

  lemma {:induction false} OfFamilyAppend(family: Family, fs: seq<Forward>, f: Forward)
    ensures OfFamily(family, fs + [f]) == OfFamily(family, fs) + if f.listen.family == family then [f] else []
    decreases |fs|
  {
    if fs == [] {
      assert fs + [f] == [f];
    } else {
      assert (fs + [f])[1..] == fs[1..] + [f];
      OfFamilyAppend(family, fs[1..], f);
    }
  }

  lemma {:induction false} OfFamilyMembers(family: Family, fs: seq<Forward>)
    ensures forall f :: f in OfFamily(family, fs) <==> f in fs && f.listen.family == family
  {
    if fs != [] {
      OfFamilyMembers(family, fs[1..]);
      assert fs == [fs[0]] + fs[1..];
    }
  }

  lemma SafeKept(f: Forward, g: Forward, listeners: seq<Listener>, policy: SafetyPolicy)
    requires SameMeaning(f, g)
    ensures Safe(f, listeners, policy) <==> Safe(g, listeners, policy)
  {
    MeaningKept(f, g);
    forall l ensures Disturbs(f, l) <==> Disturbs(g, l) {}
  }

  lemma ConflictKept(f: Forward, f': Forward, g: Forward, g': Forward)
    requires SameMeaning(f, f') && SameMeaning(g, g')
    ensures Conflicting(f, g) <==> Conflicting(f', g')
  {
    MeaningKept(f, f');
    MeaningKept(g, g');
  }

  lemma ConflictSymmetric(f: Forward, g: Forward)
    ensures Conflicting(f, g) ==> Conflicting(g, f)
  {
    if Conflicting(f, g) {
      var src: Addr, protocol: Protocol, port: int :| 1 <= port <= MAX_PORT
        && Captures(f, src, f.listen, protocol, port) && Captures(g, src, f.listen, protocol, port);
      assert Captures(g, src, g.listen, protocol, port) && Captures(f, src, g.listen, protocol, port);
    }
  }

  /** Position by position, the prepared form of each forward. */
  ghost predicate PreparedFrom(original: seq<Forward>, normalized: seq<Forward>) {
    && |normalized| == |original|
    && forall i | 0 <= i < |original| :: Prepared(normalized[i]) && SameMeaning(original[i], normalized[i])
  }

  /** The first loop of the planner: validate everything, then normalise and vet this family's forwards. */
  method NormalizeFamily(family: Family, desired: seq<Forward>, listeners: seq<Listener>, policy: SafetyPolicy)
    returns (r: Result<seq<Forward>, PlanError>)
    requires policy.Valid()
    ensures r.Ok? <==>
      && (forall f | f in desired :: ValidForward(f))
      && (forall f | f in OfFamily(family, desired) :: Safe(f, listeners, policy))
    ensures r.Ok? ==> PreparedFrom(OfFamily(family, desired), r.value)
  {
    var normalized: seq<Forward> := [];
    OfFamilyMembers(family, desired);
    for n := 0 to |desired|
      invariant forall f | f in desired[..n] :: ValidForward(f)
      invariant PreparedFrom(OfFamily(family, desired[..n]), normalized)
      invariant forall f | f in OfFamily(family, desired[..n]) :: Safe(f, listeners, policy)
    {
      assert desired[..n + 1] == desired[..n] + [desired[n]];
      OfFamilyAppend(family, desired[..n], desired[n]);
      if !ValidForward(desired[n]) {
        return Err(InvalidForward(desired[n].id));
      }
      if desired[n].listen.family != family {
        continue;
      }
      var g := NormalizeForward(desired[n]);
      SafeKept(desired[n], g, listeners, policy);
      var safe := EnforceSafety(g, listeners, policy);
      if !safe {
        assert desired[n] in OfFamily(family, desired);
        return Err(Unsafe(g.id));
      }
      normalized := normalized + [g];
    }
    assert desired[..|desired|] == desired;
    return Ok(normalized);
  }

  /** What the planner returns: the prepared forms of exactly this family's forwards, in identifier order. */
  ghost predicate IsPlan(family: Family, desired: seq<Forward>, plan: seq<Forward>) {
    && |plan| == |OfFamily(family, desired)|
    && SortedById(plan)
    && (forall f | f in OfFamily(family, desired) :: exists g | g in plan :: SameMeaning(f, g))
    && (forall g | g in plan :: Prepared(g) && exists f | f in OfFamily(family, desired) :: SameMeaning(f, g))
  }

  lemma SortedIsPlan(family: Family, desired: seq<Forward>, normalized: seq<Forward>, sorted: seq<Forward>)
    requires PreparedFrom(OfFamily(family, desired), normalized)
    requires |sorted| == |normalized| && forall f :: f in sorted <==> f in normalized
    requires SortedById(sorted)
    ensures IsPlan(family, desired, sorted)
  {
    var mine := OfFamily(family, desired);
    forall f | f in mine ensures exists g | g in sorted :: SameMeaning(f, g) {
      var i :| 0 <= i < |mine| && mine[i] == f;
      assert normalized[i] in sorted;
    }
    forall g | g in sorted ensures Prepared(g) && exists f | f in mine :: SameMeaning(f, g) {
      var i :| 0 <= i < |normalized| && normalized[i] == g;
      assert mine[i] in mine;
    }
  }

  /** Acceptance depends only on what the desired forwards mean; an accepted plan claims no packet twice. */
  method PrepareForwards(family: Family, desired: seq<Forward>, listeners: seq<Listener>, policy: SafetyPolicy)
    returns (r: Result<seq<Forward>, PlanError>)
    ensures r.Ok? <==> Acceptable(family, desired, listeners, policy)
    ensures r.Ok? ==> IsPlan(family, desired, r.value) && PairwiseFree(r.value)
  {
    if !policy.Valid() {
      return Err(InvalidPolicy);
    }
    if |desired| > MAXIMUM_FORWARDS {
      return Err(TooManyForwards);
    }
    ghost var mine := OfFamily(family, desired);
    var prepared := NormalizeFamily(family, desired, listeners, policy);
    if prepared.Err? {
      return Err(prepared.error);
    }
    var normalized := prepared.value;
    var duplicate := RejectDuplicates(normalized);
    forall i, j | 0 <= i < j < |normalized|
      ensures Conflicting(normalized[i], normalized[j]) <==> Conflicting(mine[i], mine[j])
    {
      ConflictKept(mine[i], normalized[i], mine[j], normalized[j]);
    }
    if duplicate.Some? {
      return Err(duplicate.value);
    }
    forall i, j | 0 <= i < |normalized| && 0 <= j < |normalized| && i != j
      ensures !Conflicting(normalized[i], normalized[j])
    {
      ConflictSymmetric(normalized[i], normalized[j]);
    }
    var sorted := SortById(normalized);
    SortedIsPlan(family, desired, normalized, sorted);
    return Ok(sorted);
  }

  lemma ConflictWitness(f: Forward, g: Forward, src: Addr, dst: Addr, protocol: Protocol, port: Port)
    requires 1 <= port && Captures(f, src, dst, protocol, port) && Captures(g, src, dst, protocol, port)
    ensures Conflicting(f, g)
  {
    assert Captures(f, src, f.listen, protocol, port) && Captures(g, src, f.listen, protocol, port);
  }

  /** After planning at most one enabled forward is configured for any packet. */
  lemma AtMostOneCapture(fs: seq<Forward>, i: nat, j: nat, src: Addr, dst: Addr, protocol: Protocol, port: Port)
    requires i < |fs| && j < |fs| && 1 <= port
    requires PairwiseFree(fs)
    requires Captures(fs[i], src, dst, protocol, port) && Captures(fs[j], src, dst, protocol, port)
    ensures i == j
  {
    ConflictWitness(fs[i], fs[j], src, dst, protocol, port);
  }
}
