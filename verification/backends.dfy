/** The two NAT back ends compared: one source of truth, two orders of drops. */
module BackEnds {
  import opened Wrappers
  import opened Ports
  import opened Prefixes
  import opened Inventory
  import opened Forwards
  import opened NatRules
  import opened NatRender

  /** What becomes of the first packet of a connection. */
  datatype Fate = Dropped | Sent(packet: Packet, masqueraded: bool)

  /** Translation at the prerouting hook; `choice` picks the port when the target is a range. */
  function Translate(target: Option<Action>, p: Packet, choice: Port): Packet {
    match target
    case Some(Dnat(to, None)) => p.(dst := to, origDst := p.dst)
    case Some(Dnat(to, Some(r))) => p.(dst := to, origDst := p.dst, port := if r.Contains(choice) then choice else r.from)
    case _ => p.(origDst := p.dst)
  }

  function FateOf(prerouting: Option<Action>, forward: Packet -> Option<Action>, postrouting: Packet -> Option<Action>, p: Packet, choice: Port): Fate {
    var q := Translate(prerouting, p, choice);
    if forward(q) == Some(Drop) then Dropped else Sent(q, postrouting(q) == Some(Masquerade))
  }

  function NftFate(fs: seq<Forward>, p: Packet, choice: Port): Fate {
    var t := NftTableOf(fs);
    FateOf(FirstMatch(t.prerouting, p), q => FirstMatch(t.forward, q), q => FirstMatch(t.postrouting, q), p, choice)
  }

  function IptFate(fs: seq<Forward>, p: Packet, choice: Port): Fate {
    FateOf(Verdict(IptLines(NatTable, fs), EgmPrerouting, p),
           q => Verdict(IptFilterList(fs), EgmForward, q), q => Verdict(IptLines(NatTable, fs), EgmPostrouting, q), p, choice)
  }

  lemma {:induction false} FirstCarrierIsOne(fs: seq<Forward>, p: Packet)
    ensures FirstCarrier(fs, p).Some? <==> AnyCarrier(fs, p)
    ensures FirstCarrier(fs, p).Some? ==>
      exists i | 0 <= i < |fs| :: FirstCarrier(fs, p) == Some(fs[i]) && Carries(fs[i], p) && forall j | 0 <= j < i :: !Carries(fs[j], p)
  {
    if fs != [] {
      FirstCarrierIsOne(fs[1..], p);
      assert forall i | 0 < i < |fs| :: fs[i] == fs[1..][i - 1];
      if Carries(fs[0], p) {
        assert FirstCarrier(fs, p) == Some(fs[0]);
      } else if i :| 0 <= i < |fs[1..]| && FirstCarrier(fs[1..], p) == Some(fs[1..][i]) && Carries(fs[1..][i], p)
                   && forall j | 0 <= j < i :: !Carries(fs[1..][j], p) {
        assert fs[i + 1] == fs[1..][i];
        forall j | 0 <= j < i + 1 ensures !Carries(fs[j], p) {
          if j > 0 {
            assert fs[j] == fs[1..][j - 1];
          }
        }
      }
    }
  }

  /** The first forward that carries the packet refuses its source although another one admits it. */
  predicate Shadowed(fs: seq<Forward>, q: Packet) {
    && FirstCarrier(fs, q).Some?
    && !SourceAllowed(FirstCarrier(fs, q).value, q.src)
    && AnyAdmits(fs, q)
  }

  lemma PreparedHasOneMode(fs: seq<Forward>)
    requires AllPrepared(fs)
    ensures AllOneMode(fs)
  {
  }

  /** Rule for rule the back ends differ, yet they choose the same target and decide the same packets. */
  lemma SameTargetSameDecided(fs: seq<Forward>, p: Packet)
    requires AllPrepared(fs) && 1 <= p.port
    ensures FirstMatch(NftTableOf(fs).prerouting, p) == Verdict(IptLines(NatTable, fs), EgmPrerouting, p)
    ensures FirstMatch(NftTableOf(fs).forward, p).None? <==> Verdict(IptFilterList(fs), EgmForward, p).None?
    ensures Verdict(IptFilterList(fs), EgmForward, p) == Some(Accept) ==> FirstMatch(NftTableOf(fs).forward, p) == Some(Accept)
    ensures FirstMatch(NftTableOf(fs).forward, p) == Verdict(IptFilterList(fs), EgmForward, p) <==> p.established || !Shadowed(fs, p)
  {
    PreparedHasOneMode(fs);
    NftMeaning(fs, p);
    IptMeaning(fs, p);
    FirstCarrierIsOne(fs, p);
  }

  lemma TranslatedPortPositive(fs: seq<Forward>, p: Packet, choice: Port)
    requires AllPrepared(fs) && 1 <= p.port
    ensures 1 <= Translate(FirstMatch(NftTableOf(fs).prerouting, p), p, choice).port
  {
    PreparedHasOneMode(fs);
    NftMeaning(fs, p);
    FirstReachedIsOne(fs, p);
    if FirstReached(fs, p).Some? {
      TargetIsPositive(FirstReached(fs, p).value, p, choice);
    }
  }

  lemma TargetIsPositive(f: Forward, p: Packet, choice: Port)
    requires Prepared(f) && 1 <= p.port
    ensures 1 <= Translate(Some(Target(f)), p, choice).port
  {
    if f.remoteStart != 0 {
      RemapNeverWraps(f);
    }
  }

  lemma {:induction false} FirstReachedIsOne(fs: seq<Forward>, p: Packet)
    ensures FirstReached(fs, p).Some? <==> exists i | 0 <= i < |fs| :: Reaches(fs[i], p)
    ensures FirstReached(fs, p).Some? ==>
      exists i | 0 <= i < |fs| :: FirstReached(fs, p) == Some(fs[i]) && Reaches(fs[i], p) && forall j | 0 <= j < i :: !Reaches(fs[j], p)
  {
    if fs != [] {
      FirstReachedIsOne(fs[1..], p);
      assert forall i | 0 < i < |fs| :: fs[i] == fs[1..][i - 1];
      if Reaches(fs[0], p) {
        assert FirstReached(fs, p) == Some(fs[0]);
      } else if i :| 0 <= i < |fs[1..]| && FirstReached(fs[1..], p) == Some(fs[1..][i]) && Reaches(fs[1..][i], p)
                   && forall j | 0 <= j < i :: !Reaches(fs[1..][j], p) {
        assert fs[i + 1] == fs[1..][i];
        forall j | 0 <= j < i + 1 ensures !Reaches(fs[j], p) {
          if j > 0 {
            assert fs[j] == fs[1..][j - 1];
          }
        }
      }
    }
  }

  /**
   * End to end: what iptables delivers, nftables delivers alike, with the same translation and masquerading.
   * The fates differ exactly when the translated packet is shadowed, and then iptables drops what nftables sends.
   */
  lemma IptablesRefinesNft(fs: seq<Forward>, p: Packet, choice: Port)
    requires AllPrepared(fs) && 1 <= p.port && !p.established
    ensures IptFate(fs, p, choice).Sent? ==> NftFate(fs, p, choice) == IptFate(fs, p, choice)
    ensures NftFate(fs, p, choice) != IptFate(fs, p, choice) <==>
            Shadowed(fs, Translate(FirstMatch(NftTableOf(fs).prerouting, p), p, choice))
  {
    SameTargetSameDecided(fs, p);
    TranslatedPortPositive(fs, p, choice);
    var q := Translate(FirstMatch(NftTableOf(fs).prerouting, p), p, choice);
    SameTargetSameDecided(fs, q);
    PreparedHasOneMode(fs);
    NftMeaning(fs, q);
    IptMeaning(fs, q);
    FirstCarrierIsOne(fs, q);
  }

  /** Two enabled forwards that a translated packet cannot tell apart. */
  ghost predicate SharesBackend(f: Forward, g: Forward) {
    && f.enabled && g.enabled && f.listen == g.listen && f.remote == g.remote
    && exists protocol: Protocol, port: int :: protocol in f.protocols && protocol in g.protocols && TranslatedPort(f, port) && TranslatedPort(g, port)
  }

  ghost predicate BackendsDisjoint(fs: seq<Forward>) {
    forall i, j | 0 <= i < |fs| && 0 <= j < |fs| && i != j :: !SharesBackend(fs[i], fs[j])
  }

  /** Without shared back ends both renderings treat every connection alike. */
  lemma DisjointBackendsAgree(fs: seq<Forward>, p: Packet, choice: Port)
    requires AllPrepared(fs) && 1 <= p.port && !p.established && BackendsDisjoint(fs)
    ensures NftFate(fs, p, choice) == IptFate(fs, p, choice)
  {
    IptablesRefinesNft(fs, p, choice);
    var q := Translate(FirstMatch(NftTableOf(fs).prerouting, p), p, choice);
    if Shadowed(fs, q) {
      FirstCarrierIsOne(fs, q);
      var i :| 0 <= i < |fs| && FirstCarrier(fs, q) == Some(fs[i]) && Carries(fs[i], q);
      var j :| 0 <= j < |fs| && Carries(fs[j], q) && SourceAllowed(fs[j], q.src);
      assert SharesBackend(fs[i], fs[j]);
    }
  }

  /**
   * The planner accepts forwards for which the back ends disagree: a restricted forward and an open one,
   * on different ports of one address, remapped to the same remote port. The refused source gets through nftables.
   */
  lemma RenderingsCanDisagree(listen: Addr, remote: Addr, inside: Prefix, stranger: Addr) returns (fs: seq<Forward>, p: Packet)
    requires listen.value != 0 && remote.value != 0 && listen.family == remote.family == inside.addr.family
    requires Canonical(inside) && !inside.Contains(stranger)
    ensures AllPrepared(fs) && PairwiseFree(fs) && 1 <= p.port && !p.established
    ensures FirstReached(fs, p).Some? && !SourceAllowed(FirstReached(fs, p).value, p.src)
    ensures NftFate(fs, p, 80).Sent? && IptFate(fs, p, 80) == Dropped
  {
    var restricted := Forward(1, [Tcp], listen, [PortRange(1000, 1000)], [], remote, 80, [inside], true);
    var open := Forward(2, [Tcp], listen, [PortRange(2000, 2000)], [], remote, 80, [], true);
    fs := [restricted, open];
    p := Packet(stranger, listen, Tcp, 1000, listen, false);
    SingleRange(PortRange(1000, 1000), 1000);
    SingleRange(PortRange(2000, 2000), 1000);
    assert AllPrepared(fs);
    forall port: int ensures !(MatchesPort(restricted, port) && MatchesPort(open, port)) {
      SingleRange(PortRange(1000, 1000), port);
      SingleRange(PortRange(2000, 2000), port);
    }
    assert !Conflicting(restricted, open) && !Conflicting(open, restricted);
    assert PairwiseFree(fs);
    assert Reaches(restricted, p) && FirstReached(fs, p) == Some(restricted);
    assert RemapRange(restricted) == PortRange(80, 80) && RemapRange(open) == PortRange(80, 80);
    var q := Translate(Some(Target(restricted)), p, 80);
    assert Carries(restricted, q) && Carries(open, q);
    assert fs[1] == open && SourceAllowed(open, stranger) && AnyAdmits(fs, q);
    assert Shadowed(fs, q);
    PreparedHasOneMode(fs);
    NftMeaning(fs, p);
    IptablesRefinesNft(fs, p, 80);
  }

  /** Some packet of the listen side reaches both, whatever its source. */
  ghost predicate SharesListenPort(f: Forward, g: Forward) {
    && f.enabled && g.enabled && f.listen == g.listen
    && exists protocol: Protocol, port: int | 1 <= port <= MAX_PORT ::
         protocol in f.protocols && protocol in g.protocols && MatchesPort(f, port) && MatchesPort(g, port)
  }

  /** A packet of forward `i` that an earlier forward reaches is translated for the earlier one. */
  lemma EarlierForwardTakesIt(fs: seq<Forward>, i: nat, j: nat) returns (p: Packet)
    requires PairwiseFree(fs) && j < i < |fs| && SharesListenPort(fs[j], fs[i])
    requires forall s | s in fs[i].sources :: s.Valid()
    ensures 1 <= p.port && Captures(fs[i], p.src, p.dst, p.protocol, p.port)
    ensures FirstReached(fs, p) != Some(fs[i])
  {
    var f := fs[i];
    var protocol: Protocol, port: int :| 1 <= port <= MAX_PORT
      && protocol in fs[j].protocols && protocol in f.protocols && MatchesPort(fs[j], port) && MatchesPort(f, port);
    var src := if f.sources == [] then f.listen else f.sources[0].addr;
    assert f.sources != [] ==> f.sources[0] in f.sources && f.sources[0].Contains(src);
    p := Packet(src, f.listen, protocol, port, f.listen, false);
    assert Reaches(fs[j], p);
    FirstReachedIsOne(fs, p);
    var k :| 0 <= k < |fs| && FirstReached(fs, p) == Some(fs[k]) && Reaches(fs[k], p) && forall m | 0 <= m < k :: !Reaches(fs[m], p);
    assert k <= j;
    if fs[k] == f {
      ConflictWitness(fs[k], f, src, f.listen, protocol, port);
    }
  }

  /**
   * The translation rules ignore sources. So a planned forward receives all the packets it is configured for
   * exactly when no earlier enabled forward shares a listen port with it, even for disjoint sources.
   */
  lemma TranslationHonoursSourcesIff(fs: seq<Forward>, i: nat)
    requires AllPrepared(fs) && PairwiseFree(fs) && i < |fs| && fs[i].enabled
    ensures (forall p: Packet | 1 <= p.port && Captures(fs[i], p.src, p.dst, p.protocol, p.port) :: FirstReached(fs, p) == Some(fs[i]))
            <==> forall j | 0 <= j < i :: !SharesListenPort(fs[j], fs[i])
  {
    if j :| 0 <= j < i && SharesListenPort(fs[j], fs[i]) {
      assert ValidShape(fs[i]);
      var p := EarlierForwardTakesIt(fs, i, j);
    } else {
      forall p: Packet | 1 <= p.port && Captures(fs[i], p.src, p.dst, p.protocol, p.port)
        ensures FirstReached(fs, p) == Some(fs[i])
      {
        NoEarlierForwardTakesIt(fs, i, p);
      }
    }
  }

  /** The planner accepts such forwards: one port, disjoint sources, and the first takes the packets meant for the second. */
  lemma SourcesCanBeIgnored(listen: Addr, first: Addr, second: Addr, left: Prefix, right: Prefix) returns (fs: seq<Forward>, p: Packet)
    requires listen.value != 0 && first.value != 0 && second.value != 0
    requires listen.family == first.family == second.family == left.addr.family == right.addr.family
    requires Canonical(left) && Canonical(right) && !Overlap(left, right)
    ensures AllPrepared(fs) && PairwiseFree(fs) && |fs| == 2 && fs[0].remote == first && fs[1].remote == second
    ensures Captures(fs[1], p.src, p.dst, p.protocol, p.port) && !SourceAllowed(fs[0], p.src)
    ensures FirstReached(fs, p) == Some(fs[0])
  {
    var f := Forward(1, [Tcp], listen, [PortRange(443, 443)], [], first, 0, [left], true);
    var g := Forward(2, [Tcp], listen, [PortRange(443, 443)], [], second, 0, [right], true);
    fs, p := [f, g], Packet(right.addr, listen, Tcp, 443, listen, false);
    SingleRange(PortRange(443, 443), 443);
    OverlapIffShared(left, right);
    forall src: Addr ensures !(SourceAllowed(f, src) && SourceAllowed(g, src)) {
      assert left.Contains(src) && right.Contains(src) ==> Overlap(left, right);
    }
    assert !Conflicting(f, g) && !Conflicting(g, f);
    assert right.Contains(right.addr) && g.sources[0] == right;
    assert Reaches(f, p);
  }

  lemma NoEarlierForwardTakesIt(fs: seq<Forward>, i: nat, p: Packet)
    requires i < |fs| && 1 <= p.port && Captures(fs[i], p.src, p.dst, p.protocol, p.port)
    requires forall j | 0 <= j < i :: !SharesListenPort(fs[j], fs[i])
    ensures FirstReached(fs, p) == Some(fs[i])
  {
    FirstReachedIsOne(fs, p);
    assert Reaches(fs[i], p);
    var k :| 0 <= k < |fs| && FirstReached(fs, p) == Some(fs[k]) && Reaches(fs[k], p) && forall m | 0 <= m < k :: !Reaches(fs[m], p);
    BothReachShare(fs[k], fs[i], p);
  }

  lemma BothReachShare(f: Forward, g: Forward, p: Packet)
    requires 1 <= p.port && Reaches(f, p) && Reaches(g, p)
    ensures SharesListenPort(f, g)
  {
  }
}
