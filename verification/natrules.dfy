/** Packet filter rules shared by both NAT back ends, with first-match semantics. */
module NatRules {
  import opened Wrappers
  import opened Ports
  import opened Prefixes
  import opened Inventory

  /** `origDst` is the destination before translation, as connection tracking remembers it. */
  datatype Packet = Packet(src: Addr, dst: Addr, protocol: Protocol, port: Port, origDst: Addr, established: bool)

  datatype PortTest = In(ranges: seq<PortRange>) | NotIn(ranges: seq<PortRange>) {
    predicate Holds(port: int) {
      In? == RangesContain(ranges, port)
    }
  }

  /** Conditions of one rule; no original destination or an empty source list means no condition. */
  datatype Match =
    | EstablishedFlow
    | Flow(origDst: Option<Addr>, dst: Addr, sources: seq<Prefix>, protocol: Protocol, ports: PortTest)
  {
    predicate Holds(p: Packet) {
      match this
      case EstablishedFlow => p.established
      case Flow(o, d, s, t, ports) =>
        && (o.Some? ==> p.origDst == o.value)
        && p.dst == d
        && (s == [] || AnyContains(s, p.src))
        && p.protocol == t
        && ports.Holds(p.port)
    }
  }

  datatype OwnedChain = EgmPrerouting | EgmPostrouting | EgmForward

  datatype ChainName = Egm(chain: OwnedChain) | Elsewhere(name: nat)

  /** The last one is never rendered: what somebody else put under a comment of this program, and where it leads. */
  datatype Action = Accept | Drop | Dnat(to: Addr, ports: Option<PortRange>) | Masquerade | Custom(text: nat, leads: Option<ChainName>)

  /** The kind a rule's comment carries, with the identifier of the forward it belongs to. */
  datatype Comment = EstablishedComment | DnatComment(id: nat) | AllowComment(id: nat) | SourceDropComment(id: nat) | MasqueradeComment(id: nat)

  datatype Rule = Rule(cond: Match, action: Action, comment: Comment)

  /** The action of the first rule whose conditions hold, if any. */
  function FirstMatch(rules: seq<Rule>, p: Packet): Option<Action> {
    if rules == [] then None
    else if rules[0].cond.Holds(p) then Some(rules[0].action)
    else FirstMatch(rules[1..], p)
  }

  lemma {:induction false} FirstMatchAppend(a: seq<Rule>, b: seq<Rule>, p: Packet)
    ensures FirstMatch(a + b, p) == if FirstMatch(a, p).Some? then FirstMatch(a, p) else FirstMatch(b, p)
  {
    if a == [] {
      assert a + b == b;
    } else {
      assert (a + b)[1..] == a[1..] + b;
      FirstMatchAppend(a[1..], b, p);
    }
  }
}
