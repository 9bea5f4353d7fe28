/** The nftables and iptables renderings of prepared forwards, and what each decides for a packet. */
module NatRender {
  import opened Wrappers
  import opened Ports
  import opened Prefixes
  import opened Inventory
  import opened Forwards
  import opened NatRules

  const ESTABLISHED_RULE := Rule(EstablishedFlow, Accept, EstablishedComment)

  // ---------------------------------------------------------------- what the forwards ask for

  function U16(n: int): Port {
    n % 0x1_0000
  }

  function U32(n: int): int {
    n % 0x1_0000_0000
  }

  /** The remote ports of a remapped forward, with the program's conversion back to uint16. */
  function RemapRange(f: Forward): PortRange {
    var width := if f.listenPorts == [] then 0 else U32(f.listenPorts[0].to - f.listenPorts[0].from);
    PortRange(f.remoteStart, U16(U32(f.remoteStart + width)))
  }

  /** Validation leaves room for the whole range behind the remote start. */
  lemma RemapNeverWraps(f: Forward)
    requires Prepared(f) && f.remoteStart != 0
    ensures RemapRange(f).Valid() && AllowedRanges(f) == [f.listenPorts[0]]
    ensures RemapRange(f).to - RemapRange(f).from == f.listenPorts[0].to - f.listenPorts[0].from
  {
    assert f.listenPorts[0] in f.listenPorts;
  }

  /** The ports a forwarded connection carries behind the translation. */
  predicate TranslatedPort(f: Forward, port: int)
  {
    if f.remoteStart == 0 then MatchesPort(f, port) else RemapRange(f).Contains(port)
  }

  /** Before translation: the packet is addressed to the forward, whatever its source. */
  predicate Reaches(f: Forward, p: Packet) {
    f.enabled && p.dst == f.listen && p.protocol in f.protocols && MatchesPort(f, p.port)
  }

  /** The address and port of a packet this forward sent on. */
  predicate Behind(f: Forward, p: Packet) {
    p.origDst == f.listen && p.dst == f.remote && TranslatedPort(f, p.port)
  }

  /** After translation: the packet looks like one this forward sent on, whatever its source. */
  predicate Carries(f: Forward, p: Packet) {
    f.enabled && p.protocol in f.protocols && Behind(f, p)
  }

  /** The two port modes exclude each other, and remapping needs listen ports. */
  predicate OneMode(f: Forward) {
    (f.listenPorts != [] <==> f.except == []) && (f.remoteStart != 0 ==> f.listenPorts != [])
  }

  predicate AllOneMode(fs: seq<Forward>) {
    forall i | 0 <= i < |fs| :: OneMode(fs[i])
  }

  predicate AllPrepared(fs: seq<Forward>) {
    forall i | 0 <= i < |fs| :: Prepared(fs[i])
  }

  function FirstReached(fs: seq<Forward>, p: Packet): Option<Forward> {
    if fs == [] then None
    else if Reaches(fs[0], p) then Some(fs[0])
    else FirstReached(fs[1..], p)
  }

  function FirstCarrier(fs: seq<Forward>, p: Packet): Option<Forward>
  {
    if fs == [] then None
    else if Carries(fs[0], p) then Some(fs[0])
    else FirstCarrier(fs[1..], p)
  }

  predicate AnyCarrier(fs: seq<Forward>, p: Packet)
  {
    exists i | 0 <= i < |fs| :: Carries(fs[i], p)
  }

  /** Some forward carries the packet and admits its source. */
  predicate AnyAdmits(fs: seq<Forward>, p: Packet)
  {
    exists i | 0 <= i < |fs| :: Carries(fs[i], p) && SourceAllowed(fs[i], p.src)
  }

  /** The whole destination of a forward: its remote address and, when remapped, the remote port range. */
  function Target(f: Forward): Action
  {
    Dnat(f.remote, if f.remoteStart == 0 then None else Some(RemapRange(f)))
  }

  // ---------------------------------------------------------------- nftables

  datatype NftKind = NftDnat | NftAllow | NftSourceDrop | NftMasquerade

  datatype NftTable = NftTable(prerouting: seq<Rule>, forward: seq<Rule>, postrouting: seq<Rule>)

  function NftMatch(f: Forward, protocol: Protocol, translated: bool, includeSource: bool): Match
  {
    var ports := if translated && f.remoteStart != 0 then [RemapRange(f)] else f.listenPorts;
    Flow(
      if translated then Some(f.listen) else None,
      if translated then f.remote else f.listen,
      if includeSource then f.sources else [],
      protocol,
      if f.except != [] then NotIn(f.except) else In(ports))
  }

  function NftRule(kind: NftKind, f: Forward, protocol: Protocol): Rule
  {
    match kind
    case NftDnat => Rule(NftMatch(f, protocol, false, false), Target(f), DnatComment(f.id))
    case NftAllow => Rule(NftMatch(f, protocol, true, true), Accept, AllowComment(f.id))
    case NftSourceDrop => Rule(NftMatch(f, protocol, true, false), Drop, SourceDropComment(f.id))
    case NftMasquerade => Rule(NftMatch(f, protocol, true, true), Masquerade, MasqueradeComment(f.id))
  }

  predicate NftSkips(kind: NftKind, f: Forward) {
    !f.enabled || (kind == NftSourceDrop && f.sources == [])
  }

  function NftBlock(kind: NftKind, f: Forward, protocols: seq<Protocol>): seq<Rule>
  {
    if protocols == [] then [] else [NftRule(kind, f, protocols[0])] + NftBlock(kind, f, protocols[1..])
  }

  function NftChain(kind: NftKind, fs: seq<Forward>): seq<Rule>
  {
    if fs == [] then []
    else (if NftSkips(kind, fs[0]) then [] else NftBlock(kind, fs[0], fs[0].protocols)) + NftChain(kind, fs[1..])
  }

  /** The inner loop: one rule per protocol. */
  method RenderNftBlock(kind: NftKind, f: Forward) returns (rules: seq<Rule>)
    ensures rules == NftBlock(kind, f, f.protocols)
  {
    rules := [];
    for j := 0 to |f.protocols|
      invariant NftBlock(kind, f, f.protocols) == rules + NftBlock(kind, f, f.protocols[j..])
    {
      assert f.protocols[j..][1..] == f.protocols[j + 1..];
      rules := rules + [NftRule(kind, f, f.protocols[j])];
    }
  }

  method RenderNftChain(kind: NftKind, fs: seq<Forward>) returns (rules: seq<Rule>)
    ensures rules == NftChain(kind, fs)
  {
    rules := [];
    for i := 0 to |fs|
      invariant NftChain(kind, fs) == rules + NftChain(kind, fs[i..])
    {
      NftChainStep(kind, fs, i);
      if NftSkips(kind, fs[i]) {
        continue;
      }
      var block := RenderNftBlock(kind, fs[i]);
      AssociateRules(rules, block, NftChain(kind, fs[i + 1..]));
      rules := rules + block;
    }
    AssociateRules(rules, [], []);
  }

  lemma NftChainStep(kind: NftKind, fs: seq<Forward>, i: nat)
    requires i < |fs|
    ensures NftChain(kind, fs[i..]) == (if NftSkips(kind, fs[i]) then NftChain(kind, fs[i + 1..])
      else NftBlock(kind, fs[i], fs[i].protocols) + NftChain(kind, fs[i + 1..]))
  {
    assert fs[i..][0] == fs[i] && fs[i..][1..] == fs[i + 1..];
    assert [] + NftChain(kind, fs[i + 1..]) == NftChain(kind, fs[i + 1..]);
  }

  lemma AssociateRules(a: seq<Rule>, b: seq<Rule>, c: seq<Rule>)
    ensures a + (b + c) == (a + b) + c && a + [] == a
  {
  }

  /** All chains of the owned table: in the forward chain every allow comes before every drop. */
  function NftTableOf(fs: seq<Forward>): NftTable
  {
    NftTable(
      NftChain(NftDnat, fs),
      [ESTABLISHED_RULE] + NftChain(NftAllow, fs) + NftChain(NftSourceDrop, fs),
      NftChain(NftMasquerade, fs))
  }

  method RenderNft(fs: seq<Forward>) returns (table: NftTable)
    ensures table == NftTableOf(fs)
  {
    var dnat := RenderNftChain(NftDnat, fs);
    var allow := RenderNftChain(NftAllow, fs);
    var drop := RenderNftChain(NftSourceDrop, fs);
    var masquerade := RenderNftChain(NftMasquerade, fs);
    table := NftTable(dnat, [ESTABLISHED_RULE] + allow + drop, masquerade);
  }

  /** When a rule of this kind for this forward fires, apart from the protocol. */
  predicate NftFires(kind: NftKind, f: Forward, p: Packet) {
    match kind
    case NftDnat => p.dst == f.listen && MatchesPort(f, p.port)
    case NftAllow => Behind(f, p) && SourceAllowed(f, p.src)
    case NftSourceDrop => Behind(f, p)
    case NftMasquerade => Behind(f, p) && SourceAllowed(f, p.src)
  }

  lemma NftRuleHolds(kind: NftKind, f: Forward, protocol: Protocol, p: Packet)
    requires OneMode(f)
    ensures NftRule(kind, f, protocol).cond.Holds(p) <==> p.protocol == protocol && NftFires(kind, f, p)
  {
    SingleRange(RemapRange(f), p.port);
  }

  lemma FirstMatchStep(r: Rule, rules: seq<Rule>, p: Packet)
    ensures FirstMatch([r] + rules, p) == if r.cond.Holds(p) then Some(r.action) else FirstMatch(rules, p)
  {
    assert ([r] + rules)[1..] == rules;
  }

  lemma {:induction false} NftBlockMeaning(kind: NftKind, f: Forward, protocols: seq<Protocol>, p: Packet)
    requires OneMode(f)
    ensures FirstMatch(NftBlock(kind, f, protocols), p) ==
            if p.protocol in protocols && NftFires(kind, f, p) then Some(NftRule(kind, f, p.protocol).action) else None
  {
    if protocols != [] {
      NftBlockMeaning(kind, f, protocols[1..], p);
      FirstMatchStep(NftRule(kind, f, protocols[0]), NftBlock(kind, f, protocols[1..]), p);
      NftRuleHolds(kind, f, protocols[0], p);
    }
  }

  predicate NftWins(kind: NftKind, f: Forward, p: Packet) {
    !NftSkips(kind, f) && p.protocol in f.protocols && NftFires(kind, f, p)
  }

  function FirstFiring(kind: NftKind, fs: seq<Forward>, p: Packet): Option<Forward> {
    if fs == [] then None
    else if NftWins(kind, fs[0], p) then Some(fs[0])
    else FirstFiring(kind, fs[1..], p)
  }

  lemma {:induction false} NftChainMeaning(kind: NftKind, fs: seq<Forward>, p: Packet)
    requires AllOneMode(fs)
    ensures FirstMatch(NftChain(kind, fs), p) ==
            if FirstFiring(kind, fs, p).Some? then Some(NftRule(kind, FirstFiring(kind, fs, p).value, p.protocol).action) else None
  {
    if fs != [] {
      NftChainMeaning(kind, fs[1..], p);
      if !NftSkips(kind, fs[0]) {
        NftBlockMeaning(kind, fs[0], fs[0].protocols, p);
        FirstMatchAppend(NftBlock(kind, fs[0], fs[0].protocols), NftChain(kind, fs[1..]), p);
      } else {
        assert NftChain(kind, fs) == NftChain(kind, fs[1..]);
      }
    }
  }

  lemma {:induction false} FirstFiringIsReached(fs: seq<Forward>, p: Packet)
    ensures FirstFiring(NftDnat, fs, p) == FirstReached(fs, p)
  {
    if fs != [] {
      FirstFiringIsReached(fs[1..], p);
    }
  }

  lemma {:induction false} FirstFiringExists(kind: NftKind, fs: seq<Forward>, p: Packet)
    ensures FirstFiring(kind, fs, p).Some? <==> exists i | 0 <= i < |fs| :: NftWins(kind, fs[i], p)
  {
    if fs != [] {
      FirstFiringExists(kind, fs[1..], p);
      assert forall i | 0 < i < |fs| :: fs[i] == fs[1..][i - 1];
      if i :| 0 <= i < |fs[1..]| && NftWins(kind, fs[1..][i], p) {
        assert fs[i + 1] == fs[1..][i];
      }
    }
  }

  lemma EstablishedFirst(allow: seq<Rule>, drop: seq<Rule>, p: Packet)
    ensures FirstMatch([ESTABLISHED_RULE] + allow + drop, p) ==
            if p.established then Some(Accept) else if FirstMatch(allow, p).Some? then FirstMatch(allow, p) else FirstMatch(drop, p)
  {
    FirstMatchAppend([ESTABLISHED_RULE] + allow, drop, p);
    FirstMatchAppend([ESTABLISHED_RULE], allow, p);
    assert [ESTABLISHED_RULE][1..] == [];
    assert FirstMatch([ESTABLISHED_RULE], p) == if p.established then Some(Accept) else None;
  }

  /** Some allow, drop or masquerade rule fires exactly when some forward admits or carries the packet. */
  lemma FiringMeans(fs: seq<Forward>, p: Packet)
    ensures FirstFiring(NftAllow, fs, p).Some? <==> AnyAdmits(fs, p)
    ensures FirstFiring(NftMasquerade, fs, p).Some? <==> AnyAdmits(fs, p)
    ensures !AnyAdmits(fs, p) ==> (FirstFiring(NftSourceDrop, fs, p).Some? <==> AnyCarrier(fs, p))
  {
    FirstFiringExists(NftAllow, fs, p);
    FirstFiringExists(NftMasquerade, fs, p);
    FirstFiringExists(NftSourceDrop, fs, p);
    if AnyCarrier(fs, p) && !AnyAdmits(fs, p) {
      var i :| 0 <= i < |fs| && Carries(fs[i], p);
      assert NftWins(NftSourceDrop, fs[i], p);
    }
  }

  /** What the nftables rendering decides: an allow of any forward wins over a drop of any other. */
  lemma NftMeaning(fs: seq<Forward>, p: Packet)
    requires AllOneMode(fs)
    ensures FirstMatch(NftTableOf(fs).prerouting, p) == if FirstReached(fs, p).Some? then Some(Target(FirstReached(fs, p).value)) else None
    ensures FirstMatch(NftTableOf(fs).forward, p) ==
            if p.established || AnyAdmits(fs, p) then Some(Accept) else if AnyCarrier(fs, p) then Some(Drop) else None
    ensures FirstMatch(NftTableOf(fs).postrouting, p) == if AnyAdmits(fs, p) then Some(Masquerade) else None
  {
    NftChainMeaning(NftDnat, fs, p);
    FirstFiringIsReached(fs, p);
    NftChainMeaning(NftMasquerade, fs, p);
    NftChainMeaning(NftAllow, fs, p);
    NftChainMeaning(NftSourceDrop, fs, p);
    FiringMeans(fs, p);
    EstablishedFirst(NftChain(NftAllow, fs), NftChain(NftSourceDrop, fs), p);
  }

  // ---------------------------------------------------------------- iptables

  /** One line `-A <chain> <rule>`. */
  datatype Line = Line(chain: OwnedChain, rule: Rule)

  /** The remote range for one listen range, with the program's uint32 and uint16 conversions. */
  function TranslatedRange(f: Forward, original: PortRange): PortRange
  {
    if f.remoteStart == 0 then original
    else
      var offset := U32(original.from - (if f.listenPorts == [] then 0 else f.listenPorts[0].from));
      var from := U16(U32(f.remoteStart + offset));
      PortRange(from, U16(U32(U32(from + original.to) - original.from)))
  }

  /** None of the conversions wraps: the result is the listen range moved to the remote start. */
  lemma TranslatedRangeNeverWraps(f: Forward, original: PortRange)
    requires Prepared(f) && original in AllowedRanges(f)
    ensures var r := TranslatedRange(f, original);
      && r.Valid()
      && (forall port: int :: r.Contains(port) ==> TranslatedPort(f, port))
      && r.to - r.from == original.to - original.from
      && (f.remoteStart == 0 ==> r == original)
      && (f.remoteStart != 0 ==> r == RemapRange(f) && AllowedRanges(f) == [original])
  {
    AllowedRangesAreMatchingPorts(f);
    assert original.Valid();
    if f.remoteStart != 0 {
      RemapNeverWraps(f);
      assert original == f.listenPorts[0];
      var width := original.to - original.from;
      assert U32(original.from - f.listenPorts[0].from) == 0;
      assert U16(U32(f.remoteStart + 0)) == f.remoteStart;
      assert U32(f.remoteStart + original.to) == f.remoteStart + original.to;
      assert U16(U32(f.remoteStart + width)) == f.remoteStart + width;
    } else {
      forall port: int | original.Contains(port) ensures MatchesPort(f, port) {
        assert RangesContain(AllowedRanges(f), port);
      }
    }
  }

  function IptDnatRule(f: Forward, protocol: Protocol, ports: PortRange): Rule
  {
    var destination := Dnat(f.remote, if f.remoteStart == 0 then None else Some(TranslatedRange(f, ports)));
    Rule(Flow(None, f.listen, [], protocol, In([ports])), destination, DnatComment(f.id))
  }

  function IptForwardRule(f: Forward, protocol: Protocol, ports: PortRange, source: seq<Prefix>, verdict: Action, comment: Comment): Rule {
    Rule(Flow(Some(f.listen), f.remote, source, protocol, In([ports])), verdict, comment)
  }

  function IptMasqueradeRule(f: Forward, protocol: Protocol, ports: PortRange): Rule {
    Rule(Flow(Some(f.listen), f.remote, [], protocol, In([ports])), Masquerade, MasqueradeComment(f.id))
  }

  /** One allow per source prefix. */
  function IptSourceLines(f: Forward, protocol: Protocol, ports: PortRange, sources: seq<Prefix>): seq<Line> {
    if sources == [] then []
    else [Line(EgmForward, IptForwardRule(f, protocol, ports, [sources[0]], Accept, AllowComment(f.id)))]
         + IptSourceLines(f, protocol, ports, sources[1..])
  }

  function IptFilterLines(f: Forward, protocol: Protocol, ports: PortRange): seq<Line> {
    if f.sources == [] then [Line(EgmForward, IptForwardRule(f, protocol, ports, [], Accept, AllowComment(f.id)))]
    else IptSourceLines(f, protocol, ports, f.sources)
         + [Line(EgmForward, IptForwardRule(f, protocol, ports, [], Drop, SourceDropComment(f.id)))]
  }

  function IptNatLines(f: Forward, protocol: Protocol, ports: PortRange): seq<Line>
  {
    [Line(EgmPrerouting, IptDnatRule(f, protocol, ports)),
     Line(EgmPostrouting, IptMasqueradeRule(f, protocol, TranslatedRange(f, ports)))]
  }

  /** Which of the two rule lists of the iptables renderer. */
  datatype IptTable = NatTable | FilterTable

  function IptRangeLines(table: IptTable, f: Forward, protocol: Protocol, ranges: seq<PortRange>): seq<Line>
  {
    if ranges == [] then []
    else
      (if table == NatTable then IptNatLines(f, protocol, ranges[0]) else IptFilterLines(f, protocol, TranslatedRange(f, ranges[0])))
      + IptRangeLines(table, f, protocol, ranges[1..])
  }

  function IptForwardLines(table: IptTable, f: Forward, protocols: seq<Protocol>): seq<Line>
  {
    if protocols == [] then []
    else IptRangeLines(table, f, protocols[0], AllowedRanges(f)) + IptForwardLines(table, f, protocols[1..])
  }

  /** The lines of all enabled forwards: the nat list alternates between its two chains. */
  function IptLines(table: IptTable, fs: seq<Forward>): seq<Line>
  {
    if fs == [] then []
    else (if fs[0].enabled then IptForwardLines(table, fs[0], fs[0].protocols) else []) + IptLines(table, fs[1..])
  }

  function IptFilterList(fs: seq<Forward>): seq<Line>
  {
    [Line(EgmForward, ESTABLISHED_RULE)] + IptLines(FilterTable, fs)
  }

  /** Appends the allow and drop lines of one range. */
  method RenderSources(f: Forward, protocol: Protocol, ports: PortRange) returns (lines: seq<Line>)
    ensures lines == IptFilterLines(f, protocol, ports)
  {
    if |f.sources| == 0 {
      return [Line(EgmForward, IptForwardRule(f, protocol, ports, [], Accept, AllowComment(f.id)))];
    }
    lines := [];
    for i := 0 to |f.sources|
      invariant IptSourceLines(f, protocol, ports, f.sources) == lines + IptSourceLines(f, protocol, ports, f.sources[i..])
    {
      assert f.sources[i..][1..] == f.sources[i + 1..];
      lines := lines + [Line(EgmForward, IptForwardRule(f, protocol, ports, [f.sources[i]], Accept, AllowComment(f.id)))];
    }
    lines := lines + [Line(EgmForward, IptForwardRule(f, protocol, ports, [], Drop, SourceDropComment(f.id)))];
  }

  /** The loop over the ranges of one protocol. */
  method RenderRanges(f: Forward, protocol: Protocol, ranges: seq<PortRange>) returns (nat_: seq<Line>, filter: seq<Line>)
    ensures nat_ == IptRangeLines(NatTable, f, protocol, ranges)
    ensures filter == IptRangeLines(FilterTable, f, protocol, ranges)
  {
    nat_, filter := [], [];
    for j := 0 to |ranges|
      invariant IptRangeLines(NatTable, f, protocol, ranges) == nat_ + IptRangeLines(NatTable, f, protocol, ranges[j..])
      invariant IptRangeLines(FilterTable, f, protocol, ranges) == filter + IptRangeLines(FilterTable, f, protocol, ranges[j..])
    {
      assert ranges[j..][1..] == ranges[j + 1..];
      var lines := RenderSources(f, protocol, TranslatedRange(f, ranges[j]));
      nat_, filter := nat_ + IptNatLines(f, protocol, ranges[j]), filter + lines;
    }
  }

  method RenderForward(f: Forward) returns (nat_: seq<Line>, filter: seq<Line>)
    ensures nat_ == IptForwardLines(NatTable, f, f.protocols)
    ensures filter == IptForwardLines(FilterTable, f, f.protocols)
  {
    nat_, filter := [], [];
    var ranges := ComputeAllowedRanges(f);
    for i := 0 to |f.protocols|
      invariant IptForwardLines(NatTable, f, f.protocols) == nat_ + IptForwardLines(NatTable, f, f.protocols[i..])
      invariant IptForwardLines(FilterTable, f, f.protocols) == filter + IptForwardLines(FilterTable, f, f.protocols[i..])
    {
      assert f.protocols[i..][1..] == f.protocols[i + 1..];
      var n, l := RenderRanges(f, f.protocols[i], ranges);
      AssociateLines(nat_, n, IptForwardLines(NatTable, f, f.protocols[i + 1..]));
      AssociateLines(filter, l, IptForwardLines(FilterTable, f, f.protocols[i + 1..]));
      nat_, filter := nat_ + n, filter + l;
    }
  }

  method RenderEnabled(fs: seq<Forward>) returns (nat_: seq<Line>, filter: seq<Line>)
    ensures nat_ == IptLines(NatTable, fs)
    ensures filter == IptLines(FilterTable, fs)
  {
    nat_, filter := [], [];
    for i := 0 to |fs|
      invariant IptLines(NatTable, fs) == nat_ + IptLines(NatTable, fs[i..])
      invariant IptLines(FilterTable, fs) == filter + IptLines(FilterTable, fs[i..])
    {
      IptLinesStep(NatTable, fs, i);
      IptLinesStep(FilterTable, fs, i);
      if !fs[i].enabled {
        continue;
      }
      var n, l := RenderForward(fs[i]);
      AssociateLines(nat_, n, IptLines(NatTable, fs[i + 1..]));
      AssociateLines(filter, l, IptLines(FilterTable, fs[i + 1..]));
      nat_, filter := nat_ + n, filter + l;
    }
    AssociateLines(nat_, [], []);
    AssociateLines(filter, [], []);
  }

  lemma IptLinesStep(table: IptTable, fs: seq<Forward>, i: nat)
    requires i < |fs|
    ensures IptLines(table, fs[i..]) == (if fs[i].enabled then IptForwardLines(table, fs[i], fs[i].protocols) + IptLines(table, fs[i + 1..])
      else IptLines(table, fs[i + 1..]))
  {
    assert fs[i..][0] == fs[i] && fs[i..][1..] == fs[i + 1..];
    assert [] + IptLines(table, fs[i + 1..]) == IptLines(table, fs[i + 1..]);
  }

  lemma AssociateLines(a: seq<Line>, b: seq<Line>, c: seq<Line>)
    ensures a + (b + c) == (a + b) + c && a + [] == a
  {
  }

  /** The rule-building half of the iptables renderer. */
  method RenderIptLines(fs: seq<Forward>) returns (nat_: seq<Line>, filter: seq<Line>)
    ensures nat_ == IptLines(NatTable, fs)
    ensures filter == IptFilterList(fs)
  {
    nat_, filter := RenderEnabled(fs);
    filter := [Line(EgmForward, ESTABLISHED_RULE)] + filter;
  }

  /** The rules of one chain, in order. */
  function InChain(lines: seq<Line>, chain: OwnedChain): seq<Rule> {
    if lines == [] then []
    else (if lines[0].chain == chain then [lines[0].rule] else []) + InChain(lines[1..], chain)
  }

  lemma {:induction false} InChainAppend(a: seq<Line>, b: seq<Line>, chain: OwnedChain)
    ensures InChain(a + b, chain) == InChain(a, chain) + InChain(b, chain)
  {
    if a == [] {
      assert a + b == b;
    } else {
      assert (a + b)[1..] == a[1..] + b;
      InChainAppend(a[1..], b, chain);
    }
  }

  /** First match within one chain of a combined list. */
  function Verdict(lines: seq<Line>, chain: OwnedChain, p: Packet): Option<Action> {
    FirstMatch(InChain(lines, chain), p)
  }

  lemma VerdictAppend(a: seq<Line>, b: seq<Line>, chain: OwnedChain, p: Packet)
    ensures Verdict(a + b, chain, p) == if Verdict(a, chain, p).Some? then Verdict(a, chain, p) else Verdict(b, chain, p)
  {
    InChainAppend(a, b, chain);
    FirstMatchAppend(InChain(a, chain), InChain(b, chain), p);
  }

  /** What the lines of one chain decide for a packet already known to fall in one of their ranges. */
  function IptDecision(chain: OwnedChain, f: Forward, p: Packet): Action
  {
    match chain
    case EgmPrerouting => Target(f)
    case EgmPostrouting => Masquerade
    case EgmForward => if SourceAllowed(f, p.src) then Accept else Drop
  }

  function TableOf(chain: OwnedChain): IptTable {
    if chain == EgmForward then FilterTable else NatTable
  }

  /** The address conditions of the chain's lines for this forward. */
  predicate IptAddressed(chain: OwnedChain, f: Forward, p: Packet) {
    if chain == EgmPrerouting then p.dst == f.listen else p.origDst == f.listen && p.dst == f.remote
  }

  predicate IptInRange(chain: OwnedChain, f: Forward, r: PortRange, port: int)
  {
    if chain == EgmPrerouting then r.Contains(port) else TranslatedRange(f, r).Contains(port)
  }

  lemma SingleRange(r: PortRange, port: int)
    ensures RangesContain([r], port) <==> r.Contains(port)
  {
    assert r in [r];
  }

  lemma {:induction false} SourceLinesMeaning(f: Forward, protocol: Protocol, ports: PortRange, sources: seq<Prefix>, p: Packet)
    ensures Verdict(IptSourceLines(f, protocol, ports, sources), EgmForward, p) ==
            if IptAddressed(EgmForward, f, p) && p.protocol == protocol && ports.Contains(p.port) && AnyContains(sources, p.src) then Some(Accept) else None
  {
    if sources == [] {
      assert Verdict(IptSourceLines(f, protocol, ports, sources), EgmForward, p) == None;
    } else {
      var lines := IptSourceLines(f, protocol, ports, sources);
      SourceLinesMeaning(f, protocol, ports, sources[1..], p);
      assert lines[1..] == IptSourceLines(f, protocol, ports, sources[1..]);
      assert lines == [lines[0]] + lines[1..];
      VerdictAppend([lines[0]], lines[1..], EgmForward, p);
      OneLine(lines[0], EgmForward, p);
      SingleRange(ports, p.port);
      assert sources == [sources[0]] + sources[1..];
      assert AnyContains([sources[0]], p.src) <==> sources[0].Contains(p.src) by { assert sources[0] in [sources[0]]; }
      assert AnyContains(sources, p.src) <==> sources[0].Contains(p.src) || AnyContains(sources[1..], p.src);
      assert lines[0].rule.cond.Holds(p) <==> IptAddressed(EgmForward, f, p) && p.protocol == protocol && ports.Contains(p.port) && sources[0].Contains(p.src);
    }
  }

  lemma OneLine(line: Line, chain: OwnedChain, p: Packet)
    ensures Verdict([line], chain, p) == if line.chain == chain && line.rule.cond.Holds(p) then Some(line.rule.action) else None
  {
    assert [line][1..] == [] && InChain([], chain) == [];
    if line.chain == chain {
      assert InChain([line], chain) == [line.rule] + [] == [line.rule];
      assert [line.rule][1..] == [];
      assert FirstMatch([], p) == None;
    } else {
      assert InChain([line], chain) == [] + [] == [];
    }
  }

  lemma RangeHeadMeaning(chain: OwnedChain, f: Forward, protocol: Protocol, r: PortRange, p: Packet)
    requires Prepared(f) && r in AllowedRanges(f)
    ensures Verdict(if TableOf(chain) == NatTable then IptNatLines(f, protocol, r) else IptFilterLines(f, protocol, TranslatedRange(f, r)), chain, p) ==
            if IptAddressed(chain, f, p) && p.protocol == protocol && IptInRange(chain, f, r, p.port) then Some(IptDecision(chain, f, p)) else None
  {
    TranslatedRangeNeverWraps(f, r);
    var t := TranslatedRange(f, r);
    SingleRange(r, p.port);
    SingleRange(t, p.port);
    if TableOf(chain) == NatTable {
      var lines := IptNatLines(f, protocol, r);
      assert lines == [lines[0]] + [lines[1]];
      OneLine(lines[0], chain, p);
      OneLine(lines[1], chain, p);
      VerdictAppend([lines[0]], [lines[1]], chain, p);
    } else if f.sources == [] {
      OneLine(IptFilterLines(f, protocol, t)[0], chain, p);
    } else {
      var last := Line(EgmForward, IptForwardRule(f, protocol, t, [], Drop, SourceDropComment(f.id)));
      SourceLinesMeaning(f, protocol, t, f.sources, p);
      OneLine(last, chain, p);
      VerdictAppend(IptSourceLines(f, protocol, t, f.sources), [last], chain, p);
    }
  }

  lemma {:induction false} RangeLinesMeaning(chain: OwnedChain, f: Forward, protocol: Protocol, ranges: seq<PortRange>, p: Packet)
    requires Prepared(f) && forall r | r in ranges :: r in AllowedRanges(f)
    ensures Verdict(IptRangeLines(TableOf(chain), f, protocol, ranges), chain, p) ==
            if IptAddressed(chain, f, p) && p.protocol == protocol && (exists r | r in ranges :: IptInRange(chain, f, r, p.port))
            then Some(IptDecision(chain, f, p)) else None
  {
    if ranges != [] {
      var head := if TableOf(chain) == NatTable then IptNatLines(f, protocol, ranges[0]) else IptFilterLines(f, protocol, TranslatedRange(f, ranges[0]));
      RangeHeadMeaning(chain, f, protocol, ranges[0], p);
      RangeLinesMeaning(chain, f, protocol, ranges[1..], p);
      VerdictAppend(head, IptRangeLines(TableOf(chain), f, protocol, ranges[1..]), chain, p);
      assert ranges == [ranges[0]] + ranges[1..];
    }
  }

  lemma {:induction false} ForwardLinesMeaning(chain: OwnedChain, f: Forward, protocols: seq<Protocol>, p: Packet)
    requires Prepared(f)
    ensures Verdict(IptForwardLines(TableOf(chain), f, protocols), chain, p) ==
            if IptAddressed(chain, f, p) && p.protocol in protocols && (exists r | r in AllowedRanges(f) :: IptInRange(chain, f, r, p.port))
            then Some(IptDecision(chain, f, p)) else None
  {
    if protocols != [] {
      RangeLinesMeaning(chain, f, protocols[0], AllowedRanges(f), p);
      ForwardLinesMeaning(chain, f, protocols[1..], p);
      VerdictAppend(IptRangeLines(TableOf(chain), f, protocols[0], AllowedRanges(f)), IptForwardLines(TableOf(chain), f, protocols[1..]), chain, p);
      assert protocols == [protocols[0]] + protocols[1..];
    }
  }

  /** The ranges of a forward, translated one by one, are its translated ports (from 1 upward). */
  lemma RangesCoverPorts(chain: OwnedChain, f: Forward, port: Port)
    requires Prepared(f) && 1 <= port
    ensures (exists r | r in AllowedRanges(f) :: IptInRange(chain, f, r, port)) <==>
            if chain == EgmPrerouting then MatchesPort(f, port) else TranslatedPort(f, port)
  {
    AllowedRangesAreMatchingPorts(f);
    forall r | r in AllowedRanges(f)
      ensures f.remoteStart == 0 ==> TranslatedRange(f, r) == r
      ensures f.remoteStart != 0 ==> TranslatedRange(f, r) == RemapRange(f)
    {
      TranslatedRangeNeverWraps(f, r);
    }
    if f.remoteStart != 0 {
      assert f.listenPorts[0] in AllowedRanges(f);
    }
    assert (exists r | r in AllowedRanges(f) :: r.Contains(port)) <==> MatchesPort(f, port);
  }

  function IptWinner(chain: OwnedChain, fs: seq<Forward>, p: Packet): Option<Forward>
  {
    if chain == EgmPrerouting then FirstReached(fs, p) else FirstCarrier(fs, p)
  }

  lemma {:induction false} IptLinesMeaning(chain: OwnedChain, fs: seq<Forward>, p: Packet)
    requires AllPrepared(fs) && 1 <= p.port
    ensures Verdict(IptLines(TableOf(chain), fs), chain, p) ==
            if IptWinner(chain, fs, p).Some? then Some(IptDecision(chain, IptWinner(chain, fs, p).value, p)) else None
  {
    if fs != [] {
      IptLinesMeaning(chain, fs[1..], p);
      if fs[0].enabled {
        ForwardLinesMeaning(chain, fs[0], fs[0].protocols, p);
        RangesCoverPorts(chain, fs[0], p.port);
        VerdictAppend(IptForwardLines(TableOf(chain), fs[0], fs[0].protocols), IptLines(TableOf(chain), fs[1..]), chain, p);
      } else {
        assert IptLines(TableOf(chain), fs) == IptLines(TableOf(chain), fs[1..]);
      }
    }
  }

  /** What the iptables rendering decides: the first forward that carries the packet has the last word. */
  lemma IptMeaning(fs: seq<Forward>, p: Packet)
    requires AllPrepared(fs) && 1 <= p.port
    ensures Verdict(IptLines(NatTable, fs), EgmPrerouting, p) == if FirstReached(fs, p).Some? then Some(Target(FirstReached(fs, p).value)) else None
    ensures Verdict(IptFilterList(fs), EgmForward, p) ==
            if p.established then Some(Accept)
            else if FirstCarrier(fs, p).None? then None
            else if SourceAllowed(FirstCarrier(fs, p).value, p.src) then Some(Accept) else Some(Drop)
    ensures Verdict(IptLines(NatTable, fs), EgmPostrouting, p) == if FirstCarrier(fs, p).Some? then Some(Masquerade) else None
  {
    IptLinesMeaning(EgmPrerouting, fs, p);
    IptLinesMeaning(EgmPostrouting, fs, p);
    IptLinesMeaning(EgmForward, fs, p);
    OneLine(Line(EgmForward, ESTABLISHED_RULE), EgmForward, p);
    VerdictAppend([Line(EgmForward, ESTABLISHED_RULE)], IptLines(FilterTable, fs), EgmForward, p);
  }
}
