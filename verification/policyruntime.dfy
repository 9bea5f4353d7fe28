/** The policy-routing commands rendered from intents, what they leave behind, and the verifier that inspects it. */
module PolicyRuntime {
  import opened Wrappers
  import opened Prefixes
  import opened Slots
  import opened Routes
  import opened RoutePlan

  datatype Kind = Unicast | Throw | Blackhole
  datatype Dest = Default | Host(addr: Addr)

  /** A route of an owned table. */
  datatype Entry = Entry(dest: Dest, kind: Kind, device: Option<Name>)

  datatype RuleSelector = Iif(name: Name) | From(subnet: Prefix)
  datatype PolicyRule = PolicyRule(priority: nat, selector: RuleSelector, table: nat)

  datatype Command = ReplaceRoute(table: nat, entry: Entry) | AddRule(rule: PolicyRule)

  datatype State = State(routes: map<(nat, Dest), Entry>, rules: seq<PolicyRule>)

  // ---------------------------------------------------------------- rendering

  function BypassEntries(addresses: seq<Addr>, family: Family): seq<Entry> {
    if addresses == [] then []
    else (if addresses[0].family == family then [Entry(Host(addresses[0]), Throw, None)] else []) + BypassEntries(addresses[1..], family)
  }

  function DefaultEntry(i: Intent, family: Family): Entry {
    match FamilyPolicy(i.policy, family)
    case Follow => Entry(Default, Unicast, Some(i.tunnel))
    case Block => Entry(Default, Blackhole, None)
    case Direct => Entry(Default, Throw, None)
  }

  /** The routes an intent wants in its table, in rendering order. */
  function Entries(i: Intent, family: Family): seq<Entry> {
    (if FamilyPolicy(i.policy, family) == Follow then BypassEntries(i.bypass, family) else []) + [DefaultEntry(i, family)]
  }

  function RuleOf(i: Intent, family: Family): PolicyRule {
    PolicyRule(i.priority,
      if i.source.SubnetSource? && i.source.subnet.addr.family == family then From(i.source.subnet) else Iif(i.ingress), i.table)
  }

  function RouteCommands(table: nat, entries: seq<Entry>): seq<Command> {
    seq(|entries|, k requires 0 <= k < |entries| => ReplaceRoute(table, entries[k]))
  }

  function IntentBatch(i: Intent, family: Family): seq<Command> {
    RouteCommands(i.table, Entries(i, family)) + [AddRule(RuleOf(i, family))]
  }

  function Batch(intents: seq<Intent>, family: Family): seq<Command> {
    if intents == [] then [] else IntentBatch(intents[0], family) + Batch(intents[1..], family)
  }

  lemma RegroupCommands(done: seq<Command>, next: seq<Command>, rest: seq<Command>)
    ensures done + (next + rest) == (done + next) + rest && done + [] == done
  {
  }

  lemma BypassStep(table: nat, addresses: seq<Addr>, family: Family, k: nat)
    requires k < |addresses|
    ensures RouteCommands(table, BypassEntries(addresses[k..], family)) ==
            (if addresses[k].family == family then [ReplaceRoute(table, Entry(Host(addresses[k]), Throw, None))] else [])
            + RouteCommands(table, BypassEntries(addresses[k + 1..], family))
  {
    assert addresses[k..][0] == addresses[k] && addresses[k..][1..] == addresses[k + 1..];
  }

  method RenderBypass(table: nat, addresses: seq<Addr>, family: Family) returns (commands: seq<Command>)
    ensures commands == RouteCommands(table, BypassEntries(addresses, family))
  {
    commands := [];
    for k := 0 to |addresses|
      invariant RouteCommands(table, BypassEntries(addresses, family)) == commands + RouteCommands(table, BypassEntries(addresses[k..], family))
    {
      BypassStep(table, addresses, family, k);
      ghost var rest := RouteCommands(table, BypassEntries(addresses[k + 1..], family));
      if addresses[k].family == family {
        var next := [ReplaceRoute(table, Entry(Host(addresses[k]), Throw, None))];
        RegroupCommands(commands, next, rest);
        commands := commands + next;
      } else {
        RegroupCommands(commands, [], rest);
      }
    }
    RegroupCommands(commands, [], []);
  }

  method RenderRoutes(i: Intent, family: Family) returns (commands: seq<Command>)
    ensures commands == RouteCommands(i.table, Entries(i, family))
  {
    if FamilyPolicy(i.policy, family) == Follow {
      commands := RenderBypass(i.table, i.bypass, family);
      commands := commands + [ReplaceRoute(i.table, Entry(Default, Unicast, Some(i.tunnel)))];
    } else if FamilyPolicy(i.policy, family) == Block {
      commands := [ReplaceRoute(i.table, Entry(Default, Blackhole, None))];
    } else {
      commands := [ReplaceRoute(i.table, Entry(Default, Throw, None))];
    }
  }

  method RenderBatch(intents: seq<Intent>, family: Family) returns (commands: seq<Command>)
    ensures commands == Batch(intents, family)
  {
    commands := [];
    for k := 0 to |intents|
      invariant Batch(intents, family) == commands + Batch(intents[k..], family)
    {
      assert intents[k..][0] == intents[k] && intents[k..][1..] == intents[k + 1..];
      var next := RenderRoutes(intents[k], family);
      next := next + [AddRule(RuleOf(intents[k], family))];
      RegroupCommands(commands, next, Batch(intents[k + 1..], family));
      commands := commands + next;
    }
    RegroupCommands(commands, [], []);
  }

  // ---------------------------------------------------------------- running

  /** A route is replaced or new; a rule that is there already is not added again, the tool reports an error. */
  function Exec(c: Command, s: State): Option<State> {
    match c
    case ReplaceRoute(t, e) => Some(s.(routes := s.routes[(t, e.dest) := e]))
    case AddRule(r) => if r in s.rules then None else Some(s.(rules := s.rules + [r]))
  }

  /** A batch stops at the first error. */
  function Run(commands: seq<Command>, s: State): Option<State> {
    if commands == [] then Some(s)
    else
      var next := Exec(commands[0], s);
      if next.None? then None else Run(commands[1..], next.value)
  }

  lemma {:induction false} RunAppend(a: seq<Command>, b: seq<Command>, s: State)
    ensures Run(a + b, s) == if Run(a, s).None? then None else Run(b, Run(a, s).value)
    decreases |a|
  {
    if a == [] {
      assert a + b == b;
    } else {
      assert (a + b)[1..] == a[1..] + b;
      if Exec(a[0], s).Some? {
        RunAppend(a[1..], b, Exec(a[0], s).value);
      }
    }
  }

  predicate DistinctDests(entries: seq<Entry>) {
    forall i, j | 0 <= i < j < |entries| :: entries[i].dest != entries[j].dest
  }

  /** The table holds exactly these routes. */
  ghost predicate Holds(s: State, table: nat, entries: seq<Entry>) {
    && (forall e | e in entries :: (table, e.dest) in s.routes && s.routes[(table, e.dest)] == e)
    && (forall d: Dest | (table, d) in s.routes :: s.routes[(table, d)] in entries)
  }

  /** Nothing outside a table changed. */
  ghost predicate SameElsewhere(before: State, after: State, table: nat) {
    forall t: nat, d: Dest | t != table ::
      ((t, d) in before.routes <==> (t, d) in after.routes) && ((t, d) in before.routes ==> after.routes[(t, d)] == before.routes[(t, d)])
  }

  lemma {:induction false} RunRoutes(table: nat, entries: seq<Entry>, done: seq<Entry>, s: State)
    requires Holds(s, table, done) && DistinctDests(done + entries)
    ensures var t := Run(RouteCommands(table, entries), s);
      t.Some? && Holds(t.value, table, done + entries) && SameElsewhere(s, t.value, table) && t.value.rules == s.rules
    decreases |entries|
  {
    if entries == [] {
      assert done + entries == done;
    } else {
      var e := entries[0];
      var next := Exec(ReplaceRoute(table, e), s).value;
      assert RouteCommands(table, entries)[1..] == RouteCommands(table, entries[1..]);
      assert done + entries == (done + [e]) + entries[1..];
      HoldsOneMore(s, table, done, e, entries[1..]);
      RunRoutes(table, entries[1..], done + [e], next);
    }
  }

  lemma HoldsOneMore(s: State, table: nat, done: seq<Entry>, e: Entry, rest: seq<Entry>)
    requires Holds(s, table, done) && DistinctDests((done + [e]) + rest)
    ensures Holds(Exec(ReplaceRoute(table, e), s).value, table, done + [e])
  {
    var all := (done + [e]) + rest;
    forall f | f in done ensures f.dest != e.dest {
      var k :| 0 <= k < |done| && done[k] == f;
      assert all[k] == f && all[|done|] == e;
    }
  }

  lemma {:induction false} BypassDests(addresses: seq<Addr>, family: Family)
    requires Distinct(addresses)
    ensures DistinctDests(BypassEntries(addresses, family))
    ensures forall e | e in BypassEntries(addresses, family) :: e.dest.Host? && e.dest.addr in addresses
  {
    if addresses != [] {
      BypassDests(addresses[1..], family);
      var rest := BypassEntries(addresses[1..], family);
      forall k | 0 <= k < |rest| ensures rest[k].dest != Host(addresses[0]) {
        assert rest[k] in rest;
      }
    }
  }

  lemma EntriesDistinct(i: Intent, family: Family)
    requires Distinct(i.bypass)
    ensures DistinctDests(Entries(i, family))
  {
    BypassDests(i.bypass, family);
    var hosts := BypassEntries(i.bypass, family);
    forall k | 0 <= k < |hosts| ensures hosts[k].dest != Default {
      assert hosts[k] in hosts;
    }
  }

  ghost predicate EmptyTable(s: State, table: nat) {
    forall d: Dest :: (table, d) !in s.routes
  }

  /** The tables of different intents are different, and so are their priorities. */
  predicate NumbersApart(intents: seq<Intent>) {
    forall i, j | 0 <= i < j < |intents| :: intents[i].table != intents[j].table && intents[i].priority != intents[j].priority
  }

  function RulesOf(intents: seq<Intent>, family: Family): seq<PolicyRule> {
    seq(|intents|, k requires 0 <= k < |intents| => RuleOf(intents[k], family))
  }

  lemma RunIntent(i: Intent, family: Family, s: State)
    requires Distinct(i.bypass) && EmptyTable(s, i.table)
    ensures var t := Run(IntentBatch(i, family), s);
      && (t.Some? <==> RuleOf(i, family) !in s.rules)
      && (t.Some? ==> Holds(t.value, i.table, Entries(i, family)) && SameElsewhere(s, t.value, i.table) && t.value.rules == s.rules + [RuleOf(i, family)])
  {
    var entries := Entries(i, family);
    EntriesDistinct(i, family);
    assert [] + entries == entries;
    RunRoutes(i.table, entries, [], s);
    RunAppend(RouteCommands(i.table, entries), [AddRule(RuleOf(i, family))], s);
    assert [AddRule(RuleOf(i, family))][1..] == [];
  }

  /** Each owned table holds its intent's routes, other tables are as before, and one rule per intent was added. */
  ghost predicate Installed(intents: seq<Intent>, family: Family, before: State, after: State) {
    && (forall k | 0 <= k < |intents| :: Holds(after, intents[k].table, Entries(intents[k], family)))
    && SameInOthers(intents, before, after)
    && after.rules == before.rules + RulesOf(intents, family)
  }

  ghost predicate SameInOthers(intents: seq<Intent>, before: State, after: State) {
    forall t: nat, d: Dest | (forall k | 0 <= k < |intents| :: intents[k].table != t) ::
      ((t, d) in before.routes <==> (t, d) in after.routes) && ((t, d) in before.routes ==> after.routes[(t, d)] == before.routes[(t, d)])
  }

  lemma FirstInstalled(intents: seq<Intent>, family: Family, s: State, mid: State, t: State)
    requires intents != [] && NumbersApart(intents)
    requires Holds(mid, intents[0].table, Entries(intents[0], family)) && SameElsewhere(s, mid, intents[0].table)
    requires mid.rules == s.rules + [RuleOf(intents[0], family)]
    requires Installed(intents[1..], family, mid, t)
    ensures Installed(intents, family, s, t)
  {
    RulesInTurn(intents, family, s.rules);
    OthersTwice(intents, s, mid, t);
    FirstStays(intents, family, mid, t);
    OthersHold(intents, family, t);
  }

  lemma RulesInTurn(intents: seq<Intent>, family: Family, rules: seq<PolicyRule>)
    requires intents != []
    ensures rules + RulesOf(intents, family) == (rules + [RuleOf(intents[0], family)]) + RulesOf(intents[1..], family)
  {
  }

  lemma OthersHold(intents: seq<Intent>, family: Family, t: State)
    requires intents != [] && forall k | 0 <= k < |intents[1..]| :: Holds(t, intents[1..][k].table, Entries(intents[1..][k], family))
    ensures forall k | 0 < k < |intents| :: Holds(t, intents[k].table, Entries(intents[k], family))
  {
    assert forall k | 0 < k < |intents| :: intents[1..][k - 1] == intents[k];
  }

  lemma FirstStays(intents: seq<Intent>, family: Family, mid: State, t: State)
    requires intents != [] && NumbersApart(intents)
    requires Holds(mid, intents[0].table, Entries(intents[0], family)) && SameInOthers(intents[1..], mid, t)
    ensures Holds(t, intents[0].table, Entries(intents[0], family))
  {
    assert forall k | 0 <= k < |intents[1..]| :: intents[1..][k] == intents[k + 1];
  }

  lemma OthersTwice(intents: seq<Intent>, s: State, mid: State, t: State)
    requires intents != [] && SameElsewhere(s, mid, intents[0].table) && SameInOthers(intents[1..], mid, t)
    ensures SameInOthers(intents, s, t)
  {
    assert forall k | 0 <= k < |intents[1..]| :: intents[1..][k] == intents[k + 1];
  }

  /** None of the rules to be added is there. */
  predicate NoneThere(intents: seq<Intent>, family: Family, rules: seq<PolicyRule>) {
    forall k | 0 <= k < |intents| :: RuleOf(intents[k], family) !in rules
  }

  lemma NoneThereOneMore(intents: seq<Intent>, family: Family, rules: seq<PolicyRule>)
    requires intents != [] && NumbersApart(intents)
    ensures NoneThere(intents, family, rules) <==>
            RuleOf(intents[0], family) !in rules && NoneThere(intents[1..], family, rules + [RuleOf(intents[0], family)])
  {
    assert forall k | 0 <= k < |intents[1..]| :: intents[1..][k] == intents[k + 1];
    forall k | 0 < k < |intents| ensures RuleOf(intents[k], family) != RuleOf(intents[0], family) && intents[k] == intents[1..][k - 1] {
      assert intents[0].priority != intents[k].priority;
    }
  }

  /**
   * On empty owned tables the batch goes through exactly when none of its rules is there already, and then leaves in
   * each table exactly its intent's routes, and one rule per intent.
   */
  lemma {:induction false} BatchInstalls(intents: seq<Intent>, family: Family, s: State)
    requires NumbersApart(intents)
    requires forall k | 0 <= k < |intents| :: Distinct(intents[k].bypass) && EmptyTable(s, intents[k].table)
    ensures Run(Batch(intents, family), s).Some? <==> NoneThere(intents, family, s.rules)
    ensures Run(Batch(intents, family), s).Some? ==> Installed(intents, family, s, Run(Batch(intents, family), s).value)
    decreases |intents|
  {
    if intents != [] {
      RunIntent(intents[0], family, s);
      RunAppend(IntentBatch(intents[0], family), Batch(intents[1..], family), s);
      NoneThereOneMore(intents, family, s.rules);
      if Run(IntentBatch(intents[0], family), s).Some? {
        var mid := Run(IntentBatch(intents[0], family), s).value;
        forall k | 0 <= k < |intents[1..]| ensures EmptyTable(mid, intents[1..][k].table) {
          assert intents[1..][k] == intents[k + 1] && EmptyTable(s, intents[k + 1].table);
        }
        BatchInstalls(intents[1..], family, mid);
        if Run(Batch(intents, family), s).Some? {
          FirstInstalled(intents, family, s, mid, Run(Batch(intents, family), s).value);
        }
      }
    }
  }

  // ---------------------------------------------------------------- the verifier

  /** The source of a listed rule; the listing leaves the length out for a single address. */
  datatype ListedSource = ListedSource(addr: Addr, length: Option<nat>)

  /** What the host lists for a rule: `plain` says that it carries nothing the verifier does not know. */
  datatype RuntimeRule = RuntimeRule(priority: nat, table: nat, owned: bool, source: Option<ListedSource>, input: Option<Name>, plain: bool)

  datatype Scope = NoScope | Global | LinkScope | OtherScope

  datatype RuntimeRoute = RuntimeRoute(dest: Dest, kind: Kind, device: Option<Name>, table: Option<nat>, owned: bool, metric: nat, scope: Scope, plain: bool)

  /** The verifier reads the source as a prefix, and a bare address is none. */
  predicate ReadsAs(s: ListedSource, subnet: Prefix) {
    s.length.Some? && Prefix(s.addr, s.length.value).Valid() && Masked(Prefix(s.addr, s.length.value)) == Masked(subnet)
  }

  predicate RuleFits(i: Intent, family: Family, r: RuntimeRule) {
    && r.plain && r.owned && r.priority == i.priority && r.table == i.table
    && (if i.source.SubnetSource? && i.source.subnet.addr.family == family
        then r.source.Some? && ReadsAs(r.source.value, i.source.subnet) && r.input.None?
        else r.source.None? && r.input == Some(i.ingress))
  }

  /** The listing names the loopback as the device of IPv6 routes that lead nowhere. */
  function ListedEntry(family: Family, r: RuntimeRoute): Entry {
    Entry(r.dest, r.kind, if family == V6 && r.kind != Unicast && r.device == Some(Lo) then None else r.device)
  }

  /** Attributes of a listed route that do not alter where it leads. */
  predicate Shaped(i: Intent, family: Family, r: RuntimeRoute) {
    && r.plain && r.owned && (r.table == None || r.table == Some(i.table))
    && (r.metric == 0 || (family == V6 && r.metric == 1024))
    && (r.scope == NoScope || r.scope == Global || (r.kind == Unicast && r.scope == LinkScope))
  }

  function ListedEntries(family: Family, routes: seq<RuntimeRoute>): seq<Entry> {
    seq(|routes|, k requires 0 <= k < |routes| => ListedEntry(family, routes[k]))
  }

  /** The table the verifier fills before it looks at the routes. */
  function ExpectedMap(entries: seq<Entry>): map<Dest, Entry> {
    if entries == [] then map[] else ExpectedMap(entries[..|entries| - 1])[entries[|entries| - 1].dest := entries[|entries| - 1]]
  }

  lemma {:induction false} ExpectedMapAt(entries: seq<Entry>, k: nat)
    requires DistinctDests(entries) && k < |entries|
    ensures entries[k].dest in ExpectedMap(entries) && ExpectedMap(entries)[entries[k].dest] == entries[k]
    decreases |entries|
  {
    if k < |entries| - 1 {
      ExpectedMapAt(entries[..|entries| - 1], k);
    }
  }

  lemma {:induction false} ExpectedMapKeys(entries: seq<Entry>, d: Dest)
    ensures d in ExpectedMap(entries) ==> ExpectedMap(entries)[d] in entries && ExpectedMap(entries)[d].dest == d
    decreases |entries|
  {
    if entries != [] {
      ExpectedMapKeys(entries[..|entries| - 1], d);
    }
  }

  lemma {:induction false} ExpectedMapSize(entries: seq<Entry>)
    requires DistinctDests(entries)
    ensures |ExpectedMap(entries)| == |entries|
    decreases |entries|
  {
    if entries != [] {
      var n := |entries| - 1;
      ExpectedMapSize(entries[..n]);
      ExpectedMapKeys(entries[..n], entries[n].dest);
      assert ExpectedMap(entries).Keys == ExpectedMap(entries[..n]).Keys + {entries[n].dest};
    }
  }

  lemma ExpectedIsEntry(entries: seq<Entry>, e: Entry)
    requires DistinctDests(entries)
    ensures e in entries <==> e.dest in ExpectedMap(entries) && ExpectedMap(entries)[e.dest] == e
  {
    ExpectedMapKeys(entries, e.dest);
    if e in entries {
      var k :| 0 <= k < |entries| && entries[k] == e;
      ExpectedMapAt(entries, k);
    }
  }

  /** Each route in turn must be one that is still expected, and is struck off. */
  method MatchRoutes(i: Intent, family: Family, wanted: map<Dest, Entry>, routes: seq<RuntimeRoute>) returns (ok: bool)
    requires forall d | d in wanted :: wanted[d].dest == d
    ensures ok <==>
      && (forall k | 0 <= k < |routes| :: Shaped(i, family, routes[k]) && routes[k].dest in wanted && ListedEntry(family, routes[k]) == wanted[routes[k].dest])
      && (forall k, l | 0 <= k < l < |routes| :: routes[k].dest != routes[l].dest)
  {
    var expected := wanted;
    for k := 0 to |routes|
      invariant forall d :: d in expected <==> d in wanted && forall l | 0 <= l < k :: routes[l].dest != d
      invariant forall d | d in expected :: expected[d] == wanted[d]
      invariant forall l | 0 <= l < k :: Shaped(i, family, routes[l]) && routes[l].dest in wanted && ListedEntry(family, routes[l]) == wanted[routes[l].dest]
      invariant forall l, m | 0 <= l < m < k :: routes[l].dest != routes[m].dest
    {
      var r := routes[k];
      if !Shaped(i, family, r) {
        return false;
      }
      if r.dest !in expected || ListedEntry(family, r) != expected[r.dest] {
        return false;
      }
      expected := expected - {r.dest};
    }
    return true;
  }

  /** A valid intent, listed with its one fitting rule and exactly its routes. */
  predicate Accepts(i: Intent, family: Family, rules: seq<RuntimeRule>, routes: seq<RuntimeRoute>) {
    ValidIntent(i) && |rules| == 1 && RuleFits(i, family, rules[0]) && RoutesFit(i, family, routes)
  }

  method FillExpected(entries: seq<Entry>) returns (expected: map<Dest, Entry>)
    ensures expected == ExpectedMap(entries)
  {
    expected := map[];
    for k := 0 to |entries|
      invariant expected == ExpectedMap(entries[..k])
    {
      assert entries[..k + 1][..k] == entries[..k];
      expected := expected[entries[k].dest := entries[k]];
    }
    assert entries[..|entries|] == entries;
  }

  method VerifyPolicyRuntime(i: Intent, family: Family, rules: seq<RuntimeRule>, routes: seq<RuntimeRoute>) returns (ok: bool)
    ensures ok <==> Accepts(i, family, rules, routes)
  {
    if !ValidIntent(i) || |rules| != 1 || !RuleFits(i, family, rules[0]) {
      return false;
    }
    var entries := Entries(i, family);
    EntriesDistinct(i, family);
    var expected := FillExpected(entries);
    ExpectedMapSize(entries);
    forall d | d in expected ensures expected[d].dest == d {
      ExpectedMapKeys(entries, d);
    }
    if |routes| != |expected| {
      FitsAreAsLong(i, family, routes);
      return false;
    }
    ok := MatchRoutes(i, family, expected, routes);
    MatchedIffFit(i, family, routes);
  }

  /** The two lists have the same members, each once. */
  predicate SameOnce(a: seq<Entry>, b: seq<Entry>) {
    DistinctDests(a) && DistinctDests(b) && (forall k | 0 <= k < |a| :: a[k] in b) && (forall k | 0 <= k < |b| :: b[k] in a)
  }

  /** The routes are well-shaped and, in any order, exactly the expected ones. */
  predicate RoutesFit(i: Intent, family: Family, routes: seq<RuntimeRoute>) {
    && (forall k | 0 <= k < |routes| :: Shaped(i, family, routes[k]))
    && SameOnce(ListedEntries(family, routes), Entries(i, family))
  }

  /** Removing one element of a sequence. */
  function Without(s: seq<Entry>, k: nat): seq<Entry>
    requires k < |s|
  {
    s[..k] + s[k + 1..]
  }

  lemma WithoutKeeps(s: seq<Entry>, k: nat)
    requires k < |s| && DistinctDests(s)
    ensures DistinctDests(Without(s, k)) && |Without(s, k)| == |s| - 1
    ensures forall e :: e in Without(s, k) <==> e in s && e != s[k]
    ensures multiset(s) == multiset(Without(s, k)) + multiset{s[k]}
  {
    var w := Without(s, k);
    assert s == s[..k] + [s[k]] + s[k + 1..];
    assert forall j | 0 <= j < |w| :: w[j] == s[if j < k then j else j + 1];
    forall e | e in s && e != s[k] ensures e in w {
      var l :| 0 <= l < |s| && s[l] == e;
      assert w[if l < k then l else l - 1] == e;
    }
  }

  lemma LastOf(s: seq<Entry>)
    requires s != [] && DistinctDests(s)
    ensures Without(s, |s| - 1) == s[..|s| - 1]
  {
  }

  /** As many different destinations as expected, and all of them expected: the lists are permutations of each other. */
  lemma {:induction false} SubsetIsPermutation(a: seq<Entry>, b: seq<Entry>)
    requires DistinctDests(a) && DistinctDests(b) && (forall k | 0 <= k < |a| :: a[k] in b)
    ensures |a| <= |b|
    ensures |a| == |b| ==> multiset(a) == multiset(b)
    decreases |a|
  {
    if a != [] {
      var n := |a| - 1;
      var k :| 0 <= k < |b| && b[k] == a[n];
      WithoutKeeps(b, k);
      WithoutKeeps(a, n);
      LastOf(a);
      SubsetIsPermutation(a[..n], Without(b, k));
    }
  }

  /** Having the same members once each is being a permutation. */
  lemma SameOnceIsPermutation(a: seq<Entry>, b: seq<Entry>)
    requires SameOnce(a, b)
    ensures |a| == |b| && multiset(a) == multiset(b)
  {
    SubsetIsPermutation(a, b);
    SubsetIsPermutation(b, a);
  }

  lemma FitsAreAsLong(i: Intent, family: Family, routes: seq<RuntimeRoute>)
    ensures RoutesFit(i, family, routes) ==> |routes| == |Entries(i, family)|
  {
    if RoutesFit(i, family, routes) {
      SameOnceIsPermutation(ListedEntries(family, routes), Entries(i, family));
    }
  }

  lemma SubsetIsSame(a: seq<Entry>, b: seq<Entry>)
    requires DistinctDests(a) && DistinctDests(b) && |a| == |b|
    ensures (forall k | 0 <= k < |a| :: a[k] in b) <==> SameOnce(a, b)
  {
    if forall k | 0 <= k < |a| :: a[k] in b {
      SubsetIsPermutation(a, b);
      forall k | 0 <= k < |b| ensures b[k] in a {
        assert b[k] in multiset(b);
      }
    }
  }

  lemma MatchedIffFit(i: Intent, family: Family, routes: seq<RuntimeRoute>)
    requires DistinctDests(Entries(i, family)) && |routes| == |Entries(i, family)|
    ensures var wanted := ExpectedMap(Entries(i, family));
      RoutesFit(i, family, routes) <==>
      && (forall k | 0 <= k < |routes| :: Shaped(i, family, routes[k]) && routes[k].dest in wanted && ListedEntry(family, routes[k]) == wanted[routes[k].dest])
      && (forall k, l | 0 <= k < l < |routes| :: routes[k].dest != routes[l].dest)
  {
    var entries, listed := Entries(i, family), ListedEntries(family, routes);
    forall k | 0 <= k < |routes|
      ensures listed[k].dest == routes[k].dest
      ensures listed[k] in entries <==> routes[k].dest in ExpectedMap(entries) && listed[k] == ExpectedMap(entries)[routes[k].dest]
    {
      ExpectedIsEntry(entries, listed[k]);
    }
    DistinctListed(family, routes);
    if DistinctDests(listed) {
      SubsetIsSame(listed, entries);
    }
  }

  lemma DistinctListed(family: Family, routes: seq<RuntimeRoute>)
    ensures DistinctDests(ListedEntries(family, routes)) <==> forall k, l | 0 <= k < l < |routes| :: routes[k].dest != routes[l].dest
  {
    var listed := ListedEntries(family, routes);
    assert forall k | 0 <= k < |routes| :: listed[k].dest == routes[k].dest;
  }

  /** The verifier's loop accepts exactly the permutations of the expected routes. */
  lemma FitIffPermutation(i: Intent, family: Family, routes: seq<RuntimeRoute>)
    requires ValidIntent(i) && forall k | 0 <= k < |routes| :: Shaped(i, family, routes[k])
    ensures RoutesFit(i, family, routes) <==> multiset(ListedEntries(family, routes)) == multiset(Entries(i, family))
  {
    EntriesDistinct(i, family);
    var a, b := ListedEntries(family, routes), Entries(i, family);
    if RoutesFit(i, family, routes) {
      SameOnceIsPermutation(a, b);
    }
    if multiset(a) == multiset(b) {
      PermutationIsDistinct(b, a);
      forall k | 0 <= k < |a| ensures a[k] in b {
        assert a[k] in multiset(a);
      }
      forall k | 0 <= k < |b| ensures b[k] in a {
        assert b[k] in multiset(b);
      }
    }
  }

  lemma PermutationIsDistinct(b: seq<Entry>, a: seq<Entry>)
    requires multiset(a) == multiset(b) && DistinctDests(b)
    ensures DistinctDests(a)
  {
    forall i, j | 0 <= i < j < |a| ensures a[i].dest != a[j].dest {
      assert a[i] in multiset(b) && a[j] in multiset(b);
      if a[i] == a[j] {
        TwiceInSequence(a, i, j);
        OnceInSequence(b, a[i]);
      }
    }
  }

  lemma TwiceInSequence(a: seq<Entry>, i: nat, j: nat)
    requires i < j < |a| && a[i] == a[j]
    ensures multiset(a)[a[i]] >= 2
  {
    assert a == a[..i] + [a[i]] + a[i + 1..j] + [a[j]] + a[j + 1..];
  }

  lemma {:induction false} OnceInSequence(b: seq<Entry>, e: Entry)
    requires DistinctDests(b)
    ensures multiset(b)[e] <= 1
    decreases |b|
  {
    if b != [] {
      var n := |b| - 1;
      assert b == b[..n] + [b[n]];
      OnceInSequence(b[..n], e);
      if b[n] == e {
        assert e !in b[..n];
      }
    }
  }

  // ---------------------------------------------------------------- renderer and verifier agree

  /** A listing of a table: every route of it once, in any order. */
  ghost predicate Lists(s: State, table: nat, listing: seq<Entry>) {
    DistinctDests(listing) && Holds(s, table, listing)
  }

  lemma ListingsAgree(s: State, table: nat, a: seq<Entry>, b: seq<Entry>)
    requires Lists(s, table, a) && Lists(s, table, b)
    ensures SameOnce(a, b)
  {
    forall k | 0 <= k < |a| ensures a[k] in b {
      assert a[k] in a;
    }
    forall k | 0 <= k < |b| ensures b[k] in a {
      assert b[k] in b;
    }
  }

  function ListedPrefix(p: Prefix): ListedSource {
    ListedSource(p.addr, if p.bits == Width(p.addr.family) then None else Some(p.bits))
  }

  /** The rule of this family names a single address. */
  predicate NamesOneAddress(i: Intent, family: Family) {
    i.source.SubnetSource? && i.source.subnet.addr.family == family && i.source.subnet.bits == Width(family)
  }

  /** What the rule listing at a priority shows of a rule. */
  function ListedRule(r: PolicyRule): RuntimeRule {
    RuntimeRule(r.priority, r.table, true, if r.selector.From? then Some(ListedPrefix(r.selector.subnet)) else None,
      if r.selector.Iif? then Some(r.selector.name) else None, true)
  }

  /** The rules a listing at one priority shows, in order. */
  function ListedAt(rules: seq<PolicyRule>, priority: nat): seq<RuntimeRule> {
    if rules == [] then []
    else (if rules[0].priority == priority then [ListedRule(rules[0])] else []) + ListedAt(rules[1..], priority)
  }

  lemma {:induction false} ListedAtAppend(a: seq<PolicyRule>, b: seq<PolicyRule>, priority: nat)
    ensures ListedAt(a + b, priority) == ListedAt(a, priority) + ListedAt(b, priority)
  {
    if a == [] {
      assert a + b == b;
    } else {
      assert (a + b)[1..] == a[1..] + b;
      ListedAtAppend(a[1..], b, priority);
      var head: seq<RuntimeRule> := if a[0].priority == priority then [ListedRule(a[0])] else [];
      assert head + (ListedAt(a[1..], priority) + ListedAt(b, priority)) == (head + ListedAt(a[1..], priority)) + ListedAt(b, priority);
    }
  }

  lemma {:induction false} NoneListed(rules: seq<PolicyRule>, priority: nat)
    requires forall k | 0 <= k < |rules| :: rules[k].priority != priority
    ensures ListedAt(rules, priority) == []
  {
    if rules != [] {
      NoneListed(rules[1..], priority);
    }
  }

  lemma {:induction false} OneListed(rules: seq<PolicyRule>, priority: nat, n: nat)
    requires n < |rules| && rules[n].priority == priority && forall k | 0 <= k < |rules| && k != n :: rules[k].priority != priority
    ensures ListedAt(rules, priority) == [ListedRule(rules[n])]
  {
    if n == 0 {
      NoneListed(rules[1..], priority);
    } else {
      OneListed(rules[1..], priority, n - 1);
    }
  }

  lemma {:induction false} PresentIsListed(rules: seq<PolicyRule>, r: PolicyRule)
    requires r in rules
    ensures ListedAt(rules, r.priority) != []
  {
    if rules[0] != r {
      PresentIsListed(rules[1..], r);
    }
  }

  /** Each intent's own rule is listed at its priority after whatever was there before. */
  lemma OwnRuleListed(intents: seq<Intent>, family: Family, before: seq<PolicyRule>, k: nat)
    requires NumbersApart(intents) && k < |intents|
    ensures ListedAt(before + RulesOf(intents, family), intents[k].priority) ==
            ListedAt(before, intents[k].priority) + [ListedRule(RuleOf(intents[k], family))]
  {
    ListedAtAppend(before, RulesOf(intents, family), intents[k].priority);
    OwnPriority(intents, family, k);
    OneListed(RulesOf(intents, family), intents[k].priority, k);
  }

  /** If none of the priorities is taken, none of the rules is there. */
  lemma FreePriorities(intents: seq<Intent>, family: Family, rules: seq<PolicyRule>)
    requires forall k | 0 <= k < |intents| :: ListedAt(rules, intents[k].priority) == []
    ensures NoneThere(intents, family, rules)
  {
    forall k | 0 <= k < |intents| ensures RuleOf(intents[k], family) !in rules {
      if RuleOf(intents[k], family) in rules {
        PresentIsListed(rules, RuleOf(intents[k], family));
      }
    }
  }

  /**
   * After the batch ran on empty owned tables, the verifier accepts an intent exactly when no rule was at its
   * priority before and its own rule does not name a single address, for every order in which its table is listed.
   */
  lemma BatchIsAcceptedIff(intents: seq<Intent>, family: Family, s: State, k: nat, routes: seq<RuntimeRoute>)
    requires NumbersApart(intents) && k < |intents|
    requires forall l | 0 <= l < |intents| :: ValidIntent(intents[l]) && EmptyTable(s, intents[l].table)
    requires forall l | 0 <= l < |routes| :: Shaped(intents[k], family, routes[l])
    requires Run(Batch(intents, family), s).Some?
    requires Lists(Run(Batch(intents, family), s).value, intents[k].table, ListedEntries(family, routes))
    ensures Accepts(intents[k], family, ListedAt(Run(Batch(intents, family), s).value.rules, intents[k].priority), routes) <==>
            ListedAt(s.rules, intents[k].priority) == [] && !NamesOneAddress(intents[k], family)
  {
    var t := Run(Batch(intents, family), s).value;
    ValidAreDistinct(intents);
    BatchInstalls(intents, family, s);
    EntriesDistinct(intents[k], family);
    ListingsAgree(t, intents[k].table, ListedEntries(family, routes), Entries(intents[k], family));
    OwnRuleListed(intents, family, s.rules, k);
    OwnRuleFitsIff(intents[k], family);
  }

  /**
   * On empty owned tables and free priorities the batch goes through, and the verifier accepts every intent whose rule
   * does not name a single address.
   */
  lemma BatchIsAccepted(intents: seq<Intent>, family: Family, s: State)
    requires NumbersApart(intents)
    requires forall l | 0 <= l < |intents| ::
      ValidIntent(intents[l]) && EmptyTable(s, intents[l].table) && ListedAt(s.rules, intents[l].priority) == []
    ensures Run(Batch(intents, family), s).Some?
    ensures forall k, routes | 0 <= k < |intents| && !NamesOneAddress(intents[k], family) && (forall l | 0 <= l < |routes| :: Shaped(intents[k], family, routes[l])) &&
              Lists(Run(Batch(intents, family), s).value, intents[k].table, ListedEntries(family, routes)) ::
              Accepts(intents[k], family, ListedAt(Run(Batch(intents, family), s).value.rules, intents[k].priority), routes)
  {
    ValidAreDistinct(intents);
    FreePriorities(intents, family, s.rules);
    BatchInstalls(intents, family, s);
    forall k, routes | 0 <= k < |intents| && !NamesOneAddress(intents[k], family) && (forall l | 0 <= l < |routes| :: Shaped(intents[k], family, routes[l])) &&
        Lists(Run(Batch(intents, family), s).value, intents[k].table, ListedEntries(family, routes))
      ensures Accepts(intents[k], family, ListedAt(Run(Batch(intents, family), s).value.rules, intents[k].priority), routes)
    {
      BatchIsAcceptedIff(intents, family, s, k, routes);
    }
  }

  /** How the host prints a route of an owned table, with the attributes it adds by itself. */
  function Printed(family: Family, e: Entry): RuntimeRoute {
    RuntimeRoute(e.dest, e.kind, if family == V6 && e.kind != Unicast then Some(Lo) else e.device, None, true,
      if family == V6 then 1024 else 0, if family == V4 && e.kind == Unicast then LinkScope else NoScope, true)
  }

  function PrintedAll(family: Family, listing: seq<Entry>): seq<RuntimeRoute> {
    seq(|listing|, n requires 0 <= n < |listing| => Printed(family, listing[n]))
  }

  lemma {:induction false} BypassesAreThrown(addresses: seq<Addr>, family: Family)
    ensures forall e | e in BypassEntries(addresses, family) :: e.kind == Throw && e.device.None?
  {
    if addresses != [] {
      BypassesAreThrown(addresses[1..], family);
    }
  }

  lemma PrintedReadsBack(i: Intent, family: Family, listing: seq<Entry>)
    requires ValidIntent(i) && SameOnce(listing, Entries(i, family))
    ensures ListedEntries(family, PrintedAll(family, listing)) == listing
    ensures forall l | 0 <= l < |listing| :: Shaped(i, family, PrintedAll(family, listing)[l])
  {
    BypassesAreThrown(i.bypass, family);
    forall l | 0 <= l < |listing| ensures ListedEntry(family, PrintedAll(family, listing)[l]) == listing[l] {
      assert listing[l] in Entries(i, family);
    }
  }

  /** With the attributes that the host adds by itself the installed batch is accepted, in whatever order its tables are listed. */
  lemma PrintedIsAccepted(intents: seq<Intent>, family: Family, s: State, k: nat, listing: seq<Entry>)
    requires NumbersApart(intents) && k < |intents| && !NamesOneAddress(intents[k], family)
    requires forall l | 0 <= l < |intents| ::
      ValidIntent(intents[l]) && EmptyTable(s, intents[l].table) && ListedAt(s.rules, intents[l].priority) == []
    requires Run(Batch(intents, family), s).Some? && Lists(Run(Batch(intents, family), s).value, intents[k].table, listing)
    ensures Accepts(intents[k], family, ListedAt(Run(Batch(intents, family), s).value.rules, intents[k].priority), PrintedAll(family, listing))
  {
    ValidAreDistinct(intents);
    BatchInstalls(intents, family, s);
    EntriesDistinct(intents[k], family);
    ListingsAgree(Run(Batch(intents, family), s).value, intents[k].table, listing, Entries(intents[k], family));
    PrintedReadsBack(intents[k], family, listing);
    BatchIsAcceptedIff(intents, family, s, k, PrintedAll(family, listing));
  }

  /** Something the renderer would not have left there. */
  predicate Alien(i: Intent, family: Family, r: RuntimeRoute) {
    || !r.plain || !r.owned || (r.table.Some? && r.table.value != i.table)
    || (r.metric != 0 && (family == V4 || r.metric != 1024))
    || r.scope == OtherScope || (r.scope == LinkScope && r.kind != Unicast)
  }

  /** A rule of somebody else, with other numbers, or for other traffic than the intent's. */
  predicate AlienRule(i: Intent, family: Family, r: RuntimeRule) {
    var own := RuleOf(i, family);
    || !r.plain || !r.owned || r.priority != own.priority || r.table != own.table
    || (own.selector.Iif? && (r.source.Some? || r.input != Some(own.selector.name)))
    || (own.selector.From? && (r.input.Some? || r.source.None? || (r.source.value.length.Some?
          && Masked(Prefix(r.source.value.addr, r.source.value.length.value)) != Masked(own.selector.subnet))))
  }

  /** One such rule or route is enough for a refusal, and so is a second rule or a missing one. */
  lemma AlienIsRefused(i: Intent, family: Family, rules: seq<RuntimeRule>, routes: seq<RuntimeRoute>)
    requires (exists k | 0 <= k < |routes| :: Alien(i, family, routes[k])) || (exists k | 0 <= k < |rules| :: AlienRule(i, family, rules[k])) || |rules| != 1
    ensures !Accepts(i, family, rules, routes)
  {
  }

  /** Running the batch a second time is refused at the first rule, so an installed batch is not simply repeated. */
  lemma SecondRunRefused(intents: seq<Intent>, family: Family, s: State)
    requires intents != [] && RuleOf(intents[0], family) in s.rules
    ensures Run(Batch(intents, family), s).None?
  {
    RoutesKeepRules(intents[0].table, Entries(intents[0], family), s);
    RunAppend(RouteCommands(intents[0].table, Entries(intents[0], family)), [AddRule(RuleOf(intents[0], family))], s);
    RunAppend(IntentBatch(intents[0], family), Batch(intents[1..], family), s);
  }

  lemma {:induction false} RoutesKeepRules(table: nat, entries: seq<Entry>, s: State)
    ensures Run(RouteCommands(table, entries), s).Some? && Run(RouteCommands(table, entries), s).value.rules == s.rules
    decreases |entries|
  {
    if entries != [] {
      assert RouteCommands(table, entries)[1..] == RouteCommands(table, entries[1..]);
      RoutesKeepRules(table, entries[1..], Exec(ReplaceRoute(table, entries[0]), s).value);
    }
  }

  lemma OwnRuleFitsIff(i: Intent, family: Family)
    requires ValidIntent(i)
    ensures RuleFits(i, family, ListedRule(RuleOf(i, family))) <==> !NamesOneAddress(i, family)
  {
  }

  /** A route for a single address is never verified, whatever is listed: its rule shows no length. */
  lemma OneAddressIsRefused(i: Intent, family: Family, rules: seq<PolicyRule>, routes: seq<RuntimeRoute>)
    requires NamesOneAddress(i, family) && RuleOf(i, family) in rules
    ensures !Accepts(i, family, ListedAt(rules, i.priority), routes)
  {
    PresentIsListed(rules, RuleOf(i, family));
    ListedShows(rules, RuleOf(i, family));
  }

  lemma {:induction false} ListedShows(rules: seq<PolicyRule>, r: PolicyRule)
    requires r in rules
    ensures ListedRule(r) in ListedAt(rules, r.priority)
  {
    if rules[0] != r {
      ListedShows(rules[1..], r);
    }
  }

  lemma ValidAreDistinct(intents: seq<Intent>)
    requires forall l | 0 <= l < |intents| :: ValidIntent(intents[l])
    ensures forall l | 0 <= l < |intents| :: Distinct(intents[l].bypass)
  {
  }

  lemma OwnPriority(intents: seq<Intent>, family: Family, k: nat)
    requires NumbersApart(intents) && k < |intents|
    ensures forall l | 0 <= l < |intents| && RuleOf(intents[l], family).priority == intents[k].priority :: l == k
  {
    forall l | 0 <= l < |intents| && l != k ensures intents[l].priority != intents[k].priority {
      assert l < k ==> intents[l].priority != intents[k].priority;
    }
  }

  /** The numbers of planned intents are apart, so what the planner accepts can be installed and verified. */
  lemma PlannedNumbersApart(ctx: Planner, routes: seq<Route>, used: Used)
    requires Plan(ctx, routes, used).Some?
    ensures NumbersApart(Plan(ctx, routes, used).value)
  {
    PlanFacts(ctx, routes, used, {}, []);
    var intents := Plan(ctx, routes, used).value;
    assert forall i, j | 0 <= i < j < |intents| :: Apart(intents[i], intents[j]);
  }
}
