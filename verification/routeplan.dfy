/** Planning all routes of a host, one after the other. */
module RoutePlan {
  import opened Wrappers
  import opened Prefixes
  import opened Slots
  import opened Routes

  datatype Settings = Settings(bases: Bases, protected: seq<Prefix>, natives: map<nat, Name>)

  predicate ValidSettings(s: Settings) {
    && s.bases.Valid()
    && (forall i | 0 <= i < |s.protected| :: Canonical(s.protected[i]))
    && (forall k | k in s.natives :: s.natives[k].Native?)
  }

  /** What planning one route looks at besides the used resources. */
  datatype Planner = Planner(settings: Settings, interfaces: seq<Interface>, outbounds: map<nat, Outbound>)

  /** The interface the route leaves by: its own tunnel, or that of the selected native outbound if it is available. */
  function TunnelOf(ctx: Planner, r: Route, c: Choice): Option<Name> {
    if c.adapter != NativeAdapter then Some(Tunnel(r.digest.name))
    else if c.selected.None? || c.selected.value !in ctx.settings.natives then None
    else
      var name := ctx.settings.natives[c.selected.value];
      var link := Find(ctx.interfaces, name);
      if link.None? || link.value.state == Down then None else Some(name)
  }

  function IntentOf(ctx: Planner, r: Route, selector: Selector, c: Choice, tunnel: Name, slot: nat): Intent {
    Intent(r.id, r.digest, r.source, selector.ingress, tunnel, Word(ctx.settings.bases.table + slot), Word(ctx.settings.bases.priority + slot),
      c.adapter, c.selected, c.useDirect, r.policy, c.bypass,
      if c.adapter == NativeAdapter then [] else [SlotNet4(slot), SlotNet6(slot)])
  }

  datatype Step = Step(selector: Selector, slot: nat, intent: Intent)

  predicate Clashes(selectors: seq<Selector>, selector: Selector) {
    exists i | 0 <= i < |selectors| :: SelectorsOverlap(selectors[i], selector)
  }

  function PlanOne(ctx: Planner, r: Route, used: Used, selectors: seq<Selector>): Option<Step> {
    PlanWith(ctx, r, Pick(ctx.settings.bases, used, r.digest.start, 0), selectors)
  }

  /** Planning a route that is offered a slot. */
  function PlanWith(ctx: Planner, r: Route, slot: Option<nat>, selectors: seq<Selector>): Option<Step> {
    var selector := ResolveSource(r.source, ctx.interfaces, ctx.settings.protected);
    if selector.None? || Clashes(selectors, selector.value) then None
    else
      var choice := Choose(r.policy, ctx.outbounds);
      if choice.None? || slot.None? then None
      else
        var tunnel := TunnelOf(ctx, r, choice.value);
        if tunnel.None? then None
        else Some(Step(selector.value, slot.value, IntentOf(ctx, r, selector.value, choice.value, tunnel.value, slot.value)))
  }

  function PlanFrom(ctx: Planner, routes: seq<Route>, used: Used, seen: set<nat>, selectors: seq<Selector>): Option<seq<Intent>>
    decreases |routes|
  {
    if routes == [] then Some([])
    else
      var r := routes[0];
      if !ValidRoute(r) || r.id in seen then None
      else if !r.enabled then PlanFrom(ctx, routes[1..], used, seen + {r.id}, selectors)
      else
        var step := PlanOne(ctx, r, used, selectors);
        if step.None? then None
        else
          var rest := PlanFrom(ctx, routes[1..], Take(ctx.settings.bases, used, step.value.slot), seen + {r.id}, selectors + [step.value.selector]);
          if rest.None? then None else Some([step.value.intent] + rest.value)
  }

  const MAXIMUM_ROUTES: nat := 128

  function Plan(ctx: Planner, routes: seq<Route>, used: Used): Option<seq<Intent>> {
    if !ValidSettings(ctx.settings) || |routes| > MAXIMUM_ROUTES || !NamesDistinct(ctx.interfaces) then None
    else PlanFrom(ctx, routes, used, {}, [])
  }

  // ---------------------------------------------------------------- the planning loop

  method ClashesWith(selectors: seq<Selector>, selector: Selector) returns (clash: bool)
    ensures clash == Clashes(selectors, selector)
  {
    for i := 0 to |selectors|
      invariant forall j | 0 <= j < i :: !SelectorsOverlap(selectors[j], selector)
    {
      if SelectorsOverlap(selectors[i], selector) {
        return true;
      }
    }
    return false;
  }

  /** One turn of the loop; the slot is taken before the outbound's health is looked at. */
  method BuildOne(ctx: Planner, r: Route, slots: PolicySlots, selectors: seq<Selector>) returns (step: Option<Step>)
    requires slots.bases == ctx.settings.bases
    modifies slots
    ensures step == PlanOne(ctx, r, old(slots.Contents()), selectors)
    ensures step.Some? ==> slots.Contents() == Take(ctx.settings.bases, old(slots.Contents()), step.value.slot)
  {
    var selector := ResolveIngress(r.source, ctx.interfaces, ctx.settings.protected);
    if selector.None? {
      return None;
    }
    var clash := ClashesWith(selectors, selector.value);
    if clash {
      return None;
    }
    var choice := Choose(r.policy, ctx.outbounds);
    if choice.None? {
      return None;
    }
    var slot := slots.Allocate(r.digest.start);
    if slot.None? {
      return None;
    }
    var tunnel := TunnelOf(ctx, r, choice.value);
    if tunnel.None? {
      return None;
    }
    return Some(Step(selector.value, slot.value, IntentOf(ctx, r, selector.value, choice.value, tunnel.value, slot.value)));
  }

  method BuildPlan(ctx: Planner, routes: seq<Route>, slots: PolicySlots) returns (r: Option<seq<Intent>>)
    requires slots.bases == ctx.settings.bases
    modifies slots
    ensures r == Plan(ctx, routes, old(slots.Contents()))
  {
    if !ValidSettings(ctx.settings) || |routes| > MAXIMUM_ROUTES || !NamesDistinct(ctx.interfaces) {
      return None;
    }
    var intents: seq<Intent>, seen: set<nat>, selectors: seq<Selector> := [], {}, [];
    PrependToNothing(PlanFrom(ctx, routes, slots.Contents(), {}, []));
    assert routes[0..] == routes;
    for i := 0 to |routes|
      invariant Prepend(intents, PlanFrom(ctx, routes[i..], slots.Contents(), seen, selectors)) == PlanFrom(ctx, routes, old(slots.Contents()), {}, [])
    {
      assert routes[i..][0] == routes[i] && routes[i..][1..] == routes[i + 1..];
      if !ValidRoute(routes[i]) || routes[i].id in seen {
        return None;
      }
      seen := seen + {routes[i].id};
      if !routes[i].enabled {
        continue;
      }
      var step := BuildOne(ctx, routes[i], slots, selectors);
      if step.None? {
        return None;
      }
      selectors := selectors + [step.value.selector];
      PrependTwice(intents, step.value.intent, PlanFrom(ctx, routes[i + 1..], slots.Contents(), seen, selectors));
      intents := intents + [step.value.intent];
    }
    PrependNothing(intents);
    return Some(intents);
  }

  function Prepend(intents: seq<Intent>, rest: Option<seq<Intent>>): Option<seq<Intent>> {
    if rest.None? then None else Some(intents + rest.value)
  }

  lemma PrependTwice(intents: seq<Intent>, i: Intent, rest: Option<seq<Intent>>)
    ensures Prepend(intents, Prepend([i], rest)) == Prepend(intents + [i], rest)
  {
    assert rest.Some? ==> intents + ([i] + rest.value) == (intents + [i]) + rest.value;
  }

  lemma PrependToNothing(rest: Option<seq<Intent>>)
    ensures Prepend([], rest) == rest
  {
    assert rest.Some? ==> [] + rest.value == rest.value;
  }

  lemma PrependNothing(intents: seq<Intent>)
    ensures Prepend(intents, Some([])) == Some(intents)
  {
    assert intents + [] == intents;
  }

  // ---------------------------------------------------------------- what a plan is

  function SelectorOf(i: Intent): Selector {
    Selector(i.ingress, if i.source.SubnetSource? then Some(i.source.subnet) else None)
  }

  /** The intent occupies a slot: its numbers, and unless it leaves by a native interface its networks. */
  predicate Occupies(bases: Bases, i: Intent, slot: nat) {
    && slot < SLOTS
    && i.table == Word(bases.table + slot) && i.priority == Word(bases.priority + slot)
    && i.tunnelAddresses == if i.adapter == NativeAdapter then [] else [SlotNet4(slot), SlotNet6(slot)]
  }

  ghost predicate HasFreeSlot(bases: Bases, used: Used, i: Intent) {
    exists slot :: Occupies(bases, i, slot) && Free(bases, used, slot)
  }

  /** What holds of each planned intent by itself. */
  ghost predicate Grounded(ctx: Planner, used: Used, seen: set<nat>, selectors: seq<Selector>, i: Intent) {
    && i.id !in seen
    && ResolveSource(i.source, ctx.interfaces, ctx.settings.protected) == Some(SelectorOf(i))
    && !Clashes(selectors, SelectorOf(i))
    && HasFreeSlot(ctx.settings.bases, used, i)
  }

  /** What holds of any two planned intents. */
  predicate Apart(i: Intent, j: Intent) {
    && i.id != j.id && i.table != j.table && i.priority != j.priority
    && !SelectorsOverlap(SelectorOf(i), SelectorOf(j))
  }

  lemma PlanOneGrounded(ctx: Planner, r: Route, used: Used, seen: set<nat>, selectors: seq<Selector>)
    requires r.id !in seen && PlanOne(ctx, r, used, selectors).Some?
    ensures var step := PlanOne(ctx, r, used, selectors).value;
      && Grounded(ctx, used, seen, selectors, step.intent)
      && Occupies(ctx.settings.bases, step.intent, step.slot)
      && step.selector == SelectorOf(step.intent) && step.intent.id == r.id
  {
    var step := PlanOne(ctx, r, used, selectors).value;
    SelectorOfResolved(r.source, ctx.interfaces, ctx.settings.protected);
    PlanOneSlot(ctx, r, used, selectors);
  }

  lemma PlanOneSlot(ctx: Planner, r: Route, used: Used, selectors: seq<Selector>)
    requires PlanOne(ctx, r, used, selectors).Some?
    ensures var step := PlanOne(ctx, r, used, selectors).value;
      && Occupies(ctx.settings.bases, step.intent, step.slot) && HasFreeSlot(ctx.settings.bases, used, step.intent)
  {
    var step := PlanOne(ctx, r, used, selectors).value;
    var choice := Choose(r.policy, ctx.outbounds).value;
    PickFinds(ctx.settings.bases, used, r.digest.start, 0);
    IntentOccupies(ctx, used, r, step.selector, choice, TunnelOf(ctx, r, choice).value, step.slot);
  }

  lemma IntentOccupies(ctx: Planner, used: Used, r: Route, selector: Selector, c: Choice, tunnel: Name, slot: nat)
    requires slot < SLOTS && Free(ctx.settings.bases, used, slot)
    ensures Occupies(ctx.settings.bases, IntentOf(ctx, r, selector, c, tunnel, slot), slot)
    ensures HasFreeSlot(ctx.settings.bases, used, IntentOf(ctx, r, selector, c, tunnel, slot))
  {
    assert Occupies(ctx.settings.bases, IntentOf(ctx, r, selector, c, tunnel, slot), slot);
  }

  lemma SelectorOfResolved(source: Source, interfaces: seq<Interface>, protected: seq<Prefix>)
    requires ResolveSource(source, interfaces, protected).Some?
    ensures var s := ResolveSource(source, interfaces, protected).value;
      && s.subnet == (if source.SubnetSource? then Some(source.subnet) else None)
      && (source.InterfaceSource? ==> s.ingress == source.name)
  {
  }

  lemma ClashesWeaker(selectors: seq<Selector>, selector: Selector, s: Selector)
    requires !Clashes(selectors + [selector], s)
    ensures !Clashes(selectors, s) && !SelectorsOverlap(selector, s)
  {
    var all := selectors + [selector];
    assert all[|selectors|] == selector;
    forall k | 0 <= k < |selectors| ensures !SelectorsOverlap(selectors[k], s) {
      assert all[k] == selectors[k];
    }
  }

  lemma FreeWeaker(bases: Bases, used: Used, slot: nat, i: Intent)
    requires HasFreeSlot(bases, Take(bases, used, slot), i)
    ensures HasFreeSlot(bases, used, i)
    ensures i.table != Word(bases.table + slot) && i.priority != Word(bases.priority + slot)
  {
    var own :| Occupies(bases, i, own) && Free(bases, Take(bases, used, slot), own);
    assert Free(bases, used, own);
  }

  lemma {:induction false} PlanFacts(ctx: Planner, routes: seq<Route>, used: Used, seen: set<nat>, selectors: seq<Selector>)
    requires PlanFrom(ctx, routes, used, seen, selectors).Some?
    ensures var intents := PlanFrom(ctx, routes, used, seen, selectors).value;
      && |intents| <= |routes|
      && (forall k | 0 <= k < |intents| :: Grounded(ctx, used, seen, selectors, intents[k]))
      && (forall k, l | 0 <= k < l < |intents| :: Apart(intents[k], intents[l]))
    decreases |routes|
  {
    if routes != [] {
      var r := routes[0];
      if !r.enabled {
        PlanFacts(ctx, routes[1..], used, seen + {r.id}, selectors);
      } else {
        var step := PlanOne(ctx, r, used, selectors).value;
        var taken := Take(ctx.settings.bases, used, step.slot);
        PlanOneGrounded(ctx, r, used, seen, selectors);
        PlanFacts(ctx, routes[1..], taken, seen + {r.id}, selectors + [step.selector]);
        var rest := PlanFrom(ctx, routes[1..], taken, seen + {r.id}, selectors + [step.selector]).value;
        forall k | 0 <= k < |rest| ensures Grounded(ctx, used, seen, selectors, rest[k]) && Apart(step.intent, rest[k]) {
          GroundedAfter(ctx, used, seen, selectors, step, rest[k]);
        }
      }
    }
  }

  /** An intent planned after a step is also grounded before it, and apart from what the step planned. */
  lemma GroundedAfter(ctx: Planner, used: Used, seen: set<nat>, selectors: seq<Selector>, step: Step, i: Intent)
    requires step.selector == SelectorOf(step.intent) && Occupies(ctx.settings.bases, step.intent, step.slot)
    requires Grounded(ctx, Take(ctx.settings.bases, used, step.slot), seen + {step.intent.id}, selectors + [step.selector], i)
    ensures Grounded(ctx, used, seen, selectors, i) && Apart(step.intent, i)
  {
    ClashesWeaker(selectors, step.selector, SelectorOf(i));
    FreeWeaker(ctx.settings.bases, used, step.slot, i);
  }

  lemma PlanOneValid(ctx: Planner, r: Route, used: Used, selectors: seq<Selector>)
    requires ValidSettings(ctx.settings) && ValidRoute(r) && PlanOne(ctx, r, used, selectors).Some?
    ensures ValidIntent(PlanOne(ctx, r, used, selectors).value.intent)
  {
    var step := PlanOne(ctx, r, used, selectors).value;
    var choice := Choose(r.policy, ctx.outbounds).value;
    PickFinds(ctx.settings.bases, used, r.digest.start, 0);
    SelectorOfResolved(r.source, ctx.interfaces, ctx.settings.protected);
    ChoiceIsValid(ctx, r);
    IntentIsValid(ctx, r, step.selector, choice, TunnelOf(ctx, r, choice).value, step.slot);
  }

  lemma IntentIsValid(ctx: Planner, r: Route, selector: Selector, c: Choice, tunnel: Name, slot: nat)
    requires ctx.settings.bases.Valid() && ValidRoute(r) && slot < SLOTS && SoundChoice(r.policy, c)
    requires r.source.InterfaceSource? ==> selector.ingress == r.source.name
    requires if c.adapter == NativeAdapter then tunnel.Native? else tunnel == Tunnel(r.digest.name)
    ensures ValidIntent(IntentOf(ctx, r, selector, c, tunnel, slot))
  {
    SlotArithmeticNeverWraps(ctx.settings.bases, 0, 0, slot);
    TunnelsAreValid(c.adapter, slot);
  }

  predicate SoundChoice(p: Policy, c: Choice) {
    && ValidBypass(c.bypass) && (c.adapter == SingBoxAdapter || c.adapter == NativeAdapter)
    && (if c.useDirect then p.failure == FailDirect && c.selected.None?
        else c.selected.Some? && (c.selected.value == p.outbound || (p.failure == FailOver && c.selected == p.fallback)))
  }

  lemma TunnelsAreValid(adapter: Adapter, slot: nat)
    requires slot < SLOTS && (adapter == SingBoxAdapter || adapter == NativeAdapter)
    ensures ValidTunnels(adapter, if adapter == NativeAdapter then [] else [SlotNet4(slot), SlotNet6(slot)])
  {
    SlotNet4IsTunnel(slot);
    SlotNet6IsTunnel(slot);
  }

  lemma ChoiceIsValid(ctx: Planner, r: Route)
    requires ValidPolicy(r.policy) && Choose(r.policy, ctx.outbounds).Some?
    ensures SoundChoice(r.policy, Choose(r.policy, ctx.outbounds).value)
  {
    ChoiceBypassIsValid(r.policy, ctx.outbounds);
  }

  lemma {:induction false} PlannedIntentsValid(ctx: Planner, routes: seq<Route>, used: Used, seen: set<nat>, selectors: seq<Selector>)
    requires ValidSettings(ctx.settings) && PlanFrom(ctx, routes, used, seen, selectors).Some?
    ensures var intents := PlanFrom(ctx, routes, used, seen, selectors).value; forall k | 0 <= k < |intents| :: ValidIntent(intents[k])
    decreases |routes|
  {
    if routes != [] {
      var r := routes[0];
      if !r.enabled {
        PlannedIntentsValid(ctx, routes[1..], used, seen + {r.id}, selectors);
      } else {
        var step := PlanOne(ctx, r, used, selectors).value;
        PlanOneValid(ctx, r, used, selectors);
        PlannedIntentsValid(ctx, routes[1..], Take(ctx.settings.bases, used, step.slot), seen + {r.id}, selectors + [step.selector]);
      }
    }
  }

  // ---------------------------------------------------------------- the theorems

  /**
   * Enabled subnet routes are disjoint on the whole host, not just per ingress: no two planned subnet sources share
   * an address.
   */
  lemma EnabledSubnetsAreDisjoint(ctx: Planner, routes: seq<Route>, used: Used, k: nat, l: nat, a: Addr)
    requires Plan(ctx, routes, used).Some? && k < l < |Plan(ctx, routes, used).value|
    requires Plan(ctx, routes, used).value[k].source.SubnetSource? && Plan(ctx, routes, used).value[l].source.SubnetSource?
    ensures !(Plan(ctx, routes, used).value[k].source.subnet.Contains(a) && Plan(ctx, routes, used).value[l].source.subnet.Contains(a))
  {
    PlanFacts(ctx, routes, used, {}, []);
    var i, j := Plan(ctx, routes, used).value[k], Plan(ctx, routes, used).value[l];
    assert Grounded(ctx, used, {}, [], i) && Grounded(ctx, used, {}, [], j) && Apart(i, j);
    OverlapIffShared(i.source.subnet, j.source.subnet);
    if Overlap(i.source.subnet, j.source.subnet) {
      OverlapForcesOneIngress(ctx.interfaces, ctx.settings.protected, i.source.subnet, j.source.subnet);
    }
  }

  /** Tables and priorities are new, in range and all different; tunnel networks are unused and disjoint. */
  lemma AllocationIsFresh(ctx: Planner, routes: seq<Route>, used: Used, k: nat)
    requires Plan(ctx, routes, used).Some? && k < |Plan(ctx, routes, used).value|
    ensures var intents, b := Plan(ctx, routes, used).value, ctx.settings.bases;
      && b.table <= intents[k].table < b.table + SLOTS && b.priority <= intents[k].priority < b.priority + SLOTS
      && intents[k].table !in used.tables && intents[k].priority !in used.priorities
      && (forall t | t in intents[k].tunnelAddresses :: !OverlapsAny(t, used.prefixes))
      && (forall l | 0 <= l < |intents| && l != k :: AllocatedApart(intents[k], intents[l]))
  {
    PlanFacts(ctx, routes, used, {}, []);
    var intents, b := Plan(ctx, routes, used).value, ctx.settings.bases;
    assert Grounded(ctx, used, {}, [], intents[k]);
    SlotFacts(b, used, intents[k]);
    forall l | 0 <= l < |intents| && l != k ensures AllocatedApart(intents[k], intents[l]) {
      assert Grounded(ctx, used, {}, [], intents[l]);
      assert if k < l then Apart(intents[k], intents[l]) else Apart(intents[l], intents[k]);
      SlotsApart(b, used, intents[k], intents[l]);
    }
  }

  /** No number in common and no address in common. */
  predicate AllocatedApart(i: Intent, j: Intent) {
    i.table != j.table && i.priority != j.priority
    && forall t, u | t in i.tunnelAddresses && u in j.tunnelAddresses :: !Overlap(t, u)
  }

  lemma SlotFacts(bases: Bases, used: Used, i: Intent)
    requires bases.Valid() && HasFreeSlot(bases, used, i)
    ensures bases.table <= i.table < bases.table + SLOTS && bases.priority <= i.priority < bases.priority + SLOTS
    ensures i.table !in used.tables && i.priority !in used.priorities
    ensures forall t | t in i.tunnelAddresses :: !OverlapsAny(t, used.prefixes)
  {
    var slot :| Occupies(bases, i, slot) && Free(bases, used, slot);
    SlotArithmeticNeverWraps(bases, 0, 0, slot);
    NetsOf(bases, i, slot);
  }

  lemma NetsOf(bases: Bases, i: Intent, slot: nat)
    requires Occupies(bases, i, slot)
    ensures forall t | t in i.tunnelAddresses :: t == SlotNet4(slot) || t == SlotNet6(slot)
  {
  }

  lemma SlotsApart(bases: Bases, used: Used, i: Intent, j: Intent)
    requires HasFreeSlot(bases, used, i) && HasFreeSlot(bases, used, j) && i.table != j.table && i.priority != j.priority
    ensures AllocatedApart(i, j)
  {
    var s :| Occupies(bases, i, s) && Free(bases, used, s);
    var t :| Occupies(bases, j, t) && Free(bases, used, t);
    NetsOf(bases, i, s);
    NetsOf(bases, j, t);
    AllNetsDisjoint(s, t);
  }

  lemma AllNetsDisjoint(s: nat, t: nat)
    requires s < SLOTS && t < SLOTS && s != t
    ensures !Overlap(SlotNet4(s), SlotNet4(t)) && !Overlap(SlotNet6(s), SlotNet6(t))
    ensures !Overlap(SlotNet4(s), SlotNet6(t)) && !Overlap(SlotNet6(s), SlotNet4(t))
  {
    SlotNetsDisjoint(s, t);
  }

  /** Whatever the planner accepts, the reader of the owned state accepts: every intent valid, no ID twice, at most 128. */
  lemma PlansAreReadable(ctx: Planner, routes: seq<Route>, used: Used)
    requires Plan(ctx, routes, used).Some?
    ensures var intents := Plan(ctx, routes, used).value;
      && |intents| <= MAXIMUM_ROUTES
      && (forall k | 0 <= k < |intents| :: ValidIntent(intents[k]))
      && (forall k, l | 0 <= k < l < |intents| :: intents[k].id != intents[l].id)
  {
    PlanFacts(ctx, routes, used, {}, []);
    PlannedIntentsValid(ctx, routes, used, {}, []);
    var intents := Plan(ctx, routes, used).value;
    assert forall k, l | 0 <= k < l < |intents| :: Apart(intents[k], intents[l]);
  }
}
