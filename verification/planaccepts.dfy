/** When a list of routes can be planned, and what each route is planned onto. */
module PlanAccepts {
  import opened Wrappers
  import opened Prefixes
  import opened Slots
  import opened Routes
  import opened RoutePlan

  // ---------------------------------------------------------------- which outbound carries a route

  /** Traffic to its servers can be left out of the tunnel. */
  predicate Usable(o: Outbound) {
    o.enabled && 1 <= |o.endpoints| <= 16 && forall a | a in o.endpoints :: !Unsafe(a)
  }

  /** The outbounds that a policy names can carry a route. */
  predicate Served(p: Policy, outbounds: map<nat, Outbound>) {
    && p.outbound in outbounds && Usable(outbounds[p.outbound])
    && (outbounds[p.outbound].adapter == SingBoxAdapter || (outbounds[p.outbound].adapter == NativeAdapter && p.failure != FailDirect))
    && (p.failure == FailOver ==>
          && p.fallback.Some? && p.fallback.value in outbounds && Usable(outbounds[p.fallback.value])
          && outbounds[p.fallback.value].adapter == outbounds[p.outbound].adapter)
  }

  /**
   * What is to carry the route now: its primary outbound unless that is unhealthy; then a healthy fallback, nothing at
   * all if the policy says so, and otherwise still the primary.
   */
  predicate CarriedBy(p: Policy, outbounds: map<nat, Outbound>, selected: Option<nat>, direct: bool)
    requires Served(p, outbounds)
  {
    var sick, healthyFallback := outbounds[p.outbound].health == Unhealthy, p.failure == FailOver && outbounds[p.fallback.value].health == OtherHealth;
    && (direct <==> sick && p.failure == FailDirect)
    && (selected.None? <==> direct)
    && (selected.Some? ==> selected == if sick && healthyFallback then p.fallback else Some(p.outbound))
  }

  /** The servers of the outbounds that may carry the route. */
  predicate IsServer(p: Policy, outbounds: map<nat, Outbound>, a: Addr)
    requires Served(p, outbounds)
  {
    a in outbounds[p.outbound].endpoints || (p.failure == FailOver && a in outbounds[p.fallback.value].endpoints)
  }

  lemma EndpointsIff(o: Outbound)
    ensures o.enabled && EndpointAddresses(o).Some? <==> Usable(o)
    ensures EndpointAddresses(o).Some? ==> forall a :: a in EndpointAddresses(o).value <==> a in o.endpoints
  {
    NormalizeAddressesMeaning(o.endpoints);
  }

  lemma ChooseMeaning(p: Policy, outbounds: map<nat, Outbound>)
    ensures Choose(p, outbounds).Some? <==> Served(p, outbounds)
    ensures Served(p, outbounds) ==>
      var c := Choose(p, outbounds).value;
      && c.adapter == outbounds[p.outbound].adapter && CarriedBy(p, outbounds, c.selected, c.useDirect)
      && forall a :: a in c.bypass <==> IsServer(p, outbounds, a)
  {
    if p.outbound in outbounds {
      var primary := outbounds[p.outbound];
      EndpointsIff(primary);
      if p.failure == FailOver && p.fallback.Some? && p.fallback.value in outbounds {
        EndpointsIff(outbounds[p.fallback.value]);
      }
      var own, other := EndpointAddresses(primary), FallbackAddresses(p, primary.adapter, outbounds);
      if own.Some? && other.Some? {
        NormalizeAddressesMeaning(own.value + other.value);
      }
    }
  }

  // ---------------------------------------------------------------- what a plan says of its routes

  /** The interface of the native outbound that carries the route is there and not down. */
  predicate LinkThere(ctx: Planner, name: Name) {
    Find(ctx.interfaces, name).Some? && Find(ctx.interfaces, name).value.state != Down
  }

  /** A tunnel of the route's own can always be made; a native outbound must have its interface. */
  predicate CanLeave(ctx: Planner, r: Route, selected: Option<nat>)
    requires Served(r.policy, ctx.outbounds)
  {
    ctx.outbounds[r.policy.outbound].adapter == NativeAdapter ==>
      selected.Some? && selected.value in ctx.settings.natives && LinkThere(ctx, ctx.settings.natives[selected.value])
  }

  /** The route leaves by a tunnel of its own, or by the interface of the native outbound that carries it. */
  predicate LeavesBy(ctx: Planner, r: Route, selected: Option<nat>, tunnel: Name)
    requires Served(r.policy, ctx.outbounds)
  {
    && CanLeave(ctx, r, selected)
    && tunnel == if ctx.outbounds[r.policy.outbound].adapter == NativeAdapter then ctx.settings.natives[selected.value] else Tunnel(r.digest.name)
  }

  /** Where the traffic of a route enters. */
  function Resolved(ctx: Planner, r: Route): Option<Selector> {
    ResolveSource(r.source, ctx.interfaces, ctx.settings.protected)
  }

  /** The intent is that of the route, with the outbound that is to carry it now. */
  ghost predicate Realises(ctx: Planner, r: Route, i: Intent) {
    && i.id == r.id && i.digest == r.digest && i.source == r.source && i.policy == r.policy
    && Resolved(ctx, r) == Some(SelectorOf(i))
    && Served(r.policy, ctx.outbounds)
    && i.adapter == ctx.outbounds[r.policy.outbound].adapter
    && CarriedBy(r.policy, ctx.outbounds, i.selected, i.useDirect)
    && LeavesBy(ctx, r, i.selected, i.tunnel)
    && forall a :: a in i.bypass <==> IsServer(r.policy, ctx.outbounds, a)
  }

  function Enabled(routes: seq<Route>): seq<Route> {
    if routes == [] then [] else (if routes[0].enabled then [routes[0]] else []) + Enabled(routes[1..])
  }

  lemma StepRealises(ctx: Planner, r: Route, slot: Option<nat>, selectors: seq<Selector>)
    requires PlanWith(ctx, r, slot, selectors).Some?
    ensures Realises(ctx, r, PlanWith(ctx, r, slot, selectors).value.intent)
  {
    ChooseMeaning(r.policy, ctx.outbounds);
    SelectorOfResolved(r.source, ctx.interfaces, ctx.settings.protected);
  }

  /** Every enabled route, in order, has its intent. */
  lemma {:induction false} PlanRealises(ctx: Planner, routes: seq<Route>, used: Used, seen: set<nat>, selectors: seq<Selector>)
    requires PlanFrom(ctx, routes, used, seen, selectors).Some?
    ensures var intents := PlanFrom(ctx, routes, used, seen, selectors).value;
      && |intents| == |Enabled(routes)|
      && forall k | 0 <= k < |intents| :: Realises(ctx, Enabled(routes)[k], intents[k])
    decreases |routes|
  {
    if routes != [] {
      var r := routes[0];
      if !r.enabled {
        PlanRealises(ctx, routes[1..], used, seen + {r.id}, selectors);
        assert Enabled(routes) == Enabled(routes[1..]);
      } else {
        var step := PlanOne(ctx, r, used, selectors).value;
        StepRealises(ctx, r, Pick(ctx.settings.bases, used, r.digest.start, 0), selectors);
        PlanRealises(ctx, routes[1..], Take(ctx.settings.bases, used, step.slot), seen + {r.id}, selectors + [step.selector]);
      }
    }
  }

  lemma PlannedAsAsked(ctx: Planner, routes: seq<Route>, used: Used)
    requires Plan(ctx, routes, used).Some?
    ensures var intents := Plan(ctx, routes, used).value;
      && |intents| == |Enabled(routes)|
      && forall k | 0 <= k < |intents| :: Realises(ctx, Enabled(routes)[k], intents[k])
  {
    PlanRealises(ctx, routes, used, {}, []);
  }

  /** A route whose kill switch is on is never planned to leave without an outbound. */
  lemma KillSwitchHasOutbound(ctx: Planner, routes: seq<Route>, used: Used, k: nat)
    requires Plan(ctx, routes, used).Some? && k < |Plan(ctx, routes, used).value|
    ensures var i := Plan(ctx, routes, used).value[k];
      i.policy.killSwitch ==> !i.useDirect && i.selected.Some? && i.selected.value in ctx.outbounds && ctx.outbounds[i.selected.value].enabled
  {
    PlannedAsAsked(ctx, routes, used);
    EnabledAreValid(ctx, routes, used, {}, [], k);
  }

  lemma {:induction false} EnabledAreValid(ctx: Planner, routes: seq<Route>, used: Used, seen: set<nat>, selectors: seq<Selector>, k: nat)
    requires PlanFrom(ctx, routes, used, seen, selectors).Some? && k < |Enabled(routes)|
    ensures ValidRoute(Enabled(routes)[k])
    decreases |routes|
  {
    var r := routes[0];
    if !r.enabled {
      EnabledAreValid(ctx, routes[1..], used, seen + {r.id}, selectors, k);
      assert Enabled(routes) == Enabled(routes[1..]);
    } else if k > 0 {
      var step := PlanOne(ctx, r, used, selectors).value;
      EnabledAreValid(ctx, routes[1..], Take(ctx.settings.bases, used, step.slot), seen + {r.id}, selectors + [step.selector], k - 1);
    }
  }

  // ---------------------------------------------------------------- slots

  function FreeSlots(bases: Bases, used: Used): set<nat> {
    set s: nat | s < SLOTS && Free(bases, used, s)
  }

  /** Taking a slot blocks that slot and no other. */
  lemma TakeBlocksOne(bases: Bases, used: Used, slot: nat)
    requires bases.Valid() && slot in FreeSlots(bases, used)
    ensures FreeSlots(bases, Take(bases, used, slot)) == FreeSlots(bases, used) - {slot}
  {
    SlotArithmeticNeverWraps(bases, 0, 0, slot);
    forall s: nat | s < SLOTS
      ensures Free(bases, Take(bases, used, slot), s) <==> Free(bases, used, s) && s != slot
    {
      SlotArithmeticNeverWraps(bases, 0, 0, s);
    }
  }

  lemma PicksIfAnyIsFree(bases: Bases, used: Used, start: nat)
    requires start < 0x1_0000
    ensures Pick(bases, used, start, 0).Some? <==> FreeSlots(bases, used) != {}
    ensures Pick(bases, used, start, 0).Some? ==> Pick(bases, used, start, 0).value in FreeSlots(bases, used)
  {
    AllocationFailsIffAllBlocked(bases, used, start);
    PickFinds(bases, used, start, 0);
    if slot: nat :| slot < SLOTS && Free(bases, used, slot) {
      assert slot in FreeSlots(bases, used);
    }
  }

  // ---------------------------------------------------------------- which lists can be planned

  /** What a route needs by itself. */
  ghost predicate Plannable(ctx: Planner, r: Route) {
    && Resolved(ctx, r).Some? && Served(r.policy, ctx.outbounds)
    && exists selected, direct :: CarriedBy(r.policy, ctx.outbounds, selected, direct) && CanLeave(ctx, r, selected)
  }

  predicate DigestsFit(routes: seq<Route>) {
    forall k | 0 <= k < |routes| :: routes[k].digest.start < 0x1_0000
  }

  /** Every route is valid and has an ID of its own. */
  predicate WellNamed(routes: seq<Route>, seen: set<nat>) {
    && (forall k | 0 <= k < |routes| :: ValidRoute(routes[k]) && routes[k].id !in seen)
    && (forall k, l | 0 <= k < l < |routes| :: routes[k].id != routes[l].id)
  }

  /** Every route can be planned by itself, and no two of them select the same traffic of an interface. */
  ghost predicate Compatible(ctx: Planner, routes: seq<Route>, selectors: seq<Selector>) {
    && (forall k | 0 <= k < |routes| :: Plannable(ctx, routes[k]) && !Clashes(selectors, Resolved(ctx, routes[k]).value))
    && (forall k, l | 0 <= k < l < |routes| && Resolved(ctx, routes[k]).Some? && Resolved(ctx, routes[l]).Some? ::
          !SelectorsOverlap(Resolved(ctx, routes[k]).value, Resolved(ctx, routes[l]).value))
  }

  lemma PlanOneIff(ctx: Planner, r: Route, used: Used, selectors: seq<Selector>)
    requires r.digest.start < 0x1_0000
    ensures PlanOne(ctx, r, used, selectors).Some? <==>
            Plannable(ctx, r) && !Clashes(selectors, Resolved(ctx, r).value) && FreeSlots(ctx.settings.bases, used) != {}
    ensures PlanOne(ctx, r, used, selectors).Some? ==>
      var step := PlanOne(ctx, r, used, selectors).value;
      step.selector == Resolved(ctx, r).value && step.slot in FreeSlots(ctx.settings.bases, used)
  {
    ChooseMeaning(r.policy, ctx.outbounds);
    PicksIfAnyIsFree(ctx.settings.bases, used, r.digest.start);
  }

  lemma WellNamedStep(routes: seq<Route>, seen: set<nat>)
    requires routes != []
    ensures WellNamed(routes, seen) <==> ValidRoute(routes[0]) && routes[0].id !in seen && WellNamed(routes[1..], seen + {routes[0].id})
  {
    assert forall k | 0 < k < |routes| :: routes[k] == routes[1..][k - 1];
    assert forall k | 0 <= k < |routes[1..]| :: routes[1..][k] == routes[k + 1];
  }

  lemma ClashesOneMore(selectors: seq<Selector>, first: Selector, s: Selector)
    ensures Clashes(selectors + [first], s) <==> Clashes(selectors, s) || SelectorsOverlap(first, s)
  {
    var all := selectors + [first];
    assert all[|selectors|] == first;
    if i :| 0 <= i < |selectors| && SelectorsOverlap(selectors[i], s) {
      assert all[i] == selectors[i];
    }
  }

  lemma CompatibleStep(ctx: Planner, r: Route, rest: seq<Route>, selectors: seq<Selector>)
    requires Plannable(ctx, r) && !Clashes(selectors, Resolved(ctx, r).value)
    ensures Compatible(ctx, [r] + rest, selectors) <==> Compatible(ctx, rest, selectors + [Resolved(ctx, r).value])
  {
    var all, first := [r] + rest, Resolved(ctx, r).value;
    assert forall k | 0 < k < |all| :: all[k] == rest[k - 1];
    assert forall k | 0 <= k < |rest| :: rest[k] == all[k + 1];
    forall k | 0 <= k < |rest| && Resolved(ctx, rest[k]).Some?
      ensures var s := Resolved(ctx, rest[k]).value; Clashes(selectors + [first], s) <==> Clashes(selectors, s) || SelectorsOverlap(first, s)
    {
      ClashesOneMore(selectors, first, Resolved(ctx, rest[k]).value);
    }
    if Compatible(ctx, all, selectors) {
      forall k | 0 <= k < |rest|
        ensures Plannable(ctx, rest[k]) && !Clashes(selectors + [first], Resolved(ctx, rest[k]).value)
      {
        assert rest[k] == all[k + 1] && all[0] == r;
      }
    }
    if Compatible(ctx, rest, selectors + [first]) {
      forall k | 0 <= k < |all|
        ensures Plannable(ctx, all[k]) && !Clashes(selectors, Resolved(ctx, all[k]).value)
      {
      }
      forall k, l | 0 <= k < l < |all| && Resolved(ctx, all[k]).Some? && Resolved(ctx, all[l]).Some?
        ensures !SelectorsOverlap(Resolved(ctx, all[k]).value, Resolved(ctx, all[l]).value)
      {
        assert all[l] == rest[l - 1];
      }
    }
  }

  lemma {:induction false} PlanFromIff(ctx: Planner, routes: seq<Route>, used: Used, seen: set<nat>, selectors: seq<Selector>)
    requires ctx.settings.bases.Valid() && DigestsFit(routes)
    ensures PlanFrom(ctx, routes, used, seen, selectors).Some? <==>
            WellNamed(routes, seen) && Compatible(ctx, Enabled(routes), selectors) && |Enabled(routes)| <= |FreeSlots(ctx.settings.bases, used)|
    decreases |routes|
  {
    if routes != [] {
      var r, rest, bases := routes[0], routes[1..], ctx.settings.bases;
      WellNamedStep(routes, seen);
      if !r.enabled {
        assert Enabled(routes) == Enabled(rest);
        PlanFromIff(ctx, rest, used, seen + {r.id}, selectors);
      } else {
        PlanOneIff(ctx, r, used, selectors);
        var step := PlanOne(ctx, r, used, selectors);
        if step.Some? {
          TakeBlocksOne(bases, used, step.value.slot);
          CompatibleStep(ctx, r, Enabled(rest), selectors);
          PlanFromIff(ctx, rest, Take(bases, used, step.value.slot), seen + {r.id}, selectors + [step.value.selector]);
        } else {
          assert Enabled(routes)[0] == r;
        }
      }
    }
  }

  /**
   * A list of routes is planned exactly if settings and routes are well-formed, IDs and interface names are distinct,
   * every enabled route can be planned by itself, no two select the same traffic, and there are slots enough.
   */
  lemma PlanSucceedsIff(ctx: Planner, routes: seq<Route>, used: Used)
    requires DigestsFit(routes)
    ensures Plan(ctx, routes, used).Some? <==>
            && ValidSettings(ctx.settings) && |routes| <= MAXIMUM_ROUTES && NamesDistinct(ctx.interfaces)
            && WellNamed(routes, {}) && Compatible(ctx, Enabled(routes), [])
            && |Enabled(routes)| <= |FreeSlots(ctx.settings.bases, used)|
  {
    if ValidSettings(ctx.settings) {
      PlanFromIff(ctx, routes, used, {}, []);
    }
  }
}
