# Egress Manager: a verified model

Egress Manager is a daemon that owns parts of a Linux host's network configuration: port forwards (nftables or
iptables), egress routes with a kill switch (nftables, policy routing, sing-box tunnels), and the files of the
proxies it runs. Every change is journaled, applied, verified and committed, and can be undone after a failure, after
a crash, or when the operator asks. This project models the logic of those parts in Dafny and proves what they are
for. `dafny verify dfyconfig.toml` checks all of it.

## How the model is laid out

| files | what they model |
|---|---|
| `prefixes`, `ports` | CIDR prefixes, port sets and their normal form |
| `inventory`, `forwards` | listeners and conflicts, the port-forward planner |
| `natrules`, `natrender`, `backends` | packet-level first match, the nftables and iptables renderers, their comparison |
| `iptworld`, `iptscripts`, `iptapply`, `iptinstall`, `iptpackets` | an interpreter for `iptables-restore --noflush` over hosts with foreign rules, inspection, the undo script, the apply script, packets on the resulting host |
| `journal`, `protocol` | the operation journal and the apply / crash / recover / rollback protocol as a state machine |
| `host`, `singboxexecutor`, `natexecutor`, `daemon` | the imperative executors, the recovery coordinator and the gated handlers, proved to be runs of that machine |
| `slots`, `routes`, `routeplan`, `planaccepts`, `replan` | the slot allocator, source resolution, the routing planner, when it makes a plan and which, planning again on the resulting host |
| `leakcontrol`, `nftruntime`, `policyruntime` | the leak-control firewall, policy-routing batches, and the verifiers that inspect both |
| `ruleorder`, `witnesses` | the order of policy rules against the order of firewall rules; hosts and routes that can be planned and for which the unwanted cases arise |
| `routeengine` | the order of firewall, sing-box and routing steps in apply, rollback and recovery |
| `xrayfragment`, `haproxy`, `framing` | the owned Xray routing fragment; the HAProxy printer, reader and conflict planner; the byte framings that are hashed or authenticated |

Host state is abstract: firewall tables and chains are rule lists, files are contents, IDs are ordered numbers. A
single step of an executor (a journal write, a file or table replacement, a command) may work, be refused, take
effect and still report an error, or be cut short by a crash before or after its effect. A class field counts such
mishaps, and apart from the others failed journal writes and those that took effect all the same, so that contracts can
say what holds after none, after one, or after any that are not journal writes. Ghost fields hold what the native tools
accepted last and whether what is installed has been verified. In `host` and `routeengine` a ghost record of all steps
makes statements about whole histories possible.

Where the source mutates state the model does too: loops, builders, the allocator's sets, the journal and the host
are methods and classes proved against functions, and the theorems are lemmas about those functions or about runs.

## What the proofs turned up

The code is modelled as it is. Where a property one would expect does not hold, a lemma shows the case and another
gives the exact condition.

- The two NAT back ends order source drops differently. A source refused by one forward can pass nftables because
  another forward with the same remote target admits it, while iptables drops it (`RenderingsCanDisagree`); the fates
  differ exactly for such shadowed packets (`IptablesRefinesNft`).
- Translation rules carry no source match, so the earlier of two forwards with disjoint sources on one port takes the
  packets of both (`SourcesCanBeIgnored`, with the exact condition in `TranslationHonoursSourcesIff`).
- The operator rollback for iptables compares the inspected rule list, which is grouped by chain, with the candidate's,
  which interleaves two chains. Right after a successful apply it refuses as soon as two rule pairs were rendered
  (`RollbackGuardAcceptsIff`). The undo script itself is an exact inverse wherever it runs through
  (`RollbackRestores`), which it does right after an apply (`ApplyThenUndo`).
- There are four kinds of host on which it does not run through, and `RollbackRestores` has the exact condition.
  Inspection looks for foreign rules that jump to an owned chain, but not for rules that go to one (`GotoStopsUndo`). It
  takes a jump that has the anchor's comment for the anchor even if further conditions stand before it, while the undo
  deletes the bare anchor (`DecoratedAnchorStopsUndo`). It knows an owned rule by its comment, even if that rule jumps
  to the other owned chain (`JumpBetweenOwnedStopsUndo`). And what a recorded rule leads to may have gone
  (`LostTargetStopsUndo`).
- For the same reason an apply adds no anchor where there is one with further conditions, and the rules it installs do
  not see all packets (`ApplyAnchorsIff`).
- A journal write can take effect and still report an error. After an apply nothing is undone then: the entry is found in
  another state than expected and left alone, and the candidate stays, verified or even committed although an error was
  reported. It is the only single failure that is not undone (`SingBoxExecutor.Execute`, `NatExecutor.Execute`).
- An undo that fails is filed as FAILED, which counts as finished. The gate stays open although the host holds a
  configuration the journal did not commit (`FailedUndoLeavesCandidate`). Claims about the live configuration are
  therefore made for journals without such an entry, or for components that have committed since (`LiveIsSettled`).
- The leak-control selector narrows by subnet only in the subnet's own family. A route with an IPv6 subnet ahead of one
  with an IPv4 subnet on the same ingress therefore decides all IPv4 packets of the latter
  (`OtherFamilySubnetTakesOver`, `PlannedTakeover`, with the exact condition in `SubnetRouteOwnTunnelIff`), and DNS to
  the host is dropped for the whole ingress (`InputChainMeaning`).
- Policy rules are walked in the order of hashed slots, firewall rules in the order of IDs. For two subnet routes of one
  family on one ingress the two can disagree about packets of the other family, which are then dropped
  (`OrdersDisagree`, `PlannedOrdersDisagree`), and packets to the outbound's own addresses even if the orders agree
  (`BypassDisagrees`, `PlannedBypassDisagrees`). `AllAcceptedIff` has the exact condition.
- A policy rule for a single address is listed without a prefix length, which the verifier of policy routes cannot read;
  a route for such a subnet is never accepted (`OneAddressIsRefused`, with the exact condition in `BatchIsAcceptedIff`).
- The undo of a route change deletes the rules of the candidate only and then adds every recorded rule, and adding a
  rule that is there is an error. If an apply that drops a route fails before it has deleted that route's rule, or
  recovery runs again after the rules came back, the undo fails and the operation is filed as FAILED (`UndoCanFail`,
  `PlannedUndoCanFail`, `PlannedUndo`, with the exact conditions in `Restore` and `AlwaysUndoableIff`).
- Planning the same routes again on the host they were installed on can be refused: tunnels that are up carry addresses,
  so a subnet that overlaps their networks no longer maps to one interface (`UniqueLocalSubnetIsRefused`,
  `PlannedUniqueLocal`). And it can move routes: releasing also gives back the prefixes of native interfaces
  (`NativeRouteMoves`, `PlannedNativeMove`). The exact conditions are in `AllocationFixpoint` and `AllocationFixpointIff`.
- A proxy socket on `::` that the listing tool prints as `*` enters the inventory as 0.0.0.0. It is then not recognised
  as the proxy's own and still overlaps it, so the same plan is refused from then on (`DualStackIsRefused`, with the
  exact condition in `NoSelfConflictIff`); one on 0.0.0.0 is recognised however it is printed.
- The Xray planner limits the foreign rules only, so it can write a fragment its own reader refuses
  (`FragmentReadableIff`).

## Model

| member | source | states |
|---|---|---|
| `Prefixes.OverlapIffShared` | internal/routing/plan.go:493-495 | The overlap test, which only looks at the two base addresses, holds exactly when some address lies in both prefixes, for both families and for bases with host bits. |
| `Prefixes.SharingMeansNested` | internal/routing/plan.go:493-495 | Two prefixes with a common address are nested: everything in the longer one is in the shorter one. |
| `Prefixes.OverlapWidens` | internal/routing/plan.go:459-464 | Whatever overlaps a prefix also overlaps every wider prefix that overlaps it. |
| `Prefixes.MaskedContains` | internal/routing/plan.go:473-481 | Clearing host bits keeps the prefix overlapping itself. |
| `Ports.NormalizeRanges` | internal/nat/plan.go:188-207 | The merged list denotes the same ports and is ascending with a gap between neighbours, although the last range is widened in place. |
| `Ports.NormalIsCanonical` | internal/nat/plan.go:188-207 | Two such lists that denote the same ports are equal, so merging is a normal form. |
| `Ports.WidenLast` | internal/nat/plan.go:198-203 | Widening the last range to take in the next one changes neither the order nor the union. |
| `Ports.ComplementMeaning` | internal/nat/plan.go:282-298 | The ranges left out between the excluded ones are exactly the ports 1..65535 outside them. |
| `Ports.ComplementLoop` | internal/nat/plan.go:286-297 | The loop that advances `next` computes that complement without passing the last port. |
| `Ports.ComplementIsNormal` | internal/nat/plan.go:282-298 | The complement is again ascending with gaps. |
| `Inventory.DetectConflicts` | internal/inventory/conflict.go:22-47 | Fails exactly on an unusable binding; otherwise lists, sorted, exactly the pairs with equal protocol and port for which some destination address is received by both sockets, whatever a listed text that is no address stands for. |
| `Inventory.OverlapIsSharing` | internal/inventory/conflict.go:58-65 | The address test holds exactly when some destination is received by both: all of them by a wildcard, one by an address, an unknown one by text that is none. |
| `Forwards.NormalizeForward` | internal/nat/plan.go:176-186 | Normalisation keeps what a forward captures, orders its protocols, and leaves a remapped range as written. |
| `Forwards.ComputeAllowedRanges` | internal/nat/plan.go:282-298 | For a prepared forward, in both port modes, the ranges are ascending with gaps and contain exactly the ports 1..65535 that the port test accepts. |
| `Forwards.AllowedRangesAreMatchingPorts` | internal/nat/plan.go:249-254 | The allowed ranges of a prepared forward contain exactly the ports 1..65535 that the port test accepts. |
| `Forwards.RangesOverlap` | internal/nat/plan.go:300-313 | Returns a port that both lists contain, or nothing exactly when they share none in 1..65535. |
| `Forwards.SourcesOverlapIffShared` | internal/nat/plan.go:326-338 | The source test holds exactly when some source address is allowed by both forwards. |
| `Forwards.EnforceSafety` | internal/nat/plan.go:209-247 | Accepts exactly the forwards that avoid loopback and protected prefixes and ports and, if enabled, every listener that would receive a packet for the same address, port and protocol. |
| `Forwards.RejectDuplicates` | internal/nat/plan.go:265-280 | Accepts exactly the lists in which no two enabled forwards capture a common packet. |
| `Forwards.PrepareForwards` | internal/nat/plan.go:135-165 | Succeeds exactly when the policy, every forward of the family and every pair are acceptable, and then returns the normalised forwards in ID order. |
| `Forwards.AtMostOneCapture` | internal/nat/plan.go:265-280 | After preparation no source, address, protocol and port is captured by two enabled forwards. |
| `NatRender.RenderNft` | internal/nat/nft.go:12-59 | The nested loops print the four specified blocks of nftables rules. |
| `NatRender.NftMeaning` | internal/nat/nft.go:12-101 | First match in the printed table: the first forward that reaches a packet translates it; a translated packet is accepted if any forward admits it, dropped if some forward carries it and none admits it. |
| `NatRender.TranslatedRangeNeverWraps` | internal/nat/iptables.go:235-242 | The 16- and 32-bit arithmetic of the translated range never wraps for a prepared forward. |
| `NatRender.RemapNeverWraps` | internal/nat/nft.go:90-101 | Nor does the remapped range of the nftables target. |
| `NatRender.RenderIptLines` | internal/nat/iptables.go:163-185 | The triple loop over forwards, protocols and ranges prints the specified interleaved rule lists. |
| `NatRender.IptMeaning` | internal/nat/iptables.go:163-233 | First match in each owned chain: the first forward that reaches, carries or stands behind the packet decides alone. |
| `BackEnds.SameTargetSameDecided` | internal/nat/iptables.go:163-233 | Both back ends choose the same translation, decide the same packets, accept in nftables whatever iptables accepts, and agree exactly when the packet is not shadowed. |
| `BackEnds.IptablesRefinesNft` | internal/nat/nft.go:12-101 | End to end: what iptables delivers nftables delivers alike, translated and masqueraded alike; the fates differ exactly when the translated packet is shadowed. |
| `BackEnds.DisjointBackendsAgree` | internal/nat/nft.go:12-101 | With no two enabled forwards sharing listen address, remote address, protocol and a translated port the fates are equal for every packet. |
| `BackEnds.RenderingsCanDisagree` | internal/nat/nft.go:32-49 | For any addresses there are forwards the planner accepts and a packet that nftables sends on and iptables drops. |
| `BackEnds.TranslationHonoursSourcesIff` | internal/nat/iptables.go:218-220 | A planned forward gets every packet it is configured for exactly when no earlier enabled forward shares a listen port with it, because translation ignores sources. |
| `BackEnds.SourcesCanBeIgnored` | internal/nat/iptables.go:218-220 | For any two disjoint source prefixes there are forwards on one port that the planner accepts, where the first takes a packet the second is configured for and the first must refuse. |
| `IptWorld.RunAppends` | internal/nat/iptables.go:195-197 | Appending interleaved rules extends each owned chain by its own rules in order and touches nothing else. |
| `IptScripts.ParseTableLoop` | internal/nat/iptables.go:42-101 | The line-by-line parser computes the specified state, which takes any jump with the anchor comment for the anchor, or stops at the first collision. |
| `IptScripts.ParseOfSave` | internal/nat/iptables.go:42-101 | Parsing what the saving tool prints for a well-formed table adds exactly its owned chains, anchors and rules, whatever foreign chains are there. |
| `IptScripts.Inspect` | internal/nat/iptables_runtime.go:18-38 | For every host: yields the owned state exactly if the host is well-formed, anchors with further conditions and owned rules that jump elsewhere included, and an error otherwise. |
| `IptScripts.AcceptedIffWellFormed` | internal/nat/iptables.go:42-113 | What the saving tool prints for a table is accepted exactly if owned chains hold owned rules only, whatever these lead to, each in its own table, every jump to one from outside is its anchor, with or without further conditions, none is anchored twice, and anchored chains exist. |
| `IptApply.BuildIPTablesRollback` | internal/nat/iptables_runtime.go:197-218 | The builder writes the specified undo script step by step. |
| `IptApply.WriteChainRestore` | internal/nat/iptables_runtime.go:230-243 | Flush, then the recorded rules of this chain or its deletion. |
| `IptApply.AnchorBlock` | internal/nat/iptables_runtime.go:220-228 | Unless it has to remove an anchor with further conditions, running the anchor part of the undo leaves the hook anchored exactly if the earlier state had it, the other rules of the hook in place, and every other chain alone. |
| `IptApply.RollbackRestores` | internal/nat/iptables_runtime.go:182-243 | On every host that inspection accepts and for every earlier state the undo script runs without error exactly if no foreign rule goes (`-g`) to a chain it has to delete, every anchor it has to remove is bare, the chains recorded rules lead to exist, and, unless declaring clears, no rule of a chain flushed later leads to one deleted earlier; it then leaves the owned chains and anchors of that state, and keeps every foreign rule and its order. |
| `IptApply.GotoStopsUndo` | internal/nat/iptables.go:107-109 | Inspection looks for ` -j ` only; a foreign rule that goes to a chain the undo has to delete makes its table section fail. |
| `IptApply.DecoratedAnchorStopsUndo` | internal/nat/iptables_runtime.go:220-223 | Inspection takes a jump with further conditions for the anchor; the undo deletes the bare one only, and where there is none its table section fails. |
| `IptApply.DecoratedHostIsStuck` | internal/nat/iptables.go:111-113 | Such a host: accepted, its jumps all have targets, and the undo to a state without chains fails on it. |
| `IptApply.JumpBetweenOwnedStopsUndo` | internal/nat/iptables.go:103-105 | An owned rule is told by its comment alone; where declaring leaves rules alone, one that leads from the chain flushed later to the chain deleted earlier makes the undo fail. |
| `IptApply.LinkedHostIsStuck` | internal/nat/iptables_runtime.go:230-243 | Such a host: accepted, its jumps all have targets, and the undo to a state without chains fails on it. |
| `IptApply.LostTargetStopsUndo` | internal/nat/iptables_runtime.go:234-239 | A recorded rule that leads to a chain of others that has gone cannot be put back, and the undo fails. |
| `IptInstall.RenderIptables` | internal/nat/iptables.go:186-216 | The candidate is the specified script. |
| `IptPackets.InstalledHooks` | internal/nat/iptables.go:199-214 | After an apply the walks of PREROUTING and POSTROUTING of the nat table and of FORWARD of the filter table hand every packet to the rendered rules, after what rules of others ahead of the anchor decide and before those behind it. |
| `IptPackets.InstalledFate` | internal/nat/iptables.go:163-216 | On a host whose other rules leave packets alone the walk of the built-in chains gives every packet the fate of the rendered lists, with which the two back ends are compared. |
| `IptInstall.ApplyInstalls` | internal/nat/iptables.go:163-216 | On every host that inspection accepts the candidate runs without error, leaves exactly the rendered rules per chain and one anchor each, as inspection counts anchors, and keeps every foreign rule and its order. |
| `IptInstall.ApplyAnchorsIff` | internal/nat/iptables.go:199-214 | After the apply a hook passes all packets to its owned chain exactly if it was not anchored by a jump with further conditions before. |
| `IptInstall.ReapplyIsFixpoint` | internal/nat/iptables.go:163-216 | Planning from the installed host and applying again changes nothing. |
| `IptInstall.SnapshotDescribes` | internal/nat/iptables_runtime.go:63-77 | A snapshot taken by inspection describes its host exactly; if every jump on the host has its target, as the tool sees to, it is one the undo script can restore. |
| `IptInstall.ApplyThenUndo` | internal/nat/iptables_runtime.go:95-109 | Applying any forwards and then undoing gives back the very same host, position and conditions of anchors included; rules that lead to a chain are taken to have that chain, as the tool sees to. |
| `IptInstall.CandidatePredicts` | internal/nat/rollback.go:121-138 | Reading the candidate back yields every chain, every anchor and the rules in rendering order. |
| `IptInstall.RollbackGuardAcceptsIff` | internal/nat/rollback.go:69-76 | Right after a successful apply the guard of the operator rollback refuses whenever two or more rule pairs were rendered, or one was and the tool lists the postrouting chain first; these are all the refusals if the tool prints rules as they were written. |
| `Journal.AtMostSixTransitions` | internal/domain/transaction.go:21-50 | A legal sequence of states loses rank at every step and has at most six steps. |
| `Journal.NewestCommitted` | internal/database/operation.go:106-116 | Finds the first committed entry in the order of the query, or none exactly when there is none. |
| `Journal.UnfinishedOperations` | internal/database/operation.go:83-104 | Lists unfinished entries only, each once, in the order of their last update, the oldest ones if there are more than asked for, and nothing exactly when none is unfinished. |
| `Protocol.EveryRunKeepsInv` | internal/singbox/executor.go:53-210 | Over every run of applies, failures, crashes, recoveries and rollbacks at most one entry is unfinished, the live configuration is the snapshot before the apply, the candidate when verified and one of the two in between. |
| `Protocol.StepKeeps` | internal/domain/transaction.go:21-50 | Every single step of the protocol keeps the journal invariant. |
| `Protocol.LiveIsReplay` | internal/singbox/rollback.go:13-45 | With nothing unfinished and no failed undo the live configuration is the replay of the committed entries. |
| `Protocol.SameStackSameLive` | internal/singbox/rollback.go:13-45 | Two moments with the same committed entries have the same configuration. |
| `Protocol.LiveIsSettled` | internal/singbox/executor.go:174-183 | Even with failed undos, a component whose journal settles its configuration holds exactly that one. |
| `Protocol.NewestIsLastCommitted` | internal/database/operation.go:106-116 | The order by update, creation and row, with ties inside a clock tick, always finds the entry committed last. |
| `Protocol.TopIsLive` | internal/singbox/rollback.go:28-34 | With the gate open and no failed undo the newest committed candidate is what is installed. |
| `Protocol.SixChangesInARun` | internal/domain/transaction.go:21-50 | Over a whole run with any number of crashes an entry changes state at most six times. |
| `Protocol.FailedUndoLeavesCandidate` | internal/singbox/executor.go:174-183 | From every idle host a failed undo leads to an idle host with the gate open and the same committed entries that holds the candidate instead. |
| `Host.System.Transition` | internal/database/operation.go:36-66 | Compare-and-set: moves the entry only from the expected state along a legal edge, and on success it has moved; an error may hide that it did. |
| `Host.System.CreateOperation` | internal/database/operation.go:13-27 | Adds one prepared entry with the snapshot of the live configuration, or nothing. |
| `Host.System.WriteConfig` | internal/singbox/executor.go:185-210 | A configuration is replaced as a whole or not at all, and, unless a file is removed, only by the one the native tool accepted last. |
| `SingBoxExecutor.Execute` | internal/singbox/executor.go:53-125 | Success means that no step went wrong: the candidate is on top of the stack, runs and is verified. A stale plan touches nothing. If no journal write goes wrong the journal is idle afterwards. After one failed step, a refused journal write included, nothing new is committed, the old file is in place, and the service runs it or was not touched; a journal write that takes effect and reports an error leaves an open entry, or the candidate running. |
| `SingBoxExecutor.Install` | internal/singbox/executor.go:109-124 | Whichever single step fails, the entry ends rolled back with the snapshot in place; if no journal write goes wrong it ends committed, rolled back, or failed after a second mishap; it is committed only if it was verified. |
| `SingBoxExecutor.FailWithRollback` | internal/singbox/executor.go:165-172 | Never reports success; if the undo meets no mishap the entry is rolled back and the file is the snapshot; an entry in another state is left alone; if no journal write goes wrong the entry is closed. |
| `SingBoxExecutor.Restore` | internal/singbox/executor.go:185-210 | Success leaves the file of the snapshot, absent or present, and the service running it or stopped; failure leaves the file or the snapshot. |
| `SingBoxExecutor.Recover` | internal/singbox/executor.go:127-163 | Success, exactly if no step goes wrong, means that every interrupted entry of this component is closed, as failed if nothing had been touched and as rolled back otherwise, and that nothing else has changed. |
| `SingBoxExecutor.RollbackCommitted` | internal/singbox/rollback.go:13-45 | Refuses a changed file without touching anything; success restores the snapshot and closes the entry; a failure before the entry is reopened touches nothing; without mishap it succeeds exactly if the file is the candidate. |
| `NatExecutor.Execute` | internal/nat/executor.go:56-128 | The same protocol and outcomes for the nftables table, whose plan is only checked for the presence of the table. |
| `NatExecutor.Install` | internal/nat/executor.go:109-127 | As for the file: whichever single step fails, the entry ends rolled back with the snapshot in place, and it is committed only if it was verified. |
| `NatExecutor.RestoreSnapshot` | internal/nat/executor.go:190-224 | Success leaves the table of the snapshot, absent or present. |
| `NatExecutor.Recover` | internal/nat/executor.go:130-174 | Success, exactly if no step goes wrong, means that every interrupted entry of this component is closed, as failed if nothing had been touched and as rolled back otherwise, and that nothing else has changed. |
| `NatExecutor.RollbackCommitted` | internal/nat/rollback.go:27-51 | Refuses a changed table without touching anything; success restores the snapshot and closes the entry; a failure before the entry is reopened touches nothing; without mishap it succeeds exactly if the table is the candidate. |
| `Daemon.RunCoordinator` | internal/reliability/coordinator.go:36-76 | Runs the steps in order up to the first failure, reports each, and succeeds only if all did; a final journal check then means nothing is unfinished. |
| `Daemon.Recovery` | internal/app/daemon.go:315-326 | Success opens the gate with nothing unfinished, what had not begun given up and the rest rolled back, and finished entries as they were; failure shuts it; without mishap it succeeds. |
| `Daemon.MutateWith` | internal/app/daemon.go:255-269 | With the gate shut, an entry unfinished or a stale plan nothing changes; success pushes exactly the requested entry, verified; without mishap it succeeds exactly if the gate is open and the plan current; after one failed step other than a journal write that hides its effect nothing is committed and the configurations are as before; if no journal write goes wrong the journal stays idle. |
| `Daemon.Rollback` | internal/app/daemon.go:340-418 | Success pops exactly the newest committed entry; with the gate shut nothing changes; without mishap or failed undo it succeeds whenever something is committed. |
| `Daemon.RollbackTimes` | internal/app/daemon.go:355-363 | Undoing k times gives back exactly the configuration of k commits earlier. |
| `Daemon.Serve` | internal/app/daemon.go:241-269 | After any history of requests with a restart after every crash the invariant holds and, with nothing unfinished and no failed undo, the host holds the replay of its commits and the service runs the installed file. |
| `Slots.AllocationFailsIffAllBlocked` | internal/routing/plan.go:625-647 | The cyclic search fails exactly when all 128 slots are blocked. |
| `Slots.PickFinds` | internal/routing/plan.go:628-645 | The slot found is free and in range; with none found every remaining one is blocked. |
| `Slots.PolicySlots.Allocate` | internal/routing/plan.go:625-647 | Takes the first free slot from the hash on and marks its table and priority, or changes nothing. |
| `Slots.SlotArithmeticNeverWraps` | internal/routing/plan.go:629-631 | No table, priority or address byte wraps around for bases the settings allow. |
| `Slots.SlotNetsDisjoint` | internal/routing/plan.go:649-653 | The tunnel networks of two different slots share no address in either family. |
| `Slots.SlotNet4IsTunnel` | internal/routing/plan.go:160-168 | Every slot has an IPv4 /30 inside the space set aside. |
| `Slots.SlotNet6IsTunnel` | internal/routing/plan.go:160-168 | Every slot has an IPv6 /126 inside the space set aside. |
| `Routes.FindMatches` | internal/routing/plan.go:454-465 | Collects exactly the active interfaces that carry an address of the subnet. |
| `Routes.ResolveIngress` | internal/routing/plan.go:437-471 | A safe, unprotected subnet resolves exactly if one active interface and no other carries an address of it, and then to that interface; a named interface exactly if it is up, not the loopback and carries no protected address. |
| `Routes.OverlapForcesOneIngress` | internal/routing/plan.go:454-470 | Subnets with a common address that both resolve enter by the same interface. |
| `Routes.NormalizeAddressesMeaning` | internal/routing/plan.go:525-537 | Normalising addresses keeps the set, sorts it and removes repetitions. |
| `Routes.ChoiceBypassIsValid` | internal/routing/plan.go:248-263 | The bypass set of primary and fallback always has 1 to 32 safe, distinct addresses. |
| `RoutePlan.BuildPlan` | internal/routing/plan.go:213-315 | The planning loop computes the specified plan and fails on the same routes; what that plan is, and when there is one, is the subject of the next two rows. |
| `PlanAccepts.PlanSucceedsIff` | internal/routing/plan.go:152-322 | A plan is made exactly if settings and routes are valid, IDs and interface names distinct, every enabled route resolves and has outbounds that can carry it and an interface to leave by, no two select the same traffic, and there are at least as many free slots as enabled routes. |
| `PlanAccepts.PlannedAsAsked` | internal/routing/plan.go:241-306 | The intents are those of the enabled routes in order, with their own source, ingress and policy: carried by the primary outbound unless it is unhealthy, and then by a healthy fallback, by nothing if the policy says direct, and otherwise still by the primary; bypassing exactly the servers of primary and fallback; leaving by their own tunnel or the interface of the native outbound that carries them. |
| `PlanAccepts.KillSwitchHasOutbound` | internal/routing/plan.go:268-281 | A route whose kill switch is on is planned onto an enabled outbound and never to leave directly. |
| `RoutePlan.EnabledSubnetsAreDisjoint` | internal/routing/plan.go:227-237 | No two planned subnet sources share an address, even on different ingresses. |
| `RoutePlan.AllocationIsFresh` | internal/routing/plan.go:264-267 | Planned tables and priorities are in range, unused and pairwise different; planned tunnel networks are unused and pairwise disjoint. |
| `RoutePlan.PlansAreReadable` | internal/routing/plan.go:97-158 | Every plan passes the reader of the owned state: valid intents, no ID twice, at most 128. |
| `Replan.ReleaseOwnedResources` | internal/routing/plan.go:559-610 | Deletes exactly the tables and priorities no foreign rule or route uses, and exactly the prefixes on interfaces that earlier routes used. |
| `Replan.PlansSpareOthers` | internal/routing/plan.go:559-610 | Whatever earlier routes give back, no route is planned on a table or priority that a rule or route of somebody else uses, nor on a network that overlaps a used prefix which no interface of an earlier route carries. |
| `Replan.ReleaseGivesBack` | internal/routing/plan.go:559-610 | On the host with exactly the planned resources added, releasing gives back the very tables and priorities used before, and the prefixes used before but for those on interfaces of native routes. |
| `Replan.AllocationFixpoint` | internal/routing/plan.go:191-199 | For plans without native routes, planning again on that host, with its own interface table, gives the same plan exactly if no two tunnels share a name and, when the tunnels are up, no planned subnet overlaps a planned tunnel network. |
| `Replan.AllocationFixpointIff` | internal/routing/plan.go:191-199 | For every plan the further condition is that no search comes by a slot with unused numbers whose networks overlap nothing in use but prefixes on interfaces of native routes. |
| `Replan.UniqueLocalSubnetIsRefused` | internal/routing/plan.go:454-470 | With a planned route for fd00::/8 and any tunnel up, planning again is refused. |
| `Replan.NativeRouteMoves` | internal/routing/plan.go:591-609 | A route whose first slot was blocked only by prefixes on interfaces of native routes is not planned alike again. |
| `Witnesses.PlannedUniqueLocal` | internal/routing/plan.go:454-470 | For any ID and slot a route for fd00::/8 is planned on a host with an address in it, and refused once its tunnel is up. |
| `Witnesses.PlannedNativeMove` | internal/routing/plan.go:591-609 | For any ID and slot a native route is planned past the slot its own interface blocks, and planned elsewhere the next time. |
| `Replan.SamePlanIffSlotsClear` | internal/routing/plan.go:639-641 | When more prefixes are in use, planning again changes nothing exactly when none of them overlaps a network of a slot in use. |
| `LeakControl.RenderTable` | internal/routing/native.go:96-143 | The nested loops print the specified input and forward chains. |
| `LeakControl.ForwardChainMeaning` | internal/routing/native.go:112-143 | The forward chain does what the first intent that decides the packet says. |
| `LeakControl.SegmentSizeMeaning` | internal/routing/native.go:134-137 | The chain sets a segment size exactly for what the first deciding intent lets into its own tunnel by its kill switch, and it is the size of that intent. |
| `LeakControl.NoLeak` | internal/routing/native.go:112-143 | For any intents a protected packet never reaches the accepting policy and is accepted only into the tunnel of an intent that protects it, or as DNS that a selecting intent hands to the system. |
| `LeakControl.InterfaceRouteOwnTunnel` | internal/routing/native.go:112-143 | With planned intents the verdict on a packet protected by an interface route is fixed by that route alone: its own tunnel or its own DNS policy. |
| `LeakControl.OtherFamilySubnetTakesOver` | internal/routing/native.go:160-170 | A subnet route of the other family earlier on the same ingress takes over all packets of a subnet route and drops those that leave by the right tunnel. |
| `Witnesses.PlannedTakeover` | internal/routing/native.go:160-170 | Such lists can be planned: one interface with addresses of both families and a route for a subnet of each; a packet of the second on its way into its own tunnel is dropped. |
| `LeakControl.SubnetRouteOwnTunnelIff` | internal/routing/native.go:160-170 | With planned intents a subnet route gets its own packets out by its own tunnel and no other exactly when the first intent that claims them protects them with the same tunnel. |
| `LeakControl.InputChainMeaning` | internal/routing/native.go:103-110 | DNS to the host is dropped exactly for ingresses of routes that do not use the system resolver, whatever subnet they name. |
| `NftRuntime.ExpectedObjects` | internal/routing/nft_runtime.go:97-157 | The expected document lists rule for rule, in order, what the renderer prints. |
| `PolicyRuntime.RenderBatch` | internal/routing/native.go:172-203 | The loops print the specified commands. |
| `PolicyRuntime.BatchInstalls` | internal/routing/native.go:172-203 | On empty owned tables the batch goes through exactly if none of its rules is there already, and then leaves in each table exactly its intent's routes, one rule per intent, and other tables as they were. |
| `PolicyRuntime.VerifyPolicyRuntime` | internal/routing/runtime.go:16-119 | Accepts exactly a valid intent with its one fitting rule and a listing of exactly its routes. |
| `PolicyRuntime.MatchRoutes` | internal/routing/runtime.go:77-117 | The loop that strikes off expected routes accepts exactly well-shaped, expected, pairwise different destinations. |
| `PolicyRuntime.FitIffPermutation` | internal/routing/runtime.go:77-117 | A well-shaped listing is accepted exactly when it is a permutation of the expected routes. |
| `PolicyRuntime.PrintedIsAccepted` | internal/routing/runtime.go:77-116 | With the device, metric and scope that the host adds by itself in each family, the installed tables are accepted in whatever order they are listed. |
| `PolicyRuntime.AlienIsRefused` | internal/routing/runtime.go:16-117 | One route with another owner, table, metric, scope or an unknown attribute is enough for a refusal, and so is one rule of another owner, with other numbers or for other traffic, a second rule, or none. |
| `PolicyRuntime.BatchIsAccepted` | internal/routing/runtime.go:16-119 | On empty owned tables and with no rule at the priorities, the batch goes through and the verifier accepts every intent, except one that selects a single address, on the listing of its priority and any listing of its table. |
| `PolicyRuntime.BatchIsAcceptedIff` | internal/routing/runtime.go:16-119 | Once the batch went through, the verifier accepts an intent exactly if no rule was at its priority before and its rule does not select a single address. |
| `PolicyRuntime.OneAddressIsRefused` | internal/routing/runtime.go:37-49 | A rule for a subnet of one address is listed without a length, and what the verifier then reads is no prefix: it refuses such an intent whatever else is installed. |
| `PolicyRuntime.PlannedNumbersApart` | internal/routing/plan.go:642-644 | Planned intents have the distinct tables and priorities that this needs. |
| `RuleOrder.TableMeaning` | internal/routing/native.go:172-193 | The table of an intent sends into its tunnel exactly what follows the outbound and is not one of the outbound's own addresses, and leaves those to the next rule. |
| `RuleOrder.WalkedIsRouted` | internal/routing/native.go:194-199 | What a walk of the rules by priority sends out was routed by the intent of the lowest priority that takes it. |
| `RuleOrder.InterfaceRouteIsAccepted` | internal/routing/native.go:112-143 | With planned intents, what the rules send into the tunnel of an interface route with its kill switch on the firewall accepts, in whatever order slots and IDs come. |
| `RuleOrder.AllAcceptedIff` | internal/routing/native.go:112-143 | For planned intents: everything the rules send into the tunnel of a guarded route from its ingress is accepted exactly if, for every place it can come from and every destination no route of a lower slot keeps there, the first route in ID order that decides there guards with that tunnel. |
| `RuleOrder.AloneIsAccepted` | internal/routing/native.go:112-143 | In particular if no other planned route on the ingress names all of it in that family. |
| `RuleOrder.OrdersDisagree` | internal/routing/native.go:194-199 | Two guarded subnet routes of one family on one ingress: if slots and IDs order them differently, packets of the other family go into one tunnel by rule and are dropped by the firewall. |
| `RuleOrder.BypassDisagrees` | internal/routing/native.go:172-193 | Even in the same order: packets to an address of the first outbound itself are left to the second route by rule and dropped by the firewall. |
| `Witnesses.PlannedOrdersDisagree` | internal/routing/native.go:194-199 | Such routes can be planned, for any IDs and any two slots in the opposite order: two IPv6 subnets of one interface, and an IPv4 packet routed by one and dropped. |
| `Witnesses.PlannedBypassDisagrees` | internal/routing/native.go:172-193 | Such routes can be planned too: the two IPv6 subnets with outbounds of their own, slots in the order of IDs, and a packet to the first outbound's server routed by the second and dropped. |
| `RouteEngine.Engine.Execute` | internal/routeengine/executor.go:105-223 | Success commits: the candidate recorded and verified, its table and file in place, the service running it, exactly its rules installed, and nothing gone wrong but what is ignored on purpose. If no journal write goes wrong the operation is finished. If its rules differ, then after one failed step nothing was touched, or all that was found is restored, or the undo was impossible; a journal write that hides its effect leaves it open untouched, or the candidate in place. Without mishap it succeeds exactly if its rules differ; every moment is safe. |
| `RouteEngine.Engine.Apply` | internal/routeengine/executor.go:195-223 | If its rules differ, then whichever single step fails the operation ends rolled back, or failed because the undo was impossible. |
| `RouteEngine.Engine.ChangeHost` | internal/routeengine/executor.go:195-209 | Firewall, file, restart, tunnels, routes, in this order, the table and the file as the native checks accepted them and no rule before the tunnels are up: success leaves the table, the file, the running service and exactly the rules of the candidate in both families; a failure is a safe moment from which an undo is as possible as before. |
| `RouteEngine.Engine.FailWithRollback` | internal/routeengine/executor.go:278-295 | If the undo meets no mishap the operation ends rolled back, with table, file, service, record and rules as found, exactly if the undo is possible, and failed otherwise; if no journal write goes wrong it ends one or the other; one in another state is left alone. |
| `RouteEngine.Engine.RollbackCommitted` | internal/routeengine/rollback.go:14-68 | Refuses a changed record without touching anything; success restores all the operation found; without mishap it succeeds exactly if the undo is possible, which it is after every commit unless two earlier routes ask for the same rule. |
| `RouteEngine.Engine.Restore` | internal/routeengine/executor.go:297-356 | Success leaves what was found: file and running service, record, table (or the one rebuilt), and exactly the recorded rules; without mishap it succeeds exactly if every installed rule has the priority and table of a candidate route; every moment is safe. |
| `RouteEngine.Engine.RestoreTable` | internal/routeengine/executor.go:318-335 | Rebuilds the table from recorded routes if none was found, otherwise puts back what was found. |
| `RouteEngine.Engine.RemoveOwnedIp` | internal/routeengine/executor.go:567-611 | Success means exactly the rules with the priority and table of one of the routes are gone and none is left at a priority; without mishap it succeeds exactly if no rule shares a priority but not the table. |
| `RouteEngine.Engine.BothFamilies` | internal/routeengine/executor.go:336-351 | Success adds exactly the rules of both families; without mishap it succeeds exactly if the rules are different and none is installed already. |
| `RouteEngine.Engine.Recover` | internal/routeengine/executor.go:225-276 | Success leaves an operation that had begun rolled back, with all it found restored, and one that had not failed; without mishap it succeeds exactly if the undo is possible, and files the operation as failed otherwise. |
| `RouteEngine.Engine.Live` | internal/routeengine/executor.go:105-295 | One apply, any recoveries and operator rollbacks, each of which may die: the whole history is safe and the journaled state says what is on the host. |
| `RouteEngine.UndoCanFail` | internal/routeengine/executor.go:297-356 | Replace the only route by one with another priority and let the first step be refused: the undo is not possible, because the old rule was never deleted and is added again. |
| `RouteEngine.PlannedUndoCanFail` | internal/routeengine/executor.go:297-356 | Any two routes of one plan make such an operation. |
| `Witnesses.PlannedUndo` | internal/routeengine/executor.go:297-356 | For any two slots: one route planned, installed and recorded, the other planned on the host as it then is; when the first step of removing rules goes wrong the undo is impossible. |
| `RouteEngine.AlwaysUndoableIff` | internal/routeengine/executor.go:297-356 | The undo is possible at every moment of every safe history exactly if the recorded routes ask for different rules and the candidate keeps the priority and table of each of them. |
| `RouteEngine.TableStays` | internal/routeengine/executor.go:318-335 | Once a table is installed no later step leaves the host without one while routes are recorded. |
| `RouteEngine.KillSwitchAtEveryMoment` | internal/routeengine/executor.go:195-209 | A packet other than DNS that is protected before and after is, at every moment from the first with a table, dropped or sent only into a tunnel of a route of the table in force that protects it. |
| `RouteEngine.NewRoutesAreGuarded` | internal/routeengine/executor.go:195-209 | A rule that is new is never installed without the candidate's table, which contains the packets its route protects. |
| `RouteEngine.Serve` | internal/routeengine/executor.go:105-295 | One operation after the other on the host the one before left, for as long as that is as the record says, which it is after every commit and every finished undo: all histories are safe and follow each other. |
| `RouteEngine.KillSwitchThroughout` | internal/routeengine/executor.go:195-209 | Over any number of such operations, a packet that is protected before and after each of them is contained at every moment from the first with a table. |
| `XrayFragment.BuildFragmentPlan` | internal/xray/fragment.go:91-184 | Succeeds exactly for distinct IDs, existing tags, distinct enabled inbounds and readable foreign rules, and puts the owned rules first. |
| `XrayFragment.DecodeOwned` | internal/xray/fragment.go:218-275 | One walk with two flags and two sets accepts exactly the fragments whose owned rules are a nonempty, duplicate-free prefix. |
| `XrayFragment.FragmentPreservesMeaning` | internal/xray/fragment.go:119-161 | Each bound inbound goes to its binding's outbound and every other connection where the foreign rules sent it. |
| `XrayFragment.FragmentReadableIff` | internal/xray/fragment.go:158-161 | The program reads back its own fragment exactly when owned and foreign rules together number at most 4096. |
| `Haproxy.Render` | internal/haproxy/plan.go:225-257 | The loop prints the specified lines for the enabled frontends. |
| `Haproxy.ParseState` | internal/haproxy/plan.go:57-99 | The reader with its flag computes the specified sockets, or fails on an unreadable or surplus bind. |
| `Haproxy.ReadOfRendered` | internal/haproxy/plan.go:225-257 | Reading what was printed gives back exactly the sockets of the enabled frontends, in order. |
| `Haproxy.BuildPlan` | internal/haproxy/plan.go:130-170 | Accepts exactly distinct, servable, unprotected frontends that clash neither with each other nor with a socket that is not already owned. |
| `Haproxy.NoSelfConflictIff` | internal/haproxy/plan.go:259-278 | After an apply, planning the same frontends again meets no socket of its own exactly if no enabled frontend on `::` has its socket printed as `*`, which the inventory turns into 0.0.0.0. |
| `Haproxy.DualStackIsRefused` | internal/inventory/parse.go:199-201 | A single frontend on `::` whose socket is printed as `*` is planned once and refused from then on. |
| `Framing.RequestBytesInjective` | internal/ipc/protocol.go:186-195 | Requests with the same signed bytes are the same. |
| `Framing.ResponseBytesInjective` | internal/ipc/protocol.go:197-211 | Responses with the same signed bytes are the same. |
| `Framing.RequestSigningBytes` | internal/ipc/protocol.go:186-195 | The buffer written field by field determines the request: any valid request with these bytes is this one. |
| `Framing.CombinedInputInjective` | internal/routeengine/plan.go:119-127 | Lists of candidates that feed the digest the same bytes are the same. |
| `Framing.FeedCombined` | internal/routeengine/plan.go:119-127 | The loop feeds the specified bytes. |
| `Framing.StateInputInjective` | internal/interfaceoutbound/plan.go:360-374 | With NUL-free IDs the hashed bytes determine presence, content and every entry. |

## Left out

- HTTP API, web interface, command line, configuration loading, installer and logging: plumbing.
- JSON, SQL and shell text, regular expressions, size limits on texts, file permissions: the model works on rule and command values; a file or a table is replaced atomically.
- Hashes, MACs and encryption: a digest is opaque and only the injectivity of its input is proved; opening a sealed journal field either fails or yields what was sealed.
- Plan hashes: a plan remembers the configuration it was made for, and comparing hashes is comparing configurations.
- Source CIDR lists are kept in the given order; the original sorts them by their text, which changes no set of packets.
- IPv4-mapped IPv6 addresses, interface zones and packet counters.
- The position of foreign chains among owned ones in `iptables-save`: foreign chains are listed first. Which of the two owned nat chains comes first is a parameter.
- Whether declaring an existing chain clears it: both behaviours of the tool are covered by a parameter.
- The running service is the file it was last started with; what it does with that file is not modelled.
- Clock: readings never go back; operations may share a second.
- Deletion of old journal entries (`internal/database/operation.go:136`): no caller exists.
- The lock around mutations: requests are handled one after the other; a busy lock is a refused request.
- Emergency bypass, and the reconciliation steps at the end of a recovery: they start operations behind no gate or a different one.
- The executors of HAProxy, Xray, the Xray relay and native interfaces: the first three follow the protocol of the two modelled here; the last restores several resources under hash guards.
- The iptables variant of the journal protocol: the same steps as the nftables one, its undo script is proved by itself.
- The order of routes: `RoutePlan.BuildPlan` takes the routes in ID order; sorting them would only add an easy method.
- Names of interfaces: whether an inventory name has the accepted form is not modelled.
- Display names, existence checks of outbounds and their own validation beyond adapter, health, enablement and endpoints.
- Of the HAProxy configuration, the settings of the global and default sections and the options of servers: lines its reader skips.
- RouteEngine.Engine.Execute: starts from the journaled operation; the comparisons with the plan before it, and the reports of the verifiers, are steps that may fail.
- RouteEngine.Engine.RemoveOwnedIp: follows policy rules; the routes of their tables are the subject of `PolicyRuntime.BatchInstalls`, and that a failing route listing counts as an empty table is not followed further. A deletion takes every rule of a family with that priority and table, where one `ip rule delete` takes one: planned routes have distinct numbers (`PolicyRuntime.PlannedNumbersApart`), so there is one.
- IptInstall.ApplyThenUndo: that no rule leads to a chain that does not exist is what the kernel sees to, and is required of the host; chains of others stay while the script runs.
- IptInstall.RollbackGuardAcceptsIff: rules are values; that the saving tool prints a rule as it was written, on which acceptance also depends, is taken for granted.
- RuleOrder.AllAcceptedIff: the rules of this program among themselves; foreign rules of lower priority come first or catch what is left.
- LeakControl.NoLeak: a packet is its addresses, transport, port and interfaces; connection tracking plays no part in this table.
- BackEnds.IptablesRefinesNft: the first packet of a connection; later packets are accepted as established by both. A range target sends to some port of the range.
- Replan.AllocationFixpoint: for a host on which no interface has the name of a planned tunnel yet; the tunnels may come up in any state, but all in the same one; host routes to single addresses are listed without a prefix length and use up nothing.
