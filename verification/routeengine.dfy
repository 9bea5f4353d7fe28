/** The coordinated apply of firewall, sing-box and policy routing, its failure rollback, and its recovery. */
module RouteEngine {
  import opened Wrappers
  import opened Prefixes
  import opened Routes
  import opened RoutePlan
  import opened Journal
  import opened Host
  import Leak = LeakControl
  import Policies = PolicyRuntime

  /** What the operation found: the sing-box file, the recorded routes, and the leak-control table. */
  datatype Snapshot = Snapshot(file: Config, recorded: Option<seq<Intent>>, nft: Option<Leak.Table>)

  function Previous(s: Snapshot): seq<Intent> {
    if s.recorded.Some? then s.recorded.value else []
  }

  /** The table after an undo: as found, or rebuilt if routes were recorded and there was none. */
  function RestoredTable(s: Snapshot): Option<Leak.Table> {
    if s.nft.None? && Previous(s) != [] then Some(Leak.TableOf(Previous(s))) else s.nft
  }

  /** A policy rule of an intent, installed for one address family. */
  datatype Installed = Installed(intent: Intent, family: Family)

  function Rules(intents: seq<Intent>, family: Family): set<Installed> {
    set k | 0 <= k < |intents| :: Installed(intents[k], family)
  }

  function AllRules(intents: seq<Intent>): set<Installed> {
    Rules(intents, V4) + Rules(intents, V6)
  }

  /** The firewall table and the installed policy rules, at one moment. */
  datatype Moment = Moment(nft: Option<Leak.Table>, active: set<Installed>)

  /** The table as found, the candidate's, or one rebuilt from the recorded routes because none was found. */
  predicate AllowedTable(snap: Snapshot, candidate: seq<Intent>, t: Option<Leak.Table>) {
    || t == snap.nft
    || t == Some(Leak.TableOf(candidate))
    || (snap.nft.None? && Previous(snap) != [] && t == Some(Leak.TableOf(Previous(snap))))
  }

  /** Routes that are new in the candidate are installed only under the candidate's own table. */
  predicate SafeMoment(snap: Snapshot, candidate: seq<Intent>, m: Moment) {
    && AllowedTable(snap, candidate, m.nft)
    && (forall a | a in m.active :: a.intent in Previous(snap) || (a.intent in candidate && m.nft == Some(Leak.TableOf(candidate))))
  }

  /** A table is taken away only when no owned rule is left and no route was recorded. */
  predicate SafeStep(snap: Snapshot, before: Moment, after: Moment) {
    before.nft.Some? && after.nft.None? ==> before.active == {} && Previous(snap) == [] && snap.nft.None?
  }

  ghost predicate SafeHistory(snap: Snapshot, candidate: seq<Intent>, history: seq<Moment>) {
    && history != [] && history[0].nft == snap.nft
    && (forall k | 0 <= k < |history| :: SafeMoment(snap, candidate, history[k]))
    && (forall k | 0 < k < |history| :: SafeStep(snap, history[k - 1], history[k]))
  }

  lemma Extends(snap: Snapshot, candidate: seq<Intent>, history: seq<Moment>, m: Moment)
    requires SafeHistory(snap, candidate, history) && SafeMoment(snap, candidate, m) && SafeStep(snap, history[|history| - 1], m)
    ensures SafeHistory(snap, candidate, history + [m])
  {
    var longer := history + [m];
    assert forall k | 0 <= k < |history| :: longer[k] == history[k];
  }

  // ---------------------------------------------------------------- deleting and adding rules

  /** A rule is deleted by its priority and table. */
  predicate SameNumbers(i: Intent, j: Intent) {
    i.priority == j.priority && i.table == j.table
  }

  predicate Named(i: Intent, intents: seq<Intent>) {
    exists k | 0 <= k < |intents| :: SameNumbers(intents[k], i)
  }

  predicate AtPriority(i: Intent, intents: seq<Intent>) {
    exists k | 0 <= k < |intents| :: intents[k].priority == i.priority
  }

  function TakeOne(active: set<Installed>, i: Intent, family: Family): set<Installed> {
    set a | a in active && !(a.family == family && SameNumbers(i, a.intent))
  }

  function TakeAway(active: set<Installed>, intents: seq<Intent>): set<Installed> {
    set a | a in active && !Named(a.intent, intents)
  }

  /** No rule at one of these priorities escapes the deletions because its table differs. */
  predicate Removable(active: set<Installed>, intents: seq<Intent>) {
    forall a | a in active && AtPriority(a.intent, intents) :: Named(a.intent, intents)
  }

  /** The very same rule is installed already, and the tool refuses to add it again. */
  predicate Taken(active: set<Installed>, i: Intent, family: Family) {
    exists a | a in active :: a.family == family && Policies.RuleOf(a.intent, family) == Policies.RuleOf(i, family)
  }

  predicate RulesApart(intents: seq<Intent>, family: Family) {
    forall j, k | 0 <= j < k < |intents| :: Policies.RuleOf(intents[j], family) != Policies.RuleOf(intents[k], family)
  }

  predicate AllApart(intents: seq<Intent>) {
    RulesApart(intents, V4) && RulesApart(intents, V6)
  }

  /** A batch that adds these rules meets none that is there already. */
  predicate Addable(active: set<Installed>, intents: seq<Intent>, family: Family) {
    RulesApart(intents, family) && forall k | 0 <= k < |intents| :: !Taken(active, intents[k], family)
  }

  /**
   * When the undo goes through: it deletes the candidate's rules only and then adds every recorded one, so no
   * recorded rule may still be installed under numbers the candidate does not have.
   */
  predicate Undoable(snap: Snapshot, candidate: seq<Intent>, active: set<Installed>) {
    AllApart(Previous(snap)) && forall a | a in active :: Named(a.intent, candidate)
  }

  lemma TakeOneMore(active: set<Installed>, intents: seq<Intent>, k: nat)
    requires k < |intents|
    ensures TakeAway(active, intents[..k + 1]) == TakeOne(TakeOne(TakeAway(active, intents[..k]), intents[k], V4), intents[k], V6)
  {
    assert intents[..k + 1] == intents[..k] + [intents[k]];
    assert intents[..k + 1][k] == intents[k];
    forall a | a in active ensures Named(a.intent, intents[..k + 1]) <==> Named(a.intent, intents[..k]) || SameNumbers(intents[k], a.intent) {
      assert forall l | 0 <= l < k :: intents[..k + 1][l] == intents[..k][l];
      assert a.family == V4 || a.family == V6;
    }
  }

  lemma NamedIsAtPriority(active: set<Installed>, intents: seq<Intent>, left: set<Installed>)
    requires TakeAway(active, intents) <= left <= active
    ensures (forall a | a in left :: !AtPriority(a.intent, intents)) ==> left == TakeAway(active, intents) && Removable(active, intents)
    ensures left == TakeAway(active, intents) && Removable(active, intents) ==> forall a | a in left :: !AtPriority(a.intent, intents)
  {
    forall a: Installed ensures Named(a.intent, intents) ==> AtPriority(a.intent, intents) {
      if Named(a.intent, intents) {
        var k :| 0 <= k < |intents| && SameNumbers(intents[k], a.intent);
        assert intents[k].priority == a.intent.priority;
      }
    }
  }

  lemma RulesOneMore(intents: seq<Intent>, family: Family, k: nat)
    requires k < |intents|
    ensures Rules(intents[..k + 1], family) == Rules(intents[..k], family) + {Installed(intents[k], family)}
  {
    assert forall l | 0 <= l < k :: intents[..k + 1][l] == intents[..k][l];
    assert intents[..k + 1][k] == intents[k];
  }

  /** Within a batch a rule meets one found before, or one the batch has just added. */
  lemma TakenInBatch(active: set<Installed>, intents: seq<Intent>, family: Family, k: nat)
    requires k < |intents|
    ensures Taken(active + Rules(intents[..k], family), intents[k], family) <==>
            Taken(active, intents[k], family) || exists j | 0 <= j < k :: Policies.RuleOf(intents[j], family) == Policies.RuleOf(intents[k], family)
  {
    var more := active + Rules(intents[..k], family);
    assert forall a | a in active :: a in more;
    forall j | 0 <= j < k ensures Installed(intents[j], family) in more {
      assert intents[..k][j] == intents[j];
    }
  }

  lemma AddableOneMore(active: set<Installed>, intents: seq<Intent>, family: Family, k: nat)
    requires k < |intents| && Addable(active, intents[..k], family)
    ensures Addable(active, intents[..k + 1], family) <==> !Taken(active + Rules(intents[..k], family), intents[k], family)
    ensures Addable(active, intents, family) ==> Addable(active, intents[..k + 1], family)
    ensures Rules(intents[..k + 1], family) == Rules(intents[..k], family) + {Installed(intents[k], family)}
    ensures Rules(intents[..k + 1], family) <= Rules(intents, family)
    ensures intents[k] in intents
  {
    TakenInBatch(active, intents, family, k);
    RulesOneMore(intents, family, k);
    assert intents[..k + 1] == intents[..k] + [intents[k]];
    assert forall l | 0 <= l < k :: intents[..k + 1][l] == intents[..k][l] == intents[l];
    assert intents[..k + 1][k] == intents[k];
  }

  lemma OtherFamilyIsFree(active: set<Installed>, intents: seq<Intent>)
    ensures Addable(active + Rules(intents, V4), intents, V6) <==> Addable(active, intents, V6)
  {
    forall i: Intent ensures Taken(active + Rules(intents, V4), i, V6) <==> Taken(active, i, V6) {
      assert forall a | a in active :: a in active + Rules(intents, V4);
    }
  }

  lemma InRules(intents: seq<Intent>, a: Installed)
    ensures a in AllRules(intents) <==> a.intent in intents
  {
    assert a.family == V4 || a.family == V6;
    assert a == Installed(a.intent, a.family);
  }

  /** Installed rules that are all recorded, and all recorded rules installed: exactly the recorded rules. */
  lemma ExactlyRules(active: set<Installed>, intents: seq<Intent>)
    requires AllRules(intents) <= active && forall a | a in active :: a.intent in intents
    ensures active == AllRules(intents)
  {
    forall a ensures a in active <==> a in AllRules(intents) {
      InRules(intents, a);
    }
  }

  /** Deleting the candidate's rules and adding the recorded ones goes through exactly when the undo is possible. */
  /** What the candidate's deletions leave belongs to recorded routes. */
  lemma LeftIsRecorded(snap: Snapshot, candidate: seq<Intent>, active: set<Installed>)
    requires forall a | a in active :: a.intent in Previous(snap) || a.intent in candidate
    ensures forall a | a in TakeAway(active, candidate) :: a.intent in Previous(snap)
  {
    forall a | a in active && a.intent in candidate ensures Named(a.intent, candidate) {
      var k :| 0 <= k < |candidate| && candidate[k] == a.intent;
      assert SameNumbers(candidate[k], a.intent);
    }
  }

  lemma UndoableIff(snap: Snapshot, candidate: seq<Intent>, active: set<Installed>)
    requires forall a | a in active :: a.intent in Previous(snap) || a.intent in candidate
    ensures Undoable(snap, candidate, active) <==>
            && Removable(active, candidate)
            && Addable(TakeAway(active, candidate), Previous(snap), V4) && Addable(TakeAway(active, candidate), Previous(snap), V6)
  {
    var left := TakeAway(active, candidate);
    LeftIsRecorded(snap, candidate, active);
    forall a | a in left ensures !Addable(left, Previous(snap), a.family) {
      var k :| 0 <= k < |Previous(snap)| && Previous(snap)[k] == a.intent;
      assert Taken(left, Previous(snap)[k], a.family);
    }
    if left == {} {
      forall a | a in active ensures Named(a.intent, candidate) {
        assert a !in left;
      }
    } else {
      var a :| a in left;
      assert !Named(a.intent, candidate);
      assert a.family == V4 || a.family == V6;
    }
  }

  class Engine {
    const snap: Snapshot
    const candidate: seq<Intent>
    const singBox: Config
    var op: State
    var nft: Option<Leak.Table>
    var file: Config
    /** What the sing-box service was last started with. */
    var running: Config
    var active: set<Installed>
    var recorded: Option<seq<Intent>>
    /** Every moment of the host since the operation was journaled. */
    ghost var history: seq<Moment>
    /** What has gone wrong so far, and how much of it is ignored on purpose. */
    ghost var count: Count
    ghost var ignored: nat
    /** What the native tools accepted last. */
    ghost var acceptedFile: Option<Config>
    ghost var acceptedTable: Option<Option<Leak.Table>>
    /** The tunnels have been found up since the service was last touched. */
    ghost var tunnelsUp: bool
    /** Everything has been verified since it last changed. */
    ghost var verified: bool

    /** Nothing was changed yet. */
    ghost predicate Untouched()
      reads `nft, `file, `running, `active, `recorded
    {
      && nft == snap.nft && file == running == snap.file && recorded == snap.recorded
      && (forall a | a in active :: a.intent in Previous(snap))
    }

    /** The candidate's table, file, service and rules are in place, and no others. */
    ghost predicate Changed()
      reads `nft, `file, `running, `active
    {
      nft == Some(Leak.TableOf(candidate)) && file == running == singBox && active == AllRules(candidate)
    }

    /** What the operation found is in place again, with a table for the recorded routes even if it found none. */
    ghost predicate Restored()
      reads `nft, `file, `running, `active, `recorded
    {
      && nft == RestoredTable(snap) && file == running == snap.file && recorded == snap.recorded
      && active == AllRules(Previous(snap))
    }

    /** The journaled state says what is on the host. */
    ghost predicate AsJournaled()
      reads this
    {
      && (op == Prepared || op == Validated ==> Untouched())
      && (op == Verifying || op == Committed ==> Changed())
      && (op == Committed ==> recorded == Some(candidate))
      && (op == RolledBack ==> Restored())
    }

    /** Every moment so far was safe, and the last one is the present one. */
    ghost predicate Traced()
      reads `nft, `active, `history
    {
      SafeHistory(snap, candidate, history) && history[|history| - 1] == Moment(nft, active)
    }

    ghost predicate Valid()
      reads this
    {
      Traced() && AsJournaled()
    }

    /** Between the states in which the journal says what is on the host. */
    ghost predicate UnderWay()
      reads this
    {
      Valid() && (op == Applying || op == RollingBack)
    }

    /** The operation is journaled on a host whose installed rules are among those of the recorded routes. */
    constructor (host: Snapshot, active: set<Installed>, candidate: seq<Intent>, singBox: Config)
      requires forall a | a in active :: a.intent in Previous(host)
      ensures Valid() && snap == host && this.candidate == candidate && op == Prepared && this.singBox == singBox
      ensures this.active == active && Untouched()
    {
      snap := host;
      this.candidate := candidate;
      this.singBox := singBox;
      op := Prepared;
      nft := host.nft;
      file := host.file;
      running := host.file;
      count, ignored := Count(0, 0, 0), 0;
      acceptedFile, acceptedTable, tunnelsUp, verified := None, None, false, false;
      this.active := active;
      recorded := host.recorded;
      history := [Moment(host.nft, active)];
    }

    method Check() returns (r: Ending)
      modifies `count
      ensures count == old(count).After(r)
    {
      r := *;
      count := count.After(r);
    }

    method DryRunFile(v: Config) returns (r: Ending)
      modifies `count, `acceptedFile
      ensures count == old(count).After(r) && (r == Ran(true) ==> acceptedFile == Some(v))
    {
      r := Check();
      if r == Ran(true) {
        acceptedFile := Some(v);
      }
    }

    method DryRunTable(t: Option<Leak.Table>) returns (r: Ending)
      modifies `count, `acceptedTable
      ensures count == old(count).After(r) && (r == Ran(true) ==> acceptedTable == Some(t))
    {
      r := Check();
      if r == Ran(true) {
        acceptedTable := Some(t);
      }
    }

    method CheckTunnels() returns (r: Ending)
      modifies `count, `tunnelsUp
      ensures count == old(count).After(r) && (r == Ran(true) ==> tunnelsUp)
    {
      r := Check();
      if r == Ran(true) {
        tunnelsUp := true;
      }
    }

    method Verify() returns (r: Ending)
      modifies `count, `verified
      ensures count == old(count).After(r) && (r == Ran(true) ==> verified)
    {
      r := Check();
      if r == Ran(true) {
        verified := true;
      }
    }

    /** All that has gone wrong since then was ignored on purpose. */
    ghost predicate OnlyIgnored(before: Count, skipped: nat)
      reads `count, `ignored
    {
      count.AllJournaled(before) && count.mishaps - before.mishaps == ignored - skipped
    }

    /** Start the service on the installed file, or stop it. */
    method Service(start: bool) returns (r: Ending)
      requires UnderWay()
      modifies `running, `count, `tunnelsUp, `verified
      ensures Valid() && !verified && !tunnelsUp && (r == Ran(true) ==> running == if start then file else Absent)
      ensures count == old(count).After(r)
    {
      var fault: Fault := *;
      tunnelsUp, verified := false, false;
      if TakesEffect(fault) {
        running := if start then file else Absent;
      }
      r := EndingOf(fault);
      count := count.After(r);
    }

    /** The journal moves on; a state that says what is on the host is entered only when that is so. */
    method Transition(from: State, to: State) returns (r: Ending)
      requires Traced()
      requires to == Validated && op == from ==> Untouched()
      requires to == Verifying || to == Committed ==> Changed()
      requires to == Committed ==> recorded == Some(candidate)
      requires to == RolledBack ==> Restored()
      requires to == Committed || from == Committed ==> verified
      modifies `op, `count
      ensures Traced() && (op != old(op) || old(AsJournaled()) ==> AsJournaled())
      ensures op == old(op) || (old(op) == from && op == to)
      ensures r == Ran(true) ==> old(op) == from && op == to
      ensures old(op) == from && CanTransition(from, to) ==> count == old(count).AfterJournal(r, op != old(op))
      ensures count.Follows(old(count)) && (count == old(count) ==> r.Ran?)
    {
      var fault: Fault := *;
      if op != from || !CanTransition(from, to) {
        count := count.AfterJournal(EndingOf(fault), false);
        return if EndingOf(fault) == Crashed then Crashed else Ran(false);
      }
      if TakesEffect(fault) {
        op := to;
      }
      r := EndingOf(fault);
      count := count.AfterJournal(r, TakesEffect(fault));
    }

    /** One firewall transaction. */
    method ApplyTable(t: Option<Leak.Table>) returns (r: Ending)
      requires UnderWay() && AllowedTable(snap, candidate, t)
      requires t == Some(Leak.TableOf(candidate)) || forall a | a in active :: a.intent in Previous(snap)
      requires t.None? && nft.Some? ==> active == {} && Previous(snap) == [] && snap.nft.None?
      requires acceptedTable == Some(t)
      modifies `nft, `history, `count, `verified
      ensures Valid() && !verified && (nft == old(nft) || nft == t)
      ensures r == Ran(true) ==> nft == t
      ensures count == old(count).After(r)
    {
      var fault: Fault := *;
      verified := false;
      if TakesEffect(fault) {
        nft := t;
        Extends(snap, candidate, history, Moment(nft, active));
        history := history + [Moment(nft, active)];
      }
      r := EndingOf(fault);
      count := count.After(r);
    }

    /** A file that was just accepted is installed, or the file is removed. */
    method WriteFile(v: Config) returns (r: Ending)
      requires UnderWay() && (v == Absent || acceptedFile == Some(v))
      modifies `file, `count, `verified
      ensures Valid() && !verified && (file == old(file) || file == v)
      ensures r == Ran(true) ==> file == v
      ensures count == old(count).After(r)
    {
      var fault: Fault := *;
      verified := false;
      if TakesEffect(fault) {
        file := v;
      }
      r := EndingOf(fault);
      count := count.After(r);
    }

    method WriteRecorded(v: Option<seq<Intent>>) returns (r: Ending)
      requires Valid() && (op == Verifying || op == RollingBack)
      modifies `recorded, `count
      ensures Valid() && (recorded == old(recorded) || recorded == v)
      ensures r == Ran(true) ==> recorded == v
      ensures count == old(count).After(r)
    {
      var fault: Fault := *;
      if TakesEffect(fault) {
        recorded := v;
      }
      r := EndingOf(fault);
      count := count.After(r);
    }

    // -------------------------------------------------------------- policy rules

    /** An error of a deletion is ignored. */
    method DeleteRule(i: Intent, family: Family) returns (r: Ending)
      requires UnderWay()
      modifies `active, `history, `count, `ignored, `verified
      ensures Valid() && !verified && (active == old(active) || active == TakeOne(old(active), i, family))
      ensures count == old(count).After(r) && (r == Ran(true) ==> active == TakeOne(old(active), i, family))
      ensures r.Ran? ==> OnlyIgnored(old(count), old(ignored))
    {
      var fault: Fault := *;
      verified := false;
      if TakesEffect(fault) {
        active := TakeOne(active, i, family);
        Extends(snap, candidate, history, Moment(nft, active));
        history := history + [Moment(nft, active)];
      }
      r := EndingOf(fault);
      count := count.After(r);
      if r == Ran(false) {
        ignored := ignored + 1;
      }
    }

    /** Deletions by priority and table, route by route; what counts is that no owned rule is left at a priority. */
    method RemoveOwnedIp(intents: seq<Intent>) returns (r: Ending)
      requires UnderWay()
      modifies `active, `history, `count, `ignored, `verified
      ensures Valid() && TakeAway(old(active), intents) <= active <= old(active)
      ensures r == Ran(true) ==> active == TakeAway(old(active), intents) && OnlyIgnored(old(count), old(ignored))
      ensures count.Follows(old(count)) && count.AllJournaled(old(count))
      ensures count == old(count) ==> r == Ran(Removable(old(active), intents))
    {
      assert TakeAway(active, intents[..0]) == active;
      for k := 0 to |intents|
        invariant UnderWay() && count.Follows(old(count)) && OnlyIgnored(old(count), old(ignored))
        invariant TakeAway(old(active), intents) <= active <= old(active)
        invariant count == old(count) ==> active == TakeAway(old(active), intents[..k])
      {
        TakeOneMore(old(active), intents, k);
        var four := DeleteRule(intents[k], V4);
        if four == Crashed {
          return Crashed;
        }
        var six := DeleteRule(intents[k], V6);
        if six == Crashed {
          return Crashed;
        }
      }
      assert intents[..|intents|] == intents;
      NamedIsAtPriority(old(active), intents, active);
      var inspected :- Check();
      return Ran(inspected && forall a | a in active :: !AtPriority(a.intent, intents));
    }

    /** The tool refuses to add a rule that is installed already. */
    method AddRule(i: Intent, family: Family) returns (r: Ending)
      requires UnderWay() && (i in Previous(snap) || (i in candidate && nft == Some(Leak.TableOf(candidate)))) && tunnelsUp
      modifies `active, `history, `count, `verified
      ensures Valid() && !verified && (active == old(active) || active == old(active) + {Installed(i, family)})
      ensures r == Ran(true) ==> active == old(active) + {Installed(i, family)} && !Taken(old(active), i, family)
      ensures count.Follows(old(count)) && count.AllJournaled(old(count)) && (count == old(count) ==> r == Ran(!Taken(old(active), i, family)))
      ensures r == Ran(true) ==> count == old(count)
    {
      var fault: Fault := *;
      verified := false;
      if Taken(active, i, family) {
        count := count.After(EndingOf(fault));
        return if EndingOf(fault) == Crashed then Crashed else Ran(false);
      }
      if TakesEffect(fault) {
        active := active + {Installed(i, family)};
        Extends(snap, candidate, history, Moment(nft, active));
        history := history + [Moment(nft, active)];
      }
      r := EndingOf(fault);
      count := count.After(r);
    }

    /** The batch of one family; one that fails leaves what it had already added. */
    method RunBatch(intents: seq<Intent>, family: Family) returns (r: Ending)
      requires UnderWay()
      requires forall i | i in intents :: i in Previous(snap) || (i in candidate && nft == Some(Leak.TableOf(candidate)))
      requires intents != [] ==> tunnelsUp
      modifies `active, `history, `count, `verified
      ensures Valid() && old(active) <= active <= old(active) + Rules(intents, family)
      ensures r == Ran(true) ==> active == old(active) + Rules(intents, family) && count == old(count)
      ensures count.Follows(old(count)) && count.AllJournaled(old(count)) && (count == old(count) ==> r == Ran(Addable(old(active), intents, family)))
    {
      for k := 0 to |intents|
        invariant UnderWay() && count == old(count)
        invariant active == old(active) + Rules(intents[..k], family)
        invariant Addable(old(active), intents[..k], family)
      {
        AddableOneMore(old(active), intents, family, k);
        var ok :- AddRule(intents[k], family);
        if !ok {
          return Ran(false);
        }
      }
      assert intents[..|intents|] == intents;
      return Ran(true);
    }

    /** The IPv4 batch, then the IPv6 batch. */
    method BothFamilies(intents: seq<Intent>) returns (r: Ending)
      requires UnderWay()
      requires forall i | i in intents :: i in Previous(snap) || (i in candidate && nft == Some(Leak.TableOf(candidate)))
      requires intents != [] ==> tunnelsUp
      modifies `active, `history, `count, `verified
      ensures Valid() && old(active) <= active <= old(active) + AllRules(intents)
      ensures r == Ran(true) ==> active == old(active) + AllRules(intents) && count == old(count)
      ensures count.Follows(old(count)) && count.AllJournaled(old(count))
      ensures count == old(count) ==> r == Ran(Addable(old(active), intents, V4) && Addable(old(active), intents, V6))
    {
      OtherFamilyIsFree(active, intents);
      var four :- RunBatch(intents, V4);
      if !four {
        return Ran(false);
      }
      r := RunBatch(intents, V6);
    }

    /** Remove what was recorded, then add the candidate's rules. */
    method ReplaceIp() returns (r: Ending)
      requires UnderWay() && nft == Some(Leak.TableOf(candidate)) && forall a | a in active :: a.intent in Previous(snap)
      requires tunnelsUp
      modifies `active, `history, `count, `ignored, `verified
      ensures Valid()
      ensures r == Ran(true) ==> active == AllRules(candidate) && OnlyIgnored(old(count), old(ignored))
      ensures active <= old(active) + AllRules(candidate)
      ensures count.Follows(old(count)) && count.AllJournaled(old(count)) && (count == old(count) ==> r == Ran(AllApart(candidate)))
    {
      if snap.recorded.Some? {
        AllNamed(active, snap.recorded.value);
        var removed :- RemoveOwnedIp(snap.recorded.value);
        if !removed {
          return Ran(false);
        }
      }
      assert active == {};
      r := BothFamilies(candidate);
    }

    // -------------------------------------------------------------- the operation

    /** Nothing has been changed since then. */
    twostate predicate AsBefore()
      reads this
    {
      nft == old(nft) && file == old(file) && running == old(running) && active == old(active) && recorded == old(recorded)
    }

    /**
     * Firewall first, then sing-box, then the routes; the candidate is recorded only once it is verified. Without
     * mishap this succeeds exactly when no two routes of the candidate ask for the same rule. Unless a journal write goes
     * wrong the operation is finished. If the routes ask for different rules then after one failure, other than a
     * journal write that takes effect and reports an error, nothing was touched, or what was found is restored, or the
     * undo was impossible.
     */
    method Execute() returns (r: Ending)
      requires Valid() && op == Prepared
      modifies this
      ensures Valid()
      ensures r == Ran(true) ==> op == Committed && verified && OnlyIgnored(old(count), old(ignored))
      ensures r.Ran? && count.AllJournaled(old(count)) ==> op == Committed || op == RolledBack || op == Failed
      ensures r == Ran(false) && (count == old(count) || (AllApart(candidate) && count.OneSlip(old(count)))) ==>
        ((op == Prepared || op == Failed) && AsBefore()) || op == RolledBack || (op == Failed && !Undoable(snap, candidate, old(active)))
      ensures AllApart(candidate) && r == Ran(false) && count.OneMisreport(old(count)) ==>
        ((op == Validated || op == Applying) && AsBefore()) || op == Verifying || op == Committed
      ensures count.Follows(old(count)) && (count == old(count) ==> r == Ran(AllApart(candidate)))
    {
      var ready :- Prepare();
      if !ready {
        return Ran(false);
      }
      r := Apply();
    }

    /** Write the file beside the installed one, try it and the table, and mark the operation; the host is not touched. */
    method Prepare() returns (r: Ending)
      requires Valid() && op == Prepared
      modifies `op, `count, `acceptedFile, `acceptedTable
      ensures Valid()
      ensures r == Ran(true) ==> op == Applying && acceptedFile == Some(singBox) && acceptedTable == Some(Some(Leak.TableOf(candidate)))
      ensures r == Ran(false) && count.AllJournaled(old(count)) ==> op == Failed
      ensures r == Ran(false) && count.OneSlip(old(count)) ==> op == Prepared || op == Failed
      ensures r == Ran(false) && count.OneMisreport(old(count)) ==> op == Validated || op == Applying
      ensures count.Follows(old(count)) && (count == old(count) <==> r == Ran(true))
    {
      var written :- Check();
      if !written {
        var noted :- Transition(Prepared, Failed);
        return Ran(false);
      }
      var fileValid :- DryRunFile(singBox);
      if !fileValid {
        var noted :- Transition(Prepared, Failed);
        return Ran(false);
      }
      var tableValid :- DryRunTable(Some(Leak.TableOf(candidate)));
      if !tableValid {
        var noted :- Transition(Prepared, Failed);
        return Ran(false);
      }
      r := MarkApplying();
    }

    /** Two journal steps before anything on the host is touched. */
    method MarkApplying() returns (r: Ending)
      requires Valid() && op == Prepared
      modifies `op, `count
      ensures Valid()
      ensures r == Ran(true) ==> op == Applying
      ensures count.OneSlip(old(count)) && r.Ran? ==> op == Prepared || op == Failed
      ensures count.OneMisreport(old(count)) && r.Ran? ==> op == Validated || op == Applying
      ensures count.Follows(old(count)) && (count == old(count) <==> r == Ran(true))
      ensures count.AllJournaled(old(count)) && r.Ran? ==> r == Ran(true)
    {
      var validated :- Transition(Prepared, Validated);
      if !validated {
        return Ran(false);
      }
      var applying :- Transition(Validated, Applying);
      if !applying {
        var noted :- Transition(Validated, Failed);
        return Ran(false);
      }
      return Ran(true);
    }

    /** Install the file, restart the service and wait for the tunnels. */
    method StartCandidate() returns (r: Ending)
      requires UnderWay() && acceptedFile == Some(singBox)
      modifies `file, `running, `count, `tunnelsUp, `verified
      ensures Valid()
      ensures r == Ran(true) ==> file == running == singBox && tunnelsUp
      ensures count.Follows(old(count)) && count.AllJournaled(old(count)) && (count == old(count) <==> r == Ran(true))
    {
      var installed :- WriteFile(singBox);
      if !installed {
        return Ran(false);
      }
      var restarted :- Service(true);
      if !restarted {
        return Ran(false);
      }
      r := CheckTunnels();
    }

    /** The host is changed in this order, so that no new rule is ever installed without its table. */
    method ChangeHost() returns (r: Ending)
      requires UnderWay() && forall a | a in active :: a.intent in Previous(snap)
      requires acceptedFile == Some(singBox) && acceptedTable == Some(Some(Leak.TableOf(candidate)))
      modifies `nft, `file, `running, `active, `history, `count, `ignored, `tunnelsUp, `verified
      ensures Valid()
      ensures r == Ran(true) ==> Changed() && OnlyIgnored(old(count), old(ignored))
      ensures Undoable(snap, candidate, old(active)) ==> Undoable(snap, candidate, active)
      ensures count.Follows(old(count)) && count.AllJournaled(old(count)) && (count == old(count) ==> r == Ran(AllApart(candidate)))
    {
      var guarded :- ApplyTable(Some(Leak.TableOf(candidate)));
      if !guarded {
        return Ran(false);
      }
      var started :- StartCandidate();
      if !started {
        return Ran(false);
      }
      r := ReplaceIp();
      StillUndoable(snap, candidate, old(active), active);
    }

    /** Change the host and commit, undoing on any failure. */
    method Apply() returns (r: Ending)
      requires UnderWay() && op == Applying && forall a | a in active :: a.intent in Previous(snap)
      requires acceptedFile == Some(singBox) && acceptedTable == Some(Some(Leak.TableOf(candidate)))
      modifies this
      ensures Valid()
      ensures r == Ran(true) ==> op == Committed && verified && OnlyIgnored(old(count), old(ignored))
      ensures r == Ran(false) && count.AllJournaled(old(count)) ==> op == RolledBack || op == Failed
      ensures r == Ran(false) && (count == old(count) || (AllApart(candidate) && count.OneSlip(old(count)))) ==>
        op == RolledBack || (op == Failed && !Undoable(snap, candidate, old(active)))
      ensures AllApart(candidate) && r == Ran(false) && count.OneMisreport(old(count)) ==> op == Verifying || op == Committed
      ensures count.Follows(old(count)) && (count == old(count) ==> r == Ran(AllApart(candidate)))
    {
      var changed :- ChangeHost();
      if !changed {
        r := FailWithRollback(Applying);
        return;
      }
      r := Confirm();
    }

    /** The candidate is in place; verify it, record it and commit. */
    method Confirm() returns (r: Ending)
      requires UnderWay() && op == Applying && Changed()
      modifies this
      ensures Valid()
      ensures r == Ran(true) ==> op == Committed && verified && count == old(count) && ignored == old(ignored)
      ensures r == Ran(false) && count.AllJournaled(old(count)) ==> op == RolledBack || op == Failed
      ensures r == Ran(false) && count.OneSlip(old(count)) ==> op == if Undoable(snap, candidate, old(active)) then RolledBack else Failed
      ensures r == Ran(false) && count.OneMisreport(old(count)) ==> op == Verifying || op == Committed
      ensures count.Follows(old(count)) && (count == old(count) <==> r == Ran(true))
    {
      var verifying :- Transition(Applying, Verifying);
      if !verifying {
        r := FailWithRollback(Applying);
        return;
      }
      var looked :- Verify();
      if !looked {
        r := FailWithRollback(Verifying);
        return;
      }
      var saved :- WriteRecorded(Some(candidate));
      if !saved {
        r := FailWithRollback(Verifying);
        return;
      }
      var committed :- Transition(Verifying, Committed);
      if !committed {
        r := FailWithRollback(Verifying);
        return;
      }
      return Ran(true);
    }

    /**
     * If the undo meets no mishap the operation ends rolled back exactly when the undo is possible, and failed
     * otherwise; one that is not in the expected state is left alone.
     */
    method FailWithRollback(from: State) returns (r: Ending)
      requires Valid() && (from == Applying || from == Verifying)
      modifies this
      ensures Valid() && r != Ran(true)
      ensures old(op) != from ==> op == old(op) && AsBefore()
      ensures old(op) == from && r.Ran? && count.AllJournaled(old(count)) ==> op == RolledBack || op == Failed
      ensures count.Follows(old(count))
      ensures count == old(count) ==> r == Ran(false)
      ensures count == old(count) && old(op) == from ==> op == if Undoable(snap, candidate, old(active)) then RolledBack else Failed
    {
      var rolling :- Transition(from, RollingBack);
      if !rolling {
        return Ran(false);
      }
      var readable :- Check();
      if !readable {
        var noted :- Transition(RollingBack, Failed);
        return Ran(false);
      }
      var noted :- FinishRollback();
      return Ran(false);
    }

    /** Restore what was found and close the operation, either as rolled back or as failed. */
    method FinishRollback() returns (r: Ending)
      requires Valid() && op == RollingBack
      modifies this
      ensures Valid()
      ensures r == Ran(true) ==> op == RolledBack && OnlyIgnored(old(count), old(ignored))
      ensures r.Ran? && count.AllJournaled(old(count)) ==> op == if r.ok then RolledBack else Failed
      ensures count.Follows(old(count)) && (count == old(count) ==> r == Ran(Undoable(snap, candidate, old(active))))
    {
      var restored :- Restore();
      if !restored {
        var noted :- Transition(RollingBack, Failed);
        return Ran(false);
      }
      r := Transition(RollingBack, RolledBack);
    }

    /** The candidate's rules go first, the firewall follows, and only then are the recorded rules added. */
    method Restore() returns (r: Ending)
      requires UnderWay() && op == RollingBack
      modifies `nft, `file, `running, `active, `recorded, `history, `count, `ignored, `acceptedFile, `acceptedTable, `tunnelsUp, `verified
      ensures UnderWay()
      ensures r == Ran(true) ==> Restored() && OnlyIgnored(old(count), old(ignored))
      ensures count.Follows(old(count)) && count.AllJournaled(old(count))
      ensures count == old(count) ==> r == Ran(Undoable(snap, candidate, old(active)))
    {
      assert Undoable(snap, candidate, active) == (Removable(active, candidate)
        && Addable(TakeAway(active, candidate), Previous(snap), V4) && Addable(TakeAway(active, candidate), Previous(snap), V6)) by {
        UndoableIff(snap, candidate, active);
      }
      LeftIsRecorded(snap, candidate, active);
      var cleared :- RestoreBelow();
      if !cleared {
        return Ran(false);
      }
      r := RestoreRecord();
    }

    /** The recorded rules go on top, and the record itself comes last. */
    method RestoreRecord() returns (r: Ending)
      requires UnderWay() && op == RollingBack && (Previous(snap) != [] ==> tunnelsUp)
      requires nft == RestoredTable(snap) && file == running == snap.file && forall a | a in active :: a.intent in Previous(snap)
      modifies `active, `recorded, `history, `count, `verified
      ensures UnderWay()
      ensures r == Ran(true) ==> Restored() && count == old(count)
      ensures count.Follows(old(count)) && count.AllJournaled(old(count))
      ensures count == old(count) ==> r == Ran(Addable(old(active), Previous(snap), V4) && Addable(old(active), Previous(snap), V6))
    {
      var routed :- AddRecorded();
      if !routed {
        return Ran(false);
      }
      AllAdded(old(active), active, Previous(snap));
      r := WriteRecorded(snap.recorded);
    }

    /** The recorded rules are added if there is a record. */
    method AddRecorded() returns (r: Ending)
      requires UnderWay() && (Previous(snap) != [] ==> tunnelsUp)
      modifies `active, `history, `count, `verified
      ensures Valid()
      ensures r == Ran(true) ==> active == old(active) + AllRules(Previous(snap)) && count == old(count)
      ensures count.Follows(old(count)) && count.AllJournaled(old(count))
      ensures count == old(count) ==> r == Ran(Addable(old(active), Previous(snap), V4) && Addable(old(active), Previous(snap), V6))
    {
      if snap.recorded.None? {
        assert AllRules(Previous(snap)) == {};
        return Ran(true);
      }
      r := BothFamilies(Previous(snap));
    }

    /** Everything below the recorded rules: no rule of the candidate, the service and the table as found. */
    method RestoreBelow() returns (r: Ending)
      requires UnderWay() && op == RollingBack
      modifies `nft, `file, `running, `active, `history, `count, `ignored, `acceptedFile, `acceptedTable, `tunnelsUp, `verified
      ensures UnderWay()
      ensures r == Ran(true) ==> nft == RestoredTable(snap) && file == running == snap.file && active == TakeAway(old(active), candidate)
      ensures r == Ran(true) ==> OnlyIgnored(old(count), old(ignored)) && (Previous(snap) != [] ==> tunnelsUp)
      ensures count.Follows(old(count)) && count.AllJournaled(old(count))
      ensures count == old(count) ==> r == Ran(Removable(old(active), candidate))
    {
      LeftIsRecorded(snap, candidate, active);
      var removed :- RemoveOwnedIp(candidate);
      if !removed {
        return Ran(false);
      }
      var restored :- RestoreSingBox();
      if !restored {
        return Ran(false);
      }
      var tunnels :- RecordedTunnels();
      if !tunnels {
        return Ran(false);
      }
      r := RestoreTable();
    }

    /** If there is a record its tunnels are looked at; an error counts only if it lists any. */
    method RecordedTunnels() returns (r: Ending)
      requires UnderWay()
      modifies `count, `ignored, `tunnelsUp
      ensures r == Ran(true) ==> OnlyIgnored(old(count), old(ignored)) && (Previous(snap) != [] ==> tunnelsUp)
      ensures count.Follows(old(count)) && count.AllJournaled(old(count)) && (count == old(count) ==> r == Ran(true))
    {
      if snap.recorded.Some? {
        var tunnels :- CheckTunnels();
        if !tunnels && Previous(snap) != [] {
          return Ran(false);
        }
        if !tunnels {
          ignored := ignored + 1;
        }
      }
      return Ran(true);
    }

    /** Stop and remove, or check, install and restart. */
    method RestoreSingBox() returns (r: Ending)
      requires UnderWay() && op == RollingBack
      modifies `file, `running, `count, `acceptedFile, `tunnelsUp, `verified
      ensures UnderWay() && (r == Ran(true) ==> file == running == snap.file)
      ensures count.Follows(old(count)) && count.AllJournaled(old(count)) && (count == old(count) <==> r == Ran(true))
    {
      if snap.file == Absent {
        var stopped :- Service(false);
        if !stopped {
          return Ran(false);
        }
        r := WriteFile(Absent);
        return;
      }
      var written :- Check();
      if !written {
        return Ran(false);
      }
      var valid :- DryRunFile(snap.file);
      if !valid {
        return Ran(false);
      }
      var installed :- WriteFile(snap.file);
      if !installed {
        return Ran(false);
      }
      r := Service(true);
    }

    /** Rebuild the table from the recorded routes if none was found, otherwise put back what was found. */
    method RestoreTable() returns (r: Ending)
      requires UnderWay() && op == RollingBack && forall a | a in active :: a.intent in Previous(snap)
      modifies `nft, `history, `count, `acceptedTable, `verified
      ensures UnderWay()
      ensures r == Ran(true) ==> nft == RestoredTable(snap)
      ensures count.Follows(old(count)) && count.AllJournaled(old(count)) && (count == old(count) <==> r == Ran(true))
    {
      var inspected :- Check();
      if !inspected {
        return Ran(false);
      }
      if snap.nft.None? && Previous(snap) != [] {
        var valid :- DryRunTable(Some(Leak.TableOf(Previous(snap))));
        if !valid {
          return Ran(false);
        }
        r := ApplyTable(Some(Leak.TableOf(Previous(snap))));
        return;
      }
      if nft.None? && snap.nft.None? {
        return Ran(true);
      }
      var valid :- DryRunTable(snap.nft);
      if !valid {
        return Ran(false);
      }
      r := ApplyTable(snap.nft);
    }

    /** An operation that had not begun is closed; one that had is undone, and ends failed if that is not possible. */
    method Recover() returns (r: Ending)
      requires Valid()
      modifies this
      ensures Valid()
      ensures r == Ran(true) ==> op == if Begun(old(op)) then RolledBack else if old(op) == Prepared || old(op) == Validated then Failed else old(op)
      ensures r == Ran(true) ==> OnlyIgnored(old(count), old(ignored))
      ensures r == Ran(false) && count.AllJournaled(old(count)) ==> op == Failed
      ensures count.Follows(old(count))
      ensures count == old(count) ==> r == Ran(Begun(old(op)) ==> Undoable(snap, candidate, old(active)))
      ensures count == old(count) && Begun(old(op)) && !Undoable(snap, candidate, old(active)) ==> op == Failed
    {
      match op
      case Prepared =>
        r := Transition(Prepared, Failed);
      case Validated =>
        r := Transition(Validated, Failed);
      case Applying =>
        r := RecoverBegun();
      case Verifying =>
        r := RecoverBegun();
      case RollingBack =>
        r := RecoverBegun();
      case _ =>
        r := Ran(true);
    }

    method RecoverBegun() returns (r: Ending)
      requires Valid() && Begun(op)
      modifies this
      ensures Valid() && (r == Ran(true) ==> op == RolledBack)
      ensures r == Ran(true) ==> OnlyIgnored(old(count), old(ignored))
      ensures r == Ran(false) && count.AllJournaled(old(count)) ==> op == Failed
      ensures count.Follows(old(count))
      ensures count == old(count) ==> r == Ran(Undoable(snap, candidate, old(active)))
      ensures count == old(count) && !Undoable(snap, candidate, old(active)) ==> op == Failed
    {
      var readable :- Check();
      if !readable {
        var noted :- Transition(op, Failed);
        return Ran(false);
      }
      if op != RollingBack {
        var rolling :- Transition(op, RollingBack);
        if !rolling {
          return Ran(false);
        }
      }
      r := FinishRollback();
    }

    /**
     * The operator takes back the committed operation, if the recorded routes are still its candidate; the record may
     * have been changed by somebody else. If nobody did, all installed rules are the candidate's, and taking it back is
     * possible whenever the earlier routes ask for different rules.
     */
    method RollbackCommitted() returns (r: Ending)
      requires Traced()
      modifies this
      ensures Traced() && (old(AsJournaled()) ==> AsJournaled())
      ensures old(op) != Committed || old(recorded) != Some(candidate) ==> r != Ran(true) && op == old(op) && AsBefore()
      ensures r == Ran(true) ==> op == RolledBack && Restored() && OnlyIgnored(old(count), old(ignored))
      ensures r == Ran(false) && count.AllJournaled(old(count)) ==> op == RollingBack || (op == old(op) && AsBefore())
      ensures count.Follows(old(count))
      ensures count == old(count) && old(op) == Committed && old(recorded) == Some(candidate) ==>
        r == Ran(Undoable(snap, candidate, old(active))) && (old(AsJournaled()) ==> r == Ran(AllApart(Previous(snap))))
    {
      if op != Committed {
        return Ran(false);
      }
      var readable :- Check();
      if !readable || recorded != Some(candidate) {
        return Ran(false);
      }
      var looked :- Verify();
      if !looked {
        return Ran(false);
      }
      var plannable :- Check();
      if !plannable {
        return Ran(false);
      }
      CommittedIsUndoable(snap, candidate);
      r := TakeBack();
    }

    /** What runs has been verified before the operation leaves its committed state. */
    method TakeBack() returns (r: Ending)
      requires Traced() && op == Committed && verified
      modifies this
      ensures Traced() && (old(AsJournaled()) ==> AsJournaled())
      ensures r == Ran(true) ==> op == RolledBack && Restored() && OnlyIgnored(old(count), old(ignored))
      ensures r == Ran(false) && count.AllJournaled(old(count)) ==> op == RollingBack
      ensures count.Follows(old(count)) && (count == old(count) ==> r == Ran(Undoable(snap, candidate, old(active))))
    {
      var rolling :- Transition(Committed, RollingBack);
      if !rolling {
        return Ran(false);
      }
      var restored :- Restore();
      if !restored {
        return Ran(false);
      }
      r := Transition(RollingBack, RolledBack);
    }

    /** One apply that may die anywhere, then any recoveries and operator rollbacks, which may die as well. */
    method Live(visits: seq<Visit>)
      requires Valid() && op == Prepared
      modifies this
      ensures Valid()
    {
      var r := Execute();
      for k := 0 to |visits|
        invariant Valid()
      {
        match visits[k] {
          case Recovery =>
            r := Recover();
          case OperatorUndo =>
            r := RollbackCommitted();
        }
      }
    }
  }

  datatype Visit = Recovery | OperatorUndo

  /** The states in which a crash leaves an operation that recovery must undo. */
  predicate Begun(s: State) {
    s == Applying || s == Verifying || s == RollingBack
  }

  /** Taking rules away and adding the candidate's own keeps an undo possible. */
  lemma StillUndoable(snap: Snapshot, candidate: seq<Intent>, before: set<Installed>, after: set<Installed>)
    requires after <= before + AllRules(candidate)
    ensures Undoable(snap, candidate, before) ==> Undoable(snap, candidate, after)
  {
    forall a | a in AllRules(candidate) ensures Named(a.intent, candidate) {
      InRules(candidate, a);
      var k :| 0 <= k < |candidate| && candidate[k] == a.intent;
      assert SameNumbers(candidate[k], a.intent);
    }
  }

  lemma AllNamed(active: set<Installed>, intents: seq<Intent>)
    requires forall a | a in active :: a.intent in intents
    ensures TakeAway(active, intents) == {} && Removable(active, intents)
  {
    forall a | a in active ensures Named(a.intent, intents) {
      var k :| 0 <= k < |intents| && intents[k] == a.intent;
      assert SameNumbers(intents[k], a.intent);
    }
  }

  lemma AllAdded(before: set<Installed>, after: set<Installed>, intents: seq<Intent>)
    requires (forall a | a in before :: a.intent in intents) && after == before + AllRules(intents)
    ensures after == AllRules(intents)
  {
    forall a | a in after ensures a.intent in intents {
      InRules(intents, a);
    }
    AddedRules(after, intents);
  }

  lemma AddedRules(active: set<Installed>, intents: seq<Intent>)
    ensures (forall a | a in active :: a.intent in intents) && AllRules(intents) <= active ==> active == AllRules(intents)
  {
    if (forall a | a in active :: a.intent in intents) && AllRules(intents) <= active {
      ExactlyRules(active, intents);
    }
  }

  lemma CommittedIsUndoable(snap: Snapshot, candidate: seq<Intent>)
    ensures Undoable(snap, candidate, AllRules(candidate)) <==> AllApart(Previous(snap))
  {
    forall a | a in AllRules(candidate) ensures a.intent in candidate {
      InRules(candidate, a);
    }
    AllNamed(AllRules(candidate), candidate);
    assert forall a | a in AllRules(candidate) && !Named(a.intent, candidate) :: a in TakeAway(AllRules(candidate), candidate);
  }

  // ---------------------------------------------------------------- when an undo goes through

  /**
   * The undo can fail although nothing goes wrong: replace the only route by one with another priority, and let the
   * very first step of the apply be refused. The old rule is still installed, the undo deletes the new route's rules
   * only, and adding the old rule again is refused.
   */
  lemma UndoCanFail(host: Snapshot, was: Intent, next: Intent)
    requires host.recorded == Some([was]) && was.priority != next.priority
    ensures SafeMoment(host, [next], Moment(host.nft, AllRules([was])))
    ensures !Undoable(host, [next], AllRules([was]))
  {
    InRules([was], Installed(was, V4));
    assert [was][0] == was && !Named(was, [next]);
    forall a | a in AllRules([was]) ensures a.intent in Previous(host) {
      InRules([was], a);
    }
  }

  /** Two routes of one plan have different numbers, so such hosts and candidates exist as soon as two routes can be planned. */
  lemma PlannedUndoCanFail(ctx: Planner, routes: seq<Route>, used: Slots.Used, host: Snapshot, j: nat, k: nat)
    requires Plan(ctx, routes, used).Some? && j < k < |Plan(ctx, routes, used).value|
    requires host.recorded == Some([Plan(ctx, routes, used).value[j]])
    ensures !Undoable(host, [Plan(ctx, routes, used).value[k]], AllRules(Previous(host)))
  {
    Policies.PlannedNumbersApart(ctx, routes, used);
    UndoCanFail(host, Plan(ctx, routes, used).value[j], Plan(ctx, routes, used).value[k]);
  }

  /**
   * The undo goes through at every moment of every history that starts with the recorded rules installed exactly
   * when these are different rules and the candidate keeps the numbers of every recorded route.
   */
  lemma AlwaysUndoableIff(snap: Snapshot, candidate: seq<Intent>)
    ensures (forall history: seq<Moment>, k: nat | SafeHistory(snap, candidate, history) && k < |history| ::
              Undoable(snap, candidate, history[k].active)) <==>
            AllApart(Previous(snap)) && forall i | i in Previous(snap) :: Named(i, candidate)
  {
    if AllApart(Previous(snap)) && forall i | i in Previous(snap) :: Named(i, candidate) {
      forall history: seq<Moment>, k: nat | SafeHistory(snap, candidate, history) && k < |history|
        ensures Undoable(snap, candidate, history[k].active)
      {
        assert SafeMoment(snap, candidate, history[k]);
        forall a | a in history[k].active ensures Named(a.intent, candidate) {
          if a.intent in candidate {
            var l :| 0 <= l < |candidate| && candidate[l] == a.intent;
            assert SameNumbers(candidate[l], a.intent);
          }
        }
      }
    } else {
      var start := Moment(snap.nft, AllRules(Previous(snap)));
      forall a | a in start.active ensures a.intent in Previous(snap) {
        InRules(Previous(snap), a);
      }
      assert SafeHistory(snap, candidate, [start]) && [start][0] == start;
      if i :| i in Previous(snap) && !Named(i, candidate) {
        InRules(Previous(snap), Installed(i, V4));
        assert Installed(i, V4) in start.active;
      }
      assert !Undoable(snap, candidate, [start][0].active);
    }
  }

  // ---------------------------------------------------------------- what a history of safe moments means for packets

  /** Once a table is installed, no later step of the operation leaves the host without one while routes are recorded. */
  lemma {:induction false} TableStays(snap: Snapshot, candidate: seq<Intent>, history: seq<Moment>, first: nat, k: nat)
    requires SafeHistory(snap, candidate, history) && first <= k < |history|
    requires history[first].nft.Some? && (Previous(snap) != [] || snap.nft.Some?)
    ensures history[k].nft.Some?
    decreases k - first
  {
    if first < k {
      TableStays(snap, candidate, history, first, k - 1);
      assert SafeStep(snap, history[k - 1], history[k]);
    }
  }

  /** The table of these intents drops the packet, or lets it leave by the tunnel of one of them that protects it. */
  ghost predicate ContainedBy(t: Leak.Table, intents: seq<Intent>, p: Leak.Packet) {
    && t == Leak.TableOf(intents)
    && (Leak.Verdict(t.forward, p) == Some(Leak.Drop)
        || (Leak.Verdict(t.forward, p) == Some(Leak.Accept) && exists i :: i in intents && Leak.Protects(i, p) && p.egress == i.tunnel))
  }

  lemma TableContains(intents: seq<Intent>, i: Intent, p: Leak.Packet)
    requires i in intents && Leak.Protects(i, p) && !Leak.IsDns(p)
    ensures ContainedBy(Leak.TableOf(intents), intents, p)
  {
    var k :| 0 <= k < |intents| && intents[k] == i;
    Leak.NoLeak(intents, k, p);
    if Leak.Verdict(Leak.ForwardChain(intents), p) == Some(Leak.Accept) {
      var x :| x in intents && Leak.LeavesBy(x, p);
      assert Leak.Protects(x, p) && p.egress == x.tunnel;
    }
  }

  /** There is a table, of the routes recorded before or of the candidate, and it contains the packet. */
  ghost predicate Contained(snap: Snapshot, candidate: seq<Intent>, m: Moment, p: Leak.Packet) {
    m.nft.Some? && (ContainedBy(m.nft.value, Previous(snap), p) || ContainedBy(m.nft.value, candidate, p))
  }

  /** The table found, if any, is that of the recorded routes. */
  predicate Consistent(snap: Snapshot) {
    snap.nft.Some? ==> snap.nft.value == Leak.TableOf(Previous(snap))
  }

  /** A route protects the packet before the operation, and one protects it after. */
  ghost predicate Covered(snap: Snapshot, candidate: seq<Intent>, p: Leak.Packet) {
    && !Leak.IsDns(p)
    && (exists i :: i in Previous(snap) && Leak.Protects(i, p))
    && (exists i :: i in candidate && Leak.Protects(i, p))
  }

  /**
   * The kill switch holds at every intermediate moment. Let a packet that is not DNS be protected by the routes in
   * force before and by those being applied. From the first moment with a table on, whatever fails or dies, however
   * often recovery runs, the table in force drops that packet or lets it leave by a tunnel of one of its own routes
   * that protects it.
   */
  lemma KillSwitchAtEveryMoment(snap: Snapshot, candidate: seq<Intent>, history: seq<Moment>, first: nat, k: nat, p: Leak.Packet)
    requires SafeHistory(snap, candidate, history) && first <= k < |history| && history[first].nft.Some?
    requires Consistent(snap) && Covered(snap, candidate, p)
    ensures Contained(snap, candidate, history[k], p)
  {
    TableStays(snap, candidate, history, first, k);
    assert SafeMoment(snap, candidate, history[k]);
    var before :| before in Previous(snap) && Leak.Protects(before, p);
    var after :| after in candidate && Leak.Protects(after, p);
    TableContains(Previous(snap), before, p);
    TableContains(candidate, after, p);
  }

  /** A rule that is new is never installed without the candidate's table, which contains the packets its route protects. */
  lemma NewRoutesAreGuarded(snap: Snapshot, candidate: seq<Intent>, history: seq<Moment>, k: nat, a: Installed, p: Leak.Packet)
    requires SafeHistory(snap, candidate, history) && k < |history|
    requires a in history[k].active && a.intent !in Previous(snap) && Leak.Protects(a.intent, p) && !Leak.IsDns(p)
    ensures history[k].nft.Some? && ContainedBy(history[k].nft.value, candidate, p)
  {
    assert SafeMoment(snap, candidate, history[k]);
    TableContains(candidate, a.intent, p);
  }

  // ---------------------------------------------------------------- one operation after the other

  datatype Request = Request(candidate: seq<Intent>, singBox: Config, visits: seq<Visit>)

  /** What one operation found, what it was to install, and every moment of its life. */
  datatype Life = Life(snap: Snapshot, candidate: seq<Intent>, history: seq<Moment>)

  /** The host is as the record says: its table, and no rules but those of the recorded routes. */
  predicate Settled(host: Snapshot, active: set<Installed>) {
    Consistent(host) && forall a | a in active :: a.intent in Previous(host)
  }

  /** Each life is safe and starts from a consistent host, with the table at which the one before ended. */
  ghost predicate Chained(lives: seq<Life>) {
    && (forall k | 0 <= k < |lives| :: SafeHistory(lives[k].snap, lives[k].candidate, lives[k].history) && Consistent(lives[k].snap))
    && (forall k | 0 < k < |lives| :: Follows(lives[k - 1], lives[k]))
  }

  ghost predicate Follows(before: Life, after: Life) {
    before.history != [] && after.snap.nft == before.history[|before.history| - 1].nft
  }

  /** Committed or rolled back, an operation leaves a host that is as the record says. */
  lemma EndsSettled(e: Engine)
    requires e.Valid() && Consistent(e.snap) && (e.op == Committed || e.op == RolledBack || e.op == Prepared || e.op == Validated)
    ensures Settled(Snapshot(e.file, e.recorded, e.nft), e.active)
  {
    forall a | a in e.active ensures a.intent in Previous(Snapshot(e.file, e.recorded, e.nft)) {
      InRules(e.candidate, a);
      InRules(Previous(e.snap), a);
    }
  }

  /** These lives served the first requests, from this start to a host with this table. */
  ghost predicate Served(start: Snapshot, requests: seq<Request>, lives: seq<Life>, nft: Option<Leak.Table>) {
    && Chained(lives) && |lives| <= |requests|
    && (forall k | 0 <= k < |lives| :: lives[k].candidate == requests[k].candidate)
    && (if lives == [] then nft == start.nft else lives[0].snap == start && EndsWith(lives[|lives| - 1], nft))
  }

  ghost predicate EndsWith(l: Life, nft: Option<Leak.Table>) {
    l.history != [] && l.history[|l.history| - 1].nft == nft
  }

  lemma ServedOneMore(start: Snapshot, requests: seq<Request>, lives: seq<Life>, next: Life, after: Option<Leak.Table>)
    requires Served(start, requests, lives, next.snap.nft) && |lives| < |requests| && (lives == [] ==> next.snap == start)
    requires SafeHistory(next.snap, next.candidate, next.history) && Consistent(next.snap)
    requires next.candidate == requests[|lives|].candidate && EndsWith(next, after)
    ensures Served(start, requests, lives + [next], after)
  {
    var all := lives + [next];
    forall k | 0 < k < |all| ensures Follows(all[k - 1], all[k]) {
      assert k < |lives| ==> all[k - 1] == lives[k - 1] && all[k] == lives[k];
    }
  }

  /** One operation from its journal entry to its end. */
  method ServeOne(host: Snapshot, rules: set<Installed>, request: Request)
    returns (ghost life: Life, after: Snapshot, active: set<Installed>, ended: State)
    requires Settled(host, rules)
    ensures life.snap == host && life.candidate == request.candidate && SafeHistory(host, request.candidate, life.history)
    ensures EndsWith(life, after.nft)
    ensures ended == Committed || ended == RolledBack ==> Settled(after, active)
  {
    var e := new Engine(host, rules, request.candidate, request.singBox);
    e.Live(request.visits);
    life, ended := Life(e.snap, e.candidate, e.history), e.op;
    if ended == Committed || ended == RolledBack {
      EndsSettled(e);
    }
    after, active := Snapshot(e.file, e.recorded, e.nft), e.active;
  }

  /**
   * Requests are served one after the other for as long as each ends in a host that is as the record says; after a
   * commit or a finished undo it always is.
   */
  method Serve(start: Snapshot, rules: set<Installed>, requests: seq<Request>) returns (ghost lives: seq<Life>, ended: State)
    requires Settled(start, rules)
    ensures exists nft :: Served(start, requests, lives, nft)
    ensures |lives| < |requests| ==> ended != Committed && ended != RolledBack
  {
    var host, active := start, rules;
    lives, ended := [], RolledBack;
    for n := 0 to |requests|
      invariant Settled(host, active) && |lives| == n && Served(start, requests, lives, host.nft) && (n == 0 ==> host == start)
    {
      ghost var life: Life;
      life, host, active, ended := ServeOne(host, active, requests[n]);
      ServedOneMore(start, requests, lives, life, host.nft);
      lives := lives + [life];
      if !Settled(host, active) {
        return;
      }
    }
  }

  /** Once a table is on, it stays on through all later operations on hosts with recorded routes. */
  lemma {:induction false} TableStaysOn(lives: seq<Life>, n: nat, first: nat, m: nat, k: nat)
    requires Chained(lives) && n <= m < |lives| && first < |lives[n].history| && k < |lives[m].history| && (n == m ==> first <= k)
    requires lives[n].history[first].nft.Some? && forall l | n <= l <= m :: Previous(lives[l].snap) != []
    ensures lives[m].history[k].nft.Some?
    decreases m - n
  {
    if n == m {
      TableStays(lives[m].snap, lives[m].candidate, lives[m].history, first, k);
    } else {
      var last := |lives[m - 1].history| - 1;
      assert Follows(lives[m - 1], lives[m]);
      TableStaysOn(lives, n, first, m - 1, last);
      TableStays(lives[m].snap, lives[m].candidate, lives[m].history, 0, k);
    }
  }

  /**
   * The kill switch over any number of operations: a packet that is not DNS and is protected before and after each of
   * them is, from the first moment with a table on, contained by the table in force at every later moment.
   */
  lemma KillSwitchThroughout(lives: seq<Life>, n: nat, first: nat, m: nat, k: nat, p: Leak.Packet)
    requires Chained(lives) && n <= m < |lives| && first < |lives[n].history| && k < |lives[m].history| && (n == m ==> first <= k)
    requires lives[n].history[first].nft.Some? && forall l | n <= l <= m :: Covered(lives[l].snap, lives[l].candidate, p)
    ensures Contained(lives[m].snap, lives[m].candidate, lives[m].history[k], p)
  {
    TableStaysOn(lives, n, first, m, k);
    KillSwitchAtEveryMoment(lives[m].snap, lives[m].candidate, lives[m].history, k, k, p);
  }
}
