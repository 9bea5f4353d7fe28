/** The journal store and the owned configurations of a host, with every way one step can go wrong. */
module Host {
  import opened Wrappers
  import opened Journal
  import opened Protocol

  /** How a piece of work ended: it returned, with or without an error, or the process died. */
  datatype Ending = Ran(ok: bool) | Crashed {
    predicate IsFailure() {
      Crashed?
    }

    function PropagateFailure(): Ending {
      Crashed
    }

    function Extract(): bool
      requires !IsFailure()
    {
      ok
    }
  }

  /** One effect works, is refused, takes place but reports an error, or the process dies before or after it. */
  datatype Fault = Works | Refused | LateError | DiesBefore | DiesAfter

  function EndingOf(f: Fault): Ending {
    match f
    case Works => Ran(true)
    case Refused => Ran(false)
    case LateError => Ran(false)
    case DiesBefore => Crashed
    case DiesAfter => Crashed
  }

  predicate TakesEffect(f: Fault) {
    f == Works || f == LateError || f == DiesAfter
  }

  /** The rows after entry `i` moved to a state, with the detail recorded and some time stamped. */
  predicate RowMoved(before: seq<Op>, after: seq<Op>, i: nat, to: State, detail: Detail) {
    && i < |before| == |after|
    && after == before[i := before[i].(state := to, updated := after[i].updated, detail := detail)]
  }

  /** No sing-box entry is between installing and verifying, being undone, or failed while being undone. */
  predicate ServiceSettled(rows: seq<Op>) {
    forall i | 0 <= i < |rows| && rows[i].component == SingBox :: rows[i].state != Applying && rows[i].state != RollingBack && !Dirty(rows[i])
  }

  lemma SettledBefore(rows: seq<Op>, o: Op)
    ensures ServiceSettled(rows + [o]) ==> ServiceSettled(rows)
  {
    assert forall i | 0 <= i < |rows| :: (rows + [o])[i] == rows[i];
  }

  /** A move that settles the service either was preceded by a settled one, or ends a restart. */
  lemma SettledMove(s: Sys, i: nat, to: State, at: nat, detail: Detail)
    requires i < |s.rows| && MoveAllowed(s, i, to, detail)
    requires s.rows[i].component == SingBox ==> to != Verifying && to != RolledBack
    ensures ServiceSettled(s.rows[i := s.rows[i].(state := to, updated := at, detail := detail)]) ==> ServiceSettled(s.rows)
  {
    var after := s.rows[i := s.rows[i].(state := to, updated := at, detail := detail)];
    assert forall j | 0 <= j < |s.rows| && j != i :: after[j] == s.rows[j];
    assert after[i].component == s.rows[i].component && after[i].state == to && after[i].detail == detail;
  }

  /**
   * How many single steps did not simply work, how many of them were journal writes, and how many of those took effect
   * and reported an error.
   */
  datatype Count = Count(mishaps: nat, unjournaled: nat, misreported: nat) {
    /** Whether this count is reached from an earlier one. */
    predicate Follows(before: Count) {
      0 <= misreported - before.misreported <= unjournaled - before.unjournaled <= mishaps - before.mishaps
    }

    predicate AllJournaled(before: Count) {
      unjournaled == before.unjournaled
    }

    /** One step has gone wrong, and it was no journal write that took effect and reported an error. */
    predicate OneSlip(before: Count) {
      mishaps == before.mishaps + 1 && misreported == before.misreported
    }

    /** One step has gone wrong, a journal write that took effect and reported an error. */
    predicate OneMisreport(before: Count) {
      mishaps == before.mishaps + 1 && misreported == before.misreported + 1
    }

    /** A step that is no journal write ended this way. */
    function After(r: Ending): Count {
      if r == Ran(true) then this else this.(mishaps := mishaps + 1)
    }

    /** A journal write ended this way. */
    function AfterJournal(r: Ending, done: bool): Count {
      if r == Ran(true) then this
      else Count(mishaps + 1, unjournaled + 1, misreported + if r == Ran(false) && done then 1 else 0)
    }
  }

  class System {
    var rows: seq<Op>
    var live: Live
    /** What the sing-box service was last started with. */
    var running: Config
    var ready: bool
    var clock: nat
    const start: Live
    const epoch: nat
    ghost var run: seq<Event>
    /** What has gone wrong so far. */
    ghost var count: Count
    /** The configuration that the native tool accepted last. */
    ghost var accepted: Option<Config>
    /** What is installed and running has been verified since it last changed. */
    ghost var verified: bool

    ghost function Now(): Sys
      reads `rows, `live, `ready, `clock
    {
      Sys(rows, live, ready, clock)
    }

    /** The host is where some run of the protocol leads, and its service fits its journal. */
    ghost predicate Valid()
      reads `rows, `live, `ready, `clock, `run, `running
    {
      After(Initial(start, epoch), run) == Some(Now()) && (ServiceSettled(rows) ==> running == live.file)
    }

    /** An entry past its installation holds its candidate, one that was undone its snapshot, and the service runs it. */
    ghost predicate Holds(i: nat)
      requires i < |rows|
      reads `rows, `live, `running
    {
      var o := rows[i];
      && (o.state == Verifying || o.state == Committed ==> At(live, o.component) == o.candidate && (o.component == SingBox ==> running == live.file))
      && (o.state == RolledBack ==> At(live, o.component) == o.snapshot && (o.component == SingBox ==> running == live.file))
    }

    constructor (start: Live, epoch: nat)
      ensures running == start.file
      ensures Valid() && rows == [] && live == start && !ready && this.start == start && this.epoch == epoch
    {
      this.start := start;
      this.epoch := epoch;
      rows := [];
      live := start;
      running := start.file;
      ready := false;
      clock := epoch;
      run := [];
      count := Count(0, 0, 0);
      accepted, verified := None, false;
    }

    /** A command that changes nothing the model follows. */
    method Check() returns (r: Ending)
      modifies `count
      ensures count == old(count).After(r)
    {
      r := *;
      count := count.After(r);
    }

    /** The native tool reads a configuration without installing it. */
    method DryRun(v: Config) returns (r: Ending)
      modifies `count, `accepted
      ensures count == old(count).After(r) && (r == Ran(true) ==> accepted == Some(v))
    {
      r := Check();
      if r == Ran(true) {
        accepted := Some(v);
      }
    }

    /** What is installed, and whether it runs, is looked at. */
    method Verify() returns (r: Ending)
      modifies `count, `verified
      ensures count == old(count).After(r) && (r == Ran(true) ==> verified)
    {
      r := Check();
      if r == Ran(true) {
        verified := true;
      }
    }

    /** Start the service on the installed file, or stop it. */
    method Service(i: nat, start: bool) returns (r: Ending)
      requires Valid() && i < |rows| && rows[i].component == SingBox && (rows[i].state == Applying || rows[i].state == RollingBack)
      modifies `running, `count, `verified
      ensures Valid()
      ensures running == old(running) || running == if start then live.file else Absent
      ensures r == Ran(true) ==> running == if start then live.file else Absent
      ensures !verified && count == old(count).After(r)
    {
      var fault: Fault := *;
      verified := false;
      if TakesEffect(fault) {
        running := if start then live.file else Absent;
      }
      r := EndingOf(fault);
      count := count.After(r);
    }

    method Tick() returns (at: nat)
      ensures at >= clock
    {
      at :| at >= clock;
    }

    method CreateOperation(component: Component, candidate: Config) returns (r: Ending)
      requires Valid() && ready && Idle(rows) && candidate != Absent
      modifies `rows, `clock, `run, `count
      ensures Valid()
      ensures rows == old(rows) ||
        (|rows| == |old(rows)| + 1 && rows[..|old(rows)|] == old(rows)
         && Fresh(rows[|old(rows)|], component, At(old(live), component), candidate))
      ensures r == Ran(true) ==> rows != old(rows)
      ensures count == old(count).AfterJournal(r, rows != old(rows))
    {
      var fault: Fault := *;
      if TakesEffect(fault) {
        var at := Tick();
        var o := Op(component, Prepared, At(live, component), candidate, at, at, NoDetail);
        AfterOne(Initial(start, epoch), run, Create(o));
        SettledBefore(rows, o);
        run := run + [Create(o)];
        rows := rows + [o];
        clock := at;
      }
      r := EndingOf(fault);
      count := count.AfterJournal(r, TakesEffect(fault));
    }

    method Enter(i: nat, to: State, detail: Detail)
      requires Valid() && i < |rows| && MoveAllowed(Now(), i, to, detail)
      requires rows[i].component == SingBox && (to == Verifying || to == RolledBack) ==> running == live.file
      modifies `rows, `clock, `run
      ensures Valid() && RowMoved(old(rows), rows, i, to, detail) && rows[i].state == to && rows != old(rows)
    {
      assert rows[i].state != to;
      var at := Tick();
      AfterOne(Initial(start, epoch), run, Move(i, to, at, detail));
      if !(rows[i].component == SingBox && (to == Verifying || to == RolledBack)) {
        SettledMove(Now(), i, to, at, detail);
      }
      run := run + [Move(i, to, at, detail)];
      rows := rows[i := rows[i].(state := to, updated := at, detail := detail)];
      clock := at;
      assert rows[i].state == to;
    }

    /** The update names the state it expects; a row in any other state is left alone and that is an error. */
    method Transition(i: nat, from: State, to: State, detail: Detail) returns (r: Ending)
      requires Valid() && i < |rows|
      requires rows[i].state == from && CanTransition(from, to) ==> MoveAllowed(Now(), i, to, detail)
      requires rows[i].state == from && rows[i].component == SingBox && (to == Verifying || to == RolledBack) ==> running == live.file
      requires to == Committed ==> verified
      modifies `rows, `clock, `run, `count
      ensures Valid()
      ensures rows == old(rows) || (old(rows)[i].state == from && RowMoved(old(rows), rows, i, to, detail))
      ensures r == Ran(true) ==> old(rows)[i].state == from && RowMoved(old(rows), rows, i, to, detail)
      ensures old(rows)[i].state == from && CanTransition(from, to) ==> count == old(count).AfterJournal(r, rows != old(rows))
      ensures count.Follows(old(count)) && (count == old(count) ==> r.Ran?)
    {
      var fault: Fault := *;
      if !CanTransition(from, to) {
        return Ran(false);
      }
      if rows[i].state != from {
        count := count.AfterJournal(EndingOf(fault), false);
        return if EndingOf(fault) == Crashed then Crashed else Ran(false);
      }
      if TakesEffect(fault) {
        Enter(i, to, detail);
      }
      r := EndingOf(fault);
      count := count.AfterJournal(r, TakesEffect(fault));
    }

    /** Atomic replacement of an owned configuration on behalf of entry `i`, by one that was just accepted; a file may also be removed. */
    method WriteConfig(i: nat, v: Config) returns (r: Ending)
      requires Valid() && Enabled(Now(), Write(i, v))
      requires accepted == Some(v) || (rows[i].component == SingBox && v == Absent)
      modifies `live, `run, `count, `verified
      ensures Valid()
      ensures live == old(live) || live == Put(old(live), rows[i].component, v)
      ensures r == Ran(true) ==> live == Put(old(live), rows[i].component, v)
      ensures !verified && count == old(count).After(r)
    {
      var fault: Fault := *;
      verified := false;
      if TakesEffect(fault) {
        AfterOne(Initial(start, epoch), run, Write(i, v));
        run := run + [Write(i, v)];
        live := Put(live, rows[i].component, v);
      }
      r := EndingOf(fault);
      count := count.After(r);
    }

    /** Remember the outcome of a recovery; a restarted process starts with none. */
    method RecordRecovery(ok: bool)
      requires Valid() && (ok ==> Idle(rows))
      modifies `ready, `run
      ensures Valid() && ready == ok
    {
      AfterOne(Initial(start, epoch), run, Outcome(ok));
      run := run + [Outcome(ok)];
      ready := ok;
    }
  }

  predicate Fresh(o: Op, component: Component, snapshot: Config, candidate: Config) {
    o.state == Prepared && o.component == component && o.snapshot == snapshot && o.candidate == candidate && o.detail == NoDetail
  }
}
