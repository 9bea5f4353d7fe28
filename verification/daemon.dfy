/** The daemon: gated mutations, recovery, operator rollback, and restarts after a crash. */
module Daemon {
  import opened Wrappers
  import opened Journal
  import opened Protocol
  import opened Host
  import SB = SingBoxExecutor
  import NatExecutor

  datatype Step = RecoverSingBox | RecoverNat | JournalCheck | JournalFinal

  datatype StepResult = StepResult(step: Step, succeeded: bool)

  datatype Action = ApplySingBox(expected: Config, file: nat) | ApplyNat(tableExisted: bool, table: nat)

  datatype Request = Mutate(action: Action) | RunRecovery | OperatorRollback

  const RECOVERY_STEPS := [RecoverSingBox, RecoverNat, JournalCheck, JournalFinal]
  const MAXIMUM_RECOVERY_STEPS := 16
  /** How many unfinished entries a journal check asks for. */
  const MAXIMUM_RECOVERY_OPERATIONS: nat := 1000

  // ---------------------------------------------------------------- recovery

  predicate ComponentIdle(rows: seq<Op>, c: Component) {
    forall i | 0 <= i < |rows| && rows[i].component == c :: !Unfinished(rows[i])
  }

  /** What a successful step leaves: its own component finished, and another one as finished as it was. */
  ghost predicate Finished(before: seq<Op>, after: seq<Op>, step: Step) {
    && (step == RecoverSingBox || ComponentIdle(before, SingBox) ==> ComponentIdle(after, SingBox))
    && (step == RecoverNat || ComponentIdle(before, Nat) ==> ComponentIdle(after, Nat))
  }

  /** Interrupted entries are as they were or closed, and finished ones as they were. */
  ghost predicate Swept(before: seq<Op>, after: seq<Op>) {
    && |after| == |before|
    && forall i | 0 <= i < |after| :: after[i] == before[i] || (Unfinished(before[i]) && SB.Closed(before[i], after[i]))
  }

  method RunStep(h: System, step: Step) returns (r: Ending)
    requires h.Valid()
    modifies h
    ensures h.Valid() && h.ready == old(h.ready)
    ensures step in {JournalCheck, JournalFinal} ==> h.rows == old(h.rows) && (r == Ran(true) ==> Idle(h.rows))
    ensures r == Ran(true) ==> Finished(old(h.rows), h.rows, step) && Swept(old(h.rows), h.rows)
    ensures h.count.Follows(old(h.count)) && (h.count == old(h.count) && (step in {JournalCheck, JournalFinal} ==> Idle(old(h.rows))) ==> r == Ran(true))
  {
    match step
    case RecoverSingBox =>
      r := SB.Recover(h);
    case RecoverNat =>
      r := NatExecutor.Recover(h);
    case _ =>
      var listed :- h.Check();
      var unfinished := UnfinishedOperations(h.rows, MAXIMUM_RECOVERY_OPERATIONS);
      r := Ran(listed && unfinished == []);
  }

  lemma ChecksComeLast(steps: seq<Step>, k: nat)
    requires k < |steps|
    ensures steps == RECOVERY_STEPS && steps[k] in {JournalCheck, JournalFinal} ==> RecoverSingBox in steps[..k] && RecoverNat in steps[..k]
  {
    if steps == RECOVERY_STEPS && k >= 2 {
      assert steps[..k][0] == RecoverSingBox && steps[..k][1] == RecoverNat;
    }
  }

  /** Steps run in order up to the first failure, and each leaves its result in the report. */
  method RunCoordinator(h: System, steps: seq<Step>) returns (r: Ending, report: seq<StepResult>)
    requires h.Valid()
    modifies h
    ensures h.Valid() && h.ready == old(h.ready)
    ensures |report| <= |steps| && forall k | 0 <= k < |report| :: report[k].step == steps[k]
    ensures forall k | 0 <= k < |report| - 1 :: report[k].succeeded
    ensures r == Ran(true) ==> steps != [] && |report| == |steps| && report[|report| - 1].succeeded
    ensures r == Ran(true) && steps[|steps| - 1] in {JournalCheck, JournalFinal} ==> Idle(h.rows)
    ensures r == Ran(true) ==> Swept(old(h.rows), h.rows)
    ensures r == Ran(false) && report != [] ==> !report[|report| - 1].succeeded
    ensures h.count.Follows(old(h.count)) && (h.count == old(h.count) && steps == RECOVERY_STEPS ==> r == Ran(true))
  {
    report := [];
    if |steps| == 0 || |steps| > MAXIMUM_RECOVERY_STEPS || exists i, j | 0 <= i < j < |steps| :: steps[i] == steps[j] {
      return Ran(false), [];
    }
    for k := 0 to |steps|
      invariant h.Valid() && h.ready == old(h.ready)
      invariant |report| == k && forall l | 0 <= l < k :: report[l] == StepResult(steps[l], true)
      invariant k > 0 && steps[k - 1] in {JournalCheck, JournalFinal} ==> Idle(h.rows)
      invariant h.count.Follows(old(h.count)) && Swept(old(h.rows), h.rows)
      invariant RecoverSingBox in steps[..k] ==> ComponentIdle(h.rows, SingBox)
      invariant RecoverNat in steps[..k] ==> ComponentIdle(h.rows, Nat)
    {
      assert steps[..k + 1] == steps[..k] + [steps[k]];
      ChecksComeLast(steps, k);
      var ok := RunStep(h, steps[k]);
      if ok == Crashed {
        return Crashed, report;
      }
      report := report + [StepResult(steps[k], ok.ok)];
      if !ok.ok {
        return Ran(false), report;
      }
    }
    return Ran(true), report;
  }

  /**
   * A recovery reported successful opens the gate, and has given up what had not begun and undone the rest; any other
   * outcome shuts it.
   */
  method Recovery(h: System) returns (r: Ending)
    requires h.Valid()
    modifies h
    ensures h.Valid()
    ensures r == Ran(true) ==> h.ready && Idle(h.rows) && Swept(old(h.rows), h.rows)
    ensures r == Ran(false) ==> !h.ready
    ensures h.count.Follows(old(h.count)) && (h.count == old(h.count) ==> r == Ran(true))
  {
    var report;
    r, report := RunCoordinator(h, RECOVERY_STEPS);
    if r == Crashed {
      return;
    }
    h.RecordRecovery(r.ok);
  }

  // ---------------------------------------------------------------- the gate

  /** Nothing starts unless the last recovery succeeded and no entry is unfinished. */
  method GateOpen(h: System) returns (r: Ending)
    requires h.Valid()
    modifies h`count
    ensures r == Ran(true) ==> h.ready && Idle(h.rows)
    ensures h.count.Follows(old(h.count)) && (h.count == old(h.count) ==> r == Ran(h.ready && Idle(h.rows))) && (r == Ran(true) ==> h.count == old(h.count))
  {
    if !h.ready {
      return Ran(false);
    }
    var listed :- h.Check();
    var unfinished := UnfinishedOperations(h.rows, 1);
    return Ran(listed && unfinished == []);
  }

  /** The plan was made for the configuration that is there. */
  predicate Current(action: Action, live: Live) {
    match action
    case ApplySingBox(expected, _) => live.file == expected
    case ApplyNat(existed, _) => (live.table != Absent) == existed
  }

  /** A mutation with the gate shut, or with a stale plan, changes nothing; one that meets no mishap succeeds. */
  method MutateWith(h: System, action: Action) returns (r: Ending)
    requires h.Valid()
    modifies h
    ensures h.Valid() && h.ready == old(h.ready)
    ensures !old(h.ready) || !Idle(old(h.rows)) ==> h.rows == old(h.rows) && h.live == old(h.live) && r != Ran(true)
    ensures r == Ran(true) ==> Stack(h.rows) == Stack(old(h.rows)) + [EntryOf(action)]
    ensures r == Ran(true) ==> h.live == Put(old(h.live), EntryOf(action).component, EntryOf(action).candidate)
    ensures !Current(action, old(h.live)) ==> h.rows == old(h.rows) && h.live == old(h.live) && r != Ran(true)
    ensures h.count == old(h.count) ==> r == Ran(old(h.ready) && Idle(old(h.rows)) && Current(action, old(h.live)))
    ensures r == Ran(true) ==> h.verified && h.count == old(h.count)
    ensures r.Ran? && h.count.AllJournaled(old(h.count)) && Idle(old(h.rows)) ==> Idle(h.rows)
    ensures r == Ran(false) && h.count.OneSlip(old(h.count)) && old(h.ready) && Idle(old(h.rows)) ==> SB.Undone(old(h.rows), h.rows) && h.live == old(h.live)
    ensures h.count.Follows(old(h.count))
  {
    if Idle(h.rows) {
      SB.ClosedOrOpen(h.rows, h.rows);
    }
    var locked :- h.Check();
    if !locked {
      return Ran(false);
    }
    var open :- GateOpen(h);
    if !open {
      return Ran(false);
    }
    r := Dispatch(h, action);
  }

  /** Behind the gate. */
  method Dispatch(h: System, action: Action) returns (r: Ending)
    requires h.Valid() && h.ready && Idle(h.rows)
    modifies h
    ensures h.Valid() && h.ready
    ensures r == Ran(true) ==> Stack(h.rows) == Stack(old(h.rows)) + [EntryOf(action)]
    ensures r == Ran(true) ==> h.live == Put(old(h.live), EntryOf(action).component, EntryOf(action).candidate)
    ensures r == Ran(true) ==> h.verified && h.count == old(h.count)
    ensures !Current(action, old(h.live)) ==> h.rows == old(h.rows) && h.live == old(h.live) && r != Ran(true)
    ensures r.Ran? && h.count.AllJournaled(old(h.count)) ==> Idle(h.rows)
    ensures r == Ran(false) && h.count.OneSlip(old(h.count)) ==> SB.Undone(old(h.rows), h.rows) && h.live == old(h.live)
    ensures h.count.Follows(old(h.count)) && (h.count == old(h.count) ==> r == Ran(Current(action, old(h.live))))
  {
    match action
    case ApplySingBox(expected, file) =>
      r := SB.Execute(h, expected, Content(file));
    case ApplyNat(existed, table) =>
      r := NatExecutor.Execute(h, existed, Content(table));
  }

  function EntryOf(action: Action): Entry {
    match action
    case ApplySingBox(_, file) => Entry(SingBox, Content(file))
    case ApplyNat(_, table) => Entry(Nat, Content(table))
  }

  /** The operator's rollback pops the newest committed entry and nothing else. */
  method Rollback(h: System) returns (r: Ending)
    requires h.Valid()
    modifies h
    ensures h.Valid() && h.ready == old(h.ready)
    ensures !old(h.ready) || !Idle(old(h.rows)) ==> h.rows == old(h.rows) && h.live == old(h.live) && r != Ran(true)
    ensures r == Ran(true) ==> Stack(old(h.rows)) != [] && Stack(h.rows) == Stack(old(h.rows))[..|Stack(old(h.rows))| - 1] && Idle(h.rows)
    ensures r == Ran(true) && Clean(old(h.rows)) ==> Clean(h.rows)
    ensures h.count.Follows(old(h.count))
    ensures h.count == old(h.count) && old(h.ready) && Idle(old(h.rows)) && Clean(old(h.rows)) && Stack(old(h.rows)) != [] ==> r == Ran(true)
  {
    var locked :- h.Check();
    if !locked {
      return Ran(false);
    }
    var open :- GateOpen(h);
    if !open {
      return Ran(false);
    }
    var listed :- h.Check();
    if !listed {
      return Ran(false);
    }
    var newest := NewestCommitted(h.rows);
    if newest == None {
      NothingCommittedNoStack(h.rows);
      return Ran(false);
    }
    var i := newest.value;
    NewestIsLastCommitted(h.start, h.epoch, h.run, i);
    if Clean(h.rows) {
      TopIsLive(h.start, h.epoch, h.run, i);
    }
    match h.rows[i].component {
      case SingBox =>
        r := SB.RollbackCommitted(h, i);
      case Nat =>
        r := NatExecutor.RollbackCommitted(h, i);
    }
    if r == Ran(true) {
      Popped(old(h.rows), h.rows, i);
    }
  }

  lemma Popped(before: seq<Op>, after: seq<Op>, i: nat)
    requires LastCommitted(before, i) && Idle(before) && SB.OnlyRow(before, after, i) && after[i].state == RolledBack
    ensures Stack(before) != [] && Stack(after) == Stack(before)[..|Stack(before)| - 1]
    ensures Idle(after) && (Clean(before) ==> Clean(after))
  {
    StackDrops(before, i, after[i]);
  }

  // ---------------------------------------------------------------- whole histories

  /** A process that has died answers no request. */
  method Handle(h: System, request: Request, last: Ending) returns (r: Ending)
    requires h.Valid() && last.Ran?
    modifies h
    ensures h.Valid()
  {
    match request
    case Mutate(action) =>
      r := MutateWith(h, action);
    case RunRecovery =>
      r := Recovery(h);
    case OperatorRollback =>
      r := Rollback(h);
  }

  /** A new process: nothing is known of earlier recoveries, so it recovers before it serves. */
  method Startup(h: System) returns (r: Ending)
    requires h.Valid()
    modifies h
    ensures h.Valid()
    ensures r == Ran(true) ==> h.ready && Idle(h.rows)
  {
    h.RecordRecovery(false);
    r := Recovery(h);
  }

  /**
   * Any history of requests, with a restart after every crash: afterwards the journal invariant holds, and with
   * nothing unfinished and no failed undo the host holds exactly the replay of the committed entries.
   */
  method Serve(h: System, requests: seq<Request>)
    requires h.Valid()
    modifies h
    ensures h.Valid() && Inv(h.start, h.Now())
    ensures Idle(h.rows) && Clean(h.rows) ==> h.live == Replay(h.start, Stack(h.rows)) && h.running == h.live.file
  {
    var alive := Startup(h);
    for k := 0 to |requests|
      invariant h.Valid()
    {
      if alive == Crashed {
        alive := Startup(h);
      } else {
        alive := Handle(h, requests[k], alive);
      }
    }
    EveryRunKeepsInv(h.start, h.epoch, h.run);
    if Idle(h.rows) && Clean(h.rows) {
      LiveIsReplay(h.start, h.epoch, h.run);
    }
  }

  /** Undoing `k` times in a row gives back exactly the configuration of `k` commits earlier. */
  method RollbackTimes(h: System, k: nat) returns (r: Ending)
    requires h.Valid() && k <= |Stack(h.rows)| && Clean(h.rows) && Idle(h.rows)
    modifies h
    ensures h.Valid()
    ensures r == Ran(true) ==> Stack(h.rows) == Stack(old(h.rows))[..|Stack(old(h.rows))| - k]
    ensures r == Ran(true) ==> h.live == Replay(h.start, Stack(old(h.rows))[..|Stack(old(h.rows))| - k])
    ensures h.count == old(h.count) && old(h.ready) ==> r == Ran(true)
  {
    ghost var stack := Stack(h.rows);
    for n := 0 to k
      invariant h.Valid() && Clean(h.rows) && Idle(h.rows)
      invariant Stack(h.rows) == stack[..|stack| - n]
      invariant h.count.Follows(old(h.count)) && h.ready == old(h.ready)
    {
      var ok :- Rollback(h);
      if !ok {
        return Ran(false);
      }
    }
    LiveIsReplay(h.start, h.epoch, h.run);
    return Ran(true);
  }
}
