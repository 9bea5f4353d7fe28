/** The apply, crash, recover and roll back protocol as a state machine over its single steps. */
module Protocol {
  import opened Wrappers
  import opened Journal

  /** Everything that survives, plus whether the running daemon's last recovery succeeded. */
  datatype Sys = Sys(rows: seq<Op>, live: Live, ready: bool, clock: nat)

  /**
   * One durable effect: an entry is created, an entry moves, a configuration is replaced, or a recovery outcome is
   * recorded. A crash is simply the end of the steps of whoever was running, followed by `Outcome(false)`.
   */
  datatype Event =
    | Create(op: Op)
    | Move(row: nat, to: State, at: nat, detail: Detail)
    | Write(row: nat, value: Config)
    | Outcome(ok: bool)

  predicate MoveAllowed(s: Sys, i: nat, to: State, detail: Detail)
    requires i < |s.rows|
  {
    var o := s.rows[i];
    && CanTransition(o.state, to)
    && (to == Verifying ==> At(s.live, o.component) == o.candidate)
    && (to == RolledBack ==> At(s.live, o.component) == o.snapshot)
    && (to == RollingBack ==> o.state == Applying || o.state == Verifying || (o.state == Committed && UndoAllowed(s, i)))
    && (to == Failed ==> (Dirty(o.(state := Failed, detail := detail)) <==> o.state != Prepared && o.state != Validated))
  }

  /** The operator may undo the newest committed entry, if the gate is open and nobody changed what it installed. */
  predicate UndoAllowed(s: Sys, i: nat)
    requires i < |s.rows|
  {
    s.ready && Idle(s.rows) && LastCommitted(s.rows, i) && At(s.live, s.rows[i].component) == s.rows[i].candidate
  }

  predicate Enabled(s: Sys, e: Event) {
    match e
    case Create(o) =>
      && s.ready && Idle(s.rows)
      && o.state == Prepared && o.snapshot == At(s.live, o.component) && o.candidate != Absent
      && s.clock <= o.created == o.updated
    case Move(i, to, at, detail) => i < |s.rows| && s.clock <= at && MoveAllowed(s, i, to, detail)
    case Write(i, v) =>
      && i < |s.rows|
      && (s.rows[i].state == Applying ==> v == s.rows[i].candidate)
      && (s.rows[i].state != Applying ==> s.rows[i].state == RollingBack && v == s.rows[i].snapshot)
    case Outcome(ok) => ok ==> Idle(s.rows)
  }

  function Apply(s: Sys, e: Event): Sys
    requires Enabled(s, e)
  {
    match e
    case Create(o) => s.(rows := s.rows + [o], clock := o.created)
    case Move(i, to, at, detail) => s.(rows := s.rows[i := s.rows[i].(state := to, updated := at, detail := detail)], clock := at)
    case Write(i, v) => s.(live := Put(s.live, s.rows[i].component, v))
    case Outcome(ok) => s.(ready := ok)
  }

  function Initial(start: Live, clock: nat): Sys {
    Sys([], start, false, clock)
  }

  /** The state after a run; `None` if some step was not allowed. */
  function After(start: Sys, run: seq<Event>): Option<Sys> {
    if run == [] then Some(start)
    else
      var s := After(start, run[..|run| - 1]);
      if s.Some? && Enabled(s.value, run[|run| - 1]) then Some(Apply(s.value, run[|run| - 1])) else None
  }

  lemma AfterOne(start: Sys, run: seq<Event>, e: Event)
    requires After(start, run).Some? && Enabled(After(start, run).value, e)
    ensures After(start, run + [e]) == Some(Apply(After(start, run).value, e))
  {
    assert (run + [e])[..|run|] == run;
  }

  // ---------------------------------------------------------------- the invariant

  predicate AtMostOneUnfinished(rows: seq<Op>) {
    forall i, j | 0 <= i < j < |rows| :: !(Unfinished(rows[i]) && Unfinished(rows[j]))
  }

  /** An entry in progress is the last one; past an entry being undone nothing is committed. */
  predicate InOrder(rows: seq<Op>) {
    && (forall i | 0 <= i < |rows| && InProgress(rows[i]) :: i == |rows| - 1)
    && (forall i, j | 0 <= i < j < |rows| && rows[i].state == RollingBack :: rows[j].state != Committed)
  }

  predicate Timed(s: Sys) {
    && (forall i | 0 <= i < |s.rows| :: s.rows[i].created <= s.rows[i].updated <= s.clock)
    && (forall i, j | 0 <= i < j < |s.rows| :: s.rows[i].created <= s.rows[j].created)
    && (forall i, j | 0 <= i < j < |s.rows| && s.rows[i].state == Committed && s.rows[j].state == Committed :: s.rows[i].updated <= s.rows[j].updated)
  }

  /** Where the live configuration may be while an entry is unfinished. */
  predicate LiveFits(live: Live, o: Op) {
    var v := At(live, o.component);
    match o.state
    case Prepared => v == o.snapshot
    case Validated => v == o.snapshot
    case Applying => v == o.snapshot || v == o.candidate
    case Verifying => v == o.candidate
    case RollingBack => v == o.snapshot || v == o.candidate
    case _ => true
  }

  predicate Agrees(told: Option<Config>, v: Config) {
    told == None || told == Some(v)
  }

  /** The snapshot of an entry that is committed or unfinished is what the journal before it says. */
  predicate SnapshotFits(start: Live, rows: seq<Op>, i: nat)
    requires i < |rows|
  {
    (Unfinished(rows[i]) || rows[i].state == Committed) ==> Agrees(Settled(start, rows[..i], rows[i].component), rows[i].snapshot)
  }

  predicate Busy(rows: seq<Op>, c: Component) {
    exists i | 0 <= i < |rows| :: Unfinished(rows[i]) && rows[i].component == c
  }

  predicate Inv(start: Live, s: Sys) {
    && AtMostOneUnfinished(s.rows) && InOrder(s.rows) && Timed(s)
    && (forall i | 0 <= i < |s.rows| :: s.rows[i].candidate != Absent)
    && (forall i | 0 <= i < |s.rows| :: LiveFits(s.live, s.rows[i]))
    && (forall i | 0 <= i < |s.rows| :: SnapshotFits(start, s.rows, i))
    && (forall c: Component :: !Busy(s.rows, c) ==> Agrees(Settled(start, s.rows, c), At(s.live, c)))
  }

  lemma InitialInv(start: Live, clock: nat)
    ensures Inv(start, Initial(start, clock))
  {
  }

  lemma CreateKeeps(start: Live, s: Sys, o: Op)
    requires Inv(start, s) && Enabled(s, Create(o))
    ensures Inv(start, Apply(s, Create(o)))
  {
    var rows, n := s.rows + [o], |s.rows|;
    assert rows[..n] == s.rows;
    assert !Busy(s.rows, o.component);
    forall i | 0 <= i < |rows| ensures SnapshotFits(start, rows, i) {
      assert rows[..i] == s.rows[..i];
      assert i < n ==> SnapshotFits(start, s.rows, i);
    }
    forall c: Component | !Busy(rows, c) ensures Agrees(Settled(start, rows, c), At(s.live, c)) {
      assert Unfinished(rows[n]);
      assert !Busy(s.rows, c);
    }
  }

  lemma WriteFits(start: Live, s: Sys, i: nat, v: Config, j: nat)
    requires Inv(start, s) && Enabled(s, Write(i, v)) && j < |s.rows|
    ensures LiveFits(Put(s.live, s.rows[i].component, v), s.rows[j])
  {
    assert LiveFits(s.live, s.rows[j]);
    if j != i {
      assert !Unfinished(s.rows[j]);
    }
  }

  lemma WriteKeeps(start: Live, s: Sys, i: nat, v: Config)
    requires Inv(start, s) && Enabled(s, Write(i, v))
    ensures Inv(start, Apply(s, Write(i, v)))
  {
    var live := Put(s.live, s.rows[i].component, v);
    forall j | 0 <= j < |s.rows| ensures LiveFits(live, s.rows[j]) {
      WriteFits(start, s, i, v, j);
    }
    assert Busy(s.rows, s.rows[i].component);
    assert forall c: Component | c != s.rows[i].component :: At(live, c) == At(s.live, c);
  }

  /** The rows after entry `i` moved. */
  function Moved(s: Sys, i: nat, to: State, at: nat, detail: Detail): seq<Op>
    requires i < |s.rows|
  {
    s.rows[i := s.rows[i].(state := to, updated := at, detail := detail)]
  }

  lemma MoveKeepsOrder(start: Live, s: Sys, i: nat, to: State, at: nat, detail: Detail)
    requires Inv(start, s) && Enabled(s, Move(i, to, at, detail))
    ensures AtMostOneUnfinished(Moved(s, i, to, at, detail)) && InOrder(Moved(s, i, to, at, detail))
  {
  }

  lemma MoveKeepsTime(start: Live, s: Sys, i: nat, to: State, at: nat, detail: Detail)
    requires Inv(start, s) && Enabled(s, Move(i, to, at, detail))
    ensures Timed(Apply(s, Move(i, to, at, detail)))
  {
  }

  lemma MoveKeepsLive(start: Live, s: Sys, i: nat, to: State, at: nat, detail: Detail)
    requires Inv(start, s) && Enabled(s, Move(i, to, at, detail))
    ensures forall j | 0 <= j < |s.rows| :: LiveFits(s.live, Moved(s, i, to, at, detail)[j])
  {
    assert LiveFits(s.live, s.rows[i]);
  }

  /** Past the entry that moves, its component has nothing committed. */
  lemma NothingCommittedBeyond(start: Live, s: Sys, i: nat, to: State, at: nat, detail: Detail)
    requires Inv(start, s) && Enabled(s, Move(i, to, at, detail))
    ensures forall j | i < j < |s.rows| :: s.rows[j].state != Committed && !Unfinished(s.rows[j])
  {
  }

  lemma MoveKeepsSnapshots(start: Live, s: Sys, i: nat, to: State, at: nat, detail: Detail)
    requires Inv(start, s) && Enabled(s, Move(i, to, at, detail))
    ensures forall j | 0 <= j < |s.rows| :: SnapshotFits(start, Moved(s, i, to, at, detail), j)
  {
    NothingCommittedBeyond(start, s, i, to, at, detail);
    var rows := Moved(s, i, to, at, detail);
    forall j | 0 <= j < |s.rows| ensures SnapshotFits(start, rows, j) {
      assert SnapshotFits(start, s.rows, j);
      if j <= i {
        assert rows[..j] == s.rows[..j];
      }
    }
  }

  lemma MoveKeepsSettled(start: Live, s: Sys, i: nat, to: State, at: nat, detail: Detail, c: Component)
    requires Inv(start, s) && Enabled(s, Move(i, to, at, detail))
    requires !Busy(Moved(s, i, to, at, detail), c)
    ensures Agrees(Settled(start, Moved(s, i, to, at, detail), c), At(s.live, c))
  {
    var rows := Moved(s, i, to, at, detail);
    var n := |rows| - 1;
    NothingCommittedBeyond(start, s, i, to, at, detail);
    if s.rows[i].component != c {
      SettledSame(start, s.rows, rows, c);
      assert forall j | 0 <= j < |rows| :: rows[j].component == c ==> rows[j] == s.rows[j];
      assert !Busy(s.rows, c);
    } else {
      assert !Unfinished(rows[i]);
      assert LiveFits(s.live, s.rows[i]) && SnapshotFits(start, s.rows, i);
      assert rows[..i] == s.rows[..i];
      if to == Committed {
        assert i == n;
      } else {
        SettledBeyond(start, rows, i, c);
      }
    }
  }

  lemma MoveKeeps(start: Live, s: Sys, i: nat, to: State, at: nat, detail: Detail)
    requires Inv(start, s) && Enabled(s, Move(i, to, at, detail))
    ensures Inv(start, Apply(s, Move(i, to, at, detail)))
  {
    MoveKeepsOrder(start, s, i, to, at, detail);
    MoveKeepsTime(start, s, i, to, at, detail);
    MoveKeepsLive(start, s, i, to, at, detail);
    MoveKeepsSnapshots(start, s, i, to, at, detail);
    forall c: Component | !Busy(Moved(s, i, to, at, detail), c)
      ensures Agrees(Settled(start, Moved(s, i, to, at, detail), c), At(s.live, c))
    {
      MoveKeepsSettled(start, s, i, to, at, detail, c);
    }
  }

  lemma StepKeeps(start: Live, s: Sys, e: Event)
    requires Inv(start, s) && Enabled(s, e)
    ensures Inv(start, Apply(s, e))
  {
    match e
    case Create(o) => CreateKeeps(start, s, o);
    case Move(i, to, at, detail) => MoveKeeps(start, s, i, to, at, detail);
    case Write(i, v) => WriteKeeps(start, s, i, v);
    case Outcome(ok) =>
  }

  /**
   * Crash safety over whole runs: whatever was applied, failed, crashed, recovered or rolled back, at most one entry
   * is unfinished, and the live configuration is the snapshot before anything was applied, the candidate once it was
   * verified, and one of the two in between.
   */
  lemma {:induction false} EveryRunKeepsInv(start: Live, clock: nat, run: seq<Event>)
    requires After(Initial(start, clock), run).Some?
    ensures Inv(start, After(Initial(start, clock), run).value)
    decreases |run|
  {
    if run == [] {
      InitialInv(start, clock);
    } else {
      EveryRunKeepsInv(start, clock, run[..|run| - 1]);
      StepKeeps(start, After(Initial(start, clock), run[..|run| - 1]).value, run[|run| - 1]);
    }
  }

  /** With nothing unfinished and no failed undo, the live configuration is the replay of the committed entries. */
  lemma LiveIsReplay(start: Live, clock: nat, run: seq<Event>)
    requires After(Initial(start, clock), run).Some?
    requires var s := After(Initial(start, clock), run).value; Idle(s.rows) && Clean(s.rows)
    ensures var s := After(Initial(start, clock), run).value; s.live == Replay(start, Stack(s.rows))
  {
    var s := After(Initial(start, clock), run).value;
    EveryRunKeepsInv(start, clock, run);
    forall c: Component ensures At(s.live, c) == At(Replay(start, Stack(s.rows)), c) {
      SettledIsReplay(start, s.rows, c);
      assert !Busy(s.rows, c);
    }
    assert At(s.live, SingBox) == At(Replay(start, Stack(s.rows)), SingBox);
    assert At(s.live, Nat) == At(Replay(start, Stack(s.rows)), Nat);
  }

  /** Two moments with the same committed entries have the same configuration: undoing gives back what was there. */
  lemma SameStackSameLive(start: Live, clock: nat, run: seq<Event>, later: seq<Event>)
    requires After(Initial(start, clock), run).Some? && After(Initial(start, clock), later).Some?
    requires var s, t := After(Initial(start, clock), run).value, After(Initial(start, clock), later).value;
      Idle(s.rows) && Clean(s.rows) && Idle(t.rows) && Clean(t.rows) && Stack(s.rows) == Stack(t.rows)
    ensures After(Initial(start, clock), run).value.live == After(Initial(start, clock), later).value.live
  {
    LiveIsReplay(start, clock, run);
    LiveIsReplay(start, clock, later);
  }

  /** Even with failed undos in the journal: a component whose journal settles it holds exactly that configuration. */
  lemma LiveIsSettled(start: Live, clock: nat, run: seq<Event>, c: Component)
    requires After(Initial(start, clock), run).Some?
    requires var s := After(Initial(start, clock), run).value; !Busy(s.rows, c) && Settled(start, s.rows, c).Some?
    ensures var s := After(Initial(start, clock), run).value; At(s.live, c) == Settled(start, s.rows, c).value
  {
    EveryRunKeepsInv(start, clock, run);
  }

  lemma HeadIsNoOlder(rows: seq<Op>, i: nat, j: nat)
    requires Heads(rows, i) && i < j < |rows|
    ensures rows[j].state == Committed ==>
      rows[i].updated > rows[j].updated || (rows[i].updated == rows[j].updated && rows[i].created > rows[j].created)
  {
    assert rows[j].state == Committed ==> Newer(rows, i, j);
  }

  /** The order of the journal query, with ties within one clock tick, always finds the entry committed last. */
  lemma NewestIsLastCommitted(start: Live, clock: nat, run: seq<Event>, i: nat)
    requires After(Initial(start, clock), run).Some?
    requires Heads(After(Initial(start, clock), run).value.rows, i)
    ensures LastCommitted(After(Initial(start, clock), run).value.rows, i)
  {
    var s := After(Initial(start, clock), run).value;
    EveryRunKeepsInv(start, clock, run);
    forall j | i < j < |s.rows| ensures s.rows[j].state != Committed {
      HeadIsNoOlder(s.rows, i, j);
    }
  }

  /** With the gate open and no failed undo, the newest committed entry is still what is installed. */
  lemma TopIsLive(start: Live, clock: nat, run: seq<Event>, i: nat)
    requires After(Initial(start, clock), run).Some?
    requires var s := After(Initial(start, clock), run).value; Idle(s.rows) && Clean(s.rows) && LastCommitted(s.rows, i)
    ensures var s := After(Initial(start, clock), run).value;
      At(s.live, s.rows[i].component) == s.rows[i].candidate != Absent
  {
    var s := After(Initial(start, clock), run).value;
    EveryRunKeepsInv(start, clock, run);
    var c := s.rows[i].component;
    SettledFromTop(start, s.rows, i);
    assert !Busy(s.rows, c);
  }

  lemma {:induction false} SettledFromTop(start: Live, rows: seq<Op>, i: nat)
    requires Clean(rows) && LastCommitted(rows, i)
    ensures Settled(start, rows, rows[i].component) == Some(rows[i].candidate)
    decreases |rows|
  {
    if i < |rows| - 1 {
      SettledFromTop(start, rows[..|rows| - 1], i);
    }
  }

  // ---------------------------------------------------------------- the gate

  /** New work and operator undos begin only after a successful recovery and with nothing unfinished. */
  predicate Begins(s: Sys, e: Event) {
    || e.Create?
    || (e.Move? && e.row < |s.rows| && s.rows[e.row].state == Committed)
  }

  /** The outcome of the last recovery recorded in a run. */
  function LastOutcome(run: seq<Event>): bool {
    if run == [] then false
    else if run[|run| - 1].Outcome? then run[|run| - 1].ok
    else LastOutcome(run[..|run| - 1])
  }

  lemma {:induction false} ReadyIsLastOutcome(start: Live, clock: nat, run: seq<Event>)
    requires After(Initial(start, clock), run).Some?
    ensures After(Initial(start, clock), run).value.ready == LastOutcome(run)
    decreases |run|
  {
    if run != [] {
      ReadyIsLastOutcome(start, clock, run[..|run| - 1]);
    }
  }

  lemma {:induction false} PrefixOfRun(start: Sys, run: seq<Event>, k: nat)
    requires After(start, run).Some? && k <= |run|
    ensures After(start, run[..k]).Some?
    decreases |run|
  {
    if k == |run| {
      assert run[..k] == run;
    } else {
      assert run[..|run| - 1][..k] == run[..k];
      PrefixOfRun(start, run[..|run| - 1], k);
    }
  }

  /** In every run, whatever begins does so behind the gate. */
  lemma GateHolds(start: Live, clock: nat, run: seq<Event>, k: nat)
    requires After(Initial(start, clock), run).Some? && k < |run|
    ensures After(Initial(start, clock), run[..k]).Some?
    ensures var s := After(Initial(start, clock), run[..k]).value;
      && (Begins(s, run[k]) ==> LastOutcome(run[..k]) && Idle(s.rows))
      && (run[k] == Outcome(true) ==> Idle(s.rows))
  {
    PrefixOfRun(Initial(start, clock), run, k + 1);
    PrefixOfRun(Initial(start, clock), run, k);
    assert run[..k + 1][..k] == run[..k];
    ReadyIsLastOutcome(start, clock, run[..k]);
  }

  /** How often entry `i` changed its state in a run. */
  function Changes(start: Sys, run: seq<Event>, i: nat): nat {
    if run == [] then 0
    else
      var e := run[|run| - 1];
      Changes(start, run[..|run| - 1], i) + if e.Move? && e.row == i then 1 else 0
  }

  /** Over a whole run, with any number of crashes and recoveries, an entry changes state at most six times. */
  lemma {:induction false} SixChangesInARun(start: Live, clock: nat, run: seq<Event>, i: nat)
    requires After(Initial(start, clock), run).Some?
    ensures var s := After(Initial(start, clock), run).value;
      Changes(Initial(start, clock), run, i) + (if i < |s.rows| then Rank(s.rows[i].state) else 6) <= 6
    decreases |run|
  {
    if run != [] {
      SixChangesInARun(start, clock, run[..|run| - 1], i);
    }
  }

  // ---------------------------------------------------------------- a failed undo

  /** A run that reaches a state can be extended by an allowed step. */
  lemma Extended(start: Sys, run: seq<Event>, s: Sys, e: Event) returns (longer: seq<Event>)
    requires After(start, run) == Some(s) && Enabled(s, e)
    ensures longer == run + [e] && After(start, longer) == Some(Apply(s, e))
  {
    AfterOne(start, run, e);
    longer := run + [e];
  }

  /** Install `v` as the next entry of an idle host, as far as APPLYING with the candidate in place. */
  lemma Installing(start: Sys, run: seq<Event>, s: Sys, v: Config) returns (longer: seq<Event>)
    requires After(start, run) == Some(s) && s.ready && Idle(s.rows) && v != Absent
    ensures After(start, longer) == Some(Sys(s.rows + [Op(SingBox, Applying, s.live.file, v, s.clock, s.clock, NoDetail)], s.live.(file := v), true, s.clock))
  {
    var n := |s.rows|;
    var o := Op(SingBox, Prepared, s.live.file, v, s.clock, s.clock, NoDetail);
    longer := Extended(start, run, s, Create(o));
    var s1 := Apply(s, Create(o));
    longer := Extended(start, longer, s1, Move(n, Validated, s.clock, NoDetail));
    var s2 := Apply(s1, Move(n, Validated, s.clock, NoDetail));
    longer := Extended(start, longer, s2, Move(n, Applying, s.clock, NoDetail));
    var s3 := Apply(s2, Move(n, Applying, s.clock, NoDetail));
    longer := Extended(start, longer, s3, Write(n, v));
    assert s3.rows == s.rows + [o.(state := Applying)];
  }

  /**
   * The exception: an undo that fails is filed as FAILED, which counts as finished. From every idle host with the
   * gate open, and for every candidate, a run leads to an idle host with the gate still open and the same committed
   * entries that nevertheless holds the candidate whose undo failed.
   */
  lemma FailedUndoLeavesCandidate(start: Sys, run: seq<Event>, v: Config) returns (longer: seq<Event>)
    requires After(start, run).Some? && v != Absent
    requires var s := After(start, run).value; s.ready && Idle(s.rows)
    ensures After(start, longer).Some?
    ensures var s, t := After(start, run).value, After(start, longer).value;
      t.ready && Idle(t.rows) && Stack(t.rows) == Stack(s.rows) && t.live == s.live.(file := v) && !Clean(t.rows)
  {
    var s := After(start, run).value;
    longer := Installing(start, run, s, v);
    var n, o := |s.rows|, Op(SingBox, Applying, s.live.file, v, s.clock, s.clock, NoDetail);
    var s1 := Sys(s.rows + [o], s.live.(file := v), true, s.clock);
    longer := Extended(start, longer, s1, Move(n, RollingBack, s.clock, RestartFailed));
    var s2 := Apply(s1, Move(n, RollingBack, s.clock, RestartFailed));
    longer := Extended(start, longer, s2, Move(n, Failed, s.clock, RollbackFailed));
    var f := o.(state := Failed, detail := RollbackFailed);
    var t := After(start, longer).value;
    assert t.rows == s.rows + [f];
    assert Dirty(t.rows[n]);
    assert (s.rows + [f])[..n] == s.rows && Stack(t.rows) == Stack(s.rows) + [];
  }
}
