/** Applying, recovering and rolling back the sing-box configuration file. */
module SingBoxExecutor {
  import opened Wrappers
  import opened Journal
  import opened Protocol
  import opened Host

  /** Rows after work on entry `i` alone. */
  ghost predicate OnlyRow(before: seq<Op>, after: seq<Op>, i: nat) {
    |before| == |after| && i < |before| && after == before[i := after[i]]
    && after[i].component == before[i].component && after[i].snapshot == before[i].snapshot && after[i].candidate == before[i].candidate
  }

  /** An interrupted entry after a successful recovery: given up if nothing was touched, otherwise undone. */
  predicate Closed(before: Op, after: Op) {
    after.state == (if before.state in {Prepared, Validated} then Failed else RolledBack) && !Dirty(after)
  }

  /** Only the first `k` listed entries of component `c` have changed, and unless one failed they are closed. */
  ghost predicate Progress(before: seq<Op>, after: seq<Op>, operations: seq<nat>, k: nat, c: Component, failed: bool)
    requires k <= |operations|
  {
    && |before| == |after|
    && (forall i | 0 <= i < |after| && after[i] != before[i] :: i in operations[..k] && before[i].component == c == after[i].component)
    && (!failed ==> forall l | 0 <= l < k && operations[l] < |after| && after[operations[l]].component == c :: Closed(before[operations[l]], after[operations[l]]))
  }

  /** Every interrupted entry of the component is closed, and nothing else has changed. */
  ghost predicate Recovered(before: seq<Op>, after: seq<Op>, c: Component) {
    && |after| == |before|
    && (forall i | 0 <= i < |after| :: after[i] == before[i] || (before[i].component == c && Unfinished(before[i]) && Closed(before[i], after[i])))
    && (forall i | 0 <= i < |after| && before[i].component == c == after[i].component :: !Unfinished(after[i]))
  }

  lemma ProgressSkip(before: seq<Op>, after: seq<Op>, operations: seq<nat>, k: nat, c: Component, failed: bool)
    requires k < |operations| && operations[k] < |after| && Progress(before, after, operations, k, c, failed)
    requires after[operations[k]].component != c
    ensures Progress(before, after, operations, k + 1, c, failed)
  {
    assert operations[..k + 1] == operations[..k] + [operations[k]];
  }

  lemma ProgressStep(before: seq<Op>, mid: seq<Op>, after: seq<Op>, operations: seq<nat>, k: nat, c: Component, failed: bool, ok: bool)
    requires k < |operations| && operations[k] < |mid| && Progress(before, mid, operations, k, c, failed)
    requires forall i, j | 0 <= i < j < |operations| :: operations[i] != operations[j]
    requires OnlyRow(mid, after, operations[k]) && mid[operations[k]].component == c
    requires ok ==> Closed(mid[operations[k]], after[operations[k]])
    ensures Progress(before, after, operations, k + 1, c, failed || !ok)
  {
    assert operations[..k + 1] == operations[..k] + [operations[k]];
    assert operations[k] !in operations[..k];
  }

  lemma ProgressDone(before: seq<Op>, after: seq<Op>, operations: seq<nat>, c: Component)
    requires Progress(before, after, operations, |operations|, c, false)
    requires forall i | 0 <= i < |before| && Unfinished(before[i]) :: i in operations
    requires forall i | i in operations :: i < |before| && Unfinished(before[i])
    ensures Recovered(before, after, c)
  {
    assert operations[..|operations|] == operations;
    forall i | 0 <= i < |after| ensures after[i] == before[i] || (before[i].component == c && Unfinished(before[i]) && Closed(before[i], after[i])) {
      if after[i] != before[i] {
        var l :| 0 <= l < |operations| && operations[l] == i;
      }
    }
  }

  const RECOVERY_LIMIT: nat := 100

  /** As at most one entry is unfinished, the limit of the query leaves none out. */
  lemma AllAreListed(rows: seq<Op>, limit: nat, r: seq<nat>)
    requires OldestUnfinished(rows, limit, r) && AtMostOneUnfinished(rows) && limit > 1
    ensures forall i | 0 <= i < |rows| && Unfinished(rows[i]) :: i in r
  {
    if |r| > 1 {
      TwoAreListed(rows, limit, r);
    }
  }

  lemma TwoAreListed(rows: seq<Op>, limit: nat, r: seq<nat>)
    requires OldestUnfinished(rows, limit, r) && |r| > 1
    ensures !AtMostOneUnfinished(rows)
  {
    var i, j := if r[0] < r[1] then r[0] else r[1], if r[0] < r[1] then r[1] else r[0];
    assert i < j && Unfinished(rows[i]) && Unfinished(rows[j]);
  }

  method ListUnfinished(h: System) returns (operations: seq<nat>)
    requires h.Valid()
    ensures forall k | 0 <= k < |operations| :: operations[k] < |h.rows| && Unfinished(h.rows[operations[k]])
    ensures forall k, l | 0 <= k < l < |operations| :: operations[k] != operations[l]
    ensures forall i | 0 <= i < |h.rows| && Unfinished(h.rows[i]) :: i in operations
  {
    operations := UnfinishedOperations(h.rows, RECOVERY_LIMIT);
    EveryRunKeepsInv(h.start, h.epoch, h.run);
    AllAreListed(h.rows, RECOVERY_LIMIT, operations);
  }

  /** The next listed entry is still as it was. */
  lemma ProgressNext(before: seq<Op>, after: seq<Op>, operations: seq<nat>, k: nat, c: Component, failed: bool)
    requires k < |operations| && operations[k] < |before| && Progress(before, after, operations, k, c, failed)
    requires forall i, j | 0 <= i < j < |operations| :: operations[i] != operations[j]
    ensures after[operations[k]] == before[operations[k]]
  {
    assert operations[k] !in operations[..k];
  }

  function Last(rows: seq<Op>): Op
    requires rows != []
  {
    rows[|rows| - 1]
  }

  /** One more entry, of this component. */
  ghost predicate Appended(before: seq<Op>, after: seq<Op>, c: Component) {
    |after| == |before| + 1 && after[..|before|] == before && after[|before|].component == c
  }

  /** Nothing is committed that was not before, and at most an entry that had not begun is open. */
  ghost predicate Undone(before: seq<Op>, after: seq<Op>) {
    && Stack(after) == Stack(before)
    && (Clean(before) ==> Clean(after))
    && forall i | 0 <= i < |after| && Unfinished(after[i]) :: i == |before| && after[i].state == Prepared
  }

  /** What one more entry changes. */
  lemma ClosedOrOpen(before: seq<Op>, after: seq<Op>)
    requires Idle(before) && (after == before || (|after| == |before| + 1 && after[..|before|] == before))
    ensures after == before || !Unfinished(Last(after)) ==> Idle(after)
    ensures after == before || Last(after).state in {Prepared, RolledBack} || (Last(after).state == Failed && !Dirty(Last(after))) ==> Undone(before, after)
  {
    assert forall i | 0 <= i < |before| :: after[i] == after[..|before|][i];
  }

  /** At most the file has been put back to the snapshot of entry `i`. */
  ghost predicate MayHoldSnapshot(before: Live, after: Live, o: Op) {
    after == before || after == Put(before, o.component, o.snapshot)
  }

  /** Put the file back and verify it, or remove it and stop the service if there was none. */
  method Restore(h: System, i: nat) returns (r: Ending)
    requires h.Valid() && i < |h.rows| && h.rows[i].state == RollingBack && h.rows[i].component == SingBox
    modifies h`live, h`running, h`run, h`count, h`accepted, h`verified
    ensures h.Valid() && MayHoldSnapshot(old(h.live), h.live, h.rows[i])
    ensures r == Ran(true) ==> h.live.file == h.running == h.rows[i].snapshot && (h.rows[i].snapshot != Absent ==> h.verified)
    ensures h.count.Follows(old(h.count)) && (h.count == old(h.count) <==> r == Ran(true))
    ensures h.count.AllJournaled(old(h.count))
  {
    var snapshot := h.rows[i].snapshot;
    if snapshot == Absent {
      var inspected :- h.Check();
      if !inspected {
        return Ran(false);
      }
      if h.live.file != Absent {
        var removed :- h.WriteConfig(i, Absent);
        if !removed {
          return Ran(false);
        }
      }
      r := h.Service(i, false);
      return;
    }
    var written :- h.Check();
    if !written {
      return Ran(false);
    }
    var valid :- h.DryRun(snapshot);
    if !valid {
      return Ran(false);
    }
    var installed :- h.WriteConfig(i, snapshot);
    if !installed {
      return Ran(false);
    }
    var restarted :- h.Service(i, true);
    if !restarted {
      return Ran(false);
    }
    r := h.Verify();
  }

  /** Put the snapshot back and close the entry, either as rolled back or as failed. */
  method FinishRollback(h: System, i: nat, detail: Detail) returns (r: Ending)
    requires h.Valid() && i < |h.rows| && h.rows[i].state == RollingBack && h.rows[i].component == SingBox
    modifies h
    ensures h.Valid() && OnlyRow(old(h.rows), h.rows, i) && h.ready == old(h.ready) && h.Holds(i)
    ensures MayHoldSnapshot(old(h.live), h.live, h.rows[i])
    ensures r == Ran(true) ==> h.rows[i].state == RolledBack
    ensures r.Ran? && h.count.AllJournaled(old(h.count)) ==> h.rows[i].state == if r.ok then RolledBack else Failed
    ensures h.count.Follows(old(h.count)) && (h.count == old(h.count) <==> r == Ran(true))
  {
    var restored :- Restore(h, i);
    if !restored {
      var noted :- h.Transition(i, RollingBack, Failed, RollbackFailed);
      return Ran(false);
    }
    r := h.Transition(i, RollingBack, RolledBack, detail);
  }

  /** An entry that is not in the expected state is left alone. */
  method Rollback(h: System, i: nat, from: State, detail: Detail) returns (r: Ending)
    requires h.Valid() && i < |h.rows| && h.rows[i].component == SingBox && (from == Applying || from == Verifying) && h.rows[i].state != RolledBack
    modifies h
    ensures h.Valid() && OnlyRow(old(h.rows), h.rows, i) && h.ready == old(h.ready)
    ensures h.rows[i].state == RolledBack || old(h.Holds(i)) ==> h.Holds(i)
    ensures MayHoldSnapshot(old(h.live), h.live, h.rows[i])
    ensures old(h.rows)[i].state != from ==> h.rows == old(h.rows) && h.live == old(h.live) && h.running == old(h.running) && r != Ran(true)
    ensures r == Ran(true) ==> h.rows[i].state == RolledBack && h.count == old(h.count)
    ensures old(h.rows)[i].state == from && r.Ran? && h.count.AllJournaled(old(h.count)) ==> h.rows[i].state == if r.ok then RolledBack else Failed
    ensures h.count.Follows(old(h.count))
    ensures h.count == old(h.count) && old(h.rows)[i].state == from ==> r == Ran(true)
  {
    var rolling :- h.Transition(i, from, RollingBack, detail);
    if !rolling {
      return Ran(false);
    }
    r := FinishRollback(h, i, detail);
  }

  /** Undo after a failed step; without a readable snapshot the entry is given up. */
  method FailWithRollback(h: System, i: nat, from: State, detail: Detail) returns (r: Ending)
    requires h.Valid() && i < |h.rows| && h.rows[i].component == SingBox && (from == Applying || from == Verifying) && h.Holds(i) && h.rows[i].state != RolledBack
    modifies h
    ensures h.Valid() && OnlyRow(old(h.rows), h.rows, i) && h.ready == old(h.ready) && h.Holds(i)
    ensures MayHoldSnapshot(old(h.live), h.live, h.rows[i])
    ensures r != Ran(true)
    ensures old(h.rows)[i].state != from ==> h.rows == old(h.rows) && h.live == old(h.live) && h.running == old(h.running)
    ensures old(h.rows)[i].state == from && r.Ran? && h.count.AllJournaled(old(h.count)) ==> h.rows[i].state == RolledBack || h.rows[i].state == Failed
    ensures h.count.Follows(old(h.count))
    ensures h.count == old(h.count) && old(h.rows)[i].state == from ==> h.rows[i].state == RolledBack
  {
    var readable :- h.Check();
    if !readable {
      var noted :- h.Transition(i, from, Failed, SnapshotAuthenticationFailed);
      return Ran(false);
    }
    var noted :- Rollback(h, i, from, detail);
    return Ran(false);
  }

  /** Two journal steps before anything on the host is touched. */
  method MarkApplying(h: System, n: nat) returns (r: Ending)
    requires h.Valid() && n < |h.rows| && h.rows[n].state == Prepared && h.rows[n].component == SingBox
    modifies h`rows, h`clock, h`run, h`count
    ensures h.Valid() && OnlyRow(old(h.rows), h.rows, n) && !Dirty(h.rows[n])
    ensures r == Ran(true) ==> h.rows[n].state == Applying
    ensures h.count.OneSlip(old(h.count)) && r.Ran? ==> h.rows[n].state == Prepared || h.rows[n].state == Failed
    ensures h.count.OneMisreport(old(h.count)) && r.Ran? ==> h.rows[n].state == Validated || h.rows[n].state == Applying
    ensures h.count.Follows(old(h.count))
    ensures h.count == old(h.count) <==> r == Ran(true)
    ensures h.count.AllJournaled(old(h.count)) && r.Ran? ==> r == Ran(true)
  {
    var validated :- h.Transition(n, Prepared, Validated, NoDetail);
    if !validated {
      return Ran(false);
    }
    var applying :- h.Transition(n, Validated, Applying, NoDetail);
    if !applying {
      var noted :- h.Transition(n, Validated, Failed, JournalTransitionFailed);
      return Ran(false);
    }
    return Ran(true);
  }

  /** The candidate is written to a temporary file and read by the native tool. */
  method Validate(h: System, n: nat) returns (r: Ending)
    requires h.Valid() && n < |h.rows| && h.rows[n].state == Prepared && h.rows[n].component == SingBox
    modifies h`rows, h`clock, h`run, h`count, h`accepted
    ensures h.Valid() && OnlyRow(old(h.rows), h.rows, n) && !Dirty(h.rows[n])
    ensures r == Ran(true) ==> h.rows[n].state == Applying && h.accepted == Some(h.rows[n].candidate)
    ensures r == Ran(false) && h.count.AllJournaled(old(h.count)) ==> h.rows[n].state == Failed
    ensures r == Ran(false) && h.count.OneSlip(old(h.count)) ==> h.rows[n].state == Prepared || h.rows[n].state == Failed
    ensures r == Ran(false) && h.count.OneMisreport(old(h.count)) ==> h.rows[n].state == Validated || h.rows[n].state == Applying
    ensures h.count.Follows(old(h.count)) && (h.count == old(h.count) <==> r == Ran(true))
  {
    var written :- h.Check();
    if !written {
      var noted :- h.Transition(n, Prepared, Failed, CandidateWriteFailed);
      return Ran(false);
    }
    var valid :- h.DryRun(h.rows[n].candidate);
    if !valid {
      var noted :- h.Transition(n, Prepared, Failed, NativeValidationFailed);
      return Ran(false);
    }
    r := MarkApplying(h, n);
  }

  /** The entry is created if the plan was made for what is there. */
  method Open(h: System, expected: Config, candidate: Config) returns (r: Ending)
    requires h.Valid() && h.ready && Idle(h.rows) && candidate != Absent
    modifies h`rows, h`clock, h`run, h`count
    ensures h.Valid()
    ensures h.rows == old(h.rows) || (Appended(old(h.rows), h.rows, SingBox) && Fresh(Last(h.rows), SingBox, At(h.live, SingBox), candidate))
    ensures !(h.live.file == expected) ==> h.rows == old(h.rows) && r != Ran(true)
    ensures r == Ran(true) ==> h.rows != old(h.rows)
    ensures r == Ran(false) ==> (h.rows != old(h.rows) <==> h.count.misreported != old(h.count).misreported)
    ensures r == Ran(false) && h.rows != old(h.rows) ==> h.count.OneMisreport(old(h.count)) && !h.count.AllJournaled(old(h.count))
    ensures h.count.Follows(old(h.count))
    ensures h.count == old(h.count) ==> r == Ran(old(h.live.file) == expected)
    ensures r == Ran(true) ==> h.count == old(h.count)
  {
    var inspected :- h.Check();
    if !inspected || h.live.file != expected {
      return Ran(false);
    }
    var sealed :- h.Check();
    if !sealed {
      return Ran(false);
    }
    r := h.CreateOperation(SingBox, candidate);
  }

  /** Up to the moment the entry is marked as being applied; the file and the service are not touched. */
  method Prepare(h: System, expected: Config, candidate: Config) returns (r: Ending)
    requires h.Valid() && h.ready && Idle(h.rows) && candidate != Absent
    modifies h`rows, h`clock, h`run, h`count, h`accepted
    ensures h.Valid()
    ensures h.rows == old(h.rows) || (Appended(old(h.rows), h.rows, SingBox) && !Dirty(Last(h.rows)))
    ensures h.live.file != expected ==> h.rows == old(h.rows) && r != Ran(true)
    ensures r == Ran(true) ==> Appended(old(h.rows), h.rows, SingBox) && h.accepted == Some(candidate)
    ensures r == Ran(true) ==> Last(h.rows).state == Applying && Last(h.rows).candidate == candidate && Last(h.rows).snapshot == h.live.file
    ensures r == Ran(false) && h.count.AllJournaled(old(h.count)) ==> h.rows == old(h.rows) || Last(h.rows).state == Failed
    ensures r == Ran(false) && h.count.OneSlip(old(h.count)) ==> h.rows == old(h.rows) || Last(h.rows).state == Prepared || Last(h.rows).state == Failed
    ensures r == Ran(false) && h.count.OneMisreport(old(h.count)) ==> h.rows != old(h.rows) && Last(h.rows).state in {Prepared, Validated, Applying}
    ensures h.count.Follows(old(h.count))
    ensures h.count == old(h.count) ==> r == Ran(old(h.live.file) == expected)
    ensures r == Ran(true) ==> h.count == old(h.count)
  {
    var n := |h.rows|;
    var begun :- Open(h, expected, candidate);
    if !begun {
      return Ran(false);
    }
    r := Validate(h, n);
  }

  /**
   * Install, restart, verify and commit the entry, undoing on any failure. If no journal write goes wrong the entry is
   * finished; one failure of another kind, or a refused journal write, is undone; a journal write that takes effect and
   * reports an error leaves the candidate in place.
   */
  method Install(h: System, n: nat) returns (r: Ending)
    requires h.Valid() && n < |h.rows| && h.rows[n].state == Applying && h.rows[n].component == SingBox
    requires h.accepted == Some(h.rows[n].candidate)
    modifies h
    ensures h.Valid() && OnlyRow(old(h.rows), h.rows, n) && h.ready == old(h.ready) && h.Holds(n)
    ensures h.live.table == old(h.live.table)
    ensures r == Ran(true) ==> h.rows[n].state == Committed && h.verified
    ensures r == Ran(false) && h.count.AllJournaled(old(h.count)) ==> h.rows[n].state == RolledBack || h.rows[n].state == Failed
    ensures r == Ran(false) && h.count.OneSlip(old(h.count)) ==> h.rows[n].state == RolledBack
    ensures r == Ran(false) && h.count.OneMisreport(old(h.count)) ==> h.rows[n].state == Verifying || h.rows[n].state == Committed
    ensures h.count.Follows(old(h.count)) && (h.count == old(h.count) <==> r == Ran(true))
  {
    var installed :- h.WriteConfig(n, h.rows[n].candidate);
    if !installed {
      r := FailWithRollback(h, n, Applying, ConfigInstallFailed);
      return;
    }
    var restarted :- h.Service(n, true);
    if !restarted {
      r := FailWithRollback(h, n, Applying, RestartFailed);
      return;
    }
    r := Confirm(h, n);
  }

  /** The candidate is installed and running; verify it and commit the entry. */
  method Confirm(h: System, n: nat) returns (r: Ending)
    requires h.Valid() && n < |h.rows| && h.rows[n].state == Applying && h.rows[n].component == SingBox
    requires h.live.file == h.running == h.rows[n].candidate
    modifies h
    ensures h.Valid() && OnlyRow(old(h.rows), h.rows, n) && h.ready == old(h.ready) && h.Holds(n)
    ensures MayHoldSnapshot(old(h.live), h.live, h.rows[n])
    ensures r == Ran(true) ==> h.rows[n].state == Committed && h.verified
    ensures r == Ran(false) && h.count.AllJournaled(old(h.count)) ==> h.rows[n].state == RolledBack || h.rows[n].state == Failed
    ensures r == Ran(false) && h.count.OneSlip(old(h.count)) ==> h.rows[n].state == RolledBack
    ensures r == Ran(false) && h.count.OneMisreport(old(h.count)) ==> h.rows[n].state == Verifying || h.rows[n].state == Committed
    ensures h.count.Follows(old(h.count)) && (h.count == old(h.count) <==> r == Ran(true))
  {
    var verifying :- h.Transition(n, Applying, Verifying, NoDetail);
    if !verifying {
      r := FailWithRollback(h, n, Applying, JournalTransitionFailed);
      return;
    }
    r := Commit(h, n);
  }

  /** The candidate is in place and so is the entry's mark; look at it and commit. */
  method Commit(h: System, n: nat) returns (r: Ending)
    requires h.Valid() && n < |h.rows| && h.rows[n].state == Verifying && h.rows[n].component == SingBox && h.Holds(n)
    modifies h
    ensures h.Valid() && OnlyRow(old(h.rows), h.rows, n) && h.ready == old(h.ready) && h.Holds(n)
    ensures MayHoldSnapshot(old(h.live), h.live, h.rows[n])
    ensures r == Ran(true) ==> h.rows[n].state == Committed && h.verified
    ensures r == Ran(false) && h.count.AllJournaled(old(h.count)) ==> h.rows[n].state == RolledBack || h.rows[n].state == Failed
    ensures r == Ran(false) && h.count.OneSlip(old(h.count)) ==> h.rows[n].state == RolledBack
    ensures r == Ran(false) && h.count.OneMisreport(old(h.count)) ==> h.rows[n].state == Committed
    ensures h.count.Follows(old(h.count)) && (h.count == old(h.count) <==> r == Ran(true))
  {
    var verified :- h.Verify();
    if !verified {
      r := FailWithRollback(h, n, Verifying, VerificationFailed);
      return;
    }
    var committed :- h.Transition(n, Verifying, Committed, NoDetail);
    if !committed {
      r := FailWithRollback(h, n, Verifying, JournalTransitionFailed);
      return;
    }
    return Ran(true);
  }

  /**
   * Apply a planned configuration; a plan made for another configuration is refused before the journal is touched.
   * Unless a journal write goes wrong the journal is idle afterwards, and after one failure, other than a journal write
   * that takes effect and reports an error, the file is the one that was there before, and the service runs it or was
   * not touched.
   */
  method Execute(h: System, expected: Config, candidate: Config) returns (r: Ending)
    requires h.Valid() && h.ready && Idle(h.rows) && candidate != Absent
    modifies h
    ensures h.Valid() && h.ready && h.live.table == old(h.live.table)
    ensures h.rows == old(h.rows) || Appended(old(h.rows), h.rows, SingBox)
    ensures old(h.live.file) != expected ==> h.rows == old(h.rows) && h.live == old(h.live) && h.running == old(h.running) && r != Ran(true)
    ensures r == Ran(true) ==> h.live.file == h.running == candidate && Stack(h.rows) == Stack(old(h.rows)) + [Entry(SingBox, candidate)]
    ensures r == Ran(true) ==> h.verified && h.count == old(h.count)
    ensures r.Ran? && h.count.AllJournaled(old(h.count)) ==> Idle(h.rows)
    ensures r == Ran(false) && h.count.OneSlip(old(h.count)) ==>
      Undone(old(h.rows), h.rows) && h.live == old(h.live) && (h.running == old(h.running) || h.running == h.live.file)
    ensures r == Ran(false) && h.count.OneMisreport(old(h.count)) ==> Appended(old(h.rows), h.rows, SingBox) && Last(h.rows).state in {Prepared, Validated, Applying, Verifying, Committed}
    ensures r == Ran(false) && h.count.OneMisreport(old(h.count)) && Last(h.rows).state in {Prepared, Validated, Applying} ==> h.live == old(h.live) && h.running == old(h.running)
    ensures r == Ran(false) && h.count.OneMisreport(old(h.count)) && Last(h.rows).state in {Verifying, Committed} ==> h.live.file == h.running == candidate
    ensures h.count.Follows(old(h.count)) && (h.count == old(h.count) ==> r == Ran(old(h.live.file) == expected))
  {
    var n := |h.rows|;
    var prepared :- Prepare(h, expected, candidate);
    if !prepared {
      ClosedOrOpen(old(h.rows), h.rows);
      return Ran(false);
    }
    r := Install(h, n);
    assert h.rows[..n] == old(h.rows);
    ClosedOrOpen(old(h.rows), h.rows);
  }

  /** Finish every interrupted entry of this component. */
  method Recover(h: System) returns (r: Ending)
    requires h.Valid()
    modifies h
    ensures h.Valid() && h.ready == old(h.ready) && |h.rows| == |old(h.rows)|
    ensures forall i | 0 <= i < |h.rows| :: h.rows[i].component == old(h.rows)[i].component
    ensures forall i | 0 <= i < |h.rows| && old(h.rows)[i].component != SingBox :: h.rows[i] == old(h.rows)[i]
    ensures h.live.table == old(h.live.table)
    ensures r == Ran(true) ==> Recovered(old(h.rows), h.rows, SingBox)
    ensures h.count.Follows(old(h.count)) && (h.count == old(h.count) <==> r == Ran(true))
  {
    var listed :- h.Check();
    if !listed {
      return Ran(false);
    }
    var operations := ListUnfinished(h);
    var failed := false;
    for k := 0 to |operations|
      invariant h.count.Follows(old(h.count)) && (h.count == old(h.count) <==> !failed)
      invariant h.Valid() && h.ready == old(h.ready) && h.live.table == old(h.live.table)
      invariant Progress(old(h.rows), h.rows, operations, k, SingBox, failed)
    {
      var i := operations[k];
      ProgressNext(old(h.rows), h.rows, operations, k, SingBox, failed);
      if h.rows[i].component == SingBox {
        ghost var before := h.rows;
        var ok :- RecoverOne(h, i);
        ProgressStep(old(h.rows), before, h.rows, operations, k, SingBox, failed, ok);
        failed := failed || !ok;
      } else {
        ProgressSkip(old(h.rows), h.rows, operations, k, SingBox, failed);
      }
    }
    if !failed {
      ProgressDone(old(h.rows), h.rows, operations, SingBox);
    }
    return Ran(!failed);
  }

  method RecoverOne(h: System, i: nat) returns (r: Ending)
    requires h.Valid() && i < |h.rows| && h.rows[i].component == SingBox && Unfinished(h.rows[i])
    modifies h
    ensures h.Valid() && OnlyRow(old(h.rows), h.rows, i) && h.ready == old(h.ready)
    ensures h.rows[i].state == RolledBack ==> h.Holds(i)
    ensures MayHoldSnapshot(old(h.live), h.live, h.rows[i])
    ensures r == Ran(true) ==> Closed(old(h.rows)[i], h.rows[i])
    ensures r == Ran(false) && h.count.AllJournaled(old(h.count)) ==> h.rows[i].state == Failed || (h.rows == old(h.rows) && h.live == old(h.live) && h.running == old(h.running))
    ensures h.count.Follows(old(h.count)) && (h.count == old(h.count) <==> r == Ran(true))
  {
    var o := h.rows[i];
    var readable :- h.Check();
    if !readable {
      return Ran(false);
    }
    if o.state == Prepared || o.state == Validated {
      r := h.Transition(i, o.state, Failed, InterruptedBeforeApply);
    } else if o.state == Applying || o.state == Verifying {
      r := Rollback(h, i, o.state, InterruptedOperation);
    } else {
      r := FinishRollback(h, i, InterruptedOperation);
    }
  }

  /** The operator takes back the newest committed entry, if the file is still what it installed. */
  method RollbackCommitted(h: System, i: nat) returns (r: Ending)
    requires h.Valid() && h.ready && Idle(h.rows) && LastCommitted(h.rows, i) && h.rows[i].component == SingBox
    modifies h
    ensures h.Valid() && OnlyRow(old(h.rows), h.rows, i) && h.ready
    ensures MayHoldSnapshot(old(h.live), h.live, h.rows[i])
    ensures old(h.live.file) != old(h.rows)[i].candidate ==> h.rows == old(h.rows) && h.live == old(h.live) && h.running == old(h.running) && r != Ran(true)
    ensures r == Ran(true) ==> h.rows[i].state == RolledBack && h.live.file == h.running == h.rows[i].snapshot && h.count == old(h.count)
    ensures r == Ran(false) && h.count.AllJournaled(old(h.count)) ==> h.rows[i].state == RollingBack || (h.rows == old(h.rows) && h.live == old(h.live) && h.running == old(h.running))
    ensures h.count.Follows(old(h.count))
    ensures h.count == old(h.count) ==> r == Ran(old(h.live.file) == old(h.rows)[i].candidate != Absent)
  {
    var readable :- h.Check();
    if !readable {
      return Ran(false);
    }
    var inspected :- h.Check();
    if !inspected || h.live.file == Absent || h.live.file != h.rows[i].candidate {
      return Ran(false);
    }
    var verified :- h.Verify();
    if !verified {
      return Ran(false);
    }
    r := TakeBack(h, i);
  }

  /** What runs has been verified before the entry leaves its committed state. */
  method TakeBack(h: System, i: nat) returns (r: Ending)
    requires h.Valid() && i < |h.rows| && h.rows[i].state == Committed && h.rows[i].component == SingBox && UndoAllowed(h.Now(), i)
    requires h.verified
    modifies h
    ensures h.Valid() && OnlyRow(old(h.rows), h.rows, i) && h.ready == old(h.ready)
    ensures MayHoldSnapshot(old(h.live), h.live, h.rows[i])
    ensures r == Ran(true) ==> h.rows[i].state == RolledBack && h.live.file == h.running == h.rows[i].snapshot
    ensures r == Ran(false) && h.count.AllJournaled(old(h.count)) ==> h.rows[i].state == RollingBack
    ensures h.count.Follows(old(h.count)) && (h.count == old(h.count) <==> r == Ran(true))
  {
    var rolling :- h.Transition(i, Committed, RollingBack, OperatorRequested);
    if !rolling {
      return Ran(false);
    }
    var restored :- Restore(h, i);
    if !restored {
      return Ran(false);
    }
    r := h.Transition(i, RollingBack, RolledBack, OperatorRequested);
  }
}
