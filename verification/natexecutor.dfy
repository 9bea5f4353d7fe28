/** Applying, recovering and rolling back the owned nftables NAT table. */
module NatExecutor {
  import opened Wrappers
  import opened Journal
  import opened Protocol
  import opened Host
  import SB = SingBoxExecutor

  /** Replace the table by its snapshot in one transaction that was tried before, unless both are absent. */
  method RestoreSnapshot(h: System, i: nat) returns (r: Ending)
    requires h.Valid() && i < |h.rows| && h.rows[i].state == RollingBack && h.rows[i].component == Nat
    modifies h`live, h`run, h`count, h`accepted, h`verified
    ensures h.Valid() && SB.MayHoldSnapshot(old(h.live), h.live, h.rows[i])
    ensures r == Ran(true) ==> h.live.table == h.rows[i].snapshot
    ensures h.count.Follows(old(h.count)) && (h.count == old(h.count) <==> r == Ran(true))
    ensures h.count.AllJournaled(old(h.count))
  {
    var snapshot := h.rows[i].snapshot;
    var readable :- h.Check();
    if !readable {
      return Ran(false);
    }
    var inspected :- h.Check();
    if !inspected {
      return Ran(false);
    }
    if snapshot == Absent && h.live.table == Absent {
      return Ran(true);
    }
    var valid :- h.DryRun(snapshot);
    if !valid {
      return Ran(false);
    }
    r := h.WriteConfig(i, snapshot);
  }

  /** Put the snapshot back and close the entry, either as rolled back or as failed. */
  method FinishRollback(h: System, i: nat, detail: Detail) returns (r: Ending)
    requires h.Valid() && i < |h.rows| && h.rows[i].state == RollingBack && h.rows[i].component == Nat
    modifies h
    ensures h.Valid() && SB.OnlyRow(old(h.rows), h.rows, i) && h.ready == old(h.ready) && h.running == old(h.running) && h.Holds(i)
    ensures SB.MayHoldSnapshot(old(h.live), h.live, h.rows[i])
    ensures r == Ran(true) ==> h.rows[i].state == RolledBack
    ensures r.Ran? && h.count.AllJournaled(old(h.count)) ==> h.rows[i].state == if r.ok then RolledBack else Failed
    ensures h.count.Follows(old(h.count)) && (h.count == old(h.count) <==> r == Ran(true))
  {
    var restored :- RestoreSnapshot(h, i);
    if !restored {
      var noted :- h.Transition(i, RollingBack, Failed, RollbackFailed);
      return Ran(false);
    }
    r := h.Transition(i, RollingBack, RolledBack, detail);
  }

  /** An entry that is not in the expected state is left alone. */
  method Rollback(h: System, i: nat, from: State, detail: Detail) returns (r: Ending)
    requires h.Valid() && i < |h.rows| && h.rows[i].component == Nat && (from == Applying || from == Verifying) && h.rows[i].state != RolledBack
    modifies h
    ensures h.Valid() && SB.OnlyRow(old(h.rows), h.rows, i) && h.ready == old(h.ready) && h.running == old(h.running)
    ensures h.rows[i].state == RolledBack || old(h.Holds(i)) ==> h.Holds(i)
    ensures SB.MayHoldSnapshot(old(h.live), h.live, h.rows[i])
    ensures old(h.rows)[i].state != from ==> h.rows == old(h.rows) && h.live == old(h.live) && r != Ran(true)
    ensures r == Ran(true) ==> h.rows[i].state == RolledBack && h.count == old(h.count)
    ensures old(h.rows)[i].state == from && r.Ran? && h.count.AllJournaled(old(h.count)) ==> h.rows[i].state == if r.ok then RolledBack else Failed
    ensures h.count.Follows(old(h.count))
    ensures h.count == old(h.count) && old(h.rows)[i].state == from ==> r == Ran(true)
  {
    var rolling :- h.Transition(i, from, RollingBack, detail);
    if !rolling {
      return Ran(false);
    }
    r := FinishRollback(h, i, detail);
  }

  /** Undo after a failed step; the caller reports the error in any case. */
  method FailWithRollback(h: System, i: nat, from: State, detail: Detail) returns (r: Ending)
    requires h.Valid() && i < |h.rows| && h.rows[i].component == Nat && (from == Applying || from == Verifying) && h.Holds(i) && h.rows[i].state != RolledBack
    modifies h
    ensures h.Valid() && SB.OnlyRow(old(h.rows), h.rows, i) && h.ready == old(h.ready) && h.running == old(h.running) && h.Holds(i)
    ensures SB.MayHoldSnapshot(old(h.live), h.live, h.rows[i])
    ensures r != Ran(true)
    ensures old(h.rows)[i].state != from ==> h.rows == old(h.rows) && h.live == old(h.live)
    ensures old(h.rows)[i].state == from && r.Ran? && h.count.AllJournaled(old(h.count)) ==> h.rows[i].state == RolledBack || h.rows[i].state == Failed
    ensures h.count.Follows(old(h.count))
    ensures h.count == old(h.count) && old(h.rows)[i].state == from ==> h.rows[i].state == RolledBack
  {
    var noted :- Rollback(h, i, from, detail);
    return Ran(false);
  }

  /** Two journal steps before anything on the host is touched. */
  method MarkApplying(h: System, n: nat) returns (r: Ending)
    requires h.Valid() && n < |h.rows| && h.rows[n].state == Prepared && h.rows[n].component == Nat
    modifies h`rows, h`clock, h`run, h`count
    ensures h.Valid() && SB.OnlyRow(old(h.rows), h.rows, n) && !Dirty(h.rows[n])
    ensures r == Ran(true) ==> h.rows[n].state == Applying
    ensures h.count.OneSlip(old(h.count)) && r.Ran? ==> h.rows[n].state == Prepared || h.rows[n].state == Failed
    ensures h.count.OneMisreport(old(h.count)) && r.Ran? ==> h.rows[n].state == Validated || h.rows[n].state == Applying
    ensures h.count.Follows(old(h.count)) && (h.count == old(h.count) <==> r == Ran(true))
    ensures h.count.AllJournaled(old(h.count)) && r.Ran? ==> r == Ran(true)
  {
    var validated :- h.Transition(n, Prepared, Validated, NoDetail);
    if !validated {
      return Ran(false);
    }
    var applying :- h.Transition(n, Validated, Applying, NoDetail);
    if !applying {
      var noted :- h.Transition(n, Validated, Failed, JournalTransitionFailed);
      return Ran(false);
    }
    return Ran(true);
  }

  /** The tool tries the candidate. */
  method Validate(h: System, n: nat) returns (r: Ending)
    requires h.Valid() && n < |h.rows| && h.rows[n].state == Prepared && h.rows[n].component == Nat
    modifies h`rows, h`clock, h`run, h`count, h`accepted
    ensures h.Valid() && SB.OnlyRow(old(h.rows), h.rows, n) && !Dirty(h.rows[n])
    ensures r == Ran(true) ==> h.rows[n].state == Applying && h.accepted == Some(h.rows[n].candidate)
    ensures r == Ran(false) && h.count.AllJournaled(old(h.count)) ==> h.rows[n].state == Failed
    ensures r == Ran(false) && h.count.OneSlip(old(h.count)) ==> h.rows[n].state == Prepared || h.rows[n].state == Failed
    ensures r == Ran(false) && h.count.OneMisreport(old(h.count)) ==> h.rows[n].state == Validated || h.rows[n].state == Applying
    ensures h.count.Follows(old(h.count)) && (h.count == old(h.count) <==> r == Ran(true))
  {
    var valid :- h.DryRun(h.rows[n].candidate);
    if !valid {
      var noted :- h.Transition(n, Prepared, Failed, NativeValidationFailed);
      return Ran(false);
    }
    r := MarkApplying(h, n);
  }

  /** The entry is created if the plan was made for what is there. */
  method Open(h: System, tableExisted: bool, candidate: Config) returns (r: Ending)
    requires h.Valid() && h.ready && Idle(h.rows) && candidate != Absent
    modifies h`rows, h`clock, h`run, h`count
    ensures h.Valid()
    ensures h.rows == old(h.rows) || (SB.Appended(old(h.rows), h.rows, Nat) && Fresh(SB.Last(h.rows), Nat, At(h.live, Nat), candidate))
    ensures !((h.live.table != Absent) == tableExisted) ==> h.rows == old(h.rows) && r != Ran(true)
    ensures r == Ran(true) ==> h.rows != old(h.rows)
    ensures r == Ran(false) ==> (h.rows != old(h.rows) <==> h.count.misreported != old(h.count).misreported)
    ensures r == Ran(false) && h.rows != old(h.rows) ==> h.count.OneMisreport(old(h.count)) && !h.count.AllJournaled(old(h.count))
    ensures h.count.Follows(old(h.count))
    ensures h.count == old(h.count) ==> r == Ran((old(h.live.table) != Absent) == tableExisted)
    ensures r == Ran(true) ==> h.count == old(h.count)
  {
    var inspected :- h.Check();
    if !inspected || (h.live.table != Absent) != tableExisted {
      return Ran(false);
    }
    var sealed :- h.Check();
    if !sealed {
      return Ran(false);
    }
    r := h.CreateOperation(Nat, candidate);
  }

  /** Up to the moment the entry is marked as being applied; only the presence of the table is compared with the plan. */
  method Prepare(h: System, tableExisted: bool, candidate: Config) returns (r: Ending)
    requires h.Valid() && h.ready && Idle(h.rows) && candidate != Absent
    modifies h`rows, h`clock, h`run, h`count, h`accepted
    ensures h.Valid()
    ensures h.rows == old(h.rows) || (SB.Appended(old(h.rows), h.rows, Nat) && !Dirty(SB.Last(h.rows)))
    ensures (h.live.table != Absent) != tableExisted ==> h.rows == old(h.rows) && r != Ran(true)
    ensures r == Ran(true) ==> SB.Appended(old(h.rows), h.rows, Nat) && h.accepted == Some(candidate)
    ensures r == Ran(true) ==> SB.Last(h.rows).state == Applying && SB.Last(h.rows).candidate == candidate && SB.Last(h.rows).snapshot == h.live.table
    ensures r == Ran(false) && h.count.AllJournaled(old(h.count)) ==> h.rows == old(h.rows) || SB.Last(h.rows).state == Failed
    ensures r == Ran(false) && h.count.OneSlip(old(h.count)) ==> h.rows == old(h.rows) || SB.Last(h.rows).state == Prepared || SB.Last(h.rows).state == Failed
    ensures r == Ran(false) && h.count.OneMisreport(old(h.count)) ==> h.rows != old(h.rows) && SB.Last(h.rows).state in {Prepared, Validated, Applying}
    ensures h.count.Follows(old(h.count))
    ensures h.count == old(h.count) ==> r == Ran((old(h.live.table) != Absent) == tableExisted)
    ensures r == Ran(true) ==> h.count == old(h.count)
  {
    var n := |h.rows|;
    var begun :- Open(h, tableExisted, candidate);
    if !begun {
      return Ran(false);
    }
    r := Validate(h, n);
  }

  /** Install, verify and commit the entry, undoing on any failure; with the same outcomes as for the file. */
  method Install(h: System, n: nat) returns (r: Ending)
    requires h.Valid() && n < |h.rows| && h.rows[n].state == Applying && h.rows[n].component == Nat
    requires h.accepted == Some(h.rows[n].candidate)
    modifies h
    ensures h.Valid() && SB.OnlyRow(old(h.rows), h.rows, n) && h.ready == old(h.ready) && h.running == old(h.running) && h.Holds(n)
    ensures h.live.file == old(h.live.file)
    ensures r == Ran(true) ==> h.rows[n].state == Committed && h.verified
    ensures r == Ran(false) && h.count.AllJournaled(old(h.count)) ==> h.rows[n].state == RolledBack || h.rows[n].state == Failed
    ensures r == Ran(false) && h.count.OneSlip(old(h.count)) ==> h.rows[n].state == RolledBack
    ensures r == Ran(false) && h.count.OneMisreport(old(h.count)) ==> h.rows[n].state == Verifying || h.rows[n].state == Committed
    ensures h.count.Follows(old(h.count)) && (h.count == old(h.count) <==> r == Ran(true))
  {
    var installed :- h.WriteConfig(n, h.rows[n].candidate);
    if !installed {
      r := FailWithRollback(h, n, Applying, ApplyFailed);
      return;
    }
    r := Confirm(h, n);
  }

  /** The candidate is installed; verify it and commit the entry. */
  method Confirm(h: System, n: nat) returns (r: Ending)
    requires h.Valid() && n < |h.rows| && h.rows[n].state == Applying && h.rows[n].component == Nat
    requires h.live.table == h.rows[n].candidate
    modifies h
    ensures h.Valid() && SB.OnlyRow(old(h.rows), h.rows, n) && h.ready == old(h.ready) && h.running == old(h.running) && h.Holds(n)
    ensures SB.MayHoldSnapshot(old(h.live), h.live, h.rows[n])
    ensures r == Ran(true) ==> h.rows[n].state == Committed && h.verified
    ensures r == Ran(false) && h.count.AllJournaled(old(h.count)) ==> h.rows[n].state == RolledBack || h.rows[n].state == Failed
    ensures r == Ran(false) && h.count.OneSlip(old(h.count)) ==> h.rows[n].state == RolledBack
    ensures r == Ran(false) && h.count.OneMisreport(old(h.count)) ==> h.rows[n].state == Verifying || h.rows[n].state == Committed
    ensures h.count.Follows(old(h.count)) && (h.count == old(h.count) <==> r == Ran(true))
  {
    var verifying :- h.Transition(n, Applying, Verifying, NoDetail);
    if !verifying {
      r := FailWithRollback(h, n, Applying, JournalTransitionFailed);
      return;
    }
    r := Commit(h, n);
  }

  /** The candidate is in place and so is the entry's mark; look at it and commit. */
  method Commit(h: System, n: nat) returns (r: Ending)
    requires h.Valid() && n < |h.rows| && h.rows[n].state == Verifying && h.rows[n].component == Nat && h.Holds(n)
    modifies h
    ensures h.Valid() && SB.OnlyRow(old(h.rows), h.rows, n) && h.ready == old(h.ready) && h.running == old(h.running) && h.Holds(n)
    ensures SB.MayHoldSnapshot(old(h.live), h.live, h.rows[n])
    ensures r == Ran(true) ==> h.rows[n].state == Committed && h.verified
    ensures r == Ran(false) && h.count.AllJournaled(old(h.count)) ==> h.rows[n].state == RolledBack || h.rows[n].state == Failed
    ensures r == Ran(false) && h.count.OneSlip(old(h.count)) ==> h.rows[n].state == RolledBack
    ensures r == Ran(false) && h.count.OneMisreport(old(h.count)) ==> h.rows[n].state == Committed
    ensures h.count.Follows(old(h.count)) && (h.count == old(h.count) <==> r == Ran(true))
  {
    var verified :- h.Verify();
    if !verified {
      r := FailWithRollback(h, n, Verifying, VerificationFailed);
      return;
    }
    var committed :- h.Transition(n, Verifying, Committed, NoDetail);
    if !committed {
      r := FailWithRollback(h, n, Verifying, JournalTransitionFailed);
      return;
    }
    return Ran(true);
  }

  /**
   * Apply a planned table. Unless a journal write goes wrong the journal is idle afterwards, and after one failure, other
   * than a journal write that takes effect and reports an error, the table is the one that was there before.
   */
  method Execute(h: System, tableExisted: bool, candidate: Config) returns (r: Ending)
    requires h.Valid() && h.ready && Idle(h.rows) && candidate != Absent
    modifies h
    ensures h.Valid() && h.ready && h.running == old(h.running) && h.live.file == old(h.live.file)
    ensures h.rows == old(h.rows) || SB.Appended(old(h.rows), h.rows, Nat)
    ensures (old(h.live.table) != Absent) != tableExisted ==> h.rows == old(h.rows) && h.live == old(h.live) && r != Ran(true)
    ensures r == Ran(true) ==> h.live.table == candidate && Stack(h.rows) == Stack(old(h.rows)) + [Entry(Nat, candidate)]
    ensures r == Ran(true) ==> h.verified && h.count == old(h.count)
    ensures r.Ran? && h.count.AllJournaled(old(h.count)) ==> Idle(h.rows)
    ensures r == Ran(false) && h.count.OneSlip(old(h.count)) ==> SB.Undone(old(h.rows), h.rows) && h.live == old(h.live)
    ensures r == Ran(false) && h.count.OneMisreport(old(h.count)) ==>
      SB.Appended(old(h.rows), h.rows, Nat) && SB.Last(h.rows).state in {Prepared, Validated, Applying, Verifying, Committed}
    ensures r == Ran(false) && h.count.OneMisreport(old(h.count)) && SB.Last(h.rows).state in {Prepared, Validated, Applying} ==> h.live == old(h.live)
    ensures r == Ran(false) && h.count.OneMisreport(old(h.count)) && SB.Last(h.rows).state in {Verifying, Committed} ==> h.live.table == candidate
    ensures h.count.Follows(old(h.count)) && (h.count == old(h.count) ==> r == Ran((old(h.live.table) != Absent) == tableExisted))
  {
    var n := |h.rows|;
    var prepared :- Prepare(h, tableExisted, candidate);
    if !prepared {
      SB.ClosedOrOpen(old(h.rows), h.rows);
      return Ran(false);
    }
    r := Install(h, n);
    assert h.rows[..n] == old(h.rows);
    SB.ClosedOrOpen(old(h.rows), h.rows);
  }

  method RecoverOne(h: System, i: nat) returns (r: Ending)
    requires h.Valid() && i < |h.rows| && h.rows[i].component == Nat && Unfinished(h.rows[i])
    modifies h
    ensures h.Valid() && SB.OnlyRow(old(h.rows), h.rows, i) && h.ready == old(h.ready) && h.running == old(h.running)
    ensures SB.MayHoldSnapshot(old(h.live), h.live, h.rows[i])
    ensures h.rows[i].state == RolledBack ==> h.Holds(i)
    ensures r == Ran(true) ==> SB.Closed(old(h.rows)[i], h.rows[i])
    ensures r == Ran(false) && h.count.AllJournaled(old(h.count)) ==> h.rows[i].state == Failed || (h.rows == old(h.rows) && h.live == old(h.live))
    ensures h.count.Follows(old(h.count)) && (h.count == old(h.count) <==> r == Ran(true))
  {
    var o := h.rows[i];
    var readable :- h.Check();
    if !readable {
      return Ran(false);
    }
    if o.state == Prepared || o.state == Validated {
      r := h.Transition(i, o.state, Failed, InterruptedBeforeApply);
    } else if o.state == Applying || o.state == Verifying {
      r := Rollback(h, i, o.state, InterruptedOperation);
    } else {
      r := FinishRollback(h, i, InterruptedOperation);
    }
  }

  /** Finish every interrupted entry of this component. */
  method Recover(h: System) returns (r: Ending)
    requires h.Valid()
    modifies h
    ensures h.Valid() && h.ready == old(h.ready) && h.running == old(h.running) && |h.rows| == |old(h.rows)|
    ensures forall i | 0 <= i < |h.rows| :: h.rows[i].component == old(h.rows)[i].component
    ensures forall i | 0 <= i < |h.rows| && old(h.rows)[i].component != Nat :: h.rows[i] == old(h.rows)[i]
    ensures h.live.file == old(h.live.file)
    ensures r == Ran(true) ==> SB.Recovered(old(h.rows), h.rows, Nat)
    ensures h.count.Follows(old(h.count)) && (h.count == old(h.count) <==> r == Ran(true))
  {
    var listed :- h.Check();
    if !listed {
      return Ran(false);
    }
    var operations := SB.ListUnfinished(h);
    var failed := false;
    for k := 0 to |operations|
      invariant h.count.Follows(old(h.count)) && (h.count == old(h.count) <==> !failed)
      invariant h.Valid() && h.ready == old(h.ready) && h.running == old(h.running) && h.live.file == old(h.live.file)
      invariant SB.Progress(old(h.rows), h.rows, operations, k, Nat, failed)
    {
      var i := operations[k];
      SB.ProgressNext(old(h.rows), h.rows, operations, k, Nat, failed);
      if h.rows[i].component == Nat {
        ghost var before := h.rows;
        var ok :- RecoverOne(h, i);
        SB.ProgressStep(old(h.rows), before, h.rows, operations, k, Nat, failed, ok);
        failed := failed || !ok;
      } else {
        SB.ProgressSkip(old(h.rows), h.rows, operations, k, Nat, failed);
      }
    }
    if !failed {
      SB.ProgressDone(old(h.rows), h.rows, operations, Nat);
    }
    return Ran(!failed);
  }

  method RollbackCommitted(h: System, i: nat) returns (r: Ending)
    requires h.Valid() && h.ready && Idle(h.rows) && LastCommitted(h.rows, i) && h.rows[i].component == Nat
    modifies h
    ensures h.Valid() && SB.OnlyRow(old(h.rows), h.rows, i) && h.ready && h.running == old(h.running)
    ensures SB.MayHoldSnapshot(old(h.live), h.live, h.rows[i])
    ensures old(h.live.table) != old(h.rows)[i].candidate ==> h.rows == old(h.rows) && h.live == old(h.live) && r != Ran(true)
    ensures r == Ran(true) ==> h.rows[i].state == RolledBack && h.live.table == h.rows[i].snapshot && h.count == old(h.count)
    ensures r == Ran(false) && h.count.AllJournaled(old(h.count)) ==> h.rows[i].state == RollingBack || (h.rows == old(h.rows) && h.live == old(h.live))
    ensures h.count.Follows(old(h.count))
    ensures h.count == old(h.count) ==> r == Ran(old(h.live.table) == old(h.rows)[i].candidate != Absent)
  {
    var readable :- h.Check();
    if !readable {
      return Ran(false);
    }
    var inspected :- h.Check();
    if !inspected || h.live.table == Absent || h.live.table != h.rows[i].candidate {
      return Ran(false);
    }
    var valid :- h.DryRun(h.rows[i].snapshot);
    if !valid {
      return Ran(false);
    }
    r := TakeBack(h, i);
  }

  /** What is about to be put back has been tried before the entry leaves its committed state. */
  method TakeBack(h: System, i: nat) returns (r: Ending)
    requires h.Valid() && i < |h.rows| && h.rows[i].state == Committed && h.rows[i].component == Nat && UndoAllowed(h.Now(), i)
    requires h.accepted == Some(h.rows[i].snapshot)
    modifies h
    ensures h.Valid() && SB.OnlyRow(old(h.rows), h.rows, i) && h.ready == old(h.ready) && h.running == old(h.running)
    ensures SB.MayHoldSnapshot(old(h.live), h.live, h.rows[i])
    ensures r == Ran(true) ==> h.rows[i].state == RolledBack && h.live.table == h.rows[i].snapshot
    ensures r == Ran(false) && h.count.AllJournaled(old(h.count)) ==> h.rows[i].state == RollingBack
    ensures h.count.Follows(old(h.count)) && (h.count == old(h.count) <==> r == Ran(true))
  {
    var rolling :- h.Transition(i, Committed, RollingBack, OperatorRequested);
    if !rolling {
      return Ran(false);
    }
    var restored :- RestoreSnapshot(h, i);
    if !restored {
      return Ran(false);
    }
    r := h.Transition(i, RollingBack, RolledBack, OperatorRequested);
  }
}
