/** The operation journal: entries, their state machine, and the orders in which it is read. */
module Journal {
  import opened Wrappers

  datatype State = Prepared | Validated | Applying | Verifying | Committed | RollingBack | RolledBack | Failed

  predicate CanTransition(from: State, to: State) {
    match from
    case Prepared => to in {Validated, RollingBack, Failed}
    case Validated => to in {Applying, RollingBack, Failed}
    case Applying => to in {Verifying, RollingBack, Failed}
    case Verifying => to in {Committed, RollingBack, Failed}
    case Committed => to == RollingBack
    case RollingBack => to in {RolledBack, Failed}
    case RolledBack => false
    case Failed => false
  }

  function Rank(s: State): nat {
    match s
    case Prepared => 6
    case Validated => 5
    case Applying => 4
    case Verifying => 3
    case Committed => 2
    case RollingBack => 1
    case RolledBack => 0
    case Failed => 0
  }

  /** A legal life of an entry loses rank at every step, so it makes at most six transitions. */
  lemma {:induction false} AtMostSixTransitions(path: seq<State>)
    requires path != [] && forall i | 0 < i < |path| :: CanTransition(path[i - 1], path[i])
    ensures |path| - 1 <= Rank(path[0]) - Rank(path[|path| - 1]) <= 6
    decreases |path|
  {
    if |path| > 1 {
      assert forall i | 0 < i < |path[1..]| :: CanTransition(path[1..][i - 1], path[1..][i]);
      AtMostSixTransitions(path[1..]);
      assert CanTransition(path[0], path[1]);
    }
  }

  /** The parts of the host that have an executor of their own. */
  datatype Component = SingBox | Nat

  /** The owned configuration of a component: a file, or a firewall table. */
  datatype Config = Absent | Content(text: nat)

  datatype Detail =
    | NoDetail | CandidateWriteFailed | NativeValidationFailed | JournalTransitionFailed
    | ConfigInstallFailed | RestartFailed | ApplyFailed | VerificationFailed
    | InterruptedBeforeApply | InterruptedOperation | RollbackFailed | SnapshotAuthenticationFailed | OperatorRequested

  datatype Op = Op(component: Component, state: State, snapshot: Config, candidate: Config, created: nat, updated: nat, detail: Detail)

  predicate Unfinished(o: Op) {
    o.state != Committed && o.state != RolledBack && o.state != Failed
  }

  /** Not yet committed and not yet being undone. */
  predicate InProgress(o: Op) {
    o.state == Prepared || o.state == Validated || o.state == Applying || o.state == Verifying
  }

  /** The undo itself failed, or the snapshot to undo with could not be opened. */
  predicate Dirty(o: Op) {
    o.state == Failed && (o.detail == RollbackFailed || o.detail == SnapshotAuthenticationFailed)
  }

  predicate Idle(rows: seq<Op>) {
    forall i | 0 <= i < |rows| :: !Unfinished(rows[i])
  }

  predicate Clean(rows: seq<Op>) {
    forall i | 0 <= i < |rows| :: !Dirty(rows[i])
  }

  // ---------------------------------------------------------------- the newest committed entry

  /** Later update first, then later creation, then later row. */
  predicate Newer(rows: seq<Op>, i: nat, j: nat)
    requires i < |rows| && j < |rows|
  {
    rows[i].updated > rows[j].updated
    || (rows[i].updated == rows[j].updated
        && (rows[i].created > rows[j].created || (rows[i].created == rows[j].created && i >= j)))
  }

  /** The first committed entry in the order the journal lists them. */
  ghost predicate Heads(rows: seq<Op>, i: nat) {
    i < |rows| && rows[i].state == Committed && forall j | 0 <= j < |rows| && rows[j].state == Committed :: Newer(rows, i, j)
  }

  /** Reading the newest committed entry. */
  method NewestCommitted(rows: seq<Op>) returns (r: Option<nat>)
    ensures r.Some? ==> Heads(rows, r.value)
    ensures r.None? <==> forall j | 0 <= j < |rows| :: rows[j].state != Committed
  {
    r := None;
    for i := 0 to |rows|
      invariant r.Some? ==> r.value < i && rows[r.value].state == Committed
      invariant r.Some? ==> forall j | 0 <= j < i && rows[j].state == Committed :: Newer(rows, r.value, j)
      invariant r.None? ==> forall j | 0 <= j < i :: rows[j].state != Committed
    {
      if rows[i].state == Committed && (r.None? || Newer(rows, i, r.value)) {
        r := Some(i);
      }
    }
  }

  predicate ByUpdate(rows: seq<Op>, r: seq<nat>) {
    && (forall k | 0 <= k < |r| :: r[k] < |rows|)
    && (forall k, l | 0 <= k < l < |r| :: r[k] != r[l] && rows[r[k]].updated <= rows[r[l]].updated)
  }

  /** At most `limit` unfinished entries, each once, in the order of their last update, and none left out that is older. */
  ghost predicate OldestUnfinished(rows: seq<Op>, limit: nat, r: seq<nat>) {
    && ByUpdate(rows, r) && |r| <= limit && (forall k | 0 <= k < |r| :: Unfinished(rows[r[k]]))
    && (forall i | 0 <= i < |rows| && Unfinished(rows[i]) && i !in r :: |r| == limit && forall k | 0 <= k < |r| :: rows[r[k]].updated <= rows[i].updated)
  }

  /** The place of an entry: after all that were updated no later. */
  method InsertByUpdate(rows: seq<Op>, s: seq<nat>, n: nat) returns (r: seq<nat>)
    requires ByUpdate(rows, s) && n < |rows| && n !in s
    ensures ByUpdate(rows, r) && forall i :: i in r <==> i in s || i == n
  {
    var k := |s|;
    while k > 0 && rows[n].updated < rows[s[k - 1]].updated
      invariant 0 <= k <= |s| && forall l | k <= l < |s| :: rows[n].updated < rows[s[l]].updated
    {
      k := k - 1;
    }
    r := s[..k] + [n] + s[k..];
    InsertedInOrder(rows, s, n, k);
    InsertedMembers(s, n, k);
  }

  lemma InsertedMembers(s: seq<nat>, n: nat, k: nat)
    requires k <= |s|
    ensures forall i :: i in s[..k] + [n] + s[k..] <==> i in s || i == n
  {
    assert s == s[..k] + s[k..];
  }

  lemma InsertedInOrder(rows: seq<Op>, s: seq<nat>, n: nat, k: nat)
    requires ByUpdate(rows, s) && n < |rows| && n !in s && k <= |s|
    requires k > 0 ==> rows[s[k - 1]].updated <= rows[n].updated
    requires forall l | k <= l < |s| :: rows[n].updated < rows[s[l]].updated
    ensures ByUpdate(rows, s[..k] + [n] + s[k..])
  {
    var r := s[..k] + [n] + s[k..];
    assert r[k] == n;
    assert forall l | 0 <= l < k :: r[l] == s[l] && rows[s[l]].updated <= rows[n].updated;
    assert forall l | k < l < |r| :: r[l] == s[l - 1];
  }

  /** Cutting the ordered list of all unfinished entries off leaves the oldest ones. */
  lemma CutOff(rows: seq<Op>, s: seq<nat>, limit: nat)
    requires ByUpdate(rows, s) && limit < |s| && forall j :: j in s <==> 0 <= j < |rows| && Unfinished(rows[j])
    ensures OldestUnfinished(rows, limit, s[..limit])
  {
    var r := s[..limit];
    assert forall k | 0 <= k < |s| :: s[k] in s;
    assert forall k | 0 <= k < limit :: s[k] in r;
    forall i | 0 <= i < |rows| && Unfinished(rows[i]) && i !in r ensures forall k | 0 <= k < |r| :: rows[r[k]].updated <= rows[i].updated {
      var l :| 0 <= l < |s| && s[l] == i;
    }
  }

  /** The entries still unfinished, as positions in the journal: the query orders them and cuts the list off. */
  method UnfinishedOperations(rows: seq<Op>, limit: nat) returns (r: seq<nat>)
    ensures OldestUnfinished(rows, limit, r)
    ensures limit > 0 ==> (r == [] <==> Idle(rows))
  {
    r := [];
    for i := 0 to |rows|
      invariant ByUpdate(rows, r) && forall j :: j in r <==> 0 <= j < i && Unfinished(rows[j])
    {
      if Unfinished(rows[i]) {
        r := InsertByUpdate(rows, r, i);
      }
    }
    assert forall k | 0 <= k < |r| :: r[k] in r;
    assert Idle(rows) <==> r == [] by {
      if r != [] {
        assert Unfinished(rows[r[0]]);
      }
    }
    if |r| > limit {
      CutOff(rows, r, limit);
      r := r[..limit];
    }
  }

  // ---------------------------------------------------------------- the committed entries as an undo stack

  datatype Entry = Entry(component: Component, candidate: Config)

  function Stack(rows: seq<Op>): seq<Entry> {
    if rows == [] then []
    else
      var r := rows[|rows| - 1];
      Stack(rows[..|rows| - 1]) + if r.state == Committed then [Entry(r.component, r.candidate)] else []
  }

  /** The last committed entry in journal order. */
  predicate LastCommitted(rows: seq<Op>, i: nat) {
    i < |rows| && rows[i].state == Committed && forall j | i < j < |rows| :: rows[j].state != Committed
  }

  lemma {:induction false} StackDrops(rows: seq<Op>, i: nat, to: Op)
    requires LastCommitted(rows, i) && to.state != Committed
    ensures Stack(rows) != [] && Stack(rows[i := to]) == Stack(rows)[..|Stack(rows)| - 1]
    decreases |rows|
  {
    var n := |rows| - 1;
    if i < n {
      assert rows[..n][i := to] == rows[i := to][..n];
      StackDrops(rows[..n], i, to);
    } else {
      assert rows[i := to][..n] == rows[..n];
    }
  }

  lemma {:induction false} NothingCommittedNoStack(rows: seq<Op>)
    requires forall i | 0 <= i < |rows| :: rows[i].state != Committed
    ensures Stack(rows) == []
    decreases |rows|
  {
    if rows != [] {
      NothingCommittedNoStack(rows[..|rows| - 1]);
    }
  }

  lemma {:induction false} StackSame(rows: seq<Op>, other: seq<Op>)
    requires |rows| == |other|
    requires forall i | 0 <= i < |rows| ::
      (rows[i].state == Committed <==> other[i].state == Committed) && rows[i].component == other[i].component && rows[i].candidate == other[i].candidate
    ensures Stack(rows) == Stack(other)
    decreases |rows|
  {
    if rows != [] {
      StackSame(rows[..|rows| - 1], other[..|other| - 1]);
    }
  }

  // ---------------------------------------------------------------- live configuration

  datatype Live = Live(file: Config, table: Config)

  function At(l: Live, c: Component): Config {
    match c
    case SingBox => l.file
    case Nat => l.table
  }

  function Put(l: Live, c: Component, v: Config): Live {
    match c
    case SingBox => l.(file := v)
    case Nat => l.(table := v)
  }

  /** The configuration that a stack of committed entries leaves. */
  function Replay(start: Live, stack: seq<Entry>): Live {
    if stack == [] then start
    else
      var e := stack[|stack| - 1];
      Put(Replay(start, stack[..|stack| - 1]), e.component, e.candidate)
  }

  /**
   * What a component's journal says its configuration is: the candidate of its newest committed entry, or the
   * starting one. An entry whose undo failed makes it unknown until something is committed again.
   */
  function Settled(start: Live, rows: seq<Op>, c: Component): Option<Config> {
    if rows == [] then Some(At(start, c))
    else
      var r := rows[|rows| - 1];
      if r.component == c && r.state == Committed then Some(r.candidate)
      else if r.component == c && Dirty(r) then None
      else Settled(start, rows[..|rows| - 1], c)
  }

  lemma {:induction false} SettledIsReplay(start: Live, rows: seq<Op>, c: Component)
    requires Clean(rows)
    ensures Settled(start, rows, c) == Some(At(Replay(start, Stack(rows)), c))
    decreases |rows|
  {
    if rows != [] {
      var n := |rows| - 1;
      SettledIsReplay(start, rows[..n], c);
      if rows[n].state == Committed {
        var e := Entry(rows[n].component, rows[n].candidate);
        assert (Stack(rows[..n]) + [e])[..|Stack(rows[..n])|] == Stack(rows[..n]);
      } else {
        assert Stack(rows) == Stack(rows[..n]) + [] == Stack(rows[..n]);
      }
    }
  }

  /** Entries that say nothing about a component. */
  predicate Silent(r: Op, c: Component) {
    r.component != c || (r.state != Committed && !Dirty(r))
  }

  /** Past an entry, a component with nothing newly committed is as before it, or unknown. */
  lemma {:induction false} SettledBeyond(start: Live, rows: seq<Op>, i: nat, c: Component)
    requires i <= |rows| && forall j | i <= j < |rows| :: rows[j].component == c ==> rows[j].state != Committed
    ensures Settled(start, rows, c) == None || Settled(start, rows, c) == Settled(start, rows[..i], c)
    ensures (exists j | i <= j < |rows| :: rows[j].component == c && Dirty(rows[j])) ==> Settled(start, rows, c) == None
    decreases |rows|
  {
    var n := |rows| - 1;
    if i == |rows| {
      assert rows[..i] == rows;
    } else {
      assert rows[..n][..i] == rows[..i];
      SettledBeyond(start, rows[..n], i, c);
    }
  }

  lemma {:induction false} SettledSame(start: Live, rows: seq<Op>, other: seq<Op>, c: Component)
    requires |rows| == |other|
    requires forall i | 0 <= i < |rows| :: rows[i] == other[i] || (Silent(rows[i], c) && Silent(other[i], c))
    ensures Settled(start, rows, c) == Settled(start, other, c)
    decreases |rows|
  {
    if rows != [] {
      SettledSame(start, rows[..|rows| - 1], other[..|other| - 1], c);
    }
  }
}
