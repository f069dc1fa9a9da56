/**
  A job queue in one table: claims take row locks, recheck the row, and commit.

  A row's index is its queue position.  A claim scans a snapshot of the queued positions,
  which other transactions may have outdated by the time a row is inspected.
 */
module JobQueue {
  import opened Options
  import opened Sets

  type Tid = nat

  /** Hidden: inserted by a transaction that has not committed. */
  datatype Status = Hidden | Queued | Running | Done

  /** Committed status and claimant; `lock` is the transaction that holds the row lock. */
  datatype Row = Row(status: Status, lockedBy: Option<Tid>, lock: Option<Tid>)

  datatype Strategy = SkipLocked | Blocking | NoWait

  datatype Result =
    | Claimed(position: nat) | NothingQueued | LockUnavailable
    | Completed | Enqueued | Missing | RolledBack

  datatype Pc =
    | Scanning(strategy: Strategy, cursor: nat)   // next row of the snapshot to inspect
    | Holding(position: nat)                      // row locked and set to RUNNING, not committed
    | Completing(position: nat)                   // about to set the row to DONE
    | MarkedDone(position: nat)                   // row locked and set to DONE, not committed
    | Inserting(position: nat)                    // row inserted, not committed
    | Finished(result: Result)

  datatype Txn = Txn(snapshot: seq<nat>, pc: Pc)

  datatype State = State(rows: seq<Row>, txns: map<Tid, Txn>)

  datatype Action =
    | Enqueue(t: Tid)
    | Claim(t: Tid, strategy: Strategy)
    | Inspect(t: Tid)
    | Complete(t: Tid, position: nat)
    | Update(t: Tid)
    | Commit(t: Tid)
    | Abort(t: Tid)

  // ---------------------------------------------------------------- steps

  /** Positions below `n` whose committed status is QUEUED, ascending. */
  function QueuedBelow(rows: seq<Row>, n: nat): (q: seq<nat>)
    requires n <= |rows|
    ensures forall i :: 0 <= i < |q| ==> q[i] < n && rows[q[i]].status.Queued?
    ensures forall p :: 0 <= p < n && rows[p].status.Queued? ==> p in q
    ensures forall i, j :: 0 <= i < j < |q| ==> q[i] < q[j]
  {
    if n == 0 then []
    else QueuedBelow(rows, n - 1) + if rows[n - 1].status.Queued? then [n - 1] else []
  }

  function QueuedPositions(rows: seq<Row>): seq<nat> {
    QueuedBelow(rows, |rows|)
  }

  function Goto(s: State, t: Tid, pc: Pc): State
    requires t in s.txns
  {
    s.(txns := s.txns[t := s.txns[t].(pc := pc)])
  }

  function SetRow(s: State, p: nat, row: Row): State
    requires p < |s.rows|
  {
    s.(rows := s.rows[p := row])
  }

  /** Ends `t`: its row locks go. */
  function Release(rows: seq<Row>, t: Tid): (r: seq<Row>)
    ensures |r| == |rows|
    ensures forall p :: 0 <= p < |rows| ==>
      r[p] == if rows[p].lock == Some(t) then rows[p].(lock := None) else rows[p]
  {
    seq(|rows|, p requires 0 <= p < |rows| =>
      if rows[p].lock == Some(t) then rows[p].(lock := None) else rows[p])
  }

  function Finish(s: State, t: Tid, result: Result): State
    requires t in s.txns
  {
    Goto(s, t, Finished(result)).(rows := Release(s.rows, t))
  }

  predicate LockedByOther(row: Row, t: Tid) {
    row.lock.Some? && row.lock.value != t
  }

  function InspectStep(s: State, t: Tid): State
    requires t in s.txns
  {
    var x := s.txns[t];
    if !x.pc.Scanning? then s
    else if x.pc.cursor >= |x.snapshot| then Finish(s, t, NothingQueued)
    else
      var p := x.snapshot[x.pc.cursor];
      if p >= |s.rows| then s
      else if LockedByOther(s.rows[p], t) then
        match x.pc.strategy
        case SkipLocked => Goto(s, t, Scanning(SkipLocked, x.pc.cursor + 1))
        case Blocking => s
        case NoWait => Finish(s, t, LockUnavailable)
      else
        // The row may have changed since the snapshot: recheck it under the lock.
        Goto(SetRow(s, p, s.rows[p].(lock := Some(t))), t,
             if s.rows[p].status.Queued? then Holding(p) else Scanning(x.pc.strategy, x.pc.cursor + 1))
  }

  function CompleteStep(s: State, t: Tid, p: nat): State {
    if t in s.txns then s
    else
      var pc :=
        if p >= |s.rows| || s.rows[p].status.Hidden? then Finished(Missing)
        else if s.rows[p].status.Done? then Finished(Completed)
        else Completing(p);
      s.(txns := s.txns[t := Txn([], pc)])
  }

  function UpdateStep(s: State, t: Tid): State
    requires t in s.txns
  {
    var pc := s.txns[t].pc;
    if !pc.Completing? || pc.position >= |s.rows| || LockedByOther(s.rows[pc.position], t) then s
    else Goto(SetRow(s, pc.position, s.rows[pc.position].(lock := Some(t))), t, MarkedDone(pc.position))
  }

  function CommitStep(s: State, t: Tid): State
    requires t in s.txns
  {
    match s.txns[t].pc
    case Holding(p) =>
      if p >= |s.rows| then s
      else Finish(SetRow(s, p, s.rows[p].(status := Running, lockedBy := Some(t))), t, Claimed(p))
    case MarkedDone(p) =>
      if p >= |s.rows| then s else Finish(SetRow(s, p, s.rows[p].(status := Done)), t, Completed)
    case Inserting(p) =>
      if p >= |s.rows| then s else Finish(SetRow(s, p, s.rows[p].(status := Queued)), t, Enqueued)
    case _ => s
  }

  function Step(s: State, a: Action): State {
    match a
    case Enqueue(t) =>
      if t in s.txns then s
      else State(s.rows + [Row(Hidden, None, Some(t))], s.txns[t := Txn([], Inserting(|s.rows|))])
    case Claim(t, strategy) =>
      if t in s.txns then s
      else s.(txns := s.txns[t := Txn(QueuedPositions(s.rows), Scanning(strategy, 0))])
    case Complete(t, p) => CompleteStep(s, t, p)
    case Inspect(t) => if t in s.txns then InspectStep(s, t) else s
    case Update(t) => if t in s.txns then UpdateStep(s, t) else s
    case Commit(t) => if t in s.txns then CommitStep(s, t) else s
    case Abort(t) => if t in s.txns && !s.txns[t].pc.Finished? then Finish(s, t, RolledBack) else s
  }

  function Run(s: State, run: seq<Action>): State {
    if run == [] then s
    else Step(Run(s, run[..|run| - 1]), run[|run| - 1])
  }

  const EMPTY := State([], map[])

  // ---------------------------------------------------------------- no double claim

  function Rank(status: Status): nat {
    match status
    case Hidden => 0
    case Queued => 1
    case Running => 2
    case Done => 3
  }

  predicate TxnOk(s: State, t: Tid)
    requires t in s.txns
  {
    var x := s.txns[t];
    (forall i :: 0 <= i < |x.snapshot| ==> x.snapshot[i] < |s.rows| && !s.rows[x.snapshot[i]].status.Hidden?) &&
    match x.pc
    case Holding(p) => p < |s.rows| && s.rows[p].lock == Some(t) && s.rows[p].status.Queued?
    case MarkedDone(p) => p < |s.rows| && s.rows[p].lock == Some(t) && !s.rows[p].status.Hidden?
    case Completing(p) => p < |s.rows| && !s.rows[p].status.Hidden?
    case Inserting(p) => p < |s.rows| && s.rows[p] == Row(Hidden, None, Some(t))
    case Finished(result) =>
      result.Claimed? ==>
        result.position < |s.rows| && Rank(s.rows[result.position].status) >= 2 &&
        s.rows[result.position].lockedBy == Some(t)
    case _ => true
  }

  predicate Inv(s: State) {
    forall t :: t in s.txns ==> TxnOk(s, t)
  }

  /** What a step of `t` may do to a row: nothing to a row that another transaction has locked. */
  predicate RowMoves(before: Row, after: Row, t: Tid) {
    before == after ||
    (!LockedByOther(before, t) && !LockedByOther(after, t) && Rank(before.status) <= Rank(after.status) &&
     (Rank(before.status) >= 2 ==> after.lockedBy == before.lockedBy))
  }

  /** Statuses only move forward, in every step of every transaction. */
  lemma StepMovesRows(s: State, a: Action)
    requires Inv(s)
    ensures |s.rows| <= |Step(s, a).rows|
    ensures forall p :: 0 <= p < |s.rows| ==> RowMoves(s.rows[p], Step(s, a).rows[p], a.t)
  {
    if a.t in s.txns { assert TxnOk(s, a.t); }
  }

  lemma OthersStayOk(s: State, s': State, t: Tid, o: Tid)
    requires o in s.txns && TxnOk(s, o) && o != t && o in s'.txns && s'.txns[o] == s.txns[o]
    requires |s.rows| <= |s'.rows|
    requires forall p :: 0 <= p < |s.rows| ==> RowMoves(s.rows[p], s'.rows[p], t)
    ensures TxnOk(s', o)
  {
    var x := s.txns[o];
    forall i | 0 <= i < |x.snapshot| ensures !s'.rows[x.snapshot[i]].status.Hidden? {
      assert RowMoves(s.rows[x.snapshot[i]], s'.rows[x.snapshot[i]], t);
    }
  }

  lemma SnapshotStaysOk(s: State, a: Action)
    requires Inv(s) && a.t in Step(s, a).txns
    ensures var x := Step(s, a).txns[a.t];
      forall i :: 0 <= i < |x.snapshot| ==>
        x.snapshot[i] < |Step(s, a).rows| && !Step(s, a).rows[x.snapshot[i]].status.Hidden?
  {
    StepMovesRows(s, a);
    if a.t in s.txns {
      assert TxnOk(s, a.t);
      var x := s.txns[a.t];
      assert Step(s, a).txns[a.t].snapshot == x.snapshot;
      forall i | 0 <= i < |x.snapshot| ensures !Step(s, a).rows[x.snapshot[i]].status.Hidden? {
        assert RowMoves(s.rows[x.snapshot[i]], Step(s, a).rows[x.snapshot[i]], a.t);
      }
    }
  }

  lemma OwnStaysOk(s: State, a: Action)
    requires Inv(s) && a.t in Step(s, a).txns
    ensures TxnOk(Step(s, a), a.t)
  {
    SnapshotStaysOk(s, a);
    if a.t in s.txns { assert TxnOk(s, a.t); }
  }

  lemma StepKeepsInv(s: State, a: Action)
    requires Inv(s)
    ensures Inv(Step(s, a))
  {
    var s' := Step(s, a);
    StepMovesRows(s, a);
    forall t | t in s'.txns ensures TxnOk(s', t) {
      if t == a.t {
        OwnStaysOk(s, a);
      } else {
        assert TxnOk(s, t);
        OthersStayOk(s, s', a.t, t);
      }
    }
  }

  lemma {:induction false} RunKeepsInv(run: seq<Action>)
    ensures Inv(Run(EMPTY, run))
  {
    if run != [] {
      RunKeepsInv(run[..|run| - 1]);
      StepKeepsInv(Run(EMPTY, run[..|run| - 1]), run[|run| - 1]);
    }
  }

  predicate HasClaimed(s: State, t: Tid, p: nat) {
    t in s.txns && s.txns[t].pc == Finished(Claimed(p))
  }

  /** However claims, completions and rollbacks interleave, a job has at most one committed claim. */
  lemma NoDoubleClaim(run: seq<Action>, t: Tid, u: Tid, p: nat)
    requires HasClaimed(Run(EMPTY, run), t, p) && HasClaimed(Run(EMPTY, run), u, p)
    ensures t == u
  {
    RunKeepsInv(run);
    assert TxnOk(Run(EMPTY, run), t) && TxnOk(Run(EMPTY, run), u);
  }

  /** A job's committed status only moves forward, whatever comes after. */
  lemma {:induction false} StatusMovesForward(run: seq<Action>, more: seq<Action>, p: nat)
    requires p < |Run(EMPTY, run).rows|
    ensures p < |Run(EMPTY, run + more).rows|
    ensures Rank(Run(EMPTY, run).rows[p].status) <= Rank(Run(EMPTY, run + more).rows[p].status)
  {
    if more == [] {
      assert run + more == run;
    } else {
      var front, a := more[..|more| - 1], more[|more| - 1];
      StatusMovesForward(run, front, p);
      RunKeepsInv(run + front);
      StepMovesRows(Run(EMPTY, run + front), a);
      assert (run + more)[..|run + more| - 1] == run + front && (run + more)[|run + more| - 1] == a;
      assert RowMoves(Run(EMPTY, run + front).rows[p], Run(EMPTY, run + more).rows[p], a.t);
    }
  }

  // ---------------------------------------------------------------- what commits and rollbacks leave behind

  /** The next row of the snapshot that `t` inspects is `p`. */
  predicate LooksAt(s: State, t: Tid, p: nat) {
    t in s.txns && s.txns[t].pc.Scanning? && s.txns[t].pc.cursor < |s.txns[t].snapshot| &&
    s.txns[t].snapshot[s.txns[t].pc.cursor] == p && p < |s.rows|
  }

  /** What `t` does to row `p` when it commits at `pc`. */
  predicate TakesEffect(before: Row, after: Row, pc: Pc, p: nat, t: Tid) {
    (pc == Holding(p) && before.status.Queued? && after.status.Running? && after.lockedBy == Some(t)) ||
    (pc == MarkedDone(p) && after.status.Done? && after.lockedBy == before.lockedBy) ||
    (pc == Inserting(p) && before.status.Hidden? && after.status.Queued? && after.lockedBy.None?)
  }

  predicate SameJob(before: Row, after: Row) {
    after.status == before.status && after.lockedBy == before.lockedBy
  }

  /** The row that `t` has claimed, completed or inserted, and will publish when it commits. */
  predicate WillChange(s: State, t: Tid, p: nat) {
    t in s.txns && (s.txns[t].pc == Holding(p) || s.txns[t].pc == MarkedDone(p) || s.txns[t].pc == Inserting(p))
  }

  /** A job's committed status and claimant change by a commit of its holder, and by nothing else. */
  lemma OnlyCommitsChangeJobs(run: seq<Action>, a: Action, p: nat)
    requires p < |Run(EMPTY, run).rows|
    ensures var s, s' := Run(EMPTY, run), Step(Run(EMPTY, run), a);
      p < |s'.rows| &&
      if a.Commit? && WillChange(s, a.t, p) then TakesEffect(s.rows[p], s'.rows[p], s.txns[a.t].pc, p, a.t)
      else SameJob(s.rows[p], s'.rows[p])
  {
    RunKeepsInv(run);
    StepChangesJob(Run(EMPTY, run), a, p);
  }

  /** A rollback leaves every job as it was committed, frees the rows of the transaction, and no others. */
  lemma RollbacksLeaveNoTrace(run: seq<Action>, t: Tid)
    requires t in Run(EMPTY, run).txns && !Run(EMPTY, run).txns[t].pc.Finished?
    ensures var s, s' := Run(EMPTY, run), Step(Run(EMPTY, run), Abort(t));
      s'.txns == s.txns[t := s.txns[t].(pc := Finished(RolledBack))] && |s'.rows| == |s.rows| &&
      forall p :: 0 <= p < |s.rows| ==>
        SameJob(s.rows[p], s'.rows[p]) && s'.rows[p].lock != Some(t) &&
        (s.rows[p].lock != Some(t) ==> s'.rows[p].lock == s.rows[p].lock)
  {
  }

  /** What one claim gives up by rolling back, whoever looks at it next takes. */
  lemma RollbacksHandOver(run: seq<Action>, t: Tid, u: Tid, p: nat)
    requires var s := Run(EMPTY, run);
      t != u && t in s.txns && s.txns[t].pc == Holding(p) && LooksAt(s, u, p)
    ensures var s := Step(Step(Run(EMPTY, run), Abort(t)), Inspect(u));
      u in s.txns && s.txns[u].pc == Holding(p) && s.rows[p].lock == Some(u)
  {
    RunKeepsInv(run);
    assert TxnOk(Run(EMPTY, run), t);
  }

  /** Row locks are held by transactions that have not ended. */
  predicate LocksOk(s: State) {
    forall p :: 0 <= p < |s.rows| && s.rows[p].lock.Some? ==>
      s.rows[p].lock.value in s.txns && !s.txns[s.rows[p].lock.value].pc.Finished?
  }

  /** A running job was claimed by its claimant. */
  predicate ClaimsOk(s: State) {
    forall p :: 0 <= p < |s.rows| && s.rows[p].status.Running? ==>
      s.rows[p].lockedBy.Some? && HasClaimed(s, s.rows[p].lockedBy.value, p)
  }

  lemma StepKeepsLocks(s: State, a: Action)
    requires Inv(s) && LocksOk(s)
    ensures LocksOk(Step(s, a))
  {
    StepMovesRows(s, a);
    OthersKeepTheirPlace(s, a);
    if a.t in s.txns { assert TxnOk(s, a.t); }
  }

  lemma OthersKeepTheirPlace(s: State, a: Action)
    ensures forall u :: u in s.txns ==> u in Step(s, a).txns && (u != a.t ==> Step(s, a).txns[u] == s.txns[u])
    ensures forall u :: u in s.txns && s.txns[u].pc.Finished? ==> Step(s, a).txns[u].pc == s.txns[u].pc
  {
  }

  lemma StepKeepsClaims(s: State, a: Action)
    requires Inv(s) && ClaimsOk(s)
    ensures ClaimsOk(Step(s, a))
  {
    OthersKeepTheirPlace(s, a);
    var s' := Step(s, a);
    forall p | 0 <= p < |s'.rows| && s'.rows[p].status.Running?
      ensures s'.rows[p].lockedBy.Some? && HasClaimed(s', s'.rows[p].lockedBy.value, p)
    {
      if p < |s.rows| { StepChangesJob(s, a, p); }
    }
  }

  lemma StepChangesJob(s: State, a: Action, p: nat)
    requires Inv(s) && p < |s.rows|
    ensures var s' := Step(s, a);
      p < |s'.rows| &&
      if a.Commit? && WillChange(s, a.t, p) then
        TakesEffect(s.rows[p], s'.rows[p], s.txns[a.t].pc, p, a.t) &&
        (s.txns[a.t].pc == Holding(p) ==> HasClaimed(s', a.t, p))
      else SameJob(s.rows[p], s'.rows[p])
  {
    if a.t in s.txns { assert TxnOk(s, a.t); }
  }

  lemma {:induction false} RunKeepsClaims(run: seq<Action>)
    ensures LocksOk(Run(EMPTY, run)) && ClaimsOk(Run(EMPTY, run))
  {
    if run != [] {
      var front := run[..|run| - 1];
      RunKeepsClaims(front);
      RunKeepsInv(front);
      StepKeepsLocks(Run(EMPTY, front), run[|run| - 1]);
      StepKeepsClaims(Run(EMPTY, front), run[|run| - 1]);
    }
  }

  /** A job is running for exactly the one transaction whose claim of it has committed. */
  lemma RunningJobsAreClaimed(run: seq<Action>, p: nat, t: Tid)
    requires p < |Run(EMPTY, run).rows| && Run(EMPTY, run).rows[p].status.Running?
    ensures var s := Run(EMPTY, run); HasClaimed(s, t, p) <==> s.rows[p].lockedBy == Some(t)
  {
    RunKeepsInv(run);
    RunKeepsClaims(run);
    if HasClaimed(Run(EMPTY, run), t, p) { assert TxnOk(Run(EMPTY, run), t); }
  }

  // ---------------------------------------------------------------- the order of claims

  /** Why an inspection passes over `p`: locked rows are skipped, or the job is not QUEUED any more. */
  predicate ExcusedAt(s: State, t: Tid, p: nat) {
    LooksAt(s, t, p) &&
    if LockedByOther(s.rows[p], t) then s.txns[t].pc.strategy.SkipLocked? else !s.rows[p].status.Queued?
  }

  predicate FreeAt(s: State, t: Tid, p: nat) {
    LooksAt(s, t, p) && !LockedByOther(s.rows[p], t) && s.rows[p].status.Queued?
  }

  /** `t` has inspected row `p` and passed over it for a reason. */
  ghost predicate Excused(run: seq<Action>, t: Tid, p: nat) {
    exists k :: 0 <= k < |run| && run[k] == Inspect(t) && ExcusedAt(Run(EMPTY, run[..k]), t, p)
  }

  /** `t` has inspected row `p` and found it unlocked and QUEUED. */
  ghost predicate FoundFree(run: seq<Action>, t: Tid, p: nat) {
    exists k :: 0 <= k < |run| && run[k] == Inspect(t) && FreeAt(Run(EMPTY, run[..k]), t, p)
  }

  /** The snapshot that `t` scans is the queue as it was when `t` began. */
  ghost predicate SnapshotIsTrue(run: seq<Action>, t: Tid, snapshot: seq<nat>) {
    exists k :: 0 <= k < |run| && run[k].Claim? && run[k].t == t &&
      t !in Run(EMPTY, run[..k]).txns && snapshot == QueuedPositions(Run(EMPTY, run[..k]).rows)
  }

  ghost predicate PassedOver(run: seq<Action>, t: Tid, snapshot: seq<nat>, n: nat) {
    forall i :: 0 <= i < n && i < |snapshot| ==> Excused(run, t, snapshot[i])
  }

  /** How far into its snapshot a claim has got. */
  ghost predicate ScanOk(run: seq<Action>, t: Tid) {
    var s := Run(EMPTY, run);
    t in s.txns ==>
      var x := s.txns[t];
      match x.pc
      case Scanning(_, cursor) =>
        SnapshotIsTrue(run, t, x.snapshot) && cursor <= |x.snapshot| && PassedOver(run, t, x.snapshot, cursor)
      case Holding(p) => Takes(run, t, x.snapshot, p)
      case Finished(result) =>
        (result.Claimed? ==> Takes(run, t, x.snapshot, result.position)) &&
        (result.NothingQueued? ==>
          SnapshotIsTrue(run, t, x.snapshot) && PassedOver(run, t, x.snapshot, |x.snapshot|))
      case _ => true
  }

  /** `p` was queued when `t` began and free when inspected, and every job before it was passed over for a reason. */
  ghost predicate Takes(run: seq<Action>, t: Tid, snapshot: seq<nat>, p: nat) {
    SnapshotIsTrue(run, t, snapshot) && FoundFree(run, t, p) &&
    exists n :: 0 <= n < |snapshot| && snapshot[n] == p && PassedOver(run, t, snapshot, n)
  }

  lemma EvidenceStays(run: seq<Action>, a: Action, t: Tid)
    ensures forall p :: Excused(run, t, p) ==> Excused(run + [a], t, p)
    ensures forall p :: FoundFree(run, t, p) ==> FoundFree(run + [a], t, p)
    ensures forall q :: SnapshotIsTrue(run, t, q) ==> SnapshotIsTrue(run + [a], t, q)
  {
    assert forall k :: 0 <= k < |run| ==> (run + [a])[..k] == run[..k] && (run + [a])[k] == run[k];
    forall p | Excused(run, t, p) ensures Excused(run + [a], t, p) {
      var k :| 0 <= k < |run| && run[k] == Inspect(t) && ExcusedAt(Run(EMPTY, run[..k]), t, p);
      assert (run + [a])[k] == Inspect(t) && ExcusedAt(Run(EMPTY, (run + [a])[..k]), t, p);
    }
    forall p | FoundFree(run, t, p) ensures FoundFree(run + [a], t, p) {
      var k :| 0 <= k < |run| && run[k] == Inspect(t) && FreeAt(Run(EMPTY, run[..k]), t, p);
      assert (run + [a])[k] == Inspect(t) && FreeAt(Run(EMPTY, (run + [a])[..k]), t, p);
    }
    forall q | SnapshotIsTrue(run, t, q) ensures SnapshotIsTrue(run + [a], t, q) {
      var k :| 0 <= k < |run| && run[k].Claim? && run[k].t == t &&
        t !in Run(EMPTY, run[..k]).txns && q == QueuedPositions(Run(EMPTY, run[..k]).rows);
      assert (run + [a])[k] == run[k];
    }
  }

  lemma PassedOverStays(run: seq<Action>, a: Action, t: Tid, snapshot: seq<nat>, n: nat)
    requires PassedOver(run, t, snapshot, n)
    ensures PassedOver(run + [a], t, snapshot, n)
  {
    EvidenceStays(run, a, t);
  }

  lemma TakesStays(run: seq<Action>, a: Action, t: Tid, snapshot: seq<nat>, p: nat)
    requires Takes(run, t, snapshot, p)
    ensures Takes(run + [a], t, snapshot, p)
  {
    EvidenceStays(run, a, t);
    var n :| 0 <= n < |snapshot| && snapshot[n] == p && PassedOver(run, t, snapshot, n);
    PassedOverStays(run, a, t, snapshot, n);
  }

  /** An inspection takes the row it looks at, ends the claim, waits, or passes over an excused row. */
  lemma InspectionMoves(s: State, t: Tid)
    requires Inv(s) && t in s.txns && s.txns[t].pc.Scanning? && s.txns[t].pc.cursor <= |s.txns[t].snapshot|
    ensures var x, t' := s.txns[t], Step(s, Inspect(t)).txns;
      t in t' && t'[t].snapshot == x.snapshot &&
      if x.pc.cursor == |x.snapshot| then t'[t].pc == Finished(NothingQueued)
      else
        t'[t].pc in {x.pc, Finished(LockUnavailable)} ||
        (t'[t].pc == Holding(x.snapshot[x.pc.cursor]) && FreeAt(s, t, x.snapshot[x.pc.cursor])) ||
        (t'[t].pc == Scanning(x.pc.strategy, x.pc.cursor + 1) && ExcusedAt(s, t, x.snapshot[x.pc.cursor]))
  {
    assert TxnOk(s, t);
  }

  lemma InspectionIsHonest(run: seq<Action>, t: Tid)
    requires var s := Run(EMPTY, run); t in s.txns && s.txns[t].pc.Scanning? && ScanOk(run, t) && Inv(s)
    ensures ScanOk(run + [Inspect(t)], t)
  {
    var s, a := Run(EMPTY, run), Inspect(t);
    var x := s.txns[t];
    assert (run + [a])[..|run|] == run && (run + [a])[|run|] == a;
    InspectionMoves(s, t);
    EvidenceStays(run, a, t);
    PassedOverStays(run, a, t, x.snapshot, x.pc.cursor);
    if x.pc.cursor < |x.snapshot| {
      var p := x.snapshot[x.pc.cursor];
      if FreeAt(s, t, p) { FreeRowIsTaken(run, t, x.snapshot, x.pc.cursor); }
      if ExcusedAt(s, t, p) { OneMoreIsPassedOver(run, t, x.snapshot, x.pc.cursor); }
    }
  }

  lemma FreeRowIsTaken(run: seq<Action>, t: Tid, snapshot: seq<nat>, n: nat)
    requires n < |snapshot| && FreeAt(Run(EMPTY, run), t, snapshot[n])
    requires SnapshotIsTrue(run + [Inspect(t)], t, snapshot) && PassedOver(run + [Inspect(t)], t, snapshot, n)
    ensures Takes(run + [Inspect(t)], t, snapshot, snapshot[n])
  {
    var a := Inspect(t);
    assert (run + [a])[..|run|] == run && (run + [a])[|run|] == a;
    assert FreeAt(Run(EMPTY, (run + [a])[..|run|]), t, snapshot[n]);
  }

  lemma OneMoreIsPassedOver(run: seq<Action>, t: Tid, snapshot: seq<nat>, n: nat)
    requires n < |snapshot| && PassedOver(run + [Inspect(t)], t, snapshot, n)
    requires ExcusedAt(Run(EMPTY, run), t, snapshot[n])
    ensures PassedOver(run + [Inspect(t)], t, snapshot, n + 1)
  {
    var a := Inspect(t);
    assert (run + [a])[..|run|] == run && (run + [a])[|run|] == a;
    assert ExcusedAt(Run(EMPTY, (run + [a])[..|run|]), t, snapshot[n]);
  }

  lemma {:induction false} ScansAreHonest(run: seq<Action>, t: Tid)
    ensures ScanOk(run, t)
  {
    if run != [] {
      var front, a := run[..|run| - 1], run[|run| - 1];
      assert run == front + [a];
      var s := Run(EMPTY, front);
      ScansAreHonest(front, t);
      RunKeepsInv(front);
      if t in s.txns && s.txns[t].pc.Scanning? && a == Inspect(t) {
        InspectionIsHonest(front, t);
      } else {
        OtherStepsKeepScan(front, a, t);
      }
    }
  }

  /** What a step other than its own inspection can do to a transaction's frame. */
  lemma FrameMoves(s: State, a: Action, t: Tid)
    requires !(t in s.txns && s.txns[t].pc.Scanning? && a == Inspect(t)) && t in Step(s, a).txns
    ensures var x' := Step(s, a).txns[t];
      if t !in s.txns then
        (a.Claim? && a.t == t && x' == Txn(QueuedPositions(s.rows), Scanning(a.strategy, 0))) || Unclaimed(x'.pc)
      else
        var x := s.txns[t];
        x' == x ||
        (x'.snapshot == x.snapshot &&
         (Unclaimed(x'.pc) || (x.pc.Holding? && x'.pc == Finished(Claimed(x.pc.position)))))
  {
  }

  predicate Unclaimed(pc: Pc) {
    !pc.Scanning? && !pc.Holding? && (pc.Finished? ==> !pc.result.Claimed? && !pc.result.NothingQueued?)
  }

  lemma OtherStepsKeepScan(run: seq<Action>, a: Action, t: Tid)
    requires ScanOk(run, t)
    requires var s := Run(EMPTY, run); !(t in s.txns && s.txns[t].pc.Scanning? && a == Inspect(t))
    ensures ScanOk(run + [a], t)
  {
    var s := Run(EMPTY, run);
    assert (run + [a])[..|run|] == run && (run + [a])[|run|] == a;
    EvidenceStays(run, a, t);
    if t in Step(s, a).txns { FrameMoves(s, a, t); }
    if t in s.txns {
      var x := s.txns[t];
      match x.pc
      case Scanning(_, cursor) => PassedOverStays(run, a, t, x.snapshot, cursor);
      case Holding(p) => TakesStays(run, a, t, x.snapshot, p);
      case Finished(result) =>
        if result.Claimed? { TakesStays(run, a, t, x.snapshot, result.position); }
        if result.NothingQueued? { PassedOverStays(run, a, t, x.snapshot, |x.snapshot|); }
      case _ =>
    } else if a.Claim? && a.t == t {
      assert SnapshotIsTrue(run + [a], t, QueuedPositions(s.rows));
    }
  }

  /**
    A claim takes the first job of its snapshot that it found unlocked and QUEUED: every job before
    was inspected and, then, locked by another transaction under SKIP LOCKED or no longer QUEUED.
   */
  lemma ClaimsTakeTheFirstFree(run: seq<Action>, t: Tid, p: nat)
    requires HasClaimed(Run(EMPTY, run), t, p)
    ensures var snapshot := Run(EMPTY, run).txns[t].snapshot;
      SnapshotIsTrue(run, t, snapshot) && p in snapshot && FoundFree(run, t, p) &&
      forall earlier :: earlier in snapshot && earlier < p ==> Excused(run, t, earlier)
  {
    ScansAreHonest(run, t);
    var snapshot := Run(EMPTY, run).txns[t].snapshot;
    forall earlier | earlier in snapshot && earlier < p ensures Excused(run, t, earlier) {
      FirstFree(run, t, snapshot, p, earlier);
    }
  }

  lemma FirstFree(run: seq<Action>, t: Tid, q: seq<nat>, p: nat, earlier: nat)
    requires Takes(run, t, q, p) && earlier < p && earlier in q
    ensures Excused(run, t, earlier)
  {
    var n :| 0 <= n < |q| && q[n] == p && PassedOver(run, t, q, n);
    var i :| 0 <= i < |q| && q[i] == earlier;
    var k :| 0 <= k < |run| && q == QueuedPositions(Run(EMPTY, run[..k]).rows);
    assert i < n;
  }

  // ---------------------------------------------------------------- the order of blocking and nowait claims

  /** Step `k` of the run begins the claim `t`. */
  predicate BeginsClaim(run: seq<Action>, k: nat, t: Tid, strategy: Strategy)
    requires k < |run|
  {
    run[k] == Claim(t, strategy) && t !in Run(EMPTY, run[..k]).txns
  }

  lemma FramesStay(s: State, a: Action, t: Tid)
    requires t in s.txns
    ensures t in Step(s, a).txns
    ensures Step(s, a).txns[t].pc.Scanning? ==>
      s.txns[t].pc.Scanning? && Step(s, a).txns[t].pc.strategy == s.txns[t].pc.strategy
  {
  }

  lemma OneMoreStep(run: seq<Action>, m: nat)
    requires m < |run|
    ensures Run(EMPTY, run[..m + 1]) == Step(Run(EMPTY, run[..m]), run[m])
  {
    assert run[..m + 1][..m] == run[..m];
  }

  /** A transaction is not there before it begins. */
  lemma {:induction false} NotThereYet(run: seq<Action>, t: Tid, m: nat, k: nat)
    requires m <= k <= |run| && t !in Run(EMPTY, run[..k]).txns
    ensures t !in Run(EMPTY, run[..m]).txns
    decreases k - m
  {
    if m < k {
      NotThereYet(run, t, m + 1, k);
      OneMoreStep(run, m);
      if t in Run(EMPTY, run[..m]).txns { FramesStay(Run(EMPTY, run[..m]), run[m], t); }
    }
  }

  predicate Uses(s: State, t: Tid, strategy: Strategy) {
    t in s.txns && (s.txns[t].pc.Scanning? ==> s.txns[t].pc.strategy == strategy)
  }

  lemma StartUses(s: State, t: Tid, strategy: Strategy)
    requires t !in s.txns
    ensures Uses(Step(s, Claim(t, strategy)), t, strategy)
  {
  }

  /** A claim keeps its strategy. */
  lemma {:induction false} StrategyStays(run: seq<Action>, k: nat, t: Tid, strategy: Strategy, m: nat)
    requires k < m <= |run| && BeginsClaim(run, k, t, strategy)
    ensures Uses(Run(EMPTY, run[..m]), t, strategy)
  {
    OneMoreStep(run, m - 1);
    if m > k + 1 {
      StrategyStays(run, k, t, strategy, m - 1);
      FramesStay(Run(EMPTY, run[..m - 1]), run[m - 1], t);
    } else {
      StartUses(Run(EMPTY, run[..k]), t, strategy);
    }
  }

  lemma StatusAfter(run: seq<Action>, i: nat, j: nat, p: nat)
    requires i <= j <= |run| && p < |Run(EMPTY, run[..i]).rows|
    ensures p < |Run(EMPTY, run[..j]).rows|
    ensures Rank(Run(EMPTY, run[..i]).rows[p].status) <= Rank(Run(EMPTY, run[..j]).rows[p].status)
  {
    StatusMovesForward(run[..i], run[i..j], p);
    assert run[..i] + run[i..j] == run[..j];
  }

  /** A row that a blocking or nowait claim has passed over is not QUEUED any more, now and forever. */
  lemma PassedOverIsGone(run: seq<Action>, k: nat, t: Tid, strategy: Strategy, p: nat)
    requires k < |run| && BeginsClaim(run, k, t, strategy) && !strategy.SkipLocked?
    requires Excused(run, t, p) && p in QueuedPositions(Run(EMPTY, run[..k]).rows)
    ensures p < |Run(EMPTY, run).rows| && Rank(Run(EMPTY, run).rows[p].status) >= 2
  {
    var m :| 0 <= m < |run| && run[m] == Inspect(t) && ExcusedAt(Run(EMPTY, run[..m]), t, p);
    if m <= k { NotThereYet(run, t, m, k); }
    StrategyStays(run, k, t, strategy, m);
    StatusAfter(run, k, m, p);
    StatusAfter(run, m, |run|, p);
    assert run[..|run|] == run;
  }

  /**
    Blocking and nowait claims are first in, first out: when one has taken a job, no job that was
    queued before it when the claim began is still QUEUED.
   */
  lemma BlockingClaimsAreInOrder(run: seq<Action>, k: nat, t: Tid, strategy: Strategy, p: nat, earlier: nat)
    requires k < |run| && BeginsClaim(run, k, t, strategy) && !strategy.SkipLocked?
    requires HasClaimed(Run(EMPTY, run), t, p)
    requires earlier < p && earlier in QueuedPositions(Run(EMPTY, run[..k]).rows)
    ensures earlier < |Run(EMPTY, run).rows| && Rank(Run(EMPTY, run).rows[earlier].status) >= 2
  {
    ClaimsTakeTheFirstFree(run, t, p);
    SnapshotIsFromTheBegin(run, k, t, strategy);
    PassedOverIsGone(run, k, t, strategy, earlier);
  }

  lemma SnapshotIsFromTheBegin(run: seq<Action>, k: nat, t: Tid, strategy: Strategy)
    requires k < |run| && BeginsClaim(run, k, t, strategy) && t in Run(EMPTY, run).txns
    requires SnapshotIsTrue(run, t, Run(EMPTY, run).txns[t].snapshot)
    ensures Run(EMPTY, run).txns[t].snapshot == QueuedPositions(Run(EMPTY, run[..k]).rows)
  {
    var snapshot := Run(EMPTY, run).txns[t].snapshot;
    var m :| 0 <= m < |run| && run[m].Claim? && run[m].t == t &&
      t !in Run(EMPTY, run[..m]).txns && snapshot == QueuedPositions(Run(EMPTY, run[..m]).rows);
    assert m == k by {
      BeginsOnce(run, k, m, t);
      BeginsOnce(run, m, k, t);
    }
  }

  /** A claim that is not there at step `m` has not begun before. */
  lemma BeginsOnce(run: seq<Action>, k: nat, m: nat, t: Tid)
    requires k < |run| && m < |run| && run[k].Claim? && run[k].t == t
    requires t !in Run(EMPTY, run[..m]).txns
    ensures m <= k
  {
    if k < m {
      NotThereYet(run, t, k + 1, m);
      OneMoreStep(run, k);
    }
  }

  // ---------------------------------------------------------------- K open skip-locked claims

  predicate OnlySkipLocked(run: seq<Action>) {
    forall i :: 0 <= i < |run| ==> run[i].Inspect? || (run[i].Claim? && run[i].strategy.SkipLocked?)
  }

  predicate Locked(s: State, p: nat) {
    p < |s.rows| && s.rows[p].lock.Some?
  }

  predicate OpenClaim(s: State, q: seq<nat>, t: Tid)
    requires t in s.txns
  {
    var x := s.txns[t];
    x.snapshot == q &&
    match x.pc
    case Scanning(strategy, cursor) =>
      strategy.SkipLocked? && cursor <= |q| &&
      forall j :: 0 <= j < cursor ==> q[j] < |s.rows| && LockedByOther(s.rows[q[j]], t)
    case Holding(p) =>
      p in q && p < |s.rows| && s.rows[p].lock == Some(t) && forall j :: 0 <= j < |q| && q[j] < p ==> Locked(s, q[j])
    case Finished(result) =>
      result.NothingQueued? && forall j :: 0 <= j < |q| ==> q[j] < |s.rows| && LockedByOther(s.rows[q[j]], t)
    case _ => false
  }

  /** Whoever has locked a row holds it. */
  predicate LockersHold(s: State) {
    forall p :: 0 <= p < |s.rows| && s.rows[p].lock.Some? ==>
      s.rows[p].lock.value in s.txns && s.txns[s.rows[p].lock.value].pc == Holding(p)
  }

  /** Nobody has committed: only locks have changed since `s0`, and each is an open claim's. */
  predicate OpenClaims(s0: State, s: State, q: seq<nat>) {
    |s.rows| == |s0.rows| &&
    (forall p :: 0 <= p < |s.rows| ==> s.rows[p].status == s0.rows[p].status) &&
    LockersHold(s) &&
    (forall t :: t in s.txns ==> OpenClaim(s, q, t))
  }

  predicate Fresh(s: State) {
    s.txns == map[] && forall p :: 0 <= p < |s.rows| ==> s.rows[p].lock.None?
  }

  predicate Ascending(q: seq<nat>) {
    forall i, j :: 0 <= i < j < |q| ==> q[i] < q[j]
  }

  lemma {:induction false} SameQueue(a: seq<Row>, b: seq<Row>, n: nat)
    requires n <= |a| == |b| && forall p :: 0 <= p < n ==> a[p].status == b[p].status
    ensures QueuedBelow(a, n) == QueuedBelow(b, n)
  {
    if n > 0 { SameQueue(a, b, n - 1); }
  }

  predicate AllQueued(s: State, q: seq<nat>) {
    forall j :: 0 <= j < |q| ==> q[j] < |s.rows| && s.rows[q[j]].status.Queued?
  }

  lemma OpenClaimStays(s: State, s': State, q: seq<nat>, t: Tid)
    requires t in s.txns && t in s'.txns && s.txns[t] == s'.txns[t] && OpenClaim(s, q, t)
    requires |s'.rows| == |s.rows|
    requires forall p :: 0 <= p < |s.rows| ==> s.rows[p].lock.None? || s.rows[p].lock == s'.rows[p].lock
    ensures OpenClaim(s', q, t)
  {
  }

  lemma InspectKeepsOpenClaims(s0: State, s: State, q: seq<nat>, t: Tid)
    requires OpenClaims(s0, s, q) && t in s.txns && AllQueued(s, q) && Ascending(q)
    ensures OpenClaims(s0, InspectStep(s, t), q)
  {
    var s' := InspectStep(s, t);
    assert OpenClaim(s, q, t);
    assert Release(s.rows, t) == s.rows || s.txns[t].pc.Holding?;
    forall o | o in s'.txns ensures OpenClaim(s', q, o) {
      if o == t { InspectKeepsOwn(s, q, t); } else { OpenClaimStays(s, s', q, o); }
    }
  }

  lemma InspectKeepsOwn(s: State, q: seq<nat>, t: Tid)
    requires t in s.txns && OpenClaim(s, q, t) && AllQueued(s, q) && Ascending(q)
    ensures OpenClaim(InspectStep(s, t), q, t)
  {
    var x, s' := s.txns[t], InspectStep(s, t);
    if x.pc.Scanning? && x.pc.cursor < |q| && s'.txns[t].pc.Holding? {
      forall j | 0 <= j < |q| && q[j] < q[x.pc.cursor] ensures Locked(s', q[j]) {
        assert j < x.pc.cursor;
      }
    }
  }

  lemma StepKeepsOpenClaims(s0: State, s: State, q: seq<nat>, a: Action)
    requires OpenClaims(s0, s, q) && AllQueued(s, q) && Ascending(q) && q == QueuedPositions(s.rows)
    requires a.Inspect? || (a.Claim? && a.strategy.SkipLocked?)
    ensures OpenClaims(s0, Step(s, a), q)
  {
    if a.Inspect? {
      if a.t in s.txns { InspectKeepsOpenClaims(s0, s, q, a.t); }
    } else {
      forall t | t in Step(s, a).txns ensures OpenClaim(Step(s, a), q, t) {
        if t in s.txns { OpenClaimStays(s, Step(s, a), q, t); }
      }
    }
  }

  lemma {:induction false} RunKeepsOpenClaims(s0: State, run: seq<Action>)
    requires Fresh(s0) && OnlySkipLocked(run)
    ensures OpenClaims(s0, Run(s0, run), QueuedPositions(s0.rows))
  {
    if run != [] {
      var s := Run(s0, run[..|run| - 1]);
      RunKeepsOpenClaims(s0, run[..|run| - 1]);
      SameQueue(s.rows, s0.rows, |s.rows|);
      StepKeepsOpenClaims(s0, s, QueuedPositions(s0.rows), run[|run| - 1]);
    }
  }

  /** The claims that hold one of the first `n` queued rows. */
  function Owners(s: State, q: seq<nat>, n: nat): (o: set<Tid>)
    requires n <= |q|
    ensures forall j :: 0 <= j < n && Locked(s, q[j]) ==> s.rows[q[j]].lock.value in o
  {
    if n == 0 then {}
    else Owners(s, q, n - 1) + if Locked(s, q[n - 1]) then {s.rows[q[n - 1]].lock.value} else {}
  }

  lemma {:induction false} OwnersHold(s: State, q: seq<nat>, n: nat)
    requires LockersHold(s) && n <= |q|
    ensures Owners(s, q, n) <= s.txns.Keys
    ensures forall o :: o in Owners(s, q, n) ==> s.txns[o].pc.Holding? && s.txns[o].pc.position in q[..n]
  {
    if n > 0 {
      OwnersHold(s, q, n - 1);
      assert q[..n] == q[..n - 1] + [q[n - 1]];
    }
  }

  /** The owner of the next row is not among the owners of the rows before it. */
  lemma NextOwnerIsNew(s: State, q: seq<nat>, n: nat)
    requires LockersHold(s) && Ascending(q) && n < |q| && Locked(s, q[n])
    ensures s.rows[q[n]].lock.value !in Owners(s, q, n)
  {
    OwnersHold(s, q, n);
    assert q[n] !in q[..n];
    assert s.txns[s.rows[q[n]].lock.value].pc == Holding(q[n]);
  }

  lemma {:induction false} OwnersAreDistinct(s: State, q: seq<nat>, n: nat)
    requires LockersHold(s) && Ascending(q) && n <= |q|
    ensures |Owners(s, q, n)| <= n
    ensures (forall j :: 0 <= j < n ==> Locked(s, q[j])) ==> |Owners(s, q, n)| == n
  {
    if n > 0 {
      OwnersAreDistinct(s, q, n - 1);
      if Locked(s, q[n - 1]) { NextOwnerIsNew(s, q, n - 1); }
    }
  }

  lemma NoneGoesEmpty(s0: State, s: State, q: seq<nat>, t: Tid)
    requires OpenClaims(s0, s, q) && Ascending(q) && t in s.txns && s.txns[t].pc.Finished?
    ensures |s.txns| > |q|
  {
    assert OpenClaim(s, q, t);
    OwnersAreDistinct(s, q, |q|);
    OwnersHold(s, q, |q|);
    SubsetSize(Owners(s, q, |q|) + {t}, s.txns.Keys);
  }

  /** The row that an open claim holds, as an index into the queue. */
  lemma HeldIndex(s: State, q: seq<nat>, t: Tid) returns (i: nat)
    requires t in s.txns && OpenClaim(s, q, t) && s.txns[t].pc.Holding? && Ascending(q)
    ensures i < |q| && s.txns[t].pc == Holding(q[i]) && s.rows[q[i]].lock == Some(t)
    ensures forall j :: 0 <= j <= i ==> Locked(s, q[j])
  {
    i :| 0 <= i < |q| && q[i] == s.txns[t].pc.position;
  }

  lemma LowestAreLocked(s0: State, s: State, q: seq<nat>, j: nat)
    requires OpenClaims(s0, s, q) && Ascending(q) && j < |s.txns| && j < |q|
    requires forall t :: t in s.txns ==> s.txns[t].pc.Holding?
    ensures Locked(s, q[j])
  {
    if !Locked(s, q[j]) {
      forall t | t in s.txns ensures t in Owners(s, q, j) {
        var i := HeldIndex(s, q, t);
        assert i < j;
      }
      OwnersAreDistinct(s, q, j);
      OwnersHold(s, q, j);
      SubsetSize(s.txns.Keys, Owners(s, q, j));
    }
  }

  lemma NoneReachesFurther(s0: State, s: State, q: seq<nat>, t: Tid) returns (i: nat)
    requires OpenClaims(s0, s, q) && Ascending(q) && t in s.txns && s.txns[t].pc.Holding?
    ensures i < |s.txns| && i < |q| && s.txns[t].pc == Holding(q[i])
  {
    i := HeldIndex(s, q, t);
    OwnersAreDistinct(s, q, i + 1);
    OwnersHold(s, q, i + 1);
    SubsetSize(Owners(s, q, i + 1), s.txns.Keys);
  }

  /** The claims of `s` hold exactly the rows `low`, one each. */
  ghost predicate Partition(s: State, low: seq<nat>) {
    (forall t :: t in s.txns ==> s.txns[t].pc.Holding? && s.txns[t].pc.position in low) &&
    (forall t, u :: t in s.txns && u in s.txns && t != u ==> s.txns[t].pc != s.txns[u].pc) &&
    (forall p :: p in low ==> exists t :: t in s.txns && s.txns[t].pc == Holding(p))
  }

  /**
    K skip-locked claims, interleaved in any way over at least K free queued rows and all
    held open, take exactly the K lowest rows, one each; none of them waits or goes away empty.
   */
  lemma OpenClaimsTakeTheLowest(s0: State, run: seq<Action>)
    requires Fresh(s0) && OnlySkipLocked(run)
    requires |Run(s0, run).txns| <= |QueuedPositions(s0.rows)|
    requires forall t :: t in Run(s0, run).txns ==> !Run(s0, run).txns[t].pc.Scanning?
    ensures Partition(Run(s0, run), QueuedPositions(s0.rows)[..|Run(s0, run).txns|])
  {
    RunKeepsOpenClaims(s0, run);
    FinishedClaimsPartition(s0, Run(s0, run), QueuedPositions(s0.rows));
  }

  lemma FinishedClaimsPartition(s0: State, s: State, q: seq<nat>)
    requires OpenClaims(s0, s, q) && Ascending(q) && |s.txns| <= |q|
    requires forall t :: t in s.txns ==> !s.txns[t].pc.Scanning?
    ensures Partition(s, q[..|s.txns|])
  {
    var low := q[..|s.txns|];
    forall t | t in s.txns ensures s.txns[t].pc.Holding? {
      assert OpenClaim(s, q, t);
      if s.txns[t].pc.Finished? { NoneGoesEmpty(s0, s, q, t); }
    }
    forall t | t in s.txns ensures s.txns[t].pc.position in low {
      var i := NoneReachesFurther(s0, s, q, t);
      assert low[i] == q[i];
    }
    forall p | p in low ensures exists t :: t in s.txns && s.txns[t].pc == Holding(p) {
      var j :| 0 <= j < |low| && low[j] == p;
      LowestAreLocked(s0, s, q, j);
      assert s.txns[s.rows[p].lock.value].pc == Holding(p);
    }
    forall t, u | t in s.txns && u in s.txns && t != u ensures s.txns[t].pc != s.txns[u].pc {
      assert OpenClaim(s, q, t) && OpenClaim(s, q, u);
    }
  }
}
