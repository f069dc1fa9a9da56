/**
  Which isolation levels keep balances from going negative, and how often a call commits.
 */
module TransferSafety {
  import opened Mvcc
  import opened Options
  import opened Transfers

  predicate UsesLevels(run: seq<TAction>, levels: set<Level>) {
    forall i :: 0 <= i < |run| && run[i].Request? ==> run[i].level in levels
  }

  predicate NonNegative(rows: map<Id, Version>) {
    forall id :: id in rows ==> rows[id].value >= 0
  }

  const FIXED: set<Level> := {RepeatableRead, Serializable}

  /** Under a fixed snapshot: what was checked is in the snapshot, what was debited was covered. */
  predicate Covered(s: State, x: Transfer) {
    x.level in FIXED &&
    match x.pc
    case SawFrom(_, balance) =>
      balance.Some? ==> x.tid in s.txs && SnapshotHas(s.txs[x.tid], x.from, balance.value)
    case Checked(_) =>
      x.tid in s.txs && x.from in s.rows && SnapshotHas(s.txs[x.tid], x.from, x.amount)
    case Debited(_) => x.from in s.rows && s.rows[x.from].value >= x.amount
    case Credited(_) => x.from in s.rows && s.rows[x.from].value >= x.amount
    case _ => true
  }

  predicate SnapshotHas(tx: Tx, id: Id, atLeast: int) {
    tx.snapshot.Some? && id in tx.snapshot.value && tx.snapshot.value[id].value >= atLeast
  }

  predicate AllCovered(s: TState) {
    NonNegative(s.db.rows) && forall r :: r in s.transfers ==> Covered(s.db, s.transfers[r])
  }

  lemma OthersStayCovered(s: TState, s': TState, r: Rid, o: Rid)
    requires Inv(s) && AllCovered(s) && r in s.transfers && o in s.transfers && o != r && Open(s.transfers[r].pc)
    requires OnlyTx(s.db, s'.db, s.transfers[r].tid)
    ensures Covered(s'.db, s.transfers[o])
  {
    var x := s.transfers[o];
    assert TransferOk(s, o) && TransferOk(s, r) && Covered(s.db, x);
    if x.pc.Debited? || x.pc.Credited? {
      assert x.from in s.db.txs[x.tid].writes;
    }
    if Open(x.pc) { assert s'.db.txs[x.tid] == s.db.txs[x.tid]; }
  }

  lemma ReadKeepsCovered(s: TState, r: Rid)
    requires Inv(s) && AllCovered(s) && r in s.transfers && (s.transfers[r].pc.Opened? || s.transfers[r].pc.SawFrom?)
    ensures Covered(AdvanceStep(s, r).db, AdvanceStep(s, r).transfers[r])
  {
    var x := s.transfers[r];
    assert TransferOk(s, r) && Covered(s.db, x);
    ReadEffect(s.db, x.tid, if x.pc.Opened? then x.from else x.to);
    if x.pc.SawFrom? {
      var pc := AdvanceStep(s, r).transfers[r].pc;
      if pc.Checked? { assert SnapshotHas(AdvanceStep(s, r).db.txs[x.tid], x.from, x.pc.balance.value); }
    }
  }

  /** A row that is not outdated is worth what the snapshot says. */
  lemma SnapshotIsCurrent(s: State, t: Tid, id: Id, amount: int)
    requires t in s.txs && s.txs[t].level in FIXED && SnapshotHas(s.txs[t], id, amount)
    requires id in s.rows && id !in s.txs[t].writes && !Outdated(s, t, id)
    ensures s.rows[id].value >= amount
  {
  }

  lemma DebitKeepsCovered(s: TState, r: Rid)
    requires Inv(s) && AllCovered(s) && r in s.transfers && s.transfers[r].pc.Checked?
    ensures Covered(AdvanceStep(s, r).db, AdvanceStep(s, r).transfers[r])
  {
    var x := s.transfers[r];
    var n := x.pc.attempt;
    assert TransferOk(s, r) && Covered(s.db, x);
    AdvanceIsMove(s, r, n, x.from, 0 - x.amount, Debited(n));
    if !LockedByOther(s.db, x.tid, x.from) {
      AddEffect(s.db, x.tid, x.from, 0 - x.amount);
      if !Outdated(s.db, x.tid, x.from) { SnapshotIsCurrent(s.db, x.tid, x.from, x.amount); }
    }
  }

  lemma CreditKeepsCovered(s: TState, r: Rid)
    requires Inv(s) && AllCovered(s) && r in s.transfers && s.transfers[r].pc.Debited?
    ensures Covered(AdvanceStep(s, r).db, AdvanceStep(s, r).transfers[r])
  {
    var x := s.transfers[r];
    assert TransferOk(s, r) && Covered(s.db, x);
    AdvanceIsMove(s, r, x.pc.attempt, x.to, x.amount, Credited(x.pc.attempt));
    if !LockedByOther(s.db, x.tid, x.to) { AddEffect(s.db, x.tid, x.to, x.amount); }
  }

  lemma CommitKeepsNonNegative(s: TState, r: Rid)
    requires Inv(s) && AllCovered(s) && r in s.transfers && s.transfers[r].pc.Credited?
    ensures var db := Step(s.db, Commit(s.transfers[r].tid));
      NonNegative(db.rows) && OnlyTx(s.db, db, s.transfers[r].tid)
  {
    var x := s.transfers[r];
    assert TransferOk(s, r) && Covered(s.db, x);
    CommitEffect(s.db, x.tid);
  }

  lemma CheckIsOnlyTx(s: TState, r: Rid)
    requires Inv(s) && r in s.transfers && s.transfers[r].pc.SawFrom?
    ensures OnlyTx(s.db, CheckStep(s, r).db, s.transfers[r].tid) && CheckStep(s, r).db.rows == s.db.rows
  {
    var x := s.transfers[r];
    assert TransferOk(s, r);
    ReadEffect(s.db, x.tid, x.to);
    var db := Step(s.db, Read(x.tid, x.to));
    EndEffect(db, x.tid);
    OnlyTxTwice(s.db, db, Step(db, Abort(x.tid)), x.tid);
  }

  lemma MoveIsOnlyTx(s: TState, r: Rid, n: nat, id: Id, delta: int, to: Pc)
    requires Inv(s) && r in s.transfers && Moves(s.transfers[r], s.transfers[r].pc, n, id, delta, to)
    ensures OnlyTx(s.db, AdvanceStep(s, r).db, s.transfers[r].tid) && AdvanceStep(s, r).db.rows == s.db.rows
  {
    assert TransferOk(s, r);
    AdvanceIsMove(s, r, n, id, delta, to);
    if !LockedByOther(s.db, s.transfers[r].tid, id) { AddEffect(s.db, s.transfers[r].tid, id, delta); }
  }

  /** An open transfer's step touches only its own transaction; before the commit no row changes. */
  lemma AdvanceIsOnlyTx(s: TState, r: Rid)
    requires Inv(s) && r in s.transfers && Open(s.transfers[r].pc) && !s.transfers[r].pc.Credited?
    ensures OnlyTx(s.db, AdvanceStep(s, r).db, s.transfers[r].tid) && AdvanceStep(s, r).db.rows == s.db.rows
  {
    var x := s.transfers[r];
    assert TransferOk(s, r);
    match x.pc
    case Opened(_) => ReadEffect(s.db, x.tid, x.from);
    case SawFrom(_, _) => CheckIsOnlyTx(s, r);
    case Checked(n) => MoveIsOnlyTx(s, r, n, x.from, 0 - x.amount, Debited(n));
    case Debited(n) => MoveIsOnlyTx(s, r, n, x.to, x.amount, Credited(n));
  }

  lemma OwnStaysCovered(s: TState, r: Rid)
    requires Inv(s) && AllCovered(s) && r in s.transfers && Open(s.transfers[r].pc) && !s.transfers[r].pc.Credited?
    ensures Covered(AdvanceStep(s, r).db, AdvanceStep(s, r).transfers[r])
  {
    assert Covered(s.db, s.transfers[r]) && TransferOk(s, r);
    match s.transfers[r].pc
    case Opened(_) => ReadKeepsCovered(s, r);
    case SawFrom(_, _) => ReadKeepsCovered(s, r);
    case Checked(_) => DebitKeepsCovered(s, r);
    case Debited(_) => CreditKeepsCovered(s, r);
    case _ =>
  }

  /** A step of `r` in its own transaction: what the others have checked and debited stays covered. */
  lemma OwnStepKeepsCovered(s: TState, s': TState, r: Rid)
    requires Inv(s) && AllCovered(s) && r in s.transfers && Open(s.transfers[r].pc)
    requires OnlyTx(s.db, s'.db, s.transfers[r].tid) && NonNegative(s'.db.rows)
    requires r in s'.transfers && s'.transfers == s.transfers[r := s'.transfers[r]] && Covered(s'.db, s'.transfers[r])
    ensures AllCovered(s')
  {
    forall o | o in s'.transfers ensures Covered(s'.db, s'.transfers[o]) {
      if o != r { OthersStayCovered(s, s', r, o); }
    }
  }

  lemma BeginKeepsCovered(s: TState, r: Rid)
    requires Inv(s) && AllCovered(s) && r in s.transfers && !Open(s.transfers[r].pc)
    ensures AllCovered(AdvanceStep(s, r))
  {
    var s' := AdvanceStep(s, r);
    forall o | o in s'.transfers ensures Covered(s'.db, s'.transfers[o]) {
      assert Covered(s.db, s.transfers[o]) && TransferOk(s, o);
    }
  }

  lemma AdvanceKeepsCovered(s: TState, r: Rid)
    requires Inv(s) && AllCovered(s) && r in s.transfers
    ensures AllCovered(AdvanceStep(s, r))
  {
    if !Open(s.transfers[r].pc) {
      BeginKeepsCovered(s, r);
    } else if s.transfers[r].pc.Credited? {
      FinishCommits(s, r);
      CommitKeepsCovered(s, r, AdvanceStep(s, r).transfers[r].pc);
    } else {
      OwnStaysCovered(s, r);
      AdvanceIsOnlyTx(s, r);
      AdvanceIsOwn(s, r);
      OwnStepKeepsCovered(s, AdvanceStep(s, r), r);
    }
  }

  lemma AdvanceIsOwn(s: TState, r: Rid)
    requires r in s.transfers
    ensures var s' := AdvanceStep(s, r); r in s'.transfers && s'.transfers == s.transfers[r := s'.transfers[r]]
  {
  }

  lemma CommitKeepsCovered(s: TState, r: Rid, pc: Pc)
    requires Inv(s) && AllCovered(s) && r in s.transfers && s.transfers[r].pc.Credited? && pc.Done?
    ensures AllCovered(CommitStepOf(s, r, pc))
  {
    assert Covered(s.db, s.transfers[r]);
    CommitKeepsNonNegative(s, r);
    OwnStepKeepsCovered(s, CommitStepOf(s, r, pc), r);
  }

  lemma RollbackKeepsCovered(s: TState, r: Rid, pc: Pc)
    requires Inv(s) && AllCovered(s) && r in s.transfers && Open(s.transfers[r].pc) && !Open(pc)
    ensures AllCovered(GiveUpStep(s, r, pc))
  {
    assert TransferOk(s, r) && Covered(s.db, s.transfers[r]);
    EndEffect(s.db, s.transfers[r].tid);
    OwnStepKeepsCovered(s, GiveUpStep(s, r, pc), r);
  }

  lemma StepKeepsCovered(s: TState, a: TAction)
    requires Inv(s) && AllCovered(s) && (a.Request? ==> a.level in FIXED)
    ensures AllCovered(TStep(s, a))
  {
    match a
    case Advance(r) => if r in s.transfers { AdvanceKeepsCovered(s, r); }
    case Request(_, _, _, _, _) =>
    case Fail(r) =>
      if r in s.transfers && Open(s.transfers[r].pc) { RollbackKeepsCovered(s, r, Done(Failed)); }
    case Conflict(r) =>
      if r in s.transfers && Open(s.transfers[r].pc) { RollbackKeepsCovered(s, r, Retry(s.transfers[r].pc.attempt)); }
    case CommitLost(r) =>
      if r in s.transfers && s.transfers[r].pc.Credited? { CommitKeepsCovered(s, r, Done(Failed)); }
  }

  /** Under fixed snapshots no committed balance ever goes negative. */
  lemma {:induction false} FixedSnapshotsNeverOverdraw(values: map<Id, int>, run: seq<TAction>)
    requires UsesLevels(run, FIXED) && NonNegative(Init(values).rows)
    ensures AllCovered(TRun(TInit(values), run))
  {
    if run != [] {
      FixedSnapshotsNeverOverdraw(values, run[..|run| - 1]);
      TransfersConserve(values, run[..|run| - 1]);
      StepKeepsCovered(TRun(TInit(values), run[..|run| - 1]), run[|run| - 1]);
    }
  }

  // ---------------------------------------------------------------- a call commits at most once

  lemma StepKeepsDone(s: TState, a: TAction, r: Rid)
    requires r in s.transfers && s.transfers[r].pc.Done?
    ensures r in TStep(s, a).transfers && TStep(s, a).transfers[r] == s.transfers[r]
  {
  }

  lemma {:induction false} DoneStays(values: map<Id, int>, run: seq<TAction>, k: nat, r: Rid)
    requires k <= |run|
    requires var s := TRun(TInit(values), run[..k]); r in s.transfers && s.transfers[r].pc.Done?
    ensures var s, s' := TRun(TInit(values), run[..k]), TRun(TInit(values), run);
      r in s'.transfers && s'.transfers[r] == s.transfers[r]
  {
    if k == |run| {
      assert run[..k] == run;
    } else {
      assert run[..|run| - 1][..k] == run[..k];
      DoneStays(values, run[..|run| - 1], k, r);
      StepKeepsDone(TRun(TInit(values), run[..|run| - 1]), run[|run| - 1], r);
    }
  }

  /** The k-th step of the run is a commit of the call `r`, whether or not the call hears of it. */
  predicate CommitsAt(values: map<Id, int>, run: seq<TAction>, k: nat, r: Rid)
    requires k < |run|
  {
    var s := TRun(TInit(values), run[..k]);
    (run[k] == Advance(r) || run[k] == CommitLost(r)) && r in s.transfers && s.transfers[r].pc.Credited?
  }

  /** However often a call is retried, at most one of its attempts commits. */
  lemma CommitsAtMostOnce(values: map<Id, int>, run: seq<TAction>, i: nat, j: nat, r: Rid)
    requires i < |run| && j < |run| && CommitsAt(values, run, i, r) && CommitsAt(values, run, j, r)
    ensures i == j
  {
    if i < j {
      CommitEndsCall(values, run, i, j, r);
    } else if j < i {
      CommitEndsCall(values, run, j, i, r);
    }
  }

  /** The call `r` has ended with one of these. */
  predicate EndedWith(s: TState, r: Rid, outcome: Outcome) {
    r in s.transfers && s.transfers[r].pc == Done(outcome)
  }

  /** The call `r` has been told that its transfer went through. */
  predicate Succeeded(s: TState, r: Rid) {
    r in s.transfers && s.transfers[r].pc.Done? && s.transfers[r].pc.outcome.Transferred?
  }

  lemma CommitStepEnds(s: TState, a: TAction, r: Rid)
    requires Inv(s) && r in s.transfers && s.transfers[r].pc.Credited? && (a == Advance(r) || a == CommitLost(r))
    ensures if a == Advance(r) then Succeeded(TStep(s, a), r) else EndedWith(TStep(s, a), r, Failed)
  {
    FinishCommits(s, r);
  }

  lemma OneMoreStep(values: map<Id, int>, run: seq<TAction>, k: nat)
    requires k < |run|
    ensures TRun(TInit(values), run[..k + 1]) == TStep(TRun(TInit(values), run[..k]), run[k])
  {
    assert run[..k + 1][..k] == run[..k];
  }

  lemma CommitEnds(values: map<Id, int>, run: seq<TAction>, k: nat, r: Rid)
    requires k < |run| && CommitsAt(values, run, k, r)
    ensures var s := TRun(TInit(values), run[..k + 1]);
      if run[k] == Advance(r) then Succeeded(s, r) else EndedWith(s, r, Failed)
  {
    TransfersConserve(values, run[..k]);
    CommitStepEnds(TRun(TInit(values), run[..k]), run[k], r);
    OneMoreStep(values, run, k);
  }

  lemma CommitEndsCall(values: map<Id, int>, run: seq<TAction>, i: nat, j: nat, r: Rid)
    requires i < j < |run| && CommitsAt(values, run, i, r)
    ensures !CommitsAt(values, run, j, r)
  {
    CommitEnds(values, run, i, r);
    assert run[..j][..i + 1] == run[..i + 1];
    DoneStays(values, run[..j], i + 1, r);
  }

  /** Once one of its attempts has committed, a call ends with success, or with the error that hid the commit. */
  lemma CommittedCallsEnd(values: map<Id, int>, run: seq<TAction>, k: nat, r: Rid)
    requires k < |run| && CommitsAt(values, run, k, r)
    ensures var s := TRun(TInit(values), run);
      Succeeded(s, r) || (run[k] == CommitLost(r) && EndedWith(s, r, Failed))
  {
    CommitEnds(values, run, k, r);
    DoneStays(values, run, k + 1, r);
  }

  /** `amount` has moved from one row to another, and no other row has changed. */
  predicate Moved(rows: map<Id, Version>, rows': map<Id, Version>, from: Id, to: Id, amount: int) {
    rows'.Keys == rows.Keys && from in rows && to in rows &&
    (forall id :: id in rows && id != from && id != to ==> rows'[id] == rows[id]) &&
    if from == to then rows'[from].value == rows[from].value
    else rows'[from].value == rows[from].value - amount && rows'[to].value == rows[to].value + amount
  }

  lemma CommitMoves(s: TState, r: Rid)
    requires Inv(s) && r in s.transfers && s.transfers[r].pc.Credited?
    ensures var x := s.transfers[r];
      Moved(s.db.rows, Step(s.db, Commit(x.tid)).rows, x.from, x.to, x.amount)
  {
    assert TransferOk(s, r);
    CommitEffect(s.db, s.transfers[r].tid);
  }

  /** Whatever others have committed since the balances were read, a commit moves exactly the amount of its call. */
  lemma CommitsMoveTheAmount(values: map<Id, int>, run: seq<TAction>, k: nat, r: Rid)
    requires k < |run| && CommitsAt(values, run, k, r)
    ensures var s, t := TRun(TInit(values), run[..k]), TRun(TInit(values), run[..k + 1]);
      var x := s.transfers[r];
      Moved(s.db.rows, t.db.rows, x.from, x.to, x.amount)
  {
    TransfersConserve(values, run[..k]);
    var s := TRun(TInit(values), run[..k]);
    FinishCommits(s, r);
    CommitMoves(s, r);
    OneMoreStep(values, run, k);
  }

  lemma OnlyCommitsSucceed(s: TState, a: TAction, r: Rid)
    requires !Succeeded(s, r) && Succeeded(TStep(s, a), r)
    ensures a == Advance(r) && r in s.transfers && s.transfers[r].pc.Credited?
  {
  }

  /** A call that reports success has committed. */
  lemma {:induction false} SuccessHasCommitted(values: map<Id, int>, run: seq<TAction>, r: Rid) returns (k: nat)
    requires Succeeded(TRun(TInit(values), run), r)
    ensures k < |run| && run[k] == Advance(r) && CommitsAt(values, run, k, r)
  {
    var front := run[..|run| - 1];
    if Succeeded(TRun(TInit(values), front), r) {
      k := SuccessHasCommitted(values, front, r);
      assert front[..k] == run[..k];
    } else {
      OnlyCommitsSucceed(TRun(TInit(values), front), run[|run| - 1], r);
      k := |run| - 1;
    }
  }

  /**
    A call reports success exactly when one of its attempts has committed and the call has heard of
    it, whatever was retried.
   */
  lemma SuccessMeansCommit(values: map<Id, int>, run: seq<TAction>, r: Rid)
    ensures Succeeded(TRun(TInit(values), run), r) <==>
      exists k :: 0 <= k < |run| && CommitsAt(values, run, k, r) && run[k] == Advance(r)
  {
    if Succeeded(TRun(TInit(values), run), r) {
      var k := SuccessHasCommitted(values, run, r);
    }
    forall k | 0 <= k < |run| && CommitsAt(values, run, k, r) && run[k] == Advance(r)
      ensures Succeeded(TRun(TInit(values), run), r)
    {
      CommittedCallsEnd(values, run, k, r);
    }
  }

  // ---------------------------------------------------------------- which levels are needed

  lemma {:induction false} TRunConcat(s: TState, first: seq<TAction>, rest: seq<TAction>)
    ensures TRun(s, first + rest) == TRun(TRun(s, first), rest)
  {
    if rest == [] {
      assert first + rest == first;
    } else {
      TRunConcat(s, first, rest[..|rest| - 1]);
      assert (first + rest)[..|first + rest| - 1] == first + rest[..|rest| - 1];
    }
  }

  lemma TRunThree(s: TState, a: TAction)
    ensures TRun(s, [a, a, a]) == TStep(TStep(TStep(s, a), a), a)
  {
    TRunConcat(s, [a], [a, a]);
    TRunConcat(TStep(s, a), [a], [a]);
    assert [a, a, a] == [a] + [a, a] && [a, a] == [a] + [a] && [a][..0] == [];
  }

  /** A transfer of 80 from account 0 to account 1 at READ COMMITTED. */
  function Eighty(tid: Tid, pc: Pc): Transfer {
    Transfer(0, 1, 80, ReadCommitted, tid, pc)
  }

  /** `r` stands at `pc`, and no other transaction has written anything. */
  predicate Ready(s: TState, r: Rid, pc: Pc) {
    s.db.rows.Keys == {0, 1} && r in s.transfers && s.transfers[r] == Eighty(s.transfers[r].tid, pc) &&
    forall t :: t in s.db.txs && s.db.txs[t].status.Active? && (t != s.transfers[r].tid || !Open(pc)) ==>
      s.db.txs[t].writes == map[]
  }

  predicate SameOthers(s: TState, t: TState, r: Rid) {
    forall o :: o in s.transfers && o != r ==> o in t.transfers && t.transfers[o] == s.transfers[o]
  }

  lemma BeginsReady(s: TState, r: Rid)
    requires Inv(s) && Ready(s, r, Idle(0))
    ensures var t := AdvanceStep(s, r);
      Inv(t) && Ready(t, r, Opened(0)) && t.db.rows == s.db.rows && SameOthers(s, t, r)
  {
    BeginKeepsInv(s, r);
  }

  lemma ReadsReady(s: TState, r: Rid)
    requires Inv(s) && Ready(s, r, Opened(0)) && s.db.rows[0].value == 100
    ensures var t := AdvanceStep(s, r);
      Inv(t) && Ready(t, r, SawFrom(0, Some(100))) && t.db.rows == s.db.rows && SameOthers(s, t, r)
  {
    assert TransferOk(s, r);
    AdvanceIsOnlyTx(s, r);
    ReadKeepsInv(s, r);
    assert Visible(s.db, s.transfers[r].tid)[0].value == 100;
  }

  lemma ChecksReady(s: TState, r: Rid)
    requires Inv(s) && Ready(s, r, SawFrom(0, Some(100)))
    ensures var t := AdvanceStep(s, r);
      Inv(t) && Ready(t, r, Checked(0)) && t.db.rows == s.db.rows && SameOthers(s, t, r)
  {
    assert TransferOk(s, r);
    AdvanceIsOnlyTx(s, r);
    CheckKeepsInv(s, r);
    assert 1 in Visible(s.db, s.transfers[r].tid);
  }

  /** Three steps of `r`: begin, read the source, read the target and check. */
  lemma ChecksOut(s: TState, r: Rid) returns (t: TState)
    requires Inv(s) && Ready(s, r, Idle(0)) && s.db.rows[0].value == 100
    ensures t == TRun(s, [Advance(r), Advance(r), Advance(r)]) && Inv(t)
    ensures Ready(t, r, Checked(0)) && t.db.rows == s.db.rows && SameOthers(s, t, r)
  {
    TRunThree(s, Advance(r));
    BeginsReady(s, r);
    ReadsReady(AdvanceStep(s, r), r);
    t := AdvanceStep(AdvanceStep(s, r), r);
    ChecksReady(t, r);
    t := AdvanceStep(t, r);
  }

  lemma DebitsReady(s: TState, r: Rid)
    requires Inv(s) && Ready(s, r, Checked(0))
    ensures var t := AdvanceStep(s, r);
      Inv(t) && Ready(t, r, Debited(0)) && t.db.rows == s.db.rows && SameOthers(s, t, r)
  {
    assert TransferOk(s, r);
    AdvanceIsOnlyTx(s, r);
    DebitKeepsInv(s, r);
    AddEffect(s.db, s.transfers[r].tid, 0, -80);
  }

  lemma CreditsReady(s: TState, r: Rid)
    requires Inv(s) && Ready(s, r, Debited(0))
    ensures var t := AdvanceStep(s, r);
      Inv(t) && Ready(t, r, Credited(0)) && t.db.rows == s.db.rows && SameOthers(s, t, r)
  {
    assert TransferOk(s, r);
    AdvanceIsOnlyTx(s, r);
    CreditKeepsInv(s, r);
    AddEffect(s.db, s.transfers[r].tid, 1, 80);
  }

  lemma CommitsReady(s: TState, r: Rid)
    requires Inv(s) && Ready(s, r, Credited(0))
    ensures var t := AdvanceStep(s, r);
      Inv(t) && SameOthers(s, t, r) && t.db.rows.Keys == {0, 1} && t.db.rows[0].value == s.db.rows[0].value - 80 &&
      OnlyTx(s.db, t.db, s.transfers[r].tid) && !IsActive(t.db, s.transfers[r].tid)
  {
    assert TransferOk(s, r);
    CommitEffect(s.db, s.transfers[r].tid);
    FinishKeepsInv(s, r);
    assert 0 in Visible(s.db, s.transfers[r].tid) && 1 in Visible(s.db, s.transfers[r].tid);
  }

  /** Three more: debit, credit, commit; another checked transfer is as ready as before. */
  lemma PaysOut(s: TState, r: Rid, o: Rid) returns (t: TState)
    requires Inv(s) && Ready(s, r, Checked(0))
    ensures t == TRun(s, [Advance(r), Advance(r), Advance(r)]) && Inv(t)
    ensures t.db.rows.Keys == {0, 1} && t.db.rows[0].value == s.db.rows[0].value - 80
    ensures o != r && Ready(s, o, Checked(0)) ==> Ready(t, o, Checked(0))
  {
    TRunThree(s, Advance(r));
    DebitsReady(s, r);
    var s1 := AdvanceStep(s, r);
    CreditsReady(s1, r);
    var s2 := AdvanceStep(s1, r);
    CommitsReady(s2, r);
    t := AdvanceStep(s2, r);
    NobodyHasWritten(s2, t, r);
  }

  /** When the only writer has ended, no open transaction has written anything. */
  lemma NobodyHasWritten(s: TState, t: TState, r: Rid)
    requires Ready(s, r, Credited(0)) && OnlyTx(s.db, t.db, s.transfers[r].tid) && !IsActive(t.db, s.transfers[r].tid)
    ensures forall u :: u in t.db.txs && t.db.txs[u].status.Active? ==> t.db.txs[u].writes == map[]
  {
    forall u | u in t.db.txs && t.db.txs[u].status.Active? ensures t.db.txs[u].writes == map[] {
      assert u in s.db.txs && s.db.txs[u] == t.db.txs[u];
    }
  }

  /** Two READ COMMITTED transfers check the same balance of 100 and each take 80. */
  function Overdrawing(): seq<TAction> {
    [Request(0, 0, 1, 80, ReadCommitted), Request(1, 0, 1, 80, ReadCommitted)] +
    ([Advance(0), Advance(0), Advance(0)] + ([Advance(1), Advance(1), Advance(1)] +
    ([Advance(0), Advance(0), Advance(0)] + [Advance(1), Advance(1), Advance(1)])))
  }

  lemma ReadCommittedOverdraws()
    ensures !NonNegative(TRun(TInit(map[0 := 100, 1 := 0]), Overdrawing()).db.rows)
  {
    var values := map[0 := 100, 1 := 0];
    var start := [Request(0, 0, 1, 80, ReadCommitted), Request(1, 0, 1, 80, ReadCommitted)];
    var a, b := [Advance(0), Advance(0), Advance(0)], [Advance(1), Advance(1), Advance(1)];
    TRunConcat(TInit(values), start, a + (b + (a + b)));
    var s := TRun(TInit(values), start);
    TransfersConserve(values, start);
    assert start[..1] == [Request(0, 0, 1, 80, ReadCommitted)] && start[..1][..0] == [];
    assert s.transfers == map[0 := Eighty(0, Idle(0)), 1 := Eighty(0, Idle(0))];
    var s1 := ChecksOut(s, 0);
    TRunConcat(s, a, b + (a + b));
    var s2 := ChecksOut(s1, 1);
    TRunConcat(s1, b, a + b);
    assert Ready(s2, 0, Checked(0));
    BothPayOut(s2);
  }

  lemma BothPayOut(s: TState)
    requires Inv(s) && Ready(s, 0, Checked(0)) && Ready(s, 1, Checked(0)) && s.db.rows[0].value == 100
    ensures var t := TRun(s, [Advance(0), Advance(0), Advance(0)] + [Advance(1), Advance(1), Advance(1)]);
      0 in t.db.rows && t.db.rows[0].value == -60
  {
    var s1 := PaysOut(s, 0, 1);
    TRunConcat(s, [Advance(0), Advance(0), Advance(0)], [Advance(1), Advance(1), Advance(1)]);
    var s2 := PaysOut(s1, 1, 0);
  }

  /**
    Transfers keep every balance non-negative in every run, from every non-negative start,
    exactly when none of them runs at READ COMMITTED.
   */
  lemma LevelsThatNeverOverdraw(levels: set<Level>)
    ensures ReadCommitted !in levels <==>
      forall values: map<Id, int>, run: seq<TAction> :: UsesLevels(run, levels) && NonNegative(Init(values).rows) ==>
        NonNegative(TRun(TInit(values), run).db.rows)
  {
    if ReadCommitted !in levels {
      forall values: map<Id, int>, run: seq<TAction> | UsesLevels(run, levels) && NonNegative(Init(values).rows)
        ensures NonNegative(TRun(TInit(values), run).db.rows)
      {
        forall level | level in levels ensures level in FIXED {
          assert level.RepeatableRead? || level.Serializable? || level.ReadCommitted?;
        }
        FixedSnapshotsNeverOverdraw(values, run);
      }
    } else {
      ReadCommittedOverdraws();
      assert UsesLevels(Overdrawing(), levels);
      assert NonNegative(Init(map[0 := 100, 1 := 0]).rows);
    }
  }
}
