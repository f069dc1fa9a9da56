/**
  How often a transfer is retried, why it is refused, and that it goes through when nobody is in its way.
 */
module TransferRetries {
  import opened Mvcc
  import opened Options
  import opened Transfers
  import opened TransferSafety

  // ---------------------------------------------------------------- attempts

  /** The step `a` ends an attempt of `r` by a serialization failure. */
  predicate Fails(s: TState, a: TAction, r: Rid) {
    r in s.transfers && Open(s.transfers[r].pc) &&
    var t := s.transfers[r].tid;
    (a == Conflict(r) && s.transfers[r].level.Serializable?) ||
    (a == Advance(r) && t in TStep(s, a).db.txs && TStep(s, a).db.txs[t].status == Aborted(true))
  }

  predicate FailsAt(values: map<Id, int>, run: seq<TAction>, k: nat, r: Rid) {
    k < |run| && Fails(TRun(TInit(values), run[..k]), run[k], r)
  }

  /** The steps of the run that ended an attempt of `r` by a serialization failure. */
  function FailedAttempts(values: map<Id, int>, run: seq<TAction>, r: Rid): set<nat> {
    set k: nat | k < |run| && FailsAt(values, run, k, r)
  }

  lemma SameInFront(values: map<Id, int>, run: seq<TAction>, n: nat, k: nat, r: Rid)
    requires k < n <= |run|
    ensures FailsAt(values, run, k, r) == FailsAt(values, run[..n], k, r)
  {
    assert run[..n][..k] == run[..k];
  }

  lemma AddsLast(before: set<nat>, all: set<nat>, n: nat, last: bool)
    requires n !in before && forall k :: k in all <==> k in before || (last && k == n)
    ensures |all| == |before| + if last then 1 else 0
  {
    assert all == if last then before + {n} else before;
  }

  lemma OneMoreAttempt(values: map<Id, int>, run: seq<TAction>, n: nat, r: Rid)
    requires n == |run| - 1
    ensures |FailedAttempts(values, run, r)| ==
      |FailedAttempts(values, run[..n], r)| + if FailsAt(values, run, n, r) then 1 else 0
  {
    var before, all := FailedAttempts(values, run[..n], r), FailedAttempts(values, run, r);
    forall k: nat ensures k in all <==> k in before || (FailsAt(values, run, n, r) && k == n) {
      if k < n { SameInFront(values, run, n, k, r); }
    }
    AddsLast(before, all, n, FailsAt(values, run, n, r));
  }

  /** After `n` failed attempts a call is in its next attempt, or it has used up all of them. */
  predicate Tried(pc: Pc, n: nat) {
    n <= MAX_RETRIES &&
    if pc.Done? then pc.outcome.NoResult? <==> n == MAX_RETRIES
    else pc.attempt == n && n < MAX_RETRIES
  }

  lemma MoveTries(s: TState, r: Rid, n: nat, id: Id, delta: int, to: Pc)
    requires Inv(s) && r in s.transfers && Moves(s.transfers[r], s.transfers[r].pc, n, id, delta, to) && n < MAX_RETRIES
    ensures Tried(AdvanceStep(s, r).transfers[r].pc, n + if Fails(s, Advance(r), r) then 1 else 0)
  {
    assert TransferOk(s, r);
    AdvanceIsMove(s, r, n, id, delta, to);
    if !LockedByOther(s.db, s.transfers[r].tid, id) { AddEffect(s.db, s.transfers[r].tid, id, delta); }
  }

  lemma AdvanceTries(s: TState, r: Rid, n: nat)
    requires Inv(s) && r in s.transfers && Tried(s.transfers[r].pc, n)
    ensures Tried(AdvanceStep(s, r).transfers[r].pc, n + if Fails(s, Advance(r), r) then 1 else 0)
  {
    var x := s.transfers[r];
    assert TransferOk(s, r);
    match x.pc
    case Opened(_) => ReadEffect(s.db, x.tid, x.from);
    case SawFrom(_, _) => CheckTries(s, r, n);
    case Checked(_) => MoveTries(s, r, n, x.from, 0 - x.amount, Debited(n));
    case Debited(_) => MoveTries(s, r, n, x.to, x.amount, Credited(n));
    case Credited(_) => FinishCommits(s, r); CommitEffect(s.db, x.tid);
    case _ =>
  }

  lemma CheckTries(s: TState, r: Rid, n: nat)
    requires Inv(s) && r in s.transfers && s.transfers[r].pc.SawFrom? && Tried(s.transfers[r].pc, n)
    ensures Tried(AdvanceStep(s, r).transfers[r].pc, n) && !Fails(s, Advance(r), r)
  {
    var x := s.transfers[r];
    assert TransferOk(s, r);
    ReadEffect(s.db, x.tid, x.to);
    assert AdvanceStep(s, r) == CheckStep(s, r);
  }

  lemma OtherStepTries(s: TState, a: TAction, r: Rid, n: nat)
    requires a != Advance(r) && r in s.transfers && Tried(s.transfers[r].pc, n)
    ensures r in TStep(s, a).transfers && Tried(TStep(s, a).transfers[r].pc, n + if Fails(s, a, r) then 1 else 0)
  {
    if a.r != r { OthersKeepFrame(s, a, r); }
  }

  lemma OthersKeepFrame(s: TState, a: TAction, r: Rid)
    requires a.r != r && r in s.transfers
    ensures r in TStep(s, a).transfers && TStep(s, a).transfers[r] == s.transfers[r]
  {
  }

  lemma StepTries(s: TState, a: TAction, r: Rid, n: nat)
    requires Inv(s) && r in s.transfers && Tried(s.transfers[r].pc, n)
    ensures r in TStep(s, a).transfers && Tried(TStep(s, a).transfers[r].pc, n + if Fails(s, a, r) then 1 else 0)
  {
    if a == Advance(r) {
      AdvanceTries(s, r, n);
    } else {
      OtherStepTries(s, a, r, n);
    }
  }

  lemma InvAfter(values: map<Id, int>, run: seq<TAction>)
    ensures Inv(TRun(TInit(values), run))
  {
    TransfersConserve(values, run);
  }

  lemma StepStarts(s: TState, a: TAction, r: Rid)
    requires r !in s.transfers && r in TStep(s, a).transfers
    ensures Tried(TStep(s, a).transfers[r].pc, 0)
  {
  }

  /** After `n` failed attempts, `r` is where it must be. */
  predicate TriedIn(s: TState, r: Rid, n: nat) {
    if r in s.transfers then Tried(s.transfers[r].pc, n) else n == 0
  }

  lemma StepKeepsTried(s: TState, a: TAction, r: Rid, n: nat)
    requires Inv(s) && TriedIn(s, r, n)
    ensures TriedIn(TStep(s, a), r, n + if Fails(s, a, r) then 1 else 0)
  {
    if r in s.transfers {
      StepTries(s, a, r, n);
    } else if r in TStep(s, a).transfers {
      StepStarts(s, a, r);
    }
  }

  /**
    In every run: the attempt that a call is in is the number of serialization failures that it has
    met, and a call ends without a result exactly when they have ended all its attempts.
   */
  lemma {:induction false} RetriesAreExact(values: map<Id, int>, run: seq<TAction>, r: Rid)
    ensures TriedIn(TRun(TInit(values), run), r, |FailedAttempts(values, run, r)|)
  {
    if run == [] {
      assert FailedAttempts(values, run, r) == {};
    } else {
      var n := |run| - 1;
      RetriesAreExact(values, run[..n], r);
      OneMoreAttempt(values, run, n, r);
      InvAfter(values, run[..n]);
      StepKeepsTried(TRun(TInit(values), run[..n]), run[n], r, |FailedAttempts(values, run[..n], r)|);
    }
  }

  // ---------------------------------------------------------------- refusals

  /** Step `k` of the run is the read of the source balance by `r`, and `balance` is what was committed then. */
  predicate ReadsAt(values: map<Id, int>, run: seq<TAction>, k: nat, r: Rid, balance: Option<int>)
    requires k < |run|
  {
    var s := TRun(TInit(values), run[..k]);
    run[k] == Advance(r) && r in s.transfers && s.transfers[r].pc.Opened? &&
    var from := s.transfers[r].from;
    balance == if from in s.db.rows then Some(s.db.rows[from].value) else None
  }

  ghost predicate HasReadThat(values: map<Id, int>, run: seq<TAction>, r: Rid, balance: Option<int>) {
    exists k :: 0 <= k < |run| && ReadsAt(values, run, k, r, balance)
  }

  /** What the call does rests on a balance that was committed when it read it. */
  ghost predicate Justified(values: map<Id, int>, run: seq<TAction>, r: Rid, x: Transfer) {
    match x.pc
    case SawFrom(_, balance) => HasReadThat(values, run, r, balance)
    case Checked(_) => HasReadEnough(values, run, r, x.amount)
    case Debited(_) => HasReadEnough(values, run, r, x.amount)
    case Credited(_) => HasReadEnough(values, run, r, x.amount)
    case Done(o) =>
      (o.InsufficientFunds? ==> exists b: int :: HasReadThat(values, run, r, Some(b)) && b < x.amount) &&
      (o.Transferred? ==> HasReadEnough(values, run, r, x.amount))
    case _ => true
  }

  ghost predicate HasReadEnough(values: map<Id, int>, run: seq<TAction>, r: Rid, amount: int) {
    exists b: int :: HasReadThat(values, run, r, Some(b)) && amount <= b
  }

  lemma ReadingsStay(values: map<Id, int>, run: seq<TAction>, r: Rid, balance: Option<int>)
    requires run != [] && HasReadThat(values, run[..|run| - 1], r, balance)
    ensures HasReadThat(values, run, r, balance)
  {
    var front := run[..|run| - 1];
    var k :| 0 <= k < |front| && ReadsAt(values, front, k, r, balance);
    assert front[..k] == run[..k];
    assert ReadsAt(values, run, k, r, balance);
  }

  lemma JustificationStays(values: map<Id, int>, run: seq<TAction>, r: Rid, x: Transfer)
    requires run != [] && Justified(values, run[..|run| - 1], r, x)
    ensures Justified(values, run, r, x)
  {
    forall balance | HasReadThat(values, run[..|run| - 1], r, balance) ensures HasReadThat(values, run, r, balance) {
      ReadingsStay(values, run, r, balance);
    }
  }

  /** A transaction that has not read yet sees what is committed. */
  lemma FirstReadIsCommitted(s: TState, r: Rid)
    requires Inv(s) && r in s.transfers && s.transfers[r].pc.Opened?
    ensures var x := s.transfers[r];
      AdvanceStep(s, r).transfers[r] ==
        x.(pc := SawFrom(x.pc.attempt, if x.from in s.db.rows then Some(s.db.rows[x.from].value) else None))
  {
    assert TransferOk(s, r);
  }

  /** Where a call can get in one step, as far as balances matter. */
  lemma StepsFrom(s: TState, a: TAction, r: Rid)
    requires Inv(s) && r in s.transfers && !(a == Advance(r) && s.transfers[r].pc.Opened?)
    ensures r in TStep(s, a).transfers
    ensures var x, y := s.transfers[r], TStep(s, a).transfers[r];
      y.amount == x.amount &&
      (y.pc == x.pc || y.pc.Idle? || y.pc.Opened? ||
       (y.pc.Done? && !y.pc.outcome.Transferred? && !y.pc.outcome.InsufficientFunds?) ||
       (x.pc.SawFrom? && y.pc == Done(InsufficientFunds) && x.pc.balance.Some? && x.pc.balance.value < x.amount) ||
       (x.pc.SawFrom? && y.pc.Checked? && x.pc.balance.Some? && x.amount <= x.pc.balance.value) ||
       (x.pc.Checked? && y.pc.Debited?) || (x.pc.Debited? && y.pc.Credited?) ||
       (x.pc.Credited? && y.pc.Done? && y.pc.outcome.Transferred?))
  {
  }

  lemma StepIsJustified(values: map<Id, int>, run: seq<TAction>, r: Rid)
    requires run != []
    requires var s, a := TRun(TInit(values), run[..|run| - 1]), run[|run| - 1];
      Inv(s) && r in s.transfers && !(a == Advance(r) && s.transfers[r].pc.Opened?) &&
      Justified(values, run, r, s.transfers[r])
    ensures var t := TRun(TInit(values), run); r in t.transfers && Justified(values, run, r, t.transfers[r])
  {
    StepsFrom(TRun(TInit(values), run[..|run| - 1]), run[|run| - 1], r);
  }

  lemma ReadIsJustified(values: map<Id, int>, run: seq<TAction>, n: nat, r: Rid)
    requires n == |run| - 1 && run[n] == Advance(r)
    requires var s := TRun(TInit(values), run[..n]); Inv(s) && r in s.transfers && s.transfers[r].pc.Opened?
    ensures var t := TRun(TInit(values), run); r in t.transfers && Justified(values, run, r, t.transfers[r])
  {
    FirstReadIsCommitted(TRun(TInit(values), run[..n]), r);
    assert ReadsAt(values, run, n, r, TRun(TInit(values), run).transfers[r].pc.balance);
  }

  lemma {:induction false} CallsAreJustified(values: map<Id, int>, run: seq<TAction>, r: Rid)
    requires r in TRun(TInit(values), run).transfers
    ensures Justified(values, run, r, TRun(TInit(values), run).transfers[r])
  {
    var front, a := run[..|run| - 1], run[|run| - 1];
    var s := TRun(TInit(values), front);
    InvAfter(values, front);
    if r in s.transfers {
      CallsAreJustified(values, front, r);
      if a == Advance(r) && s.transfers[r].pc.Opened? {
        ReadIsJustified(values, run, |run| - 1, r);
      } else {
        JustificationStays(values, run, r, s.transfers[r]);
        StepIsJustified(values, run, r);
      }
    } else {
      assert TRun(TInit(values), run).transfers[r].pc.Idle?;
    }
  }

  /**
    At every level: a call is refused for insufficient funds only if the balance that was committed
    when it read it was below the amount, and a transfer goes through only if it was not.
   */
  lemma RefusalsAreJustified(values: map<Id, int>, run: seq<TAction>, r: Rid)
    ensures var s := TRun(TInit(values), run);
      (EndedWith(s, r, InsufficientFunds) ==>
        exists b: int :: HasReadThat(values, run, r, Some(b)) && b < s.transfers[r].amount) &&
      (Succeeded(s, r) ==>
        exists b: int :: HasReadThat(values, run, r, Some(b)) && s.transfers[r].amount <= b)
  {
    if r in TRun(TInit(values), run).transfers { CallsAreJustified(values, run, r); }
  }

  // ---------------------------------------------------------------- alone

  /**
    `r` stands at `pc`, its transaction sees what is committed, and nobody else has written anything
    that is not committed yet.
   */
  ghost predicate Alone(s: TState, r: Rid, x: Transfer, pc: Pc, rows: map<Id, Version>) {
    Inv(s) && r in s.transfers && s.transfers[r] == x.(tid := s.transfers[r].tid, pc := pc) && s.db.rows == rows &&
    x.from in rows && x.to in rows &&
    (Open(pc) ==>
      s.transfers[r].tid in s.db.txs &&
      (!pc.Opened? ==> s.db.txs[s.transfers[r].tid].snapshot == Some(rows))) &&
    OthersHaveWrittenNothing(s.db, s.transfers[r].tid, Open(pc))
  }

  /** No active transaction, other than `t` if it is `mine`, holds a row. */
  predicate OthersHaveWrittenNothing(s: State, t: Tid, mine: bool) {
    forall u :: u in s.txs && s.txs[u].status.Active? && (u != t || !mine) ==> s.txs[u].writes == map[]
  }

  lemma OthersStayQuiet(s: State, s': State, t: Tid)
    requires OthersHaveWrittenNothing(s, t, true) && OnlyTx(s, s', t)
    ensures OthersHaveWrittenNothing(s', t, true)
  {
    forall u | u in s'.txs && s'.txs[u].status.Active? && u != t ensures s'.txs[u].writes == map[] {
      assert u in s.txs && s'.txs[u] == s.txs[u];
    }
  }

  lemma BeginsAlone(s: TState, r: Rid, x: Transfer, n: nat, rows: map<Id, Version>)
    requires Alone(s, r, x, Idle(n), rows)
    ensures Alone(AdvanceStep(s, r), r, x, Opened(n), rows)
  {
    BeginKeepsInv(s, r);
  }

  lemma ReadsAlone(s: TState, r: Rid, x: Transfer, n: nat, rows: map<Id, Version>)
    requires Alone(s, r, x, Opened(n), rows)
    ensures Alone(AdvanceStep(s, r), r, x, SawFrom(n, Some(rows[x.from].value)), rows)
  {
    assert TransferOk(s, r);
    FirstReadIsCommitted(s, r);
    ReadKeepsInv(s, r);
    ReadEffect(s.db, s.transfers[r].tid, x.from);
    OthersStayQuiet(s.db, AdvanceStep(s, r).db, s.transfers[r].tid);
  }

  lemma ChecksAlone(s: TState, r: Rid, x: Transfer, n: nat, rows: map<Id, Version>)
    requires x.from in rows && x.amount <= rows[x.from].value
    requires Alone(s, r, x, SawFrom(n, Some(rows[x.from].value)), rows)
    ensures Alone(AdvanceStep(s, r), r, x, Checked(n), rows)
  {
    assert TransferOk(s, r);
    CheckKeepsInv(s, r);
    ReadEffect(s.db, s.transfers[r].tid, x.to);
    assert x.to in Visible(s.db, s.transfers[r].tid);
    OthersStayQuiet(s.db, AdvanceStep(s, r).db, s.transfers[r].tid);
  }

  lemma NobodyLocks(s: State, t: Tid, id: Id)
    requires OthersHaveWrittenNothing(s, t, true)
    ensures !LockedByOther(s, t, id)
  {
  }

  lemma MovesAlone(s: TState, r: Rid, x: Transfer, n: nat, id: Id, delta: int, to: Pc, rows: map<Id, Version>)
    requires r in s.transfers && Open(s.transfers[r].pc) && Alone(s, r, x, s.transfers[r].pc, rows)
    requires Moves(s.transfers[r], s.transfers[r].pc, n, id, delta, to)
    ensures Alone(AdvanceStep(s, r), r, x, to, rows)
  {
    var t := s.transfers[r].tid;
    assert TransferOk(s, r);
    AdvanceIsMove(s, r, n, id, delta, to);
    NobodyLocks(s.db, t, id);
    AddEffect(s.db, t, id, delta);
    assert !Outdated(s.db, t, id);
    AdvanceKeepsInv(s, r);
    assert AdvanceStep(s, r) == Goto(s, r, Step(s.db, Add(t, id, delta)), to);
    OthersStayQuiet(s.db, AdvanceStep(s, r).db, t);
  }

  lemma CommitsAlone(s: TState, r: Rid, x: Transfer, n: nat, rows: map<Id, Version>)
    requires Alone(s, r, x, Credited(n), rows)
    ensures var t := AdvanceStep(s, r);
      Succeeded(t, r) && Moved(rows, t.db.rows, x.from, x.to, x.amount) && Inv(t) &&
      OthersHaveWrittenNothing(t.db, 0, false)
  {
    FinishCommits(s, r);
    CommitMoves(s, r);
    FinishKeepsInv(s, r);
    CommitLeavesNothing(s.db, s.transfers[r].tid);
  }

  lemma CommitLeavesNothing(s: State, t: Tid)
    requires OthersHaveWrittenNothing(s, t, true) && IsActive(s, t)
    ensures OthersHaveWrittenNothing(Step(s, Commit(t)), 0, false)
  {
    forall u | IsActive(Step(s, Commit(t)), u) ensures Step(s, Commit(t)).txs[u].writes == map[] {
      assert u != t && s.txs[u] == Step(s, Commit(t)).txs[u];
    }
  }

  lemma OneMore(s: TState, run: seq<TAction>, a: TAction)
    ensures TRun(s, run + [a]) == TStep(TRun(s, run), a)
  {
    assert (run + [a])[..|run|] == run;
  }

  /** One step of `r` alone. */
  predicate NextPc(x: Transfer, rows: map<Id, Version>, pc: Pc, to: Pc) {
    match pc
    case Idle(n) => to == Opened(n)
    case Opened(n) => x.from in rows && to == SawFrom(n, Some(rows[x.from].value))
    case SawFrom(n, b) => x.from in rows && b == Some(rows[x.from].value) && x.amount <= b.value && to == Checked(n)
    case Checked(n) => to == Debited(n)
    case Debited(n) => to == Credited(n)
    case _ => false
  }

  lemma StepsAlone(s: TState, r: Rid, x: Transfer, pc: Pc, to: Pc, rows: map<Id, Version>)
    requires Alone(s, r, x, pc, rows) && NextPc(x, rows, pc, to)
    ensures Alone(AdvanceStep(s, r), r, x, to, rows)
  {
    match pc
    case Idle(n) => BeginsAlone(s, r, x, n, rows);
    case Opened(n) => ReadsAlone(s, r, x, n, rows);
    case SawFrom(n, _) => ChecksAlone(s, r, x, n, rows);
    case Checked(n) => MovesAlone(s, r, x, n, x.from, 0 - x.amount, to, rows);
    case Debited(n) => MovesAlone(s, r, x, n, x.to, x.amount, to, rows);
  }

  lemma NextAlone(s: TState, run: seq<TAction>, r: Rid, x: Transfer, pc: Pc, to: Pc, rows: map<Id, Version>)
    requires Alone(TRun(s, run), r, x, pc, rows) && NextPc(x, rows, pc, to)
    ensures Alone(TRun(s, run + [Advance(r)]), r, x, to, rows)
  {
    StepsAlone(TRun(s, run), r, x, pc, to, rows);
    OneMore(s, run, Advance(r));
  }

  /** Steps of `r` alone take it along `path`. */
  lemma {:induction false} PathAlone(s: TState, r: Rid, x: Transfer, path: seq<Pc>, rows: map<Id, Version>)
      returns (run: seq<TAction>)
    requires path != [] && Alone(s, r, x, path[0], rows)
    requires forall i :: 0 < i < |path| ==> NextPc(x, rows, path[i - 1], path[i])
    ensures |run| == |path| - 1 && forall i :: 0 <= i < |run| ==> run[i] == Advance(r)
    ensures Alone(TRun(s, run), r, x, path[|path| - 1], rows)
  {
    if |path| == 1 {
      run := [];
    } else {
      var front := path[..|path| - 1];
      run := PathAlone(s, r, x, front, rows);
      NextAlone(s, run, r, x, front[|front| - 1], path[|path| - 1], rows);
      run := run + [Advance(r)];
    }
  }

  /**
    A call that begins an attempt while nobody holds a row, and whose account covers the amount, goes
    through in six steps of its own, at every level, and moves exactly the amount.
   */
  lemma AloneItGoesThrough(s: TState, r: Rid, n: nat) returns (more: seq<TAction>)
    requires Inv(s) && r in s.transfers && s.transfers[r].pc == Idle(n)
    requires OthersHaveWrittenNothing(s.db, 0, false)
    requires var x := s.transfers[r];
      x.from in s.db.rows && x.to in s.db.rows && x.amount <= s.db.rows[x.from].value
    ensures |more| == 6 && forall i :: 0 <= i < |more| ==> more[i] == Advance(r)
    ensures var x, t := s.transfers[r], TRun(s, more);
      Inv(t) && Succeeded(t, r) && Moved(s.db.rows, t.db.rows, x.from, x.to, x.amount) &&
      OthersHaveWrittenNothing(t.db, 0, false)
  {
    var x, rows := s.transfers[r], s.db.rows;
    var seen := SawFrom(n, Some(rows[x.from].value));
    more := PathAlone(s, r, x, [Idle(n), Opened(n), seen, Checked(n), Debited(n), Credited(n)], rows);
    CommitsAlone(TRun(s, more), r, x, n, rows);
    OneMore(s, more, Advance(r));
    more := more + [Advance(r)];
  }

  // ---------------------------------------------------------------- losing a race, and winning the next attempt

  /**
    A debit that finds a newer committed balance than the one in the snapshot costs the attempt; the
    next attempt reads the new balance and, alone, goes through.
   */
  lemma LosersTryAgain(s: TState, r: Rid, n: nat) returns (more: seq<TAction>)
    requires Inv(s) && r in s.transfers && s.transfers[r].pc == Checked(n) && n + 1 < MAX_RETRIES
    requires OthersHaveWrittenNothing(s.db, 0, false)
    requires var x := s.transfers[r];
      x.from in s.db.rows && x.to in s.db.rows && x.amount <= s.db.rows[x.from].value &&
      x.tid in s.db.txs && Outdated(s.db, x.tid, x.from)
    ensures Fails(s, Advance(r), r) && |more| == 7 && forall i :: 0 <= i < |more| ==> more[i] == Advance(r)
    ensures var x, t := s.transfers[r], TRun(s, more);
      Succeeded(t, r) && Moved(s.db.rows, t.db.rows, x.from, x.to, x.amount)
  {
    LoserIsIdle(s, r, n);
    var t := TStep(s, Advance(r));
    var rest := AloneItGoesThrough(t, r, n + 1);
    TRunConcat(s, [Advance(r)], rest);
    assert [Advance(r)][..0] == [];
    more := [Advance(r)] + rest;
  }

  lemma LoserIsIdle(s: TState, r: Rid, n: nat)
    requires Inv(s) && r in s.transfers && s.transfers[r].pc == Checked(n) && n + 1 < MAX_RETRIES
    requires OthersHaveWrittenNothing(s.db, 0, false)
    requires var x := s.transfers[r]; x.from in s.db.rows && x.tid in s.db.txs && Outdated(s.db, x.tid, x.from)
    ensures Fails(s, Advance(r), r)
    ensures var x, t := s.transfers[r], TStep(s, Advance(r));
      Inv(t) && t.transfers == s.transfers[r := x.(pc := Idle(n + 1))] && t.db.rows == s.db.rows &&
      OthersHaveWrittenNothing(t.db, 0, false)
  {
    var x := s.transfers[r];
    assert TransferOk(s, r);
    AdvanceIsMove(s, r, n, x.from, 0 - x.amount, Debited(n));
    assert !LockedByOther(s.db, x.tid, x.from);
    AddEffect(s.db, x.tid, x.from, 0 - x.amount);
    DebitKeepsInv(s, r);
    forall u | u in TStep(s, Advance(r)).db.txs && TStep(s, Advance(r)).db.txs[u].status.Active?
      ensures TStep(s, Advance(r)).db.txs[u].writes == map[]
    {
      assert u in s.db.txs && s.db.txs[u] == TStep(s, Advance(r)).db.txs[u];
    }
  }

  /** The transaction of `r` is there, and it is `tx`. */
  predicate RunsTx(s: TState, r: Rid, tx: Tx) {
    r in s.transfers && Open(s.transfers[r].pc) && s.transfers[r].tid in s.db.txs && s.db.txs[s.transfers[r].tid] == tx
  }

  lemma BeginLeavesTx(s: TState, o: Rid, r: Rid, tx: Tx)
    requires Inv(s) && o in s.transfers && o != r && RunsTx(s, r, tx) && s.transfers[o].pc.Idle?
    ensures RunsTx(AdvanceStep(s, o), r, tx)
  {
    assert s.next !in s.db.txs;
  }

  lemma CommitLeavesTx(s: TState, o: Rid, r: Rid, tx: Tx)
    requires Inv(s) && o in s.transfers && o != r && RunsTx(s, r, tx) && s.transfers[o].pc.Credited?
    ensures RunsTx(AdvanceStep(s, o), r, tx)
  {
    FinishCommits(s, o);
    assert s.transfers[o].tid != s.transfers[r].tid;
  }

  lemma AdvanceLeavesTx(s: TState, o: Rid, r: Rid, tx: Tx)
    requires Inv(s) && o in s.transfers && o != r && RunsTx(s, r, tx)
    ensures RunsTx(AdvanceStep(s, o), r, tx)
  {
    if s.transfers[o].pc.Idle? {
      BeginLeavesTx(s, o, r, tx);
    } else if s.transfers[o].pc.Credited? {
      CommitLeavesTx(s, o, r, tx);
    } else if Open(s.transfers[o].pc) {
      AdvanceIsOnlyTx(s, o);
      AdvanceKeepsFrames(s, o, r);
      assert s.transfers[o].tid != s.transfers[r].tid;
    }
  }

  lemma AdvanceKeepsFrames(s: TState, o: Rid, r: Rid)
    requires o in s.transfers && r in s.transfers && o != r
    ensures var t := AdvanceStep(s, o); o in t.transfers && r in t.transfers && t.transfers[r] == s.transfers[r]
  {
  }

  /** Another call runs for a while: `r` stands where it stood, and its transaction is as it was. */
  lemma {:induction false} AdvancesLeaveTx(s: TState, run: seq<TAction>, o: Rid, r: Rid, tx: Tx)
    requires Inv(s) && o in s.transfers && o != r && RunsTx(s, r, tx)
    requires forall i :: 0 <= i < |run| ==> run[i] == Advance(o)
    ensures var t := TRun(s, run); Inv(t) && o in t.transfers && RunsTx(t, r, tx) && t.transfers[r] == s.transfers[r]
  {
    if run != [] {
      var front := run[..|run| - 1];
      AdvancesLeaveTx(s, front, o, r, tx);
      var u := TRun(s, front);
      AdvanceKeepsInv(u, o);
      AdvanceLeavesTx(u, o, r, tx);
      AdvanceKeepsFrames(u, o, r);
    }
  }

  lemma {:induction false} AdvancesLeaveFrame(s: TState, run: seq<TAction>, o: Rid, r: Rid)
    requires o in s.transfers && r in s.transfers && o != r
    requires forall i :: 0 <= i < |run| ==> run[i] == Advance(o)
    ensures var t := TRun(s, run); o in t.transfers && r in t.transfers && t.transfers[r] == s.transfers[r]
  {
    if run != [] {
      AdvancesLeaveFrame(s, run[..|run| - 1], o, r);
      AdvanceKeepsFrames(TRun(s, run[..|run| - 1]), o, r);
    }
  }

  /** `r` checks its balance while nobody is in its way. */
  lemma ChecksFirst(s: TState, r: Rid, n: nat, o: Rid) returns (run: seq<TAction>)
    requires Inv(s) && r in s.transfers && o in s.transfers && o != r && s.transfers[r].pc == Idle(n)
    requires OthersHaveWrittenNothing(s.db, 0, false)
    requires var x := s.transfers[r];
      x.from in s.db.rows && x.to in s.db.rows && x.amount <= s.db.rows[x.from].value
    ensures |run| == 3 && forall i :: 0 <= i < |run| ==> run[i] == Advance(r)
    ensures var x, t := s.transfers[r], TRun(s, run);
      Inv(t) && r in t.transfers && t.transfers[r] == x.(tid := t.transfers[r].tid, pc := Checked(n)) &&
      t.db.rows == s.db.rows && OthersHaveWrittenNothing(t.db, 0, false) &&
      o in t.transfers && t.transfers[o] == s.transfers[o] &&
      t.transfers[r].tid in t.db.txs && HoldsSnapshot(t.db.txs[t.transfers[r].tid], x.level, s.db.rows)
  {
    var x, rows := s.transfers[r], s.db.rows;
    run := PathAlone(s, r, x, [Idle(n), Opened(n), SawFrom(n, Some(rows[x.from].value)), Checked(n)], rows);
    AdvancesLeaveFrame(s, run, r, o);
    CheckedHoldsSnapshot(TRun(s, run), r, x, n, rows);
  }

  /** It has read, and written nothing. */
  predicate HoldsSnapshot(tx: Tx, level: Level, rows: map<Id, Version>) {
    tx.level == level && tx.snapshot == Some(rows) && tx.writes == map[]
  }

  lemma CheckedHoldsSnapshot(s: TState, r: Rid, x: Transfer, n: nat, rows: map<Id, Version>)
    requires Alone(s, r, x, Checked(n), rows)
    ensures HoldsSnapshot(s.db.txs[s.transfers[r].tid], x.level, rows) && OthersHaveWrittenNothing(s.db, 0, false)
  {
    assert TransferOk(s, r);
  }

  /**
    Two calls of one account that covers both: the first checks, the second overtakes it and commits.
    At a fixed snapshot the first then loses exactly its attempt, and its next one goes through.
   */
  lemma OvertakenCallsGoThrough(s: TState, r: Rid, n: nat, o: Rid, m: nat)
      returns (before: seq<TAction>, after: seq<TAction>)
    requires Inv(s) && r in s.transfers && o in s.transfers && o != r && n + 1 < MAX_RETRIES
    requires s.transfers[r].pc == Idle(n) && s.transfers[o].pc == Idle(m) && !s.transfers[r].level.ReadCommitted?
    requires OthersHaveWrittenNothing(s.db, 0, false)
    requires var x, y := s.transfers[r], s.transfers[o];
      x.from in s.db.rows && x.to in s.db.rows && y.from == x.from && y.to in s.db.rows && y.to != y.from &&
      0 < y.amount && x.amount + y.amount <= s.db.rows[x.from].value
    ensures Fails(TRun(s, before), Advance(r), r) && Succeeded(TRun(s, before), o)
    ensures Succeeded(TRun(s, before + after), r) && Succeeded(TRun(s, before + after), o) && |before + after| == 16
    ensures var x, y, rows := s.transfers[r], s.transfers[o], TRun(s, before + after).db.rows;
      var taken := if x.to == x.from then 0 else x.amount;
      x.from in rows && rows[x.from].value == s.db.rows[x.from].value - y.amount - taken
  {
    before := IsOvertaken(s, r, n, o, m);
    var t := TRun(s, before);
    after := LosersTryAgain(t, r, n);
    TRunConcat(s, before, after);
    AdvancesLeaveFrame(t, after, r, o);
  }

  /** `r` checks, and then `o` takes its amount out of the same account. */
  lemma IsOvertaken(s: TState, r: Rid, n: nat, o: Rid, m: nat) returns (run: seq<TAction>)
    requires Inv(s) && r in s.transfers && o in s.transfers && o != r
    requires s.transfers[r].pc == Idle(n) && s.transfers[o].pc == Idle(m) && !s.transfers[r].level.ReadCommitted?
    requires OthersHaveWrittenNothing(s.db, 0, false)
    requires var x, y := s.transfers[r], s.transfers[o];
      x.from in s.db.rows && x.to in s.db.rows && y.from == x.from && y.to in s.db.rows && y.to != y.from &&
      0 < y.amount && x.amount + y.amount <= s.db.rows[x.from].value
    ensures |run| == 9
    ensures var x, y, t := s.transfers[r], s.transfers[o], TRun(s, run);
      Inv(t) && Succeeded(t, o) && OthersHaveWrittenNothing(t.db, 0, false) &&
      Moved(s.db.rows, t.db.rows, y.from, y.to, y.amount) &&
      r in t.transfers && t.transfers[r] == x.(tid := t.transfers[r].tid, pc := Checked(n)) &&
      t.transfers[r].tid in t.db.txs && Outdated(t.db, t.transfers[r].tid, x.from)
  {
    var x := s.transfers[r];
    var checks := ChecksFirst(s, r, n, o);
    var s1 := TRun(s, checks);
    var tid := s1.transfers[r].tid;
    var overtakes := AloneItGoesThrough(s1, o, m);
    AdvancesLeaveTx(s1, overtakes, o, r, s1.db.txs[tid]);
    TRunConcat(s, checks, overtakes);
    run := checks + overtakes;
    NewBalanceOutdates(TRun(s1, overtakes).db, tid, x.level, s.db.rows, x.from);
  }

  lemma NewBalanceOutdates(s: State, t: Tid, level: Level, rows: map<Id, Version>, id: Id)
    requires t in s.txs && HoldsSnapshot(s.txs[t], level, rows) && !level.ReadCommitted?
    requires id in rows && id in s.rows && s.rows[id].value != rows[id].value
    ensures Outdated(s, t, id)
  {
  }
}
