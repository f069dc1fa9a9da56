/**
  The transfer call in place: the retry loop around read, check, debit, credit and commit,
  with other calls at every await.  `Valid()`: the fields are what `history` produces.
 */
module TransferService {
  import opened Mvcc
  import opened Options
  import opened TransferRetries
  import opened TransferSafety
  import opened Transfers

  predicate OthersOnly(run: seq<TAction>, me: Rid) {
    forall i :: 0 <= i < |run| ==> run[i].r != me
  }

  lemma {:induction false} OthersKeepMyFrame(s: TState, run: seq<TAction>, me: Rid)
    requires OthersOnly(run, me) && me in s.transfers
    ensures me in TRun(s, run).transfers && TRun(s, run).transfers[me] == s.transfers[me]
  {
    if run != [] { OthersKeepMyFrame(s, run[..|run| - 1], me); }
  }

  lemma OneStep(s: TState, a: TAction)
    ensures TRun(s, [a]) == TStep(s, a)
  {
    assert [a][..0] == [];
  }

  /** Whoever holds the row is an open call, and the only one to hold it. */
  lemma HolderIsOpen(s: TState, t: Tid, u: Tid, id: Id) returns (r: Rid)
    requires Inv(s) && IsActive(s.db, u) && u != t && id in s.db.txs[u].writes
    ensures Runs(s, r, u)
    ensures !LockedByOther(Step(s.db, Abort(u)), t, id)
  {
    r :| Runs(s, r, u);
  }

  lemma UpdateIsMove(s: TState, r: Rid, n: nat, id: Id, delta: int, to: Pc)
    requires Inv(s) && r in s.transfers && Moves(s.transfers[r], s.transfers[r].pc, n, id, delta, to)
    requires !LockedByOther(s.db, s.transfers[r].tid, id)
    ensures var t, db := s.transfers[r].tid, Step(s.db, Add(s.transfers[r].tid, id, delta));
      t in db.txs && id in s.db.rows &&
      AdvanceStep(s, r) == Goto(s, r, db, if db.txs[t].status.Aborted? then Retry(n) else to)
  {
    assert TransferOk(s, r);
    AdvanceIsMove(s, r, n, id, delta, to);
    AddEffect(s.db, s.transfers[r].tid, id, delta);
  }

  /** The committed balances are those that the transaction saw last. */
  lemma FinishReports(s: TState, r: Rid)
    requires Inv(s) && r in s.transfers && s.transfers[r].pc.Credited?
    ensures var x := s.transfers[r];
      x.tid in s.db.txs &&
      var seen, db := Visible(s.db, x.tid), Step(s.db, Commit(x.tid));
      x.from in seen && x.to in seen && x.from in db.rows && x.to in db.rows &&
      db.rows[x.from] == Version(seen[x.from].value, By(x.tid)) && db.rows[x.to] == Version(seen[x.to].value, By(x.tid))
  {
    assert TransferOk(s, r);
  }

  class DBConcurrencyService {
    var db: State
    var transfers: map<Rid, Transfer>
    var next: Tid
    const mayFail: bool                     // whether statements can raise anything but a serialization failure
    ghost const values: map<Id, int>        // balances before any call
    ghost var history: seq<TAction>

    ghost function View(): TState
      reads this
    {
      TState(db, transfers, next)
    }

    ghost predicate Valid()
      reads this
    {
      View() == TRun(TInit(values), history) && Inv(View()) && db.rows.Keys == values.Keys
    }

    /** `me` works on the request `x` and stands at `pc`. */
    ghost predicate At(me: Rid, x: Transfer, pc: Pc)
      reads this
    {
      Valid() && me in transfers && transfers[me] == x.(tid := transfers[me].tid, pc := pc) && TransferOk(View(), me)
    }

    constructor (values: map<Id, int>, mayFail: bool)
      ensures Valid() && history == [] && this.values == values && this.mayFail == mayFail
    {
      db, transfers, next := Init(values), map[], 0;
      this.values, this.mayFail, history := values, mayFail, [];
      new;
      TransfersConserve(values, []);
    }

    method Become(run: seq<TAction>)
      requires Valid()
      modifies this
      ensures Valid() && history == old(history) + run && View() == TRun(old(View()), run)
    {
      TRunConcat(TInit(values), history, run);
      var s := TRun(TState(db, transfers, next), run);
      db, transfers, next := s.db, s.transfers, s.next;
      history := history + run;
      TransfersConserve(values, history);
    }

    /** Other calls run while `me` waits for a statement; the statement may raise (`!ok`). */
    method Await(me: Rid) returns (ok: bool)
      requires Valid() && me in transfers
      modifies this
      ensures Valid() && old(history) <= history && OthersOnly(history[|old(history)|..], me)
      ensures me in transfers && transfers[me] == old(transfers[me]) && TransferOk(View(), me)
      ensures !ok ==> mayFail
    {
      var run: seq<TAction> := *;
      if !OthersOnly(run, me) { run := []; }
      OthersKeepMyFrame(View(), run, me);
      Become(run);
      ok := *;
      ok := ok || !mayFail;
    }

    /** Wait until whoever has locked the row has committed or failed. */
    method AwaitRow(me: Rid, id: Id)
      requires Valid() && me in transfers
      modifies this
      ensures Valid() && old(history) <= history
      ensures me in transfers && transfers[me] == old(transfers[me]) && TransferOk(View(), me)
      ensures !LockedByOther(db, transfers[me].tid, id)
    {
      var _ := Await(me);
      var t := transfers[me].tid;
      if LockedByOther(db, t, id) {
        var u :| u in db.txs && u != t && db.txs[u].status.Active? && id in db.txs[u].writes;
        EndHolder(me, id, u);
      }
    }

    method EndHolder(me: Rid, id: Id, u: Tid)
      requires Valid() && me in transfers && u != transfers[me].tid && IsActive(db, u) && id in db.txs[u].writes
      modifies this
      ensures Valid() && old(history) <= history
      ensures me in transfers && transfers[me] == old(transfers[me]) && TransferOk(View(), me)
      ensures !LockedByOther(db, transfers[me].tid, id)
    {
      ghost var r0 := HolderIsOpen(View(), transfers[me].tid, u, id);
      assert Runs(View(), r0, u);
      var r :| r in transfers && Open(transfers[r].pc) && transfers[r].tid == u;
      assert TransferOk(View(), me);
      OneStep(View(), Fail(r));
      Become([Fail(r)]);
      assert TransferOk(View(), me);
    }

    /** `me` moves on to `pc`: together with the changes just made, that is the step `a`. */
    method MoveTo(me: Rid, x: Transfer, pc: Pc, ghost a: TAction)
      requires me in transfers && transfers[me] == x.(tid := transfers[me].tid, pc := transfers[me].pc)
      requires Inv(TRun(TInit(values), history)) && TRun(TInit(values), history).db.rows.Keys == values.Keys
      requires TStep(TRun(TInit(values), history), a) == Goto(View(), me, db, pc)
      modifies `transfers, `history
      ensures At(me, x, pc) && history == old(history) + [a]
      ensures transfers == old(transfers)[me := old(transfers)[me].(pc := pc)]
    {
      StepKeepsInv(TRun(TInit(values), history), a);
      transfers := transfers[me := transfers[me].(pc := pc)];
      history := history + [a];
      assert TransferOk(View(), me);
    }

    /** The transaction is rolled back and the call goes on at `pc`. */
    method RollBack(me: Rid, x: Transfer, pc: Pc, ghost a: TAction)
      requires Valid() && me in transfers && At(me, x, transfers[me].pc)
      requires TStep(View(), a) == GiveUpStep(View(), me, pc)
      modifies this
      ensures At(me, x, pc) && history == old(history) + [a]
    {
      db := Step(db, Abort(transfers[me].tid));
      MoveTo(me, x, pc, a);
    }

    /** An exception inside the transaction. */
    method Raise(me: Rid, x: Transfer)
      requires Valid() && me in transfers && At(me, x, transfers[me].pc) && Open(transfers[me].pc)
      modifies this
      ensures At(me, x, Done(Failed)) && history == old(history) + [Fail(me)]
    {
      RollBack(me, x, Done(Failed), Fail(me));
    }

    /** BEGIN; SET TRANSACTION ISOLATION LEVEL. */
    method Start(me: Rid, x: Transfer, n: nat)
      requires At(me, x, Idle(n))
      modifies this
      ensures At(me, x, Opened(n)) && old(history) <= history
    {
      var _ := Await(me);
      ghost var was := View();
      db := Step(db, Begin(next, x.level));
      transfers := transfers[me := transfers[me].(tid := next, pc := Opened(n))];
      next := next + 1;
      StepKeepsInv(was, Advance(me));
      history := history + [Advance(me)];
      assert TransferOk(View(), me);
    }

    /** The attempt `n` is over: an error ends the call, a serialization failure lets it try again. */
    ghost predicate Broke(me: Rid, x: Transfer, n: nat)
      reads this
    {
      (mayFail && At(me, x, Done(Failed))) || (!x.level.ReadCommitted? && At(me, x, Retry(n)))
    }

    /** Wait for a statement to return; it may raise, and at SERIALIZABLE it may meet a conflict. */
    method Statement(me: Rid, x: Transfer, pc: Pc) returns (ok: bool)
      requires At(me, x, pc) && Open(pc)
      modifies this
      ensures old(history) <= history && if ok then At(me, x, pc) else Broke(me, x, pc.attempt)
    {
      ok := Await(me);
      if !ok { Raise(me, x); return; }
      var conflict: bool := *;
      if conflict && x.level.Serializable? {
        RollBack(me, x, Retry(pc.attempt), Conflict(me));
        ok := false;
      }
    }

    method ReadFrom(me: Rid, x: Transfer, n: nat)
      requires At(me, x, Opened(n))
      modifies this
      ensures old(history) <= history && me in transfers
      ensures Broke(me, x, n) ||
        (transfers[me].pc.SawFrom? && At(me, x, SawFrom(n, transfers[me].pc.balance)) &&
         (transfers[me].pc.balance.None? <==> x.from !in values))
    {
      var ok := Statement(me, x, Opened(n));
      if !ok { return; }
      var t := transfers[me].tid;
      var seen := Visible(db, t);
      db := Step(db, Read(t, x.from));
      MoveTo(me, x, SawFrom(n, if x.from in seen then Some(seen[x.from].value) else None), Advance(me));
    }

    /** Not found exactly when an account is missing; refused exactly when the balance read is too small. */
    ghost predicate CheckDone(me: Rid, x: Transfer, n: nat, balance: Option<int>)
      reads this
    {
      Broke(me, x, n) ||
      (At(me, x, Checked(n)) && balance.Some? && balance.value >= x.amount && x.to in values) ||
      (At(me, x, Done(InsufficientFunds)) && balance.Some? && balance.value < x.amount && x.to in values) ||
      (At(me, x, Done(NotFound)) && (x.from !in values || x.to !in values))
    }

    /** Both accounts must exist and the source must cover the amount; otherwise the transaction is rolled back. */
    method Check(me: Rid, x: Transfer, n: nat, balance: Option<int>)
      requires At(me, x, SawFrom(n, balance)) && (balance.None? <==> x.from !in values)
      modifies this
      ensures old(history) <= history
      ensures CheckDone(me, x, n, balance)
    {
      var ok := Statement(me, x, SawFrom(n, balance));
      if ok { Decide(me, x, n, balance); }
    }

    method Decide(me: Rid, x: Transfer, n: nat, balance: Option<int>)
      requires At(me, x, SawFrom(n, balance)) && (balance.None? <==> x.from !in values)
      modifies this
      ensures old(history) <= history
      ensures
        (At(me, x, Checked(n)) && balance.Some? && balance.value >= x.amount && x.to in values) ||
        (At(me, x, Done(InsufficientFunds)) && balance.Some? && balance.value < x.amount && x.to in values) ||
        (At(me, x, Done(NotFound)) && (x.from !in values || x.to !in values))
    {
      var t := transfers[me].tid;
      var found := x.to in Visible(db, t);
      assert found <==> x.to in db.rows;
      db := Step(db, Read(t, x.to));
      if balance.None? || !found {
        db := Step(db, Abort(t));
        MoveTo(me, x, Done(NotFound), Advance(me));
      } else if balance.value < x.amount {
        db := Step(db, Abort(t));
        MoveTo(me, x, Done(InsufficientFunds), Advance(me));
      } else {
        MoveTo(me, x, Checked(n), Advance(me));
      }
    }

    /** UPDATE ... SET balance = balance + delta; a newer committed version costs the attempt. */
    method Move(me: Rid, x: Transfer, n: nat, id: Id, delta: int, to: Pc)
      requires me in transfers && At(me, x, transfers[me].pc) && Moves(x, transfers[me].pc, n, id, delta, to)
      modifies this
      ensures old(history) <= history && (At(me, x, to) || Broke(me, x, n))
    {
      var ok := Statement(me, x, transfers[me].pc);
      if !ok { return; }
      AwaitRow(me, id);
      Update(me, x, n, id, delta, to);
    }

    method Update(me: Rid, x: Transfer, n: nat, id: Id, delta: int, to: Pc)
      requires me in transfers && At(me, x, transfers[me].pc) && Moves(x, transfers[me].pc, n, id, delta, to)
      requires !LockedByOther(db, transfers[me].tid, id)
      modifies this
      ensures old(history) <= history
      ensures At(me, x, to) || (!x.level.ReadCommitted? && At(me, x, Retry(n)))
    {
      var t := transfers[me].tid;
      ghost var was := View();
      UpdateIsMove(was, me, n, id, delta, to);
      AddEffect(db, t, id, delta);
      db := Step(db, Add(t, id, delta));
      if db.txs[t].status.Aborted? {
        MoveTo(me, x, Retry(n), Advance(me));
      } else {
        MoveTo(me, x, to, Advance(me));
      }
    }

    /** Read both balances back and COMMIT; the reply to the COMMIT may get lost. */
    method Finish(me: Rid, x: Transfer, n: nat)
      requires At(me, x, Credited(n))
      modifies this
      ensures old(history) <= history && me in transfers
      ensures Broke(me, x, n) || Paid(me, x)
    {
      var ok := Statement(me, x, Credited(n));
      if !ok { return; }
      var lost: bool := *;
      if lost && mayFail { LoseReply(me, x, n); } else { CommitAndReport(me, x, n); }
    }

    method CommitAndReport(me: Rid, x: Transfer, n: nat)
      requires At(me, x, Credited(n))
      modifies this
      ensures old(history) <= history && Paid(me, x)
    {
      FinishCommits(View(), me);
      FinishReports(View(), me);
      CommitMoves(View(), me);
      var t := transfers[me].tid;
      var seen := Visible(db, t);
      var fromBalance, toBalance := seen[x.from].value, seen[x.to].value;
      db := Step(db, Commit(t));
      MoveTo(me, x, Done(Transferred(fromBalance, toBalance)), Advance(me));
      assert history[..|history| - 1] == old(history);
    }

    /** COMMIT takes effect, but an error comes back. */
    method LoseReply(me: Rid, x: Transfer, n: nat)
      requires At(me, x, Credited(n))
      modifies this
      ensures At(me, x, Done(Failed)) && history == old(history) + [CommitLost(me)]
    {
      db := Step(db, Commit(transfers[me].tid));
      MoveTo(me, x, Done(Failed), CommitLost(me));
    }

    /** The last step of the history moved `amount` from `from` to `to`, and nothing else. */
    ghost predicate MovedLast(from: Id, to: Id, amount: int)
      reads this
    {
      history != [] && Moved(TRun(TInit(values), history[..|history| - 1]).db.rows, db.rows, from, to, amount)
    }

    /** The call has committed just now; the balances it reports are the committed ones. */
    ghost predicate Paid(me: Rid, x: Transfer)
      reads this
    {
      me in transfers && Succeeded(View(), me) && At(me, x, transfers[me].pc) &&
      x.from in db.rows && x.to in db.rows &&
      var o := transfers[me].pc.outcome;
      db.rows[x.from] == Version(o.fromBalance, By(transfers[me].tid)) &&
      db.rows[x.to] == Version(o.toBalance, By(transfers[me].tid)) &&
      MovedLast(x.from, x.to, x.amount)
    }

    /** How a call can end, and when. */
    ghost predicate Ended(me: Rid, x: Transfer, o: Outcome)
      reads this
    {
      At(me, x, Done(o)) &&
      match o
      case Transferred(_, _) => Paid(me, x)
      case InsufficientFunds => x.from in values && x.to in values
      case NotFound => x.from !in values || x.to !in values
      case Failed => mayFail
      case NoResult => !x.level.ReadCommitted?
    }

    /** One attempt: begin, move the money, commit.  Without a result it has met a serialization failure. */
    method Attempt(me: Rid, x: Transfer, n: nat) returns (o: Option<Outcome>)
      requires At(me, x, Idle(n)) && n < MAX_RETRIES
      modifies this
      ensures old(history) <= history
      ensures o.Some? ==> Ended(me, x, o.value) && !o.value.NoResult?
      ensures o.None? ==> !x.level.ReadCommitted? && At(me, x, Retry(n))
    {
      Start(me, x, n);
      CheckFunds(me, x, n);
      if transfers[me].pc.Checked? { MoveFunds(me, x, n); }
      if transfers[me].pc == Retry(n) { return None; }
      return Some(transfers[me].pc.outcome);
    }

    /** The attempt is over, with a result of the call or without one. */
    ghost predicate AttemptOver(me: Rid, x: Transfer, n: nat)
      reads this
    {
      me in transfers &&
      ((!x.level.ReadCommitted? && At(me, x, Retry(n))) ||
       (transfers[me].pc.Done? && !transfers[me].pc.outcome.NoResult? && Ended(me, x, transfers[me].pc.outcome)))
    }

    /** Both balances are read and the source must cover the amount. */
    method CheckFunds(me: Rid, x: Transfer, n: nat)
      requires At(me, x, Opened(n))
      modifies this
      ensures old(history) <= history && (At(me, x, Checked(n)) || AttemptOver(me, x, n))
    {
      ReadFrom(me, x, n);
      if !transfers[me].pc.SawFrom? { BrokeIsOver(me, x, n); return; }
      ghost var balance := transfers[me].pc.balance;
      Check(me, x, n, transfers[me].pc.balance);
      CheckIsOver(me, x, n, balance);
    }

    /** Whatever the check says: go on, or the attempt is over. */
    lemma CheckIsOver(me: Rid, x: Transfer, n: nat, balance: Option<int>)
      requires me in transfers && CheckDone(me, x, n, balance) && (balance.None? <==> x.from !in values)
      ensures At(me, x, Checked(n)) || AttemptOver(me, x, n)
    {
    }

    lemma BrokeIsOver(me: Rid, x: Transfer, n: nat)
      requires Broke(me, x, n)
      ensures AttemptOver(me, x, n)
    {
    }

    /** Debit, credit, commit. */
    method MoveFunds(me: Rid, x: Transfer, n: nat)
      requires At(me, x, Checked(n))
      modifies this
      ensures old(history) <= history && AttemptOver(me, x, n)
    {
      Move(me, x, n, x.from, 0 - x.amount, Debited(n));
      if !transfers[me].pc.Debited? { BrokeIsOver(me, x, n); return; }
      Move(me, x, n, x.to, x.amount, Credited(n));
      if !transfers[me].pc.Credited? { BrokeIsOver(me, x, n); return; }
      Finish(me, x, n);
      PaidIsOver(me, x, n);
    }

    lemma PaidIsOver(me: Rid, x: Transfer, n: nat)
      requires Broke(me, x, n) || Paid(me, x)
      ensures AttemptOver(me, x, n)
    {
    }

    /** Retry the whole transaction after a serialization failure, a bounded number of times. */
    method Transfer(me: Rid, from: Id, to: Id, amount: nat, level: Level) returns (o: Outcome)
      requires Valid() && me !in transfers
      modifies this
      ensures old(history) <= history && Ended(me, Transfers.Transfer(from, to, amount, level, 0, Idle(0)), o)
      ensures o.Transferred? <==>
        exists k :: 0 <= k < |history| && CommitsAt(values, history, k, me) && history[k] == Advance(me)
      ensures (exists k :: 0 <= k < |history| && CommitsAt(values, history, k, me)) ==> o.Transferred? || o.Failed?
      ensures o.NoResult? <==> |FailedAttempts(values, history, me)| == MAX_RETRIES
      ensures o.InsufficientFunds? ==> exists b: int :: HasReadThat(values, history, me, Some(b)) && b < amount
      ensures o.Transferred? ==> MovedLast(from, to, amount)
    {
      var x := Transfers.Transfer(from, to, amount, level, 0, Idle(0));
      StepKeepsInv(View(), Request(me, from, to, amount, level));
      transfers := transfers[me := x];
      history := history + [Request(me, from, to, amount, level)];
      o := RunAttempts(me, x);
      SuccessMeansCommit(values, history, me);
      RetriesAreExact(values, history, me);
      RefusalsAreJustified(values, history, me);
      forall k | 0 <= k < |history| && CommitsAt(values, history, k, me) ensures o.Transferred? || o.Failed? {
        CommittedCallsEnd(values, history, k, me);
      }
    }

    method RunAttempts(me: Rid, x: Transfer) returns (o: Outcome)
      requires At(me, x, Idle(0))
      modifies this
      ensures old(history) <= history && Ended(me, x, o)
    {
      var attempt := 0;
      while attempt < MAX_RETRIES
        invariant attempt <= MAX_RETRIES && old(history) <= history
        invariant attempt < MAX_RETRIES ==> At(me, x, Idle(attempt))
        invariant attempt == MAX_RETRIES ==> !x.level.ReadCommitted? && At(me, x, Done(NoResult))
      {
        var result := Attempt(me, x, attempt);
        if result.Some? { return result.value; }
        attempt := attempt + 1;
      }
      return NoResult;
    }
  }
}
