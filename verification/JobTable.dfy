/**
  The queue's operations on the job table in place, with other transactions at every await.
  `Valid()` says that the table is exactly what `history` produces.
 */
module JobTable {
  import opened JobQueue
  import opened Options

  predicate OthersOnly(run: seq<Action>, me: Tid) {
    forall i :: 0 <= i < |run| ==> run[i].t != me
  }

  lemma {:induction false} OthersKeepMyFrame(s: State, run: seq<Action>, me: Tid)
    requires OthersOnly(run, me) && me in s.txns
    ensures me in Run(s, run).txns && Run(s, run).txns[me] == s.txns[me]
  {
    if run != [] { OthersKeepMyFrame(s, run[..|run| - 1], me); }
  }

  lemma {:induction false} RunConcat(s: State, first: seq<Action>, rest: seq<Action>)
    ensures Run(s, first + rest) == Run(Run(s, first), rest)
  {
    if rest == [] {
      assert first + rest == first;
    } else {
      RunConcat(s, first, rest[..|rest| - 1]);
      assert (first + rest)[..|first + rest| - 1] == first + rest[..|rest| - 1];
    }
  }

  /** A row lock belongs to a transaction that is still open. */
  predicate LocksAreLive(s: State) {
    forall p :: 0 <= p < |s.rows| && s.rows[p].lock.Some? ==>
      s.rows[p].lock.value in s.txns && !s.txns[s.rows[p].lock.value].pc.Finished?
  }

  lemma StepKeepsLocksLive(s: State, a: Action)
    requires LocksAreLive(s)
    ensures LocksAreLive(Step(s, a))
  {
  }

  lemma {:induction false} RunKeepsLocksLive(run: seq<Action>)
    ensures LocksAreLive(Run(EMPTY, run))
  {
    if run != [] {
      RunKeepsLocksLive(run[..|run| - 1]);
      StepKeepsLocksLive(Run(EMPTY, run[..|run| - 1]), run[|run| - 1]);
    }
  }

  lemma OneStep(s: State, a: Action)
    ensures Run(s, [a]) == Step(s, a)
  {
    assert [a][..0] == [];
  }

  class JobTable {
    var rows: seq<Row>
    var txns: map<Tid, Txn>
    ghost var history: seq<Action>

    ghost function View(): State
      reads this
    {
      State(rows, txns)
    }

    ghost predicate Valid()
      reads this
    {
      View() == Run(EMPTY, history)
    }

    constructor ()
      ensures Valid() && rows == [] && history == []
    {
      rows, txns, history := [], map[], [];
    }

    /** Other transactions run while `me` waits for a statement to return. */
    method Await(me: Tid)
      requires Valid() && me in txns
      modifies this
      ensures Valid() && old(history) <= history && OthersOnly(history[|old(history)|..], me)
      ensures me in txns && txns[me] == old(txns[me]) && TxnOk(View(), me)
    {
      var run: seq<Action> := *;
      if !OthersOnly(run, me) { run := []; }
      Become(run);
      OthersKeepMyFrame(old(View()), run, me);
      RunKeepsInv(history);
      assert TxnOk(View(), me);
    }

    method Become(run: seq<Action>)
      requires Valid()
      modifies this
      ensures Valid() && history == old(history) + run && View() == Run(old(View()), run)
    {
      RunConcat(EMPTY, history, run);
      var s := Run(State(rows, txns), run);
      rows, txns, history := s.rows, s.txns, history + run;
    }

    /** As `Await`, until whoever has locked row `p` has committed or rolled back. */
    method AwaitRow(me: Tid, p: nat)
      requires Valid() && me in txns && p < |rows|
      modifies this
      ensures Valid() && old(history) <= history && OthersOnly(history[|old(history)|..], me)
      ensures me in txns && txns[me] == old(txns[me]) && TxnOk(View(), me)
      ensures p < |rows| && !LockedByOther(rows[p], me)
    {
      Await(me);
      assert old(history) + history[|old(history)|..] == history;
      StatusMovesForward(old(history), history[|old(history)|..], p);
      RunKeepsLocksLive(history);
      if LockedByOther(rows[p], me) {
        var owner := rows[p].lock.value;
        label L:
        Become([Abort(owner)]);
        OneStep(old@L(View()), Abort(owner));
        RunKeepsInv(history);
        assert TxnOk(View(), me);
      }
    }

    /** `me` moves on to `pc` over the table's new rows: together that is the step `a`. */
    method Advance(me: Tid, newRows: seq<Row>, pc: Pc, ghost a: Action)
      requires Valid() && me in txns
      requires Step(View(), a) == Goto(View().(rows := newRows), me, pc)
      modifies this
      ensures Valid() && history == old(history) + [a]
      ensures rows == newRows && txns == old(txns)[me := old(txns)[me].(pc := pc)]
    {
      rows := newRows;
      txns := txns[me := txns[me].(pc := pc)];
      history := history + [a];
    }

    method Enqueue(me: Tid) returns (position: nat)
      requires Valid() && me !in txns
      modifies this
      ensures Valid() && old(history) <= history && me in txns && txns[me].pc == Finished(Enqueued)
      ensures position < |rows| && old(|rows|) <= position
      ensures rows[position] == Row(Queued, None, None)
    {
      position := |rows|;
      rows := rows + [Row(Hidden, None, Some(me))];
      txns := txns[me := Txn([], Inserting(position))];
      history := history + [JobQueue.Enqueue(me)];
      Await(me);
      Advance(me, Release(rows[position := rows[position].(status := Queued)], me), Finished(Enqueued), Commit(me));
    }

    /** Mark a job DONE; a job that nobody can see is missing. */
    method Complete(me: Tid, position: nat) returns (r: Result)
      requires Valid() && me !in txns
      modifies this
      ensures Valid() && old(history) <= history && me in txns && txns[me].pc == Finished(r)
      ensures r == if position < old(|rows|) && !old(rows)[position].status.Hidden? then Completed else Missing
      ensures r.Completed? ==> position < |rows| && rows[position].status.Done?
      ensures r.Missing? ==> rows == old(rows)
    {
      if position >= |rows| || rows[position].status.Hidden? {
        txns := txns[me := Txn([], Finished(Missing))];
        history := history + [JobQueue.Complete(me, position)];
        return Missing;
      }
      if rows[position].status.Done? {
        txns := txns[me := Txn([], Finished(Completed))];
        history := history + [JobQueue.Complete(me, position)];
        return Completed;
      }
      txns := txns[me := Txn([], Completing(position))];
      history := history + [JobQueue.Complete(me, position)];
      SetDone(me, position);
      return Completed;
    }

    method SetDone(me: Tid, position: nat)
      requires Valid() && me in txns && txns[me].pc == Completing(position) && position < |rows|
      modifies this
      ensures Valid() && old(history) <= history && me in txns && txns[me].pc == Finished(Completed)
      ensures position < |rows| && rows[position].status.Done?
    {
      AwaitRow(me, position);
      Advance(me, rows[position := rows[position].(lock := Some(me))], MarkedDone(position), Update(me));
      Await(me);
      Advance(me, Release(rows[position := rows[position].(status := Done)], me), Finished(Completed), Commit(me));
    }

    /** The claim `me` of the snapshot `q` has ended with `r`. */
    ghost predicate ClaimEnded(me: Tid, q: seq<nat>, strategy: Strategy, r: Result)
      reads this
    {
      Valid() && me in txns && txns[me] == Txn(q, Finished(r)) &&
      match r
      case Claimed(p) => p < |rows| && rows[p].status.Running? && rows[p].lockedBy == Some(me)
      case NothingQueued => true
      case LockUnavailable => strategy.NoWait?
      case _ => false
    }

    /** Look at the next row of the snapshot: take it, pass over it, or give up. */
    method InspectRow(me: Tid, q: seq<nat>, strategy: Strategy, i: nat) returns (r: Option<Result>)
      requires Valid() && me in txns && txns[me] == Txn(q, Scanning(strategy, i)) && i < |q|
      modifies this
      ensures old(history) <= history
      ensures r.None? ==> Valid() && me in txns && txns[me] == Txn(q, Scanning(strategy, i + 1))
      ensures r.None? ==> q[i] < |rows| && PassedBy(rows[q[i]], me, strategy)
      ensures r.Some? ==> ClaimEnded(me, q, strategy, r.value) && r.value in {Claimed(q[i]), LockUnavailable}
      ensures r == Some(LockUnavailable) ==> q[i] < |rows| && LockedByOther(rows[q[i]], me)
    {
      r := None;
      Await(me);
      var p := q[i];
      if LockedByOther(rows[p], me) && strategy.Blocking? { AwaitRow(me, p); }
      if LockedByOther(rows[p], me) {
        if strategy.NoWait? {
          Advance(me, Release(rows, me), Finished(LockUnavailable), Inspect(me));
          return Some(LockUnavailable);
        }
        Advance(me, rows, Scanning(strategy, i + 1), Inspect(me));
      } else if rows[p].status.Queued? {
        Advance(me, rows[p := rows[p].(lock := Some(me))], Holding(p), Inspect(me));
        SetRunning(me, q, strategy, p);
        return Some(Claimed(p));
      } else {
        Advance(me, rows[p := rows[p].(lock := Some(me))], Scanning(strategy, i + 1), Inspect(me));
      }
    }

    /** The row was skipped because it is another's, or it is locked now and turned out not to be QUEUED. */
    ghost predicate PassedBy(row: Row, me: Tid, strategy: Strategy) {
      (strategy.SkipLocked? && LockedByOther(row, me)) || (row.lock == Some(me) && !row.status.Queued?)
    }

    method SetRunning(me: Tid, q: seq<nat>, strategy: Strategy, p: nat)
      requires Valid() && me in txns && txns[me] == Txn(q, Holding(p))
      modifies this
      ensures old(history) <= history && ClaimEnded(me, q, strategy, Claimed(p))
    {
      Await(me);
      var taken := rows[p].(status := Running, lockedBy := Some(me));
      Advance(me, Release(rows[p := taken], me), Finished(Claimed(p)), Commit(me));
    }

    /** Claim the oldest queued job: scan the snapshot, lock, recheck, set RUNNING, commit. */
    method Claim(me: Tid, strategy: Strategy) returns (r: Result)
      requires Valid() && me !in txns
      modifies this
      ensures old(history) <= history && ClaimEnded(me, QueuedPositions(old(rows)), strategy, r)
      ensures IsFirstFree(history, me, QueuedPositions(old(rows)), strategy, r)
    {
      var q := QueuedPositions(rows);
      txns := txns[me := Txn(q, Scanning(strategy, 0))];
      history := history + [JobQueue.Claim(me, strategy)];
      r := Scan(me, q, strategy);
      ClaimIsHonest(old(history), history, me, q, strategy, r);
    }

    /** Row by row, until one ends the claim or there are no more. */
    method Scan(me: Tid, q: seq<nat>, strategy: Strategy) returns (r: Result)
      requires Valid() && me in txns && txns[me] == Txn(q, Scanning(strategy, 0))
      modifies this
      ensures old(history) <= history && ClaimEnded(me, q, strategy, r)
    {
      var i := 0;
      while i < |q|
        invariant Valid() && old(history) <= history && i <= |q|
        invariant me in txns && txns[me] == Txn(q, Scanning(strategy, i))
      {
        var end := InspectRow(me, q, strategy, i);
        if end.Some? { return end.value; }
        i := i + 1;
      }
      Advance(me, Release(rows, me), Finished(NothingQueued), Inspect(me));
      return NothingQueued;
    }
  }

  /** A claim that ends with `r` has passed over `p`. */
  predicate MustBePassed(r: Result, p: nat) {
    r.NothingQueued? || (r.Claimed? && p < r.position)
  }

  /**
    The claimed job was found unlocked and QUEUED, and all queued jobs before it, or all there were,
    were passed over for a reason; without SKIP LOCKED they are not QUEUED any more.
   */
  ghost predicate IsFirstFree(run: seq<Action>, me: Tid, q: seq<nat>, strategy: Strategy, r: Result) {
    (r.Claimed? ==> r.position in q && FoundFree(run, me, r.position)) &&
    forall p :: p in q && MustBePassed(r, p) ==>
      Excused(run, me, p) &&
      (!strategy.SkipLocked? ==> p < |Run(EMPTY, run).rows| && !Run(EMPTY, run).rows[p].status.Queued?)
  }

  lemma ClaimIsHonest(before: seq<Action>, run: seq<Action>, me: Tid, q: seq<nat>, strategy: Strategy, r: Result)
    requires before + [JobQueue.Claim(me, strategy)] <= run
    requires me !in Run(EMPTY, before).txns && q == QueuedPositions(Run(EMPTY, before).rows)
    requires me in Run(EMPTY, run).txns && Run(EMPTY, run).txns[me] == Txn(q, Finished(r))
    ensures IsFirstFree(run, me, q, strategy, r)
  {
    ScansAreHonest(run, me);
    assert run[..|before|] == before && run[|before|] == JobQueue.Claim(me, strategy);
    if r.Claimed? { ClaimsTakeTheFirstFree(run, me, r.position); }
    forall p | p in q && MustBePassed(r, p) && !strategy.SkipLocked?
      ensures p < |Run(EMPTY, run).rows| && !Run(EMPTY, run).rows[p].status.Queued?
    {
      assert Excused(run, me, p);
      PassedOverIsGone(run, |before|, me, strategy, p);
    }
  }
}
