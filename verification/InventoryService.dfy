/**
  The reservation service as the code runs it: statements that change the database in
  place, with any number of other requests' steps at every await.  Every method is a run
  of the step machine: `Valid()` says that the fields are exactly what `history` produces.
 */
module InventoryService {
  import opened InventoryModel
  import opened InventoryRefinement
  import opened InventoryProgress

  /** Whatever a request has locked stays locked, by it, until it commits or rolls back. */
  predicate OwnsRow(s: State, r: Rid) {
    r in s.requests &&
    var q := s.requests[r];
    q.pid in s.rows && s.rows[q.pid].lock.Held? && s.rows[q.pid].lock.owner == r
  }

  predicate MustOwn(q: Request) {
    q.pc.Written? || q.pc.Recorded? || (q.pc.Checked? && q.strategy.Pessimistic?)
  }

  predicate LocksKept(s: State) {
    (forall r :: r in s.requests && MustOwn(s.requests[r]) ==> OwnsRow(s, r)) &&
    (forall p :: p in s.rows ==> LockOwned(s, p))
  }

  predicate LockOwned(s: State, p: Pid)
    requires p in s.rows
  {
    s.rows[p].lock.Held? ==>
      var o := s.rows[p].lock.owner;
      o in s.requests && s.requests[o].pid == p && MustOwn(s.requests[o])
  }

  /** A statement touches its own frame and its own row, and the row only if nobody else has locked it. */
  predicate TouchesOwn(s: State, t: State, r: Rid)
    requires r in s.requests
  {
    var p := s.requests[r].pid;
    r in t.requests && t.requests == s.requests[r := t.requests[r]] && t.requests[r].pid == p &&
    t.rows.Keys == s.rows.Keys && t.now == s.now &&
    (forall o :: o in s.rows && o != p ==> t.rows[o] == s.rows[o]) &&
    (p in s.rows ==> t.rows[p] == s.rows[p] || (Mine(s.rows[p].lock, r) && Mine(t.rows[p].lock, r)))
  }

  lemma DoTouchesOwn(s: State, r: Rid, statement: Statement)
    requires r in s.requests && (MustOwn(s.requests[r]) ==> OwnsRow(s, r))
    ensures TouchesOwn(s, DoStep(s, r, statement), r)
  {
    match statement
    case Select =>
    case Update =>
    case Commit(_) =>
    case Abort =>
    case Crash =>
    case _ =>
  }

  /** `r` has locked its row exactly where it must have. */
  predicate OwnLockOk(s: State, r: Rid)
    requires r in s.requests
  {
    (MustOwn(s.requests[r]) ==> OwnsRow(s, r)) && (OwnsRow(s, r) ==> MustOwn(s.requests[r]))
  }

  lemma DoKeepsOwnLock(s: State, r: Rid, statement: Statement)
    requires r in s.requests && OwnLockOk(s, r)
    ensures r in DoStep(s, r, statement).requests && OwnLockOk(DoStep(s, r, statement), r)
  {
    match statement
    case Select =>
    case Update =>
    case Commit(_) =>
    case Abort =>
    case Crash =>
    case _ =>
  }

  lemma OwnStepKeepsLocks(s: State, t: State, r: Rid)
    requires LocksKept(s) && r in s.requests && TouchesOwn(s, t, r) && OwnLockOk(t, r)
    ensures LocksKept(t)
  {
    forall o | o in t.requests && MustOwn(t.requests[o]) ensures OwnsRow(t, o) {
      assert o != r ==> OwnsRow(s, o);
    }
    forall p | p in t.rows ensures LockOwned(t, p) {
      assert LockOwned(s, p);
    }
  }

  lemma DoKeepsLocks(s: State, r: Rid, statement: Statement)
    requires LocksKept(s) && r in s.requests
    ensures LocksKept(DoStep(s, r, statement))
  {
    if s.requests[r].pid in s.rows { assert LockOwned(s, s.requests[r].pid); }
    DoTouchesOwn(s, r, statement);
    DoKeepsOwnLock(s, r, statement);
    OwnStepKeepsLocks(s, DoStep(s, r, statement), r);
  }

  /** A step of another request changes neither my frame nor a row that I have locked. */
  lemma OthersSpareMe(s: State, a: Action, me: Rid)
    requires LocksKept(s) && (a.Tick? || a.who != me) && me in s.requests
    ensures var t := Step(s, a);
      me in t.requests && t.requests[me] == s.requests[me] && t.rows.Keys == s.rows.Keys && s.now <= t.now &&
      (OwnsRow(s, me) ==> t.rows[s.requests[me].pid] == s.rows[s.requests[me].pid])
  {
    if a.Do? && a.who in s.requests { DoTouchesOwn(s, a.who, a.statement); }
  }

  lemma {:induction false} RunKeepsLocks(stock: map<Pid, int>, run: seq<Action>)
    ensures LocksKept(Run(Init(stock), run))
  {
    if run != [] {
      var s, a := Run(Init(stock), run[..|run| - 1]), run[|run| - 1];
      RunKeepsLocks(stock, run[..|run| - 1]);
      if a.Do? && a.who in s.requests {
        DoKeepsLocks(s, a.who, a.statement);
      } else {
        forall o | o in Step(s, a).requests && MustOwn(Step(s, a).requests[o]) ensures OwnsRow(Step(s, a), o) {
          assert OwnsRow(s, o);
        }
        forall p | p in Step(s, a).rows ensures LockOwned(Step(s, a), p) {
          assert LockOwned(s, p);
        }
      }
    }
  }

  predicate OthersOnly(run: seq<Action>, me: Rid) {
    forall i :: 0 <= i < |run| ==> run[i].Tick? || run[i].who != me
  }

  lemma {:induction false} OthersRunSparesMe(stock: map<Pid, int>, before: seq<Action>, run: seq<Action>, me: Rid)
    requires OthersOnly(run, me) && me in Run(Init(stock), before).requests
    ensures var s, t := Run(Init(stock), before), Run(Init(stock), before + run);
      me in t.requests && t.requests[me] == s.requests[me] && t.rows.Keys == s.rows.Keys && s.now <= t.now &&
      (OwnsRow(s, me) ==> t.rows[s.requests[me].pid] == s.rows[s.requests[me].pid])
  {
    if run == [] {
      assert before + run == before;
    } else {
      var front, a := run[..|run| - 1], run[|run| - 1];
      OthersRunSparesMe(stock, before, front, me);
      RunKeepsLocks(stock, before + front);
      assert (before + run)[..|before + run| - 1] == before + front;
      assert Run(Init(stock), before + run) == Step(Run(Init(stock), before + front), a);
      OthersSpareMe(Run(Init(stock), before + front), a, me);
    }
  }

  class Database {
    var rows: map<Pid, Cell>
    var reservations: seq<Reservation>
    var leases: map<Pid, Lease>
    var now: int
    var requests: map<Rid, Request>
    const mayFail: bool                  // whether statements can raise
    ghost const stock: map<Pid, int>     // stock before any request
    ghost var history: seq<Action>

    ghost function View(): State
      reads this
    {
      State(rows, reservations, leases, now, requests)
    }

    ghost predicate Valid()
      reads this
    {
      View() == Run(Init(stock), history)
    }

    constructor (stock: map<Pid, int>, mayFail: bool)
      ensures Valid() && history == [] && this.stock == stock && this.mayFail == mayFail
    {
      rows := map p | p in stock :: Cell(Row(stock[p], FIRST_VERSION), Free);
      reservations, leases, now, requests := [], map[], 0, map[];
      this.stock, this.mayFail, history := stock, mayFail, [];
    }

    /** Time passes and other requests run; the awaited statement may raise (`!ok`). */
    method Await(me: Rid, atLeast: nat := 0) returns (ok: bool)
      requires Valid() && me in requests
      modifies this
      ensures Valid() && old(history) <= history && OthersOnly(history[|old(history)|..], me)
      ensures me in requests && requests[me] == old(requests[me]) && rows.Keys == old(rows.Keys)
      ensures old(OwnsRow(View(), me)) ==> rows[requests[me].pid] == old(rows[requests[me].pid])
      ensures MustOwn(requests[me]) ==> OwnsRow(View(), me)
      ensures now >= old(now) + atLeast
      ensures !ok ==> mayFail
    {
      var run: seq<Action> := *;
      if !OthersOnly(run, me) { run := []; }
      ghost var before := history;
      OthersRunSparesMe(stock, before, run, me);
      RunConcat(Init(stock), before, run);
      Become(Run(State(rows, reservations, leases, now, requests), run));
      history := before + run;
      now := now + atLeast;
      assert (before + run + [Tick(atLeast)])[..|before + run|] == before + run;
      history := before + run + [Tick(atLeast)];
      assert history[|before|..] == run + [Tick(atLeast)];
      RunKeepsLocks(stock, history);
      ok := *;
      ok := ok || !mayFail;
    }

    method Become(s: State)
      modifies `rows, `reservations, `leases, `now, `requests
      ensures State(rows, reservations, leases, now, requests) == s
    {
      rows, reservations, leases, now, requests := s.rows, s.reservations, s.leases, s.now, s.requests;
    }

    /** Awaits a row lock that another transaction holds until that transaction is over. */
    method AwaitRow(me: Rid, pid: Pid) returns (ok: bool)
      requires Valid() && me in requests && pid in rows && requests[me].pid == pid
      modifies this
      ensures Valid() && old(history) <= history && OthersOnly(history[|old(history)|..], me)
      ensures me in requests && requests[me] == old(requests[me]) && rows.Keys == old(rows.Keys)
      ensures rows[pid].lock.Held? ==> rows[pid].lock.owner == me
      ensures MustOwn(requests[me]) ==> OwnsRow(View(), me)
      ensures !ok ==> mayFail
    {
      ok := Await(me);
      if rows[pid].lock.Held? && rows[pid].lock.owner != me { OutliveHolder(me, pid); }
    }

    /** The holder's transaction is over at the latest when its process dies. */
    method OutliveHolder(me: Rid, pid: Pid)
      requires Valid() && me in requests && pid in rows && requests[me].pid == pid
      requires MustOwn(requests[me]) ==> OwnsRow(View(), me)
      requires rows[pid].lock.Held? && rows[pid].lock.owner != me
      modifies this
      ensures Valid() && old(history) <= history && OthersOnly(history[|old(history)|..], me)
      ensures me in requests && requests[me] == old(requests[me]) && rows.Keys == old(rows.Keys)
      ensures rows[pid].lock.Free? && (MustOwn(requests[me]) ==> OwnsRow(View(), me))
    {
      RunKeepsLocks(stock, history);
      assert LockOwned(View(), pid);
      var owner := rows[pid].lock.owner;
      OthersSpareMe(View(), Do(owner, Crash), me);
      ghost var before := history;
      Become(CrashStep(State(rows, reservations, leases, now, requests), owner));
      history := before + [Do(owner, Crash)];
      assert history[..|before|] == before;
    }

    /** `me` moves on to `pc`: together with the changes just made, that is the step `a`. */
    method Advance(me: Rid, pc: Pc, ghost a: Action)
      requires me in requests
      requires Step(Run(Init(stock), history), a) == Goto(View(), me, pc)
      modifies `requests, `history
      ensures Valid() && history == old(history) + [a]
      ensures requests == old(requests)[me := old(requests)[me].(pc := pc)]
    {
      requests := requests[me := requests[me].(pc := pc)];
      history := history + [a];
    }
  }

  // ---------------------------------------------------------------- the service's methods

  /** The call `c` is over, with `o`; only a failing statement aborts it. */
  ghost predicate Ended(db: Database, c: Call, o: Outcome)
    reads db
  {
    db.Valid() && c.id in db.requests && CallOf(c.id, db.requests[c.id]) == c &&
    db.requests[c.id].pc == Finished(o) && (o.Aborted? || o.Unheard? ==> db.mayFail)
  }

  /** The call `c` is at `pc`. */
  ghost predicate At(db: Database, c: Call, pc: Pc)
    reads db
  {
    db.Valid() && c.id in db.requests && CallOf(c.id, db.requests[c.id]) == c && db.requests[c.id].pc == pc
  }

  method Open(db: Database, c: Call)
    requires db.Valid() && c.id !in db.requests
    modifies db
    ensures At(db, c, if c.strategy.Locked? then Acquiring(db.now + LOCK_TIMEOUT) else Begin(0))
    ensures db.history == old(db.history) + [Start(c.id, c.pid, c.quantity, c.strategy)]
    ensures db.rows == old(db.rows) && db.now == old(db.now)
  {
    var pc := if c.strategy.Locked? then Acquiring(db.now + LOCK_TIMEOUT) else Begin(0);
    db.requests := db.requests[c.id := Request(c.pid, c.quantity, c.strategy, db.now, pc)];
    db.history := db.history + [Start(c.id, c.pid, c.quantity, c.strategy)];
  }

  /** An exception inside the transaction: roll back. */
  method Fail(db: Database, c: Call)
    requires db.Valid() && db.mayFail && c.id in db.requests && CallOf(c.id, db.requests[c.id]) == c
    requires InTransaction(db.requests[c.id].pc)
    modifies db
    ensures At(db, c, if c.strategy.Locked? then Releasing(Aborted) else Finished(Aborted))
    ensures old(db.history) <= db.history
  {
    ghost var s := db.View();
    if c.pid in db.rows && db.rows[c.pid].lock.Held? && db.rows[c.pid].lock.owner == c.id {
      db.rows := db.rows[c.pid := db.rows[c.pid].(lock := Free)];
    }
    assert Step(s, Do(c.id, Abort)) == AbortStep(s, c.id);
    db.Advance(c.id, if c.strategy.Locked? then Releasing(Aborted) else Finished(Aborted), Do(c.id, Abort));
  }

  /** Insert the reservation row and commit. */
  method RecordAndCommit(db: Database, c: Call) returns (o: Outcome)
    requires At(db, c, Written)
    modifies db
    ensures At(db, c, if c.strategy.Locked? then Releasing(o) else Finished(o))
    ensures o.Reserved? || ((o.Aborted? || o.Unheard?) && db.mayFail)
    ensures old(db.history) <= db.history
  {
    var ok := db.Await(c.id);
    if !ok { Fail(db, c); return Aborted; }
    assert Step(db.View(), Do(c.id, Insert)) == Goto(db.View(), c.id, Recorded);
    db.Advance(c.id, Recorded, Do(c.id, Insert));
    o := Publish(db, c);
  }

  /** COMMIT: the new row and the reservation become visible together; the reply may get lost. */
  method Publish(db: Database, c: Call) returns (o: Outcome)
    requires At(db, c, Recorded)
    modifies db
    ensures At(db, c, if c.strategy.Locked? then Releasing(o) else Finished(o))
    ensures o.Reserved? || ((o.Aborted? || o.Unheard?) && db.mayFail)
    ensures old(db.history) <= db.history
  {
    var ok := db.Await(c.id);
    if !ok { Fail(db, c); return Aborted; }
    var lost: bool := *;
    o := if lost && db.mayFail then Unheard else Reserved;
    ghost var s := db.View();
    db.rows := db.rows[c.pid := Cell(db.rows[c.pid].lock.row, Free)];
    db.reservations := db.reservations + [Reservation(c.id, c.pid, c.quantity)];
    assert Step(s, Do(c.id, Commit(o.Reserved?))) == CommitStep(s, c.id, o.Reserved?);
    db.Advance(c.id, if c.strategy.Locked? then Releasing(o) else Finished(o), Do(c.id, Commit(o.Reserved?)));
  }

  /** The UPDATE found its row: take the row lock with the new row, record, commit. */
  method WriteAndCommit(db: Database, c: Call, row: Row) returns (o: Outcome)
    requires db.Valid() && c.id in db.requests && CallOf(c.id, db.requests[c.id]) == c
    requires c.pid in db.rows && ReadyToUpdate(db.requests[c.id]) && Matches(db.requests[c.id], db.rows[c.pid].row)
    requires db.rows[c.pid].lock.Held? ==> db.rows[c.pid].lock.owner == c.id
    requires row == NewRow(db.requests[c.id], db.rows[c.pid].row)
    modifies db
    ensures At(db, c, if c.strategy.Locked? then Releasing(o) else Finished(o))
    ensures o.Reserved? || ((o.Aborted? || o.Unheard?) && db.mayFail)
    ensures old(db.history) <= db.history
  {
    ghost var s := db.View();
    db.rows := db.rows[c.pid := db.rows[c.pid].(lock := Held(c.id, row))];
    assert Step(s, Do(c.id, Update)) == UpdateStep(s, c.id);
    db.Advance(c.id, Written, Do(c.id, Update));
    o := RecordAndCommit(db, c);
  }

  /** One attempt of the optimistic strategy: None when the compare-and-swap found a newer version. */
  method TryOptimistic(db: Database, c: Call, attempt: nat) returns (o: Outcome, retry: bool)
    requires At(db, c, Begin(attempt)) && c.strategy.Optimistic? && attempt < MAX_OPTIMISTIC_ATTEMPTS
    modifies db
    ensures retry ==> At(db, c, Begin(attempt + 1)) && attempt + 1 < MAX_OPTIMISTIC_ATTEMPTS
    ensures !retry ==> Ended(db, c, o)
    ensures old(db.history) <= db.history
  {
    retry := false;
    var ok := db.Await(c.id);
    if !ok { Fail(db, c); return Aborted, false; }
    assert Step(db.View(), Do(c.id, Select)) == SelectStep(db.View(), c.id);
    if c.pid !in db.rows {
      db.Advance(c.id, Finished(NotFound), Do(c.id, Select));
      return NotFound, false;
    }
    var row := db.rows[c.pid].row;
    if row.stock < c.quantity {
      db.Advance(c.id, Finished(NotEnough), Do(c.id, Select));
      return NotEnough, false;
    }
    db.Advance(c.id, Checked(attempt, row), Do(c.id, Select));
    o, retry := CompareAndSwap(db, c, attempt, row);
  }

  /** UPDATE ... WHERE version = seen.version; a lost race costs one attempt. */
  method CompareAndSwap(db: Database, c: Call, attempt: nat, seen: Row) returns (o: Outcome, retry: bool)
    requires At(db, c, Checked(attempt, seen)) && c.strategy.Optimistic? && c.pid in db.rows
    modifies db
    ensures retry ==> At(db, c, Begin(attempt + 1)) && attempt + 1 < MAX_OPTIMISTIC_ATTEMPTS
    ensures !retry ==> Ended(db, c, o)
    ensures old(db.history) <= db.history
  {
    retry := false;
    var ok := db.Await(c.id);
    if ok && db.rows[c.pid].row.version == seen.version {
      ok := db.AwaitRow(c.id, c.pid);
    }
    if !ok { Fail(db, c); return Aborted, false; }
    if db.rows[c.pid].row.version == seen.version {
      o := WriteAndCommit(db, c, Row(seen.stock - c.quantity, NextVersion(seen.version)));
    } else {
      o, retry := LoseRace(db, c, attempt, seen);
    }
  }

  /** No row matched: try again, unless this was the last attempt. */
  method LoseRace(db: Database, c: Call, attempt: nat, seen: Row) returns (o: Outcome, retry: bool)
    requires At(db, c, Checked(attempt, seen)) && c.strategy.Optimistic? && c.pid in db.rows
    requires db.rows[c.pid].row.version != seen.version
    modifies db
    ensures retry ==> At(db, c, Begin(attempt + 1)) && attempt + 1 < MAX_OPTIMISTIC_ATTEMPTS
    ensures !retry ==> Ended(db, c, o)
    ensures o.Conflict? && old(db.history) <= db.history
  {
    assert Step(db.View(), Do(c.id, Update)) == UpdateStep(db.View(), c.id);
    o, retry := Conflict, ShouldRetry(attempt, MAX_OPTIMISTIC_ATTEMPTS);
    db.Advance(c.id, if retry then Begin(attempt + 1) else Finished(Conflict), Do(c.id, Update));
  }

  method ReserveOptimistic(db: Database, c: Call) returns (o: Outcome)
    requires db.Valid() && c.id !in db.requests && c.strategy.Optimistic?
    modifies db
    ensures Ended(db, c, o) && old(db.history) <= db.history
  {
    Open(db, c);
    var attempt := 0;
    while true
      invariant attempt < MAX_OPTIMISTIC_ATTEMPTS && At(db, c, Begin(attempt)) && old(db.history) <= db.history
      decreases MAX_OPTIMISTIC_ATTEMPTS - attempt
    {
      var retry;
      o, retry := TryOptimistic(db, c, attempt);
      if !retry { return; }
      attempt := attempt + 1;
    }
  }

  method ReservePessimistic(db: Database, c: Call) returns (o: Outcome)
    requires db.Valid() && c.id !in db.requests && c.strategy.Pessimistic?
    modifies db
    ensures Ended(db, c, o) && old(db.history) <= db.history
  {
    Open(db, c);
    var ok := db.Await(c.id);
    if ok && c.pid in db.rows { ok := db.AwaitRow(c.id, c.pid); }
    if !ok { Fail(db, c); return Aborted; }
    o := LockedRow(db, c);
  }

  /** The row is ours or nobody's: SELECT ... FOR UPDATE, check, write. */
  method LockedRow(db: Database, c: Call) returns (o: Outcome)
    requires At(db, c, Begin(0)) && c.strategy.Pessimistic?
    requires c.pid in db.rows && db.rows[c.pid].lock.Held? ==> db.rows[c.pid].lock.owner == c.id
    modifies db
    ensures Ended(db, c, o) && old(db.history) <= db.history
  {
    ghost var s := db.View();
    RunKeepsLocks(db.stock, db.history);
    assert c.pid in db.rows ==> LockOwned(s, c.pid);
    assert Step(s, Do(c.id, Select)) == SelectStep(s, c.id);
    if c.pid !in db.rows {
      db.Advance(c.id, Finished(NotFound), Do(c.id, Select));
      return NotFound;
    }
    var row := db.rows[c.pid].row;
    if row.stock < c.quantity {
      db.Advance(c.id, Finished(NotEnough), Do(c.id, Select));
      return NotEnough;
    }
    db.rows := db.rows[c.pid := db.rows[c.pid].(lock := Held(c.id, row))];
    db.Advance(c.id, Checked(0, row), Do(c.id, Select));
    o := DecrementLocked(db, c, row);
  }

  /** `product.stock -= quantity`, under the lock taken with the read. */
  method DecrementLocked(db: Database, c: Call, seen: Row) returns (o: Outcome)
    requires At(db, c, Checked(0, seen)) && c.strategy.Pessimistic?
    modifies db
    ensures Ended(db, c, o) && old(db.history) <= db.history
  {
    var ok := db.Await(c.id);
    if !ok { Fail(db, c); return Aborted; }
    assert OwnsRow(db.View(), c.id);
    var cell := db.rows[c.pid];
    o := WriteAndCommit(db, c, cell.row.(stock := seen.stock - c.quantity));
  }

  method ReserveAtomic(db: Database, c: Call) returns (o: Outcome)
    requires db.Valid() && c.id !in db.requests && c.strategy.Atomic?
    modifies db
    ensures Ended(db, c, o) && old(db.history) <= db.history
  {
    Open(db, c);
    var ok := db.Await(c.id);
    if ok && c.pid in db.rows && db.rows[c.pid].row.stock >= c.quantity { ok := db.AwaitRow(c.id, c.pid); }
    if !ok { Fail(db, c); return Aborted; }
    assert Step(db.View(), Do(c.id, Update)) == UpdateStep(db.View(), c.id);
    if c.pid !in db.rows || db.rows[c.pid].row.stock < c.quantity {
      db.Advance(c.id, Finished(NotEnough), Do(c.id, Update));
      return NotEnough;
    }
    var cell := db.rows[c.pid];
    o := WriteAndCommit(db, c, cell.row.(stock := cell.row.stock - c.quantity));
  }

  /** `DistributedLock.acquire`: poll SET NX until it succeeds or the deadline has passed. */
  method AcquireLease(db: Database, c: Call, deadline: int) returns (acquired: bool)
    requires At(db, c, Acquiring(deadline)) && c.strategy.Locked?
    modifies db
    ensures old(db.history) <= db.history
    ensures acquired ==> At(db, c, Begin(0)) && db.requests[c.id].leaseEnd == db.now + LEASE_TTL
    ensures acquired ==> c.pid in db.leases && db.leases[c.pid] == Lease(c.id, db.now + LEASE_TTL)
    ensures !acquired ==> Ended(db, c, Unavailable) && db.now >= deadline
  {
    while true
      invariant At(db, c, Acquiring(deadline)) && old(db.history) <= db.history
      decreases deadline - db.now
    {
      ghost var s := db.View();
      assert Step(s, Do(c.id, Poll)) == PollStep(s, c.id);
      if c.pid !in db.leases || db.leases[c.pid].expires < db.now {
        db.leases := db.leases[c.pid := Lease(c.id, db.now + LEASE_TTL)];
        db.requests := db.requests[c.id := db.requests[c.id].(leaseEnd := db.now + LEASE_TTL, pc := Begin(0))];
        db.history := db.history + [Do(c.id, Poll)];
        return true;
      }
      if db.now >= deadline {
        db.Advance(c.id, Finished(Unavailable), Do(c.id, Poll));
        return false;
      }
      db.history := db.history + [Do(c.id, Poll)];
      var _ := db.Await(c.id, POLL_INTERVAL);
    }
  }

  /** `DistributedLock.release`: delete the lease if it still carries our token. */
  method ReleaseLease(db: Database, c: Call, o: Outcome)
    requires At(db, c, Releasing(o)) && (o.Aborted? || o.Unheard? ==> db.mayFail)
    modifies db
    ensures Ended(db, c, o) && old(db.history) <= db.history
    ensures forall p :: p in old(db.leases) && old(db.leases)[p].token != c.id ==>
      p in db.leases && db.leases[p] == old(db.leases)[p]
    ensures c.pid in db.leases ==> db.leases[c.pid].token != c.id
  {
    ghost var s := db.View();
    if c.pid in db.leases && db.leases[c.pid].token == c.id {
      db.leases := db.leases - {c.pid};
    }
    assert Step(s, Do(c.id, Release)) == ReleaseStep(s, c.id);
    db.Advance(c.id, Finished(o), Do(c.id, Release));
  }

  method ReserveDistributedLock(db: Database, c: Call) returns (o: Outcome)
    requires db.Valid() && c.id !in db.requests && c.strategy.Locked?
    modifies db
    ensures Ended(db, c, o) && old(db.history) <= db.history
  {
    Open(db, c);
    var acquired := AcquireLease(db, c, db.now + LOCK_TIMEOUT);
    if !acquired { return Unavailable; }
    o := ReadModifyWrite(db, c);
    var _ := db.Await(c.id);
    ReleaseLease(db, c, o);
  }

  /** The unguarded read-check-write that the naive and the locked strategies share. */
  method ReadModifyWrite(db: Database, c: Call) returns (o: Outcome)
    requires At(db, c, Begin(0)) && (c.strategy.Locked? || c.strategy.Naive?)
    modifies db
    ensures At(db, c, if c.strategy.Locked? then Releasing(o) else Finished(o)) &&
      (o.Aborted? || o.Unheard? ==> db.mayFail)
    ensures old(db.history) <= db.history
  {
    var ok := db.Await(c.id);
    if !ok { Fail(db, c); return Aborted; }
    assert Step(db.View(), Do(c.id, Select)) == SelectStep(db.View(), c.id);
    if c.pid !in db.rows {
      db.Advance(c.id, if c.strategy.Locked? then Releasing(NotFound) else Finished(NotFound), Do(c.id, Select));
      return NotFound;
    }
    var seen := db.rows[c.pid].row;
    if seen.stock < c.quantity {
      db.Advance(c.id, if c.strategy.Locked? then Releasing(NotEnough) else Finished(NotEnough), Do(c.id, Select));
      return NotEnough;
    }
    db.Advance(c.id, Checked(0, seen), Do(c.id, Select));
    o := WriteBack(db, c, seen);
  }

  method WriteBack(db: Database, c: Call, seen: Row) returns (o: Outcome)
    requires At(db, c, Checked(0, seen)) && (c.strategy.Locked? || c.strategy.Naive?) && c.pid in db.rows
    modifies db
    ensures At(db, c, if c.strategy.Locked? then Releasing(o) else Finished(o)) &&
      (o.Aborted? || o.Unheard? ==> db.mayFail)
    ensures old(db.history) <= db.history
  {
    var ok := db.AwaitRow(c.id, c.pid);
    if !ok { Fail(db, c); return Aborted; }
    o := WriteAndCommit(db, c, db.rows[c.pid].row.(stock := seen.stock - c.quantity));
  }

  method ReserveNaive(db: Database, c: Call) returns (o: Outcome)
    requires db.Valid() && c.id !in db.requests && c.strategy.Naive?
    modifies db
    ensures Ended(db, c, o) && old(db.history) <= db.history
  {
    Open(db, c);
    o := ReadModifyWrite(db, c);
  }

  lemma Receipt(db: Database, c: Call, o: Outcome)
    requires Ended(db, c, o)
    ensures o.Reserved? || o.Unheard? <==> Reservation(c.id, c.pid, c.quantity) in db.reservations
  {
    RunsRecordWinners(db.stock, db.history);
    if o.Reserved? || o.Unheard? { assert Won(db.View(), c.id) && RowOf(db.View(), c.id) in db.reservations; }
  }

  lemma ConflictMeansOthersWon(db: Database, c: Call, before: seq<Action>)
    requires Ended(db, c, Conflict) && before <= db.history
    requires Uses(db.history, {Optimistic}) && c.pid in db.stock
    requires c.id !in Run(Init(db.stock), before).requests
    ensures |WinnersOf(db.reservations, c.pid) - WinnersOf(Run(Init(db.stock), before).reservations, c.pid)|
      >= MAX_OPTIMISTIC_ATTEMPTS
  {
    var rest := db.history[|before|..];
    assert before + rest == db.history;
    GivingUpMeansOthersWon(db.stock, before, rest, c.id, c.pid);
  }

  /**
    The dispatch on the strategy.  A success leaves exactly this call's row behind, and an
    optimistic call that gives up has watched enough others win while it ran.
   */
  method ReserveProduct(db: Database, c: Call) returns (o: Outcome)
    requires db.Valid() && c.id !in db.requests
    modifies db
    ensures Ended(db, c, o) && old(db.history) <= db.history
    ensures o.Reserved? || o.Unheard? <==> Reservation(c.id, c.pid, c.quantity) in db.reservations
    ensures o.Conflict? && Uses(db.history, {Optimistic}) && c.pid in db.stock ==>
      |WinnersOf(db.reservations, c.pid) - WinnersOf(old(db.reservations), c.pid)| >= MAX_OPTIMISTIC_ATTEMPTS
  {
    ghost var before := db.history;
    match c.strategy {
      case Naive => o := ReserveNaive(db, c);
      case Optimistic => o := ReserveOptimistic(db, c);
      case Pessimistic => o := ReservePessimistic(db, c);
      case Atomic => o := ReserveAtomic(db, c);
      case Locked => o := ReserveDistributedLock(db, c);
    }
    Receipt(db, c, o);
    if o.Conflict? && Uses(db.history, {Optimistic}) && c.pid in db.stock {
      ConflictMeansOthersWon(db, c, before);
    }
  }
}
