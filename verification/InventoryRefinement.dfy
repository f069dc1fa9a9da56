/**
  The reservation strategies refine the one-step service `Reserve`.

  Three families of runs are safe, each for its own reason: optimistic requests alone
  (a remembered version that still matches vouches for the remembered stock), any mix of
  pessimistic and atomic requests (the row lock covers the read), and locked requests
  alone as long as nobody outstays its lease (the lease covers the read).
 */
module InventoryRefinement {
  import opened InventoryModel

  datatype Family = ByVersion | ByRowLock | ByLease

  function StrategiesOf(f: Family): set<Strategy> {
    match f
    case ByVersion => {Optimistic}
    case ByRowLock => {Pessimistic, Atomic}
    case ByLease => {Locked}
  }

  predicate InTransaction(pc: Pc) {
    pc.Begin? || pc.Checked? || pc.Written? || pc.Recorded?
  }

  /** Every holder of the distributed lock is still inside its lease. */
  predicate Timely(s: State) {
    forall r :: r in s.requests && s.requests[r].strategy.Locked? && InTransaction(s.requests[r].pc)
      ==> s.now <= s.requests[r].leaseEnd
  }

  /** `Timely` holds all along the run; only the lease family needs it. */
  predicate TimelyRun(f: Family, s: State, run: seq<Action>) {
    f.ByLease? ==> forall k :: 0 <= k <= |run| ==> Timely(Run(s, run[..k]))
  }

  // ---------------------------------------------------------------- the invariant

  /** What a request that has read the stock may rely on, by family. */
  predicate RememberedOk(f: Family, s: State, r: Rid)
    requires r in s.requests && s.requests[r].pc.Checked?
  {
    var q := s.requests[r];
    q.pid in s.rows && q.pc.seen.stock >= q.quantity &&
    var c := s.rows[q.pid];
    match f
    case ByVersion =>
      q.pc.seen.version <= c.row.version &&
      (q.pc.seen.version == c.row.version ==> q.pc.seen.stock == c.row.stock)
    case ByRowLock => q.strategy.Pessimistic? && c.lock == Held(r, c.row) && q.pc.seen == c.row
    case ByLease => q.pc.seen.stock == c.row.stock
  }

  /** An uncommitted row takes exactly the request's quantity off the committed row. */
  predicate PendingOk(f: Family, s: State, r: Rid)
    requires r in s.requests
  {
    var q := s.requests[r];
    q.pid in s.rows &&
    var c := s.rows[q.pid];
    c.lock == Held(r, Row(c.row.stock - q.quantity, c.row.version + if f.ByVersion? then 1 else 0)) &&
    q.quantity <= c.row.stock
  }

  predicate RequestOk(f: Family, s: State, r: Rid)
    requires r in s.requests
  {
    var q := s.requests[r];
    q.strategy in StrategiesOf(f) &&
    (q.pc.Acquiring? || q.pc.Releasing? ==> f.ByLease?) &&
    (q.pc.Checked? ==> RememberedOk(f, s, r)) &&
    (q.pc.Written? || q.pc.Recorded? ==> PendingOk(f, s, r)) &&
    (f.ByLease? && InTransaction(q.pc) ==>
      q.pid in s.leases && s.leases[q.pid] == Lease(r, q.leaseEnd))
  }

  predicate LockOk(s: State, p: Pid)
    requires p in s.rows
  {
    s.rows[p].lock.Held? ==>
      var o := s.rows[p].lock.owner;
      o in s.requests && s.requests[o].pid == p &&
      var pc := s.requests[o].pc;
      pc.Written? || pc.Recorded? || (pc.Checked? && s.requests[o].strategy.Pessimistic?)
  }

  predicate Inv(f: Family, s: State) {
    (forall r :: r in s.requests ==> RequestOk(f, s, r)) &&
    (forall p :: p in s.rows ==> LockOk(s, p))
  }

  // ---------------------------------------------------------------- every step keeps it

  predicate Mine(l: RowLock, r: Rid) {
    l.Held? ==> l.owner == r
  }

  /**
    A step of `r` touches nobody else's frame, only a cell that `r` may lock, and the
    lease only when it is dead or `r`'s own; it changes a committed row only inside its
    transaction, and an optimistic commit bumps the version.
   */
  predicate OnlyBy(f: Family, s: State, t: State, r: Rid)
    requires r in s.requests
  {
    var q := s.requests[r];
    r in t.requests && t.requests == s.requests[r := t.requests[r]] && t.now == s.now &&
    t.requests[r].pid == q.pid &&
    t.rows.Keys == s.rows.Keys &&
    (forall p :: p in s.rows && p != q.pid ==> t.rows[p] == s.rows[p]) &&
    (q.pid in s.rows ==> MayChange(f, q, s.rows[q.pid], t.rows[q.pid], r)) &&
    (forall p :: p in s.leases && p != q.pid ==> p in t.leases && t.leases[p] == s.leases[p]) &&
    (LeaseLive(s, q.pid) && s.leases[q.pid].token != r ==>
      q.pid in t.leases && t.leases[q.pid] == s.leases[q.pid])
  }

  predicate MayChange(f: Family, q: Request, before: Cell, after: Cell, r: Rid) {
    before == after ||
    (Mine(before.lock, r) && Mine(after.lock, r) &&
     (before.row == after.row ||
      (InTransaction(q.pc) && (f.ByVersion? ==> before.row.version < after.row.version))))
  }

  lemma OthersStayOk(f: Family, s: State, t: State, r: Rid, o: Rid)
    requires Inv(f, s) && r in s.requests && o in s.requests && o != r
    requires f.ByLease? ==> Timely(s)
    requires OnlyBy(f, s, t, r)
    ensures RequestOk(f, t, o)
  {
    assert RequestOk(f, s, o) && RequestOk(f, s, r);
  }

  lemma KeepsInv(f: Family, s: State, t: State, r: Rid)
    requires Inv(f, s) && r in s.requests
    requires f.ByLease? ==> Timely(s)
    requires OnlyBy(f, s, t, r)
    requires RequestOk(f, t, r)
    requires s.requests[r].pid in t.rows ==> LockOk(t, s.requests[r].pid)
    ensures Inv(f, t)
  {
    forall o | o in t.requests ensures RequestOk(f, t, o) {
      if o != r { OthersStayOk(f, s, t, r, o); }
    }
    forall p | p in t.rows ensures LockOk(t, p) {
      assert LockOk(s, p);
    }
  }

  lemma UpdateIsOnlyBy(f: Family, s: State, r: Rid)
    requires r in s.requests && RequestOk(f, s, r)
    requires s.requests[r].pid in s.rows ==> LockOk(s, s.requests[r].pid)
    ensures OnlyBy(f, s, UpdateStep(s, r), r)
  {
  }

  lemma CommitIsOnlyBy(f: Family, s: State, r: Rid, heard: bool)
    requires r in s.requests && RequestOk(f, s, r)
    ensures OnlyBy(f, s, CommitStep(s, r, heard), r)
  {
  }

  lemma RollbackIsOnlyBy(f: Family, s: State, r: Rid)
    requires r in s.requests && RequestOk(f, s, r)
    requires s.requests[r].pid in s.rows ==> LockOk(s, s.requests[r].pid)
    ensures OnlyBy(f, s, AbortStep(s, r), r)
    ensures OnlyBy(f, s, CrashStep(s, r), r)
  {
    assert OnlyBy(f, s, Rollback(s, r), r);
  }

  lemma DoIsOnlyBy(f: Family, s: State, r: Rid, statement: Statement)
    requires r in s.requests && RequestOk(f, s, r)
    requires s.requests[r].pid in s.rows ==> LockOk(s, s.requests[r].pid)
    ensures OnlyBy(f, s, DoStep(s, r, statement), r)
  {
    match statement
    case Update => UpdateIsOnlyBy(f, s, r);
    case Commit(heard) => CommitIsOnlyBy(f, s, r, heard);
    case Abort => RollbackIsOnlyBy(f, s, r);
    case Crash => RollbackIsOnlyBy(f, s, r);
    case _ =>
  }

  lemma DoKeepsOwn(f: Family, s: State, r: Rid, statement: Statement)
    requires r in s.requests && RequestOk(f, s, r)
    requires s.requests[r].pid in s.rows ==> LockOk(s, s.requests[r].pid)
    ensures RequestOk(f, DoStep(s, r, statement), r)
  {
    match statement
    case Select =>
    case Update =>
    case Commit(_) =>
    case Abort =>
    case Crash =>
    case _ =>
  }

  lemma DoKeepsLock(f: Family, s: State, r: Rid, statement: Statement)
    requires r in s.requests && RequestOk(f, s, r)
    requires s.requests[r].pid in s.rows && LockOk(s, s.requests[r].pid)
    ensures s.requests[r].pid in DoStep(s, r, statement).rows
    ensures LockOk(DoStep(s, r, statement), s.requests[r].pid)
  {
    match statement
    case Select =>
    case Update =>
    case Commit(_) =>
    case Abort =>
    case Crash =>
    case _ =>
  }

  lemma StartKeepsInv(f: Family, s: State, a: Action)
    requires Inv(f, s)
    requires a.Start? ==> a.strategy in StrategiesOf(f)
    requires a.Do? ==> a.who !in s.requests
    ensures Inv(f, Step(s, a))
  {
    var t := Step(s, a);
    forall o | o in t.requests ensures RequestOk(f, t, o) {
      if o in s.requests { assert RequestOk(f, s, o); }
    }
    forall p | p in t.rows ensures LockOk(t, p) {
      assert LockOk(s, p);
    }
  }

  lemma StepKeepsInv(f: Family, s: State, a: Action)
    requires Inv(f, s)
    requires a.Start? ==> a.strategy in StrategiesOf(f)
    requires f.ByLease? ==> Timely(s)
    ensures Inv(f, Step(s, a))
  {
    if a.Do? && a.who in s.requests {
      var p := s.requests[a.who].pid;
      assert RequestOk(f, s, a.who) && (p in s.rows ==> LockOk(s, p));
      DoIsOnlyBy(f, s, a.who, a.statement);
      DoKeepsOwn(f, s, a.who, a.statement);
      if p in s.rows { DoKeepsLock(f, s, a.who, a.statement); }
      KeepsInv(f, s, Step(s, a), a.who);
    } else {
      StartKeepsInv(f, s, a);
    }
  }

  lemma {:induction false} RunKeepsInv(f: Family, stock: map<Pid, int>, run: seq<Action>)
    requires Uses(run, StrategiesOf(f)) && TimelyRun(f, Init(stock), run)
    ensures Inv(f, Run(Init(stock), run))
  {
    if run != [] {
      var front := run[..|run| - 1];
      TimelyPrefix(f, Init(stock), run);
      RunKeepsInv(f, stock, front);
      StepKeepsInv(f, Run(Init(stock), front), run[|run| - 1]);
    }
  }

  lemma TimelyPrefix(f: Family, s: State, run: seq<Action>)
    requires run != [] && TimelyRun(f, s, run)
    ensures TimelyRun(f, s, run[..|run| - 1])
    ensures f.ByLease? ==> Timely(Run(s, run[..|run| - 1]))
  {
    var front := run[..|run| - 1];
    forall k | 0 <= k <= |front| && f.ByLease? ensures Timely(Run(s, front[..k])) {
      assert front[..k] == run[..k];
    }
  }

  // ---------------------------------------------------------------- one step against `Reserve`

  /** An answer, once fixed, is never revised. */
  predicate AnswerStays(s: State, t: State, r: Rid) {
    Answered(s, r) ==>
      Answered(t, r) && t.requests[r].pc.outcome == s.requests[r].pc.outcome &&
      CallOf(r, t.requests[r]) == CallOf(r, s.requests[r])
  }

  lemma DoTouches(s: State, r: Rid, statement: Statement)
    requires r in s.requests
    ensures var t := DoStep(s, r, statement);
      r in t.requests && t.requests == s.requests[r := t.requests[r]] &&
      AnswerStays(s, t, r) && CallOf(r, t.requests[r]) == CallOf(r, s.requests[r])
  {
    match statement
    case Abort =>
    case Crash =>
    case _ =>
  }

  lemma AnswersStay(s: State, a: Action, r: Rid)
    ensures AnswerStays(s, Step(s, a), r)
  {
    if a.Do? && a.who in s.requests { DoTouches(s, a.who, a.statement); }
  }

  /** Only a commit publishes anything. */
  lemma OnlyCommitPublishes(s: State, r: Rid, statement: Statement)
    requires r in s.requests && !statement.Commit?
    ensures Committed(DoStep(s, r, statement)) == Committed(s)
  {
    match statement
    case Abort =>
    case Crash =>
    case _ =>
  }

  lemma CommitReserves(f: Family, s: State, r: Rid, heard: bool)
    requires r in s.requests && RequestOk(f, s, r)
    ensures var q, t := s.requests[r], CommitStep(s, r, heard);
      if q.pc.Recorded?
      then t.requests[r].pc == Leaving(q, if heard then Reserved else Unheard) &&
        (Committed(t), Reserved) == Reserve(Committed(s), CallOf(r, q))
      else t == s
  {
    var q, t := s.requests[r], CommitStep(s, r, heard);
    if q.pc.Recorded? {
      assert Committed(t).stock == Reserve(Committed(s), CallOf(r, q)).0.stock;
    }
  }

  /** Every other way to an answer is a refusal that the committed stock justifies at that instant. */
  lemma RefusalIsJustified(f: Family, s: State, r: Rid, statement: Statement)
    requires r in s.requests && RequestOk(f, s, r)
    requires !statement.Commit? && !Answered(s, r) && Answered(DoStep(s, r, statement), r)
    ensures (Committed(s), DoStep(s, r, statement).requests[r].pc.outcome) ==
      Reserve(Committed(s), CallOf(r, s.requests[r]))
  {
    match statement
    case Select =>
    case Update =>
    case _ =>
  }

  /** A step that fixes an answer is one whole `Reserve`; any other changes nothing committed. */
  lemma StepRefines(f: Family, s: State, a: Action)
    requires Inv(f, s)
    ensures !Fixes(s, a) ==> Committed(Step(s, a)) == Committed(s)
    ensures Fixes(s, a) ==>
      var q := Step(s, a).requests[a.who];
      var (store, answer) := Reserve(Committed(s), CallOf(a.who, q));
      Committed(Step(s, a)) == store && Told(q.pc.outcome, answer)
  {
    if a.Do? && a.who in s.requests {
      assert RequestOk(f, s, a.who);
      DoTouches(s, a.who, a.statement);
      if a.statement.Commit? {
        CommitReserves(f, s, a.who, a.statement.heard);
      } else {
        OnlyCommitPublishes(s, a.who, a.statement);
        if Fixes(s, a) { RefusalIsJustified(f, s, a.who, a.statement); }
      }
    }
  }

  // ---------------------------------------------------------------- whole runs

  predicate Distinct(order: seq<Call>) {
    forall i, j :: 0 <= i < j < |order| ==> order[i].id != order[j].id
  }

  /** `order` lists exactly the answered calls of `s`, each once. */
  ghost predicate ListsAnswers(s: State, order: seq<Call>) {
    Distinct(order) &&
    (forall k :: 0 <= k < |order| ==>
      Answered(s, order[k].id) && order[k] == CallOf(order[k].id, s.requests[order[k].id])) &&
    (forall r :: Answered(s, r) ==> CallOf(r, s.requests[r]) in order)
  }

  /** What `ListsAnswers` needs of a step from `s` to `t`: at most `r` is newly answered. */
  lemma ListsOneMore(s: State, t: State, order: seq<Call>, r: Rid)
    requires ListsAnswers(s, order)
    requires forall o :: AnswerStays(s, t, o)
    requires forall o :: Answered(t, o) && o != r ==> Answered(s, o)
    ensures ListsAnswers(t, if !Answered(s, r) && Answered(t, r) then order + [CallOf(r, t.requests[r])] else order)
  {
    var order' := if !Answered(s, r) && Answered(t, r) then order + [CallOf(r, t.requests[r])] else order;
    forall k | 0 <= k < |order'|
      ensures Answered(t, order'[k].id) && order'[k] == CallOf(order'[k].id, t.requests[order'[k].id])
    {
      if k < |order| { assert AnswerStays(s, t, order[k].id); }
    }
    forall o | Answered(t, o) ensures CallOf(o, t.requests[o]) in order' {
      if Answered(s, o) {
        assert AnswerStays(s, t, o);
        assert CallOf(o, s.requests[o]) in order;
      } else {
        assert o == r && order'[|order|] == CallOf(r, t.requests[r]);
      }
    }
  }

  lemma OneAnswerPerStep(s: State, a: Action, o: Rid)
    requires !Answered(s, o) && Answered(Step(s, a), o)
    ensures !a.Tick? && o == a.who
  {
    if a.Do? && a.who in s.requests { DoTouches(s, a.who, a.statement); }
  }

  lemma {:induction false} OrderListsAnswers(stock: map<Pid, int>, run: seq<Action>)
    ensures ListsAnswers(Run(Init(stock), run), Order(Init(stock), run))
  {
    if run != [] {
      var front, a := run[..|run| - 1], run[|run| - 1];
      OrderListsAnswers(stock, front);
      var s := Run(Init(stock), front);
      var t := Step(s, a);
      var r := if a.Tick? then 0 else a.who;
      forall o ensures AnswerStays(s, t, o) { AnswersStay(s, a, o); }
      forall o | Answered(t, o) && o != r ensures Answered(s, o) {
        if !Answered(s, o) { OneAnswerPerStep(s, a, o); }
      }
      if a.Tick? && !Answered(s, 0) && Answered(t, 0) { OneAnswerPerStep(s, a, 0); }
      ListsOneMore(s, t, Order(Init(stock), front), r);
    }
  }

  /** The committed store and the answers in `s` are those of `order` executed one call after the other. */
  ghost predicate IsSequential(st: Store, s: State, order: seq<Call>) {
    ListsAnswers(s, order) &&
    Committed(s) == Sequential(st, order) &&
    forall k :: 0 <= k < |order| ==> Told(s.requests[order[k].id].pc.outcome, SequentialAnswer(st, order, k))
  }

  lemma SequentialOneMore(st: Store, s: State, t: State, order: seq<Call>, order': seq<Call>)
    requires IsSequential(st, s, order) && ListsAnswers(t, order')
    requires forall o :: AnswerStays(s, t, o)
    requires
      || (order' == order && Committed(t) == Committed(s))
      || (|order'| == |order| + 1 && order'[..|order|] == order &&
          Committed(t) == Reserve(Committed(s), order'[|order|]).0 &&
          Told(t.requests[order'[|order|].id].pc.outcome, Reserve(Committed(s), order'[|order|]).1))
    ensures IsSequential(st, t, order')
  {
    forall k | 0 <= k < |order'|
      ensures Told(t.requests[order'[k].id].pc.outcome, SequentialAnswer(st, order', k))
    {
      if k < |order| {
        assert order'[..k] == order[..k];
        assert order'[k] == order[k] && AnswerStays(s, t, order[k].id);
      }
    }
  }

  /**
    Every safe run is a sequential one: the committed stock, the reservation rows and
    every answer are those of the answered calls executed one after the other; a call whose
    reply got lost has reserved.
   */
  lemma {:induction false} Linearizable(f: Family, stock: map<Pid, int>, run: seq<Action>)
    requires Uses(run, StrategiesOf(f)) && TimelyRun(f, Init(stock), run)
    ensures IsSequential(Store(stock, []), Run(Init(stock), run), Order(Init(stock), run))
  {
    if run == [] {
      assert Committed(Init(stock)).stock == stock;
    } else {
      var front, a := run[..|run| - 1], run[|run| - 1];
      var s := Run(Init(stock), front);
      TimelyPrefix(f, Init(stock), run);
      Linearizable(f, stock, front);
      RunKeepsInv(f, stock, front);
      StepRefines(f, s, a);
      OrderListsAnswers(stock, run);
      forall o ensures AnswerStays(s, Step(s, a), o) { AnswersStay(s, a, o); }
      SequentialOneMore(Store(stock, []), s, Step(s, a), Order(Init(stock), front), Order(Init(stock), run));
    }
  }

  lemma {:induction false} OrderGrows(s: State, run: seq<Action>, k: nat)
    requires k <= |run|
    ensures Order(s, run[..k]) <= Order(s, run)
  {
    if k == |run| {
      assert run[..k] == run;
    } else {
      OrderGrows(s, run[..|run| - 1], k);
      assert run[..|run| - 1][..k] == run[..k];
    }
  }

  /** The sequential order respects real time: a call answered before another starts comes first. */
  lemma RealTimeOrder(stock: map<Pid, int>, run: seq<Action>, k: nat, i: nat, j: nat)
    requires k <= |run|
    requires i < |Order(Init(stock), run)| && j < |Order(Init(stock), run)|
    requires Answered(Run(Init(stock), run[..k]), Order(Init(stock), run)[i].id)
    requires Order(Init(stock), run)[j].id !in Run(Init(stock), run[..k]).requests
    ensures i < j
  {
    var s, order := Run(Init(stock), run[..k]), Order(Init(stock), run[..k]);
    var all := Order(Init(stock), run);
    OrderListsAnswers(stock, run[..k]);
    OrderListsAnswers(stock, run);
    OrderGrows(Init(stock), run, k);
    assert CallOf(all[i].id, s.requests[all[i].id]) in order;
    assert forall m :: 0 <= m < |order| ==> all[m] == order[m];
  }
}
