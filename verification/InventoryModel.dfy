/**
  The stock-reservation protocol as a step machine.

  One state holds the committed product rows with their row locks, the committed
  reservation rows, the lease store that backs the distributed lock, a clock, and the
  frame (program counter and remembered values) of every request.  One action is one
  statement of one request, or the passing of time.  An action that cannot run in a
  state (a blocked statement, a request that is elsewhere) leaves the state unchanged,
  so every sequence of actions is a run and every interleaving is a sequence of actions.
 */
module InventoryModel {

  type Rid = nat
  type Pid = nat

  const MAX_OPTIMISTIC_ATTEMPTS: nat := 5
  // Times are in milliseconds.
  const LEASE_TTL: nat := 50_000
  const LOCK_TIMEOUT: nat := 5_000
  const POLL_INTERVAL: nat := 20
  const FIRST_VERSION: int := 1

  datatype Strategy = Naive | Optimistic | Pessimistic | Atomic | Locked

  /** Unheard: the reservation was committed, but the call got an error instead of the reply. */
  datatype Outcome = Reserved | Unheard | NotEnough | NotFound | Conflict | Unavailable | Aborted

  datatype Row = Row(stock: int, version: int)

  /** Held(owner, row): request `owner` holds the row lock; `row` is its uncommitted version. */
  datatype RowLock = Free | Held(owner: Rid, row: Row)

  datatype Cell = Cell(row: Row, lock: RowLock)

  datatype Reservation = Reservation(id: Rid, pid: Pid, quantity: int)

  datatype Lease = Lease(token: Rid, expires: int)

  datatype Pc =
    | Acquiring(deadline: int)              // polling for the distributed lock
    | Begin(attempt: nat)                   // about to open a transaction
    | Checked(attempt: nat, seen: Row)      // stock was read and is sufficient
    | Written                               // row updated, not committed
    | Recorded                              // reservation row inserted, not committed
    | Releasing(outcome: Outcome)           // transaction over, lease not yet released
    | Finished(outcome: Outcome)

  datatype Request = Request(pid: Pid, quantity: int, strategy: Strategy, leaseEnd: int, pc: Pc)

  datatype State = State(
    rows: map<Pid, Cell>,
    reservations: seq<Reservation>,
    leases: map<Pid, Lease>,
    now: int,
    requests: map<Rid, Request>)

  datatype Statement =
    | Poll       // one SET NX of the lock name
    | Select     // the read, with or without FOR UPDATE
    | Update     // the UPDATE of the product row
    | Insert     // the reservation row
    | Commit(heard: bool)   // the reply to the COMMIT may get lost
    | Abort      // an exception: roll back, then leave through the lock's exit
    | Crash      // the process dies: roll back, nothing else runs
    | Release    // token-checked delete of the lease

  datatype Action =
    | Start(who: Rid, pid: Pid, quantity: int, strategy: Strategy)
    | Do(who: Rid, statement: Statement)
    | Tick(elapsed: nat)

  // ---------------------------------------------------------------- steps

  function Init(stock: map<Pid, int>): State {
    State(map p | p in stock :: Cell(Row(stock[p], FIRST_VERSION), Free), [], map[], 0, map[])
  }

  function Goto(s: State, r: Rid, pc: Pc): State
    requires r in s.requests
  {
    s.(requests := s.requests[r := s.requests[r].(pc := pc)])
  }

  /** Where a request goes once its transaction is over. */
  function Leaving(q: Request, o: Outcome): Pc {
    if q.strategy.Locked? then Releasing(o) else Finished(o)
  }

  function SetCell(s: State, p: Pid, c: Cell): State {
    s.(rows := s.rows[p := c])
  }

  predicate ShouldRetry(attempt: nat, maxAttempt: nat) {
    attempt + 1 < maxAttempt
  }

  function NextVersion(version: int): int { version + 1 }

  function StartStep(s: State, r: Rid, p: Pid, quantity: int, strategy: Strategy): State {
    if r in s.requests then s
    else
      var pc := if strategy.Locked? then Acquiring(s.now + LOCK_TIMEOUT) else Begin(0);
      s.(requests := s.requests[r := Request(p, quantity, strategy, s.now, pc)])
  }

  predicate LeaseLive(s: State, p: Pid) {
    p in s.leases && s.now <= s.leases[p].expires
  }

  function PollStep(s: State, r: Rid): State
    requires r in s.requests
  {
    var q := s.requests[r];
    if !q.pc.Acquiring? then s
    else if !LeaseLive(s, q.pid) then
      s.(leases := s.leases[q.pid := Lease(r, s.now + LEASE_TTL)],
         requests := s.requests[r := q.(leaseEnd := s.now + LEASE_TTL, pc := Begin(0))])
    else if s.now >= q.pc.deadline then Goto(s, r, Finished(Unavailable))
    else s
  }

  function SelectStep(s: State, r: Rid): State
    requires r in s.requests
  {
    var q := s.requests[r];
    if !q.pc.Begin? || q.strategy.Atomic? then s
    else if q.pid !in s.rows then Goto(s, r, Leaving(q, NotFound))
    else
      var c := s.rows[q.pid];
      if q.strategy.Pessimistic? && c.lock.Held? then s
      else if c.row.stock < q.quantity then Goto(s, r, Leaving(q, NotEnough))
      else if q.strategy.Pessimistic? then
        Goto(SetCell(s, q.pid, c.(lock := Held(r, c.row))), r, Checked(0, c.row))
      else Goto(s, r, Checked(q.pc.attempt, c.row))
  }

  /** The row an UPDATE writes, given the row it finds and what the request remembers. */
  function NewRow(q: Request, row: Row): Row {
    if q.pc.Checked? then
      Row(q.pc.seen.stock - q.quantity,
          if q.strategy.Optimistic? then NextVersion(q.pc.seen.version) else row.version)
    else Row(row.stock - q.quantity, row.version)
  }

  /** The UPDATE's WHERE clause beyond the product id. */
  predicate Matches(q: Request, row: Row) {
    if q.strategy.Atomic? then row.stock >= q.quantity
    else q.strategy.Optimistic? && q.pc.Checked? ==> row.version == q.pc.seen.version
  }

  predicate ReadyToUpdate(q: Request) {
    if q.strategy.Atomic? then q.pc.Begin? else q.pc.Checked?
  }

  /** What a request does when its UPDATE matched no row. */
  function NoRow(q: Request): Pc {
    if q.strategy.Optimistic? && q.pc.Checked? then
      if ShouldRetry(q.pc.attempt, MAX_OPTIMISTIC_ATTEMPTS) then Begin(q.pc.attempt + 1)
      else Finished(Conflict)
    else Leaving(q, NotEnough)
  }

  function UpdateStep(s: State, r: Rid): State
    requires r in s.requests
  {
    var q := s.requests[r];
    if !ReadyToUpdate(q) then s
    else if q.pid !in s.rows || !Matches(q, s.rows[q.pid].row) then Goto(s, r, NoRow(q))
    else
      var c := s.rows[q.pid];
      if c.lock.Held? && c.lock.owner != r then s
      else Goto(SetCell(s, q.pid, c.(lock := Held(r, NewRow(q, c.row)))), r, Written)
  }

  function CommitStep(s: State, r: Rid, heard: bool): State
    requires r in s.requests
  {
    var q := s.requests[r];
    if !q.pc.Recorded? || q.pid !in s.rows || s.rows[q.pid].lock.Free? then s
    else
      var s1 := SetCell(s, q.pid, Cell(s.rows[q.pid].lock.row, Free));
      Goto(s1.(reservations := s.reservations + [Reservation(r, q.pid, q.quantity)]), r,
           Leaving(q, if heard then Reserved else Unheard))
  }

  /** Drops the row lock of `r`, if it holds one, with its uncommitted row. */
  function Rollback(s: State, r: Rid): State
    requires r in s.requests
  {
    var p := s.requests[r].pid;
    if p in s.rows && s.rows[p].lock.Held? && s.rows[p].lock.owner == r then
      SetCell(s, p, s.rows[p].(lock := Free))
    else s
  }

  predicate Running(pc: Pc) {
    !pc.Releasing? && !pc.Finished?
  }

  function AbortStep(s: State, r: Rid): State
    requires r in s.requests
  {
    var q := s.requests[r];
    if !Running(q.pc) then s
    else Goto(Rollback(s, r), r, if q.pc.Acquiring? then Finished(Aborted) else Leaving(q, Aborted))
  }

  function CrashStep(s: State, r: Rid): State
    requires r in s.requests
  {
    if s.requests[r].pc.Finished? then s
    else if s.requests[r].pc.Releasing? then Goto(s, r, Finished(s.requests[r].pc.outcome))
    else Goto(Rollback(s, r), r, Finished(Aborted))
  }

  function ReleaseStep(s: State, r: Rid): State
    requires r in s.requests
  {
    var q := s.requests[r];
    if !q.pc.Releasing? then s
    else
      var s1 := if q.pid in s.leases && s.leases[q.pid].token == r
                then s.(leases := s.leases - {q.pid}) else s;
      Goto(s1, r, Finished(q.pc.outcome))
  }

  function DoStep(s: State, r: Rid, statement: Statement): State
    requires r in s.requests
  {
    match statement
    case Poll => PollStep(s, r)
    case Select => SelectStep(s, r)
    case Update => UpdateStep(s, r)
    case Insert => if s.requests[r].pc.Written? then Goto(s, r, Recorded) else s
    case Commit(heard) => CommitStep(s, r, heard)
    case Abort => AbortStep(s, r)
    case Crash => CrashStep(s, r)
    case Release => ReleaseStep(s, r)
  }

  function Step(s: State, a: Action): State {
    match a
    case Start(r, p, quantity, strategy) => StartStep(s, r, p, quantity, strategy)
    case Do(r, statement) => if r in s.requests then DoStep(s, r, statement) else s
    case Tick(d) => s.(now := s.now + d)
  }

  function Run(s: State, run: seq<Action>): State {
    if run == [] then s
    else Step(Run(s, run[..|run| - 1]), run[|run| - 1])
  }

  lemma {:induction false} RunConcat(s: State, first: seq<Action>, rest: seq<Action>)
    ensures Run(s, first + rest) == Run(Run(s, first), rest)
  {
    if rest == [] {
      assert first + rest == first;
    } else {
      var front := rest[..|rest| - 1];
      RunConcat(s, first, front);
      assert (first + rest)[..|first + rest| - 1] == first + front;
    }
  }

  lemma RunThree(s: State, a: Action, b: Action, c: Action)
    ensures Run(s, [a, b, c]) == Step(Step(Step(s, a), b), c)
  {
    assert [a][..0] == [] && Run(s, [a]) == Step(s, a);
    assert [a, b][..1] == [a] && Run(s, [a, b]) == Step(Run(s, [a]), b);
    assert [a, b, c][..2] == [a, b];
  }

  // ---------------------------------------------------------------- the sequential service

  /** Committed stock and reservations: all that a client can observe. */
  datatype Store = Store(stock: map<Pid, int>, reservations: seq<Reservation>)

  function Committed(s: State): Store {
    Store(map p | p in s.rows :: s.rows[p].row.stock, s.reservations)
  }

  /** A call of the service, as its client issued it. */
  datatype Call = Call(id: Rid, pid: Pid, quantity: int, strategy: Strategy)

  function CallOf(r: Rid, q: Request): Call {
    Call(r, q.pid, q.quantity, q.strategy)
  }

  /**
    One whole reservation with nothing running beside it.  The atomic strategy has no
    working existence check, so it answers NotEnough where the others answer NotFound.
   */
  function Reserve(st: Store, c: Call): (Store, Outcome) {
    if c.pid !in st.stock then (st, if c.strategy.Atomic? then NotEnough else NotFound)
    else if st.stock[c.pid] < c.quantity then (st, NotEnough)
    else (Store(st.stock[c.pid := st.stock[c.pid] - c.quantity],
                st.reservations + [Reservation(c.id, c.pid, c.quantity)]), Reserved)
  }

  /** The calls of `order`, one after the other. */
  function Sequential(st: Store, order: seq<Call>): Store {
    if order == [] then st
    else Reserve(Sequential(st, order[..|order| - 1]), order[|order| - 1]).0
  }

  /** The answer the k-th call of `order` gets when they run one after the other. */
  function SequentialAnswer(st: Store, order: seq<Call>, k: nat): Outcome
    requires k < |order|
  {
    Reserve(Sequential(st, order[..k]), order[k]).1
  }

  // ---------------------------------------------------------------- answers and their order

  /** The call's effect is fixed: the service answered (rather than giving up or dying), heard or not. */
  predicate Answers(pc: Pc) {
    (pc.Finished? || pc.Releasing?) && pc.outcome in {Reserved, Unheard, NotEnough, NotFound}
  }

  /** A call that ends with `outcome` can have got `answer`: all but an unheard reply are what they say. */
  predicate Told(outcome: Outcome, answer: Outcome) {
    outcome == answer || (outcome.Unheard? && answer.Reserved?)
  }

  predicate Answered(s: State, r: Rid) {
    r in s.requests && Answers(s.requests[r].pc)
  }

  /** The step `a` fixes the answer of its request. */
  predicate Fixes(s: State, a: Action) {
    !a.Tick? && !Answered(s, a.who) && Answered(Step(s, a), a.who)
  }

  /** The answered calls of a run, in the order in which their answers became fixed. */
  function Order(s: State, run: seq<Action>): seq<Call> {
    if run == [] then []
    else
      var before, a := Run(s, run[..|run| - 1]), run[|run| - 1];
      Order(s, run[..|run| - 1]) +
      if Fixes(before, a) then [CallOf(a.who, Step(before, a).requests[a.who])] else []
  }

  /** Units reserved of product `p`. */
  function SumFor(rs: seq<Reservation>, p: Pid): int {
    if rs == [] then 0
    else
      var last := rs[|rs| - 1];
      SumFor(rs[..|rs| - 1], p) + if last.pid == p then last.quantity else 0
  }

  predicate Uses(run: seq<Action>, strategies: set<Strategy>) {
    forall i :: 0 <= i < |run| && run[i].Start? ==> run[i].strategy in strategies
  }
}
