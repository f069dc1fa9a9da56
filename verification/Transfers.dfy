/**
  Money transfers as transactions over the multi-version rows: read both balances, check,
  debit, credit, commit; retry the whole transaction after a serialization failure.
 */
module Transfers {
  import opened Mvcc
  import opened Options

  type Rid = nat

  const MAX_RETRIES: nat := 3

  datatype Outcome =
    | Transferred(fromBalance: int, toBalance: int)
    | InsufficientFunds
    | NotFound
    | Failed                 // an error other than a serialization failure
    | NoResult               // every attempt met a serialization failure: the call ends without a result

  datatype Pc =
    | Idle(attempt: nat)                            // about to begin a transaction
    | Opened(attempt: nat)                          // about to read the source balance
    | SawFrom(attempt: nat, balance: Option<int>)   // about to read the target balance and check
    | Checked(attempt: nat)                         // about to debit
    | Debited(attempt: nat)                         // about to credit
    | Credited(attempt: nat)                        // about to commit
    | Done(outcome: Outcome)

  /** `tid` is the database transaction of the current attempt. */
  datatype Transfer = Transfer(from: Id, to: Id, amount: nat, level: Level, tid: Tid, pc: Pc)

  datatype TState = TState(db: State, transfers: map<Rid, Transfer>, next: Tid)

  datatype TAction =
    | Request(r: Rid, from: Id, to: Id, amount: nat, level: Level)
    | Advance(r: Rid)
    | Fail(r: Rid)           // any other error rolls the transaction back
    | Conflict(r: Rid)       // a serialization failure at any statement, COMMIT included
    | CommitLost(r: Rid)     // COMMIT takes effect, but the call gets an error

  // ---------------------------------------------------------------- steps

  predicate Open(pc: Pc) {
    !pc.Idle? && !pc.Done?
  }

  function Goto(s: TState, r: Rid, db: State, pc: Pc): TState
    requires r in s.transfers
  {
    s.(db := db, transfers := s.transfers[r := s.transfers[r].(pc := pc)])
  }

  function Retry(attempt: nat): Pc {
    if attempt + 1 < MAX_RETRIES then Idle(attempt + 1) else Done(NoResult)
  }

  function ReadFromStep(s: TState, r: Rid): TState
    requires r in s.transfers && s.transfers[r].pc.Opened? && s.transfers[r].tid in s.db.txs
  {
    var x := s.transfers[r];
    var seen := Visible(s.db, x.tid);
    Goto(s, r, Step(s.db, Read(x.tid, x.from)),
         SawFrom(x.pc.attempt, if x.from in seen then Some(seen[x.from].value) else None))
  }

  function CheckStep(s: TState, r: Rid): TState
    requires r in s.transfers && s.transfers[r].pc.SawFrom? && s.transfers[r].tid in s.db.txs
  {
    var x := s.transfers[r];
    var db := Step(s.db, Read(x.tid, x.to));
    if x.pc.balance.None? || x.to !in Visible(s.db, x.tid) then Goto(s, r, Step(db, Abort(x.tid)), Done(NotFound))
    else if x.pc.balance.value < x.amount then Goto(s, r, Step(db, Abort(x.tid)), Done(InsufficientFunds))
    else Goto(s, r, db, Checked(x.pc.attempt))
  }

  /** The relative UPDATE of `id`; `next` is where it leads when it is granted. */
  function MoveStep(s: TState, r: Rid, id: Id, delta: int, attempt: nat, next: Pc): TState
    requires r in s.transfers
  {
    var t := s.transfers[r].tid;
    var db := Step(s.db, Add(t, id, delta));
    if LockedByOther(s.db, t, id) then s
    else if t in db.txs && db.txs[t].status.Aborted? then Goto(s, r, db, Retry(attempt))
    else Goto(s, r, db, next)
  }

  /** Roll back and go on at `pc`. */
  function GiveUpStep(s: TState, r: Rid, pc: Pc): TState
    requires r in s.transfers
  {
    Goto(s, r, Step(s.db, Abort(s.transfers[r].tid)), pc)
  }

  /** Commit and go on at `pc`. */
  function CommitStepOf(s: TState, r: Rid, pc: Pc): TState
    requires r in s.transfers
  {
    Goto(s, r, Step(s.db, Commit(s.transfers[r].tid)), pc)
  }

  function FinishStep(s: TState, r: Rid): TState
    requires r in s.transfers && s.transfers[r].tid in s.db.txs
  {
    var x := s.transfers[r];
    var seen := Visible(s.db, x.tid);
    if x.from !in seen || x.to !in seen then s
    else CommitStepOf(s, r, Done(Transferred(seen[x.from].value, seen[x.to].value)))
  }

  function AdvanceStep(s: TState, r: Rid): TState
    requires r in s.transfers
  {
    var x := s.transfers[r];
    if x.pc.Idle? then
      TState(Step(s.db, Begin(s.next, x.level)),
             s.transfers[r := x.(tid := s.next, pc := Opened(x.pc.attempt))], s.next + 1)
    else if x.tid !in s.db.txs then s
    else
      match x.pc
      case Idle(_) => s
      case Opened(_) => ReadFromStep(s, r)
      case SawFrom(_, _) => CheckStep(s, r)
      case Checked(n) => MoveStep(s, r, x.from, 0 - x.amount, n, Debited(n))
      case Debited(n) => MoveStep(s, r, x.to, x.amount, n, Credited(n))
      case Credited(_) => FinishStep(s, r)
      case Done(_) => s
  }

  function TStep(s: TState, a: TAction): TState {
    match a
    case Request(r, from, to, amount, level) =>
      if r in s.transfers then s
      else s.(transfers := s.transfers[r := Transfer(from, to, amount, level, 0, Idle(0))])
    case Advance(r) => if r in s.transfers then AdvanceStep(s, r) else s
    case Fail(r) => if r in s.transfers && Open(s.transfers[r].pc) then GiveUpStep(s, r, Done(Failed)) else s
    case Conflict(r) =>
      if r in s.transfers && Open(s.transfers[r].pc) && s.transfers[r].level.Serializable?
      then GiveUpStep(s, r, Retry(s.transfers[r].pc.attempt)) else s
    case CommitLost(r) =>
      if r in s.transfers && s.transfers[r].pc.Credited? then CommitStepOf(s, r, Done(Failed)) else s
  }

  function TRun(s: TState, run: seq<TAction>): TState {
    if run == [] then s
    else TStep(TRun(s, run[..|run| - 1]), run[|run| - 1])
  }

  function TInit(values: map<Id, int>): TState {
    TState(Init(values), map[], 0)
  }

  // ---------------------------------------------------------------- totals

  ghost function Pick(rows: map<Id, Version>): (id: Id)
    requires rows != map[]
    ensures id in rows
  {
    var id :| id in rows;
    id
  }

  ghost function Total(rows: map<Id, Version>): int
    decreases |rows|
  {
    if rows == map[] then 0
    else
      assert |rows - {Pick(rows)}| < |rows| by { Smaller(rows, Pick(rows)); }
      rows[Pick(rows)].value + Total(rows - {Pick(rows)})
  }

  lemma Smaller(rows: map<Id, Version>, id: Id)
    requires id in rows
    ensures |rows - {id}| < |rows|
  {
    assert (rows - {id}).Keys == rows.Keys - {id};
  }

  lemma {:induction false} TotalSplit(rows: map<Id, Version>, id: Id)
    requires id in rows
    ensures Total(rows) == rows[id].value + Total(rows - {id})
    decreases |rows|
  {
    var first := Pick(rows);
    if first != id {
      Smaller(rows, first);
      Smaller(rows, id);
      TotalSplit(rows - {first}, id);
      TotalSplit(rows - {id}, first);
      assert rows - {first} - {id} == rows - {id} - {first};
    }
  }

  lemma TotalOfUpdate(rows: map<Id, Version>, id: Id, v: Version)
    requires id in rows
    ensures Total(rows[id := v]) == Total(rows) - rows[id].value + v.value
  {
    TotalSplit(rows, id);
    TotalSplit(rows[id := v], id);
    assert rows[id := v] - {id} == rows - {id};
  }

  // ---------------------------------------------------------------- the invariant

  /** What an open transfer has written: nothing, its debit, or both of its halves. */
  predicate WritesOk(rows: map<Id, Version>, x: Transfer, writes: map<Id, int>) {
    x.from in rows && x.to in rows &&
    match x.pc
    case Debited(_) => writes == map[x.from := rows[x.from].value - x.amount]
    case Credited(_) =>
      if x.from == x.to then writes == map[x.from := rows[x.from].value]
      else writes == map[x.from := rows[x.from].value - x.amount, x.to := rows[x.to].value + x.amount]
    case _ => writes == map[]
  }

  predicate SnapshotOk(s: State, tx: Tx) {
    tx.snapshot.Some? ==> tx.snapshot.value.Keys == s.rows.Keys
  }

  predicate TransferOk(s: TState, r: Rid)
    requires r in s.transfers
  {
    var x := s.transfers[r];
    Open(x.pc) ==>
      x.tid < s.next && IsActive(s.db, x.tid) && s.db.txs[x.tid].level == x.level &&
      SnapshotOk(s.db, s.db.txs[x.tid]) &&
      (x.pc.Opened? || x.pc.SawFrom? ==> s.db.txs[x.tid].writes == map[]) &&
      (x.pc.Opened? ==> s.db.txs[x.tid].snapshot.None?) &&
      (x.pc.SawFrom? && x.pc.balance.Some? ==> x.from in s.db.rows) &&
      (x.pc.Checked? || x.pc.Debited? || x.pc.Credited? ==> WritesOk(s.db.rows, x, s.db.txs[x.tid].writes))
  }

  predicate BothOpen(x: Transfer, y: Transfer) {
    Open(x.pc) && Open(y.pc)
  }

  /** `r` is open and `t` is its transaction. */
  predicate Runs(s: TState, r: Rid, t: Tid) {
    r in s.transfers && Open(s.transfers[r].pc) && s.transfers[r].tid == t
  }

  /** Only open transfers have active transactions, each its own; nobody locks a row twice. */
  ghost predicate TxsOk(s: TState) {
    (forall t :: t in s.db.txs ==> t < s.next) &&
    (forall t :: IsActive(s.db, t) ==> exists r :: Runs(s, r, t)) &&
    (forall r, o :: r in s.transfers && o in s.transfers && r != o && BothOpen(s.transfers[r], s.transfers[o]) ==>
      s.transfers[r].tid != s.transfers[o].tid) &&
    (forall t, u, id :: IsActive(s.db, t) && IsActive(s.db, u) && t != u && id in s.db.txs[t].writes ==>
      id !in s.db.txs[u].writes)
  }

  ghost predicate Inv(s: TState) {
    TxsOk(s) && forall r :: r in s.transfers ==> TransferOk(s, r)
  }

  // ---------------------------------------------------------------- what each statement does

  /** A statement of `t` leaves other transactions alone and every row that another one has locked. */
  ghost predicate OnlyTx(s: State, s': State, t: Tid) {
    (forall u :: u != t ==> (u in s.txs <==> u in s'.txs) && (u in s.txs ==> s'.txs[u] == s.txs[u])) &&
    s'.rows.Keys == s.rows.Keys &&
    forall u, id :: u != t && IsActive(s, u) && id in s.txs[u].writes && id in s.rows ==> s'.rows[id] == s.rows[id]
  }

  lemma ReadEffect(s: State, t: Tid, id: Id)
    requires IsActive(s, t) && SnapshotOk(s, s.txs[t])
    ensures var s' := Step(s, Read(t, id));
      OnlyTx(s, s', t) && s'.rows == s.rows && IsActive(s', t) &&
      s'.txs[t].(log := []) == Started(s, t).(log := []) && SnapshotOk(s', s'.txs[t])
  {
  }

  lemma EndEffect(s: State, t: Tid)
    requires IsActive(s, t)
    ensures var s' := Step(s, Abort(t));
      OnlyTx(s, s', t) && s'.rows == s.rows && t in s'.txs && !IsActive(s', t)
  {
  }

  lemma AddEffect(s: State, t: Tid, id: Id, delta: int)
    requires IsActive(s, t) && SnapshotOk(s, s.txs[t]) && id in s.rows && !LockedByOther(s, t, id)
    ensures var s', x := Step(s, Add(t, id, delta)), s.txs[t];
      OnlyTx(s, s', t) && s'.rows == s.rows && t in s'.txs &&
      if Outdated(s, t, id) then s'.txs[t].status == Aborted(true)
      else
        IsActive(s', t) && s'.txs[t].level == x.level && SnapshotOk(s', s'.txs[t]) &&
        s'.txs[t].snapshot == Started(s, t).snapshot &&
        s'.txs[t].writes == x.writes[id := (if id in x.writes then x.writes[id] else s.rows[id].value) + delta]
  {
    assert id in Visible(s, t);
  }

  lemma CommitEffect(s: State, t: Tid)
    requires IsActive(s, t) && s.txs[t].writes.Keys <= s.rows.Keys
    requires forall u, id :: IsActive(s, u) && t != u && id in s.txs[u].writes ==> id !in s.txs[t].writes
    ensures var s', w := Step(s, Commit(t)), s.txs[t].writes;
      OnlyTx(s, s', t) && t in s'.txs && !IsActive(s', t) &&
      forall id :: id in s.rows ==> s'.rows[id] == if id in w then Version(w[id], By(t)) else s.rows[id]
  {
  }

  // ---------------------------------------------------------------- every step keeps the invariant

  lemma OthersStayOk(s: TState, s': TState, r: Rid, o: Rid)
    requires Inv(s) && r in s.transfers && o in s.transfers && o != r && o in s'.transfers
    requires s'.transfers[o] == s.transfers[o] && s.next <= s'.next && r in s'.transfers
    requires OnlyTx(s.db, s'.db, s'.transfers[r].tid)
    requires Open(s.transfers[o].pc) ==> s.transfers[o].tid != s'.transfers[r].tid
    ensures TransferOk(s', o)
  {
    assert TransferOk(s, o);
    var x := s.transfers[o];
    if Open(x.pc) { assert x.tid in s'.db.txs; }
  }

  lemma KeepsInv(s: TState, s': TState, r: Rid)
    requires Inv(s) && r in s.transfers && Open(s.transfers[r].pc)
    requires r in s'.transfers && s'.transfers == s.transfers[r := s'.transfers[r]] && s'.next == s.next
    requires s'.transfers[r].tid == s.transfers[r].tid && OnlyTx(s.db, s'.db, s.transfers[r].tid)
    requires Open(s'.transfers[r].pc) <==> IsActive(s'.db, s.transfers[r].tid)
    requires TransferOk(s', r)
    requires IsActive(s'.db, s.transfers[r].tid) ==>
      forall id :: id in s'.db.txs[s.transfers[r].tid].writes ==>
        id in s.db.txs[s.transfers[r].tid].writes || !LockedByOther(s.db, s.transfers[r].tid, id)
    ensures Inv(s')
  {
    var t := s.transfers[r].tid;
    assert TransferOk(s, r);
    forall o | o in s'.transfers ensures TransferOk(s', o) {
      if o != r { OthersStayOk(s, s', r, o); }
    }
    forall u | IsActive(s'.db, u) ensures exists o :: Runs(s', o, u) {
      if u == t {
        assert Runs(s', r, u);
      } else {
        assert IsActive(s.db, u);
        var o :| Runs(s, o, u);
        assert Runs(s', o, u);
      }
    }
    forall u, id | u != t && IsActive(s'.db, u) && IsActive(s'.db, t) && id in s'.db.txs[u].writes
      ensures id !in s'.db.txs[t].writes
    {
      assert IsActive(s.db, u) && s'.db.txs[u] == s.db.txs[u];
    }
  }

  lemma ReadKeepsInv(s: TState, r: Rid)
    requires Inv(s) && r in s.transfers && s.transfers[r].pc.Opened?
    ensures Inv(AdvanceStep(s, r)) && AdvanceStep(s, r).db.rows == s.db.rows
  {
    var x := s.transfers[r];
    assert TransferOk(s, r);
    ReadEffect(s.db, x.tid, x.from);
    KeepsInv(s, ReadFromStep(s, r), r);
  }

  lemma OnlyTxTwice(s: State, s': State, s'': State, t: Tid)
    requires OnlyTx(s, s', t) && OnlyTx(s', s'', t) && s'.rows == s.rows
    ensures OnlyTx(s, s'', t)
  {
    forall u, id | u != t && IsActive(s, u) && id in s.txs[u].writes && id in s.rows
      ensures s''.rows[id] == s.rows[id]
    {
      assert s'.txs[u] == s.txs[u] && IsActive(s', u);
    }
  }

  lemma CheckKeepsInv(s: TState, r: Rid)
    requires Inv(s) && r in s.transfers && s.transfers[r].pc.SawFrom?
    ensures Inv(AdvanceStep(s, r)) && AdvanceStep(s, r).db.rows == s.db.rows
  {
    var x := s.transfers[r];
    assert TransferOk(s, r);
    ReadEffect(s.db, x.tid, x.to);
    var db := Step(s.db, Read(x.tid, x.to));
    assert Visible(s.db, x.tid).Keys == s.db.rows.Keys;
    if x.pc.balance.None? || x.to !in s.db.rows || x.pc.balance.value < x.amount {
      EndEffect(db, x.tid);
      OnlyTxTwice(s.db, db, Step(db, Abort(x.tid)), x.tid);
      GiveUpKeepsInv(s, r, Step(db, Abort(x.tid)), CheckStep(s, r).transfers[r].pc);
    } else {
      KeepsInv(s, CheckStep(s, r), r);
    }
  }

  lemma GiveUpKeepsInv(s: TState, r: Rid, db: State, pc: Pc)
    requires Inv(s) && r in s.transfers && Open(s.transfers[r].pc) && pc.Done?
    requires OnlyTx(s.db, db, s.transfers[r].tid) && s.transfers[r].tid in db.txs && !IsActive(db, s.transfers[r].tid)
    ensures Inv(Goto(s, r, db, pc))
  {
    KeepsInv(s, Goto(s, r, db, pc), r);
  }

  /** The writes after an UPDATE of `id` by `delta`. */
  function Written(rows: map<Id, Version>, w: map<Id, int>, id: Id, delta: int): map<Id, int>
    requires id in rows
  {
    w[id := (if id in w then w[id] else rows[id].value) + delta]
  }

  /** An UPDATE that finds a newer version ends the attempt. */
  lemma OutdatedKeepsInv(s: TState, r: Rid, id: Id, delta: int, pc: Pc)
    requires Inv(s) && r in s.transfers && Open(s.transfers[r].pc) && !Open(pc) && id in s.db.rows
    requires s.transfers[r].tid in s.db.txs && !LockedByOther(s.db, s.transfers[r].tid, id)
    requires Outdated(s.db, s.transfers[r].tid, id)
    ensures Inv(Goto(s, r, Step(s.db, Add(s.transfers[r].tid, id, delta)), pc))
  {
    assert TransferOk(s, r);
    AddEffect(s.db, s.transfers[r].tid, id, delta);
    KeepsInv(s, Goto(s, r, Step(s.db, Add(s.transfers[r].tid, id, delta)), pc), r);
  }

  lemma WriteKeepsInv(s: TState, r: Rid, id: Id, delta: int, next: Pc)
    requires Inv(s) && r in s.transfers && Open(s.transfers[r].pc) && id in s.db.rows &&
      (next.Debited? || next.Credited?)
    requires s.transfers[r].tid in s.db.txs && !LockedByOther(s.db, s.transfers[r].tid, id)
    requires !Outdated(s.db, s.transfers[r].tid, id)
    requires var x := s.transfers[r];
      WritesOk(s.db.rows, x.(pc := next), Written(s.db.rows, s.db.txs[x.tid].writes, id, delta))
    ensures Inv(Goto(s, r, Step(s.db, Add(s.transfers[r].tid, id, delta)), next))
  {
    assert TransferOk(s, r);
    AddEffect(s.db, s.transfers[r].tid, id, delta);
    KeepsInv(s, Goto(s, r, Step(s.db, Add(s.transfers[r].tid, id, delta)), next), r);
  }

  lemma MoveKeepsInv(s: TState, r: Rid, id: Id, delta: int, n: nat, next: Pc)
    requires Inv(s) && r in s.transfers && Open(s.transfers[r].pc) && id in s.db.rows &&
      (next.Debited? || next.Credited?)
    requires !LockedByOther(s.db, s.transfers[r].tid, id)
    requires var x := s.transfers[r];
      IsActive(s.db, x.tid) &&
      WritesOk(s.db.rows, x.(pc := next), Written(s.db.rows, s.db.txs[x.tid].writes, id, delta))
    ensures Inv(MoveStep(s, r, id, delta, n, next)) && MoveStep(s, r, id, delta, n, next).db.rows == s.db.rows
  {
    assert TransferOk(s, r);
    AddEffect(s.db, s.transfers[r].tid, id, delta);
    if Outdated(s.db, s.transfers[r].tid, id) {
      OutdatedKeepsInv(s, r, id, delta, Retry(n));
    } else {
      WriteKeepsInv(s, r, id, delta, next);
    }
  }

  /** Publishing both halves of a transfer leaves the total where it was. */
  lemma CommitKeepsTotal(rows: map<Id, Version>, rows': map<Id, Version>, x: Transfer, w: map<Id, int>)
    requires x.pc.Credited? && WritesOk(rows, x, w) && rows'.Keys == rows.Keys
    requires forall id :: id in rows ==> rows'[id] == if id in w then Version(w[id], By(x.tid)) else rows[id]
    ensures Total(rows') == Total(rows)
  {
    if x.from == x.to {
      OneRowPublished(rows, rows', x.from, Version(rows[x.from].value, By(x.tid)));
    } else {
      TwoRowsPublished(rows, rows', x.from, Version(rows[x.from].value - x.amount, By(x.tid)),
                       x.to, Version(rows[x.to].value + x.amount, By(x.tid)));
    }
  }

  lemma OneRowPublished(rows: map<Id, Version>, rows': map<Id, Version>, a: Id, v: Version)
    requires a in rows && rows'.Keys == rows.Keys
    requires forall id :: id in rows ==> rows'[id] == if id == a then v else rows[id]
    ensures Total(rows') == Total(rows) - rows[a].value + v.value
  {
    TotalOfUpdate(rows, a, v);
    assert rows' == rows[a := v];
  }

  lemma TwoRowsPublished(rows: map<Id, Version>, rows': map<Id, Version>, a: Id, v: Version, b: Id, u: Version)
    requires a in rows && b in rows && a != b && rows'.Keys == rows.Keys
    requires forall id :: id in rows ==> rows'[id] == if id == a then v else if id == b then u else rows[id]
    ensures Total(rows') == Total(rows) - rows[a].value + v.value - rows[b].value + u.value
  {
    TotalOfTwoUpdates(rows, a, v, b, u);
    assert rows' == rows[a := v][b := u];
  }

  lemma TotalOfTwoUpdates(rows: map<Id, Version>, a: Id, v: Version, b: Id, u: Version)
    requires a in rows && b in rows && a != b
    ensures Total(rows[a := v][b := u]) == Total(rows) - rows[a].value + v.value - rows[b].value + u.value
  {
    TotalOfUpdate(rows, a, v);
    TotalOfUpdate(rows[a := v], b, u);
  }

  lemma CommitKeepsInv(s: TState, r: Rid, pc: Pc)
    requires Inv(s) && r in s.transfers && s.transfers[r].pc.Credited? && pc.Done?
    ensures var s' := CommitStepOf(s, r, pc);
      Inv(s') && Total(s'.db.rows) == Total(s.db.rows) && s'.db.rows.Keys == s.db.rows.Keys
  {
    var x := s.transfers[r];
    assert TransferOk(s, r);
    CommitEffect(s.db, x.tid);
    var db := Step(s.db, Commit(x.tid));
    CommitKeepsTotal(s.db.rows, db.rows, x, s.db.txs[x.tid].writes);
    GiveUpKeepsInv(s, r, db, pc);
  }

  lemma FinishCommits(s: TState, r: Rid)
    requires Inv(s) && r in s.transfers && s.transfers[r].pc.Credited?
    ensures var x := s.transfers[r];
      x.tid in s.db.txs &&
      var seen := Visible(s.db, x.tid);
      x.from in seen && x.to in seen &&
      AdvanceStep(s, r) == CommitStepOf(s, r, Done(Transferred(seen[x.from].value, seen[x.to].value)))
  {
    assert TransferOk(s, r);
  }

  lemma FinishKeepsInv(s: TState, r: Rid)
    requires Inv(s) && r in s.transfers && s.transfers[r].pc.Credited?
    ensures Inv(AdvanceStep(s, r)) && Total(AdvanceStep(s, r).db.rows) == Total(s.db.rows)
    ensures AdvanceStep(s, r).db.rows.Keys == s.db.rows.Keys
    ensures AdvanceStep(s, r).transfers[r].pc.Done? && AdvanceStep(s, r).transfers[r].pc.outcome.Transferred?
  {
    FinishCommits(s, r);
    CommitKeepsInv(s, r, AdvanceStep(s, r).transfers[r].pc);
  }

  lemma RollbackKeepsInv(s: TState, r: Rid, pc: Pc)
    requires Inv(s) && r in s.transfers && Open(s.transfers[r].pc) && !Open(pc)
    ensures Inv(GiveUpStep(s, r, pc)) && GiveUpStep(s, r, pc).db.rows == s.db.rows
  {
    assert TransferOk(s, r);
    EndEffect(s.db, s.transfers[r].tid);
    KeepsInv(s, GiveUpStep(s, r, pc), r);
  }

  lemma BeginKeepsInv(s: TState, r: Rid)
    requires Inv(s) && r in s.transfers && s.transfers[r].pc.Idle?
    ensures Inv(AdvanceStep(s, r)) && AdvanceStep(s, r).db.rows == s.db.rows
  {
    var s' := AdvanceStep(s, r);
    forall o | o in s'.transfers ensures TransferOk(s', o) {
      assert TransferOk(s, o);
    }
    forall u | IsActive(s'.db, u) ensures exists o :: Runs(s', o, u) {
      if u == s.next {
        assert Runs(s', r, u);
      } else {
        assert IsActive(s.db, u);
        var o :| Runs(s, o, u);
        assert Runs(s', o, u);
      }
    }
    forall o | o in s.transfers && Open(s.transfers[o].pc) ensures s.transfers[o].tid < s.next {
      assert TransferOk(s, o);
    }
  }

  /** What the relative UPDATE at `pc` does: which row, by how much, and where it leads. */
  predicate Moves(x: Transfer, pc: Pc, n: nat, id: Id, delta: int, to: Pc) {
    (pc == Checked(n) && id == x.from && delta == 0 - x.amount && to == Debited(n)) ||
    (pc == Debited(n) && id == x.to && delta == x.amount && to == Credited(n))
  }

  lemma AdvanceIsMove(s: TState, r: Rid, n: nat, id: Id, delta: int, to: Pc)
    requires r in s.transfers && s.transfers[r].tid in s.db.txs
    requires Moves(s.transfers[r], s.transfers[r].pc, n, id, delta, to)
    ensures AdvanceStep(s, r) == MoveStep(s, r, id, delta, n, to)
  {
  }

  lemma DebitIsWritten(rows: map<Id, Version>, x: Transfer, w: map<Id, int>, n: nat)
    requires x.pc.Checked? && WritesOk(rows, x, w)
    ensures WritesOk(rows, x.(pc := Debited(n)), Written(rows, w, x.from, 0 - x.amount))
  {
    assert w == map[];
  }

  lemma CreditIsWritten(rows: map<Id, Version>, x: Transfer, w: map<Id, int>, n: nat)
    requires x.pc.Debited? && WritesOk(rows, x, w)
    ensures WritesOk(rows, x.(pc := Credited(n)), Written(rows, w, x.to, x.amount))
  {
  }

  lemma DebitKeepsInv(s: TState, r: Rid)
    requires Inv(s) && r in s.transfers && s.transfers[r].pc.Checked?
    ensures Inv(AdvanceStep(s, r)) && AdvanceStep(s, r).db.rows == s.db.rows
  {
    var x := s.transfers[r];
    var n := x.pc.attempt;
    assert TransferOk(s, r);
    AdvanceIsMove(s, r, n, x.from, 0 - x.amount, Debited(n));
    if !LockedByOther(s.db, x.tid, x.from) {
      DebitIsWritten(s.db.rows, x, s.db.txs[x.tid].writes, n);
      MoveKeepsInv(s, r, x.from, 0 - x.amount, n, Debited(n));
    }
  }

  lemma CreditKeepsInv(s: TState, r: Rid)
    requires Inv(s) && r in s.transfers && s.transfers[r].pc.Debited?
    ensures Inv(AdvanceStep(s, r)) && AdvanceStep(s, r).db.rows == s.db.rows
  {
    var x := s.transfers[r];
    var n := x.pc.attempt;
    assert TransferOk(s, r);
    AdvanceIsMove(s, r, n, x.to, x.amount, Credited(n));
    if !LockedByOther(s.db, x.tid, x.to) {
      CreditIsWritten(s.db.rows, x, s.db.txs[x.tid].writes, n);
      MoveKeepsInv(s, r, x.to, x.amount, n, Credited(n));
    }
  }

  lemma AdvanceKeepsInv(s: TState, r: Rid)
    requires Inv(s) && r in s.transfers
    ensures Inv(AdvanceStep(s, r)) && Total(AdvanceStep(s, r).db.rows) == Total(s.db.rows)
    ensures AdvanceStep(s, r).db.rows.Keys == s.db.rows.Keys
  {
    assert TransferOk(s, r);
    match s.transfers[r].pc
    case Idle(_) => BeginKeepsInv(s, r);
    case Opened(_) => ReadKeepsInv(s, r);
    case SawFrom(_, _) => CheckKeepsInv(s, r);
    case Checked(_) => DebitKeepsInv(s, r);
    case Debited(_) => CreditKeepsInv(s, r);
    case Credited(_) => FinishKeepsInv(s, r);
    case Done(_) =>
  }

  lemma RequestKeepsInv(s: TState, a: TAction)
    requires Inv(s) && a.Request?
    ensures Inv(TStep(s, a))
  {
    var s' := TStep(s, a);
    forall o | o in s'.transfers ensures TransferOk(s', o) {
      if o in s.transfers { assert TransferOk(s, o); }
    }
    forall u | IsActive(s'.db, u) ensures exists o :: Runs(s', o, u) {
      var o :| Runs(s, o, u);
      assert Runs(s', o, u);
    }
  }

  lemma StepKeepsInv(s: TState, a: TAction)
    requires Inv(s)
    ensures Inv(TStep(s, a)) && Total(TStep(s, a).db.rows) == Total(s.db.rows)
    ensures TStep(s, a).db.rows.Keys == s.db.rows.Keys
  {
    match a
    case Request(_, _, _, _, _) => RequestKeepsInv(s, a);
    case Fail(r) =>
      if r in s.transfers && Open(s.transfers[r].pc) { RollbackKeepsInv(s, r, Done(Failed)); }
    case Conflict(r) =>
      if r in s.transfers && Open(s.transfers[r].pc) { RollbackKeepsInv(s, r, Retry(s.transfers[r].pc.attempt)); }
    case CommitLost(r) =>
      if r in s.transfers && s.transfers[r].pc.Credited? { CommitKeepsInv(s, r, Done(Failed)); }
    case Advance(r) =>
      if r in s.transfers { AdvanceKeepsInv(s, r); }
  }

  /** In every interleaving, at every isolation level, transfers neither create nor destroy money. */
  lemma {:induction false} TransfersConserve(values: map<Id, int>, run: seq<TAction>)
    ensures Inv(TRun(TInit(values), run)) && Total(TRun(TInit(values), run).db.rows) == Total(Init(values).rows)
    ensures TRun(TInit(values), run).db.rows.Keys == values.Keys
  {
    if run != [] {
      TransfersConserve(values, run[..|run| - 1]);
      StepKeepsInv(TRun(TInit(values), run[..|run| - 1]), run[|run| - 1]);
    }
  }
}
