/**
  Multi-version rows under READ COMMITTED and REPEATABLE READ, as a step machine.

  A transaction reads a snapshot (of each statement, or of its first statement), sees its
  own writes over it, locks the rows it writes until it ends, and under a fixed snapshot
  fails when a row it wants to write has a newer committed version.
 */
module Mvcc {
  import opened Options

  type Tid = nat
  type Id = nat

  datatype Level = ReadCommitted | RepeatableRead | Serializable

  datatype Writer = Initial | By(t: Tid)

  datatype Version = Version(value: int, writer: Writer)

  /** What a transaction has seen or overwritten so far. */
  datatype Observation =
    | Saw(id: Id, version: Version)
    | Counted(bound: int, ids: set<Id>)          // rows with at least this value
    | Overwrote(id: Id, version: Version)        // an absolute write replaced this version

  datatype Status = Active | Committed | Aborted(serialization: bool)

  datatype Tx = Tx(level: Level, snapshot: Option<map<Id, Version>>, writes: map<Id, int>,
                   log: seq<Observation>, status: Status)

  datatype State = State(rows: map<Id, Version>, txs: map<Tid, Tx>)

  datatype Action =
    | Begin(t: Tid, level: Level)
    | Read(t: Tid, id: Id)
    | Count(t: Tid, bound: int)
    | Set(t: Tid, id: Id, value: int)            // UPDATE ... SET balance = value
    | Add(t: Tid, id: Id, delta: int)            // UPDATE ... SET balance = balance + delta
    | Insert(t: Tid, id: Id, value: int)
    | Commit(t: Tid)
    | Abort(t: Tid)

  // ---------------------------------------------------------------- what a statement sees

  predicate IsActive(s: State, t: Tid) {
    t in s.txs && s.txs[t].status.Active?
  }

  /** Committed rows as the next statement of `x` sees them. */
  function Base(s: State, x: Tx): map<Id, Version> {
    if x.level.ReadCommitted? || x.snapshot.None? then s.rows else x.snapshot.value
  }

  /** The base with the transaction's own writes on top. */
  function Visible(s: State, t: Tid): map<Id, Version>
    requires t in s.txs
  {
    var x := s.txs[t];
    map id | id in Base(s, x).Keys + x.writes.Keys ::
      if id in x.writes then Version(x.writes[id], By(t)) else Base(s, x)[id]
  }

  /** The transaction after a statement: its first one fixes the snapshot. */
  function Started(s: State, t: Tid): Tx
    requires t in s.txs
  {
    s.txs[t].(snapshot := if s.txs[t].snapshot.None? then Some(s.rows) else s.txs[t].snapshot)
  }

  function SetTx(s: State, t: Tid, x: Tx): State {
    s.(txs := s.txs[t := x])
  }

  function Note(s: State, t: Tid, o: Observation): State
    requires t in s.txs
  {
    SetTx(s, t, Started(s, t).(log := s.txs[t].log + [o]))
  }

  // ---------------------------------------------------------------- steps

  function ReadStep(s: State, t: Tid, id: Id): State
    requires t in s.txs
  {
    if id in Visible(s, t) then Note(s, t, Saw(id, Visible(s, t)[id])) else SetTx(s, t, Started(s, t))
  }

  function Matching(rows: map<Id, Version>, bound: int): set<Id> {
    set id | id in rows && rows[id].value >= bound
  }

  predicate LockedByOther(s: State, t: Tid, id: Id) {
    exists u :: u in s.txs && u != t && s.txs[u].status.Active? && id in s.txs[u].writes
  }

  /** Under a fixed snapshot: the row has a committed version that the snapshot does not. */
  predicate Outdated(s: State, t: Tid, id: Id)
    requires t in s.txs
  {
    var x := s.txs[t];
    !x.level.ReadCommitted? && id !in x.writes && id in Base(s, x) && id in s.rows && s.rows[id] != Base(s, x)[id]
  }

  /** The version an UPDATE of `t` applies to: its own, or the latest committed one. */
  function Current(s: State, t: Tid, id: Id): Version
    requires t in s.txs && (id in s.txs[t].writes || id in s.rows)
  {
    if id in s.txs[t].writes then Version(s.txs[t].writes[id], By(t)) else s.rows[id]
  }

  /** An UPDATE that finds its row writes `value`; `absolute`: it ignores the value it replaces. */
  function UpdateStep(s: State, t: Tid, id: Id, value: int, absolute: bool): State
    requires t in s.txs
  {
    if id !in Visible(s, t) || (id !in s.txs[t].writes && id !in s.rows) then SetTx(s, t, Started(s, t))
    else if LockedByOther(s, t, id) then s
    else if Outdated(s, t, id) then SetTx(s, t, s.txs[t].(status := Aborted(true)))
    else
      var prior := Current(s, t, id);
      SetTx(s, t, Started(s, t).(
        writes := s.txs[t].writes[id := if absolute then value else prior.value + value],
        log := s.txs[t].log + if absolute then [Overwrote(id, prior)] else []))
  }

  function InsertStep(s: State, t: Tid, id: Id, value: int): State
    requires t in s.txs
  {
    if LockedByOther(s, t, id) then s
    else if id in s.rows || id in s.txs[t].writes then SetTx(s, t, s.txs[t].(status := Aborted(false)))
    else SetTx(s, t, Started(s, t).(writes := s.txs[t].writes[id := value]))
  }

  function CommitStep(s: State, t: Tid): State
    requires t in s.txs
  {
    var x := s.txs[t];
    State(s.rows + map id | id in x.writes :: Version(x.writes[id], By(t)), s.txs[t := x.(status := Committed)])
  }

  function Step(s: State, a: Action): State {
    if a.Begin? then
      if a.t in s.txs then s else SetTx(s, a.t, Tx(a.level, None, map[], [], Active))
    else if !IsActive(s, a.t) then s
    else
      match a
      case Begin(t, level) => s
      case Read(t, id) => ReadStep(s, t, id)
      case Count(t, bound) => Note(s, t, Counted(bound, Matching(Visible(s, t), bound)))
      case Set(t, id, value) => UpdateStep(s, t, id, value, true)
      case Add(t, id, delta) => UpdateStep(s, t, id, delta, false)
      case Insert(t, id, value) => InsertStep(s, t, id, value)
      case Commit(t) => CommitStep(s, t)
      case Abort(t) => SetTx(s, t, s.txs[t].(status := Aborted(false)))
  }

  function Run(s: State, run: seq<Action>): State {
    if run == [] then s
    else Step(Run(s, run[..|run| - 1]), run[|run| - 1])
  }

  function Init(values: map<Id, int>): State {
    State(map id | id in values :: Version(values[id], Initial), map[])
  }

  lemma {:induction false} RunAfter(s: State, a: Action, rest: seq<Action>)
    ensures Run(s, [a] + rest) == Run(Step(s, a), rest)
  {
    if rest == [] {
      assert ([a] + rest)[..0] == [];
    } else {
      RunAfter(s, a, rest[..|rest| - 1]);
      assert ([a] + rest)[..|rest|] == [a] + rest[..|rest| - 1];
    }
  }
}
