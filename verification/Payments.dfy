/**
  Idempotent payments: a record in an expiring key store, layered over a balance check
  constraint and a unique index on successful charges.

  Requests run interleaved; records expire; processes die and statements fail at any point,
  including a commit whose acknowledgement is lost.
 */
module Payments {

  type Rid = nat
  type Key = nat
  type Customer = nat

  datatype ChargeStatus = Succeeded | Failed

  datatype Charge = Charge(id: Rid, key: Key, customer: Customer, amount: int, status: ChargeStatus)

  /** Stands for the digest of the request's payload. */
  datatype Fingerprint = Fingerprint(customer: Customer, amount: int)

  datatype Body =
    | Processing(fingerprint: Fingerprint)
    | Completed(fingerprint: Fingerprint, response: Charge)

  datatype Record = Record(body: Body, expires: int)

  // Times are in milliseconds.
  const RECORD_TTL: nat := 60_000

  datatype RowLock = Free | Held(owner: Rid, balance: int)

  datatype Account = Account(balance: int, lock: RowLock)

  datatype Error = InFlight | KeyReused | Vanished | CustomerNotFound | DuplicateCharge | Unexpected

  datatype Pc =
    | Arrived                    // about to SET NX the record
    | Existing                   // somebody else's record is there: about to GET it
    | Executing                  // about to debit the account
    | Debited                    // balance updated, not committed
    | Inserted                   // charge row inserted, not committed
    | Declined                   // the balance check fired: about to record a FAILED charge
    | Charged(charge: Charge)    // committed: about to store the completed record
    | Failing(error: Error)      // rolled back: about to delete the record
    | Returned(charge: Charge, replayed: bool)
    | Raised(error: Error)
    | Crashed

  datatype Request = Request(key: Key, customer: Customer, amount: int, pc: Pc)

  datatype State = State(
    accounts: map<Customer, Account>,
    charges: seq<Charge>,
    records: map<Key, Record>,
    now: int,
    requests: map<Rid, Request>)

  datatype Statement = SetNx | Get | Debit | Insert | Commit | CommitLost | InsertFailed | Store | Delete | Fail | Crash

  datatype Action =
    | Start(who: Rid, key: Key, customer: Customer, amount: int)
    | Do(who: Rid, statement: Statement)
    | Tick(elapsed: nat)

  // ---------------------------------------------------------------- steps

  function FingerprintOf(q: Request): Fingerprint {
    Fingerprint(q.customer, q.amount)
  }

  function ChargeOf(r: Rid, q: Request, status: ChargeStatus): Charge {
    Charge(r, q.key, q.customer, q.amount, status)
  }

  function Goto(s: State, r: Rid, pc: Pc): State
    requires r in s.requests
  {
    s.(requests := s.requests[r := s.requests[r].(pc := pc)])
  }

  predicate Live(s: State, k: Key) {
    k in s.records && s.now <= s.records[k].expires
  }

  function SetNxStep(s: State, r: Rid): State
    requires r in s.requests
  {
    var q := s.requests[r];
    if !q.pc.Arrived? then s
    else if Live(s, q.key) then Goto(s, r, Existing)
    else
      Goto(s, r, Executing).(records := s.records[q.key := Record(Processing(FingerprintOf(q)), s.now + RECORD_TTL)])
  }

  function GetStep(s: State, r: Rid): State
    requires r in s.requests
  {
    var q := s.requests[r];
    if !q.pc.Existing? then s
    else if !Live(s, q.key) then Goto(s, r, Raised(Vanished))
    else
      var body := s.records[q.key].body;
      if body.fingerprint != FingerprintOf(q) then Goto(s, r, Raised(KeyReused))
      else if body.Processing? then Goto(s, r, Raised(InFlight))
      else Goto(s, r, Returned(body.response, true))
  }

  function DebitStep(s: State, r: Rid): State
    requires r in s.requests
  {
    var q := s.requests[r];
    if !q.pc.Executing? then s
    else if q.customer !in s.accounts then Goto(s, r, Failing(CustomerNotFound))
    else
      var a := s.accounts[q.customer];
      if a.lock.Held? then s
      else if a.balance - q.amount < 0 then Goto(s, r, Declined)
      else Goto(s, r, Debited).(accounts := s.accounts[q.customer := a.(lock := Held(r, a.balance - q.amount))])
  }

  /** A successful charge with this key is committed: the unique index refuses another. */
  predicate KeyCharged(s: State, k: Key) {
    exists i :: 0 <= i < |s.charges| && s.charges[i].key == k && s.charges[i].status.Succeeded?
  }

  /** Another transaction has inserted, but not committed, a successful charge with this key. */
  predicate KeyPending(s: State, k: Key, r: Rid) {
    exists o :: o in s.requests && o != r && s.requests[o].key == k && s.requests[o].pc.Inserted?
  }

  /** Gives up the account row that `r` has locked, and its uncommitted balance. */
  function Rollback(s: State, r: Rid): State
    requires r in s.requests
  {
    var c := s.requests[r].customer;
    if c in s.accounts && s.accounts[c].lock.Held? && s.accounts[c].lock.owner == r then
      s.(accounts := s.accounts[c := s.accounts[c].(lock := Free)])
    else s
  }

  function InsertStep(s: State, r: Rid): State
    requires r in s.requests
  {
    var q := s.requests[r];
    if !q.pc.Debited? then s
    else if KeyCharged(s, q.key) then Goto(Rollback(s, r), r, Failing(DuplicateCharge))
    else if KeyPending(s, q.key, r) then s
    else Goto(s, r, Inserted)
  }

  /** Publishes the new balance and the charge; `lost`: the client of the database never hears of it. */
  function CommitStep(s: State, r: Rid, lost: bool): State
    requires r in s.requests
  {
    var q := s.requests[r];
    if !q.pc.Inserted? || q.customer !in s.accounts || s.accounts[q.customer].lock.Free? then s
    else
      var charge := ChargeOf(r, q, Succeeded);
      Goto(s, r, if lost then Failing(Unexpected) else Charged(charge)).(
        accounts := s.accounts[q.customer := Account(s.accounts[q.customer].lock.balance, Free)],
        charges := s.charges + [charge])
  }

  function InsertFailedStep(s: State, r: Rid): State
    requires r in s.requests
  {
    var q := s.requests[r];
    if !q.pc.Declined? then s
    else Goto(s, r, Charged(ChargeOf(r, q, Failed))).(charges := s.charges + [ChargeOf(r, q, Failed)])
  }

  function StoreStep(s: State, r: Rid): State
    requires r in s.requests
  {
    var q := s.requests[r];
    if !q.pc.Charged? then s
    else
      Goto(s, r, Returned(q.pc.charge, false)).(
        records := s.records[q.key := Record(Completed(FingerprintOf(q), q.pc.charge), s.now + RECORD_TTL)])
  }

  /** Deletes the record under the key, whoever wrote it. */
  function DeleteStep(s: State, r: Rid): State
    requires r in s.requests
  {
    var q := s.requests[r];
    if !q.pc.Failing? then s
    else Goto(s, r, Raised(q.pc.error)).(records := s.records - {q.key})
  }

  predicate InCharge(pc: Pc) {
    pc.Executing? || pc.Debited? || pc.Inserted? || pc.Declined?
  }

  predicate Over(pc: Pc) {
    pc.Returned? || pc.Raised? || pc.Crashed?
  }

  function DoStep(s: State, r: Rid, statement: Statement): State
    requires r in s.requests
  {
    match statement
    case SetNx => SetNxStep(s, r)
    case Get => GetStep(s, r)
    case Debit => DebitStep(s, r)
    case Insert => InsertStep(s, r)
    case Commit => CommitStep(s, r, false)
    case CommitLost => CommitStep(s, r, true)
    case InsertFailed => InsertFailedStep(s, r)
    case Store => StoreStep(s, r)
    case Delete => DeleteStep(s, r)
    case Fail => if InCharge(s.requests[r].pc) then Goto(Rollback(s, r), r, Failing(Unexpected)) else s
    case Crash => if Over(s.requests[r].pc) then s else Goto(Rollback(s, r), r, Crashed)
  }

  function Step(s: State, a: Action): State {
    match a
    case Start(r, key, customer, amount) =>
      if r in s.requests then s else s.(requests := s.requests[r := Request(key, customer, amount, Arrived)])
    case Do(r, statement) => if r in s.requests then DoStep(s, r, statement) else s
    case Tick(d) => s.(now := s.now + d)
  }

  function Run(s: State, run: seq<Action>): State {
    if run == [] then s
    else Step(Run(s, run[..|run| - 1]), run[|run| - 1])
  }

  function Init(balances: map<Customer, int>): State {
    State(map c | c in balances :: Account(balances[c], Free), [], map[], 0, map[])
  }

  /** What customer `c` has paid in successful charges. */
  function PaidBy(charges: seq<Charge>, c: Customer): int {
    if charges == [] then 0
    else
      var last := charges[|charges| - 1];
      PaidBy(charges[..|charges| - 1], c) + if last.customer == c && last.status.Succeeded? then last.amount else 0
  }
}
