/**
  The payment service in place, over the database and the key store, with other requests,
  failures and the clock at every await.  `Valid()`: the fields are what `history` produces.
 */
module PaymentService {
  import opened Payments
  import opened PaymentSafety

  predicate OthersOnly(run: seq<Action>, me: Rid) {
    forall i :: 0 <= i < |run| ==> run[i].Tick? || run[i].who != me
  }

  lemma OtherStepKeepsMyFrame(s: State, a: Action, me: Rid)
    requires (a.Tick? || a.who != me) && me in s.requests
    ensures me in Step(s, a).requests && Step(s, a).requests[me] == s.requests[me]
  {
    if a.Do? && a.who in s.requests {
      match a.statement
      case Fail =>
      case Crash =>
      case _ =>
    }
  }

  lemma {:induction false} OthersKeepMyFrame(s: State, run: seq<Action>, me: Rid)
    requires OthersOnly(run, me) && me in s.requests
    ensures me in Run(s, run).requests && Run(s, run).requests[me] == s.requests[me]
  {
    if run != [] {
      OthersKeepMyFrame(s, run[..|run| - 1], me);
      OtherStepKeepsMyFrame(Run(s, run[..|run| - 1]), run[|run| - 1], me);
    }
  }

  lemma {:induction false} RunConcat(s: State, first: seq<Action>, rest: seq<Action>)
    ensures Run(s, first + rest) == Run(Run(s, first), rest)
  {
    if rest == [] {
      assert first + rest == first;
    } else {
      RunConcat(s, first, rest[..|rest| - 1]);
      assert (first + rest)[..|first + rest| - 1] == first + rest[..|rest| - 1];
    }
  }

  lemma OneStep(s: State, a: Action)
    ensures Run(s, [a]) == Step(s, a)
  {
    assert [a][..0] == [];
  }

  lemma ReturnsAreBacked(s: State, r: Rid)
    requires Inv(s) && r in s.requests && s.requests[r].pc.Returned?
    ensures Backed(s, s.requests[r].pc.charge, s.requests[r].key, FingerprintOf(s.requests[r]))
  {
    assert RequestOk(s, r);
  }

  class PaymentService {
    var accounts: map<Customer, Account>
    var charges: seq<Charge>
    var records: map<Key, Record>
    var now: int
    var requests: map<Rid, Request>
    const mayFail: bool                      // whether statements can raise
    ghost const balances: map<Customer, int> // balances before any request
    ghost var history: seq<Action>

    ghost function View(): State
      reads this
    {
      State(accounts, charges, records, now, requests)
    }

    ghost predicate Valid()
      reads this
    {
      View() == Run(Init(balances), history) && Inv(View())
    }

    constructor (balances: map<Customer, int>, mayFail: bool)
      ensures Valid() && history == [] && this.balances == balances && this.mayFail == mayFail
    {
      accounts := map c | c in balances :: Account(balances[c], Free);
      charges, records, now, requests := [], map[], 0, map[];
      this.balances, this.mayFail, history := balances, mayFail, [];
    }

    method Become(run: seq<Action>)
      requires Valid()
      modifies this
      ensures Valid() && history == old(history) + run && View() == Run(old(View()), run)
    {
      RunConcat(Init(balances), history, run);
      var s := Run(State(accounts, charges, records, now, requests), run);
      accounts, charges, records, now, requests := s.accounts, s.charges, s.records, s.now, s.requests;
      history := history + run;
      RunKeepsInv(balances, history);
    }

    /** Time passes and other requests run; the awaited statement may raise (`!ok`). */
    method Await(me: Rid) returns (ok: bool)
      requires Valid() && me in requests
      modifies this
      ensures Valid() && old(history) <= history && OthersOnly(history[|old(history)|..], me)
      ensures me in requests && requests[me] == old(requests[me]) && RequestOk(View(), me)
      ensures !ok ==> mayFail
    {
      var run: seq<Action> := *;
      if !OthersOnly(run, me) { run := []; }
      OthersKeepMyFrame(View(), run, me);
      Become(run);
      ok := *;
      ok := ok || !mayFail;
    }

    /** `other`, which keeps `me` waiting, is over at the latest when its process dies. */
    method Outlive(me: Rid, other: Rid)
      requires Valid() && me in requests && other in requests && other != me && !Over(requests[other].pc)
      modifies this
      ensures Valid() && history == old(history) + [Do(other, Crash)]
      ensures me in requests && requests[me] == old(requests[me]) && RequestOk(View(), me)
      ensures View() == CrashOf(old(View()), other)
    {
      OtherStepKeepsMyFrame(View(), Do(other, Crash), me);
      OneStep(View(), Do(other, Crash));
      Become([Do(other, Crash)]);
    }

    /** The state before the last step. */
    ghost function Before(): State
      reads this
    {
      Run(Init(balances), if history == [] then [] else history[..|history| - 1])
    }

    /** The last step has moved the amount from the balance to a SUCCEEDED charge. */
    ghost predicate HasPaid(me: Rid, q: Request)
      reads this
    {
      var s, c := Before(), q.customer;
      c in s.accounts && 0 <= s.accounts[c].balance - q.amount &&
      accounts == s.accounts[c := Account(s.accounts[c].balance - q.amount, Free)] &&
      charges == s.charges + [ChargeOf(me, q, Succeeded)]
    }

    /** The last step has recorded a FAILED charge and left the balances alone. */
    ghost predicate HasRefused(me: Rid, q: Request)
      reads this
    {
      accounts == Before().accounts && charges == Before().charges + [ChargeOf(me, q, Failed)] &&
      HasFallenShort(balances, history, ChargeOf(me, q, Failed))
    }

    /** The last step has left all balances and charges alone, and `me` holds no row. */
    ghost predicate LeftNothing(me: Rid)
      reads this
    {
      charges == Before().charges && accounts.Keys == Before().accounts.Keys &&
      forall c :: c in accounts ==>
        accounts[c].balance == Before().accounts[c].balance &&
        (accounts[c].lock.Held? ==> accounts[c].lock.owner != me)
    }

    /** `me` moves on to `pc`: together with the changes just made, that is the step `a`. */
    method Advance(me: Rid, pc: Pc, ghost a: Action)
      requires me in requests && Inv(Run(Init(balances), history))
      requires Step(Run(Init(balances), history), a) == Goto(View(), me, pc)
      modifies `requests, `history
      ensures Valid() && history == old(history) + [a]
      ensures requests == old(requests)[me := old(requests)[me].(pc := pc)]
      ensures Before() == old(Run(Init(balances), history))
    {
      StepKeepsInv(Run(Init(balances), history), a);
      requests := requests[me := requests[me].(pc := pc)];
      history := history + [a];
      assert history[..|history| - 1] == old(history);
    }

    /** `me` is request `q` and stands at `pc`. */
    ghost predicate At(me: Rid, q: Request, pc: Pc)
      reads this
    {
      Valid() && me in requests && requests[me] == q.(pc := pc)
    }

    /** How a charge can end: paid, refused, or failed, each with what it has left behind. */
    ghost predicate ChargeDone(me: Rid, q: Request)
      reads this
    {
      (At(me, q, Charged(ChargeOf(me, q, Succeeded))) && HasPaid(me, q)) ||
      (At(me, q, Charged(ChargeOf(me, q, Failed))) && HasRefused(me, q)) ||
      (At(me, q, Failing(CustomerNotFound)) && q.customer !in accounts && LeftNothing(me)) ||
      (At(me, q, Failing(DuplicateCharge)) && LeftNothing(me) &&
       exists c :: c in charges && c.key == q.key && c.status.Succeeded?) ||
      (mayFail && At(me, q, Failing(Unexpected)) && (LeftNothing(me) || HasPaid(me, q)))
    }

    method Undo(me: Rid, q: Request, e: Error, ghost a: Action)
      requires me in requests && At(me, q, requests[me].pc)
      requires Step(View(), a) == Goto(Rollback(View(), me), me, Failing(e))
      modifies this
      ensures At(me, q, Failing(e)) && history == old(history) + [a] && LeftNothing(me) && charges == old(charges)
    {
      var c := q.customer;
      forall d | d in accounts && d != c && accounts[d].lock.Held? ensures accounts[d].lock.owner != me {
        assert AccountOk(View(), d);
      }
      if c in accounts && accounts[c].lock.Held? && accounts[c].lock.owner == me {
        accounts := accounts[c := accounts[c].(lock := Free)];
      }
      Advance(me, Failing(e), a);
    }

    /** An exception inside the charge. */
    method Raise(me: Rid, q: Request)
      requires me in requests && At(me, q, requests[me].pc) && InCharge(requests[me].pc)
      modifies this
      ensures At(me, q, Failing(Unexpected)) && old(history) <= history && LeftNothing(me)
    {
      Undo(me, q, Unexpected, Do(me, Fail));
    }

    /** UPDATE the balance; the check constraint may refuse. */
    method DebitAccount(me: Rid, q: Request)
      requires At(me, q, Executing)
      modifies this
      ensures old(history) <= history
      ensures DebitDone(me, q) || ChargeDone(me, q)
    {
      var ok := Await(me);
      if !ok { Raise(me, q); return; }
      if q.customer in accounts && accounts[q.customer].lock.Held? {
        assert AccountOk(View(), q.customer);
        Outlive(me, accounts[q.customer].lock.owner);
      }
      DebitFreeRow(me, q);
    }

    /** The row is locked with the new balance, or the balance is too small. */
    ghost predicate DebitDone(me: Rid, q: Request)
      reads this
    {
      var c := q.customer;
      (At(me, q, Debited) && c in accounts && accounts[c].balance >= q.amount &&
       accounts[c].lock == Held(me, accounts[c].balance - q.amount)) ||
      (At(me, q, Declined) && c in accounts && accounts[c].balance < q.amount)
    }

    method DebitFreeRow(me: Rid, q: Request)
      requires At(me, q, Executing)
      requires q.customer in accounts ==> accounts[q.customer].lock.Free?
      modifies this
      ensures old(history) <= history && (DebitDone(me, q) || ChargeDone(me, q))
    {
      var c := q.customer;
      if c !in accounts {
        forall d | d in accounts && accounts[d].lock.Held? ensures accounts[d].lock.owner != me {
          assert AccountOk(View(), d);
        }
        Advance(me, Failing(CustomerNotFound), Do(me, Debit));
      } else if accounts[c].balance - q.amount < 0 {
        Advance(me, Declined, Do(me, Debit));
      } else {
        accounts := accounts[c := accounts[c].(lock := Held(me, accounts[c].balance - q.amount))];
        Advance(me, Debited, Do(me, Debit));
      }
    }

    /** INSERT the charge; the unique index may refuse, or make us wait for another insert. */
    method InsertCharge(me: Rid, q: Request)
      requires At(me, q, Debited)
      modifies this
      ensures old(history) <= history
      ensures At(me, q, Inserted) || ChargeDone(me, q)
    {
      var ok := Await(me);
      if !ok { Raise(me, q); return; }
      if exists o :: o in requests && o != me && requests[o].key == q.key && requests[o].pc.Inserted? {
        var o :| o in requests && o != me && requests[o].key == q.key && requests[o].pc.Inserted?;
        assert RequestOk(View(), o);
        Outlive(me, o);
      }
      InsertRow(me, q);
    }

    method InsertRow(me: Rid, q: Request)
      requires At(me, q, Debited) && !KeyPending(View(), q.key, me)
      modifies this
      ensures old(history) <= history && (At(me, q, Inserted) || ChargeDone(me, q))
    {
      if KeyCharged(State(accounts, charges, records, now, requests), q.key) {
        Undo(me, q, DuplicateCharge, Do(me, Insert));
      } else {
        Advance(me, Inserted, Do(me, Insert));
      }
    }

    /** COMMIT: the new balance and the charge become visible together; the reply may get lost. */
    method CommitCharge(me: Rid, q: Request)
      requires At(me, q, Inserted)
      modifies this
      ensures old(history) <= history
      ensures ChargeDone(me, q)
    {
      var ok := Await(me);
      if !ok { Raise(me, q); return; }
      var lost: bool := *;
      Publish(me, q, lost && mayFail);
    }

    method Publish(me: Rid, q: Request, lost: bool)
      requires At(me, q, Inserted) && RequestOk(View(), me)
      modifies this
      ensures old(history) <= history && HasPaid(me, q)
      ensures At(me, q, if lost then Failing(Unexpected) else Charged(ChargeOf(me, q, Succeeded)))
    {
      accounts := accounts[q.customer := Account(accounts[q.customer].lock.balance, Free)];
      charges := charges + [ChargeOf(me, q, Succeeded)];
      if lost {
        Advance(me, Failing(Unexpected), Do(me, CommitLost));
      } else {
        Advance(me, Charged(ChargeOf(me, q, Succeeded)), Do(me, Commit));
      }
    }

    method RecordFailure(me: Rid, q: Request)
      requires At(me, q, Declined)
      modifies this
      ensures old(history) <= history
      ensures ChargeDone(me, q)
    {
      var ok := Await(me);
      if !ok { Raise(me, q); return; }
      charges := charges + [ChargeOf(me, q, Failed)];
      Advance(me, Charged(ChargeOf(me, q, Failed)), Do(me, InsertFailed));
      RefusalsAreJustified(balances, history, ChargeOf(me, q, Failed));
    }

    /** Debit and charge in one transaction; a refused balance leaves a FAILED charge instead. */
    method ChargeAccount(me: Rid, q: Request)
      requires At(me, q, Executing)
      modifies this
      ensures old(history) <= history && ChargeDone(me, q)
    {
      DebitAccount(me, q);
      if requests[me].pc.Declined? {
        RecordFailure(me, q);
      } else if requests[me].pc.Debited? {
        InsertAndCommit(me, q);
      }
    }

    method InsertAndCommit(me: Rid, q: Request)
      requires At(me, q, Debited)
      modifies this
      ensures old(history) <= history && ChargeDone(me, q)
    {
      InsertCharge(me, q);
      if requests[me].pc.Inserted? { CommitCharge(me, q); }
    }

    /** The request has ended at `pc`. */
    ghost predicate Ended(me: Rid, key: Key, customer: Customer, amount: int, pc: Pc)
      reads this
    {
      Valid() && me in requests && requests[me] == Request(key, customer, amount, pc) &&
      match pc
      case Returned(charge, replayed) => Backed(View(), charge, key, Fingerprint(customer, amount))
      case Raised(e) => e.Unexpected? ==> mayFail
      case _ => false
    }

    /** What the record under the key, if it is live, has to say to `q`. */
    ghost function AnswerFromRecord(q: Request): Pc
      reads this
    {
      if q.key !in records || records[q.key].expires < now then Raised(Vanished)
      else
        match records[q.key].body
        case Processing(f) => if f == FingerprintOf(q) then Raised(InFlight) else Raised(KeyReused)
        case Completed(f, response) => if f == FingerprintOf(q) then Returned(response, true) else Raised(KeyReused)
    }

    /** Somebody else's record is there: replay it, or refuse. */
    method HandleExisting(me: Rid, q: Request)
      requires Valid() && me in requests && requests[me] == q && q.pc.Existing?
      modifies this
      ensures old(history) <= history && me in requests && Ended(me, q.key, q.customer, q.amount, requests[me].pc)
      ensures requests[me].pc == AnswerFromRecord(q) && records == Before().records
    {
      var _ := Await(me);
      if q.key !in records || records[q.key].expires < now {
        Advance(me, Raised(Vanished), Do(me, Get));
      } else if records[q.key].body.fingerprint != FingerprintOf(q) {
        Advance(me, Raised(KeyReused), Do(me, Get));
      } else if records[q.key].body.Processing? {
        Advance(me, Raised(InFlight), Do(me, Get));
      } else {
        Advance(me, Returned(records[q.key].body.response, true), Do(me, Get));
        assert RequestOk(View(), me);
      }
    }

    /** The first request to set the record executes; its outcome replaces the record, its failure deletes it. */
    method ChargeWithIdempotency(me: Rid, key: Key, customer: Customer, amount: int)
      requires Valid() && me !in requests
      modifies this
      ensures old(history) <= history && me in requests && Ended(me, key, customer, amount, requests[me].pc)
    {
      var q := Arrive(me, key, customer, amount);
      var acquired := Acquire(me, q);
      if acquired { Execute(me, q); } else { HandleExisting(me, q.(pc := Existing)); }
    }

    /** Charge, then replace the record by the outcome or delete it. */
    method Execute(me: Rid, q: Request)
      requires At(me, q, Executing)
      modifies this
      ensures old(history) <= history && me in requests && Ended(me, q.key, q.customer, q.amount, requests[me].pc)
    {
      ChargeAccount(me, q);
      Conclude(me, requests[me]);
    }

    /** SET NX the processing record. */
    method Acquire(me: Rid, q: Request) returns (acquired: bool)
      requires At(me, q, Arrived) && q.pc.Arrived?
      modifies this
      ensures old(history) <= history && At(me, q, if acquired then Executing else Existing)
      ensures acquired <==> q.key !in Before().records || Before().records[q.key].expires < Before().now
      ensures records == if acquired
        then Before().records[q.key := Record(Processing(FingerprintOf(q)), now + RECORD_TTL)]
        else Before().records
    {
      var _ := Await(me);
      if q.key in records && now <= records[q.key].expires {
        Advance(me, Existing, Do(me, SetNx));
        return false;
      }
      records := records[q.key := Record(Processing(FingerprintOf(q)), now + RECORD_TTL)];
      Advance(me, Executing, Do(me, SetNx));
      return true;
    }

    method Arrive(me: Rid, key: Key, customer: Customer, amount: int) returns (q: Request)
      requires Valid() && me !in requests
      modifies this
      ensures q == Request(key, customer, amount, Arrived) && At(me, q, Arrived) && old(history) <= history
    {
      q := Request(key, customer, amount, Arrived);
      StepKeepsInv(View(), Start(me, key, customer, amount));
      requests := requests[me := q];
      history := history + [Start(me, key, customer, amount)];
    }

    method Conclude(me: Rid, q: Request)
      requires Valid() && me in requests && requests[me] == q
      requires q.pc.Charged? || (q.pc.Failing? && (q.pc.error.Unexpected? ==> mayFail))
      modifies this
      ensures old(history) <= history && me in requests && Ended(me, q.key, q.customer, q.amount, requests[me].pc)
    {
      if q.pc.Charged? { StoreResponse(me, q); } else { DropRecord(me, q); }
    }

    method StoreResponse(me: Rid, q: Request)
      requires Valid() && me in requests && requests[me] == q && q.pc.Charged?
      modifies this
      ensures old(history) <= history && Ended(me, q.key, q.customer, q.amount, Returned(q.pc.charge, false))
      ensures q.key in records && records[q.key].body == Completed(FingerprintOf(q), q.pc.charge)
    {
      var _ := Await(me);
      PutResponse(me, q);
      ReturnsAreBacked(View(), me);
    }

    /** SET the completed record. */
    method PutResponse(me: Rid, q: Request)
      requires Valid() && me in requests && requests[me] == q && q.pc.Charged?
      modifies this
      ensures At(me, q, Returned(q.pc.charge, false)) && history == old(history) + [Do(me, Store)]
      ensures records == old(records)[q.key := Record(Completed(FingerprintOf(q), q.pc.charge), now + RECORD_TTL)]
    {
      ghost var s := View();
      records := records[q.key := Record(Completed(FingerprintOf(q), q.pc.charge), now + RECORD_TTL)];
      assert Step(s, Do(me, Store)) == StoreStep(s, me);
      Advance(me, Returned(q.pc.charge, false), Do(me, Store));
    }

    method DropRecord(me: Rid, q: Request)
      requires Valid() && me in requests && requests[me] == q
      requires q.pc.Failing? && (q.pc.error.Unexpected? ==> mayFail)
      modifies this
      ensures old(history) <= history && Ended(me, q.key, q.customer, q.amount, Raised(q.pc.error))
      ensures q.key !in records
    {
      var _ := Await(me);
      records := records - {q.key};
      Advance(me, Raised(q.pc.error), Do(me, Delete));
    }
  }

  function CrashOf(s: State, r: Rid): State
    requires r in s.requests
  {
    Goto(Rollback(s, r), r, Crashed)
  }
}
