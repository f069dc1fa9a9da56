/**
  What holds in every run of the payment protocol, with expiring records, dying processes,
  lost acknowledgements and deletions of other requests' records.
 */
module PaymentSafety {
  import opened Payments

  predicate HoldsRow(pc: Pc) {
    pc.Debited? || pc.Inserted?
  }

  /** `c` is the charge of a request with this key and payload, and it is committed. */
  predicate Backed(s: State, c: Charge, key: Key, f: Fingerprint) {
    c in s.charges && c.key == key && f == Fingerprint(c.customer, c.amount)
  }

  predicate RequestOk(s: State, r: Rid)
    requires r in s.requests
  {
    var q := s.requests[r];
    (HoldsRow(q.pc) ==>
      q.customer in s.accounts && 0 <= s.accounts[q.customer].balance - q.amount &&
      s.accounts[q.customer].lock == Held(r, s.accounts[q.customer].balance - q.amount)) &&
    (q.pc.Inserted? ==> !KeyCharged(s, q.key) && !KeyPending(s, q.key, r)) &&
    (q.pc.Charged? || q.pc.Returned? ==> Backed(s, q.pc.charge, q.key, FingerprintOf(q))) &&
    (q.pc.Charged? || (q.pc.Returned? && !q.pc.replayed) ==> q.pc.charge.id == r)
  }

  predicate AccountOk(s: State, c: Customer)
    requires c in s.accounts
  {
    s.accounts[c].lock.Held? ==>
      var o := s.accounts[c].lock.owner;
      o in s.requests && s.requests[o].customer == c && HoldsRow(s.requests[o].pc)
  }

  predicate RecordOk(s: State, k: Key)
    requires k in s.records
  {
    var body := s.records[k].body;
    body.Completed? ==> Backed(s, body.response, k, body.fingerprint)
  }

  predicate OnePerKey(charges: seq<Charge>) {
    forall i, j :: 0 <= i < j < |charges| && charges[i].status.Succeeded? && charges[j].status.Succeeded? ==>
      charges[i].key != charges[j].key
  }

  predicate Inv(s: State) {
    (forall r :: r in s.requests ==> RequestOk(s, r)) &&
    (forall c :: c in s.accounts ==> AccountOk(s, c)) &&
    (forall k :: k in s.records ==> RecordOk(s, k)) &&
    OnePerKey(s.charges)
  }

  // ---------------------------------------------------------------- every step keeps it

  predicate Mine(l: RowLock, r: Rid) {
    l.Held? ==> l.owner == r
  }

  /** A step of `r` changes its own frame, an account row it may lock, and adds its own charge at most. */
  predicate OnlyBy(s: State, t: State, r: Rid)
    requires r in s.requests
  {
    var q := s.requests[r];
    r in t.requests && t.requests == s.requests[r := t.requests[r]] && t.now == s.now &&
    t.requests[r] == q.(pc := t.requests[r].pc) &&
    t.accounts.Keys == s.accounts.Keys &&
    (forall c :: c in s.accounts && c != q.customer ==> t.accounts[c] == s.accounts[c]) &&
    (q.customer in s.accounts ==>
      t.accounts[q.customer] == s.accounts[q.customer] ||
      (Mine(s.accounts[q.customer].lock, r) && Mine(t.accounts[q.customer].lock, r))) &&
    (t.charges == s.charges ||
     t.charges == s.charges + [ChargeOf(r, q, Failed)] ||
     (t.charges == s.charges + [ChargeOf(r, q, Succeeded)] && q.pc.Inserted?)) &&
    (t.requests[r].pc.Inserted? && !q.pc.Inserted? ==> !KeyCharged(s, q.key) && !KeyPending(s, q.key, r))
  }

  lemma InsertIsOnlyBy(s: State, r: Rid)
    requires r in s.requests && RequestOk(s, r)
    ensures OnlyBy(s, InsertStep(s, r), r)
  {
  }

  lemma CommitIsOnlyBy(s: State, r: Rid, lost: bool)
    requires r in s.requests && RequestOk(s, r)
    ensures OnlyBy(s, CommitStep(s, r, lost), r)
  {
  }

  lemma RollbackIsOnlyBy(s: State, r: Rid, pc: Pc)
    requires r in s.requests && !pc.Inserted?
    ensures OnlyBy(s, Goto(Rollback(s, r), r, pc), r)
  {
  }

  lemma DebitIsOnlyBy(s: State, r: Rid)
    requires r in s.requests && RequestOk(s, r)
    ensures OnlyBy(s, DebitStep(s, r), r)
  {
  }

  lemma DoIsOnlyBy(s: State, r: Rid, statement: Statement)
    requires r in s.requests && RequestOk(s, r)
    requires s.requests[r].customer in s.accounts ==> AccountOk(s, s.requests[r].customer)
    ensures OnlyBy(s, DoStep(s, r, statement), r)
  {
    match statement
    case Debit => DebitIsOnlyBy(s, r);
    case Insert => InsertIsOnlyBy(s, r);
    case Commit => CommitIsOnlyBy(s, r, false);
    case CommitLost => CommitIsOnlyBy(s, r, true);
    case Fail => RollbackIsOnlyBy(s, r, Failing(Unexpected));
    case Crash => RollbackIsOnlyBy(s, r, Crashed);
    case _ =>
  }

  lemma ChargesGrow(s: State, t: State, r: Rid)
    requires r in s.requests && OnlyBy(s, t, r)
    ensures forall c :: c in s.charges ==> c in t.charges
    ensures forall k :: KeyCharged(t, k) ==> KeyCharged(s, k) || (k == s.requests[r].key && s.requests[r].pc.Inserted?)
  {
    forall k | KeyCharged(t, k) && !KeyCharged(s, k) ensures k == s.requests[r].key && s.requests[r].pc.Inserted? {
      var i :| 0 <= i < |t.charges| && t.charges[i].key == k && t.charges[i].status.Succeeded?;
    }
  }

  lemma OthersStayOk(s: State, t: State, r: Rid, o: Rid)
    requires Inv(s) && r in s.requests && o in s.requests && o != r && OnlyBy(s, t, r)
    ensures RequestOk(t, o)
  {
    assert RequestOk(s, o) && RequestOk(s, r);
    ChargesGrow(s, t, r);
    var q := s.requests[o];
    if q.pc.Inserted? {
      // Nobody else's insert with this key can be pending beside ours.
      assert !KeyPending(s, q.key, o);
      assert s.requests[r].pc.Inserted? ==> s.requests[r].key != q.key;
    }
  }

  lemma DoKeepsOwn(s: State, r: Rid, statement: Statement)
    requires r in s.requests && RequestOk(s, r)
    requires s.requests[r].customer in s.accounts ==> AccountOk(s, s.requests[r].customer)
    requires s.requests[r].key in s.records ==> RecordOk(s, s.requests[r].key)
    ensures RequestOk(DoStep(s, r, statement), r)
  {
    var q, t := s.requests[r], DoStep(s, r, statement);
    match statement
    case Commit => assert q.pc.Inserted? ==> t == s || t.charges[|s.charges|] == ChargeOf(r, q, Succeeded);
    case InsertFailed => assert q.pc.Declined? ==> t.charges[|s.charges|] == ChargeOf(r, q, Failed);
    case Insert =>
    case Fail =>
    case Crash =>
    case _ =>
  }

  lemma DoKeepsAccount(s: State, r: Rid, statement: Statement)
    requires r in s.requests && RequestOk(s, r)
    requires s.requests[r].customer in s.accounts && AccountOk(s, s.requests[r].customer)
    ensures s.requests[r].customer in DoStep(s, r, statement).accounts
    ensures AccountOk(DoStep(s, r, statement), s.requests[r].customer)
  {
    match statement
    case Fail =>
    case Crash =>
    case _ =>
  }

  lemma BackingStays(s: State, t: State, c: Charge, key: Key, f: Fingerprint)
    requires Backed(s, c, key, f) && forall d :: d in s.charges ==> d in t.charges
    ensures Backed(t, c, key, f)
  {
  }

  /** Only a store adds a completed record, and it has its charge. */
  lemma RecordsChange(s: State, r: Rid, statement: Statement, k: Key)
    requires r in s.requests && k in DoStep(s, r, statement).records
    ensures var body := DoStep(s, r, statement).records[k].body;
      body.Processing? || (k in s.records && s.records[k].body == body) ||
      (s.requests[r].pc.Charged? && k == s.requests[r].key &&
       body == Completed(FingerprintOf(s.requests[r]), s.requests[r].pc.charge))
  {
    match statement
    case Fail =>
    case Crash =>
    case _ =>
  }

  lemma DoKeepsRecords(s: State, r: Rid, statement: Statement, k: Key)
    requires Inv(s) && r in s.requests && k in DoStep(s, r, statement).records
    ensures RecordOk(DoStep(s, r, statement), k)
  {
    var t := DoStep(s, r, statement);
    var body := t.records[k].body;
    assert RequestOk(s, r);
    assert s.requests[r].customer in s.accounts ==> AccountOk(s, s.requests[r].customer);
    DoIsOnlyBy(s, r, statement);
    ChargesGrow(s, t, r);
    RecordsChange(s, r, statement, k);
    if k in s.records { assert RecordOk(s, k); }
    if body.Completed? { BackingStays(s, t, body.response, k, body.fingerprint); }
  }

  lemma DoKeepsOnePerKey(s: State, r: Rid, statement: Statement)
    requires r in s.requests && RequestOk(s, r) && OnePerKey(s.charges)
    requires s.requests[r].customer in s.accounts ==> AccountOk(s, s.requests[r].customer)
    ensures OnePerKey(DoStep(s, r, statement).charges)
  {
    DoIsOnlyBy(s, r, statement);
    var q, t := s.requests[r], DoStep(s, r, statement);
    if t.charges == s.charges + [ChargeOf(r, q, Succeeded)] && q.pc.Inserted? {
      forall i | 0 <= i < |s.charges| && s.charges[i].status.Succeeded? ensures s.charges[i].key != q.key {
        assert !KeyCharged(s, q.key);
      }
    }
  }

  lemma DoKeepsInv(s: State, r: Rid, statement: Statement)
    requires Inv(s) && r in s.requests
    ensures Inv(DoStep(s, r, statement))
  {
    var t, q := DoStep(s, r, statement), s.requests[r];
    assert RequestOk(s, r) && (q.customer in s.accounts ==> AccountOk(s, q.customer));
    assert q.key in s.records ==> RecordOk(s, q.key);
    DoIsOnlyBy(s, r, statement);
    forall o | o in t.requests ensures RequestOk(t, o) {
      if o == r { DoKeepsOwn(s, r, statement); } else { OthersStayOk(s, t, r, o); }
    }
    forall c | c in t.accounts ensures AccountOk(t, c) {
      assert AccountOk(s, c);
      if c == q.customer { DoKeepsAccount(s, r, statement); }
    }
    forall k | k in t.records ensures RecordOk(t, k) { DoKeepsRecords(s, r, statement, k); }
    DoKeepsOnePerKey(s, r, statement);
  }

  lemma StepKeepsInv(s: State, a: Action)
    requires Inv(s)
    ensures Inv(Step(s, a))
  {
    var t := Step(s, a);
    if a.Do? && a.who in s.requests {
      DoKeepsInv(s, a.who, a.statement);
    } else {
      forall o | o in t.requests ensures RequestOk(t, o) {
        if o in s.requests { assert RequestOk(s, o); }
      }
      forall c | c in t.accounts ensures AccountOk(t, c) { assert AccountOk(s, c); }
      forall k | k in t.records ensures RecordOk(t, k) { assert RecordOk(s, k); }
    }
  }

  lemma {:induction false} RunKeepsInv(balances: map<Customer, int>, run: seq<Action>)
    ensures Inv(Run(Init(balances), run))
  {
    if run != [] {
      RunKeepsInv(balances, run[..|run| - 1]);
      StepKeepsInv(Run(Init(balances), run[..|run| - 1]), run[|run| - 1]);
    }
  }

  // ---------------------------------------------------------------- money

  predicate Balanced(balances: map<Customer, int>, s: State) {
    s.accounts.Keys == balances.Keys &&
    forall c :: c in balances ==>
      s.accounts[c].balance + PaidBy(s.charges, c) == balances[c] &&
      (0 <= balances[c] ==> 0 <= s.accounts[c].balance)
  }

  lemma StepKeepsBalanced(balances: map<Customer, int>, s: State, a: Action)
    requires Inv(s) && Balanced(balances, s)
    ensures Balanced(balances, Step(s, a))
  {
    if a.Do? && a.who in s.requests {
      var r, q := a.who, s.requests[a.who];
      assert RequestOk(s, r) && (q.customer in s.accounts ==> AccountOk(s, q.customer));
      var one, other := s.charges + [ChargeOf(r, q, Succeeded)], s.charges + [ChargeOf(r, q, Failed)];
      assert one[..|one| - 1] == s.charges && other[..|other| - 1] == s.charges;
      BalancesMove(s, r, a.statement);
    }
  }

  /** A committed balance drops by the amount exactly when the successful charge is recorded. */
  lemma BalancesMove(s: State, r: Rid, statement: Statement)
    requires r in s.requests && RequestOk(s, r)
    ensures var q, t := s.requests[r], DoStep(s, r, statement);
      t.accounts.Keys == s.accounts.Keys &&
      (forall c :: c in s.accounts && c != q.customer ==> t.accounts[c].balance == s.accounts[c].balance) &&
      (if q.pc.Inserted? && (statement.Commit? || statement.CommitLost?) then
         t.charges == s.charges + [ChargeOf(r, q, Succeeded)] && q.customer in s.accounts &&
         t.accounts[q.customer].balance == s.accounts[q.customer].balance - q.amount &&
         0 <= t.accounts[q.customer].balance
       else
         (t.charges == s.charges || t.charges == s.charges + [ChargeOf(r, q, Failed)]) &&
         forall c :: c in s.accounts ==> t.accounts[c].balance == s.accounts[c].balance)
  {
    match statement
    case Fail =>
    case Crash =>
    case _ =>
  }

  /** In every run: balance plus successful charges is constant, and no balance goes negative. */
  lemma {:induction false} MoneyIsConserved(balances: map<Customer, int>, run: seq<Action>)
    ensures Balanced(balances, Run(Init(balances), run))
  {
    if run != [] {
      MoneyIsConserved(balances, run[..|run| - 1]);
      RunKeepsInv(balances, run[..|run| - 1]);
      StepKeepsBalanced(balances, Run(Init(balances), run[..|run| - 1]), run[|run| - 1]);
    }
  }

  /** In every run an idempotency key has at most one successful charge. */
  lemma ChargedAtMostOnce(balances: map<Customer, int>, run: seq<Action>, a: Charge, b: Charge)
    requires a in Run(Init(balances), run).charges && b in Run(Init(balances), run).charges
    requires a.status.Succeeded? && b.status.Succeeded? && a.key == b.key
    ensures a == b
  {
    RunKeepsInv(balances, run);
    var cs := Run(Init(balances), run).charges;
    var i, j :| 0 <= i < |cs| && 0 <= j < |cs| && cs[i] == a && cs[j] == b;
    assert i == j;
  }

  /**
    In every run a completed record, and whatever a request returns, is a committed charge
    with that key and payload.
   */
  lemma ResponsesAreBacked(balances: map<Customer, int>, run: seq<Action>)
    ensures var s := Run(Init(balances), run);
      (forall k :: k in s.records && s.records[k].body.Completed? ==>
        Backed(s, s.records[k].body.response, k, s.records[k].body.fingerprint)) &&
      (forall r :: r in s.requests && s.requests[r].pc.Returned? ==>
        Backed(s, s.requests[r].pc.charge, s.requests[r].key, FingerprintOf(s.requests[r])))
  {
    RunKeepsInv(balances, run);
    var s := Run(Init(balances), run);
    forall k | k in s.records && s.records[k].body.Completed?
      ensures Backed(s, s.records[k].body.response, k, s.records[k].body.fingerprint)
    {
      assert RecordOk(s, k);
    }
    forall r | r in s.requests && s.requests[r].pc.Returned?
      ensures Backed(s, s.requests[r].pc.charge, s.requests[r].key, FingerprintOf(s.requests[r]))
    {
      assert RequestOk(s, r);
    }
  }

  // ---------------------------------------------------------------- refusals

  /** Step `k` of the run is the debit for the charge `c`, and the committed balance does not cover it. */
  predicate FallsShortAt(balances: map<Customer, int>, run: seq<Action>, k: nat, c: Charge)
    requires k < |run|
  {
    var s := Run(Init(balances), run[..k]);
    run[k] == Do(c.id, Debit) && c.customer in s.accounts && s.accounts[c.customer].balance < c.amount
  }

  ghost predicate HasFallenShort(balances: map<Customer, int>, run: seq<Action>, c: Charge) {
    exists k :: 0 <= k < |run| && FallsShortAt(balances, run, k, c)
  }

  /** The failed charges of a state, and those that are about to be recorded. */
  predicate Refuses(s: State, c: Charge) {
    (c in s.charges && c.status.Failed?) ||
    (c.id in s.requests && s.requests[c.id].pc.Declined? && c == ChargeOf(c.id, s.requests[c.id], Failed))
  }

  lemma NewRefusals(s: State, a: Action, c: Charge)
    requires Refuses(Step(s, a), c) && !Refuses(s, c)
    ensures a == Do(c.id, Debit) && c.customer in s.accounts && s.accounts[c.customer].balance < c.amount
  {
  }

  lemma ShortfallsStay(balances: map<Customer, int>, run: seq<Action>, c: Charge)
    requires run != [] && HasFallenShort(balances, run[..|run| - 1], c)
    ensures HasFallenShort(balances, run, c)
  {
    var front := run[..|run| - 1];
    var k :| 0 <= k < |front| && FallsShortAt(balances, front, k, c);
    assert front[..k] == run[..k];
    assert FallsShortAt(balances, run, k, c);
  }

  /** In every run a charge is recorded as FAILED only if the balance was below its amount when it was debited. */
  lemma {:induction false} RefusalsAreJustified(balances: map<Customer, int>, run: seq<Action>, c: Charge)
    requires Refuses(Run(Init(balances), run), c)
    ensures HasFallenShort(balances, run, c)
  {
    if run != [] {
      var front := run[..|run| - 1];
      if Refuses(Run(Init(balances), front), c) {
        RefusalsAreJustified(balances, front, c);
        ShortfallsStay(balances, run, c);
      } else {
        NewRefusals(Run(Init(balances), front), run[|run| - 1], c);
        assert FallsShortAt(balances, run, |front|, c);
      }
    }
  }
}
