/**
  While no record expires, a key is charged by one execution at a time, one execution at
  most returns normally, and every replay is that execution's response.
 */
module PaymentReplay {
  import opened Payments

  predicate NothingExpired(s: State) {
    forall k :: k in s.records ==> s.now <= s.records[k].expires
  }

  ghost predicate NoExpiry(s: State, run: seq<Action>) {
    forall k :: 0 <= k <= |run| ==> NothingExpired(Run(s, run[..k]))
  }

  /** Between acquiring the key and storing the result or deleting the record. */
  predicate Executes(s: State, r: Rid) {
    r in s.requests && (InCharge(s.requests[r].pc) || s.requests[r].pc.Charged? || s.requests[r].pc.Failing?)
  }

  /** `r` charged for itself and returned the outcome. */
  predicate Answered(s: State, r: Rid) {
    r in s.requests && s.requests[r].pc.Returned? && !s.requests[r].pc.replayed
  }

  predicate HasBody(s: State, k: Key, body: Body) {
    k in s.records && s.records[k].body == body
  }

  predicate Owns(s: State, r: Rid) {
    Executes(s, r) || Answered(s, r)
  }

  predicate KeyOk(s: State, r: Rid)
    requires r in s.requests
  {
    var q := s.requests[r];
    (Executes(s, r) ==> HasBody(s, q.key, Processing(FingerprintOf(q)))) &&
    (Answered(s, r) ==> HasBody(s, q.key, Completed(FingerprintOf(q), q.pc.charge)))
  }

  /** Whoever is recorded as completed, one request did it. */
  predicate RecordOwned(s: State, k: Key)
    requires k in s.records
  {
    s.records[k].body.Completed? ==> exists r :: r in s.requests && s.requests[r].key == k && Answered(s, r)
  }

  predicate ReplayOk(s: State, r: Rid)
    requires r in s.requests
  {
    var q := s.requests[r];
    q.pc.Returned? && q.pc.replayed ==> HasBody(s, q.key, Completed(FingerprintOf(q), q.pc.charge))
  }

  predicate Inv(s: State) {
    (forall r :: r in s.requests ==> KeyOk(s, r) && ReplayOk(s, r)) &&
    (forall r, o :: r in s.requests && o in s.requests && r != o && Owns(s, r) && Owns(s, o) ==>
      s.requests[r].key != s.requests[o].key) &&
    (forall k :: k in s.records ==> RecordOwned(s, k))
  }

  /**
    A step of `r` leaves the records of other keys alone; it writes its own key's record
    only if there is none or `r` executes, and then only `r` comes to own the key.
   */
  ghost predicate OnlyBy(s: State, t: State, r: Rid)
    requires r in s.requests
  {
    var k := s.requests[r].key;
    r in t.requests && t.requests == s.requests[r := t.requests[r]] && t.requests[r].key == k &&
    FingerprintOf(t.requests[r]) == FingerprintOf(s.requests[r]) &&
    (forall j :: j != k ==>
      (j in t.records <==> j in s.records) && (j in s.records ==> t.records[j] == s.records[j])) &&
    ((k in t.records && k in s.records && t.records[k] == s.records[k]) || k !in s.records || Executes(s, r)) &&
    (Owns(t, r) ==> Owns(s, r) || k !in s.records) &&
    (Answered(s, r) ==> t.requests[r] == s.requests[r])
  }

  /** Steps that leave the records alone and do not make `r` own its key. */
  lemma QuietIsOnlyBy(s: State, t: State, r: Rid)
    requires r in s.requests && r in t.requests && t.records == s.records
    requires t.requests == s.requests[r := s.requests[r].(pc := t.requests[r].pc)]
    requires Owns(t, r) ==> Owns(s, r)
    requires Answered(s, r) ==> t.requests[r] == s.requests[r]
    ensures OnlyBy(s, t, r)
  {
  }

  lemma SetNxIsOnlyBy(s: State, r: Rid)
    requires r in s.requests && NothingExpired(s)
    ensures OnlyBy(s, SetNxStep(s, r), r)
  {
  }

  lemma DoIsOnlyBy(s: State, r: Rid, statement: Statement)
    requires r in s.requests && NothingExpired(s)
    ensures OnlyBy(s, DoStep(s, r, statement), r)
  {
    match statement
    case SetNx => SetNxIsOnlyBy(s, r);
    case Store =>
    case Delete =>
    case _ => QuietIsOnlyBy(s, DoStep(s, r, statement), r);
  }

  lemma DoKeepsOwn(s: State, r: Rid, statement: Statement)
    requires r in s.requests && NothingExpired(s) && KeyOk(s, r) && ReplayOk(s, r)
    ensures KeyOk(DoStep(s, r, statement), r) && ReplayOk(DoStep(s, r, statement), r)
    ensures var k, t := s.requests[r].key, DoStep(s, r, statement);
      k in t.records && t.records[k].body.Completed? ==>
        (k in s.records && t.records[k] == s.records[k]) || Answered(t, r)
  {
    match statement
    case Fail =>
    case Crash =>
    case _ =>
  }

  lemma OthersStayOk(s: State, t: State, r: Rid, o: Rid)
    requires Inv(s) && r in s.requests && o in s.requests && o != r && OnlyBy(s, t, r)
    ensures KeyOk(t, o) && ReplayOk(t, o)
    ensures Owns(t, o) && Owns(t, r) ==> t.requests[o].key != t.requests[r].key
  {
    assert KeyOk(s, o) && ReplayOk(s, o) && KeyOk(s, r);
    var k := s.requests[o].key;
    if k in s.records && s.records[k].body.Completed? { assert RecordOwned(s, k); }
  }

  lemma DoKeepsInv(s: State, r: Rid, statement: Statement)
    requires Inv(s) && NothingExpired(s) && r in s.requests
    ensures Inv(DoStep(s, r, statement))
  {
    var t := DoStep(s, r, statement);
    assert KeyOk(s, r) && ReplayOk(s, r);
    DoIsOnlyBy(s, r, statement);
    DoKeepsOwn(s, r, statement);
    forall o | o in t.requests ensures KeyOk(t, o) && ReplayOk(t, o) {
      if o != r { OthersStayOk(s, t, r, o); }
    }
    forall o, p | o in t.requests && p in t.requests && o != p && Owns(t, o) && Owns(t, p)
      ensures t.requests[o].key != t.requests[p].key
    {
      if o == r { OthersStayOk(s, t, r, p); } else if p == r { OthersStayOk(s, t, r, o); }
    }
    forall k | k in t.records ensures RecordOwned(t, k) {
      if k in s.records && s.records[k].body.Completed? {
        assert RecordOwned(s, k);
        var o :| o in s.requests && s.requests[o].key == k && Answered(s, o);
        assert o in t.requests && t.requests[o].key == k && Answered(t, o);
      }
    }
  }

  lemma {:induction false} RunKeepsInv(balances: map<Customer, int>, run: seq<Action>)
    requires NoExpiry(Init(balances), run)
    ensures Inv(Run(Init(balances), run))
  {
    if run != [] {
      var front, a := run[..|run| - 1], run[|run| - 1];
      assert forall k :: 0 <= k <= |front| ==> front[..k] == run[..k];
      RunKeepsInv(balances, front);
      var s := Run(Init(balances), front);
      assert NothingExpired(Run(Init(balances), run[..|front|]));
      if a.Do? && a.who in s.requests { DoKeepsInv(s, a.who, a.statement); } else { IdleKeepsInv(s, a); }
    }
  }

  lemma IdleKeepsRecords(s: State, t: State)
    requires t.records == s.records && forall r :: r in s.requests ==> r in t.requests && t.requests[r] == s.requests[r]
    requires forall k :: k in s.records ==> RecordOwned(s, k)
    ensures forall k :: k in t.records ==> RecordOwned(t, k)
  {
    forall k | k in t.records ensures RecordOwned(t, k) {
      assert RecordOwned(s, k);
      if s.records[k].body.Completed? {
        var o :| o in s.requests && s.requests[o].key == k && Answered(s, o);
        assert o in t.requests && t.requests[o].key == k && Answered(t, o);
      }
    }
  }

  lemma IdleKeepsInv(s: State, a: Action)
    requires Inv(s) && (a.Do? ==> a.who !in s.requests)
    ensures Inv(Step(s, a))
  {
    var t := Step(s, a);
    assert t.records == s.records;
    forall o | o in t.requests ensures KeyOk(t, o) && ReplayOk(t, o) && (Owns(t, o) ==> o in s.requests && Owns(s, o)) {
      if o in s.requests { assert KeyOk(s, o) && ReplayOk(s, o); }
    }
    IdleKeepsRecords(s, t);
  }

  /** Two requests with one key are never both executing, or both answered, or one of each. */
  lemma ExecutionsDoNotOverlap(balances: map<Customer, int>, run: seq<Action>, r: Rid, o: Rid)
    requires NoExpiry(Init(balances), run)
    requires var s := Run(Init(balances), run); Owns(s, r) && Owns(s, o) && s.requests[r].key == s.requests[o].key
    ensures r == o
  {
    RunKeepsInv(balances, run);
  }

  /** A replay goes to a request with the same payload as the one that charged, and repeats its response. */
  lemma ReplaysAreFaithful(balances: map<Customer, int>, run: seq<Action>, r: Rid) returns (first: Rid)
    requires NoExpiry(Init(balances), run)
    requires var s := Run(Init(balances), run);
      r in s.requests && s.requests[r].pc.Returned? && s.requests[r].pc.replayed
    ensures var s := Run(Init(balances), run);
      Answered(s, first) && s.requests[first].key == s.requests[r].key &&
      FingerprintOf(s.requests[first]) == FingerprintOf(s.requests[r]) &&
      s.requests[first].pc.charge == s.requests[r].pc.charge
  {
    RunKeepsInv(balances, run);
    var s := Run(Init(balances), run);
    var k := s.requests[r].key;
    assert ReplayOk(s, r);
    assert RecordOwned(s, k);
    first :| first in s.requests && s.requests[first].key == k && Answered(s, first);
    assert KeyOk(s, first);
  }

  // ---------------------------------------------------------------- how long a record lives

  /** The step writes or deletes the record of key `k`. */
  predicate Touches(s: State, a: Action, k: Key) {
    a.Do? && a.who in s.requests && s.requests[a.who].key == k && a.who in Step(s, a).requests &&
    match a.statement
    case SetNx => s.requests[a.who].pc.Arrived? && Step(s, a).requests[a.who].pc.Executing?
    case Store => s.requests[a.who].pc.Charged?
    case Delete => s.requests[a.who].pc.Failing?
    case _ => false
  }

  predicate Untouched(s: State, more: seq<Action>, k: Key) {
    forall j :: 0 <= j < |more| ==> !Touches(Run(s, more[..j]), more[j], k)
  }

  lemma StepLeavesRecord(s: State, a: Action, k: Key)
    requires k in s.records && !Touches(s, a, k)
    ensures k in Step(s, a).records && Step(s, a).records[k] == s.records[k]
  {
    if a.Do? && a.who in s.requests {
      match a.statement
      case SetNx => assert Step(s, a) == SetNxStep(s, a.who);
      case Fail =>
      case Crash =>
      case _ =>
    }
  }

  lemma {:induction false} RecordStays(s: State, more: seq<Action>, k: Key)
    requires k in s.records && Untouched(s, more, k)
    ensures k in Run(s, more).records && Run(s, more).records[k] == s.records[k]
  {
    if more != [] {
      var front := more[..|more| - 1];
      forall j | 0 <= j < |front| ensures !Touches(Run(s, front[..j]), front[j], k) {
        assert front[..j] == more[..j];
      }
      RecordStays(s, front, k);
      StepLeavesRecord(Run(s, front), more[|more| - 1], k);
    }
  }

  /** `o` has arrived with key `k`. */
  predicate Waits(s: State, o: Rid, k: Key) {
    o in s.requests && s.requests[o].key == k && s.requests[o].pc.Arrived?
  }

  /** The step `statement` of `r` writes the record of its key. */
  predicate Writes(s: State, r: Rid, statement: Statement) {
    (statement.SetNx? || statement.Store?) && r in s.requests && Touches(s, Do(r, statement), s.requests[r].key)
  }

  lemma WrittenRecord(s: State, r: Rid, statement: Statement)
    requires Writes(s, r, statement)
    ensures var q, t := s.requests[r], Step(s, Do(r, statement));
      q.key in t.records && t.records[q.key].expires == s.now + RECORD_TTL &&
      t.records[q.key].body ==
        if statement.SetNx? then Processing(FingerprintOf(q)) else Completed(FingerprintOf(q), q.pc.charge)
  {
  }

  /**
    A record lives exactly as long as its time to live: unless it is written or deleted meanwhile,
    a request that arrives with its key meets it up to then, and acquires the key afterwards.
   */
  lemma RecordsLiveTheirTime(s: State, r: Rid, statement: Statement, more: seq<Action>, o: Rid)
    requires Writes(s, r, statement) && Untouched(Step(s, Do(r, statement)), more, s.requests[r].key)
    requires Waits(Run(Step(s, Do(r, statement)), more), o, s.requests[r].key)
    ensures var t := Run(Step(s, Do(r, statement)), more);
      Step(t, Do(o, SetNx)).requests[o].pc == if t.now <= s.now + RECORD_TTL then Existing else Executing
  {
    WrittenRecord(s, r, statement);
    RecordStays(Step(s, Do(r, statement)), more, s.requests[r].key);
    var t := Run(Step(s, Do(r, statement)), more);
    assert Step(t, Do(o, SetNx)) == SetNxStep(t, o);
  }

  /**
    While it lives, what another request with the key hears depends on the record alone: its response
    for the same payload, "in flight" while there is none, a conflict for another payload.
   */
  lemma LiveRecordsAnswer(s: State, r: Rid, statement: Statement, more: seq<Action>, o: Rid)
    requires Writes(s, r, statement) && Untouched(Step(s, Do(r, statement)), more, s.requests[r].key)
    requires var t := Run(Step(s, Do(r, statement)), more);
      Waits(t, o, s.requests[r].key) && t.now <= s.now + RECORD_TTL
    ensures var q, t := s.requests[r], Run(Step(s, Do(r, statement)), more);
      var x := t.requests[o];
      Step(Step(t, Do(o, SetNx)), Do(o, Get)).requests[o].pc ==
        if (x.customer, x.amount) != (q.customer, q.amount) then Raised(KeyReused)
        else if statement.SetNx? then Raised(InFlight)
        else Returned(q.pc.charge, true)
  {
    WrittenRecord(s, r, statement);
    RecordStays(Step(s, Do(r, statement)), more, s.requests[r].key);
    var t := Run(Step(s, Do(r, statement)), more);
    var t1 := Step(t, Do(o, SetNx));
    assert t1 == Goto(t, o, Existing);
    assert Step(t1, Do(o, Get)) == GetStep(t1, o);
  }
}
