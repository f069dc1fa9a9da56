/**
  What clients of the reservation service may count on: no unit is lost or sold twice,
  exactly for which mixes of strategies that is so, and how often optimistic requests lose.
 */
module InventoryTheorems {
  import opened InventoryModel
  import opened InventoryRefinement

  // ---------------------------------------------------------------- conservation

  /** Stock plus reserved units of every product is what it was before the run. */
  predicate Conserves(stock: map<Pid, int>, run: seq<Action>) {
    var s := Run(Init(stock), run);
    forall p :: p in stock ==> p in s.rows && s.rows[p].row.stock + SumFor(s.reservations, p) == stock[p]
  }

  lemma SumForOneMore(rs: seq<Reservation>, last: Reservation, p: Pid)
    ensures SumFor(rs + [last], p) == SumFor(rs, p) + if last.pid == p then last.quantity else 0
  {
    assert (rs + [last])[..|rs + [last]| - 1] == rs;
  }

  lemma ReserveConserves(st: Store, c: Call, p: Pid)
    requires p in st.stock
    ensures var t := Reserve(st, c).0;
      p in t.stock && t.stock[p] + SumFor(t.reservations, p) == st.stock[p] + SumFor(st.reservations, p) &&
      (0 <= st.stock[p] ==> 0 <= t.stock[p])
  {
    SumForOneMore(st.reservations, Reservation(c.id, c.pid, c.quantity), p);
  }

  lemma {:induction false} SequentialConserves(st: Store, order: seq<Call>, p: Pid)
    requires p in st.stock
    ensures var t := Sequential(st, order);
      p in t.stock && t.stock[p] + SumFor(t.reservations, p) == st.stock[p] + SumFor(st.reservations, p) &&
      (0 <= st.stock[p] ==> 0 <= t.stock[p])
  {
    if order != [] {
      SequentialConserves(st, order[..|order| - 1], p);
      ReserveConserves(Sequential(st, order[..|order| - 1]), order[|order| - 1], p);
    }
  }

  /** Safe runs conserve every product's units and never drive its stock below zero. */
  lemma SafeRunsConserve(f: Family, stock: map<Pid, int>, run: seq<Action>)
    requires Uses(run, StrategiesOf(f)) && TimelyRun(f, Init(stock), run)
    ensures Conserves(stock, run)
    ensures forall p :: p in stock && 0 <= stock[p] ==> 0 <= Run(Init(stock), run).rows[p].row.stock
  {
    Linearizable(f, stock, run);
    var s, order := Run(Init(stock), run), Order(Init(stock), run);
    forall p | p in stock
      ensures p in s.rows && s.rows[p].row.stock + SumFor(s.reservations, p) == stock[p]
      ensures 0 <= stock[p] ==> 0 <= s.rows[p].row.stock
    {
      SequentialConserves(Store(stock, []), order, p);
      assert p in Committed(s).stock && Committed(s).stock[p] == s.rows[p].row.stock;
    }
  }

  // ---------------------------------------------------------------- which mixes are safe

  /** Request `r` asks for one unit of product 0 and gets as far as it can before its UPDATE. */
  function Opening(r: Rid, a: Strategy): seq<Action> {
    [Start(r, 0, 1, a), Do(r, Poll), Do(r, Select)]
  }

  function Closing(r: Rid): seq<Action> {
    [Do(r, Update), Do(r, Insert), Do(r, Commit(true))]
  }

  /** Request 0 reads; a lease runs out; request 1 sells a unit; request 0 writes what it remembers. */
  function Overlap(a: Strategy, b: Strategy): seq<Action> {
    Opening(0, a) + [Tick(LEASE_TTL + 1)] + Opening(1, b) + Closing(1) + Closing(0)
  }

  /** `a` reads without a row lock, and its UPDATE cannot tell that `b` has sold a unit since. */
  predicate Overlooks(a: Strategy, b: Strategy) {
    a in {Naive, Locked} || (a.Optimistic? && !b.Optimistic?)
  }

  predicate Idle(s: State, row: Row) {
    s.rows == map[0 := Cell(row, Free)] && row.stock >= 1 && forall p :: p in s.leases ==> !LeaseLive(s, p)
  }

  lemma AfterPolling(s: State, r: Rid, a: Strategy)
    requires r !in s.requests && forall p :: p in s.leases ==> !LeaseLive(s, p)
    ensures var t := Step(Step(s, Start(r, 0, 1, a)), Do(r, Poll));
      r in t.requests && t.requests == s.requests[r := Request(0, 1, a, t.requests[r].leaseEnd, Begin(0))] &&
      t.rows == s.rows && t.reservations == s.reservations && t.now == s.now &&
      forall p :: p in t.leases ==> t.leases[p].expires <= s.now + LEASE_TTL
  {
  }

  lemma AfterSelect(s: State, r: Rid, a: Strategy, row: Row)
    requires r in s.requests && s.requests[r] == Request(0, 1, a, s.requests[r].leaseEnd, Begin(0))
    requires s.rows == map[0 := Cell(row, Free)] && row.stock >= 1
    ensures var t := Step(s, Do(r, Select));
      r in t.requests && t.requests == s.requests[r := t.requests[r]] &&
      t.reservations == s.reservations && t.now == s.now && t.leases == s.leases &&
      t.rows == map[0 := Cell(row, if a.Pessimistic? then Held(r, row) else Free)] &&
      t.requests[r] == s.requests[r].(pc := if a.Atomic? then Begin(0) else Checked(0, row))
  {
    assert Step(s, Do(r, Select)) == SelectStep(s, r);
  }

  lemma AfterOpening(s: State, r: Rid, a: Strategy, row: Row)
    requires Idle(s, row) && r !in s.requests
    ensures var t := Run(s, Opening(r, a));
      r in t.requests && t.requests == s.requests[r := t.requests[r]] &&
      t.reservations == s.reservations && t.now == s.now &&
      t.rows == map[0 := Cell(row, if a.Pessimistic? then Held(r, row) else Free)] &&
      t.requests[r] == Request(0, 1, a, t.requests[r].leaseEnd, if a.Atomic? then Begin(0) else Checked(0, row)) &&
      forall p :: p in t.leases ==> t.leases[p].expires <= s.now + LEASE_TTL
  {
    RunThree(s, Start(r, 0, 1, a), Do(r, Poll), Do(r, Select));
    AfterPolling(s, r, a);
    AfterSelect(Step(Step(s, Start(r, 0, 1, a)), Do(r, Poll)), r, a, row);
  }

  lemma AfterClosing(s: State, r: Rid, row: Row)
    requires r in s.requests && ReadyToUpdate(s.requests[r]) && s.requests[r].pid == 0
    requires s.rows.Keys == {0} && s.rows[0].row == row && Mine(s.rows[0].lock, r)
    requires Matches(s.requests[r], row)
    ensures var t := Run(s, Closing(r));
      t.rows == map[0 := Cell(NewRow(s.requests[r], row), Free)] &&
      t.reservations == s.reservations + [Reservation(r, 0, s.requests[r].quantity)] &&
      r in t.requests && t.requests == s.requests[r := t.requests[r]]
  {
    RunThree(s, Do(r, Update), Do(r, Insert), Do(r, Commit(true)));
    AfterUpdate(s, r, row);
    var s2 := Goto(Step(s, Do(r, Update)), r, Recorded);
    assert s2 == Step(Step(s, Do(r, Update)), Do(r, Insert));
    assert Step(s2, Do(r, Commit(true))) == CommitStep(s2, r, true);
  }

  lemma AfterUpdate(s: State, r: Rid, row: Row)
    requires r in s.requests && ReadyToUpdate(s.requests[r]) && s.requests[r].pid == 0
    requires s.rows.Keys == {0} && s.rows[0].row == row && Mine(s.rows[0].lock, r)
    requires Matches(s.requests[r], row)
    ensures Step(s, Do(r, Update)) == Goto(SetCell(s, 0, Cell(row, Held(r, NewRow(s.requests[r], row)))), r, Written)
  {
    assert Step(s, Do(r, Update)) == UpdateStep(s, r);
  }

  lemma OverlapInParts(s: State, a: Strategy, b: Strategy)
    ensures Run(s, Overlap(a, b)) ==
      Run(Run(Run(Step(Run(s, Opening(0, a)), Tick(LEASE_TTL + 1)), Opening(1, b)), Closing(1)), Closing(0))
  {
    var tick := [Tick(LEASE_TTL + 1)];
    RunConcat(s, Opening(0, a) + tick + Opening(1, b) + Closing(1), Closing(0));
    RunConcat(s, Opening(0, a) + tick + Opening(1, b), Closing(1));
    RunConcat(s, Opening(0, a) + tick, Opening(1, b));
    assert (Opening(0, a) + tick)[..3] == Opening(0, a);
  }

  /** Both requests have read the row before either of them writes. */
  lemma BothHaveRead(a: Strategy, b: Strategy) returns (s: State)
    requires Overlooks(a, b)
    ensures s == Run(Step(Run(Init(map[0 := 5]), Opening(0, a)), Tick(LEASE_TTL + 1)), Opening(1, b))
    ensures s.rows == map[0 := Cell(Row(5, 1), if b.Pessimistic? then Held(1, Row(5, 1)) else Free)] &&
      s.reservations == []
    ensures 0 in s.requests && s.requests[0] == Request(0, 1, a, s.requests[0].leaseEnd, Checked(0, Row(5, 1)))
    ensures 1 in s.requests &&
      s.requests[1] == Request(0, 1, b, s.requests[1].leaseEnd, if b.Atomic? then Begin(0) else Checked(0, Row(5, 1)))
  {
    var s0 := Init(map[0 := 5]);
    assert s0.rows == map[0 := Cell(Row(5, 1), Free)];
    AfterOpening(s0, 0, a, Row(5, 1));
    var s2 := Step(Run(s0, Opening(0, a)), Tick(LEASE_TTL + 1));
    AfterOpening(s2, 1, b, Row(5, 1));
    s := Run(s2, Opening(1, b));
  }

  lemma OverlapResult(a: Strategy, b: Strategy)
    requires Overlooks(a, b)
    ensures var t := Run(Init(map[0 := 5]), Overlap(a, b));
      0 in t.rows && t.rows[0].row.stock == 4 &&
      t.reservations == [Reservation(1, 0, 1), Reservation(0, 0, 1)]
  {
    OverlapInParts(Init(map[0 := 5]), a, b);
    var s3 := BothHaveRead(a, b);
    BothWrite(s3, a, b);
  }

  /** Request 1 sells a unit; request 0 writes the stock that it remembers. */
  lemma BothWrite(s: State, a: Strategy, b: Strategy)
    requires Overlooks(a, b)
    requires s.rows == map[0 := Cell(Row(5, 1), if b.Pessimistic? then Held(1, Row(5, 1)) else Free)] &&
      s.reservations == []
    requires 0 in s.requests && s.requests[0] == Request(0, 1, a, s.requests[0].leaseEnd, Checked(0, Row(5, 1)))
    requires 1 in s.requests &&
      s.requests[1] == Request(0, 1, b, s.requests[1].leaseEnd, if b.Atomic? then Begin(0) else Checked(0, Row(5, 1)))
    ensures var t := Run(Run(s, Closing(1)), Closing(0));
      0 in t.rows && t.rows[0].row.stock == 4 &&
      t.reservations == [Reservation(1, 0, 1), Reservation(0, 0, 1)]
  {
    AfterClosing(s, 1, Row(5, 1));
    var s1 := Run(s, Closing(1));
    AfterClosing(s1, 0, s1.rows[0].row);
  }

  /** Two requests sell one unit each, yet the stock drops by one. */
  lemma OverlapLosesAnUpdate(a: Strategy, b: Strategy)
    requires Overlooks(a, b)
    ensures !Conserves(map[0 := 5], Overlap(a, b))
  {
    OverlapResult(a, b);
    var rs := [Reservation(1, 0, 1), Reservation(0, 0, 1)];
    assert rs[..1] == [Reservation(1, 0, 1)] && rs[..1][..0] == [];
    assert SumFor(rs[..1], 0) == 1;
  }

  predicate SafeMix(strategies: set<Strategy>) {
    strategies <= {Optimistic} || strategies <= {Pessimistic, Atomic}
  }

  /**
    Without any assumption on timing, a mix of strategies conserves stock in every run
    from every stock exactly when it is optimistic alone or pessimistic and atomic only.
   */
  lemma SafeMixes(strategies: set<Strategy>)
    ensures SafeMix(strategies) <==>
      forall stock: map<Pid, int>, run :: Uses(run, strategies) ==> Conserves(stock, run)
  {
    if SafeMix(strategies) {
      var f := if strategies <= {Optimistic} then ByVersion else ByRowLock;
      forall stock: map<Pid, int>, run | Uses(run, strategies) ensures Conserves(stock, run) {
        SafeRunsConserve(f, stock, run);
      }
    } else {
      var a, b := LosingPair(strategies);
      OverlapLosesAnUpdate(a, b);
      assert Uses(Overlap(a, b), strategies);
    }
  }

  lemma LosingPair(strategies: set<Strategy>) returns (a: Strategy, b: Strategy)
    requires !SafeMix(strategies)
    ensures a in strategies && b in strategies && Overlooks(a, b)
  {
    if Naive in strategies { return Naive, Naive; }
    if Locked in strategies { return Locked, Locked; }
    assert Optimistic in strategies by {
      if Optimistic !in strategies {
        forall x | x in strategies ensures x in {Pessimistic, Atomic} {
          assert x.Naive? || x.Optimistic? || x.Pessimistic? || x.Atomic? || x.Locked?;
        }
      }
    }
    if Pessimistic in strategies { return Optimistic, Pessimistic; }
    assert Atomic in strategies by {
      if Atomic !in strategies {
        forall x | x in strategies ensures x in {Optimistic} {
          assert x.Naive? || x.Optimistic? || x.Pessimistic? || x.Atomic? || x.Locked?;
        }
      }
    }
    return Optimistic, Atomic;
  }

  // ---------------------------------------------------------------- the lease

  predicate Holds(s: State, r: Rid) {
    r in s.requests && s.requests[r].strategy.Locked? && InTransaction(s.requests[r].pc)
  }

  predicate LeaseInv(s: State) {
    forall r :: r in s.requests && Holds(s, r) ==>
      s.requests[r].pid in s.leases && s.leases[s.requests[r].pid] == Lease(r, s.requests[r].leaseEnd)
  }

  /** With no assumption on timing: a live lease goes away only by its own holder's release. */
  lemma LiveLeaseIsSafe(s: State, a: Action, p: Pid)
    requires LeaseLive(s, p)
    ensures (p in Step(s, a).leases && Step(s, a).leases[p] == s.leases[p]) ||
      (a == Do(s.leases[p].token, Release) && a.who in s.requests && s.requests[a.who].pc.Releasing?)
  {
    if a.Do? && a.who in s.requests {
      match a.statement
      case Abort =>
      case Crash =>
      case _ =>
    }
  }

  /** A release frees the lock at once: the next poll of anyone waiting for it takes it. */
  lemma ReleaseFreesTheLock(s: State, r: Rid, o: Rid)
    requires r in s.requests && o in s.requests && r != o && s.requests[r].pid == s.requests[o].pid
    requires s.requests[r].pc.Releasing? && s.requests[o].pc.Acquiring?
    requires s.requests[r].pid in s.leases && s.leases[s.requests[r].pid].token == r
    ensures var t := Step(Step(s, Do(r, Release)), Do(o, Poll));
      o in t.requests && t.requests[o].pc == Begin(0) && s.requests[o].pid in t.leases &&
      t.leases[s.requests[o].pid] == Lease(o, s.now + LEASE_TTL)
  {
    assert Step(s, Do(r, Release)) == ReleaseStep(s, r);
  }

  /** The step gives the lock of product `p` to a request that was waiting for it. */
  predicate Grants(s: State, a: Action, p: Pid) {
    a.Do? && a.who in s.requests && s.requests[a.who].pid == p && s.requests[a.who].pc.Acquiring? &&
    a.who in Step(s, a).requests && Step(s, a).requests[a.who].pc.Begin?
  }

  /** In `more`, the lock of `p` is not granted again, and `r` does not release. */
  predicate LeftAlone(s: State, more: seq<Action>, p: Pid, r: Rid) {
    forall k :: 0 <= k < |more| ==> more[k] != Do(r, Release) && !Grants(Run(s, more[..k]), more[k], p)
  }

  lemma StepLeavesLease(s: State, a: Action, p: Pid, r: Rid)
    requires p in s.leases && s.leases[p].token == r && a != Do(r, Release) && !Grants(s, a, p)
    ensures p in Step(s, a).leases && Step(s, a).leases[p] == s.leases[p]
  {
    if a.Do? && a.who in s.requests {
      match a.statement
      case Poll => assert Step(s, a) == PollStep(s, a.who);
      case Abort =>
      case Crash =>
      case _ =>
    }
  }

  lemma {:induction false} LeaseStaysPut(s: State, more: seq<Action>, p: Pid, r: Rid)
    requires p in s.leases && s.leases[p].token == r && LeftAlone(s, more, p, r)
    ensures p in Run(s, more).leases && Run(s, more).leases[p] == s.leases[p]
  {
    if more != [] {
      var front := more[..|more| - 1];
      forall k | 0 <= k < |front| ensures more[k] != Do(r, Release) && !Grants(Run(s, front[..k]), front[k], p) {
        assert front[..k] == more[..k];
      }
      LeaseStaysPut(s, front, p, r);
      StepLeavesLease(Run(s, front), more[|more| - 1], p, r);
    }
  }

  /**
    A lock that was granted at some instant, and neither released nor granted again since, goes to
    the next request that polls exactly when its time has run out.
   */
  lemma LeaseLastsItsTime(s: State, r: Rid, p: Pid, more: seq<Action>, o: Rid)
    requires Grants(s, Do(r, Poll), p) && LeftAlone(Step(s, Do(r, Poll)), more, p, r)
    requires var t := Run(Step(s, Do(r, Poll)), more);
      o in t.requests && t.requests[o].pid == p && t.requests[o].pc.Acquiring?
    ensures var t := Run(Step(s, Do(r, Poll)), more); Grants(t, Do(o, Poll), p) <==> t.now > s.now + LEASE_TTL
  {
    var s1 := Step(s, Do(r, Poll));
    assert s1 == PollStep(s, r);
    LeaseStaysPut(s1, more, p, r);
    var t := Run(s1, more);
    assert Step(t, Do(o, Poll)) == PollStep(t, o);
  }

  lemma DoKeepsLeaseInv(s: State, r: Rid, statement: Statement)
    requires LeaseInv(s) && Timely(s) && r in s.requests
    ensures LeaseInv(DoStep(s, r, statement))
  {
    var t := DoStep(s, r, statement);
    DoTouches(s, r, statement);
    forall o | o in t.requests && Holds(t, o)
      ensures t.requests[o].pid in t.leases && t.leases[t.requests[o].pid] == Lease(o, t.requests[o].leaseEnd)
    {
      if Holds(s, o) {
        LiveLeaseIsSafe(s, Do(r, statement), s.requests[o].pid);
        if o == r { HoldingGoesOn(s, r, statement); }
      } else {
        HoldingStarts(s, r, statement);
      }
    }
  }

  lemma HoldingGoesOn(s: State, r: Rid, statement: Statement)
    requires r in s.requests && Holds(s, r) && Holds(DoStep(s, r, statement), r)
    ensures DoStep(s, r, statement).requests[r].leaseEnd == s.requests[r].leaseEnd
  {
    match statement
    case Abort =>
    case Crash =>
    case _ =>
  }

  lemma HoldingStarts(s: State, r: Rid, statement: Statement)
    requires r in s.requests && !Holds(s, r) && Holds(DoStep(s, r, statement), r)
    ensures var t := DoStep(s, r, statement);
      t.requests[r].pid in t.leases && t.leases[t.requests[r].pid] == Lease(r, t.requests[r].leaseEnd)
  {
    match statement
    case Abort =>
    case Crash =>
    case _ =>
  }

  lemma {:induction false} RunKeepsLeaseInv(stock: map<Pid, int>, run: seq<Action>)
    requires TimelyRun(ByLease, Init(stock), run)
    ensures LeaseInv(Run(Init(stock), run))
  {
    if run != [] {
      var s, a := Run(Init(stock), run[..|run| - 1]), run[|run| - 1];
      TimelyPrefix(ByLease, Init(stock), run);
      RunKeepsLeaseInv(stock, run[..|run| - 1]);
      if a.Do? && a.who in s.requests { DoKeepsLeaseInv(s, a.who, a.statement); }
    }
  }

  /**
    Whatever else runs beside them, two requests never hold the distributed lock of one
    product at once, provided every holder finishes its transaction inside its lease.
   */
  lemma AtMostOneHolder(stock: map<Pid, int>, run: seq<Action>, r1: Rid, r2: Rid)
    requires TimelyRun(ByLease, Init(stock), run)
    requires var s := Run(Init(stock), run);
      Holds(s, r1) && Holds(s, r2) && s.requests[r1].pid == s.requests[r2].pid
    ensures r1 == r2
  {
    RunKeepsLeaseInv(stock, run);
  }
}
