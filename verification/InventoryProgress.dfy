/**
  How optimistic requests lose: a request that gives up has watched other requests win,
  and the number of winners among unit requests is pinned between two bounds.
 */
module InventoryProgress {
  import opened InventoryModel
  import opened InventoryRefinement
  import opened InventoryTheorems
  import opened Sets

  /** Reservation rows of product `p`. */
  function CountFor(rs: seq<Reservation>, p: Pid): nat {
    if rs == [] then 0
    else CountFor(rs[..|rs| - 1], p) + if rs[|rs| - 1].pid == p then 1 else 0
  }

  function WinnersOf(rs: seq<Reservation>, p: Pid): set<Rid> {
    set i | 0 <= i < |rs| && rs[i].pid == p :: rs[i].id
  }

  lemma CountForOneMore(rs: seq<Reservation>, last: Reservation, p: Pid)
    ensures CountFor(rs + [last], p) == CountFor(rs, p) + if last.pid == p then 1 else 0
  {
    assert (rs + [last])[..|rs + [last]| - 1] == rs;
  }

  // ---------------------------------------------------------------- reservation rows and winners

  predicate Won(s: State, r: Rid) {
    Answered(s, r) && s.requests[r].pc.outcome in {Reserved, Unheard}
  }

  /** Every winner has exactly one reservation row, and the rows are those of the winners. */
  ghost predicate RowsAreWinners(s: State) {
    (forall i, j :: 0 <= i < j < |s.reservations| ==> s.reservations[i].id != s.reservations[j].id) &&
    (forall i :: 0 <= i < |s.reservations| ==>
      Won(s, s.reservations[i].id) && s.reservations[i] == RowOf(s, s.reservations[i].id)) &&
    (forall r :: Won(s, r) ==> RowOf(s, r) in s.reservations)
  }

  function RowOf(s: State, r: Rid): Reservation
    requires r in s.requests
  {
    Reservation(r, s.requests[r].pid, s.requests[r].quantity)
  }

  lemma OnlyCommitsWin(s: State, r: Rid, statement: Statement)
    requires r in s.requests && !Won(s, r) && Won(DoStep(s, r, statement), r)
    ensures s.requests[r].pc.Recorded? && statement.Commit?
  {
    match statement
    case Select =>
    case Update =>
    case Abort =>
    case Crash =>
    case _ =>
  }

  lemma NewWinnersCommit(s: State, a: Action, r: Rid)
    requires !Won(s, r) && Won(Step(s, a), r)
    ensures r in s.requests && s.requests[r].pc.Recorded? && a.Do? && a.who == r && a.statement.Commit?
  {
    if a.Do? && a.who in s.requests {
      DoTouches(s, a.who, a.statement);
      if a.who == r { OnlyCommitsWin(s, r, a.statement); }
    }
  }

  lemma RowsOnlyGrow(s: State, a: Action)
    ensures Step(s, a).reservations == s.reservations ||
      (a.Do? && a.statement.Commit? && a.who in s.requests && s.requests[a.who].pc.Recorded? &&
       Won(Step(s, a), a.who) &&
       Step(s, a).reservations == s.reservations + [RowOf(s, a.who)])
    ensures a.Do? && a.statement.Commit? && Won(Step(s, a), a.who) && !Won(s, a.who) ==>
      Step(s, a).reservations != s.reservations
  {
    if a.Do? && a.statement.Commit? && a.who in s.requests {
      assert Step(s, a) == CommitStep(s, a.who, a.statement.heard);
    }
  }

  lemma {:induction false} RunsRecordWinners(stock: map<Pid, int>, run: seq<Action>)
    ensures RowsAreWinners(Run(Init(stock), run))
  {
    if run != [] {
      var s, a := Run(Init(stock), run[..|run| - 1]), run[|run| - 1];
      RunsRecordWinners(stock, run[..|run| - 1]);
      forall o ensures AnswerStays(s, Step(s, a), o) { AnswersStay(s, a, o); }
      RowsOnlyGrow(s, a);
      forall r | Won(Step(s, a), r) && !Won(s, r)
        ensures a.Do? && a.who == r && a.statement.Commit? && s.requests[r].pc.Recorded?
      {
        NewWinnersCommit(s, a, r);
      }
      WinnersStay(s, Step(s, a), a);
    }
  }

  lemma WinnersStay(s: State, t: State, a: Action)
    requires RowsAreWinners(s)
    requires forall o :: AnswerStays(s, t, o)
    requires t.reservations == s.reservations ||
      (a.Do? && a.who in s.requests && s.requests[a.who].pc.Recorded? && Won(t, a.who) &&
       CallOf(a.who, t.requests[a.who]) == CallOf(a.who, s.requests[a.who]) &&
       t.reservations == s.reservations + [RowOf(s, a.who)])
    requires forall r :: Won(t, r) && !Won(s, r) ==> a.Do? && a.who == r && t.reservations != s.reservations
    ensures RowsAreWinners(t)
  {
    forall i | 0 <= i < |t.reservations|
      ensures Won(t, t.reservations[i].id) && t.reservations[i] == RowOf(t, t.reservations[i].id)
    {
      if i < |s.reservations| { assert AnswerStays(s, t, s.reservations[i].id); }
    }
    forall r | Won(t, r) ensures RowOf(t, r) in t.reservations {
      if Won(s, r) {
        assert AnswerStays(s, t, r);
        assert RowOf(s, r) in s.reservations;
      } else {
        assert t.reservations[|s.reservations|] == RowOf(t, r);
      }
    }
  }

  // ---------------------------------------------------------------- versions count commits

  predicate VersionsCount(s: State) {
    forall p :: p in s.rows ==> s.rows[p].row.version == FIRST_VERSION + CountFor(s.reservations, p)
  }

  lemma StepKeepsVersionsCount(s: State, a: Action)
    requires Inv(ByVersion, s) && VersionsCount(s)
    ensures VersionsCount(Step(s, a)) && s.rows.Keys == Step(s, a).rows.Keys
  {
    if a.Do? && a.who in s.requests && a.statement.Commit? && s.requests[a.who].pc.Recorded? {
      assert RequestOk(ByVersion, s, a.who);
      var rs := s.reservations + [RowOf(s, a.who)];
      assert rs[..|rs| - 1] == s.reservations;
    } else if a.Do? && a.who in s.requests && !a.statement.Commit? {
      RowsStay(s, a.who, a.statement);
    }
  }

  /** Between commits the committed rows and reservations do not move. */
  lemma RowsStay(s: State, r: Rid, statement: Statement)
    requires r in s.requests && !statement.Commit?
    ensures var t := DoStep(s, r, statement);
      t.reservations == s.reservations && t.rows.Keys == s.rows.Keys &&
      forall p :: p in s.rows ==> t.rows[p].row == s.rows[p].row
  {
    match statement
    case Abort =>
    case Crash =>
    case _ =>
  }

  lemma {:induction false} RunsCountVersions(stock: map<Pid, int>, run: seq<Action>)
    requires Uses(run, {Optimistic})
    ensures VersionsCount(Run(Init(stock), run)) && Run(Init(stock), run).rows.Keys == stock.Keys
  {
    if run != [] {
      RunsCountVersions(stock, run[..|run| - 1]);
      RunKeepsInv(ByVersion, stock, run[..|run| - 1]);
      StepKeepsVersionsCount(Run(Init(stock), run[..|run| - 1]), run[|run| - 1]);
    }
  }

  // ---------------------------------------------------------------- lost races

  predicate NoNewer(s0: State, s: State) {
    forall p :: p in s.rows ==> p in s0.rows && s0.rows[p].row.version <= s.rows[p].row.version
  }

  /** `r`, which began after `s0`, has failed `k` times: the version has moved `k` times since. */
  predicate Raced(s0: State, s: State, r: Rid)
    requires NoNewer(s0, s)
  {
    r in s.requests && s.requests[r].pid in s.rows ==>
      var q := s.requests[r];
      var base, version := s0.rows[q.pid].row.version, s.rows[q.pid].row.version;
      match q.pc
      case Begin(k) => base + k <= version
      case Checked(k, seen) => base + k <= seen.version
      case Finished(o) => o.Conflict? ==> base + MAX_OPTIMISTIC_ATTEMPTS <= version
      case _ => true
  }

  lemma StepAges(s0: State, s: State, a: Action)
    requires Inv(ByVersion, s) && NoNewer(s0, s)
    ensures NoNewer(s0, Step(s, a))
  {
    if a.Do? && a.who in s.requests {
      assert RequestOk(ByVersion, s, a.who);
      if !a.statement.Commit? { RowsStay(s, a.who, a.statement); }
    }
  }

  /** The moves of an optimistic request between its start and its commit. */
  lemma OptimisticMoves(s: State, r: Rid, statement: Statement)
    requires r in s.requests && RequestOk(ByVersion, s, r)
    ensures var q, pc := s.requests[r], DoStep(s, r, statement).requests[r].pc;
      pc == q.pc || pc.Written? || pc.Recorded? ||
      (pc.Finished? && pc.outcome in {Reserved, Unheard, NotEnough, NotFound, Aborted}) ||
      (q.pid in s.rows &&
       ((q.pc.Begin? && pc == Checked(q.pc.attempt, s.rows[q.pid].row)) ||
        (q.pc.Checked? && q.pc.seen.version < s.rows[q.pid].row.version &&
         (pc == Begin(q.pc.attempt + 1) ||
          (pc == Finished(Conflict) && q.pc.attempt + 1 >= MAX_OPTIMISTIC_ATTEMPTS)))))
  {
    match statement
    case Select =>
    case Update =>
    case _ =>
  }

  lemma DoKeepsRaced(s0: State, s: State, t: State, r: Rid)
    requires NoNewer(s0, s) && NoNewer(s0, t) && Raced(s0, s, r)
    requires r in s.requests ==> r in t.requests && t.requests[r] == s.requests[r]
    requires r in t.requests ==> r in s.requests
    requires t.rows.Keys == s.rows.Keys
    requires forall p :: p in s.rows ==> s.rows[p].row.version <= t.rows[p].row.version
    ensures Raced(s0, t, r)
  {
  }

  lemma StepKeepsRaced(s0: State, s: State, a: Action, r: Rid)
    requires Inv(ByVersion, s) && NoNewer(s0, s) && NoNewer(s0, Step(s, a)) && Raced(s0, s, r)
    requires a.Start? ==> a.strategy.Optimistic?
    ensures Raced(s0, Step(s, a), r)
  {
    if a.Do? && a.who in s.requests {
      assert RequestOk(ByVersion, s, a.who);
      StepAges(s, s, a);
      DoTouches(s, a.who, a.statement);
      DoIsOnlyBy(ByVersion, s, a.who, a.statement) by {
        assert s.requests[a.who].pid in s.rows ==> LockOk(s, s.requests[a.who].pid);
      }
      if r != a.who {
        DoKeepsRaced(s0, s, Step(s, a), r);
      } else {
        OptimisticMoves(s, r, a.statement);
      }
    }
  }

  lemma UsesParts(first: seq<Action>, rest: seq<Action>, strategies: set<Strategy>)
    requires Uses(first + rest, strategies)
    ensures Uses(first, strategies) && Uses(rest, strategies)
  {
    assert forall i :: 0 <= i < |first| ==> (first + rest)[i] == first[i];
    assert forall i :: 0 <= i < |rest| ==> (first + rest)[|first| + i] == rest[i];
  }

  lemma {:induction false} RunKeepsRaced(stock: map<Pid, int>, before: seq<Action>, run: seq<Action>, r: Rid)
    requires Uses(before + run, {Optimistic})
    requires r !in Run(Init(stock), before).requests
    ensures var s0, s := Run(Init(stock), before), Run(Init(stock), before + run);
      NoNewer(s0, s) && Raced(s0, s, r) && s0.reservations <= s.reservations
  {
    var s0 := Run(Init(stock), before);
    if run == [] {
      assert before + run == before;
    } else {
      var front, a := run[..|run| - 1], run[|run| - 1];
      assert (before + run)[..|before + run| - 1] == before + front && (before + run)[|before + run| - 1] == a;
      var s := Run(Init(stock), before + front);
      RunKeepsRaced(stock, before, front, r);
      RunKeepsInv(ByVersion, stock, before + front);
      StepAges(s0, s, a);
      StepKeepsRaced(s0, s, a, r);
      RowsOnlyGrow(s, a);
    }
  }

  lemma WinnersOneMore(rs: seq<Reservation>, last: Reservation, p: Pid)
    ensures WinnersOf(rs + [last], p) == WinnersOf(rs, p) + if last.pid == p then {last.id} else {}
  {
    var all := rs + [last];
    forall r ensures r in WinnersOf(all, p) <==> r in WinnersOf(rs, p) || (last.pid == p && r == last.id) {
      if r in WinnersOf(rs, p) {
        var i :| 0 <= i < |rs| && rs[i].pid == p && rs[i].id == r;
        assert all[i] == rs[i];
      }
      assert all[|rs|] == last;
    }
  }

  lemma OneMoreCounts(rs: seq<Reservation>, last: Reservation, p: Pid)
    requires |WinnersOf(rs, p)| == CountFor(rs, p) && forall i :: 0 <= i < |rs| ==> rs[i].id != last.id
    ensures |WinnersOf(rs + [last], p)| == CountFor(rs + [last], p)
  {
    WinnersOneMore(rs, last, p);
    CountForOneMore(rs, last, p);
    var winners := WinnersOf(rs, p);
    assert last.id !in winners;
    assert |winners + {last.id}| == |winners| + 1;
  }

  lemma {:induction false} CountWinners(rs: seq<Reservation>, p: Pid)
    requires forall i, j :: 0 <= i < j < |rs| ==> rs[i].id != rs[j].id
    ensures |WinnersOf(rs, p)| == CountFor(rs, p)
  {
    if rs != [] {
      var front, last := rs[..|rs| - 1], rs[|rs| - 1];
      CountWinners(front, p);
      OneMoreCounts(front, last, p);
      assert rs == front + [last];
    }
  }

  /**
    A request that gives up with a conflict has seen at least MAX_OPTIMISTIC_ATTEMPTS other
    requests win the same product since it started.
   */
  lemma GivingUpMeansOthersWon(stock: map<Pid, int>, before: seq<Action>, run: seq<Action>, r: Rid, p: Pid)
    requires Uses(before + run, {Optimistic}) && p in stock
    requires r !in Run(Init(stock), before).requests
    requires var s := Run(Init(stock), before + run);
      r in s.requests && s.requests[r].pid == p && s.requests[r].pc == Finished(Conflict)
    ensures var others :=
        WinnersOf(Run(Init(stock), before + run).reservations, p) - WinnersOf(Run(Init(stock), before).reservations, p);
      |others| >= MAX_OPTIMISTIC_ATTEMPTS && r !in others
  {
    var s0, s := Run(Init(stock), before), Run(Init(stock), before + run);
    RunKeepsRaced(stock, before, run, r);
    UsesParts(before, run, {Optimistic});
    RunsCountVersions(stock, before);
    RunsCountVersions(stock, before + run);
    RunsRecordWinners(stock, before);
    RunsRecordWinners(stock, before + run);
    CountWinners(s0.reservations, p);
    CountWinners(s.reservations, p);
    assert WinnersOf(s0.reservations, p) <= WinnersOf(s.reservations, p) by {
      forall i | 0 <= i < |s0.reservations| && s0.reservations[i].pid == p
        ensures s0.reservations[i].id in WinnersOf(s.reservations, p)
      {
        assert s.reservations[i] == s0.reservations[i];
      }
    }
    assert Raced(s0, s, r);
  }

  // ---------------------------------------------------------------- how many win

  predicate AsksPositive(run: seq<Action>) {
    forall i :: 0 <= i < |run| && run[i].Start? ==> run[i].quantity > 0
  }

  /** Stock never rises, so a refusal for lack of stock stays justified. */
  predicate RefusalsHold(s: State) {
    forall r :: r in s.requests ==>
      s.requests[r].quantity > 0 &&
      (s.requests[r].pc == Finished(NotEnough) && s.requests[r].pid in s.rows ==>
        s.rows[s.requests[r].pid].row.stock < s.requests[r].quantity)
  }

  lemma StockOnlyFalls(s: State, r: Rid, statement: Statement)
    requires Inv(ByVersion, s) && RefusalsHold(s) && r in s.requests
    ensures var t := DoStep(s, r, statement);
      t.rows.Keys == s.rows.Keys && forall p :: p in s.rows ==> t.rows[p].row.stock <= s.rows[p].row.stock
  {
    assert RequestOk(ByVersion, s, r);
    if !statement.Commit? { RowsStay(s, r, statement); }
  }

  lemma RefusedForStock(s: State, r: Rid, statement: Statement)
    requires r in s.requests && RequestOk(ByVersion, s, r)
    requires s.requests[r].pc != Finished(NotEnough) && DoStep(s, r, statement).requests[r].pc == Finished(NotEnough)
    ensures s.requests[r].pid in s.rows && s.rows[s.requests[r].pid].row.stock < s.requests[r].quantity
  {
    match statement
    case Select =>
    case Update =>
    case _ =>
  }

  lemma StepKeepsRefusals(s: State, a: Action)
    requires Inv(ByVersion, s) && RefusalsHold(s)
    requires a.Start? ==> a.strategy.Optimistic? && a.quantity > 0
    ensures RefusalsHold(Step(s, a))
  {
    if a.Do? && a.who in s.requests {
      assert RequestOk(ByVersion, s, a.who);
      StockOnlyFalls(s, a.who, a.statement);
      DoTouches(s, a.who, a.statement);
      if s.requests[a.who].pc != Finished(NotEnough) && Step(s, a).requests[a.who].pc == Finished(NotEnough) {
        RefusedForStock(s, a.who, a.statement);
      }
    }
  }

  lemma {:induction false} RunKeepsRefusals(stock: map<Pid, int>, run: seq<Action>)
    requires Uses(run, {Optimistic}) && AsksPositive(run)
    ensures RefusalsHold(Run(Init(stock), run))
  {
    if run != [] {
      RunKeepsRefusals(stock, run[..|run| - 1]);
      RunKeepsInv(ByVersion, stock, run[..|run| - 1]);
      StepKeepsRefusals(Run(Init(stock), run[..|run| - 1]), run[|run| - 1]);
    }
  }

  /** Every request for product `p` asks for one unit. */
  predicate UnitsOnly(s: State, p: Pid) {
    forall r :: r in s.requests && s.requests[r].pid == p ==> s.requests[r].quantity == 1
  }

  lemma {:induction false} UnitsAreRows(s: State, n: nat, p: Pid)
    requires RowsAreWinners(s) && n <= |s.reservations| && UnitsOnly(s, p)
    ensures SumFor(s.reservations[..n], p) == CountFor(s.reservations[..n], p)
  {
    if n > 0 {
      UnitsAreRows(s, n - 1, p);
      var last := s.reservations[n - 1];
      assert last == RowOf(s, last.id) && (last.pid == p ==> last.quantity == 1);
      assert s.reservations[..n] == s.reservations[..n - 1] + [last];
      SumForOneMore(s.reservations[..n - 1], last, p);
      CountForOneMore(s.reservations[..n - 1], last, p);
    }
  }

  function Min(a: int, b: int): int { if a < b then a else b }

  /** Each winner of a unit took exactly one unit. */
  lemma UnitsSold(stock: map<Pid, int>, run: seq<Action>, p: Pid)
    requires Uses(run, {Optimistic}) && p in stock && 0 <= stock[p] && UnitsOnly(Run(Init(stock), run), p)
    ensures var s := Run(Init(stock), run);
      p in s.rows && 0 <= s.rows[p].row.stock &&
      |WinnersOf(s.reservations, p)| + s.rows[p].row.stock == stock[p] &&
      forall r :: r in WinnersOf(s.reservations, p) ==> r in s.requests && s.requests[r].pid == p
  {
    var s := Run(Init(stock), run);
    RunsRecordWinners(stock, run);
    CountWinners(s.reservations, p);
    SafeRunsConserve(ByVersion, stock, run);
    UnitsAreRows(s, |s.reservations|, p);
    assert s.reservations[..|s.reservations|] == s.reservations;
  }

  /**
    `buyers` unit requests race for one product with the optimistic strategy and all get
    an answer or give up: between min(buyers, stock, attempts) and min(buyers, stock) win.
   */
  lemma WinnersAreBounded(stock: map<Pid, int>, run: seq<Action>, p: Pid, buyers: set<Rid>)
    requires Uses(run, {Optimistic}) && AsksPositive(run) && p in stock && 0 <= stock[p]
    requires var s := Run(Init(stock), run);
      forall r :: r in buyers <==> r in s.requests && s.requests[r].pid == p
    requires var s := Run(Init(stock), run);
      forall r :: r in buyers ==>
        s.requests[r].quantity == 1 && s.requests[r].pc.Finished? && !s.requests[r].pc.outcome.Aborted?
    ensures var wins := |WinnersOf(Run(Init(stock), run).reservations, p)|;
      Min(Min(|buyers|, stock[p]), MAX_OPTIMISTIC_ATTEMPTS) <= wins <= Min(|buyers|, stock[p])
  {
    var s := Run(Init(stock), run);
    var winners := WinnersOf(s.reservations, p);
    forall r | r in s.requests && s.requests[r].pid == p ensures s.requests[r].quantity == 1 {
      assert r in buyers;
    }
    assert UnitsOnly(s, p);
    UnitsSold(stock, run, p);
    SubsetSize(winners, buyers);
    if r :| r in buyers && r !in winners {
      LoserHasAReason(stock, run, p, r);
    } else {
      SubsetSize(buyers, winners);
    }
  }

  lemma LoserHasAReason(stock: map<Pid, int>, run: seq<Action>, p: Pid, r: Rid)
    requires Uses(run, {Optimistic}) && AsksPositive(run) && p in stock
    requires var s := Run(Init(stock), run);
      r in s.requests && s.requests[r].pid == p && s.requests[r].quantity == 1 && r !in WinnersOf(s.reservations, p) &&
      s.requests[r].pc.Finished? && !s.requests[r].pc.outcome.Aborted?
    ensures var s := Run(Init(stock), run);
      p in s.rows && (s.rows[p].row.stock < 1 || |WinnersOf(s.reservations, p)| >= MAX_OPTIMISTIC_ATTEMPTS)
  {
    var s := Run(Init(stock), run);
    RunsRecordWinners(stock, run);
    RunsCountVersions(stock, run);
    assert forall i :: 0 <= i < |s.reservations| && s.reservations[i].pid == p ==>
        s.reservations[i].id in WinnersOf(s.reservations, p);
    assert RowOf(s, r) !in s.reservations;
    if s.requests[r].pc.outcome.Conflict? {
      assert [] + run == run;
      GivingUpMeansOthersWon(stock, [], run, r, p);
      SubsetSize(WinnersOf(s.reservations, p) - WinnersOf([], p), WinnersOf(s.reservations, p));
    } else {
      RunKeepsRefusals(stock, run);
      RunKeepsInv(ByVersion, stock, run);
      assert RequestOk(ByVersion, s, r);
      OnlyKnownEndings(stock, run, r);
    }
  }

  lemma EndsKnown(s: State, r: Rid, statement: Statement)
    requires r in s.requests && RequestOk(ByVersion, s, r) && s.requests[r].pid in s.rows
    requires !s.requests[r].pc.Finished? && DoStep(s, r, statement).requests[r].pc.Finished?
    ensures DoStep(s, r, statement).requests[r].pc.outcome in {Reserved, Unheard, NotEnough, Conflict, Aborted}
  {
    match statement
    case Select =>
    case Update =>
    case _ =>
  }

  /** An optimistic request on an existing product ends in one of three ways, or is aborted. */
  lemma {:induction false} OnlyKnownEndings(stock: map<Pid, int>, run: seq<Action>, r: Rid)
    requires Uses(run, {Optimistic})
    requires var s := Run(Init(stock), run); r in s.requests && s.requests[r].pid in stock && s.requests[r].pc.Finished?
    ensures Run(Init(stock), run).requests[r].pc.outcome in {Reserved, Unheard, NotEnough, Conflict, Aborted}
  {
    var front, a := run[..|run| - 1], run[|run| - 1];
    var s := Run(Init(stock), front);
    RunsCountVersions(stock, front);
    RunKeepsInv(ByVersion, stock, front);
    if a.Do? && a.who in s.requests {
      assert RequestOk(ByVersion, s, a.who);
      DoTouches(s, a.who, a.statement);
      if a.who == r && !s.requests[r].pc.Finished? { EndsKnown(s, r, a.statement); }
    }
    if r in s.requests && s.requests[r].pc.Finished? {
      OnlyKnownEndings(stock, front, r);
    }
  }
}
