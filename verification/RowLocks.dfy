/**
  Row locks taken in canonical order cannot deadlock.

  Any number of transactions, each with a plan of lock requests, run interleaved; a lock is
  granted when it is compatible with every other holder and is kept until commit.
 */
module RowLocks {
  import opened Ordering

  datatype Mode = Share | Exclusive

  predicate LockCompatible(a: Mode, b: Mode) {
    a == b == Share
  }

  // ---------------------------------------------------------------- canonical order

  function Self(id: string): string {
    id
  }

  /** The canonical order in which a transaction must lock `ids`. */
  function OrderLocks(ids: seq<string>): (r: seq<string>)
    ensures multiset(r) == multiset(ids)
    ensures forall i, j :: 0 <= i < j < |r| ==> !Before(r[j], r[i])
  {
    Sort(ids, Self)
  }

  /** Whatever order a caller lists its resources in, it locks them in the same order. */
  lemma OrderIsCanonical(a: seq<string>, b: seq<string>)
    requires multiset(a) == multiset(b)
    ensures OrderLocks(a) == OrderLocks(b)
  {
    SortedIsUnique(OrderLocks(a), OrderLocks(b), Self);
  }

  // ---------------------------------------------------------------- the protocol

  datatype Request = Request(resource: string, mode: Mode)

  /** `held` requests of the plan have been granted; the locks go at commit. */
  datatype Tx = Tx(plan: seq<Request>, held: nat, committed: bool)

  type State = seq<Tx>

  datatype Action = Begin(plan: seq<Request>) | Take(t: nat) | Commit(t: nat)

  predicate Wants(x: Tx) {
    !x.committed && x.held < |x.plan|
  }

  /** The next request of `x` is incompatible with a lock that `y` holds. */
  predicate Conflicts(x: Tx, y: Tx)
    requires Wants(x)
  {
    !y.committed &&
    exists i :: 0 <= i < y.held && i < |y.plan| && y.plan[i].resource == x.plan[x.held].resource &&
      !LockCompatible(y.plan[i].mode, x.plan[x.held].mode)
  }

  /** `t` waits for `u`. */
  predicate WaitsFor(s: State, t: nat, u: nat) {
    t < |s| && u < |s| && t != u && Wants(s[t]) && Conflicts(s[t], s[u])
  }

  predicate CanTake(s: State, t: nat) {
    t < |s| && Wants(s[t]) && forall u: nat :: u < |s| ==> !WaitsFor(s, t, u)
  }

  predicate CanCommit(s: State, t: nat) {
    t < |s| && !s[t].committed && s[t].held >= |s[t].plan|
  }

  function Step(s: State, a: Action): State {
    match a
    case Begin(plan) => s + [Tx(plan, 0, false)]
    case Take(t) => if CanTake(s, t) then s[t := s[t].(held := s[t].held + 1)] else s
    case Commit(t) => if CanCommit(s, t) then s[t := s[t].(committed := true)] else s
  }

  function Run(s: State, run: seq<Action>): State {
    if run == [] then s
    else Step(Run(s, run[..|run| - 1]), run[|run| - 1])
  }

  /** Ascending resources, and a lock is never upgraded from share to exclusive. */
  predicate Disciplined(plan: seq<Request>) {
    forall i, j :: 0 <= i < j < |plan| ==>
      (!Before(plan[j].resource, plan[i].resource) &&
       (plan[i].resource == plan[j].resource && plan[j].mode.Exclusive? ==> plan[i].mode.Exclusive?))
  }

  predicate AllDisciplined(run: seq<Action>) {
    forall i :: 0 <= i < |run| && run[i].Begin? ==> Disciplined(run[i].plan)
  }

  /** Ordering the resources and locking each in one mode is a disciplined plan. */
  lemma OrderedPlansAreDisciplined(ids: seq<string>, mode: string -> Mode)
    ensures Disciplined(seq(|OrderLocks(ids)|, i requires 0 <= i < |OrderLocks(ids)| =>
      Request(OrderLocks(ids)[i], mode(OrderLocks(ids)[i]))))
  {
  }

  // ---------------------------------------------------------------- the invariant

  predicate TxOk(x: Tx) {
    Disciplined(x.plan) && x.held <= |x.plan| && (x.committed ==> x.held == |x.plan|)
  }

  /** Granted locks of different transactions are compatible. */
  ghost predicate Inv(s: State) {
    (forall t :: 0 <= t < |s| ==> TxOk(s[t])) &&
    (forall t, u :: 0 <= t < |s| && 0 <= u < |s| && t != u && !s[t].committed && !s[u].committed ==>
      Compatible(s[t], s[u]))
  }

  predicate Compatible(x: Tx, y: Tx) {
    forall i, j ::
      0 <= i < x.held && i < |x.plan| && 0 <= j < y.held && j < |y.plan| && x.plan[i].resource == y.plan[j].resource
      ==> LockCompatible(x.plan[i].mode, y.plan[j].mode)
  }

  lemma StepKeepsInv(s: State, a: Action)
    requires Inv(s)
    requires a.Begin? ==> Disciplined(a.plan)
    ensures Inv(Step(s, a))
  {
    var s' := Step(s, a);
    if a.Take? && CanTake(s, a.t) {
      var x := s[a.t];
      forall u, j | 0 <= u < |s| && u != a.t && !s[u].committed && 0 <= j < s[u].held &&
          s[u].plan[j].resource == x.plan[x.held].resource
        ensures LockCompatible(s[u].plan[j].mode, x.plan[x.held].mode)
      {
        assert !WaitsFor(s, a.t, u);
      }
    }
  }

  lemma {:induction false} RunKeepsInv(run: seq<Action>)
    requires AllDisciplined(run)
    ensures Inv(Run([], run))
  {
    if run != [] {
      RunKeepsInv(run[..|run| - 1]);
      StepKeepsInv(Run([], run[..|run| - 1]), run[|run| - 1]);
    }
  }

  /** The `i`-th lock of `y` is on the resource that `x` wants next. */
  predicate Shares(x: Tx, y: Tx, i: nat) {
    Wants(x) && !y.committed && i < y.held && i < |y.plan| && y.plan[i].resource == x.plan[x.held].resource
  }

  /** A request waits for exactly those who hold its resource while either of the two is exclusive. */
  lemma OnlyExclusionWaits(s: State, t: nat, u: nat)
    requires t < |s| && u < |s| && t != u
    ensures WaitsFor(s, t, u) <==>
      exists i: nat :: Shares(s[t], s[u], i) && (s[t].plan[s[t].held].mode.Exclusive? || s[u].plan[i].mode.Exclusive?)
  {
    if WaitsFor(s, t, u) {
      var i :| 0 <= i < s[u].held && i < |s[u].plan| && s[u].plan[i].resource == s[t].plan[s[t].held].resource &&
        !LockCompatible(s[u].plan[i].mode, s[t].plan[s[t].held].mode);
      assert Shares(s[t], s[u], i);
    }
  }

  /** In every reachable state, what two unfinished transactions hold together both hold shared. */
  lemma HeldTogetherMeansShared(run: seq<Action>, t: nat, u: nat, i: nat, j: nat)
    requires AllDisciplined(run)
    requires var s := Run([], run);
      t < |s| && u < |s| && t != u && !s[t].committed && !s[u].committed &&
      i < s[t].held && i < |s[t].plan| && j < s[u].held && j < |s[u].plan| &&
      s[t].plan[i].resource == s[u].plan[j].resource
    ensures var s := Run([], run); s[t].plan[i].mode.Share? && s[u].plan[j].mode.Share?
  {
    RunKeepsInv(run);
    assert Compatible(Run([], run)[t], Run([], run)[u]);
  }

  // ---------------------------------------------------------------- no deadlock

  function Wanted(x: Tx): string
    requires Wants(x)
  {
    x.plan[x.held].resource
  }

  /** Along a wait, the wanted resource strictly ascends. */
  lemma WaitsAscend(s: State, t: nat, u: nat, v: nat)
    requires Inv(s) && WaitsFor(s, t, u) && WaitsFor(s, u, v)
    ensures Before(Wanted(s[t]), Wanted(s[u]))
  {
    var x, y, z := s[t], s[u], s[v];
    var i :| 0 <= i < y.held && y.plan[i].resource == Wanted(x) && !LockCompatible(y.plan[i].mode, x.plan[x.held].mode);
    var k :| 0 <= k < z.held && z.plan[k].resource == Wanted(y) && !LockCompatible(z.plan[k].mode, y.plan[y.held].mode);
    BeforeIsStrictOrder(Wanted(x), Wanted(y), Wanted(x));
    assert Compatible(y, z);
  }

  /** `path` is a walk in the wait-for graph. */
  ghost predicate IsWalk(s: State, path: seq<nat>) {
    forall k :: 0 <= k < |path| - 1 ==> WaitsFor(s, path[k], path[k + 1])
  }

  lemma {:induction false} WalksAscend(s: State, path: seq<nat>, n: nat)
    requires Inv(s) && IsWalk(s, path) && 1 <= n < |path| - 1
    ensures WaitsFor(s, path[0], path[1]) && WaitsFor(s, path[n], path[n + 1])
    ensures Before(Wanted(s[path[0]]), Wanted(s[path[n]]))
  {
    WaitsAscend(s, path[n - 1], path[n], path[n + 1]);
    if n > 1 {
      WalksAscend(s, path, n - 1);
      BeforeIsStrictOrder(Wanted(s[path[0]]), Wanted(s[path[n - 1]]), Wanted(s[path[n]]));
    }
  }

  /** In every reachable state the wait-for graph has no cycle. */
  lemma NoCycle(run: seq<Action>, path: seq<nat>)
    requires AllDisciplined(run)
    requires |path| > 1 && IsWalk(Run([], run), path)
    ensures path[0] != path[|path| - 1]
  {
    var s, n := Run([], run), |path| - 1;
    RunKeepsInv(run);
    if path[0] == path[n] {
      var longer := path + [path[1]];
      forall k | 0 <= k < |longer| - 1 ensures WaitsFor(s, longer[k], longer[k + 1]) {
        if k == n { assert WaitsFor(s, path[0], path[1]); } else { assert WaitsFor(s, path[k], path[k + 1]); }
      }
      WalksAscend(s, longer, n);
      BeforeIsStrictOrder(Wanted(s[path[0]]), "", "");
    }
  }

  // ---------------------------------------------------------------- everything commits

  ghost predicate Waiting(s: State, t: nat) {
    exists u: nat :: WaitsFor(s, t, u)
  }

  /** Of the waiting transactions among the first `n`, one that wants the highest resource. */
  lemma {:induction false} Highest(s: State, n: nat, some: nat) returns (t: nat)
    requires n <= |s| && some < n && Waiting(s, some)
    ensures t < n && Waiting(s, t)
    ensures forall u: nat :: u < n && Waiting(s, u) ==> !Before(Wanted(s[t]), Wanted(s[u]))
  {
    if u: nat :| u < n - 1 && Waiting(s, u) {
      t := Highest(s, n - 1, u);
      if Waiting(s, n - 1) && Before(Wanted(s[t]), Wanted(s[n - 1])) {
        forall v: nat | v < n - 1 && Waiting(s, v) ensures !Before(Wanted(s[n - 1]), Wanted(s[v])) {
          BeforeIsStrictOrder(Wanted(s[t]), Wanted(s[n - 1]), Wanted(s[v]));
        }
        t := n - 1;
      }
    } else {
      t := some;
    }
    BeforeIsStrictOrder(Wanted(s[t]), "", "");
  }

  predicate CanStep(s: State, a: Action) {
    (a.Take? && CanTake(s, a.t)) || (a.Commit? && CanCommit(s, a.t))
  }

  /** While a transaction is unfinished, some transaction can take its next lock or commit. */
  lemma NeverStuck(s: State) returns (a: Action)
    requires Inv(s) && !AllCommitted(s)
    ensures CanStep(s, a)
  {
    var t :| 0 <= t < |s| && !s[t].committed;
    if Waiting(s, t) {
      t := Highest(s, |s|, t);
      var u: nat :| WaitsFor(s, t, u);
      if v: nat :| WaitsFor(s, u, v) {
        WaitsAscend(s, t, u, v);
        assert Waiting(s, u);
      }
      t := u;
    }
    a := if Wants(s[t]) then Take(t) else Commit(t);
  }

  /** Lock acquisitions and commits still to come. */
  function Work(s: State): nat {
    if s == [] then 0
    else Work(s[..|s| - 1]) + Left(s[|s| - 1])
  }

  function Left(x: Tx): nat {
    (if x.held < |x.plan| then |x.plan| - x.held else 0) + if x.committed then 0 else 1
  }

  lemma {:induction false} WorkOfUpdate(s: State, t: nat, x: Tx)
    requires t < |s|
    ensures Work(s[t := x]) == Work(s) - Left(s[t]) + Left(x)
  {
    var s' := s[t := x];
    if t < |s| - 1 {
      WorkOfUpdate(s[..|s| - 1], t, x);
      assert s'[..|s| - 1] == s[..|s| - 1][t := x];
    } else {
      assert s'[..|s| - 1] == s[..|s| - 1];
    }
  }

  /** No run can go on forever: every step that is not a new transaction uses up work. */
  lemma StepsUseWork(s: State, a: Action)
    requires Inv(s) && !a.Begin? && Step(s, a) != s
    ensures Work(Step(s, a)) == Work(s) - 1
  {
    WorkOfUpdate(s, a.t, Step(s, a)[a.t]);
  }

  predicate AllCommitted(s: State) {
    forall t :: 0 <= t < |s| ==> s[t].committed
  }

  lemma {:induction false} RunAfter(s: State, a: Action, rest: seq<Action>)
    ensures Run(s, [a] + rest) == Run(Step(s, a), rest)
  {
    if rest == [] {
      assert ([a] + rest)[..0] == [];
    } else {
      RunAfter(s, a, rest[..|rest| - 1]);
      assert ([a] + rest)[..|rest|] == [a] + rest[..|rest| - 1];
    }
  }

  lemma {:induction false} EveryoneCommitsFrom(s: State) returns (rest: seq<Action>)
    requires Inv(s)
    ensures AllCommitted(Run(s, rest)) && |rest| == Work(s)
    decreases Work(s)
  {
    if AllCommitted(s) {
      rest := [];
      NoWorkLeft(s);
    } else {
      var a := NeverStuck(s);
      StepsUseWork(s, a);
      StepKeepsInv(s, a);
      var more := EveryoneCommitsFrom(Step(s, a));
      rest := [a] + more;
      RunAfter(s, a, more);
    }
  }

  lemma {:induction false} NoWorkLeft(s: State)
    requires Inv(s) && AllCommitted(s)
    ensures Work(s) == 0
  {
    if s != [] { NoWorkLeft(s[..|s| - 1]); }
  }

  /**
    From every reachable state, however far the transactions have got, they can all be
    driven to commit, and the schedule takes exactly the outstanding work.
   */
  lemma EveryoneCommits(run: seq<Action>) returns (rest: seq<Action>)
    requires AllDisciplined(run)
    ensures AllCommitted(Run(Run([], run), rest)) && |rest| == Work(Run([], run))
  {
    RunKeepsInv(run);
    rest := EveryoneCommitsFrom(Run([], run));
  }

  // ---------------------------------------------------------------- without the discipline

  /** Two transactions that lock the same two rows in opposite orders can reach a cycle. */
  lemma OppositeOrdersDeadlock(x: string, y: string)
    requires x != y
    ensures
      var p, q := [Request(x, Exclusive), Request(y, Exclusive)], [Request(y, Exclusive), Request(x, Exclusive)];
      var s := Run([], [Begin(p), Begin(q), Take(0), Take(1)]);
      WaitsFor(s, 0, 1) && WaitsFor(s, 1, 0)
  {
    var p, q := [Request(x, Exclusive), Request(y, Exclusive)], [Request(y, Exclusive), Request(x, Exclusive)];
    CycleAfter(p, q);
  }

  /** So can two transactions that upgrade the same row from share to exclusive, even in order. */
  lemma UpgradesDeadlock(x: string)
    ensures
      var p := [Request(x, Share), Request(x, Exclusive)];
      var s := Run([], [Begin(p), Begin(p), Take(0), Take(1)]);
      WaitsFor(s, 0, 1) && WaitsFor(s, 1, 0)
  {
    var p := [Request(x, Share), Request(x, Exclusive)];
    CycleAfter(p, p);
  }

  lemma CycleAfter(p: seq<Request>, q: seq<Request>)
    requires |p| == 2 && |q| == 2
    requires p[0].resource == q[0].resource ==> LockCompatible(p[0].mode, q[0].mode)
    requires p[0].resource == q[1].resource && !LockCompatible(p[0].mode, q[1].mode)
    requires q[0].resource == p[1].resource && !LockCompatible(q[0].mode, p[1].mode)
    ensures var s := Run([], [Begin(p), Begin(q), Take(0), Take(1)]);
      WaitsFor(s, 0, 1) && WaitsFor(s, 1, 0)
  {
    var run := [Begin(p), Begin(q), Take(0), Take(1)];
    assert run[..3][..2] == run[..2] && run[..2][..1] == run[..1] && run[..1][..0] == [];
    assert Run([], run[..1]) == [Tx(p, 0, false)];
    assert Run([], run[..2]) == [Tx(p, 0, false), Tx(q, 0, false)];
    assert Run([], run[..3]) == [Tx(p, 1, false), Tx(q, 0, false)];
    assert Run([], run) == [Tx(p, 1, false), Tx(q, 1, false)];
  }
}
