/**
  Cache lookups with one shared task per key: look up, join or start the key's task, await it,
  take it out of the registry.  Tasks look up again before they call the factory.
 */
module SingleFlight {
  import opened Options

  type Key = nat
  type Cid = nat
  type Tid = nat

  /** A JSON value; the cache cannot tell a stored null from a missing entry. */
  datatype Json = Null | Data(value: nat)

  datatype Progress =
    | Started                          // about to look up again
    | Building                         // the factory is running
    | Built(value: Json)               // about to store the factory's value
    | Finished(result: Option<Json>)   // None: an exception or a cancellation

  datatype Task = Task(key: Key, progress: Progress)

  datatype Pc =
    | Looking
    | Missed                                    // about to join
    | Waiting(t: Tid)
    | Leaving(t: Tid, result: Option<Json>)     // about to take the task out of the registry
    | Over(result: Option<Json>)

  datatype Caller = Caller(key: Key, pc: Pc)

  /** A factory call that has succeeded. */
  datatype Made = Made(key: Key, value: Json)

  datatype State = State(cache: map<Key, Json>, registry: map<Key, Tid>, tasks: seq<Task>,
                         callers: map<Cid, Caller>, made: seq<Made>)

  datatype CallerStep =
    | Lookup
    | Join
    | Wake        // the awaited task is done
    | Cancel      // a cancellation
    | Leave
    | Drop        // an exception from the cache

  datatype TaskStep =
    | Reread
    | Produce(value: Json)
    | Store
    | StoreUnheard   // the cache has the value, but the task gets an exception
    | Break          // an exception or a cancellation

  datatype Action =
    | Arrive(c: Cid, key: Key)
    | Call(c: Cid, step: CallerStep)
    | Work(t: Tid, what: TaskStep)
    | Lose(key: Key)   // the entry expires or is deleted

  // ---------------------------------------------------------------- steps

  predicate Hit(cache: map<Key, Json>, key: Key) {
    key in cache && cache[key].Data?
  }

  function Goto(s: State, c: Cid, pc: Pc): State
    requires c in s.callers
  {
    s.(callers := s.callers[c := s.callers[c].(pc := pc)])
  }

  function Proceed(s: State, t: Tid, progress: Progress): State
    requires t < |s.tasks|
  {
    s.(tasks := s.tasks[t := s.tasks[t].(progress := progress)])
  }

  predicate IsDone(s: State, t: Tid) {
    t < |s.tasks| && s.tasks[t].progress.Finished?
  }

  function JoinStep(s: State, c: Cid): State
    requires c in s.callers
  {
    var k := s.callers[c].key;
    if k in s.registry then Goto(s, c, Waiting(s.registry[k]))
    else
      Goto(s.(tasks := s.tasks + [Task(k, Started)], registry := s.registry[k := |s.tasks|]), c, Waiting(|s.tasks|))
  }

  function LeaveStep(s: State, c: Cid): State
    requires c in s.callers && s.callers[c].pc.Leaving?
  {
    var k, t := s.callers[c].key, s.callers[c].pc.t;
    if IsDone(s, t) && k in s.registry && s.registry[k] == t
    then Goto(s.(registry := s.registry - {k}), c, Over(s.callers[c].pc.result))
    else Goto(s, c, Over(s.callers[c].pc.result))
  }

  /**
    Awaiting a task passes a cancellation on to it: an unfinished task ends, and its callers wake up
    from that.  A task that is done keeps its result, but the cancelled caller does not get it.
   */
  function CancelStep(s: State, c: Cid): State
    requires c in s.callers
  {
    var pc := s.callers[c].pc;
    if pc.Looking? || pc.Missed? then Goto(s, c, Over(None))
    else if !pc.Waiting? || pc.t >= |s.tasks| then s
    else if IsDone(s, pc.t) then Goto(s, c, Leaving(pc.t, None))
    else Proceed(s, pc.t, Finished(None))
  }

  /** Cancelling `c` ends an unfinished task. */
  predicate EndsTask(s: State, c: Cid) {
    c in s.callers && s.callers[c].pc.Waiting? && s.callers[c].pc.t < |s.tasks| && !IsDone(s, s.callers[c].pc.t)
  }

  function CallStep(s: State, c: Cid, step: CallerStep): State
    requires c in s.callers
  {
    var x := s.callers[c];
    match step
    case Lookup =>
      if !x.pc.Looking? then s
      else if Hit(s.cache, x.key) then Goto(s, c, Over(Some(s.cache[x.key])))
      else Goto(s, c, Missed)
    case Join => if x.pc.Missed? then JoinStep(s, c) else s
    case Wake =>
      if x.pc.Waiting? && IsDone(s, x.pc.t) then Goto(s, c, Leaving(x.pc.t, s.tasks[x.pc.t].progress.result)) else s
    case Cancel => CancelStep(s, c)
    case Leave => if x.pc.Leaving? then LeaveStep(s, c) else s
    case Drop => if x.pc.Looking? then Goto(s, c, Over(None)) else s
  }

  function WorkStep(s: State, t: Tid, what: TaskStep): State
    requires t < |s.tasks|
  {
    var k, at := s.tasks[t].key, s.tasks[t].progress;
    match what
    case Reread =>
      if !at.Started? then s
      else if Hit(s.cache, k) then Proceed(s, t, Finished(Some(s.cache[k])))
      else Proceed(s, t, Building)
    case Produce(v) => if at.Building? then Proceed(s, t, Built(v)).(made := s.made + [Made(k, v)]) else s
    case Store => if at.Built? then Proceed(s, t, Finished(Some(at.value))).(cache := s.cache[k := at.value]) else s
    case StoreUnheard => if at.Built? then Proceed(s, t, Finished(None)).(cache := s.cache[k := at.value]) else s
    case Break => if at.Finished? then s else Proceed(s, t, Finished(None))
  }

  function Step(s: State, a: Action): State {
    match a
    case Arrive(c, key) => if c in s.callers then s else s.(callers := s.callers[c := Caller(key, Looking)])
    case Call(c, step) => if c in s.callers then CallStep(s, c, step) else s
    case Work(t, what) => if t < |s.tasks| then WorkStep(s, t, what) else s
    case Lose(key) => s.(cache := s.cache - {key})
  }

  function Run(s: State, run: seq<Action>): State {
    if run == [] then s
    else Step(Run(s, run[..|run| - 1]), run[|run| - 1])
  }

  const EMPTY := State(map[], map[], [], map[], [])

  // ---------------------------------------------------------------- one unfinished task per key

  predicate CallerOk(s: State, x: Caller) {
    (x.pc.Waiting? || x.pc.Leaving? ==> x.pc.t < |s.tasks| && s.tasks[x.pc.t].key == x.key) &&
    (x.pc.Leaving? ==> IsDone(s, x.pc.t) && x.pc.result in {None, s.tasks[x.pc.t].progress.result})
  }

  predicate Inv(s: State) {
    (forall k :: k in s.registry ==> s.registry[k] < |s.tasks| && s.tasks[s.registry[k]].key == k) &&
    (forall t :: 0 <= t < |s.tasks| && !IsDone(s, t) ==>
      s.tasks[t].key in s.registry && s.registry[s.tasks[t].key] == t) &&
    (forall c :: c in s.callers ==> CallerOk(s, s.callers[c]))
  }

  lemma CallKeepsInv(s: State, c: Cid, step: CallerStep)
    requires Inv(s) && c in s.callers
    ensures Inv(CallStep(s, c, step))
  {
    if step.Join? {
      JoinKeepsInv(s, c);
    } else if step.Cancel? && EndsTask(s, c) {
      CancelIsBreak(s, c);
      WorkKeepsInv(s, s.callers[c].pc.t, Break);
    } else {
      MoveKeepsInv(s, c, step);
    }
  }

  lemma MoveKeepsInv(s: State, c: Cid, step: CallerStep)
    requires Inv(s) && c in s.callers && !step.Join? && !(step.Cancel? && EndsTask(s, c))
    ensures Inv(CallStep(s, c, step))
  {
    var s' := CallStep(s, c, step);
    assert s'.tasks == s.tasks && CallerOk(s, s.callers[c]);
    forall d | d in s'.callers ensures CallerOk(s', s'.callers[d]) { assert CallerOk(s, s.callers[d]); }
  }

  /** For everybody else, cancelling a caller looks like its task breaking off. */
  lemma CancelIsBreak(s: State, c: Cid)
    requires EndsTask(s, c)
    ensures CallStep(s, c, Cancel) == WorkStep(s, s.callers[c].pc.t, Break)
  {
  }

  lemma JoinKeepsInv(s: State, c: Cid)
    requires Inv(s) && c in s.callers
    ensures Inv(CallStep(s, c, Join))
  {
    var s' := CallStep(s, c, Join);
    assert s.tasks <= s'.tasks;
    forall d | d in s'.callers ensures CallerOk(s', s'.callers[d]) { assert CallerOk(s, s.callers[d]); }
  }

  lemma WorkKeepsInv(s: State, t: Tid, what: TaskStep)
    requires Inv(s) && t < |s.tasks|
    ensures Inv(WorkStep(s, t, what))
  {
    var s' := WorkStep(s, t, what);
    assert s'.registry == s.registry && s'.callers == s.callers;
    assert forall u :: 0 <= u < |s.tasks| ==>
      s'.tasks[u].key == s.tasks[u].key && (IsDone(s, u) ==> s'.tasks[u] == s.tasks[u]);
    forall d | d in s'.callers ensures CallerOk(s', s'.callers[d]) { assert CallerOk(s, s.callers[d]); }
  }

  lemma StepKeepsInv(s: State, a: Action)
    requires Inv(s)
    ensures Inv(Step(s, a))
  {
    match a
    case Arrive(_, _) =>
      forall d | d in s.callers ensures CallerOk(Step(s, a), s.callers[d]) { assert CallerOk(s, s.callers[d]); }
    case Call(c, step) => if c in s.callers { CallKeepsInv(s, c, step); }
    case Work(t, what) => if t < |s.tasks| { WorkKeepsInv(s, t, what); }
    case Lose(_) =>
      forall d | d in s.callers ensures CallerOk(Step(s, a), s.callers[d]) { assert CallerOk(s, s.callers[d]); }
  }

  lemma {:induction false} RunKeepsInv(run: seq<Action>)
    ensures Inv(Run(EMPTY, run))
  {
    if run != [] {
      RunKeepsInv(run[..|run| - 1]);
      StepKeepsInv(Run(EMPTY, run[..|run| - 1]), run[|run| - 1]);
    }
  }

  /** Whatever fails or is cancelled, two tasks of one key are never unfinished together. */
  lemma AtMostOneUnfinished(run: seq<Action>, t: Tid, u: Tid)
    requires var s := Run(EMPTY, run);
      t < |s.tasks| && u < |s.tasks| && s.tasks[t].key == s.tasks[u].key && !IsDone(s, t) && !IsDone(s, u)
    ensures t == u
  {
    RunKeepsInv(run);
  }

  // ---------------------------------------------------------------- one value per key

  /** The step throws a produced value away, or produces one that the cache cannot show. */
  predicate Loses(s: State, a: Action) {
    match a
    case Lose(key) => key in s.cache
    case Work(t, Break) => t < |s.tasks| && s.tasks[t].progress.Built?
    case Call(c, Cancel) => EndsTask(s, c) && s.tasks[s.callers[c].pc.t].progress.Built?
    case Work(t, Produce(v)) => v.Null?
    case _ => false
  }

  predicate LosesNothing(run: seq<Action>) {
    forall i :: 0 <= i < |run| ==> !Loses(Run(EMPTY, run[..i]), run[i])
  }

  /** What the value of `key` depends on: it is in the cache, or its only unfinished task carries it. */
  ghost predicate Kept(s: State, m: Made) {
    (m.key in s.cache && s.cache[m.key] == m.value) ||
    exists t :: 0 <= t < |s.tasks| && s.tasks[t] == Task(m.key, Built(m.value))
  }

  predicate MadeNow(s: State, key: Key) {
    exists i :: 0 <= i < |s.made| && s.made[i].key == key
  }

  predicate TaskKeeps(s: State, t: Tid)
    requires t < |s.tasks|
  {
    match s.tasks[t].progress
    case Started => true
    case Building => !MadeNow(s, s.tasks[t].key)
    case Built(v) => Made(s.tasks[t].key, v) in s.made
    case Finished(r) => r.Some? ==> Made(s.tasks[t].key, r.value) in s.made
  }

  predicate CallerKeeps(s: State, x: Caller) {
    x.pc.Over? && x.pc.result.Some? ==> Made(x.key, x.pc.result.value) in s.made
  }

  ghost predicate OneValue(s: State) {
    (forall i, j :: 0 <= i < j < |s.made| ==> s.made[i].key != s.made[j].key) &&
    (forall m :: m in s.made ==> m.value.Data? && Kept(s, m)) &&
    (forall k :: k in s.cache ==> Made(k, s.cache[k]) in s.made) &&
    (forall t :: 0 <= t < |s.tasks| ==> TaskKeeps(s, t)) &&
    (forall c :: c in s.callers ==> CallerKeeps(s, s.callers[c]))
  }

  /** Steps of callers make and store nothing; a new task has not done anything yet. */
  lemma TasksKeepOneValue(s: State, s': State)
    requires OneValue(s) && s'.made == s.made && s'.cache == s.cache && s.tasks <= s'.tasks
    requires forall t :: |s.tasks| <= t < |s'.tasks| ==> s'.tasks[t].progress.Started?
    requires forall c :: c in s'.callers ==> CallerKeeps(s', s'.callers[c])
    ensures OneValue(s')
  {
    forall m | m in s'.made ensures Kept(s', m) {
      assert Kept(s, m);
      if t :| 0 <= t < |s.tasks| && s.tasks[t] == Task(m.key, Built(m.value)) { assert s'.tasks[t] == s.tasks[t]; }
    }
    forall t | 0 <= t < |s'.tasks| ensures TaskKeeps(s', t) {
      if t < |s.tasks| { assert TaskKeeps(s, t); }
    }
  }

  lemma CallersKeep(s: State, c: Cid, step: CallerStep)
    requires Inv(s) && OneValue(s) && c in s.callers && !(step.Cancel? && EndsTask(s, c))
    ensures var s' := CallStep(s, c, step); forall d :: d in s'.callers ==> CallerKeeps(s', s'.callers[d])
  {
    var s' := CallStep(s, c, step);
    assert s'.made == s.made;
    assert CallerKeeps(s, s.callers[c]) && CallerOk(s, s.callers[c]);
    if s.callers[c].pc.Leaving? { assert TaskKeeps(s, s.callers[c].pc.t); }
    forall d | d in s'.callers ensures CallerKeeps(s', s'.callers[d]) { assert CallerKeeps(s, s.callers[d]); }
  }

  lemma CallKeepsOneValue(s: State, c: Cid, step: CallerStep)
    requires Inv(s) && OneValue(s) && c in s.callers && !(step.Cancel? && EndsTask(s, c))
    ensures OneValue(CallStep(s, c, step))
  {
    CallersKeep(s, c, step);
    TasksKeepOneValue(s, CallStep(s, c, step));
  }

  /** The factory succeeds where it has not succeeded before. */
  lemma ProduceKeepsOneValue(s: State, t: Tid, v: Json)
    requires Inv(s) && OneValue(s) && t < |s.tasks| && s.tasks[t].progress.Building? && v.Data?
    ensures OneValue(WorkStep(s, t, Produce(v)))
  {
    var s' := WorkStep(s, t, Produce(v));
    var k := s.tasks[t].key;
    assert TaskKeeps(s, t);
    forall m | m in s'.made ensures m.value.Data? && Kept(s', m) {
      if m in s.made {
        assert Kept(s, m);
        if u :| 0 <= u < |s.tasks| && s.tasks[u] == Task(m.key, Built(m.value)) { assert s'.tasks[u] == s.tasks[u]; }
      } else {
        assert s'.tasks[t] == Task(m.key, Built(m.value));
      }
    }
    forall u | 0 <= u < |s'.tasks| ensures TaskKeeps(s', u) {
      assert TaskKeeps(s, u);
      if u == t {
        assert s'.made[|s.made|] == Made(k, v);
      } else if s.tasks[u].progress.Building? {
        assert !IsDone(s, u) && !IsDone(s, t);
        assert s.tasks[u].key != k;
      }
    }
    forall c | c in s'.callers ensures CallerKeeps(s', s'.callers[c]) { assert CallerKeeps(s, s.callers[c]); }
  }

  /** Looking up again finds a value that has been made, since no other task can carry it. */
  lemma RereadKeepsOneValue(s: State, t: Tid)
    requires Inv(s) && OneValue(s) && t < |s.tasks| && s.tasks[t].progress.Started?
    ensures OneValue(WorkStep(s, t, Reread))
  {
    var s' := WorkStep(s, t, Reread);
    var k := s.tasks[t].key;
    forall m | m in s.made ensures Kept(s', m) && (m.key == k ==> k in s.cache && s.cache[k].Data?) {
      assert Kept(s, m);
      if !(m.key in s.cache && s.cache[m.key] == m.value) {
        var u :| 0 <= u < |s.tasks| && s.tasks[u] == Task(m.key, Built(m.value));
        assert !IsDone(s, u) && !IsDone(s, t);
        assert s'.tasks[u] == s.tasks[u];
      }
    }
    forall u | 0 <= u < |s'.tasks| ensures TaskKeeps(s', u) { assert TaskKeeps(s, u); }
    forall c | c in s'.callers ensures CallerKeeps(s', s'.callers[c]) { assert CallerKeeps(s, s.callers[c]); }
  }

  lemma EndKeepsOneValue(s: State, t: Tid, what: TaskStep)
    requires Inv(s) && OneValue(s) && t < |s.tasks| && !Loses(s, Work(t, what))
    requires what.Store? || what.StoreUnheard? || what.Break?
    ensures OneValue(WorkStep(s, t, what))
  {
    var s' := WorkStep(s, t, what);
    assert TaskKeeps(s, t);
    forall m | m in s'.made ensures Kept(s', m) {
      assert Kept(s, m);
      if m.key in s.cache && s.cache[m.key] == m.value {
        if s'.cache != s.cache && m.key == s.tasks[t].key { SameKeySameValue(s, m, Made(m.key, s'.cache[m.key])); }
      } else {
        var u :| 0 <= u < |s.tasks| && s.tasks[u] == Task(m.key, Built(m.value));
        if u != t { assert s'.tasks[u] == s.tasks[u]; }
        assert u != t ==> s'.tasks[u] == Task(m.key, Built(m.value));
      }
    }
    forall u | 0 <= u < |s'.tasks| ensures TaskKeeps(s', u) { assert TaskKeeps(s, u); }
    forall c | c in s'.callers ensures CallerKeeps(s', s'.callers[c]) { assert CallerKeeps(s, s.callers[c]); }
  }

  lemma SameKeySameValue(s: State, m: Made, n: Made)
    requires OneValue(s) && m in s.made && n in s.made && m.key == n.key
    ensures m == n
  {
    var i :| 0 <= i < |s.made| && s.made[i] == m;
    var j :| 0 <= j < |s.made| && s.made[j] == n;
    assert !(i < j) && !(j < i);
  }

  lemma StepKeepsOneValue(s: State, a: Action)
    requires Inv(s) && OneValue(s) && !Loses(s, a)
    ensures OneValue(Step(s, a))
  {
    match a
    case Arrive(c, key) =>
      forall m | m in s.made ensures Kept(Step(s, a), m) { assert Kept(s, m); }
      forall t | 0 <= t < |s.tasks| ensures TaskKeeps(Step(s, a), t) { assert TaskKeeps(s, t); }
    case Call(c, step) =>
      if step.Cancel? && EndsTask(s, c) {
        CancelIsBreak(s, c);
        EndKeepsOneValue(s, s.callers[c].pc.t, Break);
      } else if c in s.callers {
        CallKeepsOneValue(s, c, step);
      }
    case Work(t, Reread) => if t < |s.tasks| && s.tasks[t].progress.Started? { RereadKeepsOneValue(s, t); }
    case Work(t, Produce(v)) => if t < |s.tasks| && s.tasks[t].progress.Building? { ProduceKeepsOneValue(s, t, v); }
    case Work(t, what) => if t < |s.tasks| { EndKeepsOneValue(s, t, what); }
    case Lose(key) => assert Step(s, a) == s by { assert s.cache - {key} == s.cache; }
  }

  lemma {:induction false} RunKeepsOneValue(run: seq<Action>)
    requires LosesNothing(run)
    ensures OneValue(Run(EMPTY, run))
  {
    if run != [] {
      var front := run[..|run| - 1];
      forall i | 0 <= i < |front| ensures !Loses(Run(EMPTY, front[..i]), front[i]) {
        assert front[..i] == run[..i];
      }
      RunKeepsOneValue(front);
      RunKeepsInv(front);
      StepKeepsOneValue(Run(EMPTY, front), run[|run| - 1]);
    }
  }

  /** The caller has come back with `value`. */
  predicate Returned(s: State, c: Cid, key: Key, value: Json) {
    c in s.callers && s.callers[c] == Caller(key, Over(Some(value)))
  }

  /**
    As long as no value is lost, the factory succeeds at most once for a key, and every caller that
    comes back has that value, also the callers that had missed the cache before it was stored.
   */
  lemma FactorySucceedsOnce(run: seq<Action>)
    requires LosesNothing(run)
    ensures var s := Run(EMPTY, run);
      (forall i, j :: 0 <= i < |s.made| && 0 <= j < |s.made| && s.made[i].key == s.made[j].key ==> i == j) &&
      forall c, key, value :: Returned(s, c, key, value) ==> Made(key, value) in s.made
  {
    RunKeepsOneValue(run);
    var s := Run(EMPTY, run);
    forall c, key, value | Returned(s, c, key, value) ensures Made(key, value) in s.made {
      assert CallerKeeps(s, s.callers[c]);
    }
  }

  // ---------------------------------------------------------------- nothing is left in the registry

  predicate Attends(s: State, c: Cid, t: Tid) {
    c in s.callers && (s.callers[c].pc == Waiting(t) || (s.callers[c].pc.Leaving? && s.callers[c].pc.t == t))
  }

  ghost predicate AllAttended(s: State) {
    forall k :: k in s.registry ==> exists c :: Attends(s, c, s.registry[k])
  }

  lemma CallKeepsAttended(s: State, d: Cid, step: CallerStep)
    requires Inv(s) && AllAttended(s) && d in s.callers
    ensures AllAttended(CallStep(s, d, step))
  {
    var s' := CallStep(s, d, step);
    assert CallerOk(s, s.callers[d]);
    forall k | k in s'.registry ensures exists c :: Attends(s', c, s'.registry[k]) {
      if k in s.registry {
        assert s'.registry[k] == s.registry[k];
        var c :| Attends(s, c, s.registry[k]);
        assert CallerOk(s, s.callers[c]);
        assert Attends(s', c, s'.registry[k]);
      } else {
        assert Attends(s', d, s'.registry[k]);
      }
    }
  }

  lemma StepKeepsAttended(s: State, a: Action)
    requires Inv(s) && AllAttended(s)
    ensures AllAttended(Step(s, a))
  {
    if a.Call? && a.c in s.callers {
      CallKeepsAttended(s, a.c, a.step);
    } else {
      var s' := Step(s, a);
      forall k | k in s'.registry ensures exists c :: Attends(s', c, s'.registry[k]) {
        var c :| Attends(s, c, s.registry[k]);
        assert Attends(s', c, s'.registry[k]);
      }
    }
  }

  predicate AllOver(s: State) {
    forall c :: c in s.callers ==> s.callers[c].pc.Over?
  }

  /**
    Whatever fails and whoever is cancelled, every registered task has a caller on its way to take
    it out, so the registry is empty once every call is over.
   */
  lemma {:induction false} NothingIsLeftBehind(run: seq<Action>)
    ensures AllAttended(Run(EMPTY, run))
    ensures AllOver(Run(EMPTY, run)) ==> Run(EMPTY, run).registry == map[]
  {
    var s := Run(EMPTY, run);
    if run != [] {
      var front := run[..|run| - 1];
      NothingIsLeftBehind(front);
      RunKeepsInv(front);
      StepKeepsAttended(Run(EMPTY, front), run[|run| - 1]);
    }
    forall k | k in s.registry ensures !AllOver(s) {
      var c :| Attends(s, c, s.registry[k]);
    }
    assert s.registry.Keys == {} ==> s.registry == map[];
  }

  // ---------------------------------------------------------------- cancelling one caller

  /** The caller awaits `t`, or has come away from it without a result. */
  predicate GetsNothingFrom(s: State, c: Cid, t: Tid) {
    c in s.callers && s.callers[c].pc in {Waiting(t), Leaving(t, None), Over(None)}
  }

  lemma CallGivesNothing(s: State, d: Cid, step: CallerStep, c: Cid, t: Tid)
    requires t < |s.tasks| && s.tasks[t].progress == Finished(None) && GetsNothingFrom(s, c, t) && d in s.callers
    ensures GetsNothingFrom(CallStep(s, d, step), c, t)
  {
  }

  lemma StepGivesNothing(s: State, a: Action, c: Cid, t: Tid)
    requires t < |s.tasks| && s.tasks[t].progress == Finished(None) && GetsNothingFrom(s, c, t)
    ensures var s' := Step(s, a);
      t < |s'.tasks| && s'.tasks[t].progress == Finished(None) && GetsNothingFrom(s', c, t)
  {
    if a.Call? && a.c in s.callers { CallGivesNothing(s, a.c, a.step, c, t); }
  }

  lemma {:induction false} RunGivesNothing(s: State, run: seq<Action>, c: Cid, t: Tid)
    requires t < |s.tasks| && s.tasks[t].progress == Finished(None) && GetsNothingFrom(s, c, t)
    ensures var s' := Run(s, run);
      t < |s'.tasks| && s'.tasks[t].progress == Finished(None) && GetsNothingFrom(s', c, t)
  {
    if run != [] {
      RunGivesNothing(s, run[..|run| - 1], c, t);
      StepGivesNothing(Run(s, run[..|run| - 1]), run[|run| - 1], c, t);
    }
  }

  /**
    The shared task is not shielded: cancelling one caller ends it for all.  Whatever happens
    afterwards, no caller that was waiting for the task gets a value, and none has to wait longer:
    its next two steps end the call and leave the task out of the registry.
   */
  lemma CancellingOneEndsAll(run: seq<Action>, c: Cid, more: seq<Action>, d: Cid, t: Tid)
    requires var s := Run(EMPTY, run);
      c in s.callers && d in s.callers && s.callers[c].pc == s.callers[d].pc == Waiting(t) && !IsDone(s, t)
    ensures var s := Run(Step(Run(EMPTY, run), Call(c, Cancel)), more);
      GetsNothingFrom(s, d, t) &&
      (s.callers[d].pc.Waiting? ==>
        var left := Step(Step(s, Call(d, Wake)), Call(d, Leave));
        left.callers[d].pc == Over(None) && forall k :: k in left.registry ==> left.registry[k] != t)
  {
    RunKeepsInv(run);
    var s0 := Run(EMPTY, run);
    assert CallerOk(s0, s0.callers[c]);
    var s1 := Step(s0, Call(c, Cancel));
    RunGivesNothing(s1, more, d, t);
    StepKeepsInv(s0, Call(c, Cancel));
    RunKeepsInvFrom(s1, more);
    var s := Run(s1, more);
    if s.callers[d].pc.Waiting? { LeavingTakesOut(s, d, t); }
  }

  lemma {:induction false} RunKeepsInvFrom(s: State, run: seq<Action>)
    requires Inv(s)
    ensures Inv(Run(s, run))
  {
    if run != [] {
      RunKeepsInvFrom(s, run[..|run| - 1]);
      StepKeepsInv(Run(s, run[..|run| - 1]), run[|run| - 1]);
    }
  }

  /** A caller whose task is done is out after two steps, and so is the task. */
  lemma LeavingTakesOut(s: State, d: Cid, t: Tid)
    requires Inv(s) && d in s.callers && s.callers[d].pc == Waiting(t) && IsDone(s, t)
    ensures var left := Step(Step(s, Call(d, Wake)), Call(d, Leave));
      d in left.callers && left.callers[d].pc == Over(s.tasks[t].progress.result) &&
      forall k :: k in left.registry ==> left.registry[k] != t
  {
    assert CallerOk(s, s.callers[d]);
    var s1 := Step(s, Call(d, Wake));
    assert s1 == Goto(s, d, Leaving(t, s.tasks[t].progress.result));
    assert Step(s1, Call(d, Leave)) == LeaveStep(s1, d);
  }
}
