/**
  `get_or_set` in place: the cache, the registry and the tasks as fields, with other callers, tasks
  and expiries at every await.  `Valid()`: the fields are what `history` produces.
 */
module RequestCoalescer {
  import opened Options
  import opened SingleFlight

  /** Steps of others: of callers other than `me`, of tasks, and of the clock. */
  predicate OthersOnly(run: seq<Action>, me: Cid) {
    forall i :: 0 <= i < |run| ==> (run[i].Arrive? || run[i].Call? ==> run[i].c != me)
  }

  function Rank(p: Progress): nat {
    match p
    case Started => 0
    case Building => 1
    case Built(_) => 2
    case Finished(_) => 3
  }

  /** Tasks only grow in number and move forward, and a finished one stays as it is. */
  predicate Later(s: State, s': State) {
    |s.tasks| <= |s'.tasks| &&
    forall t :: 0 <= t < |s.tasks| ==>
      s'.tasks[t].key == s.tasks[t].key && Rank(s.tasks[t].progress) <= Rank(s'.tasks[t].progress) &&
      (IsDone(s, t) ==> s'.tasks[t] == s.tasks[t])
  }

  lemma OtherStepKeepsMyFrame(s: State, a: Action, me: Cid)
    requires (a.Arrive? || a.Call? ==> a.c != me) && me in s.callers
    ensures me in Step(s, a).callers && Step(s, a).callers[me] == s.callers[me] && Later(s, Step(s, a))
  {
    if a.Call? && a.c in s.callers && a.step.Join? { assert s.tasks <= Step(s, a).tasks; }
  }

  lemma {:induction false} OthersKeepMyFrame(s: State, run: seq<Action>, me: Cid)
    requires OthersOnly(run, me) && me in s.callers
    ensures me in Run(s, run).callers && Run(s, run).callers[me] == s.callers[me] && Later(s, Run(s, run))
  {
    if run != [] {
      OthersKeepMyFrame(s, run[..|run| - 1], me);
      OtherStepKeepsMyFrame(Run(s, run[..|run| - 1]), run[|run| - 1], me);
    }
  }

  lemma {:induction false} RunConcat(s: State, first: seq<Action>, rest: seq<Action>)
    ensures Run(s, first + rest) == Run(Run(s, first), rest)
  {
    if rest == [] {
      assert first + rest == first;
    } else {
      RunConcat(s, first, rest[..|rest| - 1]);
      assert (first + rest)[..|first + rest| - 1] == first + rest[..|rest| - 1];
    }
  }

  lemma OneStep(s: State, a: Action)
    ensures Run(s, [a]) == Step(s, a)
  {
    assert [a][..0] == [];
  }

  class CoalescingCache {
    var cache: map<Key, Json>
    var registry: map<Key, Tid>
    var tasks: seq<Task>
    var callers: map<Cid, Caller>
    var made: seq<Made>                // the factory's successes so far
    const mayFail: bool                // whether calls into the cache can raise and callers can be cancelled
    ghost var history: seq<Action>

    ghost function View(): State
      reads this
    {
      State(cache, registry, tasks, callers, made)
    }

    ghost predicate Valid()
      reads this
    {
      View() == Run(EMPTY, history) && Inv(View())
    }

    ghost predicate At(me: Cid, key: Key, pc: Pc)
      reads this
    {
      Valid() && me in callers && callers[me] == Caller(key, pc)
    }

    constructor (mayFail: bool)
      ensures Valid() && history == [] && this.mayFail == mayFail
    {
      cache, registry, tasks, callers, made := map[], map[], [], map[], [];
      this.mayFail, history := mayFail, [];
    }

    method Become(run: seq<Action>)
      requires Valid()
      modifies this
      ensures Valid() && history == old(history) + run && View() == Run(old(View()), run)
    {
      RunConcat(EMPTY, history, run);
      var s := Run(State(cache, registry, tasks, callers, made), run);
      cache, registry, tasks, callers, made := s.cache, s.registry, s.tasks, s.callers, s.made;
      history := history + run;
      RunKeepsInv(history);
    }

    /** Others run while `me` is suspended; an exception or a cancellation may come in (`!ok`). */
    method Await(me: Cid) returns (ok: bool)
      requires Valid() && me in callers
      modifies this
      ensures Valid() && old(history) <= history && OthersOnly(history[|old(history)|..], me)
      ensures me in callers && callers[me] == old(callers[me]) && Later(old(View()), View()) &&
        CallerOk(View(), callers[me])
      ensures !ok ==> mayFail
    {
      var run: seq<Action> := *;
      if !OthersOnly(run, me) { run := []; }
      OthersKeepMyFrame(View(), run, me);
      Become(run);
      assert CallerOk(View(), callers[me]);
      ok := *;
      ok := ok || !mayFail;
    }

    /** The changes just made are the step `a`. */
    ghost method Record(a: Action)
      requires Inv(Run(EMPTY, history)) && Step(Run(EMPTY, history), a) == View()
      modifies `history
      ensures Valid() && history == old(history) + [a]
    {
      StepKeepsInv(Run(EMPTY, history), a);
      history := history + [a];
    }

    method Fail(me: Cid, key: Key)
      requires At(me, key, Looking)
      modifies this
      ensures At(me, key, Over(None)) && old(history) <= history
    {
      callers := callers[me := Caller(key, Over(None))];
      Record(Call(me, Drop));
    }

    // -------------------------------------------------------------- the task

    /** Look up once more, call the factory, store its value: until task `t` is done, by whoever runs it. */
    method Build(me: Cid, key: Key, t: Tid)
      requires At(me, key, Waiting(t))
      modifies this
      ensures At(me, key, Waiting(t)) && old(history) <= history && IsDone(View(), t)
    {
      LookUpAgain(me, key, t);
      CallFactory(me, key, t);
      StoreValue(me, key, t);
    }

    /** Task `t` moves on to `progress`: together with the changes just made, that is the step `a`. */
    method MoveTo(me: Cid, key: Key, t: Tid, progress: Progress, ghost a: Action)
      requires me in callers && callers[me] == Caller(key, Waiting(t)) && t < |tasks| && tasks[t].key == key
      requires Inv(Run(EMPTY, history)) && Step(Run(EMPTY, history), a) == Proceed(View(), t, progress)
      modifies `tasks, `history
      ensures At(me, key, Waiting(t)) && history == old(history) + [a]
      ensures t < |tasks| && tasks[t] == Task(key, progress)
    {
      tasks := tasks[t := Task(key, progress)];
      Record(a);
    }

    method LookUpAgain(me: Cid, key: Key, t: Tid)
      requires At(me, key, Waiting(t))
      modifies this
      ensures At(me, key, Waiting(t)) && old(history) <= history && !tasks[t].progress.Started?
    {
      var ok := Await(me);
      if !tasks[t].progress.Started? { return; }
      if !ok {
        MoveTo(me, key, t, Finished(None), Work(t, Break));
      } else if Hit(cache, key) {
        MoveTo(me, key, t, Finished(Some(cache[key])), Work(t, Reread));
      } else {
        MoveTo(me, key, t, Building, Work(t, Reread));
      }
    }

    method CallFactory(me: Cid, key: Key, t: Tid)
      requires At(me, key, Waiting(t)) && CallerOk(View(), callers[me]) && !tasks[t].progress.Started?
      modifies this
      ensures At(me, key, Waiting(t)) && old(history) <= history &&
        (tasks[t].progress.Built? || tasks[t].progress.Finished?)
    {
      var ok := Await(me);
      if !tasks[t].progress.Building? { return; }
      if !ok {
        MoveTo(me, key, t, Finished(None), Work(t, Break));
      } else {
        var value: Json := *;
        made := made + [Made(key, value)];
        MoveTo(me, key, t, Built(value), Work(t, Produce(value)));
      }
    }

    method StoreValue(me: Cid, key: Key, t: Tid)
      requires At(me, key, Waiting(t)) && CallerOk(View(), callers[me]) &&
        (tasks[t].progress.Built? || tasks[t].progress.Finished?)
      modifies this
      ensures At(me, key, Waiting(t)) && old(history) <= history && IsDone(View(), t)
    {
      var ok := Await(me);
      if !tasks[t].progress.Built? { return; }
      var value := tasks[t].progress.value;
      if !ok {
        MoveTo(me, key, t, Finished(None), Work(t, Break));
      } else {
        cache := cache[key := value];
        MoveTo(me, key, t, Finished(Some(value)), Work(t, Store));
      }
    }

    // -------------------------------------------------------------- the caller

    method Lookup(me: Cid, key: Key)
      requires At(me, key, Looking)
      modifies this
      ensures old(history) <= history && me in callers && At(me, key, callers[me].pc)
      ensures match callers[me].pc
        case Missed => !Hit(cache, key)
        case Over(Some(v)) => Hit(cache, key) && cache[key] == v
        case Over(None) => mayFail
        case _ => false
    {
      var ok := Await(me);
      if !ok {
        Fail(me, key);
      } else if Hit(cache, key) {
        callers := callers[me := Caller(key, Over(Some(cache[key])))];
        Record(Call(me, SingleFlight.Lookup));
      } else {
        callers := callers[me := Caller(key, Missed)];
        Record(Call(me, SingleFlight.Lookup));
      }
    }

    /** Under the registry's lock: the key's task, or a new one. */
    method JoinTask(me: Cid, key: Key) returns (t: Tid)
      requires At(me, key, Missed)
      modifies this
      ensures At(me, key, Waiting(t)) && history == old(history) + [Call(me, Join)]
      ensures key in registry && registry[key] == t && tasks[t].key == key
      ensures if key in old(registry) then t == old(registry)[key] && tasks == old(tasks)
              else t == |old(tasks)| && tasks == old(tasks) + [Task(key, Started)]
    {
      if key in registry {
        t := registry[key];
      } else {
        t := |tasks|;
        tasks := tasks + [Task(key, Started)];
        registry := registry[key := t];
      }
      callers := callers[me := Caller(key, Waiting(t))];
      Record(Call(me, Join));
    }

    /** A cancellation comes in while `me` awaits the task: an unfinished task ends, and `me` wakes up from that. */
    method BeCancelled(me: Cid, key: Key, t: Tid)
      requires At(me, key, Waiting(t)) && CallerOk(View(), callers[me])
      modifies this
      ensures At(me, key, Leaving(t, None)) && old(history) <= history && IsDone(View(), t)
      ensures !old(IsDone(View(), t)) ==> tasks[t].progress == Finished(None)
    {
      if tasks[t].progress.Finished? {
        callers := callers[me := Caller(key, Leaving(t, None))];
        Record(Call(me, Cancel));
      } else {
        MoveTo(me, key, t, Finished(None), Call(me, Cancel));
        callers := callers[me := Caller(key, Leaving(t, None))];
        Record(Call(me, Wake));
      }
    }

    /** Await the task: its result, or a cancellation. */
    method AwaitTask(me: Cid, key: Key, t: Tid)
      requires At(me, key, Waiting(t))
      modifies this
      ensures old(history) <= history && me in callers && callers[me].pc.Leaving?
      ensures At(me, key, Leaving(t, callers[me].pc.result)) && IsDone(View(), t)
      ensures callers[me].pc.result in {None, tasks[t].progress.result} && tasks[t].key == key
      ensures callers[me].pc.result.None? ==> mayFail || tasks[t].progress.result.None?
    {
      var ok := Await(me);
      if !ok {
        BeCancelled(me, key, t);
      } else {
        if !tasks[t].progress.Finished? { Build(me, key, t); }
        WakeUp(me, key, t);
      }
      assert CallerOk(View(), callers[me]);
    }

    method WakeUp(me: Cid, key: Key, t: Tid)
      requires At(me, key, Waiting(t)) && IsDone(View(), t)
      modifies `callers, `history
      ensures At(me, key, Leaving(t, tasks[t].progress.result)) && history == old(history) + [Call(me, Wake)]
    {
      callers := callers[me := Caller(key, Leaving(t, tasks[t].progress.result))];
      Record(Call(me, Wake));
    }

    /** The `finally` part, which nothing can interrupt: a task that is done and still registered is taken out. */
    method CleanUp(me: Cid, key: Key, t: Tid, r: Option<Json>)
      requires At(me, key, Leaving(t, r))
      modifies `registry, `callers, `history
      ensures At(me, key, Over(r)) && history == old(history) + [Call(me, Leave)]
      ensures if key in old(registry) && old(registry)[key] == t then registry == old(registry) - {key}
              else registry == old(registry)
    {
      assert CallerOk(View(), callers[me]);
      if tasks[t].progress.Finished? && key in registry && registry[key] == t {
        registry := registry - {key};
      }
      callers := callers[me := Caller(key, Over(r))];
      Record(Call(me, Leave));
    }

    /** The value came out of the cache, or out of a task of this key. */
    ghost predicate Served(key: Key, value: Json)
      reads this
    {
      (Hit(cache, key) && cache[key] == value) ||
      exists t :: 0 <= t < |tasks| && tasks[t] == Task(key, Finished(Some(value)))
    }

    /** `r` is what a finished task of the key has given, or none; the task is out of the registry. */
    ghost predicate TakenFrom(t: Tid, key: Key, r: Option<Json>)
      reads this
    {
      t < |tasks| && tasks[t].key == key && tasks[t].progress.Finished? && r in {None, tasks[t].progress.result} &&
      (key in registry ==> registry[key] != t)
    }

    /** Share one task among the callers of a key. */
    method Coalesce(me: Cid, key: Key) returns (r: Option<Json>)
      requires At(me, key, Missed)
      modifies this
      ensures old(history) <= history && At(me, key, Over(r)) && exists t :: TakenFrom(t, key, r)
      ensures r.Some? ==> Served(key, r.value)
      ensures r.None? ==> mayFail || exists t :: 0 <= t < |tasks| && tasks[t] == Task(key, Finished(None))
    {
      var t := JoinTask(me, key);
      AwaitTask(me, key, t);
      CleanUp(me, key, t, callers[me].pc.result);
      assert TakenFrom(t, key, callers[me].pc.result);
      return callers[me].pc.result;
    }

    /** The cached value, or the value of the one task that all callers of the key share. */
    method GetOrSet(me: Cid, key: Key) returns (r: Option<Json>)
      requires Valid() && me !in callers
      modifies this
      ensures old(history) <= history && At(me, key, Over(r))
      ensures r.Some? ==> Served(key, r.value)
      ensures r.None? ==> mayFail || exists t :: 0 <= t < |tasks| && tasks[t] == Task(key, Finished(None))
    {
      callers := callers[me := Caller(key, Looking)];
      Record(Arrive(me, key));
      Lookup(me, key);
      if callers[me].pc.Over? { return callers[me].pc.result; }
      r := Coalesce(me, key);
    }
  }
}
