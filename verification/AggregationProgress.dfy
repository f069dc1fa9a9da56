/**
  When a stream can still complete, and that some streams cannot.
 */
module AggregationProgress {
  import opened Aggregation

  predicate NoneBroken(s: State) {
    forall i :: 0 <= i < |s.tasks| ==> !s.tasks[i].Broken?
  }

  predicate AllEnded(s: State) {
    forall i :: 0 <= i < |s.tasks| ==> s.tasks[i].Ended?
  }

  /** The consumer has passed its check and waits at an empty queue that nobody will put into. */
  predicate Stuck(s: State) {
    s.consumer.Getting? && s.queue == [] && forall i :: 0 <= i < |s.tasks| ==> WasPut(s.tasks[i])
  }

  predicate CanComplete(s: State) {
    NoneBroken(s) && !s.consumer.Stopped? && !Stuck(s)
  }

  // ---------------------------------------------------------------- what is lost stays lost

  lemma StuckStays(s: State, a: Action)
    requires Stuck(s) && !a.Stop?
    ensures Stuck(Step(s, a)) && Step(s, a).emitted == s.emitted
  {
  }

  /** A stuck consumer emits nothing more, unless it is stopped. */
  lemma {:induction false} StuckStaysStuck(s: State, run: seq<Action>)
    requires Stuck(s) && Stop !in run
    ensures Stuck(Run(s, run)) && Run(s, run).emitted == s.emitted
  {
    if run != [] {
      StuckStaysStuck(s, run[..|run| - 1]);
      StuckStays(Run(s, run[..|run| - 1]), run[|run| - 1]);
    }
  }

  lemma BrokenStays(s: State, a: Action)
    requires !NoneBroken(s)
    ensures !NoneBroken(Step(s, a))
  {
    var i :| 0 <= i < |s.tasks| && s.tasks[i].Broken?;
    assert Step(s, a).tasks[i].Broken?;
  }

  lemma LostStaysLost(s: State, a: Action)
    requires !CanComplete(s)
    ensures !CanComplete(Step(s, a))
  {
    if !NoneBroken(s) {
      BrokenStays(s, a);
    } else if Stuck(s) && !a.Stop? {
      StuckStays(s, a);
    }
  }

  lemma {:induction false} LostNeverCompletes(s: State, run: seq<Action>)
    requires !CanComplete(s)
    ensures !CanComplete(Run(s, run))
  {
    if run != [] {
      LostNeverCompletes(s, run[..|run| - 1]);
      LostStaysLost(Run(s, run[..|run| - 1]), run[|run| - 1]);
    }
  }

  lemma CompletedCouldComplete(s: State)
    requires Inv(s) && CompletedEvent in s.emitted
    ensures CanComplete(s)
  {
    OnlyTheEndCompletes(s);
  }

  // ---------------------------------------------------------------- what is not lost can be completed

  function TaskRank(pc: TaskPc): nat {
    match pc
    case Fetching => 3
    case Holding(_) => 2
    case Sent => 1
    case _ => 0
  }

  /** The consumer has not moved, and task `i` has come further. */
  predicate TaskMoved(s: State, t: State, i: nat) {
    i < |s.tasks| && t.consumer == s.consumer && t.flag == s.flag && s.queue <= t.queue && |t.tasks| == |s.tasks| &&
    (forall j :: 0 <= j < |s.tasks| && j != i ==> t.tasks[j] == s.tasks[j]) && !t.tasks[i].Broken? &&
    (!WasPut(s.tasks[i]) && WasPut(t.tasks[i]) ==> |s.queue| < |t.queue|)
  }

  lemma NextOfTask(s: State, i: nat) returns (a: Action)
    requires Inv(s) && i < |s.tasks| && !IsOver(s.tasks[i])
    ensures Inv(Step(s, a)) && TaskMoved(s, Step(s, a), i)
    ensures TaskRank(Step(s, a).tasks[i]) < TaskRank(s.tasks[i])
    ensures WasPut(s.tasks[i]) ==> WasPut(Step(s, a).tasks[i])
  {
    match s.tasks[i] {
      case Fetching => a := Fetch(i, Data(0));
      case Holding(_) => a := Put(i); QueueHasRoom(s, i);
      case Sent => a := Broadcast(i);
    }
    StepKeepsInv(s, a);
  }

  lemma OneStep(s: State, a: Action, rest: seq<Action>)
    ensures Run(s, [a] + rest) == Run(Step(s, a), rest)
  {
    RunConcat(s, [a], rest);
    assert [a][..0] == [];
  }

  lemma {:induction false} FinishOne(s: State, i: nat) returns (more: seq<Action>)
    requires Inv(s) && i < |s.tasks| && !s.tasks[i].Broken?
    ensures Inv(Run(s, more)) && TaskMoved(s, Run(s, more), i) && Run(s, more).tasks[i].Ended?
    decreases TaskRank(s.tasks[i])
  {
    if IsOver(s.tasks[i]) {
      more := [];
    } else {
      var a := NextOfTask(s, i);
      var rest := FinishOne(Step(s, a), i);
      OneStep(s, a, rest);
      more := [a] + rest;
    }
  }

  /** The first `k` tasks have ended, and if one of them had not put before, the queue has something. */
  predicate FirstEnded(s: State, t: State, k: nat) {
    t.consumer == s.consumer && t.flag == s.flag && s.queue <= t.queue && k <= |t.tasks| == |s.tasks| &&
    (forall i :: 0 <= i < k ==> t.tasks[i].Ended?) &&
    (forall i :: k <= i < |s.tasks| ==> t.tasks[i] == s.tasks[i]) &&
    ((exists i :: 0 <= i < k && !WasPut(s.tasks[i])) ==> t.queue != [])
  }

  lemma {:induction false} FinishFirst(s: State, k: nat) returns (more: seq<Action>)
    requires Inv(s) && NoneBroken(s) && k <= |s.tasks|
    ensures Inv(Run(s, more)) && FirstEnded(s, Run(s, more), k)
  {
    if k == 0 {
      more := [];
    } else {
      var first := FinishFirst(s, k - 1);
      var last := FinishOne(Run(s, first), k - 1);
      RunConcat(s, first, last);
      more := first + last;
    }
  }

  function ConsumerRank(pc: ConsumerPc): nat {
    match pc
    case Saving(_) => 5
    case Yielding(_) => 4
    case Checking => 3
    case Getting => 2
    case Joining => 2
    case Closing => 1
    case _ => 0
  }

  /** All tasks have ended, and the consumer is not waiting in vain. */
  predicate Draining(s: State) {
    AllEnded(s) && !s.consumer.Stopped? && !(s.consumer.Getting? && s.queue == [])
  }

  lemma ConsumeDrains(s: State)
    requires Inv(s) && Draining(s) && s.flag && !s.consumer.Finished?
    ensures var t := ConsumeStep(s);
      Inv(t) && Draining(t) && t.flag &&
      4 * |t.queue| + ConsumerRank(t.consumer) < 4 * |s.queue| + ConsumerRank(s.consumer)
  {
    ConsumeKeepsInv(s);
  }

  /** With the flag set, the consumer empties the queue and completes. */
  lemma {:induction false} Drain(s: State) returns (more: seq<Action>)
    requires Inv(s) && Draining(s) && s.flag
    ensures CompletedEvent in Run(s, more).emitted
    decreases 4 * |s.queue| + ConsumerRank(s.consumer)
  {
    if s.consumer.Finished? {
      more := [];
      assert s.emitted[|s.emitted| - 1] == CompletedEvent;
    } else {
      ConsumeDrains(s);
      var rest := Drain(ConsumeStep(s));
      OneStep(s, Consume, rest);
      more := [Consume] + rest;
    }
  }

  lemma Complete(s: State) returns (more: seq<Action>)
    requires Inv(s) && CanComplete(s)
    ensures CompletedEvent in Run(s, more).emitted
  {
    var first := FinishFirst(s, |s.tasks|);
    var t := Run(s, first);
    StepKeepsInv(t, SetFlag);
    var rest := Drain(Step(t, SetFlag));
    OneStep(t, SetFlag, rest);
    RunConcat(s, first, [SetFlag] + rest);
    more := first + ([SetFlag] + rest);
  }

  /**
    From a reachable state the stream can still be completed exactly when no task has failed, the
    consumer has not been stopped, and it is not waiting at an empty queue that nobody will put into.
   */
  lemma CompletionIsPossible(n: nat, run: seq<Action>)
    ensures CanComplete(Run(Init(n), run)) <==>
      exists more :: CompletedEvent in Run(Run(Init(n), run), more).emitted
  {
    RunKeepsInv(n, run);
    var s := Run(Init(n), run);
    if CanComplete(s) {
      var more := Complete(s);
    }
    forall more | CompletedEvent in Run(s, more).emitted ensures CanComplete(s) {
      RunKeepsInvFrom(s, more);
      CompletedCouldComplete(Run(s, more));
      if !CanComplete(s) { LostNeverCompletes(s, more); }
    }
  }

  /** Once the flag is set, all that matters is that every task has ended and where the consumer stands. */
  lemma CompletionAfterTheFlag(n: nat, run: seq<Action>)
    requires Run(Init(n), run).flag
    ensures var s := Run(Init(n), run);
      (AllEnded(s) && !s.consumer.Stopped? && !(s.consumer.Getting? && s.queue == [])) <==>
      exists more :: CompletedEvent in Run(s, more).emitted
  {
    RunKeepsInv(n, run);
    CompletionIsPossible(n, run);
  }

  // ---------------------------------------------------------------- a stream that never completes

  lemma ConsumeEmpties(s: State)
    requires Inv(s) && AllEnded(s) && !s.flag && (s.consumer.Getting? ==> s.queue != [])
    requires s.consumer.Checking? || s.consumer.Getting? || s.consumer.Saving? || s.consumer.Yielding?
    ensures var t := ConsumeStep(s);
      Inv(t) && AllEnded(t) && !t.flag &&
      (t.consumer.Checking? || t.consumer.Getting? || t.consumer.Saving? || t.consumer.Yielding?) &&
      4 * |t.queue| + ConsumerRank(t.consumer) < 4 * |s.queue| + ConsumerRank(s.consumer)
  {
    ConsumeKeepsInv(s);
  }

  /** Before the flag is set, the consumer empties the queue and goes to wait for more. */
  lemma {:induction false} EmptyTheQueue(s: State) returns (more: seq<Action>)
    requires Inv(s) && AllEnded(s) && !s.flag
    requires s.consumer.Checking? || s.consumer.Getting? || s.consumer.Saving? || s.consumer.Yielding?
    ensures var t := Run(s, more); AllEnded(t) && t.consumer.Getting? && t.queue == []
    decreases 4 * |s.queue| + ConsumerRank(s.consumer)
  {
    if s.consumer.Getting? && s.queue == [] {
      more := [];
    } else {
      ConsumeEmpties(s);
      var rest := EmptyTheQueue(ConsumeStep(s));
      OneStep(s, Consume, rest);
      more := [Consume] + rest;
    }
  }

  /**
    For every number of sources there is a run without any failure that never completes: all tasks
    end and the flag is set, but the consumer had looked at it before.
   */
  lemma SomeStreamsNeverComplete(n: nat) returns (run: seq<Action>)
    ensures var s := Run(Init(n), run); AllEnded(s) && s.flag && s.consumer.Getting? && s.queue == []
    ensures forall more :: CompletedEvent !in Run(Run(Init(n), run), more).emitted
  {
    InitKeepsInv(n);
    var first := FinishFirst(Init(n), n);
    var rest := EmptyTheQueue(Run(Init(n), first));
    RunConcat(Init(n), first, rest);
    var before := first + rest;
    RunConcat(Init(n), before, [SetFlag]);
    OneStep(Run(Init(n), before), SetFlag, []);
    assert [SetFlag] + [] == [SetFlag];
    run := before + [SetFlag];
    CompletionIsPossible(n, run);
  }
}
