/**
  Streamed fan-out: one task per source puts its result into a bounded queue, a completion flag is
  set when all tasks are over, and a consumer saves and emits what it takes out.
 */
module Aggregation {
  import opened Sets

  datatype Outcome = Data(payload: nat) | Problem(message: nat)

  /** The result of task `task`. */
  datatype Event = Event(task: nat, outcome: Outcome)

  datatype TaskPc =
    | Fetching
    | Holding(outcome: Outcome)   // about to put
    | Sent                        // about to broadcast
    | Ended
    | Broken(sent: bool)          // an exception or a cancellation

  datatype ConsumerPc =
    | Checking
    | Getting
    | Saving(event: Event)
    | Yielding(event: Event)
    | Joining
    | Closing
    | Finished
    | Stopped(dropped: seq<Event>)   // an exception or a cancellation; `dropped` was in hand

  datatype Out = StartedEvent | SourceResult(event: Event) | CompletedEvent

  /** `puts` is every event that has been put, in order. */
  datatype State = State(tasks: seq<TaskPc>, queue: seq<Event>, flag: bool, puts: seq<Event>,
                         consumer: ConsumerPc, saved: seq<Event>, emitted: seq<Out>)

  datatype Action =
    | Fetch(i: nat, outcome: Outcome)
    | Put(i: nat)
    | Broadcast(i: nat)
    | Break(i: nat)
    | SetFlag              // all tasks are over
    | Consume              // the consumer's next statement
    | Stop

  // ---------------------------------------------------------------- steps

  function Capacity(s: State): nat {
    |s.tasks| + 1
  }

  predicate IsOver(pc: TaskPc) {
    pc.Ended? || pc.Broken?
  }

  function Goto(s: State, i: nat, pc: TaskPc): State
    requires i < |s.tasks|
  {
    s.(tasks := s.tasks[i := pc])
  }

  function TaskStep(s: State, a: Action): State
    requires (a.Fetch? || a.Put? || a.Broadcast? || a.Break?) && a.i < |s.tasks|
  {
    var pc := s.tasks[a.i];
    match a
    case Fetch(i, outcome) => if pc.Fetching? then Goto(s, i, Holding(outcome)) else s
    case Put(i) =>
      if pc.Holding? && |s.queue| < Capacity(s)
      then Goto(s.(queue := s.queue + [Event(i, pc.outcome)], puts := s.puts + [Event(i, pc.outcome)]), i, Sent)
      else s
    case Broadcast(i) => if pc.Sent? then Goto(s, i, Ended) else s
    case Break(i) => if IsOver(pc) then s else Goto(s, i, Broken(pc.Sent?))
    case _ => s
  }

  function ConsumeStep(s: State): State {
    match s.consumer
    case Checking => s.(consumer := if s.flag && s.queue == [] then Joining else Getting)
    case Getting => if s.queue == [] then s else s.(consumer := Saving(s.queue[0]), queue := s.queue[1..])
    case Saving(e) => s.(consumer := Yielding(e), saved := s.saved + [e])
    case Yielding(e) => s.(consumer := Checking, emitted := s.emitted + [SourceResult(e)])
    case Joining =>
      if !s.flag then s
      else if forall i :: 0 <= i < |s.tasks| ==> s.tasks[i].Ended? then s.(consumer := Closing)
      else s.(consumer := Stopped([]))
    case Closing => s.(consumer := Finished, emitted := s.emitted + [CompletedEvent])
    case _ => s
  }

  function InHand(pc: ConsumerPc): seq<Event> {
    match pc
    case Saving(e) => [e]
    case Stopped(dropped) => dropped
    case _ => []
  }

  function Step(s: State, a: Action): State {
    match a
    case SetFlag =>
      if forall i :: 0 <= i < |s.tasks| ==> IsOver(s.tasks[i]) then s.(flag := true) else s
    case Consume => ConsumeStep(s)
    case Stop => if s.consumer.Finished? then s else s.(consumer := Stopped(InHand(s.consumer)))
    case _ => if a.i < |s.tasks| then TaskStep(s, a) else s
  }

  function Run(s: State, run: seq<Action>): State {
    if run == [] then s
    else Step(Run(s, run[..|run| - 1]), run[|run| - 1])
  }

  function Init(n: nat): State {
    State(seq(n, i => Fetching), [], false, [], Checking, [], [StartedEvent])
  }

  // ---------------------------------------------------------------- the invariant

  predicate WasPut(pc: TaskPc) {
    pc.Sent? || pc.Ended? || (pc.Broken? && pc.sent)
  }

  predicate Has(events: seq<Event>, i: nat) {
    exists k :: 0 <= k < |events| && events[k].task == i
  }

  predicate OneEach(events: seq<Event>) {
    forall j, k :: 0 <= j < k < |events| ==> events[j].task != events[k].task
  }

  /** The events are exactly those of the tasks that have put, one of each. */
  predicate PutsOk(tasks: seq<TaskPc>, puts: seq<Event>) {
    OneEach(puts) && (forall k :: 0 <= k < |puts| ==> puts[k].task < |tasks|) &&
    forall i :: 0 <= i < |tasks| ==> (WasPut(tasks[i]) <==> Has(puts, i))
  }

  function Results(events: seq<Event>): seq<Out> {
    seq(|events|, k requires 0 <= k < |events| => SourceResult(events[k]))
  }

  /** What the consumer has emitted, for what it has saved. */
  predicate EmittedOk(s: State) {
    match s.consumer
    case Stopped(_) => CompletedEvent !in s.emitted
    case Yielding(e) => s.saved != [] && s.saved[|s.saved| - 1] == e &&
      s.emitted == [StartedEvent] + Results(s.saved[..|s.saved| - 1])
    case Finished => s.emitted == [StartedEvent] + Results(s.saved) + [CompletedEvent]
    case _ => s.emitted == [StartedEvent] + Results(s.saved)
  }

  predicate EndOk(s: State) {
    (s.flag ==> forall i :: 0 <= i < |s.tasks| ==> IsOver(s.tasks[i])) &&
    (s.consumer.Joining? || s.consumer.Closing? || s.consumer.Finished? ==> s.flag && s.queue == []) &&
    (s.consumer.Closing? || s.consumer.Finished? ==> forall i :: 0 <= i < |s.tasks| ==> s.tasks[i].Ended?)
  }

  /** Events go through the queue in order: those saved, the one in hand, those still waiting. */
  predicate Inv(s: State) {
    s.puts == s.saved + InHand(s.consumer) + s.queue && PutsOk(s.tasks, s.puts) && EmittedOk(s) && EndOk(s)
  }

  lemma HasMore(events: seq<Event>, e: Event, i: nat)
    ensures Has(events + [e], i) <==> Has(events, i) || e.task == i
  {
    if Has(events, i) {
      var k :| 0 <= k < |events| && events[k].task == i;
      assert (events + [e])[k].task == i;
    }
    assert (events + [e])[|events|] == e;
  }

  lemma PutKeepsPuts(tasks: seq<TaskPc>, puts: seq<Event>, e: Event)
    requires PutsOk(tasks, puts) && e.task < |tasks| && !WasPut(tasks[e.task])
    ensures PutsOk(tasks[e.task := Sent], puts + [e])
  {
    forall i | 0 <= i < |tasks| ensures WasPut(tasks[e.task := Sent][i]) <==> Has(puts + [e], i) {
      HasMore(puts, e, i);
    }
    forall k | 0 <= k < |puts| ensures puts[k].task != e.task { assert Has(puts, puts[k].task); }
  }

  lemma PutKeepsInv(s: State, i: nat)
    requires Inv(s) && i < |s.tasks| && s.tasks[i].Holding?
    ensures Inv(TaskStep(s, Put(i)))
  {
    PutKeepsPuts(s.tasks, s.puts, Event(i, s.tasks[i].outcome));
    assert s.flag ==> IsOver(s.tasks[i]);
  }

  /** Moving on without putting. */
  lemma MoveKeepsPuts(tasks: seq<TaskPc>, puts: seq<Event>, i: nat, pc: TaskPc)
    requires PutsOk(tasks, puts) && i < |tasks| && (WasPut(pc) <==> WasPut(tasks[i]))
    ensures PutsOk(tasks[i := pc], puts)
  {
  }

  lemma TaskKeepsInv(s: State, a: Action)
    requires Inv(s) && (a.Fetch? || a.Put? || a.Broadcast? || a.Break?) && a.i < |s.tasks|
    ensures Inv(TaskStep(s, a))
  {
    if a.Put? {
      if s.tasks[a.i].Holding? { PutKeepsInv(s, a.i); }
    } else {
      MoveKeepsPuts(s.tasks, s.puts, a.i, TaskStep(s, a).tasks[a.i]);
      assert s.flag ==> IsOver(s.tasks[a.i]);
    }
  }

  lemma GetKeepsInv(s: State)
    requires Inv(s) && s.consumer.Getting? && s.queue != []
    ensures Inv(ConsumeStep(s))
  {
    assert s.queue == [s.queue[0]] + s.queue[1..];
  }

  lemma SaveKeepsInv(s: State)
    requires Inv(s) && s.consumer.Saving?
    ensures Inv(ConsumeStep(s))
  {
    var s' := ConsumeStep(s);
    assert s'.saved[..|s'.saved| - 1] == s.saved;
    assert s'.puts == s'.saved + [] + s'.queue;
  }

  lemma ResultsOneMore(events: seq<Event>)
    requires events != []
    ensures Results(events) == Results(events[..|events| - 1]) + [SourceResult(events[|events| - 1])]
  {
  }

  lemma YieldKeepsInv(s: State)
    requires Inv(s) && s.consumer.Yielding?
    ensures Inv(ConsumeStep(s))
  {
    ResultsOneMore(s.saved);
    assert ConsumeStep(s).emitted == [StartedEvent] + Results(s.saved);
  }

  lemma JoinKeepsInv(s: State)
    requires Inv(s) && s.consumer.Joining?
    ensures Inv(ConsumeStep(s))
  {
    NoCompletionYet(s.saved);
  }

  lemma CloseKeepsInv(s: State)
    requires Inv(s) && s.consumer.Closing?
    ensures Inv(ConsumeStep(s))
  {
  }

  lemma ConsumeKeepsInv(s: State)
    requires Inv(s)
    ensures Inv(ConsumeStep(s))
  {
    match s.consumer
    case Getting => if s.queue != [] { GetKeepsInv(s); }
    case Saving(_) => SaveKeepsInv(s);
    case Yielding(_) => YieldKeepsInv(s);
    case Joining => JoinKeepsInv(s);
    case Closing => CloseKeepsInv(s);
    case _ =>
  }

  lemma NoCompletionYet(events: seq<Event>)
    ensures CompletedEvent !in [StartedEvent] + Results(events)
  {
    forall k | 0 <= k < |events| ensures Results(events)[k] != CompletedEvent {}
  }

  lemma StopKeepsInv(s: State)
    requires Inv(s) && !s.consumer.Finished?
    ensures Inv(Step(s, Stop))
  {
    NoCompletionYet(s.saved);
    if s.saved != [] { NoCompletionYet(s.saved[..|s.saved| - 1]); }
  }

  lemma StepKeepsInv(s: State, a: Action)
    requires Inv(s)
    ensures Inv(Step(s, a)) && |Step(s, a).tasks| == |s.tasks|
  {
    match a
    case SetFlag =>
    case Consume => ConsumeKeepsInv(s);
    case Stop => if !s.consumer.Finished? { StopKeepsInv(s); }
    case _ =>
      if a.i < |s.tasks| { TaskKeepsInv(s, a); }
  }

  lemma NothingPut(tasks: seq<TaskPc>)
    requires forall i :: 0 <= i < |tasks| ==> tasks[i].Fetching?
    ensures PutsOk(tasks, [])
  {
    forall i | 0 <= i < |tasks| ensures !Has([], i) {}
  }

  lemma InitKeepsInv(n: nat)
    ensures Inv(Init(n)) && |Init(n).tasks| == n
  {
    assert Results([]) == [] && Init(n).puts == Init(n).saved + [] + Init(n).queue;
    assert Init(n).emitted == [StartedEvent] + Results(Init(n).saved);
    NothingPut(Init(n).tasks);
  }

  lemma {:induction false} RunConcat(s: State, first: seq<Action>, rest: seq<Action>)
    ensures Run(s, first + rest) == Run(Run(s, first), rest)
  {
    if rest == [] {
      assert first + rest == first;
    } else {
      RunConcat(s, first, rest[..|rest| - 1]);
      assert (first + rest)[..|first + rest| - 1] == first + rest[..|rest| - 1];
    }
  }

  lemma {:induction false} RunKeepsInvFrom(s: State, run: seq<Action>)
    requires Inv(s)
    ensures Inv(Run(s, run)) && |Run(s, run).tasks| == |s.tasks|
  {
    if run != [] {
      RunKeepsInvFrom(s, run[..|run| - 1]);
      StepKeepsInv(Run(s, run[..|run| - 1]), run[|run| - 1]);
    }
  }

  lemma RunKeepsInv(n: nat, run: seq<Action>)
    ensures Inv(Run(Init(n), run)) && |Run(Init(n), run).tasks| == n
  {
    InitKeepsInv(n);
    RunKeepsInvFrom(Init(n), run);
  }

  // ---------------------------------------------------------------- no put ever blocks

  function TaskOf(events: seq<Event>): set<nat> {
    set k | 0 <= k < |events| :: events[k].task
  }

  lemma {:induction false} DistinctTasksCount(events: seq<Event>)
    requires OneEach(events)
    ensures |TaskOf(events)| == |events|
  {
    if events != [] {
      var front, last := events[..|events| - 1], events[|events| - 1];
      DistinctTasksCount(front);
      assert TaskOf(events) == TaskOf(front) + {last.task};
      assert last.task !in TaskOf(front);
    }
  }

  function UpTo(n: nat): (r: set<nat>)
    ensures forall i :: i in r <==> 0 <= i < n
    ensures |r| == n
  {
    if n == 0 then {} else UpTo(n - 1) + {n - 1}
  }

  lemma QueueHasRoom(s: State, i: nat)
    requires Inv(s) && i < |s.tasks| && !WasPut(s.tasks[i])
    ensures |s.queue| < Capacity(s)
  {
    DistinctTasksCount(s.puts);
    assert !Has(s.puts, i);
    assert TaskOf(s.puts) <= UpTo(|s.tasks|) - {i};
    SubsetSize(TaskOf(s.puts), UpTo(|s.tasks|) - {i});
  }

  /** A task that is about to put finds room in the queue, in every interleaving. */
  lemma PutNeverBlocks(n: nat, run: seq<Action>, i: nat)
    requires i < n && |Run(Init(n), run).tasks| == n && Run(Init(n), run).tasks[i].Holding?
    ensures var s := Run(Init(n), run); |s.queue| < Capacity(s) && Step(s, Put(i)).tasks[i].Sent?
  {
    RunKeepsInv(n, run);
    QueueHasRoom(Run(Init(n), run), i);
  }

  // ---------------------------------------------------------------- exactly once

  function Names(events: seq<Event>, sources: seq<string>): seq<string>
    requires forall k :: 0 <= k < |events| ==> events[k].task < |sources|
  {
    seq(|events|, k requires 0 <= k < |events| => sources[events[k].task])
  }

  lemma RestIsOneEach(events: seq<Event>, k: nat, n: nat)
    requires OneEach(events) && k < |events| && events[k].task == n
    requires forall j :: 0 <= j < |events| ==> events[j].task <= n
    requires forall i :: 0 <= i < n ==> Has(events, i)
    ensures var rest := events[..k] + events[k + 1..];
      OneEach(rest) && (forall j :: 0 <= j < |rest| ==> rest[j].task < n) && (forall i :: 0 <= i < n ==> Has(rest, i))
  {
    var rest := events[..k] + events[k + 1..];
    forall i | 0 <= i < n ensures Has(rest, i) {
      assert Has(events, i);
      var j :| 0 <= j < |events| && events[j].task == i;
      assert rest[if j < k then j else j - 1] == events[j];
    }
    forall j | 0 <= j < |rest| ensures rest[j].task < n && rest[j] == events[if j < k then j else j + 1] {
    }
  }

  /** One event for every task: their sources are the sources, in some order. */
  lemma {:induction false} OneEventEachIsAPermutation(events: seq<Event>, sources: seq<string>)
    requires forall k :: 0 <= k < |events| ==> events[k].task < |sources|
    requires OneEach(events)
    requires forall i :: 0 <= i < |sources| ==> Has(events, i)
    ensures multiset(Names(events, sources)) == multiset(sources)
    decreases |sources|
  {
    if sources == [] {
      assert Names(events, sources) == [];
    } else {
      var n := |sources| - 1;
      assert Has(events, n);
      var k :| 0 <= k < |events| && events[k].task == n;
      var rest, front := events[..k] + events[k + 1..], sources[..n];
      RestIsOneEach(events, k, n);
      OneEventEachIsAPermutation(rest, front);
      NamesWithout(events, sources, k);
      assert sources == front + [sources[n]];
    }
  }

  lemma NamesWithout(events: seq<Event>, sources: seq<string>, k: nat)
    requires k < |events| && events[k].task == |sources| - 1
    requires forall j :: 0 <= j < |events| ==> events[j].task < |sources|
    requires forall j :: 0 <= j < |events| && j != k ==> events[j].task < |sources| - 1
    ensures var rest, front := events[..k] + events[k + 1..], sources[..|sources| - 1];
      (forall j :: 0 <= j < |rest| ==> rest[j].task < |front|) &&
      multiset(Names(events, sources)) == multiset(Names(rest, front)) + multiset{sources[|sources| - 1]}
  {
    var rest, front, names := events[..k] + events[k + 1..], sources[..|sources| - 1], Names(events, sources);
    assert names == names[..k] + [names[k]] + names[k + 1..];
    assert Names(rest, front) == names[..k] + names[k + 1..];
  }

  lemma OnlyTheEndCompletes(s: State)
    requires Inv(s) && CompletedEvent in s.emitted
    ensures s.consumer.Finished? && s.saved == s.puts
    ensures forall i :: 0 <= i < |s.tasks| ==> Has(s.puts, i)
  {
    NoCompletionYet(s.saved);
    NoCompletionYet(if s.saved == [] then [] else s.saved[..|s.saved| - 1]);
    assert s.consumer.Finished?;
    forall i | 0 <= i < |s.tasks| ensures Has(s.puts, i) { assert WasPut(s.tasks[i]); }
  }

  /**
    Once "completed" is emitted, the results emitted before it are those of all sources, each once,
    in the order in which they were put; each has been saved once.
   */
  lemma CompletedMeansEachOnce(sources: seq<string>, run: seq<Action>)
    requires CompletedEvent in Run(Init(|sources|), run).emitted
    ensures var s := Run(Init(|sources|), run);
      s.emitted == [StartedEvent] + Results(s.saved) + [CompletedEvent] && s.saved == s.puts &&
      (forall k :: 0 <= k < |s.saved| ==> s.saved[k].task < |sources|) &&
      multiset(Names(s.saved, sources)) == multiset(sources)
  {
    RunKeepsInv(|sources|, run);
    var s := Run(Init(|sources|), run);
    OnlyTheEndCompletes(s);
    OneEventEachIsAPermutation(s.saved, sources);
  }

  // ---------------------------------------------------------------- where the results come from

  /** Step `k` of the run is the answer `outcome` of the source of task `i`, which was waiting for it. */
  predicate AnswersAt(n: nat, run: seq<Action>, k: nat, i: nat, outcome: Outcome)
    requires k < |run|
  {
    var s := Run(Init(n), run[..k]);
    run[k] == Fetch(i, outcome) && i < |s.tasks| && s.tasks[i].Fetching?
  }

  ghost predicate HasAnswered(n: nat, run: seq<Action>, i: nat, outcome: Outcome) {
    exists k :: 0 <= k < |run| && AnswersAt(n, run, k, i, outcome)
  }

  ghost predicate AllAnswered(n: nat, run: seq<Action>, events: seq<Event>) {
    forall k :: 0 <= k < |events| ==> HasAnswered(n, run, events[k].task, events[k].outcome)
  }

  ghost predicate HeldAnswered(n: nat, run: seq<Action>, tasks: seq<TaskPc>) {
    forall i :: 0 <= i < |tasks| && tasks[i].Holding? ==> HasAnswered(n, run, i, tasks[i].outcome)
  }

  lemma AnswersStay(n: nat, run: seq<Action>, i: nat, outcome: Outcome)
    requires run != [] && HasAnswered(n, run[..|run| - 1], i, outcome)
    ensures HasAnswered(n, run, i, outcome)
  {
    var front := run[..|run| - 1];
    var k :| 0 <= k < |front| && AnswersAt(n, front, k, i, outcome);
    assert front[..k] == run[..k];
    assert AnswersAt(n, run, k, i, outcome);
  }

  lemma StepHolds(s: State, a: Action, i: nat)
    requires i < |Step(s, a).tasks| && Step(s, a).tasks[i].Holding?
    ensures i < |s.tasks| && (s.tasks[i] == Step(s, a).tasks[i] ||
      (s.tasks[i].Fetching? && a == Fetch(i, Step(s, a).tasks[i].outcome)))
  {
  }

  lemma StepPuts(s: State, a: Action, k: nat)
    requires k < |Step(s, a).puts|
    ensures var e := Step(s, a).puts[k];
      (k < |s.puts| && s.puts[k] == e) || (e.task < |s.tasks| && s.tasks[e.task] == Holding(e.outcome))
  {
  }

  lemma {:induction false} RunPutsAnswers(n: nat, run: seq<Action>)
    ensures HeldAnswered(n, run, Run(Init(n), run).tasks) && AllAnswered(n, run, Run(Init(n), run).puts)
  {
    if run != [] {
      RunPutsAnswers(n, run[..|run| - 1]);
      LastHoldsAnswers(n, run);
      LastPutsAnswers(n, run);
    }
  }

  lemma LastAnswers(n: nat, run: seq<Action>, k: nat, i: nat, outcome: Outcome)
    requires k + 1 == |run| && AnswersAt(n, run, k, i, outcome)
    ensures HasAnswered(n, run, i, outcome)
  {
  }

  lemma HolderHasAnswer(n: nat, run: seq<Action>, s: State, i: nat)
    requires run != [] && s == Run(Init(n), run[..|run| - 1]) && HeldAnswered(n, run[..|run| - 1], s.tasks)
    requires i < |Step(s, run[|run| - 1]).tasks| && Step(s, run[|run| - 1]).tasks[i].Holding?
    ensures HasAnswered(n, run, i, Step(s, run[|run| - 1]).tasks[i].outcome)
  {
    var outcome := Step(s, run[|run| - 1]).tasks[i].outcome;
    StepHolds(s, run[|run| - 1], i);
    if s.tasks[i].Fetching? {
      LastAnswers(n, run, |run| - 1, i, outcome);
    } else {
      AnswersStay(n, run, i, outcome);
    }
  }

  lemma LastHoldsAnswers(n: nat, run: seq<Action>)
    requires run != [] && HeldAnswered(n, run[..|run| - 1], Run(Init(n), run[..|run| - 1]).tasks)
    ensures HeldAnswered(n, run, Run(Init(n), run).tasks)
  {
    var tasks := Run(Init(n), run).tasks;
    forall i | 0 <= i < |tasks| && tasks[i].Holding? ensures HasAnswered(n, run, i, tasks[i].outcome) {
      HolderHasAnswer(n, run, Run(Init(n), run[..|run| - 1]), i);
    }
  }

  lemma LastPutsAnswers(n: nat, run: seq<Action>)
    requires run != [] && HeldAnswered(n, run[..|run| - 1], Run(Init(n), run[..|run| - 1]).tasks)
    requires AllAnswered(n, run[..|run| - 1], Run(Init(n), run[..|run| - 1]).puts)
    ensures AllAnswered(n, run, Run(Init(n), run).puts)
  {
    var s, puts := Run(Init(n), run[..|run| - 1]), Run(Init(n), run).puts;
    forall k | 0 <= k < |puts| ensures HasAnswered(n, run, puts[k].task, puts[k].outcome) {
      StepPuts(s, run[|run| - 1], k);
      AnswersStay(n, run, puts[k].task, puts[k].outcome);
    }
  }

  /** In every run, whatever is saved or emitted is what the source of its task has answered. */
  lemma ResultsAreAnswers(n: nat, run: seq<Action>)
    ensures var s := Run(Init(n), run);
      AllAnswered(n, run, s.saved) &&
      forall e :: SourceResult(e) in s.emitted ==> HasAnswered(n, run, e.task, e.outcome)
  {
    RunPutsAnswers(n, run);
    RunKeepsInv(n, run);
    var s := Run(Init(n), run);
    assert forall k :: 0 <= k < |s.saved| ==> s.saved[k] == s.puts[k];
    RunEmitsSaved(n, run);
    forall e | SourceResult(e) in s.emitted ensures HasAnswered(n, run, e.task, e.outcome) {
      var k :| 0 <= k < |s.saved| && s.saved[k] == e;
    }
  }

  /** What has been emitted has been saved, also in a run that was stopped. */
  lemma {:induction false} RunEmitsSaved(n: nat, run: seq<Action>)
    ensures var s := Run(Init(n), run); forall e :: SourceResult(e) in s.emitted ==> e in s.saved
  {
    if run != [] {
      var front := run[..|run| - 1];
      RunEmitsSaved(n, front);
      RunKeepsInv(n, front);
      StepEmitsSaved(Run(Init(n), front), run[|run| - 1]);
    }
  }

  lemma StepEmitsSaved(s: State, a: Action)
    requires Inv(s) && forall e :: SourceResult(e) in s.emitted ==> e in s.saved
    ensures forall e :: SourceResult(e) in Step(s, a).emitted ==> e in Step(s, a).saved
  {
    if s.consumer.Yielding? { assert s.saved[|s.saved| - 1] in s.saved; }
  }
}
