/**
  The streaming consumer in place, with the source tasks running at every await, and the batch
  form of the same fan-out.  `Valid()`: the fields are what `history` produces.
 */
module AggregationService {
  import opened Aggregation
  import opened Ordering
  import opened Sets

  /** Steps of the source tasks and their group. */
  predicate ProducersOnly(run: seq<Action>) {
    forall i :: 0 <= i < |run| ==> !run[i].Consume? && !run[i].Stop?
  }

  predicate SameConsumer(s: State, s': State) {
    s'.consumer == s.consumer && s'.saved == s.saved && s'.emitted == s.emitted && |s'.tasks| == |s.tasks| &&
    s.queue <= s'.queue && (s.flag ==> s'.flag)
  }

  lemma {:induction false} ProducersKeepMyFrame(s: State, run: seq<Action>)
    requires ProducersOnly(run)
    ensures SameConsumer(s, Run(s, run))
  {
    if run != [] { ProducersKeepMyFrame(s, run[..|run| - 1]); }
  }

  lemma PutsAreBounded(s: State)
    requires Inv(s)
    ensures |s.puts| <= |s.tasks|
  {
    DistinctTasksCount(s.puts);
    SubsetSize(TaskOf(s.puts), UpTo(|s.tasks|));
  }

  class StreamAggregate {
    const sources: seq<string>
    var tasks: seq<TaskPc>
    var queue: seq<Event>
    var flag: bool
    var puts: seq<Event>
    var consumer: ConsumerPc
    var saved: seq<Event>
    var emitted: seq<Out>
    ghost var history: seq<Action>

    ghost function View(): State
      reads this
    {
      State(tasks, queue, flag, puts, consumer, saved, emitted)
    }

    ghost predicate Valid()
      reads this
    {
      View() == Run(Init(|sources|), history) && Inv(View()) && |tasks| == |sources|
    }

    constructor (sources: seq<string>)
      ensures Valid() && this.sources == sources && consumer == Checking && emitted == [StartedEvent]
    {
      var s := Init(|sources|);
      this.sources := sources;
      tasks, queue, flag, puts, consumer, saved, emitted := s.tasks, [], false, [], Checking, [], [StartedEvent];
      history := [];
      new;
      RunKeepsInv(|sources|, []);
    }

    /** The source tasks run while the consumer is suspended. */
    method Await()
      requires Valid()
      modifies this
      ensures Valid() && old(history) <= history && SameConsumer(old(View()), View())
    {
      var run: seq<Action> := *;
      if !ProducersOnly(run) { run := []; }
      ProducersKeepMyFrame(View(), run);
      RunConcat(Init(|sources|), history, run);
      var s := Run(State(tasks, queue, flag, puts, consumer, saved, emitted), run);
      tasks, queue, flag, puts, consumer, saved, emitted :=
        s.tasks, s.queue, s.flag, s.puts, s.consumer, s.saved, s.emitted;
      history := history + run;
      RunKeepsInv(|sources|, history);
    }

    /** The changes just made are the step `a`. */
    ghost method Take(a: Action)
      requires Inv(Run(Init(|sources|), history)) && Step(Run(Init(|sources|), history), a) == View()
      requires |Run(Init(|sources|), history).tasks| == |sources|
      modifies `history
      ensures Valid() && history == old(history) + [a]
    {
      StepKeepsInv(Run(Init(|sources|), history), a);
      history := history + [a];
    }

    method Cancel()
      requires Valid() && !consumer.Finished?
      modifies this
      ensures Valid() && consumer.Stopped? && saved == old(saved) && old(history) <= history
    {
      consumer := Stopped(InHand(consumer));
      Take(Stop);
    }

    /** queue.get(): an event, or none if the request is cancelled at an empty queue. */
    method Get()
      requires Valid() && consumer.Getting?
      modifies this
      ensures Valid() && old(history) <= history && (consumer.Saving? || consumer.Stopped?)
      ensures saved == old(saved)
    {
      Await();
      if queue == [] { Cancel(); return; }
      consumer := Saving(queue[0]);
      queue := queue[1..];
      Take(Consume);
    }

    /** Save the event and commit. */
    method Save(event: Event)
      requires Valid() && consumer == Saving(event)
      modifies this
      ensures Valid() && old(history) <= history && (consumer == Yielding(event) || consumer.Stopped?)
      ensures consumer.Yielding? ==> saved == old(saved) + [event] && emitted == old(emitted)
    {
      Await();
      var cancelled: bool := *;
      if cancelled { Cancel(); return; }
      saved := saved + [event];
      consumer := Yielding(event);
      Take(Consume);
    }

    method Emit(event: Event)
      requires Valid() && consumer == Yielding(event)
      modifies this
      ensures Valid() && old(history) <= history && (consumer.Checking? || consumer.Stopped?)
      ensures consumer.Checking? ==> saved == old(saved) && emitted == old(emitted) + [SourceResult(event)]
    {
      Await();
      var cancelled: bool := *;
      if cancelled { Cancel(); return; }
      emitted := emitted + [SourceResult(event)];
      consumer := Checking;
      Take(Consume);
    }

    /** Take one event out, unless the flag is set and the queue is empty. */
    method Next() returns (more: bool)
      requires Valid() && consumer.Checking?
      modifies this
      ensures Valid() && old(history) <= history
      ensures !more ==> consumer.Joining?
      ensures more ==> consumer.Stopped? || (consumer.Checking? && |saved| == |old(saved)| + 1)
    {
      if flag && queue == [] {
        consumer := Joining;
        Take(Consume);
        return false;
      }
      consumer := Getting;
      Take(Consume);
      Get();
      if consumer.Saving? { Save(consumer.event); }
      if consumer.Yielding? { Emit(consumer.event); }
      return true;
    }

    /** Await the task group, mark the request complete, say so. */
    method Complete()
      requires Valid() && consumer.Joining?
      modifies this
      ensures Valid() && old(history) <= history && (consumer.Finished? || consumer.Stopped?)
    {
      Await();
      if exists i :: 0 <= i < |tasks| && !tasks[i].Ended? {
        consumer := Stopped([]);
        Take(Consume);
        return;
      }
      consumer := Closing;
      Take(Consume);
      Await();
      emitted := emitted + [CompletedEvent];
      consumer := Finished;
      Take(Consume);
    }

    /** Everything that was put has been saved and emitted, and it is one result of each source. */
    ghost predicate Delivered()
      reads this
    {
      emitted == [StartedEvent] + Results(saved) + [CompletedEvent] && saved == puts &&
      (forall k :: 0 <= k < |saved| ==> saved[k].task < |sources|) &&
      multiset(Names(saved, sources)) == multiset(sources)
    }

    /** Save and emit results as they come, until all are there. */
    method Stream() returns (completed: bool)
      requires Valid() && consumer.Checking? && saved == []
      modifies this
      ensures Valid() && completed == (CompletedEvent in emitted)
      ensures completed ==> Delivered()
      ensures AllAnswered(|sources|, history, saved)
    {
      var more := true;
      while more && consumer.Checking?
        invariant Valid() && if more then consumer.Checking? || consumer.Stopped? else consumer.Joining?
        invariant |saved| <= |sources|
        decreases if more && consumer.Checking? then |sources| - |saved| + 1 else 0
      {
        more := Next();
        PutsAreBounded(View());
      }
      completed := Conclude();
    }

    /** After the loop: complete, unless the request was stopped. */
    method Conclude() returns (completed: bool)
      requires Valid() && (consumer.Joining? || consumer.Stopped?)
      modifies this
      ensures Valid() && old(history) <= history && completed == (CompletedEvent in emitted)
      ensures completed ==> Delivered()
      ensures AllAnswered(|sources|, history, saved)
    {
      if consumer.Joining? { Complete(); }
      completed := consumer.Finished?;
      ResultsAreAnswers(|sources|, history);
      if completed { CompletedMeansEachOnce(sources, history); }
    }
  }

  // ---------------------------------------------------------------- the batch form

  datatype Result = Result(source: string, outcome: Outcome)

  datatype Status = Completed | Partial

  datatype Payload = Payload(status: Status, results: seq<Result>)

  function SourceOf(r: Result): string {
    r.source
  }

  function Respond(results: seq<Result>): Payload {
    Payload(if AnyProblem(results) then Partial else Completed, Sort(results, SourceOf))
  }

  lemma SameElements<T>(a: seq<T>, b: seq<T>, x: T)
    requires multiset(a) == multiset(b)
    ensures x in a <==> x in b
  {
    assert x in a <==> x in multiset(a);
    assert x in b <==> x in multiset(b);
  }

  predicate AnyProblem(results: seq<Result>) {
    exists i :: 0 <= i < |results| && results[i].outcome.Problem?
  }

  lemma SameProblems(a: seq<Result>, b: seq<Result>)
    requires multiset(a) == multiset(b) && AnyProblem(a)
    ensures AnyProblem(b)
  {
    var i :| 0 <= i < |a| && a[i].outcome.Problem?;
    SameElements(a, b, a[i]);
  }

  /** Whatever order the sources complete in, the response is the same. */
  lemma CompletionOrderIsInvisible(a: seq<Result>, b: seq<Result>)
    requires multiset(a) == multiset(b) && Distinguishes(SourceOf, a)
    ensures Respond(a) == Respond(b)
  {
    if AnyProblem(a) { SameProblems(a, b); }
    if AnyProblem(b) { SameProblems(b, a); }
    SameElementsAreDistinguished(a, Sort(a, SourceOf), SourceOf);
    SortedIsUnique(Sort(a, SourceOf), Sort(b, SourceOf), SourceOf);
  }

  predicate Covers(fetch: map<string, Outcome>, sources: seq<string>) {
    forall i :: 0 <= i < |sources| ==> sources[i] in fetch
  }

  /** What the sources answer, in the order in which the sources are listed. */
  function Answers(sources: seq<string>, fetch: map<string, Outcome>): seq<Result>
    requires Covers(fetch, sources)
  {
    seq(|sources|, i requires 0 <= i < |sources| => Result(sources[i], fetch[sources[i]]))
  }

  /** A response is partial exactly when one of its sources has failed. */
  lemma StatusTellsOfProblems(sources: seq<string>, fetch: map<string, Outcome>)
    requires Covers(fetch, sources)
    ensures Respond(Answers(sources, fetch)).status.Partial? <==>
      exists i :: 0 <= i < |sources| && fetch[sources[i]].Problem?
  {
    var answers := Answers(sources, fetch);
    if i :| 0 <= i < |sources| && fetch[sources[i]].Problem? {
      assert answers[i].outcome.Problem?;
    }
  }

  class AggregateRequest {
    var results: seq<Result>       // in the order of completion, until they are sorted
    var saved: seq<Result>         // rows written for the request

    constructor ()
      ensures results == [] && saved == []
    {
      results, saved := [], [];
    }

    /** The task group: one task per source, each appends its result when it is done. */
    method FetchAll(sources: seq<string>, fetch: map<string, Outcome>)
      requires Covers(fetch, sources)
      requires results == []
      modifies this
      ensures multiset(results) == multiset(Answers(sources, fetch)) && saved == old(saved)
    {
      var pending := sources;
      while pending != []
        invariant Covers(fetch, pending)
        invariant multiset(results) + multiset(Answers(pending, fetch)) == multiset(Answers(sources, fetch))
        invariant saved == old(saved)
        decreases |pending|
      {
        var next: int := *;
        if next < 0 || next >= |pending| { next := 0; }
        AnswersWithout(pending, fetch, next);
        results := results + [Result(pending[next], fetch[pending[next]])];
        pending := pending[..next] + pending[next + 1..];
      }
    }

    /** Fetch all sources, save a row for each result, and respond with the results by source. */
    method BuildResponsePayload(sources: seq<string>, fetch: map<string, Outcome>) returns (payload: Payload)
      requires Covers(fetch, sources)
      requires results == [] && saved == []
      modifies this
      ensures payload == Respond(Answers(sources, fetch))
      ensures multiset(saved) == multiset(Answers(sources, fetch)) && payload.results == results
      ensures Sorted(payload.results, SourceOf) && multiset(payload.results) == multiset(Answers(sources, fetch))
      ensures payload.status.Partial? <==> exists i :: 0 <= i < |sources| && fetch[sources[i]].Problem?
    {
      StatusTellsOfProblems(sources, fetch);
      FetchAll(sources, fetch);
      var status := Completed;
      if AnyProblem(results) { status := Partial; }
      AnswersAreDistinguished(sources, fetch);
      CompletionOrderIsInvisible(Answers(sources, fetch), results);
      SaveRows();
      results := Sort(results, SourceOf);
      return Payload(status, results);
    }

    method SaveRows()
      requires saved == []
      modifies `saved
      ensures saved == results
    {
      var i := 0;
      while i < |results|
        invariant 0 <= i <= |results| && saved == results[..i]
      {
        saved := saved + [results[i]];
        i := i + 1;
      }
    }
  }

  lemma AnswersWithout(sources: seq<string>, fetch: map<string, Outcome>, k: nat)
    requires k < |sources| && Covers(fetch, sources)
    ensures Covers(fetch, sources[..k] + sources[k + 1..])
    ensures multiset(Answers(sources, fetch)) ==
      multiset(Answers(sources[..k] + sources[k + 1..], fetch)) + multiset{Result(sources[k], fetch[sources[k]])}
  {
    var rest, answers := sources[..k] + sources[k + 1..], Answers(sources, fetch);
    assert forall i :: 0 <= i < |rest| ==> rest[i] == sources[if i < k then i else i + 1];
    assert answers == answers[..k] + [answers[k]] + answers[k + 1..];
    assert Answers(rest, fetch) == answers[..k] + answers[k + 1..];
  }

  lemma AnswersAreDistinguished(sources: seq<string>, fetch: map<string, Outcome>)
    requires Covers(fetch, sources)
    ensures Distinguishes(SourceOf, Answers(sources, fetch))
  {
  }
}
