/**
  The anomaly matrix against the step machine: for READ COMMITTED and REPEATABLE READ a cell
  is true exactly when some run of transactions at that level shows the phenomenon.
 */
module Anomalies {
  import opened Mvcc
  import opened Options

  datatype Phenomenon = DirtyRead | NonRepeatableRead | PhantomRead | LostUpdate | WriteSkew

  function AnomalyPossible(level: Level, phenomenon: Phenomenon): bool {
    match level
    case ReadCommitted => !phenomenon.DirtyRead?
    case RepeatableRead => phenomenon.WriteSkew?
    case Serializable => false
  }

  // ---------------------------------------------------------------- the phenomena

  predicate CommittedWriter(s: State, w: Writer) {
    w.By? ==> w.t in s.txs && s.txs[w.t].status.Committed?
  }

  /** The statement `a` shows its transaction a version that another transaction has not committed. */
  predicate ReadsDirty(s: State, a: Action) {
    (a.Read? || a.Count?) && IsActive(s, a.t) &&
    exists id :: id in Visible(s, a.t) && (a.Read? ==> id == a.id) &&
      Visible(s, a.t)[id].writer != By(a.t) && !CommittedWriter(s, Visible(s, a.t)[id].writer)
  }

  /** Two reads of one row by `t` show different versions, neither its own. */
  predicate ReadsTwoVersions(t: Tid, log: seq<Observation>) {
    exists i, j :: 0 <= i < j < |log| && log[i].Saw? && log[j].Saw? && log[i].id == log[j].id &&
      log[i].version != log[j].version && log[i].version.writer != By(t) && log[j].version.writer != By(t)
  }

  /** Two counts with one bound disagree on a row that `t` itself has not written. */
  predicate CountsTwoSets(x: Tx) {
    exists i, j :: 0 <= i < j < |x.log| && x.log[i].Counted? && x.log[j].Counted? && x.log[i].bound == x.log[j].bound &&
      exists id :: id in x.log[i].ids + x.log[j].ids && (id in x.log[i].ids) != (id in x.log[j].ids) && id !in x.writes
  }

  /** `t` read one version of a row and then blindly replaced another one that it never saw. */
  predicate OverwritesUnseen(t: Tid, log: seq<Observation>) {
    exists i, j :: 0 <= i < j < |log| && log[i].Saw? && log[j].Overwrote? && log[i].id == log[j].id &&
      log[i].version.writer != By(t) && log[j].version.writer != By(t) &&
      forall k :: 0 <= k < j ==> log[k] != Saw(log[j].id, log[j].version)
  }

  /** `t` read the version of row `id` that `u` replaced. */
  predicate ReadsReplaced(s: State, t: Tid, u: Tid, id: Id)
    requires t in s.txs && u in s.txs
  {
    exists i, j :: 0 <= i < |s.txs[t].log| && 0 <= j < |s.txs[u].log| && s.txs[t].log[i].Saw? &&
      s.txs[t].log[i].id == id && s.txs[u].log[j] == Overwrote(id, s.txs[t].log[i].version)
  }

  predicate IsCommitted(s: State, t: Tid) {
    t in s.txs && s.txs[t].status.Committed?
  }

  /** Two committed transactions each read what the other replaced, in different rows. */
  ghost predicate Skewed(s: State) {
    exists t, u, x, y :: t != u && x != y && IsCommitted(s, t) && IsCommitted(s, u) &&
      ReadsReplaced(s, t, u, x) && ReadsReplaced(s, u, t, y)
  }

  ghost predicate Exhibits(phenomenon: Phenomenon, values: map<Id, int>, run: seq<Action>) {
    var s := Run(Init(values), run);
    match phenomenon
    case DirtyRead => exists k :: 0 <= k < |run| && ReadsDirty(Run(Init(values), run[..k]), run[k])
    case NonRepeatableRead => exists t :: t in s.txs && ReadsTwoVersions(t, s.txs[t].log)
    case PhantomRead => exists t :: t in s.txs && CountsTwoSets(s.txs[t])
    case LostUpdate => exists t :: IsCommitted(s, t) && OverwritesUnseen(t, s.txs[t].log)
    case WriteSkew => Skewed(s)
  }

  predicate AllAt(level: Level, run: seq<Action>) {
    forall i :: 0 <= i < |run| && run[i].Begin? ==> run[i].level == level
  }

  // ---------------------------------------------------------------- no dirty reads, at any level

  predicate OnlyCommitted(s: State, rows: map<Id, Version>) {
    forall id :: id in rows ==> CommittedWriter(s, rows[id].writer)
  }

  predicate Clean(s: State) {
    OnlyCommitted(s, s.rows) &&
    forall t :: t in s.txs && s.txs[t].snapshot.Some? ==> OnlyCommitted(s, s.txs[t].snapshot.value)
  }

  lemma CommittedStays(s: State, a: Action, w: Writer)
    requires CommittedWriter(s, w)
    ensures CommittedWriter(Step(s, a), w)
  {
  }

  lemma SnapshotsComeFromRows(s: State, a: Action, t: Tid)
    requires t in Step(s, a).txs && Step(s, a).txs[t].snapshot.Some?
    ensures (t in s.txs && s.txs[t].snapshot == Step(s, a).txs[t].snapshot) ||
      Step(s, a).txs[t].snapshot == Some(s.rows)
  {
  }

  lemma StepKeepsClean(s: State, a: Action)
    requires Clean(s)
    ensures Clean(Step(s, a))
  {
    var s' := Step(s, a);
    forall id | id in s'.rows ensures CommittedWriter(s', s'.rows[id].writer) {
      if id in s.rows { CommittedStays(s, a, s.rows[id].writer); }
    }
    forall t, id | t in s'.txs && s'.txs[t].snapshot.Some? && id in s'.txs[t].snapshot.value
      ensures CommittedWriter(s', s'.txs[t].snapshot.value[id].writer)
    {
      SnapshotsComeFromRows(s, a, t);
      CommittedStays(s, a, s'.txs[t].snapshot.value[id].writer);
    }
  }

  lemma {:induction false} RunKeepsClean(values: map<Id, int>, run: seq<Action>)
    ensures Clean(Run(Init(values), run))
  {
    if run != [] {
      RunKeepsClean(values, run[..|run| - 1]);
      StepKeepsClean(Run(Init(values), run[..|run| - 1]), run[|run| - 1]);
    }
  }

  /** Whatever the levels, no statement ever shows an uncommitted version of another transaction. */
  lemma NoDirtyRead(values: map<Id, int>, run: seq<Action>)
    ensures !Exhibits(DirtyRead, values, run)
  {
    forall k | 0 <= k < |run| ensures !ReadsDirty(Run(Init(values), run[..k]), run[k]) {
      RunKeepsClean(values, run[..k]);
    }
  }

  // ---------------------------------------------------------------- a fixed snapshot

  predicate InSnapshot(x: Tx, id: Id, version: Version) {
    x.snapshot.Some? && id in x.snapshot.value && x.snapshot.value[id] == version
  }

  /** All that a transaction has seen and replaced, other than its own writes, is its snapshot's. */
  predicate FromSnapshot(t: Tid, x: Tx, o: Observation) {
    match o
    case Saw(id, version) => version.writer == By(t) || InSnapshot(x, id, version)
    case Overwrote(id, version) => version.writer == By(t) || InSnapshot(x, id, version)
    case Counted(bound, ids) =>
      x.snapshot.Some? && forall id :: id in ids + x.snapshot.value.Keys && id !in x.writes ==>
        (id in ids <==> id in x.snapshot.value && x.snapshot.value[id].value >= bound)
  }

  predicate Fixed(t: Tid, x: Tx) {
    x.level.RepeatableRead? && forall i :: 0 <= i < |x.log| ==> FromSnapshot(t, x, x.log[i])
  }

  lemma StepKeepsFixed(s: State, a: Action, t: Tid)
    requires t in s.txs ==> Fixed(t, s.txs[t])
    requires a.Begin? ==> a.level.RepeatableRead?
    ensures t in Step(s, a).txs ==> Fixed(t, Step(s, a).txs[t])
  {
    if t in s.txs && a.t == t && IsActive(s, t) && !a.Begin? {
      var x, x' := s.txs[t], Step(s, a).txs[t];
      forall i | 0 <= i < |x'.log| ensures FromSnapshot(t, x', x'.log[i]) {
        if i < |x.log| {
          assert x'.log[i] == x.log[i] && FromSnapshot(t, x, x.log[i]);
        }
      }
    }
  }

  lemma {:induction false} RunKeepsFixed(values: map<Id, int>, run: seq<Action>, t: Tid)
    requires AllAt(RepeatableRead, run)
    ensures var s := Run(Init(values), run); t in s.txs ==> Fixed(t, s.txs[t])
  {
    if run != [] {
      RunKeepsFixed(values, run[..|run| - 1], t);
      StepKeepsFixed(Run(Init(values), run[..|run| - 1]), run[|run| - 1], t);
    }
  }

  /** REPEATABLE READ: no non-repeatable read, no phantom, no lost update. */
  lemma RepeatableReadIsFixed(values: map<Id, int>, run: seq<Action>, phenomenon: Phenomenon)
    requires AllAt(RepeatableRead, run) && !phenomenon.WriteSkew?
    ensures !Exhibits(phenomenon, values, run)
  {
    NoDirtyRead(values, run);
    var s := Run(Init(values), run);
    forall t | t in s.txs
      ensures !ReadsTwoVersions(t, s.txs[t].log) && !CountsTwoSets(s.txs[t]) && !OverwritesUnseen(t, s.txs[t].log)
    {
      RunKeepsFixed(values, run, t);
      FixedShowsNothing(t, s.txs[t]);
    }
  }

  lemma FixedShowsNothing(t: Tid, x: Tx)
    requires Fixed(t, x)
    ensures !ReadsTwoVersions(t, x.log) && !CountsTwoSets(x) && !OverwritesUnseen(t, x.log)
  {
    assert forall i :: 0 <= i < |x.log| ==> FromSnapshot(t, x, x.log[i]);
  }

  // ---------------------------------------------------------------- witness runs

  /** Two transactions, 0 and 1, over some committed rows. */
  predicate Two(s: State, rows: map<Id, Version>, x: Tx, y: Tx) {
    s.rows == rows && s.txs == map[0 := x, 1 := y]
  }

  /** What transaction `x`, number `t`, sees when it has written nothing it reads. */
  function Fresh(x: Tx, rows: map<Id, Version>): map<Id, Version> {
    if x.level.ReadCommitted? || x.snapshot.None? then rows else x.snapshot.value
  }

  function Began(x: Tx, rows: map<Id, Version>): Tx {
    x.(snapshot := if x.snapshot.None? then Some(rows) else x.snapshot)
  }

  lemma Reads(s: State, t: Tid, id: Id)
    requires IsActive(s, t) && id in Fresh(s.txs[t], s.rows) && id !in s.txs[t].writes
    ensures Step(s, Read(t, id)) ==
      SetTx(s, t, Began(s.txs[t], s.rows).(log := s.txs[t].log + [Saw(id, Fresh(s.txs[t], s.rows)[id])]))
  {
  }

  lemma Sets(s: State, t: Tid, id: Id, value: int)
    requires IsActive(s, t) && id in s.rows && id !in s.txs[t].writes && !LockedByOther(s, t, id)
    requires id in Fresh(s.txs[t], s.rows) && Fresh(s.txs[t], s.rows)[id] == s.rows[id]
    ensures Step(s, Set(t, id, value)) ==
      SetTx(s, t, Began(s.txs[t], s.rows).(writes := s.txs[t].writes[id := value],
        log := s.txs[t].log + [Overwrote(id, s.rows[id])]))
  {
  }

  function Open(level: Level): Tx { Tx(level, None, map[], [], Active) }

  function Opening(level: Level): seq<Action> {
    [Begin(0, level), Begin(1, level)]
  }

  /** After `values` have been loaded and both transactions have begun. */
  lemma Opened(values: map<Id, int>, level: Level, rest: seq<Action>) returns (s: State)
    requires AllAt(level, rest)
    ensures Two(s, Init(values).rows, Open(level), Open(level))
    ensures Run(Init(values), Opening(level) + rest) == Run(s, rest) && AllAt(level, Opening(level) + rest)
  {
    s := Step(Step(Init(values), Begin(0, level)), Begin(1, level));
    RunAfter(Init(values), Begin(0, level), [Begin(1, level)] + rest);
    RunAfter(Step(Init(values), Begin(0, level)), Begin(1, level), rest);
    assert Opening(level) + rest == [Begin(0, level)] + ([Begin(1, level)] + rest);
  }

  lemma RunFour(s: State, a: Action, b: Action, c: Action, d: Action)
    ensures Run(s, [a, b, c, d]) == Step(Step(Step(Step(s, a), b), c), d)
  {
    RunAfter(s, a, [b, c, d]);
    RunAfter(Step(s, a), b, [c, d]);
    RunAfter(Step(Step(s, a), b), c, [d]);
    RunAfter(Step(Step(Step(s, a), b), c), d, []);
    assert [a, b, c, d] == [a] + [b, c, d] && [b, c, d] == [b] + [c, d] && [c, d] == [c] + [d] && [d] == [d] + [];
  }

  lemma Commits(s: State, t: Tid, id: Id, value: int)
    requires IsActive(s, t) && s.txs[t].writes == map[id := value]
    ensures Step(s, Commit(t)) == State(s.rows[id := Version(value, By(t))], s.txs[t := s.txs[t].(status := Committed)])
  {
    assert (map i | i in s.txs[t].writes :: Version(s.txs[t].writes[i], By(t))) == map[id := Version(value, By(t))];
  }

  /** Transaction 1 changes row 0 between two reads by transaction 0. */
  lemma ReadsAroundAWrite(s: State) returns (t: State)
    requires Two(s, map[0 := Version(100, Initial)], Open(ReadCommitted), Open(ReadCommitted))
    ensures t == Run(s, [Read(0, 0), Set(1, 0, 200), Commit(1), Read(0, 0)])
    ensures 0 in t.txs && t.txs[0].log == [Saw(0, Version(100, Initial)), Saw(0, Version(200, By(1)))]
  {
    var x, y := Open(ReadCommitted), Open(ReadCommitted);
    var rows := map[0 := Version(100, Initial)];
    Reads(s, 0, 0);
    var s1 := s.(txs := s.txs[0 := x.(snapshot := Some(rows), log := x.log + [Saw(0, Version(100, Initial))])]);
    assert Step(s, Read(0, 0)) == s1;
    Sets(s1, 1, 0, 200);
    var s2 := s1.(txs := s1.txs[1 := y.(snapshot := Some(rows), writes := y.writes[0 := 200],
      log := y.log + [Overwrote(0, Version(100, Initial))])]);
    assert Step(s1, Set(1, 0, 200)) == s2;
    assert s2.txs[1].writes == map[0 := 200];
    Commits(s2, 1, 0, 200);
    var s3 := State(rows[0 := Version(200, By(1))], s2.txs[1 := s2.txs[1].(status := Committed)]);
    assert Step(s2, Commit(1)) == s3;
    Reads(s3, 0, 0);
    t := Step(s3, Read(0, 0));
    RunFour(s, Read(0, 0), Set(1, 0, 200), Commit(1), Read(0, 0));
  }

  lemma ReadCommittedReadsTwice() returns (values: map<Id, int>, run: seq<Action>)
    ensures AllAt(ReadCommitted, run) && Exhibits(NonRepeatableRead, values, run)
  {
    values := map[0 := 100];
    var rest := [Read(0, 0), Set(1, 0, 200), Commit(1), Read(0, 0)];
    run := Opening(ReadCommitted) + rest;
    var s := Opened(values, ReadCommitted, rest);
    var t := ReadsAroundAWrite(s);
    var log := t.txs[0].log;
    assert log[0].Saw? && log[1].Saw? && log[0].version != log[1].version;
    assert ReadsTwoVersions(0, log);
  }

  lemma Counts(s: State, t: Tid, bound: int, ids: set<Id>)
    requires IsActive(s, t) && s.txs[t].writes == map[] && ids == Matching(Fresh(s.txs[t], s.rows), bound)
    ensures Step(s, Count(t, bound)) ==
      SetTx(s, t, Began(s.txs[t], s.rows).(log := s.txs[t].log + [Counted(bound, ids)]))
  {
    assert Visible(s, t) == Fresh(s.txs[t], s.rows);
  }

  lemma Inserts(s: State, t: Tid, id: Id, value: int)
    requires IsActive(s, t) && id !in s.rows && id !in s.txs[t].writes && !LockedByOther(s, t, id)
    ensures Step(s, Insert(t, id, value)) ==
      SetTx(s, t, Began(s.txs[t], s.rows).(writes := s.txs[t].writes[id := value]))
  {
  }

  /** Transaction 1 inserts a matching row between two counts by transaction 0. */
  lemma CountsAroundAnInsert(s: State) returns (t: State)
    requires Two(s, map[], Open(ReadCommitted), Open(ReadCommitted))
    ensures t == Run(s, [Count(0, 1000), Insert(1, 9, 5000), Commit(1), Count(0, 1000)])
    ensures 0 in t.txs && t.txs[0].log == [Counted(1000, {}), Counted(1000, {9})] && t.txs[0].writes == map[]
  {
    var x, y := Open(ReadCommitted), Open(ReadCommitted);
    Counts(s, 0, 1000, {});
    var s1 := s.(txs := s.txs[0 := x.(snapshot := Some(map[]), log := x.log + [Counted(1000, {})])]);
    assert Step(s, Count(0, 1000)) == s1;
    Inserts(s1, 1, 9, 5000);
    var s2 := s1.(txs := s1.txs[1 := y.(snapshot := Some(map[]), writes := y.writes[9 := 5000])]);
    assert Step(s1, Insert(1, 9, 5000)) == s2;
    assert s2.txs[1].writes == map[9 := 5000];
    Commits(s2, 1, 9, 5000);
    var s3 := State(s.rows[9 := Version(5000, By(1))], s2.txs[1 := s2.txs[1].(status := Committed)]);
    assert Step(s2, Commit(1)) == s3;
    Counts(s3, 0, 1000, {9});
    t := Step(s3, Count(0, 1000));
    RunFour(s, Count(0, 1000), Insert(1, 9, 5000), Commit(1), Count(0, 1000));
  }

  lemma ReadCommittedSeesPhantoms() returns (values: map<Id, int>, run: seq<Action>)
    ensures AllAt(ReadCommitted, run) && Exhibits(PhantomRead, values, run)
  {
    values := map[];
    var rest := [Count(0, 1000), Insert(1, 9, 5000), Commit(1), Count(0, 1000)];
    run := Opening(ReadCommitted) + rest;
    var s := Opened(values, ReadCommitted, rest);
    var t := CountsAroundAnInsert(s);
    var log := t.txs[0].log;
    assert log[0].bound == log[1].bound && 9 in log[0].ids + log[1].ids && 9 !in log[0].ids && 9 in log[1].ids;
    assert CountsTwoSets(t.txs[0]);
  }

  /** Transaction 1 reads, transaction 0 overwrites and commits, transaction 1 writes what it computed. */
  lemma WritesOverAWrite(s: State) returns (t: State)
    requires Two(s, map[0 := Version(100, Initial)], Open(ReadCommitted), Open(ReadCommitted))
    ensures t == Run(s, [Read(1, 0), Set(0, 0, 150), Commit(0), Set(1, 0, 150)] + [Commit(1)])
    ensures IsCommitted(t, 1) && t.txs[1].log == [Saw(0, Version(100, Initial)), Overwrote(0, Version(150, By(0)))]
  {
    var x, y := Open(ReadCommitted), Open(ReadCommitted);
    var rows := map[0 := Version(100, Initial)];
    Reads(s, 1, 0);
    var s1 := s.(txs := s.txs[1 := y.(snapshot := Some(rows), log := y.log + [Saw(0, Version(100, Initial))])]);
    assert Step(s, Read(1, 0)) == s1;
    Sets(s1, 0, 0, 150);
    var s2 := s1.(txs := s1.txs[0 := x.(snapshot := Some(rows), writes := x.writes[0 := 150],
      log := x.log + [Overwrote(0, Version(100, Initial))])]);
    assert Step(s1, Set(0, 0, 150)) == s2;
    assert s2.txs[0].writes == map[0 := 150];
    Commits(s2, 0, 0, 150);
    var s3 := State(rows[0 := Version(150, By(0))], s2.txs[0 := s2.txs[0].(status := Committed)]);
    assert Step(s2, Commit(0)) == s3;
    Sets(s3, 1, 0, 150);
    var s4 := Step(s3, Set(1, 0, 150));
    assert s4.txs[1].writes == map[0 := 150];
    Commits(s4, 1, 0, 150);
    t := Step(s4, Commit(1));
    var four := [Read(1, 0), Set(0, 0, 150), Commit(0), Set(1, 0, 150)];
    RunFour(s, Read(1, 0), Set(0, 0, 150), Commit(0), Set(1, 0, 150));
    assert (four + [Commit(1)])[..4] == four;
  }

  lemma ReadCommittedLosesUpdates() returns (values: map<Id, int>, run: seq<Action>)
    ensures AllAt(ReadCommitted, run) && Exhibits(LostUpdate, values, run)
  {
    values := map[0 := 100];
    var rest := [Read(1, 0), Set(0, 0, 150), Commit(0), Set(1, 0, 150)] + [Commit(1)];
    run := Opening(ReadCommitted) + rest;
    var s := Opened(values, ReadCommitted, rest);
    var t := WritesOverAWrite(s);
    var log := t.txs[1].log;
    assert log[0].Saw? && log[1].Overwrote? && log[0].id == log[1].id;
    assert OverwritesUnseen(1, log);
  }

  /** The versions that two transactions start from, both of value 100. */
  function Hundred(): map<Id, Version> {
    map[0 := Version(100, Initial), 1 := Version(100, Initial)]
  }

  lemma RunTwo(s: State, a: Action, b: Action)
    ensures Run(s, [a, b]) == Step(Step(s, a), b)
  {
    RunAfter(s, a, [b]);
    RunAfter(Step(s, a), b, []);
    assert [a, b] == [a] + [b] && [b] == [b] + [];
  }

  /** A transaction with snapshot `Hundred()`. */
  function Mid(level: Level, writes: map<Id, int>, log: seq<Observation>): Tx {
    Tx(level, Some(Hundred()), writes, log, Active)
  }

  const HUNDRED := Version(100, Initial)

  /** Each transaction reads one of two rows ... */
  lemma ReadsApart(s: State, level: Level) returns (t: State)
    requires Two(s, Hundred(), Open(level), Open(level))
    ensures t == Run(s, [Read(0, 0), Read(1, 1)])
    ensures Two(t, Hundred(), Mid(level, map[], [Saw(0, HUNDRED)]), Mid(level, map[], [Saw(1, HUNDRED)]))
  {
    Reads(s, 0, 0);
    assert [] + [Saw(0, HUNDRED)] == [Saw(0, HUNDRED)] && [] + [Saw(1, HUNDRED)] == [Saw(1, HUNDRED)];
    var s1 := s.(txs := s.txs[0 := Mid(level, map[], [Saw(0, HUNDRED)])]);
    assert Step(s, Read(0, 0)) == s1;
    assert Two(s1, Hundred(), Mid(level, map[], [Saw(0, HUNDRED)]), Open(level));
    Reads(s1, 1, 1);
    t := s1.(txs := s1.txs[1 := Mid(level, map[], [Saw(1, HUNDRED)])]);
    assert Step(s1, Read(1, 1)) == t;
    RunTwo(s, Read(0, 0), Read(1, 1));
  }

  /** ... and then writes the other one. */
  lemma WritesAcross(s: State, level: Level) returns (t: State)
    requires Two(s, Hundred(), Mid(level, map[], [Saw(0, HUNDRED)]), Mid(level, map[], [Saw(1, HUNDRED)]))
    ensures t == Run(s, [Set(0, 1, 0), Set(1, 0, 0)])
    ensures Two(t, Hundred(), Mid(level, map[1 := 0], [Saw(0, HUNDRED), Overwrote(1, HUNDRED)]),
                              Mid(level, map[0 := 0], [Saw(1, HUNDRED), Overwrote(0, HUNDRED)]))
  {
    Sets(s, 0, 1, 0);
    assert [Saw(0, HUNDRED)] + [Overwrote(1, HUNDRED)] == [Saw(0, HUNDRED), Overwrote(1, HUNDRED)];
    assert [Saw(1, HUNDRED)] + [Overwrote(0, HUNDRED)] == [Saw(1, HUNDRED), Overwrote(0, HUNDRED)];
    assert s.txs[0].writes[1 := 0] == map[1 := 0] && s.txs[1].writes[0 := 0] == map[0 := 0];
    var s1 := s.(txs := s.txs[0 := Mid(level, map[1 := 0], [Saw(0, HUNDRED), Overwrote(1, HUNDRED)])]);
    assert Step(s, Set(0, 1, 0)) == s1;
    Sets(s1, 1, 0, 0);
    t := Step(s1, Set(1, 0, 0));
    RunTwo(s, Set(0, 1, 0), Set(1, 0, 0));
  }

  lemma BothCommit(s: State) returns (t: State)
    requires IsActive(s, 0) && IsActive(s, 1)
    requires s.txs[0].writes == map[1 := 0] && s.txs[1].writes == map[0 := 0]
    ensures t == Run(s, [Commit(0), Commit(1)])
    ensures IsCommitted(t, 0) && IsCommitted(t, 1) && t.txs[0].log == s.txs[0].log && t.txs[1].log == s.txs[1].log
  {
    Commits(s, 0, 1, 0);
    var s1 := State(s.rows[1 := Version(0, By(0))], s.txs[0 := s.txs[0].(status := Committed)]);
    assert Step(s, Commit(0)) == s1;
    Commits(s1, 1, 0, 0);
    t := Step(s1, Commit(1));
    RunTwo(s, Commit(0), Commit(1));
  }

  lemma BothLevelsAllowSkew(level: Level) returns (values: map<Id, int>, run: seq<Action>)
    ensures AllAt(level, run) && Exhibits(WriteSkew, values, run)
  {
    values := map[0 := 100, 1 := 100];
    var first, second, last := [Read(0, 0), Read(1, 1)], [Set(0, 1, 0), Set(1, 0, 0)], [Commit(0), Commit(1)];
    run := Opening(level) + (first + (second + last));
    var s := Opened(values, level, first + (second + last));
    assert s.rows == Hundred();
    RunConcat(s, first, second + last);
    s := ReadsApart(s, level);
    RunConcat(s, second, last);
    s := WritesAcross(s, level);
    s := BothCommit(s);
    SkewIsSkew(s);
  }

  lemma SkewIsSkew(t: State)
    requires IsCommitted(t, 0) && IsCommitted(t, 1)
    requires t.txs[0].log == [Saw(0, HUNDRED), Overwrote(1, HUNDRED)]
    requires t.txs[1].log == [Saw(1, HUNDRED), Overwrote(0, HUNDRED)]
    ensures Skewed(t)
  {
    assert t.txs[0].log[0].Saw? && t.txs[1].log[1] == Overwrote(0, t.txs[0].log[0].version);
    assert t.txs[1].log[0].Saw? && t.txs[0].log[1] == Overwrote(1, t.txs[1].log[0].version);
    assert ReadsReplaced(t, 0, 1, 0) && ReadsReplaced(t, 1, 0, 1);
  }

  lemma {:induction false} RunConcat(s: State, first: seq<Action>, rest: seq<Action>)
    ensures Run(s, first + rest) == Run(Run(s, first), rest)
  {
    if rest == [] {
      assert first + rest == first;
    } else {
      RunConcat(s, first, rest[..|rest| - 1]);
      assert (first + rest)[..|first + rest| - 1] == first + rest[..|rest| - 1];
    }
  }

  /** Each cell of the two rows is true exactly when some run at that level shows the phenomenon. */
  lemma MatrixIsExact(level: Level, phenomenon: Phenomenon)
    requires !level.Serializable?
    ensures AnomalyPossible(level, phenomenon) <==>
      exists values, run :: AllAt(level, run) && Exhibits(phenomenon, values, run)
  {
    if AnomalyPossible(level, phenomenon) {
      var values, run;
      match phenomenon {
        case NonRepeatableRead => values, run := ReadCommittedReadsTwice();
        case PhantomRead => values, run := ReadCommittedSeesPhantoms();
        case LostUpdate => values, run := ReadCommittedLosesUpdates();
        case WriteSkew => values, run := BothLevelsAllowSkew(level);
      }
      assert AllAt(level, run) && Exhibits(phenomenon, values, run);
    } else {
      forall values, run | AllAt(level, run) ensures !Exhibits(phenomenon, values, run) {
        if level.RepeatableRead? { RepeatableReadIsFixed(values, run, phenomenon); } else { NoDirtyRead(values, run); }
      }
    }
  }
}
