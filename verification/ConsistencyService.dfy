/**
  Writes on the primary and reads on any node, in place, with other clients, replication and the
  clock at every await.  `Valid()`: the fields are what `history` produces.
 */
module ConsistencyService {
  import opened Consistency
  import opened Options
  import opened ReadGuarantees

  const POLL_INTERVAL: nat := 50

  datatype Client = Writer(w: Wid) | Reader(r: Rid) | Nobody

  function Actor(a: Action): Client {
    match a
    case StartWrite(w, _, _) => Writer(w)
    case ContinueWrite(w) => Writer(w)
    case FailWrite(w) => Writer(w)
    case StartRead(r, _, _, _, _) => Reader(r)
    case ContinueRead(r) => Reader(r)
    case _ => Nobody
  }

  predicate OthersOnly(run: seq<Action>, me: Client) {
    forall i :: 0 <= i < |run| ==> Actor(run[i]) != me
  }

  /** `me` is where it was, and time has not run backwards. */
  predicate SameFor(s: State, s': State, me: Client) {
    s.now <= s'.now && Grows(s, s') &&
    match me
    case Writer(w) => w in s.writers ==> w in s'.writers && s'.writers[w] == s.writers[w]
    case Reader(r) => r in s.readers ==> r in s'.readers && s'.readers[r] == s.readers[r]
    case Nobody => true
  }

  lemma OtherStepKeepsMyFrame(s: State, a: Action, me: Client)
    requires NodesOk(s) && Actor(a) != me
    ensures SameFor(s, Step(s, a), me)
  {
  }

  lemma {:induction false} OthersKeepMyFrame(s: State, run: seq<Action>, me: Client)
    requires Inv(s) && OthersOnly(run, me)
    ensures Inv(Run(s, run)) && SameFor(s, Run(s, run), me)
  {
    if run != [] {
      OthersKeepMyFrame(s, run[..|run| - 1], me);
      OtherStepKeepsMyFrame(Run(s, run[..|run| - 1]), run[|run| - 1], me);
      StepKeepsInv(Run(s, run[..|run| - 1]), run[|run| - 1]);
    }
  }

  lemma OneStep(s: State, a: Action)
    ensures Run(s, [a]) == Step(s, a)
  {
    assert [a][..0] == [];
  }

  /** An answer is as recent as everything that the node showed when the call began. */
  lemma FoundFromAllShown(run: seq<Action>, k: nat, me: Rid, x: Consistency.Read)
    requires k <= |run| && me !in Run(EMPTY, run[..k]).readers
    requires me in Run(EMPTY, run).readers && Run(EMPTY, run).readers[me] == x && x.pc.Answered?
    ensures forall low :: ShowsUpTo(Run(EMPTY, run[..k]), x.node, x.doc, low) ==>
      FoundBetween(Run(EMPTY, run).log, x.doc, x.pc.version, low, x.pc.nodeLsn, x.waitFor, x.pc.upToDate)
  {
    forall low | ShowsUpTo(Run(EMPTY, run[..k]), x.node, x.doc, low)
      ensures FoundBetween(Run(EMPTY, run).log, x.doc, x.pc.version, low, x.pc.nodeLsn, x.waitFor, x.pc.upToDate)
    {
      AnswersAreReal(run, k, me, x.node, x.doc, low, x);
    }
  }

  class ConsistencyService {
    var log: seq<Record>
    var replayed: map<Node, Lsn>
    var now: int
    var writers: map<Wid, Consistency.Write>
    var readers: map<Rid, Consistency.Read>
    const mayFail: bool                // whether the upsert or its commit can raise
    ghost var history: seq<Action>

    ghost function View(): State
      reads this
    {
      State(log, replayed, now, writers, readers)
    }

    ghost predicate Valid()
      reads this
    {
      View() == Run(EMPTY, history) && Inv(View())
    }

    constructor (mayFail: bool)
      ensures Valid() && history == [] && this.mayFail == mayFail
    {
      log, replayed, now, writers, readers := [], map[Replica1 := 0, Replica2 := 0], 0, map[], map[];
      this.mayFail, history := mayFail, [];
    }

    method Become(run: seq<Action>)
      requires Valid()
      modifies this
      ensures Valid() && history == old(history) + run && View() == Run(old(View()), run)
    {
      RunConcat(EMPTY, history, run);
      var s := Run(State(log, replayed, now, writers, readers), run);
      log, replayed, now, writers, readers := s.log, s.replayed, s.now, s.writers, s.readers;
      history := history + run;
      RunKeepsInv(history);
    }

    /** Others run while `me` waits; the awaited statement may raise (`!ok`). */
    method Await(me: Client) returns (ok: bool)
      requires Valid()
      modifies this
      ensures Valid() && old(history) <= history && OthersOnly(history[|old(history)|..], me)
      ensures SameFor(old(View()), View(), me)
      ensures !ok ==> mayFail
    {
      var run: seq<Action> := *;
      if !OthersOnly(run, me) { run := []; }
      OthersKeepMyFrame(View(), run, me);
      Become(run);
      ok := *;
      ok := ok || !mayFail;
    }

    /** The changes just made are the step `a`. */
    ghost method Take(a: Action)
      requires Inv(Run(EMPTY, history)) && Step(Run(EMPTY, history), a) == View()
      modifies `history
      ensures Valid() && history == old(history) + [a]
    {
      StepKeepsInv(Run(EMPTY, history), a);
      history := history + [a];
    }

    // -------------------------------------------------------------- write

    ghost predicate WriterAt(me: Wid, doc: Doc, content: Content, pc: WritePc)
      reads this
    {
      Valid() && me in writers && writers[me] == Consistency.Write(doc, content, pc) && WriteOk(View(), writers[me])
    }

    method MoveWriter(me: Wid, doc: Doc, content: Content, pc: WritePc, ghost a: Action)
      requires me in writers && writers[me].doc == doc && writers[me].content == content
      requires Inv(Run(EMPTY, history)) && Step(Run(EMPTY, history), a) == GotoW(View(), me, pc)
      modifies `writers, `history
      ensures WriterAt(me, doc, content, pc) && history == old(history) + [a]
    {
      writers := writers[me := Consistency.Write(doc, content, pc)];
      Take(a);
      assert WriteOk(View(), writers[me]);
    }

    /** INSERT ... ON CONFLICT DO UPDATE: waits for whoever holds the row, then holds it. */
    method Upsert(me: Wid, doc: Doc, content: Content) returns (ok: bool)
      requires WriterAt(me, doc, content, Arrived)
      modifies this
      ensures old(history) <= history && old(|log|) <= |log|
      ensures if ok then WriterAt(me, doc, content, Locked) else mayFail && WriterAt(me, doc, content, WriteFailed)
    {
      ok := Await(Writer(me));
      if !ok {
        MoveWriter(me, doc, content, WriteFailed, FailWrite(me));
        return;
      }
      if exists o :: o in writers && writers[o].doc == doc && Holds(writers[o].pc) {
        var o :| o in writers && writers[o].doc == doc && Holds(writers[o].pc);
        EndHolder(me, doc, content, o);
      }
      MoveWriter(me, doc, content, Locked, ContinueWrite(me));
    }

    /** The other writer of the row commits, or fails. */
    method EndHolder(me: Wid, doc: Doc, content: Content, o: Wid)
      requires WriterAt(me, doc, content, Arrived) && o in writers && writers[o].doc == doc && Holds(writers[o].pc)
      modifies this
      ensures old(history) <= history && log == old(log) && WriterAt(me, doc, content, Arrived) &&
        !RowIsLocked(View(), doc)
    {
      var a := if writers[o].pc.Locked? then FailWrite(o) else ContinueWrite(o);
      forall u | u in writers && u != o && writers[u].doc == doc ensures !Holds(writers[u].pc) {
        assert Apart(writers[u], writers[o]);
      }
      OneStep(View(), a);
      Become([a]);
      assert WriteOk(View(), writers[me]);
    }

    /** As `Await`, for a writer. */
    method AwaitWriter(me: Wid, doc: Doc, content: Content, pc: WritePc)
      requires WriterAt(me, doc, content, pc)
      modifies this
      ensures old(history) <= history && old(|log|) <= |log| && WriterAt(me, doc, content, pc)
    {
      var _ := Await(Writer(me));
      assert WriteOk(View(), writers[me]);
    }

    method LogCommit(me: Wid, doc: Doc, content: Content) returns (pos: Lsn)
      requires WriterAt(me, doc, content, Locked)
      modifies this
      ensures old(history) <= history && old(|log|) <= pos && WriterAt(me, doc, content, Logged(pos))
    {
      AwaitWriter(me, doc, content, Locked);
      pos := |log|;
      log := log + [Consistency.Upsert(doc, content)];
      MoveWriter(me, doc, content, Logged(pos), ContinueWrite(me));
    }

    /** Write the commit record, and show the commit once that is allowed. */
    method Commit(me: Wid, doc: Doc, content: Content) returns (pos: Lsn)
      requires WriterAt(me, doc, content, Locked)
      modifies this
      ensures old(history) <= history && WriterAt(me, doc, content, Shown(pos))
      ensures old(|log|) <= pos
    {
      pos := LogCommit(me, doc, content);
      AwaitWriter(me, doc, content, Logged(pos));
      MoveWriter(me, doc, content, Shown(pos), ContinueWrite(me));
    }

    /** The primary's position, asked for after the commit. */
    method CurrentLsn(me: Wid, doc: Doc, content: Content, pos: Lsn) returns (lsn: Lsn)
      requires WriterAt(me, doc, content, Shown(pos))
      modifies this
      ensures old(history) <= history && WriterAt(me, doc, content, Written(pos, lsn))
    {
      AwaitWriter(me, doc, content, Shown(pos));
      lsn := |log|;
      MoveWriter(me, doc, content, Written(pos, lsn), ContinueWrite(me));
    }

    /** The write is in the log, and the position that it returns is past it. */
    ghost predicate HasCommitted(me: Wid, doc: Doc, content: Content, lsn: Lsn, from: Lsn)
      reads this
    {
      me in writers && writers[me].pc.Written? && WriterAt(me, doc, content, Written(writers[me].pc.pos, lsn)) &&
      from <= writers[me].pc.pos < lsn <= |log| && log[writers[me].pc.pos] == Consistency.Upsert(doc, content)
    }

    /** Upsert in one transaction, then report the primary's position, which is past the commit. */
    method Write(me: Wid, doc: Doc, content: Content) returns (lsn: Option<Lsn>)
      requires Valid() && me !in writers
      modifies this
      ensures old(history) <= history
      ensures lsn.None? ==> mayFail && WriterAt(me, doc, content, WriteFailed)
      ensures lsn.Some? ==> HasCommitted(me, doc, content, lsn.value, old(|log|))
    {
      Open(me, doc, content);
      var ok := Upsert(me, doc, content);
      if !ok { return None; }
      var pos := Commit(me, doc, content);
      var end := CurrentLsn(me, doc, content, pos);
      return Some(end);
    }

    method Open(me: Wid, doc: Doc, content: Content)
      requires Valid() && me !in writers
      modifies this
      ensures old(history) <= history && log == old(log) && WriterAt(me, doc, content, Arrived)
    {
      writers := writers[me := Consistency.Write(doc, content, Arrived)];
      Take(StartWrite(me, doc, content));
      assert WriteOk(View(), writers[me]);
    }

    // -------------------------------------------------------------- read

    ghost predicate ReaderAt(me: Rid, x: Consistency.Read, pc: ReadPc)
      reads this
    {
      Valid() && me in readers && readers[me] == x.(pc := pc) && ReadOk(View(), readers[me], 0)
    }

    method MoveReader(me: Rid, x: Consistency.Read, pc: ReadPc, ghost a: Action)
      requires me in readers && readers[me].(pc := pc) == x.(pc := pc)
      requires Inv(Run(EMPTY, history)) && Step(Run(EMPTY, history), a) == GotoR(View(), me, pc)
      modifies `readers, `history
      ensures ReaderAt(me, x, pc) && history == old(history) + [a]
    {
      readers := readers[me := x.(pc := pc)];
      Take(a);
      assert ReadOk(View(), readers[me], 0);
    }

    /** As `Await`, for a reader. */
    method AwaitReader(me: Rid, x: Consistency.Read, pc: ReadPc)
      requires ReaderAt(me, x, pc)
      modifies this
      ensures old(history) <= history && old(now) <= now && ReaderAt(me, x, pc)
    {
      var _ := Await(Reader(me));
    }

    method Sleep(me: Rid, x: Consistency.Read, pc: ReadPc, duration: nat)
      requires ReaderAt(me, x, pc)
      modifies this
      ensures old(history) <= history && old(now) + duration <= now && ReaderAt(me, x, pc)
    {
      OneStep(View(), Tick(duration));
      Become([Tick(duration)]);
      assert ReadOk(View(), readers[me], 0);
    }

    /** One look at the replica, then at the clock. */
    method Poll(me: Rid, x: Consistency.Read, target: Lsn, deadline: int) returns (done: Option<bool>)
      requires ReaderAt(me, x, Polling(deadline)) && !x.node.Primary? && x.waitFor == Some(target)
      modifies this
      ensures old(history) <= history && old(now) <= now
      ensures done.None? ==> now < deadline && ReaderAt(me, x, Polling(deadline))
      ensures done.Some? ==> ReaderAt(me, x, Ready(done))
      ensures done == Some(true) ==> Position(View(), x.node) >= target
      ensures done == Some(false) ==> deadline <= now && Position(View(), x.node) < target
    {
      AwaitReader(me, x, Polling(deadline));
      if replayed[x.node] >= target {
        MoveReader(me, x, Ready(Some(true)), ContinueRead(me));
        return Some(true);
      }
      if now >= deadline {
        MoveReader(me, x, Ready(Some(false)), ContinueRead(me));
        return Some(false);
      }
      return None;
    }

    /** Poll the replica until it has replayed the target or the deadline has passed. */
    method WaitForLsn(me: Rid, x: Consistency.Read, target: Lsn, deadline: int) returns (reached: bool)
      requires ReaderAt(me, x, Polling(deadline)) && !x.node.Primary? && x.waitFor == Some(target)
      modifies this
      ensures old(history) <= history && old(now) <= now && ReaderAt(me, x, Ready(Some(reached)))
      ensures reached ==> Position(View(), x.node) >= target
      ensures !reached ==> deadline <= now && Position(View(), x.node) < target
    {
      while true
        invariant old(history) <= history && old(now) <= now && ReaderAt(me, x, Polling(deadline))
        decreases deadline - now
      {
        var done := Poll(me, x, target, deadline);
        if done.Some? { return done.value; }
        Sleep(me, x, Polling(deadline), POLL_INTERVAL);
      }
    }

    /** Nothing to wait for on the primary, or without a target. */
    method WaitIfAsked(me: Rid, x: Consistency.Read, deadline: int) returns (upToDate: Option<bool>)
      requires ReaderAt(me, x, Polling(deadline))
      modifies this
      ensures old(history) <= history && old(now) <= now && ReaderAt(me, x, Ready(upToDate))
      ensures upToDate.None? <==> x.node.Primary? || x.waitFor.None?
      ensures upToDate == Some(false) ==> deadline <= now
    {
      if x.waitFor.Some? && !x.node.Primary? {
        var reached := WaitForLsn(me, x, x.waitFor.value, deadline);
        return Some(reached);
      }
      MoveReader(me, x, Ready(None), ContinueRead(me));
      return None;
    }

    method Fetch(me: Rid, x: Consistency.Read, upToDate: Option<bool>) returns (version: Option<Lsn>)
      requires ReaderAt(me, x, Ready(upToDate))
      modifies this
      ensures old(history) <= history && old(now) <= now && ReaderAt(me, x, Fetched(upToDate, version))
    {
      AwaitReader(me, x, Ready(upToDate));
      version := Visible(State(log, replayed, now, writers, readers), x.node, x.doc);
      MoveReader(me, x, Fetched(upToDate, version), ContinueRead(me));
    }

    method NodeLsn(me: Rid, x: Consistency.Read, upToDate: Option<bool>, version: Option<Lsn>) returns (lsn: Lsn)
      requires ReaderAt(me, x, Fetched(upToDate, version))
      modifies this
      ensures old(history) <= history && old(now) <= now && ReaderAt(me, x, Answered(upToDate, version, lsn))
    {
      AwaitReader(me, x, Fetched(upToDate, version));
      lsn := if x.node.Primary? then |log| else replayed[x.node];
      MoveReader(me, x, Answered(upToDate, version, lsn), ContinueRead(me));
    }

    /** Wait if asked, get the document, and only then ask the node for its position. */
    method Read(me: Rid, node: Node, doc: Doc, waitFor: Option<Lsn>, timeout: int)
      returns (upToDate: Option<bool>, version: Option<Lsn>, nodeLsn: Lsn)
      requires Valid() && me !in readers
      modifies this
      ensures old(history) <= history
      ensures ReaderAt(me, Consistency.Read(node, doc, waitFor, Polling(old(now) + timeout)),
                       Answered(upToDate, version, nodeLsn))
      ensures upToDate.None? <==> node.Primary? || waitFor.None?
      ensures upToDate == Some(false) ==> old(now) + timeout <= now
      ensures forall low :: ShowsUpTo(old(View()), node, doc, low) ==>
        FoundBetween(log, doc, version, low, nodeLsn, waitFor, upToDate)
    {
      var x := Consistency.Read(node, doc, waitFor, Polling(now + timeout));
      OpenRead(me, x, timeout);
      upToDate := WaitIfAsked(me, x, x.pc.deadline);
      version := Fetch(me, x, upToDate);
      nodeLsn := NodeLsn(me, x, upToDate, version);
      assert history[..|old(history)|] == old(history);
      FoundFromAllShown(history, |old(history)|, me, readers[me]);
    }

    method OpenRead(me: Rid, x: Consistency.Read, timeout: int)
      requires Valid() && me !in readers && x.pc == Polling(now + timeout)
      modifies this
      ensures old(history) <= history && now == old(now) && ReaderAt(me, x, x.pc)
    {
      readers := readers[me := x];
      Take(StartRead(me, x.node, x.doc, x.waitFor, timeout));
      assert ReadOk(View(), readers[me], 0);
    }
  }
}
