/**
  Documents on a primary and two lagging replicas.  A position in the primary's log (LSN) is the
  number of records before it; a replica has replayed some prefix of the log.
 */
module Consistency {
  import opened Options

  type Doc = nat
  type Content = nat
  type Lsn = nat
  type Wid = nat
  type Rid = nat

  datatype Node = Primary | Replica1 | Replica2

  /** A log record: the commit of an upsert, or anything else. */
  datatype Record = Upsert(doc: Doc, content: Content) | Other

  datatype WritePc =
    | Arrived
    | Locked                         // the upsert has run and holds the row
    | Logged(pos: Lsn)               // the commit record is written; the primary does not show it yet
    | Shown(pos: Lsn)                // committed
    | Written(pos: Lsn, lsn: Lsn)    // has returned `lsn`
    | WriteFailed

  datatype Write = Write(doc: Doc, content: Content, pc: WritePc)

  /** `version` is the position of the commit record of what was found. */
  datatype ReadPc =
    | Polling(deadline: int)
    | Ready(upToDate: Option<bool>)
    | Fetched(upToDate: Option<bool>, version: Option<Lsn>)
    | Answered(upToDate: Option<bool>, version: Option<Lsn>, nodeLsn: Lsn)

  datatype Read = Read(node: Node, doc: Doc, waitFor: Option<Lsn>, pc: ReadPc)

  datatype State = State(log: seq<Record>, replayed: map<Node, Lsn>, now: int,
                         writers: map<Wid, Write>, readers: map<Rid, Read>)

  datatype Action =
    | StartWrite(w: Wid, doc: Doc, content: Content)
    | ContinueWrite(w: Wid)
    | FailWrite(w: Wid)
    | StartRead(r: Rid, node: Node, doc: Doc, waitFor: Option<Lsn>, timeout: int)
    | ContinueRead(r: Rid)
    | Replay(node: Node, upTo: Lsn)
    | Append                          // any other record
    | Tick(elapsed: nat)

  // ---------------------------------------------------------------- what a node shows

  /** The newest version of `doc` in `log` whose position is not in `hidden`. */
  function Latest(log: seq<Record>, doc: Doc, hidden: set<Lsn>): (v: Option<Lsn>) {
    if log == [] then None
    else if log[|log| - 1].Upsert? && log[|log| - 1].doc == doc && |log| - 1 !in hidden then Some(|log| - 1)
    else Latest(log[..|log| - 1], doc, hidden)
  }

  /** Commit records whose transactions have not ended yet. */
  function Hidden(s: State): set<Lsn> {
    set w | w in s.writers && s.writers[w].pc.Logged? :: s.writers[w].pc.pos
  }

  /** How far the node is. */
  function Position(s: State, node: Node): Lsn {
    if node in s.replayed then s.replayed[node] else |s.log|
  }

  function Visible(s: State, node: Node, doc: Doc): Option<Lsn> {
    if node in s.replayed && s.replayed[node] <= |s.log| then Latest(s.log[..s.replayed[node]], doc, {})
    else Latest(s.log, doc, Hidden(s))
  }

  // ---------------------------------------------------------------- steps

  predicate Holds(pc: WritePc) {
    pc.Locked? || pc.Logged?
  }

  predicate RowIsLocked(s: State, doc: Doc) {
    exists w :: w in s.writers && s.writers[w].doc == doc && Holds(s.writers[w].pc)
  }

  predicate IsShown(pc: WritePc) {
    pc.Shown? || pc.Written?
  }

  function GotoW(s: State, w: Wid, pc: WritePc): State
    requires w in s.writers
  {
    s.(writers := s.writers[w := s.writers[w].(pc := pc)])
  }

  function GotoR(s: State, r: Rid, pc: ReadPc): State
    requires r in s.readers
  {
    s.(readers := s.readers[r := s.readers[r].(pc := pc)])
  }

  function WriteStep(s: State, w: Wid): State
    requires w in s.writers
  {
    var x := s.writers[w];
    match x.pc
    case Arrived => if RowIsLocked(s, x.doc) then s else GotoW(s, w, Locked)
    case Locked => GotoW(s.(log := s.log + [Upsert(x.doc, x.content)]), w, Logged(|s.log|))
    case Logged(pos) => GotoW(s, w, Shown(pos))
    case Shown(pos) => GotoW(s, w, Written(pos, |s.log|))
    case _ => s
  }

  function PollStep(s: State, r: Rid): State
    requires r in s.readers && s.readers[r].pc.Polling?
  {
    var x := s.readers[r];
    if x.node.Primary? || x.waitFor.None? then GotoR(s, r, Ready(None))
    else if Position(s, x.node) >= x.waitFor.value then GotoR(s, r, Ready(Some(true)))
    else if s.now >= x.pc.deadline then GotoR(s, r, Ready(Some(false)))
    else s
  }

  function ReadStep(s: State, r: Rid): State
    requires r in s.readers
  {
    var x := s.readers[r];
    match x.pc
    case Polling(_) => PollStep(s, r)
    case Ready(u) => GotoR(s, r, Fetched(u, Visible(s, x.node, x.doc)))
    case Fetched(u, v) => GotoR(s, r, Answered(u, v, Position(s, x.node)))
    case Answered(_, _, _) => s
  }

  function Step(s: State, a: Action): State {
    match a
    case StartWrite(w, doc, content) =>
      if w in s.writers then s else s.(writers := s.writers[w := Write(doc, content, Arrived)])
    case ContinueWrite(w) => if w in s.writers then WriteStep(s, w) else s
    case FailWrite(w) =>
      if w in s.writers && (s.writers[w].pc.Arrived? || s.writers[w].pc.Locked?) then GotoW(s, w, WriteFailed) else s
    case StartRead(r, node, doc, waitFor, timeout) =>
      if r in s.readers then s else s.(readers := s.readers[r := Read(node, doc, waitFor, Polling(s.now + timeout))])
    case ContinueRead(r) => if r in s.readers then ReadStep(s, r) else s
    case Replay(node, upTo) =>
      if node in s.replayed && s.replayed[node] <= upTo <= |s.log| then s.(replayed := s.replayed[node := upTo]) else s
    case Append => s.(log := s.log + [Other])
    case Tick(d) => s.(now := s.now + d)
  }

  function Run(s: State, run: seq<Action>): State {
    if run == [] then s
    else Step(Run(s, run[..|run| - 1]), run[|run| - 1])
  }

  /** Both replicas have been set up from an empty primary. */
  const EMPTY := State([], map[Replica1 := 0, Replica2 := 0], 0, map[], map[])

  // ---------------------------------------------------------------- versions

  /** A version is an upsert of its document, it is not hidden, and it is the newest of those. */
  lemma {:induction false} LatestIsNewest(log: seq<Record>, doc: Doc, hidden: set<Lsn>)
    ensures var v := Latest(log, doc, hidden);
      (v.Some? ==> v.value < |log| && log[v.value].Upsert? && log[v.value].doc == doc && v.value !in hidden) &&
      forall p :: 0 <= p < |log| && log[p].Upsert? && log[p].doc == doc && p !in hidden ==> v.Some? && p <= v.value
  {
    if log != [] { LatestIsNewest(log[..|log| - 1], doc, hidden); }
  }

  /** Hiding only the newest version of a document shows the document as it was before. */
  lemma HidingTheNewest(log: seq<Record>, doc: Doc, hidden: set<Lsn>, p: Lsn)
    requires p < |log|
    requires forall q :: 0 <= q < p && log[q].Upsert? && log[q].doc == doc ==> q !in hidden
    requires forall q :: p <= q < |log| && log[q].Upsert? && log[q].doc == doc ==> q in hidden
    ensures Latest(log, doc, hidden) == Latest(log[..p], doc, {})
  {
    LatestIsNewest(log, doc, hidden);
    LatestIsNewest(log[..p], doc, {});
  }

  lemma HidingNothing(log: seq<Record>, doc: Doc, hidden: set<Lsn>)
    requires forall q :: 0 <= q < |log| && log[q].Upsert? && log[q].doc == doc ==> q !in hidden
    ensures Latest(log, doc, hidden) == Latest(log, doc, {})
  {
    LatestIsNewest(log, doc, hidden);
    LatestIsNewest(log, doc, {});
  }

  // ---------------------------------------------------------------- the invariant

  /** `version` is what the first `p` records say about `doc`. */
  predicate AsOf(log: seq<Record>, doc: Doc, version: Option<Lsn>, p: Lsn) {
    p <= |log| && version == Latest(log[..p], doc, {})
  }

  ghost predicate AsOfSome(log: seq<Record>, doc: Doc, version: Option<Lsn>, atLeast: Lsn, atMost: Lsn) {
    exists p :: atLeast <= p <= atMost && AsOf(log, doc, version, p)
  }

  predicate WriteOk(s: State, x: Write) {
    (x.pc.Logged? || x.pc.Shown? || x.pc.Written? ==>
      x.pc.pos < |s.log| && s.log[x.pc.pos] == Upsert(x.doc, x.content)) &&
    (x.pc.Written? ==> x.pc.pos < x.pc.lsn <= |s.log|)
  }

  predicate FlagOk(s: State, x: Read, upToDate: Option<bool>) {
    (upToDate.None? <==> x.node.Primary? || x.waitFor.None?) &&
    (upToDate == Some(true) ==> x.waitFor.value <= Position(s, x.node))
  }

  /** What a successful wait was for, or `low` where that is later. */
  function Wanted(x: Read, upToDate: Option<bool>, low: Lsn): Lsn {
    if upToDate == Some(true) && x.waitFor.Some? && low < x.waitFor.value then x.waitFor.value else low
  }

  /** What has been found is the document as of `low` or later, and as of no less than what was waited for. */
  ghost predicate ReadOk(s: State, x: Read, low: Lsn) {
    match x.pc
    case Polling(_) => true
    case Ready(u) => FlagOk(s, x, u)
    case Fetched(u, v) => FlagOk(s, x, u) && AsOfSome(s.log, x.doc, v, Wanted(x, u, low), Position(s, x.node))
    case Answered(u, v, lsn) =>
      FlagOk(s, x, u) && lsn <= Position(s, x.node) && AsOfSome(s.log, x.doc, v, Wanted(x, u, low), lsn)
  }

  /** The node has got to `low`, and no commit to `doc` before that is hidden. */
  predicate ShowsUpTo(s: State, node: Node, doc: Doc, low: Lsn) {
    low <= Position(s, node) &&
    (node.Primary? ==>
      forall w :: w in s.writers && s.writers[w].doc == doc && s.writers[w].pc.Logged? ==> low <= s.writers[w].pc.pos)
  }

  /** Two writers never hold the same row, and what one has committed is not hidden by the other. */
  predicate Apart(x: Write, y: Write) {
    (Holds(x.pc) && Holds(y.pc) ==> x.doc != y.doc) &&
    (x.pc.Logged? && IsShown(y.pc) ==> x.pc.pos != y.pc.pos)
  }

  /** Nobody else commits to the row until the writer's own commit is shown. */
  predicate Newest(log: seq<Record>, x: Write) {
    x.pc.Logged? ==> forall q :: x.pc.pos < q < |log| ==> !(log[q].Upsert? && log[q].doc == x.doc)
  }

  predicate RowsOk(s: State) {
    (forall w, o :: w in s.writers && o in s.writers && w != o ==> Apart(s.writers[w], s.writers[o])) &&
    forall w :: w in s.writers ==> Newest(s.log, s.writers[w])
  }

  predicate NodesOk(s: State) {
    s.replayed.Keys == {Replica1, Replica2} && forall n :: n in s.replayed ==> s.replayed[n] <= |s.log|
  }

  predicate WritersOk(s: State) {
    forall w :: w in s.writers ==> WriteOk(s, s.writers[w])
  }

  ghost predicate ReadersOk(s: State) {
    forall r :: r in s.readers ==> ReadOk(s, s.readers[r], 0)
  }

  ghost predicate Inv(s: State) {
    NodesOk(s) && WritersOk(s) && ReadersOk(s) && RowsOk(s)
  }

  // ---------------------------------------------------------------- every step keeps it

  /** The log grows, nodes move forward, and nothing else that reads depend on changes. */
  predicate Grows(s: State, s': State) {
    s.log <= s'.log && s'.replayed.Keys == s.replayed.Keys && forall n: Node :: Position(s, n) <= Position(s', n)
  }

  lemma ReadStaysOk(s: State, s': State, x: Read, low: Lsn)
    requires ReadOk(s, x, low) && Grows(s, s')
    ensures ReadOk(s', x, low)
  {
    match x.pc
    case Fetched(u, v) =>
      var p :| Wanted(x, u, low) <= p <= Position(s, x.node) && AsOf(s.log, x.doc, v, p);
      assert s'.log[..p] == s.log[..p];
      assert AsOf(s'.log, x.doc, v, p);
    case Answered(u, v, lsn) =>
      var p :| Wanted(x, u, low) <= p <= lsn && AsOf(s.log, x.doc, v, p);
      assert s'.log[..p] == s.log[..p];
      assert AsOf(s'.log, x.doc, v, p);
    case _ =>
  }

  /**
    Whatever node is asked, it shows the document as of some prefix of the log, from everything that
    it is known to show up to where it is.
   */
  lemma VisibleIsAPrefix(s: State, node: Node, doc: Doc, low: Lsn)
    requires Inv(s) && ShowsUpTo(s, node, doc, low)
    ensures AsOfSome(s.log, doc, Visible(s, node, doc), low, Position(s, node))
  {
    if node in s.replayed {
      assert AsOf(s.log, doc, Visible(s, node, doc), s.replayed[node]);
    } else if exists w :: w in s.writers && s.writers[w].doc == doc && s.writers[w].pc.Logged? {
      var w :| w in s.writers && s.writers[w].doc == doc && s.writers[w].pc.Logged?;
      assert WriteOk(s, s.writers[w]);
      forall q | 0 <= q < s.writers[w].pc.pos && s.log[q].Upsert? && s.log[q].doc == doc ensures q !in Hidden(s) {
        OnlyHeldRowsAreHidden(s, q, w);
      }
      assert s.writers[w].pc.pos in Hidden(s);
      HidingTheNewest(s.log, doc, Hidden(s), s.writers[w].pc.pos);
      assert AsOf(s.log, doc, Visible(s, node, doc), s.writers[w].pc.pos);
    } else {
      forall q | 0 <= q < |s.log| && s.log[q].Upsert? && s.log[q].doc == doc ensures q !in Hidden(s) {
        forall o | o in s.writers && s.writers[o].pc.Logged? ensures s.writers[o].pc.pos != q {
          assert WriteOk(s, s.writers[o]);
        }
      }
      HidingNothing(s.log, doc, Hidden(s));
      assert s.log[..|s.log|] == s.log;
      assert AsOf(s.log, doc, Visible(s, node, doc), |s.log|);
    }
  }

  lemma OnlyHeldRowsAreHidden(s: State, q: Lsn, w: Wid)
    requires Inv(s) && w in s.writers && s.writers[w].pc.Logged? && q < |s.log| && q < s.writers[w].pc.pos
    requires s.log[q].Upsert? && s.log[q].doc == s.writers[w].doc
    ensures q !in Hidden(s)
  {
    forall o | o in s.writers && s.writers[o].pc.Logged? ensures s.writers[o].pc.pos != q {
      assert WriteOk(s, s.writers[o]) && Newest(s.log, s.writers[o]);
    }
  }

  lemma OwnReadStaysOk(s: State, r: Rid, low: Lsn)
    requires Inv(s) && r in s.readers && ReadOk(s, s.readers[r], low)
    requires ShowsUpTo(s, s.readers[r].node, s.readers[r].doc, low)
    ensures ReadOk(ReadStep(s, r), ReadStep(s, r).readers[r], low)
  {
    var x := s.readers[r];
    if x.pc.Ready? {
      WaitedForIsShown(s, x, low);
      VisibleIsAPrefix(s, x.node, x.doc, Wanted(x, x.pc.upToDate, low));
    }
  }

  /** A replica that has been waited for shows what it was waited for. */
  lemma WaitedForIsShown(s: State, x: Read, low: Lsn)
    requires x.pc.Ready? && FlagOk(s, x, x.pc.upToDate) && ShowsUpTo(s, x.node, x.doc, low)
    ensures ShowsUpTo(s, x.node, x.doc, Wanted(x, x.pc.upToDate, low))
  {
  }

  /** Steps that leave the writers alone and commit nothing. */
  lemma WritersStayOk(s: State, s': State)
    requires WritersOk(s) && RowsOk(s) && s'.writers == s.writers
    requires s'.log == s.log || s'.log == s.log + [Other]
    ensures WritersOk(s') && RowsOk(s')
  {
    forall w | w in s'.writers ensures WriteOk(s', s'.writers[w]) && Newest(s'.log, s'.writers[w]) {
      assert WriteOk(s, s.writers[w]) && Newest(s.log, s.writers[w]);
    }
  }

  lemma ReadersStayOk(s: State, s': State)
    requires ReadersOk(s) && Grows(s, s') && s'.readers == s.readers
    ensures ReadersOk(s')
  {
    forall r | r in s'.readers ensures ReadOk(s', s'.readers[r], 0) { ReadStaysOk(s, s', s.readers[r], 0); }
  }

  lemma ReadKeepsInv(s: State, r: Rid)
    requires Inv(s) && r in s.readers
    ensures Inv(ReadStep(s, r))
  {
    var s' := ReadStep(s, r);
    assert ReadOk(s, s.readers[r], 0);
    OwnReadStaysOk(s, r, 0);
    WritersStayOk(s, s');
    forall o | o in s'.readers ensures ReadOk(s', s'.readers[o], 0) {
      if o != r { ReadStaysOk(s, s', s.readers[o], 0); }
    }
  }

  lemma WriteKeepsInv(s: State, w: Wid)
    requires Inv(s) && w in s.writers
    ensures Inv(WriteStep(s, w))
  {
    var s' := WriteStep(s, w);
    forall o | o in s'.writers ensures WriteOk(s', s'.writers[o]) { assert WriteOk(s, s.writers[o]); }
    ReadersStayOk(s, s');
    WriteKeepsRows(s, w);
  }

  lemma WriteKeepsRows(s: State, w: Wid)
    requires WritersOk(s) && RowsOk(s) && w in s.writers
    ensures RowsOk(WriteStep(s, w))
  {
    var s' := WriteStep(s, w);
    forall o | o in s.writers && o != w
      ensures Apart(s'.writers[w], s.writers[o]) && Apart(s.writers[o], s'.writers[w]) && Newest(s'.log, s.writers[o])
    {
      assert Apart(s.writers[w], s.writers[o]) && Apart(s.writers[o], s.writers[w]) && Newest(s.log, s.writers[o]);
      assert WriteOk(s, s.writers[o]) && WriteOk(s, s.writers[w]);
    }
    assert Newest(s.log, s.writers[w]);
  }

  lemma StepKeepsInv(s: State, a: Action)
    requires Inv(s)
    ensures Inv(Step(s, a))
  {
    match a
    case ContinueWrite(w) => if w in s.writers { WriteKeepsInv(s, w); }
    case ContinueRead(r) => if r in s.readers { ReadKeepsInv(s, r); }
    case StartWrite(_, _, _) => NewWriteKeepsInv(s, a);
    case FailWrite(_) => NewWriteKeepsInv(s, a);
    case StartRead(_, _, _, _, _) =>
      WritersStayOk(s, Step(s, a));
      forall o | o in Step(s, a).readers ensures ReadOk(Step(s, a), Step(s, a).readers[o], 0) {
        if o in s.readers { ReadStaysOk(s, Step(s, a), s.readers[o], 0); }
      }
    case _ =>
      WritersStayOk(s, Step(s, a));
      ReadersStayOk(s, Step(s, a));
  }

  /** A new or failed write has put nothing into the log. */
  lemma NewWriteKeepsInv(s: State, a: Action)
    requires Inv(s) && (a.StartWrite? || a.FailWrite?)
    ensures Inv(Step(s, a))
  {
    var s' := Step(s, a);
    NewWriteKeepsRows(s, a);
    ReadersStayOk(s, s');
  }

  lemma NewWriteKeepsRows(s: State, a: Action)
    requires WritersOk(s) && RowsOk(s) && (a.StartWrite? || a.FailWrite?)
    ensures WritersOk(Step(s, a)) && RowsOk(Step(s, a))
  {
    var s' := Step(s, a);
    forall o | o in s'.writers ensures WriteOk(s', s'.writers[o]) && Newest(s'.log, s'.writers[o]) {
      if o in s.writers { assert WriteOk(s, s.writers[o]) && Newest(s.log, s.writers[o]); }
    }
    forall o, u | o in s'.writers && u in s'.writers && o != u ensures Apart(s'.writers[o], s'.writers[u]) {
      if o in s.writers && u in s.writers { assert Apart(s.writers[o], s.writers[u]); }
    }
  }

  lemma {:induction false} RunKeepsInv(run: seq<Action>)
    ensures Inv(Run(EMPTY, run))
  {
    if run != [] {
      RunKeepsInv(run[..|run| - 1]);
      StepKeepsInv(Run(EMPTY, run[..|run| - 1]), run[|run| - 1]);
    }
  }

  lemma {:induction false} RunConcat(s: State, first: seq<Action>, rest: seq<Action>)
    ensures Run(s, first + rest) == Run(Run(s, first), rest)
  {
    if rest == [] {
      assert first + rest == first;
    } else {
      RunConcat(s, first, rest[..|rest| - 1]);
      assert (first + rest)[..|first + rest| - 1] == first + rest[..|rest| - 1];
    }
  }
}
