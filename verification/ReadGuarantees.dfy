/**
  What positions in the log buy a reader: its own writes, no going back, and real values only.
 */
module ReadGuarantees {
  import opened Consistency
  import opened Options

  /** Later prefixes of the log show a document no older. */
  lemma LatestGrows(log: seq<Record>, doc: Doc, p: Lsn, q: Lsn)
    requires p <= q <= |log|
    ensures var v, v' := Latest(log[..p], doc, {}), Latest(log[..q], doc, {});
      v.Some? ==> v'.Some? && v.value <= v'.value
  {
    LatestIsNewest(log[..p], doc, {});
    LatestIsNewest(log[..q], doc, {});
  }

  /** The read has been answered, with this flag and this version. */
  predicate HasRead(s: State, r: Rid, doc: Doc, waitFor: Option<Lsn>, flag: Option<bool>, version: Option<Lsn>) {
    r in s.readers && s.readers[r].doc == doc && s.readers[r].waitFor == waitFor &&
    s.readers[r].pc.Answered? && s.readers[r].pc.upToDate == flag && s.readers[r].pc.version == version
  }

  /** The write has returned, having committed at `pos`. */
  predicate HasWritten(s: State, w: Wid, doc: Doc, pos: Lsn, lsn: Lsn) {
    w in s.writers && s.writers[w].doc == doc && s.writers[w].pc == Written(pos, lsn)
  }

  /** Waiting for the position that a write returned, with success, shows that write or a later one. */
  lemma ReadYourWrites(run: seq<Action>, w: Wid, pos: Lsn, lsn: Lsn, r: Rid, doc: Doc, target: Lsn,
                       version: Option<Lsn>)
    requires var s := Run(EMPTY, run);
      HasWritten(s, w, doc, pos, lsn) && lsn <= target && HasRead(s, r, doc, Some(target), Some(true), version)
    ensures var s := Run(EMPTY, run);
      version.Some? && pos <= version.value < |s.log| &&
      s.log[version.value].Upsert? && s.log[version.value].doc == doc &&
      (version.value == pos ==> s.log[version.value].content == s.writers[w].content)
  {
    RunKeepsInv(run);
    var s := Run(EMPTY, run);
    assert WriteOk(s, s.writers[w]) && ReadOk(s, s.readers[r], 0);
    var p :| target <= p <= s.readers[r].pc.nodeLsn && AsOf(s.log, doc, version, p);
    LatestIsNewest(s.log[..p], doc, {});
    assert s.log[..p][pos] == s.log[pos];
    assert s.log[..p][version.value] == s.log[version.value];
  }

  /** Passing on the position that came with a read never leads back to an older version, on whichever replica. */
  lemma MonotonicReads(run: seq<Action>, first: Rid, second: Rid, doc: Doc, wait1: Option<Lsn>, flag1: Option<bool>,
                       v1: Option<Lsn>, target: Lsn, v2: Option<Lsn>)
    requires var s := Run(EMPTY, run);
      HasRead(s, first, doc, wait1, flag1, v1) && s.readers[first].pc.nodeLsn <= target &&
      HasRead(s, second, doc, Some(target), Some(true), v2)
    ensures v1.Some? ==> v2.Some? && v1.value <= v2.value
  {
    RunKeepsInv(run);
    var s := Run(EMPTY, run);
    var x, y := s.readers[first], s.readers[second];
    assert ReadOk(s, x, 0) && ReadOk(s, y, 0);
    var p :| Wanted(x, flag1, 0) <= p <= x.pc.nodeLsn && AsOf(s.log, doc, v1, p);
    var q :| target <= q <= y.pc.nodeLsn && AsOf(s.log, doc, v2, q);
    LatestGrows(s.log, doc, p, q);
  }

  // ---------------------------------------------------------------- how recent an answer is

  /** What a node shows it goes on showing. */
  lemma StepStillShows(s: State, a: Action, node: Node, doc: Doc, low: Lsn)
    requires Inv(s) && ShowsUpTo(s, node, doc, low)
    ensures ShowsUpTo(Step(s, a), node, doc, low)
  {
  }

  /** Reads of `doc` on `node` by `r` have found it as of `low` or later. */
  ghost predicate FoundFrom(s: State, r: Rid, node: Node, doc: Doc, low: Lsn) {
    r in s.readers && s.readers[r].node == node && s.readers[r].doc == doc ==> ReadOk(s, s.readers[r], low)
  }

  lemma StepFindsFrom(s: State, a: Action, r: Rid, node: Node, doc: Doc, low: Lsn)
    requires Inv(s) && ShowsUpTo(s, node, doc, low) && FoundFrom(s, r, node, doc, low)
    ensures FoundFrom(Step(s, a), r, node, doc, low)
  {
    if r in s.readers && s.readers[r].node == node && s.readers[r].doc == doc {
      if a == ContinueRead(r) {
        OwnReadStaysOk(s, r, low);
      } else {
        StepGrows(s, a);
        ReadStaysOk(s, Step(s, a), s.readers[r], low);
      }
    }
  }

  lemma StepGrows(s: State, a: Action)
    requires Inv(s)
    ensures Grows(s, Step(s, a))
  {
  }

  lemma {:induction false} RunFindsFrom(run: seq<Action>, k: nat, r: Rid, node: Node, doc: Doc, low: Lsn)
    requires k <= |run| && r !in Run(EMPTY, run[..k]).readers && ShowsUpTo(Run(EMPTY, run[..k]), node, doc, low)
    ensures ShowsUpTo(Run(EMPTY, run), node, doc, low) && FoundFrom(Run(EMPTY, run), r, node, doc, low)
  {
    if k == |run| {
      assert run[..k] == run;
    } else {
      var front := run[..|run| - 1];
      assert front[..k] == run[..k];
      RunFindsFrom(front, k, r, node, doc, low);
      RunKeepsInv(front);
      StepStillShows(Run(EMPTY, front), run[|run| - 1], node, doc, low);
      StepFindsFrom(Run(EMPTY, front), run[|run| - 1], r, node, doc, low);
    }
  }

  /**
    `version` is the document as of a prefix of the log between `low` and `high`, which has in it
    what was waited for with success.
   */
  ghost predicate FoundBetween(log: seq<Record>, doc: Doc, version: Option<Lsn>, low: Lsn, high: Lsn,
                               wait: Option<Lsn>, flag: Option<bool>) {
    exists p :: low <= p <= high && AsOf(log, doc, version, p) &&
      (flag == Some(true) ==> wait.Some? && wait.value <= p)
  }

  lemma OkReadsAreFound(s: State, x: Read, low: Lsn)
    requires ReadOk(s, x, low) && x.pc.Answered?
    ensures FoundBetween(s.log, x.doc, x.pc.version, low, x.pc.nodeLsn, x.waitFor, x.pc.upToDate)
    ensures x.pc.upToDate.Some? <==> !x.node.Primary? && x.waitFor.Some?
  {
    var p :| Wanted(x, x.pc.upToDate, low) <= p <= x.pc.nodeLsn && AsOf(s.log, x.doc, x.pc.version, p);
  }

  /**
    Every answer, from any node, is the document as of some prefix of the log.  The prefix reaches at
    least to whatever the node showed when the call began, and to the position that was waited for
    with success; it reaches at most to the position that comes with the answer.  The flag is set
    exactly on a replica that was asked to wait.
   */
  lemma AnswersAreReal(run: seq<Action>, k: nat, r: Rid, node: Node, doc: Doc, low: Lsn, x: Read)
    requires k <= |run| && r !in Run(EMPTY, run[..k]).readers && ShowsUpTo(Run(EMPTY, run[..k]), node, doc, low)
    requires r in Run(EMPTY, run).readers && Run(EMPTY, run).readers[r] == x
    requires x.node == node && x.doc == doc && x.pc.Answered?
    ensures FoundBetween(Run(EMPTY, run).log, doc, x.pc.version, low, x.pc.nodeLsn, x.waitFor, x.pc.upToDate)
    ensures x.pc.upToDate.Some? <==> !node.Primary? && x.waitFor.Some?
  {
    RunFindsFrom(run, k, r, node, doc, low);
    OkReadsAreFound(Run(EMPTY, run), x, low);
  }

  /** A replica answers as of no earlier position than the one that it had replayed when the call began. */
  lemma ReplicaReadsAreRecent(run: seq<Action>, k: nat, r: Rid, node: Node, doc: Doc, x: Read)
    requires k <= |run| && r !in Run(EMPTY, run[..k]).readers && !node.Primary?
    requires r in Run(EMPTY, run).readers && Run(EMPTY, run).readers[r] == x
    requires x.node == node && x.doc == doc && x.pc.Answered?
    ensures var was := Run(EMPTY, run[..k]).replayed;
      node in was &&
      FoundBetween(Run(EMPTY, run).log, doc, x.pc.version, was[node], x.pc.nodeLsn, x.waitFor, x.pc.upToDate)
  {
    RunKeepsInv(run[..k]);
    AnswersAreReal(run, k, r, node, doc, Run(EMPTY, run[..k]).replayed[node], x);
  }

  /** On the primary a call that begins while no commit to the document is hidden finds it as of then or later. */
  lemma PrimaryReadsAreRecent(run: seq<Action>, k: nat, r: Rid, doc: Doc, x: Read)
    requires k <= |run| && r !in Run(EMPTY, run[..k]).readers
    requires forall w :: w in Run(EMPTY, run[..k]).writers && Run(EMPTY, run[..k]).writers[w].doc == doc ==>
      !Run(EMPTY, run[..k]).writers[w].pc.Logged?
    requires r in Run(EMPTY, run).readers && Run(EMPTY, run).readers[r] == x
    requires x.node.Primary? && x.doc == doc && x.pc.Answered?
    ensures AsOfSome(Run(EMPTY, run).log, doc, x.pc.version, |Run(EMPTY, run[..k]).log|, x.pc.nodeLsn)
  {
    RunKeepsInv(run[..k]);
    AnswersAreReal(run, k, r, Primary, doc, |Run(EMPTY, run[..k]).log|, x);
  }

  // ---------------------------------------------------------------- the primary

  /** Every acknowledged write is visible on the primary, even while later commits are still hidden. */
  lemma PrimaryShowsAcknowledged(s: State, w: Wid)
    requires Inv(s) && w in s.writers && IsShown(s.writers[w].pc)
    ensures var v := Visible(s, Primary, s.writers[w].doc); v.Some? && s.writers[w].pc.pos <= v.value
  {
    var x := s.writers[w];
    assert WriteOk(s, x);
    forall o | o in s.writers && s.writers[o].pc.Logged? ensures s.writers[o].pc.pos != x.pc.pos {
      assert Apart(s.writers[o], x);
    }
    assert x.pc.pos !in Hidden(s);
    LatestIsNewest(s.log, x.doc, Hidden(s));
  }

  /** The reader has not looked yet, or has found version `pos` or a newer one. */
  predicate Behind(s: State, r: Rid, pos: Lsn) {
    r in s.readers && (s.readers[r].pc.Fetched? || s.readers[r].pc.Answered?) ==>
      s.readers[r].pc.version.Some? && pos <= s.readers[r].pc.version.value
  }

  /** The write is committed at `pos`. */
  predicate Committed(s: State, w: Wid, doc: Doc, pos: Lsn) {
    w in s.writers && s.writers[w].doc == doc && IsShown(s.writers[w].pc) && s.writers[w].pc.pos == pos
  }

  lemma CommitsStay(s: State, a: Action, w: Wid, doc: Doc, pos: Lsn)
    requires Committed(s, w, doc, pos)
    ensures Committed(Step(s, a), w, doc, pos)
  {
  }

  lemma StepStaysBehind(s: State, a: Action, w: Wid, doc: Doc, pos: Lsn, r: Rid)
    requires Inv(s) && Committed(s, w, doc, pos) && Behind(s, r, pos)
    requires r in s.readers ==> s.readers[r].node.Primary? && s.readers[r].doc == doc
    ensures Behind(Step(s, a), r, pos)
  {
    if a == ContinueRead(r) && r in s.readers {
      PrimaryShowsAcknowledged(s, w);
      assert Step(s, a) == ReadStep(s, r);
    }
  }

  lemma ReadersKeepTheirQuestion(s: State, a: Action, r: Rid)
    requires r in s.readers
    ensures r in Step(s, a).readers && Step(s, a).readers[r].node == s.readers[r].node &&
      Step(s, a).readers[r].doc == s.readers[r].doc
  {
  }

  lemma {:induction false} RunStaysBehind(run: seq<Action>, k: nat, w: Wid, doc: Doc, pos: Lsn, r: Rid)
    requires k <= |run| && Committed(Run(EMPTY, run[..k]), w, doc, pos) && r !in Run(EMPTY, run[..k]).readers
    requires var s := Run(EMPTY, run); r in s.readers ==> s.readers[r].node.Primary? && s.readers[r].doc == doc
    ensures Committed(Run(EMPTY, run), w, doc, pos) && Behind(Run(EMPTY, run), r, pos)
  {
    if k == |run| {
      assert run[..k] == run;
    } else {
      var front := run[..|run| - 1];
      assert front[..k] == run[..k];
      if r in Run(EMPTY, front).readers { ReadersKeepTheirQuestion(Run(EMPTY, front), run[|run| - 1], r); }
      RunStaysBehind(front, k, w, doc, pos, r);
      RunKeepsInv(front);
      StepStaysBehind(Run(EMPTY, front), run[|run| - 1], w, doc, pos, r);
      CommitsStay(Run(EMPTY, front), run[|run| - 1], w, doc, pos);
    }
  }

  /** A read on the primary that starts after a write was acknowledged finds that write or a later one. */
  lemma PrimaryReadsAreStrong(run: seq<Action>, k: nat, w: Wid, pos: Lsn, r: Rid, doc: Doc, wait: Option<Lsn>,
                              flag: Option<bool>, version: Option<Lsn>)
    requires k <= |run| && Committed(Run(EMPTY, run[..k]), w, doc, pos) && r !in Run(EMPTY, run[..k]).readers
    requires HasRead(Run(EMPTY, run), r, doc, wait, flag, version) && Run(EMPTY, run).readers[r].node.Primary?
    ensures version.Some? && pos <= version.value && flag.None?
  {
    RunStaysBehind(run, k, w, doc, pos, r);
    RunKeepsInv(run);
    assert ReadOk(Run(EMPTY, run), Run(EMPTY, run).readers[r], 0);
  }

  // ---------------------------------------------------------------- why the position is taken after the commit

  lemma WritePutsLater(s: State, w: Wid, low: Lsn)
    requires w in s.writers && low <= |s.log|
    requires s.writers[w].pc.Logged? || IsShown(s.writers[w].pc) ==> low <= s.writers[w].pc.pos
    ensures var x := WriteStep(s, w).writers[w]; x.pc.Logged? || IsShown(x.pc) ==> low <= x.pc.pos
  {
  }

  lemma StepPutsLater(s: State, a: Action, w: Wid, low: Lsn)
    requires w in s.writers && low <= |s.log|
    requires s.writers[w].pc.Logged? || IsShown(s.writers[w].pc) ==> low <= s.writers[w].pc.pos
    ensures var s' := Step(s, a);
      w in s'.writers && low <= |s'.log| && s'.writers[w].doc == s.writers[w].doc &&
      (s'.writers[w].pc.Logged? || IsShown(s'.writers[w].pc) ==> low <= s'.writers[w].pc.pos)
  {
    if a == ContinueWrite(w) { WritePutsLater(s, w, low); }
  }

  lemma {:induction false} RunPutsLater(run: seq<Action>, k: nat, w: Wid)
    requires k <= |run| && w in Run(EMPTY, run[..k]).writers
    requires var pc := Run(EMPTY, run[..k]).writers[w].pc; pc.Arrived? || pc.Locked?
    ensures var s, s' := Run(EMPTY, run[..k]), Run(EMPTY, run);
      w in s'.writers && |s.log| <= |s'.log| && s'.writers[w].doc == s.writers[w].doc &&
      (s'.writers[w].pc.Logged? || IsShown(s'.writers[w].pc) ==> |s.log| <= s'.writers[w].pc.pos)
  {
    if k == |run| {
      assert run[..k] == run;
    } else {
      var front := run[..|run| - 1];
      assert front[..k] == run[..k];
      RunPutsLater(front, k, w);
      RunKeepsInv(front);
      StepPutsLater(Run(EMPTY, front), run[|run| - 1], w, |Run(EMPTY, run[..k]).log|);
    }
  }

  /**
    A position taken before the commit record is too early: a replica that stands there does not
    show the write, although the primary has acknowledged it.
   */
  lemma EarlyPositionMissesTheWrite(run: seq<Action>, k: nat, w: Wid, doc: Doc, pos: Lsn, node: Node)
    requires k <= |run| && w in Run(EMPTY, run[..k]).writers && Run(EMPTY, run[..k]).writers[w].pc.Locked?
    requires Committed(Run(EMPTY, run), w, doc, pos)
    requires !node.Primary? && Position(Run(EMPTY, run), node) == |Run(EMPTY, run[..k]).log|
    ensures var s := Run(EMPTY, run);
      (Visible(s, node, doc).Some? ==> Visible(s, node, doc).value != pos) &&
      Visible(s, Primary, doc).Some? && pos <= Visible(s, Primary, doc).value
  {
    RunPutsLater(run, k, w);
    RunKeepsInv(run);
    var s := Run(EMPTY, run);
    LatestIsNewest(s.log[..Position(s, node)], doc, {});
    PrimaryShowsAcknowledged(s, w);
  }

  lemma OneMore(s: State, run: seq<Action>, a: Action)
    ensures Run(s, run + [a]) == Step(Run(s, run), a)
  {
    assert (run + [a])[..|run|] == run;
  }

  lemma AcknowledgedAtEarly(s: State, w: Wid, node: Node) returns (more: seq<Action>)
    requires Inv(s) && w in s.writers && s.writers[w].pc.Locked? && !node.Primary?
    ensures var t := Run(s, more);
      Committed(t, w, s.writers[w].doc, |s.log|) && t.readers == s.readers && s.log <= t.log &&
      node in t.replayed && t.replayed[node] == |s.log|
  {
    var x := s.writers[w];
    OneMore(s, [], Replay(node, |s.log|));
    more := [] + [Replay(node, |s.log|)];
    var s1 := Run(s, more);
    assert s1 == s.(replayed := s.replayed[node := |s.log|]);
    OneMore(s, more, ContinueWrite(w));
    more := more + [ContinueWrite(w)];
    var s2 := Run(s, more);
    assert s2 == GotoW(s1.(log := s.log + [Upsert(x.doc, x.content)]), w, Logged(|s.log|));
    OneMore(s, more, ContinueWrite(w));
    more := more + [ContinueWrite(w)];
    assert Run(s, more) == GotoW(s2, w, Shown(|s.log|));
  }

  /** A read on a replica that has replayed the target already. */
  lemma ReadsAtTarget(s: State, r: Rid, node: Node, doc: Doc) returns (more: seq<Action>)
    requires r !in s.readers && node in s.replayed && s.replayed[node] <= |s.log| && !node.Primary?
    ensures var t := Run(s, more);
      t.writers == s.writers &&
      HasRead(t, r, doc, Some(s.replayed[node]), Some(true), Latest(s.log[..s.replayed[node]], doc, {}))
  {
    var target := s.replayed[node];
    var version := Latest(s.log[..target], doc, {});
    var start := StartRead(r, node, doc, Some(target), 0);
    OneMore(s, [], start);
    more := [] + [start];
    var s1 := Run(s, more);
    OneMore(s, more, ContinueRead(r));
    more := more + [ContinueRead(r)];
    assert Run(s, more) == GotoR(s1, r, Ready(Some(true)));
    OneMore(s, more, ContinueRead(r));
    more := more + [ContinueRead(r)];
    assert Run(s, more) == GotoR(s1, r, Fetched(Some(true), version));
    OneMore(s, more, ContinueRead(r));
    more := more + [ContinueRead(r)];
    assert Run(s, more) == GotoR(s1, r, Answered(Some(true), version, target));
  }

  /**
    So it can happen after every run that has brought a write as far as its commit: the commit is
    acknowledged, a replica then answers a read that had waited for the early position, says that it
    is up to date, and does not have the write.
   */
  lemma EarlyPositionsCanMissTheWrite(run: seq<Action>, w: Wid, r: Rid, node: Node)
      returns (more: seq<Action>, version: Option<Lsn>)
    requires var s := Run(EMPTY, run);
      w in s.writers && s.writers[w].pc.Locked? && r !in s.readers && !node.Primary?
    ensures var s, t := Run(EMPTY, run), Run(Run(EMPTY, run), more);
      Committed(t, w, s.writers[w].doc, |s.log|) &&
      HasRead(t, r, s.writers[w].doc, Some(|s.log|), Some(true), version) &&
      (version.Some? ==> version.value < |s.log|)
  {
    RunKeepsInv(run);
    var s := Run(EMPTY, run);
    var doc := s.writers[w].doc;
    var first := AcknowledgedAtEarly(s, w, node);
    var t := Run(s, first);
    var second := ReadsAtTarget(t, r, node, doc);
    RunConcat(s, first, second);
    more, version := first + second, Latest(t.log[..|s.log|], doc, {});
    LatestIsNewest(t.log[..|s.log|], doc, {});
  }
}
