/**
  The in-memory key store: entries expire, expired entries are dropped when they are looked up,
  set-if-absent and token-checked release serve as a lease.  An expiring map that never drops
  anything by itself is the reference.
 */
module MemoryCache {
  import opened Options

  type Key = nat
  type Value = nat

  datatype Entry = Entry(value: Value, expires: int)

  type Store = map<Key, Entry>

  datatype Op =
    | Get(key: Key)
    | Set(key: Key, value: Value, ttl: Option<nat>)
    | SetNx(key: Key, value: Value, ttl: Option<nat>)
    | Delete(key: Key)
    | Release(key: Key, token: Value)

  datatype Answer = Nothing | Found(value: Value) | Stored(ok: bool) | Removed(count: nat) | Unsupported

  /** `enabled`: the in-memory store may stand in for the server. */
  datatype Config = Config(enabled: bool, defaultTtl: nat)

  /** An operation, with the clock as it reads it first and last. */
  datatype Event = Event(now: int, stamp: int, op: Op)

  // ---------------------------------------------------------------- the store as it is

  predicate IsLive(s: Store, key: Key, now: int) {
    key in s && s[key].expires >= now
  }

  /** A time to live of zero counts as none given. */
  function Ttl(c: Config, ttl: Option<nat>): nat {
    if ttl.Some? && ttl.value != 0 then ttl.value else c.defaultTtl
  }

  function Step(c: Config, s: Store, e: Event): (r: (Store, Answer)) {
    match e.op
    case Get(k) =>
      if !c.enabled then (s, Nothing)
      else if !IsLive(s, k, e.now) then (s - {k}, Nothing)
      else (s, Found(s[k].value))
    case Set(k, v, ttl) =>
      if !c.enabled then (s, Nothing) else (s[k := Entry(v, e.stamp + Ttl(c, ttl))], Nothing)
    case SetNx(k, v, ttl) =>
      if !c.enabled || IsLive(s, k, e.now) then (s, Stored(false))
      else (s[k := Entry(v, e.stamp + Ttl(c, ttl))], Stored(true))
    case Delete(k) => (s - {k}, Nothing)
    case Release(k, token) =>
      if !c.enabled then (s, Unsupported)
      else if k in s && s[k].value == token then (s - {k}, Removed(1))
      else (s, Removed(0))
  }

  function Run(c: Config, run: seq<Event>): Store {
    if run == [] then map[] else Step(c, Run(c, run[..|run| - 1]), run[|run| - 1]).0
  }

  function AnswerAt(c: Config, run: seq<Event>, i: nat): Answer
    requires i < |run|
  {
    Step(c, Run(c, run[..i]), run[i]).1
  }

  /** The clock does not run backwards. */
  predicate Timely(run: seq<Event>) {
    (forall i :: 0 <= i < |run| ==> run[i].now <= run[i].stamp) &&
    (forall i, j :: 0 <= i < j < |run| ==> run[i].stamp <= run[j].now)
  }

  // ---------------------------------------------------------------- the reference

  /** What is stored lasts this long from the moment it is stored. */
  predicate LastsFor(c: Config, ttl: Option<nat>, duration: nat) {
    if ttl.None? || ttl == Some(0) then duration == c.defaultTtl else duration == ttl.value
  }

  function Duration(c: Config, ttl: Option<nat>): (d: nat)
    ensures LastsFor(c, ttl, d)
  {
    match ttl
    case None => c.defaultTtl
    case Some(n) => if n > 0 then n else c.defaultTtl
  }

  /** Reads change nothing, and only a live entry can be found, kept in place or released. */
  function RefStep(c: Config, s: Store, e: Event): (r: (Store, Answer)) {
    match e.op
    case Get(k) => (s, if c.enabled && IsLive(s, k, e.now) then Found(s[k].value) else Nothing)
    case Set(k, v, ttl) => (if c.enabled then s[k := Entry(v, e.stamp + Duration(c, ttl))] else s, Nothing)
    case SetNx(k, v, ttl) =>
      if c.enabled && !IsLive(s, k, e.now) then (s[k := Entry(v, e.stamp + Duration(c, ttl))], Stored(true))
      else (s, Stored(false))
    case Delete(k) => (map j | j in s && j != k :: s[j], Nothing)
    case Release(k, token) =>
      if !c.enabled then (s, Unsupported)
      else if IsLive(s, k, e.now) && s[k].value == token then (s - {k}, Removed(1))
      else (s, Removed(0))
  }

  function RefRun(c: Config, run: seq<Event>): Store {
    if run == [] then map[] else RefStep(c, RefRun(c, run[..|run| - 1]), run[|run| - 1]).0
  }

  function RefAnswerAt(c: Config, run: seq<Event>, i: nat): Answer
    requires i < |run|
  {
    RefStep(c, RefRun(c, run[..i]), run[i]).1
  }

  /** From `now` on the two stores cannot be told apart. */
  ghost predicate LookAlike(s: Store, ref: Store, now: int) {
    forall k :: IsLive(s, k, now) || IsLive(ref, k, now) ==> (k in s && k in ref && s[k] == ref[k])
  }

  lemma WriteKeepsAlike(c: Config, s: Store, ref: Store, e: Event)
    requires LookAlike(s, ref, e.now) && e.now <= e.stamp && (e.op.Set? || e.op.SetNx?)
    ensures LookAlike(Step(c, s, e).0, RefStep(c, ref, e).0, e.stamp)
  {
  }

  lemma StepKeepsAlike(c: Config, s: Store, ref: Store, e: Event)
    requires LookAlike(s, ref, e.now) && e.now <= e.stamp
    ensures LookAlike(Step(c, s, e).0, RefStep(c, ref, e).0, e.stamp)
  {
    match e.op
    case Get(_) =>
    case Delete(_) =>
    case Release(_, _) =>
    case _ => WriteKeepsAlike(c, s, ref, e);
  }

  lemma {:induction false} RunKeepsAlike(c: Config, run: seq<Event>, now: int)
    requires Timely(run) && (run != [] ==> run[|run| - 1].stamp <= now)
    ensures LookAlike(Run(c, run), RefRun(c, run), now)
  {
    if run != [] {
      var e := run[|run| - 1];
      RunKeepsAlike(c, run[..|run| - 1], e.now);
      StepKeepsAlike(c, Run(c, run[..|run| - 1]), RefRun(c, run[..|run| - 1]), e);
    }
  }

  /** The release found its own token in an entry that had already expired. */
  predicate ReleasesLate(c: Config, run: seq<Event>, i: nat)
    requires i < |run|
  {
    var s, e := Run(c, run[..i]), run[i];
    c.enabled && e.op.Release? && e.op.key in s && s[e.op.key].value == e.op.token && !IsLive(s, e.op.key, e.now)
  }

  /**
    Over every sequence of operations the store answers as the reference does, although it drops
    expired entries on reads and releases; it differs exactly in the count of a late release.
   */
  lemma LazyExpiryIsInvisible(c: Config, run: seq<Event>, i: nat)
    requires Timely(run) && i < |run|
    ensures AnswerAt(c, run, i) == RefAnswerAt(c, run, i) <==> !ReleasesLate(c, run, i)
    ensures ReleasesLate(c, run, i) ==> AnswerAt(c, run, i) == Removed(1) && RefAnswerAt(c, run, i) == Removed(0)
  {
    RunKeepsAlike(c, run[..i], run[i].now);
  }

  // ---------------------------------------------------------------- what the answers mean

  /** Operation `i` stores `value` under `key` until the instant `until`. */
  predicate StoresAt(c: Config, run: seq<Event>, i: nat, key: Key, value: Value, until: int)
    requires i < |run|
  {
    c.enabled && run[i].stamp <= until &&
    match run[i].op
    case Set(k, v, ttl) => k == key && v == value && LastsFor(c, ttl, until - run[i].stamp)
    case SetNx(k, v, ttl) =>
      k == key && v == value && LastsFor(c, ttl, until - run[i].stamp) && AnswerAt(c, run, i) == Stored(true)
    case _ => false
  }

  /** Operation `i` writes the key anew, deletes it, or releases the value `value`. */
  predicate Replaces(c: Config, run: seq<Event>, i: nat, key: Key, value: Value)
    requires i < |run|
  {
    match run[i].op
    case Get(_) => false
    case Set(k, _, _) => c.enabled && k == key
    case SetNx(k, _, _) => k == key && AnswerAt(c, run, i) == Stored(true)
    case Delete(k) => k == key
    case Release(k, token) => c.enabled && k == key && token == value
  }

  /** Operation `i` has stored `value` under `key` for longer than `now`, and nothing has replaced it since. */
  predicate LastsFrom(c: Config, run: seq<Event>, i: nat, key: Key, value: Value, until: int) {
    i < |run| && StoresAt(c, run, i, key, value, until) &&
    forall j :: i < j < |run| ==> !Replaces(c, run, j, key, value)
  }

  /** By the history alone, `key` has the value `value` at `now`. */
  ghost predicate Has(c: Config, run: seq<Event>, key: Key, value: Value, now: int) {
    exists i: nat, until :: LastsFrom(c, run, i, key, value, until) && now <= until
  }

  lemma AnswersOfFront(c: Config, run: seq<Event>, i: nat)
    requires run != [] && i < |run| - 1
    ensures AnswerAt(c, run, i) == AnswerAt(c, run[..|run| - 1], i)
  {
    assert run[..|run| - 1][..i] == run[..i];
  }

  lemma LastsInFront(c: Config, run: seq<Event>, i: nat, key: Key, value: Value, until: int)
    requires run != [] && i < |run| - 1
    ensures LastsFrom(c, run, i, key, value, until) <==>
      LastsFrom(c, run[..|run| - 1], i, key, value, until) && !Replaces(c, run, |run| - 1, key, value)
  {
    var front := run[..|run| - 1];
    AnswersOfFront(c, run, i);
    forall j | i < j < |front| ensures Replaces(c, run, j, key, value) == Replaces(c, front, j, key, value) {
      AnswersOfFront(c, run, j);
    }
  }

  /** `key` is live with `value` until `until`. */
  predicate Holds(s: Store, key: Key, value: Value, until: int) {
    key in s && s[key] == Entry(value, until)
  }

  /** The last operation `n` does not store `value`: the key keeps it unless it is replaced. */
  lemma KeepsUnlessReplaced(c: Config, run: seq<Event>, n: nat, key: Key, value: Value, until: int)
    requires n == |run| - 1 && run[n].now <= until
    requires forall u :: !StoresAt(c, run, n, key, value, u)
    ensures Holds(Run(c, run), key, value, until) <==>
      Holds(Run(c, run[..n]), key, value, until) && !Replaces(c, run, n, key, value)
  {
    var e, s := run[n], Run(c, run[..n]);
    assert AnswerAt(c, run, n) == Step(c, s, e).1;
    match e.op
    case Set(k, v, ttl) => assert !StoresAt(c, run, n, key, value, e.stamp + Duration(c, ttl));
    case SetNx(k, v, ttl) => assert !StoresAt(c, run, n, key, value, e.stamp + Duration(c, ttl));
    case _ =>
  }

  lemma StoresNow(c: Config, run: seq<Event>, n: nat, key: Key, value: Value, until: int)
    requires n == |run| - 1 && StoresAt(c, run, n, key, value, until)
    ensures Holds(Run(c, run), key, value, until) && Replaces(c, run, n, key, value)
  {
    var e, s := run[n], Run(c, run[..n]);
    assert AnswerAt(c, run, n) == Step(c, s, e).1;
  }

  lemma StoresOneDeadline(c: Config, run: seq<Event>, n: nat, key: Key, value: Value, until: int, u: int)
    requires n < |run| && StoresAt(c, run, n, key, value, until) && StoresAt(c, run, n, key, value, u)
    ensures until == u
  {
  }

  /** As long as an entry is live, it is in the store exactly when some operation has stored it to stay. */
  lemma {:induction false} HeldMeansStored(c: Config, run: seq<Event>, key: Key, value: Value, until: int, now: int)
    requires Timely(run) && (run != [] ==> run[|run| - 1].stamp <= now) && now <= until
    ensures Holds(Run(c, run), key, value, until) <==> exists i: nat :: LastsFrom(c, run, i, key, value, until)
  {
    if run != [] {
      var n := |run| - 1;
      var front := run[..n];
      HeldMeansStored(c, front, key, value, until, run[n].now);
      if u :| StoresAt(c, run, n, key, value, u) {
        StoresNow(c, run, n, key, value, u);
        if StoresAt(c, run, n, key, value, until) {
          StoresOneDeadline(c, run, n, key, value, until, u);
          assert LastsFrom(c, run, n, key, value, until);
        }
      } else {
        KeepsUnlessReplaced(c, run, n, key, value, until);
        LastsAcross(c, run, n, key, value, until);
      }
    }
  }

  lemma LastsAcross(c: Config, run: seq<Event>, n: nat, key: Key, value: Value, until: int)
    requires n == |run| - 1 && !StoresAt(c, run, n, key, value, until)
    ensures (exists i: nat :: LastsFrom(c, run, i, key, value, until)) <==>
      (exists i: nat :: LastsFrom(c, run[..n], i, key, value, until)) && !Replaces(c, run, n, key, value)
  {
    forall i: nat | LastsFrom(c, run, i, key, value, until)
      ensures LastsFrom(c, run[..n], i, key, value, until) && !Replaces(c, run, n, key, value)
    {
      assert i != n;
      LastsInFront(c, run, i, key, value, until);
    }
    forall i: nat | LastsFrom(c, run[..n], i, key, value, until) && !Replaces(c, run, n, key, value)
      ensures LastsFrom(c, run, i, key, value, until)
    {
      LastsInFront(c, run, i, key, value, until);
    }
  }

  /** A key is live with a value exactly when the history gives it that value. */
  lemma LiveMeansHas(c: Config, run: seq<Event>, key: Key, value: Value, now: int)
    requires Timely(run) && (run != [] ==> run[|run| - 1].stamp <= now)
    ensures IsLive(Run(c, run), key, now) && Run(c, run)[key].value == value <==> Has(c, run, key, value, now)
  {
    var s := Run(c, run);
    if IsLive(s, key, now) && s[key].value == value {
      HeldMeansStored(c, run, key, value, s[key].expires, now);
      var i: nat :| LastsFrom(c, run, i, key, value, s[key].expires);
    }
    if Has(c, run, key, value, now) {
      var i: nat, until :| LastsFrom(c, run, i, key, value, until) && now <= until;
      HeldMeansStored(c, run, key, value, until, now);
    }
  }

  lemma DisabledIsEmpty(c: Config, run: seq<Event>)
    requires !c.enabled
    ensures Run(c, run) == map[]
  {
  }

  /**
    Over every sequence of operations a read finds `v` exactly when the last write of the key stored
    `v`, nothing has deleted or released it since, and its own time to live has not run out.
   */
  lemma GetFindsTheLastWrite(c: Config, run: seq<Event>, i: nat, v: Value)
    requires Timely(run) && i < |run| && run[i].op.Get?
    ensures AnswerAt(c, run, i) == Found(v) <==> Has(c, run[..i], run[i].op.key, v, run[i].now)
    ensures AnswerAt(c, run, i).Found? || AnswerAt(c, run, i).Nothing?
  {
    LiveMeansHas(c, run[..i], run[i].op.key, v, run[i].now);
    if !c.enabled { DisabledIsEmpty(c, run[..i]); }
  }

  /** Set-if-absent succeeds exactly when the history gives the key no value at that instant. */
  lemma SetNxNeedsAFreeKey(c: Config, run: seq<Event>, i: nat)
    requires Timely(run) && i < |run| && run[i].op.SetNx?
    ensures AnswerAt(c, run, i) == Stored(c.enabled && forall v :: !Has(c, run[..i], run[i].op.key, v, run[i].now))
  {
    var s, key, now := Run(c, run[..i]), run[i].op.key, run[i].now;
    forall v ensures Has(c, run[..i], key, v, now) <==> IsLive(s, key, now) && s[key].value == v {
      LiveMeansHas(c, run[..i], key, v, now);
    }
    assert IsLive(s, key, now) ==> Has(c, run[..i], key, s[key].value, now);
  }

  // ---------------------------------------------------------------- the lease

  /** The operation takes `key` away from whoever wrote `value` there, or writes it again. */
  predicate Touches(op: Op, key: Key, value: Value) {
    match op
    case Get(_) => false
    case Set(k, _, _) => k == key
    case SetNx(_, _, _) => false
    case Delete(k) => k == key
    case Release(k, token) => k == key && token == value
  }

  /**
    What a successful set-if-absent stored stays until it expires, unless it is deleted, set
    or released by its own token.
   */
  lemma {:induction false} LeaseLasts(c: Config, run: seq<Event>, i: nat, now: int)
    requires Timely(run) && i < |run| && run[|run| - 1].stamp <= now
    requires run[i].op.SetNx? && AnswerAt(c, run, i) == Stored(true)
    requires now <= run[i].stamp + Ttl(c, run[i].op.ttl)
    requires forall j :: i < j < |run| ==> !Touches(run[j].op, run[i].op.key, run[i].op.value)
    ensures var e := run[i];
      e.op.key in Run(c, run) && Run(c, run)[e.op.key] == Entry(e.op.value, e.stamp + Ttl(c, e.op.ttl))
  {
    if i < |run| - 1 {
      var front := run[..|run| - 1];
      assert front[..i] == run[..i];
      LeaseLasts(c, front, i, run[|run| - 1].now);
    }
  }

  /** Two grants of one lease: the first had run out, or its key was deleted, set or released by its holder. */
  lemma GrantsDoNotOverlap(c: Config, run: seq<Event>, i: nat, j: nat)
    requires Timely(run) && i < j < |run| && run[i].op.SetNx? && run[j].op.SetNx? && run[i].op.key == run[j].op.key
    requires AnswerAt(c, run, i) == Stored(true) && AnswerAt(c, run, j) == Stored(true)
    ensures run[i].stamp + Ttl(c, run[i].op.ttl) < run[j].now ||
      exists m :: i < m < j && Touches(run[m].op, run[i].op.key, run[i].op.value)
  {
    if run[j].now <= run[i].stamp + Ttl(c, run[i].op.ttl) &&
       forall m :: i < m < j ==> !Touches(run[m].op, run[i].op.key, run[i].op.value) {
      assert run[..j][..i] == run[..i];
      LeaseLasts(c, run[..j], i, run[j].now);
    }
  }

  // ---------------------------------------------------------------- the store in place

  class AsyncCache {
    const config: Config
    var memoryStore: Store

    constructor (config: Config)
      ensures this.config == config && memoryStore == map[]
    {
      this.config, memoryStore := config, map[];
    }

    method Get(key: Key, now: int) returns (r: Option<Value>)
      modifies this
      ensures (memoryStore, if r.Some? then Found(r.value) else Nothing) ==
        Step(config, old(memoryStore), Event(now, now, Op.Get(key)))
    {
      if !config.enabled { return None; }
      if key !in memoryStore || memoryStore[key].expires < now {
        memoryStore := memoryStore - {key};
        return None;
      }
      return Some(memoryStore[key].value);
    }

    method Set(key: Key, value: Value, ttl: Option<nat>, now: int)
      modifies this
      ensures (memoryStore, Nothing) == Step(config, old(memoryStore), Event(now, now, Op.Set(key, value, ttl)))
    {
      var lifetime := if ttl.None? || ttl.value == 0 then config.defaultTtl else ttl.value;
      if !config.enabled { return; }
      memoryStore := memoryStore[key := Entry(value, now + lifetime)];
    }

    method Delete(key: Key, now: int)
      modifies this
      ensures (memoryStore, Nothing) == Step(config, old(memoryStore), Event(now, now, Op.Delete(key)))
    {
      memoryStore := memoryStore - {key};
    }

    method SetNx(key: Key, value: Value, ttl: Option<nat>, now: int, stamp: int) returns (ok: bool)
      requires now <= stamp
      modifies this
      ensures (memoryStore, Stored(ok)) == Step(config, old(memoryStore), Event(now, stamp, Op.SetNx(key, value, ttl)))
    {
      var lifetime := if ttl.None? || ttl.value == 0 then config.defaultTtl else ttl.value;
      if !config.enabled { return false; }
      if key in memoryStore && memoryStore[key].expires >= now { return false; }
      memoryStore := memoryStore[key := Entry(value, stamp + lifetime)];
      return true;
    }

    /** The lock release script, the only one that the in-memory store knows. */
    method Eval(key: Key, token: Value, now: int) returns (r: Option<nat>)
      modifies this
      ensures (memoryStore, if r.Some? then Removed(r.value) else Unsupported) ==
        Step(config, old(memoryStore), Event(now, now, Release(key, token)))
    {
      if !config.enabled { return None; }
      if key in memoryStore && memoryStore[key].value == token {
        memoryStore := memoryStore - {key};
        return Some(1);
      }
      return Some(0);
    }
  }
}
