/**
 The caching compiler: one mutex per cache key, found or created under a read-write lock, so that
 concurrent requests for a key compile it once.

 Compiling and storing may fail, a request may be dropped at any await, and the cache may hold
 entries from earlier runs.  `reliable` says that reading an entry that is there succeeds; the code
 treats a failed read as a miss.
 */
module CachedCompiler {
  import opened Common

  datatype Phase<O> =
    | Start
    | MissedRead              // the key had no mutex when looked up under the read lock
    | AwaitMutex(mutex: nat)
    | Looking(mutex: nat)     // holds the mutex, reading the cache
    | Compiling(mutex: nat)
    | Storing(mutex: nat, output: O)
    | Written(mutex: nat, output: O)
    | CompilingLinked         // deployed libraries given: neither lock nor cache
    | Succeeded(result: O)
    | Failed

  datatype Request<K, O> = Request(key: K, linked: bool, phase: Phase<O>)

  datatype State<!K, O> = State(
    requests: seq<Request<K, O>>, locks: map<K, nat>, mutexes: nat, holders: map<nat, nat>,
    cache: map<K, O>, stored: seq<(K, O)>)

  datatype Action<O> =
    | ReadLockMap(i: nat) | WriteLockMap(i: nat) | SkipCache(i: nat) | Lock(i: nat)
    | LookUp(i: nat, hit: bool) | Compiled(i: nat, output: Option<O>) | Write(i: nat) | WriteFailed(i: nat)
    | Return(i: nat) | Drop(i: nat)

  predicate Holds<O>(p: Phase<O>) { p.Looking? || p.Compiling? || p.Storing? || p.Written? }

  // Between the miss and the moment the output is in the cache.
  predicate Producing<O>(p: Phase<O>) { p.Compiling? || p.Storing? }

  predicate Enabled<K, O>(reliable: bool, s: State<K, O>, a: Action<O>) {
    && a.i < |s.requests|
    && var r := s.requests[a.i];
       match a
       case ReadLockMap(_) => r.phase.Start? && !r.linked
       case WriteLockMap(_) => r.phase.MissedRead?
       case SkipCache(_) => r.phase.Start? && r.linked
       case Lock(_) => r.phase.AwaitMutex? && r.phase.mutex !in s.holders
       case LookUp(_, hit) => r.phase.Looking? && if hit then r.key in s.cache else r.key !in s.cache || !reliable
       case Compiled(_, _) => r.phase.Compiling? || r.phase.CompilingLinked?
       case Write(_) => r.phase.Storing?
       case WriteFailed(_) => r.phase.Storing?
       case Return(_) => r.phase.Written?
       case Drop(_) => !r.phase.Succeeded? && !r.phase.Failed?
  }

  function Move<K, O>(s: State<K, O>, i: nat, p: Phase<O>): State<K, O>
    requires i < |s.requests|
  {
    s.(requests := s.requests[i := s.requests[i].(phase := p)])
  }

  // The request ends and drops the guard of its mutex if it holds one.
  function End<K, O>(s: State<K, O>, i: nat, p: Phase<O>): State<K, O>
    requires i < |s.requests|
  {
    var before := s.requests[i].phase;
    Move(s, i, p).(holders := if Holds(before) then s.holders - {before.mutex} else s.holders)
  }

  function Apply<K(==), O>(reliable: bool, s: State<K, O>, a: Action<O>): State<K, O>
    requires Enabled(reliable, s, a)
  {
    var i, r := a.i, s.requests[a.i];
    match a
    case ReadLockMap(_) => Move(s, i, if r.key in s.locks then AwaitMutex(s.locks[r.key]) else MissedRead)
    case WriteLockMap(_) =>
      if r.key in s.locks then Move(s, i, AwaitMutex(s.locks[r.key]))
      else Move(s, i, AwaitMutex(s.mutexes)).(locks := s.locks[r.key := s.mutexes], mutexes := s.mutexes + 1)
    case SkipCache(_) => Move(s, i, CompilingLinked)
    case Lock(_) => Move(s, i, Looking(r.phase.mutex)).(holders := s.holders[r.phase.mutex := i])
    case LookUp(_, hit) => if hit then End(s, i, Succeeded(s.cache[r.key])) else Move(s, i, Compiling(r.phase.mutex))
    case Compiled(_, output) =>
      (match output
       case None => End(s, i, Failed)
       case Some(o) => if r.linked || r.phase.CompilingLinked? then End(s, i, Succeeded(o))
                       else Move(s, i, Storing(r.phase.mutex, o)))
    case Write(_) =>
      Move(s, i, Written(r.phase.mutex, r.phase.output)).(
        cache := s.cache[r.key := r.phase.output], stored := s.stored + [(r.key, r.phase.output)])
    case WriteFailed(_) => End(s, i, Failed)
    case Return(_) => End(s, i, Succeeded(r.phase.output))
    case Drop(_) => End(s, i, Failed)
  }

  predicate Legal<K(==), O>(reliable: bool, s: State<K, O>, run: seq<Action<O>>)
    decreases |run|
  {
    run == [] || (Enabled(reliable, s, run[0]) && Legal(reliable, Apply(reliable, s, run[0]), run[1..]))
  }

  function Exec<K(==), O>(reliable: bool, s: State<K, O>, run: seq<Action<O>>): State<K, O>
    requires Legal(reliable, s, run)
    decreases |run|
  {
    if run == [] then s else Exec(reliable, Apply(reliable, s, run[0]), run[1..])
  }

  // All requests at their start, no mutex yet; the cache is whatever is on disk.
  ghost predicate Initial<K, O>(s: State<K, O>) {
    && s.locks == map[] && s.mutexes == 0 && s.holders == map[] && s.stored == []
    && forall r | r in s.requests :: r.phase.Start?
  }

  // ---------------------------------------------------------------- invariants

  // A request past the lock map knows the mutex of its key; one in a holding phase holds it.
  ghost predicate RequestOk<K, O>(locks: map<K, nat>, holders: map<nat, nat>, i: nat, r: Request<K, O>) {
    && (r.phase.AwaitMutex? || Holds(r.phase) ==> r.key in locks && locks[r.key] == r.phase.mutex)
    && (Holds(r.phase) ==> r.phase.mutex in holders && holders[r.phase.mutex] == i)
    && (r.linked ==> r.phase.Start? || r.phase.CompilingLinked? || r.phase.Succeeded? || r.phase.Failed?)
    && (r.phase.CompilingLinked? ==> r.linked)
  }

  // Mutexes of different keys differ, and a held mutex is held by a request in a holding phase.
  ghost predicate LocksOk<K, O>(s: State<K, O>) {
    && (forall k | k in s.locks :: s.locks[k] < s.mutexes)
    && (forall k, k' | k in s.locks && k' in s.locks && k != k' :: s.locks[k] != s.locks[k'])
    && (forall i: nat | i < |s.requests| :: RequestOk(s.locks, s.holders, i, s.requests[i]))
    && (forall m | m in s.holders :: HeldBy(s, m, s.holders[m]))
  }

  ghost predicate HeldBy<K, O>(s: State<K, O>, m: nat, i: nat) {
    i < |s.requests| && Holds(s.requests[i].phase) && s.requests[i].phase.mutex == m
  }

  // Every action changes the phase of its own request only.
  lemma OwnRequestOnly<K, O>(reliable: bool, s: State<K, O>, a: Action<O>)
    requires Enabled(reliable, s, a)
    ensures
      var s' := Apply(reliable, s, a);
      var r, r' := s.requests[a.i], s'.requests[a.i];
      s'.requests == s.requests[a.i := r'] && r'.key == r.key && r'.linked == r.linked
  {
  }

  // At most one mutex is added, for the request's key.
  lemma OwnMutexOnly<K, O>(reliable: bool, s: State<K, O>, a: Action<O>)
    requires Enabled(reliable, s, a)
    ensures
      var s' := Apply(reliable, s, a);
      var k := s.requests[a.i].key;
      || (s'.locks == s.locks && s'.mutexes == s.mutexes)
      || (k !in s.locks && s'.locks == s.locks[k := s.mutexes] && s'.mutexes == s.mutexes + 1)
  {
  }

  // A request takes or gives back at most its own mutex, and no other request's.
  lemma OwnHoldOnly<K, O>(reliable: bool, s: State<K, O>, a: Action<O>)
    requires Enabled(reliable, s, a)
    ensures
      var s' := Apply(reliable, s, a);
      var r, r' := s.requests[a.i], s'.requests[a.i];
      && s'.holders == (if Holds(r'.phase) && !Holds(r.phase) then s.holders[r'.phase.mutex := a.i]
                        else if Holds(r.phase) && !Holds(r'.phase) then s.holders - {r.phase.mutex} else s.holders)
  {
  }

  // A mutex is taken when nobody holds it, and not changed for another.
  lemma FreeMutexOnly<K, O>(reliable: bool, s: State<K, O>, a: Action<O>)
    requires Enabled(reliable, s, a)
    ensures
      var r, r' := s.requests[a.i], Apply(reliable, s, a).requests[a.i];
      && (Holds(r'.phase) && !Holds(r.phase) ==> r'.phase.mutex !in s.holders)
      && (Holds(r'.phase) && Holds(r.phase) ==> r'.phase.mutex == r.phase.mutex)
  {
  }

  lemma OwnRequestOk<K, O>(reliable: bool, s: State<K, O>, a: Action<O>)
    requires Enabled(reliable, s, a) && RequestOk(s.locks, s.holders, a.i, s.requests[a.i])
    ensures var s' := Apply(reliable, s, a); RequestOk(s'.locks, s'.holders, a.i, s'.requests[a.i])
  {
  }

  lemma StepShape<K, O>(reliable: bool, s: State<K, O>, a: Action<O>)
    requires LocksOk(s) && Enabled(reliable, s, a)
    ensures
      var s' := Apply(reliable, s, a);
      var r, r' := s.requests[a.i], s'.requests[a.i];
      && s'.requests == s.requests[a.i := r'] && r'.key == r.key && r'.linked == r.linked
      && (s'.locks == s.locks || (r.key !in s.locks && s'.locks == s.locks[r.key := s.mutexes] && s'.mutexes == s.mutexes + 1))
      && (s'.locks == s.locks ==> s'.mutexes == s.mutexes)
      && RequestOk(s'.locks, s'.holders, a.i, r')
      && s'.holders == (if Holds(r'.phase) then s.holders[r'.phase.mutex := a.i]
                        else if Holds(r.phase) then s.holders - {r.phase.mutex} else s.holders)
      && (Holds(r'.phase) && !Holds(r.phase) ==> r'.phase.mutex !in s.holders)
      && (Holds(r'.phase) && Holds(r.phase) ==> r'.phase.mutex == r.phase.mutex)
  {
    assert RequestOk(s.locks, s.holders, a.i, s.requests[a.i]);
    OwnRequestOnly(reliable, s, a);
    OwnMutexOnly(reliable, s, a);
    OwnHoldOnly(reliable, s, a);
    FreeMutexOnly(reliable, s, a);
    OwnRequestOk(reliable, s, a);
  }

  lemma StepKeepsRequests<K, O>(reliable: bool, s: State<K, O>, a: Action<O>, j: nat)
    requires LocksOk(s) && Enabled(reliable, s, a) && j < |s.requests|
    ensures var s' := Apply(reliable, s, a);
            |s'.requests| == |s.requests| && RequestOk(s'.locks, s'.holders, j, s'.requests[j])
  {
    StepShape(reliable, s, a);
    var r := s.requests[a.i];
    assert RequestOk(s.locks, s.holders, a.i, r) && RequestOk(s.locks, s.holders, j, s.requests[j]);
  }

  lemma StepKeepsHeld<K, O>(reliable: bool, s: State<K, O>, a: Action<O>, m: nat)
    requires LocksOk(s) && Enabled(reliable, s, a) && m in Apply(reliable, s, a).holders
    ensures HeldBy(Apply(reliable, s, a), m, Apply(reliable, s, a).holders[m])
  {
    StepShape(reliable, s, a);
    assert RequestOk(s.locks, s.holders, a.i, s.requests[a.i]);
    if m in s.holders {
      assert HeldBy(s, m, s.holders[m]);
    }
  }

  lemma StepKeepsLocks<K, O>(reliable: bool, s: State<K, O>, a: Action<O>)
    requires LocksOk(s) && Enabled(reliable, s, a)
    ensures LocksOk(Apply(reliable, s, a))
    ensures forall k | k in s.locks :: k in Apply(reliable, s, a).locks && Apply(reliable, s, a).locks[k] == s.locks[k]
  {
    StepShape(reliable, s, a);
    var s' := Apply(reliable, s, a);
    forall j: nat | j < |s'.requests| ensures RequestOk(s'.locks, s'.holders, j, s'.requests[j]) {
      StepKeepsRequests(reliable, s, a, j);
    }
    forall m | m in s'.holders ensures HeldBy(s', m, s'.holders[m]) {
      StepKeepsHeld(reliable, s, a, m);
    }
  }

  lemma {:induction false} RunKeepsLocks<K, O>(reliable: bool, s: State<K, O>, run: seq<Action<O>>)
    requires LocksOk(s) && Legal(reliable, s, run)
    ensures LocksOk(Exec(reliable, s, run))
    ensures forall k | k in s.locks ::
              k in Exec(reliable, s, run).locks && Exec(reliable, s, run).locks[k] == s.locks[k]
    decreases |run|
  {
    if run != [] {
      StepKeepsLocks(reliable, s, run[0]);
      RunKeepsLocks(reliable, Apply(reliable, s, run[0]), run[1..]);
    }
  }

  // ---------------------------------------------------------------- main results

  /** A key keeps its mutex for ever, different keys never share one, and at most one request for a
      key is past its mutex, hence compiling, at any time. */
  lemma OneMutexOneCompilation<K, O>(reliable: bool, s: State<K, O>, run: seq<Action<O>>, later: seq<Action<O>>, k: K)
    requires Initial(s) && Legal(reliable, s, run) && Legal(reliable, Exec(reliable, s, run), later)
    ensures
      var t := Exec(reliable, s, run);
      var u := Exec(reliable, t, later);
      && (k in t.locks ==> k in u.locks && u.locks[k] == t.locks[k])
      && (forall k' | k in u.locks && k' in u.locks && k' != k :: u.locks[k] != u.locks[k'])
      && (forall i: nat, j: nat | i < |u.requests| && j < |u.requests| && u.requests[i].key == u.requests[j].key == k ::
            (Holds(u.requests[i].phase) && Holds(u.requests[j].phase)) ==> i == j)
  {
    RunKeepsLocks(reliable, s, run);
    RunKeepsLocks(reliable, Exec(reliable, s, run), later);
    var u := Exec(reliable, Exec(reliable, s, run), later);
    forall i: nat | i < |u.requests| ensures RequestOk(u.locks, u.holders, i, u.requests[i]) {
    }
  }

  // ---------------------------------------------------------------- storing a key once

  /** At step `a` of the run request `i` misses its key `k` although it is in the cache. */
  ghost predicate StaleMiss<K, O>(reliable: bool, s: State<K, O>, run: seq<Action<O>>, a: nat, i: nat, k: K) {
    && a < |run| && run[a] == LookUp(i, false)
    && i < |s.requests| && s.requests[i].key == k
    && Legal(reliable, s, run[..a]) && k in Exec(reliable, s, run[..a]).cache
  }

  ghost predicate MissedStale<K, O>(reliable: bool, s: State<K, O>, run: seq<Action<O>>, i: nat, k: K) {
    exists a: nat :: StaleMiss(reliable, s, run, a, i, k)
  }

  ghost predicate StaleWrite<K, O>(reliable: bool, s: State<K, O>, run: seq<Action<O>>, b: nat, i: nat, k: K) {
    b < |run| && run[b] == Write(i) && MissedStale(reliable, s, run[..b], i, k)
  }

  /** Some request stores `k` after missing it while it was in the cache. */
  ghost predicate StoredAgain<K, O>(reliable: bool, s: State<K, O>, run: seq<Action<O>>, k: K) {
    exists b: nat, i: nat :: StaleWrite(reliable, s, run, b, i, k)
  }

  // How often a key has been stored.
  function Count<K(==), O>(stored: seq<(K, O)>, k: K): nat {
    if stored == [] then 0
    else Count(stored[..|stored| - 1], k) + (if stored[|stored| - 1].0 == k then 1 else 0)
  }

  /** At most once, and not at all when the key was cached from the start. */
  predicate StoredOnce<K(==), O>(s: State<K, O>, t: State<K, O>, k: K) {
    Count(t.stored, k) <= if k in s.cache then 0 else 1
  }

  lemma {:induction false} LegalSnoc<K, O>(reliable: bool, s: State<K, O>, run: seq<Action<O>>, a: Action<O>)
    requires Legal(reliable, s, run + [a])
    ensures Legal(reliable, s, run) && Enabled(reliable, Exec(reliable, s, run), a)
    ensures Exec(reliable, s, run + [a]) == Apply(reliable, Exec(reliable, s, run), a)
    decreases |run|
  {
    var longer := run + [a];
    if run == [] {
      assert longer == [a] && longer[1..] == [];
    } else {
      assert longer[0] == run[0] && longer[1..] == run[1..] + [a];
      var next := Apply(reliable, s, run[0]);
      LegalSnoc(reliable, next, run[1..], a);
    }
  }

  lemma MissedStaleSnoc<K, O>(reliable: bool, s: State<K, O>, run: seq<Action<O>>, a: Action<O>, i: nat, k: K)
    requires Legal(reliable, s, run + [a])
    ensures MissedStale(reliable, s, run + [a], i, k) <==>
      || MissedStale(reliable, s, run, i, k)
      || (a == LookUp(i, false) && i < |s.requests| && s.requests[i].key == k && Legal(reliable, s, run)
          && k in Exec(reliable, s, run).cache)
  {
    var longer := run + [a];
    LegalSnoc(reliable, s, run, a);
    assert longer[..|run|] == run;
    forall b: nat | b < |run|
      ensures longer[b] == run[b] && longer[..b] == run[..b]
    {
    }
    forall b: nat
      ensures StaleMiss(reliable, s, longer, b, i, k) <==>
        StaleMiss(reliable, s, run, b, i, k) || (b == |run| && StaleMiss(reliable, s, longer, |run|, i, k))
    {
    }
    if StaleMiss(reliable, s, longer, |run|, i, k) {
      assert MissedStale(reliable, s, longer, i, k);
    }
  }

  lemma StoredAgainSnoc<K, O>(reliable: bool, s: State<K, O>, run: seq<Action<O>>, a: Action<O>, k: K)
    ensures StoredAgain(reliable, s, run + [a], k) <==>
      StoredAgain(reliable, s, run, k) || (a.Write? && MissedStale(reliable, s, run, a.i, k))
  {
    var longer := run + [a];
    assert longer[..|run|] == run;
    forall b: nat, i: nat
      ensures StaleWrite(reliable, s, longer, b, i, k) <==>
        StaleWrite(reliable, s, run, b, i, k) || (b == |run| && a == Write(i) && MissedStale(reliable, s, run, i, k))
    {
      if b < |run| {
        assert longer[b] == run[b] && longer[..b] == run[..b];
      }
    }
    if a.Write? && MissedStale(reliable, s, run, a.i, k) {
      assert StaleWrite(reliable, s, longer, |run|, a.i, k);
    }
  }

  // Requests keep their keys; before its lookup a request has missed nothing; while it produces, its
  // key is in the cache exactly if it missed it stale.
  ghost predicate ProducerOk<K, O>(reliable: bool, s: State<K, O>, run: seq<Action<O>>, cache: map<K, O>, i: nat, r: Request<K, O>)
  {
    && i < |s.requests| && r.key == s.requests[i].key && r.linked == s.requests[i].linked
    && (BeforeLookUp(r.phase) ==> !MissedStale(reliable, s, run, i, r.key))
    && (Producing(r.phase) ==> (r.key in cache <==> MissedStale(reliable, s, run, i, r.key)))
  }

  predicate BeforeLookUp<O>(p: Phase<O>) { p.Start? || p.MissedRead? || p.AwaitMutex? || p.Looking? }

  ghost predicate ProducersOk<K, O>(reliable: bool, s: State<K, O>, run: seq<Action<O>>, t: State<K, O>) {
    && |t.requests| == |s.requests|
    && forall i: nat | i < |t.requests| :: ProducerOk(reliable, s, run, t.cache, i, t.requests[i])
  }

  // What is stored of one key.
  ghost predicate StoredOk<K, O>(reliable: bool, s: State<K, O>, run: seq<Action<O>>, t: State<K, O>, k: K) {
    && (k in t.cache <==> k in s.cache || Count(t.stored, k) > 0)
    && (StoredOnce(s, t, k) <==> !StoredAgain(reliable, s, run, k))
    && (!StoredAgain(reliable, s, run, k) ==>
          && (k in s.cache ==> t.cache[k] == s.cache[k])
          && forall i: nat | i < |t.requests| :: OutputOk(t.cache, t.requests[i], k))
  }

  ghost predicate OutputOk<K, O>(cache: map<K, O>, r: Request<K, O>, k: K) {
    && (r.phase.Written? && r.key == k ==> k in cache && cache[k] == r.phase.output)
    && (r.phase.Succeeded? && !r.linked && r.key == k ==> k in cache && cache[k] == r.phase.result)
  }

  // The cache and what was stored change by a write only.
  lemma CacheShape<K, O>(reliable: bool, s: State<K, O>, a: Action<O>)
    requires Enabled(reliable, s, a)
    ensures
      var s' := Apply(reliable, s, a);
      var r := s.requests[a.i];
      if a.Write? then
        && r.phase.Storing? && s'.cache == s.cache[r.key := r.phase.output]
        && s'.stored == s.stored + [(r.key, r.phase.output)]
      else s'.cache == s.cache && s'.stored == s.stored
  {
  }

  lemma CountSnoc<K, O>(stored: seq<(K, O)>, last: (K, O), k: K)
    ensures Count(stored + [last], k) == Count(stored, k) + if last.0 == k then 1 else 0
  {
    assert (stored + [last])[..|stored|] == stored;
  }

  // The lookup and the write of a request, as its phase sees them.
  lemma OwnPhase<K, O>(reliable: bool, t: State<K, O>, a: Action<O>)
    requires Enabled(reliable, t, a)
    ensures var p, p' := t.requests[a.i].phase, Apply(reliable, t, a).requests[a.i].phase;
      && (BeforeLookUp(p') ==> BeforeLookUp(p) && !a.LookUp?)
      && (Producing(p') ==> (a == LookUp(a.i, false) && p.Looking?) || (Producing(p) && !a.LookUp? && !a.Write?))
  {
  }

  lemma OwnProducerOk<K, O>(reliable: bool, s: State<K, O>, run: seq<Action<O>>, t: State<K, O>, a: Action<O>)
    requires Legal(reliable, s, run + [a]) && Legal(reliable, s, run) && t == Exec(reliable, s, run)
    requires LocksOk(t) && ProducersOk(reliable, s, run, t) && Enabled(reliable, t, a)
    ensures var t' := Apply(reliable, t, a);
      a.i < |t'.requests| && ProducerOk(reliable, s, run + [a], t'.cache, a.i, t'.requests[a.i])
  {
    var r := t.requests[a.i];
    assert ProducerOk(reliable, s, run, t.cache, a.i, r);
    OwnRequestOnly(reliable, t, a);
    OwnPhase(reliable, t, a);
    CacheShape(reliable, t, a);
    MissedStaleSnoc(reliable, s, run, a, a.i, r.key);
  }

  lemma OtherProducerOk<K, O>(reliable: bool, s: State<K, O>, run: seq<Action<O>>, t: State<K, O>, a: Action<O>, j: nat)
    requires Legal(reliable, s, run + [a]) && Legal(reliable, s, run) && t == Exec(reliable, s, run)
    requires LocksOk(t) && ProducersOk(reliable, s, run, t) && Enabled(reliable, t, a)
    requires j < |t.requests| && j != a.i
    ensures ProducerOk(reliable, s, run + [a], Apply(reliable, t, a).cache, j, t.requests[j])
  {
    assert ProducerOk(reliable, s, run, t.cache, j, t.requests[j]);
    assert RequestOk(t.locks, t.holders, a.i, t.requests[a.i]) && RequestOk(t.locks, t.holders, j, t.requests[j]);
    CacheShape(reliable, t, a);
    MissedStaleSnoc(reliable, s, run, a, j, t.requests[j].key);
  }

  lemma StepKeepsProducers<K, O>(reliable: bool, s: State<K, O>, run: seq<Action<O>>, t: State<K, O>, a: Action<O>)
    requires Legal(reliable, s, run + [a]) && Legal(reliable, s, run) && t == Exec(reliable, s, run)
    requires LocksOk(t) && ProducersOk(reliable, s, run, t) && Enabled(reliable, t, a)
    ensures ProducersOk(reliable, s, run + [a], Apply(reliable, t, a))
  {
    var t' := Apply(reliable, t, a);
    OwnRequestOnly(reliable, t, a);
    forall j: nat | j < |t'.requests|
      ensures ProducerOk(reliable, s, run + [a], t'.cache, j, t'.requests[j])
    {
      if j == a.i {
        OwnProducerOk(reliable, s, run, t, a);
      } else {
        OtherProducerOk(reliable, s, run, t, a, j);
      }
    }
  }

  // A step that does not write changes nothing about what is stored.
  lemma OtherStepKeepsStored<K, O>(reliable: bool, s: State<K, O>, run: seq<Action<O>>, t: State<K, O>, a: Action<O>, k: K)
    requires StoredOk(reliable, s, run, t, k) && Enabled(reliable, t, a) && !a.Write? && LocksOk(t)
    ensures StoredOk(reliable, s, run + [a], Apply(reliable, t, a), k)
  {
    var t' := Apply(reliable, t, a);
    CacheShape(reliable, t, a);
    StoredAgainSnoc(reliable, s, run, a, k);
    OwnRequestOnly(reliable, t, a);
    if !StoredAgain(reliable, s, run, k) {
      assert OutputOk(t.cache, t.requests[a.i], k) && RequestOk(t.locks, t.holders, a.i, t.requests[a.i]);
      OwnOutputOk(reliable, t, a, k);
      assert forall i: nat | i < |t'.requests| && i != a.i :: t'.requests[i] == t.requests[i];
    }
  }

  lemma OwnOutputOk<K, O>(reliable: bool, t: State<K, O>, a: Action<O>, k: K)
    requires Enabled(reliable, t, a) && OutputOk(t.cache, t.requests[a.i], k) && !a.Write?
    requires RequestOk(t.locks, t.holders, a.i, t.requests[a.i])
    ensures OutputOk(Apply(reliable, t, a).cache, Apply(reliable, t, a).requests[a.i], k)
  {
  }

  lemma WriteKeepsStored<K, O>(reliable: bool, s: State<K, O>, run: seq<Action<O>>, t: State<K, O>, i: nat, k: K)
    requires StoredOk(reliable, s, run, t, k) && Enabled(reliable, t, Write(i))
    requires ProducersOk(reliable, s, run, t)
    ensures StoredOk(reliable, s, run + [Write(i)], Apply(reliable, t, Write(i)), k)
  {
    var a: Action<O> := Write(i);
    var t' := Apply(reliable, t, a);
    var r := t.requests[i];
    CacheShape(reliable, t, a);
    CountSnoc(t.stored, (r.key, r.phase.output), k);
    StoredAgainSnoc(reliable, s, run, a, k);
    OwnRequestOnly(reliable, t, a);
    assert ProducerOk(reliable, s, run, t.cache, i, r);
    if r.key != k {
      assert !MissedStale(reliable, s, run, i, k);
    }
    if !StoredAgain(reliable, s, run + [a], k) {
      forall j: nat | j < |t'.requests|
        ensures OutputOk(t'.cache, t'.requests[j], k)
      {
        assert OutputOk(t.cache, t.requests[j], k);
      }
    }
  }

  lemma {:induction false} RunStoresOk<K, O>(reliable: bool, s: State<K, O>, run: seq<Action<O>>, k: K)
    requires Initial(s) && Legal(reliable, s, run)
    ensures LocksOk(Exec(reliable, s, run)) && ProducersOk(reliable, s, run, Exec(reliable, s, run))
    ensures StoredOk(reliable, s, run, Exec(reliable, s, run), k)
    decreases |run|
  {
    if run == [] {
      forall i: nat | i < |s.requests|
        ensures s.requests[i].phase.Start?
      {
        assert s.requests[i] in s.requests;
      }
    } else {
      var n := |run| - 1;
      var before, a := run[..n], run[n];
      assert run == before + [a];
      LegalSnoc(reliable, s, before, a);
      RunStoresOk(reliable, s, before, k);
      var t := Exec(reliable, s, before);
      StepKeepsLocks(reliable, t, a);
      StepKeepsProducers(reliable, s, before, t, a);
      if a.Write? {
        WriteKeepsStored(reliable, s, before, t, a.i, k);
      } else {
        OtherStepKeepsStored(reliable, s, before, t, a, k);
      }
    }
  }

  /** A key is stored at most once, and not at all if it was cached from the start, exactly when no
      request stores it after missing it while it was in the cache. */
  lemma StoredOnceIffNoStaleWrite<K, O>(reliable: bool, s: State<K, O>, run: seq<Action<O>>, k: K)
    requires Initial(s) && Legal(reliable, s, run)
    ensures StoredOnce(s, Exec(reliable, s, run), k) <==> !StoredAgain(reliable, s, run, k)
  {
    RunStoresOk(reliable, s, run, k);
  }

  /** As long as that is so, all successful requests for the key without libraries return the one
      cached output, the original one if there was one. */
  lemma StoredOnceReturnsOneOutput<K, O>(reliable: bool, s: State<K, O>, run: seq<Action<O>>, k: K)
    requires Initial(s) && Legal(reliable, s, run) && StoredOnce(s, Exec(reliable, s, run), k)
    ensures
      var t := Exec(reliable, s, run);
      && (k in s.cache ==> k in t.cache && t.cache[k] == s.cache[k])
      && forall i: nat | i < |t.requests| && t.requests[i].key == k && t.requests[i].phase.Succeeded? && !t.requests[i].linked ::
           k in t.cache && t.requests[i].phase.result == t.cache[k]
  {
    RunStoresOk(reliable, s, run, k);
    var t := Exec(reliable, s, run);
    forall i: nat | i < |t.requests| ensures OutputOk(t.cache, t.requests[i], k) {
    }
  }

  lemma {:induction false} CountTwo<K, O>(stored: seq<(K, O)>, a: nat, b: nat)
    requires a < b < |stored| && stored[a].0 == stored[b].0
    ensures Count(stored, stored[a].0) >= 2
    decreases |stored|
  {
    var n := |stored| - 1;
    if b < n {
      CountTwo(stored[..n], a, b);
    } else {
      CountOne(stored[..n], a);
    }
  }

  lemma {:induction false} CountOne<K, O>(stored: seq<(K, O)>, a: nat)
    requires a < |stored|
    ensures Count(stored, stored[a].0) >= 1
    decreases |stored|
  {
    var n := |stored| - 1;
    if a < n {
      CountOne(stored[..n], a);
    }
  }

  // A stale miss takes an unreliable read.
  lemma ReliableNeverStale<K, O>(s: State<K, O>, run: seq<Action<O>>, k: K)
    requires Initial(s) && Legal(true, s, run)
    ensures !StoredAgain(true, s, run, k)
  {
    forall b: nat, i: nat | b < |run|
      ensures !StaleWrite(true, s, run, b, i, k)
    {
      forall a: nat | a < b
        ensures !StaleMiss(true, s, run[..b], a, i, k)
      {
        PrefixEnabled(true, s, run, a);
        assert run[..b][..a] == run[..a];
        RunStoresOk(true, s, run[..a], k);
        var t := Exec(true, s, run[..a]);
        if i < |t.requests| {
          assert ProducerOk(true, s, run[..a], t.cache, i, t.requests[i]);
        }
      }
    }
  }

  lemma {:induction false} PrefixEnabled<K, O>(reliable: bool, s: State<K, O>, run: seq<Action<O>>, a: nat)
    requires Legal(reliable, s, run) && a < |run|
    ensures Legal(reliable, s, run[..a]) && Enabled(reliable, Exec(reliable, s, run[..a]), run[a])
    decreases |run|
  {
    var n := |run| - 1;
    assert run == run[..n] + [run[n]];
    LegalSnoc(reliable, s, run[..n], run[n]);
    if a < n {
      PrefixEnabled(reliable, s, run[..n], a);
      assert run[..n][..a] == run[..a];
    }
  }

  lemma ReliableStoresOnce<K, O>(s: State<K, O>, run: seq<Action<O>>, k: K)
    requires Initial(s) && Legal(true, s, run)
    ensures StoredOnce(s, Exec(true, s, run), k)
  {
    ReliableNeverStale(s, run, k);
    StoredOnceIffNoStaleWrite(true, s, run, k);
  }

  /** When reads of stored entries succeed, at most one output is ever stored for a key, none if it
      was cached from the start, and all successful requests without libraries return that output. */
  lemma SingleFlight<K, O>(s: State<K, O>, run: seq<Action<O>>)
    requires Initial(s) && Legal(true, s, run)
    ensures
      var t := Exec(true, s, run);
      && (forall a, b | 0 <= a < b < |t.stored| :: t.stored[a].0 != t.stored[b].0)
      && (forall a: nat | a < |t.stored| :: t.stored[a].0 !in s.cache)
      && (forall i: nat | i < |t.requests| && t.requests[i].phase.Succeeded? && !t.requests[i].linked ::
            var k := t.requests[i].key;
            k in t.cache && t.requests[i].phase.result == t.cache[k] && (k in s.cache ==> t.cache[k] == s.cache[k]))
  {
    var t := Exec(true, s, run);
    forall a: nat | a < |t.stored|
      ensures t.stored[a].0 !in s.cache
      ensures forall b | a < b < |t.stored| :: t.stored[a].0 != t.stored[b].0
    {
      CountOne(t.stored, a);
      ReliableStoresOnce(s, run, t.stored[a].0);
      forall b: nat | a < b < |t.stored|
        ensures t.stored[a].0 != t.stored[b].0
      {
        if t.stored[a].0 == t.stored[b].0 {
          CountTwo(t.stored, a, b);
        }
      }
    }
    forall i: nat | i < |t.requests| && t.requests[i].phase.Succeeded? && !t.requests[i].linked
      ensures var k := t.requests[i].key;
        k in t.cache && t.requests[i].phase.result == t.cache[k] && (k in s.cache ==> t.cache[k] == s.cache[k])
    {
      ReliableStoresOnce(s, run, t.requests[i].key);
      StoredOnceReturnsOneOutput(true, s, run, t.requests[i].key);
    }
  }

  // ---------------------------------------------------------------- what a request returns

  /** What the compiler answered to a request, in order. */
  function Answers<O>(run: seq<Action<O>>, i: nat): seq<Option<O>> {
    if run == [] then []
    else
      var a := run[|run| - 1];
      Answers(run[..|run| - 1], i) + if a.Compiled? && a.i == i then [a.output] else []
  }

  // The request's phase, by its answers and by the lookups, writes and failures of the run.
  ghost predicate HistoryOk<K, O>(run: seq<Action<O>>, i: nat, r: Request<K, O>) {
    var p, answers := r.phase, Answers(run, i);
    && (LookUp(i, true) in run <==> p.Succeeded? && answers == [])
    && (Drop(i) in run || WriteFailed(i) in run || answers == [None] <==> p.Failed?)
    && (BeforeLookUp(p) || p.Compiling? || p.CompilingLinked? ==> answers == [])
    && (p.CompilingLinked? ==> r.linked)
    && (p.Storing? || p.Written? ==> answers == [Some(p.output)])
    && (p.Succeeded? && answers != [] ==> answers == [Some(p.result)])
    && (Write(i) in run ==> !r.linked && (p.Written? || p.Succeeded? || p.Failed?))
    && (p.Written? || (p.Succeeded? && answers != [] && !r.linked) ==> Write(i) in run)
    && (r.linked ==> LinkedHistoryOk(run, i, p))
  }

  ghost predicate LinkedHistoryOk<O>(run: seq<Action<O>>, i: nat, p: Phase<O>) {
    && (p.Start? || p.CompilingLinked? || p.Succeeded? || p.Failed?)
    && LookUp(i, true) !in run && WriteFailed(i) !in run
    && (p.Failed? ==> Answers(run, i) == [None] || (Answers(run, i) == [] && Drop(i) in run))
  }

  lemma AnswersSnoc<O>(run: seq<Action<O>>, a: Action<O>, i: nat)
    ensures Answers(run + [a], i) == Answers(run, i) + if a.Compiled? && a.i == i then [a.output] else []
  {
    assert (run + [a])[..|run|] == run;
  }

  lemma OtherHistory<K, O>(run: seq<Action<O>>, a: Action<O>, i: nat, r: Request<K, O>)
    requires HistoryOk(run, i, r) && a.i != i
    ensures HistoryOk(run + [a], i, r)
  {
    AnswersSnoc(run, a, i);
  }

  // How a request goes from phase to phase.
  ghost predicate Goes<O>(linked: bool, p: Phase<O>, a: Action<O>, q: Phase<O>) {
    match a
    case ReadLockMap(_) => p.Start? && !linked && (q.AwaitMutex? || q.MissedRead?)
    case WriteLockMap(_) => p.MissedRead? && q.AwaitMutex?
    case SkipCache(_) => p.Start? && linked && q.CompilingLinked?
    case Lock(_) => p.AwaitMutex? && q.Looking?
    case LookUp(_, hit) => p.Looking? && if hit then q.Succeeded? else q.Compiling?
    case Compiled(_, output) =>
      && (p.Compiling? || p.CompilingLinked?)
      && (output.None? ==> q.Failed?)
      && (output.Some? && (linked || p.CompilingLinked?) ==> q == Succeeded(output.value))
      && (output.Some? && !linked && p.Compiling? ==> q.Storing? && q.output == output.value)
    case Write(_) => p.Storing? && q.Written? && q.output == p.output
    case WriteFailed(_) => p.Storing? && q.Failed?
    case Return(_) => p.Written? && q == Succeeded(p.output)
    case Drop(_) => !p.Succeeded? && !p.Failed? && q.Failed?
  }

  lemma OwnGoes<K, O>(reliable: bool, s: State<K, O>, a: Action<O>)
    requires Enabled(reliable, s, a)
    ensures Goes(s.requests[a.i].linked, s.requests[a.i].phase, a, Apply(reliable, s, a).requests[a.i].phase)
  {
  }

  lemma OwnHistory<K, O>(run: seq<Action<O>>, a: Action<O>, r: Request<K, O>, q: Phase<O>)
    requires HistoryOk(run, a.i, r) && Goes(r.linked, r.phase, a, q)
    ensures HistoryOk(run + [a], a.i, r.(phase := q))
  {
    AnswersSnoc(run, a, a.i);
    assert forall b :: b in run + [a] <==> b in run || b == a;
    if a.Compiled? {
      assert Answers(run, a.i) == [] && Answers(run + [a], a.i) == [a.output];
    }
  }

  lemma {:induction false} RunHistory<K, O>(reliable: bool, s: State<K, O>, run: seq<Action<O>>, i: nat)
    requires Initial(s) && Legal(reliable, s, run) && i < |s.requests|
    ensures var t := Exec(reliable, s, run);
      |t.requests| == |s.requests| && t.requests[i].linked == s.requests[i].linked && t.requests[i].key == s.requests[i].key
      && HistoryOk(run, i, t.requests[i])
    decreases |run|
  {
    if run == [] {
      NoHistory(s, i);
    } else {
      var before, a := run[..|run| - 1], run[|run| - 1];
      assert run == before + [a];
      LegalSnoc(reliable, s, before, a);
      RunHistory(reliable, s, before, i);
      StepHistory(reliable, Exec(reliable, s, before), before, a, i);
    }
  }

  lemma NoHistory<K, O>(s: State<K, O>, i: nat)
    requires Initial(s) && i < |s.requests|
    ensures HistoryOk([], i, s.requests[i])
  {
    assert s.requests[i] in s.requests;
  }

  lemma StepHistory<K, O>(reliable: bool, t: State<K, O>, run: seq<Action<O>>, a: Action<O>, i: nat)
    requires Enabled(reliable, t, a) && i < |t.requests| && HistoryOk(run, i, t.requests[i])
    ensures var u := Apply(reliable, t, a);
      |u.requests| == |t.requests| && u.requests[i].linked == t.requests[i].linked && u.requests[i].key == t.requests[i].key
      && HistoryOk(run + [a], i, u.requests[i])
  {
    OwnRequestOnly(reliable, t, a);
    if a.i == i {
      OwnGoes(reliable, t, a);
      OwnHistory(run, a, t.requests[i], Apply(reliable, t, a).requests[i].phase);
    } else {
      OtherHistory(run, a, i, t.requests[i]);
    }
  }

  /** A request with libraries succeeds exactly when the compiler answered it with an output, and returns
      that output; it fails exactly when the compiler failed or the request was dropped. */
  lemma LinkedReturnsItsAnswer<K, O>(reliable: bool, s: State<K, O>, run: seq<Action<O>>, i: nat)
    requires Initial(s) && Legal(reliable, s, run) && i < |s.requests| && s.requests[i].linked
    ensures
      var t, answers := Exec(reliable, s, run), Answers(run, i);
      && |t.requests| == |s.requests| && t.requests[i].linked
      && (t.requests[i].phase.Succeeded? <==> answers != [] && answers[0].Some?)
      && (t.requests[i].phase.Succeeded? ==> answers == [Some(t.requests[i].phase.result)])
      && (t.requests[i].phase.Failed? <==> answers == [None] || Drop(i) in run)
  {
    RunHistory(reliable, s, run, i);
  }

  /** A request without libraries that has succeeded found its key in the cache, or was answered by the
      compiler with what it returned and stored that; it fails exactly when the compiler or the write
      failed or the request was dropped. */
  lemma UnlinkedReturnsHitOrAnswer<K, O>(reliable: bool, s: State<K, O>, run: seq<Action<O>>, i: nat)
    requires Initial(s) && Legal(reliable, s, run) && i < |s.requests| && !s.requests[i].linked
    ensures
      var t, answers := Exec(reliable, s, run), Answers(run, i);
      && |t.requests| == |s.requests| && !t.requests[i].linked
      && (t.requests[i].phase.Succeeded? ==>
            || (LookUp(i, true) in run && answers == [])
            || (answers == [Some(t.requests[i].phase.result)] && Write(i) in run))
      && (t.requests[i].phase.Failed? <==> answers == [None] || WriteFailed(i) in run || Drop(i) in run)
  {
    RunHistory(reliable, s, run, i);
  }

  /** A request that found its key returned what the cache held for it at that moment. */
  lemma HitReturnsCached<K, O>(reliable: bool, s: State<K, O>, run: seq<Action<O>>, n: nat)
    requires Initial(s) && Legal(reliable, s, run) && n < |run| && run[n].LookUp? && run[n].hit
    ensures
      var i := run[n].i;
      && i < |s.requests| && Legal(reliable, s, run[..n]) && s.requests[i].key in Exec(reliable, s, run[..n]).cache
      && i < |Exec(reliable, s, run).requests|
      && Exec(reliable, s, run).requests[i].phase == Succeeded(Exec(reliable, s, run[..n]).cache[s.requests[i].key])
  {
    var i := run[n].i;
    PrefixEnabled(reliable, s, run, n);
    var t := Exec(reliable, s, run[..n]);
    RunKeepsRequestCount(reliable, s, run[..n]);
    RunHistory(reliable, s, run[..n], i);
    SplitRun(reliable, s, run, n);
    assert run[n..][0] == run[n];
    EndStays(reliable, Apply(reliable, t, run[n]), run[n..][1..], i);
  }

  lemma {:induction false} RunKeepsRequestCount<K, O>(reliable: bool, s: State<K, O>, run: seq<Action<O>>)
    requires Legal(reliable, s, run)
    ensures |Exec(reliable, s, run).requests| == |s.requests|
    decreases |run|
  {
    if run != [] {
      OwnRequestOnly(reliable, s, run[0]);
      RunKeepsRequestCount(reliable, Apply(reliable, s, run[0]), run[1..]);
    }
  }

  lemma {:induction false} SplitRun<K, O>(reliable: bool, s: State<K, O>, run: seq<Action<O>>, n: nat)
    requires Legal(reliable, s, run) && n <= |run|
    ensures Legal(reliable, s, run[..n]) && Legal(reliable, Exec(reliable, s, run[..n]), run[n..])
    ensures Exec(reliable, s, run) == Exec(reliable, Exec(reliable, s, run[..n]), run[n..])
    decreases n
  {
    if n > 0 {
      SplitRun(reliable, Apply(reliable, s, run[0]), run[1..], n - 1);
      assert run[..n][1..] == run[1..][..n - 1] && run[n..] == run[1..][n - 1..];
    } else {
      assert run[..n] == [] && run[n..] == run;
    }
  }

  lemma {:induction false} EndStays<K, O>(reliable: bool, s: State<K, O>, run: seq<Action<O>>, i: nat)
    requires Legal(reliable, s, run) && i < |s.requests| && (s.requests[i].phase.Succeeded? || s.requests[i].phase.Failed?)
    ensures i < |Exec(reliable, s, run).requests| && Exec(reliable, s, run).requests[i] == s.requests[i]
    decreases |run|
  {
    if run != [] {
      OwnRequestOnly(reliable, s, run[0]);
      EndStays(reliable, Apply(reliable, s, run[0]), run[1..], i);
    }
  }

  /** What a request with libraries does leaves the cache, the lock map and the mutexes alone. */
  lemma LinkedTouchesNothing<K, O>(reliable: bool, s: State<K, O>, run: seq<Action<O>>, a: Action<O>)
    requires Initial(s) && Legal(reliable, s, run) && Enabled(reliable, Exec(reliable, s, run), a)
    requires Exec(reliable, s, run).requests[a.i].linked
    ensures
      var t, u := Exec(reliable, s, run), Apply(reliable, Exec(reliable, s, run), a);
      u.cache == t.cache && u.stored == t.stored && u.locks == t.locks && u.mutexes == t.mutexes && u.holders == t.holders
  {
    RunKeepsLocks(reliable, s, run);
    var t := Exec(reliable, s, run);
    assert RequestOk(t.locks, t.holders, a.i, t.requests[a.i]);
    LinkedStep(reliable, t, a);
  }

  lemma LinkedStep<K, O>(reliable: bool, t: State<K, O>, a: Action<O>)
    requires Enabled(reliable, t, a) && t.requests[a.i].linked
    requires var p := t.requests[a.i].phase; p.Start? || p.CompilingLinked? || p.Succeeded? || p.Failed?
    ensures var u := Apply(reliable, t, a);
      u.cache == t.cache && u.stored == t.stored && u.locks == t.locks && u.mutexes == t.mutexes && u.holders == t.holders
  {
  }

  // The cache with the outputs stored since, in order.
  function WithStored<K(==), O>(cache: map<K, O>, stored: seq<(K, O)>): map<K, O> {
    if stored == [] then cache
    else WithStored(cache, stored[..|stored| - 1])[stored[|stored| - 1].0 := stored[|stored| - 1].1]
  }

  // Every output stored was the compiler's answer to a request for its key that wrote it.
  ghost predicate StoredAnswer<K, O>(s: State<K, O>, run: seq<Action<O>>, entry: (K, O)) {
    exists i: nat ::
      && i < |s.requests| && !s.requests[i].linked && s.requests[i].key == entry.0
      && Answers(run, i) == [Some(entry.1)] && Write(i) in run
  }

  /** The cache holds what was on disk and, in order, the outputs stored since, each of which is what the
      compiler answered to a request without libraries for that key. */
  lemma CacheHoldsAnswers<K, O>(reliable: bool, s: State<K, O>, run: seq<Action<O>>)
    requires Initial(s) && Legal(reliable, s, run)
    ensures
      var t := Exec(reliable, s, run);
      && t.cache == WithStored(s.cache, t.stored)
      && forall entry | entry in t.stored :: StoredAnswer(s, run, entry)
  {
    CacheIsStored(reliable, s, run, s.cache);
    StoredAreAnswers(reliable, s, run);
  }

  lemma {:induction false} CacheIsStored<K, O>(reliable: bool, s: State<K, O>, run: seq<Action<O>>, disk: map<K, O>)
    requires Legal(reliable, s, run) && s.cache == WithStored(disk, s.stored)
    ensures Exec(reliable, s, run).cache == WithStored(disk, Exec(reliable, s, run).stored)
    decreases |run|
  {
    if run != [] {
      CacheShape(reliable, s, run[0]);
      var t := Apply(reliable, s, run[0]);
      assert run[0].Write? ==> t.stored[..|t.stored| - 1] == s.stored;
      CacheIsStored(reliable, t, run[1..], disk);
    }
  }

  lemma {:induction false} StoredAreAnswers<K, O>(reliable: bool, s: State<K, O>, run: seq<Action<O>>)
    requires Initial(s) && Legal(reliable, s, run)
    ensures forall entry | entry in Exec(reliable, s, run).stored :: StoredAnswer(s, run, entry)
    decreases |run|
  {
    if run != [] {
      var before, a := run[..|run| - 1], run[|run| - 1];
      assert run == before + [a];
      LegalSnoc(reliable, s, before, a);
      StoredAreAnswers(reliable, s, before);
      forall entry | entry in Exec(reliable, s, run).stored
        ensures StoredAnswer(s, before + [a], entry)
      {
        AnswerStep(reliable, s, before, a, entry);
      }
    }
  }

  lemma AnswerStep<K, O>(reliable: bool, s: State<K, O>, run: seq<Action<O>>, a: Action<O>, entry: (K, O))
    requires Initial(s) && Legal(reliable, s, run) && Enabled(reliable, Exec(reliable, s, run), a)
    requires entry in Exec(reliable, s, run).stored ==> StoredAnswer(s, run, entry)
    requires entry in Apply(reliable, Exec(reliable, s, run), a).stored
    ensures StoredAnswer(s, run + [a], entry)
  {
    CacheShape(reliable, Exec(reliable, s, run), a);
    if entry in Exec(reliable, s, run).stored {
      OldAnswer(reliable, s, run, a, entry);
    } else {
      RunKeepsRequestCount(reliable, s, run);
      NewAnswer(reliable, s, run, a);
    }
  }

  lemma NewAnswer<K, O>(reliable: bool, s: State<K, O>, run: seq<Action<O>>, a: Action<O>)
    requires Initial(s) && Legal(reliable, s, run) && Enabled(reliable, Exec(reliable, s, run), a) && a.Write?
    requires a.i < |s.requests|
    ensures var r := Exec(reliable, s, run).requests[a.i];
      r.phase.Storing? && StoredAnswer(s, run + [a], (r.key, r.phase.output))
  {
    RunHistory(reliable, s, run, a.i);
    AnswersSnoc(run, a, a.i);
    var r := Exec(reliable, s, run).requests[a.i];
    assert Answers(run + [a], a.i) == [Some(r.phase.output)] && Write(a.i) in run + [a];
  }

  lemma OldAnswer<K, O>(reliable: bool, s: State<K, O>, run: seq<Action<O>>, a: Action<O>, entry: (K, O))
    requires Initial(s) && Legal(reliable, s, run) && Enabled(reliable, Exec(reliable, s, run), a)
    requires StoredAnswer(s, run, entry)
    ensures StoredAnswer(s, run + [a], entry)
  {
    var i: nat :|
      && i < |s.requests| && !s.requests[i].linked && s.requests[i].key == entry.0
      && Answers(run, i) == [Some(entry.1)] && Write(i) in run;
    RunHistory(reliable, s, run, i);
    AnswersSnoc(run, a, i);
    assert Answers(run + [a], i) == [Some(entry.1)] && Write(i) in run + [a];
  }

  /** A failed read of a stored entry breaks this: the key is compiled and stored a second time and
      two requests return different outputs. */
  lemma UnreliableReadCompilesTwice<K, O>(k: K, first: O, second: O) returns (s: State<K, O>, run: seq<Action<O>>)
    requires first != second
    ensures Initial(s) && Legal(false, s, run)
    ensures
      var t := Exec(false, s, run);
      && t.stored == [(k, first), (k, second)]
      && t.requests == [Request(k, false, Succeeded(first)), Request(k, false, Succeeded(second))]
  {
    var r, done1, done2 := Request(k, false, Start), Request(k, false, Succeeded(first)), Request(k, false, Succeeded(second));
    s := State([r, r], map[], 0, map[], map[], []);
    var mid := State([done1, r], map[k := 0], 1, map[], map[k := first], [(k, first)]);
    var one := FirstFlight(s, k, first, mid);
    var two := SecondFlight(mid, k, second);
    Concatenate(false, s, one, two);
    run := one + two;
  }

  lemma Prepend<K, O>(s: State<K, O>, a: Action<O>, rest: seq<Action<O>>) returns (run: seq<Action<O>>)
    requires Enabled(false, s, a) && Legal(false, Apply(false, s, a), rest)
    ensures Legal(false, s, run) && Exec(false, s, run) == Exec(false, Apply(false, s, a), rest)
  {
    run := [a] + rest;
    assert run[1..] == rest;
  }

  lemma {:induction false} Concatenate<K, O>(reliable: bool, s: State<K, O>, first: seq<Action<O>>, second: seq<Action<O>>)
    requires Legal(reliable, s, first) && Legal(reliable, Exec(reliable, s, first), second)
    ensures Legal(reliable, s, first + second)
    ensures Exec(reliable, s, first + second) == Exec(reliable, Exec(reliable, s, first), second)
    decreases |first|
  {
    if first == [] {
      assert first + second == second;
    } else {
      assert (first + second)[1..] == first[1..] + second && (first + second)[0] == first[0];
      var next := Apply(reliable, s, first[0]);
      Concatenate(reliable, next, first[1..], second);
    }
  }

  lemma FirstFlight<K, O>(s: State<K, O>, k: K, o: O, t: State<K, O>) returns (run: seq<Action<O>>)
    requires var r := Request(k, false, Start);
             && s == State([r, r], map[], 0, map[], map[], [])
             && t == State([Request(k, false, Succeeded(o)), r], map[k := 0], 1, map[], map[k := o], [(k, o)])
    ensures Legal(false, s, run) && Exec(false, s, run) == t
  {
    var s1 := Apply(false, s, ReadLockMap(0));
    var s2 := Apply(false, s1, WriteLockMap(0));
    var s3 := Apply(false, s2, Lock(0));
    var s4 := Apply(false, s3, LookUp(0, false));
    var s5 := Apply(false, s4, Compiled(0, Some(o)));
    var s6 := Apply(false, s5, Write(0));
    var s7 := Apply(false, s6, Return(0));
    assert s7.requests == t.requests && s7.holders == map[];
    run := Prepend(s6, Return(0), []);
    run := Prepend(s5, Write(0), run);
    run := Prepend(s4, Compiled(0, Some(o)), run);
    run := Prepend(s3, LookUp(0, false), run);
    run := Prepend(s2, Lock(0), run);
    run := Prepend(s1, WriteLockMap(0), run);
    run := Prepend(s, ReadLockMap(0), run);
  }

  lemma SecondFlight<K, O>(s: State<K, O>, k: K, o: O) returns (run: seq<Action<O>>)
    requires |s.requests| == 2 && s.requests[1] == Request(k, false, Start)
    requires s.locks == map[k := 0] && s.holders == map[] && k in s.cache
    ensures Legal(false, s, run)
    ensures
      var t := Exec(false, s, run);
      t.stored == s.stored + [(k, o)] && t.requests == s.requests[1 := Request(k, false, Succeeded(o))]
  {
    var s1 := Apply(false, s, ReadLockMap(1));
    var s2 := Apply(false, s1, Lock(1));
    var s3 := Apply(false, s2, LookUp(1, false));
    var s4 := Apply(false, s3, Compiled(1, Some(o)));
    var s5 := Apply(false, s4, Write(1));
    var s6 := Apply(false, s5, Return(1));
    assert s6.requests == s.requests[1 := Request(k, false, Succeeded(o))];
    run := Prepend(s5, Return(1), []);
    run := Prepend(s4, Write(1), run);
    run := Prepend(s3, Compiled(1, Some(o)), run);
    run := Prepend(s2, LookUp(1, false), run);
    run := Prepend(s1, Lock(1), run);
    run := Prepend(s, ReadLockMap(1), run);
  }

  // ---------------------------------------------------------------- the mutable form

  /** What the surroundings do to the next stretch of a request. */
  datatype Outcome<O> = Outcome(dropped: bool, readFails: bool, compiled: Option<O>, writeFails: bool)

  lemma LegalAppend<K, O>(reliable: bool, s: State<K, O>, run: seq<Action<O>>, a: Action<O>)
    requires Legal(reliable, s, run) && Enabled(reliable, Exec(reliable, s, run), a)
    ensures Legal(reliable, s, run + [a])
    ensures Exec(reliable, s, run + [a]) == Apply(reliable, Exec(reliable, s, run), a)
  {
    var t := Exec(reliable, s, run);
    assert [a][1..] == [];
    assert Legal(reliable, Apply(reliable, t, a), [a][1..]);
    Concatenate(reliable, s, run, [a]);
  }

  predicate Ended<O>(p: Phase<O>) { p.Succeeded? || p.Failed? }

  // The action does what the surroundings have it do.
  predicate Follows<K(==), O(==)>(s: State<K, O>, a: Action<O>, o: Outcome<O>) {
    && a.i < |s.requests|
    && (a.Drop? <==> o.dropped)
    && (a.Compiled? ==> a.output == o.compiled)
    && (a.Write? ==> !o.writeFails) && (a.WriteFailed? ==> o.writeFails)
    && (a.LookUp? && !a.hit ==> s.requests[a.i].key !in s.cache || o.readFails)
  }

  /** What a request does in its turn: it goes on unless it has ended or waits for a mutex that is held. */
  ghost function Next<K, O>(reliable: bool, s: State<K, O>, i: nat, o: Outcome<O>): (a: Option<Action<O>>)
    ensures a.None? <==>
      || i >= |s.requests| || Ended(s.requests[i].phase)
      || (!o.dropped && s.requests[i].phase.AwaitMutex? && s.requests[i].phase.mutex in s.holders)
    ensures a.Some? ==> a.value.i == i && Enabled(reliable, s, a.value) && Follows(s, a.value, o)
  {
    if i >= |s.requests| || Ended(s.requests[i].phase) then None
    else if o.dropped then Some(Drop(i))
    else
      var r := s.requests[i];
      match r.phase
      case Start => Some(if r.linked then SkipCache(i) else ReadLockMap(i))
      case MissedRead => Some(WriteLockMap(i))
      case AwaitMutex(mutex) => if mutex in s.holders then None else Some(Lock(i))
      case Looking(_) => Some(LookUp(i, r.key in s.cache && (reliable || !o.readFails)))
      case Compiling(_) => Some(Compiled(i, o.compiled))
      case CompilingLinked => Some(Compiled(i, o.compiled))
      case Storing(_, _) => Some(if o.writeFails then WriteFailed(i) else Write(i))
      case Written(_, _) => Some(Return(i))
  }

  /** The run that a schedule makes, one turn of a request after the other. */
  ghost function Scheduled<K, O>(reliable: bool, s: State<K, O>, schedule: seq<(nat, Outcome<O>)>): (run: seq<Action<O>>)
    ensures Legal(reliable, s, run)
  {
    if schedule == [] then []
    else
      var (i, o) := schedule[|schedule| - 1];
      var before := Scheduled(reliable, s, schedule[..|schedule| - 1]);
      var a := Next(reliable, Exec(reliable, s, before), i, o);
      if a.None? then before
      else
        LegalAppend(reliable, s, before, a.value);
        before + [a.value]
  }

  /** The compiler with the requests it serves.  `cache` stands for the artifacts on disk. */
  class Compiler<K(==), O> {
    const reliable: bool
    var requests: seq<Request<K, O>>
    var locks: map<K, nat>
    var mutexes: nat
    var holders: map<nat, nat>
    var cache: map<K, O>
    ghost var stored: seq<(K, O)>

    ghost function View(): State<K, O>
      reads this
    {
      State(requests, locks, mutexes, holders, cache, stored)
    }

    constructor (requests: seq<Request<K, O>>, onDisk: map<K, O>, reliable: bool)
      requires forall r | r in requests :: r.phase.Start?
      ensures Initial(View()) && this.requests == requests && cache == onDisk && this.reliable == reliable
    {
      this.reliable, this.requests, this.cache := reliable, requests, onDisk;
      locks, mutexes, holders, stored := map[], 0, map[], [];
    }

    method MoveTo(i: nat, p: Phase<O>)
      requires i < |requests|
      modifies this`requests
      ensures requests == old(requests)[i := old(requests)[i].(phase := p)]
    {
      requests := requests[i := requests[i].(phase := p)];
    }

    // The request returns; a mutex guard that it holds is dropped.
    method Finish(i: nat, p: Phase<O>)
      requires i < |requests|
      modifies this`requests, this`holders
      ensures View() == End(old(View()), i, p)
    {
      if Holds(requests[i].phase) {
        holders := holders - {requests[i].phase.mutex};
      }
      MoveTo(i, p);
    }

    method FindMutex(i: nat)
      requires Enabled(reliable, View(), ReadLockMap(i))
      modifies this`requests
      ensures View() == Apply(reliable, old(View()), ReadLockMap(i))
    {
      var k := requests[i].key;
      MoveTo(i, if k in locks then AwaitMutex(locks[k]) else MissedRead);
    }

    // Between the read lock and the write lock another request may have created the mutex.
    method FindOrCreateMutex(i: nat)
      requires Enabled(reliable, View(), WriteLockMap(i))
      modifies this`requests, this`locks, this`mutexes
      ensures View() == Apply(reliable, old(View()), WriteLockMap(i))
    {
      var k := requests[i].key;
      if k !in locks {
        locks := locks[k := mutexes];
        mutexes := mutexes + 1;
      }
      MoveTo(i, AwaitMutex(locks[k]));
    }

    method TakeMutex(i: nat)
      requires Enabled(reliable, View(), Lock(i))
      modifies this`requests, this`holders
      ensures View() == Apply(reliable, old(View()), Lock(i))
    {
      var mutex := requests[i].phase.mutex;
      holders := holders[mutex := i];
      MoveTo(i, Looking(mutex));
    }

    method ReadCache(i: nat, hit: bool)
      requires Enabled(reliable, View(), LookUp(i, hit))
      modifies this`requests, this`holders
      ensures View() == Apply(reliable, old(View()), LookUp(i, hit))
    {
      if hit {
        Finish(i, Succeeded(cache[requests[i].key]));
      } else {
        MoveTo(i, Compiling(requests[i].phase.mutex));
      }
    }

    method TakeOutput(i: nat, output: Option<O>)
      requires Enabled(reliable, View(), Compiled(i, output))
      modifies this`requests, this`holders
      ensures View() == Apply(reliable, old(View()), Compiled(i, output))
    {
      if output.None? {
        Finish(i, Failed);
      } else if requests[i].linked || requests[i].phase.CompilingLinked? {
        Finish(i, Succeeded(output.value));
      } else {
        MoveTo(i, Storing(requests[i].phase.mutex, output.value));
      }
    }

    method StoreOutput(i: nat)
      requires Enabled(reliable, View(), Write(i))
      modifies this`requests, this`cache, this`stored
      ensures View() == Apply(reliable, old(View()), Write(i))
    {
      var r := requests[i];
      cache := cache[r.key := r.phase.output];
      stored := stored + [(r.key, r.phase.output)];
      MoveTo(i, Written(r.phase.mutex, r.phase.output));
    }

    // The next stretch of a request, unless it is at an end or waits for a mutex that is held.
    method CompileContracts(i: nat, o: Outcome<O>) returns (ghost a: Option<Action<O>>)
      modifies this
      ensures a == Next(reliable, old(View()), i, o)
      ensures View() == if a.None? then old(View()) else Apply(reliable, old(View()), a.value)
    {
      a := None;
      if i >= |requests| || Ended(requests[i].phase) {
        return;
      }
      if o.dropped {
        a := Some(Drop(i));
        Finish(i, Failed);
        return;
      }
      match requests[i].phase {
        case Start =>
          if requests[i].linked {
            a := Some(SkipCache(i));
            MoveTo(i, CompilingLinked);
          } else {
            a := Some(ReadLockMap(i));
            FindMutex(i);
          }
        case MissedRead =>
          a := Some(WriteLockMap(i));
          FindOrCreateMutex(i);
        case AwaitMutex(mutex) =>
          if mutex !in holders {
            a := Some(Lock(i));
            TakeMutex(i);
          }
        case Looking(_) =>
          var hit := requests[i].key in cache && (reliable || !o.readFails);
          a := Some(LookUp(i, hit));
          ReadCache(i, hit);
        case Compiling(_) =>
          a := Some(Compiled(i, o.compiled));
          TakeOutput(i, o.compiled);
        case CompilingLinked =>
          a := Some(Compiled(i, o.compiled));
          TakeOutput(i, o.compiled);
        case Storing(_, _) =>
          if o.writeFails {
            a := Some(WriteFailed(i));
            Finish(i, Failed);
          } else {
            a := Some(Write(i));
            StoreOutput(i);
          }
        case Written(_, output) =>
          a := Some(Return(i));
          Finish(i, Succeeded(output));
      }
    }

    /** Serves the requests, one stretch of one of them at each turn of any schedule.  A request with
        libraries has succeeded exactly if the compiler answered it with an output, which it returns.
        If reads of stored entries succeed, no key is stored twice or over what was on disk, and every
        request without libraries that has succeeded returned what the cache holds for its key. */
    method Serve(schedule: seq<(nat, Outcome<O>)>) returns (ghost run: seq<Action<O>>)
      requires Initial(View())
      modifies this
      ensures run == Scheduled(reliable, old(View()), schedule) && View() == Exec(reliable, old(View()), run)
      ensures |requests| == |old(requests)|
      ensures forall i: nat | i < |requests| && requests[i].linked ::
        && (requests[i].phase.Succeeded? <==> Answers(run, i) != [] && Answers(run, i)[0].Some?)
        && (requests[i].phase.Succeeded? ==> Answers(run, i) == [Some(requests[i].phase.result)])
        && (requests[i].phase.Failed? <==> Answers(run, i) == [None] || Drop(i) in run)
      ensures reliable ==> forall a, b | 0 <= a < b < |stored| :: stored[a].0 != stored[b].0
      ensures reliable ==> forall a: nat | a < |stored| :: stored[a].0 !in old(cache)
      ensures reliable ==> forall i: nat | i < |requests| && requests[i].phase.Succeeded? && !requests[i].linked ::
        requests[i].key in cache && requests[i].phase.result == cache[requests[i].key]
    {
      ghost var start := View();
      run := [];
      var turn := 0;
      while turn < |schedule|
        invariant turn <= |schedule|
        invariant run == Scheduled(reliable, start, schedule[..turn]) && View() == Exec(reliable, start, run)
      {
        var (i, outcome) := schedule[turn];
        assert schedule[..turn + 1][..turn] == schedule[..turn];
        ghost var a := CompileContracts(i, outcome);
        if a.Some? {
          LegalAppend(reliable, start, run, a.value);
          run := run + [a.value];
        }
        turn := turn + 1;
      }
      assert schedule[..turn] == schedule;
      LinkedAnswered(reliable, start, run);
      if reliable {
        SingleFlight(start, run);
      }
    }
  }

  lemma LinkedAnswered<K, O>(reliable: bool, s: State<K, O>, run: seq<Action<O>>)
    requires Initial(s) && Legal(reliable, s, run)
    ensures var t := Exec(reliable, s, run);
      && |t.requests| == |s.requests|
      && forall i: nat | i < |t.requests| && t.requests[i].linked ::
        && (t.requests[i].phase.Succeeded? <==> Answers(run, i) != [] && Answers(run, i)[0].Some?)
        && (t.requests[i].phase.Succeeded? ==> Answers(run, i) == [Some(t.requests[i].phase.result)])
        && (t.requests[i].phase.Failed? <==> Answers(run, i) == [None] || Drop(i) in run)
  {
    RunKeepsRequestCount(reliable, s, run);
    var t := Exec(reliable, s, run);
    forall i: nat | i < |t.requests| && t.requests[i].linked
      ensures t.requests[i].phase.Succeeded? <==> Answers(run, i) != [] && Answers(run, i)[0].Some?
      ensures t.requests[i].phase.Succeeded? ==> Answers(run, i) == [Some(t.requests[i].phase.result)]
      ensures t.requests[i].phase.Failed? <==> Answers(run, i) == [None] || Drop(i) in run
    {
      RunHistory(reliable, s, run, i);
      LinkedReturnsItsAnswer(reliable, s, run, i);
    }
  }
}
