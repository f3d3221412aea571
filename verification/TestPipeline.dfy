/**
 Scheduler and aggregator together: the discoveries, the reports made while the test definitions are
 created and the events of the corpus run reach the aggregator in that order; execution updates are
 mixed in anywhere.
 */
module TestPipeline {
  import opened Common
  import CP = CorpusProcessor
  import opened CompletionTracker

  // Group key (metadata file and mode) and case of one test definition.
  datatype Definition<K, I> = Definition(key: K, item: I)

  ghost predicate Distinct<K, I>(defs: seq<Definition<K, I>>) {
    forall i, j | 0 <= i < j < |defs| :: defs[i] != defs[j]
  }

  function Discoveries<K, I>(defs: seq<Definition<K, I>>): seq<Event<K, I, CP.Event>> {
    seq(|defs|, i requires 0 <= i < |defs| => Discovered(defs[i].key, defs[i].item))
  }

  ghost predicate ReportsOnly<K, I>(defs: seq<Definition<K, I>>, events: seq<CP.Event>) {
    forall e | e in events :: !e.Completion? && e.task < |defs|
  }

  function Terminals<K, I>(defs: seq<Definition<K, I>>, events: seq<CP.Event>): seq<Event<K, I, CP.Event>>
    requires ReportsOnly(defs, events)
  {
    seq(|events|, i requires 0 <= i < |events| =>
      assert events[i] in events;
      Terminal(defs[events[i].task].key, defs[events[i].task].item, events[i]))
  }

  // The history without the execution updates.
  function Essential<K, I, S>(h: seq<Event<K, I, S>>): seq<Event<K, I, S>> {
    if h == [] then [] else
      Essential(h[..|h| - 1]) + if h[|h| - 1].Touched? then [] else [h[|h| - 1]]
  }

  /** What the aggregator may receive from a corpus run that sent `events`. */
  ghost predicate Received<K, I>(h: seq<Event<K, I, CP.Event>>, defs: seq<Definition<K, I>>, events: seq<CP.Event>) {
    && ReportsOnly(defs, events)
    && Essential(h) == Discoveries(defs) + Terminals(defs, events)
    && forall e | e in h && e.Touched? :: Definition(e.key, e.item) in defs
  }

  // ---------------------------------------------------------------- order and members survive

  lemma {:induction false} EssentialMembers<K, I, S>(h: seq<Event<K, I, S>>, e: Event<K, I, S>)
    ensures e in Essential(h) <==> e in h && !e.Touched?
  {
    if h != [] {
      var n := |h| - 1;
      EssentialMembers(h[..n], e);
      assert h == h[..n] + [h[n]];
    }
  }

  lemma {:induction false} EssentialOrder<K, I, S>(h: seq<Event<K, I, S>>, a: nat, b: nat) returns (a': nat, b': nat)
    requires a < b < |h| && !h[a].Touched? && !h[b].Touched?
    ensures a' < b' < |Essential(h)| && Essential(h)[a'] == h[a] && Essential(h)[b'] == h[b]
  {
    var n := |h| - 1;
    if b < n {
      a', b' := EssentialOrder(h[..n], a, b);
    } else {
      EssentialMembers(h[..n], h[a]);
      assert h[..n][a] == h[a];
      a' :| a' < |Essential(h[..n])| && Essential(h[..n])[a'] == h[a];
      b' := |Essential(h[..n])|;
    }
  }

  // ---------------------------------------------------------------- counting reports

  lemma ReportsConcat(x: seq<CP.Event>, y: seq<CP.Event>, i: nat)
    ensures CP.Reports(x + y, i) == CP.Reports(x, i) + CP.Reports(y, i)
  {
  }

  lemma NamedIsReported(events: seq<CP.Event>, i: nat)
    ensures CP.Reports(events, i) > 0 <==> exists e :: e in events && CP.Names(e, i)
  {
    var s, f, g := CP.Succeeded(i), CP.Failed(i), CP.Ignored(i);
    assert CP.Names(s, i) && CP.Names(f, i) && CP.Names(g, i);
    assert CP.Reports(events, i) > 0 <==> s in events || f in events || g in events by {
      assert forall e :: e in multiset(events) <==> e in events;
    }
  }

  lemma NamedOnce(events: seq<CP.Event>, i: nat, a: nat, b: nat)
    requires a < b < |events| && CP.Names(events[a], i) && CP.Names(events[b], i)
    ensures CP.Reports(events, i) >= 2
  {
    ReportsConcat(events[..b], events[b..], i);
    assert events == events[..b] + events[b..];
    assert events[a] in events[..b] by { assert events[..b][a] == events[a]; }
    assert events[b] in events[b..] by { assert events[b..][0] == events[b]; }
    NamedIsReported(events[..b], i);
    NamedIsReported(events[b..], i);
  }

  // ---------------------------------------------------------------- the history is well-formed

  lemma DefinitionOf<K, I>(h: seq<Event<K, I, CP.Event>>, defs: seq<Definition<K, I>>, events: seq<CP.Event>,
                           e: Event<K, I, CP.Event>)
    requires Received(h, defs, events) && e in h && !e.Touched?
    ensures Definition(e.key, e.item) in defs
    ensures e.Terminal? ==> e.status in events && e.status.task < |defs| && !e.status.Completion? &&
                            defs[e.status.task] == Definition(e.key, e.item)
  {
    EssentialMembers(h, e);
    var d, t := Discoveries(defs), Terminals(defs, events);
    var p :| 0 <= p < |d + t| && (d + t)[p] == e;
    if p < |d| {
      assert d[p] == e;
    } else {
      assert t[p - |d|] == e && events[p - |d|] in events;
    }
  }

  lemma TerminalsDiffer<K, I>(h: seq<Event<K, I, CP.Event>>, defs: seq<Definition<K, I>>, events: seq<CP.Event>,
                              a: nat, b: nat)
    requires Received(h, defs, events) && Distinct(defs)
    requires forall i: nat | i < |defs| :: CP.Reports(events, i) <= 1
    requires a < b < |h| && h[a].Terminal? && !h[b].Touched?
    ensures h[b].Terminal? && (h[a].key == h[b].key ==> h[a].item != h[b].item)
  {
    var a', b' := EssentialOrder(h, a, b);
    var d, t := Discoveries(defs), Terminals(defs, events);
    assert a' >= |d|;
    assert (d + t)[a'] == t[a' - |d|] && (d + t)[b'] == t[b' - |d|];
    var x, y := events[a' - |d|], events[b' - |d|];
    assert x in events && y in events;
    if x.task == y.task {
      NamedOnce(events, x.task, a' - |d|, b' - |d|);
    }
  }

  lemma ReceivedIsWellFormed<K, I>(h: seq<Event<K, I, CP.Event>>, defs: seq<Definition<K, I>>,
                                   events: seq<CP.Event>, k: K)
    requires Received(h, defs, events) && Distinct(defs)
    requires forall i: nat | i < |defs| :: CP.Reports(events, i) <= 1
    ensures WellFormed(h, k)
    ensures DiscoveredItems(h, k) == set d | d in defs && d.key == k :: d.item
  {
    forall a, b | 0 <= a < b < |h| && IsTerminal(h[a], k)
      ensures !IsDiscovery(h[b], k) && (IsTerminal(h[b], k) ==> h[a].item != h[b].item)
    {
      if !h[b].Touched? {
        TerminalsDiffer(h, defs, events, a, b);
      }
    }
    forall e | e in h && !e.Touched? ensures Definition(e.key, e.item) in defs {
      DefinitionOf(h, defs, events, e);
    }
    forall d | d in defs ensures Discovered(d.key, d.item) in h {
      var i :| 0 <= i < |defs| && defs[i] == d;
      assert Discoveries(defs)[i] == Discovered(d.key, d.item);
      assert (Discoveries(defs) + Terminals(defs, events))[i] == Discovered(d.key, d.item);
      EssentialMembers(h, Discovered(d.key, d.item));
    }
    forall d | d in defs && d.key == k ensures d.item in DiscoveredItems(h, k) {
      assert IsDiscovery<K, I, CP.Event>(Discovered(d.key, d.item), k);
    }
  }

  // The group is complete exactly if each of its definitions has been reported.
  lemma CompleteIffAllReported<K, I>(h: seq<Event<K, I, CP.Event>>, defs: seq<Definition<K, I>>,
                                     events: seq<CP.Event>, k: K)
    requires Received(h, defs, events) && Distinct(defs)
    requires DiscoveredItems(h, k) == set d | d in defs && d.key == k :: d.item
    ensures Complete(h, k) <==> forall i: nat | i < |defs| && defs[i].key == k :: CP.Reports(events, i) > 0
  {
    forall i: nat | i < |defs| && defs[i].key == k
      ensures defs[i].item in TerminatedItems(h, k) <==> CP.Reports(events, i) > 0
    {
      NamedIsReported(events, i);
      if CP.Reports(events, i) > 0 {
        var e :| e in events && CP.Names(e, i);
        var p :| 0 <= p < |events| && events[p] == e;
        var x := Terminals(defs, events)[p];
        assert (Discoveries(defs) + Terminals(defs, events))[|defs| + p] == x;
        EssentialMembers(h, x);
        assert IsTerminal(x, k);
      }
      if defs[i].item in TerminatedItems(h, k) {
        var x :| x in h && IsTerminal(x, k) && x.item == defs[i].item;
        DefinitionOf(h, defs, events, x);
        assert x.status.task == i;
      }
    }
    assert forall i: nat | i < |defs| && defs[i].key == k :: defs[i].item in DiscoveredItems(h, k);
  }

  // ---------------------------------------------------------------- definitions and tasks

  /** What creating the test definitions leaves: each discovered definition has been reported once at
      that point (`early`, because its compiler cannot be had or it is incompatible), or has become
      the task of the corpus run at its place in `started`. */
  ghost predicate Created<K, I>(defs: seq<Definition<K, I>>, early: seq<CP.Event>, started: seq<nat>) {
    && ReportsOnly(defs, early)
    && (forall t | t in started :: t < |defs|)
    && (forall t, u | 0 <= t < u < |started| :: started[t] != started[u])
    && forall d: nat | d < |defs| :: CP.Reports(early, d) == if d in started then 0 else 1
  }

  predicate NamesTasks(events: seq<CP.Event>, tasks: nat) {
    forall e | e in events :: !e.Completion? && e.task < tasks
  }

  function RenamedEvent(e: CP.Event, started: seq<nat>): CP.Event
    requires !e.Completion? && e.task < |started|
  {
    match e
    case Succeeded(t) => CP.Succeeded(started[t])
    case Failed(t) => CP.Failed(started[t])
    case Ignored(t) => CP.Ignored(started[t])
  }

  // The events of the run by definition instead of by task.
  function Renamed(events: seq<CP.Event>, started: seq<nat>): (r: seq<CP.Event>)
    requires NamesTasks(events, |started|)
    ensures |r| == |events|
  {
    if events == [] then []
    else Renamed(events[..|events| - 1], started) + [RenamedEvent(events[|events| - 1], started)]
  }

  ghost predicate Injective(started: seq<nat>) { forall t, u | 0 <= t < u < |started| :: started[t] != started[u] }

  lemma RenamedNames(e: CP.Event, started: seq<nat>, t: nat)
    requires !e.Completion? && e.task < |started| && t < |started|
    requires Injective(started)
    ensures CP.Names(RenamedEvent(e, started), started[t]) <==> CP.Names(e, t)
  {
  }

  lemma {:induction false} RenamedReportsOf(events: seq<CP.Event>, started: seq<nat>, t: nat)
    requires NamesTasks(events, |started|) && t < |started| && Injective(started)
    ensures CP.Reports(Renamed(events, started), started[t]) == CP.Reports(events, t)
    decreases |events|
  {
    if events != [] {
      var n := |events| - 1;
      var init, last := events[..n], events[n];
      assert events == init + [last] && NamesTasks(init, |started|);
      RenamedReportsOf(init, started, t);
      RenamedSnoc(Renamed(init, started), init, last, started, t);
    }
  }

  lemma RenamedSnoc(renamed: seq<CP.Event>, events: seq<CP.Event>, last: CP.Event, started: seq<nat>, t: nat)
    requires !last.Completion? && last.task < |started| && t < |started| && Injective(started)
    requires CP.Reports(renamed, started[t]) == CP.Reports(events, t)
    ensures CP.Reports(renamed + [RenamedEvent(last, started)], started[t]) == CP.Reports(events + [last], t)
  {
    RenamedNames(last, started, t);
    CP.ReportsAppend(renamed, RenamedEvent(last, started), started[t]);
    CP.ReportsAppend(events, last, t);
  }

  lemma {:induction false} NoOthersRenamed(events: seq<CP.Event>, started: seq<nat>, d: nat)
    requires NamesTasks(events, |started|)
    ensures d !in started ==> CP.Reports(Renamed(events, started), d) == 0
    ensures forall e | e in Renamed(events, started) :: !e.Completion? && e.task in started
    decreases |events|
  {
    if events != [] {
      var n := |events| - 1;
      NoOthersRenamed(events[..n], started, d);
      CP.ReportsAppend(Renamed(events[..n], started), RenamedEvent(events[n], started), d);
    }
  }

  lemma RenamedReports(events: seq<CP.Event>, started: seq<nat>, d: nat)
    requires NamesTasks(events, |started|)
    requires forall t, u | 0 <= t < u < |started| :: started[t] != started[u]
    ensures forall t: nat | t < |started| && started[t] == d :: CP.Reports(Renamed(events, started), d) == CP.Reports(events, t)
    ensures d !in started ==> CP.Reports(Renamed(events, started), d) == 0
    ensures forall e | e in Renamed(events, started) :: !e.Completion? && e.task in started
  {
    NoOthersRenamed(events, started, d);
    forall t: nat | t < |started| && started[t] == d {
      RenamedReportsOf(events, started, t);
    }
  }

  // All reports of the definitions: the early ones and those of the run.
  function AllReports(early: seq<CP.Event>, events: seq<CP.Event>, started: seq<nat>): seq<CP.Event>
    requires NamesTasks(events, |started|)
  {
    early + Renamed(events, started)
  }

  lemma AllReportsOf<K, I>(defs: seq<Definition<K, I>>, early: seq<CP.Event>, started: seq<nat>, events: seq<CP.Event>, d: nat)
    requires Created(defs, early, started) && NamesTasks(events, |started|) && d < |defs|
    ensures d !in started ==> CP.Reports(AllReports(early, events, started), d) == 1
    ensures forall t: nat | t < |started| && started[t] == d ::
      CP.Reports(AllReports(early, events, started), d) == CP.Reports(events, t)
    ensures ReportsOnly(defs, AllReports(early, events, started))
  {
    RenamedReports(events, started, d);
    ReportsConcat(early, Renamed(events, started), d);
  }

  // The reports of a completed run, without Completion.
  function RunReports(c: CP.Config, run: seq<CP.Action>): seq<CP.Event>
    requires CP.Legal(c, CP.Init(c), run)
  {
    var events := CP.Exec(c, CP.Init(c), run).events;
    if events == [] then [] else events[..|events| - 1]
  }

  lemma CompletedRunReports(c: CP.Config, run: seq<CP.Action>)
    requires c.Valid() && CP.Legal(c, CP.Init(c), run)
    requires CP.Completion in CP.Exec(c, CP.Init(c), run).events
    ensures
      var s := CP.Exec(c, CP.Init(c), run);
      && |s.tasks| == c.tasks
      && (forall i: nat | i < c.tasks :: CP.Reports(RunReports(c, run), i) == if s.tasks[i].polled then 1 else 0)
      && (CP.PollsAll(c) ==> forall i: nat | i < c.tasks :: s.tasks[i].polled)
  {
    CP.ReachableInv(c, run);
    forall i: nat | i < c.tasks {
      CP.ExactlyOneReportAtCompletion(c, run, i);
    }
  }

  /** A completed corpus run over the definitions that became tasks, and what the aggregator receives:
      discoveries, early reports, the run's reports, and execution updates anywhere. */
  ghost predicate Delivered<K, I>(c: CP.Config, run: seq<CP.Action>, defs: seq<Definition<K, I>>,
                                  early: seq<CP.Event>, started: seq<nat>, h: seq<Event<K, I, CP.Event>>)
  {
    && CP.Legal(c, CP.Init(c), run) && CP.Completion in CP.Exec(c, CP.Init(c), run).events
    && NamesTasks(RunReports(c, run), |started|)
    && Received(h, defs, AllReports(early, RunReports(c, run), started))
  }

  // The reports of a completed run always name its tasks.
  lemma RunReportsNameTasks(c: CP.Config, run: seq<CP.Action>)
    requires c.Valid() && CP.Legal(c, CP.Init(c), run) && CP.Completion in CP.Exec(c, CP.Init(c), run).events
    ensures NamesTasks(RunReports(c, run), c.tasks)
  {
    CP.RunNamesTasks(c, CP.Init(c), run);
    CP.ReachableInv(c, run);
    var events := CP.Exec(c, CP.Init(c), run).events;
    assert forall e | e in RunReports(c, run) :: e in events;
  }

  /** Each task of the group was polled. */
  ghost predicate GroupServed<K, I>(defs: seq<Definition<K, I>>, started: seq<nat>, s: CP.State, k: K) {
    && (exists d :: d in defs && d.key == k)
    && forall t: nat | t < |started| && t < |s.tasks| && started[t] < |defs| && defs[started[t]].key == k :: s.tasks[t].polled
  }

  /** After any completed corpus run with distinct definitions, whatever the interleaving and the
      abort did, and with any definitions reported before the run, the aggregator has not panicked,
      and the group of a (file, mode) was announced exactly once, with all its cases and their
      statuses, if each of its tasks was polled; it was never announced if the abort dropped one of
      them before its first poll. */
  lemma EveryStartedGroupAnnouncedOnce<K(!new), I(!new)>(
      c: CP.Config, run: seq<CP.Action>, defs: seq<Definition<K, I>>, early: seq<CP.Event>, started: seq<nat>,
      h: seq<Event<K, I, CP.Event>>, k: K)
    requires c.Valid() && Distinct(defs) && Created(defs, early, started) && |started| == c.tasks
    requires Delivered(c, run, defs, early, started, h)
    ensures Sent(h).Some?
    ensures
      var mine := NoticesFor(Sent(h).value, k);
      if GroupServed(defs, started, CP.Exec(c, CP.Init(c), run), k)
      then |mine| == 1 && Carries(mine[0], h, k) && mine[0].statuses.Keys == set d | d in defs && d.key == k :: d.item
      else mine == []
  {
    var reports := AllReports(early, RunReports(c, run), started);
    forall d: nat | d < |defs|
      ensures CP.Reports(reports, d) <= 1
      ensures CP.Reports(reports, d) > 0 <==> TasksPolled(CP.Exec(c, CP.Init(c), run), started, d)
    {
      ReportedIfPolled(c, run, defs, early, started, d);
    }
    forall k' ensures WellFormed(h, k') {
      ReceivedIsWellFormed(h, defs, reports, k');
    }
    AnnouncedExactlyOnce(h, |h|);
    assert h[..|h|] == h;
    ReceivedIsWellFormed(h, defs, reports, k);
    CompleteIffAllReported(h, defs, reports, k);
    assert AnnouncedAsDue(h, k, |h|, Sent(h).value);
    GroupServedIff(defs, started, CP.Exec(c, CP.Init(c), run), k);
    assert (exists d :: d in defs && d.key == k) <==> DiscoveredItems(h, k) != {} by {
      if d :| d in defs && d.key == k { assert d.item in DiscoveredItems(h, k); }
    }
  }

  ghost predicate TasksPolled(s: CP.State, started: seq<nat>, d: nat) {
    forall t: nat | t < |started| && t < |s.tasks| && started[t] == d :: s.tasks[t].polled
  }

  lemma GroupServedIff<K, I>(defs: seq<Definition<K, I>>, started: seq<nat>, s: CP.State, k: K)
    ensures GroupServed(defs, started, s, k) <==>
      (exists d :: d in defs && d.key == k) && forall d: nat | d < |defs| && defs[d].key == k :: TasksPolled(s, started, d)
  {
    if forall d: nat | d < |defs| && defs[d].key == k :: TasksPolled(s, started, d) {
      forall t: nat | t < |started| && t < |s.tasks| && started[t] < |defs| && defs[started[t]].key == k
        ensures s.tasks[t].polled
      {
        assert TasksPolled(s, started, started[t]);
      }
    }
  }

  lemma ReportedIfPolled<K, I>(c: CP.Config, run: seq<CP.Action>, defs: seq<Definition<K, I>>, early: seq<CP.Event>,
                               started: seq<nat>, d: nat)
    requires c.Valid() && CP.Legal(c, CP.Init(c), run) && CP.Completion in CP.Exec(c, CP.Init(c), run).events
    requires Created(defs, early, started) && |started| == c.tasks && NamesTasks(RunReports(c, run), |started|)
    requires d < |defs|
    ensures var n := CP.Reports(AllReports(early, RunReports(c, run), started), d);
      n <= 1 && (n > 0 <==> TasksPolled(CP.Exec(c, CP.Init(c), run), started, d))
  {
    CompletedRunReports(c, run);
    AllReportsOf(defs, early, started, RunReports(c, run), d);
    if d in started {
      var t: nat :| t < |started| && started[t] == d;
    }
  }

  // ---------------------------------------------------------------- what is announced

  lemma {:induction false} RenamedMember(events: seq<CP.Event>, started: seq<nat>, e: CP.Event)
    requires NamesTasks(events, |started|) && e in events
    ensures !e.Completion? && e.task < |started| && RenamedEvent(e, started) in Renamed(events, started)
    decreases |events|
  {
    var n := |events| - 1;
    if e != events[n] {
      assert events == events[..n] + [events[n]];
      RenamedMember(events[..n], started, e);
    }
  }

  // A report reaches the aggregator as the terminal event of its definition.
  lemma ReportArrives<K, I>(h: seq<Event<K, I, CP.Event>>, defs: seq<Definition<K, I>>, events: seq<CP.Event>, e: CP.Event)
    requires Received(h, defs, events) && e in events
    ensures !e.Completion? && e.task < |defs| && Terminal(defs[e.task].key, defs[e.task].item, e) in h
  {
    var p :| 0 <= p < |events| && events[p] == e;
    var x := Terminals(defs, events)[p];
    assert (Discoveries(defs) + Terminals(defs, events))[|defs| + p] == x;
    EssentialMembers(h, x);
  }

  // The one report of a polled task, by what happened to its definition.
  lemma TaskReport(c: CP.Config, run: seq<CP.Action>, t: nat) returns (e: CP.Event)
    requires c.Valid() && CP.Legal(c, CP.Init(c), run) && CP.Completion in CP.Exec(c, CP.Init(c), run).events
    requires t < c.tasks && t < |CP.Exec(c, CP.Init(c), run).tasks| && CP.Exec(c, CP.Init(c), run).tasks[t].polled
    ensures e in RunReports(c, run)
    ensures CP.Processed(t, true) in run ==> e == CP.Succeeded(t)
    ensures CP.Processed(t, false) in run ==> e == CP.Failed(t)
    ensures !CP.WasProcessed(run, t) ==> e == CP.Ignored(t)
  {
    CompletedRunReports(c, run);
    CP.ExactlyOneReportAtCompletion(c, run, t);
    CP.ReportsTellTheRun(c, run, t);
    var events := CP.Exec(c, CP.Init(c), run).events;
    assert events == RunReports(c, run) + [CP.Completion];
    ReportsConcat(RunReports(c, run), [CP.Completion], t);
    e := if CP.Processed(t, true) in run then CP.Succeeded(t)
         else if CP.Processed(t, false) in run then CP.Failed(t) else CP.Ignored(t);
    assert e in events;
  }

  /** What is announced of a case is what happened to its definition: succeeded or failed as processing
      it did, ignored if it was never processed, or what was reported before the run. */
  lemma AnnouncedAsProcessed<K(!new), I(!new)>(
      c: CP.Config, run: seq<CP.Action>, defs: seq<Definition<K, I>>, early: seq<CP.Event>, started: seq<nat>,
      h: seq<Event<K, I, CP.Event>>, notice: Notice<K, I, CP.Event>)
    requires c.Valid() && Distinct(defs) && Created(defs, early, started) && |started| == c.tasks
    requires Delivered(c, run, defs, early, started, h)
    requires Sent(h).Some? && notice in NoticesFor(Sent(h).value, notice.key)
    ensures forall t: nat | t < |started| && started[t] < |defs| && defs[started[t]].key == notice.key ::
      var d := started[t];
      && defs[d].item in notice.statuses
      && (notice.statuses[defs[d].item] == CP.Succeeded(d) <==> CP.Processed(t, true) in run)
      && (notice.statuses[defs[d].item] == CP.Failed(d) <==> CP.Processed(t, false) in run)
      && (notice.statuses[defs[d].item] == CP.Ignored(d) <==> !CP.WasProcessed(run, t))
    ensures forall e | e in early && !e.Completion? && e.task < |defs| && defs[e.task].key == notice.key ::
      defs[e.task].item in notice.statuses && notice.statuses[defs[e.task].item] == e
  {
    var k := notice.key;
    var reports := AllReports(early, RunReports(c, run), started);
    EveryStartedGroupAnnouncedOnce(c, run, defs, early, started, h, k);
    assert NoticesFor(Sent(h).value, k) == [notice];
    assert Carries(notice, h, k);
    CompletedRunReports(c, run);
    forall t: nat | t < |started| && started[t] < |defs| && defs[started[t]].key == k
      ensures
        var d := started[t];
        && defs[d].item in notice.statuses
        && (notice.statuses[defs[d].item] == CP.Succeeded(d) <==> CP.Processed(t, true) in run)
        && (notice.statuses[defs[d].item] == CP.Failed(d) <==> CP.Processed(t, false) in run)
        && (notice.statuses[defs[d].item] == CP.Ignored(d) <==> !CP.WasProcessed(run, t))
    {
      var e := TaskReport(c, run, t);
      RenamedMember(RunReports(c, run), started, e);
      ReportArrives(h, defs, reports, RenamedEvent(e, started));
    }
    forall e | e in early && !e.Completion? && e.task < |defs| && defs[e.task].key == k
      ensures defs[e.task].item in notice.statuses && notice.statuses[defs[e.task].item] == e
    {
      assert e in reports;
      ReportArrives(h, defs, reports, e);
    }
  }

  /** Every discovered group is announced exactly once with all its cases, under fail-fast too, unless
      more than 30 definitions reach the corpus run with a concurrency limit other than one. */
  lemma EveryGroupAnnounced<K(!new), I(!new)>(
      c: CP.Config, run: seq<CP.Action>, defs: seq<Definition<K, I>>, early: seq<CP.Event>, started: seq<nat>,
      h: seq<Event<K, I, CP.Event>>, d: nat)
    requires c.Valid() && CP.PollsAll(c)
    requires Distinct(defs) && Created(defs, early, started) && |started| == c.tasks && d < |defs|
    requires Delivered(c, run, defs, early, started, h)
    ensures Sent(h).Some?
    ensures
      var mine := NoticesFor(Sent(h).value, defs[d].key);
      |mine| == 1 && Carries(mine[0], h, defs[d].key)
      && mine[0].statuses.Keys == set e | e in defs && e.key == defs[d].key :: e.item
  {
    CompletedRunReports(c, run);
    EveryStartedGroupAnnouncedOnce(c, run, defs, early, started, h, defs[d].key);
    assert defs[d] in defs;
  }

  /** Otherwise some run leaves a discovered group unannounced, whatever else the aggregator receives. */
  lemma SomeGroupUnannounced<K(!new), I(!new)>(
      c: CP.Config, defs: seq<Definition<K, I>>, early: seq<CP.Event>, started: seq<nat>)
      returns (run: seq<CP.Action>, d: Definition<K, I>)
    requires c.Valid() && !CP.PollsAll(c)
    requires Distinct(defs) && Created(defs, early, started) && |started| == c.tasks
    ensures CP.Legal(c, CP.Init(c), run) && CP.Completion in CP.Exec(c, CP.Init(c), run).events && d in defs
    ensures forall h: seq<Event<K, I, CP.Event>> | Delivered(c, run, defs, early, started, h) ::
      Sent(h).Some? && NoticesFor(Sent(h).value, d.key) == []
  {
    run := CP.UnpolledDefinitionIsNeverReported(c);
    var t := c.tasks - 1;
    assert started[t] in started;
    d := defs[started[t]];
    CP.ReachableInv(c, run);
    var s := CP.Exec(c, CP.Init(c), run);
    assert CP.TaskOk(c, s.tasks[t], CP.Reports(s.events, t));
    assert !GroupServed(defs, started, s, d.key);
    forall h: seq<Event<K, I, CP.Event>> | Delivered(c, run, defs, early, started, h)
      ensures Sent(h).Some? && NoticesFor(Sent(h).value, d.key) == []
    {
      EveryStartedGroupAnnouncedOnce(c, run, defs, early, started, h, d.key);
    }
  }
}
