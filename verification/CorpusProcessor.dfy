/**
 The fail-fast scheduler that drives every test definition of a corpus.

 All task futures live inside one joined future, so the code between two await points of one
 task is never interrupted by another task.  An `Action` is one such stretch; a run is any legal
 sequence of actions.  Which waiter a semaphore wakes, when the running-list lock is granted and
 how long a definition is processed is left open.

 The joined future (`join_all` of futures-util 0.3.31) polls its futures in order, so a future is not
 polled again before all have been polled once; and the select looks at the abort notification only
 when a poll of the joined future has returned.  Up to 30 futures are all polled in every such poll.
 More than 30 are kept in a queue, and a poll also returns once two futures that it polled have woken
 themselves.  While some future is unpolled this can coincide with a failure only if the failed task
 yields at the running-list lock behind another one that yielded while processing its definition:
 yielding at the semaphore or at the lock would have kept the later task from getting that far.

 The class `CorpusRun` performs the same stretches statement by statement on mutable fields.
 */
module CorpusProcessor {
  import opened Common

  datatype Config = Config(tasks: nat, failFast: bool, limit: Option<nat>) {
    // A configured limit of zero means "no limit", so a semaphore never starts out empty.
    predicate Valid() { limit.Some? ==> limit.value > 0 }
  }

  datatype Phase =
    | Unpolled     // the future exists, its body has not started
    | AwaitPermit  // waiting for the concurrency semaphore
    | AwaitList    // waiting to be entered in the list of running tasks
    | Processing   // waiting for the definition to be processed
    | AwaitUnlist  // reported, waiting to leave the list of running tasks
    | Finished     // the future returned
    | Dropped      // the future was dropped by the abort

  // `armed` says that the drop guard still holds its action; `polled` that the body ever started.
  datatype Task = Task(phase: Phase, polled: bool, armed: bool, permit: bool)

  datatype Event = Succeeded(task: nat) | Failed(task: nat) | Ignored(task: nat) | Completion

  datatype Stage = Joining | Dropping | Completed

  datatype State = State(
    tasks: seq<Task>, free: nat, closed: bool, triggered: bool, notified: bool,
    running: set<nat>, events: seq<Event>, stage: Stage)

  datatype Action =
    | FirstPoll(i: nat)
    | Acquired(i: nat)
    | AcquireFailed(i: nat)
    | Listed(i: nat)
    | Processed(i: nat, ok: bool)
    | Unlisted(i: nat)
    | Abort
    | Drop(i: nat)
    | ReportCompletion

  function Init(c: Config): State {
    State(seq(c.tasks, _ => Task(Unpolled, false, false, false)),
          c.limit.GetOr(0), false, false, false, {}, [], Joining)
  }

  predicate AtRest(t: Task) { t.phase.Finished? || t.phase.Dropped? }

  predicate InPhase(s: State, i: nat, phase: Phase) {
    i < |s.tasks| && s.stage.Joining? && s.tasks[i].phase == phase
  }

  predicate AllAtRest(s: State) { forall i | 0 <= i < |s.tasks| :: AtRest(s.tasks[i]) }

  // The most futures that the joined future polls all at once.
  const PolledAtOnce: nat := 30

  predicate AllPolled(s: State) { forall i | 0 <= i < |s.tasks| :: s.tasks[i].polled }

  // Futures are polled in order; until all have been polled only the last one polled moves.
  predicate InTurn(s: State, i: nat) {
    AllPolled(s) || forall j | i < j < |s.tasks| :: !s.tasks[j].polled
  }

  predicate Moves(s: State, i: nat, phase: Phase) { InPhase(s, i, phase) && InTurn(s, i) }

  // Task `k` was polled last and waits to leave the list, behind one that is processing.
  predicate YieldsBehind(s: State, j: nat, k: nat) {
    && j < k < |s.tasks|
    && s.tasks[j].phase.Processing? && s.tasks[k].phase.AwaitUnlist?
    && forall l | k < l < |s.tasks| :: !s.tasks[l].polled
  }

  // A poll of the joined future may have returned.
  predicate PollReturned(s: State) {
    || AllPolled(s)
    || (|s.tasks| > PolledAtOnce && exists j: nat, k: nat | j < k < |s.tasks| :: YieldsBehind(s, j, k))
  }

  predicate Enabled(c: Config, s: State, a: Action) {
    match a
    case FirstPoll(i) => InPhase(s, i, Unpolled) && forall j | 0 <= j < i :: s.tasks[j].polled
    case Acquired(i) => Moves(s, i, AwaitPermit) && s.free > 0
    case AcquireFailed(i) => Moves(s, i, AwaitPermit) && s.closed
    case Listed(i) => Moves(s, i, AwaitList)
    case Processed(i, _) => Moves(s, i, Processing)
    case Unlisted(i) => Moves(s, i, AwaitUnlist)
    case Abort => s.stage.Joining? && c.failFast && s.notified && PollReturned(s)
    case Drop(i) => i < |s.tasks| && s.stage.Dropping? && !AtRest(s.tasks[i])
    case ReportCompletion => !s.stage.Completed? && AllAtRest(s)
  }

  function Skip(s: State, i: nat): State
    requires i < |s.tasks|
  {
    s.(tasks := s.tasks[i := Task(Finished, true, false, false)], events := s.events + [Ignored(i)])
  }

  function Release(s: State, t: Task): nat { if t.permit then s.free + 1 else s.free }

  function Apply(c: Config, s: State, a: Action): State
    requires Enabled(c, s, a)
  {
    match a
    case FirstPoll(i) =>
      if c.failFast && s.triggered then Skip(s, i)
      else if c.limit.Some? then s.(tasks := s.tasks[i := Task(AwaitPermit, true, c.failFast, false)])
      else s.(tasks := s.tasks[i := Task(AwaitList, true, c.failFast, false)])
    case Acquired(i) =>
      if c.failFast && s.triggered then Skip(s, i)
      else s.(tasks := s.tasks[i := s.tasks[i].(phase := AwaitList, permit := true)], free := s.free - 1)
    case AcquireFailed(i) => Skip(s, i)
    case Listed(i) =>
      s.(tasks := s.tasks[i := s.tasks[i].(phase := Processing)], running := s.running + {i})
    case Processed(i, ok) =>
      var trip := !ok && c.failFast;
      s.(tasks := s.tasks[i := s.tasks[i].(phase := AwaitUnlist, armed := false, permit := false)],
         free := Release(s, s.tasks[i]),
         events := s.events + [if ok then Succeeded(i) else Failed(i)],
         triggered := s.triggered || trip,
         closed := s.closed || (trip && c.limit.Some?),
         notified := s.notified || trip)
    case Unlisted(i) =>
      s.(tasks := s.tasks[i := s.tasks[i].(phase := Finished)], running := s.running - {i})
    case Abort => s.(stage := Dropping, notified := false)
    case Drop(i) =>
      s.(tasks := s.tasks[i := s.tasks[i].(phase := Dropped, armed := false, permit := false)],
         free := Release(s, s.tasks[i]),
         events := if s.tasks[i].armed then s.events + [Ignored(i)] else s.events)
    case ReportCompletion => s.(stage := Completed, events := s.events + [Completion])
  }

  predicate Legal(c: Config, s: State, run: seq<Action>)
    decreases |run|
  {
    run == [] || (Enabled(c, s, run[0]) && Legal(c, Apply(c, s, run[0]), run[1..]))
  }

  function Exec(c: Config, s: State, run: seq<Action>): State
    requires Legal(c, s, run)
    decreases |run|
  {
    if run == [] then s else Exec(c, Apply(c, s, run[0]), run[1..])
  }

  lemma Prepend(c: Config, s: State, a: Action, s': State, rest: seq<Action>) returns (run: seq<Action>)
    requires Enabled(c, s, a) && s' == Apply(c, s, a) && Legal(c, s', rest)
    ensures Legal(c, s, run) && Exec(c, s, run) == Exec(c, s', rest) && run == [a] + rest
  {
    run := [a] + rest;
    assert run[1..] == rest;
  }

  // ---------------------------------------------------------------- the invariant of every run

  // How many terminal reports of task `i` have been sent.
  function Reports(events: seq<Event>, i: nat): nat {
    multiset(events)[Succeeded(i)] + multiset(events)[Failed(i)] + multiset(events)[Ignored(i)]
  }

  ghost predicate TaskOk(c: Config, t: Task, reports: nat) {
    match t.phase
    case Unpolled => !t.polled && !t.armed && !t.permit && reports == 0
    case AwaitPermit => t.polled && t.armed == c.failFast && !t.permit && reports == 0 && c.limit.Some?
    case AwaitList => t.polled && t.armed == c.failFast && t.permit == c.limit.Some? && reports == 0
    case Processing => t.polled && t.armed == c.failFast && t.permit == c.limit.Some? && reports == 0
    case AwaitUnlist => t.polled && !t.armed && !t.permit && reports == 1
    case Finished => t.polled && !t.armed && !t.permit && reports == 1
    case Dropped => !t.armed && !t.permit && reports == if t.polled then 1 else 0
  }

  ghost predicate TasksOk(c: Config, s: State) {
    forall i: nat | i < |s.tasks| :: TaskOk(c, s.tasks[i], Reports(s.events, i))
  }

  function Holders(tasks: seq<Task>): set<nat> { set i: nat | i < |tasks| && tasks[i].permit }

  ghost predicate PermitsOk(c: Config, s: State) {
    c.limit.Some? ==> s.free + |Holders(s.tasks)| == c.limit.value
  }

  predicate NoneDropped(tasks: seq<Task>) { forall i | 0 <= i < |tasks| :: !tasks[i].phase.Dropped? }

  // Futures are dropped by an abort only, which takes fail-fast; none is left at the end.
  ghost predicate StageOk(c: Config, s: State) {
    && (s.stage.Joining? || !c.failFast ==> NoneDropped(s.tasks))
    && (s.stage.Dropping? ==> c.failFast)
    && (s.closed ==> c.limit.Some?)
    && (s.stage.Completed? ==> AllAtRest(s))
  }

  // The completion event is sent once, as the last one.
  ghost predicate CompletionOk(s: State) {
    if s.stage.Completed? then
      |s.events| > 0 && s.events[|s.events| - 1] == Completion && Completion !in s.events[..|s.events| - 1]
    else Completion !in s.events
  }

  /** Configurations under which the joined future is never dropped before it has polled all. */
  predicate PollsAll(c: Config) {
    !c.failFast || c.tasks <= PolledAtOnce || c.limit == Some(1)
  }

  predicate BehindThePermit(t: Task) { t.phase.Unpolled? || t.phase.AwaitPermit? || t.phase.Finished? }

  // With one permit nobody gets past the semaphore behind its holder, before all have been polled;
  // so no abort comes before that.
  ghost predicate PolledOk(c: Config, s: State) {
    && (c.limit == Some(1) && s.stage.Joining? && !AllPolled(s) ==>
          forall j, k | 0 <= j < k < |s.tasks| && s.tasks[j].permit :: BehindThePermit(s.tasks[k]))
    && (PollsAll(c) && !s.stage.Joining? ==> AllPolled(s))
  }

  ghost predicate Inv(c: Config, s: State) {
    |s.tasks| == c.tasks && TasksOk(c, s) && PermitsOk(c, s) && StageOk(c, s) && CompletionOk(s) && PolledOk(c, s)
  }

  lemma HoldersUpdate(tasks: seq<Task>, i: nat, t: Task)
    requires i < |tasks|
    ensures Holders(tasks[i := t]) == if t.permit then Holders(tasks) + {i} else Holders(tasks) - {i}
  {
  }

  predicate Names(e: Event, i: nat) { !e.Completion? && e.task == i }

  lemma ReportsAppend(events: seq<Event>, e: Event, i: nat)
    ensures Reports(events + [e], i) == Reports(events, i) + if Names(e, i) then 1 else 0
  {
  }

  // The only report an action sends is about its own task.
  lemma StepReports(c: Config, s: State, a: Action, j: nat)
    requires Enabled(c, s, a)
    ensures Reports(Apply(c, s, a).events, j) == Reports(s.events, j) ||
            (!a.Abort? && !a.ReportCompletion? && a.i == j)
  {
    var s' := Apply(c, s, a);
    if s'.events != s.events {
      var e := s'.events[|s.events|];
      assert s'.events == s.events + [e];
      ReportsAppend(s.events, e, j);
    }
  }

  lemma StepKeepsTask(c: Config, s: State, a: Action)
    requires Inv(c, s) && Enabled(c, s, a) && !a.Abort? && !a.ReportCompletion?
    ensures TaskOk(c, Apply(c, s, a).tasks[a.i], Reports(Apply(c, s, a).events, a.i))
  {
    var s' := Apply(c, s, a);
    assert TaskOk(c, s.tasks[a.i], Reports(s.events, a.i));
    if s'.events != s.events {
      ReportsAppend(s.events, s'.events[|s.events|], a.i);
    }
  }

  lemma StepKeepsTasks(c: Config, s: State, a: Action)
    requires Inv(c, s) && Enabled(c, s, a)
    ensures TasksOk(c, Apply(c, s, a))
  {
    var s' := Apply(c, s, a);
    forall j: nat | j < |s'.tasks| ensures TaskOk(c, s'.tasks[j], Reports(s'.events, j)) {
      StepReports(c, s, a, j);
      if !a.Abort? && !a.ReportCompletion? && a.i == j {
        StepKeepsTask(c, s, a);
      } else {
        assert TaskOk(c, s.tasks[j], Reports(s.events, j));
      }
    }
  }

  // An action of a task changes that task only.
  lemma OwnTaskOnly(c: Config, s: State, a: Action)
    requires Enabled(c, s, a)
    ensures if a.Abort? || a.ReportCompletion? then Apply(c, s, a).tasks == s.tasks
            else Apply(c, s, a).tasks == s.tasks[a.i := Apply(c, s, a).tasks[a.i]]
  {
  }

  lemma StepKeepsPermits(c: Config, s: State, a: Action)
    requires TasksOk(c, s) && PermitsOk(c, s) && Enabled(c, s, a)
    ensures PermitsOk(c, Apply(c, s, a))
  {
    var s' := Apply(c, s, a);
    OwnTaskOnly(c, s, a);
    if !a.Abort? && !a.ReportCompletion? {
      assert TaskOk(c, s.tasks[a.i], Reports(s.events, a.i));
      HoldersUpdate(s.tasks, a.i, s'.tasks[a.i]);
      assert s.tasks[a.i].permit <==> a.i in Holders(s.tasks);
      if s.tasks[a.i].permit == s'.tasks[a.i].permit {
        assert Holders(s'.tasks) == Holders(s.tasks) && s'.free == s.free;
      }
    }
  }

  lemma StepKeepsStage(c: Config, s: State, a: Action)
    requires StageOk(c, s) && Enabled(c, s, a)
    ensures StageOk(c, Apply(c, s, a))
  {
    OwnTaskOnly(c, s, a);
  }

  lemma StepKeepsCompletion(c: Config, s: State, a: Action)
    requires CompletionOk(s) && Enabled(c, s, a)
    ensures CompletionOk(Apply(c, s, a))
  {
    if a.ReportCompletion? {
      assert (s.events + [Completion])[..|s.events|] == s.events;
    }
  }

  // A task once polled stays so, and a task is polled first by its own action.
  lemma StepPolls(c: Config, s: State, a: Action, j: nat)
    requires Enabled(c, s, a) && j < |s.tasks| && TaskOk(c, s.tasks[j], Reports(s.events, j))
    ensures j < |Apply(c, s, a).tasks|
    ensures Apply(c, s, a).tasks[j].polled <==> s.tasks[j].polled || a == FirstPoll(j)
  {
  }

  lemma OneHolder(c: Config, s: State, i: nat, j: nat)
    requires PermitsOk(c, s) && c.limit == Some(1) && i < |s.tasks| && j < |s.tasks|
    requires s.tasks[i].permit
    ensures s.free == 0 && (s.tasks[j].permit ==> i == j)
  {
    assert i in Holders(s.tasks);
    if s.tasks[j].permit && i != j {
      assert {i, j} <= Holders(s.tasks);
      SubsetSize({i, j}, Holders(s.tasks));
    }
  }

  lemma StepKeepsBehind(c: Config, s: State, a: Action, j: nat, k: nat)
    requires Inv(c, s) && Enabled(c, s, a) && c.limit == Some(1)
    requires Apply(c, s, a).stage.Joining? && !AllPolled(Apply(c, s, a)) && !AllPolled(s)
    requires j < k < |s.tasks| && Apply(c, s, a).tasks[j].permit
    ensures BehindThePermit(Apply(c, s, a).tasks[k])
  {
    OwnTaskOnly(c, s, a);
    assert TaskOk(c, s.tasks[j], Reports(s.events, j)) && TaskOk(c, s.tasks[k], Reports(s.events, k));
    if s.tasks[j].permit {
      OneHolder(c, s, j, k);
      assert BehindThePermit(s.tasks[k]);
    } else {
      assert a == Acquired(j);
    }
  }

  lemma StepKeepsPolled(c: Config, s: State, a: Action)
    requires Inv(c, s) && Enabled(c, s, a)
    ensures PolledOk(c, Apply(c, s, a))
  {
    var s' := Apply(c, s, a);
    OwnTaskOnly(c, s, a);
    forall j: nat | j < |s.tasks|
      ensures s'.tasks[j].polled <==> s.tasks[j].polled || a == FirstPoll(j)
    {
      assert TaskOk(c, s.tasks[j], Reports(s.events, j));
      StepPolls(c, s, a, j);
    }
    if c.limit == Some(1) && s'.stage.Joining? && !AllPolled(s') {
      forall j, k | 0 <= j < k < |s'.tasks| && s'.tasks[j].permit
        ensures BehindThePermit(s'.tasks[k])
      {
        StepKeepsBehind(c, s, a, j, k);
      }
    }
    if PollsAll(c) && s.stage.Joining? && !s'.stage.Joining? {
      LeavingPollsAll(c, s, a);
    }
  }

  // The joined future is left, by the abort or by its end, with every future polled.
  lemma LeavingPollsAll(c: Config, s: State, a: Action)
    requires Inv(c, s) && Enabled(c, s, a) && PollsAll(c)
    requires s.stage.Joining? && !Apply(c, s, a).stage.Joining?
    ensures AllPolled(s)
  {
    if a.Abort? {
      forall j: nat, k: nat | j < k < |s.tasks| && c.limit == Some(1) && !AllPolled(s)
        ensures !YieldsBehind(s, j, k)
      {
        assert TaskOk(c, s.tasks[j], Reports(s.events, j));
      }
    } else {
      forall i: nat | i < |s.tasks|
        ensures s.tasks[i].polled
      {
        assert TaskOk(c, s.tasks[i], Reports(s.events, i));
      }
    }
  }

  lemma StepKeepsInv(c: Config, s: State, a: Action)
    requires Inv(c, s) && Enabled(c, s, a)
    ensures Inv(c, Apply(c, s, a))
  {
    StepKeepsPolled(c, s, a);
    StepKeepsTasks(c, s, a);
    StepKeepsPermits(c, s, a);
    StepKeepsStage(c, s, a);
    StepKeepsCompletion(c, s, a);
  }

  lemma {:induction false} RunKeepsInv(c: Config, s: State, run: seq<Action>)
    requires Inv(c, s) && Legal(c, s, run)
    ensures Inv(c, Exec(c, s, run))
    decreases |run|
  {
    if run != [] {
      StepKeepsInv(c, s, run[0]);
      RunKeepsInv(c, Apply(c, s, run[0]), run[1..]);
    }
  }

  lemma ReachableInv(c: Config, run: seq<Action>)
    requires c.Valid() && Legal(c, Init(c), run)
    ensures Inv(c, Exec(c, Init(c), run))
  {
    assert Holders(Init(c).tasks) == {};
    RunKeepsInv(c, Init(c), run);
  }

  // Every report names a task of the run.
  ghost predicate EventsOk(s: State) {
    forall e | e in s.events :: e.Completion? || e.task < |s.tasks|
  }

  lemma {:induction false} RunNamesTasks(c: Config, s: State, run: seq<Action>)
    requires EventsOk(s) && Legal(c, s, run)
    ensures EventsOk(Exec(c, s, run)) && |Exec(c, s, run).tasks| == |s.tasks|
    decreases |run|
  {
    if run != [] {
      OwnTaskOnly(c, s, run[0]);
      RunNamesTasks(c, Apply(c, s, run[0]), run[1..]);
    }
  }

  // ---------------------------------------------------------------- main results

  /** At no point of any run has a definition been reported twice. */
  lemma AtMostOneReport(c: Config, run: seq<Action>, i: nat)
    requires c.Valid() && Legal(c, Init(c), run) && i < c.tasks
    ensures Reports(Exec(c, Init(c), run).events, i) <= 1
  {
    ReachableInv(c, run);
    assert TaskOk(c, Exec(c, Init(c), run).tasks[i], Reports(Exec(c, Init(c), run).events, i));
  }

  /** Once Completion is sent it is the last event, and before it a definition was reported exactly
      once if its future ever started and not at all if it never did.  Without fail-fast every
      definition was reported. */
  lemma ExactlyOneReportAtCompletion(c: Config, run: seq<Action>, i: nat)
    requires c.Valid() && Legal(c, Init(c), run) && i < c.tasks
    requires Completion in Exec(c, Init(c), run).events
    ensures
      var s := Exec(c, Init(c), run);
      var before := s.events[..|s.events| - 1];
      && |s.tasks| == c.tasks
      && s.events == before + [Completion] && Completion !in before
      && Reports(before, i) == (if s.tasks[i].polled then 1 else 0)
      && (!c.failFast ==> s.tasks[i].polled)
  {
    ReachableInv(c, run);
    var s := Exec(c, Init(c), run);
    var before := s.events[..|s.events| - 1];
    assert s.events == before + [Completion];
    assert TaskOk(c, s.tasks[i], Reports(s.events, i));
  }

  /** Permits are conserved, so no more tasks than the limit hold one. */
  lemma PermitsWithinLimit(c: Config, run: seq<Action>)
    requires c.Valid() && c.limit.Some? && Legal(c, Init(c), run)
    ensures
      var s := Exec(c, Init(c), run);
      && |s.tasks| == c.tasks
      && s.free + |Holders(s.tasks)| == c.limit.value
      && |Holders(s.tasks)| <= c.limit.value
      && (s.stage.Completed? ==> s.free == c.limit.value)
      && forall i: nat | i < c.tasks && s.tasks[i].phase.Processing? :: i in Holders(s.tasks)
  {
    ReachableInv(c, run);
    var s := Exec(c, Init(c), run);
    if s.stage.Completed? {
      forall i: nat | i < c.tasks ensures !s.tasks[i].permit {
        assert TaskOk(c, s.tasks[i], Reports(s.events, i));
      }
      assert Holders(s.tasks) == {};
    }
    forall i: nat | i < c.tasks && s.tasks[i].phase.Processing? ensures i in Holders(s.tasks) {
      assert TaskOk(c, s.tasks[i], Reports(s.events, i));
    }
  }

  lemma {:induction false} Concatenate(c: Config, s: State, first: seq<Action>, second: seq<Action>)
    requires Legal(c, s, first) && Legal(c, Exec(c, s, first), second)
    ensures Legal(c, s, first + second)
    ensures Exec(c, s, first + second) == Exec(c, Exec(c, s, first), second)
    decreases |first|
  {
    if first == [] {
      assert first + second == second;
    } else {
      Concatenate(c, Apply(c, s, first[0]), first[1..], second);
      assert (first + second)[1..] == first[1..] + second;
    }
  }

  // ---------------------------------------------------------------- progress

  function PhaseRank(p: Phase): nat {
    match p
    case Unpolled => 5
    case AwaitPermit => 4
    case AwaitList => 3
    case Processing => 2
    case AwaitUnlist => 1
    case Finished => 0
    case Dropped => 0
  }

  function TasksRank(tasks: seq<Task>): nat {
    if tasks == [] then 0 else TasksRank(tasks[..|tasks| - 1]) + PhaseRank(tasks[|tasks| - 1].phase)
  }

  function Rank(s: State): nat {
    TasksRank(s.tasks) + match s.stage case Joining => 2 case Dropping => 1 case Completed => 0
  }

  lemma {:induction false} TasksRankUpdate(tasks: seq<Task>, i: nat, t: Task)
    requires i < |tasks|
    ensures TasksRank(tasks[i := t]) + PhaseRank(tasks[i].phase) == TasksRank(tasks) + PhaseRank(t.phase)
  {
    var n := |tasks| - 1;
    if i < n {
      TasksRankUpdate(tasks[..n], i, t);
      assert tasks[i := t][..n] == tasks[..n][i := t];
    } else {
      assert tasks[i := t][..n] == tasks[..n];
    }
  }

  lemma OwnPhaseFalls(c: Config, s: State, a: Action)
    requires Enabled(c, s, a) && !a.Abort? && !a.ReportCompletion?
    ensures PhaseRank(Apply(c, s, a).tasks[a.i].phase) < PhaseRank(s.tasks[a.i].phase)
    ensures Apply(c, s, a).stage == s.stage
  {
    match a
    case FirstPoll(i) =>
    case Acquired(i) =>
    case AcquireFailed(i) =>
    case Listed(i) =>
    case Processed(i, ok) =>
    case Unlisted(i) =>
    case Drop(i) =>
  }

  lemma StepLowersRank(c: Config, s: State, a: Action)
    requires Enabled(c, s, a)
    ensures Rank(Apply(c, s, a)) < Rank(s)
  {
    OwnTaskOnly(c, s, a);
    if !a.Abort? && !a.ReportCompletion? {
      OwnPhaseFalls(c, s, a);
      TasksRankUpdate(s.tasks, a.i, Apply(c, s, a).tasks[a.i]);
    }
  }

  lemma {:induction false} FirstUnpolled(s: State, n: nat) returns (i: nat)
    requires n <= |s.tasks| && exists j: nat | j < n :: !s.tasks[j].polled
    ensures i < n && !s.tasks[i].polled && forall j | 0 <= j < i :: s.tasks[j].polled
    decreases n
  {
    if j: nat :| j < n - 1 && !s.tasks[j].polled {
      i := FirstUnpolled(s, n - 1);
    } else {
      i := n - 1;
    }
  }

  lemma NotStuck(c: Config, s: State) returns (a: Action)
    requires c.Valid() && Inv(c, s) && !s.stage.Completed?
    ensures Enabled(c, s, a) && !a.Abort?
  {
    if AllAtRest(s) {
      a := ReportCompletion;
    } else if s.stage.Joining? && !AllPolled(s) {
      var i := FirstUnpolled(s, |s.tasks|);
      assert TaskOk(c, s.tasks[i], Reports(s.events, i));
      a := FirstPoll(i);
    } else {
      var i: nat :| i < |s.tasks| && !AtRest(s.tasks[i]);
      if s.stage.Dropping? {
        a := Drop(i);
      } else {
        a := SomeoneMoves(c, s, i);
      }
    }
  }

  // With all polled, a task moves on or waits for one that does.
  lemma SomeoneMoves(c: Config, s: State, i: nat) returns (a: Action)
    requires c.Valid() && Inv(c, s) && s.stage.Joining? && AllPolled(s)
    requires i < |s.tasks| && !AtRest(s.tasks[i])
    ensures Enabled(c, s, a) && !a.Abort?
  {
    assert TaskOk(c, s.tasks[i], Reports(s.events, i));
    a := if s.tasks[i].phase.AwaitList? then Listed(i)
         else if s.tasks[i].phase.Processing? then Processed(i, true)
         else if s.tasks[i].phase.AwaitUnlist? then Unlisted(i)
         else Acquired(i);
    if s.tasks[i].phase.AwaitPermit? && s.free == 0 {
      assert Holders(s.tasks) != {};
      var j :| j in Holders(s.tasks);
      assert TaskOk(c, s.tasks[j], Reports(s.events, j));
      a := if s.tasks[j].phase.AwaitList? then Listed(j) else Processed(j, true);
    }
  }

  lemma {:induction false} RunRank(c: Config, s: State, run: seq<Action>)
    requires Inv(c, s) && Legal(c, s, run)
    ensures |run| + Rank(Exec(c, s, run)) <= Rank(s)
    decreases |run|
  {
    if run != [] {
      StepLowersRank(c, s, run[0]);
      StepKeepsInv(c, s, run[0]);
      RunRank(c, Apply(c, s, run[0]), run[1..]);
    }
  }

  lemma {:induction false} InitialRank(tasks: seq<Task>)
    requires forall t | t in tasks :: t.phase.Unpolled?
    ensures TasksRank(tasks) == 5 * |tasks|
  {
    if tasks != [] {
      InitialRank(tasks[..|tasks| - 1]);
    }
  }

  /** Every run is finite, and one that cannot be continued has sent Completion: as long as
      processing a definition always ends, no schedule gets stuck. */
  lemma EveryMaximalRunCompletes(c: Config, run: seq<Action>)
    requires c.Valid() && Legal(c, Init(c), run)
    ensures |run| <= 5 * c.tasks + 2
    ensures (forall a :: !Enabled(c, Exec(c, Init(c), run), a)) <==> Exec(c, Init(c), run).stage.Completed?
  {
    ReachableInv(c, run);
    ReachableInv(c, []);
    RunRank(c, Init(c), run);
    InitialRank(Init(c).tasks);
    StuckIffCompleted(c, Exec(c, Init(c), run));
  }

  lemma StuckIffCompleted(c: Config, s: State)
    requires c.Valid() && Inv(c, s)
    ensures (forall a :: !Enabled(c, s, a)) <==> s.stage.Completed?
  {
    if !s.stage.Completed? {
      var a := NotStuck(c, s);
    }
  }

  // ---------------------------------------------------------------- when every definition is reported

  /** When the joined future polls all its futures before it can be dropped, every definition is
      reported exactly once before Completion, under fail-fast too. */
  lemma EveryDefinitionReported(c: Config, run: seq<Action>, i: nat)
    requires c.Valid() && PollsAll(c) && Legal(c, Init(c), run) && i < c.tasks
    requires Completion in Exec(c, Init(c), run).events
    ensures Reports(Exec(c, Init(c), run).events, i) == 1
  {
    ReachableInv(c, run);
    var s := Exec(c, Init(c), run);
    assert AllPolled(s);
    assert TaskOk(c, s.tasks[i], Reports(s.events, i));
  }

  /** Whatever the schedule and the outcomes, every definition is reported. */
  ghost predicate AlwaysReported(c: Config) {
    forall run: seq<Action>, i: nat | Legal(c, Init(c), run) && i < c.tasks && Completion in Exec(c, Init(c), run).events ::
      Reports(Exec(c, Init(c), run).events, i) == 1
  }

  lemma Extend(c: Config, s: State, run: seq<Action>, a: Action) returns (longer: seq<Action>)
    requires Legal(c, s, run) && Enabled(c, Exec(c, s, run), a)
    ensures Legal(c, s, longer) && Exec(c, s, longer) == Apply(c, Exec(c, s, run), a)
  {
    longer := run + [a];
    Snoc(c, s, run, a);
  }

  // Task `i`, the next one to be polled, starts and gets as far as processing its definition.
  lemma Start(c: Config, run: seq<Action>, i: nat) returns (longer: seq<Action>)
    requires Legal(c, Init(c), run) && i < |Exec(c, Init(c), run).tasks|
    requires var s := Exec(c, Init(c), run);
      && s.stage.Joining? && !s.triggered && (c.limit.Some? ==> s.free > 0)
      && forall j | 0 <= j < |s.tasks| :: s.tasks[j].polled == (j < i) && (j >= i ==> s.tasks[j].phase.Unpolled?)
    ensures Legal(c, Init(c), longer)
    ensures var s, t := Exec(c, Init(c), run), Exec(c, Init(c), longer);
      && t.tasks == s.tasks[i := Task(Processing, true, c.failFast, c.limit.Some?)]
      && t.free == (if c.limit.Some? then s.free - 1 else s.free)
      && t.stage == s.stage && t.triggered == s.triggered
  {
    longer := Extend(c, Init(c), run, FirstPoll(i));
    if c.limit.Some? {
      longer := Extend(c, Init(c), longer, Acquired(i));
    }
    longer := Extend(c, Init(c), longer, Listed(i));
  }

  // Definition 0 is being processed, definition 1 fails, and the abort comes before the others start.
  lemma AbortBeforeLast(c: Config) returns (run: seq<Action>)
    requires c.Valid() && !PollsAll(c)
    ensures Legal(c, Init(c), run)
    ensures var s := Exec(c, Init(c), run); s.stage.Dropping? && |s.tasks| == c.tasks && !s.tasks[c.tasks - 1].polled
  {
    run := [];
    run := Start(c, run, 0);
    run := Start(c, run, 1);
    run := Extend(c, Init(c), run, Processed(1, false));
    assert YieldsBehind(Exec(c, Init(c), run), 0, 1);
    run := Extend(c, Init(c), run, Abort);
  }

  // Once the join has been left nobody is polled any more, and Completion is reached.
  lemma {:induction false} Finish(c: Config, s: State, i: nat) returns (run: seq<Action>)
    requires c.Valid() && Inv(c, s) && !s.stage.Joining? && i < |s.tasks|
    ensures Legal(c, s, run) && Exec(c, s, run).stage.Completed?
    ensures i < |Exec(c, s, run).tasks| && Exec(c, s, run).tasks[i].polled == s.tasks[i].polled
    decreases Rank(s)
  {
    if s.stage.Completed? {
      run := [];
    } else {
      var a := NotStuck(c, s);
      StepKeepsInv(c, s, a);
      StepLowersRank(c, s, a);
      assert TaskOk(c, s.tasks[i], Reports(s.events, i));
      StepPolls(c, s, a, i);
      var rest := Finish(c, Apply(c, s, a), i);
      run := Prepend(c, s, a, Apply(c, s, a), rest);
    }
  }

  /** In every other configuration some run completes with a definition that nobody has reported: its
      future was dropped unpolled, before the drop guard inside it existed. */
  lemma UnpolledDefinitionIsNeverReported(c: Config) returns (run: seq<Action>)
    requires c.Valid() && !PollsAll(c)
    ensures Legal(c, Init(c), run)
    ensures var s := Exec(c, Init(c), run); Completion in s.events && Reports(s.events, c.tasks - 1) == 0
  {
    var first := AbortBeforeLast(c);
    ReachableInv(c, first);
    var s := Exec(c, Init(c), first);
    var rest := Finish(c, s, c.tasks - 1);
    Concatenate(c, Init(c), first, rest);
    run := first + rest;
    ReachableInv(c, run);
    var t := Exec(c, Init(c), run);
    assert TaskOk(c, t.tasks[c.tasks - 1], Reports(t.events, c.tasks - 1));
  }

  /** Every definition is sure to be reported exactly when fail-fast is off, or at most 30 definitions
      are processed, or the concurrency limit is one. */
  lemma AlwaysReportedIff(c: Config)
    requires c.Valid()
    ensures AlwaysReported(c) <==> PollsAll(c)
  {
    if PollsAll(c) {
      forall run: seq<Action>, i: nat | Legal(c, Init(c), run) && i < c.tasks && Completion in Exec(c, Init(c), run).events
        ensures Reports(Exec(c, Init(c), run).events, i) == 1
      {
        EveryDefinitionReported(c, run, i);
      }
    } else {
      var run := UnpolledDefinitionIsNeverReported(c);
      assert Reports(Exec(c, Init(c), run).events, c.tasks - 1) != 1;
    }
  }

  // ---------------------------------------------------------------- what is reported

  // Some definition of the run failed.
  ghost predicate SomeFailed(run: seq<Action>) { exists i :: Processed(i, false) in run }

  ghost predicate WasProcessed(run: seq<Action>, i: nat) { Processed(i, true) in run || Processed(i, false) in run }

  // The flags of fail-fast: all follow a failure, and nothing is ignored without one.
  ghost predicate FlagsOk(c: Config, s: State) {
    && (s.triggered ==> c.failFast)
    && (s.closed <==> s.triggered && c.limit.Some?)
    && (s.stage.Joining? ==> s.notified == s.triggered)
    && (s.stage.Dropping? ==> s.triggered && !s.notified)
    && forall i :: Ignored(i) in s.events ==> s.triggered
  }

  lemma StepKeepsFlags(c: Config, s: State, a: Action)
    requires FlagsOk(c, s) && Enabled(c, s, a)
    ensures FlagsOk(c, Apply(c, s, a))
  {
  }

  // The list of running tasks, as long as the tasks are joined.
  ghost predicate RunningOk(s: State) {
    s.stage.Joining? ==>
      forall i: nat :: i in s.running <==> i < |s.tasks| && (s.tasks[i].phase.Processing? || s.tasks[i].phase.AwaitUnlist?)
  }

  lemma StepKeepsRunning(c: Config, s: State, a: Action)
    requires RunningOk(s) && Enabled(c, s, a)
    ensures RunningOk(Apply(c, s, a))
  {
  }

  lemma {:induction false} RunKeepsFlags(c: Config, s: State, run: seq<Action>)
    requires FlagsOk(c, s) && RunningOk(s) && Legal(c, s, run)
    ensures FlagsOk(c, Exec(c, s, run)) && RunningOk(Exec(c, s, run))
    decreases |run|
  {
    if run != [] {
      StepKeepsFlags(c, s, run[0]);
      StepKeepsRunning(c, s, run[0]);
      RunKeepsFlags(c, Apply(c, s, run[0]), run[1..]);
    }
  }

  lemma StepEvents(c: Config, s: State, a: Action, i: nat)
    requires Enabled(c, s, a)
    ensures
      var t := Apply(c, s, a);
      && (Succeeded(i) in t.events <==> Succeeded(i) in s.events || a == Processed(i, true))
      && (Failed(i) in t.events <==> Failed(i) in s.events || a == Processed(i, false))
      && (Ignored(i) in s.events ==> Ignored(i) in t.events)
      && (t.triggered <==> s.triggered || (c.failFast && a.Processed? && !a.ok))
  {
  }

  lemma {:induction false} RunEvents(c: Config, s: State, run: seq<Action>, i: nat)
    requires Legal(c, s, run)
    ensures
      var t := Exec(c, s, run);
      && (Succeeded(i) in t.events <==> Succeeded(i) in s.events || Processed(i, true) in run)
      && (Failed(i) in t.events <==> Failed(i) in s.events || Processed(i, false) in run)
      && (Ignored(i) in s.events ==> Ignored(i) in t.events)
      && (t.triggered <==> s.triggered || (c.failFast && SomeFailed(run)))
    decreases |run|
  {
    if run != [] {
      var a, rest := run[0], run[1..];
      assert run == [a] + rest;
      StepEvents(c, s, a, i);
      RunEvents(c, Apply(c, s, a), rest, i);
      assert SomeFailed(run) <==> (a.Processed? && !a.ok) || SomeFailed(rest) by {
        if a.Processed? && !a.ok {
          assert Processed(a.i, false) in run;
        }
      }
    }
  }

  /** The reports tell what happened: a definition is reported as succeeded exactly when processing it
      succeeded, as failed exactly when it failed, and as ignored exactly when it is reported without
      having been processed, which takes fail-fast and a failure of another.  The flags of fail-fast
      are set exactly by a failure. */
  lemma ReportsTellTheRun(c: Config, run: seq<Action>, i: nat)
    requires c.Valid() && Legal(c, Init(c), run) && i < c.tasks
    ensures
      var s := Exec(c, Init(c), run);
      && (Succeeded(i) in s.events <==> Processed(i, true) in run)
      && (Failed(i) in s.events <==> Processed(i, false) in run)
      && (Ignored(i) in s.events <==> Reports(s.events, i) == 1 && !WasProcessed(run, i))
      && (Ignored(i) in s.events ==> c.failFast && SomeFailed(run))
      && (s.triggered <==> c.failFast && SomeFailed(run))
      && (s.closed <==> s.triggered && c.limit.Some?)
      && (s.stage.Joining? ==> s.notified == s.triggered)
  {
    RunEvents(c, Init(c), run, i);
    RunKeepsFlags(c, Init(c), run);
    AtMostOneReport(c, run, i);
  }

  lemma {:induction false} Split(c: Config, s: State, run: seq<Action>, n: nat)
    requires Legal(c, s, run) && n <= |run|
    ensures Legal(c, s, run[..n]) && Legal(c, Exec(c, s, run[..n]), run[n..])
    ensures Exec(c, s, run) == Exec(c, Exec(c, s, run[..n]), run[n..])
    decreases n
  {
    if n > 0 {
      Split(c, Apply(c, s, run[0]), run[1..], n - 1);
      assert run[..n][1..] == run[1..][..n - 1] && run[n..] == run[1..][n - 1..];
    } else {
      assert run[..n] == [] && run[n..] == run;
    }
  }

  /** With fail-fast, a task that starts or gets its permit after a failure ignores its definition and
      never processes it. */
  lemma NoneStartsAfterFailure(c: Config, run: seq<Action>, n: nat, i: nat)
    requires c.Valid() && c.failFast && Legal(c, Init(c), run) && n < |run|
    requires run[n] == FirstPoll(i) || run[n] == Acquired(i)
    requires SomeFailed(run[..n])
    ensures i < c.tasks && Ignored(i) in Exec(c, Init(c), run).events && !WasProcessed(run, i)
  {
    Split(c, Init(c), run, n);
    var s := Exec(c, Init(c), run[..n]);
    RunEvents(c, Init(c), run[..n], i);
    ReachableInv(c, run[..n]);
    assert run[n..][0] == run[n];
    RunEvents(c, Apply(c, s, run[n]), run[n..][1..], i);
    ReportsTellTheRun(c, run, i);
  }

  // ---------------------------------------------------------------- the mutable form

  // Every definition processed in the run had the outcome given for it.
  ghost predicate Gives(run: seq<Action>, outcome: nat -> bool) {
    forall i, ok | Processed(i, ok) in run :: ok == outcome(i)
  }

  lemma Snoc(c: Config, s: State, run: seq<Action>, a: Action)
    requires Legal(c, s, run) && Enabled(c, Exec(c, s, run), a)
    ensures Legal(c, s, run + [a]) && Exec(c, s, run + [a]) == Apply(c, Exec(c, s, run), a)
  {
    var t := Exec(c, s, run);
    assert [a][1..] == [];
    assert Legal(c, Apply(c, t, a), [a][1..]);
    Concatenate(c, s, run, [a]);
  }

  /** The report of every definition that was processed is the one of its outcome, and a definition
      that was not is ignored, if it is reported at all. */
  ghost predicate ReportedAs(c: Config, s: State, outcome: nat -> bool) {
    forall i: nat | i < c.tasks ::
      && (Succeeded(i) in s.events ==> outcome(i))
      && (Failed(i) in s.events ==> !outcome(i))
      && (Ignored(i) in s.events ==> c.failFast && exists j: nat :: j < c.tasks && Failed(j) in s.events)
  }

  lemma GivenOutcomesReported(c: Config, run: seq<Action>, outcome: nat -> bool)
    requires c.Valid() && Legal(c, Init(c), run) && Gives(run, outcome)
    ensures ReportedAs(c, Exec(c, Init(c), run), outcome)
  {
    var s := Exec(c, Init(c), run);
    RunNamesTasks(c, Init(c), run);
    forall i: nat | i < c.tasks
      ensures Succeeded(i) in s.events ==> outcome(i)
      ensures Failed(i) in s.events ==> !outcome(i)
      ensures Ignored(i) in s.events ==> c.failFast && exists j: nat :: j < c.tasks && Failed(j) in s.events
    {
      ReportsTellTheRun(c, run, i);
      if Ignored(i) in s.events {
        var j :| Processed(j, false) in run;
        RunEvents(c, Init(c), run, j);
      }
    }
  }

  class CorpusRun {
    const config: Config
    var tasks: seq<Task>
    var free: nat
    var closed: bool
    var triggered: bool
    var notified: bool
    var running: set<nat>
    var events: seq<Event>
    var stage: Stage

    function View(): State
      reads this
    {
      State(tasks, free, closed, triggered, notified, running, events, stage)
    }

    constructor (c: Config)
      ensures config == c && View() == Init(c)
    {
      config := c;
      tasks := seq(c.tasks, _ => Task(Unpolled, false, false, false));
      free := c.limit.GetOr(0);
      closed, triggered, notified := false, false, false;
      running, events, stage := {}, [], Joining;
    }

    method Report(e: Event)
      modifies this`events
      ensures events == old(events) + [e]
    {
      events := events + [e];
    }

    // `FailFastGuard::reported`
    method DisarmGuard(i: nat)
      requires i < |tasks|
      modifies this`tasks
      ensures tasks == old(tasks)[i := old(tasks)[i].(armed := false)]
    {
      tasks := tasks[i := tasks[i].(armed := false)];
    }

    method DropPermit(i: nat)
      requires i < |tasks|
      modifies this`tasks, this`free
      ensures tasks == old(tasks)[i := old(tasks)[i].(permit := false)]
      ensures free == if old(tasks)[i].permit then old(free) + 1 else old(free)
    {
      if tasks[i].permit {
        free := free + 1;
        tasks := tasks[i := tasks[i].(permit := false)];
      }
    }

    method MoveTo(i: nat, phase: Phase)
      requires i < |tasks|
      modifies this`tasks
      ensures tasks == old(tasks)[i := old(tasks)[i].(phase := phase)]
    {
      tasks := tasks[i := tasks[i].(phase := phase)];
    }

    // The body of a task from its start to its first await.
    method BeginTask(i: nat)
      requires Enabled(config, View(), FirstPoll(i))
      modifies this
      ensures View() == Apply(config, old(View()), FirstPoll(i))
    {
      tasks := tasks[i := Task(Unpolled, true, config.failFast, false)];
      if config.failFast && triggered {
        Report(Ignored(i));
        DisarmGuard(i);
        MoveTo(i, Finished);
        return;
      }
      MoveTo(i, if config.limit.Some? then AwaitPermit else AwaitList);
    }

    // From the semaphore's answer to the wait for the running list.
    method PermitAnswered(i: nat, granted: bool)
      requires Enabled(config, View(), if granted then Acquired(i) else AcquireFailed(i))
      requires TaskOk(config, tasks[i], Reports(events, i))
      modifies this
      ensures View() == Apply(config, old(View()), if granted then Acquired(i) else AcquireFailed(i))
    {
      if !granted {
        Report(Ignored(i));
        DisarmGuard(i);
        MoveTo(i, Finished);
        return;
      }
      free := free - 1;
      tasks := tasks[i := tasks[i].(permit := true)];
      if config.failFast && triggered {
        Report(Ignored(i));
        DisarmGuard(i);
        DropPermit(i);
        MoveTo(i, Finished);
        return;
      }
      MoveTo(i, AwaitList);
    }

    method EnterRunningList(i: nat)
      requires Enabled(config, View(), Listed(i))
      modifies this
      ensures View() == Apply(config, old(View()), Listed(i))
    {
      running := running + {i};
      MoveTo(i, Processing);
    }

    // From the result of processing the definition to the last await.
    method FinishProcessing(i: nat, ok: bool)
      requires Enabled(config, View(), Processed(i, ok))
      modifies this
      ensures View() == Apply(config, old(View()), Processed(i, ok))
    {
      if ok {
        Report(Succeeded(i));
      } else {
        Report(Failed(i));
        if config.failFast {
          triggered := true;
          if config.limit.Some? { closed := true; }
          notified := true;
        }
      }
      DisarmGuard(i);
      DropPermit(i);
      MoveTo(i, AwaitUnlist);
    }

    method LeaveRunningList(i: nat)
      requires Enabled(config, View(), Unlisted(i))
      modifies this
      ensures View() == Apply(config, old(View()), Unlisted(i))
    {
      running := running - {i};
      MoveTo(i, Finished);
    }

    // Dropping one unfinished future runs the drop of its guard.
    method DropFuture(i: nat)
      requires Enabled(config, View(), Drop(i))
      modifies this
      ensures View() == Apply(config, old(View()), Drop(i))
    {
      if tasks[i].armed {
        DisarmGuard(i);
        Report(Ignored(i));
      }
      DropPermit(i);
      MoveTo(i, Dropped);
    }

    // Leaving the select drops every future that has not returned.
    method DropFutures() returns (ghost run: seq<Action>)
      requires stage.Dropping?
      modifies this
      ensures Legal(config, old(View()), run) && View() == Exec(config, old(View()), run)
      ensures stage.Dropping? && AllAtRest(View()) && SamePolled(old(tasks), tasks)
      ensures forall a | a in run :: a.Drop?
    {
      ghost var start := View();
      run := [];
      var i := 0;
      while i < |tasks|
        invariant i <= |tasks| && stage.Dropping? && SamePolled(old(tasks), tasks)
        invariant Legal(config, start, run) && View() == Exec(config, start, run)
        invariant forall a | a in run :: a.Drop?
        invariant forall j: nat | j < i :: AtRest(tasks[j])
        decreases |tasks| - i
      {
        if !AtRest(tasks[i]) {
          Snoc(config, start, run, Drop(i));
          run := run + [Drop(i)];
          DropFuture(i);
        }
        i := i + 1;
      }
    }

    // One poll of a task that can move: its next stretch, with the semaphore's answer if both are
    // possible and the outcome of processing its definition.
    method PollTask(i: nat, answer: bool, ok: bool) returns (ghost a: Action)
      requires Movable(config, View(), i) && TaskOk(config, tasks[i], Reports(events, i))
      modifies this
      ensures !a.Abort? && !a.Drop? && !a.ReportCompletion? && a.i == i && Enabled(config, old(View()), a)
      ensures a.Processed? ==> a.ok == ok
      ensures View() == Apply(config, old(View()), a)
    {
      match tasks[i].phase {
        case Unpolled =>
          a := FirstPoll(i);
          BeginTask(i);
        case AwaitPermit =>
          var granted := free > 0 && (answer || !closed);
          a := if granted then Acquired(i) else AcquireFailed(i);
          PermitAnswered(i, granted);
        case AwaitList =>
          a := Listed(i);
          EnterRunningList(i);
        case Processing =>
          a := Processed(i, ok);
          FinishProcessing(i, ok);
        case AwaitUnlist =>
          a := Unlisted(i);
          LeaveRunningList(i);
      }
    }

    // One turn of the select: the notification is looked at first, when a poll has returned.
    method Turn(proposed: nat, answer: bool, outcome: nat -> bool) returns (ghost run: seq<Action>)
      requires config.Valid() && Inv(config, View()) && stage.Joining?
      modifies this
      ensures Legal(config, old(View()), run) && View() == Exec(config, old(View()), run)
      ensures Gives(run, outcome) && !stage.Dropping?
      ensures stage.Joining? ==> Rank(View()) < Rank(old(View()))
    {
      if config.failFast && notified && PollReturned(View()) {
        run := AbortAndComplete();
      } else {
        ghost var s := View();
        run := [];
        ghost var a := ReportCompletion;
        if AllAtRest(View()) {
          Report(Completion);
          stage := Completed;
        } else {
          var i := FindMovable(config, View(), proposed);
          assert TaskOk(config, tasks[i], Reports(events, i));
          a := PollTask(i, answer, outcome(i));
          StepLowersRank(config, s, a);
        }
        Snoc(config, s, [], a);
        run := [] + [a];
      }
    }

    /** The whole corpus, for any schedule, any answers of the semaphore and any outcomes of the
        definitions: Completion is sent, last and once; no definition has two reports, and each has
        one if its future was polled, which is every one unless fail-fast is on with more than 30
        definitions and a limit other than one; it is reported by its outcome, or ignored once
        another has failed. */
    method ProcessCorpus(schedule: nat -> nat, answers: nat -> bool, outcome: nat -> bool) returns (ghost run: seq<Action>)
      requires config.Valid() && View() == Init(config)
      modifies this
      ensures Legal(config, Init(config), run) && View() == Exec(config, Init(config), run) && Gives(run, outcome)
      ensures stage.Completed? && |tasks| == config.tasks
      ensures CompletionOk(View())
      ensures forall i: nat | i < config.tasks :: Reports(events, i) == if tasks[i].polled then 1 else 0
      ensures PollsAll(config) ==> forall i: nat | i < config.tasks :: Reports(events, i) == 1
      ensures ReportedAs(config, View(), outcome)
    {
      run := [];
      var turn := 0;
      ReachableInv(config, []);
      while !stage.Completed?
        invariant Legal(config, Init(config), run) && View() == Exec(config, Init(config), run) && Gives(run, outcome)
        invariant Inv(config, View()) && !stage.Dropping?
        decreases stage.Joining?, Rank(View())
      {
        ghost var s := View();
        ghost var more := Turn(schedule(turn), answers(turn), outcome);
        Concatenate(config, Init(config), run, more);
        run := run + more;
        ReachableInv(config, run);
        turn := turn + 1;
      }
      AllReported(config, View());
      GivenOutcomesReported(config, run, outcome);
    }

    // The abort branch of the select up to the completion event.
    method AbortAndComplete() returns (ghost run: seq<Action>)
      requires Inv(config, View()) && Enabled(config, View(), Abort)
      modifies this
      ensures Legal(config, old(View()), run) && View() == Exec(config, old(View()), run)
      ensures forall a | a in run :: !a.Processed?
      ensures stage.Completed? && SamePolled(old(tasks), tasks)
      ensures forall i: nat | i < |tasks| :: Reports(events, i) == if tasks[i].polled then 1 else 0
    {
      ghost var start := View();
      stage, notified := Dropping, false;
      ghost var dropped := DropFutures();
      run := AbortRun(config, start, dropped);
      Report(Completion);
      stage := Completed;
      ReportedAtRest(config, start, run);
    }
  }

  // The abort, the drops and the completion event as one run.
  lemma AbortRun(c: Config, s: State, dropped: seq<Action>) returns (run: seq<Action>)
    requires Enabled(c, s, Abort) && Legal(c, Apply(c, s, Abort), dropped)
    requires var t := Exec(c, Apply(c, s, Abort), dropped); t.stage.Dropping? && AllAtRest(t)
    ensures Legal(c, s, run)
    ensures Exec(c, s, run) == Apply(c, Exec(c, Apply(c, s, Abort), dropped), ReportCompletion)
    ensures forall a | a in run :: a == Abort || a in dropped || a == ReportCompletion
  {
    var first := Prepend(c, s, Abort, Apply(c, s, Abort), dropped);
    Snoc(c, s, first, ReportCompletion);
    run := first + [ReportCompletion];
  }

  // The task has a stretch to run when it is polled.
  predicate Movable(c: Config, s: State, i: nat) {
    || Enabled(c, s, FirstPoll(i)) || Enabled(c, s, Acquired(i)) || Enabled(c, s, AcquireFailed(i))
    || Enabled(c, s, Listed(i)) || Enabled(c, s, Processed(i, true)) || Enabled(c, s, Unlisted(i))
  }

  // The task proposed if it can move, otherwise the first that can.
  method FindMovable(c: Config, s: State, proposed: nat) returns (i: nat)
    requires c.Valid() && Inv(c, s) && s.stage.Joining? && !AllAtRest(s)
    ensures Movable(c, s, i)
  {
    if Movable(c, s, proposed) {
      return proposed;
    }
    ghost var last := SomeMovable(c, s);
    i := 0;
    while !Movable(c, s, i)
      invariant i <= last
      decreases last - i
    {
      i := i + 1;
    }
  }

  lemma SomeMovable(c: Config, s: State) returns (i: nat)
    requires c.Valid() && Inv(c, s) && s.stage.Joining? && !AllAtRest(s)
    ensures i < |s.tasks| && Movable(c, s, i)
  {
    var a := NotStuck(c, s);
    i := a.i;
  }

  ghost predicate SamePolled(before: seq<Task>, after: seq<Task>) {
    |before| == |after| && forall j: nat | j < |before| :: before[j].polled == after[j].polled
  }

  lemma ReportedAtRest(c: Config, s: State, run: seq<Action>)
    requires Inv(c, s) && Legal(c, s, run) && AllAtRest(Exec(c, s, run))
    ensures var t := Exec(c, s, run);
      forall i: nat | i < |t.tasks| :: Reports(t.events, i) == if t.tasks[i].polled then 1 else 0
  {
    RunKeepsInv(c, s, run);
    AllReported(c, Exec(c, s, run));
  }

  lemma AllReported(c: Config, s: State)
    requires Inv(c, s) && AllAtRest(s)
    ensures forall i: nat | i < |s.tasks| :: Reports(s.events, i) == if s.tasks[i].polled then 1 else 0
  {
    forall i: nat | i < |s.tasks| ensures Reports(s.events, i) == if s.tasks[i].polled then 1 else 0 {
      assert TaskOk(c, s.tasks[i], Reports(s.events, i));
    }
  }
}
