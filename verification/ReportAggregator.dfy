/**
 The report aggregator: nested maps updated by event handlers, kept equal to the history functions
 of `CompletionTracker` for test cases (group = file and mode) and compilations (group = file).
 */
module ReportAggregator {
  import opened Common
  import opened CompletionTracker

  datatype RunnerEvent<F, M, C, TS, CS> =
    | TestCaseDiscovery(file: F, mode: M, case_: C)
    | TestFinished(file: F, mode: M, case_: C, testStatus: TS)   // succeeded, failed or ignored
    | ExecutionUpdate(file: F, mode: M, case_: C)                // node, compilation, deployment, step, block, ...
    | CompilationDiscovery(file: F, mode: M)
    | CompilationFinished(file: F, mode: M, compilationStatus: CS)
    | Completion

  datatype ReporterEvent<F, M, C, TS, CS> =
    | ExecutionCompleted(file: F, mode: M, caseStatus: map<C, TS>)
    | CompilationCompleted(file: F, compilationStatus: map<M, CS>)

  type CaseEvent<F, M, C, TS> = Event<(F, M), C, TS>
  type CaseNotice<F, M, C, TS> = Notice<(F, M), C, TS>

  // The bookkeeping events of one runner event and of a stretch of them.
  function CaseEventOf<F, M, C, TS, CS>(e: RunnerEvent<F, M, C, TS, CS>): Option<CaseEvent<F, M, C, TS>> {
    match e
    case TestCaseDiscovery(f, m, c) => Some(Discovered((f, m), c))
    case TestFinished(f, m, c, s) => Some(Terminal((f, m), c, s))
    case ExecutionUpdate(f, m, c) => Some(Touched((f, m), c))
    case _ => None
  }

  function CaseEvents<F, M, C, TS, CS>(events: seq<RunnerEvent<F, M, C, TS, CS>>): seq<CaseEvent<F, M, C, TS>> {
    if events == [] then [] else
      var rest := CaseEvents(events[..|events| - 1]);
      match CaseEventOf(events[|events| - 1])
      case Some(x) => rest + [x]
      case None => rest
  }

  function CompilationEventOf<F, M, C, TS, CS>(e: RunnerEvent<F, M, C, TS, CS>): Option<Event<F, M, CS>> {
    match e
    case CompilationDiscovery(f, m) => Some(Discovered(f, m))
    case CompilationFinished(f, m, s) => Some(Terminal(f, m, s))
    case _ => None
  }

  function CompilationEvents<F, M, C, TS, CS>(events: seq<RunnerEvent<F, M, C, TS, CS>>): (r: seq<Event<F, M, CS>>)
    ensures forall x | x in r :: !x.Touched?
  {
    if events == [] then [] else
      var rest := CompilationEvents(events[..|events| - 1]);
      match CompilationEventOf(events[|events| - 1])
      case Some(x) => rest + [x]
      case None => rest
  }

  lemma ReceivedSnoc<F, M, C, TS, CS>(r: seq<RunnerEvent<F, M, C, TS, CS>>, e: RunnerEvent<F, M, C, TS, CS>)
    ensures CaseEvents(r + [e]) == match CaseEventOf(e) case Some(x) => CaseEvents(r) + [x] case None => CaseEvents(r)
    ensures CompilationEvents(r + [e]) ==
              match CompilationEventOf(e) case Some(x) => CompilationEvents(r) + [x] case None => CompilationEvents(r)
  {
    SnocPrefix(r, e);
  }

  function CaseNotices<F, M, C, TS, CS>(sent: seq<ReporterEvent<F, M, C, TS, CS>>): seq<CaseNotice<F, M, C, TS>> {
    if sent == [] then [] else
      var e := sent[|sent| - 1];
      CaseNotices(sent[..|sent| - 1]) +
      if e.ExecutionCompleted? then [Notice((e.file, e.mode), e.caseStatus)] else []
  }

  function CompilationNotices<F, M, C, TS, CS>(sent: seq<ReporterEvent<F, M, C, TS, CS>>): seq<Notice<F, M, CS>> {
    if sent == [] then [] else
      var e := sent[|sent| - 1];
      CompilationNotices(sent[..|sent| - 1]) +
      if e.CompilationCompleted? then [Notice(e.file, e.compilationStatus)] else []
  }

  function Lookup<K, V>(m: map<K, V>, k: K, default: V): V { if k in m then m[k] else default }

  lemma SnocPrefix<T>(s: seq<T>, x: T)
    ensures (s + [x])[..|s + [x]| - 1] == s && (s + [x])[|s + [x]| - 1] == x
  {
  }

  // Reading the nested maps; an entry that was never created counts as empty.
  function Awaited<F(==), M(==), C>(remaining: map<F, map<M, set<C>>>, f: F, m: M): set<C> {
    Lookup(Lookup(remaining, f, map[]), m, {})
  }

  function Entries<F(==), M(==), C(==), TS>(
      reports: map<F, map<C, map<M, Option<TS>>>>, f: F, m: M): map<C, Option<TS>>
  {
    var cases := Lookup(reports, f, map[]);
    map c | c in cases && m in cases[c] :: cases[c][m]
  }

  // Writing one slot of the nested maps, creating the maps on the way.
  function WithAwaited<F(==), M(==), C>(remaining: map<F, map<M, set<C>>>, f: F, m: M, awaited: set<C>)
    : map<F, map<M, set<C>>>
  {
    remaining[f := Lookup(remaining, f, map[])[m := awaited]]
  }

  function WithEntry<F(==), M(==), C(==), TS>(
      reports: map<F, map<C, map<M, Option<TS>>>>, f: F, m: M, c: C, entry: Option<TS>)
    : map<F, map<C, map<M, Option<TS>>>>
  {
    var cases := Lookup(reports, f, map[]);
    reports[f := cases[c := Lookup(cases, c, map[])[m := entry]]]
  }

  // The entry of one execution, created when it is first asked for.
  function WithReport<F(==), M(==), C(==), TS>(reports: map<F, map<C, map<M, Option<TS>>>>, f: F, m: M, c: C)
    : map<F, map<C, map<M, Option<TS>>>>
  {
    if c in Entries(reports, f, m) then reports else WithEntry(reports, f, m, c, None)
  }

  ghost predicate CasesMatch<F(!new), M(!new), C, TS>(
      remaining: map<F, map<M, set<C>>>, reports: map<F, map<C, map<M, Option<TS>>>>,
      h: seq<CaseEvent<F, M, C, TS>>)
  {
    && (forall f: F, m: M :: Awaited(remaining, f, m) == Remaining(h, (f, m)))
    && (forall f: F, m: M :: Entries(reports, f, m) == Reports(h, (f, m)))
  }

  ghost predicate CompilationsMatch<F(!new), M, CS>(
      remaining: map<F, set<M>>, reports: map<F, map<M, Option<CS>>>, h: seq<Event<F, M, CS>>)
  {
    && (forall f: F :: Lookup(remaining, f, {}) == Remaining(h, f))
    && (forall f: F :: Lookup(reports, f, map[]) == Reports(h, f))
  }

  ghost predicate SentMatch<F, M, C, TS, CS>(
      sent: seq<ReporterEvent<F, M, C, TS, CS>>, panicked: bool,
      cases: seq<CaseEvent<F, M, C, TS>>, compilations: seq<Event<F, M, CS>>)
  {
    && Sent(compilations).Some?
    && (panicked <==> Sent(cases).None?)
    && (!panicked ==> CaseNotices(sent) == Sent(cases).value)
    && (!panicked ==> CompilationNotices(sent) == Sent(compilations).value)
  }

  lemma EntriesWith<F, M, C, TS>(reports: map<F, map<C, map<M, Option<TS>>>>, f: F, m: M, c: C, entry: Option<TS>,
                                 f': F, m': M)
    ensures Entries(WithEntry(reports, f, m, c, entry), f', m') ==
              if f' == f && m' == m then Entries(reports, f, m)[c := entry] else Entries(reports, f', m')
  {
  }

  lemma CaseDiscoveryKeeps<F(!new), M(!new), C, TS>(
      remaining: map<F, map<M, set<C>>>, reports: map<F, map<C, map<M, Option<TS>>>>,
      h: seq<CaseEvent<F, M, C, TS>>, f: F, m: M, c: C)
    requires CasesMatch(remaining, reports, h)
    ensures CasesMatch(WithAwaited(remaining, f, m, Awaited(remaining, f, m) + {c}), reports,
                       h + [Discovered((f, m), c)])
  {
    forall f', m' { SnocFor(h, Discovered((f, m), c), (f', m')); }
  }

  lemma ExecutionUpdateKeeps<F(!new), M(!new), C, TS>(
      remaining: map<F, map<M, set<C>>>, reports: map<F, map<C, map<M, Option<TS>>>>,
      h: seq<CaseEvent<F, M, C, TS>>, f: F, m: M, c: C)
    requires CasesMatch(remaining, reports, h)
    ensures CasesMatch(remaining, WithReport(reports, f, m, c), h + [Touched((f, m), c)])
  {
    var reports' := WithReport(reports, f, m, c);
    var h' := h + [Touched((f, m), c)];
    forall f', m'
      ensures Awaited(remaining, f', m') == Remaining(h', (f', m'))
      ensures Entries(reports', f', m') == Reports(h', (f', m'))
    {
      SnocFor(h, Touched((f, m), c), (f', m'));
      EntriesWith(reports, f, m, c, None, f', m');
    }
  }

  lemma TestFinishedKeeps<F(!new), M(!new), C, TS>(
      remaining: map<F, map<M, set<C>>>, reports: map<F, map<C, map<M, Option<TS>>>>,
      h: seq<CaseEvent<F, M, C, TS>>, f: F, m: M, c: C, status: TS)
    requires CasesMatch(remaining, reports, h)
    ensures CasesMatch(WithAwaited(remaining, f, m, Awaited(remaining, f, m) - {c}),
                       WithEntry(reports, f, m, c, Some(status)), h + [Terminal((f, m), c, status)])
  {
    var remaining' := WithAwaited(remaining, f, m, Awaited(remaining, f, m) - {c});
    var reports' := WithEntry(reports, f, m, c, Some(status));
    var h' := h + [Terminal((f, m), c, status)];
    forall f', m'
      ensures Awaited(remaining', f', m') == Remaining(h', (f', m'))
      ensures Entries(reports', f', m') == Reports(h', (f', m'))
    {
      SnocFor(h, Terminal((f, m), c, status), (f', m'));
      EntriesWith(reports, f, m, c, Some(status), f', m');
    }
  }

  lemma CompilationDiscoveryKeeps<F(!new), M, CS>(
      remaining: map<F, set<M>>, reports: map<F, map<M, Option<CS>>>, h: seq<Event<F, M, CS>>, f: F, m: M)
    requires CompilationsMatch(remaining, reports, h)
    ensures CompilationsMatch(remaining[f := Lookup(remaining, f, {}) + {m}], reports, h + [Discovered(f, m)])
  {
    forall f' { SnocFor(h, Discovered(f, m), f'); }
  }

  lemma CompilationFinishedKeeps<F(!new), M, CS>(
      remaining: map<F, set<M>>, reports: map<F, map<M, Option<CS>>>, h: seq<Event<F, M, CS>>, f: F, m: M, status: CS)
    requires CompilationsMatch(remaining, reports, h)
    ensures CompilationsMatch(remaining[f := Lookup(remaining, f, {}) - {m}],
                              reports[f := Lookup(reports, f, map[])[m := Some(status)]],
                              h + [Terminal(f, m, status)])
  {
    forall f' { SnocFor(h, Terminal(f, m, status), f'); }
  }

  /** The aggregator's fields, and the events it has received. */
  datatype View<!F, !M, !C, TS, CS> = View(
    remainingCases: map<F, map<M, set<C>>>, remainingCompilationModes: map<F, set<M>>,
    caseReports: map<F, map<C, map<M, Option<TS>>>>, compilationReports: map<F, map<M, Option<CS>>>,
    sent: seq<ReporterEvent<F, M, C, TS, CS>>, panicked: bool, received: seq<RunnerEvent<F, M, C, TS, CS>>)

  /** Every field is what the functions of `CompletionTracker` say about the events received. */
  ghost predicate Consistent<F(!new), M(!new), C, TS, CS>(v: View<F, M, C, TS, CS>) {
    && CasesMatch(v.remainingCases, v.caseReports, CaseEvents(v.received))
    && CompilationsMatch(v.remainingCompilationModes, v.compilationReports, CompilationEvents(v.received))
    && SentMatch(v.sent, v.panicked, CaseEvents(v.received), CompilationEvents(v.received))
  }

  // ---------------------------------------------------------------- the handlers on values

  function AfterCaseDiscovery<F(==), M(==), C, TS, CS>(v: View<F, M, C, TS, CS>, f: F, m: M, c: C): View<F, M, C, TS, CS> {
    v.(remainingCases := WithAwaited(v.remainingCases, f, m, Awaited(v.remainingCases, f, m) + {c}),
       received := v.received + [TestCaseDiscovery(f, m, c)])
  }

  function AfterExecutionUpdate<F(==), M(==), C(==), TS, CS>(v: View<F, M, C, TS, CS>, f: F, m: M, c: C): View<F, M, C, TS, CS> {
    v.(caseReports := WithReport(v.caseReports, f, m, c), received := v.received + [ExecutionUpdate(f, m, c)])
  }

  function AfterCompilationDiscovery<F(==), M, C, TS, CS>(v: View<F, M, C, TS, CS>, f: F, m: M): View<F, M, C, TS, CS> {
    v.(remainingCompilationModes := v.remainingCompilationModes[f := Lookup(v.remainingCompilationModes, f, {}) + {m}],
       received := v.received + [CompilationDiscovery(f, m)])
  }

  function AfterTestFinished<F(==), M(==), C(==), TS(==), CS>(v: View<F, M, C, TS, CS>, f: F, m: M, c: C, status: TS)
    : View<F, M, C, TS, CS>
  {
    PostTestCaseStatusUpdate(WithTestStatus(v, f, m, c, status), f, m)
  }

  function WithTestStatus<F(==), M(==), C(==), TS, CS>(v: View<F, M, C, TS, CS>, f: F, m: M, c: C, status: TS)
    : View<F, M, C, TS, CS>
  {
    v.(remainingCases := WithAwaited(v.remainingCases, f, m, Awaited(v.remainingCases, f, m) - {c}),
       caseReports := WithEntry(v.caseReports, f, m, c, Some(status)),
       received := v.received + [TestFinished(f, m, c, status)])
  }

  predicate AllReported<K, V>(entries: map<K, Option<V>>) {
    forall k <- entries :: entries[k].Some?
  }

  function Statuses<K, V>(entries: map<K, Option<V>>): map<K, V> {
    map k | k in entries && entries[k].Some? :: entries[k].value
  }

  // Once no case is awaited the notice is sent; a case with a report but no status is a panic.
  function PostTestCaseStatusUpdate<F(==), M(==), C(==), TS(==), CS>(v: View<F, M, C, TS, CS>, f: F, m: M)
    : View<F, M, C, TS, CS>
  {
    var entries := Entries(v.caseReports, f, m);
    if Awaited(v.remainingCases, f, m) != {} then v
    else if !AllReported(entries) then v.(panicked := true)
    else v.(sent := v.sent + [ExecutionCompleted(f, m, Statuses(entries))])
  }

  function AfterCompilationFinished<F(==), M(==), C, TS, CS(==)>(v: View<F, M, C, TS, CS>, f: F, m: M, status: CS)
    : View<F, M, C, TS, CS>
  {
    PostCompilationStatusUpdate(WithCompilationStatus(v, f, m, status), f)
  }

  function WithCompilationStatus<F(==), M(==), C, TS, CS>(v: View<F, M, C, TS, CS>, f: F, m: M, status: CS)
    : View<F, M, C, TS, CS>
  {
    v.(remainingCompilationModes := v.remainingCompilationModes[f := Lookup(v.remainingCompilationModes, f, {}) - {m}],
       compilationReports := v.compilationReports[f := Lookup(v.compilationReports, f, map[])[m := Some(status)]],
       received := v.received + [CompilationFinished(f, m, status)])
  }

  function PostCompilationStatusUpdate<F(==), M(==), C, TS, CS(==)>(v: View<F, M, C, TS, CS>, f: F): View<F, M, C, TS, CS> {
    if Lookup(v.remainingCompilationModes, f, {}) != {} then v
    else v.(sent := v.sent + [CompilationCompleted(f, Statuses(Lookup(v.compilationReports, f, map[])))])
  }

  /** What the aggregator does with an event. */
  function Handle<F(==), M(==), C(==), TS(==), CS(==)>(v: View<F, M, C, TS, CS>, e: RunnerEvent<F, M, C, TS, CS>)
    : View<F, M, C, TS, CS>
  {
    match e
    case TestCaseDiscovery(f, m, c) => AfterCaseDiscovery(v, f, m, c)
    case TestFinished(f, m, c, s) => AfterTestFinished(v, f, m, c, s)
    case ExecutionUpdate(f, m, c) => AfterExecutionUpdate(v, f, m, c)
    case CompilationDiscovery(f, m) => AfterCompilationDiscovery(v, f, m)
    case CompilationFinished(f, m, s) => AfterCompilationFinished(v, f, m, s)
    case Completion => v
  }

  /** The events are handled in order until Completion arrives or a handler panics. */
  function HandleAll<F(==), M(==), C(==), TS(==), CS(==)>(v: View<F, M, C, TS, CS>, events: seq<RunnerEvent<F, M, C, TS, CS>>)
    : View<F, M, C, TS, CS>
    decreases |events|
  {
    if events == [] || v.panicked || events[0] == Completion then v
    else HandleAll(Handle(v, events[0]), events[1..])
  }

  lemma CaseDiscoveryStep<F(!new), M(!new), C, TS, CS>(v: View<F, M, C, TS, CS>, f: F, m: M, c: C)
    requires Consistent(v) && !v.panicked
    ensures Consistent(AfterCaseDiscovery(v, f, m, c))
  {
    ReceivedSnoc(v.received, TestCaseDiscovery(f, m, c));
    Snoc(CaseEvents(v.received), Discovered((f, m), c));
    CaseDiscoveryKeeps(v.remainingCases, v.caseReports, CaseEvents(v.received), f, m, c);
  }

  lemma ExecutionUpdateStep<F(!new), M(!new), C, TS, CS>(v: View<F, M, C, TS, CS>, f: F, m: M, c: C)
    requires Consistent(v) && !v.panicked
    ensures Consistent(AfterExecutionUpdate(v, f, m, c))
  {
    ReceivedSnoc(v.received, ExecutionUpdate(f, m, c));
    Snoc(CaseEvents(v.received), Touched((f, m), c));
    ExecutionUpdateKeeps(v.remainingCases, v.caseReports, CaseEvents(v.received), f, m, c);
  }

  lemma CompilationDiscoveryStep<F(!new), M(!new), C, TS, CS>(v: View<F, M, C, TS, CS>, f: F, m: M)
    requires Consistent(v) && !v.panicked
    ensures Consistent(AfterCompilationDiscovery(v, f, m))
  {
    ReceivedSnoc(v.received, CompilationDiscovery(f, m));
    Snoc(CompilationEvents(v.received), Discovered(f, m));
    CompilationDiscoveryKeeps(v.remainingCompilationModes, v.compilationReports, CompilationEvents(v.received), f, m);
  }

  lemma TestFinishedStep<F(!new), M(!new), C, TS, CS>(v: View<F, M, C, TS, CS>, f: F, m: M, c: C, status: TS)
    requires Consistent(v) && !v.panicked
    ensures Consistent(AfterTestFinished(v, f, m, c, status))
  {
    var before, last := CaseEvents(v.received), Terminal((f, m), c, status);
    ReceivedSnoc(v.received, TestFinished(f, m, c, status));
    Snoc(before, last);
    TestFinishedKeeps(v.remainingCases, v.caseReports, before, f, m, c, status);
    PostTestCaseStep(WithTestStatus(v, f, m, c, status), f, m, before, last);
  }

  // A terminal test event has been stored; the notice that may be due is still to come.
  lemma PostTestCaseStep<F(!new), M(!new), C, TS, CS>(v: View<F, M, C, TS, CS>, f: F, m: M,
      before: seq<CaseEvent<F, M, C, TS>>, last: CaseEvent<F, M, C, TS>)
    requires !v.panicked && last.Terminal? && last.key == (f, m) && SnocFacts(before, last)
    requires CaseEvents(v.received) == before + [last]
    requires CasesMatch(v.remainingCases, v.caseReports, before + [last])
    requires CompilationsMatch(v.remainingCompilationModes, v.compilationReports, CompilationEvents(v.received))
    requires SentMatch(v.sent, v.panicked, before, CompilationEvents(v.received))
    ensures Consistent(PostTestCaseStatusUpdate(v, f, m))
  {
    assert Awaited(v.remainingCases, f, m) == Remaining(before + [last], (f, m));
    assert Entries(v.caseReports, f, m) == Reports(before + [last], (f, m));
    SnocPrefix(v.sent, ExecutionCompleted(f, m, Statuses(Entries(v.caseReports, f, m))));
  }

  lemma CompilationFinishedStep<F(!new), M(!new), C, TS, CS>(v: View<F, M, C, TS, CS>, f: F, m: M, status: CS)
    requires Consistent(v) && !v.panicked
    ensures Consistent(AfterCompilationFinished(v, f, m, status))
    ensures !AfterCompilationFinished(v, f, m, status).panicked
  {
    var before, last := CompilationEvents(v.received), Terminal(f, m, status);
    ReceivedSnoc(v.received, CompilationFinished(f, m, status));
    Snoc(before, last);
    CompilationFinishedKeeps(v.remainingCompilationModes, v.compilationReports, before, f, m, status);
    PostCompilationStep(WithCompilationStatus(v, f, m, status), f, before, last);
  }

  lemma PostCompilationStep<F(!new), M(!new), C, TS, CS>(v: View<F, M, C, TS, CS>, f: F,
      before: seq<Event<F, M, CS>>, last: Event<F, M, CS>)
    requires !v.panicked && last.Terminal? && last.key == f && SnocFacts(before, last)
    requires CompilationEvents(v.received) == before + [last]
    requires CasesMatch(v.remainingCases, v.caseReports, CaseEvents(v.received))
    requires CompilationsMatch(v.remainingCompilationModes, v.compilationReports, before + [last])
    requires SentMatch(v.sent, v.panicked, CaseEvents(v.received), before)
    ensures Consistent(PostCompilationStatusUpdate(v, f))
  {
    var h := before + [last];
    NoTouchNoPanic(h);
    NoTouchAllReported(h, f);
    assert Lookup(v.remainingCompilationModes, f, {}) == Remaining(h, f);
    assert Lookup(v.compilationReports, f, map[]) == Reports(h, f);
    SnocPrefix(v.sent, CompilationCompleted(f, Statuses(Lookup(v.compilationReports, f, map[]))));
  }

  lemma HandleKeepsConsistent<F(!new), M(!new), C, TS, CS>(v: View<F, M, C, TS, CS>, e: RunnerEvent<F, M, C, TS, CS>)
    requires Consistent(v) && !v.panicked && e != Completion
    ensures Consistent(Handle(v, e))
  {
    match e {
      case TestCaseDiscovery(f, m, c) => CaseDiscoveryStep(v, f, m, c);
      case TestFinished(f, m, c, s) => TestFinishedStep(v, f, m, c, s);
      case ExecutionUpdate(f, m, c) => ExecutionUpdateStep(v, f, m, c);
      case CompilationDiscovery(f, m) => CompilationDiscoveryStep(v, f, m);
      case CompilationFinished(f, m, s) => CompilationFinishedStep(v, f, m, s);
    }
  }

  function NewAggregator<F, M, C, TS, CS>(): View<F, M, C, TS, CS> {
    View(map[], map[], map[], map[], [], false, [])
  }

  lemma HandleReceives<F, M, C, TS, CS>(v: View<F, M, C, TS, CS>, e: RunnerEvent<F, M, C, TS, CS>)
    requires e != Completion
    ensures Handle(v, e).received == v.received + [e]
  {
  }

  // How many of the events are handled.
  function Handled<F(==), M(==), C(==), TS(==), CS(==)>(v: View<F, M, C, TS, CS>, events: seq<RunnerEvent<F, M, C, TS, CS>>): (n: nat)
    ensures n <= |events|
    decreases |events|
  {
    if events == [] || v.panicked || events[0] == Completion then 0
    else 1 + Handled(Handle(v, events[0]), events[1..])
  }

  lemma FirstAndRest<T>(s: seq<T>, n: nat)
    requires s != [] && n < |s|
    ensures s[..n + 1] == [s[0]] + s[1..][..n]
    ensures n + 1 < |s| ==> s[n + 1] == s[1..][n]
  {
  }

  /** Events are handled up to the first Completion, or to a panic. */
  lemma {:induction false} HandlesUpToCompletion<F, M, C, TS, CS>(v: View<F, M, C, TS, CS>, events: seq<RunnerEvent<F, M, C, TS, CS>>)
    ensures var n := Handled(v, events);
      && HandleAll(v, events).received == v.received + events[..n]
      && Completion !in events[..n]
      && (HandleAll(v, events).panicked || n == |events| || events[n] == Completion)
    decreases |events|
  {
    if !(events == [] || v.panicked || events[0] == Completion) {
      var w := Handle(v, events[0]);
      HandleReceives(v, events[0]);
      HandlesUpToCompletion(w, events[1..]);
      FirstAndRest(events, Handled(w, events[1..]));
    }
  }

  /** Over every run the aggregator keeps exactly what the history functions say: what is still
      awaited, what has been reported, and the notices sent. */
  lemma {:induction false} EveryRunIsConsistent<F(!new), M(!new), C, TS, CS>(v: View<F, M, C, TS, CS>, events: seq<RunnerEvent<F, M, C, TS, CS>>)
    requires Consistent(v)
    ensures Consistent(HandleAll(v, events))
    decreases |events|
  {
    if !(events == [] || v.panicked || events[0] == Completion) {
      HandleKeepsConsistent(v, events[0]);
      EveryRunIsConsistent(Handle(v, events[0]), events[1..]);
    }
  }

  lemma NewAggregatorIsConsistent<F(!new), M(!new), C, TS, CS>()
    ensures Consistent(NewAggregator<F, M, C, TS, CS>())
  {
  }

  /** When the events received are well formed, no handler has panicked, and each group whose cases
      have all been reported has had its one completion event, with exactly those cases; the same
      holds of the modes of each file. */
  lemma EachGroupIsAnnouncedOnce<F(!new), M(!new), C(!new), TS(!new), CS(!new)>(
      events: seq<RunnerEvent<F, M, C, TS, CS>>, w: View<F, M, C, TS, CS>)
    requires w == HandleAll(NewAggregator(), events)
    requires forall f: F, m: M :: WellFormed(CaseEvents(w.received), (f, m))
    requires forall f: F :: WellFormed(CompilationEvents(w.received), f)
    ensures !w.panicked
    ensures forall f: F, m: M :: AnnouncedAsDue(CaseEvents(w.received), (f, m), |CaseEvents(w.received)|, CaseNotices(w.sent))
    ensures forall f: F :: AnnouncedAsDue(CompilationEvents(w.received), f, |CompilationEvents(w.received)|, CompilationNotices(w.sent))
  {
    NewAggregatorIsConsistent<F, M, C, TS, CS>();
    EveryRunIsConsistent(NewAggregator(), events);
    var cases, compilations := CaseEvents(w.received), CompilationEvents(w.received);
    forall k: (F, M)
      ensures WellFormed(cases, k)
    {
      assert k == (k.0, k.1);
    }
    AnnouncedExactlyOnce(cases, |cases|);
    AnnouncedExactlyOnce(compilations, |compilations|);
    assert cases[..|cases|] == cases && compilations[..|compilations|] == compilations;
  }

  // ---------------------------------------------------------------- the aggregator

  class ReportAggregator<F(==, !new), M(==, !new), C(==, !new), TS(==, !new), CS(==, !new)> {
    var remainingCases: map<F, map<M, set<C>>>
    var remainingCompilationModes: map<F, set<M>>
    var caseReports: map<F, map<C, map<M, Option<TS>>>>
    var compilationReports: map<F, map<M, Option<CS>>>
    var sent: seq<ReporterEvent<F, M, C, TS, CS>>
    var panicked: bool
    ghost var received: seq<RunnerEvent<F, M, C, TS, CS>>

    ghost function Fields(): View<F, M, C, TS, CS>
      reads this
    {
      View(remainingCases, remainingCompilationModes, caseReports, compilationReports, sent, panicked, received)
    }

    constructor ()
      ensures Fields() == NewAggregator()
    {
      remainingCases, remainingCompilationModes, caseReports, compilationReports := map[], map[], map[], map[];
      sent, panicked, received := [], false, [];
    }

    method TestCaseReport(f: F, m: M, c: C)
      modifies this`caseReports
      ensures caseReports == WithReport(old(caseReports), f, m, c)
    {
      var cases := Lookup(caseReports, f, map[]);
      var modes := Lookup(cases, c, map[]);
      if m !in modes {
        caseReports := caseReports[f := cases[c := modes[m := None]]];
      }
    }

    method HandleTestCaseDiscovery(f: F, m: M, c: C)
      modifies this
      ensures Fields() == AfterCaseDiscovery(old(Fields()), f, m, c)
    {
      var modes := Lookup(remainingCases, f, map[]);
      remainingCases := remainingCases[f := modes[m := Lookup(modes, m, {}) + {c}]];
      received := received + [TestCaseDiscovery(f, m, c)];
    }

    method HandleExecutionUpdate(f: F, m: M, c: C)
      modifies this
      ensures Fields() == AfterExecutionUpdate(old(Fields()), f, m, c)
    {
      TestCaseReport(f, m, c);
      received := received + [ExecutionUpdate(f, m, c)];
    }

    // The three handlers of terminal test events differ in the status they store only.
    method HandleTestFinished(f: F, m: M, c: C, status: TS)
      modifies this
      ensures Fields() == AfterTestFinished(old(Fields()), f, m, c, status)
    {
      var modes := Lookup(remainingCases, f, map[]);
      remainingCases := remainingCases[f := modes[m := Lookup(modes, m, {}) - {c}]];
      var cases := Lookup(caseReports, f, map[]);
      caseReports := caseReports[f := cases[c := Lookup(cases, c, map[])[m := Some(status)]]];
      received := received + [TestFinished(f, m, c, status)];
      HandlePostTestCaseStatusUpdate(f, m);
    }

    method HandlePostTestCaseStatusUpdate(f: F, m: M)
      modifies this`sent, this`panicked
      ensures Fields() == PostTestCaseStatusUpdate(old(Fields()), f, m)
    {
      var awaited := Lookup(Lookup(remainingCases, f, map[]), m, {});
      if awaited != {} {
        return;
      }
      var entries := Entries(caseReports, f, m);
      if !AllReported(entries) {
        panicked := true;
        return;
      }
      sent := sent + [ExecutionCompleted(f, m, Statuses(entries))];
    }

    method HandleCompilationDiscovery(f: F, m: M)
      modifies this
      ensures Fields() == AfterCompilationDiscovery(old(Fields()), f, m)
    {
      remainingCompilationModes := remainingCompilationModes[f := Lookup(remainingCompilationModes, f, {}) + {m}];
      received := received + [CompilationDiscovery(f, m)];
    }

    method HandleCompilationFinished(f: F, m: M, status: CS)
      modifies this
      ensures Fields() == AfterCompilationFinished(old(Fields()), f, m, status)
    {
      compilationReports := compilationReports[f := Lookup(compilationReports, f, map[])[m := Some(status)]];
      remainingCompilationModes := remainingCompilationModes[f := Lookup(remainingCompilationModes, f, {}) - {m}];
      received := received + [CompilationFinished(f, m, status)];
      HandlePostCompilationStatusUpdate(f);
    }

    method HandlePostCompilationStatusUpdate(f: F)
      modifies this`sent
      ensures Fields() == PostCompilationStatusUpdate(old(Fields()), f)
    {
      if Lookup(remainingCompilationModes, f, {}) != {} {
        return;
      }
      sent := sent + [CompilationCompleted(f, Statuses(Lookup(compilationReports, f, map[])))];
    }

    method HandleEvent(e: RunnerEvent<F, M, C, TS, CS>)
      modifies this
      ensures Fields() == Handle(old(Fields()), e)
    {
      match e {
        case TestCaseDiscovery(f, m, c) => HandleTestCaseDiscovery(f, m, c);
        case TestFinished(f, m, c, s) => HandleTestFinished(f, m, c, s);
        case ExecutionUpdate(f, m, c) => HandleExecutionUpdate(f, m, c);
        case CompilationDiscovery(f, m) => HandleCompilationDiscovery(f, m);
        case CompilationFinished(f, m, s) => HandleCompilationFinished(f, m, s);
        case Completion =>
      }
    }

    /** The receive loop. */
    method Aggregate(events: seq<RunnerEvent<F, M, C, TS, CS>>)
      modifies this
      ensures Fields() == HandleAll(old(Fields()), events)
    {
      var i := 0;
      assert events[0..] == events;
      while i < |events| && !panicked && events[i] != Completion
        invariant i <= |events|
        invariant HandleAll(Fields(), events[i..]) == HandleAll(old(Fields()), events)
      {
        assert events[i..][1..] == events[i + 1..];
        HandleEvent(events[i]);
        i := i + 1;
      }
    }
  }
}
