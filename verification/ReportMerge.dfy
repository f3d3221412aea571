/**
 Merging the reports of several runs into one.

 The contents that merging never looks into are opaque types.
 */
module ReportMerge {
  import opened Common

  type FilePath(==, !new)
  type ModeKey(==, !new)
  type Platform(==, !new)
  type Instance(==, !new)
  type StepPath(==, !new)
  type Context(==, !new)
  type Metrics(==, !new)
  type ExecutionInformation(==, !new, 00)
  type Execution = Option<ExecutionInformation>
  type MinedBlocks(==, !new)
  type Addresses(==, !new)
  type StepReport(==, !new)
  type CompilationReport(==, !new)

  type PerPlatform<V> = map<Platform, V>

  datatype Status = Succeeded(stepsExecuted: nat) | Failed(reason: string) | Ignored(reason: string)

  datatype ContractInformation = ContractInformation(contractSize: PerPlatform<nat>)

  datatype ExecutionReport = ExecutionReport(
    status: Option<Status>,
    metricsInformation: PerPlatform<Metrics>,
    platformExecution: PerPlatform<Execution>,
    minedBlockInformation: PerPlatform<MinedBlocks>,
    compiledContracts: map<FilePath, map<string, ContractInformation>>,
    contractAddresses: map<Instance, PerPlatform<Addresses>>,
    steps: map<StepPath, StepReport>)

  datatype CaseReport = CaseReport(modeExecutionReports: map<ModeKey, ExecutionReport>)

  datatype FileReport = FileReport(caseReports: map<nat, CaseReport>, compilationReports: map<ModeKey, CompilationReport>)

  datatype Report = Report(context: Context, metadataFiles: set<FilePath>, executionInformation: map<FilePath, FileReport>)

  // ---------------------------------------------------------------- merging maps entry by entry

  function GetOr<K, V>(m: map<K, V>, k: K, default: V): V {
    if k in m then m[k] else default
  }

  /** Every entry of `b` is merged by `f` into the entry of `a`, or into a default one. */
  function MergeWith<K, V>(a: map<K, V>, b: map<K, V>, f: (V, V) -> V, default: V): map<K, V> {
    map k | k in a.Keys + b.Keys :: if k in b then f(GetOr(a, k, default), b[k]) else a[k]
  }

  predicate LawsAt<V(==)>(f: (V, V) -> V, default: V, x: V, y: V, z: V) {
    f(default, x) == x && f(x, x) == x && f(f(x, y), z) == f(x, f(y, z))
  }

  /** What makes merging entry by entry have a left identity, idempotent and associative in turn. */
  ghost predicate Lawful<V(!new)>(f: (V, V) -> V, default: V) {
    forall x: V, y: V, z: V :: LawsAt(f, default, x, y, z)
  }

  lemma MergeWithEmptyAndSelf<K, V(!new)>(a: map<K, V>, f: (V, V) -> V, default: V)
    requires Lawful(f, default)
    ensures MergeWith(map[], a, f, default) == a
    ensures MergeWith(a, a, f, default) == a
  {
    forall k | k in a
      ensures f(default, a[k]) == a[k] && f(a[k], a[k]) == a[k]
    {
      assert LawsAt(f, default, a[k], a[k], a[k]);
    }
  }

  lemma MergeWithAt<K, V(!new)>(a: map<K, V>, b: map<K, V>, c: map<K, V>, f: (V, V) -> V, default: V, k: K)
    requires Lawful(f, default) && (k in a || k in b || k in c)
    ensures MergeWith(MergeWith(a, b, f, default), c, f, default)[k] == MergeWith(a, MergeWith(b, c, f, default), f, default)[k]
  {
    if k in c {
      var x, y := GetOr(a, k, default), GetOr(b, k, default);
      assert LawsAt(f, default, x, y, c[k]) && LawsAt(f, default, c[k], c[k], c[k]);
    }
  }

  lemma MergeWithLaws<K, V(!new)>(a: map<K, V>, b: map<K, V>, c: map<K, V>, f: (V, V) -> V, default: V)
    requires Lawful(f, default)
    ensures MergeWith(map[], a, f, default) == a
    ensures MergeWith(a, a, f, default) == a
    ensures MergeWith(MergeWith(a, b, f, default), c, f, default) == MergeWith(a, MergeWith(b, c, f, default), f, default)
  {
    MergeWithEmptyAndSelf(a, f, default);
    var l := MergeWith(MergeWith(a, b, f, default), c, f, default);
    var r := MergeWith(a, MergeWith(b, c, f, default), f, default);
    assert l.Keys == r.Keys;
    forall k | k in l
      ensures l[k] == r[k]
    {
      MergeWithAt(a, b, c, f, default, k);
    }
  }

  // The part of `m` whose keys are in `keys`.
  function Part<K, V>(m: map<K, V>, keys: set<K>): map<K, V> {
    map k | k in m && k in keys :: m[k]
  }

  /** `r` is the merge of `a` and `b` as far as done, the keys in `todo` still missing. */
  ghost predicate MergedBut<K, V>(r: map<K, V>, a: map<K, V>, b: map<K, V>, f: (V, V) -> V, default: V, todo: set<K>) {
    && todo <= b.Keys
    && r == MergeWith(a, Part(b, b.Keys - todo), f, default)
  }

  lemma MergeStarts<K, V>(a: map<K, V>, b: map<K, V>, f: (V, V) -> V, default: V)
    ensures MergedBut(a, a, b, f, default, b.Keys)
  {
  }

  lemma MergeStep<K, V>(r: map<K, V>, a: map<K, V>, b: map<K, V>, f: (V, V) -> V, default: V, todo: set<K>, k: K)
    requires MergedBut(r, a, b, f, default, todo) && k in todo
    ensures MergedBut(r[k := f(GetOr(r, k, default), b[k])], a, b, f, default, todo - {k})
  {
  }

  lemma MergeEnds<K, V>(r: map<K, V>, a: map<K, V>, b: map<K, V>, f: (V, V) -> V, default: V)
    requires MergedBut(r, a, b, f, default, {})
    ensures r == MergeWith(a, b, f, default)
  {
    assert Part(b, b.Keys) == b;
  }

  // ---------------------------------------------------------------- merging reports

  function Extend<K, V>(a: map<K, V>, b: map<K, V>): map<K, V> {
    a + b
  }

  function MergeContract(a: ContractInformation, b: ContractInformation): ContractInformation {
    ContractInformation(a.contractSize + b.contractSize)
  }

  function MergeContracts(a: map<string, ContractInformation>, b: map<string, ContractInformation>): map<string, ContractInformation> {
    MergeWith(a, b, MergeContract, ContractInformation(map[]))
  }

  const EmptyExecution: ExecutionReport := ExecutionReport(None, map[], map[], map[], map[], map[], map[])

  function MergeExecution(a: ExecutionReport, b: ExecutionReport): ExecutionReport {
    ExecutionReport(
      if a.status.None? then b.status else a.status,
      a.metricsInformation + b.metricsInformation,
      a.platformExecution + b.platformExecution,
      a.minedBlockInformation + b.minedBlockInformation,
      MergeWith(a.compiledContracts, b.compiledContracts, MergeContracts, map[]),
      MergeWith(a.contractAddresses, b.contractAddresses, Extend<Platform, Addresses>, map[]),
      b.steps + a.steps)
  }

  function MergeCase(a: CaseReport, b: CaseReport): CaseReport {
    CaseReport(MergeWith(a.modeExecutionReports, b.modeExecutionReports, MergeExecution, EmptyExecution))
  }

  function MergeFile(a: FileReport, b: FileReport): FileReport {
    FileReport(
      MergeWith(a.caseReports, b.caseReports, MergeCase, CaseReport(map[])),
      b.compilationReports + a.compilationReports)
  }

  function Merge(a: Report, b: Report): Report {
    Report(a.context, a.metadataFiles + b.metadataFiles,
      MergeWith(a.executionInformation, b.executionInformation, MergeFile, FileReport(map[], map[])))
  }

  /** The merge of one report or more, in order. */
  function MergeAll(reports: seq<Report>): Report
    requires reports != []
  {
    if |reports| == 1 then reports[0]
    else Merge(MergeAll(reports[..|reports| - 1]), reports[|reports| - 1])
  }

  lemma UnionIsLawful<K, V>(a: map<K, V>, b: map<K, V>, c: map<K, V>)
    ensures map[] + a == a && a + a == a && (a + b) + c == a + (b + c)
    ensures a + map[] == a
  {
  }

  lemma ExtendIsLawful<K(!new), V(!new)>()
    ensures Lawful(Extend<K, V>, map[])
  {
    forall x: map<K, V>, y: map<K, V>, z: map<K, V>
      ensures LawsAt(Extend<K, V>, map[], x, y, z)
    {
      UnionIsLawful(x, y, z);
    }
  }

  lemma MergeContractsIsLawful()
    ensures Lawful(MergeContracts, map[])
  {
    forall x, y, z
      ensures LawsAt(MergeContract, ContractInformation(map[]), x, y, z)
    {
      UnionIsLawful(x.contractSize, y.contractSize, z.contractSize);
    }
    forall x, y, z
      ensures LawsAt(MergeContracts, map[], x, y, z)
    {
      MergeWithLaws(x, y, z, MergeContract, ContractInformation(map[]));
    }
  }

  /** An empty execution report is a left identity of merging, which is idempotent and associative. */
  lemma MergeExecutionIsLawful()
    ensures Lawful(MergeExecution, EmptyExecution)
  {
    forall x, y, z
      ensures LawsAt(MergeExecution, EmptyExecution, x, y, z)
    {
      MergeContractsIsLawful();
      MergeWithLaws(x.compiledContracts, y.compiledContracts, z.compiledContracts, MergeContracts, map[]);
      ExtendIsLawful<Platform, Addresses>();
      MergeWithLaws(x.contractAddresses, y.contractAddresses, z.contractAddresses, Extend<Platform, Addresses>, map[]);
      UnionIsLawful(x.metricsInformation, y.metricsInformation, z.metricsInformation);
      UnionIsLawful(x.platformExecution, y.platformExecution, z.platformExecution);
      UnionIsLawful(x.minedBlockInformation, y.minedBlockInformation, z.minedBlockInformation);
      UnionIsLawful(x.steps, x.steps, x.steps);
      UnionIsLawful(z.steps, y.steps, x.steps);
    }
  }

  lemma MergeCaseIsLawful()
    ensures Lawful(MergeCase, CaseReport(map[]))
  {
    MergeExecutionIsLawful();
    forall x, y, z
      ensures LawsAt(MergeCase, CaseReport(map[]), x, y, z)
    {
      MergeWithLaws(x.modeExecutionReports, y.modeExecutionReports, z.modeExecutionReports, MergeExecution, EmptyExecution);
    }
  }

  lemma MergeFileIsLawful()
    ensures Lawful(MergeFile, FileReport(map[], map[]))
  {
    MergeCaseIsLawful();
    forall x, y, z
      ensures LawsAt(MergeFile, FileReport(map[], map[]), x, y, z)
    {
      MergeWithLaws(x.caseReports, y.caseReports, z.caseReports, MergeCase, CaseReport(map[]));
      UnionIsLawful(x.compilationReports, x.compilationReports, x.compilationReports);
      UnionIsLawful(z.compilationReports, y.compilationReports, x.compilationReports);
    }
  }

  /** Merging reports is associative and idempotent, although some fields take the first report's
      value and others the last one's. */
  lemma MergeIsAssociativeAndIdempotent(a: Report, b: Report, c: Report)
    ensures Merge(Merge(a, b), c) == Merge(a, Merge(b, c))
    ensures Merge(a, a) == a
  {
    MergeFileIsLawful();
    MergeWithLaws(a.executionInformation, b.executionInformation, c.executionInformation, MergeFile, FileReport(map[], map[]));
    assert (a.metadataFiles + b.metadataFiles) + c.metadataFiles == a.metadataFiles + (b.metadataFiles + c.metadataFiles);
  }

  /** Reports may be merged in batches. */
  lemma {:induction false} MergeInBatches(a: seq<Report>, b: seq<Report>)
    requires a != [] && b != []
    ensures MergeAll(a + b) == Merge(MergeAll(a), MergeAll(b))
    decreases |b|
  {
    var n := |b| - 1;
    assert (a + b)[..|a| + n] == a + b[..n];
    if n == 0 {
      assert a + b[..n] == a;
    } else {
      MergeInBatches(a, b[..n]);
      MergeIsAssociativeAndIdempotent(MergeAll(a), MergeAll(b[..n]), b[n]);
    }
  }

  // ---------------------------------------------------------------- what survives

  /** The execution report of one case in one mode. */
  function ExecutionAt(r: Report, file: FilePath, case_: nat, mode: ModeKey): Option<ExecutionReport> {
    if file !in r.executionInformation then None
    else
      var cases := r.executionInformation[file].caseReports;
      if case_ !in cases || mode !in cases[case_].modeExecutionReports then None
      else Some(cases[case_].modeExecutionReports[mode])
  }

  lemma ExecutionOfMerge(a: Report, b: Report, file: FilePath, case_: nat, mode: ModeKey)
    ensures var x, y := ExecutionAt(a, file, case_, mode), ExecutionAt(b, file, case_, mode);
      ExecutionAt(Merge(a, b), file, case_, mode)
        == if y.None? then x else Some(MergeExecution(x.GetOr(EmptyExecution), y.value))
  {
  }

  function PlatformsAt(r: Report, file: FilePath, case_: nat, mode: ModeKey): PerPlatform<Execution> {
    ExecutionAt(r, file, case_, mode).GetOr(EmptyExecution).platformExecution
  }

  /** No execution key of any input is lost and none is invented; a key in several inputs has its
      execution from the last of them. */
  lemma ExecutionKeysSurvive(reports: seq<Report>, file: FilePath, case_: nat, mode: ModeKey, platform: Platform)
    requires reports != []
    ensures var inputs, merged := AllPlatforms(reports, file, case_, mode), PlatformsAt(MergeAll(reports), file, case_, mode);
      && (platform in merged <==> exists i: nat :: i < |inputs| && platform in inputs[i])
      && (platform in merged ==>
            exists i: nat :: i < |inputs| && platform in inputs[i]
              && (forall j: nat | i < j < |inputs| :: platform !in inputs[j])
              && merged[platform] == inputs[i][platform])
  {
    PlatformsOfMergeAll(reports, file, case_, mode);
    KeysOfUnion(AllPlatforms(reports, file, case_, mode), platform);
  }

  function UnionOf<K, V>(maps: seq<map<K, V>>): map<K, V> {
    if maps == [] then map[] else UnionOf(maps[..|maps| - 1]) + maps[|maps| - 1]
  }

  // A key of a union has the value of the last map holding it.
  lemma {:induction false} KeysOfUnion<K, V>(maps: seq<map<K, V>>, k: K)
    ensures k in UnionOf(maps) <==> exists i: nat :: i < |maps| && k in maps[i]
    ensures k in UnionOf(maps) ==>
      exists i: nat :: i < |maps| && k in maps[i] && (forall j: nat | i < j < |maps| :: k !in maps[j]) && UnionOf(maps)[k] == maps[i][k]
    decreases |maps|
  {
    if maps != [] {
      var n := |maps| - 1;
      KeysOfUnion(maps[..n], k);
      assert forall j: nat | j < n :: maps[j] == maps[..n][j];
      if k !in maps[n] && k in UnionOf(maps[..n]) {
        var i: nat :| i < n && k in maps[..n][i] && (forall j: nat | i < j < n :: k !in maps[..n][j]) && UnionOf(maps[..n])[k] == maps[..n][i][k];
        assert k in maps[i] && UnionOf(maps)[k] == maps[i][k];
      }
    }
  }

  // What each input holds of the executions of one case in one mode.
  function AllPlatforms(reports: seq<Report>, file: FilePath, case_: nat, mode: ModeKey): seq<PerPlatform<Execution>> {
    seq(|reports|, i requires 0 <= i < |reports| => PlatformsAt(reports[i], file, case_, mode))
  }

  lemma {:induction false} PlatformsOfMergeAll(reports: seq<Report>, file: FilePath, case_: nat, mode: ModeKey)
    requires reports != []
    ensures PlatformsAt(MergeAll(reports), file, case_, mode) == UnionOf(AllPlatforms(reports, file, case_, mode))
    decreases |reports|
  {
    var n := |reports| - 1;
    var all := AllPlatforms(reports, file, case_, mode);
    assert all[..n] == AllPlatforms(reports[..n], file, case_, mode);
    if n > 0 {
      PlatformsOfMergeAll(reports[..n], file, case_, mode);
      PlatformsOfMerge(MergeAll(reports[..n]), reports[n], file, case_, mode);
    } else {
      assert UnionOf(all[..n]) == map[];
    }
  }

  lemma PlatformsOfMerge(a: Report, b: Report, file: FilePath, case_: nat, mode: ModeKey)
    ensures PlatformsAt(Merge(a, b), file, case_, mode)
         == PlatformsAt(a, file, case_, mode) + PlatformsAt(b, file, case_, mode)
  {
    ExecutionOfMerge(a, b, file, case_, mode);
  }

  /** `merged` is the first of the values there are. */
  ghost predicate IsFirstSome<T>(values: seq<Option<T>>, merged: Option<T>) {
    if merged.None? then forall j: nat | j < |values| :: values[j].None?
    else exists i: nat :: i < |values| && (forall j: nat | j < i :: values[j].None?) && merged == values[i]
  }

  /** `merged` is the last of the values there are. */
  ghost predicate IsLastSome<T>(values: seq<Option<T>>, merged: Option<T>) {
    if merged.None? then forall j: nat | j < |values| :: values[j].None?
    else exists i: nat :: i < |values| && (forall j: nat | i < j < |values| :: values[j].None?) && merged == values[i]
  }

  function Or<T>(first: Option<T>, second: Option<T>): Option<T> {
    if first.Some? then first else second
  }

  function FirstOf<T>(values: seq<Option<T>>): Option<T> {
    if values == [] then None else Or(FirstOf(values[..|values| - 1]), values[|values| - 1])
  }

  function LastOf<T>(values: seq<Option<T>>): Option<T> {
    if values == [] then None else Or(values[|values| - 1], LastOf(values[..|values| - 1]))
  }

  lemma {:induction false} FirstOfIsFirst<T>(values: seq<Option<T>>)
    ensures IsFirstSome(values, FirstOf(values))
    decreases |values|
  {
    if values != [] {
      var n := |values| - 1;
      FirstOfIsFirst(values[..n]);
      FirstSome(values[..n], values[n], FirstOf(values[..n]));
      assert values == values[..n] + [values[n]];
    }
  }

  lemma {:induction false} LastOfIsLast<T>(values: seq<Option<T>>)
    ensures IsLastSome(values, LastOf(values))
    decreases |values|
  {
    if values != [] {
      var n := |values| - 1;
      LastOfIsLast(values[..n]);
      LastSome(values[..n], values[n], LastOf(values[..n]));
      assert values == values[..n] + [values[n]];
    }
  }

  lemma FirstSome<T>(init: seq<Option<T>>, last: Option<T>, merged: Option<T>)
    requires IsFirstSome(init, merged)
    ensures IsFirstSome(init + [last], Or(merged, last))
  {
    var all := init + [last];
    assert forall j: nat | j < |init| :: all[j] == init[j];
    assert all[|init|] == last;
    if merged.Some? {
      var i: nat :| i < |init| && (forall j: nat | j < i :: init[j].None?) && merged == init[i];
      assert merged == all[i];
    }
  }

  lemma LastSome<T>(init: seq<Option<T>>, last: Option<T>, merged: Option<T>)
    requires IsLastSome(init, merged)
    ensures IsLastSome(init + [last], Or(last, merged))
  {
    var all := init + [last];
    assert forall j: nat | j < |init| :: all[j] == init[j];
    assert all[|init|] == last;
    if last.None? && merged.Some? {
      var i: nat :| i < |init| && (forall j: nat | i < j < |init| :: init[j].None?) && merged == init[i];
      assert merged == all[i];
    }
  }

  // One value of an execution report, missing in the empty one.
  type Look<T> = ExecutionReport -> Option<T>

  predicate TakesFirst<T(==)>(look: Look<T>, x: ExecutionReport, y: ExecutionReport) {
    look(MergeExecution(x, y)) == Or(look(x), look(y))
  }

  predicate TakesLast<T(==)>(look: Look<T>, x: ExecutionReport, y: ExecutionReport) {
    look(MergeExecution(x, y)) == Or(look(y), look(x))
  }

  ghost predicate PrefersFirst<T(!new)>(look: Look<T>) {
    look(EmptyExecution).None? && forall x: ExecutionReport, y: ExecutionReport :: TakesFirst(look, x, y)
  }

  ghost predicate PrefersLast<T(!new)>(look: Look<T>) {
    look(EmptyExecution).None? && forall x: ExecutionReport, y: ExecutionReport :: TakesLast(look, x, y)
  }

  function ExecutionIn(r: Report, file: FilePath, case_: nat, mode: ModeKey): ExecutionReport {
    ExecutionAt(r, file, case_, mode).GetOr(EmptyExecution)
  }

  function Values<T>(reports: seq<Report>, file: FilePath, case_: nat, mode: ModeKey, look: Look<T>): seq<Option<T>> {
    seq(|reports|, i requires 0 <= i < |reports| => look(ExecutionIn(reports[i], file, case_, mode)))
  }

  lemma ExecutionInMerge(a: Report, b: Report, file: FilePath, case_: nat, mode: ModeKey)
    ensures var x, y, z := ExecutionIn(a, file, case_, mode), ExecutionIn(b, file, case_, mode), ExecutionIn(Merge(a, b), file, case_, mode);
      z == MergeExecution(x, y) || (y == EmptyExecution && z == x)
  {
    ExecutionOfMerge(a, b, file, case_, mode);
  }

  lemma ValuesSnoc<T>(init: seq<Report>, last: Report, file: FilePath, case_: nat, mode: ModeKey, look: Look<T>)
    ensures Values(init + [last], file, case_, mode, look)
         == Values(init, file, case_, mode, look) + [look(ExecutionIn(last, file, case_, mode))]
  {
  }

  lemma MergeAllSnoc(init: seq<Report>, last: Report)
    requires init != []
    ensures MergeAll(init + [last]) == Merge(MergeAll(init), last)
  {
    assert (init + [last])[..|init|] == init;
  }

  lemma FirstOfSnoc<T>(values: seq<Option<T>>, last: Option<T>)
    ensures FirstOf(values + [last]) == Or(FirstOf(values), last)
    ensures LastOf(values + [last]) == Or(last, LastOf(values))
  {
    assert (values + [last])[..|values|] == values;
  }

  /** A value that merging two reports takes from the first is that of the first report having one. */
  lemma {:induction false} FirstWins<T(!new)>(reports: seq<Report>, file: FilePath, case_: nat, mode: ModeKey, look: Look<T>)
    requires reports != [] && PrefersFirst(look)
    ensures look(ExecutionIn(MergeAll(reports), file, case_, mode)) == FirstOf(Values(reports, file, case_, mode, look))
    decreases |reports|
  {
    var n := |reports| - 1;
    var init, last := reports[..n], reports[n];
    assert reports == init + [last];
    ValuesSnoc(init, last, file, case_, mode, look);
    FirstOfSnoc(Values(init, file, case_, mode, look), look(ExecutionIn(last, file, case_, mode)));
    if n > 0 {
      FirstWins(init, file, case_, mode, look);
      MergeAllSnoc(init, last);
      ExecutionInMerge(MergeAll(init), last, file, case_, mode);
      assert TakesFirst(look, ExecutionIn(MergeAll(init), file, case_, mode), ExecutionIn(last, file, case_, mode));
    }
  }

  /** A value that merging two reports takes from the second is that of the last report having one. */
  lemma {:induction false} LastWins<T(!new)>(reports: seq<Report>, file: FilePath, case_: nat, mode: ModeKey, look: Look<T>)
    requires reports != [] && PrefersLast(look)
    ensures look(ExecutionIn(MergeAll(reports), file, case_, mode)) == LastOf(Values(reports, file, case_, mode, look))
    decreases |reports|
  {
    var n := |reports| - 1;
    var init, last := reports[..n], reports[n];
    assert reports == init + [last];
    ValuesSnoc(init, last, file, case_, mode, look);
    FirstOfSnoc(Values(init, file, case_, mode, look), look(ExecutionIn(last, file, case_, mode)));
    if n > 0 {
      LastWins(init, file, case_, mode, look);
      MergeAllSnoc(init, last);
      ExecutionInMerge(MergeAll(init), last, file, case_, mode);
      assert TakesLast(look, ExecutionIn(MergeAll(init), file, case_, mode), ExecutionIn(last, file, case_, mode));
    }
  }

  // The values of an execution report.
  function Find<K, V>(m: map<K, V>, k: K): Option<V> {
    if k in m then Some(m[k]) else None
  }

  function StatusOf(): Look<Status> { (e: ExecutionReport) => e.status }
  function StepOf(step: StepPath): Look<StepReport> { (e: ExecutionReport) => Find(e.steps, step) }
  function MetricsOf(p: Platform): Look<Metrics> { (e: ExecutionReport) => Find(e.metricsInformation, p) }
  function PlatformOf(p: Platform): Look<Execution> { (e: ExecutionReport) => Find(e.platformExecution, p) }
  function MinedOf(p: Platform): Look<MinedBlocks> { (e: ExecutionReport) => Find(e.minedBlockInformation, p) }
  function AddressesOf(instance: Instance, p: Platform): Look<Addresses> {
    (e: ExecutionReport) => Find(GetOr(e.contractAddresses, instance, map[]), p)
  }
  function SizeOf(path: FilePath, name: string, p: Platform): Look<nat> {
    (e: ExecutionReport) => Find(GetOr(GetOr(e.compiledContracts, path, map[]), name, ContractInformation(map[])).contractSize, p)
  }

  lemma SizesPreferLast(path: FilePath, name: string, p: Platform)
    ensures PrefersLast(SizeOf(path, name, p))
  {
    forall x: ExecutionReport, y: ExecutionReport
      ensures TakesLast(SizeOf(path, name, p), x, y)
    {
      var a, b := GetOr(x.compiledContracts, path, map[]), GetOr(y.compiledContracts, path, map[]);
      if path in y.compiledContracts {
        assert MergeExecution(x, y).compiledContracts[path] == MergeContracts(a, b);
      }
    }
  }

  lemma AddressesPreferLast(instance: Instance, p: Platform)
    ensures PrefersLast(AddressesOf(instance, p))
  {
  }

  lemma StatusPrefersFirst()
    ensures PrefersFirst(StatusOf())
  {
  }

  lemma StatusAndStepsPreferFirst(step: StepPath)
    ensures PrefersFirst(StatusOf()) && PrefersFirst(StepOf(step))
  {
  }

  lemma PlatformsPreferLast(p: Platform)
    ensures PrefersLast(MetricsOf(p)) && PrefersLast(PlatformOf(p)) && PrefersLast(MinedOf(p))
  {
  }

  /** What a merged report holds of an execution, field by field: statuses and steps of the first
      report having them, all else of the last. */
  lemma MergedFields(reports: seq<Report>, file: FilePath, case_: nat, mode: ModeKey,
      step: StepPath, p: Platform, instance: Instance, path: FilePath, name: string)
    requires reports != []
    ensures var e := ExecutionIn(MergeAll(reports), file, case_, mode);
      && StatusOf()(e) == FirstOf(Values(reports, file, case_, mode, StatusOf()))
      && StepOf(step)(e) == FirstOf(Values(reports, file, case_, mode, StepOf(step)))
      && MetricsOf(p)(e) == LastOf(Values(reports, file, case_, mode, MetricsOf(p)))
      && PlatformOf(p)(e) == LastOf(Values(reports, file, case_, mode, PlatformOf(p)))
      && MinedOf(p)(e) == LastOf(Values(reports, file, case_, mode, MinedOf(p)))
      && AddressesOf(instance, p)(e) == LastOf(Values(reports, file, case_, mode, AddressesOf(instance, p)))
      && SizeOf(path, name, p)(e) == LastOf(Values(reports, file, case_, mode, SizeOf(path, name, p)))
  {
    StatusAndStepsPreferFirst(step);
    PlatformsPreferLast(p);
    AddressesPreferLast(instance, p);
    SizesPreferLast(path, name, p);
    FirstWins(reports, file, case_, mode, StatusOf());
    FirstWins(reports, file, case_, mode, StepOf(step));
    LastWins(reports, file, case_, mode, MetricsOf(p));
    LastWins(reports, file, case_, mode, PlatformOf(p));
    LastWins(reports, file, case_, mode, MinedOf(p));
    LastWins(reports, file, case_, mode, AddressesOf(instance, p));
    LastWins(reports, file, case_, mode, SizeOf(path, name, p));
  }

  function CompilationAt(r: Report, file: FilePath, mode: ModeKey): Option<CompilationReport> {
    if file in r.executionInformation then Find(r.executionInformation[file].compilationReports, mode) else None
  }

  function CompilationsAt(reports: seq<Report>, file: FilePath, mode: ModeKey): seq<Option<CompilationReport>> {
    seq(|reports|, i requires 0 <= i < |reports| => CompilationAt(reports[i], file, mode))
  }

  /** The context and each compilation report are those of the first report having one; the metadata
      files are those of all. */
  lemma {:induction false} MergedFiles(reports: seq<Report>, file: FilePath, mode: ModeKey)
    requires reports != []
    ensures MergeAll(reports).context == reports[0].context
    ensures file in MergeAll(reports).metadataFiles <==> exists r <- reports :: file in r.metadataFiles
    ensures CompilationAt(MergeAll(reports), file, mode) == FirstOf(CompilationsAt(reports, file, mode))
    decreases |reports|
  {
    var n := |reports| - 1;
    var init, last := reports[..n], reports[n];
    assert reports == init + [last];
    assert CompilationsAt(reports, file, mode) == CompilationsAt(init, file, mode) + [CompilationAt(last, file, mode)];
    FirstOfSnoc(CompilationsAt(init, file, mode), CompilationAt(last, file, mode));
    if n > 0 {
      MergedFiles(init, file, mode);
      MergeAllSnoc(init, last);
    }
  }

  /** The two rules together can pair the status of one run with the execution of another. */
  lemma StatusAndExecutionMayDiffer(status: Status, first: Execution, last: Execution, file: FilePath, mode: ModeKey,
      platform: Platform, context: Context)
    ensures
      var x := EmptyExecution.(status := Some(status), platformExecution := map[platform := first]);
      var y := EmptyExecution.(platformExecution := map[platform := last]);
      var merged := Merge(OneExecution(context, file, mode, x), OneExecution(context, file, mode, y));
      && ExecutionIn(merged, file, 0, mode).status == Some(status)
      && PlatformsAt(merged, file, 0, mode) == map[platform := last]
  {
  }

  function OneExecution(context: Context, file: FilePath, mode: ModeKey, e: ExecutionReport): Report {
    Report(context, {file}, map[file := FileReport(map[0 := CaseReport(map[mode := e])], map[])])
  }

  // ---------------------------------------------------------------- where merged values come from

  // The report with another execution report for one case in one mode.
  function Put(r: Report, file: FilePath, case_: nat, mode: ModeKey, e: ExecutionReport): Report {
    var f := GetOr(r.executionInformation, file, FileReport(map[], map[]));
    var c := GetOr(f.caseReports, case_, CaseReport(map[]));
    r.(executionInformation := r.executionInformation[file :=
      f.(caseReports := f.caseReports[case_ := CaseReport(c.modeExecutionReports[mode := e])])])
  }

  lemma PutIsThere(r: Report, file: FilePath, case_: nat, mode: ModeKey, e: ExecutionReport)
    ensures ExecutionIn(Put(r, file, case_, mode, e), file, case_, mode) == e
  {
  }

  // The inputs with the status, or the execution on a platform, of input `i` changed to `v`.
  function WithStatus(reports: seq<Report>, file: FilePath, case_: nat, mode: ModeKey, i: nat, v: Status): seq<Report>
    requires i < |reports|
  {
    reports[i := Put(reports[i], file, case_, mode, ExecutionIn(reports[i], file, case_, mode).(status := Some(v)))]
  }

  function WithPlatform(reports: seq<Report>, file: FilePath, case_: nat, mode: ModeKey, p: Platform, i: nat, v: Execution): seq<Report>
    requires i < |reports|
  {
    var e := ExecutionIn(reports[i], file, case_, mode);
    reports[i := Put(reports[i], file, case_, mode, e.(platformExecution := e.platformExecution[p := v]))]
  }

  /** The merged status comes from input `i`: that input has one, and whatever it is, the merge has it. */
  ghost predicate StatusComesFrom(reports: seq<Report>, file: FilePath, case_: nat, mode: ModeKey, i: nat) {
    && i < |reports| && ExecutionIn(reports[i], file, case_, mode).status.Some?
    && forall v: Status ::
         ExecutionIn(MergeAll(WithStatus(reports, file, case_, mode, i, v)), file, case_, mode).status == Some(v)
  }

  /** The same of the merged execution on a platform. */
  ghost predicate ExecutionComesFrom(reports: seq<Report>, file: FilePath, case_: nat, mode: ModeKey, p: Platform, i: nat) {
    && i < |reports| && p in ExecutionIn(reports[i], file, case_, mode).platformExecution
    && forall v: Execution ::
         PlatformOf(p)(ExecutionIn(MergeAll(WithPlatform(reports, file, case_, mode, p, i, v)), file, case_, mode)) == Some(v)
  }

  ghost predicate FirstAt<T>(values: seq<Option<T>>, i: nat) {
    i < |values| && values[i].Some? && forall k: nat | k < i :: values[k].None?
  }

  ghost predicate LastAt<T>(values: seq<Option<T>>, i: nat) {
    i < |values| && values[i].Some? && forall k: nat | i < k < |values| :: values[k].None?
  }

  lemma {:induction false} FirstOfChanged<T>(values: seq<Option<T>>, i: nat, v: T)
    requires i < |values| && values[i].Some?
    ensures FirstOf(values[i := Some(v)]) == if FirstAt(values, i) then Some(v) else FirstOf(values)
    decreases |values|
  {
    var n := |values| - 1;
    var init := values[..n];
    var changed := values[i := Some(v)];
    if i < n {
      FirstOfChanged(init, i, v);
      assert changed[..n] == init[i := Some(v)];
      assert FirstAt(values, i) <==> FirstAt(init, i);
      FirstOfIsFirst(init);
      assert init[i].Some?;
    } else {
      assert changed[..n] == init;
      FirstOfIsFirst(init);
      assert forall k: nat | k < n :: values[k] == init[k];
    }
  }

  lemma {:induction false} LastOfChanged<T>(values: seq<Option<T>>, i: nat, v: T)
    requires i < |values| && values[i].Some?
    ensures LastOf(values[i := Some(v)]) == if LastAt(values, i) then Some(v) else LastOf(values)
    decreases |values|
  {
    var n := |values| - 1;
    var init := values[..n];
    var changed := values[i := Some(v)];
    if i < n {
      LastOfChanged(init, i, v);
      assert changed[..n] == init[i := Some(v)];
      if values[n].None? {
        assert LastAt(values, i) <==> LastAt(init, i) by {
          assert forall k: nat | k < n :: values[k] == init[k];
        }
      }
    }
  }

  lemma StatusesChanged(reports: seq<Report>, file: FilePath, case_: nat, mode: ModeKey, i: nat, v: Status)
    requires i < |reports|
    ensures Values(WithStatus(reports, file, case_, mode, i, v), file, case_, mode, StatusOf())
         == Values(reports, file, case_, mode, StatusOf())[i := Some(v)]
  {
    PutIsThere(reports[i], file, case_, mode, ExecutionIn(reports[i], file, case_, mode).(status := Some(v)));
  }

  lemma PlatformsChanged(reports: seq<Report>, file: FilePath, case_: nat, mode: ModeKey, p: Platform, i: nat, v: Execution)
    requires i < |reports|
    ensures Values(WithPlatform(reports, file, case_, mode, p, i, v), file, case_, mode, PlatformOf(p))
         == Values(reports, file, case_, mode, PlatformOf(p))[i := Some(v)]
  {
    var e := ExecutionIn(reports[i], file, case_, mode);
    PutIsThere(reports[i], file, case_, mode, e.(platformExecution := e.platformExecution[p := v]));
  }

  lemma MergedStatusChanged(reports: seq<Report>, file: FilePath, case_: nat, mode: ModeKey, i: nat, v: Status)
    requires i < |reports| && ExecutionIn(reports[i], file, case_, mode).status.Some?
    ensures var values := Values(reports, file, case_, mode, StatusOf());
      ExecutionIn(MergeAll(WithStatus(reports, file, case_, mode, i, v)), file, case_, mode).status
        == if FirstAt(values, i) then Some(v) else FirstOf(values)
  {
    var changed := WithStatus(reports, file, case_, mode, i, v);
    StatusPrefersFirst();
    FirstWins(changed, file, case_, mode, StatusOf());
    StatusesChanged(reports, file, case_, mode, i, v);
    FirstOfChanged(Values(reports, file, case_, mode, StatusOf()), i, v);
  }

  lemma MergedPlatformChanged(reports: seq<Report>, file: FilePath, case_: nat, mode: ModeKey, p: Platform, i: nat, v: Execution)
    requires i < |reports| && p in ExecutionIn(reports[i], file, case_, mode).platformExecution
    ensures var values := Values(reports, file, case_, mode, PlatformOf(p));
      PlatformOf(p)(ExecutionIn(MergeAll(WithPlatform(reports, file, case_, mode, p, i, v)), file, case_, mode))
        == if LastAt(values, i) then Some(v) else LastOf(values)
  {
    var changed := WithPlatform(reports, file, case_, mode, p, i, v);
    PlatformsPreferLast(p);
    LastWins(changed, file, case_, mode, PlatformOf(p));
    PlatformsChanged(reports, file, case_, mode, p, i, v);
    LastOfChanged(Values(reports, file, case_, mode, PlatformOf(p)), i, v);
  }

  /** The merged status comes from an input exactly when it is the first one with a status. */
  lemma StatusComesFromFirst(reports: seq<Report>, file: FilePath, case_: nat, mode: ModeKey, i: nat)
    ensures StatusComesFrom(reports, file, case_, mode, i) <==> FirstAt(Values(reports, file, case_, mode, StatusOf()), i)
  {
    if i < |reports| && ExecutionIn(reports[i], file, case_, mode).status.Some? {
      forall v: Status
        ensures ExecutionIn(MergeAll(WithStatus(reports, file, case_, mode, i, v)), file, case_, mode).status
             == if FirstAt(Values(reports, file, case_, mode, StatusOf()), i) then Some(v)
                else FirstOf(Values(reports, file, case_, mode, StatusOf()))
      {
        MergedStatusChanged(reports, file, case_, mode, i, v);
      }
      assert Succeeded(0) != Succeeded(1);
      var v, w := Succeeded(0), Succeeded(1);
      MergedStatusChanged(reports, file, case_, mode, i, v);
      MergedStatusChanged(reports, file, case_, mode, i, w);
    }
  }

  /** The merged execution comes from an input exactly when it is the last one with an execution. */
  lemma ExecutionComesFromLast(reports: seq<Report>, file: FilePath, case_: nat, mode: ModeKey, p: Platform, i: nat)
    ensures ExecutionComesFrom(reports, file, case_, mode, p, i)
      <==> LastAt(Values(reports, file, case_, mode, PlatformOf(p)), i)
  {
    if i < |reports| && p in ExecutionIn(reports[i], file, case_, mode).platformExecution {
      forall v: Execution
        ensures PlatformOf(p)(ExecutionIn(MergeAll(WithPlatform(reports, file, case_, mode, p, i, v)), file, case_, mode))
             == if LastAt(Values(reports, file, case_, mode, PlatformOf(p)), i) then Some(v)
                else LastOf(Values(reports, file, case_, mode, PlatformOf(p)))
      {
        MergedPlatformChanged(reports, file, case_, mode, p, i, v);
      }
      var information: ExecutionInformation :| true;
      var v, w: Execution := None, Some(information);
      MergedPlatformChanged(reports, file, case_, mode, p, i, v);
      MergedPlatformChanged(reports, file, case_, mode, p, i, w);
    }
  }

  /** The merged status and the merged execution on a platform come from one input exactly when the
      first input with a status is the last one with an execution on the platform. */
  lemma OneInputDecidesBoth(reports: seq<Report>, file: FilePath, case_: nat, mode: ModeKey, p: Platform)
    ensures (exists i :: StatusComesFrom(reports, file, case_, mode, i) && ExecutionComesFrom(reports, file, case_, mode, p, i))
      <==> exists i :: FirstAt(Values(reports, file, case_, mode, StatusOf()), i)
                    && LastAt(Values(reports, file, case_, mode, PlatformOf(p)), i)
  {
    forall i: nat
      ensures StatusComesFrom(reports, file, case_, mode, i) <==> FirstAt(Values(reports, file, case_, mode, StatusOf()), i)
      ensures ExecutionComesFrom(reports, file, case_, mode, p, i) <==> LastAt(Values(reports, file, case_, mode, PlatformOf(p)), i)
    {
      StatusComesFromFirst(reports, file, case_, mode, i);
      ExecutionComesFromLast(reports, file, case_, mode, p, i);
    }
  }

  // ---------------------------------------------------------------- the loops

  method MergeContractEntries(merged: map<string, ContractInformation>, other: map<string, ContractInformation>)
    returns (r: map<string, ContractInformation>)
    ensures r == MergeContracts(merged, other)
  {
    r := merged;
    var todo := other.Keys;
    MergeStarts(merged, other, MergeContract, ContractInformation(map[]));
    while todo != {}
      invariant MergedBut(r, merged, other, MergeContract, ContractInformation(map[]), todo)
    {
      var name :| name in todo;
      MergeStep(r, merged, other, MergeContract, ContractInformation(map[]), todo, name);
      var information := GetOr(r, name, ContractInformation(map[]));
      r := r[name := ContractInformation(information.contractSize + other[name].contractSize)];
      todo := todo - {name};
    }
    MergeEnds(r, merged, other, MergeContract, ContractInformation(map[]));
  }

  method MergeCompiledContracts(merged: map<FilePath, map<string, ContractInformation>>, other: map<FilePath, map<string, ContractInformation>>)
    returns (r: map<FilePath, map<string, ContractInformation>>)
    ensures r == MergeWith(merged, other, MergeContracts, map[])
  {
    r := merged;
    var todo := other.Keys;
    MergeStarts(merged, other, MergeContracts, map[]);
    while todo != {}
      invariant MergedBut(r, merged, other, MergeContracts, map[], todo)
    {
      var path :| path in todo;
      MergeStep(r, merged, other, MergeContracts, map[], todo, path);
      var contracts := MergeContractEntries(GetOr(r, path, map[]), other[path]);
      r := r[path := contracts];
      todo := todo - {path};
    }
    MergeEnds(r, merged, other, MergeContracts, map[]);
  }

  method MergeAddresses(merged: map<Instance, PerPlatform<Addresses>>, other: map<Instance, PerPlatform<Addresses>>)
    returns (r: map<Instance, PerPlatform<Addresses>>)
    ensures r == MergeWith(merged, other, Extend<Platform, Addresses>, map[])
  {
    r := merged;
    var todo := other.Keys;
    MergeStarts(merged, other, Extend<Platform, Addresses>, map[]);
    while todo != {}
      invariant MergedBut(r, merged, other, Extend<Platform, Addresses>, map[], todo)
    {
      var instance :| instance in todo;
      MergeStep(r, merged, other, Extend<Platform, Addresses>, map[], todo, instance);
      r := r[instance := GetOr(r, instance, map[]) + other[instance]];
      todo := todo - {instance};
    }
    MergeEnds(r, merged, other, Extend<Platform, Addresses>, map[]);
  }

  // Takes over the entries whose keys are not there yet.
  method InsertMissing<K(==), V>(merged: map<K, V>, other: map<K, V>) returns (r: map<K, V>)
    ensures r == other + merged
  {
    r := merged;
    var todo := other.Keys;
    while todo != {}
      invariant todo <= other.Keys
      invariant r == Part(other, other.Keys - todo) + merged
    {
      var k :| k in todo;
      if k !in r {
        r := r[k := other[k]];
      }
      todo := todo - {k};
    }
    assert Part(other, other.Keys) == other;
  }

  method MergeExecutionEntries(merged: ExecutionReport, other: ExecutionReport) returns (r: ExecutionReport)
    ensures r == MergeExecution(merged, other)
  {
    r := merged;
    if r.status.None? {
      r := r.(status := other.status);
    }
    r := r.(metricsInformation := r.metricsInformation + other.metricsInformation);
    r := r.(platformExecution := r.platformExecution + other.platformExecution);
    r := r.(minedBlockInformation := r.minedBlockInformation + other.minedBlockInformation);
    var contracts := MergeCompiledContracts(r.compiledContracts, other.compiledContracts);
    var addresses := MergeAddresses(r.contractAddresses, other.contractAddresses);
    var steps := InsertMissing(r.steps, other.steps);
    r := r.(compiledContracts := contracts, contractAddresses := addresses, steps := steps);
  }

  method MergeModes(merged: map<ModeKey, ExecutionReport>, other: map<ModeKey, ExecutionReport>)
    returns (r: map<ModeKey, ExecutionReport>)
    ensures r == MergeWith(merged, other, MergeExecution, EmptyExecution)
  {
    r := merged;
    var todo := other.Keys;
    MergeStarts(merged, other, MergeExecution, EmptyExecution);
    while todo != {}
      invariant MergedBut(r, merged, other, MergeExecution, EmptyExecution, todo)
    {
      var mode :| mode in todo;
      MergeStep(r, merged, other, MergeExecution, EmptyExecution, todo, mode);
      var execution := MergeExecutionEntries(GetOr(r, mode, EmptyExecution), other[mode]);
      r := r[mode := execution];
      todo := todo - {mode};
    }
    MergeEnds(r, merged, other, MergeExecution, EmptyExecution);
  }

  method MergeCases(merged: map<nat, CaseReport>, other: map<nat, CaseReport>) returns (r: map<nat, CaseReport>)
    ensures r == MergeWith(merged, other, MergeCase, CaseReport(map[]))
  {
    r := merged;
    var todo := other.Keys;
    MergeStarts(merged, other, MergeCase, CaseReport(map[]));
    while todo != {}
      invariant MergedBut(r, merged, other, MergeCase, CaseReport(map[]), todo)
    {
      var index :| index in todo;
      MergeStep(r, merged, other, MergeCase, CaseReport(map[]), todo, index);
      var modes := MergeModes(GetOr(r, index, CaseReport(map[])).modeExecutionReports, other[index].modeExecutionReports);
      r := r[index := CaseReport(modes)];
      todo := todo - {index};
    }
    MergeEnds(r, merged, other, MergeCase, CaseReport(map[]));
  }

  method MergeFiles(merged: map<FilePath, FileReport>, other: map<FilePath, FileReport>) returns (r: map<FilePath, FileReport>)
    ensures r == MergeWith(merged, other, MergeFile, FileReport(map[], map[]))
  {
    r := merged;
    var todo := other.Keys;
    MergeStarts(merged, other, MergeFile, FileReport(map[], map[]));
    while todo != {}
      invariant MergedBut(r, merged, other, MergeFile, FileReport(map[], map[]), todo)
    {
      var path :| path in todo;
      MergeStep(r, merged, other, MergeFile, FileReport(map[], map[]), todo, path);
      var file := GetOr(r, path, FileReport(map[], map[]));
      var compilations := InsertMissing(file.compilationReports, other[path].compilationReports);
      var cases := MergeCases(file.caseReports, other[path].caseReports);
      r := r[path := FileReport(cases, compilations)];
      todo := todo - {path};
    }
    MergeEnds(r, merged, other, MergeFile, FileReport(map[], map[]));
  }

  method MergeReports(reports: seq<Report>) returns (r: Result<Report>)
    ensures r == if reports == [] then Err else Ok(MergeAll(reports))
  {
    if reports == [] {
      return Err;
    }
    var merged := reports[0];
    var i := 1;
    assert reports[..1] == [reports[0]];
    while i < |reports|
      invariant 1 <= i <= |reports|
      invariant merged == MergeAll(reports[..i])
    {
      assert reports[..i + 1][..i] == reports[..i];
      var files := MergeFiles(merged.executionInformation, reports[i].executionInformation);
      merged := merged.(metadataFiles := merged.metadataFiles + reports[i].metadataFiles, executionInformation := files);
      i := i + 1;
    }
    assert reports[..i] == reports;
    r := Ok(merged);
  }
}
