/**
 Expanding parsed modes into concrete ones, concrete modes read from their text, and allow-lists.
 */
module ModeExpansion {
  import opened Common
  import opened ModeLanguage

  const Pipelines: seq<Pipeline> := [ViaYulIR, ViaNewYorkIR, ViaEVMAssembly]
  const Levels: seq<Level> := [M0, M1, M2, M3, Ms, Mz]

  function OnAllLevels(solcOptimizerEnabled: bool): (settings: seq<OptimizerSetting>)
    ensures |settings| == 6
  {
    seq(6, i requires 0 <= i < 6 => OptimizerSetting(solcOptimizerEnabled, Levels[i]))
  }

  function Settings(p: ParsedMode): seq<OptimizerSetting> {
    if p.solcOptimizerEnabled.Some? && p.optimizeLevel.Some? then
      [OptimizerSetting(p.solcOptimizerEnabled.value, p.optimizeLevel.value)]
    else if p.optimizeLevel.Some? then
      [OptimizerSetting(true, p.optimizeLevel.value), OptimizerSetting(false, p.optimizeLevel.value)]
    else if p.solcOptimizerEnabled.Some? then OnAllLevels(p.solcOptimizerEnabled.value)
    else if p.optimizeFlag.Some? then OnAllLevels(p.optimizeFlag.value)
    else OnAllLevels(true) + OnAllLevels(false)
  }

  // The modes of each pipeline in turn.
  function Product(pipelines: seq<Pipeline>, settings: seq<OptimizerSetting>, version: Option<Requirement>): seq<Mode> {
    if pipelines == [] then []
    else
      seq(|settings|, i requires 0 <= i < |settings| => Mode(pipelines[0], settings[i], version))
      + Product(pipelines[1..], settings, version)
  }

  function ToModes(p: ParsedMode): seq<Mode> {
    Product(if p.pipeline.Some? then [p.pipeline.value] else Pipelines, Settings(p), p.solcVersion)
  }

  /** The constraints a parsed mode puts on a concrete one; the flag counts only when neither a level
      nor an optimizer setting is given. */
  predicate Meets(m: Mode, p: ParsedMode) {
    MeetsIgnoringVersion(m, p) && m.solcVersion == p.solcVersion
  }

  predicate MeetsIgnoringVersion(m: Mode, p: ParsedMode) {
    && (p.pipeline.Some? ==> m.pipeline == p.pipeline.value)
    && (p.optimizeLevel.Some? ==> m.optimizeSetting.level == p.optimizeLevel.value)
    && (p.solcOptimizerEnabled.Some? ==> m.optimizeSetting.solcOptimizerEnabled == p.solcOptimizerEnabled.value)
    && (p.optimizeLevel.None? && p.solcOptimizerEnabled.None? && p.optimizeFlag.Some? ==>
          m.optimizeSetting.solcOptimizerEnabled == p.optimizeFlag.value)
  }

  lemma LevelIndex(l: Level) returns (i: nat)
    ensures i < 6 && Levels[i] == l
  {
    i := match l
      case M0 => 0
      case M1 => 1
      case M2 => 2
      case M3 => 3
      case Ms => 4
      case Mz => 5;
  }

  lemma OnAllLevelsIsAll(b: bool)
    ensures NoRepeats(OnAllLevels(b))
    ensures forall o: OptimizerSetting :: o in OnAllLevels(b) <==> o.solcOptimizerEnabled == b
  {
    forall o: OptimizerSetting | o.solcOptimizerEnabled == b
      ensures o in OnAllLevels(b)
    {
      var i := LevelIndex(o.level);
      assert OnAllLevels(b)[i] == o;
    }
  }

  lemma SettingsAre(p: ParsedMode)
    ensures NoRepeats(Settings(p)) && Settings(p) != []
    ensures forall m: Mode :: m.optimizeSetting in Settings(p) <==> MeetsIgnoringVersion(m, p.(pipeline := None))
  {
    OnAllLevelsIsAll(true);
    OnAllLevelsIsAll(false);
    forall i, j | 0 <= i < 6 <= j < 12
      ensures (OnAllLevels(true) + OnAllLevels(false))[i] != (OnAllLevels(true) + OnAllLevels(false))[j]
    {
    }
    assert NoRepeats(OnAllLevels(true) + OnAllLevels(false));
    assert forall m: Mode :: m.optimizeSetting in OnAllLevels(true) + OnAllLevels(false);
  }

  lemma {:induction false} ProductIs(pipelines: seq<Pipeline>, settings: seq<OptimizerSetting>, version: Option<Requirement>)
    requires NoRepeats(pipelines) && NoRepeats(settings)
    ensures NoRepeats(Product(pipelines, settings, version))
    ensures |Product(pipelines, settings, version)| == |pipelines| * |settings|
    ensures forall m :: m in Product(pipelines, settings, version) <==>
      (m.pipeline in pipelines && m.optimizeSetting in settings && m.solcVersion == version)
    decreases |pipelines|
  {
    if pipelines != [] {
      var first := seq(|settings|, i requires 0 <= i < |settings| => Mode(pipelines[0], settings[i], version));
      var rest := Product(pipelines[1..], settings, version);
      ProductIs(pipelines[1..], settings, version);
      assert pipelines == [pipelines[0]] + pipelines[1..];
      assert pipelines[0] !in pipelines[1..];
      forall m
        ensures m in first <==> m.pipeline == pipelines[0] && m.optimizeSetting in settings && m.solcVersion == version
      {
        if m.pipeline == pipelines[0] && m.optimizeSetting in settings && m.solcVersion == version {
          var i :| 0 <= i < |settings| && settings[i] == m.optimizeSetting;
          assert first[i] == m;
        }
      }
      Disjoint(first, rest);
    }
  }

  lemma Disjoint<T>(a: seq<T>, b: seq<T>)
    requires NoRepeats(a) && NoRepeats(b) && forall x <- a :: x !in b
    ensures NoRepeats(a + b)
  {
    forall i, j | 0 <= i < j < |a + b|
      ensures (a + b)[i] != (a + b)[j]
    {
      if i < |a| <= j {
        assert a[i] in a && b[j - |a|] in b;
      }
    }
  }

  /** The expansion lists exactly the modes meeting the constraints, each once. */
  lemma ToModesIsExact(p: ParsedMode)
    ensures NoRepeats(ToModes(p))
    ensures forall m :: m in ToModes(p) <==> Meets(m, p)
    ensures |ToModes(p)| == (if p.pipeline.Some? then 1 else 3) * |Settings(p)|
  {
    SettingsAre(p);
    var pipelines := if p.pipeline.Some? then [p.pipeline.value] else Pipelines;
    ProductIs(pipelines, Settings(p), p.solcVersion);
    AllPipelines();
  }

  lemma AllPipelines()
    ensures forall q: Pipeline :: q in Pipelines
  {
    forall q: Pipeline
      ensures q in Pipelines
    {
      assert Pipelines[match q case ViaYulIR => 0 case ViaNewYorkIR => 1 case ViaEVMAssembly => 2] == q;
    }
  }

  // ---------------------------------------------------------------- the text of a concrete mode

  // The pipeline, the level and the optimizer, and the version if there is one.
  function PrintMode(m: Mode): string {
    PipelineText(m.pipeline) + (" " + PrintSetting(m.optimizeSetting)
      + (if m.solcVersion.None? then "" else " " + RequirementText(m.solcVersion.value)))
  }

  function PrintSetting(o: OptimizerSetting): string {
    ['M', LevelChar(o.level)] + " " + ['S', SignChar(o.solcOptimizerEnabled)]
  }

  /** The mode a text stands for: one that expands to a single mode. */
  function ReadMode(s: string): Result<Mode> {
    var parsed := Parse(s);
    if parsed.Err? then Err
    else
      var modes := ToModes(parsed.value);
      if |modes| != 1 then Err else Ok(modes[0])
  }

  function AsParsed(m: Mode): ParsedMode {
    ParsedMode(Some(m.pipeline), None, Some(m.optimizeSetting.level),
      Some(m.optimizeSetting.solcOptimizerEnabled), m.solcVersion)
  }

  lemma PrintModeIsPrint(m: Mode)
    ensures PrintMode(m) == Print(AsParsed(m))
  {
    var p := AsParsed(m);
    var level, solc := ['M', LevelChar(m.optimizeSetting.level)], ['S', SignChar(m.optimizeSetting.solcOptimizerEnabled)];
    var version := FromVersion(p, true);
    assert FromOptimizer(p, true) == " " + (solc + version);
    assert FromLevel(p, true) == " " + (level + FromOptimizer(p, true));
    Regroup(level, solc, version);
    assert "" + FromLevel(p, true) == FromLevel(p, true);
  }

  lemma Regroup(a: string, b: string, c: string)
    ensures " " + (a + (" " + (b + c))) == " " + (a + " " + b) + c
  {
  }

  /** Reading the printed form of a concrete mode returns it. */
  lemma ReadModePrintMode(m: Mode)
    requires m.solcVersion.Some? ==> ValidRequirement(m.solcVersion.value)
    ensures ReadMode(PrintMode(m)) == Ok(m)
  {
    PrintModeIsPrint(m);
    ParsePrint(AsParsed(m));
    ToModesIsExact(AsParsed(m));
    assert Meets(m, AsParsed(m));
  }

  /** Modes are ordered by their text; no two different modes compare equal. */
  lemma PrintModeIsInjective(m: Mode, n: Mode)
    requires m.solcVersion.Some? ==> ValidRequirement(m.solcVersion.value)
    requires n.solcVersion.Some? ==> ValidRequirement(n.solcVersion.value)
    ensures PrintMode(m) == PrintMode(n) <==> m == n
  {
    ReadModePrintMode(m);
    ReadModePrintMode(n);
  }

  /** A text is a concrete mode exactly when it gives the pipeline, the level and the optimizer. */
  lemma ReadModeIffSpecified(s: string)
    ensures ReadMode(s).Ok? <==> Parse(s).Ok? && var p := Parse(s).value;
      p.pipeline.Some? && p.optimizeLevel.Some? && p.solcOptimizerEnabled.Some?
    ensures ReadMode(s).Ok? ==> Meets(ReadMode(s).value, Parse(s).value)
  {
    if Parse(s).Ok? {
      var p := Parse(s).value;
      ToModesIsExact(p);
      if |ToModes(p)| == 1 {
        assert ToModes(p)[0] in ToModes(p);
      }
    }
  }

  // ---------------------------------------------------------------- allow-lists

  /** The allowed modes; none when unrestricted. */
  type AllowList = Option<set<Mode>>

  function ManyToModes(parsed: seq<ParsedMode>): set<Mode> {
    if parsed == [] then {} else (set m <- ToModes(parsed[0])) + ManyToModes(parsed[1..])
  }

  function FromParsedModes(parsed: seq<ParsedMode>): AllowList {
    var modes := ManyToModes(parsed);
    if modes == {} then None else Some(modes)
  }

  predicate Allows(list: AllowList, mode: Mode) {
    list.None?
    || exists allowed <- list.value :: mode.pipeline == allowed.pipeline && mode.optimizeSetting == allowed.optimizeSetting
  }

  lemma {:induction false} ManyToModesIs(parsed: seq<ParsedMode>)
    ensures forall m :: m in ManyToModes(parsed) <==> exists p <- parsed :: Meets(m, p)
    ensures parsed != [] ==> ManyToModes(parsed) != {}
  {
    if parsed != [] {
      var p := parsed[0];
      ToModesIsExact(p);
      ManyToModesIs(parsed[1..]);
      assert parsed == [p] + parsed[1..];
      SettingsAre(p);
      var first := ToModes(p)[0];
      assert first in ToModes(p) && first in ManyToModes(parsed);
    }
  }

  /** A list made from parsed modes allows what one of them asks for, whatever the versions; made from
      none, it allows everything. */
  lemma AllowsWhatWasParsed(parsed: seq<ParsedMode>, mode: Mode)
    ensures Allows(FromParsedModes(parsed), mode)
      <==> parsed == [] || exists p <- parsed :: MeetsIgnoringVersion(mode, p)
  {
    ManyToModesIs(parsed);
    if parsed != [] {
      forall p | p in parsed && MeetsIgnoringVersion(mode, p)
        ensures Allows(FromParsedModes(parsed), mode)
      {
        var allowed := mode.(solcVersion := p.solcVersion);
        assert Meets(allowed, p);
        assert allowed in ManyToModes(parsed);
      }
    }
  }
}
