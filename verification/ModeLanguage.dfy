/**
 The language of compiler modes: `Y+`, `Y M3`, `Y Mz S- >=0.8.0`.
 */
module ModeLanguage {
  import opened Common

  datatype Pipeline = ViaYulIR | ViaNewYorkIR | ViaEVMAssembly
  datatype Level = M0 | M1 | M2 | M3 | Ms | Mz

  /** A version requirement of one comparator. */
  datatype Comparison = Exact | Greater | GreaterEq | Less | LessEq | Caret
  datatype Requirement = Requirement(op: Comparison, major: nat, minor: Option<nat>, patch: Option<nat>)

  datatype OptimizerSetting = OptimizerSetting(solcOptimizerEnabled: bool, level: Level)

  datatype Mode = Mode(pipeline: Pipeline, optimizeSetting: OptimizerSetting, solcVersion: Option<Requirement>)

  datatype ParsedMode = ParsedMode(
    pipeline: Option<Pipeline>, optimizeFlag: Option<bool>, optimizeLevel: Option<Level>,
    solcOptimizerEnabled: Option<bool>, solcVersion: Option<Requirement>)

  const NumberLimit: nat := 0x1_0000_0000_0000_0000

  /** The modes that have a text: a flag stands behind a pipeline, a patch behind a minor number. */
  predicate Valid(p: ParsedMode) {
    && (p.optimizeFlag.Some? ==> p.pipeline.Some?)
    && (p.solcVersion.Some? ==> ValidRequirement(p.solcVersion.value))
  }

  predicate ValidRequirement(r: Requirement) {
    && r.major < NumberLimit
    && (r.minor.Some? ==> r.minor.value < NumberLimit)
    && (r.patch.Some? ==> r.minor.Some? && r.patch.value < NumberLimit)
  }

  // ---------------------------------------------------------------- printing

  function PipelineText(p: Pipeline): string {
    match p
    case ViaYulIR => "Y"
    case ViaNewYorkIR => "NY"
    case ViaEVMAssembly => "E"
  }

  function LevelChar(l: Level): char {
    match l
    case M0 => '0'
    case M1 => '1'
    case M2 => '2'
    case M3 => '3'
    case Ms => 's'
    case Mz => 'z'
  }

  function SignChar(b: bool): char {
    if b then '+' else '-'
  }

  function ComparisonText(op: Comparison): string {
    match op
    case Exact => "="
    case Greater => ">"
    case GreaterEq => ">="
    case Less => "<"
    case LessEq => "<="
    case Caret => "^"
  }

  function NumberText(n: Option<nat>): string {
    if n.None? then "" else "." + Decimal(n.value)
  }

  function RequirementText(r: Requirement): string {
    ComparisonText(r.op) + (Decimal(r.major) + (NumberText(r.minor) + NumberText(r.patch)))
  }

  // The text of the parts from the pipeline, the level, the optimizer and the version on; `written`
  // says whether something stands in front of them.
  function Print(p: ParsedMode): string {
    if p.pipeline.None? then FromLevel(p, false)
    else
      PipelineText(p.pipeline.value)
      + (SignText(p.optimizeFlag) + FromLevel(p, true))
  }

  function Gap(written: bool): string {
    if written then " " else ""
  }

  function FromLevel(p: ParsedMode, written: bool): string {
    if p.optimizeLevel.None? then FromOptimizer(p, written)
    else Gap(written) + (['M', LevelChar(p.optimizeLevel.value)] + FromOptimizer(p, true))
  }

  function FromOptimizer(p: ParsedMode, written: bool): string {
    if p.solcOptimizerEnabled.None? then FromVersion(p, written)
    else Gap(written) + (['S', SignChar(p.solcOptimizerEnabled.value)] + FromVersion(p, true))
  }

  function FromVersion(p: ParsedMode, written: bool): string {
    if p.solcVersion.None? then "" else Gap(written) + RequirementText(p.solcVersion.value)
  }

  /** How a mode with all its parts but a version reads. */
  lemma WrittenMode(pipeline: Pipeline, flag: bool, level: Level, enabled: bool)
    ensures Print(ParsedMode(Some(pipeline), Some(flag), Some(level), Some(enabled), None))
         == WrittenPipeline(pipeline) + ((if flag then "+" else "-") + (WrittenLevel(level) + (if enabled then " S+" else " S-")))
  {
    var p := ParsedMode(Some(pipeline), Some(flag), Some(level), Some(enabled), None);
    var optimizer := if enabled then " S+" else " S-";
    assert FromVersion(p, true) == "";
    assert FromOptimizer(p, true) == " " + (['S', SignChar(enabled)] + "") == optimizer;
    assert FromLevel(p, true) == " " + (['M', LevelChar(level)] + optimizer);
    assert " " + (['M', LevelChar(level)] + optimizer) == [' ', 'M', LevelChar(level)] + optimizer;
    assert [' ', 'M', LevelChar(level)] == WrittenLevel(level);
    assert SignText(Some(flag)) == if flag then "+" else "-";
  }

  function WrittenPipeline(p: Pipeline): string {
    if p.ViaYulIR? then "Y" else if p.ViaNewYorkIR? then "NY" else "E"
  }

  function WrittenLevel(l: Level): string {
    if l.M0? then " M0" else if l.M1? then " M1" else if l.M2? then " M2" else if l.M3? then " M3"
    else if l.Ms? then " Ms" else " Mz"
  }

  /** How the comparators of a version read. */
  lemma WrittenComparison(op: Comparison, major: nat)
    ensures RequirementText(Requirement(op, major, None, None))
         == (if op.Exact? then "=" else if op.Greater? then ">" else if op.GreaterEq? then ">="
             else if op.Less? then "<" else if op.LessEq? then "<=" else "^") + Decimal(major)
  {
  }

  /** Writes the parts one after the other. */
  method Display(p: ParsedMode) returns (s: string)
    ensures s == Print(p)
  {
    s := "";
    var hasWritten := false;
    if p.pipeline.Some? {
      s := PipelineText(p.pipeline.value);
      Concat2("", s, "");
      if p.optimizeFlag.Some? {
        s := s + [SignChar(p.optimizeFlag.value)];
      }
      hasWritten := true;
    }
    PrintedPipeline(p);
    var level := DisplayLevel(p, hasWritten);
    var optimizer := DisplayOptimizer(p, hasWritten || p.optimizeLevel.Some?);
    hasWritten := hasWritten || p.optimizeLevel.Some? || p.solcOptimizerEnabled.Some?;
    Concat4(s, level, optimizer, FromVersion(p, hasWritten));
    s := s + level + optimizer;
    if p.solcVersion.Some? {
      if hasWritten {
        s := s + " ";
      }
      s := s + RequirementText(p.solcVersion.value);
    }
  }

  method DisplayLevel(p: ParsedMode, hasWritten: bool) returns (s: string)
    ensures FromLevel(p, hasWritten) == s + FromOptimizer(p, hasWritten || p.optimizeLevel.Some?)
  {
    s := "";
    if p.optimizeLevel.Some? {
      if hasWritten {
        s := " ";
      }
      s := s + ['M', LevelChar(p.optimizeLevel.value)];
    }
  }

  method DisplayOptimizer(p: ParsedMode, hasWritten: bool) returns (s: string)
    ensures FromOptimizer(p, hasWritten) == s + FromVersion(p, hasWritten || p.solcOptimizerEnabled.Some?)
  {
    s := "";
    if p.solcOptimizerEnabled.Some? {
      if hasWritten {
        s := " ";
      }
      s := s + ['S', SignChar(p.solcOptimizerEnabled.value)];
    }
  }

  // The pipeline with its flag.
  function PipelinePart(p: ParsedMode): string {
    if p.pipeline.None? then "" else PipelineText(p.pipeline.value) + SignText(p.optimizeFlag)
  }

  lemma PrintedPipeline(p: ParsedMode)
    ensures Print(p) == PipelinePart(p) + FromLevel(p, p.pipeline.Some?)
  {
    var behind := FromLevel(p, p.pipeline.Some?);
    if p.pipeline.None? {
      Concat2("", behind, "");
    } else {
      Concat2(PipelineText(p.pipeline.value), SignText(p.optimizeFlag), behind);
    }
  }

  lemma Concat2(a: string, b: string, c: string)
    ensures a + (b + c) == a + b + c
    ensures "" + b == b && b + "" == b
  {
  }

  lemma Concat4(a: string, b: string, c: string, d: string)
    ensures a + (b + (c + d)) == a + b + c + d
    ensures forall e, f :: d == e + f ==> a + b + c + d == (a + b + c + e) + f
  {
    forall e, f | d == e + f
      ensures a + b + c + d == (a + b + c + e) + f
    {
    }
  }

  // ---------------------------------------------------------------- parsing

  predicate IsSpace(c: char) {
    || ('\U{9}' <= c <= '\U{d}') || c == ' ' || c == '\U{85}' || c == '\U{a0}' || c == '\U{1680}'
    || ('\U{2000}' <= c <= '\U{200a}') || c == '\U{2028}' || c == '\U{2029}' || c == '\U{202f}'
    || c == '\U{205f}' || c == '\U{3000}'
  }

  function SkipSpaces(s: string): string {
    if s != "" && IsSpace(s[0]) then SkipSpaces(s[1..]) else s
  }

  // What a part of the text is read as, and the text behind it.
  datatype Read<T> = Read(part: Option<T>, rest: string)

  function ReadPipeline(s: string): Read<Pipeline> {
    if |s| >= 2 && s[0] == 'N' && s[1] == 'Y' then Read(Some(ViaNewYorkIR), s[2..])
    else if s != "" && s[0] == 'Y' then Read(Some(ViaYulIR), s[1..])
    else if s != "" && s[0] == 'E' then Read(Some(ViaEVMAssembly), s[1..])
    else Read(None, s)
  }

  function ReadSign(s: string): Read<bool> {
    if s != "" && (s[0] == '+' || s[0] == '-') then Read(Some(s[0] == '+'), s[1..]) else Read(None, s)
  }

  function LevelOf(c: char): Option<Level> {
    match c
    case '0' => Some(M0)
    case '1' => Some(M1)
    case '2' => Some(M2)
    case '3' => Some(M3)
    case 's' => Some(Ms)
    case 'z' => Some(Mz)
    case _ => None
  }

  // An `M` and a letter or digit is a level, a known one or an error.
  function ReadLevel(s: string): Result<Read<Level>> {
    if |s| >= 2 && s[0] == 'M' && IsAlphanumeric(s[1]) then
      var level := LevelOf(s[1]);
      if level.None? then Err else Ok(Read(level, s[2..]))
    else Ok(Read(None, s))
  }

  function ReadOptimizer(s: string): Read<bool> {
    if |s| >= 2 && s[0] == 'S' && (s[1] == '+' || s[1] == '-') then Read(Some(s[1] == '+'), s[2..])
    else Read(None, s)
  }

  function ReadComparison(s: string): Read<Comparison> {
    if |s| >= 2 && s[0] == '>' && s[1] == '=' then Read(Some(GreaterEq), s[2..])
    else if |s| >= 2 && s[0] == '<' && s[1] == '=' then Read(Some(LessEq), s[2..])
    else if s != "" && s[0] == '>' then Read(Some(Greater), s[1..])
    else if s != "" && s[0] == '<' then Read(Some(Less), s[1..])
    else if s != "" && s[0] == '=' then Read(Some(Exact), s[1..])
    else if s != "" && s[0] == '^' then Read(Some(Caret), s[1..])
    else Read(None, s)
  }

  function DigitCount(s: string): (n: nat)
    ensures n <= |s|
    ensures forall i | 0 <= i < n :: IsDigit(s[i])
  {
    if s != "" && IsDigit(s[0]) then
      assert forall i | 0 < i <= DigitCount(s[1..]) :: s[i] == s[1..][i - 1];
      1 + DigitCount(s[1..])
    else 0
  }

  function Value(digits: string): nat
    requires forall c <- digits :: IsDigit(c)
  {
    if digits == "" then 0
    else
      assert IsDigit(digits[|digits| - 1]);
      Value(digits[..|digits| - 1]) * 10 + (digits[|digits| - 1] - '0') as nat
  }

  // A number of 64 bits with no leading zero.
  function ReadNumber(s: string): Read<nat> {
    var n := DigitCount(s);
    assert forall c <- s[..n] :: IsDigit(c);
    if n == 0 || (n > 1 && s[0] == '0') || Value(s[..n]) >= NumberLimit then Read(None, s)
    else Read(Some(Value(s[..n])), s[n..])
  }

  // `.` and a number, or nothing at all.
  function ReadDotNumber(s: string): Result<Read<nat>> {
    if s == "" then Ok(Read(None, s))
    else if s[0] != '.' then Err
    else
      var number := ReadNumber(s[1..]);
      if number.part.None? then Err else Ok(number)
  }

  // The whole text as a version requirement; a bare version is compared by caret.
  function ReadRequirement(s: string): Result<Requirement> {
    var op := ReadComparison(s);
    var major := ReadNumber(op.rest);
    if major.part.None? then Err
    else
      var minor := ReadDotNumber(major.rest);
      if minor.Err? then Err
      else
        var patch := ReadDotNumber(minor.value.rest);
        if patch.Err? || patch.value.rest != "" then Err
        else Ok(Requirement(op.part.GetOr(Caret), major.part.value, minor.value.part, patch.value.part))
  }

  function ReadVersion(s: string): Result<Option<Requirement>> {
    if s == "" then Ok(None)
    else
      var requirement := ReadRequirement(s);
      if requirement.Err? then Err else Ok(Some(requirement.value))
  }

  // The flag, which takes a pipeline in front of it.
  function AfterFlag(s: string): Read<bool> {
    var pipeline := ReadPipeline(s);
    if pipeline.part.Some? then ReadSign(pipeline.rest) else Read(None, s)
  }

  function Parse(s: string): Result<ParsedMode> {
    var pipeline := ReadPipeline(s);
    var flag := AfterFlag(s);
    var level := ReadLevel(SkipSpaces(flag.rest));
    if level.Err? then Err
    else
      var optimizer := ReadOptimizer(SkipSpaces(level.value.rest));
      var version := ReadVersion(SkipSpaces(optimizer.rest));
      if version.Err? then Err
      else Ok(ParsedMode(pipeline.part, flag.part, level.value.part, optimizer.part, version.value))
  }

  /** Whatever is parsed has a text. */
  lemma ParsedIsValid(s: string)
    ensures Parse(s).Ok? ==> Valid(Parse(s).value)
  {
  }

  // ---------------------------------------------------------------- reading back what is printed

  lemma {:induction false} DecimalDigits(n: nat, rest: string)
    requires rest == "" || !IsDigit(rest[0])
    ensures DigitCount(Decimal(n) + rest) == |Decimal(n)|
    ensures |Decimal(n)| > 1 ==> Decimal(n)[0] != '0'
    ensures Value(Decimal(n)) == n
    decreases n
  {
    var digits := Decimal(n);
    CountDigits(digits, rest);
    var last := [(n % 10) as char + '0'];
    if n < 10 {
      assert digits == last && digits[..0] == "";
    } else {
      DecimalDigits(n / 10, rest);
      assert digits[..|digits| - 1] == Decimal(n / 10);
      assert n / 10 < 10 ==> Decimal(n / 10)[0] != '0';
    }
  }

  lemma {:induction false} CountDigits(digits: string, rest: string)
    requires forall c <- digits :: IsDigit(c)
    requires rest == "" || !IsDigit(rest[0])
    ensures DigitCount(digits + rest) == |digits|
  {
    if digits == "" {
      assert digits + rest == rest;
    } else {
      assert digits[0] in digits;
      assert (digits + rest)[1..] == digits[1..] + rest;
      CountDigits(digits[1..], rest);
    }
  }

  lemma ReadNumberOfDecimal(n: nat, rest: string)
    requires n < NumberLimit
    requires rest == "" || !IsDigit(rest[0])
    ensures ReadNumber(Decimal(n) + rest) == Read(Some(n), rest)
  {
    DecimalDigits(n, rest);
    var s := Decimal(n) + rest;
    assert s[..|Decimal(n)|] == Decimal(n) && s[|Decimal(n)|..] == rest;
  }

  lemma {:induction false} DecimalOfDigits(digits: string)
    requires digits != "" && forall c <- digits :: IsDigit(c)
    requires |digits| > 1 ==> digits[0] != '0'
    ensures Decimal(Value(digits)) == digits
    ensures digits[0] != '0' ==> Value(digits) > 0
    decreases |digits|
  {
    var n := |digits| - 1;
    var init, last := digits[..n], digits[n];
    assert last in digits && digits[0] in digits;
    var d := (last - '0') as nat;
    assert Value(digits) == Value(init) * 10 + d;
    if n == 0 {
      assert init == "" && digits == [last];
    } else {
      DecimalOfDigits(init);
      assert (Value(init) * 10 + d) / 10 == Value(init) && (Value(init) * 10 + d) % 10 == d;
      assert digits == init + [last];
    }
  }

  /** A number is read exactly from its decimal form, without leading zeros and below 2^64, up to the first
      character that is not a digit. */
  lemma ReadNumberIff(s: string, n: nat, rest: string)
    ensures ReadNumber(s) == Read(Some(n), rest)
      <==> s == Decimal(n) + rest && n < 0x1_0000_0000_0000_0000 && (rest == "" || !IsDigit(rest[0]))
  {
    if ReadNumber(s) == Read(Some(n), rest) {
      var digits := s[..DigitCount(s)];
      assert forall c <- digits :: IsDigit(c);
      assert digits[0] == s[0];
      DecimalOfDigits(digits);
      DigitCountIsLongest(s);
    } else if s == Decimal(n) + rest && n < NumberLimit && (rest == "" || !IsDigit(rest[0])) {
      ReadNumberOfDecimal(n, rest);
    }
  }

  lemma {:induction false} DigitCountIsLongest(s: string)
    ensures DigitCount(s) < |s| ==> !IsDigit(s[DigitCount(s)])
    decreases |s|
  {
    if s != "" && IsDigit(s[0]) {
      DigitCountIsLongest(s[1..]);
    }
  }

  lemma ReadDotNumberOfText(n: Option<nat>, rest: string)
    requires n.Some? ==> n.value < NumberLimit
    requires rest == "" || (n.Some? && rest[0] == '.')
    ensures ReadDotNumber(NumberText(n) + rest) == Ok(Read(n, rest))
  {
    if n.Some? {
      var d := Decimal(n.value);
      ReadNumberOfDecimal(n.value, rest);
      Concat2(".", d, rest);
      assert ("." + (d + rest))[1..] == d + rest;
    }
  }

  lemma ReadComparisonOfText(op: Comparison, rest: string)
    requires rest != "" && IsDigit(rest[0])
    ensures ReadComparison(ComparisonText(op) + rest) == Read(Some(op), rest)
  {
    var s := ComparisonText(op) + rest;
    assert s[|ComparisonText(op)|..] == rest;
    assert s[|ComparisonText(op)|] == rest[0];
  }

  lemma ReadRequirementOfText(r: Requirement)
    requires ValidRequirement(r)
    ensures ReadRequirement(RequirementText(r)) == Ok(r)
  {
    var patch := NumberText(r.patch);
    var minor := NumberText(r.minor) + patch;
    assert Decimal(r.major)[0] in Decimal(r.major);
    ReadComparisonOfText(r.op, Decimal(r.major) + minor);
    ReadNumberOfDecimal(r.major, minor);
    ReadDotNumberOfText(r.minor, patch);
    ReadDotNumberOfText(r.patch, "");
    assert patch + "" == patch;
  }

  // The text of a version starts with a comparison, which is no letter and no space.
  lemma RequirementStart(r: Requirement)
    ensures RequirementText(r) != "" && RequirementText(r)[0] in "=><^"
  {
  }

  // Behind the spaces stands what the first part still to be printed starts with.
  lemma SkipGap(text: string, written: bool)
    requires text != "" && !IsSpace(text[0])
    ensures SkipSpaces(Gap(written) + text) == text && Gap(false) + text == text
  {
    assert "" + text == text;
    assert (" " + text)[1..] == text;
  }

  lemma SkipToVersion(p: ParsedMode, written: bool)
    ensures SkipSpaces(FromVersion(p, written)) == FromVersion(p, false)
    ensures FromVersion(p, false) != "" ==> FromVersion(p, false)[0] in "=><^"
  {
    if p.solcVersion.Some? {
      RequirementStart(p.solcVersion.value);
      SkipGap(RequirementText(p.solcVersion.value), written);
    }
  }

  lemma SkipToOptimizer(p: ParsedMode, written: bool)
    ensures SkipSpaces(FromOptimizer(p, written)) == FromOptimizer(p, false)
    ensures FromOptimizer(p, false) != "" ==> FromOptimizer(p, false)[0] in "S=><^"
  {
    SkipToVersion(p, written);
    if p.solcOptimizerEnabled.Some? {
      var text := ['S', SignChar(p.solcOptimizerEnabled.value)] + FromVersion(p, true);
      assert "" + text == text;
      assert (" " + text)[1..] == text;
    }
  }

  lemma SkipToLevel(p: ParsedMode, written: bool)
    ensures SkipSpaces(FromLevel(p, written)) == FromLevel(p, false)
    ensures FromLevel(p, false) != "" ==> FromLevel(p, false)[0] in "MS=><^"
  {
    SkipToOptimizer(p, written);
    if p.optimizeLevel.Some? {
      var text := ['M', LevelChar(p.optimizeLevel.value)] + FromOptimizer(p, true);
      assert "" + text == text;
      assert (" " + text)[1..] == text;
    }
  }

  lemma ReadBackVersion(p: ParsedMode)
    requires Valid(p)
    ensures ReadVersion(FromVersion(p, false)) == Ok(p.solcVersion)
  {
    if p.solcVersion.Some? {
      ReadRequirementOfText(p.solcVersion.value);
      RequirementStart(p.solcVersion.value);
      assert "" + RequirementText(p.solcVersion.value) == RequirementText(p.solcVersion.value);
    }
  }

  lemma ReadOptimizerOfText(enabled: bool, rest: string)
    ensures ReadOptimizer(['S', SignChar(enabled)] + rest) == Read(Some(enabled), rest)
  {
    assert (['S', SignChar(enabled)] + rest)[2..] == rest;
  }

  lemma ReadBackOptimizer(p: ParsedMode)
    ensures ReadOptimizer(FromOptimizer(p, false)).part == p.solcOptimizerEnabled
    ensures SkipSpaces(ReadOptimizer(FromOptimizer(p, false)).rest) == FromVersion(p, false)
  {
    SkipToVersion(p, false);
    SkipToVersion(p, true);
    if p.solcOptimizerEnabled.Some? {
      var text := ['S', SignChar(p.solcOptimizerEnabled.value)] + FromVersion(p, true);
      assert "" + text == text;
      ReadOptimizerOfText(p.solcOptimizerEnabled.value, FromVersion(p, true));
    }
  }

  lemma ReadLevelOfText(level: Level, rest: string)
    ensures ReadLevel(['M', LevelChar(level)] + rest) == Ok(Read(Some(level), rest))
  {
    assert (['M', LevelChar(level)] + rest)[2..] == rest;
  }

  lemma ReadBackLevel(p: ParsedMode)
    ensures ReadLevel(FromLevel(p, false)).Ok?
    ensures ReadLevel(FromLevel(p, false)).value.part == p.optimizeLevel
    ensures SkipSpaces(ReadLevel(FromLevel(p, false)).value.rest) == FromOptimizer(p, false)
  {
    SkipToOptimizer(p, false);
    SkipToOptimizer(p, true);
    if p.optimizeLevel.Some? {
      var text := ['M', LevelChar(p.optimizeLevel.value)] + FromOptimizer(p, true);
      assert "" + text == text;
      ReadLevelOfText(p.optimizeLevel.value, FromOptimizer(p, true));
    }
  }

  lemma ReadPipelineOfText(pipeline: Pipeline, rest: string)
    ensures ReadPipeline(PipelineText(pipeline) + rest) == Read(Some(pipeline), rest)
  {
    assert (PipelineText(pipeline) + rest)[|PipelineText(pipeline)|..] == rest;
  }

  function SignText(flag: Option<bool>): string {
    if flag.Some? then [SignChar(flag.value)] else ""
  }

  lemma AfterFlagOfText(pipeline: Pipeline, flag: Option<bool>, behind: string)
    requires behind != "" ==> behind[0] == ' '
    ensures ReadPipeline(PipelineText(pipeline) + (SignText(flag) + behind)).part == Some(pipeline)
    ensures AfterFlag(PipelineText(pipeline) + (SignText(flag) + behind)) == Read(flag, behind)
  {
    ReadPipelineOfText(pipeline, SignText(flag) + behind);
    if flag.Some? {
      assert ([SignChar(flag.value)] + behind)[1..] == behind;
    } else {
      assert "" + behind == behind;
    }
  }

  lemma ReadBackPipeline(p: ParsedMode)
    requires Valid(p)
    ensures ReadPipeline(Print(p)).part == p.pipeline
    ensures AfterFlag(Print(p)).part == p.optimizeFlag
    ensures SkipSpaces(AfterFlag(Print(p)).rest) == FromLevel(p, false)
  {
    SkipToLevel(p, p.pipeline.Some?);
    if p.pipeline.Some? {
      FirstAfterPipeline(p);
      AfterFlagOfText(p.pipeline.value, p.optimizeFlag, FromLevel(p, true));
    }
  }

  // A part behind another one is set off by a space.
  lemma FirstAfterPipeline(p: ParsedMode)
    ensures FromLevel(p, true) != "" ==> FromLevel(p, true)[0] == ' '
  {
  }

  /** Parsing the printed form of a mode returns it. */
  lemma ParsePrint(p: ParsedMode)
    requires Valid(p)
    ensures Parse(Print(p)) == Ok(p)
  {
    ReadBackPipeline(p);
    ReadBackLevel(p);
    ReadBackOptimizer(p);
    ReadBackVersion(p);
  }

  /** Printing and parsing again changes nothing about a mode that was parsed, from whatever text. */
  lemma ParsePrintParse(s: string)
    requires Parse(s).Ok?
    ensures Parse(Print(Parse(s).value)) == Parse(s)
  {
    ParsedIsValid(s);
    ParsePrint(Parse(s).value);
  }
}
