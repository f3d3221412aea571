/**
 Repeat steps run forks of the interpreter, and a warm-up run fills the gas cache.

 A repeat step runs its body in `count` forks, all at once; a run is any interleaving of the
 forks' runs.  What a run is made of is its visits: the step executed, by its path, and whether
 the interpreter executing it waits for receipts.
 */
module RepeatInterpreter {
  import opened Common

  datatype Step = Leaf | Repeat(count: nat, awaitInclusion: bool, steps: seq<Step>)

  type Path = seq<nat>

  datatype Visit = Visit(path: Path, awaits: bool)

  // ---------------------------------------------------------------- runs

  /** `c` merges `a` and `b`, each in its own order. */
  ghost predicate Shuffle<T>(a: seq<T>, b: seq<T>, c: seq<T>)
    decreases |c|
  {
    if c == [] then a == [] && b == []
    else
      (a != [] && a[0] == c[0] && Shuffle(a[1..], b, c[1..]))
      || (b != [] && b[0] == c[0] && Shuffle(a, b[1..], c[1..]))
  }

  /** The steps run one after the other. */
  ghost predicate StepsRun(steps: seq<Step>, base: Path, count: Option<nat>, awaits: bool, run: seq<Visit>)
    decreases steps, 0
  {
    if steps == [] then run == []
    else
      var n := |steps| - 1;
      exists k :: 0 <= k <= |run|
        && StepsRun(steps[..n], base, count, awaits, run[..k])
        && StepRun(steps[n], base + [n], count, awaits, run[k..])
  }

  ghost predicate StepRun(step: Step, path: Path, count: Option<nat>, awaits: bool, run: seq<Visit>)
    decreases step
  {
    match step
    case Leaf => run == [Visit(path, awaits)]
    case Repeat(n, await, body) => ForksRun(count.GetOr(n), body, path, count, await, run)
  }

  ghost predicate ForksRun(forks: nat, body: seq<Step>, path: Path, count: Option<nat>, awaits: bool, run: seq<Visit>)
    decreases body, 1, forks
  {
    if forks == 0 then run == []
    else exists one, others ::
      && StepsRun(body, path, count, awaits, one)
      && ForksRun(forks - 1, body, path, count, awaits, others)
      && Shuffle(one, others, run)
  }

  // ---------------------------------------------------------------- what every run visits

  function Times<T>(n: nat, m: multiset<T>): multiset<T> {
    if n == 0 then multiset{} else m + Times(n - 1, m)
  }

  function StepsVisits(steps: seq<Step>, base: Path, count: Option<nat>, awaits: bool): multiset<Visit>
    decreases steps
  {
    if steps == [] then multiset{}
    else
      var n := |steps| - 1;
      StepsVisits(steps[..n], base, count, awaits) + StepVisits(steps[n], base + [n], count, awaits)
  }

  function StepVisits(step: Step, path: Path, count: Option<nat>, awaits: bool): multiset<Visit>
    decreases step
  {
    match step
    case Leaf => multiset{Visit(path, awaits)}
    case Repeat(n, await, body) => Times(count.GetOr(n), StepsVisits(body, path, count, await))
  }

  lemma {:induction false} ShuffleIsPermutation<T>(a: seq<T>, b: seq<T>, c: seq<T>)
    requires Shuffle(a, b, c)
    ensures multiset(c) == multiset(a) + multiset(b)
    decreases |c|
  {
    if c != [] {
      assert c == [c[0]] + c[1..];
      if a != [] && a[0] == c[0] && Shuffle(a[1..], b, c[1..]) {
        assert a == [a[0]] + a[1..];
        ShuffleIsPermutation(a[1..], b, c[1..]);
      } else {
        assert b == [b[0]] + b[1..];
        ShuffleIsPermutation(a, b[1..], c[1..]);
      }
    }
  }

  /** However the forks interleave, a run makes the same visits the same number of times. */
  lemma {:induction false} EveryRunMakesTheVisits(steps: seq<Step>, base: Path, count: Option<nat>, awaits: bool, run: seq<Visit>)
    requires StepsRun(steps, base, count, awaits, run)
    ensures multiset(run) == StepsVisits(steps, base, count, awaits)
    decreases steps, 0
  {
    if steps != [] {
      var n := |steps| - 1;
      var k :| 0 <= k <= |run|
        && StepsRun(steps[..n], base, count, awaits, run[..k])
        && StepRun(steps[n], base + [n], count, awaits, run[k..]);
      EveryRunMakesTheVisits(steps[..n], base, count, awaits, run[..k]);
      StepRunMakesTheVisits(steps[n], base + [n], count, awaits, run[k..]);
      assert run == run[..k] + run[k..];
    }
  }

  lemma {:induction false} StepRunMakesTheVisits(step: Step, path: Path, count: Option<nat>, awaits: bool, run: seq<Visit>)
    requires StepRun(step, path, count, awaits, run)
    ensures multiset(run) == StepVisits(step, path, count, awaits)
    decreases step
  {
    if step.Repeat? {
      ForksRunMakesTheVisits(count.GetOr(step.count), step.steps, path, count, step.awaitInclusion, run);
    }
  }

  lemma {:induction false} ForksRunMakesTheVisits(forks: nat, body: seq<Step>, path: Path, count: Option<nat>, awaits: bool, run: seq<Visit>)
    requires ForksRun(forks, body, path, count, awaits, run)
    ensures multiset(run) == Times(forks, StepsVisits(body, path, count, awaits))
    decreases body, 1, forks
  {
    if forks > 0 {
      var one, others :|
        && StepsRun(body, path, count, awaits, one)
        && ForksRun(forks - 1, body, path, count, awaits, others)
        && Shuffle(one, others, run);
      ShuffleIsPermutation(one, others, run);
      EveryRunMakesTheVisits(body, path, count, awaits, one);
      ForksRunMakesTheVisits(forks - 1, body, path, count, awaits, others);
    }
  }

  // ---------------------------------------------------------------- how often each leaf runs

  predicate IsLeafPath(steps: seq<Step>, q: Path)
    decreases |q|
  {
    q != [] && q[0] < |steps| &&
    match steps[q[0]]
    case Leaf => |q| == 1
    case Repeat(_, _, body) => IsLeafPath(body, q[1..])
  }

  /** The product of the repeat counts around the leaf at `q`. */
  function EnclosingProduct(steps: seq<Step>, q: Path, count: Option<nat>): nat
    requires IsLeafPath(steps, q)
    decreases |q|
  {
    match steps[q[0]]
    case Leaf => 1
    case Repeat(n, _, body) => count.GetOr(n) * EnclosingProduct(body, q[1..], count)
  }

  // Whether the leaf at `q` is run by an interpreter that waits for receipts.
  function AwaitsAt(steps: seq<Step>, q: Path, awaits: bool): bool
    requires IsLeafPath(steps, q)
    decreases |q|
  {
    match steps[q[0]]
    case Leaf => awaits
    case Repeat(_, await, body) => AwaitsAt(body, q[1..], await)
  }

  function Expected(steps: seq<Step>, q: Path, count: Option<nat>, awaits: bool, v: bool): nat {
    if IsLeafPath(steps, q) && AwaitsAt(steps, q, awaits) == v then EnclosingProduct(steps, q, count) else 0
  }

  lemma {:induction false} TimesCounts<T>(n: nat, m: multiset<T>, x: T)
    ensures Times(n, m)[x] == n * m[x]
  {
    if n > 0 {
      TimesCounts(n - 1, m, x);
      assert n * m[x] == m[x] + (n - 1) * m[x];
    }
  }

  predicate Extends(p: Path, base: Path) {
    |base| <= |p| && p[..|base|] == base
  }

  lemma {:induction false} VisitsExtendBase(steps: seq<Step>, base: Path, count: Option<nat>, awaits: bool, v: Visit)
    requires v in StepsVisits(steps, base, count, awaits)
    ensures Extends(v.path, base) && |base| < |v.path| && v.path[|base|] < |steps|
    decreases steps, 0
  {
    var n := |steps| - 1;
    if v in StepsVisits(steps[..n], base, count, awaits) {
      VisitsExtendBase(steps[..n], base, count, awaits, v);
    } else {
      StepVisitsExtendPath(steps[n], base + [n], count, awaits, v);
      assert v.path[..|base|] == v.path[..|base| + 1][..|base|];
      assert v.path[|base|] == v.path[..|base| + 1][|base|];
    }
  }

  lemma {:induction false} StepVisitsExtendPath(step: Step, path: Path, count: Option<nat>, awaits: bool, v: Visit)
    requires v in StepVisits(step, path, count, awaits)
    ensures Extends(v.path, path)
    decreases step
  {
    if step.Repeat? {
      TimesCounts(count.GetOr(step.count), StepsVisits(step.steps, path, count, step.awaitInclusion), v);
      VisitsExtendBase(step.steps, path, count, step.awaitInclusion, v);
    }
  }

  lemma FirstIndex(base: Path, n: nat, q: Path)
    requires Extends(base + q, base + [n])
    ensures q != [] && q[0] == n
  {
    assert (base + q)[..|base| + 1][|base|] == (base + [n])[|base|];
  }

  /** In every run each leaf is visited as often as the product of its enclosing repeat counts,
      always by an interpreter of the kind its innermost repeat asks for; nothing else is visited. */
  lemma {:induction false} LeafRunsProductOfCounts(steps: seq<Step>, base: Path, count: Option<nat>, awaits: bool, q: Path, v: bool)
    ensures StepsVisits(steps, base, count, awaits)[Visit(base + q, v)] == Expected(steps, q, count, awaits, v)
    decreases steps, 1
  {
    if steps != [] {
      var n := |steps| - 1;
      var init := steps[..n];
      LeafRunsProductOfCounts(init, base, count, awaits, q, v);
      ExpectedOfInit(steps, q, count, awaits, v);
      if q != [] && q[0] == n {
        NotVisitedBefore(init, base, count, awaits, q, v);
        assert base + q == (base + [n]) + q[1..];
        StepRunsProductOfCounts(steps, base, count, awaits, q, v);
      } else {
        NotVisitedBy(steps[n], base, n, count, awaits, q, v);
      }
    }
  }

  lemma ExpectedOfInit(steps: seq<Step>, q: Path, count: Option<nat>, awaits: bool, v: bool)
    requires steps != []
    ensures q == [] || q[0] != |steps| - 1 ==>
      Expected(steps, q, count, awaits, v) == Expected(steps[..|steps| - 1], q, count, awaits, v)
    ensures q != [] && q[0] == |steps| - 1 ==> Expected(steps[..|steps| - 1], q, count, awaits, v) == 0
  {
  }

  // The steps in front of one do not visit below it.
  lemma NotVisitedBefore(init: seq<Step>, base: Path, count: Option<nat>, awaits: bool, q: Path, v: bool)
    requires q != [] && q[0] == |init|
    ensures StepsVisits(init, base, count, awaits)[Visit(base + q, v)] == 0
  {
    if Visit(base + q, v) in StepsVisits(init, base, count, awaits) {
      VisitsExtendBase(init, base, count, awaits, Visit(base + q, v));
    }
  }

  // A step visits only below its own path.
  lemma NotVisitedBy(step: Step, base: Path, n: nat, count: Option<nat>, awaits: bool, q: Path, v: bool)
    requires q == [] || q[0] != n
    ensures StepVisits(step, base + [n], count, awaits)[Visit(base + q, v)] == 0
  {
    if Visit(base + q, v) in StepVisits(step, base + [n], count, awaits) {
      StepVisitsExtendPath(step, base + [n], count, awaits, Visit(base + q, v));
      FirstIndex(base, n, q);
    }
  }

  lemma {:induction false} StepRunsProductOfCounts(steps: seq<Step>, base: Path, count: Option<nat>, awaits: bool, q: Path, v: bool)
    requires steps != [] && q != [] && q[0] == |steps| - 1
    ensures StepVisits(steps[q[0]], base + [q[0]], count, awaits)[Visit(base + [q[0]] + q[1..], v)]
         == Expected(steps, q, count, awaits, v)
    decreases steps, 0
  {
    var step := steps[q[0]];
    var path := base + [q[0]];
    if step.Repeat? {
      var inner := StepsVisits(step.steps, path, count, step.awaitInclusion);
      TimesCounts(count.GetOr(step.count), inner, Visit(path + q[1..], v));
      LeafRunsProductOfCounts(step.steps, path, count, step.awaitInclusion, q[1..], v);
    } else if |q| > 1 {
      assert |path + q[1..]| > |path|;
    } else {
      assert path + q[1..] == path;
    }
  }

  function Power(b: nat, e: nat): nat {
    if e == 0 then 1 else b * Power(b, e - 1)
  }

  /** With the count overridden, a leaf runs override^depth times, depth counting the repeats
      around it. */
  lemma {:induction false} OverriddenProductIsPower(steps: seq<Step>, q: Path, n: nat)
    requires IsLeafPath(steps, q)
    ensures EnclosingProduct(steps, q, Some(n)) == Power(n, |q| - 1)
    decreases |q|
  {
    if steps[q[0]].Repeat? {
      OverriddenProductIsPower(steps[q[0]].steps, q[1..], n);
    }
  }

  lemma {:induction false} PowerOfOne(e: nat)
    ensures Power(1, e) == 1
  {
    if e > 0 {
      PowerOfOne(e - 1);
    }
  }

  /** A run in terms of leaf paths: how often, and nothing beside the leaves. */
  lemma RunCounts(steps: seq<Step>, base: Path, count: Option<nat>, awaits: bool, run: seq<Visit>)
    requires StepsRun(steps, base, count, awaits, run)
    ensures forall q: Path, v :: multiset(run)[Visit(base + q, v)] == Expected(steps, q, count, awaits, v)
    ensures forall v <- run :: Extends(v.path, base) && IsLeafPath(steps, v.path[|base|..])
  {
    EveryRunMakesTheVisits(steps, base, count, awaits, run);
    forall q: Path, v
      ensures multiset(run)[Visit(base + q, v)] == Expected(steps, q, count, awaits, v)
    {
      LeafRunsProductOfCounts(steps, base, count, awaits, q, v);
    }
    forall v | v in run
      ensures Extends(v.path, base) && IsLeafPath(steps, v.path[|base|..])
    {
      assert v in multiset(run);
      VisitsExtendBase(steps, base, count, awaits, v);
      var q := v.path[|base|..];
      assert base + q == v.path;
      LeafRunsProductOfCounts(steps, base, count, awaits, q, v.awaits);
    }
  }

  // ---------------------------------------------------------------- the warm-up run

  /** The steps of the warm-up run: every repeat, however deep, waits for inclusion. */
  function Awaiting(steps: seq<Step>): (r: seq<Step>)
    decreases steps
  {
    if steps == [] then []
    else Awaiting(steps[..|steps| - 1]) + [AwaitingStep(steps[|steps| - 1])]
  }

  function AwaitingStep(step: Step): Step
    decreases step
  {
    match step
    case Leaf => Leaf
    case Repeat(n, _, body) => Repeat(n, true, Awaiting(body))
  }

  lemma {:induction false} AwaitingAt(steps: seq<Step>)
    ensures |Awaiting(steps)| == |steps|
    ensures forall i | 0 <= i < |steps| :: Awaiting(steps)[i] == AwaitingStep(steps[i])
  {
    if steps != [] {
      AwaitingAt(steps[..|steps| - 1]);
    }
  }

  /** The edit keeps the leaves and their paths, and leaves none that is not waited for. */
  lemma {:induction false} AwaitingKeepsLeaves(steps: seq<Step>, q: Path)
    ensures IsLeafPath(Awaiting(steps), q) == IsLeafPath(steps, q)
    ensures IsLeafPath(steps, q) ==> AwaitsAt(Awaiting(steps), q, true)
    decreases |q|
  {
    AwaitingAt(steps);
    if q != [] && q[0] < |steps| && steps[q[0]].Repeat? {
      AwaitingKeepsLeaves(steps[q[0]].steps, q[1..]);
    }
  }

  ghost predicate WarmUpRun(steps: seq<Step>, base: Path, run: seq<Visit>) {
    StepsRun(Awaiting(steps), base, Some(1), true, run)
  }

  /** The warm-up run visits every leaf exactly once and waits for each receipt. */
  lemma {:induction false} WarmUpVisitsEachLeafOnce(steps: seq<Step>, base: Path, run: seq<Visit>)
    requires WarmUpRun(steps, base, run)
    ensures forall q: Path :: IsLeafPath(steps, q) <==> Visit(base + q, true) in run
    ensures forall v <- run :: v.awaits && Extends(v.path, base)
    ensures NoRepeats(run)
  {
    RunCounts(Awaiting(steps), base, Some(1), true, run);
    forall q: Path
      ensures multiset(run)[Visit(base + q, true)] == (if IsLeafPath(steps, q) then 1 else 0)
      ensures multiset(run)[Visit(base + q, false)] == 0
    {
      AwaitingKeepsLeaves(steps, q);
      if IsLeafPath(steps, q) {
        OverriddenProductIsPower(Awaiting(steps), q, 1);
        PowerOfOne(|q| - 1);
      }
    }
    forall v | v in run
      ensures v.awaits && multiset(run)[v] == 1
    {
      var q := v.path[|base|..];
      assert base + q == v.path;
      assert v in multiset(run);
    }
    CountedOnce(run);
  }

  lemma {:induction false} CountedOnce<T>(s: seq<T>)
    requires forall x <- s :: multiset(s)[x] == 1
    ensures NoRepeats(s)
  {
    forall i, j | 0 <= i < j < |s|
      ensures s[i] != s[j]
    {
      assert s == s[..j] + s[j..];
      assert s[i] == s[..j][i] && s[i] in s[..j];
      assert s[j] == s[j..][0] && s[j] in s[j..];
      assert multiset(s)[s[i]] == multiset(s[..j])[s[i]] + multiset(s[j..])[s[i]];
    }
  }

  // ---------------------------------------------------------------- the gas cache

  // The paths a run asks an estimate for, in order: at each submission of a step with no cached gas.
  function Asked(run: seq<Visit>, submits: set<Path>, cached: set<Path>): seq<Path> {
    if run == [] then []
    else
      var p := run[0].path;
      if p in submits && p !in cached then [p] + Asked(run[1..], submits, cached + {p})
      else Asked(run[1..], submits, cached)
  }

  function Estimates(run: seq<Visit>, submits: set<Path>, cached: set<Path>): nat {
    |Asked(run, submits, cached)|
  }

  function PathsOf(run: seq<Visit>): set<Path> {
    set v <- run :: v.path
  }

  lemma PathsOfCons(run: seq<Visit>)
    requires run != []
    ensures PathsOf(run) == {run[0].path} + PathsOf(run[1..])
  {
    assert run == [run[0]] + run[1..];
    forall v | v in run
      ensures v.path in {run[0].path} + PathsOf(run[1..])
    {
      if v != run[0] {
        assert v in run[1..];
      }
    }
  }

  lemma OneMore(p: Path, rest: set<Path>, submits: set<Path>, cached: set<Path>)
    requires p in submits && p !in cached
    ensures |({p} + rest) * submits - cached| == 1 + |rest * submits - (cached + {p})|
  {
    assert ({p} + rest) * submits - cached == {p} + (rest * submits - (cached + {p}));
  }

  /** A path is estimated once, however often and from however many forks it is submitted. */
  lemma {:induction false} OneEstimatePerPath(run: seq<Visit>, submits: set<Path>, cached: set<Path>)
    ensures Estimates(run, submits, cached) == |PathsOf(run) * submits - cached|
    decreases |run|
  {
    if run == [] {
      assert PathsOf(run) * submits - cached == {};
    } else {
      var p := run[0].path;
      var rest := PathsOf(run[1..]);
      PathsOfCons(run);
      if p in submits && p !in cached {
        OneEstimatePerPath(run[1..], submits, cached + {p});
        OneMore(p, rest, submits, cached);
      } else {
        OneEstimatePerPath(run[1..], submits, cached);
        assert ({p} + rest) * submits - cached == rest * submits - cached;
      }
    }
  }

  // Every path that any run visits has been visited by the warm-up.
  lemma WarmUpCovers(steps: seq<Step>, base: Path, warmUp: seq<Visit>, count: Option<nat>, awaits: bool, run: seq<Visit>)
    requires WarmUpRun(steps, base, warmUp)
    requires StepsRun(steps, base, count, awaits, run)
    ensures PathsOf(run) <= PathsOf(warmUp)
  {
    WarmUpVisitsEachLeafOnce(steps, base, warmUp);
    RunCounts(steps, base, count, awaits, run);
    forall p | p in PathsOf(run)
      ensures p in PathsOf(warmUp)
    {
      var q := p[|base|..];
      assert base + q == p;
      assert Visit(base + q, true) in warmUp;
    }
  }

  /** After the warm-up the main run, whatever its counts and however its forks interleave, asks for an
      estimate exactly for the paths it submits from that had no cached gas and did not submit in the
      warm-up; so for none if submitting does not depend on which of the two runs it is. */
  lemma EstimatesAfterWarmUp(steps: seq<Step>, base: Path, warmSubmits: set<Path>, submits: set<Path>, cached: set<Path>,
      warmUp: seq<Visit>, count: Option<nat>, awaits: bool, run: seq<Visit>)
    requires WarmUpRun(steps, base, warmUp)
    requires StepsRun(steps, base, count, awaits, run)
    ensures var estimates := Estimates(run, submits, cached + PathsOf(warmUp) * warmSubmits);
      && estimates == |PathsOf(run) * submits - cached - warmSubmits|
      && (estimates == 0 <==> PathsOf(run) * submits <= cached + warmSubmits)
  {
    WarmUpCovers(steps, base, warmUp, count, awaits, run);
    OneEstimatePerPath(run, submits, cached + PathsOf(warmUp) * warmSubmits);
    MissingPaths(PathsOf(run), PathsOf(warmUp), submits, cached, warmSubmits);
  }

  lemma MissingPaths(paths: set<Path>, warm: set<Path>, submits: set<Path>, cached: set<Path>, warmSubmits: set<Path>)
    requires paths <= warm
    ensures paths * submits - (cached + warm * warmSubmits) == paths * submits - cached - warmSubmits
    ensures |paths * submits - cached - warmSubmits| == 0 <==> paths * submits <= cached + warmSubmits
  {
    var missing := paths * submits - cached - warmSubmits;
    if paths * submits <= cached + warmSubmits {
      assert missing == {};
    }
    forall p | p in paths * submits && p !in missing
      ensures p in cached + warmSubmits
    {
    }
  }

  // The same steps submitting in both runs.
  lemma NoEstimateAfterWarmUp(steps: seq<Step>, base: Path, submits: set<Path>, cached: set<Path>,
      warmUp: seq<Visit>, count: Option<nat>, awaits: bool, run: seq<Visit>)
    requires WarmUpRun(steps, base, warmUp)
    requires StepsRun(steps, base, count, awaits, run)
    ensures Estimates(run, submits, cached + PathsOf(warmUp) * submits) == 0
  {
    EstimatesAfterWarmUp(steps, base, submits, submits, cached, warmUp, count, awaits, run);
  }

  // ---------------------------------------------------------------- forks as processes

  /** An interpreter at work: the steps still to do, and the forks of the step it is at. */
  datatype Process = Process(todo: seq<(Path, Step)>, awaits: bool, forks: seq<Process>)

  function Enumerated(steps: seq<Step>, base: Path): (todo: seq<(Path, Step)>)
    ensures |todo| == |steps|
  {
    if steps == [] then []
    else
      var n := |steps| - 1;
      Enumerated(steps[..n], base) + [(base + [n], steps[n])]
  }

  function Started(steps: seq<Step>, base: Path, awaits: bool): Process {
    Process(Enumerated(steps, base), awaits, [])
  }

  predicate Finished(p: Process)
    decreases p
  {
    p.todo == [] && forall i | 0 <= i < |p.forks| :: Finished(p.forks[i])
  }

  predicate AllFinished(forks: seq<Process>) {
    forall i | 0 <= i < |forks| :: Finished(forks[i])
  }

  // The unfinished fork chosen, or the next one behind it in turn.
  function Chosen(forks: seq<Process>, choice: nat): (i: nat)
    requires !AllFinished(forks)
    ensures i < |forks| && !Finished(forks[i])
  {
    var k := choice % |forks|;
    if !Finished(forks[k]) then k else FirstUnfinished(forks)
  }

  function FirstUnfinished(forks: seq<Process>): (i: nat)
    requires !AllFinished(forks)
    ensures i < |forks| && !Finished(forks[i])
  {
    if !Finished(forks[0]) then 0 else 1 + FirstUnfinished(forks[1..])
  }

  function Copies(n: nat, p: Process): (forks: seq<Process>)
    ensures |forks| == n
  {
    if n == 0 then [] else [p] + Copies(n - 1, p)
  }

  // The forks of a repeat step.
  function Forks(step: Step, path: Path, count: Option<nat>): seq<Process>
    requires step.Repeat?
  {
    Copies(count.GetOr(step.count), Started(step.steps, path, step.awaitInclusion))
  }

  /** One turn of a process: of a fork, chosen by the schedule, while there is one unfinished; otherwise
      the next step, a visit or the start of its forks. */
  function Turn(p: Process, count: Option<nat>, choice: nat): (Process, Option<Visit>)
    requires !Finished(p)
    decreases p
  {
    if !AllFinished(p.forks) then
      var i := Chosen(p.forks, choice);
      var (fork, visit) := Turn(p.forks[i], count, choice / |p.forks|);
      (p.(forks := p.forks[i := fork]), visit)
    else
      var (path, step) := p.todo[0];
      if step.Leaf? then (Process(p.todo[1..], p.awaits, []), Some(Visit(path, p.awaits)))
      else (Process(p.todo[1..], p.awaits, Forks(step, path, count)), None)
  }

  ghost predicate TodoRun(todo: seq<(Path, Step)>, count: Option<nat>, awaits: bool, run: seq<Visit>)
    decreases |todo|
  {
    if todo == [] then run == []
    else
      exists k: nat ::
        && k <= |run|
        && StepRun(todo[0].1, todo[0].0, count, awaits, run[..k])
        && TodoRun(todo[1..], count, awaits, run[k..])
  }

  // `run` is what is left for the process to visit, in some order of its forks.
  ghost predicate Completes(p: Process, count: Option<nat>, run: seq<Visit>)
    decreases p
  {
    exists k: nat :: k <= |run| && ForksComplete(p.forks, count, run[..k]) && TodoRun(p.todo, count, p.awaits, run[k..])
  }

  ghost predicate ForksComplete(forks: seq<Process>, count: Option<nat>, run: seq<Visit>)
    decreases forks
  {
    if forks == [] then run == []
    else exists one, others ::
      Completes(forks[0], count, one) && ForksComplete(forks[1..], count, others) && Shuffle(one, others, run)
  }

  lemma {:induction false} TodoRunSnoc(todo: seq<(Path, Step)>, last: (Path, Step), count: Option<nat>, awaits: bool, run: seq<Visit>) returns (k: nat)
    requires TodoRun(todo + [last], count, awaits, run)
    ensures k <= |run| && TodoRun(todo, count, awaits, run[..k]) && StepRun(last.1, last.0, count, awaits, run[k..])
    decreases |todo|
  {
    var longer := todo + [last];
    var j: nat :| j <= |run| && StepRun(longer[0].1, longer[0].0, count, awaits, run[..j]) && TodoRun(longer[1..], count, awaits, run[j..]);
    if todo == [] {
      k := 0;
      assert longer[1..] == [] && run[..j] == run && run[0..] == run;
    } else {
      assert longer[1..] == todo[1..] + [last] && longer[0] == todo[0];
      var rest := TodoRunSnoc(todo[1..], last, count, awaits, run[j..]);
      k := j + rest;
      assert run[..k][..j] == run[..j] && run[..k][j..] == run[j..][..rest] && run[j..][rest..] == run[k..];
    }
  }

  lemma {:induction false} EnumeratedRun(steps: seq<Step>, base: Path, count: Option<nat>, awaits: bool, run: seq<Visit>)
    requires TodoRun(Enumerated(steps, base), count, awaits, run)
    ensures StepsRun(steps, base, count, awaits, run)
    decreases |steps|
  {
    if steps != [] {
      var n := |steps| - 1;
      var k := TodoRunSnoc(Enumerated(steps[..n], base), (base + [n], steps[n]), count, awaits, run);
      EnumeratedRun(steps[..n], base, count, awaits, run[..k]);
    }
  }

  lemma StartedRun(steps: seq<Step>, base: Path, count: Option<nat>, awaits: bool, run: seq<Visit>)
    requires Completes(Started(steps, base, awaits), count, run)
    ensures StepsRun(steps, base, count, awaits, run)
  {
    var p := Started(steps, base, awaits);
    var k: nat :| k <= |run| && ForksComplete(p.forks, count, run[..k]) && TodoRun(p.todo, count, p.awaits, run[k..]);
    assert k == 0 && run[k..] == run;
    EnumeratedRun(steps, base, count, awaits, run);
  }

  lemma {:induction false} CopiesRun(n: nat, body: seq<Step>, path: Path, count: Option<nat>, awaits: bool, run: seq<Visit>)
    requires ForksComplete(Copies(n, Started(body, path, awaits)), count, run)
    ensures ForksRun(n, body, path, count, awaits, run)
    decreases n
  {
    if n > 0 {
      var p := Started(body, path, awaits);
      var forks := Copies(n, p);
      assert forks[1..] == Copies(n - 1, p);
      var one, others :| Completes(forks[0], count, one) && ForksComplete(forks[1..], count, others) && Shuffle(one, others, run);
      StartedRun(body, path, count, awaits, one);
      CopiesRun(n - 1, body, path, count, awaits, others);
    }
  }

  lemma {:induction false} FinishedForksComplete(forks: seq<Process>, count: Option<nat>)
    requires AllFinished(forks)
    ensures ForksComplete(forks, count, [])
    decreases forks
  {
    if forks != [] {
      FinishedCompletes(forks[0], count);
      FinishedForksComplete(forks[1..], count);
      assert Shuffle<Visit>([], [], []);
    }
  }

  lemma {:induction false} FinishedCompletes(p: Process, count: Option<nat>)
    requires Finished(p)
    ensures Completes(p, count, [])
    decreases p
  {
    FinishedForksComplete(p.forks, count);
    var run: seq<Visit> := [];
    assert run[..0] == [] && run[0..] == [];
  }

  function AsRun(v: Option<Visit>): seq<Visit> {
    if v.None? then [] else [v.value]
  }

  lemma ShuffleFirst(v: Option<Visit>, a: seq<Visit>, b: seq<Visit>, c: seq<Visit>)
    requires Shuffle(a, b, c)
    ensures Shuffle(AsRun(v) + a, b, AsRun(v) + c) && Shuffle(a, AsRun(v) + b, AsRun(v) + c)
  {
    if v.Some? {
      assert (AsRun(v) + a)[1..] == a && (AsRun(v) + b)[1..] == b && (AsRun(v) + c)[1..] == c;
    } else {
      assert AsRun(v) + a == a && AsRun(v) + b == b && AsRun(v) + c == c;
    }
  }

  // What `q` has left to visit is, behind `v`, what `p` has left.
  ghost predicate Precedes(p: Process, v: Option<Visit>, q: Process, count: Option<nat>) {
    forall run :: Completes(q, count, run) ==> Completes(p, count, AsRun(v) + run)
  }

  // A turn of fork `i` is a turn of all the forks.
  lemma {:induction false} ForkTurnBack(forks: seq<Process>, i: nat, fork: Process, v: Option<Visit>, count: Option<nat>, run: seq<Visit>)
    requires i < |forks| && ForksComplete(forks[i := fork], count, run)
    requires Precedes(forks[i], v, fork, count)
    ensures ForksComplete(forks, count, AsRun(v) + run)
    decreases i
  {
    var after := forks[i := fork];
    var one, others :| Completes(after[0], count, one) && ForksComplete(after[1..], count, others) && Shuffle(one, others, run);
    ShuffleFirst(v, one, others, run);
    if i == 0 {
      assert after[1..] == forks[1..];
      assert Completes(forks[0], count, AsRun(v) + one);
    } else {
      assert after[1..] == forks[1..][i - 1 := fork];
      ForkTurnBack(forks[1..], i - 1, fork, v, count, others);
      assert ForksComplete(forks[1..], count, AsRun(v) + others);
    }
  }

  /** What is left after a turn, behind the visit of the turn, is what was left before it. */
  lemma {:induction false} TurnBack(p: Process, count: Option<nat>, choice: nat, run: seq<Visit>)
    requires !Finished(p) && Completes(Turn(p, count, choice).0, count, run)
    ensures Completes(p, count, AsRun(Turn(p, count, choice).1) + run)
    decreases p
  {
    var (next, v) := Turn(p, count, choice);
    if !AllFinished(p.forks) {
      var i := Chosen(p.forks, choice);
      var fork := Turn(p.forks[i], count, choice / |p.forks|).0;
      forall one | Completes(fork, count, one)
        ensures Completes(p.forks[i], count, AsRun(v) + one)
      {
        TurnBack(p.forks[i], count, choice / |p.forks|, one);
      }
      ForkOfProcessBack(p, i, fork, v, count, run);
    } else {
      OwnTurnBack(p, count, choice, run);
    }
  }

  lemma OwnTurnBack(p: Process, count: Option<nat>, choice: nat, run: seq<Visit>)
    requires !Finished(p) && AllFinished(p.forks) && Completes(Turn(p, count, choice).0, count, run)
    ensures Completes(p, count, AsRun(Turn(p, count, choice).1) + run)
  {
    var (next, v) := Turn(p, count, choice);
    var k: nat :| k <= |run| && ForksComplete(next.forks, count, run[..k]) && TodoRun(next.todo, count, next.awaits, run[k..]);
    FinishedForksComplete(p.forks, count);
    StepBack(p, next, count, v, run, k);
  }

  // A turn of fork `i` is a turn of the process.
  lemma ForkOfProcessBack(p: Process, i: nat, fork: Process, v: Option<Visit>, count: Option<nat>, run: seq<Visit>)
    requires i < |p.forks| && Completes(p.(forks := p.forks[i := fork]), count, run)
    requires Precedes(p.forks[i], v, fork, count)
    ensures Completes(p, count, AsRun(v) + run)
  {
    var first, second := Halves(p, p.forks[i := fork], count, run);
    ForkTurnBack(p.forks, i, fork, v, count, first);
    PartsBehind(p, count, v, first, second);
  }

  lemma Halves(p: Process, forks: seq<Process>, count: Option<nat>, run: seq<Visit>) returns (first: seq<Visit>, second: seq<Visit>)
    requires Completes(p.(forks := forks), count, run)
    ensures ForksComplete(forks, count, first) && TodoRun(p.todo, count, p.awaits, second)
    ensures first + second == run
  {
    var k: nat :| k <= |run| && ForksComplete(forks, count, run[..k]) && TodoRun(p.todo, count, p.awaits, run[k..]);
    first, second := run[..k], run[k..];
  }

  lemma PartsBehind(p: Process, count: Option<nat>, v: Option<Visit>, first: seq<Visit>, second: seq<Visit>)
    requires ForksComplete(p.forks, count, AsRun(v) + first) && TodoRun(p.todo, count, p.awaits, second)
    ensures Completes(p, count, AsRun(v) + (first + second))
  {
    Parts(p, count, AsRun(v) + first, second);
    assert AsRun(v) + first + second == AsRun(v) + (first + second);
  }

  lemma Parts(p: Process, count: Option<nat>, first: seq<Visit>, second: seq<Visit>)
    requires ForksComplete(p.forks, count, first) && TodoRun(p.todo, count, p.awaits, second)
    ensures Completes(p, count, first + second)
  {
    var run := first + second;
    assert run[..|first|] == first && run[|first|..] == second;
  }

  lemma TodoParts(todo: seq<(Path, Step)>, count: Option<nat>, awaits: bool, first: seq<Visit>, second: seq<Visit>)
    requires todo != [] && StepRun(todo[0].1, todo[0].0, count, awaits, first) && TodoRun(todo[1..], count, awaits, second)
    ensures TodoRun(todo, count, awaits, first + second)
  {
    var run := first + second;
    assert run[..|first|] == first && run[|first|..] == second;
  }

  // The turn of a process whose forks have finished.
  lemma StepBack(p: Process, next: Process, count: Option<nat>, v: Option<Visit>, run: seq<Visit>, k: nat)
    requires p.todo != [] && ForksComplete(p.forks, count, []) && k <= |run|
    requires next.todo == p.todo[1..] && next.awaits == p.awaits
    requires ForksComplete(next.forks, count, run[..k]) && TodoRun(next.todo, count, next.awaits, run[k..])
    requires p.todo[0].1.Leaf? ==> next.forks == [] && v == Some(Visit(p.todo[0].0, p.awaits))
    requires p.todo[0].1.Repeat? ==> v == None && next.forks == Forks(p.todo[0].1, p.todo[0].0, count)
    ensures Completes(p, count, AsRun(v) + run)
  {
    var path, step := p.todo[0].0, p.todo[0].1;
    if step.Leaf? {
      assert k == 0 && run[k..] == run;
      TodoParts(p.todo, count, p.awaits, [Visit(path, p.awaits)], run);
    } else {
      CopiesRun(count.GetOr(step.count), step.steps, path, count, step.awaitInclusion, run[..k]);
      TodoParts(p.todo, count, p.awaits, run[..k], run[k..]);
      assert run[..k] + run[k..] == run && AsRun(v) + run == run;
    }
    Parts(p, count, [], AsRun(v) + run);
    assert [] + (AsRun(v) + run) == AsRun(v) + run;
  }

  // ---------------------------------------------------------------- the work left

  function StepWork(step: Step, count: Option<nat>): nat
    decreases step
  {
    match step
    case Leaf => 1
    case Repeat(n, _, body) => 1 + count.GetOr(n) * StepsWork(body, count)
  }

  function StepsWork(steps: seq<Step>, count: Option<nat>): nat
    decreases steps
  {
    if steps == [] then 0 else StepsWork(steps[..|steps| - 1], count) + StepWork(steps[|steps| - 1], count)
  }

  function TodoWork(todo: seq<(Path, Step)>, count: Option<nat>): nat {
    if todo == [] then 0 else TodoWork(todo[..|todo| - 1], count) + StepWork(todo[|todo| - 1].1, count)
  }

  function Work(p: Process, count: Option<nat>): nat
    decreases p
  {
    TodoWork(p.todo, count) + ForksWork(p.forks, count)
  }

  function ForksWork(forks: seq<Process>, count: Option<nat>): nat
    decreases forks
  {
    if forks == [] then 0 else Work(forks[0], count) + ForksWork(forks[1..], count)
  }

  lemma {:induction false} TodoWorkFirst(todo: seq<(Path, Step)>, count: Option<nat>)
    requires todo != []
    ensures TodoWork(todo, count) == StepWork(todo[0].1, count) + TodoWork(todo[1..], count)
    decreases |todo|
  {
    var n := |todo| - 1;
    if n > 0 {
      TodoWorkFirst(todo[..n], count);
      assert todo[1..][..n - 1] == todo[..n][1..];
    }
  }

  lemma {:induction false} EnumeratedWork(steps: seq<Step>, base: Path, count: Option<nat>)
    ensures TodoWork(Enumerated(steps, base), count) == StepsWork(steps, count)
    decreases |steps|
  {
    if steps != [] {
      var n := |steps| - 1;
      EnumeratedWork(steps[..n], base, count);
      assert Enumerated(steps, base)[..n] == Enumerated(steps[..n], base);
    }
  }

  lemma {:induction false} CopiesWork(n: nat, p: Process, count: Option<nat>)
    ensures ForksWork(Copies(n, p), count) == n * Work(p, count)
    decreases n
  {
    if n > 0 {
      CopiesWork(n - 1, p, count);
      assert Copies(n, p)[1..] == Copies(n - 1, p);
      assert n * Work(p, count) == Work(p, count) + (n - 1) * Work(p, count);
    }
  }

  lemma {:induction false} ForksWorkUpdate(forks: seq<Process>, i: nat, fork: Process, count: Option<nat>)
    requires i < |forks|
    ensures ForksWork(forks[i := fork], count) + Work(forks[i], count) == ForksWork(forks, count) + Work(fork, count)
    decreases i
  {
    var after := forks[i := fork];
    if i == 0 {
      assert after[1..] == forks[1..];
    } else {
      assert after[1..] == forks[1..][i - 1 := fork];
      ForksWorkUpdate(forks[1..], i - 1, fork, count);
    }
  }

  lemma ForksOfStepWork(step: Step, path: Path, count: Option<nat>)
    requires step.Repeat?
    ensures StepWork(step, count) == 1 + ForksWork(Forks(step, path, count), count)
  {
    var p := Started(step.steps, path, step.awaitInclusion);
    EnumeratedWork(step.steps, path, count);
    assert Work(p, count) == StepsWork(step.steps, count);
    CopiesWork(count.GetOr(step.count), p, count);
  }

  lemma {:induction false} TurnWorks(p: Process, count: Option<nat>, choice: nat)
    requires !Finished(p)
    ensures Work(Turn(p, count, choice).0, count) < Work(p, count)
    decreases p
  {
    if !AllFinished(p.forks) {
      var i := Chosen(p.forks, choice);
      TurnWorks(p.forks[i], count, choice / |p.forks|);
      ForksWorkUpdate(p.forks, i, Turn(p.forks[i], count, choice / |p.forks|).0, count);
    } else {
      TodoWorkFirst(p.todo, count);
      var (path, step) := p.todo[0];
      if step.Repeat? {
        ForksOfStepWork(step, path, count);
      }
    }
  }

  // ---------------------------------------------------------------- the interpreter

  lemma AskedStep(run: seq<Visit>, submits: set<Path>, cached: set<Path>)
    requires run != []
    ensures var p := run[0].path;
      Asked(run, submits, cached)
        == (if p in submits && p !in cached then [p] else []) + Asked(run[1..], submits, cached + ({p} * submits))
  {
    var p := run[0].path;
    if p in submits {
      assert {p} * submits == {p};
      if p in cached {
        assert cached + {p} == cached;
      }
    } else {
      assert cached + ({p} * submits) == cached;
    }
  }

  lemma Both(cached: set<Path>, a: set<Path>, b: set<Path>, submits: set<Path>)
    ensures cached + a * submits + b * submits == cached + (a + b) * submits
  {
  }

  lemma {:induction false} AskedConcat(a: seq<Visit>, b: seq<Visit>, submits: set<Path>, cached: set<Path>, after: set<Path>)
    requires after == cached + PathsOf(a) * submits
    ensures Asked(a + b, submits, cached) == Asked(a, submits, cached) + Asked(b, submits, after)
    decreases |a|
  {
    if a == [] {
      assert PathsOf(a) == {};
      assert a + b == b && cached == after;
    } else {
      var p, rest := a[0].path, a[1..];
      assert (a + b)[1..] == rest + b && (a + b)[0] == a[0];
      PathsOfCons(a);
      Both(cached, {p}, PathsOf(rest), submits);
      AskedConcat(rest, b, submits, cached + ({p} * submits), after);
      AskedStep(a, submits, cached);
      AskedStep(a + b, submits, cached);
    }
  }

  /** What an interpreter shares with its forks: the gas cache, the paths an estimate was asked for, the
      steps executed and the gas limit each was submitted with. */
  datatype Shared = Shared(gasCache: map<Path, nat>, asked: seq<Path>, visited: seq<Visit>, limits: seq<Option<nat>>)

  // The node's answer to an estimate, by how many were asked for before it.
  type Node = (nat, Path) -> Option<nat>

  ghost predicate AllAnswered(from: nat, asked: seq<Path>, estimate: Node) {
    forall n: nat | from <= n < |asked| :: estimate(n, asked[n]).Some?
  }

  // The gas cached for `p` is an estimate and a fifth more.
  ghost predicate Estimated(from: nat, t: Shared, p: Path, estimate: Node)
    requires p in t.gasCache
  {
    exists n: nat :: from <= n < |t.asked| && t.asked[n] == p && estimate(n, p).Some?
                     && t.gasCache[p] == estimate(n, p).value * 120 / 100
  }

  // What a visit is submitted with.
  function LimitOf(v: Visit, submits: set<Path>, gasCache: map<Path, nat>): Option<nat> {
    if v.path in submits && v.path in gasCache then Some(gasCache[v.path]) else None
  }

  ghost predicate Limited(s: Shared, run: seq<Visit>, t: Shared, submits: set<Path>) {
    && |t.limits| == |s.limits| + |run| && t.limits[..|s.limits|] == s.limits
    && forall j: nat | j < |run| :: t.limits[|s.limits| + j] == LimitOf(run[j], submits, t.gasCache)
  }

  /** What executing `run` does, every submission going through the cache: an estimate is asked for
      exactly when there is no cached gas, its answer and a fifth more is cached and submitted with
      ever after, and execution fails exactly when an estimate does. */
  ghost predicate Executed(s: Shared, run: seq<Visit>, t: Shared, submits: set<Path>, estimate: Node, ok: bool) {
    && t.visited == s.visited + run
    && t.asked == s.asked + Asked(run, submits, s.gasCache.Keys)
    && (ok <==> AllAnswered(|s.asked|, t.asked, estimate))
    && CacheFrom(|s.asked|, s.gasCache, t, estimate)
    && (ok ==> t.gasCache.Keys == s.gasCache.Keys + PathsOf(run) * submits && Limited(s, run, t, submits))
  }

  lemma LimitedInSequence(s: Shared, a: seq<Visit>, t: Shared, b: seq<Visit>, u: Shared, submits: set<Path>)
    requires Limited(s, a, t, submits) && Limited(t, b, u, submits)
    requires forall p <- t.gasCache :: p in u.gasCache && u.gasCache[p] == t.gasCache[p]
    requires forall v | v in a && v.path in submits :: v.path in t.gasCache
    ensures Limited(s, a + b, u, submits)
  {
    var run := a + b;
    forall j: nat | j < |run|
      ensures u.limits[|s.limits| + j] == LimitOf(run[j], submits, u.gasCache)
    {
      if j < |a| {
        assert a[j] in a;
        assert u.limits[|s.limits| + j] == u.limits[..|t.limits|][|s.limits| + j];
      } else {
        assert run[j] == b[j - |a|];
      }
    }
    assert u.limits[..|s.limits|] == u.limits[..|t.limits|][..|s.limits|];
  }

  lemma ExecutedInSequence(s: Shared, a: seq<Visit>, t: Shared, b: seq<Visit>, u: Shared, submits: set<Path>,
      estimate: Node, ok: bool)
    requires Executed(s, a, t, submits, estimate, true) && Executed(t, b, u, submits, estimate, ok)
    ensures Executed(s, a + b, u, submits, estimate, ok)
  {
    AskedConcat(a, b, submits, s.gasCache.Keys, t.gasCache.Keys);
    AnsweredInSequence(|s.asked|, t.asked, u.asked, estimate);
    CacheInSequence(|s.asked|, s.gasCache, t, u, estimate);
    if ok {
      CachedInSequence(s.gasCache.Keys, a, t.gasCache.Keys, b, u.gasCache.Keys, submits);
      LimitedInSequence(s, a, t, b, u, submits);
    }
  }

  lemma CachedInSequence(s: set<Path>, a: seq<Visit>, t: set<Path>, b: seq<Visit>, u: set<Path>, submits: set<Path>)
    requires t == s + PathsOf(a) * submits && u == t + PathsOf(b) * submits
    ensures u == s + PathsOf(a + b) * submits
    ensures forall v | v in a && v.path in submits :: v.path in t
  {
    assert PathsOf(a + b) == PathsOf(a) + PathsOf(b);
    Both(s, PathsOf(a), PathsOf(b), submits);
    forall v | v in a && v.path in submits
      ensures v.path in t
    {
      assert v.path in PathsOf(a);
    }
  }

  // Where the entries of the cache come from.
  ghost predicate CacheFrom(from: nat, before: map<Path, nat>, t: Shared, estimate: Node) {
    && (forall p <- before :: p in t.gasCache && t.gasCache[p] == before[p])
    && (forall p <- t.gasCache :: p in before || Estimated(from, t, p, estimate))
  }

  lemma CacheInSequence(from: nat, before: map<Path, nat>, t: Shared, u: Shared, estimate: Node)
    requires from <= |t.asked| <= |u.asked| && u.asked[..|t.asked|] == t.asked
    requires CacheFrom(from, before, t, estimate) && CacheFrom(|t.asked|, t.gasCache, u, estimate)
    ensures CacheFrom(from, before, u, estimate)
  {
    forall p | p in u.gasCache && p !in before
      ensures Estimated(from, u, p, estimate)
    {
      EstimatedInSequence(from, t, u, p, estimate);
    }
  }

  lemma EstimatedInSequence(from: nat, t: Shared, u: Shared, p: Path, estimate: Node)
    requires from <= |t.asked| <= |u.asked| && u.asked[..|t.asked|] == t.asked && p in u.gasCache
    requires p in t.gasCache ==> u.gasCache[p] == t.gasCache[p]
    ensures p in t.gasCache && Estimated(from, t, p, estimate) ==> Estimated(from, u, p, estimate)
    ensures Estimated(|t.asked|, u, p, estimate) ==> Estimated(from, u, p, estimate)
  {
    if p in t.gasCache && Estimated(from, t, p, estimate) {
      var n: nat :| from <= n < |t.asked| && t.asked[n] == p && estimate(n, p).Some?
                    && t.gasCache[p] == estimate(n, p).value * 120 / 100;
      assert u.asked[n] == p;
    }
  }

  lemma AnsweredInSequence(from: nat, asked: seq<Path>, longer: seq<Path>, estimate: Node)
    requires from <= |asked| <= |longer| && longer[..|asked|] == asked
    requires AllAnswered(from, asked, estimate)
    ensures AllAnswered(from, longer, estimate) <==> AllAnswered(|asked|, longer, estimate)
  {
    if AllAnswered(|asked|, longer, estimate) {
      forall n: nat | from <= n < |longer|
        ensures estimate(n, longer[n]).Some?
      {
        if n < |asked| {
          assert longer[n] == asked[n];
        }
      }
    }
  }

  lemma ExecutedMeans(s: Shared, run: seq<Visit>, t: Shared, submits: set<Path>, estimate: Node, ok: bool)
    requires Executed(s, run, t, submits, estimate, ok)
    ensures ok <==> forall n: nat | |s.asked| <= n < |t.asked| :: estimate(n, t.asked[n]).Some?
    ensures forall p | p in t.gasCache && p !in s.gasCache ::
      exists n: nat :: |s.asked| <= n < |t.asked| && t.asked[n] == p && estimate(n, p).Some?
                       && t.gasCache[p] == estimate(n, p).value * 120 / 100
  {
    forall p | p in t.gasCache && p !in s.gasCache
      ensures Estimated(|s.asked|, t, p, estimate)
    {
    }
  }

  lemma NothingExecuted(s: Shared, submits: set<Path>, estimate: Node)
    ensures Executed(s, [], s, submits, estimate, true)
  {
    assert PathsOf([]) == {};
  }

  // When the second of two pieces of execution asks for no estimate, the first has cached all gas.
  lemma WarmUpThenRun(s: Shared, warmUp: seq<Visit>, warm: Shared, run: seq<Visit>, t: Shared, submits: set<Path>, estimate: Node)
    requires Executed(s, warmUp, warm, submits, estimate, true) && Executed(warm, run, t, submits, estimate, true)
    requires Estimates(run, submits, warm.gasCache.Keys) == 0
    ensures Estimates(run, submits, s.gasCache.Keys + PathsOf(warmUp) * submits) == 0
    ensures t.gasCache.Keys == s.gasCache.Keys + PathsOf(warmUp) * submits
    ensures |t.asked| == |s.asked| + |t.gasCache.Keys - s.gasCache.Keys|
  {
    OneEstimatePerPath(warmUp, submits, s.gasCache.Keys);
    OneEstimatePerPath(run, submits, warm.gasCache.Keys);
    CachedKeys(s.gasCache.Keys, PathsOf(warmUp), PathsOf(run), submits);
  }

  lemma CachedKeys(cached: set<Path>, first: set<Path>, second: set<Path>, submits: set<Path>)
    requires |second * submits - (cached + first * submits)| == 0
    ensures cached + first * submits + second * submits == cached + first * submits
    ensures cached + first * submits - cached == first * submits - cached
  {
    var missing := second * submits - (cached + first * submits);
    assert missing == {};
    forall p | p in second * submits
      ensures p in cached + first * submits
    {
      assert p !in missing;
    }
  }

  // A beginning of a run finds all gas cached by the warm-up.
  lemma NothingLeftToEstimate(steps: seq<Step>, base: Path, submits: set<Path>, cached: set<Path>, warmUp: seq<Visit>,
      count: Option<nat>, awaits: bool, run: seq<Visit>, rest: seq<Visit>)
    requires WarmUpRun(steps, base, warmUp) && StepsRun(steps, base, count, awaits, run + rest)
    ensures Asked(run, submits, cached + PathsOf(warmUp) * submits) == []
  {
    WarmUpCovers(steps, base, warmUp, count, awaits, run + rest);
    assert PathsOf(run) <= PathsOf(run + rest);
    OneEstimatePerPath(run, submits, cached + PathsOf(warmUp) * submits);
    assert PathsOf(run) * submits - (cached + PathsOf(warmUp) * submits) == {};
  }

  lemma NothingSubmitted(run: seq<Visit>, cached: set<Path>)
    ensures Asked(run, {}, cached) == []
  {
    OneEstimatePerPath(run, {}, cached);
  }

  /** The interpreter and its forks.  `estimate` stands for the node's answers. */
  class Interpreter {
    const submits: set<Path>
    const estimate: Node
    const gasCaching: bool
    var gasCache: map<Path, nat>
    var asked: seq<Path>
    var visited: seq<Visit>
    var limits: seq<Option<nat>>

    constructor (submits: set<Path>, estimate: Node, gasCaching: bool)
      ensures this.submits == submits && this.estimate == estimate && this.gasCaching == gasCaching
      ensures State() == Shared(map[], [], [], [])
    {
      this.submits, this.estimate, this.gasCaching := submits, estimate, gasCaching;
      gasCache, asked, visited, limits := map[], [], [], [];
    }

    function State(): Shared
      reads this
    {
      Shared(gasCache, asked, visited, limits)
    }

    // The paths whose submissions go through the cache.
    function Cached(): set<Path> {
      if gasCaching then submits else {}
    }

    /** The gas limit of a submission at `path`: the cached one, or a fresh estimate and a fifth
        more, which is then cached. */
    method GasLimit(path: Path) returns (limit: Option<nat>)
      modifies this
      ensures path in old(gasCache) ==> limit == Some(old(gasCache)[path]) && State() == old(State())
      ensures path !in old(gasCache) ==>
        var more := old(State()).(asked := old(asked) + [path]);
        var answer := estimate(|old(asked)|, path);
        if answer.None? then limit == None && State() == more
        else
          && limit == Some(answer.value * 120 / 100)
          && State() == more.(gasCache := more.gasCache[path := limit.value])
    {
      if path in gasCache {
        return Some(gasCache[path]);
      }
      var gas := estimate(|asked|, path);
      asked := asked + [path];
      if gas.None? {
        return None;
      }
      gasCache := gasCache[path := gas.value * 120 / 100];
      limit := Some(gasCache[path]);
    }

    method ExecuteLeaf(path: Path, awaits: bool) returns (ok: bool)
      modifies this
      ensures Executed(old(State()), [Visit(path, awaits)], State(), Cached(), estimate, ok)
    {
      visited := visited + [Visit(path, awaits)];
      ok := true;
      var limit := None;
      ghost var one := [Visit(path, awaits)];
      assert PathsOf(one) == {path} && one[1..] == [];
      if gasCaching && path in submits {
        limit := GasLimit(path);
        ok := limit.Some?;
      }
      limits := limits + [limit];
      ghost var s := old(State());
      assert asked == s.asked + Asked(one, Cached(), s.gasCache.Keys);
      assert path in Cached() && path !in s.gasCache ==> asked[|s.asked|] == path;
    }

    /** Runs the steps in order and the forks of each repeat step at once, one visit at a time as the
        schedule has it, up to the first estimate that fails. */
    method InternalRunToCompletion(steps: seq<Step>, path: Path, count: Option<nat>, awaits: bool, schedule: nat -> nat)
      returns (ok: bool, ghost run: seq<Visit>, ghost rest: seq<Visit>)
      modifies this
      ensures StepsRun(steps, path, count, awaits, run + rest) && (ok ==> rest == [])
      ensures Executed(old(State()), run, State(), Cached(), estimate, ok)
    {
      run, rest, ok := [], [], true;
      ghost var start := Started(steps, path, awaits);
      var process := Started(steps, path, awaits);
      var turn := 0;
      LeadsAtStart(start, count);
      NothingExecuted(old(State()), Cached(), estimate);
      while ok && !Finished(process)
        invariant Executed(old(State()), run, State(), Cached(), estimate, ok)
        invariant Leads(start, process, count, run)
        decreases ok, Work(process, count)
      {
        var (next, visit) := Turn(process, count, schedule(turn));
        TurnWorks(process, count, schedule(turn));
        LeadsOn(start, process, count, schedule(turn), run);
        ghost var before, reached := run, State();
        if visit.Some? {
          ok := ExecuteLeaf(visit.value.path, visit.value.awaits);
        } else {
          NothingExecuted(State(), Cached(), estimate);
        }
        run := before + AsRun(visit);
        ExecutedInSequence(old(State()), before, reached, AsRun(visit), State(), Cached(), estimate, ok);
        process := next;
        turn := turn + 1;
      }
      if ok {
        FinishedCompletes(process, count);
      } else {
        rest := Completion(process, count);
      }
      StartedRun(steps, path, count, awaits, run + rest);
    }

    /** The run of a program, after its warm-up run when gas is cached.  The estimates asked for are one
        for each submitting leaf with no cached gas yet, all of them by the warm-up run; each new entry
        of the cache is its estimate and a fifth more.  It fails exactly when an estimate does, and
        then during the warm-up. */
    method RunToCompletion(steps: seq<Step>, base: Path, count: Option<nat>, awaits: bool,
        warmUpSchedule: nat -> nat, schedule: nat -> nat)
      returns (ok: bool, ghost warmUp: seq<Visit>, ghost run: seq<Visit>)
      modifies this
      ensures Executed(old(State()), warmUp + run, State(), Cached(), estimate, ok)
      ensures ok <==> forall n: nat | |old(asked)| <= n < |asked| :: estimate(n, asked[n]).Some?
      ensures forall p | p in gasCache && p !in old(gasCache) ::
        exists n: nat :: |old(asked)| <= n < |asked| && asked[n] == p && estimate(n, p).Some?
                         && gasCache[p] == estimate(n, p).value * 120 / 100
      ensures ok ==>
        && (if gasCaching then WarmUpRun(steps, base, warmUp) else warmUp == [])
        && StepsRun(steps, base, count, awaits, run)
        && Estimates(run, Cached(), old(gasCache).Keys + PathsOf(warmUp) * Cached()) == 0
        && gasCache.Keys == old(gasCache).Keys + PathsOf(warmUp) * Cached()
        && |asked| == |old(asked)| + |gasCache.Keys - old(gasCache).Keys|
      ensures !ok ==> gasCaching && run == [] && exists rest :: WarmUpRun(steps, base, warmUp + rest)
    {
      ghost var start := State();
      ok, warmUp := HandleGasWarmUp(steps, base, warmUpSchedule);
      run := [];
      assert warmUp + [] == warmUp;
      if ok {
        ghost var warm := State();
        ghost var rest;
        ok, run, rest := InternalRunToCompletion(steps, base, count, awaits, schedule);
        if gasCaching {
          NothingLeftToEstimate(steps, base, submits, start.gasCache.Keys, warmUp, count, awaits, run, rest);
        } else {
          NothingSubmitted(run, warm.gasCache.Keys);
        }
        assert asked == warm.asked && ok && run + rest == run;
        ExecutedInSequence(start, warmUp, warm, run, State(), Cached(), estimate, true);
        WarmUpThenRun(start, warmUp, warm, run, State(), Cached(), estimate);
      }
      ExecutedMeans(start, warmUp + run, State(), Cached(), estimate, ok);
    }

    method HandleGasWarmUp(steps: seq<Step>, base: Path, schedule: nat -> nat) returns (ok: bool, ghost warmUp: seq<Visit>)
      modifies this
      ensures !gasCaching ==> ok && warmUp == [] && State() == old(State())
      ensures gasCaching ==> if ok then WarmUpRun(steps, base, warmUp) else exists rest :: WarmUpRun(steps, base, warmUp + rest)
      ensures Executed(old(State()), warmUp, State(), Cached(), estimate, ok)
    {
      if !gasCaching {
        NothingExecuted(State(), Cached(), estimate);
        return true, [];
      }
      ghost var rest;
      ok, warmUp, rest := InternalRunToCompletion(Awaiting(steps), base, Some(1), true, schedule);
      assert WarmUpRun(steps, base, warmUp + rest);
      assert ok ==> warmUp + rest == warmUp;
    }
  }

  // Some order in which a process can be completed.
  lemma {:induction false} Completion(p: Process, count: Option<nat>) returns (run: seq<Visit>)
    ensures Completes(p, count, run)
    decreases Work(p, count)
  {
    if Finished(p) {
      FinishedCompletes(p, count);
      run := [];
    } else {
      TurnWorks(p, count, 0);
      var rest := Completion(Turn(p, count, 0).0, count);
      TurnBack(p, count, 0, rest);
      run := AsRun(Turn(p, count, 0).1) + rest;
    }
  }

  // Whatever is still to be visited, with what has been visited before it makes up a run from the start.
  ghost predicate Leads(start: Process, p: Process, count: Option<nat>, visited: seq<Visit>) {
    forall rest :: Completes(p, count, rest) ==> Completes(start, count, visited + rest)
  }

  lemma LeadsAtStart(p: Process, count: Option<nat>)
    ensures Leads(p, p, count, [])
  {
    forall rest | Completes(p, count, rest)
      ensures Completes(p, count, [] + rest)
    {
      assert [] + rest == rest;
    }
  }

  lemma LeadsOn(start: Process, p: Process, count: Option<nat>, choice: nat, visited: seq<Visit>)
    requires Leads(start, p, count, visited) && !Finished(p)
    ensures Leads(start, Turn(p, count, choice).0, count, visited + AsRun(Turn(p, count, choice).1))
  {
    var (next, v) := Turn(p, count, choice);
    forall rest | Completes(next, count, rest)
      ensures Completes(start, count, visited + AsRun(v) + rest)
    {
      TurnBack(p, count, choice, rest);
      assert visited + (AsRun(v) + rest) == visited + AsRun(v) + rest;
    }
  }
}
