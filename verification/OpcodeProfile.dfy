/**
 Opcode weights, from the steps of an execution trace to the profile of a transaction and on to the
 summary over all profiled transactions.
 */
module OpcodeProfile {
  import opened Common

  type Byte = x: nat | x < 256

  datatype OpKey = Evm(byte: Byte) | Pvm(byte: Byte)

  datatype Totals = Totals(count: nat, refTime: nat, proofSize: nat)

  datatype Row = Row(op: OpKey, totals: Totals)

  const Zero: Totals := Totals(0, 0, 0)

  function Plus(a: Totals, b: Totals): Totals {
    Totals(a.count + b.count, a.refTime + b.refTime, a.proofSize + b.proofSize)
  }

  lemma PlusLaws(a: Totals, b: Totals, c: Totals)
    ensures Plus(Plus(a, b), c) == Plus(a, Plus(b, c))
    ensures Plus(a, b) == Plus(b, a) && Plus(Zero, a) == a == Plus(a, Zero)
  {
  }

  function Sum(rows: seq<Row>): Totals {
    if rows == [] then Zero else Plus(rows[0].totals, Sum(rows[1..]))
  }

  // ---------------------------------------------------------------- accumulating by opcode

  type ByOp = map<OpKey, Totals>

  function At(m: ByOp, op: OpKey): Totals {
    if op in m then m[op] else Zero
  }

  function Accumulated(m: ByOp, row: Row): ByOp {
    m[row.op := Plus(At(m, row.op), row.totals)]
  }

  function Accumulate(rows: seq<Row>): ByOp {
    if rows == [] then map[] else Accumulated(Accumulate(rows[..|rows| - 1]), rows[|rows| - 1])
  }

  predicate DistinctOps(rows: seq<Row>) {
    forall i, j | 0 <= i < j < |rows| :: rows[i].op != rows[j].op
  }

  /** `rows` are the entries of `m`, in some order. */
  predicate Lists(rows: seq<Row>, m: ByOp) {
    && DistinctOps(rows)
    && (forall r <- rows :: r.op in m && m[r.op] == r.totals)
    && (forall op <- m :: Row(op, m[op]) in rows)
  }

  lemma {:induction false} SumConcat(a: seq<Row>, b: seq<Row>)
    ensures Sum(a + b) == Plus(Sum(a), Sum(b))
  {
    if a == [] {
      assert a + b == b;
      PlusLaws(Sum(b), Zero, Zero);
    } else {
      assert (a + b)[1..] == a[1..] + b && (a + b)[0] == a[0];
      SumConcat(a[1..], b);
      PlusLaws(a[0].totals, Sum(a[1..]), Sum(b));
    }
  }

  lemma SumAround(rows: seq<Row>, i: nat)
    requires i < |rows|
    ensures Sum(rows) == Plus(Plus(Sum(rows[..i]), rows[i].totals), Sum(rows[i + 1..]))
  {
    assert rows == rows[..i] + ([rows[i]] + rows[i + 1..]);
    SumConcat(rows[..i], [rows[i]] + rows[i + 1..]);
    assert ([rows[i]] + rows[i + 1..])[1..] == rows[i + 1..];
  }

  lemma FirstMember<T>(s: seq<T>)
    ensures s != [] ==> s[0] in s
  {
  }

  lemma PlusBetween(l: Totals, a: Totals, b: Totals, r: Totals)
    ensures Plus(Plus(l, Plus(a, b)), r) == Plus(Plus(Plus(l, a), r), b)
  {
  }

  // The entries before `row` was added to the one at `i`.
  lemma WithoutIncrease(m: ByOp, row: Row, rows: seq<Row>, i: nat) returns (before: seq<Row>)
    requires Lists(rows, Accumulated(m, row)) && row.op in m
    requires i < |rows| && rows[i].op == row.op
    ensures Lists(before, m)
    ensures Sum(rows) == Plus(Sum(before), row.totals)
  {
    before := rows[i := Row(row.op, m[row.op])];
    assert rows[i] in rows;
    SumAround(rows, i);
    SumAround(before, i);
    assert before[..i] == rows[..i] && before[i + 1..] == rows[i + 1..];
    PlusBetween(Sum(rows[..i]), m[row.op], row.totals, Sum(rows[i + 1..]));
    forall op | op in m
      ensures Row(op, m[op]) in before
    {
      if op == row.op {
        assert before[i] == Row(op, m[op]);
      } else {
        var k :| 0 <= k < |rows| && rows[k] == Row(op, Accumulated(m, row)[op]);
        assert before[k] == rows[k];
      }
    }
    forall r | r in before
      ensures r.op in m && m[r.op] == r.totals
    {
      var k :| 0 <= k < |before| && before[k] == r;
      assert rows[k] in rows;
    }
  }

  // The entries before `row` was added as a new one, at `i`.
  lemma WithoutNew(m: ByOp, row: Row, rows: seq<Row>, i: nat) returns (before: seq<Row>)
    requires Lists(rows, Accumulated(m, row)) && row.op !in m
    requires i < |rows| && rows[i].op == row.op
    ensures Lists(before, m)
    ensures Sum(rows) == Plus(Sum(before), row.totals)
  {
    before := rows[..i] + rows[i + 1..];
    assert rows[i] in rows;
    SumWithout(rows, i);
    MembersWithout(rows, i);
    forall op | op in m
      ensures Row(op, m[op]) in before
    {
      assert Row(op, Accumulated(m, row)[op]) in rows;
    }
  }

  lemma SumWithout(rows: seq<Row>, i: nat)
    requires i < |rows|
    ensures Sum(rows) == Plus(Sum(rows[..i] + rows[i + 1..]), rows[i].totals)
  {
    SumAround(rows, i);
    SumConcat(rows[..i], rows[i + 1..]);
    PlusSwap(Sum(rows[..i]), rows[i].totals, Sum(rows[i + 1..]));
  }

  lemma PlusSwap(a: Totals, b: Totals, c: Totals)
    ensures Plus(Plus(a, b), c) == Plus(Plus(a, c), b)
  {
  }

  lemma MembersWithout(rows: seq<Row>, i: nat)
    requires i < |rows| && DistinctOps(rows)
    ensures DistinctOps(rows[..i] + rows[i + 1..])
    ensures forall r :: r in rows[..i] + rows[i + 1..] <==> r in rows && r != rows[i]
  {
    var before := rows[..i] + rows[i + 1..];
    forall r | r in rows && r != rows[i]
      ensures r in before
    {
      var k :| 0 <= k < |rows| && rows[k] == r;
      assert before[if k < i then k else k - 1] == r;
    }
    forall r | r in before
      ensures r in rows && r != rows[i]
    {
      var k :| 0 <= k < |before| && before[k] == r;
      assert rows[if k < i then k else k + 1] == r;
    }
  }

  /** Accumulating loses and adds nothing, in whatever order the entries are listed. */
  lemma {:induction false} AccumulateKeepsSum(input: seq<Row>, rows: seq<Row>)
    requires Lists(rows, Accumulate(input))
    ensures Sum(rows) == Sum(input)
    decreases |input|
  {
    if input == [] {
      FirstMember(rows);
    } else {
      var n := |input| - 1;
      var m := Accumulate(input[..n]);
      assert Row(input[n].op, Accumulated(m, input[n])[input[n].op]) in rows;
      var i :| 0 <= i < |rows| && rows[i].op == input[n].op;
      var before;
      if input[n].op in m {
        before := WithoutIncrease(m, input[n], rows, i);
      } else {
        before := WithoutNew(m, input[n], rows, i);
      }
      AccumulateKeepsSum(input[..n], before);
      SumAround(input, n);
      assert input[n + 1..] == [];
      PlusLaws(Plus(Sum(input[..n]), input[n].totals), Zero, Zero);
    }
  }

  // The rows of one opcode.
  function OfOp(rows: seq<Row>, op: OpKey): seq<Row> {
    if rows == [] then []
    else
      var n := |rows| - 1;
      OfOp(rows[..n], op) + if rows[n].op == op then [rows[n]] else []
  }

  /** What is accumulated for an opcode is the sum of its own rows. */
  lemma {:induction false} AccumulatedOfOp(rows: seq<Row>, op: OpKey)
    ensures op in Accumulate(rows) <==> OfOp(rows, op) != []
    ensures At(Accumulate(rows), op) == Sum(OfOp(rows, op))
    decreases |rows|
  {
    if rows != [] {
      var n := |rows| - 1;
      AccumulatedOfOp(rows[..n], op);
      if rows[n].op == op {
        SumSnoc(OfOp(rows[..n], op), rows[n]);
        assert |OfOp(rows, op)| == |OfOp(rows[..n], op)| + 1;
      } else {
        assert OfOp(rows, op) == OfOp(rows[..n], op);
      }
    }
  }

  // ---------------------------------------------------------------- sorting

  function Rank(op: OpKey): nat {
    match op
    case Evm(byte) => byte
    case Pvm(byte) => 256 + byte
  }

  /** Heavier first; opcodes of one weight in their order. */
  predicate Before(a: Row, b: Row) {
    a.totals.refTime > b.totals.refTime
    || (a.totals.refTime == b.totals.refTime && Rank(a.op) < Rank(b.op))
  }

  predicate Sorted(rows: seq<Row>) {
    forall i, j | 0 <= i < j < |rows| :: Before(rows[i], rows[j])
  }

  function Insert(r: Row, rows: seq<Row>): seq<Row> {
    if rows == [] || Before(r, rows[0]) then [r] + rows else [rows[0]] + Insert(r, rows[1..])
  }

  function Sort(rows: seq<Row>): seq<Row> {
    if rows == [] then [] else Insert(rows[0], Sort(rows[1..]))
  }

  lemma {:induction false} InsertMembers(r: Row, rows: seq<Row>)
    ensures forall x :: x in Insert(r, rows) <==> x == r || x in rows
  {
    if rows != [] && !Before(r, rows[0]) {
      InsertMembers(r, rows[1..]);
      assert rows == [rows[0]] + rows[1..];
    }
  }

  lemma {:induction false} InsertSum(r: Row, rows: seq<Row>)
    ensures Sum(Insert(r, rows)) == Plus(r.totals, Sum(rows))
  {
    if rows == [] || Before(r, rows[0]) {
      assert ([r] + rows)[1..] == rows;
    } else {
      var rest := Insert(r, rows[1..]);
      InsertSum(r, rows[1..]);
      assert ([rows[0]] + rest)[1..] == rest;
      PlusLaws(rows[0].totals, r.totals, Sum(rows[1..]));
      PlusLaws(r.totals, rows[0].totals, Sum(rows[1..]));
    }
  }

  lemma {:induction false} InsertSorted(r: Row, rows: seq<Row>)
    requires Sorted(rows) && forall x <- rows :: x.op != r.op
    ensures Sorted(Insert(r, rows))
  {
    if rows != [] && !Before(r, rows[0]) {
      assert rows[0] in rows;
      InsertSorted(r, rows[1..]);
      InsertMembers(r, rows[1..]);
      DifferentRanks(r.op, rows[0].op);
      BeforeAll(rows[0], Insert(r, rows[1..]));
    }
  }

  lemma BeforeAll(r: Row, rows: seq<Row>)
    requires Sorted(rows) && forall x <- rows :: Before(r, x)
    ensures Sorted([r] + rows)
  {
  }

  lemma DifferentRanks(a: OpKey, b: OpKey)
    ensures Rank(a) == Rank(b) <==> a == b
  {
  }

  lemma {:induction false} SortIs(rows: seq<Row>)
    requires DistinctOps(rows)
    ensures Sorted(Sort(rows))
    ensures forall x :: x in Sort(rows) <==> x in rows
    ensures Sum(Sort(rows)) == Sum(rows)
  {
    if rows != [] {
      assert rows == [rows[0]] + rows[1..];
      SortIs(rows[1..]);
      InsertSorted(rows[0], Sort(rows[1..]));
      InsertMembers(rows[0], Sort(rows[1..]));
      InsertSum(rows[0], Sort(rows[1..]));
    }
  }

  lemma {:induction false} SortedIsUnique(a: seq<Row>, b: seq<Row>)
    requires Sorted(a) && Sorted(b)
    requires forall r :: r in a <==> r in b
    ensures a == b
    decreases |a|
  {
    if a == [] || b == [] {
      FirstMember(a);
      FirstMember(b);
    } else {
      assert a[0] in b && b[0] in a;
      assert a == [a[0]] + a[1..] && b == [b[0]] + b[1..];
      assert a[0] == b[0];
      forall r
        ensures r in a[1..] <==> r in b[1..]
      {
        assert r in a[1..] <==> r in a && r != a[0];
        assert r in b[1..] <==> r in b && r != b[0];
      }
      SortedIsUnique(a[1..], b[1..]);
    }
  }

  /** The order of the rows does not depend on the order in which a hash map lists its entries. */
  lemma SortIsOrderIndependent(m: ByOp, a: seq<Row>, b: seq<Row>)
    requires Lists(a, m) && Lists(b, m)
    ensures Sort(a) == Sort(b)
  {
    SortIs(a);
    SortIs(b);
    forall r
      ensures r in Sort(a) <==> r in Sort(b)
    {
      assert r in a <==> r.op in m && m[r.op] == r.totals;
      assert r in b <==> r.op in m && m[r.op] == r.totals;
    }
    SortedIsUnique(Sort(a), Sort(b));
  }

  // The entries of a hash map in the order in which it happens to list them.
  method Entries(m: ByOp) returns (rows: seq<Row>)
    ensures Lists(rows, m)
  {
    rows := [];
    var todo := m.Keys;
    while todo != {}
      invariant todo <= m.Keys
      invariant Lists(rows, map op | op in m && op !in todo :: m[op])
    {
      var op :| op in todo;
      rows := rows + [Row(op, m[op])];
      todo := todo - {op};
    }
    assert (map op | op in m && op !in todo :: m[op]) == m;
  }

  // ---------------------------------------------------------------- the profile of a transaction

  datatype Weight = Weight(refTime: nat, proofSize: nat)
  datatype Step = Step(op: OpKey, cost: Weight)
  datatype Trace = Trace(steps: seq<Step>, consumed: Weight, failed: bool)
  datatype TxProfile = TxProfile(block: nat, failed: bool, consumed: Weight, unattributed: Weight, opcodes: seq<Row>)

  function RowsOf(steps: seq<Step>): (rows: seq<Row>)
    ensures |rows| == |steps|
  {
    seq(|steps|, i requires 0 <= i < |steps| => Row(steps[i].op, Totals(1, steps[i].cost.refTime, steps[i].cost.proofSize)))
  }

  function StepTotal(steps: seq<Step>): Weight {
    if steps == [] then Weight(0, 0)
    else
      var n := |steps| - 1;
      var total := StepTotal(steps[..n]);
      Weight(total.refTime + steps[n].cost.refTime, total.proofSize + steps[n].cost.proofSize)
  }

  lemma {:induction false} SumOfSteps(steps: seq<Step>)
    ensures Sum(RowsOf(steps)) == Totals(|steps|, StepTotal(steps).refTime, StepTotal(steps).proofSize)
    decreases |steps|
  {
    if steps != [] {
      var n := |steps| - 1;
      SumOfSteps(steps[..n]);
      SumAround(RowsOf(steps), n);
      assert RowsOf(steps)[..n] == RowsOf(steps[..n]);
      assert RowsOf(steps)[n + 1..] == [];
    }
  }

  /** The profile of a trace, for any order of the hash map. */
  ghost predicate IsProfile(p: TxProfile, block: nat, trace: Trace) {
    && p.block == block && p.failed == trace.failed && p.consumed == trace.consumed
    && p.unattributed == Weight(
         SaturatingSub(trace.consumed.refTime, StepTotal(trace.steps).refTime),
         SaturatingSub(trace.consumed.proofSize, StepTotal(trace.steps).proofSize))
    && exists rows :: Lists(rows, Accumulate(RowsOf(trace.steps))) && p.opcodes == Sort(rows)
  }

  method FromExecutionTrace(block: nat, trace: Trace) returns (p: TxProfile)
    ensures IsProfile(p, block, trace)
  {
    var byOp: ByOp := map[];
    var total := Weight(0, 0);
    var i := 0;
    ghost var input := RowsOf(trace.steps);
    while i < |trace.steps|
      invariant i <= |trace.steps|
      invariant byOp == Accumulate(input[..i])
      invariant total == StepTotal(trace.steps[..i])
    {
      var step := trace.steps[i];
      var stats := At(byOp, step.op);
      byOp := byOp[step.op := Totals(stats.count + 1, stats.refTime + step.cost.refTime, stats.proofSize + step.cost.proofSize)];
      total := Weight(total.refTime + step.cost.refTime, total.proofSize + step.cost.proofSize);
      assert input[..i + 1][..i] == input[..i];
      assert trace.steps[..i + 1][..i] == trace.steps[..i];
      i := i + 1;
    }
    assert input[..i] == input && trace.steps[..i] == trace.steps;
    var rows := Entries(byOp);
    p := TxProfile(block, trace.failed, trace.consumed,
      Weight(SaturatingSub(trace.consumed.refTime, total.refTime), SaturatingSub(trace.consumed.proofSize, total.proofSize)),
      Sort(rows));
  }

  /** A trace has one profile. */
  lemma ProfileIsUnique(p: TxProfile, q: TxProfile, block: nat, trace: Trace)
    requires IsProfile(p, block, trace) && IsProfile(q, block, trace)
    ensures p == q
  {
    var m := Accumulate(RowsOf(trace.steps));
    var a :| Lists(a, m) && p.opcodes == Sort(a);
    var b :| Lists(b, m) && q.opcodes == Sort(b);
    SortIsOrderIndependent(m, a, b);
  }

  /** The opcodes of a profile account for all steps; together with the unattributed weight they are
      the consumed weight exactly when the steps do not exceed it. */
  lemma ProfileConserves(p: TxProfile, block: nat, trace: Trace)
    requires IsProfile(p, block, trace)
    ensures Sum(p.opcodes).count == |trace.steps|
    ensures Sum(p.opcodes).refTime == StepTotal(trace.steps).refTime
    ensures Sum(p.opcodes).proofSize == StepTotal(trace.steps).proofSize
    ensures Sum(p.opcodes).refTime + p.unattributed.refTime == p.consumed.refTime
      <==> StepTotal(trace.steps).refTime <= trace.consumed.refTime
    ensures Sum(p.opcodes).proofSize + p.unattributed.proofSize == p.consumed.proofSize
      <==> StepTotal(trace.steps).proofSize <= trace.consumed.proofSize
  {
    var rows :| Lists(rows, Accumulate(RowsOf(trace.steps))) && p.opcodes == Sort(rows);
    AccumulateKeepsSum(RowsOf(trace.steps), rows);
    SumOfSteps(trace.steps);
    SortIs(rows);
  }

  // The steps of one opcode.
  function StepsOf(steps: seq<Step>, op: OpKey): seq<Step> {
    if steps == [] then []
    else
      var n := |steps| - 1;
      StepsOf(steps[..n], op) + if steps[n].op == op then [steps[n]] else []
  }

  lemma {:induction false} RowsOfOp(steps: seq<Step>, op: OpKey)
    ensures OfOp(RowsOf(steps), op) == RowsOf(StepsOf(steps, op))
    decreases |steps|
  {
    if steps != [] {
      var n := |steps| - 1;
      RowsOfOp(steps[..n], op);
      assert RowsOf(steps)[..n] == RowsOf(steps[..n]);
    }
  }

  /** A profile has a row for exactly the opcodes of the trace, each with the number of its own steps and
      what they cost. */
  lemma ProfileByOpcode(p: TxProfile, block: nat, trace: Trace, op: OpKey)
    requires IsProfile(p, block, trace)
    ensures (exists r :: r in p.opcodes && r.op == op) <==> StepsOf(trace.steps, op) != []
    ensures forall r | r in p.opcodes && r.op == op ::
      && r.totals.count == |StepsOf(trace.steps, op)|
      && Weight(r.totals.refTime, r.totals.proofSize) == StepTotal(StepsOf(trace.steps, op))
  {
    var input := RowsOf(trace.steps);
    var rows :| Lists(rows, Accumulate(input)) && p.opcodes == Sort(rows);
    SortIs(rows);
    AccumulatedOfOp(input, op);
    RowsOfOp(trace.steps, op);
    SumOfSteps(StepsOf(trace.steps, op));
    if StepsOf(trace.steps, op) != [] {
      assert Row(op, Accumulate(input)[op]) in p.opcodes;
    }
  }

  // By reference time, heavier first; the same by opcode, the EVM's before the PVM's.
  predicate InOrder(a: Row, b: Row) {
    || a.totals.refTime > b.totals.refTime
    || (a.totals.refTime == b.totals.refTime
        && ((a.op.Evm? && b.op.Pvm?) || (a.op.Evm? == b.op.Evm? && a.op.byte < b.op.byte)))
  }

  /** The rows of a profile are in order. */
  lemma ProfileInOrder(p: TxProfile, block: nat, trace: Trace, i: nat, j: nat)
    requires IsProfile(p, block, trace) && i < j < |p.opcodes|
    ensures InOrder(p.opcodes[i], p.opcodes[j])
  {
    var rows :| Lists(rows, Accumulate(RowsOf(trace.steps))) && p.opcodes == Sort(rows);
    SortIs(rows);
    assert Before(p.opcodes[i], p.opcodes[j]);
  }

  // ---------------------------------------------------------------- the summary

  const TopCount: nat := 64

  datatype SummaryKey = Op(op: OpKey) | Other
  datatype SummaryRow = SummaryRow(key: SummaryKey, totals: Totals)
  datatype Summary = Summary(sampled: nat, blocks: nat, failed: nat, opcodes: seq<SummaryRow>)

  function AllRows(profiles: seq<TxProfile>): seq<Row> {
    if profiles == [] then [] else AllRows(profiles[..|profiles| - 1]) + profiles[|profiles| - 1].opcodes
  }

  function Named(rows: seq<Row>): (r: seq<SummaryRow>)
    ensures |r| == |rows|
  {
    seq(|rows|, i requires 0 <= i < |rows| => SummaryRow(Op(rows[i].op), rows[i].totals))
  }

  // The heaviest rows, and one row for all the others when there are too many.
  function TopRows(sorted: seq<Row>): seq<SummaryRow> {
    if |sorted| <= TopCount then Named(sorted)
    else Named(sorted[..TopCount]) + [SummaryRow(Other, Sum(sorted[TopCount..]))]
  }

  function SummarySum(rows: seq<SummaryRow>): Totals {
    if rows == [] then Zero else Plus(rows[0].totals, SummarySum(rows[1..]))
  }

  lemma {:induction false} SummarySumNamed(rows: seq<Row>)
    ensures SummarySum(Named(rows)) == Sum(rows)
  {
    if rows != [] {
      SummarySumNamed(rows[1..]);
      assert Named(rows)[1..] == Named(rows[1..]);
    }
  }

  lemma {:induction false} SummarySumSnoc(rows: seq<SummaryRow>, last: SummaryRow)
    ensures SummarySum(rows + [last]) == Plus(SummarySum(rows), last.totals)
  {
    if rows == [] {
      assert [last][1..] == [];
      PlusLaws(last.totals, Zero, Zero);
    } else {
      assert (rows + [last])[1..] == rows[1..] + [last];
      SummarySumSnoc(rows[1..], last);
      PlusLaws(rows[0].totals, SummarySum(rows[1..]), last.totals);
    }
  }

  lemma TopRowsKeepSum(sorted: seq<Row>)
    ensures SummarySum(TopRows(sorted)) == Sum(sorted)
  {
    if |sorted| <= TopCount {
      SummarySumNamed(sorted);
    } else {
      var top, others := sorted[..TopCount], sorted[TopCount..];
      SummarySumNamed(top);
      SummarySumSnoc(Named(top), SummaryRow(Other, Sum(others)));
      SumConcat(top, others);
      assert sorted == top + others;
    }
  }

  function FailedCount(profiles: seq<TxProfile>): nat {
    if profiles == [] then 0
    else FailedCount(profiles[..|profiles| - 1]) + (if profiles[|profiles| - 1].failed then 1 else 0)
  }

  function Blocks(profiles: seq<TxProfile>): set<nat> {
    set p <- profiles :: p.block
  }

  ghost predicate IsSummary(s: Summary, profiles: seq<TxProfile>) {
    && s.sampled == |profiles| && s.blocks == |Blocks(profiles)| && s.failed == FailedCount(profiles)
    && exists rows :: Lists(rows, Accumulate(AllRows(profiles))) && s.opcodes == TopRows(Sort(rows))
  }

  method AggregateToSummary(profiles: seq<TxProfile>) returns (s: Summary)
    ensures IsSummary(s, profiles)
  {
    var byOp: ByOp := map[];
    var failed := 0;
    var i := 0;
    while i < |profiles|
      invariant i <= |profiles|
      invariant byOp == Accumulate(AllRows(profiles[..i]))
      invariant failed == FailedCount(profiles[..i])
    {
      assert profiles[..i + 1][..i] == profiles[..i];
      byOp := AddProfile(byOp, AllRows(profiles[..i]), profiles[i].opcodes);
      failed := failed + (if profiles[i].failed then 1 else 0);
      i := i + 1;
    }
    assert profiles[..i] == profiles;
    var rows := Entries(byOp);
    var opcodes := TakeTop(Sort(rows));
    s := Summary(|profiles|, |Blocks(profiles)|, failed, opcodes);
  }

  method TakeTop(sorted: seq<Row>) returns (opcodes: seq<SummaryRow>)
    ensures opcodes == TopRows(sorted)
  {
    if |sorted| <= TopCount {
      return Named(sorted);
    }
    var other := Zero;
    var k := TopCount;
    while k < |sorted|
      invariant TopCount <= k <= |sorted|
      invariant other == Sum(sorted[TopCount..k])
    {
      SumSnoc(sorted[TopCount..k], sorted[k]);
      assert sorted[TopCount..k + 1] == sorted[TopCount..k] + [sorted[k]];
      other := Plus(other, sorted[k].totals);
      k := k + 1;
    }
    assert sorted[TopCount..k] == sorted[TopCount..];
    opcodes := Named(sorted[..TopCount]) + [SummaryRow(Other, other)];
  }

  lemma SumSnoc(rows: seq<Row>, last: Row)
    ensures Sum(rows + [last]) == Plus(Sum(rows), last.totals)
  {
    SumConcat(rows, [last]);
    assert [last][1..] == [];
    PlusLaws(last.totals, Zero, Zero);
  }

  method AddProfile(byOp: ByOp, ghost before: seq<Row>, opcodes: seq<Row>) returns (r: ByOp)
    requires byOp == Accumulate(before)
    ensures r == Accumulate(before + opcodes)
  {
    r := byOp;
    var i := 0;
    assert before + opcodes[..0] == before;
    while i < |opcodes|
      invariant i <= |opcodes|
      invariant r == Accumulate(before + opcodes[..i])
    {
      var longer := before + opcodes[..i + 1];
      assert longer[..|longer| - 1] == before + opcodes[..i];
      r := r[opcodes[i].op := Plus(At(r, opcodes[i].op), opcodes[i].totals)];
      i := i + 1;
    }
    assert opcodes[..i] == opcodes;
  }

  /** The profiles have one summary. */
  lemma SummaryIsUnique(s: Summary, t: Summary, profiles: seq<TxProfile>)
    requires IsSummary(s, profiles) && IsSummary(t, profiles)
    ensures s == t
  {
    var m := Accumulate(AllRows(profiles));
    var a :| Lists(a, m) && s.opcodes == TopRows(Sort(a));
    var b :| Lists(b, m) && t.opcodes == TopRows(Sort(b));
    SortIsOrderIndependent(m, a, b);
  }

  function TotalsOf(traces: seq<Trace>): Totals {
    if traces == [] then Zero
    else
      var n := |traces| - 1;
      Plus(TotalsOf(traces[..n]), Totals(|traces[n].steps|, StepTotal(traces[n].steps).refTime, StepTotal(traces[n].steps).proofSize))
  }

  lemma {:induction false} AllRowsSum(profiles: seq<TxProfile>, traces: seq<Trace>)
    requires |profiles| == |traces|
    requires forall i | 0 <= i < |traces| :: IsProfile(profiles[i], profiles[i].block, traces[i])
    ensures Sum(AllRows(profiles)) == TotalsOf(traces)
    decreases |profiles|
  {
    if profiles != [] {
      var n := |profiles| - 1;
      AllRowsSum(profiles[..n], traces[..n]);
      SumConcat(AllRows(profiles[..n]), profiles[n].opcodes);
      ProfileConserves(profiles[n], profiles[n].block, traces[n]);
    }
  }

  /** The summary's rows account for every step of every profiled trace. */
  lemma SummaryConserves(s: Summary, profiles: seq<TxProfile>, traces: seq<Trace>)
    requires |profiles| == |traces|
    requires forall i | 0 <= i < |traces| :: IsProfile(profiles[i], profiles[i].block, traces[i])
    requires IsSummary(s, profiles)
    ensures SummarySum(s.opcodes) == TotalsOf(traces)
    ensures s.sampled == |traces|
  {
    var rows :| Lists(rows, Accumulate(AllRows(profiles))) && s.opcodes == TopRows(Sort(rows));
    AccumulateKeepsSum(AllRows(profiles), rows);
    SortIs(rows);
    TopRowsKeepSum(Sort(rows));
    AllRowsSum(profiles, traces);
  }

  /** The failed transactions are counted. */
  lemma {:induction false} FailedAreCounted(profiles: seq<TxProfile>)
    ensures FailedCount(profiles) == |set i: nat | i < |profiles| && profiles[i].failed|
    decreases |profiles|
  {
    var failed := set i: nat | i < |profiles| && profiles[i].failed;
    if profiles == [] {
      assert failed == {};
    } else {
      var n := |profiles| - 1;
      FailedAreCounted(profiles[..n]);
      var before := set i: nat | i < n && profiles[..n][i].failed;
      assert failed == before + if profiles[n].failed then {n} else {};
    }
  }

  /** Opcodes beyond the first 64 share one row, the last. */
  lemma SummaryRows(s: Summary, profiles: seq<TxProfile>, i: nat)
    requires IsSummary(s, profiles) && i < |s.opcodes|
    ensures |s.opcodes| <= 65 && (s.opcodes[i].key.Other? <==> i == 64)
  {
    var rows :| Lists(rows, Accumulate(AllRows(profiles))) && s.opcodes == TopRows(Sort(rows));
    TopRowAt(Sort(rows), i);
  }

  lemma TopRowAt(sorted: seq<Row>, i: nat)
    requires i < |TopRows(sorted)|
    ensures TopRows(sorted)[i].key.Op? <==> i < |sorted| && i < TopCount
    ensures i < |sorted| && i < TopCount ==>
      TopRows(sorted)[i] == SummaryRow(Op(sorted[i].op), sorted[i].totals)
  {
  }

  /** An opcode has a row of its own or weighs no more than any that has one. */
  lemma TopRowsAreHeaviest(m: ByOp, rows: seq<Row>, op: OpKey, i: nat)
    requires Lists(rows, m) && op in m
    requires i < |TopRows(Sort(rows))| && TopRows(Sort(rows))[i].key.Op?
    ensures SummaryRow(Op(op), m[op]) in TopRows(Sort(rows))
      || TopRows(Sort(rows))[i].totals.refTime >= m[op].refTime
  {
    SortIs(rows);
    assert Row(op, m[op]) in Sort(rows);
    var k :| 0 <= k < |Sort(rows)| && Sort(rows)[k] == Row(op, m[op]);
    HeavierThanLater(Sort(rows), i, k);
  }

  lemma HeavierThanLater(sorted: seq<Row>, i: nat, k: nat)
    requires Sorted(sorted) && k < |sorted|
    requires i < |TopRows(sorted)| && TopRows(sorted)[i].key.Op?
    ensures SummaryRow(Op(sorted[k].op), sorted[k].totals) in TopRows(sorted)
      || TopRows(sorted)[i].totals.refTime >= sorted[k].totals.refTime
  {
    TopRowAt(sorted, i);
    if k < TopCount {
      TopRowAt(sorted, k);
    } else {
      assert Before(sorted[i], sorted[k]);
    }
  }
}
