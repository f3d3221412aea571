/**
 Per-block metrics of the mined blocks of one platform.

 Rates are exact here, and observation times are milliseconds since the epoch.
 */
module BlockMetrics {
  import opened Common
  import opened Word256

  datatype Substrate = Substrate(
    refTime: nat, maxRefTime: nat, proofSize: nat, maxProofSize: nat,
    preDispatchRefTime: nat, preDispatchProofSize: nat)

  datatype MinedBlock = MinedBlock(
    number: nat, timestamp: nat, observationMillis: nat, transactionHashes: seq<nat>,
    minedGas: nat, gasLimit: nat, substrate: Option<Substrate>, stepCounts: map<string, nat>, pending: nat)

  datatype Usage = Usage(used: nat, limit: nat, fullness: nat)

  /** An amount over a time, per second; nothing when no time has passed. */
  datatype Rate = Rate(amount: nat, millis: nat) {
    function PerSecond(): real {
      if millis == 0 then 0.0 else amount as real / Seconds(millis)
    }
  }

  datatype Rates = Rates(transactions: Rate, gas: Rate, refTime: Option<Rate>, proofSize: Option<Rate>)

  datatype Capacity = Capacity(
    gas: nat, refTime: Option<nat>, proofSize: Option<nat>,
    preDispatchRefTime: Option<nat>, preDispatchProofSize: Option<nat>)

  datatype Metrics = Metrics(
    blockNumber: nat, relativeBlockNumber: nat, timestamp: nat, relativeTimestamp: nat,
    observationSeconds: nat, relativeObservationSeconds: nat,
    transactionCount: nat, stepCount: map<string, nat>,
    rates: Option<Rates>, gas: Usage, refTime: Option<Usage>, proofSize: Option<Usage>,
    capacity: Option<Capacity>, pending: nat)

  // Truncation to 64 bits.
  function Wrapped(x: int): (r: nat)
    ensures 0 <= x < TwoTo64 ==> r == x
  {
    x % TwoTo64
  }

  // ---------------------------------------------------------------- trimming

  predicate IsEmpty(b: MinedBlock) {
    b.transactionHashes == []
  }

  function WithoutLeadingEmpty(blocks: seq<MinedBlock>): seq<MinedBlock> {
    if blocks != [] && IsEmpty(blocks[0]) then WithoutLeadingEmpty(blocks[1..]) else blocks
  }

  function WithoutTrailingEmpty(blocks: seq<MinedBlock>): seq<MinedBlock> {
    if blocks != [] && IsEmpty(blocks[|blocks| - 1]) then WithoutTrailingEmpty(blocks[..|blocks| - 1]) else blocks
  }

  /** The blocks from the first to the last non-empty one. */
  function Trimmed(blocks: seq<MinedBlock>): seq<MinedBlock> {
    WithoutTrailingEmpty(WithoutLeadingEmpty(blocks))
  }

  ghost predicate AllEmpty(blocks: seq<MinedBlock>) {
    forall b <- blocks :: IsEmpty(b)
  }

  lemma {:induction false} LeadingEmpty(lead: seq<MinedBlock>, rest: seq<MinedBlock>)
    requires AllEmpty(lead) && (rest == [] || !IsEmpty(rest[0]))
    ensures WithoutLeadingEmpty(lead + rest) == rest
  {
    if lead == [] {
      assert lead + rest == rest;
    } else {
      assert lead[0] in lead && (lead + rest)[1..] == lead[1..] + rest;
      LeadingEmpty(lead[1..], rest);
    }
  }

  lemma {:induction false} TrailingEmpty(rest: seq<MinedBlock>, tail: seq<MinedBlock>)
    requires AllEmpty(tail) && (rest == [] || !IsEmpty(rest[|rest| - 1]))
    ensures WithoutTrailingEmpty(rest + tail) == rest
    decreases |tail|
  {
    if tail == [] {
      assert rest + tail == rest;
    } else {
      var n := |tail| - 1;
      assert tail[n] in tail && (rest + tail)[..|rest| + n] == rest + tail[..n];
      TrailingEmpty(rest, tail[..n]);
    }
  }

  /** What is trimmed is empty, and the only way to cut the blocks like that. */
  lemma TrimmedIsUnique(lead: seq<MinedBlock>, middle: seq<MinedBlock>, tail: seq<MinedBlock>)
    requires AllEmpty(lead) && AllEmpty(tail)
    requires middle != [] ==> !IsEmpty(middle[0]) && !IsEmpty(middle[|middle| - 1])
    ensures Trimmed(lead + middle + tail) == middle
  {
    if middle == [] {
      assert lead + middle + tail == (lead + tail) + [];
      assert AllEmpty(lead + tail);
      LeadingEmpty(lead + tail, []);
    } else {
      assert lead + middle + tail == lead + (middle + tail);
      LeadingEmpty(lead, middle + tail);
      TrailingEmpty(middle, tail);
    }
  }

  lemma {:induction false} LeadingSplit(blocks: seq<MinedBlock>) returns (lead: seq<MinedBlock>)
    ensures blocks == lead + WithoutLeadingEmpty(blocks) && AllEmpty(lead)
    ensures WithoutLeadingEmpty(blocks) == [] || !IsEmpty(WithoutLeadingEmpty(blocks)[0])
  {
    if blocks != [] && IsEmpty(blocks[0]) {
      var behind := LeadingSplit(blocks[1..]);
      lead := [blocks[0]] + behind;
      assert blocks == [blocks[0]] + (behind + WithoutLeadingEmpty(blocks));
    } else {
      lead := [];
    }
  }

  lemma {:induction false} TrailingSplit(blocks: seq<MinedBlock>) returns (tail: seq<MinedBlock>)
    ensures blocks == WithoutTrailingEmpty(blocks) + tail && AllEmpty(tail)
    ensures var rest := WithoutTrailingEmpty(blocks); rest == [] || !IsEmpty(rest[|rest| - 1])
    decreases |blocks|
  {
    if blocks != [] && IsEmpty(blocks[|blocks| - 1]) {
      var n := |blocks| - 1;
      var before := TrailingSplit(blocks[..n]);
      tail := before + [blocks[n]];
      assert blocks == (WithoutTrailingEmpty(blocks) + before) + [blocks[n]];
    } else {
      tail := [];
    }
  }

  /** Only empty blocks in front and behind are cut off. */
  lemma TrimmedSplit(blocks: seq<MinedBlock>) returns (lead: seq<MinedBlock>, tail: seq<MinedBlock>)
    ensures blocks == lead + Trimmed(blocks) + tail && AllEmpty(lead) && AllEmpty(tail)
    ensures var t := Trimmed(blocks); t != [] ==> !IsEmpty(t[0]) && !IsEmpty(t[|t| - 1])
  {
    lead := LeadingSplit(blocks);
    tail := TrailingSplit(WithoutLeadingEmpty(blocks));
  }

  // ---------------------------------------------------------------- the metrics of one block

  function UsageOf(used: nat, limit: nat): Usage {
    Usage(used, limit, if limit == 0 then 0 else Wrapped(used * 100 / limit))
  }

  // How many more transactions of the given average cost fit; none without transactions.
  function MoreTransactions(used: nat, limit: nat, total: nat, count: nat): nat
    requires count > 0
  {
    var average := total / count;
    if average == 0 then 0 else Wrapped(SaturatingSub(limit, used) / average)
  }

  function CapacityOf(b: MinedBlock): Option<Capacity> {
    var n := |b.transactionHashes|;
    if n == 0 then None
    else
      var gas := MoreTransactions(b.minedGas, b.gasLimit, b.minedGas, n);
      Some(match b.substrate
        case None => Capacity(gas, None, None, None, None)
        case Some(s) => Capacity(gas,
          Some(MoreTransactions(s.refTime, s.maxRefTime, s.refTime, n)),
          Some(MoreTransactions(s.proofSize, s.maxProofSize, s.proofSize, n)),
          Some(MoreTransactions(s.refTime, s.maxRefTime, s.preDispatchRefTime, n)),
          Some(MoreTransactions(s.proofSize, s.maxProofSize, s.preDispatchProofSize, n))))
  }

  function RatesOf(b: MinedBlock, millis: nat): Rates {
    Rates(Rate(|b.transactionHashes|, millis), Rate(b.minedGas, millis),
      if b.substrate.None? then None else Some(Rate(b.substrate.value.refTime, millis)),
      if b.substrate.None? then None else Some(Rate(b.substrate.value.proofSize, millis)))
  }

  /** The metrics of `b`, given the first block retained and when the block before was observed. */
  function MetricsOf(b: MinedBlock, first: MinedBlock, previousMillis: Option<nat>): Metrics {
    var seconds := b.observationMillis / 1000;
    Metrics(
      b.number, Wrapped(b.number - first.number),
      b.timestamp, Wrapped(b.timestamp - first.timestamp),
      seconds, Wrapped(seconds - first.observationMillis / 1000),
      |b.transactionHashes|, b.stepCounts,
      if previousMillis.None? then None
      else Some(RatesOf(b, SaturatingSub(b.observationMillis, previousMillis.value))),
      UsageOf(b.minedGas, b.gasLimit),
      if b.substrate.None? then None else Some(UsageOf(b.substrate.value.refTime, b.substrate.value.maxRefTime)),
      if b.substrate.None? then None else Some(UsageOf(b.substrate.value.proofSize, b.substrate.value.maxProofSize)),
      CapacityOf(b), b.pending)
  }

  function PreviousMillis(trimmed: seq<MinedBlock>, i: nat): Option<nat>
    requires i < |trimmed|
  {
    if i == 0 then None else Some(trimmed[i - 1].observationMillis)
  }

  function AllMetrics(trimmed: seq<MinedBlock>): (r: seq<Metrics>)
    ensures |r| == |trimmed|
  {
    if trimmed == [] then []
    else
      var n := |trimmed| - 1;
      AllMetrics(trimmed[..n]) + [MetricsOf(trimmed[n], trimmed[0], PreviousMillis(trimmed, n))]
  }

  lemma {:induction false} MetricsAt(trimmed: seq<MinedBlock>, i: nat)
    requires i < |trimmed|
    ensures AllMetrics(trimmed)[i] == MetricsOf(trimmed[i], trimmed[0], PreviousMillis(trimmed, i))
    decreases |trimmed|
  {
    var n := |trimmed| - 1;
    if i < n {
      MetricsAt(trimmed[..n], i);
    }
  }

  /** One metrics record for each block from the first to the last non-empty one. */
  method ComputeMetricsInformation(blocks: seq<MinedBlock>) returns (result: seq<Metrics>)
    ensures result == AllMetrics(Trimmed(blocks))
  {
    var trimmed := Trim(blocks);
    result := [];
    var previousMillis: Option<nat> := None;
    var i := 0;
    while i < |trimmed|
      invariant i <= |trimmed|
      invariant previousMillis == if i == 0 then None else Some(trimmed[i - 1].observationMillis)
      invariant result == AllMetrics(trimmed[..i])
    {
      assert trimmed[..i + 1][..i] == trimmed[..i];
      result := result + [MetricsOf(trimmed[i], trimmed[0], previousMillis)];
      previousMillis := Some(trimmed[i].observationMillis);
      i := i + 1;
    }
    assert trimmed[..i] == trimmed;
  }

  method Trim(blocks: seq<MinedBlock>) returns (trimmed: seq<MinedBlock>)
    ensures trimmed == Trimmed(blocks)
  {
    var first := 0;
    while first < |blocks| && IsEmpty(blocks[first])
      invariant first <= |blocks| && AllEmpty(blocks[..first])
    {
      assert blocks[..first + 1] == blocks[..first] + [blocks[first]];
      first := first + 1;
    }
    if first == |blocks| {
      assert blocks == blocks[..first] + [] + [];
      TrimmedIsUnique(blocks[..first], [], []);
      return [];
    }
    var last := |blocks| - 1;
    while IsEmpty(blocks[last])
      invariant first <= last < |blocks| && AllEmpty(blocks[last + 1..])
      decreases last
    {
      assert blocks[last..] == [blocks[last]] + blocks[last + 1..];
      last := last - 1;
    }
    trimmed := blocks[first..last + 1];
    assert blocks == blocks[..first] + trimmed + blocks[last + 1..];
    TrimmedIsUnique(blocks[..first], trimmed, blocks[last + 1..]);
  }

  // ---------------------------------------------------------------- what is conserved

  function TransactionsIn(blocks: seq<MinedBlock>): nat {
    if blocks == [] then 0 else |blocks[0].transactionHashes| + TransactionsIn(blocks[1..])
  }

  function TransactionsCounted(metrics: seq<Metrics>): nat {
    if metrics == [] then 0 else metrics[0].transactionCount + TransactionsCounted(metrics[1..])
  }

  lemma {:induction false} TransactionsConcat(a: seq<MinedBlock>, b: seq<MinedBlock>)
    ensures TransactionsIn(a + b) == TransactionsIn(a) + TransactionsIn(b)
  {
    if a == [] {
      assert a + b == b;
    } else {
      assert (a + b)[1..] == a[1..] + b;
      TransactionsConcat(a[1..], b);
    }
  }

  lemma TransactionsSnoc(blocks: seq<MinedBlock>, b: MinedBlock)
    ensures TransactionsIn(blocks + [b]) == TransactionsIn(blocks) + |b.transactionHashes|
  {
    TransactionsConcat(blocks, [b]);
    assert [b][1..] == [];
  }

  lemma {:induction false} NoTransactionsInEmpty(blocks: seq<MinedBlock>)
    requires AllEmpty(blocks)
    ensures TransactionsIn(blocks) == 0
  {
    if blocks != [] {
      assert blocks[0] in blocks;
      NoTransactionsInEmpty(blocks[1..]);
    }
  }

  lemma {:induction false} CountedSnoc(metrics: seq<Metrics>, m: Metrics)
    ensures TransactionsCounted(metrics + [m]) == TransactionsCounted(metrics) + m.transactionCount
  {
    if metrics != [] {
      assert (metrics + [m])[1..] == metrics[1..] + [m];
      CountedSnoc(metrics[1..], m);
    }
  }

  lemma {:induction false} MetricsCountTransactions(trimmed: seq<MinedBlock>)
    ensures TransactionsCounted(AllMetrics(trimmed)) == TransactionsIn(trimmed)
    decreases |trimmed|
  {
    if trimmed != [] {
      var n := |trimmed| - 1;
      MetricsCountTransactions(trimmed[..n]);
      CountedSnoc(AllMetrics(trimmed[..n]), MetricsOf(trimmed[n], trimmed[0], PreviousMillis(trimmed, n)));
      TransactionsSnoc(trimmed[..n], trimmed[n]);
      assert trimmed == trimmed[..n] + [trimmed[n]];
    }
  }

  /** The counts of the metrics add up to the transactions of all blocks, trimmed ones included. */
  lemma TransactionsConserved(blocks: seq<MinedBlock>)
    ensures TransactionsCounted(AllMetrics(Trimmed(blocks))) == TransactionsIn(blocks)
  {
    var lead, tail := TrimmedSplit(blocks);
    var middle := Trimmed(blocks);
    TransactionsConcat(lead + middle, tail);
    TransactionsConcat(lead, middle);
    NoTransactionsInEmpty(lead);
    NoTransactionsInEmpty(tail);
    MetricsCountTransactions(middle);
  }

  /** There are metrics exactly when some block has a transaction. */
  lemma MetricsUnlessAllEmpty(blocks: seq<MinedBlock>)
    ensures AllMetrics(Trimmed(blocks)) == [] <==> AllEmpty(blocks)
  {
    var lead, tail := TrimmedSplit(blocks);
    if Trimmed(blocks) != [] {
      assert blocks[|lead|] == Trimmed(blocks)[0];
      assert blocks[|lead|] in blocks;
    }
  }

  /** Only the first record lacks rates; the substrate ones also need the substrate's figures. */
  lemma OnlyTheFirstLacksRates(blocks: seq<MinedBlock>, i: nat)
    requires i < |Trimmed(blocks)|
    ensures var m, b := AllMetrics(Trimmed(blocks))[i], Trimmed(blocks)[i];
      && (m.rates.None? <==> i == 0)
      && (i > 0 ==> m.rates.value.refTime.Some? == m.rates.value.proofSize.Some? == b.substrate.Some?)
  {
    MetricsAt(Trimmed(blocks), i);
  }

  // Observation times, each later than the one before.
  predicate ObservedInOrder(blocks: seq<MinedBlock>) {
    forall i | 0 < i < |blocks| :: blocks[i - 1].observationMillis < blocks[i].observationMillis
  }

  function Seconds(millis: nat): real {
    millis as real / 1000.0
  }

  function MillisBefore(trimmed: seq<MinedBlock>, i: nat): nat
    requires 0 < i < |trimmed|
  {
    SaturatingSub(trimmed[i].observationMillis, trimmed[i - 1].observationMillis)
  }

  // What a rate comes to over its own time.
  function Amount(rate: Rate): real {
    rate.PerSecond() * Seconds(rate.millis)
  }

  // What the rate of record `i` comes to over the time since the block before.
  function ByRate(trimmed: seq<MinedBlock>, i: nat): real
    requires 0 < i < |trimmed|
  {
    MetricsAt(trimmed, i);
    Amount(AllMetrics(trimmed)[i].rates.value.transactions)
  }

  function TransactionsByRate(trimmed: seq<MinedBlock>, n: nat): real
    requires n <= |trimmed|
  {
    if n <= 1 then 0.0 else TransactionsByRate(trimmed, n - 1) + ByRate(trimmed, n - 1)
  }

  lemma ByRateIsCount(trimmed: seq<MinedBlock>, i: nat)
    requires 0 < i < |trimmed| && ObservedInOrder(trimmed)
    ensures ByRate(trimmed, i) == |trimmed[i].transactionHashes| as real
  {
    assert trimmed[i - 1].observationMillis < trimmed[i].observationMillis;
    TransactionRate(trimmed, i);
    RateTimesTime(Rate(|trimmed[i].transactionHashes|, MillisBefore(trimmed, i)));
  }

  lemma TransactionRate(trimmed: seq<MinedBlock>, i: nat)
    requires 0 < i < |trimmed|
    ensures AllMetrics(trimmed)[i].rates.Some?
    ensures AllMetrics(trimmed)[i].rates.value.transactions
         == Rate(|trimmed[i].transactionHashes|, MillisBefore(trimmed, i))
  {
    MetricsAt(trimmed, i);
  }

  /** Over the time each spans, the rates give back the transactions behind the first block. */
  lemma {:induction false} RatesConserveTransactions(trimmed: seq<MinedBlock>, n: nat)
    requires 0 < n <= |trimmed| && ObservedInOrder(trimmed)
    ensures TransactionsByRate(trimmed, n) == TransactionsIn(trimmed[1..n]) as real
    decreases n
  {
    if n > 1 {
      RatesConserveTransactions(trimmed, n - 1);
      ByRateIsCount(trimmed, n - 1);
      TransactionsSnoc(trimmed[1..n - 1], trimmed[n - 1]);
      assert trimmed[1..n] == trimmed[1..n - 1] + [trimmed[n - 1]];
    }
  }

  lemma RateTimesTime(rate: Rate)
    requires rate.millis > 0
    ensures Amount(rate) == rate.amount as real
  {
    var t := Seconds(rate.millis);
    assert t > 0.0;
    assert (rate.amount as real / t) * t == rate.amount as real;
  }

  /** The capacity is the largest number of average transactions that still fit. */
  lemma CapacityFits(used: nat, limit: nat, total: nat, count: nat)
    requires count > 0 && used <= limit && total / count > 0
    requires (limit - used) / (total / count) < TwoTo64
    ensures var more, average := MoreTransactions(used, limit, total, count), total / count;
      used + more * average <= limit < used + (more + 1) * average
  {
    var average := total / count;
    var more := (limit - used) / average;
    QuotientBounds(limit - used, average);
    assert (more + 1) * average == more * average + average;
  }

  /** There is room for the average transaction, and the capacity for it fits 64 bits. */
  predicate HasRoom(used: nat, limit: nat, total: nat, count: nat)
    requires count > 0
  {
    used <= limit && total / count > 0 && (limit - used) / (total / count) < TwoTo64
  }

  predicate LargestFit(used: nat, limit: nat, average: nat, more: nat) {
    used + more * average <= limit < used + (more + 1) * average
  }

  /** Each capacity of a block is the largest number of transactions of the average its own resource
      had in the block, by use or by pre-dispatch weight, that still fits the resource. */
  lemma BlockCapacities(b: MinedBlock)
    requires b.transactionHashes != []
    ensures var n := |b.transactionHashes|;
      && CapacityOf(b).Some?
      && (HasRoom(b.minedGas, b.gasLimit, b.minedGas, n) ==>
            LargestFit(b.minedGas, b.gasLimit, b.minedGas / n, CapacityOf(b).value.gas))
    ensures b.substrate.Some? ==>
      var n, s, c := |b.transactionHashes|, b.substrate.value, CapacityOf(b).value;
      && c.refTime.Some? && c.proofSize.Some? && c.preDispatchRefTime.Some? && c.preDispatchProofSize.Some?
      && (HasRoom(s.refTime, s.maxRefTime, s.refTime, n) ==>
            LargestFit(s.refTime, s.maxRefTime, s.refTime / n, c.refTime.value))
      && (HasRoom(s.proofSize, s.maxProofSize, s.proofSize, n) ==>
            LargestFit(s.proofSize, s.maxProofSize, s.proofSize / n, c.proofSize.value))
      && (HasRoom(s.refTime, s.maxRefTime, s.preDispatchRefTime, n) ==>
            LargestFit(s.refTime, s.maxRefTime, s.preDispatchRefTime / n, c.preDispatchRefTime.value))
      && (HasRoom(s.proofSize, s.maxProofSize, s.preDispatchProofSize, n) ==>
            LargestFit(s.proofSize, s.maxProofSize, s.preDispatchProofSize / n, c.preDispatchProofSize.value))
  {
    var n := |b.transactionHashes|;
    CapacityIfRoom(b.minedGas, b.gasLimit, b.minedGas, n);
    if b.substrate.Some? {
      var s := b.substrate.value;
      CapacityIfRoom(s.refTime, s.maxRefTime, s.refTime, n);
      CapacityIfRoom(s.proofSize, s.maxProofSize, s.proofSize, n);
      CapacityIfRoom(s.refTime, s.maxRefTime, s.preDispatchRefTime, n);
      CapacityIfRoom(s.proofSize, s.maxProofSize, s.preDispatchProofSize, n);
    }
  }

  lemma CapacityIfRoom(used: nat, limit: nat, total: nat, count: nat)
    requires count > 0
    ensures HasRoom(used, limit, total, count) ==>
      LargestFit(used, limit, total / count, MoreTransactions(used, limit, total, count))
  {
    if HasRoom(used, limit, total, count) {
      CapacityFits(used, limit, total, count);
    }
  }

  /** A block over its limit, or with an average of nothing, has no capacity left. */
  lemma NoCapacity(used: nat, limit: nat, total: nat, count: nat)
    requires count > 0 && (used >= limit || total / count == 0)
    ensures MoreTransactions(used, limit, total, count) == 0
  {
    if total / count > 0 {
      DivisionIs(0, total / count, 0, 0);
    }
  }

  /** The fullness is the percentage used, rounded down. */
  lemma FullnessIsPercentage(used: nat, limit: nat)
    requires limit > 0 && used * 100 / limit < TwoTo64
    ensures var fullness := UsageOf(used, limit).fullness;
      fullness * limit <= used * 100 < (fullness + 1) * limit
  {
    QuotientBounds(used * 100, limit);
    var q := used * 100 / limit;
    assert (q + 1) * limit == q * limit + limit;
  }

  // A usage of `used` out of `limit`, with the percentage rounded down.
  predicate Uses(u: Usage, used: nat, limit: nat) {
    && u.used == used && u.limit == limit
    && (limit == 0 ==> u.fullness == 0)
    && (limit > 0 && used * 100 < limit * TwoTo64 ==> u.fullness * limit <= used * 100 < (u.fullness + 1) * limit)
  }

  lemma UsageUses(used: nat, limit: nat)
    ensures Uses(UsageOf(used, limit), used, limit)
  {
    if limit > 0 && used * 100 < limit * TwoTo64 {
      QuotientBounds(used * 100, limit);
      FullnessIsPercentage(used, limit);
    }
  }

  // Over its time the rate comes to `amount`; no time is a rate of zero.
  predicate Gives(r: Rate, amount: nat, millis: nat) {
    if millis == 0 then r.PerSecond() == 0.0 else r.PerSecond() * Seconds(millis) == amount as real
  }

  lemma RateGives(amount: nat, millis: nat)
    ensures Gives(Rate(amount, millis), amount, millis)
  {
    if millis > 0 {
      RateTimesTime(Rate(amount, millis));
    }
  }

  /** A record is about its block: its numbers and times, with what lies between it and the first block;
      what it used of the gas and of the substrate's two resources; and, behind the first, what it did
      over the time since the block before. */
  lemma MetricsDescribeBlock(blocks: seq<MinedBlock>, i: nat)
    requires i < |Trimmed(blocks)|
    ensures |AllMetrics(Trimmed(blocks))| == |Trimmed(blocks)|
    ensures
      var m, b, first := AllMetrics(Trimmed(blocks))[i], Trimmed(blocks)[i], Trimmed(blocks)[0];
      && m.blockNumber == b.number && m.timestamp == b.timestamp && m.pending == b.pending
      && m.transactionCount == |b.transactionHashes| && m.stepCount == b.stepCounts
      && m.observationSeconds * 1000 <= b.observationMillis < m.observationSeconds * 1000 + 1000
      && (0 <= b.number - first.number < TwoTo64 ==> m.relativeBlockNumber + first.number == b.number)
      && (0 <= b.timestamp - first.timestamp < TwoTo64 ==> m.relativeTimestamp + first.timestamp == b.timestamp)
      && (0 <= m.observationSeconds - first.observationMillis / 1000 < TwoTo64 ==>
            m.relativeObservationSeconds + first.observationMillis / 1000 == m.observationSeconds)
    ensures
      var m, b := AllMetrics(Trimmed(blocks))[i], Trimmed(blocks)[i];
      && Uses(m.gas, b.minedGas, b.gasLimit)
      && m.refTime.Some? == m.proofSize.Some? == b.substrate.Some?
      && (b.substrate.Some? ==>
            && Uses(m.refTime.value, b.substrate.value.refTime, b.substrate.value.maxRefTime)
            && Uses(m.proofSize.value, b.substrate.value.proofSize, b.substrate.value.maxProofSize))
      && m.capacity == CapacityOf(b)
    ensures i > 0 ==>
      var m, b, t := AllMetrics(Trimmed(blocks))[i], Trimmed(blocks)[i], MillisBefore(Trimmed(blocks), i);
      && m.rates.Some?
      && Gives(m.rates.value.transactions, |b.transactionHashes|, t) && Gives(m.rates.value.gas, b.minedGas, t)
      && m.rates.value.refTime.Some? == m.rates.value.proofSize.Some? == b.substrate.Some?
      && (b.substrate.Some? ==>
            && Gives(m.rates.value.refTime.value, b.substrate.value.refTime, t)
            && Gives(m.rates.value.proofSize.value, b.substrate.value.proofSize, t))
  {
    MetricsAt(Trimmed(blocks), i);
    var b := Trimmed(blocks)[i];
    UsageUses(b.minedGas, b.gasLimit);
    if b.substrate.Some? {
      UsageUses(b.substrate.value.refTime, b.substrate.value.maxRefTime);
      UsageUses(b.substrate.value.proofSize, b.substrate.value.maxProofSize);
    }
    if i > 0 {
      var t := MillisBefore(Trimmed(blocks), i);
      RateGives(|b.transactionHashes|, t);
      RateGives(b.minedGas, t);
      if b.substrate.Some? {
        RateGives(b.substrate.value.refTime, t);
        RateGives(b.substrate.value.proofSize, t);
      }
    }
  }

  // ---------------------------------------------------------------- all platforms

  predicate SortedByNumber(blocks: seq<MinedBlock>) {
    forall i, j | 0 <= i < j < |blocks| :: blocks[i].number <= blocks[j].number
  }

  function Inserted(b: MinedBlock, blocks: seq<MinedBlock>): seq<MinedBlock> {
    if blocks == [] || b.number <= blocks[0].number then [b] + blocks
    else [blocks[0]] + Inserted(b, blocks[1..])
  }

  /** The blocks by number, those of one number in their order. */
  function ByNumber(blocks: seq<MinedBlock>): seq<MinedBlock> {
    if blocks == [] then [] else Inserted(blocks[0], ByNumber(blocks[1..]))
  }

  function OfNumber(blocks: seq<MinedBlock>, number: nat): seq<MinedBlock> {
    if blocks == [] then []
    else (if blocks[0].number == number then [blocks[0]] else []) + OfNumber(blocks[1..], number)
  }

  lemma {:induction false} InsertedIsPermutation(b: MinedBlock, blocks: seq<MinedBlock>)
    ensures multiset(Inserted(b, blocks)) == multiset(blocks) + multiset{b}
  {
    if blocks != [] && b.number > blocks[0].number {
      InsertedIsPermutation(b, blocks[1..]);
      assert blocks == [blocks[0]] + blocks[1..];
    }
  }

  lemma {:induction false} InsertedIsSorted(b: MinedBlock, blocks: seq<MinedBlock>)
    requires SortedByNumber(blocks)
    ensures SortedByNumber(Inserted(b, blocks))
  {
    if blocks != [] && b.number > blocks[0].number {
      var rest := Inserted(b, blocks[1..]);
      InsertedIsSorted(b, blocks[1..]);
      InsertedIsPermutation(b, blocks[1..]);
      forall x | x in rest
        ensures blocks[0].number <= x.number
      {
        assert x in multiset(rest);
        assert x == b || x in blocks[1..];
      }
    }
  }

  lemma {:induction false} InsertedIsStable(b: MinedBlock, blocks: seq<MinedBlock>, number: nat)
    ensures OfNumber(Inserted(b, blocks), number) == OfNumber([b] + blocks, number)
  {
    assert ([b] + blocks)[1..] == blocks;
    if blocks != [] && b.number > blocks[0].number {
      var rest := Inserted(b, blocks[1..]);
      InsertedIsStable(b, blocks[1..], number);
      assert ([b] + blocks[1..])[1..] == blocks[1..];
      assert ([blocks[0]] + rest)[1..] == rest;
    }
  }

  /** Sorting keeps the blocks and the order of equal numbers. */
  lemma {:induction false} ByNumberIsStableSort(blocks: seq<MinedBlock>, number: nat)
    ensures SortedByNumber(ByNumber(blocks))
    ensures multiset(ByNumber(blocks)) == multiset(blocks)
    ensures OfNumber(ByNumber(blocks), number) == OfNumber(blocks, number)
  {
    if blocks != [] {
      ByNumberIsStableSort(blocks[1..], number);
      InsertedIsPermutation(blocks[0], ByNumber(blocks[1..]));
      InsertedIsSorted(blocks[0], ByNumber(blocks[1..]));
      InsertedIsStable(blocks[0], ByNumber(blocks[1..]), number);
      assert blocks == [blocks[0]] + blocks[1..];
      assert ([blocks[0]] + ByNumber(blocks[1..]))[1..] == ByNumber(blocks[1..]);
    }
  }

  /** With the blocks sorted, no relative block number wraps around. */
  lemma RelativeNumbersDoNotWrap(blocks: seq<MinedBlock>, i: nat)
    requires forall b <- blocks :: b.number < TwoTo64
    requires i < |Trimmed(ByNumber(blocks))|
    ensures var t := Trimmed(ByNumber(blocks));
      AllMetrics(t)[i].relativeBlockNumber == t[i].number - t[0].number
  {
    var sorted := ByNumber(blocks);
    var lead, tail := TrimmedSplit(sorted);
    var t := Trimmed(sorted);
    ByNumberIsStableSort(blocks, 0);
    MetricsAt(t, i);
    assert sorted[|lead|] == t[0] && sorted[|lead| + i] == t[i];
    assert t[i] in multiset(sorted);
    assert t[i] in blocks;
  }

  type PerPlatform<V> = map<string, V>

  /** What one execution report holds of each platform. */
  class ExecutionReport {
    var minedBlockInformation: PerPlatform<seq<MinedBlock>>
    var metricsInformation: PerPlatform<seq<Metrics>>

    /** Sorts the blocks of every platform and adds the metrics of those with any transaction. */
    method HandleMetricsComputation()
      modifies this
      ensures minedBlockInformation == SortedBut(old(minedBlockInformation), {})
      ensures metricsInformation == old(metricsInformation) + MetricsBut(old(minedBlockInformation), {})
    {
      ghost var mined, metrics := minedBlockInformation, metricsInformation;
      var todo := minedBlockInformation.Keys;
      NothingDone(mined);
      while todo != {}
        invariant todo <= mined.Keys
        invariant minedBlockInformation == SortedBut(mined, todo)
        invariant metricsInformation == metrics + MetricsBut(mined, todo)
      {
        var p :| p in todo;
        OneMore(mined, todo, ByNumber, PlatformMetrics, p);
        AddedLast(metrics, MetricsBut(mined, todo), p, PlatformMetrics(mined[p]));
        HandlePlatform(p);
        todo := todo - {p};
      }
    }

    method HandlePlatform(platform: string)
      requires platform in minedBlockInformation
      modifies this
      ensures var blocks := old(minedBlockInformation)[platform];
        && minedBlockInformation == old(minedBlockInformation)[platform := ByNumber(blocks)]
        && metricsInformation == if PlatformMetrics(blocks) == [] then old(metricsInformation)
             else old(metricsInformation)[platform := PlatformMetrics(blocks)]
    {
      var sorted := ByNumber(minedBlockInformation[platform]);
      minedBlockInformation := minedBlockInformation[platform := sorted];
      var metrics := ComputeMetricsInformation(sorted);
      if metrics != [] {
        metricsInformation := metricsInformation[platform := metrics];
      }
    }
  }

  function PlatformMetrics(blocks: seq<MinedBlock>): seq<Metrics> {
    AllMetrics(Trimmed(ByNumber(blocks)))
  }

  // `f` of every entry but those in `todo`, which stay as they are or are left out.
  function MapBut<V>(m: PerPlatform<V>, todo: set<string>, f: V -> V): PerPlatform<V> {
    map p | p in m :: if p in todo then m[p] else f(m[p])
  }

  function NonEmptyBut<V, W>(m: PerPlatform<V>, todo: set<string>, f: V -> seq<W>): PerPlatform<seq<W>> {
    map p | p in m && p !in todo && f(m[p]) != [] :: f(m[p])
  }

  function SortedBut(mined: PerPlatform<seq<MinedBlock>>, todo: set<string>): PerPlatform<seq<MinedBlock>> {
    MapBut(mined, todo, ByNumber)
  }

  function MetricsBut(mined: PerPlatform<seq<MinedBlock>>, todo: set<string>): PerPlatform<seq<Metrics>> {
    NonEmptyBut(mined, todo, PlatformMetrics)
  }

  lemma OneMore<V, W>(m: PerPlatform<V>, todo: set<string>, f: V -> V, g: V -> seq<W>, p: string)
    requires p in todo && todo <= m.Keys
    ensures MapBut(m, todo, f)[p] == m[p]
    ensures MapBut(m, todo - {p}, f) == MapBut(m, todo, f)[p := f(m[p])]
    ensures NonEmptyBut(m, todo - {p}, g)
         == if g(m[p]) == [] then NonEmptyBut(m, todo, g) else NonEmptyBut(m, todo, g)[p := g(m[p])]
  {
  }

  lemma AddedLast<V>(a: PerPlatform<V>, b: PerPlatform<V>, p: string, v: V)
    ensures a + b[p := v] == (a + b)[p := v]
  {
  }

  lemma NothingDone(mined: PerPlatform<seq<MinedBlock>>)
    ensures SortedBut(mined, mined.Keys) == mined
    ensures MetricsBut(mined, mined.Keys) == map[]
  {
  }

  /** Which platforms get metrics, and that no transaction is lost or added by sorting and trimming. */
  lemma MetricsOfPlatforms(mined: PerPlatform<seq<MinedBlock>>, p: string)
    ensures p in MetricsBut(mined, {}) <==> p in mined && exists b <- mined[p] :: !IsEmpty(b)
    ensures p in MetricsBut(mined, {}) ==> TransactionsCounted(MetricsBut(mined, {})[p]) == TransactionsIn(mined[p])
  {
    if p in mined {
      var blocks := mined[p];
      ByNumberIsStableSort(blocks, 0);
      MetricsUnlessAllEmpty(ByNumber(blocks));
      TransactionsConserved(ByNumber(blocks));
      SortingKeepsTransactions(blocks);
      assert forall b :: b in blocks <==> b in multiset(blocks);
      assert forall b :: b in ByNumber(blocks) <==> b in multiset(ByNumber(blocks));
    }
  }

  lemma {:induction false} InsertedTransactions(b: MinedBlock, blocks: seq<MinedBlock>)
    ensures TransactionsIn(Inserted(b, blocks)) == |b.transactionHashes| + TransactionsIn(blocks)
  {
    if blocks != [] && b.number > blocks[0].number {
      InsertedTransactions(b, blocks[1..]);
    }
  }

  lemma {:induction false} SortingKeepsTransactions(blocks: seq<MinedBlock>)
    ensures TransactionsIn(ByNumber(blocks)) == TransactionsIn(blocks)
  {
    if blocks != [] {
      SortingKeepsTransactions(blocks[1..]);
      InsertedTransactions(blocks[0], ByNumber(blocks[1..]));
    }
  }
}
