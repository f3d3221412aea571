/**
 The benchmark watcher: one task takes events from a channel, another watches blocks until all
 submitted transactions have been seen in one.

 A step is a stretch between two awaits.  The tasks share the set of transactions to watch for and
 the flag saying that submission is complete.
 */
module Watcher {
  import opened Common

  type Hash = nat

  datatype Event =
    | StartEvent(ignoreBlockBefore: nat)
    | SubmittedTransaction(hash: Hash)
    | AllTransactionsSubmitted

  datatype Block = Block(number: nat, hashes: seq<Hash>)

  datatype Consumer =
    | AwaitingStart
    | Receiving
    | Inserting(hash: Hash)   // taken from the channel, awaiting the lock of the set
    | Completing              // awaiting the lock of the flag
    | ConsumerDone

  datatype Outcome = AllObserved | StreamEnded | TooManyEmpty

  datatype BlockTask =
    | NotStarted
    | Waiting
    | Counting(block: Block)  // its hashes are recorded; awaiting the lock of the set
    | ReadingFlag
    | Checking                // the flag was set; awaiting the lock of the set
    | Ended(outcome: Outcome)

  /** `sent` is all that was ever sent to the channel, of which `taken` events have been received;
      `start` is the index of the event that started the watcher; `arrived` is all blocks that the
      subscription delivered. */
  datatype State = State(
    sent: seq<Event>, closed: bool, taken: nat, start: nat,
    consumer: Consumer, blockTask: BlockTask,
    ignoreBefore: nat, completed: bool, watched: set<Hash>,
    arrived: seq<Block>, observedHashes: set<Hash>, observedBlocks: seq<Block>, emptyBlocks: nat)

  datatype Action =
    | Send(event: Event)
    | Close                   // the last sender is gone
    | TakeWhileAwaitingStart
    | Take
    | ChannelEnds
    | Insert
    | SetCompleted
    | Arrive(block: Block)
    | StreamEnds
    | CountBlock
    | ReadFlag
    | CheckObserved

  const EmptyBlockLimit: nat := 30

  function Init(): State {
    State([], false, 0, 0, AwaitingStart, NotStarted, 0, false, {}, [], {}, [], 0)
  }

  predicate Enabled(s: State, a: Action) {
    match a
    case Send(_) => !s.closed
    case Close => !s.closed
    case TakeWhileAwaitingStart => s.consumer.AwaitingStart? && s.taken < |s.sent|
    case Take => s.consumer.Receiving? && s.taken < |s.sent|
    case ChannelEnds => s.consumer.Receiving? && s.closed && s.taken >= |s.sent|
    case Insert => s.consumer.Inserting?
    case SetCompleted => s.consumer.Completing?
    case Arrive(_) => s.blockTask.Waiting?
    case StreamEnds => s.blockTask.Waiting?
    case CountBlock => s.blockTask.Counting?
    case ReadFlag => s.blockTask.ReadingFlag?
    case CheckObserved => s.blockTask.Checking?
  }

  predicate OfConsumer(a: Action) {
    a.TakeWhileAwaitingStart? || a.Take? || a.ChannelEnds? || a.Insert? || a.SetCompleted?
  }

  predicate OfBlockTask(a: Action) {
    a.Arrive? || a.StreamEnds? || a.CountBlock? || a.ReadFlag? || a.CheckObserved?
  }

  function Hashes(b: Block): set<Hash> {
    set h <- b.hashes
  }

  function Started(s: State): State
    requires s.taken < |s.sent|
  {
    var t := s.(taken := s.taken + 1);
    if !s.sent[s.taken].StartEvent? then t
    else t.(start := s.taken, ignoreBefore := s.sent[s.taken].ignoreBlockBefore, consumer := Receiving, blockTask := Waiting)
  }

  function Taken(s: State): State
    requires s.taken < |s.sent|
  {
    var t := s.(taken := s.taken + 1);
    match s.sent[s.taken]
    case StartEvent(_) => t
    case SubmittedTransaction(hash) => t.(consumer := Inserting(hash))
    case AllTransactionsSubmitted => t.(consumer := Completing)
  }

  function Arrived(s: State, b: Block): State {
    var t := s.(arrived := s.arrived + [b]);
    if b.number < s.ignoreBefore then t
    else t.(observedHashes := s.observedHashes + Hashes(b), blockTask := Counting(b))
  }

  function Counted(s: State): State
    requires s.blockTask.Counting?
  {
    var n := if s.blockTask.block.hashes == [] then s.emptyBlocks + 1 else 0;
    if n >= EmptyBlockLimit then s.(emptyBlocks := n, blockTask := Ended(TooManyEmpty))
    else s.(emptyBlocks := n, observedBlocks := s.observedBlocks + [s.blockTask.block], blockTask := ReadingFlag)
  }

  function Apply(s: State, a: Action): State
    requires Enabled(s, a)
  {
    match a
    case Send(event) => s.(sent := s.sent + [event])
    case Close => s.(closed := true)
    case TakeWhileAwaitingStart => Started(s)
    case Take => Taken(s)
    case ChannelEnds => s.(consumer := ConsumerDone)
    case Insert => s.(watched := s.watched + {s.consumer.hash}, consumer := Receiving)
    case SetCompleted => s.(completed := true, consumer := ConsumerDone)
    case Arrive(block) => Arrived(s, block)
    case StreamEnds => s.(blockTask := Ended(StreamEnded))
    case CountBlock => Counted(s)
    case ReadFlag => s.(blockTask := if s.completed then Checking else Waiting)
    case CheckObserved => s.(blockTask := if s.watched <= s.observedHashes then Ended(AllObserved) else Waiting)
  }

  predicate Legal(s: State, run: seq<Action>)
    decreases |run|
  {
    run == [] || (Enabled(s, run[0]) && Legal(Apply(s, run[0]), run[1..]))
  }

  function Exec(s: State, run: seq<Action>): State
    requires Legal(s, run)
    decreases |run|
  {
    if run == [] then s else Exec(Apply(s, run[0]), run[1..])
  }

  // ---------------------------------------------------------------- what the tasks have seen

  function Submitted(events: seq<Event>): set<Hash> {
    set e <- events | e.SubmittedTransaction? :: e.hash
  }

  // The delivered blocks that are not ignored.
  function Kept(blocks: seq<Block>, ignoreBefore: nat): seq<Block> {
    if blocks == [] then []
    else
      var n := |blocks| - 1;
      var init := Kept(blocks[..n], ignoreBefore);
      if blocks[n].number < ignoreBefore then init else init + [blocks[n]]
  }

  function TrailingEmpty(blocks: seq<Block>): nat {
    if blocks == [] then 0
    else
      var n := |blocks| - 1;
      if blocks[n].hashes != [] then 0 else TrailingEmpty(blocks[..n]) + 1
  }

  function HashesOf(blocks: seq<Block>): set<Hash> {
    if blocks == [] then {} else HashesOf(blocks[..|blocks| - 1]) + Hashes(blocks[|blocks| - 1])
  }

  // ---------------------------------------------------------------- invariants

  // The channel is read in order, from the first start event to the first completion event.
  ghost predicate ReadInv(s: State) {
    && s.taken <= |s.sent|
    && (s.consumer.AwaitingStart? <==> s.blockTask.NotStarted?)
    && (s.consumer.AwaitingStart? ==>
          && s.watched == {} && !s.completed && s.arrived == []
          && forall i: nat | i < s.taken :: !s.sent[i].StartEvent?)
    && (!s.consumer.AwaitingStart? ==>
          && s.start < s.taken
          && s.sent[s.start] == StartEvent(s.ignoreBefore)
          && forall i: nat | i < s.start :: !s.sent[i].StartEvent?)
  }

  function Pending(c: Consumer): set<Hash> {
    if c.Inserting? then {c.hash} else {}
  }

  // The events received since the start event.
  function SinceStart(s: State): seq<Event> {
    if s.start < s.taken <= |s.sent| then s.sent[s.start + 1..s.taken] else []
  }

  ghost predicate WatchedInv(s: State) {
    !s.consumer.AwaitingStart? ==> s.watched + Pending(s.consumer) == Submitted(SinceStart(s))
  }

  // Nothing is read after the completion event.
  ghost predicate CompletionInv(s: State) {
    && (s.completed ==> s.consumer.ConsumerDone?)
    && (s.start < s.taken <= |s.sent| && !s.consumer.AwaitingStart? ==>
          if s.completed || s.consumer.Completing? then
            && s.start < s.taken - 1 && s.sent[s.taken - 1].AllTransactionsSubmitted?
            && forall i: nat | s.start < i < s.taken - 1 :: !s.sent[i].AllTransactionsSubmitted?
          else
            forall i: nat | s.start < i < s.taken :: !s.sent[i].AllTransactionsSubmitted?)
  }

  function KeptBlocks(s: State): seq<Block> {
    Kept(s.arrived, s.ignoreBefore)
  }

  // The blocks kept that are recorded: all but the one being counted or given up at.
  function Recorded(s: State): seq<Block> {
    var kept := KeptBlocks(s);
    if kept != [] && (s.blockTask.Counting? || s.blockTask == Ended(TooManyEmpty)) then kept[..|kept| - 1] else kept
  }

  ghost predicate BlocksInv(s: State) {
    && s.observedHashes == HashesOf(KeptBlocks(s))
    && s.observedBlocks == Recorded(s)
    && TrailingEmpty(s.observedBlocks) < EmptyBlockLimit
    && (s.blockTask.Counting? ==> KeptBlocks(s) == s.observedBlocks + [s.blockTask.block])
    && (s.blockTask == Ended(TooManyEmpty) ==> TrailingEmpty(KeptBlocks(s)) == EmptyBlockLimit)
    && (s.blockTask != Ended(TooManyEmpty) ==> s.emptyBlocks == TrailingEmpty(s.observedBlocks))
  }

  ghost predicate ExitInv(s: State) {
    && (s.blockTask.Checking? ==> s.completed)
    && (s.blockTask == Ended(AllObserved) ==> s.completed && s.watched <= s.observedHashes)
  }

  ghost predicate Inv(s: State) {
    ReadInv(s) && WatchedInv(s) && CompletionInv(s) && BlocksInv(s) && ExitInv(s)
  }

  lemma StepKeepsReadInv(s: State, a: Action)
    requires ReadInv(s) && Enabled(s, a)
    ensures ReadInv(Apply(s, a))
  {
  }

  lemma SubmittedSnoc(events: seq<Event>, e: Event)
    ensures Submitted(events + [e]) == Submitted(events) + (if e.SubmittedTransaction? then {e.hash} else {})
  {
  }

  // Outside the start loop the start event stays and what was received is not changed.
  lemma ReadingGrows(s: State, a: Action)
    requires ReadInv(s) && Enabled(s, a) && !s.consumer.AwaitingStart?
    ensures var t := Apply(s, a);
      && t.start == s.start && t.taken == (if a.Take? then s.taken + 1 else s.taken)
      && t.sent == (if a.Send? then s.sent + [a.event] else s.sent)
  {
  }

  lemma SliceOfLonger(events: seq<Event>, e: Event, i: nat, j: nat)
    requires i <= j <= |events|
    ensures (events + [e])[i..j] == events[i..j]
    ensures j < |events| ==> events[i..j + 1] == events[i..j] + [events[j]]
  {
  }

  lemma SinceStartGrows(s: State, a: Action)
    requires ReadInv(s) && Enabled(s, a) && !s.consumer.AwaitingStart?
    ensures SinceStart(Apply(s, a)) == SinceStart(s) + (if a.Take? then [s.sent[s.taken]] else [])
  {
    ReadingGrows(s, a);
    SliceOfLonger(s.sent, if a.Send? then a.event else AllTransactionsSubmitted, s.start + 1, s.taken);
  }

  lemma WatchedChanges(s: State, a: Action)
    requires Enabled(s, a) && !s.consumer.AwaitingStart?
    ensures var t := Apply(s, a);
      t.watched + Pending(t.consumer) == s.watched + Pending(s.consumer)
        + (if a.Take? && s.sent[s.taken].SubmittedTransaction? then {s.sent[s.taken].hash} else {})
  {
  }

  lemma StepKeepsWatchedInv(s: State, a: Action)
    requires ReadInv(s) && WatchedInv(s) && Enabled(s, a)
    ensures WatchedInv(Apply(s, a))
  {
    if !s.consumer.AwaitingStart? {
      SinceStartGrows(s, a);
      WatchedChanges(s, a);
      if a.Take? {
        SubmittedSnoc(SinceStart(s), s.sent[s.taken]);
      }
    }
  }

  lemma StepKeepsCompletionInv(s: State, a: Action)
    requires ReadInv(s) && CompletionInv(s) && Enabled(s, a)
    ensures CompletionInv(Apply(s, a))
  {
  }

  lemma KeptSnoc(blocks: seq<Block>, b: Block, ignoreBefore: nat)
    ensures Kept(blocks + [b], ignoreBefore)
         == Kept(blocks, ignoreBefore) + (if b.number < ignoreBefore then [] else [b])
  {
    assert (blocks + [b])[..|blocks|] == blocks;
  }

  lemma RecordedSnoc(blocks: seq<Block>, b: Block)
    ensures TrailingEmpty(blocks + [b]) == if b.hashes == [] then TrailingEmpty(blocks) + 1 else 0
    ensures HashesOf(blocks + [b]) == HashesOf(blocks) + Hashes(b)
    ensures (blocks + [b])[..|blocks|] == blocks
  {
    assert (blocks + [b])[..|blocks|] == blocks;
  }

  lemma ArriveKeepsBlocksInv(s: State, b: Block)
    requires BlocksInv(s) && s.blockTask.Waiting?
    ensures BlocksInv(Arrived(s, b))
  {
    KeptSnoc(s.arrived, b, s.ignoreBefore);
    RecordedSnoc(KeptBlocks(s), b);
  }

  lemma CountKeepsBlocksInv(s: State)
    requires BlocksInv(s) && s.blockTask.Counting?
    ensures BlocksInv(Counted(s))
  {
    RecordedSnoc(s.observedBlocks, s.blockTask.block);
    assert Recorded(s) == s.observedBlocks;
    assert KeptBlocks(Counted(s)) == KeptBlocks(s);
  }

  lemma StepKeepsBlocksInv(s: State, a: Action)
    requires ReadInv(s) && BlocksInv(s) && Enabled(s, a)
    ensures BlocksInv(Apply(s, a))
  {
    if a.Arrive? {
      ArriveKeepsBlocksInv(s, a.block);
    } else if a.CountBlock? {
      CountKeepsBlocksInv(s);
    } else {
      OthersKeepBlocksInv(s, Apply(s, a));
    }
  }

  predicate Unrecorded(b: BlockTask) {
    b.Counting? || b == Ended(TooManyEmpty)
  }

  lemma OthersKeepBlocksInv(s: State, t: State)
    requires BlocksInv(s)
    requires t.arrived == s.arrived && (t.ignoreBefore == s.ignoreBefore || s.arrived == [])
    requires t.observedHashes == s.observedHashes && t.observedBlocks == s.observedBlocks && t.emptyBlocks == s.emptyBlocks
    requires t.blockTask == s.blockTask || (!Unrecorded(s.blockTask) && !Unrecorded(t.blockTask))
    ensures BlocksInv(t)
  {
    assert KeptBlocks(t) == KeptBlocks(s);
  }

  lemma StepKeepsExitInv(s: State, a: Action)
    requires ReadInv(s) && CompletionInv(s) && ExitInv(s) && Enabled(s, a)
    ensures ExitInv(Apply(s, a))
  {
  }

  lemma StepKeepsInv(s: State, a: Action)
    requires Inv(s) && Enabled(s, a)
    ensures Inv(Apply(s, a))
  {
    StepKeepsReadInv(s, a);
    StepKeepsWatchedInv(s, a);
    StepKeepsCompletionInv(s, a);
    StepKeepsBlocksInv(s, a);
    StepKeepsExitInv(s, a);
  }

  lemma {:induction false} RunKeepsInv(s: State, run: seq<Action>)
    requires Inv(s) && Legal(s, run)
    ensures Inv(Exec(s, run))
    decreases |run|
  {
    if run != [] {
      StepKeepsInv(s, run[0]);
      RunKeepsInv(Apply(s, run[0]), run[1..]);
    }
  }

  // ---------------------------------------------------------------- the outcomes

  /** The workload's events: from the first start event to the first completion event behind it. */
  ghost predicate IsWorkload(sent: seq<Event>, i: nat, j: nat) {
    && i < j < |sent|
    && sent[i].StartEvent? && (forall k: nat | k < i :: !sent[k].StartEvent?)
    && sent[j].AllTransactionsSubmitted? && (forall k: nat | i < k < j :: !sent[k].AllTransactionsSubmitted?)
  }

  ghost predicate Included(h: Hash, blocks: seq<Block>) {
    exists b <- blocks :: h in b.hashes
  }

  /** Every transaction submitted in the workload is in one of the blocks, all of them kept. */
  ghost predicate WorkloadIncluded(sent: seq<Event>, i: nat, j: nat, blocks: seq<Block>) {
    && IsWorkload(sent, i, j)
    && (forall k: nat | i < k < j && sent[k].SubmittedTransaction? :: Included(sent[k].hash, blocks))
    && (forall b <- blocks :: b.number >= sent[i].ignoreBlockBefore)
  }

  lemma {:induction false} HashesOfIncluded(blocks: seq<Block>, h: Hash)
    ensures h in HashesOf(blocks) <==> Included(h, blocks)
    decreases |blocks|
  {
    if blocks != [] {
      var n := |blocks| - 1;
      HashesOfIncluded(blocks[..n], h);
      assert blocks == blocks[..n] + [blocks[n]];
    }
  }

  lemma {:induction false} KeptIsFiltered(blocks: seq<Block>, ignoreBefore: nat)
    ensures forall b :: b in Kept(blocks, ignoreBefore) <==> b in blocks && b.number >= ignoreBefore
    decreases |blocks|
  {
    if blocks != [] {
      var n := |blocks| - 1;
      KeptIsFiltered(blocks[..n], ignoreBefore);
      assert blocks == blocks[..n] + [blocks[n]];
    }
  }

  /** In every interleaving: when the watcher stops because all transactions were observed, each
      transaction submitted in the workload is in an observed block, and the observed blocks are the
      delivered ones from the start threshold on. */
  lemma AllObservedIsSafe(run: seq<Action>)
    requires Legal(Init(), run) && Exec(Init(), run).blockTask == Ended(AllObserved)
    ensures var s := Exec(Init(), run);
      exists i: nat, j: nat :: WorkloadIncluded(s.sent, i, j, s.observedBlocks)
        && s.observedBlocks == Kept(s.arrived, s.sent[i].ignoreBlockBefore)
  {
    RunKeepsInv(Init(), run);
    ObservedWorkload(Exec(Init(), run));
  }

  lemma ObservedWorkload(s: State)
    requires Inv(s) && s.blockTask == Ended(AllObserved)
    ensures s.start < s.taken && WorkloadIncluded(s.sent, s.start, s.taken - 1, s.observedBlocks)
    ensures s.observedBlocks == Kept(s.arrived, s.sent[s.start].ignoreBlockBefore)
  {
    var i, j := s.start, s.taken - 1;
    assert IsWorkload(s.sent, i, j);
    KeptIsFiltered(s.arrived, s.ignoreBefore);
    forall k: nat | i < k < j && s.sent[k].SubmittedTransaction?
      ensures Included(s.sent[k].hash, s.observedBlocks)
    {
      assert s.sent[k] == SinceStart(s)[k - s.start - 1];
      assert s.sent[k].hash in s.watched;
      HashesOfIncluded(s.observedBlocks, s.sent[k].hash);
    }
  }

  lemma {:induction false} TrailingEmptyAt(blocks: seq<Block>)
    ensures TrailingEmpty(blocks) <= |blocks|
    ensures forall k: nat | |blocks| - TrailingEmpty(blocks) <= k < |blocks| :: blocks[k].hashes == []
    decreases |blocks|
  {
    if blocks != [] {
      TrailingEmptyAt(blocks[..|blocks| - 1]);
    }
  }

  // The last thirty blocks are empty.
  ghost predicate ThirtyEmpty(blocks: seq<Block>) {
    |blocks| >= 30 && forall k: nat | |blocks| - 30 <= k < |blocks| :: blocks[k].hashes == []
  }

  lemma {:induction false} TrailingEmptyIsLongest(blocks: seq<Block>)
    ensures TrailingEmpty(blocks) < |blocks| ==> blocks[|blocks| - 1 - TrailingEmpty(blocks)].hashes != []
    decreases |blocks|
  {
    TrailingEmptyAt(blocks);
    if blocks != [] && blocks[|blocks| - 1].hashes == [] {
      TrailingEmptyAt(blocks[..|blocks| - 1]);
      TrailingEmptyIsLongest(blocks[..|blocks| - 1]);
    }
  }

  /** The watcher gives up exactly at the thirtieth empty block in a row, ignored ones not counted. */
  lemma GivesUpAtThirtyEmptyBlocks(run: seq<Action>)
    requires Legal(Init(), run) && !Exec(Init(), run).blockTask.Counting?
    ensures var s := Exec(Init(), run);
      s.blockTask == Ended(TooManyEmpty) <==> ThirtyEmpty(Kept(s.arrived, s.ignoreBefore))
  {
    RunKeepsInv(Init(), run);
    var s := Exec(Init(), run);
    var kept := Kept(s.arrived, s.ignoreBefore);
    TrailingEmptyAt(kept);
    TrailingEmptyIsLongest(kept);
    if TrailingEmpty(kept) < |kept| && TrailingEmpty(kept) < 30 {
      assert kept[|kept| - 1 - TrailingEmpty(kept)].hashes != [];
    }
  }

  // What was sent and what the subscription delivered, by the actions of a run.
  function SentIn(run: seq<Action>): seq<Event> {
    if run == [] then [] else (if run[0].Send? then [run[0].event] else []) + SentIn(run[1..])
  }

  function ArrivedIn(run: seq<Action>): seq<Block> {
    if run == [] then [] else (if run[0].Arrive? then [run[0].block] else []) + ArrivedIn(run[1..])
  }

  /** The channel has been sent exactly the events of the run, and the subscription has delivered exactly
      its blocks, in order. */
  lemma {:induction false} RunRecords(s: State, run: seq<Action>)
    requires Legal(s, run)
    ensures Exec(s, run).sent == s.sent + SentIn(run) && Exec(s, run).arrived == s.arrived + ArrivedIn(run)
    decreases |run|
  {
    if run != [] {
      StepRecords(s, run[0]);
      RunRecords(Apply(s, run[0]), run[1..]);
    }
  }

  lemma StepRecords(s: State, a: Action)
    requires Enabled(s, a)
    ensures Apply(s, a).sent == s.sent + (if a.Send? then [a.event] else [])
    ensures Apply(s, a).arrived == s.arrived + (if a.Arrive? then [a.block] else [])
  {
  }

  lemma ExecFirst(s: State, a: Action, rest: seq<Action>)
    requires Enabled(s, a) && Legal(Apply(s, a), rest)
    ensures Legal(s, [a] + rest) && Exec(s, [a] + rest) == Exec(Apply(s, a), rest)
  {
    assert ([a] + rest)[1..] == rest;
  }

  /** Once submission is complete and everything has been observed, the next block that is not
      ignored ends the watch, unless it is one empty block too many. */
  lemma NextBlockEndsTheWatch(s: State, b: Block)
    requires s.blockTask.Waiting? && s.completed && s.watched <= s.observedHashes
    requires b.number >= s.ignoreBefore
    requires b.hashes != [] || s.emptyBlocks + 1 < EmptyBlockLimit
    ensures Legal(s, [Arrive(b), CountBlock, ReadFlag, CheckObserved])
    ensures Exec(s, [Arrive(b), CountBlock, ReadFlag, CheckObserved]).blockTask == Ended(AllObserved)
  {
    var run := [Arrive(b), CountBlock, ReadFlag, CheckObserved];
    var s1 := Apply(s, run[0]);
    var s2 := Apply(s1, CountBlock);
    var s3 := Apply(s2, ReadFlag);
    var s4 := Apply(s3, CheckObserved);
    ExecFirst(s3, CheckObserved, []);
    ExecFirst(s2, ReadFlag, [CheckObserved]);
    ExecFirst(s1, CountBlock, [ReadFlag, CheckObserved]);
    ExecFirst(s, Arrive(b), [CountBlock, ReadFlag, CheckObserved]);
    assert [Arrive(b)] + [CountBlock, ReadFlag, CheckObserved] == run;
    assert [CountBlock] + [ReadFlag, CheckObserved] == [CountBlock, ReadFlag, CheckObserved];
    assert [ReadFlag] + [CheckObserved] == [ReadFlag, CheckObserved];
    assert [CheckObserved] + [] == [CheckObserved];
    assert s4.blockTask == Ended(AllObserved);
  }

  lemma {:induction false} LegalAppend(s: State, run: seq<Action>, a: Action)
    requires Legal(s, run) && Enabled(Exec(s, run), a)
    ensures Legal(s, run + [a]) && Exec(s, run + [a]) == Apply(Exec(s, run), a)
    decreases |run|
  {
    var longer := run + [a];
    if run == [] {
      assert longer == [a] && longer[1..] == [];
    } else {
      assert longer[0] == run[0] && longer[1..] == run[1..] + [a];
      var next := Apply(s, run[0]);
      LegalAppend(next, run[1..], a);
    }
  }

  // ---------------------------------------------------------------- the tasks

  /** Whose turn it is: a sender (with no event, the last one to leave), the consumer, or the block task
      (with what the subscription has for it when it asks). */
  datatype Turn = SenderTurn(event: Option<Event>) | ConsumerTurn | BlockTurn(next: Option<Block>)

  /** What a turn does: the one action of its task that is enabled, or nothing if there is none. */
  ghost function Next(s: State, turn: Turn): (a: Option<Action>)
    ensures a.Some? ==> Enabled(s, a.value)
    ensures turn.ConsumerTurn? ==> (if a.Some? then OfConsumer(a.value) else forall b | OfConsumer(b) :: !Enabled(s, b))
    ensures turn.BlockTurn? ==> (if a.Some? then OfBlockTask(a.value) else forall b | OfBlockTask(b) :: !Enabled(s, b))
    ensures turn.BlockTurn? && s.blockTask.Waiting? ==>
      a == Some(if turn.next.Some? then Arrive(turn.next.value) else StreamEnds)
    ensures turn.SenderTurn? ==>
      a == if s.closed then None else Some(if turn.event.Some? then Send(turn.event.value) else Close)
  {
    match turn
    case SenderTurn(event) =>
      if s.closed then None else if event.Some? then Some(Send(event.value)) else Some(Close)
    case ConsumerTurn =>
      (match s.consumer
       case AwaitingStart => if s.taken < |s.sent| then Some(TakeWhileAwaitingStart) else None
       case Receiving =>
         if s.taken < |s.sent| then Some(Take) else if s.closed then Some(ChannelEnds) else None
       case Inserting(_) => Some(Insert)
       case Completing => Some(SetCompleted)
       case ConsumerDone => None)
    case BlockTurn(next) =>
      match s.blockTask
      case Waiting => Some(if next.Some? then Arrive(next.value) else StreamEnds)
      case Counting(_) => Some(CountBlock)
      case ReadingFlag => Some(ReadFlag)
      case Checking => Some(CheckObserved)
      case NotStarted => None
      case Ended(_) => None
  }

  /** The run that a schedule makes. */
  ghost function Scheduled(schedule: seq<Turn>): (run: seq<Action>)
    ensures Legal(Init(), run)
  {
    if schedule == [] then []
    else
      var before := Scheduled(schedule[..|schedule| - 1]);
      var a := Next(Exec(Init(), before), schedule[|schedule| - 1]);
      if a.None? then before
      else
        LegalAppend(Init(), before, a.value);
        before + [a.value]
  }

  /** The two tasks and what they share. */
  class Watcher {
    var sent: seq<Event>
    var closed: bool
    var taken: nat
    ghost var start: nat
    var consumer: Consumer
    var blockTask: BlockTask
    var ignoreBlocksBefore: nat
    var isSubmissionCompleted: bool
    var txsToWatchFor: set<Hash>
    ghost var arrived: seq<Block>
    var observedTransactionHashes: set<Hash>
    var observedBlocks: seq<Block>
    var consecutiveEmptyBlocks: nat

    ghost function View(): State
      reads this
    {
      State(sent, closed, taken, start, consumer, blockTask, ignoreBlocksBefore, isSubmissionCompleted,
        txsToWatchFor, arrived, observedTransactionHashes, observedBlocks, consecutiveEmptyBlocks)
    }

    constructor ()
      ensures View() == Init()
    {
      sent, closed, taken, start := [], false, 0, 0;
      consumer, blockTask := AwaitingStart, NotStarted;
      ignoreBlocksBefore, isSubmissionCompleted, txsToWatchFor := 0, false, {};
      arrived, observedTransactionHashes, observedBlocks, consecutiveEmptyBlocks := [], {}, [], 0;
    }

    // Drops everything the channel delivers in front of the first start event.
    method ReceiveWhileAwaitingStart()
      requires Enabled(View(), TakeWhileAwaitingStart)
      modifies this
      ensures View() == Apply(old(View()), TakeWhileAwaitingStart)
    {
      var event := sent[taken];
      match event {
        case StartEvent(ignoreBlockBefore) =>
          start := taken;
          ignoreBlocksBefore := ignoreBlockBefore;
          consumer, blockTask := Receiving, Waiting;
        case _ =>
      }
      taken := taken + 1;
    }

    method Receive()
      requires Enabled(View(), Take)
      modifies this
      ensures View() == Apply(old(View()), Take)
    {
      match sent[taken] {
        case StartEvent(_) =>
        case SubmittedTransaction(hash) => consumer := Inserting(hash);
        case AllTransactionsSubmitted => consumer := Completing;
      }
      taken := taken + 1;
    }

    // The consumer up to its next await: the event loop, the lock of the set, the lock of the flag.
    method RunConsumer() returns (ghost a: Option<Action>)
      modifies this
      ensures a == Next(old(View()), ConsumerTurn)
      ensures View() == if a.None? then old(View()) else Apply(old(View()), a.value)
    {
      a := None;
      match consumer {
        case AwaitingStart =>
          if taken < |sent| {
            a := Some(TakeWhileAwaitingStart);
            ReceiveWhileAwaitingStart();
          }
        case Receiving =>
          if taken < |sent| {
            a := Some(Take);
            Receive();
          } else if closed {
            a := Some(ChannelEnds);
            consumer := ConsumerDone;
          }
        case Inserting(hash) =>
          a := Some(Insert);
          txsToWatchFor := txsToWatchFor + {hash};
          consumer := Receiving;
        case Completing =>
          a := Some(SetCompleted);
          isSubmissionCompleted := true;
          consumer := ConsumerDone;
        case ConsumerDone =>
      }
    }

    method ReceiveBlock(block: Block)
      requires Enabled(View(), Arrive(block))
      modifies this
      ensures View() == Apply(old(View()), Arrive(block))
    {
      arrived := arrived + [block];
      if block.number >= ignoreBlocksBefore {
        observedTransactionHashes := observedTransactionHashes + Hashes(block);
        blockTask := Counting(block);
      }
    }

    method RecordBlock()
      requires Enabled(View(), CountBlock)
      modifies this
      ensures View() == Apply(old(View()), CountBlock)
    {
      var block := blockTask.block;
      if block.hashes == [] {
        consecutiveEmptyBlocks := consecutiveEmptyBlocks + 1;
      } else {
        consecutiveEmptyBlocks := 0;
      }
      if consecutiveEmptyBlocks >= EmptyBlockLimit {
        blockTask := Ended(TooManyEmpty);
      } else {
        observedBlocks := observedBlocks + [block];
        blockTask := ReadingFlag;
      }
    }

    // The block task up to its next await: the subscription, the count, the flag, the set.
    method RunBlockTask(next: Option<Block>) returns (ghost a: Option<Action>)
      modifies this
      ensures a == Next(old(View()), BlockTurn(next))
      ensures View() == if a.None? then old(View()) else Apply(old(View()), a.value)
    {
      a := None;
      match blockTask {
        case Waiting =>
          if next.Some? {
            a := Some(Arrive(next.value));
            ReceiveBlock(next.value);
          } else {
            a := Some(StreamEnds);
            blockTask := Ended(StreamEnded);
          }
        case Counting(_) =>
          a := Some(CountBlock);
          RecordBlock();
        case ReadingFlag =>
          a := Some(ReadFlag);
          blockTask := if isSubmissionCompleted then Checking else Waiting;
        case Checking =>
          a := Some(CheckObserved);
          blockTask := if txsToWatchFor <= observedTransactionHashes then Ended(AllObserved) else Waiting;
        case NotStarted =>
        case Ended(_) =>
      }
    }

    method RunSender(event: Option<Event>) returns (ghost a: Option<Action>)
      modifies this`sent, this`closed
      ensures a == Next(old(View()), SenderTurn(event))
      ensures View() == if a.None? then old(View()) else Apply(old(View()), a.value)
    {
      if closed {
        a := None;
      } else if event.Some? {
        a := Some(Send(event.value));
        sent := sent + [event.value];
      } else {
        a := Some(Close);
        closed := true;
      }
    }

    /** The watcher under any schedule of senders, consumer and block task: if it leaves because all
        transactions were observed, each one submitted in the workload is in an observed block at or
        above the start threshold; if it gives up, the last thirty blocks it kept are empty. */
    method Run(schedule: seq<Turn>) returns (ghost run: seq<Action>)
      requires View() == Init()
      modifies this
      ensures run == Scheduled(schedule) && View() == Exec(Init(), run)
      ensures sent == SentIn(run) && arrived == ArrivedIn(run)
      ensures blockTask == Ended(AllObserved) ==> exists i: nat, j: nat :: WorkloadIncluded(sent, i, j, observedBlocks)
      ensures !blockTask.Counting? ==> (blockTask == Ended(TooManyEmpty) <==> ThirtyEmpty(Kept(arrived, ignoreBlocksBefore)))
    {
      run := [];
      var turn := 0;
      while turn < |schedule|
        invariant turn <= |schedule|
        invariant run == Scheduled(schedule[..turn]) && View() == Exec(Init(), run)
      {
        assert schedule[..turn + 1][..turn] == schedule[..turn];
        ghost var a: Option<Action>;
        match schedule[turn] {
          case SenderTurn(event) => a := RunSender(event);
          case ConsumerTurn => a := RunConsumer();
          case BlockTurn(next) => a := RunBlockTask(next);
        }
        if a.Some? {
          LegalAppend(Init(), run, a.value);
          run := run + [a.value];
        }
        turn := turn + 1;
      }
      assert schedule[..turn] == schedule;
      RunRecords(Init(), run);
      RunEnds(run);
    }
  }

  lemma RunEnds(run: seq<Action>)
    requires Legal(Init(), run)
    ensures var s := Exec(Init(), run);
      && (s.blockTask == Ended(AllObserved) ==> exists i: nat, j: nat :: WorkloadIncluded(s.sent, i, j, s.observedBlocks))
      && (!s.blockTask.Counting? ==> (s.blockTask == Ended(TooManyEmpty) <==> ThirtyEmpty(Kept(s.arrived, s.ignoreBefore))))
  {
    if Exec(Init(), run).blockTask == Ended(AllObserved) {
      AllObservedIsSafe(run);
    }
    if !Exec(Init(), run).blockTask.Counting? {
      GivesUpAtThirtyEmptyBlocks(run);
    }
  }
}
