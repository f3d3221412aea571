/**
 Merging the logs of a call trace into execution order.

 Each log of a frame records how many sub-calls of the frame were made before it.
 */
module CallFrameLogs {
  import opened Common

  datatype LogEntry<T> = LogEntry(position: Option<nat>, data: T)

  datatype Frame<T> = Frame(error: bool, reverted: bool, logs: seq<LogEntry<T>>, calls: seq<Frame<T>>)

  // What the flattening returns for a frame, and for what is left of one when `made` of its
  // sub-calls have been passed.
  function Flatten<T>(frame: Frame<T>): seq<T>
    decreases frame
  {
    if frame.error || frame.reverted then [] else FlattenRest(frame.logs, frame.calls, 0)
  }

  function FlattenRest<T>(logs: seq<LogEntry<T>>, calls: seq<Frame<T>>, made: nat): seq<T>
    decreases calls, |logs|
  {
    if logs != [] && (calls == [] || made >= logs[0].position.GetOr(0)) then
      [logs[0].data] + FlattenRest(logs[1..], calls, made)
    else if calls != [] then
      Flatten(calls[0]) + FlattenRest(logs, calls[1..], made + 1)
    else []
  }

  // ---------------------------------------------------------------- execution order

  /** A call as it happened: its logs and sub-calls in order. */
  datatype Call<T> = Call(error: bool, reverted: bool, items: seq<Item<T>>)
  datatype Item<T> = Emit(data: T) | Sub(call: Call<T>)

  function ExecutionOrder<T>(call: Call<T>): seq<T>
    decreases call
  {
    if call.error || call.reverted then [] else ItemsOrder(call.items)
  }

  function ItemsOrder<T>(items: seq<Item<T>>): seq<T>
    decreases items
  {
    if items == [] then [] else ItemOrder(items[0]) + ItemsOrder(items[1..])
  }

  function ItemOrder<T>(item: Item<T>): seq<T>
    decreases item
  {
    match item
    case Emit(data) => [data]
    case Sub(call) => ExecutionOrder(call)
  }

  /** The trace of a call: logs and sub-calls apart, logs with their positions. */
  function Encode<T>(call: Call<T>): Frame<T>
    decreases call
  {
    Frame(call.error, call.reverted, EncodeLogs(call.items, 0), EncodeCalls(call.items))
  }

  function EncodeLogs<T>(items: seq<Item<T>>, made: nat): seq<LogEntry<T>> {
    if items == [] then []
    else match items[0]
      case Emit(data) => [LogEntry(Some(made), data)] + EncodeLogs(items[1..], made)
      case Sub(_) => EncodeLogs(items[1..], made + 1)
  }

  function EncodeCalls<T>(items: seq<Item<T>>): seq<Frame<T>>
    decreases items
  {
    if items == [] then [] else EncodeSubCall(items[0]) + EncodeCalls(items[1..])
  }

  function EncodeSubCall<T>(item: Item<T>): seq<Frame<T>>
    decreases item
  {
    match item
    case Emit(_) => []
    case Sub(call) => [Encode(call)]
  }

  lemma {:induction false} PositionsFrom<T>(items: seq<Item<T>>, made: nat)
    ensures forall l | l in EncodeLogs(items, made) :: l.position.Some? && l.position.value >= made
  {
    if items != [] {
      PositionsFrom(items[1..], if items[0].Emit? then made else made + 1);
    }
  }

  /** Flattening the trace of any call gives its logs in execution order, without the failed and
      reverted subtrees. */
  lemma {:induction false} FlattenRecoversExecutionOrder<T>(call: Call<T>)
    ensures Flatten(Encode(call)) == ExecutionOrder(call)
    decreases call
  {
    if !call.error && !call.reverted {
      FlattenRestRecovers(call.items, 0);
    }
  }

  lemma {:induction false} FlattenRestRecovers<T>(items: seq<Item<T>>, made: nat)
    ensures FlattenRest(EncodeLogs(items, made), EncodeCalls(items), made) == ItemsOrder(items)
    decreases items
  {
    if items != [] {
      var rest := items[1..];
      ItemRecovers(items[0]);
      if items[0].Emit? {
        FlattenRestRecovers(rest, made);
        assert EncodeLogs(items, made)[1..] == EncodeLogs(rest, made);
        assert EncodeCalls(items) == EncodeCalls(rest);
      } else {
        FlattenRestRecovers(rest, made + 1);
        PositionsFrom(rest, made + 1);
        assert EncodeCalls(items)[1..] == EncodeCalls(rest);
      }
    }
  }

  lemma {:induction false} ItemRecovers<T>(item: Item<T>)
    ensures item.Sub? ==> Flatten(Encode(item.call)) == ItemOrder(item)
    decreases item
  {
    if item.Sub? {
      FlattenRecoversExecutionOrder(item.call);
    }
  }

  // ---------------------------------------------------------------- arbitrary positions

  // The logs of a frame and of the sub-frames below it that have no failed ancestor.
  function SurvivingLogs<T(==)>(frame: Frame<T>): multiset<T>
    decreases frame
  {
    if frame.error || frame.reverted then multiset{}
    else multiset(Datas(frame.logs)) + SurvivingOfCalls(frame.calls)
  }

  function SurvivingOfCalls<T(==)>(calls: seq<Frame<T>>): multiset<T>
    decreases calls
  {
    if calls == [] then multiset{} else SurvivingLogs(calls[0]) + SurvivingOfCalls(calls[1..])
  }

  function Datas<T>(logs: seq<LogEntry<T>>): seq<T> {
    if logs == [] then [] else [logs[0].data] + Datas(logs[1..])
  }

  function AtZero<T>(logs: seq<LogEntry<T>>): (r: seq<LogEntry<T>>)
    ensures |r| == |logs|
  {
    if logs == [] then []
    else [if logs[0].position.None? then LogEntry(Some(0), logs[0].data) else logs[0]] + AtZero(logs[1..])
  }

  /** A log without a position comes in front of the sub-calls that have not been flattened yet. */
  lemma {:induction false} NoPositionIsZero<T>(logs: seq<LogEntry<T>>, calls: seq<Frame<T>>, made: nat)
    ensures FlattenRest(logs, calls, made) == FlattenRest(AtZero(logs), calls, made)
    ensures logs != [] && logs[0].position.None? ==>
      FlattenRest(logs, calls, made) == [logs[0].data] + FlattenRest(logs[1..], calls, made)
    decreases |logs|, |calls|
  {
    if logs != [] {
      if calls == [] || made >= logs[0].position.GetOr(0) {
        NoPositionIsZero(logs[1..], calls, made);
      } else {
        NoPositionIsZero(logs, calls[1..], made + 1);
      }
    }
  }

  /** Whatever the recorded positions are, no surviving log is lost, doubled or invented. */
  lemma {:induction false} FlattenIsPermutation<T>(frame: Frame<T>)
    ensures multiset(Flatten(frame)) == SurvivingLogs(frame)
    decreases frame
  {
    if !frame.error && !frame.reverted {
      FlattenRestIsPermutation(frame.logs, frame.calls, 0);
    }
  }

  lemma {:induction false} FlattenRestIsPermutation<T>(logs: seq<LogEntry<T>>, calls: seq<Frame<T>>, made: nat)
    ensures multiset(FlattenRest(logs, calls, made)) == multiset(Datas(logs)) + SurvivingOfCalls(calls)
    decreases calls, |logs|
  {
    if logs != [] && (calls == [] || made >= logs[0].position.GetOr(0)) {
      FlattenRestIsPermutation(logs[1..], calls, made);
    } else if calls != [] {
      FlattenIsPermutation(calls[0]);
      FlattenRestIsPermutation(logs, calls[1..], made + 1);
    }
  }

  // ---------------------------------------------------------------- the loops

  method FlattenCallFrameLogs<T>(frame: Frame<T>) returns (logs: seq<T>)
    ensures logs == Flatten(frame)
    decreases frame, 1
  {
    if frame.error || frame.reverted {
      return [];
    }
    logs := [];
    var nextChild := 0;
    var i := 0;
    assert frame.logs[0..] == frame.logs && frame.calls[0..] == frame.calls;
    while i < |frame.logs|
      invariant i <= |frame.logs| && nextChild <= |frame.calls|
      invariant logs + FlattenRest(frame.logs[i..], frame.calls[nextChild..], nextChild) == Flatten(frame)
    {
      var before := logs;
      var children;
      children, nextChild := FlattenChildrenBefore(frame, frame.logs[i..], nextChild);
      logs := before + children + [frame.logs[i].data];
      assert frame.logs[i..][1..] == frame.logs[i + 1..];
      i := i + 1;
    }
    assert frame.logs[i..] == [];
    var tail, _ := FlattenChildrenBefore(frame, [], nextChild);
    logs := logs + tail;
  }

  // Flattens the sub-calls from `start` on that were made before the first of `pending`, all of
  // them when none is pending, and returns the number of sub-calls passed.
  method FlattenChildrenBefore<T>(frame: Frame<T>, pending: seq<LogEntry<T>>, start: nat)
    returns (logs: seq<T>, next: nat)
    requires start <= |frame.calls|
    ensures start <= next <= |frame.calls|
    ensures next == |frame.calls| || (pending != [] && next >= pending[0].position.GetOr(0))
    ensures logs + FlattenRest(pending, frame.calls[next..], next)
         == FlattenRest(pending, frame.calls[start..], start)
    decreases frame, 0
  {
    logs, next := [], start;
    while next < |frame.calls| && (pending == [] || next < pending[0].position.GetOr(0))
      invariant start <= next <= |frame.calls|
      invariant logs + FlattenRest(pending, frame.calls[next..], next)
             == FlattenRest(pending, frame.calls[start..], start)
    {
      var child := FlattenCallFrameLogs(frame.calls[next]);
      assert frame.calls[next..][1..] == frame.calls[next + 1..];
      assert (logs + child) + FlattenRest(pending, frame.calls[next + 1..], next + 1)
          == logs + (child + FlattenRest(pending, frame.calls[next + 1..], next + 1));
      logs := logs + child;
      next := next + 1;
    }
  }
}
