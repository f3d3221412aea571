/**
 The asynchronous map: readers of an absent key wait on a notifier that the first insert of the key
 fires.

 A notifier counts its `notify_waiters` calls; a `Notified` future remembers the count at its
 creation and is ready once the count has moved on, polled before or not.  The map lock is never
 held over another await, so an insert, a batch of inserts and each half of a read are one stretch.
 */
module AsyncMap {
  import opened Common

  datatype Slot<V> = Empty(notifier: nat) | Value(value: V)

  datatype Getter<K, V> =
    | Start(key: K)                                    // waiting for the map lock
    | Waiting(key: K, notifier: nat, seen: nat)        // waiting on a Notified future
    | Returned(key: K, value: V)
    | Unreachable(key: K)                              // woken without finding a value

  datatype State<!K, V> = State(slots: map<K, Slot<V>>, calls: seq<nat>, getters: seq<Getter<K, V>>)

  datatype Action<K, V> =
    | Insert(key: K, value: V)
    | InsertBatch(items: seq<(K, V)>)
    | Look(i: nat)     // first half of a read
    | Wake(i: nat)     // second half of a read

  // `entry(key).or_insert_with(...)`: an absent key gets an empty slot with a new notifier.
  function WithSlot<K, V>(s: State<K, V>, k: K): State<K, V> {
    if k in s.slots then s
    else s.(slots := s.slots[k := Empty(|s.calls|)], calls := s.calls + [0])
  }

  function InsertOne<K, V>(s: State<K, V>, k: K, v: V): State<K, V> {
    var t := WithSlot(s, k);
    match t.slots[k]
    case Empty(n) =>
      t.(slots := t.slots[k := Value(v)], calls := if n < |t.calls| then t.calls[n := t.calls[n] + 1] else t.calls)
    case Value(_) => t.(slots := t.slots[k := Value(v)])
  }

  function InsertAll<K, V>(s: State<K, V>, items: seq<(K, V)>): State<K, V> {
    if items == [] then s
    else InsertOne(InsertAll(s, items[..|items| - 1]), items[|items| - 1].0, items[|items| - 1].1)
  }

  predicate Ready<K, V>(s: State<K, V>, g: Getter<K, V>) {
    g.Waiting? && g.notifier < |s.calls| && s.calls[g.notifier] > g.seen
  }

  predicate Enabled<K, V>(s: State<K, V>, a: Action<K, V>) {
    match a
    case Insert(_, _) => true
    case InsertBatch(_) => true
    case Look(i) => i < |s.getters| && s.getters[i].Start?
    case Wake(i) => i < |s.getters| && Ready(s, s.getters[i])
  }

  function LookUp<K(==), V>(s: State<K, V>, i: nat): State<K, V>
    requires i < |s.getters|
  {
    var k := s.getters[i].key;
    var t := WithSlot(s, k);
    match t.slots[k]
    case Value(v) => t.(getters := t.getters[i := Returned(k, v)])
    case Empty(n) => t.(getters := t.getters[i := Waiting(k, n, if n < |t.calls| then t.calls[n] else 0)])
  }

  function WakeUp<K(==), V>(s: State<K, V>, i: nat): State<K, V>
    requires i < |s.getters|
  {
    var k := s.getters[i].key;
    if k in s.slots && s.slots[k].Value? then s.(getters := s.getters[i := Returned(k, s.slots[k].value)])
    else s.(getters := s.getters[i := Unreachable(k)])
  }

  function Apply<K(==), V>(s: State<K, V>, a: Action<K, V>): State<K, V>
    requires Enabled(s, a)
  {
    match a
    case Insert(k, v) => InsertOne(s, k, v)
    case InsertBatch(items) => InsertAll(s, items)
    case Look(i) => LookUp(s, i)
    case Wake(i) => WakeUp(s, i)
  }

  predicate Legal<K(==), V>(s: State<K, V>, run: seq<Action<K, V>>)
    decreases |run|
  {
    run == [] || (Enabled(s, run[0]) && Legal(Apply(s, run[0]), run[1..]))
  }

  function Exec<K(==), V>(s: State<K, V>, run: seq<Action<K, V>>): State<K, V>
    requires Legal(s, run)
    decreases |run|
  {
    if run == [] then s else Exec(Apply(s, run[0]), run[1..])
  }

  ghost predicate Initial<K, V>(s: State<K, V>) {
    s.slots == map[] && s.calls == [] && forall g | g in s.getters :: g.Start?
  }

  // ---------------------------------------------------------------- invariant

  predicate HasValue<K, V>(s: State<K, V>, k: K) { k in s.slots && s.slots[k].Value? }

  // An empty slot has a notifier of its own that has never fired.
  ghost predicate SlotsOk<K, V>(s: State<K, V>) {
    && (forall k | k in s.slots && s.slots[k].Empty? ::
          s.slots[k].notifier < |s.calls| && s.calls[s.slots[k].notifier] == 0)
    && (forall k, k' | k in s.slots && k' in s.slots && k != k' && s.slots[k].Empty? && s.slots[k'].Empty? ::
          s.slots[k].notifier != s.slots[k'].notifier)
  }

  // A waiting reader is ready exactly if its key has a value; otherwise it waits on the very
  // notifier that the empty slot of its key holds.
  ghost predicate GetterOk<K, V>(s: State<K, V>, g: Getter<K, V>) {
    match g
    case Start(_) => true
    case Waiting(k, n, seen) =>
      && seen == 0 && n < |s.calls| && k in s.slots
      && (HasValue(s, k) <==> s.calls[n] > 0)
      && (!HasValue(s, k) ==> s.slots[k] == Empty(n))
      && (HasValue(s, k) ==> forall k' | k' in s.slots && s.slots[k'].Empty? :: s.slots[k'].notifier != n)
    case Returned(k, _) => HasValue(s, k)
    case Unreachable(_) => false
  }

  ghost predicate Inv<K, V>(s: State<K, V>) {
    SlotsOk(s) && forall i: nat | i < |s.getters| :: GetterOk(s, s.getters[i])
  }

  // Values stay, notifiers keep counting, readers are untouched by inserts.
  ghost predicate Grows<K, V>(s: State<K, V>, t: State<K, V>) {
    && (forall k | k in s.slots && s.slots[k].Value? :: HasValue(t, k))
    && |s.calls| <= |t.calls|
  }

  lemma WithSlotKeeps<K, V>(s: State<K, V>, k: K)
    requires Inv(s)
    ensures Inv(WithSlot(s, k)) && Grows(s, WithSlot(s, k)) && WithSlot(s, k).getters == s.getters
    ensures HasValue(WithSlot(s, k), k) <==> HasValue(s, k)
  {
    var t := WithSlot(s, k);
    forall i: nat | i < |t.getters| ensures GetterOk(t, t.getters[i]) {
      assert GetterOk(s, s.getters[i]);
    }
  }

  lemma InsertOneSlots<K, V>(s: State<K, V>, k: K, v: V)
    ensures InsertOne(s, k, v).slots == s.slots[k := Value(v)] && InsertOne(s, k, v).getters == s.getters
  {
  }

  lemma InsertOneKeeps<K, V>(s: State<K, V>, k: K, v: V)
    requires Inv(s)
    ensures Inv(InsertOne(s, k, v)) && Grows(s, InsertOne(s, k, v)) && InsertOne(s, k, v).getters == s.getters
    ensures InsertOne(s, k, v).slots == s.slots[k := Value(v)]
  {
    WithSlotKeeps(s, k);
    InsertOneSlots(s, k, v);
    var t, u := WithSlot(s, k), InsertOne(s, k, v);
    forall i: nat | i < |u.getters| ensures GetterOk(u, u.getters[i]) {
      assert GetterOk(t, t.getters[i]);
    }
  }

  lemma {:induction false} InsertAllKeeps<K, V>(s: State<K, V>, items: seq<(K, V)>)
    requires Inv(s)
    ensures Inv(InsertAll(s, items)) && Grows(s, InsertAll(s, items)) && InsertAll(s, items).getters == s.getters
    ensures forall k :: SlotAfter(s, items, InsertAll(s, items), k)
  {
    if items != [] {
      var n := |items| - 1;
      var t := InsertAll(s, items[..n]);
      InsertAllKeeps(s, items[..n]);
      InsertOneKeeps(t, items[n].0, items[n].1);
      assert items == items[..n] + [items[n]];
      forall k
        ensures SlotAfter(s, items, InsertAll(s, items), k)
      {
        assert SlotAfter(s, items[..n], t, k);
        LastSnoc(items[..n], items[n], k);
      }
    }
  }

  // ---------------------------------------------------------------- which value a slot holds

  /** The value of the last item of the key. */
  ghost predicate LastIs<K, V>(items: seq<(K, V)>, k: K, v: V) {
    exists i: nat :: i < |items| && items[i] == (k, v) && forall j | i < j < |items| :: items[j].0 != k
  }

  ghost predicate Named<K, V>(items: seq<(K, V)>, k: K) { exists i: nat :: i < |items| && items[i].0 == k }

  /** After the items a key named in them holds the value of its last item; any other slot is as before. */
  ghost predicate SlotAfter<K, V>(s: State<K, V>, items: seq<(K, V)>, t: State<K, V>, k: K) {
    && (Named(items, k) ==> HasValue(t, k) && LastIs(items, k, t.slots[k].value))
    && (!Named(items, k) ==> (k in t.slots <==> k in s.slots) && (k in s.slots ==> t.slots[k] == s.slots[k]))
  }

  lemma LastSnoc<K, V>(items: seq<(K, V)>, item: (K, V), k: K)
    ensures Named(items + [item], k) <==> Named(items, k) || item.0 == k
    ensures item.0 == k ==> LastIs(items + [item], k, item.1)
    ensures forall v | item.0 != k && LastIs(items, k, v) :: LastIs(items + [item], k, v)
  {
    var longer := items + [item];
    if i: nat :| i < |items| && items[i].0 == k {
      assert longer[i].0 == k;
    }
    if item.0 == k {
      assert longer[|items|] == (k, item.1);
    } else {
      forall v | LastIs(items, k, v)
        ensures LastIs(longer, k, v)
      {
        var i: nat :| i < |items| && items[i] == (k, v) && forall j | i < j < |items| :: items[j].0 != k;
        assert longer[i] == (k, v);
      }
    }
  }

  // At most one value is the last one.
  lemma OneLast<K, V>(items: seq<(K, V)>, k: K, v: V, w: V)
    requires LastIs(items, k, v) && LastIs(items, k, w)
    ensures v == w
  {
  }

  lemma LastConcat<K, V>(a: seq<(K, V)>, b: seq<(K, V)>, k: K)
    ensures Named(a + b, k) <==> Named(a, k) || Named(b, k)
    ensures forall v | LastIs(b, k, v) :: LastIs(a + b, k, v)
    ensures forall v | LastIs(a, k, v) && !Named(b, k) :: LastIs(a + b, k, v)
  {
    var c := a + b;
    if i: nat :| i < |a| && a[i].0 == k { assert c[i].0 == k; }
    if i: nat :| i < |b| && b[i].0 == k { assert c[|a| + i].0 == k; }
    forall v | LastIs(b, k, v)
      ensures LastIs(c, k, v)
    {
      var i: nat :| i < |b| && b[i] == (k, v) && forall j | i < j < |b| :: b[j].0 != k;
      assert c[|a| + i] == (k, v);
    }
    forall v | LastIs(a, k, v) && !Named(b, k)
      ensures LastIs(c, k, v)
    {
      var i: nat :| i < |a| && a[i] == (k, v) && forall j | i < j < |a| :: a[j].0 != k;
      assert c[i] == (k, v);
    }
  }

  // The items an action inserts, and those of a run in order.
  function ItemsOf<K, V>(a: Action<K, V>): seq<(K, V)> {
    match a
    case Insert(k, v) => [(k, v)]
    case InsertBatch(items) => items
    case _ => []
  }

  function Inserts<K, V>(run: seq<Action<K, V>>): seq<(K, V)> {
    if run == [] then [] else ItemsOf(run[0]) + Inserts(run[1..])
  }

  lemma StepKeepsInv<K, V>(s: State<K, V>, a: Action<K, V>)
    requires Inv(s) && Enabled(s, a)
    ensures Inv(Apply(s, a)) && Grows(s, Apply(s, a)) && |Apply(s, a).getters| == |s.getters|
  {
    match a {
      case Insert(k, v) => InsertOneKeeps(s, k, v);
      case InsertBatch(items) => InsertAllKeeps(s, items);
      case Look(i) =>
        WithSlotKeeps(s, s.getters[i].key);
        var t, u := WithSlot(s, s.getters[i].key), Apply(s, a);
        forall j: nat | j < |u.getters| ensures GetterOk(u, u.getters[j]) {
          assert GetterOk(t, t.getters[j]);
        }
      case Wake(i) =>
        assert GetterOk(s, s.getters[i]);
        var u := Apply(s, a);
        forall j: nat | j < |u.getters| ensures GetterOk(u, u.getters[j]) {
          assert GetterOk(s, s.getters[j]);
        }
    }
  }

  lemma {:induction false} RunKeepsInv<K, V>(s: State<K, V>, run: seq<Action<K, V>>)
    requires Inv(s) && Legal(s, run)
    ensures Inv(Exec(s, run)) && Grows(s, Exec(s, run)) && |Exec(s, run).getters| == |s.getters|
    decreases |run|
  {
    if run != [] {
      StepKeepsInv(s, run[0]);
      RunKeepsInv(Apply(s, run[0]), run[1..]);
    }
  }

  // What a key holds after an action, but for an empty slot that a read creates.
  ghost predicate ValueAfter<K, V>(s: State<K, V>, items: seq<(K, V)>, t: State<K, V>, k: K) {
    && (Named(items, k) ==> HasValue(t, k) && LastIs(items, k, t.slots[k].value))
    && (!Named(items, k) ==> (HasValue(t, k) <==> HasValue(s, k)) && (HasValue(s, k) ==> t.slots[k] == s.slots[k]))
  }

  lemma StepValue<K, V>(s: State<K, V>, a: Action<K, V>, k: K)
    requires Inv(s) && Enabled(s, a)
    ensures ValueAfter(s, ItemsOf(a), Apply(s, a), k)
  {
    match a {
      case Insert(x, v) =>
        InsertOneKeeps(s, x, v);
        OnlyItem(x, v);
      case InsertBatch(items) =>
        InsertAllKeeps(s, items);
        assert SlotAfter(s, items, InsertAll(s, items), k);
      case Look(i) => WithSlotKeeps(s, s.getters[i].key);
      case Wake(_) =>
    }
  }

  lemma OnlyItem<K, V>(k: K, v: V)
    ensures LastIs([(k, v)], k, v) && forall x :: Named([(k, v)], x) <==> x == k
  {
    assert [(k, v)][0] == (k, v);
  }

  lemma {:induction false} RunValue<K, V>(s: State<K, V>, run: seq<Action<K, V>>, k: K)
    requires Inv(s) && Legal(s, run)
    ensures ValueAfter(s, Inserts(run), Exec(s, run), k)
    decreases |run|
  {
    if run != [] {
      var s' := Apply(s, run[0]);
      StepKeepsInv(s, run[0]);
      StepValue(s, run[0], k);
      RunValue(s', run[1..], k);
      ValuesInSequence(s, ItemsOf(run[0]), s', Inserts(run[1..]), Exec(s', run[1..]), k);
    }
  }

  lemma ValuesInSequence<K, V>(s: State<K, V>, a: seq<(K, V)>, t: State<K, V>, b: seq<(K, V)>, u: State<K, V>, k: K)
    requires ValueAfter(s, a, t, k) && ValueAfter(t, b, u, k)
    ensures ValueAfter(s, a + b, u, k)
  {
    LastConcat(a, b, k);
  }

  // ---------------------------------------------------------------- main results

  /** In every run a key has a value exactly when it was inserted, and it is the one inserted last. */
  lemma SlotHoldsLastInsert<K, V>(s: State<K, V>, run: seq<Action<K, V>>, k: K)
    requires Initial(s) && Legal(s, run)
    ensures
      var t := Exec(s, run);
      && (HasValue(t, k) <==> Named(Inserts(run), k))
      && (forall v :: HasValue(t, k) && t.slots[k].value == v <==> LastIs(Inserts(run), k, v))
  {
    RunValue(s, run, k);
    var t := Exec(s, run);
    forall v | LastIs(Inserts(run), k, v)
      ensures HasValue(t, k) && t.slots[k].value == v
    {
      OneLast(Inserts(run), k, v, t.slots[k].value);
    }
  }

  // The stretch of the run in which a read has returned finds the value in the slot of its key.
  lemma {:induction false} ReturnedFrom<K, V>(s: State<K, V>, run: seq<Action<K, V>>, i: nat) returns (n: nat)
    requires Inv(s) && Legal(s, run) && i < |s.getters| && i < |Exec(s, run).getters|
    requires Exec(s, run).getters[i].Returned? && !s.getters[i].Returned?
    ensures n < |run| && (run[n] == Look(i) || run[n] == Wake(i)) && Legal(s, run[..n])
    ensures Exec(s, run).getters[i].key == s.getters[i].key
    ensures HasValue(Exec(s, run[..n]), s.getters[i].key)
         && Exec(s, run[..n]).slots[s.getters[i].key].value == Exec(s, run).getters[i].value
    decreases |run|
  {
    var s' := Apply(s, run[0]);
    StepKeepsInv(s, run[0]);
    StepGetter(s, run[0], i);
    if s'.getters[i].Returned? {
      ReturnedStays(s', run[1..], i);
      n := 0;
    } else {
      var m := ReturnedFrom(s', run[1..], i);
      n := m + 1;
      assert run[..n][1..] == run[1..][..m];
    }
  }

  lemma StepGetter<K, V>(s: State<K, V>, a: Action<K, V>, i: nat)
    requires Inv(s) && Enabled(s, a) && i < |s.getters|
    ensures i < |Apply(s, a).getters| && Apply(s, a).getters[i].key == s.getters[i].key
    ensures s.getters[i].Returned? ==> Apply(s, a).getters[i] == s.getters[i]
    ensures !s.getters[i].Returned? && Apply(s, a).getters[i].Returned? ==>
      && (a == Look(i) || a == Wake(i)) && HasValue(s, s.getters[i].key)
      && s.slots[s.getters[i].key].value == Apply(s, a).getters[i].value
  {
    match a {
      case Insert(k, v) => InsertOneKeeps(s, k, v);
      case InsertBatch(items) => InsertAllKeeps(s, items);
      case Look(j) => WithSlotKeeps(s, s.getters[j].key);
      case Wake(j) => assert GetterOk(s, s.getters[j]);
    }
  }

  lemma {:induction false} ReturnedStays<K, V>(s: State<K, V>, run: seq<Action<K, V>>, i: nat)
    requires Inv(s) && Legal(s, run) && i < |s.getters| && s.getters[i].Returned?
    ensures i < |Exec(s, run).getters| && Exec(s, run).getters[i] == s.getters[i]
    decreases |run|
  {
    if run != [] {
      StepKeepsInv(s, run[0]);
      StepGetter(s, run[0], i);
      ReturnedStays(Apply(s, run[0]), run[1..], i);
    }
  }

  /** A read that has returned was for its own key, and returned the value last inserted for that key
      before the half of the read that returned. */
  lemma ReturnedIsLastInsert<K, V>(s: State<K, V>, run: seq<Action<K, V>>, i: nat)
    requires Initial(s) && Legal(s, run) && i < |s.getters| && i < |Exec(s, run).getters|
    requires Exec(s, run).getters[i].Returned?
    ensures var g := Exec(s, run).getters[i];
      && g.key == s.getters[i].key
      && exists n: nat :: n < |run| && (run[n] == Look(i) || run[n] == Wake(i)) && LastIs(Inserts(run[..n]), g.key, g.value)
  {
    assert s.getters[i] in s.getters;
    var n := ReturnedFrom(s, run, i);
    SlotHoldsLastInsert(s, run[..n], s.getters[i].key);
    var g := Exec(s, run).getters[i];
    assert LastIs(Inserts(run[..n]), g.key, g.value);
  }

  /** No lost wake-up: a reader that is still asleep has an empty slot holding its own notifier, and
      one whose key has a value is ready; the unreachable arm of a read is never taken. */
  lemma NoLostWakeUp<K, V>(s: State<K, V>, run: seq<Action<K, V>>, i: nat)
    requires Initial(s) && Legal(s, run) && i < |s.getters|
    ensures
      var t := Exec(s, run);
      && |t.getters| == |s.getters|
      && !t.getters[i].Unreachable?
      && (t.getters[i].Waiting? ==>
            var g := t.getters[i];
            && (Ready(t, g) <==> HasValue(t, g.key))
            && (!Ready(t, g) ==> g.key in t.slots && t.slots[g.key] == Empty(g.notifier)))
  {
    RunKeepsInv(s, run);
    assert GetterOk(Exec(s, run), Exec(s, run).getters[i]);
  }

  /** Once a key has been inserted it has a value for ever: a read that has not returned yet can
      take its next step at every later point and returns the value it then finds. */
  lemma InsertedKeyIsReadable<K, V>(s: State<K, V>, run: seq<Action<K, V>>, later: seq<Action<K, V>>,
                                   k: K, i: nat)
    requires Initial(s) && Legal(s, run) && Legal(Exec(s, run), later) && HasValue(Exec(s, run), k)
    requires i < |Exec(Exec(s, run), later).getters| && Exec(Exec(s, run), later).getters[i].key == k
    ensures
      var t := Exec(Exec(s, run), later);
      && HasValue(t, k)
      && (t.getters[i].Start? ==> Enabled(t, Look(i)) && Apply(t, Look(i)).getters[i] == Returned(k, t.slots[k].value))
      && (t.getters[i].Waiting? ==> Enabled(t, Wake(i)) && Apply(t, Wake(i)).getters[i] == Returned(k, t.slots[k].value))
  {
    RunKeepsInv(s, run);
    RunKeepsInv(Exec(s, run), later);
    var t := Exec(Exec(s, run), later);
    assert GetterOk(t, t.getters[i]);
  }

  /** At every point a key may be inserted, alone or in a batch, and then each read of it that has not
      returned takes its next step and returns the value inserted for it last. */
  lemma InsertWakesReaders<K, V>(s: State<K, V>, run: seq<Action<K, V>>, a: Action<K, V>, k: K, v: V, i: nat)
    requires Initial(s) && Legal(s, run) && i < |Exec(s, run).getters|
    requires Exec(s, run).getters[i].key == k && !Exec(s, run).getters[i].Returned?
    requires (a.Insert? || a.InsertBatch?) && LastIs(ItemsOf(a), k, v)
    ensures Enabled(Exec(s, run), a)
    ensures
      var t := Apply(Exec(s, run), a);
      && i < |t.getters|
      && (t.getters[i].Start? ==> Enabled(t, Look(i)) && Apply(t, Look(i)).getters[i] == Returned(k, v))
      && (!t.getters[i].Start? ==> Enabled(t, Wake(i)) && Apply(t, Wake(i)).getters[i] == Returned(k, v))
  {
    RunKeepsInv(s, run);
    var r := Exec(s, run);
    StepKeepsInv(r, a);
    StepValue(r, a, k);
    StepGetter(r, a, i);
    var t := Apply(r, a);
    OneLast(ItemsOf(a), k, v, t.slots[k].value);
    assert GetterOk(t, t.getters[i]);
  }

  // ---------------------------------------------------------------- the mutable form

  class AsyncHashMap<K(==), V> {
    var slots: map<K, Slot<V>>
    var calls: seq<nat>
    ghost var getters: seq<Getter<K, V>>

    ghost function View(): State<K, V>
      reads this
    {
      State(slots, calls, getters)
    }

    constructor ()
      ensures slots == map[] && calls == [] && getters == []
    {
      slots, calls, getters := map[], [], [];
    }

    method EnsureSlot(k: K)
      modifies this`slots, this`calls
      ensures View() == WithSlot(old(View()), k)
    {
      if k !in slots {
        slots := slots[k := Empty(|calls|)];
        calls := calls + [0];
      }
    }

    method InsertValue(k: K, v: V)
      requires Inv(View())
      modifies this`slots, this`calls
      ensures View() == InsertOne(old(View()), k, v) && Inv(View())
    {
      InsertOneKeeps(View(), k, v);
      WithSlotKeeps(View(), k);
      EnsureSlot(k);
      var notify := if slots[k].Empty? then Some(slots[k].notifier) else None;
      slots := slots[k := Value(v)];
      if notify.Some? {
        calls := calls[notify.value := calls[notify.value] + 1];
      }
    }

    method InsertValues(items: seq<(K, V)>)
      requires Inv(View())
      modifies this`slots, this`calls
      ensures View() == InsertAll(old(View()), items) && Inv(View())
      ensures forall k :: SlotAfter(old(View()), items, View(), k)
    {
      ghost var before := View();
      var i := 0;
      while i < |items|
        invariant i <= |items| && Inv(View()) && View() == InsertAll(old(View()), items[..i])
      {
        assert items[..i + 1][..i] == items[..i];
        InsertValue(items[i].0, items[i].1);
        i := i + 1;
      }
      assert items[..i] == items;
      InsertAllKeeps(before, items);
    }

    // The first half of a read: the value, or the notifier to wait on and its count.
    method BeginGet(k: K) returns (r: Getter<K, V>)
      requires Inv(View())
      modifies this`slots, this`calls
      ensures View() == WithSlot(old(View()), k) && Inv(View())
      ensures r == LookUp(State(old(slots), old(calls), [Start(k)]), 0).getters[0]
    {
      WithSlotKeeps(View(), k);
      EnsureSlot(k);
      match slots[k] {
        case Empty(n) => r := Waiting(k, n, calls[n]);
        case Value(v) => r := Returned(k, v);
      }
    }

    // The second half, after the notification.
    method EndGet(g: Getter<K, V>) returns (v: V)
      requires Inv(View()) && GetterOk(View(), g) && Ready(View(), g)
      ensures slots[g.key] == Value(v)
    {
      v := slots[g.key].value;
    }
  }
}
