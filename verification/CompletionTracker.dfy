/**
 What the report aggregator's bookkeeping means, as functions of the events received so far.

 A key is one group whose completion is announced (a metadata file and mode for test cases, a
 metadata file for compilations); an item is a member of the group (a case, a mode).
 */
module CompletionTracker {
  import opened Common

  datatype Event<K, I, S> =
    | Discovered(key: K, item: I)
    | Touched(key: K, item: I)               // any event that creates the item's report entry
    | Terminal(key: K, item: I, status: S)   // succeeded, failed or ignored

  datatype Notice<K, I, S> = Notice(key: K, statuses: map<I, S>)

  // The effect of one event on the awaited items of a group and on its report entries.
  function RemainingStep<K(==), I(==), S>(before: set<I>, e: Event<K, I, S>, k: K): set<I> {
    match e
    case Discovered(key, item) => if key == k then before + {item} else before
    case Terminal(key, item, _) => if key == k then before - {item} else before
    case Touched(_, _) => before
  }

  function ReportsStep<K(==), I(==), S>(before: map<I, Option<S>>, e: Event<K, I, S>, k: K): map<I, Option<S>> {
    match e
    case Discovered(_, _) => before
    case Terminal(key, item, status) => if key == k then before[item := Some(status)] else before
    case Touched(key, item) => if key == k && item !in before then before[item := None] else before
  }

  // The items of `k` that are still awaited after `h`.
  function Remaining<K(==), I(==), S>(h: seq<Event<K, I, S>>, k: K): set<I> {
    if h == [] then {} else
      RemainingStep(Remaining(h[..|h| - 1], k), h[|h| - 1], k)
  }

  // The report entries of `k` after `h`; an entry has a status once a terminal event gave it one.
  function Reports<K(==), I(==), S>(h: seq<Event<K, I, S>>, k: K): map<I, Option<S>> {
    if h == [] then map[] else
      ReportsStep(Reports(h[..|h| - 1], k), h[|h| - 1], k)
  }

  // The notice sent on the last event of `h`, if any.  The outer None is the panic of reading a
  // status that is not there.
  function Announce<K(==), I(==), S>(h: seq<Event<K, I, S>>): Option<seq<Notice<K, I, S>>>
    requires h != []
  {
    var e := h[|h| - 1];
    if !e.Terminal? || Remaining(h, e.key) != {} then Some([]) else
      var entries := Reports(h, e.key);
      if exists i | i in entries :: entries[i].None? then None
      else Some([Notice(e.key, map i | i in entries && entries[i].Some? :: entries[i].value)])
  }

  // Everything announced over `h`, or None once the aggregator has panicked.
  function Sent<K(==), I(==), S>(h: seq<Event<K, I, S>>): Option<seq<Notice<K, I, S>>> {
    if h == [] then Some([]) else
      var before := Sent(h[..|h| - 1]);
      if before.None? then None else
        var last := Announce(h);
        if last.None? then None else Some(before.value + last.value)
  }

  // One more event: how the functions above move on.
  ghost predicate SnocFacts<K, I, S>(h: seq<Event<K, I, S>>, e: Event<K, I, S>) {
    var h' := h + [e];
    && h'[..|h'| - 1] == h && h'[|h'| - 1] == e
    && (Sent(h').None? <==> Sent(h).None? || Announce(h').None?)
    && (Sent(h').Some? ==> Sent(h').value == Sent(h).value + Announce(h').value)
  }

  lemma Snoc<K, I, S>(h: seq<Event<K, I, S>>, e: Event<K, I, S>)
    ensures SnocFacts(h, e)
  {
    assert (h + [e])[..|h + [e]| - 1] == h;
  }

  lemma SnocFor<K, I, S>(h: seq<Event<K, I, S>>, e: Event<K, I, S>, k: K)
    ensures Remaining(h + [e], k) == RemainingStep(Remaining(h, k), e, k)
    ensures Reports(h + [e], k) == ReportsStep(Reports(h, k), e, k)
  {
    Snoc(h, e);
  }

  function NoticesFor<K(==), I, S>(notices: seq<Notice<K, I, S>>, k: K): seq<Notice<K, I, S>> {
    if notices == [] then [] else
      NoticesFor(notices[..|notices| - 1], k) +
      if notices[|notices| - 1].key == k then [notices[|notices| - 1]] else []
  }

  // ---------------------------------------------------------------- well-formed histories

  ghost predicate IsDiscovery<K, I, S>(e: Event<K, I, S>, k: K) { e.Discovered? && e.key == k }

  ghost predicate IsTerminal<K, I, S>(e: Event<K, I, S>, k: K) { e.Terminal? && e.key == k }

  ghost function DiscoveredItems<K, I, S>(h: seq<Event<K, I, S>>, k: K): set<I> {
    set e | e in h && IsDiscovery(e, k) :: e.item
  }

  ghost function TerminatedItems<K, I, S>(h: seq<Event<K, I, S>>, k: K): set<I> {
    set e | e in h && IsTerminal(e, k) :: e.item
  }

  /** All discoveries of the group precede its terminal events, no item has two terminal events, and
      terminal and other events name discovered items only. */
  ghost predicate WellFormed<K, I, S>(h: seq<Event<K, I, S>>, k: K) {
    && (forall a, b | 0 <= a < b < |h| && IsTerminal(h[a], k) :: !IsDiscovery(h[b], k))
    && (forall a, b | 0 <= a < b < |h| && IsTerminal(h[a], k) && IsTerminal(h[b], k) :: h[a].item != h[b].item)
    && TerminatedItems(h, k) <= DiscoveredItems(h, k)
    && (forall e | e in h && e.Touched? && e.key == k :: e.item in DiscoveredItems(h, k))
  }

  /** Every discovered item of the group gets its terminal event. */
  ghost predicate Complete<K, I, S>(h: seq<Event<K, I, S>>, k: K) {
    DiscoveredItems(h, k) <= TerminatedItems(h, k)
  }

  /** No terminal event of `k` is left in `h` from index `j` on. */
  ghost predicate NoTerminalFrom<K, I, S>(h: seq<Event<K, I, S>>, k: K, j: nat) {
    forall b | j <= b < |h| :: !IsTerminal(h[b], k)
  }

  /** The notice names exactly the discovered items, each with the status it was reported with. */
  ghost predicate Carries<K, I, S>(n: Notice<K, I, S>, h: seq<Event<K, I, S>>, k: K) {
    && n.key == k
    && n.statuses.Keys == DiscoveredItems(h, k)
    && forall e | e in h && IsTerminal(e, k) :: e.item in n.statuses && n.statuses[e.item] == e.status
  }

  // ---------------------------------------------------------------- the bookkeeping on a prefix

  lemma TerminatedAppend<K, I, S>(q: seq<Event<K, I, S>>, e: Event<K, I, S>, k: K)
    ensures TerminatedItems(q + [e], k) == TerminatedItems(q, k) + if IsTerminal(e, k) then {e.item} else {}
  {
    assert forall x | x in q :: x in q + [e];
    assert e in q + [e];
  }

  lemma DiscoveredAppend<K, I, S>(q: seq<Event<K, I, S>>, e: Event<K, I, S>, k: K)
    ensures DiscoveredItems(q + [e], k) == DiscoveredItems(q, k) + if IsDiscovery(e, k) then {e.item} else {}
  {
    assert forall x | x in q :: x in q + [e];
    assert e in q + [e];
  }

  // A discovery comes before all terminal events of the group.
  lemma NothingTerminatedYet<K, I, S>(h: seq<Event<K, I, S>>, k: K, j: nat)
    requires WellFormed(h, k) && j < |h| && IsDiscovery(h[j], k)
    ensures TerminatedItems(h[..j], k) == {}
  {
    forall x | x in h[..j]
      ensures !IsTerminal(x, k)
    {
      var a :| 0 <= a < j && h[..j][a] == x;
      assert h[a] == x;
    }
  }

  lemma {:induction false} RemainingOfPrefix<K, I, S>(h: seq<Event<K, I, S>>, k: K, j: nat)
    requires WellFormed(h, k) && j <= |h|
    ensures Remaining(h[..j], k) == DiscoveredItems(h[..j], k) - TerminatedItems(h[..j], k)
  {
    if j > 0 {
      var q := h[..j - 1];
      var e := h[j - 1];
      assert h[..j] == q + [e];
      RemainingOfPrefix(h, k, j - 1);
      SnocFor(q, e, k);
      TerminatedAppend(q, e, k);
      DiscoveredAppend(q, e, k);
      if IsDiscovery(e, k) {
        NothingTerminatedYet(h, k, j - 1);
      }
    }
  }

  ghost predicate ReportsRight<K, I, S>(h: seq<Event<K, I, S>>, k: K, j: nat)
    requires j <= |h|
  {
    var entries := Reports(h[..j], k);
    && entries.Keys <= DiscoveredItems(h, k)
    && (forall i | i in entries :: entries[i].Some? <==> i in TerminatedItems(h[..j], k))
    && (forall a | 0 <= a < j && IsTerminal(h[a], k) ::
          h[a].item in entries && entries[h[a].item] == Some(h[a].status))
  }

  // Moving on by an event of another group, or by a discovery, changes no entry.
  lemma EntriesStep<K, I, S>(h: seq<Event<K, I, S>>, k: K, j: nat)
    requires 0 < j <= |h|
    ensures Reports(h[..j], k) == ReportsStep(Reports(h[..j - 1], k), h[j - 1], k)
    ensures TerminatedItems(h[..j], k) ==
              TerminatedItems(h[..j - 1], k) + if IsTerminal(h[j - 1], k) then {h[j - 1].item} else {}
  {
    assert h[..j] == h[..j - 1] + [h[j - 1]];
    SnocFor(h[..j - 1], h[j - 1], k);
    TerminatedAppend(h[..j - 1], h[j - 1], k);
  }

  lemma {:induction false} ReportsOfPrefix<K, I, S>(h: seq<Event<K, I, S>>, k: K, j: nat)
    requires WellFormed(h, k) && j <= |h|
    ensures ReportsRight(h, k, j)
  {
    if j > 0 {
      var e := h[j - 1];
      ReportsOfPrefix(h, k, j - 1);
      EntriesStep(h, k, j);
      assert e in h;
      if IsTerminal(e, k) {
        assert e.item in TerminatedItems(h, k);
      } else if e.Touched? && e.key == k && e.item !in Reports(h[..j - 1], k) {
        UnreportedIsUnterminated(h, k, j - 1, e.item);
      }
    }
  }

  lemma UnreportedIsUnterminated<K, I, S>(h: seq<Event<K, I, S>>, k: K, j: nat, item: I)
    requires j <= |h| && ReportsRight(h, k, j) && item !in Reports(h[..j], k)
    ensures item !in TerminatedItems(h[..j], k)
  {
    forall x | x in h[..j] && IsTerminal(x, k) ensures x.item != item {
      var a :| 0 <= a < j && h[a] == x;
    }
  }

  // After a terminal event nothing is left exactly if it was the last one of a complete group.
  lemma EmptyExactlyAtLast<K, I, S>(h: seq<Event<K, I, S>>, k: K, j: nat)
    requires WellFormed(h, k) && j < |h| && IsTerminal(h[j], k)
    ensures Remaining(h[..j + 1], k) == {} <==> NoTerminalFrom(h, k, j + 1) && Complete(h, k)
    ensures NoTerminalFrom(h, k, j + 1) ==> TerminatedItems(h[..j + 1], k) == TerminatedItems(h, k)
  {
    var p := h[..j + 1];
    RemainingOfPrefix(h, k, j + 1);
    assert DiscoveredItems(p, k) == DiscoveredItems(h, k) by {
      forall x | x in h && IsDiscovery(x, k) ensures x in p {
        var b :| 0 <= b < |h| && h[b] == x;
        assert b <= j;
        assert p[b] == x;
      }
    }
    if NoTerminalFrom(h, k, j + 1) {
      forall x | x in h && IsTerminal(x, k) ensures x in p {
        var b :| 0 <= b < |h| && h[b] == x;
        assert b <= j;
        assert p[b] == x;
      }
      assert TerminatedItems(p, k) == TerminatedItems(h, k);
      if !Complete(h, k) {
        var x :| x in DiscoveredItems(h, k) && x !in TerminatedItems(h, k);
        assert x in Remaining(p, k);
      }
    } else {
      var b :| j + 1 <= b < |h| && IsTerminal(h[b], k);
      assert h[b] in h && h[b].item in TerminatedItems(h, k);
      forall x | x in p && IsTerminal(x, k) ensures x.item != h[b].item {
        var a :| 0 <= a < |p| && p[a] == x;
        assert h[a] == x && a < b;
      }
      assert h[b].item in Remaining(p, k);
    }
  }

  // The entries of a group when its last terminal event has been received.
  lemma FinalEntries<K, I, S>(h: seq<Event<K, I, S>>, k: K, j: nat)
    requires WellFormed(h, k) && j < |h| && IsTerminal(h[j], k) && NoTerminalFrom(h, k, j + 1)
    requires Complete(h, k)
    ensures var entries := Reports(h[..j + 1], k);
            && entries.Keys == DiscoveredItems(h, k)
            && (forall i | i in entries :: entries[i].Some?)
            && (forall e | e in h && IsTerminal(e, k) :: e.item in entries && entries[e.item] == Some(e.status))
  {
    var p := h[..j + 1];
    var entries := Reports(p, k);
    EmptyExactlyAtLast(h, k, j);
    ReportsOfPrefix(h, k, j + 1);
    forall e | e in h && IsTerminal(e, k) ensures e.item in entries && entries[e.item] == Some(e.status) {
      var a :| 0 <= a < |h| && h[a] == e;
      assert a <= j;
    }
    forall i | i in DiscoveredItems(h, k) ensures i in entries {
      assert i in TerminatedItems(h, k);
      var e :| e in h && IsTerminal(e, k) && e.item == i;
    }
  }

  // The announcement made at index `j`.
  lemma AnnounceAt<K, I, S>(h: seq<Event<K, I, S>>, k: K, j: nat)
    requires j < |h| && WellFormed(h, k) && h[j].key == k
    ensures Announce(h[..j + 1]).Some?
    ensures
      var sent := Announce(h[..j + 1]).value;
      if IsTerminal(h[j], k) && NoTerminalFrom(h, k, j + 1) && Complete(h, k) then |sent| == 1 && Carries(sent[0], h, k)
      else sent == []
  {
    var p := h[..j + 1];
    assert p[|p| - 1] == h[j];
    if IsTerminal(h[j], k) {
      EmptyExactlyAtLast(h, k, j);
      if NoTerminalFrom(h, k, j + 1) && Complete(h, k) {
        FinalEntries(h, k, j);
        var entries := Reports(p, k);
        var statuses := map i | i in entries && entries[i].Some? :: entries[i].value;
        assert Announce(p) == Some([Notice(k, statuses)]);
        assert statuses.Keys == entries.Keys;
      }
    }
  }

  // ---------------------------------------------------------------- main results

  /** The group has been announced after the first `j` events. */
  ghost predicate Due<K, I, S>(h: seq<Event<K, I, S>>, k: K, j: nat) {
    Complete(h, k) && NoTerminalFrom(h, k, j) && TerminatedItems(h, k) != {}
  }

  ghost predicate AnnouncedAsDue<K, I, S>(h: seq<Event<K, I, S>>, k: K, j: nat, notices: seq<Notice<K, I, S>>) {
    var mine := NoticesFor(notices, k);
    if Due(h, k, j) then |mine| == 1 && Carries(mine[0], h, k) else mine == []
  }

  /** For well-formed histories the aggregator never panics, and at every point of the history a
      group has been announced exactly once if it is complete and its last terminal event has been
      received, and not at all otherwise; the announcement carries exactly the discovered items and
      their statuses. */
  lemma {:induction false} AnnouncedExactlyOnce<K(!new), I(!new), S(!new)>(h: seq<Event<K, I, S>>, j: nat)
    requires j <= |h| && forall k :: WellFormed(h, k)
    ensures Sent(h[..j]).Some?
    ensures forall k :: AnnouncedAsDue(h, k, j, Sent(h[..j]).value)
  {
    if j == 0 {
      forall k ensures NoTerminalFrom(h, k, 0) ==> TerminatedItems(h, k) == {} {
      }
    } else {
      var p := h[..j];
      var k0 := h[j - 1].key;
      assert p[..|p| - 1] == h[..j - 1];
      AnnouncedExactlyOnce(h, j - 1);
      AnnounceAt(h, k0, j - 1);
      var before, sent := Sent(h[..j - 1]).value, Announce(p).value;
      forall k ensures AnnouncedAsDue(h, k, j, before + sent) {
        assert AnnouncedAsDue(h, k, j - 1, before);
        if sent == [] {
          assert before + sent == before;
        } else {
          assert (before + sent)[..|before + sent| - 1] == before;
        }
        assert NoTerminalFrom(h, k, j - 1) <==> NoTerminalFrom(h, k, j) && !IsTerminal(h[j - 1], k);
        if IsTerminal(h[j - 1], k) {
          assert h[j - 1] in h && h[j - 1].item in TerminatedItems(h, k);
        }
      }
    }
  }

  lemma {:induction false} NoTouchAllReported<K, I, S>(h: seq<Event<K, I, S>>, k: K)
    requires forall e | e in h :: !e.Touched?
    ensures forall i | i in Reports(h, k) :: Reports(h, k)[i].Some?
  {
    if h != [] {
      NoTouchAllReported(h[..|h| - 1], k);
    }
  }

  /** Without events that create an entry before its status is known, reading a status can never
      panic, whatever the order of the events. */
  lemma {:induction false} NoTouchNoPanic<K, I, S>(h: seq<Event<K, I, S>>)
    requires forall e | e in h :: !e.Touched?
    ensures Sent(h).Some?
  {
    if h != [] {
      NoTouchNoPanic(h[..|h| - 1]);
      NoTouchAllReported(h, h[|h| - 1].key);
    }
  }

  // ---------------------------------------------------------------- arbitrary histories

  /** An item is awaited while it has been discovered and not terminated since. */
  lemma {:induction false} AwaitedIff<K, I, S>(h: seq<Event<K, I, S>>, k: K, item: I)
    ensures item in Remaining(h, k) <==>
      exists d: nat :: d < |h| && h[d] == Discovered(k, item) && NotTerminatedFrom(h, k, item, d)
    decreases |h|
  {
    if h != [] {
      var n := |h| - 1;
      var p := h[..n];
      AwaitedIff(p, k, item);
      assert forall b: nat | b < n :: p[b] == h[b];
      if item in Remaining(h, k) {
        if h[n] == Discovered(k, item) {
          assert NotTerminatedFrom(h, k, item, n);
        } else {
          var d: nat :| d < n && p[d] == Discovered(k, item) && NotTerminatedFrom(p, k, item, d);
          assert NotTerminatedFrom(h, k, item, d);
        }
      }
      if d: nat :| d < |h| && h[d] == Discovered(k, item) && NotTerminatedFrom(h, k, item, d) {
        if d < n {
          assert NotTerminatedFrom(p, k, item, d);
        }
      }
    }
  }

  ghost predicate NotTerminatedFrom<K, I, S>(h: seq<Event<K, I, S>>, k: K, item: I, d: nat) {
    forall b: nat | d < b < |h| :: !(IsTerminal(h[b], k) && h[b].item == item)
  }

  // An item has an entry once it is touched or terminated, with a status once it is terminated.
  lemma {:induction false} EntriesAre<K, I, S>(h: seq<Event<K, I, S>>, k: K, item: I)
    ensures item in Reports(h, k) <==> Touched(k, item) in h || item in TerminatedItems(h, k)
    ensures item in Reports(h, k) ==> (Reports(h, k)[item].Some? <==> item in TerminatedItems(h, k))
    decreases |h|
  {
    if h != [] {
      var n := |h| - 1;
      assert h == h[..n] + [h[n]];
      EntriesAre(h[..n], k, item);
      TerminatedAppend(h[..n], h[n], k);
    }
  }

  /** Some item of the group has been touched, and never reported. */
  ghost predicate UnreportedTouch<K, I(!new), S>(h: seq<Event<K, I, S>>, k: K) {
    exists item: I :: Touched(k, item) in h && item !in TerminatedItems(h, k)
  }

  /** The event at `j` is a terminal one that leaves its group nothing to await. */
  ghost predicate Announces<K, I, S>(h: seq<Event<K, I, S>>, k: K, j: nat) {
    j < |h| && IsTerminal(h[j], k) && Remaining(h[..j + 1], k) == {}
  }

  ghost predicate PanicsAt<K, I(!new), S>(h: seq<Event<K, I, S>>, j: nat) {
    j < |h| && Announces(h, h[j].key, j) && UnreportedTouch(h[..j + 1], h[j].key)
  }

  lemma AnnounceFails<K, I(!new), S>(h: seq<Event<K, I, S>>)
    requires h != []
    ensures Announce(h).None? <==> PanicsAt(h, |h| - 1)
  {
    var n := |h| - 1;
    var k := h[n].key;
    assert h[..n + 1] == h;
    forall item: I
      ensures item in Reports(h, k) && Reports(h, k)[item].None? <==> Touched(k, item) in h && item !in TerminatedItems(h, k)
    {
      EntriesAre(h, k, item);
    }
  }

  /** The aggregator panics exactly when, at some terminal event leaving its group nothing to await,
      an item of the group has been touched and not reported. */
  lemma {:induction false} PanicIff<K, I(!new), S>(h: seq<Event<K, I, S>>)
    ensures Sent(h).None? <==> exists j: nat :: PanicsAt(h, j)
    decreases |h|
  {
    if h != [] {
      var n := |h| - 1;
      var p := h[..n];
      PanicIff(p);
      AnnounceFails(h);
      forall j: nat | j < n
        ensures PanicsAt(p, j) <==> PanicsAt(h, j)
      {
        assert p[..j + 1] == h[..j + 1] && p[j] == h[j];
      }
      if j: nat :| PanicsAt(h, j) {
        assert j == n || PanicsAt(p, j);
      }
    }
  }

  // ---------------------------------------------------------------- announced once

  /** Terminal and other events of the group name items discovered before, and an item's terminal event
      is followed by no other bookkeeping of it.  Discoveries may come at any time. */
  ghost predicate Orderly<K, I, S>(h: seq<Event<K, I, S>>, k: K) {
    && (forall b: nat | b < |h| && h[b].key == k && !h[b].Discovered? :: Discovered(k, h[b].item) in h[..b])
    && (forall a: nat, b: nat | a < b < |h| && IsTerminal(h[a], k) && h[b].key == k && !h[b].Touched? ::
          h[a].item != h[b].item)
  }

  /** No item is discovered after all those discovered before it had been terminated. */
  ghost predicate NoLateDiscovery<K, I, S>(h: seq<Event<K, I, S>>, k: K) {
    forall a: nat, b: nat | a < b < |h| && IsTerminal(h[a], k) && IsDiscovery(h[b], k) ::
      !(DiscoveredItems(h[..a + 1], k) <= TerminatedItems(h[..a + 1], k))
  }

  lemma OrderlyPrefix<K, I, S>(h: seq<Event<K, I, S>>, k: K, j: nat)
    requires Orderly(h, k) && j <= |h|
    ensures Orderly(h[..j], k)
  {
    var p := h[..j];
    forall b: nat | b < |p|
      ensures p[b] == h[b] && p[..b] == h[..b]
    {
    }
  }

  lemma TerminatedAt<K, I, S>(h: seq<Event<K, I, S>>, k: K, item: I) returns (a: nat)
    requires item in TerminatedItems(h, k)
    ensures a < |h| && IsTerminal(h[a], k) && h[a].item == item
  {
    var e :| e in h && IsTerminal(e, k) && e.item == item;
    a :| a < |h| && h[a] == e;
  }

  // An item is not terminated before its last bookkeeping.
  lemma NotTerminatedBefore<K, I, S>(h: seq<Event<K, I, S>>, k: K, b: nat, i: nat)
    requires Orderly(h, k) && i < b < |h| && h[b].key == k && !h[b].Touched?
    ensures h[b].item !in TerminatedItems(h[..i + 1], k)
  {
    forall e | e in h[..i + 1] && IsTerminal(e, k)
      ensures e.item != h[b].item
    {
      var a: nat :| a < i + 1 && h[..i + 1][a] == e;
      assert h[a] == e;
    }
  }

  lemma TerminatedAreDiscovered<K, I, S>(h: seq<Event<K, I, S>>, k: K)
    requires Orderly(h, k)
    ensures TerminatedItems(h, k) <= DiscoveredItems(h, k)
  {
    forall item | item in TerminatedItems(h, k)
      ensures item in DiscoveredItems(h, k)
    {
      var b := TerminatedAt(h, k, item);
      assert Discovered(k, item) in h[..b];
      assert IsDiscovery<K, I, S>(Discovered(k, item), k) && Discovered(k, item) in h;
    }
  }

  lemma {:induction false} RemainingOrderly<K, I, S>(h: seq<Event<K, I, S>>, k: K)
    requires Orderly(h, k)
    ensures Remaining(h, k) == DiscoveredItems(h, k) - TerminatedItems(h, k)
    decreases |h|
  {
    if h != [] {
      var n := |h| - 1;
      var p, e := h[..n], h[n];
      assert h == p + [e];
      OrderlyPrefix(h, k, n);
      RemainingOrderly(p, k);
      SnocFor(p, e, k);
      TerminatedAppend(p, e, k);
      DiscoveredAppend(p, e, k);
      if IsDiscovery(e, k) && n > 0 {
        NotTerminatedBefore(h, k, n, n - 1);
      }
    }
  }

  lemma {:induction false} StatusesOrderly<K, I, S>(h: seq<Event<K, I, S>>, k: K)
    requires Orderly(h, k)
    ensures forall e | e in h && IsTerminal(e, k) :: e.item in Reports(h, k) && Reports(h, k)[e.item] == Some(e.status)
    decreases |h|
  {
    if h != [] {
      var n := |h| - 1;
      OrderlyPrefix(h, k, n);
      StatusesOrderly(h[..n], k);
      forall e | e in h && IsTerminal(e, k)
        ensures e.item in Reports(h, k) && Reports(h, k)[e.item] == Some(e.status)
      {
        var a: nat :| a < |h| && h[a] == e;
        if a < n {
          assert h[..n][a] == e;
        }
      }
    }
  }

  function StatusesOf<I, S>(entries: map<I, Option<S>>): map<I, S> {
    map i | i in entries && entries[i].Some? :: entries[i].value
  }

  // The notices of a group, by the events that announce it.
  ghost function NoticesAt<K, I, S>(h: seq<Event<K, I, S>>, k: K): seq<Notice<K, I, S>> {
    if h == [] then []
    else
      NoticesAt(h[..|h| - 1], k) + if Announces(h, k, |h| - 1) then [Notice(k, StatusesOf(Reports(h, k)))] else []
  }

  lemma {:induction false} NoticesAreAt<K, I, S>(h: seq<Event<K, I, S>>, k: K)
    requires Sent(h).Some?
    ensures NoticesFor(Sent(h).value, k) == NoticesAt(h, k)
    decreases |h|
  {
    if h != [] {
      var n := |h| - 1;
      NoticesAreAt(h[..n], k);
      assert h[..n + 1] == h;
      var before, last := Sent(h[..n]).value, Announce(h).value;
      if last == [] {
        assert before + last == before;
      } else {
        assert (before + last)[..|before|] == before;
      }
    }
  }

  lemma {:induction false} OneNoticeIff<K, I, S>(h: seq<Event<K, I, S>>, k: K, j: nat)
    requires Announces(h, k, j)
    ensures NoticesAt(h, k) != []
    ensures |NoticesAt(h, k)| == 1 <==> forall i: nat | Announces(h, k, i) :: i == j
    ensures |NoticesAt(h, k)| == 1 ==> NoticesAt(h, k)[0] == Notice(k, StatusesOf(Reports(h[..j + 1], k)))
    decreases |h|
  {
    var n := |h| - 1;
    var p := h[..n];
    forall i: nat | i < n
      ensures Announces(p, k, i) <==> Announces(h, k, i)
    {
      assert p[..i + 1] == h[..i + 1] && p[i] == h[i];
    }
    assert h[..n + 1] == h;
    if j < n {
      OneNoticeIff(p, k, j);
      assert p[..j + 1] == h[..j + 1];
    } else {
      NoNotices(p, k);
    }
  }

  lemma {:induction false} NoNotices<K, I, S>(h: seq<Event<K, I, S>>, k: K)
    ensures NoticesAt(h, k) == [] <==> forall i: nat :: !Announces(h, k, i)
    decreases |h|
  {
    if h != [] {
      var n := |h| - 1;
      var p := h[..n];
      NoNotices(p, k);
      forall i: nat | i < n
        ensures Announces(p, k, i) <==> Announces(h, k, i)
      {
        assert p[..i + 1] == h[..i + 1] && p[i] == h[i];
      }
    }
  }

  // A touched item is reported or still awaited.
  lemma OrderlyTouch<K, I(!new), S>(h: seq<Event<K, I, S>>, k: K)
    requires Orderly(h, k) && Remaining(h, k) == {}
    ensures !UnreportedTouch(h, k)
  {
    NothingAwaited(h, k);
    forall item: I | Touched(k, item) in h
      ensures item in TerminatedItems(h, k)
    {
      var b: nat :| b < |h| && h[b] == Touched(k, item);
      assert Discovered(k, item) in h[..b];
      assert IsDiscovery<K, I, S>(Discovered(k, item), k) && Discovered(k, item) in h;
      assert item in DiscoveredItems(h, k);
    }
  }

  lemma NothingAwaited<K, I, S>(h: seq<Event<K, I, S>>, k: K)
    requires Orderly(h, k)
    ensures Remaining(h, k) == {} <==> DiscoveredItems(h, k) <= TerminatedItems(h, k)
    ensures Remaining(h, k) == {} ==> DiscoveredItems(h, k) == TerminatedItems(h, k)
  {
    RemainingOrderly(h, k);
    TerminatedAreDiscovered(h, k);
    forall item | item in DiscoveredItems(h, k)
      ensures item in Remaining(h, k) || item in TerminatedItems(h, k)
    {
    }
  }

  lemma OrderlyNoPanic<K(!new), I(!new), S>(h: seq<Event<K, I, S>>)
    requires forall k :: Orderly(h, k)
    ensures Sent(h).Some?
  {
    PanicIff(h);
    forall j: nat | j < |h|
      ensures !PanicsAt(h, j)
    {
      OrderlyPrefix(h, h[j].key, j + 1);
      if Announces(h, h[j].key, j) {
        OrderlyTouch(h[..j + 1], h[j].key);
      }
    }
  }

  // The last terminal event of the group.
  lemma {:induction false} LastTerminal<K, I, S>(h: seq<Event<K, I, S>>, k: K) returns (l: nat)
    requires TerminatedItems(h, k) != {}
    ensures l < |h| && IsTerminal(h[l], k) && NoTerminalFrom(h, k, l + 1)
    decreases |h|
  {
    var n := |h| - 1;
    if IsTerminal(h[n], k) {
      l := n;
    } else {
      assert h == h[..n] + [h[n]];
      TerminatedAppend(h[..n], h[n], k);
      l := LastTerminal(h[..n], k);
      assert forall b: nat | b < n :: h[..n][b] == h[b];
    }
  }

  lemma PrefixItems<K, I, S>(h: seq<Event<K, I, S>>, k: K, j: nat)
    requires j <= |h|
    ensures DiscoveredItems(h[..j], k) <= DiscoveredItems(h, k) && TerminatedItems(h[..j], k) <= TerminatedItems(h, k)
  {
    assert forall x | x in h[..j] :: x in h;
  }

  // A complete group whose items were all discovered in time is announced at its last terminal event,
  // and only there.
  lemma CompleteAnnouncesOnce<K, I, S>(h: seq<Event<K, I, S>>, k: K, l: nat)
    requires Orderly(h, k) && Complete(h, k) && NoLateDiscovery(h, k)
    requires l < |h| && IsTerminal(h[l], k) && NoTerminalFrom(h, k, l + 1)
    ensures Announces(h, k, l) && forall i: nat | Announces(h, k, i) :: i == l
    ensures DiscoveredItems(h[..l + 1], k) == DiscoveredItems(h, k) == TerminatedItems(h[..l + 1], k) == TerminatedItems(h, k)
  {
    var p := h[..l + 1];
    OrderlyPrefix(h, k, l + 1);
    RemainingOrderly(p, k);
    TerminatedAreDiscovered(h, k);
    PrefixItems(h, k, l + 1);
    forall item | item in TerminatedItems(h, k)
      ensures item in TerminatedItems(p, k)
    {
      var a := TerminatedAt(h, k, item);
      assert a <= l && p[a] == h[a] && h[a] in p;
    }
    forall i: nat | Announces(h, k, i)
      ensures i == l
    {
      if i < l {
        EarlyAnnounceMeansLate(h, k, i, l);
      }
    }
  }

  // Behind an announcement a further terminal event takes a later discovery.
  lemma EarlyAnnounceMeansLate<K, I, S>(h: seq<Event<K, I, S>>, k: K, i: nat, l: nat)
    requires Orderly(h, k) && Announces(h, k, i) && i < l < |h| && IsTerminal(h[l], k)
    ensures !NoLateDiscovery(h, k)
  {
    var q := h[..i + 1];
    OrderlyPrefix(h, k, i + 1);
    NothingAwaited(q, k);
    assert Discovered(k, h[l].item) in h[..l];
    var d: nat :| d < l && h[..l][d] == Discovered(k, h[l].item);
    assert IsDiscovery(h[d], k);
    if d <= i {
      assert q[d] == h[d] && h[d] in q;
    }
    NotTerminatedBefore(h, k, l, i);
    assert i < d;
  }

  /** In an orderly history a group is announced exactly once, with all its discovered items, exactly
      when it is complete and none of its items was discovered after all those before it had been
      terminated. */
  lemma AnnouncedOnceIff<K(!new), I(!new), S>(h: seq<Event<K, I, S>>, k: K)
    requires forall k' :: Orderly(h, k')
    ensures Sent(h).Some?
    ensures var mine := NoticesFor(Sent(h).value, k);
      (|mine| == 1 && Carries(mine[0], h, k))
      <==> (TerminatedItems(h, k) != {} && Complete(h, k) && NoLateDiscovery(h, k))
  {
    OrderlyNoPanic(h);
    NoticesAreAt(h, k);
    var mine := NoticesAt(h, k);
    if TerminatedItems(h, k) != {} && Complete(h, k) && NoLateDiscovery(h, k) {
      var l := LastTerminal(h, k);
      CompleteAnnouncesOnce(h, k, l);
      OneNoticeIff(h, k, l);
      NoticeCarries(h, k, l);
    }
    if |mine| == 1 && Carries(mine[0], h, k) {
      NoNotices(h, k);
      var j: nat :| Announces(h, k, j);
      OneNoticeIff(h, k, j);
      CarryingNoticeIsLast(h, k, j);
    }
  }

  lemma NoticeCarries<K, I, S>(h: seq<Event<K, I, S>>, k: K, l: nat)
    requires Orderly(h, k) && l < |h| && NoTerminalFrom(h, k, l + 1)
    requires DiscoveredItems(h, k) == TerminatedItems(h[..l + 1], k)
    ensures Carries(Notice(k, StatusesOf(Reports(h[..l + 1], k))), h, k)
  {
    var p := h[..l + 1];
    OrderlyPrefix(h, k, l + 1);
    StatusesOrderly(p, k);
    KeysOfStatuses(p, k);
    forall e | e in h && IsTerminal(e, k)
      ensures e in p
    {
      var a: nat :| a < |h| && h[a] == e;
      assert p[a] == e;
    }
  }

  lemma KeysOfStatuses<K, I, S>(h: seq<Event<K, I, S>>, k: K)
    ensures StatusesOf(Reports(h, k)).Keys == TerminatedItems(h, k)
  {
    var statuses := StatusesOf(Reports(h, k));
    forall item: I | item in statuses || item in TerminatedItems(h, k)
      ensures item in statuses.Keys && item in TerminatedItems(h, k)
    {
      EntriesAre(h, k, item);
    }
  }

  lemma CarryingNoticeIsLast<K, I, S>(h: seq<Event<K, I, S>>, k: K, j: nat)
    requires Orderly(h, k) && Announces(h, k, j) && forall i: nat | Announces(h, k, i) :: i == j
    requires Carries(Notice(k, StatusesOf(Reports(h[..j + 1], k))), h, k)
    ensures TerminatedItems(h, k) != {} && Complete(h, k) && NoLateDiscovery(h, k)
  {
    KeysOfStatuses(h[..j + 1], k);
    PrefixItems(h, k, j + 1);
    assert h[j] in h && h[j].item in TerminatedItems(h, k);
    forall a: nat, b: nat | a < b < |h| && IsTerminal(h[a], k) && IsDiscovery(h[b], k)
      ensures !(DiscoveredItems(h[..a + 1], k) <= TerminatedItems(h[..a + 1], k))
    {
      AwaitedBeforeDiscovery(h, k, j, a, b);
    }
  }

  lemma AwaitedBeforeDiscovery<K, I, S>(h: seq<Event<K, I, S>>, k: K, j: nat, a: nat, b: nat)
    requires Orderly(h, k) && j < |h| && forall i: nat | Announces(h, k, i) :: i == j
    requires DiscoveredItems(h, k) == TerminatedItems(h[..j + 1], k)
    requires a < b < |h| && IsTerminal(h[a], k) && IsDiscovery(h[b], k)
    ensures !(DiscoveredItems(h[..a + 1], k) <= TerminatedItems(h[..a + 1], k))
  {
    assert h[b] in h && h[b].item in DiscoveredItems(h, k);
    NotTerminatedBefore(h, k, b, a);
    assert a != j;
    assert !Announces(h, k, a);
    OrderlyPrefix(h, k, a + 1);
    NothingAwaited(h[..a + 1], k);
  }

  // ---------------------------------------------------------------- concrete histories

  /** Touching an item that never gets a terminal event makes the announcement of its group panic. */
  lemma UndiscoveredTouchPanics<K, I, S>(k: K, touched: I, item: I, status: S)
    requires touched != item
    ensures Sent([Discovered(k, item), Touched(k, touched), Terminal(k, item, status)]).None?
  {
    var h := [Discovered(k, item), Touched(k, touched), Terminal(k, item, status)];
    assert h[..2][..1] == [h[0]] && h[..2] == [h[0], h[1]] && [h[0]][..0] == [];
    assert Reports([h[0]], k) == map[];
    assert Reports(h[..2], k) == map[touched := None];
    assert Remaining([h[0]], k) == {item};
    assert Remaining(h[..2], k) == {item};
    assert Remaining(h, k) == {};
    assert touched in Reports(h, k) && Reports(h, k)[touched] == None;
    assert Announce(h).None?;
  }

  /** When discoveries and terminal events interleave, the same group is announced again. */
  lemma InterleavedDiscoveryAnnouncesTwice<K, I, S>(k: K, a: I, b: I, s: S)
    requires a != b
    ensures var h := [Discovered(k, a), Terminal(k, a, s), Discovered(k, b), Terminal(k, b, s)];
            Sent(h).Some? && |Sent(h).value| == 2 && Sent(h).value[0].key == Sent(h).value[1].key == k
  {
    var h := [Discovered(k, a), Terminal(k, a, s), Discovered(k, b), Terminal(k, b, s)];
    var h0: seq<Event<K, I, S>>, h1, h2, h3 := [], [h[0]], [h[0], h[1]], [h[0], h[1], h[2]];
    assert h[..3] == h3 && h3[..2] == h2 && h2[..1] == h1 && h1[..0] == h0;
    assert Remaining(h1, k) == {a} && Remaining(h2, k) == {} && Remaining(h3, k) == {b} && Remaining(h, k) == {};
    assert Reports(h1, k) == map[] && Reports(h2, k) == map[a := Some(s)] && Reports(h3, k) == Reports(h2, k);
    assert Reports(h, k) == map[a := Some(s)][b := Some(s)];
    assert Announce(h1) == Some([]) && Announce(h3) == Some([]);
    assert |Announce(h2).value| == 1 && |Announce(h).value| == 1;
    assert Sent(h0) == Some([]);
    assert Sent(h1).value == [] && |Sent(h2).value| == 1 && |Sent(h3).value| == 1;
  }
}
