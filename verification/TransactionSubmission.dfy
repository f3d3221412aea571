/**
 Sending transactions to a substrate node: the mempool permits, the lock of each account, the
 submission permits, the nonce manager and the two tasks of the mempool limiter.

 An `Action` is one stretch between await points; a send may also fail or be dropped at any await
 point, nonces may be asked for outside of a send, and blocks may contain any transactions.
 */
module TransactionSubmission {
  import opened Common

  type Address = nat

  const SUBSTRATE_MEMPOOL_LIMIT: nat := 10_000

  // The hash of a signed envelope, taken to be collision-free: it determines the envelope.
  datatype TxHash = TxHash(from: Address, nonce: nat, payload: nat)

  // ---------------------------------------------------------------- the mempool limiter

  datatype MempoolEntry = Awaited | Encountered

  // `received`, `inBlock` and `released` record what happened; the code keeps the other fields.
  datatype Limiter = Limiter(
    free: nat, channel: seq<TxHash>, entries: map<TxHash, MempoolEntry>, crashed: bool,
    received: set<TxHash>, inBlock: set<TxHash>, released: multiset<TxHash>)

  const NewLimiter: Limiter := Limiter(SUBSTRATE_MEMPOOL_LIMIT, [], map[], false, {}, {}, multiset{})

  function Observe(l: Limiter, h: TxHash): Limiter { l.(channel := l.channel + [h]) }

  // One extrinsic of a best block: an awaited permit comes back, the transaction counts as seen.
  function Encounter(l: Limiter, h: TxHash): Limiter {
    var seen := l.(entries := l.entries[h := Encountered], inBlock := l.inBlock + {h});
    if h in l.entries && l.entries[h].Awaited?
    then seen.(free := l.free + 1, released := l.released + multiset{h})
    else seen
  }

  // One message of the channel: the permit is parked, or comes back if the transaction was seen.
  function Receive(l: Limiter): Limiter
    requires l.channel != []
  {
    var h := l.channel[0];
    var rest := l.(channel := l.channel[1..], received := l.received + {h});
    if h !in l.entries then rest.(entries := l.entries[h := Awaited])
    else if l.entries[h].Encountered? then rest.(free := l.free + 1, released := l.released + multiset{h})
    else rest.(crashed := true)
  }

  function AwaitedHashes(l: Limiter): set<TxHash> { set h | h in l.entries && l.entries[h].Awaited? }

  // Permits in the limiter's hands: free, travelling in the channel, or parked.
  function LimiterPermits(l: Limiter): nat { l.free + |l.channel| + |AwaitedHashes(l)| }

  ghost predicate NoDuplicates<T>(s: seq<T>) { forall i, j | 0 <= i < j < |s| :: s[i] != s[j] }

  /** Parked exactly while observed and not yet seen in a block; released once, when both happened. */
  ghost predicate LimiterOk(l: Limiter) {
    && !l.crashed
    && NoDuplicates(l.channel)
    && (forall h | h in l.channel :: h !in l.received)
    && (forall h :: h in l.entries <==> h in l.inBlock || h in l.received)
    && (forall h | h in l.entries :: l.entries[h].Encountered? <==> h in l.inBlock)
    && (forall h :: l.released[h] == if h in l.received && h in l.inBlock then 1 else 0)
  }

  lemma ObserveOk(l: Limiter, h: TxHash)
    requires LimiterOk(l) && h !in l.received && h !in l.channel
    ensures LimiterOk(Observe(l, h)) && LimiterPermits(Observe(l, h)) == LimiterPermits(l) + 1
  {
    assert AwaitedHashes(Observe(l, h)) == AwaitedHashes(l);
  }

  lemma EncounterPermits(l: Limiter, h: TxHash)
    ensures LimiterPermits(Encounter(l, h)) == LimiterPermits(l)
  {
    assert AwaitedHashes(Encounter(l, h)) == AwaitedHashes(l) - {h};
  }

  lemma EncounterOk(l: Limiter, h: TxHash)
    requires LimiterOk(l)
    ensures LimiterOk(Encounter(l, h)) && LimiterPermits(Encounter(l, h)) == LimiterPermits(l)
  {
    EncounterPermits(l, h);
    assert h in l.entries && l.entries[h].Awaited? <==> h in l.received && h !in l.inBlock;
  }

  // The extrinsics of a block, one after the other.
  function EncounterAll(l: Limiter, hashes: seq<TxHash>): Limiter {
    if hashes == [] then l else Encounter(EncounterAll(l, hashes[..|hashes| - 1]), hashes[|hashes| - 1])
  }

  lemma {:induction false} EncounterAllOk(l: Limiter, hashes: seq<TxHash>)
    requires LimiterOk(l)
    ensures var t := EncounterAll(l, hashes);
      && LimiterOk(t) && LimiterPermits(t) == LimiterPermits(l)
      && t.inBlock == l.inBlock + (set h | h in hashes)
      && t.channel == l.channel && t.received == l.received
    decreases |hashes|
  {
    if hashes != [] {
      var n := |hashes| - 1;
      EncounterAllOk(l, hashes[..n]);
      EncounterOk(EncounterAll(l, hashes[..n]), hashes[n]);
      assert hashes == hashes[..n] + [hashes[n]];
    }
  }

  lemma ReceivePermits(l: Limiter)
    requires l.channel != [] && !Receive(l).crashed
    ensures LimiterPermits(Receive(l)) == LimiterPermits(l)
  {
    var h := l.channel[0];
    if h !in l.entries {
      assert AwaitedHashes(Receive(l)) == AwaitedHashes(l) + {h};
    } else {
      assert AwaitedHashes(Receive(l)) == AwaitedHashes(l);
    }
  }

  lemma ReceiveOk(l: Limiter)
    requires LimiterOk(l) && l.channel != []
    ensures LimiterOk(Receive(l)) && LimiterPermits(Receive(l)) == LimiterPermits(l)
  {
    var h := l.channel[0];
    assert h in l.channel && h !in l.channel[1..];
    ReceivePermits(l);
  }

  // ---------------------------------------------------------------- the nonce manager

  function NextNonce(nonces: map<Address, nat>, a: Address): nat { if a in nonces then nonces[a] + 1 else 0 }

  // ---------------------------------------------------------------- the senders

  datatype Phase =
    | AwaitMempool | AwaitAccount | AwaitSubmission
    | Preparing   // gas estimation and filling, no nonce yet
    | Filled      // the nonce has been issued
    | Submitting  // the submission future has been called
    | Sent | Failed

  // `named` says that the transaction came with its sender's address, without which no account lock is
  // taken; the sender then is the provider's default signer.
  datatype Sender = Sender(from: Address, named: bool, payload: nat, phase: Phase, nonce: Option<nat>)

  predicate HoldsMempool(p: Phase) { p.AwaitAccount? || HoldsAccount(p) }
  predicate HoldsAccount(p: Phase) { p.AwaitSubmission? || HoldsSubmission(p) }
  predicate Locks(x: Sender) { x.named && HoldsAccount(x.phase) }
  predicate HoldsSubmission(p: Phase) { p.Preparing? || p.Filled? || p.Submitting? }
  predicate HasNonce(p: Phase) { p.Filled? || p.Submitting? || p.Sent? }

  // `issued` and `submitted` record the nonces handed out per account and the submission calls.
  datatype State = State(
    senders: seq<Sender>, submissionFree: nat, locks: map<Address, nat>, nonces: map<Address, nat>,
    limiter: Limiter, issued: map<Address, seq<nat>>, submitted: seq<(Address, nat)>)

  datatype Action =
    | TakeMempool(i: nat) | LockAccount(i: nat) | TakeSubmission(i: nat) | IssueNonce(i: nat)
    | Submit(i: nat) | SubmitOk(i: nat)
    | Abandon(i: nat)              // preparation or submission failed, or the future was dropped
    | IssueElsewhere(a: Address)
    | BlockTransaction(h: TxHash)
    | ReceiveObservation

  ghost predicate Initial(limit: Option<nat>, s: State) {
    && (forall i | 0 <= i < |s.senders| :: s.senders[i].phase.AwaitMempool?)
    && s == State(s.senders, limit.GetOr(0), map[], map[], NewLimiter, map[], [])
  }

  predicate InPhase(s: State, i: nat, p: Phase) { i < |s.senders| && s.senders[i].phase == p }

  predicate Enabled(limit: Option<nat>, s: State, a: Action) {
    match a
    case TakeMempool(i) => InPhase(s, i, AwaitMempool) && s.limiter.free > 0
    case LockAccount(i) => InPhase(s, i, AwaitAccount) && (s.senders[i].named ==> s.senders[i].from !in s.locks)
    case TakeSubmission(i) => InPhase(s, i, AwaitSubmission) && (limit.None? || s.submissionFree > 0)
    case IssueNonce(i) => InPhase(s, i, Preparing)
    case Submit(i) => InPhase(s, i, Filled) && s.senders[i].nonce.Some?
    case SubmitOk(i) => InPhase(s, i, Submitting) && s.senders[i].nonce.Some?
    case Abandon(i) => i < |s.senders| && !s.senders[i].phase.Sent? && !s.senders[i].phase.Failed?
    case IssueElsewhere(_) => true
    case BlockTransaction(_) => true
    case ReceiveObservation => s.limiter.channel != []
  }

  function Move(s: State, i: nat, p: Phase): seq<Sender>
    requires i < |s.senders|
  {
    s.senders[i := s.senders[i].(phase := p)]
  }

  // The guards of a send are dropped: whatever it holds goes back, except a permit handed over.
  function Finish(limit: Option<nat>, s: State, i: nat, p: Phase): State
    requires i < |s.senders|
  {
    var sender := s.senders[i];
    s.(senders := Move(s, i, p),
       locks := if Locks(sender) then s.locks - {sender.from} else s.locks,
       submissionFree := if HoldsSubmission(sender.phase) && limit.Some? then s.submissionFree + 1
                         else s.submissionFree)
  }

  function Issue(s: State, a: Address): State {
    var n := NextNonce(s.nonces, a);
    s.(nonces := s.nonces[a := n],
       issued := s.issued[a := (if a in s.issued then s.issued[a] else []) + [n]])
  }

  function HashOf(sender: Sender): TxHash
    requires sender.nonce.Some?
  {
    TxHash(sender.from, sender.nonce.value, sender.payload)
  }

  function Apply(limit: Option<nat>, s: State, a: Action): State
    requires Enabled(limit, s, a)
  {
    match a
    case TakeMempool(i) =>
      s.(senders := Move(s, i, AwaitAccount), limiter := s.limiter.(free := s.limiter.free - 1))
    case LockAccount(i) =>
      s.(senders := Move(s, i, AwaitSubmission),
         locks := if s.senders[i].named then s.locks[s.senders[i].from := i] else s.locks)
    case TakeSubmission(i) =>
      s.(senders := Move(s, i, Preparing),
         submissionFree := if limit.Some? then s.submissionFree - 1 else s.submissionFree)
    case IssueNonce(i) =>
      var issued := Issue(s, s.senders[i].from);
      issued.(senders := s.senders[i := s.senders[i].(phase := Filled,
                                                      nonce := Some(NextNonce(s.nonces, s.senders[i].from)))])
    case Submit(i) =>
      s.(senders := Move(s, i, Submitting), submitted := s.submitted + [(s.senders[i].from, s.senders[i].nonce.value)])
    case SubmitOk(i) => Finish(limit, s, i, Sent).(limiter := Observe(s.limiter, HashOf(s.senders[i])))
    case Abandon(i) =>
      Finish(limit, s, i, Failed).(
        limiter := if HoldsMempool(s.senders[i].phase) then s.limiter.(free := s.limiter.free + 1) else s.limiter)
    case IssueElsewhere(x) => Issue(s, x)
    case BlockTransaction(h) => s.(limiter := Encounter(s.limiter, h))
    case ReceiveObservation => s.(limiter := Receive(s.limiter))
  }

  predicate Legal(limit: Option<nat>, s: State, run: seq<Action>)
    decreases |run|
  {
    run == [] || (Enabled(limit, s, run[0]) && Legal(limit, Apply(limit, s, run[0]), run[1..]))
  }

  function Exec(limit: Option<nat>, s: State, run: seq<Action>): State
    requires Legal(limit, s, run)
    decreases |run|
  {
    if run == [] then s else Exec(limit, Apply(limit, s, run[0]), run[1..])
  }

  // ---------------------------------------------------------------- invariants

  function MempoolHolders(senders: seq<Sender>): set<nat> {
    set i: nat | i < |senders| && HoldsMempool(senders[i].phase)
  }

  function SubmissionHolders(senders: seq<Sender>): set<nat> {
    set i: nat | i < |senders| && HoldsSubmission(senders[i].phase)
  }

  ghost predicate PermitsOk(limit: Option<nat>, s: State) {
    && LimiterPermits(s.limiter) + |MempoolHolders(s.senders)| == SUBSTRATE_MEMPOOL_LIMIT
    && (limit.Some? ==> s.submissionFree + |SubmissionHolders(s.senders)| == limit.value)
  }

  // An account is locked exactly while one of its senders is between lock and unlock.
  ghost predicate LocksMatch(senders: seq<Sender>, locks: map<Address, nat>) {
    && (forall a | a in locks :: locks[a] < |senders| && senders[locks[a]].from == a && Locks(senders[locks[a]]))
    && (forall i: nat | i < |senders| && Locks(senders[i]) :: senders[i].from in locks && locks[senders[i].from] == i)
  }

  ghost predicate LocksOk(s: State) { LocksMatch(s.senders, s.locks) }

  ghost predicate IssuedOk(s: State) {
    && s.issued.Keys == s.nonces.Keys
    && (forall a | a in s.nonces ::
          |s.issued[a]| == s.nonces[a] + 1 && forall k: nat | k < |s.issued[a]| :: s.issued[a][k] == k)
  }

  ghost predicate SenderNoncesOk(s: State) {
    && (forall i: nat | i < |s.senders| && HasNonce(s.senders[i].phase) ::
          && s.senders[i].nonce.Some?
          && s.senders[i].from in s.nonces && s.senders[i].nonce.value <= s.nonces[s.senders[i].from])
    && (forall i: nat, j: nat | i < j < |s.senders| && HasNonce(s.senders[i].phase) && HasNonce(s.senders[j].phase) ::
          s.senders[i].from == s.senders[j].from ==> s.senders[i].nonce != s.senders[j].nonce)
  }

  ghost predicate Increasing(calls: seq<(Address, nat)>, a: Address) {
    forall p, q | 0 <= p < q < |calls| && calls[p].0 == calls[q].0 == a :: calls[p].1 < calls[q].1
  }

  /** The sends of an account exclude each other: by its lock, if all of them are named, or by the only
      submission permit. */
  predicate Serial(limit: Option<nat>, senders: seq<Sender>, a: Address) {
    || limit == Some(1)
    || forall i: nat, j: nat | i < j < |senders| && senders[i].from == senders[j].from == a ::
         senders[i].named && senders[j].named
  }

  ghost predicate SubmittedOk(limit: Option<nat>, s: State) {
    && (forall a | Serial(limit, s.senders, a) :: Increasing(s.submitted, a))
    && (forall c | c in s.submitted :: c.0 in s.nonces && c.1 <= s.nonces[c.0])
    && (forall i: nat, c | i < |s.senders| && s.senders[i].phase.Filled? && c in s.submitted && c.0 == s.senders[i].from
          && Serial(limit, s.senders, c.0) ::
          s.senders[i].nonce.Some? && c.1 < s.senders[i].nonce.value)
  }

  // `h` is the transaction of send `i`: its account, the nonce it was filled with, its payload.
  predicate IsTransactionOf(h: TxHash, x: Sender) { x.from == h.from && x.nonce == Some(h.nonce) && x.payload == h.payload }

  ghost predicate SentAs(s: State, i: nat, h: TxHash) {
    i < |s.senders| && s.senders[i].phase.Sent? && IsTransactionOf(h, s.senders[i])
  }

  // Handed to the limiter are exactly the transactions of the finished sends.
  ghost predicate HandedOverOk(s: State) {
    forall h :: h in s.limiter.channel || h in s.limiter.received <==> exists i: nat :: SentAs(s, i, h)
  }

  // What has been submitted is what the sends were filled with.
  ghost predicate CallsOk(s: State) {
    && (forall i: nat | i < |s.senders| && (s.senders[i].phase.Submitting? || s.senders[i].phase.Sent?) ::
          s.senders[i].nonce.Some? && (s.senders[i].from, s.senders[i].nonce.value) in s.submitted)
    && (forall c | c in s.submitted :: exists i: nat :: CalledAs(s.senders, i, c))
  }

  predicate CalledAs(senders: seq<Sender>, i: nat, c: (Address, nat)) {
    i < |senders| && senders[i].from == c.0 && senders[i].nonce == Some(c.1) && Called(senders[i].phase)
  }

  predicate Called(p: Phase) { p.Submitting? || p.Sent? || p.Failed? }

  ghost predicate Inv(limit: Option<nat>, s: State) {
    && PermitsOk(limit, s) && LocksOk(s) && IssuedOk(s) && SenderNoncesOk(s) && SubmittedOk(limit, s)
    && HandedOverOk(s) && CallsOk(s) && LimiterOk(s.limiter)
  }

  // The action's own sender, if it has one.
  predicate HasSender(a: Action) { !a.IssueElsewhere? && !a.BlockTransaction? && !a.ReceiveObservation? }

  function One(b: bool): nat { if b then 1 else 0 }

  lemma HoldersUpdate(senders: seq<Sender>, i: nat, x: Sender)
    requires i < |senders|
    ensures |MempoolHolders(senders[i := x])| + One(HoldsMempool(senders[i].phase))
         == |MempoolHolders(senders)| + One(HoldsMempool(x.phase))
    ensures |SubmissionHolders(senders[i := x])| + One(HoldsSubmission(senders[i].phase))
         == |SubmissionHolders(senders)| + One(HoldsSubmission(x.phase))
  {
    var after := senders[i := x];
    assert MempoolHolders(after) - {i} == MempoolHolders(senders) - {i};
    assert SubmissionHolders(after) - {i} == SubmissionHolders(senders) - {i};
    CountOne(MempoolHolders(after), i);
    CountOne(MempoolHolders(senders), i);
    CountOne(SubmissionHolders(after), i);
    CountOne(SubmissionHolders(senders), i);
  }

  lemma CountOne(s: set<nat>, i: nat)
    ensures |s| == |s - {i}| + One(i in s)
  {
    if i in s {
      assert s == (s - {i}) + {i};
    } else {
      assert s - {i} == s;
    }
  }

  // The hash of a send that is about to be handed over has not been handed over before.
  lemma HashIsFresh(limit: Option<nat>, s: State, i: nat)
    requires Inv(limit, s) && InPhase(s, i, Submitting) && s.senders[i].nonce.Some?
    ensures HashOf(s.senders[i]) !in s.limiter.channel && HashOf(s.senders[i]) !in s.limiter.received
  {
    var h := HashOf(s.senders[i]);
    forall j: nat | SentAs(s, j, h)
      ensures false
    {
      assert HasNonce(s.senders[i].phase) && HasNonce(s.senders[j].phase);
    }
  }

  // How an action changes the number of permits in the limiter's hands.
  function PermitsMoved(s: State, a: Action): int {
    match a
    case TakeMempool(_) => -1
    case SubmitOk(_) => 1
    case Abandon(i) => if i < |s.senders| && HoldsMempool(s.senders[i].phase) then 1 else 0
    case _ => 0
  }

  lemma StepKeepsLimiter(limit: Option<nat>, s: State, a: Action)
    requires Inv(limit, s) && Enabled(limit, s, a)
    ensures LimiterOk(Apply(limit, s, a).limiter)
    ensures LimiterPermits(Apply(limit, s, a).limiter) == LimiterPermits(s.limiter) + PermitsMoved(s, a)
  {
    match a {
      case SubmitOk(i) =>
        HashIsFresh(limit, s, i);
        ObserveOk(s.limiter, HashOf(s.senders[i]));
      case BlockTransaction(h) => EncounterOk(s.limiter, h);
      case ReceiveObservation => ReceiveOk(s.limiter);
      case TakeMempool(i) => assert AwaitedHashes(Apply(limit, s, a).limiter) == AwaitedHashes(s.limiter);
      case Abandon(i) => assert AwaitedHashes(Apply(limit, s, a).limiter) == AwaitedHashes(s.limiter);
      case _ =>
    }
  }

  // An action changes the send of its own sender only.
  lemma OwnSenderOnly(limit: Option<nat>, s: State, a: Action)
    requires Enabled(limit, s, a)
    ensures var s' := Apply(limit, s, a);
      if HasSender(a) then
        && s'.senders == s.senders[a.i := s'.senders[a.i]]
        && s'.senders[a.i].from == s.senders[a.i].from && s'.senders[a.i].named == s.senders[a.i].named
        && s'.senders[a.i].payload == s.senders[a.i].payload
      else s'.senders == s.senders
  {
  }

  lemma StepKeepsMempoolPermits(limit: Option<nat>, s: State, a: Action)
    requires Enabled(limit, s, a)
    ensures |MempoolHolders(Apply(limit, s, a).senders)| + PermitsMoved(s, a) == |MempoolHolders(s.senders)|
  {
    OwnSenderOnly(limit, s, a);
    if HasSender(a) {
      var x := Apply(limit, s, a).senders[a.i];
      HoldersUpdate(s.senders, a.i, x);
    }
  }

  lemma StepKeepsSubmissionPermits(limit: Option<nat>, s: State, a: Action)
    requires limit.Some? && Enabled(limit, s, a)
    ensures Apply(limit, s, a).submissionFree + |SubmissionHolders(Apply(limit, s, a).senders)|
         == s.submissionFree + |SubmissionHolders(s.senders)|
  {
    OwnSenderOnly(limit, s, a);
    if HasSender(a) {
      var x := Apply(limit, s, a).senders[a.i];
      HoldersUpdate(s.senders, a.i, x);
    }
  }

  lemma StepKeepsPermits(limit: Option<nat>, s: State, a: Action)
    requires PermitsOk(limit, s) && Enabled(limit, s, a)
    requires LimiterPermits(Apply(limit, s, a).limiter) == LimiterPermits(s.limiter) + PermitsMoved(s, a)
    ensures PermitsOk(limit, Apply(limit, s, a))
  {
    StepKeepsMempoolPermits(limit, s, a);
    if limit.Some? {
      StepKeepsSubmissionPermits(limit, s, a);
    }
  }

  // An action takes or gives back at most the lock of its own sender's account.
  lemma OwnLockOnly(limit: Option<nat>, s: State, a: Action)
    requires Enabled(limit, s, a)
    ensures var s' := Apply(limit, s, a);
      if !HasSender(a) then s'.locks == s.locks
      else
        var held, holds := Locks(s.senders[a.i]), Locks(s'.senders[a.i]);
        var from := s.senders[a.i].from;
        if held == holds then s'.locks == s.locks
        else if holds then from !in s.locks && s'.locks == s.locks[from := a.i]
        else s'.locks == s.locks - {from}
  {
  }

  lemma LocksUpdate(senders: seq<Sender>, locks: map<Address, nat>, i: nat, x: Sender)
    requires LocksMatch(senders, locks) && i < |senders| && x.from == senders[i].from
    ensures Locks(x) == Locks(senders[i]) ==> LocksMatch(senders[i := x], locks)
    ensures Locks(x) && x.from !in locks ==> LocksMatch(senders[i := x], locks[x.from := i])
    ensures !Locks(x) && Locks(senders[i]) ==> LocksMatch(senders[i := x], locks - {x.from})
  {
  }

  lemma StepKeepsLocks(limit: Option<nat>, s: State, a: Action)
    requires LocksOk(s) && Enabled(limit, s, a)
    ensures LocksOk(Apply(limit, s, a))
  {
    OwnSenderOnly(limit, s, a);
    OwnLockOnly(limit, s, a);
    if HasSender(a) {
      LocksUpdate(s.senders, s.locks, a.i, Apply(limit, s, a).senders[a.i]);
    }
  }

  lemma IssueKeepsIssued(s: State, a: Address)
    requires IssuedOk(s)
    ensures IssuedOk(Issue(s, a))
  {
  }

  lemma StepKeepsIssued(limit: Option<nat>, s: State, a: Action)
    requires IssuedOk(s) && Enabled(limit, s, a)
    ensures IssuedOk(Apply(limit, s, a))
  {
    if a.IssueNonce? {
      IssueKeepsIssued(s, s.senders[a.i].from);
    } else if a.IssueElsewhere? {
      IssueKeepsIssued(s, a.a);
    } else {
      assert Apply(limit, s, a).nonces == s.nonces && Apply(limit, s, a).issued == s.issued;
    }
  }

  lemma StepKeepsSenderNonces(limit: Option<nat>, s: State, a: Action)
    requires SenderNoncesOk(s) && Enabled(limit, s, a)
    ensures SenderNoncesOk(Apply(limit, s, a))
  {
    var s' := Apply(limit, s, a);
    if HasSender(a) {
      assert s'.senders == s.senders[a.i := s'.senders[a.i]];
    }
  }

  // Two sends of a serial account are not both behind the submission permit.
  lemma OneBehindPermit(limit: Option<nat>, s: State, i: nat, j: nat)
    requires PermitsOk(limit, s) && LocksOk(s) && i != j && i < |s.senders| && j < |s.senders|
    requires HoldsSubmission(s.senders[i].phase) && HoldsSubmission(s.senders[j].phase)
    requires s.senders[i].from == s.senders[j].from
    ensures !Serial(limit, s.senders, s.senders[i].from)
  {
    if limit == Some(1) {
      assert {i, j} <= SubmissionHolders(s.senders);
      SubsetSize({i, j}, SubmissionHolders(s.senders));
      assert false;
    }
  }

  lemma IncreasingSnoc(calls: seq<(Address, nat)>, c: (Address, nat), a: Address)
    requires Increasing(calls, a)
    requires c.0 == a ==> forall d | d in calls && d.0 == a :: d.1 < c.1
    ensures Increasing(calls + [c], a)
  {
  }

  // What a submission call needs and does.
  lemma SubmitKeepsSubmitted(limit: Option<nat>, s: State, i: nat)
    requires PermitsOk(limit, s) && LocksOk(s) && SenderNoncesOk(s) && SubmittedOk(limit, s) && Enabled(limit, s, Submit(i))
    ensures SubmittedOk(limit, Apply(limit, s, Submit(i)))
  {
    SameSerial(limit, s, Submit(i));
    forall j: nat | j < |s.senders| && j != i && s.senders[j].phase.Filled? && s.senders[j].from == s.senders[i].from
      ensures !Serial(limit, s.senders, s.senders[i].from)
    {
      OneBehindPermit(limit, s, i, j);
    }
    var call := (s.senders[i].from, s.senders[i].nonce.value);
    forall a | Serial(limit, s.senders, a)
      ensures Increasing(s.submitted + [call], a)
    {
      IncreasingSnoc(s.submitted, call, a);
    }
  }

  lemma SameSerial(limit: Option<nat>, s: State, a: Action)
    requires Enabled(limit, s, a)
    ensures forall x :: Serial(limit, Apply(limit, s, a).senders, x) == Serial(limit, s.senders, x)
  {
    OwnSenderOnly(limit, s, a);
    assert forall i: nat | i < |s.senders| ::
      Apply(limit, s, a).senders[i].from == s.senders[i].from && Apply(limit, s, a).senders[i].named == s.senders[i].named;
  }

  lemma IssueKeepsSubmitted(limit: Option<nat>, s: State, i: nat)
    requires SubmittedOk(limit, s) && Enabled(limit, s, IssueNonce(i))
    ensures SubmittedOk(limit, Apply(limit, s, IssueNonce(i)))
  {
    SameSerial(limit, s, IssueNonce(i));
  }

  lemma StepKeepsSubmitted(limit: Option<nat>, s: State, a: Action)
    requires PermitsOk(limit, s) && LocksOk(s) && SenderNoncesOk(s) && SubmittedOk(limit, s) && Enabled(limit, s, a)
    ensures SubmittedOk(limit, Apply(limit, s, a))
  {
    if a.Submit? {
      SubmitKeepsSubmitted(limit, s, a.i);
    } else if a.IssueNonce? {
      IssueKeepsSubmitted(limit, s, a.i);
    } else {
      OwnSenderOnly(limit, s, a);
      SameSerial(limit, s, a);
    }
  }

  lemma StepKeepsSentAs(limit: Option<nat>, s: State, a: Action, i: nat, h: TxHash)
    requires Enabled(limit, s, a)
    ensures SentAs(Apply(limit, s, a), i, h) <==> SentAs(s, i, h) || (a == SubmitOk(i) && IsTransactionOf(h, s.senders[i]))
  {
    OwnSenderOnly(limit, s, a);
  }

  lemma StepKeepsHandedOver(limit: Option<nat>, s: State, a: Action)
    requires HandedOverOk(s) && Enabled(limit, s, a)
    ensures HandedOverOk(Apply(limit, s, a))
  {
    var s' := Apply(limit, s, a);
    forall h: TxHash
      ensures h in s'.limiter.channel || h in s'.limiter.received <==> exists i: nat :: SentAs(s', i, h)
    {
      HandsOver(limit, s, a, h);
      if i: nat :| SentAs(s, i, h) { StepKeepsSentAs(limit, s, a, i, h); }
      if a.SubmitOk? { StepKeepsSentAs(limit, s, a, a.i, h); }
      if i: nat :| SentAs(s', i, h) { StepKeepsSentAs(limit, s, a, i, h); }
    }
  }

  // Only a submission that succeeded hands over a transaction: its own.
  lemma HandsOver(limit: Option<nat>, s: State, a: Action, h: TxHash)
    requires Enabled(limit, s, a)
    ensures var l, l' := s.limiter, Apply(limit, s, a).limiter;
      h in l'.channel || h in l'.received <==>
        h in l.channel || h in l.received || (a.SubmitOk? && IsTransactionOf(h, s.senders[a.i]))
  {
    if a.ReceiveObservation? {
      assert s.limiter.channel == [s.limiter.channel[0]] + s.limiter.channel[1..];
    }
  }

  lemma StepKeepsCalled(limit: Option<nat>, s: State, a: Action, i: nat, c: (Address, nat))
    requires Enabled(limit, s, a) && CalledAs(s.senders, i, c)
    ensures CalledAs(Apply(limit, s, a).senders, i, c)
  {
    OwnSenderOnly(limit, s, a);
  }

  lemma NewCall(limit: Option<nat>, s: State, a: Action, c: (Address, nat))
    requires Enabled(limit, s, a) && c in Apply(limit, s, a).submitted && c !in s.submitted
    ensures HasSender(a) && CalledAs(Apply(limit, s, a).senders, a.i, c)
  {
  }

  lemma StepRecordsCalls(limit: Option<nat>, s: State, a: Action, i: nat)
    requires CallsOk(s) && Enabled(limit, s, a) && i < |Apply(limit, s, a).senders|
    requires Apply(limit, s, a).senders[i].phase.Submitting? || Apply(limit, s, a).senders[i].phase.Sent?
    ensures var s' := Apply(limit, s, a);
      s'.senders[i].nonce.Some? && (s'.senders[i].from, s'.senders[i].nonce.value) in s'.submitted
  {
    OwnSenderOnly(limit, s, a);
  }

  lemma StepKeepsCalls(limit: Option<nat>, s: State, a: Action)
    requires CallsOk(s) && Enabled(limit, s, a)
    ensures CallsOk(Apply(limit, s, a))
  {
    var s' := Apply(limit, s, a);
    forall i: nat | i < |s'.senders| && (s'.senders[i].phase.Submitting? || s'.senders[i].phase.Sent?)
      ensures s'.senders[i].nonce.Some? && (s'.senders[i].from, s'.senders[i].nonce.value) in s'.submitted
    {
      StepRecordsCalls(limit, s, a, i);
    }
    forall c | c in s'.submitted
      ensures exists i: nat :: CalledAs(s'.senders, i, c)
    {
      if c in s.submitted {
        var i: nat :| CalledAs(s.senders, i, c);
        StepKeepsCalled(limit, s, a, i, c);
      } else {
        NewCall(limit, s, a, c);
      }
    }
  }

  lemma StepKeepsInv(limit: Option<nat>, s: State, a: Action)
    requires Inv(limit, s) && Enabled(limit, s, a)
    ensures Inv(limit, Apply(limit, s, a))
  {
    StepKeepsLimiter(limit, s, a);
    StepKeepsPermits(limit, s, a);
    StepKeepsLocks(limit, s, a);
    StepKeepsIssued(limit, s, a);
    StepKeepsSenderNonces(limit, s, a);
    StepKeepsSubmitted(limit, s, a);
    StepKeepsHandedOver(limit, s, a);
    StepKeepsCalls(limit, s, a);
  }

  lemma {:induction false} RunKeepsInv(limit: Option<nat>, s: State, run: seq<Action>)
    requires Inv(limit, s) && Legal(limit, s, run)
    ensures Inv(limit, Exec(limit, s, run))
    decreases |run|
  {
    if run != [] {
      StepKeepsInv(limit, s, run[0]);
      RunKeepsInv(limit, Apply(limit, s, run[0]), run[1..]);
    }
  }

  lemma ReachableInv(limit: Option<nat>, s: State, run: seq<Action>)
    requires Initial(limit, s) && Legal(limit, s, run)
    ensures Inv(limit, Exec(limit, s, run))
  {
    assert MempoolHolders(s.senders) == {} && SubmissionHolders(s.senders) == {};
    assert AwaitedHashes(s.limiter) == {};
    RunKeepsInv(limit, s, run);
  }

  // ---------------------------------------------------------------- main results

  /** Every one of the 10,000 mempool permits is free, held by a sender, in the channel or parked. */
  lemma MempoolPermitsConserved(limit: Option<nat>, s: State, run: seq<Action>)
    requires Initial(limit, s) && Legal(limit, s, run)
    ensures
      var t := Exec(limit, s, run);
      t.limiter.free + |MempoolHolders(t.senders)| + |t.limiter.channel| + |AwaitedHashes(t.limiter)| == 10_000
  {
    ReachableInv(limit, s, run);
  }

  /** The limiter never reaches its unreachable arm, and the permit of a transaction has been
      released once if it was both observed and seen in a block, in either order, else not at all. */
  lemma ReleasedOnceAfterBoth(limit: Option<nat>, s: State, run: seq<Action>, h: TxHash)
    requires Initial(limit, s) && Legal(limit, s, run)
    ensures
      var l := Exec(limit, s, run).limiter;
      && !l.crashed
      && l.released[h] == (if h in l.received && h in l.inBlock then 1 else 0)
      && (h in AwaitedHashes(l) <==> h in l.received && h !in l.inBlock)
  {
    ReachableInv(limit, s, run);
  }

  lemma {:induction false} RunKeepsRequests(limit: Option<nat>, s: State, run: seq<Action>, h: TxHash)
    requires Legal(limit, s, run)
    ensures var t := Exec(limit, s, run);
      && |t.senders| == |s.senders|
      && (forall i: nat | i < |s.senders| :: t.senders[i].from == s.senders[i].from && t.senders[i].payload == s.senders[i].payload)
      && (h in t.limiter.inBlock <==> h in s.limiter.inBlock || BlockTransaction(h) in run)
    decreases |run|
  {
    if run != [] {
      OwnSenderOnly(limit, s, run[0]);
      assert run == [run[0]] + run[1..];
      RunKeepsRequests(limit, Apply(limit, s, run[0]), run[1..], h);
    }
  }

  /** Handed to the limiter are exactly the transactions of the finished sends: of the account and with
      the payload that was to be sent, and with the nonce that was submitted for that account. */
  lemma HandedOverIsSubmitted(limit: Option<nat>, s: State, run: seq<Action>, h: TxHash)
    requires Initial(limit, s) && Legal(limit, s, run)
    ensures
      var t := Exec(limit, s, run);
      && |t.senders| == |s.senders|
      && (h in t.limiter.channel || h in t.limiter.received <==>
            exists i: nat ::
              && i < |s.senders| && t.senders[i].phase.Sent? && t.senders[i].nonce == Some(h.nonce)
              && s.senders[i].from == h.from && s.senders[i].payload == h.payload)
      && (h in t.limiter.channel || h in t.limiter.received ==> (h.from, h.nonce) in t.submitted)
  {
    ReachableInv(limit, s, run);
    RunKeepsRequests(limit, s, run, h);
    var t := Exec(limit, s, run);
    if i: nat :| SentAs(t, i, h) {
      assert s.senders[i].from == h.from && s.senders[i].payload == h.payload && t.senders[i].nonce == Some(h.nonce);
    }
    if i: nat :|
      && i < |s.senders| && t.senders[i].phase.Sent? && t.senders[i].nonce == Some(h.nonce)
      && s.senders[i].from == h.from && s.senders[i].payload == h.payload
    {
      assert SentAs(t, i, h);
    }
  }

  /** The permit of a finished send is released once the very transaction that was submitted has been in
      a block and its observation has left the channel: exactly once then, and not before. */
  lemma SentPermitReleased(limit: Option<nat>, s: State, run: seq<Action>, i: nat)
    requires Initial(limit, s) && Legal(limit, s, run)
    requires i < |Exec(limit, s, run).senders| && Exec(limit, s, run).senders[i].phase.Sent?
    ensures
      var t := Exec(limit, s, run);
      && i < |s.senders| && t.senders[i].nonce.Some?
      && var h := TxHash(from := s.senders[i].from, nonce := t.senders[i].nonce.value, payload := s.senders[i].payload);
         && (h.from, h.nonce) in t.submitted
         && t.limiter.released[h] == (if BlockTransaction(h) in run && h !in t.limiter.channel then 1 else 0)
         && (h in AwaitedHashes(t.limiter) <==> BlockTransaction(h) !in run && h !in t.limiter.channel)
  {
    ReachableInv(limit, s, run);
    var t := Exec(limit, s, run);
    var h := TxHash(t.senders[i].from, t.senders[i].nonce.value, t.senders[i].payload);
    assert SentAs(t, i, h);
    RunKeepsRequests(limit, s, run, h);
    ReleasedOnceAfterBoth(limit, s, run, h);
  }

  /** Once the observation of a finished send has been received, the next block with its transaction
      brings its permit back, unless an earlier one has. */
  lemma BlockBringsPermitBack(limit: Option<nat>, s: State, run: seq<Action>, i: nat, h: TxHash)
    requires Initial(limit, s) && Legal(limit, s, run) && SentAs(Exec(limit, s, run), i, h)
    requires h !in Exec(limit, s, run).limiter.channel
    ensures Enabled(limit, Exec(limit, s, run), BlockTransaction(h))
    ensures
      var t, u := Exec(limit, s, run).limiter, Apply(limit, Exec(limit, s, run), BlockTransaction(h)).limiter;
      && u.released[h] == 1
      && u.free == if BlockTransaction(h) in run then t.free else t.free + 1
  {
    ReachableInv(limit, s, run);
    RunKeepsRequests(limit, s, run, h);
    EncounterReleases(Exec(limit, s, run).limiter, h);
  }

  lemma EncounterReleases(l: Limiter, h: TxHash)
    requires LimiterOk(l) && h in l.received
    ensures Encounter(l, h).released[h] == 1 && Encounter(l, h).free == if h in l.inBlock then l.free else l.free + 1
  {
  }

  /** The nonces issued to an account are 0, 1, 2, ... without gap or repeat, and the transactions of
      an account whose sends exclude each other reach the submission call in strictly increasing
      nonce order. */
  lemma NoncesInOrder(limit: Option<nat>, s: State, run: seq<Action>)
    requires Initial(limit, s) && Legal(limit, s, run)
    ensures
      var t := Exec(limit, s, run);
      && (forall a, k: nat | a in t.issued && k < |t.issued[a]| :: t.issued[a][k] == k)
      && (forall a | Serial(limit, s.senders, a) :: Increasing(t.submitted, a))
  {
    ReachableInv(limit, s, run);
    RunKeepsSerial(limit, s, run);
  }

  lemma {:induction false} RunKeepsSerial(limit: Option<nat>, s: State, run: seq<Action>)
    requires Legal(limit, s, run)
    ensures forall a :: Serial(limit, Exec(limit, s, run).senders, a) == Serial(limit, s.senders, a)
    decreases |run|
  {
    if run != [] {
      SameSerial(limit, s, run[0]);
      RunKeepsSerial(limit, Apply(limit, s, run[0]), run[1..]);
    }
  }

  lemma {:induction false} Extend(limit: Option<nat>, s: State, run: seq<Action>, a: Action) returns (longer: seq<Action>)
    requires Legal(limit, s, run) && Enabled(limit, Exec(limit, s, run), a)
    ensures Legal(limit, s, longer) && Exec(limit, s, longer) == Apply(limit, Exec(limit, s, run), a)
    decreases |run|
  {
    if run == [] {
      longer := [a];
      assert longer[1..] == [];
    } else {
      var rest := Extend(limit, Apply(limit, s, run[0]), run[1..], a);
      longer := [run[0]] + rest;
      assert longer[1..] == rest;
    }
  }

  // Send `i` gets as far as having its nonce.
  lemma Fill(limit: Option<nat>, s: State, run: seq<Action>, i: nat) returns (longer: seq<Action>)
    requires Legal(limit, s, run)
    requires var t := Exec(limit, s, run);
      && Enabled(limit, t, TakeMempool(i)) && (t.senders[i].named ==> t.senders[i].from !in t.locks)
      && (limit.Some? ==> t.submissionFree > 0)
    ensures Legal(limit, s, longer)
    ensures var t, u := Exec(limit, s, run), Exec(limit, s, longer);
      && u.senders == t.senders[i := t.senders[i].(phase := Filled, nonce := Some(NextNonce(t.nonces, t.senders[i].from)))]
      && u.locks == (if t.senders[i].named then t.locks[t.senders[i].from := i] else t.locks)
      && u.nonces == t.nonces[t.senders[i].from := NextNonce(t.nonces, t.senders[i].from)]
      && u.limiter.free == t.limiter.free - 1 && u.submitted == t.submitted
      && (limit.Some? ==> u.submissionFree == t.submissionFree - 1)
  {
    longer := Extend(limit, s, run, TakeMempool(i));
    longer := Extend(limit, s, longer, LockAccount(i));
    longer := Extend(limit, s, longer, TakeSubmission(i));
    longer := Extend(limit, s, longer, IssueNonce(i));
  }

  // Of two sends that both have their nonce the second is submitted before the first.
  lemma SubmitSecondFirst(limit: Option<nat>, s: State, run: seq<Action>, i: nat, j: nat) returns (longer: seq<Action>)
    requires i != j && Legal(limit, s, run)
    requires Enabled(limit, Exec(limit, s, run), Submit(i)) && Enabled(limit, Exec(limit, s, run), Submit(j))
    ensures Legal(limit, s, longer)
    ensures
      var t := Exec(limit, s, run);
      Exec(limit, s, longer).submitted
        == t.submitted + [(t.senders[j].from, t.senders[j].nonce.value), (t.senders[i].from, t.senders[i].nonce.value)]
  {
    longer := Extend(limit, s, run, Submit(j));
    longer := Extend(limit, s, longer, Submit(i));
  }

  /** Otherwise some run submits two transactions of the account in the wrong order. */
  lemma UnnamedSendsOvertake(limit: Option<nat>, s: State, a: Address) returns (run: seq<Action>)
    requires Initial(limit, s) && (limit.Some? ==> limit.value > 0) && !Serial(limit, s.senders, a)
    ensures Legal(limit, s, run) && !Increasing(Exec(limit, s, run).submitted, a)
  {
    var i: nat, j: nat :| i < j < |s.senders| && s.senders[i].from == s.senders[j].from == a
      && !(s.senders[i].named && s.senders[j].named);
    run := Fill(limit, s, [], i);
    run := Fill(limit, s, run, j);
    run := SubmitSecondFirst(limit, s, run, i, j);
    var calls := Exec(limit, s, run).submitted;
    assert calls == [(a, 1), (a, 0)];
    assert calls[0].0 == calls[1].0 == a;
  }

  /** The transactions of an account are sure to be submitted in nonce order exactly when at most one of
      them is sent, or all of them name their sender, or there is a single submission permit. */
  lemma OrderedIffSerial(limit: Option<nat>, s: State, a: Address)
    requires Initial(limit, s) && (limit.Some? ==> limit.value > 0)
    ensures (forall run: seq<Action> | Legal(limit, s, run) :: Increasing(Exec(limit, s, run).submitted, a))
      <==> Serial(limit, s.senders, a)
  {
    if Serial(limit, s.senders, a) {
      forall run: seq<Action> | Legal(limit, s, run)
        ensures Increasing(Exec(limit, s, run).submitted, a)
      {
        NoncesInOrder(limit, s, run);
      }
    } else {
      var run := UnnamedSendsOvertake(limit, s, a);
    }
  }

  predicate Unfinished(s: State, i: nat) {
    i < |s.senders| && !s.senders[i].phase.Sent? && !s.senders[i].phase.Failed?
  }

  // A step that brings the send `i` nearer to its end.
  predicate Advances(limit: Option<nat>, s: State, i: nat) {
    || Enabled(limit, s, TakeMempool(i)) || Enabled(limit, s, LockAccount(i))
    || Enabled(limit, s, TakeSubmission(i)) || Enabled(limit, s, IssueNonce(i))
    || Enabled(limit, s, Submit(i)) || Enabled(limit, s, SubmitOk(i))
  }

  // Whoever waits behind the mempool permit waits, in the end, for a send that can go on.
  lemma SubmissionWaitEnds(limit: Option<nat>, s: State, i: nat) returns (j: nat)
    requires PermitsOk(limit, s) && SenderNoncesOk(s) && (limit.Some? ==> limit.value > 0)
    requires i < |s.senders| && HoldsAccount(s.senders[i].phase)
    ensures j < |s.senders| && Advances(limit, s, j)
  {
    j := i;
    if s.senders[i].phase.AwaitSubmission? && limit.Some? && s.submissionFree == 0 {
      assert SubmissionHolders(s.senders) != {};
      j :| j in SubmissionHolders(s.senders);
    }
  }

  lemma HolderLeadsToProgress(limit: Option<nat>, s: State, i: nat) returns (j: nat)
    requires PermitsOk(limit, s) && SenderNoncesOk(s) && LocksOk(s) && (limit.Some? ==> limit.value > 0)
    requires i < |s.senders| && HoldsMempool(s.senders[i].phase)
    ensures j < |s.senders| && Advances(limit, s, j)
  {
    if s.senders[i].phase.AwaitAccount? {
      j := i;
      if s.senders[i].named && s.senders[i].from in s.locks {
        j := SubmissionWaitEnds(limit, s, s.locks[s.senders[i].from]);
      }
    } else {
      j := SubmissionWaitEnds(limit, s, i);
    }
  }

  /** No circular wait: if no send can advance, every unfinished send waits for a mempool permit,
      and all 10,000 of them are in the limiter's channel or parked until a block arrives. */
  lemma OnlyTheMempoolBlocks(limit: Option<nat>, s: State, run: seq<Action>, i: nat)
    requires Initial(limit, s) && Legal(limit, s, run) && (limit.Some? ==> limit.value > 0)
    requires Unfinished(Exec(limit, s, run), i)
    requires forall j: nat | j < |Exec(limit, s, run).senders| :: !Advances(limit, Exec(limit, s, run), j)
    ensures
      var t := Exec(limit, s, run);
      && t.senders[i].phase.AwaitMempool? && t.limiter.free == 0 && MempoolHolders(t.senders) == {}
      && |t.limiter.channel| + |AwaitedHashes(t.limiter)| == 10_000
  {
    ReachableInv(limit, s, run);
    var t := Exec(limit, s, run);
    forall j: nat | j < |t.senders| ensures !HoldsMempool(t.senders[j].phase) {
      if HoldsMempool(t.senders[j].phase) {
        var k := HolderLeadsToProgress(limit, t, j);
      }
    }
    assert MempoolHolders(t.senders) == {};
    assert !Advances(limit, t, i);
  }

  // ---------------------------------------------------------------- the mutable form

  class CachedZeroedNonceManager {
    var nonces: map<Address, nat>

    constructor ()
      ensures nonces == map[]
    {
      nonces := map[];
    }

    method GetNextNonce(a: Address) returns (nonce: nat)
      modifies this
      ensures nonce == NextNonce(old(nonces), a) && nonces == old(nonces)[a := nonce]
    {
      if a in nonces {
        nonce := nonces[a] + 1;
        nonces := nonces[a := nonce];
      } else {
        nonces := nonces[a := 0];
        nonce := 0;
      }
    }
  }

  class MempoolLimiter {
    var free: nat
    var channel: seq<TxHash>
    var entries: map<TxHash, MempoolEntry>
    ghost var received: set<TxHash>
    ghost var inBlock: set<TxHash>
    ghost var released: multiset<TxHash>

    ghost function View(): Limiter
      reads this
    {
      Limiter(free, channel, entries, false, received, inBlock, released)
    }

    constructor ()
      ensures View() == NewLimiter
    {
      free, channel, entries := SUBSTRATE_MEMPOOL_LIMIT, [], map[];
      received, inBlock, released := {}, {}, multiset{};
    }

    method ReleasePermit(h: TxHash)
      modifies this`free, this`released
      ensures free == old(free) + 1 && released == old(released) + multiset{h}
    {
      free := free + 1;
      released := released + multiset{h};
    }

    method SeeExtrinsic(h: TxHash)
      modifies this
      ensures View() == Encounter(old(View()), h)
    {
      var previous := if h in entries then Some(entries[h]) else None;
      entries, inBlock := entries[h := Encountered], inBlock + {h};
      if previous == Some(Awaited) {
        ReleasePermit(h);
      }
    }

    // The best-block task: every eth_transact extrinsic of one block, under one write lock.
    method BestBlock(extrinsics: seq<TxHash>)
      modifies this
      ensures View() == EncounterAll(old(View()), extrinsics)
    {
      var i := 0;
      while i < |extrinsics|
        invariant i <= |extrinsics|
        invariant View() == EncounterAll(old(View()), extrinsics[..i])
      {
        assert extrinsics[..i + 1][..i] == extrinsics[..i];
        SeeExtrinsic(extrinsics[i]);
        i := i + 1;
      }
      assert extrinsics[..i] == extrinsics;
    }

    // One iteration of the receiving task.  The awaited arm of the match is never taken.
    method ReceiveOne()
      requires LimiterOk(View()) && channel != []
      modifies this
      ensures View() == Receive(old(View()))
    {
      var h := channel[0];
      assert h in channel;
      channel, received := channel[1..], received + {h};
      if h !in entries {
        entries := entries[h := Awaited];
      } else if entries[h].Encountered? {
        ReleasePermit(h);
      } else {
        assert false;
      }
    }

    /** The limiter under any sequence of requests, observations, blocks and received messages, with
        every transaction observed once: the awaited arm is never taken, a permit has been released
        once exactly for the transactions both received and seen in a block, and the 10,000 permits
        are free, held by senders, in the channel or parked. */
    method Serve(messages: seq<Message>) returns (held: nat)
      requires View() == NewLimiter && ObservedOnce(messages)
      modifies this
      ensures (View(), held) == Served(messages)
      ensures LimiterOk(View())
      ensures free + held + |channel| + |AwaitedHashes(View())| == SUBSTRATE_MEMPOOL_LIMIT
      ensures forall h :: released[h] == if h in received && h in inBlock then 1 else 0
      ensures forall h :: h in inBlock <==> InSomeBlock(messages, h)
      ensures forall h | h in channel || h in received :: Observed(h) in messages
    {
      held := 0;
      var turn := 0;
      while turn < |messages|
        invariant turn <= |messages|
        invariant (View(), held) == Served(messages[..turn])
      {
        ServedOk(messages[..turn]);
        assert messages[..turn + 1][..turn] == messages[..turn];
        held := ServeOne(messages[turn], held);
        turn := turn + 1;
      }
      assert messages[..turn] == messages;
      ServedOk(messages);
    }

    // What cannot happen yet is passed over: a permit that is not free, a message not sent.
    method ServeOne(message: Message, held: nat) returns (left: nat)
      requires LimiterOk(View())
      modifies this
      ensures (View(), left) == Handled(old(View()), held, message)
    {
      left := held;
      match message {
        case Request =>
          if free > 0 {
            free := free - 1;
            left := held + 1;
          }
        case GiveBack =>
          if held > 0 {
            free := free + 1;
            left := held - 1;
          }
        case Observed(h) =>
          if held > 0 {
            channel := channel + [h];
            left := held - 1;
          }
        case InBlock(hashes) => BestBlock(hashes);
        case Deliver =>
          if channel != [] {
            ReceiveOne();
          }
      }
    }
  }

  /** What reaches the limiter: a sender's request for a permit, a permit given back, a transaction
      handed over, the transactions of a best block, and the receiving task's turn. */
  datatype Message = Request | GiveBack | Observed(hash: TxHash) | InBlock(hashes: seq<TxHash>) | Deliver

  // What a message does to the limiter and to the number of permits held by senders.
  ghost function Handled(l: Limiter, held: nat, message: Message): (Limiter, nat) {
    match message
    case Request => if l.free > 0 then (l.(free := l.free - 1), held + 1) else (l, held)
    case GiveBack => if held > 0 then (l.(free := l.free + 1), held - 1) else (l, held)
    case Observed(h) => if held > 0 then (Observe(l, h), held - 1) else (l, held)
    case InBlock(hashes) => (EncounterAll(l, hashes), held)
    case Deliver => (if l.channel != [] then Receive(l) else l, held)
  }

  ghost function Served(messages: seq<Message>): (Limiter, nat) {
    if messages == [] then (NewLimiter, 0)
    else
      var (l, held) := Served(messages[..|messages| - 1]);
      Handled(l, held, messages[|messages| - 1])
  }

  // A transaction is handed over once.
  ghost predicate ObservedOnce(messages: seq<Message>) {
    forall i, j | 0 <= i < j < |messages| && messages[i].Observed? && messages[j].Observed? ::
      messages[i].hash != messages[j].hash
  }

  lemma HandledOk(l: Limiter, held: nat, message: Message)
    requires LimiterOk(l) && (message.Observed? ==> message.hash !in l.channel && message.hash !in l.received)
    ensures var (t, left) := Handled(l, held, message);
      && LimiterOk(t) && LimiterPermits(t) + left == LimiterPermits(l) + held
      && (forall h | h in t.channel || h in t.received :: h in l.channel || h in l.received || message == Observed(h))
      && (forall h :: h in t.inBlock <==> h in l.inBlock || (message.InBlock? && h in message.hashes))
  {
    match message {
      case Request => if l.free > 0 { PermitsWithFree(l, l.free - 1); }
      case GiveBack => if held > 0 { PermitsWithFree(l, l.free + 1); }
      case Observed(h) => if held > 0 { ObserveOk(l, h); }
      case InBlock(hashes) => EncounterAllOk(l, hashes);
      case Deliver => if l.channel != [] { ReceiveOk(l); }
    }
  }

  /** Whatever the messages, no permit is lost, and the limiter knows exactly the blocks' transactions. */
  lemma {:induction false} ServedOk(messages: seq<Message>)
    requires ObservedOnce(messages)
    ensures var (l, held) := Served(messages);
      && LimiterOk(l) && LimiterPermits(l) + held == SUBSTRATE_MEMPOOL_LIMIT
      && (forall h | h in l.channel || h in l.received :: Observed(h) in messages)
      && (forall h :: h in l.inBlock <==> InSomeBlock(messages, h))
    decreases |messages|
  {
    if messages == [] {
      NewLimiterOk();
    } else {
      var before, last := messages[..|messages| - 1], messages[|messages| - 1];
      assert messages == before + [last];
      ServedOk(before);
      var (l, held) := Served(before);
      HandledOk(l, held, last);
      forall h { InSomeBlockSnoc(before, last, h); }
    }
  }

  ghost predicate InSomeBlock(messages: seq<Message>, h: TxHash) {
    exists m :: m in messages && m.InBlock? && h in m.hashes
  }

  lemma InSomeBlockSnoc(messages: seq<Message>, m: Message, h: TxHash)
    ensures InSomeBlock(messages + [m], h) <==> InSomeBlock(messages, h) || (m.InBlock? && h in m.hashes)
  {
    if m.InBlock? && h in m.hashes {
      assert m in messages + [m];
    }
    if n :| n in messages && n.InBlock? && h in n.hashes {
      assert n in messages + [m];
    }
  }

  lemma NewLimiterOk()
    ensures LimiterOk(NewLimiter) && LimiterPermits(NewLimiter) == SUBSTRATE_MEMPOOL_LIMIT
  {
    assert AwaitedHashes(NewLimiter) == {};
  }

  lemma PermitsWithFree(l: Limiter, free: nat)
    ensures LimiterPermits(l.(free := free)) + l.free == LimiterPermits(l) + free
    ensures LimiterOk(l) ==> LimiterOk(l.(free := free))
  {
    assert AwaitedHashes(l.(free := free)) == AwaitedHashes(l);
  }
}
