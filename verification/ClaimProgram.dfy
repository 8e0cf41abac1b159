/**
 The code of a claim in the form it has in the service - straight-line calls, the two retry
 loops, and the nested try/finally - run against a deployment in which, at every `await`,
 anything else may happen.  Each method drives the machine one step at a time; so all that is
 proved of the machine's runs is true of this code, whatever happens in between.
 */
module ClaimProgram {
  import opened Wrappers
  import opened Coupons
  import opened Payout
  import opened PayoutSafety
  import opened PayoutOutcomes
  import opened PayoutRequests
  import opened TreasuryQueue
  import TreasuryLock

  /** Steps of everybody but one claim, in which the process of that claim stays up. */
  predicate ByOthers(e: Event, c: ClaimId, i: InstanceId) {
    !(e.Act? && e.claim == c) && e != Crash(i)
  }

  lemma OthersLeaveMine(s: State, e: Event, c: ClaimId)
    requires Enabled(s, e) && c in s.claims && ByOthers(e, c, s.claims[c].instance)
    requires s.claims[c].instance in s.instances && s.instances[s.claims[c].instance].alive
    ensures c in Apply(s, e).claims && Apply(s, e).claims[c] == s.claims[c]
    ensures s.claims[c].instance in Apply(s, e).instances && Apply(s, e).instances[s.claims[c].instance].alive
  {
  }

  /** What no step takes back: a claim's progress, an arrival, an accepted transaction. */
  ghost predicate OnlyForward(s: State, t: State) {
    && (forall c | c in s.claims :: c in t.claims && RankOf(t, c) <= RankOf(s, c))
    && (forall i | i in s.instances :: i in t.instances && s.instances[i].arrivals <= t.instances[i].arrivals)
    && s.pool <= t.pool
  }

  lemma StepsGoForward(s: State, e: Event)
    requires Enabled(s, e)
    ensures OnlyForward(s, Apply(s, e))
  {
    forall c | c in s.claims
      ensures c in Apply(s, e).claims && RankOf(Apply(s, e), c) <= RankOf(s, c)
    {
      StepRanks(s, e, c);
    }
    forall i | i in s.instances
      ensures i in Apply(s, e).instances && s.instances[i].arrivals <= Apply(s, e).instances[i].arrivals
    {
      ArrivalsStay(s, [e], i);
      assert Exec(s, [e]) == Apply(s, e);
    }
    StepExtendsPool(s, e);
  }

  lemma OthersTakeNoLockForMe(s: State, e: Event, c: ClaimId)
    requires Enabled(s, e) && c in s.claims && ByOthers(e, c, s.claims[c].instance)
    ensures TreasuryLock.Holds(Apply(s, e), c) ==> TreasuryLock.Holds(s, c)
  {
    if TreasuryLock.Holds(Apply(s, e), c) && !TreasuryLock.Holds(s, c) {
      TreasuryLock.HoldsOnlyBySet(s, e, c);
    }
  }

  /** The same call of `claimCoupon`. */
  predicate SameCall(a: Claim, b: Claim) {
    a.instance == b.instance && a.user == b.user && a.to == b.to && a.code == b.code
  }

  /** An owner's coupon is there to be written. */
  lemma MineIsThere(s: State, c: ClaimId)
    requires Reachable(s) && c in s.claims
    ensures s.claims[c].pc.Selected? || Owner(s.claims[c].pc) ==> s.claims[c].key in s.coupons
  {
    ReachableIsSafe(s);
  }

  class Deployment {
    var s: State

    constructor (cfg: Config, baseNonce: nat)
      ensures Valid() && s == Init(cfg, baseNonce)
    {
      s := Init(cfg, baseNonce);
      assert IsRun(Init(cfg, baseNonce), []);
    }

    /** All that this deployment has been through is a run of the machine. */
    ghost predicate Valid()
      reads this
    {
      Reachable(s)
    }

    /** The claim is at this point, in a running process. */
    ghost predicate At(c: ClaimId, pc: Pc)
      reads this
    {
      && Valid()
      && c in s.claims && s.claims[c].pc == pc
      && s.claims[c].instance in s.instances && s.instances[s.claims[c].instance].alive
    }

    /** `await`: any number of steps of other claims, of the clock, of issuance, and crashes elsewhere. */
    method Yield(c: ClaimId)
      requires c in s.claims && At(c, s.claims[c].pc)
      modifies this
      ensures At(c, old(s.claims[c].pc)) && s.claims[c] == old(s.claims[c]) && OnlyForward(old(s), s)
      ensures TreasuryLock.Holds(s, c) ==> old(TreasuryLock.Holds(s, c))
    {
      var n: nat := *;
      while n > 0
        invariant At(c, old(s.claims[c].pc)) && s.claims[c] == old(s.claims[c]) && OnlyForward(old(s), s)
        invariant TreasuryLock.Holds(s, c) ==> old(TreasuryLock.Holds(s, c))
      {
        var e: Event := *;
        if Enabled(s, e) && ByOthers(e, c, s.claims[c].instance) {
          StepReaches(s, e);
          OthersLeaveMine(s, e, c);
          StepsGoForward(s, e);
          OthersTakeNoLockForMe(s, e, c);
          s := Apply(s, e);
        }
        n := n - 1;
      }
    }

    method Start(c: ClaimId, i: InstanceId, user: UserId, to: Address, code: string)
      requires Valid() && c !in s.claims && i in s.instances && s.instances[i].alive
      modifies this
      ensures At(c, Selecting) && s.claims[c] == Claim(i, user, to, code, "", 0, None, Selecting)
    {
      StepReaches(s, Begin(c, i, user, to, code));
      s := Apply(s, Begin(c, i, user, to, code));
      Yield(c);
    }

    /** One atomic step of the claim, and then others run until its reply arrives. */
    method Step(c: ClaimId, a: Action)
      requires c in s.claims && At(c, s.claims[c].pc) && CanAct(s, c, a)
      modifies this
      ensures At(c, NextPc(old(s), c, a)) && s.claims[c] == NextClaim(old(s), c, a)
      ensures OnlyForward(Act1(old(s), c, a), s)
      ensures TreasuryLock.Holds(s, c) ==> TreasuryLock.Holds(Act1(old(s), c, a), c)
    {
      StepReaches(s, Act(c, a));
      s := Act1(s, c, a);
      Yield(c);
    }
  }

  /** Its own transaction is the last one in the pool, and stays there. */
  ghost predicate OwnStays(s: State, t: State, c: ClaimId, h: TxHash) {
    && c in t.claims && 0 < |s.pool| <= |t.pool| && t.pool[|s.pool| - 1] == s.pool[|s.pool| - 1]
    && IsOwn(s.pool[|s.pool| - 1], c, t.claims[c]) && t.pool[|s.pool| - 1].hash == h
  }

  // ----- the remote calls of the service, with every answer they may give

  datatype SetReply = Ok | Nil | RedisError
  datatype ProbeReply = Found | NoSuchElement | RpcError
  datatype SendReply = Sent | SendError

  /** What a claim will be answered: by the database, Redis, the chain's node, and the receipt. */
  datatype Replies = Replies(
    readFails: bool,
    swap: Write,
    setFails: nat -> bool,       // by attempt; a SET that fails may have been applied
    setApplied: bool,
    counts: bool,                // the pending count comes back
    signs: bool,
    hash: TxHash,                // of what is signed
    recorded: Write,
    accepted: bool,
    replied: bool,
    probe: nat -> ProbeReply,    // by attempt, as far as it can be true
    undo: Write,
    scriptRuns: bool,
    receipt: bool)

  /** What is thrown after a rollback: "please retry", or the database's own error. */
  function RolledBack(r: Replies): Outcome {
    if r.undo.Acked? then NotSent else Fault
  }

  /** `redis.set(KEY, token, 'PX', TTL, 'NX')`. */
  method SetNx(d: Deployment, c: ClaimId, r: Replies, attempt: nat) returns (reply: SetReply)
    requires d.At(c, Acquiring(attempt))
    modifies d
    ensures reply == Ok ==> d.At(c, Locked)
    ensures reply == Nil ==>
              d.At(c, if attempt < TREASURY_LOCK_ACQUIRE_ATTEMPTS then Acquiring(attempt + 1) else Bailing)
    ensures reply == RedisError ==> d.At(c, Bailing)
    ensures reply == if r.setFails(attempt) then RedisError else if old(LockHeld(d.s)) then Nil else Ok
    ensures c in d.s.claims && SameCall(old(d.s.claims[c]), d.s.claims[c])
  {
    if r.setFails(attempt) {
      d.Step(c, SetError(r.setApplied && !LockHeld(d.s)));
      reply := RedisError;
    } else if LockHeld(d.s) {
      d.Step(c, SetBusy);
      reply := Nil;
    } else {
      d.Step(c, SetOk);
      reply := Ok;
    }
  }

  /** Where a probe leads, by its answer. */
  function AfterProbe(hash: TxHash, attempt: nat, reply: ProbeReply): Pc {
    if reply == Found then Releasing(Unconfirmed(hash))
    else if attempt < BROADCAST_VERIFY_ATTEMPTS then Probing(hash, attempt + 1)
    else if reply == NoSuchElement then Disproved(hash)
    else Releasing(Unverified(hash))
  }

  /** `getTransaction(hash)`; only the last answer "no such element" is known to be truthful. */
  method GetTransaction(d: Deployment, c: ClaimId, r: Replies, hash: TxHash, attempt: nat) returns (reply: ProbeReply)
    requires d.At(c, Probing(hash, attempt))
    modifies d
    ensures d.At(c, AfterProbe(hash, attempt, reply))
    ensures reply == r.probe(attempt) || reply == RpcError
    ensures reply == Found ==> Known(old(d.s.pool), hash)
    ensures r.probe(attempt) == Found && Known(old(d.s.pool), hash) ==> reply == Found
    ensures r.probe(attempt) == NoSuchElement && !Known(old(d.s.pool), hash) ==> reply == NoSuchElement
    ensures c in d.s.claims && SameCall(old(d.s.claims[c]), d.s.claims[c])
  {
    var answer := r.probe(attempt);
    reply := if answer == Found && Known(d.s.pool, hash) then Found
             else if answer == NoSuchElement && (attempt >= BROADCAST_VERIFY_ATTEMPTS ==> !Known(d.s.pool, hash))
             then NoSuchElement
             else RpcError;
    d.Step(c, match reply case Found => ProbeFound case NoSuchElement => ProbeMissing case RpcError => ProbeError);
  }

  /** `sendTransaction(signedTx)`: the chain may accept and the reply still be lost. */
  method SendTransaction(d: Deployment, c: ClaimId, r: Replies, nonce: nat, hash: TxHash) returns (reply: SendReply)
    requires d.At(c, Recorded(nonce, hash))
    modifies d
    ensures reply == Sent ==> d.At(c, Releasing(Paid(hash)))
    ensures reply == SendError ==> d.At(c, Probing(hash, 1))
    ensures reply == if r.accepted && r.replied then Sent else SendError
    ensures reply == Sent && !Known(old(d.s.pool), hash) ==> c in d.s.claims && HasOwn(d.s, c, hash)
    ensures c in d.s.claims && SameCall(old(d.s.claims[c]), d.s.claims[c])
  {
    ghost var sent := Act1(d.s, c, Send(r.accepted, r.accepted && r.replied));
    d.Step(c, Send(r.accepted, r.accepted && r.replied));
    assert r.accepted && !Known(old(d.s.pool), hash) ==> OwnStays(sent, d.s, c, hash);
    reply := if r.accepted && r.replied then Sent else SendError;
  }

  // ----- the private methods

  method WasTransactionBroadcast(d: Deployment, c: ClaimId, r: Replies, hash: TxHash) returns (found: Option<bool>)
    requires d.At(c, Probing(hash, 1))
    modifies d
    ensures d.At(c, match found
                    case Some(b) => if b then Releasing(Unconfirmed(hash)) else Disproved(hash)
                    case None => Releasing(Unverified(hash)))
    ensures c in d.s.claims && SameCall(old(d.s.claims[c]), d.s.claims[c])
  {
    var lastCallSucceeded := false;
    var attempt := 1;
    while attempt <= BROADCAST_VERIFY_ATTEMPTS
      invariant 1 <= attempt <= BROADCAST_VERIFY_ATTEMPTS + 1
      invariant c in d.s.claims && SameCall(old(d.s.claims[c]), d.s.claims[c])
      invariant d.At(c, if attempt <= BROADCAST_VERIFY_ATTEMPTS then Probing(hash, attempt)
                        else if lastCallSucceeded then Disproved(hash)
                        else Releasing(Unverified(hash)))
    {
      var reply := GetTransaction(d, c, r, hash, attempt);
      if reply == Found {
        return Some(true);
      }
      lastCallSucceeded := reply == NoSuchElement;
      attempt := attempt + 1;
    }
    return if lastCallSucceeded then Some(false) else None;
  }

  /** The rollback `updateOne`, from any of the three places that issue it. */
  method RollBack(d: Deployment, c: ClaimId, r: Replies)
    requires c in d.s.claims && d.At(c, d.s.claims[c].pc)
    requires d.s.claims[c].pc.BuildFailed? || d.s.claims[c].pc.Disproved? || d.s.claims[c].pc.Undoing?
    modifies d
    ensures d.At(c, if old(d.s.claims[c].pc.Undoing?) then Done(if r.undo.Acked? then Busy else Fault)
                    else Releasing(RolledBack(r)))
    ensures c in d.s.claims && SameCall(old(d.s.claims[c]), d.s.claims[c])
  {
    MineIsThere(d.s, c);
    d.Step(c, Undo(r.undo));
  }

  /** The first try block: read the nonce, sign, take the hash; on any failure roll back. */
  method BuildAndSign(d: Deployment, c: ClaimId, r: Replies)
      returns (nonce: nat, hash: Option<TxHash>, failure: Outcome)
    requires d.At(c, Locked)
    modifies d
    ensures d.At(c, if hash.Some? then Signed(nonce, hash.value) else Releasing(failure))
    ensures hash == if r.counts && r.signs then Some(r.hash) else None
    ensures hash.Some? ==> nonce == Pending(old(d.s))
    ensures hash.None? ==> failure == RolledBack(r)
    ensures c in d.s.claims && SameCall(old(d.s.claims[c]), d.s.claims[c])
  {
    nonce, hash, failure := Pending(d.s), None, RolledBack(r);
    if r.counts {
      PendingCountIs(d.s, nonce);
      d.Step(c, ReadNonce(nonce));
      if r.signs {
        d.Step(c, Sign(r.hash));
        hash := Some(r.hash);
        return;
      }
    }
    d.Step(c, BuildError);
    RollBack(d, c, r);
  }

  /** The catch block of a failed send: ask the chain, and roll back only on its word. */
  method SettleFailedSend(d: Deployment, c: ClaimId, r: Replies, hash: TxHash) returns (outcome: Outcome)
    requires d.At(c, Probing(hash, 1))
    modifies d
    ensures d.At(c, Releasing(outcome))
    ensures outcome == Unconfirmed(hash) || outcome == Unverified(hash) || outcome == RolledBack(r)
    ensures c in d.s.claims && SameCall(old(d.s.claims[c]), d.s.claims[c])
  {
    var wasBroadcast := WasTransactionBroadcast(d, c, r, hash);
    if wasBroadcast.None? {
      return Unverified(hash);
    } else if wasBroadcast.value {
      return Unconfirmed(hash);
    }
    RollBack(d, c, r);
    return RolledBack(r);
  }

  /** How the locked section ends, by what it was answered. */
  predicate SentAsAnswered(r: Replies, o: Outcome) {
    if !(r.counts && r.signs) then o == RolledBack(r)
    else if !r.recorded.Acked? then o == Fault
    else if r.accepted && r.replied then o == Paid(r.hash)
    else o == Unconfirmed(r.hash) || o == Unverified(r.hash) || o == RolledBack(r)
  }

  method BuildSignAndBroadcast(d: Deployment, c: ClaimId, r: Replies) returns (outcome: Outcome)
    requires d.At(c, Locked)
    modifies d
    ensures d.At(c, Releasing(outcome))
    ensures SentAsAnswered(r, outcome)
    ensures c in d.s.claims && SameCall(old(d.s.claims[c]), d.s.claims[c])
  {
    var nonce, hash, failure := BuildAndSign(d, c, r);
    if hash.None? {
      return failure;
    }
    MineIsThere(d.s, c);
    d.Step(c, RecordHash(r.recorded));
    if !r.recorded.Acked? {
      return Fault;
    }
    var reply := SendTransaction(d, c, r, nonce, hash.value);
    if reply == Sent {
      return Paid(hash.value);
    }
    outcome := SettleFailedSend(d, c, r, hash.value);
  }

  /** No SET before this attempt failed. */
  predicate NoneFailed(r: Replies, attempt: nat) {
    forall k: nat | 1 <= k < attempt :: !r.setFails(k)
  }

  /** `attempt` is the last one made. */
  method AcquireDistributedTreasuryLock(d: Deployment, c: ClaimId, r: Replies)
      returns (acquired: bool, attempt: nat)
    requires d.At(c, Acquiring(1))
    modifies d
    ensures d.At(c, if acquired then Locked else Bailing)
    ensures 1 <= attempt <= 120 && NoneFailed(r, attempt) && (acquired ==> !r.setFails(attempt))
    ensures !acquired ==> r.setFails(attempt) || attempt == 120
    ensures c in d.s.claims && SameCall(old(d.s.claims[c]), d.s.claims[c])
  {
    attempt := 1;
    while attempt <= TREASURY_LOCK_ACQUIRE_ATTEMPTS
      invariant 1 <= attempt <= TREASURY_LOCK_ACQUIRE_ATTEMPTS + 1 && NoneFailed(r, attempt)
      invariant c in d.s.claims && SameCall(old(d.s.claims[c]), d.s.claims[c])
      invariant d.At(c, if attempt <= TREASURY_LOCK_ACQUIRE_ATTEMPTS then Acquiring(attempt) else Bailing)
    {
      var reply := SetNx(d, c, r, attempt);
      if reply == Ok {
        return true, attempt;
      } else if reply == RedisError {
        return false, attempt;
      }
      attempt := attempt + 1;
    }
    return false, TREASURY_LOCK_ACQUIRE_ATTEMPTS;
  }

  lemma ReachableQueueIsOk(s: State)
    requires Reachable(s)
    ensures Inv(s) && QueueOk(s)
  {
    ReachableIsSafe(s);
    var cfg, base: nat, es :| IsRun(Init(cfg, base), es) && Exec(Init(cfg, base), es) == s;
    RunKeepsQueue(Init(cfg, base), es);
  }

  /** The claim is number `x` among the arrivals of its process. */
  predicate IsArrival(s: State, i: InstanceId, x: nat, c: ClaimId) {
    i in s.instances && x < |s.instances[i].arrivals| && s.instances[i].arrivals[x] == c
  }

  lemma ArrivalOf(s: State, c: ClaimId) returns (x: nat)
    requires Reachable(s) && c in s.claims && s.claims[c].pc.Waiting?
    ensures IsArrival(s, s.claims[c].instance, x, c)
  {
    ReachableQueueIsOk(s);
    assert c in s.instances[s.claims[c].instance].arrivals;
    var arrivals := s.instances[s.claims[c].instance].arrivals;
    x :| x < |arrivals| && arrivals[x] == c;
  }

  /** While a claim must wait for its turn, one that arrived before it can go on. */
  lemma SomeoneAhead(s: State, i: InstanceId, x: nat, c: ClaimId) returns (e: Event)
    requires Reachable(s) && IsArrival(s, i, x, c) && s.instances[i].alive && c in s.claims
    requires s.claims[c].pc.Waiting? && !CanAct(s, c, Enter)
    ensures Enabled(s, e) && e.Act? && e.claim in s.instances[i].arrivals[..x] && e.claim != c
    ensures forall d | d in s.instances[i].arrivals[..x] :: d in s.claims
  {
    ReachableQueueIsOk(s);
    ArrivalsExist(s, i, x);
    var arrivals := s.instances[i].arrivals;
    assert forall d | d in arrivals[..x] :: d in UpTo(s, i, x);
    var y := SomeoneCanAct(s, i, x);
    e := Act(arrivals[y], Forward(s, arrivals[y]));
    assert arrivals[..x][y] == arrivals[y];
  }

  /** Going forward, the arrivals before a claim stay the same and have no more steps to take. */
  lemma AheadStays(s: State, t: State, i: InstanceId, x: nat, c: ClaimId)
    requires OnlyForward(s, t) && IsArrival(s, i, x, c)
    ensures IsArrival(t, i, x, c) && t.instances[i].arrivals[..x] == s.instances[i].arrivals[..x]
    ensures (forall d | d in s.instances[i].arrivals[..x] :: d in s.claims) ==>
              TotalRank(t, s.instances[i].arrivals[..x]) <= TotalRank(s, s.instances[i].arrivals[..x])
  {
    if forall d | d in s.instances[i].arrivals[..x] :: d in s.claims {
      TotalDrops(s, t, s.instances[i].arrivals[..x], {});
    }
  }

  lemma OneAheadWent(s: State, e: Event, t: State, i: InstanceId, x: nat, c: ClaimId)
    requires Enabled(s, e) && OnlyForward(Apply(s, e), t) && IsArrival(s, i, x, c)
    requires forall d | d in s.instances[i].arrivals[..x] :: d in s.claims
    requires e.Act? && e.claim in s.instances[i].arrivals[..x]
    ensures IsArrival(t, i, x, c)
    ensures TotalRank(t, t.instances[i].arrivals[..x]) < TotalRank(s, s.instances[i].arrivals[..x])
  {
    var ahead := s.instances[i].arrivals[..x];
    StepDrops(s, e, ahead);
    assert ActsOf([e], ahead) == 1;
    StepsGoForward(s, e);
    AheadStays(s, Apply(s, e), i, x, c);
    AheadStays(Apply(s, e), t, i, x, c);
  }

  /** A claim before this one takes a step, with whatever answer, and then anybody else any number of them. */
  method WakeUp(d: Deployment, c: ClaimId, i: InstanceId, x: nat)
    requires c in d.s.claims && d.At(c, d.s.claims[c].pc) && d.s.claims[c].instance == i && IsArrival(d.s, i, x, c)
    requires d.s.claims[c].pc.Waiting? && !CanAct(d.s, c, Enter)
    modifies d
    ensures d.At(c, old(d.s.claims[c].pc)) && d.s.claims[c] == old(d.s.claims[c]) && IsArrival(d.s, i, x, c)
    ensures TotalRank(d.s, d.s.instances[i].arrivals[..x]) < old(TotalRank(d.s, d.s.instances[i].arrivals[..x]))
  {
    ghost var s := d.s;
    var ahead := d.s.instances[i].arrivals[..x];
    ghost var someone := SomeoneAhead(s, i, x, c);
    var e: Event :| Enabled(d.s, e) && e.Act? && e.claim in ahead && e.claim != c;
    StepReaches(s, e);
    OthersLeaveMine(s, e, c);
    d.s := Apply(d.s, e);
    d.Yield(c);
    OneAheadWent(s, e, d.s, i, x, c);
  }

  /**
   `await previous`, where remote calls return: whenever this claim is looked at and still has to
   wait, some claim before it goes on.
   */
  method AwaitPrevious(d: Deployment, c: ClaimId, prev: Option<ClaimId>)
    requires d.At(c, Waiting(prev))
    modifies d
    ensures d.At(c, Acquiring(1))
    ensures c in d.s.claims && SameCall(old(d.s.claims[c]), d.s.claims[c])
  {
    var i := d.s.claims[c].instance;
    ghost var there := ArrivalOf(d.s, c);
    var x: nat :| x < |d.s.instances[i].arrivals| && d.s.instances[i].arrivals[x] == c;
    while !CanAct(d.s, c, Enter)
      invariant d.At(c, Waiting(prev)) && IsArrival(d.s, i, x, c) && d.s.claims[c] == old(d.s.claims[c])
      decreases TotalRank(d.s, d.s.instances[i].arrivals[..x])
    {
      WakeUp(d, c, i, x);
    }
    d.Step(c, Enter);
  }

  datatype LockReply =
    | LockUnavailable       // TreasuryLockUnavailableError
    | Returned(outcome: Outcome)

  /** `fn()` and the two `finally` blocks. */
  method RunLocked(d: Deployment, c: ClaimId, r: Replies) returns (outcome: Outcome)
    requires d.At(c, Locked)
    modifies d
    ensures d.At(c, if outcome.Paid? then Confirming(outcome.hash) else Done(outcome))
    ensures SentAsAnswered(r, outcome)
    ensures r.scriptRuns ==> !TreasuryLock.Holds(d.s, c)
    ensures c in d.s.claims && SameCall(old(d.s.claims[c]), d.s.claims[c])
  {
    outcome := BuildSignAndBroadcast(d, c, r);
    d.Step(c, Unlock(r.scriptRuns));
    d.Step(c, ReleaseLocal);
  }

  /** When the release script runs, the lock is not this claim's any more, whoever has it. */
  method WithTreasuryLock(d: Deployment, c: ClaimId, r: Replies) returns (reply: LockReply)
    requires d.At(c, Won)
    modifies d
    ensures reply == LockUnavailable ==> d.At(c, Undoing)
    ensures reply.Returned? && r.scriptRuns ==> !TreasuryLock.Holds(d.s, c)
    ensures reply.Returned? ==> SentAsAnswered(r, reply.outcome)
    ensures reply.Returned? ==>
              d.At(c, if reply.outcome.Paid? then Confirming(reply.outcome.hash) else Done(reply.outcome))
    ensures c in d.s.claims && SameCall(old(d.s.claims[c]), d.s.claims[c])
  {
    var prev := Tail(d.s.instances[d.s.claims[c].instance].arrivals);
    d.Step(c, Enqueue);
    AwaitPrevious(d, c, prev);

    var acquired, attempt := AcquireDistributedTreasuryLock(d, c, r);
    if !acquired {
      d.Step(c, ReleaseLocal);
      return LockUnavailable;
    }
    var outcome := RunLocked(d, c, r);
    return Returned(outcome);
  }

  /** The user has a coupon of this code to claim. */
  predicate CanClaim(t: Table, cl: Claim) {
    exists k :: k in t && t[k].code == cl.code && t[k].userId == Some(cl.user) && !t[k].redeemed
  }

  /** `findOne({ code })` and the three checks on what it finds; `None` when the coupon can be claimed. */
  method ReadCoupon(d: Deployment, c: ClaimId, r: Replies) returns (refusal: Option<Outcome>)
    requires d.At(c, Selecting)
    modifies d
    ensures d.At(c, if refusal.Some? then Done(refusal.value) else Selected)
    ensures c in d.s.claims && SameCall(old(d.s.claims[c]), d.s.claims[c])
    ensures refusal == if r.readFails then Some(Fault)
                       else if CanClaim(old(d.s.coupons), old(d.s.claims[c])) then None else Some(Refused)
    ensures refusal.None? ==>
              var k := d.s.claims[c].key;
              && k in old(d.s.coupons) && d.s.claims[c].amount == old(d.s.coupons)[k].utlAmountRaw
              && old(d.s.coupons)[k].code == old(d.s.claims[c].code) && !old(d.s.coupons)[k].redeemed
              && old(d.s.coupons)[k].userId == Some(old(d.s.claims[c].user))
  {
    if r.readFails {
      d.Step(c, ReadError);
      return Some(Fault);
    }
    if k :| k in d.s.coupons && Claimable(d.s.coupons[k], d.s.claims[c].user, d.s.claims[c].code) {
      d.Step(c, Select(k));
      return None;
    }
    d.Step(c, Reject);
    return Some(Refused);
  }

  /** The compare-and-swap: won exactly when the coupon was not redeemed, unless the database fails. */
  method SwapRedeemed(d: Deployment, c: ClaimId, r: Replies) returns (refusal: Option<Outcome>)
    requires d.At(c, Selected)
    modifies d
    ensures d.At(c, if refusal.Some? then Done(refusal.value) else Won)
    ensures c in d.s.claims && SameCall(old(d.s.claims[c]), d.s.claims[c])
    ensures old(d.s.claims[c].key) in old(d.s.coupons)
    ensures refusal == if !r.swap.Acked? then Some(Fault)
                       else if old(d.s.coupons[d.s.claims[c].key].redeemed) then Some(Refused) else None
  {
    MineIsThere(d.s, c);
    var taken := d.s.coupons[d.s.claims[c].key].redeemed;
    d.Step(c, Cas(r.swap));
    return if !r.swap.Acked? then Some(Fault) else if taken then Some(Refused) else None;
  }

  /**
   The reads and the compare-and-swap; `refusal` is what is thrown when the swap is not won, and
   `late` says that another claim had redeemed the coupon between the read and the swap.
   */
  method TakeCoupon(d: Deployment, c: ClaimId, r: Replies) returns (refusal: Option<Outcome>, late: bool)
    requires d.At(c, Selecting)
    modifies d
    ensures d.At(c, if refusal.Some? then Done(refusal.value) else Won)
    ensures c in d.s.claims && SameCall(old(d.s.claims[c]), d.s.claims[c])
    ensures refusal.Some? ==> refusal.value == Refused || refusal.value == Fault
    ensures refusal.None? || late ==> CanClaim(old(d.s.coupons), old(d.s.claims[c]))
    ensures late ==> refusal == Some(Refused)
    ensures refusal == Some(Refused) ==> (late <==> CanClaim(old(d.s.coupons), old(d.s.claims[c])))
    ensures refusal == Some(Fault) <==>
            r.readFails || (!r.swap.Acked? && CanClaim(old(d.s.coupons), old(d.s.claims[c])))
  {
    late := false;
    refusal := ReadCoupon(d, c, r);
    if refusal.None? {
      refusal := SwapRedeemed(d, c, r);
      late := refusal == Some(Refused);
    }
  }

  /** What `claimCoupon` does with the reply of the locked section. */
  method Conclude(d: Deployment, c: ClaimId, r: Replies, reply: LockReply) returns (outcome: Outcome)
    requires d.At(c, if reply.LockUnavailable? then Undoing
                     else if reply.outcome.Paid? then Confirming(reply.outcome.hash) else Done(reply.outcome))
    modifies d
    ensures d.At(c, Done(outcome))
    ensures outcome ==
            if reply.LockUnavailable? then (if r.undo.Acked? then Busy else Fault)
            else if reply.outcome.Paid? && !r.receipt then Unconfirmed(reply.outcome.hash)
            else reply.outcome
    ensures c in d.s.claims && SameCall(old(d.s.claims[c]), d.s.claims[c])
  {
    if reply.LockUnavailable? {
      RollBack(d, c, r);
      return if r.undo.Acked? then Busy else Fault;
    }
    if !reply.outcome.Paid? {
      return reply.outcome;
    }
    d.Step(c, Confirm(r.receipt));
    return if r.receipt then reply.outcome else Unconfirmed(reply.outcome.hash);
  }

  /** All that this claim has in the pool is under the hash it reported, and pays what and whom it was asked to. */
  predicate PaidAsAsked(s: State, c: ClaimId, o: Outcome, user: UserId, to: Address, code: string) {
    forall tx | tx in s.pool && tx.claim == c ::
      && SaysMaybeSent(o) && tx.hash == o.hash && tx.to == to && tx.user == user
      && tx.key in s.coupons && s.coupons[tx.key].code == code
      && s.coupons[tx.key].userId == Some(user) && s.coupons[tx.key].utlAmountRaw == tx.amount
  }

  lemma WhatDoneMeans(s: State, c: ClaimId, o: Outcome, user: UserId, to: Address, code: string)
    requires Reachable(s) && c in s.claims && s.claims[c].pc == Done(o)
    requires s.claims[c].user == user && s.claims[c].to == to && s.claims[c].code == code
    ensures SaysSent(o) ==> Known(s.pool, o.hash)
    ensures PaidAsAsked(s, c, o, user, to, code)
  {
    ReachableIsTruthful(s);
    ReachableIsAttributed(s);
    ReachableAsAsked(s);
    PooledAsAsked(s);
  }

  /** A hash that is reported is the one that was signed, and a payment takes every good answer. */
  predicate AsAnswered(r: Replies, o: Outcome) {
    && (SaysMaybeSent(o) ==> o.hash == r.hash)
    && (o.Paid? ==> r.accepted && r.replied && r.receipt)
  }

  /** From the swap on: the locked section and what follows from it. */
  method PayOut(d: Deployment, c: ClaimId, r: Replies) returns (result: Outcome)
    requires d.At(c, Won)
    modifies d
    ensures d.At(c, Done(result)) && AsAnswered(r, result)
    ensures c in d.s.claims && SameCall(old(d.s.claims[c]), d.s.claims[c])
  {
    var reply := WithTreasuryLock(d, c, r);
    result := Conclude(d, c, r, reply);
  }

  /**
   `claimCoupon`, from the read of the user's wallet on.  Whatever else happens in the meantime,
   it ends in a safe deployment and tells its caller the truth about the chain: a hash reported as
   sent is there, and all that this claim has in the pool is under the hash that it reported, for the
   coupon of the code it was given, in full, to that coupon's owner and the wallet it was given.
   */
  method ClaimCoupon(d: Deployment, c: ClaimId, i: InstanceId, user: UserId, to: Address, code: string, r: Replies)
      returns (result: Outcome)
    requires d.Valid() && c !in d.s.claims && i in d.s.instances && d.s.instances[i].alive
    modifies d
    ensures d.At(c, Done(result))
    ensures SaysSent(result) ==> Known(d.s.pool, result.hash)
    ensures AsAnswered(r, result)
    ensures PaidAsAsked(d.s, c, result, user, to, code)
  {
    d.Start(c, i, user, to, code);
    var refusal, late := TakeCoupon(d, c, r);
    if refusal.Some? {
      result := refusal.value;
    } else {
      result := PayOut(d, c, r);
    }
    WhatDoneMeans(d.s, c, result, user, to, code);
  }
}
