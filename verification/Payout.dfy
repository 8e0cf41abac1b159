/**
 The redemption of coupons and the payout from the treasury, as a machine that takes one atomic
 step at a time.  Any number of service instances run any number of claims each; between any
 two steps of a claim every other claim, the issuance of coupons, the clock, and crashes may
 take steps of their own.  A claim's program counter names the point of the code that its
 next step leaves from.
 */
module Payout {
  import opened Wrappers
  import opened Coupons

  type ClaimId = nat
  type InstanceId = nat

  const TREASURY_LOCK_TTL_MS: nat := 120_000
  const TREASURY_LOCK_ACQUIRE_ATTEMPTS: nat := 120
  const BROADCAST_VERIFY_ATTEMPTS: nat := 3

  /** What the caller of a claim is told. */
  datatype Outcome =
    | Refused                   // unknown user or code, wrong owner, or already redeemed
    | Busy                      // "busy - please retry": no lock
    | NotSent                   // "failed - please retry": nothing was sent
    | Paid(hash: TxHash)        // sent and confirmed
    | Unconfirmed(hash: TxHash) // sent, but the confirmation failed
    | Unverified(hash: TxHash)  // the chain could not be asked
    | Fault                     // a database error surfaced as it is

  datatype Pc =
    | Selecting                                               // user read, coupon still to be read
    | Selected                                                // coupon read, about to compare-and-swap
    | Won                                                     // the swap is stored, the reply on its way
    | Waiting(prev: Option<ClaimId>)                          // `await previous`
    | Acquiring(attempt: nat)                                 // about to SET NX for the given time
    | Bailing                                                 // no lock: the local queue is still to be released
    | Undoing                                                 // no lock: the rollback is due
    | Locked                                                  // SET answered OK, about to build
    | Nonced(nonce: nat)                                      // pending count read, about to sign
    | BuildFailed                                             // build or sign threw: the rollback is due
    | Signed(nonce: nat, hash: TxHash)                        // about to record the hash
    | Recorded(nonce: nat, hash: TxHash)                      // about to send
    | Probing(hash: TxHash, attempt: nat)                     // send threw: about to ask the chain
    | Disproved(hash: TxHash)                                 // the chain has no record: the rollback is due
    | Releasing(outcome: Outcome)                             // about to run the compare-and-delete
    | Leaving(outcome: Outcome)                               // about to resolve the local promise
    | Confirming(hash: TxHash)                                // `waitForTransaction`
    | Done(outcome: Outcome)

  datatype Claim = Claim(
    instance: InstanceId,
    user: UserId,
    to: Address,
    code: string,
    key: TxHash,             // the coupon, once it has been read
    amount: int,             // `coupon.utlAmountRaw` as read
    lease: Option<nat>,      // when the lock expires that this claim's own SET obtained
    pc: Pc)

  /** `alive` ends with the process; `arrivals` lists the callers of `withTreasuryLock` so far,
      the last one being whose promise `localTreasuryQueue` holds. */
  datatype Instance = Instance(alive: bool, arrivals: seq<ClaimId>)

  /** The Redis key.  A claim draws its token once, so its own identity serves as the token. */
  datatype Lease = Lease(token: ClaimId, expiresAt: nat)

  /** A transaction with what was signed, and the claim, coupon and user it was sent for. */
  datatype PooledTx = PooledTx(
    hash: TxHash, nonce: nat, to: Address, amount: int, claim: ClaimId, key: TxHash, user: UserId)

  datatype State = State(
    cfg: Config,
    baseNonce: nat,
    coupons: Table,
    claims: map<ClaimId, Claim>,
    instances: map<InstanceId, Instance>,
    lock: Option<Lease>,
    now: nat,
    pool: seq<PooledTx>)     // every treasury transaction the chain has accepted, oldest first

  /** How a database write can end for its caller. */
  datatype Write = Acked | LostReply | Failed

  datatype Action =
    | Reject
    | Select(key: TxHash)
    | ReadError
    | Cas(write: Write)
    | Enqueue
    | Enter
    | SetOk
    | SetBusy
    | SetError(applied: bool)
    | ReadNonce(nonce: nat)
    | BuildError
    | Sign(hash: TxHash)
    | Undo(write: Write)
    | RecordHash(write: Write)
    | Send(accepted: bool, replied: bool)
    | ProbeFound
    | ProbeMissing
    | ProbeError
    | Unlock(ran: bool)
    | ReleaseLocal
    | Confirm(ok: bool)

  datatype Event =
    | Tick(ms: nat)
    | Boot(instance: InstanceId)
    | Crash(instance: InstanceId)
    | IssueCoupon(transfer: Transfer, code: string, found: Option<UserId>)
    | LinkCoupons(userId: UserId, address: Address)
    | Begin(claim: ClaimId, instance: InstanceId, user: UserId, to: Address, code: string)
    | Act(claim: ClaimId, action: Action)

  // ----- what the environment can see

  predicate LockHeld(s: State) {
    s.lock.Some? && s.now < s.lock.value.expiresAt
  }

  predicate Known(pool: seq<PooledTx>, hash: TxHash) {
    exists j :: 0 <= j < |pool| && pool[j].hash == hash
  }

  predicate NonceTaken(pool: seq<PooledTx>, nonce: nat) {
    exists j :: 0 <= j < |pool| && pool[j].nonce == nonce
  }

  /** `getTransactionCount(treasury, 'pending')`: the first nonce with no transaction. */
  predicate PendingCount(s: State, nonce: nat) {
    && s.baseNonce <= nonce
    && !NonceTaken(s.pool, nonce)
    && forall m: nat | s.baseNonce <= m < nonce :: NonceTaken(s.pool, m)
  }

  /** The claim's promise in the local queue has been resolved. */
  predicate Resolved(pc: Pc) {
    pc.Undoing? || pc.Confirming? || pc.Done?
  }

  /** The coupon with this code (codes are unique) is this user's and not redeemed. */
  predicate Claimable(cp: Coupon, user: UserId, code: string) {
    cp.code == code && !cp.redeemed && cp.userId == Some(user)
  }

  predicate Running(s: State, c: ClaimId)
    requires c in s.claims
  {
    s.claims[c].instance in s.instances && s.instances[s.claims[c].instance].alive
  }

  // ----- steps of a claim

  predicate CanAct(s: State, c: ClaimId, a: Action)
    requires c in s.claims
  {
    var cl := s.claims[c];
    && Running(s, c)
    && match a
       case Reject => cl.pc.Selecting? && forall k | k in s.coupons :: !Claimable(s.coupons[k], cl.user, cl.code)
       case Select(k) => cl.pc.Selecting? && k in s.coupons && Claimable(s.coupons[k], cl.user, cl.code)
       case ReadError => cl.pc.Selecting?
       case Cas(_) => cl.pc.Selected? && cl.key in s.coupons
       case Enqueue => cl.pc.Won?
       case Enter =>
         && cl.pc.Waiting?
         && (cl.pc.prev.Some? ==> cl.pc.prev.value in s.claims && Resolved(s.claims[cl.pc.prev.value].pc))
       case SetOk => cl.pc.Acquiring? && !LockHeld(s)
       case SetBusy => cl.pc.Acquiring? && LockHeld(s)
       case SetError(applied) => cl.pc.Acquiring? && (applied ==> !LockHeld(s))
       case ReadNonce(n) => cl.pc.Locked? && PendingCount(s, n)
       case BuildError => cl.pc.Locked? || cl.pc.Nonced?
       case Sign(_) => cl.pc.Nonced?
       case Undo(_) => (cl.pc.BuildFailed? || cl.pc.Disproved? || cl.pc.Undoing?) && cl.key in s.coupons
       case RecordHash(_) => cl.pc.Signed? && cl.key in s.coupons
       case Send(accepted, replied) => cl.pc.Recorded? && (replied ==> accepted)
       case ProbeFound => cl.pc.Probing? && Known(s.pool, cl.pc.hash)
       case ProbeMissing =>
         cl.pc.Probing? && (cl.pc.attempt >= BROADCAST_VERIFY_ATTEMPTS ==> !Known(s.pool, cl.pc.hash))
       case ProbeError => cl.pc.Probing?
       case Unlock(_) => cl.pc.Releasing?
       case ReleaseLocal => cl.pc.Leaving? || cl.pc.Bailing?
       case Confirm(_) => cl.pc.Confirming?
  }

  /** What the database holds after the action: the three writes a claim can make to its coupon. */
  function NextCoupons(s: State, c: ClaimId, a: Action): Table
    requires c in s.claims && CanAct(s, c, a)
  {
    var cl := s.claims[c];
    match a
    case Cas(w) =>
      var cp := s.coupons[cl.key];
      if cp.redeemed || w.Failed? then s.coupons
      else s.coupons[cl.key := cp.(redeemed := true, redeemedAt := Some(s.now))]
    case Undo(w) =>
      var cp := s.coupons[cl.key].(redeemed := false, redeemedAt := None);
      if w.Failed? then s.coupons
      else s.coupons[cl.key := if cl.pc.Disproved? then cp.(redemptionTxHash := None) else cp]
    case RecordHash(w) =>
      if w.Failed? then s.coupons
      else s.coupons[cl.key := s.coupons[cl.key].(redemptionTxHash := Some(cl.pc.hash))]
    case _ => s.coupons
  }

  /** What Redis holds: SET NX PX and the compare-and-delete. */
  function NextLock(s: State, c: ClaimId, a: Action): Option<Lease> {
    match a
    case SetOk => Some(Lease(c, s.now + TREASURY_LOCK_TTL_MS))
    case SetError(applied) => if applied then Some(Lease(c, s.now + TREASURY_LOCK_TTL_MS)) else s.lock
    case Unlock(ran) => if ran && LockHeld(s) && s.lock.value.token == c then None else s.lock
    case _ => s.lock
  }

  /** What the chain has accepted; a transaction it knows already is not accepted twice. */
  function NextPool(s: State, c: ClaimId, a: Action): seq<PooledTx>
    requires c in s.claims && CanAct(s, c, a)
  {
    var cl := s.claims[c];
    if a.Send? && a.accepted && !Known(s.pool, cl.pc.hash)
    then s.pool + [PooledTx(cl.pc.hash, cl.pc.nonce, cl.to, cl.amount, c, cl.key, cl.user)]
    else s.pool
  }

  function NextInstances(s: State, c: ClaimId, a: Action): map<InstanceId, Instance>
    requires c in s.claims && CanAct(s, c, a)
  {
    var i := s.claims[c].instance;
    if a.Enqueue? then s.instances[i := s.instances[i].(arrivals := s.instances[i].arrivals + [c])]
    else s.instances
  }

  function Tail(arrivals: seq<ClaimId>): Option<ClaimId> {
    if arrivals == [] then None else Some(arrivals[|arrivals| - 1])
  }

  function NextPc(s: State, c: ClaimId, a: Action): Pc
    requires c in s.claims && CanAct(s, c, a)
  {
    var pc := s.claims[c].pc;
    match a
    case Reject => Done(Refused)
    case Select(_) => Selected
    case ReadError => Done(Fault)
    case Cas(w) =>
      if s.coupons[s.claims[c].key].redeemed then Done(if w.Acked? then Refused else Fault)
      else if w.Acked? then Won else Done(Fault)
    case Enqueue => Waiting(Tail(s.instances[s.claims[c].instance].arrivals))
    case Enter => Acquiring(1)
    case SetOk => Locked
    case SetBusy => if pc.attempt < TREASURY_LOCK_ACQUIRE_ATTEMPTS then Acquiring(pc.attempt + 1) else Bailing
    case SetError(_) => Bailing
    case ReadNonce(n) => Nonced(n)
    case BuildError => BuildFailed
    case Sign(h) => Signed(pc.nonce, h)
    case Undo(w) =>
      if pc.Undoing? then Done(if w.Acked? then Busy else Fault)
      else Releasing(if w.Acked? then NotSent else Fault)
    case RecordHash(w) => if w.Acked? then Recorded(pc.nonce, pc.hash) else Releasing(Fault)
    case Send(_, replied) => if replied then Releasing(Paid(pc.hash)) else Probing(pc.hash, 1)
    case ProbeFound => Releasing(Unconfirmed(pc.hash))
    case ProbeMissing =>
      if pc.attempt < BROADCAST_VERIFY_ATTEMPTS then Probing(pc.hash, pc.attempt + 1) else Disproved(pc.hash)
    case ProbeError =>
      if pc.attempt < BROADCAST_VERIFY_ATTEMPTS then Probing(pc.hash, pc.attempt + 1)
      else Releasing(Unverified(pc.hash))
    case Unlock(_) => Leaving(pc.outcome)
    case ReleaseLocal =>
      if pc.Bailing? then Undoing
      else if pc.outcome.Paid? then Confirming(pc.outcome.hash)
      else Done(pc.outcome)
    case Confirm(ok) => Done(if ok then Paid(pc.hash) else Unconfirmed(pc.hash))
  }

  function NextClaim(s: State, c: ClaimId, a: Action): Claim
    requires c in s.claims && CanAct(s, c, a)
  {
    var cl := s.claims[c].(pc := NextPc(s, c, a));
    match a
    case Select(k) => cl.(key := k, amount := s.coupons[k].utlAmountRaw)
    case SetOk => cl.(lease := Some(s.now + TREASURY_LOCK_TTL_MS))
    case _ => cl
  }

  function Act1(s: State, c: ClaimId, a: Action): State
    requires c in s.claims && CanAct(s, c, a)
  {
    State(s.cfg, s.baseNonce, NextCoupons(s, c, a), s.claims[c := NextClaim(s, c, a)], NextInstances(s, c, a),
          NextLock(s, c, a), s.now, NextPool(s, c, a))
  }

  // ----- steps of the whole system

  predicate Enabled(s: State, e: Event) {
    match e
    case Tick(_) => true
    case Boot(i) => i !in s.instances
    case Crash(i) => i in s.instances
    case IssueCoupon(_, _, _) => true
    case LinkCoupons(_, _) => true
    case Begin(c, i, _, _, _) => c !in s.claims && i in s.instances && s.instances[i].alive
    case Act(c, a) => c in s.claims && CanAct(s, c, a)
  }

  function Apply(s: State, e: Event): State
    requires Enabled(s, e)
  {
    match e
    case Tick(ms) => s.(now := s.now + ms)
    case Boot(i) => s.(instances := s.instances[i := Instance(true, [])])
    case Crash(i) => s.(instances := s.instances[i := s.instances[i].(alive := false)])
    case IssueCoupon(ev, code, found) => s.(coupons := Issue(s.cfg, s.coupons, ev, code, found))
    case LinkCoupons(u, address) => s.(coupons := LinkOrphans(s.coupons, u, address))
    case Begin(c, i, user, to, code) =>
      s.(claims := s.claims[c := Claim(i, user, to, code, "", 0, None, Selecting)])
    case Act(c, a) => Act1(s, c, a)
  }

  /** The state of a run before its event number `i`. */
  function StateAt(s: State, es: seq<Event>, i: nat): State
    requires IsRun(s, es) && i <= |es|
    decreases i
  {
    if i == 0 then s else StateAt(Apply(s, es[0]), es[1..], i - 1)
  }

  function Init(cfg: Config, baseNonce: nat): State {
    State(cfg, baseNonce, map[], map[], map[], None, 0, [])
  }

  predicate IsRun(s: State, es: seq<Event>)
    decreases |es|
  {
    es == [] || (Enabled(s, es[0]) && IsRun(Apply(s, es[0]), es[1..]))
  }

  function Exec(s: State, es: seq<Event>): State
    requires IsRun(s, es)
    decreases |es|
  {
    if es == [] then s else Exec(Apply(s, es[0]), es[1..])
  }

  ghost predicate Reachable(s: State) {
    exists cfg, base: nat, es :: IsRun(Init(cfg, base), es) && Exec(Init(cfg, base), es) == s
  }

  lemma StepReaches(s: State, e: Event)
    requires Reachable(s) && Enabled(s, e)
    ensures Reachable(Apply(s, e))
  {
    var cfg, base: nat, es :| IsRun(Init(cfg, base), es) && Exec(Init(cfg, base), es) == s;
    RunExtends(Init(cfg, base), es, e);
  }

  lemma {:induction false} RunExtends(s: State, es: seq<Event>, e: Event)
    requires IsRun(s, es) && Enabled(Exec(s, es), e)
    ensures IsRun(s, es + [e]) && Exec(s, es + [e]) == Apply(Exec(s, es), e)
    decreases |es|
  {
    if es == [] {
      assert (es + [e])[1..] == [];
    } else {
      RunExtends(Apply(s, es[0]), es[1..], e);
      assert (es + [e])[1..] == es[1..] + [e];
    }
  }

  lemma {:induction false} RunsJoin(s: State, es: seq<Event>, fs: seq<Event>)
    requires IsRun(s, es) && IsRun(Exec(s, es), fs)
    ensures IsRun(s, es + fs) && Exec(s, es + fs) == Exec(Exec(s, es), fs)
    decreases |es|
  {
    if es == [] {
      assert es + fs == fs;
    } else {
      RunsJoin(Apply(s, es[0]), es[1..], fs);
      assert (es + fs)[1..] == es[1..] + fs;
    }
  }
}
