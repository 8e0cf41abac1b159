/**
 What every step of the payout machine keeps, and what follows for every run: at most one
 transaction per coupon, recorded before it is sent, for the coupon's own amount and owner.
 The rollbacks are plain writes by `_id`; they are safe only because of the ownership
 argument below.
 */
module PayoutSafety {
  import opened Wrappers
  import opened Coupons
  import opened Payout

  // ----- the invariant

  /** The claim has swapped `redeemed` and may still write the coupon: it owns the coupon. */
  predicate Owner(pc: Pc) {
    || pc.Won? || pc.Waiting? || pc.Acquiring? || pc.Bailing? || pc.Undoing? || pc.Locked? || pc.Nonced?
    || pc.BuildFailed? || pc.Signed? || pc.Recorded? || pc.Probing? || pc.Disproved?
  }

  /** The owner has stored the hash of the transaction it signed. */
  predicate Hashed(pc: Pc) {
    pc.Recorded? || pc.Probing? || pc.Disproved?
  }

  predicate CouponShape(cp: Coupon) {
    if cp.redeemed then cp.redeemedAt.Some? else cp.redeemedAt.None? && cp.redemptionTxHash.None?
  }

  predicate Shapes(s: State) {
    forall k | k in s.coupons :: CouponShape(s.coupons[k])
  }

  predicate PickedOk(s: State, cl: Claim) {
    cl.pc.Selected? || Owner(cl.pc) ==>
      && cl.key in s.coupons
      && cl.amount == s.coupons[cl.key].utlAmountRaw
      && s.coupons[cl.key].userId == Some(cl.user)
  }

  predicate OwnerOk(s: State, cl: Claim)
    requires PickedOk(s, cl)
  {
    Owner(cl.pc) ==>
      && s.coupons[cl.key].redeemed
      && s.coupons[cl.key].redemptionTxHash == (if Hashed(cl.pc) then Some(cl.pc.hash) else None)
  }

  predicate ClaimsOk(s: State) {
    forall c | c in s.claims :: PickedOk(s, s.claims[c]) && OwnerOk(s, s.claims[c])
  }

  predicate OneOwner(s: State) {
    forall c, d | c in s.claims && d in s.claims && Owner(s.claims[c].pc) && Owner(s.claims[d].pc)
               && s.claims[c].key == s.claims[d].key :: c == d
  }

  predicate TxOk(s: State, tx: PooledTx) {
    && tx.key in s.coupons
    && var cp := s.coupons[tx.key];
    && cp.redeemed && cp.redemptionTxHash == Some(tx.hash)
    && tx.amount == cp.utlAmountRaw && cp.userId == Some(tx.user)
  }

  predicate PoolOk(s: State) {
    forall j | 0 <= j < |s.pool| :: TxOk(s, s.pool[j])
  }

  predicate OneTxPerCoupon(pool: seq<PooledTx>) {
    forall i, j | 0 <= i < j < |pool| :: pool[i].key != pool[j].key
  }

  predicate CouponPooled(pool: seq<PooledTx>, k: TxHash) {
    exists j :: 0 <= j < |pool| && pool[j].key == k
  }

  /** An owner that is not waiting for the chain's word has nothing of its coupon in the pool. */
  predicate UnsentOk(s: State) {
    forall c | c in s.claims && Owner(s.claims[c].pc) && !s.claims[c].pc.Probing? ::
      !CouponPooled(s.pool, s.claims[c].key)
  }

  predicate Inv(s: State) {
    Shapes(s) && ClaimsOk(s) && OneOwner(s) && PoolOk(s) && OneTxPerCoupon(s.pool) && UnsentOk(s)
  }

  // ----- it holds at first and is kept by every step

  lemma InitInv(cfg: Config, base: nat)
    ensures Inv(Init(cfg, base))
  {
  }

  /** A step that writes no coupon and moves a claim between two points of equal standing. */
  lemma MoveKeeps(s: State, s': State, c: ClaimId)
    requires Inv(s) && c in s.claims && s'.claims.Keys == s.claims.Keys
    requires s'.coupons == s.coupons && s'.pool == s.pool
    requires forall d | d in s.claims && d != c :: s'.claims[d] == s.claims[d]
    requires s'.claims[c] == s.claims[c].(pc := s'.claims[c].pc, lease := s'.claims[c].lease)
    requires var pc, pc' := s.claims[c].pc, s'.claims[c].pc;
             && (pc'.Selected? ==> pc.Selected?)
             && (Owner(pc') ==> Owner(pc) && Hashed(pc') == Hashed(pc) && (Hashed(pc') ==> pc'.hash == pc.hash))
             && (Owner(pc') && !pc'.Probing? ==> !CouponPooled(s.pool, s.claims[c].key))
    ensures Inv(s')
  {
  }

  lemma SelectKeeps(s: State, c: ClaimId, k: TxHash)
    requires Inv(s) && c in s.claims && CanAct(s, c, Select(k))
    ensures Inv(Act1(s, c, Select(k)))
  {
  }

  /** A stored swap makes at most one owner of a coupon that had none. */
  lemma SwapKeeps(s: State, s': State, c: ClaimId)
    requires Inv(s) && c in s.claims && s.claims[c].pc.Selected? && !s.coupons[s.claims[c].key].redeemed
    requires c in s'.claims && s'.claims == s.claims[c := s.claims[c].(pc := s'.claims[c].pc)] && s'.pool == s.pool
    requires s'.claims[c].pc.Won? || s'.claims[c].pc.Done?
    requires var k := s.claims[c].key;
             s'.coupons == s.coupons[k := s.coupons[k].(redeemed := true, redeemedAt := Some(s.now))]
    ensures Inv(s')
  {
    var k := s.claims[c].key;
    assert CouponShape(s.coupons[k]) && !CouponPooled(s.pool, k);
    assert forall d | d in s.claims && Owner(s.claims[d].pc) :: s.claims[d].key != k;
  }

  lemma CasKeeps(s: State, c: ClaimId, w: Write)
    requires Inv(s) && c in s.claims && CanAct(s, c, Cas(w))
    ensures Inv(Act1(s, c, Cas(w)))
  {
    if s.coupons[s.claims[c].key].redeemed || w.Failed? {
      MoveKeeps(s, Act1(s, c, Cas(w)), c);
    } else {
      SwapKeeps(s, Act1(s, c, Cas(w)), c);
    }
  }

  /** An owner rewrites the redemption fields of its own coupon, which has nothing in the pool. */
  lemma OwnWriteKeeps(s: State, s': State, c: ClaimId)
    requires Inv(s) && c in s.claims && Owner(s.claims[c].pc) && !s.claims[c].pc.Probing?
    requires c in s'.claims && s'.claims == s.claims[c := s.claims[c].(pc := s'.claims[c].pc)] && s'.pool == s.pool
    requires var k := s.claims[c].key;
             && k in s'.coupons && s'.coupons == s.coupons[k := s'.coupons[k]]
             && s'.coupons[k].(redeemed := s.coupons[k].redeemed, redeemedAt := s.coupons[k].redeemedAt,
                               redemptionTxHash := s.coupons[k].redemptionTxHash) == s.coupons[k]
             && CouponShape(s'.coupons[k])
             && var pc' := s'.claims[c].pc;
             && !pc'.Selected? && !pc'.Probing?
             && (Owner(pc') ==> s'.coupons[k].redeemed
                                && s'.coupons[k].redemptionTxHash == if Hashed(pc') then Some(pc'.hash) else None)
    ensures Inv(s')
  {
    var k := s.claims[c].key;
    assert !CouponPooled(s.pool, k);
    assert forall d | d in s.claims && d != c && Owner(s.claims[d].pc) :: s.claims[d].key != k;
  }

  lemma WriteKeeps(s: State, c: ClaimId, a: Action)
    requires Inv(s) && c in s.claims && CanAct(s, c, a) && (a.Undo? || a.RecordHash?)
    ensures Inv(Act1(s, c, a))
  {
    var s' := Act1(s, c, a);
    assert CouponShape(s.coupons[s.claims[c].key]);
    if a.write.Failed? {
      MoveKeeps(s, s', c);
    } else {
      OwnWriteKeeps(s, s', c);
    }
  }

  /** The first transaction of a coupon enters the pool, sent by the coupon's owner. */
  lemma PoolGrows(s: State, s': State, c: ClaimId, tx: PooledTx)
    requires Inv(s) && c in s.claims && s.claims[c].pc.Recorded?
    requires c in s'.claims && s'.claims == s.claims[c := s.claims[c].(pc := s'.claims[c].pc)]
    requires s'.coupons == s.coupons && s'.pool == s.pool + [tx]
    requires tx.key == s.claims[c].key && tx.hash == s.claims[c].pc.hash
    requires tx.amount == s.claims[c].amount && tx.user == s.claims[c].user
    requires var pc' := s'.claims[c].pc; !pc'.Selected? && (Owner(pc') ==> pc'.Probing? && pc'.hash == tx.hash)
    ensures Inv(s')
  {
    var k := s.claims[c].key;
    assert !CouponPooled(s.pool, k);
    assert forall d | d in s.claims && d != c && Owner(s.claims[d].pc) :: s.claims[d].key != k;
  }

  lemma SendKeeps(s: State, c: ClaimId, a: Action)
    requires Inv(s) && c in s.claims && CanAct(s, c, a) && a.Send?
    ensures Inv(Act1(s, c, a))
  {
    var s' := Act1(s, c, a);
    if s'.pool == s.pool {
      MoveKeeps(s, s', c);
    } else {
      PoolGrows(s, s', c, s'.pool[|s.pool|]);
    }
  }

  /** A truthful "not found" on the last probe means that nothing of this coupon is in the pool. */
  lemma DisprovedMeansUnsent(s: State, c: ClaimId)
    requires Inv(s) && c in s.claims && s.claims[c].pc.Probing? && !Known(s.pool, s.claims[c].pc.hash)
    ensures !CouponPooled(s.pool, s.claims[c].key)
  {
    forall j | 0 <= j < |s.pool|
      ensures s.pool[j].key != s.claims[c].key
    {
      assert TxOk(s, s.pool[j]) && s.pool[j].hash != s.claims[c].pc.hash;
    }
  }

  /** The actions that write no coupon, send nothing and disprove nothing. */
  predicate Quiet(a: Action) {
    !a.Select? && !a.Cas? && !a.Undo? && !a.RecordHash? && !a.Send? && !a.ProbeMissing?
  }

  lemma QuietPc(s: State, c: ClaimId, a: Action)
    requires c in s.claims && CanAct(s, c, a) && Quiet(a)
    ensures var pc, pc' := s.claims[c].pc, NextPc(s, c, a);
            && !pc'.Selected?
            && (Owner(pc') ==> Owner(pc) && Hashed(pc') == Hashed(pc) && (Hashed(pc') ==> pc'.hash == pc.hash))
            && (Owner(pc') && !pc'.Probing? ==> !pc.Probing?)
  {
  }

  lemma QuietActKeeps(s: State, c: ClaimId, a: Action)
    requires Inv(s) && c in s.claims && CanAct(s, c, a) && Quiet(a)
    ensures Inv(Act1(s, c, a))
  {
    QuietPc(s, c, a);
    var s' := Act1(s, c, a);
    assert s'.coupons == s.coupons && s'.pool == s.pool;
    MoveKeeps(s, s', c);
  }

  lemma ProbeMissingKeeps(s: State, c: ClaimId)
    requires Inv(s) && c in s.claims && CanAct(s, c, ProbeMissing)
    ensures Inv(Act1(s, c, ProbeMissing))
  {
    if s.claims[c].pc.attempt >= BROADCAST_VERIFY_ATTEMPTS {
      DisprovedMeansUnsent(s, c);
    }
    MoveKeeps(s, Act1(s, c, ProbeMissing), c);
  }

  lemma ActKeeps(s: State, c: ClaimId, a: Action)
    requires Inv(s) && c in s.claims && CanAct(s, c, a)
    ensures Inv(Act1(s, c, a))
  {
    match a
    case Select(k) => SelectKeeps(s, c, k);
    case Cas(w) => CasKeeps(s, c, w);
    case Undo(_) => WriteKeeps(s, c, a);
    case RecordHash(_) => WriteKeeps(s, c, a);
    case Send(_, _) => SendKeeps(s, c, a);
    case ProbeMissing => ProbeMissingKeeps(s, c);
    case _ => QuietActKeeps(s, c, a);
  }

  lemma IssueKeeps(s: State, ev: Transfer, code: string, found: Option<UserId>)
    requires Inv(s)
    ensures Inv(s.(coupons := Issue(s.cfg, s.coupons, ev, code, found)))
  {
  }

  lemma LinkKeeps(s: State, u: UserId, address: Address)
    requires Inv(s)
    ensures Inv(s.(coupons := LinkOrphans(s.coupons, u, address)))
  {
    var t := LinkOrphans(s.coupons, u, address);
    assert forall k | k in t :: t[k].(userId := s.coupons[k].userId) == s.coupons[k];
    assert forall k | k in t && s.coupons[k].userId.Some? :: t[k] == s.coupons[k];
  }

  lemma StepKeeps(s: State, e: Event)
    requires Inv(s) && Enabled(s, e)
    ensures Inv(Apply(s, e))
  {
    match e
    case Act(c, a) => ActKeeps(s, c, a);
    case IssueCoupon(ev, code, found) => IssueKeeps(s, ev, code, found);
    case LinkCoupons(u, address) => LinkKeeps(s, u, address);
    case _ =>
  }

  lemma {:induction false} RunKeeps(s: State, es: seq<Event>)
    requires Inv(s) && IsRun(s, es)
    ensures Inv(Exec(s, es))
    decreases |es|
  {
    if es != [] {
      StepKeeps(s, es[0]);
      RunKeeps(Apply(s, es[0]), es[1..]);
    }
  }

  lemma ReachableIsSafe(s: State)
    requires Reachable(s)
    ensures Inv(s)
  {
    var cfg, base: nat, es :| IsRun(Init(cfg, base), es) && Exec(Init(cfg, base), es) == s;
    InitInv(cfg, base);
    RunKeeps(Init(cfg, base), es);
  }

  // ----- what follows for every run

  /**
   Single payout, and record before send: over every run from the empty system, no coupon has
   two transactions in the pool, and each pooled transaction is for a coupon that is redeemed,
   stores exactly that hash, and has that amount and that owner.  No freshness of transaction
   hashes is assumed.
   */
  lemma SinglePayout(cfg: Config, base: nat, es: seq<Event>)
    requires IsRun(Init(cfg, base), es)
    ensures var s := Exec(Init(cfg, base), es);
            && (forall i, j | 0 <= i < |s.pool| && 0 <= j < |s.pool| && s.pool[i].key == s.pool[j].key :: i == j)
            && (forall tx | tx in s.pool :: TxOk(s, tx))
  {
    InitInv(cfg, base);
    RunKeeps(Init(cfg, base), es);
  }

  /** Of all claims on a coupon at most one may still write it, and then the coupon is redeemed. */
  lemma OneOwnerPerCoupon(cfg: Config, base: nat, es: seq<Event>)
    requires IsRun(Init(cfg, base), es)
    ensures var s := Exec(Init(cfg, base), es);
            && Shapes(s)
            && forall c, d | c in s.claims && d in s.claims && Owner(s.claims[c].pc) && Owner(s.claims[d].pc)
                          && s.claims[c].key == s.claims[d].key ::
                 c == d && s.claims[c].key in s.coupons && s.coupons[s.claims[c].key].redeemed
  {
    InitInv(cfg, base);
    RunKeeps(Init(cfg, base), es);
  }

  predicate SameRedemption(a: Coupon, b: Coupon) {
    a.redeemed == b.redeemed && a.redeemedAt == b.redeemedAt && a.redemptionTxHash == b.redemptionTxHash
  }

  /** Which coupon, if any, an action can write. */
  lemma ActWritesOneCoupon(s: State, c: ClaimId, a: Action)
    requires c in s.claims && CanAct(s, c, a)
    ensures Act1(s, c, a).coupons.Keys == s.coupons.Keys
    ensures forall k | k in s.coupons && k != s.claims[c].key :: Act1(s, c, a).coupons[k] == s.coupons[k]
    ensures !a.Cas? && !a.Undo? && !a.RecordHash? ==> Act1(s, c, a).coupons == s.coupons
  {
  }

  lemma LinkLeavesRedemption(t: Table, u: UserId, address: Address, k: TxHash)
    requires k in t
    ensures k in LinkOrphans(t, u, address) && SameRedemption(t[k], LinkOrphans(t, u, address)[k])
  {
  }

  /** The redemption fields of a coupon are written by nobody but its owner and a winning swap. */
  lemma OnlyTheOwnerWrites(s: State, e: Event, k: TxHash)
    requires Inv(s) && Enabled(s, e) && k in s.coupons
    requires k !in Apply(s, e).coupons || !SameRedemption(s.coupons[k], Apply(s, e).coupons[k])
    ensures e.Act? && s.claims[e.claim].key == k
    ensures e.action.Cas? ==> !s.coupons[k].redeemed
    ensures !e.action.Cas? ==> Owner(s.claims[e.claim].pc) && !s.claims[e.claim].pc.Probing?
  {
    match e
    case Act(c, a) => ActWritesOneCoupon(s, c, a);
    case LinkCoupons(u, address) => LinkLeavesRedemption(s.coupons, u, address, k);
    case _ =>
  }

  // ----- a rollback is the last write of its claim

  predicate Spent(pc: Pc) {
    pc.Releasing? || pc.Leaving? || pc.Confirming? || pc.Done?
  }

  predicate TouchesCoupon(a: Action) {
    a.Cas? || a.Undo? || a.RecordHash? || a.Send?
  }

  lemma {:induction false} SpentStays(s: State, es: seq<Event>, c: ClaimId)
    requires IsRun(s, es) && c in s.claims && Spent(s.claims[c].pc)
    ensures c in Exec(s, es).claims && Spent(Exec(s, es).claims[c].pc)
    ensures forall i | 0 <= i < |es| && es[i].Act? && es[i].claim == c :: !TouchesCoupon(es[i].action)
    decreases |es|
  {
    if es != [] {
      SpentStays(Apply(s, es[0]), es[1..], c);
      assert forall i | 1 <= i < |es| :: es[i] == es[1..][i - 1];
    }
  }

  /** A claim rolls back only while nothing of its coupon is in the pool, and never touches the coupon again. */
  lemma RollbackIsLast(s: State, c: ClaimId, w: Write, es: seq<Event>)
    requires Inv(s) && c in s.claims && CanAct(s, c, Undo(w)) && IsRun(Act1(s, c, Undo(w)), es)
    ensures !CouponPooled(s.pool, s.claims[c].key)
    ensures forall i | 0 <= i < |es| && es[i].Act? && es[i].claim == c :: !TouchesCoupon(es[i].action)
  {
    SpentStays(Act1(s, c, Undo(w)), es, c);
  }

  // ----- what has been paid stays paid

  lemma StepExtendsPool(s: State, e: Event)
    requires Enabled(s, e)
    ensures s.pool <= Apply(s, e).pool
  {
  }

  lemma {:induction false} PaidForever(s: State, es: seq<Event>, tx: PooledTx)
    requires Inv(s) && IsRun(s, es) && tx in s.pool
    ensures tx in Exec(s, es).pool && TxOk(Exec(s, es), tx)
    decreases |es|
  {
    if es != [] {
      StepKeeps(s, es[0]);
      StepExtendsPool(s, es[0]);
      PaidForever(Apply(s, es[0]), es[1..], tx);
    }
  }

  // ----- what is fixed when a coupon is issued, and its owner once there is one

  predicate Frozen(a: Coupon, b: Coupon) {
    && b.(userId := a.userId, redeemed := a.redeemed, redeemedAt := a.redeemedAt,
          redemptionTxHash := a.redemptionTxHash) == a
    && (a.userId.Some? ==> b.userId == a.userId)
  }

  lemma StepFreezes(s: State, e: Event, k: TxHash)
    requires Enabled(s, e) && k in s.coupons
    ensures k in Apply(s, e).coupons && Frozen(s.coupons[k], Apply(s, e).coupons[k])
  {
  }

  /** No run changes an issued coupon's amounts, payer, merchant or code, nor an owner once set. */
  lemma {:induction false} IssuedForever(s: State, es: seq<Event>, k: TxHash)
    requires IsRun(s, es) && k in s.coupons
    ensures k in Exec(s, es).coupons && Frozen(s.coupons[k], Exec(s, es).coupons[k])
    decreases |es|
  {
    if es != [] {
      StepFreezes(s, es[0], k);
      IssuedForever(Apply(s, es[0]), es[1..], k);
    }
  }

  predicate UniqueCodes(t: Table) {
    forall k, l | k in t && l in t && t[k].code == t[l].code :: k == l
  }

  lemma ActLeavesCodes(s: State, c: ClaimId, a: Action)
    requires UniqueCodes(s.coupons) && c in s.claims && CanAct(s, c, a)
    ensures UniqueCodes(Act1(s, c, a).coupons)
  {
    var t := Act1(s, c, a).coupons;
    ActWritesOneCoupon(s, c, a);
    forall k | k in t
      ensures t[k].code == s.coupons[k].code
    {
      StepFreezes(s, Act(c, a), k);
    }
  }

  /** A code is that of one coupon in every run: so the read by code finds the coupon, or there is none. */
  lemma {:induction false} CodesStayUnique(s: State, es: seq<Event>)
    requires UniqueCodes(s.coupons) && IsRun(s, es)
    ensures UniqueCodes(Exec(s, es).coupons)
    decreases |es|
  {
    if es != [] {
      if es[0].Act? {
        ActLeavesCodes(s, es[0].claim, es[0].action);
      }
      CodesStayUnique(Apply(s, es[0]), es[1..]);
    }
  }

  // ----- "redeemed: true guarantees redeemedAt and redemptionTxHash are non-null"

  predicate Listable(cp: Coupon) {
    cp.redeemed ==> cp.redeemedAt.Some? && cp.redemptionTxHash.Some?
  }

  /** While a coupon has an owner the guarantee holds exactly from the hash write onward. */
  lemma ListableIffHashed(s: State, c: ClaimId)
    requires Inv(s) && c in s.claims && Owner(s.claims[c].pc)
    ensures Listable(s.coupons[s.claims[c].key]) <==> Hashed(s.claims[c].pc)
  {
    assert CouponShape(s.coupons[s.claims[c].key]);
  }

  /** A stored write to the coupon's redemption fields: the swap that redeems it, or a later one of its owner. */
  datatype StoredWrite = Swap | OwnersWrite

  function WriteOf(s: State, e: Event, k: TxHash): Option<StoredWrite>
    requires Enabled(s, e) && k in s.coupons
  {
    if !e.Act? || s.claims[e.claim].key != k then None
    else match e.action
      case Cas(w) => if w.Failed? || s.coupons[k].redeemed then None else Some(Swap)
      case Undo(w) => if w.Failed? then None else Some(OwnersWrite)
      case RecordHash(w) => if w.Failed? then None else Some(OwnersWrite)
      case _ => None
  }

  /** After any step a coupon meets the guarantee unless the swap was stored; a later write restores it. */
  lemma ListableAfter(s: State, e: Event, k: TxHash)
    requires Inv(s) && Enabled(s, e) && k in s.coupons
    ensures k in Apply(s, e).coupons
    ensures Listable(Apply(s, e).coupons[k]) <==>
            match WriteOf(s, e, k) case Some(w) => w == OwnersWrite case None => Listable(s.coupons[k])
  {
    StepFreezes(s, e, k);
    StepKeeps(s, e);
    assert CouponShape(s.coupons[k]) && CouponShape(Apply(s, e).coupons[k]);
    if e.Act? && (e.action.Undo? || e.action.RecordHash?) && s.claims[e.claim].key == k {
      assert Owner(s.claims[e.claim].pc);
    }
  }

  /** The last stored write to the coupon's redemption fields in a run. */
  function LastWrite(s: State, es: seq<Event>, k: TxHash): Option<StoredWrite>
    requires IsRun(s, es)
    decreases |es|
  {
    if es == [] then None
    else
      var later := LastWrite(Apply(s, es[0]), es[1..], k);
      if later.Some? then later else if k in s.coupons then WriteOf(s, es[0], k) else None
  }

  lemma NewCouponIsListable(s: State, e: Event, k: TxHash)
    requires Enabled(s, e) && k !in s.coupons && k in Apply(s, e).coupons
    ensures Listable(Apply(s, e).coupons[k])
  {
    if e.Act? {
      ActWritesOneCoupon(s, e.claim, e.action);
    }
  }

  lemma {:induction false} ListableIffFrom(s: State, es: seq<Event>, k: TxHash)
    requires Inv(s) && IsRun(s, es) && k in Exec(s, es).coupons
    ensures Listable(Exec(s, es).coupons[k]) <==>
            match LastWrite(s, es, k)
            case Some(w) => w == OwnersWrite
            case None => k in s.coupons ==> Listable(s.coupons[k])
    decreases |es|
  {
    if es != [] {
      StepKeeps(s, es[0]);
      if k in s.coupons {
        ListableAfter(s, es[0], k);
      } else if k in Apply(s, es[0]).coupons {
        NewCouponIsListable(s, es[0], k);
      }
      ListableIffFrom(Apply(s, es[0]), es[1..], k);
    }
  }

  /** Over every run: a coupon breaks the guarantee exactly when the last write stored for it is the swap. */
  lemma ListableIffNotJustSwapped(cfg: Config, base: nat, es: seq<Event>, k: TxHash)
    requires IsRun(Init(cfg, base), es) && k in Exec(Init(cfg, base), es).coupons
    ensures Listable(Exec(Init(cfg, base), es).coupons[k]) <==> LastWrite(Init(cfg, base), es, k) != Some(Swap)
  {
    InitInv(cfg, base);
    ListableIffFrom(Init(cfg, base), es, k);
  }

  /** When the last swap was stored for the coupon in a run. */
  function SwapTime(s: State, es: seq<Event>, k: TxHash): Option<nat>
    requires IsRun(s, es)
    decreases |es|
  {
    if es == [] then None
    else
      var later := SwapTime(Apply(s, es[0]), es[1..], k);
      if later.Some? then later
      else if k in s.coupons && WriteOf(s, es[0], k) == Some(Swap) then Some(s.now)
      else None
  }

  lemma StepDates(s: State, e: Event, k: TxHash)
    requires Enabled(s, e) && k in Apply(s, e).coupons && Apply(s, e).coupons[k].redeemed
    ensures k in s.coupons
    ensures Apply(s, e).coupons[k].redeemedAt ==
            if WriteOf(s, e, k) == Some(Swap) then Some(s.now) else s.coupons[k].redeemedAt
    ensures WriteOf(s, e, k) == Some(Swap) || s.coupons[k].redeemed
  {
    if e.Act? {
      ActWritesOneCoupon(s, e.claim, e.action);
    } else if e.LinkCoupons? {
      LinkLeavesRedemption(s.coupons, e.userId, e.address, k);
    }
  }

  /** Over every run, a redeemed coupon is dated by the last swap that was stored for it. */
  lemma {:induction false} RedeemedAtTheSwap(s: State, es: seq<Event>, k: TxHash)
    requires IsRun(s, es) && k in Exec(s, es).coupons && Exec(s, es).coupons[k].redeemed
    ensures SwapTime(s, es, k).None? ==> k in s.coupons && s.coupons[k].redeemed
    ensures Exec(s, es).coupons[k].redeemedAt ==
            if SwapTime(s, es, k).Some? then SwapTime(s, es, k) else s.coupons[k].redeemedAt
    decreases |es|
  {
    if es != [] {
      var s1 := Apply(s, es[0]);
      RedeemedAtTheSwap(s1, es[1..], k);
      if SwapTime(s1, es[1..], k).None? {
        StepDates(s, es[0], k);
      }
    }
  }

  // ----- a redeemed coupon that nobody owns any more

  predicate Unowned(s: State, k: TxHash) {
    && k in s.coupons && s.coupons[k].redeemed
    && forall c | c in s.claims && s.claims[c].key == k :: !Owner(s.claims[c].pc)
  }

  lemma UnownedStep(s: State, e: Event, k: TxHash)
    requires Inv(s) && Unowned(s, k) && Enabled(s, e)
    ensures k in Apply(s, e).coupons && SameRedemption(s.coupons[k], Apply(s, e).coupons[k])
    ensures Unowned(Apply(s, e), k)
  {
    StepFreezes(s, e, k);
    if !SameRedemption(s.coupons[k], Apply(s, e).coupons[k]) {
      OnlyTheOwnerWrites(s, e, k);
    }
    if e.Act? {
      NoNewOwner(s, e.claim, e.action, k);
    }
  }

  lemma NoNewOwner(s: State, c: ClaimId, a: Action, k: TxHash)
    requires c in s.claims && CanAct(s, c, a) && k in s.coupons && s.coupons[k].redeemed
    requires s.claims[c].key == k ==> !Owner(s.claims[c].pc)
    ensures NextClaim(s, c, a).key == k ==> !Owner(NextPc(s, c, a))
  {
  }

  /** No step of any run changes how such a coupon stands: what it lacks, it lacks for good. */
  lemma {:induction false} UnownedForever(s: State, es: seq<Event>, k: TxHash)
    requires Inv(s) && Unowned(s, k) && IsRun(s, es)
    ensures k in Exec(s, es).coupons && SameRedemption(s.coupons[k], Exec(s, es).coupons[k])
    decreases |es|
  {
    if es != [] {
      UnownedStep(s, es[0], k);
      StepKeeps(s, es[0]);
      UnownedForever(Apply(s, es[0]), es[1..], k);
    }
  }

  const SAMPLE_CONFIG := Config({"m"}, 500, 10_000)
  const SAMPLE_PAYMENT := Transfer("p", "m", 20_000, "h")
  const SAMPLE_START: seq<Event> := [Boot(0), IssueCoupon(SAMPLE_PAYMENT, "x", Some("u")), Begin(0, 0, "u", "p", "x")]

  lemma SampleStartRuns()
    ensures var s := Init(SAMPLE_CONFIG, 0);
            && IsRun(s, SAMPLE_START)
            && Exec(s, SAMPLE_START) == s.(
                 coupons := map["h" := Coupon("x", 20_000, 1_000_000_000_000_000,
                                           "m", "p", Some("u"), false, None, None)],
                 claims := map[0 := Claim(0, "u", "p", "x", "", 0, None, Selecting)],
                 instances := map[0 := Instance(true, [])])
  {
    var s := Init(SAMPLE_CONFIG, 0);
    assert ToLower("m") == "m" && ToLower("h") == "h" && ToLower("p") == "p";
    RunExtends(s, [], SAMPLE_START[0]);
    RunExtends(s, [SAMPLE_START[0]], SAMPLE_START[1]);
    assert [SAMPLE_START[0]] + [SAMPLE_START[1]] == [SAMPLE_START[0], SAMPLE_START[1]];
    RunExtends(s, [SAMPLE_START[0], SAMPLE_START[1]], SAMPLE_START[2]);
    assert [SAMPLE_START[0], SAMPLE_START[1]] + [SAMPLE_START[2]] == SAMPLE_START;
  }

  function SampleRun(reply: Write): seq<Event> {
    SAMPLE_START + [Act(0, Select("h"))] + [Act(0, Cas(reply))]
  }

  lemma SampleRunRuns(reply: Write)
    requires !reply.Failed?
    ensures var s := Init(SAMPLE_CONFIG, 0);
            && IsRun(s, SampleRun(reply))
            && var t := Exec(s, SampleRun(reply));
               && "h" in t.coupons && t.coupons["h"].redeemed && t.coupons["h"].redemptionTxHash.None?
               && t.claims.Keys == {0} && t.claims[0].pc == (if reply.Acked? then Won else Done(Fault))
  {
    var s := Init(SAMPLE_CONFIG, 0);
    SampleStartRuns();
    RunExtends(s, SAMPLE_START, Act(0, Select("h")));
    RunExtends(s, SAMPLE_START + [Act(0, Select("h"))], Act(0, Cas(reply)));
  }

  /** A run that leaves a coupon redeemed with no hash: so the listing may hand out a null hash. */
  lemma RedeemedWithoutHash()
    ensures exists es, k ::
              && IsRun(Init(SAMPLE_CONFIG, 0), es)
              && var t := Exec(Init(SAMPLE_CONFIG, 0), es).coupons;
                 k in t && t[k].redeemed && t[k].redemptionTxHash.None?
  {
    SampleRunRuns(Acked);
    assert "h" in Exec(Init(SAMPLE_CONFIG, 0), SampleRun(Acked)).coupons;
  }

  /** When the reply to the swap is lost, the hash stays null whatever happens afterwards. */
  lemma WithoutHashForGood(es: seq<Event>)
    requires IsRun(Init(SAMPLE_CONFIG, 0), SampleRun(LostReply))
    requires IsRun(Exec(Init(SAMPLE_CONFIG, 0), SampleRun(LostReply)), es)
    ensures var t := Exec(Exec(Init(SAMPLE_CONFIG, 0), SampleRun(LostReply)), es).coupons;
            "h" in t && t["h"].redeemed && t["h"].redemptionTxHash.None?
  {
    SampleRunRuns(LostReply);
    InitInv(SAMPLE_CONFIG, 0);
    RunKeeps(Init(SAMPLE_CONFIG, 0), SampleRun(LostReply));
    UnownedForever(Exec(Init(SAMPLE_CONFIG, 0), SampleRun(LostReply)), es, "h");
  }
}
