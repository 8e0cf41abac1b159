/**
 "Please retry" means that it can be retried: over every run, a coupon is left redeemed only by
 a claim that still owns it, or that reported a payment, a doubt, or a database fault.
 */
module PayoutRetry {
  import opened Coupons
  import opened Payout
  import opened PayoutSafety
  import opened PayoutOutcomes

  /** The claim ended, or is about to, with its coupon left redeemed - and says so. */
  predicate KeepsRedeemed(pc: Pc) {
    Verdict(pc).Some? && (SaysMaybeSent(Verdict(pc).value) || Verdict(pc).value.Fault?)
  }

  predicate AnswersFor(cl: Claim, k: TxHash) {
    cl.key == k && (Owner(cl.pc) || KeepsRedeemed(cl.pc))
  }

  predicate HasAnswerer(s: State, k: TxHash) {
    exists c :: c in s.claims && AnswersFor(s.claims[c], k)
  }

  predicate Accounted(s: State) {
    forall k | k in s.coupons && s.coupons[k].redeemed :: HasAnswerer(s, k)
  }

  /** A claim that answers for its coupon goes on to do so, unless it stores a rollback. */
  lemma AnswererStays(s: State, c: ClaimId, a: Action)
    requires c in s.claims && CanAct(s, c, a)
    requires Owner(s.claims[c].pc) || KeepsRedeemed(s.claims[c].pc)
    requires !(a.Undo? && !a.write.Failed?)
    ensures NextClaim(s, c, a).key == s.claims[c].key
    ensures Owner(NextPc(s, c, a)) || KeepsRedeemed(NextPc(s, c, a))
  {
  }

  lemma ActAccounts(s: State, c: ClaimId, a: Action, k: TxHash)
    requires Accounted(s) && c in s.claims && CanAct(s, c, a)
    requires k in Act1(s, c, a).coupons && Act1(s, c, a).coupons[k].redeemed
    ensures HasAnswerer(Act1(s, c, a), k)
  {
    var s' := Act1(s, c, a);
    ActWritesOneCoupon(s, c, a);
    if s.coupons[k].redeemed {
      var d :| d in s.claims && AnswersFor(s.claims[d], k);
      if d == c {
        AnswererStays(s, c, a);
        assert AnswersFor(s'.claims[c], k);
      } else {
        assert s'.claims[d] == s.claims[d];
      }
    } else {
      assert a.Cas? && s.claims[c].key == k;
      assert AnswersFor(s'.claims[c], k);
    }
  }

  /** Issuance, linking, the clock and crashes leave every redeemed coupon redeemed, and make none so. */
  lemma NoClaimNoRedemption(s: State, e: Event, k: TxHash)
    requires Enabled(s, e) && !e.Act? && k in Apply(s, e).coupons
    ensures Apply(s, e).coupons[k].redeemed <==> k in s.coupons && s.coupons[k].redeemed
  {
    if e.LinkCoupons? {
      LinkLeavesRedemption(s.coupons, e.userId, e.address, k);
    }
  }

  lemma StepAccounts(s: State, e: Event)
    requires Accounted(s) && Enabled(s, e)
    ensures Accounted(Apply(s, e))
  {
    var s' := Apply(s, e);
    forall k | k in s'.coupons && s'.coupons[k].redeemed
      ensures HasAnswerer(s', k)
    {
      if e.Act? {
        ActAccounts(s, e.claim, e.action, k);
      } else {
        NoClaimNoRedemption(s, e, k);
        var d :| d in s.claims && AnswersFor(s.claims[d], k);
        assert s'.claims[d] == s.claims[d];
      }
    }
  }

  lemma {:induction false} RunAccounts(s: State, es: seq<Event>)
    requires Accounted(s) && IsRun(s, es)
    ensures Accounted(Exec(s, es))
    decreases |es|
  {
    if es != [] {
      StepAccounts(s, es[0]);
      RunAccounts(Apply(s, es[0]), es[1..]);
    }
  }

  /** The claim has not yet tried to redeem, or has ended without a payment, a doubt, or a fault. */
  predicate Harmless(pc: Pc) {
    pc.Selecting? || pc.Selected? || pc == Done(Busy) || pc == Done(NotSent) || pc == Done(Refused)
  }

  /** When every claim on a coupon has ended and none reported more than "retry" or "refused", it can be claimed. */
  lemma RetryIsPossible(cfg: Config, base: nat, es: seq<Event>, k: TxHash)
    requires IsRun(Init(cfg, base), es) && k in Exec(Init(cfg, base), es).coupons
    requires var claims := Exec(Init(cfg, base), es).claims;
             forall c | c in claims && claims[c].key == k :: Harmless(claims[c].pc)
    ensures var cp := Exec(Init(cfg, base), es).coupons[k];
            !cp.redeemed && cp.redeemedAt.None? && cp.redemptionTxHash.None?
  {
    var s := Exec(Init(cfg, base), es);
    RunAccounts(Init(cfg, base), es);
    assert forall c | c in s.claims :: s.claims[c].key == k ==> Harmless(s.claims[c].pc);
    assert !HasAnswerer(s, k);
    ShapeInRuns(cfg, base, es, k);
  }

  lemma ShapeInRuns(cfg: Config, base: nat, es: seq<Event>, k: TxHash)
    requires IsRun(Init(cfg, base), es) && k in Exec(Init(cfg, base), es).coupons
    ensures CouponShape(Exec(Init(cfg, base), es).coupons[k])
  {
    InitInv(cfg, base);
    RunKeeps(Init(cfg, base), es);
  }
}
