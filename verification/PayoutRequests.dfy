/**
 A claim is for the coupon whose code was asked for: over every run, the coupon that a claim has
 picked, redeems, and pays has the code of its request and belongs to its user.
 */
module PayoutRequests {
  import opened Wrappers
  import opened Coupons
  import opened Payout
  import opened PayoutSafety
  import opened PayoutOutcomes

  /** The claim has read a coupon: at every point but the first, and the ends that come straight from it. */
  predicate Picked(pc: Pc) {
    || pc.Selected? || Owner(pc) || pc.Releasing? || pc.Leaving? || pc.Confirming?
    || (pc.Done? && !pc.outcome.Refused? && !pc.outcome.Fault?)
  }

  /** The coupon of a claim is the one its request names, and the claim's amount is the coupon's. */
  predicate AsAsked(s: State, cl: Claim) {
    && cl.key in s.coupons
    && s.coupons[cl.key].code == cl.code
    && s.coupons[cl.key].userId == Some(cl.user)
    && s.coupons[cl.key].utlAmountRaw == cl.amount
  }

  predicate AllAsAsked(s: State) {
    forall c | c in s.claims && Picked(s.claims[c].pc) :: AsAsked(s, s.claims[c])
  }

  /** A coupon can be picked exactly when its code is asked for, it is the user's, and it is not redeemed. */
  lemma SelectIff(s: State, c: ClaimId, k: TxHash)
    requires c in s.claims && s.claims[c].pc.Selecting? && Running(s, c)
    ensures CanAct(s, c, Select(k)) <==>
            && k in s.coupons && s.coupons[k].code == s.claims[c].code
            && s.coupons[k].userId == Some(s.claims[c].user) && !s.coupons[k].redeemed
    ensures CanAct(s, c, Reject) <==>
            forall k | k in s.coupons && s.coupons[k].code == s.claims[c].code ::
              s.coupons[k].redeemed || s.coupons[k].userId != Some(s.claims[c].user)
  {
  }

  lemma SelectAsAsked(s: State, c: ClaimId, k: TxHash)
    requires c in s.claims && CanAct(s, c, Select(k))
    ensures AsAsked(Act1(s, c, Select(k)), NextClaim(s, c, Select(k)))
  {
    SelectIff(s, c, k);
  }

  lemma PickedBefore(s: State, c: ClaimId, a: Action)
    requires c in s.claims && CanAct(s, c, a) && !a.Select? && Picked(NextPc(s, c, a))
    ensures Picked(s.claims[c].pc)
    ensures NextClaim(s, c, a).(pc := s.claims[c].pc, lease := s.claims[c].lease) == s.claims[c]
  {
  }

  lemma StepAsAsked(s: State, e: Event)
    requires AllAsAsked(s) && Enabled(s, e)
    ensures AllAsAsked(Apply(s, e))
  {
    var s' := Apply(s, e);
    forall c | c in s'.claims && Picked(s'.claims[c].pc)
      ensures AsAsked(s', s'.claims[c])
    {
      if e.Act? && e.claim == c && e.action.Select? {
        SelectAsAsked(s, c, e.action.key);
      } else {
        if e.Act? && e.claim == c {
          PickedBefore(s, c, e.action);
        }
        assert AsAsked(s, s.claims[c]);
        StepFreezes(s, e, s.claims[c].key);
      }
    }
  }

  lemma {:induction false} RunAsAsked(s: State, es: seq<Event>)
    requires AllAsAsked(s) && IsRun(s, es)
    ensures AllAsAsked(Exec(s, es))
    decreases |es|
  {
    if es != [] {
      StepAsAsked(s, es[0]);
      RunAsAsked(Apply(s, es[0]), es[1..]);
    }
  }

  lemma ReachableAsAsked(s: State)
    requires Reachable(s)
    ensures AllAsAsked(s)
  {
    var cfg, base: nat, es :| IsRun(Init(cfg, base), es) && Exec(Init(cfg, base), es) == s;
    RunAsAsked(Init(cfg, base), es);
  }

  /** The transaction pays the coupon that its claim asked for by code, in full, and to that coupon's owner. */
  predicate PaysWhatWasAsked(s: State, tx: PooledTx) {
    && tx.claim in s.claims && tx.key in s.coupons
    && s.coupons[tx.key].code == s.claims[tx.claim].code
    && s.coupons[tx.key].userId == Some(s.claims[tx.claim].user)
    && s.coupons[tx.key].utlAmountRaw == tx.amount
    && tx.to == s.claims[tx.claim].to
  }

  lemma PooledAsAsked(s: State)
    requires Truthful(s) && Attributed(s) && AllAsAsked(s)
    ensures forall tx | tx in s.pool :: PaysWhatWasAsked(s, tx)
  {
    forall tx | tx in s.pool
      ensures PaysWhatWasAsked(s, tx)
    {
      assert MayHaveSent(s.claims[tx.claim].pc, tx.hash) && IsOwn(tx, tx.claim, s.claims[tx.claim]);
      assert AsAsked(s, s.claims[tx.claim]);
    }
  }

  /** Over every run: each claim that has picked a coupon, and each pooled transaction, is for the code asked for. */
  lemma CodeAskedForIsPaid(cfg: Config, base: nat, es: seq<Event>)
    requires IsRun(Init(cfg, base), es)
    ensures var s := Exec(Init(cfg, base), es);
            && (forall c | c in s.claims && (s.claims[c].pc.Selected? || Owner(s.claims[c].pc)) ::
                  s.claims[c].key in s.coupons && s.coupons[s.claims[c].key].code == s.claims[c].code)
            && forall tx | tx in s.pool :: PaysWhatWasAsked(s, tx)
  {
    RunAsAsked(Init(cfg, base), es);
    RunTruthful(Init(cfg, base), es);
    RunAttributed(Init(cfg, base), es);
    PooledAsAsked(Exec(Init(cfg, base), es));
  }

  // ----- and every coupon is worth having

  lemma StepWorthy(s: State, e: Event)
    requires AllWorthACoupon(s.cfg, s.coupons) && Enabled(s, e)
    ensures Apply(s, e).cfg == s.cfg && AllWorthACoupon(s.cfg, Apply(s, e).coupons)
  {
    var s' := Apply(s, e);
    if e.IssueCoupon? {
      IssueIsWorthACoupon(s.cfg, s.coupons, e.transfer, e.code, e.found);
    } else {
      if e.Act? {
        ActWritesOneCoupon(s, e.claim, e.action);
      }
      forall k | k in s'.coupons
        ensures WorthACoupon(s.cfg, s'.coupons[k])
      {
        StepFreezes(s, e, k);
      }
    }
  }

  /** Over every run no coupon, redeemed or not, is for a payment below the floor or to anybody but a merchant. */
  lemma {:induction false} RunWorthy(s: State, es: seq<Event>)
    requires AllWorthACoupon(s.cfg, s.coupons) && IsRun(s, es)
    ensures AllWorthACoupon(s.cfg, Exec(s, es).coupons)
    decreases |es|
  {
    if es != [] {
      StepWorthy(s, es[0]);
      RunWorthy(Apply(s, es[0]), es[1..]);
    }
  }

  // ----- a crash is for good

  /** Once a process has crashed, none of its claims takes a step again. */
  lemma {:induction false} CrashIsFinal(s: State, es: seq<Event>, i: InstanceId)
    requires IsRun(s, es) && i in s.instances && !s.instances[i].alive
    ensures i in Exec(s, es).instances && !Exec(s, es).instances[i].alive
    ensures forall c | c in s.claims && s.claims[c].instance == i ::
              c in Exec(s, es).claims && Exec(s, es).claims[c] == s.claims[c]
    decreases |es|
  {
    if es != [] {
      DeadStays(s, es[0], i);
      CrashIsFinal(Apply(s, es[0]), es[1..], i);
    }
  }

  lemma DeadStays(s: State, e: Event, i: InstanceId)
    requires Enabled(s, e) && i in s.instances && !s.instances[i].alive
    ensures i in Apply(s, e).instances && !Apply(s, e).instances[i].alive
    ensures forall c | c in s.claims && s.claims[c].instance == i ::
              c in Apply(s, e).claims && Apply(s, e).claims[c] == s.claims[c]
  {
  }

  lemma CrashKills(s: State, i: InstanceId, es: seq<Event>)
    requires Enabled(s, Crash(i)) && IsRun(Apply(s, Crash(i)), es)
    ensures forall c | c in s.claims && s.claims[c].instance == i ::
              var t := Exec(Apply(s, Crash(i)), es); c in t.claims && t.claims[c] == s.claims[c]
  {
    CrashIsFinal(Apply(s, Crash(i)), es, i);
  }
}
