/**
 What any sequence of issuance jobs - duplicated, retried, reordered - makes of the coupon
 collection.  `First` is the reference the table is compared with: it looks only at the events.
 */
module Issuance {
  import opened Wrappers
  import opened Coupons

  datatype Job = Job(transfer: Transfer, code: string, found: Option<UserId>)

  /** The first eligible event that carries the payment hash `k`. */
  function First(cfg: Config, evs: seq<Transfer>, k: TxHash): Option<Transfer> {
    if evs == [] then None
    else if Eligible(cfg, evs[0]) && ToLower(evs[0].txHash) == k then Some(evs[0])
    else First(cfg, evs[1..], k)
  }

  /** USDT of the eligible payments, each payment hash counted once. */
  function PaymentTotal(cfg: Config, evs: seq<Transfer>): int {
    if evs == [] then 0
    else
      var n := |evs| - 1;
      var ev := evs[n];
      PaymentTotal(cfg, evs[..n]) +
      (if Eligible(cfg, ev) && First(cfg, evs[..n], ToLower(ev.txHash)).None? then ev.amount else 0)
  }

  /** The document of an event, whoever owns it and whether or not it has been redeemed. */
  predicate IsCouponOf(cfg: Config, cp: Coupon, ev: Transfer) {
    && Eligible(cfg, ev)
    && cp.usdtAmountRaw == ev.amount
    && cp.utlAmountRaw == ComputeUtlCashback(ev.amount, cfg.cashbackBps)
    && cp.merchantAddress == ToLower(ev.to)
    && cp.payerAddress == ToLower(ev.from)
  }

  /** The collection holds the coupon of the first eligible event of every hash, and no other. */
  ghost predicate Reflects(cfg: Config, t: Table, evs: seq<Transfer>) {
    && (forall k :: k in t <==> First(cfg, evs, k).Some?)
    && (forall k | k in t :: IsCouponOf(cfg, t[k], First(cfg, evs, k).value))
  }

  predicate CodeUnused(t: Table, code: string) {
    forall k | k in t :: t[k].code != code
  }

  function IssueAll(cfg: Config, t: Table, jobs: seq<Job>): Table
    decreases |jobs|
  {
    if jobs == [] then t
    else IssueAll(cfg, Issue(cfg, t, jobs[0].transfer, jobs[0].code, jobs[0].found), jobs[1..])
  }

  predicate CodesFresh(cfg: Config, t: Table, jobs: seq<Job>)
    decreases |jobs|
  {
    jobs == [] ||
    (CodeUnused(t, jobs[0].code) &&
     CodesFresh(cfg, Issue(cfg, t, jobs[0].transfer, jobs[0].code, jobs[0].found), jobs[1..]))
  }

  function Transfers(jobs: seq<Job>): seq<Transfer> {
    seq(|jobs|, i requires 0 <= i < |jobs| => jobs[i].transfer)
  }

  // ----- the reference

  lemma {:induction false} FirstOfAppend(cfg: Config, evs: seq<Transfer>, ev: Transfer, k: TxHash)
    ensures First(cfg, evs + [ev], k) ==
            if First(cfg, evs, k).Some? then First(cfg, evs, k)
            else if Eligible(cfg, ev) && ToLower(ev.txHash) == k then Some(ev) else None
  {
    if evs != [] {
      assert (evs + [ev])[1..] == evs[1..] + [ev];
      FirstOfAppend(cfg, evs[1..], ev, k);
    } else {
      assert (evs + [ev])[1..] == [];
    }
  }

  /** A hash has a first event exactly when some eligible event carries it. */
  lemma {:induction false} FirstIff(cfg: Config, evs: seq<Transfer>, k: TxHash)
    ensures First(cfg, evs, k).Some? <==> exists ev :: ev in evs && Eligible(cfg, ev) && ToLower(ev.txHash) == k
  {
    if evs != [] {
      FirstIff(cfg, evs[1..], k);
      assert evs == [evs[0]] + evs[1..];
    }
  }

  // ----- issuance

  lemma IssueReflects(cfg: Config, t: Table, evs: seq<Transfer>, ev: Transfer, code: string, found: Option<UserId>)
    requires Reflects(cfg, t, evs) && CodeUnused(t, code)
    ensures Reflects(cfg, Issue(cfg, t, ev, code, found), evs + [ev])
  {
    forall k {
      FirstOfAppend(cfg, evs, ev, k);
    }
  }

  lemma {:induction false} IssueAllReflects(cfg: Config, t: Table, past: seq<Transfer>, jobs: seq<Job>)
    requires Reflects(cfg, t, past) && CodesFresh(cfg, t, jobs)
    ensures Reflects(cfg, IssueAll(cfg, t, jobs), past + Transfers(jobs))
    decreases |jobs|
  {
    if jobs == [] {
      assert past + Transfers(jobs) == past;
    } else {
      var job := jobs[0];
      IssueReflects(cfg, t, past, job.transfer, job.code, job.found);
      IssueAllReflects(cfg, Issue(cfg, t, job.transfer, job.code, job.found), past + [job.transfer], jobs[1..]);
      assert past + [job.transfer] + Transfers(jobs[1..]) == past + Transfers(jobs);
    }
  }

  lemma RunReflects(cfg: Config, jobs: seq<Job>)
    requires CodesFresh(cfg, map[], jobs)
    ensures Reflects(cfg, IssueAll(cfg, map[], jobs), Transfers(jobs))
  {
    IssueAllReflects(cfg, map[], [], jobs);
    assert [] + Transfers(jobs) == Transfers(jobs);
  }

  /**
   Idempotence: whatever the order, the duplicates and the retries, there is one coupon per
   lower-cased hash of an eligible event, made from the first such event; which hashes have
   one depends only on which events there are.
   */
  lemma IssuanceIdempotent(cfg: Config, jobs: seq<Job>)
    requires CodesFresh(cfg, map[], jobs)
    ensures var t := IssueAll(cfg, map[], jobs);
            && (forall k :: k in t <==>
                  exists ev :: ev in Transfers(jobs) && Eligible(cfg, ev) && ToLower(ev.txHash) == k)
            && (forall k | k in t ::
                  First(cfg, Transfers(jobs), k).Some? && IsCouponOf(cfg, t[k], First(cfg, Transfers(jobs), k).value))
  {
    RunReflects(cfg, jobs);
    forall k {
      FirstIff(cfg, Transfers(jobs), k);
    }
  }

  /** The events of a run of jobs in another order, or repeated. */
  predicate SameEvents(evs: seq<Transfer>, evs': seq<Transfer>) {
    (forall ev | ev in evs :: ev in evs') && (forall ev | ev in evs' :: ev in evs)
  }

  lemma SameEventsSameHashes(cfg: Config, jobs: seq<Job>, jobs': seq<Job>)
    requires CodesFresh(cfg, map[], jobs) && CodesFresh(cfg, map[], jobs')
    requires SameEvents(Transfers(jobs), Transfers(jobs'))
    ensures IssueAll(cfg, map[], jobs).Keys == IssueAll(cfg, map[], jobs').Keys
  {
    IssuanceIdempotent(cfg, jobs);
    IssuanceIdempotent(cfg, jobs');
  }

  // ----- when every eligible payment earns its own cashback

  /** Two events that make the same coupon, but for its code and its owner. */
  predicate SamePayment(a: Transfer, b: Transfer) {
    a.amount == b.amount && ToLower(a.from) == ToLower(b.from) && ToLower(a.to) == ToLower(b.to)
  }

  /** Eligible events of one payment hash are repetitions of one payment. */
  predicate OnePaymentPerHash(cfg: Config, evs: seq<Transfer>) {
    forall a, b | a in evs && b in evs && Eligible(cfg, a) && Eligible(cfg, b)
               && ToLower(a.txHash) == ToLower(b.txHash) :: SamePayment(a, b)
  }

  /** The collection has a coupon made as this event's. */
  predicate Earned(cfg: Config, t: Table, ev: Transfer) {
    ToLower(ev.txHash) in t && IsCouponOf(cfg, t[ToLower(ev.txHash)], ev)
  }

  lemma {:induction false} FirstIsThere(cfg: Config, evs: seq<Transfer>, k: TxHash)
    requires First(cfg, evs, k).Some?
    ensures var ev := First(cfg, evs, k).value; ev in evs && Eligible(cfg, ev) && ToLower(ev.txHash) == k
  {
    if !(Eligible(cfg, evs[0]) && ToLower(evs[0].txHash) == k) {
      FirstIsThere(cfg, evs[1..], k);
    }
  }

  lemma SameCouponIff(cfg: Config, cp: Coupon, a: Transfer, b: Transfer)
    requires IsCouponOf(cfg, cp, a) && Eligible(cfg, b)
    ensures IsCouponOf(cfg, cp, b) <==> SamePayment(a, b)
  {
  }

  /** An event that was delivered earned exactly when the first event of its hash is the same payment. */
  lemma EarnedIffFirst(cfg: Config, t: Table, evs: seq<Transfer>, ev: Transfer)
    requires Reflects(cfg, t, evs) && ev in evs && Eligible(cfg, ev)
    ensures First(cfg, evs, ToLower(ev.txHash)).Some?
    ensures Earned(cfg, t, ev) <==> SamePayment(First(cfg, evs, ToLower(ev.txHash)).value, ev)
  {
    var k := ToLower(ev.txHash);
    FirstIff(cfg, evs, k);
    SameCouponIff(cfg, t[k], First(cfg, evs, k).value, ev);
  }

  lemma AllEarnedIff(cfg: Config, t: Table, evs: seq<Transfer>)
    requires Reflects(cfg, t, evs)
    ensures (forall ev | ev in evs && Eligible(cfg, ev) :: Earned(cfg, t, ev)) <==> OnePaymentPerHash(cfg, evs)
  {
    forall ev | ev in evs && Eligible(cfg, ev)
      ensures First(cfg, evs, ToLower(ev.txHash)).Some?
      ensures var first := First(cfg, evs, ToLower(ev.txHash)).value;
              && first in evs && Eligible(cfg, first) && ToLower(first.txHash) == ToLower(ev.txHash)
              && (Earned(cfg, t, ev) <==> SamePayment(first, ev))
    {
      EarnedIffFirst(cfg, t, evs, ev);
      FirstIsThere(cfg, evs, ToLower(ev.txHash));
    }
  }

  /**
   Every eligible payment of a run of jobs earns its own cashback exactly when no transaction
   carries two eligible transfers that differ in amount, payer or merchant.
   */
  lemma EveryPaymentEarnsIff(cfg: Config, jobs: seq<Job>)
    requires CodesFresh(cfg, map[], jobs)
    ensures (forall ev | ev in Transfers(jobs) && Eligible(cfg, ev) :: Earned(cfg, IssueAll(cfg, map[], jobs), ev))
            <==> OnePaymentPerHash(cfg, Transfers(jobs))
  {
    RunReflects(cfg, jobs);
    AllEarnedIff(cfg, IssueAll(cfg, map[], jobs), Transfers(jobs));
  }

  /** One job: its payment has its coupon afterwards iff it had one, or its hash and its code were both new. */
  lemma PaymentEarnsIff(cfg: Config, t: Table, ev: Transfer, code: string, found: Option<UserId>)
    requires Eligible(cfg, ev)
    ensures Earned(cfg, Issue(cfg, t, ev, code, found), ev) <==>
            if ToLower(ev.txHash) in t then IsCouponOf(cfg, t[ToLower(ev.txHash)], ev) else CodeUnused(t, code)
  {
    if CodeUnused(t, code) && ToLower(ev.txHash) !in t {
      assert !Duplicate(t, ev, code);
    }
  }

  /** The same coupons for the same payments, whatever their codes and owners. */
  predicate SameContents(t: Table, t': Table) {
    && t.Keys == t'.Keys
    && forall k | k in t ::
         && t[k].usdtAmountRaw == t'[k].usdtAmountRaw && t[k].utlAmountRaw == t'[k].utlAmountRaw
         && t[k].payerAddress == t'[k].payerAddress && t[k].merchantAddress == t'[k].merchantAddress
  }

  /** Under the same condition the coupons depend only on which events there are. */
  lemma SameEventsSameCoupons(cfg: Config, jobs: seq<Job>, jobs': seq<Job>)
    requires CodesFresh(cfg, map[], jobs) && CodesFresh(cfg, map[], jobs')
    requires SameEvents(Transfers(jobs), Transfers(jobs')) && OnePaymentPerHash(cfg, Transfers(jobs))
    ensures SameContents(IssueAll(cfg, map[], jobs), IssueAll(cfg, map[], jobs'))
  {
    IssuanceIdempotent(cfg, jobs);
    IssuanceIdempotent(cfg, jobs');
    SameEventsSameHashes(cfg, jobs, jobs');
    forall k | k in IssueAll(cfg, map[], jobs)
      ensures SamePayment(First(cfg, Transfers(jobs), k).value, First(cfg, Transfers(jobs'), k).value)
    {
      FirstIsThere(cfg, Transfers(jobs), k);
      FirstIsThere(cfg, Transfers(jobs'), k);
    }
  }

  /** Otherwise some order of the same events puts another one first. */
  lemma AnotherFirst(cfg: Config, evs: seq<Transfer>) returns (evs': seq<Transfer>, k: TxHash)
    requires !OnePaymentPerHash(cfg, evs)
    ensures SameEvents(evs, evs') && First(cfg, evs, k).Some? && First(cfg, evs', k).Some?
    ensures !SamePayment(First(cfg, evs, k).value, First(cfg, evs', k).value)
  {
    var a, b :| a in evs && b in evs && Eligible(cfg, a) && Eligible(cfg, b)
             && ToLower(a.txHash) == ToLower(b.txHash) && !SamePayment(a, b);
    k := ToLower(a.txHash);
    FirstIff(cfg, evs, k);
    var other := if SamePayment(First(cfg, evs, k).value, a) then b else a;
    evs' := [other] + evs;
  }

  /** Any events can be delivered with fresh codes. */
  lemma {:induction false} FreshJobs(cfg: Config, t: Table, evs: seq<Transfer>, n: nat) returns (jobs: seq<Job>)
    requires forall k | k in t :: |t[k].code| < n
    ensures Transfers(jobs) == evs && CodesFresh(cfg, t, jobs)
    decreases |evs|
  {
    jobs := [];
    if evs != [] {
      var job := Job(evs[0], seq(n, i => 'x'), None);
      var rest := FreshJobs(cfg, Issue(cfg, t, job.transfer, job.code, job.found), evs[1..], n + 1);
      jobs := [job] + rest;
      assert jobs[1..] == rest;
      assert Transfers(jobs) == [evs[0]] + Transfers(rest);
    }
  }

  /** And then that order makes another coupon. */
  lemma OrderMattersOtherwise(cfg: Config, jobs: seq<Job>) returns (jobs': seq<Job>)
    requires CodesFresh(cfg, map[], jobs) && !OnePaymentPerHash(cfg, Transfers(jobs))
    ensures CodesFresh(cfg, map[], jobs') && SameEvents(Transfers(jobs), Transfers(jobs'))
    ensures !SameContents(IssueAll(cfg, map[], jobs), IssueAll(cfg, map[], jobs'))
  {
    var evs', k := AnotherFirst(cfg, Transfers(jobs));
    jobs' := FreshJobs(cfg, map[], evs', 0);
    RunReflects(cfg, jobs);
    RunReflects(cfg, jobs');
    ContentsDiffer(cfg, IssueAll(cfg, map[], jobs), IssueAll(cfg, map[], jobs'), Transfers(jobs), evs', k);
  }

  lemma ContentsDiffer(cfg: Config, t: Table, t': Table, evs: seq<Transfer>, evs': seq<Transfer>, k: TxHash)
    requires Reflects(cfg, t, evs) && Reflects(cfg, t', evs')
    requires First(cfg, evs, k).Some? && First(cfg, evs', k).Some?
    requires !SamePayment(First(cfg, evs, k).value, First(cfg, evs', k).value)
    ensures !SameContents(t, t')
  {
    assert k in t && k in t';
  }

  /** What the coupons say is the same for every order and every repetition of the same deliveries. */
  ghost predicate OrderFree(cfg: Config, jobs: seq<Job>) {
    forall jobs' | CodesFresh(cfg, map[], jobs') && SameEvents(Transfers(jobs), Transfers(jobs')) ::
      SameContents(IssueAll(cfg, map[], jobs), IssueAll(cfg, map[], jobs'))
  }

  /** The coupons' amounts, payers and merchants depend only on the set of events exactly under that condition. */
  lemma OrderFreeIff(cfg: Config, jobs: seq<Job>)
    requires CodesFresh(cfg, map[], jobs)
    ensures OrderFree(cfg, jobs) <==> OnePaymentPerHash(cfg, Transfers(jobs))
  {
    if OnePaymentPerHash(cfg, Transfers(jobs)) {
      forall jobs' | CodesFresh(cfg, map[], jobs') && SameEvents(Transfers(jobs), Transfers(jobs'))
        ensures SameContents(IssueAll(cfg, map[], jobs), IssueAll(cfg, map[], jobs'))
      {
        SameEventsSameCoupons(cfg, jobs, jobs');
      }
    } else {
      var jobs' := OrderMattersOtherwise(cfg, jobs);
    }
  }

  const TWO_TRANSFERS: seq<Job> := [
    Job(Transfer("p", "m", 20_000, "h"), "x", None),
    Job(Transfer("q", "m", 30_000, "h"), "y", None)]

  /** One transaction with two eligible transfers: the second payer's 30 000 earn nothing. */
  lemma SecondTransferEarnsNothing()
    ensures var cfg := Config({"m"}, 500, 10_000);
            var t := IssueAll(cfg, map[], TWO_TRANSFERS);
            && CodesFresh(cfg, map[], TWO_TRANSFERS) && Eligible(cfg, TWO_TRANSFERS[1].transfer)
            && t.Keys == {"h"} && t["h"].usdtAmountRaw == 20_000 && t["h"].payerAddress == "p"
            && !Earned(cfg, t, TWO_TRANSFERS[1].transfer)
  {
    var cfg := Config({"m"}, 500, 10_000);
    assert ToLower("m") == "m" && ToLower("h") == "h" && ToLower("p") == "p" && ToLower("q") == "q";
    var t := Issue(cfg, map[], TWO_TRANSFERS[0].transfer, "x", None);
    assert t == map["h" := NewCoupon(cfg, TWO_TRANSFERS[0].transfer, "x", None)];
    assert Issue(cfg, t, TWO_TRANSFERS[1].transfer, "y", None) == t;
    assert TWO_TRANSFERS[1..][1..] == [];
  }

  /**
   The catch block takes a violation of either unique index for a repeated payment.  So an
   eligible event is left with a coupon exactly when its hash had one already or its code was
   new: a code that collides costs the payment its coupon, silently.
   */
  lemma CouponlessIffCodeCollides(cfg: Config, t: Table, ev: Transfer, code: string, found: Option<UserId>)
    requires Eligible(cfg, ev)
    ensures ToLower(ev.txHash) in Issue(cfg, t, ev, code, found) <==>
            ToLower(ev.txHash) in t || CodeUnused(t, code)
  {
    if CodeUnused(t, code) && ToLower(ev.txHash) !in t {
      assert !Duplicate(t, ev, code);
    }
  }

  /** Two payments that draw one code: the second is taken for a repetition and gets no coupon. */
  lemma CollidingCodeCostsACoupon()
    ensures var cfg := Config({"m"}, 500, 10_000);
            var t := Issue(cfg, map[], Transfer("p", "m", 20_000, "h"), "x", None);
            Eligible(cfg, Transfer("q", "m", 30_000, "k"))
            && "k" !in Issue(cfg, t, Transfer("q", "m", 30_000, "k"), "x", None)
  {
    assert ToLower("m") == "m" && ToLower("h") == "h" && ToLower("k") == "k";
    var cfg := Config({"m"}, 500, 10_000);
    var t := Issue(cfg, map[], Transfer("p", "m", 20_000, "h"), "x", None);
    assert t["h"].code == "x";
    CouponlessIffCodeCollides(cfg, t, Transfer("q", "m", 30_000, "k"), "x", None);
  }

  /** Over every run of jobs, whatever their codes: no coupon is for a payment below the floor, or to no merchant. */
  lemma {:induction false} OnlyWorthyCoupons(cfg: Config, t: Table, jobs: seq<Job>)
    requires AllWorthACoupon(cfg, t)
    ensures AllWorthACoupon(cfg, IssueAll(cfg, t, jobs))
    decreases |jobs|
  {
    if jobs != [] {
      var job := jobs[0];
      IssueIsWorthACoupon(cfg, t, job.transfer, job.code, job.found);
      OnlyWorthyCoupons(cfg, Issue(cfg, t, job.transfer, job.code, job.found), jobs[1..]);
    }
  }
}
