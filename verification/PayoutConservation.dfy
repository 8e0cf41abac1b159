/**
 Conservation from the USDT received to the UTL sent: in every reachable state the pool holds
 exactly the cashback of the coupons with a pooled transaction, and all coupons together are
 worth `bps * 10^8` times the USDT of the eligible payments, each payment hash counted once.
 */
module PayoutConservation {
  import opened Wrappers
  import opened Coupons
  import opened Issuance
  import opened Payout
  import opened PayoutSafety

  // ----- sums over sets of coupons

  ghost function Sum(t: Table, ks: set<TxHash>, f: Coupon -> int): int
    requires ks <= t.Keys
  {
    if ks == {} then 0
    else var k :| k in ks; f(t[k]) + Sum(t, ks - {k}, f)
  }

  lemma {:induction false} SumSplit(t: Table, ks: set<TxHash>, f: Coupon -> int, k: TxHash)
    requires ks <= t.Keys && k in ks
    ensures Sum(t, ks, f) == f(t[k]) + Sum(t, ks - {k}, f)
    decreases ks
  {
    var m :| m in ks && Sum(t, ks, f) == f(t[m]) + Sum(t, ks - {m}, f);
    if m != k {
      SumSplit(t, ks - {m}, f, k);
      SumSplit(t, ks - {k}, f, m);
      assert ks - {m} - {k} == ks - {k} - {m};
    }
  }

  lemma {:induction false} SumSame(t: Table, t': Table, ks: set<TxHash>, f: Coupon -> int)
    requires ks <= t.Keys && ks <= t'.Keys
    requires forall k | k in ks :: f(t[k]) == f(t'[k])
    ensures Sum(t, ks, f) == Sum(t', ks, f)
    decreases ks
  {
    if ks != {} {
      var k :| k in ks;
      SumSplit(t, ks, f, k);
      SumSplit(t', ks, f, k);
      SumSame(t, t', ks - {k}, f);
    }
  }

  lemma {:induction false} SumMonotone(t: Table, ks: set<TxHash>, ms: set<TxHash>, f: Coupon -> int)
    requires ks <= ms <= t.Keys
    requires forall k | k in t :: f(t[k]) >= 0
    ensures 0 <= Sum(t, ks, f) <= Sum(t, ms, f)
    decreases ms
  {
    if ms != {} {
      var k :| k in ms;
      SumSplit(t, ms, f, k);
      SumMonotone(t, ks - {k}, ms - {k}, f);
      if k in ks {
        SumSplit(t, ks, f, k);
      } else {
        assert ks - {k} == ks;
      }
    }
  }

  lemma {:induction false} SumScaled(t: Table, ks: set<TxHash>, f: Coupon -> int, g: Coupon -> int, r: int)
    requires ks <= t.Keys
    requires forall k | k in ks :: f(t[k]) == r * g(t[k])
    ensures Sum(t, ks, f) == r * Sum(t, ks, g)
    decreases ks
  {
    if ks != {} {
      var k :| k in ks;
      SumSplit(t, ks, f, k);
      SumSplit(t, ks, g, k);
      SumScaled(t, ks - {k}, f, g, r);
    }
  }

  function Utl(cp: Coupon): int {
    cp.utlAmountRaw
  }

  function Usdt(cp: Coupon): int {
    cp.usdtAmountRaw
  }

  // ----- the pool

  function PoolTotal(pool: seq<PooledTx>): int {
    if pool == [] then 0 else PoolTotal(pool[..|pool| - 1]) + pool[|pool| - 1].amount
  }

  function PooledKeys(pool: seq<PooledTx>): set<TxHash> {
    set tx | tx in pool :: tx.key
  }

  lemma {:induction false} PoolTotalIsSum(s: State, pool: seq<PooledTx>)
    requires forall tx | tx in pool :: TxOk(s, tx)
    requires OneTxPerCoupon(pool)
    ensures PooledKeys(pool) <= s.coupons.Keys
    ensures PoolTotal(pool) == Sum(s.coupons, PooledKeys(pool), Utl)
    decreases |pool|
  {
    if pool != [] {
      var n := |pool| - 1;
      var last := pool[n];
      assert pool == pool[..n] + [last];
      PoolTotalIsSum(s, pool[..n]);
      assert last.key !in PooledKeys(pool[..n]);
      assert PooledKeys(pool) - {last.key} == PooledKeys(pool[..n]);
      SumSplit(s.coupons, PooledKeys(pool), Utl, last.key);
    }
  }

  // ----- the payments

  function DeliveredBy(e: Event): seq<Transfer> {
    if e.IssueCoupon? then [e.transfer] else []
  }

  function Delivered(es: seq<Event>): seq<Transfer> {
    if es == [] then [] else DeliveredBy(es[0]) + Delivered(es[1..])
  }

  /** The random coupon codes of the run are new when they are drawn. */
  predicate FreshCodes(s: State, es: seq<Event>)
    requires IsRun(s, es)
    decreases |es|
  {
    es == [] ||
    ((es[0].IssueCoupon? ==> CodeUnused(s.coupons, es[0].code)) && FreshCodes(Apply(s, es[0]), es[1..]))
  }

  ghost predicate Accounts(s: State, past: seq<Transfer>) {
    && Reflects(s.cfg, s.coupons, past)
    && Sum(s.coupons, s.coupons.Keys, Usdt) == PaymentTotal(s.cfg, past)
  }

  lemma PaymentTotalOfAppend(cfg: Config, past: seq<Transfer>, ev: Transfer)
    ensures PaymentTotal(cfg, past + [ev]) == PaymentTotal(cfg, past) +
              (if Eligible(cfg, ev) && First(cfg, past, ToLower(ev.txHash)).None? then ev.amount else 0)
  {
    assert (past + [ev])[..|past|] == past;
  }

  lemma SumOfInsert(t: Table, k: TxHash, cp: Coupon, f: Coupon -> int)
    requires k !in t
    ensures Sum(t[k := cp], t.Keys + {k}, f) == Sum(t, t.Keys, f) + f(cp)
  {
    var t' := t[k := cp];
    SumSplit(t', t.Keys + {k}, f, k);
    assert t.Keys + {k} - {k} == t.Keys;
    SumSame(t, t', t.Keys, f);
  }

  lemma IssueAdds(cfg: Config, t: Table, ev: Transfer, code: string, found: Option<UserId>)
    requires CodeUnused(t, code)
    ensures var t' := Issue(cfg, t, ev, code, found);
            Sum(t', t'.Keys, Usdt) == Sum(t, t.Keys, Usdt) +
              (if Eligible(cfg, ev) && ToLower(ev.txHash) !in t then ev.amount else 0)
  {
    var k := ToLower(ev.txHash);
    if Eligible(cfg, ev) && k !in t {
      var cp := NewCoupon(cfg, ev, code, found);
      assert Issue(cfg, t, ev, code, found) == t[k := cp] && t[k := cp].Keys == t.Keys + {k};
      SumOfInsert(t, k, cp, Usdt);
    }
  }

  lemma IssueAccounts(s: State, past: seq<Transfer>, ev: Transfer, code: string, found: Option<UserId>)
    requires Accounts(s, past) && CodeUnused(s.coupons, code)
    ensures Accounts(Apply(s, IssueCoupon(ev, code, found)), past + [ev])
  {
    IssueReflects(s.cfg, s.coupons, past, ev, code, found);
    PaymentTotalOfAppend(s.cfg, past, ev);
    IssueAdds(s.cfg, s.coupons, ev, code, found);
  }

  lemma NoNewCoupons(s: State, e: Event)
    requires Enabled(s, e) && !e.IssueCoupon?
    ensures Apply(s, e).coupons.Keys == s.coupons.Keys
  {
    if e.Act? {
      ActWritesOneCoupon(s, e.claim, e.action);
    }
  }

  lemma OtherAccounts(s: State, past: seq<Transfer>, e: Event)
    requires Accounts(s, past) && Enabled(s, e) && !e.IssueCoupon?
    ensures Accounts(Apply(s, e), past)
  {
    NoNewCoupons(s, e);
    var t := s.coupons;
    var t' := Apply(s, e).coupons;
    forall k | k in t
      ensures k in t' && Frozen(t[k], t'[k])
    {
      StepFreezes(s, e, k);
    }
    SumSame(t, t', t.Keys, Usdt);
  }

  lemma StepAccounts(s: State, past: seq<Transfer>, e: Event)
    requires Accounts(s, past) && Enabled(s, e)
    requires e.IssueCoupon? ==> CodeUnused(s.coupons, e.code)
    ensures Accounts(Apply(s, e), past + DeliveredBy(e))
  {
    if e.IssueCoupon? {
      IssueAccounts(s, past, e.transfer, e.code, e.found);
    } else {
      OtherAccounts(s, past, e);
      assert past + DeliveredBy(e) == past;
    }
  }

  lemma Associate<T>(a: seq<T>, b: seq<T>, c: seq<T>)
    ensures (a + b) + c == a + (b + c)
  {
  }

  lemma DeliveredSplits(past: seq<Transfer>, es: seq<Event>)
    requires es != []
    ensures past + DeliveredBy(es[0]) + Delivered(es[1..]) == past + Delivered(es)
  {
    Associate(past, DeliveredBy(es[0]), Delivered(es[1..]));
  }

  lemma {:induction false} RunAccounts(s: State, past: seq<Transfer>, es: seq<Event>)
    requires Accounts(s, past) && IsRun(s, es) && FreshCodes(s, es)
    ensures Accounts(Exec(s, es), past + Delivered(es))
    decreases |es|
  {
    if es == [] {
      assert past + Delivered(es) == past;
    } else {
      var s1, past1 := Apply(s, es[0]), past + DeliveredBy(es[0]);
      StepAccounts(s, past, es[0]);
      RunAccounts(s1, past1, es[1..]);
      DeliveredSplits(past, es);
    }
  }

  lemma {:induction false} ConfigNeverChanges(s: State, es: seq<Event>)
    requires IsRun(s, es)
    ensures Exec(s, es).cfg == s.cfg
    decreases |es|
  {
    if es != [] {
      ConfigNeverChanges(Apply(s, es[0]), es[1..]);
    }
  }

  /** Every coupon is worth exactly `bps * 10^8` of its payment. */
  lemma CouponWorth(cfg: Config, t: Table, evs: seq<Transfer>, k: TxHash)
    requires Reflects(cfg, t, evs) && k in t
    ensures t[k].usdtAmountRaw >= 0 && t[k].utlAmountRaw == cfg.cashbackBps * 100_000_000 * t[k].usdtAmountRaw
  {
    CashbackExact(t[k].usdtAmountRaw, cfg.cashbackBps);
  }

  lemma Conservation(cfg: Config, base: nat, es: seq<Event>)
    requires IsRun(Init(cfg, base), es) && FreshCodes(Init(cfg, base), es)
    ensures var s := Exec(Init(cfg, base), es);
            && PooledKeys(s.pool) <= s.coupons.Keys
            && PoolTotal(s.pool) == Sum(s.coupons, PooledKeys(s.pool), Utl)
            && Sum(s.coupons, s.coupons.Keys, Utl) == cfg.cashbackBps * 100_000_000 * PaymentTotal(cfg, Delivered(es))
            && PoolTotal(s.pool) <= cfg.cashbackBps * 100_000_000 * PaymentTotal(cfg, Delivered(es))
  {
    var s0 := Init(cfg, base);
    InitInv(cfg, base);
    RunKeeps(s0, es);
    RunAccounts(s0, [], es);
    ConfigNeverChanges(s0, es);
    var s := Exec(s0, es);
    assert [] + Delivered(es) == Delivered(es);
    PoolTotalIsSum(s, s.pool);
    forall k | k in s.coupons
      ensures Utl(s.coupons[k]) == cfg.cashbackBps * 100_000_000 * Usdt(s.coupons[k]) && Utl(s.coupons[k]) >= 0
    {
      CouponWorth(cfg, s.coupons, Delivered(es), k);
    }
    SumScaled(s.coupons, s.coupons.Keys, Utl, Usdt, cfg.cashbackBps * 100_000_000);
    SumMonotone(s.coupons, PooledKeys(s.pool), s.coupons.Keys, Utl);
  }
}
