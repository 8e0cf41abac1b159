/**
 The coupon collection and the three writers of it that are not a claim's own business:
 issuance from a delivered transfer event, and the linking of orphaned coupons.
 A document is filed under its lower-cased payment hash, which is what the unique index on
 `txHash` amounts to; the second unique index, on `code`, is kept as a check of its own.
 */
module Coupons {
  import opened Wrappers

  type Address = string
  type UserId = string
  type TxHash = string

  datatype Coupon = Coupon(
    code: string,
    usdtAmountRaw: int,
    utlAmountRaw: int,
    merchantAddress: Address,
    payerAddress: Address,
    userId: Option<UserId>,
    redeemed: bool,
    redeemedAt: Option<nat>,
    redemptionTxHash: Option<TxHash>)

  type Table = map<TxHash, Coupon>

  /** `amount` is `BigInt(amount)` already read; a job whose amount does not read fails before any write. */
  datatype Transfer = Transfer(from: Address, to: Address, amount: int, txHash: TxHash)

  datatype Config = Config(merchantAddresses: set<Address>, cashbackBps: nat, minPayoutUsdtRaw: nat)

  const DECIMAL_ADJUSTMENT := 1_000_000_000_000
  const BASIS_POINTS_DENOMINATOR := 10_000

  function LowerChar(c: char): char {
    if 'A' <= c <= 'Z' then (c as int - 'A' as int + 'a' as int) as char else c
  }

  function ToLower(s: string): string {
    seq(|s|, i requires 0 <= i < |s| => LowerChar(s[i]))
  }

  /** BigInt division truncates; Dafny's does too on operands that are not negative. */
  function ComputeUtlCashback(usdtRaw: nat, cashbackBps: nat): nat {
    usdtRaw * cashbackBps * DECIMAL_ADJUSTMENT / BASIS_POINTS_DENOMINATOR
  }

  predicate Eligible(cfg: Config, ev: Transfer) {
    ToLower(ev.to) in cfg.merchantAddresses && ev.amount >= cfg.minPayoutUsdtRaw
  }

  /** Whether an insert of this event under this code violates a unique index. */
  predicate Duplicate(t: Table, ev: Transfer, code: string) {
    ToLower(ev.txHash) in t || exists k :: k in t && t[k].code == code
  }

  function NewCoupon(cfg: Config, ev: Transfer, code: string, user: Option<UserId>): Coupon
    requires Eligible(cfg, ev)
  {
    Coupon(code, ev.amount, ComputeUtlCashback(ev.amount, cfg.cashbackBps),
           ToLower(ev.to), ToLower(ev.from), user, false, None, None)
  }

  /** One run of the job: filtered out, refused as a duplicate, or inserted. */
  function Issue(cfg: Config, t: Table, ev: Transfer, code: string, user: Option<UserId>): Table {
    if !Eligible(cfg, ev) || Duplicate(t, ev, code) then t
    else t[ToLower(ev.txHash) := NewCoupon(cfg, ev, code, user)]
  }

  predicate Orphan(cp: Coupon, address: Address) {
    cp.payerAddress == ToLower(address) && cp.userId.None?
  }

  /** `updateMany({ payerAddress, userId: null }, { userId })`. */
  function LinkOrphans(t: Table, userId: UserId, address: Address): Table {
    map k | k in t :: if Orphan(t[k], address) then t[k].(userId := Some(userId)) else t[k]
  }

  /** Every cashback is an exact multiple: the division by 10000 loses nothing. */
  lemma CashbackExact(usdtRaw: nat, bps: nat)
    ensures ComputeUtlCashback(usdtRaw, bps) == usdtRaw * bps * 100_000_000
  {
    assert usdtRaw * bps * DECIMAL_ADJUSTMENT == (usdtRaw * bps * 100_000_000) * BASIS_POINTS_DENOMINATOR;
  }

  /** Splitting a payment in two earns exactly what the whole payment earns. */
  lemma CashbackAdditive(a: nat, b: nat, bps: nat)
    ensures ComputeUtlCashback(a + b, bps) == ComputeUtlCashback(a, bps) + ComputeUtlCashback(b, bps)
  {
    CashbackExact(a, bps);
    CashbackExact(b, bps);
    CashbackExact(a + b, bps);
    assert (a + b) * bps == a * bps + b * bps;
  }

  lemma ScaleApart(x: nat, y: nat, u: nat)
    requires u > 0
    ensures u * x == u * y <==> x == y
  {
  }

  /** The cashback is 5% - a twentieth, in UTL's units - at 500 basis points and at no other rate. */
  lemma FivePercentIff(usdtRaw: nat, bps: nat)
    ensures ComputeUtlCashback(usdtRaw, bps) * 20 == usdtRaw * DECIMAL_ADJUSTMENT <==> bps == 500 || usdtRaw == 0
  {
    CashbackExact(usdtRaw, bps);
    assert usdtRaw * bps * 100_000_000 * 20 == usdtRaw * (bps * 2_000_000_000);
    assert 500 * 2_000_000_000 == DECIMAL_ADJUSTMENT;
    if usdtRaw > 0 {
      ScaleApart(bps * 2_000_000_000, DECIMAL_ADJUSTMENT, usdtRaw);
    }
  }

  // ----- letter case

  /** The same character, or the same letter in the other case: the codes of the cases are 32 apart. */
  predicate SameLetter(a: char, b: char) {
    || a == b
    || ('A' <= a <= 'Z' && b as int == a as int + 32)
    || ('A' <= b <= 'Z' && a as int == b as int + 32)
  }

  predicate SameButCase(s: string, t: string) {
    |s| == |t| && forall i | 0 <= i < |s| :: SameLetter(s[i], t[i])
  }

  /** Two hashes or addresses are filed as one exactly when they differ in letter case at most. */
  lemma LowerIffSameButCase(s: string, t: string)
    ensures ToLower(s) == ToLower(t) <==> SameButCase(s, t)
    ensures forall i | 0 <= i < |ToLower(s)| :: !('A' <= ToLower(s)[i] <= 'Z')
  {
    if ToLower(s) == ToLower(t) {
      assert |s| == |ToLower(s)| == |ToLower(t)| == |t|;
      forall i | 0 <= i < |s|
        ensures SameLetter(s[i], t[i])
      {
        assert LowerChar(s[i]) == ToLower(s)[i] == ToLower(t)[i] == LowerChar(t[i]);
      }
    }
    if SameButCase(s, t) {
      assert forall i | 0 <= i < |s| :: ToLower(s)[i] == ToLower(t)[i];
    }
  }

  // ----- who gets a coupon at all

  /** The coupon is for a payment to a configured merchant of at least the floor. */
  predicate WorthACoupon(cfg: Config, cp: Coupon) {
    cp.merchantAddress in cfg.merchantAddresses && cp.usdtAmountRaw >= cfg.minPayoutUsdtRaw
  }

  predicate AllWorthACoupon(cfg: Config, t: Table) {
    forall k | k in t :: WorthACoupon(cfg, t[k])
  }

  lemma IssueIsWorthACoupon(cfg: Config, t: Table, ev: Transfer, code: string, user: Option<UserId>)
    requires AllWorthACoupon(cfg, t)
    ensures AllWorthACoupon(cfg, Issue(cfg, t, ev, code, user))
  {
  }

  /** A job inserts iff the recipient is a merchant, the amount is at least the floor, and hash and code are new. */
  lemma InsertsIff(cfg: Config, t: Table, ev: Transfer, code: string, user: Option<UserId>)
    ensures ToLower(ev.txHash) !in t && ToLower(ev.txHash) in Issue(cfg, t, ev, code, user) <==>
            && ToLower(ev.to) in cfg.merchantAddresses && ev.amount >= cfg.minPayoutUsdtRaw
            && ToLower(ev.txHash) !in t && forall k | k in t :: t[k].code != code
    ensures forall k | k in t :: k in Issue(cfg, t, ev, code, user) && Issue(cfg, t, ev, code, user)[k] == t[k]
    ensures ToLower(ev.txHash) !in t && ToLower(ev.txHash) in Issue(cfg, t, ev, code, user) ==>
              var cp := Issue(cfg, t, ev, code, user)[ToLower(ev.txHash)];
              && cp.code == code && cp.usdtAmountRaw == ev.amount && cp.userId == user && !cp.redeemed
              && cp.utlAmountRaw == ev.amount * cfg.cashbackBps * 100_000_000
              && cp.merchantAddress == ToLower(ev.to) && cp.payerAddress == ToLower(ev.from)
              && cp.redeemedAt.None? && cp.redemptionTxHash.None?
  {
    if ev.amount >= 0 {
      CashbackExact(ev.amount, cfg.cashbackBps);
    }
  }

  /** At the floor a payment earns, one unit below it does not, and neither does one to somebody else. */
  lemma FloorWitnesses()
    ensures var cfg := Config({"m"}, 500, 10_000);
            && "h" in Issue(cfg, map[], Transfer("p", "M", 10_000, "H"), "x", None)
            && Issue(cfg, map[], Transfer("p", "M", 9_999, "H"), "x", None) == map[]
            && Issue(cfg, map[], Transfer("p", "n", 10_000, "H"), "x", None) == map[]
  {
    assert ToLower("M") == "m" && ToLower("H") == "h" && ToLower("n") == "n";
  }
}
