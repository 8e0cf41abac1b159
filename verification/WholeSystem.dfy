/**
 Users, issuance and linking on one side and claims on the other write the same coupon
 collection.  Their steps may interleave in any way: each side sees of the collection what its
 own machine says, so the guarantees of both hold together.
 */
module WholeSystem {
  import opened Wrappers
  import opened Coupons
  import L = Linking
  import P = Payout
  import PayoutSafety
  import PayoutOutcomes
  import PayoutRequests

  /** A coupon as if it had never been redeemed, which is all that the linking side reads or writes. */
  function Base(cp: Coupon): Coupon {
    cp.(redeemed := false, redeemedAt := None, redemptionTxHash := None)
  }

  function Project(t: Table): (r: Table)
    ensures r.Keys == t.Keys
  {
    map k | k in t :: Base(t[k])
  }

  lemma IssueProjects(cfg: Config, t: Table, ev: Transfer, code: string, found: Option<UserId>)
    ensures Project(Issue(cfg, t, ev, code, found)) == Issue(cfg, Project(t), ev, code, found)
  {
    assert Duplicate(Project(t), ev, code) == Duplicate(t, ev, code) by {
      assert forall k | k in t :: Project(t)[k].code == t[k].code;
    }
  }

  lemma LinkProjects(t: Table, u: UserId, address: Address)
    ensures Project(LinkOrphans(t, u, address)) == LinkOrphans(Project(t), u, address)
  {
  }

  lemma ActProjects(s: P.State, c: P.ClaimId, a: P.Action)
    requires c in s.claims && P.CanAct(s, c, a)
    ensures Project(P.Act1(s, c, a).coupons) == Project(s.coupons)
  {
    var t := s.coupons;
    var t' := P.Act1(s, c, a).coupons;
    PayoutSafety.ActWritesOneCoupon(s, c, a);
    assert t'.Keys == t.Keys;
    if s.claims[c].key in t {
      assert Base(t'[s.claims[c].key]) == Base(t[s.claims[c].key]);
    }
    assert forall k | k in t :: Base(t'[k]) == Base(t[k]);
  }

  // ----- the joint machine

  datatype State = State(front: L.State, back: P.State)

  /** `front` holds the users, jobs and registrations; `back` the claims; both the coupons. */
  predicate Joined(s: State) {
    s.front.cfg == s.back.cfg && s.front.coupons == Project(s.back.coupons)
  }

  datatype Event = Front(f: L.Event) | Back(b: P.Event)

  /** What a step of the linking side is to the payout side. */
  function Seen(front: L.State, e: L.Event): P.Event
    requires L.Enabled(front, e)
  {
    match e
    case JobCreates(j) =>
      P.IssueCoupon(front.jobs[j].transfer, front.jobs[j].code, front.jobs[j].pc.found)
    case RegistrationLinks(r) => P.LinkCoupons(front.registrations[r].pc.id, front.registrations[r].address)
    case _ => P.Tick(0)
  }

  predicate Enabled(s: State, e: Event) {
    match e
    case Front(f) => L.Enabled(s.front, f)
    case Back(b) =>
      && P.Enabled(s.back, b) && !b.IssueCoupon? && !b.LinkCoupons?
      && (b.Begin? ==> HasRegistered(s.front.users, b.user, b.to))
  }

  /** A claim begins by reading its user's document; without a registered wallet it is refused there and then. */
  predicate HasRegistered(users: L.Users, user: UserId, wallet: Address) {
    user in users && users[user].walletAddress == Some(wallet)
  }

  function Apply(s: State, e: Event): State
    requires Enabled(s, e)
  {
    match e
    case Front(f) => State(L.Apply(s.front, f), P.Apply(s.back, Seen(s.front, f)))
    case Back(b) => s.(back := P.Apply(s.back, b))
  }

  predicate IsRun(s: State, es: seq<Event>)
    decreases |es|
  {
    es == [] || (Enabled(s, es[0]) && IsRun(Apply(s, es[0]), es[1..]))
  }

  function Exec(s: State, es: seq<Event>): State
    requires IsRun(s, es)
    decreases |es|
  {
    if es == [] then s else Exec(Apply(s, es[0]), es[1..])
  }

  function StateAt(s: State, es: seq<Event>, i: nat): State
    requires IsRun(s, es) && i <= |es|
    decreases i
  {
    if i == 0 then s else StateAt(Apply(s, es[0]), es[1..], i - 1)
  }

  function Init(cfg: Config, base: nat): State {
    State(L.Empty(cfg), P.Init(cfg, base))
  }

  // ----- both sides stay in step

  lemma FrontStays(s: State, f: L.Event)
    requires Joined(s) && L.Enabled(s.front, f)
    ensures Joined(Apply(s, Front(f)))
  {
    var e := Seen(s.front, f);
    match e
    case IssueCoupon(ev, code, found) => IssueProjects(s.back.cfg, s.back.coupons, ev, code, found);
    case LinkCoupons(u, address) => LinkProjects(s.back.coupons, u, address);
    case _ =>
  }

  lemma StepStays(s: State, e: Event)
    requires Joined(s) && P.Reachable(s.back) && Enabled(s, e)
    ensures Joined(Apply(s, e)) && P.Reachable(Apply(s, e).back)
  {
    match e
    case Front(f) =>
      FrontStays(s, f);
      P.StepReaches(s.back, Seen(s.front, f));
    case Back(b) =>
      P.StepReaches(s.back, b);
      if b.Act? {
        ActProjects(s.back, b.claim, b.action);
      }
  }

  lemma {:induction false} RunStays(s: State, es: seq<Event>)
    requires Joined(s) && P.Reachable(s.back) && L.UniqueUsers(s.front.users) && IsRun(s, es)
    ensures var t := Exec(s, es); Joined(t) && P.Reachable(t.back) && L.UniqueUsers(t.front.users)
    decreases |es|
  {
    if es != [] {
      StepStays(s, es[0]);
      if es[0].Front? {
        L.StepKeepsUsers(s.front, es[0].f);
      }
      RunStays(Apply(s, es[0]), es[1..]);
    }
  }

  // ----- where the money goes

  /** Event `e` begins the claim `c` of this user for this code; `to` is the user's registered wallet at that moment. */
  predicate Begins(s: State, e: Event, c: P.ClaimId, user: UserId, to: Address, code: string) {
    && e.Back? && e.b.Begin? && e.b.claim == c && e.b.user == user && e.b.to == to && e.b.code == code
    && user in s.front.users && s.front.users[user].walletAddress == Some(to)
  }

  lemma ClaimKeepsItsUser(s: P.State, e: P.Event, c: P.ClaimId)
    requires P.Enabled(s, e) && c in s.claims
    ensures var cl, claims := s.claims[c], P.Apply(s, e).claims;
            c in claims && claims[c].user == cl.user && claims[c].to == cl.to && claims[c].code == cl.code
  {
  }

  lemma {:induction false} ClaimsKeepTheirUsers(s: State, es: seq<Event>, c: P.ClaimId)
    requires IsRun(s, es) && c in s.back.claims
    ensures var cl, claims := s.back.claims[c], Exec(s, es).back.claims;
            c in claims && claims[c].user == cl.user && claims[c].to == cl.to && claims[c].code == cl.code
    decreases |es|
  {
    if es != [] {
      ClaimKeepsItsUser(s.back, if es[0].Front? then Seen(s.front, es[0].f) else es[0].b, c);
      ClaimsKeepTheirUsers(Apply(s, es[0]), es[1..], c);
    }
  }

  lemma OnlyBeginCreates(s: State, e: Event, c: P.ClaimId)
    requires Enabled(s, e) && c !in s.back.claims && c in Apply(s, e).back.claims
    ensures var cl := Apply(s, e).back.claims[c]; Begins(s, e, c, cl.user, cl.to, cl.code)
  {
  }

  lemma {:induction false} ClaimHasBegun(s: State, es: seq<Event>, c: P.ClaimId) returns (i: nat)
    requires IsRun(s, es) && c !in s.back.claims && c in Exec(s, es).back.claims
    ensures i < |es|
    ensures var cl := Exec(s, es).back.claims[c]; Begins(StateAt(s, es, i), es[i], c, cl.user, cl.to, cl.code)
    decreases |es|
  {
    var s1 := Apply(s, es[0]);
    if c in s1.back.claims {
      i := 0;
      OnlyBeginCreates(s, es[0], c);
      ClaimsKeepTheirUsers(s1, es[1..], c);
    } else {
      i := ClaimHasBegun(s1, es[1..], c);
      i := i + 1;
    }
  }

  /** The transaction pays a coupon in full to the wallet that its owner had registered when claiming it by its code. */
  predicate PaysTheOwner(s0: State, es: seq<Event>, tx: P.PooledTx)
    requires IsRun(s0, es)
  {
    var s := Exec(s0, es);
    && tx.key in s.front.coupons && tx.key in s.back.coupons
    && s.front.coupons[tx.key].utlAmountRaw == tx.amount
    && s.front.coupons[tx.key].userId == Some(tx.user)
    && s.back.coupons[tx.key].redemptionTxHash == Some(tx.hash)
    && exists i: nat ::
         i < |es| && Begins(StateAt(s0, es, i), es[i], tx.claim, tx.user, tx.to, s.front.coupons[tx.key].code)
  }

  /**
   However registrations, issuance jobs, claims, crashes and the clock interleave: the two sides
   agree on the coupons, users stay unique, no coupon is paid twice, and every payment is for a
   coupon that exists, with its amount, to the wallet that its owner had registered when asking for
   it by its code.
   */
  lemma EveryInterleavingIsSafe(cfg: Config, base: nat, es: seq<Event>)
    requires IsRun(Init(cfg, base), es)
    ensures var s := Exec(Init(cfg, base), es);
            && Joined(s) && L.UniqueUsers(s.front.users)
            && PayoutSafety.OneTxPerCoupon(s.back.pool)
            && forall tx | tx in s.back.pool :: PaysTheOwner(Init(cfg, base), es, tx)
  {
    var s0 := Init(cfg, base);
    assert Project(map[]) == map[];
    assert P.IsRun(P.Init(cfg, base), []);
    RunStays(s0, es);
    var s := Exec(s0, es);
    PayoutSafety.ReachableIsSafe(s.back);
    PayoutOutcomes.ReachableIsTruthful(s.back);
    PayoutOutcomes.ReachableIsAttributed(s.back);
    PayoutRequests.ReachableAsAsked(s.back);
    PayoutRequests.PooledAsAsked(s.back);
    forall tx | tx in s.back.pool
      ensures PaysTheOwner(s0, es, tx)
    {
      PoolIsPaid(s, tx);
      var i := ClaimHasBegun(s0, es, tx.claim);
    }
  }

  lemma PoolIsPaid(s: State, tx: P.PooledTx)
    requires Joined(s) && PayoutSafety.Inv(s.back) && PayoutOutcomes.Attributed(s.back) && tx in s.back.pool
    requires PayoutRequests.PaysWhatWasAsked(s.back, tx)
    ensures tx.key in s.front.coupons && s.front.coupons[tx.key].utlAmountRaw == tx.amount
    ensures s.front.coupons[tx.key].userId == Some(tx.user) && s.back.coupons[tx.key].redemptionTxHash == Some(tx.hash)
    ensures tx.claim in s.back.claims && s.back.claims[tx.claim].user == tx.user && s.back.claims[tx.claim].to == tx.to
    ensures s.back.claims[tx.claim].code == s.front.coupons[tx.key].code
  {
    assert PayoutSafety.TxOk(s.back, tx);
    assert PayoutOutcomes.IsOwn(tx, tx.claim, s.back.claims[tx.claim]);
  }
}
