/**
 What happens when a claim outlives its lock: the exact moment at which a second claim can enter
 the treasury section, and the runs that lead from there to one nonce signed twice - as two
 transactions, or, when both pay the same, as one transaction that two claims report.
 */
module NonceRace {
  import opened Wrappers
  import opened Coupons
  import opened Payout
  import opened PayoutSafety
  import opened PayoutOutcomes
  import opened TreasuryLock

  /** While a claim is in the section, another can take the lock from the very end of its lease on. */
  lemma LockOpensIffLeaseIsOver(s: State, c: ClaimId, d: ClaimId, ms: nat)
    requires Serialized(s) && c in s.claims && InSection(s, c)
    requires d in s.claims && s.claims[d].pc.Acquiring? && Running(s, d)
    ensures CanAct(Apply(s, Tick(ms)), d, SetOk) <==> s.now + ms >= s.claims[c].lease.value
    ensures CanAct(Apply(s, Tick(ms)), d, SetOk) ==>
              var t := Act1(Apply(s, Tick(ms)), d, SetOk); c != d && InSection(t, c) && InSection(t, d)
  {
    assert SectionOk(s, c);
  }

  // ----- from the section to the pool

  lemma Starts(s: State, e: Event, es: seq<Event>)
    requires Enabled(s, e) && IsRun(Apply(s, e), es)
    ensures IsRun(s, [e] + es) && Exec(s, [e] + es) == Exec(Apply(s, e), es)
  {
    assert ([e] + es)[1..] == es;
  }

  /** Both claims read the pending count, the second one once the lease of the first is over. */
  function Overtake(c: ClaimId, d: ClaimId, n: nat, ms: nat): seq<Event> {
    [Act(c, ReadNonce(n))] + ([Tick(ms)] + ([Act(d, SetOk)] + ([Act(d, ReadNonce(n))] + [])))
  }

  lemma OvertakeRuns(s: State, c: ClaimId, d: ClaimId, n: nat, ms: nat)
    requires c in s.claims && d in s.claims && c != d
    requires CanAct(s, c, ReadNonce(n)) && s.claims[d].pc.Acquiring? && Running(s, d)
    requires s.lock.Some? ==> s.lock.value.expiresAt <= s.now + ms
    ensures IsRun(s, Overtake(c, d, n, ms))
    ensures var t := Exec(s, Overtake(c, d, n, ms));
            && t.coupons == s.coupons && t.pool == s.pool && t.instances == s.instances
            && t.claims == s.claims[c := s.claims[c].(pc := Nonced(n))]
                                   [d := s.claims[d].(
                                      pc := Nonced(n), lease := Some(s.now + ms + TREASURY_LOCK_TTL_MS))]
  {
    var s1 := Apply(s, Act(c, ReadNonce(n)));
    var s2 := Apply(s1, Tick(ms));
    var s3 := Apply(s2, Act(d, SetOk));
    assert PendingCount(s3, n);
    Starts(s3, Act(d, ReadNonce(n)), []);
    Starts(s2, Act(d, SetOk), [Act(d, ReadNonce(n))] + []);
    Starts(s1, Tick(ms), [Act(d, SetOk)] + ([Act(d, ReadNonce(n))] + []));
    Starts(s, Act(c, ReadNonce(n)), [Tick(ms)] + ([Act(d, SetOk)] + ([Act(d, ReadNonce(n))] + [])));
  }

  function SignAndSend(c: ClaimId, h: TxHash): seq<Event> {
    [Act(c, Sign(h))] + ([Act(c, RecordHash(Acked))] + ([Act(c, Send(true, true))] + []))
  }

  function TxOf(cl: Claim, c: ClaimId, n: nat, h: TxHash): PooledTx {
    PooledTx(h, n, cl.to, cl.amount, c, cl.key, cl.user)
  }

  /** What the pool gains when a claim sends a transaction. */
  function Gain(pool: seq<PooledTx>, tx: PooledTx): seq<PooledTx> {
    if Known(pool, tx.hash) then [] else [tx]
  }

  lemma SignAndSendRuns(s: State, c: ClaimId, n: nat, h: TxHash)
    requires c in s.claims && s.claims[c].pc == Nonced(n) && Running(s, c) && s.claims[c].key in s.coupons
    ensures IsRun(s, SignAndSend(c, h))
    ensures var t := Exec(s, SignAndSend(c, h));
            && t.coupons.Keys == s.coupons.Keys && t.instances == s.instances
            && t.pool == s.pool + Gain(s.pool, TxOf(s.claims[c], c, n, h))
            && t.claims == s.claims[c := s.claims[c].(pc := Releasing(Paid(h)))]
  {
    var s1 := Apply(s, Act(c, Sign(h)));
    var s2 := Apply(s1, Act(c, RecordHash(Acked)));
    assert s1.pool == s.pool && s2.pool == s.pool;
    Starts(s2, Act(c, Send(true, true)), []);
    Starts(s1, Act(c, RecordHash(Acked)), [Act(c, Send(true, true))] + []);
    Starts(s, Act(c, Sign(h)), [Act(c, RecordHash(Acked))] + ([Act(c, Send(true, true))] + []));
    assert Exec(s, SignAndSend(c, h)).claims == s.claims[c := s.claims[c].(pc := Releasing(Paid(h)))];
  }

  function Race(c: ClaimId, d: ClaimId, n: nat, ms: nat, h: TxHash, g: TxHash): seq<Event> {
    (Overtake(c, d, n, ms) + SignAndSend(c, h)) + SignAndSend(d, g)
  }

  /** The state of a race that is on: one claim about to read the nonce, one waiting for a lock that expires in time. */
  predicate Racing(s: State, c: ClaimId, d: ClaimId, n: nat, ms: nat) {
    && c in s.claims && d in s.claims && c != d
    && CanAct(s, c, ReadNonce(n)) && s.claims[d].pc.Acquiring? && Running(s, d)
    && (s.lock.Some? ==> s.lock.value.expiresAt <= s.now + ms)
    && s.claims[c].key in s.coupons && s.claims[d].key in s.coupons
  }

  lemma RaceRuns(s: State, c: ClaimId, d: ClaimId, n: nat, ms: nat, h: TxHash, g: TxHash)
    requires Racing(s, c, d, n, ms)
    ensures IsRun(s, Race(c, d, n, ms, h, g))
    ensures var t := Exec(s, Race(c, d, n, ms, h, g));
            var first := s.pool + Gain(s.pool, TxOf(s.claims[c], c, n, h));
            && t.pool == first + Gain(first, TxOf(s.claims[d], d, n, g)) && t.instances == s.instances
            && c in t.claims && t.claims[c] == s.claims[c].(pc := Releasing(Paid(h)))
            && d in t.claims && t.claims[d] == s.claims[d].(pc := Releasing(Paid(g)), lease := t.claims[d].lease)
  {
    OvertakeRuns(s, c, d, n, ms);
    var s1 := Exec(s, Overtake(c, d, n, ms));
    SignAndSendRuns(s1, c, n, h);
    var s2 := Exec(s1, SignAndSend(c, h));
    SignAndSendRuns(s2, d, n, g);
    RunsJoin(s, Overtake(c, d, n, ms), SignAndSend(c, h));
    RunsJoin(s, Overtake(c, d, n, ms) + SignAndSend(c, h), SignAndSend(d, g));
  }

  /** Two hashes that the chain does not know: the pool has the nonce twice. */
  lemma ExpiryDoublesTheNonce(s: State, c: ClaimId, d: ClaimId, n: nat, ms: nat, h: TxHash, g: TxHash)
    requires Racing(s, c, d, n, ms) && !Known(s.pool, h) && !Known(s.pool, g) && h != g
    ensures IsRun(s, Race(c, d, n, ms, h, g))
    ensures var t := Exec(s, Race(c, d, n, ms, h, g));
            && t.pool == s.pool + [TxOf(s.claims[c], c, n, h), TxOf(s.claims[d], d, n, g)]
            && !Consecutive(t)
  {
    RaceRuns(s, c, d, n, ms, h, g);
    var tx := TxOf(s.claims[c], c, n, h);
    KnownStays(s.pool, tx, g);
    var t := Exec(s, Race(c, d, n, ms, h, g));
    assert t.pool[|s.pool|].nonce == t.pool[|s.pool| + 1].nonce;
  }

  function Finish(d: ClaimId): seq<Event> {
    [Act(d, Unlock(true))] + ([Act(d, ReleaseLocal)] + ([Act(d, Confirm(true))] + []))
  }

  lemma FinishRuns(s: State, d: ClaimId, g: TxHash)
    requires d in s.claims && s.claims[d].pc == Releasing(Paid(g)) && Running(s, d)
    ensures IsRun(s, Finish(d))
    ensures var t := Exec(s, Finish(d)); t.pool == s.pool && d in t.claims && t.claims[d].pc == Done(Paid(g))
  {
    var s1 := Apply(s, Act(d, Unlock(true)));
    assert s1.claims[d].pc == Leaving(Paid(g)) && s1.pool == s.pool && Running(s1, d);
    var s2 := Apply(s1, Act(d, ReleaseLocal));
    assert s2.claims[d].pc == Confirming(g) && s2.pool == s.pool && Running(s2, d);
    Starts(s2, Act(d, Confirm(true)), []);
    Starts(s1, Act(d, ReleaseLocal), [Act(d, Confirm(true))] + []);
    Starts(s, Act(d, Unlock(true)), [Act(d, ReleaseLocal)] + ([Act(d, Confirm(true))] + []));
  }

  /**
   The same hash for both, as when the same amount goes to the same wallet: the second claim
   reports a payment that the chain confirms, and has no transaction of its own.
   */
  lemma CollisionPaysOnce(s: State, c: ClaimId, d: ClaimId, n: nat, ms: nat, h: TxHash)
    requires Reachable(s) && Racing(s, c, d, n, ms) && !Known(s.pool, h)
    ensures var es := Race(c, d, n, ms, h, h) + Finish(d);
            && IsRun(s, es)
            && var t := Exec(s, es);
               && d in t.claims && t.claims[d].pc == Done(Paid(h)) && !HasOwn(t, d, h)
               && t.pool == s.pool + [TxOf(s.claims[c], c, n, h)]
  {
    var es := Race(c, d, n, ms, h, h);
    RaceRuns(s, c, d, n, ms, h, h);
    var tx := TxOf(s.claims[c], c, n, h);
    KnownStays(s.pool, tx, h);
    var s1 := Exec(s, es);
    FinishRuns(s1, d, h);
    RunsJoin(s, es, Finish(d));
    ReachableIsTruthful(s);
    assert forall tx | tx in s.pool :: tx.claim != d by {
      assert !HasSent(s.claims[d].pc);
    }
  }

  // ----- a run from the empty system into the race

  /** A claim on its way to the lock, with nobody before it in its process. */
  function QueueUp(c: ClaimId, k: TxHash): seq<Event> {
    [Act(c, Select(k))] + ([Act(c, Cas(Acked))] + ([Act(c, Enqueue)] + ([Act(c, Enter)] + [])))
  }

  /** Ready to take its coupon, with nobody before it in its process. */
  predicate Ready(s: State, c: ClaimId, k: TxHash) {
    && c in s.claims && s.claims[c].pc.Selecting? && Running(s, c)
    && k in s.coupons && Claimable(s.coupons[k], s.claims[c].user, s.claims[c].code)
    && s.instances[s.claims[c].instance].arrivals == []
  }

  lemma QueueUpRuns(s: State, c: ClaimId, k: TxHash)
    requires Ready(s, c, k)
    ensures IsRun(s, QueueUp(c, k))
    ensures var cl := s.claims[c];
            Exec(s, QueueUp(c, k)) == s.(
              coupons := s.coupons[k := s.coupons[k].(redeemed := true, redeemedAt := Some(s.now))],
              claims := s.claims[c := cl.(key := k, amount := s.coupons[k].utlAmountRaw, pc := Acquiring(1))],
              instances := s.instances[cl.instance := s.instances[cl.instance].(arrivals := [c])])
  {
    var cl := s.claims[c].(key := k, amount := s.coupons[k].utlAmountRaw);
    var taken := s.coupons[k := s.coupons[k].(redeemed := true, redeemedAt := Some(s.now))];
    var queued := s.instances[cl.instance := s.instances[cl.instance].(arrivals := [c])];
    var s1 := Apply(s, Act(c, Select(k)));
    assert s1 == s.(claims := s.claims[c := cl.(pc := Selected)]);
    var s2 := Apply(s1, Act(c, Cas(Acked)));
    assert s2 == s.(coupons := taken, claims := s.claims[c := cl.(pc := Won)]);
    var s3 := Apply(s2, Act(c, Enqueue));
    assert [] + [c] == [c];
    assert s3.claims == s.claims[c := cl.(pc := Waiting(None))];
    assert s3 == s2.(claims := s.claims[c := cl.(pc := Waiting(None))], instances := queued);
    assert Apply(s3, Act(c, Enter)) == s3.(claims := s.claims[c := cl.(pc := Acquiring(1))]);
    Starts(s3, Act(c, Enter), []);
    Starts(s2, Act(c, Enqueue), [Act(c, Enter)] + []);
    Starts(s1, Act(c, Cas(Acked)), [Act(c, Enqueue)] + ([Act(c, Enter)] + []));
    Starts(s, Act(c, Select(k)), [Act(c, Cas(Acked))] + ([Act(c, Enqueue)] + ([Act(c, Enter)] + [])));
  }

  const RACE_COUPON := Coupon("x", 20_000, 1_000_000_000_000_000, "m", "p", Some("u"), false, None, None)
  const RACE_SETUP: seq<Event> := [
    Boot(0), Boot(1),
    IssueCoupon(Transfer("p", "m", 20_000, "h"), "x", Some("u")),
    IssueCoupon(Transfer("p", "m", 20_000, "k"), "y", Some("u"))]
  const RACE_BEGINS: seq<Event> := [Begin(0, 0, "u", "p", "x")] + ([Begin(1, 1, "u", "p", "y")] + [])

  function RaceSetUp(): State {
    Init(SAMPLE_CONFIG, 0).(
      coupons := map["h" := RACE_COUPON, "k" := RACE_COUPON.(code := "y")],
      instances := map[0 := Instance(true, []), 1 := Instance(true, [])])
  }

  /** One user, two coupons of the same worth, and two processes. */
  lemma RaceSetUpRuns()
    ensures IsRun(Init(SAMPLE_CONFIG, 0), RACE_SETUP) && Exec(Init(SAMPLE_CONFIG, 0), RACE_SETUP) == RaceSetUp()
  {
    var s := Init(SAMPLE_CONFIG, 0);
    RacePaymentsIssue();
    var es := RACE_SETUP;
    RunExtends(s, [], es[0]);
    RunExtends(s, [es[0]], es[1]);
    assert [es[0]] + [es[1]] == es[..2];
    RunExtends(s, es[..2], es[2]);
    assert es[..2] + [es[2]] == es[..3];
    RunExtends(s, es[..3], es[3]);
    assert es[..3] + [es[3]] == es;
  }

  /** And a claim in each. */
  lemma RaceBeginsRun()
    ensures IsRun(RaceSetUp(), RACE_BEGINS)
    ensures Exec(RaceSetUp(), RACE_BEGINS) == RaceSetUp().(
              claims := map[0 := Claim(0, "u", "p", "x", "", 0, None, Selecting),
                            1 := Claim(1, "u", "p", "y", "", 0, None, Selecting)])
  {
    var s := RaceSetUp();
    var s1 := Apply(s, Begin(0, 0, "u", "p", "x"));
    Starts(s1, Begin(1, 1, "u", "p", "y"), []);
    Starts(s, Begin(0, 0, "u", "p", "x"), [Begin(1, 1, "u", "p", "y")] + []);
  }

  lemma RacePaymentsIssue()
    ensures var t := Issue(SAMPLE_CONFIG, map[], Transfer("p", "m", 20_000, "h"), "x", Some("u"));
            && t == map["h" := RACE_COUPON]
            && Issue(SAMPLE_CONFIG, t, Transfer("p", "m", 20_000, "k"), "y", Some("u"))
               == map["h" := RACE_COUPON, "k" := RACE_COUPON.(code := "y")]
  {
    assert ToLower("m") == "m" && ToLower("h") == "h" && ToLower("k") == "k" && ToLower("p") == "p";
  }

  /** Two claims on two coupons, both past the local queue of their processes. */
  lemma BothQueueUp(s: State, c: ClaimId, d: ClaimId, k: TxHash, l: TxHash)
    requires Ready(s, c, k) && Ready(s, d, l) && c != d && k != l && s.claims[c].instance != s.claims[d].instance
    ensures IsRun(s, QueueUp(c, k) + QueueUp(d, l))
    ensures var t := Exec(s, QueueUp(c, k) + QueueUp(d, l));
            && c in t.claims && t.claims[c].pc == Acquiring(1) && Running(t, c) && t.claims[c].key == k
            && d in t.claims && t.claims[d].pc == Acquiring(1) && Running(t, d) && t.claims[d].key == l
            && t.coupons.Keys == s.coupons.Keys && t.pool == s.pool && t.lock == s.lock
            && t.baseNonce == s.baseNonce && t.now == s.now
  {
    QueueUpRuns(s, c, k);
    var s1 := Exec(s, QueueUp(c, k));
    QueueUpRuns(s1, d, l);
    RunsJoin(s, QueueUp(c, k), QueueUp(d, l));
  }

  lemma IntoTheRace(s: State, c: ClaimId, d: ClaimId, k: TxHash, l: TxHash, n: nat)
    requires Ready(s, c, k) && Ready(s, d, l) && c != d && k != l && s.claims[c].instance != s.claims[d].instance
    requires s.lock.None? && PendingCount(s, n)
    ensures var es := QueueUp(c, k) + QueueUp(d, l) + [Act(c, SetOk)];
            IsRun(s, es) && Exec(s, es).pool == s.pool && Racing(Exec(s, es), c, d, n, TREASURY_LOCK_TTL_MS)
  {
    BothQueueUp(s, c, d, k, l);
    var es := QueueUp(c, k) + QueueUp(d, l);
    RunExtends(s, es, Act(c, SetOk));
    assert PendingCount(Exec(s, es + [Act(c, SetOk)]), n);
  }

  lemma RaceIsReachable() returns (es: seq<Event>)
    ensures IsRun(Init(SAMPLE_CONFIG, 0), es)
    ensures var s := Exec(Init(SAMPLE_CONFIG, 0), es);
            s.pool == [] && Racing(s, 0, 1, 0, TREASURY_LOCK_TTL_MS)
  {
    var s0 := Init(SAMPLE_CONFIG, 0);
    RaceSetUpRuns();
    RaceBeginsRun();
    RunsJoin(s0, RACE_SETUP, RACE_BEGINS);
    var s1 := Exec(RaceSetUp(), RACE_BEGINS);
    IntoTheRace(s1, 0, 1, "h", "k", 0);
    var start := RACE_SETUP + RACE_BEGINS;
    es := QueueUp(0, "h") + QueueUp(1, "k") + [Act(0, SetOk)];
    RunsJoin(s0, start, es);
    es := start + es;
  }

  /** From the empty system: a run that pools one nonce twice, and a run that pays once and reports twice. */
  lemma BothRacesHappen()
    ensures exists es :: IsRun(Init(SAMPLE_CONFIG, 0), es) && !Consecutive(Exec(Init(SAMPLE_CONFIG, 0), es))
    ensures exists es, c, h: TxHash ::
              && IsRun(Init(SAMPLE_CONFIG, 0), es)
              && var t := Exec(Init(SAMPLE_CONFIG, 0), es);
                 c in t.claims && t.claims[c].pc == Done(Paid(h)) && !HasOwn(t, c, h)
  {
    var s0 := Init(SAMPLE_CONFIG, 0);
    var es := RaceIsReachable();
    var s := Exec(s0, es);
    ExpiryDoublesTheNonce(s, 0, 1, 0, TREASURY_LOCK_TTL_MS, "a", "b");
    var fs := Race(0, 1, 0, TREASURY_LOCK_TTL_MS, "a", "b");
    RunsJoin(s0, es, fs);
    assert IsRun(s0, es + fs) && !Consecutive(Exec(s0, es + fs));
    CollisionPaysOnce(s, 0, 1, 0, TREASURY_LOCK_TTL_MS, "a");
    var gs := Race(0, 1, 0, TREASURY_LOCK_TTL_MS, "a", "a") + Finish(1);
    RunsJoin(s0, es, gs);
    var t := Exec(s0, es + gs);
    assert IsRun(s0, es + gs) && 1 in t.claims && t.claims[1].pc == Done(Paid("a"));
  }

  // ----- and that it takes a race

  /** Signing binds the nonce: no hash is that of two different nonces. */
  ghost predicate HashesBind(s: State, es: seq<Event>, nonceOf: TxHash -> nat)
    requires IsRun(s, es)
    decreases |es|
  {
    es == [] ||
    (&& (es[0].Act? && es[0].action.Sign? ==> nonceOf(es[0].action.hash) == s.claims[es[0].claim].pc.nonce)
     && HashesBind(Apply(s, es[0]), es[1..], nonceOf))
  }

  ghost predicate Bound(s: State, nonceOf: TxHash -> nat) {
    && (forall c | c in s.claims && (s.claims[c].pc.Signed? || s.claims[c].pc.Recorded?) ::
          nonceOf(s.claims[c].pc.hash) == s.claims[c].pc.nonce)
    && (forall tx | tx in s.pool :: nonceOf(tx.hash) == tx.nonce)
  }

  lemma StepBound(s: State, e: Event, nonceOf: TxHash -> nat)
    requires Bound(s, nonceOf) && Enabled(s, e)
    requires e.Act? && e.action.Sign? ==> nonceOf(e.action.hash) == s.claims[e.claim].pc.nonce
    ensures Bound(Apply(s, e), nonceOf)
  {
  }

  /** A claim that is serialized and about to send signed a hash that the chain does not know. */
  lemma SerializedIsUnknown(s: State, c: ClaimId, nonceOf: TxHash -> nat)
    requires Serialized(s) && Bound(s, nonceOf) && c in s.claims && InSection(s, c) && s.claims[c].pc.Recorded?
    ensures !Known(s.pool, s.claims[c].pc.hash)
  {
    assert SectionOk(s, c);
    forall j | 0 <= j < |s.pool|
      ensures s.pool[j].hash != s.claims[c].pc.hash
    {
      assert s.pool[j] in s.pool;
    }
  }

  lemma {:induction false} TimelySendsAreNew(s: State, es: seq<Event>, nonceOf: TxHash -> nat,
                                              i: nat, c: ClaimId, h: TxHash)
    requires Serialized(s) && Bound(s, nonceOf) && IsRun(s, es) && TimelyRun(s, es) && HashesBind(s, es, nonceOf)
    requires i < |es| && SendsIn(StateAt(s, es, i), es[i], c, h)
    ensures !Known(StateAt(s, es, i).pool, h)
    decreases |es|
  {
    if i == 0 {
      SerializedIsUnknown(s, c, nonceOf);
    } else {
      StepSerialized(s, es[0]);
      StepBound(s, es[0], nonceOf);
      TimelySendsAreNew(Apply(s, es[0]), es[1..], nonceOf, i - 1, c, h);
    }
  }

  /** Over every run in which claims keep to their leases, whoever reports a payment has paid it itself. */
  lemma TimelyPaymentsAreOwn(cfg: Config, base: nat, es: seq<Event>, nonceOf: TxHash -> nat, c: ClaimId)
    requires IsRun(Init(cfg, base), es) && TimelyRun(Init(cfg, base), es) && HashesBind(Init(cfg, base), es, nonceOf)
    requires c in Exec(Init(cfg, base), es).claims && Exec(Init(cfg, base), es).claims[c].pc.Done?
    requires Exec(Init(cfg, base), es).claims[c].pc.outcome.Paid?
    ensures HasOwn(Exec(Init(cfg, base), es), c, Exec(Init(cfg, base), es).claims[c].pc.outcome.hash)
  {
    var i := SentAndOwn(Init(cfg, base), es, c);
    TimelySendsAreNew(Init(cfg, base), es, nonceOf, i, c, Exec(Init(cfg, base), es).claims[c].pc.outcome.hash);
  }
}
