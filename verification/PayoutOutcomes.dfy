/**
 What the caller of a claim is told is true of the chain, in every reachable state: "please
 retry" is said only when the claim has sent nothing, and a hash is handed out only for a
 transaction that the chain has.
 */
module PayoutOutcomes {
  import opened Wrappers
  import opened Coupons
  import opened Payout

  /** The outcome the claim is bound to report, once there is one. */
  function Verdict(pc: Pc): Option<Outcome> {
    match pc
    case Releasing(o) => Some(o)
    case Leaving(o) => Some(o)
    case Confirming(h) => Some(Paid(h))
    case Done(o) => Some(o)
    case _ => None
  }

  predicate SaysSent(o: Outcome) {
    o.Paid? || o.Unconfirmed?
  }

  predicate SaysMaybeSent(o: Outcome) {
    SaysSent(o) || o.Unverified?
  }

  /** A claim at this point may have put the transaction `h` in the pool. */
  predicate MayHaveSent(pc: Pc, h: TxHash) {
    || (pc.Probing? && pc.hash == h)
    || (Verdict(pc).Some? && SaysMaybeSent(Verdict(pc).value) && Verdict(pc).value.hash == h)
  }

  predicate SendersOk(s: State) {
    forall tx | tx in s.pool :: tx.claim in s.claims && MayHaveSent(s.claims[tx.claim].pc, tx.hash)
  }

  predicate VerdictsOk(s: State) {
    forall c | c in s.claims && Verdict(s.claims[c].pc).Some? && SaysSent(Verdict(s.claims[c].pc).value) ::
      Known(s.pool, Verdict(s.claims[c].pc).value.hash)
  }

  predicate Truthful(s: State) {
    SendersOk(s) && VerdictsOk(s)
  }

  lemma KnownStays(pool: seq<PooledTx>, tx: PooledTx, h: TxHash)
    ensures Known(pool + [tx], h) <==> Known(pool, h) || tx.hash == h
  {
    if Known(pool, h) {
      var j :| 0 <= j < |pool| && pool[j].hash == h;
      assert (pool + [tx])[j].hash == h;
    }
    if tx.hash == h {
      assert (pool + [tx])[|pool|].hash == h;
    }
  }

  lemma NotSentByUnknownHash(s: State, c: ClaimId)
    requires SendersOk(s) && c in s.claims && s.claims[c].pc.Probing? && !Known(s.pool, s.claims[c].pc.hash)
    ensures forall tx | tx in s.pool :: tx.claim != c
  {
    forall tx | tx in s.pool
      ensures tx.claim != c
    {
      assert MayHaveSent(s.claims[tx.claim].pc, tx.hash);
      var j :| 0 <= j < |s.pool| && s.pool[j] == tx;
      assert Known(s.pool, tx.hash);
    }
  }

  lemma SendTruthful(s: State, c: ClaimId, a: Action)
    requires Truthful(s) && c in s.claims && CanAct(s, c, a) && a.Send?
    ensures Truthful(Act1(s, c, a))
  {
    var h := s.claims[c].pc.hash;
    var s' := Act1(s, c, a);
    assert forall tx | tx in s.pool :: tx.claim != c;
    if s'.pool != s.pool {
      var tx := s'.pool[|s.pool|];
      assert s'.pool == s.pool + [tx] && tx.claim == c && tx.hash == h;
      forall g {
        KnownStays(s.pool, tx, g);
      }
    }
  }

  /** A step that leaves the pool alone and moves one claim, which reports nothing it did not do. */
  lemma MoveTruthful(s: State, s': State, c: ClaimId)
    requires Truthful(s) && c in s.claims && c in s'.claims
    requires s'.pool == s.pool && s'.claims == s.claims[c := s'.claims[c]]
    requires var pc, pc' := s.claims[c].pc, s'.claims[c].pc;
             && (forall tx | tx in s.pool && tx.claim == c :: MayHaveSent(pc, tx.hash) ==> MayHaveSent(pc', tx.hash))
             && (Verdict(pc').Some? && SaysSent(Verdict(pc').value) ==> Known(s.pool, Verdict(pc').value.hash))
    ensures Truthful(s')
  {
  }

  lemma ProbeMissingTruthful(s: State, c: ClaimId)
    requires Truthful(s) && c in s.claims && CanAct(s, c, ProbeMissing)
    ensures Truthful(Act1(s, c, ProbeMissing))
  {
    if s.claims[c].pc.attempt >= BROADCAST_VERIFY_ATTEMPTS {
      NotSentByUnknownHash(s, c);
    }
    MoveTruthful(s, Act1(s, c, ProbeMissing), c);
  }

  /** An action that neither sends nor takes the chain's word changes no verdict, or finds the hash. */
  lemma VerdictStays(s: State, c: ClaimId, a: Action, h: TxHash)
    requires c in s.claims && CanAct(s, c, a) && !a.Send? && !a.ProbeMissing?
    ensures MayHaveSent(s.claims[c].pc, h) ==> MayHaveSent(NextPc(s, c, a), h)
    ensures var v, v' := Verdict(s.claims[c].pc), Verdict(NextPc(s, c, a));
            v'.Some? && SaysSent(v'.value) ==>
              Known(s.pool, v'.value.hash) || (v.Some? && SaysSent(v.value) && v'.value.hash == v.value.hash)
  {
  }

  lemma OtherActTruthful(s: State, c: ClaimId, a: Action)
    requires Truthful(s) && c in s.claims && CanAct(s, c, a) && !a.Send? && !a.ProbeMissing?
    ensures Truthful(Act1(s, c, a))
  {
    forall h {
      VerdictStays(s, c, a, h);
    }
    var s' := Act1(s, c, a);
    assert s'.pool == s.pool && s'.claims[c].pc == NextPc(s, c, a);
    MoveTruthful(s, s', c);
  }

  lemma StepTruthful(s: State, e: Event)
    requires Truthful(s) && Enabled(s, e)
    ensures Truthful(Apply(s, e))
  {
    match e
    case Act(c, a) =>
      if a.Send? {
        SendTruthful(s, c, a);
      } else if a.ProbeMissing? {
        ProbeMissingTruthful(s, c);
      } else {
        OtherActTruthful(s, c, a);
      }
    case _ =>
  }

  lemma {:induction false} RunTruthful(s: State, es: seq<Event>)
    requires Truthful(s) && IsRun(s, es)
    ensures Truthful(Exec(s, es))
    decreases |es|
  {
    if es != [] {
      StepTruthful(s, es[0]);
      RunTruthful(Apply(s, es[0]), es[1..]);
    }
  }

  lemma ReachableIsTruthful(s: State)
    requires Reachable(s)
    ensures Truthful(s)
  {
    var cfg, base: nat, es :| IsRun(Init(cfg, base), es) && Exec(Init(cfg, base), es) == s;
    RunTruthful(Init(cfg, base), es);
  }

  // ----- whose transaction it is

  /** The claim's own transaction: what it signed under this hash, for its coupon, amount and recipient. */
  predicate IsOwn(tx: PooledTx, c: ClaimId, cl: Claim) {
    tx.claim == c && tx.key == cl.key && tx.amount == cl.amount && tx.to == cl.to && tx.user == cl.user
  }

  predicate Attributed(s: State) {
    forall tx | tx in s.pool :: tx.claim in s.claims && IsOwn(tx, tx.claim, s.claims[tx.claim])
  }

  predicate HasOwn(s: State, c: ClaimId, h: TxHash)
    requires c in s.claims
  {
    exists tx :: tx in s.pool && IsOwn(tx, c, s.claims[c]) && tx.hash == h
  }

  lemma ActAttributed(s: State, c: ClaimId, a: Action)
    requires SendersOk(s) && Attributed(s) && c in s.claims && CanAct(s, c, a)
    ensures Attributed(Act1(s, c, a))
  {
    var s' := Act1(s, c, a);
    forall tx | tx in s'.pool
      ensures tx.claim in s'.claims && IsOwn(tx, tx.claim, s'.claims[tx.claim])
    {
      if tx in s.pool {
        assert MayHaveSent(s.claims[tx.claim].pc, tx.hash);
      }
    }
  }

  lemma {:induction false} RunAttributed(s: State, es: seq<Event>)
    requires Truthful(s) && Attributed(s) && IsRun(s, es)
    ensures Attributed(Exec(s, es))
    decreases |es|
  {
    if es != [] {
      if es[0].Act? {
        ActAttributed(s, es[0].claim, es[0].action);
      }
      StepTruthful(s, es[0]);
      RunAttributed(Apply(s, es[0]), es[1..]);
    }
  }

  lemma ReachableIsAttributed(s: State)
    requires Reachable(s)
    ensures Attributed(s)
  {
    var cfg, base: nat, es :| IsRun(Init(cfg, base), es) && Exec(Init(cfg, base), es) == s;
    RunAttributed(Init(cfg, base), es);
  }

  // ----- exactly when a reported hash is the claim's own transaction

  /** Event `e` is the claim's send of the transaction it signed as `h`. */
  predicate SendsIn(s: State, e: Event, c: ClaimId, h: TxHash) {
    e.Act? && e.claim == c && e.action.Send? && c in s.claims && s.claims[c].pc.Recorded? && s.claims[c].pc.hash == h
  }

  /** The claim has sent and is bound to report `h`, if a hash at all, and no payment unless the send was replied to. */
  predicate AfterSend(pc: Pc, h: TxHash, replied: bool) {
    && (((pc.Probing? || pc.Disproved?) && pc.hash == h) || Verdict(pc).Some?)
    && (Verdict(pc).Some? && SaysMaybeSent(Verdict(pc).value) ==> Verdict(pc).value.hash == h)
    && (Verdict(pc).Some? && Verdict(pc).value.Paid? ==> replied)
  }

  /** The claim may still report a hash that it has sent. */
  predicate HasSent(pc: Pc) {
    pc.Probing? || pc.Disproved? || (Verdict(pc).Some? && SaysMaybeSent(Verdict(pc).value))
  }

  lemma AfterSendStep(s: State, e: Event, c: ClaimId, h: TxHash, replied: bool)
    requires Enabled(s, e) && c in s.claims && AfterSend(s.claims[c].pc, h, replied)
    ensures var s' := Apply(s, e);
            && c in s'.claims && AfterSend(s'.claims[c].pc, h, replied)
            && s'.claims[c].(pc := s.claims[c].pc, lease := s.claims[c].lease) == s.claims[c]
            && forall tx: PooledTx | tx.claim == c :: tx in s'.pool <==> tx in s.pool
  {
  }

  lemma {:induction false} AfterSendStays(s: State, es: seq<Event>, c: ClaimId, h: TxHash, replied: bool)
    requires IsRun(s, es) && c in s.claims && AfterSend(s.claims[c].pc, h, replied)
    ensures var t := Exec(s, es);
            && c in t.claims && AfterSend(t.claims[c].pc, h, replied)
            && (HasOwn(t, c, h) <==> HasOwn(s, c, h))
    decreases |es|
  {
    if es != [] {
      AfterSendStep(s, es[0], c, h, replied);
      AfterSendStays(Apply(s, es[0]), es[1..], c, h, replied);
    }
  }

  lemma SendAdds(s: State, e: Event, c: ClaimId, h: TxHash)
    requires SendersOk(s) && Enabled(s, e) && SendsIn(s, e, c, h)
    ensures AfterSend(Apply(s, e).claims[c].pc, h, e.action.replied)
    ensures HasOwn(Apply(s, e), c, h) <==> e.action.accepted && !Known(s.pool, h)
  {
    var s' := Apply(s, e);
    assert forall tx | tx in s.pool :: tx.claim != c;
    if e.action.accepted && !Known(s.pool, h) {
      var tx := s'.pool[|s.pool|];
      assert tx in s'.pool && IsOwn(tx, c, s'.claims[c]) && tx.hash == h;
    }
  }

  lemma OnlySendingSends(s: State, e: Event, c: ClaimId)
    requires Enabled(s, e) && !(e.Act? && e.claim == c && e.action.Send?)
    requires c in s.claims ==> !HasSent(s.claims[c].pc)
    ensures c in Apply(s, e).claims ==> !HasSent(Apply(s, e).claims[c].pc)
  {
  }

  /** What a claim says it has sent, it has sent once; and the transaction is its own iff that send added it. */
  lemma {:induction false} SentAndOwn(s: State, es: seq<Event>, c: ClaimId) returns (i: nat)
    requires Truthful(s) && IsRun(s, es) && c in Exec(s, es).claims
    requires c in s.claims ==> !HasSent(s.claims[c].pc)
    requires Exec(s, es).claims[c].pc.Done? && SaysMaybeSent(Exec(s, es).claims[c].pc.outcome)
    ensures i < |es|
    ensures var o := Exec(s, es).claims[c].pc.outcome;
            && SendsIn(StateAt(s, es, i), es[i], c, o.hash)
            && (HasOwn(Exec(s, es), c, o.hash) <==> es[i].action.accepted && !Known(StateAt(s, es, i).pool, o.hash))
            && (o.Paid? ==> es[i].action.accepted)
    decreases |es|
  {
    var e, s1 := es[0], Apply(s, es[0]);
    StepTruthful(s, e);
    if e.Act? && e.claim == c && e.action.Send? {
      i := 0;
      var h := s.claims[c].pc.hash;
      SendAdds(s, e, c, h);
      AfterSendStays(s1, es[1..], c, h, e.action.replied);
    } else {
      OnlySendingSends(s, e, c);
      i := SentAndOwn(s1, es[1..], c);
      i := i + 1;
    }
  }

  /**
   Whatever a finished claim reported is borne out by the pool, over every run.  All that it has in
   the pool is for its own coupon, amount and recipient, under the reported hash.  A hash reported
   as paid is that of its own transaction exactly when the chain did not know the hash at the send.
   */
  lemma ToldTheTruth(cfg: Config, base: nat, es: seq<Event>, c: ClaimId)
    requires IsRun(Init(cfg, base), es)
    requires c in Exec(Init(cfg, base), es).claims && Exec(Init(cfg, base), es).claims[c].pc.Done?
    ensures var s0, s := Init(cfg, base), Exec(Init(cfg, base), es);
            var o := s.claims[c].pc.outcome;
            && (SaysSent(o) ==> Known(s.pool, o.hash))
            && (forall tx | tx in s.pool && tx.claim == c ::
                  IsOwn(tx, c, s.claims[c]) && SaysMaybeSent(o) && tx.hash == o.hash)
            && (SaysMaybeSent(o) ==>
                  exists i: nat ::
                    && i < |es| && SendsIn(StateAt(s0, es, i), es[i], c, o.hash)
                    && (o.Paid? ==> es[i].action.accepted)
                    && (HasOwn(s, c, o.hash) <==> es[i].action.accepted && !Known(StateAt(s0, es, i).pool, o.hash)))
  {
    RunTruthful(Init(cfg, base), es);
    RunAttributed(Init(cfg, base), es);
    if SaysMaybeSent(Exec(Init(cfg, base), es).claims[c].pc.outcome) {
      var i := SentAndOwn(Init(cfg, base), es, c);
    }
  }
}
