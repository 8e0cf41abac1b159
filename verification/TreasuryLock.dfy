/**
 The distributed lock around the treasury: who can take it away, that nothing is signed or
 sent without it, and how it serializes nonces - which is the one property that depends on the
 lock's time to live.
 */
module TreasuryLock {
  import opened Wrappers
  import opened Payout

  // ----- ownership of the key, with no assumption about time

  /** A held lock is lost only to its expiry or to the compare-and-delete of the claim whose token it is. */
  lemma LostOnlyToHolderOrExpiry(s: State, e: Event)
    requires Enabled(s, e) && LockHeld(s)
    requires !(e.Act? && e.action == Unlock(true) && e.claim == s.lock.value.token)
    requires !(e.Tick? && s.now + e.ms >= s.lock.value.expiresAt)
    ensures LockHeld(Apply(s, e)) && Apply(s, e).lock == s.lock
  {
  }

  /** And to these it is lost: a held lock goes exactly with its holder's own release, or with the end of its time. */
  lemma LostIff(s: State, e: Event)
    requires Enabled(s, e) && LockHeld(s)
    ensures !LockHeld(Apply(s, e)) <==>
            || (e.Act? && e.action == Unlock(true) && e.claim == s.lock.value.token)
            || (e.Tick? && s.now + e.ms >= s.lock.value.expiresAt)
  {
  }

  /** Once the holder has released the lock, any claim of a running process that waits for it can have it. */
  lemma ReleaseLetsNextIn(s: State, c: ClaimId, d: ClaimId)
    requires LockHeld(s) && s.lock.value.token == c && c in s.claims && CanAct(s, c, Unlock(true))
    requires d in s.claims && s.claims[d].pc.Acquiring? && Running(s, d)
    ensures !LockHeld(Act1(s, c, Unlock(true))) && CanAct(Act1(s, c, Unlock(true)), d, SetOk)
  {
  }

  /** A lock that was obtained is held for exactly two minutes, unless it is released. */
  lemma LeaseOfTwoMinutes(s: State, c: ClaimId, ms: nat)
    requires c in s.claims && CanAct(s, c, SetOk)
    ensures LockHeld(Apply(Act1(s, c, SetOk), Tick(ms))) <==> ms < 120_000
    ensures Act1(s, c, SetOk).lock.Some? && Act1(s, c, SetOk).lock.value.token == c
  {
  }

  // ----- who holds it

  predicate Holds(s: State, c: ClaimId) {
    LockHeld(s) && s.lock.value.token == c
  }

  /** A claim comes to hold the lock by a SET of its own only. */
  lemma HoldsOnlyBySet(s: State, e: Event, c: ClaimId)
    requires Enabled(s, e) && !Holds(s, c) && Holds(Apply(s, e), c)
    ensures e.Act? && e.claim == c && (e.action.SetOk? || e.action == SetError(true))
  {
  }

  lemma {:induction false} TimeNeverGoesBack(s: State, es: seq<Event>)
    requires IsRun(s, es)
    ensures s.now <= Exec(s, es).now
    decreases |es|
  {
    if es != [] {
      TimeNeverGoesBack(Apply(s, es[0]), es[1..]);
    }
  }

  /** Over any run that stays within the lease, the key is the holder's unless the holder itself gives it up. */
  lemma {:induction false} LeaseLasts(s: State, es: seq<Event>)
    requires IsRun(s, es) && LockHeld(s) && Exec(s, es).now < s.lock.value.expiresAt
    requires forall e | e in es :: e != Act(s.lock.value.token, Unlock(true))
    ensures LockHeld(Exec(s, es)) && Exec(s, es).lock == s.lock
    decreases |es|
  {
    if es != [] {
      var s1 := Apply(s, es[0]);
      TimeNeverGoesBack(s1, es[1..]);
      assert es[0] in es;
      LostOnlyToHolderOrExpiry(s, es[0]);
      assert forall e | e in es[1..] :: e in es;
      LeaseLasts(s1, es[1..]);
    }
  }

  predicate Inside(pc: Pc) {
    || pc.Locked? || pc.Nonced? || pc.BuildFailed? || pc.Signed? || pc.Recorded?
    || pc.Probing? || pc.Disproved? || pc.Releasing?
  }

  predicate LeasesOk(s: State) {
    forall c | c in s.claims && Inside(s.claims[c].pc) :: s.claims[c].lease.Some?
  }

  predicate NeedsLock(a: Action) {
    a.ReadNonce? || a.Sign? || a.RecordHash? || a.Send?
  }

  lemma StepKeepsLeases(s: State, e: Event)
    requires LeasesOk(s) && Enabled(s, e)
    ensures LeasesOk(Apply(s, e))
  {
  }

  lemma LeaseOnlyBySet(s: State, e: Event, c: ClaimId)
    requires Enabled(s, e) && e != Act(c, SetOk) && c in Apply(s, e).claims
    ensures Apply(s, e).claims[c].lease.None? || (c in s.claims && Apply(s, e).claims[c].lease == s.claims[c].lease)
  {
  }

  /** No claim reads the nonce, signs, records or sends unless a SET of its own answered OK before. */
  lemma {:induction false} NothingSentWithoutLock(s: State, es: seq<Event>, i: nat, c: ClaimId)
    requires LeasesOk(s) && IsRun(s, es) && i < |es|
    requires es[i].Act? && es[i].claim == c && NeedsLock(es[i].action)
    requires c in s.claims ==> s.claims[c].lease.None?
    ensures exists j :: 0 <= j < i && es[j] == Act(c, SetOk)
    decreases |es|
  {
    if es[0] == Act(c, SetOk) {
      assert 0 < i;
    } else {
      assert i > 0 && es[i] == es[1..][i - 1];
      StepKeepsLeases(s, es[0]);
      if c in Apply(s, es[0]).claims {
        LeaseOnlyBySet(s, es[0], c);
      }
      NothingSentWithoutLock(Apply(s, es[0]), es[1..], i - 1, c);
      var j :| 0 <= j < i - 1 && es[1..][j] == Act(c, SetOk);
      assert es[j + 1] == Act(c, SetOk);
    }
  }

  // ----- nonces

  /** Between the lock and the send, in a process that is still running. */
  predicate InSection(s: State, c: ClaimId)
    requires c in s.claims
  {
    var cl := s.claims[c];
    && (cl.pc.Locked? || cl.pc.Nonced? || cl.pc.Signed? || cl.pc.Recorded?)
    && Running(s, c)
  }

  /** No claim is still in the section when the lease of its own SET runs out. */
  predicate Timely(s: State, e: Event) {
    e.Tick? ==> forall c | c in s.claims && InSection(s, c) ::
                  s.claims[c].lease.Some? && s.now + e.ms < s.claims[c].lease.value
  }

  predicate TimelyRun(s: State, es: seq<Event>)
    requires IsRun(s, es)
    decreases |es|
  {
    es == [] || (Timely(s, es[0]) && TimelyRun(Apply(s, es[0]), es[1..]))
  }

  predicate Consecutive(s: State) {
    forall j | 0 <= j < |s.pool| :: s.pool[j].nonce == s.baseNonce + j
  }

  predicate SectionOk(s: State, c: ClaimId)
    requires c in s.claims
  {
    var cl := s.claims[c];
    && cl.lease.Some? && s.lock == Some(Lease(c, cl.lease.value)) && s.now < cl.lease.value
    && (cl.pc.Nonced? || cl.pc.Signed? || cl.pc.Recorded? ==> cl.pc.nonce == s.baseNonce + |s.pool|)
  }

  predicate Serialized(s: State) {
    && Consecutive(s)
    && forall c | c in s.claims :: s.claims[c].instance in s.instances && (InSection(s, c) ==> SectionOk(s, c))
  }

  lemma PendingIsNext(s: State, n: nat)
    requires Consecutive(s) && PendingCount(s, n)
    ensures n == s.baseNonce + |s.pool|
  {
    assert forall m: nat | s.baseNonce <= m < s.baseNonce + |s.pool| ::
      s.pool[m - s.baseNonce].nonce == m && NonceTaken(s.pool, m);
    assert !NonceTaken(s.pool, s.baseNonce + |s.pool|);
  }

  /** The acting claim itself. */
  lemma ActorStaysSerialized(s: State, c: ClaimId, a: Action)
    requires Serialized(s) && c in s.claims && CanAct(s, c, a)
    ensures InSection(Act1(s, c, a), c) ==> SectionOk(Act1(s, c, a), c)
  {
    if a.ReadNonce? {
      PendingIsNext(s, a.nonce);
    } else if InSection(Act1(s, c, a), c) && !a.SetOk? {
      assert a.Sign? || a.RecordHash?;
      assert SectionOk(s, c);
    }
  }

  /** A claim in the section holds the lock, so no action of another claim takes it or sends. */
  lemma BystanderStaysSerialized(s: State, c: ClaimId, a: Action, d: ClaimId)
    requires Serialized(s) && c in s.claims && CanAct(s, c, a) && d in s.claims && c != d
    requires InSection(s, d)
    ensures SectionOk(Act1(s, c, a), d)
  {
    assert SectionOk(s, d) && !InSection(s, c);
  }

  lemma ActSerialized(s: State, c: ClaimId, a: Action)
    requires Serialized(s) && c in s.claims && CanAct(s, c, a)
    ensures Serialized(Act1(s, c, a))
  {
    var s' := Act1(s, c, a);
    assert a.Send? ==> SectionOk(s, c);
    assert s'.instances.Keys == s.instances.Keys && s'.claims.Keys == s.claims.Keys;
    forall d | d in s'.claims
      ensures s'.claims[d].instance in s'.instances && (InSection(s', d) ==> SectionOk(s', d))
    {
      if d == c {
        ActorStaysSerialized(s, c, a);
      } else if InSection(s, d) {
        BystanderStaysSerialized(s, c, a, d);
      }
    }
  }

  lemma StepSerialized(s: State, e: Event)
    requires Serialized(s) && Enabled(s, e) && Timely(s, e)
    ensures Serialized(Apply(s, e))
  {
    if e.Act? {
      ActSerialized(s, e.claim, e.action);
    }
  }

  lemma {:induction false} RunSerialized(s: State, es: seq<Event>)
    requires Serialized(s) && IsRun(s, es) && TimelyRun(s, es)
    ensures Serialized(Exec(s, es))
    decreases |es|
  {
    if es != [] {
      StepSerialized(s, es[0]);
      RunSerialized(Apply(s, es[0]), es[1..]);
    }
  }

  /**
   Over every run in which claims send or give up within the TTL of their own SET, two claims
   are never between the lock and the send together, and the pooled transactions carry
   consecutive nonces, although each claim only reads the pending count.
   */
  lemma NonceSerialization(cfg: Coupons.Config, base: nat, es: seq<Event>)
    requires IsRun(Init(cfg, base), es) && TimelyRun(Init(cfg, base), es)
    ensures var s := Exec(Init(cfg, base), es);
            && (forall c, d | c in s.claims && d in s.claims && InSection(s, c) && InSection(s, d) :: c == d)
            && (forall j | 0 <= j < |s.pool| :: s.pool[j].nonce == s.baseNonce + j)
  {
    RunSerialized(Init(cfg, base), es);
  }
}
