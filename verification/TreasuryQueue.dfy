/**
 The in-process queue: each caller of `withTreasuryLock` waits for the promise that the field
 held when it called and leaves its own promise there.  The chain of promises is a first-in
 first-out queue, it never deadlocks, and no claim can take more than a fixed number of steps.
 */
module TreasuryQueue {
  import opened Wrappers
  import opened Coupons
  import opened Payout
  import opened PayoutSafety

  // ----- order of arrival

  predicate Queued(pc: Pc) {
    !pc.Selecting? && !pc.Selected? && !pc.Won?
  }

  /** Past `await previous` and not yet past `releaseLocal()`. */
  predicate InTreasury(pc: Pc) {
    || pc.Acquiring? || pc.Bailing? || pc.Locked? || pc.Nonced? || pc.BuildFailed? || pc.Signed? || pc.Recorded?
    || pc.Probing? || pc.Disproved? || pc.Releasing? || pc.Leaving?
  }

  predicate ArrivalOk(s: State, i: InstanceId, x: nat)
    requires i in s.instances && x < |s.instances[i].arrivals|
  {
    var a := s.instances[i].arrivals;
    && a[x] in s.claims
    && var cl := s.claims[a[x]];
    && cl.instance == i && Queued(cl.pc)
    && (cl.pc.Waiting? ==> cl.pc.prev == if x == 0 then None else Some(a[x - 1]))
    && (!cl.pc.Waiting? && x > 0 ==> a[x - 1] in s.claims && Resolved(s.claims[a[x - 1]].pc))
  }

  predicate Distinct<T(==)>(a: seq<T>) {
    forall x, y | 0 <= x < y < |a| :: a[x] != a[y]
  }

  predicate QueueOk(s: State) {
    && (forall i | i in s.instances :: Distinct(s.instances[i].arrivals))
    && (forall i, x: nat | i in s.instances && x < |s.instances[i].arrivals| :: ArrivalOk(s, i, x))
    && (forall c | c in s.claims && Queued(s.claims[c].pc) && !s.claims[c].pc.Done? ::
          s.claims[c].instance in s.instances && c in s.instances[s.claims[c].instance].arrivals)
    && (forall c | c in s.claims :: s.claims[c].instance in s.instances)
  }

  lemma EnqueueKeepsQueue(s: State, c: ClaimId)
    requires QueueOk(s) && c in s.claims && CanAct(s, c, Enqueue)
    ensures QueueOk(Act1(s, c, Enqueue))
  {
    var s' := Act1(s, c, Enqueue);
    var i := s.claims[c].instance;
    forall j, x: nat | j in s'.instances && x < |s'.instances[j].arrivals|
      ensures ArrivalOk(s', j, x)
    {
      if x < |s.instances[j].arrivals| {
        assert ArrivalOk(s, j, x) && s'.instances[j].arrivals[x] == s.instances[j].arrivals[x];
      } else {
        assert j == i && (x > 0 ==> ArrivalOk(s, i, x - 1));
      }
    }
    forall x: nat | x < |s.instances[i].arrivals|
      ensures s.instances[i].arrivals[x] != c
    {
      assert ArrivalOk(s, i, x);
    }
    assert Distinct(s'.instances[i].arrivals);
  }

  /** Any step but the arrival moves one claim along and leaves the arrivals alone. */
  lemma MoveKeepsQueue(s: State, s': State, c: ClaimId)
    requires QueueOk(s) && c in s.claims && s'.claims.Keys == s.claims.Keys && s'.instances == s.instances
    requires forall d | d in s.claims && d != c :: s'.claims[d] == s.claims[d]
    requires s'.claims[c].instance == s.claims[c].instance && !s'.claims[c].pc.Waiting?
    requires Queued(s'.claims[c].pc) ==> Queued(s.claims[c].pc) || s'.claims[c].pc.Done?
    requires Queued(s.claims[c].pc) ==> Queued(s'.claims[c].pc) && !s.claims[c].pc.Done?
    requires Resolved(s.claims[c].pc) ==> Resolved(s'.claims[c].pc)
    requires s.claims[c].pc.Waiting? && s.claims[c].pc.prev.Some? ==>
               s.claims[c].pc.prev.value in s.claims && Resolved(s.claims[s.claims[c].pc.prev.value].pc)
    ensures QueueOk(s')
  {
    forall j, x: nat | j in s'.instances && x < |s'.instances[j].arrivals|
      ensures ArrivalOk(s', j, x)
    {
      assert ArrivalOk(s, j, x) && (x > 0 ==> ArrivalOk(s, j, x - 1));
    }
  }

  lemma ActKeepsQueue(s: State, c: ClaimId, a: Action)
    requires QueueOk(s) && c in s.claims && CanAct(s, c, a)
    ensures QueueOk(Act1(s, c, a))
  {
    if a.Enqueue? {
      EnqueueKeepsQueue(s, c);
    } else {
      MoveKeepsQueue(s, Act1(s, c, a), c);
    }
  }

  lemma StepKeepsQueue(s: State, e: Event)
    requires QueueOk(s) && Enabled(s, e)
    ensures QueueOk(Apply(s, e))
  {
    if e.Act? {
      ActKeepsQueue(s, e.claim, e.action);
    } else {
      var s' := Apply(s, e);
      forall j, x: nat | j in s'.instances && x < |s'.instances[j].arrivals|
        ensures ArrivalOk(s', j, x)
      {
        assert ArrivalOk(s, j, x);
      }
    }
  }

  lemma {:induction false} RunKeepsQueue(s: State, es: seq<Event>)
    requires QueueOk(s) && IsRun(s, es)
    ensures QueueOk(Exec(s, es))
    decreases |es|
  {
    if es != [] {
      StepKeepsQueue(s, es[0]);
      RunKeepsQueue(Apply(s, es[0]), es[1..]);
    }
  }

  lemma {:induction false} EarlierAreResolved(s: State, i: InstanceId, x: nat, y: nat)
    requires QueueOk(s) && i in s.instances && x < y < |s.instances[i].arrivals|
    requires s.instances[i].arrivals[y] in s.claims && !s.claims[s.instances[i].arrivals[y]].pc.Waiting?
    ensures s.instances[i].arrivals[x] in s.claims && Resolved(s.claims[s.instances[i].arrivals[x]].pc)
    decreases y
  {
    assert ArrivalOk(s, i, y);
    if x < y - 1 {
      EarlierAreResolved(s, i, x, y - 1);
    }
  }

  /**
   In every reachable state, a claim that has entered the treasury section finds every earlier
   arrival of its instance through it, and no two claims of one instance are in it together.
   */
  lemma FirstInFirstOut(cfg: Config, base: nat, es: seq<Event>, i: InstanceId, x: nat, y: nat)
    requires IsRun(Init(cfg, base), es)
    requires var s := Exec(Init(cfg, base), es); i in s.instances && x < y < |s.instances[i].arrivals|
    ensures var s := Exec(Init(cfg, base), es);
            var c, d := s.instances[i].arrivals[x], s.instances[i].arrivals[y];
            && c in s.claims && d in s.claims && c != d
            && (!s.claims[d].pc.Waiting? ==> Resolved(s.claims[c].pc))
            && !(InTreasury(s.claims[c].pc) && InTreasury(s.claims[d].pc))
  {
    RunKeepsQueue(Init(cfg, base), es);
    var s := Exec(Init(cfg, base), es);
    assert ArrivalOk(s, i, x) && ArrivalOk(s, i, y);
    if !s.claims[s.instances[i].arrivals[y]].pc.Waiting? {
      EarlierAreResolved(s, i, x, y);
    }
  }

  // ----- a claim takes a bounded number of steps

  function Left(attempt: nat, attempts: nat): nat {
    if attempt < attempts then attempts - attempt else 0
  }

  const MAX_STEPS: nat := 135

  /** An upper bound on the steps a claim can still take. */
  function Rank(pc: Pc): nat {
    match pc
    case Selecting => MAX_STEPS
    case Selected => 134
    case Won => 133
    case Waiting(_) => 132
    case Acquiring(k) => 12 + Left(k, TREASURY_LOCK_ACQUIRE_ATTEMPTS)
    case Locked => 11
    case Nonced(_) => 10
    case Signed(_, _) => 9
    case Recorded(_, _) => 8
    case Probing(_, k) => 5 + Left(k, BROADCAST_VERIFY_ATTEMPTS)
    case Disproved(_) => 4
    case BuildFailed => 4
    case Releasing(_) => 3
    case Leaving(_) => 2
    case Bailing => 2
    case Undoing => 1
    case Confirming(_) => 1
    case Done(_) => 0
  }

  function SetsLeft(pc: Pc): nat {
    match pc
    case Selecting => TREASURY_LOCK_ACQUIRE_ATTEMPTS
    case Selected => TREASURY_LOCK_ACQUIRE_ATTEMPTS
    case Won => TREASURY_LOCK_ACQUIRE_ATTEMPTS
    case Waiting(_) => TREASURY_LOCK_ACQUIRE_ATTEMPTS
    case Acquiring(k) => 1 + Left(k, TREASURY_LOCK_ACQUIRE_ATTEMPTS)
    case _ => 0
  }

  function ProbesLeft(pc: Pc): nat {
    match pc
    case Probing(_, k) => 1 + Left(k, BROADCAST_VERIFY_ATTEMPTS)
    case _ => if Rank(pc) >= 8 then BROADCAST_VERIFY_ATTEMPTS else 0
  }

  lemma ActCosts(s: State, c: ClaimId, a: Action)
    requires c in s.claims && CanAct(s, c, a)
    ensures Rank(Act1(s, c, a).claims[c].pc) < Rank(s.claims[c].pc)
  {
  }

  lemma SetCosts(s: State, c: ClaimId, a: Action)
    requires c in s.claims && CanAct(s, c, a)
    ensures SetsLeft(Act1(s, c, a).claims[c].pc) + (if IsSet(a) then 1 else 0) <= SetsLeft(s.claims[c].pc)
  {
  }

  lemma ProbeCosts(s: State, c: ClaimId, a: Action)
    requires c in s.claims && CanAct(s, c, a)
    ensures ProbesLeft(Act1(s, c, a).claims[c].pc) + (if IsProbe(a) then 1 else 0) <= ProbesLeft(s.claims[c].pc)
  {
  }

  lemma ActLeavesOthers(s: State, c: ClaimId, a: Action, d: ClaimId)
    requires c in s.claims && CanAct(s, c, a) && d in s.claims && d != c
    ensures d in Act1(s, c, a).claims && Act1(s, c, a).claims[d] == s.claims[d]
  {
  }

  predicate IsSet(a: Action) {
    a.SetOk? || a.SetBusy? || a.SetError?
  }

  predicate IsProbe(a: Action) {
    a.ProbeFound? || a.ProbeMissing? || a.ProbeError?
  }

  function Count(es: seq<Event>, c: ClaimId, f: Action -> bool): nat {
    if es == [] then 0
    else (if es[0].Act? && es[0].claim == c && f(es[0].action) then 1 else 0) + Count(es[1..], c, f)
  }

  lemma {:induction false} ClaimIsBoundedFrom(s: State, es: seq<Event>, c: ClaimId)
    requires IsRun(s, es) && c in s.claims
    ensures Count(es, c, a => true) <= Rank(s.claims[c].pc)
    ensures Count(es, c, IsSet) <= SetsLeft(s.claims[c].pc)
    ensures Count(es, c, IsProbe) <= ProbesLeft(s.claims[c].pc)
    decreases |es|
  {
    if es != [] {
      if es[0].Act? {
        if es[0].claim == c {
          ActCosts(s, c, es[0].action);
          SetCosts(s, c, es[0].action);
          ProbeCosts(s, c, es[0].action);
        } else {
          ActLeavesOthers(s, es[0].claim, es[0].action, c);
        }
      }
      ClaimIsBoundedFrom(Apply(s, es[0]), es[1..], c);
    }
  }

  /** In any run a claim takes at most 135 steps, tries the lock at most 120 times and the chain at most 3. */
  lemma {:induction false} ClaimIsBounded(s: State, es: seq<Event>, c: ClaimId)
    requires IsRun(s, es) && c !in s.claims
    ensures Count(es, c, a => true) <= MAX_STEPS
    ensures Count(es, c, IsSet) <= TREASURY_LOCK_ACQUIRE_ATTEMPTS
    ensures Count(es, c, IsProbe) <= BROADCAST_VERIFY_ATTEMPTS
    decreases |es|
  {
    if es != [] {
      if es[0].Begin? && es[0].claim == c {
        ClaimIsBoundedFrom(Apply(s, es[0]), es[1..], c);
      } else {
        ClaimIsBounded(Apply(s, es[0]), es[1..], c);
      }
    }
  }

  // ----- the pending count always exists

  function Nonces(pool: seq<PooledTx>): set<nat> {
    set tx | tx in pool :: tx.nonce
  }

  function FirstFree(taken: set<nat>, n: nat): nat
    decreases |taken|
  {
    if n in taken then FirstFree(taken - {n}, n + 1) else n
  }

  lemma {:induction false} FirstFreeIs(taken: set<nat>, n: nat)
    ensures n <= FirstFree(taken, n) && FirstFree(taken, n) !in taken
    ensures forall m: nat | n <= m < FirstFree(taken, n) :: m in taken
    decreases |taken|
  {
    if n in taken {
      FirstFreeIs(taken - {n}, n + 1);
      forall m: nat | n <= m < FirstFree(taken, n)
        ensures m in taken
      {
        assert m == n || m in taken - {n};
      }
    }
  }

  function Pending(s: State): nat {
    FirstFree(Nonces(s.pool), s.baseNonce)
  }

  lemma TakenIffPooled(pool: seq<PooledTx>, n: nat)
    ensures NonceTaken(pool, n) <==> n in Nonces(pool)
  {
    if NonceTaken(pool, n) {
      var j :| 0 <= j < |pool| && pool[j].nonce == n;
      assert pool[j] in pool;
    }
  }

  /** The chain can always answer the question for the pending count, and in one way only. */
  lemma PendingCountIs(s: State, n: nat)
    ensures PendingCount(s, n) <==> n == Pending(s)
  {
    FirstFreeIs(Nonces(s.pool), s.baseNonce);
    TakenIffPooled(s.pool, n);
    TakenIffPooled(s.pool, Pending(s));
    forall m: nat
      ensures NonceTaken(s.pool, m) <==> m in Nonces(s.pool)
    {
      TakenIffPooled(s.pool, m);
    }
  }

  // ----- and a claim never gets stuck

  /** The next action of a claim that meets no failure: whatever it asks is answered, and truthfully. */
  ghost function Forward(s: State, c: ClaimId): Action
    requires c in s.claims
  {
    match s.claims[c].pc
    case Selecting =>
      if k :| k in s.coupons && Claimable(s.coupons[k], s.claims[c].user, s.claims[c].code) then Select(k) else Reject
    case Selected => Cas(Acked)
    case Won => Enqueue
    case Waiting(_) => Enter
    case Acquiring(_) => if LockHeld(s) then SetBusy else SetOk
    case Bailing => ReleaseLocal
    case Undoing => Undo(Acked)
    case Locked => ReadNonce(Pending(s))
    case Nonced(_) => Sign("")
    case BuildFailed => Undo(Acked)
    case Signed(_, _) => RecordHash(Acked)
    case Recorded(_, _) => Send(true, true)
    case Probing(h, _) => if Known(s.pool, h) then ProbeFound else ProbeMissing
    case Disproved(_) => Undo(Acked)
    case Releasing(_) => Unlock(true)
    case Leaving(_) => ReleaseLocal
    case Confirming(_) => Confirm(true)
    case Done(_) => Reject
  }

  /** Every claim of a running process can go on, unless it waits for its turn or is done. */
  lemma ForwardIsOpen(s: State, c: ClaimId)
    requires Inv(s) && c in s.claims && Running(s, c) && !s.claims[c].pc.Done?
    requires var pc := s.claims[c].pc;
             pc.Waiting? && pc.prev.Some? ==> pc.prev.value in s.claims && Resolved(s.claims[pc.prev.value].pc)
    ensures CanAct(s, c, Forward(s, c))
  {
    PendingCountIs(s, Pending(s));
    assert PickedOk(s, s.claims[c]);
  }

  lemma {:induction false} SomeoneCanAct(s: State, i: InstanceId, x: nat) returns (y: nat)
    requires Inv(s) && QueueOk(s) && i in s.instances && s.instances[i].alive
    requires x < |s.instances[i].arrivals| && s.instances[i].arrivals[x] in s.claims
    requires !s.claims[s.instances[i].arrivals[x]].pc.Done?
    ensures y <= x && s.instances[i].arrivals[y] in s.claims
    ensures var c := s.instances[i].arrivals[y];
            s.claims[c].instance == i && CanAct(s, c, Forward(s, c))
    decreases x
  {
    var c := s.instances[i].arrivals[x];
    assert ArrivalOk(s, i, x);
    y := x;
    if s.claims[c].pc.Waiting? && x > 0 {
      assert ArrivalOk(s, i, x - 1);
      if !Resolved(s.claims[s.instances[i].arrivals[x - 1]].pc) {
        y := SomeoneCanAct(s, i, x - 1);
        return;
      }
    }
    ForwardIsOpen(s, c);
  }

  // ----- every queued claim finishes

  function RankOf(s: State, c: ClaimId): nat {
    if c in s.claims then Rank(s.claims[c].pc) else 0
  }

  /** The steps that the claims of a queue can still take, all together. */
  function TotalRank(s: State, q: seq<ClaimId>): nat {
    if q == [] then 0 else RankOf(s, q[0]) + TotalRank(s, q[1..])
  }

  lemma {:induction false} TotalDrops(s: State, s': State, q: seq<ClaimId>, moved: set<ClaimId>)
    requires forall c | c in q :: RankOf(s', c) <= RankOf(s, c)
    requires forall c | c in q && c in moved :: RankOf(s', c) < RankOf(s, c)
    ensures TotalRank(s', q) <= TotalRank(s, q)
    ensures (exists c :: c in q && c in moved) ==> TotalRank(s', q) < TotalRank(s, q)
    decreases |q|
  {
    if q != [] {
      assert q == [q[0]] + q[1..];
      TotalDrops(s, s', q[1..], moved);
    }
  }

  lemma StepRanks(s: State, e: Event, c: ClaimId)
    requires Enabled(s, e) && c in s.claims
    ensures c in Apply(s, e).claims && RankOf(Apply(s, e), c) <= RankOf(s, c)
    ensures e.Act? && e.claim == c ==> RankOf(Apply(s, e), c) < RankOf(s, c)
  {
    if e.Act? {
      ActCosts(s, e.claim, e.action);
    }
  }

  /** How many steps of a run are taken by the claims of a queue. */
  function ActsOf(es: seq<Event>, q: seq<ClaimId>): nat {
    if es == [] then 0 else (if es[0].Act? && es[0].claim in q then 1 else 0) + ActsOf(es[1..], q)
  }

  lemma StepDrops(s: State, e: Event, q: seq<ClaimId>)
    requires Enabled(s, e) && forall c | c in q :: c in s.claims
    ensures ActsOf([e], q) + TotalRank(Apply(s, e), q) <= TotalRank(s, q)
    ensures forall c | c in q :: c in Apply(s, e).claims
  {
    forall c | c in q
      ensures c in Apply(s, e).claims && RankOf(Apply(s, e), c) <= RankOf(s, c)
      ensures e.Act? && e.claim == c ==> RankOf(Apply(s, e), c) < RankOf(s, c)
    {
      StepRanks(s, e, c);
    }
    var moved := if e.Act? then {e.claim} else {};
    TotalDrops(s, Apply(s, e), q, moved);
    assert e.Act? && e.claim in q ==> e.claim in moved;
  }

  lemma {:induction false} RunDrops(s: State, es: seq<Event>, q: seq<ClaimId>)
    requires IsRun(s, es) && forall c | c in q :: c in s.claims
    ensures ActsOf(es, q) + TotalRank(Exec(s, es), q) <= TotalRank(s, q)
    decreases |es|
  {
    if es != [] {
      StepDrops(s, es[0], q);
      RunDrops(Apply(s, es[0]), es[1..], q);
    }
  }

  /** The claims of an instance up to the one that arrived as number `x`. */
  function UpTo(s: State, i: InstanceId, x: nat): seq<ClaimId>
    requires i in s.instances && x < |s.instances[i].arrivals|
  {
    s.instances[i].arrivals[..x + 1]
  }

  lemma {:induction false} ArrivalsStay(s: State, es: seq<Event>, i: InstanceId)
    requires IsRun(s, es) && i in s.instances
    ensures i in Exec(s, es).instances && s.instances[i].arrivals <= Exec(s, es).instances[i].arrivals
    decreases |es|
  {
    if es != [] {
      ArrivalsStay(Apply(s, es[0]), es[1..], i);
    }
  }

  lemma ArrivalsExist(s: State, i: InstanceId, x: nat)
    requires QueueOk(s) && i in s.instances && x < |s.instances[i].arrivals|
    ensures forall c | c in UpTo(s, i, x) :: c in s.claims
  {
    forall y: nat | y <= x
      ensures s.instances[i].arrivals[y] in s.claims
    {
      assert ArrivalOk(s, i, y);
    }
  }

  /**
   However a run goes on, and whatever the claims are answered: the claims up to a queued one take
   at most their total rank of steps, and as long as the process runs and the queued claim is not
   done, one of them can take the next.
   */
  lemma QueueCannotStall(s: State, es: seq<Event>, i: InstanceId, x: nat)
    requires Inv(s) && QueueOk(s) && IsRun(s, es) && i in s.instances && x < |s.instances[i].arrivals|
    ensures var t, q := Exec(s, es), UpTo(s, i, x);
            && ActsOf(es, q) + TotalRank(t, q) <= TotalRank(s, q)
            && i in t.instances && q[x] in t.claims
            && (t.instances[i].alive && !t.claims[q[x]].pc.Done? ==>
                  exists c, a :: c in q && c in t.claims && CanAct(t, c, a))
  {
    var t, q := Exec(s, es), UpTo(s, i, x);
    ArrivalsExist(s, i, x);
    RunDrops(s, es, q);
    ArrivalsStay(s, es, i);
    RunKeeps(s, es);
    RunKeepsQueue(s, es);
    assert ArrivalOk(t, i, x) && t.instances[i].arrivals[x] == q[x];
    if t.instances[i].alive && !t.claims[q[x]].pc.Done? {
      var y := SomeoneCanAct(t, i, x);
      assert t.instances[i].arrivals[y] == q[y];
    }
  }

  predicate OnlyActsOf(es: seq<Event>, q: seq<ClaimId>) {
    forall e | e in es :: e.Act? && e.claim in q
  }

  lemma QueuedActLeavesArrivals(s: State, c: ClaimId, a: Action)
    requires c in s.claims && Queued(s.claims[c].pc) && CanAct(s, c, a)
    ensures Act1(s, c, a).instances == s.instances
  {
  }

  lemma QueueStep(s: State, i: InstanceId, x: nat) returns (e: Event)
    requires Inv(s) && QueueOk(s) && i in s.instances && s.instances[i].alive && x < |s.instances[i].arrivals|
    requires var c := UpTo(s, i, x)[x]; c !in s.claims || !s.claims[c].pc.Done?
    ensures e.Act? && e.claim in UpTo(s, i, x) && Enabled(s, e)
    ensures Inv(Apply(s, e)) && QueueOk(Apply(s, e)) && Apply(s, e).instances == s.instances
    ensures TotalRank(Apply(s, e), UpTo(s, i, x)) < TotalRank(s, UpTo(s, i, x))
  {
    var q := UpTo(s, i, x);
    ArrivalsExist(s, i, x);
    assert q[x] in q;
    var y := SomeoneCanAct(s, i, x);
    e := Act(q[y], Forward(s, q[y]));
    assert ArrivalOk(s, i, y) && q[y] in q;
    QueuedActLeavesArrivals(s, q[y], e.action);
    StepKeeps(s, e);
    StepKeepsQueue(s, e);
    StepDrops(s, e, q);
    assert ActsOf([e], q) == 1;
  }

  /** Every queued claim of a running process finishes, by steps of itself and of those before it alone. */
  lemma {:induction false} EveryQueuedClaimFinishes(s: State, i: InstanceId, x: nat) returns (es: seq<Event>)
    requires Inv(s) && QueueOk(s) && i in s.instances && s.instances[i].alive && x < |s.instances[i].arrivals|
    ensures var q := UpTo(s, i, x);
            && IsRun(s, es) && OnlyActsOf(es, q) && |es| <= TotalRank(s, q)
            && q[x] in Exec(s, es).claims && Exec(s, es).claims[q[x]].pc.Done?
    decreases TotalRank(s, UpTo(s, i, x))
  {
    var c := UpTo(s, i, x)[x];
    es := [];
    if c !in s.claims || !s.claims[c].pc.Done? {
      var e := QueueStep(s, i, x);
      var rest := EveryQueuedClaimFinishes(Apply(s, e), i, x);
      es := [e] + rest;
    }
  }

  /** And so from every reachable state. */
  lemma ReachableQueueFinishes(cfg: Config, base: nat, past: seq<Event>, i: InstanceId, x: nat) returns (es: seq<Event>)
    requires IsRun(Init(cfg, base), past)
    requires var s := Exec(Init(cfg, base), past);
             i in s.instances && s.instances[i].alive && x < |s.instances[i].arrivals|
    ensures var s := Exec(Init(cfg, base), past);
            var q := UpTo(s, i, x);
            && IsRun(s, es) && OnlyActsOf(es, q) && |es| <= MAX_STEPS * (x + 1)
            && q[x] in Exec(s, es).claims && Exec(s, es).claims[q[x]].pc.Done?
  {
    InitInv(cfg, base);
    RunKeeps(Init(cfg, base), past);
    RunKeepsQueue(Init(cfg, base), past);
    var s := Exec(Init(cfg, base), past);
    TotalIsBounded(s, UpTo(s, i, x));
    es := EveryQueuedClaimFinishes(s, i, x);
  }

  lemma {:induction false} TotalIsBounded(s: State, q: seq<ClaimId>)
    ensures TotalRank(s, q) <= MAX_STEPS * |q|
    decreases |q|
  {
    if q != [] {
      TotalIsBounded(s, q[1..]);
    }
  }

  /**
   No deadlock: in every reachable state of a running instance in which none of its claims can
   act, all of them are done.  Every exit of the section releases the next waiter.
   */
  lemma QuietMeansDone(cfg: Config, base: nat, es: seq<Event>, i: InstanceId)
    requires IsRun(Init(cfg, base), es)
    requires var s := Exec(Init(cfg, base), es);
             && i in s.instances && s.instances[i].alive
             && forall c, a | c in s.claims && s.claims[c].instance == i :: !CanAct(s, c, a)
    ensures var s := Exec(Init(cfg, base), es);
            forall c | c in s.claims && s.claims[c].instance == i :: s.claims[c].pc.Done?
  {
    var s := Exec(Init(cfg, base), es);
    InitInv(cfg, base);
    RunKeeps(Init(cfg, base), es);
    RunKeepsQueue(Init(cfg, base), es);
    forall c | c in s.claims && s.claims[c].instance == i
      ensures s.claims[c].pc.Done?
    {
      if !s.claims[c].pc.Done? {
        if Queued(s.claims[c].pc) {
          var x :| 0 <= x < |s.instances[i].arrivals| && s.instances[i].arrivals[x] == c;
          var y := SomeoneCanAct(s, i, x);
        } else {
          ForwardIsOpen(s, c);
        }
      }
    }
  }
}
