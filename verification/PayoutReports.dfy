/**
 What each answer of a claim means: over every run, the outcome is decided by what the claim was
 told on its way - by Redis, the database, the chain and the receipt - and by nothing else.
 */
module PayoutReports {
  import opened Wrappers
  import opened Coupons
  import opened Payout
  import opened PayoutSafety

  datatype ProbeWord = SaidFound | SaidMissing | SaidNothing

  /** All that a claim has been told, and what it gave up on its own. */
  datatype Log = Log(
    rejected: bool,              // no coupon to claim
    readError: bool,
    swap: Option<Write>,
    queued: bool,
    busy: nat,                   // SETs that answered nil
    lockError: bool,
    locked: bool,                // a SET answered OK
    buildError: bool,
    signed: Option<TxHash>,
    recorded: Option<Write>,
    replied: Option<bool>,       // the send
    probes: nat,
    lastProbe: Option<ProbeWord>,
    undone: Option<Write>,
    receipt: Option<bool>)

  const NOTHING_YET :=
    Log(false, false, None, false, 0, false, false, false, None, None, None, 0, None, None, None)

  function Noted(f: Log, a: Action): Log {
    match a
    case Reject => f.(rejected := true)
    case ReadError => f.(readError := true)
    case Cas(w) => f.(swap := Some(w))
    case Enqueue => f.(queued := true)
    case SetBusy => f.(busy := f.busy + 1)
    case SetError(_) => f.(lockError := true)
    case SetOk => f.(locked := true)
    case BuildError => f.(buildError := true)
    case Sign(h) => f.(signed := Some(h))
    case RecordHash(w) => f.(recorded := Some(w))
    case Send(_, replied) => f.(replied := Some(replied))
    case ProbeFound => f.(probes := f.probes + 1, lastProbe := Some(SaidFound))
    case ProbeMissing => f.(probes := f.probes + 1, lastProbe := Some(SaidMissing))
    case ProbeError => f.(probes := f.probes + 1, lastProbe := Some(SaidNothing))
    case Undo(w) => f.(undone := Some(w))
    case Confirm(ok) => f.(receipt := Some(ok))
    case _ => f
  }

  /** The log of a claim over a run, continuing from `f`. */
  function LogOf(f: Log, es: seq<Event>, c: ClaimId): Log
    decreases |es|
  {
    if es == [] then f
    else LogOf(if es[0].Act? && es[0].claim == c then Noted(f, es[0].action) else f, es[1..], c)
  }

  // ----- what a claim has been told when it stands at a point

  function Queuing(): Log {
    NOTHING_YET.(swap := Some(Acked), queued := true)
  }

  /** Inside the lock, after so many busy answers. */
  function Inside(busy: nat): Log {
    Queuing().(busy := busy, locked := true)
  }

  function Sending(busy: nat, h: TxHash): Log {
    Inside(busy).(signed := Some(h), recorded := Some(Acked))
  }

  /** The lock could not be had: every attempt was told "busy", or one failed. */
  predicate Barred(f: Log) {
    && f == Queuing().(busy := f.busy, lockError := f.lockError)
    && if f.lockError then f.busy < 120 else f.busy == 120
  }

  /** Three probes after a failed send, the last of which told that there is no such transaction. */
  predicate Missing(f: Log, h: TxHash) {
    f == Sending(f.busy, h).(replied := Some(false), probes := 3, lastProbe := Some(SaidMissing))
  }

  predicate GaveUp(f: Log) {
    || Barred(f)
    || (f.busy < 120 && f == Inside(f.busy).(buildError := true))
    || (f.busy < 120 && f.signed.Some? && Missing(f, f.signed.value))
  }

  /** After a rollback was tried. */
  predicate RolledBack(f: Log, w: Write) {
    f.undone == Some(w) && GaveUp(f.(undone := None))
  }

  predicate Answers(o: Outcome, f: Log) {
    match o
    case Refused => f == NOTHING_YET.(rejected := true) || f == NOTHING_YET.(swap := Some(Acked))
    case Fault =>
      || f == NOTHING_YET.(readError := true)
      || (f == NOTHING_YET.(swap := f.swap) && f.swap.Some? && !f.swap.value.Acked?)
      || (f.undone.Some? && !f.undone.value.Acked? && RolledBack(f, f.undone.value))
      || (f.signed.Some? && f.recorded.Some? && !f.recorded.value.Acked? && f.busy < 120
          && f == Inside(f.busy).(signed := f.signed, recorded := f.recorded))
    case Busy => RolledBack(f, Acked) && !f.locked
    case NotSent => RolledBack(f, Acked) && f.locked
    case Paid(h) => f.busy < 120 && f == Sending(f.busy, h).(replied := Some(true), receipt := Some(true))
    case Unconfirmed(h) =>
      && f.busy < 120
      && (|| f == Sending(f.busy, h).(replied := Some(true), receipt := Some(false))
          || (1 <= f.probes <= 3
              && f == Sending(f.busy, h).(replied := Some(false), probes := f.probes, lastProbe := Some(SaidFound))))
    case Unverified(h) =>
      && f.busy < 120
      && f == Sending(f.busy, h).(replied := Some(false), probes := 3, lastProbe := Some(SaidNothing))
  }

  /** The receipt of a send that was replied to is still to come. */
  predicate Unreceipted(f: Log, h: TxHash) {
    f.busy < 120 && f == Sending(f.busy, h).(replied := Some(true))
  }

  predicate Fits(pc: Pc, f: Log) {
    match pc
    case Selecting => f == NOTHING_YET
    case Selected => f == NOTHING_YET
    case Won => f == NOTHING_YET.(swap := Some(Acked))
    case Waiting(_) => f == Queuing()
    case Acquiring(k) => 1 <= k <= 120 && f == Queuing().(busy := k - 1)
    case Bailing => Barred(f)
    case Undoing => Barred(f)
    case Locked => f.busy < 120 && f == Inside(f.busy)
    case Nonced(_) => f.busy < 120 && f == Inside(f.busy)
    case BuildFailed => f.busy < 120 && f == Inside(f.busy).(buildError := true)
    case Signed(_, h) => f.busy < 120 && f == Inside(f.busy).(signed := Some(h))
    case Recorded(_, h) => f.busy < 120 && f == Sending(f.busy, h)
    case Probing(h, k) =>
      && f.busy < 120 && 1 <= k <= 3
      && f == Sending(f.busy, h).(replied := Some(false), probes := k - 1, lastProbe := f.lastProbe)
    case Disproved(h) => f.busy < 120 && Missing(f, h)
    case Releasing(o) => if o.Paid? then Unreceipted(f, o.hash) else Answers(o, f)
    case Leaving(o) => if o.Paid? then Unreceipted(f, o.hash) else Answers(o, f)
    case Confirming(h) => Unreceipted(f, h)
    case Done(o) => Answers(o, f)
  }

  lemma EarlyFits(s: State, c: ClaimId, a: Action, f: Log)
    requires c in s.claims && CanAct(s, c, a) && Fits(s.claims[c].pc, f)
    requires !Owner(s.claims[c].pc) || s.claims[c].pc.Won? || s.claims[c].pc.Waiting? || s.claims[c].pc.Acquiring?
    ensures Fits(NextPc(s, c, a), Noted(f, a))
  {
  }

  lemma UndoFits(s: State, c: ClaimId, w: Write, f: Log)
    requires c in s.claims && CanAct(s, c, Undo(w)) && Fits(s.claims[c].pc, f)
    ensures Fits(NextPc(s, c, Undo(w)), Noted(f, Undo(w)))
  {
    var g := Noted(f, Undo(w));
    assert g.(undone := None) == f && GaveUp(f);
    assert RolledBack(g, w);
  }

  lemma LateFits(s: State, c: ClaimId, a: Action, f: Log)
    requires c in s.claims && CanAct(s, c, a) && Fits(s.claims[c].pc, f) && !a.Undo?
    requires var pc := s.claims[c].pc;
             pc.Bailing? || pc.Locked? || pc.Nonced? || pc.Signed? || pc.Recorded? || pc.Probing?
    ensures Fits(NextPc(s, c, a), Noted(f, a))
  {
  }

  lemma ActFits(s: State, c: ClaimId, a: Action, f: Log)
    requires c in s.claims && CanAct(s, c, a) && Fits(s.claims[c].pc, f)
    ensures Fits(NextPc(s, c, a), Noted(f, a))
  {
    var pc := s.claims[c].pc;
    if a.Undo? {
      UndoFits(s, c, a.write, f);
    } else if pc.Bailing? || pc.Locked? || pc.Nonced? || pc.Signed? || pc.Recorded? || pc.Probing? {
      LateFits(s, c, a, f);
    } else {
      EarlyFits(s, c, a, f);
    }
  }

  lemma {:induction false} RunFits(s: State, es: seq<Event>, c: ClaimId, f: Log)
    requires IsRun(s, es) && c in Exec(s, es).claims
    requires if c in s.claims then Fits(s.claims[c].pc, f) else f == NOTHING_YET
    ensures Fits(Exec(s, es).claims[c].pc, LogOf(f, es, c))
    decreases |es|
  {
    if es != [] {
      if es[0].Act? && es[0].claim == c {
        ActFits(s, c, es[0].action, f);
        RunFits(Apply(s, es[0]), es[1..], c, Noted(f, es[0].action));
      } else {
        RunFits(Apply(s, es[0]), es[1..], c, f);
      }
    }
  }

  // ----- what an answer means

  predicate Unacknowledged(w: Option<Write>) {
    w.Some? && !w.value.Acked?
  }

  lemma SentAnswers(o: Outcome, f: Log)
    requires Answers(o, f)
    ensures o.Paid? <==> f.receipt == Some(true)
    ensures o.Unconfirmed? <==> f.receipt == Some(false) || f.lastProbe == Some(SaidFound)
  {
  }

  lemma DoubtfulAnswers(o: Outcome, f: Log)
    requires Answers(o, f)
    ensures o.Unverified? <==> f.probes == 3 && f.lastProbe == Some(SaidNothing)
    ensures o.Paid? || o.Unconfirmed? || o.Unverified? ==> f.signed == Some(o.hash)
  {
  }

  lemma UnsentAnswers(o: Outcome, f: Log)
    requires Answers(o, f)
    ensures o.NotSent? <==> f.undone == Some(Acked) && f.locked
    ensures o.Busy? <==> f.undone == Some(Acked) && !f.locked
    ensures o.Refused? <==> f.rejected || (f.swap == Some(Acked) && !f.queued)
  {
  }

  lemma FaultAnswers(o: Outcome, f: Log)
    requires Answers(o, f)
    ensures o.Fault? <==>
            f.readError || Unacknowledged(f.swap) || Unacknowledged(f.recorded) || Unacknowledged(f.undone)
  {
  }

  lemma UndoneAnswers(o: Outcome, f: Log)
    requires Answers(o, f)
    ensures f.undone.Some? <==>
            f.busy == 120 || f.lockError || f.buildError || (f.probes == 3 && f.lastProbe == Some(SaidMissing))
  {
  }

  /**
   Over every run, each answer means exactly this: paid iff the receipt said so; unconfirmed iff it did
   not, or a failed send was found on the chain; unverified iff the third probe got no answer; "please
   retry" and "busy" iff a rollback was acknowledged, with and without the lock; refused iff there was
   no coupon to claim or the swap was lost; a fault iff a read or a write was not acknowledged.  And a
   rollback was tried iff the lock was refused 120 times or failed, or nothing was built, or the third
   probe told that the transaction is not there.
   */
  lemma WhatAnswersMean(cfg: Config, base: nat, es: seq<Event>, c: ClaimId, o: Outcome, f: Log)
    requires IsRun(Init(cfg, base), es) && c in Exec(Init(cfg, base), es).claims
    requires Exec(Init(cfg, base), es).claims[c].pc == Done(o) && f == LogOf(NOTHING_YET, es, c)
    ensures o.Paid? <==> f.receipt == Some(true)
    ensures o.Unconfirmed? <==> f.receipt == Some(false) || f.lastProbe == Some(SaidFound)
    ensures o.Unverified? <==> f.probes == 3 && f.lastProbe == Some(SaidNothing)
    ensures o.Paid? || o.Unconfirmed? || o.Unverified? ==> f.signed == Some(o.hash)
    ensures o.NotSent? <==> f.undone == Some(Acked) && f.locked
    ensures o.Busy? <==> f.undone == Some(Acked) && !f.locked
    ensures o.Refused? <==> f.rejected || (f.swap == Some(Acked) && !f.queued)
    ensures o.Fault? <==>
            f.readError || Unacknowledged(f.swap) || Unacknowledged(f.recorded) || Unacknowledged(f.undone)
    ensures f.undone.Some? <==>
            f.busy == 120 || f.lockError || f.buildError || (f.probes == 3 && f.lastProbe == Some(SaidMissing))
  {
    LogFits(cfg, base, es, c, o, f);
    SentAnswers(o, f);
    DoubtfulAnswers(o, f);
    UnsentAnswers(o, f);
    FaultAnswers(o, f);
    UndoneAnswers(o, f);
  }

  lemma LogFits(cfg: Config, base: nat, es: seq<Event>, c: ClaimId, o: Outcome, f: Log)
    requires IsRun(Init(cfg, base), es) && c in Exec(Init(cfg, base), es).claims
    requires Exec(Init(cfg, base), es).claims[c].pc == Done(o) && f == LogOf(NOTHING_YET, es, c)
    ensures Answers(o, f)
  {
    RunFits(Init(cfg, base), es, c, NOTHING_YET);
  }
}
