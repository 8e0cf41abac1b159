/**
 The price service's caches: the spot price under one key, each history series under its own.
 Requests, upstream answers and the passing of time interleave in any way between awaits.
 */
module PriceCache {
  import opened Wrappers

  type Snapshot = string
  type FetchId = nat
  type CallerId = nat

  datatype Key = Spot | History(coingeckoId: string, range: string)

  datatype Entry = Entry(snapshot: Snapshot, expiresAt: nat)

  datatype Status = Calling | Succeeded(snapshot: Snapshot) | Failed

  /** An upstream call; `cleared` once its `finally` has removed the in-flight entry. */
  datatype Fetch = Fetch(key: Key, status: Status, cleared: bool)

  datatype Answer =
    | Hit(snapshot: Snapshot)       // cached and not expired
    | Fetched(snapshot: Snapshot)   // what the awaited call brought
    | Stale(snapshot: Snapshot)     // cached, served because the awaited call failed
    | Unavailable

  /** `cached` is the entry that a history request read before it waited. */
  datatype Caller =
    | Awaiting(key: Key, fetch: FetchId, cached: Option<Entry>)
    | Answered(key: Key, awaited: Option<FetchId>, answer: Answer)

  datatype State = State(
    now: nat,
    cache: map<Key, Entry>,
    inFlight: map<Key, FetchId>,
    fetches: map<FetchId, Fetch>,
    callers: map<CallerId, Caller>)

  datatype Event =
    | Tick(ms: nat)
    | Request(caller: CallerId, key: Key, newFetch: FetchId)
    | UpstreamAnswers(fetch: FetchId, snapshot: Snapshot, ttlMs: nat)
    | UpstreamFails(fetch: FetchId)
    | Finally(fetch: FetchId)
    | Resume(caller: CallerId)

  function Cached(s: State, key: Key): Option<Entry> {
    if key in s.cache then Some(s.cache[key]) else None
  }

  predicate FreshlyCached(s: State, key: Key) {
    key in s.cache && s.now < s.cache[key].expiresAt
  }

  predicate Enabled(s: State, e: Event) {
    match e
    case Tick(_) => true
    case Request(c, _, f) => c !in s.callers && f !in s.fetches
    case UpstreamAnswers(f, _, _) => f in s.fetches && s.fetches[f].status.Calling?
    case UpstreamFails(f) => f in s.fetches && s.fetches[f].status.Calling?
    case Finally(f) => f in s.fetches && !s.fetches[f].status.Calling? && !s.fetches[f].cleared
    case Resume(c) =>
      && c in s.callers && s.callers[c].Awaiting?
      && s.callers[c].fetch in s.fetches && s.fetches[s.callers[c].fetch].cleared
  }

  /** The entry a failed request falls back on: the spot price looks again, a history request keeps what it read. */
  function Fallback(s: State, caller: Caller): Option<Entry>
    requires caller.Awaiting?
  {
    if caller.key.Spot? then Cached(s, caller.key) else caller.cached
  }

  function AnswerTo(s: State, caller: Caller): Answer
    requires caller.Awaiting? && caller.fetch in s.fetches
  {
    match s.fetches[caller.fetch].status
    case Succeeded(snapshot) => Fetched(snapshot)
    case _ =>
      match Fallback(s, caller)
      case Some(entry) => Stale(entry.snapshot)
      case None => Unavailable
  }

  function Apply(s: State, e: Event): State
    requires Enabled(s, e)
  {
    match e
    case Tick(ms) => s.(now := s.now + ms)
    case Request(c, key, f) =>
      if FreshlyCached(s, key) then
        s.(callers := s.callers[c := Answered(key, None, Hit(s.cache[key].snapshot))])
      else if key in s.inFlight then
        s.(callers := s.callers[c := Awaiting(key, s.inFlight[key], Cached(s, key))])
      else
        s.(fetches := s.fetches[f := Fetch(key, Calling, false)],
           inFlight := s.inFlight[key := f],
           callers := s.callers[c := Awaiting(key, f, Cached(s, key))])
    case UpstreamAnswers(f, snapshot, ttl) =>
      s.(fetches := s.fetches[f := s.fetches[f].(status := Succeeded(snapshot))],
         cache := s.cache[s.fetches[f].key := Entry(snapshot, s.now + ttl)])
    case UpstreamFails(f) => s.(fetches := s.fetches[f := s.fetches[f].(status := Failed)])
    case Finally(f) =>
      s.(fetches := s.fetches[f := s.fetches[f].(cleared := true)], inFlight := s.inFlight - {s.fetches[f].key})
    case Resume(c) =>
      var caller := s.callers[c];
      s.(callers := s.callers[c := Answered(caller.key, Some(caller.fetch), AnswerTo(s, caller))])
  }

  predicate IsRun(s: State, es: seq<Event>)
    decreases |es|
  {
    es == [] || (Enabled(s, es[0]) && IsRun(Apply(s, es[0]), es[1..]))
  }

  function Exec(s: State, es: seq<Event>): State
    requires IsRun(s, es)
    decreases |es|
  {
    if es == [] then s else Exec(Apply(s, es[0]), es[1..])
  }

  const INITIAL := State(0, map[], map[], map[], map[])

  // ----- the invariant

  /** An in-flight entry and its call, from the start of the call to the end of its `finally`. */
  predicate SingleFlight(s: State) {
    && (forall k | k in s.inFlight ::
          var f := s.inFlight[k]; f in s.fetches && s.fetches[f].key == k && !s.fetches[f].cleared)
    && (forall f | f in s.fetches && !s.fetches[f].cleared ::
          s.fetches[f].key in s.inFlight && s.inFlight[s.fetches[f].key] == f)
    && (forall f | f in s.fetches && s.fetches[f].status.Calling? :: !s.fetches[f].cleared)
  }

  /** Some completed call for this key brought this snapshot. */
  predicate Genuine(s: State, key: Key, snapshot: Snapshot) {
    exists f :: f in s.fetches && s.fetches[f].key == key && s.fetches[f].status == Succeeded(snapshot)
  }

  predicate CallerOk(s: State, caller: Caller) {
    match caller
    case Awaiting(key, f, cached) =>
      && f in s.fetches && s.fetches[f].key == key
      && (cached.Some? ==> Genuine(s, key, cached.value.snapshot))
    case Answered(key, f, answer) =>
      && (answer.Hit? || answer.Fetched? || answer.Stale? ==> Genuine(s, key, answer.snapshot))
      && (f.Some? ==> f.value in s.fetches && s.fetches[f.value].key == key && s.fetches[f.value].cleared)
      && (answer.Hit? <==> f.None?)
      && (answer.Fetched? ==> s.fetches[f.value].status == Succeeded(answer.snapshot))
      && (answer.Stale? || answer.Unavailable? ==> s.fetches[f.value].status.Failed?)
  }

  predicate Inv(s: State) {
    && SingleFlight(s)
    && (forall k | k in s.cache :: Genuine(s, k, s.cache[k].snapshot))
    && (forall c | c in s.callers :: CallerOk(s, s.callers[c]))
  }

  lemma GenuineStays(s: State, e: Event, key: Key, snapshot: Snapshot)
    requires Enabled(s, e) && Genuine(s, key, snapshot)
    ensures Genuine(Apply(s, e), key, snapshot)
  {
    var f :| f in s.fetches && s.fetches[f].key == key && s.fetches[f].status == Succeeded(snapshot);
    assert f in Apply(s, e).fetches && Apply(s, e).fetches[f].status == Succeeded(snapshot);
  }

  lemma RequestSingleFlight(s: State, e: Event)
    requires SingleFlight(s) && Enabled(s, e) && e.Request?
    ensures SingleFlight(Apply(s, e))
  {
  }

  /** The removal by key removes the entry of the very call that has ended. */
  lemma FinallySingleFlight(s: State, e: Event)
    requires SingleFlight(s) && Enabled(s, e) && e.Finally?
    ensures SingleFlight(Apply(s, e))
  {
    assert s.inFlight[s.fetches[e.fetch].key] == e.fetch;
  }

  lemma SettleSingleFlight(s: State, e: Event)
    requires SingleFlight(s) && Enabled(s, e) && (e.UpstreamAnswers? || e.UpstreamFails?)
    ensures SingleFlight(Apply(s, e))
  {
  }

  lemma StepSingleFlight(s: State, e: Event)
    requires SingleFlight(s) && Enabled(s, e)
    ensures SingleFlight(Apply(s, e))
  {
    match e
    case Request(_, _, _) => RequestSingleFlight(s, e);
    case Finally(_) => FinallySingleFlight(s, e);
    case UpstreamAnswers(_, _, _) => SettleSingleFlight(s, e);
    case UpstreamFails(_) => SettleSingleFlight(s, e);
    case _ =>
  }

  lemma StepCache(s: State, e: Event, k: Key)
    requires Inv(s) && Enabled(s, e) && k in Apply(s, e).cache
    ensures Genuine(Apply(s, e), k, Apply(s, e).cache[k].snapshot)
  {
    if e.UpstreamAnswers? && s.fetches[e.fetch].key == k {
      assert Apply(s, e).fetches[e.fetch].status == Succeeded(e.snapshot);
    } else {
      GenuineStays(s, e, k, s.cache[k].snapshot);
    }
  }

  /** A caller that does not move keeps its standing. */
  lemma CallerStays(s: State, e: Event, caller: Caller)
    requires Enabled(s, e) && CallerOk(s, caller)
    ensures CallerOk(Apply(s, e), caller)
  {
    match caller
    case Awaiting(key, f, cached) =>
      if cached.Some? {
        GenuineStays(s, e, key, cached.value.snapshot);
      }
    case Answered(key, f, answer) =>
      if !answer.Unavailable? {
        GenuineStays(s, e, key, answer.snapshot);
      }
  }

  lemma RequestOk(s: State, e: Event)
    requires Inv(s) && Enabled(s, e) && e.Request?
    ensures CallerOk(Apply(s, e), Apply(s, e).callers[e.caller])
  {
    if e.key in s.cache {
      GenuineStays(s, e, e.key, s.cache[e.key].snapshot);
    }
  }

  lemma ResumeOk(s: State, e: Event)
    requires Inv(s) && Enabled(s, e) && e.Resume?
    ensures CallerOk(Apply(s, e), Apply(s, e).callers[e.caller])
  {
    var caller := s.callers[e.caller];
    assert CallerOk(s, caller);
    var a := AnswerTo(s, caller);
    if a.Fetched? {
      assert Genuine(s, caller.key, a.snapshot);
    }
    if !a.Unavailable? {
      GenuineStays(s, e, caller.key, a.snapshot);
    }
  }

  lemma StepKeeps(s: State, e: Event)
    requires Inv(s) && Enabled(s, e)
    ensures Inv(Apply(s, e))
  {
    var s' := Apply(s, e);
    StepSingleFlight(s, e);
    forall k | k in s'.cache
      ensures Genuine(s', k, s'.cache[k].snapshot)
    {
      StepCache(s, e, k);
    }
    forall c | c in s'.callers
      ensures CallerOk(s', s'.callers[c])
    {
      if e.Request? && e.caller == c {
        RequestOk(s, e);
      } else if e.Resume? && e.caller == c {
        ResumeOk(s, e);
      } else {
        CallerStays(s, e, s.callers[c]);
      }
    }
  }

  lemma {:induction false} RunKeeps(s: State, es: seq<Event>)
    requires Inv(s) && IsRun(s, es)
    ensures Inv(Exec(s, es))
    decreases |es|
  {
    if es != [] {
      StepKeeps(s, es[0]);
      RunKeeps(Apply(s, es[0]), es[1..]);
    }
  }

  // ----- every interleaving

  predicate Outstanding(s: State, f: FetchId, key: Key) {
    f in s.fetches && s.fetches[f].key == key && s.fetches[f].status.Calling?
  }

  /** No key ever has two upstream calls at once, and none without its in-flight entry. */
  lemma OneCallPerKey(es: seq<Event>, key: Key, f: FetchId, g: FetchId)
    requires IsRun(INITIAL, es)
    requires Outstanding(Exec(INITIAL, es), f, key) && Outstanding(Exec(INITIAL, es), g, key)
    ensures f == g && key in Exec(INITIAL, es).inFlight && Exec(INITIAL, es).inFlight[key] == f
  {
    RunKeeps(INITIAL, es);
  }

  /** An entry is there exactly while its call is outstanding or its `finally` is due. */
  lemma EntryIffUncleared(es: seq<Event>, key: Key)
    requires IsRun(INITIAL, es)
    ensures var s := Exec(INITIAL, es);
            key in s.inFlight <==> exists f :: f in s.fetches && s.fetches[f].key == key && !s.fetches[f].cleared
  {
    RunKeeps(INITIAL, es);
    var s := Exec(INITIAL, es);
    if key in s.inFlight {
      assert s.inFlight[key] in s.fetches;
    }
  }

  /** Every answer is a snapshot of a completed call for that key, or none; staleness takes a failed call. */
  lemma AnswersAreGenuine(es: seq<Event>, c: CallerId)
    requires IsRun(INITIAL, es)
    requires c in Exec(INITIAL, es).callers && Exec(INITIAL, es).callers[c].Answered?
    ensures var s := Exec(INITIAL, es);
            var Answered(key, f, answer) := s.callers[c];
            && (!answer.Unavailable? ==> Genuine(s, key, answer.snapshot))
            && (answer.Stale? || answer.Unavailable? ==>
                  f.Some? && f.value in s.fetches && s.fetches[f.value].status.Failed?)
  {
    RunKeeps(INITIAL, es);
    assert CallerOk(Exec(INITIAL, es), Exec(INITIAL, es).callers[c]);
  }

  // ----- what a request and a failure lead to

  function Calls(s: State, key: Key): set<FetchId> {
    set f | f in s.fetches && s.fetches[f].key == key
  }

  /** A request is answered at once exactly when the key is cached and its time to live is not over. */
  lemma AnsweredAtOnceIff(s: State, c: CallerId, key: Key, f: FetchId)
    requires Enabled(s, Request(c, key, f))
    ensures var s' := Apply(s, Request(c, key, f));
            && (s'.callers[c].Answered? <==> key in s.cache && s.now < s.cache[key].expiresAt)
            && (s'.callers[c].Answered? ==>
                  s'.callers[c].answer == Hit(s.cache[key].snapshot) && s'.fetches == s.fetches)
  {
  }

  /** Otherwise it waits: for the call that is in flight, or else for the one that it starts. */
  lemma WaitsForOneCall(s: State, c: CallerId, key: Key, f: FetchId)
    requires SingleFlight(s) && Enabled(s, Request(c, key, f))
    requires key !in s.cache || s.cache[key].expiresAt <= s.now
    ensures var s' := Apply(s, Request(c, key, f));
            var call := if key in s.inFlight then s.inFlight[key] else f;
            && s'.callers[c] == Awaiting(key, call, if key in s.cache then Some(s.cache[key]) else None)
            && Calls(s', key) == Calls(s, key) + {call} && call in s'.fetches && !s'.fetches[call].cleared
            && (key !in s.inFlight ==> Outstanding(s', f, key) && f !in s.fetches)
  {
  }

  predicate OnlyRequests(es: seq<Event>, key: Key) {
    forall e | e in es :: e.Request? && e.key == key
  }

  predicate AllAwait(s: State, es: seq<Event>, f: FetchId) {
    forall e | e in es && e.Request? ::
      e.caller in s.callers && s.callers[e.caller].Awaiting? && s.callers[e.caller].fetch == f
  }

  /** However many requests come while one call is in flight, none of them starts another. */
  lemma {:induction false} FollowersShareTheCall(s: State, es: seq<Event>, key: Key)
    requires SingleFlight(s) && IsRun(s, es) && OnlyRequests(es, key) && key in s.inFlight
    requires key !in s.cache || s.cache[key].expiresAt <= s.now
    ensures var t := Exec(s, es);
            && t.fetches == s.fetches && key in t.inFlight && t.inFlight[key] == s.inFlight[key]
            && AllAwait(t, es, s.inFlight[key])
    decreases |es|
  {
    if es != [] {
      var s1 := Apply(s, es[0]);
      assert es[0] in es && forall e | e in es[1..] :: e in es;
      WaitsForOneCall(s, es[0].caller, key, es[0].newFetch);
      StepSingleFlight(s, es[0]);
      FollowersShareTheCall(s1, es[1..], key);
      CallersStay(s1, es[1..], es[0].caller, key);
      assert es == [es[0]] + es[1..];
    }
  }

  /** A caller is not touched by the requests of others. */
  lemma {:induction false} CallersStay(s: State, es: seq<Event>, c: CallerId, key: Key)
    requires IsRun(s, es) && OnlyRequests(es, key) && c in s.callers
    ensures c in Exec(s, es).callers && Exec(s, es).callers[c] == s.callers[c]
    decreases |es|
  {
    if es != [] {
      assert es[0] in es && forall e | e in es[1..] :: e in es;
      CallersStay(Apply(s, es[0]), es[1..], c, key);
    }
  }

  lemma FirstStartsTheCall(s: State, es: seq<Event>, key: Key)
    requires SingleFlight(s) && IsRun(s, es) && OnlyRequests(es, key) && es != []
    requires key !in s.inFlight && (key !in s.cache || s.cache[key].expiresAt <= s.now)
    ensures es[0].Request? && es[0].newFetch !in s.fetches
    ensures var f, t := es[0].newFetch, Exec(s, es);
            Calls(t, key) == Calls(s, key) + {f} && Outstanding(t, f, key) && AllAwait(t, es, f)
  {
    assert es[0] in es && forall e | e in es[1..] :: e in es;
    var f, s1 := es[0].newFetch, Apply(s, es[0]);
    WaitsForOneCall(s, es[0].caller, key, f);
    StepSingleFlight(s, es[0]);
    FollowersShareTheCall(s1, es[1..], key);
    CallersStay(s1, es[1..], es[0].caller, key);
    assert es == [es[0]] + es[1..];
  }

  /** A burst of requests for a key that has expired, or was never cached, starts exactly one call, and all await it. */
  lemma BurstStartsOneCall(past: seq<Event>, es: seq<Event>, key: Key)
    requires IsRun(INITIAL, past) && IsRun(Exec(INITIAL, past), es) && OnlyRequests(es, key) && es != []
    requires var s := Exec(INITIAL, past);
             key !in s.inFlight && (key !in s.cache || s.cache[key].expiresAt <= s.now)
    ensures var s := Exec(INITIAL, past);
            var t := Exec(s, es);
            exists f ::
              f !in s.fetches && Calls(t, key) == Calls(s, key) + {f} && Outstanding(t, f, key) && AllAwait(t, es, f)
  {
    RunKeeps(INITIAL, past);
    FirstStartsTheCall(Exec(INITIAL, past), es, key);
  }

  /**
   What a caller is told when its call is over: what the call brought; or, after a failure, the cached
   snapshot - for the spot price the one cached by now, for a history the one it found when it asked -
   and "unavailable" only when there is none.
   */
  lemma ResumedAnswer(s: State, c: CallerId)
    requires Enabled(s, Resume(c))
    ensures var caller := s.callers[c];
            var answer := Apply(s, Resume(c)).callers[c].answer;
            var now := if Spot in s.cache then Some(s.cache[Spot]) else None;
            var held := if caller.key.Spot? then now else caller.cached;
            match s.fetches[caller.fetch].status
            case Succeeded(snapshot) => answer == Fetched(snapshot)
            case _ => answer == if held.Some? then Stale(held.value.snapshot) else Unavailable
  {
  }

  /** A caller that can still fall back on a cached snapshot, or has been answered with one. */
  predicate Secured(s: State, c: CallerId, key: Key) {
    && key in s.cache && c in s.callers && s.callers[c].key == key
    && (s.callers[c].Awaiting? ==> s.callers[c].cached.Some?)
    && (s.callers[c].Answered? ==> !s.callers[c].answer.Unavailable?)
  }

  lemma {:induction false} SecuredStays(s: State, es: seq<Event>, c: CallerId, key: Key)
    requires Secured(s, c, key) && IsRun(s, es)
    ensures Secured(Exec(s, es), c, key)
    decreases |es|
  {
    if es != [] {
      SecuredStays(Apply(s, es[0]), es[1..], c, key);
    }
  }

  /** Once a key has been cached, no request for it is ever answered "unavailable", whatever fails. */
  lemma NeverUnavailableOnceCached(s: State, c: CallerId, key: Key, f: FetchId, es: seq<Event>)
    requires Enabled(s, Request(c, key, f)) && key in s.cache && IsRun(Apply(s, Request(c, key, f)), es)
    ensures var t := Exec(Apply(s, Request(c, key, f)), es);
            c in t.callers && (t.callers[c].Answered? ==> !t.callers[c].answer.Unavailable?)
  {
    SecuredStays(Apply(s, Request(c, key, f)), es, c, key);
  }

  /** An answer that is given at once is not expired; any other is the awaited call's own, or follows its failure. */
  lemma ExpiredOnlyAfterFailure(s: State, e: Event, c: CallerId)
    requires Inv(s) && Enabled(s, e)
    requires c in Apply(s, e).callers && Apply(s, e).callers[c].Answered?
    requires c !in s.callers || s.callers[c].Awaiting?
    ensures var Answered(key, f, answer) := Apply(s, e).callers[c];
            && (answer.Hit? ==>
                  key in s.cache && s.now < s.cache[key].expiresAt && answer.snapshot == s.cache[key].snapshot)
            && (answer.Fetched? ==>
                  f.Some? && f.value in s.fetches && s.fetches[f.value].status == Succeeded(answer.snapshot))
            && (answer.Stale? ==> f.Some? && f.value in s.fetches && s.fetches[f.value].status.Failed?)
  {
    if e.Resume? {
      assert CallerOk(s, s.callers[e.caller]);
      ResumeOk(s, e);
    }
  }

  // ----- expiry, and what was cached, over runs

  /** What is cached for a key is what its last successful call brought, until the given time after it. */
  datatype Brought = Brought(snapshot: Snapshot, expiresAt: nat)

  function LastBrought(s: State, es: seq<Event>, key: Key): Option<Brought>
    requires IsRun(s, es)
    decreases |es|
  {
    if es == [] then None
    else
      var later := LastBrought(Apply(s, es[0]), es[1..], key);
      if later.Some? then later
      else if es[0].UpstreamAnswers? && s.fetches[es[0].fetch].key == key
      then Some(Brought(es[0].snapshot, s.now + es[0].ttlMs))
      else None
  }

  lemma {:induction false} CacheIsLastBrought(s: State, es: seq<Event>, key: Key)
    requires IsRun(s, es)
    ensures var t := Exec(s, es);
            match LastBrought(s, es, key)
            case Some(b) => key in t.cache && t.cache[key] == Entry(b.snapshot, b.expiresAt)
            case None => (key in t.cache <==> key in s.cache) && (key in s.cache ==> t.cache[key] == s.cache[key])
    decreases |es|
  {
    if es != [] {
      CacheIsLastBrought(Apply(s, es[0]), es[1..], key);
    }
  }

  /** Over every run: a request is answered at once iff the last answer for the key is younger than its time to live. */
  lemma AtOnceIffYoung(es: seq<Event>, c: CallerId, key: Key, f: FetchId)
    requires IsRun(INITIAL, es) && Enabled(Exec(INITIAL, es), Request(c, key, f))
    ensures var s := Exec(INITIAL, es);
            var b := LastBrought(INITIAL, es, key);
            var caller := Apply(s, Request(c, key, f)).callers[c];
            && (caller.Answered? <==> b.Some? && s.now < b.value.expiresAt)
            && (caller.Answered? ==> caller.answer == Hit(b.value.snapshot))
  {
    CacheIsLastBrought(INITIAL, es, key);
    AnsweredAtOnceIff(Exec(INITIAL, es), c, key, f);
  }

  // ----- within the time to live

  /** The key holds this entry and no call for it is outstanding. */
  predicate Settled(s: State, key: Key, entry: Entry) {
    && key in s.cache && s.cache[key] == entry
    && forall f | f in s.fetches && s.fetches[f].key == key :: !s.fetches[f].status.Calling?
  }

  lemma AnswerSettles(s: State, f: FetchId, snapshot: Snapshot, ttlMs: nat)
    requires SingleFlight(s) && Enabled(s, UpstreamAnswers(f, snapshot, ttlMs))
    ensures Settled(Apply(s, UpstreamAnswers(f, snapshot, ttlMs)), s.fetches[f].key, Entry(snapshot, s.now + ttlMs))
  {
    assert s.inFlight[s.fetches[f].key] == f;
  }

  lemma SettledStep(s: State, e: Event, key: Key, entry: Entry)
    requires Settled(s, key, entry) && s.now < entry.expiresAt && Enabled(s, e)
    ensures Settled(Apply(s, e), key, entry) && Calls(Apply(s, e), key) == Calls(s, key)
    ensures e.Request? && e.key == key ==>
              Apply(s, e).callers[e.caller] == Answered(key, None, Hit(entry.snapshot))
  {
  }

  lemma {:induction false} TimeNeverGoesBack(s: State, es: seq<Event>)
    requires IsRun(s, es)
    ensures s.now <= Exec(s, es).now
    decreases |es|
  {
    if es != [] {
      TimeNeverGoesBack(Apply(s, es[0]), es[1..]);
    }
  }

  lemma {:induction false} SettledRun(s: State, es: seq<Event>, key: Key, entry: Entry)
    requires Settled(s, key, entry) && IsRun(s, es) && Exec(s, es).now < entry.expiresAt
    ensures Settled(Exec(s, es), key, entry) && Calls(Exec(s, es), key) == Calls(s, key)
    decreases |es|
  {
    if es != [] {
      TimeNeverGoesBack(Apply(s, es[0]), es[1..]);
      TimeNeverGoesBack(s, es);
      SettledStep(s, es[0], key, entry);
      SettledRun(Apply(s, es[0]), es[1..], key, entry);
    }
  }

  /**
   From an upstream answer until its time to live is over, whatever interleaves: no call for the
   key is started, and a request is answered at once with that snapshot.
   */
  lemma NoCallWithinTtl(past: seq<Event>, f: FetchId, snapshot: Snapshot, ttlMs: nat,
                        es: seq<Event>, c: CallerId, g: FetchId)
    requires IsRun(INITIAL, past) && Enabled(Exec(INITIAL, past), UpstreamAnswers(f, snapshot, ttlMs))
    requires IsRun(Apply(Exec(INITIAL, past), UpstreamAnswers(f, snapshot, ttlMs)), es)
    requires var s0 := Exec(INITIAL, past);
             var s := Exec(Apply(s0, UpstreamAnswers(f, snapshot, ttlMs)), es);
             s.now < s0.now + ttlMs && Enabled(s, Request(c, s0.fetches[f].key, g))
    ensures var s0 := Exec(INITIAL, past);
            var key := s0.fetches[f].key;
            var s := Exec(Apply(s0, UpstreamAnswers(f, snapshot, ttlMs)), es);
            && Calls(s, key) == Calls(s0, key)
            && Apply(s, Request(c, key, g)).callers[c] == Answered(key, None, Hit(snapshot))
            && Apply(s, Request(c, key, g)).fetches == s.fetches
  {
    var s0 := Exec(INITIAL, past);
    var key, entry := s0.fetches[f].key, Entry(snapshot, s0.now + ttlMs);
    var s1 := Apply(s0, UpstreamAnswers(f, snapshot, ttlMs));
    RunKeeps(INITIAL, past);
    AnswerSettles(s0, f, snapshot, ttlMs);
    assert Calls(s1, key) == Calls(s0, key);
    SettledRun(s1, es, key, entry);
  }
}
