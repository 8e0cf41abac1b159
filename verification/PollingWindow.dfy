/**
 The polling adapter: which of the transfers in an API window are new, given the list of hashes
 it stored last time.  An item of a window is `None` when it is malformed or invalid.
 */
module PollingWindow {
  import opened Wrappers

  type Item = Option<string>

  /** The hashes of the well-formed items, in order. */
  function Hashes(items: seq<Item>): seq<string> {
    if items == [] then []
    else Hashes(items[..|items| - 1]) + (if items[|items| - 1].Some? then [items[|items| - 1].value] else [])
  }

  /** `[...new Set(list)]`: each element once, where it stands first. */
  function Dedup(list: seq<string>): seq<string> {
    if list == [] then []
    else
      var init := Dedup(list[..|list| - 1]);
      if list[|list| - 1] in list[..|list| - 1] then init else init + [list[|list| - 1]]
  }

  /** Those not in `seen`, in order. */
  function Unseen(hashes: seq<string>, seen: seq<string>): seq<string> {
    if hashes == [] then []
    else Unseen(hashes[..|hashes| - 1], seen) +
         (if hashes[|hashes| - 1] in seen then [] else [hashes[|hashes| - 1]])
  }

  /** `list.slice(-n)`, for n > 0. */
  function LastN(list: seq<string>, n: nat): seq<string> {
    if |list| <= n then list else list[|list| - n..]
  }

  function Max1(n: nat): nat {
    if n > 1 then n else 1
  }

  /** The stored list after a poll. */
  function Stored(items: seq<Item>, seen: seq<string>): seq<string> {
    var unseen := Unseen(Hashes(items), seen);
    if unseen == [] then seen else LastN(Dedup(seen) + unseen, Max1(|items|))
  }

  class Adapter {
    var seenTxHashes: seq<string>

    constructor ()
      ensures seenTxHashes == []
    {
      seenTxHashes := [];
    }

    /** `None` stands for a poll whose API call failed. */
    method ReadForMerchant(rawTransfers: Option<seq<Item>>) returns (events: seq<string>)
      modifies this
      ensures rawTransfers.None? ==> events == [] && seenTxHashes == old(seenTxHashes)
      ensures rawTransfers.Some? ==>
                && events == Unseen(Hashes(rawTransfers.value), old(seenTxHashes))
                && seenTxHashes == Stored(rawTransfers.value, old(seenTxHashes))
                && (events == [] || |seenTxHashes| <= Max1(|rawTransfers.value|))
    {
      if rawTransfers.None? {
        return [];
      }
      var items := rawTransfers.value;
      var seen := seenTxHashes;
      events := [];
      var newHashes: seq<string> := [];
      for i := 0 to |items|
        invariant seenTxHashes == seen
        invariant events == newHashes == Unseen(Hashes(items[..i]), seen)
      {
        UnseenOneMore(items, seen, i);
        if items[i].None? || items[i].value in seen {
          continue;
        }
        events := events + [items[i].value];
        newHashes := newHashes + [items[i].value];
      }
      assert items[..|items|] == items;
      if |newHashes| > 0 {
        seenTxHashes := LastN(Dedup(seen) + newHashes, Max1(|items|));
      }
    }
  }

  lemma UnseenOneMore(items: seq<Item>, seen: seq<string>, i: nat)
    requires i < |items|
    ensures Unseen(Hashes(items[..i + 1]), seen) == Unseen(Hashes(items[..i]), seen) +
              (if items[i].Some? && items[i].value !in seen then [items[i].value] else [])
  {
    assert items[..i + 1][..i] == items[..i];
    var h := Hashes(items[..i]);
    if items[i].Some? {
      assert (h + [items[i].value])[..|h|] == h;
    } else {
      assert h + [] == h;
    }
  }

  // ----- lists

  lemma {:induction false} HashesConcat(a: seq<Item>, b: seq<Item>)
    ensures Hashes(a + b) == Hashes(a) + Hashes(b)
    decreases |b|
  {
    if b == [] {
      assert a + b == a;
    } else {
      var n := |b| - 1;
      assert (a + b)[..|a + b| - 1] == a + b[..n];
      HashesConcat(a, b[..n]);
    }
  }

  lemma {:induction false} HashesShort(items: seq<Item>)
    ensures |Hashes(items)| <= |items|
    decreases |items|
  {
    if items != [] {
      HashesShort(items[..|items| - 1]);
    }
  }

  predicate Distinct(list: seq<string>) {
    forall i, j | 0 <= i < j < |list| :: list[i] != list[j]
  }

  lemma {:induction false} DedupDistinct(list: seq<string>)
    requires Distinct(list)
    ensures Dedup(list) == list
    decreases |list|
  {
    if list != [] {
      DedupDistinct(list[..|list| - 1]);
    }
  }

  lemma {:induction false} UnseenNone(hashes: seq<string>, seen: seq<string>)
    requires forall h | h in hashes :: h in seen
    ensures Unseen(hashes, seen) == []
    decreases |hashes|
  {
    if hashes != [] {
      UnseenNone(hashes[..|hashes| - 1], seen);
    }
  }

  /** Old hashes first, all of them seen; then new ones, none of them seen. */
  lemma {:induction false} UnseenSuffix(a: seq<string>, b: seq<string>, seen: seq<string>)
    requires forall h | h in a :: h in seen
    requires forall h | h in b :: h !in seen
    ensures Unseen(a + b, seen) == b
    decreases |b|
  {
    if b == [] {
      assert a + b == a;
      UnseenNone(a, seen);
    } else {
      var n := |b| - 1;
      assert (a + b)[..|a + b| - 1] == a + b[..n];
      UnseenSuffix(a, b[..n], seen);
    }
  }

  // ----- windows over a history

  /** A window of the transfers so far, oldest first. */
  datatype Window = Window(from: nat, to: nat)

  predicate Fits(history: seq<Item>, w: Window) {
    w.from <= w.to <= |history|
  }

  /** The next window moves forward and overlaps or touches this one. */
  predicate Follows(w: Window, w': Window) {
    w.from <= w'.from <= w.to <= w'.to
  }

  function Items(history: seq<Item>, w: Window): seq<Item>
    requires Fits(history, w)
  {
    history[w.from..w.to]
  }

  /** The stored list is a stretch of the history that ends where the window ends and covers it. */
  ghost predicate Covers(history: seq<Item>, seen: seq<string>, w: Window)
    requires Fits(history, w)
  {
    exists a: nat :: a <= w.from && seen == Hashes(history[a..w.to])
  }

  lemma HashesOfStretch(history: seq<Item>, a: nat, b: nat, c: nat)
    requires a <= b <= c <= |history|
    ensures Hashes(history[a..c]) == Hashes(history[a..b]) + Hashes(history[b..c])
  {
    assert history[a..c] == history[a..b] + history[b..c];
    HashesConcat(history[a..b], history[b..c]);
  }

  lemma DistinctMiddle(before: seq<string>, mid: seq<string>, after: seq<string>)
    requires Distinct(before + mid + after)
    ensures Distinct(mid)
  {
    var all := before + mid + after;
    forall i, j | 0 <= i < j < |mid|
      ensures mid[i] != mid[j]
    {
      assert all[|before| + i] == mid[i] && all[|before| + j] == mid[j];
    }
  }

  lemma DistinctHalves(x: seq<string>, y: seq<string>)
    requires Distinct(x + y)
    ensures forall h | h in y :: h !in x
  {
    forall i, j | 0 <= i < |x| && 0 <= j < |y|
      ensures x[i] != y[j]
    {
      assert (x + y)[i] == x[i] && (x + y)[|x| + j] == y[j];
    }
  }

  lemma StretchDistinct(history: seq<Item>, a: nat, b: nat, c: nat)
    requires a <= b <= c <= |history| && Distinct(Hashes(history))
    ensures Distinct(Hashes(history[a..c]))
    ensures forall h | h in Hashes(history[b..c]) :: h !in Hashes(history[a..b])
  {
    HashesOfStretch(history, 0, c, |history|);
    HashesOfStretch(history, 0, a, c);
    assert history[0..|history|] == history;
    DistinctMiddle(Hashes(history[0..a]), Hashes(history[a..c]), Hashes(history[c..|history|]));
    HashesOfStretch(history, a, b, c);
    DistinctHalves(Hashes(history[a..b]), Hashes(history[b..c]));
  }

  /** What a poll of the next window emits: the hashes beyond the last window, and no other. */
  lemma PollEmits(history: seq<Item>, seen: seq<string>, w: Window, w': Window)
    requires Distinct(Hashes(history)) && Fits(history, w) && Fits(history, w') && Follows(w, w')
    requires Covers(history, seen, w)
    ensures Unseen(Hashes(Items(history, w')), seen) == Hashes(history[w.to..w'.to])
  {
    var a: nat :| a <= w.from && seen == Hashes(history[a..w.to]);
    HashesOfStretch(history, w'.from, w.to, w'.to);
    HashesOfStretch(history, a, w'.from, w.to);
    StretchDistinct(history, a, w.to, w'.to);
    UnseenSuffix(Hashes(history[w'.from..w.to]), Hashes(history[w.to..w'.to]), seen);
  }

  lemma StoredWhenNew(items: seq<Item>, seen: seq<string>, unseen: seq<string>)
    requires Distinct(seen) && Unseen(Hashes(items), seen) == unseen && unseen != []
    ensures Stored(items, seen) == LastN(seen + unseen, Max1(|items|))
  {
    DedupDistinct(seen);
  }

  lemma PollStoresNew(history: seq<Item>, seen: seq<string>, a: nat, w: Window, w': Window) returns (b: nat)
    requires Distinct(Hashes(history)) && Fits(history, w) && Fits(history, w') && Follows(w, w')
    requires a <= w.from && seen == Hashes(history[a..w.to])
    requires Unseen(Hashes(Items(history, w')), seen) == Hashes(history[w.to..w'.to]) != []
    ensures b <= w'.from && Stored(Items(history, w'), seen) == Hashes(history[b..w'.to])
  {
    HashesOfStretch(history, a, w.to, w'.to);
    StretchDistinct(history, a, w.to, w.to);
    StoredWhenNew(Items(history, w'), seen, Hashes(history[w.to..w'.to]));
    b := LastOfStretch(history, a, w'.from, w'.to);
  }

  lemma PollStores(history: seq<Item>, seen: seq<string>, w: Window, w': Window)
    requires Distinct(Hashes(history)) && Fits(history, w) && Fits(history, w') && Follows(w, w')
    requires Covers(history, seen, w)
    ensures Covers(history, Stored(Items(history, w'), seen), w')
  {
    PollEmits(history, seen, w, w');
    var a: nat :| a <= w.from && seen == Hashes(history[a..w.to]);
    var unseen := Hashes(history[w.to..w'.to]);
    if unseen == [] {
      HashesOfStretch(history, a, w.to, w'.to);
      assert seen == Hashes(history[a..w'.to]);
    } else {
      var b := PollStoresNew(history, seen, a, w, w');
    }
  }

  lemma {:induction false} LastOfStretch(history: seq<Item>, a: nat, from: nat, to: nat) returns (b: nat)
    requires a <= from <= to <= |history|
    requires Hashes(history[a..to]) != []
    ensures b <= from && LastN(Hashes(history[a..to]), Max1(to - from)) == Hashes(history[b..to])
    decreases from - a
  {
    var list, n := Hashes(history[a..to]), Max1(to - from);
    b := a;
    if |list| > n {
      HashesShort(history[a..to]);
      assert a < from;
      HashesOfStretch(history, a, a + 1, to);
      HashesShort(history[a..a + 1]);
      b := LastOfStretch(history, a + 1, from, to);
      assert LastN(Hashes(history[a + 1..to]), n) == LastN(list, n);
    }
  }

  // ----- every run of polls

  predicate Sliding(history: seq<Item>, ws: seq<Window>) {
    && (forall i | 0 <= i < |ws| :: Fits(history, ws[i]))
    && (forall i | 0 <= i < |ws| - 1 :: Follows(ws[i], ws[i + 1]))
  }

  /** Everything that polls of these lists in turn emit. */
  function Emitted(polls: seq<seq<Item>>, seen: seq<string>): seq<string>
    decreases |polls|
  {
    if polls == [] then []
    else Unseen(Hashes(polls[0]), seen) + Emitted(polls[1..], Stored(polls[0], seen))
  }

  function Polls(history: seq<Item>, ws: seq<Window>): seq<seq<Item>>
    requires Sliding(history, ws)
    decreases |ws|
  {
    if ws == [] then [] else [Items(history, ws[0])] + Polls(history, ws[1..])
  }

  lemma EmittedUnfolds(history: seq<Item>, ws: seq<Window>, seen: seq<string>)
    requires Sliding(history, ws) && ws != []
    ensures Emitted(Polls(history, ws), seen)
            == Unseen(Hashes(Items(history, ws[0])), seen)
               + Emitted(Polls(history, ws[1..]), Stored(Items(history, ws[0]), seen))
  {
    assert Polls(history, ws)[1..] == Polls(history, ws[1..]);
  }

  lemma {:induction false} EmittedFrom(history: seq<Item>, ws: seq<Window>, seen: seq<string>, w: Window)
    requires Distinct(Hashes(history)) && Sliding(history, ws) && Fits(history, w)
    requires ws != [] ==> Follows(w, ws[0])
    requires Covers(history, seen, w)
    ensures var to := if ws == [] then w.to else ws[|ws| - 1].to;
            w.to <= to <= |history| && Emitted(Polls(history, ws), seen) == Hashes(history[w.to..to])
    decreases |ws|
  {
    if ws == [] {
      assert history[w.to..w.to] == [];
    } else {
      PollEmits(history, seen, w, ws[0]);
      PollStores(history, seen, w, ws[0]);
      EmittedFrom(history, ws[1..], Stored(Items(history, ws[0]), seen), ws[0]);
      HashesOfStretch(history, w.to, ws[0].to, ws[|ws| - 1].to);
      EmittedUnfolds(history, ws, seen);
    }
  }

  /**
   Forward-moving overlapping windows, oldest first, over a history of distinct hashes: every
   hash from the start of the first window to the end of the last is emitted exactly once, in order.
   */
  lemma EachEmittedOnce(history: seq<Item>, ws: seq<Window>)
    requires Distinct(Hashes(history)) && Sliding(history, ws) && ws != []
    ensures ws[0].from <= ws[|ws| - 1].to
    ensures Emitted(Polls(history, ws), []) == Hashes(history[ws[0].from..ws[|ws| - 1].to])
    ensures Distinct(Emitted(Polls(history, ws), []))
  {
    var start := Window(ws[0].from, ws[0].from);
    assert history[start.from..start.to] == [];
    assert Covers(history, [], start);
    EmittedFrom(history, ws, [], start);
    StretchDistinct(history, start.from, start.from, ws[|ws| - 1].to);
  }

  // ----- exactly when each hash is emitted once

  lemma {:induction false} UnseenMembers(hashes: seq<string>, seen: seq<string>)
    ensures forall h :: h in Unseen(hashes, seen) <==> h in hashes && h !in seen
    ensures |Unseen(hashes, seen)| <= |hashes|
    decreases |hashes|
  {
    if hashes != [] {
      var n := |hashes| - 1;
      UnseenMembers(hashes[..n], seen);
      assert hashes == hashes[..n] + [hashes[n]];
    }
  }

  lemma {:induction false} DedupMembers(list: seq<string>)
    ensures forall h :: h in Dedup(list) <==> h in list
    decreases |list|
  {
    if list != [] {
      var n := |list| - 1;
      DedupMembers(list[..n]);
      assert list == list[..n] + [list[n]];
    }
  }

  /** The places of the stored list that new hashes leave to old ones. */
  function Room(items: seq<Item>, seen: seq<string>): nat {
    var unseen := Unseen(Hashes(items), seen);
    if |unseen| < |items| then |items| - |unseen| else 0
  }

  /**
   Nothing new, or every hash of the list that was seen before and is listed next time as well is
   among the latest that there is room for.
   */
  predicate Keeps(items: seq<Item>, seen: seq<string>, next: seq<Item>) {
    || Unseen(Hashes(items), seen) == []
    || forall h | h in Hashes(items) && h in Hashes(next) && h in seen :: h in LastN(Dedup(seen), Room(items, seen))
  }

  lemma LastOfConcat(a: seq<string>, b: seq<string>, n: nat)
    requires |b| <= n
    ensures LastN(a + b, n) == LastN(a, n - |b|) + b
  {
  }

  lemma StoredParts(items: seq<Item>, seen: seq<string>, unseen: seq<string>)
    requires Unseen(Hashes(items), seen) == unseen != []
    ensures Stored(items, seen) == LastN(Dedup(seen), Room(items, seen)) + unseen
  {
    HashesShort(items);
    UnseenMembers(Hashes(items), seen);
    LastOfConcat(Dedup(seen), unseen, |items|);
  }

  lemma StoredMembers(items: seq<Item>, seen: seq<string>)
    ensures forall h | h in Unseen(Hashes(items), seen) :: h in Stored(items, seen)
    ensures forall h | h in Stored(items, seen) :: h in seen || h in Unseen(Hashes(items), seen)
  {
    var unseen := Unseen(Hashes(items), seen);
    if unseen != [] {
      DedupMembers(seen);
      StoredParts(items, seen, unseen);
    }
  }

  lemma KeepsIffStored(items: seq<Item>, seen: seq<string>, next: seq<Item>, unseen: seq<string>)
    requires Unseen(Hashes(items), seen) == unseen
    ensures Keeps(items, seen, next) <==>
            forall h | h in Hashes(items) && h in Hashes(next) :: h in Stored(items, seen)
  {
    UnseenMembers(Hashes(items), seen);
    if unseen != [] {
      StoredParts(items, seen, unseen);
    }
  }

  /** The next poll emits no hash that this one listed exactly when the two lists and the stored hashes meet `Keeps`. */
  lemma NextRepeatsNothingIff(items: seq<Item>, seen: seq<string>, next: seq<Item>)
    ensures (forall h | h in Unseen(Hashes(next), Stored(items, seen)) :: h !in Hashes(items)) <==>
            Keeps(items, seen, next)
  {
    UnseenMembers(Hashes(next), Stored(items, seen));
    KeepsIffStored(items, seen, next, Unseen(Hashes(items), seen));
  }

  /** In particular for a list that has not changed: the next poll of it emits nothing at all. */
  lemma RepeatIsQuietIff(items: seq<Item>, seen: seq<string>)
    ensures Unseen(Hashes(items), Stored(items, seen)) == [] <==> Keeps(items, seen, items)
  {
    NextRepeatsNothingIff(items, seen, items);
    UnseenMembers(Hashes(items), Stored(items, seen));
    var again := Unseen(Hashes(items), Stored(items, seen));
    assert again != [] ==> again[0] in again;
  }

  /** Every poll of a run keeps what the next one lists again. */
  predicate PairsKeep(polls: seq<seq<Item>>, seen: seq<string>)
    decreases |polls|
  {
    |polls| < 2 || (Keeps(polls[0], seen, polls[1]) && PairsKeep(polls[1..], Stored(polls[0], seen)))
  }

  /** No list has a new hash twice. */
  predicate NewOnce(polls: seq<seq<Item>>, seen: seq<string>)
    decreases |polls|
  {
    polls == [] || (Distinct(Unseen(Hashes(polls[0]), seen)) && NewOnce(polls[1..], Stored(polls[0], seen)))
  }

  /** A hash that has left the API's list does not come back. */
  predicate NoReturn(polls: seq<seq<Item>>) {
    forall i, j, k, h | 0 <= i < j < k < |polls| && h in Hashes(polls[i]) && h in Hashes(polls[k]) ::
      h in Hashes(polls[j])
  }

  /** The hashes listed so far are still stored, or gone from every list to come. */
  ghost predicate Settled(polls: seq<seq<Item>>, seen: seq<string>, gone: set<string>) {
    && (forall h, j, k | h in gone && 0 <= j < k < |polls| && h in Hashes(polls[k]) :: h in Hashes(polls[j]))
    && (forall h | polls != [] && h in gone && h in Hashes(polls[0]) :: h in seen)
  }

  lemma SettledStep(polls: seq<seq<Item>>, seen: seq<string>, gone: set<string>, stored: seq<string>)
    requires polls != [] && NoReturn(polls) && Settled(polls, seen, gone)
    requires |polls| > 1 ==> forall h | h in Hashes(polls[0]) && h in Hashes(polls[1]) :: h in stored
    ensures NoReturn(polls[1..])
    ensures Settled(polls[1..], stored, gone + set h | h in Hashes(polls[0]))
  {
    assert forall i | 0 <= i < |polls[1..]| :: polls[1..][i] == polls[i + 1];
  }

  lemma NewThenRest(unseen: seq<string>, rest: seq<string>, gone: set<string>, listed: set<string>)
    requires Distinct(unseen) && Distinct(rest)
    requires forall h | h in unseen :: h !in gone && h in listed
    requires forall h | h in rest :: h !in gone && h !in listed
    ensures Distinct(unseen + rest) && forall h | h in unseen + rest :: h !in gone
  {
    forall i, j | 0 <= i < j < |unseen + rest|
      ensures (unseen + rest)[i] != (unseen + rest)[j]
    {
      if i < |unseen| <= j {
        assert unseen[i] in unseen && rest[j - |unseen|] in rest;
      }
    }
  }

  lemma {:induction false} KeptEmitOnce(polls: seq<seq<Item>>, seen: seq<string>, gone: set<string>)
    requires NoReturn(polls) && PairsKeep(polls, seen) && NewOnce(polls, seen) && Settled(polls, seen, gone)
    ensures Distinct(Emitted(polls, seen)) && forall h | h in Emitted(polls, seen) :: h !in gone
    decreases |polls|
  {
    if polls != [] {
      var hashes, stored := Hashes(polls[0]), Stored(polls[0], seen);
      var listed := set h | h in hashes;
      if |polls| > 1 {
        KeepsIffStored(polls[0], seen, polls[1], Unseen(hashes, seen));
      }
      SettledStep(polls, seen, gone, stored);
      KeptEmitOnce(polls[1..], stored, gone + listed);
      UnseenMembers(hashes, seen);
      NewThenRest(Unseen(hashes, seen), Emitted(polls[1..], stored), gone, listed);
    }
  }

  lemma SharedIsTwice(a: seq<string>, b: seq<string>, h: string)
    requires h in a && h in b
    ensures !Distinct(a + b)
  {
    var i :| 0 <= i < |a| && a[i] == h;
    var j :| 0 <= j < |b| && b[j] == h;
    assert (a + b)[i] == (a + b)[|a| + j];
  }

  lemma TwiceWithin(a: seq<string>, b: seq<string>, c: seq<string>)
    requires !Distinct(b)
    ensures !Distinct(a + (b + c))
  {
    var i, j :| 0 <= i < j < |b| && b[i] == b[j];
    assert (a + (b + c))[|a| + i] == (a + (b + c))[|a| + j];
  }

  lemma Associates(a: seq<string>, b: seq<string>, c: seq<string>)
    ensures (a + b) + c == a + (b + c)
  {
  }

  /** A hash that is listed twice in a row and not kept had been stored, so emitted, and is emitted again. */
  lemma ForgottenIsEmitted(polls: seq<seq<Item>>, seen: seq<string>) returns (h: string)
    requires |polls| > 1 && !Keeps(polls[0], seen, polls[1])
    ensures h in seen && h in Emitted(polls, seen)
  {
    var items, stored := polls[0], Stored(polls[0], seen);
    KeepsIffStored(items, seen, polls[1], Unseen(Hashes(items), seen));
    h :| h in Hashes(items) && h in Hashes(polls[1]) && h !in stored;
    StoredMembers(items, seen);
    UnseenMembers(Hashes(items), seen);
    UnseenMembers(Hashes(polls[1]), stored);
    assert h in Emitted(polls[1..], stored);
  }

  lemma {:induction false} ForgettingEmitsTwice(polls: seq<seq<Item>>, seen: seq<string>, before: seq<string>)
    requires !PairsKeep(polls, seen) || !NewOnce(polls, seen)
    requires forall h | h in seen :: h in before
    ensures !Distinct(before + Emitted(polls, seen))
    decreases |polls|
  {
    var items, stored := polls[0], Stored(polls[0], seen);
    var unseen := Unseen(Hashes(items), seen);
    if !Distinct(unseen) {
      TwiceWithin(before, unseen, Emitted(polls[1..], stored));
    } else if |polls| == 1 || Keeps(items, seen, polls[1]) {
      StoredMembers(items, seen);
      ForgettingEmitsTwice(polls[1..], stored, before + unseen);
      Associates(before, unseen, Emitted(polls[1..], stored));
    } else {
      var h := ForgottenIsEmitted(polls, seen);
      SharedIsTwice(before, Emitted(polls, seen), h);
    }
  }

  /**
   Whatever the order and the length of the API's lists, as long as a hash that left does not come
   back: a run of polls emits no hash twice exactly when no list has a new hash twice, and every poll
   keeps what the next one lists again.
   */
  lemma EmittedOnceIff(polls: seq<seq<Item>>)
    requires NoReturn(polls)
    ensures Distinct(Emitted(polls, [])) <==> NewOnce(polls, []) && PairsKeep(polls, [])
  {
    if NewOnce(polls, []) && PairsKeep(polls, []) {
      KeptEmitOnce(polls, [], {});
    } else {
      ForgettingEmitsTwice(polls, [], []);
      assert [] + Emitted(polls, []) == Emitted(polls, []);
    }
  }

  /**
   The order of the API's list matters.  With the newest transfer first, the slice drops a hash
   that is still in the window, and the next poll of the very same window emits it again.
   */
  lemma NewestFirstEmitsTwice()
    ensures !Distinct(Emitted([FIRST_POLL, SECOND_POLL, SECOND_POLL], []))
    ensures !Keeps(SECOND_POLL, Stored(FIRST_POLL, []), SECOND_POLL)
  {
    ThreeHashes("c", "b", "a");
    ThreeHashes("d", "c", "b");
    ThreeUnseen("c", "b", "a", []);
    FirstPollStores();
    SecondPollStores();
    ThreeUnseen("d", "c", "b", ["b", "a", "d"]);
    RepeatIsQuietIff(SECOND_POLL, ["c", "b", "a"]);
    var polls := [FIRST_POLL, SECOND_POLL, SECOND_POLL];
    assert polls[1..] == [SECOND_POLL, SECOND_POLL] && polls[1..][1..] == [SECOND_POLL];
    assert "c" in Emitted([SECOND_POLL], ["b", "a", "d"]);
    SharedIsTwice(["c", "b", "a"], Emitted(polls[1..], ["c", "b", "a"]), "c");
  }

  const FIRST_POLL: seq<Item> := [Some("c"), Some("b"), Some("a")]
  const SECOND_POLL: seq<Item> := [Some("d"), Some("c"), Some("b")]

  lemma FirstPollStores()
    ensures Stored(FIRST_POLL, []) == ["c", "b", "a"]
  {
    ThreeHashes("c", "b", "a");
    ThreeUnseen("c", "b", "a", []);
    StoredWhenNew(FIRST_POLL, [], ["c", "b", "a"]);
  }

  lemma SecondPollStores()
    ensures Stored(SECOND_POLL, ["c", "b", "a"]) == ["b", "a", "d"]
  {
    ThreeHashes("d", "c", "b");
    ThreeUnseen("d", "c", "b", ["c", "b", "a"]);
    StoredWhenNew(SECOND_POLL, ["c", "b", "a"], ["d"]);
    LastThree("c", "b", "a", "d");
  }

  lemma LastThree(x: string, y: string, z: string, u: string)
    ensures LastN([x, y, z] + [u], 3) == [y, z, u]
  {
    assert ([x, y, z] + [u])[1..] == [y, z, u];
  }

  lemma HashesSnoc(items: seq<Item>, x: string)
    ensures Hashes(items + [Some(x)]) == Hashes(items) + [x]
  {
    assert (items + [Some(x)])[..|items|] == items;
  }

  lemma ThreeHashes(x: string, y: string, z: string)
    ensures Hashes([Some(x), Some(y), Some(z)]) == [x, y, z]
  {
    HashesSnoc([], x);
    HashesSnoc([] + [Some(x)], y);
    HashesSnoc([] + [Some(x)] + [Some(y)], z);
    assert [] + [Some(x)] + [Some(y)] + [Some(z)] == [Some(x), Some(y), Some(z)];
  }

  lemma UnseenSnoc(hashes: seq<string>, x: string, seen: seq<string>)
    ensures Unseen(hashes + [x], seen) == Unseen(hashes, seen) + (if x in seen then [] else [x])
  {
    assert (hashes + [x])[..|hashes|] == hashes;
  }

  lemma ThreeUnseen(x: string, y: string, z: string, seen: seq<string>)
    ensures Unseen([x, y, z], seen) ==
            (if x in seen then [] else [x]) + (if y in seen then [] else [y]) + (if z in seen then [] else [z])
  {
    UnseenSnoc([], x, seen);
    UnseenSnoc([] + [x], y, seen);
    UnseenSnoc([] + [x] + [y], z, seen);
    assert [] + [x] + [y] + [z] == [x, y, z];
  }
}
