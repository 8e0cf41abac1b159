/**
 Stopping `setItem` of a long value after any of its chunk writes: exactly when every such
 stop leaves the old value or the new one.  Chunks are overwritten in place, so over a value
 that is itself chunked the header-last order does not suffice.
 */
module StorageCrash {
  import opened Wrappers
  import opened SecureStorage

  /** Every way of stopping before the header is written reads as the old value or the new one. */
  ghost predicate Atomic(store: Store, name: string, v: string) {
    forall done: set<nat>, mid: Store | ChunksWritten(store, mid, name, Chunks(v), done) ::
      Read(mid, name) == Read(store, name) || Read(mid, name) == Some(v)
  }

  /** The name holds `o` in chunks, with the header that counts them. */
  ghost predicate HoldsChunked(store: Store, name: string, o: string) {
    && |o| > MAX_CHUNK
    && name in store && store[name] == Header(|Chunks(o)|)
    && forall k: nat | k < |Chunks(o)| :: ChunkKey(name, k) in store && store[ChunkKey(name, k)] == Chunks(o)[k]
  }

  /** The positions at which an overwritten chunk differs. */
  function Changed(a: seq<string>, b: seq<string>): (r: set<nat>)
    ensures forall i: nat :: i in r <==> i < |a| && i < |b| && a[i] != b[i]
  {
    set i: nat | i in UpTo(|a|) && i < |b| && a[i] != b[i]
  }

  /** What a reader with the old header joins once the chunks in `done` have been overwritten. */
  ghost function Mixed(a: seq<string>, b: seq<string>, done: set<nat>): (r: seq<string>)
    ensures |r| == |a|
  {
    seq(|a|, i requires 0 <= i < |a| => if i in done && i < |b| then b[i] else a[i])
  }

  lemma StoppedReadsMixed(store: Store, mid: Store, name: string, o: string, v: string, done: set<nat>)
    requires HoldsChunked(store, name, o) && ChunksWritten(store, mid, name, Chunks(v), done)
    ensures Read(mid, name) == Some(Join(Mixed(Chunks(o), Chunks(v), done)))
    ensures Read(store, name) == Some(o)
  {
    var a, c := Chunks(o), Mixed(Chunks(o), Chunks(v), done);
    HeaderReads(|a|);
    ChunksShape(o);
    GatherAll(store, name, a, 0);
    forall i: nat
      ensures ChunkKey(name, i) != name
    {
      OwnKeyIsNoChunk(name, i);
    }
    forall k: nat | k < |c|
      ensures ChunkKey(name, k) in mid && mid[ChunkKey(name, k)] == c[k]
    {
      if k !in done {
        forall i | i in done
          ensures ChunkKey(name, k) != ChunkKey(name, i)
        {
          if ChunkKey(name, k) == ChunkKey(name, i) {
            ChunkKeysDiffer(name, k, name, i);
          }
        }
      }
    }
    GatherAll(mid, name, c, 0);
    assert a[0..] == a && c[0..] == c;
  }

  // ----- joining

  predicate Full(parts: seq<string>) {
    forall i | 0 <= i < |parts| - 1 :: |parts[i]| == MAX_CHUNK
  }

  lemma {:induction false} JoinInjective(p: seq<string>, q: seq<string>)
    requires |p| == |q| && Full(p) && Full(q) && Join(p) == Join(q)
    ensures p == q
    decreases |p|
  {
    if |p| > 1 {
      assert p[0] == Join(p)[..MAX_CHUNK] == q[0];
      assert Join(p[1..]) == Join(p)[MAX_CHUNK..] == Join(q[1..]);
      JoinInjective(p[1..], q[1..]);
      assert p == [p[0]] + p[1..] && q == [q[0]] + q[1..];
    } else if |p| == 1 {
      assert p == [p[0]] && q == [q[0]];
      assert Join(p[1..]) == "" && Join(q[1..]) == "";
      assert p[0] + "" == p[0] && q[0] + "" == q[0];
    }
  }

  lemma JoinAround(p: seq<string>, i: nat)
    requires i < |p|
    ensures Join(p) == Join(p[..i]) + p[i] + Join(p[i + 1..])
  {
    assert p == p[..i] + p[i..];
    JoinSplits(p[..i], p[i..]);
  }

  lemma Cancel(l: string, x: string, y: string, r: string)
    requires l + x + r == l + y + r
    ensures x == y
  {
    assert |x| == |y|;
    assert x == (l + x + r)[|l|..|l| + |x|] == (l + y + r)[|l|..|l| + |y|] == y;
  }

  /** Overwriting one part by a different one changes what is joined. */
  lemma OneChangeShows(p: seq<string>, i: nat, x: string)
    requires i < |p|
    ensures Join(p[i := x]) == Join(p) ==> x == p[i]
    ensures |Join(p[i := x])| == |Join(p)| - |p[i]| + |x|
  {
    var q := p[i := x];
    JoinAround(p, i);
    JoinAround(q, i);
    assert q[..i] == p[..i] && q[i + 1..] == p[i + 1..];
    if Join(q) == Join(p) {
      Cancel(Join(p[..i]), x, p[i], Join(p[i + 1..]));
    }
  }

  // ----- the condition

  /** At most one chunk differs, and then the counts agree: no mixture of old and new can be read. */
  predicate Harmless(o: string, v: string) {
    var changed := Changed(Chunks(o), Chunks(v));
    changed == {} || (|Chunks(o)| == |Chunks(v)| && exists d :: d in changed && changed == {d})
  }

  lemma HarmlessSuffices(o: string, v: string, done: set<nat>)
    requires |o| > MAX_CHUNK && Harmless(o, v)
    ensures var j := Join(Mixed(Chunks(o), Chunks(v), done)); j == o || j == v
  {
    var a, b := Chunks(o), Chunks(v);
    var c := Mixed(a, b, done);
    ChunksShape(o);
    ChunksShape(v);
    if forall i | i in done :: i !in Changed(a, b) {
      assert c == a;
    } else {
      assert forall i | 0 <= i < |c| :: c[i] == b[i];
      assert c == b;
    }
  }

  lemma OnlyOneMixed(a: seq<string>, b: seq<string>, i: nat)
    requires i < |a| && i < |b|
    ensures Mixed(a, b, {i}) == a[i := b[i]]
  {
  }

  /** With as many chunks as before, two changed chunks and one overwritten make a third value. */
  lemma MixtureOfSameCount(a: seq<string>, b: seq<string>, i: nat, d: nat)
    requires |a| == |b| && Full(a) && Full(b)
    requires i in Changed(a, b) && d in Changed(a, b) && d != i
    ensures Join(a[i := b[i]]) != Join(b)
  {
    var c := a[i := b[i]];
    assert c[d] != b[d];
    if Join(c) == Join(b) {
      JoinInjective(c, b);
    }
  }

  /** With another number of chunks, the length gives the mixture away. */
  lemma MixtureOfOtherCount(o: string, v: string, i: nat)
    requires o != "" && v != "" && |Chunks(o)| != |Chunks(v)| && i < |Chunks(o)| && i < |Chunks(v)|
    ensures |Join(Chunks(o)[i := Chunks(v)[i]])| != |v|
  {
    var a, b := Chunks(o), Chunks(v);
    ChunksShape(o);
    ChunksShape(v);
    OneChangeShows(a, i, b[i]);
    var n := |Join(a[i := b[i]])|;
    assert n == |o| - |a[i]| + |b[i]|;
    if |a| < |b| {
      assert |b[i]| == MAX_CHUNK;
      if i < |a| - 1 {
        assert |a[i]| == MAX_CHUNK;
      }
      assert n <= MAX_CHUNK * |a| <= MAX_CHUNK * (|b| - 1) < |v|;
    } else {
      assert |a[i]| == MAX_CHUNK;
      assert |o| > MAX_CHUNK * (|a| - 1) >= MAX_CHUNK * |b|;
      if i < |b| - 1 {
        assert |b[i]| == MAX_CHUNK;
      } else {
        assert |v| == MAX_CHUNK * (|b| - 1) + |b[i]|;
      }
      assert n > |v|;
    }
  }

  lemma AnotherMember(s: set<nat>, i: nat) returns (d: nat)
    requires i in s && s != {i}
    ensures d in s && d != i
  {
    assert s == s - {i} + {i};
    d :| d in s - {i};
  }

  /** Otherwise overwriting a single changed chunk is already a mixture. */
  lemma HarmlessNeeded(o: string, v: string) returns (i: nat)
    requires |o| > MAX_CHUNK && |v| > MAX_CHUNK && !Harmless(o, v)
    ensures i < |Chunks(o)| && i < |Chunks(v)|
    ensures var j := Join(Mixed(Chunks(o), Chunks(v), {i})); j != o && j != v
  {
    var a, b := Chunks(o), Chunks(v);
    ChunksShape(o);
    ChunksShape(v);
    i :| i in Changed(a, b);
    OnlyOneMixed(a, b, i);
    OneChangeShows(a, i, b[i]);
    if |a| == |b| {
      var d := AnotherMember(Changed(a, b), i);
      MixtureOfSameCount(a, b, i, d);
    } else {
      MixtureOfOtherCount(o, v, i);
    }
  }

  lemma {:induction false} WriteSome(store: Store, name: string, chunks: seq<string>, i: nat)
    requires i < |chunks|
    ensures ChunksWritten(store, store[ChunkKey(name, i) := chunks[i]], name, chunks, {i})
  {
    ChunkWriteAdds(store, store, name, chunks, {}, i);
    assert {} + {i} == {i};
  }

  /** Over an absent or unchunked name, every stop leaves the old value. */
  lemma AtomicOverUnchunked(store: Store, name: string, v: string)
    requires Unchunked(store, name)
    ensures Atomic(store, name, v)
  {
    forall done: set<nat>, mid: Store | ChunksWritten(store, mid, name, Chunks(v), done)
      ensures Read(mid, name) == Read(store, name)
    {
      StoppedSetReadsOld(store, mid, name, Chunks(v), done);
    }
  }

  /** Over a chunked value, every stop leaves the old value or the new one exactly when `Harmless`. */
  lemma AtomicIffHarmless(store: Store, name: string, o: string, v: string)
    requires HoldsChunked(store, name, o) && |v| > MAX_CHUNK
    ensures Atomic(store, name, v) <==> Harmless(o, v)
  {
    if Harmless(o, v) {
      forall done: set<nat>, mid: Store | ChunksWritten(store, mid, name, Chunks(v), done)
        ensures Read(mid, name) == Read(store, name) || Read(mid, name) == Some(v)
      {
        StoppedReadsMixed(store, mid, name, o, v, done);
        HarmlessSuffices(o, v, done);
      }
    } else {
      var i := HarmlessNeeded(o, v);
      var mid := store[ChunkKey(name, i) := Chunks(v)[i]];
      WriteSome(store, name, Chunks(v), i);
      StoppedReadsMixed(store, mid, name, o, v, {i});
    }
  }

  /**
   The store after two `setItem` calls on one name that overlapped, the header of `v` having come
   last: each chunk is that of `v`, or that of `w` where `w` came to be written later (`late`).
   */
  ghost predicate Overlapped(store: Store, store': Store, name: string, v: string, w: string, late: set<nat>) {
    exists both :: BothWritten(store, both, name, v, w)
                && ChunksWritten(both[name := Header(|Chunks(v)|)], store', name, Chunks(w), late)
  }

  ghost predicate BothWritten(store: Store, both: Store, name: string, v: string, w: string) {
    exists s :: ChunksWritten(store, s, name, Chunks(w), Indices(Chunks(w)))
             && ChunksWritten(s, both, name, Chunks(v), Indices(Chunks(v)))
  }

  lemma BothHoldsTheLast(store: Store, both: Store, name: string, v: string, w: string)
    requires |v| > MAX_CHUNK && BothWritten(store, both, name, v, w)
    ensures HoldsChunked(both[name := Header(|Chunks(v)|)], name, v)
  {
    var chunks := Chunks(v);
    forall k: nat | k < |chunks|
      ensures ChunkKey(name, k) in both && both[ChunkKey(name, k)] == chunks[k] && ChunkKey(name, k) != name
    {
      assert k in Indices(chunks);
      OwnKeyIsNoChunk(name, k);
    }
  }

  /** What is read after an overlap: chunks of `v`, some of them replaced by those of `w`. */
  lemma OverlapReadsMixed(store: Store, store': Store, name: string, v: string, w: string, late: set<nat>)
    requires |v| > MAX_CHUNK && Overlapped(store, store', name, v, w, late)
    ensures Read(store', name) == Some(Join(Mixed(Chunks(v), Chunks(w), late)))
  {
    var both :| BothWritten(store, both, name, v, w)
             && ChunksWritten(both[name := Header(|Chunks(v)|)], store', name, Chunks(w), late);
    BothHoldsTheLast(store, both, name, v, w);
    StoppedReadsMixed(both[name := Header(|Chunks(v)|)], store', name, v, w, late);
  }

  lemma OverlapHappens(store: Store, name: string, v: string, w: string, i: nat) returns (store': Store)
    requires i < |Chunks(w)|
    ensures Overlapped(store, store', name, v, w, {i})
  {
    var s := WriteAll(store, name, Chunks(w));
    var both := WriteAll(s, name, Chunks(v));
    assert BothWritten(store, both, name, v, w);
    var held := both[name := Header(|Chunks(v)|)];
    store' := held[ChunkKey(name, i) := Chunks(w)[i]];
    WriteSome(held, name, Chunks(w), i);
  }

  lemma WriteAll(store: Store, name: string, chunks: seq<string>) returns (store': Store)
    ensures ChunksWritten(store, store', name, chunks, Indices(chunks))
  {
    store' := WriteFirst(store, name, chunks, |chunks|);
  }

  lemma {:induction false} WriteFirst(store: Store, name: string, chunks: seq<string>, n: nat) returns (store': Store)
    requires n <= |chunks|
    ensures ChunksWritten(store, store', name, chunks, UpTo(n))
  {
    store' := store;
    if n > 0 {
      var mid := WriteFirst(store, name, chunks, n - 1);
      ChunkWriteAdds(store, mid, name, chunks, UpTo(n - 1), n - 1);
      store' := mid[ChunkKey(name, n - 1) := chunks[n - 1]];
    }
  }

  lemma OverlapCanMix(store: Store, name: string, v: string, w: string) returns (store': Store, late: set<nat>)
    requires |v| > MAX_CHUNK && |w| > MAX_CHUNK && !Harmless(v, w)
    ensures Overlapped(store, store', name, v, w, late)
    ensures Read(store', name) != Some(v) && Read(store', name) != Some(w)
  {
    var i := HarmlessNeeded(v, w);
    late := {i};
    store' := OverlapHappens(store, name, v, w, i);
    OverlapReadsMixed(store, store', name, v, w, late);
  }

  /** However the writes of two overlapping calls interleave, one of the two values is read. */
  ghost predicate OverlapSafe(store: Store, name: string, v: string, w: string) {
    forall late: set<nat>, store': Store | Overlapped(store, store', name, v, w, late) ::
      Read(store', name) == Some(v) || Read(store', name) == Some(w)
  }

  /** Overlapping writes of two long values leave one of the two exactly when they are `Harmless`. */
  lemma OverlapSafeIffHarmless(store: Store, name: string, v: string, w: string)
    requires |v| > MAX_CHUNK && |w| > MAX_CHUNK
    ensures OverlapSafe(store, name, v, w) <==> Harmless(v, w)
  {
    if Harmless(v, w) {
      forall late: set<nat>, store': Store | Overlapped(store, store', name, v, w, late)
        ensures Read(store', name) == Some(v) || Read(store', name) == Some(w)
      {
        OverlapReadsMixed(store, store', name, v, w, late);
        HarmlessSuffices(v, w, late);
      }
    } else {
      var store', late := OverlapCanMix(store, name, v, w);
    }
  }

  // ----- a reader whose reads fall between the writes

  /** `getItem` in progress: the head as the store stands first, and each chunk as it stands when its turn comes. */
  function ReadOver(at: nat -> Store, name: string): Option<string> {
    if name !in at(0) then None
    else if !IsHeader(at(0)[name]) then Some(at(0)[name])
    else match GatherOver(at, name, 0, CountOf(at(0)[name]))
      case None => None
      case Some(parts) => Some(Join(parts))
  }

  function GatherOver(at: nat -> Store, name: string, i: nat, n: nat): Option<seq<string>>
    requires i <= n
    decreases n - i
  {
    if i == n then Some([])
    else if ChunkKey(name, i) !in at(i + 1) then None
    else match GatherOver(at, name, i + 1, n)
      case None => None
      case Some(rest) => Some([at(i + 1)[ChunkKey(name, i)]] + rest)
  }

  /** The reader finds this text when it comes to chunk `k`. */
  predicate FindsPart(at: nat -> Store, name: string, k: nat, part: string) {
    ChunkKey(name, k) in at(k + 1) && at(k + 1)[ChunkKey(name, k)] == part
  }

  lemma {:induction false} GatherOverAll(at: nat -> Store, name: string, parts: seq<string>, i: nat)
    requires i <= |parts|
    requires forall k: nat | i <= k < |parts| :: FindsPart(at, name, k, parts[k])
    ensures GatherOver(at, name, i, |parts|) == Some(parts[i..])
    decreases |parts| - i
  {
    if i < |parts| {
      assert FindsPart(at, name, i, parts[i]);
      GatherOverAll(at, name, parts, i + 1);
      assert parts[i..] == [parts[i]] + parts[i + 1..];
    }
  }

  lemma {:induction false} GatherStill(store: Store, name: string, i: nat, n: nat)
    requires i <= n
    ensures GatherOver((j: nat) => store, name, i, n) == Gather(store, name, i, n)
    decreases n - i
  {
    if i < n {
      GatherStill(store, name, i + 1, n);
    }
  }

  /** When nothing is written meanwhile, this is the plain read. */
  lemma ReadStill(store: Store, name: string)
    ensures ReadOver((j: nat) => store, name) == Read(store, name)
  {
    if name in store && IsHeader(store[name]) {
      GatherStill(store, name, 0, CountOf(store[name]));
    }
  }

  /** A state of the store while `setItem` of a long value runs, or after its header is written. */
  ghost predicate During(store: Store, view: Store, name: string, v: string, ended: bool) {
    exists mid, done ::
      && ChunksWritten(store, mid, name, Chunks(v), done)
      && if ended then done == Indices(Chunks(v)) && view == mid[name := Header(|Chunks(v)|)] else view == mid
  }

  /** The header is written before the reader's read number `end`, the head being number 0, or not at all meanwhile. */
  ghost predicate Overlaps(store: Store, at: nat -> Store, name: string, v: string, end: Option<nat>) {
    forall j: nat :: During(store, at(j), name, v, Ended(end, j))
  }

  predicate Ended(end: Option<nat>, j: nat) {
    end.Some? && j >= end.value
  }

  /** The head is the old one until the new header is written. */
  lemma HeadDuring(store: Store, view: Store, name: string, v: string, ended: bool)
    requires During(store, view, name, v, ended)
    ensures ended ==> name in view && view[name] == Header(|Chunks(v)|)
    ensures !ended ==> (name in view <==> name in store) && (name in store ==> view[name] == store[name])
  {
    forall i: nat
      ensures ChunkKey(name, i) != name
    {
      OwnKeyIsNoChunk(name, i);
    }
  }

  /** What a chunk can be meanwhile: the new one, or what it was - and the new one in the end. */
  lemma ChunkDuring(store: Store, view: Store, name: string, v: string, ended: bool, k: nat)
    requires During(store, view, name, v, ended)
    ensures ended && k < |Chunks(v)| ==> ChunkKey(name, k) in view && view[ChunkKey(name, k)] == Chunks(v)[k]
    ensures || (k < |Chunks(v)| && ChunkKey(name, k) in view && view[ChunkKey(name, k)] == Chunks(v)[k])
            || ((ChunkKey(name, k) in view <==> ChunkKey(name, k) in store)
                && (ChunkKey(name, k) in store ==> view[ChunkKey(name, k)] == store[ChunkKey(name, k)]))
  {
    var mid, done :| ChunksWritten(store, mid, name, Chunks(v), done)
                  && if ended then done == Indices(Chunks(v)) && view == mid[name := Header(|Chunks(v)|)]
                     else view == mid;
    forall i: nat
      ensures ChunkKey(name, i) != name
    {
      OwnKeyIsNoChunk(name, i);
    }
    if k !in done {
      OtherChunksDiffer(name, k, done);
    }
  }

  lemma OtherChunksDiffer(name: string, k: nat, done: set<nat>)
    requires k !in done
    ensures forall i | i in done :: ChunkKey(name, k) != ChunkKey(name, i)
  {
    forall i | i in done
      ensures ChunkKey(name, k) != ChunkKey(name, i)
    {
      if ChunkKey(name, k) == ChunkKey(name, i) {
        ChunkKeysDiffer(name, k, name, i);
      }
    }
  }

  /** A reader that finds a header and then every chunk it counts joins them. */
  lemma ReadsParts(at: nat -> Store, name: string, parts: seq<string>)
    requires name in at(0) && at(0)[name] == Header(|parts|)
    requires forall k: nat | k < |parts| :: FindsPart(at, name, k, parts[k])
    ensures ReadOver(at, name) == Some(Join(parts))
  {
    HeaderReads(|parts|);
    GatherOverAll(at, name, parts, 0);
    assert parts[0..] == parts;
  }

  /** A reader that found the new header reads the new value. */
  lemma ReaderAfterHeader(store: Store, at: nat -> Store, name: string, v: string)
    requires |v| > MAX_CHUNK && Overlaps(store, at, name, v, Some(0))
    ensures ReadOver(at, name) == Some(v)
  {
    HeadDuring(store, at(0), name, v, true);
    forall k: nat | k < |Chunks(v)|
      ensures FindsPart(at, name, k, Chunks(v)[k])
    {
      ChunkDuring(store, at(k + 1), name, v, true, k);
    }
    ReadsParts(at, name, Chunks(v));
    ChunksShape(v);
  }

  /** The chunks that are the new ones by the time the reader comes to them. */
  function LateChunks(at: nat -> Store, name: string, b: seq<string>): (r: set<nat>)
    ensures forall k: nat :: k in r <==> k < |b| && FindsPart(at, name, k, b[k])
  {
    set k | k in UpTo(|b|) && FindsPart(at, name, k, b[k])
  }

  /** Such a chunk is in the old or the new value's place, by whether it is late. */
  lemma ChunkIsMixed(store: Store, at: nat -> Store, name: string, o: string, v: string, end: Option<nat>, k: nat)
    requires HoldsChunked(store, name, o) && Overlaps(store, at, name, v, end) && k < |Chunks(o)|
    ensures FindsPart(at, name, k, Mixed(Chunks(o), Chunks(v), LateChunks(at, name, Chunks(v)))[k])
  {
    ChunkDuring(store, at(k + 1), name, v, Ended(end, k + 1), k);
  }

  lemma HeadBeforeHeader(store: Store, at: nat -> Store, name: string, o: string, v: string, end: Option<nat>)
    requires HoldsChunked(store, name, o) && Overlaps(store, at, name, v, end) && end != Some(0)
    ensures name in at(0) && at(0)[name] == Header(|Chunks(o)|)
  {
    HeadDuring(store, at(0), name, v, false);
  }

  /** A reader that found the old header reads the old chunks, some of them replaced by new ones. */
  lemma ReaderBeforeHeader(store: Store, at: nat -> Store, name: string, o: string, v: string, end: Option<nat>)
    requires HoldsChunked(store, name, o) && Overlaps(store, at, name, v, end) && end != Some(0)
    ensures ReadOver(at, name) == Some(Join(Mixed(Chunks(o), Chunks(v), LateChunks(at, name, Chunks(v)))))
  {
    HeadBeforeHeader(store, at, name, o, v, end);
    forall k: nat | k < |Chunks(o)|
      ensures FindsPart(at, name, k, Mixed(Chunks(o), Chunks(v), LateChunks(at, name, Chunks(v)))[k])
    {
      ChunkIsMixed(store, at, name, o, v, end, k);
    }
    ReadsParts(at, name, Mixed(Chunks(o), Chunks(v), LateChunks(at, name, Chunks(v))));
  }

  /** Over an absent or unchunked name, a reader at any time gets the old value or the new one. */
  lemma ReaderOverUnchunked(store: Store, at: nat -> Store, name: string, v: string, end: Option<nat>)
    requires |v| > MAX_CHUNK && Unchunked(store, name) && Overlaps(store, at, name, v, end)
    ensures ReadOver(at, name) == Read(store, name) || ReadOver(at, name) == Some(v)
  {
    if end == Some(0) {
      ReaderAfterHeader(store, at, name, v);
    } else {
      HeadDuring(store, at(0), name, v, false);
    }
  }

  ghost predicate ReaderSafe(store: Store, name: string, o: string, v: string) {
    forall at: nat -> Store, end: Option<nat> | Overlaps(store, at, name, v, end) ::
      ReadOver(at, name) == Some(o) || ReadOver(at, name) == Some(v)
  }

  /** The writer may pause after any of its writes for as long as the reader takes. */
  lemma StillOverlaps(store: Store, mid: Store, name: string, v: string, done: set<nat>) returns (at: nat -> Store)
    requires ChunksWritten(store, mid, name, Chunks(v), done)
    ensures Overlaps(store, at, name, v, None) && ReadOver(at, name) == Read(mid, name)
  {
    at := (j: nat) => mid;
    ReadStill(mid, name);
    assert During(store, mid, name, v, false);
  }

  lemma ReaderCanSeeMixture(store: Store, name: string, o: string, v: string) returns (at: nat -> Store)
    requires HoldsChunked(store, name, o) && |v| > MAX_CHUNK && !Harmless(o, v)
    ensures Overlaps(store, at, name, v, None)
    ensures ReadOver(at, name) != Some(o) && ReadOver(at, name) != Some(v)
  {
    var i := HarmlessNeeded(o, v);
    var mid := store[ChunkKey(name, i) := Chunks(v)[i]];
    WriteSome(store, name, Chunks(v), i);
    StoppedReadsMixed(store, mid, name, o, v, {i});
    at := StillOverlaps(store, mid, name, v, {i});
  }

  /** Over a chunked value, a reader at any time gets the old value or the new one exactly when they are `Harmless`. */
  lemma ReaderSafeIffHarmless(store: Store, name: string, o: string, v: string)
    requires HoldsChunked(store, name, o) && |v| > MAX_CHUNK
    ensures ReaderSafe(store, name, o, v) <==> Harmless(o, v)
  {
    if Harmless(o, v) {
      forall at: nat -> Store, end: Option<nat> | Overlaps(store, at, name, v, end)
        ensures ReadOver(at, name) == Some(o) || ReadOver(at, name) == Some(v)
      {
        if end == Some(0) {
          ReaderAfterHeader(store, at, name, v);
        } else {
          ReaderBeforeHeader(store, at, name, o, v, end);
          HarmlessSuffices(o, v, LateChunks(at, name, Chunks(v)));
        }
      }
    } else {
      var at := ReaderCanSeeMixture(store, name, o, v);
    }
  }
}
