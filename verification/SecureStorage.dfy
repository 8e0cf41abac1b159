/**
 The storage adapter over the platform's key-value store.  A value of more than `MAX_CHUNK`
 characters is split over the entries `name.0`, `name.1`, ... and a header under `name` is
 written last.  A `char` stands for one UTF-16 code unit.
 */
module SecureStorage {
  import opened Wrappers
  import opened DecimalText

  const MAX_CHUNK: nat := 1800
  const CHUNK_HEADER := "__CHUNKED__:"

  type Store = map<string, string>

  // ----- keys and headers

  function ChunkKey(name: string, i: nat): string {
    name + "." + Digits(i)
  }

  function Header(n: nat): string {
    CHUNK_HEADER + Digits(n)
  }

  predicate IsHeader(head: string) {
    CHUNK_HEADER <= head
  }

  /** `Number(head.slice(...))`; a text that is no numeral makes the loops run zero times. */
  function CountOf(head: string): nat
    requires IsHeader(head)
  {
    var text := head[|CHUNK_HEADER|..];
    if AllDigits(text) then Value(text) else 0
  }

  lemma HeaderReads(n: nat)
    ensures IsHeader(Header(n)) && CountOf(Header(n)) == n
  {
    ValueOfDigits(n);
    assert Header(n)[|CHUNK_HEADER|..] == Digits(n);
  }

  /** The last dot of a chunk key ends the name. */
  lemma ChunkKeysDiffer(a: string, i: nat, b: string, j: nat)
    requires ChunkKey(a, i) == ChunkKey(b, j)
    ensures a == b && i == j
  {
    var k := ChunkKey(a, i);
    assert k[|a|] == '.' && k[|b|] == '.';
    assert forall x | |a| < x < |k| :: k[x] == Digits(i)[x - |a| - 1] && IsDigit(k[x]);
    assert forall x | |b| < x < |k| :: k[x] == Digits(j)[x - |b| - 1] && IsDigit(k[x]);
    assert |a| == |b|;
    assert a == k[..|a|] == b;
    assert Digits(i) == k[|a| + 1..] == Digits(j);
    DigitsInjective(i, j);
  }

  // ----- chunks

  function Chunks(v: string): seq<string> {
    if |v| <= MAX_CHUNK then (if v == "" then [] else [v]) else [v[..MAX_CHUNK]] + Chunks(v[MAX_CHUNK..])
  }

  /** `parts.join('')` */
  function Join(parts: seq<string>): string {
    if parts == [] then "" else parts[0] + Join(parts[1..])
  }

  lemma {:induction false} ChunksShape(v: string)
    ensures Join(Chunks(v)) == v
    ensures forall i | 0 <= i < |Chunks(v)| - 1 :: |Chunks(v)[i]| == MAX_CHUNK
    ensures v != "" ==> Chunks(v) != [] && MAX_CHUNK * (|Chunks(v)| - 1) + |Chunks(v)[|Chunks(v)| - 1]| == |v|
    ensures forall i | 0 <= i < |Chunks(v)| :: 0 < |Chunks(v)[i]| <= MAX_CHUNK
    decreases |v|
  {
    if |v| > MAX_CHUNK {
      ChunksShape(v[MAX_CHUNK..]);
      assert Chunks(v)[1..] == Chunks(v[MAX_CHUNK..]);
    } else if v != "" {
      assert Chunks(v)[1..] == [];
    }
  }

  lemma {:induction false} JoinSplits(p: seq<string>, q: seq<string>)
    ensures Join(p + q) == Join(p) + Join(q)
  {
    if p == [] {
      assert p + q == q;
    } else {
      JoinSplits(p[1..], q);
      assert (p + q)[1..] == p[1..] + q;
      assert (p[0] + Join(p[1..])) + Join(q) == p[0] + (Join(p[1..]) + Join(q));
    }
  }

  // ----- reading

  /** The parts from `i` to `n`, or nothing when one is missing. */
  function Gather(store: Store, name: string, i: nat, n: nat): Option<seq<string>>
    requires i <= n
    decreases n - i
  {
    if i == n then Some([])
    else if ChunkKey(name, i) !in store then None
    else match Gather(store, name, i + 1, n)
      case None => None
      case Some(rest) => Some([store[ChunkKey(name, i)]] + rest)
  }

  function Read(store: Store, name: string): Option<string> {
    if name !in store then None
    else if !IsHeader(store[name]) then Some(store[name])
    else match Gather(store, name, 0, CountOf(store[name]))
      case None => None
      case Some(parts) => Some(Join(parts))
  }

  lemma {:induction false} GatherAll(store: Store, name: string, parts: seq<string>, i: nat)
    requires i <= |parts|
    requires forall k: nat | i <= k < |parts| :: ChunkKey(name, k) in store && store[ChunkKey(name, k)] == parts[k]
    ensures Gather(store, name, i, |parts|) == Some(parts[i..])
    decreases |parts| - i
  {
    if i < |parts| {
      GatherAll(store, name, parts, i + 1);
      assert parts[i..] == [parts[i]] + parts[i + 1..];
    }
  }

  lemma {:induction false} GatherMissing(store: Store, name: string, i: nat, n: nat, k: nat)
    requires i <= k < n && ChunkKey(name, k) !in store
    ensures Gather(store, name, i, n) == None
    decreases n - i
  {
    if i < k {
      if ChunkKey(name, i) in store {
        GatherMissing(store, name, i + 1, n, k);
      }
    }
  }

  lemma {:induction false} GatherSame(store: Store, store': Store, name: string, i: nat, n: nat)
    requires i <= n
    requires forall k: nat :: (ChunkKey(name, k) in store <==> ChunkKey(name, k) in store')
                           && (ChunkKey(name, k) in store ==> store[ChunkKey(name, k)] == store'[ChunkKey(name, k)])
    ensures Gather(store, name, i, n) == Gather(store', name, i, n)
    decreases n - i
  {
    if i < n {
      GatherSame(store, store', name, i + 1, n);
    }
  }

  lemma {:induction false} GatherNoneIff(store: Store, name: string, i: nat, n: nat)
    requires i <= n
    ensures Gather(store, name, i, n).None? <==> exists k: nat :: i <= k < n && ChunkKey(name, k) !in store
    decreases n - i
  {
    if i < n {
      GatherNoneIff(store, name, i + 1, n);
      if ChunkKey(name, i) !in store {
        assert i <= i < n;
      }
    }
  }

  /** A name reads as absent exactly when it has no entry, or a header that counts a chunk which is not there. */
  lemma ReadsAbsentIff(store: Store, name: string)
    ensures Read(store, name).None? <==>
            || name !in store
            || (IsHeader(store[name]) && exists k: nat :: k < CountOf(store[name]) && ChunkKey(name, k) !in store)
  {
    if name in store && IsHeader(store[name]) {
      GatherNoneIff(store, name, 0, CountOf(store[name]));
    }
  }

  // ----- writing

  /** The store after the chunk writes in `done`, which may have happened in any order. */
  ghost predicate ChunksWritten(store: Store, store': Store, name: string, chunks: seq<string>, done: set<nat>) {
    && (forall i | i in done :: i < |chunks|)
    && (forall i: nat | i in done :: ChunkKey(name, i) in store' && store'[ChunkKey(name, i)] == chunks[i])
    && (forall k: string | (forall i | i in done :: k != ChunkKey(name, i)) ::
          (k in store <==> k in store') && (k in store ==> store[k] == store'[k]))
  }

  function UpTo(n: nat): (r: set<nat>)
    ensures forall i: nat :: i in r <==> i < n
  {
    if n == 0 then {} else UpTo(n - 1) + {n - 1}
  }

  function Indices(chunks: seq<string>): set<nat> {
    UpTo(|chunks|)
  }

  /** A completed `setItem`. */
  ghost predicate Written(store: Store, store': Store, name: string, v: string) {
    if |v| <= MAX_CHUNK then store' == store[name := v]
    else exists mid :: ChunksWritten(store, mid, name, Chunks(v), Indices(Chunks(v)))
                    && store' == mid[name := Header(|Chunks(v)|)]
  }

  /** A `removeItem` that got as far as deleting the head and the chunks in `done`. */
  ghost predicate Deleted(store: Store, store': Store, name: string, done: set<nat>) {
    && name !in store'
    && (forall i: nat | i in done :: ChunkKey(name, i) !in store')
    && (forall k: string | k != name && (forall i | i in done :: k != ChunkKey(name, i)) ::
          (k in store <==> k in store') && (k in store ==> store[k] == store'[k]))
  }

  /** The chunks `removeItem` deletes. */
  function Doomed(store: Store, name: string): set<nat> {
    if name in store && IsHeader(store[name]) then UpTo(CountOf(store[name])) else {}
  }

  // ----- one operation

  /** Names none of which is another one followed by a dot and a numeral. */
  ghost predicate Independent(names: set<string>) {
    forall m, n, i: nat | m in names && n in names :: m != ChunkKey(n, i)
  }

  /** Nothing outside the entries of `name` differs. */
  ghost predicate OnlyTouches(store: Store, store': Store, name: string) {
    forall k: string | k != name && (forall i: nat :: k != ChunkKey(name, i)) ::
      (k in store <==> k in store') && (k in store ==> store[k] == store'[k])
  }

  lemma OthersReadTheSame(store: Store, store': Store, names: set<string>, name: string, other: string)
    requires Independent(names) && name in names && other in names && name != other
    requires OnlyTouches(store, store', name)
    ensures Read(store, other) == Read(store', other)
  {
    forall k: nat, i: nat
      ensures ChunkKey(other, k) != ChunkKey(name, i)
    {
      if ChunkKey(other, k) == ChunkKey(name, i) {
        ChunkKeysDiffer(other, k, name, i);
      }
    }
    assert forall k: nat :: ChunkKey(other, k) != name;
    assert forall i: nat :: other != ChunkKey(name, i);
    if other in store && IsHeader(store[other]) {
      GatherSame(store, store', other, 0, CountOf(store[other]));
    }
  }

  lemma WrittenTouches(store: Store, store': Store, name: string, v: string)
    requires Written(store, store', name, v)
    ensures OnlyTouches(store, store', name)
  {
  }

  predicate Storable(v: string) {
    |v| > MAX_CHUNK || !IsHeader(v)
  }

  lemma OwnKeyIsNoChunk(name: string, i: nat)
    ensures ChunkKey(name, i) != name
  {
    assert |ChunkKey(name, i)| > |name|;
  }

  /** A value that is stored is read back, whatever the store held, stale chunks included. */
  lemma ReadBack(store: Store, store': Store, name: string, v: string)
    requires Written(store, store', name, v) && Storable(v)
    ensures Read(store', name) == Some(v)
  {
    if |v| > MAX_CHUNK {
      var chunks := Chunks(v);
      var mid :| ChunksWritten(store, mid, name, chunks, Indices(chunks)) && store' == mid[name := Header(|chunks|)];
      HeaderReads(|chunks|);
      forall k: nat | k < |chunks|
        ensures ChunkKey(name, k) in store' && store'[ChunkKey(name, k)] == chunks[k]
      {
        assert k in Indices(chunks);
        OwnKeyIsNoChunk(name, k);
      }
      GatherAll(store', name, chunks, 0);
      ChunksShape(v);
    }
  }

  /** The chunks that the store still holds under the name, up to the count that the value claims, spell it. */
  predicate StaleChunksSpell(store: Store, name: string, v: string)
    requires IsHeader(v)
  {
    var parts := Gather(store, name, 0, CountOf(v));
    parts.Some? && Join(parts.value) == v
  }

  /** Over any store: a value reads back iff it is storable, or stale chunks happen to spell it. */
  lemma ReadsBackIff(store: Store, store': Store, name: string, v: string)
    requires Written(store, store', name, v)
    ensures Read(store', name) == Some(v) <==> Storable(v) || StaleChunksSpell(store, name, v)
  {
    if Storable(v) {
      ReadBack(store, store', name, v);
    } else {
      forall i: nat
        ensures ChunkKey(name, i) != name
      {
        OwnKeyIsNoChunk(name, i);
      }
      GatherSame(store, store', name, 0, CountOf(v));
    }
  }

  /** Over a name with no chunks, the values that do not read back are the short ones that look like a header. */
  lemma ReadsBackIffStorable(store: Store, store': Store, name: string, v: string)
    requires ChunkKey(name, 0) !in store && Written(store, store', name, v)
    ensures Read(store', name) == Some(v) <==> Storable(v)
  {
    if Storable(v) {
      ReadBack(store, store', name, v);
    } else {
      OwnKeyIsNoChunk(name, 0);
      if CountOf(v) > 0 {
        GatherMissing(store', name, 0, CountOf(v), 0);
      }
    }
  }

  // ----- what is left behind

  /** Neither a head nor a chunk under the name. */
  ghost predicate Clean(store: Store, name: string) {
    name !in store && forall i: nat :: ChunkKey(name, i) !in store
  }

  lemma WriteThenRemove(store: Store, s1: Store, s2: Store, name: string, v: string)
    requires Clean(store, name) && Storable(v) && |v| > MAX_CHUNK
    requires Written(store, s1, name, v) && Deleted(s1, s2, name, Doomed(s1, name))
    ensures forall k: string :: (k in s2 <==> k in store) && (k in store ==> s2[k] == store[k])
  {
    var n := |Chunks(v)|;
    var mid :| ChunksWritten(store, mid, name, Chunks(v), Indices(Chunks(v))) && s1 == mid[name := Header(n)];
    HeaderReads(n);
    assert Doomed(s1, name) == UpTo(n) == Indices(Chunks(v));
    forall k: string
      ensures (k in s2 <==> k in store) && (k in store ==> s2[k] == store[k])
    {
      if exists i: nat :: i < n && k == ChunkKey(name, i) {
        var i: nat :| i < n && k == ChunkKey(name, i);
        assert i in Indices(Chunks(v));
      } else if k != name {
        assert forall i | i in Indices(Chunks(v)) :: k != ChunkKey(name, i);
      }
    }
  }

  /** A value stored under a clean name and removed again leaves the store as it was, with no chunk behind. */
  lemma RemoveUndoesSet(store: Store, s1: Store, s2: Store, name: string, v: string)
    requires Clean(store, name) && Storable(v)
    requires Written(store, s1, name, v) && Deleted(s1, s2, name, Doomed(s1, name))
    ensures s2 == store
  {
    if |v| > MAX_CHUNK {
      WriteThenRemove(store, s1, s2, name, v);
    } else {
      assert Doomed(s1, name) == {};
      assert forall k: string :: (k in s2 <==> k in store) && (k in store ==> s2[k] == store[k]);
    }
  }

  lemma ChangedIsChunk(store: Store, store': Store, name: string, chunks: seq<string>, k: string) returns (i: nat)
    requires ChunksWritten(store, store', name, chunks, Indices(chunks))
    requires k in store' && (k !in store || store'[k] != store[k])
    ensures i < |chunks| && k == ChunkKey(name, i) && store'[k] == chunks[i]
  {
    if forall j | j in Indices(chunks) :: k != ChunkKey(name, j) {
      assert false;
    }
    i :| i in Indices(chunks) && k == ChunkKey(name, i);
  }

  /** What a chunk may hold at most, and what is written directly. */
  lemma LongEntriesFit(store: Store, store': Store, name: string, v: string, k: string)
    requires |v| > MAX_CHUNK && Written(store, store', name, v)
    requires k in store' && (k !in store || store'[k] != store[k]) && k != name
    ensures |store'[k]| <= 1800
  {
    var mid :| ChunksWritten(store, mid, name, Chunks(v), Indices(Chunks(v)))
            && store' == mid[name := Header(|Chunks(v)|)];
    var i := ChangedIsChunk(store, mid, name, Chunks(v), k);
    ChunksShape(v);
  }

  /** No entry that is written has more than 1800 characters, the header aside; and up to 1800 there is one entry. */
  lemma EntriesFit(store: Store, store': Store, name: string, v: string, k: string)
    requires Written(store, store', name, v) && k in store' && (k !in store || store'[k] != store[k])
    ensures k != name ==> |store'[k]| <= 1800
    ensures |v| <= 1800 ==> k == name && store'[k] == v
    ensures |v| > 1800 && k == name ==> store'[k] == "__CHUNKED__:" + Digits(|Chunks(v)|)
  {
    if |v| > MAX_CHUNK && k != name {
      LongEntriesFit(store, store', name, v, k);
    }
  }

  // ----- runs

  datatype Op =
    | Set(name: string, value: string)
    | Remove(name: string)
    | SetStopped(name: string, value: string, done: set<nat>)  // stopped after these chunk writes, before the header
    | RemoveStopped(name: string, done: set<nat>)              // stopped after the head and these chunks were deleted

  ghost predicate Runs(store: Store, store': Store, op: Op) {
    match op
    case Set(name, v) => Written(store, store', name, v)
    case Remove(name) => Deleted(store, store', name, Doomed(store, name))
    case SetStopped(name, v, done) => |v| > MAX_CHUNK && ChunksWritten(store, store', name, Chunks(v), done)
    case RemoveStopped(name, done) => Deleted(store, store', name, done)
  }

  /** The name holds no chunked value. */
  predicate Unchunked(store: Store, name: string) {
    name in store ==> !IsHeader(store[name])
  }

  ghost predicate Allowed(store: Store, names: set<string>, op: Op) {
    && op.name in names
    && (op.Set? ==> Storable(op.value))
    && (op.SetStopped? ==> Unchunked(store, op.name))
  }

  /** The plain map that the adapter stands for: a stopped `setItem` is as if it had not begun. */
  function Model(m: map<string, string>, op: Op): map<string, string> {
    match op
    case Set(name, v) => m[name := v]
    case SetStopped(_, _, _) => m
    case Remove(name) => m - {name}
    case RemoveStopped(name, _) => m - {name}
  }

  function ModelAll(m: map<string, string>, ops: seq<Op>): map<string, string>
    decreases |ops|
  {
    if ops == [] then m else ModelAll(Model(m, ops[0]), ops[1..])
  }

  function Lookup(m: map<string, string>, name: string): Option<string> {
    if name in m then Some(m[name]) else None
  }

  ghost predicate Agrees(store: Store, m: map<string, string>, names: set<string>) {
    forall n | n in names :: Read(store, n) == Lookup(m, n)
  }

  lemma StoppedSetReadsOld(store: Store, store': Store, name: string, chunks: seq<string>, done: set<nat>)
    requires ChunksWritten(store, store', name, chunks, done) && Unchunked(store, name)
    ensures Read(store', name) == Read(store, name)
  {
    forall i: nat
      ensures ChunkKey(name, i) != name
    {
      OwnKeyIsNoChunk(name, i);
    }
  }

  lemma RunsTouches(store: Store, store': Store, op: Op)
    requires Runs(store, store', op)
    ensures OnlyTouches(store, store', op.name)
  {
    if op.Set? {
      WrittenTouches(store, store', op.name, op.value);
    }
  }

  lemma OpAgrees(store: Store, store': Store, m: map<string, string>, names: set<string>, op: Op)
    requires Independent(names) && Agrees(store, m, names) && Allowed(store, names, op) && Runs(store, store', op)
    ensures Agrees(store', Model(m, op), names)
  {
    RunsTouches(store, store', op);
    forall n | n in names
      ensures Read(store', n) == Lookup(Model(m, op), n)
    {
      if n != op.name {
        OthersReadTheSame(store, store', names, op.name, n);
      } else {
        match op
        case Set(_, v) => ReadBack(store, store', n, v);
        case SetStopped(_, v, done) => StoppedSetReadsOld(store, store', n, Chunks(v), done);
        case _ =>
      }
    }
  }

  /** `stores` is what the store was before each operation and at the end. */
  ghost predicate History(stores: seq<Store>, ops: seq<Op>, names: set<string>) {
    && |stores| == |ops| + 1
    && forall i | 0 <= i < |ops| :: Allowed(stores[i], names, ops[i]) && Runs(stores[i], stores[i + 1], ops[i])
  }

  /**
   Refinement: over every sequence of operations on independent names, completed or stopped
   half-way, `getItem` agrees with a plain map - although shrinking a value, and every stopped
   write, leaves stale chunks behind.
   */
  lemma {:induction false} StorageRefinesMap(stores: seq<Store>, ops: seq<Op>,
                                             names: set<string>, m: map<string, string>)
    requires Independent(names) && History(stores, ops, names) && Agrees(stores[0], m, names)
    ensures Agrees(stores[|ops|], ModelAll(m, ops), names)
    decreases |ops|
  {
    if ops != [] {
      OpAgrees(stores[0], stores[1], m, names, ops[0]);
      StorageRefinesMap(stores[1..], ops[1..], names, Model(m, ops[0]));
    }
  }

  lemma SliceIsChunk(v: string, at: nat, end: nat)
    requires at < |v| && end == if at + MAX_CHUNK <= |v| then at + MAX_CHUNK else |v|
    ensures Chunks(v[at..]) == [v[at..end]] + (if at + MAX_CHUNK < |v| then Chunks(v[at + MAX_CHUNK..]) else [])
  {
    var rest := v[at..];
    if at + MAX_CHUNK < |v| {
      assert rest[..MAX_CHUNK] == v[at..end] && rest[MAX_CHUNK..] == v[at + MAX_CHUNK..];
    } else {
      assert rest == v[at..end];
    }
  }

  lemma ChunkWriteAdds(store: Store, mid: Store, name: string, chunks: seq<string>, done: set<nat>, i: nat)
    requires ChunksWritten(store, mid, name, chunks, done) && i < |chunks|
    ensures ChunksWritten(store, mid[ChunkKey(name, i) := chunks[i]], name, chunks, done + {i})
  {
    forall j: nat | j in done && j != i
      ensures ChunkKey(name, j) != ChunkKey(name, i)
    {
      if ChunkKey(name, j) == ChunkKey(name, i) {
        ChunkKeysDiffer(name, j, name, i);
      }
    }
  }

  class Adapter {
    var store: Store

    constructor ()
      ensures store == map[]
    {
      store := map[];
    }

    method GetItem(name: string) returns (value: Option<string>)
      ensures value == Read(store, name)
    {
      if name !in store || !IsHeader(store[name]) {
        return if name in store then Some(store[name]) else None;
      }
      var count := CountOf(store[name]);
      var parts: seq<string> := [];
      var i := 0;
      assert forall rest: seq<string> :: [] + rest == rest;
      while i < count
        invariant i <= count
        invariant Gather(store, name, 0, count) ==
                  match Gather(store, name, i, count) case None => None case Some(rest) => Some(parts + rest)
      {
        if ChunkKey(name, i) !in store {
          return None;
        }
        ghost var rest := Gather(store, name, i + 1, count);
        if rest.Some? {
          assert parts + ([store[ChunkKey(name, i)]] + rest.value) == (parts + [store[ChunkKey(name, i)]]) + rest.value;
        }
        parts := parts + [store[ChunkKey(name, i)]];
        i := i + 1;
      }
      assert parts + [] == parts;
      return Some(Join(parts));
    }

    /** The loop of slices; the last one may be short. */
    static method Split(value: string) returns (chunks: seq<string>)
      ensures chunks == Chunks(value)
    {
      chunks := [];
      var at := 0;
      assert value[0..] == value;
      while at < |value|
        invariant chunks + (if at < |value| then Chunks(value[at..]) else []) == Chunks(value)
      {
        var rest := value[at..];
        var end := if at + MAX_CHUNK <= |value| then at + MAX_CHUNK else |value|;
        SliceIsChunk(value, at, end);
        chunks := chunks + [value[at..end]];
        at := at + MAX_CHUNK;
      }
    }

    /** The chunk writes are started together, so the loop takes them in no particular order. */
    method WriteChunks(name: string, chunks: seq<string>)
      modifies this
      ensures ChunksWritten(old(store), store, name, chunks, Indices(chunks))
    {
      var todo := Indices(chunks);
      ghost var done: set<nat> := {};
      while todo != {}
        invariant todo <= Indices(chunks) && done == Indices(chunks) - todo
        invariant ChunksWritten(old(store), store, name, chunks, done)
        decreases |todo|
      {
        var i :| i in todo;
        ChunkWriteAdds(old(store), store, name, chunks, done, i);
        store := store[ChunkKey(name, i) := chunks[i]];
        done := done + {i};
        todo := todo - {i};
      }
      assert done == Indices(chunks);
    }

    method SetItem(name: string, value: string)
      modifies this
      ensures Written(old(store), store, name, value)
    {
      if |value| <= MAX_CHUNK {
        store := store[name := value];
        return;
      }
      var chunks := Split(value);
      WriteChunks(name, chunks);
      store := store[name := Header(|chunks|)];
    }

    method RemoveItem(name: string)
      modifies this
      ensures Deleted(old(store), store, name, Doomed(old(store), name))
      ensures name !in store
      ensures name in old(store) && IsHeader(old(store)[name]) ==>
                forall i: nat | i < CountOf(old(store)[name]) :: ChunkKey(name, i) !in store
    {
      var doomed := Doomed(store, name);
      store := store - {name};
      var todo := doomed;
      ghost var done: set<nat> := {};
      while todo != {}
        invariant todo <= doomed && done == doomed - todo
        invariant Deleted(old(store), store, name, done)
        decreases |todo|
      {
        var i :| i in todo;
        store := store - {ChunkKey(name, i)};
        done := done + {i};
        todo := todo - {i};
      }
      assert done == doomed;
    }
  }
}
