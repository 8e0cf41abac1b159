/**
 The wire format of grouped transactions: one line per transfer, twelve comma-separated fields,
 and whatever follows the twelfth as metadata, commas included.
 */
module GroupedTransaction {
  import opened Wrappers
  import opened DecimalText

  const RAW_FIELD_COUNT: nat := 12

  // ----- split and join

  /** `s.split(c)` */
  function Split(s: string, c: char): (parts: seq<string>)
    ensures parts != []
  {
    if s == "" then [""]
    else
      var rest := Split(s[1..], c);
      if s[0] == c then [""] + rest else [[s[0]] + rest[0]] + rest[1..]
  }

  /** `parts.join(c)` */
  function Join(parts: seq<string>, c: char): string {
    if parts == [] then "" else if |parts| == 1 then parts[0] else parts[0] + [c] + Join(parts[1..], c)
  }

  predicate Free(s: string, c: char) {
    forall i | 0 <= i < |s| :: s[i] != c
  }

  lemma {:induction false} SplitFree(s: string, c: char)
    requires Free(s, c)
    ensures Split(s, c) == [s]
  {
    if s != "" {
      SplitFree(s[1..], c);
      assert s == [s[0]] + s[1..];
    }
  }

  /** Splitting distributes over a separator. */
  lemma {:induction false} SplitAtSeparator(a: string, b: string, c: char)
    ensures Split(a + [c] + b, c) == Split(a, c) + Split(b, c)
  {
    var s := a + [c] + b;
    if a == "" {
      assert s[1..] == b;
    } else {
      assert s[1..] == a[1..] + [c] + b;
      SplitAtSeparator(a[1..], b, c);
    }
  }

  lemma {:induction false} JoinSplit(s: string, c: char)
    ensures Join(Split(s, c), c) == s
  {
    if s != "" {
      var rest := Split(s[1..], c);
      JoinSplit(s[1..], c);
      if s[0] == c {
        assert Split(s, c)[1..] == rest;
        assert Join(Split(s, c), c) == "" + [c] + Join(rest, c);
      } else if |rest| > 1 {
        assert Split(s, c)[1..] == rest[1..];
        assert [s[0]] + rest[0] + [c] + Join(rest[1..], c) == [s[0]] + (rest[0] + [c] + Join(rest[1..], c));
      }
    }
  }

  lemma {:induction false} SplitJoin(parts: seq<string>, c: char)
    requires parts != [] && forall p | p in parts :: Free(p, c)
    ensures Split(Join(parts, c), c) == parts
  {
    SplitFree(parts[0], c);
    if |parts| > 1 {
      SplitAtSeparator(parts[0], Join(parts[1..], c), c);
      SplitJoin(parts[1..], c);
    }
  }

  // ----- records

  /** `Number(text)`: exact on numerals; every other text is kept as it is, uninterpreted. */
  datatype JsNumber = Exact(n: nat) | Other(text: string)

  function ToNumber(text: string): JsNumber {
    if AllDigits(text) then Exact(Value(text)) else Other(text)
  }

  datatype RawTransfer = RawTransfer(
    txHash: string,
    transferIndex: JsNumber,
    blockNumber: JsNumber,
    from: string,
    to: string,
    amount: string,
    timestamp: JsNumber,
    blockchain: string,
    token: string,
    transactionIndex: JsNumber,
    logIndex: JsNumber,
    tag: string,             // `label` in the source
    metadata: Option<string>)

  function ParseLine(line: string): Option<RawTransfer> {
    var p := Split(line, ',');
    if |p| < RAW_FIELD_COUNT then None
    else Some(RawTransfer(
      p[0], ToNumber(p[1]), ToNumber(p[2]), p[3], p[4], p[5], ToNumber(p[6]), p[7], p[8],
      ToNumber(p[9]), ToNumber(p[10]), p[11],
      if |p| > RAW_FIELD_COUNT then Some(Join(p[RAW_FIELD_COUNT..], ',')) else None))
  }

  function ParseLines(lines: seq<string>): seq<RawTransfer> {
    if lines == [] then []
    else
      var rest := ParseLines(lines[1..]);
      if lines[0] == "" then rest
      else match ParseLine(lines[0]) case None => rest case Some(t) => [t] + rest
  }

  function ParseGroupedTransactionRaw(raw: string): seq<RawTransfer> {
    ParseLines(Split(raw, '\n'))
  }

  // ----- a printer for the format

  predicate Printable(s: string) {
    Free(s, ',') && Free(s, '\n')
  }

  predicate WellFormed(r: RawTransfer) {
    && Printable(r.txHash) && Printable(r.from) && Printable(r.to) && Printable(r.amount)
    && Printable(r.blockchain) && Printable(r.token) && Printable(r.tag)
    && r.transferIndex.Exact? && r.blockNumber.Exact? && r.timestamp.Exact?
    && r.transactionIndex.Exact? && r.logIndex.Exact?
    && (r.metadata.Some? ==> Free(r.metadata.value, '\n'))
  }

  function Fields(r: RawTransfer): (fields: seq<string>)
    requires WellFormed(r)
    ensures |fields| == RAW_FIELD_COUNT
  {
    [r.txHash, Digits(r.transferIndex.n), Digits(r.blockNumber.n), r.from, r.to, r.amount, Digits(r.timestamp.n),
     r.blockchain, r.token, Digits(r.transactionIndex.n), Digits(r.logIndex.n), r.tag]
  }

  function PrintLine(r: RawTransfer): string
    requires WellFormed(r)
  {
    Join(Fields(r), ',') + (if r.metadata.Some? then "," + r.metadata.value else "")
  }

  function Lines(rs: seq<RawTransfer>): (lines: seq<string>)
    requires forall r | r in rs :: WellFormed(r)
    ensures |lines| == |rs|
  {
    if rs == [] then [] else [PrintLine(rs[0])] + Lines(rs[1..])
  }

  function PrintAll(rs: seq<RawTransfer>): string
    requires forall r | r in rs :: WellFormed(r)
  {
    Join(Lines(rs), '\n')
  }

  // ----- parsing undoes printing

  lemma FieldsArePrintable(r: RawTransfer)
    requires WellFormed(r)
    ensures forall p | p in Fields(r) :: Printable(p)
  {
    DigitsArePrintable(r.transferIndex.n);
    DigitsArePrintable(r.blockNumber.n);
    DigitsArePrintable(r.timestamp.n);
    DigitsArePrintable(r.transactionIndex.n);
    DigitsArePrintable(r.logIndex.n);
  }

  lemma DigitsArePrintable(n: nat)
    ensures Printable(Digits(n)) && ToNumber(Digits(n)) == Exact(n)
  {
    ValueOfDigits(n);
  }

  lemma LineSplits(r: RawTransfer)
    requires WellFormed(r)
    ensures Split(PrintLine(r), ',') == Fields(r) + (if r.metadata.Some? then Split(r.metadata.value, ',') else [])
  {
    FieldsArePrintable(r);
    SplitJoin(Fields(r), ',');
    var head := Join(Fields(r), ',');
    if r.metadata.Some? {
      SplitAtSeparator(head, r.metadata.value, ',');
      assert head + [','] + r.metadata.value == head + ("," + r.metadata.value);
    } else {
      assert head + "" == head;
    }
  }

  /** A line of comma-free fields is read by position: the first twelve, and the rest as metadata. */
  lemma LineIsPositional(p: seq<string>)
    requires p != [] && forall x | x in p :: Free(x, ',')
    ensures |p| < 12 <==> ParseLine(Join(p, ',')).None?
    ensures |p| >= 12 ==>
              var t := ParseLine(Join(p, ',')).value;
              && t.txHash == p[0] && t.transferIndex == ToNumber(p[1]) && t.blockNumber == ToNumber(p[2])
              && t.from == p[3] && t.to == p[4] && t.amount == p[5] && t.timestamp == ToNumber(p[6])
              && t.blockchain == p[7] && t.token == p[8] && t.transactionIndex == ToNumber(p[9])
              && t.logIndex == ToNumber(p[10]) && t.tag == p[11]
              && t.metadata == (if |p| == 12 then None else Some(Join(p[12..], ',')))
  {
    SplitJoin(p, ',');
  }

  /** A record survives its line: commas in the metadata, and no metadata as against empty metadata. */
  lemma LineRoundTrip(r: RawTransfer)
    requires WellFormed(r)
    ensures ParseLine(PrintLine(r)) == Some(r)
  {
    LineSplits(r);
    var p := Split(PrintLine(r), ',');
    assert p[..RAW_FIELD_COUNT] == Fields(r);
    if r.metadata.Some? {
      assert p[RAW_FIELD_COUNT..] == Split(r.metadata.value, ',');
      JoinSplit(r.metadata.value, ',');
    }
    DigitsArePrintable(r.transferIndex.n);
    DigitsArePrintable(r.blockNumber.n);
    DigitsArePrintable(r.timestamp.n);
    DigitsArePrintable(r.transactionIndex.n);
    DigitsArePrintable(r.logIndex.n);
  }

  lemma {:induction false} JoinFree(parts: seq<string>, c: char, d: char)
    requires c != d && forall p | p in parts :: Free(p, d)
    ensures Free(Join(parts, c), d)
  {
    if |parts| > 1 {
      assert parts[0] in parts && forall p | p in parts[1..] :: p in parts;
      JoinFree(parts[1..], c, d);
      var rest := Join(parts[1..], c);
      assert forall i | 0 <= i < |rest| :: rest[i] != d;
      assert Join(parts, c) == parts[0] + [c] + rest;
    } else if |parts| == 1 {
      assert parts[0] in parts;
    }
  }

  lemma LineIsOneLine(r: RawTransfer)
    requires WellFormed(r)
    ensures Free(PrintLine(r), '\n') && PrintLine(r) != ""
  {
    FieldsArePrintable(r);
    JoinFree(Fields(r), ',', '\n');
    LineSplits(r);
    assert Split("", ',') == [""];
  }

  lemma {:induction false} ParseLinesConcat(a: seq<string>, b: seq<string>)
    ensures ParseLines(a + b) == ParseLines(a) + ParseLines(b)
  {
    if a == [] {
      assert a + b == b;
    } else {
      assert (a + b)[1..] == a[1..] + b;
      ParseLinesConcat(a[1..], b);
    }
  }

  /** Parsing distributes over newline concatenation, malformed and empty lines included. */
  lemma ParseConcat(a: string, b: string)
    ensures ParseGroupedTransactionRaw(a + "\n" + b) == ParseGroupedTransactionRaw(a) + ParseGroupedTransactionRaw(b)
  {
    SplitAtSeparator(a, b, '\n');
    ParseLinesConcat(Split(a, '\n'), Split(b, '\n'));
  }

  lemma {:induction false} LinesParse(rs: seq<RawTransfer>)
    requires forall r | r in rs :: WellFormed(r)
    ensures ParseLines(Lines(rs)) == rs
    ensures forall line | line in Lines(rs) :: Free(line, '\n') && line != ""
  {
    if rs != [] {
      var line, rest := PrintLine(rs[0]), Lines(rs[1..]);
      LineIsOneLine(rs[0]);
      LineRoundTrip(rs[0]);
      LinesParse(rs[1..]);
      assert Lines(rs) == [line] + rest && ([line] + rest)[1..] == rest;
      assert rs == [rs[0]] + rs[1..];
    }
  }

  /** Wire round trip: every list of records comes back, in order. */
  lemma WireRoundTrip(rs: seq<RawTransfer>)
    requires forall r | r in rs :: WellFormed(r)
    ensures ParseGroupedTransactionRaw(PrintAll(rs)) == rs
  {
    LinesParse(rs);
    if rs == [] {
      assert Split("", '\n')[1..] == [];
    } else {
      SplitJoin(Lines(rs), '\n');
    }
  }
}
