/**
 The Redis stream adapter: from the flat field lists of stream messages to transfer events.
 */
module StreamAdapter {
  import opened Wrappers
  import opened Coupons
  import opened DecimalText
  import opened GroupedTransaction
  import Balance

  const GROUPED_TRANSACTION_MSG_TYPE := "grouped_transaction"
  const USDT_DECIMALS: nat := 6

  datatype TransferEvent = TransferEvent(
    from: string, to: string, amount: string, txHash: string, chain: string, token: string)

  datatype Message = Message(id: string, fields: seq<string>)

  // ----- the specification

  /** Pairs of a flat list; a later value of a key replaces an earlier one, an odd last field is dropped. */
  function RecordOf(fields: seq<string>): map<string, string>
    decreases |fields|
  {
    if |fields| < 2 then map[]
    else
      var n := |fields| - |fields| % 2;
      RecordOf(fields[..n - 2])[fields[n - 2] := fields[n - 1]]
  }

  /** The event of a record: complete, bound for a merchant, and with an amount that reads. */
  function EventOf(t: RawTransfer, merchants: set<Address>): Option<TransferEvent> {
    var raw := Balance.DecimalToRawUnits(t.amount, USDT_DECIMALS);
    if t.from == "" || t.to == "" || t.amount == "" || t.txHash == "" then None
    else if ToLower(t.to) !in merchants || raw.None? then None
    else Some(TransferEvent(t.from, t.to, raw.value, t.txHash,
                            if t.blockchain == "" then "ethereum" else t.blockchain, t.token))
  }

  /** The results of `f` on a list, in order, where it has one. */
  function Collect<A, B>(xs: seq<A>, f: A -> Option<B>): seq<B> {
    if xs == [] then []
    else Collect(xs[..|xs| - 1], f) + Kept(f(xs[|xs| - 1]))
  }

  function Kept<B>(x: Option<B>): seq<B> {
    if x.Some? then [x.value] else []
  }

  function Select(ts: seq<RawTransfer>, merchants: set<Address>): seq<TransferEvent> {
    Collect(ts, (t: RawTransfer) => EventOf(t, merchants))
  }

  function EventsOf(fields: seq<string>, merchants: set<Address>): seq<TransferEvent> {
    var item := RecordOf(fields);
    if "type" !in item || item["type"] != GROUPED_TRANSACTION_MSG_TYPE || "raw" !in item || item["raw"] == "" then []
    else Select(ParseGroupedTransactionRaw(item["raw"]), merchants)
  }

  /** The results of `f` on a list, one after the other. */
  function Flatten<A, B>(xs: seq<A>, f: A -> seq<B>): seq<B> {
    if xs == [] then [] else Flatten(xs[..|xs| - 1], f) + f(xs[|xs| - 1])
  }

  function AllEvents(messages: seq<Message>, merchants: set<Address>): seq<TransferEvent> {
    Flatten(messages, (m: Message) => EventsOf(m.fields, merchants))
  }

  lemma CollectOneMore<A, B>(xs: seq<A>, f: A -> Option<B>, i: nat)
    requires i < |xs|
    ensures Collect(xs[..i + 1], f) == Collect(xs[..i], f) + Kept(f(xs[i]))
  {
    assert xs[..i + 1][..i] == xs[..i];
  }

  // ----- the loops

  lemma RecordOneMore(fields: seq<string>, i: nat)
    requires i + 1 < |fields| && i % 2 == 0
    ensures RecordOf(fields[..i + 2]) == RecordOf(fields[..i])[fields[i] := fields[i + 1]]
  {
    assert fields[..i + 2][..i] == fields[..i];
  }

  /** An odd last field is left over. */
  lemma OddTail(fields: seq<string>, i: nat)
    requires i % 2 == 0 && |fields| == i + 1
    ensures RecordOf(fields) == RecordOf(fields[..i])
  {
    if i >= 2 {
      assert fields[..i][..i - 2] == fields[..i - 2];
    }
  }

  /** Position `i` holds the key `k`. */
  predicate KeyAt(fields: seq<string>, k: string, i: nat) {
    i % 2 == 0 && i + 1 < |fields| && fields[i] == k
  }

  /** A key maps to the field after its last occurrence as a key, and nothing else is a key. */
  lemma {:induction false} RecordIsLastValue(fields: seq<string>, k: string)
    ensures k in RecordOf(fields) <==> exists i: nat :: KeyAt(fields, k, i)
    ensures forall i: nat | KeyAt(fields, k, i) && (forall j: nat | j > i :: !KeyAt(fields, k, j)) ::
              RecordOf(fields)[k] == fields[i + 1]
    decreases |fields|
  {
    if |fields| >= 2 {
      var n := |fields| - |fields| % 2;
      var front := fields[..n - 2];
      RecordIsLastValue(front, k);
      assert forall i: nat :: KeyAt(fields, k, i) <==> KeyAt(front, k, i) || (i == n - 2 && fields[i] == k);
    }
  }

  method FlatFieldsToRecord(fields: seq<string>) returns (record: map<string, string>)
    ensures record == RecordOf(fields)
  {
    record := map[];
    var i := 0;
    while i < |fields| - 1
      invariant 0 <= i <= |fields| && i % 2 == 0
      invariant record == RecordOf(fields[..i])
    {
      RecordOneMore(fields, i);
      record := record[fields[i] := fields[i + 1]];
      i := i + 2;
    }
    if i == |fields| {
      assert fields[..i] == fields;
    } else {
      OddTail(fields, i);
    }
  }

  method ToTransferEvents(fields: seq<string>, merchants: set<Address>) returns (events: seq<TransferEvent>)
    ensures events == EventsOf(fields, merchants)
  {
    events := [];
    var item := FlatFieldsToRecord(fields);
    if "type" !in item || item["type"] != GROUPED_TRANSACTION_MSG_TYPE || "raw" !in item || item["raw"] == "" {
      return;
    }
    var transfers := ParseGroupedTransactionRaw(item["raw"]);
    for i := 0 to |transfers|
      invariant events == Select(transfers[..i], merchants)
    {
      var transfer := transfers[i];
      CollectOneMore(transfers, (t: RawTransfer) => EventOf(t, merchants), i);
      if transfer.from == "" || transfer.to == "" || transfer.amount == "" || transfer.txHash == "" {
        continue;
      }
      if ToLower(transfer.to) !in merchants {
        continue;
      }
      var rawAmount := Balance.DecimalToRawUnits(transfer.amount, USDT_DECIMALS);
      if rawAmount.None? {
        continue;
      }
      var chain := if transfer.blockchain == "" then "ethereum" else transfer.blockchain;
      events := events + [TransferEvent(
        transfer.from, transfer.to, rawAmount.value, transfer.txHash, chain, transfer.token)];
    }
    assert transfers[..|transfers|] == transfers;
  }

  lemma FlattenOneMore<A, B>(xs: seq<A>, f: A -> seq<B>, i: nat)
    requires i < |xs|
    ensures Flatten(xs[..i + 1], f) == Flatten(xs[..i], f) + f(xs[i])
  {
    assert xs[..i + 1][..i] == xs[..i];
  }

  lemma {:induction false} FlattenConcat<A, B>(a: seq<A>, b: seq<A>, f: A -> seq<B>)
    ensures Flatten(a + b, f) == Flatten(a, f) + Flatten(b, f)
    decreases |b|
  {
    if b == [] {
      assert a + b == a;
    } else {
      var n := |b| - 1;
      assert (a + b)[..|a + b| - 1] == a + b[..n];
      FlattenConcat(a, b[..n], f);
    }
  }

  /** The events of messages come in the order of the messages. */
  lemma AllEventsConcat(a: seq<Message>, b: seq<Message>, merchants: set<Address>)
    ensures AllEvents(a + b, merchants) == AllEvents(a, merchants) + AllEvents(b, merchants)
  {
    FlattenConcat(a, b, (m: Message) => EventsOf(m.fields, merchants));
  }

  /** One more message, whatever its events are. */
  lemma OneMoreRead(messages: seq<Message>, merchants: set<Address>, i: nat, events: seq<TransferEvent>,
                    more: seq<TransferEvent>)
    requires i < |messages| && events == AllEvents(messages[..i], merchants)
    requires more == EventsOf(messages[i].fields, merchants)
    ensures events + more == AllEvents(messages[..i + 1], merchants)
  {
    FlattenOneMore(messages, (m: Message) => EventsOf(m.fields, merchants), i);
  }

  /** Every message is acknowledged, matching or not. */
  method Read(messages: seq<Message>, merchants: set<Address>)
      returns (events: seq<TransferEvent>, idsToAck: seq<string>)
    ensures events == AllEvents(messages, merchants)
    ensures ForMerchants(events, merchants)
    ensures |idsToAck| == |messages| && forall i | 0 <= i < |messages| :: idsToAck[i] == messages[i].id
  {
    events, idsToAck := [], [];
    for i := 0 to |messages|
      invariant events == AllEvents(messages[..i], merchants)
      invariant |idsToAck| == i && forall j | 0 <= j < i :: idsToAck[j] == messages[j].id
    {
      idsToAck := idsToAck + [messages[i].id];
      var more := ToTransferEvents(messages[i].fields, merchants);
      OneMoreRead(messages, merchants, i, events, more);
      events := events + more;
    }
    assert messages[..|messages|] == messages;
    AllAreForMerchants(messages, merchants);
  }

  // ----- what is delivered

  lemma {:induction false} CollectConcat<A, B>(a: seq<A>, b: seq<A>, f: A -> Option<B>)
    ensures Collect(a + b, f) == Collect(a, f) + Collect(b, f)
    decreases |b|
  {
    if b == [] {
      assert a + b == a;
    } else {
      var n := |b| - 1;
      assert (a + b)[..|a + b| - 1] == a + b[..n];
      CollectConcat(a, b[..n], f);
    }
  }

  lemma {:induction false} CollectedExactly<A, B>(xs: seq<A>, f: A -> Option<B>, y: B)
    ensures y in Collect(xs, f) <==> exists x :: x in xs && f(x) == Some(y)
    decreases |xs|
  {
    if xs != [] {
      var n := |xs| - 1;
      CollectedExactly(xs[..n], f, y);
      assert xs == xs[..n] + [xs[n]];
      assert y in Kept(f(xs[n])) <==> f(xs[n]) == Some(y);
    }
  }

  /** The event that a record is delivered as: payer, merchant, hash and token are the record's own. */
  ghost predicate DeliveredAs(t: RawTransfer, merchants: set<Address>, e: TransferEvent) {
    && t.from != "" && t.to != "" && t.amount != "" && t.txHash != ""
    && ToLower(t.to) in merchants
    && Balance.DecimalToRawUnits(t.amount, 6) == Some(e.amount)
    && e.from == t.from && e.to == t.to && e.txHash == t.txHash && e.token == t.token
    && e.chain == if t.blockchain == "" then "ethereum" else t.blockchain
  }

  lemma EventIffDelivered(t: RawTransfer, merchants: set<Address>, e: TransferEvent)
    ensures EventOf(t, merchants) == Some(e) <==> DeliveredAs(t, merchants, e)
  {
  }

  /** No event is invented or altered, and none that is due is left out. */
  lemma SelectedExactly(ts: seq<RawTransfer>, merchants: set<Address>, e: TransferEvent)
    ensures e in Select(ts, merchants) <==> exists t :: t in ts && DeliveredAs(t, merchants, e)
  {
    var f := (t: RawTransfer) => EventOf(t, merchants);
    CollectedExactly(ts, f, e);
    forall t
      ensures f(t) == Some(e) <==> DeliveredAs(t, merchants, e)
    {
      EventIffDelivered(t, merchants, e);
    }
  }

  /** Only the type "grouped_transaction" with a text to parse delivers anything. */
  lemma OtherMessagesDeliverNothing(fields: seq<string>, merchants: set<Address>)
    requires EventsOf(fields, merchants) != []
    ensures "type" in RecordOf(fields) && RecordOf(fields)["type"] == "grouped_transaction"
    ensures "raw" in RecordOf(fields) && RecordOf(fields)["raw"] != ""
  {
  }

  lemma EventsAreForMerchants(fields: seq<string>, merchants: set<Address>)
    ensures ForMerchants(EventsOf(fields, merchants), merchants)
  {
    forall e | e in EventsOf(fields, merchants)
      ensures ToLower(e.to) in merchants
    {
      SelectedExactly(ParseGroupedTransactionRaw(RecordOf(fields)["raw"]), merchants, e);
    }
  }

  /** All recipients are merchants. */
  predicate ForMerchants(events: seq<TransferEvent>, merchants: set<Address>) {
    forall e | e in events :: ToLower(e.to) in merchants
  }

  lemma {:induction false} AllAreForMerchants(messages: seq<Message>, merchants: set<Address>)
    ensures ForMerchants(AllEvents(messages, merchants), merchants)
    decreases |messages|
  {
    if messages != [] {
      var n := |messages| - 1;
      AllAreForMerchants(messages[..n], merchants);
      EventsAreForMerchants(messages[n].fields, merchants);
      assert messages[..n + 1] == messages;
      OneMoreRead(messages, merchants, n, AllEvents(messages[..n], merchants), EventsOf(messages[n].fields, merchants));
    }
  }

  /** A message printed from records delivers exactly the merchant-bound ones among them, in order. */
  lemma PrintedMessageDelivers(rs: seq<RawTransfer>, merchants: set<Address>)
    requires forall r | r in rs :: WellFormed(r)
    ensures EventsOf(["type", GROUPED_TRANSACTION_MSG_TYPE, "raw", PrintAll(rs)], merchants) == Select(rs, merchants)
  {
    var fields := ["type", GROUPED_TRANSACTION_MSG_TYPE, "raw", PrintAll(rs)];
    RecordOneMore(fields, 0);
    RecordOneMore(fields, 2);
    assert fields[..4] == fields && RecordOf(fields[..0]) == map[];
    if rs != [] {
      WireRoundTrip(rs);
    }
    assert ParseGroupedTransactionRaw("") == [] by {
      assert Split("", '\n')[1..] == [];
    }
  }

  /** Two groups of lines in one message deliver what they would deliver in two. */
  lemma GroupsDeliverAlone(a: string, b: string, merchants: set<Address>)
    ensures Select(ParseGroupedTransactionRaw(a + "\n" + b), merchants)
            == Select(ParseGroupedTransactionRaw(a), merchants) + Select(ParseGroupedTransactionRaw(b), merchants)
  {
    ParseConcat(a, b);
    CollectConcat(ParseGroupedTransactionRaw(a), ParseGroupedTransactionRaw(b),
                  (t: RawTransfer) => EventOf(t, merchants));
  }

  // ----- from the record to the coupon

  /** `BigInt(text)` on what the adapter writes: digits, with a sign if the amount is negative. */
  function BigIntOf(text: string): Option<int> {
    if text != "" && AllDigits(text) then Some(Value(text))
    else if |text| > 1 && text[0] == '-' && AllDigits(text[1..]) then
      var n: int := Value(text[1..]);
      Some(-n)
    else None
  }

  /** The issuance job of an event. */
  function JobOf(e: TransferEvent): Option<Transfer> {
    match BigIntOf(e.amount)
    case None => None
    case Some(amount) => Some(Transfer(e.from, e.to, amount, e.txHash))
  }

  /** A payment in a record: `w` and `f` are the whole part and the fraction of its amount. */
  ghost predicate IsPayment(r: RawTransfer, w: string, f: string) {
    && r.from != "" && r.to != "" && r.txHash != ""
    && AllDigits(w) && AllDigits(f) && w != ""
    && r.amount == if f == "" then w else w + "." + f
  }

  lemma PaymentIsDelivered(r: RawTransfer, w: string, f: string, merchants: set<Address>) returns (e: TransferEvent)
    requires IsPayment(r, w, f) && ToLower(r.to) in merchants
    ensures DeliveredAs(r, merchants, e)
    ensures JobOf(e) == Some(Transfer(r.from, r.to, Balance.Floor(w, f, 6), r.txHash))
  {
    Balance.PlainIsFloored(r.amount, w, f, 6);
    ValueOfDigits(Balance.Floor(w, f, 6));
    e := TransferEvent(r.from, r.to, Digits(Balance.Floor(w, f, 6)), r.txHash,
                       if r.blockchain == "" then "ethereum" else r.blockchain, r.token);
  }

  /**
   From the wire to the coupon: a payment to a merchant in a printed message is delivered, and its
   job makes, at or above the floor and with hash and code new, a coupon for the record's payer,
   merchant and amount.
   */
  lemma PaymentReachesItsCoupon(rs: seq<RawTransfer>, r: RawTransfer, w: string, f: string,
                                cfg: Config, t: Table, code: string, found: Option<UserId>) returns (e: TransferEvent)
    requires r in rs && forall x | x in rs :: WellFormed(x)
    requires IsPayment(r, w, f) && ToLower(r.to) in cfg.merchantAddresses
    requires Balance.Floor(w, f, 6) >= cfg.minPayoutUsdtRaw
    requires ToLower(r.txHash) !in t && forall k | k in t :: t[k].code != code
    ensures e in EventsOf(["type", "grouped_transaction", "raw", PrintAll(rs)], cfg.merchantAddresses)
    ensures JobOf(e).Some? && ToLower(r.txHash) in Issue(cfg, t, JobOf(e).value, code, found)
    ensures var cp := Issue(cfg, t, JobOf(e).value, code, found)[ToLower(r.txHash)];
            && cp.payerAddress == ToLower(r.from) && cp.merchantAddress == ToLower(r.to)
            && cp.usdtAmountRaw == Balance.Floor(w, f, 6)
            && cp.utlAmountRaw == Balance.Floor(w, f, 6) * cfg.cashbackBps * 100_000_000
  {
    e := PaymentIsDelivered(r, w, f, cfg.merchantAddresses);
    PrintedMessageDelivers(rs, cfg.merchantAddresses);
    SelectedExactly(rs, cfg.merchantAddresses, e);
    InsertsIff(cfg, t, JobOf(e).value, code, found);
  }
}
