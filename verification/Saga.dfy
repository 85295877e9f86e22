// The order and settlement handlers of the cluster example, interleaved: every database operation is one
// step, any handler may stop anywhere, and any request may be sent again.

module OrderRecords {
  import opened Wrappers

  const MAX63: int := 0x7FFF_FFFF_FFFF_FFFF

  type int64 = x: int | -0x8000_0000_0000_0000 <= x <= 0x7FFF_FFFF_FFFF_FFFF

  datatype OrderRequest = OrderRequest(orderId: string, sku: string, qty: int64, discount: int64)

  datatype BillRequest = BillRequest(order: OrderRequest, total: int64)

  datatype RecordState = Pending | Settled

  datatype Record = Record(
    orderId: string, sku: string, qty: int64, total: int64, discount: int64, payable: int64,
    state: RecordState, catalogInstance: string, orderInstance: string, settlementInstance: string)

  datatype Code = InvalidArgument | NotFound | ProtocolError | Unavailable

  predicate SafeChar(c: char) {
    '0' <= c <= '9' || 'A' <= c <= 'Z' || 'a' <= c <= 'z' || c == '-' || c == '_'
  }

  predicate SafeToken(value: string) {
    0 < |value| <= 80 && forall i | 0 <= i < |value| :: SafeChar(value[i])
  }

  predicate ValidOrder(q: OrderRequest) {
    SafeToken(q.orderId) && SafeToken(q.sku) && q.qty > 0 && q.discount >= 0
  }

  predicate SamePayload(r: Record, q: OrderRequest) {
    r.orderId == q.orderId && r.sku == q.sku && r.qty == q.qty && r.discount == q.discount
  }

  /** What CreateOrder computes before it inserts: every product and difference stays inside 64 bits. */
  function PendingRecord(q: OrderRequest, unit: int64, catalog: string, node: string): Result<Record, Code>
    requires q.qty > 0 && q.discount >= 0
  {
    if unit <= 0 || q.qty > MAX63 / unit then
      Err(InvalidArgument)
    else
      AmountFits(q.qty, unit);
      var total: int64 := q.qty * unit;
      if q.discount > total then
        Err(InvalidArgument)
      else
        Ok(Record(q.orderId, q.sku, q.qty, total, q.discount, total - q.discount, Pending, catalog, node, ""))
  }

  /** The guard is exact: it refuses just the products that do not fit. */
  lemma AmountFits(qty: int64, unit: int64)
    requires qty > 0 && unit > 0
    ensures qty > MAX63 / unit <==> qty * unit > MAX63
    ensures qty * unit > 0
  {
    var most := MAX63 / unit;
    assert most * unit <= MAX63 < (most + 1) * unit;
    if qty > most {
      assert qty * unit >= (most + 1) * unit;
    } else {
      assert qty * unit <= most * unit;
    }
  }

  const UPPER := "ABCDEFGHIJKLMNOPQRSTUVWXYZ"
  const LOWER := "abcdefghijklmnopqrstuvwxyz"
  const DECIMALS := "0123456789"

  predicate TokenChar(c: char) {
    c in UPPER || c in LOWER || c in DECIMALS || c in "-_"
  }

  lemma UpperIff(c: char)
    ensures c in UPPER <==> 'A' <= c <= 'Z'
  {
    if 'A' <= c <= 'Z' {
      assert UPPER[c as int - 'A' as int] == c;
    }
  }

  lemma LowerIff(c: char)
    ensures c in LOWER <==> 'a' <= c <= 'z'
  {
    if 'a' <= c <= 'z' {
      assert LOWER[c as int - 'a' as int] == c;
    }
  }

  lemma DecimalIff(c: char)
    ensures c in DECIMALS <==> '0' <= c <= '9'
  {
    if '0' <= c <= '9' {
      assert DECIMALS[c as int - '0' as int] == c;
    }
  }

  lemma SafeCharIff(c: char)
    ensures SafeChar(c) <==> TokenChar(c)
  {
    UpperIff(c);
    LowerIff(c);
    DecimalIff(c);
    hide UPPER, LOWER, DECIMALS;
  }

  /** A valid order names an id and a product with one to eighty safe characters each, a positive quantity and a
      discount that is not negative. */
  lemma OrderIsValidIff(q: OrderRequest)
    ensures ValidOrder(q) <==>
      && q.qty > 0 && q.discount >= 0 && 1 <= |q.orderId| <= 80 && 1 <= |q.sku| <= 80
      && (forall c | c in q.orderId :: TokenChar(c)) && (forall c | c in q.sku :: TokenChar(c))
  {
    hide SafeChar, TokenChar;
    forall c: char ensures SafeChar(c) <==> TokenChar(c) {
      SafeCharIff(c);
    }
    if forall c | c in q.orderId :: TokenChar(c) {
      assert forall i | 0 <= i < |q.orderId| :: q.orderId[i] in q.orderId;
    }
    if forall c | c in q.sku :: TokenChar(c) {
      assert forall i | 0 <= i < |q.sku| :: q.sku[i] in q.sku;
    }
  }

  /** The record of a first CreateOrder: it exists iff the amounts fit, and every field of it is known. */
  lemma PendingIff(q: OrderRequest, unit: int64, catalog: string, node: string)
    requires q.qty > 0 && q.discount >= 0
    ensures var r := PendingRecord(q, unit, catalog, node);
      && (r.Ok? <==> unit > 0 && q.qty * unit <= MAX63 && q.discount <= q.qty * unit)
      && (r.Err? ==> r.error == InvalidArgument)
      && (r.Ok? ==>
            && r.value.orderId == q.orderId && r.value.sku == q.sku && r.value.qty == q.qty
            && r.value.total == q.qty * unit && r.value.discount == q.discount
            && r.value.payable == q.qty * unit - q.discount && r.value.state == Pending
            && r.value.catalogInstance == catalog && r.value.orderInstance == node && r.value.settlementInstance == "")
  {
    if unit > 0 {
      AmountFits(q.qty, unit);
    }
  }

  function BillRecord(q: BillRequest, node: string): Record
    requires 0 <= q.order.discount <= q.total
  {
    Record(q.order.orderId, q.order.sku, q.order.qty, q.total, q.order.discount, q.total - q.order.discount,
           Settled, "", "", node)
  }

  /** The refusals of Settle that need no database. */
  predicate ValidBill(q: BillRequest) {
    ValidOrder(q.order) && q.total > 0 && q.order.discount <= q.total
  }

  /** CreateOrder accepts only a bill that repeats its own amounts. */
  predicate ConsistentBill(bill: Record, q: OrderRequest, saved: Record) {
    SamePayload(bill, q) && bill.state == Settled && bill.total == saved.total && bill.payable == saved.payable
  }

  /** A settlement reply that does not repeat the request and the saved amounts: another order's, or a broken one. */
  predicate Garbled(reply: Record, q: OrderRequest, saved: Record) {
    || reply.orderId != q.orderId || reply.sku != q.sku || reply.qty != q.qty || reply.discount != q.discount
    || reply.state != Settled || reply.total != saved.total || reply.payable != saved.payable
  }

  function SettledWith(saved: Record, bill: Record): Record {
    saved.(state := Settled, settlementInstance := bill.settlementInstance)
  }
}

module SagaMachine {
  import opened Wrappers
  import opened OrderRecords

  datatype Handler =
    | Reading(q: OrderRequest)
    | Pricing(q: OrderRequest)
    | Inserting(q: OrderRequest, pending: Record)
    | ReadingBack(q: OrderRequest)
    | AwaitingBill(q: OrderRequest, saved: Record)
    | Marking(q: OrderRequest, settled: Record)
    | Rereading(q: OrderRequest)
    | BillReading(bill: BillRequest, node: string)
    | BillInserting(bill: BillRequest, draft: Record)
    | BillReadingBack(bill: BillRequest)

  /** The two collections, the handlers that run, and the successful replies so far. */
  datatype State = State(
    orders: map<string, Record>, bills: map<string, Record>, handlers: map<nat, Handler>,
    replies: set<(OrderRequest, Record)>, billReplies: set<(BillRequest, Record)>)

  const START := State(map[], map[], map[], {}, {})

  /** What the backend does with a write.  A lost answer leaves the caller without knowing. */
  datatype Write = Done | DoneAnswerLost | NotDone

  datatype Event =
    | StartCreate(k: nat, q: OrderRequest)
    | StartSettle(k: nat, bill: BillRequest, node: string)
    | Read(k: nat)
    | Priced(k: nat, unit: int64, catalog: string, node: string)
    | Insert(k: nat, write: Write)
    | BillArrives(k: nat, reply: Record)
    | Mark(k: nat, write: Write)
    | Stop(k: nat)

  function With(s: State, k: nat, h: Handler): State {
    s.(handlers := s.handlers[k := h])
  }

  function Gone(s: State, k: nat): State {
    s.(handlers := s.handlers - {k})
  }

  /** CreateOrder once it has a saved record. */
  function Saved(s: State, k: nat, q: OrderRequest, saved: Record): State {
    if !SamePayload(saved, q) then Gone(s, k)
    else if saved.state == Settled then Gone(s, k).(replies := s.replies + {(q, saved)})
    else With(s, k, AwaitingBill(q, saved))
  }

  /** Settle once it has a saved record. */
  function Billed(s: State, k: nat, q: BillRequest, saved: Record): State {
    if !SamePayload(saved, q.order) || saved.total != q.total then Gone(s, k)
    else Gone(s, k).(billReplies := s.billReplies + {(q, saved)})
  }

  predicate Enabled(s: State, e: Event) {
    match e
    case StartCreate(k, q) => k !in s.handlers && ValidOrder(q)
    case StartSettle(k, q, node) => k !in s.handlers && ValidBill(q)
    case Read(k) =>
      k in s.handlers && var h := s.handlers[k];
      h.Reading? || h.ReadingBack? || h.Rereading? || h.BillReading? || h.BillReadingBack?
    case Priced(k, unit, catalog, node) => k in s.handlers && s.handlers[k].Pricing? && ValidOrder(s.handlers[k].q)
    case Insert(k, write) => k in s.handlers && (s.handlers[k].Inserting? || s.handlers[k].BillInserting?)
    case BillArrives(k, reply) =>
      && k in s.handlers && s.handlers[k].AwaitingBill?
      && ((BillRequest(s.handlers[k].q, s.handlers[k].saved.total), reply) in s.billReplies
          || Garbled(reply, s.handlers[k].q, s.handlers[k].saved))
    case Mark(k, write) => k in s.handlers && s.handlers[k].Marking?
    case Stop(k) => k in s.handlers
  }

  function AfterRead(s: State, k: nat): State
    requires Enabled(s, Read(k))
  {
    match s.handlers[k]
    case Reading(q) =>
      if q.orderId in s.orders then Saved(s, k, q, s.orders[q.orderId]) else With(s, k, Pricing(q))
    case ReadingBack(q) =>
      if q.orderId in s.orders then Saved(s, k, q, s.orders[q.orderId]) else Gone(s, k)
    case Rereading(q) =>
      if q.orderId in s.orders then
        Gone(s, k).(replies := s.replies + {(q, s.orders[q.orderId])})
      else
        Gone(s, k)
    case BillReading(q, node) =>
      var id := q.order.orderId;
      if id in s.bills then Billed(s, k, q, s.bills[id])
      else if 0 <= q.order.discount <= q.total then With(s, k, BillInserting(q, BillRecord(q, node)))
      else Gone(s, k)
    case BillReadingBack(q) =>
      if q.order.orderId in s.bills then Billed(s, k, q, s.bills[q.order.orderId]) else Gone(s, k)
    case _ => s
  }

  /** InsertRecord: the unique id admits one document; only a confirmed duplicate is read back. */
  function AfterInsert(s: State, k: nat, write: Write): State
    requires Enabled(s, Insert(k, write))
  {
    match s.handlers[k]
    case Inserting(q, r) =>
      if write == NotDone then Gone(s, k)
      else if r.orderId in s.orders then (if write == Done then With(s, k, ReadingBack(q)) else Gone(s, k))
      else
        var s' := s.(orders := s.orders[r.orderId := r]);
        if write == Done then Saved(s', k, q, r) else Gone(s', k)
    case BillInserting(q, r) =>
      if write == NotDone then Gone(s, k)
      else if r.orderId in s.bills then (if write == Done then With(s, k, BillReadingBack(q)) else Gone(s, k))
      else
        var s' := s.(bills := s.bills[r.orderId := r]);
        if write == Done then Billed(s', k, q, r) else Gone(s', k)
    case _ => s
  }

  /** MarkSettled: the whole record is written, whatever the document holds; no document means NotFound. */
  function AfterMark(s: State, k: nat, write: Write): State
    requires Enabled(s, Mark(k, write))
  {
    var h := s.handlers[k];
    if write == NotDone || h.settled.orderId !in s.orders then
      Gone(s, k)
    else
      var s' := s.(orders := s.orders[h.settled.orderId := h.settled]);
      if write == Done then With(s', k, Rereading(h.q)) else Gone(s', k)
  }

  function Next(s: State, e: Event): State
    requires Enabled(s, e)
  {
    match e
    case StartCreate(k, q) => With(s, k, Reading(q))
    case StartSettle(k, q, node) => With(s, k, BillReading(q, node))
    case Read(k) => AfterRead(s, k)
    case Priced(k, unit, catalog, node) =>
      var q := s.handlers[k].q;
      (match PendingRecord(q, unit, catalog, node)
       case Ok(pending) => With(s, k, Inserting(q, pending))
       case Err(_) => Gone(s, k))
    case Insert(k, write) => AfterInsert(s, k, write)
    case BillArrives(k, reply) =>
      var h := s.handlers[k];
      if ConsistentBill(reply, h.q, h.saved) then With(s, k, Marking(h.q, SettledWith(h.saved, reply))) else Gone(s, k)
    case Mark(k, write) => AfterMark(s, k, write)
    case Stop(k) => Gone(s, k)
  }

  // ---------- Invariants ----------

  /** Everything about a record that is fixed when it is inserted. */
  function Core(r: Record): Record {
    r.(state := Pending, settlementInstance := "")
  }

  predicate AmountsOk(r: Record) {
    r.qty > 0 && r.total > 0 && 0 <= r.discount <= r.total && r.payable == r.total - r.discount
  }

  predicate SameAmounts(r: Record, b: Record) {
    r.orderId == b.orderId && r.sku == b.sku && r.qty == b.qty && r.discount == b.discount
    && r.total == b.total && r.payable == b.payable
  }

  predicate BillsOk(bills: map<string, Record>) {
    forall id | id in bills :: bills[id].orderId == id && AmountsOk(bills[id]) && bills[id].state == Settled
  }

  /** The order as it stands once its bill is there. */
  predicate Matches(r: Record, bills: map<string, Record>) {
    r.orderId in bills && SameAmounts(r, bills[r.orderId])
      && r.settlementInstance == bills[r.orderId].settlementInstance
  }

  predicate OrdersOk(orders: map<string, Record>, bills: map<string, Record>) {
    forall id | id in orders ::
      && orders[id].orderId == id && AmountsOk(orders[id])
      && (orders[id].state == Pending ==> orders[id].settlementInstance == "")
      && (orders[id].state == Settled ==> Matches(orders[id], bills))
  }

  predicate HandlerOk(orders: map<string, Record>, bills: map<string, Record>, h: Handler) {
    match h
    case Inserting(q, r) => SamePayload(r, q) && AmountsOk(r) && r == Core(r)
    case AwaitingBill(q, r) =>
      SamePayload(r, q) && q.orderId in orders && r == Core(orders[q.orderId])
    case Marking(q, r) =>
      SamePayload(r, q) && q.orderId in orders && Core(r) == Core(orders[q.orderId]) && r.state == Settled
        && Matches(r, bills)
    case Rereading(q) => q.orderId in orders && orders[q.orderId].state == Settled && SamePayload(orders[q.orderId], q)
    case BillInserting(q, r) => SamePayload(r, q.order) && r.total == q.total && AmountsOk(r) && r.state == Settled
    case BillReading(q, _) => ValidBill(q)
    case Pricing(q) => ValidOrder(q)
    case Reading(q) => ValidOrder(q)
    case _ => true
  }

  /** A successful reply is the stored record, settled for good. */
  predicate RepliesOk(orders: map<string, Record>, replies: set<(OrderRequest, Record)>) {
    forall x | x in replies ::
      x.0.orderId in orders && orders[x.0.orderId] == x.1 && x.1.state == Settled && SamePayload(x.1, x.0)
  }

  predicate BillRepliesOk(bills: map<string, Record>, replies: set<(BillRequest, Record)>) {
    forall x | x in replies ::
      x.0.order.orderId in bills && bills[x.0.order.orderId] == x.1 && SamePayload(x.1, x.0.order)
        && x.1.total == x.0.total
  }

  predicate HandlersOk(orders: map<string, Record>, bills: map<string, Record>, handlers: map<nat, Handler>) {
    forall k | k in handlers :: HandlerOk(orders, bills, handlers[k])
  }

  predicate Inv(s: State) {
    && BillsOk(s.bills)
    && OrdersOk(s.orders, s.bills)
    && HandlersOk(s.orders, s.bills, s.handlers)
    && RepliesOk(s.orders, s.replies)
    && BillRepliesOk(s.bills, s.billReplies)
  }

  /** What later states keep: no document goes, no amount changes, and a settled order stays as it is. */
  predicate Grows(s: State, s': State) {
    && (forall id | id in s.orders ::
         id in s'.orders && Core(s'.orders[id]) == Core(s.orders[id])
         && (s.orders[id].state == Settled ==> s'.orders[id] == s.orders[id]))
    && (forall id | id in s.bills :: id in s'.bills && s'.bills[id] == s.bills[id])
    && s.replies <= s'.replies
  }

  lemma HandlerSurvives(orders: map<string, Record>, bills: map<string, Record>,
                        orders': map<string, Record>, bills': map<string, Record>, h: Handler)
    requires HandlerOk(orders, bills, h)
    requires forall id | id in orders ::
      id in orders' && Core(orders'[id]) == Core(orders[id])
        && (orders[id].state == Settled ==> orders'[id] == orders[id])
    requires forall id | id in bills :: id in bills' && bills'[id] == bills[id]
    ensures HandlerOk(orders', bills', h)
  {
  }

  lemma HandlersSurvive(orders: map<string, Record>, bills: map<string, Record>,
                        orders': map<string, Record>, bills': map<string, Record>, handlers: map<nat, Handler>)
    requires HandlersOk(orders, bills, handlers)
    requires forall id | id in orders ::
      id in orders' && Core(orders'[id]) == Core(orders[id])
        && (orders[id].state == Settled ==> orders'[id] == orders[id])
    requires forall id | id in bills :: id in bills' && bills'[id] == bills[id]
    ensures HandlersOk(orders', bills', handlers)
  {
    forall k | k in handlers ensures HandlerOk(orders', bills', handlers[k]) {
      HandlerSurvives(orders, bills, orders', bills', handlers[k]);
    }
  }

  lemma GrowsOn(a: State, b: State, c: State)
    requires Grows(a, b) && Grows(b, c)
    ensures Grows(a, c)
  {
  }

  // ---------- The five ways a step changes the state ----------

  lemma Moves(s: State, k: nat, h: Handler)
    requires Inv(s) && HandlerOk(s.orders, s.bills, h)
    ensures Inv(With(s, k, h)) && Grows(s, With(s, k, h))
  {
  }

  lemma Leaves(s: State, k: nat)
    requires Inv(s)
    ensures Inv(Gone(s, k)) && Grows(s, Gone(s, k))
  {
  }

  lemma NewOrder(s: State, r: Record)
    requires Inv(s) && r.orderId !in s.orders && r == Core(r) && AmountsOk(r)
    ensures var s' := s.(orders := s.orders[r.orderId := r]); Inv(s') && Grows(s, s')
  {
    HandlersSurvive(s.orders, s.bills, s.orders[r.orderId := r], s.bills, s.handlers);
  }

  /** A settled record may be written again and again: it is always the same record. */
  lemma SettledOrder(s: State, r: Record)
    requires Inv(s) && r.orderId in s.orders
    requires Core(r) == Core(s.orders[r.orderId]) && r.state == Settled && Matches(r, s.bills)
    ensures var s' := s.(orders := s.orders[r.orderId := r]); Inv(s') && Grows(s, s')
  {
    var was := s.orders[r.orderId];
    assert r.sku == Core(r).sku == Core(was).sku == was.sku;
    assert r.qty == Core(r).qty == was.qty && r.total == Core(r).total == was.total;
    assert r.discount == Core(r).discount == was.discount && r.payable == Core(r).payable == was.payable;
    assert r.catalogInstance == Core(r).catalogInstance == was.catalogInstance;
    assert r.orderInstance == Core(r).orderInstance == was.orderInstance;
    if was.state == Settled {
      assert was.settlementInstance == r.settlementInstance;
      assert was == r;
    }
    HandlersSurvive(s.orders, s.bills, s.orders[r.orderId := r], s.bills, s.handlers);
  }

  lemma NewBill(s: State, b: Record)
    requires Inv(s) && b.orderId !in s.bills && AmountsOk(b) && b.state == Settled
    ensures var s' := s.(bills := s.bills[b.orderId := b]); Inv(s') && Grows(s, s')
  {
    HandlersSurvive(s.orders, s.bills, s.orders, s.bills[b.orderId := b], s.handlers);
  }

  lemma SavedKeepsInv(s: State, k: nat, q: OrderRequest, saved: Record)
    requires Inv(s) && saved.orderId in s.orders && s.orders[saved.orderId] == saved
    ensures Inv(Saved(s, k, q, saved)) && Grows(s, Saved(s, k, q, saved))
  {
    Leaves(s, k);
    if SamePayload(saved, q) && saved.state == Pending {
      assert saved == Core(saved);
      Moves(s, k, AwaitingBill(q, saved));
    }
  }

  lemma BilledKeepsInv(s: State, k: nat, q: BillRequest, saved: Record)
    requires Inv(s) && saved.orderId in s.bills && s.bills[saved.orderId] == saved
    ensures Inv(Billed(s, k, q, saved)) && Grows(s, Billed(s, k, q, saved))
  {
    Leaves(s, k);
  }

  // ---------- Every step ----------

  lemma ReadKeepsInv(s: State, k: nat)
    requires Inv(s) && Enabled(s, Read(k))
    ensures Inv(AfterRead(s, k)) && Grows(s, AfterRead(s, k))
  {
    assert HandlerOk(s.orders, s.bills, s.handlers[k]);
    hide HandlersOk, Inv, Grows, Saved, Billed, With;
    Leaves(s, k);
    match s.handlers[k]
    case Reading(q) =>
      if q.orderId in s.orders { ReadSaved(s, k, q); } else { Moves(s, k, Pricing(q)); }
    case ReadingBack(q) =>
      if q.orderId in s.orders { ReadSaved(s, k, q); }
    case Rereading(q) => RereadReplies(s, k, q);
    case BillReading(q, node) =>
      if q.order.orderId in s.bills {
        ReadBilled(s, k, q);
      } else {
        Moves(s, k, BillInserting(q, BillRecord(q, node)));
      }
    case BillReadingBack(q) =>
      if q.order.orderId in s.bills { ReadBilled(s, k, q); }
  }

  lemma ReadSaved(s: State, k: nat, q: OrderRequest)
    requires Inv(s) && q.orderId in s.orders
    ensures var s' := Saved(s, k, q, s.orders[q.orderId]); Inv(s') && Grows(s, s')
  {
    SavedKeepsInv(s, k, q, s.orders[q.orderId]);
  }

  lemma ReadBilled(s: State, k: nat, q: BillRequest)
    requires Inv(s) && q.order.orderId in s.bills
    ensures var s' := Billed(s, k, q, s.bills[q.order.orderId]); Inv(s') && Grows(s, s')
  {
    BilledKeepsInv(s, k, q, s.bills[q.order.orderId]);
  }

  lemma RereadReplies(s: State, k: nat, q: OrderRequest)
    requires Inv(s) && k in s.handlers && s.handlers[k] == Rereading(q)
    ensures q.orderId in s.orders
    ensures var s' := Gone(s, k).(replies := s.replies + {(q, s.orders[q.orderId])}); Inv(s') && Grows(s, s')
  {
    assert HandlerOk(s.orders, s.bills, s.handlers[k]);
    Leaves(s, k);
  }

  lemma InsertKeepsInv(s: State, k: nat, write: Write)
    requires Inv(s) && Enabled(s, Insert(k, write))
    ensures Inv(AfterInsert(s, k, write)) && Grows(s, AfterInsert(s, k, write))
  {
    assert HandlerOk(s.orders, s.bills, s.handlers[k]);
    hide HandlersOk, Inv, Grows, Saved, Billed, With, Gone;
    Leaves(s, k);
    match s.handlers[k]
    case Inserting(q, r) =>
      if r.orderId in s.orders {
        Moves(s, k, ReadingBack(q));
      } else if write != NotDone {
        NewOrder(s, r);
        var s' := s.(orders := s.orders[r.orderId := r]);
        SavedKeepsInv(s', k, q, r);
        Leaves(s', k);
        GrowsOn(s, s', AfterInsert(s, k, write));
      }
    case BillInserting(q, r) =>
      if r.orderId in s.bills {
        Moves(s, k, BillReadingBack(q));
      } else if write != NotDone {
        NewBill(s, r);
        var s' := s.(bills := s.bills[r.orderId := r]);
        BilledKeepsInv(s', k, q, r);
        Leaves(s', k);
        GrowsOn(s, s', AfterInsert(s, k, write));
      }
  }

  lemma BillArrivesKeepsInv(s: State, k: nat, reply: Record)
    requires Inv(s) && Enabled(s, BillArrives(k, reply))
    ensures Inv(Next(s, BillArrives(k, reply))) && Grows(s, Next(s, BillArrives(k, reply)))
  {
    var q, saved := s.handlers[k].q, s.handlers[k].saved;
    assert HandlerOk(s.orders, s.bills, s.handlers[k]);
    Leaves(s, k);
    if ConsistentBill(reply, q, saved) {
      var x := (BillRequest(q, saved.total), reply);
      assert x in s.billReplies;
      var settled := SettledWith(saved, reply);
      assert Core(settled) == saved;
      assert Matches(settled, s.bills);
      Moves(s, k, Marking(q, settled));
    }
  }

  lemma MarkKeepsInv(s: State, k: nat, write: Write)
    requires Inv(s) && Enabled(s, Mark(k, write))
    ensures Inv(AfterMark(s, k, write)) && Grows(s, AfterMark(s, k, write))
  {
    assert HandlerOk(s.orders, s.bills, s.handlers[k]);
    var q, r := s.handlers[k].q, s.handlers[k].settled;
    hide HandlersOk, Inv, Grows;
    Leaves(s, k);
    if write != NotDone {
      SettledOrder(s, r);
      var s' := s.(orders := s.orders[r.orderId := r]);
      Leaves(s', k);
      Moves(s', k, Rereading(q));
      GrowsOn(s, s', AfterMark(s, k, write));
    }
  }

  lemma NextKeepsInv(s: State, e: Event)
    requires Inv(s) && Enabled(s, e)
    ensures Inv(Next(s, e)) && Grows(s, Next(s, e))
  {
    hide Inv, Grows, AfterRead, AfterInsert, AfterMark;
    match e
    case StartCreate(k, q) => Moves(s, k, Reading(q));
    case StartSettle(k, q, node) => Moves(s, k, BillReading(q, node));
    case Read(k) => ReadKeepsInv(s, k);
    case Priced(k, unit, catalog, node) =>
      Leaves(s, k);
      var r := PendingRecord(s.handlers[k].q, unit, catalog, node);
      if r.Ok? {
        AmountFits(s.handlers[k].q.qty, unit);
        Moves(s, k, Inserting(s.handlers[k].q, r.value));
      }
    case Insert(k, write) => InsertKeepsInv(s, k, write);
    case BillArrives(k, reply) => BillArrivesKeepsInv(s, k, reply);
    case Mark(k, write) => MarkKeepsInv(s, k, write);
    case Stop(k) => Leaves(s, k);
  }

  // ---------- Runs ----------

  /** The run of a list of events; an event that does not apply changes nothing. */
  function Run(s: State, events: seq<Event>): State
    decreases |events|
  {
    if events == [] then s
    else
      var s' := Run(s, events[..|events| - 1]);
      var e := events[|events| - 1];
      if Enabled(s', e) then Next(s', e) else s'
  }

  lemma {:induction false} RunKeepsInv(s: State, events: seq<Event>)
    requires Inv(s)
    ensures Inv(Run(s, events)) && Grows(s, Run(s, events))
    decreases |events|
  {
    hide Inv, Enabled, Next;
    if events != [] {
      var before := Run(s, events[..|events| - 1]);
      RunKeepsInv(s, events[..|events| - 1]);
      if Enabled(before, events[|events| - 1]) {
        NextKeepsInv(before, events[|events| - 1]);
        GrowsOn(s, before, Next(before, events[|events| - 1]));
      }
    }
  }

  lemma StartIsOk()
    ensures Inv(START)
  {
  }

  /** Agreement: however often an order is sent, whatever failed in between, all successful answers for its id
      are one record; it is settled and repeats the bill of the same id. */
  lemma RepliesAgree(events: seq<Event>, q: OrderRequest, r: Record, q': OrderRequest, r': Record)
    requires (q, r) in Run(START, events).replies && (q', r') in Run(START, events).replies
    requires q.orderId == q'.orderId
    ensures r == r' && q == q' && r.state == Settled
    ensures var bills := Run(START, events).bills;
      q.orderId in bills && SameAmounts(r, bills[q.orderId]) && SamePayload(r, q)
  {
    StartIsOk();
    RunKeepsInv(START, events);
    hide Run;
    var s := Run(START, events);
    var x, x' := (q, r), (q', r');
    assert x in s.replies && x' in s.replies;
  }

  /** Amounts never change after insertion, a settled order never changes at all, and an answer once given stays
      the stored record. */
  lemma DocumentsAreStable(events: seq<Event>, more: seq<Event>, id: string)
    requires id in Run(START, events).orders
    ensures var s := Run(START, events); var s' := Run(s, more);
      && id in s'.orders
      && Core(s'.orders[id]) == Core(s.orders[id])
      && (s.orders[id].state == Settled ==> s'.orders[id] == s.orders[id])
      && s.replies <= s'.replies
  {
    StartIsOk();
    RunKeepsInv(START, events);
    RunKeepsInv(Run(START, events), more);
  }

  /** A settled order has its bill, with the same payload, total and payable; amounts are consistent everywhere. */
  lemma SettledOrdersAreBilled(events: seq<Event>, id: string)
    requires id in Run(START, events).orders
    ensures var s := Run(START, events); var r := s.orders[id];
      && r.total > 0 && 0 <= r.discount <= r.total && r.payable == r.total - r.discount
      && (r.state == Settled ==> id in s.bills && SameAmounts(r, s.bills[id]))
  {
    StartIsOk();
    RunKeepsInv(START, events);
  }
}
