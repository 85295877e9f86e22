// The two handlers as written, step by step, over two collections.  What the environment does to each
// operation is a parameter: any of them may fail, and a write may take effect without an answer.

module SagaHandlers {
  import opened Wrappers
  import opened OrderRecords
  import opened SagaMachine

  /** A Mongo collection with a unique id. */
  class Collection {
    var docs: map<string, Record>

    constructor ()
      ensures docs == map[]
    {
      docs := map[];
    }

    /** ReadRecord. */
    method ReadRecord(id: string, works: bool) returns (r: Result<Record, Code>)
      ensures r == if !works then Err(Unavailable) else if id in docs then Ok(docs[id]) else Err(NotFound)
    {
      if !works {
        return Err(Unavailable);
      }
      return if id in docs then Ok(docs[id]) else Err(NotFound);
    }

    /** InsertRecord: a confirmed duplicate is read back, an unknown outcome is an error. */
    method InsertRecord(r: Record, write: Write, readsBack: bool) returns (saved: Result<Record, Code>)
      modifies this
      ensures docs == if write == NotDone || r.orderId in old(docs) then old(docs) else old(docs)[r.orderId := r]
      ensures saved.Ok? <==> write == Done && (r.orderId !in old(docs) || readsBack)
      ensures saved.Err? ==> saved.error == Unavailable
      ensures saved.Ok? ==> saved.value == docs[r.orderId]
    {
      if write == NotDone {
        return Err(Unavailable);
      }
      if r.orderId in docs {
        if write == DoneAnswerLost {
          return Err(Unavailable);
        }
        saved := ReadRecord(r.orderId, readsBack);
      } else {
        docs := docs[r.orderId := r];
        return if write == Done then Ok(r) else Err(Unavailable);
      }
    }

    method MarkSettled(r: Record, write: Write) returns (done: Result<(), Code>)
      modifies this
      ensures docs == if write == NotDone || r.orderId !in old(docs) then old(docs) else old(docs)[r.orderId := r]
      ensures done.Ok? <==> write == Done && r.orderId in old(docs)
      ensures done == Err(NotFound) <==> write == Done && r.orderId !in old(docs)
      ensures done.Err? ==> done.error in {NotFound, Unavailable}
    {
      if write == NotDone {
        return Err(Unavailable);
      }
      if r.orderId !in docs {
        return Err(if write == Done then NotFound else Unavailable);
      }
      docs := docs[r.orderId := r];
      return if write == Done then Ok(()) else Err(Unavailable);
    }
  }

  /** What happens to the operations of one Settle. */
  datatype SettleWeather = SettleWeather(read: bool, insert: Write, readBack: bool)

  /** What happens to the operations of one CreateOrder; `garbled` is what arrives in place of the settlement
      service's own reply, if it does not fit the request. */
  datatype Weather = Weather(
    read: bool, price: Option<int64>, insert: Write, readBack: bool,
    catalog: string, callArrives: bool, answerArrives: bool, settle: SettleWeather, garbled: Option<Record>,
    mark: Write, reread: bool)

  predicate ReplyIsGarbled(w: Weather, q: OrderRequest, saved: Record) {
    w.garbled.Some? && Garbled(w.garbled.value, q, saved)
  }

  const FAIR_SETTLE := SettleWeather(true, Done, true)

  predicate Fair(w: Weather) {
    w.read && w.price.Some? && w.insert == Done && w.readBack && w.callArrives && w.answerArrives
    && w.settle == FAIR_SETTLE && w.garbled.None? && w.mark == Done && w.reread
  }

  predicate StoreOk(orders: map<string, Record>, bills: map<string, Record>) {
    BillsOk(bills) && OrdersOk(orders, bills)
  }

  predicate BillAgrees(bills: map<string, Record>, q: OrderRequest, total: int64) {
    q.orderId in bills ==> SamePayload(bills[q.orderId], q) && bills[q.orderId].total == total
  }

  /** The total CreateOrder will ask for: the stored one, or the one the price gives. */
  function AskedTotal(orders: map<string, Record>, q: OrderRequest, unit: int64): int {
    if q.orderId in orders then orders[q.orderId].total else q.qty * unit
  }

  /** Whether a CreateOrder that nothing disturbs succeeds. */
  predicate CanComplete(orders: map<string, Record>, bills: map<string, Record>, q: OrderRequest, unit: int64) {
    && ValidOrder(q)
    && (if q.orderId in orders then SamePayload(orders[q.orderId], q)
        else unit > 0 && q.qty * unit <= MAX63 && q.discount <= q.qty * unit)
    && (q.orderId in bills ==>
          SamePayload(bills[q.orderId], q) && bills[q.orderId].total == AskedTotal(orders, q, unit))
  }

  // ---------- What an undisturbed CreateOrder leaves behind ----------

  predicate HasRecord(orders: map<string, Record>, q: OrderRequest, unit: int64, catalog: string, node: string) {
    q.orderId in orders || (ValidOrder(q) && PendingRecord(q, unit, catalog, node).Ok?)
  }

  function SavedRecord(orders: map<string, Record>, q: OrderRequest, unit: int64, catalog: string, node: string): Record
    requires HasRecord(orders, q, unit, catalog, node)
  {
    if q.orderId in orders then orders[q.orderId] else PendingRecord(q, unit, catalog, node).value
  }

  function BillFor(bills: map<string, Record>, q: OrderRequest, total: int64, node: string): Record
    requires 0 <= q.discount <= total
  {
    if q.orderId in bills then bills[q.orderId] else BillRecord(BillRequest(q, total), node)
  }

  function BillsDone(bills: map<string, Record>, q: OrderRequest, saved: Record, node: string): map<string, Record>
    requires 0 <= q.discount <= saved.total
  {
    if saved.state == Settled then bills else bills[q.orderId := BillFor(bills, q, saved.total, node)]
  }

  function FinalRecord(bills: map<string, Record>, q: OrderRequest, saved: Record, node: string): Record
    requires 0 <= q.discount <= saved.total
  {
    if saved.state == Settled then saved else SettledWith(saved, BillFor(bills, q, saved.total, node))
  }

  /** From the saved record to the answer and the bills that go with it. */
  predicate SettledAs(bills: map<string, Record>, q: OrderRequest, saved: Record, node: string, r: Record,
                      bills': map<string, Record>)
  {
    0 <= q.discount <= saved.total && r == FinalRecord(bills, q, saved, node)
      && bills' == BillsDone(bills, q, saved, node)
  }

  lemma CompletableHasRecord(orders: map<string, Record>, bills: map<string, Record>, q: OrderRequest, unit: int64,
                             catalog: string, node: string)
    requires StoreOk(orders, bills) && CanComplete(orders, bills, q, unit)
    ensures HasRecord(orders, q, unit, catalog, node)
    ensures var saved := SavedRecord(orders, q, unit, catalog, node);
      && SamePayload(saved, q) && 0 <= q.discount <= saved.total && saved.total > 0
      && saved.total == AskedTotal(orders, q, unit) && AmountsOk(saved)
  {
    if q.orderId !in orders {
      AmountFits(q.qty, unit);
    }
  }

  /** No document of `docs` is lost or changed. */
  predicate Keeps(docs: map<string, Record>, docs': map<string, Record>) {
    forall id | id in docs :: id in docs' && docs'[id] == docs[id]
  }

  /** Documents stay, amounts stay, settled orders stay as they are. */
  predicate KeepsOrders(docs: map<string, Record>, docs': map<string, Record>) {
    forall id | id in docs :: id in docs' && Core(docs'[id]) == Core(docs[id])
      && (docs[id].state == Settled ==> docs'[id] == docs[id])
  }

  lemma MoreBillsStillOk(orders: map<string, Record>, bills: map<string, Record>, bills': map<string, Record>)
    requires OrdersOk(orders, bills) && Keeps(bills, bills')
    ensures OrdersOk(orders, bills')
  {
  }

  class SettlementService {
    const bills: Collection
    const node: string

    constructor (bills: Collection, node: string)
      ensures this.bills == bills && this.node == node
    {
      this.bills, this.node := bills, node;
    }

    /** Settle: undisturbed it succeeds exactly when the request is valid and no other bill holds the id. */
    method Settle(q: BillRequest, w: SettleWeather) returns (r: Result<Record, Code>)
      requires BillsOk(bills.docs)
      modifies bills
      ensures BillsOk(bills.docs) && Keeps(old(bills.docs), bills.docs)
      ensures bills.docs.Keys <= old(bills.docs).Keys + {q.order.orderId}
      ensures r.Ok? ==> ValidBill(q) && q.order.orderId in bills.docs && r.value == bills.docs[q.order.orderId]
      ensures r.Ok? ==> SamePayload(r.value, q.order) && r.value.total == q.total && AmountsOk(r.value)
      ensures w == FAIR_SETTLE ==> (r.Ok? <==> ValidBill(q) && BillAgrees(old(bills.docs), q.order, q.total))
      ensures r == Err(InvalidArgument) <==>
        !ValidBill(q) || (w.read && !BillAgrees(old(bills.docs), q.order, q.total))
      ensures r.Ok? <==>
        && ValidBill(q) && BillAgrees(old(bills.docs), q.order, q.total) && w.read
        && (q.order.orderId in old(bills.docs) || w.insert == Done)
      ensures r.Err? ==> r.error in {InvalidArgument, Unavailable}
      ensures !w.read || !ValidBill(q) ==> bills.docs == old(bills.docs)
      ensures r.Ok? ==> r.value == BillFor(old(bills.docs), q.order, q.total, node)
      ensures r.Ok? ==> bills.docs == old(bills.docs)[q.order.orderId := r.value]
    {
      if !ValidOrder(q.order) {
        return Err(InvalidArgument);
      }
      if q.total <= 0 || q.order.discount > q.total {
        return Err(InvalidArgument);
      }
      var saved := bills.ReadRecord(q.order.orderId, w.read);
      if saved.Err? && saved.error != NotFound {
        return Err(saved.error);
      }
      if saved.Err? {
        saved := bills.InsertRecord(BillRecord(q, node), w.insert, w.readBack);
        if saved.Err? {
          return Err(saved.error);
        }
      }
      if !SamePayload(saved.value, q.order) || saved.value.total != q.total {
        return Err(InvalidArgument);
      }
      return Ok(saved.value);
    }
  }

  class OrderService {
    const orders: Collection
    const node: string

    constructor (orders: Collection, node: string)
      ensures this.orders == orders && this.node == node
    {
      this.orders, this.node := orders, node;
    }

    /** CreateOrder up to the saved record. */
    method SavedOrder(q: OrderRequest, w: Weather) returns (saved: Result<Record, Code>)
      requires ValidOrder(q) && forall id | id in orders.docs :: orders.docs[id].orderId == id
      modifies orders
      ensures Keeps(old(orders.docs), orders.docs)
      ensures forall id | id in orders.docs && id !in old(orders.docs) ::
        id == q.orderId && SamePayload(orders.docs[id], q) && AmountsOk(orders.docs[id])
        && orders.docs[id] == Core(orders.docs[id]) && orders.docs[id].orderId == id
      ensures saved.Ok? ==> q.orderId in orders.docs && saved.value == orders.docs[q.orderId]
      ensures saved == Err(InvalidArgument) <==>
        && w.read && q.orderId !in old(orders.docs) && w.price.Some?
        && PendingRecord(q, w.price.value, w.catalog, node).Err?
      ensures saved.Err? ==> saved.error in {InvalidArgument, Unavailable}
      ensures !w.read ==> saved == Err(Unavailable)
      ensures Fair(w) ==> (saved.Ok?
        <==> q.orderId in old(orders.docs) || PendingRecord(q, w.price.value, w.catalog, node).Ok?)
      ensures Fair(w) && saved.Ok? ==> saved.value.total == AskedTotal(old(orders.docs), q, w.price.value)
      ensures Fair(w) && saved.Ok? ==> HasRecord(old(orders.docs), q, w.price.value, w.catalog, node)
      ensures Fair(w) && saved.Ok? ==> saved.value == SavedRecord(old(orders.docs), q, w.price.value, w.catalog, node)
      ensures Fair(w) && saved.Ok? ==> orders.docs == old(orders.docs)[q.orderId := saved.value]
    {
      saved := orders.ReadRecord(q.orderId, w.read);
      if saved.Ok? || saved.error != NotFound {
        return;
      }
      if w.price.None? {
        return Err(Unavailable);
      }
      var pending := PendingRecord(q, w.price.value, w.catalog, node);
      if w.price.value > 0 {
        AmountFits(q.qty, w.price.value);
      }
      if pending.Err? {
        return Err(pending.error);
      }
      saved := orders.InsertRecord(pending.value, w.insert, w.readBack);
    }

    /** CreateOrder, alone on its collections.  Whatever fails, documents only grow and amounts never change; an
        answer is the stored, settled, billed record; and when nothing fails it succeeds exactly when the
        payload matches what is stored under the id in both collections. */
    method CreateOrder(q: OrderRequest, settlement: SettlementService, w: Weather) returns (r: Result<Record, Code>)
      requires orders != settlement.bills && StoreOk(orders.docs, settlement.bills.docs)
      modifies orders, settlement.bills
      ensures StoreOk(orders.docs, settlement.bills.docs)
      ensures KeepsOrders(old(orders.docs), orders.docs) && Keeps(old(settlement.bills.docs), settlement.bills.docs)
      ensures r.Ok? ==> q.orderId in orders.docs && r.value == orders.docs[q.orderId]
      ensures r.Ok? ==> r.value.state == Settled && SamePayload(r.value, q) && Matches(r.value, settlement.bills.docs)
      ensures Fair(w) ==> (r.Ok? <==> CanComplete(old(orders.docs), old(settlement.bills.docs), q, w.price.value))
      ensures Fair(w) && r.Ok? ==> HasRecord(old(orders.docs), q, w.price.value, w.catalog, node)
      ensures Fair(w) && r.Ok? ==>
        (var saved := SavedRecord(old(orders.docs), q, w.price.value, w.catalog, node);
         SettledAs(old(settlement.bills.docs), q, saved, settlement.node, r.value, settlement.bills.docs)
         && orders.docs == old(orders.docs)[q.orderId := r.value])
      ensures r.Err? ==> r.error in {InvalidArgument, Unavailable, ProtocolError}
      ensures Fair(w) && r.Err? ==> r.error == InvalidArgument
      ensures !ValidOrder(q) ==> r == Err(InvalidArgument) && orders.docs == old(orders.docs)
      ensures ValidOrder(q) && !w.read ==> r == Err(Unavailable)
    {
      if !ValidOrder(q) {
        return Err(InvalidArgument);
      }
      PendingIffFits(q, w, node);
      var saved := SavedOrder(q, w);
      if saved.Err? {
        return Err(saved.error);
      }
      r := FinishOrder(q, saved.value, settlement, w);
    }

    /** CreateOrder once it has the saved record. */
    method FinishOrder(q: OrderRequest, saved: Record, settlement: SettlementService, w: Weather)
      returns (r: Result<Record, Code>)
      requires orders != settlement.bills && StoreOk(orders.docs, settlement.bills.docs) && ValidOrder(q)
      requires q.orderId in orders.docs && saved == orders.docs[q.orderId]
      modifies orders, settlement.bills
      ensures StoreOk(orders.docs, settlement.bills.docs)
      ensures KeepsOrders(old(orders.docs), orders.docs) && Keeps(old(settlement.bills.docs), settlement.bills.docs)
      ensures r.Ok? ==> q.orderId in orders.docs && r.value == orders.docs[q.orderId]
      ensures r.Ok? ==> r.value.state == Settled && SamePayload(r.value, q) && Matches(r.value, settlement.bills.docs)
      ensures Fair(w) ==>
        (r.Ok? <==> SamePayload(saved, q) && BillAgrees(old(settlement.bills.docs), q, saved.total))
      ensures Fair(w) && r.Err? ==> r.error == InvalidArgument
      ensures r.Err? ==> r.error in {InvalidArgument, Unavailable, ProtocolError}
      ensures r.Ok? ==> SettledAs(old(settlement.bills.docs), q, saved, settlement.node, r.value, settlement.bills.docs)
      ensures r.Ok? ==> orders.docs == old(orders.docs)[q.orderId := r.value]
    {
      if !SamePayload(saved, q) {
        return Err(InvalidArgument);
      }
      if saved.state == Settled {
        return Ok(saved);
      }
      r := SettleOrder(q, saved, settlement, w);
    }

    /** CreateOrder from the Settle call on, for a saved record that is still pending. */
    method SettleOrder(q: OrderRequest, saved: Record, settlement: SettlementService, w: Weather)
      returns (r: Result<Record, Code>)
      requires orders != settlement.bills && StoreOk(orders.docs, settlement.bills.docs) && ValidOrder(q)
      requires q.orderId in orders.docs && saved == orders.docs[q.orderId] && saved.state == Pending
        && SamePayload(saved, q)
      modifies orders, settlement.bills
      ensures StoreOk(orders.docs, settlement.bills.docs)
      ensures KeepsOrders(old(orders.docs), orders.docs) && Keeps(old(settlement.bills.docs), settlement.bills.docs)
      ensures r.Ok? ==> q.orderId in orders.docs && r.value == orders.docs[q.orderId]
      ensures r.Ok? ==> r.value.state == Settled && SamePayload(r.value, q) && Matches(r.value, settlement.bills.docs)
      ensures Fair(w) ==> (r.Ok? <==> BillAgrees(old(settlement.bills.docs), q, saved.total))
      ensures r == Err(ProtocolError) <==> w.callArrives && w.answerArrives && ReplyIsGarbled(w, q, saved)
      ensures r == Err(InvalidArgument) <==>
        && w.callArrives && w.answerArrives && !ReplyIsGarbled(w, q, saved) && w.settle.read
        && !BillAgrees(old(settlement.bills.docs), q, saved.total)
      ensures r.Err? ==> r.error in {InvalidArgument, Unavailable, ProtocolError}
      ensures 0 <= q.discount <= saved.total
      ensures r.Ok? ==> SettledAs(old(settlement.bills.docs), q, saved, settlement.node, r.value, settlement.bills.docs)
      ensures r.Ok? ==> orders.docs == old(orders.docs)[q.orderId := r.value]
    {
      if !w.callArrives {
        return Err(Unavailable);
      }
      ghost var bills0 := settlement.bills.docs;
      var bill := settlement.Settle(BillRequest(q, saved.total), w.settle);
      MoreBillsStillOk(orders.docs, bills0, settlement.bills.docs);
      if !w.answerArrives {
        return Err(Unavailable);
      }
      if ReplyIsGarbled(w, q, saved) {
        bill := Ok(w.garbled.value);
      }
      if bill.Err? {
        return Err(bill.error);
      }
      if !ConsistentBill(bill.value, q, saved) {
        return Err(ProtocolError);
      }
      var updated := orders.MarkSettled(SettledWith(saved, bill.value), w.mark);
      if updated.Err? {
        return Err(updated.error);
      }
      r := orders.ReadRecord(q.orderId, w.reread);
    }
  }

  lemma PendingIffFits(q: OrderRequest, w: Weather, node: string)
    requires ValidOrder(q)
    ensures w.price.Some? ==> (PendingRecord(q, w.price.value, w.catalog, node).Ok? <==>
      w.price.value > 0 && q.qty * w.price.value <= MAX63 && q.discount <= q.qty * w.price.value)
  {
    if w.price.Some? && w.price.value > 0 {
      AmountFits(q.qty, w.price.value);
    }
  }

  // ---------- What the records hold ----------

  /** An undisturbed first CreateOrder: every field of the answer and of the bill, from the request, the price and
      the three instances alone. */
  lemma FirstOrderIs(orders: map<string, Record>, bills: map<string, Record>, q: OrderRequest, unit: int64,
                     catalog: string, node: string, settler: string)
    requires StoreOk(orders, bills) && CanComplete(orders, bills, q, unit)
    requires q.orderId !in orders && q.orderId !in bills
    ensures HasRecord(orders, q, unit, catalog, node)
    ensures var saved := SavedRecord(orders, q, unit, catalog, node); var total: int := q.qty * unit;
      && 0 <= q.discount <= saved.total && total <= MAX63
      && FinalRecord(bills, q, saved, settler) ==
           Record(q.orderId, q.sku, q.qty, total, q.discount, total - q.discount, Settled, catalog, node, settler)
      && BillsDone(bills, q, saved, settler) == bills[q.orderId :=
           Record(q.orderId, q.sku, q.qty, total, q.discount, total - q.discount, Settled, "", "", settler)]
  {
    CompletableHasRecord(orders, bills, q, unit, catalog, node);
    PendingIff(q, unit, catalog, node);
  }

  /** An undisturbed CreateOrder for a stored order: a settled one is answered as it is; a pending one changes its
      state and the instance that settled it, and nothing else; a bill that is there already is used. */
  lemma StoredOrderIs(orders: map<string, Record>, bills: map<string, Record>, q: OrderRequest, unit: int64,
                      catalog: string, node: string, settler: string)
    requires StoreOk(orders, bills) && CanComplete(orders, bills, q, unit) && q.orderId in orders
    ensures var was := orders[q.orderId]; var saved := SavedRecord(orders, q, unit, catalog, node);
      && saved == was && 0 <= q.discount <= saved.total
      && var r, after := FinalRecord(bills, q, saved, settler), BillsDone(bills, q, saved, settler);
      && (was.state == Settled ==> r == was && after == bills)
      && (was.state == Pending ==>
            && r == Record(was.orderId, was.sku, was.qty, was.total, was.discount, was.payable, Settled,
                           was.catalogInstance, was.orderInstance,
                           if q.orderId in bills then bills[q.orderId].settlementInstance else settler)
            && q.orderId in after && after == bills[q.orderId := after[q.orderId]]
            && (q.orderId in bills ==> after == bills)
            && (q.orderId !in bills ==>
                  after[q.orderId] == Record(q.orderId, q.sku, q.qty, was.total, q.discount, was.total - q.discount,
                                             Settled, "", "", settler)))
  {
    CompletableHasRecord(orders, bills, q, unit, catalog, node);
    if q.orderId in bills {
      assert bills[q.orderId := bills[q.orderId]] == bills;
    }
  }

  // ---------- The handler is a run of the machine ----------

  lemma RunOne(s: State, events: seq<Event>, e: Event)
    requires Enabled(Run(s, events), e)
    ensures Run(s, events + [e]) == Next(Run(s, events), e)
  {
    assert (events + [e])[..|events + [e]| - 1] == events;
  }

  lemma HandlerReplaced(hs: map<nat, Handler>, k: nat, h: Handler, h': Handler)
    requires k !in hs
    ensures hs[k := h][k := h'] == hs[k := h'] && hs[k := h] - {k} == hs && hs - {k} == hs
  {
  }

  /** From the request to the saved record. */
  lemma SavesInARun(s: State, k: nat, q: OrderRequest, unit: int64, catalog: string, node: string)
    returns (events: seq<Event>)
    requires k !in s.handlers && ValidOrder(q) && HasRecord(s.orders, q, unit, catalog, node)
    ensures var saved := SavedRecord(s.orders, q, unit, catalog, node);
      Run(s, events) == Saved(s.(orders := s.orders[q.orderId := saved]), k, q, saved)
  {
    var saved := SavedRecord(s.orders, q, unit, catalog, node);
    events := [];
    RunOne(s, events, StartCreate(k, q));
    events := events + [StartCreate(k, q)];
    RunOne(s, events, Read(k));
    events := events + [Read(k)];
    if q.orderId in s.orders {
      assert s.orders[q.orderId := saved] == s.orders;
      HandlerReplaced(s.handlers, k, Reading(q), AwaitingBill(q, saved));
    } else {
      RunOne(s, events, Priced(k, unit, catalog, node));
      events := events + [Priced(k, unit, catalog, node)];
      RunOne(s, events, Insert(k, Done));
      events := events + [Insert(k, Done)];
      HandlerReplaced(s.handlers, k, Reading(q), Pricing(q));
      HandlerReplaced(s.handlers, k, Pricing(q), Inserting(q, saved));
      HandlerReplaced(s.handlers, k, Inserting(q, saved), AwaitingBill(q, saved));
    }
  }

  /** Settle reads the bill, and answers at once if it is there. */
  lemma BillIsRead(s: State, b: nat, q: BillRequest, node: string)
    requires b !in s.handlers && ValidBill(q) && BillAgrees(s.bills, q.order, q.total)
    ensures Enabled(s, StartSettle(b, q, node)) && Enabled(Next(s, StartSettle(b, q, node)), Read(b))
    ensures Next(Next(s, StartSettle(b, q, node)), Read(b)) ==
      if q.order.orderId in s.bills then s.(billReplies := s.billReplies + {(q, s.bills[q.order.orderId])})
      else With(s, b, BillInserting(q, BillRecord(q, node)))
  {
    HandlerReplaced(s.handlers, b, BillReading(q, node), BillInserting(q, BillRecord(q, node)));
  }

  lemma BillIsInserted(s: State, b: nat, q: BillRequest, node: string)
    requires b !in s.handlers && ValidBill(q) && q.order.orderId !in s.bills
    ensures var draft := BillRecord(q, node); var s' := With(s, b, BillInserting(q, draft));
      Enabled(s', Insert(b, Done))
      && Next(s', Insert(b, Done)) ==
           s.(bills := s.bills[q.order.orderId := draft], billReplies := s.billReplies + {(q, draft)})
  {
    HandlerReplaced(s.handlers, b, BillInserting(q, BillRecord(q, node)), BillReadingBack(q));
  }

  /** From the Settle request to its successful answer. */
  lemma SettlesInARun(s0: State, before: seq<Event>, b: nat, q: OrderRequest, total: int64, node: string)
    returns (events: seq<Event>)
    requires var s := Run(s0, before); b !in s.handlers && BillsOk(s.bills) && BillAgrees(s.bills, q, total)
    requires ValidOrder(q) && total > 0 && q.discount <= total
    ensures var s := Run(s0, before); var bill := BillFor(s.bills, q, total, node);
      Run(s0, events) == s.(bills := s.bills[q.orderId := bill],
                            billReplies := s.billReplies + {(BillRequest(q, total), bill)})
  {
    hide Run, Next, Enabled;
    var s, req := Run(s0, before), BillRequest(q, total);
    events := before;
    BillIsRead(s, b, req, node);
    RunOne(s0, events, StartSettle(b, req, node));
    events := events + [StartSettle(b, req, node)];
    RunOne(s0, events, Read(b));
    events := events + [Read(b)];
    if q.orderId in s.bills {
      assert s.bills[q.orderId := s.bills[q.orderId]] == s.bills;
    } else {
      BillIsInserted(s, b, req, node);
      RunOne(s0, events, Insert(b, Done));
      events := events + [Insert(b, Done)];
    }
  }

  /** From the answer of Settle to the answer of CreateOrder. */
  lemma AnswersInARun(s0: State, before: seq<Event>, s: State, k: nat, q: OrderRequest, saved: Record, bill: Record)
    returns (events: seq<Event>)
    requires Run(s0, before) == s.(handlers := s.handlers[k := AwaitingBill(q, saved)]) && k !in s.handlers
    requires saved.orderId == q.orderId && q.orderId in s.orders && ConsistentBill(bill, q, saved)
    requires (BillRequest(q, saved.total), bill) in s.billReplies
    ensures var r := SettledWith(saved, bill);
      Run(s0, events) == s.(orders := s.orders[q.orderId := r], replies := s.replies + {(q, r)})
  {
    var r := SettledWith(saved, bill);
    events := before;
    RunOne(s0, events, BillArrives(k, bill));
    events := events + [BillArrives(k, bill)];
    HandlerReplaced(s.handlers, k, AwaitingBill(q, saved), Marking(q, r));
    RunOne(s0, events, Mark(k, Done));
    events := events + [Mark(k, Done)];
    HandlerReplaced(s.handlers, k, Marking(q, r), Rereading(q));
    RunOne(s0, events, Read(k));
    events := events + [Read(k)];
    HandlerReplaced(s.handlers, k, Rereading(q), Rereading(q));
  }

  /** An undisturbed CreateOrder is a run of the machine: whenever the method succeeds there is a run that gives
      the same answer and leaves the same documents, and every handler of that run has ended. */
  lemma CreateOrderIsARun(s: State, k: nat, b: nat, q: OrderRequest, unit: int64, catalog: string, node: string,
      settler: string)
    returns (events: seq<Event>)
    requires Inv(s) && k !in s.handlers && b !in s.handlers && k != b && CanComplete(s.orders, s.bills, q, unit)
    ensures HasRecord(s.orders, q, unit, catalog, node)
    ensures var s' := Run(s, events); var saved := SavedRecord(s.orders, q, unit, catalog, node);
      && 0 <= q.discount <= saved.total
      && var r := FinalRecord(s.bills, q, saved, settler);
         SettledAs(s.bills, q, saved, settler, r, s'.bills) && s'.orders == s.orders[q.orderId := r]
         && s'.handlers == s.handlers && s'.replies == s.replies + {(q, r)}
  {
    CompletableHasRecord(s.orders, s.bills, q, unit, catalog, node);
    var saved := SavedRecord(s.orders, q, unit, catalog, node);
    events := SavesInARun(s, k, q, unit, catalog, node);
    var s1 := s.(orders := s.orders[q.orderId := saved]);
    HandlerReplaced(s.handlers, k, Reading(q), Pricing(q));
    if saved.state == Pending {
      var s1k := Run(s, events);
      assert s1k == With(s1, k, AwaitingBill(q, saved));
      var bill := BillFor(s.bills, q, saved.total, settler);
      events := SettlesInARun(s, events, b, q, saved.total, settler);
      var s2 := s1.(bills := s.bills[q.orderId := bill],
                    billReplies := s.billReplies + {(BillRequest(q, saved.total), bill)});
      events := AnswersInARun(s, events, s2, k, q, saved, bill);
    }
  }
}
