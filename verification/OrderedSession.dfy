// The sending side: the only owner of a stream's sequence numbers (OrderedSession.cc).

module SessionModel {
  import opened Wrappers
  import opened UInt64
  import opened OrderedTypes
  import opened RequestText

  datatype Ticket = Ticket(sequence: uint64, requestId: string, bound: Option<BoundContent>)

  datatype Session = Session(
    grant: Grant,
    instance: uint64,
    nextSequence: uint64,
    exhausted: bool,
    watermark: uint64,
    tickets: map<string, Ticket>)

  datatype BindError =
    | NotIssuedHere
    | BoundToAnotherRequest
    | SkipsUnsentTicket(expected: nat)

  function Open(grant: Grant, instance: uint64, first: uint64): Session {
    Session(grant, instance, first, false, 0, map[])
  }

  function MakeRequestId(s: Session, sequence: nat): string {
    RequestId(s.grant.producerId, s.grant.producerEpoch, s.grant.receiverEpoch, s.instance, sequence)
  }

  /** The next ticket, or None once the sequence space is used up. */
  function Prepare(s: Session): (Session, Option<Ticket>) {
    if s.exhausted then (s, None)
    else
      var t := Ticket(s.nextSequence, MakeRequestId(s, s.nextSequence), None);
      var s' := if s.nextSequence == MAX64 then s.(exhausted := true) else s.(nextSequence := s.nextSequence + 1);
      (s'.(tickets := s'.tickets[t.requestId := t]), Some(t))
  }

  /** First send binds the content; a resend must carry the same content. */
  function BindForSend(s: Session, requestId: string, content: BoundContent): (Session, Result<(), BindError>) {
    if requestId !in s.tickets then (s, Err(NotIssuedHere))
    else
      var t := s.tickets[requestId];
      if t.bound.Some? then (s, if t.bound.value == content then Ok(()) else Err(BoundToAnotherRequest))
      else if t.sequence != s.watermark + 1 then (s, Err(SkipsUnsentTicket(s.watermark + 1)))
      else (s.(tickets := s.tickets[requestId := t.(bound := Some(content))], watermark := Increment(s.watermark)),
        Ok(()))
  }

  /** How many sequences have been issued, counting from 1. */
  function Issued(s: Session): nat {
    if s.exhausted then MAX64 else if s.nextSequence == 0 then 0 else s.nextSequence - 1
  }

  // ---------- The invariant of a session opened at `first` ----------

  ghost predicate TicketOk(s: Session, id: string, t: Ticket, first: uint64) {
    && first <= t.sequence <= Issued(s) && t.requestId == id == MakeRequestId(s, t.sequence)
    && (t.bound.Some? <==> t.sequence <= s.watermark)
  }

  ghost predicate SessionInv(s: Session, first: uint64) {
    && 1 <= first <= s.nextSequence && (s.exhausted ==> s.nextSequence == MAX64)
    && s.watermark <= Issued(s)
    && (first > 1 ==> s.watermark == 0)
    && (forall id | id in s.tickets :: TicketOk(s, id, s.tickets[id], first))
    && (forall q: nat :: first <= q <= Issued(s) ==> MakeRequestId(s, q) in s.tickets)
  }

  lemma OpenInv(grant: Grant, instance: uint64, first: uint64)
    requires first >= 1
    ensures SessionInv(Open(grant, instance, first), first)
  {
  }

  lemma IdsDiffer(s: Session, m: nat, n: nat)
    requires MakeRequestId(s, m) == MakeRequestId(s, n)
    ensures m == n
  {
    var g := s.grant;
    RequestIdIsUnique(g.producerId, g.producerEpoch, g.receiverEpoch, s.instance, m,
                      g.producerId, g.producerEpoch, g.receiverEpoch, s.instance, n);
  }

  /** `prepare` issues the sequence after the last one under a request id never issued before, changes no
      earlier ticket, and fails exactly when 2^64-1 has been issued; it then fails for ever. */
  lemma PrepareIssuesTheNextSequence(s: Session, first: uint64)
    requires SessionInv(s, first)
    ensures var (s', out) := Prepare(s);
            && SessionInv(s', first)
            && (out.None? <==> Issued(s) == MAX64)
            && (out.None? ==> s' == s)
            && (out.Some? ==>
                  && out.value.sequence == Issued(s) + 1 == Issued(s')
                  && out.value.requestId !in s.tickets
                  && s'.tickets == s.tickets[out.value.requestId := out.value]
                  && s'.watermark == s.watermark && s'.grant == s.grant && s'.instance == s.instance)
  {
    hide RequestId;
    var (s', out) := Prepare(s);
    if out.Some? {
      NextIdIsUnused(s, first);
      IssuedTicketsOk(s, first);
    }
  }

  lemma NextIdIsUnused(s: Session, first: uint64)
    requires SessionInv(s, first) && !s.exhausted
    ensures MakeRequestId(s, s.nextSequence) !in s.tickets
  {
    var id := MakeRequestId(s, s.nextSequence);
    if id in s.tickets {
      assert TicketOk(s, id, s.tickets[id], first);
      IdsDiffer(s, s.tickets[id].sequence, s.nextSequence);
    }
  }

  lemma IssuedTicketsOk(s: Session, first: uint64)
    requires SessionInv(s, first) && !s.exhausted
    ensures SessionInv(Prepare(s).0, first)
  {
    hide RequestId;
    var (s', out) := Prepare(s);
    var id := out.value.requestId;
    forall j | j in s'.tickets ensures TicketOk(s', j, s'.tickets[j], first) {
      if j != id {
        assert TicketOk(s, j, s.tickets[j], first);
      }
    }
    forall q: nat | first <= q <= Issued(s') ensures MakeRequestId(s', q) in s'.tickets {
      if q <= Issued(s) {
        assert MakeRequestId(s, q) in s.tickets;
      }
    }
  }

  /** A ticket that is bound keeps its content for ever; a first send goes through only for the lowest
      unsent ticket, so the comparison with watermark+1 never overflows for a ticket that can pass it. */
  lemma BindKeepsOrder(s: Session, first: uint64, id: string, content: BoundContent)
    requires SessionInv(s, first)
    ensures var (s', out) := BindForSend(s, id, content);
            && SessionInv(s', first)
            && s'.tickets.Keys == s.tickets.Keys && Issued(s') == Issued(s) && s'.grant == s.grant
              && s'.instance == s.instance
            && (forall j | j in s.tickets && s.tickets[j].bound.Some? :: s'.tickets[j] == s.tickets[j])
            && (out.Err? ==> s' == s)
            && (out.Ok? ==> id in s'.tickets && s'.tickets[id].bound == Some(content)
                            && s'.tickets[id].sequence <= s'.watermark)
            && (s'.watermark == s.watermark
              || (s'.watermark == s.watermark + 1 == s.tickets[id].sequence && first == 1))
            && (s'.watermark == s.watermark ==> s' == s)
  {
    var (s', out) := BindForSend(s, id, content);
    if id in s.tickets {
      assert TicketOk(s, id, s.tickets[id], first);
    }
    if s' != s {
      var t := s.tickets[id];
      forall j | j in s'.tickets ensures TicketOk(s', j, s'.tickets[j], first) {
        assert TicketOk(s, j, s.tickets[j], first);
        assert j != id ==> s.tickets[j].sequence != t.sequence;
      }
      forall q: nat | first <= q <= Issued(s') ensures MakeRequestId(s', q) in s'.tickets {
        assert MakeRequestId(s, q) in s.tickets;
      }
    }
  }

  /** When a send goes through, for every ticket of a session: a bound one with its own content, an unbound one
      that is the lowest unsent. */
  lemma SendGoesThroughIff(s: Session, first: uint64, q: nat, content: BoundContent)
    requires SessionInv(s, first) && first <= q <= Issued(s)
    ensures var id := MakeRequestId(s, q);
      && id in s.tickets && s.tickets[id].sequence == q
      && (BindForSend(s, id, content).1.Ok? <==>
            if q <= s.watermark then s.tickets[id].bound == Some(content) else q == s.watermark + 1)
  {
    var id := MakeRequestId(s, q);
    assert TicketOk(s, id, s.tickets[id], first);
    IdsDiffer(s, q, s.tickets[id].sequence);
  }

  /** Why a send is refused: the id was never issued here, the ticket carries other content, or an earlier ticket
      has not been sent; the last refusal names the ticket that has to go first. */
  lemma SendRefusedIff(s: Session, first: uint64, id: string, content: BoundContent)
    requires SessionInv(s, first)
    ensures BindForSend(s, id, content).1 == Err(NotIssuedHere) <==> id !in s.tickets
    ensures BindForSend(s, id, content).1 == Err(BoundToAnotherRequest) <==>
      id in s.tickets && s.tickets[id].sequence <= s.watermark && s.tickets[id].bound != Some(content)
    ensures BindForSend(s, id, content).1 == Err(SkipsUnsentTicket(s.watermark + 1)) <==>
      id in s.tickets && s.tickets[id].sequence > s.watermark + 1
  {
    if id in s.tickets {
      assert TicketOk(s, id, s.tickets[id], first);
    }
  }

  /** As long as a ticket is unsent the lowest one can be sent, whatever its content, if and only if the session
      was opened at 1. */
  lemma CanSendIff(s: Session, first: uint64, content: BoundContent)
    requires SessionInv(s, first) && first <= Issued(s) && s.watermark < Issued(s)
    ensures (exists id :: id in s.tickets && s.tickets[id].bound.None? && BindForSend(s, id, content).1.Ok?)
      <==> first == 1
    ensures first == 1 ==> BindForSend(s, MakeRequestId(s, s.watermark + 1), content).1.Ok?
  {
    if first == 1 {
      SendGoesThroughIff(s, first, s.watermark + 1, content);
      var id := MakeRequestId(s, s.watermark + 1);
      assert TicketOk(s, id, s.tickets[id], first);
    } else {
      forall id | id in s.tickets && s.tickets[id].bound.None? ensures BindForSend(s, id, content).1.Err? {
        assert TicketOk(s, id, s.tickets[id], first);
      }
    }
  }

  /** For a session started at 1 the bound tickets are exactly 1 .. watermark. */
  lemma BoundTicketsArePrefix(s: Session, q: nat)
    requires SessionInv(s, 1)
    ensures 1 <= q <= s.watermark <==>
      MakeRequestId(s, q) in s.tickets && s.tickets[MakeRequestId(s, q)].bound.Some?
    ensures 1 <= q <= s.watermark ==> s.tickets[MakeRequestId(s, q)].sequence == q
  {
    var id := MakeRequestId(s, q);
    if id in s.tickets {
      assert TicketOk(s, id, s.tickets[id], 1);
      IdsDiffer(s, q, s.tickets[id].sequence);
    }
  }

  // ---------- Runs of the sender ----------

  datatype Call = Preparing | Sending(requestId: string, content: BoundContent)

  function After(s: Session, calls: seq<Call>): Session {
    if calls == [] then s
    else
      var mid := After(s, calls[..|calls| - 1]);
      match calls[|calls| - 1]
      case Preparing => Prepare(mid).0
      case Sending(id, content) => BindForSend(mid, id, content).0
  }

  /** The tickets a run of calls obtains. */
  function Obtained(s: Session, calls: seq<Call>): seq<Ticket> {
    if calls == [] then []
    else
      var rest := calls[..|calls| - 1];
      var last := Prepare(After(s, rest)).1;
      Obtained(s, rest) + if calls[|calls| - 1].Preparing? && last.Some? then [last.value] else []
  }

  /** Over any run of calls the tickets carry consecutive sequences and distinct request ids, no content
      once bound changes, and the counter never wraps. */
  lemma {:induction false} SequencesNeverRepeat(s: Session, first: uint64, calls: seq<Call>)
    requires SessionInv(s, first)
    ensures SessionInv(After(s, calls), first)
    ensures Issued(After(s, calls)) == Issued(s) + |Obtained(s, calls)| <= MAX64
    ensures forall i | 0 <= i < |Obtained(s, calls)| :: Obtained(s, calls)[i].sequence == Issued(s) + 1 + i
    ensures forall j | j in s.tickets :: j in After(s, calls).tickets
    ensures forall j | j in s.tickets && s.tickets[j].bound.Some? :: After(s, calls).tickets[j] == s.tickets[j]
  {
    hide SessionInv, Prepare, BindForSend;
    if calls != [] {
      var rest := calls[..|calls| - 1];
      SequencesNeverRepeat(s, first, rest);
      var mid := After(s, rest);
      match calls[|calls| - 1]
      case Preparing => PrepareIssuesTheNextSequence(mid, first);
      case Sending(id, content) => BindKeepsOrder(mid, first, id, content);
    }
  }

  /** A session opened above 1 (only the tests do that) never gets a first send through: its watermark
      starts at 0 all the same. */
  lemma SessionOpenedHigherNeverSends(grant: Grant, instance: uint64, first: uint64, calls: seq<Call>, id: string,
      content: BoundContent)
    requires first > 1
    ensures BindForSend(After(Open(grant, instance, first), calls), id, content).1.Err?
  {
    OpenInv(grant, instance, first);
    var s := Open(grant, instance, first);
    SequencesNeverRepeat(s, first, calls);
    var s' := After(s, calls);
    if id in s'.tickets {
      assert TicketOk(s', id, s'.tickets[id], first);
    }
  }
}

module OrderedSessionObject {
  import opened Wrappers
  import opened UInt64
  import opened Decimal
  import opened OrderedTypes
  import opened RequestText
  import opened SessionModel

  /** A ticket is shared between the session and the stamps handed out for it. */
  class OrderedTicket {
    const sequence: uint64
    const requestId: string
    var bound: Option<BoundContent>

    constructor (sequence: uint64, requestId: string)
      ensures this.sequence == sequence && this.requestId == requestId && bound == None
    {
      this.sequence, this.requestId := sequence, requestId;
      bound := None;
    }

    /** Binds an unbound ticket; otherwise says whether the content is the one bound before. */
    method BindOrCheck(content: BoundContent) returns (same: bool)
      modifies this
      ensures same <==> old(bound) in {None, Some(content)}
      ensures bound == if old(bound).None? then Some(content) else old(bound)
    {
      if bound.None? {
        bound := Some(content);
        return true;
      }
      return bound.value == content;
    }
  }

  /** The counter moves on, or closes after 2^64-1. */
  function Advanced(s: Session): Session {
    if s.nextSequence == MAX64 then s.(exhausted := true) else s.(nextSequence := s.nextSequence + 1)
  }

  lemma PrepareInTwoSteps(s: Session)
    requires !s.exhausted
    ensures var id := MakeRequestId(s, s.nextSequence); var t := Ticket(s.nextSequence, id, None);
      SessionModel.Prepare(s).0 == Advanced(s.(tickets := s.tickets[id := t])) && SessionModel.Prepare(s).1.Some?
  {
  }

  class OrderedSession {
    const grant: Grant
    const instance: uint64
    ghost const first: uint64
    var nextSequence: uint64
    var exhausted: bool
    var watermark: uint64
    var tickets: map<string, OrderedTicket>

    ghost function State(): Session
      reads this, tickets.Values
    {
      Session(grant, instance, nextSequence, exhausted, watermark,
              map id | id in tickets :: Ticket(tickets[id].sequence, tickets[id].requestId, tickets[id].bound))
    }

    ghost predicate Valid()
      reads this, tickets.Values
    {
      SessionInv(State(), first)
    }

    constructor (grant: Grant, instance: uint64, first: uint64)
      requires first >= 1
      ensures Valid() && State() == Open(grant, instance, first) && this.first == first
      ensures this.grant == grant && this.instance == instance && nextSequence == first
      ensures !exhausted && watermark == 0 && tickets == map[]
    {
      this.grant, this.instance, this.first := grant, instance, first;
      nextSequence, exhausted, watermark, tickets := first, false, 0, map[];
    }

    lemma KeysAreRequestIds()
      requires Valid()
      ensures forall id | id in tickets :: tickets[id].requestId == id
      ensures forall id | id in tickets && tickets[id].bound.None? :: watermark < tickets[id].sequence
    {
      forall id | id in tickets
        ensures tickets[id].requestId == id && (tickets[id].bound.None? ==> watermark < tickets[id].sequence)
      {
        assert TicketOk(State(), id, State().tickets[id], first);
      }
    }

    /** The ticket is created before the counter moves; both happen under the session's mutex. */
    method Prepare() returns (stamp: Option<OrderedTicket>)
      requires Valid()
      modifies this
      ensures Valid()
      ensures State() == SessionModel.Prepare(old(State())).0
      ensures stamp.Some? <==> SessionModel.Prepare(old(State())).1.Some?
      ensures stamp.Some? ==> fresh(stamp.value) && (stamp.value.requestId, stamp.value) in tickets.Items
      ensures stamp.None? <==> old(exhausted)
      ensures stamp.Some? ==>
        && stamp.value.sequence == old(nextSequence) && stamp.value.bound == None
        && stamp.value.requestId == TextOfId(old(nextSequence))
    {
      PrepareIssuesTheNextSequence(State(), first);
      if exhausted {
        return None;
      }
      PrepareInTwoSteps(State());
      hide SessionInv, SessionModel.Prepare, MakeRequestId;
      var ticket := Issue(nextSequence);
      assert ticket.requestId == TextOfId(nextSequence);
      AdvanceCounter();
      return Some(ticket);
    }

    /** The request id of a sequence, written out. */
    function TextOfId(sequence: nat): string {
      grant.producerId + "/" + grant.producerEpoch + "/" + grant.receiverEpoch + "/" + ToDecimal(instance) + "/"
      + ToDecimal(sequence)
    }

    method AdvanceCounter()
      modifies `nextSequence, `exhausted
      ensures State() == Advanced(old(State()))
    {
      if nextSequence == MAX64 {
        exhausted := true;
      } else {
        nextSequence := nextSequence + 1;
      }
    }

    method Issue(sequence: uint64) returns (ticket: OrderedTicket)
      requires MakeRequestId(State(), sequence) !in tickets
      modifies `tickets
      ensures fresh(ticket) && (ticket.requestId, ticket) in tickets.Items
      ensures ticket.sequence == sequence && ticket.bound == None && ticket.requestId == TextOfId(sequence)
      ensures var id := MakeRequestId(old(State()), sequence);
              State() == old(State()).(tickets := old(State()).tickets[id := Ticket(sequence, id, None)])
    {
      var id := RequestId(grant.producerId, grant.producerEpoch, grant.receiverEpoch, instance, sequence);
      assert id == TextOfId(sequence);
      hide RequestId;
      ghost var before := State();
      ticket := new OrderedTicket(sequence, id);
      // unordered_map::emplace inserts only when the key is absent
      if id !in tickets {
        tickets := tickets[id := ticket];
      }
      assert State().tickets == before.tickets[id := Ticket(sequence, id, None)];
    }

    /** The stamp's ticket must be the very object this session issued under its request id. */
    method BindForSend(stamp: Option<OrderedTicket>, content: BoundContent) returns (r: Result<(), BindError>)
      requires Valid()
      modifies `watermark, tickets.Values
      ensures Valid() && tickets == old(tickets)
      ensures (State(), r) == if stamp.Some? && stamp.value in tickets.Values
                              then SessionModel.BindForSend(old(State()), stamp.value.requestId, content)
                              else (old(State()), Err(NotIssuedHere))
    {
      KeysAreRequestIds();
      hide SessionInv;
      if stamp.None? {
        return Err(NotIssuedHere);
      }
      var ticket := stamp.value;
      if ticket.requestId !in tickets || tickets[ticket.requestId] != ticket {
        return Err(NotIssuedHere);
      }
      r := BindOwn(ticket, content);
    }

    method BindOwn(ticket: OrderedTicket, content: BoundContent) returns (r: Result<(), BindError>)
      requires Valid() && ticket.requestId in tickets && tickets[ticket.requestId] == ticket
      modifies `watermark, ticket
      ensures Valid()
      ensures (State(), r) == SessionModel.BindForSend(old(State()), ticket.requestId, content)
    {
      var id := ticket.requestId;
      ghost var before := State();
      BindKeepsOrder(before, first, id, content);
      KeysAreRequestIds();
      hide SessionInv;
      if ticket.bound.Some? {
        var same := ticket.BindOrCheck(content);
        assert State() == before;
        return if same then Ok(()) else Err(BoundToAnotherRequest);
      }
      // in 64 bits: an unsent ticket lies above the watermark, so this sum cannot wrap
      var expected: uint64 := watermark + 1;
      if ticket.sequence != expected {
        return Err(SkipsUnsentTicket(expected));
      }
      var _ := ticket.BindOrCheck(content);
      watermark := Increment(watermark);
      assert State().tickets == before.tickets[id := Ticket(ticket.sequence, id, Some(content))];
      return Ok(());
    }
  }
}
