// One sender, one receiver, and a network that loses, duplicates and reorders: at-most-once, in order.

module EndToEnd {
  import opened Wrappers
  import opened UInt64
  import opened Decimal
  import opened RequestText
  import opened OrderedTypes
  import opened SessionModel
  import opened IngressModel
  import opened IngressProofs

  // ---------- The system ----------

  /** The session under study, and how the target service reads the actor key out of a payload. */
  datatype World = World(grant: Grant, config: Config, extractKey: (string, string) -> Option<string>)

  /** An ordered call on the wire.  The sequence travels as decimal text. */
  datatype Message = Message(
    service: string,
    methodName: string,
    payload: string,
    requestId: string,
    producerId: string,
    producerEpoch: string,
    receiverEpoch: string,
    sequenceText: string)

  /** What is run for one sequence. */
  datatype Record = Record(sequence: nat, requestId: string, methodName: string, payload: string)

  datatype System = System(
    sender: Session,
    ingress: Ingress,
    sent: set<Message>,
    outstanding: set<Admission>,
    executed: seq<Record>,
    replies: map<uint64, Reply>)

  /** `executed` is what the receiver admitted for execution on the session, in admission order; `replies`
      the terminal reply of each finished one.  Messages are never removed from `sent`: delivering one twice
      is a duplicate, never delivering it a loss, delivering it late a reordering. */
  datatype Step =
    | PrepareTicket
    | Send(requestId: string, service: string, methodName: string, custom: string, payload: string)
    | Deliver(message: Message)
    | Finish(admission: Admission, reply: Reply, verdict: Option<Error>)
    | OtherRequest(request: Request)
    | OtherGrant(other: Grant)

  function Start(w: World, instance: uint64): System {
    System(Open(w.grant, instance, 1), GrantStream(Initial(w.config), w.grant).0, {}, {}, [], map[])
  }

  function MessageOf(s: Session, t: Ticket, c: BoundContent): Message {
    Message(c.service, c.methodName, c.requestBytes, t.requestId,
            s.grant.producerId, s.grant.producerEpoch, s.grant.receiverEpoch, ToDecimal(t.sequence))
  }

  /** The request the dispatcher puts to the ingress, None when the message does not get that far.  The
      peer is the authenticated sender, the one the grant names. */
  ghost function Received(w: World, m: Message): Option<Request> {
    var key := w.extractKey(m.methodName, m.payload);
    var sequence := Parsed(m.sequenceText);
    if m.service != w.config.service || key.None? || sequence.None? then None
    else Some(Request(true, key.value, m.producerId, m.producerEpoch, m.receiverEpoch, w.grant.peerPrincipal,
                      sequence.value, m.requestId, OrderedRequestDigest(m.methodName, key.value, m.payload)))
  }

  /** Nobody else speaks as the granted peer on this session, and no other grant replaces it; another
      stream is re-granted only when nothing admitted under its old session is still running. */
  predicate Enabled(w: World, sys: System, step: Step) {
    match step
    case PrepareTicket => true
    case Send(_, _, _, _, _) => true
    case Deliver(m) => m in sys.sent
    case Finish(a, _, _) => a in sys.outstanding
    case OtherRequest(r) => !Covers(w.grant, r)
    case OtherGrant(g) => KeyOf(g) != KeyOf(w.grant) && forall a | a in sys.outstanding :: a.stream != KeyOf(g)
  }

  ghost function AdmitTo(w: World, sys: System, r: Request, record: Record): System
    requires Inv(sys.ingress)
  {
    var (st', out) := Admit(sys.ingress, r);
    if out.Ok? && out.value.Execute? then
      sys.(ingress := st', outstanding := sys.outstanding + {out.value},
           executed := if out.value.stream == KeyOf(w.grant) then sys.executed + [record] else sys.executed)
    else sys.(ingress := st')
  }

  ghost function RecordOf(m: Message, r: Request): Record {
    Record(r.sequence, m.requestId, m.methodName, m.payload)
  }

  /** A step that is not enabled does nothing. */
  ghost function Next(w: World, sys: System, step: Step): System
    requires Inv(sys.ingress)
  {
    if !Enabled(w, sys, step) then sys
    else match step
      case PrepareTicket => sys.(sender := Prepare(sys.sender).0)
      case Send(id, service, name, custom, payload) =>
        var c := BoundContent(service, name, w.grant.actorKey, custom, payload);
        var (s', out) := BindForSend(sys.sender, id, c);
        if out.Err? then sys else sys.(sender := s', sent := sys.sent + {MessageOf(s', s'.tickets[id], c)})
      case Deliver(m) =>
        var r := Received(w, m);
        if r.None? then sys else AdmitTo(w, sys, r.value, RecordOf(m, r.value))
      case Finish(a, reply, verdict) =>
        sys.(ingress := Complete(sys.ingress, a, reply, verdict).0, outstanding := sys.outstanding - {a},
             replies := if a.stream == KeyOf(w.grant) then sys.replies[a.sequence := Normalise(reply, verdict)]
               else sys.replies)
      case OtherRequest(r) => AdmitTo(w, sys, r, Record(r.sequence, r.requestId, "", ""))
      case OtherGrant(g) => sys.(ingress := GrantStream(sys.ingress, g).0)
  }

  // ---------- What the sender has committed to ----------

  ghost function BoundAt(s: Session, q: nat): Option<BoundContent> {
    var id := MakeRequestId(s, q);
    if id in s.tickets then s.tickets[id].bound else None
  }

  ghost function RecordAt(s: Session, q: nat): Record
    requires BoundAt(s, q).Some?
  {
    var c := BoundAt(s, q).value;
    Record(q, MakeRequestId(s, q), c.methodName, c.requestBytes)
  }

  ghost function IdentityAt(w: World, s: Session, q: nat): InFlight
    requires BoundAt(s, q).Some?
  {
    var c := BoundAt(s, q).value;
    InFlight(MakeRequestId(s, q), OrderedRequestDigest(c.methodName, w.grant.actorKey, c.requestBytes))
  }

  /** The bound requests in sequence order: 1 .. watermark. */
  ghost function BoundLog(s: Session): seq<Record>
    requires SessionInv(s, 1)
  {
    seq(s.watermark, i requires 0 <= i < s.watermark => BoundRecord(s, i + 1))
  }

  ghost function BoundRecord(s: Session, q: nat): Record
    requires SessionInv(s, 1) && 1 <= q <= s.watermark
  {
    BoundTicketsArePrefix(s, q);
    RecordAt(s, q)
  }

  // ---------- The invariant ----------

  ghost predicate SentAs(s: Session, m: Message, q: nat) {
    && 1 <= q <= s.watermark && BoundAt(s, q).Some?
    && m == MessageOf(s, Ticket(q, MakeRequestId(s, q), None), BoundAt(s, q).value)
  }

  ghost predicate SenderSide(w: World, s: Session, sent: set<Message>) {
    && SessionInv(s, 1) && s.grant == w.grant
    && (forall m | m in sent :: exists q :: SentAs(s, m, q))
  }

  ghost predicate SlotOk(w: World, s: Session, st: Ingress, executed: seq<Record>, replies: map<uint64, Reply>,
      q: uint64)
    requires KeyOf(w.grant) in st.streams
  {
    var k, own := CachedKey(KeyOf(w.grant), q), st.streams[KeyOf(w.grant)].inFlight;
    && 1 <= q <= |executed|
    && BoundAt(s, q).Some? && executed[q - 1] == RecordAt(s, q)
    && (q in own ==> own[q] == IdentityAt(w, s, q) && k !in st.cached)
    && (q !in own <==> q in replies)
    && (k in st.cached ==> q in replies && st.cached[k].reply == replies[q] &&
                           InFlight(st.cached[k].requestId, st.cached[k].digest) == IdentityAt(w, s, q))
  }

  ghost predicate ReceiverSide(w: World, s: Session, st: Ingress, executed: seq<Record>, replies: map<uint64, Reply>) {
    && KeyOf(w.grant) in st.streams && w.grant in st.grants && w.config == st.config
    && |executed| == Consumed(st.streams[KeyOf(w.grant)]) <= s.watermark
    && (forall q | q in replies :: 1 <= q <= |executed|)
    && (forall q: uint64 | 1 <= q <= |executed| :: SlotOk(w, s, st, executed, replies, q))
  }

  predicate InFlightIn(streams: map<StreamKey, StreamState>, a: Admission) {
    a.Execute? && a.stream in streams && a.sequence in streams[a.stream].inFlight
  }

  /** What runs is what is in flight. */
  ghost predicate RunningMatches(streams: map<StreamKey, StreamState>, outstanding: set<Admission>) {
    forall a :: a in outstanding <==> InFlightIn(streams, a)
  }

  ghost predicate SysInv(w: World, sys: System) {
    && Inv(sys.ingress)
    && SenderSide(w, sys.sender, sys.sent)
    && ReceiverSide(w, sys.sender, sys.ingress, sys.executed, sys.replies)
    && RunningMatches(sys.ingress.streams, sys.outstanding)
  }

  predicate WorldOk(w: World) {
    ConfigOk(w.config) && w.grant.service == w.config.service && !HasEmptyField(w.grant)
  }

  // ---------- Sender steps ----------

  lemma BindingsKept(w: World, s: Session, s': Session, st: Ingress, executed: seq<Record>, replies: map<uint64, Reply>)
    requires ReceiverSide(w, s, st, executed, replies) && s'.watermark >= s.watermark
    requires s'.grant == s.grant && s'.instance == s.instance
    requires forall j | j in s.tickets && s.tickets[j].bound.Some? :: j in s'.tickets && s'.tickets[j] == s.tickets[j]
    ensures ReceiverSide(w, s', st, executed, replies)
  {
    forall q: uint64 | 1 <= q <= |executed| ensures SlotOk(w, s', st, executed, replies, q) {
      hide RequestId;
      assert SlotOk(w, s, st, executed, replies, q);
      assert BoundAt(s', q) == BoundAt(s, q);
    }
  }

  lemma MessagesKept(s: Session, s': Session, sent: set<Message>)
    requires forall m | m in sent :: exists q :: SentAs(s, m, q)
    requires s'.grant == s.grant && s'.instance == s.instance && s'.watermark >= s.watermark
    requires forall j | j in s.tickets && s.tickets[j].bound.Some? :: j in s'.tickets && s'.tickets[j] == s.tickets[j]
    ensures forall m | m in sent :: exists q :: SentAs(s', m, q)
  {
    hide RequestId;
    forall m | m in sent ensures exists q :: SentAs(s', m, q) {
      var q :| SentAs(s, m, q);
      assert BoundAt(s', q) == BoundAt(s, q);
      assert SentAs(s', m, q);
    }
  }

  /** The two calls of the sender keep its invariant and what is bound. */
  lemma SenderCall(w: World, sys: System, step: Step)
    requires Inv(sys.ingress) && SessionInv(sys.sender, 1) && sys.sender.grant == w.grant
    requires step.PrepareTicket? || step.Send?
    ensures var s, s' := sys.sender, Next(w, sys, step).sender;
            && SessionInv(s', 1) && s'.grant == s.grant && s'.instance == s.instance && s.watermark <= s'.watermark
            && (forall id | id in s.tickets && s.tickets[id].bound.Some? ::
              id in s'.tickets && s'.tickets[id] == s.tickets[id])
    ensures Next(w, sys, step).sent == sys.sent || step.Send?
  {
    var s := sys.sender;
    if step.PrepareTicket? {
      PrepareIssuesTheNextSequence(s, 1);
    } else {
      var c := BoundContent(step.service, step.methodName, w.grant.actorKey, step.custom, step.payload);
      BindKeepsOrder(s, 1, step.requestId, c);
    }
    hide Inv, SessionInv, Prepare, BindForSend, Increment;
  }

  lemma SenderStepKeepsInv(w: World, sys: System, step: Step)
    requires SysInv(w, sys) && (step.PrepareTicket? || step.Send?)
    ensures SenderSide(w, Next(w, sys, step).sender, Next(w, sys, step).sent)
    ensures ReceiverSide(w, Next(w, sys, step).sender, sys.ingress, sys.executed, sys.replies)
  {
    hide Inv, SessionInv, SlotOk, ReceiverSide, Next, RunningMatches, SentAs, TicketOk;
    SenderCall(w, sys, step);
    var s, s' := sys.sender, Next(w, sys, step).sender;
    BindingsKept(w, s, s', sys.ingress, sys.executed, sys.replies);
    MessagesKept(s, s', sys.sent);
    if Next(w, sys, step).sent != sys.sent {
      NewMessage(w, sys, step);
    }
  }

  lemma NewMessage(w: World, sys: System, step: Step)
    requires SessionInv(sys.sender, 1) && sys.sender.grant == w.grant && step.Send?
    requires Inv(sys.ingress)
    ensures var sys' := Next(w, sys, step);
            forall m | m in sys'.sent && m !in sys.sent :: exists q :: SentAs(sys'.sender, m, q)
  {
    var c := BoundContent(step.service, step.methodName, w.grant.actorKey, step.custom, step.payload);
    BindKeepsOrder(sys.sender, 1, step.requestId, c);
    var (s', out) := BindForSend(sys.sender, step.requestId, c);
    hide Inv, RequestId;
    if out.Ok? {
      var t := s'.tickets[step.requestId];
      assert TicketOk(s', step.requestId, t, 1);
      assert SentAs(s', MessageOf(s', t, c), t.sequence);
    }
  }

  // ---------- Steps on other streams ----------

  /** The session's own state is the same and its cached replies are among those before. */
  ghost predicate Undisturbed(st: Ingress, st': Ingress, key: StreamKey) {
    && key in st.streams && key in st'.streams && st'.config == st.config
    && st'.streams[key].nextSequence == st.streams[key].nextSequence
    && st'.streams[key].inFlight == st.streams[key].inFlight
    && (forall k | k in st'.cached && k.stream == key :: k in st.cached && st'.cached[k] == st.cached[k])
  }

  lemma ReceiverFrame(w: World, s: Session, st: Ingress, st': Ingress, executed: seq<Record>,
      replies: map<uint64, Reply>)
    requires ReceiverSide(w, s, st, executed, replies)
    requires Undisturbed(st, st', KeyOf(w.grant)) && w.grant in st'.grants
    ensures ReceiverSide(w, s, st', executed, replies)
  {
    forall q: uint64 | 1 <= q <= |executed| ensures SlotOk(w, s, st', executed, replies, q) {
      assert SlotOk(w, s, st, executed, replies, q);
    }
  }

  lemma OtherGrantIsHarmless(st: Ingress, g: Grant, key: StreamKey)
    requires Inv(st) && key in st.streams && KeyOf(g) != key
    ensures Undisturbed(st, GrantStream(st, g).0, key)
    ensures forall h | h in st.grants && KeyOf(h) == key :: h in GrantStream(st, g).0.grants
  {
    if GrantStream(st, g).1.Ok? {
      GrantInstallsOneSession(st, g);
    } else {
      GrantIsAtomic(st, g);
    }
    hide Inv;
  }

  lemma OtherFinishIsHarmless(st: Ingress, a: Admission, reply: Reply, verdict: Option<Error>, key: StreamKey)
    requires key in st.streams && a.stream != key
    ensures Undisturbed(st, Complete(st, a, reply, verdict).0, key)
    ensures Complete(st, a, reply, verdict).0.grants == st.grants
  {
  }

  lemma OtherAdmitIsHarmless(st: Ingress, r: Request, g: Grant)
    requires StreamsMatchGrants(st.grants, st.streams.Keys) && DistinctStreams(st.grants)
    requires g in st.grants && !Covers(g, r)
    ensures Undisturbed(st, Admit(st, r).0, KeyOf(g)) && Admit(st, r).0.grants == st.grants
    ensures Admit(st, r).1.Ok? ==> Admit(st, r).1.value.stream != KeyOf(g)
  {
    if Authorized(st.grants, r) {
      AuthorizedStreamExists(st, r);
      var h :| h in st.grants && Covers(h, r);
      assert h != g;
      assert KeyOf(h) != KeyOf(g);
    }
  }

  // ---------- Steps on the session itself ----------

  /** A sender's message either names another actor or is the request bound to its sequence. */
  lemma OwnMessage(w: World, s: Session, m: Message, q: nat)
    requires SentAs(s, m, q) && s.grant == w.grant && Received(w, m).Some?
    ensures var r := Received(w, m).value;
            && r.hasStamp && r.sequence == q && r.requestId == m.requestId
            && (w.extractKey(m.methodName, m.payload) == Some(w.grant.actorKey) <==> Covers(w.grant, r))
            && (Covers(w.grant, r) ==> InFlight(r.requestId, r.digest) == IdentityAt(w, s, q))
            && RecordOf(m, r) == RecordAt(s, q)
  {
    PrintedIsParsed(q);
  }

  lemma OwnAdmission(w: World, s: Session, st: Ingress, executed: seq<Record>, replies: map<uint64, Reply>, m: Message,
      q: nat)
    requires ReceiverSide(w, s, st, executed, replies) && SentAs(s, m, q) && s.grant == w.grant
    requires StreamsMatchGrants(st.grants, st.streams.Keys) && WorldOk(w)
    requires ListsMatch(st.cached, st.streams) && StreamsOk(st.streams)
    requires Received(w, m).Some? && Covers(w.grant, Received(w, m).value)
    ensures var r := Received(w, m).value;
            var (st', out) := Admit(st, r);
            var key := KeyOf(w.grant);
            && out != Err(SequenceConflict)
            && (q == |executed| + 1 <==> out == Ok(Execute(key, q)))
            && (out == Ok(Execute(key, q)) ==> ReceiverSide(w, s, st', executed + [RecordOf(m, r)], replies))
            && (out.Ok? ==> out.value == Execute(key, q) || (q in replies && out.value == Replay(key, q, replies[q])))
            && (out != Ok(Execute(key, q)) ==> st' == st)
            && (q > |executed| + 1 ==> out == Err(SequenceGap(|executed| + 1)))
  {
    var r := Received(w, m).value;
    var key := KeyOf(w.grant);
    OwnMessage(w, s, m, q);
    assert Authorized(st.grants, r);
    assert RequestKey(r) == key && StampComplete(r);
    var own := st.streams[key];
    assert StreamOk(own);
    hide OrderedRequestDigest, Received, RequestId;
    if 1 <= q <= |executed| {
      assert SlotOk(w, s, st, executed, replies, q);
    }
    var st' := Admit(st, r).0;
    if q == |executed| + 1 {
      var executed' := executed + [RecordOf(m, r)];
      assert CachedKey(key, q) in st.cached <==> ListedByStream(st.streams, CachedKey(key, q));
      forall p: uint64 | 1 <= p <= |executed'| ensures SlotOk(w, s, st', executed', replies, p) {
        if p <= |executed| {
          assert SlotOk(w, s, st, executed, replies, p);
        }
      }
    }
  }

  lemma OwnFinish(w: World, s: Session, st: Ingress, executed: seq<Record>, replies: map<uint64, Reply>,
                  a: Admission, reply: Reply, verdict: Option<Error>)
    requires ReceiverSide(w, s, st, executed, replies) && StreamsOk(st.streams)
    requires a.stream == KeyOf(w.grant) && InFlightIn(st.streams, a)
    ensures var (st', r) := Complete(st, a, reply, verdict);
            r == Ok(()) && st'.grants == st.grants
            && ReceiverSide(w, s, st', executed, replies[a.sequence := Normalise(reply, verdict)])
  {
    var key := KeyOf(w.grant);
    assert StreamOk(st.streams[key]);
    var (st', r) := Complete(st, a, reply, verdict);
    var replies' := replies[a.sequence := Normalise(reply, verdict)];
    assert st'.streams[key].inFlight == st.streams[key].inFlight - {a.sequence};
    assert st'.streams[key].nextSequence == st.streams[key].nextSequence;
    hide ReplySize, RequestId;
    forall q: uint64 | 1 <= q <= |executed| ensures SlotOk(w, s, st', executed, replies', q) {
      assert SlotOk(w, s, st, executed, replies, q);
    }
  }

  // ---------- Admissions and what runs ----------

  lemma AdmitRunning(st: Ingress, r: Request, outstanding: set<Admission>)
    requires StreamsMatchGrants(st.grants, st.streams.Keys) && RunningMatches(st.streams, outstanding)
    ensures var (st', out) := Admit(st, r);
            RunningMatches(st'.streams, if out.Ok? && out.value.Execute? then outstanding + {out.value}
              else outstanding)
  {
    if Authorized(st.grants, r) {
      AuthorizedStreamExists(st, r);
    }
    var (st', out) := Admit(st, r);
    if st' != st {
      forall a ensures InFlightIn(st'.streams, a) <==> a in outstanding || a == Execute(RequestKey(r), r.sequence) {
        assert a in outstanding <==> InFlightIn(st.streams, a);
      }
    }
  }

  /** A dispatch completes the admission it holds successfully, and only once: afterwards it is refused. */
  lemma CompletesExactlyOnce(st: Ingress, a: Admission, reply: Reply, verdict: Option<Error>,
      outstanding: set<Admission>)
    requires RunningMatches(st.streams, outstanding) && a in outstanding
    ensures var (st', r) := Complete(st, a, reply, verdict);
            && r == Ok(()) && RunningMatches(st'.streams, outstanding - {a})
            && forall again: Reply, v :: Complete(st', a, again, v) == (st', Err(NotInFlight))
  {
    var st' := Complete(st, a, reply, verdict).0;
    assert InFlightIn(st.streams, a);
    forall b ensures InFlightIn(st'.streams, b) <==> b in outstanding && b != a {
      assert b in outstanding <==> InFlightIn(st.streams, b);
      if b.Execute? && b.stream in st.streams {
        assert st'.streams[b.stream].inFlight
            == if b.stream == a.stream then st.streams[b.stream].inFlight - {a.sequence}
              else st.streams[b.stream].inFlight;
      }
    }
  }

  /** A session switch keeps running admissions and in-flight entries in step if and only if nothing admitted
      under the replaced session is still running. */
  lemma SwitchNeedsQuietStream(st: Ingress, g: Grant, outstanding: set<Admission>)
    requires Inv(st) && RunningMatches(st.streams, outstanding)
    requires GrantStream(st, g).1.Ok? && g !in st.grants
    ensures RunningMatches(GrantStream(st, g).0.streams, outstanding)
      <==> forall a | a in outstanding :: a.stream != KeyOf(g)
  {
    GrantInstallsOneSession(st, g);
    GrantAddsOneStream(st, g);
    hide Inv;
    var streams' := GrantStream(st, g).0.streams;
    forall a ensures InFlightIn(streams', a) <==> a in outstanding && a.stream != KeyOf(g) {
      assert a in outstanding <==> InFlightIn(st.streams, a);
    }
  }

  lemma GrantAddsOneStream(st: Ingress, g: Grant)
    ensures forall k | k in GrantStream(st, g).0.streams :: k == KeyOf(g) || k in st.streams
  {
    hide SameStreamId, HasEmptyField, KeyOf;
  }

  lemma OtherGrantRunning(st: Ingress, g: Grant, outstanding: set<Admission>)
    requires Inv(st) && RunningMatches(st.streams, outstanding)
    requires forall a | a in outstanding :: a.stream != KeyOf(g)
    ensures RunningMatches(GrantStream(st, g).0.streams, outstanding)
  {
    if GrantStream(st, g).1.Ok? && g !in st.grants {
      SwitchNeedsQuietStream(st, g, outstanding);
    } else {
      GrantIsAtomic(st, g);
      hide Inv, SameStreamId, HasEmptyField, KeyOf;
      assert GrantStream(st, g).0 == st;
    }
  }

  // ---------- Every step keeps the invariant ----------

  lemma StartInv(w: World, instance: uint64)
    requires WorldOk(w)
    ensures SysInv(w, Start(w, instance))
  {
    OpenInv(w.grant, instance, 1);
    var st := Initial(w.config);
    assert Inv(st);
    GrantKeepsInv(st, w.grant);
    GrantInstallsOneSession(st, w.grant);
    assert RunningMatches(st.streams, {});
    OtherGrantRunning(st, w.grant, {});
    hide Inv, SessionInv;
  }

  lemma ReceiverIngress(w: World, sys: System, step: Step)
    requires Inv(sys.ingress)
    ensures Inv(Next(w, sys, step).ingress)
  {
    hide Inv, Admit, Complete, GrantStream, Received, Prepare, BindForSend, MessageOf;
    match step
    case PrepareTicket =>
    case Send(_, _, _, _, _) =>
    case Deliver(m) => if Received(w, m).Some? { AdmitKeepsInv(sys.ingress, Received(w, m).value); }
    case Finish(a, reply, verdict) => CompleteKeepsInv(sys.ingress, a, reply, verdict);
    case OtherRequest(r) => AdmitKeepsInv(sys.ingress, r);
    case OtherGrant(g) => GrantKeepsInv(sys.ingress, g);
  }

  lemma FinishStep(w: World, sys: System, a: Admission, reply: Reply, verdict: Option<Error>)
    requires SysInv(w, sys) && a in sys.outstanding
    ensures var sys' := Next(w, sys, Finish(a, reply, verdict));
            && ReceiverSide(w, sys.sender, sys'.ingress, sys'.executed, sys'.replies)
            && RunningMatches(sys'.ingress.streams, sys'.outstanding)
  {
    var s, st := sys.sender, sys.ingress;
    assert InFlightIn(st.streams, a);
    CompletesExactlyOnce(st, a, reply, verdict, sys.outstanding);
    if a.stream == KeyOf(w.grant) {
      OwnFinish(w, s, st, sys.executed, sys.replies, a, reply, verdict);
    } else {
      OtherFinishIsHarmless(st, a, reply, verdict, KeyOf(w.grant));
      ReceiverFrame(w, s, st, Complete(st, a, reply, verdict).0, sys.executed, sys.replies);
    }
    hide Inv, ReceiverSide, SessionInv, RunningMatches, Complete;
  }

  lemma OtherRequestStep(w: World, sys: System, r: Request)
    requires SysInv(w, sys) && !Covers(w.grant, r)
    ensures var sys' := Next(w, sys, OtherRequest(r));
            && ReceiverSide(w, sys.sender, sys'.ingress, sys'.executed, sys'.replies)
            && RunningMatches(sys'.ingress.streams, sys'.outstanding)
  {
    GrantedStreams(sys.ingress);
    OtherAdmitIsHarmless(sys.ingress, r, w.grant);
    AdmitRunning(sys.ingress, r, sys.outstanding);
    ReceiverFrame(w, sys.sender, sys.ingress, Admit(sys.ingress, r).0, sys.executed, sys.replies);
    hide Inv, ReceiverSide, SessionInv, RunningMatches, Admit, Covers;
  }

  lemma OtherGrantStep(w: World, sys: System, g: Grant)
    requires SysInv(w, sys) && Enabled(w, sys, OtherGrant(g))
    ensures var sys' := Next(w, sys, OtherGrant(g));
            && ReceiverSide(w, sys.sender, sys'.ingress, sys'.executed, sys'.replies)
            && RunningMatches(sys'.ingress.streams, sys'.outstanding)
  {
    GrantedStreams(sys.ingress);
    OtherGrantIsHarmless(sys.ingress, g, KeyOf(w.grant));
    OtherGrantRunning(sys.ingress, g, sys.outstanding);
    ReceiverFrame(w, sys.sender, sys.ingress, GrantStream(sys.ingress, g).0, sys.executed, sys.replies);
    hide Inv, ReceiverSide, SessionInv, RunningMatches, GrantStream;
  }

  lemma ReceiverStep(w: World, sys: System, step: Step)
    requires SysInv(w, sys) && WorldOk(w) && Enabled(w, sys, step) && !step.PrepareTicket? && !step.Send?
    ensures var sys' := Next(w, sys, step);
            && ReceiverSide(w, sys.sender, sys'.ingress, sys'.executed, sys'.replies)
            && RunningMatches(sys'.ingress.streams, sys'.outstanding)
            && sys'.sender == sys.sender && sys'.sent == sys.sent
  {
    hide Inv, ReceiverSide, SessionInv, RunningMatches, Admit, Complete, GrantStream, Received;
    match step
    case Deliver(m) =>
      if Received(w, m).Some? {
        var q :| SentAs(sys.sender, m, q);
        DeliveredStep(w, sys, m, q);
      }
    case Finish(a, reply, verdict) => FinishStep(w, sys, a, reply, verdict);
    case OtherRequest(r) => OtherRequestStep(w, sys, r);
    case OtherGrant(g) => OtherGrantStep(w, sys, g);
  }

  lemma DeliveredStep(w: World, sys: System, m: Message, q: nat)
    requires SysInv(w, sys) && WorldOk(w) && m in sys.sent && SentAs(sys.sender, m, q) && Received(w, m).Some?
    ensures var sys' := Next(w, sys, Deliver(m));
            && ReceiverSide(w, sys.sender, sys'.ingress, sys'.executed, sys'.replies)
            && RunningMatches(sys'.ingress.streams, sys'.outstanding)
  {
    var s, st, r := sys.sender, sys.ingress, Received(w, m).value;
    GrantedStreams(st);
    AdmitRunning(st, r, sys.outstanding);
    if Covers(w.grant, r) {
      OwnAdmission(w, s, st, sys.executed, sys.replies, m, q);
      hide Inv, ReceiverSide, SessionInv, Received, RunningMatches;
    } else {
      OtherAdmitIsHarmless(st, r, w.grant);
      ReceiverFrame(w, s, st, Admit(st, r).0, sys.executed, sys.replies);
    }
  }

  lemma NextKeepsInv(w: World, sys: System, step: Step)
    requires SysInv(w, sys) && WorldOk(w)
    ensures SysInv(w, Next(w, sys, step))
  {
    ReceiverIngress(w, sys, step);
    if Enabled(w, sys, step) {
      if step.PrepareTicket? || step.Send? {
        SenderStepKeepsInv(w, sys, step);
      } else {
        ReceiverStep(w, sys, step);
      }
    }
  }

  // ---------- Theorems over every run ----------

  ghost function After(w: World, instance: uint64, steps: seq<Step>): (sys: System)
    requires WorldOk(w)
    ensures SysInv(w, sys)
    decreases |steps|
  {
    if steps == [] then
      StartInv(w, instance);
      Start(w, instance)
    else
      var before := After(w, instance, steps[..|steps| - 1]);
      NextKeepsInv(w, before, steps[|steps| - 1]);
      Next(w, before, steps[|steps| - 1])
  }

  /** In every reachable state what the receiver has executed is a prefix of what the sender has bound, in
      sequence order: nothing is executed twice, out of order, or without having been bound. */
  lemma ExecutedIsPrefixOfBound(w: World, instance: uint64, steps: seq<Step>)
    requires WorldOk(w)
    ensures var sys := After(w, instance, steps);
            && SessionInv(sys.sender, 1) && sys.executed <= BoundLog(sys.sender)
            && (forall i | 0 <= i < |sys.executed| :: sys.executed[i].sequence == i + 1)
  {
    var sys := After(w, instance, steps);
    PrefixOfBound(w, sys.sender, sys.ingress, sys.executed, sys.replies);
  }

  lemma PrefixOfBound(w: World, s: Session, st: Ingress, executed: seq<Record>, replies: map<uint64, Reply>)
    requires SessionInv(s, 1) && ReceiverSide(w, s, st, executed, replies)
    ensures executed <= BoundLog(s)
    ensures forall i | 0 <= i < |executed| :: executed[i].sequence == i + 1
  {
    hide SessionInv;
    forall i | 0 <= i < |executed| ensures executed[i] == BoundLog(s)[i] && executed[i].sequence == i + 1 {
      assert SlotOk(w, s, st, executed, replies, i + 1);
    }
  }

  /** Whatever copy of a sent message arrives when: it is never a conflict; it is executed exactly when its
      sequence is the next one; a repeat is never executed, and when it is answered, then with the terminal
      reply of the one execution. */
  lemma DeliveryIsAtMostOnce(w: World, instance: uint64, steps: seq<Step>, m: Message)
    requires WorldOk(w) && m in After(w, instance, steps).sent
    requires Received(w, m).Some? && w.extractKey(m.methodName, m.payload) == Some(w.grant.actorKey)
    ensures var sys := After(w, instance, steps);
            var r := Received(w, m).value;
            var out := Admit(sys.ingress, r).1;
            && out != Err(SequenceConflict) && out != Err(StreamRejected)
            && (out.Ok? && out.value.Execute? <==> r.sequence == |sys.executed| + 1)
            && (out.Ok? && out.value.Replay? ==>
                  1 <= r.sequence <= |sys.executed| && sys.executed[r.sequence - 1] == RecordOf(m, r)
                  && r.sequence in sys.replies && out.value.reply == sys.replies[r.sequence])
            && (r.sequence > |sys.executed| + 1 ==> out == Err(SequenceGap(|sys.executed| + 1)))
  {
    DeliveryAnswer(w, After(w, instance, steps), m);
  }

  lemma DeliveryAnswer(w: World, sys: System, m: Message)
    requires WorldOk(w) && SenderSide(w, sys.sender, sys.sent) && m in sys.sent
    requires ReceiverSide(w, sys.sender, sys.ingress, sys.executed, sys.replies)
    requires StreamsMatchGrants(sys.ingress.grants, sys.ingress.streams.Keys)
    requires ListsMatch(sys.ingress.cached, sys.ingress.streams) && StreamsOk(sys.ingress.streams)
    requires Received(w, m).Some? && w.extractKey(m.methodName, m.payload) == Some(w.grant.actorKey)
    ensures var r := Received(w, m).value;
            var out := Admit(sys.ingress, r).1;
            && out != Err(SequenceConflict) && out != Err(StreamRejected)
            && (out.Ok? && out.value.Execute? <==> r.sequence == |sys.executed| + 1)
            && (out.Ok? && out.value.Replay? ==>
                  1 <= r.sequence <= |sys.executed| && sys.executed[r.sequence - 1] == RecordOf(m, r)
                  && r.sequence in sys.replies && out.value.reply == sys.replies[r.sequence])
            && (r.sequence > |sys.executed| + 1 ==> out == Err(SequenceGap(|sys.executed| + 1)))
  {
    hide SessionInv, SlotOk, ListsMatch, StreamsOk, StreamsMatchGrants;
    var q :| SentAs(sys.sender, m, q);
    OwnMessage(w, sys.sender, m, q);
    OwnAdmission(w, sys.sender, sys.ingress, sys.executed, sys.replies, m, q);
    ReplayedRecord(w, sys.sender, sys.ingress, sys.executed, sys.replies, m, q);
    hide Received, RecordOf;
  }

  lemma ReplayedRecord(w: World, s: Session, st: Ingress, executed: seq<Record>, replies: map<uint64, Reply>,
      m: Message, q: nat)
    requires ReceiverSide(w, s, st, executed, replies) && SentAs(s, m, q) && s.grant == w.grant && Received(w, m).Some?
    ensures q <= |executed| ==> executed[q - 1] == RecordOf(m, Received(w, m).value)
    ensures q in replies ==> 1 <= q <= |executed|
  {
    OwnMessage(w, s, m, q);
    if q <= |executed| {
      assert SlotOk(w, s, st, executed, replies, q);
    }
  }

  /** What is in flight at the receiver, on any stream, is what dispatches are running: with none running
      no stream has a sequence in flight. */
  lemma NothingRunningNothingInFlight(w: World, instance: uint64, steps: seq<Step>)
    requires WorldOk(w)
    ensures var sys := After(w, instance, steps);
            sys.outstanding == {} <==> forall k | k in sys.ingress.streams :: sys.ingress.streams[k].inFlight == map[]
  {
    var sys := After(w, instance, steps);
    QuietStreams(sys.ingress.streams, sys.outstanding);
  }

  lemma QuietStreams(streams: map<StreamKey, StreamState>, outstanding: set<Admission>)
    requires RunningMatches(streams, outstanding)
    ensures outstanding == {} <==> forall k | k in streams :: streams[k].inFlight == map[]
  {
    if outstanding == {} {
      forall k | k in streams ensures streams[k].inFlight == map[] {
        forall q | q in streams[k].inFlight ensures false {
          assert InFlightIn(streams, Execute(k, q));
        }
      }
    } else {
      var a :| a in outstanding;
      assert InFlightIn(streams, a);
    }
  }

  /** A finished execution stays finished with the same reply, and the executed log only grows. */
  lemma HistoryOnlyGrows(w: World, instance: uint64, steps: seq<Step>, step: Step)
    requires WorldOk(w)
    ensures var sys, sys' := After(w, instance, steps), After(w, instance, steps + [step]);
            && sys.executed <= sys'.executed
            && (forall q | q in sys.replies :: q in sys'.replies && sys'.replies[q] == sys.replies[q])
  {
    assert (steps + [step])[..|steps|] == steps;
    var sys := After(w, instance, steps);
    if step.Finish? && step.admission in sys.outstanding && step.admission.stream == KeyOf(w.grant) {
      FinishedOnce(w, sys, step.admission);
    }
    NextGrows(w, sys, step);
  }

  lemma NextGrows(w: World, sys: System, step: Step)
    requires Inv(sys.ingress)
    requires step.Finish? && step.admission in sys.outstanding && step.admission.stream == KeyOf(w.grant) ==>
      step.admission.sequence !in sys.replies
    ensures var sys' := Next(w, sys, step);
            && sys.executed <= sys'.executed
            && (forall q | q in sys.replies :: q in sys'.replies && sys'.replies[q] == sys.replies[q])
  {
    hide Received, RecordOf, Covers;
  }

  lemma FinishedOnce(w: World, sys: System, a: Admission)
    requires SysInv(w, sys) && a in sys.outstanding && a.stream == KeyOf(w.grant)
    ensures a.sequence !in sys.replies
  {
    assert InFlightIn(sys.ingress.streams, a);
    assert StreamOk(sys.ingress.streams[a.stream]);
    assert SlotOk(w, sys.sender, sys.ingress, sys.executed, sys.replies, a.sequence);
  }
}
