// What the receiver answers and keeps, said in the fields of requests, grants and replies alone.

module IngressAnswers {
  import opened Wrappers
  import opened UInt64
  import opened OrderedTypes
  import opened IngressModel
  import opened IngressProofs
  import opened IngressHistory

  // ---------- Who is admitted ----------

  /** A complete stamp is rejected exactly when no grant names the same actor, producer, producer epoch, receiver
      epoch and peer: all five, and nothing else about the grant. */
  lemma RejectedIff(st: Ingress, r: Request)
    requires Inv(st)
    ensures Admit(st, r).1 == Err(StampRequired) <==> !r.hasStamp
    ensures r.hasStamp && (r.producerId == "" || r.producerEpoch == "" || r.receiverEpoch == "") ==>
      Admit(st, r).1 == Err(StreamRejected)
    ensures r.hasStamp && r.producerId != "" && r.producerEpoch != "" && r.receiverEpoch != "" ==>
      (Admit(st, r).1 == Err(StreamRejected) <==>
        !exists g :: g in st.grants && g.actorKey == r.actorKey && g.producerId == r.producerId
          && g.producerEpoch == r.producerEpoch && g.receiverEpoch == r.receiverEpoch
          && g.peerPrincipal == r.peerPrincipal)
  {
    if g :| g in st.grants && g.actorKey == r.actorKey && g.producerId == r.producerId
            && g.producerEpoch == r.producerEpoch && g.receiverEpoch == r.receiverEpoch
            && g.peerPrincipal == r.peerPrincipal {
      assert Covers(g, r);
      AuthorizedStreamExists(st, r);
    }
    if Authorized(st.grants, r) {
      AuthorizedStreamExists(st, r);
      var g :| g in st.grants && Covers(g, r);
    }
  }

  /** Every answer to a request that some grant names, told from its sequence, the next sequence of the stream, and
      what is in flight and in the cache under that sequence. */
  lemma DecisionIff(st: Ingress, r: Request)
    requires Inv(st) && Admit(st, r).1 != Err(StampRequired) && Admit(st, r).1 != Err(StreamRejected)
    ensures var key := StreamKey(r.actorKey, r.producerId, r.producerEpoch);
      var q, answer := r.sequence, Admit(st, r).1;
      && key in st.streams
      && var s, k := st.streams[key], CachedKey(key, q);
         var past, running := 0 < q < s.nextSequence, q in s.inFlight;
      && (answer == Ok(Execute(key, q)) <==> q == s.nextSequence && q != 0)
      && (answer == Err(SequenceGap(s.nextSequence)) <==> q == 0 || q > s.nextSequence)
      && (answer == Err(InProgress) <==>
            past && running && s.inFlight[q].requestId == r.requestId && s.inFlight[q].digest == r.digest)
      && (answer == Err(SequenceConflict) <==>
            && past
            && (if running then s.inFlight[q].requestId != r.requestId || s.inFlight[q].digest != r.digest
                else k in st.cached && (st.cached[k].requestId != r.requestId || st.cached[k].digest != r.digest)))
      && (answer.Ok? && answer.value.Replay? <==>
            && past && !running && k in st.cached
            && st.cached[k].requestId == r.requestId && st.cached[k].digest == r.digest)
      && (answer.Ok? && answer.value.Replay? ==> answer.value == Replay(key, q, st.cached[k].reply))
      && (answer == Err(ResultExpired) <==> past && !running && k !in st.cached)
  {
    AuthorizedStreamExists(st, r);
    hide Inv, Authorized, StampComplete;
  }

  /** No grant names the actor, the producer with its epochs, and the peer of this request. */
  predicate Stranger(grants: seq<Grant>, r: Request) {
    forall g | g in grants ::
      g.peerPrincipal != r.peerPrincipal || g.actorKey != r.actorKey || g.producerId != r.producerId
      || g.producerEpoch != r.producerEpoch || g.receiverEpoch != r.receiverEpoch
  }

  lemma StrangerIsRefused(st: Ingress, r: Request)
    requires Inv(st) && Stranger(st.grants, r)
    ensures Admit(st, r).0 == st && Admit(st, r).1 in {Err(StampRequired), Err(StreamRejected)}
  {
    RejectedIff(st, r);
  }

  /** However many requests strangers send, the receiver stays as it is. */
  lemma {:induction false} StrangersChangeNothing(st: Ingress, events: seq<Event>)
    requires Inv(st)
    requires forall i | 0 <= i < |events| :: events[i].Admitting? && Stranger(st.grants, events[i].request)
    ensures Run(st, events) == st
    decreases |events|
  {
    hide Inv, Stranger;
    if events != [] {
      var n := |events| - 1;
      assert forall i | 0 <= i < n :: events[..n][i] == events[i];
      StrangersChangeNothing(st, events[..n]);
      StrangerIsRefused(st, events[n].request);
    }
  }

  lemma {:induction false} GrantsWereGranted(config: Config, events: seq<Event>, g: Grant)
    requires Inv(Initial(config)) && g in Run(Initial(config), events).grants
    ensures exists i :: 0 <= i < |events| && events[i] == Granting(g)
    decreases |events|
  {
    hide Inv;
    if events != [] {
      var n := |events| - 1;
      var before := Run(Initial(config), events[..n]);
      OneStepGrants(before, events[n], g);
      if g in before.grants {
        GrantsWereGranted(config, events[..n], g);
        var i :| 0 <= i < n && events[..n][i] == Granting(g);
        assert events[i] == Granting(g);
      }
    }
  }

  lemma OneStepGrants(st: Ingress, e: Event, g: Grant)
    requires Inv(st) && g in Step(st, e).0.grants
    ensures g in st.grants || e == Granting(g)
  {
    match e
    case Granting(h) =>
      hide Inv, Forget, SameStreamId, HasEmptyField, KeyOf;
      WithoutStreamMembers(st.grants, KeyOf(h));
    case Admitting(r) =>
    case Completing(a, reply, verdict) => hide Inv, Fits, EvictFrom;
  }

  /** Over any run, whoever is answered with an execution or a reply has been granted the stream before, under
      the very epochs and peer name the request carries. */
  lemma AnsweredOnlyAfterAGrant(config: Config, events: seq<Event>, r: Request) returns (i: nat)
    requires Inv(Initial(config)) && Admit(Run(Initial(config), events), r).1.Ok?
    ensures i < |events| && events[i].Granting?
    ensures var g := events[i].grant;
      && g.actorKey == r.actorKey && g.producerId == r.producerId && g.producerEpoch == r.producerEpoch
      && g.receiverEpoch == r.receiverEpoch && g.peerPrincipal == r.peerPrincipal
  {
    var st := Run(Initial(config), events);
    RejectedIff(st, r);
    var g :| g in st.grants && g.actorKey == r.actorKey && g.producerId == r.producerId
      && g.producerEpoch == r.producerEpoch && g.receiverEpoch == r.receiverEpoch
      && g.peerPrincipal == r.peerPrincipal;
    GrantsWereGranted(config, events, g);
    i :| 0 <= i < |events| && events[i] == Granting(g);
  }

  // ---------- What a grant is answered ----------

  /** The three refusals of a grant, in the order in which they are made. */
  lemma GrantRefusedIff(st: Ingress, g: Grant)
    requires Inv(st)
    ensures var invalid := g.service != st.config.service || g.service == "" || g.actorKey == "" || g.producerId == ""
        || g.producerEpoch == "" || g.receiverEpoch == "";
      && (GrantStream(st, g).1 == Err(InvalidGrant) <==> invalid)
      && (GrantStream(st, g).1 == Err(ConflictingGrant) <==>
            !invalid && exists h ::
              h in st.grants && h != g && h.actorKey == g.actorKey && h.producerId == g.producerId
              && h.producerEpoch == g.producerEpoch && h.receiverEpoch == g.receiverEpoch)
      && (GrantStream(st, g).1 == Err(Overloaded) <==>
            !invalid && |st.grants| == st.config.maxStreams
            && !exists h ::
                 h in st.grants && h.actorKey == g.actorKey && h.producerId == g.producerId
                 && h.producerEpoch == g.producerEpoch)
  {
    ConflictIff(st, g);
    if g.service == st.config.service && !HasEmptyField(g) && g !in st.grants
       && !exists h :: h in st.grants && SameStreamId(h, g) {
      OverloadIff(st, g);
    }
    hide Inv, Revoke, SameStreamId;
  }

  lemma ConflictIff(st: Ingress, g: Grant)
    requires Inv(st)
    ensures g !in st.grants && (exists h :: h in st.grants && SameStreamId(h, g)) <==>
      g.service == st.config.service && exists h ::
        h in st.grants && h != g && h.actorKey == g.actorKey && h.producerId == g.producerId
        && h.producerEpoch == g.producerEpoch && h.receiverEpoch == g.receiverEpoch
  {
    GrantedStreams(st);
    if g in st.grants {
      SingleSession(st.grants, g);
    }
    OneService(st);
    hide Inv;
    if h :| h in st.grants && h != g && h.actorKey == g.actorKey && h.producerId == g.producerId
            && h.producerEpoch == g.producerEpoch && h.receiverEpoch == g.receiverEpoch {
      assert KeyOf(h) == KeyOf(g);
    }
  }

  lemma OneService(st: Ingress)
    requires Inv(st)
    ensures forall h | h in st.grants :: h.service == st.config.service
  {
  }

  /** Only a stream nobody holds yet can meet the limit: a switch frees a place. */
  lemma OverloadIff(st: Ingress, g: Grant)
    requires Inv(st) && g.service == st.config.service && !HasEmptyField(g)
    requires g !in st.grants && !exists h :: h in st.grants && SameStreamId(h, g)
    ensures GrantStream(st, g).1 == Err(Overloaded) <==>
      && |st.grants| == st.config.maxStreams
      && !exists h ::
           h in st.grants && h.actorKey == g.actorKey && h.producerId == g.producerId
           && h.producerEpoch == g.producerEpoch
  {
    GrantIsAtomic(st, g);
    GrantedStreams(st);
    hide Inv, Revoke, SameStreamId, HasEmptyField;
    if h :| h in st.grants && h.actorKey == g.actorKey && h.producerId == g.producerId
            && h.producerEpoch == g.producerEpoch {
      assert KeyOf(h) == KeyOf(g);
    }
  }

  /** What a session switch or a new session leaves: the other grants and streams, no cached reply of the
      producer's stream, every other cached reply, and a stream that starts at 1. */
  lemma GrantedAfresh(st: Ingress, g: Grant)
    requires Inv(st) && GrantStream(st, g).1.Ok? && g !in st.grants
    ensures var st' := GrantStream(st, g).0; var key := StreamKey(g.actorKey, g.producerId, g.producerEpoch);
      && (forall h :: h in st'.grants <==>
            h == g || (h in st.grants && StreamKey(h.actorKey, h.producerId, h.producerEpoch) != key))
      && (forall k :: k in st'.streams <==> k in st.streams || k == key)
      && st'.streams[key].nextSequence == 1
      && st'.streams[key].inFlight == map[] && st'.streams[key].cachedSeqs == {}
      && (forall k | k in st.streams && k != key :: st'.streams[k] == st.streams[k])
      && (forall k :: k in st'.cached <==> k in st.cached && k.stream != key)
      && (forall k | k in st'.cached :: st'.cached[k] == st.cached[k])
  {
    var key := KeyOf(g);
    GrantInstallsOneSession(st, g);
    GrantedStreams(st);
    WithoutStreamMembers(st.grants, key);
    forall k | k in st.cached && k.stream == key ensures key in st.streams {
      assert ListedByStream(st.streams, k);
    }
    hide Inv, SameStreamId, HasEmptyField;
  }

  // ---------- What a completion keeps ----------

  /** The keys and values of the details, one after the other. */
  function DetailText(details: seq<(string, string)>): string {
    if details == [] then "" else details[0].0 + details[0].1 + DetailText(details[1..])
  }

  /** A pair adds the length of its key and that of its value, wherever it stands. */
  lemma {:induction false} DetailBytesAdd(a: seq<(string, string)>, b: seq<(string, string)>)
    ensures DetailBytes(a + b) == DetailBytes(a) + DetailBytes(b)
    decreases |b|
  {
    if b == [] {
      assert a + b == a;
    } else {
      var n := |b| - 1;
      DetailBytesAdd(a, b[..n]);
      assert (a + b)[..|a + b| - 1] == a + b[..n];
    }
  }

  lemma {:induction false} DetailBytesIsLength(details: seq<(string, string)>)
    ensures DetailBytes(details) == |DetailText(details)|
  {
    if details != [] {
      DetailBytesIsLength(details[1..]);
      DetailBytesAdd([details[0]], details[1..]);
      assert [details[0]] + details[1..] == details;
      assert [details[0]][..0] == [];
    }
  }

  /** All the text a terminal reply holds. */
  function ReplyText(r: Reply): string {
    if r.isOk then r.payload
    else r.payload + r.error.domain + r.error.domainCode + r.error.message + DetailText(r.error.details)
  }

  lemma SizeIsLength(r: Reply)
    ensures ReplySize(r) == |ReplyText(r)|
  {
    DetailBytesIsLength(r.error.details);
  }

  /** A completed execution keeps a success iff its payload fits the byte limit, and an error iff all its text
      does; an error the boundary check replaces is kept without details. */
  lemma KeptIff(st: Ingress, a: Admission, reply: Reply, verdict: Option<Error>)
    requires Inv(st) && a.Execute? && a.stream in st.streams && a.sequence in st.streams[a.stream].inFlight
    ensures var (st', r) := Complete(st, a, reply, verdict); var k := CachedKey(a.stream, a.sequence);
      var limit, was := st.config.maxBytes, st.streams[a.stream].inFlight[a.sequence];
      && r == Ok(())
      && (reply.isOk ==> (k in st'.cached <==> |reply.payload| <= limit))
      && (!reply.isOk && verdict.None? ==>
            (k in st'.cached <==>
               |reply.payload| + |reply.error.domain| + |reply.error.domainCode| + |reply.error.message|
                 + |DetailText(reply.error.details)| <= limit))
      && (!reply.isOk && verdict.Some? ==>
            (k in st'.cached <==>
               |reply.payload| + |verdict.value.domain| + |verdict.value.domainCode| + |verdict.value.message|
                 <= limit))
      && (k in st'.cached ==>
            var kept := st'.cached[k];
            && kept.requestId == was.requestId && kept.digest == was.digest
            && kept.reply.isOk == reply.isOk && kept.reply.payload == reply.payload
            && (reply.isOk || verdict.None? ==> kept.reply.error == reply.error)
            && (!reply.isOk && verdict.Some? ==>
                  kept.reply.error == Error(verdict.value.domain, verdict.value.domainCode, verdict.value.message, [])))
  {
    CompletedReplyIsKept(st, a, reply, verdict);
    DetailBytesIsLength(reply.error.details);
    KeptIdentity(st, a, reply, verdict);
    hide Inv, Complete;
  }

  lemma KeptIdentity(st: Ingress, a: Admission, reply: Reply, verdict: Option<Error>)
    requires Inv(st) && a.Execute? && a.stream in st.streams && a.sequence in st.streams[a.stream].inFlight
    ensures var st' := Complete(st, a, reply, verdict).0; var k := CachedKey(a.stream, a.sequence);
      var was := st.streams[a.stream].inFlight[a.sequence];
      k in st'.cached ==> st'.cached[k].requestId == was.requestId && st'.cached[k].digest == was.digest
  {
    LandedReply(st, a, reply, verdict);
    hide Inv, ReplySize, Normalise, Fits, EvictFrom;
  }

  /** Which completions are refused, and that a refusal changes nothing. */
  lemma CompletionRefusedIff(st: Ingress, a: Admission, reply: Reply, verdict: Option<Error>)
    ensures var (st', r) := Complete(st, a, reply, verdict);
      && (r == Err(NotAnExecution) <==> a.Replay?)
      && (r == Err(NoSuchStream) <==> a.Execute? && a.stream !in st.streams)
      && (r == Err(NotInFlight) <==>
            a.Execute? && a.stream in st.streams && a.sequence !in st.streams[a.stream].inFlight)
      && (r.Err? ==> st' == st)
  {
    hide Evict, Insert, Land, ReplySize;
  }

  /** The text of the cached replies, in completion order. */
  function HeldText(cached: map<CachedKey, CachedResult>, order: seq<CachedKey>): string {
    if order == [] then ""
    else (if order[0] in cached then ReplyText(cached[order[0]].reply) else "") + HeldText(cached, order[1..])
  }

  lemma {:induction false} TotalIsHeld(cached: map<CachedKey, CachedResult>, order: seq<CachedKey>)
    requires SizesOk(cached)
    ensures Total(cached, order) == |HeldText(cached, order)|
  {
    hide ReplySize, ReplyText;
    if order != [] {
      TotalIsHeld(cached, order[1..]);
      if order[0] in cached {
        SizeIsLength(cached[order[0]].reply);
      }
    }
  }

  /** In every state: the order lists each cached reply once, and both limits hold for what is really there. */
  lemma CacheFits(st: Ingress)
    requires Inv(st)
    ensures forall k :: k in st.cached <==> k in st.order
    ensures forall i, j | 0 <= i < j < |st.order| :: st.order[i] != st.order[j]
    ensures |st.order| <= st.config.maxCached && |HeldText(st.cached, st.order)| <= st.config.maxBytes
  {
    TotalIsHeld(st.cached, st.order);
  }

  lemma FullTotal(st: Ingress, full: Ingress, k: CachedKey, c: CachedResult, m: nat)
    requires OrderMatches(st.cached, st.order) && SizesOk(st.cached) && k !in st.cached && m <= |st.order|
    requires full.cached == st.cached[k := c] && full.order == st.order + [k]
    ensures Total(full.cached, full.order[m..]) == |HeldText(st.cached, st.order[m..])| + c.bytes
  {
    var rest := st.order[m..];
    assert full.order[m..] == rest + [k];
    TotalAppend(full.cached, rest, [k]);
    assert k !in st.order && forall j | j in rest :: j in st.order;
    TotalAgrees(st.cached, full.cached, rest);
    TotalIsHeld(st.cached, rest);
    assert [k][1..] == [];
  }

  lemma CompletedState(st: Ingress, a: Admission, reply: Reply, verdict: Option<Error>) returns (full: Ingress)
    requires Inv(st) && Complete(st, a, reply, verdict).1.Ok?
    requires CachedKey(a.stream, a.sequence) in Complete(st, a, reply, verdict).0.cached
    ensures var k := CachedKey(a.stream, a.sequence); var kept := Normalise(reply, verdict);
      && k !in st.cached && Books(full) && full.config == st.config && full.order == st.order + [k]
      && k in full.cached && full.cached == st.cached[k := full.cached[k]]
      && full.cached[k].reply == kept && full.cached[k].bytes == |ReplyText(kept)| <= st.config.maxBytes
      && Complete(st, a, reply, verdict).0 == Evict(full)
  {
    LandedReply(st, a, reply, verdict);
    CompletedReplyIsKept(st, a, reply, verdict);
    var k, kept := CachedKey(a.stream, a.sequence), Normalise(reply, verdict);
    SizeIsLength(kept);
    CompleteIsEvict(st, a, reply, verdict);
    hide *;
    var e := st.streams[a.stream].inFlight[a.sequence];
    var c := CachedResult(e.requestId, e.digest, kept, ReplySize(kept));
    full := Insert(Land(st, a), k, c);
    InsertedFields(Land(st, a), k, c);
    LandedFields(st, a);
  }

  lemma CompleteIsEvict(st: Ingress, a: Admission, reply: Reply, verdict: Option<Error>)
    requires Complete(st, a, reply, verdict).1.Ok?
    ensures a.stream in st.streams && a.sequence in st.streams[a.stream].inFlight && a.stream in Land(st, a).streams
    ensures var k, kept := CachedKey(a.stream, a.sequence), Normalise(reply, verdict);
      var e := st.streams[a.stream].inFlight[a.sequence];
      ReplySize(kept) <= st.config.maxBytes ==>
        Complete(st, a, reply, verdict).0 ==
          Evict(Insert(Land(st, a), k, CachedResult(e.requestId, e.digest, kept, ReplySize(kept))))
  {
    hide Evict, Insert, ReplySize, Normalise;
  }

  lemma InsertedFields(st: Ingress, k: CachedKey, c: CachedResult)
    requires k.stream in st.streams
    ensures var st' := Insert(st, k, c);
      st'.config == st.config && st'.order == st.order + [k] && st'.cached == st.cached[k := c]
  {
  }

  lemma LandedFields(st: Ingress, a: Admission)
    requires a.stream in st.streams
    ensures var st' := Land(st, a); st'.config == st.config && st'.order == st.order && st'.cached == st.cached
  {
  }

  lemma EvictsPart(full: Ingress, n: nat)
    requires Books(full) && n < |full.order| && n == EvictFrom(full, 0)
    ensures Evict(full).order == full.order[n..]
    ensures forall j | j in Evict(full).order ::
      j in full.cached && j in Evict(full).cached && Evict(full).cached[j] == full.cached[j]
  {
    ForgetOldest(full, n);
    forall j | j in Evict(full).order
      ensures j in full.cached && j in Evict(full).cached && Evict(full).cached[j] == full.cached[j]
    {
      CachedIffOrdered(Evict(full), j);
    }
  }

  lemma CacheAgreesOf(st: Ingress)
    requires Inv(st)
    ensures OrderMatches(st.cached, st.order) && SizesOk(st.cached)
  {
  }

  /** The new reply is the newest; only the oldest go for it, and no fewer would have been enough. */
  lemma CompletionEvictsTheFewest(st: Ingress, a: Admission, reply: Reply, verdict: Option<Error>) returns (n: nat)
    requires Inv(st) && Complete(st, a, reply, verdict).1.Ok?
    requires CachedKey(a.stream, a.sequence) in Complete(st, a, reply, verdict).0.cached
    ensures n <= |st.order|
    ensures var st' := Complete(st, a, reply, verdict).0; var k := CachedKey(a.stream, a.sequence);
      && st'.order == st.order[n..] + [k]
      && (forall j | j in st'.order && j != k :: j in st.cached && j in st'.cached && st'.cached[j] == st.cached[j])
      && (forall m: nat | m < n ::
            |st.order| - m + 1 > st.config.maxCached
            || |HeldText(st.cached, st.order[m..])| + |ReplyText(st'.cached[k].reply)| > st.config.maxBytes)
  {
    hide *;
    var k := CachedKey(a.stream, a.sequence);
    var full := CompletedState(st, a, reply, verdict);
    CacheAgreesOf(st);
    LimitsPositive(full);
    n := FewestForFull(st, full, k);
    EvictsPart(full, n);
    assert full.order[n..] == st.order[n..] + [k];
    NewestText(full, k, n);
  }

  lemma NewestText(full: Ingress, k: CachedKey, n: nat)
    requires Books(full) && n < |full.order| && n == EvictFrom(full, 0) && k == full.order[|full.order| - 1]
    requires k in full.cached
    ensures k in Evict(full).cached && Evict(full).cached[k] == full.cached[k]
  {
    hide *;
    EvictsPart(full, n);
    assert full.order[n..][|full.order| - n - 1] in Evict(full).order;
  }

  lemma FewestForFull(st: Ingress, full: Ingress, k: CachedKey) returns (n: nat)
    requires OrderMatches(st.cached, st.order) && SizesOk(st.cached) && k !in st.cached && ConfigOk(full.config)
    requires full.order == st.order + [k] && k in full.cached && full.cached == st.cached[k := full.cached[k]]
    requires full.cached[k].bytes <= full.config.maxBytes
    ensures n <= |st.order| && n == EvictFrom(full, 0)
    ensures forall m: nat | m < n ::
      |st.order| - m + 1 > full.config.maxCached
      || |HeldText(st.cached, st.order[m..])| + full.cached[k].bytes > full.config.maxBytes
  {
    hide OrderMatches, SizesOk, HeldText, Total;
    n := EvictFrom(full, 0);
    EvictFromIsLeast(full, 0);
    LastFits(full);
    forall m: nat | m < n
      ensures |st.order| - m + 1 > full.config.maxCached
        || |HeldText(st.cached, st.order[m..])| + full.cached[k].bytes > full.config.maxBytes
    {
      assert !Fits(full, m);
      FullTotal(st, full, k, full.cached[k], m);
    }
  }
}
