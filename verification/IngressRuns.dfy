// What a whole run of the receiver does to one stream between two session switches.

module IngressRuns {
  import opened Wrappers
  import opened UInt64
  import opened OrderedTypes
  import opened IngressModel
  import opened IngressProofs
  import opened IngressHistory

  /** The event replaces the session of stream k by a new one. */
  ghost predicate Switches(st: Ingress, e: Event, k: StreamKey) {
    e.Granting? && KeyOf(e.grant) == k && e.grant !in st.grants && GrantStream(st, e.grant).1.Ok?
  }

  ghost predicate NoSwitch(st: Ingress, events: seq<Event>, k: StreamKey)
    requires Inv(st)
  {
    forall i | 0 <= i < |events| :: !Switches(Run(st, events[..i]), events[i], k)
  }

  ghost function ExecutedBy(answer: Answer, k: StreamKey): seq<uint64> {
    if answer.Admitted? && answer.decision.Ok? && answer.decision.value.Execute? && answer.decision.value.stream == k
    then [answer.decision.value.sequence] else []
  }

  /** The sequences of stream k handed out for execution during a run, in the order of admission. */
  ghost function Executions(st: Ingress, events: seq<Event>, k: StreamKey): seq<uint64>
    requires Inv(st)
    decreases |events|
  {
    if events == [] then []
    else
      var before := events[..|events| - 1];
      Executions(st, before, k) + ExecutedBy(Step(Run(st, before), events[|events| - 1]).1, k)
  }

  /** A stream's history only grows, and an expired sequence stays expired. */
  ghost predicate Grows(s: StreamState, s': StreamState, executed: seq<uint64>) {
    && Consumed(s') == Consumed(s) + |executed|
    && (forall i | 0 <= i < |executed| :: executed[i] == Consumed(s) + 1 + i)
    && (forall q | q in Expired(s) :: q in Expired(s'))
  }

  lemma CompleteGrows(st: Ingress, a: Admission, reply: Reply, verdict: Option<Error>, k: StreamKey)
    requires StreamsOk(st.streams) && k in st.streams
    ensures k in Complete(st, a, reply, verdict).0.streams
    ensures Grows(st.streams[k], Complete(st, a, reply, verdict).0.streams[k], [])
  {
    var s, s' := st.streams[k], Complete(st, a, reply, verdict).0.streams[k];
    assert s'.nextSequence == s.nextSequence;
    assert forall q | q in s'.inFlight :: q in s.inFlight;
    assert forall q | q in s'.cachedSeqs :: q in s.cachedSeqs || q in s.inFlight;
  }

  lemma AdmitGrows(st: Ingress, r: Request, k: StreamKey)
    requires StreamsMatchGrants(st.grants, st.streams.Keys) && StreamsOk(st.streams) && k in st.streams
    ensures k in Admit(st, r).0.streams
    ensures Grows(st.streams[k], Admit(st, r).0.streams[k], ExecutedBy(Admitted(Admit(st, r).1), k))
  {
    assert StreamOk(st.streams[k]);
    if r.hasStamp && StampComplete(r) && Authorized(st.grants, r) {
      AuthorizedStreamExists(st, r);
    }
    var s, s' := st.streams[k], Admit(st, r).0.streams[k];
    assert s'.cachedSeqs == s.cachedSeqs;
  }

  lemma GrantGrows(st: Ingress, g: Grant, k: StreamKey)
    requires Inv(st) && k in st.streams && !Switches(st, Granting(g), k)
    ensures k in GrantStream(st, g).0.streams && GrantStream(st, g).0.streams[k] == st.streams[k]
  {
    if GrantStream(st, g).1.Ok? {
      GrantInstallsOneSession(st, g);
    } else {
      GrantIsAtomic(st, g);
    }
  }

  lemma StepGrows(st: Ingress, e: Event, k: StreamKey)
    requires Inv(st) && k in st.streams && !Switches(st, e, k)
    ensures k in Step(st, e).0.streams
    ensures Grows(st.streams[k], Step(st, e).0.streams[k], ExecutedBy(Step(st, e).1, k))
  {
    hide Grows;
    match e
    case Granting(g) => GrantGrows(st, g, k); StillStream(st.streams[k]);
    case Admitting(r) => AdmitGrows(st, r, k);
    case Completing(a, reply, verdict) => CompleteGrows(st, a, reply, verdict, k);
  }

  lemma GrowsOn(s: StreamState, s': StreamState, s'': StreamState, a: seq<uint64>, b: seq<uint64>)
    requires Grows(s, s', a) && Grows(s', s'', b)
    ensures Grows(s, s'', a + b)
  {
  }

  lemma StillStream(s: StreamState)
    ensures Grows(s, s, [])
  {
  }

  /** Between two session switches a stream hands out consecutive sequences, each exactly once, starting
      after those it had consumed before; its counter counts them and expired sequences stay expired. */
  lemma {:induction false} ExecutionsAreConsecutive(st: Ingress, events: seq<Event>, k: StreamKey)
    requires Inv(st) && k in st.streams && NoSwitch(st, events, k)
    ensures k in Run(st, events).streams
    ensures Grows(st.streams[k], Run(st, events).streams[k], Executions(st, events, k))
    decreases |events|
  {
    hide Inv, Grows, Switches, Step, ExecutedBy;
    if events == [] {
      StillStream(st.streams[k]);
    } else {
      var n := |events| - 1;
      var before := events[..n];
      assert NoSwitch(st, before, k) by {
        forall i | 0 <= i < n ensures !Switches(Run(st, before[..i]), before[i], k) {
          assert before[..i] == events[..i];
        }
      }
      ExecutionsAreConsecutive(st, before, k);
      StepGrows(Run(st, before), events[n], k);
      var e := ExecutedBy(Step(Run(st, before), events[n]).1, k);
      GrowsOn(st.streams[k], Run(st, before).streams[k], Run(st, events).streams[k], Executions(st, before, k), e);
    }
  }

  /** Once the reply of a sequence is gone, no later request for it is executed or replayed in that
      session: it is refused and changes nothing. */
  lemma ExpiredForEver(st: Ingress, events: seq<Event>, r: Request)
    requires Inv(st) && RequestKey(r) in st.streams && NoSwitch(st, events, RequestKey(r))
    requires r.sequence in Expired(st.streams[RequestKey(r)])
    ensures var st' := Run(st, events);
            && Admit(st', r).0 == st' && Admit(st', r).1.Err?
            && (r.hasStamp && StampComplete(r) && Authorized(st'.grants, r) ==>
                  Admit(st', r).1 in {Err(ResultExpired), Err(SequenceGap(0))})
  {
    ExecutionsAreConsecutive(st, events, RequestKey(r));
    ExpiredIsRefused(Run(st, events), r);
  }

  lemma ExpiredIsRefused(st: Ingress, r: Request)
    requires StreamsMatchGrants(st.grants, st.streams.Keys) && ListsMatch(st.cached, st.streams)
    requires RequestKey(r) in st.streams && r.sequence in Expired(st.streams[RequestKey(r)])
    ensures Admit(st, r).0 == st && Admit(st, r).1.Err?
    ensures r.hasStamp && StampComplete(r) && Authorized(st.grants, r) ==>
              Admit(st, r).1 in {Err(ResultExpired), Err(SequenceGap(0))}
  {
    var k := CachedKey(RequestKey(r), r.sequence);
    assert k in st.cached <==> ListedByStream(st.streams, k);
  }

  /** A fresh session, over any run in which it is not replaced, executes 1, 2, 3, ... without gap or repeat. */
  lemma FreshSessionExecutesInOrder(st: Ingress, g: Grant, events: seq<Event>)
    requires Inv(st) && g !in st.grants && GrantStream(st, g).1.Ok?
    requires Inv(GrantStream(st, g).0) && NoSwitch(GrantStream(st, g).0, events, KeyOf(g))
    ensures var done := Executions(GrantStream(st, g).0, events, KeyOf(g));
            forall i | 0 <= i < |done| :: done[i] == i + 1
  {
    GrantInstallsOneSession(st, g);
    ExecutionsAreConsecutive(GrantStream(st, g).0, events, KeyOf(g));
  }

  // ---------- The end of the sequence space ----------

  const NOTHING := Reply(true, "", Error("", "", "", []))

  /** The request number q of the producer the grant names. */
  function Nth(g: Grant, q: uint64): Request {
    Request(true, g.actorKey, g.producerId, g.producerEpoch, g.receiverEpoch, g.peerPrincipal, q, "id", "digest")
  }

  /** The session is installed, has consumed n sequences, and has nothing in flight. */
  ghost predicate Quiet(st: Ingress, g: Grant, n: nat) {
    && g in st.grants && KeyOf(g) in st.streams
    && Consumed(st.streams[KeyOf(g)]) == n && st.streams[KeyOf(g)].inFlight == map[]
  }

  lemma OneMoreEvent(st: Ingress, events: seq<Event>, e: Event)
    requires Inv(st)
    ensures Run(st, events + [e]) == Step(Run(st, events), e).0
  {
    assert (events + [e])[..|events + [e]| - 1] == events;
  }

  /** Executing and completing one more request of a quiet session. */
  lemma OneMoreConsumed(st: Ingress, g: Grant, n: nat)
    requires Inv(st) && Quiet(st, g, n) && n < MAX64 && !HasEmptyField(g)
    ensures var q := n + 1; var (mid, out) := Admit(st, Nth(g, q));
      && out == Ok(Execute(KeyOf(g), q)) && Inv(mid) && q in mid.streams[KeyOf(g)].inFlight
      && Quiet(Complete(mid, Execute(KeyOf(g), q), NOTHING, None).0, g, q)
      && CachedKey(KeyOf(g), q) in Complete(mid, Execute(KeyOf(g), q), NOTHING, None).0.cached
  {
    var q, key := n + 1, KeyOf(g);
    LimitsPositive(st);
    NextIsAdmitted(st, g, n);
    hide Inv, Admit, Complete;
    var mid := Admit(st, Nth(g, q)).0;
    CompleteEndsOne(mid, Execute(key, q), NOTHING, None, key);
    CompletedReplyIsKept(mid, Execute(key, q), NOTHING, None);
  }

  lemma NextIsAdmitted(st: Ingress, g: Grant, n: nat)
    requires Inv(st) && Quiet(st, g, n) && n < MAX64 && !HasEmptyField(g)
    ensures var q, key := n + 1, KeyOf(g); var (mid, out) := Admit(st, Nth(g, q));
      && out == Ok(Execute(key, q)) && Inv(mid) && mid.grants == st.grants && mid.config == st.config
      && key in mid.streams && Consumed(mid.streams[key]) == q
      && mid.streams[key].inFlight == map[q := InFlight("id", "digest")]
  {
    var r := Nth(g, n + 1);
    assert Covers(g, r);
    AdmitKeepsInv(st, r);
    ExecuteConsumesTheNextSequence(st, r);
    hide Inv;
  }

  /** Any number of sequences up to 2^64-1 can be consumed. */
  lemma {:induction false} AnyCountIsReached(config: Config, g: Grant, n: nat) returns (events: seq<Event>)
    requires ConfigOk(config) && g.service == config.service && !HasEmptyField(g) && n <= MAX64
    ensures Inv(Initial(config)) && Quiet(Run(Initial(config), events), g, n)
    decreases n
  {
    InitialInv(config);
    if n == 0 {
      events := [Granting(g)];
      OneMoreEvent(Initial(config), [], Granting(g));
      assert [] + [Granting(g)] == events;
      GrantInstallsOneSession(Initial(config), g);
    } else {
      events := AnyCountIsReached(config, g, n - 1);
      events := ThenOneMore(config, g, n - 1, events);
    }
  }

  lemma ThenOneMore(config: Config, g: Grant, n: nat, before: seq<Event>) returns (events: seq<Event>)
    requires ConfigOk(config) && !HasEmptyField(g) && n < MAX64
    requires Inv(Initial(config)) && Quiet(Run(Initial(config), before), g, n)
    ensures events == before + [Admitting(Nth(g, n + 1))] + [Completing(Execute(KeyOf(g), n + 1), NOTHING, None)]
    ensures Quiet(Run(Initial(config), events), g, n + 1)
    ensures CachedKey(KeyOf(g), n + 1) in Run(Initial(config), events).cached
    ensures Step(Run(Initial(config), before), Admitting(Nth(g, n + 1))).1 == Admitted(Ok(Execute(KeyOf(g), n + 1)))
  {
    hide Quiet, Inv, Complete, Admit;
    var e, f := Admitting(Nth(g, n + 1)), Completing(Execute(KeyOf(g), n + 1), NOTHING, None);
    events := before + [e] + [f];
    OneMoreConsumed(Run(Initial(config), before), g, n);
    OneMoreEvent(Initial(config), before, e);
    OneMoreEvent(Initial(config), before + [e], f);
  }

  /** After the very last sequence the counter reads 0: the request that has just been executed, and whose reply is
      in the cache, is answered with SequenceGap(0) when it comes again. */
  lemma LastSequenceIsNotReplayed(config: Config, g: Grant) returns (before: seq<Event>)
    requires ConfigOk(config) && g.service == config.service && !HasEmptyField(g)
    ensures Inv(Initial(config))
    ensures var r := Nth(g, MAX64); var st := Run(Initial(config), before);
      && Step(st, Admitting(r)).1 == Admitted(Ok(Execute(KeyOf(g), MAX64)))
      && var events := before + [Admitting(r)] + [Completing(Execute(KeyOf(g), MAX64), NOTHING, None)];
         CachedKey(KeyOf(g), MAX64) in Run(Initial(config), events).cached
         && Step(Run(Initial(config), events), Admitting(r)).1 == Admitted(Err(SequenceGap(0)))
  {
    before := AnyCountIsReached(config, g, MAX64 - 1);
    var events := ThenOneMore(config, g, MAX64 - 1, before);
    hide Inv, Run;
    var st := Run(Initial(config), events);
    InvStreams(st);
    assert Covers(g, Nth(g, MAX64));
    hide Complete;
    WrappedStreamRefuses(st, g);
  }

  lemma WrappedStreamRefuses(st: Ingress, g: Grant)
    requires StreamsMatchGrants(st.grants, st.streams.Keys) && !HasEmptyField(g)
    requires g in st.grants && KeyOf(g) in st.streams && st.streams[KeyOf(g)].inFlight == map[]
    requires Consumed(st.streams[KeyOf(g)]) == MAX64
    ensures Admit(st, Nth(g, MAX64)).1 == Err(SequenceGap(0))
  {
    assert Covers(g, Nth(g, MAX64));
  }

  // ---------- Why the session switch matters ----------

  /** `Complete` looks a stream up without its receiver epoch.  An admission that is still outstanding when
      its session is replaced completes whatever execution of the same sequence is in flight in the new
      session: the new session's request is then answered with the old session's reply. */
  lemma StaleAdmissionHitsTheNewSession(g: Grant, epoch: string, r: Request, r': Request, reply: Reply, limit: nat)
    requires !HasEmptyField(g) && epoch != "" && epoch != g.receiverEpoch
    requires r.hasStamp && StampComplete(r) && Covers(g, r) && r.sequence == 1
    requires r' == r.(receiverEpoch := epoch, requestId := r'.requestId, digest := r'.digest)
    requires limit > 0 && reply.isOk && |reply.payload| <= limit
    ensures var config := Config(g.service, 1, 1, limit);
            var stale := Execute(KeyOf(g), 1);
            var st0 := GrantStream(Initial(config), g).0;
            Inv(st0) &&
            var st1 := Admit(st0, r).0;
            var st2 := GrantStream(st1, g.(receiverEpoch := epoch)).0;
            Inv(st2) &&
            var st3 := Admit(st2, r').0;
            var st4 := Complete(st3, stale, reply, None).0;
            && Admit(st0, r).1 == Ok(stale) && Admit(st2, r').1 == Ok(stale)
            && Inv(st4) && Admit(st4, r').1 == Ok(Replay(KeyOf(g), 1, reply))
  {
    hide Inv;
    var config := Config(g.service, 1, 1, limit);
    var key := KeyOf(g);
    var g' := g.(receiverEpoch := epoch);
    var st := Initial(config);
    InitialInv(config);
    GrantKeepsInv(st, g);
    var st0 := GrantStream(st, g).0;
    assert st0 == st.(grants := [g], streams := map[key := Fresh()]);
    assert Covers(st0.grants[0], r);
    InvStreams(st0);
    AdmitKeepsInv(st0, r);
    var st1 := Admit(st0, r).0;
    assert st1 == st0.(streams := map[key := StreamState(2, map[1 := InFlight(r.requestId, r.digest)], {})]);
    GrantKeepsInv(st1, g');
    var st2 := GrantStream(st1, g').0;
    SwitchedState(st1, g, g');
    assert Covers(st2.grants[0], r');
    InvStreams(st2);
    AdmitKeepsInv(st2, r');
    var st3 := Admit(st2, r').0;
    assert st3.streams[key].inFlight[1] == InFlight(r'.requestId, r'.digest);
    CompleteKeepsInv(st3, Execute(key, 1), reply, None);
    CompletedReplyIsKept(st3, Execute(key, 1), reply, None);
    StaleReplay(st3, r', reply);
  }

  lemma InitialInv(config: Config)
    requires ConfigOk(config)
    ensures Inv(Initial(config))
  {
  }

  lemma InvStreams(st: Ingress)
    requires Inv(st)
    ensures StreamsMatchGrants(st.grants, st.streams.Keys)
  {
  }

  lemma SwitchedState(st: Ingress, g: Grant, g': Grant)
    requires st.grants == [g] && st.cached == map[] && st.order == [] && KeyOf(g') == KeyOf(g)
      && g'.receiverEpoch != g.receiverEpoch
    requires st.streams.Keys == {KeyOf(g)} && st.config.maxStreams == 1 && g'.service == st.config.service
      && !HasEmptyField(g')
    ensures GrantStream(st, g').0.grants == [g'] && GrantStream(st, g').0.streams == map[KeyOf(g) := Fresh()]
    ensures GrantStream(st, g').0.config == st.config
  {
    assert WithoutStream([g], KeyOf(g)) == [] by {
      assert [g][1..] == [];
    }
    assert Revoke(st, KeyOf(g)).grants == [] && Revoke(st, KeyOf(g)).streams == map[];
  }

  lemma StaleReplay(st: Ingress, r: Request, reply: Reply)
    requires Inv(st) && RequestKey(r) in st.streams && st.streams[RequestKey(r)].nextSequence == 2 && r.sequence == 1
    requires r.hasStamp && StampComplete(r) && Authorized(st.grants, r) && reply.isOk
      && |reply.payload| <= st.config.maxBytes
    requires 1 in st.streams[RequestKey(r)].inFlight
    requires st.streams[RequestKey(r)].inFlight[1] == InFlight(r.requestId, r.digest)
    ensures var st' := Complete(st, Execute(RequestKey(r), 1), reply, None).0;
            Inv(st') && Admit(st', r).1 == Ok(Replay(RequestKey(r), 1, reply))
  {
    var a := Execute(RequestKey(r), 1);
    CompleteKeepsInv(st, a, reply, None);
    CompletedReplyIsKept(st, a, reply, None);
    LandedReply(st, a, reply, None);
    hide Inv;
  }
}
