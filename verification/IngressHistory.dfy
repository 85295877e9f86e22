// The bounded receiver against one that remembers every terminal reply for ever, over whole runs.

module IngressHistory {
  import opened Wrappers
  import opened UInt64
  import opened OrderedTypes
  import opened IngressModel
  import opened IngressProofs

  // ---------- The receiver with an unbounded memory ----------

  /** One consumed sequence: which request took it, and its reply once there is one. */
  datatype Entry = Entry(requestId: string, digest: string, reply: Option<Reply>)

  /** Per stream, entry q-1 is about sequence q. */
  datatype Ideal = Ideal(grants: seq<Grant>, logs: map<StreamKey, seq<Entry>>)

  function IdealGrant(config: Config, id: Ideal, g: Grant): (Ideal, Result<(), GrantError>) {
    var others := WithoutStream(id.grants, KeyOf(g));
    if g.service != config.service || HasEmptyField(g) then (id, Err(InvalidGrant))
    else if g in id.grants then (id, Ok(()))
    else if exists h :: h in id.grants && SameStreamId(h, g) then (id, Err(ConflictingGrant))
    else if |others| >= config.maxStreams then (id, Err(Overloaded))
    else (Ideal(others + [g], id.logs[KeyOf(g) := []]), Ok(()))
  }

  function IdealAdmit(id: Ideal, r: Request): (Ideal, Result<Admission, Refusal>) {
    var key := RequestKey(r);
    if !r.hasStamp then (id, Err(StampRequired))
    else if !StampComplete(r) || !Authorized(id.grants, r) || key !in id.logs then (id, Err(StreamRejected))
    else
      var log := id.logs[key];
      if r.sequence == 0 || r.sequence > |log| + 1 then (id, Err(SequenceGap(|log| + 1)))
      else if r.sequence == |log| + 1 then
        (id.(logs := id.logs[key := log + [Entry(r.requestId, r.digest, None)]]), Ok(Execute(key, r.sequence)))
      else
        var e := log[r.sequence - 1];
        if e.requestId != r.requestId || e.digest != r.digest then (id, Err(SequenceConflict))
        else if e.reply.None? then (id, Err(InProgress))
        else (id, Ok(Replay(key, r.sequence, e.reply.value)))
  }

  function IdealComplete(id: Ideal, a: Admission, reply: Reply, verdict: Option<Error>)
    : (Ideal, Result<(), CompleteError>)
  {
    if !a.Execute? then (id, Err(NotAnExecution))
    else if a.stream !in id.logs then (id, Err(NoSuchStream))
    else
      var log := id.logs[a.stream];
      if !(1 <= a.sequence <= |log|) || log[a.sequence - 1].reply.Some? then (id, Err(NotInFlight))
      else
        var e := log[a.sequence - 1].(reply := Some(Normalise(reply, verdict)));
        (id.(logs := id.logs[a.stream := log[a.sequence - 1 := e]]), Ok(()))
  }

  // ---------- The refinement relation ----------

  ghost predicate EntryMatches(m: map<CachedKey, CachedResult>, k: StreamKey, s: StreamState, log: seq<Entry>, q: nat)
    requires 1 <= q <= |log|
  {
    var e := log[q - 1];
    && (if e.reply.None? then q in s.inFlight && s.inFlight[q] == InFlight(e.requestId, e.digest) else q !in s.inFlight)
    && (q < TWO64 && CachedKey(k, q) in m ==>
          var c := m[CachedKey(k, q)];
          e.reply == Some(c.reply) && e.requestId == c.requestId && e.digest == c.digest)
  }

  ghost predicate LogMatches(m: map<CachedKey, CachedResult>, k: StreamKey, s: StreamState, log: seq<Entry>) {
    |log| == Consumed(s) && forall q | 1 <= q <= |log| :: EntryMatches(m, k, s, log, q)
  }

  ghost predicate LogsMatch(m: map<CachedKey, CachedResult>, streams: map<StreamKey, StreamState>,
      logs: map<StreamKey, seq<Entry>>)
  {
    && (forall k :: k in streams <==> k in logs)
    && (forall k | k in streams :: LogMatches(m, k, streams[k], logs[k]))
  }

  ghost predicate Refines(st: Ingress, id: Ideal) {
    Inv(st) && id.grants == st.grants && LogsMatch(st.cached, st.streams, id.logs)
  }

  /** The requests the bounded receiver cannot answer as the ideal one does: the reply was evicted, or
      the stream has consumed sequence 2^64-1 and its counter reads 0. */
  ghost predicate BeyondMemory(st: Ingress, r: Request) {
    && r.hasStamp && StampComplete(r) && Authorized(st.grants, r)
    && RequestKey(r) in st.streams
    && var s := st.streams[RequestKey(r)];
       s.nextSequence == 0 || r.sequence in Expired(s)
  }

  // ---------- Simulation of each operation ----------

  lemma AdmitRefines(st: Ingress, id: Ideal, r: Request)
    requires Refines(st, id)
    ensures Refines(Admit(st, r).0, IdealAdmit(id, r).0)
    ensures Admit(st, r).1 == IdealAdmit(id, r).1 <==> !BeyondMemory(st, r)
    ensures BeyondMemory(st, r) ==>
      Admit(st, r).1 == Err(if st.streams[RequestKey(r)].nextSequence == 0 then SequenceGap(0) else ResultExpired)
  {
    AdmitKeepsInv(st, r);
    AdmitLogs(st, id, r);
  }

  lemma AdmitLogs(st: Ingress, id: Ideal, r: Request)
    requires id.grants == st.grants && StreamsMatchGrants(st.grants, st.streams.Keys)
    requires StreamsOk(st.streams) && ListsMatch(st.cached, st.streams) && LogsMatch(st.cached, st.streams, id.logs)
    ensures IdealAdmit(id, r).0.grants == id.grants && Admit(st, r).0.grants == st.grants
    ensures LogsMatch(Admit(st, r).0.cached, Admit(st, r).0.streams, IdealAdmit(id, r).0.logs)
    ensures Admit(st, r).1 == IdealAdmit(id, r).1 <==> !BeyondMemory(st, r)
    ensures BeyondMemory(st, r) ==>
      Admit(st, r).1 == Err(if st.streams[RequestKey(r)].nextSequence == 0 then SequenceGap(0) else ResultExpired)
  {
    if r.hasStamp && StampComplete(r) && Authorized(st.grants, r) {
      AuthorizedStreamExists(st, r);
      var key := RequestKey(r);
      var k := CachedKey(key, r.sequence);
      assert k in st.cached <==> ListedByStream(st.streams, k);
      assert LogMatches(st.cached, key, st.streams[key], id.logs[key]);
      assert StreamOk(st.streams[key]);
      hide LogsMatch, LogMatches, ListsMatch, StreamsOk, StreamsMatchGrants;
      AnswersAgree(st, id, r);
      if r.sequence == st.streams[key].nextSequence && r.sequence != 0 {
        ExecutionRefines(st, id, r);
      }
    }
  }

  lemma AnswersAgree(st: Ingress, id: Ideal, r: Request)
    requires r.hasStamp && StampComplete(r) && Authorized(st.grants, r) && id.grants == st.grants
    requires RequestKey(r) in st.streams && RequestKey(r) in id.logs
    requires LogMatches(st.cached, RequestKey(r), st.streams[RequestKey(r)], id.logs[RequestKey(r)])
    requires StreamOk(st.streams[RequestKey(r)])
    requires CachedKey(RequestKey(r), r.sequence) in st.cached <==> r.sequence in st.streams[RequestKey(r)].cachedSeqs
    ensures AdmitToStream(st, r).1 == IdealAdmit(id, r).1 <==> !BeyondMemory(st, r)
    ensures BeyondMemory(st, r) ==>
      AdmitToStream(st, r).1 == Err(if st.streams[RequestKey(r)].nextSequence == 0 then SequenceGap(0)
        else ResultExpired)
    ensures AdmitToStream(st, r).0 != st || IdealAdmit(id, r).0 != id ==>
      r.sequence == st.streams[RequestKey(r)].nextSequence != 0
  {
    var key := RequestKey(r);
    var s, log := st.streams[key], id.logs[key];
    if 1 <= r.sequence <= |log| {
      assert EntryMatches(st.cached, key, s, log, r.sequence);
    }
  }

  lemma ExecutionRefines(st: Ingress, id: Ideal, r: Request)
    requires r.hasStamp && StampComplete(r) && Authorized(st.grants, r) && id.grants == st.grants
    requires RequestKey(r) in st.streams && r.sequence == st.streams[RequestKey(r)].nextSequence != 0
    requires LogsMatch(st.cached, st.streams, id.logs)
    requires StreamOk(st.streams[RequestKey(r)])
    requires CachedKey(RequestKey(r), r.sequence) in st.cached <==> r.sequence in st.streams[RequestKey(r)].cachedSeqs
    ensures LogsMatch(AdmitToStream(st, r).0.cached, AdmitToStream(st, r).0.streams, IdealAdmit(id, r).0.logs)
    ensures IdealAdmit(id, r).0.grants == id.grants
  {
    var key := RequestKey(r);
    var s, log := st.streams[key], id.logs[key];
    assert LogMatches(st.cached, key, s, log);
    var s', log' := AdmitToStream(st, r).0.streams[key], IdealAdmit(id, r).0.logs[key];
    forall q | 1 <= q <= |log'| ensures EntryMatches(st.cached, key, s', log', q) {
      if q <= |log| {
        assert EntryMatches(st.cached, key, s, log, q);
      }
    }
    LogReplaced(st.cached, st.streams, id.logs, key, s', log');
  }

  lemma LogReplaced(m: map<CachedKey, CachedResult>, streams: map<StreamKey, StreamState>,
      logs: map<StreamKey, seq<Entry>>, key: StreamKey, s: StreamState, log: seq<Entry>)
    requires forall k :: k in streams <==> k in logs
    requires forall k | k in streams && k != key :: LogMatches(m, k, streams[k], logs[k])
    requires LogMatches(m, key, s, log)
    ensures LogsMatch(m, streams[key := s], logs[key := log])
  {
    hide LogMatches;
  }

  /** Forgetting replies never contradicts the history. */
  lemma ForgetRefines(st: Ingress, drop: set<CachedKey>, logs: map<StreamKey, seq<Entry>>)
    requires LogsMatch(st.cached, st.streams, logs)
    ensures LogsMatch(Forget(st, drop).cached, Forget(st, drop).streams, logs)
  {
    var st' := Forget(st, drop);
    forall k | k in st'.streams ensures LogMatches(st'.cached, k, st'.streams[k], logs[k]) {
      assert LogMatches(st.cached, k, st.streams[k], logs[k]);
      forall q | 1 <= q <= |logs[k]| ensures EntryMatches(st'.cached, k, st'.streams[k], logs[k], q) {
        assert EntryMatches(st.cached, k, st.streams[k], logs[k], q);
      }
    }
  }

  lemma GrantRefines(st: Ingress, id: Ideal, g: Grant)
    requires Refines(st, id)
    ensures Refines(GrantStream(st, g).0, IdealGrant(st.config, id, g).0)
    ensures GrantStream(st, g).1 == IdealGrant(st.config, id, g).1
  {
    GrantKeepsInv(st, g);
    GrantLogs(st, id, g);
  }

  lemma GrantLogs(st: Ingress, id: Ideal, g: Grant)
    requires id.grants == st.grants && StreamsMatchGrants(st.grants, st.streams.Keys)
    requires LogsMatch(st.cached, st.streams, id.logs)
    ensures GrantStream(st, g).1 == IdealGrant(st.config, id, g).1
    ensures IdealGrant(st.config, id, g).0.grants == GrantStream(st, g).0.grants
    ensures LogsMatch(GrantStream(st, g).0.cached, GrantStream(st, g).0.streams, IdealGrant(st.config, id, g).0.logs)
  {
    hide LogsMatch, SameStreamId, HasEmptyField, KeyOf;
    if KeyOf(g) in st.streams {
      RevokedLogs(st, KeyOf(g), id.logs);
    } else {
      NoneToRemove(st.grants, KeyOf(g));
      InstalledLogs(st, g, id.logs);
    }
  }

  lemma RevokedLogs(st: Ingress, key: StreamKey, logs: map<StreamKey, seq<Entry>>)
    requires LogsMatch(st.cached, st.streams, logs)
    ensures forall g | KeyOf(g) == key ::
      LogsMatch(Install(Revoke(st, key), g).cached, Install(Revoke(st, key), g).streams, logs[key := []])
  {
    var kept := Forget(st, CachedOf(st, key));
    ForgetRefines(st, CachedOf(st, key), logs);
    assert LogMatches(kept.cached, key, Fresh(), []);
    hide LogMatches;
    LogReplaced(kept.cached, kept.streams, logs, key, Fresh(), []);
    assert (kept.streams - {key})[key := Fresh()] == kept.streams[key := Fresh()];
  }

  lemma InstalledLogs(st: Ingress, g: Grant, logs: map<StreamKey, seq<Entry>>)
    requires LogsMatch(st.cached, st.streams, logs)
    ensures LogsMatch(Install(st, g).cached, Install(st, g).streams, logs[KeyOf(g) := []])
  {
    assert LogMatches(st.cached, KeyOf(g), Fresh(), []);
    LogReplaced(st.cached, st.streams, logs, KeyOf(g), Fresh(), []);
  }

  lemma NoneToRemove(grants: seq<Grant>, key: StreamKey)
    requires forall h | h in grants :: KeyOf(h) != key
    ensures WithoutStream(grants, key) == grants
  {
    if grants != [] {
      NoneToRemove(grants[1..], key);
    }
  }

  lemma CompleteRefines(st: Ingress, id: Ideal, a: Admission, reply: Reply, verdict: Option<Error>)
    requires Refines(st, id)
    ensures Refines(Complete(st, a, reply, verdict).0, IdealComplete(id, a, reply, verdict).0)
    ensures Complete(st, a, reply, verdict).1 == IdealComplete(id, a, reply, verdict).1
  {
    CompleteKeepsInv(st, a, reply, verdict);
    if a.Execute? && a.stream in st.streams && a.sequence in st.streams[a.stream].inFlight {
      NotCachedYet(st, a);
    }
    CompleteLogs(st, id, a, reply, verdict);
  }

  lemma CompleteLogs(st: Ingress, id: Ideal, a: Admission, reply: Reply, verdict: Option<Error>)
    requires StreamsOk(st.streams) && LogsMatch(st.cached, st.streams, id.logs)
    requires a.Execute? && a.stream in st.streams && a.sequence in st.streams[a.stream].inFlight ==>
      CachedKey(a.stream, a.sequence) !in st.cached
    ensures Complete(st, a, reply, verdict).1 == IdealComplete(id, a, reply, verdict).1
    ensures IdealComplete(id, a, reply, verdict).0.grants == id.grants
      && Complete(st, a, reply, verdict).0.grants == st.grants
    ensures LogsMatch(Complete(st, a, reply, verdict).0.cached, Complete(st, a, reply, verdict).0.streams,
                      IdealComplete(id, a, reply, verdict).0.logs)
  {
    if !a.Execute? || a.stream !in st.streams {
      return;
    }
    SameInFlight(st, id.logs, a);
    if a.sequence in st.streams[a.stream].inFlight {
      LandingLogs(st, id.logs, a, Normalise(reply, verdict));
      KeptRefines(st, IdealComplete(id, a, reply, verdict).0.logs, a, reply, verdict);
    }
  }

  lemma SameInFlight(st: Ingress, logs: map<StreamKey, seq<Entry>>, a: Admission)
    requires StreamsOk(st.streams) && LogsMatch(st.cached, st.streams, logs) && a.stream in st.streams
    ensures var log := logs[a.stream];
            a.sequence in st.streams[a.stream].inFlight <==> 1 <= a.sequence <= |log| && log[a.sequence - 1].reply.None?
  {
    var s, log := st.streams[a.stream], logs[a.stream];
    assert LogMatches(st.cached, a.stream, s, log);
    assert StreamOk(s);
    if 1 <= a.sequence <= |log| {
      assert EntryMatches(st.cached, a.stream, s, log, a.sequence);
    }
  }

  lemma KeptRefines(st: Ingress, logs: map<StreamKey, seq<Entry>>, a: Admission, reply: Reply, verdict: Option<Error>)
    requires a.Execute? && a.stream in st.streams && a.sequence in st.streams[a.stream].inFlight
    requires LogsMatch(Land(st, a).cached, Land(st, a).streams, logs) && a.stream in logs
    requires 1 <= a.sequence <= |logs[a.stream]|
    requires var i := st.streams[a.stream].inFlight[a.sequence];
             logs[a.stream][a.sequence - 1] == Entry(i.requestId, i.digest, Some(Normalise(reply, verdict)))
    ensures LogsMatch(Complete(st, a, reply, verdict).0.cached, Complete(st, a, reply, verdict).0.streams, logs)
  {
    hide LogsMatch;
    var kept := Normalise(reply, verdict);
    if ReplySize(kept) <= st.config.maxBytes {
      var e := st.streams[a.stream].inFlight[a.sequence];
      var k := CachedKey(a.stream, a.sequence);
      var c := CachedResult(e.requestId, e.digest, kept, ReplySize(kept));
      var full := Insert(Land(st, a), k, c);
      InsertRefines(Land(st, a), logs, k, c);
      ForgetRefines(full, Oldest(full, EvictFrom(full, 0)), logs);
    }
  }

  lemma LandingLogs(st: Ingress, logs: map<StreamKey, seq<Entry>>, a: Admission, kept: Reply)
    requires StreamsOk(st.streams) && LogsMatch(st.cached, st.streams, logs)
    requires a.stream in st.streams && a.sequence in st.streams[a.stream].inFlight
    requires CachedKey(a.stream, a.sequence) !in st.cached
    ensures var i := st.streams[a.stream].inFlight[a.sequence];
            var log := logs[a.stream];
            && 1 <= a.sequence <= |log| && log[a.sequence - 1] == Entry(i.requestId, i.digest, None)
            && LogsMatch(Land(st, a).cached, Land(st, a).streams,
                         logs[a.stream := log[a.sequence - 1 := log[a.sequence - 1].(reply := Some(kept))]])
  {
    SameInFlight(st, logs, a);
    var s, log := st.streams[a.stream], logs[a.stream];
    assert LogMatches(st.cached, a.stream, s, log);
    assert EntryMatches(st.cached, a.stream, s, log, a.sequence);
    var s' := s.(inFlight := s.inFlight - {a.sequence});
    var log' := log[a.sequence - 1 := log[a.sequence - 1].(reply := Some(kept))];
    forall q | 1 <= q <= |log'| ensures EntryMatches(st.cached, a.stream, s', log', q) {
      assert EntryMatches(st.cached, a.stream, s, log, q);
    }
    LogReplaced(st.cached, st.streams, logs, a.stream, s', log');
  }

  lemma NotCachedYet(st: Ingress, a: Admission)
    requires Inv(st) && a.stream in st.streams && a.sequence in st.streams[a.stream].inFlight
    ensures CachedKey(a.stream, a.sequence) !in st.cached
  {
    var k := CachedKey(a.stream, a.sequence);
    assert StreamOk(st.streams[a.stream]);
    assert k in st.cached <==> ListedByStream(st.streams, k);
  }

  lemma InsertRefines(st: Ingress, logs: map<StreamKey, seq<Entry>>, k: CachedKey, c: CachedResult)
    requires LogsMatch(st.cached, st.streams, logs) && k.stream in st.streams
    requires 1 <= k.sequence <= |logs[k.stream]|
    requires var e := logs[k.stream][k.sequence - 1];
             e.reply == Some(c.reply) && e.requestId == c.requestId && e.digest == c.digest
    ensures LogsMatch(Insert(st, k, c).cached, Insert(st, k, c).streams, logs)
  {
    var st' := Insert(st, k, c);
    forall j | j in st'.streams ensures LogMatches(st'.cached, j, st'.streams[j], logs[j]) {
      assert LogMatches(st.cached, j, st.streams[j], logs[j]);
      forall q | 1 <= q <= |logs[j]| ensures EntryMatches(st'.cached, j, st'.streams[j], logs[j], q) {
        assert EntryMatches(st.cached, j, st.streams[j], logs[j], q);
      }
    }
  }

  // ---------- Runs ----------

  datatype Event =
    | Granting(grant: Grant)
    | Admitting(request: Request)
    | Completing(admission: Admission, reply: Reply, verdict: Option<Error>)

  datatype Answer =
    | Granted(grant: Result<(), GrantError>)
    | Admitted(decision: Result<Admission, Refusal>)
    | Completed(completion: Result<(), CompleteError>)

  ghost function Step(st: Ingress, e: Event): (Ingress, Answer)
    requires Inv(st)
  {
    match e
    case Granting(g) => var (st', r) := GrantStream(st, g); (st', Granted(r))
    case Admitting(r) => var (st', d) := Admit(st, r); (st', Admitted(d))
    case Completing(a, reply, verdict) => var (st', c) := Complete(st, a, reply, verdict); (st', Completed(c))
  }

  ghost function IdealStep(config: Config, id: Ideal, e: Event): (Ideal, Answer) {
    match e
    case Granting(g) => var (id', r) := IdealGrant(config, id, g); (id', Granted(r))
    case Admitting(r) => var (id', d) := IdealAdmit(id, r); (id', Admitted(d))
    case Completing(a, reply, verdict) => var (id', c) := IdealComplete(id, a, reply, verdict); (id', Completed(c))
  }

  lemma StepKeepsInv(st: Ingress, e: Event)
    requires Inv(st)
    ensures Inv(Step(st, e).0)
  {
    hide Inv;
    match e
    case Granting(g) => GrantKeepsInv(st, g);
    case Admitting(r) => AdmitKeepsInv(st, r);
    case Completing(a, reply, verdict) => CompleteKeepsInv(st, a, reply, verdict);
  }

  lemma StepKeepsConfig(st: Ingress, e: Event)
    requires Inv(st)
    ensures Step(st, e).0.config == st.config
  {
  }

  ghost function Run(st: Ingress, events: seq<Event>): (st': Ingress)
    requires Inv(st)
    ensures Inv(st') && st'.config == st.config
    decreases |events|
  {
    if events == [] then st
    else
      var mid := Run(st, events[..|events| - 1]);
      StepKeepsInv(mid, events[|events| - 1]);
      StepKeepsConfig(mid, events[|events| - 1]);
      Step(mid, events[|events| - 1]).0
  }

  ghost function IdealRun(config: Config, id: Ideal, events: seq<Event>): Ideal
    decreases |events|
  {
    if events == [] then id
    else IdealStep(config, IdealRun(config, id, events[..|events| - 1]), events[|events| - 1]).0
  }

  lemma StepRefines(st: Ingress, id: Ideal, e: Event)
    requires Refines(st, id)
    ensures Refines(Step(st, e).0, IdealStep(st.config, id, e).0)
    ensures Step(st, e).1 == IdealStep(st.config, id, e).1 <==> !(e.Admitting? && BeyondMemory(st, e.request))
  {
    hide Refines, BeyondMemory;
    match e
    case Granting(g) => GrantRefines(st, id, g);
    case Admitting(r) => AdmitRefines(st, id, r);
    case Completing(a, reply, verdict) => CompleteRefines(st, id, a, reply, verdict);
  }

  /** After any run the two receivers agree on every sequence, and on their next answer exactly when the
      request is not about a forgotten reply; then the bounded one says so, and never executes. */
  lemma {:induction false} BoundedRefinesUnbounded(config: Config, events: seq<Event>, next: Event)
    requires ConfigOk(config)
    ensures Inv(Initial(config))
    ensures var st, id := Run(Initial(config), events), IdealRun(config, Ideal([], map[]), events);
            && Refines(st, id)
            && (Step(st, next).1 == IdealStep(config, id, next).1
              <==> !(next.Admitting? && BeyondMemory(st, next.request)))
            && (next.Admitting? && BeyondMemory(st, next.request) ==>
                  Step(st, next) == (st, Admitted(Err(if st.streams[RequestKey(next.request)].nextSequence == 0
                                                      then SequenceGap(0) else ResultExpired))))
    decreases |events|
  {
    if events != [] {
      BoundedRefinesUnbounded(config, events[..|events| - 1], events[|events| - 1]);
      StepRefines(Run(Initial(config), events[..|events| - 1]),
        IdealRun(config, Ideal([], map[]), events[..|events| - 1]), events[|events| - 1]);
    }
    var st, id := Run(Initial(config), events), IdealRun(config, Ideal([], map[]), events);
    StepRefines(st, id, next);
    if next.Admitting? {
      AdmitRefines(st, id, next.request);
      ExecuteConsumesTheNextSequence(st, next.request);
    }
  }
}
