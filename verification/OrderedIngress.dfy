// The ordered ingress object (OrderedIngress.cc).  Each public method holds the object's mutex for its
// whole body, so a method call is one atomic step; each is proved to implement the function of the same
// name in IngressModel.

module OrderedIngressObject {
  import opened Wrappers
  import opened UInt64
  import opened OrderedTypes
  import opened IngressModel
  import opened IngressProofs
  import opened IngressAnswers

  method ReplyBytes(reply: Reply) returns (n: nat)
    ensures n == ReplySize(reply)
    ensures reply.isOk ==> n == |reply.payload|
    ensures !reply.isOk ==>
      n == |reply.payload| + |reply.error.domain| + |reply.error.domainCode| + |reply.error.message|
        + |DetailText(reply.error.details)|
  {
    DetailBytesIsLength(reply.error.details);
    n := |reply.payload|;
    if reply.isOk {
      return;
    }
    n := n + |reply.error.domain| + |reply.error.domainCode| + |reply.error.message|;
    var details := reply.error.details;
    var i := 0;
    ghost var start := n;
    while i < |details|
      invariant i <= |details|
      invariant n == start + DetailBytes(details[..i])
    {
      assert details[..i + 1][..i] == details[..i];
      n := n + |details[i].0| + |details[i].1|;
      i := i + 1;
    }
    assert details[..i] == details;
  }

  class OrderedIngress {
    const config: Config
    var grants: seq<Grant>
    var streams: map<StreamKey, StreamState>
    var cached: map<CachedKey, CachedResult>
    var cachedOrder: seq<CachedKey>
    var cachedBytes: nat

    ghost function State(): Ingress
      reads this
    {
      Ingress(config, grants, streams, cached, cachedOrder, cachedBytes)
    }

    ghost predicate Valid()
      reads this
    {
      Inv(State())
    }

    constructor (config: Config)
      requires ConfigOk(config)
      ensures Valid() && State() == Initial(config)
    {
      this.config := config;
      grants, streams, cached, cachedOrder, cachedBytes := [], map[], map[], [], 0;
    }

    /** The factory: a configuration with an empty service name or a zero limit is refused. */
    static method Create(config: Config) returns (r: Result<OrderedIngress, ()>)
      ensures r.Ok? <==> ConfigOk(config)
      ensures r.Ok? ==> fresh(r.value) && r.value.Valid() && r.value.State() == Initial(config)
    {
      if config.service == "" || config.maxStreams == 0 || config.maxCached == 0 || config.maxBytes == 0 {
        return Err(());
      }
      var ingress := new OrderedIngress(config);
      return Ok(ingress);
    }

    // ---------- Cache maintenance ----------

    /** The key is taken by value: in the source the eviction loop passes a reference into the very list
        this method erases from. */
    method RemoveCached(key: CachedKey)
      requires Books(State())
      modifies `cached, `cachedOrder, `cachedBytes, `streams
      ensures State() == if key in old(cached) then Forget(old(State()), {key}) else old(State())
      ensures Books(State())
    {
      hide Books, Total, Filter;
      if key !in cached {
        return;
      }
      RemovedState(State(), key);
      cachedBytes := cachedBytes - cached[key].bytes;
      cached := cached - {key};
      var i := 0;
      while i < |cachedOrder| && cachedOrder[i] != key
        invariant i <= |cachedOrder| && key !in cachedOrder[..i]
      {
        i := i + 1;
      }
      if i < |cachedOrder| {
        cachedOrder := cachedOrder[..i] + cachedOrder[i + 1..];
      }
      if key.stream in streams {
        var s := streams[key.stream];
        streams := streams[key.stream := s.(cachedSeqs := s.cachedSeqs - {key.sequence})];
      }
    }

    method DropStreamCache(key: StreamKey)
      requires Books(State())
      modifies `cached, `cachedOrder, `cachedBytes, `streams
      ensures State() == Forget(old(State()), CachedOf(old(State()), key))
      ensures Books(State())
    {
      hide Books, CachedOf, Forget;
      ghost var before := State();
      CachedOfStream(before, key);
      ForgettingNothing(before);
      if key !in streams {
        return;
      }
      var seqs := streams[key].cachedSeqs;
      ghost var dropped: set<CachedKey> := {};
      while seqs != {}
        invariant Books(State())
        invariant State() == Forget(before, dropped)
        invariant forall k | k in dropped :: k.stream == key && k.sequence !in seqs
        invariant CachedOf(before, key) == dropped + set q | q in seqs :: CachedKey(key, q)
        decreases seqs
      {
        var q :| q in seqs;
        seqs := seqs - {q};
        var k := CachedKey(key, q);
        assert k in CachedOf(before, key) && k !in dropped;
        StillCached(before, dropped, k);
        RemoveCached(k);
        ForgetTwice(before, dropped, {k});
        dropped := dropped + {k};
      }
      assert CachedOf(before, key) == dropped;
    }

    method EvictToLimits()
      requires Books(State())
      modifies `cached, `cachedOrder, `cachedBytes, `streams
      ensures State() == Evict(old(State()))
      ensures Valid()
    {
      hide Books, Forget, Total;
      ghost var before := State();
      ghost var n := 0;
      ForgettingNothing(before);
      EvictKeepsBooks(before);
      OrderedCount(before);
      assert Oldest(before, 0) == {};
      while cachedOrder != [] && (|cached| > config.maxCached || cachedBytes > config.maxBytes)
        invariant Books(State())
        invariant config == before.config && n <= |before.order| && cachedOrder == before.order[n..]
        invariant cachedBytes == Total(before.cached, before.order[n..])
        invariant State() == Forget(before, Oldest(before, n))
        invariant |cached| == |cachedOrder|
        invariant EvictFrom(before, n) == EvictFrom(before, 0)
        decreases |cachedOrder|
      {
        var k := cachedOrder[0];
        OldestIsCached(State());
        RemoveCached(k);
        EvictedOneMore(before, n);
        n := n + 1;
        OrderedCount(State());
      }
    }

    // ---------- Public operations ----------

    method GrantStream(grant: Grant) returns (r: Result<(), GrantError>)
      requires Valid()
      modifies this
      ensures Valid()
      ensures State() == IngressModel.GrantStream(old(State()), grant).0
      ensures r == IngressModel.GrantStream(old(State()), grant).1
    {
      ghost var before := State();
      if grant.service != config.service || HasEmptyField(grant) {
        return Err(InvalidGrant);
      }
      var i := InstalledSession(grant);
      if i < |grants| {
        return if grants[i] == grant then Ok(()) else Err(ConflictingGrant);
      }
      RevokeOtherSessions(grant);
      GrantKeepsInv(before, grant);
      if |grants| >= config.maxStreams {
        GrantIsAtomic(before, grant);
        return Err(Overloaded);
      }
      grants := grants + [grant];
      streams := streams[KeyOf(grant) := Fresh()];
      return Ok(());
    }

    /** The scan for a grant of the same session, |grants| when there is none. */
    method InstalledSession(grant: Grant) returns (i: nat)
      requires Valid()
      ensures i <= |grants|
      ensures i < |grants| ==> SameStreamId(grants[i], grant) && (grants[i] != grant ==> grant !in grants)
      ensures i == |grants| ==> grant !in grants && forall h | h in grants :: !SameStreamId(h, grant)
    {
      BooksOfGrants(State());
      hide Books, Inv;
      i := 0;
      while i < |grants| && !SameStreamId(grants[i], grant)
        invariant i <= |grants|
        invariant forall j | 0 <= j < i :: !SameStreamId(grants[j], grant)
      {
        i := i + 1;
      }
      if i < |grants| && grants[i] != grant {
        OnlyOneOfStream(grants, i, grant);
      }
    }

    /** The session-switch loop: every grant of the same producer stream goes, with its cached replies
        and its sequence state. */
    method RevokeOtherSessions(grant: Grant)
      requires Valid() && forall h | h in grants :: !SameStreamId(h, grant)
      requires grant.service == config.service
      modifies this
      ensures State() == if KeyOf(grant) in old(streams) then Revoke(old(State()), KeyOf(grant)) else old(State())
    {
      hide Books, Forget, CachedOf, WithoutStream;
      ghost var before := State();
      ghost var revoked := false;
      var key := KeyOf(grant);
      BooksOfGrants(before);
      var i := 0;
      while i < |grants|
        invariant i <= |grants|
        invariant forall j | 0 <= j < i :: KeyOf(grants[j]) != key
        invariant if revoked then State() == Revoke(before, key) else State() == before
        invariant revoked ==> key in before.streams && forall j | 0 <= j < |grants| :: KeyOf(grants[j]) != key
        decreases |grants| - i
      {
        if KeyOf(grants[i]) == key && grants[i].receiverEpoch != grant.receiverEpoch {
          WithoutTheOne(grants, i, key);
          DropStreamCache(key);
          streams := streams - {key};
          grants := grants[..i] + grants[i + 1..];
          revoked := true;
        } else {
          assert !revoked ==> grants[i] in before.grants;
          i := i + 1;
        }
      }
      assert !revoked ==> forall h | h in before.grants :: KeyOf(h) != key;
    }

    /** The authorisation scan stops at the first grant of the producer's stream. */
    method IsAuthorized(r: Request) returns (ok: bool)
      requires Valid()
      ensures ok == Authorized(grants, r)
      ensures ok <==> !Stranger(grants, r)
    {
      var i := 0;
      while i < |grants|
        invariant i <= |grants|
        invariant forall j | 0 <= j < i :: KeyOf(grants[j]) != RequestKey(r)
      {
        var g := grants[i];
        if KeyOf(g) == RequestKey(r) {
          assert forall j | 0 <= j < |grants| && j != i :: KeyOf(grants[j]) != RequestKey(r);
          return g.receiverEpoch == r.receiverEpoch && g.peerPrincipal == r.peerPrincipal;
        }
        i := i + 1;
      }
      return false;
    }

    method Admit(r: Request) returns (out: Result<Admission, Refusal>)
      requires Valid()
      modifies this
      ensures Valid()
      ensures State() == IngressModel.Admit(old(State()), r).0
      ensures out == IngressModel.Admit(old(State()), r).1
      ensures Stranger(old(grants), r) ==> State() == old(State()) && out in {Err(StampRequired), Err(StreamRejected)}
    {
      AdmitKeepsInv(State(), r);
      if Stranger(grants, r) {
        StrangerIsRefused(State(), r);
      }
      hide Books, Inv;
      if !r.hasStamp {
        return Err(StampRequired);
      }
      if r.producerId == "" || r.producerEpoch == "" || r.receiverEpoch == "" {
        return Err(StreamRejected);
      }
      var ok := IsAuthorized(r);
      if !ok {
        return Err(StreamRejected);
      }
      AuthorizedStreamExists(State(), r);
      var key := RequestKey(r);
      var s := streams[key];
      if r.sequence == 0 {
        return Err(SequenceGap(s.nextSequence));
      }
      if r.sequence > s.nextSequence {
        return Err(SequenceGap(s.nextSequence));
      }
      if r.sequence < s.nextSequence {
        if r.sequence in s.inFlight {
          var e := s.inFlight[r.sequence];
          if e.requestId == r.requestId && e.digest == r.digest {
            return Err(InProgress);
          }
          return Err(SequenceConflict);
        }
        var ckey := CachedKey(key, r.sequence);
        if ckey in cached {
          if cached[ckey].requestId != r.requestId || cached[ckey].digest != r.digest {
            return Err(SequenceConflict);
          }
          return Ok(Replay(key, r.sequence, cached[ckey].reply));
        }
        return Err(ResultExpired);
      }
      s := s.(inFlight := s.inFlight[r.sequence := InFlight(r.requestId, r.digest)]);
      s := s.(nextSequence := Increment(s.nextSequence));
      streams := streams[key := s];
      return Ok(Execute(key, r.sequence));
    }

    method Complete(a: Admission, reply: Reply, verdict: Option<Error>) returns (r: Result<(), CompleteError>)
      requires Valid()
      modifies this
      ensures Valid()
      ensures State() == IngressModel.Complete(old(State()), a, reply, verdict).0
      ensures r == IngressModel.Complete(old(State()), a, reply, verdict).1
    {
      hide Inv, Books, Evict;
      ghost var before := State();
      if !a.Execute? {
        return Err(NotAnExecution);
      }
      if a.stream !in streams {
        return Err(NoSuchStream);
      }
      var s := streams[a.stream];
      if a.sequence !in s.inFlight {
        return Err(NotInFlight);
      }
      LandedReply(before, a, reply, verdict);
      var e := s.inFlight[a.sequence];
      s := s.(inFlight := s.inFlight - {a.sequence});
      streams := streams[a.stream := s];
      var kept := reply;
      if !reply.isOk && verdict.Some? {
        kept := kept.(error := verdict.value);
        kept := kept.(error := kept.error.(details := []));
      }
      var bytes := ReplyBytes(kept);
      if bytes > config.maxBytes {
        return Ok(());
      }
      var ckey := CachedKey(a.stream, a.sequence);
      // map::emplace inserts only when the key is absent
      if ckey !in cached {
        cached := cached[ckey := CachedResult(e.requestId, e.digest, kept, bytes)];
      }
      cachedOrder := cachedOrder + [ckey];
      cachedBytes := cachedBytes + bytes;
      streams := streams[a.stream := s.(cachedSeqs := s.cachedSeqs + {a.sequence})];
      assert State() == Insert(Land(before, a), ckey, CachedResult(e.requestId, e.digest, kept, bytes));
      EvictToLimits();
      return Ok(());
    }

    method CachedResultCount() returns (n: nat)
      requires Valid()
      ensures n == |cachedOrder| <= config.maxCached
    {
      OrderedCount(State());
      return |cached|;
    }
  }

  // ---------- Lemmas about the loops ----------

  lemma ForgettingNothing(st: Ingress)
    requires Books(st)
    ensures Forget(st, {}) == st
  {
    FilterNothing(st.order, {});
    assert st.cached - {} == st.cached;
    forall k | k in st.streams ensures ForgetSeqs(k, st.streams[k], {}) == st.streams[k] {
      assert ForgetSeqs(k, st.streams[k], {}).cachedSeqs == st.streams[k].cachedSeqs;
    }
  }

  lemma ForgetTwice(st: Ingress, a: set<CachedKey>, b: set<CachedKey>)
    ensures Forget(Forget(st, a), b) == Forget(st, a + b)
  {
    FilterTwice(st.order, a, b);
    assert st.cached - a - b == st.cached - (a + b);
    FilterMembers(st.order, a + b);
    TotalAgrees(st.cached, st.cached - a, Filter(st.order, a + b));
    forall k | k in st.streams ensures
        ForgetSeqs(k, ForgetSeqs(k, st.streams[k], a), b) == ForgetSeqs(k, st.streams[k], a + b) {
      assert ForgetSeqs(k, ForgetSeqs(k, st.streams[k], a), b).cachedSeqs
        == ForgetSeqs(k, st.streams[k], a + b).cachedSeqs;
    }
  }

  /** What removing one key does to each field. */
  lemma RemovedState(st: Ingress, key: CachedKey)
    requires Books(st) && key in st.cached
    ensures key in st.order && key.stream in st.streams && st.cached[key].bytes <= st.bytes
    ensures Books(Forget(st, {key}))
    ensures var st' := Forget(st, {key});
            var s := st.streams[key.stream];
            && st'.bytes == st.bytes - st.cached[key].bytes
            && st'.streams == st.streams[key.stream := s.(cachedSeqs := s.cachedSeqs - {key.sequence})]
            && forall i | 0 <= i < |st.order| && st.order[i] == key :: st'.order == st.order[..i] + st.order[i + 1..]
  {
    ForgetKeepsBooks(st, {key});
    assert ListedByStream(st.streams, key);
    TotalWithout(st.cached, st.order, key);
    ForgetOneStreams(st.streams, key);
    forall i | 0 <= i < |st.order| && st.order[i] == key
      ensures Forget(st, {key}).order == st.order[..i] + st.order[i + 1..]
    {
      FilterOne(st.order, i, key);
    }
  }

  lemma CachedOfStream(st: Ingress, key: StreamKey)
    requires Books(st)
    ensures forall k | k in CachedOf(st, key) :: k in st.cached
    ensures CachedOf(st, key) ==
      if key in st.streams then set q | q in st.streams[key].cachedSeqs :: CachedKey(key, q) else {}
  {
    forall k ensures k in CachedOf(st, key) <==> k.stream == key && ListedByStream(st.streams, k) {
    }
    if key in st.streams {
      var seqs := set q | q in st.streams[key].cachedSeqs :: CachedKey(key, q);
      forall k | k in seqs ensures k in CachedOf(st, key) {
        assert ListedByStream(st.streams, k);
      }
      assert forall k | k in CachedOf(st, key) :: k == CachedKey(key, k.sequence);
    }
  }

  lemma EvictedOneMore(st: Ingress, n: nat)
    requires Books(st) && n < |st.order|
    ensures var k := st.order[n];
            Forget(Forget(st, Oldest(st, n)), {k}) == Forget(st, Oldest(st, n + 1))
    ensures Forget(st, Oldest(st, n + 1)).order == st.order[n + 1..]
    ensures Forget(st, Oldest(st, n + 1)).bytes == Total(st.cached, st.order[n + 1..])
  {
    hide Books, Forget;
    ForgetTwice(st, Oldest(st, n), {st.order[n]});
    assert Oldest(st, n) + {st.order[n]} == Oldest(st, n + 1);
    ForgetOldest(st, n + 1);
  }

  lemma {:induction false} TotalWithout(m: map<CachedKey, CachedResult>, order: seq<CachedKey>, k: CachedKey)
    requires NoRepeats(order) && k in order
    ensures Total(m, Filter(order, {k})) + Weight(m, k) == Total(m, order)
  {
    assert NoRepeats(order[1..]) && order[0] !in order[1..];
    if order[0] == k {
      FilterNothing(order[1..], {k});
    } else {
      TotalWithout(m, order[1..], k);
      var rest := Filter(order[1..], {k});
      assert ([order[0]] + rest)[1..] == rest;
    }
  }

  lemma {:induction false} FilterOne(order: seq<CachedKey>, i: nat, k: CachedKey)
    requires i < |order| && order[i] == k && NoRepeats(order)
    ensures Filter(order, {k}) == order[..i] + order[i + 1..]
  {
    if i == 0 {
      FilterNothing(order[1..], {k});
    } else {
      FilterOne(order[1..], i - 1, k);
      assert order[..i] == [order[0]] + order[1..][..i - 1];
      assert order[1..][i..] == order[i + 1..];
    }
  }

  lemma ForgetOneStreams(streams: map<StreamKey, StreamState>, key: CachedKey)
    requires key.stream in streams
    ensures (map k | k in streams :: ForgetSeqs(k, streams[k], {key}))
         == streams[key.stream := streams[key.stream].(cachedSeqs := streams[key.stream].cachedSeqs - {key.sequence})]
  {
    forall k | k in streams ensures ForgetSeqs(k, streams[k], {key})
        == if k == key.stream then streams[k].(cachedSeqs := streams[k].cachedSeqs - {key.sequence}) else streams[k] {
      assert ForgetSeqs(k, streams[k], {key}).cachedSeqs
          == if k == key.stream then streams[k].cachedSeqs - {key.sequence} else streams[k].cachedSeqs;
    }
  }

  lemma OnlyOneOfStream(grants: seq<Grant>, i: nat, grant: Grant)
    requires DistinctStreams(grants) && i < |grants|
    requires KeyOf(grants[i]) == KeyOf(grant) && grants[i] != grant
    ensures grant !in grants
  {
    assert forall j | 0 <= j < |grants| && j != i :: KeyOf(grants[j]) != KeyOf(grant);
  }

  lemma BooksOfGrants(st: Ingress)
    requires Books(st)
    ensures DistinctStreams(st.grants)
    ensures forall h | h in st.grants :: h.service == st.config.service && KeyOf(h) in st.streams
    ensures forall k | k in st.streams :: exists h :: h in st.grants && KeyOf(h) == k
  {
  }

  lemma {:induction false} WithoutTheOne(grants: seq<Grant>, i: nat, key: StreamKey)
    requires DistinctStreams(grants) && i < |grants| && KeyOf(grants[i]) == key
    ensures WithoutStream(grants, key) == grants[..i] + grants[i + 1..]
    ensures forall j | 0 <= j < |grants| && j != i :: KeyOf(grants[j]) != key
  {
    if i == 0 {
      WithoutNone(grants[1..], key);
    } else {
      WithoutTheOne(grants[1..], i - 1, key);
      assert grants[..i] == [grants[0]] + grants[1..][..i - 1];
      assert grants[1..][i..] == grants[i + 1..];
    }
  }

  lemma {:induction false} WithoutNone(grants: seq<Grant>, key: StreamKey)
    requires forall g | g in grants :: KeyOf(g) != key
    ensures WithoutStream(grants, key) == grants
  {
    if grants != [] {
      WithoutNone(grants[1..], key);
    }
  }

  /** The map and the order list have the same size. */
  lemma OrderedCount(st: Ingress)
    requires Books(st)
    ensures |st.cached| == |st.order| && st.bytes == Total(st.cached, st.order)
  {
    DistinctCount(st.order);
    assert st.cached.Keys == set k | k in st.order;
  }

  lemma OldestIsCached(st: Ingress)
    requires Books(st) && st.order != []
    ensures st.order[0] in st.cached
  {
    assert st.order[0] in st.order;
  }

  lemma StillCached(st: Ingress, dropped: set<CachedKey>, k: CachedKey)
    requires k in st.cached && k !in dropped
    ensures k in Forget(st, dropped).cached
  {
  }

  lemma {:induction false} DistinctCount(order: seq<CachedKey>)
    requires NoRepeats(order)
    ensures |set k | k in order| == |order|
  {
    if order != [] {
      var rest := set k | k in order[1..];
      DistinctCount(order[1..]);
      assert order[0] !in order[1..];
      assert (set k | k in order) == {order[0]} + rest;
    }
  }
}
