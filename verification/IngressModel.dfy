// The receiving side of an ordered stream as a value: its state, its three operations, the invariant
// they keep.  OrderedIngress.dfy holds the class whose methods implement these functions.

module IngressModel {
  import opened Wrappers
  import opened UInt64
  import opened OrderedTypes

  // ---------- State ----------

  datatype Config = Config(service: string, maxStreams: nat, maxCached: nat, maxBytes: nat)

  datatype Error = Error(domain: string, domainCode: string, message: string, details: seq<(string, string)>)

  datatype Reply = Reply(isOk: bool, payload: string, error: Error)

  datatype InFlight = InFlight(requestId: string, digest: string)

  datatype StreamState = StreamState(
    nextSequence: uint64,
    inFlight: map<uint64, InFlight>,
    cachedSeqs: set<uint64>)

  datatype CachedKey = CachedKey(stream: StreamKey, sequence: uint64)

  datatype CachedResult = CachedResult(requestId: string, digest: string, reply: Reply, bytes: nat)

  datatype Ingress = Ingress(
    config: Config,
    grants: seq<Grant>,
    streams: map<StreamKey, StreamState>,
    cached: map<CachedKey, CachedResult>,
    order: seq<CachedKey>,
    bytes: int)

  datatype Request = Request(
    hasStamp: bool,
    actorKey: string,
    producerId: string,
    producerEpoch: string,
    receiverEpoch: string,
    peerPrincipal: string,
    sequence: uint64,
    requestId: string,
    digest: string)

  datatype Admission =
    | Execute(stream: StreamKey, sequence: uint64)
    | Replay(stream: StreamKey, sequence: uint64, reply: Reply)

  datatype Refusal =
    | StampRequired
    | StreamRejected
    | SequenceGap(expected: nat)
    | InProgress
    | SequenceConflict
    | ResultExpired

  datatype GrantError = InvalidGrant | ConflictingGrant | Overloaded

  datatype CompleteError = NotAnExecution | NoSuchStream | NotInFlight

  /** Sequences consumed so far.  `++next_sequence` wraps, so after 2^64-1 executions the counter reads 0. */
  function Consumed(s: StreamState): uint64 {
    if s.nextSequence == 0 then MAX64 else s.nextSequence - 1
  }

  function Fresh(): StreamState {
    StreamState(1, map[], {})
  }

  function Initial(config: Config): Ingress {
    Ingress(config, [], map[], map[], [], 0)
  }

  // ---------- Byte accounting ----------

  function DetailBytes(details: seq<(string, string)>): nat {
    if details == [] then 0
    else DetailBytes(details[..|details| - 1]) + |details[|details| - 1].0| + |details[|details| - 1].1|
  }

  function ReplySize(r: Reply): nat {
    if r.isOk then |r.payload|
    else |r.payload| + |r.error.domain| + |r.error.domainCode| + |r.error.message| + DetailBytes(r.error.details)
  }

  function Weight(cached: map<CachedKey, CachedResult>, k: CachedKey): nat {
    if k in cached then cached[k].bytes else 0
  }

  function Total(cached: map<CachedKey, CachedResult>, order: seq<CachedKey>): nat {
    if order == [] then 0 else Weight(cached, order[0]) + Total(cached, order[1..])
  }

  // ---------- Forgetting cached replies ----------

  function Filter(order: seq<CachedKey>, drop: set<CachedKey>): seq<CachedKey> {
    if order == [] then []
    else if order[0] in drop then Filter(order[1..], drop)
    else [order[0]] + Filter(order[1..], drop)
  }

  function ForgetSeqs(key: StreamKey, s: StreamState, drop: set<CachedKey>): StreamState {
    s.(cachedSeqs := set q | q in s.cachedSeqs && CachedKey(key, q) !in drop)
  }

  /** The state without the cached replies in `drop`; sequence counters never move. */
  function Forget(st: Ingress, drop: set<CachedKey>): Ingress {
    st.(cached := st.cached - drop,
        order := Filter(st.order, drop),
        bytes := Total(st.cached, Filter(st.order, drop)),
        streams := map k | k in st.streams :: ForgetSeqs(k, st.streams[k], drop))
  }

  predicate Fits(st: Ingress, n: nat)
    requires n <= |st.order|
  {
    |st.order| - n <= st.config.maxCached && Total(st.cached, st.order[n..]) <= st.config.maxBytes
  }

  /** How many of the oldest replies have to go, `n` of them being gone already. */
  function EvictFrom(st: Ingress, n: nat): (m: nat)
    requires n <= |st.order|
    ensures n <= m <= |st.order|
    decreases |st.order| - n
  {
    if n == |st.order| || Fits(st, n) then n else EvictFrom(st, n + 1)
  }

  function Oldest(st: Ingress, n: nat): set<CachedKey>
    requires n <= |st.order|
  {
    set i | 0 <= i < n :: st.order[i]
  }

  function Evict(st: Ingress): Ingress {
    Forget(st, Oldest(st, EvictFrom(st, 0)))
  }

  // ---------- The operations ----------

  /** Every cached reply of one stream. */
  function CachedOf(st: Ingress, key: StreamKey): set<CachedKey> {
    set k | k in st.cached && k.stream == key
  }

  function Revoke(st: Ingress, key: StreamKey): Ingress {
    var kept := Forget(st, CachedOf(st, key));
    kept.(streams := kept.streams - {key}, grants := WithoutStream(st.grants, key))
  }

  function WithoutStream(grants: seq<Grant>, key: StreamKey): seq<Grant> {
    if grants == [] then []
    else if KeyOf(grants[0]) == key then WithoutStream(grants[1..], key)
    else [grants[0]] + WithoutStream(grants[1..], key)
  }

  function Install(st: Ingress, g: Grant): Ingress {
    st.(grants := st.grants + [g], streams := st.streams[KeyOf(g) := Fresh()])
  }

  function GrantStream(st: Ingress, g: Grant): (Ingress, Result<(), GrantError>) {
    if g.service != st.config.service || HasEmptyField(g) then (st, Err(InvalidGrant))
    else if g in st.grants then (st, Ok(()))
    else if exists h :: h in st.grants && SameStreamId(h, g) then (st, Err(ConflictingGrant))
    else
      var st' := if KeyOf(g) in st.streams then Revoke(st, KeyOf(g)) else st;
      if |st'.grants| >= st.config.maxStreams then (st, Err(Overloaded)) else (Install(st', g), Ok(()))
  }

  function RequestKey(r: Request): StreamKey {
    StreamKey(r.actorKey, r.producerId, r.producerEpoch)
  }

  /** The request names an installed session and comes from the peer it was granted to. */
  predicate Covers(g: Grant, r: Request) {
    KeyOf(g) == RequestKey(r) && g.receiverEpoch == r.receiverEpoch && g.peerPrincipal == r.peerPrincipal
  }

  predicate Authorized(grants: seq<Grant>, r: Request) {
    exists g :: g in grants && Covers(g, r)
  }

  predicate StampComplete(r: Request) {
    r.producerId != "" && r.producerEpoch != "" && r.receiverEpoch != ""
  }

  function AdmitToStream(st: Ingress, r: Request): (Ingress, Result<Admission, Refusal>)
    requires RequestKey(r) in st.streams
  {
    var key := RequestKey(r);
    var s := st.streams[key];
    if r.sequence == 0 || r.sequence > s.nextSequence then (st, Err(SequenceGap(s.nextSequence)))
    else if r.sequence == s.nextSequence then
      var s' := s.(inFlight := s.inFlight[r.sequence := InFlight(r.requestId, r.digest)],
                   nextSequence := Increment(s.nextSequence));
      (st.(streams := st.streams[key := s']), Ok(Execute(key, r.sequence)))
    else if r.sequence in s.inFlight then
      (st, Err(if s.inFlight[r.sequence] == InFlight(r.requestId, r.digest) then InProgress else SequenceConflict))
    else if CachedKey(key, r.sequence) in st.cached then
      var c := st.cached[CachedKey(key, r.sequence)];
      (st, if c.requestId == r.requestId && c.digest == r.digest then Ok(Replay(key, r.sequence, c.reply))
           else Err(SequenceConflict))
    else (st, Err(ResultExpired))
  }

  function Admit(st: Ingress, r: Request): (Ingress, Result<Admission, Refusal>)
    requires StreamsMatchGrants(st.grants, st.streams.Keys)
  {
    if !r.hasStamp then (st, Err(StampRequired))
    else if !StampComplete(r) || !Authorized(st.grants, r) then (st, Err(StreamRejected))
    else AdmitToStream(st, r)
  }

  /** The reply that is kept: an error the boundary check refuses is replaced by the check's own error.
      `verdict` is that check's answer, None when the error is acceptable. */
  function Normalise(reply: Reply, verdict: Option<Error>): Reply {
    if reply.isOk || verdict.None? then reply else reply.(error := verdict.value.(details := []))
  }

  function Insert(st: Ingress, k: CachedKey, c: CachedResult): Ingress
    requires k.stream in st.streams
  {
    var s := st.streams[k.stream];
    st.(cached := st.cached[k := c],
        order := st.order + [k],
        bytes := st.bytes + c.bytes,
        streams := st.streams[k.stream := s.(cachedSeqs := s.cachedSeqs + {k.sequence})])
  }

  function Land(st: Ingress, a: Admission): Ingress
    requires a.stream in st.streams
  {
    var s := st.streams[a.stream];
    st.(streams := st.streams[a.stream := s.(inFlight := s.inFlight - {a.sequence})])
  }

  function Complete(st: Ingress, a: Admission, reply: Reply, verdict: Option<Error>)
    : (Ingress, Result<(), CompleteError>)
  {
    if !a.Execute? then (st, Err(NotAnExecution))
    else if a.stream !in st.streams then (st, Err(NoSuchStream))
    else if a.sequence !in st.streams[a.stream].inFlight then (st, Err(NotInFlight))
    else
      var e := st.streams[a.stream].inFlight[a.sequence];
      var kept := Normalise(reply, verdict);
      if ReplySize(kept) > st.config.maxBytes then (Land(st, a), Ok(()))
      else
        var c := CachedResult(e.requestId, e.digest, kept, ReplySize(kept));
        (Evict(Insert(Land(st, a), CachedKey(a.stream, a.sequence), c)), Ok(()))
  }

  // ---------- The invariant ----------

  predicate ConfigOk(c: Config) {
    c.service != "" && c.maxStreams > 0 && c.maxCached > 0 && c.maxBytes > 0
  }

  predicate DistinctStreams(grants: seq<Grant>) {
    forall i, j | 0 <= i < j < |grants| :: KeyOf(grants[i]) != KeyOf(grants[j])
  }

  predicate GrantsOk(config: Config, grants: seq<Grant>) {
    && |grants| <= config.maxStreams
    && DistinctStreams(grants)
    && (forall g | g in grants :: g.service == config.service && !HasEmptyField(g))
  }

  /** Grants and streams are in bijection. */
  ghost predicate StreamsMatchGrants(grants: seq<Grant>, streams: set<StreamKey>) {
    && (forall g | g in grants :: KeyOf(g) in streams)
    && (forall k | k in streams :: exists g :: g in grants && KeyOf(g) == k)
  }

  predicate StreamOk(s: StreamState) {
    && (forall q | q in s.inFlight :: 1 <= q <= Consumed(s))
    && (forall q | q in s.cachedSeqs :: 1 <= q <= Consumed(s) && q !in s.inFlight)
  }

  predicate NoRepeats<T(==)>(s: seq<T>) {
    forall i, j | 0 <= i < j < |s| :: s[i] != s[j]
  }

  predicate ListedByStream(streams: map<StreamKey, StreamState>, k: CachedKey) {
    k.stream in streams && k.sequence in streams[k.stream].cachedSeqs
  }

  /** The cache map, the completion order and the per-stream sequence sets describe the same replies. */
  ghost predicate OrderMatches(cached: map<CachedKey, CachedResult>, order: seq<CachedKey>) {
    NoRepeats(order) && (forall k :: k in cached <==> k in order)
  }

  ghost predicate ListsMatch(cached: map<CachedKey, CachedResult>, streams: map<StreamKey, StreamState>) {
    forall k :: k in cached <==> ListedByStream(streams, k)
  }

  predicate SizesOk(cached: map<CachedKey, CachedResult>) {
    forall k | k in cached :: cached[k].bytes == ReplySize(cached[k].reply)
  }

  predicate StreamsOk(streams: map<StreamKey, StreamState>) {
    forall k | k in streams :: StreamOk(streams[k])
  }

  ghost predicate CacheAgrees(st: Ingress) {
    && OrderMatches(st.cached, st.order)
    && ListsMatch(st.cached, st.streams)
    && SizesOk(st.cached)
    && st.bytes == Total(st.cached, st.order)
  }

  /** Everything but the two cache limits, which are broken for a moment inside Complete. */
  ghost predicate Books(st: Ingress) {
    && ConfigOk(st.config)
    && GrantsOk(st.config, st.grants)
    && StreamsMatchGrants(st.grants, st.streams.Keys)
    && StreamsOk(st.streams)
    && CacheAgrees(st)
  }

  ghost predicate Inv(st: Ingress) {
    Books(st) && |st.order| <= st.config.maxCached && st.bytes <= st.config.maxBytes
  }
}
