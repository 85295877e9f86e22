// What the three operations of the ordered ingress keep: the cache books, both cache limits, the
// bijection between grants and streams, and the partition of every stream's consumed sequences.

module IngressProofs {
  import opened Wrappers
  import opened UInt64
  import opened OrderedTypes
  import opened IngressModel

  // ---------- Sequences of keys ----------

  lemma {:induction false} FilterMembers(order: seq<CachedKey>, drop: set<CachedKey>)
    ensures forall k :: k in Filter(order, drop) <==> k in order && k !in drop
    ensures NoRepeats(order) ==> NoRepeats(Filter(order, drop))
  {
    if order != [] {
      FilterMembers(order[1..], drop);
      assert order == [order[0]] + order[1..];
      assert NoRepeats(order) ==> NoRepeats(order[1..]) && order[0] !in order[1..];
    }
  }

  lemma {:induction false} FilterTwice(order: seq<CachedKey>, a: set<CachedKey>, b: set<CachedKey>)
    ensures Filter(Filter(order, a), b) == Filter(order, a + b)
  {
    if order != [] {
      FilterTwice(order[1..], a, b);
      var rest := Filter(order[1..], a);
      assert ([order[0]] + rest)[1..] == rest;
    }
  }

  lemma {:induction false} FilterNothing(order: seq<CachedKey>, drop: set<CachedKey>)
    requires forall k | k in order :: k !in drop
    ensures Filter(order, drop) == order
  {
    if order != [] {
      FilterNothing(order[1..], drop);
    }
  }

  /** Dropping the n oldest keys leaves the rest of the order. */
  lemma {:induction false} FilterPrefix(order: seq<CachedKey>, n: nat, drop: set<CachedKey>)
    requires n <= |order| && NoRepeats(order)
    requires drop == set i | 0 <= i < n :: order[i]
    ensures Filter(order, drop) == order[n..]
    decreases n
  {
    if n == 0 {
      FilterNothing(order, drop);
    } else {
      assert order[0] in drop;
      var rest := set i | 0 <= i < n - 1 :: order[1..][i];
      assert forall k | k in order[1..] :: k in rest <==> k in drop by {
        forall k | k in order[1..] && k in drop ensures k in rest {
          var i :| 0 <= i < n && order[i] == k;
          assert i > 0 by {
            var j :| 0 <= j < |order[1..]| && order[1..][j] == k;
            assert order[j + 1] == k;
          }
          assert order[1..][i - 1] == k;
        }
        forall k | k in rest ensures k in drop {
          var i :| 0 <= i < n - 1 && order[1..][i] == k;
          assert order[i + 1] == k;
        }
      }
      FilterSameOn(order[1..], rest, drop);
      FilterPrefix(order[1..], n - 1, rest);
      assert order[1..][n - 1..] == order[n..];
    }
  }

  lemma {:induction false} FilterSameOn(order: seq<CachedKey>, a: set<CachedKey>, b: set<CachedKey>)
    requires forall k | k in order :: k in a <==> k in b
    ensures Filter(order, a) == Filter(order, b)
  {
    if order != [] {
      FilterSameOn(order[1..], a, b);
    }
  }

  lemma {:induction false} TotalAgrees(m: map<CachedKey, CachedResult>, m': map<CachedKey, CachedResult>,
      order: seq<CachedKey>)
    requires forall k | k in order :: Weight(m, k) == Weight(m', k)
    ensures Total(m, order) == Total(m', order)
  {
    if order != [] {
      TotalAgrees(m, m', order[1..]);
    }
  }

  lemma {:induction false} TotalAppend(m: map<CachedKey, CachedResult>, a: seq<CachedKey>, b: seq<CachedKey>)
    ensures Total(m, a + b) == Total(m, a) + Total(m, b)
  {
    if a == [] {
      assert a + b == b;
    } else {
      TotalAppend(m, a[1..], b);
      assert (a + b)[1..] == a[1..] + b;
    }
  }

  lemma {:induction false} WithoutStreamMembers(grants: seq<Grant>, key: StreamKey)
    ensures forall g :: g in WithoutStream(grants, key) <==> g in grants && KeyOf(g) != key
    ensures |WithoutStream(grants, key)| <= |grants|
    ensures (exists g :: g in grants && KeyOf(g) == key) ==> |WithoutStream(grants, key)| < |grants|
  {
    hide KeyOf;
    if grants != [] {
      WithoutStreamMembers(grants[1..], key);
      assert grants == [grants[0]] + grants[1..];
    }
  }

  lemma {:induction false} WithoutStreamDistinct(grants: seq<Grant>, key: StreamKey)
    requires DistinctStreams(grants)
    ensures DistinctStreams(WithoutStream(grants, key))
  {
    hide KeyOf;
    if grants != [] {
      WithoutStreamDistinct(grants[1..], key);
      WithoutStreamMembers(grants[1..], key);
      assert forall g | g in grants[1..] :: KeyOf(g) != KeyOf(grants[0]);
    }
  }

  // ---------- Forgetting and evicting ----------

  lemma ForgottenOrder(m: map<CachedKey, CachedResult>, order: seq<CachedKey>, drop: set<CachedKey>)
    requires OrderMatches(m, order)
    ensures OrderMatches(m - drop, Filter(order, drop))
    ensures Total(m - drop, Filter(order, drop)) == Total(m, Filter(order, drop))
  {
    FilterMembers(order, drop);
    TotalAgrees(m, m - drop, Filter(order, drop));
  }

  lemma ForgottenStreams(st: Ingress, drop: set<CachedKey>)
    requires ListsMatch(st.cached, st.streams) && StreamsOk(st.streams)
    ensures ListsMatch(Forget(st, drop).cached, Forget(st, drop).streams)
    ensures StreamsOk(Forget(st, drop).streams)
  {
    var streams := Forget(st, drop).streams;
    forall k | k in streams ensures StreamOk(streams[k]) {
      assert StreamOk(st.streams[k]);
      assert Consumed(streams[k]) == Consumed(st.streams[k]);
    }
  }

  lemma ForgetKeepsBooks(st: Ingress, drop: set<CachedKey>)
    requires Books(st)
    ensures Books(Forget(st, drop))
  {
    ForgottenOrder(st.cached, st.order, drop);
    ForgottenStreams(st, drop);
  }

  /** Forgetting the n oldest replies leaves the rest of the order and exactly their bytes. */
  lemma ForgetOldest(st: Ingress, n: nat)
    requires Books(st) && n <= |st.order|
    ensures Books(Forget(st, Oldest(st, n)))
    ensures Forget(st, Oldest(st, n)).order == st.order[n..]
    ensures Forget(st, Oldest(st, n)).bytes == Total(st.cached, st.order[n..])
  {
    ForgetKeepsBooks(st, Oldest(st, n));
    FilterPrefix(st.order, n, Oldest(st, n));
  }

  lemma {:induction false} EvictFromIsLeast(st: Ingress, n: nat)
    requires n <= |st.order|
    ensures EvictFrom(st, n) == |st.order| || Fits(st, EvictFrom(st, n))
    ensures forall m | n <= m < EvictFrom(st, n) :: !Fits(st, m)
    decreases |st.order| - n
  {
    if n < |st.order| && !Fits(st, n) {
      EvictFromIsLeast(st, n + 1);
    }
  }

  lemma EvictKeepsBooks(st: Ingress)
    requires Books(st)
    ensures Inv(Evict(st))
  {
    var m := EvictFrom(st, 0);
    EvictFromIsLeast(st, 0);
    ForgetOldest(st, m);
  }

  /** Eviction removes a prefix of the completion order, and no shorter prefix would have done. */
  lemma EvictionIsShortestOldestPrefix(st: Ingress)
    requires Books(st)
    ensures exists n: nat ::
      && n <= |st.order|
      && Evict(st).order == st.order[n..]
      && Evict(st).cached == st.cached - Oldest(st, n)
      && (n < |st.order| ==> Fits(st, n))
      && (forall m: nat | m < n :: !Fits(st, m))
  {
    var n := EvictFrom(st, 0);
    EvictFromIsLeast(st, 0);
    ForgetOldest(st, n);
  }

  // ---------- Every operation keeps the invariant ----------

  lemma RevokedGrants(st: Ingress, key: StreamKey)
    requires Inv(st)
    ensures GrantsOk(st.config, Revoke(st, key).grants)
    ensures StreamsMatchGrants(Revoke(st, key).grants, Revoke(st, key).streams.Keys)
    ensures key in st.streams ==> |Revoke(st, key).grants| < |st.grants|
  {
    WithoutStreamMembers(st.grants, key);
    WithoutStreamDistinct(st.grants, key);
    var st' := Revoke(st, key);
    assert st'.grants == WithoutStream(st.grants, key);
    forall k | k in st'.streams ensures exists g :: g in st'.grants && KeyOf(g) == k {
      var g :| g in st.grants && KeyOf(g) == k;
      assert g in st'.grants;
    }
  }

  lemma RevokedCache(st: Ingress, key: StreamKey)
    requires CacheAgrees(st) && StreamsOk(st.streams)
    ensures CacheAgrees(Revoke(st, key)) && StreamsOk(Revoke(st, key).streams)
    ensures |Revoke(st, key).order| <= |st.order| && Revoke(st, key).bytes <= st.bytes
  {
    var drop := CachedOf(st, key);
    ForgottenOrder(st.cached, st.order, drop);
    ForgottenStreams(st, drop);
    FilterShrinks(st.cached, st.order, drop);
    UnlistedStream(Forget(st, drop).cached, Forget(st, drop).streams, key);
  }

  lemma UnlistedStream(m: map<CachedKey, CachedResult>, streams: map<StreamKey, StreamState>, key: StreamKey)
    requires ListsMatch(m, streams) && forall k | k in m :: k.stream != key
    ensures ListsMatch(m, streams - {key})
  {
    forall k ensures k in m <==> ListedByStream(streams - {key}, k) {
      assert k in m <==> ListedByStream(streams, k);
    }
  }

  lemma RevokeKeepsInv(st: Ingress, key: StreamKey)
    requires Inv(st)
    ensures Inv(Revoke(st, key))
    ensures key in st.streams ==> |Revoke(st, key).grants| < |st.grants|
    ensures key !in Revoke(st, key).streams
  {
    RevokedGrants(st, key);
    RevokedCache(st, key);
  }

  lemma {:induction false} FilterShrinks(m: map<CachedKey, CachedResult>, order: seq<CachedKey>, drop: set<CachedKey>)
    ensures |Filter(order, drop)| <= |order|
    ensures Total(m, Filter(order, drop)) <= Total(m, order)
  {
    if order != [] {
      FilterShrinks(m, order[1..], drop);
      var rest := Filter(order[1..], drop);
      assert ([order[0]] + rest)[1..] == rest;
    }
  }

  lemma InstallKeepsInv(st: Ingress, g: Grant)
    requires Inv(st) && |st.grants| < st.config.maxStreams && KeyOf(g) !in st.streams
    requires g.service == st.config.service && !HasEmptyField(g)
    ensures Inv(Install(st, g))
  {
    var st' := Install(st, g);
    InstalledGrants(st, g);
    StreamReplaced(st.cached, st.streams, KeyOf(g), Fresh());
  }

  /** Replacing a stream's state without touching its cached sequences. */
  lemma StreamReplaced(m: map<CachedKey, CachedResult>, streams: map<StreamKey, StreamState>, key: StreamKey,
      s: StreamState)
    requires ListsMatch(m, streams) && StreamsOk(streams) && StreamOk(s)
    requires s.cachedSeqs == if key in streams then streams[key].cachedSeqs else {}
    ensures ListsMatch(m, streams[key := s]) && StreamsOk(streams[key := s])
  {
    var streams' := streams[key := s];
    forall k ensures k in m <==> ListedByStream(streams', k) {
      assert k in m <==> ListedByStream(streams, k);
      assert ListedByStream(streams', k) <==> ListedByStream(streams, k);
    }
  }

  lemma InstalledGrants(st: Ingress, g: Grant)
    requires Inv(st) && |st.grants| < st.config.maxStreams && KeyOf(g) !in st.streams
    requires g.service == st.config.service && !HasEmptyField(g)
    ensures GrantsOk(st.config, Install(st, g).grants)
    ensures StreamsMatchGrants(Install(st, g).grants, Install(st, g).streams.Keys)
  {
    var st' := Install(st, g);
    assert forall i | 0 <= i < |st.grants| :: st.grants[i] in st.grants;
    forall k | k in st'.streams ensures exists h :: h in st'.grants && KeyOf(h) == k {
      if k == KeyOf(g) {
        assert g in st'.grants;
      } else {
        var h :| h in st.grants && KeyOf(h) == k;
        assert h in st'.grants;
      }
    }
  }

  lemma GrantKeepsInv(st: Ingress, g: Grant)
    requires Inv(st)
    ensures Inv(GrantStream(st, g).0)
  {
    hide Inv, SameStreamId, HasEmptyField, KeyOf, Install;
    if KeyOf(g) in st.streams {
      RevokeKeepsInv(st, KeyOf(g));
    }
    var st' := if KeyOf(g) in st.streams then Revoke(st, KeyOf(g)) else st;
    if GrantStream(st, g).0 != st {
      InstallKeepsInv(st', g);
    }
  }

  /** Granting is atomic.  An error changes nothing, and a session switch never runs into the stream
      limit, because the revoked session frees its slot. */
  lemma GrantIsAtomic(st: Ingress, g: Grant)
    requires Inv(st)
    ensures GrantStream(st, g).1.Err? ==> GrantStream(st, g).0 == st
    ensures KeyOf(g) in st.streams ==> GrantStream(st, g).1 != Err(Overloaded)
  {
    hide Inv, Revoke, Install, SameStreamId, HasEmptyField, KeyOf;
    GrantedStreams(st);
    if KeyOf(g) in st.streams {
      RevokeKeepsInv(st, KeyOf(g));
    }
  }

  /** A successful grant leaves exactly one session for the producer's stream, the granted one, starting
      afresh unless it was installed already, and it touches no other stream. */
  lemma GrantInstallsOneSession(st: Ingress, g: Grant)
    requires Inv(st) && GrantStream(st, g).1.Ok?
    ensures var st' := GrantStream(st, g).0;
            && g in st'.grants && KeyOf(g) in st'.streams
            && (forall h | h in st'.grants && KeyOf(h) == KeyOf(g) :: h == g)
            && (forall h | KeyOf(h) != KeyOf(g) :: h in st'.grants <==> h in st.grants)
            && (if g in st.grants then st' == st else st'.streams[KeyOf(g)] == Fresh())
            && (forall k | k in st.streams && k != KeyOf(g) :: k in st'.streams && st'.streams[k] == st.streams[k])
  {
    hide Inv, Revoke, Install, SameStreamId, HasEmptyField, KeyOf;
    if g in st.grants {
      GrantedStreams(st);
      SingleSession(st.grants, g);
      return;
    }
    InstalledSession(st, g);
    forall k | k in st.streams && k != KeyOf(g)
      ensures k in GrantStream(st, g).0.streams && GrantStream(st, g).0.streams[k] == st.streams[k]
    {
      OthersUntouched(st, g, k);
    }
  }

  lemma OthersUntouched(st: Ingress, g: Grant, k: StreamKey)
    requires k in st.streams && k != KeyOf(g)
    ensures k in GrantStream(st, g).0.streams && GrantStream(st, g).0.streams[k] == st.streams[k]
  {
    hide Forget, SameStreamId, HasEmptyField, KeyOf;
    ForgettingOthers(st, KeyOf(g), k);
  }

  lemma SingleSession(grants: seq<Grant>, g: Grant)
    requires DistinctStreams(grants) && g in grants
    ensures forall h | h in grants && KeyOf(h) == KeyOf(g) :: h == g
  {
  }

  lemma InstalledSession(st: Ingress, g: Grant)
    requires Inv(st) && GrantStream(st, g).1.Ok? && g !in st.grants
    ensures var st' := GrantStream(st, g).0;
            && g in st'.grants && KeyOf(g) in st'.streams && st'.streams[KeyOf(g)] == Fresh()
            && (forall h | h in st'.grants && KeyOf(h) == KeyOf(g) :: h == g)
            && (forall h | KeyOf(h) != KeyOf(g) :: h in st'.grants <==> h in st.grants)
  {
    hide Inv, Forget, SameStreamId, HasEmptyField, KeyOf;
    GrantedStreams(st);
    WithoutStreamMembers(st.grants, KeyOf(g));
    var st1 := if KeyOf(g) in st.streams then Revoke(st, KeyOf(g)) else st;
    var st' := GrantStream(st, g).0;
    assert st'.grants == st1.grants + [g];
    assert forall h | h in st1.grants :: KeyOf(h) != KeyOf(g);
  }

  lemma GrantedStreams(st: Ingress)
    requires Inv(st)
    ensures DistinctStreams(st.grants) && |st.grants| <= st.config.maxStreams
    ensures forall h | h in st.grants :: KeyOf(h) in st.streams
    ensures forall k | k in st.streams :: exists h :: h in st.grants && KeyOf(h) == k
  {
  }

  lemma ForgettingOthers(st: Ingress, key: StreamKey, k: StreamKey)
    requires k in st.streams && k != key
    ensures k in Revoke(st, key).streams && Revoke(st, key).streams[k] == st.streams[k]
  {
    var s := st.streams[k];
    assert ForgetSeqs(k, s, CachedOf(st, key)).cachedSeqs == s.cachedSeqs;
  }

  /** A request that some grant covers names a stream the receiver has. */
  lemma AuthorizedStreamExists(st: Ingress, r: Request)
    requires StreamsMatchGrants(st.grants, st.streams.Keys) && Authorized(st.grants, r)
    ensures RequestKey(r) in st.streams
  {
    var g :| g in st.grants && Covers(g, r);
  }

  lemma AdmitKeepsInv(st: Ingress, r: Request)
    requires Inv(st)
    ensures Inv(Admit(st, r).0)
  {
    hide OrderMatches, SizesOk, Total, GrantsOk;
    var (st', out) := Admit(st, r);
    if st' != st {
      var key := RequestKey(r);
      var s, s' := st.streams[key], st'.streams[key];
      assert st'.streams.Keys == st.streams.Keys;
      assert StreamOk(s);
      assert Consumed(s') == r.sequence == Consumed(s) + 1 && s'.cachedSeqs == s.cachedSeqs;
      StreamReplaced(st.cached, st.streams, key, s');
    }
  }

  lemma LandKeepsInv(st: Ingress, a: Admission)
    requires Inv(st) && a.stream in st.streams
    ensures Inv(Land(st, a))
  {
    hide OrderMatches, SizesOk, Total, GrantsOk, StreamsMatchGrants;
    assert Land(st, a).streams.Keys == st.streams.Keys;
    StreamReplaced(st.cached, st.streams, a.stream, Land(st, a).streams[a.stream]);
  }

  /** The key `Complete` inserts is never in the cache already: a sequence in flight is not cached. */
  lemma InsertKeepsBooks(st: Ingress, k: CachedKey, c: CachedResult)
    requires Books(st) && k.stream in st.streams
    requires k !in st.cached && 1 <= k.sequence <= Consumed(st.streams[k.stream])
    requires k.sequence !in st.streams[k.stream].inFlight && c.bytes == ReplySize(c.reply)
    ensures Books(Insert(st, k, c))
  {
    hide OrderMatches, ListsMatch, StreamsOk, Total, GrantsOk, StreamsMatchGrants, ReplySize;
    InsertedBytes(st.cached, st.order, k, c);
    InsertedOrder(st.cached, st.order, k, c);
    InsertedList(st.cached, st.streams, k, c);
    assert Insert(st, k, c).streams.Keys == st.streams.Keys;
  }

  lemma InsertedBytes(m: map<CachedKey, CachedResult>, order: seq<CachedKey>, k: CachedKey, c: CachedResult)
    requires OrderMatches(m, order) && k !in m
    ensures Total(m[k := c], order + [k]) == Total(m, order) + c.bytes
  {
    var m' := m[k := c];
    TotalAppend(m', order, [k]);
    TotalAgrees(m, m', order);
    assert [k][1..] == [];
  }

  lemma InsertedOrder(m: map<CachedKey, CachedResult>, order: seq<CachedKey>, k: CachedKey, c: CachedResult)
    requires OrderMatches(m, order) && k !in m
    ensures OrderMatches(m[k := c], order + [k])
  {
    assert k !in order;
  }

  lemma InsertedList(m: map<CachedKey, CachedResult>, streams: map<StreamKey, StreamState>, k: CachedKey,
      c: CachedResult)
    requires ListsMatch(m, streams) && StreamsOk(streams) && k.stream in streams
    requires 1 <= k.sequence <= Consumed(streams[k.stream]) && k.sequence !in streams[k.stream].inFlight
    ensures var s := streams[k.stream];
            var streams' := streams[k.stream := s.(cachedSeqs := s.cachedSeqs + {k.sequence})];
            ListsMatch(m[k := c], streams') && StreamsOk(streams')
  {
    var s := streams[k.stream];
    var streams' := streams[k.stream := s.(cachedSeqs := s.cachedSeqs + {k.sequence})];
    forall j ensures j in m[k := c] <==> ListedByStream(streams', j) {
      assert j in m <==> ListedByStream(streams, j);
      assert ListedByStream(streams', j) <==> ListedByStream(streams, j) || j == k;
    }
  }

  lemma CompleteKeepsInv(st: Ingress, a: Admission, reply: Reply, verdict: Option<Error>)
    requires Inv(st)
    ensures Inv(Complete(st, a, reply, verdict).0)
  {
    if Complete(st, a, reply, verdict).1.Ok? {
      LandedReply(st, a, reply, verdict);
    }
  }

  lemma LandedReply(st: Ingress, a: Admission, reply: Reply, verdict: Option<Error>)
    requires Inv(st) && Complete(st, a, reply, verdict).1.Ok?
    ensures Inv(Land(st, a)) && Inv(Complete(st, a, reply, verdict).0)
    ensures CachedKey(a.stream, a.sequence) !in st.cached
    ensures var kept := Normalise(reply, verdict);
            var e := st.streams[a.stream].inFlight[a.sequence];
            ReplySize(kept) <= st.config.maxBytes ==>
              Books(Insert(Land(st, a), CachedKey(a.stream, a.sequence),
                CachedResult(e.requestId, e.digest, kept, ReplySize(kept))))
  {
    assert StreamOk(st.streams[a.stream]);
    LandKeepsInv(st, a);
    assert ListedByStream(st.streams, CachedKey(a.stream, a.sequence))
      <==> CachedKey(a.stream, a.sequence) in st.cached;
    hide Inv, CacheAgrees, StreamsMatchGrants, GrantsOk, Evict;
    var e := st.streams[a.stream].inFlight[a.sequence];
    var kept := Normalise(reply, verdict);
    var k := CachedKey(a.stream, a.sequence);
    if ReplySize(kept) <= st.config.maxBytes {
      var c := CachedResult(e.requestId, e.digest, kept, ReplySize(kept));
      InsertKeepsBooks(Land(st, a), k, c);
      EvictKeepsBooks(Insert(Land(st, a), k, c));
    }
  }

  lemma LastFits(full: Ingress)
    requires ConfigOk(full.config) && full.order != []
    requires Weight(full.cached, full.order[|full.order| - 1]) <= full.config.maxBytes
    ensures Fits(full, |full.order| - 1)
  {
    var last := |full.order| - 1;
    assert full.order[last..] == [full.order[last]];
    assert full.order[last..][1..] == [];
  }

  lemma NewestIsKept(full: Ingress)
    requires Books(full) && full.order != []
    requires Weight(full.cached, full.order[|full.order| - 1]) <= full.config.maxBytes
    ensures var k := full.order[|full.order| - 1];
            var st' := Evict(full);
            k in st'.cached && st'.cached[k] == full.cached[k] && st'.order != [] && st'.order[|st'.order| - 1] == k
  {
    var last, k := |full.order| - 1, full.order[|full.order| - 1];
    LimitsPositive(full);
    CachedIffOrdered(full, k);
    hide Books, Forget, Filter, Total, ReplySize, Oldest;
    LastFits(full);
    var n := EvictFrom(full, 0);
    EvictFromIsLeast(full, 0);
    ForgetOldest(full, n);
    assert Evict(full).order[last - n] == k;
    CachedIffOrdered(Evict(full), k);
    ForgottenValues(full, Oldest(full, n), k);
  }

  lemma ForgottenValues(st: Ingress, drop: set<CachedKey>, k: CachedKey)
    requires k in Forget(st, drop).cached
    ensures k in st.cached && Forget(st, drop).cached[k] == st.cached[k]
  {
  }

  lemma CachedIffOrdered(st: Ingress, k: CachedKey)
    requires Books(st)
    ensures k in st.cached <==> k in st.order
  {
  }

  lemma LimitsPositive(st: Ingress)
    requires Books(st)
    ensures ConfigOk(st.config)
  {
  }

  /** A reply that fits the byte limit on its own is kept when it completes, whatever is evicted for it. */
  lemma CompletedReplyIsKept(st: Ingress, a: Admission, reply: Reply, verdict: Option<Error>)
    requires Inv(st) && Complete(st, a, reply, verdict).1.Ok?
    ensures var k := CachedKey(a.stream, a.sequence);
            var st' := Complete(st, a, reply, verdict).0;
            if ReplySize(Normalise(reply, verdict)) <= st.config.maxBytes
            then k in st'.cached && st'.order != [] && st'.order[|st'.order| - 1] == k
                 && st'.cached[k].reply == Normalise(reply, verdict)
            else st'.cached == st.cached && k !in st'.cached
  {
    hide Inv, Books, Evict;
    LandedReply(st, a, reply, verdict);
    var kept := Normalise(reply, verdict);
    if ReplySize(kept) <= st.config.maxBytes {
      var e := st.streams[a.stream].inFlight[a.sequence];
      var k := CachedKey(a.stream, a.sequence);
      NewestIsKept(Insert(Land(st, a), k, CachedResult(e.requestId, e.digest, kept, ReplySize(kept))));
    }
  }

  /** Completing an execution takes its sequence out of flight and leaves every other one, and every counter. */
  lemma CompleteEndsOne(st: Ingress, a: Admission, reply: Reply, verdict: Option<Error>, k: StreamKey)
    requires a.Execute? && a.stream in st.streams && a.sequence in st.streams[a.stream].inFlight && k in st.streams
    ensures var (st', r) := Complete(st, a, reply, verdict);
            && r == Ok(()) && st'.grants == st.grants && st'.config == st.config
            && k in st'.streams && st'.streams[k].nextSequence == st.streams[k].nextSequence
            && st'.streams[k].inFlight
               == if k == a.stream then st.streams[k].inFlight - {a.sequence} else st.streams[k].inFlight
  {
    hide Fits, EvictFrom, ReplySize, Normalise;
  }

  // ---------- The partition of consumed sequences ----------

  /** Sequences whose reply is no longer held. */
  function Expired(s: StreamState): set<uint64> {
    set q: uint64 | 1 <= q <= Consumed(s) && q !in s.inFlight && q !in s.cachedSeqs
  }

  /** 1 .. next_sequence-1 is the disjoint union of the sequences in flight, cached and expired. */
  lemma ConsumedIsPartitioned(st: Ingress, k: StreamKey)
    requires Inv(st) && k in st.streams
    ensures var s := st.streams[k];
            && (forall q: uint64 :: q in s.inFlight.Keys + s.cachedSeqs + Expired(s) <==> 1 <= q <= Consumed(s))
            && s.inFlight.Keys !! s.cachedSeqs !! Expired(s)
  {
    assert StreamOk(st.streams[k]);
  }

  /** Admission hands out the next sequence and nothing else changes any counter: an Execute consumes
      exactly Consumed+1, every other answer leaves the whole state as it was. */
  lemma ExecuteConsumesTheNextSequence(st: Ingress, r: Request)
    requires Inv(st)
    ensures var (st', out) := Admit(st, r);
            var key := RequestKey(r);
            if out.Ok? && out.value.Execute?
            then && key in st.streams && key in st'.streams && out.value == Execute(key, r.sequence)
                 && r.sequence == Consumed(st.streams[key]) + 1 == Consumed(st'.streams[key])
                 && st'.streams[key].inFlight == st.streams[key].inFlight[r.sequence := InFlight(r.requestId, r.digest)]
                 && r.sequence !in st.streams[key].inFlight && r.sequence !in st.streams[key].cachedSeqs
                 && (forall k | k in st.streams && k != key :: k in st'.streams && st'.streams[k] == st.streams[k])
            else st' == st
  {
    var key := RequestKey(r);
    if Authorized(st.grants, r) {
      AuthorizedStreamExists(st, r);
      assert StreamOk(st.streams[key]);
    }
  }
}
