// The dynamic route table: whole-view replacement, round robin, staleness.

module RouteModel {
  import opened Wrappers
  import opened UInt64

  datatype Address = Address(transport: string, endpoint: string)

  datatype Entry = Entry(revision: nat, observedAt: int, endpoints: seq<Address>, next: uint64, unavailable: bool)

  datatype Code = InvalidArgument | NotFound | RuntimeUnavailable

  type Table = map<string, Entry>

  predicate Complete(endpoints: seq<Address>) {
    forall i | 0 <= i < |endpoints| :: endpoints[i].transport != "" && endpoints[i].endpoint != ""
  }

  /** The de-duplicating loop as a function of what it has read. */
  function Unique(endpoints: seq<Address>): seq<Address> {
    if endpoints == [] then []
    else
      var n := |endpoints| - 1;
      var u := Unique(endpoints[..n]);
      if endpoints[n] in u then u else u + [endpoints[n]]
  }

  predicate FirstAt(endpoints: seq<Address>, a: Address, i: nat) {
    i < |endpoints| && endpoints[i] == a && a !in endpoints[..i]
  }

  /** Each address once, all of them, in the order of their first occurrences. */
  lemma {:induction false} UniqueKeepsFirstOccurrences(endpoints: seq<Address>)
    ensures forall a :: a in Unique(endpoints) <==> a in endpoints
    ensures forall j, k | 0 <= j < k < |Unique(endpoints)| :: Unique(endpoints)[j] != Unique(endpoints)[k]
    ensures forall j: nat, k: nat, p: nat, q: nat | j < k < |Unique(endpoints)|
      && FirstAt(endpoints, Unique(endpoints)[j], p) && FirstAt(endpoints, Unique(endpoints)[k], q) :: p < q
    decreases |endpoints|
  {
    if endpoints != [] {
      var n := |endpoints| - 1;
      var u, less := Unique(endpoints), endpoints[..n];
      UniqueKeepsFirstOccurrences(less);
      assert endpoints == less + [endpoints[n]] && endpoints[..n] == less;
      forall j: nat, k: nat, p: nat, q: nat | j < k < |u| && FirstAt(endpoints, u[j], p) && FirstAt(endpoints, u[k], q)
        ensures p < q
      {
        assert u[j] in Unique(less) && u[j] in less;
        assert less[..p] == endpoints[..p];
        assert FirstAt(less, u[j], p);
        if q < n {
          assert less[..q] == endpoints[..q];
          assert FirstAt(less, u[k], q);
          assert u[k] in less;
        }
      }
    }
  }

  predicate SameView(t: Table, service: string, endpoints: seq<Address>) {
    (if service in t then t[service].endpoints else []) == Unique(endpoints)
  }

  predicate Accepted(service: string, endpoints: seq<Address>) {
    service != "" && Complete(endpoints)
  }

  function Replaced(t: Table, service: string, revision: nat, endpoints: seq<Address>, now: int): Table {
    if Accepted(service, endpoints) then
      var next := if service in t && SameView(t, service, endpoints) then t[service].next else 0;
      t[service := Entry(revision, now, Unique(endpoints), next, false)]
    else
      t
  }

  function Marked(t: Table, service: string): Table {
    if service in t then t[service := t[service].(unavailable := true, endpoints := [])] else t
  }

  function Refusal(t: Table, staleLimit: nat, service: string, now: int): Option<Code> {
    if service !in t then Some(NotFound)
    else if t[service].unavailable then Some(RuntimeUnavailable)
    else if t[service].endpoints == [] then Some(NotFound)
    else if now - t[service].observedAt > staleLimit then Some(RuntimeUnavailable)
    else None
  }

  function Pick(e: Entry): nat
    requires e.endpoints != []
  {
    e.next % |e.endpoints|
  }

  function Resolved(t: Table, staleLimit: nat, service: string, now: int): (Table, Result<Address, Code>) {
    match Refusal(t, staleLimit, service, now)
    case Some(code) => (t, Err(code))
    case None =>
      var e := t[service];
      (t[service := e.(next := Increment(e.next))], Ok(e.endpoints[Pick(e)]))
  }
}

module RouteTableObject {
  import opened Wrappers
  import opened UInt64
  import opened RouteModel

  class DynamicRouteTable {
    const staleLimit: nat
    var entries: Table

    constructor (staleLimit: nat)
      ensures entries == map[] && this.staleLimit == staleLimit
    {
      this.staleLimit := staleLimit;
      entries := map[];
    }

    method Replace(service: string, revision: nat, endpoints: seq<Address>, now: int) returns (r: Option<Code>)
      modifies this
      ensures entries == Replaced(old(entries), service, revision, endpoints, now)
      ensures r == if Accepted(service, endpoints) then None else Some(InvalidArgument)
      ensures r.Some? <==>
        service == "" || exists i ::
          0 <= i < |endpoints| && (endpoints[i].transport == "" || endpoints[i].endpoint == "")
      ensures r.Some? ==> entries == old(entries)
      ensures r.None? ==> service in entries && entries == old(entries)[service := entries[service]]
      ensures r.None? ==>
        var e := entries[service];
        && e.revision == revision && e.observedAt == now && !e.unavailable && e.endpoints == Unique(endpoints)
        && e.next == if service in old(entries) && old(entries)[service].endpoints == e.endpoints
                     then old(entries)[service].next else 0
    {
      if service == "" {
        return Some(InvalidArgument);
      }
      for i := 0 to |endpoints|
        invariant Complete(endpoints[..i])
      {
        if endpoints[i].transport == "" || endpoints[i].endpoint == "" {
          return Some(InvalidArgument);
        }
      }
      assert endpoints[..|endpoints|] == endpoints;
      var unique := Deduplicate(endpoints);
      var next: uint64 := 0;
      if service in entries && entries[service].endpoints == unique {
        next := entries[service].next;
      }
      entries := entries[service := Entry(revision, now, unique, next, false)];
      return None;
    }

    method Deduplicate(endpoints: seq<Address>) returns (unique: seq<Address>)
      ensures unique == Unique(endpoints)
    {
      unique := [];
      for i := 0 to |endpoints|
        invariant unique == Unique(endpoints[..i])
      {
        assert endpoints[..i + 1][..i] == endpoints[..i];
        var seen := false;
        for k := 0 to |unique|
          invariant seen <==> endpoints[i] in unique[..k]
        {
          seen := seen || unique[k] == endpoints[i];
        }
        assert unique[..|unique|] == unique;
        if !seen {
          unique := unique + [endpoints[i]];
        }
      }
      assert endpoints[..|endpoints|] == endpoints;
    }

    method Resolve(service: string, now: int) returns (r: Result<Address, Code>)
      modifies this
      ensures entries == Resolved(old(entries), staleLimit, service, now).0
      ensures r == Resolved(old(entries), staleLimit, service, now).1
      ensures r == Err(NotFound) <==>
        service !in old(entries) || (!old(entries)[service].unavailable && old(entries)[service].endpoints == [])
      ensures r == Err(RuntimeUnavailable) <==>
        service in old(entries) && var e := old(entries)[service];
          e.unavailable || (e.endpoints != [] && now > e.observedAt + staleLimit)
      ensures r.Err? ==> r.error in {NotFound, RuntimeUnavailable} && entries == old(entries)
      ensures r.Ok? ==>
        var e := old(entries)[service];
        && r.value == e.endpoints[e.next % |e.endpoints|]
        && entries == old(entries)[service := e.(next := if e.next == MAX64 then 0 else e.next + 1)]
    {
      if service !in entries {
        return Err(NotFound);
      }
      var e := entries[service];
      if e.unavailable {
        return Err(RuntimeUnavailable);
      }
      if e.endpoints == [] {
        return Err(NotFound);
      }
      if now - e.observedAt > staleLimit {
        return Err(RuntimeUnavailable);
      }
      var at := e.next % |e.endpoints|;
      entries := entries[service := e.(next := Increment(e.next))];
      return Ok(e.endpoints[at]);
    }

    method MarkUnavailable(service: string)
      modifies this
      ensures entries == Marked(old(entries), service)
      ensures entries.Keys == old(entries).Keys
      ensures forall s | s in entries && s != service :: entries[s] == old(entries)[s]
      ensures service in entries ==> entries[service].unavailable && entries[service].endpoints == []
    {
      if service in entries {
        entries := entries[service := entries[service].(unavailable := true, endpoints := [])];
      }
    }
  }
}

module RouteRuns {
  import opened Wrappers
  import opened UInt64
  import opened RouteModel

  datatype Event =
    | Replace(service: string, revision: nat, endpoints: seq<Address>, now: int)
    | Mark(service: string)
    | Resolve(service: string, now: int)

  function Next(limit: nat, t: Table, e: Event): Table {
    match e
    case Replace(service, revision, endpoints, now) => Replaced(t, service, revision, endpoints, now)
    case Mark(service) => Marked(t, service)
    case Resolve(service, now) => Resolved(t, limit, service, now).0
  }

  function Run(limit: nat, t: Table, events: seq<Event>): Table
    decreases |events|
  {
    if events == [] then t else Next(limit, Run(limit, t, events[..|events| - 1]), events[|events| - 1])
  }

  // ---------- Freshness ----------

  /** The view in force for a service: the last accepted snapshot, not marked unavailable since. */
  predicate InForce(events: seq<Event>, service: string, i: nat) {
    && i < |events| && events[i].Replace? && events[i].service == service && Accepted(service, events[i].endpoints)
    && forall k | i < k < |events| && events[k].service == service ::
         events[k].Resolve? || (events[k].Replace? && !Accepted(service, events[k].endpoints))
  }

  lemma {:induction false} EntryIsLastSnapshot(limit: nat, events: seq<Event>, service: string) returns (i: nat)
    requires service in Run(limit, map[], events) && !Run(limit, map[], events)[service].unavailable
    ensures InForce(events, service, i)
    ensures var e := Run(limit, map[], events)[service];
      e.endpoints == Unique(events[i].endpoints) && e.observedAt == events[i].now
    decreases |events|
  {
    var n := |events| - 1;
    var last, before := events[n], Run(limit, map[], events[..n]);
    if last.service == service && last.Replace? && Accepted(service, last.endpoints) {
      return n;
    }
    i := EntryIsLastSnapshot(limit, events[..n], service);
    assert events[i] == events[..n][i];
    forall k | i < k < |events| && events[k].service == service
      ensures events[k].Resolve? || (events[k].Replace? && !Accepted(service, events[k].endpoints))
    {
      if k < n {
        assert events[..n][k] == events[k];
      }
    }
  }

  /** A resolved address comes from the snapshot in force, which is no older than the stale limit. */
  lemma ResolvedAddressIsFresh(limit: nat, events: seq<Event>, service: string, now: int) returns (i: nat)
    requires Resolved(Run(limit, map[], events), limit, service, now).1.Ok?
    ensures InForce(events, service, i) && now - events[i].now <= limit
    ensures Resolved(Run(limit, map[], events), limit, service, now).1.value in events[i].endpoints
  {
    i := EntryIsLastSnapshot(limit, events, service);
    UniqueKeepsFirstOccurrences(events[i].endpoints);
  }

  // ---------- Fairness ----------

  /** No event changes the view of the service: refreshes repeat it, and nothing marks it unavailable. */
  predicate Steady(limit: nat, t: Table, service: string, events: seq<Event>)
    decreases |events|
  {
    events == [] ||
    (var before, last := events[..|events| - 1], events[|events| - 1];
     && Steady(limit, t, service, before)
     && (last.service == service ==>
          && !last.Mark?
          && (last.Replace? && Accepted(service, last.endpoints)
            ==> SameView(Run(limit, t, before), service, last.endpoints))))
  }

  /** The positions the successful resolves of the service use, in order. */
  function Picks(limit: nat, t: Table, service: string, events: seq<Event>): seq<nat>
    decreases |events|
  {
    if events == [] then []
    else
      var before, last := events[..|events| - 1], events[|events| - 1];
      var s := Run(limit, t, before);
      var picks := Picks(limit, t, service, before);
      if Counts(s, limit, service, last) then
        picks + [Pick(s[service])]
      else
        picks
  }

  predicate Counts(t: Table, limit: nat, service: string, e: Event) {
    e.Resolve? && e.service == service && Refusal(t, limit, service, e.now).None?
  }

  lemma OneEvent(limit: nat, t: Table, service: string, e: Event)
    requires service in t && t[service].endpoints != []
    requires e.service == service ==>
      !e.Mark? && (e.Replace? && Accepted(service, e.endpoints) ==> SameView(t, service, e.endpoints))
    ensures var t' := Next(limit, t, e);
      && service in t' && t'[service].endpoints == t[service].endpoints
      && t'[service].next == if Counts(t, limit, service, e) then Increment(t[service].next) else t[service].next
  {
  }

  lemma CursorAdvances(start: uint64, m: nat)
    requires start + m < TWO64
    ensures Increment((start + m) % TWO64) == (start + m + 1) % TWO64
  {
  }

  function Around(start: nat, j: nat, n: nat): nat
    requires n > 0
  {
    (start + j) % n
  }

  lemma PickIsAround(e: Entry, start: uint64, m: nat)
    requires e.endpoints != [] && start + m < TWO64 && e.next == (start + m) % TWO64
    ensures Pick(e) == Around(start, m, |e.endpoints|)
  {
  }

  /** Until the cursor wraps the picks simply count up. */
  lemma {:induction false} PicksCountUp(limit: nat, t: Table, service: string, events: seq<Event>)
    requires service in t && t[service].endpoints != [] && Steady(limit, t, service, events)
    requires t[service].next + |Picks(limit, t, service, events)| <= TWO64
    ensures var s := Run(limit, t, events); var picks := Picks(limit, t, service, events);
      && service in s && s[service].endpoints == t[service].endpoints
      && s[service].next == (t[service].next + |picks|) % TWO64
      && forall j | 0 <= j < |picks| :: picks[j] == Around(t[service].next, j, |t[service].endpoints|)
    decreases |events|
  {
    if events != [] {
      var before, last := events[..|events| - 1], events[|events| - 1];
      PicksCountUp(limit, t, service, before);
      OneEvent(limit, Run(limit, t, before), service, last);
      hide Next, SameView, Refusal, Increment, Counts, Accepted, Pick, Around;
      if Counts(Run(limit, t, before), limit, service, last) {
        CursorAdvances(t[service].next, |Picks(limit, t, service, before)|);
        PickIsAround(Run(limit, t, before)[service], t[service].next, |Picks(limit, t, service, before)|);
      }
    }
  }

  function Count<T(==)>(picks: seq<T>, c: T): nat {
    if picks == [] then 0 else Count(picks[..|picks| - 1], c) + (if picks[|picks| - 1] == c then 1 else 0)
  }

  lemma NextRemainder(x: nat, n: nat)
    requires n > 0
    ensures (x + 1) % n == if x % n == n - 1 then 0 else x % n + 1
  {
    var q, r := x / n, x % n;
    assert x == n * q + r;
    if r == n - 1 {
      assert x + 1 == n * (q + 1) + 0;
      RemainderIs(x + 1, n, q + 1, 0);
    } else {
      RemainderIs(x + 1, n, q, r + 1);
    }
  }

  lemma Multiple(n: nat, d: int)
    ensures d >= 1 ==> n * d >= n
    ensures d <= -1 ==> n * d + n <= 0
  {
  }

  lemma RemainderIs(x: int, n: nat, q: int, r: nat)
    requires n > 0 && r < n && x == n * q + r
    ensures x % n == r
  {
    var d := x / n - q;
    Multiple(n, d);
    assert n * d == r - x % n;
  }

  /** How far position c is ahead of position d when the next pick is x. */
  function Lead(x: nat, n: nat, c: nat, d: nat): int
    requires n > 0
  {
    if c < x % n <= d then 1 else 0
  }

  lemma {:induction false} CountsFollowLead(picks: seq<nat>, start: nat, n: nat, c: nat, d: nat)
    requires c < d < n && forall j | 0 <= j < |picks| :: picks[j] == Around(start, j, n)
    ensures Count(picks, c) - Count(picks, d) == Lead(start + |picks|, n, c, d) - Lead(start, n, c, d)
    decreases |picks|
  {
    if picks != [] {
      var m := |picks| - 1;
      CountsFollowLead(picks[..m], start, n, c, d);
      NextRemainder(start + m, n);
      assert start + |picks| == (start + m) + 1;
    }
  }

  /** Between two changes of the view, and as long as the 64-bit cursor does not wrap, any two positions are used
      equally often up to one. */
  lemma PositionsAreUsedEvenly(limit: nat, t: Table, service: string, events: seq<Event>, c: nat, d: nat)
    requires service in t && c < |t[service].endpoints| && d < |t[service].endpoints|
    requires Steady(limit, t, service, events)
    requires t[service].next + |Picks(limit, t, service, events)| <= TWO64
    ensures -1 <= Count(Picks(limit, t, service, events), c) - Count(Picks(limit, t, service, events), d) <= 1
  {
    PicksCountUp(limit, t, service, events);
    hide Picks, Steady, Run;
    var picks, n := Picks(limit, t, service, events), |t[service].endpoints|;
    if c < d {
      CountsFollowLead(picks, t[service].next, n, c, d);
    } else if d < c {
      CountsFollowLead(picks, t[service].next, n, d, c);
    }
  }

  // ---------- The answers themselves ----------

  /** The addresses that the resolves of the service return during a run, in order. */
  function Answers(limit: nat, t: Table, service: string, events: seq<Event>): seq<Address>
    decreases |events|
  {
    if events == [] then []
    else
      var before, last := events[..|events| - 1], events[|events| - 1];
      Answers(limit, t, service, before)
      + (if last.Resolve? && last.service == service then
           match Resolved(Run(limit, t, before), limit, service, last.now).1
           case Ok(address) => [address]
           case Err(_) => []
         else
           [])
  }

  /** The endpoints at the given positions. */
  predicate PickedFrom(endpoints: seq<Address>, picks: seq<nat>, answers: seq<Address>) {
    |answers| == |picks| && forall j | 0 <= j < |picks| :: picks[j] < |endpoints| && answers[j] == endpoints[picks[j]]
  }

  lemma {:induction false} AnswersFollowPicks(limit: nat, t: Table, service: string, events: seq<Event>)
    requires service in t && t[service].endpoints != [] && Steady(limit, t, service, events)
    ensures service in Run(limit, t, events) && Run(limit, t, events)[service].endpoints == t[service].endpoints
    ensures PickedFrom(t[service].endpoints, Picks(limit, t, service, events), Answers(limit, t, service, events))
    decreases |events|
  {
    if events != [] {
      var before, last := events[..|events| - 1], events[|events| - 1];
      AnswersFollowPicks(limit, t, service, before);
      OneEvent(limit, Run(limit, t, before), service, last);
    }
  }

  /** Between two changes of the view, and until the cursor wraps, the answers go round the view in its order,
      starting where the cursor stands. */
  lemma AnswersGoRound(limit: nat, t: Table, service: string, events: seq<Event>, j: nat)
    requires service in t && t[service].endpoints != [] && Steady(limit, t, service, events)
    requires t[service].next + |Answers(limit, t, service, events)| <= TWO64
    requires j < |Answers(limit, t, service, events)|
    ensures Answers(limit, t, service, events)[j]
      == t[service].endpoints[(t[service].next + j) % |t[service].endpoints|]
  {
    AnswersFollowPicks(limit, t, service, events);
    PicksCountUp(limit, t, service, events);
    hide Picks, Steady, Run, Answers;
    assert Around(t[service].next, j, |t[service].endpoints|) == (t[service].next + j) % |t[service].endpoints|;
  }

  lemma {:induction false} CountsAgree(endpoints: seq<Address>, picks: seq<nat>, answers: seq<Address>, c: nat)
    requires PickedFrom(endpoints, picks, answers) && c < |endpoints|
    requires forall i, j | 0 <= i < j < |endpoints| :: endpoints[i] != endpoints[j]
    ensures Count(answers, endpoints[c]) == Count(picks, c)
    decreases |picks|
  {
    if picks != [] {
      var n := |picks| - 1;
      CountsAgree(endpoints, picks[..n], answers[..n], c);
    }
  }

  /** Between two changes of the view, and until the cursor wraps, no address of the view is returned more than
      once oftener than any other. */
  lemma RoundRobinIsFair(limit: nat, t: Table, service: string, events: seq<Event>, a: Address, b: Address)
    requires service in t && a in t[service].endpoints && b in t[service].endpoints
    requires forall i, j | 0 <= i < j < |t[service].endpoints| :: t[service].endpoints[i] != t[service].endpoints[j]
    requires Steady(limit, t, service, events)
    requires t[service].next + |Answers(limit, t, service, events)| <= TWO64
    ensures -1 <= Count(Answers(limit, t, service, events), a) - Count(Answers(limit, t, service, events), b) <= 1
  {
    AnswersFollowPicks(limit, t, service, events);
    var view, picks := t[service].endpoints, Picks(limit, t, service, events);
    var c :| 0 <= c < |view| && view[c] == a;
    var d :| 0 <= d < |view| && view[d] == b;
    PositionsAreUsedEvenly(limit, t, service, events, c, d);
    CountsAgree(view, picks, Answers(limit, t, service, events), c);
    CountsAgree(view, picks, Answers(limit, t, service, events), d);
  }

  /** A view never lists an address twice, over any run. */
  lemma {:induction false} ViewsHaveNoRepeats(limit: nat, events: seq<Event>, service: string)
    requires service in Run(limit, map[], events)
    ensures var view := Run(limit, map[], events)[service].endpoints;
      forall i, j | 0 <= i < j < |view| :: view[i] != view[j]
    decreases |events|
  {
    var before, last := events[..|events| - 1], events[|events| - 1];
    if service in Run(limit, map[], before) {
      ViewsHaveNoRepeats(limit, before, service);
    }
    if last.Replace? {
      UniqueKeepsFirstOccurrences(last.endpoints);
    }
  }

  /** The step of the cursor to the following endpoint is lost exactly at a wrap, and only if the number of
      endpoints does not divide 2^64. */
  lemma WrapSkipsIff(next: uint64, n: nat)
    requires n > 0
    ensures Increment(next) % n == (next % n + 1) % n <==> next < MAX64 || TWO64 % n == 0
  {
    var r := next % n;
    RemainderIs(r, n, 0, r);
    NextRemainder(next, n);
    NextRemainder(r, n);
    RemainderIs(0, n, 0, 0);
  }

  /** With three endpoints the wrap repeats one: two resolves in a row return the first. */
  lemma SameEndpointTwiceAtTheWrap(a: Address, b: Address, c: Address)
    ensures var t := map["s" := Entry(0, 0, [a, b, c], MAX64, false)];
      Answers(5000, t, "s", [Resolve("s", 1), Resolve("s", 2)]) == [a, a]
  {
    var t := map["s" := Entry(0, 0, [a, b, c], MAX64, false)];
    var events := [Resolve("s", 1), Resolve("s", 2)];
    assert events[..1] == [Resolve("s", 1)] && events[..1][..0] == [];
    assert Run(5000, t, events[..1]) == map["s" := Entry(0, 0, [a, b, c], 0, false)];
    assert Answers(5000, t, "s", events[..1]) == [a];
  }
}
