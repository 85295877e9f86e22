// The critical sections App.cc builds from several registry operations.

module AppObject {
  import opened Wrappers
  import opened ComponentGraph
  import opened RegistryModel
  import opened RegistryProofs
  import opened RegistryRecords
  import opened RegistryObject

  // ---------- Edges of one subject, component by component ----------

  function RetiredIn(edges: map<nat, Binding>, s: ObjectId, cs: set<ObjectId>): map<nat, Binding> {
    map g | g in edges ::
      if edges[g].subject == s && edges[g].component in cs then edges[g].(retiring := true) else edges[g]
  }

  /** With at most one active edge for each component, retiring one edge per component retires them all. */
  lemma RetireOne(t: Table, cs: set<ObjectId>, c: ObjectId, s: ObjectId, g: nat)
    requires ActiveUnique(t) && ActiveEdge(t, g, s, c) && c !in cs
    ensures g in RetiredIn(t.edges, s, cs)
    ensures RetiredIn(t.edges, s, cs)[g := RetiredIn(t.edges, s, cs)[g].(retiring := true)]
      == RetiredIn(t.edges, s, cs + {c})
  {
    forall h | h in t.edges && t.edges[h].subject == s && t.edges[h].component == c && h != g
      ensures t.edges[h].retiring
    {
      assert !ActiveEdge(t, h, s, c);
    }
  }

  lemma RetireNone(t: Table, cs: set<ObjectId>, c: ObjectId, s: ObjectId)
    requires !HasActiveEdge(t.(edges := RetiredIn(t.edges, s, cs)), s, c)
    ensures RetiredIn(t.edges, s, cs) == RetiredIn(t.edges, s, cs + {c})
  {
    var t' := t.(edges := RetiredIn(t.edges, s, cs));
    forall h | h in t.edges && t.edges[h].subject == s && t.edges[h].component == c ensures t'.edges[h].retiring {
      assert !ActiveEdge(t', h, s, c);
    }
  }

  lemma RetireWhole(t: Table, cs: set<ObjectId>, s: ObjectId)
    requires forall g | g in t.edges :: t.edges[g].component in cs
    ensures t.(edges := RetiredIn(t.edges, s, cs)) == RetireSubject(t, s)
  {
  }

  lemma EraseMore(edges: map<nat, Binding>, s: ObjectId, cs: set<ObjectId>, c: ObjectId)
    ensures ErasedIn(ErasedIn(edges, s, cs), s, {c}) == ErasedIn(edges, s, cs + {c})
  {
  }

  lemma EraseWhole(t: Table, cs: set<ObjectId>, s: ObjectId)
    requires forall g | g in t.edges :: t.edges[g].component in cs
    ensures t.(edges := ErasedIn(t.edges, s, cs)) == EraseSubject(t, s)
  {
  }

  /** The loop over the components has come as far as `done`. */
  predicate RetiredSoFar(before: Table, now: Table, s: ObjectId, done: set<ObjectId>) {
    match before
    case Table(_, edges, _, _) => now == before.(edges := RetiredIn(edges, s, done))
  }

  predicate ErasedSoFar(before: Table, now: Table, s: ObjectId, done: set<ObjectId>) {
    match before
    case Table(_, edges, _, _) => now == before.(edges := ErasedIn(edges, s, done))
  }

  /** The list a loop over the components goes through. */
  ghost predicate ListsComponents(t: Table, ids: seq<ObjectId>) {
    match t
    case Table(_, _, _, _) =>
      && (forall c :: c in ids <==> IsComponent(t, c))
      && (forall i, j | 0 <= i < j < |ids| :: ids[i] != ids[j])
  }

  function Firsts(ids: seq<ObjectId>, n: nat): set<ObjectId>
    requires n <= |ids|
  {
    set i | 0 <= i < n :: ids[i]
  }

  lemma NextComponent(t: Table, ids: seq<ObjectId>, n: nat)
    requires ListsComponents(t, ids) && n < |ids|
    ensures IsComponent(t, ids[n]) && ids[n] !in Firsts(ids, n)
    ensures Firsts(ids, n + 1) == Firsts(ids, n) + {ids[n]}
  {
    assert ids[n] in ids;
  }

  lemma AllComponents(t: Table, ids: seq<ObjectId>)
    requires ListsComponents(t, ids)
    ensures Firsts(ids, 0) == {} && forall c | IsComponent(t, c) :: c in Firsts(ids, |ids|)
  {
    forall c | IsComponent(t, c) ensures c in Firsts(ids, |ids|) {
      assert c in ids;
    }
  }

  lemma NothingDoneYet(t: Table, s: ObjectId)
    ensures RetiredSoFar(t, t, s, {}) && ErasedSoFar(t, t, s, {})
  {
    assert RetiredIn(t.edges, s, {}) == t.edges && ErasedIn(t.edges, s, {}) == t.edges;
  }

  lemma AllRetired(before: Table, now: Table, s: ObjectId, done: set<ObjectId>)
    requires EdgesOk(before) && (forall c | IsComponent(before, c) :: c in done) && RetiredSoFar(before, now, s, done)
    ensures now == RetireSubject(before, s)
  {
    RetireWhole(before, done, s);
  }

  lemma AllErased(before: Table, now: Table, s: ObjectId, done: set<ObjectId>)
    requires EdgesOk(before) && (forall c | IsComponent(before, c) :: c in done) && ErasedSoFar(before, now, s, done)
    ensures now == EraseSubject(before, s)
  {
    EraseWhole(before, done, s);
  }

  /** The retiring edges of the subject in the components of `done`. */
  ghost predicate Collected(edges: map<nat, Binding>, found: seq<nat>, s: ObjectId, done: set<ObjectId>) {
    forall g :: g in found <==> RetiringEdgeIn(edges, g, s, done)
  }

  predicate RetiringEdgeIn(edges: map<nat, Binding>, g: nat, s: ObjectId, done: set<ObjectId>) {
    g in edges && edges[g].subject == s && edges[g].retiring && edges[g].component in done
  }

  lemma OneMoreCollected(edges: map<nat, Binding>, found: seq<nat>, more: seq<nat>, s: ObjectId, done: set<ObjectId>,
      c: ObjectId)
    requires Collected(edges, found, s, done)
    requires forall g :: g in more <==> (g in found || RetiringEdge(edges, g, s, c))
    ensures Collected(edges, more, s, done + {c})
  {
    forall g ensures g in more <==> RetiringEdgeIn(edges, g, s, done + {c}) {
      assert g in found <==> RetiringEdgeIn(edges, g, s, done);
    }
  }

  // ---------- Stopping in reverse order ----------

  predicate UsersFirst(t: Table, list: seq<ObjectId>) {
    forall i, j | 0 <= i < |list| && 0 <= j < |list| && Bound(t, list[i], list[j]) :: i < j
  }

  /** The list goes through positions of the order from high to low, all from `low` on. */
  predicate Backwards(order: seq<ObjectId>, list: seq<ObjectId>, positions: seq<nat>, low: nat) {
    && |positions| == |list|
    && (forall i | 0 <= i < |list| :: low <= positions[i] < |order| && order[positions[i]] == list[i])
    && (forall i, j | 0 <= i < j < |list| :: positions[j] < positions[i])
  }

  method SplitBackwards(order: seq<ObjectId>, appScope: set<ObjectId>)
    returns (scoped: seq<ObjectId>, app: seq<ObjectId>, ghost p: seq<nat>, ghost q: seq<nat>)
    ensures Backwards(order, scoped, p, 0) && Backwards(order, app, q, 0)
    ensures forall c :: c in scoped <==> c in order && c !in appScope
    ensures forall c :: c in app <==> c in order && c in appScope
  {
    scoped, app, p, q := [], [], [], [];
    var i: nat := |order|;
    while i > 0
      invariant i <= |order| && Backwards(order, scoped, p, i) && Backwards(order, app, q, i)
      invariant forall c :: c in scoped <==> c in order[i..] && c !in appScope
      invariant forall c :: c in app <==> c in order[i..] && c in appScope
    {
      i := i - 1;
      assert order[i..] == [order[i]] + order[i + 1..];
      if order[i] in appScope {
        app, q := app + [order[i]], q + [i];
      } else {
        scoped, p := scoped + [order[i]], p + [i];
      }
    }
  }

  lemma BackwardsIsUsersFirst(t: Table, order: seq<ObjectId>, list: seq<ObjectId>, positions: seq<nat>)
    requires Distinct(order) && Backwards(order, list, positions, 0) && forall c | c in list :: IsComponent(t, c)
    requires forall i, d | 0 <= i < |order| && IsComponent(t, d) && Bound(t, order[i], d) :: d in order[..i]
    ensures UsersFirst(t, list)
  {
    forall i, j | 0 <= i < |list| && 0 <= j < |list| && Bound(t, list[i], list[j]) ensures i < j {
      assert list[j] in list && list[j] in order[..positions[i]];
      var k :| 0 <= k < positions[i] && order[k] == list[j];
    }
  }

  // ---------- The dependency graph ----------

  lemma BoundIsListed(e: Entry, edges: map<nat, Binding>, a: ObjectId)
    requires EntryTied(e, edges)
    ensures (exists g :: g in edges && edges[g].subject == a && edges[g].component == e.id)
      <==> exists j | 0 <= j < |e.bindings| :: e.bindings[j].subject == a
  {
    if g :| g in edges && edges[g].subject == a && edges[g].component == e.id {
      var j :| 0 <= j < |e.bindings| && e.bindings[j].generation == g;
      assert e.bindings[j].subject == a;
    }
    if j :| 0 <= j < |e.bindings| && e.bindings[j].subject == a {
      assert e.bindings[j].generation in edges;
    }
  }

  /** One copy of `target` for each binding of the subject in its list. */
  method AddTargets(rs: seq<Record>, subject: ObjectId, target: ObjectId, out: seq<ObjectId>)
    returns (more: seq<ObjectId>)
    ensures forall d :: d in more <==> d in out || (d == target && exists j | 0 <= j < |rs| :: rs[j].subject == subject)
  {
    more := out;
    var j := 0;
    while j < |rs|
      invariant j <= |rs|
      invariant forall d ::
        d in more <==> d in out || (d == target && exists k | 0 <= k < j :: rs[k].subject == subject)
    {
      if rs[j].subject == subject {
        more := more + [target];
      }
      j := j + 1;
    }
  }

  class CoApp {
    const registry: Registry

    constructor (registry: Registry)
      ensures this.registry == registry
    {
      this.registry := registry;
    }

    method ComponentIds() returns (ids: seq<ObjectId>)
      requires registry.Valid()
      ensures forall c :: c in ids <==> IsComponent(registry.State(), c)
      ensures forall i, j | 0 <= i < j < |ids| :: ids[i] != ids[j]
    {
      ids := [];
      var i := 0;
      while i < |registry.entries|
        invariant i <= |registry.entries|
        invariant forall c :: c in ids <==> IsComponent(registry.State(), c) && registry.index[c] < i
        invariant forall k, m | 0 <= k < m < |ids| :: ids[k] != ids[m]
      {
        registry.ObjectAt(registry.entries[i].id);
        if registry.entries[i].kind == Component {
          ids := ids + [registry.entries[i].id];
        }
        i := i + 1;
      }
    }

    /** The components `subject` is bound to, retiring bindings included. */
    method DependenciesOf(subject: ObjectId, ids: seq<ObjectId>) returns (out: seq<ObjectId>)
      requires registry.Valid() && forall c :: c in ids <==> IsComponent(registry.State(), c)
      ensures forall d :: d in out <==> IsComponent(registry.State(), d) && Bound(registry.State(), subject, d)
    {
      out := [];
      hide Tied, Objects, EntryTied;
      var i := 0;
      while i < |ids|
        invariant i <= |ids|
        invariant forall d :: d in out <==> d in ids[..i] && Bound(registry.State(), subject, d)
      {
        var c := ids[i];
        assert c in ids;
        registry.ObjectAt(c);
        var e := registry.entries[registry.index[c]];
        BoundIsListed(e, registry.edges, subject);
        out := AddTargets(e.bindings, subject, c, out);
        assert ids[..i + 1] == ids[..i] + [c];
        i := i + 1;
      }
      assert ids[..i] == ids;
    }

    method BuildGraph(ids: seq<ObjectId>) returns (deps: Graph)
      requires registry.Valid() && forall c :: c in ids <==> IsComponent(registry.State(), c)
      ensures ClosedGraph(deps) && SameEdges(deps, GraphOf(registry.State()))
      ensures forall c :: c in deps <==> c in ids
    {
      deps := map[];
      hide Tied, Objects;
      var i := 0;
      while i < |ids|
        invariant i <= |ids|
        invariant forall c :: c in deps <==> c in ids[..i]
        invariant forall a, d | a in deps ::
          d in deps[a] <==> IsComponent(registry.State(), d) && Bound(registry.State(), a, d)
      {
        var out := DependenciesOf(ids[i], ids);
        deps := deps[ids[i] := out];
        assert ids[..i + 1] == ids[..i] + [ids[i]];
        i := i + 1;
      }
      assert ids[..i] == ids;
      forall a, d | a in deps && d in deps[a] ensures d in deps {
        assert IsComponent(registry.State(), d);
      }
      forall a, d ensures Edge(deps, a, d) <==> Edge(GraphOf(registry.State()), a, d) {
        GraphEdge(registry.State(), a, d);
      }
    }

    /** ComponentStartOrderLocked: every component once; the flag is raised iff the graph has a cycle; without one
        whatever a component is bound to comes before it. */
    method ComponentStartOrder() returns (order: seq<ObjectId>, hadCycle: bool)
      requires registry.Valid()
      ensures Distinct(order) && forall c :: c in order <==> IsComponent(registry.State(), c)
      ensures hadCycle <==> !Acyclic(registry.State())
      ensures Acyclic(registry.State()) ==> forall i, d | 0 <= i < |order| && IsComponent(registry.State(), d)
        && Bound(registry.State(), order[i], d) :: d in order[..i]
    {
      var ids := ComponentIds();
      var deps := BuildGraph(ids);
      ghost var g := GraphOf(registry.State());
      if Cyclic(deps) {
        assert SubGraph(deps, g);
        if !Cyclic(g) { FewerEdgesStayAcyclic(g, deps); }
      } else if Cyclic(g) {
        FewerEdgesStayAcyclic(deps, g);
      }
      order, hadCycle := StartOrder(deps, ids);
      if Acyclic(registry.State()) {
        forall i, d | 0 <= i < |order| && IsComponent(registry.State(), d) && Bound(registry.State(), order[i], d)
          ensures d in order[..i]
        {
          assert order[i] in order;
          GraphEdge(registry.State(), order[i], d);
          assert Edge(deps, order[i], d);
          assert Precedes(order, d, i);
        }
      }
    }

    /** The two component passes of _StopAll: the start order reversed, scoped components apart from those of App
        scope.  Within each pass every user comes before what it is bound to. */
    method StopOrder(appScope: set<ObjectId>) returns (scoped: seq<ObjectId>, app: seq<ObjectId>)
      requires registry.Valid()
      ensures forall c :: c in scoped <==> IsComponent(registry.State(), c) && c !in appScope
      ensures forall c :: c in app <==> IsComponent(registry.State(), c) && c in appScope
      ensures Acyclic(registry.State()) ==> UsersFirst(registry.State(), scoped) && UsersFirst(registry.State(), app)
    {
      var order, hadCycle := ComponentStartOrder();
      ghost var t := registry.State();
      ghost var p: seq<nat>, q: seq<nat>;
      scoped, app, p, q := SplitBackwards(order, appScope);
      if Acyclic(t) {
        hide Acyclic, Backwards, UsersFirst;
        BackwardsIsUsersFirst(t, order, scoped, p);
        BackwardsIsUsersFirst(t, order, app, q);
      }
    }

    /** _WouldFormCycleLocked. */
    method WouldFormCycle(s: ObjectId, c: ObjectId) returns (yes: bool)
      requires registry.Valid() && IsComponent(registry.State(), c)
      ensures yes <==> ClosesCycle(registry.State(), s, c)
    {
      if s == c {
        return true;
      }
      var ids := ComponentIds();
      var deps := BuildGraph(ids);
      yes := ComponentGraph.WouldFormCycle(deps, s, c);
      SameReach(deps, GraphOf(registry.State()), c, s);
    }

    /** The locked part of _BindComponentImpl.  The lookup of the component by scope, owner, type and name gives
        `found`; `allowed` says whether a service subject declares the component's type. */
    method BindComponent(s: ObjectId, subjectGeneration: nat, allowed: bool, found: Option<ObjectId>)
      returns (r: Result<nat, Code>)
      requires registry.Valid() && TableInv(registry.State())
      requires found.Some? ==> IsComponent(registry.State(), found.value)
      modifies registry
      ensures registry.Valid() && TableInv(registry.State())
      ensures var t := old(registry.State());
        var refusal := BindComponentRefusal(registry.limits, t, s, subjectGeneration, allowed, found);
        && (r.Err? <==> refusal.Some?)
        && (r.Err? ==> r.error == refusal.value && registry.State() == t)
        && (r.Ok? ==> r.value == t.nextGeneration && registry.State() == NewEdge(t, s, found.value))
    {
      registry.ObjectAt(s);
      hide TableInv, Acyclic, ClosesCycle, Tied, Objects, EntryTied, BindRefusal;
      if s !in registry.index || registry.entries[registry.index[s]].generation != subjectGeneration {
        return Err(NotFound);
      }
      var kind := registry.entries[registry.index[s]].kind;
      if kind == App {
        return Err(InvalidArgument);
      }
      if kind == Service && !allowed {
        return Err(InvalidArgument);
      }
      if found.None? {
        return Err(NotFound);
      }
      if kind == Component {
        var cycle := WouldFormCycle(s, found.value);
        if cycle {
          return Err(InvalidArgument);
        }
      }
      r := BindFound(s, found.value);
    }

    method BindFound(s: ObjectId, c: ObjectId) returns (r: Result<nat, Code>)
      requires registry.Valid() && TableInv(registry.State()) && s in registry.State().objects
      requires IsComponent(registry.State(), c)
        && (IsComponent(registry.State(), s) ==> !ClosesCycle(registry.State(), s, c))
      modifies registry
      ensures registry.Valid() && TableInv(registry.State())
      ensures r.Err? ==> Some(r.error) == BindRefusal(registry.limits, old(registry.State()), s, c)
      ensures r.Err? ==> registry.State() == old(registry.State())
      ensures r.Ok? ==> BindRefusal(registry.limits, old(registry.State()), s, c).None?
      ensures r.Ok? ==> r.value == old(registry.State()).nextGeneration
      ensures r.Ok? ==> registry.State() == NewEdge(old(registry.State()), s, c)
    {
      registry.ObjectAt(s);
      registry.ObjectAt(c);
      hide TableInv, Acyclic, ClosesCycle, Tied, Objects, EntryTied, BindRefusal;
      ghost var before := registry.State();
      r := registry.BindLocked(c, s);
      if r.Ok? {
        BindKeepsInv(registry.limits, before, s, c);
      }
    }

    /** _DestroyService: every active edge of the subject retires, one BeginUnbind for each component. */
    method RetireEdgesOf(s: ObjectId)
      requires registry.Valid() && EdgesOk(registry.State()) && ActiveUnique(registry.State())
      modifies registry
      ensures registry.Valid() && registry.State() == RetireSubject(old(registry.State()), s)
    {
      var ids := ComponentIds();
      ghost var before := registry.State();
      assert ListsComponents(before, ids);
      NothingDoneYet(before, s);
      AllComponents(before, ids);
      hide RetiredSoFar, ListsComponents, Firsts, Tied, Objects, Numbered, RetireSubject, EdgesOk, ActiveUnique;
      var i := 0;
      while i < |ids|
        invariant i <= |ids| && registry.Valid()
        invariant RetiredSoFar(before, registry.State(), s, Firsts(ids, i))
      {
        NextComponent(before, ids, i);
        RetireEdgeOf(s, ids[i], before, Firsts(ids, i));
        i := i + 1;
      }
      AllRetired(before, registry.State(), s, Firsts(ids, |ids|));
    }

    method RetireEdgeOf(s: ObjectId, c: ObjectId, ghost before: Table, ghost done: set<ObjectId>)
      requires registry.Valid() && c in before.objects && c !in done && ActiveUnique(before)
      requires RetiredSoFar(before, registry.State(), s, done)
      modifies registry
      ensures registry.Valid()
      ensures RetiredSoFar(before, registry.State(), s, done + {c})
    {
      registry.ObjectAt(c);
      assert c in registry.index;
      hide RetiredSoFar, Tied, Objects, EntryTied, RetiredIn, ActiveUnique, UnbindMeets;
      ghost var now := registry.State();
      var r := registry.BeginUnbind(c, s);
      OneComponentDone(before, now, registry.State(), s, c, done, r);
    }

    /** _DestroyService: the retiring edges of the subject, to be waited for one by one. */
    method RetiringEdgesOf(s: ObjectId) returns (found: seq<nat>)
      requires registry.Valid() && EdgesOk(registry.State())
      ensures forall g :: g in found <==>
        g in registry.edges && registry.edges[g].subject == s && registry.edges[g].retiring
    {
      var ids := ComponentIds();
      assert ListsComponents(registry.State(), ids);
      AllComponents(registry.State(), ids);
      found := [];
      assert Collected(registry.edges, found, s, {});
      var i := 0;
      while i < |ids|
        invariant i <= |ids|
        invariant Collected(registry.edges, found, s, Firsts(ids, i))
      {
        hide Collected, ListsComponents, Firsts, Tied, Objects, EntryTied, EdgesOk;
        NextComponent(registry.State(), ids, i);
        registry.ObjectAt(ids[i]);
        var more := AddRetiring(registry.entries[registry.index[ids[i]]], s, found, registry.edges);
        OneMoreCollected(registry.edges, found, more, s, Firsts(ids, i), ids[i]);
        found := more;
        i := i + 1;
      }
    }

    /** What _DestroyService does to the edges of the subject after OnStop. */
    method EraseEdgesOf(s: ObjectId)
      requires registry.Valid() && EdgesOk(registry.State())
      modifies registry
      ensures registry.Valid() && registry.State() == EraseSubject(old(registry.State()), s)
    {
      var ids := ComponentIds();
      ghost var before := registry.State();
      assert ListsComponents(before, ids);
      NothingDoneYet(before, s);
      AllComponents(before, ids);
      hide ErasedSoFar, ListsComponents, Firsts, Tied, Objects, Numbered, EraseSubject, EdgesOk;
      var i := 0;
      while i < |ids|
        invariant i <= |ids| && registry.Valid()
        invariant ErasedSoFar(before, registry.State(), s, Firsts(ids, i))
      {
        NextComponent(before, ids, i);
        EraseEdgeOf(s, ids[i], before, Firsts(ids, i));
        i := i + 1;
      }
      AllErased(before, registry.State(), s, Firsts(ids, |ids|));
    }

    method EraseEdgeOf(s: ObjectId, c: ObjectId, ghost before: Table, ghost done: set<ObjectId>)
      requires registry.Valid() && c in before.objects && ErasedSoFar(before, registry.State(), s, done)
      modifies registry
      ensures registry.Valid() && ErasedSoFar(before, registry.State(), s, done + {c})
    {
      registry.ObjectAt(c);
      EraseMore(before.edges, s, done, c);
      registry.EraseSubjectBindings(c, s);
    }
  }

  lemma OneComponentDone(before: Table, now: Table, later: Table, s: ObjectId, c: ObjectId, done: set<ObjectId>,
      r: Result<nat, Code>)
    requires ActiveUnique(before) && c !in done && RetiredSoFar(before, now, s, done)
      && UnbindMeets(now, later, s, c, r)
    ensures RetiredSoFar(before, later, s, done + {c})
  {
    if r.Ok? {
      StillActive(before, s, done, c, r.value);
      RetireOne(before, done, c, s, r.value);
    } else {
      RetireNone(before, done, c, s);
    }
  }

  method AddRetiring(e: Entry, s: ObjectId, found: seq<nat>, ghost edges: map<nat, Binding>) returns (more: seq<nat>)
    requires EntryTied(e, edges)
    ensures forall g :: g in more <==> (g in found || RetiringEdge(edges, g, s, e.id))
  {
    more := found;
    var j := 0;
    while j < |e.bindings|
      invariant j <= |e.bindings|
      invariant forall g :: g in more <==> (g in found || exists k | 0 <= k < j :: RetiringRecord(e.bindings[k], g, s))
    {
      if e.bindings[j].subject == s && e.bindings[j].retiring {
        more := more + [e.bindings[j].generation];
      }
      j := j + 1;
    }
    forall g | RetiringEdge(edges, g, s, e.id)
      ensures exists k | 0 <= k < |e.bindings| :: RetiringRecord(e.bindings[k], g, s)
    {
      var k :| 0 <= k < |e.bindings| && e.bindings[k].generation == g;
      assert RetiringRecord(e.bindings[k], g, s);
    }
  }

  predicate RetiringRecord(r: Record, g: nat, s: ObjectId) {
    r.generation == g && r.subject == s && r.retiring
  }

  lemma StillActive(t: Table, s: ObjectId, cs: set<ObjectId>, c: ObjectId, g: nat)
    requires ActiveEdge(t.(edges := RetiredIn(t.edges, s, cs)), g, s, c)
    ensures ActiveEdge(t, g, s, c)
  {
  }

  lemma SameReach(g: Graph, g': Graph, a: ObjectId, b: ObjectId)
    requires SameEdges(g, g')
    ensures Reaches(g, a, b) <==> Reaches(g', a, b)
  {
    if p :| PathBetween(g, p, a, b) {
      assert PathBetween(g', p, a, b);
    }
    if p :| PathBetween(g', p, a, b) {
      assert PathBetween(g, p, a, b);
    }
  }
}
