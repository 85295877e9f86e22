// What the registry's critical sections keep.

module RegistryProofs {
  import opened Wrappers
  import opened ComponentGraph
  import opened RegistryModel

  // ---------- The dependency graph ----------

  /** An operation that neither revives a component nor adds an edge between components keeps the graph acyclic. */
  lemma NoNewDependency(t: Table, t': Table)
    requires Acyclic(t)
    requires forall a, d | IsComponent(t', a) && IsComponent(t', d) && Bound(t', a, d) ::
               IsComponent(t, a) && IsComponent(t, d) && Bound(t, a, d)
    ensures Acyclic(t')
  {
    forall a, d | Edge(GraphOf(t'), a, d) ensures Edge(GraphOf(t), a, d) {
      GraphEdge(t', a, d);
      GraphEdge(t, a, d);
    }
    FewerEdgesStayAcyclic(GraphOf(t), GraphOf(t'));
  }

  lemma NewEdgeBinds(t: Table, s: ObjectId, c: ObjectId, a: ObjectId, d: ObjectId)
    requires EdgesOk(t)
    ensures Bound(NewEdge(t, s, c), a, d) <==> Bound(t, a, d) || (a == s && d == c)
  {
    var t' := NewEdge(t, s, c);
    if Bound(t, a, d) {
      var g :| g in t.edges && t.edges[g].subject == a && t.edges[g].component == d;
      assert g in t'.edges && t'.edges[g] == t.edges[g];
    }
    if a == s && d == c {
      assert t.nextGeneration in t'.edges;
    }
  }

  /** The check before a component binds a component is exact: without it the graph closes a cycle exactly
      when the check says so. */
  lemma CycleCheckIsExact(t: Table, s: ObjectId, c: ObjectId)
    requires EdgesOk(t) && Acyclic(t) && IsComponent(t, s) && IsComponent(t, c)
    ensures Acyclic(NewEdge(t, s, c)) <==> !ClosesCycle(t, s, c)
  {
    var t' := NewEdge(t, s, c);
    forall a, d ensures Edge(GraphOf(t'), a, d) <==> Edge(GraphOf(t), a, d) || (a == s && d == c) {
      GraphEdge(t', a, d);
      GraphEdge(t, a, d);
      NewEdgeBinds(t, s, c, a, d);
    }
    NewEdgeClosesCycleIff(GraphOf(t), GraphOf(t'), s, c);
  }

  /** A binding whose subject is no component adds no dependency. */
  lemma OtherSubjectAddsNoDependency(t: Table, s: ObjectId, c: ObjectId)
    requires EdgesOk(t) && Acyclic(t) && !IsComponent(t, s)
    ensures Acyclic(NewEdge(t, s, c))
  {
    forall a, d | IsComponent(t, a) && Bound(NewEdge(t, s, c), a, d) ensures Bound(t, a, d) {
      NewEdgeBinds(t, s, c, a, d);
    }
    NoNewDependency(t, NewEdge(t, s, c));
  }

  // ---------- Every critical section keeps the table's invariants ----------

  /** No binding mentions an id that has not been given out. */
  lemma NewEntryAddsNoDependency(t: Table, kind: ObjectKind, state: ObjectState)
    requires ObjectsOk(t) && EdgesOk(t) && Acyclic(t)
    ensures Acyclic(WithNewEntry(t, kind, state))
  {
    var t' := WithNewEntry(t, kind, state);
    var id := ObjectId(kind, t.nextId);
    forall a, d | IsComponent(t', a) && IsComponent(t', d) && Bound(t', a, d)
      ensures IsComponent(t, a) && IsComponent(t, d) && Bound(t, a, d)
    {
      var g :| g in t.edges && t.edges[g].subject == a && t.edges[g].component == d;
      assert a != id && d != id;
    }
    NoNewDependency(t, t');
  }

  lemma CreateKeepsInv(limits: Limits, t: Table, kind: ObjectKind, state: ObjectState)
    requires TableInv(t)
    ensures Create(limits, t, kind, state).Ok? ==> TableInv(Create(limits, t, kind, state).value)
  {
    if Create(limits, t, kind, state).Ok? {
      NewEntryAddsNoDependency(t, kind, state);
      hide Acyclic;
      var t' := WithNewEntry(t, kind, state);
      forall g, h, s, c | ActiveEdge(t', g, s, c) && ActiveEdge(t', h, s, c) ensures g == h {
        assert ActiveEdge(t, g, s, c) && ActiveEdge(t, h, s, c);
      }
    }
  }

  lemma ObjectUpdateKeepsInv(t: Table, id: ObjectId, o: Object)
    requires TableInv(t) && id in t.objects
    requires o.kind == t.objects[id].kind && o.generation == t.objects[id].generation
    requires o.gateClosed && IsComponent(t, id) ==> t.objects[id].gateClosed || !HasBindings(t, id)
    ensures TableInv(t.(objects := t.objects[id := o]))
  {
    var t' := t.(objects := t.objects[id := o]);
    assert forall a :: IsComponent(t', a) <==> IsComponent(t, a);
    assert forall a, d :: Bound(t', a, d) <==> Bound(t, a, d);
    NoNewDependency(t, t');
    forall g, h, s, c | ActiveEdge(t', g, s, c) && ActiveEdge(t', h, s, c) ensures g == h {
      assert ActiveEdge(t, g, s, c) && ActiveEdge(t, h, s, c);
    }
  }

  /** Same objects; no edge is new, revived or moved. */
  predicate EdgesShrink(t: Table, t': Table) {
    && t'.(edges := t.edges) == t
    && forall g | g in t'.edges ::
         && g in t.edges
         && t'.edges[g].subject == t.edges[g].subject
         && t'.edges[g].component == t.edges[g].component
         && (t.edges[g].retiring ==> t'.edges[g].retiring)
  }

  lemma ShrinkKeepsInv(t: Table, t': Table)
    requires TableInv(t) && EdgesShrink(t, t')
    ensures TableInv(t')
  {
    forall a, d | Bound(t', a, d) ensures Bound(t, a, d) {
      var g :| g in t'.edges && t'.edges[g].subject == a && t'.edges[g].component == d;
      assert g in t.edges;
    }
    NoNewDependency(t, t');
    forall g, h, s, c | ActiveEdge(t', g, s, c) && ActiveEdge(t', h, s, c) ensures g == h {
      assert ActiveEdge(t, g, s, c) && ActiveEdge(t, h, s, c);
    }
  }

  lemma FinishDestroyKeepsInv(t: Table, id: ObjectId)
    requires TableInv(t)
    ensures TableInv(FinishDestroy(t, id))
  {
    var t' := FinishDestroy(t, id);
    forall a, d | IsComponent(t', a) && IsComponent(t', d) && Bound(t', a, d)
      ensures IsComponent(t, a) && IsComponent(t, d) && Bound(t, a, d)
    {
      var g :| g in t'.edges && t'.edges[g].subject == a && t'.edges[g].component == d;
      assert g in t.edges;
    }
    NoNewDependency(t, t');
    forall g, h, s, c | ActiveEdge(t', g, s, c) && ActiveEdge(t', h, s, c) ensures g == h {
      assert ActiveEdge(t, g, s, c) && ActiveEdge(t, h, s, c);
    }
  }

  lemma BindKeepsInv(limits: Limits, t: Table, s: ObjectId, c: ObjectId)
    requires TableInv(t) && s in t.objects && c in t.objects && Bind(limits, t, s, c).Ok?
    requires IsComponent(t, s) ==> !ClosesCycle(t, s, c)
    ensures TableInv(Bind(limits, t, s, c).value)
  {
    var t' := NewEdge(t, s, c);
    assert Acyclic(t') by {
      if IsComponent(t, s) {
        CycleCheckIsExact(t, s, c);
      } else {
        OtherSubjectAddsNoDependency(t, s, c);
      }
    }
    hide Acyclic;
    forall g, h, x, y | ActiveEdge(t', g, x, y) && ActiveEdge(t', h, x, y) ensures g == h {
      if g != t.nextGeneration {
        assert ActiveEdge(t, g, x, y);
      }
      if h != t.nextGeneration {
        assert ActiveEdge(t, h, x, y);
      }
    }
  }

  lemma TakeKeepsInv(t: Table, g: nat)
    requires TableInv(t) && g in t.edges
    ensures TableInv(Take(t, g))
  {
    var e := t.edges[g];
    var o := t.objects[e.component];
    var t' := t.(objects := t.objects[e.component := o.(borrows := o.borrows + 1)]);
    ObjectUpdateKeepsInv(t, e.component, o.(borrows := o.borrows + 1));
    assert Take(t, g) == t'.(edges := t.edges[g := e.(borrows := e.borrows + 1)]);
    ShrinkKeepsInv(t', Take(t, g));
  }

  lemma ReleaseKeepsInv(t: Table, c: ObjectId, s: ObjectId, g: nat)
    requires TableInv(t)
    ensures TableInv(Release(t, c, s, g))
  {
    if c in t.objects {
      var o := t.objects[c];
      var t' := t.(objects := t.objects[c := o.(borrows := Less(o.borrows))]);
      ObjectUpdateKeepsInv(t, c, o.(borrows := Less(o.borrows)));
      if g in t.edges && t.edges[g].component == c && t.edges[g].subject == s {
        ShrinkKeepsInv(t', Release(t, c, s, g));
      }
    }
  }
}
