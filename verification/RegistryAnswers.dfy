// What the registry answers and changes, said in the fields of entries and bindings alone.

module RegistryAnswers {
  import opened Wrappers
  import opened ComponentGraph
  import opened RegistryModel

  // ---------- Borrowing ----------

  /** Which borrows are refused and how: Overloaded means that waiting may help, Closed that it will not. */
  lemma BorrowRefusedIff(t: Table, c: ObjectId, objectGeneration: nat, g: nat, allow: bool)
    ensures var refusal := BorrowRefusal(t, c, objectGeneration, g, allow);
      var reachable := c in t.objects && t.objects[c].generation == objectGeneration && !t.objects[c].gateClosed
        && g in t.edges && t.edges[g].component == c;
      && (refusal.None? <==>
            && reachable && !t.edges[g].retiring
            && (t.objects[c].state == Running
                || (t.objects[c].state == Installed
                    && (allow || (t.edges[g].subject in t.objects
                                  && t.objects[t.edges[g].subject].state == Installing)))))
      && (refusal == Some(Overloaded) <==>
            && reachable
            && (t.objects[c].state in {Created, Installing, Starting, Paused}
                || (t.objects[c].state == Installed && !allow
                    && !(t.edges[g].subject in t.objects
                         && t.objects[t.edges[g].subject].state == Installing))))
      && (refusal.Some? ==> refusal.value in {Closed, Overloaded})
  {
  }

  /** A return takes one from each count that is there and above zero, and touches nothing else. */
  lemma ReturnTakesOne(t: Table, c: ObjectId, s: ObjectId, g: nat)
    ensures var t' := Release(t, c, s, g);
      var counted := c in t.objects && g in t.edges && t.edges[g].component == c && t.edges[g].subject == s;
      && t'.objects.Keys == t.objects.Keys && t'.edges.Keys == t.edges.Keys
      && (forall o | o in t.objects && o != c :: t'.objects[o] == t.objects[o])
      && (forall h | h in t.edges && (h != g || !counted) :: t'.edges[h] == t.edges[h])
      && (c in t.objects ==>
            var n := t.objects[c].borrows;
            t'.objects[c] == t.objects[c].(borrows := if n == 0 then 0 else n - 1))
      && (counted ==>
            var n := t.edges[g].borrows;
            t'.edges[g] == t.edges[g].(borrows := if n == 0 then 0 else n - 1))
  {
  }

  // ---------- Binding ----------

  /** Which bindings BindLocked refuses and how. */
  lemma BindRefusedIff(limits: Limits, t: Table, s: ObjectId, c: ObjectId)
    requires s in t.objects && c in t.objects
    ensures var refusal := BindRefusal(limits, t, s, c); var o, subject := t.objects[c], t.objects[s];
      var gone := {Stopping, Stopped, StopIncomplete, Uninstalling, UninstallIncomplete, Destroyed, Invalidated};
      var closing := o.gateClosed || subject.gateClosed || subject.opInProgress || subject.state in gone;
      var bound := exists g ::
        g in t.edges && t.edges[g].subject == s && t.edges[g].component == c && !t.edges[g].retiring;
      && (refusal.None? <==> o.kind == Component && !closing && |t.edges| < limits.maxBindings && !bound)
      && (refusal == Some(Closed) <==> o.kind == Component && closing)
      && (refusal == Some(Overloaded) <==> o.kind == Component && !closing && |t.edges| >= limits.maxBindings)
      && (refusal == Some(InvalidArgument) <==>
            o.kind != Component || (!closing && |t.edges| < limits.maxBindings && bound))
  {
    if g :| g in t.edges && t.edges[g].subject == s && t.edges[g].component == c && !t.edges[g].retiring {
      assert ActiveEdge(t, g, s, c);
    }
  }

  /** Which bindings BindComponent refuses before it asks BindLocked, and how. */
  lemma BindComponentRefusedIff(limits: Limits, t: Table, s: ObjectId, subjectGeneration: nat, allowed: bool,
                                found: Option<ObjectId>)
    requires found.Some? ==> IsComponent(t, found.value)
    ensures var refusal := BindComponentRefusal(limits, t, s, subjectGeneration, allowed, found);
      var known := s in t.objects && t.objects[s].generation == subjectGeneration;
      var fits := known && t.objects[s].kind != App && (t.objects[s].kind == Service ==> allowed);
      var acyclic := fits && found.Some? && (t.objects[s].kind == Component ==> !ClosesCycle(t, s, found.value));
      && (refusal.None? <==> acyclic && BindRefusal(limits, t, s, found.value).None?)
      && (refusal == Some(NotFound) <==> !known || (fits && found.None?))
      && (known && !fits ==> refusal == Some(InvalidArgument))
      && (fits && found.Some? && !acyclic ==> refusal == Some(InvalidArgument))
      && (acyclic ==> refusal == BindRefusal(limits, t, s, found.value))
  {
    hide ClosesCycle;
    if found.Some? && s in t.objects {
      BindRefusedIff(limits, t, s, found.value);
    }
    hide BindRefusal;
  }

  // ---------- Retiring and erasing ----------

  /** Retiring the edges of a subject marks exactly those and counts nothing; erasing them drops exactly its
      retiring ones. */
  lemma SubjectEdges(t: Table, s: ObjectId, g: nat)
    requires g in t.edges
    ensures g in RetireSubject(t, s).edges && RetireSubject(t, s).edges.Keys == t.edges.Keys
    ensures var e := t.edges[g];
      RetireSubject(t, s).edges[g] == Binding(e.component, e.subject, e.retiring || e.subject == s, e.borrows)
    ensures g in EraseSubject(t, s).edges <==> t.edges[g].subject != s || !t.edges[g].retiring
    ensures g in EraseSubject(t, s).edges ==> EraseSubject(t, s).edges[g] == t.edges[g]
    ensures EraseSubject(t, s).edges.Keys <= t.edges.Keys
    ensures RetireSubject(t, s).objects == EraseSubject(t, s).objects == t.objects
  {
  }

  /** One edge: it goes iff it is retiring and belongs to that component and subject; every other one stays. */
  lemma OneEdgeErased(t: Table, c: ObjectId, s: ObjectId, g: nat, h: nat)
    ensures h in EraseEdge(t, c, s, g).edges <==>
      h in t.edges && !(h == g && t.edges[h].component == c && t.edges[h].subject == s && t.edges[h].retiring)
    ensures h in EraseEdge(t, c, s, g).edges ==> EraseEdge(t, c, s, g).edges[h] == t.edges[h]
    ensures EraseEdge(t, c, s, g).objects == t.objects
  {
  }

  // ---------- Entries ----------

  /** A new entry: refused iff the table is full; otherwise open, idle and unused under a new id and generation. */
  lemma CreatedEntry(limits: Limits, t: Table, kind: ObjectKind, state: ObjectState)
    ensures Create(limits, t, kind, state).Err? <==> |t.objects| >= limits.maxObjects
    ensures Create(limits, t, kind, state).Err? ==> Create(limits, t, kind, state).error == Overloaded
    ensures Create(limits, t, kind, state).Ok? ==>
      var t' := Create(limits, t, kind, state).value;
      && t'.objects == t.objects[ObjectId(kind, t.nextId) := Object(kind, t.nextGeneration, state, false, false, 0)]
      && t'.edges == t.edges && t'.nextId == t.nextId + 1 && t'.nextGeneration == t.nextGeneration + 1
  {
  }

  /** An uninstall may begin iff the entry is there, idle and, for a component, without any binding. */
  lemma DestroyBeginsIff(t: Table, id: ObjectId)
    ensures var r := BeginDestroy(t, id);
      && (r.Err? && r.error == NotFound <==> id !in t.objects)
      && (r.Err? && r.error == Overloaded <==>
            id in t.objects && (t.objects[id].opInProgress || (t.objects[id].kind == Component &&
              exists g :: g in t.edges && t.edges[g].component == id)))
      && (r.Err? ==> r.error in {NotFound, Overloaded})
      && (r.Ok? ==>
            && id in t.objects && id in r.value.objects
            && r.value == t.(objects := t.objects[id := r.value.objects[id]])
            && r.value.objects[id].gateClosed && r.value.objects[id].opInProgress
            && r.value.objects[id].kind == t.objects[id].kind && r.value.objects[id].state == t.objects[id].state
            && r.value.objects[id].generation == t.objects[id].generation
            && r.value.objects[id].borrows == t.objects[id].borrows)
  {
  }

  /** A removed entry takes its own binding list with it and no other. */
  lemma DestroyedEntry(t: Table, id: ObjectId)
    ensures FinishDestroy(t, id).objects == t.objects - {id}
    ensures forall g :: g in FinishDestroy(t, id).edges <==> g in t.edges && t.edges[g].component != id
    ensures forall g | g in FinishDestroy(t, id).edges :: FinishDestroy(t, id).edges[g] == t.edges[g]
  {
  }

  lemma StateIsSet(t: Table, id: ObjectId, state: ObjectState)
    ensures SetState(t, id, state).edges == t.edges && SetState(t, id, state).objects.Keys == t.objects.Keys
    ensures forall o | o in t.objects && o != id :: SetState(t, id, state).objects[o] == t.objects[o]
    ensures id in t.objects ==>
      var o, o' := t.objects[id], SetState(t, id, state).objects[id];
      o' == Object(o.kind, o.generation, state, o.gateClosed, o.opInProgress, o.borrows)
  {
  }
}
