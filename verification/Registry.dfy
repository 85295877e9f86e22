// The registry object: a deque of entries with an index, each component entry with its list of bindings.
// Every method is one critical section and is proved against its function in RegistryModel.

module RegistryRecords {
  import opened ComponentGraph
  import opened RegistryModel

  /** One element of RegistryEntry::bindings. */
  datatype Record = Record(subject: ObjectId, generation: nat, active: bool, retiring: bool, borrows: nat)

  datatype Entry = Entry(
    id: ObjectId, generation: nat, kind: ObjectKind, state: ObjectState,
    gateClosed: bool, opInProgress: bool, componentBorrows: nat, bindings: seq<Record>)

  function AsObject(e: Entry): Object {
    Object(e.kind, e.generation, e.state, e.gateClosed, e.opInProgress, e.componentBorrows)
  }

  function AsBinding(c: ObjectId, r: Record): Binding {
    Binding(c, r.subject, r.retiring, r.borrows)
  }

  predicate IndexOk(entries: seq<Entry>, index: map<ObjectId, nat>) {
    && (forall i | 0 <= i < |entries| :: entries[i].id in index && index[entries[i].id] == i)
    && (forall id | id in index :: index[id] < |entries| && entries[index[id]].id == id)
  }

  function Objects(entries: seq<Entry>, index: map<ObjectId, nat>): map<ObjectId, Object> {
    map id | id in index && index[id] < |entries| :: AsObject(entries[index[id]])
  }

  predicate HasGeneration(rs: seq<Record>, g: nat) {
    exists j | 0 <= j < |rs| :: rs[j].generation == g
  }

  /** The list is in generation order, so a generation occurs once; it says what `edges` says. */
  predicate RecordsTied(c: ObjectId, rs: seq<Record>, edges: map<nat, Binding>) {
    && (forall j | 0 <= j < |rs| ::
         rs[j].generation in edges && edges[rs[j].generation] == AsBinding(c, rs[j]) && rs[j].active == !rs[j].retiring)
    && (forall j, k | 0 <= j < k < |rs| :: rs[j].generation < rs[k].generation)
    && (forall g | g in edges && edges[g].component == c :: HasGeneration(rs, g))
  }

  predicate EntryTied(e: Entry, edges: map<nat, Binding>) {
    RecordsTied(e.id, e.bindings, edges)
  }

  /** The fields of the object, with the edges their lists stand for. */
  datatype Store = Store(entries: seq<Entry>, index: map<ObjectId, nat>, edges: map<nat, Binding>)

  ghost predicate Tied(store: Store) {
    match store
    case Store(entries, index, edges) =>
      && IndexOk(entries, index)
      && (forall i | 0 <= i < |entries| :: EntryTied(entries[i], edges))
      && (forall g | g in edges :: edges[g].component in index)
  }

  /** `edges'` differs from `edges` at most in the edges of component c. */
  ghost predicate SameElsewhere(c: ObjectId, edges: map<nat, Binding>, edges': map<nat, Binding>) {
    && (forall g | g in edges && edges[g].component != c :: g in edges' && edges'[g] == edges[g])
    && (forall g | g in edges' && edges'[g].component != c :: g in edges && edges[g] == edges'[g])
    && (forall g | g in edges && edges[g].component != c && g in edges' :: edges'[g].component != c)
  }

  lemma OneEntryChanges(entries: seq<Entry>, index: map<ObjectId, nat>, edges: map<nat, Binding>,
                        i: nat, e: Entry, edges': map<nat, Binding>)
    requires Tied(Store(entries, index, edges)) && i < |entries| && e.id == entries[i].id
    requires EntryTied(e, edges') && SameElsewhere(e.id, edges, edges')
    ensures Tied(Store(entries[i := e], index, edges'))
    ensures Objects(entries[i := e], index) == Objects(entries, index)[e.id := AsObject(e)]
  {
    forall k | 0 <= k < |entries| && k != i ensures EntryTied(entries[k], edges') {
      assert entries[k].id != e.id;
      OtherEntryUntouched(entries[k], e.id, edges, edges');
    }
    hide EntryTied;
  }

  lemma OtherEntryUntouched(e: Entry, c: ObjectId, edges: map<nat, Binding>, edges': map<nat, Binding>)
    requires EntryTied(e, edges) && SameElsewhere(c, edges, edges') && e.id != c
    ensures EntryTied(e, edges')
  {
  }

  lemma EntryAppended(entries: seq<Entry>, index: map<ObjectId, nat>, edges: map<nat, Binding>, e: Entry)
    requires Tied(Store(entries, index, edges)) && e.id !in index && e.bindings == []
    ensures Tied(Store(entries + [e], index[e.id := |entries|], edges))
    ensures Objects(entries + [e], index[e.id := |entries|]) == Objects(entries, index)[e.id := AsObject(e)]
  {
    var entries' := entries + [e];
    assert forall i | 0 <= i < |entries| :: entries'[i] == entries[i];
    assert entries'[|entries|] == e;
  }

  // ---------- One binding list ----------

  lemma RecordReplaced(c: ObjectId, rs: seq<Record>, edges: map<nat, Binding>, j: nat, r: Record)
    requires RecordsTied(c, rs, edges) && j < |rs|
    requires r.generation == rs[j].generation && r.active == !r.retiring
    ensures RecordsTied(c, rs[j := r], edges[r.generation := AsBinding(c, r)])
    ensures SameElsewhere(c, edges, edges[r.generation := AsBinding(c, r)])
  {
    var rs' := rs[j := r];
    forall g | g in edges && edges[g].component == c ensures HasGeneration(rs', g) {
      var k :| 0 <= k < |rs| && rs[k].generation == g;
      assert rs'[k].generation == g;
    }
    assert rs'[j].generation == r.generation;
  }

  lemma RecordAppended(c: ObjectId, rs: seq<Record>, edges: map<nat, Binding>, r: Record)
    requires RecordsTied(c, rs, edges) && r.active == !r.retiring
    requires forall g | g in edges :: g < r.generation
    ensures RecordsTied(c, rs + [r], edges[r.generation := AsBinding(c, r)])
    ensures SameElsewhere(c, edges, edges[r.generation := AsBinding(c, r)])
  {
    var rs' := rs + [r];
    forall g | g in edges && edges[g].component == c ensures HasGeneration(rs', g) {
      var k :| 0 <= k < |rs| && rs[k].generation == g;
      assert rs'[k].generation == g;
    }
    assert rs'[|rs|].generation == r.generation;
  }

  lemma RecordRemoved(c: ObjectId, rs: seq<Record>, edges: map<nat, Binding>, j: nat)
    requires RecordsTied(c, rs, edges) && j < |rs|
    ensures RecordsTied(c, rs[..j] + rs[j + 1..], edges - {rs[j].generation})
    ensures SameElsewhere(c, edges, edges - {rs[j].generation})
  {
    var rs' := rs[..j] + rs[j + 1..];
    forall g | g in edges && edges[g].component == c && g != rs[j].generation ensures HasGeneration(rs', g) {
      var k :| 0 <= k < |rs| && rs[k].generation == g;
      assert rs'[if k < j then k else k - 1].generation == g;
    }
  }

  function WithBindings(e: Entry, rs: seq<Record>): Entry {
    e.(bindings := rs)
  }

  lemma RecordAdded(entries: seq<Entry>, index: map<ObjectId, nat>, edges: map<nat, Binding>, c: ObjectId, r: Record)
    requires Tied(Store(entries, index, edges)) && c in index && r.active == !r.retiring
    requires forall g | g in edges :: g < r.generation
    ensures var e := WithBindings(entries[index[c]], entries[index[c]].bindings + [r]);
      && Tied(Store(entries[index[c] := e], index, edges[r.generation := AsBinding(c, r)]))
      && Objects(entries[index[c] := e], index) == Objects(entries, index)
  {
    var e := entries[index[c]];
    assert EntryTied(e, edges);
    RecordAppended(c, e.bindings, edges, r);
    var e' := WithBindings(e, e.bindings + [r]);
    assert EntryTied(e', edges[r.generation := AsBinding(c, r)]);
    hide EntryTied, RecordsTied, SameElsewhere;
    OneEntryChanges(entries, index, edges, index[c], e', edges[r.generation := AsBinding(c, r)]);
  }

  function WithRecord(e: Entry, j: nat, r: Record, borrows: nat): Entry
    requires j < |e.bindings|
  {
    e.(componentBorrows := borrows, bindings := e.bindings[j := r])
  }

  /** One record and the component's borrow count change; nothing else does. */
  lemma RecordUpdated(entries: seq<Entry>, index: map<ObjectId, nat>, edges: map<nat, Binding>,
                      c: ObjectId, j: nat, r: Record, borrows: nat)
    requires Tied(Store(entries, index, edges)) && c in index && j < |entries[index[c]].bindings|
    requires r.generation == entries[index[c]].bindings[j].generation && r.active == !r.retiring
    ensures var e := WithRecord(entries[index[c]], j, r, borrows);
      && r.generation in edges && edges[r.generation] == AsBinding(c, entries[index[c]].bindings[j])
      && Tied(Store(entries[index[c] := e], index, edges[r.generation := AsBinding(c, r)]))
      && Objects(entries[index[c] := e], index) ==
         Objects(entries, index)[c := AsObject(entries[index[c]]).(borrows := borrows)]
  {
    var e := entries[index[c]];
    assert EntryTied(e, edges);
    RecordReplaced(c, e.bindings, edges, j, r);
    assert EntryTied(WithRecord(e, j, r, borrows), edges[r.generation := AsBinding(c, r)]);
    hide EntryTied, RecordsTied, SameElsewhere;
    OneEntryChanges(entries, index, edges, index[c], WithRecord(e, j, r, borrows),
      edges[r.generation := AsBinding(c, r)]);
  }

  // ---------- Removing ----------

  /** remove_if over one binding list. */
  function Kept(rs: seq<Record>, s: ObjectId): seq<Record> {
    if rs == [] then []
    else
      var last := rs[|rs| - 1];
      Kept(rs[..|rs| - 1], s) + (if last.subject == s && last.retiring then [] else [last])
  }

  lemma {:induction false} KeptMembers(rs: seq<Record>, s: ObjectId)
    ensures forall r :: r in Kept(rs, s) <==> r in rs && !(r.subject == s && r.retiring)
    decreases |rs|
  {
    if rs != [] {
      KeptMembers(rs[..|rs| - 1], s);
      assert rs == rs[..|rs| - 1] + [rs[|rs| - 1]];
    }
  }

  lemma {:induction false} KeptInOrder(rs: seq<Record>, s: ObjectId)
    requires forall j, k | 0 <= j < k < |rs| :: rs[j].generation < rs[k].generation
    ensures forall j, k | 0 <= j < k < |Kept(rs, s)| :: Kept(rs, s)[j].generation < Kept(rs, s)[k].generation
    decreases |rs|
  {
    if rs != [] {
      KeptInOrder(rs[..|rs| - 1], s);
      KeptMembers(rs[..|rs| - 1], s);
    }
  }

  function ErasedIn(edges: map<nat, Binding>, s: ObjectId, cs: set<ObjectId>): map<nat, Binding> {
    map g | g in edges && !(edges[g].component in cs && edges[g].subject == s && edges[g].retiring) :: edges[g]
  }

  lemma RecordsKept(c: ObjectId, rs: seq<Record>, edges: map<nat, Binding>, s: ObjectId)
    requires RecordsTied(c, rs, edges)
    ensures RecordsTied(c, Kept(rs, s), ErasedIn(edges, s, {c}))
    ensures SameElsewhere(c, edges, ErasedIn(edges, s, {c}))
  {
    var edges' := ErasedIn(edges, s, {c});
    var rs' := Kept(rs, s);
    KeptMembers(rs, s);
    KeptInOrder(rs, s);
    forall g | g in edges' && edges'[g].component == c ensures HasGeneration(rs', g) {
      var j :| 0 <= j < |rs| && rs[j].generation == g;
      assert rs[j] in rs';
    }
    forall j | 0 <= j < |rs'|
      ensures rs'[j].generation in edges' && edges'[rs'[j].generation] == AsBinding(c, rs'[j])
        && rs'[j].active == !rs'[j].retiring
    {
      assert rs'[j] in rs;
    }
  }

  lemma BindingsReplaced(entries: seq<Entry>, index: map<ObjectId, nat>, edges: map<nat, Binding>,
                         c: ObjectId, rs: seq<Record>, edges': map<nat, Binding>)
    requires Tied(Store(entries, index, edges)) && c in index
    requires RecordsTied(c, rs, edges') && SameElsewhere(c, edges, edges')
    ensures Tied(Store(entries[index[c] := WithBindings(entries[index[c]], rs)], index, edges'))
    ensures Objects(entries[index[c] := WithBindings(entries[index[c]], rs)], index) == Objects(entries, index)
  {
    assert EntryTied(WithBindings(entries[index[c]], rs), edges');
    hide EntryTied, RecordsTied, SameElsewhere;
    OneEntryChanges(entries, index, edges, index[c], WithBindings(entries[index[c]], rs), edges');
  }

  function Cut(entries: seq<Entry>, i: nat): seq<Entry>
    requires i < |entries|
  {
    entries[..i] + entries[i + 1..]
  }

  lemma CutIndex(entries: seq<Entry>, i: nat, k: nat)
    requires i < |entries| && k < |entries| && k != i
    ensures var j := if k < i then k else k - 1; j < |Cut(entries, i)| && Cut(entries, i)[j] == entries[k]
  {
  }

  lemma CutMember(entries: seq<Entry>, i: nat, k: nat)
    requires i < |entries| && k < |Cut(entries, i)|
    ensures var j := if k < i then k else k + 1; j < |entries| && j != i && Cut(entries, i)[k] == entries[j]
  {
  }

  /** Without entry i the rebuilt index leads to the same entries. */
  lemma ObjectsCut(entries: seq<Entry>, index: map<ObjectId, nat>, id: ObjectId, index': map<ObjectId, nat>)
    requires IndexOk(entries, index) && id in index && IndexOk(Cut(entries, index[id]), index')
    ensures Objects(Cut(entries, index[id]), index') == Objects(entries, index) - {id}
    ensures index'.Keys == index.Keys - {id}
  {
    hide Cut, AsObject;
    var i, rest := index[id], Cut(entries, index[id]);
    forall a | a in index && a != id ensures a in index' && rest[index'[a]] == entries[index[a]] {
      CutIndex(entries, i, index[a]);
    }
    forall a | a in index' ensures a in index && a != id {
      CutMember(entries, i, index'[a]);
    }
  }

  lemma EntryRemoved(entries: seq<Entry>, index: map<ObjectId, nat>, edges: map<nat, Binding>,
                     id: ObjectId, index': map<ObjectId, nat>, edges': map<nat, Binding>)
    requires Tied(Store(entries, index, edges)) && id in index && IndexOk(Cut(entries, index[id]), index')
    requires edges' == EdgesWithout(edges, id)
    ensures Tied(Store(Cut(entries, index[id]), index', edges'))
    ensures Objects(Cut(entries, index[id]), index') == Objects(entries, index) - {id}
    ensures index'.Keys == index.Keys - {id}
  {
    var i, rest := index[id], Cut(entries, index[id]);
    forall k | 0 <= k < |rest| ensures EntryTied(rest[k], edges') {
      CutMember(entries, i, k);
      assert EntryTied(rest[k], edges) && rest[k].id != id;
    }
    ObjectsCut(entries, index, id, index');
  }
}

module RegistryObject {
  import opened Wrappers
  import opened ComponentGraph
  import opened RegistryModel
  import opened RegistryRecords

  /** Both counters are above everything they have numbered. */
  predicate Numbered(t: Table) {
    match t
    case Table(objects, edges, nextId, nextGeneration) =>
      (forall g | g in edges :: g < nextGeneration) && (forall id | id in objects :: id.number < nextId)
  }

  lemma NumberedShrinks(t: Table, t': Table)
    requires Numbered(t) && t'.objects.Keys <= t.objects.Keys && t'.edges.Keys <= t.edges.Keys
    requires t'.nextId == t.nextId && t'.nextGeneration == t.nextGeneration
    ensures Numbered(t')
  {
  }

  lemma NumberedCreate(t: Table, kind: ObjectKind, o: Object)
    requires Numbered(t)
    ensures ObjectId(kind, t.nextId) !in t.objects
    ensures Numbered(t.(objects := t.objects[ObjectId(kind, t.nextId) := o], nextId := More(t.nextId),
      nextGeneration := More(t.nextGeneration)))
  {
  }

  lemma NumberedBind(t: Table, s: ObjectId, c: ObjectId)
    requires Numbered(t)
    ensures Numbered(NewEdge(t, s, c)) && forall g | g in t.edges :: g < t.nextGeneration
  {
  }

  lemma NumberedRecount(t: Table, c: ObjectId, borrows: nat, g: nat, e: Binding)
    requires Numbered(t) && g in t.edges
    ensures Numbered(Recount(t, c, borrows, g, e))
  {
  }

  // ---------- What a call that may be refused does ----------

  predicate CreateMeets(limits: Limits, t: Table, t': Table, kind: ObjectKind, state: ObjectState,
      r: Result<ObjectId, Code>)
  {
    match r
    case Err(code) => Create(limits, t, kind, state) == Err(code) && t' == t
    case Ok(id) => Create(limits, t, kind, state) == Ok(t') && id == ObjectId(kind, t.nextId)
  }

  lemma CreateOutcomes(limits: Limits, t: Table, kind: ObjectKind, state: ObjectState)
    ensures |t.objects| >= limits.maxObjects ==> CreateMeets(limits, t, t, kind, state, Err(Overloaded))
    ensures |t.objects| < limits.maxObjects ==>
      CreateMeets(limits, t, WithNewEntry(t, kind, state), kind, state, Ok(ObjectId(kind, t.nextId)))
  {
  }

  predicate BorrowMeets(t: Table, t': Table, c: ObjectId, objectGeneration: nat, g: nat, allow: bool,
      r: Result<ObjectId, Code>)
  {
    match r
    case Err(code) => BorrowRefusal(t, c, objectGeneration, g, allow) == Some(code) && t' == t
    case Ok(subject) =>
      && BorrowRefusal(t, c, objectGeneration, g, allow).None?
      && subject == t.edges[g].subject && t' == Take(t, g)
  }

  predicate UnbindMeets(t: Table, t': Table, s: ObjectId, c: ObjectId, r: Result<nat, Code>) {
    match r
    case Err(code) => code == NotFound && !HasActiveEdge(t, s, c) && t' == t
    case Ok(g) => ActiveEdge(t, g, s, c) && t' == Retire(t, g)
  }

  predicate RetiringEdge(edges: map<nat, Binding>, g: nat, s: ObjectId, c: ObjectId) {
    g in edges && edges[g].component == c && edges[g].subject == s && edges[g].retiring
  }

  /** The oldest retiring edge of the subject, or none if there is none. */
  predicate FindsRetiring(edges: map<nat, Binding>, s: ObjectId, c: ObjectId, r: Option<nat>) {
    match r
    case Some(g) => RetiringEdge(edges, g, s, c) && forall h | h in edges && RetiringEdge(edges, h, s, c) :: g <= h
    case None => forall h | h in edges :: !RetiringEdge(edges, h, s, c)
  }

  class Registry {
    const limits: Limits
    var entries: seq<Entry>
    var index: map<ObjectId, nat>
    var nextIdSeq: nat
    var nextGeneration: nat
    ghost var edges: map<nat, Binding>

    ghost predicate Valid()
      reads this
    {
      && Tied(Store(entries, index, edges))
      && Numbered(State())
    }

    ghost function State(): Table
      reads this
    {
      Table(Objects(entries, index), edges, nextIdSeq, nextGeneration)
    }

    constructor (limits: Limits)
      ensures Valid() && State() == EMPTY && this.limits == limits
    {
      this.limits := limits;
      entries, index, nextIdSeq, nextGeneration, edges := [], map[], 1, 1, map[];
    }

    method FindRecord(rs: seq<Record>, subject: ObjectId, generation: nat) returns (j: nat)
      ensures j <= |rs| && (j < |rs| ==> rs[j].subject == subject && rs[j].generation == generation)
      ensures forall k | 0 <= k < j :: !(rs[k].subject == subject && rs[k].generation == generation)
    {
      j := 0;
      while j < |rs| && !(rs[j].subject == subject && rs[j].generation == generation)
        invariant j <= |rs|
        invariant forall k | 0 <= k < j :: !(rs[k].subject == subject && rs[k].generation == generation)
      {
        j := j + 1;
      }
    }

    /** Replaces entry i; the ghost edges follow. */
    method Update(i: nat, e: Entry, ghost edges': map<nat, Binding>)
      requires Valid() && i < |entries| && e.id == entries[i].id
      requires EntryTied(e, edges') && SameElsewhere(e.id, edges, edges')
      requires edges'.Keys <= edges.Keys
      modifies `entries, `edges
      ensures Valid() && State() == old(State()).(objects := old(State()).objects[e.id := AsObject(e)], edges := edges')
      ensures entries == old(entries)[i := e]
    {
      OneEntryChanges(entries, index, edges, i, e, edges');
      ObjectAt(e.id);
      NumberedShrinks(State(), State().(objects := State().objects[e.id := AsObject(e)], edges := edges'));
      hide Tied, Objects, Numbered, EntryTied, SameElsewhere;
      entries, edges := entries[i := e], edges';
    }

    method CreateEntry(kind: ObjectKind, state: ObjectState) returns (r: Result<ObjectId, Code>)
      requires Valid()
      modifies this
      ensures Valid()
      ensures CreateMeets(limits, old(State()), State(), kind, state, r)
    {
      IndexSize();
      CreateOutcomes(limits, State(), kind, state);
      hide Tied, Objects, EntryTied, Numbered, More, CreateMeets;
      if |entries| >= limits.maxObjects {
        return Err(Overloaded);
      }
      var id := AddEntry(kind, state);
      return Ok(id);
    }

    method AddEntry(kind: ObjectKind, state: ObjectState) returns (id: ObjectId)
      requires Valid()
      modifies this
      ensures Valid() && id == ObjectId(kind, old(nextIdSeq))
      ensures State() == WithNewEntry(old(State()), kind, state)
    {
      id := ObjectId(kind, nextIdSeq);
      var e := Entry(id, nextGeneration, kind, state, false, false, 0, []);
      ObjectAt(id);
      NumberedCreate(State(), kind, AsObject(e));
      EntryAppended(entries, index, edges, e);
      hide Tied, Objects, EntryTied, Numbered, More;
      index, entries, nextIdSeq, nextGeneration :=
        index[id := |entries|], entries + [e], More(nextIdSeq), More(nextGeneration);
    }

    lemma ObjectAt(id: ObjectId)
      requires Valid()
      ensures id in index <==> id in State().objects
      ensures id in index ==>
        && index[id] < |entries| && entries[index[id]].id == id
        && State().objects[id] == AsObject(entries[index[id]]) && EntryTied(entries[index[id]], edges)
    {
    }

    lemma IndexSize()
      requires Valid()
      ensures |entries| == |State().objects|
    {
      SameSize(entries, index);
      assert State().objects.Keys == index.Keys;
    }

    method RefuseBind(c: ObjectId, s: ObjectId) returns (r: Option<Code>)
      requires Valid() && s in index && c in index
      ensures r == BindRefusal(limits, State(), s, c)
    {
      ObjectAt(c);
      ObjectAt(s);
      hide Tied, Objects, EntryTied;
      var e, subject := entries[index[c]], entries[index[s]];
      if e.kind != Component {
        return Some(InvalidArgument);
      }
      if e.gateClosed {
        return Some(Closed);
      }
      if subject.gateClosed || subject.opInProgress
         || subject.state in {Stopping, Stopped, Uninstalling, Destroyed, Invalidated, StopIncomplete,
           UninstallIncomplete} {
        return Some(Closed);
      }
      var count := CountBindings();
      if count >= limits.maxBindings {
        return Some(Overloaded);
      }
      var j := FindActive(e.bindings, s);
      ActiveIsListed(e, edges, s);
      return if j < |e.bindings| then Some(InvalidArgument) else None;
    }

    /** BindLocked.  When the subject is a component its caller has asked WouldFormCycle under the same lock. */
    method BindLocked(c: ObjectId, s: ObjectId) returns (r: Result<nat, Code>)
      requires Valid() && s in index && c in index
      modifies this
      ensures Valid()
      ensures r.Err? ==> Some(r.error) == BindRefusal(limits, old(State()), s, c) && State() == old(State())
      ensures r.Ok? ==> r.value == old(nextGeneration) && Bind(limits, old(State()), s, c) == Ok(State())
    {
      var refusal := RefuseBind(c, s);
      if refusal.Some? {
        return Err(refusal.value);
      }
      var rec := Record(s, nextGeneration, true, false, 0);
      AppendRecord(c, rec);
      return Ok(rec.generation);
    }

    method AppendRecord(c: ObjectId, rec: Record)
      requires Valid() && c in index && rec == Record(rec.subject, nextGeneration, true, false, 0)
      modifies this
      ensures Valid() && State() == NewEdge(old(State()), rec.subject, c)
    {
      NumberedBind(State(), rec.subject, c);
      RecordAdded(entries, index, edges, c, rec);
      hide Tied, Objects, Numbered, More;
      nextGeneration, edges, entries :=
        More(nextGeneration), edges[rec.generation := AsBinding(c, rec)],
        entries[index[c] := WithBindings(entries[index[c]], entries[index[c]].bindings + [rec])];
    }

    method FindActive(rs: seq<Record>, subject: ObjectId) returns (j: nat)
      ensures j <= |rs| && (j < |rs| ==> rs[j].subject == subject && !rs[j].retiring)
      ensures forall k | 0 <= k < j :: rs[k].subject != subject || rs[k].retiring
    {
      j := 0;
      while j < |rs| && (rs[j].subject != subject || rs[j].retiring)
        invariant j <= |rs|
        invariant forall k | 0 <= k < j :: rs[k].subject != subject || rs[k].retiring
      {
        j := j + 1;
      }
    }

    method CountBindings() returns (n: nat)
      requires Valid()
      ensures n == |State().edges|
    {
      n := 0;
      var i := 0;
      ghost var seen: set<nat> := {};
      while i < |entries|
        invariant i <= |entries| && n == |seen|
        invariant forall g :: g in seen <==> g in edges && index[edges[g].component] < i
      {
        OneEntryCounted(entries, index, edges, i, seen);
        hide Tied;
        seen := seen + Generations(entries[i].bindings);
        n := n + |entries[i].bindings|;
        i := i + 1;
      }
      assert seen == edges.Keys;
    }

    /** BeginUnbindLocked: the active edge, which is unique if there is one, retires. */
    method BeginUnbind(c: ObjectId, s: ObjectId) returns (r: Result<nat, Code>)
      requires Valid() && c in index
      modifies this
      ensures Valid()
      ensures UnbindMeets(old(State()), State(), s, c, r)
    {
      ObjectAt(c);
      hide Tied, Objects, EntryTied, Numbered, UnbindMeets, Recount;
      var e := entries[index[c]];
      var j := FindActive(e.bindings, s);
      if j == |e.bindings| {
        NothingToUnbind(State(), e, s);
        return Err(NotFound);
      }
      RecordUnbinds(State(), e, s, j);
      UpdateRecord(c, j, e.bindings[j].(active := false, retiring := true), e.componentBorrows);
      return Ok(e.bindings[j].generation);
    }

    method FindRetiring(c: ObjectId, s: ObjectId) returns (r: Option<nat>)
      requires Valid() && c in index
      ensures FindsRetiring(edges, s, c, r)
    {
      ObjectAt(c);
      hide Tied, Objects, EntryTied, Numbered, FindsRetiring;
      var e := entries[index[c]];
      var j := FirstRetiringOf(e.bindings, s);
      RetiringFound(e, edges, s, j);
      return if j < |e.bindings| then Some(e.bindings[j].generation) else None;
    }

    method FirstRetiringOf(rs: seq<Record>, s: ObjectId) returns (j: nat)
      ensures j <= |rs| && (j < |rs| ==> rs[j].subject == s && rs[j].retiring)
      ensures forall k | 0 <= k < j :: rs[k].subject != s || !rs[k].retiring
    {
      j := 0;
      while j < |rs| && !(rs[j].subject == s && rs[j].retiring)
        invariant j <= |rs|
        invariant forall k | 0 <= k < j :: rs[k].subject != s || !rs[k].retiring
      {
        j := j + 1;
      }
    }

    method FindGeneration(rs: seq<Record>, generation: nat) returns (j: nat)
      ensures j <= |rs| && (j < |rs| ==> rs[j].generation == generation)
      ensures forall k | 0 <= k < j :: rs[k].generation != generation
    {
      j := 0;
      while j < |rs| && rs[j].generation != generation
        invariant j <= |rs|
        invariant forall k | 0 <= k < j :: rs[k].generation != generation
      {
        j := j + 1;
      }
    }

    /** BorrowImpl before it calls AcquireBorrowLocked: the subject comes from the binding, not from the caller. */
    method CheckHandle(c: ObjectId, objectGeneration: nat, generation: nat) returns (r: Result<ObjectId, Code>)
      requires Valid()
      ensures r.Err? ==> forall allow :: BorrowRefusal(State(), c, objectGeneration, generation, allow) == Some(r.error)
      ensures r.Ok? ==> c in index && entries[index[c]].generation == objectGeneration && generation in edges
      ensures r.Ok? ==> edges[generation].component == c && edges[generation].subject == r.value
    {
      ObjectAt(c);
      hide Tied, Objects, EntryTied, RecordsTied, HasGeneration;
      if c !in index {
        return Err(Closed);
      }
      var e := entries[index[c]];
      if e.generation != objectGeneration {
        return Err(Closed);
      }
      var j := FindGeneration(e.bindings, generation);
      GenerationIsListed(e, edges, generation);
      r := if j < |e.bindings| then Ok(e.bindings[j].subject) else Err(Closed);
    }

    method Borrow(c: ObjectId, objectGeneration: nat, generation: nat, allowInstalling: bool)
      returns (r: Result<ObjectId, Code>)
      requires Valid()
      modifies this
      ensures Valid()
      ensures BorrowMeets(old(State()), State(), c, objectGeneration, generation, allowInstalling, r)
    {
      ObjectAt(c);
      hide BorrowRefusal, Tied, Objects, EntryTied, Take;
      r := CheckHandle(c, objectGeneration, generation);
      if r.Err? {
        return;
      }
      var refusal, k := RefuseBorrow(c, r.value, generation, allowInstalling);
      if refusal.Some? {
        return Err(refusal.value);
      }
      CountBorrow(c, k, generation);
    }

    method CountBorrow(c: ObjectId, k: nat, g: nat)
      requires Valid() && c in index && k < |entries[index[c]].bindings|
      requires g in edges && edges[g].component == c && !edges[g].retiring
      requires entries[index[c]].bindings[k] == Record(edges[g].subject, g, true, false, edges[g].borrows)
      modifies this
      ensures Valid() && State() == Take(old(State()), g)
    {
      ObjectAt(c);
      hide Tied, Objects, EntryTied, Recount, More;
      var e := entries[index[c]];
      UpdateRecord(c, k, e.bindings[k].(borrows := More(e.bindings[k].borrows)), More(e.componentBorrows));
    }

    /** AcquireBorrowLocked: the refusals, and the record to count on if there is none. */
    method RefuseBorrow(c: ObjectId, subject: ObjectId, generation: nat, allowInstalling: bool)
      returns (r: Option<Code>, k: nat)
      requires Valid() && c in index && generation in edges
      requires edges[generation].component == c && edges[generation].subject == subject
      ensures r == BorrowRefusal(State(), c, entries[index[c]].generation, generation, allowInstalling)
      ensures r.None? ==> k < |entries[index[c]].bindings| && !edges[generation].retiring
      ensures r.None? ==>
        entries[index[c]].bindings[k] == Record(subject, generation, true, false, edges[generation].borrows)
    {
      ObjectAt(c);
      ObjectAt(subject);
      hide Tied, Objects, EntryTied, RecordsTied, HasGeneration, SameElsewhere;
      var e := entries[index[c]];
      k := 0;
      if e.gateClosed {
        return Some(Closed), k;
      }
      var installing := allowInstalling || (subject in index && entries[index[subject]].state == Installing);
      if !(e.state == Running || (installing && e.state == Installed)) {
        return Some(StateRefusal(e.state)), k;
      }
      k := FindRecord(e.bindings, subject, generation);
      RecordIsListed(e, edges, subject, generation, k);
      r := if !e.bindings[k].active || e.bindings[k].retiring then Some(Closed) else None;
    }

    /** Record j of component c becomes `rec`, and the component's count becomes `borrows`. */
    method UpdateRecord(c: ObjectId, j: nat, rec: Record, borrows: nat)
      requires Valid() && c in index && j < |entries[index[c]].bindings|
      requires rec.generation == entries[index[c]].bindings[j].generation && rec.active == !rec.retiring
      modifies `entries, `edges
      ensures Valid() && rec.generation in old(edges)
      ensures old(edges)[rec.generation] == AsBinding(c, old(entries[index[c]].bindings[j]))
      ensures State() == Recount(old(State()), c, borrows, rec.generation, AsBinding(c, rec))
    {
      RecordUpdated(entries, index, edges, c, j, rec, borrows);
      ObjectAt(c);
      NumberedRecount(State(), c, borrows, rec.generation, AsBinding(c, rec));
      hide Numbered, Tied, Objects, EntryTied, RecordsTied, HasGeneration, SameElsewhere, WithRecord;
      edges, entries :=
        edges[rec.generation := AsBinding(c, rec)], entries[index[c] := WithRecord(entries[index[c]], j, rec, borrows)];
    }

    method ReleaseBorrow(c: ObjectId, s: ObjectId, generation: nat)
      requires Valid()
      modifies this
      ensures Valid() && State() == Release(old(State()), c, s, generation)
    {
      if c !in index {
        return;
      }
      ObjectAt(c);
      var e := entries[index[c]];
      hide Tied, Objects, EntryTied, RecordsTied, HasGeneration;
      var j := FindRecord(e.bindings, s, generation);
      ReleaseFinds(e, edges, s, generation, j);
      if j < |e.bindings| {
        UpdateRecord(c, j, e.bindings[j].(borrows := Less(e.bindings[j].borrows)), Less(e.componentBorrows));
      } else {
        Update(index[c], e.(componentBorrows := Less(e.componentBorrows)), edges);
      }
    }

    /** EraseSubjectBindingsLocked on one component. */
    method EraseSubjectBindings(c: ObjectId, s: ObjectId)
      requires Valid() && c in index
      modifies this
      ensures Valid() && index == old(index) && State() == old(State()).(edges := ErasedIn(old(edges), s, {c}))
    {
      ObjectAt(c);
      assert RecordsTied(c, entries[index[c]].bindings, edges);
      hide Tied, Objects, EntryTied, RecordsTied, SameElsewhere;
      var rs := entries[index[c]].bindings;
      var kept := KeepOthers(rs, s);
      RecordsKept(c, rs, edges, s);
      BindingsReplaced(entries, index, edges, c, kept, ErasedIn(edges, s, {c}));
      NumberedShrinks(State(), State().(edges := ErasedIn(edges, s, {c})));
      hide Numbered, ErasedIn;
      edges, entries := ErasedIn(edges, s, {c}), entries[index[c] := WithBindings(entries[index[c]], kept)];
    }

    method KeepOthers(rs: seq<Record>, s: ObjectId) returns (kept: seq<Record>)
      ensures kept == Kept(rs, s)
    {
      kept := [];
      var i := 0;
      while i < |rs|
        invariant i <= |rs| && kept == Kept(rs[..i], s)
      {
        assert rs[..i + 1][..i] == rs[..i];
        if !(rs[i].subject == s && rs[i].retiring) {
          kept := kept + [rs[i]];
        }
        i := i + 1;
      }
      assert rs[..i] == rs;
    }

    method BeginDestroy(id: ObjectId) returns (r: Option<Code>)
      requires Valid()
      modifies this
      ensures Valid()
      ensures r.Some? ==> RegistryModel.BeginDestroy(old(State()), id) == Err(r.value) && State() == old(State())
      ensures r.None? ==> RegistryModel.BeginDestroy(old(State()), id) == Ok(State())
    {
      ObjectAt(id);
      if id !in index {
        return Some(NotFound);
      }
      var e := entries[index[id]];
      if e.kind == Component && e.bindings != [] {
        assert e.bindings[0].generation in edges;
        return Some(Overloaded);
      }
      assert e.kind == Component ==> !HasBindings(State(), id);
      if e.opInProgress {
        return Some(Overloaded);
      }
      assert EntryTied(e.(gateClosed := true, opInProgress := true), edges);
      hide Tied, Objects, EntryTied;
      Update(index[id], e.(gateClosed := true, opInProgress := true), edges);
      return None;
    }

    /** FinishDestroyLocked: the entry leaves the deque and the index is rebuilt. */
    method FinishDestroy(id: ObjectId)
      requires Valid() && id in index
      modifies this
      ensures Valid() && State() == RegistryModel.FinishDestroy(old(State()), id)
    {
      ObjectAt(id);
      RestDistinct(entries, index, edges, id);
      hide Tied, Objects, IndexOk, Cut, EntryTied;
      var rest := Cut(entries, index[id]);
      var rebuilt := IndexOf(rest);
      ghost var left := EdgesWithout(edges, id);
      EntryRemoved(entries, index, edges, id, rebuilt, left);
      NumberedShrinks(State(), RegistryModel.FinishDestroy(State(), id));
      hide Numbered, EdgesWithout;
      entries, index, edges := rest, rebuilt, left;
    }

    method IndexOf(list: seq<Entry>) returns (positions: map<ObjectId, nat>)
      requires forall j, k | 0 <= j < k < |list| :: list[j].id != list[k].id
      ensures IndexOk(list, positions)
    {
      positions := map[];
      var i := 0;
      while i < |list|
        invariant i <= |list|
        invariant forall k | 0 <= k < i :: list[k].id in positions && positions[list[k].id] == k
        invariant forall a | a in positions :: positions[a] < i && list[positions[a]].id == a
      {
        positions := positions[list[i].id := i];
        i := i + 1;
      }
    }

    method EraseBinding(c: ObjectId, s: ObjectId, generation: nat)
      requires Valid() && c in index
      modifies this
      ensures Valid() && State() == EraseEdge(old(State()), c, s, generation)
    {
      var e := entries[index[c]];
      assert EntryTied(e, edges);
      var j := FindRecord(e.bindings, s, generation);
      ReleaseFinds(e, edges, s, generation, j);
      if j < |e.bindings| && e.bindings[j].retiring {
        RecordRemoved(c, e.bindings, edges, j);
        Update(index[c], e.(bindings := e.bindings[..j] + e.bindings[j + 1..]), edges - {generation});
      }
    }

    method SetState(id: ObjectId, state: ObjectState)
      requires Valid()
      modifies this
      ensures Valid() && State() == RegistryModel.SetState(old(State()), id, state)
    {
      if id in index {
        var e := entries[index[id]];
        assert EntryTied(e, edges);
        Update(index[id], e.(state := state), edges);
      }
    }
  }

  lemma ReleaseFinds(e: Entry, edges: map<nat, Binding>, s: ObjectId, g: nat, k: nat)
    requires EntryTied(e, edges) && k <= |e.bindings|
    requires k < |e.bindings| ==> e.bindings[k].subject == s && e.bindings[k].generation == g
    requires forall j | 0 <= j < k :: !(e.bindings[j].subject == s && e.bindings[j].generation == g)
    ensures k < |e.bindings| <==> g in edges && edges[g].component == e.id && edges[g].subject == s
    ensures k < |e.bindings| ==>
      edges[g] == AsBinding(e.id, e.bindings[k]) && e.bindings[k].active == !e.bindings[k].retiring
    ensures forall borrows :: EntryTied(e.(componentBorrows := borrows), edges)
    ensures SameElsewhere(e.id, edges, edges)
  {
    if g in edges && edges[g].component == e.id {
      assert HasGeneration(e.bindings, g);
    }
  }

  lemma NothingToUnbind(t: Table, e: Entry, s: ObjectId)
    requires EntryTied(e, t.edges)
    requires forall j | 0 <= j < |e.bindings| :: e.bindings[j].subject != s || e.bindings[j].retiring
    ensures UnbindMeets(t, t, s, e.id, Err(NotFound))
  {
    ActiveIsListed(e, t.edges, s);
  }

  lemma RecordUnbinds(t: Table, e: Entry, s: ObjectId, j: nat)
    requires EntryTied(e, t.edges) && e.id in t.objects && t.objects[e.id] == AsObject(e)
    requires j < |e.bindings| && e.bindings[j].subject == s && !e.bindings[j].retiring
    ensures var rec := e.bindings[j].(active := false, retiring := true);
      UnbindMeets(t, Recount(t, e.id, e.componentBorrows, rec.generation, AsBinding(e.id, rec)), s, e.id,
        Ok(rec.generation))
  {
    var g := e.bindings[j].generation;
    assert t.edges[g] == AsBinding(e.id, e.bindings[j]);
    assert t.objects[e.id := t.objects[e.id].(borrows := e.componentBorrows)] == t.objects;
  }

  /** The list is in generation order, so the first retiring record of a subject is its oldest. */
  lemma FirstRetiring(e: Entry, edges: map<nat, Binding>, s: ObjectId, j: nat)
    requires EntryTied(e, edges) && j < |e.bindings| && e.bindings[j].subject == s && e.bindings[j].retiring
    requires forall k | 0 <= k < j :: e.bindings[k].subject != s || !e.bindings[k].retiring
    ensures FindsRetiring(edges, s, e.id, Some(e.bindings[j].generation))
  {
    forall g | RetiringEdge(edges, g, s, e.id) ensures e.bindings[j].generation <= g {
      var k :| 0 <= k < |e.bindings| && e.bindings[k].generation == g;
    }
  }

  lemma RetiringFound(e: Entry, edges: map<nat, Binding>, s: ObjectId, j: nat)
    requires EntryTied(e, edges) && j <= |e.bindings|
    requires j < |e.bindings| ==> e.bindings[j].subject == s && e.bindings[j].retiring
    requires forall k | 0 <= k < j :: e.bindings[k].subject != s || !e.bindings[k].retiring
    ensures FindsRetiring(edges, s, e.id, if j < |e.bindings| then Some(e.bindings[j].generation) else None)
  {
    if j < |e.bindings| {
      FirstRetiring(e, edges, s, j);
    } else {
      RetiringIsListed(e, edges, s);
    }
  }

  lemma RetiringIsListed(e: Entry, edges: map<nat, Binding>, s: ObjectId)
    requires EntryTied(e, edges)
    requires forall j | 0 <= j < |e.bindings| :: e.bindings[j].subject != s || !e.bindings[j].retiring
    ensures FindsRetiring(edges, s, e.id, None)
  {
    forall g | g in edges && edges[g].component == e.id && edges[g].subject == s ensures !edges[g].retiring {
      var j :| 0 <= j < |e.bindings| && e.bindings[j].generation == g;
    }
  }

  lemma GenerationIsListed(e: Entry, edges: map<nat, Binding>, g: nat)
    requires EntryTied(e, edges)
    ensures g in edges && edges[g].component == e.id
      <==> exists j | 0 <= j < |e.bindings| :: e.bindings[j].generation == g
    ensures forall j | 0 <= j < |e.bindings| && e.bindings[j].generation == g ::
      edges[g] == AsBinding(e.id, e.bindings[j])
  {
  }

  lemma RecordIsListed(e: Entry, edges: map<nat, Binding>, s: ObjectId, g: nat, k: nat)
    requires EntryTied(e, edges) && k <= |e.bindings| && g in edges && edges[g].component == e.id
      && edges[g].subject == s
    requires k < |e.bindings| ==> e.bindings[k].subject == s && e.bindings[k].generation == g
    requires forall j | 0 <= j < k :: !(e.bindings[j].subject == s && e.bindings[j].generation == g)
    ensures k < |e.bindings| && edges[g] == AsBinding(e.id, e.bindings[k])
      && e.bindings[k].active == !e.bindings[k].retiring
  {
    assert HasGeneration(e.bindings, g);
  }

  lemma RestDistinct(entries: seq<Entry>, index: map<ObjectId, nat>, edges: map<nat, Binding>, id: ObjectId)
    requires Tied(Store(entries, index, edges)) && id in index
    ensures index[id] < |entries|
    ensures var rest := Cut(entries, index[id]); forall j, k | 0 <= j < k < |rest| :: rest[j].id != rest[k].id
  {
  }

  lemma ActiveIsListed(e: Entry, edges: map<nat, Binding>, s: ObjectId)
    requires EntryTied(e, edges)
    ensures (exists g | g in edges :: edges[g].subject == s && edges[g].component == e.id && !edges[g].retiring)
      <==> exists j | 0 <= j < |e.bindings| :: e.bindings[j].subject == s && !e.bindings[j].retiring
  {
    if g :| g in edges && edges[g].subject == s && edges[g].component == e.id && !edges[g].retiring {
      var j :| 0 <= j < |e.bindings| && e.bindings[j].generation == g;
      assert e.bindings[j].subject == s && !e.bindings[j].retiring;
    }
    if j :| 0 <= j < |e.bindings| && e.bindings[j].subject == s && !e.bindings[j].retiring {
      assert e.bindings[j].generation in edges;
    }
  }

  function Generations(rs: seq<Record>): set<nat> {
    set j | 0 <= j < |rs| :: rs[j].generation
  }

  lemma {:induction false} GenerationCount(rs: seq<Record>)
    requires forall j, k | 0 <= j < k < |rs| :: rs[j].generation < rs[k].generation
    ensures |Generations(rs)| == |rs|
    decreases |rs|
  {
    if rs == [] {
      assert Generations(rs) == {};
    } else {
      var n := |rs| - 1;
      GenerationCount(rs[..n]);
      assert forall j | 0 <= j < n :: rs[..n][j] == rs[j];
      assert Generations(rs) == Generations(rs[..n]) + {rs[n].generation};
    }
  }

  lemma OneEntryCounted(entries: seq<Entry>, index: map<ObjectId, nat>, edges: map<nat, Binding>, i: nat,
      seen: set<nat>)
    requires Tied(Store(entries, index, edges)) && i < |entries|
    requires forall g :: g in seen <==> g in edges && index[edges[g].component] < i
    ensures var more := seen + Generations(entries[i].bindings);
      && |more| == |seen| + |entries[i].bindings|
      && forall g :: g in more <==> g in edges && index[edges[g].component] < i + 1
  {
    var e := entries[i];
    assert EntryTied(e, edges);
    GenerationCount(e.bindings);
    forall g | g in edges && index[edges[g].component] == i ensures g in Generations(e.bindings) {
      assert edges[g].component == e.id;
      assert HasGeneration(e.bindings, g);
    }
    SumOfSizes(seen, Generations(e.bindings));
  }

  lemma SumOfSizes(a: set<nat>, b: set<nat>)
    requires a !! b
    ensures |a + b| == |a| + |b|
  {
  }

  lemma {:induction false} SameSize(entries: seq<Entry>, index: map<ObjectId, nat>)
    requires IndexOk(entries, index)
    ensures |entries| == |index|
    decreases |entries|
  {
    if entries == [] {
      assert index.Keys == {};
    } else {
      var n := |entries| - 1;
      var last := entries[n].id;
      var less := index - {last};
      assert forall i | 0 <= i < n :: entries[..n][i].id == entries[i].id;
      SameSize(entries[..n], less);
      assert index.Keys == less.Keys + {last};
    }
  }
}
