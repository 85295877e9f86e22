// The object registry as a value: what each critical section of Registry.cc and App.cc does to the
// entries and to the binding edges.

module RegistryModel {
  import opened Wrappers
  import opened ComponentGraph

  datatype ObjectState =
    | Created | Installing | Installed | InstallFailed | Starting | Running | Failed | Paused
    | Stopping | Stopped | StopIncomplete | Uninstalling | UninstallIncomplete | Destroyed | Invalidated

  datatype Object = Object(
    kind: ObjectKind, generation: nat, state: ObjectState, gateClosed: bool, opInProgress: bool, borrows: nat)

  /** A binding: `subject` may borrow `component` until the edge retires.  The key is its generation. */
  datatype Binding = Binding(component: ObjectId, subject: ObjectId, retiring: bool, borrows: nat)

  datatype Limits = Limits(maxObjects: nat, maxBindings: nat)

  /** Object and edge generations come from one counter, ids from another; neither is ever reset. */
  datatype Table = Table(
    objects: map<ObjectId, Object>, edges: map<nat, Binding>, nextId: nat, nextGeneration: nat)

  datatype Code = InvalidArgument | Closed | Overloaded | NotFound

  const EMPTY := Table(map[], map[], 1, 1)

  function More(n: nat): nat {
    n + 1
  }

  // ---------- Entries ----------

  function Create(limits: Limits, t: Table, kind: ObjectKind, state: ObjectState): Result<Table, Code> {
    if |t.objects| >= limits.maxObjects then Err(Overloaded) else Ok(WithNewEntry(t, kind, state))
  }

  /** A new id and a new generation. */
  function WithNewEntry(t: Table, kind: ObjectKind, state: ObjectState): Table {
    var o := Object(kind, t.nextGeneration, state, false, false, 0);
    t.(objects := t.objects[ObjectId(kind, t.nextId) := o],
       nextId := More(t.nextId), nextGeneration := More(t.nextGeneration))
  }

  function SetState(t: Table, id: ObjectId, state: ObjectState): Table {
    if id in t.objects then
      t.(objects := t.objects[id := t.objects[id].(state := state)])
    else
      t
  }

  predicate HasBindings(t: Table, c: ObjectId) {
    exists g :: g in t.edges && t.edges[g].component == c
  }

  /** BeginDestroyLocked: closes the gate for good and takes the operation flag. */
  function BeginDestroy(t: Table, id: ObjectId): Result<Table, Code> {
    if id !in t.objects then
      Err(NotFound)
    else if t.objects[id].kind == Component && HasBindings(t, id) then
      Err(Overloaded)
    else if t.objects[id].opInProgress then
      Err(Overloaded)
    else
      Ok(t.(objects := t.objects[id := t.objects[id].(gateClosed := true, opInProgress := true)]))
  }

  /** FinishDestroyLocked: the entry goes, and its binding list with it. */
  function FinishDestroy(t: Table, id: ObjectId): Table {
    t.(objects := t.objects - {id},
       edges := EdgesWithout(t.edges, id))
  }

  function EdgesWithout(edges: map<nat, Binding>, c: ObjectId): map<nat, Binding> {
    map g | g in edges && edges[g].component != c :: edges[g]
  }

  // ---------- Edges ----------

  predicate ActiveEdge(t: Table, g: nat, s: ObjectId, c: ObjectId) {
    g in t.edges && t.edges[g].subject == s && t.edges[g].component == c && !t.edges[g].retiring
  }

  predicate HasActiveEdge(t: Table, s: ObjectId, c: ObjectId) {
    exists g | g in t.edges :: ActiveEdge(t, g, s, c)
  }

  predicate ClosingSubject(o: Object) {
    || o.gateClosed || o.opInProgress
    || o.state in {Stopping, Stopped, Uninstalling, Destroyed, Invalidated, StopIncomplete, UninstallIncomplete}
  }

  function NewEdge(t: Table, s: ObjectId, c: ObjectId): Table {
    t.(edges := t.edges[t.nextGeneration := Binding(c, s, false, 0)], nextGeneration := More(t.nextGeneration))
  }

  /** BindLocked: its refusals, in order. */
  function BindRefusal(limits: Limits, t: Table, s: ObjectId, c: ObjectId): Option<Code>
    requires s in t.objects && c in t.objects
  {
    if t.objects[c].kind != Component then Some(InvalidArgument)
    else if t.objects[c].gateClosed then Some(Closed)
    else if ClosingSubject(t.objects[s]) then Some(Closed)
    else if |t.edges| >= limits.maxBindings then Some(Overloaded)
    else if HasActiveEdge(t, s, c) then Some(InvalidArgument)
    else None
  }

  function Bind(limits: Limits, t: Table, s: ObjectId, c: ObjectId): Result<Table, Code>
    requires s in t.objects && c in t.objects
  {
    match BindRefusal(limits, t, s, c)
    case Some(code) => Err(code)
    case None => Ok(NewEdge(t, s, c))
  }

  /** _BindComponentImpl under the lock: a stale subject, an App subject, a component type the service does not
      allow, a component that is not found, a cycle, and then the refusals of BindLocked. */
  ghost function BindComponentRefusal(limits: Limits, t: Table, s: ObjectId, subjectGeneration: nat, allowed: bool,
                                      found: Option<ObjectId>): Option<Code>
    requires found.Some? ==> found.value in t.objects
  {
    if s !in t.objects || t.objects[s].generation != subjectGeneration then Some(NotFound)
    else if t.objects[s].kind == App then Some(InvalidArgument)
    else if t.objects[s].kind == Service && !allowed then Some(InvalidArgument)
    else if found.None? then Some(NotFound)
    else if t.objects[s].kind == Component && ClosesCycle(t, s, found.value) then Some(InvalidArgument)
    else BindRefusal(limits, t, s, found.value)
  }

  function Retire(t: Table, g: nat): Table
    requires g in t.edges
  {
    t.(edges := t.edges[g := t.edges[g].(retiring := true)])
  }

  /** What _DestroyService and _UninstallServiceImpl do to all edges of one subject. */
  function RetireSubject(t: Table, s: ObjectId): Table {
    t.(edges := map g | g in t.edges ::
         if t.edges[g].subject == s then t.edges[g].(retiring := true) else t.edges[g])
  }

  predicate Drained(t: Table, g: nat) {
    g in t.edges ==> t.edges[g].borrows == 0
  }

  /** EraseBindingLocked: only a retiring edge of that component and subject goes, whatever its borrow count says. */
  function EraseEdge(t: Table, c: ObjectId, s: ObjectId, g: nat): Table {
    if g in t.edges && t.edges[g].component == c && t.edges[g].subject == s && t.edges[g].retiring then
      t.(edges := t.edges - {g})
    else
      t
  }

  /** EraseSubjectBindingsLocked over all components. */
  function EraseSubject(t: Table, s: ObjectId): Table {
    t.(edges := map g | g in t.edges && !(t.edges[g].subject == s && t.edges[g].retiring) :: t.edges[g])
  }

  // ---------- Borrows ----------

  predicate Borrowable(t: Table, s: ObjectId, state: ObjectState, allowInstalling: bool) {
    || state == Running
    || (state == Installed && (allowInstalling || (s in t.objects && t.objects[s].state == Installing)))
  }

  function StateRefusal(state: ObjectState): Code {
    if state in {Installing, Starting, Paused, Created, Installed} then Overloaded else Closed
  }

  /** BorrowImpl: why a borrow of component c through binding generation g is refused, if it is. */
  function BorrowRefusal(t: Table, c: ObjectId, objectGeneration: nat, g: nat, allowInstalling: bool): Option<Code> {
    if c !in t.objects then Some(Closed)
    else if t.objects[c].generation != objectGeneration then Some(Closed)
    else if g !in t.edges || t.edges[g].component != c then Some(Closed)
    else if t.objects[c].gateClosed then Some(Closed)
    else if !Borrowable(t, t.edges[g].subject, t.objects[c].state, allowInstalling) then
      Some(StateRefusal(t.objects[c].state))
    else if t.edges[g].retiring then Some(Closed)
    else None
  }

  /** Component c gets the borrow count, and generation g the binding. */
  function Recount(t: Table, c: ObjectId, borrows: nat, g: nat, e: Binding): Table {
    if c in t.objects then
      t.(objects := t.objects[c := t.objects[c].(borrows := borrows)], edges := t.edges[g := e])
    else
      t
  }

  /** Both counts move together: the component's and the edge's. */
  function Take(t: Table, g: nat): Table
    requires g in t.edges && t.edges[g].component in t.objects
  {
    var e := t.edges[g];
    Recount(t, e.component, More(t.objects[e.component].borrows), g, e.(borrows := More(e.borrows)))
  }

  function Less(n: nat): nat {
    if n > 0 then n - 1 else 0
  }

  /** ReleaseBorrow: a vanished component or edge is skipped, and no count goes below zero. */
  function Release(t: Table, c: ObjectId, s: ObjectId, g: nat): Table {
    if c !in t.objects then
      t
    else if g in t.edges && t.edges[g].component == c && t.edges[g].subject == s then
      Recount(t, c, Less(t.objects[c].borrows), g, t.edges[g].(borrows := Less(t.edges[g].borrows)))
    else
      t.(objects := t.objects[c := t.objects[c].(borrows := Less(t.objects[c].borrows))])
  }

  // ---------- The dependency graph of the table ----------

  predicate IsComponent(t: Table, a: ObjectId) {
    a in t.objects && t.objects[a].kind == Component
  }

  predicate Bound(t: Table, a: ObjectId, d: ObjectId) {
    exists g :: g in t.edges && t.edges[g].subject == a && t.edges[g].component == d
  }

  /** A list of the elements of a set. */
  ghost function Listed(s: set<ObjectId>): (r: seq<ObjectId>)
    ensures forall a :: a in r <==> a in s
  {
    if s == {} then [] else var a :| a in s; [a] + Listed(s - {a})
  }

  /** Retiring edges count: the source builds the graph from every binding still listed. */
  ghost function GraphOf(t: Table): Graph {
    map a | a in t.objects && IsComponent(t, a) ::
      Listed(set d | d in t.objects && IsComponent(t, d) && Bound(t, a, d))
  }

  ghost predicate SameEdges(g: Graph, g': Graph) {
    SubGraph(g, g') && SubGraph(g', g)
  }

  ghost predicate Acyclic(t: Table) {
    !Cyclic(GraphOf(t))
  }

  /** _WouldFormCycleLocked. */
  ghost predicate ClosesCycle(t: Table, s: ObjectId, c: ObjectId) {
    s == c || Reaches(GraphOf(t), c, s)
  }

  lemma GraphEdge(t: Table, a: ObjectId, d: ObjectId)
    ensures Edge(GraphOf(t), a, d) <==> IsComponent(t, a) && IsComponent(t, d) && Bound(t, a, d)
  {
  }

  // ---------- Invariants of the table alone ----------

  predicate ObjectsOk(t: Table) {
    forall id | id in t.objects ::
      id.number < t.nextId && t.objects[id].generation < t.nextGeneration && t.objects[id].kind == id.kind
  }

  predicate EdgesOk(t: Table) {
    forall g | g in t.edges ::
      && g < t.nextGeneration
      && IsComponent(t, t.edges[g].component)
      && !t.objects[t.edges[g].component].gateClosed
      && t.edges[g].subject.number < t.nextId
  }

  /** At most one active edge for each subject and component. */
  ghost predicate ActiveUnique(t: Table) {
    forall g, h, s, c | ActiveEdge(t, g, s, c) && ActiveEdge(t, h, s, c) :: g == h
  }

  /** No object and edge, and no two objects, share a generation. */
  predicate GenerationsUnique(t: Table) {
    && (forall a, b | a in t.objects && b in t.objects && a != b :: t.objects[a].generation != t.objects[b].generation)
    && (forall a | a in t.objects :: t.objects[a].generation !in t.edges)
  }

  ghost predicate TableInv(t: Table) {
    ObjectsOk(t) && EdgesOk(t) && ActiveUnique(t) && GenerationsUnique(t) && Acyclic(t)
  }
}
