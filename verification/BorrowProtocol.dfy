// Binding, borrowing, unbinding, stopping and uninstalling, interleaved: every step is one critical
// section of Registry.cc or App.cc, and any number of jobs run at once.

module BorrowProtocol {
  import opened Wrappers
  import opened ComponentGraph
  import opened RegistryModel
  import opened RegistryProofs

  /** A live BindingLease. */
  datatype Lease = Lease(component: ObjectId, subject: ObjectId, generation: nat)

  /** How far a job that ends an object has come.  `pending` are the generations still to be waited for. */
  datatype Phase = Begun | Draining(pending: seq<nat>) | InOnStop | Erased

  datatype Job =
    | Unbind(component: ObjectId, subject: ObjectId, generation: nat, drained: bool)
    | StopService(id: ObjectId, phase: Phase)
    | UninstallService(id: ObjectId, phase: Phase)
    | StopComponent(id: ObjectId, phase: Phase)
    | UninstallComponent(id: ObjectId, phase: Phase)

  datatype State = State(t: Table, leases: seq<Lease>, jobs: map<nat, Job>)

  datatype Event =
    | CreateObject(kind: ObjectKind)
    | ChangeState(changed: ObjectId, state: ObjectState)
    | BindComponent(subject: ObjectId, component: ObjectId)
    | Borrow(component: ObjectId, objectGeneration: nat, generation: nat, allowInstalling: bool)
    | ReturnLease(index: nat)
    | BeginUnbind(job: nat, subject: ObjectId, component: ObjectId, generation: nat)
    | UnbindDrained(job: nat)
    | EndUnbind(job: nat)
    | BeginStopService(job: nat, id: ObjectId)
    | BeginUninstallService(job: nat, id: ObjectId)
    | CollectEdges(job: nat, found: seq<nat>)
    | EdgeDrained(job: nat)
    | EraseEdges(job: nat)
    | BeginStopComponent(job: nat, id: ObjectId)
    | BeginUninstallComponent(job: nat, id: ObjectId)
    | CallOnStop(job: nat)
    | Abort(job: nat)
    | Finish(job: nat)
    | DestroyActor(id: ObjectId)

  // ---------- Leases ----------

  function CountOn(leases: seq<Lease>, c: ObjectId): nat {
    if leases == [] then 0
    else CountOn(leases[..|leases| - 1], c) + (if leases[|leases| - 1].component == c then 1 else 0)
  }

  function CountFor(leases: seq<Lease>, g: nat): nat {
    if leases == [] then 0
    else CountFor(leases[..|leases| - 1], g) + (if leases[|leases| - 1].generation == g then 1 else 0)
  }

  function Without(leases: seq<Lease>, i: nat): seq<Lease>
    requires i < |leases|
  {
    leases[..i] + leases[i + 1..]
  }

  // ---------- Jobs ----------

  /** The object a job holds the operation flag of, if it takes one. */
  function OwnedBy(j: Job): Option<ObjectId> {
    if j.Unbind? then None else Some(j.id)
  }

  predicate ServiceJob(j: Job) {
    j.StopService? || j.UninstallService?
  }

  predicate StopsComponent(s: State, id: ObjectId) {
    exists k | k in s.jobs :: s.jobs[k].StopComponent? && s.jobs[k].id == id
  }

  /** Nobody can borrow a component that _DestroyComponent works on, and from OnStop on nobody holds it. */
  predicate StopSafe(s: State, c: ObjectId) {
    forall k | k in s.jobs && s.jobs[k].StopComponent? && s.jobs[k].id == c ::
      && c in s.t.objects && s.t.objects[c].state !in {Running, Installed}
      && (s.jobs[k].phase != Begun ==> s.t.objects[c].borrows == 0)
  }

  /** A change of state that would make a component borrowable while _DestroyComponent works on it: only an
      install still in flight on the same component can do that. */
  predicate Revives(s: State, e: Event) {
    e.ChangeState? && e.state in {Running, Installed} && StopsComponent(s, e.changed)
  }

  // ---------- Steps ----------

  /** A service stops once its edges are drained, uninstalls once they are erased too; a component waits for
      its own count. */
  predicate ReadyForOnStop(t: Table, j: Job) {
    match j
    case Unbind(_, _, _, _) => false
    case StopService(_, p) => p == Draining([])
    case UninstallService(_, p) => p == Erased
    case StopComponent(id, p) => p == Begun && (id in t.objects ==> t.objects[id].borrows == 0)
    case UninstallComponent(id, p) => p == Begun && (id in t.objects ==> t.objects[id].borrows == 0)
  }

  /** FindRetiringBindingLocked takes the first in list order, which is the oldest generation. */
  ghost predicate OldestRetiring(t: Table, g: nat, x: ObjectId, c: ObjectId) {
    forall h | h in t.edges && t.edges[h].subject == x && t.edges[h].component == c && t.edges[h].retiring :: g <= h
  }

  ghost predicate Enabled(limits: Limits, s: State, e: Event) {
    match e
    case CreateObject(kind) => Create(limits, s.t, kind, Created).Ok?
    case ChangeState(id, state) => id in s.t.objects
    case BindComponent(x, c) =>
      && x in s.t.objects && c in s.t.objects && s.t.objects[x].kind != App
      && (IsComponent(s.t, x) ==> !ClosesCycle(s.t, x, c))
      && Bind(limits, s.t, x, c).Ok?
    case Borrow(c, og, g, allow) => BorrowRefusal(s.t, c, og, g, allow).None?
    case ReturnLease(i) => i < |s.leases|
    case BeginUnbind(k, x, c, g) =>
      && k !in s.jobs && c in s.t.objects && g in s.t.edges
      && s.t.edges[g].subject == x && s.t.edges[g].component == c
      && (s.t.edges[g].retiring ==> !HasActiveEdge(s.t, x, c) && OldestRetiring(s.t, g, x, c))
    case UnbindDrained(k) => k in s.jobs && s.jobs[k].Unbind? && Drained(s.t, s.jobs[k].generation)
    case EndUnbind(k) => k in s.jobs && s.jobs[k].Unbind? && s.jobs[k].drained
    case BeginStopService(k, id) =>
      k !in s.jobs && id in s.t.objects && s.t.objects[id].kind == Service && !s.t.objects[id].opInProgress
    case BeginUninstallService(k, id) =>
      k !in s.jobs && id in s.t.objects && s.t.objects[id].kind == Service && RegistryModel.BeginDestroy(s.t, id).Ok?
    case CollectEdges(k, found) =>
      && k in s.jobs && ServiceJob(s.jobs[k]) && s.jobs[k].phase == Begun
      && forall g :: g in found <==>
           && g in s.t.edges && s.t.edges[g].subject == s.jobs[k].id
           && (s.jobs[k].StopService? ==> s.t.edges[g].retiring)
    case EdgeDrained(k) =>
      && k in s.jobs && !s.jobs[k].Unbind? && s.jobs[k].phase.Draining? && s.jobs[k].phase.pending != []
      && Drained(s.t, s.jobs[k].phase.pending[0])
    case EraseEdges(k) =>
      && k in s.jobs && ServiceJob(s.jobs[k])
      && s.jobs[k].phase == (if s.jobs[k].StopService? then InOnStop else Draining([]))
    case BeginStopComponent(k, id) =>
      k !in s.jobs && IsComponent(s.t, id) && !s.t.objects[id].opInProgress
    case BeginUninstallComponent(k, id) =>
      k !in s.jobs && IsComponent(s.t, id) && RegistryModel.BeginDestroy(s.t, id).Ok?
    case CallOnStop(k) =>
      k in s.jobs && ReadyForOnStop(s.t, s.jobs[k])
    case Abort(k) => k in s.jobs && (s.jobs[k].Unbind? || s.jobs[k].phase != Erased)
    case Finish(k) =>
      && k in s.jobs && !s.jobs[k].Unbind?
      && s.jobs[k].phase == (if s.jobs[k].StopService? then Erased else InOnStop)
    case DestroyActor(id) => id in s.t.objects && s.t.objects[id].kind == Actor
  }

  function SetOp(t: Table, id: ObjectId, busy: bool): Table {
    if id in t.objects then
      t.(objects := t.objects[id := t.objects[id].(opInProgress := busy)])
    else
      t
  }

  function IncompleteState(j: Job): ObjectState {
    if j.StopService? || j.StopComponent? then StopIncomplete else UninstallIncomplete
  }

  function Advance(s: State, k: nat, phase: Phase): State
    requires k in s.jobs && !s.jobs[k].Unbind?
  {
    s.(jobs := s.jobs[k := s.jobs[k].(phase := phase)])
  }

  ghost function Next(limits: Limits, s: State, e: Event): State
    requires Enabled(limits, s, e)
  {
    match e
    case CreateObject(kind) => s.(t := Create(limits, s.t, kind, Created).value)
    case ChangeState(id, state) => s.(t := SetState(s.t, id, state))
    case BindComponent(x, c) => s.(t := Bind(limits, s.t, x, c).value)
    case Borrow(c, og, g, allow) =>
      s.(t := Take(s.t, g), leases := s.leases + [Lease(c, s.t.edges[g].subject, g)])
    case ReturnLease(i) =>
      var l := s.leases[i];
      s.(t := Release(s.t, l.component, l.subject, l.generation), leases := Without(s.leases, i))
    case BeginUnbind(k, x, c, g) => s.(t := Retire(s.t, g), jobs := s.jobs[k := Unbind(c, x, g, false)])
    case UnbindDrained(k) => s.(jobs := s.jobs[k := s.jobs[k].(drained := true)])
    case EndUnbind(k) =>
      var j := s.jobs[k];
      s.(t := EraseEdge(s.t, j.component, j.subject, j.generation), jobs := s.jobs - {k})
    case BeginStopService(k, id) =>
      s.(t := RetireSubject(SetState(SetOp(s.t, id, true), id, Stopping), id),
         jobs := s.jobs[k := StopService(id, Begun)])
    case BeginUninstallService(k, id) =>
      s.(t := SetState(RegistryModel.BeginDestroy(s.t, id).value, id, Uninstalling),
         jobs := s.jobs[k := UninstallService(id, Begun)])
    case CollectEdges(k, found) =>
      var s' := Advance(s, k, Draining(found));
      if s.jobs[k].UninstallService? then s'.(t := RetireSubject(s.t, s.jobs[k].id)) else s'
    case EdgeDrained(k) => Advance(s, k, Draining(s.jobs[k].phase.pending[1..]))
    case EraseEdges(k) => Advance(s, k, Erased).(t := EraseSubject(s.t, s.jobs[k].id))
    case BeginStopComponent(k, id) =>
      s.(t := SetState(SetOp(s.t, id, true), id, Stopping), jobs := s.jobs[k := StopComponent(id, Begun)])
    case BeginUninstallComponent(k, id) =>
      s.(t := SetState(RegistryModel.BeginDestroy(s.t, id).value, id, Uninstalling),
         jobs := s.jobs[k := UninstallComponent(id, Begun)])
    case CallOnStop(k) => Advance(s, k, InOnStop)
    case Abort(k) =>
      var j := s.jobs[k];
      var s' := s.(jobs := s.jobs - {k});
      if j.Unbind? then s' else s'.(t := SetState(SetOp(s.t, j.id, false), j.id, IncompleteState(j)))
    case Finish(k) => s.(t := FinishDestroy(s.t, s.jobs[k].id), jobs := s.jobs - {k})
    case DestroyActor(id) => s.(t := FinishDestroy(s.t, id))
  }

  // ---------- Invariants ----------

  /** While its component is registered a lease has its edge, so no edge goes while somebody still uses it. */
  predicate LeaseOk(t: Table, l: Lease) {
    && l.component.number < t.nextId
    && l.generation < t.nextGeneration
    && (l.component in t.objects ==> l.generation in t.edges)
    && (l.generation in t.edges ==>
          t.edges[l.generation].component == l.component && t.edges[l.generation].subject == l.subject)
  }

  predicate LeasesOk(t: Table, leases: seq<Lease>) {
    forall i | 0 <= i < |leases| :: LeaseOk(t, leases[i])
  }

  /** Conservation: both counters are exact. */
  predicate CountsOk(t: Table, leases: seq<Lease>) {
    && (forall c | c in t.objects :: t.objects[c].borrows == CountOn(leases, c))
    && (forall g | g in t.edges :: t.edges[g].borrows == CountFor(leases, g))
  }

  ghost predicate Accounted(t: Table, leases: seq<Lease>) {
    LeasesOk(t, leases) && CountsOk(t, leases)
  }

  /** Every edge of the subject is retiring, and drained unless it is still being waited for. */
  predicate Settling(t: Table, s: ObjectId, pending: seq<nat>) {
    forall g | g in t.edges && t.edges[g].subject == s ::
      t.edges[g].retiring && (g in pending || t.edges[g].borrows == 0)
  }

  predicate SubjectRetired(t: Table, s: ObjectId) {
    forall g | g in t.edges && t.edges[g].subject == s :: t.edges[g].retiring
  }

  predicate NoEdges(t: Table, s: ObjectId) {
    forall g | g in t.edges :: t.edges[g].subject != s
  }

  predicate Holds(t: Table, id: ObjectId, kind: ObjectKind) {
    id in t.objects && t.objects[id].kind == kind && t.objects[id].opInProgress
  }

  predicate JobOk(t: Table, j: Job) {
    match j
    case Unbind(c, x, g, drained) =>
      && g < t.nextGeneration
      && (g in t.edges ==> t.edges[g].component == c && t.edges[g].subject == x && t.edges[g].retiring)
      && (drained ==> Drained(t, g))
    case StopService(id, p) =>
      && Holds(t, id, Service)
      && (match p
          case Begun => SubjectRetired(t, id)
          case Draining(pending) => Settling(t, id, pending)
          case InOnStop => Settling(t, id, [])
          case Erased => NoEdges(t, id))
    case UninstallService(id, p) =>
      && Holds(t, id, Service)
      && (match p
          case Begun => true
          case Draining(pending) => Settling(t, id, pending)
          case InOnStop => NoEdges(t, id)
          case Erased => NoEdges(t, id))
    case StopComponent(id, _) => Holds(t, id, Component)
    case UninstallComponent(id, p) =>
      && Holds(t, id, Component)
      && t.objects[id].gateClosed
  }

  /** The operation flag keeps jobs apart: no two of them end the same object. */
  ghost predicate JobsOk(t: Table, jobs: map<nat, Job>) {
    && (forall k | k in jobs :: JobOk(t, jobs[k]))
    && (forall k, m | k in jobs && m in jobs && k != m && OwnedBy(jobs[k]).Some? ::
      OwnedBy(jobs[k]) != OwnedBy(jobs[m]))
  }

  ghost predicate Inv(s: State) {
    TableInv(s.t) && Accounted(s.t, s.leases) && JobsOk(s.t, s.jobs)
  }
}
