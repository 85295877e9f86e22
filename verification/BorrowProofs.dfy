// Every step keeps the invariants of the borrow protocol, and what follows for whole runs.

module BorrowProofs {
  import opened Wrappers
  import opened ComponentGraph
  import opened RegistryModel
  import opened RegistryProofs
  import opened BorrowProtocol

  // ---------- Counting leases ----------

  lemma CountAppended(leases: seq<Lease>, l: Lease, c: ObjectId, g: nat)
    ensures CountOn(leases + [l], c) == CountOn(leases, c) + (if l.component == c then 1 else 0)
    ensures CountFor(leases + [l], g) == CountFor(leases, g) + (if l.generation == g then 1 else 0)
  {
    assert (leases + [l])[..|leases + [l]| - 1] == leases;
  }

  lemma {:induction false} CountRemoved(leases: seq<Lease>, i: nat, c: ObjectId, g: nat)
    requires i < |leases|
    ensures CountOn(leases, c) == CountOn(Without(leases, i), c) + (if leases[i].component == c then 1 else 0)
    ensures CountFor(leases, g) == CountFor(Without(leases, i), g) + (if leases[i].generation == g then 1 else 0)
    decreases |leases|
  {
    var n := |leases| - 1;
    if i == n {
      assert Without(leases, i) == leases[..n];
    } else {
      CountRemoved(leases[..n], i, c, g);
      assert Without(leases, i) == Without(leases[..n], i) + [leases[n]];
      CountAppended(Without(leases[..n], i), leases[n], c, g);
    }
  }

  lemma {:induction false} NoneCounted(leases: seq<Lease>, c: ObjectId, g: nat)
    ensures CountOn(leases, c) == 0 <==> forall i | 0 <= i < |leases| :: leases[i].component != c
    ensures CountFor(leases, g) == 0 <==> forall i | 0 <= i < |leases| :: leases[i].generation != g
    decreases |leases|
  {
    if leases != [] {
      NoneCounted(leases[..|leases| - 1], c, g);
    }
  }

  // ---------- What a step must leave alone for a job's facts to survive ----------

  /** Old edges only retire, drain or go; edges that are new do not belong to `owner`. */
  ghost predicate Calm(t: Table, t': Table, owner: Option<ObjectId>) {
    && t.nextGeneration <= t'.nextGeneration
    && (forall g | g in t'.edges && g < t.nextGeneration ::
         && g in t.edges
         && t'.edges[g].component == t.edges[g].component
         && t'.edges[g].subject == t.edges[g].subject
         && (t.edges[g].retiring ==> t'.edges[g].retiring && t'.edges[g].borrows <= t.edges[g].borrows))
    && (forall g | g in t'.edges && g >= t.nextGeneration :: Some(t'.edges[g].subject) != owner)
  }

  predicate SameOwner(t: Table, t': Table, j: Job) {
    OwnedBy(j).Some? ==>
      && j.id in t.objects && j.id in t'.objects
      && t'.objects[j.id].kind == t.objects[j.id].kind
      && t'.objects[j.id].opInProgress == t.objects[j.id].opInProgress
      && t'.objects[j.id].gateClosed == t.objects[j.id].gateClosed
  }

  lemma JobSurvives(t: Table, t': Table, j: Job)
    requires EdgesOk(t) && JobOk(t, j) && Calm(t, t', OwnedBy(j)) && SameOwner(t, t', j)
    ensures JobOk(t', j)
  {
  }

  /** All jobs survive a step that none of them takes. */
  lemma JobsSurvive(t: Table, t': Table, jobs: map<nat, Job>)
    requires EdgesOk(t) && JobsOk(t, jobs)
    requires forall k | k in jobs :: Calm(t, t', OwnedBy(jobs[k])) && SameOwner(t, t', jobs[k])
    ensures JobsOk(t', jobs)
  {
    forall k | k in jobs ensures JobOk(t', jobs[k]) {
      JobSurvives(t, t', jobs[k]);
    }
  }

  /** One job takes the step, keeps or newly takes its object, and the others survive. */
  lemma OneJobSteps(t: Table, t': Table, jobs: map<nat, Job>, k: nat, j: Job)
    requires EdgesOk(t) && JobsOk(t, jobs) && JobOk(t', j)
    requires forall m | m in jobs && m != k :: Calm(t, t', OwnedBy(jobs[m])) && SameOwner(t, t', jobs[m])
    requires forall m | m in jobs && m != k && OwnedBy(j).Some? :: OwnedBy(jobs[m]) != OwnedBy(j)
    ensures JobsOk(t', jobs[k := j])
  {
    forall m | m in jobs && m != k ensures JobOk(t', jobs[m]) {
      JobSurvives(t, t', jobs[m]);
    }
  }

  lemma OneJobEnds(t: Table, t': Table, jobs: map<nat, Job>, k: nat)
    requires EdgesOk(t) && JobsOk(t, jobs) && k in jobs
    requires forall m | m in jobs && m != k :: Calm(t, t', OwnedBy(jobs[m])) && SameOwner(t, t', jobs[m])
    ensures JobsOk(t', jobs - {k})
  {
    forall m | m in jobs && m != k ensures JobOk(t', jobs[m]) {
      JobSurvives(t, t', jobs[m]);
    }
  }

  // ---------- The table ----------

  lemma ObjectStepKeepsTable(t: Table, t': Table, id: ObjectId)
    requires TableInv(t) && id in t.objects && id in t'.objects
    requires t' == t.(objects := t.objects[id := t'.objects[id]])
    requires t'.objects[id].kind == t.objects[id].kind && t'.objects[id].generation == t.objects[id].generation
    requires t'.objects[id].gateClosed && IsComponent(t, id) ==> t.objects[id].gateClosed || !HasBindings(t, id)
    ensures TableInv(t')
  {
    ObjectUpdateKeepsInv(t, id, t'.objects[id]);
  }

  lemma SetOpKeepsTable(t: Table, id: ObjectId, busy: bool, state: ObjectState)
    requires TableInv(t)
    ensures TableInv(SetState(SetOp(t, id, busy), id, state))
  {
    hide TableInv;
    if id in t.objects {
      var t' := SetState(SetOp(t, id, busy), id, state);
      assert t' == t.(objects := t.objects[id := t'.objects[id]]);
      ObjectStepKeepsTable(t, t', id);
    } else {
      assert SetState(SetOp(t, id, busy), id, state) == t;
    }
  }

  lemma BeginDestroyKeepsTable(t: Table, id: ObjectId, state: ObjectState)
    requires TableInv(t) && BeginDestroy(t, id).Ok?
    ensures TableInv(SetState(BeginDestroy(t, id).value, id, state))
  {
    var t' := SetState(BeginDestroy(t, id).value, id, state);
    assert t' == t.(objects := t.objects[id := t'.objects[id]]);
    ObjectStepKeepsTable(t, t', id);
  }

  lemma RetireSubjectKeepsTable(t: Table, id: ObjectId)
    requires TableInv(t)
    ensures TableInv(RetireSubject(t, id))
  {
    ShrinkKeepsInv(t, RetireSubject(t, id));
  }

  lemma NextKeepsTable(limits: Limits, s: State, e: Event)
    requires TableInv(s.t) && Enabled(limits, s, e)
    ensures TableInv(Next(limits, s, e).t)
  {
    hide TableInv;
    match e
    case CreateObject(kind) => CreateKeepsInv(limits, s.t, kind, Created);
    case ChangeState(id, state) =>
      assert SetState(s.t, id, state) == SetState(SetOp(s.t, id, s.t.objects[id].opInProgress), id, state);
      SetOpKeepsTable(s.t, id, s.t.objects[id].opInProgress, state);
    case BindComponent(x, c) => BindKeepsInv(limits, s.t, x, c);
    case Borrow(c, og, g, allow) => TakeKeepsInv(s.t, g);
    case ReturnLease(i) => ReleaseKeepsInv(s.t, s.leases[i].component, s.leases[i].subject, s.leases[i].generation);
    case BeginUnbind(k, x, c, g) => ShrinkKeepsInv(s.t, Retire(s.t, g));
    case UnbindDrained(k) =>
    case EndUnbind(k) =>
      var j := s.jobs[k];
      ShrinkKeepsInv(s.t, EraseEdge(s.t, j.component, j.subject, j.generation));
    case BeginStopService(k, id) =>
      SetOpKeepsTable(s.t, id, true, Stopping);
      RetireSubjectKeepsTable(SetState(SetOp(s.t, id, true), id, Stopping), id);
    case BeginUninstallService(k, id) => BeginDestroyKeepsTable(s.t, id, Uninstalling);
    case CollectEdges(k, found) => RetireSubjectKeepsTable(s.t, s.jobs[k].id);
    case EdgeDrained(k) =>
    case EraseEdges(k) => ShrinkKeepsInv(s.t, EraseSubject(s.t, s.jobs[k].id));
    case BeginStopComponent(k, id) => SetOpKeepsTable(s.t, id, true, Stopping);
    case BeginUninstallComponent(k, id) => BeginDestroyKeepsTable(s.t, id, Uninstalling);
    case CallOnStop(k) =>
    case Abort(k) =>
      if !s.jobs[k].Unbind? {
        SetOpKeepsTable(s.t, s.jobs[k].id, false, IncompleteState(s.jobs[k]));
      }
    case Finish(k) => FinishDestroyKeepsInv(s.t, s.jobs[k].id);
    case DestroyActor(id) => FinishDestroyKeepsInv(s.t, id);
  }

  // ---------- Leases and counts ----------

  /** Only undrained edges of a component that goes itself are lost; nothing else about the counts changes. */
  lemma LessIsAccounted(t: Table, t': Table, leases: seq<Lease>)
    requires Accounted(t, leases) && t.nextId <= t'.nextId && t.nextGeneration <= t'.nextGeneration
    requires forall g | g in t'.edges ::
               && g in t.edges && t'.edges[g].component == t.edges[g].component
               && t'.edges[g].subject == t.edges[g].subject && t'.edges[g].borrows == t.edges[g].borrows
    requires forall c | c in t'.objects :: c in t.objects && t'.objects[c].borrows == t.objects[c].borrows
    requires forall g | g in t.edges && g !in t'.edges ::
               t.edges[g].borrows == 0 || t.edges[g].component !in t'.objects
    ensures Accounted(t', leases)
  {
    forall i | 0 <= i < |leases| ensures LeaseOk(t', leases[i]) {
      assert LeaseOk(t, leases[i]);
      NoneCounted(leases, leases[i].component, leases[i].generation);
    }
  }

  lemma CreateIsAccounted(limits: Limits, t: Table, leases: seq<Lease>, kind: ObjectKind)
    requires TableInv(t) && Accounted(t, leases) && Create(limits, t, kind, Created).Ok?
    ensures Accounted(Create(limits, t, kind, Created).value, leases)
  {
    hide Acyclic, ActiveUnique, GenerationsUnique;
    var t' := Create(limits, t, kind, Created).value;
    forall i | 0 <= i < |leases|
      ensures LeaseOk(t', leases[i]) && leases[i].component != ObjectId(kind, t.nextId)
    {
      assert LeaseOk(t, leases[i]);
    }
    NoneCounted(leases, ObjectId(kind, t.nextId), 0);
  }

  lemma BindIsAccounted(t: Table, leases: seq<Lease>, s: ObjectId, c: ObjectId)
    requires TableInv(t) && Accounted(t, leases)
    ensures Accounted(NewEdge(t, s, c), leases)
  {
    hide Acyclic, ActiveUnique, GenerationsUnique;
    forall i | 0 <= i < |leases|
      ensures LeaseOk(NewEdge(t, s, c), leases[i]) && leases[i].generation != t.nextGeneration
    {
      assert LeaseOk(t, leases[i]);
    }
    NoneCounted(leases, c, t.nextGeneration);
  }

  lemma BorrowedLeasesOk(t: Table, leases: seq<Lease>, g: nat)
    requires EdgesOk(t) && ObjectsOk(t) && LeasesOk(t, leases) && g in t.edges && t.edges[g].component in t.objects
    ensures LeasesOk(Take(t, g), leases + [Lease(t.edges[g].component, t.edges[g].subject, g)])
  {
    var l := Lease(t.edges[g].component, t.edges[g].subject, g);
    forall i | 0 <= i < |leases + [l]| ensures LeaseOk(Take(t, g), (leases + [l])[i]) {
      if i < |leases| {
        assert LeaseOk(t, leases[i]);
      }
    }
  }

  lemma BorrowedCountsOk(t: Table, leases: seq<Lease>, g: nat)
    requires CountsOk(t, leases) && g in t.edges && t.edges[g].component in t.objects
    ensures CountsOk(Take(t, g), leases + [Lease(t.edges[g].component, t.edges[g].subject, g)])
  {
    var l := Lease(t.edges[g].component, t.edges[g].subject, g);
    forall c | c in t.objects ensures Take(t, g).objects[c].borrows == CountOn(leases + [l], c) {
      CountAppended(leases, l, c, g);
    }
    forall h | h in t.edges ensures Take(t, g).edges[h].borrows == CountFor(leases + [l], h) {
      CountAppended(leases, l, l.component, h);
    }
  }

  lemma BorrowIsAccounted(t: Table, leases: seq<Lease>, g: nat)
    requires TableInv(t) && Accounted(t, leases) && g in t.edges && t.edges[g].component in t.objects
    ensures Accounted(Take(t, g), leases + [Lease(t.edges[g].component, t.edges[g].subject, g)])
  {
    hide Acyclic, ActiveUnique, GenerationsUnique, LeasesOk, CountsOk, Take;
    BorrowedLeasesOk(t, leases, g);
    BorrowedCountsOk(t, leases, g);
  }

  /** Neither guard against a negative count ever bites: a live lease on a registered component is counted on
      both sides. */
  lemma ReturnIsAccounted(t: Table, leases: seq<Lease>, i: nat)
    requires TableInv(t) && Accounted(t, leases) && i < |leases|
    ensures var l := leases[i];
      && (l.component in t.objects ==>
            l.generation in t.edges && t.objects[l.component].borrows > 0 && t.edges[l.generation].borrows > 0)
      && Accounted(Release(t, l.component, l.subject, l.generation), Without(leases, i))
  {
    hide Acyclic, ActiveUnique, GenerationsUnique;
    var l := leases[i];
    var t' := Release(t, l.component, l.subject, l.generation);
    assert LeaseOk(t, l);
    CountRemoved(leases, i, l.component, l.generation);
    forall j | 0 <= j < |Without(leases, i)| ensures LeaseOk(t', Without(leases, i)[j]) {
      assert LeaseOk(t, leases[if j < i then j else j + 1]);
    }
    forall c | c in t'.objects ensures t'.objects[c].borrows == CountOn(Without(leases, i), c) {
      CountRemoved(leases, i, c, l.generation);
    }
    forall h | h in t'.edges ensures t'.edges[h].borrows == CountFor(Without(leases, i), h) {
      CountRemoved(leases, i, l.component, h);
    }
  }

  lemma EndUnbindIsAccounted(t: Table, leases: seq<Lease>, j: Job)
    requires Accounted(t, leases) && JobOk(t, j) && j.Unbind? && j.drained
    ensures Accounted(EraseEdge(t, j.component, j.subject, j.generation), leases)
  {
    LessIsAccounted(t, EraseEdge(t, j.component, j.subject, j.generation), leases);
  }

  lemma EraseIsAccounted(t: Table, leases: seq<Lease>, id: ObjectId)
    requires Accounted(t, leases) && Settling(t, id, [])
    ensures Accounted(EraseSubject(t, id), leases)
  {
    LessIsAccounted(t, EraseSubject(t, id), leases);
  }

  /** An entry and its edges go together, so whatever entry goes, both counts stay exact for the rest. */
  lemma DestroyIsAccounted(t: Table, leases: seq<Lease>, id: ObjectId)
    requires Accounted(t, leases)
    ensures Accounted(FinishDestroy(t, id), leases)
  {
    LessIsAccounted(t, FinishDestroy(t, id), leases);
  }

  /** A service or actor is nobody's component; a component behind a closed gate or with count zero has no lease. */
  lemma DestroyOrphansNobody(t: Table, leases: seq<Lease>, id: ObjectId)
    requires EdgesOk(t) && Accounted(t, leases) && id in t.objects
    requires t.objects[id].kind != Component || t.objects[id].gateClosed || t.objects[id].borrows == 0
    ensures forall i | 0 <= i < |leases| :: leases[i].component != id
  {
    NoneCounted(leases, id, 0);
    forall i | 0 <= i < |leases| ensures leases[i].component != id {
      assert LeaseOk(t, leases[i]);
    }
  }

  lemma NextIsAccounted(limits: Limits, s: State, e: Event)
    requires TableInv(s.t) && Accounted(s.t, s.leases) && JobsOk(s.t, s.jobs) && Enabled(limits, s, e)
    ensures Accounted(Next(limits, s, e).t, Next(limits, s, e).leases)
  {
    hide TableInv, Accounted, ClosesCycle, OldestRetiring, ReadyForOnStop, ClosingSubject, HasBindings;
    match e
    case CreateObject(kind) => CreateIsAccounted(limits, s.t, s.leases, kind);
    case BindComponent(x, c) => BindIsAccounted(s.t, s.leases, x, c);
    case Borrow(c, og, g, allow) => BorrowIsAccounted(s.t, s.leases, g);
    case ReturnLease(i) => ReturnIsAccounted(s.t, s.leases, i);
    case EndUnbind(k) => EndUnbindIsAccounted(s.t, s.leases, s.jobs[k]);
    case EraseEdges(k) =>
      assert JobOk(s.t, s.jobs[k]);
      EraseIsAccounted(s.t, s.leases, s.jobs[k].id);
    case Finish(k) => DestroyIsAccounted(s.t, s.leases, s.jobs[k].id);
    case DestroyActor(id) => DestroyIsAccounted(s.t, s.leases, id);
    case _ => QuietStepIsAccounted(limits, s, e);
  }

  /** Steps that change no count and lose no edge. */
  lemma QuietStepIsAccounted(limits: Limits, s: State, e: Event)
    requires Accounted(s.t, s.leases) && Enabled(limits, s, e)
    requires !(e.CreateObject? || e.BindComponent? || e.Borrow? || e.ReturnLease? || e.EndUnbind? || e.EraseEdges?
               || e.Finish? || e.DestroyActor?)
    ensures Accounted(Next(limits, s, e).t, s.leases) && Next(limits, s, e).leases == s.leases
  {
    hide Accounted, ClosesCycle, OldestRetiring, ReadyForOnStop, ClosingSubject, HasActiveEdge, HasBindings;
    LessIsAccounted(s.t, Next(limits, s, e).t, s.leases);
  }

  // ---------- Jobs ----------

  lemma OthersOwnOther(jobs: map<nat, Job>, t: Table, k: nat)
    requires JobsOk(t, jobs) && k in jobs
    ensures forall m | m in jobs && m != k && OwnedBy(jobs[k]).Some? :: OwnedBy(jobs[m]) != OwnedBy(jobs[k])
  {
  }

  lemma BindKeepsJobs(limits: Limits, t: Table, jobs: map<nat, Job>, x: ObjectId, c: ObjectId)
    requires TableInv(t) && JobsOk(t, jobs) && x in t.objects && c in t.objects && Bind(limits, t, x, c).Ok?
    ensures JobsOk(NewEdge(t, x, c), jobs)
  {
    forall k | k in jobs
      ensures Calm(t, NewEdge(t, x, c), OwnedBy(jobs[k])) && SameOwner(t, NewEdge(t, x, c), jobs[k])
    {
      assert JobOk(t, jobs[k]);
    }
    JobsSurvive(t, NewEdge(t, x, c), jobs);
  }

  lemma BorrowKeepsJobs(t: Table, jobs: map<nat, Job>, c: ObjectId, og: nat, g: nat, allow: bool)
    requires TableInv(t) && JobsOk(t, jobs) && BorrowRefusal(t, c, og, g, allow).None?
    ensures JobsOk(Take(t, g), jobs)
  {
    forall k | k in jobs ensures Calm(t, Take(t, g), OwnedBy(jobs[k])) && SameOwner(t, Take(t, g), jobs[k]) {
      assert JobOk(t, jobs[k]);
    }
    JobsSurvive(t, Take(t, g), jobs);
  }

  lemma ReturnKeepsJobs(t: Table, jobs: map<nat, Job>, l: Lease)
    requires TableInv(t) && JobsOk(t, jobs)
    ensures JobsOk(Release(t, l.component, l.subject, l.generation), jobs)
  {
    var t' := Release(t, l.component, l.subject, l.generation);
    forall k | k in jobs ensures Calm(t, t', OwnedBy(jobs[k])) && SameOwner(t, t', jobs[k]) {
      assert JobOk(t, jobs[k]);
    }
    JobsSurvive(t, t', jobs);
  }

  lemma CreateKeepsJobs(limits: Limits, t: Table, jobs: map<nat, Job>, kind: ObjectKind)
    requires TableInv(t) && JobsOk(t, jobs) && Create(limits, t, kind, Created).Ok?
    ensures JobsOk(Create(limits, t, kind, Created).value, jobs)
  {
    var t' := Create(limits, t, kind, Created).value;
    forall k | k in jobs ensures Calm(t, t', OwnedBy(jobs[k])) && SameOwner(t, t', jobs[k]) {
      assert JobOk(t, jobs[k]);
    }
    JobsSurvive(t, t', jobs);
  }

  lemma ChangeKeepsJobs(s: State, id: ObjectId, state: ObjectState)
    requires TableInv(s.t) && JobsOk(s.t, s.jobs) && id in s.t.objects
    ensures JobsOk(SetState(s.t, id, state), s.jobs)
  {
    var t' := SetState(s.t, id, state);
    forall k | k in s.jobs ensures Calm(s.t, t', OwnedBy(s.jobs[k])) && SameOwner(s.t, t', s.jobs[k]) {
      assert JobOk(s.t, s.jobs[k]);
    }
    JobsSurvive(s.t, t', s.jobs);
  }

  lemma ActorKeepsJobs(t: Table, jobs: map<nat, Job>, id: ObjectId)
    requires TableInv(t) && JobsOk(t, jobs) && id in t.objects && t.objects[id].kind == Actor
    ensures JobsOk(FinishDestroy(t, id), jobs)
  {
    var t' := FinishDestroy(t, id);
    forall k | k in jobs ensures Calm(t, t', OwnedBy(jobs[k])) && SameOwner(t, t', jobs[k]) {
      assert JobOk(t, jobs[k]);
    }
    JobsSurvive(t, t', jobs);
  }

  lemma BeginUnbindKeepsJobs(s: State, k: nat, x: ObjectId, c: ObjectId, g: nat)
    requires TableInv(s.t) && JobsOk(s.t, s.jobs) && k !in s.jobs && g in s.t.edges
    requires s.t.edges[g].subject == x && s.t.edges[g].component == c
    ensures JobsOk(Retire(s.t, g), s.jobs[k := Unbind(c, x, g, false)])
  {
    forall m | m in s.jobs
      ensures Calm(s.t, Retire(s.t, g), OwnedBy(s.jobs[m])) && SameOwner(s.t, Retire(s.t, g), s.jobs[m])
    {
      assert JobOk(s.t, s.jobs[m]);
    }
    OneJobSteps(s.t, Retire(s.t, g), s.jobs, k, Unbind(c, x, g, false));
  }

  lemma EndUnbindKeepsJobs(s: State, k: nat)
    requires TableInv(s.t) && JobsOk(s.t, s.jobs) && k in s.jobs && s.jobs[k].Unbind?
    ensures var j := s.jobs[k]; JobsOk(EraseEdge(s.t, j.component, j.subject, j.generation), s.jobs - {k})
  {
    var t' := EraseEdge(s.t, s.jobs[k].component, s.jobs[k].subject, s.jobs[k].generation);
    forall m | m in s.jobs ensures Calm(s.t, t', OwnedBy(s.jobs[m])) && SameOwner(s.t, t', s.jobs[m]) {
      assert JobOk(s.t, s.jobs[m]);
    }
    OneJobEnds(s.t, t', s.jobs, k);
  }

  /** Taking the operation flag of an object: nobody else holds it. */
  lemma BeginKeepsJobs(t: Table, t': Table, jobs: map<nat, Job>, k: nat, j: Job)
    requires TableInv(t) && JobsOk(t, jobs) && k !in jobs && OwnedBy(j).Some? && JobOk(t', j)
    requires j.id in t.objects && !t.objects[j.id].opInProgress
    requires Calm(t, t', None) && t'.nextGeneration == t.nextGeneration && EdgesOk(t')
    requires forall a | a in t.objects && a != j.id :: a in t'.objects && t'.objects[a] == t.objects[a]
    ensures JobsOk(t', jobs[k := j])
  {
    forall m | m in jobs
      ensures Calm(t, t', OwnedBy(jobs[m])) && SameOwner(t, t', jobs[m]) && OwnedBy(jobs[m]) != OwnedBy(j)
    {
      assert JobOk(t, jobs[m]);
    }
    OneJobSteps(t, t', jobs, k, j);
  }

  /** A job moving on: its own object keeps its flag, the others keep everything. */
  lemma AdvanceKeepsJobs(t: Table, t': Table, jobs: map<nat, Job>, k: nat, j: Job)
    requires TableInv(t) && JobsOk(t, jobs) && k in jobs && OwnedBy(j) == OwnedBy(jobs[k]) && JobOk(t', j)
    requires Calm(t, t', None) && t'.nextGeneration == t.nextGeneration && EdgesOk(t') && t'.objects == t.objects
    ensures JobsOk(t', jobs[k := j])
  {
    forall m | m in jobs ensures Calm(t, t', OwnedBy(jobs[m])) && SameOwner(t, t', jobs[m]) {
      assert JobOk(t, jobs[m]);
    }
    OneJobSteps(t, t', jobs, k, j);
  }

  /** A job leaving: only its own object changes. */
  lemma EndKeepsJobs(t: Table, t': Table, jobs: map<nat, Job>, k: nat)
    requires TableInv(t) && JobsOk(t, jobs) && k in jobs && OwnedBy(jobs[k]).Some?
    requires Calm(t, t', None) && t'.nextGeneration == t.nextGeneration && EdgesOk(t')
    requires forall a | a in t.objects && a != jobs[k].id :: a in t'.objects && t'.objects[a] == t.objects[a]
    ensures JobsOk(t', jobs - {k})
  {
    OthersOwnOther(jobs, t, k);
    forall m | m in jobs && m != k ensures Calm(t, t', OwnedBy(jobs[m])) && SameOwner(t, t', jobs[m]) {
      assert JobOk(t, jobs[m]);
    }
    OneJobEnds(t, t', jobs, k);
  }

  lemma ServiceJobSteps(limits: Limits, s: State, e: Event)
    requires TableInv(s.t) && JobsOk(s.t, s.jobs) && Enabled(limits, s, e)
    requires e.CollectEdges? || e.EdgeDrained? || e.EraseEdges? || e.CallOnStop? || e.UnbindDrained?
    ensures JobsOk(Next(limits, s, e).t, Next(limits, s, e).jobs)
  {
    hide JobsOk, Acyclic, ActiveUnique, GenerationsUnique;
    var s' := Next(limits, s, e);
    assert JobOk(s.t, s.jobs[e.job]) by { OneJobOk(s, e.job); }
    AdvanceKeepsJobs(s.t, s'.t, s.jobs, e.job, s'.jobs[e.job]);
  }

  lemma OneJobOk(s: State, k: nat)
    requires JobsOk(s.t, s.jobs) && k in s.jobs
    ensures JobOk(s.t, s.jobs[k])
  {
  }

  lemma BeginSteps(limits: Limits, s: State, e: Event)
    requires TableInv(s.t) && JobsOk(s.t, s.jobs) && Enabled(limits, s, e)
    requires e.BeginStopService? || e.BeginUninstallService? || e.BeginStopComponent? || e.BeginUninstallComponent?
    ensures JobsOk(Next(limits, s, e).t, Next(limits, s, e).jobs)
  {
    hide JobsOk, Acyclic, ActiveUnique, GenerationsUnique;
    var s' := Next(limits, s, e);
    NextKeepsTable(limits, s, e);
    BeginKeepsJobs(s.t, s'.t, s.jobs, e.job, s'.jobs[e.job]);
  }

  lemma EndSteps(limits: Limits, s: State, e: Event)
    requires TableInv(s.t) && JobsOk(s.t, s.jobs) && Enabled(limits, s, e)
    requires e.Abort? || e.Finish?
    ensures JobsOk(Next(limits, s, e).t, Next(limits, s, e).jobs)
  {
    hide Acyclic, ActiveUnique, GenerationsUnique;
    var s' := Next(limits, s, e);
    if s.jobs[e.job].Unbind? {
      OneJobEnds(s.t, s.t, s.jobs, e.job);
    } else {
      NextKeepsTable(limits, s, e);
      EndKeepsJobs(s.t, s'.t, s.jobs, e.job);
    }
  }

  lemma NextKeepsJobs(limits: Limits, s: State, e: Event)
    requires TableInv(s.t) && JobsOk(s.t, s.jobs) && Enabled(limits, s, e)
    ensures JobsOk(Next(limits, s, e).t, Next(limits, s, e).jobs)
  {
    hide TableInv, JobsOk;
    match e
    case CreateObject(kind) => CreateKeepsJobs(limits, s.t, s.jobs, kind);
    case ChangeState(id, state) => ChangeKeepsJobs(s, id, state);
    case BindComponent(x, c) => BindKeepsJobs(limits, s.t, s.jobs, x, c);
    case Borrow(c, og, g, allow) => BorrowKeepsJobs(s.t, s.jobs, c, og, g, allow);
    case ReturnLease(i) => ReturnKeepsJobs(s.t, s.jobs, s.leases[i]);
    case BeginUnbind(k, x, c, g) => BeginUnbindKeepsJobs(s, k, x, c, g);
    case EndUnbind(k) => EndUnbindKeepsJobs(s, k);
    case DestroyActor(id) => ActorKeepsJobs(s.t, s.jobs, id);
    case UnbindDrained(_) => ServiceJobSteps(limits, s, e);
    case CollectEdges(_, _) => ServiceJobSteps(limits, s, e);
    case EdgeDrained(_) => ServiceJobSteps(limits, s, e);
    case EraseEdges(_) => ServiceJobSteps(limits, s, e);
    case CallOnStop(_) => ServiceJobSteps(limits, s, e);
    case Abort(_) => EndSteps(limits, s, e);
    case Finish(_) => EndSteps(limits, s, e);
    case _ => BeginSteps(limits, s, e);
  }

  lemma NextKeepsInv(limits: Limits, s: State, e: Event)
    requires Inv(s) && Enabled(limits, s, e)
    ensures Inv(Next(limits, s, e))
  {
    hide TableInv, Accounted, JobsOk;
    NextKeepsTable(limits, s, e);
    NextIsAccounted(limits, s, e);
    NextKeepsJobs(limits, s, e);
  }
}
