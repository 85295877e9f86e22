// What holds in every state the borrow protocol can reach.

module BorrowRuns {
  import opened Wrappers
  import opened ComponentGraph
  import opened RegistryModel
  import opened RegistryProofs
  import opened BorrowProtocol
  import opened BorrowProofs

  const START := State(EMPTY, [], map[])

  /** The run of a list of events; an event whose critical section refuses changes nothing. */
  ghost function Run(limits: Limits, s: State, events: seq<Event>): State
    decreases |events|
  {
    if events == [] then s
    else
      var s' := Run(limits, s, events[..|events| - 1]);
      var e := events[|events| - 1];
      if Enabled(limits, s', e) then Next(limits, s', e) else s'
  }

  /** Over these events no install in flight makes component c borrowable while _DestroyComponent works on it. */
  ghost predicate NeverRevived(limits: Limits, s: State, events: seq<Event>, c: ObjectId)
    decreases |events|
  {
    events == [] ||
    (var before, last := events[..|events| - 1], events[|events| - 1];
     NeverRevived(limits, s, before, c) && !(Revives(Run(limits, s, before), last) && last.changed == c))
  }

  lemma StartIsOk()
    ensures Inv(START)
  {
    if Cyclic(GraphOf(EMPTY)) {
      var p :| IsPath(GraphOf(EMPTY), p) && |p| >= 2 && p[0] == p[|p| - 1];
      GraphEdge(EMPTY, p[0], p[1]);
    }
  }

  lemma {:induction false} RunKeepsInv(limits: Limits, s: State, events: seq<Event>)
    requires Inv(s)
    ensures Inv(Run(limits, s, events))
    decreases |events|
  {
    hide Inv, Enabled;
    if events != [] {
      var before := events[..|events| - 1];
      RunKeepsInv(limits, s, before);
      var s' := Run(limits, s, before);
      if Enabled(limits, s', events[|events| - 1]) {
        NextKeepsInv(limits, s', events[|events| - 1]);
      }
    }
  }

  // ---------- Nobody uses what is being stopped ----------

  predicate UsedBy(leases: seq<Lease>, s: ObjectId) {
    exists i | 0 <= i < |leases| :: leases[i].subject == s
  }

  predicate InUse(leases: seq<Lease>, c: ObjectId) {
    exists i | 0 <= i < |leases| :: leases[i].component == c
  }

  lemma QuietSubjectUsesNothing(t: Table, leases: seq<Lease>, s: ObjectId, i: nat)
    requires Accounted(t, leases) && Settling(t, s, []) && i < |leases| && leases[i].subject == s
    ensures leases[i].component !in t.objects
  {
    assert LeaseOk(t, leases[i]);
    NoneCounted(leases, leases[i].component, leases[i].generation);
  }

  /** From the moment OnStop is called until the entry is gone, a service being stopped or uninstalled holds no
      lease on a registered component, in any run; a lease it holds on a component that has gone means that this
      component was revived while it was being stopped. */
  lemma ServiceOnStopFindsNoLeases(limits: Limits, events: seq<Event>, k: nat, i: nat)
    requires var s := Run(limits, START, events);
      && k in s.jobs && ServiceJob(s.jobs[k]) && s.jobs[k].phase in {InOnStop, Erased}
      && i < |s.leases| && s.leases[i].subject == s.jobs[k].id
    ensures var s := Run(limits, START, events);
      s.leases[i].component !in s.t.objects && !NeverRevived(limits, START, events, s.leases[i].component)
  {
    hide Run, NeverRevived, TableInv, Accounted, JobOk;
    StartIsOk();
    RunKeepsInv(limits, START, events);
    var s := Run(limits, START, events);
    EndingServiceIsQuiet(s.t, s.leases, s.jobs[k], i);
    if NeverRevived(limits, START, events, s.leases[i].component) {
      LeasesKeepTheirComponent(limits, events, i);
    }
  }

  lemma EndingServiceIsQuiet(t: Table, leases: seq<Lease>, j: Job, i: nat)
    requires Accounted(t, leases) && JobOk(t, j) && ServiceJob(j) && j.phase in {InOnStop, Erased}
    requires i < |leases| && leases[i].subject == j.id
    ensures leases[i].component !in t.objects
  {
    hide Accounted;
    QuietSubjectUsesNothing(t, leases, j.id, i);
  }

  lemma ClosedComponentIsUnused(t: Table, leases: seq<Lease>, c: ObjectId)
    requires TableInv(t) && Accounted(t, leases) && c in t.objects
    requires t.objects[c].borrows == 0 || t.objects[c].gateClosed
    ensures !InUse(leases, c)
  {
    hide Acyclic, ActiveUnique, GenerationsUnique;
    NoneCounted(leases, c, 0);
    forall i | 0 <= i < |leases| ensures leases[i].component != c {
      assert LeaseOk(t, leases[i]);
    }
  }

  /** An uninstalled component needs no assumption: its gate is closed and its bindings are gone. */
  lemma UninstallFindsNoLeases(limits: Limits, events: seq<Event>, k: nat)
    requires var s := Run(limits, START, events); k in s.jobs && s.jobs[k].UninstallComponent?
    ensures var s := Run(limits, START, events); !InUse(s.leases, s.jobs[k].id) && !HasBindings(s.t, s.jobs[k].id)
  {
    StartIsOk();
    RunKeepsInv(limits, START, events);
    hide Run, Acyclic, ActiveUnique, GenerationsUnique, Accounted;
    var s := Run(limits, START, events);
    assert JobOk(s.t, s.jobs[k]);
    ClosedComponentIsUnused(s.t, s.leases, s.jobs[k].id);
  }

  // ---------- Stopping one component ----------

  lemma OthersDoNotStop(s: State, k: nat, m: nat)
    requires JobsOk(s.t, s.jobs) && k in s.jobs && m in s.jobs && k != m && OwnedBy(s.jobs[k]).Some?
    ensures OwnedBy(s.jobs[m]) != OwnedBy(s.jobs[k])
  {
  }

  /** Only the revival of c itself can undo what stopping c has achieved. */
  lemma StopStaysSafe(limits: Limits, s: State, e: Event, c: ObjectId)
    requires Inv(s) && StopSafe(s, c) && Enabled(limits, s, e) && !(Revives(s, e) && e.changed == c)
    ensures StopSafe(Next(limits, s, e), c)
  {
    hide TableInv, Accounted, ClosesCycle, OldestRetiring, ClosingSubject, HasActiveEdge, HasBindings;
    var s' := Next(limits, s, e);
    forall k | k in s'.jobs && s'.jobs[k].StopComponent? && s'.jobs[k].id == c
      ensures c in s'.t.objects && s'.t.objects[c].state !in {Running, Installed}
      ensures s'.jobs[k].phase != Begun ==> s'.t.objects[c].borrows == 0
    {
      if k in s.jobs {
        assert JobOk(s.t, s.jobs[k]);
        StopStep(limits, s, e, k, c);
      }
    }
  }

  lemma StopStep(limits: Limits, s: State, e: Event, k: nat, c: ObjectId)
    requires Inv(s) && StopSafe(s, c) && Enabled(limits, s, e) && !(Revives(s, e) && e.changed == c)
    requires k in s.jobs && s.jobs[k].StopComponent? && s.jobs[k].id == c && Holds(s.t, c, Component)
    requires k in Next(limits, s, e).jobs
    ensures var s' := Next(limits, s, e);
      && c in s'.t.objects && s'.t.objects[c].state !in {Running, Installed}
      && (s'.jobs[k].phase != Begun ==> s'.t.objects[c].borrows == 0)
  {
    hide TableInv, Accounted, JobsOk, ClosesCycle, OldestRetiring, ClosingSubject, HasActiveEdge, HasBindings;
    match e
    case CreateObject(kind) => NewIdIsNew(s, kind, c);
    case ChangeState(id, state) => assert StopsComponent(s, c);
    case Abort(m) => OthersDoNotStop(s, k, m);
    case Finish(m) => OthersDoNotStop(s, k, m);
    case _ =>
  }

  lemma NewIdIsNew(s: State, kind: ObjectKind, c: ObjectId)
    requires Inv(s) && c in s.t.objects
    ensures c != ObjectId(kind, s.t.nextId)
  {
  }

  lemma {:induction false} RunKeepsStopSafe(limits: Limits, s: State, events: seq<Event>, c: ObjectId)
    requires Inv(s) && StopSafe(s, c) && NeverRevived(limits, s, events, c)
    ensures StopSafe(Run(limits, s, events), c)
    decreases |events|
  {
    hide Inv, StopSafe, Enabled, Revives;
    if events != [] {
      var before := events[..|events| - 1];
      RunKeepsStopSafe(limits, s, before, c);
      RunKeepsInv(limits, s, before);
      if Enabled(limits, Run(limits, s, before), events[|events| - 1]) {
        StopStaysSafe(limits, Run(limits, s, before), events[|events| - 1], c);
      }
    }
  }

  /** Nobody holds a lease on a component from the moment its OnStop is called until its entry is gone, unless
      that very component is revived after its _DestroyComponent began; what installs of other components, or
      earlier ones of this component did, does not matter. */
  lemma StoppedComponentIsUnused(limits: Limits, events: seq<Event>, k: nat, c: ObjectId, later: seq<Event>)
    requires Enabled(limits, Run(limits, START, events), BeginStopComponent(k, c))
    requires NeverRevived(limits, Next(limits, Run(limits, START, events), BeginStopComponent(k, c)), later, c)
    ensures var s := Run(limits, Next(limits, Run(limits, START, events), BeginStopComponent(k, c)), later);
      forall m | m in s.jobs && s.jobs[m].StopComponent? && s.jobs[m].id == c && s.jobs[m].phase != Begun ::
        c in s.t.objects && !InUse(s.leases, c)
  {
    StartIsOk();
    RunKeepsInv(limits, START, events);
    var s0 := Run(limits, START, events);
    var s1 := Next(limits, s0, BeginStopComponent(k, c));
    NextKeepsInv(limits, s0, BeginStopComponent(k, c));
    BeginIsSafe(limits, s0, k, c);
    RunKeepsInv(limits, s1, later);
    RunKeepsStopSafe(limits, s1, later, c);
    hide Run, NeverRevived, Next, Enabled, TableInv, Accounted, JobsOk;
    var s := Run(limits, s1, later);
    forall m | m in s.jobs && s.jobs[m].StopComponent? && s.jobs[m].id == c && s.jobs[m].phase != Begun
      ensures c in s.t.objects && !InUse(s.leases, c)
    {
      ClosedComponentIsUnused(s.t, s.leases, c);
    }
  }

  lemma BeginIsSafe(limits: Limits, s: State, k: nat, c: ObjectId)
    requires Inv(s) && Enabled(limits, s, BeginStopComponent(k, c))
    ensures StopSafe(Next(limits, s, BeginStopComponent(k, c)), c)
  {
    hide TableInv, Accounted;
    forall m | m in s.jobs && s.jobs[m].StopComponent? ensures s.jobs[m].id != c {
      assert JobOk(s.t, s.jobs[m]);
    }
  }

  // ---------- How jobs end ----------

  /** A finished stop or uninstall leaves neither the entry nor any edge to it, and of a service no edge at all. */
  lemma FinishLeavesNothing(limits: Limits, s: State, k: nat)
    requires Inv(s) && Enabled(limits, s, Finish(k))
    ensures var s' := Next(limits, s, Finish(k)); var id := s.jobs[k].id;
      && id !in s'.t.objects && k !in s'.jobs
      && (forall g | g in s'.t.edges :: s'.t.edges[g].component != id)
      && (ServiceJob(s.jobs[k]) ==> forall g | g in s'.t.edges :: s'.t.edges[g].subject != id)
  {
    assert JobOk(s.t, s.jobs[k]);
  }

  /** A finished unbind has removed its edge, whoever else worked on the table meanwhile. */
  lemma UnbindLeavesNoEdge(limits: Limits, s: State, k: nat)
    requires Inv(s) && Enabled(limits, s, EndUnbind(k))
    ensures s.jobs[k].generation !in Next(limits, s, EndUnbind(k)).t.edges
    ensures k !in Next(limits, s, EndUnbind(k)).jobs
  {
    assert JobOk(s.t, s.jobs[k]);
  }

  /** An aborted stop or uninstall leaves the entry, idle again and marked incomplete, so that it can be tried again
      but nothing new can be bound for it. */
  lemma AbortLeavesTheEntry(limits: Limits, s: State, k: nat)
    requires Inv(s) && Enabled(limits, s, Abort(k)) && !s.jobs[k].Unbind?
    ensures var s' := Next(limits, s, Abort(k)); var id := s.jobs[k].id;
      && id in s'.t.objects && !s'.t.objects[id].opInProgress && k !in s'.jobs
      && s'.t.objects[id].state ==
           (if s.jobs[k].StopService? || s.jobs[k].StopComponent? then StopIncomplete else UninstallIncomplete)
      && s'.t.edges == s.t.edges && ClosingSubject(s'.t.objects[id])
  {
    assert JobOk(s.t, s.jobs[k]);
  }

  // ---------- When a lease loses its component ----------

  /** Every lease on c still has c. */
  predicate Kept(s: State, c: ObjectId) {
    InUse(s.leases, c) ==> c in s.t.objects
  }

  lemma EndedEntryWasUnused(limits: Limits, s: State, e: Event, c: ObjectId)
    requires Inv(s) && StopSafe(s, c) && Enabled(limits, s, e) && c in s.t.objects
    requires (e.Finish? && s.jobs[e.job].id == c) || (e.DestroyActor? && e.id == c)
    ensures !InUse(s.leases, c)
  {
    if e.Finish? {
      assert JobOk(s.t, s.jobs[e.job]);
    }
    hide Acyclic, ActiveUnique, GenerationsUnique, Accounted, JobsOk;
    DestroyOrphansNobody(s.t, s.leases, c);
  }

  lemma LeasedComponentStays(limits: Limits, s: State, e: Event, c: ObjectId)
    requires Inv(s) && StopSafe(s, c) && Kept(s, c) && Enabled(limits, s, e)
    ensures Kept(Next(limits, s, e), c)
  {
    var s' := Next(limits, s, e);
    if c in s.t.objects && c !in s'.t.objects {
      EntryGoes(limits, s, e, c);
      EndedEntryWasUnused(limits, s, e, c);
    }
    hide Inv, StopSafe, ClosesCycle, OldestRetiring, ReadyForOnStop, ClosingSubject, HasActiveEdge, HasBindings;
    if c !in s.t.objects && InUse(s'.leases, c) {
      var i :| 0 <= i < |s'.leases| && s'.leases[i].component == c;
      OldLease(limits, s, e, i);
    }
  }

  lemma EntryGoes(limits: Limits, s: State, e: Event, c: ObjectId)
    requires Enabled(limits, s, e) && c in s.t.objects && c !in Next(limits, s, e).t.objects
    ensures (e.Finish? && s.jobs[e.job].id == c) || (e.DestroyActor? && e.id == c)
  {
    hide ClosesCycle, OldestRetiring, ReadyForOnStop, ClosingSubject, HasActiveEdge, HasBindings;
  }

  lemma LeasesAfter(limits: Limits, s: State, e: Event)
    requires Enabled(limits, s, e)
    ensures match e
      case Borrow(c, _, g, _) =>
        c in s.t.objects && g in s.t.edges
        && Next(limits, s, e).leases == s.leases + [Lease(c, s.t.edges[g].subject, g)]
      case ReturnLease(i) => i < |s.leases| && Next(limits, s, e).leases == Without(s.leases, i)
      case _ => Next(limits, s, e).leases == s.leases
  {
    hide ClosesCycle, OldestRetiring, ReadyForOnStop, ClosingSubject, HasActiveEdge, HasBindings;
  }

  lemma OldLease(limits: Limits, s: State, e: Event, i: nat)
    requires Enabled(limits, s, e) && i < |Next(limits, s, e).leases|
    requires Next(limits, s, e).leases[i].component !in s.t.objects
    ensures InUse(s.leases, Next(limits, s, e).leases[i].component)
  {
    hide Enabled, Next;
    LeasesAfter(limits, s, e);
    match e
    case ReturnLease(index) =>
      assert Without(s.leases, index)[i] == s.leases[if i < index then i else i + 1];
    case _ =>
      assert Next(limits, s, e).leases[i] == s.leases[i];
  }

  lemma {:induction false} RunKeepsLeased(limits: Limits, events: seq<Event>, c: ObjectId)
    requires NeverRevived(limits, START, events, c)
    ensures Kept(Run(limits, START, events), c)
    decreases |events|
  {
    hide Inv, StopSafe, Enabled, Revives, Kept;
    if events == [] {
      NothingLeasedYet(c);
    } else {
      var before := events[..|events| - 1];
      RunKeepsLeased(limits, before, c);
      StartIsOk();
      StartIsSafe(c);
      RunKeepsInv(limits, START, before);
      RunKeepsStopSafe(limits, START, before, c);
      if Enabled(limits, Run(limits, START, before), events[|events| - 1]) {
        LeasedComponentStays(limits, Run(limits, START, before), events[|events| - 1], c);
      }
    }
  }

  lemma NothingLeasedYet(c: ObjectId)
    ensures Kept(START, c)
  {
  }

  lemma StartIsSafe(c: ObjectId)
    ensures StopSafe(START, c)
  {
  }

  /** A component that is never revived while being stopped outlives every lease on it. */
  lemma LeasesKeepTheirComponent(limits: Limits, events: seq<Event>, i: nat)
    requires i < |Run(limits, START, events).leases|
    requires NeverRevived(limits, START, events, Run(limits, START, events).leases[i].component)
    ensures Run(limits, START, events).leases[i].component in Run(limits, START, events).t.objects
  {
    RunKeepsLeased(limits, events, Run(limits, START, events).leases[i].component);
  }

  /** The assumption is exact: while _DestroyComponent works on a component with an active edge, a change of its
      state lets somebody borrow it iff the new state is Running or Installed. */
  lemma OnlyRevivalReopensAStoppingComponent(s: State, k: nat, g: nat, state: ObjectState)
    requires Inv(s) && k in s.jobs && s.jobs[k].StopComponent?
    requires g in s.t.edges && s.t.edges[g].component == s.jobs[k].id && !s.t.edges[g].retiring
    ensures var c := s.jobs[k].id; var t' := SetState(s.t, c, state);
      (exists allow: bool :: BorrowRefusal(t', c, t'.objects[c].generation, g, allow).None?) <==>
        Revives(s, ChangeState(c, state))
  {
    hide Acyclic, ActiveUnique, GenerationsUnique, Accounted;
    assert JobOk(s.t, s.jobs[k]);
    var c := s.jobs[k].id;
    var t' := SetState(s.t, c, state);
    assert StopsComponent(s, c);
    if state in {Running, Installed} {
      assert BorrowRefusal(t', c, t'.objects[c].generation, g, true).None?;
    }
  }

  lemma OneMoreStep(limits: Limits, events: seq<Event>, s: State, e: Event)
    requires Run(limits, START, events) == s && Enabled(limits, s, e)
    ensures Run(limits, START, events + [e]) == Next(limits, s, e)
  {
    assert (events + [e])[..|events + [e]| - 1] == events;
  }

  const C1 := ObjectId(Component, 1)
  const S2 := ObjectId(Service, 2)
  const BOUND_PAIR := Table(
    map[C1 := Object(Component, 1, Created, false, false, 0), S2 := Object(Service, 2, Created, false, false, 0)],
    map[3 := Binding(C1, S2, false, 0)], 3, 4)

  lemma BindAPair(limits: Limits) returns (events: seq<Event>)
    requires limits == Limits(2, 1)
    ensures Run(limits, START, events) == State(BOUND_PAIR, [], map[])
  {
    events := [];
    var s, e := START, CreateObject(Component);
    OneMoreStep(limits, events, s, e);
    s, events := Next(limits, s, e), events + [e];
    assert s == State(Table(map[C1 := Object(Component, 1, Created, false, false, 0)], map[], 2, 2), [], map[]);
    e := CreateObject(Service);
    OneMoreStep(limits, events, s, e);
    s, events := Next(limits, s, e), events + [e];
    assert !IsComponent(s.t, S2);
    e := BindComponent(S2, C1);
    OneMoreStep(limits, events, s, e);
    s, events := Next(limits, s, e), events + [e];
    assert s.t == BOUND_PAIR;
  }

  const STOPPING_PAIR := BOUND_PAIR.(
    objects := BOUND_PAIR.objects[C1 := Object(Component, 1, Stopping, false, true, 0)])

  lemma StopThePair(limits: Limits) returns (events: seq<Event>)
    requires limits == Limits(2, 1)
    ensures Run(limits, START, events) == State(STOPPING_PAIR, [], map[7 := StopComponent(C1, InOnStop)])
  {
    events := BindAPair(limits);
    var s, e := State(BOUND_PAIR, [], map[]), BeginStopComponent(7, C1);
    OneMoreStep(limits, events, s, e);
    s, events := Next(limits, s, e), events + [e];
    assert s == State(STOPPING_PAIR, [], map[7 := StopComponent(C1, Begun)]);
    e := CallOnStop(7);
    OneMoreStep(limits, events, s, e);
    s, events := Next(limits, s, e), events + [e];
  }

  const STOPPED_IN_USE := Table(
    map[C1 := Object(Component, 1, Running, false, true, 1), S2 := Object(Service, 2, Created, false, false, 0)],
    map[3 := Binding(C1, S2, false, 1)], 3, 4)

  lemma BorrowDuringStop(limits: Limits) returns (events: seq<Event>)
    requires limits == Limits(2, 1)
    ensures Run(limits, START, events)
      == State(STOPPED_IN_USE, [Lease(C1, S2, 3)], map[7 := StopComponent(C1, InOnStop)])
  {
    events := StopThePair(limits);
    var s, e := State(STOPPING_PAIR, [], map[7 := StopComponent(C1, InOnStop)]), ChangeState(C1, Running);
    OneMoreStep(limits, events, s, e);
    s, events := Next(limits, s, e), events + [e];
    e := Borrow(C1, 1, 3, false);
    OneMoreStep(limits, events, s, e);
    s, events := Next(limits, s, e), events + [e];
  }

  /** The assumption is needed: an install that reports Running while the component it installed is already
      being stopped lets a service borrow it during OnStop. */
  lemma InstallDuringStopIsUnsafe() returns (limits: Limits, events: seq<Event>)
    ensures var s := Run(limits, START, events);
      && 7 in s.jobs && s.jobs[7].StopComponent? && s.jobs[7].phase == InOnStop && InUse(s.leases, s.jobs[7].id)
  {
    limits := Limits(2, 1);
    events := BorrowDuringStop(limits);
    assert [Lease(C1, S2, 3)][0].component == C1;
  }

  /** The lease then outlives its component, and the service can be stopped while it still holds it. */
  lemma ServiceStopsWithAnOrphanedLease() returns (limits: Limits, events: seq<Event>)
    ensures var s := Run(limits, START, events);
      && 8 in s.jobs && s.jobs[8].StopService? && s.jobs[8].phase == InOnStop
      && UsedBy(s.leases, s.jobs[8].id) && C1 !in s.t.objects
  {
    limits := Limits(2, 1);
    events := BorrowDuringStop(limits);
    var s, e := State(STOPPED_IN_USE, [Lease(C1, S2, 3)], map[7 := StopComponent(C1, InOnStop)]), Finish(7);
    OneMoreStep(limits, events, s, e);
    s, events := Next(limits, s, e), events + [e];
    e := BeginStopService(8, S2);
    OneMoreStep(limits, events, s, e);
    s, events := Next(limits, s, e), events + [e];
    e := CollectEdges(8, []);
    OneMoreStep(limits, events, s, e);
    s, events := Next(limits, s, e), events + [e];
    e := CallOnStop(8);
    OneMoreStep(limits, events, s, e);
    s, events := Next(limits, s, e), events + [e];
    assert s.leases[0].subject == S2;
  }

  // ---------- Conservation ----------

  ghost function SumOver(edges: map<nat, Binding>, gs: set<nat>): nat
    requires gs <= edges.Keys
  {
    if gs == {} then 0 else var g :| g in gs; edges[g].borrows + SumOver(edges, gs - {g})
  }

  function CountWithin(leases: seq<Lease>, gs: set<nat>): nat {
    if leases == [] then 0
    else CountWithin(leases[..|leases| - 1], gs) + (if leases[|leases| - 1].generation in gs then 1 else 0)
  }

  lemma {:induction false} OneGenerationLess(leases: seq<Lease>, gs: set<nat>, g: nat)
    requires g in gs
    ensures CountWithin(leases, gs) == CountWithin(leases, gs - {g}) + CountFor(leases, g)
    decreases |leases|
  {
    if leases != [] {
      OneGenerationLess(leases[..|leases| - 1], gs, g);
    }
  }

  lemma {:induction false} EmptyCount(leases: seq<Lease>)
    ensures CountWithin(leases, {}) == 0
    decreases |leases|
  {
    if leases != [] {
      EmptyCount(leases[..|leases| - 1]);
    }
  }

  lemma {:induction false} SumIsCount(t: Table, leases: seq<Lease>, gs: set<nat>)
    requires CountsOk(t, leases) && gs <= t.edges.Keys
    ensures SumOver(t.edges, gs) == CountWithin(leases, gs)
    decreases |gs|
  {
    if gs == {} {
      EmptyCount(leases);
    } else {
      var g :| g in gs && SumOver(t.edges, gs) == t.edges[g].borrows + SumOver(t.edges, gs - {g});
      SumIsCount(t, leases, gs - {g});
      OneGenerationLess(leases, gs, g);
    }
  }

  ghost function EdgesOf(t: Table, c: ObjectId): set<nat> {
    set g | g in t.edges && t.edges[g].component == c
  }

  lemma {:induction false} CountOnIsWithin(t: Table, leases: seq<Lease>, c: ObjectId)
    requires LeasesOk(t, leases) && c in t.objects
    ensures CountOn(leases, c) == CountWithin(leases, EdgesOf(t, c))
    decreases |leases|
  {
    if leases != [] {
      var rest := leases[..|leases| - 1];
      assert forall i | 0 <= i < |rest| :: rest[i] == leases[i];
      assert LeaseOk(t, leases[|leases| - 1]);
      CountOnIsWithin(t, rest, c);
    }
  }

  /** A component's borrow count is the number of its live leases and the sum over its edges. */
  lemma BorrowsAreConserved(limits: Limits, events: seq<Event>, c: ObjectId)
    requires c in Run(limits, START, events).t.objects
    ensures var s := Run(limits, START, events);
      s.t.objects[c].borrows == CountOn(s.leases, c) == SumOver(s.t.edges, EdgesOf(s.t, c))
  {
    StartIsOk();
    RunKeepsInv(limits, START, events);
    hide Run, TableInv, JobsOk;
    var s := Run(limits, START, events);
    CountOnIsWithin(s.t, s.leases, c);
    SumIsCount(s.t, s.leases, EdgesOf(s.t, c));
  }

  /** No edge of a registered component goes while a lease still uses it. */
  lemma LeasesKeepTheirEdge(limits: Limits, events: seq<Event>, i: nat)
    requires i < |Run(limits, START, events).leases|
    ensures var s := Run(limits, START, events); var l := s.leases[i];
      l.component in s.t.objects ==>
        && s.t.objects[l.component].borrows > 0
        && l.generation in s.t.edges && s.t.edges[l.generation].borrows > 0
  {
    StartIsOk();
    RunKeepsInv(limits, START, events);
    hide Run, Acyclic, ActiveUnique, GenerationsUnique, JobsOk;
    var s := Run(limits, START, events);
    ReturnIsAccounted(s.t, s.leases, i);
  }

  // ---------- A retired generation ----------

  /** Issued, and by now retiring or erased. */
  predicate Retired(t: Table, g: nat) {
    g < t.nextGeneration && (g in t.edges ==> t.edges[g].retiring)
  }

  /** Still retired, and nobody borrowed through it meanwhile. */
  predicate Fades(t: Table, t': Table, g: nat) {
    match t
    case Table(_, edges, _, _) =>
      Retired(t', g) && (g in t'.edges ==> g in edges && t'.edges[g].borrows <= edges[g].borrows)
  }

  lemma FewerEdgesFade(t: Table, t': Table, g: nat)
    requires Retired(t, g) && t.nextGeneration <= t'.nextGeneration
    requires g in t'.edges ==> g in t.edges && t'.edges[g] in {t.edges[g], t.edges[g].(retiring := true)}
    ensures Fades(t, t', g)
  {
  }

  lemma BorrowFades(t: Table, c: ObjectId, og: nat, h: nat, allow: bool, g: nat)
    requires Retired(t, g) && BorrowRefusal(t, c, og, h, allow).None?
    ensures Fades(t, Take(t, h), g)
  {
  }

  lemma ReturnFades(t: Table, l: Lease, g: nat)
    requires Retired(t, g)
    ensures Fades(t, Release(t, l.component, l.subject, l.generation), g)
  {
  }

  lemma RetiredStep(limits: Limits, s: State, e: Event, g: nat)
    requires Retired(s.t, g) && Enabled(limits, s, e)
    ensures Fades(s.t, Next(limits, s, e).t, g)
  {
    hide ClosesCycle, HasActiveEdge, OldestRetiring, ReadyForOnStop, ClosingSubject, Fades;
    match e
    case Borrow(c, og, h, allow) => BorrowFades(s.t, c, og, h, allow, g);
    case ReturnLease(i) => ReturnFades(s.t, s.leases[i], g);
    case _ => FewerEdgesFade(s.t, Next(limits, s, e).t, g);
  }

  /** Once an edge is retired, no handle that carries its generation borrows again, whatever is bound later;
      its borrow count only falls. */
  lemma {:induction false} RetiredForEver(limits: Limits, s: State, events: seq<Event>, g: nat)
    requires Retired(s.t, g)
    ensures var s' := Run(limits, s, events);
      && Fades(s.t, s'.t, g)
      && forall c, og, allow :: BorrowRefusal(s'.t, c, og, g, allow).Some?
    decreases |events|
  {
    hide Enabled, Next;
    if events != [] {
      var before := events[..|events| - 1];
      RetiredForEver(limits, s, before, g);
      var s' := Run(limits, s, before);
      if Enabled(limits, s', events[|events| - 1]) {
        RetiredStep(limits, s', events[|events| - 1], g);
      }
    }
  }

  // ---------- Starting ----------

  /** Whatever has been bound, unbound, installed and removed, the graph the start order is built from has no
      cycle, so the cycle flag of ComponentStartOrderLocked is never raised. */
  lemma StartOrderNeverMeetsACycle(limits: Limits, events: seq<Event>, g: Graph)
    requires SameEdges(g, GraphOf(Run(limits, START, events).t))
    ensures !Cyclic(g)
  {
    StartIsOk();
    RunKeepsInv(limits, START, events);
    FewerEdgesStayAcyclic(GraphOf(Run(limits, START, events).t), g);
  }

  /** At most one active edge for each subject and component, and every generation is used once. */
  lemma GenerationsIdentifyEdges(limits: Limits, events: seq<Event>, g: nat, h: nat, x: ObjectId, c: ObjectId)
    requires var t := Run(limits, START, events).t; ActiveEdge(t, g, x, c) && ActiveEdge(t, h, x, c)
    ensures g == h && (forall a | a in Run(limits, START, events).t.objects ::
      Run(limits, START, events).t.objects[a].generation != g)
  {
    StartIsOk();
    RunKeepsInv(limits, START, events);
  }
}
