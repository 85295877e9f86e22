// Actor mailboxes: the hand-over between callers that enqueue and the one coroutine that drains.

module MailboxModel {
  import opened Wrappers

  /** A task holds the actor instance it will run on. */
  datatype Task = Task(id: nat, instance: nat)

  datatype Mailbox = Mailbox(queue: seq<Task>, draining: bool, closed: bool)

  datatype Code = Closed | Overloaded | RuntimeUnavailable

  const FRESH := Mailbox([], false, false)

  /** TryEnqueue; `registers` says whether the scheduler takes a new drain coroutine if one is needed. */
  function Enqueue(box: Mailbox, capacity: nat, t: Task, registers: bool): Result<Mailbox, Code> {
    if box.closed then Err(Closed)
    else if |box.queue| >= capacity then Err(Overloaded)
    else if !box.draining && !registers then Err(RuntimeUnavailable)
    else Ok(box.(queue := box.queue + [t], draining := true))
  }

  /** The critical section of the drain loop: the next task, or the right to drain is given back. */
  function TakeNext(box: Mailbox): (Mailbox, Option<Task>) {
    if box.queue == [] then (box.(draining := false), None)
    else (box.(queue := box.queue[1..]), Some(box.queue[0]))
  }
}

module MailboxObject {
  import opened Wrappers
  import opened MailboxModel

  class ActorMailbox {
    const capacity: nat
    var queue: seq<Task>
    var draining: bool
    var closed: bool

    constructor (capacity: nat)
      ensures State() == FRESH && this.capacity == capacity
    {
      this.capacity := capacity;
      queue, draining, closed := [], false, false;
    }

    function State(): Mailbox
      reads this
    {
      Mailbox(queue, draining, closed)
    }

    /** The item is pushed before the drain is registered; a failed registration takes exactly it back. */
    method TryEnqueue(t: Task, registers: bool) returns (r: Result<(), Code>)
      modifies this
      ensures var e := Enqueue(old(State()), capacity, t, registers);
        if e.Err? then r == Err(e.error) && State() == old(State()) else r == Ok(()) && State() == e.value
      ensures r == Ok(()) <==> !old(closed) && |old(queue)| < capacity && (old(draining) || registers)
      ensures r == Err(Closed) <==> old(closed)
      ensures r == Err(Overloaded) <==> !old(closed) && |old(queue)| >= capacity
      ensures r == Err(RuntimeUnavailable) <==>
        !old(closed) && |old(queue)| < capacity && !old(draining) && !registers
      ensures r.Err? ==> queue == old(queue) && draining == old(draining) && closed == old(closed)
      ensures r.Ok? ==> queue == old(queue) + [t] && draining && !closed
    {
      if closed {
        return Err(Closed);
      }
      if |queue| >= capacity {
        return Err(Overloaded);
      }
      queue := queue + [t];
      if draining {
        return Ok(());
      }
      if !registers {
        queue := queue[..|queue| - 1];
        assert queue == old(queue);
        return Err(RuntimeUnavailable);
      }
      draining := true;
      return Ok(());
    }

    method Close()
      modifies this
      ensures State() == old(State()).(closed := true)
    {
      closed := true;
    }

    method Take() returns (t: Option<Task>)
      modifies this
      ensures State() == TakeNext(old(State())).0 && t == TakeNext(old(State())).1
      ensures closed == old(closed)
      ensures old(queue) == [] ==> t == None && queue == [] && !draining
      ensures old(queue) != [] ==>
        t == Some(old(queue)[0]) && queue == old(queue)[1..] && draining == old(draining)
    {
      if queue == [] {
        draining := false;
        return None;
      }
      t := Some(queue[0]);
      queue := queue[1..];
    }
  }
}

module MailboxMachine {
  import opened Wrappers
  import opened MailboxModel

  /** One actor key: its instance once activated, its mailbox, the drain coroutines the mailbox has registered
      with the handler each is inside, and what was accepted, started and finished so far. */
  datatype Line = Line(
    instance: Option<nat>, box: Mailbox, drains: map<nat, Option<Task>>,
    accepted: seq<Task>, started: seq<Task>, finished: seq<Task>)

  /** One service. */
  datatype State = State(lines: map<string, Line>, nextInstance: nat)

  datatype Event =
    | OpenBox(key: string)
    | Activate(key: string)
    | Send(key: string, id: nat, drain: nat, registers: bool)
    | CloseBox(key: string)
    | DrainTakes(key: string, drain: nat)
    | HandlerEnds(key: string, drain: nat)

  const IDLE := Line(None, FRESH, map[], [], [], [])
  const START := State(map[], 0)

  predicate Enabled(s: State, e: Event) {
    match e
    case OpenBox(key) => key !in s.lines
    case Activate(key) => key in s.lines && s.lines[key].instance.None?
    case Send(key, id, drain, registers) =>
      key in s.lines && s.lines[key].instance.Some? && drain !in s.lines[key].drains
    case CloseBox(key) => key in s.lines
    case DrainTakes(key, d) => key in s.lines && d in s.lines[key].drains && s.lines[key].drains[d].None?
    case HandlerEnds(key, d) => key in s.lines && d in s.lines[key].drains && s.lines[key].drains[d].Some?
  }

  /** What Dispatch does once it holds the instance and the mailbox of the key.  A drain coroutine appears only
      if the scheduler takes it. */
  function Sent(l: Line, capacity: nat, id: nat, drain: nat, registers: bool): Line
    requires l.instance.Some?
  {
    var t := Task(id, l.instance.value);
    match Enqueue(l.box, capacity, t, registers)
    case Err(_) => l
    case Ok(box) =>
      l.(box := box, accepted := l.accepted + [t],
         drains := if !l.box.draining && registers then l.drains[drain := None] else l.drains)
  }

  function Took(l: Line, d: nat): Line {
    var (box, next) := TakeNext(l.box);
    match next
    case None => l.(box := box, drains := l.drains - {d})
    case Some(t) => l.(box := box, drains := l.drains[d := Some(t)], started := l.started + [t])
  }

  function Ended(l: Line, d: nat): Line
    requires d in l.drains && l.drains[d].Some?
  {
    l.(drains := l.drains[d := None], finished := l.finished + [l.drains[d].value])
  }

  function Next(capacity: nat, s: State, e: Event): State
    requires Enabled(s, e)
  {
    var l := if e.OpenBox? then IDLE else s.lines[e.key];
    var l' := match e
      case OpenBox(_) => IDLE
      case Activate(_) => l.(instance := Some(s.nextInstance))
      case Send(_, id, drain, registers) => Sent(l, capacity, id, drain, registers)
      case CloseBox(_) => l.(box := l.box.(closed := true))
      case DrainTakes(_, d) => Took(l, d)
      case HandlerEnds(_, d) => Ended(l, d);
    State(s.lines[e.key := l'], if e.Activate? then s.nextInstance + 1 else s.nextInstance)
  }

  // ---------- Invariants ----------

  function Inside(drains: map<nat, Option<Task>>, d: nat): seq<Task> {
    if d in drains && drains[d].Some? then [drains[d].value] else []
  }

  /** Everything accepted is started in order or still queued; the right to drain is held by exactly one
      coroutine, and whenever something is queued it is held; only that coroutine is inside a handler. */
  predicate LineOk(l: Line, capacity: nat) {
    && l.accepted == l.started + l.box.queue
    && |l.box.queue| <= capacity
    && (l.box.queue != [] ==> l.box.draining)
    && (l.box.draining <==> l.drains != map[])
    && (forall d, e | d in l.drains && e in l.drains :: d == e)
    && (forall d | d in l.drains :: l.started == l.finished + Inside(l.drains, d))
    && (l.drains == map[] ==> l.started == l.finished)
    && (forall i | 0 <= i < |l.accepted| :: Some(l.accepted[i].instance) == l.instance)
  }

  predicate LinesOk(lines: map<string, Line>, capacity: nat) {
    forall k | k in lines :: LineOk(lines[k], capacity)
  }

  /** GetOrCreate hands out a new instance for each key. */
  predicate InstancesOk(s: State) {
    && (forall k | k in s.lines && s.lines[k].instance.Some? :: s.lines[k].instance.value < s.nextInstance)
    && (forall j, k | j in s.lines && k in s.lines && s.lines[j].instance.Some?
      && s.lines[j].instance == s.lines[k].instance :: j == k)
  }

  lemma SentOk(l: Line, capacity: nat, id: nat, drain: nat, registers: bool)
    requires LineOk(l, capacity) && l.instance.Some? && drain !in l.drains
    ensures LineOk(Sent(l, capacity, id, drain, registers), capacity)
    ensures Sent(l, capacity, id, drain, registers).instance == l.instance
  {
    var l' := Sent(l, capacity, id, drain, registers);
    if l' != l {
      assert l'.accepted == l'.started + l'.box.queue;
      if !l.box.draining {
        assert drain in l'.drains;
      }
    }
  }

  lemma TookOk(l: Line, capacity: nat, d: nat)
    requires LineOk(l, capacity) && d in l.drains && l.drains[d].None?
    ensures LineOk(Took(l, d), capacity) && Took(l, d).instance == l.instance
  {
    var l' := Took(l, d);
    assert l.started == l.finished + Inside(l.drains, d);
    if l.box.queue != [] {
      assert l.box.queue == [l.box.queue[0]] + l.box.queue[1..];
      assert d in l'.drains;
    }
  }

  lemma EndedOk(l: Line, capacity: nat, d: nat)
    requires LineOk(l, capacity) && d in l.drains && l.drains[d].Some?
    ensures LineOk(Ended(l, d), capacity) && Ended(l, d).instance == l.instance
  {
    assert l.started == l.finished + Inside(l.drains, d);
    assert d in Ended(l, d).drains;
  }

  lemma NextKeepsInv(capacity: nat, s: State, e: Event)
    requires LinesOk(s.lines, capacity) && InstancesOk(s) && Enabled(s, e)
    ensures LinesOk(Next(capacity, s, e).lines, capacity) && InstancesOk(Next(capacity, s, e))
  {
    if !e.OpenBox? {
      assert LineOk(s.lines[e.key], capacity);
    }
    NextLineOk(capacity, s, e);
    NextInstancesOk(capacity, s, e);
    hide LineOk, Next, InstancesOk;
    assert Next(capacity, s, e).lines == s.lines[e.key := Next(capacity, s, e).lines[e.key]] by {
      OneLineChanges(capacity, s, e);
    }
  }

  lemma OneLineChanges(capacity: nat, s: State, e: Event)
    requires Enabled(s, e)
    ensures e.key in Next(capacity, s, e).lines
    ensures Next(capacity, s, e).lines == s.lines[e.key := Next(capacity, s, e).lines[e.key]]
  {
  }

  lemma NextInstancesOk(capacity: nat, s: State, e: Event)
    requires InstancesOk(s) && Enabled(s, e)
    ensures InstancesOk(Next(capacity, s, e))
  {
  }

  lemma NextLineOk(capacity: nat, s: State, e: Event)
    requires LinesOk(s.lines, capacity) && Enabled(s, e)
    ensures e.key in Next(capacity, s, e).lines && LineOk(Next(capacity, s, e).lines[e.key], capacity)
  {
    if !e.OpenBox? {
      assert LineOk(s.lines[e.key], capacity);
    }
    hide LineOk, Sent, Took, Ended;
    match e
    case OpenBox(_) => IdleOk(capacity);
    case Activate(key) => ActivatedOk(s.lines[key], capacity, s.nextInstance);
    case Send(key, id, drain, registers) => SentOk(s.lines[key], capacity, id, drain, registers);
    case CloseBox(key) => ClosedOk(s.lines[key], capacity);
    case DrainTakes(key, d) => TookOk(s.lines[key], capacity, d);
    case HandlerEnds(key, d) => EndedOk(s.lines[key], capacity, d);
  }

  lemma IdleOk(capacity: nat)
    ensures LineOk(IDLE, capacity)
  {
  }

  /** Nothing was sent before the instance existed. */
  lemma ActivatedOk(l: Line, capacity: nat, instance: nat)
    requires LineOk(l, capacity) && l.instance.None?
    ensures LineOk(l.(instance := Some(instance)), capacity)
  {
    if l.accepted != [] {
      AcceptedMeansActivated(l, capacity);
    }
  }

  lemma AcceptedMeansActivated(l: Line, capacity: nat)
    requires LineOk(l, capacity) && l.accepted != []
    ensures l.instance.Some?
  {
    assert Some(l.accepted[0].instance) == l.instance;
  }

  lemma ClosedOk(l: Line, capacity: nat)
    requires LineOk(l, capacity)
    ensures LineOk(l.(box := l.box.(closed := true)), capacity)
  {
  }

  // ---------- Runs ----------

  function Run(capacity: nat, events: seq<Event>): State
    decreases |events|
  {
    if events == [] then START
    else
      var s := Run(capacity, events[..|events| - 1]);
      var e := events[|events| - 1];
      if Enabled(s, e) then Next(capacity, s, e) else s
  }

  lemma {:induction false} RunKeepsInv(capacity: nat, events: seq<Event>)
    ensures LinesOk(Run(capacity, events).lines, capacity) && InstancesOk(Run(capacity, events))
    decreases |events|
  {
    hide LineOk, InstancesOk, Enabled, Next;
    if events == [] {
      StartIsOk(capacity);
    } else {
      RunKeepsInv(capacity, events[..|events| - 1]);
      var s := Run(capacity, events[..|events| - 1]);
      if Enabled(s, events[|events| - 1]) {
        NextKeepsInv(capacity, s, events[|events| - 1]);
      }
    }
  }

  lemma StartIsOk(capacity: nat)
    ensures LinesOk(START.lines, capacity) && InstancesOk(START)
  {
  }

  /** Accepted tasks start first in, first out, none lost and none twice, one at a time; with no drain coroutine
      left, all of them have finished. */
  lemma TasksStartInOrder(capacity: nat, events: seq<Event>, key: string)
    requires key in Run(capacity, events).lines
    ensures var l := Run(capacity, events).lines[key];
      && l.started <= l.accepted && l.finished <= l.started && |l.started| <= |l.finished| + 1
      && |l.accepted| - |l.started| <= capacity
      && (l.drains == map[] ==> l.finished == l.accepted)
  {
    RunKeepsInv(capacity, events);
    hide Run;
    var l := Run(capacity, events).lines[key];
    assert LineOk(l, capacity);
    if l.drains != map[] {
      var d :| d in l.drains;
      assert l.started == l.finished + Inside(l.drains, d);
    }
  }

  /** Two handlers that run at the same time run for different keys and on different instances. */
  lemma HandlersOfAnActorNeverOverlap(capacity: nat, events: seq<Event>, j: string, d: nat, k: string, e: nat)
    requires var ls := Run(capacity, events).lines;
      j in ls && k in ls && d in ls[j].drains && e in ls[k].drains && ls[j].drains[d].Some? && ls[k].drains[e].Some?
    requires (j, d) != (k, e)
    ensures var ls := Run(capacity, events).lines;
      j != k && ls[j].drains[d].value.instance != ls[k].drains[e].value.instance
  {
    RunKeepsInv(capacity, events);
    hide Run;
    var s := Run(capacity, events);
    assert LineOk(s.lines[j], capacity) && LineOk(s.lines[k], capacity);
    RunsOnItsInstance(s.lines[j], capacity, d);
    RunsOnItsInstance(s.lines[k], capacity, e);
  }

  lemma RunsOnItsInstance(l: Line, capacity: nat, d: nat)
    requires LineOk(l, capacity) && d in l.drains && l.drains[d].Some?
    ensures Some(l.drains[d].value.instance) == l.instance
  {
    assert l.started == l.finished + Inside(l.drains, d);
    assert l.accepted[|l.started| - 1] == l.drains[d].value;
  }
}
