// The ordered path of InboundDispatcher::Dispatch and the service-wide admission counter.

module DispatchModel {
  import opened Wrappers
  import opened UInt64
  import opened IngressModel
  import opened IngressProofs
  import opened IngressAnswers
  import opened OrderedTypes

  datatype WaitStatus = Completed | TimedOut | Cancelled | RuntimeUnavailable | InvalidContext | AlreadyWaiting

  /** How everything around the ingress turns out for one dispatch: activating the actor, its mailbox, the
      waiter, the wait itself, and what the actor task left in the slot. */
  datatype Surroundings = Surroundings(
    activation: Option<Error>,
    mailboxOk: bool,
    waiterOk: bool,
    wait: WaitStatus,
    handler: Result<string, Error>)

  datatype Failure =
    | AtCapacity
    | Expired
    | NoKey(keyError: Error)
    | Refused(refusal: Refusal)
    | Failed(error: Error)
    | NotCompleted(why: CompleteError)

  /** What arrives, with the answer of the service's key extractor; times are milliseconds. */
  datatype Incoming = Incoming(deadline: int, key: Result<string, Error>, request: Request)

  /** Kept back from the caller's deadline for delivering the reply. */
  const REPLY_DELIVERY_RESERVE := 20

  /** The request as the ingress sees it: its actor key comes from the decoded payload. */
  function Keyed(call: Incoming): Request {
    if call.key.Ok? then call.request.(actorKey := call.key.value) else call.request
  }

  /** What is refused after the in-flight gate and before the ingress is asked. */
  function RefusedEarly(call: Incoming, now: int): Option<Failure> {
    if call.deadline - REPLY_DELIVERY_RESERVE <= now then Some(Expired)
    else if call.key.Err? then Some(NoKey(call.key.error))
    else None
  }

  /** ValidateErrorAtBoundary is not part of this model: `check(e)` is None when it accepts e, and the error
      it returns instead otherwise. */
  type BoundaryCheck = Error -> Option<Error>

  function FrameworkError(message: string): Error {
    Error("", "", message, [])
  }

  /** What the dispatch ends with, before the boundary check. */
  function Outcome(env: Surroundings): Result<string, Error> {
    if env.activation.Some? then Err(env.activation.value)
    else if !env.mailboxOk then Err(FrameworkError("mailbox create failed"))
    else if !env.waiterOk then Err(FrameworkError("co waiter unavailable"))
    else if env.wait != Completed then Err(WaitError(env.wait))
    else env.handler
  }

  function WaitError(status: WaitStatus): Error {
    match status
    case TimedOut => FrameworkError("actor handler did not finish within request budget")
    case Cancelled => FrameworkError("inbound request cancelled while queued/running")
    case RuntimeUnavailable => FrameworkError("runtime unavailable while waiting actor result")
    case InvalidContext => FrameworkError("inbound dispatch requires a coroutine context")
    case _ => FrameworkError("unexpected wait status")
  }

  function Safe(check: BoundaryCheck, e: Error): Error {
    if check(e).Some? then check(e).value else e
  }

  /** The terminal reply handed to Complete. */
  function Terminal(check: BoundaryCheck, outcome: Result<string, Error>): Reply {
    match outcome
    case Ok(payload) => Reply(true, payload, Error("", "", "", []))
    case Err(e) => Reply(false, "", Safe(check, e))
  }

  function FirstAnswer(check: BoundaryCheck, outcome: Result<string, Error>): Result<string, Failure> {
    match outcome
    case Ok(payload) => Ok(payload)
    case Err(e) => Err(Failed(Safe(check, e)))
  }

  /** The answer a repeat gets from the cached reply. */
  function ReplayAnswer(check: BoundaryCheck, reply: Reply): Result<string, Failure> {
    if reply.isOk then Ok(reply.payload) else Err(Failed(Safe(check, reply.error)))
  }

  function Verdict(check: BoundaryCheck, reply: Reply): Option<Error> {
    if reply.isOk then None else check(reply.error)
  }

  /** One dispatch from admission on: the receiver goes from st to st', the caller gets the answer, and
      `completed` are the admissions it completed. */
  predicate Served(st: Ingress, st': Ingress, r: Request, env: Surroundings, check: BoundaryCheck,
                   answer: Result<string, Failure>, completed: seq<Admission>)
    requires StreamsMatchGrants(st.grants, st.streams.Keys)
  {
    match Admit(st, r).1
    case Err(refusal) => answer == Err(Refused(refusal)) && st' == st && completed == []
    case Ok(Replay(_, _, reply)) => answer == ReplayAnswer(check, reply) && st' == st && completed == []
    case Ok(a) =>
      var terminal := Terminal(check, Outcome(env));
      && answer == FirstAnswer(check, Outcome(env))
      && st' == Complete(Admit(st, r).0, a, terminal, Verdict(check, terminal)).0
      && completed == [a]
  }

  lemma ServedAnswers(st: Ingress, r: Request, env: Surroundings, check: BoundaryCheck)
    requires StreamsMatchGrants(st.grants, st.streams.Keys)
    ensures var (st', admitted) := Admit(st, r); var terminal := Terminal(check, Outcome(env));
      && (admitted.Err? ==> st' == st && Served(st, st, r, env, check, Err(Refused(admitted.error)), []))
      && (admitted.Ok? && admitted.value.Replay? ==>
            st' == st && Served(st, st, r, env, check, ReplayAnswer(check, admitted.value.reply), []))
      && (admitted.Ok? && admitted.value.Execute? ==>
            Served(st, Complete(st', admitted.value, terminal, Verdict(check, terminal)).0, r, env, check,
                   FirstAnswer(check, Outcome(env)), [admitted.value]))
  {
    hide Complete, Terminal, Verdict, Outcome, FirstAnswer;
  }

  /** When the boundary check accepts the errors it produces itself, the caller of the one execution and
      every later repeat get the same answer, whatever that answer is. */
  lemma RepeatsGetTheFirstAnswer(check: BoundaryCheck, outcome: Result<string, Error>)
    requires forall e :: check(e).Some? ==> check(check(e).value).None?
    ensures var terminal := Terminal(check, outcome);
            ReplayAnswer(check, Normalise(terminal, Verdict(check, terminal))) == FirstAnswer(check, outcome)
  {
    if outcome.Err? {
      assert check(Safe(check, outcome.error)).None?;
    }
  }

  /** The answer reports error e, or what the boundary check returns in its place. */
  predicate Reports(check: BoundaryCheck, e: Error, answer: Result<string, Failure>) {
    && answer.Err? && answer.error.Failed?
    && (check(e).None? ==> answer.error.error == e)
    && (check(e).Some? ==> answer.error.error == check(e).value)
  }

  /** How an execution ends: with the handler's payload iff nothing at all went wrong, and otherwise with the error
      of the first thing that did. */
  lemma EndingsAreExact(check: BoundaryCheck, env: Surroundings)
    ensures var answer := FirstAnswer(check, Outcome(env));
      var runs := env.activation.None? && env.mailboxOk && env.waiterOk;
      && (answer.Ok? <==> runs && env.wait == Completed && env.handler.Ok?)
      && (answer.Ok? ==> answer.value == env.handler.value)
      && (env.activation.Some? ==> Reports(check, env.activation.value, answer))
      && (env.activation.None? && !env.mailboxOk ==>
            Reports(check, Error("", "", "mailbox create failed", []), answer))
      && (env.activation.None? && env.mailboxOk && !env.waiterOk ==>
            Reports(check, Error("", "", "co waiter unavailable", []), answer))
      && (runs && env.wait == TimedOut ==>
            Reports(check, Error("", "", "actor handler did not finish within request budget", []), answer))
      && (runs && env.wait == Cancelled ==>
            Reports(check, Error("", "", "inbound request cancelled while queued/running", []), answer))
      && (runs && env.wait == RuntimeUnavailable ==>
            Reports(check, Error("", "", "runtime unavailable while waiting actor result", []), answer))
      && (runs && env.wait == InvalidContext ==>
            Reports(check, Error("", "", "inbound dispatch requires a coroutine context", []), answer))
      && (runs && env.wait == AlreadyWaiting ==>
            Reports(check, Error("", "", "unexpected wait status", []), answer))
      && (runs && env.wait == Completed && env.handler.Err? ==> Reports(check, env.handler.error, answer))
  {
  }

  /** What is answered from admission on is never one of the earlier refusals. */
  lemma ServedIsNotRefusedEarly(st: Ingress, st': Ingress, r: Request, env: Surroundings, check: BoundaryCheck,
                                answer: Result<string, Failure>, completed: seq<Admission>)
    requires StreamsMatchGrants(st.grants, st.streams.Keys)
    requires Served(st, st', r, env, check, answer, completed)
    ensures answer.Ok? || answer.error.Refused? || answer.error.Failed?
  {
    hide Admit, Complete, Outcome, Verdict;
  }

  /** What a dispatch completes is the stream and sequence the request names, and only for a peer some grant
      names. */
  lemma ServedNamesTheStream(st: Ingress, st': Ingress, r: Request, env: Surroundings, check: BoundaryCheck,
                             answer: Result<string, Failure>, completed: seq<Admission>)
    requires Inv(st) && Served(st, st', r, env, check, answer, completed)
    ensures completed != [] ==>
      completed == [Execute(StreamKey(r.actorKey, r.producerId, r.producerEpoch), r.sequence)]
    ensures Stranger(st.grants, r) ==> answer.Err? && answer.error.Refused? && st' == st
  {
    ExecuteConsumesTheNextSequence(st, r);
    if Stranger(st.grants, r) {
      StrangerIsRefused(st, r);
    }
    hide Admit, Complete, Outcome, Verdict, Stranger;
  }

  /** The boundary check is asked by the dispatcher and once more by the receiver; what it returns the second time
      is kept without details. */
  lemma ErrorsAreCheckedTwice(check: BoundaryCheck, e: Error)
    ensures var terminal := Terminal(check, Err(e)); var kept := Normalise(terminal, Verdict(check, terminal));
      && !kept.isOk && kept.payload == ""
      && (check(e).None? ==> kept.error == e)
      && (check(e).Some? && check(check(e).value).None? ==> kept.error == check(e).value)
      && (check(e).Some? && check(check(e).value).Some? ==>
            var again := check(check(e).value).value;
            kept.error == Error(again.domain, again.domainCode, again.message, []))
  {
  }

  /** A replayed error passes the check again before it is answered; a replayed payload is answered as it is. */
  lemma ReplaysAreChecked(check: BoundaryCheck, reply: Reply)
    ensures reply.isOk ==> ReplayAnswer(check, reply) == Ok(reply.payload)
    ensures !reply.isOk ==> Reports(check, reply.error, ReplayAnswer(check, reply))
  {
  }

  /** The text the caller of a dispatch gets, which the cache has to hold for a repeat. */
  function AnswerText(answer: Result<string, Failure>): string {
    match answer
    case Ok(payload) => payload
    case Err(Failed(e)) => e.domain + e.domainCode + e.message + DetailText(e.details)
    case _ => ""
  }

  /** Once a dispatch has executed, the same request coming again, however it fares, gets the same answer, changes
      nothing and completes nothing, provided that the answer fits the cache and the counter has not wrapped. */
  lemma RepeatIsServedTheSame(st: Ingress, st': Ingress, r: Request, env: Surroundings, check: BoundaryCheck,
                              answer: Result<string, Failure>, a: Admission, env': Surroundings, st'': Ingress,
                              answer': Result<string, Failure>, completed: seq<Admission>)
    requires Inv(st) && Inv(st') && Served(st, st', r, env, check, answer, [a])
    requires forall e :: check(e).Some? ==> check(check(e).value).None?
    requires r.sequence < MAX64 && |AnswerText(answer)| <= st.config.maxBytes
    requires Served(st', st'', r, env', check, answer', completed)
    ensures answer' == answer && st'' == st' && completed == []
  {
    var terminal := Terminal(check, Outcome(env));
    var verdict := Verdict(check, terminal);
    RepeatsGetTheFirstAnswer(check, Outcome(env));
    RepeatIsReplayed(st, r, terminal, verdict);
  }

  lemma RepeatIsReplayed(st: Ingress, r: Request, reply: Reply, verdict: Option<Error>)
    requires Inv(st) && Admit(st, r).1.Ok? && Admit(st, r).1.value.Execute? && r.sequence < MAX64
    requires |ReplyText(Normalise(reply, verdict))| <= st.config.maxBytes
    ensures var a := Admit(st, r).1.value; var st' := Complete(Admit(st, r).0, a, reply, verdict).0;
      Inv(st') && Admit(st', r) == (st', Ok(Replay(a.stream, a.sequence, Normalise(reply, verdict))))
  {
    AdmittedExecution(st, r);
    AdmitKeepsInv(st, r);
    SizeIsLength(Normalise(reply, verdict));
    hide *;
    var (mid, out) := Admit(st, r);
    var a := out.value;
    CompleteEndsOne(mid, a, reply, verdict, a.stream);
    CompleteKeepsInv(mid, a, reply, verdict);
    CompletedReplyIsKept(mid, a, reply, verdict);
    KeptIdentity(mid, a, reply, verdict);
    CachedIsReplayed(Complete(mid, a, reply, verdict).0, r);
  }

  lemma AdmittedExecution(st: Ingress, r: Request)
    requires Inv(st) && Admit(st, r).1.Ok? && Admit(st, r).1.value.Execute? && r.sequence < MAX64
    ensures var (mid, out) := Admit(st, r); var key := RequestKey(r);
      && out.value == Execute(key, r.sequence) && key in mid.streams && mid.config == st.config
      && r.hasStamp && StampComplete(r) && Authorized(mid.grants, r)
      && mid.streams[key].nextSequence == r.sequence + 1 && r.sequence > 0
      && r.sequence in mid.streams[key].inFlight
      && mid.streams[key].inFlight[r.sequence] == InFlight(r.requestId, r.digest)
  {
    ExecuteConsumesTheNextSequence(st, r);
    hide Inv, Authorized, StampComplete;
  }

  lemma CachedIsReplayed(st: Ingress, r: Request)
    requires StreamsMatchGrants(st.grants, st.streams.Keys) && RequestKey(r) in st.streams
    requires r.hasStamp && StampComplete(r) && Authorized(st.grants, r)
    requires var s := st.streams[RequestKey(r)]; 0 < r.sequence < s.nextSequence && r.sequence !in s.inFlight
    requires var k := CachedKey(RequestKey(r), r.sequence);
      k in st.cached && st.cached[k].requestId == r.requestId && st.cached[k].digest == r.digest
    ensures var k := CachedKey(RequestKey(r), r.sequence);
      Admit(st, r) == (st, Ok(Replay(RequestKey(r), r.sequence, st.cached[k].reply)))
  {
    hide Authorized, StampComplete, RequestKey;
  }

  lemma BackAsBefore(before: map<uint64, InFlight>, q: uint64, e: InFlight)
    requires q !in before
    ensures before[q := e] - {q} == before
  {
  }

  /** Admitting an execution and completing it leaves every stream's in-flight entries as they were, and the
      sequence is consumed. */
  lemma AdmitThenComplete(st: Ingress, r: Request, reply: Reply, verdict: Option<Error>)
    requires Inv(st) && Admit(st, r).1.Ok? && Admit(st, r).1.value.Execute?
    ensures var a := Admit(st, r).1.value;
            var st' := Complete(Admit(st, r).0, a, reply, verdict);
            && st'.1 == Ok(())
            && (forall k | k in st.streams :: k in st'.0.streams && st'.0.streams[k].inFlight == st.streams[k].inFlight)
            && a.stream in st.streams
              && Consumed(st'.0.streams[a.stream]) == Consumed(st.streams[a.stream]) + 1 == a.sequence
  {
    ExecuteConsumesTheNextSequence(st, r);
    hide Inv, Admit, Complete;
    var a := Admit(st, r).1.value;
    var mid := Admit(st, r).0;
    CompleteEndsOne(mid, a, reply, verdict, a.stream);
    forall k | k in st.streams
      ensures k in Complete(mid, a, reply, verdict).0.streams
      ensures Complete(mid, a, reply, verdict).0.streams[k].inFlight == st.streams[k].inFlight
    {
      CompleteEndsOne(mid, a, reply, verdict, k);
      if k == a.stream {
        BackAsBefore(st.streams[k].inFlight, a.sequence, InFlight(r.requestId, r.digest));
      }
    }
  }
}

module InboundDispatcherObject {
  import opened Wrappers
  import opened OrderedTypes
  import opened IngressModel
  import opened IngressAnswers
  import opened OrderedIngressObject
  import opened DispatchModel

  /** The per-service part of the dispatcher, for a service with ordered ingress. */
  class PerService {
    const maxInflight: nat
    const ordered: OrderedIngress
    var inflight: nat
    /** Every admission handed to Complete, in the order of the calls. */
    ghost var completions: seq<Admission>

    constructor (maxInflight: nat, ordered: OrderedIngress)
      ensures this.maxInflight == maxInflight && this.ordered == ordered && inflight == 0 && completions == []
    {
      this.maxInflight, this.ordered, inflight, completions := maxInflight, ordered, 0, [];
    }

    /** Every path after an Execute admission calls Complete exactly once, for that admission and with the reply
        the caller is given; every other path does not call it; and the slot is given back. */
    method Dispatch(call: Incoming, now: int, env: Surroundings, check: BoundaryCheck)
      returns (answer: Result<string, Failure>, ghost completed: seq<Admission>)
      requires ordered.Valid()
      modifies `inflight, `completions, ordered
      ensures ordered.Valid() && inflight == old(inflight) && completions == old(completions) + completed
      ensures old(inflight) >= maxInflight ==>
        answer == Err(AtCapacity) && completed == [] && ordered.State() == old(ordered.State())
      ensures old(inflight) < maxInflight ==>
        && answer != Err(AtCapacity)
        && (answer == Err(Expired) <==> call.deadline - 20 <= now)
        && (answer.Err? && answer.error.NoKey? <==> now < call.deadline - 20 && call.key.Err?)
      ensures answer.Err? && answer.error.NoKey? ==> answer.error.keyError == call.key.error
      ensures completed != [] ==> old(inflight) < maxInflight && now < call.deadline - 20 && call.key.Ok?
      ensures completed != [] ==>
        completed == [Execute(StreamKey(call.key.value, call.request.producerId, call.request.producerEpoch),
                              call.request.sequence)]
      ensures call.key.Ok? && Stranger(old(ordered.grants), call.request.(actorKey := call.key.value)) ==>
        answer.Err? && ordered.State() == old(ordered.State())
      ensures old(inflight) < maxInflight && RefusedEarly(call, now).Some? ==>
        answer == Err(RefusedEarly(call, now).value) && completed == [] && ordered.State() == old(ordered.State())
      ensures old(inflight) < maxInflight && RefusedEarly(call, now).None? ==>
        Served(old(ordered.State()), ordered.State(), Keyed(call), env, check, answer, completed)
    {
      hide Served;
      var before := inflight;
      inflight := inflight + 1;
      if before >= maxInflight {
        inflight := inflight - 1;
        return Err(AtCapacity), [];
      }
      answer, completed := DispatchAtGate(call, now, env, check);
      inflight := inflight - 1;
    }

    method DispatchAtGate(call: Incoming, now: int, env: Surroundings, check: BoundaryCheck)
      returns (answer: Result<string, Failure>, ghost completed: seq<Admission>)
      requires ordered.Valid()
      modifies `completions, ordered
      ensures ordered.Valid() && completions == old(completions) + completed
      ensures RefusedEarly(call, now).Some? ==>
        answer == Err(RefusedEarly(call, now).value) && completed == [] && ordered.State() == old(ordered.State())
      ensures RefusedEarly(call, now).None? ==>
        Served(old(ordered.State()), ordered.State(), Keyed(call), env, check, answer, completed)
        && (answer.Ok? || answer.error.Refused? || answer.error.Failed?)
      ensures completed != [] ==>
        && call.key.Ok?
        && completed == [Execute(StreamKey(call.key.value, call.request.producerId, call.request.producerEpoch),
                                 call.request.sequence)]
      ensures call.key.Ok? && Stranger(old(ordered.grants), call.request.(actorKey := call.key.value)) ==>
        answer.Err? && ordered.State() == old(ordered.State())
    {
      hide Served;
      ghost var st0 := ordered.State();
      if call.deadline - REPLY_DELIVERY_RESERVE <= now {
        return Err(Expired), [];
      }
      if call.key.Err? {
        return Err(NoKey(call.key.error)), [];
      }
      answer, completed := DispatchAdmitted(call.request.(actorKey := call.key.value), env, check);
      ServedNamesTheStream(st0, ordered.State(), Keyed(call), env, check, answer, completed);
      ServedIsNotRefusedEarly(st0, ordered.State(), Keyed(call), env, check, answer, completed);
    }

    method DispatchAdmitted(r: Request, env: Surroundings, check: BoundaryCheck)
      returns (answer: Result<string, Failure>, ghost completed: seq<Admission>)
      requires ordered.Valid()
      modifies `completions, ordered
      ensures ordered.Valid() && completions == old(completions) + completed
      ensures Served(old(ordered.State()), ordered.State(), r, env, check, answer, completed)
    {
      ServedAnswers(ordered.State(), r, env, check);
      hide Inv, Admit, Complete, Terminal, Verdict, Outcome, FirstAnswer, Served;
      ghost var st0 := ordered.State();
      ghost var reply0 := Terminal(check, Outcome(env));
      var admitted := ordered.Admit(r);
      match admitted {
        case Err(refusal) =>
          return Err(Refused(refusal)), [];
        case Ok(Replay(_, _, reply)) =>
          if reply.isOk {
            return Ok(reply.payload), [];
          }
          return Err(Failed(Safe(check, reply.error))), [];
        case Ok(a) =>
          AdmitThenComplete(st0, r, reply0, Verdict(check, reply0));
          answer := Execution(a, env, check);
          completed := [a];
      }
    }

    /** The only call of Complete. */
    method CompleteOnce(a: Admission, reply: Reply, verdict: Option<Error>) returns (r: Result<(), CompleteError>)
      requires ordered.Valid()
      modifies `completions, ordered
      ensures ordered.Valid() && completions == old(completions) + [a]
      ensures ordered.State() == Complete(old(ordered.State()), a, reply, verdict).0
      ensures r == Complete(old(ordered.State()), a, reply, verdict).1
    {
      completions := completions + [a];
      r := ordered.Complete(a, reply, verdict);
    }

    /** The part after admission, branch by branch. */
    method Execution(a: Admission, env: Surroundings, check: BoundaryCheck) returns (answer: Result<string, Failure>)
      requires ordered.Valid() && a.Execute?
      requires var terminal := Terminal(check, Outcome(env));
               Complete(ordered.State(), a, terminal, Verdict(check, terminal)).1 == Ok(())
      modifies `completions, ordered
      ensures completions == old(completions) + [a]
      ensures ordered.Valid() && answer == FirstAnswer(check, Outcome(env))
      ensures var terminal := Terminal(check, Outcome(env));
              ordered.State() == Complete(old(ordered.State()), a, terminal, Verdict(check, terminal)).0
    {
      if env.activation.Some? {
        answer := FinishError(a, env.activation.value, check);
        return;
      }
      if !env.mailboxOk {
        answer := FinishError(a, FrameworkError("mailbox create failed"), check);
        return;
      }
      if !env.waiterOk {
        answer := FinishError(a, FrameworkError("co waiter unavailable"), check);
        return;
      }
      if env.wait != Completed {
        answer := FinishError(a, WaitError(env.wait), check);
        return;
      }
      if env.handler.Err? {
        answer := FinishError(a, env.handler.error, check);
        return;
      }
      var done := CompleteOnce(a, Reply(true, env.handler.value, Error("", "", "", [])), None);
      assert done == Ok(());
      return Ok(env.handler.value);
    }

    method FinishError(a: Admission, e: Error, check: BoundaryCheck) returns (answer: Result<string, Failure>)
      requires ordered.Valid()
      modifies `completions, ordered
      ensures ordered.Valid() && completions == old(completions) + [a]
      ensures var terminal := Terminal(check, Err(e));
              var (st, done) := Complete(old(ordered.State()), a, terminal, Verdict(check, terminal));
              && ordered.State() == st
              && answer == if done.Err? then Err(NotCompleted(done.error)) else FirstAnswer(check, Err(e))
    {
      var error := e;
      if check(e).Some? {
        error := check(e).value;
      }
      var done := CompleteOnce(a, Reply(false, "", error), check(error));
      if done.Err? {
        return Err(NotCompleted(done.error));
      }
      return Err(Failed(error));
    }
  }
}

/** The service-wide limit under interleaving: fetch_add and fetch_sub are the atomic steps. */
module InflightGate {
  datatype Place = Holding | BackingOff

  datatype Gate = Gate(max: nat, counter: int, places: map<nat, Place>)

  datatype Step = Arrive(dispatch: nat) | Leave(dispatch: nat)

  function Next(g: Gate, step: Step): Gate {
    match step
    case Arrive(d) =>
      if d in g.places then g
      else g.(counter := g.counter + 1, places := g.places[d := if g.counter >= g.max then BackingOff else Holding])
    case Leave(d) =>
      if d !in g.places then g else g.(counter := g.counter - 1, places := g.places - {d})
  }

  function After(max: nat, steps: seq<Step>): Gate {
    if steps == [] then Gate(max, 0, map[]) else Next(After(max, steps[..|steps| - 1]), steps[|steps| - 1])
  }

  function Holders(g: Gate): set<nat> {
    set d | d in g.places && g.places[d] == Holding
  }

  /** At most max_inflight dispatches hold a slot in any interleaving, and the counter never goes below zero. */
  lemma {:induction false} NeverOverCapacity(max: nat, steps: seq<Step>)
    ensures var g := After(max, steps);
            g.max == max && g.counter == |g.places| && |Holders(g)| <= max
  {
    if steps != [] {
      NeverOverCapacity(max, steps[..|steps| - 1]);
      NextKeepsCount(After(max, steps[..|steps| - 1]), steps[|steps| - 1]);
    }
  }

  lemma NextKeepsCount(g: Gate, step: Step)
    requires g.counter == |g.places| && |Holders(g)| <= g.max
    ensures var g' := Next(g, step);
            g'.counter == |g'.places| && |Holders(g')| <= g.max
  {
    var g' := Next(g, step);
    SubsetSize(Holders(g), g.places.Keys);
    if step.Arrive? && step.dispatch !in g.places {
      assert g'.places.Keys == g.places.Keys + {step.dispatch};
      assert Holders(g') == if g.counter >= g.max then Holders(g) else Holders(g) + {step.dispatch};
    }
    if step.Leave? && step.dispatch in g.places {
      assert g'.places.Keys == g.places.Keys - {step.dispatch};
      SubsetSize(Holders(g'), Holders(g));
    }
  }

  lemma {:induction false} SubsetSize<T>(a: set<T>, b: set<T>)
    requires a <= b
    ensures |a| <= |b|
    decreases b
  {
    if a != {} {
      var x :| x in a;
      SubsetSize(a - {x}, b - {x});
    }
  }

  function BackingOffNow(g: Gate): set<nat> {
    set d | d in g.places && g.places[d] == BackingOff
  }

  /** When a call is turned away, after any run: exactly when the calls that hold a slot and the calls that are
      backing off together reach the limit; so with none backing off, exactly when every slot is held. */
  lemma TurnedAwayIff(max: nat, steps: seq<Step>, d: nat)
    requires d !in After(max, steps).places
    ensures var g := After(max, steps); var turnedAway := Next(g, Arrive(d)).places[d] == BackingOff;
            && (turnedAway <==> |Holders(g)| + |BackingOffNow(g)| >= max)
            && (BackingOffNow(g) == {} ==> (turnedAway <==> |Holders(g)| == max))
  {
    NeverOverCapacity(max, steps);
    var g := After(max, steps);
    assert g.places.Keys == Holders(g) + BackingOffNow(g);
    assert Holders(g) !! BackingOffNow(g);
  }

  /** A dispatch that is still backing off counts: with a limit of one, a third call can be turned away
      although nobody holds the slot any more. */
  lemma TurnedAwayWithFreeSlot()
    ensures var g := After(1, [Arrive(1), Arrive(2), Leave(1), Arrive(3)]);
            Holders(g) == {} && g.places == map[2 := BackingOff, 3 := BackingOff]
  {
    var s := [Arrive(1), Arrive(2), Leave(1), Arrive(3)];
    assert After(1, s[..0]) == Gate(1, 0, map[]);
    LastStep(1, s, 0);
    LastStep(1, s, 1);
    LastStep(1, s, 2);
    LastStep(1, s, 3);
    assert After(1, s[..1]) == Gate(1, 1, map[1 := Holding]);
    assert After(1, s[..2]) == Gate(1, 2, map[1 := Holding, 2 := BackingOff]);
    assert After(1, s[..3]) == Gate(1, 1, map[2 := BackingOff]);
    assert s[..4] == s;
  }

  lemma LastStep(max: nat, steps: seq<Step>, i: nat)
    requires i < |steps|
    ensures After(max, steps[..i + 1]) == Next(After(max, steps[..i]), steps[i])
  {
    assert steps[..i + 1][..i] == steps[..i];
  }
}
