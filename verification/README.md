# An ordered, at-most-once actor framework: model and proofs

The framework is a C++ library of services, actors and components that run on coroutines and talk over RPC. This
project models the parts of it whose correctness depends on protocols and invariants, and proves properties of them
for all inputs, all interleavings and all runs.

**Ordered streams.** A sender (`OrderedSession`) numbers its requests, binds each number to one request on first
send and sends first copies in order. A receiver (`OrderedIngress`) executes each number of a stream at most once
and in order, and answers repeats from a cache of terminal replies that all streams share and that is evicted first
in, first out under a count and a byte limit. `OrderedSession.dfy` and `OrderedIngress.dfy` hold the two objects as
classes, each method proved against a function on values; `IngressProofs.dfy` proves the invariants,
`IngressHistory.dfy` proves that the bounded receiver answers like one that remembers everything, exactly except for
evicted replies, `IngressAnswers.dfy` says what is answered and kept in plain fields and text lengths,
`IngressRuns.dfy` proves what whole runs do, and `EndToEnd.dfy` composes sender and receiver over a
network that loses, repeats and reorders. `InboundDispatcher.dfy` covers the path from admission to completion and
the in-flight counter, `Text.dfy` the decimal and digest formats, `SessionRegistry.dfy` the list of live sessions.

**Registry and lifecycle.** Components, services and actors are entries of a registry; a binding lets a subject
borrow a component, each borrow is a lease, and unbinding, stopping and uninstalling wait for leases.
`ComponentGraph.dfy` has the two graph searches, `Registry.dfy` and `AppObject.dfy` the objects,
`RegistryModel.dfy` and `RegistryProofs.dfy` the functions they are proved against and what those keep,
`RegistryAnswers.dfy` what those answer, field by field, and
`BorrowProtocol.dfy`, `BorrowProofs.dfy` and `BorrowRuns.dfy` the protocol as a state machine with any number of
concurrent jobs, one step for each critical section.

**Order and settlement.** `Saga.dfy` interleaves the `CreateOrder` and `Settle` handlers of the cluster example over
two document collections, with failures, lost answers and replays at every database operation; `SagaHandlers.dfy`
has the handlers as methods; `Hex.dfy` has the text form of stored records.

**Mailboxes, routes, shutdown.** `Mailbox.dfy` and `ActorRegistry.dfy` show that the handlers of one actor never
overlap, `RouteTable.dfy` that round robin is fair and never stale, `HostLifecycle.dfy` what a shutdown may close and
release.

Conventions: a class in a module `...Object` has the fields the source object has; its methods promise that the new
state is a function (in a module `...Model`) of the old one, and lemmas about that function say what it is for.
64-bit counters are natural numbers with an explicit bound and an explicit wrap.

## What does not hold

These are properties of the code as it stands; each has a concrete input and, for all inputs, the exact condition.

- A receiver stream that has admitted sequence 2^64-1 wraps its counter to 0 and answers every later request of the
  stream, repeats included, with SequenceGap(0), where docs/architecture/distributed-framework-baseline.md:33 says a
  repeat is replayed or answered with ResultExpired. Input: `IngressRuns.LastSequenceIsNotReplayed`; condition:
  `IngressHistory.BoundedRefinesUnbounded`.
- `Complete` looks a stream up without its receiver epoch, so an admission outstanding across a session switch ends
  an execution of the new session. Input: `IngressRuns.StaleAdmissionHitsTheNewSession`; condition:
  `EndToEnd.SwitchNeedsQuietStream`.
- A component that is being stopped can be borrowed during OnStop if an install of the same component is still in
  flight and reports Running. Input: `BorrowRuns.InstallDuringStopIsUnsafe`; condition:
  `BorrowRuns.OnlyRevivalReopensAStoppingComponent`, over runs `BorrowRuns.StoppedComponentIsUnused`.
- Such a component is then destroyed under the lease, and a service can reach OnStop while it still holds one. Input:
  `BorrowRuns.ServiceStopsWithAnOrphanedLease`; that nothing else does it: `BorrowRuns.ServiceOnStopFindsNoLeases`.
- A session opened above sequence 1 can never send. Input: `SessionModel.SessionOpenedHigherNeverSends`; condition:
  `SessionModel.CanSendIff`.
- The in-flight limit can turn a call away while no slot is held. Input: `InflightGate.TurnedAwayWithFreeSlot`;
  condition: `InflightGate.TurnedAwayIff`.
- Round robin can use the same endpoint twice in a row when its 64-bit cursor wraps. Input:
  `RouteRuns.SameEndpointTwiceAtTheWrap`; condition: `RouteRuns.WrapSkipsIff`.
- The exit code "late" after an interrupted shutdown hides hook failures. Input:
  `HostLifecycleObject.LateHidesAFailedHook`; condition: `HostLifecycleObject.OutcomesAreExact`.

## Model

| member | source | states |
|---|---|---|
| Decimal.ParseUnsignedDecimal | framework/src/host/InboundDispatcher.cc:46-64 | Succeeds iff the text is a non-empty string of digits whose value is at most 2^64-1, and returns that value; the running value is a 64-bit number throughout, so no step overflows |
| Decimal.PrintedIsParsed | framework/src/host/CoServiceCall.cc:71-72 | What the sender prints for a sequence is what the receiver reads back |
| Decimal.PrintingIsInjective | framework/src/actor/OrderedSession.cc:95-101 | Different numbers print differently |
| Decimal.DigitsAreDecimal | framework/src/host/InboundDispatcher.cc:46-64 | Digits stand for 0 to 9 in the usual order, and the base is ten |
| RequestText.DigestIsInjective | framework/src/host/InboundDispatcher.cc:66-85 | Two requests have the same digest only if method, actor key and payload are all the same, whatever bytes they contain |
| RequestText.FieldSplitsOneWay | framework/src/host/InboundDispatcher.cc:69-80 | A length-prefixed field can be split off the front of a text in one way only |
| RequestText.RequestIdIsUnique | framework/src/actor/OrderedSession.cc:95-101 | A request id determines the session instance and the sequence it was made for, even if the grant fields contain the separator |
| OrderedIngressObject.ReplyBytes | framework/src/actor/OrderedIngress.cc:65-76 | A success is charged the length of its payload; an error the lengths of payload, domain, code, message and of all its detail keys and values together |
| OrderedIngressObject.OrderedIngress.RemoveCached | framework/src/actor/OrderedIngress.cc:245-256 | Removes one reply from the map, the order list, the byte count and the list of its stream, and nothing else; a key that is not cached changes nothing |
| OrderedIngressObject.OrderedIngress.DropStreamCache | framework/src/actor/OrderedIngress.cc:258-267 | Removes every cached reply of one stream and no other |
| OrderedIngressObject.OrderedIngress.EvictToLimits | framework/src/actor/OrderedIngress.cc:269-277 | Leaves the state that the shortest-oldest-prefix eviction gives, with both limits met |
| OrderedIngressObject.OrderedIngress.GrantStream | framework/src/actor/OrderedIngress.cc:90-138 | Same error order as the source; on an error nothing changes, otherwise the new state is the one of the grant function |
| OrderedIngressObject.OrderedIngress.RevokeOtherSessions | framework/src/actor/OrderedIngress.cc:109-122 | Removes every grant, stream and cached reply of the same actor, producer and producer epoch |
| OrderedIngressObject.OrderedIngress.IsAuthorized | framework/src/actor/OrderedIngress.cc:157-170 | The scan, which stops at the first grant of the producer stream, answers yes iff some grant has the actor, the producer, both epochs and the peer of the request |
| OrderedIngressObject.OrderedIngress.Admit | framework/src/actor/OrderedIngress.cc:140-243 | Decides and changes the state exactly as the admission function says, whose answers RejectedIff and DecisionIff give field by field; a request no grant names changes nothing and is rejected |
| OrderedIngressObject.OrderedIngress.Complete | framework/src/actor/OrderedIngress.cc:279-336 | Ends an in-flight sequence and keeps, evicts or refuses exactly as the completion function says, whose results KeptIff, CompletionEvictsTheFewest and CompletionRefusedIff give in text lengths and fields |
| OrderedIngressObject.OrderedIngress.CachedResultCount | framework/src/actor/OrderedIngress.cc:343-346 | The number of cached replies is also the length of the eviction order |
| IngressProofs.EvictionIsShortestOldestPrefix | framework/src/actor/OrderedIngress.cc:269-277 | Eviction removes a prefix of the completion order, stops as soon as count and bytes fit, and no shorter prefix would have done |
| IngressProofs.EvictKeepsBooks | framework/src/actor/OrderedIngress.cc:269-277 | After eviction map, order list, per-stream lists and byte count agree and both limits hold |
| IngressProofs.ForgetKeepsBooks | framework/src/actor/OrderedIngress.cc:245-267 | Forgetting any set of replies keeps map, order list, per-stream lists and byte count in agreement |
| IngressProofs.RevokeKeepsInv | framework/src/actor/OrderedIngress.cc:109-122 | Revoking a stream keeps every invariant, removes the stream, and frees a grant slot if it existed |
| IngressProofs.GrantKeepsInv | framework/src/actor/OrderedIngress.cc:90-138 | Every grant call keeps grants and streams in bijection, one grant for each actor, producer and producer epoch, and the cache books |
| IngressProofs.GrantIsAtomic | framework/src/actor/OrderedIngress.cc:90-138 | A refused grant changes nothing, and a session switch is never refused for the stream limit |
| IngressProofs.GrantInstallsOneSession | framework/src/actor/OrderedIngress.cc:109-137 | After a successful grant exactly one session of the producer stream exists, fresh unless it was installed already, and all other streams are as before |
| IngressProofs.AuthorizedStreamExists | framework/src/actor/OrderedIngress.cc:157-180 | A request some grant covers finds its stream |
| IngressProofs.AdmitKeepsInv | framework/src/actor/OrderedIngress.cc:140-243 | Every admission keeps all receiver invariants |
| IngressProofs.CompleteKeepsInv | framework/src/actor/OrderedIngress.cc:279-336 | Every completion keeps all receiver invariants |
| IngressProofs.CompleteEndsOne | framework/src/actor/OrderedIngress.cc:279-336 | Completing an execution takes its sequence out of flight, leaves every other sequence in flight and every counter as they were, and succeeds |
| IngressProofs.LandedReply | framework/src/actor/OrderedIngress.cc:312-330 | The key a completion inserts is never present already, so the insertion cannot be lost |
| IngressProofs.CompletedReplyIsKept | framework/src/actor/OrderedIngress.cc:319-335 | A reply that fits the limits by itself is still cached after the eviction its own completion triggers |
| IngressProofs.ConsumedIsPartitioned | framework/src/actor/OrderedIngress.cc:178-242 | For every stream 1..next_sequence-1 is the disjoint union of the sequences in flight, cached and expired |
| IngressProofs.ExecuteConsumesTheNextSequence | framework/src/actor/OrderedIngress.cc:231-242 | Execute is given exactly to the next sequence of an authorised stream and consumes it; every other answer leaves the whole state as it was |
| IngressHistory.AdmitRefines | framework/src/actor/OrderedIngress.cc:140-243 | One admission, against a receiver that forgets nothing: same answer unless the reply is gone |
| IngressHistory.GrantRefines | framework/src/actor/OrderedIngress.cc:90-138 | One grant, against a receiver that forgets nothing: same answer and corresponding states |
| IngressHistory.CompleteRefines | framework/src/actor/OrderedIngress.cc:279-336 | One completion, against a receiver that forgets nothing: same answer and corresponding states |
| IngressHistory.StepRefines | framework/src/actor/OrderedIngress.cc:90-336 | The answers of the two receivers agree iff the event is not a request for a forgotten reply |
| IngressHistory.BoundedRefinesUnbounded | framework/src/actor/OrderedIngress.cc:90-336 | After any run of grants, admissions and completions the next answer equals that of the receiver that forgets nothing, iff the request is not for an evicted reply or for a stream whose counter has wrapped; then it is ResultExpired or SequenceGap(0), and nothing is executed |
| IngressRuns.ExecutionsAreConsecutive | framework/src/actor/OrderedIngress.cc:178-242 | Between two session switches a stream hands out consecutive sequences, each once, over any run |
| IngressRuns.ExpiredForEver | framework/src/actor/OrderedIngress.cc:191-229 | Once a sequence is expired, no later request for it is executed or replayed in that session, over any run |
| IngressRuns.FreshSessionExecutesInOrder | framework/src/actor/OrderedIngress.cc:90-242 | A fresh session executes 1, 2, 3, ... over any run in which it is not replaced |
| IngressRuns.StaleAdmissionHitsTheNewSession | framework/src/actor/OrderedIngress.cc:279-310 | An admission still outstanding when its session is replaced completes the same sequence of the new session, whose caller then gets the reply of the old one: a concrete run |
| IngressRuns.AnyCountIsReached | framework/src/actor/OrderedIngress.cc:178-242 | Every value of the sequence counter up to 2^64-1 is reached by some run, with nothing left in flight |
| IngressRuns.LastSequenceIsNotReplayed | framework/src/actor/OrderedIngress.cc:178-242 | After sequence 2^64-1 has been executed and its reply cached, the same request is answered with SequenceGap(0): a run for every configuration and grant |
| IngressAnswers.RejectedIff | framework/src/actor/OrderedIngress.cc:140-180 | A complete stamp is rejected iff no grant has the same actor, producer, producer epoch, receiver epoch and peer |
| IngressAnswers.DecisionIff | framework/src/actor/OrderedIngress.cc:178-243 | For a request some grant names, each of the six answers iff, from its sequence, the next sequence, what is in flight and what is cached |
| IngressAnswers.StrangersChangeNothing | framework/src/actor/OrderedIngress.cc:157-170 | Any number of requests from peers no grant names leaves the receiver as it is |
| IngressAnswers.AnsweredOnlyAfterAGrant | framework/src/actor/OrderedIngress.cc:90-243 | Over any run, a request is executed or replayed only if a grant with its actor, producer, epochs and peer was made before |
| IngressAnswers.GrantRefusedIff | framework/src/actor/OrderedIngress.cc:90-131 | Each of the three refusals of a grant iff, from its fields, the installed grants and the limit |
| IngressAnswers.GrantedAfresh | framework/src/actor/OrderedIngress.cc:109-137 | A new session replaces exactly the grant, stream and cached replies of the same actor, producer and producer epoch, and starts at 1 |
| IngressAnswers.DetailBytesAdd | framework/src/actor/OrderedIngress.cc:71-74 | The bytes of two detail lists add up |
| IngressAnswers.DetailBytesIsLength | framework/src/actor/OrderedIngress.cc:71-74 | The details are charged the length of all their keys and values written one after the other |
| IngressAnswers.KeptIff | framework/src/actor/OrderedIngress.cc:298-335 | A completed success is kept iff its payload fits the byte limit, an error iff all its text does; what is kept has the identity of the request, and an error the boundary check replaced has no details |
| IngressAnswers.CompletionRefusedIff | framework/src/actor/OrderedIngress.cc:279-303 | Each of the three refusals of a completion iff; a refusal changes nothing |
| IngressAnswers.CacheFits | framework/src/actor/OrderedIngress.cc:269-277 | In every state each cached reply is listed once, their number is within the limit, and so is the length of all their text |
| IngressAnswers.CompletionEvictsTheFewest | framework/src/actor/OrderedIngress.cc:269-330 | The new reply is the newest; a prefix of the older ones goes, and no shorter prefix would have met both limits |
| SessionModel.PrepareIssuesTheNextSequence | framework/src/actor/OrderedSession.cc:103-124 | prepare issues the sequence after the last one under an unused request id, changes no earlier ticket, and fails exactly when 2^64-1 has been issued |
| SessionModel.BindKeepsOrder | framework/src/actor/OrderedSession.cc:132-164 | A first send goes through only for the lowest unsent ticket; a bound ticket keeps its content; a refused send changes nothing |
| SessionModel.BoundTicketsArePrefix | framework/src/actor/OrderedSession.cc:132-164 | For a session that starts at 1 the bound tickets are exactly 1..watermark |
| SessionModel.SequencesNeverRepeat | framework/src/actor/OrderedSession.cc:103-164 | Over any run of calls tickets carry consecutive sequences, bound content never changes, and the counter never wraps |
| SessionModel.SendGoesThroughIff | framework/src/actor/OrderedSession.cc:132-164 | For every ticket of a session: a bound one can be sent iff the content is its own, an unbound one iff it is the lowest unsent |
| SessionModel.SendRefusedIff | framework/src/actor/OrderedSession.cc:132-164 | Each of the three refusals of a send iff: id not issued here, other content than bound, an earlier ticket unsent |
| SessionModel.CanSendIff | framework/src/actor/OrderedSession.cc:62-70 | While a ticket is unsent, some first send can go through iff the session was opened at 1, and then that of the lowest unsent ticket does, whatever its content |
| SessionModel.SessionOpenedHigherNeverSends | framework/src/actor/OrderedSession.cc:62-70 | A session opened above 1 never gets a first send through after any run of calls, because its watermark starts at 0 |
| OrderedSessionObject.OrderedTicket.BindOrCheck | framework/include/bbt/framework/OrderedTypes.hpp:95-110 | Binds an unbound ticket; otherwise answers whether the content is the one bound before |
| OrderedSessionObject.OrderedSession.Prepare | framework/src/actor/OrderedSession.cc:95-124 | Fails iff the sequence space is used up; otherwise hands out a new unbound ticket with the next sequence, held under the request id that joins the three grant fields, the session number and the sequence |
| OrderedSessionObject.OrderedSession.BindForSend | framework/src/actor/OrderedSession.cc:132-164 | Accepts only the very ticket object this session issued; then the object does what the sender function says, and watermark+1 does not overflow where it is compared |
| SessionRegistryObject.SessionRegistry.Open | framework/src/actor/OrderedSession.cc:72-93 | The same grant shares the live session; a grant of a live stream for another peer is refused, and nothing else is; only a stream without a live session gets a new one; no two live sessions ever share a stream |
| SessionRegistryObject.SessionRegistry.Find | framework/src/actor/OrderedSession.cc:75-89 | The scan that sweeps dead entries finds the live session of a stream iff there is one, and loses no live entry |
| SessionRegistryObject.SessionRegistry.Destroy | framework/src/actor/OrderedSession.cc:49-56 | Letting a session go removes its entry and no entry of a live session |
| EndToEnd.NextKeepsInv | framework/src/host/CoServiceCall.cc:57-108 | Every step of sender, network and receiver keeps: what is sent is bound, what is executed is what was bound, what runs is what is in flight |
| EndToEnd.ExecutedIsPrefixOfBound | framework/src/host/CoServiceCall.cc:57-108 | In every reachable state what the receiver has executed is a prefix of what the sender has bound, in sequence order, whatever the network loses, repeats or reorders |
| EndToEnd.DeliveryIsAtMostOnce | framework/src/actor/OrderedIngress.cc:140-243 | Any copy of a sent message, whenever it arrives: never a conflict, executed iff its sequence is next, and if answered then with the terminal reply of the one execution |
| EndToEnd.NothingRunningNothingInFlight | framework/src/host/InboundDispatcher.cc:241-380 | No stream has a sequence in flight iff no dispatch runs |
| EndToEnd.CompletesExactlyOnce | framework/src/host/InboundDispatcher.cc:241-380 | A dispatch completes the admission it holds, and a second completion of it is refused and changes nothing |
| EndToEnd.HistoryOnlyGrows | framework/src/actor/OrderedIngress.cc:279-336 | The executed log only grows and the terminal reply of a sequence never changes |
| EndToEnd.SwitchNeedsQuietStream | framework/src/actor/OrderedIngress.cc:109-137 | A session switch keeps running dispatches and in-flight entries in step iff nothing admitted under the old session still runs |
| InboundDispatcherObject.PerService.Dispatch | framework/src/host/InboundDispatcher.cc:182-380 | With a slot free, Expired iff the deadline less 20 ms has come, and the key error iff in time without a key; only a call in time with a key completes anything, and then exactly once the sequence it names on the stream of its key; a peer no grant names changes nothing; the slot is given back |
| InboundDispatcherObject.PerService.Execution | framework/src/host/InboundDispatcher.cc:294-380 | Every ending after admission (activation, mailbox, waiter, wait status, handler error, success) hands the same terminal reply to the cache and to the caller |
| InboundDispatcherObject.PerService.FinishError | framework/src/host/InboundDispatcher.cc:276-292 | An error is made safe before it is both cached and returned |
| DispatchModel.EndingsAreExact | framework/src/host/InboundDispatcher.cc:294-380 | The caller gets the payload iff activation, mailbox, waiter, wait and handler all succeed, and otherwise the error of the first that does not, or what the boundary check puts in its place |
| DispatchModel.ErrorsAreCheckedTwice | framework/src/host/InboundDispatcher.cc:276-292 | The error kept for repeats, for every boundary check: the error, the check of it, or the check of that without details |
| DispatchModel.ReplaysAreChecked | framework/src/host/InboundDispatcher.cc:244-260 | A replayed payload is answered as it is, a replayed error passes the boundary check again |
| DispatchModel.ServedNamesTheStream | framework/src/host/InboundDispatcher.cc:205-262 | Only the stream and sequence the request names are completed, and only for a peer some grant names |
| DispatchModel.RepeatIsServedTheSame | framework/src/host/InboundDispatcher.cc:241-292 | After a dispatch has executed, the same request again gets the same answer whatever goes wrong this time, changes nothing and completes nothing, if the answer fits the cache, the counter has not wrapped and the check accepts its own errors |
| DispatchModel.RepeatsGetTheFirstAnswer | framework/src/host/InboundDispatcher.cc:244-292 | The first caller and every later repeat get the same answer, if the boundary check accepts what it returns itself |
| DispatchModel.AdmitThenComplete | framework/src/host/InboundDispatcher.cc:241-380 | Admitting and completing leaves the in-flight entries of every stream as they were and consumes one sequence |
| InflightGate.NeverOverCapacity | framework/src/host/InboundDispatcher.cc:182-190 | In any interleaving of the atomic additions and subtractions at most max_inflight dispatches hold a slot, and the counter is the number of calls inside |
| InflightGate.TurnedAwayIff | framework/src/host/InboundDispatcher.cc:182-190 | After any run, an arriving call is turned away iff the calls holding a slot and the calls backing off together reach the limit; with none backing off, iff all slots are held |
| InflightGate.TurnedAwayWithFreeSlot | framework/src/host/InboundDispatcher.cc:182-190 | A call can be turned away although no slot is held, because a call that is backing off is still counted: a concrete run |
| ComponentGraph.StartOrder | framework/src/host/Registry.cc:753-774 | The order is a permutation of the components without repeats; the cycle flag is set iff there is a cycle; without one every dependency comes before its users |
| ComponentGraph.Visit | framework/src/host/Registry.cc:756-768 | The depth-first visit keeps marks, order and flag right and finishes the node |
| ComponentGraph.VisitDependencies | framework/src/host/Registry.cc:758-764 | Afterwards every dependency is finished unless a cycle was found |
| ComponentGraph.OrderedMeansAcyclic | framework/src/host/Registry.cc:738-775 | A graph whose components can all be listed with dependencies first has no cycle |
| ComponentGraph.SearchFor | framework/src/host/App.cc:1112-1121 | The search finds the subject iff a path leads to it; what it has marked is closed under dependencies |
| ComponentGraph.WouldFormCycle | framework/src/host/App.cc:1094-1122 | Answers yes iff the target is the subject or already reaches it |
| ComponentGraph.NewEdgeClosesCycleIff | framework/src/host/App.cc:1094-1122 | Adding an edge to an acyclic graph closes a cycle iff its target is its subject or already reaches it |
| ComponentGraph.FewerEdgesStayAcyclic | framework/src/host/Registry.cc:701-720 | Removing edges never makes a cycle |
| RegistryObject.Registry.CreateEntry | framework/src/host/Registry.cc:43-72 | Refuses at the object limit, otherwise adds an entry with a new id and a new generation |
| RegistryObject.Registry.CountBindings | framework/src/host/Registry.cc:118-122 | The loop counts every binding of every entry once |
| RegistryObject.Registry.RefuseBind | framework/src/host/Registry.cc:481-509 | The refusals of BindLocked, in order |
| RegistryObject.Registry.BindLocked | framework/src/host/Registry.cc:481-520 | Either one refusal and no change, or one new active edge with a new generation |
| RegistryObject.Registry.BeginUnbind | framework/src/host/Registry.cc:522-539 | Retires the active edge of subject and component, or finds that there is none and changes nothing |
| RegistryObject.Registry.FindRetiring | framework/src/host/Registry.cc:689-699 | Finds the oldest retiring edge of the subject iff there is one |
| RegistryObject.Registry.CheckHandle | framework/src/host/Registry.cc:864-889 | A handle with a stale object or binding generation is refused; otherwise the subject is the one the binding names |
| RegistryObject.Registry.RefuseBorrow | framework/src/host/Registry.cc:566-615 | The refusals of AcquireBorrowLocked, in order, and otherwise the record to count on |
| RegistryObject.Registry.Borrow | framework/src/host/Registry.cc:864-902 | Either the refusal and no change, or both counts, the component's and the edge's, go up by one |
| RegistryObject.Registry.ReleaseBorrow | framework/src/host/Registry.cc:541-564 | Both counts go down by one, neither below zero; a vanished component or edge is skipped |
| RegistryObject.Registry.EraseBinding | framework/src/host/Registry.cc:701-712 | Removes the edge of that component, subject and generation iff it is there and retiring; any other generation changes nothing |
| RegistryObject.Registry.EraseSubjectBindings | framework/src/host/Registry.cc:714-720 | Removes exactly the retiring edges of the subject in one component |
| RegistryObject.Registry.BeginDestroy | framework/src/host/Registry.cc:779-797 | Refuses a component with bindings and an object with an operation in progress; otherwise closes the gate and takes the operation flag |
| RegistryObject.Registry.FinishDestroy | framework/src/host/Registry.cc:799-818 | Removes the entry with its bindings and rebuilds the index so that every other id leads to the same entry |
| RegistryObject.Registry.SetState | framework/src/host/Registry.cc:159-192 | Changes the state of one entry and no other field of any |
| AppObject.CoApp.ComponentIds | framework/src/host/Registry.cc:145-150 | Every component once |
| AppObject.CoApp.DependenciesOf | framework/src/host/Registry.cc:743-752 | The components a subject is bound to, retiring bindings included |
| AppObject.CoApp.BuildGraph | framework/src/host/App.cc:1099-1111 | The graph both searches use has exactly the edges of the bindings between components |
| AppObject.CoApp.ComponentStartOrder | framework/src/host/Registry.cc:738-775 | All components once, whatever a component is bound to before it, and the cycle flag iff the bindings have a cycle |
| AppObject.CoApp.StopOrder | framework/src/host/App.cc:488-518 | Scoped components apart from those of App scope; within each pass every user comes before what it is bound to |
| AppObject.CoApp.WouldFormCycle | framework/src/host/App.cc:1094-1122 | Answers yes iff binding the subject to the target would close a cycle |
| AppObject.CoApp.BindComponent | framework/src/host/App.cc:1618-1648 | Check and insertion in one critical section: refused for a stale subject, an App, a component type the service does not allow, a missing component, a cycle or by BindLocked, in that order, and otherwise bound; keeps the dependency graph acyclic |
| AppObject.CoApp.RetireEdgesOf | framework/src/host/App.cc:553-563 | One BeginUnbind for each component retires every active edge of the subject |
| AppObject.CoApp.RetiringEdgesOf | framework/src/host/App.cc:572-585 | Collects exactly the retiring edges of the subject |
| AppObject.CoApp.EraseEdgesOf | framework/src/host/App.cc:612-620 | Erases exactly the retiring edges of the subject |
| RegistryProofs.CycleCheckIsExact | framework/src/host/App.cc:1094-1122 | For two components and an acyclic registry, adding the edge keeps it acyclic iff the check says no |
| RegistryProofs.BindKeepsInv | framework/src/host/App.cc:1618-1648 | Binding keeps generations unique, one active edge for each subject and component, and the dependency graph acyclic |
| RegistryProofs.CreateKeepsInv | framework/src/host/Registry.cc:43-72 | A new entry gets an id that no binding mentions, so it adds no dependency |
| RegistryProofs.FinishDestroyKeepsInv | framework/src/host/Registry.cc:799-818 | Removing an entry keeps all invariants of the registry |
| RegistryProofs.ShrinkKeepsInv | framework/src/host/Registry.cc:522-720 | Retiring, draining and erasing edges keeps all invariants of the registry |
| RegistryAnswers.BorrowRefusedIff | framework/src/host/Registry.cc:566-618 | A borrow succeeds, is Overloaded, or is Closed: each iff, from the fields of component, edge and subject |
| RegistryAnswers.ReturnTakesOne | framework/src/host/Registry.cc:541-564 | A return takes one from each count that is there and above zero, and touches nothing else |
| RegistryAnswers.BindRefusedIff | framework/src/host/Registry.cc:481-509 | Each refusal of BindLocked iff, from the fields of component and subject, the limit and the active edges |
| RegistryAnswers.BindComponentRefusedIff | framework/src/host/App.cc:1618-1648 | Each refusal before BindLocked iff, in order: stale subject, App or type not allowed, component not found, cycle |
| RegistryAnswers.SubjectEdges | framework/src/host/Registry.cc:701-720 | Retiring a subject marks exactly its edges and keeps their counts; erasing drops exactly its retiring ones |
| RegistryAnswers.OneEdgeErased | framework/src/host/Registry.cc:701-712 | An edge goes iff it is the named one, retiring, and of that component and subject |
| RegistryAnswers.CreatedEntry | framework/src/host/Registry.cc:43-72 | Refused iff the table is full; otherwise open, idle and unused under the next id and generation |
| RegistryAnswers.DestroyBeginsIff | framework/src/host/Registry.cc:779-797 | An uninstall begins iff the entry is there, idle and, for a component, without any binding; each refusal has its code |
| RegistryAnswers.DestroyedEntry | framework/src/host/Registry.cc:799-818 | A removed entry takes the edges to it and no other |
| RegistryAnswers.StateIsSet | framework/src/host/Registry.cc:159-192 | A state change writes the state of one entry and nothing else |
| BorrowProofs.NextKeepsTable | framework/src/host/App.cc:544-1760 | Every critical section of bind, borrow, unbind, stop and uninstall keeps the registry invariants |
| BorrowProofs.NextIsAccounted | framework/src/host/Registry.cc:541-629 | Every step of every interleaving keeps both borrow counts equal to the number of live leases, and never erases an edge of a registered component that has one |
| BorrowProofs.ReturnIsAccounted | framework/src/host/Registry.cc:541-564 | Returning a lease: while the component is registered both counts are above zero, so the guards against negative counts never bite |
| BorrowProofs.BorrowIsAccounted | framework/src/host/Registry.cc:566-629 | A successful borrow counts its lease on the component and on the edge |
| BorrowProofs.DestroyIsAccounted | framework/src/host/Registry.cc:799-818 | Whatever entry goes, both counts stay exact for all others |
| BorrowProofs.DestroyOrphansNobody | framework/src/host/Registry.cc:799-818 | A service or actor, a component behind a closed gate, and a component with count zero can go without orphaning a lease |
| BorrowProofs.NextKeepsJobs | framework/src/host/App.cc:544-1518 | Every step keeps, for every unbind, stop and uninstall under way, what it has waited for: a drained retiring edge stays drained |
| BorrowProofs.NextKeepsInv | framework/src/host/App.cc:544-1760 | All of it together, for every step |
| BorrowRuns.RunKeepsInv | framework/src/host/App.cc:544-1760 | The invariants hold in every state that any interleaving reaches |
| BorrowRuns.ServiceOnStopFindsNoLeases | framework/src/host/App.cc:544-1518 | From the call of OnStop until the entry is gone, a lease that a service being stopped or uninstalled still holds is on a component that is no longer registered, and that component was revived while it was being stopped |
| BorrowRuns.StoppedComponentIsUnused | framework/src/host/App.cc:663-719 | From the call of OnStop until the entry is gone nobody holds a lease on a component being stopped, unless that very component is revived after its stop began |
| BorrowRuns.FinishLeavesNothing | framework/src/host/App.cc:612-719 | A finished stop or uninstall leaves neither the entry nor an edge to it, and of a service no edge at all |
| BorrowRuns.UnbindLeavesNoEdge | framework/src/host/App.cc:1690-1760 | A finished unbind has removed its edge, whoever else worked on the table meanwhile |
| BorrowRuns.AbortLeavesTheEntry | framework/src/host/App.cc:520-541 | An aborted stop or uninstall leaves the entry idle and incomplete, with its edges, and closed to new bindings |
| BorrowRuns.StopStaysSafe | framework/src/host/App.cc:663-719 | No step but the revival of the component itself undoes what stopping it has achieved: closed to borrowers, and unused once OnStop is called |
| BorrowRuns.LeasesKeepTheirComponent | framework/src/host/App.cc:663-719 | Over any run, a component that is never revived while being stopped outlives every lease on it |
| BorrowRuns.UninstallFindsNoLeases | framework/src/host/App.cc:1203-1279 | In every reachable state a component being uninstalled has no binding and no lease, from the first critical section on |
| BorrowRuns.OnlyRevivalReopensAStoppingComponent | framework/src/host/App.cc:663-719 | While a component with an active edge is being stopped, a change of its state makes it borrowable iff the new state is Running or Installed |
| BorrowRuns.InstallDuringStopIsUnsafe | framework/src/host/App.cc:1157-1199 | An install that reports Running while its component is already being stopped lets a service borrow it during OnStop: a concrete run |
| BorrowRuns.ServiceStopsWithAnOrphanedLease | framework/src/host/App.cc:544-719 | Continuing that run, the component is destroyed under the lease and the service reaches OnStop while it still holds it: a concrete run |
| BorrowRuns.BorrowsAreConserved | framework/src/host/Registry.cc:541-629 | In every reachable state the borrow count of a component is the number of its live leases and the sum over its edges |
| BorrowRuns.LeasesKeepTheirEdge | framework/src/host/Registry.cc:701-720 | In every reachable state each live lease on a registered component still has its edge, both counted |
| BorrowRuns.RetiredForEver | framework/src/host/Registry.cc:603-618 | Once an edge is retired no handle with its generation borrows again in any later state, whatever is bound since, and its count only falls |
| BorrowRuns.StartOrderNeverMeetsACycle | framework/src/host/Registry.cc:738-775 | In every reachable state the graph the start order is built from has no cycle |
| BorrowRuns.GenerationsIdentifyEdges | framework/src/host/Registry.cc:481-520 | In every reachable state a subject has at most one active edge to a component, and no object shares its generation |
| MailboxObject.ActorMailbox.TryEnqueue | framework/src/actor/ActorMailbox.cc:17-47 | Accepts iff open, not full, and a drain is running or can be registered; each refusal iff; a refusal leaves the queue and the drain flag as they were |
| MailboxObject.ActorMailbox.Take | framework/src/actor/ActorMailbox.cc:80-90 | Takes the oldest task, or gives the right to drain back exactly when there is none |
| MailboxMachine.NextKeepsInv | framework/src/actor/ActorMailbox.cc:17-101 | Every step keeps accepted = started + queued, one drain coroutine iff draining, and draining whenever something is queued |
| MailboxMachine.TasksStartInOrder | framework/src/actor/ActorMailbox.cc:17-101 | In every interleaving tasks start first in first out, none lost, none twice, one at a time; with no drain left all accepted tasks have finished |
| MailboxMachine.HandlersOfAnActorNeverOverlap | framework/src/host/InboundDispatcher.cc:294-334 | Two handlers running at the same time run for different keys and on different instances |
| ActorRegistryObject.ActorRegistry.GetOrCreate | framework/src/actor/ActorRegistry.cc:27-75 | One instance for each service and key for ever; a new one takes a slot of its service; each refusal iff, and it leaves nothing behind |
| ActorRegistryObject.ActorRegistry.RegisterFactory | framework/src/actor/ActorRegistry.cc:5-25 | Refuses empty names, missing factories, a zero limit and duplicates; otherwise starts at zero live actors |
| ActorRegistryObject.ActorRegistry.ActorCount | framework/src/actor/ActorRegistry.cc:77-81 | The live counter is the number of actors of the service |
| RouteModel.UniqueKeepsFirstOccurrences | framework/src/host/DynamicRouteTable.cc:44-54 | The de-duplicated list has every endpoint once, in the order of first occurrence |
| RouteTableObject.DynamicRouteTable.Replace | framework/src/host/DynamicRouteTable.cc:28-70 | Refuses iff the service or a field of an endpoint is empty; otherwise installs the de-duplicated view and keeps the cursor iff the view is the same |
| RouteTableObject.DynamicRouteTable.Deduplicate | framework/src/host/DynamicRouteTable.cc:44-54 | The loop computes the first-occurrence list |
| RouteTableObject.DynamicRouteTable.Resolve | framework/src/host/DynamicRouteTable.cc:72-104 | Each refusal iff, from entry, flag, view and age; a success returns the endpoint at the cursor modulo their number and moves the 64-bit cursor by one |
| RouteTableObject.DynamicRouteTable.MarkUnavailable | framework/src/host/DynamicRouteTable.cc:106-114 | Empties the view and refuses until the next accepted snapshot |
| RouteRuns.ResolvedAddressIsFresh | framework/src/host/DynamicRouteTable.cc:28-104 | Over any run, a resolved endpoint is in the last accepted snapshot, which is not older than the stale limit and was not marked unavailable since |
| RouteRuns.AnswersGoRound | framework/src/host/DynamicRouteTable.cc:92-104 | Between changes of the view, refreshes of the same view included, answer j is the endpoint j places after the cursor, going round |
| RouteRuns.ViewsHaveNoRepeats | framework/src/host/DynamicRouteTable.cc:44-54 | Over any run no view lists an address twice |
| RouteRuns.RoundRobinIsFair | framework/src/host/DynamicRouteTable.cc:60-104 | Between changes of the view, until the cursor wraps, any two addresses of the view are returned equally often up to one |
| RouteRuns.WrapSkipsIff | framework/src/host/DynamicRouteTable.cc:101-101 | The step to the following endpoint is lost exactly at the wrap of the cursor, and only if the number of endpoints does not divide 2^64 |
| RouteRuns.SameEndpointTwiceAtTheWrap | framework/src/host/DynamicRouteTable.cc:101-101 | With three endpoints two resolves in a row around the wrap return the same one: a concrete run |
| HostLifecycleObject.HostLifecycle.Run | framework/src/host/HostLifecycle.cc:16-62 | Runs once; outcome, final phase, failures in order and the calls made are the ones the outside world determines; a parked run has neither closed nor released; the public state only moves forward |
| HostLifecycleObject.HostLifecycle.ShutDown | framework/src/host/HostLifecycle.cc:92-142 | The host is closed iff it was created and the run goes on; the drained hook runs iff the handlers have drained; the release hook comes last |
| HostLifecycleObject.HostLifecycle.StopHost | framework/src/host/HostLifecycle.cc:96-121 | Closes the host only after a successful drain or an observed close, and parks otherwise |
| HostLifecycleObject.HostLifecycle.WaitHandlersDone | framework/src/host/HostLifecycle.cc:144-178 | Drained, interrupted or undrained, with the failures, the budget flag and the incomplete step the source records |
| HostLifecycleModel.OneMoreAction | framework/src/host/HostLifecycle.cc:92-142 | Which action may follow which: wait after stop, hook after drain, close after drain or close reason and nothing of the host after it, each call once, state never back, release last |
| HostLifecycleObject.OutcomesAreExact | framework/src/host/HostLifecycle.cc:16-142 | Each of the five exits and parking iff, from the outside world alone |
| HostLifecycleObject.ExitOkMeansNoFailure | framework/src/host/HostLifecycle.cc:125-142 | Exit code 0 shows no failure; every other code but late shows one |
| HostLifecycleObject.LateHidesAFailedHook | framework/src/host/HostLifecycle.cc:125-142 | Over budget, interrupted and with a release hook that throws, the exit code is the same as without the failure: a concrete run |
| HexCodec.Encode | examples/ecommerce_cluster/services/common/storage.cc:44-52 | The loop writes two lower-case digits for each byte, high half first |
| HexCodec.Decode | examples/ecommerce_cluster/services/common/storage.cc:53-70 | Succeeds iff the length is even and every character is a lower-case hexadecimal digit |
| HexCodec.EncodedIsDecoded | examples/ecommerce_cluster/services/common/storage.cc:44-70 | Decoding an encoded record gives the record back |
| HexCodec.DecodedIsEncoded | examples/ecommerce_cluster/services/common/storage.cc:53-70 | A text that decodes is the encoding of what it decodes to |
| HexCodec.DigitsOfByte | examples/ecommerce_cluster/services/common/storage.cc:44-52 | Byte i stands at 2i and 2i + 1, as the digits of its high and its low half |
| OrderRecords.AmountFits | examples/ecommerce_cluster/services/order/order_service.cc:85-88 | The overflow guard refuses exactly the products that do not fit 64 bits |
| OrderRecords.PendingIff | examples/ecommerce_cluster/services/order/order_service.cc:83-101 | The pending record exists iff price, product and discount fit, and has these ten fields |
| OrderRecords.OrderIsValidIff | examples/ecommerce_cluster/services/common/storage.cc:14-25 | An order is valid iff id and product have one to eighty letters, digits, dashes or underscores, the quantity is positive and the discount is not negative |
| SagaMachine.NextKeepsInv | examples/ecommerce_cluster/services/order/order_service.cc:57-135 | Every database operation, lost answer, crash and replay keeps orders, bills, running handlers and answers consistent, and documents only grow |
| SagaMachine.SettledOrder | examples/ecommerce_cluster/services/common/storage.cc:109-123 | Marking settled again writes the record that is already there |
| SagaMachine.RepliesAgree | examples/ecommerce_cluster/services/order/order_service.cc:57-135 | All successful CreateOrder answers for one id are the same settled record, for the same payload, and repeat its bill |
| SagaMachine.DocumentsAreStable | examples/ecommerce_cluster/services/common/storage.cc:92-123 | Amounts never change after insertion, a settled order never changes at all, and no document goes |
| SagaMachine.SettledOrdersAreBilled | examples/ecommerce_cluster/services/settlement/settlement_service.cc:7-48 | A settled order has a bill with equal payload, total and payable; amounts are consistent everywhere |
| SagaHandlers.Collection.InsertRecord | examples/ecommerce_cluster/services/common/storage.cc:92-107 | Inserts at most one document for an id; only a confirmed duplicate is read back |
| SagaHandlers.Collection.MarkSettled | examples/ecommerce_cluster/services/common/storage.cc:109-123 | Writes the record iff the document exists |
| SagaHandlers.SettlementService.Settle | examples/ecommerce_cluster/services/settlement/settlement_service.cc:7-48 | Keeps every bill; succeeds exactly when the request is valid, no different bill holds the id and the operations it needs work; InvalidArgument iff the request or the stored bill is the reason |
| SagaHandlers.OrderService.SavedOrder | examples/ecommerce_cluster/services/order/order_service.cc:74-103 | Reads or inserts the pending record; what it inserts has consistent amounts, and undisturbed the result is the one record the price and the request determine |
| SagaHandlers.OrderService.SettleOrder | examples/ecommerce_cluster/services/order/order_service.cc:107-129 | From a pending record: undisturbed it settles exactly when no different bill holds the id; ProtocolError iff a reply arrives that does not repeat the request and the amounts; a success determines the final record and bill |
| SagaHandlers.OrderService.CreateOrder | examples/ecommerce_cluster/services/order/order_service.cc:57-135 | Whatever fails, documents only grow and amounts stay; an answer is the stored, settled, billed record; undisturbed it succeeds exactly when the payload matches what both collections hold |
| SagaHandlers.CreateOrderIsARun | examples/ecommerce_cluster/services/order/order_service.cc:57-135 | Whenever CreateOrder can succeed there is a run of the interleaved machine with the same answer, the same documents and no handler left over |
| SagaHandlers.FirstOrderIs | examples/ecommerce_cluster/services/order/order_service.cc:83-124 | Every field of the answer and of the bill of an undisturbed first CreateOrder, from request, price and the three instances |
| SagaHandlers.StoredOrderIs | examples/ecommerce_cluster/services/order/order_service.cc:74-124 | An undisturbed CreateOrder for a stored order: a settled one stays, a pending one changes its state and settling instance and nothing else |

## Left out

- OrderedIngressObject.OrderedIngress.RemoveCached: takes the key by value; the source passes a reference to the
  list element that the call erases before it reads the key again.
- OrderedIngressObject.OrderedIngress.Complete: `ValidateErrorAtBoundary` is not part of this model; whether it
  replaces an error, and by which, is a parameter of the call. Its answer for the gap error is taken to accept it.
- EndToEnd.DeliveryIsAtMostOnce: assumes that nobody else speaks as the granted peer and that the session under study
  is not replaced; other streams, grants and requests are arbitrary. A ticket counts as sent when it is bound, which
  happens before any input or output.
- EndToEnd.ExecutedIsPrefixOfBound: is about the order of admission; between admission and the mailbox another
  dispatch may overtake, so handlers of one stream may start in another order.
- BorrowRuns.StoppedComponentIsUnused: assumes that this very component is not made borrowable by an install in
  flight after its stop began; other components may be. Uninstalled components need no assumption, and services need
  none for the components that are still registered.
- InboundDispatcherObject.PerService.Dispatch: runs from admission to completion without interruption; what other
  calls do in between is in EndToEnd, and how they share the in-flight counter in InflightGate. The
  checks of the envelope, its metadata and its schema, which come first and have no state, are not modelled.
- RegistryObject.Registry.SetState: the revision counter, the last error and the events for observers are not part of
  this model.
- DispatchModel.RepeatsGetTheFirstAnswer: assumes that the boundary check accepts the errors it returns itself.
- RouteRuns.RoundRobinIsFair: holds until the cursor wraps; what happens there is stated by RouteRuns.WrapSkipsIff.
- HostLifecycleObject.HostLifecycle.Run: a run that parks returns a value that says so instead of never returning;
  the wait for a shutdown request and requests from other threads are not modelled.
- RegistryObject.Registry.CreateEntry: ids and generations are unbounded, so the wrap of their 64-bit counters is not
  modelled; neither are names, types, scopes and owners, by which callers find an entry, nor observers and their
  events.
- SagaMachine.RepliesAgree: the database is two maps with atomic insert-if-absent, read and whole-record update of
  one document; protobuf parsing, corrupt documents and the Redis price cache are not modelled, a price is any 64-bit
  number at each call.
- SagaHandlers.OrderService.SettleOrder: a settlement reply that is not the service's own is modelled only if it does
  not fit the request; one that fits cannot be told apart by the handler.
- MailboxMachine.HandlersOfAnActorNeverOverlap: assumes that a factory returns a new instance each time.
- SessionRegistryObject.SessionRegistry.Open: session instance numbers are unbounded.
- Byte sums of the reply cache are unbounded natural numbers; `size_t` overflow is not modelled.
- Hash maps have no iteration order here; where the source iterates over one, the order does not matter for what is
  proved.
- Actors being destroyed: the source neither retires nor drains their bindings first, so nothing is claimed for them.
- Stopping every user of a component before it: the source stops all scoped components before all App-scope ones.
- Waiting for observer callbacks in flight when an observation is revoked.
- Deadline arithmetic of outgoing calls, option validation and route fields: single checks without state.
- Clocks, the coroutine scheduler, timeouts and I/O appear as arbitrary outcomes and arbitrary interleavings; HTTP,
  TCP, Redis and Mongo adapters, logging and argument parsing are not modelled.
- Services that are not actors: the concurrent branch of the dispatcher runs the handler inline and has no state.
