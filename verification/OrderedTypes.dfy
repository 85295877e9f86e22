// Grants, stream identities and bound request content (OrderedTypes.hpp).

module OrderedTypes {
  datatype Grant = Grant(
    service: string,
    actorKey: string,
    producerId: string,
    producerEpoch: string,
    receiverEpoch: string,
    peerPrincipal: string)

  /** A producer's stream at one actor.  Re-granting it under another receiver epoch is a session switch. */
  datatype StreamKey = StreamKey(actorKey: string, producerId: string, producerEpoch: string)

  /** What a ticket is bound to when it is first sent. */
  datatype BoundContent = BoundContent(
    service: string,
    methodName: string,
    actorKey: string,
    custom: string,
    requestBytes: string)

  function KeyOf(g: Grant): StreamKey {
    StreamKey(g.actorKey, g.producerId, g.producerEpoch)
  }

  predicate SameStreamId(a: Grant, b: Grant) {
    a.service == b.service && KeyOf(a) == KeyOf(b) && a.receiverEpoch == b.receiverEpoch
  }

  predicate HasEmptyField(g: Grant) {
    g.service == "" || g.actorKey == "" || g.producerId == "" || g.producerEpoch == "" || g.receiverEpoch == ""
  }
}
