/** The values that cross component boundaries (src/types.rs, src/write_buffer.rs). */
module Types {
  /** Debug-session identifiers are version-4 UUIDs; only their freshness matters here. */
  type SessionId = nat
  type PeerId = string

  /** What a record carries besides its routing: an opaque JSON value. */
  type Payload = string

  datatype RecordType = Span | Metric | Log

  datatype WriteRecord = WriteRecord(session: SessionId, peer: PeerId, kind: RecordType, payload: Payload)

  datatype RoutingDecision = Discard | Retain(sessionIds: seq<SessionId>)

  /** The sessions a decision asks to capture for, in the order the receiver visits them. */
  function Chosen(d: RoutingDecision): seq<SessionId> {
    match d
    case Discard => []
    case Retain(ids) => ids
  }

  function ForSession(s: SessionId): WriteRecord -> bool {
    (r: WriteRecord) => r.session == s
  }

  function OfKind(k: RecordType): WriteRecord -> bool {
    (r: WriteRecord) => r.kind == k
  }
}
