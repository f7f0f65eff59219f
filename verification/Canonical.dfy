/**
  Canonical JSON values and the identities the bridge derives from them.

  SHA-256 identifiers are natural numbers: the code only compares and orders
  them, and the order of equally long hexadecimal strings is the order of the
  numbers they denote. The hash itself is a parameter wherever it is needed.
 */
module Canonical {
  import opened Wrappers

  type ProfileId = string
  type WindowId = nat
  type EventId = nat
  type Digest = nat
  type Utc = int

  datatype Resource = Deal | Order

  /** A field of a raw row: an integer, another canonical value, or a float without a canonical form. */
  datatype Value = Whole(n: int) | Other(json: string) | NotFinite

  /** The columns the bridge reads by name, and the others. */
  datatype Field =
    | TICKET | TIME | TIME_MSC | TIME_DONE | TIME_DONE_MSC | TIME_SETUP | TIME_SETUP_MSC
    | Column(name: string)

  type Payload = map<Field, Value>

  datatype NaturalId = NaturalId(profileId: ProfileId, login: int, server: string, ticket: int)

  datatype WindowPayload = WindowPayload(
    dealCount: nat, dealDigest: Digest, endRaw: int, orderCount: nat, orderDigest: Digest,
    orderedEventIds: seq<EventId>, startRaw: int, supersedes: Option<WindowId>,
    windowId: WindowId, revision: int)

  /** Everything the bridge hashes. */
  datatype Content =
    | RowContent(row: Payload)
    | DigestList(digests: seq<Digest>)
    | WindowContent(payload: WindowPayload)
    | WindowIdentity(
        profileId: ProfileId, generation: int, startRaw: int, endRaw: int, policy: int, revision: int)
    | RecordIdentity(resource: Resource, naturalId: NaturalId, payloadDigest: Digest)
    | MarkerIdentity(windowId: WindowId, windowDigest: Digest)
    | RecordMessage(ordinal: nat, raw: Payload, windowId: WindowId)
    | EnvelopeContent(eventId: EventId, payloadDigest: Digest, producer: string, observedAt: Utc)

  type Hash = Content -> nat

  /** No two contents share a digest. */
  ghost predicate CollisionFree(sha: Hash) {
    forall a, b :: sha(a) == sha(b) ==> a == b
  }
}
