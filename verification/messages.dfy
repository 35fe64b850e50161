/** The values every part of hearsay exchanges: claims, log messages and their payloads. */
module Messages {

  datatype Option<+T> = None | Some(value: T)

  /** Nanoseconds since Go's zero time, so 0 is `time.Time{}`. */
  type Instant = nat

  /** One second, as a `time.Duration`. */
  const SECOND: nat := 1_000_000_000

  /** `Operation` is a Go string: anything outside the five constants is still carried around. */
  datatype Operation = Read | Write | Delete | Rename | Refactor | OtherOperation(name: string)

  datatype Claim = Claim(
    claimId: string,
    agentId: string,
    resourceUri: string,
    operation: Operation,
    intent: string,
    ttlSeconds: int,
    createdAt: Instant)
  {
    /** The claim's lifetime as a duration. */
    function Ttl(): int { ttlSeconds * SECOND }
  }

  datatype MessageType =
    | ClaimMsg | HeartbeatMsg | ReleaseMsg | TransferMsg | EscalateMsg | IntentMsg
    | MailboxSendMsg | MailboxReadMsg | MailboxArchiveMsg
    | OtherMsg(name: string)

  /**
   * A JSON payload, seen through the only two decodings the code ever applies to it:
   * as a whole `Claim`, and as an object with a `claim_id`. `None` is a decoding error.
   */
  datatype Payload = Payload(asClaim: Option<Claim>, asRef: Option<string>)

  datatype Message = Message(
    offset: nat,
    kind: MessageType,
    namespace: string,
    agentId: string,
    payload: Payload,
    timestamp: Instant)

  /** `CreatedAt.IsZero()` and friends. */
  predicate IsZero(t: Instant) { t == 0 }

  function Max(a: int, b: int): int { if a < b then b else a }

  function Init<T>(s: seq<T>): seq<T>
    requires s != []
  {
    s[..|s| - 1]
  }

  function Last<T>(s: seq<T>): T
    requires s != []
  {
    s[|s| - 1]
  }

  /** Offsets grow along the log: what both providers return from `Query`. */
  ghost predicate Sorted(log: seq<Message>) {
    forall i, j :: 0 <= i < j < |log| ==> log[i].offset < log[j].offset
  }
}
