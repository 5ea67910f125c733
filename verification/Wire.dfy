/** What travels between two message bus clients: the session part of the message header, and its payloads. */
module Wire {
  import opened Memory

  type Bytes = seq<Byte>
  type SessionId = nat
  type Sequence = nat
  type Version = nat

  const MAX_PAYLOAD_SIZE_IN_BYTES := 1384   // 1408 less the 24 bytes of the header
  const INVALID_SESSION_ID: SessionId := 0

  const SESSION_PROTOCOL_VERSION := 2          // also the first version that reports itself in the SynAck
  const SESSION_PROTOCOL_SYNACK_VERSION := 2
  const SESSION_PROTOCOL_RANGE_VERSION := 1

  datatype Option<+T> = None | Some(value: T)

  datatype Result =
    | Success | Error | NotReady | VersionMismatch | Unavailable | Rejected
    | EndOfStream | Aborted | InsufficientMemory | Other(code: nat)

  // A reset carries its reason in the sequence field.
  function CodeOf(r: Result): nat {
    match r
    case Success => 0
    case Error => 1
    case NotReady => 2
    case VersionMismatch => 3
    case Unavailable => 4
    case Rejected => 5
    case EndOfStream => 6
    case Aborted => 7
    case InsufficientMemory => 8
    case Other(code) => code
  }

  // The 64-bit field is narrowed to the 32 bits of a result code.
  function ResultOf(field: Sequence): Result {
    var code := field % 0x1_0000_0000;
    if code == 0 then Success else if code == 1 then Error else if code == 2 then NotReady
    else if code == 3 then VersionMismatch else if code == 4 then Unavailable else if code == 5 then Rejected
    else if code == 6 then EndOfStream else if code == 7 then Aborted
    else if code == 8 then InsufficientMemory else Other(code)
  }

  datatype Kind = Unknown | Syn | SynAck | Fin | Data | Ack | Rst

  datatype Payload =
    | Empty
    | Content(bytes: Bytes)
    | SynInfo(protocol: nat, minVersion: Version, maxVersion: Version, clientSessionVersion: Version)
    | SynAckInfo(synSequence: Sequence, initialSessionId: SessionId, version: Version, sessionVersion: Version)

  function PayloadSize(p: Payload): nat {
    match p
    case Empty => 0
    case Content(bytes) => |bytes|
    case SynInfo(_, _, _, _) => 8
    case SynAckInfo(_, _, _, _) => 16
  }

  function ContentOf(p: Payload): Bytes {
    if p.Content? then p.bytes else []
  }

  // A message as it is put into a send window; the window size is filled in each time it is transmitted.
  datatype Entry = Entry(kind: Kind, sid: SessionId, payload: Payload)

  datatype Frame = Frame(kind: Kind, sid: SessionId, sequence: Sequence, window: nat, payload: Payload)

  function Carry(e: Entry, sequence: Sequence, window: nat): Frame {
    Frame(e.kind, e.sid, sequence, window, e.payload)
  }

  // An untouched slot of a send window: not a session message, so no session manager accepts it.
  function Blank(window: nat): Frame {
    Frame(Unknown, INVALID_SESSION_ID, 0, window, Empty)
  }

  // What the transport made of one transmission.
  datatype Outcome = Delivered | Busy | Broken

  // The surroundings of one call: the outcome of its k-th transmission, and the clock at that moment.
  datatype Env = Env(link: nat -> Outcome, clock: nat -> nat)

  function Min(a: int, b: int): int { if a < b then a else b }
  function Max(a: int, b: int): int { if a > b then a else b }
}
