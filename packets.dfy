/** Wire packet, size and timeout constants and the engine's state flags (res.h). */
module Packets {

  /** Unsigned and signed integer widths used by the source. */
  type u8 = x: int | 0 <= x < 0x100
  type u16 = x: int | 0 <= x < 0x1_0000
  type u64 = x: int | 0 <= x < 0x1_0000_0000_0000_0000
  type Short = x: int | -0x8000 <= x < 0x8000

  const U64_MODULUS: nat := 0x1_0000_0000_0000_0000

  /** `short` value that a `quint16` port becomes when stored in a `short`. */
  function ShortOfPort(p: u16): (s: Short)
    ensures PortOfShort(s) == p
    ensures 0 <= s <==> p < 0x8000
  {
    if p < 0x8000 then p else p - 0x1_0000
  }

  /** `quint16` port that a `short` becomes when handed to the socket. */
  function PortOfShort(s: Short): u16 {
    if 0 <= s then s else s + 0x1_0000
  }

  // ---------------------------------------------------------------- packet types

  /** The four control characters a packet's type byte may carry. */
  datatype Kind = Data | Ack | Eot | Syn

  const DATA_CODE: u8 := 0x02
  const ACK_CODE: u8 := 0x05
  const EOT_CODE: u8 := 0x04
  const SYN_CODE: u8 := 0x15

  function Code(k: Kind): u8 {
    match k
    case Data => DATA_CODE
    case Ack => ACK_CODE
    case Eot => EOT_CODE
    case Syn => SYN_CODE
  }

  /** The packet kind a type byte selects in the engine's dispatch; None for any other byte. */
  function KindOf(c: u8): (r: Option<Kind>)
    ensures r.Some? ==> Code(r.value) == c
    ensures r.None? ==> forall k: Kind :: Code(k) != c
  {
    if c == DATA_CODE then Some(Data)
    else if c == ACK_CODE then Some(Ack)
    else if c == EOT_CODE then Some(Eot)
    else if c == SYN_CODE then Some(Syn)
    else None
  }

  /** The four codes are pairwise distinct: a code determines its kind. */
  lemma CodesDistinct(k1: Kind, k2: Kind)
    ensures Code(k1) == Code(k2) ==> k1 == k2
    ensures KindOf(Code(k1)) == Some(k1)
  {
  }

  datatype Option<T> = None | Some(value: T)

  // ---------------------------------------------------------------- sizes

  /** Packet budget. */
  const PACKET: nat := 1500

  /**
   * sizeof(PacketHeader) depends on the compiler's struct layout: the five
   * fields take 1 + 8 + 8 + 8 + sizeof(size_t) bytes, and alignment padding
   * brings the total to at most 40.  The model leaves the exact value open.
   */
  type HeaderSize = h: nat | 29 <= h <= 40 witness 40

  const HEADER: HeaderSize

  /** Payload capacity of one packet. */
  const DATA: nat := PACKET - HEADER

  /** Default window: ten payloads. */
  const WINDOW: nat := DATA * 10

  /** Header and payload together fill the packet budget; the window is ten payloads. */
  lemma SizesAgree()
    ensures HEADER < PACKET && DATA > 0
    ensures HEADER + DATA == PACKET
    ensures WINDOW == 10 * DATA && WINDOW < U64_MODULUS
  {
  }

  // ---------------------------------------------------------------- packet

  /** PacketHeader, its fields in declaration order. */
  datatype Header = Header(
    packetType: u8,
    sequenceNumber: u64,
    ackNumber: u64,
    windowSize: u64,
    dataSize: u64)

  /** The payload array: exactly DATA bytes. */
  type Payload = s: seq<u8> | |s| == DATA witness Zeros(DATA)

  function Zeros(n: nat): (z: seq<u8>)
    ensures |z| == n && forall i :: 0 <= i < n ==> z[i] == 0
  {
    seq(n, _ => 0)
  }

  /** Packet: a header followed by a DATA-byte payload. */
  datatype Packet = Packet(header: Header, data: Payload)

  /** Copies `bytes` to the front of a zero-filled payload (memset then memcpy). */
  function PadPayload(bytes: seq<u8>): (p: Payload)
    requires |bytes| <= DATA
    ensures p[..|bytes|] == bytes
    ensures forall i :: |bytes| <= i < DATA ==> p[i] == 0
  {
    bytes + Zeros(DATA - |bytes|)
  }

  // ---------------------------------------------------------------- timeouts

  /** Idle timeout in milliseconds. */
  const IDLE_TIMEOUT: int := 10 * 1000
  /** Receive timeout in milliseconds (0.5 * 1000 converted to int). */
  const RCV_TIMEOUT: int := 1000 / 2

  /** A connection is abandoned only after many receive timeouts could have fired. */
  lemma IdleOutlastsReceive()
    ensures 0 < RCV_TIMEOUT < IDLE_TIMEOUT
    ensures IDLE_TIMEOUT == 20 * RCV_TIMEOUT
  {
  }

  // ---------------------------------------------------------------- program state

  /** The State struct: sequence numbers, local window and the connection flags. */
  datatype State = State(
    running: bool,
    seqNum: u64,
    ackNum: u64,
    rcvWindowSize: u64,
    idle: bool,
    waitSyn: bool,
    wait: bool,
    dataSent: bool,
    timeoutRcv: bool,
    timeoutIdle: bool)

  /** The all-zero State that `memset(&mState, 0, sizeof(mState))` produces. */
  const ZERO_STATE: State := State(false, 0, 0, 0, false, false, false, false, false, false)
}
