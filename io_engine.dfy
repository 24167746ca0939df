/**
 * The connection state machine (IoEngine.cpp): SYN handshake, data transfer
 * over the sliding window, EOT teardown, and the timeout pass of the engine's
 * thread.  Each handler is one atomic step over the engine object; what the
 * engine sends, the payloads it hands to its consumer and its timer restarts
 * are appended to a ghost trace.
 */
module IoEngines {
  import opened Packets
  import opened SlidingWindows

  /** A host address as the engine compares it (toIPv4Address); 0 for a cleared address. */
  type Address = x: int | 0 <= x < 0x1_0000_0000

  /** One received datagram: its byte count, the packet copied out of it, and its sender. */
  datatype Datagram = Datagram(length: nat, packet: Packet, sender: Address, senderPort: u16)

  /**
   * A packet handed to the socket.  The SYN, ACK and EOT packets are built by
   * helpers (createSynPacket, ackPacket, sendEot) that are not part of this
   * model, so they are recorded by kind and ACK number only.
   */
  datatype Outgoing = SynPacket | AckPacket(ackNumber: u64) | EotPacket | DataPacket(packet: Packet)

  /** What the engine does that is visible outside it. */
  datatype Event =
    | Sent(out: Outgoing, address: Address, port: u16)
    | DataRead(data: Payload, size: u64)
    | RcvTimerRestarted
    | IdleTimerRestarted

  /** Timer readings the engine's thread finds at the start of one pass. */
  datatype TimerReading = TimerReading(idleExpired: bool, rcvExpired: bool)

  // ------------------------------------------------------------ outgoing DATA packets

  /** A frame that fits a DATA packet. */
  predicate Sendable(f: Frame) {
    WellFormed(f) && f.seqNum < U64_MODULUS
  }

  /**
   * A DATA packet that carries frame `f` and advertises `rcvWindowSize`: the
   * frame's offset as sequence number, ACK 0, the frame's size and bytes, and
   * zeros after them.
   */
  predicate Carries(p: Packet, f: Frame, rcvWindowSize: u64) {
    && KindOf(p.header.packetType) == Some(Data)
    && p.header.sequenceNumber == f.seqNum && p.header.ackNumber == 0
    && p.header.windowSize == rcvWindowSize && p.header.dataSize == f.size
    && f.size <= DATA && p.data[..f.size] == f.data
    && forall i :: f.size <= i < DATA ==> p.data[i] == 0
  }

  /** The DATA packet sendFrames builds for one frame. */
  function FramePacket(f: Frame, rcvWindowSize: u64): (p: Packet)
    requires Sendable(f)
    ensures Carries(p, f, rcvWindowSize)
  {
    Packet(Header(DATA_CODE, f.seqNum, 0, rcvWindowSize, f.size), PadPayload(f.data))
  }

  /** The frame a receiver reads back out of a DATA packet: its offset, DataSize and first DataSize bytes. */
  function FrameOfPacket(p: Packet): (f: Frame)
    requires p.header.dataSize <= DATA
    ensures WellFormed(f) && f.seqNum == p.header.sequenceNumber
    ensures f.size == p.header.dataSize && f.data == p.data[..p.header.dataSize]
  {
    Frame(p.header.sequenceNumber, p.header.dataSize, p.data[..p.header.dataSize])
  }

  /** Reading a DATA packet back gives the frame it was built from, whatever window it advertised. */
  lemma FramePacketRoundTrip(f: Frame, rcvWindowSize: u64)
    requires Sendable(f)
    ensures FrameOfPacket(FramePacket(f, rcvWindowSize)) == f
  {
    var p := FramePacket(f, rcvWindowSize);
    assert p.data[..f.size] == f.data;
  }

  /** The sends of one DATA packet per frame, in order, to address:port. */
  function DataSends(frames: seq<Frame>, rcvWindowSize: u64, address: Address, port: u16): (events: seq<Event>)
    requires forall i :: 0 <= i < |frames| ==> Sendable(frames[i])
    ensures |events| == |frames|
    ensures forall i :: 0 <= i < |frames| ==>
              && events[i].Sent? && events[i].address == address && events[i].port == port
              && events[i].out.DataPacket? && Carries(events[i].out.packet, frames[i], rcvWindowSize)
  {
    seq(|frames|, i requires 0 <= i < |frames| =>
      Sent(DataPacket(FramePacket(frames[i], rcvWindowSize)), address, port))
  }

  /** Frames cut from a QByteArray all fit DATA packets. */
  lemma ChunksSendable(buffer: Bytes, lo: nat, hi: nat)
    requires lo <= hi <= |buffer|
    ensures forall i :: 0 <= i < |Chunks(buffer, lo, hi)| ==> Sendable(Chunks(buffer, lo, hi)[i])
  {
  }

  // ------------------------------------------------------------ peer check

  /**
   * The ACK sender check: the IPv4 values must match and the `quint16` sender
   * port must equal the `short` bound port as integers, which no port of
   * 0x8000 or above can.
   */
  function SamePeer(sender: Address, senderPort: u16, client: Address, clientPort: Short): (r: bool)
    ensures r <==> sender == client && senderPort < 0x8000 && ShortOfPort(senderPort) == clientPort
  {
    sender == client && senderPort == clientPort
  }

  /** A sender that sent to a port of 0x8000 or above never accepts the replies from that port. */
  lemma HighPortRepliesRejected(address: Address, port: Short)
    ensures SamePeer(address, PortOfShort(port), address, port) <==> 0 <= port
  {
  }

  // ------------------------------------------------------------ in-order delivery

  /** A payload handed to the consumer: the expected offset it was accepted at, and its size. */
  datatype Delivery = Delivery(offset: u64, size: u64)

  /** Bytes delivered in all, without wrap-around. */
  function Total(ds: seq<Delivery>): nat {
    if ds == [] then 0 else Total(ds[..|ds| - 1]) + ds[|ds| - 1].size
  }

  /** The expected offset after these deliveries: their sizes summed in 64-bit (`quint64`) arithmetic. */
  function Offset(ds: seq<Delivery>): u64 {
    if ds == [] then 0 else (Offset(ds[..|ds| - 1]) + ds[|ds| - 1].size) % U64_MODULUS
  }

  /** Each delivery starts where the ones before it end. */
  ghost predicate InOrder(ds: seq<Delivery>) {
    ds == [] || (InOrder(ds[..|ds| - 1]) && ds[|ds| - 1].offset == Offset(ds[..|ds| - 1]))
  }

  /** The deliveries are in order and the expected offset is where the last one ends. */
  ghost predicate Accounted(ds: seq<Delivery>, seqNum: u64) {
    InOrder(ds) && seqNum == Offset(ds)
  }

  /**
   * Accepting a payload at the expected offset keeps the deliveries in order
   * and advances the expected offset by its size, modulo 2^64.
   */
  lemma InOrderExtend(ds: seq<Delivery>, seqNum: u64, size: u64)
    requires Accounted(ds, seqNum)
    ensures Accounted(ds + [Delivery(seqNum, size)], (seqNum + size) % U64_MODULUS)
  {
    assert (ds + [Delivery(seqNum, size)])[..|ds|] == ds;
  }

  /** In an in-order list, every delivery starts at the offset the ones before it reach. */
  lemma {:induction false} InOrderAt(ds: seq<Delivery>, i: nat)
    requires InOrder(ds) && i < |ds|
    ensures ds[i].offset == Offset(ds[..i])
  {
    var prefix := ds[..|ds| - 1];
    if i < |ds| - 1 {
      InOrderAt(prefix, i);
      assert prefix[..i] == ds[..i];
    } else {
      assert prefix == ds[..i];
    }
  }

  /** The 64-bit offset is the unbounded total reduced modulo 2^64. */
  lemma {:induction false} OffsetIsTotal(ds: seq<Delivery>)
    ensures Offset(ds) == Total(ds) % U64_MODULUS
  {
    if ds != [] {
      var prefix := ds[..|ds| - 1];
      OffsetIsTotal(prefix);
      ModuloAdd(Total(prefix), ds[|ds| - 1].size);
    }
  }

  /** Reducing a 64-bit sum's first operand first does not change the sum. */
  lemma ModuloAdd(a: nat, b: nat)
    ensures (a + b) % U64_MODULUS == (a % U64_MODULUS + b) % U64_MODULUS
  {
    var q := a / U64_MODULUS;
    assert a == q * U64_MODULUS + a % U64_MODULUS;
    assert a + b == q * U64_MODULUS + (a % U64_MODULUS + b);
  }

  lemma {:induction false} TotalMonotone(ds: seq<Delivery>, a: nat, b: nat)
    requires a <= b <= |ds|
    ensures Total(ds[..a]) <= Total(ds[..b])
    decreases b - a
  {
    if a < b {
      TotalMonotone(ds, a, b - 1);
      assert ds[..b][..b - 1] == ds[..b - 1];
    }
  }

  /**
   * No byte is delivered twice: while fewer than 2^64 bytes have been
   * delivered, every delivery lies wholly before each later one.
   */
  lemma {:induction false} DeliveriesDisjoint(ds: seq<Delivery>, i: nat, j: nat)
    requires InOrder(ds) && Total(ds) < U64_MODULUS
    requires i < j < |ds|
    ensures ds[i].offset + ds[i].size <= ds[j].offset
  {
    StartsAtTotal(ds, i);
    StartsAtTotal(ds, j);
    assert ds[..i + 1][..i] == ds[..i];
    TotalMonotone(ds, i + 1, j);
  }

  /** Before 2^64 bytes, a delivery starts at the unbounded total of the ones before it. */
  lemma StartsAtTotal(ds: seq<Delivery>, i: nat)
    requires InOrder(ds) && Total(ds) < U64_MODULUS
    requires i < |ds|
    ensures ds[i].offset == Total(ds[..i])
  {
    InOrderAt(ds, i);
    OffsetIsTotal(ds[..i]);
    PrefixTotal(ds, i);
    assert Total(ds[..i]) < U64_MODULUS;
  }

  /** A prefix's total size never exceeds the whole sequence's. */
  lemma PrefixTotal(ds: seq<Delivery>, i: nat)
    requires i <= |ds|
    ensures Total(ds[..i]) <= Total(ds)
  {
    TotalMonotone(ds, i, |ds|);
    assert ds[..|ds|] == ds;
  }

  // ------------------------------------------------------------ the engine

  /** The State right after a reset: all zero except the receive window and `idle`. */
  function IdleState(): State {
    ZERO_STATE.(rcvWindowSize := WINDOW, idle := true)
  }

  class IoEngine {
    var state: State
    var clientAddress: Address
    var clientPort: Short
    const window: SlidingWindow

    /** Everything the engine sent, delivered and restarted, oldest first. */
    ghost var trace: seq<Event>
    /** The payloads delivered since the last reset. */
    ghost var deliveries: seq<Delivery>

    /** Invariant of every step, except the flag agreement. */
    ghost predicate Consistent() reads this, window {
      && window.Ordered() && window.WithinBuffer()
      && state.rcvWindowSize == WINDOW
      && Accounted(deliveries, state.seqNum)
    }

    /** Idle exactly when no other state flag is set. */
    ghost predicate FlagsAgree() reads this {
      state.idle <==> !(state.waitSyn || state.wait || state.dataSent)
    }

    ghost predicate Valid() reads this, window {
      Consistent() && FlagsAgree()
    }

    /** The state Reset leaves: idle, no peer, an empty window, nothing delivered. */
    ghost predicate IsReset() reads this, window {
      && state == IdleState()
      && clientAddress == 0 && clientPort == 0
      && window.head == 0 && window.pointer == 0 && window.buffer == []
      && deliveries == []
    }

    constructor ()
      ensures Valid() && IsReset()
      ensures fresh(window) && window.size == WINDOW
      ensures trace == []
    {
      state := IdleState();
      clientAddress, clientPort := 0, 0;
      window := new SlidingWindow(WINDOW);
      trace, deliveries := [], [];
    }

    /** Back to idle: zeroed state, no peer, timers restarted, window emptied. */
    method Reset()
      modifies this, window
      ensures Valid() && IsReset()
      ensures window.size == old(window.size)
      ensures trace == old(trace) + [RcvTimerRestarted, IdleTimerRestarted]
      ensures Snap() == Cleared(old(Snap()))
    {
      state := IdleState();
      clientAddress, clientPort := 0, 0;
      trace := trace + [RcvTimerRestarted, IdleTimerRestarted];
      window.Reset();
      deliveries := [];
    }

    /**
     * Starts sending `file` (None when it cannot be read) to address:port:
     * refused while data is outstanding; otherwise buffers the file, binds the
     * peer, sends a SYN and waits for its ACK.
     */
    method StartFileSend(file: Option<Bytes>, address: Address, port: Short) returns (ok: bool)
      requires Valid()
      modifies this, window
      ensures Valid()
      ensures ok <==> !old(state.dataSent) && file.Some?
      ensures old(state.dataSent) ==> unchanged(this) && unchanged(window)
      ensures !old(state.dataSent) && file.None? ==>
                && state == old(state) && clientAddress == old(clientAddress) && clientPort == old(clientPort)
                && trace == old(trace) && deliveries == old(deliveries)
                && window.head == 0 && window.pointer == 0 && window.buffer == []
      ensures ok ==>
                && state == old(state).(idle := false, waitSyn := true)
                && clientAddress == address && clientPort == port
                && window.head == 0 && window.pointer == 0 && window.buffer == file.value
                && trace == old(trace) + [Sent(SynPacket, address, PortOfShort(port)),
                                          RcvTimerRestarted, IdleTimerRestarted]
                && deliveries == old(deliveries)
      ensures window.size == old(window.size)
    {
      if !state.dataSent {
        ok := window.BufferFile(file);
        if !ok {
          return;
        }
        clientAddress, clientPort := address, port;
        trace := trace + [Sent(SynPacket, clientAddress, PortOfShort(clientPort))];
        trace := trace + [RcvTimerRestarted, IdleTimerRestarted];
        state := state.(idle := false, waitSyn := true);
      } else {
        ok := false;
      }
    }

    /** Sends one DATA packet per frame to address:port. */
    method SendFrames(frames: seq<Frame>, address: Address, port: u16)
      requires forall i :: 0 <= i < |frames| ==> Sendable(frames[i])
      modifies this`trace
      ensures trace == old(trace) + DataSends(frames, state.rcvWindowSize, address, port)
    {
      for i := 0 to |frames|
        invariant trace == old(trace) + DataSends(frames[..i], state.rcvWindowSize, address, port)
      {
        var packet := FramePacket(frames[i], state.rcvWindowSize);
        trace := trace + [Sent(DataPacket(packet), address, port)];
        assert DataSends(frames[..i + 1], state.rcvWindowSize, address, port)
            == DataSends(frames[..i], state.rcvWindowSize, address, port) + [Sent(DataPacket(packet), address, port)];
      }
      assert frames[..|frames|] == frames;
    }

    /**
     * Sends EOT and resets once everything is acknowledged; otherwise sends
     * the next frames the window allows and waits for their ACKs.
     */
    method SendWindow(address: Address, port: u16)
      requires Consistent() && !state.idle
      modifies this, window
      ensures Valid()
      ensures WindowSent(address, port, old(Snap()), Snap())
    {
      if window.IsEOT() {
        trace := trace + [Sent(EotPacket, address, port)];
        Reset();
      } else {
        var frames := window.GetNextFrames();
        ChunksSendable(window.buffer, old(window.pointer), window.pointer);
        SendFrames(frames, address, port);
        trace := trace + [RcvTimerRestarted];
        state := state.(dataSent := true);
      }
    }

    // ------------------------------------------------------------ handler effects

    /** Everything a step can change: the engine's fields, the window's, and the ghost history. */
    ghost function Snap(): Snapshot reads this, window {
      Snapshot(state, clientAddress, clientPort, window.head, window.size, window.pointer, window.buffer,
               deliveries, trace)
    }

    /** A SYN is acted on only when idle: bind its sender, wait for data, ACK it. */
    method HandleSyn(d: Datagram)
      requires Valid()
      modifies this
      ensures Valid()
      ensures SynHandled(d, old(Snap()), Snap())
    {
      if state.idle {
        clientAddress := d.sender;
        clientPort := ShortOfPort(d.senderPort);
        state := state.(idle := false, wait := true);
        trace := trace + [Sent(AckPacket(d.packet.header.sequenceNumber), d.sender, d.senderPort)];
      }
    }

    /**
     * An ACK from the bound peer: adopt its window size; ACK 0 completes the
     * handshake when waiting for it, ACK n > 0 is taken while data is
     * outstanding if the window accepts it; either way the window is sent on.
     */
    method HandleAck(d: Datagram)
      requires Valid()
      modifies this, window
      ensures Valid()
      ensures AckHandled(d, old(Snap()), Snap())
    {
      var h := d.packet.header;
      if d.sender == clientAddress && d.senderPort == clientPort {
        window.SetWindowSize(h.windowSize);
        ActOnAck(h.ackNumber, d.sender, d.senderPort);
      }
    }

    /**
     * The part of ACK handling after the peer check and the window-size
     * update: ACK 0 completes a handshake, ACK n > 0 acknowledges data, and
     * an accepted ACK sends the window on.
     */
    method ActOnAck(ackNumber: u64, address: Address, port: u16)
      requires Valid()
      modifies this, window
      ensures Valid()
      ensures AckActed(ackNumber, address, port, old(Snap()), Snap())
    {
      if ackNumber == 0 {
        if state.waitSyn {
          state := state.(waitSyn := false);
          SendWindow(address, port);
        }
      } else {
        if state.dataSent {
          var advanced := window.AckFrame(ackNumber);
          if advanced {
            SendWindow(address, port);
          }
        }
      }
    }

    /**
     * DATA while waiting for it: a packet beyond the expected offset is
     * rejected; any other is ACKed with its own sequence number, and only the
     * one at the expected offset is delivered and advances that offset.
     */
    method HandleData(d: Datagram)
      requires Valid()
      modifies this
      ensures Valid()
      ensures DataHandled(d, old(Snap()), Snap())
    {
      var h := d.packet.header;
      if state.wait {
        if h.sequenceNumber <= state.seqNum {
          trace := trace + [Sent(AckPacket(h.sequenceNumber), d.sender, d.senderPort)];
          assert Snap() == old(Snap()).(trace := trace);
          if h.sequenceNumber == state.seqNum {
            Deliver(d.packet.data, h.dataSize);
          }
        }
      }
    }

    /** Hands a payload at the expected offset to the consumer (dataRead) and advances that offset. */
    method Deliver(data: Payload, size: u64)
      requires Valid()
      modifies this`state, this`deliveries, this`trace
      ensures Valid()
      ensures Snap() == old(Snap()).(state := old(state).(seqNum := (old(state.seqNum) + size) % U64_MODULUS),
                                     deliveries := old(deliveries) + [Delivery(old(state.seqNum), size)],
                                     trace := old(trace) + [DataRead(data, size)])
    {
      trace := trace + [DataRead(data, size)];
      InOrderExtend(deliveries, state.seqNum, size);
      deliveries := deliveries + [Delivery(state.seqNum, size)];
      state := state.(seqNum := (state.seqNum + size) % U64_MODULUS);
    }

    /** EOT ends a transfer being received; in any other state it is ignored. */
    method HandleEot(d: Datagram)
      requires Valid()
      modifies this, window
      ensures Valid()
      ensures EotHandled(old(Snap()), Snap())
    {
      if state.wait {
        Reset();
      }
    }

    /**
     * One received datagram: one shorter than a header is dropped before
     * anything changes; otherwise the idle timer restarts and the packet is
     * dispatched on its type byte (other bytes are ignored).
     */
    method HandleDatagram(d: Datagram)
      requires Valid()
      modifies this, window
      ensures Valid()
      ensures DatagramHandled(d, old(Snap()), Snap())
      ensures old(trace) <= trace
    {
      if d.length < HEADER {
        return;
      }
      trace := trace + [IdleTimerRestarted];
      assert Snap() == old(Snap()).(trace := old(trace) + [IdleTimerRestarted]);
      Dispatch(d);
      HandlingAppends(d, old(Snap()), Snap());
    }

    /** The switch on the packet type byte: each known type goes to its handler, any other byte is ignored. */
    method Dispatch(d: Datagram)
      requires Valid()
      modifies this, window
      ensures Valid()
      ensures Dispatched(d, old(Snap()), Snap())
    {
      match KindOf(d.packet.header.packetType)
      case None =>
      case Some(Syn) => HandleSyn(d);
      case Some(Ack) => HandleAck(d);
      case Some(Data) => HandleData(d);
      case Some(Eot) => HandleEot(d);
    }

    /**
     * Handles the pending datagrams in arrival order.  `history` holds the
     * engine before the batch and after each datagram: each step is that
     * datagram's effect.
     */
    method NewDataHandler(pending: seq<Datagram>) returns (ghost history: seq<Snapshot>)
      requires Valid()
      modifies this, window
      ensures Valid()
      ensures |history| == |pending| + 1 && history[0] == old(Snap()) && history[|pending|] == Snap()
      ensures forall i :: 0 <= i < |pending| ==> DatagramHandled(pending[i], history[i], history[i + 1])
      ensures old(trace) <= trace
      ensures (forall i :: 0 <= i < |pending| ==> pending[i].length < HEADER) ==> Snap() == old(Snap())
    {
      history := [Snap()];
      for i := 0 to |pending|
        invariant Valid()
        invariant |history| == i + 1 && history[0] == old(Snap()) && history[i] == Snap()
        invariant forall k :: 0 <= k < i ==> DatagramHandled(pending[k], history[k], history[k + 1])
        invariant old(trace) <= trace
        invariant (forall k :: 0 <= k < i ==> pending[k].length < HEADER) ==> Snap() == old(Snap())
      {
        HandleDatagram(pending[i]);
        history := history + [Snap()];
      }
    }

    /**
     * One pass of the engine's thread with the timer readings checkTimers
     * leaves: an idle timeout resets, which also clears the receive timeout so
     * nothing is resent in that pass; a receive timeout abandons a handshake,
     * resends the pending frames, or repeats the ACK of the expected offset.
     */
    method RunOnce(timers: TimerReading)
      requires Valid() && !state.idle
      modifies this, window
      ensures Valid()
      ensures PassDone(timers, old(Snap()), Snap())
      ensures window.size == old(window.size)
    {
      state := state.(timeoutIdle := timers.idleExpired, timeoutRcv := timers.rcvExpired);
      if state.timeoutIdle {
        Reset();
      }
      if state.timeoutRcv {
        if state.waitSyn {
          Reset();
        } else if state.dataSent {
          var pending := window.GetPendingFrames();
          ChunksSendable(window.buffer, window.head, window.pointer);
          SendFrames(pending, clientAddress, PortOfShort(clientPort));
          trace := trace + [RcvTimerRestarted, IdleTimerRestarted];
        } else if state.wait {
          trace := trace + [Sent(AckPacket(state.seqNum), clientAddress, PortOfShort(clientPort))];
          trace := trace + [RcvTimerRestarted, IdleTimerRestarted];
        } else {
          assert false;
        }
      }
    }

    /**
     * The thread's loop: passes run, one per timer reading, while the engine
     * is not idle.  `history` holds the engine before the loop and after each
     * pass: each pass started from a busy engine and had the effect of one
     * `RunOnce` with its reading.
     */
    method Run(readings: seq<TimerReading>) returns (passes: nat, ghost history: seq<Snapshot>)
      requires Valid()
      modifies this, window
      ensures Valid()
      ensures passes <= |readings|
      ensures passes < |readings| ==> state.idle
      ensures |history| == passes + 1 && history[0] == old(Snap()) && history[passes] == Snap()
      ensures forall i :: 0 <= i < passes ==>
                !history[i].state.idle && PassDone(readings[i], history[i], history[i + 1])
      ensures window.size == old(window.size)
      ensures old(state.idle) ==> passes == 0 && unchanged(this) && unchanged(window)
    {
      passes := 0;
      history := [Snap()];
      while passes < |readings| && !state.idle
        invariant Valid()
        invariant passes <= |readings|
        invariant |history| == passes + 1 && history[0] == old(Snap()) && history[passes] == Snap()
        invariant forall i :: 0 <= i < passes ==>
                    !history[i].state.idle && PassDone(readings[i], history[i], history[i + 1])
        invariant window.size == old(window.size)
        invariant old(state.idle) ==> passes == 0 && unchanged(this) && unchanged(window)
        decreases |readings| - passes
      {
        RunOnce(readings[passes]);
        history := history + [Snap()];
        passes := passes + 1;
      }
    }
  }

  /** The engine and its window at one moment, as the handlers' contracts compare them. */
  datatype Snapshot = Snapshot(
    state: State, clientAddress: Address, clientPort: Short,
    head: nat, size: nat, pointer: nat, buffer: Bytes,
    deliveries: seq<Delivery>, trace: seq<Event>)

  // ------------------------------------------------------------ step effects

  /**
   * What Reset leaves of the engine in `s`: idle, no peer, an empty window of
   * the same size, nothing delivered, and both timers restarted.
   */
  function Cleared(s: Snapshot): Snapshot {
    Snapshot(IdleState(), 0, 0, 0, s.size, 0, [], [], s.trace + [RcvTimerRestarted, IdleTimerRestarted])
  }

  /** The effect of a SYN, from `s0` to `s1`: when idle, bind its sender, wait for data and ACK it; otherwise nothing. */
  ghost predicate SynHandled(d: Datagram, s0: Snapshot, s1: Snapshot) {
    if s0.state.idle then
      s1 == s0.(state := s0.state.(idle := false, wait := true),
                clientAddress := d.sender, clientPort := ShortOfPort(d.senderPort),
                trace := s0.trace + [Sent(AckPacket(d.packet.header.sequenceNumber), d.sender, d.senderPort)])
    else
      s1 == s0
  }

  /**
   * What sendWindow does, from `s0` to `s1`: once everything buffered is
   * acknowledged, send EOT and reset; otherwise frame and send everything
   * from the pointer to the end of the window or of the buffer, whichever
   * comes first, restart the receive timer and mark data as sent.
   */
  ghost predicate WindowSent(address: Address, port: u16, s0: Snapshot, s1: Snapshot) {
    var pointer := Max(s0.pointer, Min(s0.head + s0.size, |s0.buffer|));
    if s0.head == |s0.buffer| then
      s1 == Cleared(s0.(trace := s0.trace + [Sent(EotPacket, address, port)]))
    else
      && s0.pointer <= |s0.buffer|
      && s1 == s0.(state := s0.state.(dataSent := true), pointer := pointer,
                   trace := s0.trace + DataSends(Chunks(s0.buffer, s0.pointer, pointer), WINDOW, address, port)
                            + [RcvTimerRestarted])
  }

  /**
   * What an ACK from the bound peer does once its window size is adopted,
   * from `s0` to `s1`: one that is not accepted changes nothing; an accepted
   * one completes the handshake (ACK 0) or moves head to its number (ACK
   * n > 0), and then the window is sent on.
   */
  ghost predicate AckActed(ackNumber: u64, address: Address, port: u16, s0: Snapshot, s1: Snapshot) {
    if !AckAccepted(ackNumber, s0.state, s0.head, s0.pointer) then
      s1 == s0
    else
      WindowSent(address, port,
                 s0.(state := s0.state.(waitSyn := s0.state.waitSyn && ackNumber != 0),
                     head := AckedHead(ackNumber, s0.head)),
                 s1)
  }

  /**
   * The effect of an ACK, from `s0` to `s1`: from another peer, nothing;
   * from the bound peer, the window takes the advertised size and the ACK is
   * acted on.
   */
  ghost predicate AckHandled(d: Datagram, s0: Snapshot, s1: Snapshot) {
    var h := d.packet.header;
    if !SamePeer(d.sender, d.senderPort, s0.clientAddress, s0.clientPort) then
      s1 == s0
    else
      AckActed(h.ackNumber, d.sender, d.senderPort, s0.(size := h.windowSize), s1)
  }

  /**
   * The effect of a DATA packet, from `s0` to `s1`: outside `wait`, or beyond
   * the expected offset, nothing; below it, an ACK of its own sequence number;
   * at it, that ACK, then the payload is delivered and the expected offset
   * advances by DataSize mod 2^64.
   */
  ghost predicate DataHandled(d: Datagram, s0: Snapshot, s1: Snapshot) {
    var h := d.packet.header;
    var ack := Sent(AckPacket(h.sequenceNumber), d.sender, d.senderPort);
    if !s0.state.wait || h.sequenceNumber > s0.state.seqNum then
      s1 == s0
    else if h.sequenceNumber < s0.state.seqNum then
      s1 == s0.(trace := s0.trace + [ack])
    else
      s1 == s0.(state := s0.state.(seqNum := (s0.state.seqNum + h.dataSize) % U64_MODULUS),
                deliveries := s0.deliveries + [Delivery(h.sequenceNumber, h.dataSize)],
                trace := s0.trace + [ack, DataRead(d.packet.data, h.dataSize)])
  }

  /** The effect of an EOT, from `s0` to `s1`: in `wait`, a reset; otherwise nothing. */
  ghost predicate EotHandled(s0: Snapshot, s1: Snapshot) {
    if s0.state.wait then s1 == Cleared(s0) else s1 == s0
  }

  /**
   * The effect of one received datagram, from `s0` to `s1`: a runt changes
   * nothing; any other restarts the idle timer and then has the effect of the
   * handler its type byte selects (none for an unknown byte).
   */
  ghost predicate DatagramHandled(d: Datagram, s0: Snapshot, s1: Snapshot) {
    if d.length < HEADER then s1 == s0 else Dispatched(d, s0.(trace := s0.trace + [IdleTimerRestarted]), s1)
  }

  /** The effect, from `s0` to `s1`, of the handler a datagram's type byte selects; an unknown byte has none. */
  ghost predicate Dispatched(d: Datagram, s0: Snapshot, s1: Snapshot) {
    match KindOf(d.packet.header.packetType)
    case None => s1 == s0
    case Some(Syn) => SynHandled(d, s0, s1)
    case Some(Ack) => AckHandled(d, s0, s1)
    case Some(Data) => DataHandled(d, s0, s1)
    case Some(Eot) => EotHandled(s0, s1)
  }

  /** Sending the window only appends to the trace. */
  lemma WindowSentAppends(address: Address, port: u16, s0: Snapshot, s1: Snapshot)
    requires WindowSent(address, port, s0, s1)
    ensures s0.trace <= s1.trace
  {
    if s0.head == |s0.buffer| {
      assert s1.trace == s0.trace + [Sent(EotPacket, address, port), RcvTimerRestarted, IdleTimerRestarted];
    }
  }

  /** Handling a datagram only appends to the trace: nothing already recorded is undone. */
  lemma HandlingAppends(d: Datagram, s0: Snapshot, s1: Snapshot)
    requires DatagramHandled(d, s0, s1)
    ensures s0.trace <= s1.trace
  {
    if d.length >= HEADER {
      var s := s0.(trace := s0.trace + [IdleTimerRestarted]);
      var h := d.packet.header;
      match KindOf(h.packetType)
      case Some(Ack) =>
        var sized := s.(size := h.windowSize);
        if SamePeer(d.sender, d.senderPort, s.clientAddress, s.clientPort)
           && AckAccepted(h.ackNumber, sized.state, sized.head, sized.pointer) {
          WindowSentAppends(d.sender, d.senderPort,
                            sized.(state := sized.state.(waitSyn := sized.state.waitSyn && h.ackNumber != 0),
                                   head := AckedHead(h.ackNumber, sized.head)),
                            s1);
        }
      case Some(Eot) =>
        if s.state.wait {
          assert s1.trace == s.trace + [RcvTimerRestarted, IdleTimerRestarted];
        }
      case _ =>
    }
  }

  /**
   * The effect of one pass of the engine's thread, from `s0` to `s1`, with
   * the timer readings `t`.  An idle timeout resets, which also clears the
   * receive timeout, so nothing is resent.  Otherwise both timeout flags are
   * recorded, and a receive timeout resets during a handshake, resends the
   * frames of [head, pointer) while data is outstanding, and otherwise
   * repeats the ACK of the expected offset; each restarts both timers.
   */
  ghost predicate PassDone(t: TimerReading, s0: Snapshot, s1: Snapshot) {
    var s := s0.(state := s0.state.(timeoutIdle := false, timeoutRcv := t.rcvExpired));
    var port := PortOfShort(s0.clientPort);
    if t.idleExpired then
      s1 == Cleared(s0)
    else if !t.rcvExpired then
      s1 == s
    else if s0.state.waitSyn then
      s1 == Cleared(s0)
    else if s0.state.dataSent then
      && s0.head <= s0.pointer <= |s0.buffer|
      && s1 == s.(trace := s0.trace
                           + DataSends(Chunks(s0.buffer, s0.head, s0.pointer), WINDOW, s0.clientAddress, port)
                           + [RcvTimerRestarted, IdleTimerRestarted])
    else
      s1 == s.(trace := s0.trace + [Sent(AckPacket(s0.state.seqNum), s0.clientAddress, port),
                                    RcvTimerRestarted, IdleTimerRestarted])
  }

  /** The window head once an accepted ACK number is applied: ACK 0 acknowledges no data. */
  function AckedHead(ackNumber: u64, head: nat): nat {
    if ackNumber == 0 then head else ackNumber
  }

  /** Whether an ACK number is acted on in a state with this window. */
  predicate AckAccepted(ackNumber: u64, s: State, head: nat, pointer: nat) {
    if ackNumber == 0 then s.waitSyn else s.dataSent && head < ackNumber <= pointer
  }
}
