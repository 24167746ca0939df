# kinda-good-protocol in Dafny

This project models the protocol core of kinda-good-protocol. It is a reliable file transfer protocol over UDP. One `IoEngine` plays both roles:

- as a **transmitter**, it buffers a file, opens the connection with a SYN, and sends the file as DATA packets through a sliding window. The window advances on cumulative ACKs. The engine sends EOT once everything is acknowledged.
- as a **receiver**, it answers a SYN, accepts DATA packets strictly in order, ACKs each one and hands each new payload to its consumer. An EOT ends the connection.

The modules follow the source files:

- `Packets` (`packets.dfy`, from `res.h`): the packet type codes, the `PacketHeader`/`Packet` records, the size and timeout constants, and the `State` flag record. `sizeof(PacketHeader)` depends on the compiler's struct layout. It is therefore the abstract constant `HEADER`, known only to lie between 29 and 40, and `DATA = 1500 - HEADER`.
- `SlidingWindows` (`sliding_window.dfy`, from `SlidingWindow.h` and `SlidingWindow.cpp`): the `SlidingWindow` class. Its fields are `head`, `size`, `pointer` and the buffered file. It has:
  - `GetNextFrame`, as written in `SlidingWindow.cpp`;
  - the window calls the engine makes: `GetNextFrames`, `GetPendingFrames`, `IsEOT`, `SetWindowSize`, and the bool-returning `AckFrame`/`BufferFile`. The model's `AckFrame` is this bool-returning call at `IoEngine.cpp:217`. It is not the `void AckFrame(const quint64&)` defined at `SlidingWindow.cpp:110`, nor the `void AckFrame(const Packet&)` declared in `SlidingWindow.h`. It follows the defined version's rule and also reports whether head moved.
- `FileAdapters` (`file_adapter.dfy`, from `FileAdapter.cpp`): the file-backed window. It reads each frame straight from the open file.
- `IoEngines` (`io_engine.dfy`, from `IoEngine.cpp`): the engine class, with:
  - `Reset` and `StartFileSend`;
  - `sendFrames` and `sendWindow`;
  - one method per arm of the `newDataHandler` switch;
  - one pass of the `run` loop.

  Each handler is one atomic step. The engine's outputs are appended to the ghost sequence `trace`: packets sent, payloads delivered (`dataRead`), and timer restarts. The payloads accepted since the last reset are kept in the ghost sequence `deliveries`. The effect of each handler, and of one pass of the `run` loop, is a relation between two `Snapshot`s of the engine and its window: `WindowSent` for `sendWindow`, `SynHandled`, `AckHandled` (through `AckActed`), `DataHandled`, `EotHandled`, `Dispatched` and `DatagramHandled` for the switch, and `PassDone`. `Cleared` is what a reset leaves. `NewDataHandler` and `Run` return the ghost history of snapshots they went through, one step per datagram or pass.

The engine keeps the invariant `Valid()`, which holds after every step:

- the window has `head <= pointer <= |buffer|`;
- the local receive window is `WINDOW`;
- the deliveries are in order, with `seqNum` equal to their total size mod 2^64;
- `idle` holds exactly when none of `waitSyn`, `wait` and `dataSent` does.

`DeliveriesDisjoint` shows that no byte is delivered twice while fewer than 2^64 bytes have been delivered. Past that point `seqNum` wraps around (`IoEngine.cpp:251`).

The model follows the code, including these behaviours a reader might not expect:

- Only ACK packets are checked against the bound peer (`IoEngine.cpp:193`). DATA and EOT from any sender are handled.
- `StartFileSend` refuses only while `dataSent` is set (`IoEngine.cpp:69`). It is not refused during a handshake or while receiving.
- The receiver ACKs a DATA packet with that packet's own `SequenceNumber`, its start offset (`IoEngine.cpp:243`). The transmitter's `AckFrame` therefore moves `head` only to the start of the last frame received. The cumulative ACK of `seqNum`, which is the next expected offset, is sent only when the receive timer fires (`IoEngine.cpp:321`).
- The port parameters of `StartFileSend`, `sendFrames` and `sendWindow` are `const short&`. The model takes the bound port `mClientPort` to be a `short` as well (see "## Left out"). Under that reading, an ACK whose sender port is 0x8000 or above never matches it (`HighPortRepliesRejected`).

## Model

| member | source | states |
|---|---|---|
| Packets.KindOf | kinda-good-protocol/res.h:13-16 | a type byte selects a kind exactly when it is that kind's code; every other byte selects none |
| Packets.CodesDistinct | kinda-good-protocol/res.h:13-16 | the four codes DATA=0x02, ACK=0x05, EOT=0x04, SYN=0x15 are pairwise distinct, so a code determines its kind |
| Packets.SizesAgree | kinda-good-protocol/res.h:32-35 | header plus payload capacity is exactly the 1500-byte budget, the payload is non-empty, and the default window is ten payloads |
| Packets.PadPayload | kinda-good-protocol/res.h:39-43 | a payload is exactly DATA bytes: the copied bytes first, then zeros |
| Packets.IdleOutlastsReceive | kinda-good-protocol/res.h:48-49 | the receive timeout (500 ms) is positive and twenty times shorter than the idle timeout (10000 ms) |
| Packets.ShortOfPort | kinda-good-protocol/IoEngine.cpp:179 | storing a `quint16` port in a `short` bound port loses nothing (converting back gives the port), and the stored value is negative exactly for ports of 0x8000 and above |
| SlidingWindows.FrameLength | kinda-good-protocol/SlidingWindow.cpp:74-86 | a frame is DATA bytes exactly when a whole payload fits before `head + size`; otherwise it is the rest of the window; it never passes `head + size` |
| SlidingWindows.PartialFrameOffset | kinda-good-protocol/SlidingWindow.cpp:81-86 | for every partial last frame of `n` bytes, the frame as written holds `buffer[n..2n]`, copied from offset `n = head + size - pointer`; that offset is the pointer only when `head + size == 2 * pointer` |
| SlidingWindows.PartialFrameCopiesWrongBytes | kinda-good-protocol/SlidingWindow.cpp:81-86 | one example: a buffer of DATA zeros then a 1, head 0, window DATA + 1, pointer DATA. The one-byte frame as written is 0, while the byte at the pointer is 1 |
| SlidingWindows.ShortFileOverrunsBuffer | kinda-good-protocol/SlidingWindow.cpp:74-79 | for a file shorter than one payload and the default window, the full-frame branch is taken and reads past the end of the buffer |
| SlidingWindows.Chunks | kinda-good-protocol/SlidingWindow.cpp:62-66 | frames cut from `[lo, hi)` are non-empty, at most DATA bytes, inside `[lo, hi)`, and each carries the buffer bytes at its own offset; there are none exactly when `lo == hi` |
| SlidingWindows.ChunksContiguous | kinda-good-protocol/SlidingWindow.cpp:62-66 | the first frame starts at `lo`, every frame but the last is a full payload, and each frame starts where the previous one ends |
| SlidingWindows.ChunksCover | kinda-good-protocol/SlidingWindow.cpp:62-66 | the frames' payloads, concatenated, give back exactly `buffer[lo..hi]` |
| SlidingWindows.SliceFrames | kinda-good-protocol/IoEngine.cpp:137-138 | the framing loop produces exactly the frames `Chunks` describes |
| SlidingWindows.SlidingWindow.constructor | kinda-good-protocol/SlidingWindow.cpp:4-8 | a new window has the given size, `head = pointer = 0` and an empty buffer |
| SlidingWindows.SlidingWindow.Reset | kinda-good-protocol/SlidingWindow.h:23-27 | head and pointer become 0, the buffer empties, and the size is kept; the new state depends only on the size, so a second reset changes nothing |
| SlidingWindows.SlidingWindow.BufferFile | kinda-good-protocol/SlidingWindow.cpp:29-42 | succeeds exactly when the file is readable; the buffer is then exactly the file's bytes (empty otherwise), with `head = pointer = 0` |
| SlidingWindows.SlidingWindow.GetNextFrame | kinda-good-protocol/SlidingWindow.cpp:68-90 | zero-fills the output, then copies `FrameLength` bytes (from the offset the code uses). The pointer advances by that length and never passes `head + size`. Head is unchanged. The result is the new pointer |
| SlidingWindows.SlidingWindow.AckFrame | kinda-good-protocol/SlidingWindow.cpp:110-123 | head becomes the ACK number exactly when `head < ack <= pointer` (reported as the result); otherwise nothing changes; head never decreases; `head <= pointer <= head + size` is kept |
| SlidingWindows.SlidingWindow.SetWindowSize | kinda-good-protocol/IoEngine.cpp:196 | the window takes the advertised size |
| SlidingWindows.SlidingWindow.IsEOT | kinda-good-protocol/IoEngine.cpp:128 | everything buffered is acknowledged (`head == \|buffer\|`); in an ordered window, exactly when every byte has been framed and no frame is pending |
| SlidingWindows.SlidingWindow.GetNextFrames | kinda-good-protocol/IoEngine.cpp:137-138 | frames exactly the bytes from the pointer to the window's end or the buffer's end, whichever comes first, and moves the pointer there (never backwards) |
| SlidingWindows.SlidingWindow.GetPendingFrames | kinda-good-protocol/IoEngine.cpp:310-311 | the frames sent but unacknowledged are exactly the frames of `[head, pointer)` |
| FileAdapters.FileAdapter.constructor | kinda-good-protocol/FileAdapter.cpp:4-11 | starts with `head = pointer = 0`, the given window size and the file read from its start |
| FileAdapters.FileAdapter.Read | kinda-good-protocol/FileAdapter.cpp:24 | reads at most the requested count, short only at end of file, copying exactly the file bytes at the read position and leaving the rest of the output alone |
| FileAdapters.FileAdapter.GetNextFrame | kinda-good-protocol/FileAdapter.cpp:18-29 | reads only when a whole payload fits in the window. Then the pointer advances by the bytes read (at most DATA) and the frame holds those file bytes. Otherwise nothing changes. Head is unchanged and the result is the pointer |
| FileAdapters.FileAdapter.AckFrame | kinda-good-protocol/FileAdapter.cpp:31-44 | head becomes the packet's AckNumber exactly when `head < AckNumber <= pointer`; the pointer never changes and head never decreases |
| IoEngines.FramePacket | kinda-good-protocol/IoEngine.cpp:111-120 | the packet carries the frame (`Carries`): DATA type, seq = the frame's offset, ack 0, the local receive window, DataSize = the frame's size, the frame's bytes first and a zero tail |
| IoEngines.FrameOfPacket | kinda-good-protocol/IoEngine.cpp:249 | what a receiver reads out of a DATA packet (its offset, DataSize and first DataSize bytes) is a well-formed frame at the packet's sequence number, with size DataSize and exactly the first DataSize payload bytes |
| IoEngines.FramePacketRoundTrip | kinda-good-protocol/IoEngine.cpp:111-120 | reading a built DATA packet back gives exactly the frame it was built from, whatever window it advertises |
| IoEngines.DataSends | kinda-good-protocol/IoEngine.cpp:109-123 | one send per frame, in frame order, each to the given address and port and each a DATA packet that carries its frame (offset, size and bytes, ack 0, the given window, a zero tail) |
| IoEngines.SamePeer | kinda-good-protocol/IoEngine.cpp:193 | an ACK is from the bound peer exactly when the IPv4 addresses match and the sender port is below 0x8000 and equals the bound port |
| IoEngines.HighPortRepliesRejected | kinda-good-protocol/IoEngine.cpp:193 | a peer bound at a `short` port is recognised at the port it was sent to exactly when that port is below 0x8000 |
| IoEngines.InOrderExtend | kinda-good-protocol/IoEngine.cpp:246-251 | accepting a payload at the expected offset keeps the deliveries in order, and the expected offset advances by its size mod 2^64 |
| IoEngines.InOrderAt | kinda-good-protocol/IoEngine.cpp:238-252 | in an in-order history, every delivery started at the offset expected after the deliveries before it |
| IoEngines.OffsetIsTotal | kinda-good-protocol/IoEngine.cpp:251 | the expected offset, accumulated step by step in 64-bit arithmetic, equals the unbounded total of the sizes delivered, mod 2^64 |
| IoEngines.StartsAtTotal | kinda-good-protocol/IoEngine.cpp:238-252 | while fewer than 2^64 bytes have been delivered, each delivery starts exactly at the total size of the deliveries before it |
| IoEngines.DeliveriesDisjoint | kinda-good-protocol/IoEngine.cpp:238-252 | while fewer than 2^64 bytes have been delivered, each delivered payload lies wholly before every later one: nothing is delivered twice |
| IoEngines.IoEngine.constructor | kinda-good-protocol/IoEngine.cpp:7-24 | a new engine is idle with zeroed state, `rcvWindowSize = WINDOW`, no peer, and a window of the default size |
| IoEngines.IoEngine.Reset | kinda-good-protocol/IoEngine.cpp:44-62 | state zeroed except `rcvWindowSize = WINDOW` and `idle`; peer cleared; both timers restarted; window emptied with its size kept; nothing delivered. Together these are `Cleared` of the old snapshot |
| IoEngines.IoEngine.StartFileSend | kinda-good-protocol/IoEngine.cpp:64-98 | refused with no change while `dataSent`. If the file cannot be read it is refused before a peer is bound, with the window emptied. Otherwise it binds the peer, buffers the file, sends one SYN, restarts both timers and moves from idle to `waitSyn` |
| IoEngines.IoEngine.SendFrames | kinda-good-protocol/IoEngine.cpp:107-124 | appends exactly one DATA packet per frame, in order, carrying the local receive window |
| IoEngines.IoEngine.SendWindow | kinda-good-protocol/IoEngine.cpp:126-143 | the effect is exactly `WindowSent`. Once everything buffered is acknowledged, it sends EOT and resets, keeping the window size. Otherwise it sends the frames from the old pointer to the window's or buffer's end and moves the pointer there, restarts the receive timer, and sets `dataSent`; nothing else changes |
| IoEngines.IoEngine.HandleSyn | kinda-good-protocol/IoEngine.cpp:174-191 | only when idle: binds the sender, moves to `wait`, ACKs the SYN's sequence number; otherwise nothing changes |
| IoEngines.IoEngine.HandleAck | kinda-good-protocol/IoEngine.cpp:192-233 | not from the bound peer: no change. Otherwise the window size is adopted. Ack 0 is acted on only in `waitSyn`, which it clears. Ack > 0 is acted on only with `dataSent` and `head < ack <= pointer`. An accepted ACK moves head, then sends EOT and resets, or sends the next window |
| IoEngines.IoEngine.ActOnAck | kinda-good-protocol/IoEngine.cpp:198-227 | the effect is exactly `AckActed`. An ACK from the bound peer that is not accepted changes nothing. Ack 0 is accepted only in `waitSyn`; ack > 0 only with `dataSent` and `head < ack <= pointer`. If the new head reaches the end of the buffer, the engine sends EOT and is left reset. Otherwise head moves, `dataSent` is set, and exactly the frames from the old pointer to the new window end are sent, followed by a receive-timer restart |
| IoEngines.IoEngine.Deliver | kinda-good-protocol/IoEngine.cpp:246-251 | the payload is handed on and recorded as a delivery at the expected offset; `seqNum` advances by DataSize mod 2^64; the deliveries stay in order with `seqNum` as their next offset |
| IoEngines.IoEngine.HandleData | kinda-good-protocol/IoEngine.cpp:234-263 | only in `wait`. A sequence number beyond `seqNum` causes no change. Any other is ACKed with its own sequence number. Only `seq == seqNum` delivers the payload and advances `seqNum` by DataSize mod 2^64 |
| IoEngines.IoEngine.HandleEot | kinda-good-protocol/IoEngine.cpp:264-275 | in `wait` resets; otherwise nothing changes |
| IoEngines.IoEngine.HandleDatagram | kinda-good-protocol/IoEngine.cpp:155-172 | the effect is exactly `DatagramHandled`. A datagram shorter than a header changes nothing, not even the idle timer. Otherwise the idle timer restarts first, and then the engine undergoes exactly the effect of the handler the type byte selects. The trace only grows |
| IoEngines.IoEngine.Dispatch | kinda-good-protocol/IoEngine.cpp:172-276 | the effect is exactly `Dispatched`: SYN, ACK, DATA and EOT have the effects `SynHandled`, `AckHandled`, `DataHandled` and `EotHandled`, and any other type byte changes nothing |
| IoEngines.HandlingAppends | kinda-good-protocol/IoEngine.cpp:155-276 | handling a datagram only appends to the trace: whatever the datagram and the state, nothing already recorded is undone |
| IoEngines.IoEngine.NewDataHandler | kinda-good-protocol/IoEngine.cpp:147-160 | keeps the engine invariant and only appends to the trace. Its ghost history runs from the engine before the batch to the engine after it, and each step is exactly `DatagramHandled` of the next datagram, in arrival order. A batch of runt datagrams changes nothing |
| IoEngines.IoEngine.RunOnce | kinda-good-protocol/IoEngine.cpp:285-330 | the pass has exactly the effect `PassDone` gives. An idle timeout resets, and the reset clears the receive timeout, so nothing is resent in that pass. A receive timeout resets in `waitSyn`, resends exactly the frames of `[head, pointer)` with `dataSent`, and re-ACKs `seqNum` in `wait`. The window size is kept. The last branch is unreachable |
| IoEngines.IoEngine.Run | kinda-good-protocol/IoEngine.cpp:283-331 | passes run while the engine is not idle, and it stops early only when idle. Its ghost history runs from the engine before the loop to the engine after it. Each pass started from a busy engine and had exactly the `PassDone` effect of its reading. An idle engine runs no pass, and the window size is kept |

## Left out

- Sockets, threads and locking: the `QUdpSocket` bind, write and receive calls, `QThread` start and exit, and `QMutexLocker`. Each handler is one atomic step, and each send is a record appended to the trace.
- Timers: `restartRcvTimer`, `restartIdleTimer` and `checkTimers` are not part of this model. Timer readings are inputs (`TimerReading`), and restarts are trace events.
- Packet building for SYN, ACK and EOT: `createSynPacket`, `ackPacket` and `sendEot` are not part of this model. Those packets are recorded by kind and ACK number only.
- Logging and the dependency-manager singletons: these are side effects only.
- Raw struct serialisation, meaning the `sizeof(packet)` send and the `memcpy` of the received bytes into a `Packet`. Both depend on compiler padding. A datagram is its length plus the decoded packet, so a datagram longer than a `Packet`, which overflows the receive buffer in the source, is not modelled.
- Address parsing in `StartFileSend`: the address is given as its IPv4 value, with 0 for a cleared address. IPv6 addresses are not modelled.
- File access: opening, reading and closing the file. A file is its contents; an unreadable file is `None`. `QFile::read` returning −1 on error, which would move the `FileAdapter` pointer back, is not modelled.
- Integer widths in the window: `head`, `pointer` and `size` are unbounded. The `quint64` wrap-around of `mPointer + Size::DATA` and `mHead + mSize - mPointer` is not modelled. The receiver's `seqNum += DataSize` is modelled mod 2^64.
- IoEngines.IoEngine.HandleData: does not check DataSize against DATA, as the source does not. A delivery of more than DATA bytes is recorded as claimed.
- SlidingWindows.SlidingWindow.GetNextFrame: requires that the bytes it copies exist (`ReadsInBounds`). Reading past the buffer is undefined behaviour, and the model does not say what such a read returns.
- SlidingWindows.SlidingWindow.GetNextFrames, GetPendingFrames, SetWindowSize, IsEOT, and the bool-returning AckFrame and BufferFile: the engine calls these, but SlidingWindow.h and SlidingWindow.cpp do not define them, so their behaviour here is the model's own. `GetNextFrames` cuts the bytes from the pointer up to the window's end or the buffer's end, whichever comes first, into frames of DATA bytes. That is `GetNextFrame` (`SlidingWindow.cpp:68-90`) repeated, with the copy offset and the buffer end corrected. `GetPendingFrames` cuts `[head, pointer)` the same way. `IsEOT` means "everything buffered is acknowledged". `WindowSent`, `PassDone` and the frame-coverage lemmas rest on this reconstruction.
- SlidingWindows.SlidingWindow.SetWindowSize: an advertised size can be smaller than `pointer - head`, so the engine's invariant keeps only `head <= pointer <= |buffer|`, not `pointer <= head + size`.
- Neither IoEngine.cpp nor IoEngine.h declares `mClientPort`: IoEngine.cpp uses it, and the stale IoEngine.h lacks it. `ShortOfPort`, `SamePeer` and `HighPortRepliesRejected` assume it is a `short`, like the `const short&` port parameters it is passed as. If it were wider, ACKs from ports of 0x8000 and above would match.
- The packet type byte is a `char` in the source and a `u8` in the model. All four codes are below 0x80, so the two agree.
- Receiver, Transmitter, Io, the GUI main window, and the stale `IoEngine.h` declaration: they contain no protocol logic.
- The network emulator script: it involves threads, random loss and wall-clock delays.

## Findings

| source | as written | input that shows it | evidently intended | confidence | as-written member | corrected member |
|---|---|---|---|---|---|---|
| kinda-good-protocol/SlidingWindow.cpp:84 | the partial last frame copies `remaining` bytes from buffer offset `remaining` | a buffer of DATA zero bytes then one byte 1, head 0, window DATA + 1, pointer DATA: the frame holds 0 instead of 1 | copy from offset `mPointer` | not executed | SlidingWindows.PartialFrameCopiesWrongBytes | SlidingWindows.Chunks |
| kinda-good-protocol/SlidingWindow.cpp:77 | the full-frame branch copies DATA bytes without checking the buffer's end | a file shorter than DATA with the default window: the copy reads past the buffer | stop the frame at the end of the buffer | not executed | SlidingWindows.ShortFileOverrunsBuffer | SlidingWindows.SlidingWindow.GetNextFrames |
