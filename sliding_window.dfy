/**
 * The sender's sliding window over an in-memory copy of the file
 * (SlidingWindow.h, SlidingWindow.cpp), together with the window calls the
 * engine makes (GetNextFrames, GetPendingFrames, IsEOT, SetWindowSize and the
 * bool-returning AckFrame and BufferFile).
 */
module SlidingWindows {
  import opened Packets

  /** Largest QByteArray: its size is an `int`. */
  const MAX_BYTE_ARRAY: nat := 0x7fff_ffff

  /** Contents of a file as QByteArray can hold them. */
  type Bytes = s: seq<u8> | |s| <= MAX_BYTE_ARRAY

  function Min(a: nat, b: nat): nat { if a <= b then a else b }
  function Max(a: nat, b: nat): nat { if a <= b then b else a }

  // ------------------------------------------------------------ GetNextFrame, as written

  /**
   * Number of bytes GetNextFrame frames: a whole payload while one fits below
   * head + size, otherwise what is left of the window.
   */
  function FrameLength(head: nat, size: nat, pointer: nat): (n: nat)
    requires pointer <= head + size
    ensures n <= DATA && pointer + n <= head + size
    ensures n == DATA <==> pointer + DATA <= head + size
    ensures n < DATA ==> pointer + n == head + size
  {
    if pointer + DATA <= head + size then DATA else head + size - pointer
  }

  /**
   * Offset GetNextFrame copies from: the pointer for a whole payload, but the
   * number of remaining bytes for the last, partial frame.
   */
  function CopyOffsetAsWritten(head: nat, size: nat, pointer: nat): nat
    requires pointer <= head + size
  {
    if pointer + DATA <= head + size then pointer else head + size - pointer
  }

  /** GetNextFrame reads only bytes of the buffer (reading past its end is undefined). */
  predicate ReadsInBounds(buffer: seq<u8>, head: nat, size: nat, pointer: nat)
    requires pointer <= head + size
  {
    CopyOffsetAsWritten(head, size, pointer) + FrameLength(head, size, pointer) <= |buffer|
  }

  /** The payload GetNextFrame leaves in the caller's array: zeroes, then the copied bytes on top. */
  function FrameAsWritten(buffer: seq<u8>, head: nat, size: nat, pointer: nat): Payload
    requires pointer <= head + size
    requires ReadsInBounds(buffer, head, size, pointer)
  {
    var lo := CopyOffsetAsWritten(head, size, pointer);
    PadPayload(buffer[lo .. lo + FrameLength(head, size, pointer)])
  }

  /**
   * The partial-frame branch copies from offset `remaining` instead of from the
   * pointer: with head 0, window DATA + 1 and pointer DATA, the one byte framed
   * is buffer[1], not buffer[DATA].
   */
  lemma PartialFrameCopiesWrongBytes()
    ensures var b: seq<u8> := Zeros(DATA) + [1];
            && ReadsInBounds(b, 0, DATA + 1, DATA)
            && FrameLength(0, DATA + 1, DATA) == 1
            && b[DATA .. DATA + 1] == [1]
            && FrameAsWritten(b, 0, DATA + 1, DATA)[..1] == [0]
  {
    var b: seq<u8> := Zeros(DATA) + [1];
    assert b[1] == 0;
    assert b[DATA] == 1;
    assert b[DATA .. DATA + 1] == [b[DATA]];
    assert b[1 .. 2] == [b[1]];
  }

  /**
   * For every partial last frame, the bytes framed are the ones at offset
   * `remaining` (the frame's own length), which is the pointer only when
   * `head + size == 2 * pointer`.
   */
  lemma PartialFrameOffset(buffer: seq<u8>, head: nat, size: nat, pointer: nat)
    requires pointer < head + size < pointer + DATA
    requires ReadsInBounds(buffer, head, size, pointer)
    ensures var n := FrameLength(head, size, pointer);
            && n == head + size - pointer
            && CopyOffsetAsWritten(head, size, pointer) == n
            && FrameAsWritten(buffer, head, size, pointer)[..n] == buffer[n .. 2 * n]
    ensures CopyOffsetAsWritten(head, size, pointer) == pointer <==> head + size == 2 * pointer
  {
    var n := FrameLength(head, size, pointer);
    assert FrameAsWritten(buffer, head, size, pointer) == PadPayload(buffer[n .. n + n]);
  }

  /**
   * The whole-payload branch tests only the window, never the buffer end: a
   * file shorter than a payload under the default window makes GetNextFrame
   * copy DATA bytes out of a shorter buffer.
   */
  lemma ShortFileOverrunsBuffer(b: seq<u8>)
    requires |b| < DATA
    ensures FrameLength(0, WINDOW, 0) == DATA
    ensures !ReadsInBounds(b, 0, WINDOW, 0)
  {
  }

  // ------------------------------------------------------------ frames, as the engine uses them

  /** SlidingWindow::FrameWrapper: buffer offset of the first byte, byte count, bytes. */
  datatype Frame = Frame(seqNum: nat, size: nat, data: seq<u8>)

  predicate WellFormed(f: Frame) {
    f.size == |f.data| <= DATA
  }

  /**
   * buffer[lo..hi) cut into consecutive frames of one payload each, the last
   * possibly shorter.  Each frame carries the bytes at its own offset.
   */
  function Chunks(buffer: seq<u8>, lo: nat, hi: nat): (frames: seq<Frame>)
    requires lo <= hi <= |buffer|
    ensures frames == [] <==> lo == hi
    ensures forall i :: 0 <= i < |frames| ==> WellFormed(frames[i]) && 0 < frames[i].size
    ensures forall i :: 0 <= i < |frames| ==>
              lo <= frames[i].seqNum && frames[i].seqNum + frames[i].size <= hi
    ensures forall i :: 0 <= i < |frames| ==>
              frames[i].data == buffer[frames[i].seqNum .. frames[i].seqNum + frames[i].size]
    decreases hi - lo
  {
    if lo == hi then []
    else
      var n := Min(DATA, hi - lo);
      [Frame(lo, n, buffer[lo .. lo + n])] + Chunks(buffer, lo + n, hi)
  }

  /** Consecutive chunks abut: every frame but the last is a whole payload and the next starts where it ends. */
  lemma {:induction false} ChunksContiguous(buffer: seq<u8>, lo: nat, hi: nat, i: nat)
    requires lo <= hi <= |buffer|
    requires i + 1 < |Chunks(buffer, lo, hi)|
    ensures Chunks(buffer, lo, hi)[0].seqNum == lo
    ensures Chunks(buffer, lo, hi)[i].size == DATA
    ensures Chunks(buffer, lo, hi)[i + 1].seqNum == Chunks(buffer, lo, hi)[i].seqNum + DATA
    decreases hi - lo
  {
    var n := Min(DATA, hi - lo);
    var rest := Chunks(buffer, lo + n, hi);
    assert Chunks(buffer, lo, hi) == [Frame(lo, n, buffer[lo .. lo + n])] + rest;
    if i > 0 {
      ChunksContiguous(buffer, lo + n, hi, i - 1);
    }
  }

  /** The bytes a list of frames carries, in order. */
  function Payloads(frames: seq<Frame>): seq<u8> {
    if frames == [] then [] else frames[0].data + Payloads(frames[1..])
  }

  /** One step of frame coverage: a first frame of `n` bytes at `lo` followed by frames covering the rest. */
  lemma CoverStep(buffer: seq<u8>, lo: nat, n: nat, hi: nat, frames: seq<Frame>, rest: seq<Frame>)
    requires lo + n <= hi <= |buffer|
    requires frames == [Frame(lo, n, buffer[lo .. lo + n])] + rest
    requires Payloads(rest) == buffer[lo + n .. hi]
    ensures Payloads(frames) == buffer[lo .. hi]
  {
    assert frames[1..] == rest;
    assert buffer[lo .. hi] == buffer[lo .. lo + n] + buffer[lo + n .. hi];
  }

  /** Frame coverage: the chunks of a range carry exactly that range, no gap, no overlap. */
  lemma {:induction false} ChunksCover(buffer: seq<u8>, lo: nat, hi: nat)
    requires lo <= hi <= |buffer|
    ensures Payloads(Chunks(buffer, lo, hi)) == buffer[lo .. hi]
    decreases hi - lo
  {
    if lo < hi {
      var n := Min(DATA, hi - lo);
      ChunksCover(buffer, lo + n, hi);
      CoverStep(buffer, lo, n, hi, Chunks(buffer, lo, hi), Chunks(buffer, lo + n, hi));
    }
  }

  /** `p` lies a whole number of payloads after `lo`. */
  predicate Aligned(lo: nat, p: nat)
    decreases p - lo
  {
    lo == p || (lo + DATA <= p && Aligned(lo + DATA, p))
  }

  lemma {:induction false} AlignedStep(lo: nat, p: nat)
    requires Aligned(lo, p)
    ensures Aligned(lo, p + DATA)
    decreases p - lo
  {
    if lo != p {
      AlignedStep(lo + DATA, p);
    }
  }

  /** Appending after a first element: the sequence shape behind one step of ChunksSnoc. */
  lemma SnocStep(first: Frame, mid: seq<Frame>, last: Frame, left: seq<Frame>, right: seq<Frame>)
    requires left == [first] + mid
    requires right == [first] + (mid + [last])
    ensures left + [last] == right
  {
  }

  /** Chunking up to an aligned point and adding one more frame is chunking further. */
  lemma {:induction false} ChunksSnoc(buffer: seq<u8>, lo: nat, p: nat, n: nat)
    requires lo <= p && Aligned(lo, p)
    requires 0 < n <= DATA && p + n <= |buffer|
    ensures Chunks(buffer, lo, p) + [Frame(p, n, buffer[p .. p + n])] == Chunks(buffer, lo, p + n)
    decreases p - lo
  {
    var last := Frame(p, n, buffer[p .. p + n]);
    if lo == p {
      assert Chunks(buffer, p, p + n) == [last] + Chunks(buffer, p + n, p + n);
    } else {
      var first := Frame(lo, DATA, buffer[lo .. lo + DATA]);
      ChunksSnoc(buffer, lo + DATA, p, n);
      SnocStep(first, Chunks(buffer, lo + DATA, p), last, Chunks(buffer, lo, p), Chunks(buffer, lo, p + n));
    }
  }

  /** Cuts buffer[lo..hi) into frames, one payload at a time. */
  method SliceFrames(buffer: seq<u8>, lo: nat, hi: nat) returns (frames: seq<Frame>)
    requires lo <= hi <= |buffer|
    ensures frames == Chunks(buffer, lo, hi)
  {
    frames := [];
    var p := lo;
    while p < hi
      invariant lo <= p <= hi
      invariant Aligned(lo, p) || p == hi
      invariant frames == Chunks(buffer, lo, p)
      decreases hi - p
    {
      var n := Min(DATA, hi - p);
      ChunksSnoc(buffer, lo, p, n);
      frames := frames + [Frame(p, n, buffer[p .. p + n])];
      if n == DATA {
        AlignedStep(lo, p);
      }
      p := p + n;
    }
  }

  // ------------------------------------------------------------ the window object

  class SlidingWindow {
    /** Lowest offset not yet acknowledged (mHead). */
    var head: nat
    /** Window size in bytes (mSize). */
    var size: nat
    /** Next offset to frame (mPointer). */
    var pointer: nat
    /** The buffered file (mBuffer). */
    var buffer: Bytes

    /** Acknowledgement never passes what was framed. */
    predicate Ordered() reads this {
      head <= pointer
    }

    /** No more than the window is outstanding. */
    predicate WithinWindow() reads this {
      pointer <= head + size
    }

    /** Framing has not passed the end of the buffer. */
    predicate WithinBuffer() reads this {
      pointer <= |buffer|
    }

    /**
     * Everything buffered has been acknowledged: in an ordered window that has
     * not passed the buffer, exactly when every byte has been framed and no
     * frame is pending.
     */
    predicate IsEOT(): (r: bool) reads this
      ensures Ordered() && WithinBuffer() ==>
                (r <==> pointer == |buffer| && Chunks(buffer, head, pointer) == [])
    {
      head == |buffer|
    }

    constructor (size: nat)
      ensures this.size == size && head == 0 && pointer == 0 && buffer == []
      ensures Ordered() && WithinWindow() && WithinBuffer()
    {
      this.size := size;
      head, pointer := 0, 0;
      buffer := [];
    }

    method Reset()
      modifies this
      ensures head == 0 && pointer == 0 && buffer == []
      ensures size == old(size)
      ensures Ordered() && WithinWindow() && WithinBuffer()
    {
      head, pointer := 0, 0;
      buffer := [];
    }

    /**
     * Resets the window and buffers the file; `file` is None when the file
     * could not be read, and the window is then left empty.
     */
    method BufferFile(file: Option<Bytes>) returns (ok: bool)
      modifies this
      ensures ok <==> file.Some?
      ensures buffer == if ok then file.value else []
      ensures head == 0 && pointer == 0 && size == old(size)
      ensures Ordered() && WithinWindow() && WithinBuffer()
    {
      Reset();
      ok := file.Some?;
      if ok {
        buffer := buffer + file.value;
      }
    }

    /**
     * Zero-fills `data`, frames the next slice into it (as written, including
     * the partial-frame copy offset) and returns the new pointer, which is the
     * ACK number for that frame.
     */
    method GetNextFrame(data: array<u8>) returns (ackNumber: nat)
      requires data.Length == DATA
      requires WithinWindow()
      requires ReadsInBounds(buffer, head, size, pointer)
      modifies this`pointer, data
      ensures pointer == old(pointer) + FrameLength(head, size, old(pointer))
      ensures data[..] == FrameAsWritten(buffer, head, size, old(pointer))
      ensures ackNumber == pointer
      ensures old(pointer) <= pointer && WithinWindow()
      ensures old(Ordered()) ==> Ordered()
    {
      forall i | 0 <= i < data.Length {
        data[i] := 0;
      }
      var n := FrameLength(head, size, pointer);
      var lo := CopyOffsetAsWritten(head, size, pointer);
      forall i | 0 <= i < n {
        data[i] := buffer[lo + i];
      }
      pointer := pointer + n;
      ackNumber := pointer;
      assert data[..] == FrameAsWritten(buffer, head, size, old(pointer));
    }

    /**
     * Cumulative acknowledgement: moves head to `ackNumber` exactly when
     * head < ackNumber <= pointer, and reports whether it did.
     */
    method AckFrame(ackNumber: nat) returns (advanced: bool)
      modifies this`head
      ensures advanced <==> old(head) < ackNumber <= pointer
      ensures head == if advanced then ackNumber else old(head)
      ensures old(head) <= head
      ensures old(Ordered()) ==> Ordered()
      ensures old(WithinWindow()) ==> WithinWindow()
    {
      advanced := head < ackNumber <= pointer;
      if advanced {
        head := ackNumber;
      }
    }

    /** Adopts the window size the peer advertises. */
    method SetWindowSize(newSize: nat)
      modifies this`size
      ensures size == newSize
    {
      size := newSize;
    }

    /** End of the bytes that may be framed now: the window's end or the buffer's. */
    function Limit(): nat reads this {
      Min(head + size, |buffer|)
    }

    /**
     * Frames everything from the pointer up to the window's end, stopping at
     * the end of the buffer, and moves the pointer past it.
     */
    method GetNextFrames() returns (frames: seq<Frame>)
      requires Ordered() && WithinBuffer()
      modifies this`pointer
      ensures pointer == Max(old(pointer), Limit())
      ensures frames == Chunks(buffer, old(pointer), pointer)
      ensures Ordered() && WithinBuffer()
      ensures old(pointer) < Limit() ==> WithinWindow()
    {
      var limit := Limit();
      if pointer < limit {
        frames := SliceFrames(buffer, pointer, limit);
        pointer := limit;
      } else {
        frames := [];
      }
    }

    /** The frames sent but not yet acknowledged, for retransmission. */
    method GetPendingFrames() returns (frames: seq<Frame>)
      requires Ordered() && WithinBuffer()
      ensures frames == Chunks(buffer, head, pointer)
    {
      frames := SliceFrames(buffer, head, pointer);
    }
  }
}
