/**
 * The file-backed twin of the sliding window (FileAdapter.cpp): instead of a
 * buffered copy it reads each frame straight from the open file.
 */
module FileAdapters {
  import opened Packets

  class FileAdapter {
    /** Contents of the open file (mFile). */
    var contents: seq<u8>
    /** The file's read position. */
    var position: nat
    var windowHead: nat
    var windowPointer: nat
    var windowSize: nat

    /**
     * The pointer is always the file position, acknowledgement never passes
     * it, and no more than the window is outstanding.
     */
    ghost predicate Valid() reads this {
      && position <= |contents|
      && windowPointer == position
      && windowHead <= windowPointer <= windowHead + windowSize
    }

    /** Opens the file (given by its contents) with an empty window of the given size. */
    constructor (contents: seq<u8>, windowSize: nat)
      ensures Valid()
      ensures windowHead == 0 && windowPointer == 0 && this.windowSize == windowSize
      ensures this.contents == contents && position == 0
    {
      this.contents := contents;
      position := 0;
      windowHead, windowPointer := 0, 0;
      this.windowSize := windowSize;
    }

    /** QFile::read: copies up to `maxSize` bytes from the read position into `data`. */
    method Read(data: array<u8>, maxSize: nat) returns (count: nat)
      requires position <= |contents| && maxSize <= data.Length
      modifies this`position, data
      ensures count <= maxSize && position == old(position) + count <= |contents|
      ensures count == maxSize || position == |contents|
      ensures data[..count] == contents[old(position) .. position]
      ensures data[count..] == old(data[count..])
    {
      count := if maxSize <= |contents| - position then maxSize else |contents| - position;
      forall i | 0 <= i < count {
        data[i] := contents[position + i];
      }
      position := position + count;
    }

    /**
     * Reads one payload's worth into `data` when a whole payload fits in the
     * window, advancing the pointer by what was read; returns the pointer.
     */
    method GetNextFrame(data: array<u8>) returns (ackNumber: nat)
      requires Valid() && DATA <= data.Length
      modifies this`position, this`windowPointer, data
      ensures Valid()
      ensures windowHead == old(windowHead) && windowSize == old(windowSize)
      ensures ackNumber == windowPointer
      ensures old(windowPointer) + DATA <= windowHead + windowSize ==>
                && old(windowPointer) <= windowPointer <= old(windowPointer) + DATA
                && (windowPointer == old(windowPointer) + DATA || windowPointer == |contents|)
                && data[..windowPointer - old(windowPointer)] == contents[old(windowPointer) .. windowPointer]
                && forall i :: windowPointer - old(windowPointer) <= i < data.Length ==> data[i] == old(data[i])
      ensures old(windowPointer) + DATA > windowHead + windowSize ==>
                windowPointer == old(windowPointer) && data[..] == old(data[..])
    {
      if windowPointer + DATA <= windowHead + windowSize {
        var count := Read(data, DATA);
        windowPointer := windowPointer + count;
      }
      ackNumber := windowPointer;
    }

    /** Cumulative acknowledgement from an ACK packet's AckNumber. */
    method AckFrame(packet: Packet)
      requires Valid()
      modifies this`windowHead
      ensures Valid()
      ensures var ack := packet.header.ackNumber;
              windowHead == if old(windowHead) < ack <= windowPointer then ack else old(windowHead)
      ensures old(windowHead) <= windowHead
    {
      if windowHead < packet.header.ackNumber <= windowPointer {
        windowHead := packet.header.ackNumber;
      }
    }
  }
}
