/** `BinaryLoader`: reads an archive entry into a shared buffer and hands back that
    buffer itself. */
module BinaryLoading {
  import opened Wrappers
  import opened Wire
  import opened GameFiles

  /** An entry worth reading: it exists, is valid, and is not empty. */
  predicate Readable(f: Option<AFile>) {
    f.Some? && f.value.valid && |f.value.content| != 0
  }

  /** `ReadAFileBase(filename, ref fileBuffer)`. A missing, invalid or empty entry
      yields null and leaves the buffer alone. Otherwise the buffer grows by the
      rule of `Reserve` with a floor of `MinBufferSize`, receives the file at its
      front, and is itself the result: it may be longer than the file, and the
      bytes past the file's size may be left over from an earlier read. */
  method ReadAFileBase(filename: string, fs: FileSystem, fileBuffer: BufferSlot) returns (r: array?<byte>)
    modifies fileBuffer, fileBuffer.buffer
    ensures !Readable(fs(filename)) ==> r == null && fileBuffer.buffer == old(fileBuffer.buffer)
    ensures !Readable(fs(filename)) && old(fileBuffer.buffer) != null ==> unchanged(old(fileBuffer.buffer))
    ensures Readable(fs(filename)) ==>
              r == fileBuffer.buffer && Refilled(fileBuffer, old(fileBuffer.buffer), fs(filename).value.content, MinBufferSize)
  {
    var file := fs(filename);
    if !Readable(file) {
      return null;
    }
    fileBuffer.Fill(file.value.content, MinBufferSize);
    r := fileBuffer.buffer;
  }

  /** The static class with its shared buffer `_fileBuffer`. */
  class BinaryLoader {
    const fileBuffer: BufferSlot

    constructor ()
      ensures fresh(fileBuffer) && fileBuffer.buffer == null
    {
      fileBuffer := new BufferSlot();
    }

    /** `ClearCache`: the next read allocates a new buffer. */
    method ClearCache()
      modifies fileBuffer
      ensures fileBuffer.buffer == null
    {
      fileBuffer.Clear();
    }

    /** `ReadAFileBase(filename)`: the two-argument form on the static buffer. */
    method ReadShared(filename: string, fs: FileSystem) returns (r: array?<byte>)
      modifies fileBuffer, fileBuffer.buffer
      ensures !Readable(fs(filename)) ==> r == null && fileBuffer.buffer == old(fileBuffer.buffer)
      ensures !Readable(fs(filename)) && old(fileBuffer.buffer) != null ==> unchanged(old(fileBuffer.buffer))
      ensures Readable(fs(filename)) ==>
                r == fileBuffer.buffer && Refilled(fileBuffer, old(fileBuffer.buffer), fs(filename).value.content, MinBufferSize)
    {
      r := ReadAFileBase(filename, fs, fileBuffer);
    }
  }
}
