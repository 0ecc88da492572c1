/** The game's file access as the loaders see it: archive entries (`AFileBase`),
    the reusable byte buffers the loaders keep in static fields, and the two
    steps every loader repeats: make the buffer large enough, then copy the file
    into its front. */
module GameFiles {
  import opened Wrappers
  import opened Wire

  /** An opened archive entry: whether it is valid, and its bytes
      (`GetSize()` is their count). */
  datatype AFile = AFile(valid: bool, content: seq<byte>)

  /** `GameUty.FileOpen`: the entry for a name, `None` for a null result. */
  type FileSystem = string -> Option<AFile>

  /** The floor of the first allocation in `BinaryLoader` and `TextureLoader`. */
  const MinBufferSize: nat := 500000

  function Max(a: int, b: int): int { if a < b then b else a }

  /** A static `byte[]` field, passed around by `ref`. */
  class BufferSlot {
    var buffer: array?<byte>

    constructor ()
      ensures buffer == null
    {
      buffer := null;
    }

    /** Drops the buffer (the loaders' `ClearCache`). */
    method Clear()
      modifies this
      ensures buffer == null
    {
      buffer := null;
    }

    /** The growth rule: a missing buffer is allocated with `Max(floor, size)`
        bytes, a buffer shorter than `size` is replaced by one of exactly `size`
        bytes, and a long enough buffer is kept. The buffer never shrinks. */
    method Reserve(size: nat, floor: nat)
      modifies this
      ensures buffer != null && buffer.Length >= size
      ensures old(buffer) == null ==> fresh(buffer) && buffer.Length == Max(floor, size)
      ensures old(buffer) != null && old(buffer).Length < size ==> fresh(buffer) && buffer.Length == size
      ensures old(buffer) != null && old(buffer).Length >= size ==> buffer == old(buffer)
      ensures old(buffer) != null ==> buffer.Length >= old(buffer).Length
      ensures fresh(buffer) ==> forall i :: 0 <= i < buffer.Length ==> buffer[i] == 0
    {
      if buffer == null {
        buffer := new byte[Max(floor, size)](_ => 0);
      } else if buffer.Length < size {
        buffer := new byte[size](_ => 0);
      }
    }

    /** Grow the buffer by `Reserve`, then copy `content` into its front. */
    method Fill(content: seq<byte>, floor: nat)
      modifies this, buffer
      ensures Refilled(this, old(buffer), content, floor)
    {
      ghost var before := Contents(buffer);
      Reserve(|content|, floor);
      CopyInto(content, buffer);
      var n := |content|;
      assert buffer[..] == buffer[..n] + buffer[n..];
      if before.Some? && |before.value| >= n {
        assert buffer[n..] == before.value[n..];
      } else {
        assert buffer[n..] == Zeros(buffer.Length - n);
      }
    }
  }

  /** `AFileBase.Read(ref buffer, size)` and `Stream.Read(buffer, 0, size)`: the
      file's bytes are copied into the front of `buffer`; the rest keeps what it
      held. */
  method CopyInto(content: seq<byte>, buffer: array<byte>)
    requires |content| <= buffer.Length
    modifies buffer
    ensures buffer[..|content|] == content
    ensures buffer[|content|..] == old(buffer[|content|..])
  {
    for i := 0 to |content|
      invariant buffer[..i] == content[..i]
      invariant buffer[i..] == old(buffer[i..])
    {
      buffer[i] := content[i];
    }
  }

  /** The state of `slot` after `content` was loaded into it, given the buffer
      `before` it held: the growth rule of `Reserve`, the file at the front, and
      behind it the stale tail of a reused buffer or zeros in a new one. */
  twostate predicate Refilled(slot: BufferSlot, before: array?<byte>, content: seq<byte>, floor: nat)
    reads slot, slot.buffer, before
  {
    var b := slot.buffer;
    var n := |content|;
    b != null && b.Length >= n && b[..n] == content
    && (before == null ==> fresh(b) && b.Length == Max(floor, n))
    && (before != null && before.Length < n ==> fresh(b) && b.Length == n)
    && (before != null && before.Length >= n ==> b == before && b[n..] == old(before[n..]))
    && (fresh(b) ==> forall i :: n <= i < b.Length ==> b[i] == 0)
    && b[..] == ReadInto(old(Contents(before)), content, floor)
  }

  /** What a buffer holds, `None` for a null buffer. */
  function Contents(b: array?<byte>): (r: Option<seq<byte>>)
    reads b
    ensures r.Some? <==> b != null
  {
    if b == null then None else Some(b[..])
  }

  function Zeros(n: nat): (r: seq<byte>)
    ensures |r| == n && forall i :: 0 <= i < n ==> r[i] == 0
  {
    seq(n, _ => 0)
  }

  /** The bytes a loader's reader sees after `content` was loaded into a buffer
      that held `before`: the file, then zeros in a new buffer or the stale tail
      of a reused one. */
  function ReadInto(before: Option<seq<byte>>, content: seq<byte>, floor: nat): (r: seq<byte>)
    ensures |r| >= |content| && r[..|content|] == content
    ensures before.Some? && |before.value| >= |content| ==> |r| == |before.value|
  {
    match before
    case None => content + Zeros(Max(floor, |content|) - |content|)
    case Some(b) => if |b| < |content| then content else content + b[|content|..]
  }
}
