/**
 * A reference semantics for the handful of `std::fs::File` calls the harness
 * makes, and a storage root holding named files.
 *
 * The real filesystems under test are outside the program; this module gives
 * both twins one deterministic meaning: a read returns as many bytes as the
 * file holds from the offset on, up to the requested count; a write past the
 * end zero-fills the gap; `set_len` sets the exact length; a seek only sets the
 * position; a handle reopened with `File::open` is read-only.
 */
module RefFs {
  import opened Io

  /** One open file as one side sees it: the bytes, the cursor, and whether
      the handle was opened for writing. */
  datatype Handle = Handle(content: seq<Byte>, pos: nat, writable: bool)

  /** The result of a call and the handle afterwards. */
  datatype Effect<+T> = Effect(result: IoResult<T>, after: Handle)

  /** The result of a read, the caller's buffer after it, and the handle afterwards. */
  datatype ReadEffect = ReadEffect(result: IoResult<nat>, buffer: seq<Byte>, after: Handle)

  /** What `File::create_new` hands back: an empty file open for reading and writing. */
  const Fresh: Handle := Handle([], 0, true)

  function Zeros(n: nat): (z: seq<Byte>)
    ensures |z| == n
    ensures forall i :: 0 <= i < n ==> z[i] == 0
  {
    seq(n, _ => 0)
  }

  /** How many bytes one read of `count` bytes at `at` transfers. */
  function Available(content: seq<Byte>, at: nat, count: nat): (n: nat)
    ensures n <= count
    ensures n == 0 || at + n <= |content|
    // a read comes back short only at the end of the file
    ensures n < count ==> at + n >= |content|
  {
    if at >= |content| then 0
    else if count <= |content| - at then count
    else |content| - at
  }

  /** `FileExt::read_at` into a zeroed buffer of `count` bytes; the cursor does not move. */
  function ReadAtSpec(h: Handle, at: nat, count: nat): (r: ReadEffect)
    ensures r.after == h
    ensures r.result == Ok(Available(h.content, at, count))
    ensures |r.buffer| == count
    ensures forall i :: 0 <= i < count ==>
              r.buffer[i] == if i < r.result.value then h.content[at + i] else 0
  {
    var n := Available(h.content, at, count);
    ReadEffect(Ok(n), (if n == 0 then [] else h.content[at..at + n]) + Zeros(count - n), h)
  }

  /** `Read::read` into a zeroed buffer of `count` bytes: `read_at` at the cursor,
      then the cursor advances past what was read. */
  function ReadSpec(h: Handle, count: nat): (r: ReadEffect)
    ensures r.result == ReadAtSpec(h, h.pos, count).result
    ensures r.buffer == ReadAtSpec(h, h.pos, count).buffer
    ensures r.after == h.(pos := h.pos + r.result.value)
  {
    var at := ReadAtSpec(h, h.pos, count);
    ReadEffect(at.result, at.buffer, h.(pos := h.pos + at.result.value))
  }

  /** The file after `data` is stored at `at`: a gap past the old end reads as
      zeros, and storing no bytes at all has no effect, wherever `at` lies. */
  function Overwrite(content: seq<Byte>, at: nat, data: seq<Byte>): (c: seq<Byte>)
    ensures |c| == if |data| > 0 && at + |data| > |content| then at + |data| else |content|
    ensures data == [] ==> c == content
    ensures forall i :: 0 <= i < |data| ==> c[at + i] == data[i]
    ensures forall i :: 0 <= i < |c| && (i < at || at + |data| <= i) ==>
              c[i] == if i < |content| then content[i] else 0
  {
    if data == [] then content
    else
      var padded := if at <= |content| then content else content + Zeros(at - |content|);
      padded[..at] + data + (if at + |data| < |padded| then padded[at + |data|..] else [])
  }

  /** The file after `set_len(len)`: cut, or extended with zeros. */
  function Resize(content: seq<Byte>, len: nat): (c: seq<Byte>)
    ensures |c| == len
    ensures forall i :: 0 <= i < len ==> c[i] == if i < |content| then content[i] else 0
  {
    if len <= |content| then content[..len] else content + Zeros(len - |content|)
  }

  /** `Write::write`: the whole buffer at the cursor, which then moves past it;
      a read-only handle refuses with EBADF. */
  function WriteSpec(h: Handle, data: seq<Byte>): Effect<nat>
  {
    if !h.writable then Effect(Err(OsError(EBADF)), h)
    else Effect(Ok(|data|), Handle(Overwrite(h.content, h.pos, data), h.pos + |data|, true))
  }

  /** `FileExt::write_at`: the whole buffer at `at`; the cursor does not move. */
  function WriteAtSpec(h: Handle, data: seq<Byte>, at: nat): Effect<nat>
  {
    if !h.writable then Effect(Err(OsError(EBADF)), h)
    else Effect(Ok(|data|), h.(content := Overwrite(h.content, at, data)))
  }

  /** `Seek::seek(SeekFrom::Start(at))`: any position is accepted, and returned. */
  function SeekSpec(h: Handle, at: nat): Effect<nat>
  {
    Effect(Ok(at), h.(pos := at))
  }

  /** `File::set_len`: needs a handle open for writing (EINVAL otherwise). */
  function SetLenSpec(h: Handle, len: nat): Effect<()>
  {
    if !h.writable then Effect(Err(OsError(EINVAL)), h)
    else Effect(Ok(()), h.(content := Resize(h.content, len)))
  }

  /** `File::sync_all`. */
  function SyncSpec(h: Handle): IoResult<()>
  {
    Ok(())
  }

  /** The length `std::fs::metadata` reports. */
  function SizeSpec(h: Handle): IoResult<nat>
  {
    Ok(|h.content|)
  }

  /** `File::open` by path: the same bytes, a read-only handle at position 0. */
  function ReopenSpec(h: Handle): Effect<()>
  {
    Effect(Ok(()), Handle(h.content, 0, false))
  }

  /** A write of no bytes, at the cursor or anywhere past the end, succeeds
      with 0 and leaves the handle and the file as they were. */
  lemma EmptyWriteChangesNothing(h: Handle, at: nat)
    requires h.writable
    ensures WriteAtSpec(h, [], at) == Effect(Ok(0), h)
    ensures WriteSpec(h, []) == Effect(Ok(0), h)
  {
  }

  /** What `write_at` stored, `read_at` at the same offset gives back. */
  lemma ReadBackWrittenBytes(h: Handle, data: seq<Byte>, at: nat)
    requires h.writable
    ensures var w := WriteAtSpec(h, data, at);
            w.result == Ok(|data|) &&
            ReadAtSpec(w.after, at, |data|).result == Ok(|data|) &&
            ReadAtSpec(w.after, at, |data|).buffer == data
  {
    var r := ReadAtSpec(WriteAtSpec(h, data, at).after, at, |data|);
    assert |r.buffer| == |data|;
    forall i | 0 <= i < |data| ensures r.buffer[i] == data[i] { }
  }

  /** A storage root: the files it holds, by name. */
  class Dir {
    /** Whether the root is there at all. */
    const present: bool
    var files: map<string, seq<Byte>>
  }
}
