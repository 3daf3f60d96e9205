/** Size limits of the connection record: the two encoding passes and the bounded
    read. The serializer is a list of write calls; a read returns any cut. */
module ConnectionRecord {
  import opened Prelude
  import opened Text

  const MAX_RECORD_BYTES: nat := 16 * 1024 * 1024
  const NEWLINE: byte := 10

  datatype Result<+T> = Ok(value: T) | RecordTooLarge | EncodeFailed | IoFailed

  function Concat(chunks: seq<Bytes>): Bytes {
    if chunks == [] then [] else Concat(chunks[..|chunks| - 1]) + chunks[|chunks| - 1]
  }

  lemma {:induction false} ConcatGrows(chunks: seq<Bytes>, i: nat)
    requires i <= |chunks|
    ensures |Concat(chunks[..i])| <= |Concat(chunks)|
    decreases |chunks| - i
  {
    if i == |chunks| {
      assert chunks[..i] == chunks;
    } else {
      ConcatGrows(chunks, i + 1);
      assert chunks[..i + 1][..i] == chunks[..i];
    }
  }

  /** Counts serialized bytes, keeping room for the final newline. */
  class RecordSize {
    var len: nat
    var exceeded: bool

    constructor ()
      ensures len == 0 && !exceeded
    {
      len, exceeded := 0, false;
    }

    method Write(bytes: Bytes) returns (ok: bool)
      requires len < MAX_RECORD_BYTES
      modifies this
      ensures ok == (old(len) + |bytes| < MAX_RECORD_BYTES)
      ensures ok ==> len == old(len) + |bytes| && exceeded == old(exceeded)
      ensures !ok ==> len == old(len) && exceeded
    {
      if len + |bytes| >= MAX_RECORD_BYTES {
        exceeded := true;
        return false;
      }
      len := len + |bytes|;
      ok := true;
    }
  }

  /** A buffer that is never reallocated. */
  class RecordBuffer {
    var bytes: Bytes
    const limit: nat

    constructor (limit: nat)
      ensures this.limit == limit && bytes == []
    {
      this.limit, bytes := limit, [];
    }

    method Write(chunk: Bytes) returns (ok: bool)
      requires |bytes| <= limit
      modifies this`bytes
      ensures ok == (|old(bytes)| + |chunk| <= limit)
      ensures bytes == if ok then old(bytes) + chunk else old(bytes)
    {
      if |chunk| > limit - |bytes| {
        return false;
      }
      bytes := bytes + chunk;
      ok := true;
    }
  }

  /** Accepts exactly the records that fit with their newline; the second pass
      fills the buffer the first one sized, to the byte. */
  method Encode(chunks: seq<Bytes>) returns (r: Result<Bytes>)
    ensures r.Ok? <==> |Concat(chunks)| + 1 <= MAX_RECORD_BYTES
    ensures r.Ok? ==> r.value == Concat(chunks) + [NEWLINE]
    ensures !r.Ok? ==> r.RecordTooLarge?
  {
    var size := new RecordSize();
    for i := 0 to |chunks|
      invariant size.len == |Concat(chunks[..i])| < MAX_RECORD_BYTES && !size.exceeded
    {
      var ok := size.Write(chunks[i]);
      assert chunks[..i + 1][..i] == chunks[..i];
      if !ok {
        ConcatGrows(chunks, i + 1);
        return if size.exceeded then RecordTooLarge else EncodeFailed;
      }
    }
    assert chunks[..|chunks|] == chunks;
    var buffer := new RecordBuffer(size.len + 1);
    for i := 0 to |chunks|
      invariant buffer.bytes == Concat(chunks[..i]) && |buffer.bytes| < buffer.limit
    {
      assert chunks[..i + 1][..i] == chunks[..i];
      ConcatGrows(chunks, i + 1);
      var ok := buffer.Write(chunks[i]);
      if !ok {
        return EncodeFailed;
      }
    }
    r := Ok(buffer.bytes + [NEWLINE]);
  }

  method BoundedCapacity(len: nat) returns (r: Result<nat>)
    ensures r == if len <= MAX_RECORD_BYTES then Ok(len) else RecordTooLarge
  {
    r := if len > MAX_RECORD_BYTES then RecordTooLarge else Ok(len);
  }

  /** An open file: what is left of it, read in arbitrary pieces. */
  class Reader {
    var rest: Bytes

    constructor (content: Bytes)
      ensures rest == content
    {
      rest := content;
    }

    method Read(limit: nat) returns (chunk: Option<Bytes>)
      requires limit > 0
      modifies this
      ensures chunk.None? ==> rest == old(rest)
      ensures chunk.Some? ==> chunk.value + rest == old(rest) && |chunk.value| <= limit
      ensures chunk.Some? ==> (chunk.value == [] <==> old(rest) == [])
    {
      if * {
        return None;
      }
      if rest == [] {
        return Some([]);
      }
      var n: nat :| 1 <= n <= limit && n <= |rest|;
      chunk := Some(rest[..n]);
      rest := rest[n..];
    }
  }

  /** Returns the whole file for every cut into reads, whatever capacity the
      caller guessed, and never copies past the capacity it holds. */
  method ReadBounded(reader: Reader, guess: nat) returns (r: Result<Bytes>, capacity: nat)
    requires guess <= MAX_RECORD_BYTES
    modifies reader
    ensures r.Ok? ==> r.value == old(reader.rest) && |r.value| <= capacity
    ensures r.RecordTooLarge? ==> |old(reader.rest)| > MAX_RECORD_BYTES
    ensures r.Ok? || r.RecordTooLarge? || r.IoFailed?
    ensures guess <= capacity <= MAX_RECORD_BYTES
  {
    var bytes: Bytes := [];
    capacity := guess;
    while true
      invariant bytes + reader.rest == old(reader.rest)
      invariant |bytes| <= capacity && guess <= capacity <= MAX_RECORD_BYTES
      decreases |reader.rest|
    {
      var chunk := reader.Read(8192);
      if chunk.None? {
        return IoFailed, capacity;
      }
      if chunk.value == [] {
        return Ok(bytes), capacity;
      }
      var nextLen := |bytes| + |chunk.value|;
      if nextLen > MAX_RECORD_BYTES {
        return RecordTooLarge, capacity;
      }
      if nextLen > capacity {
        capacity := Min(Max(capacity * 2, nextLen), MAX_RECORD_BYTES);
      }
      assert nextLen <= capacity;
      assert bytes + chunk.value + reader.rest == bytes + (chunk.value + reader.rest);
      bytes := bytes + chunk.value;
    }
  }

  /** What encoding accepts passes both read limits and is read back whole. */
  method EncodedReadsBack(chunks: seq<Bytes>) returns (encoded: Result<Bytes>, read: Result<Bytes>)
    ensures encoded.Ok? ==> read.IoFailed? || read == encoded
    ensures encoded.Ok? ==> encoded.value == Concat(chunks) + [NEWLINE]
  {
    encoded := Encode(chunks);
    read := IoFailed;
    if encoded.Ok? {
      var capacity := BoundedCapacity(|encoded.value|);
      var file := new Reader(encoded.value);
      var whole, held := ReadBounded(file, capacity.value);
      read := whole;
    }
  }
}
