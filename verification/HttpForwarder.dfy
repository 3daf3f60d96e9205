/** The buffer-driven forwarding loop, proved to do what `HttpStream.Forward`
    says for every way the client's bytes are cut into reads. */
module HttpForwarder {
  import opened Prelude
  import opened Text
  import opened HttpText
  import opened Utf8
  import opened HttpMessage
  import opened HttpStream

  const MAX_HEADER_BYTES: nat := 128 * 1024
  const READ_BYTES: nat := 4096

  /** Read and write errors, the head size limit (which depends on where reads
      fall), or a malformed stream. */
  datatype Error = Io | HeadTooLong | Malformed(why: Failure)

  datatype Result<+T> = Ok(value: T) | Err(error: Error)

  // ----- Reading and rewriting one head -----

  method ParseRequestMetadata(head: Bytes) returns (r: Result<Meta>)
    ensures r == if ValidUtf8(head) then Ok(MetaOf(Lines(head))) else Err(Malformed(HeadNotUtf8))
  {
    hide FieldName, FieldValue, HasColon, Contains, ParseUsize, ValidUtf8;
    hide AnyChunked, LastLength, FirstWord, AfterFirstWord;
    assert AnyChunked([]) == false && LastLength([]) == None by { NoFields(); }
    if !ValidUtf8(head) {
      return Err(Malformed(HeadNotUtf8));
    }
    var lines := Lines(head);
    var verb := FirstWord(lines[0]);
    var target := FirstWord(AfterFirstWord(lines[0]));
    var transferChunked := false;
    var contentLength: Option<nat> := None;
    var fields := lines[1..];
    for i := 0 to |fields|
      invariant transferChunked == AnyChunked(fields[..i])
      invariant contentLength == LastLength(fields[..i])
    {
      var line := fields[i];
      FramingStep(fields, i);
      if HasColon(line) {
        var name, value := FieldName(line), FieldValue(line);
        if name == TRANSFER_ENCODING && Contains(Lower(value), CHUNKED) {
          transferChunked := true;
        } else if name == CONTENT_LENGTH {
          contentLength := ParseUsize(value, 10);
        }
      }
    }
    assert fields[..|fields|] == fields;
    var framing :=
      if transferChunked then Chunked
      else if contentLength.Some? then
        if contentLength.value == 0 then NoBody else Length(contentLength.value)
      else NoBody;
    r := Ok(Meta(verb, target, framing));
  }

  lemma NoFields()
    ensures !AnyChunked([]) && LastLength([]) == None
  {
  }

  lemma FramingStep(fields: seq<Bytes>, i: nat)
    requires i < |fields|
    ensures AnyChunked(fields[..i + 1]) <==> AnyChunked(fields[..i]) || IsChunkedLine(fields[i])
    ensures LastLength(fields[..i + 1]) ==
            if IsLengthLine(fields[i]) then ParseUsize(FieldValue(fields[i]), 10)
            else LastLength(fields[..i])
    ensures !(IsChunkedLine(fields[i]) && IsLengthLine(fields[i]))
  {
    assert fields[..i + 1] == fields[..i] + [fields[i]];
    assert |TRANSFER_ENCODING| == 17 && |CONTENT_LENGTH| == 14;
  }

  method ReplaceAttributionHeaders(head: Bytes, headers: seq<Header>) returns (rebuilt: Bytes)
    ensures rebuilt == Rewrite(head, headers)
  {
    var lines := Lines(head);
    var names := set h | h in headers :: Lower(h.name);
    var fields := lines[1..];
    rebuilt := lines[0] + CRLF;
    UnlinesOne(lines[0]);
    ghost var done := [lines[0]];
    for i := 0 to |fields|
      invariant rebuilt == Unlines(done)
      invariant done == [lines[0]] + KeepLines(fields[..i], headers)
    {
      var line := fields[i];
      KeepStep(fields, i, headers);
      if line == [] {
        continue;
      }
      if HasColon(line) && FieldName(line) in names {
        continue;
      }
      UnlinesPush(done, line);
      rebuilt := rebuilt + (line + CRLF);
      done := done + [line];
    }
    assert fields[..|fields|] == fields;
    rebuilt := AppendHeaders(rebuilt, headers, done);
  }

  method AppendHeaders(kept: Bytes, headers: seq<Header>, ghost lines: seq<Bytes>) returns (rebuilt: Bytes)
    requires kept == Unlines(lines)
    ensures rebuilt == Unlines(lines + HeaderLines(headers))
  {
    rebuilt := kept;
    ghost var done := lines;
    for i := 0 to |headers|
      invariant rebuilt == Unlines(done)
      invariant done == lines + HeaderLines(headers)[..i]
    {
      var line := headers[i].name + [COLON, 32] + headers[i].value;
      UnlinesPush(done, line);
      rebuilt := rebuilt + (line + CRLF);
      done := done + [line];
    }
    assert HeaderLines(headers)[..|headers|] == HeaderLines(headers);
  }

  lemma KeepStep(fields: seq<Bytes>, i: nat, headers: seq<Header>)
    requires i < |fields|
    ensures KeepLines(fields[..i + 1], headers) ==
            KeepLines(fields[..i], headers) + if Kept(fields[i], headers) then [fields[i]] else []
  {
    assert fields[..i + 1][..i] == fields[..i];
  }

  lemma UnlinesPush(lines: seq<Bytes>, line: Bytes)
    ensures Unlines(lines + [line]) == Unlines(lines) + (line + CRLF)
  {
    UnlinesAppend(lines, [line]);
    UnlinesOne(line);
  }

  lemma UnlinesOne(line: Bytes)
    ensures Unlines([line]) == line + CRLF
  {
    assert Unlines([line][1..]) == [];
  }

  // ----- Bodies -----

  /** Where forwarding a body must end: upstream bytes, unread stream, ending. */
  datatype Goal = Goal(sent: Bytes, rest: Bytes, ending: Ending)

  ghost function GoalOf(sent: Bytes, stream: Bytes, scan: BodyScan): Goal
    requires scan.count <= |stream|
  {
    Goal(sent + stream[..scan.count], stream[scan.count..], scan.ending)
  }

  /** Passing on `n` bytes leaves the goal where it is. */
  lemma GoalStays(sent: Bytes, stream: Bytes, n: nat, scan: BodyScan)
    requires n + scan.count <= |stream|
    ensures GoalOf(sent + stream[..n], stream[n..], scan) == GoalOf(sent, stream, Shift(n, scan))
  {
    assert stream[..n + scan.count] == stream[..n] + stream[n..][..scan.count];
  }

  lemma PartOfGoal(sent: Bytes, stream: Bytes, n: nat, scan: BodyScan, now: Bytes)
    requires n <= scan.count <= |stream| && sent <= now <= sent + stream[..n]
    ensures sent <= now <= GoalOf(sent, stream, scan).sent
  {
    assert stream[..scan.count] == stream[..n] + stream[n..scan.count];
  }

  ghost predicate Reached(goal: Goal, before: Bytes, r: Result<()>, sent: Bytes, stream: Bytes) {
    match r
    case Ok(_) => goal == Goal(sent, stream, Done)
    case Err(Malformed(why)) => goal.sent == sent && goal.ending == Failed(why)
    case Err(Io) => before <= sent <= goal.sent
    case Err(HeadTooLong) => false
  }

  /** The head at the front of the stream does not end within the limit. */
  ghost predicate HeadPastLimit(stream: Bytes) {
    |stream| > MAX_HEADER_BYTES &&
    (FindTerminator(stream).None? || FindTerminator(stream).value + 4 > MAX_HEADER_BYTES)
  }

  /** A run that stopped early with `rest` not yet taken: exact for a malformed
      stream; in front of a head past the limit, everything before that head is
      done; otherwise a part of what the whole stream calls for. */
  ghost predicate Stopped(target: Outcome, error: Error, sent: Bytes, requests: seq<Request>,
                          rest: Bytes, headers: seq<Header>) {
    match error
    case Malformed(why) => target == Outcome(sent, requests, Failed(why))
    case HeadTooLong => HeadPastLimit(rest) && target == Then(sent, requests, Forward(rest, headers))
    case Io => sent <= target.sent && requests <= target.requests
  }

  lemma ThenThen(a: Bytes, b: Bytes, r: seq<Request>, q: seq<Request>, o: Outcome)
    ensures Then(a, r, Then(b, q, o)) == Then(a + b, r + q, o)
  {
  }

  /** The target of a message body in terms of its framed part. */
  lemma BodyTarget(sent: Bytes, requests: seq<Request>, meta: Meta, stream: Bytes, headers: seq<Header>)
    ensures var goal := GoalOf(sent, stream, ScanBody(meta.framing, stream));
            var target := Then(sent, requests, ForwardBody(meta, stream, headers));
            && goal.sent <= target.sent && requests <= target.requests
            && (goal.ending.Failed? ==> target == Outcome(goal.sent, requests, goal.ending))
            && (goal.ending.Done? && IsConnect(meta.verb) ==>
                  target == Outcome(goal.sent + goal.rest, requests, Done))
            && (goal.ending.Done? && !IsConnect(meta.verb) ==>
                  target == Then(goal.sent, requests, Forward(goal.rest, headers)))
  {
    var n := ScanBody(meta.framing, stream).count;
    var after := if ScanBody(meta.framing, stream).ending.Failed? then
                   Outcome([], [], ScanBody(meta.framing, stream).ending)
                 else if IsConnect(meta.verb) then Outcome(stream[n..], [], Done)
                 else Forward(stream[n..], headers);
    ThenThen(sent, stream[..n], requests, [], after);
    assert requests + [] == requests;
  }

  /** A head not ended in the buffer ends after it. */
  lemma EndsLater(buffer: Bytes, unread: Bytes)
    requires FindTerminator(buffer).None?
    ensures FindTerminator(buffer + unread).Some? ==> FindTerminator(buffer + unread).value + 4 > |buffer|
  {
    FindTerminatorIsFirst(buffer, None);
    assert forall i | 0 <= i <= |buffer| - 4 :: TerminatorAt(buffer + unread, i) == TerminatorAt(buffer, i);
  }

  class Forwarder {
    var unread: Bytes              // what the client has still to deliver
    var buffer: Bytes              // read from the client, not yet forwarded
    var sent: Bytes                // written upstream
    var requests: seq<Request>     // reported to the observer

    constructor (stream: Bytes)
      ensures unread == stream && buffer == [] && sent == [] && requests == []
    {
      unread, buffer, sent, requests := stream, [], [], [];
    }

    ghost function Stream(): Bytes
      reads this`buffer, this`unread
    {
      buffer + unread
    }

    /** One read of any positive size up to `limit`, or an error; an empty
        result means the stream has ended. */
    method Read(limit: nat) returns (r: Result<Bytes>)
      requires limit > 0
      modifies this`unread
      ensures r.Err? ==> r.error == Io && unread == old(unread)
      ensures r.Ok? ==> r.value + unread == old(unread) && |r.value| <= limit
      ensures r.Ok? ==> (r.value == [] <==> old(unread) == [])
    {
      if * {
        return Err(Io);
      }
      if unread == [] {
        return Ok([]);
      }
      var n: nat :| 1 <= n <= limit && n <= |unread|;
      r := Ok(unread[..n]);
      unread := unread[n..];
    }

    /** Writes everything, or fails after any prefix. */
    method WriteAll(bytes: Bytes) returns (ok: bool)
      modifies this`sent
      ensures ok ==> sent == old(sent) + bytes
      ensures !ok ==> old(sent) <= sent <= old(sent) + bytes
    {
      ok := *;
      var k: nat := |bytes|;
      if !ok {
        k :| 0 <= k <= |bytes|;
      }
      sent := sent + bytes[..k];
    }

    /** Writes the first `n` buffered bytes and drops them from the buffer. */
    method Pass(n: nat) returns (ok: bool)
      requires n <= |buffer|
      modifies this`sent, this`buffer
      ensures ok ==> sent == old(sent) + old(Stream())[..n] && Stream() == old(Stream())[n..]
      ensures !ok ==> old(sent) <= sent <= old(sent) + old(Stream())[..n] && buffer == old(buffer)
    {
      assert Stream()[..n] == buffer[..n];
      ok := WriteAll(buffer[..n]);
      if ok {
        buffer := buffer[n..];
      }
    }

    method ReadUntilHeaderBlock() returns (r: Result<Option<nat>>)
      modifies this`unread, this`buffer
      ensures Stream() == old(Stream())
      ensures r.Ok? && r.value.Some? ==>
                FindTerminator(Stream()) == r.value && r.value.value + 4 <= |buffer|
      ensures r.Ok? && r.value.None? ==> Stream() == []
      ensures r.Err? && r.error.Malformed? ==>
                r.error.why == EofInHead && FindTerminator(Stream()).None? && Stream() != []
      ensures r.Ok? && r.value.Some? ==> r.value.value + 4 <= Max(MAX_HEADER_BYTES, |old(buffer)|) + READ_BYTES
      ensures r == Err(HeadTooLong) ==>
                |buffer| > MAX_HEADER_BYTES && FindTerminator(buffer).None? && HeadPastLimit(Stream())
    {
      var found := FindTerminator(buffer);
      if found.Some? {
        FindTerminatorExtends(buffer, unread);
        return Ok(found);
      }
      while true
        invariant Stream() == old(Stream())
        invariant FindTerminator(buffer).None? && |buffer| <= Max(MAX_HEADER_BYTES, |old(buffer)|)
        decreases |unread|
      {
        var read := Read(READ_BYTES);
        if read.Err? {
          return Err(Io);
        }
        if read.value == [] {
          assert Stream() == buffer;
          if buffer == [] {
            return Ok(None);
          }
          return Err(Malformed(EofInHead));
        }
        assert buffer + read.value + unread == buffer + (read.value + unread);
        buffer := buffer + read.value;
        found := FindTerminator(buffer);
        if found.Some? {
          FindTerminatorExtends(buffer, unread);
          return Ok(found);
        }
        if |buffer| > MAX_HEADER_BYTES {
          EndsLater(buffer, unread);
          return Err(HeadTooLong);
        }
      }
    }

    method ReadUntilCrlf() returns (r: Result<nat>)
      modifies this`unread, this`buffer
      ensures Stream() == old(Stream())
      ensures r.Ok? ==> FindCrlf(Stream()) == Some(r.value) && r.value + 2 <= |buffer|
      ensures r.Err? ==> r.error == Io || (r.error == Malformed(EofInChunkLine) && FindCrlf(Stream()).None?)
    {
      var found := FindCrlf(buffer);
      if found.Some? {
        FindCrlfExtends(buffer, unread);
        return Ok(found.value);
      }
      while true
        invariant Stream() == old(Stream())
        invariant FindCrlf(buffer).None?
        decreases |unread|
      {
        var read := Read(1024);
        if read.Err? {
          return Err(Io);
        }
        if read.value == [] {
          assert Stream() == buffer;
          return Err(Malformed(EofInChunkLine));
        }
        assert buffer + read.value + unread == buffer + (read.value + unread);
        buffer := buffer + read.value;
        found := FindCrlf(buffer);
        if found.Some? {
          FindCrlfExtends(buffer, unread);
          return Ok(found.value);
        }
      }
    }

    method EnsureBuffered(needed: nat) returns (r: Result<()>)
      modifies this`unread, this`buffer
      ensures Stream() == old(Stream())
      ensures r.Ok? ==> needed <= |buffer|
      ensures r.Err? ==> r.error == Io || (r.error == Malformed(EofInChunk) && |Stream()| < needed)
    {
      while |buffer| < needed
        invariant Stream() == old(Stream())
        decreases |unread|
      {
        var read := Read(READ_BYTES);
        if read.Err? {
          return Err(Io);
        }
        if read.value == [] {
          return Err(Malformed(EofInChunk));
        }
        assert buffer + read.value + unread == buffer + (read.value + unread);
        buffer := buffer + read.value;
      }
      r := Ok(());
    }

    method CopyExactBytes(count: nat) returns (r: Result<()>)
      modifies this`unread, this`sent
      ensures Reached(GoalOf(old(sent), old(unread), ScanBody(Length(count), old(unread))),
                      old(sent), r, sent, unread)
    {
      var left: nat := count;
      ghost var goal := GoalOf(sent, unread, ScanBody(Length(count), unread));
      while left > 0
        invariant GoalOf(sent, unread, ScanBody(Length(left), unread)) == goal
        invariant old(sent) <= sent
      {
        ghost var stream, now := unread, sent;
        var read := Read(Min(8192, left));
        if read.Err? {
          return Err(Io);
        }
        if read.value == [] {
          return Err(Malformed(EofInBody));
        }
        ghost var n := |read.value|;
        assert stream[..n] == read.value && stream[n..] == unread;
        var ok := WriteAll(read.value);
        if !ok {
          PartOfGoal(now, stream, n, ScanBody(Length(left), stream), sent);
          return Err(Io);
        }
        GoalStays(now, stream, n, ScanBody(Length(left - n), unread));
        left := left - |read.value|;
      }
      r := Ok(());
    }

    /** One trailer line; the result says whether it was the blank one. */
    method ForwardTrailerLine(ghost goal: Goal) returns (blank: Result<bool>)
      requires GoalOf(sent, Stream(), ScanTrailers(Stream())) == goal
      modifies this`unread, this`buffer, this`sent
      ensures old(sent) <= sent && |Stream()| <= |old(Stream())|
      ensures blank == Ok(false) ==>
                GoalOf(sent, Stream(), ScanTrailers(Stream())) == goal && |Stream()| < |old(Stream())|
      ensures blank == Ok(true) ==> goal == Goal(sent, Stream(), Done)
      ensures blank.Err? ==> Reached(goal, old(sent), Err(blank.error), sent, Stream())
    {
      hide ScanTrailers, FindCrlf;
      TrailersStep(Stream());
      ghost var stream, now := Stream(), sent;
      var end := ReadUntilCrlf();
      if end.Err? {
        return Err(end.error);
      }
      var ok := Pass(end.value + 2);
      if !ok {
        PartOfGoal(now, stream, end.value + 2, ScanTrailers(stream), sent);
        return Err(Io);
      }
      if end.value != 0 {
        GoalStays(now, stream, end.value + 2, ScanTrailers(Stream()));
      }
      blank := Ok(end.value == 0);
    }

    method ForwardTrailers() returns (r: Result<()>)
      modifies this`unread, this`buffer, this`sent
      ensures Reached(GoalOf(old(sent), old(Stream()), ScanTrailers(old(Stream()))),
                      old(sent), r, sent, Stream())
    {
      ghost var goal := GoalOf(sent, Stream(), ScanTrailers(Stream()));
      while true
        invariant GoalOf(sent, Stream(), ScanTrailers(Stream())) == goal
        invariant old(sent) <= sent
        decreases |Stream()|
      {
        var blank := ForwardTrailerLine(goal);
        if blank.Err? {
          return Err(blank.error);
        }
        if blank.value {
          return Ok(());
        }
      }
    }

    method ForwardChunkedBody() returns (r: Result<()>)
      modifies this`unread, this`buffer, this`sent
      ensures Reached(GoalOf(old(sent), old(Stream()), ScanChunks(old(Stream()))),
                      old(sent), r, sent, Stream())
    {
      ghost var goal := GoalOf(sent, Stream(), ScanChunks(Stream()));
      while true
        invariant GoalOf(sent, Stream(), ScanChunks(Stream())) == goal
        invariant old(sent) <= sent
        decreases |Stream()|
      {
        var size := ForwardChunkLine(goal);
        if size.Err? {
          return Err(size.error);
        }
        if size.value == 0 {
          r := ForwardTrailers();
          return;
        }
        var data := ForwardChunkData(size.value, goal);
        if data.Err? {
          return data;
        }
      }
    }

    /** Reads, checks and passes on one chunk-size line. */
    method ForwardChunkLine(ghost goal: Goal) returns (size: Result<nat>)
      requires GoalOf(sent, Stream(), ScanChunks(Stream())) == goal
      modifies this`unread, this`buffer, this`sent
      ensures old(sent) <= sent
      ensures size.Ok? ==>
                |Stream()| < |old(Stream())| &&
                GoalOf(sent, Stream(), AfterChunkLine(size.value, Stream())) == goal
      ensures size.Err? ==> Reached(goal, old(sent), Err(size.error), sent, Stream())
    {
      hide ScanChunks, AfterChunkLine, FindCrlf, ChunkSize;
      ChunksStep(Stream());
      ghost var stream, now := Stream(), sent;
      var end := ReadUntilCrlf();
      if end.Err? {
        return Err(end.error);
      }
      assert buffer[..end.value] == stream[..end.value];
      var parsed := ChunkSize(buffer[..end.value]);
      if parsed.None? {
        return Err(Malformed(BadChunkSize));
      }
      var ok := Pass(end.value + 2);
      if !ok {
        PartOfGoal(now, stream, end.value + 2, ScanChunks(stream), sent);
        return Err(Io);
      }
      GoalStays(now, stream, end.value + 2, AfterChunkLine(parsed.value, Stream()));
      size := Ok(parsed.value);
    }

    /** Buffers and passes on the data of one chunk and its line end. */
    method ForwardChunkData(size: nat, ghost goal: Goal) returns (r: Result<()>)
      requires size > 0 && GoalOf(sent, Stream(), AfterChunkLine(size, Stream())) == goal
      modifies this`unread, this`buffer, this`sent
      ensures old(sent) <= sent
      ensures r.Ok? ==>
                |Stream()| < |old(Stream())| && GoalOf(sent, Stream(), ScanChunks(Stream())) == goal
      ensures r.Err? ==> Reached(goal, old(sent), r, sent, Stream())
    {
      if size + 2 > USIZE_MAX {
        return Err(Malformed(ChunkTooLarge));
      }
      ghost var stream, now := Stream(), sent;
      var buffered := EnsureBuffered(size + 2);
      if buffered.Err? {
        return Err(buffered.error);
      }
      var ok := Pass(size + 2);
      if !ok {
        PartOfGoal(now, stream, size + 2, AfterChunkLine(size, stream), sent);
        return Err(Io);
      }
      GoalStays(now, stream, size + 2, ScanChunks(Stream()));
      r := Ok(());
    }

    method ForwardFramed(framing: Framing) returns (r: Result<()>)
      modifies this`unread, this`buffer, this`sent
      ensures Reached(GoalOf(old(sent), old(Stream()), ScanBody(framing, old(Stream()))),
                      old(sent), r, sent, Stream())
    {
      match framing {
        case NoBody => r := Ok(());
        case Length(count) => r := ForwardCounted(count);
        case Chunked => r := ForwardChunkedBody();
      }
    }

    /** Passes on what is already buffered of a body of known length. */
    method ForwardBuffered(count: nat) returns (left: Result<nat>)
      modifies this`buffer, this`sent
      ensures old(sent) <= sent
      ensures var goal := GoalOf(old(sent), old(Stream()), ScanBody(Length(count), old(Stream())));
              && (left.Ok? ==>
                    (left.value == 0 || buffer == []) &&
                    GoalOf(sent, Stream(), ScanBody(Length(left.value), Stream())) == goal)
              && (left.Err? ==> left.error.Io? && sent <= goal.sent)
    {
      if buffer == [] {
        return Ok(count);
      }
      ghost var stream, now := Stream(), sent;
      var take := Min(|buffer|, count);
      var ok := Pass(take);
      if !ok {
        PartOfGoal(now, stream, take, ScanBody(Length(count), stream), sent);
        return Err(Io);
      }
      GoalStays(now, stream, take, ScanBody(Length(count - take), Stream()));
      left := Ok(count - take);
    }

    /** A body of known length: first what is buffered, then straight through. */
    method ForwardCounted(count: nat) returns (r: Result<()>)
      modifies this`unread, this`buffer, this`sent
      ensures Reached(GoalOf(old(sent), old(Stream()), ScanBody(Length(count), old(Stream()))),
                      old(sent), r, sent, Stream())
    {
      var left := ForwardBuffered(count);
      if left.Err? {
        return Err(left.error);
      }
      ghost var waiting := buffer;
      assert waiting == [] ==> Stream() == unread;
      r := CopyExactBytes(left.value);
      assert waiting == [] ==> Stream() == unread;
    }

    /** The body of one message and, after CONNECT, everything else. The result
        says whether the connection is finished. */
    method ForwardMessageBody(meta: Meta, headers: seq<Header>) returns (finished: Result<bool>)
      modifies this`unread, this`buffer, this`sent
      ensures var target := Then(old(sent), requests, ForwardBody(meta, old(Stream()), headers));
              && (finished == Ok(true) ==> target == Outcome(sent, requests, Done))
              && (finished == Ok(false) ==>
                    target == Then(sent, requests, Forward(Stream(), headers)) &&
                    |Stream()| <= |old(Stream())|)
              && (finished.Err? ==> Stopped(target, finished.error, sent, requests, Stream(), headers))
    {
      BodyTarget(sent, requests, meta, Stream(), headers);
      var framed := ForwardFramed(meta.framing);
      if framed.Err? {
        return Err(framed.error);
      }
      if !IsConnect(meta.verb) {
        return Ok(false);
      }
      var copied := CopyTail();
      finished := if copied then Ok(true) else Err(Io);
    }

    /** Flushes the buffer and copies the rest of the stream. */
    method CopyTail() returns (ok: bool)
      modifies this`unread, this`buffer, this`sent
      ensures ok ==> sent == old(sent) + old(Stream())
      ensures !ok ==> old(sent) <= sent <= old(sent) + old(Stream())
    {
      ghost var total := sent + Stream();
      if buffer != [] {
        ok := WriteAll(buffer);
        if !ok {
          return;
        }
        buffer := [];
      }
      while true
        invariant buffer == [] && sent + unread == total && old(sent) <= sent
        decreases |unread|
      {
        var read := Read(8192);
        if read.Err? {
          return false;
        }
        if read.value == [] {
          return true;
        }
        ghost var now := sent;
        ok := WriteAll(read.value);
        assert now + (read.value + unread) == now + read.value + unread;
        if !ok {
          return;
        }
      }
    }

    /** Takes one head off the buffer, reports it and writes it rewritten. */
    method ForwardHead(headerEnd: nat, headers: seq<Header>) returns (meta: Result<Meta>)
      requires FindTerminator(Stream()) == Some(headerEnd) && headerEnd + 4 <= |buffer|
      modifies this`buffer, this`sent, this`requests
      ensures var target := Then(old(sent), old(requests), Forward(old(Stream()), headers));
              && (meta.Ok? ==>
                    target == Then(sent, requests, ForwardBody(meta.value, Stream(), headers)) &&
                    |Stream()| < |old(Stream())|)
              && (meta.Err? ==> Stopped(target, meta.error, sent, requests, Stream(), headers))
    {
      hide ForwardBody, MetaOf, Lines, Rewrite, ValidUtf8, FindTerminator;
      ghost var stream, now, reported := Stream(), sent, requests;
      var request := buffer[..headerEnd];
      buffer := buffer[headerEnd + 4..];
      assert stream[..headerEnd] == request && stream[headerEnd + 4..] == Stream();
      meta := ParseRequestMetadata(request);
      if meta.Err? {
        return;
      }
      var seen := Request(meta.value.verb, meta.value.target);
      requests := requests + [seen];
      var rebuilt := ReplaceAttributionHeaders(request, headers);
      ThenThen(now, rebuilt + CRLF, reported, [seen], ForwardBody(meta.value, Stream(), headers));
      assert now + (rebuilt + CRLF) == now + rebuilt + CRLF;
      var ok := WriteAll(rebuilt);
      if !ok {
        return Err(Io);
      }
      ok := WriteAll(CRLF);
      if !ok {
        return Err(Io);
      }
    }

    /** One turn of the connection loop. */
    method ForwardRequest(headers: seq<Header>) returns (finished: Result<bool>)
      modifies this
      ensures var target := Then(old(sent), old(requests), Forward(old(Stream()), headers));
              && (finished == Ok(true) ==> target == Outcome(sent, requests, Done))
              && (finished == Ok(false) ==>
                    target == Then(sent, requests, Forward(Stream(), headers)) &&
                    |Stream()| < |old(Stream())|)
              && (finished.Err? ==> Stopped(target, finished.error, sent, requests, Stream(), headers))
    {
      var found := ReadUntilHeaderBlock();
      if found.Err? {
        return Err(found.error);
      }
      if found.value.None? {
        return Ok(true);
      }
      var meta := ForwardHead(found.value.value, headers);
      if meta.Err? {
        return Err(meta.error);
      }
      finished := ForwardMessageBody(meta.value, headers);
    }

    /** Forwards every request of the connection. Whatever the reads, a run that
        ends normally or on a malformed stream writes and reports exactly what
        the stream calls for; one that meets the limit did so up to a head longer
        than that; any other run writes and reports a part of it. */
    method ForwardRequests(headers: seq<Header>) returns (r: Result<()>)
      requires buffer == [] && sent == [] && requests == []
      modifies this
      ensures r.Ok? ==> Forward(old(unread), headers) == Outcome(sent, requests, Done)
      ensures r.Err? ==> Stopped(Forward(old(unread), headers), r.error, sent, requests, Stream(), headers)
    {
      assert Stream() == unread;
      while true
        invariant Then(sent, requests, Forward(Stream(), headers)) == Forward(old(unread), headers)
        decreases |Stream()|
      {
        var finished := ForwardRequest(headers);
        if finished.Err? {
          return Err(finished.error);
        }
        if finished.value {
          return Ok(());
        }
      }
    }
  }

  // ----- Theorems about whole runs -----

  /** Any two ways of cutting one stream into reads agree, when both succeed. */
  method CutsDoNotMatter(stream: Bytes, headers: seq<Header>)
    returns (r1: Result<()>, sent1: Bytes, requests1: seq<Request>,
             r2: Result<()>, sent2: Bytes, requests2: seq<Request>)
    ensures r1.Ok? && r2.Ok? ==> sent1 == sent2 && requests1 == requests2
    ensures r1.Ok? && r2.Err? ==> !r2.error.Malformed? && sent2 <= sent1 && requests2 <= requests1
  {
    var one := new Forwarder(stream);
    r1 := one.ForwardRequests(headers);
    sent1, requests1 := one.sent, one.requests;
    var two := new Forwarder(stream);
    r2 := two.ForwardRequests(headers);
    sent2, requests2 := two.sent, two.requests;
  }

  /** Forwarding the forwarder's own output again reproduces it. */
  method OutputIsStable(stream: Bytes, headers: seq<Header>)
    returns (r1: Result<()>, sent1: Bytes, requests1: seq<Request>,
             r2: Result<()>, sent2: Bytes, requests2: seq<Request>)
    requires AllWellFormed(headers)
    ensures r1.Ok? && r2.Ok? ==> sent2 == sent1 && requests2 == requests1
    ensures r1.Ok? && r2.Err? ==> !r2.error.Malformed?
  {
    var one := new Forwarder(stream);
    r1 := one.ForwardRequests(headers);
    sent1, requests1 := one.sent, one.requests;
    if r1.Ok? {
      ForwardTwice(stream, headers);
    }
    var two := new Forwarder(sent1);
    r2 := two.ForwardRequests(headers);
    sent2, requests2 := two.sent, two.requests;
  }
}
