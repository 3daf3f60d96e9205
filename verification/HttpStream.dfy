/** What forwarding a whole client byte stream means, independent of how the
    bytes arrive: bodies framed by length or chunks (sections 6.3 and 7.1 of
    RFC 9112), pipelined requests and the CONNECT tail. */
module HttpStream {
  import opened Prelude
  import opened Text
  import opened HttpText
  import opened Utf8
  import opened HttpMessage

  datatype Failure =
    | EofInHead
    | HeadNotUtf8
    | EofInBody
    | EofInChunk
    | EofInChunkLine
    | BadChunkSize
    | ChunkTooLarge

  datatype Ending = Done | Failed(why: Failure)

  /** How many bytes of a body are forwarded, and how it ends. */
  datatype BodyScan = BodyScan(count: nat, ending: Ending)

  datatype Request = Request(verb: Bytes, target: Bytes)

  datatype Outcome = Outcome(sent: Bytes, requests: seq<Request>, ending: Ending)

  function ChunkSize(line: Bytes): (size: Option<nat>)
    ensures size.Some? ==> size.value <= USIZE_MAX
  {
    if ValidUtf8(line) then ParseUsize(Trim(Before(line, SEMICOLON)), 16) else None
  }

  function Shift(n: nat, scan: BodyScan): BodyScan {
    scan.(count := n + scan.count)
  }

  function ScanTrailers(s: Bytes): (scan: BodyScan)
    ensures scan.count <= |s|
    decreases |s|
  {
    match FindCrlf(s)
    case None => BodyScan(0, Failed(EofInChunkLine))
    case Some(p) =>
      if p == 0 then BodyScan(2, Done) else Shift(p + 2, ScanTrailers(s[p + 2..]))
  }

  lemma TrailersStep(s: Bytes)
    ensures match FindCrlf(s)
            case None => ScanTrailers(s) == BodyScan(0, Failed(EofInChunkLine))
            case Some(p) =>
              ScanTrailers(s) == if p == 0 then BodyScan(2, Done) else Shift(p + 2, ScanTrailers(s[p + 2..]))
  {
  }

  function ScanChunks(s: Bytes): (scan: BodyScan)
    ensures scan.count <= |s|
    decreases |s|, 0
  {
    match FindCrlf(s)
    case None => BodyScan(0, Failed(EofInChunkLine))
    case Some(p) =>
      match ChunkSize(s[..p])
      case None => BodyScan(0, Failed(BadChunkSize))
      case Some(size) => Shift(p + 2, AfterChunkLine(size, s[p + 2..]))
  }

  /** The rest of a chunked body once a size line is past. */
  function AfterChunkLine(size: nat, s: Bytes): (scan: BodyScan)
    ensures scan.count <= |s|
    decreases |s|, 1
  {
    if size == 0 then ScanTrailers(s)
    else if size + 2 > USIZE_MAX then BodyScan(0, Failed(ChunkTooLarge))
    else if |s| < size + 2 then BodyScan(0, Failed(EofInChunk))
    else Shift(size + 2, ScanChunks(s[size + 2..]))
  }

  lemma ChunksStep(s: Bytes)
    ensures match FindCrlf(s)
            case None => ScanChunks(s) == BodyScan(0, Failed(EofInChunkLine))
            case Some(p) =>
              ScanChunks(s) == (match ChunkSize(s[..p])
                                case None => BodyScan(0, Failed(BadChunkSize))
                                case Some(size) => Shift(p + 2, AfterChunkLine(size, s[p + 2..])))
  {
  }

  function ScanBody(framing: Framing, s: Bytes): (scan: BodyScan)
    ensures scan.count <= |s|
  {
    match framing
    case NoBody => BodyScan(0, Done)
    case Length(n) => if n <= |s| then BodyScan(n, Done) else BodyScan(|s|, Failed(EofInBody))
    case Chunked => ScanChunks(s)
  }

  predicate IsConnect(verb: Bytes) {
    Lower(verb) == Ascii("connect")
  }

  function Then(sent: Bytes, requests: seq<Request>, o: Outcome): Outcome {
    Outcome(sent + o.sent, requests + o.requests, o.ending)
  }

  function Forward(s: Bytes, headers: seq<Header>): Outcome
    decreases |s|, 0
  {
    match FindTerminator(s)
    case None => Outcome([], [], if s == [] then Done else Failed(EofInHead))
    case Some(p) =>
      if !ValidUtf8(s[..p]) then Outcome([], [], Failed(HeadNotUtf8))
      else
        var meta := MetaOf(Lines(s[..p]));
        Then(Rewrite(s[..p], headers) + CRLF, [Request(meta.verb, meta.target)],
             ForwardBody(meta, s[p + 4..], headers))
  }

  function ForwardBody(meta: Meta, tail: Bytes, headers: seq<Header>): Outcome
    decreases |tail|, 1
  {
    var scan := ScanBody(meta.framing, tail);
    var rest := tail[scan.count..];
    Then(tail[..scan.count], [],
         if scan.ending.Failed? then Outcome([], [], scan.ending)
         else if IsConnect(meta.verb) then Outcome(rest, [], Done)
         else Forward(rest, headers))
  }

  // ----- Bodies are self-delimiting -----

  /** `u` starts with the first `n` bytes of `s`. */
  ghost predicate Agree(s: Bytes, u: Bytes, n: nat) {
    n <= |s| && n <= |u| && forall i | 0 <= i < n :: s[i] == u[i]
  }

  lemma LineEndLocal(s: Bytes, u: Bytes, n: nat)
    requires Agree(s, u, n) && FindCrlf(s).Some? && FindCrlf(s).value + 2 <= n
    ensures FindCrlf(u) == FindCrlf(s)
  {
    var p := FindCrlf(s).value;
    FindCrlfIsFirst(s, Some(p));
    assert forall i | 0 <= i <= p :: CrlfAt(u, i) <==> CrlfAt(s, i);
    FindCrlfIsFirst(u, Some(p));
  }

  lemma AgreeAfter(s: Bytes, u: Bytes, n: nat, k: nat)
    requires Agree(s, u, n) && k <= n
    ensures s[..k] == u[..k] && Agree(s[k..], u[k..], n - k)
  {
  }

  lemma {:induction false} TrailersLocal(s: Bytes, u: Bytes)
    requires ScanTrailers(s).ending.Done? && Agree(s, u, ScanTrailers(s).count)
    ensures ScanTrailers(u) == ScanTrailers(s)
    decreases |s|
  {
    hide ScanTrailers, FindCrlf;
    TrailersStep(s);
    TrailersStep(u);
    var n, p := ScanTrailers(s).count, FindCrlf(s).value;
    LineEndLocal(s, u, n);
    if p != 0 {
      AgreeAfter(s, u, n, p + 2);
      TrailersLocal(s[p + 2..], u[p + 2..]);
    }
  }

  lemma {:induction false} ChunksLocal(s: Bytes, u: Bytes)
    requires ScanChunks(s).ending.Done? && Agree(s, u, ScanChunks(s).count)
    ensures ScanChunks(u) == ScanChunks(s)
    decreases |s|, 0
  {
    hide FindCrlf, ChunkSize;
    var n, p := ScanChunks(s).count, FindCrlf(s).value;
    LineEndLocal(s, u, n);
    AgreeAfter(s, u, n, p);
    AgreeAfter(s, u, n, p + 2);
    AfterLineLocal(ChunkSize(s[..p]).value, s[p + 2..], u[p + 2..]);
  }

  lemma {:induction false} AfterLineLocal(size: nat, s: Bytes, u: Bytes)
    requires AfterChunkLine(size, s).ending.Done? && Agree(s, u, AfterChunkLine(size, s).count)
    ensures AfterChunkLine(size, u) == AfterChunkLine(size, s)
    decreases |s|, 1
  {
    if size == 0 {
      TrailersLocal(s, u);
    } else {
      AgreeAfter(s, u, AfterChunkLine(size, s).count, size + 2);
      ChunksLocal(s[size + 2..], u[size + 2..]);
    }
  }

  /** A complete body ends at the same byte whatever follows it. */
  lemma BodyLocal(framing: Framing, s: Bytes, u: Bytes)
    requires ScanBody(framing, s).ending.Done? && Agree(s, u, ScanBody(framing, s).count)
    ensures ScanBody(framing, u) == ScanBody(framing, s)
  {
    if framing.Chunked? { ChunksLocal(s, u); }
  }

  // ----- Forwarding the output again -----

  lemma HeadFollows(s: Bytes, p: nat, head2: Bytes, rest: Bytes)
    requires s == head2 + CRLF + (CRLF + rest) && p == |head2|
    ensures s[..p] == head2 && s[p + 4..] == rest
  {
  }

  /** One message: if its body forwards to itself, so does the whole. */
  lemma HeadTwice(s: Bytes, p: nat, head2: Bytes, headers: seq<Header>)
    requires FindTerminator(s) == Some(p) && ValidUtf8(s[..p]) && ValidUtf8(head2)
    requires var meta, body := MetaOf(Lines(s[..p])), ForwardBody(MetaOf(Lines(s[..p])), s[p + 4..], headers);
             && Rewrite(s[..p], headers) == head2 + CRLF == Rewrite(head2, headers)
             && FindTerminator(head2 + CRLF + (CRLF + body.sent)) == Some(|head2|)
             && MetaOf(Lines(head2)) == meta
             && ForwardBody(meta, body.sent, headers) == body
    ensures Forward(Forward(s, headers).sent, headers) == Forward(s, headers)
  {
    hide ForwardBody, MetaOf, Rewrite, FindTerminator, ValidUtf8;
    var body := ForwardBody(MetaOf(Lines(s[..p])), s[p + 4..], headers);
    var out := Forward(s, headers).sent;
    assert out == head2 + CRLF + (CRLF + body.sent);
    HeadFollows(out, |head2|, head2, body.sent);
  }

  /** Forwarding what a complete run sent, with the same attribution headers,
      reproduces it and reports the same requests. */
  lemma {:induction false} ForwardTwice(s: Bytes, headers: seq<Header>)
    requires AllWellFormed(headers)
    requires Forward(s, headers).ending.Done?
    ensures Forward(Forward(s, headers).sent, headers) == Forward(s, headers)
    decreases |s|, 0
  {
    hide ForwardBody, MetaOf, Rewrite, FindTerminator, ValidUtf8, AllWellFormed;
    if FindTerminator(s).Some? {
      var p := FindTerminator(s).value;
      var head, tail := s[..p], s[p + 4..];
      var meta := MetaOf(Lines(head));
      var rest := ForwardBody(meta, tail, headers).sent;
      var head2 := HeadRoundTrip(head, headers, rest);
      BodyTwice(meta, tail, headers);
      HeadTwice(s, p, head2, headers);
    }
  }

  lemma {:induction false} BodyTwice(meta: Meta, tail: Bytes, headers: seq<Header>)
    requires AllWellFormed(headers)
    requires ForwardBody(meta, tail, headers).ending.Done?
    ensures ForwardBody(meta, ForwardBody(meta, tail, headers).sent, headers)
         == ForwardBody(meta, tail, headers)
    decreases |tail|, 1
  {
    var n := ScanBody(meta.framing, tail).count;
    var rest := tail[n..];
    var restSent := if IsConnect(meta.verb) then rest else Forward(rest, headers).sent;
    BodyLocal(meta.framing, tail, tail[..n] + restSent);
    assert (tail[..n] + restSent)[..n] == tail[..n] && (tail[..n] + restSent)[n..] == restSent;
    if !IsConnect(meta.verb) {
      ForwardTwice(rest, headers);
    }
  }
}
