/** What one request head means to the forwarder, and how it is rewritten. */
module HttpMessage {
  import opened Prelude
  import opened Text
  import opened HttpText
  import opened Utf8

  const USIZE_MAX: nat := 0xFFFF_FFFF_FFFF_FFFF

  datatype Header = Header(name: Bytes, value: Bytes)

  datatype Framing = NoBody | Length(count: nat) | Chunked

  datatype Meta = Meta(verb: Bytes, target: Bytes, framing: Framing)

  // ----- Text -----

  /** The part before the first `mark`, or everything. */
  function Before(s: Bytes, mark: byte): (r: Bytes)
    ensures |r| <= |s| && r == s[..|r|] && mark !in r
    ensures |r| < |s| ==> s[|r|] == mark
  {
    if s == [] || s[0] == mark then [] else [s[0]] + Before(s[1..], mark)
  }

  predicate Contains(s: Bytes, word: Bytes) {
    exists i | 0 <= i <= |s| :: word <= s[i..]
  }

  function Digit(b: byte, radix: nat): Option<nat> {
    var d := if 48 <= b <= 57 then b as int - 48
             else if 97 <= b <= 122 then b as int - 87
             else if 65 <= b <= 90 then b as int - 55
             else radix;
    if d < radix then Some(d) else None
  }

  function Digits(s: Bytes, radix: nat): Option<nat> {
    if s == [] then Some(0)
    else
      var high := Digits(s[..|s| - 1], radix);
      var low := Digit(s[|s| - 1], radix);
      if high.Some? && low.Some? then Some(high.value * radix + low.value) else None
  }

  /** Parses a 64-bit unsigned number; one leading `+` is accepted. */
  function ParseUsize(s: Bytes, radix: nat): (r: Option<nat>)
    ensures r.Some? ==> r.value <= USIZE_MAX
  {
    var digits := if |s| > 1 && s[0] == 43 then s[1..] else s;
    var n := Digits(digits, radix);
    if digits != [] && n.Some? && n.value <= USIZE_MAX then n else None
  }

  // ----- Reading a head -----

  const TRANSFER_ENCODING: Bytes := Ascii("transfer-encoding")
  const CONTENT_LENGTH: Bytes := Ascii("content-length")
  const CHUNKED: Bytes := Ascii("chunked")

  predicate HasColon(line: Bytes) {
    COLON in line
  }

  function FieldName(line: Bytes): Bytes {
    Lower(Trim(Before(line, COLON)))
  }

  function FieldValue(line: Bytes): Bytes
    requires HasColon(line)
  {
    Trim(line[|Before(line, COLON)| + 1..])
  }

  predicate IsChunkedLine(line: Bytes) {
    HasColon(line) && FieldName(line) == TRANSFER_ENCODING && Contains(Lower(FieldValue(line)), CHUNKED)
  }

  predicate IsLengthLine(line: Bytes) {
    HasColon(line) && FieldName(line) == CONTENT_LENGTH
  }

  /** The number on the last content-length line, if it is one. */
  function LastLength(lines: seq<Bytes>): Option<nat> {
    if lines == [] then None
    else
      var last := lines[|lines| - 1];
      if IsLengthLine(last) then ParseUsize(FieldValue(last), 10)
      else LastLength(lines[..|lines| - 1])
  }

  predicate AnyChunked(lines: seq<Bytes>) {
    exists line | line in lines :: IsChunkedLine(line)
  }

  /** Chunked wins over any length (section 6.3 of RFC 9112); zero is no body. */
  function FramingOf(lines: seq<Bytes>): Framing {
    if AnyChunked(lines) then Chunked
    else match LastLength(lines)
      case Some(n) => if n == 0 then NoBody else Length(n)
      case None => NoBody
  }

  function FirstWord(s: Bytes): Bytes {
    var t := TrimStart(s);
    t[..WordLength(t)]
  }

  function AfterFirstWord(s: Bytes): Bytes {
    var t := TrimStart(s);
    t[WordLength(t)..]
  }

  function MetaOf(lines: seq<Bytes>): Meta
    requires lines != []
  {
    Meta(FirstWord(lines[0]), FirstWord(AfterFirstWord(lines[0])), FramingOf(lines[1..]))
  }

  // ----- Rewriting a head -----

  function HeaderLine(h: Header): Bytes {
    h.name + [COLON, 32] + h.value
  }

  function HeaderLines(headers: seq<Header>): (r: seq<Bytes>)
    ensures |r| == |headers| && forall i | 0 <= i < |headers| :: r[i] == HeaderLine(headers[i])
  {
    seq(|headers|, i requires 0 <= i < |headers| => HeaderLine(headers[i]))
  }

  /** Whether a line names one of the attribution headers. */
  predicate Replaced(line: Bytes, headers: seq<Header>) {
    HasColon(line) && exists h | h in headers :: FieldName(line) == Lower(h.name)
  }

  predicate Kept(line: Bytes, headers: seq<Header>) {
    line != [] && !Replaced(line, headers)
  }

  function KeepLines(lines: seq<Bytes>, headers: seq<Header>): (r: seq<Bytes>)
    ensures forall line | line in r :: line in lines && Kept(line, headers)
    ensures forall line | line in lines && Kept(line, headers) :: line in r
  {
    if lines == [] then []
    else
      var last := lines[|lines| - 1];
      assert lines == lines[..|lines| - 1] + [last];
      KeepLines(lines[..|lines| - 1], headers) + (if Kept(last, headers) then [last] else [])
  }

  function RewriteLines(lines: seq<Bytes>, headers: seq<Header>): seq<Bytes>
    requires lines != []
  {
    [lines[0]] + KeepLines(lines[1..], headers) + HeaderLines(headers)
  }

  function Rewrite(head: Bytes, headers: seq<Header>): Bytes {
    Unlines(RewriteLines(Lines(head), headers))
  }

  // ----- Laws of rewriting -----

  /** A caller-supplied attribution header that reads back as itself. */
  ghost predicate WellFormed(h: Header) {
    && COLON !in h.name
    && Trim(h.name) == h.name
    && IsLine(HeaderLine(h))
    && Lower(h.name) != TRANSFER_ENCODING
    && Lower(h.name) != CONTENT_LENGTH
    && ValidUtf8(h.name) && ValidUtf8(h.value)
  }

  ghost predicate AllWellFormed(headers: seq<Header>) {
    forall h | h in headers :: WellFormed(h)
  }

  lemma {:induction false} BeforeColon(name: Bytes, rest: Bytes)
    requires COLON !in name
    ensures Before(name + [COLON] + rest, COLON) == name
  {
    if name != [] {
      BeforeColon(name[1..], rest);
      assert (name + [COLON] + rest)[1..] == name[1..] + [COLON] + rest;
    } else {
      assert (name + [COLON] + rest)[0] == COLON;
    }
  }

  lemma HeaderLineReplaced(h: Header, headers: seq<Header>)
    requires h in headers && WellFormed(h)
    ensures FieldName(HeaderLine(h)) == Lower(h.name)
    ensures Replaced(HeaderLine(h), headers)
    ensures !IsChunkedLine(HeaderLine(h)) && !IsLengthLine(HeaderLine(h))
    ensures HeaderLine(h) != []
  {
    assert HeaderLine(h) == h.name + [COLON] + ([32] + h.value);
    BeforeColon(h.name, [32] + h.value);
    assert HeaderLine(h)[|h.name|] == COLON;
  }

  /** Lines that are dropped say nothing about framing. */
  lemma DroppedLineIsSilent(line: Bytes, headers: seq<Header>)
    requires AllWellFormed(headers) && !Kept(line, headers)
    ensures !IsChunkedLine(line) && !IsLengthLine(line)
  {
  }

  lemma {:induction false} KeepLinesLength(lines: seq<Bytes>, headers: seq<Header>)
    requires AllWellFormed(headers)
    ensures LastLength(KeepLines(lines, headers)) == LastLength(lines)
  {
    if lines != [] {
      var init, last := lines[..|lines| - 1], lines[|lines| - 1];
      KeepLinesLength(init, headers);
      if Kept(last, headers) {
        assert KeepLines(lines, headers)[..|KeepLines(init, headers)|] == KeepLines(init, headers);
      } else {
        DroppedLineIsSilent(last, headers);
        assert KeepLines(lines, headers) == KeepLines(init, headers);
      }
    }
  }

  lemma {:induction false} SilentTail(lines: seq<Bytes>, tail: seq<Bytes>)
    requires forall line | line in tail :: !IsLengthLine(line)
    ensures LastLength(lines + tail) == LastLength(lines)
  {
    if tail == [] {
      assert lines + tail == lines;
    } else {
      var init := tail[..|tail| - 1];
      assert (lines + tail)[..|lines + tail| - 1] == lines + init;
      assert (lines + tail)[|lines + tail| - 1] == tail[|tail| - 1];
      SilentTail(lines, init);
    }
  }

  lemma HeaderLinesSilent(headers: seq<Header>)
    requires AllWellFormed(headers)
    ensures forall line | line in HeaderLines(headers) ::
              !IsChunkedLine(line) && !IsLengthLine(line) && !Kept(line, headers) && line != [] && IsLine(line)
  {
    forall i | 0 <= i < |headers|
      ensures var line := HeaderLines(headers)[i];
              !IsChunkedLine(line) && !IsLengthLine(line) && !Kept(line, headers) && line != [] && IsLine(line)
    {
      HeaderLineReplaced(headers[i], headers);
    }
  }

  /** Rewriting keeps the method, the target and the body framing. */
  lemma RewriteKeepsMeta(lines: seq<Bytes>, headers: seq<Header>)
    requires lines != [] && AllWellFormed(headers)
    ensures MetaOf(RewriteLines(lines, headers)) == MetaOf(lines)
  {
    var rest := lines[1..];
    var kept, own := KeepLines(rest, headers), HeaderLines(headers);
    assert RewriteLines(lines, headers)[1..] == kept + own;
    HeaderLinesSilent(headers);
    SilentTail(kept, own);
    KeepLinesLength(rest, headers);
    forall line | line in rest && IsChunkedLine(line) ensures line in kept {
      if !Kept(line, headers) { DroppedLineIsSilent(line, headers); }
    }
    assert AnyChunked(kept + own) <==> AnyChunked(rest);
  }

  lemma {:induction false} KeepAll(lines: seq<Bytes>, headers: seq<Header>)
    requires forall line | line in lines :: Kept(line, headers)
    ensures KeepLines(lines, headers) == lines
  {
    hide Kept;
    if lines != [] {
      var init, last := lines[..|lines| - 1], lines[|lines| - 1];
      assert lines == init + [last] && last in lines;
      KeepAll(init, headers);
    }
  }

  lemma {:induction false} KeepNone(lines: seq<Bytes>, tail: seq<Bytes>, headers: seq<Header>)
    requires forall line | line in tail :: !Kept(line, headers)
    ensures KeepLines(lines + tail, headers) == KeepLines(lines, headers)
  {
    if tail == [] {
      assert lines + tail == lines;
    } else {
      var init := tail[..|tail| - 1];
      assert (lines + tail)[..|lines + tail| - 1] == lines + init;
      assert (lines + tail)[|lines + tail| - 1] == tail[|tail| - 1];
      KeepNone(lines, init, headers);
    }
  }

  /** Rewriting a rewritten head changes nothing. */
  lemma RewriteTwice(lines: seq<Bytes>, headers: seq<Header>)
    requires lines != [] && AllWellFormed(headers)
    ensures RewriteLines(RewriteLines(lines, headers), headers) == RewriteLines(lines, headers)
  {
    var kept, own := KeepLines(lines[1..], headers), HeaderLines(headers);
    assert RewriteLines(lines, headers)[1..] == kept + own;
    HeaderLinesSilent(headers);
    KeepNone(kept, own, headers);
    KeepAll(kept, headers);
  }

  // ----- The rewritten head as bytes -----

  lemma RewrittenShape(lines: seq<Bytes>, headers: seq<Header>)
    requires lines != [] && (forall line | line in lines :: IsLine(line)) && AllWellFormed(headers)
    ensures var r := RewriteLines(lines, headers);
            (forall line | line in r :: IsLine(line)) && forall i | 0 < i < |r| :: r[i] != []
  {
    HeaderLinesSilent(headers);
    var r, kept := RewriteLines(lines, headers), KeepLines(lines[1..], headers);
    forall i | 0 <= i < |r| ensures IsLine(r[i]) && (i > 0 ==> r[i] != []) {
      if i == 0 {
      } else if i <= |kept| {
        assert r[i] == kept[i - 1];
        assert r[i] in lines[1..];
      } else {
        assert r[i] == HeaderLines(headers)[i - 1 - |kept|];
      }
    }
  }

  lemma CutAtCrlf(s: Bytes, p: nat)
    requires ValidUtf8(s) && CrlfAt(s, p)
    ensures ValidUtf8(s[..p]) && ValidUtf8(s[p + 2..])
  {
    var rest := s[p..];
    assert s == s[..p] + rest;
    ValidCut(s[..p], rest);
    assert CharLength(rest) == 1 && CharLength(rest[1..]) == 1;
    assert rest[1..][1..] == s[p + 2..];
  }

  lemma {:induction false} LinesUtf8(s: Bytes)
    requires ValidUtf8(s)
    ensures forall line | line in Lines(s) :: ValidUtf8(line)
    decreases |s|
  {
    hide ValidUtf8, FindCrlf;
    match FindCrlf(s)
    case None =>
    case Some(p) =>
      CutAtCrlf(s, p);
      LinesUtf8(s[p + 2..]);
  }

  lemma {:induction false} UnlinesUtf8(lines: seq<Bytes>)
    requires forall line | line in lines :: ValidUtf8(line)
    ensures ValidUtf8(Unlines(lines))
  {
    if lines != [] {
      UnlinesUtf8(lines[1..]);
      assert ValidUtf8(CRLF) by {
        assert CRLF[1..] == [LF] && [LF][1..] == [];
      }
      ValidAppend(lines[0], CRLF);
      ValidAppend(lines[0] + CRLF, Unlines(lines[1..]));
    }
  }

  lemma RewrittenUtf8(head: Bytes, headers: seq<Header>)
    requires ValidUtf8(head) && AllWellFormed(headers)
    ensures ValidUtf8(Rewrite(head, headers))
  {
    LinesUtf8(head);
    var r, kept := RewriteLines(Lines(head), headers), KeepLines(Lines(head)[1..], headers);
    forall line | line in r ensures ValidUtf8(line) {
      if line == Lines(head)[0] {
      } else if line in kept {
        assert line in Lines(head)[1..];
      } else {
        var i :| 0 <= i < |headers| && line == HeaderLine(headers[i]);
        assert WellFormed(headers[i]);
        var mark: Bytes := [COLON, 32];
        assert ValidUtf8(mark) by { assert mark[1..] == [32] && mark[1..][1..] == []; }
        ValidAppend(headers[i].name, mark);
        ValidAppend(headers[i].name + mark, headers[i].value);
      }
    }
    UnlinesUtf8(r);
  }

  lemma RewrittenEnd(head: Bytes, headers: seq<Header>, rest: Bytes)
    requires AllWellFormed(headers)
    ensures var rewritten := Rewrite(head, headers);
            |rewritten| >= 2 && rewritten[|rewritten| - 2..] == CRLF &&
            FindTerminator(rewritten + (CRLF + rest)) == Some(|rewritten| - 2)
  {
    LinesAreLines(head);
    RewrittenShape(Lines(head), headers);
    HeadEnd(RewriteLines(Lines(head), headers), rest);
    UnlinesEndsInCrlf(RewriteLines(Lines(head), headers));
  }

  lemma RewrittenLines(head: Bytes, headers: seq<Header>, head2: Bytes)
    requires AllWellFormed(headers) && Rewrite(head, headers) == head2 + CRLF
    ensures Lines(head2) == RewriteLines(Lines(head), headers)
  {
    LinesAreLines(head);
    RewrittenShape(Lines(head), headers);
    LinesOfUnlines(RewriteLines(Lines(head), headers), head2);
  }

  /** The second pass finds the rewritten head where the first pass put it,
      reads the same request from it and rewrites it to itself. */
  lemma HeadRoundTrip(head: Bytes, headers: seq<Header>, rest: Bytes) returns (head2: Bytes)
    requires ValidUtf8(head) && AllWellFormed(headers)
    ensures Rewrite(head, headers) == head2 + CRLF
    ensures FindTerminator(Rewrite(head, headers) + (CRLF + rest)) == Some(|head2|)
    ensures ValidUtf8(head2)
    ensures MetaOf(Lines(head2)) == MetaOf(Lines(head))
    ensures Rewrite(head2, headers) == Rewrite(head, headers)
  {
    var rewritten := Rewrite(head, headers);
    RewrittenEnd(head, headers, rest);
    head2 := rewritten[..|rewritten| - 2];
    RewrittenLines(head, headers, head2);
    RewrittenUtf8(head, headers);
    ValidCut(head2, CRLF);
    RewriteKeepsMeta(Lines(head), headers);
    RewriteTwice(Lines(head), headers);
  }
}
