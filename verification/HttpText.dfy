/** Line ends and lines of an HTTP/1 head, over bytes. */
module HttpText {
  import opened Prelude
  import opened Text

  const CR: byte := 13
  const LF: byte := 10
  const COLON: byte := 58
  const SEMICOLON: byte := 59
  const CRLF: Bytes := [CR, LF]

  // ----- Line ends -----

  predicate CrlfAt(s: Bytes, i: int) {
    0 <= i && i + 2 <= |s| && s[i] == CR && s[i + 1] == LF
  }

  /** Position of the first CRLF. */
  function FindCrlf(s: Bytes): (p: Option<nat>)
    ensures p.Some? ==> CrlfAt(s, p.value)
  {
    FindCrlfFrom(s, 0)
  }

  function FindCrlfFrom(s: Bytes, from: nat): (p: Option<nat>)
    requires from <= |s|
    ensures p.Some? ==> CrlfAt(s, p.value)
    decreases |s| - from
  {
    if from == |s| then None
    else if CrlfAt(s, from) then Some(from)
    else FindCrlfFrom(s, from + 1)
  }

  lemma {:induction false} FindCrlfFromIsFirst(s: Bytes, from: nat)
    requires from <= |s|
    ensures match FindCrlfFrom(s, from)
            case Some(p) => from <= p && forall i | from <= i < p :: !CrlfAt(s, i)
            case None => forall i | from <= i :: !CrlfAt(s, i)
    decreases |s| - from
  {
    if from < |s| && !CrlfAt(s, from) {
      FindCrlfFromIsFirst(s, from + 1);
    }
  }

  /** The position found is the first one, and none is missed. */
  lemma FindCrlfIsFirst(s: Bytes, p: Option<nat>)
    ensures FindCrlf(s) == p <==>
            match p
            case Some(n) => CrlfAt(s, n) && forall i | 0 <= i < n :: !CrlfAt(s, i)
            case None => forall i :: !CrlfAt(s, i)
  {
    FindCrlfFromIsFirst(s, 0);
    if p.None? && FindCrlf(s).None? {
      assert forall i | i < 0 :: !CrlfAt(s, i);
    }
  }

  predicate TerminatorAt(s: Bytes, i: int) {
    CrlfAt(s, i) && CrlfAt(s, i + 2)
  }

  /** Position of the first empty line: CRLF CRLF. */
  function FindTerminator(s: Bytes): (p: Option<nat>)
    ensures p.Some? ==> TerminatorAt(s, p.value)
  {
    FindTerminatorFrom(s, 0)
  }

  function FindTerminatorFrom(s: Bytes, from: nat): (p: Option<nat>)
    requires from <= |s|
    ensures p.Some? ==> TerminatorAt(s, p.value)
    decreases |s| - from
  {
    if from == |s| then None
    else if TerminatorAt(s, from) then Some(from)
    else FindTerminatorFrom(s, from + 1)
  }

  lemma {:induction false} FindTerminatorFromIsFirst(s: Bytes, from: nat)
    requires from <= |s|
    ensures match FindTerminatorFrom(s, from)
            case Some(p) => from <= p && forall i | from <= i < p :: !TerminatorAt(s, i)
            case None => forall i | from <= i :: !TerminatorAt(s, i)
    decreases |s| - from
  {
    if from < |s| && !TerminatorAt(s, from) {
      FindTerminatorFromIsFirst(s, from + 1);
    }
  }

  /** The position found is the first one, and none is missed. */
  lemma FindTerminatorIsFirst(s: Bytes, p: Option<nat>)
    ensures FindTerminator(s) == p <==>
            match p
            case Some(n) => TerminatorAt(s, n) && forall i | 0 <= i < n :: !TerminatorAt(s, i)
            case None => forall i :: !TerminatorAt(s, i)
  {
    FindTerminatorFromIsFirst(s, 0);
    if p.None? && FindTerminator(s).None? {
      assert forall i | i < 0 :: !TerminatorAt(s, i);
    }
  }

  /** A line end found in a buffer is the first one of any longer stream. */
  lemma FindCrlfExtends(s: Bytes, t: Bytes)
    requires FindCrlf(s).Some?
    ensures FindCrlf(s + t) == FindCrlf(s)
  {
    var p := FindCrlf(s).value;
    FindCrlfIsFirst(s, Some(p));
    FindCrlfIsFirst(s + t, Some(p));
    assert forall i | 0 <= i <= p :: CrlfAt(s, i) <==> CrlfAt(s + t, i);
  }

  lemma FindTerminatorExtends(s: Bytes, t: Bytes)
    requires FindTerminator(s).Some?
    ensures FindTerminator(s + t) == FindTerminator(s)
  {
    var p := FindTerminator(s).value;
    FindTerminatorIsFirst(s, Some(p));
    FindTerminatorIsFirst(s + t, Some(p));
    assert forall i | 0 <= i <= p :: TerminatorAt(s, i) <==> TerminatorAt(s + t, i);
  }

  // ----- Lines -----

  ghost predicate IsLine(s: Bytes) {
    forall i :: !CrlfAt(s, i)
  }

  /** Cuts at every CRLF, like splitting a string on it. */
  function Lines(s: Bytes): (lines: seq<Bytes>)
    ensures |lines| > 0
    decreases |s|
  {
    match FindCrlf(s)
    case None => [s]
    case Some(p) => [s[..p]] + Lines(s[p + 2..])
  }

  /** Every line followed by CRLF. */
  function Unlines(lines: seq<Bytes>): Bytes {
    if lines == [] then [] else lines[0] + CRLF + Unlines(lines[1..])
  }

  lemma {:induction false} UnlinesAppend(a: seq<Bytes>, b: seq<Bytes>)
    ensures Unlines(a + b) == Unlines(a) + Unlines(b)
  {
    if a == [] {
      assert a + b == b;
    } else {
      UnlinesAppend(a[1..], b);
      assert (a + b)[1..] == a[1..] + b;
    }
  }

  /** The first CRLF after a line is the one that ends it, whatever follows. */
  lemma LineEnd(line: Bytes, rest: Bytes)
    requires IsLine(line)
    ensures FindCrlf(line + CRLF + rest) == Some(|line|)
  {
    var s := line + CRLF + rest;
    assert CrlfAt(s, |line|);
    forall i | 0 <= i < |line| ensures !CrlfAt(s, i) {
      assert CrlfAt(line, i) <==> i + 2 <= |line| && CrlfAt(s, i);
    }
    FindCrlfIsFirst(s, Some(|line|));
  }

  lemma {:induction false} LinesAreLines(s: Bytes)
    ensures forall line | line in Lines(s) :: IsLine(line)
    decreases |s|
  {
    FindCrlfIsFirst(s, FindCrlf(s));
    match FindCrlf(s)
    case None =>
    case Some(p) =>
      LinesAreLines(s[p + 2..]);
      forall i ensures !CrlfAt(s[..p], i) {
        assert CrlfAt(s[..p], i) ==> CrlfAt(s, i);
      }
  }

  lemma {:induction false} LinesRebuild(s: Bytes)
    ensures Unlines(Lines(s)) == s + CRLF
    decreases |s|
  {
    match FindCrlf(s)
    case None =>
      assert Unlines([]) == [];
      assert Unlines([s]) == s + CRLF;
    case Some(p) =>
      LinesRebuild(s[p + 2..]);
      assert Lines(s)[1..] == Lines(s[p + 2..]);
      assert s == s[..p] + CRLF + s[p + 2..];
  }

  /** Splitting what was joined gives the lines back. */
  lemma {:induction false} LinesOfUnlines(lines: seq<Bytes>, s: Bytes)
    requires lines != [] && forall line | line in lines :: IsLine(line)
    requires Unlines(lines) == s + CRLF
    ensures Lines(s) == lines
    decreases |lines|
  {
    if |lines| == 1 {
      assert lines[1..] == [];
      assert Unlines(lines) == lines[0] + CRLF;
      assert s == (s + CRLF)[..|s|] == lines[0];
      assert lines == [s] && s in lines;
      assert IsLine(s);
    } else {
      var first, rest := lines[0], lines[1..];
      var all := Unlines(lines);
      UnlinesEndsInCrlf(rest);
      assert all == first + CRLF + Unlines(rest);
      LineEnd(first, Unlines(rest));
      var tail := Unlines(rest)[..|Unlines(rest)| - 2];
      assert Unlines(rest) == tail + CRLF;
      assert s == (s + CRLF)[..|s|] == first + CRLF + tail;
      LineEnd(first, tail);
      assert s[..|first|] == first && s[|first| + 2..] == tail;
      LinesOfUnlines(rest, tail);
      assert lines == [first] + rest;
    }
  }

  lemma {:induction false} UnlinesEndsInCrlf(lines: seq<Bytes>)
    requires lines != []
    ensures |Unlines(lines)| >= 2 && Unlines(lines)[|Unlines(lines)| - 2..] == CRLF
  {
    if |lines| == 1 {
      assert lines[1..] == [];
      assert Unlines(lines) == lines[0] + CRLF;
    } else {
      UnlinesEndsInCrlf(lines[1..]);
    }
  }

  lemma CrlfShift(prefix: Bytes, t: Bytes, i: nat)
    ensures CrlfAt(prefix + t, |prefix| + i) <==> CrlfAt(t, i)
  {
    var s := prefix + t;
    if i + 2 <= |t| {
      assert s[|prefix| + i] == t[i] && s[|prefix| + i + 1] == t[i + 1];
    }
  }

  /** Putting a line in front moves the first empty line by that line. */
  lemma TerminatorAfterLine(line: Bytes, t: Bytes)
    requires IsLine(line) && !CrlfAt(t, 0) && FindTerminator(t).Some?
    ensures FindTerminator(line + CRLF + t) == Some(|line| + 2 + FindTerminator(t).value)
  {
    var s, n, p := line + CRLF + t, |line| + 2, FindTerminator(t).value;
    LineEnd(line, t);
    FindCrlfIsFirst(s, Some(|line|));
    FindTerminatorIsFirst(t, Some(p));
    forall i: nat ensures CrlfAt(s, n + i) <==> CrlfAt(t, i) { CrlfShift(line + CRLF, t, i); }
    assert TerminatorAt(s, n + p) by {
      assert CrlfAt(s, n + (p + 2)) <==> CrlfAt(t, p + 2);
    }
    forall i: nat | i < n + p ensures !TerminatorAt(s, i) {
      if i < |line| {
      } else if i == |line| {
        assert !CrlfAt(s, n + 0);
      } else if i == |line| + 1 {
        assert s[i] == LF;
      } else {
        var k := i - n;
        assert i == n + k && i + 2 == n + (k + 2);
        assert !TerminatorAt(t, k);
      }
    }
    FindTerminatorIsFirst(s, Some(n + p));
  }

  /** The lines, each ended, in front of `rest`. */
  function UnlinesThen(lines: seq<Bytes>, rest: Bytes): Bytes {
    if lines == [] then rest else lines[0] + CRLF + UnlinesThen(lines[1..], rest)
  }

  lemma {:induction false} UnlinesThenIs(lines: seq<Bytes>, rest: Bytes)
    ensures UnlinesThen(lines, rest) == Unlines(lines) + rest
  {
    if lines != [] {
      UnlinesThenIs(lines[1..], rest);
    }
  }

  lemma OneLineHead(line: Bytes, rest: Bytes)
    requires IsLine(line)
    ensures FindTerminator(line + CRLF + (CRLF + rest)) == Some(|line|)
  {
    var s := line + CRLF + (CRLF + rest);
    LineEnd(line, CRLF + rest);
    FindCrlfIsFirst(s, Some(|line|));
    assert TerminatorAt(s, |line|);
    FindTerminatorIsFirst(s, Some(|line|));
  }

  lemma NotAtOnce(line: Bytes, rest: Bytes)
    requires IsLine(line) && line != []
    ensures !CrlfAt(line + CRLF + rest, 0)
  {
    LineEnd(line, rest);
    FindCrlfIsFirst(line + CRLF + rest, Some(|line|));
  }

  lemma {:induction false} HeadEndThen(lines: seq<Bytes>, rest: Bytes)
    requires lines != [] && forall line | line in lines :: IsLine(line)
    requires forall i | 0 < i < |lines| :: lines[i] != []
    ensures FindTerminator(UnlinesThen(lines, CRLF + rest)) == Some(|Unlines(lines)| - 2)
    decreases |lines|
  {
    var more := lines[1..];
    if more == [] {
      OneLineHead(lines[0], rest);
    } else {
      HeadEndThen(more, rest);
      assert more[0] == lines[1];
      NotAtOnce(more[0], UnlinesThen(more[1..], CRLF + rest));
      TerminatorAfterLine(lines[0], UnlinesThen(more, CRLF + rest));
    }
  }

  /** A head whose lines after the first are not empty ends at its last line. */
  lemma HeadEnd(lines: seq<Bytes>, rest: Bytes)
    requires lines != [] && forall line | line in lines :: IsLine(line)
    requires forall i | 0 < i < |lines| :: lines[i] != []
    ensures FindTerminator(Unlines(lines) + (CRLF + rest)) == Some(|Unlines(lines)| - 2)
  {
    HeadEndThen(lines, rest);
    UnlinesThenIs(lines, CRLF + rest);
  }
}
