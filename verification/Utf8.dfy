/** Well-formed UTF-8 (table 3-7 of the Unicode Standard) and Unicode white space,
    both over bytes. */
module Utf8 {
  import opened Prelude

  predicate Continuation(b: byte) {
    0x80 <= b <= 0xBF
  }

  /** Length of the well-formed character at the front; 0 when there is none. */
  function CharLength(s: seq<byte>): (n: nat)
    ensures n <= |s| && n <= 4
    ensures forall i | 1 <= i < n :: Continuation(s[i])
  {
    if |s| == 0 then 0
    else if s[0] <= 0x7F then 1
    else if |s| >= 2 && 0xC2 <= s[0] <= 0xDF && Continuation(s[1]) then 2
    else if |s| >= 3 && Continuation(s[1]) && Continuation(s[2]) &&
            ((s[0] == 0xE0 && s[1] >= 0xA0) || 0xE1 <= s[0] <= 0xEC ||
             (s[0] == 0xED && s[1] <= 0x9F) || 0xEE <= s[0] <= 0xEF) then 3
    else if |s| >= 4 && Continuation(s[1]) && Continuation(s[2]) && Continuation(s[3]) &&
            ((s[0] == 0xF0 && s[1] >= 0x90) || 0xF1 <= s[0] <= 0xF3 ||
             (s[0] == 0xF4 && s[1] <= 0x8F)) then 4
    else 0
  }

  predicate ValidUtf8(s: seq<byte>)
    decreases |s|
  {
    s == [] || (CharLength(s) > 0 && ValidUtf8(s[CharLength(s)..]))
  }

  lemma CharLengthExtends(s: seq<byte>, t: seq<byte>)
    requires CharLength(s) > 0
    ensures CharLength(s + t) == CharLength(s)
  {
  }

  lemma {:induction false} ValidAppend(s: seq<byte>, t: seq<byte>)
    requires ValidUtf8(s) && ValidUtf8(t)
    ensures ValidUtf8(s + t)
    decreases |s|
  {
    hide CharLength;
    if s == [] {
      assert s + t == t;
    } else {
      var n := CharLength(s);
      CharLengthExtends(s, t);
      ValidAppend(s[n..], t);
      assert (s + t)[n..] == s[n..] + t;
    }
  }

  lemma CharLengthWithin(s: seq<byte>, t: seq<byte>)
    requires CharLength(s + t) <= |s|
    ensures CharLength(s) == CharLength(s + t)
  {
    assert |s| > 0 ==> (s + t)[0] == s[0];
    assert |s| > 1 ==> (s + t)[1] == s[1];
  }

  /** Text may be cut in front of any byte that does not continue a character. */
  lemma {:induction false} ValidCut(s: seq<byte>, t: seq<byte>)
    requires ValidUtf8(s + t) && (t == [] || !Continuation(t[0]))
    ensures ValidUtf8(s) && ValidUtf8(t)
    decreases |s|
  {
    hide CharLength, Continuation;
    if s == [] {
      assert s + t == t;
    } else {
      var n := CharLength(s + t);
      assert t != [] ==> (s + t)[|s|] == t[0];
      assert n <= |s|;
      CharLengthWithin(s, t);
      assert (s + t)[n..] == s[n..] + t;
      ValidCut(s[n..], t);
    }
  }

  // ----- White space -----

  /** Length of the white-space character at the front; 0 when there is none. */
  function SpaceLength(s: seq<byte>): (n: nat)
    ensures n <= |s|
  {
    if |s| >= 1 && (9 <= s[0] <= 13 || s[0] == 32) then 1
    else if |s| >= 2 && s[0] == 0xC2 && (s[1] == 0x85 || s[1] == 0xA0) then 2
    else if |s| >= 3 && (s[..3] == [0xE1, 0x9A, 0x80] || s[..3] == [0xE2, 0x81, 0x9F] ||
                         s[..3] == [0xE3, 0x80, 0x80]) then 3
    else if |s| >= 3 && s[0] == 0xE2 && s[1] == 0x80 &&
            (0x80 <= s[2] <= 0x8A || s[2] == 0xA8 || s[2] == 0xA9 || s[2] == 0xAF) then 3
    else 0
  }

  function TrimStart(s: seq<byte>): seq<byte>
    decreases |s|
  {
    if SpaceLength(s) > 0 then TrimStart(s[SpaceLength(s)..]) else s
  }

  /** Length of the white-space character at the end; 0 when there is none. */
  function SpaceLengthAtEnd(s: seq<byte>): (n: nat)
    ensures n <= |s|
  {
    if |s| >= 1 && SpaceLength(s[|s| - 1..]) == 1 then 1
    else if |s| >= 2 && SpaceLength(s[|s| - 2..]) == 2 then 2
    else if |s| >= 3 && SpaceLength(s[|s| - 3..]) == 3 then 3
    else 0
  }

  function TrimEnd(s: seq<byte>): seq<byte>
    decreases |s|
  {
    if SpaceLengthAtEnd(s) > 0 then TrimEnd(s[..|s| - SpaceLengthAtEnd(s)]) else s
  }

  function Trim(s: seq<byte>): seq<byte> {
    TrimEnd(TrimStart(s))
  }

  /** Bytes before the first white space. */
  function WordLength(s: seq<byte>): (n: nat)
    ensures n <= |s|
    decreases |s|
  {
    if s == [] || SpaceLength(s) > 0 then 0 else 1 + WordLength(s[1..])
  }
}
