/** Patterns are text: for patterns in UTF-8, a common byte string can always be cut
    down to a common string in UTF-8. */
module GlobText {
  import opened Prelude
  import opened Glob
  import opened Utf8

  ghost predicate TextOverlap(left: seq<byte>, right: seq<byte>) {
    exists v :: ValidUtf8(v) && Accepts(left, v) && Accepts(right, v)
  }

  /** A pattern that starts with a star accepts anything more in front. */
  lemma StarTakesMore(p: seq<byte>, u: seq<byte>, v: seq<byte>)
    requires p != [] && p[0] == STAR && Accepts(p, v)
    ensures Accepts(p, u + v)
  {
    assert p == [STAR] + p[1..];
    var k := AcceptsCut([STAR], p[1..], v);
    AcceptsToken(STAR, u + v[..k]);
    AcceptsGlue([STAR], p[1..], u + v[..k], v[k..]);
    assert (u + v[..k]) + v[k..] == u + v;
  }

  lemma StarTakesNothing(p: seq<byte>, v: seq<byte>)
    requires p != [] && p[0] == STAR && Accepts(p[1..], v)
    ensures Accepts(p, v)
  {
    assert p == [STAR] + p[1..];
    AcceptsToken(STAR, []);
    AcceptsGlue([STAR], p[1..], [], v);
    assert [] + v == v;
  }

  /** The literal character at the front of a pattern. */
  lemma {:induction false} LiteralBytes(p: seq<byte>, n: nat, v: seq<byte>)
    requires n <= |p| && Accepts(p, v) && forall i | 0 <= i < n :: p[i] != STAR
    ensures n <= |v| && v[..n] == p[..n] && Accepts(p[n..], v[n..])
    decreases n
  {
    if n == 0 {
      assert p[0..] == p && v[0..] == v;
    } else {
      assert p[0..] == p;
      SuffixStep(p, 0, v);
      LiteralBytes(p[1..], n - 1, v[1..]);
      assert p[1..][n - 1..] == p[n..] && v[1..][n - 1..] == v[n..];
      assert p[..n] == [p[0]] + p[1..][..n - 1] && v[..n] == [v[0]] + v[1..][..n - 1];
    }
  }

  lemma {:induction false} LiteralAccepts(c: seq<byte>)
    requires STAR !in c
    ensures Accepts(c, c)
  {
    LiteralPattern(c, c);
  }

  lemma GlueLiteral(p: seq<byte>, n: nat, v: seq<byte>)
    requires n <= |p| && (forall i | 0 <= i < n :: p[i] != STAR) && Accepts(p[n..], v)
    ensures Accepts(p, p[..n] + v)
  {
    LiteralAccepts(p[..n]);
    AcceptsGlue(p[..n], p[n..], p[..n], v);
    assert p[..n] + p[n..] == p;
  }

  /** A character that is not a star holds none. */
  lemma CharIsLiteral(p: seq<byte>)
    requires ValidUtf8(p) && p != [] && p[0] != STAR
    ensures forall i | 0 <= i < CharLength(p) :: p[i] != STAR
  {
  }

  lemma StarIsChar(p: seq<byte>)
    requires ValidUtf8(p) && p != [] && p[0] == STAR
    ensures ValidUtf8(p[1..])
  {
  }

  lemma FirstByte(p: seq<byte>, v: seq<byte>)
    requires p != [] && Accepts(p, v)
    ensures p[0] == STAR || (v != [] && v[0] == p[0])
  {
    assert p[0..] == p;
    SuffixStep(p, 0, v);
  }

  /** Only a star takes the middle of a character. */
  lemma MiddleNeedsStar(p: seq<byte>, v: seq<byte>)
    requires ValidUtf8(p) && Accepts(p, v) && v != [] && Continuation(v[0])
    ensures p != [] && p[0] == STAR
  {
    AcceptsEmpty(v);
    FirstByte(p, v);
  }

  /** A star in front of text that meets a whole character either takes none of it
      or all of it. */
  lemma StarMeetsChar(p: seq<byte>, v: seq<byte>, n: nat)
    requires p != [] && p[0] == STAR && ValidUtf8(p) && Accepts(p, v)
    requires 0 < n <= |v| && forall i | 1 <= i < n :: Continuation(v[i])
    ensures Accepts(p[1..], v) || Accepts(p, v[n..])
  {
    StarIsChar(p);
    assert p == [STAR] + p[1..];
    var k := AcceptsCut([STAR], p[1..], v);
    var rest := p[1..];
    if k == 0 {
      assert v[0..] == v;
    } else if k >= n {
      AcceptsToken(STAR, v[n..k]);
      AcceptsGlue([STAR], rest, v[n..k], v[k..]);
      assert v[n..k] + v[k..] == v[n..];
    } else {
      MiddleNeedsStar(rest, v[k..]);
      StarTakesMore(rest, v[..k], v[k..]);
      assert v[..k] + v[k..] == v;
    }
  }

  /** One character, taken by a star on one side and spelled out on the other. */
  lemma StarAndChar(p: seq<byte>, q: seq<byte>, n: nat, v: seq<byte>)
    requires p != [] && p[0] == STAR && n <= |q| && forall i | 0 <= i < n :: q[i] != STAR
    requires ValidUtf8(q[..n]) && ValidUtf8(v) && Accepts(p, v) && Accepts(q[n..], v)
    ensures TextOverlap(p, q)
  {
    var w := q[..n] + v;
    StarTakesMore(p, q[..n], v);
    GlueLiteral(q, n, v);
    ValidAppend(q[..n], v);
    assert Accepts(p, w) && Accepts(q, w);
  }

  lemma OneChar(q: seq<byte>)
    requires ValidUtf8(q) && q != []
    ensures var n := CharLength(q); 0 < n <= |q| && ValidUtf8(q[..n]) && ValidUtf8(q[n..])
  {
    var n := CharLength(q);
    var c, rest := q[..n], q[n..];
    hide CharLength;
    assert q == c + rest;
    CharLengthWithin(c, rest);
    assert c[n..] == [];
  }

  lemma Flip(left: seq<byte>, right: seq<byte>)
    requires TextOverlap(right, left)
    ensures TextOverlap(left, right)
  {
  }

  lemma SameChar(p: seq<byte>, q: seq<byte>, w: seq<byte>)
    requires ValidUtf8(p) && ValidUtf8(q) && p != [] && q != []
    requires var m, n := CharLength(p), CharLength(q);
             m <= |w| && n <= |w| && w[..m] == p[..m] && w[..n] == q[..n]
    ensures CharLength(p) == CharLength(q) && p[..CharLength(p)] == q[..CharLength(q)]
  {
    var m, n := CharLength(p), CharLength(q);
    assert p[0] == p[..m][0] == w[0] == q[..n][0] == q[0];
  }

  lemma {:induction false} CutDown(p: seq<byte>, q: seq<byte>, w: seq<byte>)
    requires ValidUtf8(p) && ValidUtf8(q) && Accepts(p, w) && Accepts(q, w)
    ensures TextOverlap(p, q)
    decreases |p| + |q| + |w|
  {
    if p != [] && p[0] == STAR {
      StarCutDown(p, q, w);
    } else if q != [] && q[0] == STAR {
      StarCutDown(q, p, w);
      Flip(p, q);
    } else if p == [] || q == [] {
      EmptyCutDown(p, q, w);
    } else {
      var m, n := CharLength(p), CharLength(q);
      CharIsLiteral(p);
      CharIsLiteral(q);
      LiteralBytes(p, m, w);
      LiteralBytes(q, n, w);
      SameChar(p, q, w);
      OneChar(p);
      OneChar(q);
      CutDown(p[n..], q[n..], w[n..]);
      var v :| ValidUtf8(v) && Accepts(p[n..], v) && Accepts(q[n..], v);
      GlueLiteral(p, n, v);
      GlueLiteral(q, n, v);
      ValidAppend(p[..n], v);
    }
  }

  lemma EmptyCutDown(p: seq<byte>, q: seq<byte>, w: seq<byte>)
    requires (p == [] || q == []) && Accepts(p, w) && Accepts(q, w)
    ensures TextOverlap(p, q)
  {
    AcceptsEmpty(w);
    assert ValidUtf8([]);
  }

  /** The left pattern starts with a star. */
  lemma {:induction false} StarCutDown(p: seq<byte>, q: seq<byte>, w: seq<byte>)
    requires ValidUtf8(p) && ValidUtf8(q) && Accepts(p, w) && Accepts(q, w) && p != [] && p[0] == STAR
    ensures TextOverlap(p, q)
    decreases |p| + |q| + |w|, 0
  {
    StarIsChar(p);
    if Accepts(p[1..], w) {
      CutDown(p[1..], q, w);
      var v :| ValidUtf8(v) && Accepts(p[1..], v) && Accepts(q, v);
      StarTakesNothing(p, v);
    } else if q == [] {
      EmptyCutDown(p, q, w);
    } else if q[0] == STAR {
      StarIsChar(q);
      assert p[0..] == p && q[0..] == q;
      SuffixStep(p, 0, w);
      SuffixStep(q, 0, w);
      if Accepts(q[1..], w) {
        CutDown(p, q[1..], w);
        var v :| ValidUtf8(v) && Accepts(p, v) && Accepts(q[1..], v);
        StarTakesNothing(q, v);
      } else {
        CutDown(p, q, w[1..]);
      }
    } else {
      var n := CharLength(q);
      CharIsLiteral(q);
      OneChar(q);
      LiteralBytes(q, n, w);
      assert forall i | 1 <= i < n :: w[i] == w[..n][i] == q[..n][i] == q[i];
      StarMeetsChar(p, w, n);
      CutDown(p, q[n..], w[n..]);
      var v :| ValidUtf8(v) && Accepts(p, v) && Accepts(q[n..], v);
      StarAndChar(p, q, n, v);
    }
  }

  /** The overlap search speaks about text: on patterns in UTF-8 it finds exactly the
      pairs that accept a common string in UTF-8. */
  lemma OverlapIsTextOverlap(left: seq<byte>, right: seq<byte>)
    requires ValidUtf8(left) && ValidUtf8(right)
    ensures Overlap(left, right) <==> TextOverlap(left, right)
  {
    if Overlap(left, right) {
      var w :| Accepts(left, w) && Accepts(right, w);
      CutDown(left, right, w);
    }
  }
}
