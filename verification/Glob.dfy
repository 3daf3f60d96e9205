/** The action-mapping globs: the in-place matcher and the search that decides
    whether two patterns overlap, both proved against one declarative meaning. */
module Glob {
  import opened Prelude

  const STAR: byte := 42

  // ----- Declarative meaning -----

  function Join(pieces: seq<seq<byte>>): seq<byte> {
    if pieces == [] then [] else pieces[0] + Join(pieces[1..])
  }

  /** `*` stands for any byte sequence, every other token for itself. */
  ghost predicate Fits(token: byte, piece: seq<byte>) {
    token == STAR || piece == [token]
  }

  ghost predicate Assigns(pattern: seq<byte>, pieces: seq<seq<byte>>) {
    |pieces| == |pattern| && forall i | 0 <= i < |pattern| :: Fits(pattern[i], pieces[i])
  }

  /** A value is accepted when it can be cut into one piece per token. */
  ghost predicate Accepts(pattern: seq<byte>, value: seq<byte>) {
    exists pieces :: Assigns(pattern, pieces) && Join(pieces) == value
  }

  ghost predicate Overlap(left: seq<byte>, right: seq<byte>) {
    exists value :: Accepts(left, value) && Accepts(right, value)
  }

  // ----- Laws of the meaning -----

  lemma {:induction false} JoinAppend(a: seq<seq<byte>>, b: seq<seq<byte>>)
    ensures Join(a + b) == Join(a) + Join(b)
  {
    if a == [] {
      assert a + b == b;
    } else {
      JoinAppend(a[1..], b);
      assert (a + b)[1..] == a[1..] + b && (a + b)[0] == a[0];
      var x, y, z := a[0], Join(a[1..]), Join(b);
      hide Join;
      assert x + (y + z) == (x + y) + z;
    }
  }

  lemma AcceptsEmpty(value: seq<byte>)
    ensures Accepts([], value) <==> value == []
  {
    assert Assigns([], []) && Join([]) == [];
  }

  lemma AcceptsToken(token: byte, value: seq<byte>)
    ensures Accepts([token], value) <==> Fits(token, value)
  {
    if Fits(token, value) {
      assert Join([value]) == value;
      assert Assigns([token], [value]);
    }
    if Accepts([token], value) {
      var pieces :| Assigns([token], pieces) && Join(pieces) == value;
      assert pieces == [pieces[0]];
      assert Join(pieces) == pieces[0];
    }
  }

  /** Gluing two accepted values is accepted by the glued pattern. */
  lemma AcceptsGlue(p: seq<byte>, q: seq<byte>, v: seq<byte>, w: seq<byte>)
    requires Accepts(p, v) && Accepts(q, w)
    ensures Accepts(p + q, v + w)
  {
    var a :| Assigns(p, a) && Join(a) == v;
    var b :| Assigns(q, b) && Join(b) == w;
    JoinAppend(a, b);
    assert Assigns(p + q, a + b);
  }

  /** Every value of a glued pattern can be cut between the two patterns. */
  lemma AcceptsCut(p: seq<byte>, q: seq<byte>, value: seq<byte>) returns (k: nat)
    requires Accepts(p + q, value)
    ensures k <= |value| && Accepts(p, value[..k]) && Accepts(q, value[k..])
  {
    var pieces :| Assigns(p + q, pieces) && Join(pieces) == value;
    var a, b := pieces[..|p|], pieces[|p|..];
    JoinAppend(a, b);
    assert pieces == a + b;
    k := |Join(a)|;
    assert Assigns(p, a) by {
      forall i | 0 <= i < |p| ensures Fits(p[i], a[i]) { assert (p + q)[i] == p[i]; }
    }
    assert Assigns(q, b) by {
      forall i | 0 <= i < |q| ensures Fits(q[i], b[i]) { assert (p + q)[|p| + i] == q[i]; }
    }
    assert value[..k] == Join(a) && value[k..] == Join(b);
  }

  /** Appending a literal consumes exactly that last byte. */
  lemma AcceptsThenLiteral(p: seq<byte>, c: byte, value: seq<byte>)
    requires c != STAR
    ensures Accepts(p + [c], value) <==>
            |value| > 0 && value[|value| - 1] == c && Accepts(p, value[..|value| - 1])
  {
    if Accepts(p + [c], value) {
      var k := AcceptsCut(p, [c], value);
      AcceptsToken(c, value[k..]);
      assert value[k..] == [c];
    }
    if |value| > 0 && value[|value| - 1] == c && Accepts(p, value[..|value| - 1]) {
      AcceptsToken(c, [c]);
      AcceptsGlue(p, [c], value[..|value| - 1], [c]);
      assert value[..|value| - 1] + [c] == value;
    }
  }

  /** Appending a `*` accepts every extension. */
  lemma AcceptsThenStar(p: seq<byte>, value: seq<byte>)
    ensures Accepts(p + [STAR], value) <==>
            exists j | 0 <= j <= |value| :: Accepts(p, value[..j])
  {
    if Accepts(p + [STAR], value) {
      var k := AcceptsCut(p, [STAR], value);
    }
    if j :| 0 <= j <= |value| && Accepts(p, value[..j]) {
      AcceptsToken(STAR, value[j..]);
      AcceptsGlue(p, [STAR], value[..j], value[j..]);
      assert value[..j] + value[j..] == value;
    }
  }

  // ----- The matcher -----

  /** The shortcut for a pattern without `*`. */
  lemma {:induction false} LiteralPattern(pattern: seq<byte>, value: seq<byte>)
    requires STAR !in pattern
    ensures Accepts(pattern, value) <==> pattern == value
  {
    if pattern == [] {
      AcceptsEmpty(value);
    } else {
      var init, last := pattern[..|pattern| - 1], pattern[|pattern| - 1];
      assert pattern == init + [last];
      AcceptsThenLiteral(init, last, value);
      if |value| > 0 {
        LiteralPattern(init, value[..|value| - 1]);
        assert value == value[..|value| - 1] + [value[|value| - 1]];
      }
    }
  }

  /** Bit `k` of the array: the first `i` tokens accept the first `k` bytes. */
  ghost predicate Reaches(pattern: seq<byte>, i: nat, value: seq<byte>, k: nat)
    requires i <= |pattern| && k <= |value|
  {
    Accepts(pattern[..i], value[..k])
  }

  lemma ReachesInitially(pattern: seq<byte>, value: seq<byte>, k: nat)
    requires k <= |value|
    ensures Reaches(pattern, 0, value, k) <==> k == 0
  {
    assert pattern[..0] == [];
    AcceptsEmpty(value[..k]);
  }

  lemma ReachesLiteral(pattern: seq<byte>, i: nat, value: seq<byte>, k: nat)
    requires i < |pattern| && k <= |value| && pattern[i] != STAR
    ensures Reaches(pattern, i + 1, value, k) <==>
            k > 0 && Reaches(pattern, i, value, k - 1) && value[k - 1] == pattern[i]
  {
    assert pattern[..i + 1] == pattern[..i] + [pattern[i]];
    AcceptsThenLiteral(pattern[..i], pattern[i], value[..k]);
    if k > 0 {
      assert value[..k][..k - 1] == value[..k - 1];
    }
  }

  lemma ReachesStar(pattern: seq<byte>, i: nat, value: seq<byte>, k: nat)
    requires i < |pattern| && k <= |value| && pattern[i] == STAR
    ensures Reaches(pattern, i + 1, value, k) <==>
            exists j | 0 <= j <= k :: Reaches(pattern, i, value, j)
  {
    assert pattern[..i + 1] == pattern[..i] + [STAR];
    AcceptsThenStar(pattern[..i], value[..k]);
    assert forall j | 0 <= j <= k :: value[..k][..j] == value[..j];
    if j :| 0 <= j <= k && Accepts(pattern[..i], value[..k][..j]) {
      assert Reaches(pattern, i, value, j);
    }
  }

  /** One `*` token: spread every reachable position to the right, in place. */
  method SpreadRight(reachable: array<bool>)
    modifies reachable
    ensures forall k | 0 <= k < reachable.Length ::
              reachable[k] <==> exists j | 0 <= j <= k :: old(reachable[j])
  {
    var seen := false;
    for position := 0 to reachable.Length
      invariant seen <==> exists j | 0 <= j < position :: old(reachable[j])
      invariant forall k | 0 <= k < position ::
                  reachable[k] <==> exists j | 0 <= j <= k :: old(reachable[j])
      invariant forall k | position <= k < reachable.Length :: reachable[k] == old(reachable[k])
    {
      seen := seen || reachable[position];
      reachable[position] := seen;
    }
  }

  /** One literal token: shift reachable positions over a matching byte, in place. */
  method ShiftOver(reachable: array<bool>, value: seq<byte>, token: byte)
    requires reachable.Length == |value| + 1
    modifies reachable
    ensures forall k | 0 <= k <= |value| ::
              reachable[k] <==> k > 0 && old(reachable[k - 1]) && value[k - 1] == token
  {
    var index := |value|;
    while index > 0
      invariant 0 <= index <= |value|
      invariant forall k | index < k <= |value| ::
                  reachable[k] <==> old(reachable[k - 1]) && value[k - 1] == token
      invariant forall k | 0 <= k <= index :: reachable[k] == old(reachable[k])
    {
      reachable[index] := reachable[index - 1] && value[index - 1] == token;
      index := index - 1;
    }
    reachable[0] := false;
  }

  method GlobMatch(pattern: seq<byte>, value: seq<byte>) returns (matched: bool)
    ensures matched <==> Accepts(pattern, value)
  {
    if pattern == [STAR] {
      AcceptsToken(STAR, value);
      return true;
    }
    if STAR !in pattern {
      LiteralPattern(pattern, value);
      return pattern == value;
    }
    var reachable := new bool[|value| + 1](_ => false);
    reachable[0] := true;
    forall k | 0 <= k <= |value| ensures reachable[k] <==> Reaches(pattern, 0, value, k) {
      ReachesInitially(pattern, value, k);
    }
    for i := 0 to |pattern|
      invariant forall k | 0 <= k <= |value| :: reachable[k] <==> Reaches(pattern, i, value, k)
    {
      ghost var before := reachable[..];
      if pattern[i] == STAR {
        SpreadRight(reachable);
        forall k | 0 <= k <= |value| ensures reachable[k] <==> Reaches(pattern, i + 1, value, k) {
          ReachesStar(pattern, i, value, k);
          assert forall j | 0 <= j <= k :: before[j] <==> Reaches(pattern, i, value, j);
        }
      } else {
        ShiftOver(reachable, value, pattern[i]);
        forall k | 0 <= k <= |value| ensures reachable[k] <==> Reaches(pattern, i + 1, value, k) {
          ReachesLiteral(pattern, i, value, k);
          assert k > 0 ==> (before[k - 1] <==> Reaches(pattern, i, value, k - 1));
        }
      }
    }
    assert pattern[..|pattern|] == pattern && value[..|value|] == value;
    matched := reachable[|value|];
  }

  // ----- The overlap search -----

  /** The positions the search may visit. */
  ghost function Grid(left: seq<byte>, right: seq<byte>): set<(nat, nat)> {
    set i: nat, j: nat | i <= |left| && j <= |right| :: (i, j)
  }

  /** `v` can be read with `i` tokens finished, perhaps inside a `*` at `i`. */
  ghost predicate ReadUpTo(p: seq<byte>, i: nat, v: seq<byte>) {
    i <= |p| && (Accepts(p[..i], v) || (i < |p| && p[i] == STAR && Accepts(p[..i + 1], v)))
  }

  /** Some byte string leads both patterns to this pair of positions. */
  ghost predicate Reachable(left: seq<byte>, right: seq<byte>, at: (nat, nat)) {
    exists v :: ReadUpTo(left, at.0, v) && ReadUpTo(right, at.1, v)
  }

  /** The pairs pushed after visiting `at`, in the order they are pushed. */
  function Pushes(left: seq<byte>, right: seq<byte>, at: (nat, nat)): seq<(nat, nat)>
  {
    var (i, j) := at;
    var leftStar := i < |left| && left[i] == STAR;
    var rightStar := j < |right| && right[j] == STAR;
    (if leftStar then [(i + 1, j)] else []) +
    (if rightStar then [(i, j + 1)] else []) +
    (if i < |left| && j < |right| then
       if leftStar && rightStar then [(i, j)]
       else if leftStar then [(i, j + 1)]
       else if rightStar then [(i + 1, j)]
       else if left[i] == right[j] then [(i + 1, j + 1)]
       else []
     else [])
  }

  lemma ReadToken(p: seq<byte>, i: nat, v: seq<byte>, w: seq<byte>)
    requires i < |p| && ReadUpTo(p, i, v) && Fits(p[i], w)
    ensures Accepts(p[..i + 1], v + w)
  {
    assert p[..i + 1] == p[..i] + [p[i]];
    if Accepts(p[..i], v) {
      AcceptsToken(p[i], w);
      AcceptsGlue(p[..i], [p[i]], v, w);
    } else {
      AcceptsThenStar(p[..i], v);
      var j :| 0 <= j <= |v| && Accepts(p[..i], v[..j]);
      AcceptsToken(STAR, v[j..] + w);
      AcceptsGlue(p[..i], [STAR], v[..j], v[j..] + w);
      assert v[..j] + (v[j..] + w) == v + w;
    }
  }

  lemma SkipStar(p: seq<byte>, i: nat, v: seq<byte>)
    requires i < |p| && p[i] == STAR && ReadUpTo(p, i, v)
    ensures ReadUpTo(p, i + 1, v)
  {
    ReadToken(p, i, v, []);
    assert v + [] == v;
  }

  /** Soundness of one visit. */
  lemma PushesStayReachable(left: seq<byte>, right: seq<byte>, at: (nat, nat), to: (nat, nat))
    requires Reachable(left, right, at) && at.0 <= |left| && at.1 <= |right|
    requires to in Pushes(left, right, at)
    ensures to in Grid(left, right) && Reachable(left, right, to)
  {
    var (i, j) := at;
    var v :| ReadUpTo(left, i, v) && ReadUpTo(right, j, v);
    if to == at {
    } else if to == (i + 1, j) && left[i] == STAR {
      SkipStar(left, i, v);
    } else if to == (i, j + 1) && right[j] == STAR {
      SkipStar(right, j, v);
    } else {
      var c := if left[i] == STAR then right[j] else left[i];
      ReadToken(left, i, v, [c]);
      ReadToken(right, j, v, [c]);
      assert ReadUpTo(left, to.0, v + [c]) && ReadUpTo(right, to.1, v + [c]);
    }
  }

  lemma EndIsOverlap(left: seq<byte>, right: seq<byte>)
    requires Reachable(left, right, (|left|, |right|))
    ensures Overlap(left, right)
  {
    var v :| ReadUpTo(left, |left|, v) && ReadUpTo(right, |right|, v);
    assert left[..|left|] == left && right[..|right|] == right;
  }

  /** How the first token of a suffix consumes an accepted value. */
  lemma SuffixStep(p: seq<byte>, i: nat, w: seq<byte>)
    requires i < |p| && Accepts(p[i..], w)
    ensures p[i] != STAR ==> |w| > 0 && w[0] == p[i] && Accepts(p[i + 1..], w[1..])
    ensures p[i] == STAR ==> Accepts(p[i + 1..], w) || (|w| > 0 && Accepts(p[i..], w[1..]))
  {
    assert p[i..] == [p[i]] + p[i + 1..];
    var k := AcceptsCut([p[i]], p[i + 1..], w);
    AcceptsToken(p[i], w[..k]);
    if p[i] != STAR {
      assert w[..k] == [p[i]];
    } else if k == 0 {
      assert w[k..] == w;
    } else {
      AcceptsToken(STAR, w[1..k]);
      AcceptsGlue([STAR], p[i + 1..], w[1..k], w[k..]);
      assert w[1..k] + w[k..] == w[1..];
    }
  }

  ghost predicate ClosedUnderPushes(left: seq<byte>, right: seq<byte>, visited: set<(nat, nat)>) {
    visited <= Grid(left, right) &&
    forall at | at in visited :: forall to | to in Pushes(left, right, at) :: to in visited
  }

  /** Completeness: a closed set follows every common string to the end. */
  lemma {:induction false} ClosedFollows(left: seq<byte>, right: seq<byte>, visited: set<(nat, nat)>,
                                         i: nat, j: nat, w: seq<byte>)
    requires ClosedUnderPushes(left, right, visited) && (i, j) in visited
    requires Accepts(left[i..], w) && Accepts(right[j..], w)
    ensures (|left|, |right|) in visited
    decreases |left| - i + |right| - j + |w|
  {
    var next := Pushes(left, right, (i, j));
    if i == |left| && j == |right| {
    } else if i < |left| && left[i] == STAR && Accepts(left[i + 1..], w) {
      assert next[0] == (i + 1, j);
      ClosedFollows(left, right, visited, i + 1, j, w);
    } else if j < |right| && right[j] == STAR && Accepts(right[j + 1..], w) {
      assert (i, j + 1) in next;
      ClosedFollows(left, right, visited, i, j + 1, w);
    } else {
      if i == |left| {
        assert left[i..] == [];
        AcceptsEmpty(w);
      }
      if j == |right| {
        assert right[j..] == [];
        AcceptsEmpty(w);
      }
      if i < |left| { SuffixStep(left, i, w); }
      if j < |right| { SuffixStep(right, j, w); }
      if i < |left| && j < |right| {
        var to := (if left[i] == STAR then i else i + 1, if right[j] == STAR then j else j + 1);
        assert next[|next| - 1] == to;
        ClosedFollows(left, right, visited, to.0, to.1, w[1..]);
      }
    }
  }

  /** What the search maintains: queued pairs are reachable, and everything a
      visited pair pushed is visited or still queued. */
  ghost predicate Exploring(left: seq<byte>, right: seq<byte>,
                            visited: set<(nat, nat)>, pending: seq<(nat, nat)>)
  {
    && visited <= Grid(left, right)
    && (forall at | at in pending :: at in Grid(left, right) && Reachable(left, right, at))
    && (forall at | at in visited ::
          forall to | to in Pushes(left, right, at) :: to in visited || to in pending)
    && ((0, 0) in visited || (0, 0) in pending)
    && (|left|, |right|) !in visited
  }

  lemma ExploringStarts(left: seq<byte>, right: seq<byte>)
    ensures Exploring(left, right, {}, [(0, 0)])
  {
    AcceptsEmpty([]);
    assert left[..0] == [] && right[..0] == [];
    assert ReadUpTo(left, 0, []) && ReadUpTo(right, 0, []);
  }

  lemma ExploringSkips(left: seq<byte>, right: seq<byte>,
                       visited: set<(nat, nat)>, pending: seq<(nat, nat)>)
    requires Exploring(left, right, visited, pending) && pending != [] && pending[0] in visited
    ensures Exploring(left, right, visited, pending[1..])
  {
    assert pending == [pending[0]] + pending[1..];
  }

  lemma ExploringVisits(left: seq<byte>, right: seq<byte>,
                        visited: set<(nat, nat)>, pending: seq<(nat, nat)>)
    requires Exploring(left, right, visited, pending) && pending != []
    requires pending[0] !in visited && pending[0] != (|left|, |right|)
    ensures Exploring(left, right, visited + {pending[0]},
                      pending[1..] + Pushes(left, right, pending[0]))
    ensures |Grid(left, right) - (visited + {pending[0]})| < |Grid(left, right) - visited|
  {
    var at := pending[0];
    assert pending == [at] + pending[1..];
    ShrinkCard(Grid(left, right) - (visited + {at}), Grid(left, right) - visited);
    forall to | to in Pushes(left, right, at)
      ensures to in Grid(left, right) && Reachable(left, right, to)
    {
      PushesStayReachable(left, right, at, to);
    }
  }

  lemma ExploredAll(left: seq<byte>, right: seq<byte>, visited: set<(nat, nat)>)
    requires Exploring(left, right, visited, [])
    ensures !Overlap(left, right)
  {
    if v :| Accepts(left, v) && Accepts(right, v) {
      assert left[0..] == left && right[0..] == right;
      ClosedFollows(left, right, visited, 0, 0, v);
    }
  }

  /** The three pushes of one visit. */
  method Enqueue(left: seq<byte>, right: seq<byte>, at: (nat, nat), pending: seq<(nat, nat)>)
    returns (queue: seq<(nat, nat)>)
    ensures queue == pending + Pushes(left, right, at)
  {
    queue := pending;
    var (i, j) := at;
    if i < |left| && left[i] == STAR {
      queue := queue + [(i + 1, j)];
    }
    if j < |right| && right[j] == STAR {
      queue := queue + [(i, j + 1)];
    }
    if i < |left| && j < |right| {
      if left[i] == STAR && right[j] == STAR {
        queue := queue + [(i, j)];
      } else if left[i] == STAR {
        queue := queue + [(i, j + 1)];
      } else if right[j] == STAR {
        queue := queue + [(i + 1, j)];
      } else if left[i] == right[j] {
        queue := queue + [(i + 1, j + 1)];
      }
    }
  }

  /** Breadth-first search over pairs of positions. It terminates because each
      pop shortens the queue or uses up an unvisited pair. */
  method GlobPatternsOverlap(left: seq<byte>, right: seq<byte>) returns (overlap: bool)
    ensures overlap <==> Overlap(left, right)
  {
    var pending: seq<(nat, nat)> := [(0, 0)];
    var visited: set<(nat, nat)> := {};
    ExploringStarts(left, right);
    while pending != []
      invariant Exploring(left, right, visited, pending)
      decreases |Grid(left, right) - visited|, |pending|
    {
      var at := pending[0];
      if at in visited {
        ExploringSkips(left, right, visited, pending);
        pending := pending[1..];
        continue;
      }
      if at == (|left|, |right|) {
        EndIsOverlap(left, right);
        return true;
      }
      ExploringVisits(left, right, visited, pending);
      visited := visited + {at};
      pending := Enqueue(left, right, at, pending[1..]);
    }
    ExploredAll(left, right, visited);
    overlap := false;
  }

  lemma ShrinkCard<T>(a: set<T>, b: set<T>)
    requires a < b
    ensures |a| < |b|
  {
    var x :| x in b && x !in a;
    assert a <= b - {x};
    SubsetCard(a, b - {x});
  }

  lemma SubsetCard<T>(a: set<T>, b: set<T>)
    requires a <= b
    ensures |a| <= |b|
  {
    if a != {} {
      var x :| x in a;
      SubsetCard(a - {x}, b - {x});
    }
  }
}
