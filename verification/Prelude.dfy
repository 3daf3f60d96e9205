/** Types shared by the models. */
module Prelude {
  newtype byte = x: int | 0 <= x < 256

  datatype Option<+T> = None | Some(value: T)

  function Min(a: int, b: int): int {
    if a < b then a else b
  }

  function Max(a: int, b: int): int {
    if a < b then b else a
  }

  /** No finite set of numbers holds them all. */
  lemma FreshNat(used: set<nat>)
    ensures exists n: nat :: n !in used
  {
    var bound := UpperBound(used);
    assert bound !in used;
  }

  lemma {:induction false} UpperBound(used: set<nat>) returns (bound: nat)
    ensures forall n | n in used :: n < bound
  {
    if used == {} {
      bound := 0;
    } else {
      var n :| n in used;
      var rest := UpperBound(used - {n});
      assert forall x | x in used :: x == n || x in used - {n};
      bound := Max(rest, n + 1);
    }
  }
}
