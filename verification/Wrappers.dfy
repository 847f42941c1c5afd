/** Optional and failing results, and facts about sequences, shared by the component models. */
module Wrappers {

  datatype Option<+T> = None | Some(value: T)

  datatype Result<+T, +E> = Ok(value: T) | Err(error: E)

  /** Extending a prefix by one element. */
  lemma TakeNext<T>(s: seq<T>, i: nat)
    requires i < |s|
    ensures s[..i + 1] == s[..i] + [s[i]]
    ensures s[..i + 1][..i] == s[..i]
  {
  }

  ghost predicate Distinct<T>(s: seq<T>) {
    forall i, j | 0 <= i < j < |s| :: s[i] != s[j]
  }

  // ----- Counting -----

  function CountWhere<T>(s: seq<T>, p: T -> bool): nat {
    if s == [] then 0 else CountWhere(s[..|s| - 1], p) + if p(s[|s| - 1]) then 1 else 0
  }

  /** The positions of the elements with a property. */
  ghost function PositionsWhere<T>(s: seq<T>, p: T -> bool): set<int> {
    set i | 0 <= i < |s| && p(s[i])
  }

  lemma PositionsWhereNext<T>(s: seq<T>, p: T -> bool)
    requires s != []
    ensures var n := |s| - 1;
      PositionsWhere(s, p) == if p(s[n]) then PositionsWhere(s[..n], p) + {n} else PositionsWhere(s[..n], p)
  {
  }

  lemma {:induction false} CountWhereIsSize<T>(s: seq<T>, p: T -> bool)
    ensures CountWhere(s, p) == |PositionsWhere(s, p)|
  {
    if s == [] {
      assert PositionsWhere(s, p) == {};
    } else {
      CountWhereIsSize(s[..|s| - 1], p);
      PositionsWhereNext(s, p);
    }
  }

  // ----- Keeping some elements -----

  /** The elements with a property, in their order. */
  function Kept<T>(s: seq<T>, p: T -> bool): (r: seq<T>)
    ensures |r| == CountWhere(s, p)
  {
    if s == [] then [] else Kept(s[..|s| - 1], p) + if p(s[|s| - 1]) then [s[|s| - 1]] else []
  }

  /** Each kept element comes after as many others as come before it among all elements. */
  lemma {:induction false} KeptInOrder<T>(s: seq<T>, p: T -> bool, i: nat)
    requires i < |s| && p(s[i])
    ensures CountWhere(s[..i], p) < |Kept(s, p)| && Kept(s, p)[CountWhere(s[..i], p)] == s[i]
  {
    var n := |s| - 1;
    if i < n {
      assert s[..n][..i] == s[..i];
      KeptInOrder(s[..n], p, i);
    }
  }
}
