/** Numbers, sequences and counting with finite sets. */
module Basics {
  function Min(a: int, b: int): int { if a < b then a else b }
  function Max(a: int, b: int): int { if a < b then b else a }

  lemma Assoc<T>(a: seq<T>, b: seq<T>, c: seq<T>)
    ensures (a + b) + c == a + (b + c)
  {}

  function One(b: bool): nat { if b then 1 else 0 }

  /** Deciding one element of a set anew. */
  lemma Recount<T>(a: set<T>, a': set<T>, x: T)
    requires a' - {x} == a - {x}
    ensures |a'| == |a| + One(x in a') - One(x in a)
  {
    assert x in a ==> a == (a - {x}) + {x};
    assert x in a' ==> a' == (a - {x}) + {x};
    assert x !in a ==> a == a - {x};
    assert x !in a' ==> a' == a - {x};
  }

  ghost predicate NoRepeat<T>(s: seq<T>) { forall i, j :: 0 <= i < j < |s| ==> s[i] != s[j] }

  ghost function Members<T>(s: seq<T>): set<T> { set x | x in s }

  lemma {:induction false} MembersOf<T>(s: seq<T>)
    requires NoRepeat(s)
    ensures |Members(s)| == |s|
  {
    if s != [] {
      MembersOf(s[1..]);
      assert Members(s) == {s[0]} + Members(s[1..]);
    }
  }
}
