/**
 Sorting by a strict order, as `Array.prototype.sort` is used in this system:
 always on records whose keys are pairwise distinct once duplicates are gone.
 */
module Sorting {
  import opened Common

  /** A strict order: transitive and asymmetric. */
  ghost predicate StrictOrder<T(!new)>(before: (T, T) -> bool)
  {
    && (forall x, y :: before(x, y) ==> !before(y, x))
    && (forall x, y, z :: before(x, y) && before(y, z) ==> before(x, z))
  }

  /** Every two different members of `s` are ordered one way or the other. */
  ghost predicate Separates<T(!new)>(before: (T, T) -> bool, s: set<T>)
  {
    forall x, y :: x in s && y in s && x != y ==> before(x, y) || before(y, x)
  }

  ghost predicate StrictlySorted<T>(s: seq<T>, before: (T, T) -> bool)
  {
    forall i, j :: 0 <= i < j < |s| ==> before(s[i], s[j])
  }

  function Insert<T>(x: T, s: seq<T>, before: (T, T) -> bool): seq<T>
  {
    if s == [] then [x]
    else if before(s[0], x) then [s[0]] + Insert(x, s[1..], before)
    else [x] + s
  }

  function Sort<T>(s: seq<T>, before: (T, T) -> bool): seq<T>
  {
    if s == [] then [] else Insert(s[0], Sort(s[1..], before), before)
  }

  lemma {:induction false} InsertKeeps<T>(x: T, s: seq<T>, before: (T, T) -> bool)
    ensures multiset(Insert(x, s, before)) == multiset(s) + multiset{x}
  {
    if s != [] {
      assert s == [s[0]] + s[1..];
      if before(s[0], x) {
        InsertKeeps(x, s[1..], before);
      }
    }
  }

  /** Sorting is a permutation. */
  lemma {:induction false} SortKeeps<T>(s: seq<T>, before: (T, T) -> bool)
    ensures multiset(Sort(s, before)) == multiset(s)
    ensures |Sort(s, before)| == |s|
    ensures forall x :: x in Sort(s, before) <==> x in s
  {
    if s != [] {
      SortKeeps(s[1..], before);
      InsertKeeps(s[0], Sort(s[1..], before), before);
      assert s == [s[0]] + s[1..];
    }
    assert |multiset(Sort(s, before))| == |multiset(s)|;
    forall x ensures x in Sort(s, before) <==> x in s {
      assert x in multiset(Sort(s, before)) <==> x in multiset(s);
    }
  }

  lemma {:induction false} InsertSorts<T(!new)>(x: T, s: seq<T>, before: (T, T) -> bool)
    requires StrictOrder(before) && StrictlySorted(s, before)
    requires forall y :: y in s ==> before(x, y) || before(y, x)
    ensures StrictlySorted(Insert(x, s, before), before)
  {
    if s != [] && before(s[0], x) {
      var rest := Insert(x, s[1..], before);
      InsertSorts(x, s[1..], before);
      InsertKeeps(x, s[1..], before);
      forall y | y in rest ensures before(s[0], y) {
        assert y in multiset(rest);
        assert y == x || y in s[1..];
      }
    } else if s != [] {
      assert before(x, s[0]);
      assert forall y :: y in s ==> y == s[0] || before(s[0], y);
    }
  }

  /** Sorting a duplicate-free sequence under an order that separates its members. */
  lemma {:induction false} SortSorts<T(!new)>(s: seq<T>, before: (T, T) -> bool)
    requires StrictOrder(before) && NoDuplicates(s) && Separates(before, Elements(s))
    ensures StrictlySorted(Sort(s, before), before)
  {
    if s != [] {
      var rest := s[1..];
      assert Separates(before, Elements(rest)) by {
        assert forall x :: x in rest ==> x in s;
      }
      SortSorts(rest, before);
      SortKeeps(rest, before);
      forall y | y in Sort(rest, before) ensures before(s[0], y) || before(y, s[0]) {
        assert y in rest && y != s[0] && y in Elements(s);
      }
      InsertSorts(s[0], Sort(rest, before), before);
    }
  }

  /** A strictly sorted sequence is determined by the set of its members. */
  lemma {:induction false} SortedUnique<T(!new)>(s: seq<T>, t: seq<T>, before: (T, T) -> bool)
    requires StrictOrder(before) && StrictlySorted(s, before) && StrictlySorted(t, before)
    requires Elements(s) == Elements(t)
    ensures s == t
  {
    assert s != [] ==> s[0] in Elements(t);
    assert t != [] ==> t[0] in Elements(s);
    if s != [] {
      assert s[0] == t[0];
      var s', t' := s[1..], t[1..];
      forall x ensures x in s' <==> x in t' {
        if x in s' {
          assert before(s[0], x) && x in Elements(t);
        }
        if x in t' {
          assert before(t[0], x) && x in Elements(s);
        }
      }
      SortedUnique(s', t', before);
    }
  }
}
