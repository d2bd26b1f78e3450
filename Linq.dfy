/**
  The two set operators of .NET's LINQ that the deletion planner uses,
  `Distinct` and `Except`. Both walk their first sequence once and yield an
  element exactly when adding it to a hash set of the elements already
  excluded succeeds, so they keep the order of first occurrence and drop
  repeats. `FirstOccurrences` is that walk.
 */
module Linq {

  /** No element occurs twice. */
  predicate NoDuplicates<T(==, !new)>(s: seq<T>)
  {
    forall i, j :: 0 <= i < j < |s| ==> s[i] != s[j]
  }

  /** The elements of `s` that are not in `seen`, each once, in the order in
      which they first occur in `s`. */
  function FirstOccurrences<T(==)>(s: seq<T>, seen: set<T>): seq<T>
  {
    if s == [] then []
    else if s[0] in seen then FirstOccurrences(s[1..], seen)
    else [s[0]] + FirstOccurrences(s[1..], seen + {s[0]})
  }

  /** The walk yields exactly the elements of `s` outside `seen`, none twice,
      and nothing at all when every element is excluded. */
  lemma {:induction false} FirstOccurrencesMembers<T(!new)>(s: seq<T>, seen: set<T>)
    ensures forall x :: x in FirstOccurrences(s, seen) <==> x in s && x !in seen
    ensures NoDuplicates(FirstOccurrences(s, seen))
    ensures |FirstOccurrences(s, seen)| <= |s|
    ensures (forall x :: x in s ==> x in seen) ==> FirstOccurrences(s, seen) == []
  {
    if s != [] {
      assert s == [s[0]] + s[1..];
      if s[0] in seen {
        FirstOccurrencesMembers(s[1..], seen);
      } else {
        FirstOccurrencesMembers(s[1..], seen + {s[0]});
      }
    }
  }

  /** `source.Distinct()`. */
  function Distinct<T(==)>(source: seq<T>): seq<T>
  {
    FirstOccurrences(source, {})
  }

  /** `Distinct` keeps every element, once. */
  lemma DistinctMembers<T(!new)>(source: seq<T>)
    ensures forall x :: x in Distinct(source) <==> x in source
    ensures NoDuplicates(Distinct(source))
  {
    FirstOccurrencesMembers(source, {});
  }

  /** `first.Except(second)`: the distinct elements of `first` that are not
      in `second`. */
  function Except<T(==)>(first: seq<T>, second: seq<T>): seq<T>
  {
    FirstOccurrences(first, set x | x in second)
  }

  /** `Except` keeps exactly the elements of `first` missing from `second`,
      once each, and is empty when `second` covers `first`. */
  lemma ExceptMembers<T(!new)>(first: seq<T>, second: seq<T>)
    ensures forall x :: x in Except(first, second) <==> x in first && x !in second
    ensures NoDuplicates(Except(first, second))
    ensures |Except(first, second)| <= |first|
    ensures (forall x :: x in first ==> x in second) ==> Except(first, second) == []
  {
    FirstOccurrencesMembers(first, set x | x in second);
  }

  /** On a sequence without repeats, none of whose elements is excluded, the
      walk gives the sequence back unchanged, order included. */
  lemma {:induction false} FirstOccurrencesOfFresh<T(!new)>(s: seq<T>, seen: set<T>)
    requires NoDuplicates(s)
    requires forall x :: x in s ==> x !in seen
    ensures FirstOccurrences(s, seen) == s
  {
    if s != [] {
      assert s[0] !in seen;
      forall x | x in s[1..] ensures x !in seen + {s[0]} {
        var k :| 0 <= k < |s[1..]| && s[1..][k] == x;
        assert s[k + 1] == x;
      }
      FirstOccurrencesOfFresh(s[1..], seen + {s[0]});
    }
  }

  /** When some element of `s` is excluded, the walk yields strictly fewer
      elements than `s` has. */
  lemma {:induction false} FirstOccurrencesShrinks<T(!new)>(s: seq<T>, seen: set<T>, x: T)
    requires x in s && x in seen
    ensures |FirstOccurrences(s, seen)| < |s|
  {
    if s[0] == x {
      FirstOccurrencesMembers(s[1..], seen);
    } else {
      FirstOccurrencesShrinks(s[1..], if s[0] in seen then seen else seen + {s[0]}, x);
    }
  }

  /** Two sequences without repeats and without a common element concatenate
      to a sequence without repeats. */
  lemma NoDuplicatesAppend<T(!new)>(a: seq<T>, b: seq<T>)
    requires NoDuplicates(a) && NoDuplicates(b)
    requires forall x :: x in a ==> x !in b
    ensures NoDuplicates(a + b)
  {
    forall i, j | 0 <= i < j < |a + b| ensures (a + b)[i] != (a + b)[j] {
      if j < |a| {
      } else if i < |a| {
        assert (a + b)[i] in a && (a + b)[j] == b[j - |a|];
      } else {
        assert (a + b)[i] == b[i - |a|] && (a + b)[j] == b[j - |a|];
      }
    }
  }

  /** A sequence without repeats holds each of its elements exactly once. */
  lemma {:induction false} NoDuplicatesCountsOnce<T(!new)>(s: seq<T>, x: T)
    requires NoDuplicates(s)
    ensures multiset(s)[x] == if x in s then 1 else 0
  {
    if s != [] {
      assert s == [s[0]] + s[1..];
      assert NoDuplicates(s[1..]) by {
        forall i, j | 0 <= i < j < |s[1..]| ensures s[1..][i] != s[1..][j] {
          assert s[1..][i] == s[i + 1] && s[1..][j] == s[j + 1];
        }
      }
      NoDuplicatesCountsOnce(s[1..], x);
      if x == s[0] {
        forall k | 0 <= k < |s[1..]| ensures s[1..][k] != x {
          assert s[1..][k] == s[k + 1];
        }
      }
    }
  }

  /** Two sequences without repeats that hold the same elements are
      permutations of each other. */
  lemma SameElementsPermutation<T(!new)>(a: seq<T>, b: seq<T>)
    requires NoDuplicates(a) && NoDuplicates(b)
    requires forall x :: x in a <==> x in b
    ensures multiset(a) == multiset(b)
  {
    forall x ensures multiset(a)[x] == multiset(b)[x] {
      NoDuplicatesCountsOnce(a, x);
      NoDuplicatesCountsOnce(b, x);
    }
  }
}
