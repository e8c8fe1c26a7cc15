/** Small shared definitions: optional values and a few facts on sequences. */
module Basics {

  datatype Option<+T> = None | Some(value: T) {
    function GetOr(default: T): T {
      match this
      case Some(v) => v
      case None => default
    }
  }

  /** No element occurs twice. */
  ghost predicate Distinct<T(!new)>(s: seq<T>) {
    forall i, j :: 0 <= i < j < |s| ==> s[i] != s[j]
  }

  function Min(a: nat, b: nat): nat {
    if a <= b then a else b
  }

  lemma PermutationMembers<T>(s: seq<T>, t: seq<T>)
    requires multiset(s) == multiset(t)
    ensures |s| == |t|
    ensures forall x :: x in s <==> x in t
  {
    assert |multiset(s)| == |s| && |multiset(t)| == |t|;
    forall x ensures x in s <==> x in t {
      assert x in s <==> x in multiset(s);
      assert x in t <==> x in multiset(t);
    }
  }

  lemma DistinctCounts<T(!new)>(s: seq<T>)
    ensures Distinct(s) <==> forall x :: x in s ==> multiset(s)[x] == 1
    decreases |s|
  {
    if s == [] {
    } else {
      var n := |s| - 1;
      var t := s[..n];
      assert s == t + [s[n]];
      assert multiset(s) == multiset(t) + multiset{s[n]};
      DistinctCounts(t);
      if Distinct(s) {
        assert Distinct(t);
        assert s[n] !in t;
        assert multiset(t)[s[n]] == 0;
        forall x | x in s ensures multiset(s)[x] == 1 {
          if x == s[n] {
          } else {
            assert x in t;
          }
        }
      }
      if forall x :: x in s ==> multiset(s)[x] == 1 {
        assert multiset(s)[s[n]] == 1;
        assert s[n] !in t by {
          assert multiset(t)[s[n]] == 0;
        }
        forall x | x in t ensures multiset(t)[x] == 1 {
          assert x in s;
          assert x in multiset(t);
        }
        assert Distinct(t);
        forall i, j | 0 <= i < j < |s| ensures s[i] != s[j] {
          if j == n {
            assert s[i] in t;
          } else {
            assert s[i] == t[i] && s[j] == t[j];
          }
        }
      }
    }
  }

  /** Reordering keeps a sequence free of duplicates. */
  lemma PermutationDistinct<T(!new)>(s: seq<T>, t: seq<T>)
    requires multiset(s) == multiset(t)
    ensures Distinct(s) <==> Distinct(t)
  {
    PermutationMembers(s, t);
    DistinctCounts(s);
    DistinctCounts(t);
  }
}
