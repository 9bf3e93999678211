/** Orders in which a set can be traversed. */
module Seqs {

  /** s lists every element of S exactly once: one possible iteration order of a HashSet. */
  ghost predicate IsEnumeration<T>(s: seq<T>, S: set<T>)
  {
    && (forall i, j :: 0 <= i < j < |s| ==> s[i] != s[j])
    && (forall i :: 0 <= i < |s| ==> s[i] in S)
    && (forall x :: x in S ==> x in s)
  }

  /** An enumeration is as long as the set it enumerates. */
  lemma {:induction false} EnumerationLength<T>(s: seq<T>, S: set<T>)
    requires IsEnumeration(s, S)
    ensures |s| == |S|
  {
    if s != [] {
      var rest := S - {s[0]};
      assert IsEnumeration(s[1..], rest) by {
        forall x ensures x in s[1..] <==> x in rest {
          if x in s[1..] {
            var j :| 1 <= j < |s| && s[j] == x;
            assert s[0] != s[j];
          }
          if x in rest {
            var j :| 0 <= j < |s| && s[j] == x;
            assert j != 0;
            assert s[1..][j - 1] == x;
          }
        }
      }
      EnumerationLength(s[1..], rest);
    } else {
      assert S == {};
    }
  }

  /** A singleton set has one enumeration. */
  lemma SingletonEnumeration<T>(s: seq<T>, x: T)
    requires IsEnumeration(s, {x})
    ensures s == [x]
  {
    EnumerationLength(s, {x});
    assert s[0] in {x};
  }

  /** Taking a whole sequence gives it back. */
  lemma TakeAll<T>(s: seq<T>, n: nat)
    requires n == |s|
    ensures s[..n] == s
  {
  }
}
