/** Facts about sequences used as lists of file paths. */
module Seqs {

  /** No element occurs twice in `s`. */
  ghost predicate NoDup<T>(s: seq<T>)
  {
    forall i, j :: 0 <= i < j < |s| ==> s[i] != s[j]
  }

  /** Every element of `a` is also an element of `b`. */
  ghost predicate SubsetOf<T>(a: seq<T>, b: seq<T>)
  {
    forall x :: x in a ==> x in b
  }

  lemma ConsAppend<T>(x: T, a: seq<T>, b: seq<T>)
    ensures ([x] + a) + b == [x] + (a + b)
  {
  }

  lemma NoDupCons<T>(x: T, t: seq<T>)
    requires NoDup(t) && x !in t
    ensures NoDup([x] + t)
  {
    var s := [x] + t;
    forall i, j | 0 <= i < j < |s| ensures s[i] != s[j] {
      assert s[j] == t[j - 1];
      if i > 0 {
        assert s[i] == t[i - 1];
      }
    }
  }

  /** A duplicate-free sequence holds each of its elements exactly once, and
      a sequence that holds each element at most once is duplicate-free. */
  lemma {:induction false} NoDupIffCountsOne<T>(s: seq<T>)
    ensures NoDup(s) <==> forall x :: x in s ==> multiset(s)[x] == 1
  {
    if s == [] {
    } else {
      var t := s[1..];
      assert s == [s[0]] + t;
      NoDupIffCountsOne(t);
      if NoDup(s) {
        assert NoDup(t) by {
          forall i, j | 0 <= i < j < |t| ensures t[i] != t[j] {
            assert t[i] == s[i + 1] && t[j] == s[j + 1];
          }
        }
        forall x | x in s ensures multiset(s)[x] == 1 {
          if x == s[0] {
            assert multiset(t)[x] == 0;
          } else {
            assert x in t;
          }
        }
      } else {
        var i, j :| 0 <= i < j < |s| && s[i] == s[j];
        var x := s[i];
        if i == 0 {
          assert x in t by { assert t[j - 1] == x; }
          assert multiset(s)[x] == 1 + multiset(t)[x];
        } else {
          assert !NoDup(t) by { assert t[i - 1] == t[j - 1]; }
          var y :| y in t && multiset(t)[y] != 1;
          assert multiset(t)[y] >= 2 by { assert y in multiset(t); }
          assert y in s;
        }
      }
    }
  }
}
