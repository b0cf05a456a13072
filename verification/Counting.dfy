/** Sizes of finite sets and sequences without repetition. */
module Counting {

  function Elements<T(==)>(s: seq<T>): set<T> {
    set x | x in s
  }

  predicate NoRepeats<T(==)>(s: seq<T>) {
    forall i, j | 0 <= i < j < |s| :: s[i] != s[j]
  }

  lemma {:induction false} SubsetSize<T>(a: set<T>, b: set<T>)
    requires a <= b
    ensures |a| <= |b|
  {
    if a != {} {
      var x :| x in a;
      SubsetSize(a - {x}, b - {x});
    }
  }

  /** A sequence has as many elements as entries exactly if no entry is repeated. */
  lemma {:induction false} ElementsSize<T>(s: seq<T>)
    ensures |Elements(s)| <= |s|
    ensures |Elements(s)| == |s| <==> NoRepeats(s)
  {
    if s != [] {
      var n := |s| - 1;
      var front, x := s[..n], s[n];
      ElementsSize(front);
      assert s == front + [x];
      assert Elements(s) == Elements(front) + {x};
      if x in front {
        var i :| 0 <= i < n && front[i] == x;
        assert s[i] == s[n];
        assert Elements(s) == Elements(front);
      } else {
        assert NoRepeats(s) <==> NoRepeats(front) by {
          if NoRepeats(s) {
            assert forall i | 0 <= i < n :: front[i] == s[i];
          }
        }
      }
    }
  }

  /** The numbers below `n`. */
  function Below(n: nat): (r: set<nat>)
    ensures |r| == n
    ensures forall k: nat :: k in r <==> k < n
  {
    if n == 0 then {} else Below(n - 1) + {n - 1}
  }

  /** `n` different numbers below `n` are all of them. */
  lemma AllCovered(s: seq<nat>, n: nat)
    requires |s| == n && NoRepeats(s) && forall i | 0 <= i < n :: s[i] < n
    ensures forall k | 0 <= k < n :: k in s
  {
    forall k | 0 <= k < n
      ensures k in s
    {
      ElementsSize(s);
      if k !in s {
        SubsetSize(Elements(s), Below(n) - {k});
      }
    }
  }

  lemma NoRepeatsStep<T>(s: seq<T>, x: T)
    ensures NoRepeats(s + [x]) <==> NoRepeats(s) && x !in s
  {
    var r := s + [x];
    if NoRepeats(r) {
      assert forall i | 0 <= i < |s| :: s[i] == r[i] && r[i] != r[|s|];
    }
  }

  /** In a multiset of a sequence every member counts once exactly if nothing is repeated. */
  lemma {:induction false} EachOnceIff<T>(s: seq<T>)
    ensures (forall x | x in multiset(s) :: multiset(s)[x] == 1) <==> NoRepeats(s)
  {
    if s != [] {
      var front, x := s[..|s| - 1], s[|s| - 1];
      assert s == front + [x];
      EachOnceIff(front);
      NoRepeatsStep(front, x);
      assert multiset(s) == multiset(front) + multiset{x};
      if forall y | y in multiset(s) :: multiset(s)[y] == 1 {
        assert multiset(s)[x] == 1;
        forall y | y in multiset(front)
          ensures multiset(front)[y] == 1
        {
          assert y in multiset(s);
        }
      }
    }
  }

  /** Without repetition, the members determine the multiset. */
  lemma SameMembers<T>(s: seq<T>, t: seq<T>)
    requires NoRepeats(s) && NoRepeats(t) && forall x :: x in s <==> x in t
    ensures multiset(s) == multiset(t)
  {
    EachOnceIff(s);
    EachOnceIff(t);
    forall x
      ensures multiset(s)[x] == multiset(t)[x]
    {
      assert x in s <==> x in multiset(s);
      assert x in t <==> x in multiset(t);
    }
  }

  lemma NothingBeyond<T>(a: set<T>, b: set<T>)
    ensures a - b == {} <==> a <= b
  {
    if a - b == {} {
      forall x | x in a
        ensures x in b
      {
        assert x !in a - b;
      }
    }
  }
}
