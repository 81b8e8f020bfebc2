/** Counting the elements of a sequence that satisfy a predicate. */
module Counting {

  function Count<T>(s: seq<T>, p: T -> bool): nat {
    if s == [] then 0
    else Count(s[..|s| - 1], p) + (if p(s[|s| - 1]) then 1 else 0)
  }

  /** Replacing one element changes the count by what that element contributed. */
  lemma {:induction false} CountUpdate<T>(s: seq<T>, i: nat, v: T, p: T -> bool)
    requires i < |s|
    ensures Count(s[i := v], p)
         == Count(s, p) - (if p(s[i]) then 1 else 0) + (if p(v) then 1 else 0)
  {
    var last := |s| - 1;
    if i == last {
      assert s[i := v][..last] == s[..last];
    } else {
      CountUpdate(s[..last], i, v, p);
      assert s[i := v][..last] == s[..last][i := v];
    }
  }

  /** A count is positive exactly when some element satisfies the predicate. */
  lemma {:induction false} CountPositive<T>(s: seq<T>, p: T -> bool)
    ensures Count(s, p) > 0 <==> exists i :: 0 <= i < |s| && p(s[i])
  {
    if s != [] {
      var last := |s| - 1;
      CountPositive(s[..last], p);
      if p(s[last]) {
        assert Count(s, p) > 0;
      } else if Count(s[..last], p) > 0 {
        var i :| 0 <= i < last && p(s[..last][i]);
        assert p(s[i]);
      } else {
        forall i | 0 <= i < |s| ensures !p(s[i]) {
          if i < last {
            assert !p(s[..last][i]);
          }
        }
      }
    }
  }

  /** Counts of disjoint predicates add up. */
  lemma {:induction false} CountSplit<T>(s: seq<T>, whole: T -> bool, a: T -> bool, b: T -> bool)
    requires forall i :: 0 <= i < |s| ==> (whole(s[i]) <==> a(s[i]) || b(s[i])) && !(a(s[i]) && b(s[i]))
    ensures Count(s, whole) == Count(s, a) + Count(s, b)
  {
    if s != [] {
      var last := |s| - 1;
      CountSplit(s[..last], whole, a, b);
    }
  }
}
