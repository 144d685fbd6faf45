// Sums of a weight over a sequence, as used to count processes in a phase,
// finished rounds and outstanding work.
module Counting {

  ghost function Total<T(!new)>(s: seq<T>, w: T -> nat): nat {
    if s == [] then 0 else w(s[0]) + Total(s[1..], w)
  }

  // Replacing one element changes the sum by the difference of the two weights.
  lemma {:induction false} TotalUpdate<T(!new)>(s: seq<T>, k: nat, x: T, w: T -> nat)
    requires k < |s|
    ensures Total(s[k := x], w) + w(s[k]) == Total(s, w) + w(x)
  {
    if k == 0 {
      assert s[0 := x][1..] == s[1..];
    } else {
      assert s[k := x][1..] == s[1..][k - 1 := x];
      TotalUpdate(s[1..], k - 1, x, w);
    }
  }

  lemma {:induction false} TotalAtLeast<T(!new)>(s: seq<T>, k: nat, w: T -> nat)
    requires k < |s|
    ensures w(s[k]) <= Total(s, w)
  {
    if k > 0 {
      TotalAtLeast(s[1..], k - 1, w);
    }
  }

  lemma {:induction false} TotalAtLeastTwo<T(!new)>(s: seq<T>, j: nat, k: nat, w: T -> nat)
    requires j < k < |s|
    ensures w(s[j]) + w(s[k]) <= Total(s, w)
  {
    if j == 0 {
      TotalAtLeast(s[1..], k - 1, w);
    } else {
      TotalAtLeastTwo(s[1..], j - 1, k - 1, w);
    }
  }

  // A positive sum has a contributor.
  lemma {:induction false} TotalPositive<T(!new)>(s: seq<T>, w: T -> nat) returns (k: nat)
    requires Total(s, w) > 0
    ensures k < |s| && w(s[k]) > 0
  {
    if w(s[0]) > 0 {
      k := 0;
    } else {
      var j := TotalPositive(s[1..], w);
      k := j + 1;
    }
  }

  lemma {:induction false} TotalUniform<T(!new)>(s: seq<T>, w: T -> nat, b: nat)
    requires forall k | 0 <= k < |s| :: w(s[k]) == b
    ensures Total(s, w) == |s| * b
  {
    if s != [] {
      TotalUniform(s[1..], w, b);
    }
  }

  // A sum below |s| * b has an element below b, when no element exceeds b.
  lemma {:induction false} TotalBound<T(!new)>(s: seq<T>, w: T -> nat, b: nat)
    requires forall k | 0 <= k < |s| :: w(s[k]) <= b
    ensures Total(s, w) <= |s| * b
    ensures Total(s, w) == |s| * b <==> forall k | 0 <= k < |s| :: w(s[k]) == b
  {
    if s != [] {
      TotalBound(s[1..], w, b);
      assert |s| * b == b + |s[1..]| * b;
      assert forall k | 0 <= k < |s[1..]| :: s[1..][k] == s[k + 1];
      if w(s[0]) == b && forall k | 0 <= k < |s[1..]| :: w(s[1..][k]) == b {
        forall k | 0 <= k < |s| ensures w(s[k]) == b {
          if k > 0 {
            assert s[k] == s[1..][k - 1];
          }
        }
      }
    }
  }

  lemma {:induction false} TotalMonotone<T(!new)>(s: seq<T>, v: T -> nat, w: T -> nat)
    requires forall k | 0 <= k < |s| :: v(s[k]) <= w(s[k])
    ensures Total(s, v) <= Total(s, w)
  {
    if s != [] {
      TotalMonotone(s[1..], v, w);
    }
  }

  lemma {:induction false} TotalSum<T(!new)>(s: seq<T>, u: T -> nat, v: T -> nat, w: T -> nat)
    requires forall k | 0 <= k < |s| :: u(s[k]) + v(s[k]) == w(s[k])
    ensures Total(s, u) + Total(s, v) == Total(s, w)
  {
    if s != [] {
      TotalSum(s[1..], u, v, w);
    }
  }
}
