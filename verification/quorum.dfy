/** Vote thresholds (src/omutil.cc) and what two quorums must have in common. */
module Quorum {

  /** C++ int division, which truncates toward zero. */
  function TruncDiv(a: int, b: int): (r: int)
    requires b > 0
    ensures a >= 0 ==> r * b <= a < r * b + b
    ensures a <= 0 ==> r * b - b < a <= r * b
  {
    if a >= 0 then a / b else -((-a) / b)
  }

  /** The number of faulty voters tolerated among n. */
  function Faulty(n: int): int {
    TruncDiv(n - 1, 3)
  }

  /** A quorum never exceeds the number of voters, except that zero voters still need one vote. */
  function TwoFPlus1(n: nat): (r: nat)
    ensures 1 <= r
    ensures n >= 1 ==> r <= n
    ensures n >= 2 ==> r < n
  {
    2 * Faulty(n) + 1
  }

  /** n voters tolerate f faulty ones, and no more. */
  predicate Tolerates(n: nat, f: nat) {
    3 * f < n <= 3 * f + 3
  }

  /** Two votes for each faulty voter that n of them tolerate, and one more. */
  ghost predicate IsQuorum(votes: nat, n: nat) {
    exists f: nat :: Tolerates(n, f) && votes >= 2 * f + 1
  }

  /** The threshold of the program is that quorum. */
  lemma {:induction false} ThresholdIsQuorum(votes: nat, n: nat)
    requires n >= 1
    ensures IsQuorum(votes, n) <==> votes >= TwoFPlus1(n)
  {
    assert Tolerates(n, (n - 1) / 3);
  }

  lemma {:induction false} MoreIsQuorum(votes: nat, more: nat, n: nat)
    requires votes <= more
    ensures IsQuorum(votes, n) ==> IsQuorum(more, n)
  {
  }

  lemma {:induction false} InclusionExclusion<T>(a: set<T>, b: set<T>)
    ensures |a * b| == |a| + |b| - |a + b|
  {
    assert a + b == a + (b - a);
    assert |a + b| == |a| + |b - a|;
    assert b == (b - a) + (a * b);
    assert |b| == |b - a| + |a * b|;
  }

  lemma {:induction false} SubsetSize<T>(a: set<T>, b: set<T>)
    requires a <= b
    ensures |a| <= |b|
    ensures |a| == |b| ==> a == b
  {
    assert b == a + (b - a);
    assert |b| == |a| + |b - a|;
    if |a| == |b| {
      assert b - a == {};
    }
  }

  /** The set of numbers below n. */
  function Below(n: nat): (s: set<nat>)
    ensures |s| == n
    ensures forall i: nat :: i in s <==> i < n
  {
    if n == 0 then {} else Below(n - 1) + {n - 1}
  }

  /** Any two quorums drawn from the same voters share at least 4f + 2 - n of them. */
  lemma {:induction false} QuorumOverlap<T>(voters: set<T>, a: set<T>, b: set<T>)
    requires a <= voters && b <= voters
    requires |a| >= TwoFPlus1(|voters|) && |b| >= TwoFPlus1(|voters|)
    ensures |a * b| >= 4 * Faulty(|voters|) + 2 - |voters|
  {
    InclusionExclusion(a, b);
    SubsetSize(a + b, voters);
  }

  ghost predicate QuorumsAlwaysMeet(n: nat) {
    forall a: set<nat>, b: set<nat> ::
      a <= Below(n) && b <= Below(n) && |a| >= TwoFPlus1(n) && |b| >= TwoFPlus1(n) ==> a * b != {}
  }

  lemma {:induction false} DisjointQuorums(n: nat, a: set<nat>, b: set<nat>)
    requires a <= Below(n) && b <= Below(n)
    requires |a| >= TwoFPlus1(n) && |b| >= TwoFPlus1(n)
    requires a !! b
    ensures !QuorumsAlwaysMeet(n)
  {
    assert a * b == {};
  }

  /** Two quorums among n >= 1 voters are certain to share a voter except when n is 2, 3 or 6. */
  lemma {:induction false} QuorumsMeetExactlyWhen(n: nat)
    requires n >= 1
    ensures QuorumsAlwaysMeet(n) <==> n != 2 && n != 3 && n != 6
  {
    if n == 2 || n == 3 {
      DisjointQuorums(n, {0}, {1});
    } else if n == 6 {
      DisjointQuorums(n, {0, 1, 2}, {3, 4, 5});
    } else {
      forall a: set<nat>, b: set<nat> |
        a <= Below(n) && b <= Below(n) && |a| >= TwoFPlus1(n) && |b| >= TwoFPlus1(n)
        ensures a * b != {}
      {
        QuorumOverlap(Below(n), a, b);
        assert 4 * Faulty(n) + 2 - n > 0;
      }
    }
  }
}
