/** Lists that name each of n things once. */
module Permutations {

  /** s lists 0, ..., n - 1 in some order. */
  ghost predicate Permutes(s: seq<nat>, n: nat) {
    |s| == n && forall k: nat :: k in s <==> k < n
  }

  /** A list of n numbers that reaches n different ones has no repetition. */
  lemma PermutesIsDistinct(s: seq<nat>, n: nat)
    requires Permutes(s, n)
    ensures forall i, j :: 0 <= i < j < n ==> s[i] != s[j]
  {
    forall i, j | 0 <= i < j < n ensures s[i] != s[j] {
      if s[i] == s[j] {
        var rest := s[..j] + s[j + 1..];
        forall k: nat | k < n ensures k in rest {
          assert k in s;
          var at: nat :| at < |s| && s[at] == k;
          var at' := if at == j then i else at;
          assert rest[if at' < j then at' else at' - 1] == k;
        }
        Covers(rest, n);
      }
    }
  }

  /** Reaching n different numbers takes at least n places. */
  lemma {:induction false} Covers(s: seq<nat>, n: nat)
    requires forall k: nat :: k < n ==> k in s
    ensures |s| >= n
  {
    if n > 0 {
      assert n - 1 in s;
      var at: nat :| at < |s| && s[at] == n - 1;
      var rest := s[..at] + s[at + 1..];
      forall k: nat | k < n - 1 ensures k in rest {
        assert k in s;
        var i: nat :| i < |s| && s[i] == k;
        assert rest[if i < at then i else i - 1] == k;
      }
      Covers(rest, n - 1);
    }
  }
}
