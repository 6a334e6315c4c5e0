/** Pigeonhole counting: a set of indices whose members all leave different
    remainders modulo `n` has at most `n` members. */
module Counting {

  ghost function Residues(S: set<int>, n: int): set<int>
    requires n >= 1
  {
    set i | i in S :: i % n
  }

  /** The residues `0 .. n-1`. */
  ghost function Below(n: nat): (R: set<int>)
    ensures forall r :: r in R <==> 0 <= r < n
    ensures |R| == n
  {
    if n == 0 then {} else Below(n - 1) + {n - 1}
  }

  /** Without two members sharing a remainder, taking remainders loses
      nothing. The induction removes the largest possible index `k - 1`. */
  lemma {:induction false} ResiduesSize(S: set<int>, k: nat, n: int)
    requires n >= 1
    requires forall i :: i in S ==> 0 <= i < k
    requires forall i, j :: i in S && j in S && i != j ==> i % n != j % n
    ensures |Residues(S, n)| == |S|
  {
    if k > 0 {
      var x := k - 1;
      var S' := S - {x};
      ResiduesSize(S', k - 1, n);
      if x in S {
        assert S == S' + {x};
        ResiduesAdd(S', x, n);
        assert x % n !in Residues(S', n);
      } else {
        assert S == S';
      }
    } else {
      assert forall i :: i !in S;
      assert S == {};
    }
  }

  lemma ResiduesAdd(S: set<int>, x: int, n: int)
    requires n >= 1
    ensures Residues(S + {x}, n) == Residues(S, n) + {x % n}
  {
  }

  lemma Pigeonhole(S: set<int>, k: nat, n: int)
    requires n >= 1
    requires forall i :: i in S ==> 0 <= i < k
    requires forall i, j :: i in S && j in S && i != j ==> i % n != j % n
    ensures |S| <= n
  {
    ResiduesSize(S, k, n);
    var R, B := Residues(S, n), Below(n);
    assert R <= B;
    assert B == R + (B - R);
  }
}
