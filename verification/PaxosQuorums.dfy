/** Majorities: when any two quorums share a replica. */
module PaxosQuorums {
  /** The quorum size NewAirlineServer computes for n replicas. */
  function Quorum(n: nat): nat {
    n / 2 + n % 2
  }

  lemma SubsetSize<T>(a: set<T>, b: set<T>)
    requires a <= b
    ensures |a| <= |b|
  {
    assert b == a + (b - a);
  }

  lemma QuorumsMeet<T>(all: set<T>, a: set<T>, b: set<T>, q: int)
    requires a <= all && b <= all && |a| >= q && |b| >= q && 2 * q > |all|
    ensures a * b != {}
  {
    SubsetSize(a + b, all);
    assert |a + b| == |a| + |b| - |a * b|;
  }

  /** Some set of the given size. */
  lemma {:induction false} SubsetOfSize<T>(all: set<T>, k: nat) returns (s: set<T>)
    requires k <= |all|
    ensures s <= all && |s| == k
  {
    if k == 0 {
      s := {};
    } else {
      var x :| x in all;
      var rest := SubsetOfSize(all - {x}, k - 1);
      s := rest + {x};
    }
  }

  /** Two quorums always share a replica exactly when the number of replicas is odd. */
  lemma QuorumsMeetIffOdd<T>(all: set<T>)
    requires all != {}
    ensures |all| % 2 == 1 <==>
            (forall a, b :: a <= all && b <= all && |a| >= Quorum(|all|) && |b| >= Quorum(|all|) ==> a * b != {})
  {
    var q := Quorum(|all|);
    if |all| % 2 == 1 {
      forall a, b | a <= all && b <= all && |a| >= q && |b| >= q
        ensures a * b != {}
      {
        QuorumsMeet(all, a, b, q);
      }
    } else {
      var a := SubsetOfSize(all, q);
      var b := all - a;
      assert a * b == {} && |b| == |all| - |a|;
    }
  }
}
