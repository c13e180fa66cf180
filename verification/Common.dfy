// Vocabulary shared by the models.
module Common {
  // A thread. Every model allows any number of them.
  type Tid = nat

  datatype Option<+T> = None | Some(value: T)

  // 1 for what is the case, to be added up.
  function One(b: bool): nat {
    if b then 1 else 0
  }

  // The numbers below n.
  function Below(n: nat): (r: set<nat>)
    ensures forall a: nat :: a in r <==> a < n
    ensures |r| == n
  {
    if n == 0 then {} else Below(n - 1) + {n - 1}
  }

  // The elements of a sequence without repetitions.
  ghost function Elements<T(!new)>(xs: seq<T>): (r: set<T>)
    requires forall i, j :: 0 <= i < j < |xs| ==> xs[i] != xs[j]
    ensures forall x :: x in r <==> x in xs
    ensures |r| == |xs|
  {
    if xs == [] then {} else
    assert xs == xs[..|xs| - 1] + [xs[|xs| - 1]];
    Elements(xs[..|xs| - 1]) + {xs[|xs| - 1]}
  }
}
