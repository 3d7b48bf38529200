/** The unit of integration work handed out by the load balancer (XCTask), its
    equivalence and canonical order, and the merge of equivalent tasks. */
module XCTask {
  import opened Sorting

  /** A quadrature point; its coordinates are only ever copied. */
  datatype Point = Point(x: real, y: real, z: real)

  /** Result of screening a batch against a basis: the surviving shells and
      the effective number of basis functions (nbe). */
  datatype Screening = Screening(shellList: seq<int>, nbe: nat)

  /** No screening: used for the second basis when none is configured. */
  const NoScreening := Screening([], 0)

  /** One task: its parent atom, point count, points, weights, screening
      against the primary and the optional second basis, and the parent
      atom's nearest-neighbour distance. */
  datatype Task = Task(
    iParent: nat,
    npts: nat,
    points: seq<Point>,
    weights: seq<real>,
    bfn: Screening,
    bfn2: Screening,
    distNearest: real)

  /** The task's cost heuristic, `cost(n_deriv, natoms)`; its body is not
      part of this model, so it is a parameter. */
  type CostModel = (Task, int, nat) -> nat

  /** The derivative order the balancer passes to the cost heuristic. */
  const NDeriv: int := 1

  /** Assumed reading of `equiv_with`: same parent atom and same primary shell list. */
  predicate Equiv(a: Task, b: Task) {
    a.iParent == b.iParent && a.bfn.shellList == b.bfn.shellList
  }

  /** `operator<` on integer vectors: lexicographic, a proper prefix is smaller. */
  predicate ShellLess(a: seq<int>, b: seq<int>)
    decreases |a|
  {
    if |b| == 0 then false
    else if |a| == 0 then true
    else if a[0] < b[0] then true
    else if b[0] < a[0] then false
    else ShellLess(a[1..], b[1..])
  }

  /** The canonical task order: by parent atom, then by shell list. */
  predicate TaskLess(a: Task, b: Task) {
    if a.iParent < b.iParent then true
    else if a.iParent > b.iParent then false
    else ShellLess(a.bfn.shellList, b.bfn.shellList)
  }

  lemma {:induction false} ShellLessIrreflexive(a: seq<int>)
    ensures !ShellLess(a, a)
    decreases |a|
  {
    if |a| > 0 {
      ShellLessIrreflexive(a[1..]);
    }
  }

  lemma {:induction false} ShellLessTransitive(a: seq<int>, b: seq<int>, c: seq<int>)
    requires ShellLess(a, b) && ShellLess(b, c)
    ensures ShellLess(a, c)
    decreases |a|
  {
    if |a| > 0 && |b| > 0 && |c| > 0 && a[0] == b[0] == c[0] {
      ShellLessTransitive(a[1..], b[1..], c[1..]);
    }
  }

  /** Lexicographic order on shell lists is total: two lists are ordered one
      way or the other unless they are equal. */
  lemma {:induction false} ShellLessTrichotomy(a: seq<int>, b: seq<int>)
    ensures ShellLess(a, b) || a == b || ShellLess(b, a)
    decreases |a|
  {
    if |a| > 0 && |b| > 0 && a[0] == b[0] {
      ShellLessTrichotomy(a[1..], b[1..]);
      if a[1..] == b[1..] {
        assert a == [a[0]] + a[1..] && b == [b[0]] + b[1..];
      }
    }
  }

  /** Two tasks are unordered by the canonical order exactly when they are equivalent. */
  lemma IncomparableIffEquiv(a: Task, b: Task)
    ensures !TaskLess(a, b) && !TaskLess(b, a) <==> Equiv(a, b)
  {
    ShellLessTrichotomy(a.bfn.shellList, b.bfn.shellList);
    ShellLessIrreflexive(a.bfn.shellList);
  }

  lemma TaskLessTransitive(a: Task, b: Task, c: Task)
    requires TaskLess(a, b) && TaskLess(b, c)
    ensures TaskLess(a, c)
  {
    if a.iParent == b.iParent == c.iParent {
      ShellLessTransitive(a.bfn.shellList, b.bfn.shellList, c.bfn.shellList);
    }
  }

  /** The canonical order satisfies the requirements of std::sort. */
  lemma TaskLessIsStrictWeakOrder()
    ensures StrictWeakOrder(TaskLess)
  {
    forall x: Task ensures !TaskLess(x, x) {
      ShellLessIrreflexive(x.bfn.shellList);
    }
    forall x: Task, y: Task, z: Task | TaskLess(x, y) && TaskLess(y, z)
      ensures TaskLess(x, z)
    {
      TaskLessTransitive(x, y, z);
    }
    forall x: Task, y: Task, z: Task | TaskLess(x, z)
      ensures TaskLess(x, y) || TaskLess(y, z)
    {
      if !TaskLess(x, y) && !TaskLess(y, z) {
        ShellLessTrichotomy(x.bfn.shellList, y.bfn.shellList);
        ShellLessTrichotomy(y.bfn.shellList, z.bfn.shellList);
        if x.iParent == y.iParent == z.iParent {
          if ShellLess(y.bfn.shellList, x.bfn.shellList) && ShellLess(z.bfn.shellList, y.bfn.shellList) {
            ShellLessTransitive(z.bfn.shellList, y.bfn.shellList, x.bfn.shellList);
          }
          if ShellLess(x.bfn.shellList, z.bfn.shellList) && ShellLess(z.bfn.shellList, x.bfn.shellList) {
            ShellLessTransitive(x.bfn.shellList, z.bfn.shellList, x.bfn.shellList);
            ShellLessIrreflexive(x.bfn.shellList);
          }
        }
      }
    }
  }

  /** The in-order concatenation of the tasks' points. */
  function AllPoints(ts: seq<Task>): seq<Point>
    decreases |ts|
  {
    if |ts| == 0 then [] else AllPoints(ts[..|ts| - 1]) + ts[|ts| - 1].points
  }

  /** The in-order concatenation of the tasks' weights. */
  function AllWeights(ts: seq<Task>): seq<real>
    decreases |ts|
  {
    if |ts| == 0 then [] else AllWeights(ts[..|ts| - 1]) + ts[|ts| - 1].weights
  }

  /** Assumed reading of `merge_with`: append the others' points and weights
      in order and set the point count; nothing else changes. */
  function MergeWith(t: Task, others: seq<Task>): (r: Task)
    ensures Equiv(r, t) && r.bfn == t.bfn && r.bfn2 == t.bfn2 && r.distNearest == t.distNearest
    ensures r.npts == |r.points|
  {
    var pts := t.points + AllPoints(others);
    t.(points := pts, weights := t.weights + AllWeights(others), npts := |pts|)
  }

  lemma {:induction false} AllPointsAppend(a: seq<Task>, b: seq<Task>)
    ensures AllPoints(a + b) == AllPoints(a) + AllPoints(b)
    decreases |b|
  {
    if |b| == 0 {
      assert a + b == a;
    } else {
      var b' := b[..|b| - 1];
      var ab := a + b;
      assert ab[..|ab| - 1] == a + b';
      assert ab[|ab| - 1] == b[|b| - 1];
      AllPointsAppend(a, b');
      calc {
        AllPoints(ab);
        AllPoints(a + b') + b[|b| - 1].points;
        AllPoints(a) + (AllPoints(b') + b[|b| - 1].points);
      }
    }
  }

  lemma {:induction false} AllWeightsAppend(a: seq<Task>, b: seq<Task>)
    ensures AllWeights(a + b) == AllWeights(a) + AllWeights(b)
    decreases |b|
  {
    if |b| == 0 {
      assert a + b == a;
    } else {
      var b' := b[..|b| - 1];
      var ab := a + b;
      assert ab[..|ab| - 1] == a + b';
      assert ab[|ab| - 1] == b[|b| - 1];
      AllWeightsAppend(a, b');
      calc {
        AllWeights(ab);
        AllWeights(a + b') + b[|b| - 1].weights;
        AllWeights(a) + (AllWeights(b') + b[|b| - 1].weights);
      }
    }
  }

  /** Merging two ranges one after the other is merging their concatenation. */
  lemma MergeWithTwice(t: Task, a: seq<Task>, b: seq<Task>)
    ensures MergeWith(MergeWith(t, a), b) == MergeWith(t, a + b)
  {
    AllPointsAppend(a, b);
    AllWeightsAppend(a, b);
  }

  /** Removing one task from a list removes exactly its points and weights
      from the concatenation. */
  lemma PayloadWithout(b: seq<Task>, j: nat)
    requires j < |b|
    ensures var rest := b[..j] + b[j + 1..];
      && multiset(AllPoints(b)) == multiset(AllPoints(rest)) + multiset(b[j].points)
      && multiset(AllWeights(b)) == multiset(AllWeights(rest)) + multiset(b[j].weights)
  {
    var x := b[j];
    assert b == b[..j] + [x] + b[j + 1..];
    assert [x][..0] == [];
    AllPointsAppend(b[..j] + [x], b[j + 1..]);
    AllPointsAppend(b[..j], [x]);
    AllPointsAppend(b[..j], b[j + 1..]);
    AllWeightsAppend(b[..j] + [x], b[j + 1..]);
    AllWeightsAppend(b[..j], [x]);
    AllWeightsAppend(b[..j], b[j + 1..]);
  }

  /** Reordering tasks reorders their points and weights: the multisets of
      all points and of all weights depend only on the multiset of tasks. */
  lemma {:induction false} PayloadPermutation(a: seq<Task>, b: seq<Task>)
    requires multiset(a) == multiset(b)
    ensures multiset(AllPoints(a)) == multiset(AllPoints(b))
    ensures multiset(AllWeights(a)) == multiset(AllWeights(b))
    decreases |a|
  {
    if |a| == 0 {
      assert |multiset(b)| == 0;
      assert b == [];
    } else {
      var n := |a| - 1;
      var x := a[n];
      assert a == a[..n] + [x];
      assert x in multiset(b);
      var j :| 0 <= j < |b| && b[j] == x;
      var rest := b[..j] + b[j + 1..];
      assert b == b[..j] + [x] + b[j + 1..];
      assert multiset(rest) == multiset(b) - multiset{x};
      assert multiset(a[..n]) == multiset(a) - multiset{x};
      PayloadPermutation(a[..n], rest);
      PayloadWithout(b, j);
    }
  }
}
