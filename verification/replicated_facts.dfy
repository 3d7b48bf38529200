/** What the replicated balancer guarantees: the tasks it deals out are
    well formed, the ranks split them without overlap, the workload stays
    balanced, and every rank's final list is canonical and loses no point. */
module ReplicatedFacts {
  import opened Wrappers
  import opened Sorting
  import opened XCTask
  import opened Padding
  import opened Greedy
  import opened Canonical
  import opened ReplicatedHost

  /** A task as the integrator receives it: it belongs to one of the first
      `natoms` atoms, holds points, a padded point count matching its point
      list, and at least one surviving shell. */
  predicate Ready(t: Task, natoms: nat, pad: nat) {
    && pad > 0
    && t.iParent < natoms
    && |t.points| > 0 && |t.points| % pad == 0 && t.npts == |t.points|
    && |t.bfn.shellList| > 0
  }

  /** Every batch carries one weight per point. */
  predicate WeightsMatch(atoms: seq<seq<Batch>>) {
    forall i, j | 0 <= i < |atoms| && 0 <= j < |atoms[i]| :: |atoms[i][j].weights| == |atoms[i][j].points|
  }

  // ---------------------------------------------------------------------------
  // The dealt tasks

  /** Every task of a round is ready, and keeps one weight per point. */
  lemma RoundReady(atoms: seq<seq<Batch>>, i: nat, setup: Setup)
    requires i < |atoms| && i < |setup.distNearest| && setup.pad > 0
    ensures forall t | t in Round(atoms, i, setup) :: Ready(t, i + 1, setup.pad)
    ensures WeightsMatch(atoms) ==> forall t | t in Round(atoms, i, setup) :: |t.weights| == |t.points|
  {
    var r := Round(atoms, i, setup);
    forall t | t in r
      ensures Ready(t, i + 1, setup.pad)
      ensures WeightsMatch(atoms) ==> |t.weights| == |t.points|
    {
      var k :| 0 <= k < |r| && r[k] == t;
      RoundTaskReady(atoms, i, setup, k);
    }
  }

  /** Task `k` of a round is the padded task of a batch that yields one. */
  lemma RoundTaskReady(atoms: seq<seq<Batch>>, i: nat, setup: Setup, k: nat)
    requires i < |atoms| && i < |setup.distNearest| && setup.pad > 0
    requires k < |Round(atoms, i, setup)|
    ensures Ready(Round(atoms, i, setup)[k], i + 1, setup.pad)
    ensures WeightsMatch(atoms) ==> |Round(atoms, i, setup)[k].weights| == |Round(atoms, i, setup)[k].points|
  {
    var off := TotalBatches(atoms[..i]);
    var dist := setup.distNearest[i];
    var c := Candidates(i, off, atoms[i], setup, dist);
    CandidatesSound(i, off, atoms[i], setup, dist);
    var t0 := c[k].1;
    assert Round(atoms, i, setup)[k] == PadTask(t0, setup.pad);
    var b := atoms[i][c[k].0 - off];
    assert MakeTask(i, b, setup, dist) == Some(t0);
    PadTaskSpec(t0, setup.pad);
    if WeightsMatch(atoms) {
      assert |b.weights| == |b.points|;
    }
  }

  /** Every task dealt out for `atoms` is ready. */
  lemma {:induction false} PlanReady(atoms: seq<seq<Batch>>, natoms: nat, setup: Setup)
    requires setup.worldSize > 0 && setup.pad > 0 && |atoms| <= |setup.distNearest|
    ensures forall t | t in Plan(atoms, natoms, setup).tasks :: Ready(t, |atoms|, setup.pad)
    ensures WeightsMatch(atoms) ==> forall t | t in Plan(atoms, natoms, setup).tasks :: |t.weights| == |t.points|
    decreases |atoms|
  {
    if |atoms| > 0 {
      var k := |atoms| - 1;
      assert atoms[..k][..k] == atoms[..k];
      PlanReady(atoms[..k], natoms, setup);
      RoundReady(atoms, k, setup);
      assert WeightsMatch(atoms) ==> WeightsMatch(atoms[..k]) by {
        if WeightsMatch(atoms) {
          forall i, j | 0 <= i < k && 0 <= j < |atoms[..k][i]|
            ensures |atoms[..k][i][j].weights| == |atoms[..k][i][j].points|
          {
            assert atoms[..k][i] == atoms[i];
          }
        }
      }
      assert Plan(atoms, natoms, setup).tasks == Plan(atoms[..k], natoms, setup).tasks + Round(atoms, k, setup);
    }
  }

  // ---------------------------------------------------------------------------
  // The assignment

  /** `p` is what one greedy pass over the costs of its tasks produces,
      starting from an idle workload. */
  predicate OnePass(p: Schedule, setup: Setup, natoms: nat)
    requires setup.worldSize > 0
  {
    var costs := Costs(p.tasks, setup.cost, natoms);
    p.ledger == Ledger(Zeros(setup.worldSize), costs) && p.owners == Owners(Zeros(setup.worldSize), costs)
  }

  /** The workload is shared across rounds, so dealing atom by atom is the
      same as one greedy pass over the whole stream of tasks. */
  lemma {:induction false} PlanIsOnePass(atoms: seq<seq<Batch>>, natoms: nat, setup: Setup)
    requires setup.worldSize > 0 && setup.pad > 0 && |atoms| <= |setup.distNearest|
    ensures OnePass(Plan(atoms, natoms, setup), setup, natoms)
    decreases |atoms|
  {
    var z := Zeros(setup.worldSize);
    if |atoms| == 0 {
      assert Costs([], setup.cost, natoms) == [];
    } else {
      var k := |atoms| - 1;
      assert atoms[..k][..k] == atoms[..k];
      var prev := Plan(atoms[..k], natoms, setup);
      PlanIsOnePass(atoms[..k], natoms, setup);
      var round := Round(atoms, k, setup);
      var cp := Costs(prev.tasks, setup.cost, natoms);
      var cr := Costs(round, setup.cost, natoms);
      CostsAppend(prev.tasks, round, setup.cost, natoms);
      LedgerAppend(z, cp, cr);
      OwnersAppend(z, cp, cr);
    }
  }

  lemma {:induction false} SumNatZeros(n: nat)
    ensures SumNat(Zeros(n)) == 0
    decreases n
  {
    if n > 0 {
      assert Zeros(n)[..n - 1] == Zeros(n - 1);
      SumNatZeros(n - 1);
    }
  }

  /** Load balance: when no task costs more than `bound`, the most loaded
      rank carries at most `bound` more than the least loaded one, and the
      ranks together carry exactly the cost of every dealt task. */
  lemma PlanBalanced(atoms: seq<seq<Batch>>, natoms: nat, setup: Setup, bound: nat)
    requires setup.worldSize > 0 && setup.pad > 0 && |atoms| <= |setup.distNearest|
    requires forall t | t in Plan(atoms, natoms, setup).tasks :: setup.cost(t, NDeriv, natoms) <= bound
    ensures Balanced(Plan(atoms, natoms, setup).ledger, bound)
    ensures SumNat(Plan(atoms, natoms, setup).ledger) == SumNat(Costs(Plan(atoms, natoms, setup).tasks, setup.cost, natoms))
  {
    var p := Plan(atoms, natoms, setup);
    var z := Zeros(setup.worldSize);
    var costs := Costs(p.tasks, setup.cost, natoms);
    PlanIsOnePass(atoms, natoms, setup);
    assert forall i | 0 <= i < |costs| :: costs[i] <= bound by {
      forall i | 0 <= i < |costs| ensures costs[i] <= bound {
        assert p.tasks[i] in p.tasks;
      }
    }
    LedgerBalanced(z, costs, bound);
    LedgerTotal(z, costs);
    SumNatZeros(setup.worldSize);
  }

  /** The ranks partition the dealt tasks: the local work of ranks
      0 .. worldSize-1 together holds every dealt task exactly as often as
      it was dealt. */
  lemma WorkPartitioned(atoms: seq<seq<Batch>>, setup: Setup)
    requires ValidSetup(setup, |atoms|)
    ensures RankUnion(Plan(atoms, |atoms|, setup).tasks, Plan(atoms, |atoms|, setup).owners, setup.worldSize)
      == multiset(Plan(atoms, |atoms|, setup).tasks)
  {
    var p := Plan(atoms, |atoms|, setup);
    KeepForPartitions(p.tasks, p.owners, setup.worldSize);
  }

  // ---------------------------------------------------------------------------
  // The final list of one rank

  lemma SumOfMultiples(a: nat, b: nat, pad: nat)
    requires pad > 0 && a % pad == 0 && b % pad == 0
    ensures (a + b) % pad == 0
  {
    assert a == (a / pad) * pad;
    assert b == (b / pad) * pad;
    assert a + b == (a / pad + b / pad) * pad;
    DivModUnique(a + b, a / pad + b / pad, 0, pad);
  }

  /** Concatenating tasks whose point counts are multiples of `pad` gives a
      multiple of `pad`, at least as long as the first task's points. */
  lemma {:induction false} ConcatPadded(g: seq<Task>, pad: nat)
    requires pad > 0 && |g| > 0
    requires forall x | x in g :: |x.points| % pad == 0
    ensures |AllPoints(g)| % pad == 0
    ensures |AllPoints(g)| >= |g[0].points|
    ensures (forall x | x in g :: |x.weights| == |x.points|) ==> |AllWeights(g)| == |AllPoints(g)|
    decreases |g|
  {
    var n := |g| - 1;
    var x := g[n];
    assert x in g;
    var g' := g[..n];
    assert AllPoints(g) == AllPoints(g') + x.points;
    assert AllWeights(g) == AllWeights(g') + x.weights;
    if n == 0 {
      assert g' == [];
    } else {
      assert forall y | y in g' :: y in g;
      assert g'[0] == g[0];
      ConcatPadded(g', pad);
      SumOfMultiples(|AllPoints(g')|, |x.points|, pad);
    }
  }

  /** Merging runs of ready tasks gives ready tasks; so does merging runs
      of tasks with one weight per point. */
  lemma CollapseReady(s: seq<Task>, natoms: nat, pad: nat, weighted: bool)
    requires forall x | x in s :: Ready(x, natoms, pad) && (weighted ==> |x.weights| == |x.points|)
    ensures forall t | t in Collapse(s) :: Ready(t, natoms, pad) && (weighted ==> |t.weights| == |t.points|)
  {
    var out := Collapse(s);
    CollapseMergesGroups(s);
    var gs := Groups(s);
    forall t | t in out
      ensures Ready(t, natoms, pad) && (weighted ==> |t.weights| == |t.points|)
    {
      var k :| 0 <= k < |out| && out[k] == t;
      var g := gs[k];
      assert forall x | x in g :: x in s by {
        forall x | x in g ensures x in s {
          var i :| 0 <= i < |g| && g[i] == x;
          FlattenMember(gs, k, i);
        }
      }
      ConcatPadded(g, pad);
      assert g[0] in g;
    }
  }

  /** The work a rank keeps, in any order, is ready. */
  lemma KeptReady(atoms: seq<seq<Batch>>, setup: Setup, worldRank: nat, s: seq<Task>)
    requires ValidSetup(setup, |atoms|)
    requires multiset(s) == multiset(LocalWork(atoms, setup, worldRank))
    ensures forall x | x in s :: Ready(x, |atoms|, setup.pad) && (WeightsMatch(atoms) ==> |x.weights| == |x.points|)
  {
    var p := Plan(atoms, |atoms|, setup);
    var lw := LocalWork(atoms, setup, worldRank);
    PlanReady(atoms, |atoms|, setup);
    KeepForSubset(p.tasks, p.owners, worldRank);
    forall x | x in s
      ensures Ready(x, |atoms|, setup.pad) && (WeightsMatch(atoms) ==> |x.weights| == |x.points|)
    {
      assert x in multiset(lw);
      assert x in lw;
    }
  }

  /** Whatever order std::sort leaves equivalent tasks in, merging the
      sorted kept work gives a strictly increasing list of ready tasks that
      together hold exactly the points and weights the rank kept. */
  lemma SortedShape(atoms: seq<seq<Batch>>, setup: Setup, worldRank: nat, s: seq<Task>)
    requires ValidSetup(setup, |atoms|)
    requires SortedBy(s, TaskLess) && multiset(s) == multiset(LocalWork(atoms, setup, worldRank))
    ensures StrictlySortedBy(Collapse(s), TaskLess)
    ensures forall t | t in Collapse(s) :: Ready(t, |atoms|, setup.pad)
    ensures WeightsMatch(atoms) ==> forall t | t in Collapse(s) :: |t.weights| == |t.points|
    ensures multiset(AllPoints(Collapse(s))) == multiset(AllPoints(LocalWork(atoms, setup, worldRank)))
    ensures multiset(AllWeights(Collapse(s))) == multiset(AllWeights(LocalWork(atoms, setup, worldRank)))
  {
    CollapseOfSortedIsStrict(s);
    CollapsePreservesPayload(s);
    PayloadPermutation(s, LocalWork(atoms, setup, worldRank));
    KeptReady(atoms, setup, worldRank, s);
    CollapseReady(s, |atoms|, setup.pad, WeightsMatch(atoms));
  }

  /** The tasks a rank returns are strictly increasing in the canonical
      order, each is ready for the integrator, and together they hold
      exactly the points and weights of the tasks the rank kept. */
  lemma LocalTasksShape(atoms: seq<seq<Batch>>, setup: Setup, worldRank: nat)
    requires ValidSetup(setup, |atoms|)
    ensures StrictlySortedBy(LocalTasks(atoms, setup, worldRank), TaskLess)
    ensures forall t | t in LocalTasks(atoms, setup, worldRank) :: Ready(t, |atoms|, setup.pad)
    ensures WeightsMatch(atoms) ==> forall t | t in LocalTasks(atoms, setup, worldRank) :: |t.weights| == |t.points|
    ensures multiset(AllPoints(LocalTasks(atoms, setup, worldRank))) == multiset(AllPoints(LocalWork(atoms, setup, worldRank)))
    ensures multiset(AllWeights(LocalTasks(atoms, setup, worldRank))) == multiset(AllWeights(LocalWork(atoms, setup, worldRank)))
  {
    TaskLessIsStrictWeakOrder();
    var s := InsertionSort(LocalWork(atoms, setup, worldRank), TaskLess);
    assert Collapse(s) == LocalTasks(atoms, setup, worldRank);
    SortedShape(atoms, setup, worldRank, s);
  }

  /** std::sort may leave two equivalent tasks in either order, and the
      merged task keeps the second screening of whichever comes first. */
  lemma SortOrderDecidesBfn2()
    ensures var p := Point(0.0, 0.0, 0.0);
      var a := Task(0, 1, [p], [1.0], Screening([3], 1), Screening([7], 1), 0.5);
      var b := a.(bfn2 := Screening([8], 1));
      && Equiv(a, b) && SortedBy([a, b], TaskLess) && SortedBy([b, a], TaskLess)
      && Collapse([a, b])[0].bfn2 != Collapse([b, a])[0].bfn2
  {
    var p := Point(0.0, 0.0, 0.0);
    var a := Task(0, 1, [p], [1.0], Screening([3], 1), Screening([7], 1), 0.5);
    var b := a.(bfn2 := Screening([8], 1));
    CollapseMergesGroups([a, b]);
    CollapseMergesGroups([b, a]);
    assert Groups([a, b])[0][0] == a;
    assert Groups([b, a])[0][0] == b;
  }

  // ---------------------------------------------------------------------------
  // What all ranks return

  /** The points ranks 0 .. n-1 return, pooled. */
  function ReturnedPoints(atoms: seq<seq<Batch>>, setup: Setup, n: nat): multiset<Point>
    requires ValidSetup(setup, |atoms|)
    decreases n
  {
    if n == 0 then multiset{}
    else ReturnedPoints(atoms, setup, n - 1) + multiset(AllPoints(LocalTasks(atoms, setup, n - 1)))
  }

  /** The weights ranks 0 .. n-1 return, pooled. */
  function ReturnedWeights(atoms: seq<seq<Batch>>, setup: Setup, n: nat): multiset<real>
    requires ValidSetup(setup, |atoms|)
    decreases n
  {
    if n == 0 then multiset{}
    else ReturnedWeights(atoms, setup, n - 1) + multiset(AllWeights(LocalTasks(atoms, setup, n - 1)))
  }

  /** Coverage: over ranks 0 .. worldSize-1 the returned, merged tasks hold
      every point and weight of every dealt task exactly as often as it was
      dealt. */
  lemma ReturnedPayload(atoms: seq<seq<Batch>>, setup: Setup)
    requires ValidSetup(setup, |atoms|)
    ensures ReturnedPoints(atoms, setup, setup.worldSize) == multiset(AllPoints(Plan(atoms, |atoms|, setup).tasks))
    ensures ReturnedWeights(atoms, setup, setup.worldSize) == multiset(AllWeights(Plan(atoms, |atoms|, setup).tasks))
  {
    var p := Plan(atoms, |atoms|, setup);
    var k := 0;
    while k < setup.worldSize
      invariant k <= setup.worldSize
      invariant ReturnedPoints(atoms, setup, k) == multiset(AllPoints(KeptByRanks(p.tasks, p.owners, k)))
      invariant ReturnedWeights(atoms, setup, k) == multiset(AllWeights(KeptByRanks(p.tasks, p.owners, k)))
    {
      k := k + 1;
      assert Plan(atoms, |atoms|, setup) == Schedule(p.tasks, p.owners, p.ledger);
      assert ReturnedPoints(atoms, setup, k - 1) == multiset(AllPoints(KeptByRanks(p.tasks, p.owners, k - 1)));
      assert ReturnedWeights(atoms, setup, k - 1) == multiset(AllWeights(KeptByRanks(p.tasks, p.owners, k - 1)));
      ReturnedStep(atoms, setup, k, p.tasks, p.owners);
    }
    KeptByRanksUnion(p.tasks, p.owners, setup.worldSize);
    WorkPartitioned(atoms, setup);
    PayloadPermutation(KeptByRanks(p.tasks, p.owners, setup.worldSize), p.tasks);
  }

  lemma ReturnedStep(atoms: seq<seq<Batch>>, setup: Setup, n: nat, ts: seq<Task>, owners: seq<nat>)
    requires ValidSetup(setup, |atoms|) && n > 0
    requires Plan(atoms, |atoms|, setup) == Schedule(ts, owners, Plan(atoms, |atoms|, setup).ledger)
    requires ReturnedPoints(atoms, setup, n - 1) == multiset(AllPoints(KeptByRanks(ts, owners, n - 1)))
    requires ReturnedWeights(atoms, setup, n - 1) == multiset(AllWeights(KeptByRanks(ts, owners, n - 1)))
    ensures ReturnedPoints(atoms, setup, n) == multiset(AllPoints(KeptByRanks(ts, owners, n)))
    ensures ReturnedWeights(atoms, setup, n) == multiset(AllWeights(KeptByRanks(ts, owners, n)))
  {
    var kept := KeepFor(ts, owners, n - 1);
    assert kept == LocalWork(atoms, setup, n - 1);
    LocalTasksPayload(atoms, setup, n - 1, kept);
    PayloadJoin(KeptByRanks(ts, owners, n - 1), kept, LocalTasks(atoms, setup, n - 1), KeptByRanks(ts, owners, n),
      ReturnedPoints(atoms, setup, n - 1), ReturnedPoints(atoms, setup, n),
      ReturnedWeights(atoms, setup, n - 1), ReturnedWeights(atoms, setup, n));
  }

  lemma LocalTasksPayload(atoms: seq<seq<Batch>>, setup: Setup, worldRank: nat, kept: seq<Task>)
    requires ValidSetup(setup, |atoms|) && kept == LocalWork(atoms, setup, worldRank)
    ensures multiset(AllPoints(LocalTasks(atoms, setup, worldRank))) == multiset(AllPoints(kept))
    ensures multiset(AllWeights(LocalTasks(atoms, setup, worldRank))) == multiset(AllWeights(kept))
  {
    LocalTasksShape(atoms, setup, worldRank);
  }

  /** Adding a list whose payload matches `kept` to the payload of `before`
      gives the payload of `before + kept`. */
  lemma PayloadJoin(before: seq<Task>, kept: seq<Task>, out: seq<Task>, whole: seq<Task>,
                    p0: multiset<Point>, p1: multiset<Point>, w0: multiset<real>, w1: multiset<real>)
    requires whole == before + kept
    requires multiset(AllPoints(out)) == multiset(AllPoints(kept))
    requires multiset(AllWeights(out)) == multiset(AllWeights(kept))
    requires p0 == multiset(AllPoints(before)) && p1 == p0 + multiset(AllPoints(out))
    requires w0 == multiset(AllWeights(before)) && w1 == w0 + multiset(AllWeights(out))
    ensures p1 == multiset(AllPoints(whole)) && w1 == multiset(AllWeights(whole))
  {
    AllPointsAppend(before, kept);
    AllWeightsAppend(before, kept);
  }

  // ---------------------------------------------------------------------------
  // A worked trace

  const Origin := Point(0.0, 0.0, 0.0)

  /** A batch of `n` points at the origin, each of weight 1. */
  function TraceBatch(n: nat): Batch {
    Batch(Origin, Origin, Repeat(Origin, n), Repeat(1.0, n))
  }

  /** Every box keeps shell 0. */
  function TraceScreen(lo: Point, up: Point): Screening {
    Screening([0], 1)
  }

  /** A task costs its point count. */
  function TraceCost(t: Task, nDeriv: int, natoms: nat): nat {
    |t.points|
  }

  /** One atom, pad 4, two ranks. */
  function TraceSetup(): Setup {
    Setup(TraceScreen, None, [1.0], 4, 2, TraceCost)
  }

  /** One atom whose batches hold 10, 0, 15 and 10 points. */
  function TraceAtoms(): seq<seq<Batch>> {
    [[TraceBatch(10), TraceBatch(0), TraceBatch(15), TraceBatch(10)]]
  }

  /** The task a non-empty trace batch of `n` points yields. */
  function TraceTask(n: nat): Task {
    Task(0, n, Repeat(Origin, n), Repeat(1.0, n), Screening([0], 1), NoScreening, 1.0)
  }

  lemma TraceRound()
    ensures Round(TraceAtoms(), 0, TraceSetup())
      == [PadTask(TraceTask(10), 4), PadTask(TraceTask(15), 4), PadTask(TraceTask(10), 4)]
  {
    assert TraceAtoms()[..0] == [];
    var c := Candidates(0, 0, TraceAtoms()[0], TraceSetup(), 1.0);
    TraceCandidates();
    assert TasksOf(c) == [TraceTask(10), TraceTask(15), TraceTask(10)];
  }

  lemma TraceMakeTasks()
    ensures var bs, setup := TraceAtoms()[0], TraceSetup();
      && MakeTask(0, bs[0], setup, 1.0) == Some(TraceTask(10))
      && MakeTask(0, bs[1], setup, 1.0) == None
      && MakeTask(0, bs[2], setup, 1.0) == Some(TraceTask(15))
      && MakeTask(0, bs[3], setup, 1.0) == Some(TraceTask(10))
  {
  }

  lemma TraceCandidates()
    ensures Candidates(0, 0, TraceAtoms()[0], TraceSetup(), 1.0)
      == [(0, TraceTask(10)), (2, TraceTask(15)), (3, TraceTask(10))]
  {
    var bs, setup := TraceAtoms()[0], TraceSetup();
    TraceMakeTasks();
    assert bs[..3][..2] == bs[..2] && bs[..2][..1] == bs[..1] && bs[..1][..0] == [];
    assert bs[..4] == bs;
    assert Candidates(0, 0, bs[..1], setup, 1.0) == [(0, TraceTask(10))];
    assert Candidates(0, 0, bs[..2], setup, 1.0) == [(0, TraceTask(10))];
    assert Candidates(0, 0, bs[..3], setup, 1.0) == [(0, TraceTask(10)), (2, TraceTask(15))];
  }

  lemma TracePadded(n: nat)
    requires n in {10, 15}
    ensures var t := PadTask(TraceTask(n), 4);
      && |t.points| == (if n == 10 then 12 else 16)
      && Equiv(t, TraceTask(10))
  {
    PadTaskSpec(TraceTask(n), 4);
  }

  lemma TraceGreedy()
    ensures Owners([0, 0], [12, 16, 12]) == [0, 1, 0]
    ensures Ledger([0, 0], [12, 16, 12]) == [24, 16]
  {
  }

  lemma TracePlan()
    ensures var x, y := PadTask(TraceTask(10), 4), PadTask(TraceTask(15), 4);
      Plan(TraceAtoms(), 1, TraceSetup()) == Schedule([x, y, x], [0, 1, 0], [24, 16])
  {
    var atoms, setup := TraceAtoms(), TraceSetup();
    var round := Round(atoms, 0, setup);
    var costs := Costs(round, setup.cost, 1);
    PlanOfOneAtom(atoms, 1, setup);
    TraceRound();
    TraceCosts();
    assert costs == [12, 16, 12];
    assert Zeros(setup.worldSize) == [0, 0];
    TraceGreedy();
  }

  /** With one atom, the plan is one greedy round from an idle workload. */
  lemma PlanOfOneAtom(atoms: seq<seq<Batch>>, natoms: nat, setup: Setup)
    requires |atoms| == 1 && setup.worldSize > 0 && setup.pad > 0 && |setup.distNearest| >= 1
    ensures var round := Round(atoms, 0, setup);
      var costs := Costs(round, setup.cost, natoms);
      Plan(atoms, natoms, setup) == Schedule(round, Owners(Zeros(setup.worldSize), costs), Ledger(Zeros(setup.worldSize), costs))
  {
    PlanIsOnePass(atoms, natoms, setup);
    assert atoms[..0] == [];
    assert Plan(atoms, natoms, setup).tasks == [] + Round(atoms, 0, setup);
  }

  lemma TraceCosts()
    ensures var x, y := PadTask(TraceTask(10), 4), PadTask(TraceTask(15), 4);
      Costs([x, y, x], TraceCost, 1) == [12, 16, 12]
  {
    TracePadded(10);
    TracePadded(15);
  }

  lemma KeepTrace(x: Task, y: Task)
    ensures KeepFor([x, y, x], [0, 1, 0], 0) == [x, x]
    ensures KeepFor([x, y, x], [0, 1, 0], 1) == [y]
  {
    assert [x, y, x][..2] == [x, y] && [x, y][..1] == [x] && [x][..0] == [];
    assert [0, 1, 0][..2] == [0, 1] && [0, 1][..1] == [0] && [0][..0] == [];
    assert KeepFor([x], [0], 0) == [x] && KeepFor([x], [0], 1) == [];
    assert KeepFor([x, y], [0, 1], 0) == [x] && KeepFor([x, y], [0, 1], 1) == [y];
  }

  /** Sorting and merging two copies of a task gives one task with both
      copies' points; a single task stays as it is. */
  lemma CollapseTrace(x: Task, y: Task)
    ensures StrictWeakOrder(TaskLess)
    ensures |Collapse(InsertionSort([x, x], TaskLess))| == 1
    ensures |Collapse(InsertionSort([x, x], TaskLess))[0].points| == 2 * |x.points|
    ensures Collapse(InsertionSort([y], TaskLess)) == [MergeGroup([y])]
    ensures |MergeGroup([y]).points| == |y.points|
  {
    TaskLessIsStrictWeakOrder();
    var s0 := InsertionSort([x, x], TaskLess);
    assert s0 == [x, x] by {
      assert multiset(s0) == multiset{x, x};
      assert s0[0] in multiset(s0) && s0[1] in multiset(s0);
    }
    var s1 := InsertionSort([y], TaskLess);
    assert s1 == [y] by {
      assert multiset(s1) == multiset{y};
      assert s1[0] in multiset(s1);
    }
    assert [x, x][1..] == [x] && [x][1..] == [];
    assert Groups([x, x]) == [[x, x]];
    assert [y][1..] == [];
    assert Groups([y]) == [[y]];
    assert [x, x][..1] == [x] && [x][..0] == [];
    assert [y][..0] == [];
    assert AllPoints([x]) == x.points;
    assert AllPoints([x, x]) == x.points + x.points;
    assert AllPoints([y]) == y.points;
  }

  /** One atom whose batches hold 10, 0, 15 and 10 points, every shell
      surviving screening, pad 4, the point count as cost and two ranks.  The
      empty batch is dropped, the others grow to 12, 16 and 12 points and go
      to ranks 0, 1 and 0, leaving loads of 24 and 16; rank 0 merges its two
      equivalent tasks into one of 24 points. */
  lemma PaddedTrace()
    ensures var plan := Plan(TraceAtoms(), 1, TraceSetup());
      && |plan.tasks| == 3
      && |plan.tasks[0].points| == 12 && |plan.tasks[1].points| == 16 && |plan.tasks[2].points| == 12
      && plan.owners == [0, 1, 0]
      && plan.ledger == [24, 16]
      && |LocalTasks(TraceAtoms(), TraceSetup(), 0)| == 1 && |LocalTasks(TraceAtoms(), TraceSetup(), 0)[0].points| == 24
      && |LocalTasks(TraceAtoms(), TraceSetup(), 1)| == 1 && |LocalTasks(TraceAtoms(), TraceSetup(), 1)[0].points| == 16
  {
    var x, y := PadTask(TraceTask(10), 4), PadTask(TraceTask(15), 4);
    TracePlan();
    TracePadded(10);
    TracePadded(15);
    KeepTrace(x, y);
    CollapseTrace(x, y);
    assert LocalWork(TraceAtoms(), TraceSetup(), 0) == [x, x];
    assert LocalWork(TraceAtoms(), TraceSetup(), 1) == [y];
  }
}
