/** The replicated host load balancer: builds the tasks of every atom's
    quadrature batches, pads them, deals them out to ranks greedily by
    accumulated cost, and returns this rank's tasks in canonical order with
    equivalent tasks merged. */
module ReplicatedHost {
  import opened Wrappers
  import opened Sorting
  import opened XCTask
  import opened Padding
  import opened Greedy
  import opened Canonical

  /** One batch produced by an atom's grid batcher: the bounding box of its
      points, the points and their quadrature weights. */
  datatype Batch = Batch(lo: Point, up: Point, points: seq<Point>, weights: seq<real>)

  /** Micro-batch screening of one basis set against a bounding box. */
  type Screener = (Point, Point) -> Screening

  /** Everything the balancer reads besides the batches: the screening of the
      basis and of the optional second (protonic) basis, the distance from each
      atom to its nearest neighbour, the pad value, the number of ranks and
      the cost heuristic of a task. */
  datatype Setup = Setup(
    screen: Screener,
    screen2: Option<Screener>,
    distNearest: seq<real>,
    pad: nat,
    worldSize: nat,
    cost: CostModel)

  /** A setup the balancer can run with: at least one rank, a positive pad
      value and a nearest-neighbour distance for each of `natoms` atoms. */
  predicate ValidSetup(setup: Setup, natoms: nat) {
    setup.worldSize > 0 && setup.pad > 0 && |setup.distNearest| == natoms
  }

  // ---------------------------------------------------------------------------
  // Building the tasks of one atom

  /** The task built from batch `b` of atom `iParent`, or None when the batch
      is skipped: it has no points, or no shell of the basis survives
      screening.  The second basis only fills in the second screening. */
  function MakeTask(iParent: nat, b: Batch, setup: Setup, dist: real): (r: Option<Task>)
    ensures r.Some? <==> |b.points| > 0 && |setup.screen(b.lo, b.up).shellList| > 0
    ensures r.Some? ==>
      && r.value.iParent == iParent
      && r.value.points == b.points && r.value.weights == b.weights
      && r.value.npts == |b.points|
      && r.value.bfn == setup.screen(b.lo, b.up)
      && r.value.distNearest == dist
    ensures r.Some? ==> r.value.bfn2 == (if setup.screen2.Some? then setup.screen2.value(b.lo, b.up) else NoScreening)
  {
    if |b.points| == 0 then None
    else
      var bfn := setup.screen(b.lo, b.up);
      var bfn2 := if setup.screen2.Some? then setup.screen2.value(b.lo, b.up) else NoScreening;
      if |bfn.shellList| == 0 then None
      else Some(Task(iParent, |b.points|, b.points, b.weights, bfn, bfn2, dist))
  }

  /** Orders (batch index, task) pairs by batch index alone. */
  predicate IndexLess(a: (nat, Task), b: (nat, Task)) {
    a.0 < b.0
  }

  lemma IndexLessIsStrictWeakOrder()
    ensures StrictWeakOrder(IndexLess)
  {
  }

  /** The pushed candidates sorted by batch index. */
  function SortByIndex(pushed: seq<(nat, Task)>): (s: seq<(nat, Task)>)
    ensures SortedBy(s, IndexLess)
    ensures multiset(s) == multiset(pushed)
  {
    IndexLessIsStrictWeakOrder();
    InsertionSort(pushed, IndexLess)
  }

  /** The tasks of atom `iAtom`, tagged with their global batch index
      `offset + ib`, in batch order. */
  function Candidates(iAtom: nat, offset: nat, batches: seq<Batch>, setup: Setup, dist: real): (c: seq<(nat, Task)>)
    ensures forall k | 0 <= k < |c| :: offset <= c[k].0 < offset + |batches|
    ensures StrictlySortedBy(c, IndexLess)
    decreases |batches|
  {
    if |batches| == 0 then []
    else
      var n := |batches| - 1;
      var prev := Candidates(iAtom, offset, batches[..n], setup, dist);
      var t := MakeTask(iAtom, batches[n], setup, dist);
      if t.Some? then prev + [(offset + n, t.value)] else prev
  }

  /** Each entry of `c` is the task its batch yields. */
  predicate Sound(c: seq<(nat, Task)>, iAtom: nat, offset: nat, batches: seq<Batch>, setup: Setup, dist: real) {
    forall k | 0 <= k < |c| ::
      offset <= c[k].0 < offset + |batches| && MakeTask(iAtom, batches[c[k].0 - offset], setup, dist) == Some(c[k].1)
  }

  /** Every batch that yields a task has an entry in `c`. */
  predicate Complete(c: seq<(nat, Task)>, iAtom: nat, offset: nat, batches: seq<Batch>, setup: Setup, dist: real) {
    forall ib | 0 <= ib < |batches| && MakeTask(iAtom, batches[ib], setup, dist).Some? ::
      exists k | 0 <= k < |c| :: c[k].0 == offset + ib
  }

  /** Each candidate is the task its batch yields. */
  lemma {:induction false} CandidatesSound(iAtom: nat, offset: nat, batches: seq<Batch>, setup: Setup, dist: real)
    ensures Sound(Candidates(iAtom, offset, batches, setup, dist), iAtom, offset, batches, setup, dist)
    decreases |batches|
  {
    if |batches| > 0 {
      var n := |batches| - 1;
      CandidatesSound(iAtom, offset, batches[..n], setup, dist);
      var prev := Candidates(iAtom, offset, batches[..n], setup, dist);
      var c := Candidates(iAtom, offset, batches, setup, dist);
      var t := MakeTask(iAtom, batches[n], setup, dist);
      assert c == if t.Some? then prev + [(offset + n, t.value)] else prev;
      forall k | 0 <= k < |c|
        ensures MakeTask(iAtom, batches[c[k].0 - offset], setup, dist) == Some(c[k].1)
      {
        if k < |prev| {
          assert c[k] == prev[k];
          assert batches[..n][prev[k].0 - offset] == batches[c[k].0 - offset];
        }
      }
    }
  }

  /** Every batch that yields a task has a candidate. */
  lemma {:induction false} CandidatesComplete(iAtom: nat, offset: nat, batches: seq<Batch>, setup: Setup, dist: real)
    ensures Complete(Candidates(iAtom, offset, batches, setup, dist), iAtom, offset, batches, setup, dist)
    decreases |batches|
  {
    if |batches| > 0 {
      var n := |batches| - 1;
      CandidatesComplete(iAtom, offset, batches[..n], setup, dist);
      var prev := Candidates(iAtom, offset, batches[..n], setup, dist);
      var c := Candidates(iAtom, offset, batches, setup, dist);
      var t := MakeTask(iAtom, batches[n], setup, dist);
      assert c == if t.Some? then prev + [(offset + n, t.value)] else prev;
      forall ib | 0 <= ib < |batches| && MakeTask(iAtom, batches[ib], setup, dist).Some?
        ensures exists k | 0 <= k < |c| :: c[k].0 == offset + ib
      {
        if ib < n {
          assert batches[..n][ib] == batches[ib];
          var k :| 0 <= k < |prev| && prev[k].0 == offset + ib;
          assert c[k] == prev[k];
        } else {
          assert c[|c| - 1].0 == offset + ib;
        }
      }
    }
  }

  /** The tasks of a candidate list, dropping the indices. */
  function TasksOf(c: seq<(nat, Task)>): (ts: seq<Task>)
    ensures |ts| == |c|
    ensures forall k | 0 <= k < |c| :: ts[k] == c[k].1
  {
    seq(|c|, k requires 0 <= k < |c| => c[k].1)
  }

  /** Whatever order the parallel batch loop pushed the candidates in,
      sorting them by batch index restores batch order. */
  lemma ArrivalOrderIrrelevant(iAtom: nat, offset: nat, batches: seq<Batch>, setup: Setup, dist: real,
                               pushed: seq<(nat, Task)>)
    requires multiset(pushed) == multiset(Candidates(iAtom, offset, batches, setup, dist))
    ensures SortByIndex(pushed) == Candidates(iAtom, offset, batches, setup, dist)
  {
    IndexLessIsStrictWeakOrder();
    var c := Candidates(iAtom, offset, batches, setup, dist);
    SortedUnique(c, SortByIndex(pushed), IndexLess);
  }

  // ---------------------------------------------------------------------------
  // Padding and costing a round

  /** Every task of `ts` padded to a multiple of `pad`. */
  function PadAll(ts: seq<Task>, pad: nat): (r: seq<Task>)
    requires pad > 0
    ensures |r| == |ts|
    ensures forall k | 0 <= k < |ts| :: r[k] == PadTask(ts[k], pad)
    decreases |ts|
  {
    if |ts| == 0 then [] else PadAll(ts[..|ts| - 1], pad) + [PadTask(ts[|ts| - 1], pad)]
  }

  /** The cost heuristic of each task, for a molecule of `natoms` atoms. */
  function Costs(ts: seq<Task>, cost: CostModel, natoms: nat): (cs: seq<nat>)
    ensures |cs| == |ts|
    ensures forall k | 0 <= k < |ts| :: cs[k] == cost(ts[k], NDeriv, natoms)
    decreases |ts|
  {
    if |ts| == 0 then [] else Costs(ts[..|ts| - 1], cost, natoms) + [cost(ts[|ts| - 1], NDeriv, natoms)]
  }

  lemma CostsAppend(a: seq<Task>, b: seq<Task>, cost: CostModel, natoms: nat)
    ensures Costs(a + b, cost, natoms) == Costs(a, cost, natoms) + Costs(b, cost, natoms)
  {
    var l := Costs(a + b, cost, natoms);
    var r := Costs(a, cost, natoms) + Costs(b, cost, natoms);
    assert |l| == |r|;
    forall k | 0 <= k < |l| ensures l[k] == r[k] {
      if k < |a| { assert (a + b)[k] == a[k]; } else { assert (a + b)[k] == b[k - |a|]; }
    }
  }

  /** A workload of `n` ranks with no work yet. */
  function Zeros(n: nat): (z: seq<nat>)
    ensures |z| == n
    ensures forall i | 0 <= i < n :: z[i] == 0
  {
    seq(n, _ => 0)
  }

  /** The number of batches of the atoms before the next one: the offset of
      the next atom's batch indices. */
  function TotalBatches(atoms: seq<seq<Batch>>): nat
    decreases |atoms|
  {
    if |atoms| == 0 then 0 else TotalBatches(atoms[..|atoms| - 1]) + |atoms[|atoms| - 1]|
  }

  // ---------------------------------------------------------------------------
  // The whole assignment

  /** The state after dealing out the rounds of some atoms: every task dealt
      so far, in order, the rank each went to, and the accumulated workload. */
  datatype Schedule = Schedule(tasks: seq<Task>, owners: seq<nat>, ledger: seq<nat>)

  /** The padded tasks of atom `i`, in batch order: one round of assignment. */
  function Round(atoms: seq<seq<Batch>>, i: nat, setup: Setup): (ts: seq<Task>)
    requires i < |atoms| && i < |setup.distNearest| && setup.pad > 0
  {
    PadAll(TasksOf(Candidates(i, TotalBatches(atoms[..i]), atoms[i], setup, setup.distNearest[i])), setup.pad)
  }

  /** Deals out the rounds of `atoms` (the first atoms of a molecule of
      `natoms`) one after the other, sharing one workload across rounds. */
  function Plan(atoms: seq<seq<Batch>>, natoms: nat, setup: Setup): (p: Schedule)
    requires setup.worldSize > 0 && setup.pad > 0 && |atoms| <= |setup.distNearest|
    ensures |p.tasks| == |p.owners| && |p.ledger| == setup.worldSize
    ensures forall i | 0 <= i < |p.owners| :: p.owners[i] < setup.worldSize
    decreases |atoms|
  {
    if |atoms| == 0 then Schedule([], [], Zeros(setup.worldSize))
    else
      var k := |atoms| - 1;
      var prev := Plan(atoms[..k], natoms, setup);
      assert atoms[..k][..k] == atoms[..k];
      var round := Round(atoms, k, setup);
      var costs := Costs(round, setup.cost, natoms);
      var o := Owners(prev.ledger, costs);
      assert forall i | 0 <= i < |prev.owners| + |o| ::
        (prev.owners + o)[i] == if i < |prev.owners| then prev.owners[i] else o[i - |prev.owners|];
      Schedule(prev.tasks + round, prev.owners + o, Ledger(prev.ledger, costs))
  }

  /** The tasks rank `worldRank` keeps, in the order they were dealt. */
  function LocalWork(atoms: seq<seq<Batch>>, setup: Setup, worldRank: nat): seq<Task>
    requires ValidSetup(setup, |atoms|)
  {
    var p := Plan(atoms, |atoms|, setup);
    KeepFor(p.tasks, p.owners, worldRank)
  }

  /** The tasks rank `worldRank` ends up with: its kept tasks sorted by
      (parent atom, shell list), with each run of equivalent tasks merged. */
  function LocalTasks(atoms: seq<seq<Batch>>, setup: Setup, worldRank: nat): seq<Task>
    requires ValidSetup(setup, |atoms|)
  {
    TaskLessIsStrictWeakOrder();
    Collapse(InsertionSort(LocalWork(atoms, setup, worldRank), TaskLess))
  }

  // ---------------------------------------------------------------------------
  // The balancer as an algorithm

  /** The costs of the padded tasks of `ts`. */
  function PaddedCosts(ts: seq<Task>, setup: Setup, natoms: nat): (cs: seq<nat>)
    requires setup.pad > 0
    ensures |cs| == |ts|
  {
    Costs(PadAll(ts, setup.pad), setup.cost, natoms)
  }

  /** Dealing out one more task of a round charges the ledger at its first
      minimum. */
  lemma LedgerRoundStep(ledger0: seq<nat>, round: seq<Task>, setup: Setup, natoms: nat, i: nat)
    requires |ledger0| > 0 && setup.pad > 0 && i < |round|
    ensures Ledger(ledger0, PaddedCosts(round[..i + 1], setup, natoms))
      == Charge(Ledger(ledger0, PaddedCosts(round[..i], setup, natoms)), setup.cost(PadTask(round[i], setup.pad), NDeriv, natoms))
  {
    PaddedCostsSnoc(round, setup, natoms, i);
  }

  /** Dealing out one more task of a round keeps it exactly when the first
      minimum of the ledger is `worldRank`. */
  lemma KeptRoundStep(ledger0: seq<nat>, round: seq<Task>, setup: Setup, natoms: nat, worldRank: nat, i: nat)
    requires |ledger0| > 0 && setup.pad > 0 && i < |round|
    ensures KeepFor(PadAll(round[..i + 1], setup.pad), Owners(ledger0, PaddedCosts(round[..i + 1], setup, natoms)), worldRank)
      == KeepFor(PadAll(round[..i], setup.pad), Owners(ledger0, PaddedCosts(round[..i], setup, natoms)), worldRank)
         + (if FirstMin(Ledger(ledger0, PaddedCosts(round[..i], setup, natoms))) == worldRank then [PadTask(round[i], setup.pad)] else [])
  {
    PaddedCostsSnoc(round, setup, natoms, i);
    PadAllSnoc(round, setup.pad, i);
    var cb := PaddedCosts(round[..i], setup, natoms);
    var ob := Owners(ledger0, cb);
    var oa := Owners(ledger0, PaddedCosts(round[..i + 1], setup, natoms));
    assert oa == ob + [FirstMin(Ledger(ledger0, cb))];
    assert oa[..i] == ob;
  }

  lemma PadAllSnoc(round: seq<Task>, pad: nat, i: nat)
    requires pad > 0 && i < |round|
    ensures PadAll(round[..i + 1], pad) == PadAll(round[..i], pad) + [PadTask(round[i], pad)]
  {
    assert round[..i + 1][..i] == round[..i];
  }

  lemma PaddedCostsSnoc(round: seq<Task>, setup: Setup, natoms: nat, i: nat)
    requires setup.pad > 0 && i < |round|
    ensures PaddedCosts(round[..i + 1], setup, natoms)
      == PaddedCosts(round[..i], setup, natoms) + [setup.cost(PadTask(round[i], setup.pad), NDeriv, natoms)]
  {
    PadAllSnoc(round, setup.pad, i);
    var after := PadAll(round[..i + 1], setup.pad);
    assert after[..i] == PadAll(round[..i], setup.pad);
  }

  /** Before the first task of a round nothing is charged or kept. */
  lemma RoundStart(ledger0: seq<nat>, round: seq<Task>, setup: Setup, natoms: nat, worldRank: nat)
    requires |ledger0| > 0 && setup.pad > 0
    ensures Ledger(ledger0, PaddedCosts(round[..0], setup, natoms)) == ledger0
    ensures KeepFor(PadAll(round[..0], setup.pad), Owners(ledger0, PaddedCosts(round[..0], setup, natoms)), worldRank) == []
  {
    assert PaddedCosts(round[..0], setup, natoms) == [];
  }

  /** Scans the ledger as std::min_element does, keeping the first entry
      that no later entry undercuts, and adds `c` to it. */
  method ChargeMin(ledger: seq<nat>, c: nat) returns (l: seq<nat>, minRank: nat)
    requires |ledger| > 0
    ensures minRank == FirstMin(ledger)
    ensures |l| == |ledger| && l[minRank] == ledger[minRank] + c
    ensures forall j | 0 <= j < |ledger| && j != minRank :: l[j] == ledger[j]
  {
    minRank := 0;
    var i := 1;
    while i < |ledger|
      invariant minRank < i <= |ledger|
      invariant forall j | 0 <= j < i :: ledger[minRank] <= ledger[j]
      invariant forall j | 0 <= j < minRank :: ledger[minRank] < ledger[j]
    {
      if ledger[i] < ledger[minRank] {
        minRank := i;
      }
      i := i + 1;
    }
    var k := FirstMin(ledger);
    assert !(k < minRank) && !(minRank < k);
    l := ledger[minRank := ledger[minRank] + c];
  }

  /** What the scan leaves is the ledger charged at its first minimum. */
  lemma ScanIsCharge(ledger: seq<nat>, l: seq<nat>, minRank: nat, c: nat)
    requires |ledger| > 0 && minRank == FirstMin(ledger)
    requires |l| == |ledger| && l[minRank] == ledger[minRank] + c
    requires forall j | 0 <= j < |ledger| && j != minRank :: l[j] == ledger[j]
    ensures l == Charge(ledger, c)
  {
  }

  /** Pads each task of a round and hands it to the first least-loaded rank,
      keeping the tasks that go to `worldRank`. */
  method AssignRound(ledger0: seq<nat>, round: seq<Task>, setup: Setup, natoms: nat, worldRank: nat)
    returns (ledger: seq<nat>, kept: seq<Task>)
    requires |ledger0| > 0 && setup.pad > 0
    ensures ledger == Ledger(ledger0, PaddedCosts(round, setup, natoms))
    ensures kept == KeepFor(PadAll(round, setup.pad), Owners(ledger0, PaddedCosts(round, setup, natoms)), worldRank)
  {
    ledger := ledger0;
    kept := [];
    var i := 0;
    RoundStart(ledger0, round, setup, natoms, worldRank);
    while i < |round|
      invariant 0 <= i <= |round|
      invariant ledger == Ledger(ledger0, PaddedCosts(round[..i], setup, natoms))
      invariant kept == KeepFor(PadAll(round[..i], setup.pad), Owners(ledger0, PaddedCosts(round[..i], setup, natoms)), worldRank)
    {
      LedgerRoundStep(ledger0, round, setup, natoms, i);
      KeptRoundStep(ledger0, round, setup, natoms, worldRank, i);
      var task := PadTask(round[i], setup.pad);
      var minRank;
      var before := ledger;
      ledger, minRank := ChargeMin(ledger, setup.cost(task, NDeriv, natoms));
      ScanIsCharge(before, ledger, minRank, setup.cost(task, NDeriv, natoms));
      if worldRank == minRank {
        kept := kept + [task];
      } else {
        assert kept + [] == kept;
      }
      i := i + 1;
    }
    assert round[..i] == round;
  }

  /** Builds the candidates of one atom in batch order, as the batch loop
      would if it ran sequentially. */
  method BuildCandidates(iAtom: nat, offset: nat, batches: seq<Batch>, setup: Setup, dist: real)
    returns (c: seq<(nat, Task)>)
    ensures c == Candidates(iAtom, offset, batches, setup, dist)
  {
    c := [];
    var ib := 0;
    while ib < |batches|
      invariant 0 <= ib <= |batches|
      invariant c == Candidates(iAtom, offset, batches[..ib], setup, dist)
    {
      var t := MakeTask(iAtom, batches[ib], setup, dist);
      if t.Some? {
        c := c + [(ib + offset, t.value)];
      }
      assert batches[..ib + 1][..ib] == batches[..ib];
      ib := ib + 1;
    }
    assert batches[..ib] == batches;
  }

  /** The balancer run on rank `worldRank`.  `arrival(i, c)` is the order in
      which the parallel batch loop of atom `i` pushed its candidates `c`: any
      permutation of them.  The result is the same whatever that order. */
  method CreateLocalTasks(atoms: seq<seq<Batch>>, setup: Setup, worldRank: nat,
                          arrival: (nat, seq<(nat, Task)>) -> seq<(nat, Task)>)
    returns (r: Result<seq<Task>, string>)
    requires ValidSetup(setup, |atoms|)
    requires forall i, c :: multiset(arrival(i, c)) == multiset(c)
    ensures r == Success(LocalTasks(atoms, setup, worldRank))
  {
    var natoms := |atoms|;
    var localWork: seq<Task> := [];
    var ledger := Zeros(setup.worldSize);
    var offset := 0;
    var iCurrent := 0;
    while iCurrent < natoms
      invariant 0 <= iCurrent <= natoms
      invariant offset == TotalBatches(atoms[..iCurrent])
      invariant ledger == Plan(atoms[..iCurrent], natoms, setup).ledger
      invariant localWork == KeepFor(Plan(atoms[..iCurrent], natoms, setup).tasks,
                                     Plan(atoms[..iCurrent], natoms, setup).owners, worldRank)
    {
      var dist := setup.distNearest[iCurrent];
      var cands := BuildCandidates(iCurrent, offset, atoms[iCurrent], setup, dist);
      var pushed := arrival(iCurrent, cands);
      // Every round is flushed at the end of its atom (one atom per round).
      var sorted := SortByIndex(pushed);
      ArrivalOrderIrrelevant(iCurrent, offset, atoms[iCurrent], setup, dist, pushed);
      ghost var prefix := atoms[..iCurrent + 1];
      assert prefix[..iCurrent] == atoms[..iCurrent];
      ghost var prev := Plan(atoms[..iCurrent], natoms, setup);
      assert TasksOf(sorted) == TasksOf(Candidates(iCurrent, TotalBatches(prefix[..iCurrent]), prefix[iCurrent], setup, setup.distNearest[iCurrent]));
      var kept;
      ledger, kept := AssignRound(ledger, TasksOf(sorted), setup, natoms, worldRank);
      ghost var round := Round(prefix, iCurrent, setup);
      ghost var costs := Costs(round, setup.cost, natoms);
      KeepForAppend(prev.tasks, prev.owners, round, Owners(prev.ledger, costs), worldRank);
      localWork := localWork + kept;
      offset := offset + |atoms[iCurrent]|;
      iCurrent := iCurrent + 1;
    }
    assert atoms[..iCurrent] == atoms;
    TaskLessIsStrictWeakOrder();
    var sortedWork := InsertionSort(localWork, TaskLess);
    r := UniqueAndMerge(sortedWork);
  }
}
